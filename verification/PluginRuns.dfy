/** The plugin as a whole: the steps that give and take identities, interleaved with avatar requests
    and passes, are histories that the avatar theorems allow. */
module PluginRuns {
  import opened Prelude
  import opened Manager
  import opened StringTable
  import opened Avatar
  import Engine
  import BotInfo
  import A = Allocation
  import I = AvatarInvariant
  import T = AvatarTheorems
  import R = AvatarRuns
  import X = AvatarExactness

  datatype State = State(identities: A.State, states: Runtimes, table: Table)

  // What the reconciler sees of it.
  function View(s: State): World {
    World(s.identities.slots, s.states, s.table)
  }

  datatype Event = Identity(step: A.Event) | Avatars(step': R.Event)

  // The avatar steps that are not identity steps seen from the reconciler.
  predicate IsAvatarStep(e: R.Event) {
    e.SetAvatar? || e.RunPass? || e.ResetOn?
  }

  // Bytes that fit, a pass over every slot, a reset on a table without overrides: nothing is asked
  // of the identity steps.
  ghost predicate Allowed(s: State, e: Event) {
    e.Avatars? ==> IsAvatarStep(e.step') && R.Allowed(View(s), e.step')
  }

  ghost function Step(s: State, e: Event): State
    requires Allowed(s, e) && |s.identities.taken| == |s.identities.entries|
  {
    match e
    case Identity(step) => s.(identities := A.Step(s.identities, step))
    case Avatars(step) =>
      var w := R.Step(View(s), step);
      State(s.identities.(slots := w.slots), w.states, w.table)
  }

  // Slots that agree on who has which identity.
  ghost predicate SameIdentities(a: Slots, b: Slots) {
    forall i :: 0 <= i < MAX_SLOTS ==>
      a[i].managed == b[i].managed && a[i].steamId == b[i].steamId && a[i].incarnation == b[i].incarnation
  }

  lemma AvatarStepKeepsIdentities(w: World, e: R.Event)
    requires R.Allowed(w, e) && IsAvatarStep(e)
    requires exists ages :: R.Good(w, ages)
    ensures SameIdentities(w.slots, R.Step(w, e).slots)
  {
    var ages :| R.Good(w, ages);
    match e
    case RunPass(now, faults) =>
      T.PassKeeps(w, ages, SlotOrder(MAX_SLOTS), now, faults);
      hide Pass, I.MidInv;
    case _ =>
  }

  lemma SameIdentitiesKeep(s: A.State, slots: Slots)
    requires A.Inv(s) && SameIdentities(s.slots, slots)
    ensures A.Inv(s.(slots := slots))
  {
    var s' := s.(slots := slots);
    assert forall k :: 0 <= k < |s.entries| ==> (A.IsBound(s', k) <==> A.IsBound(s, k));
    hide BotInfo.DistinctIds;
  }

  ghost predicate Inv(s: State, ages: I.Ages) {
    A.Inv(s.identities) && R.Good(View(s), ages)
  }

  // The step as the reconciler sees it, if it sees it at all.
  ghost function Translated(s: State, e: Event): (es: seq<R.Event>)
    requires Allowed(s, e) && |s.identities.taken| == |s.identities.entries|
    ensures |es| <= 1
  {
    var slots := Step(s, e).identities.slots;
    if e.Avatars? then [e.step']
    else if slots == s.identities.slots then []
    else
      match e.step
      case OnConnected(slot, _, _, _, _, _) =>
        if IsSlot(slot) then [R.Adopt(slot, slots[slot].steamId, slots[slot].incarnation)] else []
      case OnPutInServer(slot, _) => if IsSlot(slot) then [R.Release(slot)] else []
      case OnDisconnect(slot) => if IsSlot(slot) then [R.Release(slot)] else []
      case OnFrame(slot) => if IsSlot(slot) then [R.Release(slot)] else []
      case OnSetSteamId(slot, _, steamId, _) => if IsSlot(slot) then [R.SetSid(slot, steamId)] else []
      case OnLevelChange => [R.ReleaseAll]
      case OnLevelShutdown => [R.ReleaseAll]
      case EngineMoves(_) => []
  }

  // An adoption takes a SteamID that no other bot has.
  lemma AdoptionIsAllowed(s: A.State, slot: int, name: Option<string>, networkId: Option<string>, fake: bool,
                          mode: A.Mode, r: nat)
    requires A.Inv(s)
    ensures var s' := A.Connected(s, slot, name, networkId, fake, mode, r);
            s' != s ==>
              && IsSlot(slot)
              && R.Unused(s.slots, slot, s'.slots[slot].steamId)
              && s'.slots == s.slots[slot := Adopted(s.slots[slot], s'.slots[slot].steamId, s'.slots[slot].incarnation)]
  {
    var s' := A.Connected(s, slot, name, networkId, fake, mode, r);
    if s' != s {
      var occupied := A.Occupied(s.world, s.slots, slot);
      assert occupied.Some?;
      var pick := BotInfo.Pick(s.entries, s.taken, occupied.value, name, r);
      assert A.Draws(s, slot, name, r, pick.value);
      A.AdoptedIdIsFresh(s, slot, name, mode, r, pick.value);
      hide BotInfo.Pick, A.Occupied, A.ShowAs, A.Inv;
    }
  }

  // So does a change of SteamID.
  lemma ChangeIsAllowed(s: A.State, slot: int, incarnation: uint64, steamId: uint64, mode: A.Mode)
    requires A.Inv(s)
    ensures var s' := A.SetSteamId(s, slot, incarnation, steamId, mode);
            s'.slots != s.slots ==>
              && IsSlot(slot)
              && R.Unused(s.slots, slot, steamId)
              && s'.slots == s.slots[slot := s.slots[slot].(steamId := steamId)]
  {
    A.ChangeGoesThrough(s, slot, incarnation, steamId, mode);
    hide A.ShowAs, A.Occupied, A.Inv;
  }

  lemma ReleaseIsRelease(s: A.State, slot: int, mode: A.Mode)
    requires A.Inv(s)
    ensures var put, gone := A.PutInServer(s, slot, mode), A.Disconnected(s, slot);
            && (put.slots == s.slots || (IsSlot(slot) && put.slots == s.slots[slot := Cleared(s.slots[slot])]))
            && (gone.slots == s.slots || (IsSlot(slot) && gone.slots == s.slots[slot := Cleared(s.slots[slot])]))
    ensures IsSlot(slot) ==>
              var hltv := A.ReleaseHltv(s, slot);
              hltv.slots == s.slots || hltv.slots == s.slots[slot := Cleared(s.slots[slot])]
  {
    hide A.ShowAs, A.Undisguise, A.IsAvailable, A.Inv;
  }

  // Every identity step is a history of at most one event that the avatar theorems allow.
  lemma IdentityStepTranslates(s: State, step: A.Event)
    requires A.Inv(s.identities)
    ensures var e := Identity(step);
            var es := Translated(s, e);
            && (es == [] ==> View(Step(s, e)) == View(s))
            && (es != [] ==> R.Allowed(View(s), es[0]) && R.Step(View(s), es[0]) == View(Step(s, e)))
  {
    match step
    case OnConnected(slot, name, networkId, fake, mode, r) =>
      AdoptionIsAllowed(s.identities, slot, name, networkId, fake, mode, r);
      hide A.Connected, A.Inv, R.Unused;
    case OnPutInServer(slot, mode) =>
      ReleaseIsRelease(s.identities, slot, mode);
      hide A.PutInServer, A.Inv;
    case OnDisconnect(slot) =>
      ReleaseIsRelease(s.identities, slot, A.Bot);
      hide A.Disconnected, A.Inv;
    case OnFrame(slot) =>
      ReleaseIsRelease(s.identities, slot, A.Bot);
      hide A.ReleaseHltv, A.Inv;
    case OnSetSteamId(slot, incarnation, steamId, mode) =>
      ChangeIsAllowed(s.identities, slot, incarnation, steamId, mode);
      hide A.SetSteamId, A.Inv, R.Unused;
    case OnLevelChange => hide A.GivenBack, A.Inv;
    case OnLevelShutdown => hide A.Inv;
    case EngineMoves(_) =>
  }

  ghost function AgesAfter(s: State, ages: I.Ages, e: Event): I.Ages
    requires Allowed(s, e) && A.Inv(s.identities)
  {
    var es := Translated(s, e);
    if es == [] then ages
    else
      TranslationIsAllowed(s, e);
      R.AgesStep(View(s), ages, es[0])
  }

  lemma TranslationIsAllowed(s: State, e: Event)
    requires Allowed(s, e) && A.Inv(s.identities)
    ensures Translated(s, e) != [] ==> R.Allowed(View(s), Translated(s, e)[0])
  {
    hide A.Inv;
    if e.Identity? {
      IdentityStepTranslates(s, e.step);
    }
  }

  lemma StepKeeps(s: State, ages: I.Ages, e: Event)
    requires Inv(s, ages) && Allowed(s, e)
    ensures Inv(Step(s, e), AgesAfter(s, ages, e))
    ensures var es := Translated(s, e);
            && (es == [] ==> View(Step(s, e)) == View(s))
            && (es != [] ==> R.Allowed(View(s), es[0]) && R.Step(View(s), es[0]) == View(Step(s, e)))
    ensures |s.identities.taken| == |s.identities.entries|
    ensures e.Identity? ==> Step(s, e) == s.(identities := A.Step(s.identities, e.step))
    ensures e.Avatars? ==> Step(s, e).identities == s.identities.(slots := Step(s, e).identities.slots)
  {
    hide A.Inv, R.Good, R.Allowed, R.Step, A.Step;
    Sized(s.identities);
    match e
    case Identity(step) =>
      IdentityStepTranslates(s, step);
      A.StepKeeps(s.identities, step);
      if Translated(s, e) != [] {
        R.StepKeeps(View(s), ages, Translated(s, e)[0]);
      }
    case Avatars(step) =>
      AvatarStepKeepsIdentities(View(s), step);
      SameIdentitiesKeep(s.identities, R.Step(View(s), step).slots);
      R.StepKeeps(View(s), ages, step);
  }

  ghost predicate Legal(s: State, ages: I.Ages, es: seq<Event>)
    requires Inv(s, ages)
    decreases |es|
  {
    es != [] ==>
      && Allowed(s, es[0])
      && (StepKeeps(s, ages, es[0]); Legal(Step(s, es[0]), AgesAfter(s, ages, es[0]), es[1..]))
  }

  ghost function Run(s: State, ages: I.Ages, es: seq<Event>): (s': State)
    requires Inv(s, ages) && Legal(s, ages, es)
    decreases |es|
  {
    if es == [] then s
    else
      StepKeeps(s, ages, es[0]);
      Run(Step(s, es[0]), AgesAfter(s, ages, es[0]), es[1..])
  }

  // The run as the reconciler sees it.
  ghost function History(s: State, ages: I.Ages, es: seq<Event>): seq<R.Event>
    requires Inv(s, ages) && Legal(s, ages, es)
    decreases |es|
  {
    if es == [] then []
    else
      StepKeeps(s, ages, es[0]);
      Translated(s, es[0]) + History(Step(s, es[0]), AgesAfter(s, ages, es[0]), es[1..])
  }

  // Every run of the plugin is a legal history of the avatars, and ends where that history ends.
  lemma {:induction false} RunsAreHistories(s: State, ages: I.Ages, es: seq<Event>)
    requires Inv(s, ages) && Legal(s, ages, es)
    ensures var h := History(s, ages, es);
            R.Legal(View(s), h) && R.Run(View(s), h) == View(Run(s, ages, es))
    decreases |es|
  {
    hide Allowed, Step, AgesAfter, A.Inv, R.Good, R.Allowed, R.Step, Translated;
    Sized(s.identities);
    if es != [] {
      StepKeeps(s, ages, es[0]);
      var s', ages' := Step(s, es[0]), AgesAfter(s, ages, es[0]);
      var first, rest := Translated(s, es[0]), History(s', ages', es[1..]);
      RunsAreHistories(s', ages', es[1..]);
      if first == [] {
        assert first + rest == rest;
      } else {
        assert (first + rest)[0] == first[0] && (first + rest)[1..] == rest;
      }
    }
  }

  ghost predicate Start(s: State) {
    A.Start(s.identities) && R.Start(View(s))
  }

  lemma StartIsGood(s: State)
    requires Start(s)
    ensures Inv(s, R.NewAges())
  {
    A.StartIsGood(s.identities);
    R.ReachableIsGood(View(s), []);
    hide A.Inv, R.Good;
  }

  // So over every run of the plugin, with nothing assumed of the identity steps, no two slots own one
  // SteamID, every override has an owner, and a reported avatar is in the table.
  lemma PluginOwnershipAndTruth(s0: State, es: seq<Event>)
    requires Start(s0)
    ensures Inv(s0, R.NewAges())
    ensures Legal(s0, R.NewAges(), es) ==>
              var w := View(Run(s0, R.NewAges(), es));
              && I.Exclusive(w.states)
              && (forall sid :: sid in Overrides(w.table) ==> I.HasOwner(w.states, sid))
              && forall i :: 0 <= i < MAX_SLOTS && HasBotAvatar(w.slots[i]) ==>
                   && w.slots[i].steamId in Overrides(w.table)
                   && Overrides(w.table)[w.slots[i].steamId] == w.slots[i].request.data
  {
    StartIsGood(s0);
    if Legal(s0, R.NewAges(), es) {
      RunsAreHistories(s0, R.NewAges(), es);
      var h := History(s0, R.NewAges(), es);
      hide Inv, Legal, Run, History, Overrides, R.Run, R.Legal;
      R.OwnershipAndTruth(View(s0), h);
    }
  }

  // How often each request counter moved unexamined in a run.
  ghost function AgesRun(s: State, ages: I.Ages, es: seq<Event>): (ages': I.Ages)
    requires Inv(s, ages) && Legal(s, ages, es)
    ensures Inv(Run(s, ages, es), ages')
    decreases |es|
  {
    if es == [] then ages
    else
      StepKeeps(s, ages, es[0]);
      AgesRun(Step(s, es[0]), AgesAfter(s, ages, es[0]), es[1..])
  }

  // And after every run a calm pass publishes what the bots' current SteamIDs ask for, exactly if
  // every slot that is missed or refused holds its bytes already.
  lemma PluginPublishes(s0: State, es: seq<Event>, order: seq<nat>, now: nat, faults: seq<Faults>)
    requires Start(s0) && |faults| == |order| && T.Covers(order) && R.Calm(faults)
    ensures Inv(s0, R.NewAges())
    ensures Legal(s0, R.NewAges(), es) ==>
              var w, ages := View(Run(s0, R.NewAges(), es)), AgesRun(s0, R.NewAges(), es);
              R.NoneWaiting(w, now) ==>
                && DistinctSids(w.slots)
                && (Overrides(Pass(w, order, now, faults).table) == Desired(w.slots) <==>
                      forall i :: 0 <= i < MAX_SLOTS && X.Stuck(w, ages, i) ==> X.Holds(w, i))
  {
    StartIsGood(s0);
    if Legal(s0, R.NewAges(), es) {
      var s, ages := Run(s0, R.NewAges(), es), AgesRun(s0, R.NewAges(), es);
      var w := View(s);
      hide Legal, Run, AgesRun, Start, A.Inv, I.Inv, Overrides, Desired, Pass, R.NoneWaiting, X.Stuck, X.Holds;
      if R.NoneWaiting(w, now) {
        X.CalmPassIsExactIff(w, ages, order, now, faults);
      }
    }
  }

  // Bots that were there before the plugin was loaded are adopted like bots that connect.
  function ConnectedBefore(s: A.State, names: seq<Option<string>>, draws: seq<nat>, mode: A.Mode, n: nat): seq<A.Event>
    requires n <= MAX_SLOTS == |names| == |draws| && |s.taken| == |s.entries|
  {
    if n == 0 then []
    else
      var s1 := A.AdoptExisting(s, names, draws, mode, n - 1);
      var client := Engine.ResolveClient(s1.world, n - 1);
      ConnectedBefore(s, names, draws, mode, n - 1)
      + [A.OnConnected(n - 1, names[n - 1], None, client.Some? && client.value.fakePlayer == 1, mode, draws[n - 1])]
  }

  lemma {:induction false} LateStartIsRun(s: A.State, names: seq<Option<string>>, draws: seq<nat>, mode: A.Mode, n: nat)
    requires n <= MAX_SLOTS == |names| == |draws| && A.Start(s) && A.Inv(s)
    ensures A.Run(s, ConnectedBefore(s, names, draws, mode, n)) == A.AdoptExisting(s, names, draws, mode, n)
  {
    hide A.Inv, A.Start, A.AdoptClient;
    Sized(s);
    if n > 0 {
      LateStartIsRun(s, names, draws, mode, n - 1);
      A.AdoptExistingKeeps(s, names, draws, mode, n - 1);
      var before := ConnectedBefore(s, names, draws, mode, n - 1);
      var last := ConnectedBefore(s, names, draws, mode, n)[|before|];
      RunOneMore(s, before, last);
    }
  }

  lemma {:induction false} RunOneMore(s: A.State, es: seq<A.Event>, e: A.Event)
    requires A.Inv(s)
    ensures A.Inv(A.Run(s, es)) && A.Run(s, es + [e]) == A.Step(A.Run(s, es), e)
    decreases |es|
  {
    hide A.Inv, A.Step;
    assert |s.taken| == |s.entries| by { Sized(s); }
    if es == [] {
      A.StepKeeps(s, e);
      assert ([] + [e])[0] == e && ([] + [e])[1..] == [];
    } else {
      A.StepKeeps(s, es[0]);
      Sized(A.Step(s, es[0]));
      RunOneMore(A.Step(s, es[0]), es[1..], e);
      assert (es + [e])[0] == es[0] && (es + [e])[1..] == es[1..] + [e];
    }
  }

  lemma Sized(s: A.State)
    requires A.Inv(s)
    ensures |s.taken| == |s.entries|
  {
  }
}
