/** What a history of events asks for, told without counters or stamps of the reconciler, and by when
    it is published: a second after the last pass, whatever failed before. */
module AvatarHistories {
  import opened Prelude
  import opened StringTable
  import opened Manager
  import opened Avatar
  import opened AvatarInvariant
  import opened AvatarTheorems
  import opened AvatarRuns
  import opened AvatarOutcomes

  // A slot as its history tells it: without a bot, or with a bot that has a SteamID and has asked last
  // for these bytes, none at first.
  datatype Life = Free | Bot(stamp: uint64, steamId: uint64, wanted: seq<byte>)

  function LifeAfter(life: Life, e: Event, i: nat): Life {
    match e
    case Adopt(slot, steamId, stamp) => if slot == i then Bot(stamp, steamId, []) else life
    case Release(slot) => if slot == i then Free else life
    case ReleaseAll => Free
    case SetSid(slot, steamId) => if slot == i && life.Bot? then life.(steamId := steamId) else life
    case SetAvatar(slot, incarnation, data) =>
      if slot == i && life.Bot? && incarnation == life.stamp != 0 then life.(wanted := data) else life
    case RunPass(_, _) => life
    case ResetOn(_) => life
  }

  function LifeOver(life: Life, es: seq<Event>, i: nat): Life
    decreases |es|
  {
    if es == [] then life else LifeOver(LifeAfter(life, es[0], i), es[1..], i)
  }

  // A bot that has asked for an avatar; its lifetime stamp is not zero.
  predicate Wants(life: Life) {
    life.Bot? && life.stamp != 0 && life.wanted != []
  }

  // The slot holds what its history tells.
  ghost predicate Tells(life: Life, s: Slot) {
    && (s.managed <==> life.Bot?)
    && (life.Bot? ==> s.incarnation == life.stamp && s.steamId == life.steamId)
    && s.request.length == |s.request.data|
    && (if life.Bot? && life.stamp != 0 && s.request.incarnation == s.incarnation
        then s.request.data == life.wanted else life.Bot? && life.stamp != 0 ==> life.wanted == [])
  }

  lemma TellsWhatIsAsked(life: Life, s: Slot)
    requires Tells(life, s)
    ensures CurrentSid(s) == if Wants(life) then life.steamId else 0
    ensures Wants(life) ==> s.request.data == life.wanted
  {
  }

  lemma StepTells(w: World, ages: Ages, e: Event, life: Life, i: nat)
    requires Good(w, ages) && Allowed(w, e) && IsSlot(i) && Tells(life, w.slots[i])
    ensures Tells(LifeAfter(life, e, i), Step(w, e).slots[i])
  {
    hide Inv, DistinctSids, WellSized;
    if e.RunPass? {
      assert Inv(w, ages) && DistinctSids(w.slots);
      InvIsMid(w, ages);
      PassKeeps(w, ages, SlotOrder(MAX_SLOTS), e.now, e.faults);
      hide Pass, MidInv, AgesAfterPass;
    }
  }

  lemma {:induction false} RunTells(w: World, ages: Ages, es: seq<Event>, life: Life, i: nat)
    requires Good(w, ages) && Legal(w, es) && IsSlot(i) && Tells(life, w.slots[i])
    ensures Tells(LifeOver(life, es, i), Run(w, es).slots[i])
    decreases |es|
  {
    hide Good, Allowed, Step, AgesStep, Tells, LifeAfter;
    if es != [] {
      StepKeeps(w, ages, es[0]);
      StepTells(w, ages, es[0], life, i);
      RunTells(Step(w, es[0]), AgesStep(w, ages, es[0]), es[1..], LifeAfter(life, es[0], i), i);
    }
  }

  // What a slot asks for after any history is what its present bot asked for last, under the SteamID
  // it has now; a bot that has not asked, and a slot without one, ask for nothing.
  lemma AsksForLastRequest(w0: World, es: seq<Event>, i: nat)
    requires Start(w0) && Legal(w0, es) && IsSlot(i)
    ensures var life, s := LifeOver(Free, es, i), Run(w0, es).slots[i];
            && CurrentSid(s) == (if Wants(life) then life.steamId else 0)
            && (Wants(life) ==> s.request.data == life.wanted)
  {
    ReachableIsGood(w0, []);
    RunTells(w0, NewAges(), es, Free, i);
    hide Run;
    TellsWhatIsAsked(LifeOver(Free, es, i), Run(w0, es).slots[i]);
  }

  // A table that was not seen before starts the bookkeeping afresh: nothing is reported, nothing is owned
  // and nothing waits, while every slot asks for what it asked for.
  lemma ResetStartsAfresh(w: World, empty: Table, i: nat, now: nat)
    requires Allowed(w, ResetOn(empty)) && IsSlot(i)
    ensures var w' := Step(w, ResetOn(empty));
            && w'.table == empty
            && !HasBotAvatar(w'.slots[i]) && w'.states[i].appliedSteamId == 0 && !w'.states[i].processed
            && !Skips(Detected(w', i), now)
            && CurrentSid(w'.slots[i]) == CurrentSid(w.slots[i]) && w'.slots[i].request == w.slots[i].request
  {
  }

  // No retry lies more than a second after the given time.
  ghost predicate RetriesBy(states: Runtimes, last: nat) {
    forall i :: 0 <= i < MAX_SLOTS ==> states[i].retryAt <= last + 1_000_000_000
  }

  lemma PublishRetries(w: World, i: nat, now: nat, f: Faults)
    requires IsSlot(i)
    ensures var r := Publish(w, i, now, f).states[i];
            && r.sequence == w.states[i].sequence && r.steamId == w.states[i].steamId
            && (!r.processed ==> r.retryAt == now + 1_000_000_000)
            && r.retryAt in {w.states[i].retryAt, now + 1_000_000_000}
  {
    TakeOverEffect(w.states, i, w.states[i].steamId);
    hide SetOverride, TakeOver;
  }

  // A visit that does its work ends with the slot processed, or with a retry a second later.
  lemma VisitRetries(w: World, i: nat, now: nat, f: Faults)
    requires IsSlot(i)
    ensures var r := Visit(w, i, now, f).states[i];
            && r.sequence == w.slots[i].request.sequence && r.steamId == CurrentSid(w.slots[i])
            && r.retryAt in {Detected(w, i).retryAt, now + 1_000_000_000}
            && (!Skips(Detected(w, i), now) && !r.processed ==> r.retryAt == now + 1_000_000_000)
  {
    hide Publish, ClearOverride;
    var r := Detected(w, i);
    var w1 := World(w.slots[i := Published(w.slots[i], false, 0)], w.states[i := r], w.table);
    PublishRetries(w1, i, now, f);
    PublishRetries(w1.(states := w1.states[i := r.(appliedSteamId := 0)],
                       table := ClearOverride(w.table, r.appliedSteamId, f).table), i, now, f);
  }

  // A slot whose work failed is left alone for exactly a second, unless its request or SteamID changes.
  lemma FailureWaitsASecond(w: World, i: nat, now: nat, f: Faults, later: nat, g: Faults)
    requires IsSlot(i) && !Skips(Detected(w, i), now)
    ensures var w' := Visit(w, i, now, f);
            !w'.states[i].processed ==>
              && (IsDue(w', i, later) <==> later >= now + 1_000_000_000)
              && (later < now + 1_000_000_000 ==> Visit(w', i, later, g) == w')
  {
    VisitRetries(w, i, now, f);
    VisitFrame(w, i, now, f);
    SameCurrentSid(w.slots[i], Visit(w, i, now, f).slots[i]);
    var w' := Visit(w, i, now, f);
    assert w'.states[i := w'.states[i]] == w'.states;
    hide Publish, Relinquish, CurrentSid;
  }

  lemma VisitKeepsRetries(w: World, i: nat, now: nat, f: Faults, last: nat)
    requires IsSlot(i) && RetriesBy(w.states, last) && now <= last
    ensures RetriesBy(Visit(w, i, now, f).states, last)
  {
    VisitRetries(w, i, now, f);
    VisitFrame(w, i, now, f);
    hide Visit;
  }

  lemma {:induction false} PassKeepsRetries(w: World, order: seq<nat>, now: nat, faults: seq<Faults>, last: nat)
    requires |faults| == |order| && forall i :: i in order ==> IsSlot(i)
    requires RetriesBy(w.states, last) && now <= last
    ensures RetriesBy(Pass(w, order, now, faults).states, last)
  {
    hide Visit;
    if order != [] {
      var n := |order| - 1;
      assert forall i :: i in order[..n] ==> i in order;
      PassKeepsRetries(w, order[..n], now, faults[..n], last);
      VisitKeepsRetries(Pass(w, order[..n], now, faults[..n]), order[n], now, faults[n], last);
    }
  }

  // No pass of the history comes after the given time.
  ghost predicate PassesBy(es: seq<Event>, last: nat) {
    forall k :: 0 <= k < |es| && es[k].RunPass? ==> es[k].now <= last
  }

  lemma {:induction false} RunKeepsRetries(w: World, es: seq<Event>, last: nat)
    requires Legal(w, es) && PassesBy(es, last) && RetriesBy(w.states, last)
    ensures RetriesBy(Run(w, es).states, last)
    decreases |es|
  {
    if es != [] {
      if es[0].RunPass? {
        PassKeepsRetries(w, SlotOrder(MAX_SLOTS), es[0].now, es[0].faults, last);
      }
      hide Pass;
      RunKeepsRetries(Step(w, es[0]), es[1..], last);
    }
  }

  // A second after the last pass no retry is waiting.
  lemma RetriesEnd(w0: World, es: seq<Event>, last: nat, now: nat)
    requires Start(w0) && Legal(w0, es) && PassesBy(es, last) && now >= last + 1_000_000_000
    ensures NoneWaiting(Run(w0, es), now)
  {
    RunKeepsRetries(w0, es, last);
    hide Run;
  }

  // The slot's bot wants an avatar under a SteamID.
  predicate WantsUnder(life: Life, sid: uint64) {
    Wants(life) && life.steamId == sid != 0
  }

  // The table publishes the last wishes of the bots, and the bots report it.
  ghost predicate Fulfils(w: World, es: seq<Event>) {
    && (forall i :: 0 <= i < MAX_SLOTS ==>
          var life := LifeOver(Free, es, i);
          && (HasBotAvatar(w.slots[i]) <==> Wants(life) && life.steamId != 0)
          && (Wants(life) && life.steamId != 0 ==>
                life.steamId in Overrides(w.table) && Overrides(w.table)[life.steamId] == life.wanted))
    && (forall sid :: sid in Overrides(w.table) ==>
          exists i :: 0 <= i < MAX_SLOTS && WantsUnder(LifeOver(Free, es, i), sid))
  }

  // After any history, whatever failed in it, a calm pass a second after its last one publishes the
  // last wishes of the present bots and nothing else, and the bots report it; unless a request counter
  // came round unexamined or index 0 of the table is in a bot's way.
  lemma LastWishesArePublished(w0: World, es: seq<Event>, last: nat, order: seq<nat>, now: nat, faults: seq<Faults>)
    requires Start(w0) && Legal(w0, es) && PassesBy(es, last) && now >= last + 1_000_000_000
    requires |faults| == |order| && Covers(order) && Calm(faults)
    requires Detectable(AgesRun(w0, NewAges(), es)) && TakesAll(Run(w0, es))
    ensures Fulfils(Pass(Run(w0, es), order, now, faults), es)
  {
    var w, ages := Run(w0, es), AgesRun(w0, NewAges(), es);
    ReachableIsGood(w0, es);
    RetriesEnd(w0, es, last, now);
    hide Start, Legal, Run, AgesRun, LifeOver, Pass, Inv, WellSized, DistinctSids, Desired, Overrides, HasBotAvatar,
      CurrentSid, IsDue, Takes, PassesBy;
    HistoryThenCalmPass(w0, es, order, now, faults);
    var w' := Pass(w, order, now, faults);
    forall i | 0 <= i < MAX_SLOTS
      ensures var life := LifeOver(Free, es, i);
              && (HasBotAvatar(w'.slots[i]) <==> Wants(life) && life.steamId != 0)
              && (Wants(life) && life.steamId != 0 ==>
                    life.steamId in Overrides(w'.table) && Overrides(w'.table)[life.steamId] == life.wanted)
    {
      ServedSlotReports(w, ages, order, now, faults, i);
      AsksForLastRequest(w0, es, i);
      if CurrentSid(w.slots[i]) != 0 {
        DesiredAt(w.slots, i);
      }
    }
    forall sid | sid in Overrides(w'.table)
      ensures exists i :: 0 <= i < MAX_SLOTS && WantsUnder(LifeOver(Free, es, i), sid)
    {
      var i := DesiredIsAsked(w.slots, sid);
      AsksForLastRequest(w0, es, i);
      assert WantsUnder(LifeOver(Free, es, i), sid);
    }
  }

  lemma DesiredIsAsked(slots: Slots, sid: uint64) returns (i: nat)
    requires DistinctSids(slots) && sid in Desired(slots)
    ensures IsSlot(i) && CurrentSid(slots[i]) == sid != 0
  {
    i :| 0 <= i < MAX_SLOTS && CurrentSid(slots[i]) == sid != 0;
  }

  // A pass in which nothing fails and nothing is missed or refused makes every bot report its avatar.
  lemma ServedSlotReports(w: World, ages: Ages, order: seq<nat>, now: nat, faults: seq<Faults>, i: nat)
    requires |faults| == |order| && Covers(order) && Good(w, ages) && Detectable(ages)
    requires Calm(faults) && TakesAll(w) && NoneWaiting(w, now) && IsSlot(i)
    ensures HasBotAvatar(Pass(w, order, now, faults).slots[i]) <==> CurrentSid(w.slots[i]) != 0
  {
    assert IsDue(w, i, now) && CalmFor(order, faults, i);
    assert !Missed(w, ages, i) && !Refused(w, i);
    hide Pass, Good, CurrentSid, HasBotAvatar, IsDue, CalmFor, Takes;
    SlotOutcome(w, ages, order, now, faults, i);
  }
}
