/** Whole histories of the avatar overrides: adoptions, releases, SteamID changes, requests, passes
    and resets, in any number and order. */
module AvatarRuns {
  import opened Prelude
  import opened StringTable
  import opened Manager
  import opened Avatar
  import opened AvatarInvariant
  import opened AvatarTheorems

  datatype Event =
    | Adopt(slot: nat, steamId: uint64, stamp: uint64)
    | Release(slot: nat)
    | ReleaseAll
    | SetSid(slot: nat, steamId: uint64)
    | SetAvatar(slot: nat, incarnation: uint64, data: seq<byte>)
    | RunPass(now: nat, faults: seq<Faults>)
    | ResetOn(empty: Table)

  // No managed slot but the given one carries the SteamID.
  ghost predicate Unused(slots: Slots, slot: nat, steamId: uint64) {
    forall i :: 0 <= i < MAX_SLOTS && i != slot && slots[i].managed ==> slots[i].steamId != steamId
  }

  // What the identity code guarantees of each event: a new SteamID is not another bot's, and the
  // bookkeeping is reset only for a table without overrides.
  ghost predicate Allowed(w: World, e: Event) {
    match e
    case Adopt(slot, steamId, stamp) => IsSlot(slot) && Unused(w.slots, slot, steamId)
    case Release(slot) => IsSlot(slot)
    case ReleaseAll => true
    case SetSid(slot, steamId) => IsSlot(slot) && Unused(w.slots, slot, steamId)
    case SetAvatar(slot, _, data) => IsSlot(slot) && |data| <= AVATAR_MAX_BYTES
    case RunPass(_, faults) => |faults| == MAX_SLOTS
    case ResetOn(empty) => forall sid: uint64 :: DataOf(empty, SteamKey(sid)) == []
  }

  ghost function Step(w: World, e: Event): World
    requires Allowed(w, e)
  {
    match e
    case Adopt(slot, steamId, stamp) => w.(slots := w.slots[slot := Adopted(w.slots[slot], steamId, stamp)])
    case Release(slot) => w.(slots := w.slots[slot := Cleared(w.slots[slot])])
    case ReleaseAll => w.(slots := seq(MAX_SLOTS, i requires 0 <= i < MAX_SLOTS => Cleared(w.slots[i])))
    case SetSid(slot, steamId) => w.(slots := w.slots[slot := w.slots[slot].(steamId := steamId)])
    case SetAvatar(slot, incarnation, data) =>
      if Target(w.slots[slot], incarnation) then w.(slots := w.slots[slot := Requested(w.slots[slot], data)]) else w
    case RunPass(now, faults) => Pass(w, SlotOrder(MAX_SLOTS), now, faults)
    case ResetOn(empty) => Reset(w, empty)
  }

  ghost function AgesStep(w: World, ages: Ages, e: Event): Ages
    requires Allowed(w, e)
  {
    match e
    case Adopt(slot, _, _) => ages[slot := ages[slot] + 1]
    case Release(slot) => ages[slot := ages[slot] + 1]
    case ReleaseAll => seq(MAX_SLOTS, i requires 0 <= i < MAX_SLOTS => ages[i] + 1)
    case SetSid(_, _) => ages
    case SetAvatar(slot, incarnation, _) =>
      if Target(w.slots[slot], incarnation) then ages[slot := ages[slot] + 1] else ages
    case RunPass(now, faults) => AgesAfterPass(w, ages, SlotOrder(MAX_SLOTS), now, faults)
    case ResetOn(_) => ages
  }

  ghost predicate Good(w: World, ages: Ages) {
    Inv(w, ages) && DistinctSids(w.slots) && WellSized(w.slots)
  }

  lemma WrapOnce(sequence: uint32, start: uint32, age: nat)
    requires sequence == Wrap32(start + age)
    ensures Wrap32(sequence + 1) == Wrap32(start + (age + 1))
  {
  }

  // A slot whose request sequence moved on and that publishes nothing stays settled.
  lemma MovedSlotSettles(s: Slot, s': Slot, r: Runtime, t: Table, age: nat)
    requires Settled(s, r, t, age)
    requires s'.request.sequence == Wrap32(s.request.sequence + 1) && !s'.avatarApplied
    ensures Settled(s', r, t, age + 1)
  {
    if r.processed {
      WrapOnce(s.request.sequence, r.sequence, age);
    }
  }

  lemma MoveKeeps(w: World, ages: Ages, slot: nat, s': Slot)
    requires Good(w, ages) && IsSlot(slot)
    requires s'.request.sequence == Wrap32(w.slots[slot].request.sequence + 1) && !s'.avatarApplied
    requires s'.request.length == |s'.request.data|
    requires s'.managed ==> Unused(w.slots, slot, s'.steamId)
    ensures Good(w.(slots := w.slots[slot := s']), ages[slot := ages[slot] + 1])
  {
    hide Exclusive, Backed;
    MovedSlotSettles(w.slots[slot], s', w.states[slot], w.table, ages[slot]);
  }

  lemma ReleaseAllKeeps(w: World, ages: Ages)
    requires Good(w, ages)
    ensures Good(Step(w, ReleaseAll), AgesStep(w, ages, ReleaseAll))
  {
    hide Exclusive, Backed;
    forall i | 0 <= i < MAX_SLOTS
      ensures Settled(Cleared(w.slots[i]), w.states[i], w.table, ages[i] + 1)
    {
      MovedSlotSettles(w.slots[i], Cleared(w.slots[i]), w.states[i], w.table, ages[i]);
    }
  }

  // A SteamID change moves no request; what the slot published stays settled under the old id.
  lemma SetSidKeeps(w: World, ages: Ages, slot: nat, steamId: uint64)
    requires Good(w, ages) && IsSlot(slot) && Unused(w.slots, slot, steamId)
    ensures Good(w.(slots := w.slots[slot := w.slots[slot].(steamId := steamId)]), ages)
  {
    hide Exclusive, Backed;
  }

  lemma PassKeepsGood(w: World, ages: Ages, now: nat, faults: seq<Faults>)
    requires Good(w, ages) && |faults| == MAX_SLOTS
    ensures Good(Pass(w, SlotOrder(MAX_SLOTS), now, faults), AgesAfterPass(w, ages, SlotOrder(MAX_SLOTS), now, faults))
  {
    var order := SlotOrder(MAX_SLOTS);
    PassKeeps(w, ages, order, now, faults);
    var w' := Pass(w, order, now, faults);
    var ages' := AgesAfterPass(w, ages, order, now, faults);
    hide Pass, AgesAfterPass, Exclusive, Backed, Settled;
    SameRequestsKeepDistinct(w.slots, w'.slots);
    forall i | 0 <= i < MAX_SLOTS ensures Settled(w'.slots[i], w'.states[i], w'.table, ages'[i]) {
      assert order[i] == i && i in VisitedBy(order);
      assert SlotOk(w'.slots[i], w'.states[i], w'.table, ages'[i], true);
    }
  }

  lemma ResetKeeps(w: World, ages: Ages, empty: Table)
    requires Good(w, ages) && forall sid: uint64 :: DataOf(empty, SteamKey(sid)) == []
    ensures Good(Reset(w, empty), ages)
  {
  }

  lemma DistinctMeansUnused(w: World, ages: Ages, slot: nat)
    requires Good(w, ages) && IsSlot(slot) && w.slots[slot].managed
    ensures Unused(w.slots, slot, w.slots[slot].steamId)
  {
    hide Inv;
  }

  lemma StepKeeps(w: World, ages: Ages, e: Event)
    requires Good(w, ages) && Allowed(w, e)
    ensures Good(Step(w, e), AgesStep(w, ages, e))
  {
    hide Good;
    match e
    case Adopt(slot, steamId, stamp) => MoveKeeps(w, ages, slot, Adopted(w.slots[slot], steamId, stamp));
    case Release(slot) => MoveKeeps(w, ages, slot, Cleared(w.slots[slot]));
    case ReleaseAll => ReleaseAllKeeps(w, ages);
    case SetSid(slot, steamId) => SetSidKeeps(w, ages, slot, steamId);
    case SetAvatar(slot, incarnation, data) =>
      if Target(w.slots[slot], incarnation) {
        assert Unused(w.slots, slot, w.slots[slot].steamId) by { DistinctMeansUnused(w, ages, slot); }
        MoveKeeps(w, ages, slot, Requested(w.slots[slot], data));
      }
    case RunPass(now, faults) => PassKeepsGood(w, ages, now, faults);
    case ResetOn(empty) => ResetKeeps(w, ages, empty);
  }

  ghost predicate Legal(w: World, es: seq<Event>)
    decreases |es|
  {
    es != [] ==> Allowed(w, es[0]) && Legal(Step(w, es[0]), es[1..])
  }

  ghost function Run(w: World, es: seq<Event>): World
    requires Legal(w, es)
    decreases |es|
  {
    if es == [] then w else Run(Step(w, es[0]), es[1..])
  }

  ghost function AgesRun(w: World, ages: Ages, es: seq<Event>): Ages
    requires Legal(w, es)
    decreases |es|
  {
    if es == [] then ages else AgesRun(Step(w, es[0]), AgesStep(w, ages, es[0]), es[1..])
  }

  ghost predicate AtMost(ages: Ages, bound: nat) {
    forall i :: 0 <= i < MAX_SLOTS ==> ages[i] <= bound
  }

  lemma StepAges(w: World, ages: Ages, e: Event, bound: nat)
    requires Good(w, ages) && Allowed(w, e) && AtMost(ages, bound)
    ensures AtMost(AgesStep(w, ages, e), bound + 1)
  {
    hide Exclusive, Backed, Covered, Settled, DistinctSids, WellSized;
    if e.RunPass? {
      PassKeeps(w, ages, SlotOrder(MAX_SLOTS), e.now, e.faults);
    }
  }

  lemma {:induction false} RunKeeps(w: World, ages: Ages, es: seq<Event>, bound: nat)
    requires Good(w, ages) && Legal(w, es) && AtMost(ages, bound)
    ensures Good(Run(w, es), AgesRun(w, ages, es))
    ensures AtMost(AgesRun(w, ages, es), bound + |es|)
    decreases |es|
  {
    hide Good, Allowed, Step, AgesStep;
    if es != [] {
      StepKeeps(w, ages, es[0]);
      StepAges(w, ages, es[0], bound);
      RunKeeps(Step(w, es[0]), AgesStep(w, ages, es[0]), es[1..], bound + 1);
    }
  }

  // A world before any bot, over a table that holds no override yet.
  ghost predicate Start(w: World) {
    && (forall i :: 0 <= i < MAX_SLOTS ==> w.slots[i] == EMPTY_SLOT && w.states[i] == INITIAL_RUNTIME)
    && forall sid: uint64 :: DataOf(w.table, SteamKey(sid)) == []
  }

  function NewAges(): Ages {
    seq(MAX_SLOTS, i => 0)
  }

  lemma ReachableIsGood(w: World, es: seq<Event>)
    requires Start(w) && Legal(w, es)
    ensures Good(Run(w, es), AgesRun(w, NewAges(), es))
    ensures |es| < TWO_32 ==> Detectable(AgesRun(w, NewAges(), es))
  {
    assert Good(w, NewAges());
    hide Good;
    RunKeeps(w, NewAges(), es, 0);
    FewAreDetectable(AgesRun(w, NewAges(), es), |es|);
  }

  lemma FewAreDetectable(ages: Ages, bound: nat)
    requires AtMost(ages, bound)
    ensures bound < TWO_32 ==> Detectable(ages)
  {
  }

  // In every reachable state, even after failed table calls: a SteamID has at most one owner,
  // every published override has one, and a slot that reports an avatar has its present request
  // in the table.
  lemma OwnershipAndTruth(w0: World, es: seq<Event>)
    requires Start(w0) && Legal(w0, es)
    ensures var w := Run(w0, es);
            && Exclusive(w.states)
            && (forall sid :: sid in Overrides(w.table) ==> HasOwner(w.states, sid))
            && forall i :: 0 <= i < MAX_SLOTS && HasBotAvatar(w.slots[i]) ==>
                 && w.slots[i].request.data != []
                 && w.slots[i].steamId in Overrides(w.table)
                 && Overrides(w.table)[w.slots[i].steamId] == w.slots[i].request.data
  {
    ReachableIsGood(w0, es);
    var w, ages := Run(w0, es), AgesRun(w0, NewAges(), es);
    hide Settled, DataOf, Overrides, Run, AgesRun, Legal, Start;
    forall sid | sid in Overrides(w.table) ensures HasOwner(w.states, sid) {
      OverridesAt(w.table, sid);
    }
    forall i | 0 <= i < MAX_SLOTS && HasBotAvatar(w.slots[i])
      ensures w.slots[i].request.data != []
      ensures w.slots[i].steamId in Overrides(w.table) &&
              Overrides(w.table)[w.slots[i].steamId] == w.slots[i].request.data
    {
      ReportedAvatarIsTrue(w, ages, i);
      OverridesAt(w.table, w.slots[i].steamId);
    }
  }

  // Nothing fails.
  ghost predicate Calm(faults: seq<Faults>) {
    forall k :: 0 <= k < |faults| ==> faults[k] == Faults(false, false, false, false, false)
  }

  // The table can take an override of the SteamID: index 0 is free, or an entry without data that is
  // not the SteamID's own.
  predicate Takes(t: Table, sid: uint64) {
    sid == 0 || t == [] || (t[0].data == [] && t[0].key != SteamKey(sid))
  }

  // The table can take what every slot asks for.
  ghost predicate TakesAll(w: World) {
    forall i :: 0 <= i < MAX_SLOTS ==> Takes(w.table, CurrentSid(w.slots[i]))
  }

  // A pass would not skip the slot for a retry that is not due; a changed request or SteamID cancels
  // the retry, and a processed slot has none.
  predicate IsDue(w: World, i: nat, now: nat)
    requires IsSlot(i)
  {
    Detected(w, i).processed || Detected(w, i).retryAt <= now
  }

  ghost predicate NoneWaiting(w: World, now: nat) {
    forall i :: 0 <= i < MAX_SLOTS ==> IsDue(w, i, now)
  }

  // Index 0 stays as it is, once it is there; the plugin puts its sentinel there first.
  ghost predicate SameHead(t: Table, t': Table) {
    if t == [] then t' == [] || t'[0] == Entry(Sentinel, []) else t' != [] && t'[0] == t[0]
  }

  lemma HeadTakes(t: Table, t': Table)
    requires SameHead(t, t')
    ensures forall sid :: Takes(t', sid) <==> Takes(t, sid)
  {
  }

  lemma SetHead(t: Table, sid: uint64, data: seq<byte>, f: Faults)
    ensures SameHead(t, SetOverride(t, sid, data, f).table)
  {
  }

  lemma PublishHead(w: World, i: nat, now: nat, f: Faults)
    requires IsSlot(i)
    ensures SameHead(w.table, Publish(w, i, now, f).table)
  {
    SetHead(w.table, w.states[i].steamId, w.slots[i].request.data, f);
    hide SetOverride, TakeOver;
  }

  lemma ClearHead(t: Table, sid: uint64, f: Faults)
    ensures SameHead(t, ClearOverride(t, sid, f).table)
    ensures t == [] ==> ClearOverride(t, sid, f).table == []
  {
  }

  // Whatever fails, a visit leaves index 0 alone.
  lemma VisitHead(w: World, i: nat, now: nat, f: Faults)
    requires IsSlot(i)
    ensures SameHead(w.table, Visit(w, i, now, f).table)
  {
    hide Publish, ClearOverride;
    var r := Detected(w, i);
    var w1 := World(w.slots[i := Published(w.slots[i], false, 0)], w.states[i := r], w.table);
    var cleared := ClearOverride(w.table, r.appliedSteamId, f).table;
    ClearHead(w.table, r.appliedSteamId, f);
    PublishHead(w1, i, now, f);
    PublishHead(w1.(states := w1.states[i := r.(appliedSteamId := 0)], table := cleared), i, now, f);
  }

  lemma {:induction false} PassHead(w: World, order: seq<nat>, now: nat, faults: seq<Faults>)
    requires |faults| == |order| && forall i :: i in order ==> IsSlot(i)
    ensures SameHead(w.table, Pass(w, order, now, faults).table)
  {
    hide Visit;
    if order != [] {
      var last := |order| - 1;
      assert forall i :: i in order[..last] ==> i in order;
      PassHead(w, order[..last], now, faults[..last]);
      VisitHead(Pass(w, order[..last], now, faults[..last]), order[last], now, faults[last]);
    }
  }

  // Exactly when a write that nothing fails goes through.
  lemma CalmSetIff(t: Table, sid: uint64, data: seq<byte>, f: Faults)
    requires Calm([f])
    ensures SetOverride(t, sid, data, f).ok <==> t == [] || (t[0].data == [] && t[0].key != SteamKey(sid))
  {
    assert [f][0] == f;
  }

  // What a slot owns can always be cleared.
  lemma CalmClear(w: World, i: nat, f: Faults)
    requires IsSlot(i) && Backed(w.states, w.table) && Calm([f]) && w.states[i].appliedSteamId != 0
    ensures ClearOverride(w.table, w.states[i].appliedSteamId, f).ok
  {
    assert [f][0] == f;
  }

  lemma CalmPublish(w: World, i: nat, now: nat, f: Faults)
    requires IsSlot(i) && Takes(w.table, w.states[i].steamId) && Calm([f])
    ensures var w' := Publish(w, i, now, f);
            && w'.states[i].processed
            && w'.states[i].sequence == w.states[i].sequence && w'.states[i].steamId == w.states[i].steamId
  {
    assert [f][0] == f;
    CalmSetIff(w.table, w.states[i].steamId, w.slots[i].request.data, f);
    hide SetOverride;
  }

  lemma CalmVisit(w: World, i: nat, now: nat, f: Faults)
    requires IsSlot(i) && Calm([f]) && IsDue(w, i, now)
    requires Backed(w.states, w.table) && Takes(w.table, CurrentSid(w.slots[i]))
    ensures var w' := Visit(w, i, now, f);
            && w'.states[i].processed
            && w'.states[i].sequence == w.slots[i].request.sequence && w'.states[i].steamId == CurrentSid(w.slots[i])
  {
    var w1 := w.(states := w.states[i := Detected(w, i)], slots := w.slots[i := Published(w.slots[i], false, 0)]);
    var r := w1.states[i];
    var cleared := ClearOverride(w.table, r.appliedSteamId, f);
    if r.appliedSteamId != 0 {
      CalmClear(w, i, f);
    }
    ClearHead(w.table, r.appliedSteamId, f);
    HeadTakes(w.table, cleared.table);
    hide Publish, ClearOverride, Takes, CurrentSid, Backed, SameHead;
    CalmPublish(w1, i, now, f);
    if Takes(cleared.table, CurrentSid(w.slots[i])) {
      CalmPublish(w1.(states := w1.states[i := r.(appliedSteamId := 0)], table := cleared.table), i, now, f);
    }
  }

  lemma SameCurrentSid(s: Slot, s': Slot)
    requires s' == s.(avatarApplied := s'.avatarApplied, avatarSteamId := s'.avatarSteamId)
    ensures CurrentSid(s') == CurrentSid(s)
  {
  }

  // Nothing fails while slot i is visited.
  ghost predicate CalmFor(order: seq<nat>, faults: seq<Faults>, i: nat) {
    forall k :: 0 <= k < |order| && k < |faults| && order[k] == i ==> Calm([faults[k]])
  }

  lemma MidBacked(w: World, ages: Ages, visited: set<nat>)
    requires MidInv(w, ages, visited)
    ensures Backed(w.states, w.table)
  {
  }

  // A slot that is not waiting for a retry is processed if nothing fails for it and the table takes
  // what it asks for, whatever becomes of the others.
  lemma {:induction false} ServedSlot(w: World, ages: Ages, order: seq<nat>, now: nat, faults: seq<Faults>, i: nat)
    requires |faults| == |order| && forall j :: j in order ==> IsSlot(j)
    requires MidInv(w, ages, {}) && DistinctSids(w.slots)
    requires IsSlot(i) && Takes(w.table, CurrentSid(w.slots[i])) && IsDue(w, i, now) && CalmFor(order, faults, i)
    ensures var w' := Pass(w, order, now, faults);
            && CurrentSid(w'.slots[i]) == CurrentSid(w.slots[i]) && Takes(w'.table, CurrentSid(w.slots[i]))
            && IsDue(w', i, now)
            && (i in order ==> w'.states[i].processed)
  {
    hide Visit, Takes, CurrentSid, Calm, MidInv, Backed, DistinctSids;
    PassHead(w, order, now, faults);
    HeadTakes(w.table, Pass(w, order, now, faults).table);
    hide SameHead;
    if order != [] {
      var last := |order| - 1;
      var before, rest := order[..last], faults[..last];
      assert forall j :: j in before ==> j in order;
      ServedSlot(w, ages, before, now, rest, i);
      PassKeeps(w, ages, before, now, rest);
      var mid := Pass(w, before, now, rest);
      VisitFrame(mid, order[last], now, faults[last]);
      SameCurrentSid(mid.slots[order[last]], Pass(w, order, now, faults).slots[order[last]]);
      if order[last] == i {
        MidBacked(mid, AgesAfterPass(w, ages, before, now, rest), VisitedBy(before));
        CalmVisit(mid, i, now, faults[last]);
      }
      assert order == before + [order[last]];
    }
  }

  // With nothing failing, no retry waiting and nothing refused, a pass processes every slot it visits.
  lemma CalmPass(w: World, ages: Ages, order: seq<nat>, now: nat, faults: seq<Faults>)
    requires |faults| == |order| && forall i :: i in order ==> IsSlot(i)
    requires MidInv(w, ages, {}) && DistinctSids(w.slots)
    requires Calm(faults) && TakesAll(w) && NoneWaiting(w, now)
    ensures forall i :: i in order ==> Pass(w, order, now, faults).states[i].processed
  {
    forall i | i in order ensures Pass(w, order, now, faults).states[i].processed {
      assert IsDue(w, i, now) && Takes(w.table, CurrentSid(w.slots[i])) && CalmFor(order, faults, i);
      hide MidInv, DistinctSids, Takes, CurrentSid, Calm, Pass, IsDue;
      ServedSlot(w, ages, order, now, faults, i);
    }
  }

  lemma InvIsMid(w: World, ages: Ages)
    requires Inv(w, ages)
    ensures MidInv(w, ages, {})
  {
  }

  // A calm pass makes the published overrides exactly the wanted ones.
  lemma CalmPassIsExact(w: World, ages: Ages, order: seq<nat>, now: nat, faults: seq<Faults>)
    requires |faults| == |order| && Covers(order)
    requires Good(w, ages) && Detectable(ages)
    requires Calm(faults) && TakesAll(w) && NoneWaiting(w, now)
    ensures Overrides(Pass(w, order, now, faults).table) == Desired(w.slots)
  {
    InvIsMid(w, ages);
    CalmPass(w, ages, order, now, faults);
    hide Pass, Inv;
    assert AllProcessed(Pass(w, order, now, faults).states) by {
      forall i | 0 <= i < MAX_SLOTS ensures Pass(w, order, now, faults).states[i].processed {
        assert i in order;
      }
    }
    ProcessedPassIsExact(w, ages, order, now, faults);
  }

  // The refinement: after any history and one calm pass, in any slot order, the published overrides
  // are the map from each current SteamID to its requested bytes, unless some slot's unexamined
  // requests made its sequence number come round or the table cannot take what a slot asks for.
  lemma HistoryThenCalmPass(w0: World, es: seq<Event>, order: seq<nat>, now: nat, faults: seq<Faults>)
    requires Start(w0) && Legal(w0, es) && Detectable(AgesRun(w0, NewAges(), es))
    requires |faults| == |order| && Covers(order)
    requires var w := Run(w0, es); Calm(faults) && TakesAll(w) && NoneWaiting(w, now)
    ensures var w := Run(w0, es);
            DistinctSids(w.slots) && Overrides(Pass(w, order, now, faults).table) == Desired(w.slots)
  {
    ReachableIsGood(w0, es);
    CalmPassIsExact(Run(w0, es), AgesRun(w0, NewAges(), es), order, now, faults);
  }
}
