/** What the avatar reconciler guarantees over whole runs. */
module AvatarTheorems {
  import opened Prelude
  import opened StringTable
  import opened Manager
  import opened Avatar
  import opened AvatarInvariant

  // Two worlds that differ in another slot only by what the slot owns for clean-up.
  ghost predicate OthersKept(w: World, w': World, i: nat) {
    forall j :: 0 <= j < MAX_SLOTS && j != i ==>
      && w'.slots[j] == w.slots[j]
      && w'.states[j] == w.states[j].(appliedSteamId := w'.states[j].appliedSteamId)
  }

  lemma PublishFrame(w: World, i: nat, now: nat, f: Faults)
    requires IsSlot(i)
    ensures var w' := Publish(w, i, now, f);
            OthersKept(w, w', i) &&
            w'.slots[i] ==
              w.slots[i].(avatarApplied := w'.slots[i].avatarApplied, avatarSteamId := w'.slots[i].avatarSteamId)
  {
    hide SetOverride;
  }

  // A visit touches another slot only by disowning it.
  lemma VisitFrame(w: World, i: nat, now: nat, f: Faults)
    requires IsSlot(i)
    ensures var w' := Visit(w, i, now, f);
            OthersKept(w, w', i) &&
            w'.slots[i] ==
              w.slots[i].(avatarApplied := w'.slots[i].avatarApplied, avatarSteamId := w'.slots[i].avatarSteamId)
  {
    hide Publish, ClearOverride;
    var w1 := w.(states := w.states[i := Detected(w, i)], slots := w.slots[i := Published(w.slots[i], false, 0)]);
    var r := w1.states[i];
    PublishFrame(w1, i, now, f);
    PublishFrame(w1.(states := w1.states[i := r.(appliedSteamId := 0)],
                     table := ClearOverride(w1.table, r.appliedSteamId, f).table), i, now, f);
  }

  // A pass changes nothing of the slots but what they publish.
  ghost predicate SameRequests(a: Slots, b: Slots) {
    forall i :: 0 <= i < MAX_SLOTS ==>
      b[i] == a[i].(avatarApplied := b[i].avatarApplied, avatarSteamId := b[i].avatarSteamId)
  }

  function VisitedBy(order: seq<nat>): set<nat> {
    set i | i in order
  }

  function AgesAfterPass(w: World, ages: Ages, order: seq<nat>, now: nat, faults: seq<Faults>): Ages
    requires |faults| == |order|
    requires forall i :: i in order ==> IsSlot(i)
  {
    if order == [] then ages
    else
      var last := |order| - 1;
      assert forall i :: i in order[..last] ==> i in order;
      AgesAfterVisit(Pass(w, order[..last], now, faults[..last]),
                     AgesAfterPass(w, ages, order[..last], now, faults[..last]), order[last], now)
  }

  lemma SameRequestsKeepDistinct(a: Slots, b: Slots)
    requires SameRequests(a, b) && DistinctSids(a)
    ensures DistinctSids(b)
  {
  }

  lemma AgesStayOrRestart(w: World, ages: Ages, i: nat, now: nat)
    requires IsSlot(i)
    ensures forall j :: 0 <= j < MAX_SLOTS ==> AgesAfterVisit(w, ages, i, now)[j] in {0, ages[j]}
  {
  }

  lemma {:induction false} PassKeeps(w: World, ages: Ages, order: seq<nat>, now: nat, faults: seq<Faults>)
    requires |faults| == |order| && forall i :: i in order ==> IsSlot(i)
    requires MidInv(w, ages, {}) && DistinctSids(w.slots)
    ensures var w' := Pass(w, order, now, faults);
            && MidInv(w', AgesAfterPass(w, ages, order, now, faults), VisitedBy(order))
            && SameRequests(w.slots, w'.slots)
    ensures forall i :: 0 <= i < MAX_SLOTS ==> AgesAfterPass(w, ages, order, now, faults)[i] in {0, ages[i]}
  {
    hide Visit, MidInv, AgesAfterVisit, DistinctSids, Detected;
    if order == [] {
      assert VisitedBy(order) == {};
    } else {
      var last := |order| - 1;
      assert forall i :: i in order[..last] ==> i in order;
      PassKeeps(w, ages, order[..last], now, faults[..last]);
      var mid := Pass(w, order[..last], now, faults[..last]);
      var midAges := AgesAfterPass(w, ages, order[..last], now, faults[..last]);
      SameRequestsKeepDistinct(w.slots, mid.slots);
      VisitKeeps(mid, midAges, VisitedBy(order[..last]), order[last], now, faults[last]);
      VisitFrame(mid, order[last], now, faults[last]);
      AgesStayOrRestart(mid, midAges, order[last], now);
      assert VisitedBy(order) == VisitedBy(order[..last]) + {order[last]} by {
        assert order == order[..last] + [order[last]];
      }
    }
  }

  ghost predicate Covers(order: seq<nat>) {
    (forall i :: i in order ==> IsSlot(i)) && (forall i :: 0 <= i < MAX_SLOTS ==> i in order)
  }

  // A non-empty request carries the length of its data.
  ghost predicate WellSized(slots: Slots) {
    forall i :: 0 <= i < MAX_SLOTS ==> slots[i].request.length == |slots[i].request.data|
  }

  ghost predicate AllProcessed(states: Runtimes) {
    forall i :: 0 <= i < MAX_SLOTS ==> states[i].processed
  }

  // No slot's request moved so often, unexamined, that its sequence number came round.
  ghost predicate Detectable(ages: Ages) {
    forall i :: 0 <= i < MAX_SLOTS ==> ages[i] == 0 || ages[i] % TWO_32 != 0
  }

  lemma ProcessedSlotIsExact(slot: Slot, r: Runtime, t: Table, age: nat)
    requires SlotOk(slot, r, t, age, true) && r.processed && (age == 0 || age % TWO_32 != 0)
    requires slot.request.length == |slot.request.data|
    ensures r.appliedSteamId == CurrentSid(slot)
    ensures CurrentSid(slot) != 0 ==> DataOf(t, SteamKey(CurrentSid(slot))) == slot.request.data != []
  {
    assert age == 0;
  }

  // If a pass ends with every slot processed, the overrides in the table are exactly the ones the
  // slots ask for, whichever order the slots were visited in and whatever failed on the way.
  lemma ProcessedPassIsExact(w: World, ages: Ages, order: seq<nat>, now: nat, faults: seq<Faults>)
    requires |faults| == |order| && Covers(order)
    requires Inv(w, ages) && DistinctSids(w.slots) && WellSized(w.slots)
    requires Detectable(ages)
    requires AllProcessed(Pass(w, order, now, faults).states)
    ensures Overrides(Pass(w, order, now, faults).table) == Desired(w.slots)
  {
    PassKeeps(w, ages, order, now, faults);
    var w' := Pass(w, order, now, faults);
    var ages' := AgesAfterPass(w, ages, order, now, faults);
    hide Pass, AgesAfterPass, Inv, Exclusive, Backed, Overrides, Desired, DataOf, Settled, DistinctSids;
    forall i | 0 <= i < MAX_SLOTS
      ensures CurrentSid(w.slots[i]) == w'.states[i].appliedSteamId
      ensures CurrentSid(w.slots[i]) != 0 ==>
                DataOf(w'.table, SteamKey(CurrentSid(w.slots[i]))) == w.slots[i].request.data != []
    {
      assert i in VisitedBy(order);
      assert SlotOk(w'.slots[i], w'.states[i], w'.table, ages'[i], true);
      ProcessedSlotIsExact(w'.slots[i], w'.states[i], w'.table, ages'[i]);
    }
    ExactFromSlots(w', w.slots);
  }

  lemma DesiredAt(slots: Slots, i: nat)
    requires DistinctSids(slots) && IsSlot(i) && CurrentSid(slots[i]) != 0
    ensures CurrentSid(slots[i]) in Desired(slots) && Desired(slots)[CurrentSid(slots[i])] == slots[i].request.data
  {
  }

  lemma ExactFromSlots(w: World, slots: Slots)
    requires Covered(w.states, w.table) && DistinctSids(slots)
    requires forall i :: 0 <= i < MAX_SLOTS ==> CurrentSid(slots[i]) == w.states[i].appliedSteamId
    requires forall i :: 0 <= i < MAX_SLOTS && CurrentSid(slots[i]) != 0 ==>
               DataOf(w.table, SteamKey(CurrentSid(slots[i]))) == slots[i].request.data != []
    ensures Overrides(w.table) == Desired(slots)
  {
    var have, want := Overrides(w.table), Desired(slots);
    hide Overrides, DistinctSids, DataOf;
    forall sid: uint64
      ensures sid in have <==> sid in want
      ensures sid in have ==> have[sid] == want[sid]
    {
      OverridesAt(w.table, sid);
      if sid in have {
        assert HasOwner(w.states, sid);
        var i :| 0 <= i < MAX_SLOTS && w.states[i].appliedSteamId == sid;
        DesiredAt(slots, i);
      }
      if sid in want {
        var i :| 0 <= i < MAX_SLOTS && CurrentSid(slots[i]) == sid != 0;
        assert DataOf(w.table, SteamKey(sid)) == slots[i].request.data;
      }
    }
  }

  // A slot that reports an avatar does have it: the table holds its present request.
  lemma ReportedAvatarIsTrue(w: World, ages: Ages, i: nat)
    requires Inv(w, ages) && IsSlot(i) && WellSized(w.slots)
    requires HasBotAvatar(w.slots[i])
    ensures DataOf(w.table, SteamKey(w.slots[i].steamId)) == w.slots[i].request.data != []
    ensures CurrentSid(w.slots[i]) == w.slots[i].steamId == w.states[i].appliedSteamId
  {
    assert Settled(w.slots[i], w.states[i], w.table, ages[i]);
  }

  lemma VisitedReports(slot: Slot, r: Runtime, t: Table, age: nat)
    requires SlotOk(slot, r, t, age, true)
    ensures HasBotAvatar(slot) <==> CurrentSid(slot) != 0 && r.processed && age == 0
  {
    hide DataOf;
  }

  lemma SameRequestSameSid(a: Slots, b: Slots, i: nat)
    requires SameRequests(a, b) && IsSlot(i)
    ensures CurrentSid(b[i]) == CurrentSid(a[i])
  {
  }

  // After a pass, whatever failed, a visited slot reports an avatar exactly if it asks for one and its
  // present request was served: no slot that is up to date goes without the report.
  lemma PassReports(w: World, ages: Ages, order: seq<nat>, now: nat, faults: seq<Faults>, i: nat)
    requires |faults| == |order| && (forall j :: j in order ==> IsSlot(j)) && i in order
    requires MidInv(w, ages, {}) && DistinctSids(w.slots)
    ensures var w' := Pass(w, order, now, faults);
            HasBotAvatar(w'.slots[i]) <==>
              CurrentSid(w.slots[i]) != 0 && w'.states[i].processed &&
              AgesAfterPass(w, ages, order, now, faults)[i] == 0
  {
    PassKeeps(w, ages, order, now, faults);
    var w', ages' := Pass(w, order, now, faults), AgesAfterPass(w, ages, order, now, faults);
    hide Pass, AgesAfterPass, Settled, Exclusive, Covered, Backed, DistinctSids, HasBotAvatar, CurrentSid;
    SameRequestSameSid(w.slots, w'.slots, i);
    assert i in VisitedBy(order);
    VisitedReports(w'.slots[i], w'.states[i], w'.table, ages'[i]);
  }

  lemma VisitKeepsReported(w: World, age: nat, i: nat, now: nat, f: Faults, j: nat)
    requires IsSlot(i) && IsSlot(j) && HasBotAvatar(w.slots[j])
    requires Settled(w.slots[j], w.states[j], w.table, age)
    ensures w.states[j].steamId == CurrentSid(w.slots[j])
    ensures var w' := Visit(w, i, now, f);
            w'.slots[j] == w.slots[j] && w'.states[j].steamId == w.states[j].steamId
  {
    if i == j {
      assert Detected(w, i) == w.states[i];
    } else {
      VisitFrame(w, i, now, f);
    }
  }

  // No pass takes a reported avatar away, neither by failing nor by cleaning up after a slot that
  // held the SteamID before.
  lemma {:induction false} PassKeepsReportedAvatar(w: World, ages: Ages, order: seq<nat>, now: nat,
                                                   faults: seq<Faults>, j: nat)
    requires |faults| == |order| && forall i :: i in order ==> IsSlot(i)
    requires Inv(w, ages) && DistinctSids(w.slots)
    requires IsSlot(j) && HasBotAvatar(w.slots[j])
    ensures var w' := Pass(w, order, now, faults);
            && w'.slots[j] == w.slots[j]
            && w'.states[j].steamId == CurrentSid(w.slots[j]) == w.slots[j].steamId
            && DataOf(w'.table, SteamKey(w.slots[j].steamId)) == w.slots[j].request.data
  {
    PassKeeps(w, ages, order, now, faults);
    assert Settled(w.slots[j], w.states[j], w.table, ages[j]);
    hide Visit, AgesAfterVisit, DistinctSids, Detected;
    if order != [] {
      var last := |order| - 1;
      var before, rest := order[..last], faults[..last];
      assert forall i :: i in before ==> i in order;
      PassKeepsReportedAvatar(w, ages, before, now, rest, j);
      PassKeeps(w, ages, before, now, rest);
      var mid := Pass(w, before, now, rest);
      var midAges := AgesAfterPass(w, ages, before, now, rest);
      assert SlotOk(mid.slots[j], mid.states[j], mid.table, midAges[j], j in VisitedBy(before));
      VisitKeepsReported(mid, midAges[j], order[last], now, faults[last], j);
      var w' := Pass(w, order, now, faults);
      var ages' := AgesAfterPass(w, ages, order, now, faults);
      assert SlotOk(w'.slots[j], w'.states[j], w'.table, ages'[j], j in VisitedBy(order));
    }
  }
}
