/** Exactly when a pass publishes what is wanted, and what follows for the order of the slots and for
    the release of all bots. */
module AvatarExactness {
  import opened Prelude
  import opened StringTable
  import opened Manager
  import opened Avatar
  import opened AvatarInvariant
  import opened AvatarTheorems
  import opened AvatarRuns
  import opened AvatarOutcomes

  // A pass does not write what the slot asks for: it misses the request, or the table refuses it.
  predicate Stuck(w: World, ages: Ages, i: nat)
    requires IsSlot(i)
  {
    Missed(w, ages, i) || Refused(w, i)
  }

  // The slot owns its SteamID, and the bytes it asks for are there already.
  predicate Holds(w: World, i: nat)
    requires IsSlot(i)
  {
    var sid := CurrentSid(w.slots[i]);
    w.states[i].appliedSteamId == sid && DataOf(w.table, SteamKey(sid)) == w.slots[i].request.data
  }

  // The bytes that a calm pass leaves under the SteamID a slot asks for.
  function Left(w: World, ages: Ages, i: nat): seq<byte>
    requires IsSlot(i)
  {
    var sid := CurrentSid(w.slots[i]);
    if !Stuck(w, ages, i) then w.slots[i].request.data
    else if w.states[i].appliedSteamId == sid then DataOf(w.table, SteamKey(sid))
    else []
  }

  ghost predicate CalmOver(w: World, ages: Ages, order: seq<nat>, now: nat, faults: seq<Faults>) {
    |faults| == |order| && Covers(order) && Good(w, ages) && Calm(faults) && NoneWaiting(w, now)
  }

  // After a calm pass every slot owns what it asks for, or nothing.
  lemma CalmOwns(w: World, ages: Ages, order: seq<nat>, now: nat, faults: seq<Faults>, i: nat)
    requires CalmOver(w, ages, order, now, faults) && IsSlot(i)
    ensures Pass(w, order, now, faults).states[i].appliedSteamId in {0, CurrentSid(w.slots[i])}
    ensures !Stuck(w, ages, i) || w.states[i].appliedSteamId == CurrentSid(w.slots[i]) ==>
              Pass(w, order, now, faults).states[i].appliedSteamId == CurrentSid(w.slots[i])
  {
    CalmSlot(w, order, now, faults, i);
    hide Pass, Good, Calm, NoneWaiting, CalmFor, IsDue, DataOf, Takes, CurrentSid;
    SlotOutcome(w, ages, order, now, faults, i);
  }

  lemma CalmSlot(w: World, order: seq<nat>, now: nat, faults: seq<Faults>, i: nat)
    requires |faults| == |order| && Covers(order) && Calm(faults) && NoneWaiting(w, now) && IsSlot(i)
    ensures i in order && CalmFor(order, faults, i) && IsDue(w, i, now)
  {
    hide IsDue;
  }

  // And no SteamID that no slot owns has bytes.
  lemma UnownedIsEmpty(w: World, ages: Ages, order: seq<nat>, now: nat, faults: seq<Faults>, sid: uint64)
    requires CalmOver(w, ages, order, now, faults)
    requires forall i :: 0 <= i < MAX_SLOTS ==> Pass(w, order, now, faults).states[i].appliedSteamId != sid || sid == 0
    ensures DataOf(Pass(w, order, now, faults).table, SteamKey(sid)) == []
  {
    hide Pass, DataOf, Good;
    PassIsCovered(w, ages, order, now, faults);
  }

  lemma CalmLeaves(w: World, ages: Ages, order: seq<nat>, now: nat, faults: seq<Faults>, i: nat)
    requires CalmOver(w, ages, order, now, faults) && IsSlot(i) && CurrentSid(w.slots[i]) != 0
    ensures DataOf(Pass(w, order, now, faults).table, SteamKey(CurrentSid(w.slots[i]))) == Left(w, ages, i)
  {
    var sid := CurrentSid(w.slots[i]);
    CalmSlot(w, order, now, faults, i);
    if Missed(w, ages, i) {
      MissedIsIdle(w, ages, i);
    }
    hide Pass, Calm, NoneWaiting, CalmFor, IsDue, DataOf, Takes, CurrentSid, Inv, Missed;
    SlotOutcome(w, ages, order, now, faults, i);
    if Refused(w, i) && w.states[i].appliedSteamId != sid {
      forall k | 0 <= k < MAX_SLOTS ensures Pass(w, order, now, faults).states[k].appliedSteamId != sid {
        CalmOwns(w, ages, order, now, faults, k);
        if k != i {
          OthersWant(w.slots, i, k);
        }
      }
      UnownedIsEmpty(w, ages, order, now, faults, sid);
    }
  }

  lemma OthersWant(slots: Slots, i: nat, k: nat)
    requires DistinctSids(slots) && IsSlot(i) && IsSlot(k) && i != k && CurrentSid(slots[i]) != 0
    ensures CurrentSid(slots[k]) != CurrentSid(slots[i])
  {
  }

  // Exactly when a calm pass is right: when every slot whose request it misses, or whose SteamID the
  // table refuses, holds the bytes it asks for already. Without such a slot it always is.
  lemma CalmPassIsExactIff(w: World, ages: Ages, order: seq<nat>, now: nat, faults: seq<Faults>)
    requires |faults| == |order| && Covers(order)
    requires Good(w, ages) && Calm(faults) && NoneWaiting(w, now)
    ensures Overrides(Pass(w, order, now, faults).table) == Desired(w.slots) <==>
            forall i :: 0 <= i < MAX_SLOTS && Stuck(w, ages, i) ==> Holds(w, i)
  {
    var w' := Pass(w, order, now, faults);
    hide Pass, Inv, Desired, Overrides, DataOf, Calm, NoneWaiting, CurrentSid, DistinctSids, Covers, Stuck, Holds, Left;
    PassIsCovered(w, ages, order, now, faults);
    forall i | 0 <= i < MAX_SLOTS
      ensures CurrentSid(w.slots[i]) != 0 ==> DataOf(w'.table, SteamKey(CurrentSid(w.slots[i]))) == Left(w, ages, i)
      ensures !Stuck(w, ages, i) || Holds(w, i) ==>
                && w'.states[i].appliedSteamId == CurrentSid(w.slots[i])
                && (CurrentSid(w.slots[i]) != 0 ==> Left(w, ages, i) == w.slots[i].request.data != [])
      ensures Stuck(w, ages, i) && !Holds(w, i) ==>
                CurrentSid(w.slots[i]) != 0 && Left(w, ages, i) != w.slots[i].request.data
    {
      LeftOrNot(w, ages, i);
      CalmOwns(w, ages, order, now, faults, i);
      if CurrentSid(w.slots[i]) != 0 {
        CalmLeaves(w, ages, order, now, faults, i);
      }
    }
    if forall i :: 0 <= i < MAX_SLOTS && Stuck(w, ages, i) ==> Holds(w, i) {
      ExactFromSlots(w', w.slots);
    } else {
      var i :| 0 <= i < MAX_SLOTS && Stuck(w, ages, i) && !Holds(w, i);
      DesiredAt(w.slots, i);
      OverridesAt(w'.table, CurrentSid(w.slots[i]));
    }
  }

  lemma LeftOrNot(w: World, ages: Ages, i: nat)
    requires IsSlot(i) && WellSized(w.slots)
    ensures CurrentSid(w.slots[i]) != 0 ==> w.slots[i].request.data != []
    ensures Holds(w, i) ==> w.states[i].appliedSteamId == CurrentSid(w.slots[i])
    ensures Stuck(w, ages, i) ==> CurrentSid(w.slots[i]) != 0
    ensures CurrentSid(w.slots[i]) != 0 ==>
              (Left(w, ages, i) == w.slots[i].request.data <==> !Stuck(w, ages, i) || Holds(w, i))
  {
    hide DataOf;
  }

  lemma PassIsCovered(w: World, ages: Ages, order: seq<nat>, now: nat, faults: seq<Faults>)
    requires |faults| == |order| && Covers(order) && Good(w, ages)
    ensures var w' := Pass(w, order, now, faults); Covered(w'.states, w'.table)
  {
    InvIsMid(w, ages);
    PassKeeps(w, ages, order, now, faults);
    hide Pass, Covered;
  }

  // Two visiting orders publish the same overrides, also where requests are missed or refused.
  lemma SlotOrderIsIrrelevant(w: World, ages: Ages, order: seq<nat>, order': seq<nat>, now: nat, faults: seq<Faults>,
                              faults': seq<Faults>)
    requires |faults| == |order| && Covers(order) && |faults'| == |order'| && Covers(order')
    requires Good(w, ages) && Calm(faults) && Calm(faults') && NoneWaiting(w, now)
    ensures Overrides(Pass(w, order, now, faults).table) == Overrides(Pass(w, order', now, faults').table)
  {
    var a, b := Pass(w, order, now, faults), Pass(w, order', now, faults');
    hide Pass, DataOf, Overrides, CurrentSid, Left, Good, Calm, NoneWaiting, Covers;
    assert CalmOver(w, ages, order, now, faults) && CalmOver(w, ages, order', now, faults');
    hide CalmOver;
    forall sid: uint64 ensures DataOf(a.table, SteamKey(sid)) == DataOf(b.table, SteamKey(sid)) {
      if sid != 0 && exists i :: 0 <= i < MAX_SLOTS && CurrentSid(w.slots[i]) == sid {
        var i :| 0 <= i < MAX_SLOTS && CurrentSid(w.slots[i]) == sid;
        CalmLeaves(w, ages, order, now, faults, i);
        CalmLeaves(w, ages, order', now, faults', i);
      } else {
        UnwantedIsEmpty(w, ages, order, now, faults, sid);
        UnwantedIsEmpty(w, ages, order', now, faults', sid);
      }
    }
    SameReads(a.table, b.table);
  }

  lemma UnwantedIsEmpty(w: World, ages: Ages, order: seq<nat>, now: nat, faults: seq<Faults>, sid: uint64)
    requires CalmOver(w, ages, order, now, faults)
    requires sid == 0 || forall i :: 0 <= i < MAX_SLOTS ==> CurrentSid(w.slots[i]) != sid
    ensures DataOf(Pass(w, order, now, faults).table, SteamKey(sid)) == []
  {
    hide Pass, DataOf, Good, CurrentSid;
    forall i | 0 <= i < MAX_SLOTS ensures Pass(w, order, now, faults).states[i].appliedSteamId != sid || sid == 0 {
      CalmOwns(w, ages, order, now, faults, i);
    }
    UnownedIsEmpty(w, ages, order, now, faults, sid);
  }

  lemma SameReads(t: Table, t': Table)
    requires forall sid: uint64 :: DataOf(t, SteamKey(sid)) == DataOf(t', SteamKey(sid))
    ensures Overrides(t) == Overrides(t')
  {
    hide Overrides, DataOf;
    forall sid: uint64
      ensures sid in Overrides(t) <==> sid in Overrides(t')
      ensures sid in Overrides(t) ==> Overrides(t)[sid] == Overrides(t')[sid]
    {
      OverridesAt(t, sid);
      OverridesAt(t', sid);
    }
  }

  // Once no slot is managed, a calm pass leaves no override, however many requests went unseen and
  // whatever index 0 holds.
  lemma CalmPassAfterRelease(w: World, ages: Ages, order: seq<nat>, now: nat, faults: seq<Faults>)
    requires |faults| == |order| && Covers(order)
    requires Good(w, ages) && Calm(faults) && NoneWaiting(w, now)
    requires forall i :: 0 <= i < MAX_SLOTS ==> !w.slots[i].managed
    ensures Overrides(Pass(w, order, now, faults).table) == map[]
  {
    CalmPassIsExactIff(w, ages, order, now, faults);
    assert forall i :: 0 <= i < MAX_SLOTS ==> CurrentSid(w.slots[i]) == 0;
    hide Pass, Good, Overrides, DataOf;
    assert Desired(w.slots) == map[];
  }

  // The request counters that a release moves on are seen to have moved.
  lemma ReleaseCancelsRetries(w: World, now: nat)
    requires forall i :: 0 <= i < MAX_SLOTS ==> w.states[i].sequence == w.slots[i].request.sequence
    ensures NoneWaiting(Step(w, ReleaseAll), now)
  {
  }

  // Whatever a pass did and failed to do, releasing every bot and passing once more, at any time,
  // leaves no override: a level change right after a failed frame cleans up.
  lemma ReleaseAllLeavesNone(w: World, ages: Ages, before: nat, failing: seq<Faults>, order: seq<nat>, now: nat,
                             faults: seq<Faults>)
    requires Good(w, ages) && |failing| == MAX_SLOTS && |faults| == |order| && Covers(order) && Calm(faults)
    ensures var released := Step(Step(w, RunPass(before, failing)), ReleaseAll);
            Overrides(Pass(released, order, now, faults).table) == map[]
  {
    var failed, failedAges := Step(w, RunPass(before, failing)), AgesStep(w, ages, RunPass(before, failing));
    StepKeeps(w, ages, RunPass(before, failing));
    PassExamines(w, ages, before, failing);
    assert failed == Pass(w, SlotOrder(MAX_SLOTS), before, failing);
    hide Good, Pass, Calm;
    ReleaseCancelsRetries(failed, now);
    StepKeeps(failed, failedAges, ReleaseAll);
    hide NoneWaiting;
    CalmPassAfterRelease(Step(failed, ReleaseAll), AgesStep(failed, failedAges, ReleaseAll), order, now, faults);
  }

  // After a pass every slot's request counter has been looked at.
  lemma PassExamines(w: World, ages: Ages, now: nat, faults: seq<Faults>)
    requires Good(w, ages) && |faults| == MAX_SLOTS
    ensures var w' := Pass(w, SlotOrder(MAX_SLOTS), now, faults);
            forall i :: 0 <= i < MAX_SLOTS ==> w'.states[i].sequence == w'.slots[i].request.sequence
  {
    var order := SlotOrder(MAX_SLOTS);
    InvIsMid(w, ages);
    PassKeeps(w, ages, order, now, faults);
    var w', ages' := Pass(w, order, now, faults), AgesAfterPass(w, ages, order, now, faults);
    hide Pass, AgesAfterPass, Good, Settled, MidInv;
    forall i | 0 <= i < MAX_SLOTS ensures w'.states[i].sequence == w'.slots[i].request.sequence {
      assert order[i] == i && i in VisitedBy(order);
      MidSlot(w', ages', VisitedBy(order), i);
    }
  }
}
