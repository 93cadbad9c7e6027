/** What a pass makes of one slot: it is served, missed, or refused. */
module AvatarOutcomes {
  import opened Prelude
  import opened StringTable
  import opened Manager
  import opened Avatar
  import opened AvatarInvariant
  import opened AvatarTheorems
  import opened AvatarRuns

  // A slot that asks for an override and that a pass leaves alone although its request has moved.
  predicate Missed(w: World, ages: Ages, i: nat)
    requires IsSlot(i)
  {
    && ages[i] > 0 && ages[i] % TWO_32 == 0
    && w.states[i].processed && w.states[i].steamId == CurrentSid(w.slots[i]) != 0
  }

  lemma PublishReads(w: World, j: nat, now: nat, f: Faults, sid: uint64)
    requires IsSlot(j) && sid != w.states[j].steamId
    ensures DataOf(Publish(w, j, now, f).table, SteamKey(sid)) == DataOf(w.table, SteamKey(sid))
  {
    SetReads(w.table, w.states[j].steamId, w.slots[j].request.data, f);
    hide SetOverride, DataOf, TakeOver;
  }

  // The SteamIDs whose entries a visit may write: the one owned and the one asked for.
  lemma VisitReads(w: World, j: nat, now: nat, f: Faults, sid: uint64)
    requires IsSlot(j) && sid != w.states[j].appliedSteamId && sid != CurrentSid(w.slots[j])
    ensures DataOf(Visit(w, j, now, f).table, SteamKey(sid)) == DataOf(w.table, SteamKey(sid))
  {
    hide Publish, ClearOverride, DataOf;
    var r := Detected(w, j);
    var w1 := World(w.slots[j := Published(w.slots[j], false, 0)], w.states[j := r], w.table);
    ClearReads(w.table, r.appliedSteamId, f);
    PublishReads(w1, j, now, f, sid);
    PublishReads(w1.(states := w1.states[j := r.(appliedSteamId := 0)],
                     table := ClearOverride(w.table, r.appliedSteamId, f).table), j, now, f, sid);
  }

  // A slot that is up to date, as far as change detection can see, at some point of a pass.
  ghost predicate Idle(w: World, ages: Ages, visited: set<nat>, i: nat) {
    && IsSlot(i) && MidInv(w, ages, visited) && DistinctSids(w.slots)
    && w.states[i].processed && w.states[i].steamId == w.states[i].appliedSteamId == CurrentSid(w.slots[i]) != 0
    && w.states[i].sequence == w.slots[i].request.sequence
  }

  lemma VisitKeepsIdle(w: World, ages: Ages, visited: set<nat>, i: nat, j: nat, now: nat, f: Faults)
    requires Idle(w, ages, visited, i) && IsSlot(j)
    ensures var w' := Visit(w, j, now, f);
            && w'.states[i].sequence == w.states[i].sequence && w'.states[i].steamId == w.states[i].steamId &&
               w'.states[i].processed
            && w'.slots[i] == w.slots[i]
            && DataOf(w'.table, SteamKey(w.states[i].steamId)) == DataOf(w.table, SteamKey(w.states[i].steamId))
  {
    if i == j {
      assert Detected(w, i) == w.states[i];
      assert w.states[i := w.states[i]] == w.states;
    } else {
      VisitFrame(w, j, now, f);
      VisitReads(w, j, now, f, w.states[i].steamId);
      hide Visit;
    }
  }

  // A pass keeps what the table holds for such a slot, whatever the slot asks for.
  lemma {:induction false} PassKeepsIdle(w: World, ages: Ages, i: nat, order: seq<nat>, now: nat, faults: seq<Faults>)
    requires |faults| == |order| && forall j :: j in order ==> IsSlot(j)
    requires Idle(w, ages, {}, i)
    ensures var w' := Pass(w, order, now, faults);
            && Idle(w', AgesAfterPass(w, ages, order, now, faults), VisitedBy(order), i)
            && w'.slots[i] == w.slots[i]
            && DataOf(w'.table, SteamKey(CurrentSid(w.slots[i]))) == DataOf(w.table, SteamKey(CurrentSid(w.slots[i])))
  {
    hide Visit, AgesAfterVisit, DistinctSids, DataOf, CurrentSid, Exclusive, Covered, Backed;
    PassKeeps(w, ages, order, now, faults);
    if order != [] {
      var last := |order| - 1;
      var before, rest := order[..last], faults[..last];
      assert forall j :: j in before ==> j in order;
      PassKeepsIdle(w, ages, i, before, now, rest);
      var mid, midAges := Pass(w, before, now, rest), AgesAfterPass(w, ages, before, now, rest);
      VisitKeepsIdle(mid, midAges, VisitedBy(before), i, order[last], now, faults[last]);
      var w', ages' := Pass(w, order, now, faults), AgesAfterPass(w, ages, order, now, faults);
      SameRequestsKeepDistinct(w.slots, w'.slots);
      assert SlotOk(w'.slots[i], w'.states[i], w'.table, ages'[i], i in VisitedBy(order));
    } else {
      assert VisitedBy(order) == {};
    }
  }

  lemma MissedIsIdle(w: World, ages: Ages, i: nat)
    requires Good(w, ages) && IsSlot(i) && Missed(w, ages, i)
    ensures Idle(w, ages, {}, i) && !HasBotAvatar(w.slots[i])
  {
    assert Settled(w.slots[i], w.states[i], w.table, ages[i]);
    hide Settled;
    assert SlotsOk(w, ages, {});
  }

  lemma MidSlot(w: World, ages: Ages, visited: set<nat>, i: nat)
    requires MidInv(w, ages, visited) && IsSlot(i)
    ensures SlotOk(w.slots[i], w.states[i], w.table, ages[i], i in visited)
  {
  }

  lemma VisitedSlot(before: Slot, s: Slot, r: Runtime, t: Table, age: nat)
    requires SlotOk(s, r, t, age, true) && r.processed
    requires s == before.(avatarApplied := s.avatarApplied, avatarSteamId := s.avatarSteamId)
    ensures r.appliedSteamId == CurrentSid(before)
    ensures age > 0 ==> age % TWO_32 == 0
    ensures age == 0 && CurrentSid(before) != 0 ==> DataOf(t, SteamKey(CurrentSid(before))) == before.request.data
  {
  }

  // Change detection has something to do on a slot that wants an override.
  ghost predicate IsStale(w: World, i: nat)
    requires IsSlot(i)
  {
    !w.states[i].processed || w.states[i].steamId != CurrentSid(w.slots[i])
  }

  // Such a slot is examined, and then counts from zero.
  lemma {:induction false} StaleIsExamined(w: World, ages: Ages, order: seq<nat>, now: nat, faults: seq<Faults>, i: nat)
    requires |faults| == |order| && (forall j :: j in order ==> IsSlot(j)) && i in order && IsSlot(i)
    requires IsDue(w, i, now) && IsStale(w, i)
    ensures AgesAfterPass(w, ages, order, now, faults)[i] == 0
  {
    hide Visit, AgesAfterVisit;
    var last := |order| - 1;
    var before, rest := order[..last], faults[..last];
    assert forall j :: j in before ==> j in order;
    var mid, midAges := Pass(w, before, now, rest), AgesAfterPass(w, ages, before, now, rest);
    if i in before {
      StaleIsExamined(w, ages, before, now, rest, i);
      AgesStayOrRestart(mid, midAges, order[last], now);
    } else {
      assert order[last] == i by { assert order == before + [order[last]]; }
      PassFrame(w, before, now, rest, i);
      ExaminedRestarts(mid, midAges, i, now);
    }
  }

  lemma ExaminedRestarts(w: World, ages: Ages, i: nat, now: nat)
    requires IsSlot(i) && IsStale(w, i) && IsDue(w, i, now)
    ensures AgesAfterVisit(w, ages, i, now)[i] == 0
  {
  }

  // A pass that does not visit a slot leaves its detection state alone.
  lemma {:induction false} PassFrame(w: World, order: seq<nat>, now: nat, faults: seq<Faults>, i: nat)
    requires |faults| == |order| && (forall j :: j in order ==> IsSlot(j)) && i !in order && IsSlot(i)
    ensures var w' := Pass(w, order, now, faults);
            w'.slots[i] == w.slots[i] && w'.states[i] == w.states[i].(appliedSteamId := w'.states[i].appliedSteamId)
  {
    hide Visit;
    if order != [] {
      var last := |order| - 1;
      assert forall j :: j in order[..last] ==> j in order;
      PassFrame(w, order[..last], now, faults[..last], i);
      VisitFrame(Pass(w, order[..last], now, faults[..last]), order[last], now, faults[last]);
    }
  }

  // A visit changes what another slot owns only by taking over the SteamID it asks for.
  lemma VisitOwns(w: World, j: nat, now: nat, f: Faults, i: nat)
    requires IsSlot(i) && IsSlot(j) && i != j
    ensures var w' := Visit(w, j, now, f);
            || w'.states[i].appliedSteamId == w.states[i].appliedSteamId
            || (w'.states[i].appliedSteamId == 0 && w.states[i].appliedSteamId == CurrentSid(w.slots[j]))
  {
    hide Publish, ClearOverride;
    var r := Detected(w, j);
    var w1 := World(w.slots[j := Published(w.slots[j], false, 0)], w.states[j := r], w.table);
    PublishOwns(w1, j, now, f, i);
    PublishOwns(w1.(states := w1.states[j := r.(appliedSteamId := 0)],
                    table := ClearOverride(w.table, r.appliedSteamId, f).table), j, now, f, i);
  }

  lemma PublishOwns(w: World, j: nat, now: nat, f: Faults, i: nat)
    requires IsSlot(i) && IsSlot(j) && i != j
    ensures var w' := Publish(w, j, now, f);
            || w'.states[i].appliedSteamId == w.states[i].appliedSteamId
            || (w'.states[i].appliedSteamId == 0 && w.states[i].appliedSteamId == w.states[j].steamId)
  {
    TakeOverEffect(w.states, j, w.states[j].steamId);
    hide TakeOver, SetOverride;
  }

  // A slot that asks for what the table cannot take.
  predicate Refused(w: World, i: nat)
    requires IsSlot(i)
  {
    !Takes(w.table, CurrentSid(w.slots[i]))
  }

  lemma RefusedSet(t: Table, sid: uint64, data: seq<byte>, f: Faults)
    requires !Takes(t, sid)
    ensures SetOverride(t, sid, data, f) == TableResult(false, t)
  {
  }

  // What a visit of such a slot itself does: it gives up another SteamID if that can be cleared, and
  // keeps its own.
  lemma RefusedVisit(w: World, i: nat, now: nat, f: Faults)
    requires IsSlot(i) && Refused(w, i)
    ensures var w' := Visit(w, i, now, f);
            var sid := CurrentSid(w.slots[i]);
            && (w.states[i].appliedSteamId == sid ==> w'.states[i].appliedSteamId == sid && w'.table == w.table)
            && (w.states[i].appliedSteamId != sid ==> w'.states[i].appliedSteamId in {0, w.states[i].appliedSteamId})
            && (w.states[i].appliedSteamId != sid && !Skips(Detected(w, i), now)
                && Calm([f]) && Backed(w.states, w.table) ==>
                  w'.states[i].appliedSteamId == 0)
  {
    var r := Detected(w, i);
    var w1 := World(w.slots[i := Published(w.slots[i], false, 0)], w.states[i := r], w.table);
    var cleared := ClearOverride(w.table, r.appliedSteamId, f).table;
    var w2 := w1.(states := w1.states[i := r.(appliedSteamId := 0)], table := cleared);
    ClearHead(w.table, r.appliedSteamId, f);
    HeadTakes(w.table, cleared);
    if r.appliedSteamId != 0 && Calm([f]) && Backed(w.states, w.table) {
      CalmClear(w, i, f);
    }
    hide ClearOverride, Publish, Takes, Backed, SameHead, CurrentSid;
    RefusedPublish(w1, i, now, f);
    RefusedPublish(w2, i, now, f);
  }

  lemma RefusedPublish(w: World, i: nat, now: nat, f: Faults)
    requires IsSlot(i) && !Takes(w.table, w.states[i].steamId)
    ensures var w' := Publish(w, i, now, f);
            w'.table == w.table && w'.states[i].appliedSteamId == w.states[i].appliedSteamId
  {
    RefusedSet(w.table, w.states[i].steamId, w.slots[i].request.data, f);
    hide SetOverride;
  }

  // Whatever fails, a refused slot that owns its SteamID keeps it, and the bytes that are there.
  lemma {:induction false} RefusedOwnerKeeps(w: World, ages: Ages, order: seq<nat>, now: nat, faults: seq<Faults>,
                                             i: nat)
    requires |faults| == |order| && forall j :: j in order ==> IsSlot(j)
    requires MidInv(w, ages, {}) && DistinctSids(w.slots)
    requires IsSlot(i) && Refused(w, i) && w.states[i].appliedSteamId == CurrentSid(w.slots[i])
    ensures var w' := Pass(w, order, now, faults);
            var sid := CurrentSid(w.slots[i]);
            && CurrentSid(w'.slots[i]) == sid && w'.states[i].appliedSteamId == sid
            && DataOf(w'.table, SteamKey(sid)) == DataOf(w.table, SteamKey(sid))
  {
    hide Visit, MidInv, DistinctSids, Takes, DataOf, CurrentSid, AgesAfterVisit;
    if order != [] {
      var last := |order| - 1;
      var before, rest := order[..last], faults[..last];
      assert forall j :: j in before ==> j in order;
      RefusedOwnerKeeps(w, ages, before, now, rest, i);
      PassKeeps(w, ages, before, now, rest);
      PassHead(w, before, now, rest);
      var mid := Pass(w, before, now, rest);
      HeadTakes(w.table, mid.table);
      SameRequestsKeepDistinct(w.slots, mid.slots);
      hide SameHead;
      assert Refused(mid, i);
      OwnerVisit(mid, AgesAfterPass(w, ages, before, now, rest), VisitedBy(before), order[last], now, faults[last], i);
    }
  }

  lemma OwnerVisit(w: World, ages: Ages, visited: set<nat>, j: nat, now: nat, f: Faults, i: nat)
    requires MidInv(w, ages, visited) && DistinctSids(w.slots) && IsSlot(i) && IsSlot(j)
    requires Refused(w, i) && w.states[i].appliedSteamId == CurrentSid(w.slots[i])
    ensures var w' := Visit(w, j, now, f);
            var sid := CurrentSid(w.slots[i]);
            && CurrentSid(w'.slots[i]) == sid && w'.states[i].appliedSteamId == sid
            && DataOf(w'.table, SteamKey(sid)) == DataOf(w.table, SteamKey(sid))
  {
    VisitFrame(w, j, now, f);
    SameCurrentSid(w.slots[j], Visit(w, j, now, f).slots[j]);
    if i == j {
      RefusedVisit(w, i, now, f);
    } else {
      OthersAsk(w, ages, visited, i, j);
      VisitOwns(w, j, now, f, i);
      VisitReads(w, j, now, f, CurrentSid(w.slots[i]));
    }
    hide Visit, DataOf, CurrentSid, MidInv;
  }

  // Another slot neither owns nor asks for the SteamID that a slot owns and asks for.
  lemma OthersAsk(w: World, ages: Ages, visited: set<nat>, i: nat, j: nat)
    requires MidInv(w, ages, visited) && DistinctSids(w.slots) && IsSlot(i) && IsSlot(j) && i != j
    requires w.states[i].appliedSteamId == CurrentSid(w.slots[i]) != 0
    ensures CurrentSid(w.slots[i]) != w.states[j].appliedSteamId && CurrentSid(w.slots[i]) != CurrentSid(w.slots[j])
  {
    hide Covered, Backed, SlotsOk;
  }

  // A refused slot that does not own its SteamID never gets it, and owns nothing once it has been
  // visited without a failure.
  lemma {:induction false} RefusedOutsider(w: World, ages: Ages, order: seq<nat>, now: nat, faults: seq<Faults>, i: nat)
    requires |faults| == |order| && forall j :: j in order ==> IsSlot(j)
    requires MidInv(w, ages, {}) && DistinctSids(w.slots)
    requires IsSlot(i) && Refused(w, i) && w.states[i].appliedSteamId != CurrentSid(w.slots[i])
    requires IsDue(w, i, now) && CalmFor(order, faults, i)
    ensures var w' := Pass(w, order, now, faults);
            && CurrentSid(w'.slots[i]) == CurrentSid(w.slots[i])
            && w'.states[i].appliedSteamId != CurrentSid(w.slots[i])
            && (if i in order then w'.states[i].appliedSteamId == 0 else IsDue(w', i, now))
  {
    hide Visit, MidInv, DistinctSids, Takes, CurrentSid, Calm, IsDue, AgesAfterVisit, Backed;
    if order != [] {
      var last := |order| - 1;
      var before, rest := order[..last], faults[..last];
      assert forall j :: j in before ==> j in order;
      RefusedOutsider(w, ages, before, now, rest, i);
      PassKeeps(w, ages, before, now, rest);
      PassHead(w, before, now, rest);
      var mid := Pass(w, before, now, rest);
      HeadTakes(w.table, mid.table);
      hide SameHead;
      assert Refused(mid, i);
      var midAges := AgesAfterPass(w, ages, before, now, rest);
      assert order == before + [order[last]];
      OutsiderVisit(mid, midAges, VisitedBy(before), order[last], now, faults[last], i);
    }
  }

  lemma OutsiderVisit(w: World, ages: Ages, visited: set<nat>, j: nat, now: nat, f: Faults, i: nat)
    requires MidInv(w, ages, visited) && IsSlot(i) && IsSlot(j)
    requires Refused(w, i) && w.states[i].appliedSteamId != CurrentSid(w.slots[i])
    requires w.states[i].appliedSteamId == 0 || IsDue(w, i, now)
    requires i == j ==> Calm([f])
    ensures var w' := Visit(w, j, now, f);
            && CurrentSid(w'.slots[i]) == CurrentSid(w.slots[i])
            && w'.states[i].appliedSteamId != CurrentSid(w.slots[i])
            && (w.states[i].appliedSteamId == 0 || i == j ==> w'.states[i].appliedSteamId == 0)
            && (i != j && IsDue(w, i, now) ==> IsDue(w', i, now))
  {
    VisitFrame(w, j, now, f);
    SameCurrentSid(w.slots[j], Visit(w, j, now, f).slots[j]);
    if i == j {
      MidSlot(w, ages, visited, i);
      MidBacked(w, ages, visited);
      RefusedVisit(w, i, now, f);
      if w.states[i].appliedSteamId != 0 {
        OutsiderIsVisited(w.slots[i], w.states[i], w.table, ages[i], i in visited, now);
      }
    } else {
      VisitOwns(w, j, now, f, i);
    }
    hide Visit, CurrentSid, MidInv;
  }

  // Such a slot is not processed, so that being due it is not skipped.
  lemma OutsiderIsVisited(s: Slot, r: Runtime, t: Table, age: nat, visited: bool, now: nat)
    requires SlotOk(s, r, t, age, visited) && r.appliedSteamId != CurrentSid(s)
    ensures !Refreshed(r, s.request.sequence, CurrentSid(s)).processed
  {
  }

  lemma RefusedVisitReports(w: World, i: nat, now: nat, f: Faults)
    requires IsSlot(i) && Refused(w, i)
    ensures var w' := Visit(w, i, now, f); w'.slots[i] == w.slots[i] || !w'.slots[i].avatarApplied
  {
    var r := Detected(w, i);
    var w1 := World(w.slots[i := Published(w.slots[i], false, 0)], w.states[i := r], w.table);
    var cleared := ClearOverride(w.table, r.appliedSteamId, f).table;
    var w2 := w1.(states := w1.states[i := r.(appliedSteamId := 0)], table := cleared);
    ClearHead(w.table, r.appliedSteamId, f);
    HeadTakes(w.table, cleared);
    RefusedSet(w1.table, r.steamId, w1.slots[i].request.data, f);
    RefusedSet(w2.table, r.steamId, w2.slots[i].request.data, f);
    hide ClearOverride, SetOverride, Takes, SameHead, CurrentSid;
  }

  // A slot that the table refuses reports no avatar after a pass unless it did before.
  lemma {:induction false} RefusedIsNotPublished(w: World, order: seq<nat>, now: nat, faults: seq<Faults>, i: nat)
    requires |faults| == |order| && forall j :: j in order ==> IsSlot(j)
    requires IsSlot(i) && Refused(w, i) && !HasBotAvatar(w.slots[i])
    ensures var w' := Pass(w, order, now, faults);
            CurrentSid(w'.slots[i]) == CurrentSid(w.slots[i]) && !HasBotAvatar(w'.slots[i])
  {
    hide Visit, Takes, CurrentSid;
    if order != [] {
      var last := |order| - 1;
      var before, rest := order[..last], faults[..last];
      assert forall j :: j in before ==> j in order;
      RefusedIsNotPublished(w, before, now, rest, i);
      PassHead(w, before, now, rest);
      var mid := Pass(w, before, now, rest);
      HeadTakes(w.table, mid.table);
      hide SameHead;
      VisitFrame(mid, order[last], now, faults[last]);
      SameCurrentSid(mid.slots[order[last]], Pass(w, order, now, faults).slots[order[last]]);
      if order[last] == i {
        RefusedVisitReports(mid, i, now, faults[last]);
      }
    }
  }

  // Whatever fails, such a slot goes on reporting its avatar exactly if it did.
  lemma RefusedReports(w: World, ages: Ages, order: seq<nat>, now: nat, faults: seq<Faults>, i: nat)
    requires |faults| == |order| && forall j :: j in order ==> IsSlot(j)
    requires Good(w, ages) && IsSlot(i) && Refused(w, i)
    ensures HasBotAvatar(Pass(w, order, now, faults).slots[i]) <==> HasBotAvatar(w.slots[i])
  {
    if HasBotAvatar(w.slots[i]) {
      PassKeepsReportedAvatar(w, ages, order, now, faults, i);
    } else {
      RefusedIsNotPublished(w, order, now, faults, i);
    }
  }

  // What a pass in which nothing fails for a slot makes of it. It ends up owning what it asks for,
  // unless that is refused and the slot did not own it before; under its SteamID are the bytes it asks
  // for, or, if it is missed or refused, those that were there; and it reports an avatar exactly if it
  // asks for one and is served, or was served before and is now refused.
  lemma SlotOutcome(w: World, ages: Ages, order: seq<nat>, now: nat, faults: seq<Faults>, i: nat)
    requires |faults| == |order| && (forall j :: j in order ==> IsSlot(j)) && i in order
    requires Good(w, ages) && CalmFor(order, faults, i) && IsDue(w, i, now)
    ensures var w' := Pass(w, order, now, faults);
            var sid := CurrentSid(w.slots[i]);
            var owns := !Refused(w, i) || w.states[i].appliedSteamId == sid;
            && w'.states[i].appliedSteamId == (if owns then sid else 0)
            && (sid != 0 && owns ==>
                  DataOf(w'.table, SteamKey(sid)) ==
                    if Missed(w, ages, i) || Refused(w, i) then DataOf(w.table, SteamKey(sid))
                    else w.slots[i].request.data)
            && (HasBotAvatar(w'.slots[i]) <==>
                  sid != 0 && !Missed(w, ages, i) && (Refused(w, i) ==> HasBotAvatar(w.slots[i])))
  {
    InvIsMid(w, ages);
    if Missed(w, ages, i) {
      MissedIsIdle(w, ages, i);
    }
    hide Visit, Pass, AgesAfterPass, Inv, MidInv, DistinctSids, CalmFor, IsDue, DataOf, Takes, HasBotAvatar, Missed;
    if Refused(w, i) {
      RefusedReports(w, ages, order, now, faults, i);
      if w.states[i].appliedSteamId == CurrentSid(w.slots[i]) {
        RefusedOwnerKeeps(w, ages, order, now, faults, i);
      } else {
        RefusedOutsider(w, ages, order, now, faults, i);
      }
    } else {
      ServedOutcome(w, ages, order, now, faults, i);
    }
  }

  lemma ServedOutcome(w: World, ages: Ages, order: seq<nat>, now: nat, faults: seq<Faults>, i: nat)
    requires |faults| == |order| && (forall j :: j in order ==> IsSlot(j)) && i in order
    requires Good(w, ages) && CalmFor(order, faults, i) && IsDue(w, i, now) && !Refused(w, i)
    ensures var w' := Pass(w, order, now, faults);
            && w'.states[i].appliedSteamId == CurrentSid(w.slots[i])
            && (CurrentSid(w.slots[i]) != 0 ==>
                  DataOf(w'.table, SteamKey(CurrentSid(w.slots[i]))) ==
                    if Missed(w, ages, i) then DataOf(w.table, SteamKey(CurrentSid(w.slots[i])))
                    else w.slots[i].request.data)
            && (HasBotAvatar(w'.slots[i]) <==> CurrentSid(w.slots[i]) != 0 && !Missed(w, ages, i))
  {
    InvIsMid(w, ages);
    if Missed(w, ages, i) {
      MissedIsIdle(w, ages, i);
    }
    hide Visit, Pass, AgesAfterPass, Inv, MidInv, Exclusive, Covered, Backed, DistinctSids, CalmFor, Takes, IsDue,
      DataOf, CurrentSid, Settled, Idle, HasBotAvatar;
    PassReports(w, ages, order, now, faults, i);
    ServedSlot(w, ages, order, now, faults, i);
    PassKeeps(w, ages, order, now, faults);
    var w', ages' := Pass(w, order, now, faults), AgesAfterPass(w, ages, order, now, faults);
    assert i in VisitedBy(order);
    assert SlotOk(w'.slots[i], w'.states[i], w'.table, ages'[i], true) by { MidSlot(w', ages', VisitedBy(order), i); }
    VisitedSlot(w.slots[i], w'.slots[i], w'.states[i], w'.table, ages'[i]);
    if Missed(w, ages, i) {
      PassKeepsIdle(w, ages, i, order, now, faults);
    } else if ages[i] > 0 && ages[i] % TWO_32 == 0 && CurrentSid(w.slots[i]) != 0 {
      StaleIsExamined(w, ages, order, now, faults, i);
    }
  }
}
