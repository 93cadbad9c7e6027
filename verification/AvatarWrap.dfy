/** How far change detection reaches: a slot's request counter is 32 bits wide, so a number of
    requests between two passes that is a multiple of 2^32 looks like no request at all. */
module AvatarWrap {
  import opened Prelude
  import opened StringTable
  import opened Manager
  import opened Avatar
  import opened AvatarInvariant
  import opened AvatarTheorems
  import opened AvatarRuns
  import opened AvatarOutcomes

  // The slot after `count` further requests with the same data.
  function RequestedTimes(s: Slot, data: seq<byte>, count: nat): (r: Slot)
    requires |data| <= AVATAR_MAX_BYTES
    ensures r.managed == s.managed && r.steamId == s.steamId && r.incarnation == s.incarnation
    ensures count > 0 ==>
              !r.avatarApplied && r.request.data == data && r.request.incarnation == s.incarnation &&
              r.request.length == |data|
  {
    if count == 0 then s else Requested(RequestedTimes(s, data, count - 1), data)
  }

  lemma {:induction false} SequenceAfter(s: Slot, data: seq<byte>, count: nat)
    requires |data| <= AVATAR_MAX_BYTES
    ensures RequestedTimes(s, data, count).request.sequence == Wrap32(s.request.sequence + count)
  {
    if count > 0 {
      SequenceAfter(s, data, count - 1);
      WrapOnce(RequestedTimes(s, data, count - 1).request.sequence, s.request.sequence, count - 1);
    }
  }

  function WithRequests(w: World, i: nat, data: seq<byte>, count: nat): World
    requires IsSlot(i) && |data| <= AVATAR_MAX_BYTES
  {
    w.(slots := w.slots[i := RequestedTimes(w.slots[i], data, count)])
  }

  lemma {:induction false} RequestsKeepGood(w: World, ages: Ages, i: nat, data: seq<byte>, count: nat)
    requires Good(w, ages) && IsSlot(i) && |data| <= AVATAR_MAX_BYTES
    ensures Good(WithRequests(w, i, data, count), ages[i := ages[i] + count])
  {
    if count == 0 {
      assert w.slots[i := w.slots[i]] == w.slots && ages[i := ages[i]] == ages;
    } else {
      RequestsKeepGood(w, ages, i, data, count - 1);
      var w1 := WithRequests(w, i, data, count - 1);
      var s := w1.slots[i];
      hide Inv, Settled;
      MoveKeeps(w1, ages[i := ages[i] + (count - 1)], i, Requested(s, data));
      assert w1.slots[i := Requested(s, data)] == WithRequests(w, i, data, count).slots;
      assert ages[i := ages[i] + (count - 1)][i := ages[i] + count] == ages[i := ages[i] + count];
    }
  }

  // Two slots that change detection cannot tell apart.
  ghost predicate LooksLike(s: Slot, s': Slot) {
    s'.request.sequence == s.request.sequence && CurrentSid(s') == CurrentSid(s)
  }

  // A visit never looks at the data of a slot it does not work on.
  lemma VisitIgnores(w: World, i: nat, s: Slot, j: nat, now: nat, f: Faults)
    requires IsSlot(i) && IsSlot(j) && LooksLike(w.slots[i], s)
    requires w.states[i].processed && Detected(w, i) == w.states[i]
    ensures var v, v' := Visit(w, j, now, f), Visit(w.(slots := w.slots[i := s]), j, now, f);
            v' == v.(slots := v.slots[i := s])
  {
    var w' := w.(slots := w.slots[i := s]);
    if j == i {
      assert Detected(w', i) == w.states[i];
    } else {
      var r := Detected(w, j);
      assert Detected(w', j) == r;
      var a := World(w.slots[j := Published(w.slots[j], false, 0)], w.states[j := r], w.table);
      var b := World(w'.slots[j := Published(w'.slots[j], false, 0)], w.states[j := r], w.table);
      assert b.slots == a.slots[i := s];
      PublishIgnores(a, i, s, j, now, f);
      PublishIgnores(a.(states := a.states[j := r.(appliedSteamId := 0)],
                        table := ClearOverride(a.table, r.appliedSteamId, f).table), i, s, j, now, f);
      hide Publish;
    }
  }

  lemma PublishIgnores(w: World, i: nat, s: Slot, j: nat, now: nat, f: Faults)
    requires IsSlot(i) && IsSlot(j) && i != j
    ensures var v, v' := Publish(w, j, now, f), Publish(w.(slots := w.slots[i := s]), j, now, f);
            v' == v.(slots := v.slots[i := s])
  {
    var sid := w.states[j].steamId;
    assert w.slots[j := Published(w.slots[j], true, sid)][i := s] ==
             w.slots[i := s][j := Published(w.slots[j], true, sid)];
  }

  // A slot that reports an avatar has nothing to detect, at any point of a pass.
  lemma ReportedStaysProcessed(w: World, ages: Ages, i: nat, order: seq<nat>, now: nat, faults: seq<Faults>)
    requires |faults| == |order| && forall j :: j in order ==> IsSlot(j)
    requires Inv(w, ages) && DistinctSids(w.slots) && IsSlot(i) && HasBotAvatar(w.slots[i])
    ensures var mid := Pass(w, order, now, faults);
            && mid.slots[i] == w.slots[i]
            && mid.states[i].processed && Detected(mid, i) == mid.states[i]
  {
    hide Pass, AgesAfterPass, DataOf, DistinctSids, Exclusive, Covered, Backed, CurrentSid;
    PassKeepsReportedAvatar(w, ages, order, now, faults, i);
    PassKeeps(w, ages, order, now, faults);
    var mid, midAges := Pass(w, order, now, faults), AgesAfterPass(w, ages, order, now, faults);
    assert SlotOk(mid.slots[i], mid.states[i], mid.table, midAges[i], i in VisitedBy(order));
  }

  lemma {:induction false} PassIgnores(w: World, ages: Ages, i: nat, s: Slot, order: seq<nat>, now: nat,
                                       faults: seq<Faults>)
    requires |faults| == |order| && forall j :: j in order ==> IsSlot(j)
    requires Inv(w, ages) && DistinctSids(w.slots)
    requires IsSlot(i) && HasBotAvatar(w.slots[i]) && LooksLike(w.slots[i], s)
    ensures var v, v' := Pass(w, order, now, faults), Pass(w.(slots := w.slots[i := s]), order, now, faults);
            v' == v.(slots := v.slots[i := s])
  {
    hide Visit, Inv, DistinctSids, HasBotAvatar, LooksLike, Detected;
    if order != [] {
      var last := |order| - 1;
      var before, rest := order[..last], faults[..last];
      assert forall j :: j in before ==> j in order;
      PassIgnores(w, ages, i, s, before, now, rest);
      ReportedStaysProcessed(w, ages, i, before, now, rest);
      VisitIgnores(Pass(w, before, now, rest), i, s, order[last], now, faults[last]);
    }
  }

  // A slot whose avatar is up, requests for other bytes, and then a pass in which nothing fails for
  // that slot.
  ghost predicate Superseded(w: World, ages: Ages, i: nat, data: seq<byte>, order: seq<nat>, faults: seq<Faults>) {
    && Good(w, ages) && IsSlot(i) && HasBotAvatar(w.slots[i])
    && 0 < |data| <= AVATAR_MAX_BYTES && data != w.slots[i].request.data
    && |faults| == |order| && (forall j :: j in order ==> IsSlot(j)) && i in order
    && CalmFor(order, faults, i)
  }

  lemma FullTurnsAreMissed(w: World, ages: Ages, i: nat, data: seq<byte>, count: nat, order: seq<nat>, now: nat,
                           faults: seq<Faults>)
    requires Superseded(w, ages, i, data, order, faults)
    requires count > 0 && count % TWO_32 == 0
    ensures DataOf(Pass(WithRequests(w, i, data, count), order, now, faults).table, SteamKey(w.slots[i].steamId)) ==
              w.slots[i].request.data
  {
    hide Pass, CalmFor;
    assert Settled(w.slots[i], w.states[i], w.table, ages[i]);
    SequenceAfter(w.slots[i], data, count);
    PassIgnores(w, ages, i, RequestedTimes(w.slots[i], data, count), order, now, faults);
    PassKeepsReportedAvatar(w, ages, order, now, faults, i);
  }

  lemma ReportedAge(w: World, ages: Ages, i: nat)
    requires Good(w, ages) && IsSlot(i) && HasBotAvatar(w.slots[i])
    ensures ages[i] == 0 && CurrentSid(w.slots[i]) == w.slots[i].steamId != 0 && HasRequest(w.slots[i])
  {
    assert Settled(w.slots[i], w.states[i], w.table, ages[i]);
  }

  lemma ExaminedSlotIsExact(s: Slot, r: Runtime, t: Table, age: nat, count: nat)
    requires SlotOk(s, r, t, age, true) && r.processed && CurrentSid(s) != 0
    requires age in {0, count} && count % TWO_32 != 0
    ensures DataOf(t, SteamKey(CurrentSid(s))) == s.request.data
  {
  }

  // A request that can be seen is worked on at once.
  lemma RequestsAreDue(w: World, ages: Ages, i: nat, data: seq<byte>, count: nat, now: nat)
    requires Good(w, ages) && IsSlot(i) && HasBotAvatar(w.slots[i]) && |data| <= AVATAR_MAX_BYTES && count % TWO_32 != 0
    ensures IsDue(WithRequests(w, i, data, count), i, now)
  {
    assert Settled(w.slots[i], w.states[i], w.table, ages[i]);
    SequenceAfter(w.slots[i], data, count);
    hide Settled, Inv;
    TurnsAreSeen(w.states[i].sequence, count);
  }

  lemma TurnsAreSeen(sequence: uint32, count: nat)
    ensures Wrap32(sequence + count) == sequence <==> count % TWO_32 == 0
  {
  }

  lemma OthersAreExamined(w: World, ages: Ages, i: nat, data: seq<byte>, count: nat, order: seq<nat>, now: nat,
                          faults: seq<Faults>)
    requires Superseded(w, ages, i, data, order, faults)
    requires count % TWO_32 != 0 && Takes(w.table, w.slots[i].steamId)
    ensures DataOf(Pass(WithRequests(w, i, data, count), order, now, faults).table, SteamKey(w.slots[i].steamId)) ==
              data
  {
    hide Pass, AgesAfterPass, Exclusive, Covered, Backed, DistinctSids;
    RequestsAreDue(w, ages, i, data, count, now);
    var w1, ages1 := WithRequests(w, i, data, count), ages[i := ages[i] + count];
    ReportedAge(w, ages, i);
    RequestsKeepGood(w, ages, i, data, count);
    hide Settled;
    PassKeeps(w1, ages1, order, now, faults);
    RequestedSlotWants(w, ages, i, data, count);
    ServedSlot(w1, ages1, order, now, faults, i);
    var w' := Pass(w1, order, now, faults);
    var ages' := AgesAfterPass(w1, ages1, order, now, faults);
    hide Inv, Good, CalmFor, Takes, IsDue;
    assert i in order && i in VisitedBy(order);
    ExaminedSlotIsExact(w'.slots[i], w'.states[i], w'.table, ages'[i], count);
  }

  // Where the table refuses the SteamID the old bytes stay.
  lemma RefusedKeepsOld(w: World, ages: Ages, i: nat, data: seq<byte>, count: nat, order: seq<nat>, now: nat,
                        faults: seq<Faults>)
    requires Superseded(w, ages, i, data, order, faults) && count > 0
    requires !Takes(w.table, w.slots[i].steamId)
    ensures DataOf(Pass(WithRequests(w, i, data, count), order, now, faults).table, SteamKey(w.slots[i].steamId)) ==
              w.slots[i].request.data
  {
    var w1, ages1 := WithRequests(w, i, data, count), ages[i := ages[i] + count];
    RequestsKeepGood(w, ages, i, data, count);
    RequestedSlotWants(w, ages, i, data, count);
    ReportedAvatarIsTrue(w, ages, i);
    hide Pass, Takes, DataOf, CurrentSid, MidInv, Exclusive, Covered, Backed, DistinctSids, Settled;
    InvIsMid(w1, ages1);
    RefusedOwnerKeeps(w1, ages1, order, now, faults, i);
  }

  // The new bytes get published exactly if the number of requests is not a multiple of 2^32, and the
  // table can take them.
  lemma RequestCountDecides(w: World, ages: Ages, i: nat, data: seq<byte>, count: nat, order: seq<nat>, now: nat,
                            faults: seq<Faults>)
    requires Superseded(w, ages, i, data, order, faults) && count > 0
    ensures DataOf(Pass(WithRequests(w, i, data, count), order, now, faults).table, SteamKey(w.slots[i].steamId)) ==
              data
            <==> count % TWO_32 != 0 && Takes(w.table, w.slots[i].steamId)
  {
    hide Pass, Takes;
    if count % TWO_32 == 0 {
      FullTurnsAreMissed(w, ages, i, data, count, order, now, faults);
    } else if !Takes(w.table, w.slots[i].steamId) {
      RefusedKeepsOld(w, ages, i, data, count, order, now, faults);
    } else {
      OthersAreExamined(w, ages, i, data, count, order, now, faults);
    }
  }

  lemma RequestedSlotWants(w: World, ages: Ages, i: nat, data: seq<byte>, count: nat)
    requires Good(w, ages) && IsSlot(i) && HasBotAvatar(w.slots[i]) && 0 < |data| <= AVATAR_MAX_BYTES && count > 0
    ensures var s := WithRequests(w, i, data, count).slots[i];
            CurrentSid(s) == w.slots[i].steamId != 0 && s.request.data == data
  {
    ReportedAge(w, ages, i);
    hide Inv;
  }

  // So a full turn of requests makes a calm pass end with overrides that are not the wanted ones.
  lemma FullTurnBreaksRefinement(w: World, ages: Ages, i: nat, data: seq<byte>, count: nat, order: seq<nat>,
                                 now: nat, faults: seq<Faults>)
    requires Superseded(w, ages, i, data, order, faults) && count > 0 && count % TWO_32 == 0
    ensures var w1 := WithRequests(w, i, data, count);
            && DistinctSids(w1.slots)
            && Overrides(Pass(w1, order, now, faults).table) != Desired(w1.slots)
  {
    var w1 := WithRequests(w, i, data, count);
    FullTurnsAreMissed(w, ages, i, data, count, order, now, faults);
    RequestsKeepGood(w, ages, i, data, count);
    RequestedSlotWants(w, ages, i, data, count);
    assert data != w.slots[i].request.data;
    hide Superseded, Pass, Inv, WellSized, DistinctSids, Overrides, Desired, DataOf, WithRequests, CurrentSid;
    DesiredAt(w1.slots, i);
    OverridesAt(Pass(w1, order, now, faults).table, w.slots[i].steamId);
  }
}
