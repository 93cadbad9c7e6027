/** The invariant behind the avatar reconciler, and its preservation by one visit and by a pass.

    `ages[i]` counts how often slot i's request sequence moved since the slot was last examined.
    The code sees only the sequence modulo 2^32, so an age that is a positive multiple of 2^32 is
    a change it cannot detect. */
module AvatarInvariant {
  import opened Prelude
  import opened StringTable
  import opened Manager
  import opened Avatar

  type Ages = s: seq<nat> | |s| == MAX_SLOTS witness seq(MAX_SLOTS, i => 0)

  // No two slots own the clean-up of one SteamID.
  ghost predicate Exclusive(states: Runtimes) {
    forall i, j :: 0 <= i < MAX_SLOTS && 0 <= j < MAX_SLOTS && i != j && states[i].appliedSteamId != 0 ==>
      states[i].appliedSteamId != states[j].appliedSteamId
  }

  // Some slot owns the clean-up of a SteamID.
  ghost predicate HasOwner(states: Runtimes, sid: uint64) {
    sid != 0 && exists i :: 0 <= i < MAX_SLOTS && states[i].appliedSteamId == sid
  }

  // Every published override has an owner.
  ghost predicate Covered(states: Runtimes, t: Table) {
    forall sid: uint64 :: DataOf(t, SteamKey(sid)) != [] ==> HasOwner(states, sid)
  }

  // Every owned SteamID has a key, and never the reserved index 0.
  ghost predicate Backed(states: Runtimes, t: Table) {
    forall i :: 0 <= i < MAX_SLOTS && states[i].appliedSteamId != 0 ==> Find(t, SteamKey(states[i].appliedSteamId)) > 0
  }

  // A slot marked processed owns its SteamID, and unless its request moved since, the table holds
  // the requested bytes and the slot is published as applied. Only such a slot is.
  ghost predicate Settled(slot: Slot, r: Runtime, t: Table, age: nat) {
    && (r.processed ==>
          && r.appliedSteamId == r.steamId
          && slot.request.sequence == Wrap32(r.sequence + age)
          && (age == 0 && r.steamId != 0 ==>
                && HasRequest(slot) && slot.avatarApplied
                && DataOf(t, SteamKey(r.steamId)) == slot.request.data))
    && (slot.avatarApplied ==> r.processed && age == 0 && slot.avatarSteamId == r.steamId != 0)
  }

  // A slot whose SteamID moved on may have lost its override to the slot that now has the id.
  ghost predicate SlotOk(slot: Slot, r: Runtime, t: Table, age: nat, visited: bool) {
    if visited then r.sequence == slot.request.sequence && r.steamId == CurrentSid(slot) && Settled(slot, r, t, age)
    else Settled(slot, r, t, age) || r.steamId != CurrentSid(slot)
  }

  ghost predicate SlotsOk(w: World, ages: Ages, visited: set<nat>) {
    forall i :: 0 <= i < MAX_SLOTS ==> SlotOk(w.slots[i], w.states[i], w.table, ages[i], i in visited)
  }

  // The invariant inside a pass that has already visited some slots.
  ghost predicate MidInv(w: World, ages: Ages, visited: set<nat>) {
    && Exclusive(w.states)
    && Covered(w.states, w.table)
    && Backed(w.states, w.table)
    && SlotsOk(w, ages, visited)
  }

  // The invariant between passes.
  ghost predicate Inv(w: World, ages: Ages) {
    && Exclusive(w.states)
    && Covered(w.states, w.table)
    && Backed(w.states, w.table)
    && forall i :: 0 <= i < MAX_SLOTS ==> Settled(w.slots[i], w.states[i], w.table, ages[i])
  }

  // t' reads like t under every SteamID but one.
  ghost predicate SameReadsBut(t: Table, t': Table, sid: uint64) {
    forall o: uint64 :: o != sid ==> DataOf(t', SteamKey(o)) == DataOf(t, SteamKey(o))
  }

  ghost predicate KeepsKeys(t: Table, t': Table) {
    forall o: uint64 :: Find(t, SteamKey(o)) > 0 ==> Find(t', SteamKey(o)) > 0
  }

  lemma ClearReads(t: Table, sid: uint64, f: Faults)
    ensures var c := ClearOverride(t, sid, f);
            && SameReadsBut(t, c.table, sid) && KeepsKeys(t, c.table)
            && (if c.ok then DataOf(c.table, SteamKey(sid)) == [] else c.table == t)
  {
    var index := Find(t, SteamKey(sid));
    if index > 0 && !f.clear {
      forall o: uint64
        ensures var t' := SetUserData(t, index, []);
                && DataOf(t', SteamKey(o)) == (if o == sid then [] else DataOf(t, SteamKey(o)))
                && Find(t', SteamKey(o)) == Find(t, SteamKey(o))
      {
        SetUserDataReads(t, SteamKey(sid), [], SteamKey(o));
      }
    }
  }

  lemma ReserveReads(t: Table, f: Faults, o: uint64)
    ensures var c := Reserve(t, f);
            && DataOf(c.table, SteamKey(o)) == DataOf(t, SteamKey(o))
            && Find(c.table, SteamKey(o)) == Find(t, SteamKey(o))
            && (c.ok ==> c.table != [])
  {
    if |t| == 0 && !f.reserve {
      AddStringReads(t, Sentinel, [], SteamKey(o));
    }
  }

  lemma SetReads(t0: Table, sid: uint64, data: seq<byte>, f: Faults)
    ensures var c := SetOverride(t0, sid, data, f);
            && SameReadsBut(t0, c.table, sid) && KeepsKeys(t0, c.table)
            && DataOf(c.table, SteamKey(sid)) == (if c.ok then data else DataOf(t0, SteamKey(sid)))
            && (c.ok ==> Find(c.table, SteamKey(sid)) > 0)
  {
    var t := Reserve(t0, f).table;
    var c := SetOverride(t0, sid, data, f);
    var index := Find(t, SteamKey(sid));
    forall o: uint64
      ensures c.ok ==> DataOf(c.table, SteamKey(o)) == (if o == sid then data else DataOf(t0, SteamKey(o)))
      ensures !c.ok ==> DataOf(c.table, SteamKey(o)) == DataOf(t0, SteamKey(o))
      ensures Find(t0, SteamKey(o)) > 0 ==> Find(c.table, SteamKey(o)) > 0
      ensures c.ok && o == sid ==> Find(c.table, SteamKey(o)) > 0
    {
      ReserveReads(t0, f, o);
      if c.ok {
        if index < 0 {
          AddStringReads(t, SteamKey(sid), data, SteamKey(o));
        } else {
          SetUserDataReads(t, SteamKey(sid), data, SteamKey(o));
        }
      }
    }
  }

  // What holds of the slot under visit once the visit has decided to work on it.
  ghost predicate Working(w: World, ages: Ages, visited: set<nat>, i: nat) {
    && IsSlot(i)
    && i in visited
    && MidInv(w, ages, visited)
    && !w.states[i].processed
    && !w.slots[i].avatarApplied
  }

  // A retry changes no fact of the invariant, whatever else the failed call left in the table.
  lemma RetryKeeps(w: World, ages: Ages, visited: set<nat>, i: nat, now: nat, t: Table)
    requires Working(w, ages, visited, i)
    requires forall o: uint64 :: DataOf(t, SteamKey(o)) == DataOf(w.table, SteamKey(o))
    requires KeepsKeys(w.table, t)
    ensures MidInv(w.(states := w.states[i := Retry(w.states[i], now)], table := t), ages, visited)
  {
    var w' := w.(states := w.states[i := Retry(w.states[i], now)], table := t);
    assert forall j :: 0 <= j < MAX_SLOTS ==> w'.states[j].appliedSteamId == w.states[j].appliedSteamId;
    forall sid: uint64 | DataOf(t, SteamKey(sid)) != [] ensures HasOwner(w'.states, sid) {
      assert HasOwner(w.states, sid);
    }
  }

  lemma ClearKeeps(w: World, ages: Ages, visited: set<nat>, i: nat, f: Faults)
    requires Working(w, ages, visited, i)
    requires w.states[i].appliedSteamId != 0
    requires ClearOverride(w.table, w.states[i].appliedSteamId, f).ok
    ensures Working(w.(states := w.states[i := w.states[i].(appliedSteamId := 0)],
                       table := ClearOverride(w.table, w.states[i].appliedSteamId, f).table), ages, visited, i)
  {
    var sid := w.states[i].appliedSteamId;
    var t := ClearOverride(w.table, sid, f).table;
    var w' := w.(states := w.states[i := w.states[i].(appliedSteamId := 0)], table := t);
    ClearReads(w.table, sid, f);
    forall o: uint64 | DataOf(t, SteamKey(o)) != [] ensures HasOwner(w'.states, o) {
      assert DataOf(w.table, SteamKey(o)) != [] && HasOwner(w.states, o);
      var k :| 0 <= k < MAX_SLOTS && w.states[k].appliedSteamId == o;
      assert w'.states[k].appliedSteamId == o;
    }
    forall j | 0 <= j < MAX_SLOTS
      ensures SlotOk(w'.slots[j], w'.states[j], t, ages[j], j in visited)
    {
      assert SlotOk(w.slots[j], w.states[j], w.table, ages[j], j in visited);
      assert j != i ==> w.states[j].appliedSteamId != sid;
    }
  }

  // The visit is about to write the override of a SteamID, and owns no other one.
  ghost predicate Claiming(w: World, ages: Ages, visited: set<nat>, i: nat, f: Faults) {
    && Working(w, ages, visited, i)
    && DistinctSids(w.slots)
    && w.states[i].steamId != 0
    && (w.states[i].appliedSteamId == 0 || w.states[i].appliedSteamId == w.states[i].steamId)
    && SetOverride(w.table, w.states[i].steamId, w.slots[i].request.data, f).ok
  }

  function Claimed(w: World, i: nat, f: Faults): World
    requires IsSlot(i)
  {
    var sid := w.states[i].steamId;
    World(w.slots[i := Published(w.slots[i], true, sid)], TakeOver(w.states, i, sid),
          SetOverride(w.table, sid, w.slots[i].request.data, f).table)
  }

  lemma TakeOverEffect(states: Runtimes, i: nat, sid: uint64)
    requires IsSlot(i)
    ensures forall j :: 0 <= j < MAX_SLOTS && j != i ==>
      TakeOver(states, i, sid)[j] ==
        if states[j].appliedSteamId == sid then states[j].(appliedSteamId := 0) else states[j]
    ensures TakeOver(states, i, sid)[i] == states[i].(appliedSteamId := sid, processed := true)
  {
  }

  lemma ClaimKeepsOwnership(w: World, ages: Ages, visited: set<nat>, i: nat, f: Faults)
    requires Claiming(w, ages, visited, i, f)
    ensures var w' := Claimed(w, i, f);
            Exclusive(w'.states) && Covered(w'.states, w'.table) && Backed(w'.states, w'.table)
  {
    hide SetOverride, TakeOver, SlotsOk, DistinctSids;
    var sid := w.states[i].steamId;
    var w' := Claimed(w, i, f);
    TakeOverEffect(w.states, i, sid);
    SetReads(w.table, sid, w.slots[i].request.data, f);
    forall o: uint64 | DataOf(w'.table, SteamKey(o)) != [] ensures HasOwner(w'.states, o) {
      if o == sid {
        assert w'.states[i].appliedSteamId == o;
      } else {
        assert DataOf(w.table, SteamKey(o)) != [] && HasOwner(w.states, o);
        var k :| 0 <= k < MAX_SLOTS && w.states[k].appliedSteamId == o;
        assert w'.states[k].appliedSteamId == o;
      }
    }
  }

  // Publishing disowns only slots whose SteamID is no longer theirs.
  lemma ClaimKeepsSlot(w: World, ages: Ages, visited: set<nat>, i: nat, f: Faults, j: nat)
    requires Claiming(w, ages, visited, i, f) && IsSlot(j)
    ensures var w' := Claimed(w, i, f); SlotOk(w'.slots[j], w'.states[j], w'.table, ages[i := 0][j], j in visited)
  {
    hide SetOverride, TakeOver, Exclusive, Covered, Backed;
    var sid := w.states[i].steamId;
    TakeOverEffect(w.states, i, sid);
    SetReads(w.table, sid, w.slots[i].request.data, f);
    assert SlotOk(w.slots[j], w.states[j], w.table, ages[j], j in visited);
    assert SlotOk(w.slots[i], w.states[i], w.table, ages[i], true);
  }

  lemma PublishKeeps(w: World, ages: Ages, visited: set<nat>, i: nat, now: nat, f: Faults)
    requires Working(w, ages, visited, i) && DistinctSids(w.slots)
    requires w.states[i].appliedSteamId == 0 || w.states[i].appliedSteamId == w.states[i].steamId
    ensures MidInv(Publish(w, i, now, f), ages[i := 0], visited)
  {
    var sid := w.states[i].steamId;
    var aged := ages[i := 0];
    assert Working(w, aged, visited, i) by {
      assert forall j :: 0 <= j < MAX_SLOTS && j != i ==> aged[j] == ages[j];
      assert SlotOk(w.slots[i], w.states[i], w.table, ages[i], true);
    }
    if sid == 0 {
      var w' := Publish(w, i, now, f);
      assert forall j :: 0 <= j < MAX_SLOTS ==> w'.states[j].appliedSteamId == w.states[j].appliedSteamId;
      forall o: uint64 | DataOf(w.table, SteamKey(o)) != [] ensures HasOwner(w'.states, o) {
        assert HasOwner(w.states, o);
      }
    } else if f.convar {
      RetryKeeps(w, aged, visited, i, now, w.table);
    } else {
      var data := w.slots[i].request.data;
      if SetOverride(w.table, sid, data, f).ok {
        ClaimKeepsOwnership(w, ages, visited, i, f);
        forall j | 0 <= j < MAX_SLOTS
          ensures var w' := Claimed(w, i, f); SlotOk(w'.slots[j], w'.states[j], w'.table, aged[j], j in visited)
        {
          ClaimKeepsSlot(w, ages, visited, i, f, j);
        }
      } else {
        SetReads(w.table, sid, data, f);
        RetryKeeps(w, aged, visited, i, now, SetOverride(w.table, sid, data, f).table);
      }
    }
  }

  lemma RelinquishKeeps(w: World, ages: Ages, visited: set<nat>, i: nat, now: nat, f: Faults)
    requires Working(w, ages, visited, i) && DistinctSids(w.slots)
    ensures MidInv(Relinquish(w, i, now, f), ages[i := 0], visited)
  {
    var r := w.states[i];
    if r.appliedSteamId != 0 && r.appliedSteamId != r.steamId {
      if ClearOverride(w.table, r.appliedSteamId, f).ok {
        ClearKeeps(w, ages, visited, i, f);
        PublishKeeps(w.(states := w.states[i := r.(appliedSteamId := 0)],
                        table := ClearOverride(w.table, r.appliedSteamId, f).table), ages, visited, i, now, f);
      } else {
        RetryKeeps(w, ages, visited, i, now, w.table);
        assert SlotOk(w.slots[i], w.states[i], w.table, ages[i], true);
      }
    } else {
      PublishKeeps(w, ages, visited, i, now, f);
    }
  }

  // A skipped slot keeps its age; an examined one starts again at zero.
  function AgesAfterVisit(w: World, ages: Ages, i: nat, now: nat): Ages
    requires IsSlot(i)
  {
    if Skips(Detected(w, i), now) then ages else ages[i := 0]
  }

  lemma VisitKeeps(w: World, ages: Ages, visited: set<nat>, i: nat, now: nat, f: Faults)
    requires IsSlot(i) && MidInv(w, ages, visited) && DistinctSids(w.slots)
    ensures MidInv(Visit(w, i, now, f), AgesAfterVisit(w, ages, i, now), visited + {i})
  {
    var r := Detected(w, i);
    assert SlotOk(w.slots[i], w.states[i], w.table, ages[i], i in visited);
    if Skips(r, now) {
      assert r == w.states[i];
      assert w.states[i := r] == w.states;
      assert SlotsOk(w, ages, visited + {i}) by {
        assert forall j :: 0 <= j < MAX_SLOTS && j != i ==> (j in visited + {i} <==> j in visited);
      }
    } else {
      var w2 := World(w.slots[i := Published(w.slots[i], false, 0)], w.states[i := r], w.table);
      assert forall j :: 0 <= j < MAX_SLOTS ==> w2.states[j].appliedSteamId == w.states[j].appliedSteamId;
      forall o: uint64 | DataOf(w.table, SteamKey(o)) != [] ensures HasOwner(w2.states, o) {
        assert HasOwner(w.states, o);
      }
      forall j | 0 <= j < MAX_SLOTS
        ensures SlotOk(w2.slots[j], w2.states[j], w2.table, ages[j], j in visited + {i})
      {
        assert SlotOk(w.slots[j], w.states[j], w.table, ages[j], j in visited);
      }
      RelinquishKeeps(w2, ages, visited + {i}, i, now, f);
    }
  }
}
