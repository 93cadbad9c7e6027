/** The reconciler as the plugin runs it: per-slot bookkeeping and the string table updated in place.
    Its one entry point is proved equal to the pass of module Avatar. */
module AvatarReconciler {
  import opened Prelude
  import opened StringTable
  import opened Manager
  import opened Avatar

  // INetworkStringTable; `refuse` is the engine's answer to a mutation.
  class NetworkStringTable {
    var entries: Table

    constructor (entries: Table)
      ensures this.entries == entries
    {
      this.entries := entries;
    }

    method FindStringIndex(key: Key) returns (index: int)
      ensures index == Find(entries, key)
    {
      for i := 0 to |entries|
        invariant forall j :: 0 <= j < i ==> entries[j].key != key
      {
        if entries[i].key == key {
          FindUnique(entries, key, i);
          return i;
        }
      }
      return -1;
    }

    method AddKey(key: Key, data: seq<byte>, refuse: bool) returns (index: int)
      modifies this
      ensures entries == if refuse then old(entries) else AddString(old(entries), key, data)
      ensures index == if refuse then -1 else |old(entries)|
    {
      if refuse {
        return -1;
      }
      index := |entries|;
      entries := entries + [Entry(key, data)];
    }

    method SetStringUserData(index: nat, data: seq<byte>, refuse: bool) returns (ok: bool)
      requires index < |entries|
      modifies this
      ensures ok == !refuse
      ensures entries == if refuse then old(entries) else SetUserData(old(entries), index, data)
    {
      ok := !refuse;
      if ok {
        entries := entries[index := entries[index].(data := data)];
      }
    }
  }

  method ClearAvatarOverride(table: NetworkStringTable, sid: uint64, f: Faults) returns (ok: bool)
    modifies table
    ensures TableResult(ok, table.entries) == ClearOverride(old(table.entries), sid, f)
  {
    var index := table.FindStringIndex(SteamKey(sid));
    if index < 0 {
      return true;
    }
    if index == 0 {
      return false;
    }
    ok := table.SetStringUserData(index, [], f.clear);
  }

  method SetAvatarOverride(table: NetworkStringTable, sid: uint64, data: seq<byte>, f: Faults) returns (ok: bool)
    modifies table
    ensures TableResult(ok, table.entries) == SetOverride(old(table.entries), sid, data, f)
  {
    if |table.entries| == 0 {
      var sentinel := table.AddKey(Sentinel, [], f.reserve);
      if sentinel != 0 {
        return false;
      }
    }
    if |table.entries[0].data| != 0 {
      return false;
    }
    var index := table.FindStringIndex(SteamKey(sid));
    if index == 0 {
      return false;
    }
    if index < 0 {
      index := table.AddKey(SteamKey(sid), data, f.allocate);
      return index > 0;
    }
    ok := table.SetStringUserData(index, data, f.update);
  }

  class Reconciler {
    const manager: FakeClientManager
    const states: array<Runtime>
    var lastTable: NetworkStringTable?

    ghost predicate Valid()
      reads this, manager
    {
      manager.Valid() && states.Length == MAX_SLOTS && states as object != manager.slots
    }

    ghost function View(table: NetworkStringTable): World
      requires Valid()
      reads this, manager, manager.slots, states, table
    {
      World(manager.slots[..], states[..], table.entries)
    }

    constructor (manager: FakeClientManager)
      requires manager.Valid()
      ensures Valid() && this.manager == manager && fresh(states) && lastTable == null
      ensures forall i :: 0 <= i < MAX_SLOTS ==> states[i] == INITIAL_RUNTIME
    {
      this.manager := manager;
      states := new Runtime[MAX_SLOTS](i => INITIAL_RUNTIME);
      lastTable := null;
    }

    method TransferOwnership(slot: nat, sid: uint64)
      requires Valid() && IsSlot(slot)
      modifies states
      ensures states[..] == TakeOver(old(states[..]), slot, sid)
    {
      for j := 0 to MAX_SLOTS
        invariant forall k :: 0 <= k < j ==>
          states[k] ==
            if old(states[k]).appliedSteamId == sid then old(states[k]).(appliedSteamId := 0) else old(states[k])
        invariant forall k :: j <= k < MAX_SLOTS ==> states[k] == old(states[k])
      {
        if states[j].appliedSteamId == sid {
          states[j] := states[j].(appliedSteamId := 0);
        }
      }
      states[slot] := states[slot].(appliedSteamId := sid);
      states[slot] := states[slot].(processed := true);
    }

    method PublishSlot(table: NetworkStringTable, slot: nat, now: nat, f: Faults)
      requires Valid() && IsSlot(slot)
      modifies states, manager.slots, table
      ensures View(table) == Publish(old(View(table)), slot, now, f)
    {
      var sid := states[slot].steamId;
      if sid == 0 {
        states[slot] := states[slot].(processed := true);
        return;
      }
      if f.convar {
        states[slot] := Retry(states[slot], now);
        return;
      }
      var ok := SetAvatarOverride(table, sid, manager.slots[slot].request.data, f);
      if !ok {
        states[slot] := Retry(states[slot], now);
        return;
      }
      TransferOwnership(slot, sid);
      manager.PublishAvatarState(slot, true, sid);
    }

    // One iteration of the slot loop.
    method VisitSlot(table: NetworkStringTable, slot: nat, now: nat, f: Faults)
      requires Valid() && IsSlot(slot)
      modifies states, manager.slots, table
      ensures View(table) == Visit(old(View(table)), slot, now, f)
    {
      var request := manager.slots[slot].request;
      var sid := CurrentSid(manager.slots[slot]);
      if states[slot].sequence != request.sequence || states[slot].steamId != sid {
        states[slot] :=
          states[slot].(sequence := request.sequence, steamId := sid, processed := false, failureLogged := false,
                        retryAt := 0);
      }
      assert states[..] == old(states[..])[slot := Detected(old(View(table)), slot)];
      if states[slot].processed || now < states[slot].retryAt {
        return;
      }
      manager.PublishAvatarState(slot, false, 0);
      var applied := states[slot].appliedSteamId;
      if applied != 0 && applied != sid {
        var ok := ClearAvatarOverride(table, applied, f);
        if !ok {
          states[slot] := Retry(states[slot], now);
          return;
        }
        states[slot] := states[slot].(appliedSteamId := 0);
      }
      PublishSlot(table, slot, now, f);
    }

    // The reset a table not seen before brings, and ResetRuntime apart from forgetting the table.
    method ResetStates(table: NetworkStringTable)
      requires Valid()
      modifies states, manager.slots
      ensures View(table) == Reset(old(View(table)), table.entries)
    {
      forall i | 0 <= i < MAX_SLOTS {
        states[i] := INITIAL_RUNTIME;
      }
      for slot := 0 to MAX_SLOTS
        invariant forall i :: 0 <= i < MAX_SLOTS ==> states[i] == INITIAL_RUNTIME
        invariant forall i :: 0 <= i < slot ==> manager.slots[i] == Published(old(manager.slots[i]), false, 0)
        invariant forall i :: slot <= i < MAX_SLOTS ==> manager.slots[i] == old(manager.slots[i])
      {
        ghost var before := manager.slots[..];
        manager.PublishAvatarState(slot, false, 0);
        assert forall i :: 0 <= i < MAX_SLOTS ==> manager.slots[i] == manager.slots[..][i];
      }
    }

    // ProcessOverrides; `table` is what FindTable answered.
    method ProcessOverrides(table: NetworkStringTable?, now: nat, faults: seq<Faults>)
      requires Valid() && |faults| == MAX_SLOTS
      modifies this`lastTable, states, manager.slots, table
      ensures table == null ==>
                lastTable == old(lastTable) && states[..] == old(states[..]) &&
                manager.slots[..] == old(manager.slots[..])
      ensures table != null ==>
        && lastTable == table
        && View(table) ==
             Pass(if table == old(lastTable) then old(View(table)) else Reset(old(View(table)), old(table.entries)),
                               SlotOrder(MAX_SLOTS), now, faults)
    {
      if table == null {
        return;
      }
      if table != lastTable {
        ResetStates(table);
        lastTable := table;
      }
      ghost var start := View(table);
      for slot := 0 to MAX_SLOTS
        invariant View(table) == Pass(start, SlotOrder(slot), now, faults[..slot])
        invariant lastTable == table
      {
        VisitSlot(table, slot, now, faults[slot]);
        assert SlotOrder(slot + 1)[..slot] == SlotOrder(slot);
        assert faults[..slot + 1][..slot] == faults[..slot];
      }
      assert faults[..MAX_SLOTS] == faults;
    }
  }
}
