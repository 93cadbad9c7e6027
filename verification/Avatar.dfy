/** One reconciliation pass over the avatar overrides, as a function of the whole state.

    The string table may refuse any operation, and a refused operation leaves the table as it
    was. `Faults` says which operations a visit of one slot would be refused. */
module Avatar {
  import opened Prelude
  import opened StringTable
  import opened Manager

  // AvatarRuntimeState; time is counted in nanoseconds since the clock's epoch.
  datatype Runtime = Runtime(
    sequence: uint32,
    steamId: uint64,
    appliedSteamId: uint64,
    processed: bool,
    failureLogged: bool,
    retryAt: nat)

  const INITIAL_RUNTIME := Runtime(0xFFFF_FFFF, 0, 0, false, false, 0)

  const RETRY_DELAY: nat := 1_000_000_000

  // What the environment refuses during one visit: the clear, the convar, the sentinel's
  // reservation, the allocation of a key, the update of a key.
  datatype Faults = Faults(clear: bool, convar: bool, reserve: bool, allocate: bool, update: bool)

  type Runtimes = s: seq<Runtime> | |s| == MAX_SLOTS witness seq(MAX_SLOTS, i => INITIAL_RUNTIME)

  datatype World = World(slots: Slots, states: Runtimes, table: Table)

  // The slot's request is not empty and was made in the slot's present lifetime.
  predicate HasRequest(s: Slot) {
    s.managed && s.request.length > 0 && s.request.incarnation != 0 && s.request.incarnation == s.incarnation
  }

  // The SteamID whose override the slot asks for now, or 0.
  function CurrentSid(s: Slot): uint64 {
    if HasRequest(s) then s.steamId else 0
  }

  // A changed request or SteamID cancels the processed mark and any waiting retry.
  function Refreshed(r: Runtime, sequence: uint32, steamId: uint64): Runtime {
    if r.sequence != sequence || r.steamId != steamId
    then r.(sequence := sequence, steamId := steamId, processed := false, failureLogged := false, retryAt := 0)
    else r
  }

  datatype TableResult = TableResult(ok: bool, table: Table)

  // ClearAvatarOverride
  function ClearOverride(t: Table, sid: uint64, f: Faults): TableResult {
    var index := Find(t, SteamKey(sid));
    if index < 0 then TableResult(true, t)
    else if index == 0 || f.clear then TableResult(false, t)
    else TableResult(true, SetUserData(t, index, []))
  }

  // The sentinel takes index 0 of an empty table, so that no SteamID ever gets it.
  function Reserve(t: Table, f: Faults): TableResult {
    if |t| != 0 then TableResult(true, t)
    else if f.reserve then TableResult(false, t)
    else TableResult(true, AddString(t, Sentinel, []))
  }

  // SetAvatarOverride
  function SetOverride(t0: Table, sid: uint64, data: seq<byte>, f: Faults): TableResult {
    var reserved := Reserve(t0, f);
    var t := reserved.table;
    if !reserved.ok || t[0].data != [] then TableResult(false, t)
    else
      var index := Find(t, SteamKey(sid));
      if index == 0 then TableResult(false, t)
      else if index < 0 then
        if f.allocate then TableResult(false, t) else TableResult(true, AddString(t, SteamKey(sid), data))
      else
        if f.update then TableResult(false, t) else TableResult(true, SetUserData(t, index, data))
  }

  function Retry(r: Runtime, now: nat): Runtime {
    r.(retryAt := now + RETRY_DELAY, failureLogged := true)
  }

  // The slot that just wrote an override owns its clean-up; whoever owned it before does not.
  function TakeOver(states: Runtimes, i: nat, sid: uint64): Runtimes
    requires IsSlot(i)
  {
    var disowned := seq(MAX_SLOTS, j requires 0 <= j < MAX_SLOTS =>
      if states[j].appliedSteamId == sid then states[j].(appliedSteamId := 0) else states[j]);
    disowned[i := disowned[i].(appliedSteamId := sid, processed := true)]
  }

  // The visit skips a slot that is up to date or whose retry is not due.
  predicate Skips(r: Runtime, now: nat) {
    r.processed || now < r.retryAt
  }

  // The slot's runtime after change detection.
  function Detected(w: World, i: nat): Runtime
    requires IsSlot(i)
  {
    Refreshed(w.states[i], w.slots[i].request.sequence, CurrentSid(w.slots[i]))
  }

  // Third part of a visit: publish the wanted override, once nothing else is owned.
  function Publish(w: World, i: nat, now: nat, f: Faults): World
    requires IsSlot(i)
  {
    var r := w.states[i];
    var sid := r.steamId;
    if sid == 0 then w.(states := w.states[i := r.(processed := true)])
    else if f.convar then w.(states := w.states[i := Retry(r, now)])
    else
      var written := SetOverride(w.table, sid, w.slots[i].request.data, f);
      if !written.ok then w.(states := w.states[i := Retry(r, now)], table := written.table)
      else World(w.slots[i := Published(w.slots[i], true, sid)], TakeOver(w.states, i, sid), written.table)
  }

  // Second part of a visit: give up an override the slot owns under another SteamID.
  function Relinquish(w: World, i: nat, now: nat, f: Faults): World
    requires IsSlot(i)
  {
    var r := w.states[i];
    if r.appliedSteamId != 0 && r.appliedSteamId != r.steamId then
      var cleared := ClearOverride(w.table, r.appliedSteamId, f);
      if !cleared.ok then w.(states := w.states[i := Retry(r, now)])
      else Publish(w.(states := w.states[i := r.(appliedSteamId := 0)], table := cleared.table), i, now, f)
    else Publish(w, i, now, f)
  }

  // One iteration of the slot loop.
  function Visit(w: World, i: nat, now: nat, f: Faults): World
    requires IsSlot(i)
  {
    var r := Detected(w, i);
    var w1 := w.(states := w.states[i := r]);
    if Skips(r, now) then w1
    else Relinquish(w1.(slots := w.slots[i := Published(w.slots[i], false, 0)]), i, now, f)
  }

  // A pass that visits the slots of `order` from left to right.
  function Pass(w: World, order: seq<nat>, now: nat, faults: seq<Faults>): World
    requires |faults| == |order|
    requires forall i :: i in order ==> IsSlot(i)
  {
    if order == [] then w
    else
      var last := |order| - 1;
      assert forall i :: i in order[..last] ==> i in order;
      Visit(Pass(w, order[..last], now, faults[..last]), order[last], now, faults[last])
  }

  // The order of the slot loop.
  function SlotOrder(n: nat): (order: seq<nat>)
    ensures |order| == n && forall i :: 0 <= i < n ==> order[i] == i
  {
    seq(n, i => i)
  }

  // The runtime reset that a new table or ResetRuntime brings.
  function Reset(w: World, t: Table): World {
    World(seq(MAX_SLOTS, i requires 0 <= i < MAX_SLOTS => Published(w.slots[i], false, 0)),
          seq(MAX_SLOTS, i => INITIAL_RUNTIME), t)
  }

  // No two managed slots carry one SteamID; the identity allocation guarantees it.
  ghost predicate DistinctSids(slots: Slots) {
    forall i, j :: 0 <= i < j < MAX_SLOTS && slots[i].managed && slots[j].managed ==>
      slots[i].steamId != slots[j].steamId
  }

  // What a pass has to achieve: for each slot's current SteamID, the bytes it requests.
  ghost function Desired(slots: Slots): map<uint64, seq<byte>>
    requires DistinctSids(slots)
  {
    map i | 0 <= i < MAX_SLOTS && CurrentSid(slots[i]) != 0 :: CurrentSid(slots[i]) := slots[i].request.data
  }

  // BridgeClient.HasBotAvatar
  predicate HasBotAvatar(s: Slot) {
    s.managed && s.avatarApplied && s.avatarSteamId == s.steamId
  }
}
