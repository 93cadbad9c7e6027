/** Who holds which identity: the steps by which bots are adopted, renamed and released, over the
    slot table, the identity pool, the slot bindings and the engine's clients. */
module Allocation {
  import opened Prelude
  import opened Engine
  import opened Manager
  import opened BotInfo

  type Bound = s: seq<Option<nat>> | |s| == MAX_SLOTS witness seq(MAX_SLOTS, i => None)

  datatype State = State(
    world: World,
    slots: Slots,
    counter: uint64,
    entries: seq<BotEntry>,
    taken: seq<bool>,
    bound: Bound)

  // The identity mode in force, and whether a population transaction is open.
  datatype Mode = Bot | Player(inTransaction: bool)

  // CollectOccupiedSteamIds: what the other clients use and what the other bots have reserved.
  function Occupied(w: World, slots: Slots, slot: int): Option<set<uint64>> {
    if ResolveClient(w, slot).None? then None
    else Some(LiveIds(w.clients, slot) + ReservedIds(slots, slot))
  }

  function LiveIds(clients: seq<Option<Client>>, slot: int): set<uint64> {
    set i | 0 <= i < |clients| && i != slot && clients[i].Some? && clients[i].value.steamId != 0 ::
      clients[i].value.steamId
  }

  function ReservedIds(slots: Slots, slot: int): set<uint64> {
    set i | 0 <= i < MAX_SLOTS && i != slot && slots[i].managed :: slots[i].steamId
  }

  // A SteamID the slot can have: one that no other client uses and no other bot has reserved.
  predicate IsAvailable(w: World, slots: Slots, slot: int, steamId: uint64) {
    steamId != 0 && Occupied(w, slots, slot).Some? && steamId !in Occupied(w, slots, slot).value
  }

  // SteamIdAvailability
  datatype Availability = Available | InUse | CheckFailed

  // Some other live client carries the id, or some other managed slot has it.
  ghost predicate IsInUse(w: World, slots: Slots, slot: int, steamId: uint64) {
    || (exists i :: 0 <= i < |w.clients| && i != slot && w.clients[i].Some? && w.clients[i].value.steamId == steamId)
    || (exists i :: 0 <= i < MAX_SLOTS && i != slot && slots[i].managed && slots[i].steamId == steamId)
  }

  lemma InUseIsOccupied(w: World, slots: Slots, slot: int, steamId: uint64)
    requires ResolveClient(w, slot).Some? && steamId != 0
    ensures IsInUse(w, slots, slot, steamId) <==> steamId in Occupied(w, slots, slot).value
  {
  }

  // The flag bytes a bot gets when it is shown as a player.
  function ShowAs(w: World, slot: int, mode: Mode): World {
    match mode
    case Bot => w
    case Player(inTransaction) =>
      var client := ResolveClient(w, slot);
      if client.None? then w
      else SetControllerFlag(PutClient(w, slot, ClearFakePlayer(client.value)), slot, inTransaction)
  }

  // The flag bytes and the empty SteamID that give the slot back to the engine.
  function Undisguise(w: World, slot: int): World {
    var client := ResolveClient(w, slot);
    if client.None? then w
    else
      var w1 := SetControllerFlag(PutClient(w, slot, SetFakePlayer(client.value)), slot, true);
      PutClient(w1, slot, WriteSteamId(w1.clients[slot].value, 0))
  }

  // identity_state::ReleaseSlot
  function ReleaseSlot(s: State, slot: nat): State
    requires IsSlot(slot)
  {
    var entry := s.bound[slot];
    s.(taken := if entry.Some? && entry.value < |s.taken| then s.taken[entry.value := false] else s.taken,
       bound := s.bound[slot := None],
       slots := s.slots[slot := Cleared(s.slots[slot])])
  }

  // identity_state::ReleaseAll
  function ReleaseAll(s: State): State {
    s.(slots := seq(MAX_SLOTS, i requires 0 <= i < MAX_SLOTS => Cleared(s.slots[i])),
       taken := seq(|s.entries|, i => false),
       bound := seq(MAX_SLOTS, i => None))
  }

  // AdoptClient; `r` is the random number the pool draws.
  function AdoptClient(s: State, slot: nat, name: Option<string>, mode: Mode, r: nat): State
    requires IsSlot(slot) && |s.taken| == |s.entries|
  {
    var occupied := Occupied(s.world, s.slots, slot);
    if occupied.None? then s
    else
      var pick := Pick(s.entries, s.taken, occupied.value, name, r);
      if pick.None? then s
      else
        var steamId := s.entries[pick.value].steamId64;
        var stamp := NextIncarnation(s.counter);
        var client := ResolveClient(s.world, slot).value;
        s.(counter := stamp,
           taken := s.taken[pick.value := true],
           slots := s.slots[slot := Adopted(s.slots[slot], steamId, stamp)],
           bound := s.bound[slot := pick],
           world := ShowAs(PutClient(s.world, slot, WriteSteamId(client, steamId)), slot, mode))
  }

  predicate IsHltvConnection(name: Option<string>, networkId: Option<string>) {
    name == Some("SourceTV") || networkId == Some("HLTV")
  }

  // HookOnClientConnectedPost
  function Connected(s: State, slot: int, name: Option<string>, networkId: Option<string>, fakePlayer: bool,
                     mode: Mode, r: nat): State
    requires |s.taken| == |s.entries|
  {
    var client := ResolveClient(s.world, slot);
    if !fakePlayer || IsHltvConnection(name, networkId) then s
    else if !IsSlot(slot) || s.slots[slot].managed then s
    else if client.None? || client.value.hltv then s
    else AdoptClient(s, slot, name, mode, r)
  }

  // ReleaseManagedHltvSlot
  function ReleaseHltv(s: State, slot: nat): State
    requires IsSlot(slot)
  {
    var client := ResolveClient(s.world, slot);
    if client.None? || !s.slots[slot].managed || !client.value.hltv then s
    else ReleaseSlot(s.(world := PutClient(s.world, slot, WriteSteamId(client.value, 0))), slot)
  }

  // HookClientPutInServerPost
  function PutInServer(s: State, slot: int, mode: Mode): State {
    var client := ResolveClient(s.world, slot);
    if !IsSlot(slot) || !s.slots[slot].managed || client.None? then s
    else if client.value.hltv then ReleaseHltv(s, slot)
    else
      var steamId := s.slots[slot].steamId;
      if !IsAvailable(s.world, s.slots, slot, steamId) then ReleaseSlot(s.(world := Undisguise(s.world, slot)), slot)
      else
        var w1 := ShowAs(s.world, slot, mode);
        var c1 := ResolveClient(w1, slot);
        if c1.None? then s.(world := w1) else s.(world := PutClient(w1, slot, WriteSteamId(c1.value, steamId)))
  }

  // HookClientDisconnectPre, apart from the controller it may queue for removal.
  function Disconnected(s: State, slot: int): State {
    if !IsSlot(slot) || !s.slots[slot].managed then s
    else ReleaseSlot(s.(world := Undisguise(s.world, slot)), slot)
  }

  // BH_SetSteamId: the lifetime check, then ApplySteamIdCommand.
  function SetSteamId(s: State, slot: int, incarnation: uint64, steamId: uint64, mode: Mode): State {
    if !IsSlot(slot) || !Target(s.slots[slot], incarnation) then s
    else if ResolveClient(s.world, slot).None? || !IsAvailable(s.world, s.slots, slot, steamId) then s
    else
      var w1 := ShowAs(s.world, slot, if mode.Player? then Player(false) else mode);
      var c1 := ResolveClient(w1, slot);
      s.(world := if c1.None? then w1 else PutClient(w1, slot, WriteSteamId(c1.value, steamId)),
         slots := s.slots[slot := s.slots[slot].(steamId := steamId)])
  }

  // Three tables, one relation: slot i is managed exactly when it is bound, no entry is bound
  // twice, an entry is taken exactly when it is bound, and a slot's stamp tells whether it is managed.
  ghost predicate IsBound(s: State, k: nat) {
    exists i :: 0 <= i < MAX_SLOTS && s.bound[i] == Some(k)
  }

  ghost predicate Bijective(s: State) {
    && |s.taken| == |s.entries|
    && (forall i :: 0 <= i < MAX_SLOTS ==> (s.slots[i].managed <==> s.bound[i].Some?))
    && (forall i :: 0 <= i < MAX_SLOTS && s.bound[i].Some? ==> s.bound[i].value < |s.entries|)
    && (forall i, j :: 0 <= i < j < MAX_SLOTS && s.bound[i].Some? ==> s.bound[i] != s.bound[j])
    && (forall k :: 0 <= k < |s.entries| ==> (s.taken[k] <==> IsBound(s, k)))
  }

  ghost predicate Stamped(slots: Slots) {
    forall i :: 0 <= i < MAX_SLOTS ==> (slots[i].incarnation != 0 <==> slots[i].managed)
  }

  ghost predicate DistinctIdsInUse(slots: Slots) {
    && (forall i :: 0 <= i < MAX_SLOTS && slots[i].managed ==> slots[i].steamId != 0)
    && (forall i, j :: 0 <= i < j < MAX_SLOTS && slots[i].managed && slots[j].managed ==>
          slots[i].steamId != slots[j].steamId)
  }

  ghost predicate Inv(s: State) {
    Bijective(s) && Stamped(s.slots) && DistinctIdsInUse(s.slots) && DistinctIds(s.entries)
  }

  // The world plays no part in the invariant.
  lemma WorldIsIrrelevant(s: State, w: World)
    ensures Inv(s.(world := w)) <==> Inv(s)
  {
    assert forall k :: 0 <= k < |s.entries| ==> (IsBound(s.(world := w), k) <==> IsBound(s, k));
  }

  lemma ReleaseKeepsBijection(s: State, slot: nat)
    requires Inv(s) && IsSlot(slot)
    ensures Bijective(ReleaseSlot(s, slot))
  {
    var s' := ReleaseSlot(s, slot);
    forall k | 0 <= k < |s.entries| ensures s'.taken[k] <==> IsBound(s', k) {
      if IsBound(s, k) {
        var i :| 0 <= i < MAX_SLOTS && s.bound[i] == Some(k);
        assert i != slot ==> s'.bound[i] == Some(k);
      }
    }
  }

  lemma ReleaseKeeps(s: State, slot: nat)
    requires Inv(s) && IsSlot(slot)
    ensures Inv(ReleaseSlot(s, slot))
  {
    ReleaseKeepsBijection(s, slot);
  }

  lemma ReleaseAllKeeps(s: State)
    requires Inv(s)
    ensures Inv(ReleaseAll(s))
  {
    var s' := ReleaseAll(s);
    assert forall k :: 0 <= k < |s.entries| ==> !IsBound(s', k);
  }

  // RestoreManagedClientsForEngineTeardown, up to slot n: every managed client is given back.
  function GivenBack(w: World, slots: Slots, n: nat): World
    requires n <= MAX_SLOTS
  {
    if n == 0 then w
    else
      var w1 := GivenBack(w, slots, n - 1);
      if slots[n - 1].managed then Undisguise(w1, n - 1) else w1
  }

  // What an adoption that goes through has drawn from the pool.
  ghost predicate Draws(s: State, slot: nat, name: Option<string>, r: nat, p: nat)
    requires |s.taken| == |s.entries|
  {
    && Occupied(s.world, s.slots, slot).Some?
    && Pick(s.entries, s.taken, Occupied(s.world, s.slots, slot).value, name, r) == Some(p)
  }

  // The adopted SteamID is no other live client's and no other bot's.
  lemma AdoptedIdIsFresh(s: State, slot: nat, name: Option<string>, mode: Mode, r: nat, p: nat)
    requires Inv(s) && IsSlot(slot) && Draws(s, slot, name, r, p)
    ensures !s.taken[p] && !IsBound(s, p)
    ensures var steamId := s.entries[p].steamId64;
            && steamId != 0
            && AdoptClient(s, slot, name, mode, r).slots[slot].steamId == steamId
            && (forall i :: 0 <= i < |s.world.clients| && i != slot && s.world.clients[i].Some? ==>
                  s.world.clients[i].value.steamId != steamId)
            && (forall i :: 0 <= i < MAX_SLOTS && i != slot && s.slots[i].managed ==> s.slots[i].steamId != steamId)
  {
    var occupied := Occupied(s.world, s.slots, slot).value;
    PickIsProper(s.entries, s.taken, occupied, name, r);
    hide Pick;
    var steamId := s.entries[p].steamId64;
    forall i | 0 <= i < |s.world.clients| && i != slot && s.world.clients[i].Some?
      ensures s.world.clients[i].value.steamId != steamId
    {
      if s.world.clients[i].value.steamId != 0 {
        assert s.world.clients[i].value.steamId in LiveIds(s.world.clients, slot);
      }
    }
    forall i | 0 <= i < MAX_SLOTS && i != slot && s.slots[i].managed
      ensures s.slots[i].steamId != steamId
    {
      assert s.slots[i].steamId in ReservedIds(s.slots, slot);
    }
  }

  lemma AdoptKeeps(s: State, slot: nat, name: Option<string>, mode: Mode, r: nat)
    requires Inv(s) && IsSlot(slot) && !s.slots[slot].managed
    ensures Inv(AdoptClient(s, slot, name, mode, r))
  {
    var s' := AdoptClient(s, slot, name, mode, r);
    if s' != s {
      var p := Pick(s.entries, s.taken, Occupied(s.world, s.slots, slot).value, name, r).value;
      AdoptedIdIsFresh(s, slot, name, mode, r, p);
      hide Pick, Occupied;
      forall k | 0 <= k < |s.entries| ensures s'.taken[k] <==> IsBound(s', k) {
        if IsBound(s, k) {
          var i :| 0 <= i < MAX_SLOTS && s.bound[i] == Some(k);
          assert s'.bound[i] == Some(k);
        }
        assert s'.bound[slot] == Some(p);
      }
    }
  }

  // Adopting over a managed slot would leak: its former entry stays taken and no slot holds it.
  // Every caller therefore checks first, or runs before any slot is managed.
  lemma AdoptOverManagedLeaks(s: State, slot: nat, name: Option<string>, mode: Mode, r: nat, p: nat)
    requires Inv(s) && IsSlot(slot) && s.slots[slot].managed && Draws(s, slot, name, r, p)
    ensures var s' := AdoptClient(s, slot, name, mode, r);
            && s'.taken[s.bound[slot].value] && !IsBound(s', s.bound[slot].value)
            && !Bijective(s')
  {
    AdoptedIdIsFresh(s, slot, name, mode, r, p);
    var lost := s.bound[slot].value;
    var s' := AdoptClient(s, slot, name, mode, r);
    hide Pick, Occupied;
    assert IsBound(s, lost);
    forall i | 0 <= i < MAX_SLOTS ensures s'.bound[i] != Some(lost) {
      assert i != slot ==> s.bound[i] != s.bound[slot];
    }
  }

  lemma SetSteamIdKeeps(s: State, slot: int, incarnation: uint64, steamId: uint64, mode: Mode)
    requires Inv(s)
    ensures Inv(SetSteamId(s, slot, incarnation, steamId, mode))
  {
    var s' := SetSteamId(s, slot, incarnation, steamId, mode);
    if s' != s {
      assert forall i :: 0 <= i < MAX_SLOTS && i != slot && s.slots[i].managed ==>
               s.slots[i].steamId in ReservedIds(s.slots, slot);
      assert s'.bound == s.bound && s'.taken == s.taken && s'.entries == s.entries;
      assert forall k :: 0 <= k < |s.entries| ==> (IsBound(s', k) <==> IsBound(s, k));
    }
  }

  datatype Event =
    | OnConnected(slot: int, name: Option<string>, networkId: Option<string>, fakePlayer: bool, mode: Mode, r: nat)
    | OnPutInServer(slot: int, mode: Mode)
    | OnDisconnect(slot: int)
    | OnFrame(slot: int)
    | OnSetSteamId(slot: int, incarnation: uint64, steamId: uint64, mode: Mode)
    | OnLevelChange
    | OnLevelShutdown
    | EngineMoves(world: World)

  function Step(s: State, e: Event): State
    requires |s.taken| == |s.entries|
  {
    match e
    case OnConnected(slot, name, networkId, fakePlayer, mode, r) =>
      Connected(s, slot, name, networkId, fakePlayer, mode, r)
    case OnPutInServer(slot, mode) => PutInServer(s, slot, mode)
    case OnDisconnect(slot) => Disconnected(s, slot)
    case OnFrame(slot) => if IsSlot(slot) then ReleaseHltv(s, slot) else s
    case OnSetSteamId(slot, incarnation, steamId, mode) => SetSteamId(s, slot, incarnation, steamId, mode)
    case OnLevelChange => ReleaseAll(s.(world := GivenBack(s.world, s.slots, MAX_SLOTS)))
    case OnLevelShutdown => ReleaseAll(s)
    case EngineMoves(world) => s.(world := world)
  }

  lemma PutInServerKeeps(s: State, slot: int, mode: Mode)
    requires Inv(s)
    ensures Inv(PutInServer(s, slot, mode))
  {
    var s' := PutInServer(s, slot, mode);
    hide Inv;
    if IsSlot(slot) {
      WorldIsIrrelevant(s, s'.world);
      WorldIsIrrelevant(s, Undisguise(s.world, slot));
      ReleaseKeeps(s.(world := Undisguise(s.world, slot)), slot);
      ReleaseHltvKeeps(s, slot);
    }
  }

  lemma ReleaseHltvKeeps(s: State, slot: nat)
    requires Inv(s) && IsSlot(slot)
    ensures Inv(ReleaseHltv(s, slot))
  {
    hide Inv;
    var s' := ReleaseHltv(s, slot);
    if s' != s {
      WorldIsIrrelevant(s, s'.world);
      ReleaseKeeps(s.(world := s'.world), slot);
    }
  }

  lemma StepKeeps(s: State, e: Event)
    requires Inv(s)
    ensures Inv(Step(s, e))
  {
    assert |s.taken| == |s.entries|;
    hide Bijective, Stamped, DistinctIdsInUse, DistinctIds, AdoptClient, PutInServer, SetSteamId, ReleaseHltv,
      ReleaseAll, ReleaseSlot;
    match e
    case OnConnected(slot, name, networkId, fakePlayer, mode, r) =>
      if Connected(s, slot, name, networkId, fakePlayer, mode, r) != s {
        AdoptKeeps(s, slot, name, mode, r);
      }
    case OnPutInServer(slot, mode) => PutInServerKeeps(s, slot, mode);
    case OnDisconnect(slot) =>
      if Disconnected(s, slot) != s {
        WorldIsIrrelevant(s, Undisguise(s.world, slot));
        ReleaseKeeps(s.(world := Undisguise(s.world, slot)), slot);
      }
    case OnFrame(slot) => if IsSlot(slot) { ReleaseHltvKeeps(s, slot); }
    case OnSetSteamId(slot, incarnation, steamId, mode) => SetSteamIdKeeps(s, slot, incarnation, steamId, mode);
    case OnLevelChange =>
      var w := GivenBack(s.world, s.slots, MAX_SLOTS);
      WorldIsIrrelevant(s, w);
      ReleaseAllKeeps(s.(world := w));
    case OnLevelShutdown => ReleaseAllKeeps(s);
    case EngineMoves(world) => WorldIsIrrelevant(s, world);
  }

  ghost function Run(s: State, es: seq<Event>): (s': State)
    requires Inv(s)
    ensures Inv(s')
    decreases |es|
  {
    if es == [] then s
    else
      StepKeeps(s, es[0]);
      Run(Step(s, es[0]), es[1..])
  }

  // Before the first bot: nothing managed, nothing bound, nothing taken.
  ghost predicate Start(s: State) {
    && (forall i :: 0 <= i < MAX_SLOTS ==> s.slots[i] == EMPTY_SLOT && s.bound[i] == None)
    && s.taken == seq(|s.entries|, i => false)
    && DistinctIds(s.entries)
  }

  lemma StartIsGood(s: State)
    requires Start(s)
    ensures Inv(s)
  {
    assert forall k :: 0 <= k < |s.entries| ==> !IsBound(s, k);
  }

  // AdoptExistingBots, up to slot n: bots that were there before the plugin was loaded. `names`
  // are the names the engine has for them, `draws` the pool's random numbers.
  function AdoptExisting(s: State, names: seq<Option<string>>, draws: seq<nat>, mode: Mode, n: nat): (s': State)
    requires n <= MAX_SLOTS == |names| == |draws| && |s.taken| == |s.entries|
    ensures |s'.taken| == |s'.entries|
  {
    if n == 0 then s
    else
      var s1 := AdoptExisting(s, names, draws, mode, n - 1);
      var client := ResolveClient(s1.world, n - 1);
      if client.None? || client.value.fakePlayer != 1 || client.value.hltv ||
         IsHltvConnection(names[n - 1], None) then s1
      else AdoptClient(s1, n - 1, names[n - 1], mode, draws[n - 1])
  }

  // The late start never adopts over a slot it already holds.
  lemma {:induction false} AdoptExistingKeeps(s: State, names: seq<Option<string>>, draws: seq<nat>, mode: Mode, n: nat)
    requires n <= MAX_SLOTS == |names| == |draws| && Start(s)
    ensures Inv(AdoptExisting(s, names, draws, mode, n))
    ensures forall i :: n <= i < MAX_SLOTS ==> !AdoptExisting(s, names, draws, mode, n).slots[i].managed
  {
    hide Inv, Start, AdoptClient, ResolveClient, IsHltvConnection;
    StartIsSized(s);
    if n == 0 {
      NothingAdopted(s);
    } else {
      AdoptExistingKeeps(s, names, draws, mode, n - 1);
      var s1 := AdoptExisting(s, names, draws, mode, n - 1);
      AdoptKeeps(s1, n - 1, names[n - 1], mode, draws[n - 1]);
      AdoptTouchesOneSlot(s1, n - 1, names[n - 1], mode, draws[n - 1]);
    }
  }

  lemma StartIsSized(s: State)
    requires Start(s)
    ensures |s.taken| == |s.entries|
  {
  }

  lemma NothingAdopted(s: State)
    requires Start(s)
    ensures Inv(s) && forall i :: 0 <= i < MAX_SLOTS ==> !s.slots[i].managed
  {
    StartIsGood(s);
    hide Inv;
  }

  lemma AdoptTouchesOneSlot(s: State, slot: nat, name: Option<string>, mode: Mode, r: nat)
    requires IsSlot(slot) && |s.taken| == |s.entries|
    ensures var s' := AdoptClient(s, slot, name, mode, r);
            |s'.taken| == |s'.entries| && forall i :: 0 <= i < MAX_SLOTS && i != slot ==> s'.slots[i] == s.slots[i]
  {
    hide Pick, Occupied, ShowAs;
  }

  // A client that a late start would have: a fake client that is not SourceTV.
  predicate IsWanted(w: World, slot: int, name: Option<string>) {
    var client := ResolveClient(w, slot);
    client.Some? && client.value.fakePlayer == 1 && !client.value.hltv && !IsHltvConnection(name, None)
  }

  // The pool has an identity for a slot: one that no slot holds and whose SteamID nobody else uses.
  ghost predicate HasFree(s: State, slot: int)
    requires |s.taken| == |s.entries|
  {
    ResolveClient(s.world, slot).Some? &&
    exists e :: 0 <= e < |s.entries| && !s.taken[e] && !IsInUse(s.world, s.slots, slot, s.entries[e].steamId64)
  }

  lemma PoolDecides(s: State, slot: int, name: Option<string>, r: nat)
    requires |s.taken| == |s.entries| && DistinctIds(s.entries) && ResolveClient(s.world, slot).Some?
    ensures var occupied := Occupied(s.world, s.slots, slot).value;
            var pick := Pick(s.entries, s.taken, occupied, name, r);
            IsPick(s.entries, s.taken, occupied, name, pick) && (HasFree(s, slot) <==> pick.Some?)
  {
    var occupied := Occupied(s.world, s.slots, slot).value;
    PickIsProper(s.entries, s.taken, occupied, name, r);
    hide Pick;
    forall e | 0 <= e < |s.entries|
      ensures IsFree(s.entries, s.taken, occupied, e) <==>
              !s.taken[e] && !IsInUse(s.world, s.slots, slot, s.entries[e].steamId64)
    {
      InUseIsOccupied(s.world, s.slots, slot, s.entries[e].steamId64);
      hide IsInUse, Occupied;
    }
    hide IsInUse, Occupied;
  }

  lemma AdoptsIffFree(s: State, slot: nat, name: Option<string>, mode: Mode, r: nat)
    requires |s.taken| == |s.entries| && DistinctIds(s.entries) && IsSlot(slot) && !s.slots[slot].managed
    ensures AdoptClient(s, slot, name, mode, r).slots[slot].managed <==> HasFree(s, slot)
    ensures AdoptClient(s, slot, name, mode, r).entries == s.entries
  {
    if ResolveClient(s.world, slot).Some? {
      PoolDecides(s, slot, name, r);
    }
    hide Pick, ShowAs, HasFree, IsPick, DistinctIds;
  }

  lemma AdoptKeepsWanted(s: State, slot: nat, name: Option<string>, mode: Mode, r: nat, i: int)
    requires |s.taken| == |s.entries| && IsSlot(slot) && i != slot
    ensures ResolveClient(AdoptClient(s, slot, name, mode, r).world, i) == ResolveClient(s.world, i)
  {
    hide Pick;
    if Occupied(s.world, s.slots, slot).Some? {
      var client := ResolveClient(s.world, slot).value;
      forall steamId: uint64 {
        ShowAsEffect(PutClient(s.world, slot, WriteSteamId(client, steamId)), slot, mode);
      }
      hide ShowAs;
    }
  }

  lemma {:induction false} LateClientsKept(s: State, names: seq<Option<string>>, draws: seq<nat>, mode: Mode, n: nat,
                                           i: int)
    requires n <= MAX_SLOTS == |names| == |draws| && |s.taken| == |s.entries| && i >= n
    ensures ResolveClient(AdoptExisting(s, names, draws, mode, n).world, i) == ResolveClient(s.world, i)
  {
    hide AdoptClient, ResolveClient;
    if n > 0 {
      LateClientsKept(s, names, draws, mode, n - 1, i);
      AdoptKeepsWanted(AdoptExisting(s, names, draws, mode, n - 1), n - 1, names[n - 1], mode, draws[n - 1], i);
    }
  }

  lemma InvIsDistinct(s: State)
    requires Inv(s)
    ensures DistinctIds(s.entries)
  {
  }

  // A late start adopts exactly the fake clients that are not SourceTV, each while the pool has an
  // identity for it when its turn comes.
  lemma {:induction false} LateStartAdopts(s: State, names: seq<Option<string>>, draws: seq<nat>, mode: Mode, n: nat,
                                           i: nat)
    requires i < n <= MAX_SLOTS == |names| == |draws| && Start(s)
    ensures |s.taken| == |s.entries|
    ensures AdoptExisting(s, names, draws, mode, n).slots[i].managed <==>
              IsWanted(s.world, i, names[i]) && HasFree(AdoptExisting(s, names, draws, mode, i), i)
  {
    hide Start, Inv, AdoptClient, ResolveClient, IsHltvConnection, HasFree;
    StartIsSized(s);
    var s1 := AdoptExisting(s, names, draws, mode, n - 1);
    AdoptExistingKeeps(s, names, draws, mode, n - 1);
    AdoptTouchesOneSlot(s1, n - 1, names[n - 1], mode, draws[n - 1]);
    if i < n - 1 {
      LateStartAdopts(s, names, draws, mode, n - 1, i);
    } else {
      LateClientsKept(s, names, draws, mode, n - 1, i);
      InvIsDistinct(s1);
      AdoptsIffFree(s1, n - 1, names[n - 1], mode, draws[n - 1]);
    }
  }

  // In every reachable state the bindings are a bijection between managed slots and taken
  // entries, and the managed slots carry distinct, non-zero SteamIDs.
  lemma ReachableStates(s0: State, names: seq<Option<string>>, draws: seq<nat>, mode: Mode, n: nat, es: seq<Event>)
    requires Start(s0) && n <= MAX_SLOTS == |names| == |draws|
    ensures Inv(AdoptExisting(s0, names, draws, mode, n))
    ensures var s := Run(AdoptExisting(s0, names, draws, mode, n), es);
            && (forall i :: 0 <= i < MAX_SLOTS ==>
                  (s.slots[i].managed <==> s.bound[i].Some?) && (s.slots[i].managed <==> s.slots[i].incarnation != 0))
            && (forall i, j :: 0 <= i < j < MAX_SLOTS && s.bound[i].Some? ==> s.bound[i] != s.bound[j])
            && (forall k :: 0 <= k < |s.taken| ==>
                  (s.taken[k] <==> exists i :: 0 <= i < MAX_SLOTS && s.bound[i] == Some(k)))
            && (forall i :: 0 <= i < MAX_SLOTS && s.slots[i].managed ==> s.slots[i].steamId != 0)
            && (forall i, j :: 0 <= i < j < MAX_SLOTS && s.slots[i].managed && s.slots[j].managed ==>
                  s.slots[i].steamId != s.slots[j].steamId)
  {
    AdoptExistingKeeps(s0, names, draws, mode, n);
    hide Start, AdoptExisting;
    var s := Run(AdoptExisting(s0, names, draws, mode, n), es);
    assert Inv(s);
    assert forall k :: 0 <= k < |s.entries| ==> (s.taken[k] <==> IsBound(s, k));
  }

  // A SteamID change goes through exactly if the handle is current and no other client or bot has
  // the id; one that is refused changes nothing.
  lemma ChangeGoesThrough(s: State, slot: int, incarnation: uint64, steamId: uint64, mode: Mode)
    requires Inv(s)
    ensures var goes := && IsSlot(slot) && Target(s.slots[slot], incarnation) && ResolveClient(s.world, slot).Some?
                        && steamId != 0 && !IsInUse(s.world, s.slots, slot, steamId);
            var s' := SetSteamId(s, slot, incarnation, steamId, mode);
            && (goes ==> s'.slots[slot].managed && s'.slots[slot].steamId == steamId)
            && (!goes ==> s' == s)
  {
    if ResolveClient(s.world, slot).Some? && steamId != 0 {
      InUseIsOccupied(s.world, s.slots, slot, steamId);
    }
    hide Occupied, ShowAs, Inv, IsInUse;
  }

  // The client looks like a human's, or like a fake client.
  predicate LooksHuman(c: Client) {
    c.connectionFlags & 0x09 == HUMAN_CONNECTION && c.fakePlayer == 0
  }

  predicate LooksFake(c: Client) {
    c.connectionFlags & 0x09 == FAKE_CONNECTION && c.fakePlayer == 1
  }

  // Of all entities only the one at index e may change, if it is a controller, and of that only the
  // fake-client bit, which then is on or off.
  ghost predicate OnlyMarks(w: World, v: World, e: int, fakeClient: bool) {
    && v.entities.Keys == w.entities.Keys
    && forall k :: k in w.entities ==>
         if k == e && 0 < k < ENTITY_SLOTS && w.entities[k].isController
         then && v.entities[k] == w.entities[k].(flags := v.entities[k].flags)
              && IsMarked(w.entities[k].flags, v.entities[k].flags, fakeClient)
         else v.entities[k] == w.entities[k]
  }

  // No other client changes.
  ghost predicate OtherClientsKept(w: World, v: World, slot: int) {
    |v.clients| == |w.clients| && forall i :: 0 <= i < |w.clients| && i != slot ==> v.clients[i] == w.clients[i]
  }

  // Of the client only the two SteamID fields, and the two flag bytes as far as they tell humans from
  // bots, are other than they were.
  predicate SameClientBut(c: Client, d: Client, steamId: uint64) {
    && d == c.(connectionFlags := d.connectionFlags, fakePlayer := d.fakePlayer, steamId := steamId,
               steamIdMirror := steamId)
    && d.connectionFlags & 0xF6 == c.connectionFlags & 0xF6
  }

  // A bot is shown under a SteamID: in bot mode nothing else happens to its client or to any entity;
  // in player mode it looks human, and its controller has the fake-client bit only inside a transaction.
  ghost predicate ShowsBot(w: World, v: World, slot: int, mode: Mode, steamId: uint64) {
    && ResolveClient(w, slot).Some? && ResolveClient(v, slot).Some? && OtherClientsKept(w, v, slot)
    && var c, d := w.clients[slot].value, v.clients[slot].value;
       && SameClientBut(c, d, steamId)
       && match mode
          case Bot =>
            d.connectionFlags == c.connectionFlags && d.fakePlayer == c.fakePlayer && v.entities == w.entities
          case Player(inTransaction) => LooksHuman(d) && OnlyMarks(w, v, c.entityIndex, inTransaction)
  }

  // A client is given back to the engine: a fake client without a SteamID, marked as such.
  ghost predicate IsGivenBack(w: World, v: World, slot: int) {
    && ResolveClient(w, slot).Some? && ResolveClient(v, slot).Some? && OtherClientsKept(w, v, slot)
    && var c, d := w.clients[slot].value, v.clients[slot].value;
       SameClientBut(c, d, 0) && LooksFake(d) && OnlyMarks(w, v, c.entityIndex, true)
  }

  lemma HumanBits(c: Client)
    ensures LooksHuman(ClearFakePlayer(c)) && LooksFake(SetFakePlayer(c))
    ensures ClearFakePlayer(c).connectionFlags & 0xF6 == c.connectionFlags & 0xF6
    ensures SetFakePlayer(c).connectionFlags & 0xF6 == c.connectionFlags & 0xF6
  {
  }

  lemma ControllerFlagIsSet(w: World, slot: int, fakeClient: bool)
    requires ResolveClient(w, slot).Some?
    ensures OnlyMarks(w, SetControllerFlag(w, slot, fakeClient), w.clients[slot].value.entityIndex, fakeClient)
    ensures SetControllerFlag(w, slot, fakeClient).clients == w.clients
  {
    hide WithFakeClient, IsMarked;
    var index := w.clients[slot].value.entityIndex;
    var entity := ResolveEntity(w, index);
    if entity.Some? && entity.value.isController {
      FakeClientBit(w.entities[index].flags, fakeClient);
      assert SetControllerFlag(w, slot, fakeClient) ==
               PutFlags(w, index, WithFakeClient(entity.value.flags, fakeClient));
    } else {
      assert SetControllerFlag(w, slot, fakeClient) == w;
    }
    hide SetControllerFlag;
  }

  lemma ShowAsEffect(w: World, slot: int, mode: Mode)
    requires ResolveClient(w, slot).Some?
    ensures var v := ShowAs(w, slot, mode);
            && (mode.Bot? ==> v == w)
            && (mode.Player? ==>
                  && v.clients == w.clients[slot := Some(ClearFakePlayer(w.clients[slot].value))]
                  && OnlyMarks(w, v, w.clients[slot].value.entityIndex, mode.inTransaction))
  {
    if mode.Player? {
      ControllerFlagIsSet(PutClient(w, slot, ClearFakePlayer(w.clients[slot].value)), slot, mode.inTransaction);
    }
    hide IsMarked, SetControllerFlag;
  }

  // The world with a SteamID written into a slot's client.
  function WithId(w: World, slot: int, steamId: uint64): World
    requires ResolveClient(w, slot).Some?
  {
    PutClient(w, slot, WriteSteamId(w.clients[slot].value, steamId))
  }

  // To write the SteamID and then show the bot, or the other way round, is the same.
  lemma IdThenShown(w: World, slot: int, mode: Mode, steamId: uint64)
    requires ResolveClient(w, slot).Some?
    ensures ShowsBot(w, ShowAs(WithId(w, slot, steamId), slot, mode), slot, mode, steamId)
  {
    HumanBits(WriteSteamId(w.clients[slot].value, steamId));
    ShowAsEffect(WithId(w, slot, steamId), slot, mode);
    hide ShowAs, IsMarked, LooksFake, SetFakePlayer;
  }

  lemma ShownThenId(w: World, slot: int, mode: Mode, steamId: uint64)
    requires ResolveClient(w, slot).Some?
    ensures ResolveClient(ShowAs(w, slot, mode), slot).Some?
    ensures ShowsBot(w, WithId(ShowAs(w, slot, mode), slot, steamId), slot, mode, steamId)
  {
    HumanBits(w.clients[slot].value);
    ShowAsEffect(w, slot, mode);
    hide ShowAs, IsMarked, LooksFake, SetFakePlayer;
  }

  // A client that is given back is a fake client without a SteamID.
  lemma UndisguiseGivesBack(w: World, slot: int)
    requires ResolveClient(w, slot).Some?
    ensures IsGivenBack(w, Undisguise(w, slot), slot)
  {
    HumanBits(w.clients[slot].value);
    ControllerFlagIsSet(PutClient(w, slot, SetFakePlayer(w.clients[slot].value)), slot, true);
    hide SetControllerFlag, IsMarked;
  }

  // What an adoption comes to: the slot, and no other, is managed under the entry's SteamID and the
  // next stamp, with nothing asked for yet; the entry, and no other, is taken; and the bot is shown.
  ghost predicate Adopts(s: State, s': State, slot: nat, p: nat, mode: Mode)
    requires IsSlot(slot) && p < |s.entries| && |s.taken| == |s.entries|
  {
    var steamId, now := s.entries[p].steamId64, s'.slots[slot];
    && s'.entries == s.entries && s'.counter == NextIncarnation(s.counter)
    && s'.taken == s.taken[p := true] && s'.bound == s.bound[slot := Some(p)]
    && s'.slots == s.slots[slot := now]
    && now.managed && now.steamId == now.baseSteamId == steamId && now.incarnation == s'.counter
    && now.request.data == [] && !now.avatarApplied
    && ShowsBot(s.world, s'.world, slot, mode, steamId)
  }

  // An adoption shows in all tables and in the client; without an entry to give it does nothing.
  lemma AdoptionShows(s: State, slot: nat, name: Option<string>, mode: Mode, r: nat)
    requires Inv(s) && IsSlot(slot)
    ensures (forall p: nat :: !Draws(s, slot, name, r, p)) ==> AdoptClient(s, slot, name, mode, r) == s
    ensures forall p: nat :: Draws(s, slot, name, r, p) ==>
              p < |s.entries| && Adopts(s, AdoptClient(s, slot, name, mode, r), slot, p, mode)
  {
    if Occupied(s.world, s.slots, slot).Some? {
      var pick := Pick(s.entries, s.taken, Occupied(s.world, s.slots, slot).value, name, r);
      if pick.Some? {
        assert Draws(s, slot, name, r, pick.value);
        IdThenShown(s.world, slot, mode, s.entries[pick.value].steamId64);
      }
    }
    hide Pick, ShowAs, ShowsBot, Inv;
  }

  // Who is adopted on connecting: a fake client on an unmanaged slot that is not SourceTV by name, by
  // network id or by its mark, exactly if the pool has an identity for it; otherwise nothing happens.
  // It gets a free entry, and one of its name if there is one.
  lemma ConnectionAdopts(s: State, slot: int, name: Option<string>, networkId: Option<string>, fakePlayer: bool,
                         mode: Mode, r: nat)
    requires Inv(s)
    ensures |s.taken| == |s.entries|
    ensures var s' := Step(s, OnConnected(slot, name, networkId, fakePlayer, mode, r));
            var wanted := && fakePlayer && name != Some("SourceTV") && networkId != Some("HLTV")
                          && IsSlot(slot) && !s.slots[slot].managed
                          && ResolveClient(s.world, slot).Some? && !s.world.clients[slot].value.hltv;
            if wanted && HasFree(s, slot)
            then exists p: nat ::
                   && IsPick(s.entries, s.taken, Occupied(s.world, s.slots, slot).value, name, Some(p))
                   && Adopts(s, s', slot, p, mode)
            else s' == s
  {
    assert |s.taken| == |s.entries| && DistinctIds(s.entries);
    assert Occupied(s.world, s.slots, slot).Some? <==> ResolveClient(s.world, slot).Some?;
    hide Pick, Occupied, AdoptClient, Adopts, HasFree, IsPick, DistinctIds, Inv;
    if IsSlot(slot) && ResolveClient(s.world, slot).Some? {
      PoolDecides(s, slot, name, r);
      AdoptionShows(s, slot, name, mode, r);
      var pick := Pick(s.entries, s.taken, Occupied(s.world, s.slots, slot).value, name, r);
      assert pick.Some? ==> Draws(s, slot, name, r, pick.value);
      assert pick.None? ==> forall p: nat :: !Draws(s, slot, name, r, p);
    }
  }

  // What a release comes to: the slot, and no other, is empty again, and its entry, and no other, is
  // free again.
  ghost predicate Frees(s: State, s': State, slot: nat)
    requires IsSlot(slot) && |s.taken| == |s.entries|
  {
    var now := s'.slots[slot];
    && s'.entries == s.entries && s'.counter == s.counter && |s'.taken| == |s.taken|
    && (forall k :: 0 <= k < |s.taken| ==> (s'.taken[k] <==> s.taken[k] && s.bound[slot] != Some(k)))
    && s'.bound == s.bound[slot := None]
    && s'.slots == s.slots[slot := now]
    && !now.managed && now.steamId == now.baseSteamId == 0 && now.incarnation == 0 && now.request.data == []
    && !now.avatarApplied
  }

  lemma ReleaseFrees(s: State, slot: nat, w: World)
    requires Inv(s) && IsSlot(slot)
    ensures Frees(s, ReleaseSlot(s.(world := w), slot), slot) && ReleaseSlot(s.(world := w), slot).world == w
  {
    hide DistinctIds, DistinctIdsInUse;
  }

  // The recheck on server entry keeps a bot exactly if its SteamID is still its own alone, and then
  // shows it; otherwise the slot is free and the client is given back, or, if it is SourceTV, only loses
  // its SteamID. A slot without bot or client is left alone.
  lemma EntryIsRechecked(s: State, slot: int, mode: Mode)
    requires Inv(s)
    ensures var s' := Step(s, OnPutInServer(slot, mode));
            if !IsSlot(slot) || !s.slots[slot].managed || ResolveClient(s.world, slot).None? then s' == s
            else
              var client, steamId := s.world.clients[slot].value, s.slots[slot].steamId;
              if client.hltv then Frees(s, s', slot) && ShowsBot(s.world, s'.world, slot, Bot, 0)
              else if steamId == 0 || IsInUse(s.world, s.slots, slot, steamId)
              then Frees(s, s', slot) && IsGivenBack(s.world, s'.world, slot)
              else s' == s.(world := s'.world) && ShowsBot(s.world, s'.world, slot, mode, steamId)
  {
    if IsSlot(slot) && s.slots[slot].managed && ResolveClient(s.world, slot).Some? {
      var steamId := s.slots[slot].steamId;
      ShownThenId(s.world, slot, mode, steamId);
      UndisguiseGivesBack(s.world, slot);
      ReleaseFrees(s, slot, Undisguise(s.world, slot));
      HltvIsReleased(s, slot);
      if steamId != 0 {
        InUseIsOccupied(s.world, s.slots, slot, steamId);
      }
    }
    hide ShowAs, Undisguise, Occupied, IsInUse, Inv, ShowsBot, IsGivenBack, Frees, ReleaseSlot, ReleaseHltv;
  }

  // A frame releases a managed slot exactly if its client turned out to be SourceTV, which keeps its
  // flags and loses its SteamID.
  lemma HltvIsReleased(s: State, slot: nat)
    requires Inv(s) && IsSlot(slot)
    ensures var s' := Step(s, OnFrame(slot));
            if s.slots[slot].managed && ResolveClient(s.world, slot).Some? && s.world.clients[slot].value.hltv
            then Frees(s, s', slot) && ShowsBot(s.world, s'.world, slot, Bot, 0)
            else s' == s
  {
    if ResolveClient(s.world, slot).Some? {
      var w := PutClient(s.world, slot, WriteSteamId(s.world.clients[slot].value, 0));
      ReleaseFrees(s, slot, w);
      ShownThenId(s.world, slot, Bot, 0);
    }
    hide Inv, Frees, ShowsBot, ReleaseSlot;
  }

  // A disconnect gives the client of a managed slot back and frees the slot; no other slot is touched.
  lemma DisconnectGivesBack(s: State, slot: int)
    requires Inv(s)
    ensures var s' := Step(s, OnDisconnect(slot));
            if !IsSlot(slot) || !s.slots[slot].managed then s' == s
            else Frees(s, s', slot) && if ResolveClient(s.world, slot).Some? then IsGivenBack(s.world, s'.world, slot)
                                       else s'.world == s.world
  {
    if IsSlot(slot) && s.slots[slot].managed {
      ReleaseFrees(s, slot, Undisguise(s.world, slot));
      if ResolveClient(s.world, slot).Some? {
        UndisguiseGivesBack(s.world, slot);
      }
    }
    hide Inv, Frees, IsGivenBack, ReleaseSlot;
  }

  // A SteamID change that goes through shows in the slot and in the client at once, and nowhere else;
  // the client of a bot shown as a player loses the fake-client bit, also inside a transaction.
  lemma ChangeShows(s: State, slot: int, incarnation: uint64, steamId: uint64, mode: Mode)
    requires Inv(s)
    ensures var s' := Step(s, OnSetSteamId(slot, incarnation, steamId, mode));
            s' != s ==>
              && IsSlot(slot)
              && s' == s.(world := s'.world, slots := s.slots[slot := s.slots[slot].(steamId := steamId)])
              && ShowsBot(s.world, s'.world, slot, if mode.Player? then Player(false) else Bot, steamId)
  {
    if ResolveClient(s.world, slot).Some? {
      ShownThenId(s.world, slot, if mode.Player? then Player(false) else mode, steamId);
    }
    hide ShowAs, IsAvailable, Inv, ShowsBot;
  }

  // Before a level change every managed client is given back with its controller, and nothing else is
  // touched.
  ghost predicate GivesBackBelow(w: World, v: World, slots: Slots, n: nat) {
    && |v.clients| == |w.clients| && v.entities.Keys == w.entities.Keys
    && (forall i :: 0 <= i < |w.clients| ==>
          if i < n && i < MAX_SLOTS && slots[i].managed && ResolveClient(w, i).Some?
          then && v.clients[i].Some? && LooksFake(v.clients[i].value)
               && SameClientBut(w.clients[i].value, v.clients[i].value, 0)
          else v.clients[i] == w.clients[i])
    && (forall e :: e in w.entities ==>
          if LedBelow(w, slots, e, n)
          then && v.entities[e] == w.entities[e].(flags := v.entities[e].flags)
               && IsMarked(w.entities[e].flags, v.entities[e].flags, true)
          else v.entities[e] == w.entities[e])
  }

  // The entity at index e is the controller of a managed client.
  predicate Leads(w: World, slots: Slots, i: int, e: int) {
    && IsSlot(i) && slots[i].managed && ResolveClient(w, i).Some? && w.clients[i].value.entityIndex == e
    && 0 < e < ENTITY_SLOTS && e in w.entities && w.entities[e].isController
  }

  ghost predicate LedBelow(w: World, slots: Slots, e: int, n: nat) {
    exists i :: 0 <= i < n && Leads(w, slots, i, e)
  }

  lemma {:induction false} AllAreGivenBack(w: World, slots: Slots, n: nat)
    requires n <= MAX_SLOTS
    ensures GivesBackBelow(w, GivenBack(w, slots, n), slots, n)
  {
    if n == 0 {
      hide Leads, IsMarked;
    } else {
      AllAreGivenBack(w, slots, n - 1);
      var v := GivenBack(w, slots, n - 1);
      if slots[n - 1].managed && ResolveClient(v, n - 1).Some? {
        UndisguiseGivesBack(v, n - 1);
        OneMoreGivenBack(w, v, Undisguise(v, n - 1), slots, n - 1);
      } else {
        hide LooksFake, IsMarked, SameClientBut;
        assert forall e :: LedBelow(w, slots, e, n) <==> LedBelow(w, slots, e, n - 1);
      }
    }
  }

  lemma MarkedTwice(a: bv32, b: bv32, c: bv32)
    requires IsMarked(a, b, true) && IsMarked(b, c, true)
    ensures IsMarked(a, c, true)
  {
  }

  lemma LedBelowGrows(w: World, slots: Slots, e: int, n: nat)
    ensures LedBelow(w, slots, e, n + 1) <==> LedBelow(w, slots, e, n) || Leads(w, slots, n, e)
  {
    if Leads(w, slots, n, e) {
      assert LedBelow(w, slots, e, n + 1);
    }
  }

  lemma OneMoreGivenBack(w: World, v: World, v': World, slots: Slots, n: nat)
    requires n < MAX_SLOTS && GivesBackBelow(w, v, slots, n) && slots[n].managed && IsGivenBack(v, v', n)
    ensures GivesBackBelow(w, v', slots, n + 1)
  {
    hide LooksFake, IsMarked, LedBelow, SameClientBut;
    assert w.clients[n] == v.clients[n];
    forall e | e in w.entities
      ensures if LedBelow(w, slots, e, n + 1)
              then && v'.entities[e] == w.entities[e].(flags := v'.entities[e].flags)
                   && IsMarked(w.entities[e].flags, v'.entities[e].flags, true)
              else v'.entities[e] == w.entities[e]
    {
      LedBelowGrows(w, slots, e, n);
      if LedBelow(w, slots, e, n) && Leads(w, slots, n, e) {
        MarkedTwice(w.entities[e].flags, v.entities[e].flags, v'.entities[e].flags);
      }
    }
  }

  // A level change and the end of a level leave no slot managed and no entry taken; a level change gives
  // the clients back first.
  lemma LevelChangeFreesAll(s: State, e: Event)
    requires Inv(s) && (e.OnLevelChange? || e.OnLevelShutdown?)
    ensures var s' := Step(s, e);
            && (if e.OnLevelChange? then GivesBackBelow(s.world, s'.world, s.slots, MAX_SLOTS) else s'.world == s.world)
            && s'.entries == s.entries && s'.counter == s.counter && |s'.taken| == |s.taken|
            && (forall i :: 0 <= i < MAX_SLOTS ==>
                  !s'.slots[i].managed && s'.slots[i].incarnation == 0 && s'.bound[i].None?)
            && (forall k :: 0 <= k < |s'.taken| ==> !s'.taken[k])
  {
    AllAreGivenBack(s.world, s.slots, MAX_SLOTS);
    hide GivenBack, GivesBackBelow;
  }
}
