/** The hooks that adopt, recheck and release bots, updating the slot table, the pool, the
    bindings and the engine's clients in place. */
module AllocationHooks {
  import opened Prelude
  import opened Engine
  import opened Rng
  import M = Manager
  import opened BotInfo
  import opened Allocation
  import ControllerRemoval
  import Lifetimes
  import Avatar
  import AvatarReconciler

  // The numbers that the engine's network protocol gives to the disconnect reasons named here.
  datatype Reasons = Reasons(kicked: int, banAdded: int, kickBanAdded: int, kickedTeamKilling: int,
                             kickedInsecureClient: int)

  // A client that the server removed keeps its controller.
  predicate IsTargetedClientRemovalReason(reasons: Reasons, reason: int) {
    || reason == reasons.kicked || reason == reasons.banAdded || reason == reasons.kickBanAdded
    || reasons.kickedTeamKilling <= reason <= reasons.kickedInsecureClient
  }

  class ClientHooks {
    const manager: M.FakeClientManager
    const pool: BotInfoStore
    const removals: ControllerRemoval.RemovalQueue
    var kicks: seq<Lifetimes.Kick>
    var bound: Bound
    var world: World

    ghost predicate Valid()
      reads this, manager, pool
    {
      manager.Valid() && pool.Valid()
    }

    ghost function View(): State
      reads this, manager, manager.slots, pool
      requires Valid()
    {
      State(world, manager.slots[..], manager.nextIncarnation, pool.entries, pool.taken, bound)
    }

    // The number the pool draws next.
    ghost function Draw(): nat
      reads pool
    {
      Output(Shuffle(Seeded(pool.rngState)))
    }

    constructor (manager: M.FakeClientManager, pool: BotInfoStore, world: World)
      requires manager.Valid() && pool.Valid()
      ensures Valid() && this.manager == manager && this.pool == pool && fresh(removals)
      ensures removals.pending == [] && kicks == []
      ensures View() ==
                State(world, manager.slots[..], manager.nextIncarnation, pool.entries, pool.taken,
                      seq(MAX_SLOTS, i => None))
    {
      this.manager := manager;
      this.pool := pool;
      removals := new ControllerRemoval.RemovalQueue();
      kicks := [];
      this.world := world;
      bound := seq(MAX_SLOTS, i => None);
    }

    method CollectOccupiedSteamIds(slot: int) returns (occupied: Option<set<uint64>>)
      requires Valid()
      ensures occupied == Occupied(world, manager.slots[..], slot)
    {
      var clients, slots := world.clients, manager.slots;
      if |clients| > MAX_CLIENTS || slot < 0 || slot >= |clients| || clients[slot].None? {
        return None;
      }
      var ids: set<uint64> := {};
      for other := 0 to |clients|
        invariant ids == LiveIds(clients[..other], slot)
      {
        assert clients[..other + 1] == clients[..other] + [clients[other]];
        if other != slot && clients[other].Some? && clients[other].value.steamId != 0 {
          ids := ids + {clients[other].value.steamId};
        }
      }
      assert clients[..|clients|] == clients;
      for other := 0 to MAX_SLOTS
        invariant ids ==
                    LiveIds(clients, slot) +
                    (set i | 0 <= i < other && i != slot && slots[i].managed :: slots[i].steamId)
      {
        if other != slot && slots[other].managed {
          ids := ids + {slots[other].steamId};
        }
      }
      assert ReservedIds(slots[..], slot) ==
               (set i | 0 <= i < MAX_SLOTS && i != slot && slots[i].managed :: slots[i].steamId);
      return Some(ids);
    }

    method CheckSteamIdAvailability(slot: int, steamId: uint64) returns (availability: Availability)
      requires Valid()
      ensures var checkable := steamId != 0 && ResolveClient(world, slot).Some?;
              && (availability == CheckFailed <==> !checkable)
              && (availability == InUse <==> checkable && IsInUse(world, manager.slots[..], slot, steamId))
              && (availability == Available <==> IsAvailable(world, manager.slots[..], slot, steamId))
    {
      if steamId == 0 {
        return CheckFailed;
      }
      var occupied := CollectOccupiedSteamIds(slot);
      if occupied.None? {
        return CheckFailed;
      }
      InUseIsOccupied(world, manager.slots[..], slot, steamId);
      availability := if steamId in occupied.value then InUse else Available;
    }

    // The part of each hook that shows a bot as a player.
    method ShowAsPlayer(slot: int, mode: Mode)
      requires ResolveClient(world, slot).Some?
      modifies this`world
      ensures world == ShowAs(old(world), slot, mode)
    {
      if mode.Player? {
        world := PutClient(world, slot, ClearFakePlayer(world.clients[slot].value));
        world := SetControllerFlag(world, slot, mode.inTransaction);
      }
    }

    // The part of each hook that gives a client back to the engine.
    method GiveBack(slot: int)
      modifies this`world
      ensures world == Undisguise(old(world), slot)
    {
      var client := ResolveClient(world, slot);
      if client.Some? {
        world := PutClient(world, slot, SetFakePlayer(client.value));
        world := SetControllerFlag(world, slot, true);
        world := PutClient(world, slot, WriteSteamId(world.clients[slot].value, 0));
      }
    }

    // identity_state::ReleaseSlot
    method ReleaseSlot(slot: nat)
      requires Valid() && IsSlot(slot) && (bound[slot].Some? ==> bound[slot].value < |pool.entries|)
      modifies this`bound, pool`taken, manager.slots
      ensures Valid() && View() == Allocation.ReleaseSlot(old(View()), slot)
    {
      pool.ReleaseAssignment(bound[slot]);
      bound := bound[slot := None];
      manager.ClearSlot(slot);
    }

    // identity_state::ReleaseAll
    method ReleaseAll()
      requires Valid()
      modifies this`bound, this`kicks, pool`taken, manager.slots, removals
      ensures Valid() && View() == Allocation.ReleaseAll(old(View()))
      ensures removals.pending == [] && kicks == []
    {
      manager.ReleaseAll();
      pool.ResetAssignments();
      bound := seq(MAX_SLOTS, i => None);
      assert View().slots == Allocation.ReleaseAll(old(View())).slots;
      removals.Clear();
      kicks := [];
    }

    method AdoptClient(slot: nat, name: Option<string>, mode: Mode) returns (adopted: bool)
      requires Valid() && IsSlot(slot)
      modifies this`bound, this`world, pool`taken, pool`rngState, manager.slots, manager`nextIncarnation
      ensures Valid()
      ensures View() == Allocation.AdoptClient(old(View()), slot, name, mode, old(Draw()))
      ensures adopted <==> exists p :: Draws(old(View()), slot, name, old(Draw()), p)
      ensures pool.rngState == if adopted then Shuffle(Seeded(old(pool.rngState))) else old(pool.rngState)
    {
      hide Shuffle, Output, Seeded, Pick;
      var occupied := CollectOccupiedSteamIds(slot);
      if occupied.None? {
        return false;
      }
      var entry := pool.PickForBot(name, occupied.value);
      if entry.None? {
        return false;
      }
      assert Draws(old(View()), slot, name, old(Draw()), entry.value);
      var steamId := pool.entries[entry.value].steamId64;
      manager.AdoptSlot(slot, steamId);
      bound := bound[slot := entry];
      world := PutClient(world, slot, WriteSteamId(world.clients[slot].value, steamId));
      ShowAsPlayer(slot, mode);
      return true;
    }

    method OnClientConnectedPost(slot: int, name: Option<string>, networkId: Option<string>, fakePlayer: bool,
                                 mode: Mode)
      requires Valid()
      modifies this`bound, this`world, pool`taken, pool`rngState, manager.slots, manager`nextIncarnation
      ensures Valid()
      ensures View() == Connected(old(View()), slot, name, networkId, fakePlayer, mode, old(Draw()))
    {
      hide Allocation.AdoptClient;
      if !fakePlayer || IsHltvConnection(name, networkId) || !IsSlot(slot) || manager.slots[slot].managed {
        return;
      }
      var client := ResolveClient(world, slot);
      if client.None? || client.value.hltv {
        return;
      }
      var _ := AdoptClient(slot, name, mode);
    }

    method ReleaseManagedHltvSlot(slot: nat) returns (released: bool)
      requires Valid() && IsSlot(slot) && (bound[slot].Some? ==> bound[slot].value < |pool.entries|)
      modifies this`bound, this`world, pool`taken, manager.slots
      ensures Valid() && View() == ReleaseHltv(old(View()), slot)
      ensures var s := old(View());
              released <==>
                s.slots[slot].managed && ResolveClient(s.world, slot).Some? && s.world.clients[slot].value.hltv
    {
      var client := ResolveClient(world, slot);
      if client.None? || !manager.slots[slot].managed || !client.value.hltv {
        return false;
      }
      world := PutClient(world, slot, WriteSteamId(client.value, 0));
      ReleaseSlot(slot);
      return true;
    }

    method OnClientPutInServerPost(slot: int, mode: Mode)
      requires Valid() && Bijective(View())
      modifies this`bound, this`world, pool`taken, manager.slots
      ensures Valid() && View() == PutInServer(old(View()), slot, mode)
    {
      hide ShowAs, Undisguise, IsAvailable;
      if !IsSlot(slot) || !manager.slots[slot].managed || ResolveClient(world, slot).None? {
        return;
      }
      var released := ReleaseManagedHltvSlot(slot);
      if released {
        return;
      }
      var steamId := manager.slots[slot].steamId;
      var availability := CheckSteamIdAvailability(slot, steamId);
      if availability != Available {
        GiveBack(slot);
        ReleaseSlot(slot);
        return;
      }
      ShowAsPlayer(slot, mode);
      ShowAsKeepsResolution(old(world), slot, mode);
      world := PutClient(world, slot, WriteSteamId(world.clients[slot].value, steamId));
    }

    // After a kick or a ban the client's controller is queued for removal, as it is after the bits
    // were given back; `able` tells whether UTIL_Remove is known.
    method OnClientDisconnectPre(slot: int, reasons: Reasons, reason: int, able: bool)
      requires Valid() && Bijective(View())
      modifies this`bound, this`world, pool`taken, manager.slots, removals
      ensures Valid() && View() == Disconnected(old(View()), slot)
      ensures removals.pending ==
                if && IsSlot(slot) && old(manager.slots[slot]).managed
                   && (reason in {reasons.kicked, reasons.banAdded, reasons.kickBanAdded}
                       || reasons.kickedTeamKilling <= reason <= reasons.kickedInsecureClient)
                then ControllerRemoval.Queued(world, old(removals.pending), ResolveClient(world, slot), slot, able)
                else old(removals.pending)
    {
      if !IsSlot(slot) || !manager.slots[slot].managed {
        return;
      }
      if ResolveClient(world, slot).Some? {
        GiveBack(slot);
        if IsTargetedClientRemovalReason(reasons, reason) {
          var _ := removals.QueueControllerRemovalForClient(world, ResolveClient(world, slot), slot, able);
        }
      }
      ReleaseSlot(slot);
    }

    // BH_SetSteamId and ApplySteamIdCommand
    method SetSteamId(slot: int, incarnation: uint64, steamId: uint64, mode: Mode) returns (done: bool)
      requires Valid()
      modifies this`world, manager.slots
      ensures Valid() && View() == Allocation.SetSteamId(old(View()), slot, incarnation, steamId, mode)
      ensures done <==>
                IsSlot(slot) &&
                old(M.Target(manager.slots[slot], incarnation) && IsAvailable(world, manager.slots[..], slot, steamId))
    {
      hide ShowAs;
      if !IsSlot(slot) || !M.Target(manager.slots[slot], incarnation) || ResolveClient(world, slot).None? {
        return false;
      }
      var availability := CheckSteamIdAvailability(slot, steamId);
      if availability != Available {
        return false;
      }
      ShowAsPlayer(slot, if mode.Player? then Player(false) else mode);
      ShowAsKeepsResolution(old(world), slot, if mode.Player? then Player(false) else mode);
      world := PutClient(world, slot, WriteSteamId(world.clients[slot].value, steamId));
      manager.SetSyntheticSid(slot, steamId);
      return true;
    }

    method RestoreManagedClients() returns (restored: nat)
      requires Valid()
      modifies this`world
      ensures world == GivenBack(old(world), manager.slots[..], MAX_SLOTS)
      ensures restored == |set i | 0 <= i < MAX_SLOTS && manager.slots[i].managed && ResolveClient(old(world), i).Some?|
    {
      restored := 0;
      ghost var done: set<int> := {};
      for slot := 0 to MAX_SLOTS
        invariant world == GivenBack(old(world), manager.slots[..], slot)
        invariant forall i :: ResolveClient(world, i).Some? <==> ResolveClient(old(world), i).Some?
        invariant done == set i | 0 <= i < slot && manager.slots[i].managed && ResolveClient(old(world), i).Some?
        invariant restored == |done|
      {
        if !manager.slots[slot].managed || ResolveClient(world, slot).None? {
          continue;
        }
        UndisguiseKeepsResolution(world, slot);
        GiveBack(slot);
        restored, done := restored + 1, done + {slot};
      }
    }

    // The clients are given back, everything is released, and a pass over the avatars cleans up.
    // `table` is what FindTable answered.
    method OnStartChangeLevelPre(avatars: AvatarReconciler.Reconciler, table: AvatarReconciler.NetworkStringTable?,
                                 now: nat, faults: seq<Avatar.Faults>) returns (restored: nat)
      requires Valid() && avatars.Valid() && avatars.manager == manager && |faults| == MAX_SLOTS
      modifies this`bound, this`world, this`kicks, pool`taken, manager.slots, removals, avatars, avatars.states, table
      ensures Valid() && removals.pending == [] && kicks == []
      ensures var released := Step(old(View()), OnLevelChange);
              && View() == released.(slots := View().slots)
              && (table == null ==> View().slots == released.slots)
              && (table != null ==>
                    var before := old(avatars.View(table)).(slots := released.slots);
                    var start := if table == old(avatars.lastTable) then before else Avatar.Reset(before, before.table);
                    avatars.View(table) == Avatar.Pass(start, Avatar.SlotOrder(MAX_SLOTS), now, faults))
    {
      restored := RestoreManagedClients();
      ReleaseAll();
      avatars.ProcessOverrides(table, now, faults);
    }

    method AdoptExistingBots(names: seq<Option<string>>, mode: Mode) returns (ghost draws: seq<nat>)
      requires Valid() && |names| == MAX_SLOTS
      modifies this`bound, this`world, pool`taken, pool`rngState, manager.slots, manager`nextIncarnation
      ensures Valid() && |draws| == MAX_SLOTS
      ensures View() == AdoptExisting(old(View()), names, draws, mode, MAX_SLOTS)
    {
      hide Allocation.AdoptClient;
      draws := seq(MAX_SLOTS, i => 0);
      for slot := 0 to MAX_SLOTS
        invariant Valid() && |draws| == MAX_SLOTS
        invariant View() == AdoptExisting(old(View()), names, draws, mode, slot)
      {
        var client := ResolveClient(world, slot);
        if client.None? || client.value.fakePlayer != 1 || client.value.hltv || IsHltvConnection(names[slot], None) {
          continue;
        }
        AdoptExistingReadsDraws(old(View()), names, draws, draws[slot := Draw()], mode, slot);
        draws := draws[slot := Draw()];
        var _ := AdoptClient(slot, names[slot], mode);
      }
    }
  }

  lemma UndisguiseKeepsResolution(w: World, slot: int)
    ensures forall i :: ResolveClient(Undisguise(w, slot), i).Some? <==> ResolveClient(w, i).Some?
  {
  }

  lemma ShowAsKeepsResolution(w: World, slot: int, mode: Mode)
    ensures ResolveClient(ShowAs(w, slot, mode), slot).Some? <==> ResolveClient(w, slot).Some?
    ensures |ShowAs(w, slot, mode).clients| == |w.clients|
  {
  }

  // Only the draws of the slots already visited matter.
  lemma {:induction false} AdoptExistingReadsDraws(s: State, names: seq<Option<string>>, a: seq<nat>, b: seq<nat>,
                                                   mode: Mode, n: nat)
    requires n <= MAX_SLOTS == |names| == |a| == |b| && |s.taken| == |s.entries| && a[..n] == b[..n]
    ensures AdoptExisting(s, names, a, mode, n) == AdoptExisting(s, names, b, mode, n)
  {
    hide AdoptClient, ResolveClient, IsHltvConnection;
    if n > 0 {
      assert a[n - 1] == a[..n][n - 1] == b[..n][n - 1] == b[n - 1];
      assert a[..n - 1] == a[..n][..n - 1] == b[..n][..n - 1] == b[..n - 1];
      AdoptExistingReadsDraws(s, names, a, b, mode, n - 1);
    }
  }
}
