/** The hooks themselves, which update the frame stacks, the depth counters and the engine's flag
    bytes in place. */
module IdentityHooks {
  import opened Prelude
  import opened Engine
  import M = Manager
  import opened ScopedRestore
  import opened Disguise
  import opened Packing
  import P = Population

  class Hooks {
    const manager: M.FakeClientManager
    var world: World
    var disguised: bool
    var startInPlayer: bool
    var populationDepth: nat
    var redisguise: bool
    var populationIdentity: Option<Saved>
    var frames: P.Frames
    var voterFrames: seq<Option<Saved>>
    var scriptFrames: seq<Option<Saved>>
    var packDepth: nat
    var packedPawns: seq<PawnRef>
    var hookDepth: nat

    ghost function View(): P.State
      reads this, manager, manager.slots
      requires manager.Valid()
    {
      P.State(world, manager.slots[..], disguised, startInPlayer, populationDepth, redisguise, populationIdentity,
              frames, voterFrames, scriptFrames, packDepth, packedPawns, hookDepth)
    }

    constructor (manager: M.FakeClientManager, world: World)
      requires manager.Valid()
      ensures this.manager == manager && this.world == world && !disguised && P.Start(View())
    {
      this.manager, this.world := manager, world;
      disguised, startInPlayer := false, false;
      populationDepth, redisguise, populationIdentity := 0, false, None;
      frames, voterFrames, scriptFrames := P.Frames([], [], [], [], []), [], [];
      packDepth, packedPawns, hookDepth := 0, [], 0;
    }

    method SetControllerFakeClientFlag(slot: int, fakeClient: bool) returns (done: bool)
      modifies this`world
      ensures world == SetControllerFlag(old(world), slot, fakeClient)
      ensures done <==>
                ResolveClient(old(world), slot).Some? && Controller(old(world), old(world).clients[slot].value).Some?
    {
      var client := ResolveClient(world, slot);
      if client.None? {
        return false;
      }
      var index := client.value.entityIndex;
      var entity := ResolveEntity(world, index);
      if entity.None? || !entity.value.isController {
        return false;
      }
      world := PutFlags(world, index, WithFakeClient(entity.value.flags, fakeClient));
      return true;
    }

    // ScopedBotIdentityRestore::Capture
    method CaptureIdentity() returns (shots: Saved)
      requires manager.Valid()
      modifies this`world
      ensures (world, shots) == Capture(old(world), manager.slots[..], MAX_SLOTS)
    {
      var taken: seq<Snapshot> := [];
      for slot := 0 to MAX_SLOTS
        invariant (world, taken) == Capture(old(world), manager.slots[..], slot)
      {
        var client := ResolveClient(world, slot);
        if !manager.slots[slot].managed || client.None? {
          taken := taken + [NO_SNAPSHOT];
          continue;
        }
        var c := client.value;
        world := PutClient(world, slot, SetFakePlayer(c));
        var controller := LiveController(world, c);
        if controller.Some? {
          world := PutFlags(world, c.entityIndex, Mark(controller.value.flags));
        }
        taken := taken + [SnapshotOf(c, controller)];
      }
      shots := taken;
    }

    // ScopedBotIdentityRestore::Restore
    method RestoreIdentity(shots: Saved)
      requires manager.Valid()
      modifies this`world
      ensures world == Restore(old(world), manager.slots[..], shots, MAX_SLOTS)
    {
      hide RestoreSlot;
      for slot := 0 to MAX_SLOTS
        invariant world == Restore(old(world), manager.slots[..], shots, slot)
      {
        RestoreSnapshot(slot, shots[slot]);
      }
    }

    // One turn of that loop.
    method RestoreSnapshot(slot: nat, shot: Snapshot)
      requires manager.Valid() && IsSlot(slot)
      modifies this`world
      ensures world == RestoreSlot(old(world), manager.slots[..], slot, shot)
    {
      hide Merge8, Merge32;
      var client := ResolveClient(world, slot);
      if shot.client.None? || !manager.slots[slot].managed || client.None?
         || client.value.id != shot.client.value || client.value.userId != shot.userId {
        return;
      }
      var c := client.value;
      var flags := Merge8(c.connectionFlags, shot.connectionFlags, shot.connectionMask);
      var fakePlayer := if shot.fakePlayer != 1 then shot.fakePlayer else c.fakePlayer;
      world := PutClient(world, slot, c.(connectionFlags := flags, fakePlayer := fakePlayer));
      var controller := LiveController(world, c);
      if shot.controller.None? || controller.None?
         || controller.value.instance != shot.controller.value || controller.value.handle != shot.handle {
        return;
      }
      var now := controller.value.flags;
      world := PutFlags(world, c.entityIndex, Merge32(now, shot.controllerFlags, shot.controllerMask));
    }

    method ApplyManagedDisguise(player: bool)
      requires manager.Valid()
      modifies this`world
      ensures world == ShowAll(old(world), manager.slots[..], player, MAX_SLOTS)
    {
      for slot := 0 to MAX_SLOTS
        invariant world == ShowAll(old(world), manager.slots[..], player, slot)
      {
        var client := ResolveClient(world, slot);
        if !manager.slots[slot].managed || client.None? {
          continue;
        }
        if player {
          world := PutClient(world, slot, ClearFakePlayer(client.value));
        } else {
          world := PutClient(world, slot, SetFakePlayer(client.value));
        }
        var _ := SetControllerFakeClientFlag(slot, !player);
        var steamId := manager.slots[slot].steamId;
        if steamId != 0 {
          world := PutClient(world, slot, WriteSteamId(world.clients[slot].value, steamId));
        }
      }
    }

    method BeginPopulationTransaction(again: bool)
      requires manager.Valid()
      modifies this`world, this`populationDepth, this`redisguise, this`populationIdentity
      ensures View() == P.Begin(old(View()), again)
    {
      hide Capture;
      populationDepth := populationDepth + 1;
      if populationDepth == 1 {
        redisguise := again;
        var shots := CaptureIdentity();
        populationIdentity := Some(shots);
      } else {
        redisguise := redisguise || again;
      }
    }

    method EndPopulationTransaction(again: bool)
      requires manager.Valid()
      modifies this`world, this`populationDepth, this`redisguise, this`populationIdentity
      ensures View() == P.End(old(View()), again)
    {
      hide Restore, ShowAll;
      if populationDepth == 0 {
        return;
      }
      redisguise := redisguise || again;
      populationDepth := populationDepth - 1;
      if populationDepth != 0 {
        return;
      }
      var applyDisguise := redisguise;
      redisguise := false;
      if populationIdentity.Some? {
        RestoreIdentity(populationIdentity.value);
        populationIdentity := None;
      }
      if applyDisguise {
        ApplyManagedDisguise(disguised);
      }
    }

    method BeginPopulationFrame(k: P.Kind, enabled: bool)
      requires manager.Valid() && P.IsPopulation(k) && !k.Command?
      modifies this`world, this`populationDepth, this`redisguise, this`populationIdentity, this`frames, this`hookDepth
      ensures View() == P.PrePopulation(old(View()), k, enabled)
    {
      hide P.Begin, P.Stack, P.WithStack;
      frames := P.WithStack(frames, k, P.Stack(frames, k) + [enabled]);
      hookDepth := hookDepth + 1;
      if enabled {
        BeginPopulationTransaction(true);
      }
    }

    method EndPopulationFrame(k: P.Kind)
      requires manager.Valid() && P.IsPopulation(k) && !k.Command? && P.Inv(View()) && P.IsOpen(View(), k)
      modifies this`world, this`populationDepth, this`redisguise, this`populationIdentity, this`frames, this`hookDepth
      ensures View() == P.PostPopulation(old(View()), k)
    {
      P.OpenHasDepth(View(), k);
      hide P.Inv, P.End, P.Stack, P.WithStack;
      var stack := P.Stack(frames, k);
      frames := P.WithStack(frames, k, P.Front(stack));
      if P.Back(stack) {
        EndPopulationTransaction(true);
        P.EndState(old(View()).(frames := frames), true);
      }
      hookDepth := hookDepth - 1;
    }

    method QuotaPre()
      requires manager.Valid()
      modifies this
      ensures View() == P.Pre(old(View()), P.OnQuota)
    {
      BeginPopulationFrame(P.Quota, disguised);
    }

    method QuotaPost()
      requires manager.Valid() && P.Inv(View()) && P.IsOpen(View(), P.Quota)
      modifies this
      ensures View() == P.Post(old(View()), P.Quota)
    {
      EndPopulationFrame(P.Quota);
    }

    method HumanTeamPre()
      requires manager.Valid()
      modifies this
      ensures View() == P.Pre(old(View()), P.OnHuman)
    {
      BeginPopulationFrame(P.Human, disguised);
    }

    method HumanTeamPost()
      requires manager.Valid() && P.Inv(View()) && P.IsOpen(View(), P.Human)
      modifies this
      ensures View() == P.Post(old(View()), P.Human)
    {
      EndPopulationFrame(P.Human);
    }

    method IsManagedBotController(controller: Option<nat>) returns (managed: bool)
      requires manager.Valid()
      ensures managed <==> P.IsManagedBotController(world, manager.slots[..], controller)
    {
      if controller.None? {
        return false;
      }
      for slot := 0 to MAX_SLOTS
        invariant P.Owner(world, manager.slots[..], controller.value, 0) ==
                    P.Owner(world, manager.slots[..], controller.value, slot)
      {
        var client := ResolveClient(world, slot);
        if !manager.slots[slot].managed || client.None? {
          continue;
        }
        var resolved := LiveController(world, client.value);
        if resolved.None? || resolved.value.instance != controller.value {
          continue;
        }
        return !client.value.hltv;
      }
      return false;
    }

    method JoinTeamPre(controller: Option<nat>)
      requires manager.Valid()
      modifies this
      ensures View() == P.Pre(old(View()), P.OnJoin(controller))
    {
      hide P.IsManagedBotController;
      var managed := IsManagedBotController(controller);
      BeginPopulationFrame(P.Join, disguised && managed);
    }

    method JoinTeamPost()
      requires manager.Valid() && P.Inv(View()) && P.IsOpen(View(), P.Join)
      modifies this
      ensures View() == P.Post(old(View()), P.Join)
    {
      EndPopulationFrame(P.Join);
    }

    // `reset` is the game rules' wish to pick new teams.
    method EndMatchPre(reset: bool)
      requires manager.Valid()
      modifies this
      ensures View() == P.Pre(old(View()), P.OnEndMatch(reset))
    {
      BeginPopulationFrame(P.EndMatch, disguised && reset);
    }

    method EndMatchPost()
      requires manager.Valid() && P.Inv(View()) && P.IsOpen(View(), P.EndMatch)
      modifies this
      ensures View() == P.Post(old(View()), P.EndMatch)
    {
      EndPopulationFrame(P.EndMatch);
    }

    // Open the transaction of the command on top, and note it in its frame.
    method BeginCommandTransaction()
      requires manager.Valid() && frames.command != []
      modifies this`world, this`populationDepth, this`redisguise, this`populationIdentity, this`frames
      ensures View() ==
                P.Begin(old(View()).(frames := old(frames).(command := P.Front(old(frames).command) + [true])), true)
    {
      P.BeginState(View(), true);
      P.BeginState(View().(frames := frames.(command := P.Front(frames.command) + [true])), true);
      hide P.Begin, Capture;
      BeginPopulationTransaction(true);
      frames := frames.(command := P.Front(frames.command) + [true]);
    }

    // `queued` tells whether the kick was put off until the next frame.
    method DispatchConCommandPre(name: Option<string>, queued: bool)
      requires manager.Valid()
      modifies this
      ensures View() == P.Pre(old(View()), P.OnCommand(name, queued))
    {
      hide P.Begin;
      frames := frames.(command := frames.command + [false]);
      assert P.Front(frames.command) == old(frames).command;
      if name.None? {
        return;
      }
      if P.IsBotAddCommand(name.value) {
        if disguised {
          BeginCommandTransaction();
        }
        return;
      }
      if (name.value == "kick" || name.value == "kickid") && queued {
        return;
      }
      if !P.IsKickCommand(name.value) {
        return;
      }
      if disguised {
        BeginCommandTransaction();
      }
    }

    method DispatchConCommandPost()
      requires manager.Valid() && P.IsOpen(View(), P.Command)
      modifies this
      ensures View() == P.Post(old(View()), P.Command)
    {
      hide P.End;
      var populationCommand := P.Back(frames.command);
      frames := frames.(command := P.Front(frames.command));
      if populationCommand {
        EndPopulationTransaction(disguised);
      }
    }

    method CaptureFrame() returns (frame: Option<Saved>)
      requires manager.Valid()
      modifies this`world
      ensures (world, frame) == P.CaptureFrame(old(View()))
    {
      hide Capture;
      if !disguised {
        return None;
      }
      var shots := CaptureIdentity();
      return Some(shots);
    }

    method RestoreFrame(frame: Option<Saved>)
      requires manager.Valid()
      modifies this`world
      ensures world == P.RestoreFrame(old(View()), frame)
    {
      hide Restore;
      if frame.Some? {
        RestoreIdentity(frame.value);
      }
    }

    method VotersPre()
      requires manager.Valid()
      modifies this
      ensures View() == P.Pre(old(View()), P.OnVoters)
    {
      hide P.CaptureFrame;
      hookDepth := hookDepth + 1;
      ghost var s := View();
      var frame := CaptureFrame();
      voterFrames := voterFrames + [frame];
      assert P.CaptureFrame(s) == P.CaptureFrame(old(View())) by { CaptureReadsWorld(s, old(View())); }
    }

    method VotersPost()
      requires manager.Valid() && P.Inv(View()) && P.IsOpen(View(), P.Voters)
      modifies this
      ensures View() == P.Post(old(View()), P.Voters)
    {
      P.OpenHasDepth(View(), P.Voters);
      hide P.Inv;
      var frame := P.Back(voterFrames);
      voterFrames := P.Front(voterFrames);
      RestoreFrame(frame);
      hookDepth := hookDepth - 1;
    }

    method ScriptIsBotPre()
      requires manager.Valid()
      modifies this
      ensures View() == P.Pre(old(View()), P.OnScript)
    {
      hide P.CaptureFrame;
      hookDepth := hookDepth + 1;
      ghost var s := View();
      var frame := CaptureFrame();
      scriptFrames := scriptFrames + [frame];
      assert P.CaptureFrame(s) == P.CaptureFrame(old(View())) by { CaptureReadsWorld(s, old(View())); }
    }

    method ScriptIsBotPost()
      requires manager.Valid() && P.Inv(View()) && P.IsOpen(View(), P.Script)
      modifies this
      ensures View() == P.Post(old(View()), P.Script)
    {
      P.OpenHasDepth(View(), P.Script);
      hide P.Inv;
      var frame := P.Back(scriptFrames);
      scriptFrames := P.Front(scriptFrames);
      RestoreFrame(frame);
      hookDepth := hookDepth - 1;
    }

    method ApplyBotFlagOverride()
      requires manager.Valid()
      modifies this`world, this`packedPawns
      ensures var (w, refs) := HideAll(old(world), manager.slots[..], MAX_SLOTS);
              world == w && packedPawns == old(packedPawns) + refs
    {
      for slot := 0 to MAX_SLOTS
        invariant var (w, refs) := HideAll(old(world), manager.slots[..], slot);
                  world == w && packedPawns == old(packedPawns) + refs
      {
        var pawn := PawnOf(world, ResolveClient(world, slot));
        if !manager.slots[slot].managed || pawn.None? {
          continue;
        }
        var e := EntryIndex(pawn.value.handle);
        var flags := world.entities[e].flags;
        if flags & FLAG_BOT == 0 {
          continue;
        }
        world := PutFlags(world, e, WithoutBot(flags));
        packedPawns := packedPawns + [pawn.value];
      }
    }

    method RestoreBotFlagOverride()
      modifies this`world
      ensures world == ShowBots(old(world), packedPawns, |packedPawns|)
    {
      for i := 0 to |packedPawns|
        invariant world == ShowBots(old(world), packedPawns, i)
      {
        var ref := packedPawns[i];
        var current := ResolveEntity(world, EntryIndex(ref.handle));
        if current.None? || current.value.instance != ref.instance || current.value.deleting ||
           current.value.handle != ref.handle {
          continue;
        }
        world := PutFlags(world, EntryIndex(ref.handle), WithBot(current.value.flags));
      }
    }

    method PackPre()
      requires manager.Valid()
      modifies this
      ensures View() == P.Pre(old(View()), P.OnPack)
    {
      hide HideAll;
      hookDepth := hookDepth + 1;
      packDepth := packDepth + 1;
      if packDepth == 1 && disguised {
        ApplyBotFlagOverride();
      } else {
        assert packedPawns + [] == packedPawns;
      }
    }

    method PackPost()
      requires manager.Valid() && P.Inv(View()) && P.IsOpen(View(), P.Pack)
      modifies this
      ensures View() == P.Post(old(View()), P.Pack)
    {
      P.OpenHasDepth(View(), P.Pack);
      hide P.Inv, ShowBots;
      packDepth := packDepth - 1;
      if packDepth == 0 {
        RestoreBotFlagOverride();
        packedPawns := [];
      }
      hookDepth := hookDepth - 1;
    }

    // `canEnable` and `attached` are what CanEnableDisguise and AttachGameServerHook answer.
    method SetIdentityMode(player: bool, canEnable: bool, attached: bool) returns (done: bool)
      requires manager.Valid()
      modifies this`world, this`disguised, this`startInPlayer
      ensures View() == P.SetMode(old(View()), player, canEnable, attached)
      ensures done <==> !player || (canEnable && attached)
      decreases player
    {
      hide ShowAll;
      if player {
        if !canEnable {
          return false;
        }
        if !attached {
          if disguised {
            var _ := SetIdentityMode(false, canEnable, attached);
          }
          return false;
        }
      }
      startInPlayer := false;
      if disguised == player {
        return true;
      }
      disguised := player;
      ApplyManagedDisguise(player);
      return true;
    }

    // What OnLevelShutdown does to the mode.
    method OnLevelShutdown()
      requires manager.Valid()
      modifies this`disguised, this`startInPlayer
      ensures View() == P.LevelEnds(old(View()))
    {
      if disguised {
        startInPlayer := true;
        disguised := false;
      }
    }

    // What OnLevelInit does to the mode.
    method OnLevelInit(canEnable: bool, attached: bool)
      requires manager.Valid()
      modifies this`world, this`disguised, this`startInPlayer
      ensures View() == P.LevelBegins(old(View()), canEnable, attached)
    {
      hide P.SetMode;
      if !attached {
        var _ := SetIdentityMode(false, canEnable, attached);
      } else if startInPlayer {
        var _ := SetIdentityMode(true, canEnable, attached);
      }
    }

    // The hooks are removed only while no native call is inside one of them; console commands do
    // not count.
    method Remove() returns (removed: bool)
      requires manager.Valid() && P.Inv(View())
      ensures removed <==> forall k: P.Kind :: !k.Command? ==> !P.IsOpen(View(), k)
    {
      P.DepthIsOpen(View());
      return hookDepth == 0;
    }
  }

  lemma CaptureReadsWorld(s: P.State, t: P.State)
    requires s.world == t.world && s.slots == t.slots && s.disguised == t.disguised
    ensures P.CaptureFrame(s) == P.CaptureFrame(t)
  {
  }
}
