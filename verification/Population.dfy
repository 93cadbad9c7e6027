/** The hooks around native calls that must see bots as bots: population transactions counted by
    depth, voter and script scopes, and entity packing. Frames are pushed before a call and popped
    after it; the identity mode may change in between. */
module Population {
  import opened Prelude
  import opened Engine
  import opened Manager
  import opened ScopedRestore
  import opened ScopeLaws
  import opened Disguise
  import opened Packing

  datatype Kind = Quota | Human | Join | EndMatch | Command | Voters | Script | Pack

  // One stack of flags per kind of population call.
  datatype Frames = Frames(quota: seq<bool>, human: seq<bool>, join: seq<bool>, endMatch: seq<bool>, command: seq<bool>)

  datatype State = State(
    world: World,
    slots: Slots,
    disguised: bool,
    startInPlayer: bool,
    depth: nat,
    redisguise: bool,
    snapshot: Option<Saved>,
    frames: Frames,
    voters: seq<Option<Saved>>,
    script: seq<Option<Saved>>,
    packDepth: nat,
    packed: seq<PawnRef>,
    hookDepth: nat)

  // A hooked call with what its hook looks at.
  datatype Call =
    | OnQuota
    | OnHuman
    | OnJoin(controller: Option<nat>)
    | OnEndMatch(reset: bool)
    | OnCommand(name: Option<string>, queued: bool)
    | OnVoters
    | OnScript
    | OnPack
  {
    function Kind(): Kind {
      match this
      case OnQuota => Quota
      case OnHuman => Human
      case OnJoin(_) => Join
      case OnEndMatch(_) => EndMatch
      case OnCommand(_, _) => Command
      case OnVoters => Voters
      case OnScript => Script
      case OnPack => Pack
    }
  }

  predicate IsPopulation(k: Kind) {
    k.Quota? || k.Human? || k.Join? || k.EndMatch? || k.Command?
  }

  function Stack(f: Frames, k: Kind): seq<bool>
    requires IsPopulation(k)
  {
    match k
    case Quota => f.quota
    case Human => f.human
    case Join => f.join
    case EndMatch => f.endMatch
    case Command => f.command
  }

  function WithStack(f: Frames, k: Kind, stack: seq<bool>): (f': Frames)
    requires IsPopulation(k)
    ensures Stack(f', k) == stack
  {
    match k
    case Quota => f.(quota := stack)
    case Human => f.(human := stack)
    case Join => f.(join := stack)
    case EndMatch => f.(endMatch := stack)
    case Command => f.(command := stack)
  }

  // The first managed slot, from `slot` on, whose live controller this is.
  function Owner(w: World, slots: Slots, controller: nat, slot: nat): Option<nat>
    requires slot <= MAX_SLOTS
    decreases MAX_SLOTS - slot
  {
    if slot == MAX_SLOTS then None
    else if Controls(w, slots, controller, slot) then Some(slot)
    else Owner(w, slots, controller, slot + 1)
  }

  predicate Controls(w: World, slots: Slots, controller: nat, slot: nat)
    requires IsSlot(slot)
  {
    && slots[slot].managed && ResolveClient(w, slot).Some?
    && LiveController(w, w.clients[slot].value).Some?
    && LiveController(w, w.clients[slot].value).value.instance == controller
  }

  // It is the first such slot, if there is any.
  lemma {:induction false} OwnerIsFirst(w: World, slots: Slots, controller: nat, slot: nat)
    requires slot <= MAX_SLOTS
    ensures var owner := Owner(w, slots, controller, slot);
            && (owner.Some? ==> slot <= owner.value < MAX_SLOTS && Controls(w, slots, controller, owner.value))
            && forall i :: slot <= i < (if owner.Some? then owner.value else MAX_SLOTS) ==>
                 !Controls(w, slots, controller, i)
    decreases MAX_SLOTS - slot
  {
    hide Controls;
    if slot < MAX_SLOTS && !Controls(w, slots, controller, slot) {
      OwnerIsFirst(w, slots, controller, slot + 1);
    }
  }

  predicate IsManagedBotController(w: World, slots: Slots, controller: Option<nat>) {
    controller.Some? &&
    match Owner(w, slots, controller.value, 0)
    case None => false
    case Some(slot) => ResolveClient(w, slot).Some? && !ResolveClient(w, slot).value.hltv
  }

  predicate IsBotAddCommand(name: string) {
    name == "bot_add" || name == "bot_add_t" || name == "bot_add_ct"
  }

  predicate IsKickCommand(name: string) {
    name == "kickid" || name == "kick" || name == "bot_kick" || name == "banid"
  }

  // Commands that change the population; a kick that was queued for later is not one.
  predicate IsPopulationCommand(name: Option<string>, queued: bool) {
    name.Some? &&
    (IsBotAddCommand(name.value)
     || (IsKickCommand(name.value) && !(queued && (name.value == "kick" || name.value == "kickid"))))
  }

  // Does the call open a transaction, a scope or an override?
  predicate Enabled(s: State, c: Call) {
    s.disguised &&
    match c
    case OnJoin(controller) => IsManagedBotController(s.world, s.slots, controller)
    case OnEndMatch(reset) => reset
    case OnCommand(name, queued) => IsPopulationCommand(name, queued)
    case OnPack => s.packDepth == 0
    case _ => true
  }

  // BeginPopulationTransaction
  function Begin(s: State, redisguise: bool): State {
    if s.depth == 0 then
      var (w, shots) := Capture(s.world, s.slots, MAX_SLOTS);
      s.(depth := 1, redisguise := redisguise, world := w, snapshot := Some(shots))
    else s.(depth := s.depth + 1, redisguise := s.redisguise || redisguise)
  }

  // Destroying the snapshot restores from it.
  function Dropped(s: State): State {
    s.(snapshot := None,
       world := if s.snapshot.None? then s.world else Restore(s.world, s.slots, s.snapshot.value, MAX_SLOTS))
  }

  // EndPopulationTransaction
  function End(s: State, redisguise: bool): State {
    if s.depth == 0 then s
    else if s.depth > 1 then s.(depth := s.depth - 1, redisguise := s.redisguise || redisguise)
    else
      var s1 := Dropped(s.(depth := 0, redisguise := false));
      if s.redisguise || redisguise then s1.(world := ShowAll(s1.world, s1.slots, s1.disguised, MAX_SLOTS)) else s1
  }

  function CaptureFrame(s: State): (World, Option<Saved>) {
    if !s.disguised then (s.world, None)
    else
      var (w, shots) := Capture(s.world, s.slots, MAX_SLOTS);
      (w, Some(shots))
  }

  function RestoreFrame(s: State, frame: Option<Saved>): World {
    if frame.None? then s.world else Restore(s.world, s.slots, frame.value, MAX_SLOTS)
  }

  function Pre(s: State, c: Call): State {
    match c.Kind()
    case Voters =>
      var (w, frame) := CaptureFrame(s); s.(world := w, voters := s.voters + [frame], hookDepth := s.hookDepth + 1)
    case Script =>
      var (w, frame) := CaptureFrame(s); s.(world := w, script := s.script + [frame], hookDepth := s.hookDepth + 1)
    case Pack =>
      var (w, refs) := if Enabled(s, c) then HideAll(s.world, s.slots, MAX_SLOTS) else (s.world, []);
      s.(world := w, packed := s.packed + refs, packDepth := s.packDepth + 1, hookDepth := s.hookDepth + 1)
    case k => PrePopulation(s, k, Enabled(s, c))
  }

  // BeginPopulationFrame, and the same without the hook depth for a command.
  function PrePopulation(s: State, k: Kind, enabled: bool): State
    requires IsPopulation(k)
  {
    var s1 := s.(frames := WithStack(s.frames, k, Stack(s.frames, k) + [enabled]));
    var s2 := if k.Command? then s1 else s1.(hookDepth := s.hookDepth + 1);
    if enabled then Begin(s2, true) else s2
  }

  predicate IsOpen(s: State, k: Kind) {
    match k
    case Voters => s.voters != []
    case Script => s.script != []
    case Pack => s.packDepth > 0
    case _ => Stack(s.frames, k) != []
  }

  function Front<T>(stack: seq<T>): seq<T>
    requires stack != []
  {
    stack[..|stack| - 1]
  }

  function Back<T>(stack: seq<T>): T
    requires stack != []
  {
    stack[|stack| - 1]
  }

  // --g_hookDepth on an unsigned counter; it never drops below zero (see Inv).
  function Less(n: nat): nat {
    if n == 0 then 0 else n - 1
  }

  function Post(s: State, k: Kind): State
    requires IsOpen(s, k)
  {
    match k
    case Voters =>
      s.(world := RestoreFrame(s, Back(s.voters)), voters := Front(s.voters), hookDepth := Less(s.hookDepth))
    case Script =>
      s.(world := RestoreFrame(s, Back(s.script)), script := Front(s.script), hookDepth := Less(s.hookDepth))
    case Pack =>
      if s.packDepth == 1 then
        s.(world := ShowBots(s.world, s.packed, |s.packed|), packed := [], packDepth := 0,
           hookDepth := Less(s.hookDepth))
      else s.(packDepth := s.packDepth - 1, hookDepth := Less(s.hookDepth))
    case _ => PostPopulation(s, k)
  }

  // EndPopulationFrame; a command's frame ends with the mode in force.
  function PostPopulation(s: State, k: Kind): State
    requires IsPopulation(k) && Stack(s.frames, k) != []
  {
    var s1 := s.(frames := WithStack(s.frames, k, Front(Stack(s.frames, k))));
    var s2 := if Back(Stack(s.frames, k)) then End(s1, if k.Command? then s.disguised else true) else s1;
    if k.Command? then s2 else s2.(hookDepth := Less(s2.hookDepth))
  }

  // SetIdentityMode; `canEnable` and `attached` are what CanEnableDisguise and AttachGameServerHook
  // answer when player mode is asked for.
  function SetMode(s: State, player: bool, canEnable: bool, attached: bool): State {
    if player && !canEnable then s
    else if player && !attached then (if s.disguised then SetMode(s, false, canEnable, attached) else s)
    else if s.disguised == player then s.(startInPlayer := false)
    else s.(startInPlayer := false, disguised := player, world := ShowAll(s.world, s.slots, player, MAX_SLOTS))
  }

  // The end of OnLevelShutdown: player mode is put off until the next level.
  function LevelEnds(s: State): State {
    if s.disguised then s.(startInPlayer := true, disguised := false) else s
  }

  // OnLevelInit
  function LevelBegins(s: State, canEnable: bool, attached: bool): State {
    if !attached then SetMode(s, false, canEnable, attached)
    else if s.startInPlayer then SetMode(s, true, canEnable, attached)
    else s
  }

  // `Other` is everything else: the engine's own writes, adoptions and releases, and even a mode that
  // changes without a word.
  datatype Event =
    | PreCall(call: Call)
    | PostCall(kind: Kind)
    | ModeSet(player: bool, canEnable: bool, attached: bool)
    | LevelEnd
    | LevelBegin(canEnable: bool, attached: bool)
    | Other(world: World, slots: Slots, disguised: bool)

  // After a call is only where before it was.
  predicate Allowed(s: State, e: Event) {
    e.PostCall? ==> IsOpen(s, e.kind)
  }

  function Step(s: State, e: Event): State
    requires Allowed(s, e)
  {
    match e
    case PreCall(c) => Pre(s, c)
    case PostCall(k) => Post(s, k)
    case ModeSet(player, canEnable, attached) => SetMode(s, player, canEnable, attached)
    case LevelEnd => LevelEnds(s)
    case LevelBegin(canEnable, attached) => LevelBegins(s, canEnable, attached)
    case Other(w, slots, disguised) => s.(world := w, slots := slots, disguised := disguised)
  }

  function Depths(f: Frames): nat {
    |f.quota| + |f.human| + |f.join| + |f.endMatch|
  }

  // The native frames that are open; console commands are not among them.
  function NativeFrames(s: State): nat {
    Depths(s.frames) + |s.voters| + |s.script| + s.packDepth
  }

  function EnabledFrames(f: Frames): nat {
    CountTrue(f.quota) + CountTrue(f.human) + CountTrue(f.join) + CountTrue(f.endMatch) + CountTrue(f.command)
  }

  // Accounting: the depth counts the enabled frames of all stacks, the snapshot is there exactly
  // during a transaction, which will re-disguise, and the hook depth counts the native frames.
  ghost predicate Inv(s: State) {
    && s.depth == EnabledFrames(s.frames)
    && (s.snapshot.Some? <==> s.depth > 0)
    && (s.redisguise <==> s.depth > 0)
    && s.hookDepth == NativeFrames(s)
    && (s.packDepth == 0 ==> s.packed == [])
  }

  lemma CountPushed(frames: seq<bool>, b: bool)
    ensures CountTrue(frames + [b]) == CountTrue(frames) + if b then 1 else 0
  {
    assert (frames + [b])[..|frames|] == frames;
  }

  lemma CountPopped(frames: seq<bool>)
    requires frames != []
    ensures CountTrue(Front(frames)) == CountTrue(frames) - if Back(frames) then 1 else 0
  {
    CountPushed(Front(frames), Back(frames));
    assert frames == Front(frames) + [Back(frames)];
  }

  lemma StackChanges(f: Frames, k: Kind, stack: seq<bool>)
    requires IsPopulation(k)
    ensures var f' := WithStack(f, k, stack);
            && EnabledFrames(f') == EnabledFrames(f) + CountTrue(stack) - CountTrue(Stack(f, k))
            && Depths(f') == Depths(f) + (if k.Command? then 0 else |stack| - |Stack(f, k)|)
            && WithStack(f', k, Stack(f, k)) == f
  {
    hide CountTrue;
  }

  lemma PreKeeps(s: State, c: Call)
    requires Inv(s)
    ensures Inv(Pre(s, c))
  {
    if IsPopulation(c.Kind()) {
      PrePopulationKeeps(s, c.Kind(), Enabled(s, c));
    }
    hide Capture, HideAll, CountTrue, Enabled, PrePopulation;
  }

  lemma PrePopulationKeeps(s: State, k: Kind, enabled: bool)
    requires Inv(s) && IsPopulation(k)
    ensures Inv(PrePopulation(s, k, enabled))
  {
    hide Begin, Capture, Shots, CountTrue, Stack, WithStack, Depths, EnabledFrames;
    var stack := Stack(s.frames, k) + [enabled];
    CountPushed(Stack(s.frames, k), enabled);
    StackChanges(s.frames, k, stack);
    var s1 := s.(frames := WithStack(s.frames, k, stack));
    var s2 := if k.Command? then s1 else s1.(hookDepth := s.hookDepth + 1);
    assert s2.hookDepth == NativeFrames(s2);
    if enabled {
      BeginState(s2, true);
      FramesAlone(s2, Begin(s2, true));
    }
  }

  lemma FramesAlone(s: State, t: State)
    requires s.frames == t.frames && s.voters == t.voters && s.script == t.script && s.packDepth == t.packDepth
    ensures NativeFrames(s) == NativeFrames(t)
  {
  }

  lemma PostKeeps(s: State, k: Kind)
    requires Inv(s) && IsOpen(s, k)
    ensures Inv(Post(s, k))
  {
    if IsPopulation(k) {
      PostPopulationKeeps(s, k);
    }
    hide RestoreFrame, ShowBots, CountTrue, PostPopulation, EnabledFrames, Depths;
  }

  lemma PostPopulationKeeps(s: State, k: Kind)
    requires Inv(s) && IsPopulation(k) && IsOpen(s, k)
    ensures Inv(PostPopulation(s, k))
  {
    hide End, CountTrue, WithStack, Depths, EnabledFrames;
    var stack := Stack(s.frames, k);
    assert stack != [];
    hide Stack;
    CountPopped(stack);
    StackChanges(s.frames, k, Front(stack));
    if !k.Command? {
      OpenIsDeep(s.frames, k);
    }
    if Back(stack) {
      EndIsMatched(s, k);
      var s1 := s.(frames := WithStack(s.frames, k, Front(stack)));
      EndState(s1, if k.Command? then s.disguised else true);
      FramesAlone(s1, End(s1, if k.Command? then s.disguised else true));
    }
  }

  lemma OpenIsDeep(f: Frames, k: Kind)
    requires IsPopulation(k) && Stack(f, k) != [] && !k.Command?
    ensures Depths(f) > 0
  {
  }

  // What beginning and ending a transaction do to everything but the world.
  lemma BeginState(s: State, redisguise: bool)
    ensures Begin(s, redisguise) ==
              s.(depth := s.depth + 1, redisguise := redisguise || (s.depth > 0 && s.redisguise),
                 snapshot := if s.depth == 0 then Some(Shots(s.world, s.slots)) else s.snapshot,
                 world := if s.depth == 0 then Capture(s.world, s.slots, MAX_SLOTS).0 else s.world)
  {
    hide Capture;
  }

  lemma EndState(s: State, redisguise: bool)
    ensures End(s, redisguise) ==
              if s.depth == 0 then s
              else if s.depth > 1 then s.(depth := s.depth - 1, redisguise := redisguise || s.redisguise)
              else s.(depth := 0, redisguise := false, snapshot := None, world := End(s, redisguise).world)
  {
    hide Restore, ShowAll;
  }

  // The branch that warns of an unmatched end is never taken.
  lemma EndIsMatched(s: State, k: Kind)
    requires Inv(s) && IsPopulation(k) && IsOpen(s, k) && Back(Stack(s.frames, k))
    ensures s.depth > 0
  {
    CountPopped(Stack(s.frames, k));
    hide CountTrue;
  }

  lemma ModeSetKeeps(s: State, player: bool, canEnable: bool, attached: bool)
    ensures var s' := SetMode(s, player, canEnable, attached);
            s' == s.(disguised := s'.disguised, startInPlayer := s'.startInPlayer, world := s'.world)
  {
    hide ShowAll;
  }

  lemma StepKeeps(s: State, e: Event)
    requires Inv(s) && Allowed(s, e)
    ensures Inv(Step(s, e))
  {
    match e
    case PreCall(c) => PreKeeps(s, c);
    case PostCall(k) => PostKeeps(s, k);
    case ModeSet(player, canEnable, attached) => ModeSetKeeps(s, player, canEnable, attached);
    case LevelEnd =>
    case LevelBegin(canEnable, attached) =>
      ModeSetKeeps(s, false, canEnable, attached);
      ModeSetKeeps(s, true, canEnable, attached);
      hide SetMode;
    case Other(_, _, _) =>
  }

  // Where a native frame is open there is a depth to count down.
  lemma OpenHasDepth(s: State, k: Kind)
    requires Inv(s) && IsOpen(s, k) && !k.Command?
    ensures s.hookDepth > 0
  {
    hide CountTrue, EnabledFrames;
  }

  ghost predicate Legal(s: State, es: seq<Event>)
    decreases |es|
  {
    es == [] || (Allowed(s, es[0]) && Legal(Step(s, es[0]), es[1..]))
  }

  ghost function Run(s: State, es: seq<Event>): (s': State)
    requires Inv(s) && Legal(s, es)
    ensures Inv(s')
    decreases |es|
  {
    if es == [] then s
    else
      StepKeeps(s, es[0]);
      Run(Step(s, es[0]), es[1..])
  }

  ghost predicate Start(s: State) {
    && s.depth == 0 && !s.redisguise && s.snapshot.None? && s.hookDepth == 0 && s.packDepth == 0 && s.packed == []
    && s.frames == Frames([], [], [], [], [])
    && s.voters == [] && s.script == []
  }

  // The hook depth is zero exactly while no native frame is open.
  lemma DepthIsOpen(s: State)
    requires Inv(s)
    ensures s.hookDepth != 0 <==> exists k: Kind :: !k.Command? && IsOpen(s, k)
  {
    hide CountTrue, EnabledFrames;
    if NativeFrames(s) > 0 {
      assert IsOpen(s, Quota) || IsOpen(s, Human) || IsOpen(s, Join) || IsOpen(s, EndMatch)
          || IsOpen(s, Voters) || IsOpen(s, Script) || IsOpen(s, Pack);
    }
  }

  // Over every run of hook events, with mode changes anywhere, the books balance.
  lemma Accounting(s0: State, es: seq<Event>)
    requires Start(s0) && Legal(s0, es)
    ensures Inv(s0)
    ensures var s := Run(s0, es);
            && s.depth == EnabledFrames(s.frames)
            && (s.snapshot.Some? <==> s.depth > 0)
            && s.hookDepth == NativeFrames(s)
            && (forall k | IsPopulation(k) && IsOpen(s, k) && Back(Stack(s.frames, k)) :: s.depth > 0)
            && (s.hookDepth != 0 <==> exists k: Kind :: !k.Command? && IsOpen(s, k))
  {
    var s := Run(s0, es);
    forall k | IsPopulation(k) && IsOpen(s, k) && Back(Stack(s.frames, k)) ensures s.depth > 0 {
      EndIsMatched(s, k);
    }
    DepthIsOpen(s);
  }

  // When the outermost transaction ends, every managed bot with a client shows the identity of the
  // mode in force at that moment, whatever went on inside.
  lemma ConsistentAtRest(s: State, k: Kind, i: nat)
    requires Inv(s) && IsPopulation(k) && IsOpen(s, k) && Back(Stack(s.frames, k)) && s.depth == 1
    requires IsSlot(i) && s.slots[i].managed && ResolveClient(s.world, i).Some?
    ensures var s' := Post(s, k);
            s'.depth == 0 && s'.slots == s.slots && s'.disguised == s.disguised &&
            Shows(s'.world, s'.slots, i, s'.disguised)
  {
    var w := Restore(s.world, s.slots, s.snapshot.value, MAX_SLOTS);
    RestoreKeepsClients(s.world, s.slots, s.snapshot.value, MAX_SLOTS, i);
    AllShow(w, s.slots, s.disguised, i);
    hide Restore, ShowAll, Shows, CountTrue;
  }

  lemma {:induction false} RestoreKeepsClients(w: World, slots: Slots, shots: Saved, n: nat, i: nat)
    requires n <= MAX_SLOTS && ResolveClient(w, i).Some?
    ensures ResolveClient(Restore(w, slots, shots, n), i).Some?
  {
    if n > 0 {
      RestoreKeepsClients(w, slots, shots, n - 1, i);
    }
  }

  // A mode change that goes through has the same effect at once; one that is refused has none,
  // except that bot mode is the fallback where the server cannot be attached.
  lemma ModeChangeShows(s: State, player: bool, canEnable: bool, attached: bool, i: nat)
    requires IsSlot(i) && s.slots[i].managed && ResolveClient(s.world, i).Some?
    ensures var s' := Step(s, ModeSet(player, canEnable, attached));
            && s'.disguised == (if !player then false else if !canEnable then s.disguised else attached)
            && (s'.disguised == s.disguised ==> s'.world == s.world)
            && (s'.disguised != s.disguised ==> Shows(s'.world, s'.slots, i, s'.disguised))
  {
    assert Step(s, ModeSet(player, canEnable, attached)) == SetMode(s, player, canEnable, attached);
    AllShow(s.world, s.slots, false, i);
    AllShow(s.world, s.slots, true, i);
    hide ShowAll, Shows;
  }

  // From one level to the next player mode survives exactly if the next level can have it; whatever
  // happens in between does not touch the mode. It stays put off for a later level only where the
  // server could be attached and the disguise was not possible.
  lemma LevelChangeKeepsMode(s: State, w: World, slots: Slots, canEnable: bool, attached: bool)
    ensures var ended := Step(s, LevelEnd);
            var s' := Step(ended.(world := w, slots := slots), LevelBegin(canEnable, attached));
            && !ended.disguised
            && s'.disguised == ((s.disguised || s.startInPlayer) && canEnable && attached)
            && s'.startInPlayer == ((s.disguised || s.startInPlayer) && !canEnable && attached)
  {
    hide ShowAll;
  }

  // A mode asked for between two levels is what counts: bot mode stays, and player mode that was
  // possible at once lasts if the server can be attached; a wish that was refused leaves things as
  // they were.
  lemma WishBetweenLevelsCounts(s: State, player: bool, possible: bool, reachable: bool, w: World, slots: Slots,
                                canEnable: bool, attached: bool)
    ensures var told := Step(Step(s, LevelEnd), ModeSet(player, possible, reachable));
            var s' := Step(told.(world := w, slots := slots), LevelBegin(canEnable, attached));
            s'.disguised <==>
              && attached && player
              && ((possible && reachable) || ((s.disguised || s.startInPlayer) && canEnable))
  {
    hide ShowAll;
  }

  // A start in player mode that was put off is dropped by every change that goes through, and by the
  // fallback to bot mode; only a refusal keeps it.
  lemma ModeChangeSettlesStart(s: State, player: bool, canEnable: bool, attached: bool)
    ensures Step(s, ModeSet(player, canEnable, attached)).startInPlayer <==>
            s.startInPlayer && player && (!canEnable || (!attached && !s.disguised))
  {
    assert Step(s, ModeSet(player, canEnable, attached)) == SetMode(s, player, canEnable, attached);
    hide ShowAll;
  }
}
