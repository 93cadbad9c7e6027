/** Well-nested runs: a hooked call, what happens inside it, and what comes after. */
module PopulationTraces {
  import opened Prelude
  import opened Engine
  import opened Manager
  import opened ScopedRestore
  import opened ScopeLaws
  import opened Disguise
  import opened Packing
  import opened Population

  // What is not a hooked call.
  type Act = e: Event | !e.PreCall? && !e.PostCall? witness LevelEnd

  datatype Trace =
    | Done
    | Then(act: Act, rest: Trace)
    | ThenCall(call: Call, inner: Trace, rest: Trace)

  // The events of a trace in order.
  function Flatten(t: Trace): seq<Event> {
    match t
    case Done => []
    case Then(act, rest) => [act] + Flatten(rest)
    case ThenCall(c, inner, rest) => [PreCall(c)] + Flatten(inner) + [PostCall(c.Kind())] + Flatten(rest)
  }

  // Same frames on every stack, same counters, and the same snapshots behind them.
  ghost predicate SameFrames(s: State, t: State) {
    t == s.(world := t.world, slots := t.slots, disguised := t.disguised, startInPlayer := t.startInPlayer)
  }

  lemma ActKeeps(s: State, act: Act)
    requires Inv(s)
    ensures Inv(Step(s, act)) && SameFrames(s, Step(s, act))
  {
    StepKeeps(s, act);
    if act.ModeSet? {
      ModeSetKeeps(s, act.player, act.canEnable, act.attached);
    } else if act.LevelBegin? {
      ModeSetKeeps(s, false, act.canEnable, act.attached);
      ModeSetKeeps(s, true, act.canEnable, act.attached);
    }
    hide SetMode, Inv;
  }

  // What a trace does. After every call the frames are what they were before it.
  function Play(s: State, t: Trace): (s': State)
    requires Inv(s)
    ensures Inv(s') && SameFrames(s, s')
    decreases t, 0
  {
    match t
    case Done => s
    case Then(act, rest) =>
      ActKeeps(s, act);
      Play(Step(s, act), rest)
    case ThenCall(c, inner, rest) =>
      Play(After(s, c, inner), rest)
  }

  // The state in which a call returns, before its hook's second half.
  function Inside(s: State, c: Call, inner: Trace): (mid: State)
    requires Inv(s)
    ensures Inv(mid) && SameFrames(Pre(s, c), mid)
    decreases inner, 1
  {
    PreKeeps(s, c);
    Play(Pre(s, c), inner)
  }

  function After(s: State, c: Call, inner: Trace): (s': State)
    requires Inv(s)
    ensures Inv(s') && SameFrames(s, s')
    decreases inner, 2
  {
    var mid := Inside(s, c, inner);
    PreOpens(s, c, mid);
    PostKeeps(mid, c.Kind());
    PostCloses(s, c, mid);
    Post(mid, c.Kind())
  }

  lemma PreOpens(s: State, c: Call, mid: State)
    requires SameFrames(Pre(s, c), mid)
    ensures IsOpen(mid, c.Kind())
  {
    hide CaptureFrame, Capture, HideAll, Enabled;
  }

  // The second half of a hook pops what its first half pushed.
  lemma PostCloses(s: State, c: Call, mid: State)
    requires Inv(s) && SameFrames(Pre(s, c), mid)
    ensures IsOpen(mid, c.Kind()) && SameFrames(s, Post(mid, c.Kind()))
  {
    PreOpens(s, c, mid);
    if IsPopulation(c.Kind()) {
      PopulationCloses(s, c.Kind(), Enabled(s, c), mid);
    }
    assert c.OnPack? && s.packDepth > 0 ==> !Enabled(s, c);
    hide HideAll, ShowBots, Enabled, CaptureFrame, RestoreFrame, PrePopulation, PostPopulation, CountTrue,
      EnabledFrames, NativeFrames;
  }

  // An enabled transaction leaves the world as it finds it, unless it is the outermost: that one
  // closes with the snapshot of its own opening and then shows the bots in the mode now in force.
  lemma PopulationCloses(s: State, k: Kind, enabled: bool, mid: State)
    requires Inv(s) && IsPopulation(k) && SameFrames(PrePopulation(s, k, enabled), mid)
    ensures Stack(mid.frames, k) != [] && SameFrames(s, PostPopulation(mid, k))
    ensures PostPopulation(mid, k).slots == mid.slots
    ensures PostPopulation(mid, k).world ==
              if !enabled || s.depth > 0 then mid.world
              else ShowAll(Closed(s.world, s.slots, mid.world, mid.slots), mid.slots, mid.disguised, MAX_SLOTS)
  {
    hide Stack, WithStack, Begin, CountTrue, EnabledFrames, NativeFrames, ShowAll, Capture, Restore;
    var stack := Stack(s.frames, k);
    StackChanges(s.frames, k, stack + [enabled]);
    assert Front(stack + [enabled]) == stack && Back(stack + [enabled]) == enabled;
    var s1 := s.(frames := WithStack(s.frames, k, stack + [enabled]));
    var s2 := if k.Command? then s1 else s1.(hookDepth := s.hookDepth + 1);
    BeginState(s2, true);
    if enabled {
      var m1 := mid.(frames := s.frames);
      EndState(m1, if k.Command? then mid.disguised else true);
      assert s.depth == 0 ==> Dropped(m1).world == Closed(s.world, s.slots, mid.world, mid.slots);
      assert End(m1, if k.Command? then mid.disguised else true).world ==
        if s.depth > 0 then mid.world
        else ShowAll(Closed(s.world, s.slots, mid.world, mid.slots), mid.slots, mid.disguised, MAX_SLOTS);
      hide End;
    }
  }

  lemma RunFirst(s: State, e: Event, es: seq<Event>, all: seq<Event>)
    requires Inv(s) && Allowed(s, e) && all == [e] + es
    requires Inv(Step(s, e)) && Legal(Step(s, e), es)
    ensures Legal(s, all) && Run(s, all) == Run(Step(s, e), es)
  {
    hide Inv, Step, Allowed;
    assert all[0] == e && all[1..] == es;
  }

  // The events of a trace are a legal run, and lead where the trace leads.
  lemma {:induction false} FlattenRuns(s: State, t: Trace, es: seq<Event>)
    requires Inv(s)
    requires Legal(Play(s, t), es)
    ensures Legal(s, Flatten(t) + es)
    ensures Run(s, Flatten(t) + es) == Run(Play(s, t), es)
    decreases t, 1
  {
    hide Inv, Step, Legal, Run, SameFrames, After;
    match t
    case Done => assert Flatten(t) + es == es;
    case Then(act, rest) =>
      ActKeeps(s, act);
      FlattenRuns(Step(s, act), rest, es);
      RunFirst(s, act, Flatten(rest) + es, Flatten(t) + es);
    case ThenCall(c, inner, rest) =>
      CallRuns(s, c, inner, rest, es);
      assert Flatten(t) + es == [PreCall(c)] + (Flatten(inner) + ([PostCall(c.Kind())] + (Flatten(rest) + es)));
  }

  lemma {:induction false} CallRuns(s: State, c: Call, inner: Trace, rest: Trace, es: seq<Event>)
    requires Inv(s)
    requires Legal(Play(After(s, c, inner), rest), es)
    ensures var all := [PreCall(c)] + (Flatten(inner) + ([PostCall(c.Kind())] + (Flatten(rest) + es)));
            Legal(s, all) && Run(s, all) == Run(Play(After(s, c, inner), rest), es)
    decreases ThenCall(c, inner, rest), 0
  {
    hide Inv, Pre, Post, SetMode, Legal, Run, SameFrames, Flatten;
    var last, tail := PostCall(c.Kind()), Flatten(rest) + es;
    var mid := Inside(s, c, inner);
    FlattenRuns(After(s, c, inner), rest, es);
    PreOpens(s, c, mid);
    RunFirst(mid, last, tail, [last] + tail);
    PreKeeps(s, c);
    FlattenRuns(Pre(s, c), inner, [last] + tail);
    RunFirst(s, PreCall(c), Flatten(inner) + ([last] + tail), [PreCall(c)] + (Flatten(inner) + ([last] + tail)));
  }

  // A voter count or a script check closes with the snapshot of its own opening, at any depth of
  // nesting and whatever the mode is by then.
  lemma ScopesCloseTheirOwn(s: State, c: Call, inner: Trace)
    requires Inv(s) && (c.OnVoters? || c.OnScript?)
    ensures var mid := Inside(s, c, inner);
            After(s, c, inner).world ==
              if s.disguised then Closed(s.world, s.slots, mid.world, mid.slots) else mid.world
  {
    hide CountTrue, EnabledFrames, NativeFrames, Capture, Restore, HideAll, ShowBots, PrePopulation, PostPopulation;
    assert Pre(s, c).slots == s.slots;
  }

  // A transaction inside another one does nothing to the world; the outermost one closes with its
  // own snapshot and then shows every bot in the mode in force.
  lemma TransactionsCloseTheirOwn(s: State, c: Call, inner: Trace)
    requires Inv(s) && IsPopulation(c.Kind())
    ensures var mid := Inside(s, c, inner);
            After(s, c, inner).world ==
              if !Enabled(s, c) || s.depth > 0 then mid.world
              else ShowAll(Closed(s.world, s.slots, mid.world, mid.slots), mid.slots, mid.disguised, MAX_SLOTS)
  {
    PreWorld(s, c);
    PopulationCloses(s, c.Kind(), Enabled(s, c), Inside(s, c, inner));
    hide Enabled, PrePopulation, PostPopulation, Closed, ShowAll, CaptureFrame, RestoreFrame, HideAll, ShowBots;
  }

  // Nested packs do nothing; the outermost one restores what it hid, even if the mode has changed.
  lemma PacksCloseTheirOwn(s: State, inner: Trace)
    requires Inv(s)
    ensures var mid := Inside(s, OnPack, inner);
            After(s, OnPack, inner).world ==
              if s.packDepth > 0 || !s.disguised then mid.world
              else var refs := HideAll(s.world, s.slots, MAX_SLOTS).1; ShowBots(mid.world, refs, |refs|)
  {
    hide Pre, Post, Inside, HideAll, ShowBots, Inv;
    var mid := Inside(s, OnPack, inner);
    PackPre(s);
    PackPost(mid);
    assert After(s, OnPack, inner) == Post(mid, Pack);
    hide After;
    NoBotsToShow(mid.world);
  }

  lemma PackPre(s: State)
    requires Inv(s)
    ensures Pre(s, OnPack).packDepth == s.packDepth + 1
    ensures s.packDepth == 0 ==>
              Pre(s, OnPack).packed == if s.disguised then HideAll(s.world, s.slots, MAX_SLOTS).1 else []
  {
    hide HideAll, CountTrue, EnabledFrames, NativeFrames;
  }

  lemma PackPost(s: State)
    requires s.packDepth > 0
    ensures Post(s, Pack).world == if s.packDepth == 1 then ShowBots(s.world, s.packed, |s.packed|) else s.world
  {
  }

  lemma NoBotsToShow(w: World)
    ensures ShowBots(w, [], 0) == w
  {
  }

  // From the outermost pack in player mode on, no managed pawn carries FL_BOT; once it is over, an
  // entity that lives on carries it as it did before, if what happened in between left it alone.
  lemma PackKeepsBotFlags(s: State, inner: Trace, e: int)
    requires Inv(s) && s.packDepth == 0 && s.disguised
    requires var mid := Inside(s, OnPack, inner);
             var hidden := Pre(s, OnPack).world;
             && LivesOn(s.world, mid.world, e) && e in hidden.entities
             && (CarriesBot(mid.world.entities[e].flags) <==> CarriesBot(hidden.entities[e].flags))
    ensures forall i :: IsSlot(i) && s.slots[i].managed && PawnOf(s.world, ResolveClient(s.world, i)).Some? ==>
              var hidden := Pre(s, OnPack).world;
              var pawn := PawnOf(hidden, ResolveClient(hidden, i));
              pawn.Some? && EntryIndex(pawn.value.handle) in hidden.entities &&
              !CarriesBot(hidden.entities[EntryIndex(pawn.value.handle)].flags)
    ensures var after := After(s, OnPack, inner).world;
            e in after.entities && (CarriesBot(after.entities[e].flags) <==> CarriesBot(s.world.entities[e].flags))
  {
    PreWorld(s, OnPack);
    PacksCloseTheirOwn(s, inner);
    hide Pre, Inside, After, HideAll, ShowBots, CarriesBot, PawnOf;
    forall i | IsSlot(i) && s.slots[i].managed && PawnOf(s.world, ResolveClient(s.world, i)).Some?
      ensures var hidden := Pre(s, OnPack).world;
              var pawn := PawnOf(hidden, ResolveClient(hidden, i));
              pawn.Some? && EntryIndex(pawn.value.handle) in hidden.entities &&
              !CarriesBot(hidden.entities[EntryIndex(pawn.value.handle)].flags)
    {
      NoManagedPawnIsBot(s.world, s.slots, i);
    }
    PackKeepsBotFlag(s.world, s.slots, Inside(s, OnPack, inner).world, e);
  }

  // The world right after the first half of a hook.
  lemma PreWorld(s: State, c: Call)
    ensures var k := c.Kind();
            && Pre(s, c).slots == s.slots
            && (k.Voters? || k.Script? ==>
                  Pre(s, c).world == if s.disguised then Capture(s.world, s.slots, MAX_SLOTS).0 else s.world)
            && (k.Pack? ==>
                  Pre(s, c).world ==
                    if s.disguised && s.packDepth == 0 then HideAll(s.world, s.slots, MAX_SLOTS).0 else s.world)
            && (IsPopulation(k) ==>
                  Pre(s, c).world ==
                    if s.depth == 0 && Enabled(s, c) then Capture(s.world, s.slots, MAX_SLOTS).0 else s.world)
  {
    hide Capture, HideAll, Enabled;
    if IsPopulation(c.Kind()) {
      PrePopulationWorld(s, c.Kind(), Enabled(s, c));
      hide PrePopulation;
    } else if c.OnPack? {
      assert Enabled(s, c) <==> s.disguised && s.packDepth == 0 by { EnabledPack(s); }
    }
  }

  lemma EnabledPack(s: State)
    ensures Enabled(s, OnPack) <==> s.disguised && s.packDepth == 0
  {
  }

  lemma PrePopulationWorld(s: State, k: Kind, enabled: bool)
    requires IsPopulation(k)
    ensures PrePopulation(s, k, enabled).slots == s.slots
    ensures PrePopulation(s, k, enabled).world ==
              if s.depth == 0 && enabled then Capture(s.world, s.slots, MAX_SLOTS).0 else s.world
  {
    hide Stack, WithStack, Capture;
  }
}
