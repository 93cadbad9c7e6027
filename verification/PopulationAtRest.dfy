/** How a bot looks over well-nested runs, and which mode it shows when all calls have returned. */
module PopulationAtRest {
  import opened Prelude
  import opened Engine
  import opened Manager
  import opened ScopedRestore
  import opened ScopeLaws
  import opened Disguise
  import opened Packing
  import opened Population
  import opened PopulationTraces

  lemma SameMark(a: bv32, b: bv32)
    requires WithoutBot(a) == WithoutBot(b)
    ensures Mark(a) == a <==> Mark(b) == b
  {
    MarkOfWithoutBot(a);
    MarkOfWithoutBot(b);
  }

  lemma MarkOfWithoutBot(a: bv32)
    ensures Mark(a) == a <==> WithoutBot(a) & FLAG_FAKE_CLIENT != 0
  {
  }

  // FL_BOT is no part of the face.
  lemma BotFlagIsNotFace(w: World, v: World, slots: Slots, i: nat, whole: bool)
    requires SameShape(w, v) && v.clients == w.clients && IsHeld(w, slots, i)
    requires forall e :: e in w.entities ==> WithoutBot(v.entities[e].flags) == WithoutBot(w.entities[e].flags)
    ensures Unchanged(w, slots, v, slots, i, whole)
  {
    var c := w.clients[i].value;
    SameBindingsAreBound(w, v, slots, i, whole);
    ControllerInShape(w, v, c);
    if LiveController(w, c).Some? {
      SameMark(w.entities[c.entityIndex].flags, v.entities[c.entityIndex].flags);
    }
    hide Mark, WithoutBot, Bound;
  }

  lemma HidingKeepsFace(w: World, slots: Slots, i: nat, whole: bool)
    requires IsHeld(w, slots, i)
    ensures Unchanged(w, slots, HideAll(w, slots, MAX_SLOTS).0, slots, i, whole)
  {
    hide HideAll, HasPawnBelow, Unchanged, WithoutBot, CarriesBot;
    var v := HideAll(w, slots, MAX_SLOTS).0;
    HideTable(w, slots, MAX_SLOTS);
    forall e | e in w.entities ensures WithoutBot(v.entities[e].flags) == WithoutBot(w.entities[e].flags) {
      WithoutBotTwice(w.entities[e].flags);
    }
    BotFlagIsNotFace(w, v, slots, i, whole);
  }

  lemma ShowingKeepsFace(w: World, refs: seq<PawnRef>, slots: Slots, i: nat, whole: bool)
    requires IsHeld(w, slots, i)
    ensures Unchanged(w, slots, ShowBots(w, refs, |refs|), slots, i, whole)
  {
    hide ShowBots, RevivedBelow, Unchanged, WithBot, WithoutBot;
    var v := ShowBots(w, refs, |refs|);
    ShowBotsTable(w, refs, |refs|);
    forall e | e in w.entities ensures WithoutBot(v.entities[e].flags) == WithoutBot(w.entities[e].flags) {
      BotBits(w.entities[e].flags);
    }
    BotFlagIsNotFace(w, v, slots, i, whole);
  }

  lemma ShownKeepsBinding(c: Client, steamId: uint64, disguised: bool)
    ensures var d := Shown(c, steamId, disguised);
            d.id == c.id && d.userId == c.userId && d.entityIndex == c.entityIndex
    ensures Shown(c, steamId, disguised).fakePlayer == if disguised then 0 else 1
  {
  }

  lemma MarkFollows(flags: bv32, fakeClient: bool)
    ensures Mark(WithFakeClient(flags, fakeClient)) == WithFakeClient(flags, fakeClient) <==> fakeClient
  {
  }

  // The disguise shows a slot as the mode asks, and leaves its binding alone.
  lemma ShowAllShows(w: World, slots: Slots, disguised: bool, i: nat, whole: bool)
    requires IsHeld(w, slots, i)
    ensures var v := ShowAll(w, slots, disguised, MAX_SLOTS);
            Bound(w, slots, v, slots, i, whole) && Looks(v, i, disguised, whole)
  {
    var v := ShowAll(w, slots, disguised, MAX_SLOTS);
    ShowTable(w, slots, disguised, MAX_SLOTS);
    hide ShowAll, LedBelow, Shown, WithFakeClient, Mark;
    var c := w.clients[i].value;
    forall j | 0 <= j < |w.clients| && w.clients[j].Some? && j < MAX_SLOTS
      ensures v.clients[j].Some? && v.clients[j].value.id == w.clients[j].value.id
      ensures v.clients[j].value.userId == w.clients[j].value.userId
      ensures v.clients[j].value.entityIndex == w.clients[j].value.entityIndex
    {
      ShownKeepsBinding(w.clients[j].value, slots[j].steamId, disguised);
    }
    SameBindingsAreBound(w, v, slots, i, whole);
    ShownKeepsBinding(c, slots[i].steamId, disguised);
    ShownBits(c, slots[i].steamId, disguised);
    ControllerInShape(w, v, c);
    if LiveController(w, c).Some? {
      LedByItself(w, slots, i);
      MarkFollows(w.entities[c.entityIndex].flags, !disguised);
    }
    assert LiveController(v, v.clients[i].value) == LiveController(v, c);
    hide Bound, SameBindings;
  }

  lemma LedByItself(w: World, slots: Slots, i: nat)
    requires IsHeld(w, slots, i) && LiveController(w, w.clients[i].value).Some?
    ensures LedBelow(w, slots, w.clients[i].value.entityIndex, MAX_SLOTS)
  {
    assert Leads(w, slots, i, w.clients[i].value.entityIndex);
  }

  // What others do to slot i between hook events: its look stays, and so does the mode.
  ghost predicate IsGentle(s: State, act: Act, i: nat, whole: bool) {
    match act
    case Other(w, slots, disguised) => disguised == s.disguised && Unchanged(s.world, s.slots, w, slots, i, whole)
    case LevelEnd => !s.disguised
    case _ => true
  }

  ghost predicate Gentle(s: State, t: Trace, i: nat, whole: bool)
    requires Inv(s)
    decreases t
  {
    match t
    case Done => true
    case Then(act, rest) =>
      ActKeeps(s, act);
      IsGentle(s, act, i, whole) && Gentle(Step(s, act), rest, i, whole)
    case ThenCall(c, inner, rest) =>
      PreKeeps(s, c);
      Gentle(Pre(s, c), inner, i, whole) && Gentle(After(s, c, inner), rest, i, whole)
  }

  // The call shows the bots as bots while it lasts.
  predicate Opens(s: State, c: Call) {
    Enabled(s, c) && !c.OnPack? && (IsPopulation(c.Kind()) ==> s.depth == 0)
  }

  // How a slot looks after one act, if it looks human, or not, before.
  function ShownAfterAct(s: State, act: Act, human: bool): bool {
    if Step(s, act).disguised != s.disguised then Step(s, act).disguised else human
  }

  // How it looks after a call: before, it looked human or not; it looked as `last` says, in the mode
  // given, when the call returned.
  function ShownAfterCall(s: State, c: Call, human: bool, last: bool, disguised: bool): bool {
    if !Opens(s, c) then last
    else if IsPopulation(c.Kind()) then disguised
    else human || last
  }

  // How it looks after a trace.
  function ShownAfter(s: State, t: Trace, human: bool): bool
    requires Inv(s)
    decreases t
  {
    match t
    case Done => human
    case Then(act, rest) =>
      ActKeeps(s, act);
      ShownAfter(Step(s, act), rest, ShownAfterAct(s, act, human))
    case ThenCall(c, inner, rest) =>
      PreKeeps(s, c);
      var last := ShownAfter(Pre(s, c), inner, human && !Opens(s, c));
      ShownAfter(After(s, c, inner), rest, ShownAfterCall(s, c, human, last, Inside(s, c, inner).disguised))
  }

  // From s to t slot i keeps its binding, and in t it looks human or not.
  ghost predicate IsSeen(s: State, t: State, i: nat, human: bool, whole: bool) {
    Bound(s.world, s.slots, t.world, t.slots, i, whole) && Looks(t.world, i, human, whole)
  }

  lemma ModeSetShows(s: State, player: bool, canEnable: bool, attached: bool, i: nat, human: bool, whole: bool)
    requires IsSeen(s, s, i, human, whole)
    ensures var s' := SetMode(s, player, canEnable, attached);
            IsSeen(s, s', i, if s'.disguised != s.disguised then s'.disguised else human, whole)
  {
    ShowAllShows(s.world, s.slots, false, i, whole);
    ShowAllShows(s.world, s.slots, true, i, whole);
    hide ShowAll, Bound, Looks;
  }

  lemma ActShows(s: State, act: Act, i: nat, human: bool, whole: bool)
    requires IsSeen(s, s, i, human, whole) && IsGentle(s, act, i, whole)
    ensures IsSeen(s, Step(s, act), i, ShownAfterAct(s, act, human), whole)
  {
    match act
    case ModeSet(player, canEnable, attached) =>
      ModeSetShows(s, player, canEnable, attached, i, human, whole);
      hide SetMode, IsSeen;
    case LevelBegin(canEnable, attached) =>
      ModeSetShows(s, false, canEnable, attached, i, human, whole);
      ModeSetShows(s, true, canEnable, attached, i, human, whole);
      hide SetMode, IsSeen;
    case LevelEnd =>
    case Other(w, slots, disguised) => UnchangedLooks(s.world, s.slots, w, slots, i, human, whole);
  }

  lemma PreShows(s: State, c: Call, i: nat, human: bool, whole: bool)
    requires IsSeen(s, s, i, human, whole)
    ensures IsSeen(s, Pre(s, c), i, human && !Opens(s, c), whole) && Pre(s, c).disguised == s.disguised
  {
    hide Pre, Capture, HideAll, FaceOf, Enabled, Looks, Bound;
    HeldAtEnd(s, s, i, human, whole);
    PreWorld(s, c);
    EnabledNeedsPlayer(s, c);
    OpeningLooks(s.world, s.slots, i, whole);
    HidingKeepsFace(s.world, s.slots, i, whole);
    UnchangedLooks(s.world, s.slots, HideAll(s.world, s.slots, MAX_SLOTS).0, s.slots, i, human, whole);
    if c.OnVoters? || c.OnScript? {
      EnabledScope(s, c);
    }
    PreModes(s, c);
  }

  lemma HeldAtEnd(s: State, t: State, i: nat, human: bool, whole: bool)
    requires IsSeen(s, t, i, human, whole)
    ensures IsHeld(s.world, s.slots, i) && IsHeld(t.world, t.slots, i)
  {
  }

  lemma OpeningLooks(w: World, slots: Slots, i: nat, whole: bool)
    requires IsHeld(w, slots, i)
    ensures var v := Capture(w, slots, MAX_SLOTS).0; Bound(w, slots, v, slots, i, whole) && Looks(v, i, false, whole)
  {
    OpeningShowsBot(w, slots, i);
    hide Capture;
  }

  lemma UnchangedLooks(w: World, slots: Slots, v: World, now: Slots, i: nat, human: bool, whole: bool)
    requires Unchanged(w, slots, v, now, i, whole) && Looks(w, i, human, whole)
    ensures Bound(w, slots, v, now, i, whole) && Looks(v, i, human, whole)
  {
    hide SameSharers;
  }

  lemma AfterModes(s: State, c: Call, inner: Trace)
    requires Inv(s)
    ensures After(s, c, inner).slots == Inside(s, c, inner).slots
    ensures After(s, c, inner).disguised == Inside(s, c, inner).disguised
  {
    PostModes(Inside(s, c, inner), c.Kind());
    hide Inv, Inside, Post;
  }

  lemma CallShows(s: State, c: Call, inner: Trace, i: nat, human: bool, last: bool, whole: bool)
    requires Inv(s) && IsSeen(s, s, i, human, whole) && IsSeen(Pre(s, c), Inside(s, c, inner), i, last, whole)
    ensures IsSeen(s, After(s, c, inner), i, ShownAfterCall(s, c, human, last, Inside(s, c, inner).disguised), whole)
  {
    hide IsSeen, Pre, Inside, After, Inv, Enabled;
    var mid := Inside(s, c, inner);
    PreShows(s, c, i, human, whole);
    AfterModes(s, c, inner);
    BindingsChain(s, Pre(s, c), mid, i, human && !Opens(s, c), last, whole);
    if c.OnVoters? || c.OnScript? {
      ScopesCloseTheirOwn(s, c, inner);
      EnabledScope(s, c);
      if s.disguised {
        ScopeShows(s, mid, After(s, c, inner), i, human, last, whole);
      } else {
        SeenInWorld(s, mid, After(s, c, inner), i, last, whole);
      }
    } else if c.OnPack? {
      PacksCloseTheirOwn(s, inner);
      PackShows(s, mid, After(s, c, inner), i, last, whole);
    } else {
      TransactionsCloseTheirOwn(s, c, inner);
      if Opens(s, c) {
        TransactionShows(s, mid, After(s, c, inner), i, human, last, whole);
      } else {
        SeenInWorld(s, mid, After(s, c, inner), i, last, whole);
      }
    }
  }

  lemma EnabledScope(s: State, c: Call)
    requires c.OnVoters? || c.OnScript?
    ensures Enabled(s, c) <==> s.disguised
  {
  }

  lemma SeenInWorld(s: State, mid: State, t: State, i: nat, last: bool, whole: bool)
    requires IsSeen(s, mid, i, last, whole) && t.world == mid.world && t.slots == mid.slots
    ensures IsSeen(s, t, i, last, whole)
  {
  }

  lemma ScopeShows(s: State, mid: State, t: State, i: nat, human: bool, last: bool, whole: bool)
    requires IsSeen(s, s, i, human, whole) && IsSeen(s, mid, i, last, whole)
    requires t.slots == mid.slots && t.world == Closed(s.world, s.slots, mid.world, mid.slots)
    ensures IsSeen(s, t, i, human || last, whole)
  {
    hide Bound, Looks, Closed;
    ClosingShows(s.world, s.slots, mid.world, mid.slots, i, human, last, whole);
  }

  lemma PackShows(s: State, mid: State, t: State, i: nat, last: bool, whole: bool)
    requires IsSeen(s, mid, i, last, whole) && t.slots == mid.slots
    requires t.world == mid.world || exists refs :: t.world == ShowBots(mid.world, refs, |refs|)
    ensures IsSeen(s, t, i, last, whole)
  {
    hide Bound, Looks, ShowBots;
    if t.world != mid.world {
      var refs :| t.world == ShowBots(mid.world, refs, |refs|);
      HeldAtEnd(s, mid, i, last, whole);
      ShowingKeepsFace(mid.world, refs, mid.slots, i, whole);
      UnchangedLooks(mid.world, mid.slots, t.world, t.slots, i, last, whole);
      BoundChain(s.world, s.slots, mid.world, mid.slots, t.world, t.slots, i, whole);
    }
  }

  lemma TransactionShows(s: State, mid: State, t: State, i: nat, human: bool, last: bool, whole: bool)
    requires IsSeen(s, s, i, human, whole) && IsSeen(s, mid, i, last, whole) && t.slots == mid.slots
    requires t.world == ShowAll(Closed(s.world, s.slots, mid.world, mid.slots), mid.slots, mid.disguised, MAX_SLOTS)
    ensures IsSeen(s, t, i, mid.disguised, whole)
  {
    hide Looks, ShowAll, Closed, SameBinding, SameSharers;
    var closed := Closed(s.world, s.slots, mid.world, mid.slots);
    ClosingShows(s.world, s.slots, mid.world, mid.slots, i, human, last, whole);
    assert IsHeld(closed, mid.slots, i);
    hide Bound;
    ShowAllShows(closed, mid.slots, mid.disguised, i, whole);
    BoundChain(s.world, s.slots, closed, mid.slots, t.world, t.slots, i, whole);
  }

  lemma BindingsChain(s: State, t: State, u: State, i: nat, human: bool, last: bool, whole: bool)
    requires IsSeen(s, t, i, human, whole) && IsSeen(t, u, i, last, whole)
    ensures IsSeen(s, u, i, last, whole) && IsSeen(u, u, i, last, whole)
  {
    BoundChain(s.world, s.slots, t.world, t.slots, u.world, u.slots, i, whole);
    BoundAtEnd(t.world, t.slots, u.world, u.slots, i, whole);
    hide Bound, Looks;
  }

  lemma BoundAtEnd(w: World, slots: Slots, v: World, now: Slots, i: nat, whole: bool)
    requires Bound(w, slots, v, now, i, whole)
    ensures Bound(v, now, v, now, i, whole)
  {
    hide FaceOf;
  }

  // Slot i looks at the end of a trace as the trace says, whatever else happened.
  lemma {:induction false} TraceShows(s: State, t: Trace, i: nat, human: bool, whole: bool)
    requires Inv(s) && IsSeen(s, s, i, human, whole) && Gentle(s, t, i, whole)
    ensures IsSeen(s, Play(s, t), i, ShownAfter(s, t, human), whole)
    decreases t
  {
    hide Inv, IsSeen, IsGentle, Opens, Step, Pre, After, Inside, ShownAfterAct, ShownAfterCall, SameFrames;
    match t
    case Done =>
    case Then(act, rest) =>
      ActKeeps(s, act);
      ActShows(s, act, i, human, whole);
      var s1, h1 := Step(s, act), ShownAfterAct(s, act, human);
      BindingsChain(s, s, s1, i, human, h1, whole);
      TraceShows(s1, rest, i, h1, whole);
      BindingsChain(s, s1, Play(s1, rest), i, h1, ShownAfter(s1, rest, h1), whole);
    case ThenCall(c, inner, rest) =>
      CallTraceShows(s, c, inner, rest, i, human, whole);
  }

  lemma {:induction false} CallTraceShows(s: State, c: Call, inner: Trace, rest: Trace, i: nat, human: bool,
                                          whole: bool)
    requires Inv(s) && IsSeen(s, s, i, human, whole) && Gentle(s, ThenCall(c, inner, rest), i, whole)
    ensures IsSeen(s, Play(After(s, c, inner), rest), i, ShownAfter(s, ThenCall(c, inner, rest), human), whole)
    decreases ThenCall(c, inner, rest), 0
  {
    hide Inv, IsSeen, IsGentle, Opens, Step, Pre, After, ShownAfterAct, ShownAfterCall, SameFrames;
    PreKeeps(s, c);
    var s1, h1 := Pre(s, c), human && !Opens(s, c);
    PreShows(s, c, i, human, whole);
    BindingsChain(s, s, s1, i, human, h1, whole);
    TraceShows(s1, inner, i, h1, whole);
    var last := ShownAfter(s1, inner, h1);
    CallShows(s, c, inner, i, human, last, whole);
    var s2, h2 := After(s, c, inner), ShownAfterCall(s, c, human, last, Inside(s, c, inner).disguised);
    hide Inside;
    BindingsChain(s, s, s2, i, human, h2, whole);
    TraceShows(s2, rest, i, h2, whole);
    BindingsChain(s, s2, Play(s2, rest), i, h2, ShownAfter(s2, rest, h2), whole);
  }

  // A voter or script scope that opened in player mode has closed in bot mode, and showed the human
  // again, and neither a mode change nor a transaction has come since.
  ghost predicate Stale(s: State, t: Trace, stale: bool)
    requires Inv(s)
    decreases t
  {
    match t
    case Done => stale
    case Then(act, rest) =>
      ActKeeps(s, act);
      Stale(Step(s, act), rest, stale && Step(s, act).disguised == s.disguised)
    case ThenCall(c, inner, rest) =>
      PreKeeps(s, c);
      var s' := After(s, c, inner);
      Stale(s', rest, if !Opens(s, c) then Stale(Pre(s, c), inner, stale) else !IsPopulation(c.Kind()) && !s'.disguised)
  }

  lemma {:induction false} StaleDecides(s: State, t: Trace, stale: bool)
    requires Inv(s) && (stale ==> !s.disguised)
    ensures ShownAfter(s, t, s.disguised || stale) == (Play(s, t).disguised || Stale(s, t, stale))
    ensures Stale(s, t, stale) ==> !Play(s, t).disguised
    decreases t
  {
    hide Inv, Step, Pre, After, Enabled, SameFrames;
    match t
    case Done =>
    case Then(act, rest) =>
      ActKeeps(s, act);
      StaleDecides(Step(s, act), rest, stale && Step(s, act).disguised == s.disguised);
    case ThenCall(c, inner, rest) =>
      PreKeeps(s, c);
      AfterModes(s, c, inner);
      PreModes(s, c);
      EnabledNeedsPlayer(s, c);
      var s' := After(s, c, inner);
      if !Opens(s, c) {
        StaleDecides(Pre(s, c), inner, stale);
        StaleDecides(s', rest, Stale(Pre(s, c), inner, stale));
      } else {
        StaleDecides(s', rest, !IsPopulation(c.Kind()) && !s'.disguised);
      }
  }

  lemma EnabledNeedsPlayer(s: State, c: Call)
    ensures Enabled(s, c) ==> s.disguised
  {
  }

  lemma PreModes(s: State, c: Call)
    ensures Pre(s, c).disguised == s.disguised
  {
    hide Capture, HideAll, Enabled;
  }

  lemma PostModes(s: State, k: Kind)
    requires IsOpen(s, k)
    ensures Post(s, k).slots == s.slots && Post(s, k).disguised == s.disguised
  {
    hide Restore, ShowAll, ShowBots;
  }

  // A slot that shows the mode in force at the beginning of a well-nested trace shows the mode in
  // force at its end if and only if no voter or script scope closed over a change to bot mode that
  // no later change or transaction made good. Transactions, scopes and packs nest as they like. It is
  // so for the client, whoever shares its controller, and for the whole slot as long as no slot that
  // shares the controller comes or goes.
  lemma TraceEndsInMode(s: State, t: Trace, i: nat, whole: bool)
    requires Inv(s) && Gentle(s, t, i, whole)
    requires IsHeld(s.world, s.slots, i) && Looks(s.world, i, s.disguised, whole)
    ensures var s' := Play(s, t);
            && Bound(s.world, s.slots, s'.world, s'.slots, i, whole)
            && (Looks(s'.world, i, s'.disguised, whole) <==> !Stale(s, t, false))
  {
    SeenAtStart(s, i, s.disguised, whole);
    TraceShows(s, t, i, s.disguised, whole);
    StaleDecides(s, t, false);
    hide Play, ShownAfter, Stale, Bound;
  }

  // What others do leaves slot i looking as it did, or, around an outermost transaction, the slot
  // looks before as the mode at the end of the transaction asks.
  ghost predicate Tame(s: State, t: Trace, i: nat, whole: bool)
    requires Inv(s)
    decreases t
  {
    match t
    case Done => true
    case Then(act, rest) =>
      ActKeeps(s, act);
      Unchanged(s.world, s.slots, Step(s, act).world, Step(s, act).slots, i, whole) &&
      Tame(Step(s, act), rest, i, whole)
    case ThenCall(c, inner, rest) =>
      PreKeeps(s, c);
      && (if IsPopulation(c.Kind()) && Opens(s, c)
          then Gentle(Pre(s, c), inner, i, whole) && Looks(s.world, i, After(s, c, inner).disguised, whole)
          else Tame(Pre(s, c), inner, i, whole))
      && Tame(After(s, c, inner), rest, i, whole)
  }

  // Over any such trace, with scopes, packs and transactions nested to any depth, slot i looks at the
  // end as it did at the beginning.
  lemma {:induction false} TraceKeepsFace(s: State, t: Trace, i: nat, whole: bool)
    requires Inv(s) && Tame(s, t, i, whole) && IsHeld(s.world, s.slots, i)
    ensures Unchanged(s.world, s.slots, Play(s, t).world, Play(s, t).slots, i, whole)
    decreases t
  {
    hide Inv, Unchanged, IsHeld, Looks, Enabled, Pre, Post, Step, SameFrames, After;
    match t
    case Done => UnchangedAtStart(s.world, s.slots, i, whole);
    case Then(act, rest) =>
      ActKeeps(s, act);
      var s1 := Step(s, act);
      UnchangedHolds(s.world, s.slots, s1.world, s1.slots, i, whole);
      TraceKeepsFace(s1, rest, i, whole);
      UnchangedChain(s, s1, Play(s1, rest), i, whole);
    case ThenCall(c, inner, rest) =>
      PreKeeps(s, c);
      var s1 := After(s, c, inner);
      if IsPopulation(c.Kind()) && Opens(s, c) {
        TransactionKeepsFace(s, c, inner, i, whole);
      } else {
        PreKeepsHeld(s, c, i);
        TraceKeepsFace(Pre(s, c), inner, i, whole);
        AfterKeepsFace(s, c, inner, i, whole);
      }
      UnchangedHolds(s.world, s.slots, s1.world, s1.slots, i, whole);
      TraceKeepsFace(s1, rest, i, whole);
      UnchangedChain(s, s1, Play(s1, rest), i, whole);
  }

  lemma UnchangedAtStart(w: World, slots: Slots, i: nat, whole: bool)
    requires IsHeld(w, slots, i)
    ensures Unchanged(w, slots, w, slots, i, whole)
  {
    hide FaceOf;
  }

  lemma UnchangedHolds(w: World, slots: Slots, v: World, now: Slots, i: nat, whole: bool)
    requires Unchanged(w, slots, v, now, i, whole)
    ensures IsHeld(w, slots, i) && IsHeld(v, now, i)
  {
  }

  lemma UnchangedChain(s: State, t: State, u: State, i: nat, whole: bool)
    requires Unchanged(s.world, s.slots, t.world, t.slots, i, whole)
    requires Unchanged(t.world, t.slots, u.world, u.slots, i, whole)
    ensures Unchanged(s.world, s.slots, u.world, u.slots, i, whole)
  {
    BoundChain(s.world, s.slots, t.world, t.slots, u.world, u.slots, i, whole);
    hide SameSharers, FaceOf, SameBinding;
  }

  lemma TransactionKeepsFace(s: State, c: Call, inner: Trace, i: nat, whole: bool)
    requires Inv(s) && IsHeld(s.world, s.slots, i) && IsPopulation(c.Kind()) && Opens(s, c)
    requires Inv(Pre(s, c)) && Gentle(Pre(s, c), inner, i, whole)
    requires Looks(s.world, i, After(s, c, inner).disguised, whole)
    ensures Unchanged(s.world, s.slots, After(s, c, inner).world, After(s, c, inner).slots, i, whole)
  {
    hide Inv, IsHeld, Enabled, Pre, SameFrames, After, Inside, Looks, IsSeen;
    var human := After(s, c, inner).disguised;
    AfterModes(s, c, inner);
    SeenAtStart(s, i, human, whole);
    PreShows(s, c, i, human, whole);
    BindingsChain(s, s, Pre(s, c), i, human, human && !Opens(s, c), whole);
    TraceShows(Pre(s, c), inner, i, human && !Opens(s, c), whole);
    assert Inside(s, c, inner) == Play(Pre(s, c), inner) by { InsideIsPlay(s, c, inner); }
    CallShows(s, c, inner, i, human, ShownAfter(Pre(s, c), inner, human && !Opens(s, c)), whole);
    hide Opens, Gentle, Play;
    SeenIsUnchanged(s, After(s, c, inner), i, human, whole);
  }

  lemma InsideIsPlay(s: State, c: Call, inner: Trace)
    requires Inv(s)
    ensures Inv(Pre(s, c)) && Inside(s, c, inner) == Play(Pre(s, c), inner)
  {
    PreKeeps(s, c);
    hide Inv, Pre, Play;
  }

  lemma SeenAtStart(s: State, i: nat, human: bool, whole: bool)
    requires IsHeld(s.world, s.slots, i) && Looks(s.world, i, human, whole)
    ensures IsSeen(s, s, i, human, whole)
  {
    hide FaceOf, FaceShows;
  }

  lemma SeenIsUnchanged(s: State, t: State, i: nat, human: bool, whole: bool)
    requires IsSeen(s, t, i, human, whole) && Looks(s.world, i, human, whole)
    ensures Unchanged(s.world, s.slots, t.world, t.slots, i, whole)
  {
    assert IsHeld(t.world, t.slots, i);
    SameIds(s.world, s.slots, t.world, t.slots, i, whole);
    hide FaceOf, SameSharers;
  }

  lemma SameIds(w: World, slots: Slots, v: World, now: Slots, i: nat, whole: bool)
    requires Bound(w, slots, v, now, i, whole)
    ensures FaceOf(w, i).value.id == FaceOf(v, i).value.id && FaceOf(w, i).value.userId == FaceOf(v, i).value.userId
  {
    hide SameSharers, SameBinding;
  }

  lemma PreKeepsHeld(s: State, c: Call, i: nat)
    requires IsHeld(s.world, s.slots, i)
    ensures IsHeld(Pre(s, c).world, Pre(s, c).slots, i)
  {
    PreWorld(s, c);
    hide Pre, Capture, HideAll, Enabled, FaceOf;
    OpeningShowsBot(s.world, s.slots, i);
    HidingKeepsFace(s.world, s.slots, i, false);
  }

  lemma AfterKeepsFace(s: State, c: Call, inner: Trace, i: nat, whole: bool)
    requires Inv(s) && IsHeld(s.world, s.slots, i)
    requires IsPopulation(c.Kind()) ==> !Opens(s, c)
    requires var mid := Inside(s, c, inner); Unchanged(Pre(s, c).world, Pre(s, c).slots, mid.world, mid.slots, i, whole)
    ensures var s' := After(s, c, inner); Unchanged(s.world, s.slots, s'.world, s'.slots, i, whole)
  {
    hide Pre, Inside, After, Inv, Capture, HideAll, ShowBots, Unchanged, IsHeld, Closed, ShowAll, Enabled;
    var mid := Inside(s, c, inner);
    PreWorld(s, c);
    AfterModes(s, c, inner);
    if c.OnVoters? || c.OnScript? {
      ScopesCloseTheirOwn(s, c, inner);
      if s.disguised {
        ClosingUndoesOpeningKept(s.world, s.slots, mid.world, mid.slots, i, whole);
      }
    } else if c.OnPack? {
      PacksCloseTheirOwn(s, inner);
      PackKeepsFace(s, Pre(s, c), mid, After(s, c, inner), i, whole);
    } else {
      TransactionsCloseTheirOwn(s, c, inner);
    }
  }

  lemma PackKeepsFace(s: State, hidden: State, mid: State, t: State, i: nat, whole: bool)
    requires IsHeld(s.world, s.slots, i)
    requires Unchanged(hidden.world, hidden.slots, mid.world, mid.slots, i, whole)
    requires hidden.slots == s.slots &&
             (hidden.world == s.world || hidden.world == HideAll(s.world, s.slots, MAX_SLOTS).0)
    requires t.slots == mid.slots &&
             (t.world == mid.world || exists refs :: t.world == ShowBots(mid.world, refs, |refs|))
    ensures Unchanged(s.world, s.slots, t.world, t.slots, i, whole)
  {
    UnchangedHolds(hidden.world, hidden.slots, mid.world, mid.slots, i, whole);
    hide IsHeld, Unchanged, HideAll, ShowBots;
    UnchangedAtStart(s.world, s.slots, i, whole);
    HidingKeepsFace(s.world, s.slots, i, whole);
    UnchangedChain(s, hidden, mid, i, whole);
    if t.world != mid.world {
      var refs :| t.world == ShowBots(mid.world, refs, |refs|);
      ShowingKeepsFace(mid.world, refs, mid.slots, i, whole);
      UnchangedChain(s, mid, t, i, whole);
    }
  }

  // A bot shown as a human, in player mode, with nothing open.
  const ONE_CLIENT := Client(1, 1, HUMAN_CONNECTION, 0, 1, 5, 5, false)

  const ONE_WORLD := World([Some(ONE_CLIENT)], map[1 := Entity(1, true, 1, false, 0, NO_HANDLE)])

  const ONE_MANAGED: Slots :=
    seq(MAX_SLOTS, i => if i == 0 then EMPTY_SLOT.(managed := true, steamId := 5, incarnation := 1) else EMPTY_SLOT)

  const SHOWN_AS_HUMAN :=
    State(ONE_WORLD, ONE_MANAGED, true, false, 0, false, None, Frames([], [], [], [], []), [], [], 0, [], 0)

  // A voter count, and a change to bot mode while it lasts.
  const FLIP_INSIDE := ThenCall(OnVoters, Then(ModeSet(false, true, true), Done), Done)

  // It ends with nothing open and bot mode in force, and the bot still shown as a human.
  lemma FlipInsideScopeIsStale()
    ensures Start(SHOWN_AS_HUMAN) && IsHeld(ONE_WORLD, ONE_MANAGED, 0) && Looks(ONE_WORLD, 0, true, true)
    ensures var s := Play(SHOWN_AS_HUMAN, FLIP_INSIDE);
            && Start(s) && !s.disguised
            && Looks(s.world, 0, true, true) && !Looks(s.world, 0, s.disguised, true)
  {
    var s := SHOWN_AS_HUMAN;
    ShownAsHuman();
    var flip := Then(ModeSet(false, true, true), Done);
    assert Opens(s, OnVoters);
    PreModes(s, OnVoters);
    var inside := Pre(s, OnVoters);
    assert Play(inside, flip) == SetMode(inside, false, true, true);
    AfterModes(s, OnVoters, flip);
    assert Gentle(s, FLIP_INSIDE, 0, true);
    hide Pre, SetMode, Looks, Gentle;
    TraceShows(s, FLIP_INSIDE, 0, true, true);
    hide IsSeen;
    assert ShownAfter(s, FLIP_INSIDE, true);
  }

  lemma ShownAsHuman()
    ensures Start(SHOWN_AS_HUMAN) && Inv(SHOWN_AS_HUMAN)
    ensures IsHeld(ONE_WORLD, ONE_MANAGED, 0) && Looks(ONE_WORLD, 0, true, true)
    ensures IsSeen(SHOWN_AS_HUMAN, SHOWN_AS_HUMAN, 0, true, true)
  {
    assert LiveController(ONE_WORLD, ONE_CLIENT) == Some(ONE_WORLD.entities[1]);
    ZeroIsUnmarked();
  }

  lemma ZeroIsUnmarked()
    ensures Mark(0) != 0
  {
  }
}
