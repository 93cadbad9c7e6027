/** Two inputs on which the pass leaves wrong overrides: 2^32 requests between two passes, which the
    request counter cannot tell from none, and a table whose index 0 is taken. */
module AvatarExample {
  import opened Prelude
  import opened StringTable
  import opened Manager
  import opened Avatar
  import opened AvatarTheorems
  import opened AvatarRuns
  import opened AvatarWrap
  import opened AvatarOutcomes
  import opened AvatarExactness

  const REQUESTED := EMPTY_SLOT.(managed := true, steamId := 5, baseSteamId := 5, incarnation := 1, avatarLength := 1,
                                 request := AvatarRequest(2, 1, 1, [1]))

  const SHOWN := Published(REQUESTED, true, 5)

  function CalmFaults(n: nat): (faults: seq<Faults>)
    ensures |faults| == n && Calm(faults)
  {
    seq(n, i => Faults(false, false, false, false, false))
  }

  // The world after the first n slots of the pass.
  function Passed(n: nat): World {
    World(seq(MAX_SLOTS, i => if i > 0 then EMPTY_SLOT else if n > 0 then SHOWN else REQUESTED),
          seq(MAX_SLOTS, i => if i >= n then INITIAL_RUNTIME
                              else if i > 0 then Runtime(0, 0, 0, true, false, 0)
                              else Runtime(2, 5, 5, true, false, 0)),
          if n > 0 then [Entry(Sentinel, []), Entry(SteamKey(5), [1])] else [])
  }

  // Before the first bot, over an empty table.
  const BEFORE := World(seq(MAX_SLOTS, i => EMPTY_SLOT), seq(MAX_SLOTS, i => INITIAL_RUNTIME), [])

  // A bot is adopted, its avatar is requested, and a pass publishes it.
  const HISTORY: seq<Event> := [Adopt(0, 5, 1), SetAvatar(0, 1, [1]), RunPass(0, CalmFaults(MAX_SLOTS))]

  lemma FirstVisit()
    ensures Visit(Passed(0), 0, 0, Faults(false, false, false, false, false)) == Passed(1)
  {
    var f := Faults(false, false, false, false, false);
    var w := Passed(0);
    var r := INITIAL_RUNTIME.(sequence := 2, steamId := 5);
    assert Detected(w, 0) == r;
    var t := SetOverride([], 5, [1], f);
    assert t == TableResult(true, [Entry(Sentinel, []), Entry(SteamKey(5), [1])]) by {
      assert Find([Entry(Sentinel, [])], SteamKey(5)) == -1;
    }
    assert w.slots[0 := Published(REQUESTED, false, 0)] == w.slots;
    hide SetOverride;
    assert TakeOver(w.states[0 := r], 0, 5) == Passed(1).states;
    assert w.slots[0 := SHOWN] == Passed(1).slots;
  }

  lemma LaterVisit(n: nat)
    requires 0 < n < MAX_SLOTS
    ensures Visit(Passed(n), n, 0, Faults(false, false, false, false, false)) == Passed(n + 1)
  {
    var w := Passed(n);
    assert Detected(w, n) == INITIAL_RUNTIME.(sequence := 0);
    assert w.slots[n := Published(EMPTY_SLOT, false, 0)] == w.slots;
    assert w.states[n := Runtime(0, 0, 0, true, false, 0)] == Passed(n + 1).states;
  }

  lemma {:induction false} PassFromStart(n: nat)
    requires n <= MAX_SLOTS
    ensures Pass(Passed(0), SlotOrder(n), 0, CalmFaults(n)) == Passed(n)
  {
    hide Visit;
    if n > 0 {
      PassFromStart(n - 1);
      assert SlotOrder(n)[..n - 1] == SlotOrder(n - 1) && CalmFaults(n)[..n - 1] == CalmFaults(n - 1);
      if n == 1 {
        FirstVisit();
      } else {
        LaterVisit(n - 1);
      }
    }
  }

  lemma HistoryRequests()
    ensures Allowed(BEFORE, HISTORY[0]) && Allowed(Step(BEFORE, HISTORY[0]), HISTORY[1])
    ensures Step(Step(BEFORE, HISTORY[0]), HISTORY[1]) == Passed(0)
  {
    var requested := Step(Step(BEFORE, HISTORY[0]), HISTORY[1]);
    assert requested.slots == Passed(0).slots;
    assert requested.states == Passed(0).states;
  }

  lemma RunOfThree(w: World, a: Event, b: Event, c: Event)
    requires Allowed(w, a) && Allowed(Step(w, a), b) && Allowed(Step(Step(w, a), b), c)
    ensures Legal(w, [a, b, c]) && Run(w, [a, b, c]) == Step(Step(Step(w, a), b), c)
  {
    hide Allowed, Step;
    assert [a, b, c][1..] == [b, c] && [b, c][1..] == [c] && [c][1..] == [];
    assert Legal(Step(Step(w, a), b), [c]);
    assert Run(Step(Step(w, a), b), [c]) == Run(Step(Step(Step(w, a), b), c), []);
    assert Legal(Step(w, a), [b, c]) && Run(Step(w, a), [b, c]) == Run(Step(Step(w, a), b), [c]);
  }

  lemma BeforeIsStart()
    ensures Start(BEFORE)
  {
  }

  // That history is a run from the start, and shows the avatar.
  lemma HistoryShowsAvatar()
    ensures Start(BEFORE) && Legal(BEFORE, HISTORY) && Run(BEFORE, HISTORY) == Passed(MAX_SLOTS)
  {
    BeforeIsStart();
    HistoryRequests();
    PassFromStart(MAX_SLOTS);
    RunOfThree(BEFORE, HISTORY[0], HISTORY[1], HISTORY[2]);
    assert HISTORY == [HISTORY[0], HISTORY[1], HISTORY[2]];
    hide Pass, Run, Legal, Start;
    assert Step(Passed(0), HISTORY[2]) == Passed(MAX_SLOTS);
  }

  lemma AvatarIsShown()
    ensures var w := Passed(MAX_SLOTS);
            HasBotAvatar(w.slots[0]) && w.slots[0].request.data == [1]
  {
    assert Passed(MAX_SLOTS).slots[0] == SHOWN;
    assert Passed(MAX_SLOTS).table[0] == Entry(Sentinel, []);
  }

  // The bot then asks 2^32 times for [2] between two passes: its avatar stays [1].
  lemma ConcreteFullTurn()
    ensures Start(BEFORE) && Legal(BEFORE, HISTORY)
    ensures var w := Run(BEFORE, HISTORY);
            var w1 := WithRequests(w, 0, [2], TWO_32);
            && Superseded(w, AgesRun(BEFORE, NewAges(), HISTORY), 0, [2], SlotOrder(MAX_SLOTS), CalmFaults(MAX_SLOTS))
            && DistinctSids(w1.slots)
            && Overrides(Pass(w1, SlotOrder(MAX_SLOTS), 0, CalmFaults(MAX_SLOTS)).table) != Desired(w1.slots)
  {
    HistoryShowsAvatar();
    ReachableIsGood(BEFORE, HISTORY);
    var ages := AgesRun(BEFORE, NewAges(), HISTORY);
    assert Run(BEFORE, HISTORY) == Passed(MAX_SLOTS);
    hide Run, AgesRun, Pass, WithRequests, Overrides, Desired, Good;
    var order := SlotOrder(MAX_SLOTS);
    assert order[0] == 0 && 0 in order;
    assert forall j :: j in order ==> IsSlot(j);
    AvatarIsShown();
    assert Good(Passed(MAX_SLOTS), ages);
    assert Superseded(Passed(MAX_SLOTS), ages, 0, [2], SlotOrder(MAX_SLOTS), CalmFaults(MAX_SLOTS));
    FullTurnBreaksRefinement(Passed(MAX_SLOTS), ages, 0, [2], TWO_32, SlotOrder(MAX_SLOTS), 0, CalmFaults(MAX_SLOTS));
  }

  // The same bot over a table whose index 0 holds data that is the engine's.
  const OCCUPIED := BEFORE.(table := [Entry(EngineKey("default"), [7])])

  const REQUEST: seq<Event> := [Adopt(0, 5, 1), SetAvatar(0, 1, [1])]

  lemma RunOfTwo(w: World, a: Event, b: Event)
    requires Allowed(w, a) && Allowed(Step(w, a), b)
    ensures Legal(w, [a, b]) && Run(w, [a, b]) == Step(Step(w, a), b)
  {
    hide Allowed, Step;
    assert [a, b][1..] == [b] && [b][1..] == [];
    assert Legal(Step(w, a), [b]);
    assert Run(Step(w, a), [b]) == Run(Step(Step(w, a), b), []);
  }

  lemma OccupiedIsStart()
    ensures Start(OCCUPIED) && Legal(OCCUPIED, REQUEST)
    ensures Run(OCCUPIED, REQUEST) == Passed(0).(table := OCCUPIED.table)
  {
    forall sid: uint64 ensures DataOf(OCCUPIED.table, SteamKey(sid)) == [] {
      assert Find(OCCUPIED.table, SteamKey(sid)) == -1;
    }
    var adopted := Step(OCCUPIED, REQUEST[0]);
    var requested := Step(adopted, REQUEST[1]);
    assert requested.slots == Passed(0).slots && requested.states == Passed(0).states;
    RunOfTwo(OCCUPIED, REQUEST[0], REQUEST[1]);
    hide Step, Run, Legal;
    assert REQUEST == [REQUEST[0], REQUEST[1]];
  }

  // Nothing fails and nothing waits, and yet the pass leaves out the avatar that is asked for.
  lemma ConcreteRefusal()
    ensures Start(OCCUPIED) && Legal(OCCUPIED, REQUEST)
    ensures var w := Run(OCCUPIED, REQUEST);
            && Calm(CalmFaults(MAX_SLOTS)) && NoneWaiting(w, 0) && DistinctSids(w.slots)
            && Overrides(Pass(w, SlotOrder(MAX_SLOTS), 0, CalmFaults(MAX_SLOTS)).table) != Desired(w.slots)
  {
    OccupiedIsStart();
    ReachableIsGood(OCCUPIED, REQUEST);
    var w, ages := Run(OCCUPIED, REQUEST), AgesRun(OCCUPIED, NewAges(), REQUEST);
    assert Stuck(w, ages, 0) && !Holds(w, 0);
    assert NoneWaiting(w, 0);
    var order := SlotOrder(MAX_SLOTS);
    assert Covers(order) by {
      forall i | 0 <= i < MAX_SLOTS ensures i in order {
        assert order[i] == i;
      }
    }
    hide Run, AgesRun, Pass, Overrides, Desired, Good, Stuck, Holds, NoneWaiting, DistinctSids;
    CalmPassIsExactIff(w, ages, order, 0, CalmFaults(MAX_SLOTS));
  }
}
