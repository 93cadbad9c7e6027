/** Which hooked calls show the bots as bots while they last, and which leave the world alone. */
module PopulationOpens {
  import opened Prelude
  import opened Engine
  import opened Manager
  import opened ScopedRestore
  import opened ScopeLaws
  import opened Population
  import opened PopulationTraces

  // Every managed slot that has a client looks like a bot, wholly.
  ghost predicate AllLookLikeBots(w: World, slots: Slots) {
    forall i :: 0 <= i < MAX_SLOTS && IsHeld(w, slots, i) ==> Looks(w, i, false, true)
  }

  // The first half of a population call's hook: it notes on the call's own stack, and on no other,
  // whether it begins a transaction; if it does and none is open yet, the bots are shown as bots;
  // otherwise the world stays as it is.
  ghost predicate Begins(s: State, c: Call, begins: bool)
    requires IsPopulation(c.Kind())
  {
    var s', k := Pre(s, c), c.Kind();
    && Stack(s'.frames, k) == Stack(s.frames, k) + [begins]
    && (forall k' :: IsPopulation(k') && k' != k ==> Stack(s'.frames, k') == Stack(s.frames, k'))
    && s'.depth == s.depth + (if begins then 1 else 0)
    && s'.hookDepth == s.hookDepth + (if c.OnCommand? then 0 else 1)
    && s'.slots == s.slots && s'.disguised == s.disguised
    && (if begins && s.depth == 0 then AllLookLikeBots(s'.world, s.slots) else s'.world == s.world)
  }

  lemma HeldAfterOpening(w: World, slots: Slots, i: nat)
    ensures IsHeld(Capture(w, slots, MAX_SLOTS).0, slots, i) <==> IsHeld(w, slots, i)
  {
    OpeningKeepsBindings(w, slots);
    hide Capture;
  }

  lemma OpeningShowsBots(w: World, slots: Slots)
    ensures AllLookLikeBots(Capture(w, slots, MAX_SLOTS).0, slots)
  {
    hide Capture, Looks, Bound;
    forall i | 0 <= i < MAX_SLOTS && IsHeld(Capture(w, slots, MAX_SLOTS).0, slots, i)
      ensures Looks(Capture(w, slots, MAX_SLOTS).0, i, false, true)
    {
      HeldAfterOpening(w, slots, i);
      OpeningShowsBot(w, slots, i);
    }
  }

  lemma StackAlone(f: Frames, k: Kind, stack: seq<bool>)
    requires IsPopulation(k)
    ensures forall k' :: IsPopulation(k') && k' != k ==> Stack(WithStack(f, k, stack), k') == Stack(f, k')
  {
  }

  lemma FrameBegins(s: State, c: Call)
    requires IsPopulation(c.Kind())
    ensures Begins(s, c, Enabled(s, c))
  {
    var k, enabled := c.Kind(), Enabled(s, c);
    PreWorld(s, c);
    OpeningShowsBots(s.world, s.slots);
    StackAlone(s.frames, k, Stack(s.frames, k) + [enabled]);
    hide Enabled, Capture, AllLookLikeBots, Stack, WithStack, Begin;
    var s1 := s.(frames := WithStack(s.frames, k, Stack(s.frames, k) + [enabled]));
    var s2 := if k.Command? then s1 else s1.(hookDepth := s.hookDepth + 1);
    BeginState(s2, true);
  }

  // A quota call begins a transaction exactly in player mode.
  lemma QuotaBegins(s: State)
    ensures Begins(s, OnQuota, s.disguised)
  {
    FrameBegins(s, OnQuota);
    hide Begins;
  }

  // So does a human-team restriction.
  lemma HumanTeamBegins(s: State)
    ensures Begins(s, OnHuman, s.disguised)
  {
    FrameBegins(s, OnHuman);
    hide Begins;
  }

  // The end of a match does if the game rules want new teams.
  lemma EndMatchBegins(s: State, reset: bool)
    ensures Begins(s, OnEndMatch(reset), s.disguised && reset)
  {
    FrameBegins(s, OnEndMatch(reset));
    hide Begins;
  }

  // Slot i is managed, and the controller is its client's, and not being deleted.
  predicate Has(w: World, slots: Slots, i: nat, controller: nat) {
    && IsHeld(w, slots, i)
    && var entity := ResolveEntity(w, w.clients[i].value.entityIndex);
       entity.Some? && entity.value.isController && !entity.value.deleting && entity.value.instance == controller
  }

  // The first slot that has the controller; its client is not SourceTV.
  ghost predicate IsBots(w: World, slots: Slots, controller: nat) {
    exists i: nat :: Has(w, slots, i, controller) && !w.clients[i].value.hltv &&
                     forall j :: 0 <= j < i ==> !Has(w, slots, j, controller)
  }

  // A team join does if the controller that joins is a managed bot's.
  lemma JoinBegins(s: State, controller: Option<nat>)
    ensures Begins(s, OnJoin(controller),
                   s.disguised && controller.Some? && IsBots(s.world, s.slots, controller.value))
  {
    FrameBegins(s, OnJoin(controller));
    hide Begins;
    if controller.Some? {
      var owner := Owner(s.world, s.slots, controller.value, 0);
      OwnerIsFirst(s.world, s.slots, controller.value, 0);
      hide Owner;
      assert forall i :: 0 <= i < MAX_SLOTS ==>
               (Has(s.world, s.slots, i, controller.value) <==> Controls(s.world, s.slots, controller.value, i));
      if owner.Some? {
        assert Has(s.world, s.slots, owner.value, controller.value);
      }
    }
  }

  // A command does if it is one of seven, unless the kick was put off until the next frame.
  lemma CommandBegins(s: State, name: Option<string>, queued: bool)
    ensures Begins(s, OnCommand(name, queued),
                   && s.disguised && name.Some?
                   && name.value in {"bot_add", "bot_add_t", "bot_add_ct", "kick", "kickid", "bot_kick", "banid"}
                   && !(queued && name.value in {"kick", "kickid"}))
  {
    FrameBegins(s, OnCommand(name, queued));
    hide Begins;
  }

  // A voter count and a script check show the bots as bots exactly in player mode, at any depth, and
  // push a snapshot then and an empty frame otherwise.
  lemma ScopesBegin(s: State, c: Call)
    requires c.OnVoters? || c.OnScript?
    ensures var s' := Pre(s, c);
            && (if s.disguised then AllLookLikeBots(s'.world, s.slots) else s'.world == s.world)
            && exists frame: Option<Saved> ::
                 && (frame.Some? <==> s.disguised)
                 && s' == s.(world := s'.world, hookDepth := s.hookDepth + 1,
                             voters := if c.OnVoters? then s.voters + [frame] else s.voters,
                             script := if c.OnScript? then s.script + [frame] else s.script)
  {
    OpeningShowsBots(s.world, s.slots);
    hide Capture, AllLookLikeBots, PrePopulation;
    var frame := CaptureFrame(s).1;
    assert Pre(s, c) == s.(world := Pre(s, c).world, hookDepth := s.hookDepth + 1,
                           voters := if c.OnVoters? then s.voters + [frame] else s.voters,
                           script := if c.OnScript? then s.script + [frame] else s.script);
  }
}
