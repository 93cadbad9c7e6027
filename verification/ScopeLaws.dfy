/** What closing a scope does, whatever the engine and the plugin did while it was open. */
module ScopeLaws {
  import opened Prelude
  import opened Engine
  import opened Manager
  import opened ScopedRestore

  // The scope opened in (w, slots) is closed in (v, now).
  function Shots(w: World, slots: Slots): Saved {
    Capture(w, slots, MAX_SLOTS).1
  }

  function Closed(w: World, slots: Slots, v: World, now: Slots): World {
    Restore(v, now, Shots(w, slots), MAX_SLOTS)
  }

  // Slot i had this client when the scope was opened, and still has it.
  predicate Keeps(w: World, slots: Slots, v: World, now: Slots, i: nat) {
    && IsSlot(i) && slots[i].managed && now[i].managed
    && ResolveClient(w, i).Some? && ResolveClient(v, i).Some?
    && w.clients[i].value.id == v.clients[i].value.id && w.clients[i].value.userId == v.clients[i].value.userId
  }

  // Of the flags `last`, the human bit is set again if it was set at first, the fake-client bit is
  // cleared again if it was clear at first, and that is all.
  predicate FlippedBack(first: bv8, last: bv8, r: bv8) {
    && r & 0xF6 == last & 0xF6
    && r & HUMAN_CONNECTION == (if first & HUMAN_CONNECTION != 0 then HUMAN_CONNECTION else last & HUMAN_CONNECTION)
    && r & FAKE_CONNECTION == (if first & FAKE_CONNECTION == 0 then 0 else last & FAKE_CONNECTION)
  }

  // Closing puts the two connection bits that opening flipped back to what they were, and the
  // fake-player byte if it was not 1; the other bits and fields stay as last written.
  lemma ClosingRestoresClient(w: World, slots: Slots, v: World, now: Slots, i: nat)
    requires i < |v.clients| && v.clients[i].Some?
    ensures |Closed(w, slots, v, now).clients| == |v.clients| && Closed(w, slots, v, now).clients[i].Some?
    ensures var r, last := Closed(w, slots, v, now).clients[i].value, v.clients[i].value;
            && r == last.(connectionFlags := r.connectionFlags, fakePlayer := r.fakePlayer)
            && (!Keeps(w, slots, v, now, i) ==> r == last)
            && (Keeps(w, slots, v, now, i) ==>
                  var first := w.clients[i].value;
                  && FlippedBack(first.connectionFlags, last.connectionFlags, r.connectionFlags)
                  && r.fakePlayer == (if first.fakePlayer != 1 then first.fakePlayer else last.fakePlayer))
  {
    hide Closed, SetFakePlayer, Merge8, FlippedBack;
    ClosedClient(w, slots, v, now, i);
    if Keeps(w, slots, v, now, i) {
      MergedBits(v.clients[i].value.connectionFlags, w.clients[i].value);
    }
  }

  lemma ClosedClient(w: World, slots: Slots, v: World, now: Slots, i: nat)
    requires i < |v.clients| && v.clients[i].Some?
    ensures |Closed(w, slots, v, now).clients| == |v.clients|
    ensures Closed(w, slots, v, now).clients[i] ==
              if !Keeps(w, slots, v, now, i) then v.clients[i]
              else
                var first, last := w.clients[i].value, v.clients[i].value;
                var mask := first.connectionFlags ^ SetFakePlayer(first).connectionFlags;
                Some(last.(connectionFlags := Merge8(last.connectionFlags, first.connectionFlags, mask),
                           fakePlayer := if first.fakePlayer != 1 then first.fakePlayer else last.fakePlayer))
  {
    CapturedShotsOk(w, slots);
    CaptureTable(w, slots, MAX_SLOTS);
    RestoreTable(v, now, Shots(w, slots), MAX_SLOTS);
    hide Capture, Restore, IsCaptured, ShotsOk, Merge8, SetFakePlayer, UnmarkedBelow, MarkedBelow, Mark, Unmark;
    if i < MAX_SLOTS {
      assert IsShot(w, slots, i, Shots(w, slots)[i]);
    }
  }

  lemma MergedBits(now: bv8, c: Client)
    ensures var was := c.connectionFlags;
            FlippedBack(was, now, Merge8(now, was, was ^ SetFakePlayer(c).connectionFlags))
  {
  }

  // Slot i is the one that marked the controller at index e, and still has it.
  ghost predicate StillMarks(w: World, slots: Slots, v: World, now: Slots, i: nat, e: int) {
    && Keeps(w, slots, v, now, i) && Marks(w, slots, i, w.clients[i].value.entityIndex)
    && !MarkedBelow(w, slots, w.clients[i].value.entityIndex, i)
    && Mark(w.entities[w.clients[i].value.entityIndex].flags) != w.entities[w.clients[i].value.entityIndex].flags
    && v.clients[i].value.entityIndex == e
    && LiveController(v, v.clients[i].value).Some?
    && v.entities[e].instance == w.entities[w.clients[i].value.entityIndex].instance
    && v.entities[e].handle == w.entities[w.clients[i].value.entityIndex].handle
  }

  // Closing clears the fake-client bit of the controllers that opening set it on, where the slot
  // that marked them still has them; nothing else about any entity changes.
  lemma ClosingRestoresController(w: World, slots: Slots, v: World, now: Slots, e: int)
    requires e in v.entities
    ensures Closed(w, slots, v, now).entities.Keys == v.entities.Keys
    ensures Closed(w, slots, v, now).entities[e] ==
              if exists i :: StillMarks(w, slots, v, now, i, e)
              then v.entities[e].(flags := Unmark(v.entities[e].flags)) else v.entities[e]
  {
    var shots := Shots(w, slots);
    CapturedShotsOk(w, slots);
    CaptureTable(w, slots, MAX_SLOTS);
    RestoreTable(v, now, shots, MAX_SLOTS);
    hide Capture, Restore, IsCaptured, ShotsOk, Unmark, Mark, MarkedBelow, MergeClient;
    forall i: nat ensures Unmarks(v, now, shots, i, e) <==> StillMarks(w, slots, v, now, i, e) {
      if i < MAX_SLOTS {
        assert IsShot(w, slots, i, shots[i]);
      }
    }
  }

  // How slot i appears, as far as opening and closing a scope can tell: the client, its connection
  // bits and fake-player byte, and its live controller with the fake-client bit.
  datatype Face = Face(id: nat, userId: uint16, entityIndex: int, connection: bv8, fakePlayer: bv8,
                       controller: Option<ControllerFace>)

  datatype ControllerFace = ControllerFace(instance: nat, handle: uint32, marked: bool)

  function FaceOf(w: World, i: nat): Option<Face> {
    if ResolveClient(w, i).None? then None
    else
      var c := ResolveClient(w, i).value;
      Some(Face(c.id, c.userId, c.entityIndex, c.connectionFlags & 0x09, c.fakePlayer,
                match LiveController(w, c)
                case None => None
                case Some(e) => Some(ControllerFace(e.instance, e.handle, Mark(e.flags) == e.flags))))
  }

  // Slot i is managed and has a client.
  predicate IsHeld(w: World, slots: Slots, i: nat) {
    IsSlot(i) && slots[i].managed && ResolveClient(w, i).Some?
  }

  // One of the slots whose controller is the entity at index e.
  predicate Shares(w: World, slots: Slots, j: nat, e: int) {
    IsHeld(w, slots, j) && w.clients[j].value.entityIndex == e
  }

  // No slot that shares the controller came, went, or got another client.
  ghost predicate SameSharers(w: World, slots: Slots, v: World, now: Slots, e: int) {
    forall j :: 0 <= j < MAX_SLOTS ==>
      (Shares(w, slots, j, e) <==> Shares(v, now, j, e)) && (Shares(w, slots, j, e) ==> Keeps(w, slots, v, now, j))
  }

  // The same client with the same controller, however they are shown.
  predicate SameBinding(f: Face, g: Face) {
    && f.id == g.id && f.userId == g.userId && f.entityIndex == g.entityIndex
    && (f.controller.Some? <==> g.controller.Some?)
    && (f.controller.Some? ==>
          f.controller.value.instance == g.controller.value.instance &&
          f.controller.value.handle == g.controller.value.handle)
  }

  // Between two moments slot i keeps its client; the whole of it keeps its controller, too, with those
  // who share it.
  ghost predicate Bound(w: World, slots: Slots, v: World, now: Slots, i: nat, whole: bool) {
    && Keeps(w, slots, v, now, i)
    && (whole ==>
          && SameBinding(FaceOf(w, i).value, FaceOf(v, i).value)
          && SameSharers(w, slots, v, now, w.clients[i].value.entityIndex))
  }

  lemma BoundChain(a: World, aSlots: Slots, b: World, bSlots: Slots, c: World, cSlots: Slots, i: nat, whole: bool)
    requires Bound(a, aSlots, b, bSlots, i, whole) && Bound(b, bSlots, c, cSlots, i, whole)
    ensures Bound(a, aSlots, c, cSlots, i, whole)
  {
  }

  // A change of flags only, for the same slots.
  ghost predicate SameBindings(w: World, v: World) {
    && SameShape(w, v)
    && forall j :: 0 <= j < |w.clients| ==>
         && (w.clients[j].Some? <==> v.clients[j].Some?)
         && (w.clients[j].Some? ==>
               && w.clients[j].value.id == v.clients[j].value.id
               && w.clients[j].value.userId == v.clients[j].value.userId
               && w.clients[j].value.entityIndex == v.clients[j].value.entityIndex)
  }

  lemma SameBindingsAreBound(w: World, v: World, slots: Slots, i: nat, whole: bool)
    requires SameBindings(w, v) && IsHeld(w, slots, i)
    ensures Bound(w, slots, v, slots, i, whole)
  {
    ControllerInShape(w, v, w.clients[i].value);
    assert LiveController(v, v.clients[i].value) == LiveController(v, w.clients[i].value);
    hide Mark, SameShape, LiveController;
  }

  // Whatever happens between two moments, slot i looks the same at both.
  ghost predicate Unchanged(w: World, slots: Slots, v: World, now: Slots, i: nat, whole: bool) {
    && Bound(w, slots, v, now, i, whole)
    && FaceOf(v, i).value.connection == FaceOf(w, i).value.connection
    && FaceOf(v, i).value.fakePlayer == FaceOf(w, i).value.fakePlayer
    && (whole ==> FaceOf(v, i) == FaceOf(w, i))
  }

  // A face shows a human or a bot, its client or the whole of it.
  predicate FaceShows(f: Face, human: bool, whole: bool) {
    && f.connection == (if human then HUMAN_CONNECTION else FAKE_CONNECTION)
    && f.fakePlayer == (if human then 0 else 1)
    && (whole && f.controller.Some? ==> f.controller.value.marked == !human)
  }

  predicate Looks(w: World, i: nat, human: bool, whole: bool) {
    FaceOf(w, i).Some? && FaceShows(FaceOf(w, i).value, human, whole)
  }

  // Opening shows every managed slot as a bot, also those that share a controller.
  lemma OpeningShowsBot(w: World, slots: Slots, i: nat)
    requires IsHeld(w, slots, i)
    ensures var v := Capture(w, slots, MAX_SLOTS).0;
            Bound(w, slots, v, slots, i, true) && Looks(v, i, false, true)
  {
    CaptureTable(w, slots, MAX_SLOTS);
    OpeningKeepsBindings(w, slots);
    hide Capture;
    var v := Capture(w, slots, MAX_SLOTS).0;
    var c := w.clients[i].value;
    FakeBits(c);
    ControllerInShape(w, v, c);
    SameBindingsAreBound(w, v, slots, i, true);
    if LiveController(w, c).Some? {
      assert Marks(w, slots, i, c.entityIndex) && MarkedBelow(w, slots, c.entityIndex, MAX_SLOTS);
      MarkTwice(w.entities[c.entityIndex].flags);
    }
    hide Mark, SetFakePlayer, Bound, SameBindings;
    assert LiveController(v, v.clients[i].value) == LiveController(v, c);
  }

  lemma OpeningKeepsBindings(w: World, slots: Slots)
    ensures SameBindings(w, Capture(w, slots, MAX_SLOTS).0)
  {
    CaptureTable(w, slots, MAX_SLOTS);
    hide Capture, MarkedBelow;
  }

  lemma FakeBits(c: Client)
    ensures SetFakePlayer(c).connectionFlags & 0x09 == FAKE_CONNECTION
  {
  }

  lemma UnmarkBit(flags: bv32)
    ensures Mark(Unmark(flags)) != Unmark(flags)
  {
  }

  // Some slot that marked the controller at index e still has it, so that closing clears its bit.
  ghost predicate IsCleared(w: World, slots: Slots, v: World, now: Slots, e: int) {
    exists j :: StillMarks(w, slots, v, now, j, e)
  }

  // How slot i looks after closing, from how it looked before opening and how it looks now.
  lemma ClosingFace(w: World, slots: Slots, v: World, now: Slots, i: nat)
    requires Keeps(w, slots, v, now, i)
    ensures var r := FaceOf(Closed(w, slots, v, now), i);
            var f, g := FaceOf(w, i).value, FaceOf(v, i).value;
            && r.Some?
            && FlippedBack(f.connection, g.connection, r.value.connection)
            && r.value == g.(connection := r.value.connection,
                             fakePlayer := if f.fakePlayer != 1 then f.fakePlayer else g.fakePlayer,
                             controller := r.value.controller)
            && (r.value.controller.Some? <==> g.controller.Some?)
            && (g.controller.Some? ==>
                  r.value.controller.value == g.controller.value.(marked :=
                    g.controller.value.marked && !IsCleared(w, slots, v, now, g.entityIndex)))
  {
    ClosingRestoresClient(w, slots, v, now, i);
    ClosingController(w, slots, v, now, i);
    var r := Closed(w, slots, v, now);
    hide Capture, Closed, Shots, IsCleared, Mark, LiveController, FlippedBack, Keeps;
    MaskedFlips(w.clients[i].value.connectionFlags, v.clients[i].value.connectionFlags,
                r.clients[i].value.connectionFlags);
  }

  lemma MaskedFlips(first: bv8, last: bv8, r: bv8)
    requires FlippedBack(first, last, r)
    ensures FlippedBack(first & 0x09, last & 0x09, r & 0x09)
  {
  }

  lemma ClosingController(w: World, slots: Slots, v: World, now: Slots, i: nat)
    requires ResolveClient(v, i).Some?
    ensures var r := Closed(w, slots, v, now);
            var c := v.clients[i].value;
            && SameShape(v, r)
            && LiveController(r, c) == (if LiveController(v, c).None? then None
                                        else Some(v.entities[c.entityIndex].(flags := r.entities[c.entityIndex].flags)))
            && (LiveController(v, c).Some? ==>
                  r.entities[c.entityIndex].flags ==
                    if IsCleared(w, slots, v, now, c.entityIndex) then Unmark(v.entities[c.entityIndex].flags)
                    else v.entities[c.entityIndex].flags)
            && (LiveController(v, c).Some? ==>
                  var flags := r.entities[c.entityIndex].flags;
                  Mark(flags) == flags <==> Mark(v.entities[c.entityIndex].flags) == v.entities[c.entityIndex].flags
                                            && !IsCleared(w, slots, v, now, c.entityIndex))
  {
    var r := Closed(w, slots, v, now);
    var c := v.clients[i].value;
    ClosingKeepsShape(w, slots, v, now);
    ControllerInShape(v, r, c);
    if LiveController(v, c).Some? {
      ClosingRestoresController(w, slots, v, now, c.entityIndex);
      UnmarkBit(v.entities[c.entityIndex].flags);
    }
    hide Closed, Shots, StillMarks, Mark, Unmark;
  }

  // Opening a scope and closing it again undoes the opening of a slot that kept its look inside:
  // always for the client, and for the controller exactly if its bit was clear before just when some
  // slot that marked it still has it. Other slots may have been released, adopted or bound anew, and
  // everything not part of the face may have been rewritten.
  lemma ClosingUndoesOpening(w: World, slots: Slots, v: World, now: Slots, i: nat)
    requires IsHeld(w, slots, i) && IsHeld(v, now, i) && FaceOf(Capture(w, slots, MAX_SLOTS).0, i) == FaceOf(v, i)
    ensures var f, r := FaceOf(w, i).value, FaceOf(Closed(w, slots, v, now), i);
            && r.Some?
            && r.value.(controller := f.controller) == f
            && (r.value == f <==>
                  (f.controller.Some? ==> (!f.controller.value.marked <==> IsCleared(w, slots, v, now, f.entityIndex))))
  {
    OpeningShowsBot(w, slots, i);
    ClosingFace(w, slots, v, now, i);
    hide Capture, Closed, IsCleared;
    var f, g, r := FaceOf(w, i).value, FaceOf(v, i).value, FaceOf(Closed(w, slots, v, now), i).value;
    ConnectionUndone(w.clients[i].value.connectionFlags, g.connection, r.connection);
  }

  lemma ConnectionUndone(first: bv8, last: bv8, r: bv8)
    requires last == FAKE_CONNECTION && FlippedBack(first & 0x09, last, r)
    ensures r == first & 0x09
  {
    assert r & 0xF6 == 0 && r & 0x01 == first & 0x01 && r & 0x08 == first & 0x08;
  }

  // The first slot that shares a controller; it is the one that marks it, if it needs marking.
  lemma FirstSharer(w: World, slots: Slots, i: nat) returns (j: nat)
    requires IsHeld(w, slots, i) && LiveController(w, w.clients[i].value).Some?
    ensures Marks(w, slots, j, w.clients[i].value.entityIndex) &&
            !MarkedBelow(w, slots, w.clients[i].value.entityIndex, j)
  {
    var e := w.clients[i].value.entityIndex;
    hide LiveController;
    j := 0;
    while !Marks(w, slots, j, e)
      invariant j <= i && !MarkedBelow(w, slots, e, j)
      decreases i - j
    {
      MarkedBelowGrows(w, slots, e, j);
      j := j + 1;
    }
  }

  // As long as no slot that shares the controller comes or goes, closing clears its bit exactly if it
  // was clear before opening.
  lemma SharedIsCleared(w: World, slots: Slots, v: World, now: Slots, i: nat)
    requires Bound(w, slots, v, now, i, true) && FaceOf(w, i).value.controller.Some?
    ensures IsCleared(w, slots, v, now, FaceOf(w, i).value.entityIndex) <==> !FaceOf(w, i).value.controller.value.marked
  {
    var e := w.clients[i].value.entityIndex;
    var j := FirstSharer(w, slots, i);
    hide Mark, MarkedBelow;
    assert Shares(w, slots, j, e);
    assert !FaceOf(w, i).value.controller.value.marked ==> StillMarks(w, slots, v, now, j, e);
    forall k: nat | StillMarks(w, slots, v, now, k, e) ensures w.clients[k].value.entityIndex == e {
      assert Shares(v, now, k, e);
    }
  }

  // So opening and closing leave a slot that kept its look inside as it was.
  lemma ClosingUndoesOpeningKept(w: World, slots: Slots, v: World, now: Slots, i: nat, whole: bool)
    requires IsHeld(w, slots, i) && Unchanged(Capture(w, slots, MAX_SLOTS).0, slots, v, now, i, whole)
    ensures Unchanged(w, slots, Closed(w, slots, v, now), now, i, whole)
  {
    var atOpen, r := Capture(w, slots, MAX_SLOTS).0, Closed(w, slots, v, now);
    OpeningShowsBot(w, slots, i);
    OpeningKeepsBindings(w, slots);
    SameBindingsAreBound(w, atOpen, slots, i, whole);
    BoundChain(w, slots, atOpen, slots, v, now, i, whole);
    ClosingKeepsBindings(w, slots, v, now);
    SameBindingsAreBound(v, r, now, i, whole);
    BoundChain(w, slots, v, now, r, now, i, whole);
    ClosingFace(w, slots, v, now, i);
    hide Capture, Closed, IsCleared, SameBindings, SameSharers;
    if whole && FaceOf(w, i).value.controller.Some? {
      SharedIsCleared(w, slots, v, now, i);
    }
    ConnectionUndone(w.clients[i].value.connectionFlags, FaceOf(v, i).value.connection, FaceOf(r, i).value.connection);
  }

  // Whatever happened inside to how slot i looks: a human before opening is a human after closing,
  // and a bot before is shown after as it was shown last.
  lemma ClosingShows(w: World, slots: Slots, v: World, now: Slots, i: nat, first: bool, last: bool, whole: bool)
    requires Bound(w, slots, v, now, i, whole) && Looks(w, i, first, whole) && Looks(v, i, last, whole)
    ensures var r := Closed(w, slots, v, now);
            Bound(w, slots, r, now, i, whole) && Looks(r, i, first || last, whole)
  {
    var r := Closed(w, slots, v, now);
    ClosingKeepsBindings(w, slots, v, now);
    SameBindingsAreBound(v, r, now, i, whole);
    BoundChain(w, slots, v, now, r, now, i, whole);
    ClosingFace(w, slots, v, now, i);
    if whole && FaceOf(w, i).value.controller.Some? {
      SharedIsCleared(w, slots, v, now, i);
    }
    hide Closed, IsCleared, SameBindings, SameSharers;
    FlippedShow(FaceOf(w, i).value.connection, FaceOf(v, i).value.connection, FaceOf(r, i).value.connection);
  }

  lemma FlippedShow(first: bv8, last: bv8, r: bv8)
    requires FlippedBack(first, last, r)
    requires (first == HUMAN_CONNECTION || first == FAKE_CONNECTION) &&
             (last == HUMAN_CONNECTION || last == FAKE_CONNECTION)
    ensures r == if first == HUMAN_CONNECTION then HUMAN_CONNECTION else last
  {
    assert r & 0xF6 == 0;
  }

  lemma ClosingKeepsBindings(w: World, slots: Slots, v: World, now: Slots)
    ensures SameBindings(v, Closed(w, slots, v, now))
  {
    CapturedShotsOk(w, slots);
    RestoreTable(v, now, Shots(w, slots), MAX_SLOTS);
    hide Capture, Restore, UnmarkedBelow, StillBound;
  }

  lemma ClosingKeepsShape(w: World, slots: Slots, v: World, now: Slots)
    ensures SameShape(v, Closed(w, slots, v, now))
  {
    CapturedShotsOk(w, slots);
    RestoreTable(v, now, Shots(w, slots), MAX_SLOTS);
  }
}
