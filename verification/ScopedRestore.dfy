/** A scope that shows managed bots as bots for a while: Capture turns the fake-client bits on and
    remembers which of them it flipped; Restore turns exactly those back. */
module ScopedRestore {
  import opened Prelude
  import opened Engine
  import opened Manager

  // BotIdentitySnapshot; no client or controller is a null pointer.
  datatype Snapshot = Snapshot(
    client: Option<nat>,
    userId: uint16,
    connectionFlags: bv8,
    connectionMask: bv8,
    fakePlayer: bv8,
    controller: Option<nat>,
    handle: uint32,
    controllerFlags: bv32,
    controllerMask: bv32)

  // The snapshots of a scope, one per slot.
  type Saved = s: seq<Snapshot> | |s| == MAX_SLOTS witness seq(MAX_SLOTS, i => NO_SNAPSHOT)

  const NO_SNAPSHOT := Snapshot(None, 0, 0, 0, 0, None, NO_HANDLE, 0, 0)

  // The bit that marking flips, if it does.
  function MarkMask(flags: bv32): bv32 {
    flags ^ Mark(flags)
  }

  // (now & ~mask) | (was & mask)
  function Merge8(now: bv8, was: bv8, mask: bv8): bv8 {
    (now & !mask) | (was & mask)
  }

  function Merge32(now: bv32, was: bv32, mask: bv32): bv32 {
    (now & !mask) | (was & mask)
  }

  function SnapshotOf(c: Client, controller: Option<Entity>): Snapshot {
    var s := NO_SNAPSHOT.(client := Some(c.id), userId := c.userId, connectionFlags := c.connectionFlags,
                          connectionMask := c.connectionFlags ^ SetFakePlayer(c).connectionFlags, fakePlayer :=
                            c.fakePlayer);
    if controller.None? then s
    else
      var e := controller.value;
      s.(controller := Some(e.instance), handle := e.handle, controllerFlags := e.flags,
         controllerMask := MarkMask(e.flags))
  }

  // One turn of Capture.
  function CaptureSlot(w: World, slots: Slots, slot: nat): (World, Snapshot)
    requires IsSlot(slot)
  {
    var client := ResolveClient(w, slot);
    if !slots[slot].managed || client.None? then (w, NO_SNAPSHOT)
    else
      var w1 := PutClient(w, slot, SetFakePlayer(client.value));
      var controller := LiveController(w1, client.value);
      (if controller.None? then w1 else PutFlags(w1, client.value.entityIndex, Mark(controller.value.flags)),
       SnapshotOf(client.value, controller))
  }

  // Capture, up to slot n.
  function Capture(w: World, slots: Slots, n: nat): (r: (World, seq<Snapshot>))
    requires n <= MAX_SLOTS
    ensures |r.1| == n
  {
    if n == 0 then (w, [])
    else
      var (w1, shots) := Capture(w, slots, n - 1);
      var (w2, shot) := CaptureSlot(w1, slots, n - 1);
      (w2, shots + [shot])
  }

  // The client of the snapshot is still the one on the slot.
  predicate StillBound(w: World, slots: Slots, slot: nat, shot: Snapshot)
    requires IsSlot(slot)
  {
    var client := ResolveClient(w, slot);
    && shot.client.Some? && slots[slot].managed
    && client.Some? && client.value.id == shot.client.value && client.value.userId == shot.userId
  }

  // The controller of the snapshot is still the client's.
  predicate StillControls(w: World, c: Client, shot: Snapshot) {
    var controller := LiveController(w, c);
    && shot.controller.Some? && controller.Some?
    && controller.value.instance == shot.controller.value && controller.value.handle == shot.handle
  }

  function MergeClient(c: Client, shot: Snapshot): Client {
    c.(connectionFlags := Merge8(c.connectionFlags, shot.connectionFlags, shot.connectionMask),
       fakePlayer := if shot.fakePlayer != 1 then shot.fakePlayer else c.fakePlayer)
  }

  // One turn of Restore.
  function RestoreSlot(w: World, slots: Slots, slot: nat, shot: Snapshot): World
    requires IsSlot(slot)
  {
    if !StillBound(w, slots, slot, shot) then w
    else
      var c := w.clients[slot].value;
      var w1 := PutClient(w, slot, MergeClient(c, shot));
      if !StillControls(w1, c, shot) then w1
      else PutFlags(w1, c.entityIndex,
                    Merge32(w1.entities[c.entityIndex].flags, shot.controllerFlags, shot.controllerMask))
  }

  // Restore, up to slot n.
  function Restore(w: World, slots: Slots, shots: seq<Snapshot>, n: nat): World
    requires n <= |shots| == MAX_SLOTS
  {
    if n == 0 then w else RestoreSlot(Restore(w, slots, shots, n - 1), slots, n - 1, shots[n - 1])
  }

  // Same entities, apart from their flags.
  ghost predicate SameShape(w: World, v: World) {
    && |w.clients| == |v.clients|
    && w.entities.Keys == v.entities.Keys
    && (forall e :: e in w.entities ==> v.entities[e] == w.entities[e].(flags := v.entities[e].flags))
  }

  // Slot i is one through which Capture marks entity e.
  predicate Marks(w: World, slots: Slots, i: int, e: int) {
    && IsSlot(i) && slots[i].managed && ResolveClient(w, i).Some?
    && w.clients[i].value.entityIndex == e && LiveController(w, w.clients[i].value).Some?
  }

  ghost predicate MarkedBelow(w: World, slots: Slots, e: int, n: nat) {
    exists i :: 0 <= i < n && Marks(w, slots, i, e)
  }

  // The world during a capture, slot by slot and entity by entity.
  ghost predicate IsCaptured(w: World, slots: Slots, n: nat, v: World) {
    && SameShape(w, v)
    && (forall i :: 0 <= i < |w.clients| ==>
          v.clients[i] == if i < n && i < MAX_SLOTS && slots[i].managed && ResolveClient(w, i).Some?
                          then Some(SetFakePlayer(w.clients[i].value)) else w.clients[i])
    && (forall e :: e in w.entities ==>
          v.entities[e].flags == if MarkedBelow(w, slots, e, n) then Mark(w.entities[e].flags) else w.entities[e].flags)
  }

  // What the snapshot of slot i says: the client and controller it found, and a controller mask
  // that is set only in the first slot that reaches an unmarked controller.
  ghost predicate IsShot(w: World, slots: Slots, i: nat, shot: Snapshot)
    requires IsSlot(i)
  {
    if !slots[i].managed || ResolveClient(w, i).None? then shot == NO_SNAPSHOT
    else
      var c := w.clients[i].value;
      var controller := LiveController(w, c);
      && shot.client == Some(c.id) && shot.userId == c.userId
      && shot.connectionFlags == c.connectionFlags && shot.fakePlayer == c.fakePlayer
      && shot.connectionMask == c.connectionFlags ^ SetFakePlayer(c).connectionFlags
      && (shot.controller.Some? <==> controller.Some?)
      && if controller.None? then shot.controllerMask == 0
         else
           var marked := MarkedBelow(w, slots, c.entityIndex, i) ||
                         Mark(controller.value.flags) == controller.value.flags;
           && shot.controller == Some(controller.value.instance) && shot.handle == controller.value.handle
           && shot.controllerMask == (if marked then 0 else FLAG_FAKE_CLIENT)
           && shot.controllerFlags & shot.controllerMask == 0
  }

  lemma MarkTwice(flags: bv32)
    ensures Mark(Mark(flags)) == Mark(flags)
  {
  }

  lemma MarkMaskBits(flags: bv32)
    ensures MarkMask(flags) == if Mark(flags) == flags then 0 else FLAG_FAKE_CLIENT
    ensures flags & MarkMask(flags) == 0
  {
    MarkMaskWasClear(flags);
    assert flags & FLAG_FAKE_CLIENT == 0 || flags & FLAG_FAKE_CLIENT == FLAG_FAKE_CLIENT;
  }

  lemma MarkMaskWasClear(flags: bv32)
    ensures flags & MarkMask(flags) == 0
  {
  }

  lemma MarkedBelowGrows(w: World, slots: Slots, e: int, n: nat)
    ensures MarkedBelow(w, slots, e, n + 1) <==> MarkedBelow(w, slots, e, n) || Marks(w, slots, n, e)
  {
    if Marks(w, slots, n, e) {
      assert MarkedBelow(w, slots, e, n + 1);
    }
  }

  // Capture does what the table says.
  lemma {:induction false} CaptureTable(w: World, slots: Slots, n: nat)
    requires n <= MAX_SLOTS
    ensures IsCaptured(w, slots, n, Capture(w, slots, n).0)
    ensures forall i :: 0 <= i < n ==> IsShot(w, slots, i, Capture(w, slots, n).1[i])
  {
    hide IsCaptured, IsShot, CaptureSlot;
    if n == 0 {
      NothingCaptured(w, slots);
    } else {
      CaptureTable(w, slots, n - 1);
      var (v, shots) := Capture(w, slots, n - 1);
      CaptureTurn(w, slots, n - 1, v);
    }
  }

  lemma NothingCaptured(w: World, slots: Slots)
    ensures IsCaptured(w, slots, 0, w)
  {
    hide Marks;
  }

  // Flags play no part in finding a controller.
  lemma ControllerInShape(w: World, v: World, c: Client)
    requires SameShape(w, v)
    ensures LiveController(v, c) == if LiveController(w, c).None? then None
                                    else Some(LiveController(w, c).value.(flags := v.entities[c.entityIndex].flags))
  {
  }

  lemma CaptureTurn(w: World, slots: Slots, n: nat, v: World)
    requires n < MAX_SLOTS && IsCaptured(w, slots, n, v)
    ensures IsCaptured(w, slots, n + 1, CaptureSlot(v, slots, n).0)
    ensures IsShot(w, slots, n, CaptureSlot(v, slots, n).1)
  {
    CaptureTurnWorld(w, slots, n, v);
    assert ResolveClient(v, n) == ResolveClient(w, n);
    if slots[n].managed && ResolveClient(w, n).Some? {
      ControllerInShape(w, v, w.clients[n].value);
      CaptureTurnShot(w, slots, n, v);
    }
    hide IsCaptured, MarkedBelow, Mark, SetFakePlayer;
  }

  lemma CaptureTurnShot(w: World, slots: Slots, n: nat, v: World)
    requires n < MAX_SLOTS && IsCaptured(w, slots, n, v)
    requires slots[n].managed && ResolveClient(w, n).Some?
    ensures IsShot(w, slots, n, SnapshotOf(w.clients[n].value, LiveController(v, w.clients[n].value)))
  {
    hide SameShape, LiveController, SetFakePlayer, Mark, MarkMask, MarkedBelow, Marks;
    var c := w.clients[n].value;
    assert SameShape(w, v);
    hide IsCaptured;
    ControllerInShape(w, v, c);
    if LiveController(w, c).Some? {
      CapturedFlags(w, slots, n, v, c);
      MarkMaskBits(v.entities[c.entityIndex].flags);
      MarkTwice(LiveController(w, c).value.flags);
    }
  }

  lemma CapturedFlags(w: World, slots: Slots, n: nat, v: World, c: Client)
    requires IsCaptured(w, slots, n, v) && LiveController(w, c).Some?
    ensures c.entityIndex in v.entities
    ensures v.entities[c.entityIndex].flags ==
              if MarkedBelow(w, slots, c.entityIndex, n) then Mark(LiveController(w, c).value.flags)
              else LiveController(w, c).value.flags
  {
    hide MarkedBelow, Mark;
  }

  lemma CaptureTurnWorld(w: World, slots: Slots, n: nat, v: World)
    requires n < MAX_SLOTS && IsCaptured(w, slots, n, v)
    ensures IsCaptured(w, slots, n + 1, CaptureSlot(v, slots, n).0)
  {
    hide SetFakePlayer, Mark, MarkedBelow, SnapshotOf;
    var v' := CaptureSlot(v, slots, n).0;
    forall e | e in w.entities
      ensures v'.entities[e].flags ==
                if MarkedBelow(w, slots, e, n + 1) then Mark(w.entities[e].flags) else w.entities[e].flags
    {
      MarkedBelowGrows(w, slots, e, n);
      MarkTwice(w.entities[e].flags);
    }
  }

  // Snapshots whose controller masks are those of the one bit that Capture sets.
  ghost predicate ShotsOk(shots: seq<Snapshot>) {
    && |shots| == MAX_SLOTS
    && (forall i :: 0 <= i < MAX_SLOTS ==>
          (shots[i].controllerMask == 0 || shots[i].controllerMask == FLAG_FAKE_CLIENT) &&
          shots[i].controllerFlags & shots[i].controllerMask == 0)
  }

  // Slot i is one through which Restore clears the bit of entity e again.
  ghost predicate Unmarks(w: World, slots: Slots, shots: seq<Snapshot>, i: int, e: int)
    requires |shots| == MAX_SLOTS
  {
    && IsSlot(i) && StillBound(w, slots, i, shots[i])
    && w.clients[i].value.entityIndex == e && StillControls(w, w.clients[i].value, shots[i])
    && shots[i].controllerMask != 0
  }

  ghost predicate UnmarkedBelow(w: World, slots: Slots, shots: seq<Snapshot>, e: int, n: nat)
    requires |shots| == MAX_SLOTS
  {
    exists i :: 0 <= i < n && Unmarks(w, slots, shots, i, e)
  }

  // The world after a restore, whatever happened since the capture.
  ghost predicate IsRestored(w: World, slots: Slots, shots: seq<Snapshot>, n: nat, v: World)
    requires |shots| == MAX_SLOTS
  {
    && SameShape(w, v)
    && (forall i :: 0 <= i < |w.clients| ==>
          v.clients[i] == if i < n && i < MAX_SLOTS && StillBound(w, slots, i, shots[i])
                          then Some(MergeClient(w.clients[i].value, shots[i])) else w.clients[i])
    && (forall e :: e in w.entities ==>
          v.entities[e].flags == if UnmarkedBelow(w, slots, shots, e, n)
                                 then Unmark(w.entities[e].flags) else w.entities[e].flags)
  }

  lemma UnmarkTwice(flags: bv32)
    ensures Unmark(Unmark(flags)) == Unmark(flags)
  {
  }

  lemma MergeUnmarks(now: bv32, was: bv32, mask: bv32)
    requires mask == 0 || mask == FLAG_FAKE_CLIENT
    requires was & mask == 0
    ensures Merge32(now, was, mask) == if mask == 0 then now else Unmark(now)
  {
    if mask == 0 {
      MergeNothing(now, was);
    } else {
      MergeClear(now, was);
    }
    hide Merge32, Unmark;
  }

  lemma MergeNothing(now: bv32, was: bv32)
    ensures Merge32(now, was, 0) == now
  {
    assert !(0 as bv32) == 0xFFFF_FFFF;
  }

  lemma MergeClear(now: bv32, was: bv32)
    requires was & FLAG_FAKE_CLIENT == 0
    ensures Merge32(now, was, FLAG_FAKE_CLIENT) == Unmark(now)
  {
  }

  lemma UnmarkedBelowGrows(w: World, slots: Slots, shots: seq<Snapshot>, e: int, n: nat)
    requires |shots| == MAX_SLOTS
    ensures UnmarkedBelow(w, slots, shots, e, n + 1) <==>
              UnmarkedBelow(w, slots, shots, e, n) || Unmarks(w, slots, shots, n, e)
  {
    if Unmarks(w, slots, shots, n, e) {
      assert UnmarkedBelow(w, slots, shots, e, n + 1);
    }
  }

  // Restore does what the table says: bits that the capture did not flip stay as last written, and
  // a slot that was released or rebound is left alone.
  lemma {:induction false} RestoreTable(w: World, slots: Slots, shots: Saved, n: nat)
    requires ShotsOk(shots) && n <= MAX_SLOTS
    ensures IsRestored(w, slots, shots, n, Restore(w, slots, shots, n))
  {
    hide IsRestored, RestoreSlot, ShotsOk;
    if n == 0 {
      NothingRestored(w, slots, shots);
    } else {
      RestoreTable(w, slots, shots, n - 1);
      RestoreTurn(w, slots, shots, n - 1, Restore(w, slots, shots, n - 1));
    }
  }

  lemma NothingRestored(w: World, slots: Slots, shots: Saved)
    ensures IsRestored(w, slots, shots, 0, w)
  {
    hide Unmarks;
  }

  lemma RestoreTurn(w: World, slots: Slots, shots: seq<Snapshot>, n: nat, v: World)
    requires ShotsOk(shots) && n < MAX_SLOTS && IsRestored(w, slots, shots, n, v)
    ensures IsRestored(w, slots, shots, n + 1, RestoreSlot(v, slots, n, shots[n]))
  {
    var v' := RestoreSlot(v, slots, n, shots[n]);
    RestoreTurnShape(w, slots, shots, n, v);
    forall e | e in w.entities
      ensures v'.entities[e].flags ==
                if UnmarkedBelow(w, slots, shots, e, n + 1) then Unmark(w.entities[e].flags) else w.entities[e].flags
    {
      UnmarkedBelowGrows(w, slots, shots, e, n);
      UnmarkTwice(w.entities[e].flags);
      RestoreTurnFlags(w, slots, shots, n, v, e);
      hide StillBound, StillControls, Unmarks, UnmarkedBelow, Unmark, RestoreSlot;
    }
    hide RestoreSlot, UnmarkedBelow;
  }

  lemma RestoreTurnShape(w: World, slots: Slots, shots: seq<Snapshot>, n: nat, v: World)
    requires ShotsOk(shots) && n < MAX_SLOTS && IsRestored(w, slots, shots, n, v)
    ensures var v' := RestoreSlot(v, slots, n, shots[n]);
            && SameShape(w, v')
            && forall i :: 0 <= i < |w.clients| ==>
                 v'.clients[i] == if i < n + 1 && i < MAX_SLOTS && StillBound(w, slots, i, shots[i])
                                  then Some(MergeClient(w.clients[i].value, shots[i])) else w.clients[i]
  {
    hide MergeClient, Merge32, UnmarkedBelow, Unmark;
  }

  lemma RestoreTurnFlags(w: World, slots: Slots, shots: seq<Snapshot>, n: nat, v: World, e: int)
    requires ShotsOk(shots) && n < MAX_SLOTS && IsRestored(w, slots, shots, n, v) && e in w.entities && e in v.entities
    ensures var v' := RestoreSlot(v, slots, n, shots[n]);
            && e in v'.entities
            && v'.entities[e].flags ==
                 if Unmarks(w, slots, shots, n, e) then Unmark(v.entities[e].flags) else v.entities[e].flags
  {
    hide RestoreSlot, StillBound, StillControls, LiveController, MergeClient, Unmark, UnmarkedBelow;
    assert ResolveClient(v, n) == ResolveClient(w, n);
    assert SameShape(w, v);
    hide IsRestored, SameShape, ResolveClient;
    RestoreSlotFlags(w, slots, v, n, shots[n], e);
  }

  // The same for one snapshot, in any world that has its clients and differs in flags at most.
  lemma RestoreSlotFlags(w: World, slots: Slots, v: World, n: nat, shot: Snapshot, e: int)
    requires n < MAX_SLOTS && SameShape(w, v) && ResolveClient(v, n) == ResolveClient(w, n) && e in w.entities
    requires shot.controllerMask == 0 || shot.controllerMask == FLAG_FAKE_CLIENT
    requires shot.controllerFlags & shot.controllerMask == 0
    ensures var v' := RestoreSlot(v, slots, n, shot);
            && e in v'.entities
            && v'.entities[e].flags ==
                 if StillBound(w, slots, n, shot) && w.clients[n].value.entityIndex == e
                    && StillControls(w, w.clients[n].value, shot) && shot.controllerMask != 0
                 then Unmark(v.entities[e].flags) else v.entities[e].flags
  {
    MergeUnmarks(v.entities[e].flags, shot.controllerFlags, shot.controllerMask);
    hide MergeClient, Merge32, Unmark;
    if StillBound(w, slots, n, shot) {
      var c := w.clients[n].value;
      ControllerInShape(w, v, c);
      var w1 := PutClient(v, n, MergeClient(c, shot));
      ControllerInShape(v, w1, c);
      hide LiveController, SameShape;
    }
  }

  lemma CapturedShotsOk(w: World, slots: Slots)
    ensures ShotsOk(Capture(w, slots, MAX_SLOTS).1)
  {
    CaptureTable(w, slots, MAX_SLOTS);
    hide Capture, Marks, MarkedBelow;
    var shots := Capture(w, slots, MAX_SLOTS).1;
    forall i | 0 <= i < MAX_SLOTS
      ensures (shots[i].controllerMask == 0 || shots[i].controllerMask == FLAG_FAKE_CLIENT) &&
              shots[i].controllerFlags & shots[i].controllerMask == 0
    {
      assert IsShot(w, slots, i, shots[i]);
    }
  }
}
