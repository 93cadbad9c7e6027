/** Controllers that a kicked bot leaves behind are removed a little later, once it is clear that
    they still are what they were when they were queued. */
module ControllerRemoval {
  import opened Prelude
  import opened Engine

  // PendingControllerRemoval
  datatype Pending = Pending(controller: nat, handle: uint32, slot: int, userId: uint16, frames: nat)

  // The user id of the first client whose controller this is, among the slots from `slot` on.
  function ReferencedBy(w: World, controller: nat, slot: nat): Option<uint16>
    requires slot <= MAX_SLOTS
    decreases MAX_SLOTS - slot
  {
    if slot == MAX_SLOTS then None
    else if References(w, slot, controller) then Some(w.clients[slot].value.userId)
    else ReferencedBy(w, controller, slot + 1)
  }

  predicate References(w: World, slot: nat, controller: nat)
    requires IsSlot(slot)
  {
    var client := ResolveClient(w, slot);
    client.Some? &&
    var entity := ResolveEntity(w, client.value.entityIndex);
    entity.Some? && entity.value.isController && entity.value.instance == controller
  }

  predicate HasHandle(q: seq<Pending>, handle: uint32) {
    exists i :: 0 <= i < |q| && q[i].handle == handle
  }

  // QueueControllerRemovalForClient; `able` tells whether UTIL_Remove is known.
  function Queued(w: World, q: seq<Pending>, client: Option<Client>, slot: int, able: bool): seq<Pending> {
    if client.None? || !able || LiveController(w, client.value).None? then q
    else
      var e := LiveController(w, client.value).value;
      if HasHandle(q, e.handle) then q else q + [Pending(e.instance, e.handle, slot, client.value.userId, 0)]
  }

  // Still the live controller that was queued.
  predicate IsCurrent(w: World, item: Pending) {
    var entity := ResolveEntity(w, EntryIndex(item.handle));
    && entity.Some? && entity.value.instance == item.controller && entity.value.isController
    && !entity.value.deleting && entity.value.handle == item.handle
  }

  // What a drain does with an item.
  datatype Verdict = Drop | Wait | Remove

  function Judge(w: World, item: Pending): Verdict {
    if !IsCurrent(w, item) then Drop
    else
      match ReferencedBy(w, item.controller, 0)
      case None => Remove
      case Some(userId) => if userId != item.userId then Drop else if item.frames == 0 then Wait else Remove
  }

  // UTIL_Remove marks the entity for deletion.
  function Removed(w: World, item: Pending): World
    requires IsCurrent(w, item)
  {
    var e := EntryIndex(item.handle);
    w.(entities := w.entities[e := w.entities[e].(deleting := true)])
  }

  datatype Drained = Drained(world: World, kept: seq<Pending>, removed: seq<Pending>)

  // DrainPendingControllerRemovals, with UTIL_Remove known; without it the queue is emptied.
  function Drain(w: World, q: seq<Pending>): Drained
    decreases |q|
  {
    if q == [] then Drained(w, [], [])
    else
      match Judge(w, q[0])
      case Drop => Drain(w, q[1..])
      case Wait =>
        var d := Drain(w, q[1..]);
        d.(kept := [q[0].(frames := q[0].frames + 1)] + d.kept)
      case Remove =>
        var d := Drain(Removed(w, q[0]), q[1..]);
        d.(removed := [q[0]] + d.removed)
  }

  // No two items for one handle.
  ghost predicate Unique(q: seq<Pending>) {
    forall i, j :: 0 <= i < j < |q| ==> q[i].handle != q[j].handle
  }

  lemma QueueKeepsUnique(w: World, q: seq<Pending>, client: Option<Client>, slot: int, able: bool)
    requires Unique(q)
    ensures Unique(Queued(w, q, client, slot, able))
  {
  }

  // The queue has exactly one item for the handle.
  ghost predicate HasOne(q: seq<Pending>, handle: uint32) {
    exists k :: 0 <= k < |q| && q[k].handle == handle && forall j :: 0 <= j < |q| && j != k ==> q[j].handle != handle
  }

  lemma HasOneOf(q: seq<Pending>, handle: uint32)
    requires Unique(q) && HasHandle(q, handle)
    ensures HasOne(q, handle)
  {
    var k :| 0 <= k < |q| && q[k].handle == handle;
    assert forall j :: 0 <= j < |q| && j != k ==> q[j].handle != handle;
  }

  lemma HasLast(q: seq<Pending>, item: Pending)
    ensures HasHandle(q + [item], item.handle)
  {
    assert (q + [item])[|q|].handle == item.handle;
  }

  // A client's live controller is queued, once, and behind all others: the item carries the controller's
  // pointer and handle, the slot and the client's user id. One that is queued already stays as it is.
  lemma LiveControllersAreQueued(w: World, q: seq<Pending>, client: Option<Client>, slot: int, able: bool)
    requires Unique(q)
    ensures var q' := Queued(w, q, client, slot, able);
            var entity := if client.Some? then ResolveEntity(w, client.value.entityIndex) else None;
            if able && entity.Some? && entity.value.isController && !entity.value.deleting
            then
              && HasOne(q', entity.value.handle)
              && q' == if exists i :: 0 <= i < |q| && q[i].handle == entity.value.handle then q
                       else q + [Pending(entity.value.instance, entity.value.handle, slot, client.value.userId, 0)]
            else q' == q
  {
    var q' := Queued(w, q, client, slot, able);
    QueueKeepsUnique(w, q, client, slot, able);
    if client.Some? && able && LiveController(w, client.value).Some? {
      var e := LiveController(w, client.value).value;
      HasLast(q, Pending(e.instance, e.handle, slot, client.value.userId, 0));
      assert HasHandle(q', e.handle);
      HasOneOf(q', e.handle);
    }
    hide HasOne, Unique, ResolveEntity;
  }

  // q, with some items left out and the others waiting one frame longer.
  ghost predicate Thinned(q: seq<Pending>, kept: seq<Pending>)
    decreases |q|
  {
    if kept == [] then true
    else
      && q != []
      && ((q[0].frames == 0 && kept[0] == q[0].(frames := 1) && Thinned(q[1..], kept[1..])) || Thinned(q[1..], kept))
  }

  lemma {:induction false} ThinnedHandles(q: seq<Pending>, kept: seq<Pending>, handle: uint32)
    requires Thinned(q, kept) && HasHandle(kept, handle)
    ensures HasHandle(q, handle)
    decreases |q|
  {
    if q[0].handle != handle {
      if q[0].frames == 0 && kept[0] == q[0].(frames := 1) && Thinned(q[1..], kept[1..]) {
        var i :| 0 <= i < |kept| && kept[i].handle == handle;
        assert kept[1..][i - 1] == kept[i];
        ThinnedHandles(q[1..], kept[1..], handle);
      } else {
        ThinnedHandles(q[1..], kept, handle);
      }
      var i :| 0 <= i < |q[1..]| && q[1..][i].handle == handle;
      assert q[i + 1] == q[1..][i];
    }
  }

  lemma {:induction false} ThinnedUnique(q: seq<Pending>, kept: seq<Pending>)
    requires Thinned(q, kept) && Unique(q)
    ensures Unique(kept)
    ensures forall i :: 0 <= i < |kept| ==> kept[i].frames == 1
    decreases |q|
  {
    if kept != [] {
      assert Unique(q[1..]) by { assert forall i :: 0 <= i < |q| - 1 ==> q[1..][i] == q[i + 1]; }
      if q[0].frames == 0 && kept[0] == q[0].(frames := 1) && Thinned(q[1..], kept[1..]) {
        ThinnedUnique(q[1..], kept[1..]);
        forall i | 1 <= i < |kept| ensures kept[i].handle != kept[0].handle && kept[i].frames == 1 {
          assert kept[1..][i - 1] == kept[i];
          ThinnedHandles(q[1..], kept[1..], kept[i].handle);
          var k :| 0 <= k < |q[1..]| && q[1..][k].handle == kept[i].handle;
          assert q[k + 1] == q[1..][k];
        }
        assert forall i, j :: 1 <= i < j < |kept| ==> kept[i] == kept[1..][i - 1] && kept[j] == kept[1..][j - 1];
      } else {
        ThinnedUnique(q[1..], kept);
      }
    }
  }

  lemma DrainTurn(w: World, q: seq<Pending>)
    requires q != []
    ensures var d := Drain(w, q);
            match Judge(w, q[0])
            case Drop => d == Drain(w, q[1..])
            case Wait => d == Drain(w, q[1..]).(kept := [q[0].(frames := q[0].frames + 1)] + Drain(w, q[1..]).kept)
            case Remove =>
              IsCurrent(w, q[0]) &&
              d == Drain(Removed(w, q[0]), q[1..]).(removed := [q[0]] + Drain(Removed(w, q[0]), q[1..]).removed)
  {
  }

  // What stays keeps its order, and has waited for exactly one drain.
  lemma {:induction false} DrainThins(w: World, q: seq<Pending>)
    ensures Thinned(q, Drain(w, q).kept)
    decreases |q|
  {
    hide Judge, IsCurrent, Removed;
    if q != [] {
      DrainTurn(w, q);
      JudgeWaits(w, q[0]);
      match Judge(w, q[0])
      case Remove => DrainThins(Removed(w, q[0]), q[1..]);
      case Drop => DrainThins(w, q[1..]);
      case Wait =>
        var rest := Drain(w, q[1..]).kept;
        DrainThins(w, q[1..]);
        assert ([q[0].(frames := 1)] + rest)[1..] == rest;
    }
  }

  lemma JudgeWaits(w: World, item: Pending)
    ensures Judge(w, item) == Wait ==> item.frames == 0
  {
  }

  // The worlds seen while a drain goes on differ from the first only in what it has marked.
  ghost predicate MarkedFrom(w: World, v: World) {
    && v.clients == w.clients && v.entities.Keys == w.entities.Keys
    && forall e :: e in w.entities ==>
         v.entities[e] == w.entities[e] ||
         (!w.entities[e].deleting && v.entities[e] == w.entities[e].(deleting := true))
  }

  lemma {:induction false} MarkedFromReferences(w: World, v: World, controller: nat, slot: nat)
    requires MarkedFrom(w, v) && slot <= MAX_SLOTS
    ensures ReferencedBy(v, controller, slot) == ReferencedBy(w, controller, slot)
    decreases MAX_SLOTS - slot
  {
    if slot < MAX_SLOTS {
      MarkedFromReferences(w, v, controller, slot + 1);
    }
  }

  // An item that is live with the same pointer and handle, and not in use under another user id.
  predicate MayGo(w: World, item: Pending) {
    IsCurrent(w, item) && Judge(w, item) == Remove
  }

  // Slot i holds the first client that has the controller.
  predicate IsFirstWith(w: World, controller: nat, i: nat) {
    IsSlot(i) && References(w, i, controller) && forall j :: 0 <= j < i ==> !References(w, j, controller)
  }

  // The client of slot i points to a controller of that pointer, being deleted or not.
  predicate Uses(w: World, i: nat, controller: nat) {
    && IsSlot(i) && ResolveClient(w, i).Some?
    && match ResolveEntity(w, w.clients[i].value.entityIndex)
       case None => false
       case Some(e) => e.isController && e.instance == controller
  }

  // Its first user is the client with that user id.
  ghost predicate FirstUserIs(w: World, controller: nat, userId: uint16) {
    exists i: nat :: Uses(w, i, controller) && w.clients[i].value.userId == userId &&
                     forall j: nat :: j < i ==> !Uses(w, j, controller)
  }

  // The item's controller is where it was, with the same pointer and handle, and is not being deleted.
  predicate IsStillThere(w: World, item: Pending) {
    match ResolveEntity(w, item.handle % 0x8000)
    case None => false
    case Some(e) => e.instance == item.controller && e.handle == item.handle && e.isController && !e.deleting
  }

  lemma ReferencedByFirstUser(w: World, controller: nat)
    ensures match ReferencedBy(w, controller, 0)
            case None => forall i: nat :: !Uses(w, i, controller)
            case Some(userId) =>
              && (exists i: nat :: Uses(w, i, controller))
              && forall u: uint16 :: FirstUserIs(w, controller, u) <==> u == userId
  {
    ReferencedByIsFirst(w, controller, 0);
    assert forall i: nat :: Uses(w, i, controller) <==> IsSlot(i) && References(w, i, controller);
    hide Uses, References, ReferencedBy;
    var user := ReferencedBy(w, controller, 0);
    if user.Some? {
      var first: nat :| IsFirstWith(w, controller, first) && w.clients[first].value.userId == user.value;
      assert Uses(w, first, controller) && forall j: nat :: j < first ==> !Uses(w, j, controller);
      assert FirstUserIs(w, controller, user.value);
      forall u: uint16 | FirstUserIs(w, controller, u) ensures u == user.value {
        var i: nat :| Uses(w, i, controller) && w.clients[i].value.userId == u &&
                      forall j: nat :: j < i ==> !Uses(w, j, controller);
        assert i == first;
      }
      hide FirstUserIs;
    }
  }

  lemma {:induction false} ReferencedByIsFirst(w: World, controller: nat, slot: nat)
    requires slot <= MAX_SLOTS && forall j :: 0 <= j < slot ==> !References(w, j, controller)
    ensures match ReferencedBy(w, controller, slot)
            case None => forall j :: 0 <= j < MAX_SLOTS ==> !References(w, j, controller)
            case Some(userId) => exists i: nat :: IsFirstWith(w, controller, i) && w.clients[i].value.userId == userId
    decreases MAX_SLOTS - slot
  {
    hide References;
    if slot < MAX_SLOTS {
      if References(w, slot, controller) {
        assert IsFirstWith(w, controller, slot);
      } else {
        ReferencedByIsFirst(w, controller, slot + 1);
      }
    }
  }

  // An item may go exactly if its controller is live and unchanged, and either no client uses it or the
  // first client that does is still the queued user's and the item has waited for a drain.
  lemma RemovalIsJustified(w: World, item: Pending)
    ensures MayGo(w, item) <==>
            && IsStillThere(w, item)
            && ((forall i: nat :: !Uses(w, i, item.controller))
                || (item.frames > 0 && FirstUserIs(w, item.controller, item.userId)))
  {
    ReferencedByFirstUser(w, item.controller);
    hide Uses, ReferencedBy;
  }

  // An item waits exactly if its controller is live and unchanged, it has not waited yet, and the first
  // client that uses the controller is the queued user's.
  lemma WaitIsJustified(w: World, item: Pending)
    ensures Judge(w, item) == Wait <==>
            IsStillThere(w, item) && item.frames == 0 && FirstUserIs(w, item.controller, item.userId)
  {
    ReferencedByFirstUser(w, item.controller);
    hide Uses, ReferencedBy;
  }

  lemma RemovedIsMarked(w: World, item: Pending, v: World)
    requires IsCurrent(w, item) && MarkedFrom(Removed(w, item), v)
    ensures MarkedFrom(w, v)
    ensures EntryIndex(item.handle) in w.entities &&
            v.entities[EntryIndex(item.handle)] == w.entities[EntryIndex(item.handle)].(deleting := true)
  {
  }

  lemma MayGoBefore(w: World, first: Pending, item: Pending)
    requires IsCurrent(w, first) && MayGo(Removed(w, first), item)
    ensures MayGo(w, item)
  {
    MarkedFromReferences(w, Removed(w, first), item.controller, 0);
  }

  // Entity e is the one of some item.
  ghost predicate Covers(items: seq<Pending>, e: int) {
    exists i :: 0 <= i < |items| && EntryIndex(items[i].handle) == e
  }

  // What a drain removes: items of the queue, each live with the same pointer and handle, and not
  // in use under another user id, each at most once; and nothing else happens to the world.
  lemma {:induction false} DrainRemoves(w: World, q: seq<Pending>)
    requires Unique(q)
    ensures var d := Drain(w, q);
            && MarkedFrom(w, d.world)
            && Unique(d.removed)
            && (forall i :: 0 <= i < |d.removed| ==> d.removed[i] in q && MayGo(w, d.removed[i]))
            && (forall e :: e in w.entities ==>
                  d.world.entities[e] ==
                    if Covers(d.removed, e) then w.entities[e].(deleting := true) else w.entities[e])
    decreases |q|
  {
    if q != [] {
      DrainTurn(w, q);
      assert Unique(q[1..]) by { assert forall i :: 0 <= i < |q| - 1 ==> q[1..][i] == q[i + 1]; }
      if Judge(w, q[0]) == Remove {
        var v := Removed(w, q[0]);
        DrainRemoves(v, q[1..]);
        RemovedIsMarked(w, q[0], Drain(v, q[1..]).world);
        FirstRemoved(w, q, Drain(v, q[1..]));
      } else {
        DrainRemoves(w, q[1..]);
      }
      hide Drain, Judge, IsCurrent, MarkedFrom, MayGo, Removed, Covers;
    }
  }

  lemma FirstRemoved(w: World, q: seq<Pending>, rest: Drained)
    requires q != [] && Unique(q) && MayGo(w, q[0])
    requires MarkedFrom(w, rest.world) && Unique(rest.removed)
    requires forall i :: 0 <= i < |rest.removed| ==>
               rest.removed[i] in q[1..] && MayGo(Removed(w, q[0]), rest.removed[i])
    requires forall e :: e in w.entities ==>
               rest.world.entities[e] ==
                 if Covers(rest.removed, e) then Removed(w, q[0]).entities[e].(deleting := true)
                 else Removed(w, q[0]).entities[e]
    ensures var all := [q[0]] + rest.removed;
            && Unique(all)
            && (forall i :: 0 <= i < |all| ==> all[i] in q && MayGo(w, all[i]))
            && (forall e :: e in w.entities ==>
                  rest.world.entities[e] == if Covers(all, e) then w.entities[e].(deleting := true) else w.entities[e])
  {
    hide Judge, IsCurrent, MarkedFrom;
    var all := [q[0]] + rest.removed;
    forall i | 0 <= i < |rest.removed|
      ensures rest.removed[i] in q && MayGo(w, rest.removed[i]) && rest.removed[i].handle != q[0].handle
    {
      MayGoBefore(w, q[0], rest.removed[i]);
      var k :| 0 <= k < |q[1..]| && q[1..][k] == rest.removed[i];
      assert q[k + 1] == rest.removed[i];
    }
    forall e ensures Covers(all, e) <==> e == EntryIndex(q[0].handle) || Covers(rest.removed, e) {
      CoversFirst(q[0], rest.removed, e);
    }
    hide MayGo, Covers;
  }

  lemma CoversFirst(first: Pending, rest: seq<Pending>, e: int)
    ensures Covers([first] + rest, e) <==> e == EntryIndex(first.handle) || Covers(rest, e)
  {
    var all := [first] + rest;
    if e == EntryIndex(first.handle) {
      assert all[0] == first;
    }
    if Covers(rest, e) {
      var i :| 0 <= i < |rest| && EntryIndex(rest[i].handle) == e;
      assert all[i + 1] == rest[i];
    }
  }

  // What happened to the items before it does not bear on the verdict about an item.
  lemma LaterIsJudgedTheSame(w: World, first: Pending, item: Pending)
    requires IsCurrent(w, first) && item.handle != first.handle
    ensures Judge(Removed(w, first), item) == Judge(w, item)
  {
    MarkedFromReferences(w, Removed(w, first), item.controller, 0);
    hide ReferencedBy;
  }

  lemma HandleInFront(first: Pending, rest: seq<Pending>, handle: uint32)
    ensures HasHandle([first] + rest, handle) <==> first.handle == handle || HasHandle(rest, handle)
  {
    var all := [first] + rest;
    if first.handle == handle {
      assert all[0].handle == handle;
    }
    if HasHandle(rest, handle) {
      var i :| 0 <= i < |rest| && rest[i].handle == handle;
      assert all[i + 1] == rest[i];
    }
    if HasHandle(all, handle) && first.handle != handle {
      var i :| 0 <= i < |all| && all[i].handle == handle;
      assert rest[i - 1] == all[i];
    }
  }

  // A handle that is not queued is neither kept nor removed.
  lemma DrainHandles(w: World, q: seq<Pending>, handle: uint32)
    requires Unique(q) && !HasHandle(q, handle)
    ensures !HasHandle(Drain(w, q).removed, handle) && !HasHandle(Drain(w, q).kept, handle)
  {
    DrainThins(w, q);
    DrainRemoves(w, q);
    hide Drain, MayGo, MarkedFrom, Covers;
    if HasHandle(Drain(w, q).kept, handle) {
      ThinnedHandles(q, Drain(w, q).kept, handle);
    }
  }

  // A drain takes every item by its own case: all that may go are removed, all that have to wait are
  // kept, and all others are dropped.
  lemma {:induction false} DrainDecides(w: World, q: seq<Pending>, i: nat)
    requires Unique(q) && i < |q|
    ensures var d := Drain(w, q);
            && (HasHandle(d.removed, q[i].handle) <==> Judge(w, q[i]) == Remove)
            && (HasHandle(d.kept, q[i].handle) <==> Judge(w, q[i]) == Wait)
    decreases |q|
  {
    DrainTurn(w, q);
    assert forall k :: 0 <= k < |q| - 1 ==> q[1..][k] == q[k + 1];
    var judged := Judge(w, q[0]);
    var v := if judged == Remove then Removed(w, q[0]) else w;
    if judged == Remove && i > 0 {
      LaterIsJudgedTheSame(w, q[0], q[i]);
    }
    hide Drain, Judge, IsCurrent, Removed;
    if i > 0 {
      DrainDecides(v, q[1..], i - 1);
    } else {
      DrainHandles(v, q[1..], q[0].handle);
    }
    var rest := Drain(v, q[1..]);
    HandleInFront(q[0], rest.removed, q[i].handle);
    HandleInFront(q[0].(frames := q[0].frames + 1), rest.kept, q[i].handle);
  }

  // The queue over a run: the world changes as it likes between the plugin's own steps.
  datatype Event =
    | OnDisconnect(client: Option<Client>, slot: int)
    | OnFrame
    | OnRelease
    | EngineMoves(world: World)

  datatype State = State(world: World, able: bool, queue: seq<Pending>)

  function Step(s: State, e: Event): State {
    match e
    case OnDisconnect(client, slot) => s.(queue := Queued(s.world, s.queue, client, slot, s.able))
    case OnFrame =>
      if !s.able then s.(queue := [])
      else
        var d := Drain(s.world, s.queue);
        s.(world := d.world, queue := d.kept)
    case OnRelease => s.(queue := [])
    case EngineMoves(world) => s.(world := world)
  }

  // What a frame does with each item of the queue. Without UTIL_Remove it drops them all. Otherwise an item
  // whose controller is not still there is dropped; one that no client uses is removed at once; one that is
  // used by the queued user is kept at its first drain and removed at its second; and one that is used by
  // another user first is dropped.
  lemma FramesDrain(s: State, i: nat)
    requires Unique(s.queue) && i < |s.queue|
    ensures var item, s' := s.queue[i], Step(s, OnFrame);
            var used := exists j: nat :: Uses(s.world, j, item.controller);
            var own := FirstUserIs(s.world, item.controller, item.userId);
            if !s.able then s'.queue == [] && s'.world == s.world
            else
              && (HasHandle(s'.queue, item.handle) <==> IsStillThere(s.world, item) && own && item.frames == 0)
              && (HasHandle(Drain(s.world, s.queue).removed, item.handle) <==>
                    IsStillThere(s.world, item) && (!used || (own && item.frames > 0)))
              && (IsStillThere(s.world, item) && (!used || (own && item.frames > 0)) ==>
                    var at := item.handle % 0x8000; at in s'.world.entities && s'.world.entities[at].deleting)
  {
    if s.able {
      DrainDecides(s.world, s.queue, i);
      DrainRemoves(s.world, s.queue);
      RemovalIsJustified(s.world, s.queue[i]);
      WaitIsJustified(s.world, s.queue[i]);
      var d := Drain(s.world, s.queue);
      hide Drain, FirstUserIs, Uses;
      if Judge(s.world, s.queue[i]) == Remove {
        RemovedIsDeleting(s.world, s.queue, s.queue[i].handle);
      }
      hide Judge, IsStillThere, MarkedFrom;
    }
  }

  lemma RemovedIsDeleting(w: World, q: seq<Pending>, handle: uint32)
    requires Unique(q) && HasHandle(Drain(w, q).removed, handle)
    ensures var at := handle % 0x8000;
            at in Drain(w, q).world.entities && Drain(w, q).world.entities[at].deleting
  {
    DrainRemoves(w, q);
    hide Drain;
    var d := Drain(w, q);
    var k :| 0 <= k < |d.removed| && d.removed[k].handle == handle;
    assert IsCurrent(w, d.removed[k]) && Covers(d.removed, EntryIndex(handle));
  }

  // The other steps: a disconnect queues the client's live controller behind the others, a release of all
  // bots drops everything, and only the engine changes the world.
  lemma OtherStepsQueue(s: State, e: Event)
    requires Unique(s.queue) && !e.OnFrame?
    ensures var s' := Step(s, e);
            && s'.able == s.able && s'.world == (if e.EngineMoves? then e.world else s.world)
            && (e.OnRelease? ==> s'.queue == [])
            && (e.EngineMoves? ==> s'.queue == s.queue)
            && (e.OnDisconnect? && s.able && e.client.Some? && LiveController(s.world, e.client.value).Some? ==>
                  HasOne(s'.queue, LiveController(s.world, e.client.value).value.handle) && s.queue <= s'.queue)
  {
    if e.OnDisconnect? {
      LiveControllersAreQueued(s.world, s.queue, e.client, e.slot, s.able);
      hide HasOne;
    }
  }

  function Run(s: State, es: seq<Event>): State
    decreases |es|
  {
    if es == [] then s else Run(Step(s, es[0]), es[1..])
  }

  ghost predicate Inv(s: State) {
    Unique(s.queue) && forall i :: 0 <= i < |s.queue| ==> s.queue[i].frames <= 1
  }

  lemma StepKeeps(s: State, e: Event)
    requires Inv(s)
    ensures Inv(Step(s, e))
  {
    match e
    case OnDisconnect(client, slot) => QueueKeepsUnique(s.world, s.queue, client, slot, s.able);
    case OnFrame =>
      DrainThins(s.world, s.queue);
      ThinnedUnique(s.queue, Drain(s.world, s.queue).kept);
    case OnRelease =>
    case EngineMoves(_) =>
  }

  // Every run from an empty queue keeps it free of duplicates.
  lemma {:induction false} RunKeeps(s: State, es: seq<Event>)
    requires Inv(s)
    ensures Inv(Run(s, es))
    decreases |es|
  {
    if es != [] {
      StepKeeps(s, es[0]);
      RunKeeps(Step(s, es[0]), es[1..]);
    }
  }

  predicate NoFrame(es: seq<Event>) {
    forall i :: 0 <= i < |es| ==> !es[i].OnFrame?
  }

  // Items only leave the queue, or stay where they are, until the next drain.
  ghost predicate Waits(s: State, handle: uint32) {
    forall i :: 0 <= i < |s.queue| && s.queue[i].handle == handle ==> s.queue[i].frames == 1
  }

  lemma {:induction false} OldItemsWait(s: State, es: seq<Event>, handle: uint32)
    requires Inv(s) && NoFrame(es) && Waits(s, handle)
    requires HasHandle(Run(s, es).queue, handle)
    ensures Waits(Run(s, es), handle) || exists k :: 0 <= k < |es| && !HasHandle(Run(s, es[..k]).queue, handle)
    decreases |es|
  {
    if es != [] {
      if !HasHandle(s.queue, handle) {
        assert es[..0] == [] && Run(s, es[..0]) == s;
      } else {
        var s' := Step(s, es[0]);
        StepKeeps(s, es[0]);
        assert Waits(s', handle);
        OldItemsWait(s', es[1..], handle);
        if !Waits(Run(s, es), handle) {
          var k :| 0 <= k < |es[1..]| && !HasHandle(Run(s', es[1..][..k]).queue, handle);
          assert es[..k + 1][0] == es[0] && es[..k + 1][1..] == es[1..][..k];
          assert Run(s, es[..k + 1]) == Run(s', es[1..][..k]);
          assert !HasHandle(Run(s, es[..k + 1]).queue, handle);
        }
      }
    }
  }

  lemma {:induction false} WaitingItemsLeave(q: seq<Pending>, kept: seq<Pending>, handle: uint32)
    requires Thinned(q, kept) && forall i :: 0 <= i < |q| && q[i].handle == handle ==> q[i].frames == 1
    ensures !HasHandle(kept, handle)
    decreases |q|
  {
    if kept != [] {
      assert forall i :: 0 <= i < |q| - 1 ==> q[1..][i] == q[i + 1];
      if q[0].frames == 0 && kept[0] == q[0].(frames := 1) && Thinned(q[1..], kept[1..]) {
        WaitingItemsLeave(q[1..], kept[1..], handle);
        assert forall i :: 1 <= i < |kept| ==> kept[i] == kept[1..][i - 1];
      } else {
        WaitingItemsLeave(q[1..], kept, handle);
      }
    }
  }

  // An item that was in the queue before a drain is gone after the second one, whatever happens in
  // between; if its handle is in the queue again, it had left and was queued anew.
  lemma GoneByTheSecondDrain(s: State, es: seq<Event>, handle: uint32)
    requires Inv(s) && NoFrame(es)
    ensures var s1 := Step(s, OnFrame);
            var s2 := Run(s1, es);
            HasHandle(Step(s2, OnFrame).queue, handle) ==>
              exists k :: 0 <= k < |es| && !HasHandle(Run(s1, es[..k]).queue, handle)
  {
    var s1 := Step(s, OnFrame);
    var s2 := Run(s1, es);
    StepKeeps(s, OnFrame);
    RunKeeps(s1, es);
    if s.able {
      DrainThins(s.world, s.queue);
      ThinnedUnique(s.queue, s1.queue);
    }
    if HasHandle(Step(s2, OnFrame).queue, handle) {
      DrainThins(s2.world, s2.queue);
      ThinnedHandles(s2.queue, Step(s2, OnFrame).queue, handle);
      OldItemsWait(s1, es, handle);
      if Waits(s2, handle) {
        WaitingItemsLeave(s2.queue, Step(s2, OnFrame).queue, handle);
      }
    }
  }

  // What a step removes.
  function RemovedBy(s: State, e: Event): seq<Pending> {
    if e.OnFrame? && s.able then Drain(s.world, s.queue).removed else []
  }

  // What a drain removes it does not keep.
  lemma {:induction false} RemovedIsNotKept(w: World, q: seq<Pending>, handle: uint32)
    requires Unique(q) && HasHandle(Drain(w, q).removed, handle)
    ensures !HasHandle(Drain(w, q).kept, handle) && HasHandle(q, handle)
    decreases |q|
  {
    hide Judge, IsCurrent, Removed;
    DrainTurn(w, q);
    assert forall i :: 0 <= i < |q| - 1 ==> q[1..][i] == q[i + 1];
    match Judge(w, q[0])
    case Drop =>
      RemovedIsNotKept(w, q[1..], handle);
      LaterHandle(q, handle);
    case Wait =>
      RemovedIsNotKept(w, q[1..], handle);
      LaterHandle(q, handle);
      var rest, kept := Drain(w, q[1..]).kept, Drain(w, q).kept;
      assert forall i :: 1 <= i < |kept| ==> kept[i] == rest[i - 1];
    case Remove =>
      var v := Removed(w, q[0]);
      var d := Drain(v, q[1..]);
      if q[0].handle == handle {
        if HasHandle(d.kept, handle) {
          DrainThins(v, q[1..]);
          ThinnedHandles(q[1..], d.kept, handle);
          assert false;
        }
      } else {
        var i :| 0 <= i < |[q[0]] + d.removed| && ([q[0]] + d.removed)[i].handle == handle;
        assert d.removed[i - 1].handle == handle;
        RemovedIsNotKept(v, q[1..], handle);
        LaterHandle(q, handle);
      }
  }

  lemma LaterHandle(q: seq<Pending>, handle: uint32)
    requires q != [] && HasHandle(q[1..], handle)
    ensures HasHandle(q, handle)
  {
    var i :| 0 <= i < |q[1..]| && q[1..][i].handle == handle;
    assert q[i + 1] == q[1..][i];
  }

  // The k-th event of a run queues the handle.
  ghost predicate Queues(s: State, es: seq<Event>, k: nat, handle: uint32)
    requires k < |es|
  {
    var before := Run(s, es[..k]);
    es[k].OnDisconnect? && !HasHandle(before.queue, handle) && HasHandle(Step(before, es[k]).queue, handle)
  }

  // A handle comes into the queue only by being queued.
  lemma {:induction false} OnlyQueued(s: State, es: seq<Event>, handle: uint32)
    requires Inv(s) && !HasHandle(s.queue, handle) && HasHandle(Run(s, es).queue, handle)
    ensures exists k :: 0 <= k < |es| && Queues(s, es, k, handle)
    decreases |es|
  {
    var s' := Step(s, es[0]);
    StepKeeps(s, es[0]);
    if HasHandle(s'.queue, handle) {
      if es[0].OnFrame? {
        DrainThins(s.world, s.queue);
        ThinnedHandles(s.queue, s'.queue, handle);
      }
      assert es[..0] == [] && Run(s, es[..0]) == s;
      assert Queues(s, es, 0, handle);
    } else {
      OnlyQueued(s', es[1..], handle);
      var k :| 0 <= k < |es[1..]| && Queues(s', es[1..], k, handle);
      assert es[..k + 1][0] == es[0] && es[..k + 1][1..] == es[1..][..k];
      assert Run(s, es[..k + 1]) == Run(s', es[1..][..k]);
      assert Queues(s, es, k + 1, handle);
    }
  }

  // Over every run an item is removed at most once: between two removals for one handle it has been
  // queued anew.
  lemma RemovedAtMostOnce(s: State, es: seq<Event>, handle: uint32)
    requires Inv(s) && HasHandle(RemovedBy(s, OnFrame), handle)
    ensures var s1 := Step(s, OnFrame);
            HasHandle(RemovedBy(Run(s1, es), OnFrame), handle) ==>
              exists k :: 0 <= k < |es| && Queues(s1, es, k, handle)
  {
    var s1 := Step(s, OnFrame);
    RemovedIsNotKept(s.world, s.queue, handle);
    StepKeeps(s, OnFrame);
    if HasHandle(RemovedBy(Run(s1, es), OnFrame), handle) {
      RunKeeps(s1, es);
      var s2 := Run(s1, es);
      RemovedIsNotKept(s2.world, s2.queue, handle);
      OnlyQueued(s1, es, handle);
    }
  }

  // The outcome of a drain whose front part is done.
  ghost function PutAfter(kept: seq<Pending>, removed: seq<Pending>, rest: Drained): Drained {
    Drained(rest.world, kept + rest.kept, removed + rest.removed)
  }

  // One more turn of it.
  lemma TurnTaken(w: World, kept: seq<Pending>, removed: seq<Pending>, q: seq<Pending>)
    requires q != []
    ensures PutAfter(kept, removed, Drain(w, q)) ==
              match Judge(w, q[0])
              case Drop => PutAfter(kept, removed, Drain(w, q[1..]))
              case Wait => PutAfter(kept + [q[0].(frames := q[0].frames + 1)], removed, Drain(w, q[1..]))
              case Remove =>
                assert IsCurrent(w, q[0]);
                PutAfter(kept, removed + [q[0]], Drain(Removed(w, q[0]), q[1..]))
  {
    hide Drain, Judge, IsCurrent, Removed;
    DrainTurn(w, q);
    if Judge(w, q[0]) == Remove {
      var rest := Drain(Removed(w, q[0]), q[1..]);
      assert removed + ([q[0]] + rest.removed) == removed + [q[0]] + rest.removed;
    }
    if Judge(w, q[0]) == Wait {
      var rest, item := Drain(w, q[1..]), q[0].(frames := q[0].frames + 1);
      assert kept + ([item] + rest.kept) == kept + [item] + rest.kept;
    }
  }

  lemma Erased(q: seq<Pending>, i: nat)
    requires i < |q|
    ensures var e := q[..i] + q[i + 1..]; e[..i] == q[..i] && e[i..] == q[i + 1..]
  {
  }

  lemma Replaced(q: seq<Pending>, i: nat, item: Pending)
    requires i < |q|
    ensures q[i := item][..i + 1] == q[..i] + [item] && q[i := item][i + 1..] == q[i + 1..]
  {
  }

  // Before the first turn, and after the last.
  lemma DrainEnds(w: World, q: seq<Pending>, kept: seq<Pending>, removed: seq<Pending>)
    ensures PutAfter([], [], Drain(w, q)) == Drain(w, q)
    ensures PutAfter(kept, removed, Drain(w, [])) == Drained(w, kept, removed)
  {
    var d := Drain(w, q);
    assert [] + d.kept == d.kept && [] + d.removed == d.removed;
  }

  class RemovalQueue {
    var pending: seq<Pending>

    constructor ()
      ensures pending == []
    {
      pending := [];
    }

    method Clear()
      modifies this
      ensures pending == []
    {
      pending := [];
    }

    method IsControllerReferencedByClient(world: World, controller: nat) returns (userId: Option<uint16>)
      ensures userId == ReferencedBy(world, controller, 0)
    {
      for slot := 0 to MAX_SLOTS
        invariant ReferencedBy(world, controller, 0) == ReferencedBy(world, controller, slot)
      {
        var client := ResolveClient(world, slot);
        if client.None? {
          continue;
        }
        var current := ResolveEntity(world, client.value.entityIndex);
        if current.None? || current.value.instance != controller || !current.value.isController {
          continue;
        }
        return Some(client.value.userId);
      }
      return None;
    }

    method QueueControllerRemovalForClient(world: World, client: Option<Client>, slot: int, able: bool)
      returns (queued: bool)
      modifies this`pending
      ensures pending == Queued(world, old(pending), client, slot, able)
      ensures queued <==> client.Some? && able && LiveController(world, client.value).Some?
    {
      if client.None? || !able {
        return false;
      }
      var controller := ResolveEntity(world, client.value.entityIndex);
      if controller.None? || !controller.value.isController || controller.value.deleting {
        return false;
      }
      var handle := controller.value.handle;
      for i := 0 to |pending|
        invariant forall k :: 0 <= k < i ==> pending[k].handle != handle
      {
        if pending[i].handle == handle {
          return true;
        }
      }
      pending := pending + [Pending(controller.value.instance, handle, slot, client.value.userId, 0)];
      return true;
    }

    // Items are erased, kept or removed in place, front to back.
    method DrainPendingControllerRemovals(before: World, able: bool) returns (world: World, ghost removed: seq<Pending>)
      modifies this
      ensures !able ==> pending == [] && world == before && removed == []
      ensures able ==> Drained(world, pending, removed) == Drain(before, old(pending))
    {
      world, removed := before, [];
      if !able {
        pending := [];
        return;
      }
      hide Drain, PutAfter;
      ghost var first := Drain(world, pending);
      DrainEnds(world, pending, [], []);
      var i := 0;
      while i < |pending|
        invariant 0 <= i <= |pending|
        invariant first == PutAfter(pending[..i], removed, Drain(world, pending[i..]))
        decreases |pending| - i
      {
        world, i, removed := DrainItem(world, i, removed);
      }
      assert pending[i..] == [] && pending[..i] == pending;
      DrainEnds(world, [], pending, removed);
    }

    // One turn of the loop.
    method DrainItem(before: World, i: nat, ghost gone: seq<Pending>) returns (world: World, next: nat,
                                                                               ghost removed: seq<Pending>)
      requires i < |pending|
      modifies this
      ensures next <= |pending| && |pending| - next < |old(pending)| - i
      ensures PutAfter(pending[..next], removed, Drain(world, pending[next..])) ==
                old(PutAfter(pending[..i], gone, Drain(before, pending[i..])))
    {
      hide Judge, IsCurrent, Drain, Removed, PutAfter;
      world, removed := before, gone;
      var item := pending[i];
      ghost var tail := pending[i + 1..];
      TurnTaken(world, pending[..i], removed, pending[i..]);
      assert pending[i..][1..] == tail;
      var v := Verdict(world, item);
      if v == Remove {
        world := Removed(world, item);
        removed := removed + [item];
      }
      next := KeepOrErase(i, v);
      assert |tail| == |old(pending)| - i - 1;
    }

    // The item at i is left waiting, or erased; the result is where the drain goes on.
    method KeepOrErase(i: nat, v: Verdict) returns (next: nat)
      requires i < |pending|
      modifies this
      ensures next <= |pending| && pending[next..] == old(pending)[i + 1..]
      ensures pending[..next] ==
                if v == Wait then old(pending)[..i] + [old(pending)[i].(frames := old(pending)[i].frames + 1)]
                else old(pending)[..i]
    {
      if v == Wait {
        Replaced(pending, i, pending[i].(frames := pending[i].frames + 1));
        pending := pending[i := pending[i].(frames := pending[i].frames + 1)];
        return i + 1;
      }
      Erased(pending, i);
      pending := pending[..i] + pending[i + 1..];
      return i;
    }

    method Verdict(world: World, item: Pending) returns (v: Verdict)
      ensures v == Judge(world, item) && (v == Remove ==> IsCurrent(world, item))
    {
      var current := ResolveEntity(world, EntryIndex(item.handle));
      if current.None? || current.value.instance != item.controller || !current.value.isController
         || current.value.deleting || current.value.handle != item.handle {
        return Drop;
      }
      var userId := IsControllerReferencedByClient(world, item.controller);
      if userId.Some? {
        if userId.value != item.userId {
          return Drop;
        }
        if item.frames == 0 {
          return Wait;
        }
      }
      return Remove;
    }
  }

}