/** While entities are packed for the network, managed pawns do not carry FL_BOT. */
module Packing {
  import opened Prelude
  import opened Engine
  import opened Manager
  import opened ScopedRestore

  datatype PawnRef = PawnRef(instance: nat, handle: uint32)

  // ResolveClientPawn
  function PawnOf(w: World, client: Option<Client>): Option<PawnRef> {
    if client.None? then None
    else
      var controller := LiveController(w, client.value);
      if controller.None? || controller.value.pawnHandle == NO_HANDLE then None
      else
        var handle := controller.value.pawnHandle;
        var pawn := ResolveEntity(w, EntryIndex(handle));
        if pawn.None? || pawn.value.deleting || pawn.value.handle != handle then None
        else Some(PawnRef(pawn.value.instance, handle))
  }

  function WithoutBot(flags: bv32): bv32 {
    flags & 0xFFFF_FFEF
  }

  function WithBot(flags: bv32): bv32 {
    flags | FLAG_BOT
  }

  // One turn of ApplyBotFlagOverride.
  function HideSlot(w: World, slots: Slots, slot: nat): (World, seq<PawnRef>)
    requires IsSlot(slot)
  {
    var pawn := PawnOf(w, ResolveClient(w, slot));
    if !slots[slot].managed || pawn.None? then (w, [])
    else
      var e := EntryIndex(pawn.value.handle);
      var flags := w.entities[e].flags;
      if flags & FLAG_BOT == 0 then (w, []) else (PutFlags(w, e, WithoutBot(flags)), [pawn.value])
  }

  // ApplyBotFlagOverride, up to slot n.
  function HideAll(w: World, slots: Slots, n: nat): (World, seq<PawnRef>)
    requires n <= MAX_SLOTS
  {
    if n == 0 then (w, [])
    else
      var (w1, refs) := HideAll(w, slots, n - 1);
      var (w2, more) := HideSlot(w1, slots, n - 1);
      (w2, refs + more)
  }

  // The recorded pawn still exists.
  predicate Survives(w: World, ref: PawnRef) {
    var pawn := ResolveEntity(w, EntryIndex(ref.handle));
    pawn.Some? && pawn.value.instance == ref.instance && !pawn.value.deleting && pawn.value.handle == ref.handle
  }

  // RestoreBotFlagOverride, up to the n-th pawn.
  function ShowBots(w: World, refs: seq<PawnRef>, n: nat): World
    requires n <= |refs|
  {
    if n == 0 then w
    else
      var w1 := ShowBots(w, refs, n - 1);
      var ref := refs[n - 1];
      var e := EntryIndex(ref.handle);
      if Survives(w1, ref) then PutFlags(w1, e, WithBot(w1.entities[e].flags)) else w1
  }

  // Slot i leads to the pawn at index e.
  predicate HasPawn(w: World, slots: Slots, i: int, e: int) {
    && IsSlot(i) && slots[i].managed
    && PawnOf(w, ResolveClient(w, i)).Some? && EntryIndex(PawnOf(w, ResolveClient(w, i)).value.handle) == e
  }

  ghost predicate HasPawnBelow(w: World, slots: Slots, e: int, n: nat) {
    exists i :: 0 <= i < n && HasPawn(w, slots, i, e)
  }

  predicate CarriesBot(flags: bv32) {
    flags & FLAG_BOT != 0
  }

  // A record for the entity at index e.
  ghost predicate Recorded(refs: seq<PawnRef>, w: World, e: int) {
    e in w.entities && PawnRef(w.entities[e].instance, w.entities[e].handle) in refs &&
    EntryIndex(w.entities[e].handle) == e
  }

  // The world and the record during the override: a bot flag is off exactly on the pawns recorded,
  // which are the managed ones that had it, each recorded once.
  ghost predicate IsHidden(w: World, slots: Slots, n: nat, v: World, refs: seq<PawnRef>) {
    && SameShape(w, v) && v.clients == w.clients
    && (forall e :: e in w.entities ==>
          v.entities[e].flags ==
            if HasPawnBelow(w, slots, e, n) then WithoutBot(w.entities[e].flags) else w.entities[e].flags)
    && (forall e :: e in w.entities ==>
          (Recorded(refs, w, e) <==> HasPawnBelow(w, slots, e, n) && CarriesBot(w.entities[e].flags)))
    && (forall ref :: ref in refs ==> Survives(w, ref))
    && (forall i, j :: 0 <= i < j < |refs| ==> EntryIndex(refs[i].handle) != EntryIndex(refs[j].handle))
  }

  lemma WithoutBotTwice(flags: bv32)
    ensures WithoutBot(WithoutBot(flags)) == WithoutBot(flags)
    ensures !CarriesBot(WithoutBot(flags))
    ensures !CarriesBot(flags) ==> WithoutBot(flags) == flags
  {
  }

  lemma PawnInShape(w: World, v: World, client: Option<Client>)
    requires SameShape(w, v)
    ensures PawnOf(v, client) == PawnOf(w, client)
  {
    if client.Some? {
      ControllerInShape(w, v, client.value);
    }
  }

  lemma {:induction false} HideTable(w: World, slots: Slots, n: nat)
    requires n <= MAX_SLOTS
    ensures IsHidden(w, slots, n, HideAll(w, slots, n).0, HideAll(w, slots, n).1)
  {
    hide IsHidden, HideSlot;
    if n == 0 {
      HideStart(w, slots);
    } else {
      HideTable(w, slots, n - 1);
      var (v, refs) := HideAll(w, slots, n - 1);
      HideTurn(w, slots, n - 1, v, refs);
    }
  }

  lemma HideStart(w: World, slots: Slots)
    ensures IsHidden(w, slots, 0, w, [])
  {
    hide HasPawn, Survives, WithoutBot, CarriesBot;
  }

  lemma HasPawnBelowGrows(w: World, slots: Slots, e: int, n: nat)
    ensures HasPawnBelow(w, slots, e, n + 1) <==> HasPawnBelow(w, slots, e, n) || HasPawn(w, slots, n, e)
  {
    if HasPawn(w, slots, n, e) {
      assert HasPawnBelow(w, slots, e, n + 1);
    }
  }

  lemma HideTurn(w: World, slots: Slots, n: nat, v: World, refs: seq<PawnRef>)
    requires n < MAX_SLOTS && IsHidden(w, slots, n, v, refs)
    ensures var (v', more) := HideSlot(v, slots, n); IsHidden(w, slots, n + 1, v', refs + more)
  {
    var (v', more) := HideSlot(v, slots, n);
    forall e | e in w.entities
      ensures e in v'.entities
      ensures v'.entities[e].flags ==
                if HasPawnBelow(w, slots, e, n + 1) then WithoutBot(w.entities[e].flags) else w.entities[e].flags
      ensures Recorded(refs + more, w, e) <==> HasPawnBelow(w, slots, e, n + 1) && CarriesBot(w.entities[e].flags)
    {
      HasPawnBelowGrows(w, slots, e, n);
      WithoutBotTwice(w.entities[e].flags);
      HideTurnFlags(w, slots, n, v, refs, e);
      hide HideSlot, HasPawn, HasPawnBelow, WithoutBot, CarriesBot, Recorded;
    }
    HideTurnRefs(w, slots, n, v, refs);
    hide HideSlot, HasPawnBelow, WithoutBot, CarriesBot, Recorded, Survives;
  }

  lemma HideTurnFlags(w: World, slots: Slots, n: nat, v: World, refs: seq<PawnRef>, e: int)
    requires n < MAX_SLOTS && IsHidden(w, slots, n, v, refs) && e in w.entities
    ensures var (v', more) := HideSlot(v, slots, n);
            && e in v'.entities
            && v'.entities[e].flags ==
                 (if HasPawn(w, slots, n, e) then WithoutBot(v.entities[e].flags) else v.entities[e].flags)
            && (Recorded(refs + more, w, e) <==>
                  Recorded(refs, w, e) || (HasPawn(w, slots, n, e) && CarriesBot(v.entities[e].flags)))
  {
    WithoutBotTwice(v.entities[e].flags);
    PawnInShape(w, v, ResolveClient(w, n));
    hide HasPawnBelow, WithoutBot;
  }

  lemma HideTurnRefs(w: World, slots: Slots, n: nat, v: World, refs: seq<PawnRef>)
    requires n < MAX_SLOTS && IsHidden(w, slots, n, v, refs)
    ensures var (v', more) := HideSlot(v, slots, n);
            && SameShape(w, v') && v'.clients == w.clients
            && (forall ref :: ref in refs + more ==> Survives(w, ref))
            && (forall i, j :: 0 <= i < j < |refs + more| ==>
                  EntryIndex((refs + more)[i].handle) != EntryIndex((refs + more)[j].handle))
  {
    hide HasPawnBelow, WithoutBot, CarriesBot;
    var (v', more) := HideSlot(v, slots, n);
    PawnInShape(w, v, ResolveClient(w, n));
    if more != [] {
      var e := EntryIndex(more[0].handle);
      HiddenIsNotRecorded(w, slots, n, v, refs, e);
      hide PawnOf;
      assert forall ref :: ref in refs ==> EntryIndex(ref.handle) != e;
    }
  }

  // A pawn that still carries FL_BOT has not been recorded.
  lemma HiddenIsNotRecorded(w: World, slots: Slots, n: nat, v: World, refs: seq<PawnRef>, e: int)
    requires IsHidden(w, slots, n, v, refs) && e in w.entities && v.entities[e].flags & FLAG_BOT != 0
    ensures !Recorded(refs, w, e)
  {
    hide HasPawnBelow, WithoutBot, PawnOf, Survives;
    WithoutBotTwice(w.entities[e].flags);
  }

  // At the start of the outermost disguised pack no live managed pawn carries FL_BOT.
  lemma NoManagedPawnIsBot(w: World, slots: Slots, i: nat)
    requires IsSlot(i) && slots[i].managed && PawnOf(w, ResolveClient(w, i)).Some?
    ensures var v := HideAll(w, slots, MAX_SLOTS).0;
            var pawn := PawnOf(v, ResolveClient(v, i));
            && pawn == PawnOf(w, ResolveClient(w, i))
            && EntryIndex(pawn.value.handle) in v.entities
            && !CarriesBot(v.entities[EntryIndex(pawn.value.handle)].flags)
  {
    HideTable(w, slots, MAX_SLOTS);
    var v := HideAll(w, slots, MAX_SLOTS).0;
    PawnInShape(w, v, ResolveClient(w, i));
    var e := EntryIndex(PawnOf(w, ResolveClient(w, i)).value.handle);
    assert HasPawn(w, slots, i, e) && HasPawnBelow(w, slots, e, MAX_SLOTS);
    WithoutBotTwice(w.entities[e].flags);
  }

  lemma WithBotTwice(flags: bv32)
    ensures WithBot(WithBot(flags)) == WithBot(flags)
  {
  }

  ghost predicate RevivedBelow(w: World, refs: seq<PawnRef>, e: int, n: nat) {
    exists i :: 0 <= i < n && i < |refs| && Survives(w, refs[i]) && EntryIndex(refs[i].handle) == e
  }

  // Restoring sets FL_BOT on the recorded pawns that still exist, and does nothing else.
  lemma {:induction false} ShowBotsTable(w: World, refs: seq<PawnRef>, n: nat)
    requires n <= |refs|
    ensures SameShape(w, ShowBots(w, refs, n)) && ShowBots(w, refs, n).clients == w.clients
    ensures forall e :: e in w.entities ==>
              ShowBots(w, refs, n).entities[e].flags ==
                if RevivedBelow(w, refs, e, n) then WithBot(w.entities[e].flags) else w.entities[e].flags
  {
    if n > 0 {
      ShowBotsTable(w, refs, n - 1);
      hide RevivedBelow, WithBot;
      forall e | e in w.entities
        ensures ShowBots(w, refs, n).entities[e].flags ==
                  if RevivedBelow(w, refs, e, n) then WithBot(w.entities[e].flags) else w.entities[e].flags
      {
        RevivedBelowGrows(w, refs, e, n - 1);
        WithBotTwice(w.entities[e].flags);
      }
    }
  }

  lemma RevivedBelowGrows(w: World, refs: seq<PawnRef>, e: int, n: nat)
    requires n < |refs|
    ensures RevivedBelow(w, refs, e, n + 1) <==>
              RevivedBelow(w, refs, e, n) || (Survives(w, refs[n]) && EntryIndex(refs[n].handle) == e)
  {
  }

  // The client of managed slot i has a controller that is not being deleted, whose pawn handle is that of
  // the entity at index e, which is not being deleted either.
  predicate LeadsToPawn(w: World, slots: Slots, i: int, e: int) {
    && IsSlot(i) && slots[i].managed && ResolveClient(w, i).Some?
    && var controller := ResolveEntity(w, w.clients[i].value.entityIndex);
       && controller.Some? && controller.value.isController && !controller.value.deleting
       && controller.value.pawnHandle != 0xFFFF_FFFF && e == controller.value.pawnHandle % 0x8000
       && 0 < e && e in w.entities
       && !w.entities[e].deleting && w.entities[e].handle == controller.value.pawnHandle
  }

  lemma LeadsToItsPawn(w: World, slots: Slots, i: int, e: int)
    ensures LeadsToPawn(w, slots, i, e) <==> HasPawn(w, slots, i, e)
  {
  }

  // Of the whole world the override takes the bit 0x10 from the managed bots' live pawns, and it notes
  // those that had it.
  lemma PawnsLoseBot(w: World, slots: Slots, e: int)
    requires e in w.entities
    ensures var (v, refs) := HideAll(w, slots, MAX_SLOTS);
            var pawn := w.entities[e];
            var led := exists i :: LeadsToPawn(w, slots, i, e);
            && v.clients == w.clients && v.entities.Keys == w.entities.Keys
            && v.entities[e] == pawn.(flags := if led then pawn.flags & 0xFFFF_FFEF else pawn.flags)
            && (PawnRef(pawn.instance, pawn.handle) in refs && pawn.handle % 0x8000 == e <==>
                  led && pawn.flags & 0x10 != 0)
  {
    var (v, refs) := HideAll(w, slots, MAX_SLOTS);
    HideTable(w, slots, MAX_SLOTS);
    hide HideAll, LeadsToPawn, HasPawn;
    forall i ensures LeadsToPawn(w, slots, i, e) <==> HasPawn(w, slots, i, e) {
      LeadsToItsPawn(w, slots, i, e);
    }
    PawnIsOfSlot(w, slots, e);
  }

  lemma PawnIsOfSlot(w: World, slots: Slots, e: int)
    ensures HasPawnBelow(w, slots, e, MAX_SLOTS) <==> exists i :: HasPawn(w, slots, i, e)
  {
  }

  // The restore gives it to the entities that were noted and live on with the same pointer and handle,
  // and changes nothing else.
  lemma NotedPawnsAreBots(w: World, refs: seq<PawnRef>, e: int)
    requires e in w.entities
    ensures var v := ShowBots(w, refs, |refs|);
            var pawn := w.entities[e];
            var noted := && PawnRef(pawn.instance, pawn.handle) in refs && pawn.handle % 0x8000 == e > 0
                         && !pawn.deleting;
            && v.clients == w.clients && v.entities.Keys == w.entities.Keys
            && v.entities[e] == pawn.(flags := if noted then pawn.flags | 0x10 else pawn.flags)
  {
    ShowBotsTable(w, refs, |refs|);
    hide ShowBots;
    var pawn := w.entities[e];
    if PawnRef(pawn.instance, pawn.handle) in refs {
      var i :| 0 <= i < |refs| && refs[i] == PawnRef(pawn.instance, pawn.handle);
      assert pawn.handle % 0x8000 == e > 0 && !pawn.deleting ==> Survives(w, refs[i]);
    }
    if RevivedBelow(w, refs, e, |refs|) {
      var i :| 0 <= i < |refs| && Survives(w, refs[i]) && EntryIndex(refs[i].handle) == e;
      assert refs[i] == PawnRef(pawn.instance, pawn.handle);
    }
  }

  lemma BotBits(flags: bv32)
    ensures CarriesBot(WithBot(flags)) && WithoutBot(WithBot(flags)) == WithoutBot(flags)
  {
  }

  // The entity at index e lives on from w to v.
  predicate LivesOn(w: World, v: World, e: int) {
    && e in w.entities && e in v.entities && 0 < e < ENTITY_SLOTS
    && w.entities[e].instance == v.entities[e].instance && w.entities[e].handle == v.entities[e].handle
    && !v.entities[e].deleting
  }

  // Over a whole pack, a surviving entity keeps FL_BOT exactly as it had it, provided the engine
  // did not write it in between; its other bits stay as last written.
  lemma PackKeepsBotFlag(w: World, slots: Slots, v: World, e: int)
    requires LivesOn(w, v, e)
    requires var hidden := HideAll(w, slots, MAX_SLOTS).0;
             e in hidden.entities && (CarriesBot(v.entities[e].flags) <==> CarriesBot(hidden.entities[e].flags))
    ensures var refs := HideAll(w, slots, MAX_SLOTS).1;
            var r := ShowBots(v, refs, |refs|);
            && e in r.entities
            && (CarriesBot(r.entities[e].flags) <==> CarriesBot(w.entities[e].flags))
            && WithoutBot(r.entities[e].flags) == WithoutBot(v.entities[e].flags)
            && r.entities[e] == v.entities[e].(flags := r.entities[e].flags)
  {
    var refs := HideAll(w, slots, MAX_SLOTS).1;
    HiddenAt(w, slots, e);
    RevivedExactly(w, v, refs, e);
    RestoredAt(v, refs, e);
    BotBits(v.entities[e].flags);
    hide HideAll, ShowBots, WithBot, WithoutBot, CarriesBot, RevivedBelow, Recorded, Survives;
  }

  lemma HiddenAt(w: World, slots: Slots, e: int)
    requires e in w.entities
    ensures var (v, refs) := HideAll(w, slots, MAX_SLOTS);
            && e in v.entities
            && (CarriesBot(v.entities[e].flags) <==> CarriesBot(w.entities[e].flags) && !Recorded(refs, w, e))
            && (Recorded(refs, w, e) ==> CarriesBot(w.entities[e].flags))
            && (forall ref :: ref in refs ==> Survives(w, ref))
  {
    HideTable(w, slots, MAX_SLOTS);
    WithoutBotTwice(w.entities[e].flags);
    hide HideAll, WithoutBot, CarriesBot, Recorded, HasPawnBelow, Survives;
  }

  lemma RestoredAt(v: World, refs: seq<PawnRef>, e: int)
    requires e in v.entities
    ensures var r := ShowBots(v, refs, |refs|);
            && e in r.entities
            && r.entities[e] ==
                 v.entities[e].(flags :=
                   if RevivedBelow(v, refs, e, |refs|) then WithBot(v.entities[e].flags) else v.entities[e].flags)
  {
    ShowBotsTable(v, refs, |refs|);
    hide ShowBots, WithBot, RevivedBelow;
  }

  lemma RevivedExactly(w: World, v: World, refs: seq<PawnRef>, e: int)
    requires LivesOn(w, v, e) && forall ref :: ref in refs ==> Survives(w, ref)
    ensures RevivedBelow(v, refs, e, |refs|) <==> Recorded(refs, w, e)
  {
    if Recorded(refs, w, e) {
      var i :| 0 <= i < |refs| && refs[i] == PawnRef(w.entities[e].instance, w.entities[e].handle);
      assert Survives(v, refs[i]);
    }
    if RevivedBelow(v, refs, e, |refs|) {
      var i :| 0 <= i < |refs| && Survives(v, refs[i]) && EntryIndex(refs[i].handle) == e;
      assert refs[i] in refs;
    }
  }
}
