/** ApplyManagedDisguise: every managed bot is shown as the identity mode in force asks, under its
    own SteamID. */
module Disguise {
  import opened Prelude
  import opened Engine
  import opened Manager
  import opened ScopedRestore

  function Shown(c: Client, steamId: uint64, disguised: bool): Client {
    var c1 := if disguised then ClearFakePlayer(c) else SetFakePlayer(c);
    if steamId != 0 then WriteSteamId(c1, steamId) else c1
  }

  // One turn of the loop.
  function ShowSlot(w: World, slots: Slots, slot: nat, disguised: bool): World
    requires IsSlot(slot)
  {
    var client := ResolveClient(w, slot);
    if !slots[slot].managed || client.None? then w
    else
      var w1 := PutClient(w, slot, if disguised then ClearFakePlayer(client.value) else SetFakePlayer(client.value));
      var w2 := SetControllerFlag(w1, slot, !disguised);
      var steamId := slots[slot].steamId;
      if steamId == 0 then w2 else PutClient(w2, slot, WriteSteamId(w2.clients[slot].value, steamId))
  }

  // The loop, up to slot n.
  function ShowAll(w: World, slots: Slots, disguised: bool, n: nat): World
    requires n <= MAX_SLOTS
  {
    if n == 0 then w else ShowSlot(ShowAll(w, slots, disguised, n - 1), slots, n - 1, disguised)
  }

  function Controller(w: World, c: Client): Option<Entity> {
    var entity := ResolveEntity(w, c.entityIndex);
    if entity.Some? && entity.value.isController then entity else None
  }

  // Slot i shows the given identity: its two flag bytes, its two SteamID fields, its controller.
  ghost predicate Shows(w: World, slots: Slots, i: nat, disguised: bool) {
    && IsSlot(i) && ResolveClient(w, i).Some?
    && var c := w.clients[i].value;
       && c.connectionFlags & 0x09 == (if disguised then HUMAN_CONNECTION else FAKE_CONNECTION)
       && c.fakePlayer == (if disguised then 0 else 1)
       && (slots[i].steamId != 0 ==> c.steamId == slots[i].steamId && c.steamIdMirror == slots[i].steamId)
       && (Controller(w, c).Some? ==>
             Controller(w, c).value.flags & FLAG_FAKE_CLIENT == if disguised then 0 else FLAG_FAKE_CLIENT)
  }

  predicate Leads(w: World, slots: Slots, i: int, e: int) {
    && IsSlot(i) && slots[i].managed && ResolveClient(w, i).Some?
    && w.clients[i].value.entityIndex == e && Controller(w, w.clients[i].value).Some?
  }

  ghost predicate LedBelow(w: World, slots: Slots, e: int, n: nat) {
    exists i :: 0 <= i < n && Leads(w, slots, i, e)
  }

  ghost predicate IsShown(w: World, slots: Slots, disguised: bool, n: nat, v: World) {
    && SameShape(w, v)
    && (forall i :: 0 <= i < |w.clients| ==>
          v.clients[i] == if i < n && i < MAX_SLOTS && slots[i].managed && ResolveClient(w, i).Some?
                          then Some(Shown(w.clients[i].value, slots[i].steamId, disguised)) else w.clients[i])
    && (forall e :: e in w.entities ==>
          v.entities[e].flags ==
            if LedBelow(w, slots, e, n) then WithFakeClient(w.entities[e].flags, !disguised) else w.entities[e].flags)
  }

  lemma FakeClientTwice(flags: bv32, fakeClient: bool)
    ensures WithFakeClient(WithFakeClient(flags, fakeClient), fakeClient) == WithFakeClient(flags, fakeClient)
  {
  }

  // The loop shows each managed bot and leaves everything else as it was.
  lemma {:induction false} ShowTable(w: World, slots: Slots, disguised: bool, n: nat)
    requires n <= MAX_SLOTS
    ensures IsShown(w, slots, disguised, n, ShowAll(w, slots, disguised, n))
  {
    hide IsShown, ShowSlot;
    if n == 0 {
      NothingShown(w, slots, disguised);
    } else {
      ShowTable(w, slots, disguised, n - 1);
      ShowTurn(w, slots, disguised, n - 1, ShowAll(w, slots, disguised, n - 1));
    }
  }

  lemma NothingShown(w: World, slots: Slots, disguised: bool)
    ensures IsShown(w, slots, disguised, 0, w)
  {
    hide Leads;
  }

  lemma ShowTurn(w: World, slots: Slots, disguised: bool, n: nat, v: World)
    requires n < MAX_SLOTS && IsShown(w, slots, disguised, n, v)
    ensures IsShown(w, slots, disguised, n + 1, ShowSlot(v, slots, n, disguised))
  {
    var v' := ShowSlot(v, slots, n, disguised);
    ShowTurnShape(w, slots, disguised, n, v);
    forall e | e in w.entities
      ensures v'.entities[e].flags ==
                if LedBelow(w, slots, e, n + 1) then WithFakeClient(w.entities[e].flags, !disguised)
                else w.entities[e].flags
    {
      LedBelowGrows(w, slots, e, n);
      FakeClientTwice(w.entities[e].flags, !disguised);
      ShowTurnFlags(w, slots, disguised, n, v, e);
      hide ShowSlot, WithFakeClient, LedBelow, Leads, Shown;
    }
    hide ShowSlot, LedBelow;
  }

  lemma ShowTurnShape(w: World, slots: Slots, disguised: bool, n: nat, v: World)
    requires n < MAX_SLOTS && IsShown(w, slots, disguised, n, v)
    ensures var v' := ShowSlot(v, slots, n, disguised);
            && SameShape(w, v')
            && forall i :: 0 <= i < |w.clients| ==>
                 v'.clients[i] == if i < n + 1 && i < MAX_SLOTS && slots[i].managed && ResolveClient(w, i).Some?
                                  then Some(Shown(w.clients[i].value, slots[i].steamId, disguised)) else w.clients[i]
  {
    hide WithFakeClient, LedBelow, ClearFakePlayer, SetFakePlayer;
  }

  lemma ShowTurnFlags(w: World, slots: Slots, disguised: bool, n: nat, v: World, e: int)
    requires n < MAX_SLOTS && IsShown(w, slots, disguised, n, v) && e in w.entities
    ensures var v' := ShowSlot(v, slots, n, disguised);
            && e in v'.entities
            && v'.entities[e].flags ==
                 if Leads(w, slots, n, e) then WithFakeClient(v.entities[e].flags, !disguised) else v.entities[e].flags
  {
    hide WithFakeClient, LedBelow;
  }

  lemma LedBelowGrows(w: World, slots: Slots, e: int, n: nat)
    ensures LedBelow(w, slots, e, n + 1) <==> LedBelow(w, slots, e, n) || Leads(w, slots, n, e)
  {
    if Leads(w, slots, n, e) {
      assert LedBelow(w, slots, e, n + 1);
    }
  }

  lemma ShownBits(c: Client, steamId: uint64, disguised: bool)
    ensures Shown(c, steamId, disguised).connectionFlags & 0x09 ==
              if disguised then HUMAN_CONNECTION else FAKE_CONNECTION
    ensures Shown(c, steamId, disguised).connectionFlags & 0xF6 == c.connectionFlags & 0xF6
  {
  }

  // What the disguise makes of a managed client: the two flag bytes as the mode asks, and its managed
  // SteamID in both fields if it has one. Nothing else of it changes, and nothing of any other client.
  lemma DisguisedClient(w: World, slots: Slots, disguised: bool, i: nat)
    requires i < |w.clients|
    ensures var v := ShowAll(w, slots, disguised, MAX_SLOTS);
            && |v.clients| == |w.clients|
            && if !IsSlot(i) || !slots[i].managed || ResolveClient(w, i).None? then v.clients[i] == w.clients[i]
               else
                 var c := w.clients[i].value;
                 && v.clients[i].Some?
                 && var d := v.clients[i].value;
                    && d == c.(connectionFlags := d.connectionFlags, fakePlayer := if disguised then 0 else 1,
                               steamId := if slots[i].steamId == 0 then c.steamId else slots[i].steamId,
                               steamIdMirror := if slots[i].steamId == 0 then c.steamIdMirror else slots[i].steamId)
                    && d.connectionFlags & 0x09 == (if disguised then HUMAN_CONNECTION else FAKE_CONNECTION)
                    && d.connectionFlags & 0xF6 == c.connectionFlags & 0xF6
  {
    ShowTable(w, slots, disguised, MAX_SLOTS);
    if w.clients[i].Some? && i < MAX_SLOTS {
      ShownBits(w.clients[i].value, slots[i].steamId, disguised);
    }
    hide ShowAll, WithFakeClient, LedBelow;
  }

  // Of the entities only the managed clients' controllers change, and of them only the fake-client bit.
  lemma DisguisedEntity(w: World, slots: Slots, disguised: bool, e: int)
    requires e in w.entities
    ensures var v := ShowAll(w, slots, disguised, MAX_SLOTS);
            && v.entities.Keys == w.entities.Keys
            && if exists j :: Leads(w, slots, j, e)
               then && v.entities[e] == w.entities[e].(flags := v.entities[e].flags)
                    && IsMarked(w.entities[e].flags, v.entities[e].flags, !disguised)
               else v.entities[e] == w.entities[e]
  {
    hide ShowAll, WithFakeClient, Shown, LedBelow, Leads, IsMarked;
    ShowTable(w, slots, disguised, MAX_SLOTS);
    FakeClientBit(w.entities[e].flags, !disguised);
    LedIsBelow(w, slots, e);
  }

  lemma LedIsBelow(w: World, slots: Slots, e: int)
    ensures LedBelow(w, slots, e, MAX_SLOTS) <==> exists j :: Leads(w, slots, j, e)
  {
  }

  lemma FakeClientBits(flags: bv32, fakeClient: bool)
    ensures WithFakeClient(flags, fakeClient) & FLAG_FAKE_CLIENT == if fakeClient then FLAG_FAKE_CLIENT else 0
    ensures WithFakeClient(flags, fakeClient) & !FLAG_FAKE_CLIENT == flags & !FLAG_FAKE_CLIENT
  {
  }

  // Afterwards every managed slot that has a client shows the identity asked for.
  lemma AllShow(w: World, slots: Slots, disguised: bool, i: nat)
    requires IsSlot(i) && slots[i].managed && ResolveClient(w, i).Some?
    ensures Shows(ShowAll(w, slots, disguised, MAX_SLOTS), slots, i, disguised)
  {
    var v := ShowAll(w, slots, disguised, MAX_SLOTS);
    ShowTable(w, slots, disguised, MAX_SLOTS);
    hide ShowAll;
    var c := w.clients[i].value;
    ShownBits(c, slots[i].steamId, disguised);
    if Controller(w, c).Some? {
      assert Leads(w, slots, i, c.entityIndex) && LedBelow(w, slots, c.entityIndex, MAX_SLOTS);
      FakeClientBits(w.entities[c.entityIndex].flags, !disguised);
    }
    hide WithFakeClient;
  }
}
