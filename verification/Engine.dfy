/** The parts of the game engine that the plugin reads and writes: the client list with its flag
    bytes and SteamID fields, and the entity table behind controllers and pawns. Pointers are
    stood for by identity numbers. */
module Engine {
  import opened Prelude

  // CServerSideClient; `id` is its address.
  datatype Client = Client(
    id: nat,
    userId: uint16,
    connectionFlags: bv8,
    fakePlayer: bv8,
    entityIndex: int,
    steamId: uint64,
    steamIdMirror: uint64,
    hltv: bool)

  // An entity; `instance` is its address.
  datatype Entity = Entity(
    instance: nat,
    isController: bool,
    handle: uint32,
    deleting: bool,
    flags: bv32,
    pawnHandle: uint32)

  datatype World = World(clients: seq<Option<Client>>, entities: map<int, Entity>)

  const HUMAN_CONNECTION: bv8 := 0x01
  const FAKE_CONNECTION: bv8 := 0x08
  const FLAG_BOT: bv32 := 0x10
  const FLAG_FAKE_CLIENT: bv32 := 0x100
  const NO_HANDLE: uint32 := 0xFFFF_FFFF
  const MAX_CLIENTS: nat := 256
  const ENTITY_SLOTS: int := 0x8000

  // ssc::ClearFakePlayer
  function ClearFakePlayer(c: Client): Client {
    c.(connectionFlags := (c.connectionFlags & 0xF7) | HUMAN_CONNECTION, fakePlayer := 0)
  }

  // ssc::SetFakePlayer
  function SetFakePlayer(c: Client): Client {
    c.(connectionFlags := (c.connectionFlags & 0xFE) | FAKE_CONNECTION, fakePlayer := 1)
  }

  function WriteSteamId(c: Client, steamId: uint64): Client {
    c.(steamId := steamId, steamIdMirror := steamId)
  }

  // ResolveClientBySlot
  function ResolveClient(w: World, slot: int): Option<Client> {
    if |w.clients| > MAX_CLIENTS || slot < 0 || slot >= |w.clients| then None else w.clients[slot]
  }

  // ResolveEntityInstance
  function ResolveEntity(w: World, index: int): Option<Entity> {
    if 0 < index < ENTITY_SLOTS && index in w.entities then Some(w.entities[index]) else None
  }

  // Overwrite the client of a slot that resolves.
  function PutClient(w: World, slot: int, c: Client): World
    requires ResolveClient(w, slot).Some?
  {
    w.(clients := w.clients[slot := Some(c)])
  }

  function PutFlags(w: World, index: int, flags: bv32): World
    requires ResolveEntity(w, index).Some?
  {
    w.(entities := w.entities[index := w.entities[index].(flags := flags)])
  }

  function Mark(flags: bv32): bv32 {
    flags | FLAG_FAKE_CLIENT
  }

  function Unmark(flags: bv32): bv32 {
    flags & !FLAG_FAKE_CLIENT
  }

  function WithFakeClient(flags: bv32, fakeClient: bool): bv32 {
    if fakeClient then Mark(flags) else Unmark(flags)
  }

  // Of the flags only the fake-client bit, which is 0x100, may have changed, and is now on or off.
  predicate IsMarked(before: bv32, after: bv32, fakeClient: bool) {
    && after & 0x100 == (if fakeClient then 0x100 else 0)
    && after & 0xFFFF_FEFF == before & 0xFFFF_FEFF
  }

  lemma FakeClientBit(flags: bv32, fakeClient: bool)
    ensures IsMarked(flags, WithFakeClient(flags, fakeClient), fakeClient)
  {
  }

  // The controller of a client, unless it is being deleted.
  function LiveController(w: World, c: Client): Option<Entity> {
    var entity := ResolveEntity(w, c.entityIndex);
    if entity.Some? && entity.value.isController && !entity.value.deleting then entity else None
  }

  // SetControllerFakeClientFlag
  function SetControllerFlag(w: World, slot: int, fakeClient: bool): World {
    var client := ResolveClient(w, slot);
    if client.None? then w
    else
      var index := client.value.entityIndex;
      var entity := ResolveEntity(w, index);
      if entity.None? || !entity.value.isController then w
      else PutFlags(w, index, WithFakeClient(entity.value.flags, fakeClient))
  }

  // CEntityHandle::GetEntryIndex
  function EntryIndex(handle: uint32): int {
    handle % ENTITY_SLOTS
  }
}
