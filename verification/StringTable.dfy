/** The engine's ServerAvatarOverrides string table: an append-only list of keys with user data. */
module StringTable {
  import opened Prelude

  // A decimal SteamID64, the plugin's own index-0 sentinel, or a key of the engine's.
  datatype Key = SteamKey(sid: uint64) | Sentinel | EngineKey(name: string)

  datatype Entry = Entry(key: Key, data: seq<byte>)

  type Table = seq<Entry>

  // FindStringIndex: the first index that holds the key, or -1.
  function Find(t: Table, key: Key): (index: int)
    ensures -1 <= index < |t|
    ensures index >= 0 ==> t[index].key == key
    ensures forall j :: 0 <= j < |t| && (index < 0 || j < index) ==> t[j].key != key
  {
    FindFrom(t, key, 0)
  }

  function FindFrom(t: Table, key: Key, from: nat): (index: int)
    requires from <= |t|
    ensures index == -1 || from <= index < |t|
    ensures index >= 0 ==> t[index].key == key
    ensures forall j :: from <= j < |t| && (index < 0 || j < index) ==> t[j].key != key
    decreases |t| - from
  {
    if from == |t| then -1
    else if t[from].key == key then from
    else FindFrom(t, key, from + 1)
  }

  // The user data a reader of the table sees under a key.
  function DataOf(t: Table, key: Key): seq<byte> {
    var index := Find(t, key);
    if index < 0 then [] else t[index].data
  }

  // SetStringUserData that succeeds.
  function SetUserData(t: Table, index: nat, data: seq<byte>): Table
    requires index < |t|
  {
    t[index := t[index].(data := data)]
  }

  // AddString of a key that is not in the table, when it succeeds.
  function AddString(t: Table, key: Key, data: seq<byte>): Table {
    t + [Entry(key, data)]
  }

  // Two tables with the same keys in the same places find the same indices.
  lemma FindUnique(t: Table, key: Key, index: nat)
    requires index < |t| && t[index].key == key
    requires forall j :: 0 <= j < index ==> t[j].key != key
    ensures Find(t, key) == index
  {
  }

  // Rewriting the entry of one key changes what is read under that key and under no other.
  lemma SetUserDataReads(t: Table, key: Key, data: seq<byte>, other: Key)
    requires Find(t, key) >= 0
    ensures var t' := SetUserData(t, Find(t, key), data);
            && DataOf(t', other) == (if other == key then data else DataOf(t, other))
            && Find(t', other) == Find(t, other)
  {
    var t' := SetUserData(t, Find(t, key), data);
    var index := Find(t, other);
    assert forall j :: 0 <= j < |t| ==> t'[j].key == t[j].key;
    if index >= 0 {
      FindUnique(t', other, index);
    } else {
      assert Find(t', other) < 0;
    }
  }

  // Appending an absent key changes what is read under that key and under no other.
  lemma AddStringReads(t: Table, key: Key, data: seq<byte>, other: Key)
    requires Find(t, key) < 0
    ensures var t' := AddString(t, key, data);
            && DataOf(t', other) == (if other == key then data else DataOf(t, other))
            && Find(t', other) == (if other == key then |t| else Find(t, other))
  {
    var t' := AddString(t, key, data);
    if other == key {
      FindUnique(t', key, |t|);
    } else if Find(t, other) >= 0 {
      FindUnique(t', other, Find(t, other));
    } else {
      assert Find(t', other) < 0 || Find(t', other) == |t|;
    }
  }

  // The overrides the table publishes: every SteamID whose entry is not empty, with its bytes.
  ghost function Overrides(t: Table): map<uint64, seq<byte>> {
    map i | 0 <= i < |t| && t[i].key.SteamKey? && DataOf(t, t[i].key) != [] :: t[i].key.sid := DataOf(t, t[i].key)
  }

  lemma OverridesAt(t: Table, sid: uint64)
    ensures sid in Overrides(t) <==> DataOf(t, SteamKey(sid)) != []
    ensures sid in Overrides(t) ==> Overrides(t)[sid] == DataOf(t, SteamKey(sid))
  {
    if DataOf(t, SteamKey(sid)) != [] {
      var i := Find(t, SteamKey(sid));
      assert 0 <= i < |t| && t[i].key == SteamKey(sid);
    }
  }
}
