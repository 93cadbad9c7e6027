/** Avatar files are read by tasks in the background. Per slot there is one entry: the lifetime that
    asked and its task. */
module AvatarReads {
  import opened Prelude
  import opened Manager
  import Bridge
  import Png

  // `task` is the identity of the Task object.
  datatype Entry = Entry(incarnation: uint64, task: Option<nat>)

  const NO_READ := Entry(0, None)

  // What a caller asks for: to clear, to read a file of the avatar directory, or something refused.
  datatype Wish = Zero | File | Bad

  // A path with what the runtime finds to be its file name and directory.
  datatype Path = Path(text: Option<string>, name: Option<string>, directory: Option<string>)

  // How file names compare; `fold` is the invariant upper case of a character.
  datatype Platform = Linux | Windows(fold: char -> char)

  predicate SameText(platform: Platform, a: string, b: string) {
    match platform
    case Linux => a == b
    case Windows(fold) => |a| == |b| && forall k :: 0 <= k < |a| ==> fold(a[k]) == fold(b[k])
  }

  predicate EndsWithPng(name: string) {
    var n := |name|;
    n >= 4 && name[n - 4] == '.' && name[n - 3] in "pP" && name[n - 2] in "nN" && name[n - 1] in "gG"
  }

  // A plain name of a PNG, in the avatar directory or in none.
  predicate IsPngInDirectory(path: Path, avatarDirectory: string, platform: Platform) {
    && path.name.Some? && EndsWithPng(path.name.value)
    && (forall c <- path.name.value :: c !in "/\\:\0")
    && (path.directory.None? || path.directory.value == "" || SameText(platform, path.directory.value, avatarDirectory))
  }

  function WishOf(path: Path, avatarDirectory: string, platform: Platform): Wish {
    if path.text == Some("0") then Zero
    else if IsPngInDirectory(path, avatarDirectory, platform) then File
    else Bad
  }

  function Lower(c: char): char {
    if 'A' <= c <= 'Z' then (c as int + 32) as char else c
  }

  lemma PngNames(name: string)
    ensures EndsWithPng(name) <==>
            |name| >= 4 && forall k :: 0 <= k < 4 ==> Lower(name[|name| - 4 + k]) == ".png"[k]
  {
    if |name| >= 4 {
      var n := |name|;
      assert EndsWithPng(name) <==> Lower(name[n - 4 + 0]) == '.' && Lower(name[n - 4 + 1]) == 'p' &&
                                    Lower(name[n - 4 + 2]) == 'n' && Lower(name[n - 4 + 3]) == 'g';
      assert ".png"[0] == '.' && ".png"[1] == 'p' && ".png"[2] == 'n' && ".png"[3] == 'g';
    }
  }

  // What a path asks for: "0" clears; a file is a name that ends in ".png" in any case, contains neither
  // separator nor colon nor zero, and comes alone or with the avatar directory, which Windows compares
  // without regard to case.
  lemma PathsAreRead(path: Path, avatarDirectory: string, platform: Platform)
    ensures var name := if path.name.Some? then path.name.value else "";
            var directory := if path.directory.Some? then path.directory.value else "";
            var plain := |name| >= 4 && (forall k :: 0 <= k < 4 ==> Lower(name[|name| - 4 + k]) == ".png"[k])
                         && '/' !in name && '\\' !in name && ':' !in name && '\0' !in name;
            var here := directory == "" ||
                        (|directory| == |avatarDirectory| && forall k :: 0 <= k < |directory| ==>
                           if platform.Linux? then directory[k] == avatarDirectory[k]
                           else platform.fold(directory[k]) == platform.fold(avatarDirectory[k]));
            WishOf(path, avatarDirectory, platform) ==
              if path.text == Some("0") then Zero else if plain && here then File else Bad
  {
    if path.name.Some? {
      PngNames(path.name.value);
    }
    hide EndsWithPng, Lower;
  }

  datatype Outcome = Failed | Bytes(data: seq<byte>)

  datatype Tried = Tried(entry: Entry, slot: Slot, ok: bool)

  // TrySetBotAvatar on a slot that can be read.
  ghost function TrySet(e: Entry, s: Slot, wish: Wish, task: nat): Tried {
    if !s.managed || wish.Bad? then Tried(e, s, false)
    else if wish.Zero? then
      Tried(e.(incarnation := 0), Bridge.WithAvatar(s, s.incarnation, []), Target(s, s.incarnation))
    else if e.task.Some? then Tried(e, s, false)
    else Tried(Entry(s.incarnation, Some(task)), s, true)
  }

  // The result of a finished task is for the lifetime that asked, and no other.
  predicate IsFor(connected: bool, e: Entry, s: Slot) {
    connected && s.incarnation == e.incarnation && e.incarnation != 0
  }

  // One turn of FinishAvatarReads; no outcome means that the task is still running.
  ghost function Finish(connected: bool, e: Entry, s: Slot, outcome: Option<Outcome>): (Entry, Slot) {
    if e.task.None? || outcome.None? then (e, s)
    else if !IsFor(connected, e, s) || outcome.value.Failed? then (NO_READ, s)
    else (NO_READ, Bridge.WithAvatar(s, e.incarnation, outcome.value.data))
  }

  // The bytes become the slot's request: for its present lifetime, with the next number, and with
  // nothing published any more.
  predicate Asks(s: Slot, s': Slot, data: seq<byte>) {
    && s'.request.sequence == (if s.request.sequence == 0xFFFF_FFFF then 0 else s.request.sequence + 1)
    && s'.request.length == |data| && s'.request.incarnation == s.incarnation && s'.request.data == data
    && s' == s.(request := s'.request, avatarLength := |data|, avatarApplied := false, avatarSteamId := 0)
  }

  // Bytes that the native side takes: none, or a PNG container of at most 16 KiB.
  ghost predicate IsAcceptable(data: seq<byte>) {
    |data| <= 16384 && (data == [] || Png.IsPng(data))
  }

  // A finished read is taken off its entry, and its bytes become the slot's request exactly if the slot
  // can be reached, its bot is the one that asked, nothing cleared the read, and the bytes are
  // acceptable. A read that is not finished stays, and nothing else changes the slot.
  lemma FinishedReadsAreUsed(connected: bool, e: Entry, s: Slot, outcome: Option<Outcome>)
    ensures var (e', s') := Finish(connected, e, s, outcome);
            if e.task.None? || outcome.None? then e' == e && s' == s
            else
              && e' == Entry(0, None)
              && if && connected && s.managed && e.incarnation == s.incarnation != 0
                    && outcome.value.Bytes? && IsAcceptable(outcome.value.data)
                 then Asks(s, s', outcome.value.data) else s' == s
  {
  }

  // "0" empties the request of a managed slot and makes the result of a pending read void; a file
  // starts a read, for the present lifetime, if none is pending; anything else does nothing.
  lemma WishesAreObeyed(e: Entry, s: Slot, wish: Wish, task: nat)
    ensures var t := TrySet(e, s, wish, task);
            if s.managed && wish.Zero? then
              && t.entry.incarnation == 0 && t.entry.task == e.task
              && (if s.incarnation != 0 then t.ok && Asks(s, t.slot, []) else !t.ok && t.slot == s)
            else if s.managed && wish.File? && e.task.None? then
              t == Tried(Entry(s.incarnation, Some(task)), s, true)
            else t == Tried(e, s, false)
  {
  }

  class BridgeClient {
    const manager: FakeClientManager
    const pending: array<Entry>
    const avatarDirectory: string
    const platform: Platform
    var connected: bool

    ghost predicate Valid()
      reads this, manager
    {
      manager.Valid() && pending.Length == MAX_SLOTS
    }

    constructor (manager: FakeClientManager, avatarDirectory: string, platform: Platform)
      requires manager.Valid()
      ensures Valid() && fresh(pending) && this.manager == manager && !connected
      ensures this.avatarDirectory == avatarDirectory && this.platform == platform
      ensures forall i :: 0 <= i < MAX_SLOTS ==> pending[i] == NO_READ
    {
      this.manager, this.avatarDirectory, this.platform := manager, avatarDirectory, platform;
      pending := new Entry[MAX_SLOTS](i => NO_READ);
      connected := false;
    }

    // `task` is the object Task.Run returns, if it is called.
    method TrySetBotAvatar(slot: int, path: Path, task: nat) returns (ok: bool)
      requires Valid()
      modifies pending, manager.slots
      ensures !connected || !IsSlot(slot) ==>
                !ok && pending[..] == old(pending[..]) && manager.slots[..] == old(manager.slots[..])
      ensures connected && IsSlot(slot) ==>
        var t := TrySet(old(pending[slot]), old(manager.slots[slot]), WishOf(path, avatarDirectory, platform), task);
        && ok == t.ok
        && pending[..] == old(pending[..])[slot := t.entry]
        && manager.slots[..] == old(manager.slots[..])[slot := t.slot]
    {
      if !connected || !IsSlot(slot) {
        return false;
      }
      var s := manager.slots[slot];
      if !s.managed {
        return false;
      }
      if path.text == Some("0") {
        pending[slot] := pending[slot].(incarnation := 0);
        ok := Bridge.SetAvatar(manager, connected, slot, s.incarnation, None, 0);
        return ok;
      }
      if path.name.None? || path.name.value == "" || !EndsWithPng(path.name.value) {
        return false;
      }
      for k := 0 to |path.name.value|
        invariant forall j :: 0 <= j < k ==> path.name.value[j] !in "/\\:\0"
      {
        if path.name.value[k] in "/\\:\0" {
          return false;
        }
      }
      var elsewhere := path.directory.Some? && path.directory.value != "" &&
                       !SameText(platform, path.directory.value, avatarDirectory);
      if elsewhere || pending[slot].task.Some? {
        return false;
      }
      pending[slot] := Entry(s.incarnation, Some(task));
      return true;
    }

    // Every slot is finished for itself, whatever happens to the others.
    method FinishAvatarReads(outcomes: seq<Option<Outcome>>)
      requires Valid() && |outcomes| == MAX_SLOTS
      modifies pending, manager.slots
      ensures forall i :: 0 <= i < MAX_SLOTS ==>
        (pending[i], manager.slots[i]) == Finish(connected, old(pending[i]), old(manager.slots[i]), outcomes[i])
    {
      for slot := 0 to MAX_SLOTS
        invariant forall i :: 0 <= i < slot ==>
          (pending[i], manager.slots[i]) == Finish(connected, old(pending[i]), old(manager.slots[i]), outcomes[i])
        invariant forall i :: slot <= i < MAX_SLOTS ==>
                    pending[i] == old(pending[i]) && manager.slots[i] == old(manager.slots[i])
      {
        var entry := pending[slot];
        if entry.task.None? || outcomes[slot].None? {
          continue;
        }
        pending[slot] := NO_READ;
        if !connected || manager.slots[slot].incarnation != entry.incarnation || entry.incarnation == 0 {
          continue;
        }
        if outcomes[slot].value.Bytes? {
          var data := outcomes[slot].value.data;
          ghost var before := manager.slots[..];
          var _ := Bridge.SetAvatar(manager, connected, slot, entry.incarnation, Some(data), |data|);
          assert forall i :: 0 <= i < MAX_SLOTS && i != slot ==> manager.slots[..][i] == before[i];
        }
      }
    }
  }
}
