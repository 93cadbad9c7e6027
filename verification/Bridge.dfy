/** The exported setters: a bounded text copy and the avatar request of a named lifetime. */
module Bridge {
  import opened Prelude
  import opened Manager
  import Png

  // The text a NUL-terminated buffer holds.
  function Text(buffer: seq<byte>): (text: seq<byte>)
    ensures 0 !in text && |text| <= |buffer|
    ensures text < buffer ==> buffer[|text|] == 0
  {
    if buffer == [] || buffer[0] == 0 then [] else [buffer[0]] + Text(buffer[1..])
  }

  lemma {:induction false} TextOfTerminated(text: seq<byte>, rest: seq<byte>)
    requires 0 !in text
    ensures Text(text + [0] + rest) == text
  {
    if text != [] {
      assert (text + [0] + rest)[1..] == text[1..] + [0] + rest;
      TextOfTerminated(text[1..], rest);
    }
  }

  // What CopyInput lets through; no text is a null pointer.
  predicate Copyable(capacity: nat, text: Option<seq<byte>>, length: int) {
    text.Some? && 0 <= length < capacity && length <= |text.value| && 0 !in text.value[..length]
  }

  // A copy that goes through is read back unchanged; one that does not leaves the buffer alone.
  method CopyInput(buffer: array<byte>, text: Option<seq<byte>>, length: int) returns (ok: bool)
    requires text.Some? && 0 <= length < buffer.Length ==> length <= |text.value|
    modifies buffer
    ensures ok <==> Copyable(buffer.Length, text, length)
    ensures if ok then Text(buffer[..]) == text.value[..length] else buffer[..] == old(buffer[..])
  {
    if text.None? || length < 0 || length >= buffer.Length || 0 in text.value[..length] {
      return false;
    }
    var source := text.value[..length];
    for i := 0 to length
      invariant buffer[..i] == source[..i]
    {
      buffer[i] := source[i];
    }
    buffer[length] := 0;
    assert buffer[..] == source + [0] + buffer[length + 1..];
    TextOfTerminated(source, buffer[length + 1..]);
    return true;
  }

  // The bytes BH_SetAvatar accepts; none are a request to clear.
  ghost predicate IsAvatar(data: seq<byte>) {
    |data| <= AVATAR_MAX_BYTES && (data == [] || Png.IsPng(data))
  }

  // The slot after BH_SetAvatar.
  ghost function WithAvatar(s: Slot, incarnation: uint64, data: seq<byte>): Slot {
    if Target(s, incarnation) && IsAvatar(data) then Requested(s, data) else s
  }

  // What the caller hands over: nothing, or a length of acceptable bytes.
  ghost predicate Given(data: Option<seq<byte>>, length: int) {
    length == 0 || (data.Some? && IsAvatar(data.value))
  }

  // BH_SetAvatar on a slot that exists, with `connected` the result of Connected().
  method SetAvatar(manager: FakeClientManager, connected: bool, slot: int, incarnation: uint64,
                   data: Option<seq<byte>>, length: int)
    returns (ok: bool)
    requires manager.Valid()
    requires data.Some? ==> |data.value| == length
    modifies manager.slots
    ensures ok <==> connected && IsSlot(slot) && Target(old(manager.slots[slot]), incarnation) && Given(data, length)
    ensures if ok
            then manager.slots[..] ==
                   old(manager.slots[..])[slot :=
                     Requested(old(manager.slots[slot]), if length == 0 then [] else data.value)]
            else manager.slots[..] == old(manager.slots[..])
  {
    if !connected || !IsSlot(slot) || !Target(manager.slots[slot], incarnation) || length < 0 ||
       length > AVATAR_MAX_BYTES {
      return false;
    }
    if length != 0 {
      var png := Png.HasPngStructure(data);
      if !png {
        return false;
      }
    }
    manager.SetAvatarRequest(slot, if length == 0 then [] else data.value);
    return true;
  }
}
