/** The per-slot table of FakeClientManager: ownership, lifetime stamps and avatar requests. */
module Manager {
  import opened Prelude

  // FakeClientManager::AvatarRequest
  datatype AvatarRequest = AvatarRequest(sequence: uint32, length: uint32, incarnation: uint64, data: seq<byte>)

  // The part of SlotSnapshot and ManagedSlot that the identity and avatar code reads.
  datatype Slot = Slot(
    managed: bool,
    steamId: uint64,
    baseSteamId: uint64,
    incarnation: uint64,
    avatarLength: uint32,
    avatarApplied: bool,
    avatarSteamId: uint64,
    request: AvatarRequest)

  type Slots = s: seq<Slot> | |s| == MAX_SLOTS witness seq(MAX_SLOTS, i => EMPTY_SLOT)

  const EMPTY_SLOT := Slot(false, 0, 0, 0, 0, false, 0, AvatarRequest(0, 0, 0, []))

  // ClearSlot: everything is reset except that the request sequence moves on.
  function Cleared(s: Slot): Slot {
    EMPTY_SLOT.(request := AvatarRequest(Wrap32(s.request.sequence + 1), 0, 0, []))
  }

  // AdoptSlot
  function Adopted(s: Slot, steamId: uint64, stamp: uint64): Slot {
    Cleared(s).(managed := true, steamId := steamId, baseSteamId := steamId, incarnation := stamp)
  }

  // PublishAvatarState
  function Published(s: Slot, applied: bool, steamId: uint64): Slot {
    s.(avatarApplied := applied, avatarSteamId := if applied then steamId else 0)
  }

  // SetAvatarRequest; the caller bounds the data by kAvatarMaxBytes.
  function Requested(s: Slot, data: seq<byte>): Slot
    requires |data| <= AVATAR_MAX_BYTES
  {
    Published(s.(avatarLength := |data|,
                 request := AvatarRequest(Wrap32(s.request.sequence + 1), |data|, s.incarnation, data)), false, 0)
  }

  // The lifetime counter steps by one, wraps at 2^64 and never lands on zero.
  function NextIncarnation(c: uint64): uint64 {
    var n := (c + 1) % TWO_64;
    if n == 0 then 1 else n
  }

  // Target: a setter is accepted only for a managed slot in the lifetime it names.
  predicate Target(s: Slot, incarnation: uint64) {
    s.managed && incarnation != 0 && incarnation == s.incarnation
  }

  class FakeClientManager {
    const slots: array<Slot>
    var nextIncarnation: uint64

    ghost predicate Valid()
      reads this
    {
      slots.Length == MAX_SLOTS
    }

    constructor (seed: uint64)
      ensures Valid() && fresh(slots) && nextIncarnation == seed
      ensures forall i :: 0 <= i < MAX_SLOTS ==> slots[i] == EMPTY_SLOT
    {
      slots := new Slot[MAX_SLOTS](i => EMPTY_SLOT);
      nextIncarnation := seed;
    }

    method ClearSlot(slot: nat)
      requires Valid() && IsSlot(slot)
      modifies slots
      ensures slots[..] == old(slots[..])[slot := Cleared(old(slots[slot]))]
    {
      var sequence := Wrap32(slots[slot].request.sequence + 1);
      slots[slot] := EMPTY_SLOT;
      slots[slot] := slots[slot].(request := slots[slot].request.(sequence := sequence));
    }

    method AdoptSlot(slot: nat, steamId: uint64)
      requires Valid() && IsSlot(slot)
      modifies slots, this`nextIncarnation
      ensures nextIncarnation == NextIncarnation(old(nextIncarnation))
      ensures slots[..] == old(slots[..])[slot := Adopted(old(slots[slot]), steamId, nextIncarnation)]
    {
      ClearSlot(slot);
      slots[slot] := slots[slot].(steamId := steamId, baseSteamId := steamId);
      nextIncarnation := (nextIncarnation + 1) % TWO_64;
      if nextIncarnation == 0 {
        nextIncarnation := nextIncarnation + 1;
      }
      slots[slot] := slots[slot].(incarnation := nextIncarnation, managed := true);
    }

    method ReleaseAll()
      requires Valid()
      modifies slots
      ensures forall i :: 0 <= i < MAX_SLOTS ==> slots[i] == Cleared(old(slots[i]))
    {
      for slot := 0 to MAX_SLOTS
        invariant forall i :: 0 <= i < slot ==> slots[i] == Cleared(old(slots[i]))
        invariant forall i :: slot <= i < MAX_SLOTS ==> slots[i] == old(slots[i])
      {
        ClearSlot(slot);
        assert forall i :: 0 <= i < MAX_SLOTS ==> slots[i] == slots[..][i];
      }
    }

    method SetSyntheticSid(slot: nat, steamId: uint64)
      requires Valid() && IsSlot(slot)
      modifies slots
      ensures slots[..] == old(slots[..])[slot := old(slots[slot]).(steamId := steamId)]
    {
      slots[slot] := slots[slot].(steamId := steamId);
    }

    method PublishAvatarState(slot: nat, applied: bool, steamId: uint64)
      requires Valid() && IsSlot(slot)
      modifies slots
      ensures slots[..] == old(slots[..])[slot := Published(old(slots[slot]), applied, steamId)]
    {
      slots[slot] := slots[slot].(avatarApplied := applied, avatarSteamId := if applied then steamId else 0);
    }

    method SetAvatarRequest(slot: nat, data: seq<byte>)
      requires Valid() && IsSlot(slot) && |data| <= AVATAR_MAX_BYTES
      modifies slots
      ensures slots[..] == old(slots[..])[slot := Requested(old(slots[slot]), data)]
    {
      var s := slots[slot];
      slots[slot] := s.(request := AvatarRequest(Wrap32(s.request.sequence + 1), |data|, s.incarnation, data));
      slots[slot] := slots[slot].(avatarLength := |data|);
      PublishAvatarState(slot, false, 0);
    }
  }
}
