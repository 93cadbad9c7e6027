/** Machine integer ranges, the option type, and the fixed sizes shared by the whole model. */
module Prelude {

  datatype Option<+T> = None | Some(value: T)

  type byte = x: int | 0 <= x < 0x100
  type uint16 = x: int | 0 <= x < 0x1_0000
  type uint32 = x: int | 0 <= x < 0x1_0000_0000
  type uint64 = x: int | 0 <= x < 0x1_0000_0000_0000_0000

  const TWO_32: int := 0x1_0000_0000
  const TWO_64: int := 0x1_0000_0000_0000_0000

  // bridge::kMaxSlots
  const MAX_SLOTS: nat := 64

  // bridge::kAvatarMaxBytes
  const AVATAR_MAX_BYTES: nat := 16 * 1024

  // The range of slot numbers.
  predicate IsSlot(slot: int) {
    0 <= slot < MAX_SLOTS
  }

  function Wrap32(x: nat): uint32 {
    x % TWO_32
  }

  function CountTrue(s: seq<bool>): nat {
    if s == [] then 0 else CountTrue(s[..|s| - 1]) + (if s[|s| - 1] then 1 else 0)
  }
}
