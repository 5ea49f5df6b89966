/** Shared small things: optional values, the integer widths the program uses, sequence helpers. */
module Prelude {
  datatype Option<+T> = None | Some(value: T)

  type u32 = x: int | 0 <= x <= 0xFFFF_FFFF

  /** Number of distinct values of a 64-bit counter. */
  const U64_COUNT: nat := 0x1_0000_0000_0000_0000

  function Max(a: int, b: int): int { if a < b then b else a }

  function Min(a: int, b: int): int { if a < b then a else b }

  /** `u32::saturating_add(1)`. */
  function SaturatingSucc32(x: u32): u32 { if x < 0xFFFF_FFFF then x + 1 else x }

  function Members(s: seq<nat>): set<nat> { set x | x in s }

  ghost predicate NoDuplicates(s: seq<nat>) { forall i, j :: 0 <= i < j < |s| ==> s[i] != s[j] }

  /** `Vec::swap_remove`. */
  function SwapRemoved<T>(s: seq<T>, i: nat): (r: seq<T>)
    requires i < |s|
    ensures |r| == |s| - 1
    ensures forall k :: 0 <= k < |r| ==> r[k] == if k == i then s[|s| - 1] else s[k]
  {
    s[i := s[|s| - 1]][..|s| - 1]
  }
}
