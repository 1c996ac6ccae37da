/** Machine integers of the wire format, their big-endian encodings, and the delivery tiers. */
module Bytes {

  const POW16 := 0x1_0000
  const POW32 := 0x1_0000_0000

  type Byte = b: int | 0 <= b < 0x100
  type U16 = n: int | 0 <= n < POW16
  type U32 = n: int | 0 <= n < POW32

  // delivery tiers, a byte of the packet header
  const GUARANTEED: Byte := 0
  const RELIABLE: Byte := 1
  const BEST_EFFORT: Byte := 2

  /** Go's `flags & bit != 0` for a bit that is a power of two. */
  predicate HasFlag(flags: Byte, bit: Byte)
    requires bit > 0
  {
    flags / bit % 2 == 1
  }

  function GetU16(s: seq<Byte>, at: nat): U16
    requires at + 2 <= |s|
  {
    var hi: int, lo: int := s[at], s[at + 1];
    hi * 0x100 + lo
  }

  function GetU32(s: seq<Byte>, at: nat): U32
    requires at + 4 <= |s|
  {
    var hi: int, lo: int := GetU16(s, at), GetU16(s, at + 2);
    hi * POW16 + lo
  }

  function PutU16(n: U16): (s: seq<Byte>)
    ensures |s| == 2 && GetU16(s, 0) == n
  {
    [n / 0x100, n % 0x100]
  }

  function PutU32(n: U32): (s: seq<Byte>)
    ensures |s| == 4 && GetU32(s, 0) == n
  {
    PutU16(n / POW16) + PutU16(n % POW16)
  }

  /** Numbers fewer than 65536 apart are told apart by their low 16 bits. */
  lemma SameResidue(j: nat, k: nat)
    requires -POW16 < j - k < POW16
    ensures j % POW16 == k % POW16 ==> j == k
  {
  }
}
