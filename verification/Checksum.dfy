/**
  The 16-bit one's-complement checksum shared by client, server and the V3
  framing. The odd trailing byte is added as a LOW byte, as the code does.
 */
module Checksum {
  import opened Bytes

  /** Mathematical sum of the big-endian words of `data`, without any wrap-around. */
  function WordSum(data: seq<Byte>): nat {
    if |data| == 0 then 0
    else if |data| == 1 then data[0]
    else GetU16(data, 0) + WordSum(data[2..])
  }

  /** End-around-carry folding of an accumulator down to 16 bits. */
  function Fold(sum: nat): U16
    decreases sum
  {
    if sum < POW16 then sum else Fold(sum % POW16 + sum / POW16)
  }

  /** What the code returns: the accumulator is a uint32, so the sum wraps. */
  function Sum16(data: seq<Byte>): U16 {
    0xFFFF - Fold(WordSum(data) % POW32)
  }

  method CalculateChecksum(data: seq<Byte>) returns (cs: U16)
    ensures cs == Sum16(data)
  {
    var sum: U32 := 0;
    var i := 0;
    while i + 1 < |data|
      invariant 0 <= i <= |data| && i % 2 == 0
      invariant sum == WordSum(data[..i]) % POW32
    {
      WordSumNext(data, i);
      AddMod(WordSum(data[..i]), GetU16(data, i));
      sum := (sum + GetU16(data, i)) % POW32;
      i := i + 2;
    }
    if |data| % 2 == 1 {
      WordSumLast(data);
      AddMod(WordSum(data[..i]), data[i]);
      sum := (sum + data[|data| - 1]) % POW32;
    } else {
      assert data[..i] == data;
    }
    var folded := FoldCarries(sum);
    cs := 0xFFFF - folded;
  }

  method FoldCarries(start: U32) returns (sum: U32)
    ensures sum == Fold(start)
  {
    sum := start;
    while sum / POW16 != 0
      invariant Fold(sum) == Fold(start)
      decreases sum
    {
      sum := sum % POW16 + sum / POW16;
    }
  }

  lemma {:induction false} WordSumConcat(a: seq<Byte>, b: seq<Byte>)
    requires |a| % 2 == 0
    ensures WordSum(a + b) == WordSum(a) + WordSum(b)
  {
    if |a| == 0 {
      assert a + b == b;
    } else {
      WordSumConcat(a[2..], b);
      assert (a + b)[2..] == a[2..] + b;
      assert GetU16(a + b, 0) == GetU16(a, 0);
    }
  }

  lemma WordSumNext(data: seq<Byte>, i: nat)
    requires i + 2 <= |data| && i % 2 == 0
    ensures WordSum(data[..i + 2]) == WordSum(data[..i]) + GetU16(data, i)
  {
    WordSumConcat(data[..i], data[i..i + 2]);
    assert data[..i] + data[i..i + 2] == data[..i + 2];
  }

  lemma WordSumLast(data: seq<Byte>)
    requires |data| % 2 == 1
    ensures WordSum(data) == WordSum(data[..|data| - 1]) + data[|data| - 1]
  {
    var n := |data| - 1;
    WordSumConcat(data[..n], data[n..]);
    assert data[..n] + data[n..] == data;
  }

  lemma AddMod(a: nat, b: nat)
    ensures (a % POW32 + b) % POW32 == (a + b) % POW32
  {
  }

  /** Every UDP datagram (at most 65535 bytes) is summed without uint32 overflow. */
  lemma {:induction false} WordSumBound(data: seq<Byte>)
    ensures 2 * WordSum(data) <= 0xFFFF * (|data| + 1)
    ensures |data| <= 0xFFFF ==> WordSum(data) < POW32
  {
    if |data| >= 2 {
      WordSumBound(data[2..]);
    }
  }

  /** Folding keeps the value modulo 65535, and only the zero sum folds to zero. */
  lemma {:induction false} FoldClosedForm(sum: nat)
    ensures Fold(sum) == if sum == 0 then 0 else (sum - 1) % 0xFFFF + 1
    decreases sum
  {
    if sum >= POW16 {
      var next := sum % POW16 + sum / POW16;
      FoldClosedForm(next);
      assert sum == next + 0xFFFF * (sum / POW16);
      ModShift(next - 1, sum / POW16);
    }
  }

  lemma {:induction false} ModShift(x: nat, k: nat)
    ensures (x + 0xFFFF * k) % 0xFFFF == x % 0xFFFF
    decreases k
  {
    if k > 0 {
      ModShift(x, k - 1);
      assert x + 0xFFFF * k == (x + 0xFFFF * (k - 1)) + 0xFFFF;
    }
  }

  /** Two sums fold alike exactly when they are congruent mod 65535 and agree on being zero. */
  lemma FoldEqual(a: nat, b: nat)
    ensures Fold(a) == Fold(b) <==> ((a == 0 <==> b == 0) && a % 0xFFFF == b % 0xFFFF)
  {
    FoldClosedForm(a);
    FoldClosedForm(b);
    if a > 0 && b > 0 {
      PredMod(a, b);
    }
  }

  lemma PredMod(a: nat, b: nat)
    requires a > 0 && b > 0
    ensures (a - 1) % 0xFFFF == (b - 1) % 0xFFFF <==> a % 0xFFFF == b % 0xFFFF
  {
    PredModOne(a);
    PredModOne(b);
  }

  lemma PredModOne(a: nat)
    requires a > 0
    ensures (a - 1) % 0xFFFF == if a % 0xFFFF == 0 then 0xFFFE else a % 0xFFFF - 1
  {
  }

  /** The two representations of zero in one's-complement arithmetic, exchanged. */
  predicate ZeroSwap(a: U16, b: U16) {
    || (a == 0 && b == 0xFFFF)
    || (a == 0xFFFF && b == 0)
  }

  lemma Congruent(rest: nat, a: U16, b: U16)
    ensures (rest + a) % 0xFFFF == (rest + b) % 0xFFFF <==> a == b || ZeroSwap(a, b)
  {
    var q := (rest + a) / 0xFFFF;
    var q' := (rest + b) / 0xFFFF;
    if (rest + a) % 0xFFFF == (rest + b) % 0xFFFF {
      assert a - b == 0xFFFF * (q - q');
    }
    if ZeroSwap(a, b) {
      ModShift(rest, 1);
    }
  }

  lemma FoldChange(rest: nat, a: U16, b: U16)
    ensures Fold(rest + a) == Fold(rest + b) <==> a == b || (ZeroSwap(a, b) && rest > 0)
  {
    FoldEqual(rest + a, rest + b);
    Congruent(rest, a, b);
  }

  lemma Sum16Plain(data: seq<Byte>)
    requires |data| <= 0xFFFF
    ensures Sum16(data) == 0xFFFF - Fold(WordSum(data))
  {
    WordSumBound(data);
    SmallMod(WordSum(data));
  }

  lemma SmallMod(w: nat)
    requires w < POW32
    ensures w % POW32 == w
  {
  }

  /** Changing one addend of the word sum keeps the checksum only by swapping 0x0000 and 0xFFFF. */
  lemma Sum16Change(x: seq<Byte>, y: seq<Byte>, rest: nat, a: U16, b: U16)
    requires |x| <= 0xFFFF && |y| <= 0xFFFF
    requires WordSum(x) == rest + a && WordSum(y) == rest + b
    ensures Sum16(x) == Sum16(y) <==> a == b || (ZeroSwap(a, b) && rest > 0)
  {
    SameSum(x, y);
    FoldChange(rest, a, b);
  }

  lemma SameSum(x: seq<Byte>, y: seq<Byte>)
    requires |x| <= 0xFFFF && |y| <= 0xFFFF
    ensures Sum16(x) == Sum16(y) <==> Fold(WordSum(x)) == Fold(WordSum(y))
  {
    Sum16Plain(x);
    Sum16Plain(y);
  }

  // ---- the standard ----

  /** Section 1 of RFC 1071: an odd trailing byte Z counts as the word [Z, 0]. */
  function InternetChecksum(data: seq<Byte>): U16 {
    0xFFFF - Fold(WordSum(if |data| % 2 == 0 then data else data + [0]))
  }

  /** The code computes the internet checksum exactly of the packets without an odd non-zero trailing byte. */
  lemma InternetIff(data: seq<Byte>)
    requires |data| <= 0xFFFF
    ensures Sum16(data) == InternetChecksum(data) <==> |data| % 2 == 0 || data[|data| - 1] == 0
  {
    Sum16Plain(data);
    if |data| % 2 == 1 {
      var n := |data| - 1;
      WordSumLast(data);
      WordSumPadded(data);
      FoldChange(WordSum(data[..n]), data[n], GetU16([data[n], 0], 0));
    }
  }

  lemma WordSumPadded(data: seq<Byte>)
    requires |data| % 2 == 1
    ensures WordSum(data + [0]) == WordSum(data[..|data| - 1]) + GetU16([data[|data| - 1], 0], 0)
  {
    var n, padded := |data| - 1, data + [0];
    WordSumNext(padded, n);
    assert padded[..n + 2] == padded && padded[..n] == data[..n];
  }

  /** The one-byte packet 01: 0xFFFE here, 0xFEFF by the standard. */
  lemma InternetDiffers()
    ensures Sum16([1]) == 0xFFFE && InternetChecksum([1]) == 0xFEFF
  {
    WordSumPadded([1]);
    assert [1][..0] == [];
  }

  // ---- the checksum field ----

  function Zeroed(data: seq<Byte>, at: nat): (z: seq<Byte>)
    requires at + 2 <= |data|
    ensures |z| == |data|
  {
    data[..at] + [0, 0] + data[at + 2..]
  }

  function Stamped(data: seq<Byte>, at: nat): (p: seq<Byte>)
    requires at + 2 <= |data|
    ensures |p| == |data|
  {
    data[..at] + PutU16(Sum16(Zeroed(data, at))) + data[at + 2..]
  }

  /** `verifyChecksum`: recompute over a copy whose field (at `at`) is zero and compare. */
  predicate Verifies(data: seq<Byte>, at: nat)
    requires at + 2 <= |data|
  {
    GetU16(data, at) == Sum16(Zeroed(data, at))
  }

  method VerifyChecksum(data: seq<Byte>, at: nat) returns (ok: bool)
    requires at + 2 <= |data|
    ensures ok == Verifies(data, at)
  {
    var stored := GetU16(data, at);
    var tmp := data[at := 0][at + 1 := 0];
    assert tmp == Zeroed(data, at);
    var computed := CalculateChecksum(tmp);
    ok := stored == computed;
  }

  lemma WordSumSplit(data: seq<Byte>, at: nat)
    requires at + 2 <= |data| && at % 2 == 0
    ensures WordSum(data) == WordSum(data[..at]) + GetU16(data, at) + WordSum(data[at + 2..])
  {
    WordSumNext(data, at);
    assert data == data[..at + 2] + data[at + 2..];
    WordSumConcat(data[..at + 2], data[at + 2..]);
  }

  lemma WordSumZeroed(data: seq<Byte>, at: nat)
    requires at + 2 <= |data| && at % 2 == 0
    ensures WordSum(data) == WordSum(Zeroed(data, at)) + GetU16(data, at)
  {
    var z := Zeroed(data, at);
    WordSumSplit(data, at);
    WordSumSplit(z, at);
    assert z[..at] == data[..at] && z[at + 2..] == data[at + 2..];
  }

  /** A stamped packet verifies, and the checksum of the whole stamped packet is zero. */
  lemma StampedVerifies(data: seq<Byte>, at: nat)
    requires at + 2 <= |data| <= 0xFFFF && at % 2 == 0
    ensures Verifies(Stamped(data, at), at)
    ensures Sum16(Stamped(data, at)) == 0
  {
    var p := Stamped(data, at);
    assert Zeroed(p, at) == Zeroed(data, at);
    assert GetU16(p, at) == Sum16(Zeroed(data, at));
    VerifiesIff(p, at);
  }

  /**
    What the receiver's test means: the whole packet sums to all-ones, except that
    it insists on the canonical field 0x0000 where 0xFFFF would sum alike.
   */
  lemma VerifiesIff(data: seq<Byte>, at: nat)
    requires at + 2 <= |data| <= 0xFFFF && at % 2 == 0
    ensures Verifies(data, at) <==>
            Sum16(data) == 0 && (GetU16(data, at) == 0xFFFF ==> WordSum(Zeroed(data, at)) == 0)
  {
    var z := WordSum(Zeroed(data, at));
    var f := GetU16(data, at);
    WordSumZeroed(data, at);
    Sum16Plain(data);
    Sum16Plain(Zeroed(data, at));
    FoldClosedForm(z);
    FoldClosedForm(z + f);
    SumToOnes(z, f);
  }

  lemma SumToOnes(z: nat, f: U16)
    ensures (if z == 0 then 0 else (z - 1) % 0xFFFF + 1) + f == 0xFFFF <==>
            z + f > 0 && (z + f - 1) % 0xFFFF + 1 == 0xFFFF && (f == 0xFFFF ==> z == 0)
  {
    if z > 0 {
      var r := (z - 1) % 0xFFFF;
      assert z - 1 == r + 0xFFFF * ((z - 1) / 0xFFFF);
      ModShift(r + f, (z - 1) / 0xFFFF);
    }
  }

  /**
    Damage confined to one aligned 16-bit word outside the checksum field slips
    through exactly when it swaps 0x0000 and 0xFFFF in a packet that holds some
    other non-zero word (every V2 or V3 packet starts with its version byte).
   */
  lemma WordDamage(data: seq<Byte>, at: nat, pos: nat, damaged: seq<Byte>)
    requires at + 2 <= |data| <= 0xFFFF && at % 2 == 0
    requires pos + 2 <= |data| && pos % 2 == 0 && pos != at
    requires |damaged| == |data| && damaged[..pos] == data[..pos] && damaged[pos + 2..] == data[pos + 2..]
    requires Verifies(data, at)
    ensures Verifies(damaged, at) <==>
            || GetU16(damaged, pos) == GetU16(data, pos)
            || (ZeroSwap(GetU16(data, pos), GetU16(damaged, pos))
                && WordSum(Zeroed(Zeroed(data, at), pos)) > 0)
  {
    var x, y := Zeroed(data, at), Zeroed(damaged, at);
    SameOutside(data, damaged, at, pos);
    assert Zeroed(x, pos) == Zeroed(y, pos);
    WordSumZeroed(x, pos);
    WordSumZeroed(y, pos);
    Sum16Change(x, y, WordSum(Zeroed(x, pos)), GetU16(x, pos), GetU16(y, pos));
  }

  lemma SameOutside(data: seq<Byte>, damaged: seq<Byte>, at: nat, pos: nat)
    requires at + 2 <= |data| == |damaged| && pos + 2 <= |data|
    requires at % 2 == 0 && pos % 2 == 0 && pos != at
    requires damaged[..pos] == data[..pos] && damaged[pos + 2..] == data[pos + 2..]
    ensures GetU16(damaged, at) == GetU16(data, at)
    ensures var x, y := Zeroed(data, at), Zeroed(damaged, at);
            x[..pos] == y[..pos] && x[pos + 2..] == y[pos + 2..]
            && GetU16(x, pos) == GetU16(data, pos) && GetU16(y, pos) == GetU16(damaged, pos)
  {
    assert forall i :: 0 <= i < |data| && i != pos && i != pos + 1 ==> damaged[i] == data[i] by {
      forall i | 0 <= i < |data| && i != pos && i != pos + 1
        ensures damaged[i] == data[i]
      {
        if i < pos {
          assert damaged[..pos][i] == data[..pos][i];
        } else {
          assert damaged[pos + 2..][i - pos - 2] == data[pos + 2..][i - pos - 2];
        }
      }
    }
  }

  /** Changing any one byte of a verifying packet makes verification fail. */
  lemma SingleByteDamage(data: seq<Byte>, at: nat, i: nat, b: Byte)
    requires at + 2 <= |data| <= 0xFFFF && at % 2 == 0
    requires i < |data| && data[i] != b
    requires Verifies(data, at)
    ensures !Verifies(data[i := b], at)
  {
    if at <= i < at + 2 {
      FieldDamage(data, at, i, b);
    } else if i - i % 2 + 2 <= |data| {
      ByteInWord(data, at, i - i % 2, i, b);
    } else {
      TrailingByteDamage(data, at, b);
    }
  }

  lemma FieldDamage(data: seq<Byte>, at: nat, i: nat, b: Byte)
    requires at + 2 <= |data| && at <= i < at + 2 && data[i] != b && Verifies(data, at)
    ensures !Verifies(data[i := b], at)
  {
    assert Zeroed(data[i := b], at) == Zeroed(data, at);
  }

  lemma ByteInWord(data: seq<Byte>, at: nat, pos: nat, i: nat, b: Byte)
    requires at + 2 <= |data| <= 0xFFFF && at % 2 == 0 && pos % 2 == 0 && pos != at
    requires pos <= i < pos + 2 <= |data| && data[i] != b && Verifies(data, at)
    ensures !Verifies(data[i := b], at)
  {
    WordDamage(data, at, pos, data[i := b]);
    assert GetU16(data[i := b], pos) != GetU16(data, pos);
  }

  lemma TrailingByteDamage(data: seq<Byte>, at: nat, b: Byte)
    requires at + 2 < |data| <= 0xFFFF && at % 2 == 0 && |data| % 2 == 1
    requires data[|data| - 1] != b
    requires Verifies(data, at)
    ensures !Verifies(data[|data| - 1 := b], at)
  {
    var n := |data| - 1;
    var x, y := Zeroed(data, at), Zeroed(data[n := b], at);
    WordSumLast(x);
    WordSumLast(y);
    assert x[..n] == y[..n];
    Sum16Change(x, y, WordSum(x[..n]), data[n], b);
  }
}
