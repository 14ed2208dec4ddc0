/** The reflected CRC-32 of clause 3.2.9 of IEEE 802.3 (polynomial 0xEDB88320),
    extended span by span, and why it notices any change of a single byte. */
module Crc32 {
  import opened Values

  const POLYNOMIAL: bv32 := 0xEDB88320

  /** One division step: shift out the low bit and subtract the polynomial if it was set. */
  function DivideBit(crc: bv32): bv32 {
    if crc & 1 == 1 then (crc >> 1) ^ POLYNOMIAL else crc >> 1
  }

  function DivideBits(crc: bv32, count: nat): bv32 {
    if count == 0 then crc else DivideBit(DivideBits(crc, count - 1))
  }

  function Flag(on: bool, weight: bv32): bv32 {
    if on then weight else 0
  }

  /** The lowest bits of n, lowest first. */
  function BitsOf(n: nat, count: nat): (bits: seq<bool>)
    ensures |bits| == count
  {
    if count == 0 then [] else [n % 2 == 1] + BitsOf(n / 2, count - 1)
  }

  /** The word with the bits of one byte. */
  function ByteWord(b: byte): bv32 {
    var x := BitsOf(b, 8);
    Flags(x[0], x[1], x[2], x[3], x[4], x[5], x[6], x[7])
  }

  function Flags(a: bool, b: bool, c: bool, d: bool, e: bool, f: bool, g: bool, h: bool): bv32 {
    Flag(a, 1) | Flag(b, 2) | Flag(c, 4) | Flag(d, 8) | Flag(e, 16) | Flag(f, 32) | Flag(g, 64) | Flag(h, 128)
  }

  function DivideWord(crc: bv32, word: bv32): bv32 {
    DivideBits(crc ^ word, 8)
  }

  function DivideByte(crc: bv32, b: byte): bv32 {
    DivideWord(crc, ByteWord(b))
  }

  function Extend(state: bv32, data: seq<byte>): bv32 {
    if data == [] then state else DivideByte(Extend(state, data[..|data| - 1]), data[|data| - 1])
  }

  function Begin(): bv32 { 0xFFFFFFFF }

  function Finish(state: bv32): bv32 { state ^ 0xFFFFFFFF }

  function Checksum(data: seq<byte>): bv32 {
    Finish(Extend(Begin(), data))
  }

  /** The masked form of the step that the inner loop uses. */
  lemma MaskedStep(crc: bv32)
    ensures (crc >> 1) ^ (POLYNOMIAL & (0 - (crc & 1))) == DivideBit(crc)
  {
    var low := crc & 1;
    assert low == 0 || low == 1;
    if low == 1 {
      assert (0 - low) == 0xFFFFFFFF;
    } else {
      assert (0 - low) == 0 && POLYNOMIAL & 0 == 0;
    }
  }

  method ExtendState(state: bv32, data: seq<byte>) returns (crc: bv32)
    ensures crc == Extend(state, data)
  {
    hide DivideBit;
    crc := state;
    for k := 0 to |data|
      invariant crc == Extend(state, data[..k])
    {
      assert data[..k + 1][..k] == data[..k];
      crc := crc ^ ByteWord(data[k]);
      ghost var start := crc;
      for bit := 0 to 8
        invariant crc == DivideBits(start, bit)
      {
        MaskedStep(crc);
        var mask := 0 - (crc & 1);
        crc := (crc >> 1) ^ (POLYNOMIAL & mask);
      }
    }
    assert data[..|data|] == data;
  }

  /** The checksum of several spans is the checksum of their concatenation. */
  lemma {:induction false} ExtendConcat(state: bv32, a: seq<byte>, b: seq<byte>)
    ensures Extend(state, a + b) == Extend(Extend(state, a), b)
  {
    hide DivideByte;
    if b == [] {
      assert a + b == a;
    } else {
      var n := |b| - 1;
      assert (a + b)[..|a + b| - 1] == a + b[..n];
      ExtendConcat(state, a, b[..n]);
    }
  }

  // ----- every step is a bijection on 32-bit states -----

  lemma BitIsInjective(a: bv32, b: bv32)
    requires DivideBit(a) == DivideBit(b)
    ensures a == b
  {
  }

  lemma {:induction false} BitsAreInjective(a: bv32, b: bv32, count: nat)
    requires DivideBits(a, count) == DivideBits(b, count)
    ensures a == b
  {
    if count > 0 {
      hide DivideBit;
      BitIsInjective(DivideBits(a, count - 1), DivideBits(b, count - 1));
      BitsAreInjective(a, b, count - 1);
    }
  }

  lemma XorIsInjective(a: bv32, b: bv32, x: bv32)
    requires a ^ x == b ^ x
    ensures a == b
  {
  }

  lemma StepIsInjective(s: bv32, t: bv32, word: bv32)
    requires DivideWord(s, word) == DivideWord(t, word)
    ensures s == t
  {
    hide DivideBits;
    BitsAreInjective(s ^ word, t ^ word, 8);
    XorIsInjective(s, t, word);
  }

  lemma {:induction false} StateIsInjective(s: bv32, t: bv32, data: seq<byte>)
    requires Extend(s, data) == Extend(t, data)
    ensures s == t
  {
    hide DivideWord, ByteWord;
    if data != [] {
      var n := |data| - 1;
      StepIsInjective(Extend(s, data[..n]), Extend(t, data[..n]), ByteWord(data[n]));
      StateIsInjective(s, t, data[..n]);
    }
  }

  lemma XorCancels(s: bv32, x: bv32, y: bv32)
    requires s ^ x == s ^ y
    ensures x == y
  {
  }

  lemma WordIsInjective(s: bv32, x: bv32, y: bv32)
    requires DivideWord(s, x) == DivideWord(s, y)
    ensures x == y
  {
    hide DivideBits;
    BitsAreInjective(s ^ x, s ^ y, 8);
    XorCancels(s, x, y);
  }

  lemma FlagsAreInjective(a: bool, b: bool, c: bool, d: bool, e: bool, f: bool, g: bool, h: bool,
                          p: bool, q: bool, r: bool, s: bool, t: bool, u: bool, v: bool, w: bool)
    requires Flags(a, b, c, d, e, f, g, h) == Flags(p, q, r, s, t, u, v, w)
    ensures a == p && b == q && c == r && d == s && e == t && f == u && g == v && h == w
  {
  }

  lemma {:induction false} BitsAreFaithful(m: nat, n: nat, count: nat)
    requires m < PowerOfTwo(count) && n < PowerOfTwo(count) && BitsOf(m, count) == BitsOf(n, count)
    ensures m == n
  {
    if count > 0 {
      var x, y := BitsOf(m, count), BitsOf(n, count);
      assert x[0] == y[0] && x[1..] == y[1..];
      BitsAreFaithful(m / 2, n / 2, count - 1);
    }
  }

  lemma SameWordSameBits(x: byte, y: byte)
    requires ByteWord(x) == ByteWord(y)
    ensures BitsOf(x, 8) == BitsOf(y, 8)
  {
    hide BitsOf, Flags;
    var a, b := BitsOf(x, 8), BitsOf(y, 8);
    FlagsAreInjective(a[0], a[1], a[2], a[3], a[4], a[5], a[6], a[7], b[0], b[1], b[2], b[3], b[4], b[5], b[6], b[7]);
    assert forall k :: 0 <= k < 8 ==> a[k] == b[k];
  }

  lemma ByteWordIsInjective(a: byte, b: byte)
    requires ByteWord(a) == ByteWord(b)
    ensures a == b
  {
    SameWordSameBits(a, b);
    hide ByteWord, BitsOf;
    assert PowerOfTwo(8) == 256 by {
      assert PowerOfTwo(4) == 16;
    }
    BitsAreFaithful(a, b, 8);
  }

  lemma FinishIsInjective(s: bv32, t: bv32)
    requires Finish(s) == Finish(t)
    ensures s == t
  {
  }

  /** Changing exactly one byte always changes the checksum. */
  lemma OneByteChangesChecksum(front: seq<byte>, a: byte, b: byte, back: seq<byte>)
    requires a != b
    ensures Checksum(front + [a] + back) != Checksum(front + [b] + back)
  {
    hide Finish, DivideWord, ByteWord;
    var s := Extend(Begin(), front);
    ExtendConcat(Begin(), front + [a], back);
    ExtendConcat(Begin(), front + [b], back);
    ExtendConcat(Begin(), front, [a]);
    ExtendConcat(Begin(), front, [b]);
    SingleByte(s, a);
    SingleByte(s, b);
    if Checksum(front + [a] + back) == Checksum(front + [b] + back) {
      FinishIsInjective(Extend(Begin(), front + [a] + back), Extend(Begin(), front + [b] + back));
      StateIsInjective(DivideByte(s, a), DivideByte(s, b), back);
      WordIsInjective(s, ByteWord(a), ByteWord(b));
      ByteWordIsInjective(a, b);
    }
  }

  lemma SingleByte(s: bv32, b: byte)
    ensures Extend(s, [b]) == DivideByte(s, b)
  {
  }

  // ----- the checksum as a number -----

  function WordValue(w: bv32): nat { w as int }

  lemma WordValueRange(w: bv32)
    ensures WordValue(w) < 0x1_0000_0000
  {
  }

  lemma WordValueBack(w: bv32)
    requires WordValue(w) < 0x1_0000_0000
    ensures WordValue(w) as bv32 == w
  {
  }

  lemma WordValueIsInjective(v: bv32, w: bv32)
    requires WordValue(v) == WordValue(w)
    ensures v == w
  {
    WordValueRange(v);
    WordValueRange(w);
    WordValueBack(v);
    WordValueBack(w);
  }

  function Check(data: seq<byte>): (check: nat)
    ensures check < 0x1_0000_0000
  {
    WordValueRange(Checksum(data));
    WordValue(Checksum(data))
  }

  /** Sequences that differ in exactly one byte have different check values. */
  lemma OneByteChangesCheck(a: seq<byte>, b: seq<byte>, i: nat)
    requires |a| == |b| && i < |a| && a[i] != b[i] && forall j :: 0 <= j < |a| && j != i ==> a[j] == b[j]
    ensures Check(a) != Check(b)
  {
    hide WordValue, Checksum;
    assert a == a[..i] + [a[i]] + a[i + 1..];
    assert b == a[..i] + [b[i]] + a[i + 1..];
    OneByteChangesChecksum(a[..i], a[i], b[i], a[i + 1..]);
    if Check(a) == Check(b) {
      WordValueIsInjective(Checksum(a), Checksum(b));
    }
  }

  /** The check value over two spans, extended span by span. */
  method CheckOfTwo(first: seq<byte>, second: seq<byte>) returns (check: nat)
    ensures check == Check(first + second)
  {
    hide WordValue, Extend, Finish;
    var crc := Begin();
    crc := ExtendState(crc, first);
    crc := ExtendState(crc, second);
    ExtendConcat(Begin(), first, second);
    check := WordValue(Finish(crc));
  }
}
