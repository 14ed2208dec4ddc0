/** The check value of the CRC-32 that the original's tests expect: that of the nine digits from 1 to 9. */
module KnownChecks {
  import opened Values
  import opened Crc32

  const DIGITS: seq<byte> := [0x31, 0x32, 0x33, 0x34, 0x35, 0x36, 0x37, 0x38, 0x39]

  function One(on: bool): nat { if on then 1 else 0 }

  lemma DigitBits(a: bool, b: bool, c: bool, d: bool)
    ensures BitsOf(48 + One(a) + 2 * One(b) + 4 * One(c) + 8 * One(d), 8) == [a, b, c, d, true, true, false, false]
  {
    hide BitsOf;
    BitsStep(48 + One(a) + 2 * One(b) + 4 * One(c) + 8 * One(d), 8);
    BitsStep(24 + One(b) + 2 * One(c) + 4 * One(d), 7);
    BitsStep(12 + One(c) + 2 * One(d), 6);
    BitsStep(6 + One(d), 5);
    BitsStep(3, 4);
    BitsStep(1, 3);
    BitsStep(0, 2);
    BitsStep(0, 1);
    NoBits();
  }

  lemma BitsStep(n: nat, count: nat)
    requires count > 0
    ensures BitsOf(n, count) == [n % 2 == 1] + BitsOf(n / 2, count - 1)
  {
  }

  lemma NoBits()
    ensures BitsOf(0, 0) == []
  {
  }

  lemma ExtendStep(state: bv32, front: seq<byte>, b: byte)
    ensures Extend(state, front + [b]) == DivideByte(Extend(state, front), b)
  {
    assert (front + [b])[..|front|] == front;
  }

  lemma DivideStep(crc: bv32, count: nat)
    requires count > 0
    ensures DivideBits(crc, count) == DivideBit(DivideBits(crc, count - 1)) && DivideBits(crc, 0) == crc
  {
  }

  lemma Digit1()
    ensures DivideByte(0xffffffff, 0x31) == 0x7c231048
  {
    hide DivideBits, BitsOf;
    DigitBits(true, false, false, false);
    assert 0xffffffff ^ ByteWord(0x31) == 0xffffffce;
    DivideStep(0xffffffce, 1);
    DivideStep(0xffffffce, 2);
    DivideStep(0xffffffce, 3);
    DivideStep(0xffffffce, 4);
    DivideStep(0xffffffce, 5);
    DivideStep(0xffffffce, 6);
    DivideStep(0xffffffce, 7);
    DivideStep(0xffffffce, 8);
  }

  lemma Digit2()
    ensures DivideByte(0x7c231048, 0x32) == 0xb0acbb32
  {
    hide DivideBits, BitsOf;
    DigitBits(false, true, false, false);
    assert 0x7c231048 ^ ByteWord(0x32) == 0x7c23107a;
    DivideStep(0x7c23107a, 1);
    DivideStep(0x7c23107a, 2);
    DivideStep(0x7c23107a, 3);
    DivideStep(0x7c23107a, 4);
    DivideStep(0x7c23107a, 5);
    DivideStep(0x7c23107a, 6);
    DivideStep(0x7c23107a, 7);
    DivideStep(0x7c23107a, 8);
  }

  lemma Digit3()
    ensures DivideByte(0xb0acbb32, 0x33) == 0x77b79c2d
  {
    hide DivideBits, BitsOf;
    DigitBits(true, true, false, false);
    assert 0xb0acbb32 ^ ByteWord(0x33) == 0xb0acbb01;
    DivideStep(0xb0acbb01, 1);
    DivideStep(0xb0acbb01, 2);
    DivideStep(0xb0acbb01, 3);
    DivideStep(0xb0acbb01, 4);
    DivideStep(0xb0acbb01, 5);
    DivideStep(0xb0acbb01, 6);
    DivideStep(0xb0acbb01, 7);
    DivideStep(0xb0acbb01, 8);
  }

  lemma Digit4()
    ensures DivideByte(0x77b79c2d, 0x34) == 0x641c1f5c
  {
    hide DivideBits, BitsOf;
    DigitBits(false, false, true, false);
    assert 0x77b79c2d ^ ByteWord(0x34) == 0x77b79c19;
    DivideStep(0x77b79c19, 1);
    DivideStep(0x77b79c19, 2);
    DivideStep(0x77b79c19, 3);
    DivideStep(0x77b79c19, 4);
    DivideStep(0x77b79c19, 5);
    DivideStep(0x77b79c19, 6);
    DivideStep(0x77b79c19, 7);
    DivideStep(0x77b79c19, 8);
  }

  lemma Digit5()
    ensures DivideByte(0x641c1f5c, 0x35) == 0x340ac5e3
  {
    hide DivideBits, BitsOf;
    DigitBits(true, false, true, false);
    assert 0x641c1f5c ^ ByteWord(0x35) == 0x641c1f69;
    DivideStep(0x641c1f69, 1);
    DivideStep(0x641c1f69, 2);
    DivideStep(0x641c1f69, 3);
    DivideStep(0x641c1f69, 4);
    DivideStep(0x641c1f69, 5);
    DivideStep(0x641c1f69, 6);
    DivideStep(0x641c1f69, 7);
    DivideStep(0x641c1f69, 8);
  }

  lemma Digit6()
    ensures DivideByte(0x340ac5e3, 0x36) == 0xf68d2c9e
  {
    hide DivideBits, BitsOf;
    DigitBits(false, true, true, false);
    assert 0x340ac5e3 ^ ByteWord(0x36) == 0x340ac5d5;
    DivideStep(0x340ac5d5, 1);
    DivideStep(0x340ac5d5, 2);
    DivideStep(0x340ac5d5, 3);
    DivideStep(0x340ac5d5, 4);
    DivideStep(0x340ac5d5, 5);
    DivideStep(0x340ac5d5, 6);
    DivideStep(0x340ac5d5, 7);
    DivideStep(0x340ac5d5, 8);
  }

  lemma Digit7()
    ensures DivideByte(0xf68d2c9e, 0x37) == 0xaffc9660
  {
    hide DivideBits, BitsOf;
    DigitBits(true, true, true, false);
    assert 0xf68d2c9e ^ ByteWord(0x37) == 0xf68d2ca9;
    DivideStep(0xf68d2ca9, 1);
    DivideStep(0xf68d2ca9, 2);
    DivideStep(0xf68d2ca9, 3);
    DivideStep(0xf68d2ca9, 4);
    DivideStep(0xf68d2ca9, 5);
    DivideStep(0xf68d2ca9, 6);
    DivideStep(0xf68d2ca9, 7);
    DivideStep(0xf68d2ca9, 8);
  }

  lemma Digit8()
    ensures DivideByte(0xaffc9660, 0x38) == 0x651f2550
  {
    hide DivideBits, BitsOf;
    DigitBits(false, false, false, true);
    assert 0xaffc9660 ^ ByteWord(0x38) == 0xaffc9658;
    DivideStep(0xaffc9658, 1);
    DivideStep(0xaffc9658, 2);
    DivideStep(0xaffc9658, 3);
    DivideStep(0xaffc9658, 4);
    DivideStep(0xaffc9658, 5);
    DivideStep(0xaffc9658, 6);
    DivideStep(0xaffc9658, 7);
    DivideStep(0xaffc9658, 8);
  }

  lemma Digit9()
    ensures DivideByte(0x651f2550, 0x39) == 0x340bc6d9
  {
    hide DivideBits, BitsOf;
    DigitBits(true, false, false, true);
    assert 0x651f2550 ^ ByteWord(0x39) == 0x651f2569;
    DivideStep(0x651f2569, 1);
    DivideStep(0x651f2569, 2);
    DivideStep(0x651f2569, 3);
    DivideStep(0x651f2569, 4);
    DivideStep(0x651f2569, 5);
    DivideStep(0x651f2569, 6);
    DivideStep(0x651f2569, 7);
    DivideStep(0x651f2569, 8);
  }

  /** The check value of the digits is 0xCBF43926. */
  lemma ChecksumOfDigits()
    ensures Checksum(DIGITS) == 0xCBF43926
  {
    hide Extend, DivideByte;
    NothingExtends();
    assert DIGITS[..1] == DIGITS[..0] + [0x31];
    ExtendStep(0xFFFFFFFF, DIGITS[..0], 0x31);
    Digit1();
    assert DIGITS[..2] == DIGITS[..1] + [0x32];
    ExtendStep(0xFFFFFFFF, DIGITS[..1], 0x32);
    Digit2();
    assert DIGITS[..3] == DIGITS[..2] + [0x33];
    ExtendStep(0xFFFFFFFF, DIGITS[..2], 0x33);
    Digit3();
    assert DIGITS[..4] == DIGITS[..3] + [0x34];
    ExtendStep(0xFFFFFFFF, DIGITS[..3], 0x34);
    Digit4();
    assert DIGITS[..5] == DIGITS[..4] + [0x35];
    ExtendStep(0xFFFFFFFF, DIGITS[..4], 0x35);
    Digit5();
    assert DIGITS[..6] == DIGITS[..5] + [0x36];
    ExtendStep(0xFFFFFFFF, DIGITS[..5], 0x36);
    Digit6();
    assert DIGITS[..7] == DIGITS[..6] + [0x37];
    ExtendStep(0xFFFFFFFF, DIGITS[..6], 0x37);
    Digit7();
    assert DIGITS[..8] == DIGITS[..7] + [0x38];
    ExtendStep(0xFFFFFFFF, DIGITS[..7], 0x38);
    Digit8();
    assert DIGITS[..9] == DIGITS[..8] + [0x39];
    ExtendStep(0xFFFFFFFF, DIGITS[..8], 0x39);
    Digit9();
    assert DIGITS[..9] == DIGITS;
  }

  lemma NothingExtends()
    ensures Extend(0xFFFFFFFF, []) == 0xFFFFFFFF
  {
  }
}
