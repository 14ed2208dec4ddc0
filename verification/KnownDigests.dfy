/** The known answer of the standard: the digest of "abc" given with FIPS 180-4, reached word by word
    and round by round. It fixes every constant, rotation and addition of the hash at once. */
module KnownDigests {
  import opened Values
  import opened Crc32
  import opened Sha256

  const ABC: seq<byte> := [0x61, 0x62, 0x63]

  /** The only block of the padded message. */
  ghost predicate IsAbcBlock(block: seq<byte>) {
    && |block| == 64 && block[..4] == [0x61, 0x62, 0x63, 0x80] && block[63] == 24
    && forall i :: 4 <= i < 63 ==> block[i] == 0
  }

  lemma ScheduleStep(block: seq<byte>, t: nat)
    requires |block| == 64 && 16 <= t < 64
    ensures Schedule(block, t) ==
            Mixed(Schedule(block, t - 2), Schedule(block, t - 7), Schedule(block, t - 15), Schedule(block, t - 16))
  {
  }

  lemma KnownBytes()
    ensures ByteWord(0) == 0 && ByteWord(24) == 24 && ByteWord(0x61) == 0x61 && ByteWord(0x62) == 0x62
    ensures ByteWord(0x63) == 0x63 && ByteWord(0x80) == 0x80
  {
    hide BitsOf;
    Bits0();
    Bits24();
    Bits97();
    Bits98();
    Bits99();
    Bits128();
  }

  lemma BitsStep(n: nat, count: nat)
    requires count > 0
    ensures BitsOf(n, count) == [n % 2 == 1] + BitsOf(n / 2, count - 1)
  {
  }

  lemma Bits0()
    ensures BitsOf(0, 8) == [false, false, false, false, false, false, false, false]
  {
    hide BitsOf;
    BitsStep(0, 8);
    BitsStep(0, 7);
    BitsStep(0, 6);
    BitsStep(0, 5);
    BitsStep(0, 4);
    BitsStep(0, 3);
    BitsStep(0, 2);
    BitsStep(0, 1);
    assert BitsOf(0, 0) == [] by {
      NoBits();
    }
  }

  lemma Bits24()
    ensures BitsOf(24, 8) == [false, false, false, true, true, false, false, false]
  {
    hide BitsOf;
    BitsStep(24, 8);
    BitsStep(12, 7);
    BitsStep(6, 6);
    BitsStep(3, 5);
    BitsStep(1, 4);
    BitsStep(0, 3);
    BitsStep(0, 2);
    BitsStep(0, 1);
    assert BitsOf(0, 0) == [] by {
      NoBits();
    }
  }

  lemma Bits97()
    ensures BitsOf(97, 8) == [true, false, false, false, false, true, true, false]
  {
    hide BitsOf;
    BitsStep(97, 8);
    BitsStep(48, 7);
    BitsStep(24, 6);
    BitsStep(12, 5);
    BitsStep(6, 4);
    BitsStep(3, 3);
    BitsStep(1, 2);
    BitsStep(0, 1);
    assert BitsOf(0, 0) == [] by {
      NoBits();
    }
  }

  lemma Bits98()
    ensures BitsOf(98, 8) == [false, true, false, false, false, true, true, false]
  {
    hide BitsOf;
    BitsStep(98, 8);
    BitsStep(49, 7);
    BitsStep(24, 6);
    BitsStep(12, 5);
    BitsStep(6, 4);
    BitsStep(3, 3);
    BitsStep(1, 2);
    BitsStep(0, 1);
    assert BitsOf(0, 0) == [] by {
      NoBits();
    }
  }

  lemma Bits99()
    ensures BitsOf(99, 8) == [true, true, false, false, false, true, true, false]
  {
    hide BitsOf;
    BitsStep(99, 8);
    BitsStep(49, 7);
    BitsStep(24, 6);
    BitsStep(12, 5);
    BitsStep(6, 4);
    BitsStep(3, 3);
    BitsStep(1, 2);
    BitsStep(0, 1);
    assert BitsOf(0, 0) == [] by {
      NoBits();
    }
  }

  lemma Bits128()
    ensures BitsOf(128, 8) == [false, false, false, false, false, false, false, true]
  {
    hide BitsOf;
    BitsStep(128, 8);
    BitsStep(64, 7);
    BitsStep(32, 6);
    BitsStep(16, 5);
    BitsStep(8, 4);
    BitsStep(4, 3);
    BitsStep(2, 2);
    BitsStep(1, 1);
    assert BitsOf(0, 0) == [] by {
      NoBits();
    }
  }

  lemma NoBits()
    ensures BitsOf(0, 0) == []
  {
  }

  lemma KnownWords()
    ensures WordOf(0x61, 0x62, 0x63, 0x80) == 0x61626380 && WordOf(0, 0, 0, 24) == 24 && WordOf(0, 0, 0, 0) == 0
  {
    hide ByteWord;
    KnownBytes();
  }

  lemma Words0(block: seq<byte>)
    requires IsAbcBlock(block)
    ensures Schedule(block, 0) == 0x61626380
    ensures Schedule(block, 1) == 0x00000000
    ensures Schedule(block, 2) == 0x00000000
    ensures Schedule(block, 3) == 0x00000000
    ensures Schedule(block, 4) == 0x00000000
    ensures Schedule(block, 5) == 0x00000000
    ensures Schedule(block, 6) == 0x00000000
    ensures Schedule(block, 7) == 0x00000000
  {
    hide WordOf;
    KnownWords();
  }

  lemma Words8(block: seq<byte>)
    requires IsAbcBlock(block)
    ensures Schedule(block, 8) == 0x00000000
    ensures Schedule(block, 9) == 0x00000000
    ensures Schedule(block, 10) == 0x00000000
    ensures Schedule(block, 11) == 0x00000000
    ensures Schedule(block, 12) == 0x00000000
    ensures Schedule(block, 13) == 0x00000000
    ensures Schedule(block, 14) == 0x00000000
    ensures Schedule(block, 15) == 0x00000018
  {
    hide WordOf;
    KnownWords();
  }

  lemma Words16(block: seq<byte>)
    requires IsAbcBlock(block)
    ensures Schedule(block, 16) == 0x61626380
    ensures Schedule(block, 17) == 0x000f0000
    ensures Schedule(block, 18) == 0x7da86405
    ensures Schedule(block, 19) == 0x600003c6
    ensures Schedule(block, 20) == 0x3e9d7b78
    ensures Schedule(block, 21) == 0x0183fc00
    ensures Schedule(block, 22) == 0x12dcbfdb
    ensures Schedule(block, 23) == 0xe2e2c38e
  {
    hide Schedule;
    Words0(block);
    Words8(block);
    ScheduleStep(block, 16);
    ScheduleStep(block, 17);
    ScheduleStep(block, 18);
    ScheduleStep(block, 19);
    ScheduleStep(block, 20);
    ScheduleStep(block, 21);
    ScheduleStep(block, 22);
    ScheduleStep(block, 23);
  }

  lemma Words24(block: seq<byte>)
    requires IsAbcBlock(block)
    ensures Schedule(block, 24) == 0xc8215c1a
    ensures Schedule(block, 25) == 0xb73679a2
    ensures Schedule(block, 26) == 0xe5bc3909
    ensures Schedule(block, 27) == 0x32663c5b
    ensures Schedule(block, 28) == 0x9d209d67
    ensures Schedule(block, 29) == 0xec8726cb
    ensures Schedule(block, 30) == 0x702138a4
    ensures Schedule(block, 31) == 0xd3b7973b
  {
    hide Schedule;
    Words8(block);
    Words16(block);
    ScheduleStep(block, 24);
    ScheduleStep(block, 25);
    ScheduleStep(block, 26);
    ScheduleStep(block, 27);
    ScheduleStep(block, 28);
    ScheduleStep(block, 29);
    ScheduleStep(block, 30);
    ScheduleStep(block, 31);
  }

  lemma Words32(block: seq<byte>)
    requires IsAbcBlock(block)
    ensures Schedule(block, 32) == 0x93f5997f
    ensures Schedule(block, 33) == 0x3b68ba73
    ensures Schedule(block, 34) == 0xaff4ffc1
    ensures Schedule(block, 35) == 0xf10a5c62
    ensures Schedule(block, 36) == 0x0a8b3996
    ensures Schedule(block, 37) == 0x72af830a
    ensures Schedule(block, 38) == 0x9409e33e
    ensures Schedule(block, 39) == 0x24641522
  {
    hide Schedule;
    Words16(block);
    Words24(block);
    ScheduleStep(block, 32);
    ScheduleStep(block, 33);
    ScheduleStep(block, 34);
    ScheduleStep(block, 35);
    ScheduleStep(block, 36);
    ScheduleStep(block, 37);
    ScheduleStep(block, 38);
    ScheduleStep(block, 39);
  }

  lemma Words40(block: seq<byte>)
    requires IsAbcBlock(block)
    ensures Schedule(block, 40) == 0x9f47bf94
    ensures Schedule(block, 41) == 0xf0a64f5a
    ensures Schedule(block, 42) == 0x3e246a79
    ensures Schedule(block, 43) == 0x27333ba3
    ensures Schedule(block, 44) == 0x0c4763f2
    ensures Schedule(block, 45) == 0x840abf27
    ensures Schedule(block, 46) == 0x7a290d5d
    ensures Schedule(block, 47) == 0x065c43da
  {
    hide Schedule;
    Words24(block);
    Words32(block);
    ScheduleStep(block, 40);
    ScheduleStep(block, 41);
    ScheduleStep(block, 42);
    ScheduleStep(block, 43);
    ScheduleStep(block, 44);
    ScheduleStep(block, 45);
    ScheduleStep(block, 46);
    ScheduleStep(block, 47);
  }

  lemma Words48(block: seq<byte>)
    requires IsAbcBlock(block)
    ensures Schedule(block, 48) == 0xfb3e89cb
    ensures Schedule(block, 49) == 0xcc7617db
    ensures Schedule(block, 50) == 0xb9e66c34
    ensures Schedule(block, 51) == 0xa9993667
    ensures Schedule(block, 52) == 0x84badedd
    ensures Schedule(block, 53) == 0xc21462bc
    ensures Schedule(block, 54) == 0x1487472c
    ensures Schedule(block, 55) == 0xb20f7a99
  {
    hide Schedule;
    Words32(block);
    Words40(block);
    ScheduleStep(block, 48);
    ScheduleStep(block, 49);
    ScheduleStep(block, 50);
    ScheduleStep(block, 51);
    ScheduleStep(block, 52);
    ScheduleStep(block, 53);
    ScheduleStep(block, 54);
    ScheduleStep(block, 55);
  }

  lemma Words56(block: seq<byte>)
    requires IsAbcBlock(block)
    ensures Schedule(block, 56) == 0xef57b9cd
    ensures Schedule(block, 57) == 0xebe6b238
    ensures Schedule(block, 58) == 0x9fe3095e
    ensures Schedule(block, 59) == 0x78bc8d4b
    ensures Schedule(block, 60) == 0xa43fcf15
    ensures Schedule(block, 61) == 0x668b2ff8
    ensures Schedule(block, 62) == 0xeeaba2cc
    ensures Schedule(block, 63) == 0x12b1edeb
  {
    hide Schedule;
    Words40(block);
    Words48(block);
    ScheduleStep(block, 56);
    ScheduleStep(block, 57);
    ScheduleStep(block, 58);
    ScheduleStep(block, 59);
    ScheduleStep(block, 60);
    ScheduleStep(block, 61);
    ScheduleStep(block, 62);
    ScheduleStep(block, 63);
  }

  lemma RoundStep(block: seq<byte>, t: nat)
    requires |block| == 64 && t < 64
    ensures Rounds(INITIAL_HASH, block, t + 1) ==
            Round(Rounds(INITIAL_HASH, block, t), RoundConstant(t), Schedule(block, t))
  {
  }

  lemma State4(block: seq<byte>)
    requires IsAbcBlock(block)
    ensures Rounds(INITIAL_HASH, block, 4) ==
            Working(0xd550f666, 0xc8c347a7, 0x5a6ad9ad, 0x5d6aebcd, 0x24e00850, 0xf92939eb, 0x78ce7989, 0xfa2a4622)
  {
    hide Schedule;
    Words0(block);
    RoundStep(block, 0);
    RoundStep(block, 1);
    RoundStep(block, 2);
    RoundStep(block, 3);
  }

  lemma State8(block: seq<byte>)
    requires IsAbcBlock(block)
    ensures Rounds(INITIAL_HASH, block, 8) ==
            Working(0x85a07b5f, 0xe5030380, 0x2b4209f5, 0x04409a6a, 0x0c657a79, 0x9b27a401, 0x714260ad, 0x43ada245)
  {
    hide Schedule, Rounds;
    State4(block);
    Words0(block);
    RoundStep(block, 4);
    RoundStep(block, 5);
    RoundStep(block, 6);
    RoundStep(block, 7);
  }

  lemma State12(block: seq<byte>)
    requires IsAbcBlock(block)
    ensures Rounds(INITIAL_HASH, block, 12) ==
            Working(0xf71fc5a9, 0x4798a3f4, 0x8c87346b, 0x8e04ecb9, 0x816fd6e9, 0x436b23e8, 0x1cc92596, 0x32ca2d8c)
  {
    hide Schedule, Rounds;
    State8(block);
    Words8(block);
    RoundStep(block, 8);
    RoundStep(block, 9);
    RoundStep(block, 10);
    RoundStep(block, 11);
  }

  lemma State16(block: seq<byte>)
    requires IsAbcBlock(block)
    ensures Rounds(INITIAL_HASH, block, 16) ==
            Working(0xb0fa238e, 0xc0645fde, 0xd932eb16, 0x87912990, 0x07590dcd, 0x0b92f20c, 0x745a48de, 0x1e578218)
  {
    hide Schedule, Rounds;
    State12(block);
    Words8(block);
    RoundStep(block, 12);
    RoundStep(block, 13);
    RoundStep(block, 14);
    RoundStep(block, 15);
  }

  lemma State20(block: seq<byte>)
    requires IsAbcBlock(block)
    ensures Rounds(INITIAL_HASH, block, 20) ==
            Working(0xe1f20c33, 0xfe777bbf, 0xc2fbd9d1, 0x21da9a9b, 0xb0638179, 0xcc899961, 0x846ee454, 0x8034229c)
  {
    hide Schedule, Rounds;
    State16(block);
    Words16(block);
    RoundStep(block, 16);
    RoundStep(block, 17);
    RoundStep(block, 18);
    RoundStep(block, 19);
  }

  lemma State24(block: seq<byte>)
    requires IsAbcBlock(block)
    ensures Rounds(INITIAL_HASH, block, 24) ==
            Working(0xc5d53d8d, 0xa7a3623f, 0xc2606d6d, 0x9dc68b63, 0xaa47c347, 0x49f5114a, 0xe1257970, 0x8ada8930)
  {
    hide Schedule, Rounds;
    State20(block);
    Words16(block);
    RoundStep(block, 20);
    RoundStep(block, 21);
    RoundStep(block, 22);
    RoundStep(block, 23);
  }

  lemma State28(block: seq<byte>)
    requires IsAbcBlock(block)
    ensures Rounds(INITIAL_HASH, block, 28) ==
            Working(0x77d37528, 0xb62ec4bc, 0xcde8037d, 0x1c2c2838, 0xedffbff8, 0xc74c6516, 0x14383d8e, 0x2823ef91)
  {
    hide Schedule, Rounds;
    State24(block);
    Words24(block);
    RoundStep(block, 24);
    RoundStep(block, 25);
    RoundStep(block, 26);
    RoundStep(block, 27);
  }

  lemma State32(block: seq<byte>)
    requires IsAbcBlock(block)
    ensures Rounds(INITIAL_HASH, block, 32) ==
            Working(0x73b33bf5, 0xea992a22, 0xa0060b30, 0x363482c9, 0xba591112, 0x0109ab3a, 0xade79437, 0x6112a3b7)
  {
    hide Schedule, Rounds;
    State28(block);
    Words24(block);
    RoundStep(block, 28);
    RoundStep(block, 29);
    RoundStep(block, 30);
    RoundStep(block, 31);
  }

  lemma State36(block: seq<byte>)
    requires IsAbcBlock(block)
    ensures Rounds(INITIAL_HASH, block, 36) ==
            Working(0x65a0cfe4, 0xa9a7738c, 0xfe604df5, 0x98e12507, 0xf4b002d6, 0x085f3833, 0x59249dd3, 0x9cd9f5f6)
  {
    hide Schedule, Rounds;
    State32(block);
    Words32(block);
    RoundStep(block, 32);
    RoundStep(block, 33);
    RoundStep(block, 34);
    RoundStep(block, 35);
  }

  lemma State40(block: seq<byte>)
    requires IsAbcBlock(block)
    ensures Rounds(INITIAL_HASH, block, 40) ==
            Working(0x79ea687a, 0x6dc57a8a, 0x34df1604, 0x41a65cb1, 0x1efbc0a0, 0xf0781bc8, 0xa507a53d, 0x0772a26b)
  {
    hide Schedule, Rounds;
    State36(block);
    Words32(block);
    RoundStep(block, 36);
    RoundStep(block, 37);
    RoundStep(block, 38);
    RoundStep(block, 39);
  }

  lemma State44(block: seq<byte>)
    requires IsAbcBlock(block)
    ensures Rounds(INITIAL_HASH, block, 44) ==
            Working(0x9d4baf93, 0x17aa0dfe, 0xdf46652f, 0xd6670766, 0xfda24c2e, 0xdecd4715, 0x838b2711, 0x26352d63)
  {
    hide Schedule, Rounds;
    State40(block);
    Words40(block);
    RoundStep(block, 40);
    RoundStep(block, 41);
    RoundStep(block, 42);
    RoundStep(block, 43);
  }

  lemma State48(block: seq<byte>)
    requires IsAbcBlock(block)
    ensures Rounds(INITIAL_HASH, block, 48) ==
            Working(0x4172328d, 0xa14c14b0, 0x72ab4b91, 0x26628815, 0xfecf0bc6, 0xd57b94a9, 0xb7755da1, 0xa80f11f0)
  {
    hide Schedule, Rounds;
    State44(block);
    Words40(block);
    RoundStep(block, 44);
    RoundStep(block, 45);
    RoundStep(block, 46);
    RoundStep(block, 47);
  }

  lemma State52(block: seq<byte>)
    requires IsAbcBlock(block)
    ensures Rounds(INITIAL_HASH, block, 52) ==
            Working(0x886e7a22, 0x7a0508a1, 0xf11bfaa8, 0x05757ceb, 0x49231c1e, 0x52f1ccf7, 0x6e5c390c, 0xbd714038)
  {
    hide Schedule, Rounds;
    State48(block);
    Words48(block);
    RoundStep(block, 48);
    RoundStep(block, 49);
    RoundStep(block, 50);
    RoundStep(block, 51);
  }

  lemma State56(block: seq<byte>)
    requires IsAbcBlock(block)
    ensures Rounds(INITIAL_HASH, block, 56) ==
            Working(0x38cc9913, 0x3ec45cdb, 0xf5702fdb, 0x101fd28f, 0x54cb266b, 0xe50e1b4f, 0x9f4787c3, 0x529e7d00)
  {
    hide Schedule, Rounds;
    State52(block);
    Words48(block);
    RoundStep(block, 52);
    RoundStep(block, 53);
    RoundStep(block, 54);
    RoundStep(block, 55);
  }

  lemma State60(block: seq<byte>)
    requires IsAbcBlock(block)
    ensures Rounds(INITIAL_HASH, block, 60) ==
            Working(0xb6ae8fff, 0xffb70472, 0xc062d46f, 0xfcd1887b, 0xb21bad3d, 0x6d83bfc6, 0x7e44008e, 0x9b5e906c)
  {
    hide Schedule, Rounds;
    State56(block);
    Words56(block);
    RoundStep(block, 56);
    RoundStep(block, 57);
    RoundStep(block, 58);
    RoundStep(block, 59);
  }

  lemma State64(block: seq<byte>)
    requires IsAbcBlock(block)
    ensures Rounds(INITIAL_HASH, block, 64) ==
            Working(0x506e3058, 0xd39a2165, 0x04d24d6c, 0xb85e2ce9, 0x5ef50f24, 0xfb121210, 0x948d25b6, 0x961f4894)
  {
    hide Schedule, Rounds;
    State60(block);
    Words56(block);
    RoundStep(block, 60);
    RoundStep(block, 61);
    RoundStep(block, 62);
    RoundStep(block, 63);
  }

  lemma AbcIsCompressed(block: seq<byte>)
    requires IsAbcBlock(block)
    ensures Compress(INITIAL_HASH, block) ==
            [0xba7816bf, 0x8f01cfea, 0x414140de, 0x5dae2223,
             0xb00361a3, 0x96177a9c, 0xb410ff61, 0xf20015ad]
  {
    hide Rounds;
    State64(block);
    var h := Compress(INITIAL_HASH, block);
    assert |h| == 8;
  }

  lemma AbcIsPadded()
    ensures IsAbcBlock(Padded(ABC))
  {
    assert ZeroCount(3) == 52;
    ZerosAreZero(52);
    assert BigEndian(24, 8) == [0, 0, 0, 0, 0, 0, 0, 24];
  }

  lemma {:induction false} ZerosAreZero(count: nat)
    ensures forall i :: 0 <= i < count ==> Zeros(count)[i] == 0
  {
    if count > 0 {
      ZerosAreZero(count - 1);
    }
  }

  lemma HashStep(front: seq<Word>, last: Word)
    ensures HashBytes(front + [last]) == HashBytes(front) + WordBytes(last)
  {
    assert (front + [last])[..|front|] == front;
  }

  lemma Bytes0()
    ensures WordBytes(0xba7816bf) == [0xba, 0x78, 0x16, 0xbf]
  {
  }

  lemma Bytes1()
    ensures WordBytes(0x8f01cfea) == [0x8f, 0x01, 0xcf, 0xea]
  {
  }

  lemma Bytes2()
    ensures WordBytes(0x414140de) == [0x41, 0x41, 0x40, 0xde]
  {
  }

  lemma Bytes3()
    ensures WordBytes(0x5dae2223) == [0x5d, 0xae, 0x22, 0x23]
  {
  }

  lemma Bytes4()
    ensures WordBytes(0xb00361a3) == [0xb0, 0x03, 0x61, 0xa3]
  {
  }

  lemma Bytes5()
    ensures WordBytes(0x96177a9c) == [0x96, 0x17, 0x7a, 0x9c]
  {
  }

  lemma Bytes6()
    ensures WordBytes(0xb410ff61) == [0xb4, 0x10, 0xff, 0x61]
  {
  }

  lemma Bytes7()
    ensures WordBytes(0xf20015ad) == [0xf2, 0x00, 0x15, 0xad]
  {
  }

  lemma HashIsBytes()
    ensures HashBytes([0xba7816bf, 0x8f01cfea, 0x414140de, 0x5dae2223,
                       0xb00361a3, 0x96177a9c, 0xb410ff61, 0xf20015ad]) ==
            [0xba, 0x78, 0x16, 0xbf, 0x8f, 0x01, 0xcf, 0xea, 0x41, 0x41, 0x40, 0xde, 0x5d, 0xae, 0x22, 0x23,
             0xb0, 0x03, 0x61, 0xa3, 0x96, 0x17, 0x7a, 0x9c, 0xb4, 0x10, 0xff, 0x61, 0xf2, 0x00, 0x15, 0xad]
  {
    hide WordBytes, HashBytes;
    var words: seq<Word> := [0xba7816bf, 0x8f01cfea, 0x414140de, 0x5dae2223,
                       0xb00361a3, 0x96177a9c, 0xb410ff61, 0xf20015ad];
    Bytes0();
    Bytes1();
    Bytes2();
    Bytes3();
    Bytes4();
    Bytes5();
    Bytes6();
    Bytes7();
    NoBytes();
    assert words[..1] == words[..0] + [0xba7816bf];
    HashStep(words[..0], 0xba7816bf);
    assert words[..2] == words[..1] + [0x8f01cfea];
    HashStep(words[..1], 0x8f01cfea);
    assert words[..3] == words[..2] + [0x414140de];
    HashStep(words[..2], 0x414140de);
    assert words[..4] == words[..3] + [0x5dae2223];
    HashStep(words[..3], 0x5dae2223);
    assert words[..5] == words[..4] + [0xb00361a3];
    HashStep(words[..4], 0xb00361a3);
    assert words[..6] == words[..5] + [0x96177a9c];
    HashStep(words[..5], 0x96177a9c);
    assert words[..7] == words[..6] + [0xb410ff61];
    HashStep(words[..6], 0xb410ff61);
    assert words[..8] == words[..7] + [0xf20015ad];
    HashStep(words[..7], 0xf20015ad);
    assert words[..8] == words;
  }

  lemma NoBytes()
    ensures HashBytes([]) == []
  {
  }

  /** SHA-256 of "abc". */
  lemma DigestOfAbc()
    ensures Digest(ABC) ==
            [0xba, 0x78, 0x16, 0xbf, 0x8f, 0x01, 0xcf, 0xea, 0x41, 0x41, 0x40, 0xde, 0x5d, 0xae, 0x22, 0x23,
             0xb0, 0x03, 0x61, 0xa3, 0x96, 0x17, 0x7a, 0x9c, 0xb4, 0x10, 0xff, 0x61, 0xf2, 0x00, 0x15, 0xad]
  {
    hide Compress, Padded, WordBytes;
    var block := Padded(ABC);
    AbcIsPadded();
    AbcIsCompressed(block);
    assert Fold(INITIAL_HASH, block) == Compress(INITIAL_HASH, block) by {
      assert block[..0] == [] && block[0..] == block;
    }
    HashIsBytes();
  }
}
