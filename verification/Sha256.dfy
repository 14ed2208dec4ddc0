/** The streaming SHA-256 hasher, proved to compute the one-shot digest of
    sections 5.1.1, 5.2.1, 5.3.3 and 6.2 of FIPS 180-4 however the message is cut. */
module Sha256 {
  import opened Values
  import opened Bytes
  import opened Crc32

  type Word = bv32

  const BLOCK_BYTES: nat := 64
  const LENGTH_OFFSET: nat := 56

  // ----- section 4.1.2: functions on words -----

  function RotateRight(x: Word, n: Word): Word
    requires 0 < n < 32
  {
    (x >> n) | (x << (32 - n))
  }

  function Choose(x: Word, y: Word, z: Word): Word { (x & y) ^ (!x & z) }

  function Majority(x: Word, y: Word, z: Word): Word { (x & y) ^ (x & z) ^ (y & z) }

  function BigSigma0(x: Word): Word { RotateRight(x, 2) ^ RotateRight(x, 13) ^ RotateRight(x, 22) }

  function BigSigma1(x: Word): Word { RotateRight(x, 6) ^ RotateRight(x, 11) ^ RotateRight(x, 25) }

  function SmallSigma0(x: Word): Word { RotateRight(x, 7) ^ RotateRight(x, 18) ^ (x >> 3) }

  function SmallSigma1(x: Word): Word { RotateRight(x, 17) ^ RotateRight(x, 19) ^ (x >> 10) }

  // ----- section 4.2.2: constants -----

  const ROUND_CONSTANTS: seq<Word> :=
    [0x428a2f98, 0x71374491, 0xb5c0fbcf, 0xe9b5dba5,
     0x3956c25b, 0x59f111f1, 0x923f82a4, 0xab1c5ed5,
     0xd807aa98, 0x12835b01, 0x243185be, 0x550c7dc3,
     0x72be5d74, 0x80deb1fe, 0x9bdc06a7, 0xc19bf174] +
    [0xe49b69c1, 0xefbe4786, 0x0fc19dc6, 0x240ca1cc,
     0x2de92c6f, 0x4a7484aa, 0x5cb0a9dc, 0x76f988da,
     0x983e5152, 0xa831c66d, 0xb00327c8, 0xbf597fc7,
     0xc6e00bf3, 0xd5a79147, 0x06ca6351, 0x14292967] +
    [0x27b70a85, 0x2e1b2138, 0x4d2c6dfc, 0x53380d13,
     0x650a7354, 0x766a0abb, 0x81c2c92e, 0x92722c85,
     0xa2bfe8a1, 0xa81a664b, 0xc24b8b70, 0xc76c51a3,
     0xd192e819, 0xd6990624, 0xf40e3585, 0x106aa070] +
    [0x19a4c116, 0x1e376c08, 0x2748774c, 0x34b0bcb5,
     0x391c0cb3, 0x4ed8aa4a, 0x5b9cca4f, 0x682e6ff3,
     0x748f82ee, 0x78a5636f, 0x84c87814, 0x8cc70208,
     0x90befffa, 0xa4506ceb, 0xbef9a3f7, 0xc67178f2]

  const INITIAL_HASH: seq<Word> := [
    0x6a09e667, 0xbb67ae85, 0x3c6ef372, 0xa54ff53a, 0x510e527f, 0x9b05688c, 0x1f83d9ab, 0x5be0cd19]

  function RoundConstant(t: nat): Word
    requires t < 64
  {
    ROUND_CONSTANTS[t]
  }

  // ----- section 6.2.2: the compression function -----

  function WordOf(b0: byte, b1: byte, b2: byte, b3: byte): Word {
    (ByteWord(b0) << 24) | (ByteWord(b1) << 16) | (ByteWord(b2) << 8) | ByteWord(b3)
  }

  function Schedule(block: seq<byte>, t: nat): Word
    requires |block| == BLOCK_BYTES && t < 64
  {
    if t < 16 then WordOf(block[4 * t], block[4 * t + 1], block[4 * t + 2], block[4 * t + 3])
    else Mixed(Schedule(block, t - 2), Schedule(block, t - 7), Schedule(block, t - 15), Schedule(block, t - 16))
  }

  function Mixed(w2: Word, w7: Word, w15: Word, w16: Word): Word {
    SmallSigma1(w2) + w7 + SmallSigma0(w15) + w16
  }

  datatype Working = Working(a: Word, b: Word, c: Word, d: Word, e: Word, f: Word, g: Word, h: Word)

  function Round(w: Working, k: Word, m: Word): Working {
    var t1 := w.h + BigSigma1(w.e) + Choose(w.e, w.f, w.g) + k + m;
    var t2 := BigSigma0(w.a) + Majority(w.a, w.b, w.c);
    Working(t1 + t2, w.a, w.b, w.c, w.d + t1, w.e, w.f, w.g)
  }

  type Hash = h: seq<Word> | |h| == 8 witness [0, 0, 0, 0, 0, 0, 0, 0]

  function Start(h: Hash): Working {
    Working(h[0], h[1], h[2], h[3], h[4], h[5], h[6], h[7])
  }

  function Rounds(h: Hash, block: seq<byte>, t: nat): Working
    requires |block| == BLOCK_BYTES && t <= 64
  {
    if t == 0 then Start(h) else Round(Rounds(h, block, t - 1), RoundConstant(t - 1), Schedule(block, t - 1))
  }

  function Add(x: Word, y: Word): Word { x + y }

  function Words(w: Working): Hash { [w.a, w.b, w.c, w.d, w.e, w.f, w.g, w.h] }

  function AddWorking(h: Hash, w: Working): Hash {
    seq(8, i requires 0 <= i < 8 => Add(h[i], Words(w)[i]))
  }

  function Compress(h: Hash, block: seq<byte>): Hash
    requires |block| == BLOCK_BYTES
  {
    AddWorking(h, Rounds(h, block, 64))
  }

  // ----- sections 5.1.1 and 5.2.1: padding and parsing -----

  function BigEndian(n: nat, width: nat): (bytes: seq<byte>)
    ensures |bytes| == width
  {
    if width == 0 then [] else BigEndian(n / 256, width - 1) + [n % 256]
  }

  function Zeros(count: nat): (zeros: seq<byte>)
    ensures |zeros| == count
  {
    if count == 0 then [] else Zeros(count - 1) + [0]
  }

  /** The least number of zero bytes that makes room for the length at the end of a block. */
  function ZeroCount(length: nat): nat {
    (119 - length % 64) % 64
  }

  function BitLength(length: nat): nat {
    8 * length % TWO_TO_64
  }

  function Padded(message: seq<byte>): seq<byte> {
    message + [0x80] + Zeros(ZeroCount(|message|)) + BigEndian(BitLength(|message|), 8)
  }

  predicate Whole(length: nat) { length % BLOCK_BYTES == 0 }

  function Fold(h: Hash, message: seq<byte>): Hash
    requires Whole(|message|)
  {
    if message == [] then h
    else
      var n := |message| - BLOCK_BYTES;
      Compress(Fold(h, message[..n]), message[n..])
  }

  function Octet(w: Word, shift: nat): byte
    requires shift <= 24
  {
    (((w >> shift) & 0xFF) as bv8) as int
  }

  function WordBytes(w: Word): (bytes: seq<byte>)
    ensures |bytes| == 4
  {
    [Octet(w, 24), Octet(w, 16), Octet(w, 8), Octet(w, 0)]
  }

  function HashBytes(h: seq<Word>): (bytes: seq<byte>)
    ensures |bytes| == 4 * |h|
  {
    if h == [] then [] else HashBytes(h[..|h| - 1]) + WordBytes(h[|h| - 1])
  }

  lemma PaddingFillsBlock(length: nat)
    ensures (length + 1 + ZeroCount(length)) % 64 == LENGTH_OFFSET
    ensures (length + 1 + ZeroCount(length) + 8) % 64 == 0
  {
    var blocks, rest := length / 64, length % 64;
    assert ZeroCount(length) == if rest <= 55 then 55 - rest else 119 - rest;
    var whole := if rest <= 55 then blocks else blocks + 1;
    assert length + 1 + ZeroCount(length) == 64 * whole + 56;
    assert length + 1 + ZeroCount(length) + 8 == 64 * (whole + 1);
  }

  lemma PaddedIsWhole(message: seq<byte>)
    ensures |Padded(message)| == |message| + 1 + ZeroCount(|message|) + 8
    ensures Whole(|Padded(message)|)
  {
    hide Zeros, BigEndian, BitLength, ZeroCount;
    PaddingFillsBlock(|message|);
  }

  /** The digest of a whole message. */
  function Digest(message: seq<byte>): (digest: seq<byte>)
    ensures |digest| == 32
  {
    PaddedIsWhole(message);
    HashBytes(Fold(INITIAL_HASH, Padded(message)))
  }

  // ----- padding is unambiguous -----

  lemma {:induction false} BigEndianIsInjective(m: nat, n: nat, width: nat)
    requires m < Power256(width) && n < Power256(width) && BigEndian(m, width) == BigEndian(n, width)
    ensures m == n
  {
    if width > 0 {
      var x, y := BigEndian(m, width), BigEndian(n, width);
      assert x[..width - 1] == BigEndian(m / 256, width - 1) && y[..width - 1] == BigEndian(n / 256, width - 1);
      assert x[width - 1] == y[width - 1];
      BigEndianIsInjective(m / 256, n / 256, width - 1);
    }
  }

  lemma LengthFits(length: nat)
    requires 8 * length < TWO_TO_64
    ensures BitLength(length) == 8 * length && BitLength(length) < Power256(8)
  {
  }

  lemma PaddedParts(message: seq<byte>)
    ensures Padded(message)[..|message|] == message
    ensures Padded(message)[|Padded(message)| - 8..] == BigEndian(BitLength(|message|), 8)
  {
  }

  /** Different messages, within the length the standard allows, never pad to the same blocks. */
  lemma PaddingIsInjective(a: seq<byte>, b: seq<byte>)
    requires 8 * |a| < TWO_TO_64 && 8 * |b| < TWO_TO_64 && Padded(a) == Padded(b)
    ensures a == b
  {
    hide Padded, BigEndian, BitLength, Power256;
    PaddedParts(a);
    PaddedParts(b);
    LengthFits(|a|);
    LengthFits(|b|);
    BigEndianIsInjective(BitLength(|a|), BitLength(|b|), 8);
  }

  // ----- the streaming hasher -----

  lemma FoldBlock(h: Hash, whole: seq<byte>, block: seq<byte>)
    requires Whole(|whole|) && |block| == BLOCK_BYTES
    ensures Whole(|whole + block|)
    ensures Fold(h, whole + block) == Compress(Fold(h, whole), block)
  {
  }

  lemma RemainderIs(length: nat, rest: nat)
    requires rest < BLOCK_BYTES && rest <= length && Whole(length - rest)
    ensures rest == length % BLOCK_BYTES
  {
  }

  lemma WrappedLength(length: nat, wrapped: nat)
    requires wrapped == length % TWO_TO_64
    ensures wrapped * 8 % TWO_TO_64 == BitLength(length)
  {
  }

  /** The length field, one byte at a time from the high end. */
  method LengthBytes(bits: nat) returns (bytes: seq<byte>)
    ensures bytes == BigEndian(bits, 8)
  {
    bytes := [];
    var rest := bits;
    for index := 0 to 8
      invariant BigEndian(bits, 8) == BigEndian(rest, 8 - index) + bytes
    {
      bytes := [rest % 256] + bytes;
      rest := rest / 256;
    }
  }

  class Hasher {
    const state: array<Word>
    const buffer: array<byte>
    var buffered: nat
    var total: nat
    var finished: bool
    /** The message given so far, and everything absorbed, the padding included. */
    ghost var message: seq<byte>
    ghost var absorbed: seq<byte>

    ghost predicate Holds(bytes: seq<byte>)
      reads `buffered, state, buffer
    {
      && state.Length == 8 && buffer.Length == BLOCK_BYTES && buffered < BLOCK_BYTES
      && |bytes| >= buffered && Whole(|bytes| - buffered)
      && state[..] == Fold(INITIAL_HASH, bytes[..|bytes| - buffered])
      && buffer[..buffered] == bytes[|bytes| - buffered..]
    }

    ghost predicate Valid()
      reads this, state, buffer
    {
      && Holds(absorbed)
      && (!finished ==> message == absorbed && total == |absorbed| % TWO_TO_64)
      && (finished ==> absorbed == Padded(message))
    }

    constructor ()
      ensures Valid() && !finished && message == [] && fresh(state) && fresh(buffer)
    {
      state := new Word[8](i requires 0 <= i < 8 => INITIAL_HASH[i]);
      buffer := new byte[BLOCK_BYTES](i => 0);
      buffered, total, finished, message, absorbed := 0, 0, false, [], [];
      new;
      assert state[..] == INITIAL_HASH;
    }

    /** Transform: the compression function over the full buffer. */
    method Transform()
      requires state.Length == 8 && buffer.Length == BLOCK_BYTES
      modifies state
      ensures state[..] == Compress(old(state[..]), buffer[..])
    {
      hide WordOf, Mixed, Round, RoundConstant, Add;
      var schedule := new Word[64];
      ghost var block := buffer[..];
      for index := 0 to 16
        invariant state[..] == old(state[..]) && buffer[..] == block
        invariant forall t :: 0 <= t < index ==> schedule[t] == Schedule(block, t)
      {
        schedule[index] := WordOf(buffer[4 * index], buffer[4 * index + 1], buffer[4 * index + 2],
                                  buffer[4 * index + 3]);
      }
      for index := 16 to 64
        invariant state[..] == old(state[..]) && buffer[..] == block
        invariant forall t :: 0 <= t < index ==> schedule[t] == Schedule(block, t)
      {
        schedule[index] := Mixed(schedule[index - 2], schedule[index - 7], schedule[index - 15], schedule[index - 16]);
      }
      ghost var before := state[..];
      var w := Working(state[0], state[1], state[2], state[3], state[4], state[5], state[6], state[7]);
      for index := 0 to 64
        invariant state[..] == before && buffer[..] == block
        invariant w == Rounds(before, block, index)
      {
        w := Round(w, RoundConstant(index), schedule[index]);
      }
      AddToState(w);
    }

    method AddToState(w: Working)
      requires state.Length == 8
      modifies state
      ensures state[..] == AddWorking(old(state[..]), w)
    {
      hide Add, Words;
      var words := Words(w);
      for i := 0 to 8
        invariant forall k :: 0 <= k < i ==> state[k] == Add(old(state[k]), words[k])
        invariant forall k :: i <= k < 8 ==> state[k] == old(state[k])
      {
        state[i] := Add(state[i], words[i]);
      }
    }

    /** Copies what fits into the buffer and compresses the buffer when it is full. */
    method Fill(piece: seq<byte>)
      requires Holds(absorbed) && 0 < |piece| <= BLOCK_BYTES - buffered
      modifies this`buffered, this`absorbed, state, buffer
      ensures absorbed == old(absorbed) + piece && Holds(absorbed)
    {
      hide Fold, Compress, Add, Whole;
      ghost var whole := absorbed[..|absorbed| - buffered];
      for k := 0 to |piece|
        invariant state[..] == old(state[..]) && absorbed == old(absorbed) && buffered == old(buffered)
        invariant buffer[..buffered + k] == old(buffer[..buffered]) + piece[..k]
      {
        buffer[buffered + k] := piece[k];
      }
      assert old(absorbed) == whole + old(buffer[..buffered]);
      buffered := buffered + |piece|;
      absorbed := absorbed + piece;
      assert absorbed == whole + buffer[..buffered];
      assert Whole(|whole|) && state[..] == Fold(INITIAL_HASH, whole);
      if buffered == BLOCK_BYTES {
        Flush(whole);
      } else {
        assert absorbed[..|absorbed| - buffered] == whole;
      }
    }

    method Flush(ghost whole: seq<byte>)
      requires state.Length == 8 && buffer.Length == BLOCK_BYTES && buffered == BLOCK_BYTES
      requires Whole(|whole|) && state[..] == Fold(INITIAL_HASH, whole) && absorbed == whole + buffer[..]
      modifies this`buffered, state
      ensures Holds(absorbed)
    {
      hide Fold, Compress, Add, Whole;
      FoldBlock(INITIAL_HASH, whole, buffer[..]);
      Transform();
      buffered := 0;
      assert absorbed[..|absorbed| - buffered] == absorbed;
    }

    method Update(data: seq<byte>)
      requires Valid()
      modifies this`buffered, this`total, this`message, this`absorbed, state, buffer
      ensures Valid()
      ensures finished ==> message == old(message)
      ensures !finished ==> message == old(message) + data
    {
      hide Holds;
      if finished {
        return;
      }
      total := (total + |data|) % TWO_TO_64;
      var offset := 0;
      message := message + data;
      while offset < |data|
        invariant offset <= |data| && Holds(absorbed) && absorbed == old(absorbed) + data[..offset]
        invariant message == old(message) + data && total == (old(total) + |data|) % TWO_TO_64
      {
        assert buffered < BLOCK_BYTES by {
          SpaceLeft();
        }
        var space := BLOCK_BYTES - buffered;
        var take := if |data| - offset < space then |data| - offset else space;
        assert data[..offset] + data[offset..offset + take] == data[..offset + take];
        Fill(data[offset..offset + take]);
        offset := offset + take;
      }
      assert data[..offset] == data;
      LengthGrows(|old(absorbed)|, |data|);
    }

    lemma SpaceLeft()
      requires Holds(absorbed)
      ensures buffered < BLOCK_BYTES && buffered == |absorbed| % BLOCK_BYTES
    {
      hide Fold;
      RemainderIs(|absorbed|, buffered);
    }

    lemma LengthGrows(a: nat, b: nat)
      ensures (a % TWO_TO_64 + b) % TWO_TO_64 == (a + b) % TWO_TO_64
    {
    }

    /** Pads the message and gives its digest; asking again gives the same digest. */
    method Finish() returns (digest: seq<byte>)
      requires Valid()
      modifies this, state, buffer
      ensures Valid() && finished && message == old(message)
      ensures digest == Digest(message)
    {
      hide Holds, Fold, Zeros, BigEndian, BitLength, ZeroCount, HashBytes;
      if !finished {
        ghost var content := message;
        var bits := total * 8 % TWO_TO_64;
        WrappedLength(|content|, total);
        Update([0x80]);
        PadWithZeros(content);
        var length := LengthBytes(bits);
        Update(length);
        finished := true;
        message := content;
      }
      PaddedIsWhole(message);
      assert buffered == 0 && state[..] == Fold(INITIAL_HASH, absorbed) by {
        SpaceLeft();
        NothingBuffered();
      }
      digest := DigestBytes();
    }

    lemma NothingBuffered()
      requires Holds(absorbed) && Whole(|absorbed|)
      ensures buffered == 0 && state[..] == Fold(INITIAL_HASH, absorbed)
    {
      hide Fold;
      RemainderIs(|absorbed|, buffered);
      assert absorbed[..|absorbed| - 0] == absorbed;
    }

    /** Zero bytes until the block has room for nothing but the length. */
    method PadWithZeros(ghost content: seq<byte>)
      requires Valid() && !finished && message == content + [0x80]
      modifies this`buffered, this`total, this`message, this`absorbed, state, buffer
      ensures Valid()
      ensures message == content + [0x80] + Zeros(ZeroCount(|content|))
    {
      hide Holds;
      ghost var count := 0;
      while buffered != LENGTH_OFFSET
        invariant Valid() && count <= ZeroCount(|content|)
        invariant message == content + [0x80] + Zeros(count)
        decreases ZeroCount(|content|) - count
      {
        SpaceLeft();
        ZerosLeft(|content|, count, buffered);
        Update([0]);
        assert Zeros(count + 1) == Zeros(count) + [0];
        count := count + 1;
      }
      SpaceLeft();
      ZerosLeft(|content|, count, buffered);
    }

    lemma ZerosLeft(length: nat, count: nat, filled: nat)
      requires count <= ZeroCount(length) && filled == (length + 1 + count) % BLOCK_BYTES
      ensures filled == LENGTH_OFFSET <==> count == ZeroCount(length)
    {
    }

    /** The state as bytes, the high byte of each word first. */
    method DigestBytes() returns (digest: seq<byte>)
      requires state.Length == 8
      ensures digest == HashBytes(state[..])
    {
      hide WordBytes;
      digest := [];
      for k := 0 to 8
        invariant digest == HashBytes(state[..k])
      {
        assert state[..k + 1][..k] == state[..k];
        digest := digest + WordBytes(state[k]);
      }
      assert state[..8] == state[..];
    }
  }

  function Concatenation(parts: seq<seq<byte>>): seq<byte> {
    if parts == [] then [] else Concatenation(parts[..|parts| - 1]) + parts[|parts| - 1]
  }

  /** However a message is cut into updates, the digest is the one-shot digest of the message. */
  method DigestInParts(parts: seq<seq<byte>>) returns (digest: seq<byte>)
    ensures digest == Digest(Concatenation(parts))
  {
    var hasher := new Hasher();
    for k := 0 to |parts|
      invariant fresh(hasher.state) && fresh(hasher.buffer) && hasher.Valid() && !hasher.finished
      invariant hasher.message == Concatenation(parts[..k])
    {
      assert parts[..k + 1][..k] == parts[..k];
      hasher.Update(parts[k]);
    }
    assert parts[..|parts|] == parts;
    digest := hasher.Finish();
  }

  method ComputeDigest(data: seq<byte>) returns (digest: seq<byte>)
    ensures digest == Digest(data)
  {
    var hasher := new Hasher();
    hasher.Update(data);
    assert [] + data == data;
    digest := hasher.Finish();
  }
}
