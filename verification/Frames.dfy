/** Wire frames: a 24 byte header, a bounded payload and a CRC-32 trailer over
    both. Decoding accepts exactly what encoding produces. */
module Frames {
  import opened Values
  import opened Bytes
  import opened Crc32

  const MAGIC: seq<byte> := [0x46, 0x43, 0x52, 0x46]
  const PROTOCOL_VERSION: nat := 1
  const HEADER_BYTES: nat := 24
  const MAX_FRAME_BYTES: nat := 0x10_0000

  datatype MessageType =
    | Hello | HelloAck | Publish | PublishAck | Fence | FenceAck | Status | StatusAck | Goodbye | ErrorResponse

  /** The wire code of a message type is its index. */
  const MESSAGE_TYPES: seq<MessageType> := [
    Hello, HelloAck, Publish, PublishAck, Fence, FenceAck, Status, StatusAck, Goodbye, ErrorResponse]

  datatype Frame = Frame(kind: MessageType, flags: nat, requestId: nat, payload: seq<byte>) {
    /** The field widths; the payload bound is checked by the encoder. */
    predicate Fits() {
      flags < 0x1_0000_0000 && requestId < TWO_TO_64
    }
  }

  method WireCodeOf(kind: MessageType) returns (code: nat)
    ensures code == CodeOf(kind)
  {
    code := 0;
    while MESSAGE_TYPES[code] != kind
      invariant code <= CodeOf(kind)
      decreases CodeOf(kind) - code
    {
      CodesAreUnique(code, kind);
      code := code + 1;
    }
    CodesAreUnique(code, kind);
  }

  function CodeOf(kind: MessageType): (code: nat)
    ensures code < |MESSAGE_TYPES| && MESSAGE_TYPES[code] == kind
  {
    match kind
    case Hello => 0
    case HelloAck => 1
    case Publish => 2
    case PublishAck => 3
    case Fence => 4
    case FenceAck => 5
    case Status => 6
    case StatusAck => 7
    case Goodbye => 8
    case ErrorResponse => 9
  }

  lemma CodesAreUnique(code: nat, kind: MessageType)
    requires code < |MESSAGE_TYPES|
    ensures MESSAGE_TYPES[code] == kind <==> code == CodeOf(kind)
  {
  }

  // ----- specification of encoding and decoding -----

  function Header(frame: Frame): (header: seq<byte>)
    ensures |header| == HEADER_BYTES
  {
    MAGIC + LittleEndian(PROTOCOL_VERSION, 2) + LittleEndian(CodeOf(frame.kind), 2) + LittleEndian(frame.flags, 4)
    + LittleEndian(frame.requestId, 8) + LittleEndian(|frame.payload|, 4)
  }

  function Body(frame: Frame): seq<byte> { Header(frame) + frame.payload }

  function Encode(frame: Frame): Result<seq<byte>> {
    if |frame.payload| > MAX_FRAME_BYTES then Err(FrameTooLarge)
    else Ok(Body(frame) + LittleEndian(Check(Body(frame)), 4))
  }

  /** The checks of the decoder, in its order. */
  function Decode(bytes: seq<byte>): Result<Frame> {
    if |bytes| < HEADER_BYTES then Err(FrameMalformed)
    else if bytes[..4] != MAGIC then Err(FrameMalformed)
    else if NumberFrom(bytes, 4, 2) != PROTOCOL_VERSION then Err(FrameVersionUnsupported)
    else if NumberFrom(bytes, 6, 2) >= |MESSAGE_TYPES| then Err(FrameTypeUnknown)
    else
      var length := NumberFrom(bytes, 20, 4);
      if length > MAX_FRAME_BYTES then Err(FrameTooLarge)
      else if |bytes| < HEADER_BYTES + length + 4 then Err(FrameMalformed)
      else if |bytes| != HEADER_BYTES + length + 4 then Err(FrameTrailingBytes)
      else if NumberFrom(bytes, HEADER_BYTES + length, 4) != Check(bytes[..HEADER_BYTES + length]) then
        Err(FrameIntegrityFailure)
      else
        Ok(Frame(MESSAGE_TYPES[NumberFrom(bytes, 6, 2)], NumberFrom(bytes, 8, 4), NumberFrom(bytes, 12, 8),
                 bytes[HEADER_BYTES..HEADER_BYTES + length]))
  }

  // ----- decoding inverts encoding, and accepts nothing else -----

  lemma HeaderFields(frame: Frame, bytes: seq<byte>)
    requires frame.Fits() && |frame.payload| <= MAX_FRAME_BYTES
    requires |bytes| >= HEADER_BYTES && bytes[..HEADER_BYTES] == Header(frame)
    ensures bytes[..4] == MAGIC
    ensures NumberFrom(bytes, 4, 2) == PROTOCOL_VERSION && NumberFrom(bytes, 6, 2) == CodeOf(frame.kind)
    ensures NumberFrom(bytes, 8, 4) == frame.flags && NumberFrom(bytes, 12, 8) == frame.requestId
    ensures NumberFrom(bytes, 20, 4) == |frame.payload|
  {
    hide LittleEndian, CodeOf;
    Powers();
    var rest := bytes[HEADER_BYTES..];
    var version, code := LittleEndian(PROTOCOL_VERSION, 2), LittleEndian(CodeOf(frame.kind), 2);
    var flags, id := LittleEndian(frame.flags, 4), LittleEndian(frame.requestId, 8);
    var length := LittleEndian(|frame.payload|, 4);
    assert bytes == MAGIC + version + code + flags + id + length + rest;
    assert bytes == MAGIC + version + (code + flags + id + length + rest);
    assert bytes == (MAGIC + version) + code + (flags + id + length + rest);
    assert bytes == (MAGIC + version + code) + flags + (id + length + rest);
    assert bytes == (MAGIC + version + code + flags) + id + (length + rest);
    NumberAt(bytes, MAGIC, PROTOCOL_VERSION, 2, code + flags + id + length + rest);
    NumberAt(bytes, MAGIC + version, CodeOf(frame.kind), 2, flags + id + length + rest);
    NumberAt(bytes, MAGIC + version + code, frame.flags, 4, id + length + rest);
    NumberAt(bytes, MAGIC + version + code + flags, frame.requestId, 8, length + rest);
    NumberAt(bytes, MAGIC + version + code + flags + id, |frame.payload|, 4, rest);
  }

  /** Decoding inverts encoding. */
  lemma DecodeInvertsEncode(frame: Frame)
    requires frame.Fits() && Encode(frame).Ok?
    ensures Decode(Encode(frame).value) == Ok(frame)
  {
    hide LittleEndian, Check, NumberFrom, Header, CodeOf;
    var bytes, length := Encode(frame).value, |frame.payload|;
    var check := Check(Body(frame));
    assert bytes[..HEADER_BYTES] == Header(frame) && bytes[..HEADER_BYTES + length] == Body(frame);
    HeaderFields(frame, bytes);
    NumberAt(bytes, Body(frame), check, 4, []) by {
      assert bytes == Body(frame) + LittleEndian(check, 4) + [];
    }
    assert bytes[HEADER_BYTES..HEADER_BYTES + length] == frame.payload;
  }

  lemma HeaderOf(bytes: seq<byte>, frame: Frame)
    requires Decode(bytes) == Ok(frame)
    ensures frame.Fits() && |frame.payload| <= MAX_FRAME_BYTES && bytes[..HEADER_BYTES] == Header(frame)
  {
    hide LittleEndian, Check, CodeOf;
    Powers();
    NumberIsWritten(bytes, 4, 2);
    NumberIsWritten(bytes, 6, 2);
    NumberIsWritten(bytes, 8, 4);
    NumberIsWritten(bytes, 12, 8);
    NumberIsWritten(bytes, 20, 4);
    CodesAreUnique(NumberFrom(bytes, 6, 2), frame.kind);
    assert bytes[..HEADER_BYTES] == bytes[..4] + bytes[4..6] + bytes[6..8] + bytes[8..12] + bytes[12..20]
           + bytes[20..24];
  }

  /** Whatever is decoded is the encoding of the frame it is decoded to. */
  lemma DecodeAcceptsOnlyEncodings(bytes: seq<byte>, frame: Frame)
    requires Decode(bytes) == Ok(frame)
    ensures frame.Fits() && Encode(frame) == Ok(bytes)
  {
    hide LittleEndian, Check, Header;
    HeaderOf(bytes, frame);
    var end := HEADER_BYTES + |frame.payload|;
    NumberIsWritten(bytes, end, 4);
    assert bytes[..end] == bytes[..HEADER_BYTES] + bytes[HEADER_BYTES..end];
    assert bytes == bytes[..end] + bytes[end..end + 4];
  }

  /** The decoder accepts exactly the image of the encoder. */
  lemma DecodeAcceptsExactlyEncodings(bytes: seq<byte>)
    ensures Decode(bytes).Ok? <==> exists frame: Frame :: frame.Fits() && Encode(frame) == Ok(bytes)
  {
    if Decode(bytes).Ok? {
      DecodeAcceptsOnlyEncodings(bytes, Decode(bytes).value);
    }
    if frame: Frame :| frame.Fits() && Encode(frame) == Ok(bytes) {
      DecodeInvertsEncode(frame);
    }
  }

  // ----- a damaged byte is always noticed -----

  lemma Split(bytes: seq<byte>, frame: Frame)
    requires Decode(bytes) == Ok(frame)
    ensures |bytes| >= 4
    ensures bytes == bytes[..|bytes| - 4] + LittleEndian(Check(bytes[..|bytes| - 4]), 4)
  {
    DecodeAcceptsOnlyEncodings(bytes, frame);
    hide LittleEndian, Check, Header;
    assert bytes[..|bytes| - 4] == Body(frame);
  }

  /** Two accepted byte strings that agree everywhere but at one place agree there too. */
  lemma AcceptedNeighboursAgree(a: seq<byte>, b: seq<byte>, i: nat)
    requires Decode(a).Ok? && Decode(b).Ok? && |a| == |b| && i < |a|
    requires forall j :: 0 <= j < |a| && j != i ==> a[j] == b[j]
    ensures a == b
  {
    hide Decode, Check, LittleEndian;
    Split(a, Decode(a).value);
    Split(b, Decode(b).value);
    var n := |a| - 4;
    var x, y := Check(a[..n]), Check(b[..n]);
    assert a[n..] == LittleEndian(x, 4) && b[n..] == LittleEndian(y, 4);
    if i < n {
      assert a[n..] == b[n..];
      LittleEndianRoundTrip(x, 4);
      LittleEndianRoundTrip(y, 4);
      if a[i] != b[i] {
        OneByteChangesCheck(a[..n], b[..n], i);
      }
    } else {
      assert a[..n] == b[..n];
    }
  }

  /** No byte string that differs from a valid frame in exactly one byte is accepted. */
  lemma OneDamagedByteIsRejected(bytes: seq<byte>, damaged: seq<byte>, i: nat)
    requires Decode(bytes).Ok? && |damaged| == |bytes| && i < |bytes| && damaged[i] != bytes[i]
    requires forall j :: 0 <= j < |bytes| && j != i ==> damaged[j] == bytes[j]
    ensures Decode(damaged).Err?
  {
    hide Decode;
    if Decode(damaged).Ok? {
      AcceptedNeighboursAgree(bytes, damaged, i);
    }
  }

  // ----- the encoder and the decoder -----

  method EncodeFrame(frame: Frame) returns (encoded: Result<seq<byte>>)
    requires frame.Fits()
    ensures encoded == Encode(frame)
  {
    hide LittleEndian, Header, Check;
    if |frame.payload| > MAX_FRAME_BYTES {
      return Err(FrameTooLarge);
    }
    var writer := new ByteWriter();
    WriteHeader(frame, writer);
    assert writer.out == Header(frame);
    var check := CheckOfTwo(writer.out, frame.payload);
    writer.out := writer.out + frame.payload;
    writer.Unsigned(check, 4);
    return Ok(writer.out);
  }

  method WriteHeader(frame: Frame, writer: ByteWriter)
    modifies writer
    ensures writer.out == old(writer.out) + Header(frame)
  {
    hide LittleEndian, CodeOf;
    var code := WireCodeOf(frame.kind);
    writer.out := writer.out + MAGIC;
    writer.Unsigned(PROTOCOL_VERSION, 2);
    writer.Unsigned(code, 2);
    writer.Unsigned(frame.flags, 4);
    writer.Unsigned(frame.requestId, 8);
    writer.Unsigned(|frame.payload|, 4);
  }

  lemma ReaderAt(bytes: seq<byte>, from: nat, to: nat, left: seq<byte>, width: nat)
    requires from <= to <= |bytes| && left == bytes[from..to] && from + width <= to
    ensures ReadUnsigned(left, width) == Parsed(NumberFrom(bytes, from, width), bytes[from + width..to])
  {
    assert left[..width] == bytes[from..from + width] && left[width..] == bytes[from + width..to];
  }

  method ReadHeader(bytes: seq<byte>)
    returns (version: nat, code: nat, flags: nat, requestId: nat, length: nat)
    requires |bytes| >= HEADER_BYTES
    ensures version == NumberFrom(bytes, 4, 2) && code == NumberFrom(bytes, 6, 2) && flags == NumberFrom(bytes, 8, 4)
    ensures requestId == NumberFrom(bytes, 12, 8) && length == NumberFrom(bytes, 20, 4)
  {
    hide FromLittleEndian, NumberFrom, ReadUnsigned;
    var header := new ByteReader(bytes[4..HEADER_BYTES]);
    ReaderAt(bytes, 4, HEADER_BYTES, header.Left(), 2);
    var first := header.Unsigned(2);
    ReaderAt(bytes, 6, HEADER_BYTES, header.Left(), 2);
    var second := header.Unsigned(2);
    ReaderAt(bytes, 8, HEADER_BYTES, header.Left(), 4);
    var third := header.Unsigned(4);
    ReaderAt(bytes, 12, HEADER_BYTES, header.Left(), 8);
    var fourth := header.Unsigned(8);
    ReaderAt(bytes, 20, HEADER_BYTES, header.Left(), 4);
    var fifth := header.Unsigned(4);
    version, code, flags, requestId, length := first.value, second.value, third.value, fourth.value, fifth.value;
  }

  method DecodeFrame(bytes: seq<byte>) returns (decoded: Result<Frame>)
    ensures decoded == Decode(bytes)
  {
    hide Check, NumberFrom;
    if |bytes| < HEADER_BYTES {
      return Err(FrameMalformed);
    }
    if bytes[..4] != MAGIC {
      return Err(FrameMalformed);
    }
    var version, code, flags, requestId, length := ReadHeader(bytes);
    if version != PROTOCOL_VERSION {
      return Err(FrameVersionUnsupported);
    }
    if code >= |MESSAGE_TYPES| {
      return Err(FrameTypeUnknown);
    }
    if length > MAX_FRAME_BYTES {
      return Err(FrameTooLarge);
    }
    var end := HEADER_BYTES + length;
    if |bytes| < end + 4 {
      return Err(FrameMalformed);
    }
    if |bytes| != end + 4 {
      return Err(FrameTrailingBytes);
    }
    var payload := bytes[HEADER_BYTES..end];
    var trailer := new ByteReader(bytes[end..]);
    ReaderAt(bytes, end, |bytes|, trailer.Left(), 4);
    var crc := trailer.Unsigned(4);
    var computed := CheckOfTwo(bytes[..HEADER_BYTES], payload);
    assert bytes[..end] == bytes[..HEADER_BYTES] + payload;
    if crc.value != computed {
      return Err(FrameIntegrityFailure);
    }
    return Ok(Frame(MESSAGE_TYPES[code], flags, requestId, payload));
  }
}
