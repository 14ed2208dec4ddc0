/** Known encodings, byte by byte: one value of every kind, a frame, and the headers and small records
    of a store. They fix the tags, the widths, the order of the fields and of their bytes. */
module KnownEncodings {
  import opened Values
  import opened Bytes
  import opened ValueCodec
  import opened StoreRows
  import opened StorePayload
  import Frames
  import StoreFile
  import Crc32
  import Sha256

  lemma One(a: byte)
    ensures LittleEndian(a, 1) == [a]
  {
  }

  lemma Two(a: byte, b: byte)
    ensures LittleEndian(a + 256 * b, 2) == [a, b]
  {
    LowByte(a, b, 2);
    One(b);
  }

  lemma LowByte(a: byte, b: byte, width: nat)
    requires width > 0
    ensures LittleEndian(a + 256 * b, width) == [a] + LittleEndian(b, width - 1)
  {
    assert (a + 256 * b) % 256 == a && (a + 256 * b) / 256 == b;
  }

  /** Numbers below two to the sixteenth, in four bytes and in eight. */
  lemma Wide(a: byte, b: byte)
    ensures LittleEndian(a + 256 * b, 4) == [a, b, 0, 0]
    ensures LittleEndian(a + 256 * b, 8) == [a, b, 0, 0, 0, 0, 0, 0]
  {
    hide LittleEndian;
    LowByte(a, b, 4);
    LowByte(a, b, 8);
    LowByte(b, 0, 3);
    LowByte(b, 0, 7);
    NoByte();
    LowByte(0, 0, 1);
    LowByte(0, 0, 2);
    LowByte(0, 0, 3);
    LowByte(0, 0, 4);
    LowByte(0, 0, 5);
    LowByte(0, 0, 6);
  }

  lemma NoByte()
    ensures LittleEndian(0, 0) == []
  {
  }

  lemma MinusOne()
    ensures WriteSigned(-1) == [0xFF, 0xFF, 0xFF, 0xFF, 0xFF, 0xFF, 0xFF, 0xFF]
  {
    hide LittleEndian;
    assert FromLittleEndian([0xFF, 0xFF, 0xFF, 0xFF, 0xFF, 0xFF, 0xFF, 0xFF]) == TWO_TO_64 - 1;
    FromLittleEndianRoundTrip([0xFF, 0xFF, 0xFF, 0xFF, 0xFF, 0xFF, 0xFF, 0xFF]);
  }

  lemma MinusTwo()
    ensures WriteSigned(-2) == [0xFE, 0xFF, 0xFF, 0xFF, 0xFF, 0xFF, 0xFF, 0xFF]
  {
    hide LittleEndian;
    assert FromLittleEndian([0xFE, 0xFF, 0xFF, 0xFF, 0xFF, 0xFF, 0xFF, 0xFF]) == TWO_TO_64 - 2;
    FromLittleEndianRoundTrip([0xFE, 0xFF, 0xFF, 0xFF, 0xFF, 0xFF, 0xFF, 0xFF]);
  }

  lemma NoItems<T>(write: T -> seq<byte>)
    ensures WriteList(write, []) == []
  {
  }

  lemma OneItem<T>(write: T -> seq<byte>, a: T)
    ensures WriteList(write, [a]) == write(a)
  {
    assert [a][..0] == [];
  }

  lemma TwoItems<T>(write: T -> seq<byte>, a: T, b: T)
    ensures WriteList(write, [a, b]) == write(a) + write(b)
  {
    assert [a, b][..1] == [a];
    OneItem(write, a);
  }

  lemma KnownMember()
    ensures WriteTuple([Signed(-1), Enumeration([0x62], 6)]) ==
            [0x02, 0x00, 0x00, 0x00, 0x01, 0xFF, 0xFF, 0xFF, 0xFF, 0xFF, 0xFF, 0xFF, 0xFF, 0x03, 0x01, 0x00,
             0x00, 0x00, 0x62, 0x06, 0x00, 0x00, 0x00]
  {
    hide LittleEndian, WriteList, WriteSigned;
    One(1);
    One(3);
    Wide(2, 0);
    Wide(1, 0);
    Wide(6, 0);
    MinusOne();
    TwoItems(WriteScalar, Signed(-1), Enumeration([0x62], 6));
  }

  lemma KnownAbsent()
    ensures WriteValue(Absent) ==
            [0x00]
  {
    hide LittleEndian, WriteList, WriteSigned, WriteBool, WriteString, WriteCounted, WriteTuple, WriteField,
      WriteScalar, WriteVersion;
    One(0);
  }

  lemma KnownBoolean()
    ensures WriteValue(BooleanValue(true)) ==
            [0x01, 0x01]
  {
    hide LittleEndian, WriteList, WriteSigned, WriteString, WriteCounted, WriteTuple, WriteField, WriteScalar,
      WriteVersion;
    One(1);
  }

  lemma KnownInteger()
    ensures WriteValue(IntegerValue(-2)) ==
            [0x02, 0xFE, 0xFF, 0xFF, 0xFF, 0xFF, 0xFF, 0xFF, 0xFF]
  {
    hide LittleEndian, WriteList, WriteSigned, WriteBool, WriteString, WriteCounted, WriteTuple, WriteField,
      WriteScalar, WriteVersion;
    One(2);
    MinusTwo();
  }

  lemma KnownQuantity()
    ensures WriteValue(QuantityValue(0x0102, 3)) ==
            [0x03, 0x02, 0x01, 0x00, 0x00, 0x00, 0x00, 0x00, 0x00, 0x03]
  {
    hide LittleEndian, WriteList, WriteSigned, WriteBool, WriteString, WriteCounted, WriteTuple, WriteField,
      WriteScalar, WriteVersion;
    One(3);
    Wide(2, 1);
  }

  lemma KnownEnumeration()
    ensures WriteValue(EnumerationValue([0x61], 5)) ==
            [0x04, 0x01, 0x00, 0x00, 0x00, 0x61, 0x05, 0x00, 0x00, 0x00]
  {
    hide LittleEndian, WriteList, WriteSigned, WriteBool, WriteCounted, WriteTuple, WriteField, WriteScalar,
      WriteVersion;
    One(4);
    Wide(1, 0);
    Wide(5, 0);
  }

  lemma KnownBitSet()
    ensures WriteValue(BitSetValue(3, [5])) ==
            [0x05, 0x03, 0x00, 0x00, 0x00, 0x01, 0x00, 0x00, 0x00, 0x05, 0x00, 0x00, 0x00, 0x00, 0x00, 0x00,
             0x00]
  {
    hide LittleEndian, WriteList, WriteSigned, WriteBool, WriteString, WriteTuple, WriteField, WriteScalar,
      WriteVersion;
    One(5);
    Wide(3, 0);
    Wide(1, 0);
    Wide(5, 0);
    OneItem(WriteU64, 5);
  }

  lemma KnownNumbers()
    ensures WriteCounted(WriteU64, [7, 9]) ==
            [0x02, 0x00, 0x00, 0x00] + ([0x07, 0x00, 0x00, 0x00, 0x00, 0x00, 0x00, 0x00] +
                                        [0x09, 0x00, 0x00, 0x00, 0x00, 0x00, 0x00, 0x00])
  {
    hide LittleEndian, WriteList;
    Wide(2, 0);
    Wide(7, 0);
    Wide(9, 0);
    TwoItems(WriteU64, 7, 9);
  }

  lemma KnownNumericSet()
    ensures WriteValue(NumericSetValue(2, [7, 9])) ==
            [0x06] + ([0x02] + ([0x02, 0x00, 0x00, 0x00] +
                                ([0x07, 0x00, 0x00, 0x00, 0x00, 0x00, 0x00, 0x00] +
                                 [0x09, 0x00, 0x00, 0x00, 0x00, 0x00, 0x00, 0x00])))
  {
    hide LittleEndian, WriteCounted;
    One(6);
    One(2);
    KnownNumbers();
  }

  lemma KnownNumericRange()
    ensures WriteValue(NumericRangeValue(2, 7, 9)) ==
            [0x07] + ([0x02] + ([0x07, 0x00, 0x00, 0x00, 0x00, 0x00, 0x00, 0x00] +
                                [0x09, 0x00, 0x00, 0x00, 0x00, 0x00, 0x00, 0x00]))
  {
    hide LittleEndian, WriteList, WriteSigned, WriteBool, WriteString, WriteCounted, WriteTuple, WriteField,
      WriteScalar, WriteVersion;
    One(7);
    One(2);
    Wide(7, 0);
    Wide(9, 0);
  }

  lemma KnownVersions()
    ensures WriteVersion(Version([1])) == [0x01] + [0x01, 0x00, 0x00, 0x00]
    ensures WriteVersion(Version([2, 3])) == [0x02] + ([0x02, 0x00, 0x00, 0x00] + [0x03, 0x00, 0x00, 0x00])
  {
    hide LittleEndian, WriteList;
    One(1);
    One(2);
    Wide(1, 0);
    Wide(2, 0);
    Wide(3, 0);
    OneItem(WriteU32, 1);
    TwoItems(WriteU32, 2, 3);
  }

  lemma KnownVersionInterval()
    ensures WriteValue(VersionIntervalValue(Version([1]), Version([2, 3]), true, false)) ==
            [0x08] + (([0x01] + [0x01, 0x00, 0x00, 0x00]) +
                      ([0x01] + (([0x02] + ([0x02, 0x00, 0x00, 0x00] + [0x03, 0x00, 0x00, 0x00])) + [0x00])))
  {
    hide LittleEndian, WriteVersion;
    One(8);
    KnownVersions();
  }

  lemma KnownProtocolSet()
    ensures WriteValue(ProtocolSetValue([1, 0x0203])) ==
            [0x09, 0x02, 0x00, 0x00, 0x00, 0x01, 0x00, 0x03, 0x02]
  {
    hide LittleEndian, WriteList, WriteSigned, WriteBool, WriteString, WriteTuple, WriteField, WriteScalar,
      WriteVersion;
    One(9);
    Wide(2, 0);
    Two(1, 0);
    Two(3, 2);
    TwoItems(WriteU16, 1, 0x0203);
  }

  lemma KnownTuple()
    ensures WriteValue(TupleValue([Boolean(true), Unsigned(4)])) ==
            [0x0A, 0x02, 0x00, 0x00, 0x00, 0x00, 0x01, 0x02, 0x04, 0x00, 0x00, 0x00, 0x00, 0x00, 0x00, 0x00]
  {
    hide LittleEndian, WriteList, WriteSigned, WriteString, WriteField, WriteVersion;
    One(10);
    One(0);
    One(2);
    Wide(2, 0);
    Wide(4, 0);
    TwoItems(WriteScalar, Boolean(true), Unsigned(4));
  }

  lemma KnownTupleSet()
    ensures WriteValue(TupleSetValue([[Signed(-1), Enumeration([0x62], 6)]])) ==
            [0x0B, 0x01, 0x00, 0x00, 0x00] + WriteTuple([Signed(-1), Enumeration([0x62], 6)])
  {
    hide LittleEndian, WriteList, WriteTuple;
    One(11);
    Wide(1, 0);
    KnownMember();
    OneItem(WriteTuple, [Signed(-1), Enumeration([0x62], 6)]);
  }

  lemma KnownRecord()
    ensures WriteValue(RecordValue([Field([0x6E], TextScalar([0x74]))])) ==
            [0x0C] + ([0x01, 0x00, 0x00, 0x00] +
                      (([0x01, 0x00, 0x00, 0x00] + [0x6E]) + ([0x04] + ([0x01, 0x00, 0x00, 0x00] + [0x74]))))
  {
    hide LittleEndian, WriteList, WriteSigned, WriteBool, WriteTuple, WriteVersion;
    One(12);
    One(4);
    Wide(1, 0);
    OneItem(WriteField, Field([0x6E], TextScalar([0x74])));
  }

  lemma KnownOpaque()
    ensures WriteValue(OpaqueValue([0x65], [9, 8])) ==
            [0x0D, 0x01, 0x00, 0x00, 0x00, 0x65, 0x02, 0x00, 0x00, 0x00, 0x09, 0x08]
  {
    hide LittleEndian, WriteList, WriteSigned, WriteBool, WriteCounted, WriteTuple, WriteField, WriteScalar,
      WriteVersion;
    One(13);
    Wide(1, 0);
    Wide(2, 0);
  }

  lemma KnownEnumSet()
    ensures WriteValue(EnumSetValue([0x64], [6])) ==
            [0x0E, 0x01, 0x00, 0x00, 0x00, 0x64, 0x01, 0x00, 0x00, 0x00, 0x06, 0x00, 0x00, 0x00]
  {
    hide LittleEndian, WriteList, WriteSigned, WriteBool, WriteTuple, WriteField, WriteScalar, WriteVersion;
    One(14);
    Wide(1, 0);
    Wide(6, 0);
    OneItem(WriteU32, 6);
  }

  /** A publish frame with a one byte payload, up to its trailing check value. */
  lemma KnownFrame()
    ensures Frames.Body(Frames.Frame(Frames.Publish, 1, 0x0203, [0xAA])) ==
            [0x46, 0x43, 0x52, 0x46, 0x01, 0x00, 0x02, 0x00, 0x01, 0x00, 0x00, 0x00, 0x03, 0x02, 0x00, 0x00,
             0x00, 0x00, 0x00, 0x00, 0x01, 0x00, 0x00, 0x00, 0xAA]
  {
    hide LittleEndian;
    Two(1, 0);
    Two(2, 0);
    Wide(1, 0);
    Wide(3, 2);
  }

  /** Where the message type, the length and the check value of any frame lie. */
  lemma KnownFrameFields(frame: Frames.Frame)
    requires frame.Fits() && Frames.Encode(frame).Ok?
    ensures var bytes := Frames.Encode(frame).value;
            && |bytes| == 24 + |frame.payload| + 4 && bytes[24..24 + |frame.payload|] == frame.payload
            && NumberFrom(bytes, 20, 4) == |frame.payload| && NumberFrom(bytes, 8, 4) == frame.flags
            && NumberFrom(bytes, 12, 8) == frame.requestId
            && NumberFrom(bytes, 6, 2) ==
               match frame.kind {
                 case Hello => 0
                 case HelloAck => 1
                 case Publish => 2
                 case PublishAck => 3
                 case Fence => 4
                 case FenceAck => 5
                 case Status => 6
                 case StatusAck => 7
                 case Goodbye => 8
                 case ErrorResponse => 9
               }
  {
    hide LittleEndian, NumberFrom, Frames.Header, Crc32.Check;
    Frames.HeaderFields(frame, Frames.Encode(frame).value);
  }

  /** The header of a store of two entities in a payload of three bytes: its digest follows. */
  lemma KnownStoreHeader(body: seq<byte>)
    requires |body| == 3
    ensures StoreFile.Header(2, body)[..32] ==
            [0x46, 0x43, 0x52, 0x53, 0x54, 0x4F, 0x52, 0x45, 0x01, 0x00, 0x00, 0x00, 0x00, 0x00, 0x00, 0x00,
             0x03, 0x00, 0x00, 0x00, 0x00, 0x00, 0x00, 0x00, 0x02, 0x00, 0x00, 0x00, 0x00, 0x00, 0x00, 0x00]
    ensures StoreFile.Header(2, body)[32..] == Sha256.Digest(body)
  {
    hide LittleEndian, Sha256.Digest;
    Wide(1, 0);
    Wide(0, 0);
    Wide(3, 0);
    Wide(2, 0);
  }

  lemma RowOfTwo(s: Shape, t: Shape, a: Datum, b: Datum)
    requires WriteDatum(s, a).Ok? && WriteDatum(t, b).Ok?
    ensures WriteRow([s, t], [a, b]) == Ok(WriteDatum(s, a).value + WriteDatum(t, b).value)
  {
    hide WriteDatum;
    RowStep(s, [t], a, [b]);
    RowStep(t, [], b, []);
    assert WriteDatum(t, b).value + [] == WriteDatum(t, b).value;
    assert WriteRow([t], [b]) == WriteDatum(t, b);
    assert [s] + [t] == [s, t] && [a] + [b] == [a, b];
    assert [t] + [] == [t] && [b] + [] == [b];
  }

  lemma RowStep(s: Shape, shapes: seq<Shape>, a: Datum, row: Row)
    ensures WriteRow([s] + shapes, [a] + row) == Join(WriteDatum(s, a), WriteRow(shapes, row))
  {
    assert ([s] + shapes)[1..] == shapes && ([a] + row)[1..] == row;
  }

  lemma RowOfThree(s: Shape, t: Shape, u: Shape, a: Datum, b: Datum, c: Datum)
    requires WriteDatum(s, a).Ok? && WriteDatum(t, b).Ok? && WriteDatum(u, c).Ok?
    ensures WriteRow([s, t, u], [a, b, c]) ==
            Ok(WriteDatum(s, a).value + (WriteDatum(t, b).value + WriteDatum(u, c).value))
  {
    hide WriteDatum;
    RowStep(s, [t, u], a, [b, c]);
    RowOfTwo(t, u, b, c);
    assert [s] + [t, u] == [s, t, u] && [a] + [b, c] == [a, b, c];
  }

  function KnownMetaBytes(): seq<byte> {
    [0x01, 0x10, 0x00, 0x00, 0x00, 0x07, 0x00, 0x00, 0x00, 0x00, 0x00, 0x00, 0x00, 0x02, 0x01, 0x00, 0x00,
     0x00, 0x00, 0x00, 0x00]
  }

  function KnownFenceBytes(): seq<byte> {
    [0x03] + [0x15, 0x00, 0x00, 0x00] +
    (([0x08, 0x00, 0x00, 0x00] + [0x31, 0x32, 0x33, 0x34, 0x35, 0x36, 0x37, 0x38]) +
     (([0x01, 0x00, 0x00, 0x00] + [0x70]) + ([0x00, 0x00, 0x00, 0x00] + [])))
  }

  function KnownRegistrationBytes(): seq<byte> {
    [0x05] + [0x16, 0x00, 0x00, 0x00] +
    (([0x01, 0x00, 0x00, 0x00] + [0x70]) +
     (([0x08, 0x00, 0x00, 0x00] + [0x31, 0x32, 0x33, 0x34, 0x35, 0x36, 0x37, 0x38]) +
      ([0x01, 0x00, 0x00, 0x00] + [0x73])))
  }

  const BOOT: Text := [0x31, 0x32, 0x33, 0x34, 0x35, 0x36, 0x37, 0x38]

  /** The record of the epoch and the registry generation. */
  lemma KnownMeta()
    ensures EncodeRecord(RECORD_META, MetaShape(), [NumberDatum(7), NumberDatum(0x0102)]) == Ok(KnownMetaBytes())
  {
    hide LittleEndian, WriteRow;
    RowOfTwo(Counter(), Counter(), NumberDatum(7), NumberDatum(0x0102));
    One(1);
    Wide(16, 0);
    Wide(7, 0);
    Wide(2, 1);
    assert EncodeRecord(RECORD_META, MetaShape(), [NumberDatum(7), NumberDatum(0x0102)]).value == KnownMetaBytes();
  }

  /** The record of a fence: the boot, the publisher it names, and the reason. */
  lemma KnownFence()
    ensures EncodeRecord(RECORD_FENCE, FenceShape(),
                         [TextDatum(BOOT), TextDatum([0x70]), TextDatum([])]) == Ok(KnownFenceBytes())
  {
    hide LittleEndian, HexToken, LowerToken, PrintableToken, WriteRow;
    RowOfThree(Boot(), OptionalIdentifier(96, NameRule), Reason(),
               TextDatum(BOOT), TextDatum([0x70]), TextDatum([]));
    One(3);
    Wide(21, 0);
    Wide(8, 0);
    Wide(1, 0);
    Wide(0, 0);
    assert EncodeRecord(RECORD_FENCE, FenceShape(), [TextDatum(BOOT), TextDatum([0x70]), TextDatum([])]).value ==
           KnownFenceBytes();
  }

  /** The record of a registration: the publisher, its boot, and its scope. */
  lemma KnownRegistration()
    ensures EncodeRecord(RECORD_REGISTRATION, RegistrationShape(),
                         [TextDatum([0x70]), TextDatum(BOOT), TextDatum([0x73])]) == Ok(KnownRegistrationBytes())
  {
    hide LittleEndian, HexToken, LowerToken, PrintableToken, WriteRow;
    RowOfThree(Name(), Boot(), Name(), TextDatum([0x70]),
               TextDatum(BOOT), TextDatum([0x73]));
    One(5);
    Wide(22, 0);
    Wide(8, 0);
    Wide(1, 0);
    assert EncodeRecord(RECORD_REGISTRATION, RegistrationShape(),
                        [TextDatum([0x70]), TextDatum(BOOT), TextDatum([0x73])]).value == KnownRegistrationBytes();
  }

  // ----- limits -----

  /** The values the codec carries, in numbers. */
  ghost predicate Carried(v: CapabilityValue) {
    match v
    case Absent => true
    case BooleanValue(_) => true
    case IntegerValue(i) => -0x2000_0000_0000_0000 <= i <= 0x2000_0000_0000_0000
    case QuantityValue(amount, unit) => amount <= 0x4000_0000_0000_0000 && 1 <= unit <= 12
    case EnumerationValue(domain, code) => LowerToken(domain, 96) && code < 0x1_0000_0000
    case BitSetValue(bitCount, words) =>
      && 1 <= bitCount <= 4096 && |words| == (bitCount + 63) / 64
      && (forall i :: 0 <= i < |words| ==> words[i] < 0x1_0000_0000_0000_0000)
      && (bitCount % 64 != 0 ==> words[|words| - 1] < PowerOfTwo(bitCount % 64))
    case NumericSetValue(unit, values) =>
      && 1 <= unit <= 12 && 1 <= |values| <= 4096
      && (forall i :: 0 <= i < |values| ==> values[i] <= 0x4000_0000_0000_0000)
      && (forall i :: 0 < i < |values| ==> values[i - 1] < values[i])
    case NumericRangeValue(unit, minimum, maximum) => 1 <= unit <= 12 && minimum <= maximum <= 0x4000_0000_0000_0000
    case VersionIntervalValue(lower, upper, lowerInclusive, upperInclusive) =>
      && CarriedVersion(lower) && CarriedVersion(upper) && !VersionLess(upper, lower)
      && (SameVersion(lower, upper) ==> lowerInclusive && upperInclusive)
    case ProtocolSetValue(protocols) =>
      && 1 <= |protocols| <= 64 && (forall i :: 0 <= i < |protocols| ==> 1 <= protocols[i] <= 20)
      && (forall i :: 0 < i < |protocols| ==> protocols[i - 1] < protocols[i])
    case TupleValue(elements) => CarriedTuple(elements)
    case TupleSetValue(tuples) =>
      && 1 <= |tuples| <= 1024 && Orderings.Increasing(Orderings.TupleLess, tuples)
      && forall i :: 0 <= i < |tuples| ==> CarriedTuple(tuples[i]) && |tuples[i]| == |tuples[0]|
    case RecordValue(fields) =>
      && 1 <= |fields| <= 32 && Orderings.Increasing(FieldLess, fields)
      && forall i :: 0 <= i < |fields| ==> LowerToken(fields[i].name, 48) && CarriedScalar(fields[i].value)
    case OpaqueValue(encoding, payload) => PrintableToken(encoding, 64) && |payload| <= 65536
    case EnumSetValue(domain, codes) =>
      && LowerToken(domain, 96) && 1 <= |codes| <= 4096
      && (forall i :: 0 <= i < |codes| ==> codes[i] < 0x1_0000_0000)
      && (forall i :: 0 < i < |codes| ==> codes[i - 1] < codes[i])
  }

  predicate CarriedVersion(v: Version) {
    1 <= |v.components| <= 4 && forall i :: 0 <= i < |v.components| ==> v.components[i] <= 1_000_000_000
  }

  predicate CarriedScalar(s: Scalar) {
    match s
    case Boolean(_) => true
    case Signed(i) => -0x2000_0000_0000_0000 <= i <= 0x2000_0000_0000_0000
    case Unsigned(n) => n <= 0x4000_0000_0000_0000
    case Enumeration(domain, code) => LowerToken(domain, 96) && code < 0x1_0000_0000
    case TextScalar(text) => 1 <= |text| <= 192 && ControlFree(text)
  }

  predicate CarriedTuple(elements: Tuple) {
    2 <= |elements| <= 8 && forall i :: 0 <= i < |elements| ==> CarriedScalar(elements[i])
  }

  /** A value is read back from its encoding exactly when it is carried. */
  lemma CarriedExactly(v: CapabilityValue, rest: seq<byte>)
    ensures Carried(v) <==> Encodable(v)
    ensures Carried(v) ==> ReadValue(WriteValue(v) + rest) == Parsed(v, rest)
  {
    hide LowerToken, PrintableToken, VersionLess, SameVersion, ReadValue, WriteValue, ControlFree, PowerOfTwo;
    CarriedIsEncodable(v);
    if Carried(v) {
      ValueRoundTrip(v, rest);
    }
  }

  lemma ScalarsCarried()
    ensures forall s: Scalar :: CarriedScalar(s) <==> ScalarOk(s)
    ensures forall elements: Tuple :: CarriedTuple(elements) <==> TupleOk(elements)
    ensures forall v: Version :: CarriedVersion(v) <==> VersionOk(v)
    ensures forall f: Field :: LowerToken(f.name, 48) && CarriedScalar(f.value) <==> FieldOk(f)
  {
    hide LowerToken, ControlFree;
    forall s: Scalar ensures CarriedScalar(s) <==> ScalarOk(s) {
    }
    hide CarriedScalar, ScalarOk;
    forall elements: Tuple ensures CarriedTuple(elements) <==> TupleOk(elements) {
    }
  }

  lemma CarriedIsEncodable(v: CapabilityValue)
    ensures Carried(v) <==> Encodable(v)
  {
    hide LowerToken, PrintableToken, VersionLess, SameVersion, ControlFree, PowerOfTwo, Orderings.TupleLess, FieldLess,
      CarriedScalar, CarriedTuple, CarriedVersion, ScalarOk, TupleOk, VersionOk, FieldOk;
    ScalarsCarried();
    match v
    case NumericSetValue(_, values) => AscendingIsStep(values);
    case ProtocolSetValue(protocols) => AscendingIsStep(protocols);
    case EnumSetValue(_, codes) => AscendingIsStep(codes);
    case _ =>
  }

  lemma AscendingIsStep(values: seq<nat>)
    ensures ValueCodec.Ascending(values) <==> forall i :: 0 < i < |values| ==> values[i - 1] < values[i]
  {
    if ValueCodec.Ascending(values) {
      forall i | 0 < i < |values| ensures values[i - 1] < values[i] {
        assert NatLess(values[i - 1], values[i]);
      }
    }
  }
}
