/** Which bytes the value decoder accepts, and as what: exactly the encodings of the values it carries,
    with the members of a set or the fields of a record in any order. */
module ValueReading {
  import Sequences
  import opened Values
  import opened Bytes
  import opened Orderings
  import opened ValueCodec
  import opened ValueFactories

  /** Whatever is read is the writing of its value, followed by what is left. */
  ghost predicate OnlyWritten<T(!new)>(write: T -> seq<byte>, read: seq<byte> -> Parse<T>) {
    forall input :: read(input).Parsed? ==> input == write(read(input).value) + read(input).rest
  }

  // ----- primitives -----

  lemma Chain2(input: seq<byte>, a: seq<byte>, x: seq<byte>, b: seq<byte>, y: seq<byte>)
    requires input == a + x && x == b + y
    ensures input == (a + b) + y
  {
  }

  lemma Chain3(input: seq<byte>, a: seq<byte>, x: seq<byte>, b: seq<byte>, y: seq<byte>, c: seq<byte>, z: seq<byte>)
    requires input == a + x && x == b + y && y == c + z
    ensures input == (a + (b + c)) + z
  {
  }

  lemma UnsignedIsWritten(input: seq<byte>)
    ensures ReadU8(input).Parsed? ==> input == WriteU8(ReadU8(input).value) + ReadU8(input).rest
    ensures ReadU16(input).Parsed? ==> input == WriteU16(ReadU16(input).value) + ReadU16(input).rest
    ensures ReadU32(input).Parsed? ==> input == WriteU32(ReadU32(input).value) + ReadU32(input).rest
    ensures ReadU64(input).Parsed? ==> input == WriteU64(ReadU64(input).value) + ReadU64(input).rest
  {
    hide ReadUnsigned;
    if ReadU8(input).Parsed? { ReadIsWritten(input, 1); }
    if ReadU16(input).Parsed? { ReadIsWritten(input, 2); }
    if ReadU32(input).Parsed? { ReadIsWritten(input, 4); }
    if ReadU64(input).Parsed? { ReadIsWritten(input, 8); }
  }

  lemma SignedIsWritten(input: seq<byte>)
    ensures ReadSigned(input).Parsed? ==> input == WriteSigned(ReadSigned(input).value) + ReadSigned(input).rest
  {
    hide ReadUnsigned, LittleEndian;
    if ReadSigned(input).Parsed? {
      ReadIsWritten(input, 8);
      Powers();
      var n := ReadUnsigned(input, 8).value;
      assert ReadSigned(input).value % TWO_TO_64 == n;
    }
  }

  lemma BoolIsWritten(input: seq<byte>)
    ensures ReadBool(input).Parsed? ==> input == WriteBool(ReadBool(input).value) + ReadBool(input).rest
  {
    if ReadBool(input).Parsed? {
      ReadIsWritten(input, 1);
      var n := ReadUnsigned(input, 1).value;
      assert LittleEndian(n / 256, 0) == [];
    }
  }

  lemma StringIsWritten(input: seq<byte>, limit: nat, tooLong: CodecError)
    ensures var read := ReadString(input, limit, tooLong);
            read.Parsed? ==> input == WriteString(read.value) + read.rest
  {
    hide ReadUnsigned, LittleEndian;
    if ReadString(input, limit, tooLong).Parsed? {
      ReadIsWritten(input, 4);
      var length := ReadUnsigned(input, 4);
      assert length.rest == length.rest[..length.value] + length.rest[length.value..];
    }
  }

  lemma TextIsWritten(input: seq<byte>, limit: nat)
    ensures ReadText(input, limit).Parsed? ==>
              input == WriteString(ReadText(input, limit).value) + ReadText(input, limit).rest
    ensures ReadDomain(input).Parsed? ==> input == WriteString(ReadDomain(input).value) + ReadDomain(input).rest
  {
    hide ReadString, WriteString, ControlFree, DomainOk;
    StringIsWritten(input, limit, TextTooLong);
    StringIsWritten(input, MAX_DOMAIN_LENGTH, TextTooLong);
  }

  lemma {:induction false} ListIsWritten<T(!new)>(write: T -> seq<byte>, read: seq<byte> -> Parse<T>, count: nat,
                                                  input: seq<byte>)
    requires OnlyWritten(write, read) && ReadList(read, count, input).Parsed?
    ensures input == WriteList(write, ReadList(read, count, input).value) + ReadList(read, count, input).rest
    decreases count
  {
    if count > 0 {
      ListIsWritten(write, read, count - 1, input);
      var front := ReadList(read, count - 1, input);
      var last := read(front.rest);
      var items := front.value + [last.value];
      assert items[..|items| - 1] == front.value;
      assert input == WriteList(write, front.value) + (write(last.value) + last.rest);
    }
  }

  lemma CountedIsWritten<T(!new)>(write: T -> seq<byte>, read: seq<byte> -> Parse<T>, limit: nat, input: seq<byte>)
    requires OnlyWritten(write, read) && ReadCounted(read, limit, input).Parsed?
    ensures var counted := ReadCounted(read, limit, input);
            input == WriteCounted(write, counted.value) + counted.rest && |counted.value| <= limit
  {
    hide ReadU32, WriteU32, ReadList, WriteList, OnlyWritten;
    UnsignedIsWritten(input);
    var count := ReadU32(input);
    ListIsWritten(write, read, count.value, count.rest);
    var list := ReadList(read, count.value, count.rest);
    assert input == WriteU32(count.value) + (WriteList(write, list.value) + list.rest);
  }

  lemma NumbersOnlyWritten()
    ensures OnlyWritten(WriteU64, ReadU64) && OnlyWritten(WriteU32, ReadU32) && OnlyWritten(WriteU16, ReadU16)
    ensures OnlyWritten(WriteU32, ReadComponent)
  {
    hide ReadU64, WriteU64, ReadU32, WriteU32, ReadU16, WriteU16, ReadU8, WriteU8;
    forall input: seq<byte>
      ensures ReadU64(input).Parsed? ==> input == WriteU64(ReadU64(input).value) + ReadU64(input).rest
      ensures ReadU32(input).Parsed? ==> input == WriteU32(ReadU32(input).value) + ReadU32(input).rest
      ensures ReadU16(input).Parsed? ==> input == WriteU16(ReadU16(input).value) + ReadU16(input).rest
    {
      UnsignedIsWritten(input);
    }
  }

  lemma VersionIsWritten(input: seq<byte>)
    ensures ReadVersion(input).Parsed? ==> input == WriteVersion(ReadVersion(input).value) + ReadVersion(input).rest
  {
    hide ReadU8, WriteU8, ReadList, WriteList, OnlyWritten, ReadU32, WriteU32;
    if ReadVersion(input).Parsed? {
      UnsignedIsWritten(input);
      NumbersOnlyWritten();
      var count := ReadU8(input);
      ListIsWritten(WriteU32, ReadComponent, count.value, count.rest);
      var list := ReadList(ReadComponent, count.value, count.rest);
      assert input == WriteU8(count.value) + (WriteList(WriteU32, list.value) + list.rest);
    }
  }

  // ----- scalars, tuples and fields -----

  lemma ScalarBodyIsWritten(kind: nat, input: seq<byte>)
    requires ReadScalarBody(kind, input).Parsed?
    ensures var scalar := ReadScalarBody(kind, input);
            KindCode(scalar.value) == kind
            && WriteU8(kind) + input == WriteScalar(scalar.value) + scalar.rest
  {
    hide ReadU32, WriteU32, ReadU64, WriteU64, WriteU8, ReadText, WriteString, ReadBool, WriteBool, ReadSigned,
      WriteSigned, ReadDomain;
    var rest := ReadScalarBody(kind, input).rest;
    match ReadScalarBody(kind, input).value
    case Boolean(b) =>
      BoolIsWritten(input);
      Chain2(WriteU8(0) + input, WriteU8(0), input, WriteBool(b), rest);
    case Signed(n) =>
      SignedIsWritten(input);
      Chain2(WriteU8(1) + input, WriteU8(1), input, WriteSigned(n), rest);
    case Unsigned(n) =>
      UnsignedIsWritten(input);
      Chain2(WriteU8(2) + input, WriteU8(2), input, WriteU64(n), rest);
    case Enumeration(domain, code) =>
      TextIsWritten(input, MAX_DOMAIN_LENGTH);
      UnsignedIsWritten(ReadDomain(input).rest);
      Chain3(WriteU8(3) + input, WriteU8(3), input, WriteString(domain), ReadDomain(input).rest, WriteU32(code), rest);
    case TextScalar(text) =>
      TextIsWritten(input, MAX_TEXT_LENGTH);
      Chain2(WriteU8(4) + input, WriteU8(4), input, WriteString(text), rest);
  }

  lemma ScalarIsWritten(input: seq<byte>)
    ensures ReadScalar(input).Parsed? ==> input == WriteScalar(ReadScalar(input).value) + ReadScalar(input).rest
  {
    hide ReadU8, WriteU8, ReadScalarBody, WriteScalar;
    if ReadScalar(input).Parsed? {
      UnsignedIsWritten(input);
      ScalarBodyIsWritten(ReadU8(input).value, ReadU8(input).rest);
    }
  }

  lemma TupleIsWritten(input: seq<byte>)
    ensures ReadTuple(input).Parsed? ==> input == WriteTuple(ReadTuple(input).value) + ReadTuple(input).rest
  {
    hide ReadU32, WriteU32, ReadList, WriteList, ReadScalar, WriteScalar;
    if ReadTuple(input).Parsed? {
      UnsignedIsWritten(input);
      var count := ReadU32(input);
      forall i ensures ReadScalar(i).Parsed? ==> i == WriteScalar(ReadScalar(i).value) + ReadScalar(i).rest {
        ScalarIsWritten(i);
      }
      ListIsWritten(WriteScalar, ReadScalar, count.value, count.rest);
      var list := ReadList(ReadScalar, count.value, count.rest);
      assert input == WriteU32(count.value) + (WriteList(WriteScalar, list.value) + list.rest);
    }
  }

  lemma FieldIsWritten(input: seq<byte>)
    ensures ReadField(input).Parsed? ==> input == WriteField(ReadField(input).value) + ReadField(input).rest
  {
    hide ReadText, WriteString, ReadScalar, WriteScalar;
    if ReadField(input).Parsed? {
      TextIsWritten(input, MAX_FIELD_NAME_LENGTH);
      var name := ReadText(input, MAX_FIELD_NAME_LENGTH);
      ScalarIsWritten(name.rest);
      var scalar := ReadScalar(name.rest);
      assert input == WriteString(name.value) + (WriteScalar(scalar.value) + scalar.rest);
    }
  }

  lemma MembersOnlyWritten()
    ensures OnlyWritten(WriteTuple, ReadTuple) && OnlyWritten(WriteField, ReadField)
  {
    hide ReadTuple, WriteTuple, ReadField, WriteField;
    forall i: seq<byte>
      ensures ReadTuple(i).Parsed? ==> i == WriteTuple(ReadTuple(i).value) + ReadTuple(i).rest
      ensures ReadField(i).Parsed? ==> i == WriteField(ReadField(i).value) + ReadField(i).rest
    {
      TupleIsWritten(i);
      FieldIsWritten(i);
    }
  }

  // ----- what the set factories make of what they are given -----

  /** The same value but for the order in which its members are listed; a numeric set has one order. */
  ghost predicate Arranges(given: CapabilityValue, v: CapabilityValue) {
    match v
    case ProtocolSetValue(protocols) => given.ProtocolSetValue? && multiset(given.protocols) == multiset(protocols)
    case TupleSetValue(tuples) => given.TupleSetValue? && multiset(given.tuples) == multiset(tuples)
    case RecordValue(fields) => given.RecordValue? && multiset(given.fields) == multiset(fields)
    case EnumSetValue(domain, codes) =>
      given.EnumSetValue? && given.domain == domain && multiset(given.codes) == multiset(codes)
    case _ => given == v
  }

  // ----- bodies -----

  lemma UnitIsWritten(input: seq<byte>)
    ensures ReadUnit(input).Parsed? ==> input == WriteU8(ReadUnit(input).value) + ReadUnit(input).rest
  {
    hide ReadU8, WriteU8;
    UnsignedIsWritten(input);
  }

  lemma SmallIsWritten(tag: nat, input: seq<byte>)
    requires tag <= 4 && ReadBody(tag, input).Parsed?
    ensures var read := ReadBody(tag, input); KindTag(read.value) == tag && input == WriteBody(read.value) + read.rest
  {
    hide ReadU64, WriteU64, ReadUnit, WriteU8, ReadDomain, WriteString, ReadU32, WriteU32, ReadBool, WriteBool,
      ReadSigned, WriteSigned;
    var rest := ReadBody(tag, input).rest;
    match ReadBody(tag, input).value
    case Absent =>
    case BooleanValue(_) => BoolIsWritten(input);
    case IntegerValue(_) => SignedIsWritten(input);
    case QuantityValue(amount, unit) =>
      UnsignedIsWritten(input);
      UnitIsWritten(ReadU64(input).rest);
      assert input == WriteU64(amount) + (WriteU8(unit) + rest);
    case EnumerationValue(domain, code) =>
      TextIsWritten(input, MAX_DOMAIN_LENGTH);
      UnsignedIsWritten(ReadDomain(input).rest);
      assert input == WriteString(domain) + (WriteU32(code) + rest);
  }

  lemma BitSetIsWritten(input: seq<byte>)
    ensures var read := ReadBitSet(input);
            read.Parsed? ==> read.value.BitSetValue? && input == WriteBody(read.value) + read.rest
  {
    hide ReadU32, WriteU32, ReadU64, WriteU64, ReadList, WriteList, OnlyWritten, BitsAboveCountAreClear;
    if ReadBitSet(input).Parsed? {
      UnsignedIsWritten(input);
      var bits := ReadU32(input);
      UnsignedIsWritten(bits.rest);
      var count := ReadU32(bits.rest);
      NumbersOnlyWritten();
      ListIsWritten(WriteU64, ReadU64, count.value, count.rest);
      var words := ReadList(ReadU64, count.value, count.rest);
      Chain3(input, WriteU32(bits.value), bits.rest, WriteU32(count.value), count.rest,
             WriteList(WriteU64, words.value), words.rest);
    }
  }

  lemma NumericSetIsWritten(input: seq<byte>)
    ensures var read := ReadNumericSet(input);
            read.Parsed? ==> read.value.NumericSetValue? && input == WriteBody(read.value) + read.rest
  {
    hide ReadUnit, WriteU8, ReadCounted, WriteCounted, ReadU64, WriteU64, OnlyWritten, Sort, Ascending, HasTwins;
    if ReadNumericSet(input).Parsed? {
      UnitIsWritten(input);
      var unit := ReadUnit(input);
      NumbersOnlyWritten();
      CountedIsWritten(WriteU64, ReadU64, MAX_SET_CARDINALITY, unit.rest);
      var values := ReadCounted(ReadU64, MAX_SET_CARDINALITY, unit.rest);
      AscendingStays(values.value);
      assert input == WriteU8(unit.value) + (WriteCounted(WriteU64, values.value) + values.rest);
    }
  }

  lemma NumericRangeIsWritten(input: seq<byte>)
    ensures var read := ReadNumericRange(input);
            read.Parsed? ==> read.value.NumericRangeValue? && input == WriteBody(read.value) + read.rest
  {
    hide ReadUnit, WriteU8, ReadU64, WriteU64;
    if ReadNumericRange(input).Parsed? {
      UnitIsWritten(input);
      var unit := ReadUnit(input);
      UnsignedIsWritten(unit.rest);
      var minimum := ReadU64(unit.rest);
      UnsignedIsWritten(minimum.rest);
      var maximum := ReadU64(minimum.rest);
      Chain3(input, WriteU8(unit.value), unit.rest, WriteU64(minimum.value), minimum.rest, WriteU64(maximum.value),
             maximum.rest);
    }
  }

  lemma VersionIntervalIsWritten(input: seq<byte>)
    ensures var read := ReadVersionInterval(input);
            read.Parsed? ==> read.value.VersionIntervalValue? && input == WriteBody(read.value) + read.rest
  {
    hide ReadVersion, WriteVersion, ReadBool, WriteBool, VersionLess, SameVersion;
    if ReadVersionInterval(input).Parsed? {
      VersionIsWritten(input);
      var lower := ReadVersion(input);
      BoolIsWritten(lower.rest);
      var low := ReadBool(lower.rest);
      VersionIsWritten(low.rest);
      var upper := ReadVersion(low.rest);
      BoolIsWritten(upper.rest);
      var high := ReadBool(upper.rest);
      var a, b := WriteVersion(lower.value), WriteBool(low.value);
      var c, d := WriteVersion(upper.value), WriteBool(high.value);
      assert input == a + (b + (c + (d + high.rest)));
    }
  }

  lemma OpaqueIsWritten(input: seq<byte>)
    ensures var read := ReadOpaque(input);
            read.Parsed? ==> read.value.OpaqueValue? && input == WriteBody(read.value) + read.rest
  {
    hide ReadText, WriteString, ReadString, PrintableToken;
    if ReadOpaque(input).Parsed? {
      TextIsWritten(input, MAX_ENCODING_LENGTH);
      var encoding := ReadText(input, MAX_ENCODING_LENGTH);
      StringIsWritten(encoding.rest, MAX_PAYLOAD_BYTES, PayloadTooLarge);
      var payload := ReadBytes(encoding.rest, MAX_PAYLOAD_BYTES);
      assert input == WriteString(encoding.value) + (WriteString(payload.value) + payload.rest);
    }
  }

  lemma TupleValueIsWritten(input: seq<byte>)
    ensures var read := ReadTupleValue(input);
            read.Parsed? ==> read.value.TupleValue? && input == WriteBody(read.value) + read.rest
  {
    hide ReadTuple, WriteTuple;
    TupleIsWritten(input);
  }

  // ----- sets in any order -----

  lemma ProtocolSetIsWritten(input: seq<byte>) returns (given: CapabilityValue)
    requires ReadProtocolSet(input).Parsed?
    ensures var read := ReadProtocolSet(input);
            given.ProtocolSetValue? && Arranges(given, read.value) && input == WriteBody(given) + read.rest
  {
    hide ReadCounted, WriteCounted, ReadU16, WriteU16, OnlyWritten, Sort, HasTwins;
    NumbersOnlyWritten();
    CountedIsWritten(WriteU16, ReadU16, MAX_PROTOCOLS, input);
    var protocols := ReadCounted(ReadU16, MAX_PROTOCOLS, input).value;
    SortMembers(NatLess, protocols);
    given := ProtocolSetValue(protocols);
  }

  lemma TupleSetIsWritten(input: seq<byte>) returns (given: CapabilityValue)
    requires ReadTupleSet(input).Parsed?
    ensures var read := ReadTupleSet(input);
            given.TupleSetValue? && Arranges(given, read.value) && input == WriteBody(given) + read.rest
  {
    hide ReadCounted, WriteCounted, ReadTuple, WriteTuple, OnlyWritten, Sort, HasTupleTwins;
    MembersOnlyWritten();
    CountedIsWritten(WriteTuple, ReadTuple, MAX_TUPLE_SET_CARDINALITY, input);
    var tuples := ReadCounted(ReadTuple, MAX_TUPLE_SET_CARDINALITY, input).value;
    SortMembers(TupleLess, tuples);
    given := TupleSetValue(tuples);
  }

  lemma RecordIsWritten(input: seq<byte>) returns (given: CapabilityValue)
    requires ReadRecord(input).Parsed?
    ensures var read := ReadRecord(input);
            given.RecordValue? && Arranges(given, read.value) && input == WriteBody(given) + read.rest
  {
    hide ReadCounted, WriteCounted, ReadField, WriteField, OnlyWritten, Sort, HasNameTwins, FieldNameOk;
    MembersOnlyWritten();
    CountedIsWritten(WriteField, ReadField, MAX_RECORD_FIELDS, input);
    var fields := ReadCounted(ReadField, MAX_RECORD_FIELDS, input).value;
    SortMembers(FieldLess, fields);
    given := RecordValue(fields);
  }

  lemma EnumSetIsWritten(input: seq<byte>) returns (given: CapabilityValue)
    requires ReadEnumSet(input).Parsed?
    ensures var read := ReadEnumSet(input);
            given.EnumSetValue? && Arranges(given, read.value) && input == WriteBody(given) + read.rest
  {
    hide ReadDomain, WriteString, ReadCounted, WriteCounted, ReadU32, WriteU32, OnlyWritten, Sort, HasTwins;
    TextIsWritten(input, MAX_DOMAIN_LENGTH);
    var domain := ReadDomain(input);
    NumbersOnlyWritten();
    CountedIsWritten(WriteU32, ReadU32, MAX_SET_CARDINALITY, domain.rest);
    var codes := ReadCounted(ReadU32, MAX_SET_CARDINALITY, domain.rest);
    SortMembers(NatLess, codes.value);
    given := EnumSetValue(domain.value, codes.value);
    assert input == WriteString(domain.value) + (WriteCounted(WriteU32, codes.value) + codes.rest);
  }

  lemma BodyIsWritten(tag: nat, input: seq<byte>) returns (given: CapabilityValue)
    requires ReadBody(tag, input).Parsed?
    ensures var read := ReadBody(tag, input);
            KindTag(given) == tag && Arranges(given, read.value) && input == WriteBody(given) + read.rest
  {
    hide ReadBitSet, ReadNumericSet, ReadNumericRange, ReadVersionInterval, ReadProtocolSet, ReadTupleValue,
      ReadTupleSet, ReadRecord, ReadOpaque, ReadEnumSet, WriteBody;
    given := ReadBody(tag, input).value;
    match tag
    case 5 => BitSetIsWritten(input);
    case 6 => NumericSetIsWritten(input);
    case 7 => NumericRangeIsWritten(input);
    case 8 => VersionIntervalIsWritten(input);
    case 9 => given := ProtocolSetIsWritten(input);
    case 10 => TupleValueIsWritten(input);
    case 11 => given := TupleSetIsWritten(input);
    case 12 => given := RecordIsWritten(input);
    case 13 => OpaqueIsWritten(input);
    case 14 => given := EnumSetIsWritten(input);
    case _ => SmallIsWritten(tag, input);
  }

  // ----- any order is read -----

  lemma ArrangementIsRead(given: CapabilityValue, v: CapabilityValue, rest: seq<byte>)
    requires Encodable(v) && Arranges(given, v)
    ensures ReadBody(KindTag(v), WriteBody(given) + rest) == Parsed(v, rest)
  {
    hide ReadProtocolSet, ReadTupleSet, ReadRecord, ReadEnumSet, WriteBody, Encodable;
    match v
    case ProtocolSetValue(_) => ArrangedProtocolsAreRead(given, v, rest);
    case TupleSetValue(_) => ArrangedTuplesAreRead(given, v, rest);
    case RecordValue(_) => ArrangedFieldsAreRead(given, v, rest);
    case EnumSetValue(_, _) => ArrangedCodesAreRead(given, v, rest);
    case _ => BodyRoundTrip(v, rest);
  }

  lemma ArrangedProtocolsAreRead(given: CapabilityValue, v: CapabilityValue, rest: seq<byte>)
    requires v.ProtocolSetValue? && Encodable(v) && Arranges(given, v)
    ensures ReadProtocolSet(WriteBody(given) + rest) == Parsed(v, rest)
  {
    hide WriteCounted, ReadCounted, WriteU16, ReadU16, Sort, Ascending, HasTwins, Orderings.Increasing;
    Sequences.PermutedMembers(given.protocols, v.protocols);
    NumbersRoundTrip(given.protocols);
    CountedRoundTrip(WriteU16, ReadU16, MAX_PROTOCOLS, given.protocols, rest);
    SetFactoriesIgnoreOrder(0, [], given.protocols, v.protocols);
    AscendingStays(v.protocols);
  }

  lemma ArrangedCodesAreRead(given: CapabilityValue, v: CapabilityValue, rest: seq<byte>)
    requires v.EnumSetValue? && Encodable(v) && Arranges(given, v)
    ensures ReadEnumSet(WriteBody(given) + rest) == Parsed(v, rest)
  {
    hide ReadDomain, WriteString, WriteCounted, ReadCounted, WriteU32, ReadU32, Sort, Ascending, HasTwins, DomainOk;
    Sequences.PermutedMembers(given.codes, v.codes);
    var list := WriteCounted(WriteU32, given.codes);
    assert WriteBody(given) + rest == WriteString(v.domain) + (list + rest);
    DomainRoundTrip(v.domain, list + rest);
    NumbersRoundTrip(given.codes);
    CountedRoundTrip(WriteU32, ReadU32, MAX_SET_CARDINALITY, given.codes, rest);
    SetFactoriesIgnoreOrder(0, v.domain, given.codes, v.codes);
    AscendingStays(v.codes);
  }

  lemma ArrangedTuplesAreRead(given: CapabilityValue, v: CapabilityValue, rest: seq<byte>)
    requires v.TupleSetValue? && Encodable(v) && Arranges(given, v)
    ensures ReadTupleSet(WriteBody(given) + rest) == Parsed(v, rest)
  {
    hide WriteCounted, ReadCounted, WriteTuple, ReadTuple, Sort, Increasing, HasTupleTwins, TupleOk;
    Sequences.PermutedMembers(given.tuples, v.tuples);
    forall i | 0 <= i < |given.tuples| ensures TupleOk(given.tuples[i]) {
      assert given.tuples[i] in v.tuples;
    }
    TuplesRoundTrip(given.tuples);
    CountedRoundTrip(WriteTuple, ReadTuple, MAX_TUPLE_SET_CARDINALITY, given.tuples, rest);
    TuplesStay(v.tuples);
    TupleSetFactoryIgnoresOrder(given.tuples, v.tuples);
    assert MakeTupleSet(v.tuples) == Ok(v) by {
      assert TupleOk(v.tuples[0]);
      OkTupleHasArity(v.tuples[0]);
    }
  }

  lemma OkTupleHasArity(elements: Tuple)
    requires TupleOk(elements)
    ensures ArityOk(|elements|)
  {
  }

  lemma ArrangedFieldsAreRead(given: CapabilityValue, v: CapabilityValue, rest: seq<byte>)
    requires v.RecordValue? && Encodable(v) && Arranges(given, v)
    ensures ReadRecord(WriteBody(given) + rest) == Parsed(v, rest)
  {
    hide WriteCounted, ReadCounted, WriteField, ReadField, Sort, Increasing, HasNameTwins, ScalarOk, FieldNameOk;
    Sequences.PermutedMembers(given.fields, v.fields);
    forall i | 0 <= i < |given.fields| ensures FieldOk(given.fields[i]) {
      assert given.fields[i] in v.fields;
    }
    FieldsRoundTrip(given.fields);
    CountedRoundTrip(WriteField, ReadField, MAX_RECORD_FIELDS, given.fields, rest);
    FieldsStay(v.fields);
    RecordFactoryIgnoresOrder(given.fields, v.fields);
  }

  /** The decoder reads a value off the front of its input exactly when the decoder can carry the value
      and the input starts with its encoding, the members of a set or record in some order. */
  lemma ReadExactly(input: seq<byte>, v: CapabilityValue, rest: seq<byte>)
    ensures ReadValue(input) == Parsed(v, rest) <==>
              Encodable(v) && exists given :: Arranges(given, v) && input == WriteValue(given) + rest
  {
    hide ReadBody, WriteBody, Encodable, Arranges, ReadU8, WriteU8;
    if ReadValue(input) == Parsed(v, rest) {
      DecodedIsCanonical(input);
      UnsignedIsWritten(input);
      var tag := ReadU8(input);
      var given := BodyIsWritten(tag.value, tag.rest);
      assert input == WriteValue(given) + rest;
    }
    if Encodable(v) && exists given :: Arranges(given, v) && input == WriteValue(given) + rest {
      var given :| Arranges(given, v) && input == WriteValue(given) + rest;
      SameTag(given, v);
      assert input == WriteU8(KindTag(v)) + (WriteBody(given) + rest);
      NumberRoundTrips(KindTag(v), WriteBody(given) + rest);
      ArrangementIsRead(given, v, rest);
    }
  }

  lemma SameTag(given: CapabilityValue, v: CapabilityValue)
    requires Arranges(given, v)
    ensures KindTag(given) == KindTag(v) < 256
  {
  }
}
