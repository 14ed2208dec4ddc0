/** The encoder and decoder of capability values as they run: appending to a writer
    and advancing a reader in loops, proved against the functions of ValueCodec. */
module ValueStreams {
  import opened Values
  import opened Bytes
  import opened Orderings
  import opened ValueCodec

  // ----- writing lists -----

  lemma WriteListStep<T>(write: T -> seq<byte>, items: seq<T>, k: nat)
    requires k < |items|
    ensures WriteList(write, items[..k + 1]) == WriteList(write, items[..k]) + write(items[k])
  {
    assert items[..k + 1][..k] == items[..k];
  }

  method EncodeNumbers(writer: ByteWriter, width: nat, values: seq<nat>, ghost write: nat -> seq<byte>)
    requires forall n :: write(n) == LittleEndian(n, width)
    modifies writer
    ensures writer.out == old(writer.out) + WriteList(write, values)
  {
    for k := 0 to |values|
      invariant writer.out == old(writer.out) + WriteList(write, values[..k])
    {
      WriteListStep(write, values, k);
      writer.Unsigned(values[k], width);
    }
    assert values[..|values|] == values;
  }

  /** Identifier and text types never hold more than the writer accepts. */
  predicate ScalarTextFits(s: Scalar) {
    match s
    case Enumeration(domain, _) => |domain| <= MAX_DOMAIN_LENGTH
    case TextScalar(text) => |text| <= MAX_TEXT_LENGTH
    case _ => true
  }

  predicate TupleTextsFit(elements: Tuple) { forall i :: 0 <= i < |elements| ==> ScalarTextFits(elements[i]) }

  predicate FieldTextsFit(field: Field) { |field.name| <= MAX_FIELD_NAME_LENGTH && ScalarTextFits(field.value) }

  predicate TextsFit(v: CapabilityValue) {
    match v
    case EnumerationValue(domain, _) => |domain| <= MAX_DOMAIN_LENGTH
    case TupleValue(elements) => TupleTextsFit(elements)
    case TupleSetValue(tuples) => forall i :: 0 <= i < |tuples| ==> TupleTextsFit(tuples[i])
    case RecordValue(fields) => forall i :: 0 <= i < |fields| ==> FieldTextsFit(fields[i])
    case OpaqueValue(encoding, payload) => |encoding| <= MAX_ENCODING_LENGTH && |payload| <= MAX_PAYLOAD_BYTES
    case EnumSetValue(domain, _) => |domain| <= MAX_DOMAIN_LENGTH
    case _ => true
  }

  /** Whatever the decoder can produce can be written. */
  lemma EncodableTextsFit(v: CapabilityValue)
    requires Encodable(v)
    ensures TextsFit(v)
  {
  }

  method EncodeScalar(writer: ByteWriter, s: Scalar)
    requires ScalarTextFits(s)
    modifies writer
    ensures writer.out == old(writer.out) + WriteScalar(s)
  {
    hide WriteSigned, WriteBool, LittleEndian;
    writer.Unsigned(KindCode(s), 1);
    match s
    case Boolean(b) => writer.Bool(b);
    case Signed(i) => writer.Signed(i);
    case Unsigned(n) => writer.Unsigned(n, 8);
    case Enumeration(domain, code) =>
      var _ := writer.String(domain, MAX_DOMAIN_LENGTH, TextTooLong);
      writer.Unsigned(code, 4);
    case TextScalar(text) => var _ := writer.String(text, MAX_TEXT_LENGTH, TextTooLong);
  }

  method EncodeTuple(writer: ByteWriter, elements: Tuple)
    requires TupleTextsFit(elements)
    modifies writer
    ensures writer.out == old(writer.out) + WriteTuple(elements)
  {
    hide WriteScalar, ScalarTextFits, LittleEndian;
    writer.Unsigned(|elements|, 4);
    for k := 0 to |elements|
      invariant writer.out == old(writer.out) + WriteU32(|elements|) + WriteList(WriteScalar, elements[..k])
    {
      WriteListStep(WriteScalar, elements, k);
      EncodeScalar(writer, elements[k]);
    }
    assert elements[..|elements|] == elements;
  }

  method EncodeTuples(writer: ByteWriter, tuples: seq<Tuple>)
    requires forall i :: 0 <= i < |tuples| ==> TupleTextsFit(tuples[i])
    modifies writer
    ensures writer.out == old(writer.out) + WriteCounted(WriteTuple, tuples)
  {
    hide WriteTuple, TupleTextsFit, LittleEndian;
    writer.Unsigned(|tuples|, 4);
    for k := 0 to |tuples|
      invariant writer.out == old(writer.out) + WriteU32(|tuples|) + WriteList(WriteTuple, tuples[..k])
    {
      WriteListStep(WriteTuple, tuples, k);
      EncodeTuple(writer, tuples[k]);
    }
    assert tuples[..|tuples|] == tuples;
  }

  method EncodeFields(writer: ByteWriter, fields: seq<Field>)
    requires forall i :: 0 <= i < |fields| ==> FieldTextsFit(fields[i])
    modifies writer
    ensures writer.out == old(writer.out) + WriteCounted(WriteField, fields)
  {
    hide WriteString, WriteScalar, ScalarTextFits, LittleEndian;
    writer.Unsigned(|fields|, 4);
    for k := 0 to |fields|
      invariant writer.out == old(writer.out) + WriteU32(|fields|) + WriteList(WriteField, fields[..k])
    {
      WriteListStep(WriteField, fields, k);
      var _ := writer.String(fields[k].name, MAX_FIELD_NAME_LENGTH, TextTooLong);
      EncodeScalar(writer, fields[k].value);
    }
    assert fields[..|fields|] == fields;
  }

  method EncodeVersion(writer: ByteWriter, v: Version)
    modifies writer
    ensures writer.out == old(writer.out) + WriteVersion(v)
  {
    hide LittleEndian;
    writer.Unsigned(|v.components|, 1);
    EncodeNumbers(writer, 4, v.components, WriteU32);
  }

  predicate IsCollection(v: CapabilityValue) {
    v.BitSetValue? || v.NumericSetValue? || v.ProtocolSetValue? || v.TupleSetValue? || v.RecordValue? || v.EnumSetValue?
  }

  method EncodeCollection(writer: ByteWriter, v: CapabilityValue)
    requires IsCollection(v) && TextsFit(v)
    modifies writer
    ensures writer.out == old(writer.out) + WriteBody(v)
  {
    hide LittleEndian, WriteList, WriteString, WriteTuple, WriteField, WriteScalar, TupleTextsFit, FieldTextsFit;
    match v
    case BitSetValue(bitCount, words) =>
      writer.Unsigned(bitCount, 4);
      writer.Unsigned(|words|, 4);
      EncodeNumbers(writer, 8, words, WriteU64);
    case NumericSetValue(unit, values) =>
      writer.Unsigned(unit, 1);
      writer.Unsigned(|values|, 4);
      EncodeNumbers(writer, 8, values, WriteU64);
    case ProtocolSetValue(protocols) =>
      writer.Unsigned(|protocols|, 4);
      EncodeNumbers(writer, 2, protocols, WriteU16);
    case TupleSetValue(tuples) => EncodeTuples(writer, tuples);
    case RecordValue(fields) => EncodeFields(writer, fields);
    case EnumSetValue(domain, codes) =>
      var _ := writer.String(domain, MAX_DOMAIN_LENGTH, TextTooLong);
      writer.Unsigned(|codes|, 4);
      EncodeNumbers(writer, 4, codes, WriteU32);
  }

  method EncodeVersionInterval(writer: ByteWriter, v: CapabilityValue)
    requires v.VersionIntervalValue?
    modifies writer
    ensures writer.out == old(writer.out) + WriteBody(v)
  {
    hide WriteVersion, WriteBool;
    EncodeVersion(writer, v.lower);
    writer.Bool(v.lowerInclusive);
    EncodeVersion(writer, v.upper);
    writer.Bool(v.upperInclusive);
  }

  predicate IsNamed(v: CapabilityValue) { v.EnumerationValue? || v.OpaqueValue? }

  method EncodeNamed(writer: ByteWriter, v: CapabilityValue)
    requires IsNamed(v) && TextsFit(v)
    modifies writer
    ensures writer.out == old(writer.out) + WriteBody(v)
  {
    hide LittleEndian, WriteString;
    match v
    case EnumerationValue(domain, code) =>
      var _ := writer.String(domain, MAX_DOMAIN_LENGTH, TextTooLong);
      writer.Unsigned(code, 4);
    case OpaqueValue(encoding, payload) =>
      var _ := writer.String(encoding, MAX_ENCODING_LENGTH, TextTooLong);
      var _ := writer.String(payload, MAX_PAYLOAD_BYTES, PayloadTooLarge);
  }

  method EncodeSimple(writer: ByteWriter, v: CapabilityValue)
    requires !IsCollection(v) && !IsNamed(v) && TextsFit(v)
    modifies writer
    ensures writer.out == old(writer.out) + WriteBody(v)
  {
    hide LittleEndian, WriteBool, WriteSigned, WriteTuple, WriteVersion, TupleTextsFit;
    match v
    case Absent =>
    case BooleanValue(b) => writer.Bool(b);
    case IntegerValue(i) => writer.Signed(i);
    case QuantityValue(amount, unit) =>
      writer.Unsigned(amount, 8);
      writer.Unsigned(unit, 1);
    case NumericRangeValue(unit, minimum, maximum) =>
      writer.Unsigned(unit, 1);
      writer.Unsigned(minimum, 8);
      writer.Unsigned(maximum, 8);
    case VersionIntervalValue(_, _, _, _) => EncodeVersionInterval(writer, v);
    case TupleValue(elements) => EncodeTuple(writer, elements);
  }

  /** Encode: the kind tag and then the body. */
  method EncodeValue(writer: ByteWriter, v: CapabilityValue)
    requires TextsFit(v)
    modifies writer
    ensures writer.out == old(writer.out) + WriteValue(v)
  {
    hide LittleEndian, WriteBody, TextsFit;
    writer.Unsigned(KindTag(v), 1);
    if IsCollection(v) {
      EncodeCollection(writer, v);
    } else if IsNamed(v) {
      EncodeNamed(writer, v);
    } else {
      EncodeSimple(writer, v);
    }
  }

  // ----- reading lists -----

  /** A list that fails part of the way fails as a whole, with the same error. */
  lemma {:induction false} ListFailureSticks<T>(read: seq<byte> -> Parse<T>, k: nat, count: nat, input: seq<byte>)
    requires k <= count && ReadList(read, k, input).Failed?
    ensures ReadList(read, count, input) == ReadList(read, k, input)
    decreases count
  {
    if k < count {
      ListFailureSticks(read, k, count - 1, input);
    }
  }

  method DecodeNumbers(reader: ByteReader, width: nat, count: nat, ghost read: seq<byte> -> Parse<nat>)
    returns (outcome: Result<seq<nat>>)
    requires reader.Valid() && forall input :: read(input) == ReadUnsigned(input, width)
    modifies reader
    ensures reader.Valid() && Agrees(outcome, ReadList(read, count, old(reader.Left())), reader.Left())
  {
    hide ReadUnsigned;
    var values: seq<nat> := [];
    for k := 0 to count
      invariant reader.Valid() && ReadList(read, k, old(reader.Left())) == Parsed(values, reader.Left())
    {
      var value := reader.Unsigned(width);
      match value
      case Err(error) =>
        ListFailureSticks(read, k + 1, count, old(reader.Left()));
        return Err(error);
      case Ok(n) => values := values + [n];
    }
    return Ok(values);
  }

  method DecodeDomain(reader: ByteReader) returns (outcome: Result<Text>)
    requires reader.Valid()
    modifies reader
    ensures reader.Valid() && Agrees(outcome, ReadDomain(old(reader.Left())), reader.Left())
  {
    hide ReadText, LowerToken;
    var text := reader.Text(MAX_DOMAIN_LENGTH);
    match text
    case Err(error) => return Err(error);
    case Ok(domain) => return if DomainOk(domain) then Ok(domain) else Err(MalformedIdentifier);
  }

  method DecodeEnumerationScalar(reader: ByteReader) returns (outcome: Result<Scalar>)
    requires reader.Valid()
    modifies reader
    ensures reader.Valid() && Agrees(outcome, ReadScalarBody(3, old(reader.Left())), reader.Left())
  {
    hide ReadDomain, ReadUnsigned;
    var domain := DecodeDomain(reader);
    match domain
    case Err(error) => return Err(error);
    case Ok(text) =>
      var code := reader.Unsigned(4);
      match code
      case Err(error) => return Err(error);
      case Ok(n) => return Ok(Enumeration(text, n));
  }

  method DecodeScalar(reader: ByteReader) returns (outcome: Result<Scalar>)
    requires reader.Valid()
    modifies reader
    ensures reader.Valid() && Agrees(outcome, ReadScalar(old(reader.Left())), reader.Left())
  {
    hide ReadUnsigned, ReadDomain, ReadText, ReadBool, ReadSigned;
    var kind := reader.Unsigned(1);
    match kind
    case Err(error) => return Err(error);
    case Ok(code) =>
      match code {
        case 0 =>
          var flag := reader.Bool();
          return if flag.Err? then Err(flag.error) else Ok(Boolean(flag.value));
        case 1 =>
          var integer := reader.Signed();
          return if integer.Err? then Err(integer.error)
            else if integer.value > MAX_INTEGER || integer.value < -MAX_INTEGER then Err(ValueOutOfRange)
            else Ok(Signed(integer.value));
        case 2 =>
          var quantity := reader.Unsigned(8);
          return if quantity.Err? then Err(quantity.error)
            else if quantity.value > MAX_QUANTITY then Err(ValueOutOfRange)
            else Ok(Unsigned(quantity.value));
        case 3 => outcome := DecodeEnumerationScalar(reader);
        case 4 =>
          var text := reader.Text(MAX_TEXT_LENGTH);
          return if text.Err? then Err(text.error)
            else if text.value == [] then Err(TextTooLong)
            else Ok(TextScalar(text.value));
        case _ => return Err(MalformedEncoding);
      }
  }

  method DecodeScalars(reader: ByteReader, count: nat) returns (outcome: Result<seq<Scalar>>)
    requires reader.Valid()
    modifies reader
    ensures reader.Valid() && Agrees(outcome, ReadList(ReadScalar, count, old(reader.Left())), reader.Left())
  {
    hide ReadScalar;
    var elements: seq<Scalar> := [];
    for k := 0 to count
      invariant reader.Valid() && ReadList(ReadScalar, k, old(reader.Left())) == Parsed(elements, reader.Left())
    {
      var element := DecodeScalar(reader);
      match element
      case Err(error) =>
        ListFailureSticks(ReadScalar, k + 1, count, old(reader.Left()));
        return Err(error);
      case Ok(s) => elements := elements + [s];
    }
    return Ok(elements);
  }

  method DecodeTuple(reader: ByteReader) returns (outcome: Result<Tuple>)
    requires reader.Valid()
    modifies reader
    ensures reader.Valid() && Agrees(outcome, ReadTuple(old(reader.Left())), reader.Left())
  {
    hide ReadUnsigned, ReadList;
    var arity := reader.Unsigned(4);
    match arity
    case Err(error) => return Err(error);
    case Ok(count) =>
      if !ArityOk(count) {
        return Err(ValueOutOfRange);
      }
      outcome := DecodeScalars(reader, count);
  }

  method DecodeTuples(reader: ByteReader, count: nat) returns (outcome: Result<seq<Tuple>>)
    requires reader.Valid()
    modifies reader
    ensures reader.Valid() && Agrees(outcome, ReadList(ReadTuple, count, old(reader.Left())), reader.Left())
  {
    hide ReadTuple;
    var tuples: seq<Tuple> := [];
    for k := 0 to count
      invariant reader.Valid() && ReadList(ReadTuple, k, old(reader.Left())) == Parsed(tuples, reader.Left())
    {
      var tuple := DecodeTuple(reader);
      match tuple
      case Err(error) =>
        ListFailureSticks(ReadTuple, k + 1, count, old(reader.Left()));
        return Err(error);
      case Ok(elements) => tuples := tuples + [elements];
    }
    return Ok(tuples);
  }

  method DecodeField(reader: ByteReader) returns (outcome: Result<Field>)
    requires reader.Valid()
    modifies reader
    ensures reader.Valid() && Agrees(outcome, ReadField(old(reader.Left())), reader.Left())
  {
    hide ReadText, ReadScalar;
    var name := reader.Text(MAX_FIELD_NAME_LENGTH);
    match name
    case Err(error) => return Err(error);
    case Ok(text) =>
      var value := DecodeScalar(reader);
      match value
      case Err(error) => return Err(error);
      case Ok(scalar) => return Ok(Field(text, scalar));
  }

  method DecodeFields(reader: ByteReader, count: nat) returns (outcome: Result<seq<Field>>)
    requires reader.Valid()
    modifies reader
    ensures reader.Valid() && Agrees(outcome, ReadList(ReadField, count, old(reader.Left())), reader.Left())
  {
    hide ReadField;
    var fields: seq<Field> := [];
    for k := 0 to count
      invariant reader.Valid() && ReadList(ReadField, k, old(reader.Left())) == Parsed(fields, reader.Left())
    {
      var field := DecodeField(reader);
      match field
      case Err(error) =>
        ListFailureSticks(ReadField, k + 1, count, old(reader.Left()));
        return Err(error);
      case Ok(f) => fields := fields + [f];
    }
    return Ok(fields);
  }

  method DecodeComponents(reader: ByteReader, count: nat) returns (outcome: Result<seq<nat>>)
    requires reader.Valid()
    modifies reader
    ensures reader.Valid() && Agrees(outcome, ReadList(ReadComponent, count, old(reader.Left())), reader.Left())
  {
    hide ReadUnsigned;
    var components: seq<nat> := [];
    for k := 0 to count
      invariant reader.Valid() && ReadList(ReadComponent, k, old(reader.Left())) == Parsed(components, reader.Left())
    {
      var component := reader.Unsigned(4);
      if component.Err? || component.value > MAX_VERSION_COMPONENT {
        ListFailureSticks(ReadComponent, k + 1, count, old(reader.Left()));
        return Err(if component.Err? then component.error else ValueOutOfRange);
      }
      components := components + [component.value];
    }
    return Ok(components);
  }

  method DecodeVersion(reader: ByteReader) returns (outcome: Result<Version>)
    requires reader.Valid()
    modifies reader
    ensures reader.Valid() && Agrees(outcome, ReadVersion(old(reader.Left())), reader.Left())
  {
    hide ReadUnsigned, ReadList;
    var counted := reader.Unsigned(1);
    match counted
    case Err(error) => return Err(error);
    case Ok(count) =>
      if count < 1 || count > MAX_VERSION_COMPONENTS {
        return Err(MalformedEncoding);
      }
      var components := DecodeComponents(reader, count);
      match components
      case Err(error) => return Err(error);
      case Ok(list) => return Ok(Version(list));
  }

  // ----- reading values -----

  method DecodeUnit(reader: ByteReader) returns (outcome: Result<nat>)
    requires reader.Valid()
    modifies reader
    ensures reader.Valid() && Agrees(outcome, ReadUnit(old(reader.Left())), reader.Left())
  {
    hide ReadUnsigned;
    var unit := reader.Unsigned(1);
    return if unit.Ok? && unit.value > MAX_UNIT then Err(MalformedEncoding) else unit;
  }

  method DecodeQuantity(reader: ByteReader) returns (outcome: Result<CapabilityValue>)
    requires reader.Valid()
    modifies reader
    ensures reader.Valid() && Agrees(outcome, ReadQuantity(old(reader.Left())), reader.Left())
  {
    hide ReadUnsigned, ReadUnit, MakeQuantity;
    var amount := reader.Unsigned(8);
    if amount.Err? {
      return Err(amount.error);
    }
    var unit := DecodeUnit(reader);
    if unit.Err? {
      return Err(unit.error);
    }
    return MakeQuantity(amount.value, unit.value);
  }

  method DecodeEnumeration(reader: ByteReader) returns (outcome: Result<CapabilityValue>)
    requires reader.Valid()
    modifies reader
    ensures reader.Valid() && Agrees(outcome, ReadEnumeration(old(reader.Left())), reader.Left())
  {
    hide ReadUnsigned, ReadDomain;
    var domain := DecodeDomain(reader);
    if domain.Err? {
      return Err(domain.error);
    }
    var code := reader.Unsigned(4);
    if code.Err? {
      return Err(code.error);
    }
    return Ok(EnumerationValue(domain.value, code.value));
  }

  method DecodeBitSet(reader: ByteReader) returns (outcome: Result<CapabilityValue>)
    requires reader.Valid()
    modifies reader
    ensures reader.Valid() && Agrees(outcome, ReadBitSet(old(reader.Left())), reader.Left())
  {
    hide ReadUnsigned, ReadList, MakeBitSet;
    var bitCount := reader.Unsigned(4);
    if bitCount.Err? {
      return Err(bitCount.error);
    }
    var count := reader.Unsigned(4);
    if count.Err? {
      return Err(count.error);
    }
    var expected := WordsForBits(bitCount.value);
    if count.value != expected || expected > WordsForBits(MAX_BIT_SET_BITS) {
      return Err(ValueNotCanonical);
    }
    var words := DecodeNumbers(reader, 8, expected, ReadU64);
    if words.Err? {
      return Err(words.error);
    }
    return MakeBitSet(bitCount.value, words.value);
  }

  method DecodeCount(reader: ByteReader, limit: nat) returns (outcome: Result<nat>)
    requires reader.Valid()
    modifies reader
    ensures reader.Valid()
    ensures match ReadU32(old(reader.Left()))
            case Failed(error) => outcome == Err(error)
            case Parsed(count, rest) =>
              if count > limit then outcome == Err(TooManyItems) else outcome == Ok(count) && reader.Left() == rest
  {
    hide ReadUnsigned;
    var count := reader.Unsigned(4);
    return if count.Ok? && count.value > limit then Err(TooManyItems) else count;
  }

  method DecodeCountedNumbers(reader: ByteReader, limit: nat, width: nat, ghost read: seq<byte> -> Parse<nat>)
    returns (outcome: Result<seq<nat>>)
    requires reader.Valid() && forall input :: read(input) == ReadUnsigned(input, width)
    modifies reader
    ensures reader.Valid() && Agrees(outcome, ReadCounted(read, limit, old(reader.Left())), reader.Left())
  {
    hide ReadUnsigned, ReadList;
    var count := DecodeCount(reader, limit);
    if count.Err? {
      return Err(count.error);
    }
    outcome := DecodeNumbers(reader, width, count.value, read);
  }

  /** The one set whose members must already be in order. */
  method DecodeNumericSet(reader: ByteReader) returns (outcome: Result<CapabilityValue>)
    requires reader.Valid()
    modifies reader
    ensures reader.Valid() && Agrees(outcome, ReadNumericSet(old(reader.Left())), reader.Left())
  {
    hide ReadUnsigned, ReadUnit, ReadCounted, MakeNumericSet;
    var unit := DecodeUnit(reader);
    if unit.Err? {
      return Err(unit.error);
    }
    var values := DecodeCountedNumbers(reader, MAX_SET_CARDINALITY, 8, ReadU64);
    if values.Err? {
      return Err(values.error);
    }
    var index := 1;
    while index < |values.value|
      invariant 1 <= index
      invariant forall i :: 0 < i < index && i < |values.value| ==> NatLess(values.value[i - 1], values.value[i])
    {
      if values.value[index - 1] >= values.value[index] {
        return Err(ValueNotCanonical);
      }
      index := index + 1;
    }
    return MakeNumericSet(unit.value, values.value);
  }

  method DecodeNumericRange(reader: ByteReader) returns (outcome: Result<CapabilityValue>)
    requires reader.Valid()
    modifies reader
    ensures reader.Valid() && Agrees(outcome, ReadNumericRange(old(reader.Left())), reader.Left())
  {
    hide ReadUnsigned, ReadUnit, MakeNumericRange;
    var unit := DecodeUnit(reader);
    if unit.Err? {
      return Err(unit.error);
    }
    var minimum := reader.Unsigned(8);
    if minimum.Err? {
      return Err(minimum.error);
    }
    var maximum := reader.Unsigned(8);
    if maximum.Err? {
      return Err(maximum.error);
    }
    return MakeNumericRange(unit.value, minimum.value, maximum.value);
  }

  method DecodeVersionInterval(reader: ByteReader) returns (outcome: Result<CapabilityValue>)
    requires reader.Valid()
    modifies reader
    ensures reader.Valid() && Agrees(outcome, ReadVersionInterval(old(reader.Left())), reader.Left())
  {
    hide ReadVersion, ReadBool, MakeVersionInterval;
    var lower := DecodeVersion(reader);
    if lower.Err? {
      return Err(lower.error);
    }
    var lowerInclusive := reader.Bool();
    if lowerInclusive.Err? {
      return Err(lowerInclusive.error);
    }
    var upper := DecodeVersion(reader);
    if upper.Err? {
      return Err(upper.error);
    }
    var upperInclusive := reader.Bool();
    if upperInclusive.Err? {
      return Err(upperInclusive.error);
    }
    return MakeVersionInterval(lower.value, lowerInclusive.value, upper.value, upperInclusive.value);
  }

  method DecodeProtocolSet(reader: ByteReader) returns (outcome: Result<CapabilityValue>)
    requires reader.Valid()
    modifies reader
    ensures reader.Valid() && Agrees(outcome, ReadProtocolSet(old(reader.Left())), reader.Left())
  {
    hide ReadUnsigned, ReadCounted, MakeProtocolSet;
    var protocols := DecodeCountedNumbers(reader, MAX_PROTOCOLS, 2, ReadU16);
    return if protocols.Err? then Err(protocols.error) else MakeProtocolSet(protocols.value);
  }

  method DecodeTupleSet(reader: ByteReader) returns (outcome: Result<CapabilityValue>)
    requires reader.Valid()
    modifies reader
    ensures reader.Valid() && Agrees(outcome, ReadTupleSet(old(reader.Left())), reader.Left())
  {
    hide ReadUnsigned, ReadList, MakeTupleSet;
    var count := DecodeCount(reader, MAX_TUPLE_SET_CARDINALITY);
    if count.Err? {
      return Err(count.error);
    }
    var tuples := DecodeTuples(reader, count.value);
    return if tuples.Err? then Err(tuples.error) else MakeTupleSet(tuples.value);
  }

  method DecodeRecord(reader: ByteReader) returns (outcome: Result<CapabilityValue>)
    requires reader.Valid()
    modifies reader
    ensures reader.Valid() && Agrees(outcome, ReadRecord(old(reader.Left())), reader.Left())
  {
    hide ReadUnsigned, ReadList, MakeRecord;
    var count := DecodeCount(reader, MAX_RECORD_FIELDS);
    if count.Err? {
      return Err(count.error);
    }
    var fields := DecodeFields(reader, count.value);
    return if fields.Err? then Err(fields.error) else MakeRecord(fields.value);
  }

  method DecodeOpaque(reader: ByteReader) returns (outcome: Result<CapabilityValue>)
    requires reader.Valid()
    modifies reader
    ensures reader.Valid() && Agrees(outcome, ReadOpaque(old(reader.Left())), reader.Left())
  {
    hide ReadText, ReadString, MakeOpaque;
    var encoding := reader.Text(MAX_ENCODING_LENGTH);
    if encoding.Err? {
      return Err(encoding.error);
    }
    var payload := reader.String(MAX_PAYLOAD_BYTES, PayloadTooLarge);
    if payload.Err? {
      return Err(payload.error);
    }
    return MakeOpaque(encoding.value, payload.value);
  }

  method DecodeEnumSet(reader: ByteReader) returns (outcome: Result<CapabilityValue>)
    requires reader.Valid()
    modifies reader
    ensures reader.Valid() && Agrees(outcome, ReadEnumSet(old(reader.Left())), reader.Left())
  {
    hide ReadUnsigned, ReadDomain, ReadCounted, MakeEnumSet;
    var domain := DecodeDomain(reader);
    if domain.Err? {
      return Err(domain.error);
    }
    var codes := DecodeCountedNumbers(reader, MAX_SET_CARDINALITY, 4, ReadU32);
    return if codes.Err? then Err(codes.error) else MakeEnumSet(domain.value, codes.value);
  }

  /** Decode: the kind tag selects the body. */
  method DecodeValue(reader: ByteReader) returns (outcome: Result<CapabilityValue>)
    requires reader.Valid()
    modifies reader
    ensures reader.Valid() && Agrees(outcome, ReadValue(old(reader.Left())), reader.Left())
  {
    hide ReadUnsigned, ReadBool, ReadSigned, ReadQuantity, ReadEnumeration, ReadBitSet, ReadNumericSet,
      ReadNumericRange, ReadVersionInterval, ReadProtocolSet, ReadTuple, ReadTupleSet, ReadRecord, ReadOpaque,
      ReadEnumSet;
    var kind := reader.Unsigned(1);
    if kind.Err? {
      return Err(kind.error);
    }
    match kind.value {
      case 0 => return Ok(Absent);
      case 1 =>
        var flag := reader.Bool();
        return if flag.Err? then Err(flag.error) else Ok(BooleanValue(flag.value));
      case 2 =>
        var integer := reader.Signed();
        return if integer.Err? then Err(integer.error)
          else if integer.value > MAX_INTEGER || integer.value < -MAX_INTEGER then Err(ValueOutOfRange)
          else Ok(IntegerValue(integer.value));
      case 3 => outcome := DecodeQuantity(reader);
      case 4 => outcome := DecodeEnumeration(reader);
      case 5 => outcome := DecodeBitSet(reader);
      case 6 => outcome := DecodeNumericSet(reader);
      case 7 => outcome := DecodeNumericRange(reader);
      case 8 => outcome := DecodeVersionInterval(reader);
      case 9 => outcome := DecodeProtocolSet(reader);
      case 10 =>
        var tuple := DecodeTuple(reader);
        return if tuple.Err? then Err(tuple.error) else MakeTuple(tuple.value);
      case 11 => outcome := DecodeTupleSet(reader);
      case 12 => outcome := DecodeRecord(reader);
      case 13 => outcome := DecodeOpaque(reader);
      case 14 => outcome := DecodeEnumSet(reader);
      case _ => return Err(MalformedEncoding);
    }
  }
}
