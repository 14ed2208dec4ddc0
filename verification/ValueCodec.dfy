/** The binary form of capability values: factories that make values canonical,
    the encoder and the decoder. Decoding inverts encoding on every value the
    decoder can produce, and everything it produces is canonical. */
module ValueCodec {
  import opened Values
  import opened Bytes
  import opened Orderings

  // ----- bounds -----

  const MAX_SET_CARDINALITY: nat := 4096
  const MAX_BIT_SET_BITS: nat := 4096
  const MAX_TUPLE_ARITY: nat := 8
  const MAX_RECORD_FIELDS: nat := 32
  const MAX_TUPLE_SET_CARDINALITY: nat := 1024
  const MAX_PAYLOAD_BYTES: nat := 65536
  const MAX_PROTOCOLS: nat := 64
  const MAX_PROTOCOL: nat := 20
  const MAX_UNIT: nat := 12
  const MAX_TEXT_LENGTH: nat := 192
  const MAX_DOMAIN_LENGTH: nat := 96
  const MAX_FIELD_NAME_LENGTH: nat := 48
  const MAX_ENCODING_LENGTH: nat := 64
  const MAX_QUANTITY: nat := 0x4000_0000_0000_0000
  const MAX_INTEGER: int := 0x2000_0000_0000_0000
  const MAX_VERSION_COMPONENT: nat := 1_000_000_000
  const TWO_TO_32: nat := 0x1_0000_0000

  // ----- tokens -----

  predicate LowerAlphaNumeric(b: byte) { (0x61 <= b <= 0x7A) || (0x30 <= b <= 0x39) }

  /** One of the characters . _ - and /. */
  predicate Separator(b: byte) { b == 0x2E || b == 0x5F || b == 0x2D || b == 0x2F }

  predicate LowerToken(text: Text, limit: nat) {
    && 1 <= |text| <= limit
    && LowerAlphaNumeric(text[0]) && LowerAlphaNumeric(text[|text| - 1])
    && (forall i :: 0 <= i < |text| ==> LowerAlphaNumeric(text[i]) || Separator(text[i]))
    && (forall i :: 0 < i < |text| ==> !(Separator(text[i - 1]) && Separator(text[i])))
  }

  predicate PrintableToken(text: Text, limit: nat) {
    && 1 <= |text| <= limit
    && text[0] != 0x20 && text[|text| - 1] != 0x20
    && forall i :: 0 <= i < |text| ==> 0x20 <= text[i] <= 0x7E
  }

  lemma LowerTokensAreControlFree(text: Text, limit: nat)
    requires LowerToken(text, limit)
    ensures ControlFree(text)
  {
  }

  lemma PrintableTokensAreControlFree(text: Text, limit: nat)
    requires PrintableToken(text, limit)
    ensures ControlFree(text)
  {
  }

  // ----- item codecs -----

  function WriteU8(n: nat): seq<byte> { LittleEndian(n, 1) }
  function WriteU16(n: nat): seq<byte> { LittleEndian(n, 2) }
  function WriteU32(n: nat): seq<byte> { LittleEndian(n, 4) }
  function WriteU64(n: nat): seq<byte> { LittleEndian(n, 8) }

  function ReadU8(input: seq<byte>): Parse<nat> { ReadUnsigned(input, 1) }
  function ReadU16(input: seq<byte>): Parse<nat> { ReadUnsigned(input, 2) }
  function ReadU32(input: seq<byte>): Parse<nat> { ReadUnsigned(input, 4) }
  function ReadU64(input: seq<byte>): Parse<nat> { ReadUnsigned(input, 8) }

  lemma NumberRoundTrips(n: nat, rest: seq<byte>)
    ensures n < 256 ==> ReadU8(WriteU8(n) + rest) == Parsed(n, rest)
    ensures n < 65536 ==> ReadU16(WriteU16(n) + rest) == Parsed(n, rest)
    ensures n < TWO_TO_32 ==> ReadU32(WriteU32(n) + rest) == Parsed(n, rest)
    ensures n < TWO_TO_64 ==> ReadU64(WriteU64(n) + rest) == Parsed(n, rest)
  {
    hide LittleEndian, ReadUnsigned;
    Powers();
    if n < 256 { ReadWritten(n, 1, rest); }
    if n < 65536 { ReadWritten(n, 2, rest); }
    if n < TWO_TO_32 { ReadWritten(n, 4, rest); }
    if n < TWO_TO_64 { ReadWritten(n, 8, rest); }
  }

  lemma NumbersRead(input: seq<byte>)
    ensures ReadU8(input).Parsed? ==> ReadU8(input).value < 256
    ensures ReadU16(input).Parsed? ==> ReadU16(input).value < 65536
    ensures ReadU32(input).Parsed? ==> ReadU32(input).value < TWO_TO_32
    ensures ReadU64(input).Parsed? ==> ReadU64(input).value < TWO_TO_64
  {
    hide ReadUnsigned;
    Powers();
    if ReadU8(input).Parsed? { ReadIsWritten(input, 1); }
    if ReadU16(input).Parsed? { ReadIsWritten(input, 2); }
    if ReadU32(input).Parsed? { ReadIsWritten(input, 4); }
    if ReadU64(input).Parsed? { ReadIsWritten(input, 8); }
  }

  predicate DomainOk(domain: Text) { LowerToken(domain, MAX_DOMAIN_LENGTH) }

  function ReadDomain(input: seq<byte>): Parse<Text> {
    match ReadText(input, MAX_DOMAIN_LENGTH)
    case Failed(error) => Failed(error)
    case Parsed(text, rest) => if DomainOk(text) then Parsed(text, rest) else Failed(MalformedIdentifier)
  }

  lemma DomainRoundTrip(domain: Text, rest: seq<byte>)
    requires DomainOk(domain)
    ensures ReadDomain(WriteString(domain) + rest) == Parsed(domain, rest)
  {
    hide ReadText, WriteString, LowerToken;
    LowerTokensAreControlFree(domain, MAX_DOMAIN_LENGTH);
    assert |domain| <= MAX_DOMAIN_LENGTH by {
      TokenLength(domain, MAX_DOMAIN_LENGTH);
    }
    TextRoundTrip(domain, MAX_DOMAIN_LENGTH, rest);
  }

  lemma TokenLength(text: Text, limit: nat)
    ensures LowerToken(text, limit) ==> 1 <= |text| <= limit
    ensures PrintableToken(text, limit) ==> 1 <= |text| <= limit
  {
  }

  // ----- versions -----

  predicate VersionOk(v: Version) {
    1 <= |v.components| <= MAX_VERSION_COMPONENTS
    && forall i :: 0 <= i < |v.components| ==> v.components[i] <= MAX_VERSION_COMPONENT
  }

  function WriteVersion(v: Version): seq<byte> {
    WriteU8(|v.components|) + WriteList(WriteU32, v.components)
  }

  function ReadComponent(input: seq<byte>): Parse<nat> {
    match ReadU32(input)
    case Failed(error) => Failed(error)
    case Parsed(n, rest) => if n > MAX_VERSION_COMPONENT then Failed(ValueOutOfRange) else Parsed(n, rest)
  }

  function ReadVersion(input: seq<byte>): Parse<Version> {
    match ReadU8(input)
    case Failed(error) => Failed(error)
    case Parsed(count, rest) =>
      if count < 1 || count > MAX_VERSION_COMPONENTS then Failed(MalformedEncoding)
      else
        match ReadList(ReadComponent, count, rest)
        case Failed(error) => Failed(error)
        case Parsed(components, tail) => Parsed(Version(components), tail)
  }

  lemma VersionRoundTrip(v: Version, rest: seq<byte>)
    requires VersionOk(v)
    ensures ReadVersion(WriteVersion(v) + rest) == Parsed(v, rest)
  {
    hide ReadList, WriteList, ReadU8, WriteU8, ReadU32, WriteU32;
    var list := WriteList(WriteU32, v.components);
    assert WriteVersion(v) + rest == WriteU8(|v.components|) + (list + rest);
    NumberRoundTrips(|v.components|, list + rest);
    forall n | n in v.components ensures RoundTrips(WriteU32, ReadComponent, n) {
      forall r ensures ReadComponent(WriteU32(n) + r) == Parsed(n, r) {
        NumberRoundTrips(n, r);
      }
    }
    ListRoundTrip(WriteU32, ReadComponent, v.components, rest);
  }

  predicate ComponentOk(n: nat) { n <= MAX_VERSION_COMPONENT }

  lemma ReadVersionIsOk(input: seq<byte>)
    ensures ReadVersion(input).Parsed? ==> VersionOk(ReadVersion(input).value)
  {
    hide ReadU8;
    if ReadVersion(input).Parsed? {
      var counted := ReadU8(input);
      ListItemsWereRead(ReadComponent, ComponentOk, counted.value, counted.rest);
      var v := ReadVersion(input).value;
      assert forall i :: 0 <= i < |v.components| ==> v.components[i] in v.components;
    }
  }

  // ----- scalars -----

  predicate ScalarOk(s: Scalar) {
    match s
    case Boolean(_) => true
    case Signed(i) => -MAX_INTEGER <= i <= MAX_INTEGER
    case Unsigned(n) => n <= MAX_QUANTITY
    case Enumeration(domain, code) => DomainOk(domain) && code < TWO_TO_32
    case TextScalar(text) => 1 <= |text| <= MAX_TEXT_LENGTH && ControlFree(text)
  }

  function WriteScalar(s: Scalar): seq<byte> {
    WriteU8(KindCode(s)) +
    match s
    case Boolean(b) => WriteBool(b)
    case Signed(i) => WriteSigned(i)
    case Unsigned(n) => WriteU64(n)
    case Enumeration(domain, code) => WriteString(domain) + WriteU32(code)
    case TextScalar(text) => WriteString(text)
  }

  function ReadScalarBody(kind: nat, input: seq<byte>): Parse<Scalar> {
    match kind
    case 0 => (match ReadBool(input)
      case Failed(error) => Failed(error)
      case Parsed(b, rest) => Parsed(Boolean(b), rest))
    case 1 => (match ReadSigned(input)
      case Failed(error) => Failed(error)
      case Parsed(i, rest) =>
        if i > MAX_INTEGER || i < -MAX_INTEGER then Failed(ValueOutOfRange) else Parsed(Signed(i), rest))
    case 2 => (match ReadU64(input)
      case Failed(error) => Failed(error)
      case Parsed(n, rest) => if n > MAX_QUANTITY then Failed(ValueOutOfRange) else Parsed(Unsigned(n), rest))
    case 3 => (match ReadDomain(input)
      case Failed(error) => Failed(error)
      case Parsed(domain, rest) =>
        match ReadU32(rest)
        case Failed(error) => Failed(error)
        case Parsed(code, tail) => Parsed(Enumeration(domain, code), tail))
    case 4 => (match ReadText(input, MAX_TEXT_LENGTH)
      case Failed(error) => Failed(error)
      case Parsed(text, rest) => if text == [] then Failed(TextTooLong) else Parsed(TextScalar(text), rest))
    case _ => Failed(MalformedEncoding)
  }

  function ReadScalar(input: seq<byte>): Parse<Scalar> {
    match ReadU8(input)
    case Failed(error) => Failed(error)
    case Parsed(kind, rest) => ReadScalarBody(kind, rest)
  }

  lemma ScalarRoundTrip(s: Scalar, rest: seq<byte>)
    requires ScalarOk(s)
    ensures ReadScalar(WriteScalar(s) + rest) == Parsed(s, rest)
  {
    hide ReadU8, WriteU8, ReadU32, WriteU32, ReadU64, WriteU64, ReadText, WriteString, ReadBool, WriteBool, ReadSigned,
      WriteSigned, DomainOk, ControlFree, ReadDomain;
    var kind := KindCode(s);
    var body := WriteScalar(s)[|WriteU8(kind)|..];
    assert WriteScalar(s) + rest == WriteU8(kind) + (body + rest);
    NumberRoundTrips(kind, body + rest);
    match s
    case Boolean(b) =>
      assert body == WriteBool(b);
      BoolRoundTrip(b, rest);
    case Signed(i) =>
      assert body == WriteSigned(i);
      SignedRoundTrip(i, rest);
    case Unsigned(n) =>
      assert body == WriteU64(n);
      NumberRoundTrips(n, rest);
    case Enumeration(domain, code) =>
      assert body == WriteString(domain) + WriteU32(code);
      assert body + rest == WriteString(domain) + (WriteU32(code) + rest);
      DomainRoundTrip(domain, WriteU32(code) + rest);
      NumberRoundTrips(code, rest);
    case TextScalar(text) =>
      assert body == WriteString(text);
      TextRoundTrip(text, MAX_TEXT_LENGTH, rest);
  }

  lemma TextsRead(input: seq<byte>, limit: nat)
    ensures ReadText(input, limit).Parsed? ==>
              |ReadText(input, limit).value| <= limit && ControlFree(ReadText(input, limit).value)
  {
  }

  lemma ReadScalarIsOk(input: seq<byte>)
    ensures ReadScalar(input).Parsed? ==> ScalarOk(ReadScalar(input).value)
  {
    hide ReadU8, ReadU32, ReadU64, ReadText, ReadBool, ReadSigned, ControlFree, DomainOk;
    if ReadScalar(input).Parsed? {
      var kind := ReadU8(input);
      TextsRead(kind.rest, MAX_TEXT_LENGTH);
      match kind.value
      case 3 => NumbersRead(ReadDomain(kind.rest).rest);
      case _ =>
    }
  }

  lemma ScalarsRoundTrip(elements: seq<Scalar>, rest: seq<byte>)
    requires forall s :: s in elements ==> ScalarOk(s)
    ensures ReadList(ReadScalar, |elements|, WriteList(WriteScalar, elements) + rest) == Parsed(elements, rest)
  {
    hide ReadScalar, WriteScalar, ScalarOk;
    forall s | s in elements ensures RoundTrips(WriteScalar, ReadScalar, s) {
      forall r ensures ReadScalar(WriteScalar(s) + r) == Parsed(s, r) {
        ScalarRoundTrip(s, r);
      }
    }
    ListRoundTrip(WriteScalar, ReadScalar, elements, rest);
  }

  lemma ReadScalarsAreOk(count: nat, input: seq<byte>)
    requires ReadList(ReadScalar, count, input).Parsed?
    ensures forall s :: s in ReadList(ReadScalar, count, input).value ==> ScalarOk(s)
  {
    hide ReadScalar, ScalarOk;
    forall i ensures ReadScalar(i).Parsed? ==> ScalarOk(ReadScalar(i).value) {
      ReadScalarIsOk(i);
    }
    ListItemsWereRead(ReadScalar, ScalarOk, count, input);
  }

  // ----- factories -----

  predicate UnitOk(unit: nat) { 1 <= unit <= MAX_UNIT }

  predicate Ascending(values: seq<nat>) { Increasing(NatLess, values) }

  predicate NatLess(a: nat, b: nat) { a < b }

  predicate HasTwins<T(==)>(s: seq<T>) { exists i :: 0 < i < |s| && s[i - 1] == s[i] }

  function WordsForBits(bits: nat): nat { (bits + 63) / 64 }

  /** No bit at or above the bit count is set. */
  predicate BitsAboveCountAreClear(bitCount: nat, words: seq<nat>) {
    && |words| == WordsForBits(bitCount)
    && (bitCount % 64 != 0 ==> |words| > 0 && words[|words| - 1] < PowerOfTwo(bitCount % 64))
  }

  function MakeQuantity(amount: nat, unit: nat): Result<CapabilityValue> {
    if unit == 0 then Err(ValueTypeMismatch)
    else if amount > MAX_QUANTITY then Err(ValueOutOfRange)
    else Ok(QuantityValue(amount, unit))
  }

  function MakeBitSet(bitCount: nat, words: seq<nat>): Result<CapabilityValue> {
    if bitCount == 0 || bitCount > MAX_BIT_SET_BITS then Err(ValueOutOfRange)
    else if |words| != WordsForBits(bitCount) then Err(ValueNotCanonical)
    else if !BitsAboveCountAreClear(bitCount, words) then Err(ValueNotCanonical)
    else Ok(BitSetValue(bitCount, words))
  }

  function MakeNumericSet(unit: nat, values: seq<nat>): Result<CapabilityValue> {
    if unit == 0 then Err(ValueTypeMismatch)
    else if values == [] then Err(EmptyCollection)
    else if |values| > MAX_SET_CARDINALITY then Err(TooManyItems)
    else if exists i :: 0 <= i < |values| && values[i] > MAX_QUANTITY then Err(ValueOutOfRange)
    else
      var sorted := Sort(NatLess, values);
      if HasTwins(sorted) then Err(DuplicateValue) else Ok(NumericSetValue(unit, sorted))
  }

  function MakeNumericRange(unit: nat, minimum: nat, maximum: nat): Result<CapabilityValue> {
    if unit == 0 then Err(ValueTypeMismatch)
    else if minimum > maximum then Err(ValueContradiction)
    else if maximum > MAX_QUANTITY then Err(ValueOutOfRange)
    else Ok(NumericRangeValue(unit, minimum, maximum))
  }

  function MakeVersionInterval(lower: Version, lowerInclusive: bool, upper: Version, upperInclusive: bool)
    : Result<CapabilityValue>
  {
    if lower.components == [] || upper.components == [] then Err(ValueTypeMismatch)
    else if VersionLess(upper, lower) then Err(ValueContradiction)
    else if SameVersion(lower, upper) && (!lowerInclusive || !upperInclusive) then Err(ValueContradiction)
    else Ok(VersionIntervalValue(lower, upper, lowerInclusive, upperInclusive))
  }

  function MakeProtocolSet(protocols: seq<nat>): Result<CapabilityValue> {
    if protocols == [] then Err(EmptyCollection)
    else if |protocols| > MAX_PROTOCOLS then Err(TooManyItems)
    else if exists i :: 0 <= i < |protocols| && !ProtocolOk(protocols[i]) then Err(UnknownEnumDomain)
    else
      var sorted := Sort(NatLess, protocols);
      if HasTwins(sorted) then Err(DuplicateValue) else Ok(ProtocolSetValue(sorted))
  }

  predicate ProtocolOk(protocol: nat) { 1 <= protocol <= MAX_PROTOCOL }

  predicate ArityOk(arity: nat) { 2 <= arity <= MAX_TUPLE_ARITY }

  function MakeTuple(elements: Tuple): Result<CapabilityValue> {
    if !ArityOk(|elements|) then Err(ValueOutOfRange) else Ok(TupleValue(elements))
  }

  /** Neighbours that neither precede the other are duplicates. */
  predicate HasTupleTwins(s: seq<Tuple>) {
    exists i :: 0 < i < |s| && !TupleLess(s[i - 1], s[i]) && !TupleLess(s[i], s[i - 1])
  }

  function MakeTupleSet(tuples: seq<Tuple>): Result<CapabilityValue> {
    if tuples == [] then Err(EmptyCollection)
    else if |tuples| > MAX_TUPLE_SET_CARDINALITY then Err(TooManyItems)
    else if exists i :: 0 <= i < |tuples| && |tuples[i]| != |tuples[0]| then Err(ValueNotCanonical)
    else if !ArityOk(|tuples[0]|) then Err(ValueOutOfRange)
    else
      var sorted := Sort(TupleLess, tuples);
      if HasTupleTwins(sorted) then Err(DuplicateValue) else Ok(TupleSetValue(sorted))
  }

  predicate FieldLess(a: Field, b: Field) { TextLess(a.name, b.name) }

  predicate FieldNameOk(name: Text) { LowerToken(name, MAX_FIELD_NAME_LENGTH) }

  function MakeRecord(fields: seq<Field>): Result<CapabilityValue> {
    if fields == [] then Err(EmptyCollection)
    else if |fields| > MAX_RECORD_FIELDS then Err(TooManyItems)
    else if exists i :: 0 <= i < |fields| && !FieldNameOk(fields[i].name) then Err(MalformedIdentifier)
    else
      var sorted := Sort(FieldLess, fields);
      if HasNameTwins(sorted) then Err(DuplicateValue) else Ok(RecordValue(sorted))
  }

  predicate EncodingOk(encoding: Text) { PrintableToken(encoding, MAX_ENCODING_LENGTH) }

  function MakeOpaque(encoding: Text, payload: seq<byte>): Result<CapabilityValue> {
    if !EncodingOk(encoding) then Err(MalformedIdentifier)
    else if |payload| > MAX_PAYLOAD_BYTES then Err(PayloadTooLarge)
    else Ok(OpaqueValue(encoding, payload))
  }

  function MakeEnumSet(domain: Text, codes: seq<nat>): Result<CapabilityValue> {
    if codes == [] then Err(EmptyCollection)
    else if |codes| > MAX_SET_CARDINALITY then Err(TooManyItems)
    else
      var sorted := Sort(NatLess, codes);
      if HasTwins(sorted) then Err(DuplicateValue) else Ok(EnumSetValue(domain, sorted))
  }

  // ----- what the decoder can produce, and what is canonical -----

  /** Exactly the values the decoder produces. */
  predicate Encodable(v: CapabilityValue) {
    match v
    case Absent => true
    case BooleanValue(_) => true
    case IntegerValue(i) => -MAX_INTEGER <= i <= MAX_INTEGER
    case QuantityValue(amount, unit) => UnitOk(unit) && amount <= MAX_QUANTITY
    case EnumerationValue(domain, code) => DomainOk(domain) && code < TWO_TO_32
    case BitSetValue(bitCount, words) =>
      1 <= bitCount <= MAX_BIT_SET_BITS && BitsAboveCountAreClear(bitCount, words)
      && forall i :: 0 <= i < |words| ==> words[i] < TWO_TO_64
    case NumericSetValue(unit, values) =>
      UnitOk(unit) && 1 <= |values| <= MAX_SET_CARDINALITY && Ascending(values)
      && forall i :: 0 <= i < |values| ==> values[i] <= MAX_QUANTITY
    case NumericRangeValue(unit, minimum, maximum) => UnitOk(unit) && minimum <= maximum <= MAX_QUANTITY
    case VersionIntervalValue(lower, upper, lowerInclusive, upperInclusive) =>
      VersionOk(lower) && VersionOk(upper) && !VersionLess(upper, lower)
      && (SameVersion(lower, upper) ==> lowerInclusive && upperInclusive)
    case ProtocolSetValue(protocols) =>
      1 <= |protocols| <= MAX_PROTOCOLS && Ascending(protocols)
      && forall i :: 0 <= i < |protocols| ==> ProtocolOk(protocols[i])
    case TupleValue(elements) => TupleOk(elements)
    case TupleSetValue(tuples) =>
      1 <= |tuples| <= MAX_TUPLE_SET_CARDINALITY && Increasing(TupleLess, tuples)
      && forall i :: 0 <= i < |tuples| ==> TupleOk(tuples[i]) && |tuples[i]| == |tuples[0]|
    case RecordValue(fields) =>
      1 <= |fields| <= MAX_RECORD_FIELDS && Increasing(FieldLess, fields)
      && forall i :: 0 <= i < |fields| ==> FieldOk(fields[i])
    case OpaqueValue(encoding, payload) => EncodingOk(encoding) && |payload| <= MAX_PAYLOAD_BYTES
    case EnumSetValue(domain, codes) =>
      DomainOk(domain) && 1 <= |codes| <= MAX_SET_CARDINALITY && Ascending(codes)
      && forall i :: 0 <= i < |codes| ==> codes[i] < TWO_TO_32
  }

  predicate TupleOk(elements: Tuple) {
    ArityOk(|elements|) && forall i :: 0 <= i < |elements| ==> ScalarOk(elements[i])
  }

  predicate FieldOk(field: Field) { FieldNameOk(field.name) && ScalarOk(field.value) }

  ghost predicate SortedSet(values: seq<nat>, limit: nat) {
    1 <= |values| <= limit && Sorted(NatLess, values) && !HasTwins(values)
  }

  /** ValidateCanonical. */
  ghost predicate Canonical(v: CapabilityValue) {
    match v
    case Absent => true
    case BooleanValue(_) => true
    case IntegerValue(_) => true
    case QuantityValue(_, unit) => unit != 0
    case EnumerationValue(domain, _) => domain != []
    case BitSetValue(bitCount, words) => 1 <= bitCount <= MAX_BIT_SET_BITS && BitsAboveCountAreClear(bitCount, words)
    case NumericSetValue(unit, values) => SortedSet(values, MAX_SET_CARDINALITY) && unit != 0
    case NumericRangeValue(unit, minimum, maximum) => minimum <= maximum && unit != 0
    case VersionIntervalValue(lower, upper, lowerInclusive, upperInclusive) =>
      !VersionLess(upper, lower) && (SameVersion(lower, upper) ==> lowerInclusive && upperInclusive)
    case ProtocolSetValue(protocols) =>
      SortedSet(protocols, MAX_PROTOCOLS) && forall i :: 0 <= i < |protocols| ==> ProtocolOk(protocols[i])
    case TupleValue(elements) => ArityOk(|elements|)
    case TupleSetValue(tuples) =>
      1 <= |tuples| <= MAX_TUPLE_SET_CARDINALITY && Increasing(TupleLess, tuples)
      && forall i :: 0 <= i < |tuples| ==> |tuples[i]| == |tuples[0]|
    case RecordValue(fields) => 1 <= |fields| <= MAX_RECORD_FIELDS && Increasing(FieldLess, fields)
    case OpaqueValue(encoding, payload) => encoding != [] && |payload| <= MAX_PAYLOAD_BYTES
    case EnumSetValue(domain, codes) => domain != [] && SortedSet(codes, MAX_SET_CARDINALITY)
  }

  lemma AscendingIsSortedSet(values: seq<nat>, limit: nat)
    requires 1 <= |values| <= limit && Ascending(values)
    ensures SortedSet(values, limit)
  {
  }

  lemma EncodableIsCanonical(v: CapabilityValue)
    requires Encodable(v)
    ensures Canonical(v)
  {
    hide BitsAboveCountAreClear, Ascending, SortedSet, VersionLess, SameVersion, Increasing, ScalarOk, LowerToken,
      PrintableToken;
    match v
    case EnumerationValue(domain, _) => TokenLength(domain, MAX_DOMAIN_LENGTH);
    case NumericSetValue(_, values) => AscendingIsSortedSet(values, MAX_SET_CARDINALITY);
    case ProtocolSetValue(protocols) => AscendingIsSortedSet(protocols, MAX_PROTOCOLS);
    case OpaqueValue(encoding, _) => TokenLength(encoding, MAX_ENCODING_LENGTH);
    case EnumSetValue(domain, codes) =>
      TokenLength(domain, MAX_DOMAIN_LENGTH);
      AscendingIsSortedSet(codes, MAX_SET_CARDINALITY);
    case _ =>
  }

  // ----- sorting inside the factories -----

  lemma NatIsTotal()
    ensures StrictTotal(NatLess)
  {
  }

  /** A set factory keeps an ascending list as it is. */
  lemma AscendingStays(values: seq<nat>)
    requires Ascending(values)
    ensures Sort(NatLess, values) == values && !HasTwins(values)
  {
    IncreasingIsSorted(NatLess, values);
  }

  /** What a set factory lets through is ascending and has the same members. */
  lemma SortedNumbers(values: seq<nat>)
    ensures var sorted := Sort(NatLess, values);
            && (!HasTwins(sorted) ==> Ascending(sorted)) && |sorted| == |values|
            && forall x :: x in sorted <==> x in values
  {
    hide Sort;
    NatIsTotal();
    SortSorts(NatLess, values);
    SortKeepsElements(NatLess, values);
    var sorted := Sort(NatLess, values);
    if !HasTwins(sorted) {
      SortedWithoutTwins(NatLess, sorted);
    }
  }

  lemma TuplesStay(tuples: seq<Tuple>)
    requires Increasing(TupleLess, tuples)
    ensures Sort(TupleLess, tuples) == tuples && !HasTupleTwins(tuples)
  {
    hide TupleLess;
    TupleIsTotal();
    TotalIsAsymmetric(TupleLess);
    IncreasingIsSorted(TupleLess, tuples);
  }

  lemma SortedTuples(tuples: seq<Tuple>)
    ensures var sorted := Sort(TupleLess, tuples);
            && (!HasTupleTwins(sorted) ==> Increasing(TupleLess, sorted)) && |sorted| == |tuples|
            && forall x :: x in sorted <==> x in tuples
  {
    hide Sort, TupleLess;
    TupleIsTotal();
    TotalIsAsymmetric(TupleLess);
    SortSorts(TupleLess, tuples);
    SortKeepsElements(TupleLess, tuples);
  }

  lemma FieldsAreAsymmetric()
    ensures forall a, b :: FieldLess(a, b) ==> !FieldLess(b, a)
  {
    hide TextLess;
    TextIsTotal();
    TotalIsAsymmetric(TextLess);
  }

  predicate HasNameTwins(s: seq<Field>) { exists i :: 0 < i < |s| && s[i - 1].name == s[i].name }

  lemma FieldsStay(fields: seq<Field>)
    requires Increasing(FieldLess, fields)
    ensures Sort(FieldLess, fields) == fields && !HasNameTwins(fields)
  {
    hide TextLess;
    FieldsAreAsymmetric();
    IncreasingIsSorted(FieldLess, fields);
    if i :| 0 < i < |fields| && fields[i - 1].name == fields[i].name {
      assert FieldLess(fields[i - 1], fields[i]);
      TextOrder(fields[i].name, fields[i].name);
    }
  }

  lemma SortedFields(fields: seq<Field>)
    ensures var sorted := Sort(FieldLess, fields);
            && (!HasNameTwins(sorted) ==> Increasing(FieldLess, sorted)) && |sorted| == |fields|
            && forall x :: x in sorted <==> x in fields
  {
    hide Sort, TextLess;
    FieldsAreAsymmetric();
    SortSorts(FieldLess, fields);
    SortKeepsElements(FieldLess, fields);
    var sorted := Sort(FieldLess, fields);
    if !HasNameTwins(sorted) {
      forall i | 0 < i < |sorted| ensures FieldLess(sorted[i - 1], sorted[i]) {
        TextOrder(sorted[i - 1].name, sorted[i].name);
        assert !FieldLess(sorted[i], sorted[i - 1]);
      }
    }
  }

  // ----- encoding -----

  function KindTag(v: CapabilityValue): nat {
    match v
    case Absent => 0
    case BooleanValue(_) => 1
    case IntegerValue(_) => 2
    case QuantityValue(_, _) => 3
    case EnumerationValue(_, _) => 4
    case BitSetValue(_, _) => 5
    case NumericSetValue(_, _) => 6
    case NumericRangeValue(_, _, _) => 7
    case VersionIntervalValue(_, _, _, _) => 8
    case ProtocolSetValue(_) => 9
    case TupleValue(_) => 10
    case TupleSetValue(_) => 11
    case RecordValue(_) => 12
    case OpaqueValue(_, _) => 13
    case EnumSetValue(_, _) => 14
  }

  function WriteCounted<T>(write: T -> seq<byte>, items: seq<T>): seq<byte> {
    WriteU32(|items|) + WriteList(write, items)
  }

  function WriteTuple(elements: Tuple): seq<byte> { WriteCounted(WriteScalar, elements) }

  function WriteField(field: Field): seq<byte> { WriteString(field.name) + WriteScalar(field.value) }

  function WriteBody(v: CapabilityValue): seq<byte> {
    match v
    case Absent => []
    case BooleanValue(b) => WriteBool(b)
    case IntegerValue(i) => WriteSigned(i)
    case QuantityValue(amount, unit) => WriteU64(amount) + WriteU8(unit)
    case EnumerationValue(domain, code) => WriteString(domain) + WriteU32(code)
    case BitSetValue(bitCount, words) => WriteU32(bitCount) + WriteCounted(WriteU64, words)
    case NumericSetValue(unit, values) => WriteU8(unit) + WriteCounted(WriteU64, values)
    case NumericRangeValue(unit, minimum, maximum) => WriteU8(unit) + (WriteU64(minimum) + WriteU64(maximum))
    case VersionIntervalValue(lower, upper, lowerInclusive, upperInclusive) =>
      WriteVersion(lower) + (WriteBool(lowerInclusive) + (WriteVersion(upper) + WriteBool(upperInclusive)))
    case ProtocolSetValue(protocols) => WriteCounted(WriteU16, protocols)
    case TupleValue(elements) => WriteTuple(elements)
    case TupleSetValue(tuples) => WriteCounted(WriteTuple, tuples)
    case RecordValue(fields) => WriteCounted(WriteField, fields)
    case OpaqueValue(encoding, payload) => WriteString(encoding) + WriteString(payload)
    case EnumSetValue(domain, codes) => WriteString(domain) + WriteCounted(WriteU32, codes)
  }

  function WriteValue(v: CapabilityValue): seq<byte> { WriteU8(KindTag(v)) + WriteBody(v) }

  // ----- decoding -----

  function Build(result: Result<CapabilityValue>, rest: seq<byte>): Parse<CapabilityValue> {
    match result
    case Ok(v) => Parsed(v, rest)
    case Err(error) => Failed(error)
  }

  function ReadUnit(input: seq<byte>): Parse<nat> {
    match ReadU8(input)
    case Failed(error) => Failed(error)
    case Parsed(unit, rest) => if unit > MAX_UNIT then Failed(MalformedEncoding) else Parsed(unit, rest)
  }

  /** A count within its bound, then that many items. */
  function ReadCounted<T>(read: seq<byte> -> Parse<T>, limit: nat, input: seq<byte>): Parse<seq<T>> {
    match ReadU32(input)
    case Failed(error) => Failed(error)
    case Parsed(count, rest) => if count > limit then Failed(TooManyItems) else ReadList(read, count, rest)
  }

  function ReadTuple(input: seq<byte>): (tuple: Parse<Tuple>)
    ensures tuple.Parsed? ==> ArityOk(|tuple.value|)
  {
    match ReadU32(input)
    case Failed(error) => Failed(error)
    case Parsed(count, rest) => if !ArityOk(count) then Failed(ValueOutOfRange) else ReadList(ReadScalar, count, rest)
  }

  function ReadField(input: seq<byte>): Parse<Field> {
    match ReadText(input, MAX_FIELD_NAME_LENGTH)
    case Failed(error) => Failed(error)
    case Parsed(name, rest) =>
      match ReadScalar(rest)
      case Failed(error) => Failed(error)
      case Parsed(value, tail) => Parsed(Field(name, value), tail)
  }

  function ReadInteger(input: seq<byte>): Parse<CapabilityValue> {
    match ReadSigned(input)
    case Failed(error) => Failed(error)
    case Parsed(i, rest) =>
      if i > MAX_INTEGER || i < -MAX_INTEGER then Failed(ValueOutOfRange) else Parsed(IntegerValue(i), rest)
  }

  function ReadQuantity(input: seq<byte>): Parse<CapabilityValue> {
    match ReadU64(input)
    case Failed(error) => Failed(error)
    case Parsed(amount, rest) =>
      match ReadUnit(rest)
      case Failed(error) => Failed(error)
      case Parsed(unit, tail) => Build(MakeQuantity(amount, unit), tail)
  }

  function ReadEnumeration(input: seq<byte>): Parse<CapabilityValue> {
    match ReadDomain(input)
    case Failed(error) => Failed(error)
    case Parsed(domain, rest) =>
      match ReadU32(rest)
      case Failed(error) => Failed(error)
      case Parsed(code, tail) => Parsed(EnumerationValue(domain, code), tail)
  }

  function ReadBitSet(input: seq<byte>): Parse<CapabilityValue> {
    match ReadU32(input)
    case Failed(error) => Failed(error)
    case Parsed(bitCount, rest) =>
      match ReadU32(rest)
      case Failed(error) => Failed(error)
      case Parsed(count, tail) =>
        if count != WordsForBits(bitCount) || count > WordsForBits(MAX_BIT_SET_BITS) then Failed(ValueNotCanonical)
        else
          match ReadList(ReadU64, count, tail)
          case Failed(error) => Failed(error)
          case Parsed(words, end) => Build(MakeBitSet(bitCount, words), end)
  }

  function ReadNumericSet(input: seq<byte>): Parse<CapabilityValue> {
    match ReadUnit(input)
    case Failed(error) => Failed(error)
    case Parsed(unit, rest) =>
      match ReadCounted(ReadU64, MAX_SET_CARDINALITY, rest)
      case Failed(error) => Failed(error)
      case Parsed(values, tail) =>
        if !Ascending(values) then Failed(ValueNotCanonical) else Build(MakeNumericSet(unit, values), tail)
  }

  function ReadNumericRange(input: seq<byte>): Parse<CapabilityValue> {
    match ReadUnit(input)
    case Failed(error) => Failed(error)
    case Parsed(unit, rest) =>
      match ReadU64(rest)
      case Failed(error) => Failed(error)
      case Parsed(minimum, tail) =>
        match ReadU64(tail)
        case Failed(error) => Failed(error)
        case Parsed(maximum, end) => Build(MakeNumericRange(unit, minimum, maximum), end)
  }

  function ReadVersionInterval(input: seq<byte>): Parse<CapabilityValue> {
    match ReadVersion(input)
    case Failed(error) => Failed(error)
    case Parsed(lower, a) =>
      match ReadBool(a)
      case Failed(error) => Failed(error)
      case Parsed(lowerInclusive, b) =>
        match ReadVersion(b)
        case Failed(error) => Failed(error)
        case Parsed(upper, c) =>
          match ReadBool(c)
          case Failed(error) => Failed(error)
          case Parsed(upperInclusive, d) => Build(MakeVersionInterval(lower, lowerInclusive, upper, upperInclusive), d)
  }

  function ReadProtocolSet(input: seq<byte>): Parse<CapabilityValue> {
    match ReadCounted(ReadU16, MAX_PROTOCOLS, input)
    case Failed(error) => Failed(error)
    case Parsed(protocols, rest) => Build(MakeProtocolSet(protocols), rest)
  }

  function ReadTupleValue(input: seq<byte>): Parse<CapabilityValue> {
    match ReadTuple(input)
    case Failed(error) => Failed(error)
    case Parsed(elements, rest) => Build(MakeTuple(elements), rest)
  }

  function ReadTupleSet(input: seq<byte>): Parse<CapabilityValue> {
    match ReadCounted(ReadTuple, MAX_TUPLE_SET_CARDINALITY, input)
    case Failed(error) => Failed(error)
    case Parsed(tuples, rest) => Build(MakeTupleSet(tuples), rest)
  }

  function ReadRecord(input: seq<byte>): Parse<CapabilityValue> {
    match ReadCounted(ReadField, MAX_RECORD_FIELDS, input)
    case Failed(error) => Failed(error)
    case Parsed(fields, rest) => Build(MakeRecord(fields), rest)
  }

  function ReadOpaque(input: seq<byte>): Parse<CapabilityValue> {
    match ReadText(input, MAX_ENCODING_LENGTH)
    case Failed(error) => Failed(error)
    case Parsed(encoding, rest) =>
      match ReadBytes(rest, MAX_PAYLOAD_BYTES)
      case Failed(error) => Failed(error)
      case Parsed(payload, tail) => Build(MakeOpaque(encoding, payload), tail)
  }

  function ReadEnumSet(input: seq<byte>): Parse<CapabilityValue> {
    match ReadDomain(input)
    case Failed(error) => Failed(error)
    case Parsed(domain, rest) =>
      match ReadCounted(ReadU32, MAX_SET_CARDINALITY, rest)
      case Failed(error) => Failed(error)
      case Parsed(codes, tail) => Build(MakeEnumSet(domain, codes), tail)
  }

  function ReadBoolean(input: seq<byte>): Parse<CapabilityValue> {
    match ReadBool(input)
    case Failed(error) => Failed(error)
    case Parsed(b, rest) => Parsed(BooleanValue(b), rest)
  }

  function ReadBody(tag: nat, input: seq<byte>): Parse<CapabilityValue> {
    match tag
    case 0 => Parsed(Absent, input)
    case 1 => ReadBoolean(input)
    case 2 => ReadInteger(input)
    case 3 => ReadQuantity(input)
    case 4 => ReadEnumeration(input)
    case 5 => ReadBitSet(input)
    case 6 => ReadNumericSet(input)
    case 7 => ReadNumericRange(input)
    case 8 => ReadVersionInterval(input)
    case 9 => ReadProtocolSet(input)
    case 10 => ReadTupleValue(input)
    case 11 => ReadTupleSet(input)
    case 12 => ReadRecord(input)
    case 13 => ReadOpaque(input)
    case 14 => ReadEnumSet(input)
    case _ => Failed(MalformedEncoding)
  }

  function ReadValue(input: seq<byte>): Parse<CapabilityValue> {
    match ReadU8(input)
    case Failed(error) => Failed(error)
    case Parsed(tag, rest) => ReadBody(tag, rest)
  }

  // ----- round trips of the parts -----

  lemma CountedRoundTrip<T(!new)>(write: T -> seq<byte>, read: seq<byte> -> Parse<T>, limit: nat, items: seq<T>,
                                  rest: seq<byte>)
    requires forall item :: item in items ==> RoundTrips(write, read, item)
    requires |items| <= limit && |items| < TWO_TO_32
    ensures ReadCounted(read, limit, WriteCounted(write, items) + rest) == Parsed(items, rest)
  {
    hide ReadU32, WriteU32, WriteList, ReadList, RoundTrips;
    assert WriteCounted(write, items) + rest == WriteU32(|items|) + (WriteList(write, items) + rest);
    NumberRoundTrips(|items|, WriteList(write, items) + rest);
    ListRoundTrip(write, read, items, rest);
  }

  lemma NumbersRoundTrip(values: seq<nat>)
    ensures (forall n :: n in values ==> n < TWO_TO_64) ==> forall n :: n in values ==> RoundTrips(WriteU64, ReadU64, n)
    ensures (forall n :: n in values ==> n < TWO_TO_32) ==> forall n :: n in values ==> RoundTrips(WriteU32, ReadU32, n)
    ensures (forall n :: n in values ==> n < 65536) ==> forall n :: n in values ==> RoundTrips(WriteU16, ReadU16, n)
  {
    hide WriteU64, ReadU64, WriteU32, ReadU32, WriteU16, ReadU16, WriteU8, ReadU8;
    forall n: nat, rest: seq<byte>
      ensures n < TWO_TO_64 ==> ReadU64(WriteU64(n) + rest) == Parsed(n, rest)
      ensures n < TWO_TO_32 ==> ReadU32(WriteU32(n) + rest) == Parsed(n, rest)
      ensures n < 65536 ==> ReadU16(WriteU16(n) + rest) == Parsed(n, rest)
    {
      NumberRoundTrips(n, rest);
    }
  }

  lemma TupleRoundTrip(elements: Tuple, rest: seq<byte>)
    requires TupleOk(elements)
    ensures ReadTuple(WriteTuple(elements) + rest) == Parsed(elements, rest)
  {
    hide ReadU32, WriteU32, WriteList, ReadList, ScalarOk, WriteScalar, ReadScalar;
    var list := WriteList(WriteScalar, elements);
    assert WriteTuple(elements) + rest == WriteU32(|elements|) + (list + rest);
    NumberRoundTrips(|elements|, list + rest);
    ScalarsRoundTrip(elements, rest);
  }

  lemma FieldRoundTrip(field: Field, rest: seq<byte>)
    requires FieldOk(field)
    ensures ReadField(WriteField(field) + rest) == Parsed(field, rest)
  {
    hide ReadText, WriteString, ReadScalar, WriteScalar, ScalarOk, LowerToken, ControlFree;
    assert WriteField(field) + rest == WriteString(field.name) + (WriteScalar(field.value) + rest);
    TokenLength(field.name, MAX_FIELD_NAME_LENGTH);
    LowerTokensAreControlFree(field.name, MAX_FIELD_NAME_LENGTH);
    TextRoundTrip(field.name, MAX_FIELD_NAME_LENGTH, WriteScalar(field.value) + rest);
    ScalarRoundTrip(field.value, rest);
  }

  lemma TuplesRoundTrip(tuples: seq<Tuple>)
    requires forall i :: 0 <= i < |tuples| ==> TupleOk(tuples[i])
    ensures forall t :: t in tuples ==> RoundTrips(WriteTuple, ReadTuple, t)
  {
    hide TupleOk, WriteTuple, ReadTuple;
    forall t | t in tuples ensures RoundTrips(WriteTuple, ReadTuple, t) {
      forall rest ensures ReadTuple(WriteTuple(t) + rest) == Parsed(t, rest) {
        TupleRoundTrip(t, rest);
      }
    }
  }

  lemma FieldsRoundTrip(fields: seq<Field>)
    requires forall i :: 0 <= i < |fields| ==> FieldOk(fields[i])
    ensures forall f :: f in fields ==> RoundTrips(WriteField, ReadField, f)
  {
    hide FieldOk, WriteField, ReadField;
    forall f | f in fields ensures RoundTrips(WriteField, ReadField, f) {
      forall rest ensures ReadField(WriteField(f) + rest) == Parsed(f, rest) {
        FieldRoundTrip(f, rest);
      }
    }
  }

  // ----- round trips of the kinds -----

  lemma UnitRoundTrip(unit: nat, rest: seq<byte>)
    requires UnitOk(unit)
    ensures ReadUnit(WriteU8(unit) + rest) == Parsed(unit, rest)
  {
    hide ReadU8, WriteU8;
    NumberRoundTrips(unit, rest);
  }

  lemma QuantityRoundTrip(v: CapabilityValue, rest: seq<byte>)
    requires v.QuantityValue? && Encodable(v)
    ensures ReadQuantity(WriteBody(v) + rest) == Parsed(v, rest)
  {
    hide ReadU64, WriteU64, ReadUnit, WriteU8;
    assert WriteBody(v) + rest == WriteU64(v.amount) + (WriteU8(v.unit) + rest);
    NumberRoundTrips(v.amount, WriteU8(v.unit) + rest);
    UnitRoundTrip(v.unit, rest);
  }

  lemma EnumerationRoundTrip(v: CapabilityValue, rest: seq<byte>)
    requires v.EnumerationValue? && Encodable(v)
    ensures ReadEnumeration(WriteBody(v) + rest) == Parsed(v, rest)
  {
    hide ReadDomain, WriteString, ReadU32, WriteU32, DomainOk;
    assert WriteBody(v) + rest == WriteString(v.domain) + (WriteU32(v.code) + rest);
    DomainRoundTrip(v.domain, WriteU32(v.code) + rest);
    NumberRoundTrips(v.code, rest);
  }

  lemma BitSetRoundTrip(v: CapabilityValue, rest: seq<byte>)
    requires v.BitSetValue? && Encodable(v)
    ensures ReadBitSet(WriteBody(v) + rest) == Parsed(v, rest)
  {
    hide ReadU32, WriteU32, WriteList, ReadList, PowerOfTwo;
    var list := WriteList(WriteU64, v.words);
    assert WriteBody(v) + rest == WriteU32(v.bitCount) + (WriteU32(|v.words|) + (list + rest));
    NumberRoundTrips(v.bitCount, WriteU32(|v.words|) + (list + rest));
    NumberRoundTrips(|v.words|, list + rest);
    NumbersRoundTrip(v.words);
    ListRoundTrip(WriteU64, ReadU64, v.words, rest);
  }

  lemma NumericSetRoundTrip(v: CapabilityValue, rest: seq<byte>)
    requires v.NumericSetValue? && Encodable(v)
    ensures ReadNumericSet(WriteBody(v) + rest) == Parsed(v, rest)
  {
    hide ReadUnit, WriteU8, WriteCounted, ReadCounted, WriteU64, ReadU64, Sort, Ascending, HasTwins;
    var list := WriteCounted(WriteU64, v.values);
    assert WriteBody(v) + rest == WriteU8(v.unit) + (list + rest);
    UnitRoundTrip(v.unit, list + rest);
    NumbersRoundTrip(v.values);
    CountedRoundTrip(WriteU64, ReadU64, MAX_SET_CARDINALITY, v.values, rest);
    AscendingStays(v.values);
  }

  lemma NumericRangeRoundTrip(v: CapabilityValue, rest: seq<byte>)
    requires v.NumericRangeValue? && Encodable(v)
    ensures ReadNumericRange(WriteBody(v) + rest) == Parsed(v, rest)
  {
    hide ReadUnit, WriteU8, WriteU64, ReadU64;
    assert WriteBody(v) + rest == WriteU8(v.unit) + (WriteU64(v.minimum) + (WriteU64(v.maximum) + rest));
    UnitRoundTrip(v.unit, WriteU64(v.minimum) + (WriteU64(v.maximum) + rest));
    NumberRoundTrips(v.minimum, WriteU64(v.maximum) + rest);
    NumberRoundTrips(v.maximum, rest);
  }

  lemma VersionIntervalRoundTrip(v: CapabilityValue, rest: seq<byte>)
    requires v.VersionIntervalValue? && Encodable(v)
    ensures ReadVersionInterval(WriteBody(v) + rest) == Parsed(v, rest)
  {
    hide ReadVersion, WriteVersion, WriteBool, ReadBool, VersionLess, SameVersion;
    var a, b := WriteVersion(v.lower), WriteBool(v.lowerInclusive);
    var c, d := WriteVersion(v.upper), WriteBool(v.upperInclusive);
    assert WriteBody(v) + rest == a + (b + (c + (d + rest)));
    VersionRoundTrip(v.lower, b + (c + (d + rest)));
    BoolRoundTrip(v.lowerInclusive, c + (d + rest));
    VersionRoundTrip(v.upper, d + rest);
    BoolRoundTrip(v.upperInclusive, rest);
  }

  lemma ProtocolSetRoundTrip(v: CapabilityValue, rest: seq<byte>)
    requires v.ProtocolSetValue? && Encodable(v)
    ensures ReadProtocolSet(WriteBody(v) + rest) == Parsed(v, rest)
  {
    hide WriteCounted, ReadCounted, WriteU16, ReadU16, Sort, Ascending, HasTwins;
    NumbersRoundTrip(v.protocols);
    CountedRoundTrip(WriteU16, ReadU16, MAX_PROTOCOLS, v.protocols, rest);
    AscendingStays(v.protocols);
  }

  lemma TupleSetRoundTrip(v: CapabilityValue, rest: seq<byte>)
    requires v.TupleSetValue? && Encodable(v)
    ensures ReadTupleSet(WriteBody(v) + rest) == Parsed(v, rest)
  {
    hide WriteCounted, ReadCounted, WriteTuple, ReadTuple, Sort, Increasing, HasTupleTwins, ScalarOk;
    TuplesRoundTrip(v.tuples);
    CountedRoundTrip(WriteTuple, ReadTuple, MAX_TUPLE_SET_CARDINALITY, v.tuples, rest);
    TuplesStay(v.tuples);
  }

  lemma RecordRoundTrip(v: CapabilityValue, rest: seq<byte>)
    requires v.RecordValue? && Encodable(v)
    ensures ReadRecord(WriteBody(v) + rest) == Parsed(v, rest)
  {
    hide WriteCounted, ReadCounted, WriteField, ReadField, Sort, Increasing, HasNameTwins, ScalarOk, LowerToken;
    FieldsRoundTrip(v.fields);
    CountedRoundTrip(WriteField, ReadField, MAX_RECORD_FIELDS, v.fields, rest);
    FieldsStay(v.fields);
  }

  lemma OpaqueRoundTrip(v: CapabilityValue, rest: seq<byte>)
    requires v.OpaqueValue? && Encodable(v)
    ensures ReadOpaque(WriteBody(v) + rest) == Parsed(v, rest)
  {
    hide ReadText, WriteString, PrintableToken, ReadString, ControlFree;
    assert WriteBody(v) + rest == WriteString(v.encoding) + (WriteString(v.payload) + rest);
    TokenLength(v.encoding, MAX_ENCODING_LENGTH);
    PrintableTokensAreControlFree(v.encoding, MAX_ENCODING_LENGTH);
    TextRoundTrip(v.encoding, MAX_ENCODING_LENGTH, WriteString(v.payload) + rest);
    StringRoundTrip(v.payload, MAX_PAYLOAD_BYTES, PayloadTooLarge, rest);
  }

  lemma EnumSetRoundTrip(v: CapabilityValue, rest: seq<byte>)
    requires v.EnumSetValue? && Encodable(v)
    ensures ReadEnumSet(WriteBody(v) + rest) == Parsed(v, rest)
  {
    hide ReadDomain, WriteString, WriteCounted, ReadCounted, WriteU32, ReadU32, Sort, Ascending, HasTwins, DomainOk;
    var list := WriteCounted(WriteU32, v.codes);
    assert WriteBody(v) + rest == WriteString(v.domain) + (list + rest);
    DomainRoundTrip(v.domain, list + rest);
    NumbersRoundTrip(v.codes);
    CountedRoundTrip(WriteU32, ReadU32, MAX_SET_CARDINALITY, v.codes, rest);
    AscendingStays(v.codes);
  }

  lemma BodyRoundTrip(v: CapabilityValue, rest: seq<byte>)
    requires Encodable(v)
    ensures ReadBody(KindTag(v), WriteBody(v) + rest) == Parsed(v, rest)
  {
    hide ReadBoolean, ReadInteger, ReadQuantity, ReadEnumeration, ReadBitSet, ReadNumericSet, ReadNumericRange,
      ReadVersionInterval, ReadProtocolSet, ReadTupleValue, ReadTupleSet, ReadRecord, ReadOpaque, ReadEnumSet,
      WriteBody;
    match v
    case Absent => SmallRoundTrips(v, rest);
    case BooleanValue(_) => SmallRoundTrips(v, rest);
    case IntegerValue(_) => SmallRoundTrips(v, rest);
    case QuantityValue(_, _) => QuantityRoundTrip(v, rest);
    case EnumerationValue(_, _) => EnumerationRoundTrip(v, rest);
    case BitSetValue(_, _) => BitSetRoundTrip(v, rest);
    case NumericSetValue(_, _) => NumericSetRoundTrip(v, rest);
    case NumericRangeValue(_, _, _) => NumericRangeRoundTrip(v, rest);
    case VersionIntervalValue(_, _, _, _) => VersionIntervalRoundTrip(v, rest);
    case ProtocolSetValue(_) => ProtocolSetRoundTrip(v, rest);
    case TupleValue(_) => SmallRoundTrips(v, rest);
    case TupleSetValue(_) => TupleSetRoundTrip(v, rest);
    case RecordValue(_) => RecordRoundTrip(v, rest);
    case OpaqueValue(_, _) => OpaqueRoundTrip(v, rest);
    case EnumSetValue(_, _) => EnumSetRoundTrip(v, rest);
  }

  lemma SmallRoundTrips(v: CapabilityValue, rest: seq<byte>)
    requires Encodable(v) && (v.Absent? || v.BooleanValue? || v.IntegerValue? || v.TupleValue?)
    ensures ReadBody(KindTag(v), WriteBody(v) + rest) == Parsed(v, rest)
  {
    hide ReadBool, WriteBool, ReadSigned, WriteSigned, ReadTuple, WriteTuple, ScalarOk;
    match v
    case Absent => assert [] + rest == rest;
    case BooleanValue(b) => BoolRoundTrip(b, rest);
    case IntegerValue(i) => SignedRoundTrip(i, rest);
    case TupleValue(elements) => TupleRoundTrip(elements, rest);
  }

  // ----- main results -----

  /** Decoding inverts encoding and leaves what follows untouched. */
  lemma ValueRoundTrip(v: CapabilityValue, rest: seq<byte>)
    requires Encodable(v)
    ensures ReadValue(WriteValue(v) + rest) == Parsed(v, rest)
  {
    hide ReadU8, WriteU8, WriteBody, ReadBody, Encodable;
    assert WriteValue(v) + rest == WriteU8(KindTag(v)) + (WriteBody(v) + rest);
    NumberRoundTrips(KindTag(v), WriteBody(v) + rest);
    BodyRoundTrip(v, rest);
  }

  /** No encoding is a prefix of another, and no two values share one. */
  lemma EncodingsArePrefixFree(a: CapabilityValue, b: CapabilityValue, x: seq<byte>, y: seq<byte>)
    requires Encodable(a) && Encodable(b) && WriteValue(a) + x == WriteValue(b) + y
    ensures a == b && x == y
  {
    hide WriteValue, ReadValue, Encodable;
    ValueRoundTrip(a, x);
    ValueRoundTrip(b, y);
  }

  // ----- everything decoded is canonical -----

  lemma CountedItems<T>(read: seq<byte> -> Parse<T>, good: T -> bool, limit: nat, input: seq<byte>)
    requires forall i :: read(i).Parsed? ==> good(read(i).value)
    requires ReadCounted(read, limit, input).Parsed?
    ensures |ReadCounted(read, limit, input).value| <= limit
    ensures forall item :: item in ReadCounted(read, limit, input).value ==> good(item)
  {
    hide ReadU32, ReadList;
    var counted := ReadU32(input);
    ListItemsWereRead(read, good, counted.value, counted.rest);
  }

  predicate Below64(n: nat) { n < TWO_TO_64 }
  predicate Below32(n: nat) { n < TWO_TO_32 }

  lemma UnitsRead(input: seq<byte>)
    ensures ReadUnit(input).Parsed? ==> ReadUnit(input).value <= MAX_UNIT
  {
    hide ReadU8;
  }

  lemma QuantityIsEncodable(input: seq<byte>)
    ensures ReadQuantity(input).Parsed? ==> Encodable(ReadQuantity(input).value)
    ensures ReadNumericRange(input).Parsed? ==> Encodable(ReadNumericRange(input).value)
    ensures ReadInteger(input).Parsed? ==> Encodable(ReadInteger(input).value)
    ensures ReadBoolean(input).Parsed? ==> Encodable(ReadBoolean(input).value)
  {
    hide ReadU64, ReadU8, ReadSigned, ReadBool;
  }

  lemma EnumerationIsEncodable(input: seq<byte>)
    ensures ReadEnumeration(input).Parsed? ==> Encodable(ReadEnumeration(input).value)
  {
    hide ReadU32, ReadText, DomainOk;
    if ReadEnumeration(input).Parsed? {
      NumbersRead(ReadDomain(input).rest);
    }
  }

  lemma BitSetIsEncodable(input: seq<byte>)
    ensures ReadBitSet(input).Parsed? ==> Encodable(ReadBitSet(input).value)
  {
    hide ReadU32, ReadU64, ReadList, PowerOfTwo;
    if ReadBitSet(input).Parsed? {
      var bitCount := ReadU32(input);
      var count := ReadU32(bitCount.rest);
      forall i ensures ReadU64(i).Parsed? ==> Below64(ReadU64(i).value) {
        NumbersRead(i);
      }
      ListItemsWereRead(ReadU64, Below64, count.value, count.rest);
      var words := ReadBitSet(input).value.words;
      forall i | 0 <= i < |words| ensures words[i] < TWO_TO_64 {
        assert words[i] in words && Below64(words[i]);
      }
    }
  }

  lemma NumericSetIsEncodable(input: seq<byte>)
    ensures ReadNumericSet(input).Parsed? ==> Encodable(ReadNumericSet(input).value)
  {
    hide ReadUnit, ReadCounted, Sort, Ascending, HasTwins;
    if ReadNumericSet(input).Parsed? {
      UnitsRead(input);
      var values := ReadCounted(ReadU64, MAX_SET_CARDINALITY, ReadUnit(input).rest).value;
      SortedNumbers(values);
      var sorted := Sort(NatLess, values);
      forall i | 0 <= i < |sorted| ensures sorted[i] <= MAX_QUANTITY {
        assert sorted[i] in sorted && sorted[i] in values;
      }
    }
  }

  lemma VersionIntervalIsEncodable(input: seq<byte>)
    ensures ReadVersionInterval(input).Parsed? ==> Encodable(ReadVersionInterval(input).value)
  {
    hide ReadVersion, ReadBool, VersionLess, SameVersion, VersionOk;
    if ReadVersionInterval(input).Parsed? {
      ReadVersionIsOk(input);
      ReadVersionIsOk(ReadBool(ReadVersion(input).rest).rest);
    }
  }

  lemma ProtocolSetIsEncodable(input: seq<byte>)
    ensures ReadProtocolSet(input).Parsed? ==> Encodable(ReadProtocolSet(input).value)
  {
    hide ReadCounted, Sort, Ascending, HasTwins;
    if ReadProtocolSet(input).Parsed? {
      var protocols := ReadCounted(ReadU16, MAX_PROTOCOLS, input).value;
      SortedNumbers(protocols);
      var sorted := Sort(NatLess, protocols);
      forall i | 0 <= i < |sorted| ensures ProtocolOk(sorted[i]) {
        assert sorted[i] in sorted && sorted[i] in protocols;
      }
    }
  }

  lemma ReadTupleIsOk(input: seq<byte>)
    ensures ReadTuple(input).Parsed? ==> TupleOk(ReadTuple(input).value)
  {
    hide ReadU32, ReadList, ScalarOk, ReadScalar;
    if ReadTuple(input).Parsed? {
      var counted := ReadU32(input);
      ReadScalarsAreOk(counted.value, counted.rest);
    }
  }

  lemma TupleSetIsEncodable(input: seq<byte>)
    ensures ReadTupleSet(input).Parsed? ==> Encodable(ReadTupleSet(input).value)
  {
    hide ReadCounted, ReadTuple, Sort, Increasing, HasTupleTwins, ScalarOk;
    if ReadTupleSet(input).Parsed? {
      forall i ensures ReadTuple(i).Parsed? ==> TupleOk(ReadTuple(i).value) {
        ReadTupleIsOk(i);
      }
      CountedItems(ReadTuple, TupleOk, MAX_TUPLE_SET_CARDINALITY, input);
      var tuples := ReadCounted(ReadTuple, MAX_TUPLE_SET_CARDINALITY, input).value;
      SortedTuples(tuples);
      var sorted := Sort(TupleLess, tuples);
      forall i | 0 <= i < |sorted| ensures TupleOk(sorted[i]) && |sorted[i]| == |sorted[0]| {
        assert sorted[i] in sorted && sorted[i] in tuples && sorted[0] in sorted && sorted[0] in tuples;
      }
    }
  }

  lemma ReadFieldValueIsOk(input: seq<byte>)
    ensures ReadField(input).Parsed? ==> FieldValueOk(ReadField(input).value)
  {
    hide ReadText, ReadScalar, ScalarOk;
    if ReadField(input).Parsed? {
      ReadScalarIsOk(ReadText(input, MAX_FIELD_NAME_LENGTH).rest);
    }
  }

  predicate FieldValueOk(field: Field) { ScalarOk(field.value) }

  lemma RecordIsEncodable(input: seq<byte>)
    ensures ReadRecord(input).Parsed? ==> Encodable(ReadRecord(input).value)
  {
    hide ReadCounted, ReadField, Sort, Increasing, HasNameTwins, ScalarOk, LowerToken;
    if ReadRecord(input).Parsed? {
      forall i ensures ReadField(i).Parsed? ==> FieldValueOk(ReadField(i).value) {
        ReadFieldValueIsOk(i);
      }
      CountedItems(ReadField, FieldValueOk, MAX_RECORD_FIELDS, input);
      var fields := ReadCounted(ReadField, MAX_RECORD_FIELDS, input).value;
      SortedFields(fields);
      var sorted := Sort(FieldLess, fields);
      forall i | 0 <= i < |sorted| ensures FieldOk(sorted[i]) {
        assert sorted[i] in sorted && sorted[i] in fields && FieldValueOk(sorted[i]);
      }
    }
  }

  lemma OpaqueIsEncodable(input: seq<byte>)
    ensures ReadOpaque(input).Parsed? ==> Encodable(ReadOpaque(input).value)
  {
    hide ReadText, ReadBytes, PrintableToken;
  }

  lemma ReadDomainIsOk(input: seq<byte>)
    ensures ReadDomain(input).Parsed? ==> DomainOk(ReadDomain(input).value)
  {
    hide ReadText, LowerToken;
  }

  lemma EnumSetIsEncodable(input: seq<byte>)
    ensures ReadEnumSet(input).Parsed? ==> Encodable(ReadEnumSet(input).value)
  {
    hide ReadDomain, ReadCounted, Sort, Ascending, HasTwins, DomainOk, ReadU32;
    if ReadEnumSet(input).Parsed? {
      ReadDomainIsOk(input);
      var rest := ReadDomain(input).rest;
      forall i ensures ReadU32(i).Parsed? ==> Below32(ReadU32(i).value) {
        NumbersRead(i);
      }
      CountedItems(ReadU32, Below32, MAX_SET_CARDINALITY, rest);
      var codes := ReadCounted(ReadU32, MAX_SET_CARDINALITY, rest).value;
      SortedNumbers(codes);
      var sorted := Sort(NatLess, codes);
      forall i | 0 <= i < |sorted| ensures sorted[i] < TWO_TO_32 {
        assert sorted[i] in sorted && sorted[i] in codes && Below32(sorted[i]);
      }
    }
  }

  lemma TupleIsEncodable(input: seq<byte>)
    ensures ReadTupleValue(input).Parsed? ==> Encodable(ReadTupleValue(input).value)
  {
    hide ReadTuple, ScalarOk;
    ReadTupleIsOk(input);
  }

  lemma BodyIsEncodable(tag: nat, input: seq<byte>)
    ensures ReadBody(tag, input).Parsed? ==> Encodable(ReadBody(tag, input).value)
  {
    hide ReadBoolean, ReadInteger, ReadQuantity, ReadEnumeration, ReadBitSet, ReadNumericSet, ReadNumericRange,
      ReadVersionInterval, ReadProtocolSet, ReadTupleValue, ReadTupleSet, ReadRecord, ReadOpaque, ReadEnumSet;
    if tag == 0 {
      assert Encodable(Absent);
    }
    hide Encodable;
    QuantityIsEncodable(input);
    EnumerationIsEncodable(input);
    BitSetIsEncodable(input);
    NumericSetIsEncodable(input);
    VersionIntervalIsEncodable(input);
    ProtocolSetIsEncodable(input);
    TupleIsEncodable(input);
    TupleSetIsEncodable(input);
    RecordIsEncodable(input);
    OpaqueIsEncodable(input);
    EnumSetIsEncodable(input);
  }

  /** Whatever is decoded passes ValidateCanonical and is in the decoder's bounds. */
  lemma DecodedIsCanonical(input: seq<byte>)
    requires ReadValue(input).Parsed?
    ensures Encodable(ReadValue(input).value) && Canonical(ReadValue(input).value)
  {
    hide ReadU8, ReadBody, Encodable, Canonical;
    var tagged := ReadU8(input);
    BodyIsEncodable(tagged.value, tagged.rest);
    EncodableIsCanonical(ReadValue(input).value);
  }

  /** The decoder produces exactly the encodable values. */
  lemma DecoderImage(v: CapabilityValue)
    ensures Encodable(v) <==> exists input :: ReadValue(input).Parsed? && ReadValue(input).value == v
  {
    hide ReadValue, WriteValue, Encodable, Canonical;
    if Encodable(v) {
      ValueRoundTrip(v, []);
    }
    if input :| ReadValue(input).Parsed? && ReadValue(input).value == v {
      DecodedIsCanonical(input);
    }
  }

  /** Encoding an accepted value again and decoding it is the identity, whatever order the
      accepted bytes listed the members in. */
  lemma ReencodingIsIdentity(input: seq<byte>, rest: seq<byte>)
    requires ReadValue(input).Parsed?
    ensures ReadValue(WriteValue(ReadValue(input).value) + rest) == Parsed(ReadValue(input).value, rest)
  {
    hide ReadValue, WriteValue, Encodable, Canonical;
    DecodedIsCanonical(input);
    ValueRoundTrip(ReadValue(input).value, rest);
  }

  /** Encodings tell values apart structurally, which is finer than their equality. */
  lemma SameEncodingIffIdentical(a: CapabilityValue, b: CapabilityValue)
    requires Encodable(a) && Encodable(b)
    ensures WriteValue(a) == WriteValue(b) <==> a == b
  {
    hide WriteValue, Encodable;
    if WriteValue(a) == WriteValue(b) {
      EncodingsArePrefixFree(a, b, [], []);
    }
  }

  /** Version 1 equals version 1.0, yet intervals over them encode differently. */
  lemma EqualValuesMayEncodeDifferently() returns (a: CapabilityValue, b: CapabilityValue)
    ensures Encodable(a) && Encodable(b) && SameValue(a, b) && WriteValue(a) != WriteValue(b)
  {
    var short, long := Version([1]), Version([1, 0]);
    a, b := VersionIntervalValue(short, short, true, true), VersionIntervalValue(long, long, true, true);
    assert !VersionLess(short, short) && !VersionLess(long, long);
    SameEncodingIffIdentical(a, b);
    assert a.lower.components != b.lower.components;
  }
}
