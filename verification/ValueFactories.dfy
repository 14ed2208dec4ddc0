/** What the value factories let through: canonical values only, the same ones whatever
    order a set's members are given in, and exactly those the codec can carry. */
module ValueFactories {
  import Sequences
  import opened Values
  import opened Bytes
  import opened Orderings
  import opened ValueCodec

  // ----- order of members -----

  lemma LastIsLargest<T(!new)>(less: (T, T) -> bool, s: seq<T>, i: nat)
    requires StrictTotal(less) && Sorted(less, s) && i < |s|
    ensures !less(s[|s| - 1], s[i])
    decreases |s| - i
  {
    if i < |s| - 1 {
      LastIsLargest(less, s, i + 1);
      assert !less(s[i + 1], s[i]);
      assert s[i] == s[i + 1] || less(s[i], s[i + 1]);
    }
  }

  lemma SortedEndsAlike<T(!new)>(less: (T, T) -> bool, a: seq<T>, b: seq<T>)
    requires StrictTotal(less) && Sorted(less, a) && Sorted(less, b) && multiset(a) == multiset(b) && a != [] && b != []
    ensures a[|a| - 1] == b[|b| - 1]
  {
    var x, y := a[|a| - 1], b[|b| - 1];
    assert x in multiset(b) && y in multiset(a);
    var i :| 0 <= i < |b| && b[i] == x;
    var j :| 0 <= j < |a| && a[j] == y;
    LastIsLargest(less, b, i);
    LastIsLargest(less, a, j);
  }

  lemma FrontOf<T>(less: (T, T) -> bool, s: seq<T>)
    requires s != [] && Sorted(less, s)
    ensures Sorted(less, s[..|s| - 1])
    ensures multiset(s[..|s| - 1]) == multiset(s) - multiset{s[|s| - 1]}
  {
    assert s == s[..|s| - 1] + [s[|s| - 1]];
  }

  /** A sorted arrangement of a multiset is unique. */
  lemma {:induction false} SortedIsUnique<T(!new)>(less: (T, T) -> bool, a: seq<T>, b: seq<T>)
    requires StrictTotal(less) && Sorted(less, a) && Sorted(less, b) && multiset(a) == multiset(b)
    ensures a == b
    decreases |a|
  {
    hide StrictTotal, Sorted;
    assert |a| == |multiset(a)| == |multiset(b)| == |b|;
    if a != [] {
      SortedEndsAlike(less, a, b);
      FrontOf(less, a);
      FrontOf(less, b);
      SortedIsUnique(less, a[..|a| - 1], b[..|b| - 1]);
      assert a == a[..|a| - 1] + [a[|a| - 1]] && b == b[..|b| - 1] + [b[|b| - 1]];
    }
  }

  lemma SortIgnoresOrder<T(!new)>(less: (T, T) -> bool, a: seq<T>, b: seq<T>)
    requires StrictTotal(less) && multiset(a) == multiset(b)
    ensures Sort(less, a) == Sort(less, b) && |a| == |b|
    ensures forall x :: x in a <==> x in b
  {
    TotalIsAsymmetric(less);
    SortSorts(less, a);
    SortSorts(less, b);
    SortMembers(less, a);
    SortMembers(less, b);
    SortedIsUnique(less, Sort(less, a), Sort(less, b));
    forall x ensures x in a <==> x in b {
      assert x in multiset(a) <==> x in multiset(b);
    }
  }

  /** The order in which the members of a set are given never matters. */
  lemma SetFactoriesIgnoreOrder(unit: nat, domain: Text, a: seq<nat>, b: seq<nat>)
    requires multiset(a) == multiset(b)
    ensures MakeNumericSet(unit, a) == MakeNumericSet(unit, b)
    ensures MakeProtocolSet(a) == MakeProtocolSet(b)
    ensures MakeEnumSet(domain, a) == MakeEnumSet(domain, b)
  {
    hide Sort, ProtocolOk;
    NatIsTotal();
    SortIgnoresOrder(NatLess, a, b);
    SameExtremes(a, b, n => n > MAX_QUANTITY);
    SameExtremes(a, b, n => !ProtocolOk(n));
  }

  lemma SameExtremes<T>(a: seq<T>, b: seq<T>, p: T -> bool)
    requires forall x :: x in a <==> x in b
    ensures (exists i :: 0 <= i < |a| && p(a[i])) <==> (exists i :: 0 <= i < |b| && p(b[i]))
  {
    if i :| 0 <= i < |a| && p(a[i]) {
      assert a[i] in b;
    }
    if i :| 0 <= i < |b| && p(b[i]) {
      assert b[i] in a;
    }
  }

  /** Nor does the order in which the tuples of a tuple set are given. */
  lemma TupleSetFactoryIgnoresOrder(a: seq<Tuple>, b: seq<Tuple>)
    requires multiset(a) == multiset(b)
    ensures MakeTupleSet(a).Ok? == MakeTupleSet(b).Ok?
    ensures MakeTupleSet(a).Ok? ==> MakeTupleSet(a) == MakeTupleSet(b)
  {
    hide Sort, TupleLess, ArityOk, HasTupleTwins;
    TupleIsTotal();
    SortIgnoresOrder(TupleLess, a, b);
    if a != [] {
      assert a[0] in b && b[0] in a;
      SameExtremes(a, b, t => |t| != |a[0]|);
      SameExtremes(a, b, t => |t| != |b[0]|);
    }
  }

  lemma {:induction false} IncreasingPairs<T(!new)>(less: (T, T) -> bool, s: seq<T>, i: nat, j: nat)
    requires StrictOrder(less) && Increasing(less, s) && i < j < |s|
    ensures less(s[i], s[j])
    decreases j
  {
    if i + 1 < j {
      IncreasingPairs(less, s, i, j - 1);
    }
    assert less(s[j - 1], s[j]);
  }

  ghost predicate StrictOrder<T(!new)>(less: (T, T) -> bool) {
    && (forall a :: !less(a, a))
    && (forall a, b, c :: less(a, b) && less(b, c) ==> less(a, c))
  }

  /** An increasing arrangement of a multiset is unique, even if the order leaves some pairs open. */
  lemma {:induction false} IncreasingIsUnique<T(!new)>(less: (T, T) -> bool, a: seq<T>, b: seq<T>)
    requires StrictOrder(less) && Increasing(less, a) && Increasing(less, b) && multiset(a) == multiset(b)
    ensures a == b
    decreases |a|
  {
    hide StrictOrder, Increasing;
    assert |a| == |multiset(a)| == |multiset(b)| == |b|;
    if a != [] {
      IncreasingEndsAlike(less, a, b);
      var n := |a| - 1;
      IncreasingFront(less, a);
      IncreasingFront(less, b);
      IncreasingIsUnique(less, a[..n], b[..n]);
      assert a == a[..n] + [a[n]] && b == b[..n] + [b[n]];
    }
  }

  lemma IncreasingFront<T>(less: (T, T) -> bool, s: seq<T>)
    requires s != [] && Increasing(less, s)
    ensures Increasing(less, s[..|s| - 1])
    ensures multiset(s[..|s| - 1]) == multiset(s) - multiset{s[|s| - 1]}
  {
    assert s == s[..|s| - 1] + [s[|s| - 1]];
  }

  lemma IncreasingEndsAlike<T(!new)>(less: (T, T) -> bool, a: seq<T>, b: seq<T>)
    requires StrictOrder(less) && Increasing(less, a) && Increasing(less, b) && multiset(a) == multiset(b) && a != []
    ensures b != [] && a[|a| - 1] == b[|b| - 1]
  {
    var x := a[|a| - 1];
    assert x in multiset(b);
    var i :| 0 <= i < |b| && b[i] == x;
    var y := b[|b| - 1];
    assert y in multiset(a);
    var j :| 0 <= j < |a| && a[j] == y;
    if i < |b| - 1 {
      IncreasingPairs(less, b, i, |b| - 1);
      if j < |a| - 1 {
        IncreasingPairs(less, a, j, |a| - 1);
      }
    }
  }

  function NameOf(field: Field): Text { field.name }

  lemma FieldOrder()
    ensures StrictOrder(FieldLess)
  {
    hide TextLess;
    TextIsTotal();
  }

  /** After sorting, no two fields share a name exactly when no neighbours do. */
  lemma NameTwinsAreNeighbours(given: seq<Field>)
    ensures HasNameTwins(Sort(FieldLess, given)) <==> |Sequences.KeysOf(NameOf, given)| < |given|
  {
    hide Sort, FieldLess, StrictOrder;
    var sorted := Sort(FieldLess, given);
    SortMembers(FieldLess, given);
    Sequences.PermutedMembers(sorted, given);
    assert Sequences.KeysOf(NameOf, sorted) == Sequences.KeysOf(NameOf, given);
    Sequences.KeysDifferExactly(NameOf, sorted);
    SortedFields(given);
    if !HasNameTwins(sorted) {
      FieldOrder();
      forall i, j | 0 <= i < j < |sorted| ensures NameOf(sorted[i]) != NameOf(sorted[j]) {
        IncreasingPairs(FieldLess, sorted, i, j);
        NamesDiffer(sorted[i], sorted[j]);
      }
    }
  }

  lemma NamesDiffer(a: Field, b: Field)
    requires FieldLess(a, b)
    ensures a.name != b.name
  {
    hide TextLess;
    TextIsTotal();
  }

  /** Nor does the order in which the fields of a record are given: the same record is built, or the
      same error is reported. */
  lemma RecordFactoryIgnoresOrder(a: seq<Field>, b: seq<Field>)
    requires multiset(a) == multiset(b)
    ensures MakeRecord(a) == MakeRecord(b)
  {
    hide Sort, FieldLess, StrictOrder, HasNameTwins, FieldNameOk, Increasing;
    Sequences.PermutedMembers(a, b);
    assert Sequences.KeysOf(NameOf, a) == Sequences.KeysOf(NameOf, b);
    SameExtremes(a, b, (f: Field) => !FieldNameOk(f.name));
    NameTwinsAreNeighbours(a);
    NameTwinsAreNeighbours(b);
    SortMembers(FieldLess, a);
    SortMembers(FieldLess, b);
    SortedFields(a);
    SortedFields(b);
    FieldOrder();
    if !HasNameTwins(Sort(FieldLess, a)) {
      IncreasingIsUnique(FieldLess, Sort(FieldLess, a), Sort(FieldLess, b));
    }
  }

  // ----- which values a factory builds -----

  /** Some call of a factory built the value; absent, boolean and integer values need no check. */
  ghost predicate Built(v: CapabilityValue) {
    match v
    case Absent => true
    case BooleanValue(_) => true
    case IntegerValue(_) => true
    case QuantityValue(amount, unit) => MakeQuantity(amount, unit) == Ok(v)
    case EnumerationValue(domain, _) => domain != []
    case BitSetValue(bitCount, words) => MakeBitSet(bitCount, words) == Ok(v)
    case NumericSetValue(unit, _) => exists given :: MakeNumericSet(unit, given) == Ok(v)
    case NumericRangeValue(unit, minimum, maximum) => MakeNumericRange(unit, minimum, maximum) == Ok(v)
    case VersionIntervalValue(lower, upper, low, high) => MakeVersionInterval(lower, low, upper, high) == Ok(v)
    case ProtocolSetValue(_) => exists given :: MakeProtocolSet(given) == Ok(v)
    case TupleValue(elements) => MakeTuple(elements) == Ok(v)
    case TupleSetValue(_) => exists given :: MakeTupleSet(given) == Ok(v)
    case RecordValue(_) => exists given :: MakeRecord(given) == Ok(v)
    case OpaqueValue(encoding, payload) => MakeOpaque(encoding, payload) == Ok(v)
    case EnumSetValue(domain, _) => domain != [] && exists given :: MakeEnumSet(domain, given) == Ok(v)
  }

  /** The parts of the value lie in the decoder's bounds: integers, scalars, texts and the fixed
      widths of the fields. */
  predicate InBounds(v: CapabilityValue) {
    match v
    case Absent => true
    case BooleanValue(_) => true
    case IntegerValue(i) => -MAX_INTEGER <= i <= MAX_INTEGER
    case QuantityValue(amount, unit) => unit <= MAX_UNIT && amount <= MAX_QUANTITY
    case EnumerationValue(domain, code) => DomainOk(domain) && code < TWO_TO_32
    case BitSetValue(_, words) => forall i :: 0 <= i < |words| ==> words[i] < TWO_TO_64
    case NumericSetValue(unit, values) =>
      unit <= MAX_UNIT && forall i :: 0 <= i < |values| ==> values[i] <= MAX_QUANTITY
    case NumericRangeValue(unit, _, maximum) => unit <= MAX_UNIT && maximum <= MAX_QUANTITY
    case VersionIntervalValue(lower, upper, _, _) => VersionOk(lower) && VersionOk(upper)
    case ProtocolSetValue(_) => true
    case TupleValue(elements) => TupleOk(elements)
    case TupleSetValue(tuples) => forall i :: 0 <= i < |tuples| ==> TupleOk(tuples[i])
    case RecordValue(fields) => forall i :: 0 <= i < |fields| ==> FieldOk(fields[i])
    case OpaqueValue(encoding, _) => EncodingOk(encoding)
    case EnumSetValue(domain, codes) => DomainOk(domain) && forall i :: 0 <= i < |codes| ==> codes[i] < TWO_TO_32
  }

  lemma SortedSetIsAscending(values: seq<nat>, limit: nat)
    ensures SortedSet(values, limit) <==> 1 <= |values| <= limit && Ascending(values)
  {
  }

  /** The codec carries exactly the canonical values whose parts are in bounds. */
  lemma EncodableExactly(v: CapabilityValue)
    ensures Encodable(v) <==> Canonical(v) && InBounds(v)
  {
    hide BitsAboveCountAreClear, Ascending, SortedSet, VersionLess, SameVersion, Increasing, ScalarOk, LowerToken,
      PrintableToken;
    match v
    case EnumerationValue(domain, _) => TokenLength(domain, MAX_DOMAIN_LENGTH);
    case NumericSetValue(_, values) => SortedSetIsAscending(values, MAX_SET_CARDINALITY);
    case ProtocolSetValue(protocols) => SortedSetIsAscending(protocols, MAX_PROTOCOLS);
    case OpaqueValue(encoding, _) => TokenLength(encoding, MAX_ENCODING_LENGTH);
    case EnumSetValue(domain, codes) =>
      TokenLength(domain, MAX_DOMAIN_LENGTH);
      SortedSetIsAscending(codes, MAX_SET_CARDINALITY);
    case _ =>
  }

  lemma NumberSetIsCanonical(given: seq<nat>, limit: nat)
    requires 1 <= |given| <= limit && !HasTwins(Sort(NatLess, given))
    ensures SortedSet(Sort(NatLess, given), limit)
  {
    SortedNumbers(given);
    SortedSetIsAscending(Sort(NatLess, given), limit);
  }

  lemma ProtocolsAreCanonical(v: CapabilityValue, given: seq<nat>)
    requires MakeProtocolSet(given) == Ok(v)
    ensures Canonical(v)
  {
    hide Sort, SortedSet, HasTwins, ProtocolOk;
    NumberSetIsCanonical(given, MAX_PROTOCOLS);
    SortedNumbers(given);
    forall i | 0 <= i < |v.protocols| ensures ProtocolOk(v.protocols[i]) {
      assert v.protocols[i] in v.protocols && v.protocols[i] in given;
    }
  }

  lemma TuplesAreCanonical(v: CapabilityValue, given: seq<Tuple>)
    requires MakeTupleSet(given) == Ok(v)
    ensures Canonical(v)
  {
    hide Sort, TupleLess, Increasing, HasTupleTwins;
    SortedTuples(given);
    forall i | 0 <= i < |v.tuples| ensures |v.tuples[i]| == |v.tuples[0]| {
      assert v.tuples[i] in v.tuples && v.tuples[0] in v.tuples;
    }
  }

  /** Every value a factory builds passes ValidateCanonical. */
  lemma BuiltIsCanonical(v: CapabilityValue)
    requires Built(v)
    ensures Canonical(v)
  {
    hide Sort, SortedSet, HasTwins, HasTupleTwins, HasNameTwins, Increasing, BitsAboveCountAreClear, VersionLess,
      SameVersion, PrintableToken, LowerToken;
    match v
    case NumericSetValue(unit, values) =>
      var given :| MakeNumericSet(unit, given) == Ok(v);
      NumberSetIsCanonical(given, MAX_SET_CARDINALITY);
    case ProtocolSetValue(protocols) =>
      var given :| MakeProtocolSet(given) == Ok(v);
      ProtocolsAreCanonical(v, given);
    case TupleSetValue(tuples) =>
      var given :| MakeTupleSet(given) == Ok(v);
      TuplesAreCanonical(v, given);
    case RecordValue(fields) =>
      var given :| MakeRecord(given) == Ok(v);
      SortedFields(given);
    case OpaqueValue(encoding, _) => TokenLength(encoding, MAX_ENCODING_LENGTH);
    case EnumSetValue(domain, codes) =>
      var given :| MakeEnumSet(domain, given) == Ok(v);
      NumberSetIsCanonical(given, MAX_SET_CARDINALITY);
    case _ =>
  }

  /** Every value a factory builds is decoded from its encoding exactly when its parts are in
      bounds; what follows the encoding is left alone. */
  lemma BuiltRoundTripsExactly(v: CapabilityValue, rest: seq<byte>)
    requires Built(v)
    ensures InBounds(v) <==> ReadValue(WriteValue(v) + rest) == Parsed(v, rest)
  {
    hide Built, Canonical, InBounds, Encodable, WriteValue, ReadValue;
    BuiltIsCanonical(v);
    EncodableExactly(v);
    if InBounds(v) {
      ValueRoundTrip(v, rest);
    }
    if ReadValue(WriteValue(v) + rest) == Parsed(v, rest) {
      DecodedIsCanonical(WriteValue(v) + rest);
    }
  }
}
