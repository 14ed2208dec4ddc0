/** The typed capability values of value.hpp and value.cpp: their alternatives,
    the equality that compares claims, and the orderings that sort set members. */
module Values {
  type byte = x: int | 0 <= x < 256
  type Text = seq<byte>

  const MAX_VERSION_COMPONENTS: nat := 4

  function PowerOfTwo(n: nat): nat { if n == 0 then 1 else 2 * PowerOfTwo(n - 1) }

  /** Up to four numeric components; the default constructed version has none. */
  datatype Version = Version(components: seq<nat>) {
    /** Missing components read as zero. */
    function Component(i: nat): nat {
      if i < |components| then components[i] else 0
    }

    function Padded(): Version {
      Version([Component(0), Component(1), Component(2), Component(3)])
    }
  }

  predicate SameVersion(a: Version, b: Version) {
    forall i: nat :: i < MAX_VERSION_COMPONENTS ==> a.Component(i) == b.Component(i)
  }

  predicate VersionLess(a: Version, b: Version) {
    exists i: nat :: i < MAX_VERSION_COMPONENTS && a.Component(i) < b.Component(i)
      && forall j: nat :: j < i ==> a.Component(j) == b.Component(j)
  }

  datatype Scalar =
    | Boolean(flag: bool)
    | Signed(integer: int)
    | Unsigned(quantity: nat)
    | Enumeration(domain: Text, code: nat)
    | TextScalar(text: Text)

  datatype Field = Field(name: Text, value: Scalar)

  type Tuple = seq<Scalar>

  datatype CapabilityValue =
    | Absent
    | BooleanValue(flag: bool)
    | IntegerValue(integer: int)
    | QuantityValue(amount: nat, unit: nat)
    | EnumerationValue(domain: Text, code: nat)
    | BitSetValue(bitCount: nat, words: seq<nat>)
    | NumericSetValue(unit: nat, values: seq<nat>)
    | NumericRangeValue(unit: nat, minimum: nat, maximum: nat)
    | VersionIntervalValue(lower: Version, upper: Version, lowerInclusive: bool, upperInclusive: bool)
    | ProtocolSetValue(protocols: seq<nat>)
    | TupleValue(elements: Tuple)
    | TupleSetValue(tuples: seq<Tuple>)
    | RecordValue(fields: seq<Field>)
    | OpaqueValue(encoding: Text, payload: seq<byte>)
    | EnumSetValue(domain: Text, codes: seq<nat>)

  /** The equality of capability values: alternative by alternative, except that
      versions are compared with zero padding. */
  predicate SameValue(a: CapabilityValue, b: CapabilityValue) {
    if a.VersionIntervalValue? && b.VersionIntervalValue? then
      && SameVersion(a.lower, b.lower)
      && SameVersion(a.upper, b.upper)
      && a.lowerInclusive == b.lowerInclusive
      && a.upperInclusive == b.upperInclusive
    else
      a == b
  }

  /** One representative of each class of equal values. */
  function Normal(v: CapabilityValue): CapabilityValue {
    if v.VersionIntervalValue? then v.(lower := v.lower.Padded(), upper := v.upper.Padded()) else v
  }

  lemma SameValueIffNormal(a: CapabilityValue, b: CapabilityValue)
    ensures SameValue(a, b) <==> Normal(a) == Normal(b)
  {
  }

  lemma SameVersionIffPadded(a: Version, b: Version)
    ensures SameVersion(a, b) <==> a.Padded() == b.Padded()
  {
  }
}
