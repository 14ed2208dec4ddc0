/** What a requirement asks, said of the amounts, versions and members a capability offers, and that
    the evaluation answers exactly that: when a requirement holds, when it fails, and when it is open. */
module RequirementLaws {
  import opened Sequences
  import opened Values
  import opened Evidence
  import opened RegistryState
  import opened EvidenceInvariant
  import opened RegistryInvariant
  import opened ResolutionRules
  import opened Requirements
  import opened Winners
  import ValueCodec

  // ----- amounts -----

  /** The unit a comparable value is measured in: a quantity, an interval or a set of quantities. */
  predicate MeasuredIn(v: CapabilityValue, unit: nat) {
    || (v.QuantityValue? && v.unit == unit)
    || (v.NumericRangeValue? && v.unit == unit)
    || (v.NumericSetValue? && v.unit == unit)
  }

  /** The amounts a value offers. */
  predicate Offers(v: CapabilityValue, amount: nat) {
    || (v.QuantityValue? && amount == v.amount)
    || (v.NumericRangeValue? && v.minimum <= amount <= v.maximum)
    || (v.NumericSetValue? && amount in v.values)
  }

  ghost predicate OffersAtLeast(v: CapabilityValue, amount: nat) {
    exists a: nat :: Offers(v, a) && a >= amount
  }

  ghost predicate OffersAtMost(v: CapabilityValue, amount: nat) {
    exists a: nat :: Offers(v, a) && a <= amount
  }

  /** The amount a minimum is held against: of a set the last member, of an empty one zero. */
  function Highest(v: CapabilityValue): nat {
    match v
    case QuantityValue(amount, _) => amount
    case NumericRangeValue(_, _, maximum) => maximum
    case NumericSetValue(_, values) => if |values| > 0 then values[|values| - 1] else 0
    case _ => 0
  }

  /** The amount a maximum is held against: of a set the first member, of an empty one zero. */
  function Lowest(v: CapabilityValue): nat {
    match v
    case QuantityValue(amount, _) => amount
    case NumericRangeValue(_, minimum, _) => minimum
    case NumericSetValue(_, values) => if |values| > 0 then values[0] else 0
    case _ => 0
  }

  /** An interval that is not reversed, or a set that is not empty and whose last member is its greatest. */
  ghost predicate GreatestLast(v: CapabilityValue) {
    match v
    case NumericRangeValue(_, minimum, maximum) => minimum <= maximum
    case NumericSetValue(_, values) => |values| > 0 && forall a :: a in values ==> a <= values[|values| - 1]
    case _ => true
  }

  ghost predicate LeastFirst(v: CapabilityValue) {
    match v
    case NumericRangeValue(_, minimum, maximum) => minimum <= maximum
    case NumericSetValue(_, values) => |values| > 0 && forall a :: a in values ==> values[0] <= a
    case _ => true
  }

  // ----- versions -----

  /** Missing components read as zero. */
  function Part(v: Version, i: nat): nat { if i < |v.components| then v.components[i] else 0 }

  predicate SameParts(a: Version, b: Version) {
    Part(a, 0) == Part(b, 0) && Part(a, 1) == Part(b, 1) && Part(a, 2) == Part(b, 2) && Part(a, 3) == Part(b, 3)
  }

  /** a comes before b, compared from the first component on. */
  predicate Earlier(a: Version, b: Version) {
    || Part(a, 0) < Part(b, 0)
    || (Part(a, 0) == Part(b, 0)
        && (|| Part(a, 1) < Part(b, 1)
            || (Part(a, 1) == Part(b, 1)
                && (Part(a, 2) < Part(b, 2) || (Part(a, 2) == Part(b, 2) && Part(a, 3) < Part(b, 3))))))
  }

  /** Between the bounds, each of which belongs to the interval only if it is inclusive. */
  predicate InInterval(v: Version, interval: CapabilityValue)
    requires interval.VersionIntervalValue?
  {
    && (Earlier(interval.lower, v) || (interval.lowerInclusive && SameParts(interval.lower, v)))
    && (Earlier(v, interval.upper) || (interval.upperInclusive && SameParts(v, interval.upper)))
  }

  lemma VersionLessIsEarlier(a: Version, b: Version)
    ensures VersionLess(a, b) <==> Earlier(a, b)
  {

    assert a.Component(0) == Part(a, 0) && b.Component(0) == Part(b, 0);
    assert a.Component(1) == Part(a, 1) && b.Component(1) == Part(b, 1);
    assert a.Component(2) == Part(a, 2) && b.Component(2) == Part(b, 2);
    assert a.Component(3) == Part(a, 3) && b.Component(3) == Part(b, 3);
  }

  lemma EarlierIsTotal(a: Version, b: Version)
    ensures Earlier(a, b) || Earlier(b, a) || SameParts(a, b)
    ensures !(Earlier(a, b) && Earlier(b, a)) && (SameParts(a, b) ==> !Earlier(a, b) && !Earlier(b, a))
  {
  }

  // ----- what a leaf asks -----

  /** A supported capability exposes the kind of value the requirement compares, in its unit. */
  predicate Comparable(r: Requirement, o: Observation) {
    match r.kind
    case StateIs => true
    case BooleanEquals => o.hasValue && o.value.BooleanValue? && r.operand.BooleanValue?
    case VersionContains => o.hasValue && o.value.VersionIntervalValue?
    case ProtocolSupported => o.hasValue && o.value.ProtocolSetValue?
    case EnumerationSupported => o.hasValue && o.value.EnumSetValue?
    case AllOf => false
    case AnyOf => false
    case Not => false
    case _ => r.operand.QuantityValue? && MeasuredIn(o.value, r.operand.unit)
  }

  /** The comparison holds. */
  predicate Meets(r: Requirement, o: Observation)
    requires Comparable(r, o)
  {
    match r.kind
    case StateIs => o.state == r.requiredState
    case BooleanEquals => o.value == r.operand
    case Minimum => r.operand.amount <= Highest(o.value)
    case Maximum => Lowest(o.value) <= r.operand.amount
    case RangeContains => !o.value.NumericSetValue? && Offers(o.value, r.operand.amount)
    case InSet => o.value.NumericSetValue? && Offers(o.value, r.operand.amount)
    case VersionContains => InInterval(r.operandVersion, o.value)
    case ProtocolSupported => r.operandProtocol in o.value.protocols
    case EnumerationSupported => r.operandCode in o.value.codes
  }

  // ----- what a requirement asks -----

  /** The requirement is proven to hold. */
  ghost predicate Holds(r: Requirement, view: Id -> Observation)
    decreases r
  {
    match r.kind
    case AllOf => forall i :: 0 <= i < |r.children| ==> Holds(r.children[i], view)
    case AnyOf => exists i :: 0 <= i < |r.children| && Holds(r.children[i], view)
    case Not => |r.children| > 0 && Fails(r.children[0], view)
    case _ =>
      var o := view(r.capability);
      o.state == Supported && Comparable(r, o) && Meets(r, o)
  }

  /** The requirement is decided not to hold: by a comparison that fails, or, unless proof is
      demanded, by a capability that is not supported. */
  ghost predicate Fails(r: Requirement, view: Id -> Observation)
    decreases r
  {
    match r.kind
    case AllOf => exists i :: 0 <= i < |r.children| && Fails(r.children[i], view)
    case AnyOf => forall i :: 0 <= i < |r.children| ==> Fails(r.children[i], view)
    case Not => |r.children| > 0 && Holds(r.children[0], view)
    case _ =>
      var o := view(r.capability);
      if o.state == Supported then Comparable(r, o) && !Meets(r, o) else !r.requireProof
  }

  // ----- the answers -----

  lemma VersionAnswer(r: Requirement, v: CapabilityValue)
    requires v.VersionIntervalValue?
    ensures CompareVersion(r, v) == if InInterval(r.operandVersion, v) then Satisfied else NotSatisfied
  {
    hide Earlier, VersionLess, SameParts;
    VersionLessIsEarlier(r.operandVersion, v.lower);
    VersionLessIsEarlier(v.lower, r.operandVersion);
    VersionLessIsEarlier(r.operandVersion, v.upper);
    VersionLessIsEarlier(v.upper, r.operandVersion);
    EarlierIsTotal(r.operandVersion, v.lower);
    EarlierIsTotal(r.operandVersion, v.upper);
    SamePartsIsSymmetric(r.operandVersion, v.lower);
  }

  lemma SamePartsIsSymmetric(a: Version, b: Version)
    ensures SameParts(a, b) <==> SameParts(b, a)
  {
  }

  /** A leaf over a supported capability is open exactly when its value cannot be compared. */
  lemma SupportedLeafAnswer(r: Requirement, o: Observation)
    requires o.state == Supported && !Compound(r)
    ensures LeafAnswer(r, o) ==
            if !Comparable(r, o) then Undetermined else if Meets(r, o) then Satisfied else NotSatisfied
  {
    hide InInterval, CompareVersion;
    if r.kind.VersionContains? && o.value.VersionIntervalValue? {
      VersionAnswer(r, o.value);
    }
  }

  lemma {:induction false} AnswersOfChildren(children: seq<Requirement>, view: Id -> Observation)
    ensures forall i :: 0 <= i < |children| ==> EvaluateAll(children, view)[i] == Evaluate(children[i], view)
    decreases |children|
  {
    hide Evaluate;
    if children != [] {
      AnswersOfChildren(children[..|children| - 1], view);
    }
  }

  /** A requirement is answered Satisfied exactly when it holds, NotSatisfied exactly when it fails,
      and Undetermined otherwise. */
  lemma {:induction false} EvaluateExactly(r: Requirement, view: Id -> Observation)
    ensures Evaluate(r, view) == Satisfied <==> Holds(r, view)
    ensures Evaluate(r, view) == NotSatisfied <==> Fails(r, view)
    decreases r
  {
    hide LeafAnswer, Comparable, Meets;
    if Compound(r) {
      AnswersOfChildren(r.children, view);
      forall i | 0 <= i < |r.children|
        ensures Evaluate(r.children[i], view) == Satisfied <==> Holds(r.children[i], view)
        ensures Evaluate(r.children[i], view) == NotSatisfied <==> Fails(r.children[i], view)
      {
        EvaluateExactly(r.children[i], view);
      }
    } else {
      LeafIsExact(r, view);
    }
  }

  lemma LeafIsExact(r: Requirement, view: Id -> Observation)
    requires !Compound(r)
    ensures Evaluate(r, view) == Satisfied <==> Holds(r, view)
    ensures Evaluate(r, view) == NotSatisfied <==> Fails(r, view)
  {
    hide Comparable, Meets, CompareSupported;
    var o := view(r.capability);
    if o.state == Supported {
      SupportedLeafAnswer(r, o);
    }
  }

  // ----- bounds and what is offered -----

  /** A minimum is answered by the greatest amount on offer exactly for values whose last amount is
      the greatest; an empty set is taken to offer zero, a reversed interval its upper end. */
  lemma MinimumIsOfferedExactly(v: CapabilityValue, unit: nat)
    requires MeasuredIn(v, unit)
    ensures (forall amount: nat :: amount <= Highest(v) <==> OffersAtLeast(v, amount)) <==> GreatestLast(v)
  {
    if GreatestLast(v) {
      assert Offers(v, Highest(v));
    } else {
      var amount := Highest(v);
      assert amount <= Highest(v);
      if v.NumericSetValue? && |v.values| > 0 {
        var a :| a in v.values && a > Highest(v);
        assert Offers(v, a) && OffersAtLeast(v, a) && !(a <= Highest(v));
      } else {
        assert !OffersAtLeast(v, amount);
      }
    }
  }

  lemma MaximumIsOfferedExactly(v: CapabilityValue, unit: nat)
    requires MeasuredIn(v, unit)
    ensures (forall amount: nat :: Lowest(v) <= amount <==> OffersAtMost(v, amount)) <==> LeastFirst(v)
  {
    if LeastFirst(v) {
      assert Offers(v, Lowest(v));
    } else {
      var amount := Lowest(v);
      assert Lowest(v) <= amount;
      if v.NumericSetValue? && |v.values| > 0 {
        var a :| a in v.values && a < Lowest(v);
        assert Offers(v, a) && OffersAtMost(v, a) && !(Lowest(v) <= a);
      } else {
        assert !OffersAtMost(v, amount);
      }
    }
  }

  lemma {:induction false} AscendsThrough(values: seq<nat>, i: nat, j: nat)
    requires i <= j < |values| && forall k :: 0 < k < |values| ==> values[k - 1] <= values[k]
    ensures values[i] <= values[j]
    decreases j
  {
    if i < j {
      AscendsThrough(values, i, j - 1);
    }
  }

  /** Every canonical value has its least amount first and its greatest last. */
  lemma CanonicalAmountsAreOrdered(v: CapabilityValue)
    requires ValueCodec.Canonical(v)
    ensures GreatestLast(v) && LeastFirst(v)
  {
    if v.NumericSetValue? {
      var n := |v.values|;
      assert forall k :: 0 < k < n ==> !ValueCodec.NatLess(v.values[k], v.values[k - 1]);
      forall a | a in v.values ensures v.values[0] <= a <= v.values[n - 1] {
        var i :| 0 <= i < n && v.values[i] == a;
        AscendsThrough(v.values, 0, i);
        AscendsThrough(v.values, i, n - 1);
      }
    }
  }

  /** For canonical values: a minimum is satisfied exactly when some offered amount reaches it, and a
      maximum exactly when some offered amount stays within it. */
  lemma BoundsHoldExactly(r: Requirement, view: Id -> Observation)
    requires r.kind.Minimum? || r.kind.Maximum?
    requires r.operand.QuantityValue? && view(r.capability).state == Supported
    requires MeasuredIn(view(r.capability).value, r.operand.unit)
    requires ValueCodec.Canonical(view(r.capability).value)
    ensures Evaluate(r, view) == Satisfied <==>
              if r.kind.Minimum? then OffersAtLeast(view(r.capability).value, r.operand.amount)
              else OffersAtMost(view(r.capability).value, r.operand.amount)
    ensures Evaluate(r, view) != Undetermined
  {
    hide Evaluate, OffersAtLeast, OffersAtMost;
    var v := view(r.capability).value;
    EvaluateExactly(r, view);
    CanonicalAmountsAreOrdered(v);
    MinimumIsOfferedExactly(v, r.operand.unit);
    MaximumIsOfferedExactly(v, r.operand.unit);
  }

  // ----- what is recorded -----

  /** The child numbers lead from one requirement down to another. */
  ghost predicate Leads(r: Requirement, steps: seq<nat>, sub: Requirement)
    decreases |steps|
  {
    if steps == [] then sub == r else steps[0] < |r.children| && Leads(r.children[steps[0]], steps[1..], sub)
  }

  ghost predicate Says(answer: Answer, r: Requirement, view: Id -> Observation) {
    (answer.Satisfied? <==> Holds(r, view)) && (answer.NotSatisfied? <==> Fails(r, view))
  }

  /** The record of the node that the child numbers lead to. */
  ghost predicate RecordOf(x: NodeResult, r: Requirement, path: Path, steps: seq<nat>, sub: Requirement,
                           view: Id -> Observation) {
    && Leads(r, steps, sub) && x.path == path + steps
    && x.kind == sub.kind && x.capability == sub.capability && Says(x.answer, sub, view)
  }

  ghost predicate Recorded(x: NodeResult, r: Requirement, path: Path, view: Id -> Observation) {
    exists steps, sub :: RecordOf(x, r, path, steps, sub, view)
  }

  lemma SaysExactly(answer: Answer, r: Requirement, view: Id -> Observation)
    ensures Says(answer, r, view) <==> answer == Evaluate(r, view)
  {
    hide Evaluate, Holds, Fails;
    EvaluateExactly(r, view);
  }

  /** The result is one of the child of that number. */
  predicate FromChild(x: NodeResult, children: seq<Requirement>, path: Path, k: nat, view: Id -> Observation) {
    k < |children| && x in Results(children[k], path + [k], view)
  }

  lemma FromFrontChild(x: NodeResult, children: seq<Requirement>, path: Path, k: nat, view: Id -> Observation)
    requires k < |children| - 1
    ensures FromChild(x, children[..|children| - 1], path, k, view) <==> FromChild(x, children, path, k, view)
  {
    hide Results;
  }

  lemma OfFrontOrLast(children: seq<Requirement>, path: Path, view: Id -> Observation, x: NodeResult)
    requires children != []
    ensures x in ResultsOf(children, path, view) <==>
              || x in ResultsOf(children[..|children| - 1], path, view)
              || FromChild(x, children, path, |children| - 1, view)
  {
    hide Results;
  }

  lemma {:induction false} RecordedBelow(children: seq<Requirement>, path: Path, view: Id -> Observation, x: NodeResult)
    ensures x in ResultsOf(children, path, view) <==> exists k: nat :: FromChild(x, children, path, k, view)
    decreases |children|
  {
    if children != [] {
      var n := |children| - 1;
      var front := children[..n];
      RecordedBelow(front, path, view, x);
      OfFrontOrLast(children, path, view, x);
      hide Results, ResultsOf;
      if k: nat :| FromChild(x, front, path, k, view) {
        FromFrontChild(x, children, path, k, view);
      }
      if k: nat :| FromChild(x, children, path, k, view) {
        if k < n {
          FromFrontChild(x, children, path, k, view);
        }
      }
    }
  }

  lemma RecordedThroughChild(x: NodeResult, r: Requirement, path: Path, k: nat, view: Id -> Observation)
    requires k < |r.children| && Recorded(x, r.children[k], path + [k], view)
    ensures Recorded(x, r, path, view)
  {
    hide Says;
    var steps, sub :| RecordOf(x, r.children[k], path + [k], steps, sub, view);
    var all := [k] + steps;
    assert all[1..] == steps && path + [k] + steps == path + all;
    assert RecordOf(x, r, path, all, sub, view);
  }

  /** Either the record of the requirement itself, or one of a child's. */
  lemma OwnOrBelow(x: NodeResult, r: Requirement, path: Path, view: Id -> Observation, isRoot: bool)
    requires WellFormed(r, isRoot)
    ensures x in Results(r, path, view) <==>
              || x == NodeResult(path, r.kind, r.capability, Evaluate(r, view))
              || exists k: nat :: FromChild(x, r.children, path, k, view)
  {
    hide Evaluate, OperandFits, FromChild, ResultsOf;
    RecordedBelow(r.children, path, view, x);
    NoResultsOfNone(path, view);
  }

  lemma NoResultsOfNone(path: Path, view: Id -> Observation)
    ensures ResultsOf([], path, view) == []
  {
  }

  lemma RecordedHereOrBelow(x: NodeResult, r: Requirement, path: Path, view: Id -> Observation)
    ensures Recorded(x, r, path, view) <==>
              || x == NodeResult(path, r.kind, r.capability, Evaluate(r, view))
              || exists k: nat :: k < |r.children| && Recorded(x, r.children[k], path + [k], view)
  {
    hide Evaluate, Says;
    SaysExactly(x.answer, r, view);
    if x == NodeResult(path, r.kind, r.capability, Evaluate(r, view)) {
      assert path + [] == path;
      assert RecordOf(x, r, path, [], r, view);
    }
    if k: nat :| k < |r.children| && Recorded(x, r.children[k], path + [k], view) {
      RecordedThroughChild(x, r, path, k, view);
    }
    if steps, sub :| RecordOf(x, r, path, steps, sub, view) {
      if steps == [] {
        assert path + steps == path;
      } else {
        assert path + steps == path + [steps[0]] + steps[1..];
        assert RecordOf(x, r.children[steps[0]], path + [steps[0]], steps[1..], sub, view);
      }
    }
  }

  /** A requirement's results are the records of its nodes, each under its path from the root. */
  lemma {:induction false} ResultsExactly(r: Requirement, path: Path, view: Id -> Observation, isRoot: bool,
                                          x: NodeResult)
    requires WellFormed(r, isRoot)
    ensures x in Results(r, path, view) <==> Recorded(x, r, path, view)
    decreases r
  {
    OwnOrBelow(x, r, path, view, isRoot);
    RecordedHereOrBelow(x, r, path, view);
    forall k: nat | k < |r.children|
      ensures FromChild(x, r.children, path, k, view) <==> Recorded(x, r.children[k], path + [k], view)
    {
      ChildIsWellFormed(r.children, k);
      ResultsExactly(r.children[k], path + [k], view, false, x);
    }
    hide Evaluate, Recorded, Results, FromChild;
    if k: nat :| FromChild(x, r.children, path, k, view) {
      FromSomeChild(x, r.children, path, k, view);
    }
  }

  lemma FromSomeChild(x: NodeResult, children: seq<Requirement>, path: Path, k: nat, view: Id -> Observation)
    requires FromChild(x, children, path, k, view)
    ensures k < |children|
  {
    hide Results;
  }

  lemma {:induction false} ChildIsWellFormed(children: seq<Requirement>, k: nat)
    requires AllWellFormed(children) && k < |children|
    ensures WellFormed(children[k], false)
    decreases |children|
  {
    hide WellFormed;
    if k < |children| - 1 {
      ChildIsWellFormed(children[..|children| - 1], k);
    }
  }

  // ----- valid requirements -----

  /** The operand a leaf of each kind needs. */
  predicate HasOperand(r: Requirement) {
    && (r.kind.BooleanEquals? ==> r.operand.BooleanValue?)
    && (r.kind.Minimum? || r.kind.Maximum? || r.kind.RangeContains? || r.kind.InSet? ==> r.operand.QuantityValue?)
    && (r.kind.VersionContains? ==> |r.operandVersion.components| > 0)
    && (r.kind.ProtocolSupported? ==> r.operandProtocol != 0)
  }

  /** Every node has what its kind needs, and no node lies deeper than `depth` levels below this one. */
  ghost predicate Sound(r: Requirement, isRoot: bool, depth: int)
    decreases r
  {
    && depth >= 0
    && (r.kind.Not? ==> !isRoot && |r.children| == 1)
    && (r.kind.AllOf? || r.kind.AnyOf? ==> |r.children| > 0)
    && (!r.kind.Not? && !r.kind.AllOf? && !r.kind.AnyOf? ==> r.capability != 0 && |r.children| == 0 && HasOperand(r))
    && forall i :: 0 <= i < |r.children| ==> Sound(r.children[i], false, depth - 1)
  }

  lemma {:induction false} SoundIsWellFormed(r: Requirement, isRoot: bool, depth: int)
    ensures Sound(r, isRoot, depth) <==> WellFormed(r, isRoot) && Shallow(r, depth)
    decreases r, 0
  {
    hide OperandFits, HasOperand;
    LeafOperands(r);
    SoundIsWellFormedAll(r.children, depth - 1);
  }

  lemma LeafOperands(r: Requirement)
    ensures !Compound(r) ==> (OperandFits(r) <==> HasOperand(r))
  {
  }

  lemma {:induction false} SoundIsWellFormedAll(children: seq<Requirement>, depth: int)
    ensures (forall i :: 0 <= i < |children| ==> Sound(children[i], false, depth)) <==>
              AllWellFormed(children) && AllShallow(children, depth)
    decreases children, |children|
  {
    hide Sound, WellFormed, Shallow;
    if children != [] {
      var n := |children| - 1;
      SoundIsWellFormedAll(children[..n], depth);
      SoundIsWellFormed(children[n], false, depth);
      assert (forall i :: 0 <= i < |children| ==> Sound(children[i], false, depth)) <==>
             (forall i :: 0 <= i < n ==> Sound(children[..n][i], false, depth)) && Sound(children[n], false, depth);
    }
  }

  /** A requirement is accepted exactly when it is sound, at most 8 levels deep below its root, and
      has at most 256 nodes. */
  lemma AcceptedExactly(r: Requirement)
    ensures Validate(r, 0, 0, true).refusal == None <==> Sound(r, true, 8) && Size(r) <= 256
  {
    ValidExactlyWhen(r);
    SoundIsWellFormed(r, true, 8);
  }

  /** What a refusal says about one node, `depth` levels below the root. */
  predicate IsFault(r: Requirement, isRoot: bool, depth: nat, fault: Refusal) {
    var leaf := !r.kind.Not? && !r.kind.AllOf? && !r.kind.AnyOf?;
    match fault
    case NestingTooDeep => depth > 8
    case TooManyNodes => false
    case NoChildren => (r.kind.AllOf? || r.kind.AnyOf?) && |r.children| == 0
    case NotAtRoot => r.kind.Not? && isRoot
    case NotNeedsOneChild => r.kind.Not? && |r.children| != 1
    case NoCapability => leaf && r.capability == 0
    case LeafWithChildren => leaf && |r.children| > 0
    case OperandMismatch => leaf && !HasOperand(r)
  }

  ghost predicate HasFault(r: Requirement, isRoot: bool, depth: nat, fault: Refusal)
    decreases r
  {
    || IsFault(r, isRoot, depth, fault)
    || exists i :: 0 <= i < |r.children| && HasFault(r.children[i], false, depth + 1, fault)
  }

  /** The refusal names a fault: a node that has it, or too many nodes in all. */
  lemma {:induction false} RefusalNamesFault(r: Requirement, depth: nat, nodes: nat, isRoot: bool)
    requires nodes <= 256 && Validate(r, depth, nodes, isRoot).refusal.Some?
    ensures var refusal := Validate(r, depth, nodes, isRoot).refusal.value;
            if refusal.TooManyNodes? then nodes + Size(r) > 256 else HasFault(r, isRoot, depth, refusal)
    decreases r, 0
  {
    hide OperandFits, HasOperand;
    LeafOperands(r);
    var refusal := Validate(r, depth, nodes, isRoot).refusal.value;
    if !IsFault(r, isRoot, depth, refusal) && nodes + 1 <= 256 {
      var i := ChildIsRefused(r.children, depth + 1, nodes + 1);
      assert refusal.TooManyNodes? || HasFault(r.children[i], false, depth + 1, refusal);
    }
  }

  lemma {:induction false} ChildIsRefused(children: seq<Requirement>, depth: nat, nodes: nat) returns (i: nat)
    requires nodes <= 256 && ValidateAll(children, depth, nodes).refusal.Some?
    ensures i < |children|
    ensures var refusal := ValidateAll(children, depth, nodes).refusal.value;
            if refusal.TooManyNodes? then nodes + SizeOf(children) > 256
            else HasFault(children[i], false, depth, refusal)
    decreases children, |children|
  {
    hide Validate, HasFault, Size;
    var n := |children| - 1;
    var front := ValidateAll(children[..n], depth, nodes);
    if front.refusal.Some? {
      i := ChildIsRefused(children[..n], depth, nodes);
    } else {
      i := n;
      ValidateAllMeaning(children[..n], depth, nodes);
      RefusalNamesFault(children[n], depth, front.nodes, false);
    }
  }

  // ----- requirements over the registry -----

  /** The evidence proves the capability: its strongest class agrees, through w, that it is supported. */
  ghost predicate ProvenBy(st: State, e: Id, c: Id, w: Record) {
    && e in st.entities && c in st.entities[e].capabilities
    && var evidence := st.entities[e].capabilities[c].evidence;
       Speaks(w, evidence) && w.currentness.Current? && VotesAgree(w, evidence) && w.claim.state.Supported?
  }

  /** What a requirement is told of a capability that w proves. */
  function ToldBy(w: Record): Observation { Observation(Supported, w.claim.value != Absent, w.claim.value) }

  lemma SpokenSupport(r: Resolution, capability: Id, generation: nat, evidence: seq<Record>, w: Record)
    requires KeyOrdered(evidence) && Resolved(r, capability, generation, evidence) && Speaks(w, evidence)
    requires w.currentness.Current? && VotesAgree(w, evidence)
    ensures r.state == w.claim.state && r.value == w.claim.value
  {
    hide KeyOrdered, Speaks, VotesAgree, CountsMatch, NamesConflict;
    SpeakerIsRetained(w, evidence);
    var x :| Speaks(x, evidence) && DecidedFor(r, x, evidence);
    SpeakerIsUnique(x, w, evidence);
  }

  lemma SupportIsSpoken(r: Resolution, capability: Id, generation: nat, evidence: seq<Record>) returns (w: Record)
    requires Resolved(r, capability, generation, evidence) && r.state.Supported?
    ensures Speaks(w, evidence) && w.currentness.Current? && VotesAgree(w, evidence) && w.claim.state.Supported?
  {
    hide Speaks, VotesAgree, CountsMatch, NamesConflict;
    w :| Speaks(w, evidence) && DecidedFor(r, w, evidence);
  }

  lemma CachedIsResolved(env: Environment, st: State, e: Id, c: Id)
    requires StateOk(env, st) && e in st.entities && c in st.entities[e].capabilities
    ensures var entry := st.entities[e].capabilities[c];
            && KeyOrdered(entry.evidence) && entry.resolution.Some?
            && ResolutionOf(c, entry) == entry.resolution.value
            && Resolved(entry.resolution.value, c, entry.generation, entry.evidence)
  {
    hide Resolve, Resolved, RecordOk;
    var entry := st.entities[e].capabilities[c];
    assert EntityOk(ContextOf(env, st), e, st.entities[e]);
    assert EntryOk(ContextOf(env, st), st.entities[e], c, entry);
    SyncedIsResolved(c, entry);
  }

  lemma ViewOfProven(env: Environment, st: State, e: Id, c: Id, w: Record)
    requires StateOk(env, st) && ProvenBy(st, e, c, w)
    ensures ViewOf(st, e)(c) == ToldBy(w)
  {
    hide StateOk, Resolved, KeyOrdered, Speaks, VotesAgree, ResolutionOf;
    var entry := st.entities[e].capabilities[c];
    CachedIsResolved(env, st, e, c);
    SpokenSupport(entry.resolution.value, c, entry.generation, entry.evidence, w);
  }

  lemma SupportedIsProven(env: Environment, st: State, e: Id, c: Id) returns (w: Record)
    requires StateOk(env, st) && ViewOf(st, e)(c).state.Supported?
    ensures ProvenBy(st, e, c, w)
  {
    hide StateOk, Resolved, KeyOrdered, Speaks, VotesAgree, ResolutionOf;
    CachedIsResolved(env, st, e, c);
    var entry := st.entities[e].capabilities[c];
    w := SupportIsSpoken(entry.resolution.value, c, entry.generation, entry.evidence);
  }

  /** What the registry answers for a leaf follows from the evidence: the value of the record that
      proves the capability is compared; without such a record the leaf is open if it demands proof
      and not satisfied otherwise. */
  lemma RegistryAnswer(env: Environment, st: State, e: Id, r: Requirement)
    requires StateOk(env, st) && !Compound(r)
    ensures forall w :: ProvenBy(st, e, r.capability, w) ==>
              Evaluate(r, ViewOf(st, e)) ==
              if !Comparable(r, ToldBy(w)) then Undetermined else if Meets(r, ToldBy(w)) then Satisfied
              else NotSatisfied
    ensures (forall w :: !ProvenBy(st, e, r.capability, w)) ==>
              Evaluate(r, ViewOf(st, e)) == if r.requireProof then Undetermined else NotSatisfied
  {
    hide StateOk, ProvenBy, Meets, Comparable, ViewOf, CompareSupported;
    forall w | ProvenBy(st, e, r.capability, w)
      ensures Evaluate(r, ViewOf(st, e)) ==
              if !Comparable(r, ToldBy(w)) then Undetermined else if Meets(r, ToldBy(w)) then Satisfied
              else NotSatisfied
    {
      ViewOfProven(env, st, e, r.capability, w);
      SupportedLeafAnswer(r, ToldBy(w));
    }
    if ViewOf(st, e)(r.capability).state.Supported? {
      var w := SupportedIsProven(env, st, e, r.capability);
    }
  }
}
