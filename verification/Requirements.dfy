/** Three-valued requirement evaluation: which requirements are valid, that every
    tree node is recorded exactly once, and that a decided answer survives any
    change to what was not proven. */
module Requirements {
  import opened Sequences
  import opened Values
  import opened Evidence
  import opened RegistryState
  import opened RegistrySteps
  import opened Publications

  const MAX_DEPTH: nat := 8
  const MAX_NODES: nat := 256

  datatype Kind =
    | StateIs | BooleanEquals | Minimum | Maximum | InSet | RangeContains | VersionContains | ProtocolSupported
    | EnumerationSupported | AllOf | AnyOf | Not

  datatype Requirement = Requirement(
    kind: Kind, capability: Id, requiredState: CapabilityState, operand: CapabilityValue, operandVersion: Version,
    operandProtocol: nat, operandCode: nat, requireProof: bool, children: seq<Requirement>)

  datatype Answer = Satisfied | NotSatisfied | Undetermined

  datatype Refusal =
    | NestingTooDeep | TooManyNodes | NoChildren | NotAtRoot | NotNeedsOneChild | NoCapability | LeafWithChildren
    | OperandMismatch

  predicate Compound(r: Requirement) { r.kind.AllOf? || r.kind.AnyOf? || r.kind.Not? }

  // ----- shape -----

  function Size(r: Requirement): (size: nat)
    ensures size >= 1
    decreases r, 0
  {
    1 + SizeOf(r.children)
  }

  function SizeOf(children: seq<Requirement>): nat
    decreases children, |children|
  {
    if children == [] then 0 else SizeOf(children[..|children| - 1]) + Size(children[|children| - 1])
  }

  /** No node lies more than `budget` levels below this one. */
  predicate Shallow(r: Requirement, budget: int)
    decreases r, 0
  {
    budget >= 0 && AllShallow(r.children, budget - 1)
  }

  predicate AllShallow(children: seq<Requirement>, budget: int)
    decreases children, |children|
  {
    children == [] || (AllShallow(children[..|children| - 1], budget) && Shallow(children[|children| - 1], budget))
  }

  predicate OperandFits(r: Requirement) {
    match r.kind
    case BooleanEquals => r.operand.BooleanValue?
    case Minimum => r.operand.QuantityValue?
    case Maximum => r.operand.QuantityValue?
    case RangeContains => r.operand.QuantityValue?
    case InSet => r.operand.QuantityValue?
    case VersionContains => r.operandVersion.components != []
    case ProtocolSupported => r.operandProtocol != 0
    case _ => true
  }

  /** Every node has the children and the operand its kind needs. */
  predicate WellFormed(r: Requirement, isRoot: bool)
    decreases r, 0
  {
    if r.kind.Not? then !isRoot && |r.children| == 1 && AllWellFormed(r.children)
    else if Compound(r) then r.children != [] && AllWellFormed(r.children)
    else r.capability != 0 && r.children == [] && OperandFits(r)
  }

  predicate AllWellFormed(children: seq<Requirement>)
    decreases children, |children|
  {
    children == [] || (AllWellFormed(children[..|children| - 1]) && WellFormed(children[|children| - 1], false))
  }

  // ----- validation -----

  datatype Validation = Validation(refusal: Option<Refusal>, nodes: nat)

  function ValidateLeaf(r: Requirement): Option<Refusal> {
    if r.capability == 0 then Some(NoCapability)
    else if r.children != [] then Some(LeafWithChildren)
    else if !OperandFits(r) then Some(OperandMismatch)
    else None
  }

  /** ValidateNode with the node counter passed through. */
  function Validate(r: Requirement, depth: nat, nodes: nat, isRoot: bool): Validation
    decreases r, 0
  {
    if depth > MAX_DEPTH then Validation(Some(NestingTooDeep), nodes)
    else if nodes + 1 > MAX_NODES then Validation(Some(TooManyNodes), nodes + 1)
    else if r.kind.Not? then
      if isRoot then Validation(Some(NotAtRoot), nodes + 1)
      else if |r.children| != 1 then Validation(Some(NotNeedsOneChild), nodes + 1)
      else ValidateAll(r.children, depth + 1, nodes + 1)
    else if Compound(r) then
      if r.children == [] then Validation(Some(NoChildren), nodes + 1)
      else ValidateAll(r.children, depth + 1, nodes + 1)
    else Validation(ValidateLeaf(r), nodes + 1)
  }

  function ValidateAll(children: seq<Requirement>, depth: nat, nodes: nat): Validation
    decreases children, |children|
  {
    if children == [] then Validation(None, nodes)
    else
      var n := |children| - 1;
      var front := ValidateAll(children[..n], depth, nodes);
      if front.refusal.Some? then front else Validate(children[n], depth, front.nodes, false)
  }

  lemma {:induction false} ValidateMeaning(r: Requirement, depth: nat, nodes: nat, isRoot: bool)
    requires nodes <= MAX_NODES
    ensures Validate(r, depth, nodes, isRoot).refusal == None <==>
              WellFormed(r, isRoot) && Shallow(r, MAX_DEPTH - depth) && nodes + Size(r) <= MAX_NODES
    ensures Validate(r, depth, nodes, isRoot).refusal == None ==>
              Validate(r, depth, nodes, isRoot).nodes == nodes + Size(r)
    decreases r, 0
  {
    hide OperandFits;
    if depth <= MAX_DEPTH && nodes + 1 <= MAX_NODES {
      ValidateAllMeaning(r.children, depth + 1, nodes + 1);
    }
  }

  lemma {:induction false} ValidateAllMeaning(children: seq<Requirement>, depth: nat, nodes: nat)
    requires nodes <= MAX_NODES
    ensures ValidateAll(children, depth, nodes).refusal == None <==>
              AllWellFormed(children) && AllShallow(children, MAX_DEPTH - depth)
                  && nodes + SizeOf(children) <= MAX_NODES
    ensures ValidateAll(children, depth, nodes).refusal == None ==>
              ValidateAll(children, depth, nodes).nodes == nodes + SizeOf(children)
    decreases children, |children|
  {
    hide Validate, WellFormed, Shallow, Size;
    if children != [] {
      var n := |children| - 1;
      ValidateAllMeaning(children[..n], depth, nodes);
      var front := ValidateAll(children[..n], depth, nodes);
      if front.refusal == None {
        ValidateMeaning(children[n], depth, front.nodes, false);
      }
    }
  }

  /** A requirement is valid exactly when it is well formed, at most 8 levels deep below its root
      and has at most 256 nodes. */
  lemma ValidExactlyWhen(r: Requirement)
    ensures Validate(r, 0, 0, true).refusal == None <==>
              WellFormed(r, true) && Shallow(r, MAX_DEPTH) && Size(r) <= MAX_NODES
  {
    ValidateMeaning(r, 0, 0, true);
  }

  // ----- evaluation of a leaf -----

  /** What the registry answers for one capability. */
  datatype Observation = Observation(state: CapabilityState, hasValue: bool, value: CapabilityValue)

  /** The quantity an observed value exposes for comparison. */
  datatype ObservedQuantity = ObservedQuantity(present: bool, minimum: nat, maximum: nat, unit: nat, isSet: bool,
                                               members: seq<nat>)

  function ExtractQuantity(value: CapabilityValue): ObservedQuantity {
    match value
    case QuantityValue(amount, unit) => ObservedQuantity(true, amount, amount, unit, false, [])
    case NumericRangeValue(unit, minimum, maximum) => ObservedQuantity(true, minimum, maximum, unit, false, [])
    case NumericSetValue(unit, values) =>
      if values == [] then ObservedQuantity(true, 0, 0, unit, true, [])
      else ObservedQuantity(true, values[0], values[|values| - 1], unit, true, values)
    case _ => ObservedQuantity(false, 0, 0, 0, false, [])
  }

  function Decided(holds: bool): Answer { if holds then Satisfied else NotSatisfied }

  function CompareQuantity(r: Requirement, observed: CapabilityValue): Answer {
    var q := ExtractQuantity(observed);
    if !q.present || !r.operand.QuantityValue? || q.unit != r.operand.unit then Undetermined
    else
      var amount := r.operand.amount;
      match r.kind
      case Minimum => Decided(q.maximum >= amount)
      case Maximum => Decided(q.minimum <= amount)
      case RangeContains => Decided(!q.isSet && q.minimum <= amount <= q.maximum)
      case _ => Decided(amount in q.members)
  }

  function CompareVersion(r: Requirement, observed: CapabilityValue): Answer
    requires observed.VersionIntervalValue?
  {
    var v := r.operandVersion;
    var above := if observed.lowerInclusive then !VersionLess(v, observed.lower) else VersionLess(observed.lower, v);
    var below := if observed.upperInclusive then !VersionLess(observed.upper, v) else VersionLess(v, observed.upper);
    Decided(above && below)
  }

  function CompareSupported(r: Requirement, o: Observation): Answer {
    match r.kind
    case StateIs => Decided(o.state == r.requiredState)
    case BooleanEquals =>
      if !o.hasValue || !o.value.BooleanValue? || !r.operand.BooleanValue? then Undetermined
      else Decided(o.value.flag == r.operand.flag)
    case Minimum => CompareQuantity(r, o.value)
    case Maximum => CompareQuantity(r, o.value)
    case RangeContains => CompareQuantity(r, o.value)
    case InSet => CompareQuantity(r, o.value)
    case VersionContains =>
      if !o.hasValue || !o.value.VersionIntervalValue? then Undetermined else CompareVersion(r, o.value)
    case ProtocolSupported =>
      if !o.hasValue || !o.value.ProtocolSetValue? then Undetermined
      else Decided(r.operandProtocol in o.value.protocols)
    case EnumerationSupported =>
      if !o.hasValue || !o.value.EnumSetValue? then Undetermined else Decided(r.operandCode in o.value.codes)
    case _ => Undetermined
  }

  function LeafAnswer(r: Requirement, o: Observation): Answer {
    if o.state.Supported? then CompareSupported(r, o)
    else if r.requireProof then Undetermined
    else NotSatisfied
  }

  // ----- evaluation of a tree -----

  predicate EachIs(answers: seq<Answer>, answer: Answer) {
    forall i :: 0 <= i < |answers| ==> answers[i] == answer
  }

  function All(answers: seq<Answer>): Answer {
    if EachIs(answers, Satisfied) then Satisfied
    else if NotSatisfied in answers then NotSatisfied
    else Undetermined
  }

  function Any(answers: seq<Answer>): Answer {
    if Satisfied in answers then Satisfied
    else if EachIs(answers, NotSatisfied) then NotSatisfied
    else Undetermined
  }

  function Negate(answer: Answer): Answer {
    match answer
    case Satisfied => NotSatisfied
    case NotSatisfied => Satisfied
    case Undetermined => Undetermined
  }

  function Evaluate(r: Requirement, view: Id -> Observation): Answer
    decreases r, 0
  {
    match r.kind
    case AllOf => All(EvaluateAll(r.children, view))
    case AnyOf => Any(EvaluateAll(r.children, view))
    case Not => if r.children == [] then Undetermined else Negate(EvaluateAll(r.children, view)[0])
    case _ => LeafAnswer(r, view(r.capability))
  }

  function EvaluateAll(children: seq<Requirement>, view: Id -> Observation): (answers: seq<Answer>)
    ensures |answers| == |children|
    decreases children, |children|
  {
    if children == [] then []
    else EvaluateAll(children[..|children| - 1], view) + [Evaluate(children[|children| - 1], view)]
  }

  // ----- a decided answer needs nothing that was not proven -----

  predicate DemandsProof(r: Requirement)
    decreases r, 0
  {
    if Compound(r) then AllDemandProof(r.children) else r.requireProof
  }

  predicate AllDemandProof(children: seq<Requirement>)
    decreases children, |children|
  {
    children == [] || (AllDemandProof(children[..|children| - 1]) && DemandsProof(children[|children| - 1]))
  }

  /** The second view answers the same for every capability the first proves supported. */
  ghost predicate KeepsSupported(view: Id -> Observation, other: Id -> Observation) {
    forall c :: view(c).state.Supported? ==> other(c) == view(c)
  }

  /** Answers only become more decided. */
  ghost predicate Refines(a: seq<Answer>, b: seq<Answer>) {
    |a| == |b| && forall i :: 0 <= i < |a| ==> a[i] == Undetermined || a[i] == b[i]
  }

  lemma RefinedCombinations(a: seq<Answer>, b: seq<Answer>)
    requires Refines(a, b)
    ensures All(a) == Undetermined || All(a) == All(b)
    ensures Any(a) == Undetermined || Any(a) == Any(b)
  {
  }

  /** If every leaf demands proof, a Satisfied or NotSatisfied answer stays the same whatever
      else the registry learns or forgets about capabilities it does not prove supported. */
  lemma {:induction false} DecidedAnswersStand(r: Requirement, view: Id -> Observation, other: Id -> Observation)
    requires DemandsProof(r) && KeepsSupported(view, other) && Evaluate(r, view) != Undetermined
    ensures Evaluate(r, other) == Evaluate(r, view)
    decreases r, 0
  {
    hide CompareSupported, All, Any;
    if Compound(r) {
      AllRefine(r.children, view, other);
      var a, b := EvaluateAll(r.children, view), EvaluateAll(r.children, other);
      RefinedCombinations(a, b);
    }
  }

  lemma {:induction false} AllRefine(children: seq<Requirement>, view: Id -> Observation, other: Id -> Observation)
    requires AllDemandProof(children) && KeepsSupported(view, other)
    ensures Refines(EvaluateAll(children, view), EvaluateAll(children, other))
    decreases children, |children|
  {
    hide Evaluate, DemandsProof, KeepsSupported;
    if children != [] {
      var n := |children| - 1;
      AllRefine(children[..n], view, other);
      if Evaluate(children[n], view) != Undetermined {
        DecidedAnswersStand(children[n], view, other);
      }
    }
  }

  /** The demand for proof is needed: a leaf that does without it can flip from NotSatisfied to
      Satisfied as soon as its capability becomes supported. */
  lemma UnprovenLeafCanFlip(r: Requirement, view: Id -> Observation)
    requires r.kind.StateIs? && r.requiredState.Supported? && !r.requireProof && !view(r.capability).state.Supported?
    ensures Evaluate(r, view) == NotSatisfied
    ensures exists other :: KeepsSupported(view, other) && Evaluate(r, other) == Satisfied
  {
    var other := (c: Id) => if c == r.capability then Observation(Supported, false, Absent) else view(c);
    assert KeepsSupported(view, other);
    assert Evaluate(r, other) == Satisfied;
  }

  // ----- the recorded nodes -----

  type Path = seq<nat>

  datatype NodeResult = NodeResult(path: Path, kind: Kind, capability: Id, answer: Answer)

  /** One result for every node of the tree, children before their parent. */
  function Results(r: Requirement, path: Path, view: Id -> Observation): seq<NodeResult>
    decreases r, 0
  {
    (if Compound(r) then ResultsOf(r.children, path, view) else [])
    + [NodeResult(path, r.kind, r.capability, Evaluate(r, view))]
  }

  function ResultsOf(children: seq<Requirement>, path: Path, view: Id -> Observation): seq<NodeResult>
    decreases children, |children|
  {
    if children == [] then []
    else
      var n := |children| - 1;
      ResultsOf(children[..n], path, view) + Results(children[n], path + [n], view)
  }

  lemma {:induction false} OneResultPerNode(r: Requirement, path: Path, view: Id -> Observation, isRoot: bool)
    requires WellFormed(r, isRoot)
    ensures |Results(r, path, view)| == Size(r)
    decreases r, 0
  {
    hide OperandFits, Evaluate;
    if Compound(r) {
      OneResultPerNodeOf(r.children, path, view);
    }
  }

  lemma {:induction false} OneResultPerNodeOf(children: seq<Requirement>, path: Path, view: Id -> Observation)
    requires AllWellFormed(children)
    ensures |ResultsOf(children, path, view)| == SizeOf(children)
    decreases children, |children|
  {
    hide WellFormed, Results, Size;
    if children != [] {
      var n := |children| - 1;
      OneResultPerNodeOf(children[..n], path, view);
      OneResultPerNode(children[n], path + [n], view, false);
    }
  }

  ghost predicate Below(path: Path, top: Path) {
    |path| >= |top| && path[..|top|] == top
  }

  ghost predicate StrictlyBelow(path: Path, top: Path) {
    |path| > |top| && Below(path, top)
  }

  ghost predicate DistinctPaths(results: seq<NodeResult>) {
    forall i, j :: 0 <= i < j < |results| ==> results[i].path != results[j].path
  }

  /** The results of a subtree lie below its path, and no two name the same node. */
  lemma {:induction false} PathsAreDistinct(r: Requirement, path: Path, view: Id -> Observation)
    ensures forall x :: x in Results(r, path, view) ==> Below(x.path, path)
    ensures DistinctPaths(Results(r, path, view))
    decreases r, 0
  {
    hide Evaluate;
    if Compound(r) {
      PathsAreDistinctOf(r.children, path, view);
      var front := ResultsOf(r.children, path, view);
      forall x | x in front ensures |x.path| > |path| && Below(x.path, path) {
        assert BelowChild(x.path, path, |r.children|);
      }
      forall i | 0 <= i < |front| ensures front[i].path != path {
        assert front[i] in front;
      }
    }
  }

  /** The path leads through one of the first n children. */
  ghost predicate BelowChild(path: Path, top: Path, n: nat) {
    Below(path, top) && |path| > |top| && path[|top|] < n
  }

  lemma {:induction false} PathsAreDistinctOf(children: seq<Requirement>, path: Path, view: Id -> Observation)
    ensures forall x :: x in ResultsOf(children, path, view) ==> BelowChild(x.path, path, |children|)
    ensures DistinctPaths(ResultsOf(children, path, view))
    decreases children, |children|
  {
    hide Results;
    if children != [] {
      var n := |children| - 1;
      PathsAreDistinctOf(children[..n], path, view);
      PathsAreDistinct(children[n], path + [n], view);
      var front, last := ResultsOf(children[..n], path, view), Results(children[n], path + [n], view);
      forall x | x in last ensures BelowChild(x.path, path, |children|) && x.path[|path|] == n {
        assert Below(x.path, path + [n]);
        assert x.path[..|path|] == x.path[..|path + [n]|][..|path|];
        assert x.path[|path|] == x.path[..|path + [n]|][|path|];
      }
      forall i, j | 0 <= i < |front| && 0 <= j < |last| ensures front[i].path != last[j].path {
        assert front[i] in front && last[j] in last;
        assert BelowChild(front[i].path, path, n);
      }
    }
  }

  /** Every node is recorded before the nodes below it, as in a pre-order. */
  ghost predicate ParentsFirst(results: seq<NodeResult>) {
    forall i, j :: 0 <= i < |results| && 0 <= j < |results| && StrictlyBelow(results[j].path, results[i].path) ==> i < j
  }

  /** The declared pre-order of the results holds only for a requirement that is a single node. */
  lemma PreOrderExactlyWhenSingle(r: Requirement, path: Path, view: Id -> Observation, isRoot: bool)
    requires WellFormed(r, isRoot)
    ensures ParentsFirst(Results(r, path, view)) <==> r.children == []
  {
    hide OperandFits, Evaluate;
    var results := Results(r, path, view);
    if r.children != [] {
      var front := ResultsOf(r.children, path, view);
      OneResultPerNodeOf(r.children, path, view);
      PathsAreDistinctOf(r.children, path, view);
      assert SizeOf(r.children) >= 1;
      assert front[0] in front && BelowChild(front[0].path, path, |r.children|);
      assert results[0] == front[0] && results[|front|].path == path;
    } else {
      assert |results| == 1;
    }
  }

  // ----- validation and evaluation as they run -----

  lemma {:induction false} RefusalSticks(children: seq<Requirement>, k: nat, depth: nat, nodes: nat)
    requires k <= |children| && ValidateAll(children[..k], depth, nodes).refusal.Some?
    ensures ValidateAll(children, depth, nodes) == ValidateAll(children[..k], depth, nodes)
    decreases |children|
  {
    hide Validate;
    if k == |children| {
      assert children[..k] == children;
    } else {
      assert children[..|children| - 1][..k] == children[..k];
      RefusalSticks(children[..|children| - 1], k, depth, nodes);
    }
  }

  class Validator {
    var nodes: nat

    constructor ()
      ensures nodes == 0
    {
      nodes := 0;
    }

    method ValidateNode(r: Requirement, depth: nat, isRoot: bool) returns (refusal: Option<Refusal>)
      modifies this
      ensures Validation(refusal, nodes) == Validate(r, depth, old(nodes), isRoot)
      decreases r
    {
      hide OperandFits;
      if depth > MAX_DEPTH {
        return Some(NestingTooDeep);
      }
      nodes := nodes + 1;
      if nodes > MAX_NODES {
        return Some(TooManyNodes);
      }
      if r.kind.Not? && isRoot {
        return Some(NotAtRoot);
      }
      if r.kind.Not? && |r.children| != 1 {
        return Some(NotNeedsOneChild);
      }
      if !Compound(r) {
        return ValidateLeaf(r);
      }
      if r.children == [] {
        return Some(NoChildren);
      }
      for k := 0 to |r.children|
        invariant Validation(None, nodes) == ValidateAll(r.children[..k], depth + 1, old(nodes) + 1)
      {
        assert r.children[..k + 1][..k] == r.children[..k];
        refusal := ValidateNode(r.children[k], depth + 1, false);
        if refusal.Some? {
          RefusalSticks(r.children, k + 1, depth + 1, old(nodes) + 1);
          return;
        }
      }
      assert r.children[..|r.children|] == r.children;
      return None;
    }
  }

  lemma NoAnswers()
    ensures forall x :: EachIs([], x)
  {
  }

  lemma OneMoreAnswer(answers: seq<Answer>, last: Answer)
    ensures forall x :: EachIs(answers + [last], x) <==> EachIs(answers, x) && last == x
    ensures forall x :: x in answers + [last] <==> x in answers || x == last
  {
    forall x ensures EachIs(answers + [last], x) <==> EachIs(answers, x) && last == x {
      if EachIs(answers + [last], x) {
        assert (answers + [last])[|answers|] == last;
        forall i | 0 <= i < |answers| ensures answers[i] == x {
          assert (answers + [last])[i] == answers[i];
        }
      }
    }
  }

  class Evaluator {
    const view: Id -> Observation
    var nodes: seq<NodeResult>

    constructor (view: Id -> Observation)
      ensures this.view == view && nodes == []
    {
      this.view := view;
      nodes := [];
    }

    /** Keeps at most MAX_NODES results. */
    method Record(result: NodeResult)
      modifies this
      ensures nodes == if |old(nodes)| >= MAX_NODES then old(nodes) else old(nodes) + [result]
    {
      if |nodes| >= MAX_NODES {
        return;
      }
      nodes := nodes + [result];
    }

    method EvaluateChildren(r: Requirement, path: Path)
      returns (allSatisfied: bool, anyUnsatisfied: bool, anySatisfied: bool, allUnsatisfied: bool)
      requires AllWellFormed(r.children) && |nodes| + SizeOf(r.children) <= MAX_NODES
      modifies this
      ensures nodes == old(nodes) + ResultsOf(r.children, path, view)
      ensures var answers := EvaluateAll(r.children, view);
              && (allSatisfied <==> EachIs(answers, Satisfied))
              && (anyUnsatisfied <==> NotSatisfied in answers)
              && (anySatisfied <==> Satisfied in answers)
              && (allUnsatisfied <==> EachIs(answers, NotSatisfied))
      decreases r.children, 1
    {
      hide Results, Evaluate, WellFormed, EachIs;
      NoAnswers();
      allSatisfied, anyUnsatisfied, anySatisfied, allUnsatisfied := true, false, false, true;
      for k := 0 to |r.children|
        invariant nodes == old(nodes) + ResultsOf(r.children[..k], path, view)
        invariant allSatisfied <==> EachIs(EvaluateAll(r.children[..k], view), Satisfied)
        invariant anyUnsatisfied <==> NotSatisfied in EvaluateAll(r.children[..k], view)
        invariant anySatisfied <==> Satisfied in EvaluateAll(r.children[..k], view)
        invariant allUnsatisfied <==> EachIs(EvaluateAll(r.children[..k], view), NotSatisfied)
      {
        assert r.children[..k + 1][..k] == r.children[..k];
        ChildFits(r.children, k, path, view);
        OneMoreAnswer(EvaluateAll(r.children[..k], view), Evaluate(r.children[k], view));
        var answer := EvaluateNode(r.children[k], path + [k]);
        anyUnsatisfied := anyUnsatisfied || answer == NotSatisfied;
        allSatisfied := allSatisfied && answer == Satisfied;
        anySatisfied := anySatisfied || answer == Satisfied;
        allUnsatisfied := allUnsatisfied && answer == NotSatisfied;
      }
      assert r.children[..|r.children|] == r.children;
    }

    /** Evaluates one node of a validated requirement after its children; the record cap never fires. */
    method EvaluateNode(r: Requirement, path: Path) returns (answer: Answer)
      requires (WellFormed(r, true) || WellFormed(r, false)) && |nodes| + Size(r) <= MAX_NODES
      modifies this
      ensures answer == Evaluate(r, view)
      ensures nodes == old(nodes) + Results(r, path, view)
      decreases r, 0
    {
      hide OperandFits, CompareSupported;
      ghost var before := nodes;
      if Compound(r) {
        var allSatisfied, anyUnsatisfied, anySatisfied, allUnsatisfied := EvaluateChildren(r, path);
        OneResultPerNodeOf(r.children, path, view);
        match r.kind {
          case AllOf =>
            answer := if allSatisfied then Satisfied else if anyUnsatisfied then NotSatisfied else Undetermined;
          case AnyOf =>
            answer := if anySatisfied then Satisfied else if allUnsatisfied then NotSatisfied else Undetermined;
          case Not =>
            answer := if anySatisfied then NotSatisfied else if anyUnsatisfied then Satisfied else Undetermined;
        }
      } else {
        answer := LeafAnswer(r, view(r.capability));
      }
      Record(NodeResult(path, r.kind, r.capability, answer));
    }

    lemma ChildFits(children: seq<Requirement>, k: nat, path: Path, view: Id -> Observation)
      requires AllWellFormed(children) && k < |children|
      ensures WellFormed(children[k], false) && AllWellFormed(children[..k])
      ensures |ResultsOf(children[..k], path, view)| + Size(children[k]) <= SizeOf(children)
      decreases |children|
    {
      hide WellFormed, Results, Size;
      var n := |children| - 1;
      if k < n {
        ChildFits(children[..n], k, path, view);
        assert children[..n][..k] == children[..k];
      } else {
        OneResultPerNodeOf(children[..k], path, view);
      }
    }
  }

  datatype Evaluation = Invalid(refusal: Refusal) | Evaluated(answer: Answer, nodes: seq<NodeResult>)

  /** EvaluateRequirementAgainst: a valid requirement gets its answer and exactly one result per node. */
  method EvaluateRequirement(r: Requirement, view: Id -> Observation) returns (evaluation: Evaluation)
    ensures evaluation.Invalid? <==> Validate(r, 0, 0, true).refusal.Some?
    ensures evaluation.Evaluated? ==>
              && evaluation.answer == Evaluate(r, view)
              && evaluation.nodes == Results(r, [0], view)
              && |evaluation.nodes| == Size(r)
              && DistinctPaths(evaluation.nodes)
  {
    hide Results, Evaluate, WellFormed, Validate;
    var validator := new Validator();
    var refusal := validator.ValidateNode(r, 0, true);
    if refusal.Some? {
      return Invalid(refusal.value);
    }
    ValidExactlyWhen(r);
    var evaluator := new Evaluator(view);
    var answer := evaluator.EvaluateNode(r, [0]);
    OneResultPerNode(r, [0], view, true);
    PathsAreDistinct(r, [0], view);
    return Evaluated(answer, evaluator.nodes);
  }

  // ----- evaluation against the registry -----

  /** Query: what a registry answers for one capability of one entity. */
  function ViewOf(st: State, entity: Id): Id -> Observation {
    (c: Id) =>
      if entity in st.entities && c in st.entities[entity].capabilities then
        var r := ResolutionOf(c, st.entities[entity].capabilities[c]);
        Observation(r.state, !r.value.Absent?, r.value)
      else Observation(Unknown, false, Absent)
  }

  /** No leaf asks about a capability the claims mention. */
  predicate Avoids(r: Requirement, claims: seq<Claim>)
    decreases r, 0
  {
    if Compound(r) then AllAvoid(r.children, claims) else !Mentions(claims, r.capability)
  }

  predicate AllAvoid(children: seq<Requirement>, claims: seq<Claim>)
    decreases children, |children|
  {
    children == [] || (AllAvoid(children[..|children| - 1], claims) && Avoids(children[|children| - 1], claims))
  }

  ghost predicate AgreeElsewhere(claims: seq<Claim>, view: Id -> Observation, other: Id -> Observation) {
    forall c :: !Mentions(claims, c) ==> view(c) == other(c)
  }

  lemma {:induction false} AvoidingAnswersAgree(r: Requirement, claims: seq<Claim>, view: Id -> Observation,
                                               other: Id -> Observation)
    requires Avoids(r, claims) && AgreeElsewhere(claims, view, other)
    ensures Evaluate(r, view) == Evaluate(r, other)
    decreases r, 0
  {
    hide CompareSupported, All, Any, Mentions;
    if Compound(r) {
      AllAvoidingAgree(r.children, claims, view, other);
    }
  }

  lemma {:induction false} AllAvoidingAgree(children: seq<Requirement>, claims: seq<Claim>, view: Id -> Observation,
                                           other: Id -> Observation)
    requires AllAvoid(children, claims) && AgreeElsewhere(claims, view, other)
    ensures EvaluateAll(children, view) == EvaluateAll(children, other)
    decreases children, |children|
  {
    hide Evaluate, Avoids, AgreeElsewhere;
    if children != [] {
      AllAvoidingAgree(children[..|children| - 1], claims, view, other);
      AvoidingAnswersAgree(children[|children| - 1], claims, view, other);
    }
  }

  lemma CoveredMentions(claims: seq<Claim>, coverage: Coverage, c: Id)
    ensures Mentions(Covered(claims, coverage), c) ==> Mentions(claims, c)
  {
    if claim :| claim in Covered(claims, coverage) && claim.capability == c {
      var i :| 0 <= i < |claims| && Covered(claims, coverage)[i] == claim;
      assert claims[i] in claims;
    }
  }

  /** A committed partial observation leaves the answer of every requirement that asks about none of
      the capabilities it mentions. */
  lemma ObservationKeepsOtherAnswers(env: Environment, st: State, request: Request, r: Requirement)
    requires env.Valid() && request.mode.PartialObservation? && Publish(env, st, request).1.Committed?
    requires request.entity in st.entities && st.entities[request.entity].current == request.entityGeneration
    requires Avoids(r, request.claims)
    ensures Evaluate(r, ViewOf(Publish(env, st, request).0, request.entity)) == Evaluate(r, ViewOf(st, request.entity))
  {
    hide Publish, Evaluate, Avoids, ClaimTook, Admit, Mentions, Covered;
    CommittedObservation(env, st, request);
    var before, after := st.entities[request.entity], Publish(env, st, request).0.entities[request.entity];
    assert StartOf(env, st, request) == before;
    forall c | !Mentions(request.claims, c)
      ensures ViewOf(Publish(env, st, request).0, request.entity)(c) == ViewOf(st, request.entity)(c)
    {
      CoveredMentions(request.claims, request.coverage, c);
      assert Untouched(before, after, c);
    }
    AvoidingAnswersAgree(r, request.claims, ViewOf(Publish(env, st, request).0, request.entity),
                         ViewOf(st, request.entity));
  }
}
