/** Evidence records and the resolution of one capability from the evidence
    list that the registry keeps for it. */
module Evidence {
  import opened Sequences
  import opened Values

  /** Identifiers are opaque, totally ordered keys; zero is the unset identifier. */
  type Id = nat

  /** Evidence strength; a lower rank is stronger. */
  type Rank = r: nat | r < PROVENANCE_CLASSES

  const PROVENANCE_CLASSES: nat := 7
  const DIRECT_DEVICE_OR_OS_API: Rank := 1
  const SYNTHETIC_TEST_BACKEND: Rank := 6
  const MAX_CONFLICTING_EVIDENCE: nat := 64

  datatype CapabilityState = Unknown | Supported | Unsupported | RevalidationRequired | Conflicted

  datatype Currentness = Current | AwaitingRevalidation | Fenced | Superseded | EntityGenerationSuperseded

  datatype Durability = ProcessBound | Durable

  datatype Coverage = Partial | FullEnumeration

  datatype SourceClass =
    | HardwareEnumeration | OperatingSystemApi | DriverApi | FirmwareManifest | VendorSdk | DeviceAgent
    | SwitchAgent | AdministrativeDeclaration | ImportedManifest | SyntheticBackend

  datatype Claim = Claim(
    capability: Id, state: CapabilityState, value: CapabilityValue, provenance: Rank, sourceClass: SourceClass,
    durability: Durability, coverage: Coverage, firmware: Id, driver: Id, reason: Id)

  /** An evidence-owning source inside one worker boot. */
  datatype SourceKey = SourceKey(source: Id, boot: Id)

  datatype EvidenceId = EvidenceId(
    publisher: Id, boot: Id, attempt: Id, entity: Id, entityGeneration: nat, capability: Id, evidenceGeneration: nat)

  /** One observation. `claim.reason` is the reason token of the record; it is
      replaced when the record stops being current. */
  datatype Record = Record(
    key: SourceKey, publisher: Id, scope: Id, epoch: nat, sourceGeneration: nat, evidenceGeneration: nat,
    attempt: Id, publication: Id, entity: Id, entityGeneration: nat, claim: Claim, currentness: Currentness)
  {
    function Identity(): EvidenceId {
      EvidenceId(publisher, key.boot, attempt, entity, entityGeneration, claim.capability, evidenceGeneration)
    }
  }

  predicate IsCurrent(r: Record) { r.currentness.Current? }

  /** Retained as a claim, but not current enough to act on. */
  predicate IsDormant(r: Record) { r.currentness.AwaitingRevalidation? || r.currentness.Fenced? }

  predicate Live(r: Record) { IsCurrent(r) || IsDormant(r) }

  predicate ProcessBoundCurrent(r: Record) { IsCurrent(r) && r.claim.durability.ProcessBound? }

  datatype Resolution = Resolution(
    capability: Id, state: CapabilityState, value: CapabilityValue, provenance: Rank, sourceClass: SourceClass,
    coverage: Coverage, durability: Durability, evidenceGeneration: nat, sourceGeneration: nat,
    winner: Option<EvidenceId>, generation: nat, evidenceCount: nat, currentCount: nat, outrankedCount: nat,
    conflicting: seq<EvidenceId>, hasNonCurrent: bool)
  {
    predicate Actionable() { state.Supported? }
  }

  /** What the canonical set digest covers of one resolution: everything but the
      publisher's own bookkeeping (source generation and evidence identifiers). */
  datatype DigestView = DigestView(
    capability: Id, state: CapabilityState, value: CapabilityValue, provenance: Rank, sourceClass: SourceClass,
    coverage: Coverage, durability: Durability, evidenceGeneration: nat, generation: nat, evidenceCount: nat,
    currentCount: nat, outrankedCount: nat, conflictingCount: nat, hasNonCurrent: bool)

  function View(r: Resolution): DigestView {
    DigestView(r.capability, r.state, r.value, r.provenance, r.sourceClass, r.coverage, r.durability,
               r.evidenceGeneration, r.generation, r.evidenceCount, r.currentCount, r.outrankedCount,
               |r.conflicting|, r.hasNonCurrent)
  }

  predicate SameClaim(a: Record, b: Record) {
    a.claim.state == b.claim.state && SameValue(a.claim.value, b.claim.value)
  }

  /** a is preferred to b inside one provenance class: the newest evidence
      generation, then the lowest source, then the lowest worker boot. */
  predicate Preferred(a: Record, b: Record) {
    || a.evidenceGeneration > b.evidenceGeneration
    || (a.evidenceGeneration == b.evidenceGeneration
        && (a.key.source < b.key.source || (a.key.source == b.key.source && a.key.boot < b.key.boot)))
  }

  function Pick(records: seq<Record>): (best: Record)
    requires records != []
    ensures best in records
    ensures forall r :: r in records ==> !Preferred(r, best)
  {
    var n := |records| - 1;
    assert records == records[..n] + [records[n]];
    if n == 0 then records[0]
    else
      var best := Pick(records[..n]);
      if Preferred(records[n], best) then records[n] else best
  }

  function StrongestRank(records: seq<Record>): (rank: Rank)
    requires records != []
    ensures exists r :: r in records && r.claim.provenance == rank
    ensures forall r :: r in records ==> rank <= r.claim.provenance
  {
    var n := |records| - 1;
    assert records == records[..n] + [records[n]];
    var last := records[n].claim.provenance;
    if n == 0 then last
    else
      var rank := StrongestRank(records[..n]);
      if last < rank then last else rank
  }

  /** The records that make a claim no earlier record makes. */
  function FirstOfEachClaim(records: seq<Record>): (firsts: seq<Record>)
    ensures |firsts| <= |records|
  {
    if records == [] then []
    else
      var n := |records| - 1;
      var firsts := FirstOfEachClaim(records[..n]);
      if exists r :: r in records[..n] && SameClaim(r, records[n]) then firsts else firsts + [records[n]]
  }

  function Identities(records: seq<Record>): seq<EvidenceId> {
    seq(|records|, i requires 0 <= i < |records| => records[i].Identity())
  }

  function Bounded<T>(s: seq<T>, limit: nat): seq<T> {
    if |s| <= limit then s else s[..limit]
  }

  function HasRank(rank: Rank): Record -> bool {
    (r: Record) => r.claim.provenance == rank
  }

  function Pool(evidence: seq<Record>): seq<Record> {
    Filter(IsCurrent, evidence) + Filter(IsDormant, evidence)
  }

  /** A resolution before any class of evidence has been looked at. */
  function Blank(capability: Id, generation: nat, evidence: seq<Record>): Resolution {
    Resolution(capability, Unknown, Absent, SYNTHETIC_TEST_BACKEND, SyntheticBackend, Partial, ProcessBound, 0, 0, None,
               generation, |evidence|, |Filter(IsCurrent, evidence)|, 0, [], Filter(IsDormant, evidence) != [])
  }

  /** base with the provenance of the winning record. */
  function WonBy(base: Resolution, w: Record): Resolution {
    base.(provenance := w.claim.provenance, sourceClass := w.claim.sourceClass, coverage := w.claim.coverage,
          durability := w.claim.durability, evidenceGeneration := w.evidenceGeneration,
          sourceGeneration := w.sourceGeneration, winner := Some(w.Identity()))
  }

  predicate Agree(records: seq<Record>, w: Record) {
    forall r :: r in records ==> SameClaim(r, w)
  }

  /** The decision of the strongest class. */
  function Decide(base: Resolution, strongest: seq<Record>): Resolution
    requires strongest != []
  {
    var current := Filter(IsCurrent, strongest);
    if current == [] then
      var w := Pick(strongest);
      WonBy(base, w).(state := RevalidationRequired, value := w.claim.value)
    else
      var w := Pick(current);
      if Agree(current, w) then WonBy(base, w).(state := w.claim.state, value := w.claim.value)
      else WonBy(base, w).(state := Conflicted,
                           conflicting := Bounded(Identities(FirstOfEachClaim(current)), MAX_CONFLICTING_EVIDENCE))
  }

  /** The members of the strongest provenance class of an evidence list. */
  function StrongestOf(evidence: seq<Record>): (strongest: seq<Record>)
    requires Pool(evidence) != []
    ensures strongest != []
  {
    StrongestIsInhabited(Pool(evidence));
    Filter(HasRank(StrongestRank(Pool(evidence))), Pool(evidence))
  }

  function Base(capability: Id, generation: nat, evidence: seq<Record>): Resolution
    requires Pool(evidence) != []
  {
    Blank(capability, generation, evidence).(outrankedCount := |Pool(evidence)| - |StrongestOf(evidence)|)
  }

  /** The resolution of one capability from its evidence list. */
  function Resolve(capability: Id, generation: nat, evidence: seq<Record>): Resolution {
    if Pool(evidence) == [] then Blank(capability, generation, evidence)
    else Decide(Base(capability, generation, evidence), StrongestOf(evidence))
  }

  lemma StrongestIsInhabited(pool: seq<Record>)
    requires pool != []
    ensures Filter(HasRank(StrongestRank(pool)), pool) != []
  {
  }

  // ----- the loops that compute a resolution -----

  /** The winner inside one class, found by one pass over the records. */
  method PickDeterministic(records: seq<Record>) returns (best: Option<Record>)
    ensures best.None? <==> records == []
    ensures best.Some? ==> best.value == Pick(records)
  {
    best := None;
    for i := 0 to |records|
      invariant i == 0 ==> best == None
      invariant i > 0 ==> best == Some(Pick(records[..i]))
    {
      var record := records[i];
      assert records[..i + 1][..i] == records[..i];
      if best.None? {
        best := Some(record);
      } else if record.evidenceGeneration > best.value.evidenceGeneration {
        best := Some(record);
      } else if record.evidenceGeneration < best.value.evidenceGeneration {
      } else if record.key.source != best.value.key.source {
        if record.key.source < best.value.key.source {
          best := Some(record);
        }
      } else if record.key.boot < best.value.key.boot {
        best := Some(record);
      }
    }
    assert records[..|records|] == records;
  }

  /** Whether an earlier record makes the same claim as records[i]. */
  method SeenBefore(records: seq<Record>, i: nat) returns (already: bool)
    requires i < |records|
    ensures already <==> exists r :: r in records[..i] && SameClaim(r, records[i])
  {
    already := false;
    var j := 0;
    while j < i && !already
      invariant j <= i
      invariant already <==> exists r :: r in records[..j] && SameClaim(r, records[i])
    {
      assert records[..j + 1] == records[..j] + [records[j]];
      already := SameClaim(records[j], records[i]);
      j := j + 1;
    }
    assert records[..j] <= records[..i];
  }

  /** One identifier for each distinct claim of a disagreeing class. */
  method CollectConflicts(current: seq<Record>) returns (conflicting: seq<EvidenceId>)
    ensures conflicting == Bounded(Identities(FirstOfEachClaim(current)), MAX_CONFLICTING_EVIDENCE)
  {
    conflicting := [];
    for i := 0 to |current|
      invariant conflicting == Bounded(Identities(FirstOfEachClaim(current[..i])), MAX_CONFLICTING_EVIDENCE)
    {
      var already := SeenBefore(current, i);
      ghost var firsts := FirstOfEachClaim(current[..i]);
      FirstOfEachClaimStep(current, i);
      if !already {
        assert Identities(firsts + [current[i]]) == Identities(firsts) + [current[i].Identity()];
        if |conflicting| < MAX_CONFLICTING_EVIDENCE {
          conflicting := conflicting + [current[i].Identity()];
        }
      }
    }
    assert current[..|current|] == current;
  }

  lemma FirstOfEachClaimStep(records: seq<Record>, i: nat)
    requires i < |records|
    ensures FirstOfEachClaim(records[..i + 1]) ==
            if exists r :: r in records[..i] && SameClaim(r, records[i]) then FirstOfEachClaim(records[..i])
            else FirstOfEachClaim(records[..i]) + [records[i]]
  {
    assert records[..i + 1][..i] == records[..i];
    assert records[..i + 1][i] == records[i];
  }

  method FindStrongestRank(pool: seq<Record>) returns (rank: Rank)
    requires pool != []
    ensures rank == StrongestRank(pool)
  {
    var strongest: nat := PROVENANCE_CLASSES;
    for i := 0 to |pool|
      invariant i == 0 ==> strongest == PROVENANCE_CLASSES
      invariant i > 0 ==> strongest == StrongestRank(pool[..i])
    {
      assert pool[..i + 1][..i] == pool[..i];
      if pool[i].claim.provenance < strongest {
        strongest := pool[i].claim.provenance;
      }
    }
    assert pool[..|pool|] == pool;
    rank := strongest;
  }

  /** The members of the strongest class of a pool, and how many records they outrank. */
  method SelectStrongest(pool: seq<Record>) returns (strongest: seq<Record>, outranked: nat)
    requires pool != []
    ensures strongest == Filter(HasRank(StrongestRank(pool)), pool)
    ensures outranked == |pool| - |strongest|
  {
    var rank := FindStrongestRank(pool);
    ghost var p := HasRank(rank);
    strongest, outranked := [], 0;
    for i := 0 to |pool|
      invariant strongest == Filter(p, pool[..i])
      invariant outranked == i - |strongest|
    {
      assert pool[..i + 1] == pool[..i] + [pool[i]];
      FilterStep(p, pool[..i], pool[i]);
      if pool[i].claim.provenance == rank {
        strongest := strongest + [pool[i]];
      } else {
        outranked := outranked + 1;
      }
    }
    assert pool[..|pool|] == pool;
  }

  method SplitByCurrentness(evidence: seq<Record>)
    returns (current: seq<Record>, dormant: seq<Record>, retired: seq<Record>)
    ensures current == Filter(IsCurrent, evidence)
    ensures dormant == Filter(IsDormant, evidence)
    ensures |current| + |dormant| + |retired| == |evidence|
  {
    current, dormant, retired := [], [], [];
    for i := 0 to |evidence|
      invariant current == Filter(IsCurrent, evidence[..i])
      invariant dormant == Filter(IsDormant, evidence[..i])
      invariant |current| + |dormant| + |retired| == i
    {
      assert evidence[..i + 1] == evidence[..i] + [evidence[i]];
      FilterStep(IsCurrent, evidence[..i], evidence[i]);
      FilterStep(IsDormant, evidence[..i], evidence[i]);
      match evidence[i].currentness
      case Current => current := current + [evidence[i]];
      case AwaitingRevalidation => dormant := dormant + [evidence[i]];
      case Fenced => dormant := dormant + [evidence[i]];
      case Superseded => retired := retired + [evidence[i]];
      case EntityGenerationSuperseded => retired := retired + [evidence[i]];
    }
    assert evidence[..|evidence|] == evidence;
  }

  method KeepCurrent(records: seq<Record>) returns (kept: seq<Record>)
    ensures kept == Filter(IsCurrent, records)
  {
    kept := [];
    for i := 0 to |records|
      invariant kept == Filter(IsCurrent, records[..i])
    {
      assert records[..i + 1] == records[..i] + [records[i]];
      FilterStep(IsCurrent, records[..i], records[i]);
      if IsCurrent(records[i]) {
        kept := kept + [records[i]];
      }
    }
    assert records[..|records|] == records;
  }

  method CheckAgreement(records: seq<Record>, winner: Record) returns (agree: bool)
    ensures agree <==> Agree(records, winner)
  {
    agree := true;
    var i := 0;
    while i < |records| && agree
      invariant i <= |records|
      invariant agree <==> Agree(records[..i], winner)
    {
      assert records[..i + 1] == records[..i] + [records[i]];
      agree := SameClaim(records[i], winner);
      i := i + 1;
    }
    assert records[..i] <= records;
    if agree {
      assert records[..i] == records;
    }
  }

  /** ResolveCapability: one pass sorts the evidence into current, dormant and
      retired records; the strongest class of the rest decides. */
  method ComputeResolution(capability: Id, generation: nat, evidence: seq<Record>) returns (resolution: Resolution)
    ensures resolution == Resolve(capability, generation, evidence)
  {
    var current, dormant, retired := SplitByCurrentness(evidence);
    resolution := Resolution(capability, Unknown, Absent, SYNTHETIC_TEST_BACKEND, SyntheticBackend, Partial,
      ProcessBound, 0, 0, None, generation, |current| + |dormant| + |retired|, |current|, 0, [], dormant != []);
    var pool := current + dormant;
    if pool == [] {
      return;
    }
    var strongest, outranked := SelectStrongest(pool);
    StrongestIsInhabited(pool);
    resolution := resolution.(outrankedCount := outranked);
    var strongestCurrent := KeepCurrent(strongest);
    if strongestCurrent == [] {
      var best := PickDeterministic(strongest);
      resolution := WonBy(resolution, best.value);
      resolution := resolution.(state := RevalidationRequired, value := best.value.claim.value);
      return;
    }
    var best := PickDeterministic(strongestCurrent);
    resolution := WonBy(resolution, best.value);
    var agree := CheckAgreement(strongestCurrent, best.value);
    if agree {
      resolution := resolution.(state := best.value.claim.state, value := best.value.claim.value);
    } else {
      var conflicting := CollectConflicts(strongestCurrent);
      resolution := resolution.(state := Conflicted, conflicting := conflicting);
    }
  }
}
