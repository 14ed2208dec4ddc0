/** What a resolution means: the declarative rule that decides a capability, and
    the proof that the computed resolution follows it and depends on the set of
    live records only, never on their order. */
module ResolutionRules {
  import opened Sequences
  import opened Values
  import opened Evidence

  /** Per source key, evidence generations increase along the list and only the last record may be live. */
  ghost predicate KeyOrdered(evidence: seq<Record>) {
    forall i, j :: 0 <= i < j < |evidence| && evidence[i].key == evidence[j].key ==>
      !Live(evidence[i]) && evidence[i].evidenceGeneration < evidence[j].evidenceGeneration
  }

  ghost function LiveSet(evidence: seq<Record>): (live: set<Record>)
    ensures forall r :: r in live <==> r in evidence && Live(r)
  {
    set r | r in evidence && Live(r)
  }

  ghost predicate DistinctKeys(records: set<Record>) {
    forall a, b :: a in records && b in records && a.key == b.key ==> a == b
  }

  lemma LiveKeysAreDistinct(evidence: seq<Record>)
    requires KeyOrdered(evidence)
    ensures DistinctKeys(LiveSet(evidence))
  {
  }

  /** The members of the strongest provenance class. */
  ghost function Strongest(live: set<Record>): set<Record> {
    set r | r in live && forall x :: x in live ==> r.claim.provenance <= x.claim.provenance
  }

  ghost function CurrentOnes(records: set<Record>): set<Record> {
    set r | r in records && IsCurrent(r)
  }

  ghost predicate Leads(w: Record, records: set<Record>) {
    w in records && forall x :: x in records && x != w ==> Preferred(w, x)
  }

  ghost predicate ProvenanceOf(r: Resolution, w: Record) {
    && r.winner == Some(w.Identity())
    && r.provenance == w.claim.provenance
    && r.sourceClass == w.claim.sourceClass
    && r.coverage == w.claim.coverage
    && r.durability == w.claim.durability
    && r.evidenceGeneration == w.evidenceGeneration
    && r.sourceGeneration == w.sourceGeneration
  }

  ghost predicate Unanimous(records: set<Record>, w: Record) {
    forall x :: x in records ==> SameClaim(x, w)
  }

  ghost predicate DecidedBy(r: Resolution, live: set<Record>, w: Record) {
    var current := CurrentOnes(Strongest(live));
    && ProvenanceOf(r, w)
    && (current == {} ==>
          Leads(w, Strongest(live)) && r.state == RevalidationRequired && r.value == w.claim.value)
    && (current != {} ==>
          && Leads(w, current)
          && (Unanimous(current, w) ==> r.state == w.claim.state && r.value == w.claim.value)
          && (!Unanimous(current, w) ==> r.state == Conflicted && r.value == Absent))
  }

  /** The resolution rule: the strongest class among the live records decides;
      without a current member it needs revalidation, with agreeing current members
      it takes the leader's claim, otherwise it is conflicted; without any live
      record it is unknown. */
  ghost predicate Decides(live: set<Record>, r: Resolution) {
    if live == {} then
      r.state == Unknown && r.value == Absent && r.winner == None && !r.hasNonCurrent
    else
      && (exists w :: w in live && DecidedBy(r, live, w))
      && (r.hasNonCurrent <==> exists x :: x in live && !IsCurrent(x))
  }

  lemma PreferredIsTotal(a: Record, b: Record)
    requires a.key != b.key
    ensures Preferred(a, b) || Preferred(b, a)
  {
  }

  ghost function Elements(records: seq<Record>): set<Record> {
    set r | r in records
  }

  lemma PickLeads(records: seq<Record>)
    requires records != [] && DistinctKeys(Elements(records))
    ensures Leads(Pick(records), Elements(records))
  {
  }

  lemma PoolElements(evidence: seq<Record>)
    ensures Elements(Pool(evidence)) == LiveSet(evidence)
  {
    FilterMembers(IsCurrent, evidence);
    FilterMembers(IsDormant, evidence);
  }

  lemma StrongestElements(pool: seq<Record>)
    requires pool != []
    ensures Elements(Filter(HasRank(StrongestRank(pool)), pool)) == Strongest(Elements(pool))
  {
    var rank := StrongestRank(pool);
    FilterMembers(HasRank(rank), pool);
    var least :| least in pool && least.claim.provenance == rank;
    assert least in Elements(pool);
    forall r | r in Elements(pool) && forall x :: x in Elements(pool) ==> r.claim.provenance <= x.claim.provenance
      ensures r in Filter(HasRank(rank), pool)
    {
    }
    forall r | r in Filter(HasRank(rank), pool) ensures r in Strongest(Elements(pool)) {
      forall x | x in Elements(pool) ensures r.claim.provenance <= x.claim.provenance {
        assert x in pool;
      }
    }
  }

  lemma CurrentElements(records: seq<Record>)
    ensures Elements(Filter(IsCurrent, records)) == CurrentOnes(Elements(records))
  {
    FilterMembers(IsCurrent, records);
  }

  lemma ClassElements(evidence: seq<Record>)
    requires Pool(evidence) != []
    ensures Elements(StrongestOf(evidence)) == Strongest(LiveSet(evidence))
    ensures Elements(Filter(IsCurrent, StrongestOf(evidence))) == CurrentOnes(Strongest(LiveSet(evidence)))
    ensures StrongestOf(evidence) != []
  {
    PoolElements(evidence);
    StrongestElements(Pool(evidence));
    CurrentElements(StrongestOf(evidence));
    StrongestIsInhabited(Pool(evidence));
  }

  lemma EmptyPool(evidence: seq<Record>)
    ensures Pool(evidence) == [] <==> LiveSet(evidence) == {}
  {
    PoolElements(evidence);
    if Pool(evidence) != [] {
      assert Pool(evidence)[0] in Elements(Pool(evidence));
    }
  }

  lemma NonCurrentFlag(capability: Id, generation: nat, evidence: seq<Record>)
    ensures Resolve(capability, generation, evidence).hasNonCurrent <==>
            exists x :: x in LiveSet(evidence) && !IsCurrent(x)
  {
    FilterMembers(IsDormant, evidence);
    if Filter(IsDormant, evidence) != [] {
      var x := Filter(IsDormant, evidence)[0];
      assert x in Filter(IsDormant, evidence);
      assert x in LiveSet(evidence) && !IsCurrent(x);
    }
  }

  /** The computed resolution follows the rule. */
  lemma ResolveFollowsRule(capability: Id, generation: nat, evidence: seq<Record>)
    requires KeyOrdered(evidence)
    ensures Decides(LiveSet(evidence), Resolve(capability, generation, evidence))
  {
    EmptyPool(evidence);
    NonCurrentFlag(capability, generation, evidence);
    if Pool(evidence) != [] {
      ClassElements(evidence);
      LiveKeysAreDistinct(evidence);
      var strongest := StrongestOf(evidence);
      var current := Filter(IsCurrent, strongest);
      if current == [] {
        assert CurrentOnes(Strongest(LiveSet(evidence))) == {};
        PickLeads(strongest);
        assert DecidedBy(Resolve(capability, generation, evidence), LiveSet(evidence), Pick(strongest));
      } else {
        assert current[0] in Elements(current);
        PickLeads(current);
        assert Agree(current, Pick(current)) <==> Unanimous(Elements(current), Pick(current));
        assert DecidedBy(Resolve(capability, generation, evidence), LiveSet(evidence), Pick(current));
      }
    }
  }

  ghost predicate SameDecision(a: Resolution, b: Resolution) {
    && a.state == b.state && a.value == b.value && a.winner == b.winner && a.provenance == b.provenance
    && a.sourceClass == b.sourceClass && a.coverage == b.coverage && a.durability == b.durability
    && a.evidenceGeneration == b.evidenceGeneration && a.sourceGeneration == b.sourceGeneration
    && a.hasNonCurrent == b.hasNonCurrent
  }

  lemma LeaderIsUnique(a: Record, b: Record, records: set<Record>)
    requires Leads(a, records) && Leads(b, records)
    ensures a == b
  {
  }

  /** The rule leaves no choice over a non-empty set of live records. */
  lemma RuleIsDeterministic(live: set<Record>, a: Resolution, b: Resolution)
    requires live != {} && Decides(live, a) && Decides(live, b)
    ensures SameDecision(a, b)
  {
  }

  // ----- counts -----

  ghost function ClaimClass(r: Record): (CapabilityState, CapabilityValue) {
    (r.claim.state, Normal(r.claim.value))
  }

  ghost function ClaimClasses(records: set<Record>): set<(CapabilityState, CapabilityValue)> {
    set r | r in records :: ClaimClass(r)
  }

  lemma SameClaimIffSameClass(a: Record, b: Record)
    ensures SameClaim(a, b) <==> ClaimClass(a) == ClaimClass(b)
  {
  }

  /** The identifiers listed for a conflict are one per distinct claim. */
  lemma {:induction false} ConflictCountIsClaimCount(records: seq<Record>)
    ensures |FirstOfEachClaim(records)| == |ClaimClasses(Elements(records))|
  {
    if records == [] {
      assert ClaimClasses(Elements(records)) == {};
    } else {
      var n := |records| - 1;
      var front := records[..n];
      ConflictCountIsClaimCount(front);
      assert records == front + [records[n]];
      assert ClaimClasses(Elements(records)) == ClaimClasses(Elements(front)) + {ClaimClass(records[n])};
      if exists r :: r in front && SameClaim(r, records[n]) {
        var r :| r in front && SameClaim(r, records[n]);
        SameClaimIffSameClass(r, records[n]);
        assert r in Elements(front);
        assert ClaimClass(records[n]) in ClaimClasses(Elements(front));
        assert ClaimClasses(Elements(records)) == ClaimClasses(Elements(front));
        assert FirstOfEachClaim(records) == FirstOfEachClaim(front);
      } else {
        forall r | r in Elements(front) ensures ClaimClass(r) != ClaimClass(records[n]) {
          SameClaimIffSameClass(r, records[n]);
        }
        assert ClaimClass(records[n]) !in ClaimClasses(Elements(front));
      }
    }
  }

  lemma LiveFilterDistinct(p: Record -> bool, evidence: seq<Record>)
    requires KeyOrdered(evidence) && forall r :: p(r) ==> Live(r)
    ensures Distinct(Filter(p, evidence))
    decreases |evidence|
  {
    if evidence != [] {
      var n := |evidence| - 1;
      var front := evidence[..n];
      LiveFilterDistinct(p, front);
      FilterMembers(p, front);
      var f := Filter(p, front);
      if p(evidence[n]) {
        forall i | 0 <= i < |f| ensures f[i] != evidence[n] {
          assert f[i] in f;
          var k :| 0 <= k < n && front[k] == f[i];
          assert evidence[k] == f[i];
        }
      }
    }
  }

  lemma LiveCount(p: Record -> bool, evidence: seq<Record>)
    requires KeyOrdered(evidence) && forall r :: p(r) ==> Live(r)
    ensures |Filter(p, evidence)| == |set r | r in LiveSet(evidence) && p(r)|
  {
    LiveFilterDistinct(p, evidence);
    DistinctLength(Filter(p, evidence));
    FilterMembers(p, evidence);
    assert (set r | r in Filter(p, evidence)) == set r | r in LiveSet(evidence) && p(r);
  }

  lemma PoolDistinct(evidence: seq<Record>)
    requires KeyOrdered(evidence)
    ensures Distinct(Pool(evidence))
    ensures |Pool(evidence)| == |LiveSet(evidence)|
  {
    LiveFilterDistinct(IsCurrent, evidence);
    LiveFilterDistinct(IsDormant, evidence);
    FilterMembers(IsCurrent, evidence);
    FilterMembers(IsDormant, evidence);
    var c, d := Filter(IsCurrent, evidence), Filter(IsDormant, evidence);
    forall i, j | 0 <= i < j < |c + d| ensures (c + d)[i] != (c + d)[j] {
      if i < |c| && |c| <= j {
        assert c[i] in c && d[j - |c|] in d;
      }
    }
    PoolElements(evidence);
    DistinctLength(Pool(evidence));
  }

  lemma StrongestCount(evidence: seq<Record>)
    requires KeyOrdered(evidence) && Pool(evidence) != []
    ensures |StrongestOf(evidence)| == |Strongest(LiveSet(evidence))|
  {
    PoolDistinct(evidence);
    FilterDistinct(HasRank(StrongestRank(Pool(evidence))), Pool(evidence));
    DistinctLength(StrongestOf(evidence));
    ClassElements(evidence);
  }

  lemma ConflictCount(capability: Id, generation: nat, evidence: seq<Record>)
    requires Pool(evidence) != []
    ensures |Resolve(capability, generation, evidence).conflicting| ==
            var current := Filter(IsCurrent, StrongestOf(evidence));
            if current == [] || Agree(current, Pick(current)) then 0
            else
              var classes := |ClaimClasses(CurrentOnes(Strongest(LiveSet(evidence))))|;
              if classes <= MAX_CONFLICTING_EVIDENCE then classes else MAX_CONFLICTING_EVIDENCE
  {
    ClassElements(evidence);
    var current := Filter(IsCurrent, StrongestOf(evidence));
    ConflictCountIsClaimCount(current);
    assert |Identities(FirstOfEachClaim(current))| == |FirstOfEachClaim(current)|;
  }

  /** Everything the set digest covers of a resolution depends on the set of live
      records and on the length of the list, not on the order of arrival. */
  lemma ViewDependsOnLiveRecords(capability: Id, generation: nat, a: seq<Record>, b: seq<Record>)
    requires KeyOrdered(a) && KeyOrdered(b)
    requires LiveSet(a) == LiveSet(b) && |a| == |b|
    ensures View(Resolve(capability, generation, a)) == View(Resolve(capability, generation, b))
    ensures Resolve(capability, generation, a).winner == Resolve(capability, generation, b).winner
  {
    var r, s := Resolve(capability, generation, a), Resolve(capability, generation, b);
    LiveCount(IsCurrent, a);
    LiveCount(IsCurrent, b);
    ResolveFollowsRule(capability, generation, a);
    ResolveFollowsRule(capability, generation, b);
    EmptyPool(a);
    EmptyPool(b);
    SameShape(capability, generation, a);
    SameShape(capability, generation, b);
    if Pool(a) != [] {
      RuleIsDeterministic(LiveSet(a), r, s);
      StrongestCount(a);
      StrongestCount(b);
      PoolDistinct(a);
      PoolDistinct(b);
      ConflictCountsAgree(capability, generation, a, b);
    } else {
      NonCurrentFlag(capability, generation, a);
      NonCurrentFlag(capability, generation, b);
    }
  }

  lemma DecisionKeepsShape(base: Resolution, strongest: seq<Record>)
    requires strongest != []
    ensures var r := Decide(base, strongest);
            && r.capability == base.capability && r.generation == base.generation
            && r.evidenceCount == base.evidenceCount && r.currentCount == base.currentCount
            && r.outrankedCount == base.outrankedCount && r.hasNonCurrent == base.hasNonCurrent
  {
  }

  lemma SameShape(capability: Id, generation: nat, evidence: seq<Record>)
    ensures var r := Resolve(capability, generation, evidence);
            && r.capability == capability && r.generation == generation && r.evidenceCount == |evidence|
            && r.currentCount == |Filter(IsCurrent, evidence)|
            && r.outrankedCount == (if Pool(evidence) == [] then 0 else |Pool(evidence)| - |StrongestOf(evidence)|)
  {
    if Pool(evidence) != [] {
      DecisionKeepsShape(Base(capability, generation, evidence), StrongestOf(evidence));
    }
  }

  lemma ConflictCountsAgree(capability: Id, generation: nat, a: seq<Record>, b: seq<Record>)
    requires KeyOrdered(a) && KeyOrdered(b)
    requires LiveSet(a) == LiveSet(b) && Pool(a) != [] && Pool(b) != []
    ensures |Resolve(capability, generation, a).conflicting| == |Resolve(capability, generation, b).conflicting|
  {
    ConflictCount(capability, generation, a);
    ConflictCount(capability, generation, b);
    ClassElements(a);
    ClassElements(b);
    LiveKeysAreDistinct(a);
    var x, y := Filter(IsCurrent, StrongestOf(a)), Filter(IsCurrent, StrongestOf(b));
    assert x == [] <==> y == [] by {
      if x != [] { assert x[0] in Elements(x); }
      if y != [] { assert y[0] in Elements(y); }
    }
    if x != [] {
      PickLeads(x);
      PickLeads(y);
      LeaderIsUnique(Pick(x), Pick(y), Elements(x));
      assert Agree(x, Pick(x)) <==> Unanimous(Elements(x), Pick(x));
      assert Agree(y, Pick(y)) <==> Unanimous(Elements(y), Pick(y));
    }
  }
}
