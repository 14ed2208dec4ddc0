/** Who speaks for a capability, in the words of an evidence list alone: the strongest class that is
    still retained, its current members if it has any, and among them the newest. */
module Winners {
  import opened Sequences
  import opened Values
  import opened Evidence
  import opened ResolutionRules
  import opened RegistryState
  import opened EvidenceInvariant
  import opened RegistrySteps
  import opened RegistryInvariant
  import opened Runs

  // ----- the rule, place by place -----

  /** Neither superseded nor left behind by an older entity generation. */
  predicate Retained(r: Record) {
    r.currentness.Current? || r.currentness.AwaitingRevalidation? || r.currentness.Fenced?
  }

  /** No retained record is of a stronger class. */
  ghost predicate Contends(r: Record, evidence: seq<Record>) {
    Retained(r) && forall x :: x in evidence && Retained(x) ==> r.claim.provenance <= x.claim.provenance
  }

  ghost predicate HasCurrentContender(evidence: seq<Record>) {
    exists x :: x in evidence && Contends(x, evidence) && x.currentness.Current?
  }

  /** The current members of the strongest class decide, or all its members when none is current. */
  ghost predicate Votes(r: Record, evidence: seq<Record>) {
    r in evidence && Contends(r, evidence) && (r.currentness.Current? || !HasCurrentContender(evidence))
  }

  /** w is newer than r, or as new with a lower source, or of that source with no higher boot. */
  predicate NotBehind(w: Record, r: Record) {
    && w.evidenceGeneration >= r.evidenceGeneration
    && (w.evidenceGeneration == r.evidenceGeneration ==> w.key.source <= r.key.source)
    && (w.evidenceGeneration == r.evidenceGeneration && w.key.source == r.key.source ==> w.key.boot <= r.key.boot)
  }

  ghost predicate Speaks(w: Record, evidence: seq<Record>) {
    Votes(w, evidence) && forall r :: Votes(r, evidence) ==> NotBehind(w, r)
  }

  predicate AgreeOn(a: Record, b: Record) {
    a.claim.state == b.claim.state && Normal(a.claim.value) == Normal(b.claim.value)
  }

  ghost predicate VotesAgree(w: Record, evidence: seq<Record>) {
    forall r :: Votes(r, evidence) ==> AgreeOn(r, w)
  }

  /** The place holds a vote whose claim no vote before it makes. */
  ghost predicate FirstOfItsClaim(evidence: seq<Record>, i: nat) {
    && i < |evidence| && Votes(evidence[i], evidence)
    && forall j :: 0 <= j < i && Votes(evidence[j], evidence) ==> !AgreeOn(evidence[j], evidence[i])
  }

  /** The identifiers are those of the first votes for each claim, in order, at most 64 of them. */
  ghost predicate ListsFirsts(ids: seq<EvidenceId>, evidence: seq<Record>, places: seq<nat>) {
    && |ids| == |places| <= 64
    && (forall k :: 0 <= k < |places| ==> FirstOfItsClaim(evidence, places[k])
                                          && ids[k] == evidence[places[k]].Identity())
    && (forall k, m :: 0 <= k < m < |places| ==> places[k] < places[m])
    && (forall i :: FirstOfItsClaim(evidence, i) ==>
          i in places || (|places| == 64 && places[63] < i))
  }

  ghost predicate NamesConflict(ids: seq<EvidenceId>, evidence: seq<Record>) {
    exists places :: ListsFirsts(ids, evidence, places)
  }

  ghost function PlacesOf(p: Record -> bool, evidence: seq<Record>): set<nat> {
    set i | 0 <= i < |evidence| && p(evidence[i])
  }

  /** What a resolution says of the one that speaks. */
  ghost predicate SpokenBy(r: Resolution, w: Record) {
    && r.winner == Some(EvidenceId(w.publisher, w.key.boot, w.attempt, w.entity, w.entityGeneration,
                                   w.claim.capability, w.evidenceGeneration))
    && r.provenance == w.claim.provenance && r.sourceClass == w.claim.sourceClass
    && r.coverage == w.claim.coverage && r.durability == w.claim.durability
    && r.evidenceGeneration == w.evidenceGeneration && r.sourceGeneration == w.sourceGeneration
  }

  ghost predicate DecidedFor(r: Resolution, w: Record, evidence: seq<Record>) {
    && SpokenBy(r, w)
    && (!w.currentness.Current? ==>
          r.state == RevalidationRequired && r.value == w.claim.value && r.conflicting == [])
    && (w.currentness.Current? && VotesAgree(w, evidence) ==>
          r.state == w.claim.state && r.value == w.claim.value && r.conflicting == [])
    && (w.currentness.Current? && !VotesAgree(w, evidence) ==>
          r.state == Conflicted && r.value == Absent && NamesConflict(r.conflicting, evidence))
  }

  ghost predicate Undecided(r: Resolution) {
    && r.state == Unknown && r.value == Absent && r.winner == None && r.provenance == 6
    && r.sourceClass == SyntheticBackend && r.coverage == Partial && r.durability == ProcessBound
    && r.evidenceGeneration == 0 && r.sourceGeneration == 0 && r.conflicting == []
  }

  ghost predicate CountsMatch(r: Resolution, evidence: seq<Record>) {
    && r.currentCount == |PlacesOf((x: Record) => x.currentness.Current?, evidence)|
    && r.outrankedCount == |PlacesOf((x: Record) => Retained(x) && !Contends(x, evidence), evidence)|
    && (r.hasNonCurrent <==> exists x :: x in evidence && Retained(x) && !x.currentness.Current?)
  }

  /** The whole rule: everything a resolution says but its evidence count. */
  ghost predicate Resolved(r: Resolution, capability: Id, generation: nat, evidence: seq<Record>) {
    && r.capability == capability && r.generation == generation
    && CountsMatch(r, evidence)
    && (if exists x :: x in evidence && Retained(x) then
          exists w :: Speaks(w, evidence) && DecidedFor(r, w, evidence)
        else Undecided(r))
  }

  // ----- counting places -----

  lemma {:induction false} FilterLengthIsPlaces(p: Record -> bool, evidence: seq<Record>)
    ensures |Filter(p, evidence)| == |PlacesOf(p, evidence)|
  {
    if evidence == [] {
      assert PlacesOf(p, evidence) == {};
    } else {
      var n := |evidence| - 1;
      var front := evidence[..n];
      FilterLengthIsPlaces(p, front);
      assert PlacesOf(p, evidence) == PlacesOf(p, front) + (if p(evidence[n]) then {n} else {});
      assert n !in PlacesOf(p, front);
    }
  }

  lemma {:induction false} FilterOfFilter(p: Record -> bool, q: Record -> bool, both: Record -> bool, s: seq<Record>)
    requires forall x :: both(x) <==> p(x) && q(x)
    ensures Filter(p, Filter(q, s)) == Filter(both, s)
  {
    if s != [] {
      var n := |s| - 1;
      FilterOfFilter(p, q, both, s[..n]);
      FilterStep(p, Filter(q, s[..n]), s[n]);
      assert q(s[n]) || Filter(q, s) == Filter(q, s[..n]);
    }
  }

  /** Two exclusive conditions split what either selects. */
  lemma {:induction false} FilterSplit(a: Record -> bool, b: Record -> bool, either: Record -> bool, s: seq<Record>)
    requires forall x :: !(a(x) && b(x)) && (either(x) <==> a(x) || b(x))
    ensures |Filter(a, s)| + |Filter(b, s)| == |Filter(either, s)|
  {
    if s != [] {
      FilterSplit(a, b, either, s[..|s| - 1]);
    }
  }

  lemma {:induction false} NothingSelected(p: Record -> bool, s: seq<Record>)
    requires forall x :: x in s ==> !p(x)
    ensures Filter(p, s) == []
  {
    if s != [] {
      var n := |s| - 1;
      assert s == s[..n] + [s[n]];
      NothingSelected(p, s[..n]);
    }
  }

  // ----- the strongest class -----

  lemma RetainedIsPooled(evidence: seq<Record>)
    ensures forall x :: x in Pool(evidence) <==> x in evidence && Retained(x)
    ensures Pool(evidence) == [] <==> !exists x :: x in evidence && Retained(x)
  {
    FilterMembers(IsCurrent, evidence);
    FilterMembers(IsDormant, evidence);
    if Pool(evidence) != [] {
      assert Pool(evidence)[0] in Pool(evidence);
    }
  }

  lemma ContendersAreStrongest(evidence: seq<Record>)
    requires Pool(evidence) != []
    ensures forall x :: x in StrongestOf(evidence) <==> x in evidence && Contends(x, evidence)
    ensures forall x :: x in evidence && Retained(x) ==>
              (Contends(x, evidence) <==> x.claim.provenance == StrongestRank(Pool(evidence)))
  {
    var pool := Pool(evidence);
    var rank := StrongestRank(pool);
    RetainedIsPooled(evidence);
    FilterMembers(HasRank(rank), pool);
    var least :| least in pool && least.claim.provenance == rank;
    forall x | x in evidence && Retained(x)
      ensures Contends(x, evidence) <==> x.claim.provenance == rank
    {
      assert x in pool && least in evidence && Retained(least);
      if x.claim.provenance == rank {
        forall y | y in evidence && Retained(y) ensures x.claim.provenance <= y.claim.provenance {
          assert y in pool;
        }
      }
    }
  }

  function CurrentOfRank(rank: Rank): Record -> bool {
    (r: Record) => r.currentness.Current? && r.claim.provenance == rank
  }

  /** The current members of the strongest class, in the order of the list. */
  lemma StrongestCurrentInOrder(evidence: seq<Record>)
    requires Pool(evidence) != []
    ensures Filter(IsCurrent, StrongestOf(evidence)) ==
            Filter(CurrentOfRank(StrongestRank(Pool(evidence))), evidence)
  {
    hide Filter;
    var rank := StrongestRank(Pool(evidence));
    var p := CurrentOfRank(rank);
    var current, dormant := Filter(IsCurrent, evidence), Filter(IsDormant, evidence);
    FilterOfFilter(IsCurrent, HasRank(rank), p, Pool(evidence));
    FilterConcat(p, current, dormant);
    FilterOfFilter(p, IsCurrent, p, evidence);
    FilterMembers(IsDormant, evidence);
    NothingSelected(p, dormant);
  }

  lemma VotersExactly(evidence: seq<Record>)
    requires Pool(evidence) != []
    ensures var current := Filter(IsCurrent, StrongestOf(evidence));
            && (HasCurrentContender(evidence) <==> current != [])
            && (forall r :: Votes(r, evidence) <==> r in if current == [] then StrongestOf(evidence) else current)
  {
    var strongest := StrongestOf(evidence);
    var current := Filter(IsCurrent, strongest);
    ContendersAreStrongest(evidence);
    FilterMembers(IsCurrent, strongest);
    if current != [] {
      assert current[0] in current;
    }
  }

  // ----- the record that speaks -----

  /** The pick of a class is not behind any member: the newest, then the lowest source, then the lowest boot. */
  lemma PickIsNotBehind(records: seq<Record>)
    requires records != []
    ensures forall r :: r in records ==> NotBehind(Pick(records), r)
  {
  }

  lemma AgreeIffSameClaim(a: Record, b: Record)
    ensures SameClaim(a, b) <==> AgreeOn(a, b)
  {
    SameValueIffNormal(a.claim.value, b.claim.value);
  }

  lemma AgreementIsUnanimity(records: seq<Record>, w: Record)
    ensures Agree(records, w) <==> forall r :: r in records ==> AgreeOn(r, w)
  {
    forall r ensures SameClaim(r, w) <==> AgreeOn(r, w) {
      AgreeIffSameClaim(r, w);
    }
  }

  // ----- the identifiers of a conflict -----

  /** The place is selected and no selected place before it makes the same claim. */
  ghost predicate FirstSelected(p: Record -> bool, evidence: seq<Record>, i: nat) {
    i < |evidence| && p(evidence[i]) && forall j :: 0 <= j < i && p(evidence[j]) ==> !AgreeOn(evidence[j], evidence[i])
  }

  ghost predicate PlacesFirsts(places: seq<nat>, firsts: seq<Record>, p: Record -> bool, evidence: seq<Record>) {
    && |places| == |firsts|
    && (forall k :: 0 <= k < |places| ==> FirstSelected(p, evidence, places[k]) && firsts[k] == evidence[places[k]])
    && (forall k, m :: 0 <= k < m < |places| ==> places[k] < places[m])
    && (forall i :: FirstSelected(p, evidence, i) ==> i in places)
  }

  lemma FirstSelectedInPrefix(p: Record -> bool, evidence: seq<Record>, n: nat)
    requires n < |evidence|
    ensures forall i: nat :: i < n ==> (FirstSelected(p, evidence, i) <==> FirstSelected(p, evidence[..n], i))
  {
    assert forall j :: 0 <= j < n ==> evidence[..n][j] == evidence[j];
  }

  lemma SeenInFilter(p: Record -> bool, front: seq<Record>, x: Record)
    ensures (exists r :: r in Filter(p, front) && SameClaim(r, x)) <==>
            exists j :: 0 <= j < |front| && p(front[j]) && AgreeOn(front[j], x)
  {
    FilterMembers(p, front);
    if r :| r in Filter(p, front) && SameClaim(r, x) {
      AgreeIffSameClaim(r, x);
      var j :| 0 <= j < |front| && front[j] == r;
      assert p(front[j]) && AgreeOn(front[j], x);
    }
    if j :| 0 <= j < |front| && p(front[j]) && AgreeOn(front[j], x) {
      AgreeIffSameClaim(front[j], x);
      assert front[j] in Filter(p, front);
    }
  }

  lemma FirstsOfOneMore(kept: seq<Record>, x: Record)
    ensures FirstOfEachClaim(kept + [x]) ==
            if exists r :: r in kept && SameClaim(r, x) then FirstOfEachClaim(kept) else FirstOfEachClaim(kept) + [x]
  {
    var all := kept + [x];
    assert all[..|kept|] == kept && all[..|kept| + 1] == all;
    FirstOfEachClaimStep(all, |kept|);
  }

  lemma FirstsOfFilter(p: Record -> bool, front: seq<Record>, x: Record)
    ensures var evidence := front + [x];
            var firsts := FirstOfEachClaim(Filter(p, front));
            FirstOfEachClaim(Filter(p, evidence)) ==
            if FirstSelected(p, evidence, |front|) then firsts + [x] else firsts
  {
    hide FirstOfEachClaim, Filter, AgreeOn;
    var evidence := front + [x];
    FilterStep(p, front, x);
    SeenInFilter(p, front, x);
    assert forall j :: 0 <= j < |front| ==> evidence[j] == front[j];
    FirstsOfOneMore(Filter(p, front), x);
    assert Filter(p, front) + [] == Filter(p, front);
  }

  lemma {:induction false} FirstsHavePlaces(p: Record -> bool, evidence: seq<Record>) returns (places: seq<nat>)
    ensures PlacesFirsts(places, FirstOfEachClaim(Filter(p, evidence)), p, evidence)
  {
    hide FirstOfEachClaim, Filter;
    if evidence == [] {
      places := [];
      NothingSelected(p, evidence);
      assert FirstOfEachClaim(Filter(p, evidence)) == [];
    } else {
      var n := |evidence| - 1;
      places := FirstsHavePlaces(p, evidence[..n]);
      assert evidence == evidence[..n] + [evidence[n]];
      FirstsOfFilter(p, evidence[..n], evidence[n]);
      places := OneMorePlace(p, evidence[..n], evidence[n], places, FirstOfEachClaim(Filter(p, evidence[..n])));
    }
  }

  lemma SelectedIsPlace(p: Record -> bool, evidence: seq<Record>, i: nat)
    requires FirstSelected(p, evidence, i)
    ensures i < |evidence|
  {
  }

  lemma OneMorePlace(p: Record -> bool, front: seq<Record>, x: Record, places: seq<nat>, firsts: seq<Record>)
    returns (more: seq<nat>)
    requires PlacesFirsts(places, firsts, p, front)
    ensures var evidence := front + [x];
            PlacesFirsts(more, if FirstSelected(p, evidence, |front|) then firsts + [x] else firsts, p, evidence)
  {
    hide FirstSelected;
    var evidence := front + [x];
    assert evidence[..|front|] == front;
    FirstSelectedInPrefix(p, evidence, |front|);
    forall k | 0 <= k < |places|
      ensures places[k] < |front| && FirstSelected(p, evidence, places[k]) && firsts[k] == evidence[places[k]]
    {
      SelectedIsPlace(p, front, places[k]);
    }
    forall i: nat | FirstSelected(p, evidence, i) ensures i == |front| || i in places {
      SelectedIsPlace(p, evidence, i);
    }
    more := if FirstSelected(p, evidence, |front|) then places + [|front|] else places;
  }

  /** In a class with a current member the selected places are the places that vote. */
  lemma SelectedAreVotes(evidence: seq<Record>)
    requires Pool(evidence) != [] && Filter(IsCurrent, StrongestOf(evidence)) != []
    ensures var p := CurrentOfRank(StrongestRank(Pool(evidence)));
            forall i :: FirstSelected(p, evidence, i) <==> FirstOfItsClaim(evidence, i)
  {
    hide AgreeOn, Filter, StrongestOf;
    var p := CurrentOfRank(StrongestRank(Pool(evidence)));
    StrongestCurrentInOrder(evidence);
    VotersExactly(evidence);
    FilterMembers(p, evidence);
    forall j | 0 <= j < |evidence| ensures p(evidence[j]) <==> Votes(evidence[j], evidence) {
      assert p(evidence[j]) <==> evidence[j] in Filter(p, evidence);
    }
  }

  lemma ConflictIsNamed(evidence: seq<Record>)
    requires Pool(evidence) != [] && Filter(IsCurrent, StrongestOf(evidence)) != []
    ensures NamesConflict(Bounded(Identities(FirstOfEachClaim(Filter(IsCurrent, StrongestOf(evidence)))),
                                  MAX_CONFLICTING_EVIDENCE), evidence)
  {
    hide FirstOfEachClaim, FirstSelected, FirstOfItsClaim, StrongestOf, Filter;
    var p := CurrentOfRank(StrongestRank(Pool(evidence)));
    var firsts := FirstOfEachClaim(Filter(p, evidence));
    StrongestCurrentInOrder(evidence);
    SelectedAreVotes(evidence);
    var places := FirstsHavePlaces(p, evidence);
    CutPlaces(firsts, evidence, p, places);
  }

  lemma CutPlaces(firsts: seq<Record>, evidence: seq<Record>, p: Record -> bool, places: seq<nat>)
    requires PlacesFirsts(places, firsts, p, evidence)
    requires forall i :: FirstSelected(p, evidence, i) <==> FirstOfItsClaim(evidence, i)
    ensures NamesConflict(Bounded(Identities(firsts), MAX_CONFLICTING_EVIDENCE), evidence)
  {
    hide FirstSelected;
    var cut := if |places| <= 64 then places else places[..64];
    var ids := Bounded(Identities(firsts), MAX_CONFLICTING_EVIDENCE);
    forall k | 0 <= k < |cut|
      ensures FirstOfItsClaim(evidence, cut[k]) && ids[k] == evidence[cut[k]].Identity()
    {
      assert FirstSelected(p, evidence, places[k]);
    }
    hide FirstOfItsClaim;
    forall i | FirstOfItsClaim(evidence, i) ensures i in cut || (|cut| == 64 && cut[63] < i) {
      assert FirstSelected(p, evidence, i);
      var k :| 0 <= k < |places| && places[k] == i;
      if k < |cut| {
        assert cut[k] == i;
      } else {
        assert places[63] < places[k];
      }
    }
    assert ListsFirsts(ids, evidence, cut);
  }

  // ----- the counts -----

  lemma CurrentCountIsPlaces(evidence: seq<Record>)
    ensures |Filter(IsCurrent, evidence)| == |PlacesOf((x: Record) => x.currentness.Current?, evidence)|
  {
    FilterLengthIsPlaces(IsCurrent, evidence);
    assert PlacesOf(IsCurrent, evidence) == PlacesOf((x: Record) => x.currentness.Current?, evidence);
  }

  function OtherRank(rank: Rank): Record -> bool {
    (r: Record) => r.claim.provenance != rank
  }

  lemma OutrankedIsOtherRank(evidence: seq<Record>)
    requires Pool(evidence) != []
    ensures |Pool(evidence)| - |StrongestOf(evidence)| ==
            |Filter(OtherRank(StrongestRank(Pool(evidence))), Pool(evidence))|
  {
    var rank := StrongestRank(Pool(evidence));
    var any := (r: Record) => true;
    FilterSplit(HasRank(rank), OtherRank(rank), any, Pool(evidence));
    EverythingSelected(any, Pool(evidence));
  }

  lemma {:induction false} EverythingSelected(p: Record -> bool, s: seq<Record>)
    requires forall x :: x in s ==> p(x)
    ensures Filter(p, s) == s
  {
    if s != [] {
      var n := |s| - 1;
      assert s == s[..n] + [s[n]];
      EverythingSelected(p, s[..n]);
    }
  }

  lemma OutrankedCountIsPlaces(evidence: seq<Record>)
    requires Pool(evidence) != []
    ensures |Pool(evidence)| - |StrongestOf(evidence)| ==
            |PlacesOf((x: Record) => Retained(x) && !Contends(x, evidence), evidence)|
  {
    hide Filter, StrongestOf;
    var rank := StrongestRank(Pool(evidence));
    var other := OtherRank(rank);
    var current := (r: Record) => IsCurrent(r) && r.claim.provenance != rank;
    var dormant := (r: Record) => IsDormant(r) && r.claim.provenance != rank;
    var either := (r: Record) => Retained(r) && r.claim.provenance != rank;
    OutrankedIsOtherRank(evidence);
    FilterConcat(other, Filter(IsCurrent, evidence), Filter(IsDormant, evidence));
    FilterOfFilter(other, IsCurrent, current, evidence);
    FilterOfFilter(other, IsDormant, dormant, evidence);
    FilterSplit(current, dormant, either, evidence);
    FilterLengthIsPlaces(either, evidence);
    ContendersAreStrongest(evidence);
    assert PlacesOf(either, evidence) == PlacesOf((x: Record) => Retained(x) && !Contends(x, evidence), evidence);
  }

  lemma CountsAreRight(capability: Id, generation: nat, evidence: seq<Record>)
    ensures CountsMatch(Resolve(capability, generation, evidence), evidence)
  {
    hide Filter, StrongestOf, Decide, Contends;
    SameShape(capability, generation, evidence);
    NonCurrentFlag(capability, generation, evidence);
    CurrentCountIsPlaces(evidence);
    RetainedIsPooled(evidence);
    if Pool(evidence) != [] {
      OutrankedCountIsPlaces(evidence);
    } else {
      assert PlacesOf((x: Record) => Retained(x) && !Contends(x, evidence), evidence) == {};
    }
    NonCurrentIsRetained(evidence);
  }

  lemma NonCurrentIsRetained(evidence: seq<Record>)
    ensures (exists x :: x in LiveSet(evidence) && !IsCurrent(x)) <==>
            exists x :: x in evidence && Retained(x) && !x.currentness.Current?
  {
    if x :| x in LiveSet(evidence) && !IsCurrent(x) {
      assert x in evidence && Retained(x) && !x.currentness.Current?;
    }
    if x :| x in evidence && Retained(x) && !x.currentness.Current? {
      assert x in LiveSet(evidence) && !IsCurrent(x);
    }
  }

  // ----- the resolution -----

  lemma DecidedByPick(base: Resolution, evidence: seq<Record>)
    requires Pool(evidence) != [] && base.conflicting == [] && base.value == Absent
    ensures exists w :: Speaks(w, evidence) && DecidedFor(Decide(base, StrongestOf(evidence)), w, evidence)
  {
    hide Filter, StrongestOf, Contends, FirstOfEachClaim, ListsFirsts, HasCurrentContender;
    var strongest := StrongestOf(evidence);
    var current := Filter(IsCurrent, strongest);
    VotersExactly(evidence);
    if current == [] {
      PickIsNotBehind(strongest);
      var w := Pick(strongest);
      assert !IsCurrent(w) by {
        FilterMembers(IsCurrent, strongest);
      }
      assert Speaks(w, evidence) && DecidedFor(Decide(base, strongest), w, evidence);
    } else {
      PickIsNotBehind(current);
      var w := Pick(current);
      FilterMembers(IsCurrent, strongest);
      AgreementIsUnanimity(current, w);
      assert Agree(current, w) <==> VotesAgree(w, evidence);
      ConflictIsNamed(evidence);
      assert Speaks(w, evidence) && DecidedFor(Decide(base, strongest), w, evidence);
    }
  }

  /** The computed resolution is the one the rule gives, with every field of it. */
  lemma ResolveExactly(capability: Id, generation: nat, evidence: seq<Record>)
    ensures Resolved(Resolve(capability, generation, evidence), capability, generation, evidence)
    ensures Resolve(capability, generation, evidence).evidenceCount == |evidence|
  {
    hide Filter, StrongestOf, Decide, Contends, CountsMatch, Speaks, DecidedFor;
    SameShape(capability, generation, evidence);
    CountsAreRight(capability, generation, evidence);
    RetainedIsPooled(evidence);
    if Pool(evidence) != [] {
      DecidedByPick(Base(capability, generation, evidence), evidence);
    }
  }

  // ----- the rule leaves no choice -----

  lemma SpeakerIsUnique(a: Record, b: Record, evidence: seq<Record>)
    requires KeyOrdered(evidence) && Speaks(a, evidence) && Speaks(b, evidence)
    ensures a == b
  {
    hide KeyOrdered, Contends, HasCurrentContender;
    LiveKeysAreDistinct(evidence);
    assert NotBehind(a, b) && NotBehind(b, a);
    SpeakerIsRetained(a, evidence);
    SpeakerIsRetained(b, evidence);
    assert a in LiveSet(evidence) && b in LiveSet(evidence);
  }

  lemma SpeakerIsRetained(w: Record, evidence: seq<Record>)
    requires Speaks(w, evidence)
    ensures w in evidence && Retained(w)
  {
  }

  /** No list of places can leave out a place that another one, as long so far, has. */
  lemma SamePlaceNext(evidence: seq<Record>, a: seq<EvidenceId>, x: seq<nat>, b: seq<EvidenceId>, y: seq<nat>, k: nat)
    requires ListsFirsts(a, evidence, x) && ListsFirsts(b, evidence, y)
    requires k < |x| && k <= |y| && x[..k] == y[..k]
    ensures k < |y| && y[k] <= x[k]
  {
    hide FirstOfItsClaim;
    assert FirstOfItsClaim(evidence, x[k]);
    forall m | 0 <= m < k ensures y[m] < x[k] {
      assert y[m] == y[..k][m] == x[..k][m] == x[m];
    }
    if x[k] in y {
      var m :| 0 <= m < |y| && y[m] == x[k];
      assert m >= k;
    }
  }

  lemma {:induction false} SamePlaces(evidence: seq<Record>, a: seq<EvidenceId>, x: seq<nat>, b: seq<EvidenceId>,
                                      y: seq<nat>, k: nat)
    requires ListsFirsts(a, evidence, x) && ListsFirsts(b, evidence, y)
    requires k <= |x| && k <= |y| && x[..k] == y[..k]
    ensures x == y
    decreases |x| - k
  {
    hide ListsFirsts;
    if k < |x| {
      SamePlaceNext(evidence, a, x, b, y, k);
      SamePlaceNext(evidence, b, y, a, x, k);
      assert x[..k + 1] == x[..k] + [x[k]] && y[..k + 1] == y[..k] + [y[k]];
      SamePlaces(evidence, a, x, b, y, k + 1);
    } else if k < |y| {
      SamePlaceNext(evidence, b, y, a, x, k);
    } else {
      assert x == x[..k] && y == y[..k];
    }
  }

  lemma SameConflict(a: seq<EvidenceId>, b: seq<EvidenceId>, evidence: seq<Record>)
    requires NamesConflict(a, evidence) && NamesConflict(b, evidence)
    ensures a == b
  {
    hide FirstOfItsClaim;
    var x :| ListsFirsts(a, evidence, x);
    var y :| ListsFirsts(b, evidence, y);
    SamePlaces(evidence, a, x, b, y, 0);
  }

  lemma SameDecisionFor(a: Resolution, b: Resolution, w: Record, evidence: seq<Record>)
    requires DecidedFor(a, w, evidence) && DecidedFor(b, w, evidence)
    ensures a.winner == b.winner && a.provenance == b.provenance && a.sourceClass == b.sourceClass
    ensures a.coverage == b.coverage && a.durability == b.durability && a.evidenceGeneration == b.evidenceGeneration
    ensures a.sourceGeneration == b.sourceGeneration && a.state == b.state && a.value == b.value
    ensures a.conflicting == b.conflicting
  {
    hide VotesAgree, NamesConflict;
    if w.currentness.Current? && !VotesAgree(w, evidence) {
      SameConflict(a.conflicting, b.conflicting, evidence);
    }
  }

  /** The rule gives one resolution: any that satisfies it is the computed one. */
  lemma OnlyOneResolution(r: Resolution, capability: Id, generation: nat, evidence: seq<Record>)
    requires KeyOrdered(evidence)
    ensures Resolved(r, capability, generation, evidence) <==>
              r.(evidenceCount := |evidence|) == Resolve(capability, generation, evidence)
  {
    hide KeyOrdered, Speaks, DecidedFor, CountsMatch;
    var computed := Resolve(capability, generation, evidence);
    ResolveExactly(capability, generation, evidence);
    if r.(evidenceCount := |evidence|) == computed {
      CountIsFree(computed, r, capability, generation, evidence);
    } else if Resolved(r, capability, generation, evidence) {
      SameCounts(r, computed, evidence);
      if exists x :: x in evidence && Retained(x) {
        var v :| Speaks(v, evidence) && DecidedFor(r, v, evidence);
        var w :| Speaks(w, evidence) && DecidedFor(computed, w, evidence);
        SpeakerIsUnique(v, w, evidence);
        SameDecisionFor(r, computed, w, evidence);
      }
    }
  }

  lemma SameCounts(a: Resolution, b: Resolution, evidence: seq<Record>)
    requires CountsMatch(a, evidence) && CountsMatch(b, evidence)
    ensures a.currentCount == b.currentCount && a.outrankedCount == b.outrankedCount
    ensures a.hasNonCurrent == b.hasNonCurrent
  {
  }

  lemma CountIsFree(a: Resolution, b: Resolution, capability: Id, generation: nat, evidence: seq<Record>)
    requires a.(evidenceCount := 0) == b.(evidenceCount := 0)
    ensures Resolved(a, capability, generation, evidence) ==> Resolved(b, capability, generation, evidence)
  {
  }

  // ----- every reachable state -----

  lemma SyncedIsResolved(capability: Id, entry: Entry)
    requires Synced(capability, entry)
    ensures Resolved(entry.resolution.value, capability, entry.generation, entry.evidence)
  {
    hide Resolved, Resolve;
    ResolveExactly(capability, entry.generation, entry.evidence);
    CountIsFree(Resolve(capability, entry.generation, entry.evidence), entry.resolution.value, capability,
                entry.generation, entry.evidence);
  }

  /** In every state of every run the cached resolution of a capability is the one the rule gives:
      the newest current member of its strongest class speaks for it. */
  lemma EveryRunNamesTheNewest(env: Environment, epoch: nat, steps: seq<Step>, e: Id, c: Id)
    requires env.Valid() && IsRun(env, Initial(epoch), steps)
    requires var st := Run(env, Initial(epoch), steps); e in st.entities && c in st.entities[e].capabilities
    ensures var entry := Run(env, Initial(epoch), steps).entities[e].capabilities[c];
            entry.resolution.Some? && Resolved(entry.resolution.value, c, entry.generation, entry.evidence)
  {
    hide Resolved, Resolve, KeyOrdered;
    RunKeepsState(env, Initial(epoch), steps);
    var st := Run(env, Initial(epoch), steps);
    assert EntityOk(ContextOf(env, st), e, st.entities[e]);
    assert EntryOk(ContextOf(env, st), st.entities[e], c, st.entities[e].capabilities[c]);
    SyncedIsResolved(c, st.entities[e].capabilities[c]);
  }
}
