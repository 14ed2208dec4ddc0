/** What a committed publication does to the evidence of an entity: the exact entry
    it leaves for every claim, what a full snapshot keeps of other sources, and why
    the order in which sources report does not matter. */
module Publications {
  import opened Sequences
  import opened Evidence
  import opened ResolutionRules
  import opened RegistryState
  import opened EvidenceInvariant
  import opened RegistrySteps
  import opened RegistryInvariant

  ghost predicate DistinctCapabilities(claims: seq<Claim>) {
    forall i, j :: 0 <= i < j < |claims| ==> claims[i].capability != claims[j].capability
  }

  // ----- the exact effect of a list of claims -----

  ghost function ClaimedFor(limit: nat, author: Author, entity: Entity, claim: Claim, reason: Id): Entry {
    ClaimedEntry(limit, author, entity, EntryOf(entity, claim.capability), claim, reason)
  }

  ghost predicate ClaimTook(limit: nat, author: Author, before: Entity, after: Entity, claim: Claim, reason: Id) {
    claim.capability in after.capabilities
    && after.capabilities[claim.capability] == ClaimedFor(limit, author, before, claim, reason)
  }

  ghost predicate Untouched(before: Entity, after: Entity, c: Id) {
    && (c in after.capabilities <==> c in before.capabilities)
    && (c in before.capabilities ==> after.capabilities[c] == before.capabilities[c])
  }

  /** After the claims are applied, each claimed capability holds exactly the entry its claim gives
      and every other capability is as it was. */
  ghost predicate ClaimsTook(limit: nat, author: Author, before: Entity, after: Entity, claims: seq<Claim>,
                             reason: Id) {
    && (forall claim :: claim in claims ==> ClaimTook(limit, author, before, after, claim, reason))
    && (forall c :: !Mentions(claims, c) ==> Untouched(before, after, c))
  }

  lemma ApplyClaimEffect(options: Options, author: Author, entity: Entity, claim: Claim, reason: Id)
    requires ApplyClaim(options, author, entity, claim, reason).error == None
    ensures var after := ApplyClaim(options, author, entity, claim, reason).entity;
            && ClaimTook(options.maxEvidence, author, entity, after, claim, reason)
            && after.id == entity.id && after.bound == entity.bound
            && forall c :: c != claim.capability ==> Untouched(entity, after, c)
  {
    hide Resolve, Displaced, HighestGeneration;
  }

  lemma SameEntrySameClaim(limit: nat, author: Author, a: Entity, b: Entity, claim: Claim, reason: Id)
    requires a.id == b.id && a.bound == b.bound && Untouched(a, b, claim.capability)
    ensures ClaimedFor(limit, author, a, claim, reason) == ClaimedFor(limit, author, b, claim, reason)
  {
    hide Appended;
    var x, y := EntryOf(a, claim.capability), EntryOf(b, claim.capability);
    assert x == y;
    assert RecordFor(author, a, x, claim) == RecordFor(author, b, y, claim);
  }

  lemma {:induction false} ApplyClaimsEffect(options: Options, author: Author, entity: Entity, claims: seq<Claim>,
                                             reason: Id)
    requires ApplyClaims(options, author, entity, claims, reason).error == None && DistinctCapabilities(claims)
    ensures ClaimsTook(options.maxEvidence, author, entity, ApplyClaims(options, author, entity, claims, reason).entity,
                       claims, reason)
    decreases |claims|
  {
    hide ApplyClaim, ClaimedFor;
    if claims != [] {
      hide Untouched, ClaimsTook;
      var next := ApplyClaim(options, author, entity, claims[0], reason).entity;
      ApplyClaimEffect(options, author, entity, claims[0], reason);
      ApplyClaimsEffect(options, author, next, claims[1..], reason);
      FirstClaimStays(claims);
      EffectsCompose(options.maxEvidence, author, entity, next,
                     ApplyClaims(options, author, entity, claims, reason).entity, claims, reason);
    }
  }

  lemma EffectsCompose(limit: nat, author: Author, before: Entity, next: Entity, after: Entity, claims: seq<Claim>,
                       reason: Id)
    requires claims != [] && !Mentions(claims[1..], claims[0].capability)
    requires next.id == before.id && next.bound == before.bound
    requires ClaimTook(limit, author, before, next, claims[0], reason)
    requires forall c :: c != claims[0].capability ==> Untouched(before, next, c)
    requires ClaimsTook(limit, author, next, after, claims[1..], reason)
    ensures ClaimsTook(limit, author, before, after, claims, reason)
  {
    hide ClaimedEntry;
    assert claims == [claims[0]] + claims[1..];
    forall claim | claim in claims ensures ClaimTook(limit, author, before, after, claim, reason) {
      if claim in claims[1..] {
        assert ClaimTook(limit, author, next, after, claim, reason);
        SameEntrySameClaim(limit, author, before, next, claim, reason);
      } else {
        assert Untouched(next, after, claims[0].capability);
      }
    }
    forall c | !Mentions(claims, c) ensures Untouched(before, after, c) {
      assert !Mentions(claims[1..], c) && claims[0] in claims;
      assert Untouched(before, next, c) && Untouched(next, after, c);
    }
  }

  lemma FirstClaimStays(claims: seq<Claim>)
    requires claims != [] && DistinctCapabilities(claims)
    ensures !Mentions(claims[1..], claims[0].capability) && DistinctCapabilities(claims[1..])
  {
  }

  lemma ClaimsDetermineCapabilities(limit: nat, author: Author, before: Entity, x: Entity, y: Entity, a: seq<Claim>,
                                    b: seq<Claim>, reason: Id)
    requires forall claim :: claim in a <==> claim in b
    requires ClaimsTook(limit, author, before, x, a, reason) && ClaimsTook(limit, author, before, y, b, reason)
    ensures x.capabilities == y.capabilities
  {
    forall c ensures Untouched(x, y, c) {
      if Mentions(a, c) {
        var claim :| claim in a && claim.capability == c;
        assert ClaimTook(limit, author, before, x, claim, reason) && ClaimTook(limit, author, before, y, claim, reason);
      } else {
        assert !Mentions(b, c);
        assert Untouched(before, x, c) && Untouched(before, y, c);
      }
    }
    assert forall c :: Untouched(x, y, c);
    assert forall c :: c in x.capabilities <==> c in y.capabilities by {
      forall c ensures c in x.capabilities <==> c in y.capabilities {
        assert Untouched(x, y, c);
      }
    }
    forall c | c in x.capabilities ensures x.capabilities[c] == y.capabilities[c] {
      assert Untouched(x, y, c);
    }
  }

  // ----- live records -----

  ghost function LiveExcept(evidence: seq<Record>, key: SourceKey): set<Record> {
    set r | r in LiveSet(evidence) && r.key != key
  }

  lemma MarkedLiveSet(evidence: seq<Record>, mark: Mark)
    requires mark.to.Superseded?
    ensures LiveSet(MarkRecords(evidence, mark)) == set r | r in LiveSet(evidence) && !Selects(mark.selector, r)
  {
  }

  lemma MarkedEntryLiveSet(capability: Id, entry: Entry, mark: Mark)
    requires mark.to.Superseded?
    ensures LiveSet(MarkEntry(capability, entry, mark).evidence) ==
            set r | r in LiveSet(entry.evidence) && !Selects(mark.selector, r)
  {
    MarkedLiveSet(entry.evidence, mark);
    if !Touches(entry.evidence, mark) {
      UntouchedIsUnchanged(entry.evidence, mark);
    }
  }

  lemma TrimmedLiveSet(evidence: seq<Record>, limit: nat)
    ensures LiveSet(Trim(evidence, limit)) == LiveSet(evidence)
  {
  }

  lemma DisplacedLiveSet(evidence: seq<Record>, key: SourceKey, reason: Id, limit: nat)
    ensures LiveSet(Displaced(evidence, key, reason, limit)) == LiveExcept(evidence, key)
  {
    var mark := Mark(LiveOf(key), Superseded, reason);
    MarkedLiveSet(evidence, mark);
    TrimmedLiveSet(MarkRecords(evidence, mark), limit);
  }

  /** A claimed entry holds the author's new record and the live records of every other source. */
  lemma ClaimedLiveSet(limit: nat, author: Author, entity: Entity, entry: Entry, claim: Claim, reason: Id)
    ensures LiveSet(ClaimedEntry(limit, author, entity, entry, claim, reason).evidence) ==
            LiveExcept(entry.evidence, author.key) + {RecordFor(author, entity, entry, claim)}
  {
    hide Displaced, Resolve, HighestGeneration;
    DisplacedLiveSet(entry.evidence, author.key, reason, limit);
    var kept := Displaced(entry.evidence, author.key, reason, limit);
    var r := RecordFor(author, entity, entry, claim);
    assert forall x :: x in kept + [r] <==> x in kept || x == r;
  }

  // ----- full snapshots -----

  /** Every claim a full snapshot makes, the ones it implies included. */
  ghost function SnapshotClaims(env: Environment, grant: Grant, request: Request): seq<Claim> {
    Covered(request.claims, request.coverage) + AbsenceClaims(env, grant, request)
  }

  lemma {:induction false} AbsentIdsAreNew(env: Environment, grant: Grant, claims: seq<Claim>,
                                           descriptors: seq<Descriptor>)
    requires forall i, j :: 0 <= i < j < |descriptors| ==> descriptors[i].id != descriptors[j].id
    ensures Distinct(AbsentCapabilities(env, grant, claims, descriptors))
    ensures forall c :: c in AbsentCapabilities(env, grant, claims, descriptors) ==>
              !Mentions(claims, c) && exists d :: d in descriptors && d.id == c
  {
    if descriptors != [] {
      var n := |descriptors| - 1;
      AbsentIdsAreNew(env, grant, claims, descriptors[..n]);
      var front := AbsentCapabilities(env, grant, claims, descriptors[..n]);
      assert descriptors == descriptors[..n] + [descriptors[n]];
      forall c | c in front ensures c != descriptors[n].id {
        var d :| d in descriptors[..n] && d.id == c;
      }
    }
  }

  lemma SnapshotClaimsAreDistinct(env: Environment, grant: Grant, request: Request)
    requires env.Valid() && DistinctCapabilities(request.claims)
    ensures DistinctCapabilities(SnapshotClaims(env, grant, request))
  {
    var given, implied := Covered(request.claims, request.coverage), AbsenceClaims(env, grant, request);
    AbsentIdsAreNew(env, grant, request.claims, env.descriptors);
    var ids := AbsentCapabilities(env, grant, request.claims, env.descriptors);
    forall i, j | 0 <= i < |given| && 0 <= j < |implied| ensures given[i].capability != implied[j].capability {
      assert ids[j] in ids;
      assert request.claims[i] in request.claims;
    }
  }

  /** A snapshot leaves on its entity what ClaimsTook says, over the cleared entity. */
  lemma SnapshotEffect(env: Environment, epoch: nat, grant: Grant, entity: Entity, request: Request)
    requires env.Valid() && request.mode.FullSnapshot? && DistinctCapabilities(request.claims)
    requires ApplyRequest(env, epoch, grant, entity, request).error == None
    ensures ClaimsTook(env.options.maxEvidence, AuthorOf(epoch, request), ClearForSnapshot(entity, grant, request),
                       ApplyRequest(env, epoch, grant, entity, request).entity, SnapshotClaims(env, grant, request),
                       request.reason)
  {
    var author := AuthorOf(epoch, request);
    var cleared := ClearForSnapshot(entity, grant, request);
    SnapshotClaimsAreDistinct(env, grant, request);
    ApplyClaimsConcat(env.options, author, cleared, Covered(request.claims, request.coverage),
                      AbsenceClaims(env, grant, request), request.reason);
    ApplyClaimsEffect(env.options, author, cleared, SnapshotClaims(env, grant, request), request.reason);
  }

  /** What a snapshot leaves live of other sources: everything, or for an exclusive scope
      only durable declarations and the publishing instance's own records. */
  ghost predicate SurvivesSnapshot(grant: Grant, request: Request, r: Record) {
    && r.key != request.Key()
    && (!grant.exclusive || r.claim.durability.Durable? || PublisherKey(r.publisher, r.key.boot) == request.Instance())
  }

  ghost function Survivors(grant: Grant, request: Request, evidence: seq<Record>): set<Record> {
    set r | r in LiveSet(evidence) && SurvivesSnapshot(grant, request, r)
  }

  lemma ClearedLiveSet(entity: Entity, grant: Grant, request: Request, c: Id)
    requires c in entity.capabilities
    ensures c in ClearForSnapshot(entity, grant, request).capabilities
    ensures LiveSet(ClearForSnapshot(entity, grant, request).capabilities[c].evidence) ==
            Survivors(grant, request, entity.capabilities[c].evidence)
  {
    hide MarkEntry, LiveSet, Live;
    var others := Mark(LiveProcessBoundOfOthers(request.Instance()), Superseded, request.reason);
    var own := Mark(LiveOf(request.Key()), Superseded, request.reason);
    var entry := entity.capabilities[c];
    var first := if grant.exclusive then MarkEntry(c, entry, others) else entry;
    MarkedEntryLiveSet(c, entry, others);
    MarkedEntryLiveSet(c, first, own);
  }

  ghost predicate HoldsClaim(evidence: seq<Record>, request: Request, claim: Claim, survivors: set<Record>) {
    exists r :: LiveSet(evidence) == survivors + {r} && r !in survivors && IsCurrent(r) && r.claim == claim
      && r.key == request.Key() && r.publisher == request.publisher && r.scope == request.scope
      && r.attempt == request.attempt
  }

  lemma SnapshotClaimHeld(env: Environment, epoch: nat, grant: Grant, entity: Entity, request: Request, claim: Claim)
    requires env.Valid() && request.mode.FullSnapshot? && DistinctCapabilities(request.claims)
    requires ApplyRequest(env, epoch, grant, entity, request).error == None
    requires claim in SnapshotClaims(env, grant, request)
    ensures var after := ApplyRequest(env, epoch, grant, entity, request).entity;
            claim.capability in after.capabilities
            && HoldsClaim(after.capabilities[claim.capability].evidence, request, claim,
                          Survivors(grant, request, EntryOf(entity, claim.capability).evidence))
  {
    hide ApplyRequest, Appended, Live;
    SnapshotEffect(env, epoch, grant, entity, request);
    var after := ApplyRequest(env, epoch, grant, entity, request).entity;
    assert ClaimTook(env.options.maxEvidence, AuthorOf(epoch, request), ClearForSnapshot(entity, grant, request), after,
                     claim, request.reason);
    var c := claim.capability;
    var cleared := ClearForSnapshot(entity, grant, request);
    var author := AuthorOf(epoch, request);
    var entry := EntryOf(cleared, c);
    ClaimedLiveSet(env.options.maxEvidence, author, cleared, entry, claim, request.reason);
    if c in entity.capabilities {
      ClearedLiveSet(entity, grant, request, c);
    }
    var survivors := Survivors(grant, request, EntryOf(entity, c).evidence);
    assert LiveSet(entry.evidence) == survivors;
    assert LiveExcept(entry.evidence, author.key) == survivors;
    var r := RecordFor(author, cleared, entry, claim);
    assert r !in survivors;
  }

  lemma SnapshotOthersKept(env: Environment, epoch: nat, grant: Grant, entity: Entity, request: Request, c: Id)
    requires env.Valid() && request.mode.FullSnapshot? && DistinctCapabilities(request.claims)
    requires ApplyRequest(env, epoch, grant, entity, request).error == None
    requires !Mentions(SnapshotClaims(env, grant, request), c)
    ensures var after := ApplyRequest(env, epoch, grant, entity, request).entity;
            (c in after.capabilities <==> c in entity.capabilities)
            && (c in entity.capabilities ==> LiveSet(after.capabilities[c].evidence) ==
                                             Survivors(grant, request, entity.capabilities[c].evidence))
  {
    SnapshotEffect(env, epoch, grant, entity, request);
    if c in entity.capabilities {
      ClearedLiveSet(entity, grant, request, c);
    }
  }

  /** The located entity a publication starts from. */
  ghost function StartOf(env: Environment, st: State, request: Request): Entity
    requires Locate(env, st, request).1 == None
  {
    Locate(env, st, request).0.entities[request.entity]
  }

  lemma CommittedWasApplied(env: Environment, st: State, request: Request)
    requires Publish(env, st, request).1.Committed?
    ensures Admit(env, st, request) == None && Locate(env, st, request).1 == None
    ensures request.entity in Publish(env, st, request).0.entities && request.scope in st.authorities
    ensures var applied := ApplyRequest(env, st.epoch, st.authorities[request.scope], StartOf(env, st, request),
                                        request);
            var entity := Publish(env, st, request).0.entities[request.entity];
            applied.error == None && entity.capabilities == applied.entity.capabilities
            && entity.id == applied.entity.id && entity.bound == applied.entity.current
            && DigestOf(entity.published) == Some(Views(SortedResolutions(entity.capabilities)))
    ensures Publish(env, st, request).0.epoch == st.epoch && Publish(env, st, request).0.authorities == st.authorities
  {
    hide ApplyRequest, Admit;
  }

  /** A committed full snapshot leaves its source key with exactly one live record per claim, a
      current one carrying that claim, and no other live record; the live records of other
      sources are those that survive the snapshot. */
  lemma CommittedSnapshot(env: Environment, st: State, request: Request)
    requires env.Valid() && StateOk(env, st) && request.mode.FullSnapshot? && Publish(env, st, request).1.Committed?
    ensures Locate(env, st, request).1 == None && request.scope in st.authorities
    ensures request.entity in Publish(env, st, request).0.entities
    ensures var grant := st.authorities[request.scope];
            var start := StartOf(env, st, request);
            var entity := Publish(env, st, request).0.entities[request.entity];
            forall claim :: claim in SnapshotClaims(env, grant, request) ==>
              claim.capability in entity.capabilities
              && HoldsClaim(entity.capabilities[claim.capability].evidence, request, claim,
                            Survivors(grant, request, EntryOf(start, claim.capability).evidence))
    ensures var grant := st.authorities[request.scope];
            var start := StartOf(env, st, request);
            var entity := Publish(env, st, request).0.entities[request.entity];
            forall c :: !Mentions(SnapshotClaims(env, grant, request), c) && c in entity.capabilities ==>
              c in start.capabilities
              && LiveSet(entity.capabilities[c].evidence) == Survivors(grant, request, start.capabilities[c].evidence)
  {
    CommittedWasApplied(env, st, request);
    AdmittedRequestIsOk(env, st, request);
    var grant := st.authorities[request.scope];
    var start := StartOf(env, st, request);
    forall claim | claim in SnapshotClaims(env, grant, request)
      ensures claim.capability in ApplyRequest(env, st.epoch, grant, start, request).entity.capabilities
      ensures var after := ApplyRequest(env, st.epoch, grant, start, request).entity;
              HoldsClaim(after.capabilities[claim.capability].evidence, request, claim,
                         Survivors(grant, request, EntryOf(start, claim.capability).evidence))
    {
      SnapshotClaimHeld(env, st.epoch, grant, start, request, claim);
    }
    forall c | !Mentions(SnapshotClaims(env, grant, request), c)
      ensures var after := ApplyRequest(env, st.epoch, grant, start, request).entity;
              (c in after.capabilities <==> c in start.capabilities)
              && (c in start.capabilities ==>
                    LiveSet(after.capabilities[c].evidence) ==
                        Survivors(grant, request, start.capabilities[c].evidence))
    {
      SnapshotOthersKept(env, st.epoch, grant, start, request, c);
    }
  }

  // ----- partial observations -----

  /** A committed partial observation leaves the capabilities it does not mention exactly as they were. */
  lemma CommittedObservation(env: Environment, st: State, request: Request)
    requires env.Valid() && request.mode.PartialObservation? && Publish(env, st, request).1.Committed?
    ensures Locate(env, st, request).1 == None && request.entity in Publish(env, st, request).0.entities
    ensures ClaimsTook(env.options.maxEvidence, AuthorOf(st.epoch, request), StartOf(env, st, request),
                       Publish(env, st, request).0.entities[request.entity], Covered(request.claims, request.coverage),
                       request.reason)
  {
    CommittedWasApplied(env, st, request);
    AdmittedRequestIsOk(env, st, request);
    var claims := Covered(request.claims, request.coverage);
    assert DistinctCapabilities(claims);
    ApplyClaimsEffect(env.options, AuthorOf(st.epoch, request), StartOf(env, st, request), claims, request.reason);
  }
}
