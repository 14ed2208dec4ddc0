/** When a list of claims is accepted, and how far the order of the claims of one publication
    matters. */
module ClaimOrder {
  import opened Sequences
  import opened Evidence
  import opened RegistryState
  import opened RegistrySteps
  import opened RegistryInvariant
  import opened Publications

  // ----- when claims are accepted -----

  function CapabilityOf(claim: Claim): Id { claim.capability }

  ghost function Named(claims: seq<Claim>): set<Id> { KeysOf(CapabilityOf, claims) }

  /** The capabilities the claims would add fit the entity's limit. */
  ghost predicate HasRoom(options: Options, entity: Entity, names: set<Id>) {
    var added := names - entity.capabilities.Keys;
    added == {} || |entity.capabilities| + |added| <= options.maxCapabilities
  }

  ghost predicate NoneCrowded(options: Options, key: SourceKey, entity: Entity, names: set<Id>, reason: Id) {
    forall c :: c in names ==> !Crowded(EntryOf(entity, c).evidence, key, reason, options.maxEvidence)
  }

  /** Claims for distinct capabilities are accepted exactly when the new capabilities fit and no
      claimed capability is crowded by other sources. */
  lemma {:induction false} ClaimsAreAcceptedExactly(options: Options, author: Author, entity: Entity,
                                                    claims: seq<Claim>,
                                                    reason: Id)
    requires DistinctCapabilities(claims)
    ensures ApplyClaims(options, author, entity, claims, reason).error == None <==>
            HasRoom(options, entity, Named(claims)) && NoneCrowded(options, author.key, entity, Named(claims), reason)
    decreases |claims|
  {
    hide ApplyClaim, HasRoom, NoneCrowded, Named, DistinctCapabilities;
    if claims == [] {
      NothingNamed(options, author.key, entity, claims, reason);
    } else {
      NamedStep(claims);
      FirstIsNamedOnce(claims);
      var first := ApplyClaim(options, author, entity, claims[0], reason);
      if first.error == None {
        ClaimsAreAcceptedExactly(options, author, first.entity, claims[1..], reason);
        AcceptedClaimLeavesRest(options, author, entity, claims[0], reason, Named(claims[1..]));
      } else {
        FirstRefusal(options, author, entity, claims[0], reason, Named(claims));
      }
    }
  }

  lemma NothingNamed(options: Options, key: SourceKey, entity: Entity, claims: seq<Claim>, reason: Id)
    requires claims == []
    ensures HasRoom(options, entity, Named(claims)) && NoneCrowded(options, key, entity, Named(claims), reason)
  {
  }

  lemma FirstIsNamedOnce(claims: seq<Claim>)
    requires claims != [] && DistinctCapabilities(claims)
    ensures DistinctCapabilities(claims[1..]) && claims[0].capability !in Named(claims[1..])
  {
  }

  lemma NamedStep(claims: seq<Claim>)
    requires claims != []
    ensures Named(claims) == {claims[0].capability} + Named(claims[1..])
  {
    assert claims == [claims[0]] + claims[1..];
    assert claims[0] in claims;
    forall c | c in Named(claims) ensures c == claims[0].capability || c in Named(claims[1..]) {
      var claim :| claim in claims && CapabilityOf(claim) == c;
      assert claim == claims[0] || claim in claims[1..];
    }
  }

  /** What an accepted claim does to the room and the crowding of the others. */
  lemma AcceptedClaimLeavesRest(options: Options, author: Author, entity: Entity, claim: Claim, reason: Id,
                                names: set<Id>)
    requires claim.capability !in names
    requires ApplyClaim(options, author, entity, claim, reason).error == None
    ensures var next := ApplyClaim(options, author, entity, claim, reason).entity;
            var all := {claim.capability} + names;
            && (HasRoom(options, next, names) <==> HasRoom(options, entity, all))
            && (NoneCrowded(options, author.key, next, names, reason) <==>
                NoneCrowded(options, author.key, entity, all, reason))
  {
    hide ApplyClaim, Crowded, HasRoom;
    var c, next := claim.capability, ApplyClaim(options, author, entity, claim, reason).entity;
    AcceptedClaimParts(options, author, entity, claim, reason);
    assert forall k :: k in names ==> EntryOf(next, k) == EntryOf(entity, k);
    RoomLeft(options, entity, next, c, names);
  }

  lemma AcceptedClaimParts(options: Options, author: Author, entity: Entity, claim: Claim, reason: Id)
    requires ApplyClaim(options, author, entity, claim, reason).error == None
    ensures var next := ApplyClaim(options, author, entity, claim, reason).entity;
            && next.capabilities.Keys == entity.capabilities.Keys + {claim.capability}
            && forall k :: k != claim.capability ==> EntryOf(next, k) == EntryOf(entity, k)
    ensures !Crowded(EntryOf(entity, claim.capability).evidence, author.key, reason, options.maxEvidence)
    ensures claim.capability in entity.capabilities || |entity.capabilities| < options.maxCapabilities
  {
    hide Crowded, ClaimedEntry, Displaced;
  }

  lemma RoomLeft(options: Options, entity: Entity, next: Entity, c: Id, names: set<Id>)
    requires c !in names && next.capabilities.Keys == entity.capabilities.Keys + {c}
    requires c in entity.capabilities || |entity.capabilities| < options.maxCapabilities
    ensures HasRoom(options, next, names) <==> HasRoom(options, entity, {c} + names)
  {
    OneMoreName(entity.capabilities.Keys, c, names);
    assert |next.capabilities| == |next.capabilities.Keys| && |entity.capabilities| == |entity.capabilities.Keys|;
  }

  lemma OneMoreName(keys: set<Id>, c: Id, names: set<Id>)
    requires c !in names
    ensures c in keys ==> keys + {c} == keys && ({c} + names) - keys == names - keys
    ensures c !in keys ==> |keys + {c}| == |keys| + 1 && |({c} + names) - keys| == |names - (keys + {c})| + 1
  {
    if c !in keys {
      assert ({c} + names) - keys == {c} + (names - (keys + {c}));
    }
  }

  lemma FirstRefusal(options: Options, author: Author, entity: Entity, claim: Claim, reason: Id, names: set<Id>)
    requires claim.capability in names && ApplyClaim(options, author, entity, claim, reason).error.Some?
    ensures !(HasRoom(options, entity, names) && NoneCrowded(options, author.key, entity, names, reason))
  {
    hide Crowded, ClaimedEntry, Displaced;
    var added := names - entity.capabilities.Keys;
    if claim.capability !in entity.capabilities && |entity.capabilities| >= options.maxCapabilities {
      assert claim.capability in added && |added| >= 1;
    }
  }

  lemma DistinctCapabilitiesExactly(claims: seq<Claim>)
    ensures DistinctCapabilities(claims) <==> |Named(claims)| == |claims|
  {
    KeysDifferExactly(CapabilityOf, claims);
    assert DistinctCapabilities(claims) <==> KeysDiffer(CapabilityOf, claims);
  }

  lemma SameClaimsSameResult(options: Options, author: Author, entity: Entity, a: seq<Claim>, b: seq<Claim>, reason: Id)
    requires DistinctCapabilities(a) && DistinctCapabilities(b) && forall claim :: claim in a <==> claim in b
    ensures var x, y := ApplyClaims(options, author, entity, a, reason),
            ApplyClaims(options, author, entity, b, reason);
            (x.error == None <==> y.error == None) && (x.error == None ==> x == y)
  {
    hide ApplyClaims;
    assert Named(a) == Named(b);
    ClaimsAreAcceptedExactly(options, author, entity, a, reason);
    ClaimsAreAcceptedExactly(options, author, entity, b, reason);
    var x, y := ApplyClaims(options, author, entity, a, reason), ApplyClaims(options, author, entity, b, reason);
    if x.error == None {
      ApplyClaimsEffect(options, author, entity, a, reason);
      ApplyClaimsEffect(options, author, entity, b, reason);
      ApplyClaimsKeepsHeader(options, author, entity, a, reason);
      ApplyClaimsKeepsHeader(options, author, entity, b, reason);
      ClaimsDetermineCapabilities(options.maxEvidence, author, entity, x.entity, y.entity, a, b, reason);
    }
  }

  /** The order of a list of claims changes neither whether it is accepted nor what it leaves. */
  lemma ClaimOrderDoesNotMatter(options: Options, author: Author, entity: Entity, a: seq<Claim>, b: seq<Claim>,
                                reason: Id)
    requires DistinctCapabilities(a) && multiset(a) == multiset(b)
    ensures var x, y := ApplyClaims(options, author, entity, a, reason),
            ApplyClaims(options, author, entity, b, reason);
            (x.error == None <==> y.error == None) && (x.error == None ==> x == y)
  {
    hide ApplyClaims;
    PermutedMembers(a, b);
    assert Named(a) == Named(b);
    DistinctCapabilitiesExactly(a);
    DistinctCapabilitiesExactly(b);
    SameClaimsSameResult(options, author, entity, a, b, reason);
  }

  // ----- whole publications -----

  /** The same publication with its claims in another order. */
  ghost predicate Reordered(p: Request, q: Request) {
    q == p.(claims := q.claims) && multiset(p.claims) == multiset(q.claims)
  }

  lemma {:induction false} CheckedExactly(env: Environment, grant: Grant, claims: seq<Claim>, seen: set<Id>)
    ensures CheckClaims(env, grant, claims, seen) == None <==>
            && (forall claim :: claim in claims ==> CheckClaim(env, grant, claim, {}) == None)
            && DistinctCapabilities(claims)
            && (forall claim :: claim in claims ==> claim.capability !in seen)
    decreases |claims|
  {
    hide CheckClaim, DistinctCapabilities;
    if claims == [] {
      assert DistinctCapabilities(claims) by {
        DistinctStep(claims);
      }
    } else {
      assert claims == [claims[0]] + claims[1..];
      CheckedExactly(env, grant, claims[1..], seen + {claims[0].capability});
      SeenOnly(env, grant, claims[0], seen);
      DistinctStep(claims);
    }
  }

  lemma SeenOnly(env: Environment, grant: Grant, claim: Claim, seen: set<Id>)
    ensures CheckClaim(env, grant, claim, seen) == None <==>
            CheckClaim(env, grant, claim, {}) == None && claim.capability !in seen
  {
    hide CheckClaimShape, CheckProvenance, FindDescriptor;
  }

  lemma DistinctStep(claims: seq<Claim>)
    ensures DistinctCapabilities(claims) <==>
            claims == [] || (DistinctCapabilities(claims[1..])
                             && forall claim :: claim in claims[1..] ==> claim.capability != claims[0].capability)
  {
  }

  lemma AdmissionIgnoresOrder(env: Environment, st: State, p: Request, q: Request)
    requires Reordered(p, q)
    ensures Admit(env, st, p) == None <==> Admit(env, st, q) == None
  {
    hide CheckClaims, CheckEdits, CheckInstance;
    PermutedMembers(p.claims, q.claims);
    assert CheckInstance(st, p) == CheckInstance(st, q) by {
      SameInstanceCheck(st, p, q);
    }
    assert p.claims == [] <==> q.claims == [];
    if p.scope in st.authorities {
      var grant := st.authorities[p.scope];
      CheckedExactly(env, grant, p.claims, {});
      CheckedExactly(env, grant, q.claims, {});
      assert Named(p.claims) == Named(q.claims);
      DistinctCapabilitiesExactly(p.claims);
      DistinctCapabilitiesExactly(q.claims);
    }
  }

  lemma SameInstanceCheck(st: State, p: Request, q: Request)
    requires Reordered(p, q)
    ensures CheckInstance(st, p) == CheckInstance(st, q)
  {
  }

  lemma {:induction false} AbsencesIgnoreOrder(env: Environment, grant: Grant, a: seq<Claim>, b: seq<Claim>,
                                              descriptors: seq<Descriptor>)
    requires forall claim :: claim in a <==> claim in b
    ensures AbsentCapabilities(env, grant, a, descriptors) == AbsentCapabilities(env, grant, b, descriptors)
  {
    if descriptors != [] {
      AbsencesIgnoreOrder(env, grant, a, b, descriptors[..|descriptors| - 1]);
    }
  }

  /** The one way in which order shows: an exclusive full enumeration with something to report absent
      takes the provenance and the source class of the absences from the claim that comes first. */
  predicate FrontMatters(env: Environment, grant: Grant, p: Request, q: Request) {
    && p.mode.FullSnapshot? && grant.exclusive && p.coverage.FullEnumeration?
    && AbsentCapabilities(env, grant, p.claims, env.descriptors) != []
    && p.claims != [] && q.claims != []
    && (p.claims[0].provenance != q.claims[0].provenance || p.claims[0].sourceClass != q.claims[0].sourceClass)
  }

  lemma AbsenceClaimsDifferExactly(env: Environment, grant: Grant, p: Request, q: Request)
    requires Reordered(p, q) && p.mode.FullSnapshot?
    ensures AbsenceClaims(env, grant, p) == AbsenceClaims(env, grant, q) <==> !FrontMatters(env, grant, p, q)
    ensures Named(AbsenceClaims(env, grant, p)) == Named(AbsenceClaims(env, grant, q))
  {
    PermutedMembers(p.claims, q.claims);
    AbsencesIgnoreOrder(env, grant, p.claims, q.claims, env.descriptors);
    var a, b := AbsenceClaims(env, grant, p), AbsenceClaims(env, grant, q);
    assert |a| == |b| && forall i :: 0 <= i < |a| ==> a[i].capability == b[i].capability;
    NamedPointwise(a, b);
    if a != [] {
      assert a[0] == AbsenceClaim(grant, p, a[0].capability) && b[0] == AbsenceClaim(grant, q, a[0].capability);
    }
  }

  lemma NamedPointwise(a: seq<Claim>, b: seq<Claim>)
    requires |a| == |b| && forall i :: 0 <= i < |a| ==> a[i].capability == b[i].capability
    ensures Named(a) == Named(b)
  {
    forall c | c in Named(a) ensures c in Named(b) {
      var i :| 0 <= i < |a| && a[i].capability == c;
      assert b[i] in b && CapabilityOf(b[i]) == c;
    }
    forall c | c in Named(b) ensures c in Named(a) {
      var i :| 0 <= i < |b| && b[i].capability == c;
      assert a[i] in a && CapabilityOf(a[i]) == c;
    }
  }

  lemma CoveredMembers(a: seq<Claim>, b: seq<Claim>, coverage: Coverage)
    requires forall claim :: claim in a <==> claim in b
    ensures forall claim :: claim in Covered(a, coverage) ==> claim in Covered(b, coverage)
  {
    forall claim | claim in Covered(a, coverage) ensures claim in Covered(b, coverage) {
      var i :| 0 <= i < |a| && Covered(a, coverage)[i] == claim;
      assert a[i] in b;
      var j :| 0 <= j < |b| && b[j] == a[i];
      assert Covered(b, coverage)[j] == claim;
    }
  }

  ghost predicate SameApplication(x: Applied, y: Applied) {
    (x.error == None <==> y.error == None) && (x.error == None ==> x == y)
  }

  lemma ObservationIgnoresOrder(env: Environment, epoch: nat, grant: Grant, entity: Entity, p: Request, q: Request)
    requires Reordered(p, q) && DistinctCapabilities(p.claims) && !p.mode.FullSnapshot?
    ensures SameApplication(ApplyRequest(env, epoch, grant, entity, p), ApplyRequest(env, epoch, grant, entity, q))
  {
    hide ApplyClaims, ApplyEdits;
    PermutedMembers(p.claims, q.claims);
    CoveredMembers(p.claims, q.claims, p.coverage);
    CoveredMembers(q.claims, p.claims, p.coverage);
    assert Named(p.claims) == Named(q.claims);
    DistinctCapabilitiesExactly(p.claims);
    DistinctCapabilitiesExactly(q.claims);
    SameClaimsSameResult(env.options, AuthorOf(epoch, p), entity, Covered(p.claims, p.coverage),
                         Covered(q.claims, q.coverage), p.reason);
  }

  /** A snapshot is one list of claims over the cleared entity. */
  lemma SnapshotIsOneList(env: Environment, epoch: nat, grant: Grant, entity: Entity, request: Request)
    requires request.mode.FullSnapshot?
    ensures ApplyRequest(env, epoch, grant, entity, request) ==
            ApplyClaims(env.options, AuthorOf(epoch, request), ClearForSnapshot(entity, grant, request),
                        SnapshotClaims(env, grant, request), request.reason)
  {
    hide ApplyClaims, ClearForSnapshot;
    ApplyClaimsConcat(env.options, AuthorOf(epoch, request), ClearForSnapshot(entity, grant, request),
                      Covered(request.claims, request.coverage), AbsenceClaims(env, grant, request), request.reason);
  }

  lemma NamedConcat(a: seq<Claim>, b: seq<Claim>)
    ensures Named(a + b) == Named(a) + Named(b)
  {
  }

  lemma SnapshotNamesIgnoreOrder(env: Environment, grant: Grant, p: Request, q: Request)
    requires env.Valid() && Reordered(p, q) && DistinctCapabilities(p.claims) && p.mode.FullSnapshot?
    ensures Named(SnapshotClaims(env, grant, p)) == Named(SnapshotClaims(env, grant, q))
    ensures DistinctCapabilities(SnapshotClaims(env, grant, p)) && DistinctCapabilities(SnapshotClaims(env, grant, q))
    ensures !FrontMatters(env, grant, p, q) ==>
              forall claim :: claim in SnapshotClaims(env, grant, p) <==> claim in SnapshotClaims(env, grant, q)
  {
    hide AbsenceClaims, DistinctCapabilities, FrontMatters, Covered;
    PermutedMembers(p.claims, q.claims);
    assert Named(p.claims) == Named(q.claims);
    DistinctCapabilitiesExactly(p.claims);
    DistinctCapabilitiesExactly(q.claims);
    SnapshotClaimsAreDistinct(env, grant, p);
    SnapshotClaimsAreDistinct(env, grant, q);
    CoveredMembers(p.claims, q.claims, p.coverage);
    CoveredMembers(q.claims, p.claims, p.coverage);
    assert Named(Covered(p.claims, p.coverage)) == Named(Covered(q.claims, q.coverage));
    AbsenceClaimsDifferExactly(env, grant, p, q);
    NamedConcat(Covered(p.claims, p.coverage), AbsenceClaims(env, grant, p));
    NamedConcat(Covered(q.claims, q.coverage), AbsenceClaims(env, grant, q));
  }

  lemma ClearingIgnoresClaims(entity: Entity, grant: Grant, p: Request, q: Request)
    requires Reordered(p, q)
    ensures ClearForSnapshot(entity, grant, p) == ClearForSnapshot(entity, grant, q)
  {
    hide MarkAll;
  }

  lemma SnapshotIgnoresOrder(env: Environment, epoch: nat, grant: Grant, entity: Entity, p: Request, q: Request)
    requires env.Valid() && Reordered(p, q) && DistinctCapabilities(p.claims) && p.mode.FullSnapshot?
    ensures var x, y := ApplyRequest(env, epoch, grant, entity, p), ApplyRequest(env, epoch, grant, entity, q);
            && (x.error == None <==> y.error == None)
            && (!FrontMatters(env, grant, p, q) ==> SameApplication(x, y))
            && (x.error == None && FrontMatters(env, grant, p, q) ==> x.entity.capabilities != y.entity.capabilities)
  {
    hide ApplyClaims, ApplyRequest, SnapshotClaims, ClearForSnapshot, FrontMatters, DistinctCapabilities, Crowded;
    var a, b := SnapshotClaims(env, grant, p), SnapshotClaims(env, grant, q);
    var author, cleared := AuthorOf(epoch, p), ClearForSnapshot(entity, grant, p);
    ClearingIgnoresClaims(entity, grant, p, q);
    SnapshotIsOneList(env, epoch, grant, entity, p);
    SnapshotIsOneList(env, epoch, grant, entity, q);
    SnapshotNamesIgnoreOrder(env, grant, p, q);
    ClaimsAreAcceptedExactly(env.options, author, cleared, a, p.reason);
    ClaimsAreAcceptedExactly(env.options, author, cleared, b, p.reason);
    if !FrontMatters(env, grant, p, q) {
      SameClaimsSameResult(env.options, author, cleared, a, b, p.reason);
    } else if ApplyClaims(env.options, author, cleared, a, p.reason).error == None {
      ApplyClaimsEffect(env.options, author, cleared, a, p.reason);
      ApplyClaimsEffect(env.options, author, cleared, b, p.reason);
      var i := SomeAbsenceDiffers(env, grant, p, q);
      DifferentClaimsLeaveDifferentEntries(env.options.maxEvidence, author, cleared,
        ApplyClaims(env.options, author, cleared, a, p.reason).entity,
        ApplyClaims(env.options, author, cleared, b, p.reason).entity,
        AbsenceClaims(env, grant, p)[i], AbsenceClaims(env, grant, q)[i], p.reason);
    }
  }

  lemma SomeAbsenceDiffers(env: Environment, grant: Grant, p: Request, q: Request) returns (i: nat)
    requires Reordered(p, q) && p.mode.FullSnapshot? && FrontMatters(env, grant, p, q)
    ensures var a, b := AbsenceClaims(env, grant, p), AbsenceClaims(env, grant, q);
            && i < |a| == |b| && a[i].capability == b[i].capability && a[i] != b[i]
            && a[i] in SnapshotClaims(env, grant, p) && b[i] in SnapshotClaims(env, grant, q)
  {
    PermutedMembers(p.claims, q.claims);
    AbsencesIgnoreOrder(env, grant, p.claims, q.claims, env.descriptors);
    i := 0;
    var a, b := AbsenceClaims(env, grant, p), AbsenceClaims(env, grant, q);
    assert a[0] in a && b[0] in b;
  }

  lemma DifferentClaimsLeaveDifferentEntries(limit: nat, author: Author, before: Entity, x: Entity, y: Entity, a: Claim,
                                             b: Claim, reason: Id)
    requires a.capability == b.capability && a != b
    requires ClaimTook(limit, author, before, x, a, reason) && ClaimTook(limit, author, before, y, b, reason)
    ensures x.capabilities != y.capabilities
  {
    hide Displaced, Resolve, HighestGeneration;
    var c := a.capability;
    var e, f := x.capabilities[c].evidence, y.capabilities[c].evidence;
    assert e[|e| - 1].claim == a && f[|f| - 1].claim == b;
  }

  /** The order of the claims of a publication never changes whether it commits. It changes what a
      committed one leaves exactly when the claim in front lends its provenance and source class to
      absences that are reported. */
  lemma PublicationOrder(env: Environment, st: State, p: Request, q: Request)
    requires env.Valid() && Reordered(p, q)
    ensures Publish(env, st, p).1.Committed? <==> Publish(env, st, q).1.Committed?
    ensures Publish(env, st, p).1.Committed? ==> p.scope in st.authorities
    ensures Publish(env, st, p).1.Committed? ==>
              (Publish(env, st, p).0.entities == Publish(env, st, q).0.entities <==>
               !FrontMatters(env, st.authorities[p.scope], p, q))
    ensures Publish(env, st, p).1.Committed? && !FrontMatters(env, st.authorities[p.scope], p, q) ==>
              Publish(env, st, p).1 == Publish(env, st, q).1
  {
    hide Admit, Locate, PublishLocated, FrontMatters;
    AdmissionIgnoresOrder(env, st, p, q);
    if Admit(env, st, p) == None {
      AdmittedRequestIsOk(env, st, p);
      LocatingIgnoresClaims(env, st, p, q);
      if Locate(env, st, p).1 == None {
        LocatedOrder(env, Locate(env, st, p).0, p, q);
      }
    }
  }

  lemma LocatingIgnoresClaims(env: Environment, st: State, p: Request, q: Request)
    requires Reordered(p, q)
    ensures Locate(env, st, p) == Locate(env, st, q)
  {
    hide RetireGeneration;
  }

  lemma LocatedOrder(env: Environment, st: State, p: Request, q: Request)
    requires env.Valid() && Reordered(p, q) && DistinctCapabilities(p.claims)
    requires p.entity in st.entities && p.Instance() in st.publishers && p.scope in st.authorities
    ensures var x, y := PublishLocated(env, st, p), PublishLocated(env, st, q);
            && (x.1.Committed? <==> y.1.Committed?)
            && (x.1.Committed? ==>
                  && (x.0.entities == y.0.entities <==> !FrontMatters(env, st.authorities[p.scope], p, q))
                  && (!FrontMatters(env, st.authorities[p.scope], p, q) ==> x.1 == y.1))
  {
    hide ApplyRequest, ContentOf, ClassifyReplay, CheckGenerations, Commit, FrontMatters;
    var grant, entity := st.authorities[p.scope], st.entities[p.entity];
    var x, y := ApplyRequest(env, st.epoch, grant, entity, p), ApplyRequest(env, st.epoch, grant, entity, q);
    RememberingIgnoresContent(st.publishers[p.Instance()].replay, p.attempt, ContentOf(p, grant), ContentOf(q, grant));
    GenerationsIgnoreClaims(entity, p, q);
    if p.mode.FullSnapshot? {
      SnapshotIgnoresOrder(env, st.epoch, grant, entity, p, q);
    } else {
      ObservationIgnoresOrder(env, st.epoch, grant, entity, p, q);
      OnlySnapshotsHaveFronts(env, grant, p, q);
    }
    CommitsOf(env, st, entity, x.entity, y.entity, p, q);
  }

  lemma OnlySnapshotsHaveFronts(env: Environment, grant: Grant, p: Request, q: Request)
    requires !p.mode.FullSnapshot?
    ensures !FrontMatters(env, grant, p, q)
  {
  }

  lemma RememberingIgnoresContent(replay: seq<ReplayRecord>, attempt: Id, a: Content, b: Content)
    ensures ClassifyReplay(replay, attempt, a) == None <==> ClassifyReplay(replay, attempt, b) == None
    ensures ClassifyReplay(replay, attempt, a).Some? ==> !ClassifyReplay(replay, attempt, a).value.Committed?
    ensures ClassifyReplay(replay, attempt, b).Some? ==> !ClassifyReplay(replay, attempt, b).value.Committed?
  {
  }

  lemma GenerationsIgnoreClaims(entity: Entity, p: Request, q: Request)
    requires Reordered(p, q)
    ensures CheckGenerations(entity, p) == CheckGenerations(entity, q)
  {
  }

  lemma CommitsOf(env: Environment, st: State, before: Entity, x: Entity, y: Entity, p: Request, q: Request)
    requires Reordered(p, q) && p.Instance() in st.publishers && p.scope in st.authorities
    ensures var a, b := Commit(env, st, before, x, p), Commit(env, st, before, y, q);
            && a.1.Committed? && b.1.Committed?
            && (x == y ==> a.0.entities == b.0.entities && a.1 == b.1)
            && (x.capabilities != y.capabilities ==> a.0.entities != b.0.entities)
  {
    hide SemanticChange, ContentOf, SortedResolutions;
    var a, b := Commit(env, st, before, x, p).0.entities, Commit(env, st, before, y, q).0.entities;
    assert a[p.entity].capabilities == x.capabilities && b[p.entity].capabilities == y.capabilities;
  }
}
