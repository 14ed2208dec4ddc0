/** What a publication and the directory operations answer: every refusal names a fault the request
    has, and each operation does what it says exactly when it has none. */
module Admission {
  import opened Sequences
  import opened Values
  import opened Evidence
  import opened RegistryState
  import opened EvidenceInvariant
  import opened RegistrySteps
  import opened RegistryInvariant
  import opened Authority

  // ----- what a refusal says of the request -----

  /** What an error says of one claim. */
  ghost predicate ClaimFault(env: Environment, grant: Grant, claim: Claim, error: Error) {
    match error
    case InvalidArgument => claim.capability == 0
    case AuthorityScopeViolation => env.namespaceOf(claim.capability) !in grant.namespaces
    case UnknownCapability => !Described(env, claim.capability)
    case ProvenanceNotAuthorized =>
      claim.provenance < grant.strongest || !Supports(claim.sourceClass, claim.provenance)
    case DurablePublicationNotAuthorized =>
      claim.durability.Durable? && (!grant.mayPublishDurable || claim.provenance <= 1)
    case ValueTypeMismatch => claim.value == Absent && (claim.state == Supported || claim.state == Unsupported)
    case ValueContradiction => claim.value != Absent && claim.state == Unknown
    case ValueRejected => claim.value != Absent && !FitsSchema(env, claim)
    case _ => false
  }

  ghost predicate EditFault(env: Environment, grant: Grant, edit: Edit, error: Error) {
    ClaimFault(env, grant, ClaimOf(edit), error)
  }

  ghost predicate ListFault(env: Environment, grant: Grant, request: Request, error: Error) {
    || (exists claim :: claim in request.claims && ClaimFault(env, grant, claim, error))
    || (exists edit :: edit in request.edits && EditFault(env, grant, edit, error))
    || (error.DuplicateClaim? && !ClaimsDiffer(request.claims))
  }

  /** What an error says of the shape of a request. */
  predicate ShapeFault(request: Request, error: Error) {
    match error
    case InvalidArgument =>
      || 0 in {request.publication, request.attempt, request.entity, request.entityGeneration, request.publisher,
               request.boot, request.scope, request.source}
      || (request.mode.Incremental? && request.claims != [])
      || (!request.mode.Incremental? && request.edits != [])
    case EmptyCollection => request.claims == [] && request.edits == []
    case TooManyItems => |request.claims| > 4096 || |request.edits| > 4096
    case _ => false
  }

  /** What an error says of the instance that publishes. */
  predicate InstanceFault(st: State, request: Request, error: Error) {
    var key := PublisherKey(request.publisher, request.boot);
    match error
    case CoordinatorEpochStale =>
      request.epoch == 0 || request.epoch < st.epoch || (key in st.publishers && st.publishers[key].epoch != st.epoch)
    case CoordinatorEpochUnknown => request.epoch > st.epoch
    case WorkerBootFenced => request.boot in st.fencedBoots
    case UnauthorizedPublisher => key !in st.publishers
    case WorkerBootStale => key in st.publishers && !st.publishers[key].active
    case AuthorityScopeViolation => key in st.publishers && st.publishers[key].scope != request.scope
    case _ => false
  }

  /** What an error says of the grant and the request as a whole. */
  predicate GrantFault(env: Environment, st: State, request: Request, error: Error) {
    match error
    case UnknownAuthorityScope => request.scope !in st.authorities
    case PublicationModeNotAuthorized =>
      request.scope in st.authorities && request.mode !in st.authorities[request.scope].modes
    case AuthorityScopeViolation =>
      request.scope in st.authorities && env.kindOf(request.entity) !in st.authorities[request.scope].entityKinds
    case ClaimCountExceeded =>
      request.scope in st.authorities && |request.claims| > st.authorities[request.scope].maxClaims
    case _ => false
  }

  ghost predicate RequestFault(env: Environment, st: State, request: Request, error: Error) {
    || ShapeFault(request, error) || InstanceFault(st, request, error) || GrantFault(env, st, request, error)
    || (request.scope in st.authorities && ListFault(env, st.authorities[request.scope], request, error))
  }

  lemma RefusedProvenance(env: Environment, grant: Grant, claim: Claim)
    requires CheckProvenance(grant, claim).Some?
    ensures ClaimFault(env, grant, claim, CheckProvenance(grant, claim).value)
  {
  }

  lemma RefusedShape(env: Environment, grant: Grant, claim: Claim)
    requires env.Valid() && FindDescriptor(env.descriptors, claim.capability).Some?
    requires CheckClaimShape(FindDescriptor(env.descriptors, claim.capability).value, claim).Some?
    ensures ClaimFault(env, grant, claim,
                       CheckClaimShape(FindDescriptor(env.descriptors, claim.capability).value, claim).value)
  {
    SchemaExactly(env, claim);
  }

  lemma RefusedClaim(env: Environment, grant: Grant, claim: Claim, seen: set<Id>)
    requires env.Valid() && CheckClaim(env, grant, claim, seen).Some?
    ensures var error := CheckClaim(env, grant, claim, seen).value;
            ClaimFault(env, grant, claim, error) || (error.DuplicateClaim? && claim.capability in seen)
  {
    hide CheckProvenance, CheckClaimShape;
    SchemaExactly(env, claim);
    var found := FindDescriptor(env.descriptors, claim.capability);
    if CheckProvenance(grant, claim).Some? {
      RefusedProvenance(env, grant, claim);
    } else if found.Some? && CheckClaimShape(found.value, claim).Some? {
      RefusedShape(env, grant, claim);
    }
  }

  lemma {:induction false} RefusedClaims(env: Environment, grant: Grant, claims: seq<Claim>, seen: set<Id>)
    requires env.Valid() && CheckClaims(env, grant, claims, seen).Some?
    ensures var error := CheckClaims(env, grant, claims, seen).value;
            || (exists claim :: claim in claims && ClaimFault(env, grant, claim, error))
            || (error.DuplicateClaim? && !(ClaimsDiffer(claims) && forall claim :: claim in claims ==>
                                             claim.capability !in seen))
    decreases |claims|
  {
    hide CheckClaim, ClaimFault;
    var error := CheckClaims(env, grant, claims, seen).value;
    assert claims == [claims[0]] + claims[1..];
    if CheckClaim(env, grant, claims[0], seen).Some? {
      RefusedClaim(env, grant, claims[0], seen);
    } else {
      RefusedClaims(env, grant, claims[1..], seen + {claims[0].capability});
      if ClaimsDiffer(claims) {
        assert ClaimsDiffer(claims[1..]);
        forall claim | claim in claims[1..] ensures claim.capability != claims[0].capability {
          var i :| 0 <= i < |claims[1..]| && claims[1..][i] == claim;
          assert claims[i + 1] == claim;
        }
      }
    }
  }

  lemma RefusedEdit(env: Environment, grant: Grant, edit: Edit)
    requires env.Valid() && CheckEdit(env, grant, edit).Some?
    ensures EditFault(env, grant, edit, CheckEdit(env, grant, edit).value)
  {
    hide CheckProvenance, CheckClaimShape;
    assert !OnlyRetracts(edit) ==> EditClaim(edit) == ClaimOf(edit);
    SchemaExactly(env, ClaimOf(edit));
    var found := FindDescriptor(env.descriptors, edit.capability);
    if CheckProvenance(grant, ClaimOf(edit)).Some? {
      RefusedProvenance(env, grant, ClaimOf(edit));
    }
    if found.Some? && CheckClaimShape(found.value, ClaimOf(edit)).Some? {
      RefusedShape(env, grant, ClaimOf(edit));
    }
  }

  lemma {:induction false} RefusedEdits(env: Environment, grant: Grant, edits: seq<Edit>)
    requires env.Valid() && CheckEdits(env, grant, edits).Some?
    ensures exists edit :: edit in edits && EditFault(env, grant, edit, CheckEdits(env, grant, edits).value)
    decreases |edits|
  {
    hide CheckEdit, EditFault;
    if CheckEdit(env, grant, edits[0]).Some? {
      RefusedEdit(env, grant, edits[0]);
    } else {
      RefusedEdits(env, grant, edits[1..]);
    }
  }

  /** Every refusal of a publication names a fault that the request has. */
  lemma RefusalNamesFault(env: Environment, st: State, request: Request)
    requires env.Valid() && Admit(env, st, request).Some?
    ensures RequestFault(env, st, request, Admit(env, st, request).value)
  {
    hide CheckClaims, CheckEdits, ClaimFault, EditFault;
    if request.scope in st.authorities {
      var grant := st.authorities[request.scope];
      if CheckClaims(env, grant, request.claims, {}).Some? {
        RefusedClaims(env, grant, request.claims, {});
      }
      if CheckEdits(env, grant, request.edits).Some? {
        RefusedEdits(env, grant, request.edits);
      }
    }
  }

  // ----- the verdict on an admitted publication -----

  /** The contents two requests are told apart by: everything but the attempt, the publication, the
      publisher, its boot, the epoch and the expected generation. */
  predicate SameContent(a: Request, b: Request) {
    && a.mode == b.mode && a.entity == b.entity && a.entityGeneration == b.entityGeneration
    && a.coverage == b.coverage && a.scope == b.scope && a.source == b.source
    && a.sourceGeneration == b.sourceGeneration && a.reason == b.reason && a.claims == b.claims
    && |a.edits| == |b.edits| && forall i :: 0 <= i < |a.edits| ==> SameEdit(a.edits[i], b.edits[i])
  }

  /** Edits are told apart without the versions and the reason of their claims. */
  predicate SameEdit(a: Edit, b: Edit) {
    && a.operation == b.operation && a.capability == b.capability
    && a.claim.state == b.claim.state && a.claim.value == b.claim.value
    && a.claim.provenance == b.claim.provenance && a.claim.sourceClass == b.claim.sourceClass
    && a.claim.durability == b.claim.durability && a.claim.coverage == b.claim.coverage
  }

  /** Two requests under grants that are alike exclusive have one content exactly when they agree on it. */
  lemma ContentExactly(a: Request, b: Request, x: Grant, y: Grant)
    ensures ContentOf(a, x) == ContentOf(b, y) <==> SameContent(a, b) && x.exclusive == y.exclusive
  {
    var c, d := ContentOf(a, x), ContentOf(b, y);
    forall i | 0 <= i < |a.edits| && i < |b.edits|
      ensures SameEdit(a.edits[i], b.edits[i]) <==> c.edits[i] == d.edits[i]
    {
    }
    if SameContent(a, b) {
      assert c.edits == d.edits;
    }
  }

  /** The entity is known at the generation the request names. */
  predicate Known(st: State, request: Request) {
    request.entity in st.entities && st.entities[request.entity].current == request.entityGeneration
  }

  /** The entity the request finds: the known one, or a new one of its generation. */
  function Found(st: State, request: Request): Entity {
    if Known(st, request) then st.entities[request.entity]
    else Entity(request.entity, request.entityGeneration, request.entityGeneration, false, 0, false, 0, map[], map[],
                None)
  }

  function ReplayOf(st: State, request: Request): seq<ReplayRecord> {
    var key := PublisherKey(request.publisher, request.boot);
    if key in st.publishers then st.publishers[key].replay else []
  }

  /** The verdict on an admissible request, first reason first. */
  ghost predicate Verdict(env: Environment, st: State, request: Request, outcome: Outcome)
    requires request.scope in st.authorities
  {
    var grant, found, replay := st.authorities[request.scope], Found(st, request), ReplayOf(st, request);
    var floor := if request.Key() in found.highWater then found.highWater[request.Key()] else 0;
    var reached := if found.hasSet then found.setGeneration else 0;
    if request.entity !in st.entities && |st.entities| >= env.options.maxEntities then
      outcome == Rejected(TooManyItems)
    else if request.entity in st.entities && request.entityGeneration < st.entities[request.entity].current then
      outcome == Rejected(EntityGenerationStale)
    else if replay != [] && replay[|replay| - 1].attempt == request.attempt then
      outcome == if replay[|replay| - 1].content == ContentOf(request, grant) then Replayed
                 else Rejected(DuplicateAttemptConflict)
    else if exists r :: r in replay && r.attempt == request.attempt then outcome == Rejected(StaleReplay)
    else if request.sourceGeneration < floor then outcome == Rejected(SourceGenerationStale)
    else if found.hasSet && request.expected < reached then outcome == Rejected(CapabilitySetGenerationStale)
    else if request.expected > reached then outcome == Rejected(CapabilitySetGenerationMismatch)
    else
      var applied := ApplyRequest(env, st.epoch, grant, found, request);
      if applied.error.Some? then outcome == Rejected(applied.error.value) else outcome.Committed?
  }

  lemma LocatedIsFound(env: Environment, st: State, request: Request)
    requires StateOk(env, st) && Locate(env, st, request).1 == None && request.entityGeneration >= 1
    ensures var located := Locate(env, st, request).0;
            && located.entities[request.entity] == Found(st, request)
            && located.epoch == st.epoch && located.publishers == st.publishers
            && located.authorities == st.authorities
  {
    hide EntriesOk;
    if request.entity in st.entities {
      assert EntityOk(ContextOf(env, st), request.entity, st.entities[request.entity]);
    }
  }

  /** An admissible publication gets its verdict. */
  lemma PublishVerdict(env: Environment, st: State, request: Request)
    requires env.Valid() && StateOk(env, st) && Admissible(env, st, request)
    ensures Verdict(env, st, request, Publish(env, st, request).1)
  {
    hide Admissible, Admit, StateOk, ApplyRequest, Commit, ContentOf, InForce, Grants;
    AdmittedExactly(env, st, request);
    AdmittedRequestIsOk(env, st, request);
    if Locate(env, st, request).1 == None {
      LocatedIsFound(env, st, request);
      VerdictAt(env, Locate(env, st, request).0, request);
    }
  }

  lemma VerdictAt(env: Environment, st: State, request: Request)
    requires request.entity in st.entities && request.Instance() in st.publishers && request.scope in st.authorities
    requires st.entities[request.entity].current == request.entityGeneration
    ensures Verdict(env, st, request, PublishLocated(env, st, request).1)
  {
    hide ApplyRequest, ContentOf, CommitEntity, SemanticChange;
  }

  // ----- the directory -----

  predicate GrantInShape(grant: Grant) {
    && grant.scope != 0
    && 1 <= |grant.entityKinds| <= 16 && 1 <= |grant.namespaces| <= 64 && 0 !in grant.namespaces
    && |grant.modes| >= 1 && 1 <= grant.maxClaims <= 4096 && |grant.allowedPublishers| <= 4096
  }

  predicate GrantDefect(env: Environment, st: State, grant: Grant, error: Error) {
    match error
    case InvalidArgument =>
      grant.scope == 0 || grant.entityKinds == [] || grant.namespaces == [] || grant.modes == {}
      || grant.maxClaims == 0 || grant.maxClaims > 4096
    case TooManyItems =>
      |grant.entityKinds| > 16 || |grant.namespaces| > 64 || |grant.allowedPublishers| > 4096
      || (grant.scope !in st.authorities && |st.authorities| >= env.options.maxAuthorities)
    case UnknownNamespace => 0 in grant.namespaces
    case _ => false
  }

  /** A grant is declared exactly when it is in shape and its scope is known or there is room for it;
      it replaces the grant of its scope and nothing else. */
  lemma DeclaredExactly(env: Environment, st: State, grant: Grant)
    ensures var (after, error) := DeclareAuthority(env, st, grant);
            && (error == None <==>
                  GrantInShape(grant)
                  && (grant.scope in st.authorities || |st.authorities| < env.options.maxAuthorities))
            && (error.Some? ==> GrantDefect(env, st, grant, error.value) && after == st)
            && (error == None ==> after == st.(authorities := st.authorities[grant.scope := grant]))
  {
  }

  predicate RegistrationDefect(env: Environment, st: State, publisher: Id, scope: Id, boot: Id, error: Error) {
    match error
    case InvalidArgument => publisher == 0 || scope == 0 || boot == 0
    case WorkerBootFenced => boot in st.fencedBoots
    case UnknownAuthorityScope => scope !in st.authorities
    case UnauthorizedPublisher => scope in st.authorities && !MayRegister(st.authorities[scope], publisher)
    case TooManyItems =>
      PublisherKey(publisher, boot) !in st.publishers && |st.publishers| >= env.options.maxPublishers
    case _ => false
  }

  /** An instance is registered exactly when its identifiers are set, its boot is not fenced, its scope
      admits the publisher and there is room; it starts active in the current epoch, remembering nothing. */
  lemma RegisteredExactly(env: Environment, st: State, publisher: Id, scope: Id, boot: Id)
    ensures var (after, error) := RegisterPublisher(env, st, publisher, scope, boot);
            var key := PublisherKey(publisher, boot);
            && (error == None <==>
                  && publisher != 0 && scope != 0 && boot != 0 && boot !in st.fencedBoots
                  && scope in st.authorities && MayRegister(st.authorities[scope], publisher)
                  && (key in st.publishers || |st.publishers| < env.options.maxPublishers))
            && (error.Some? ==> RegistrationDefect(env, st, publisher, scope, boot, error.value) && after == st)
            && (error == None ==>
                  after == st.(publishers := st.publishers[key := Runtime(scope, st.epoch, true, [])]))
  {
  }

  /** A retired instance stays registered, with its scope and what it remembers, but may not publish. */
  lemma RetiredIsShutOut(env: Environment, st: State, publisher: Id, boot: Id, request: Request)
    requires env.Valid() && PublisherKey(publisher, boot) in st.publishers
    requires request.publisher == publisher && request.boot == boot
    ensures var after := RetirePublisher(st, publisher, boot).0;
            && after.publishers.Keys == st.publishers.Keys
            && after.publishers[PublisherKey(publisher, boot)] ==
               st.publishers[PublisherKey(publisher, boot)].(active := false)
            && (forall k :: k in st.publishers && k != PublisherKey(publisher, boot) ==>
                  after.publishers[k] == st.publishers[k])
            && after == st.(publishers := after.publishers)
            && Publish(env, after, request).1.Rejected? && Publish(env, after, request).0 == after
  {
    hide Admit, Locate, PublishLocated, Grants;
    CommittedWithinGrant(env, RetirePublisher(st, publisher, boot).0, request);
  }

  lemma UnknownIsNotRetired(st: State, publisher: Id, boot: Id)
    ensures PublisherKey(publisher, boot) !in st.publishers <==> RetirePublisher(st, publisher, boot).1.Some?
    ensures PublisherKey(publisher, boot) !in st.publishers ==>
              RetirePublisher(st, publisher, boot) == (st, Some(UnknownPublisher))
  {
  }

  /** Observing a generation: an unknown entity is created if there is room, a newer generation empties
      the entity, the current one changes nothing, and an older one is refused. */
  lemma ObservedExactly(env: Environment, st: State, id: Id, generation: nat)
    requires StateOk(env, st)
    ensures var (after, error) := ObserveGeneration(env, st, id, generation);
            var created := Entity(id, generation, generation, false, 0, false, 0, map[], map[], None);
            var put := st.(entities := st.entities[id := created]);
            if id == 0 || generation == 0 then error == Some(InvalidArgument) && after == st
            else if id !in st.entities && |st.entities| >= env.options.maxEntities then
              error == Some(TooManyItems) && after == st
            else if id !in st.entities then error == None && after == put
            else if generation < st.entities[id].current then error == Some(EntityGenerationStale) && after == st
            else if generation == st.entities[id].current then error == None && after == st
            else error == None && after == put.(registryGeneration := st.registryGeneration + 1)
  {
    hide EntriesOk;
    if id in st.entities {
      assert EntityOk(ContextOf(env, st), id, st.entities[id]);
    }
  }

  predicate InvalidationDefect(st: State, id: Id, generation: nat, error: Error) {
    match error
    case UnknownEntity => id !in st.entities
    case UnknownEntityGeneration => id in st.entities && (generation == 0 || generation != st.entities[id].current)
    case _ => false
  }

  /** An entity is invalidated exactly when it is known at the generation named. */
  lemma InvalidatedExactly(st: State, id: Id, generation: nat, reason: Id)
    ensures var (after, error) := InvalidateEntity(st, id, generation, reason);
            && (error == None <==> id in st.entities && generation != 0 && generation == st.entities[id].current)
            && (error.Some? ==> InvalidationDefect(st, id, generation, error.value) && after == st)
            && (error == None ==>
                  && after.entities[id].invalidated
                  && after.entities[id].reason ==
                     (if st.entities[id].invalidated then st.entities[id].reason else reason)
                  && (forall e :: e in st.entities && e != id ==> after.entities[e] == st.entities[e]))
  {
    hide MarkEntry, Materialize;
  }
}
