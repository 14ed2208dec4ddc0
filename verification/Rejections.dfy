/** What a rejected publication leaves behind. Its status promises an unchanged registry; that
    holds exactly when the request is refused before anything was created, retired or applied. */
module Rejections {
  import opened Sequences
  import opened Evidence
  import opened RegistryState
  import opened EvidenceInvariant
  import opened RegistrySteps
  import opened RegistryInvariant
  import opened Publications

  // ----- generations of capability entries only rise -----

  ghost predicate Rises(a: Entity, b: Entity) {
    forall c :: c in a.capabilities ==>
      c in b.capabilities && a.capabilities[c].generation <= b.capabilities[c].generation
  }

  /** Some capability is new or has a higher generation. */
  ghost predicate Grew(a: Entity, b: Entity) {
    exists c :: c in b.capabilities
      && (c in a.capabilities ==> a.capabilities[c].generation < b.capabilities[c].generation)
  }

  lemma GrewStays(a: Entity, b: Entity, c: Entity)
    requires Grew(a, b) && Rises(b, c)
    ensures Grew(a, c) && c != a
  {
  }

  lemma RisesComposes(a: Entity, b: Entity, c: Entity)
    requires Rises(a, b) && Rises(b, c)
    ensures Rises(a, c)
  {
  }

  lemma ClaimRises(options: Options, author: Author, entity: Entity, claim: Claim, reason: Id)
    ensures Rises(entity, ApplyClaim(options, author, entity, claim, reason).entity)
    ensures ApplyClaim(options, author, entity, claim, reason).error == None ==>
              Grew(entity, ApplyClaim(options, author, entity, claim, reason).entity)
  {
    hide Displaced, Crowded, Resolve, RecordFor;
    var after := ApplyClaim(options, author, entity, claim, reason).entity;
    assert claim.capability in after.capabilities || after == entity;
  }

  lemma {:induction false} ClaimsRise(options: Options, author: Author, entity: Entity, claims: seq<Claim>, reason: Id)
    ensures Rises(entity, ApplyClaims(options, author, entity, claims, reason).entity)
    decreases |claims|
  {
    hide ApplyClaim;
    if claims != [] {
      var first := ApplyClaim(options, author, entity, claims[0], reason);
      ClaimRises(options, author, entity, claims[0], reason);
      if first.error == None {
        ClaimsRise(options, author, first.entity, claims[1..], reason);
        RisesComposes(entity, first.entity, ApplyClaims(options, author, first.entity, claims[1..], reason).entity);
      }
    }
  }

  ghost predicate Quiet(entity: Entity, selector: Selector) {
    forall c, r :: c in entity.capabilities && r in entity.capabilities[c].evidence ==> !Selects(selector, r)
  }

  /** Marking an entity changes it exactly when some record is selected. */
  lemma MarkingChanges(entity: Entity, mark: Mark)
    ensures Rises(entity, MarkAll(entity, mark))
    ensures if Quiet(entity, mark.selector) then MarkAll(entity, mark) == entity
            else Grew(entity, MarkAll(entity, mark))
  {
  }

  // ----- one claim -----

  /** The guards that refuse a claim: no room for a new capability, or only live records of
      others and no room for one more. */
  ghost predicate NoRoom(options: Options, key: SourceKey, entity: Entity, c: Id) {
    if c !in entity.capabilities then |entity.capabilities| >= options.maxCapabilities
    else !HoldsLive(entity.capabilities[c].evidence, key)
         && |Filter(Live, entity.capabilities[c].evidence)| >= options.maxEvidence
  }

  lemma CrowdedExactly(evidence: seq<Record>, key: SourceKey, reason: Id, limit: nat)
    requires EvidenceOk(limit, evidence)
    ensures Crowded(evidence, key, reason, limit) <==> !HoldsLive(evidence, key) && |Filter(Live, evidence)| >= limit
    ensures Crowded(evidence, key, reason, limit) ==> Displaced(evidence, key, reason, limit) == Trim(evidence, limit)
  {
    hide Trim, Filter;
    var mark := Mark(LiveOf(key), Superseded, reason);
    DisplacedFacts(evidence, key, reason, limit);
    if !HoldsLive(evidence, key) {
      assert !Touches(evidence, mark);
      UntouchedIsUnchanged(evidence, mark);
      TrimKeeps(Live, evidence, limit);
    }
  }

  /** A claim is refused exactly when there is no room for it; the error says for what. */
  lemma ClaimIsRefusedExactly(ctx: Context, options: Options, author: Author, entity: Entity, claim: Claim, reason: Id)
    requires EntriesOk(ctx, entity) && ctx.limit == options.maxEvidence >= 1
    ensures ApplyClaim(options, author, entity, claim, reason).error.Some? <==>
            NoRoom(options, author.key, entity, claim.capability)
    ensures ApplyClaim(options, author, entity, claim, reason).error.Some? ==>
              ApplyClaim(options, author, entity, claim, reason).error.value ==
              if claim.capability in entity.capabilities then EvidenceLimitExceeded else ClaimCountExceeded
  {
    hide Displaced, Crowded, EvidenceOk, HoldsLive, Filter;
    var c := claim.capability;
    NewCapabilityHasRoom(author.key, reason, options.maxEvidence);
    if c in entity.capabilities {
      assert EntryOk(ctx, entity, c, entity.capabilities[c]);
      CrowdedExactly(entity.capabilities[c].evidence, author.key, reason, options.maxEvidence);
    }
  }

  /** Refusing a claim drops a retired record exactly when the list is over its limit. */
  ghost predicate NothingToTrim(options: Options, entity: Entity, c: Id) {
    c in entity.capabilities ==> |entity.capabilities[c].evidence| <= options.maxEvidence
  }

  lemma RefusedClaimChanges(ctx: Context, options: Options, author: Author, entity: Entity, claim: Claim, reason: Id)
    requires EntriesOk(ctx, entity) && ctx.limit == options.maxEvidence >= 1
    requires ApplyClaim(options, author, entity, claim, reason).error.Some?
    ensures ApplyClaim(options, author, entity, claim, reason).entity == entity <==>
            NothingToTrim(options, entity, claim.capability)
  {
    hide Displaced, Crowded, HoldsLive, Filter, ClaimedEntry;
    var c, limit := claim.capability, options.maxEvidence;
    NewCapabilityHasRoom(author.key, reason, limit);
    if c in entity.capabilities {
      var entry := entity.capabilities[c];
      assert EntryOk(ctx, entity, c, entry);
      CrowdedExactly(entry.evidence, author.key, reason, limit);
      TrimGetsWithinLimit(entry.evidence, limit);
      assert entity.capabilities[c := entry] == entity.capabilities;
    }
  }

  // ----- step 10 -----

  /** Nothing is applied before the first claim, and that one is refused without a trace. */
  ghost predicate ClaimsRefusedUntouched(options: Options, key: SourceKey, entity: Entity, claims: seq<Claim>) {
    && claims != []
    && NoRoom(options, key, entity, claims[0].capability)
    && NothingToTrim(options, entity, claims[0].capability)
  }

  lemma RefusedClaimsChange(ctx: Context, options: Options, author: Author, entity: Entity, claims: seq<Claim>,
                            reason: Id)
    requires EntriesOk(ctx, entity) && ctx.limit == options.maxEvidence >= 1
    requires ApplyClaims(options, author, entity, claims, reason).error.Some?
    ensures ApplyClaims(options, author, entity, claims, reason).entity == entity <==>
            ClaimsRefusedUntouched(options, author.key, entity, claims)
  {
    hide ApplyClaim, NoRoom, NothingToTrim, Rises, Grew;
    ClaimIsRefusedExactly(ctx, options, author, entity, claims[0], reason);
    var first := ApplyClaim(options, author, entity, claims[0], reason);
    if first.error.Some? {
      RefusedClaimChanges(ctx, options, author, entity, claims[0], reason);
    } else {
      ClaimRises(options, author, entity, claims[0], reason);
      ClaimsRise(options, author, first.entity, claims[1..], reason);
      GrewStays(entity, first.entity, ApplyClaims(options, author, first.entity, claims[1..], reason).entity);
    }
  }

  ghost predicate QuietAt(entity: Entity, c: Id, key: SourceKey) {
    c in entity.capabilities ==> !HoldsLive(entity.capabilities[c].evidence, key)
  }

  /** Every edit before the refused one finds nothing to withdraw or supersede. */
  ghost predicate EditsRefusedUntouched(options: Options, key: SourceKey, entity: Entity, edits: seq<Edit>,
                                        superseded: bool)
    decreases |edits|
  {
    edits != [] &&
    match edits[0].operation
    case WithdrawClaim =>
      QuietAt(entity, edits[0].capability, key) && EditsRefusedUntouched(options, key, entity, edits[1..], superseded)
    case SupersedeSourceEvidence =>
      (superseded || Quiet(entity, LiveOf(key))) && EditsRefusedUntouched(options, key, entity, edits[1..], true)
    case _ => NoRoom(options, key, entity, edits[0].capability) && NothingToTrim(options, entity, edits[0].capability)
  }

  lemma WithdrawalChanges(entity: Entity, c: Id, key: SourceKey, reason: Id)
    ensures Rises(entity, Withdraw(entity, c, key, reason))
    ensures if QuietAt(entity, c, key) then Withdraw(entity, c, key, reason) == entity
            else Grew(entity, Withdraw(entity, c, key, reason))
  {
  }

  lemma EditRises(options: Options, author: Author, entity: Entity, edit: Edit, reason: Id, superseded: bool)
    ensures Rises(entity, ApplyEdit(options, author, entity, edit, reason, superseded).entity)
  {
    hide ApplyClaim, MarkAll, Withdraw;
    match edit.operation
    case WithdrawClaim => WithdrawalChanges(entity, edit.capability, author.key, reason);
    case SupersedeSourceEvidence => MarkingChanges(entity, Mark(LiveOf(author.key), Superseded, reason));
    case _ => ClaimRises(options, author, entity, EditClaim(edit), reason);
  }

  lemma {:induction false} EditsRise(options: Options, author: Author, entity: Entity, edits: seq<Edit>, reason: Id,
                                     superseded: bool)
    ensures Rises(entity, ApplyEdits(options, author, entity, edits, reason, superseded).entity)
    decreases |edits|
  {
    hide ApplyEdit, Rises;
    if edits == [] {
      RisesSelf(entity);
    } else {
      var first := ApplyEdit(options, author, entity, edits[0], reason, superseded);
      EditRises(options, author, entity, edits[0], reason, superseded);
      if first.error == None {
        var next := superseded || edits[0].operation.SupersedeSourceEvidence?;
        EditsRise(options, author, first.entity, edits[1..], reason, next);
        RisesComposes(entity, first.entity, ApplyEdits(options, author, first.entity, edits[1..], reason, next).entity);
      }
    }
  }

  lemma RisesSelf(entity: Entity)
    ensures Rises(entity, entity)
  {
  }

  /** An edit that is applied changes the entity unless it finds nothing to do. */
  ghost predicate Idle(key: SourceKey, entity: Entity, edit: Edit, superseded: bool) {
    match edit.operation
    case WithdrawClaim => QuietAt(entity, edit.capability, key)
    case SupersedeSourceEvidence => superseded || Quiet(entity, LiveOf(key))
    case _ => false
  }

  lemma AppliedEditChanges(options: Options, author: Author, entity: Entity, edit: Edit, reason: Id, superseded: bool)
    requires ApplyEdit(options, author, entity, edit, reason, superseded).error == None
    ensures var after := ApplyEdit(options, author, entity, edit, reason, superseded).entity;
            if Idle(author.key, entity, edit, superseded) then after == entity else Grew(entity, after)
  {
    hide ApplyClaim, MarkAll, Withdraw, QuietAt, Quiet, Grew, Rises;
    match edit.operation
    case WithdrawClaim => WithdrawalChanges(entity, edit.capability, author.key, reason);
    case SupersedeSourceEvidence => MarkingChanges(entity, Mark(LiveOf(author.key), Superseded, reason));
    case _ => ClaimRises(options, author, entity, EditClaim(edit), reason);
  }

  lemma {:induction false} RefusedEditsChange(ctx: Context, options: Options, author: Author, entity: Entity,
                                              edits: seq<Edit>, reason: Id, superseded: bool)
    requires EntriesOk(ctx, entity) && ctx.limit == options.maxEvidence >= 1
    requires ApplyEdits(options, author, entity, edits, reason, superseded).error.Some?
    ensures ApplyEdits(options, author, entity, edits, reason, superseded).entity == entity <==>
            EditsRefusedUntouched(options, author.key, entity, edits, superseded)
    decreases |edits|
  {
    hide ApplyClaim, MarkAll, Withdraw, NoRoom, NothingToTrim, QuietAt, Quiet, Grew, Rises, EntriesOk;
    var edit := edits[0];
    var first := ApplyEdit(options, author, entity, edit, reason, superseded);
    var next := superseded || edit.operation.SupersedeSourceEvidence?;
    if first.error.Some? {
      RefusedClaimChanges(ctx, options, author, entity, EditClaim(edit), reason);
      ClaimIsRefusedExactly(ctx, options, author, entity, EditClaim(edit), reason);
    } else {
      AppliedEditChanges(options, author, entity, edit, reason, superseded);
      if Idle(author.key, entity, edit, superseded) {
        RefusedEditsChange(ctx, options, author, entity, edits[1..], reason, next);
      } else {
        EditsRise(options, author, first.entity, edits[1..], reason, next);
        GrewStays(entity, first.entity, ApplyEdits(options, author, first.entity, edits[1..], reason, next).entity);
        if !edit.operation.WithdrawClaim? && !edit.operation.SupersedeSourceEvidence? {
          ClaimIsRefusedExactly(ctx, options, author, entity, EditClaim(edit), reason);
        }
      }
    }
  }

  /** A full snapshot finds nothing to withdraw: neither its own live records nor, for an exclusive
      scope, live process-bound records of other instances. */
  ghost predicate NothingToClear(entity: Entity, grant: Grant, request: Request) {
    && Quiet(entity, LiveOf(request.Key()))
    && (grant.exclusive ==> Quiet(entity, LiveProcessBoundOfOthers(request.Instance())))
  }

  lemma ClearingChanges(entity: Entity, grant: Grant, request: Request)
    ensures if NothingToClear(entity, grant, request) then ClearForSnapshot(entity, grant, request) == entity
            else Grew(entity, ClearForSnapshot(entity, grant, request))
  {
    hide MarkAll, Quiet, Rises, Grew;
    var others := Mark(LiveProcessBoundOfOthers(request.Instance()), Superseded, request.reason);
    var own := Mark(LiveOf(request.Key()), Superseded, request.reason);
    var first := if grant.exclusive then MarkAll(entity, others) else entity;
    MarkingChanges(entity, others);
    MarkingChanges(first, own);
    if first != entity {
      GrewStays(entity, first, MarkAll(first, own));
    }
  }

  /** Step 10 is refused before it changes anything. */
  ghost predicate RefusedUntouched(env: Environment, grant: Grant, entity: Entity, request: Request) {
    match request.mode
    case FullSnapshot =>
      NothingToClear(entity, grant, request)
      && ClaimsRefusedUntouched(env.options, request.Key(), entity, SnapshotClaims(env, grant, request))
    case PartialObservation =>
      ClaimsRefusedUntouched(env.options, request.Key(), entity, Covered(request.claims, request.coverage))
    case Incremental => EditsRefusedUntouched(env.options, request.Key(), entity, request.edits, false)
  }

  lemma RefusedRequestChanges(env: Environment, ctx: Context, epoch: nat, grant: Grant, entity: Entity,
                              request: Request)
    requires env.Valid() && EntriesOk(ctx, entity) && ctx.limit == env.options.maxEvidence
    requires ApplyRequest(env, epoch, grant, entity, request).error.Some?
    ensures ApplyRequest(env, epoch, grant, entity, request).entity == entity <==>
            RefusedUntouched(env, grant, entity, request)
  {
    hide ApplyClaims, ApplyEdits, EntriesOk, ClaimsRefusedUntouched, EditsRefusedUntouched, NothingToClear, Grew, Rises,
      ClearForSnapshot;
    var author := AuthorOf(epoch, request);
    match request.mode
    case FullSnapshot =>
      var cleared := ClearForSnapshot(entity, grant, request);
      var claims := SnapshotClaims(env, grant, request);
      ApplyClaimsConcat(env.options, author, cleared, Covered(request.claims, request.coverage),
                        AbsenceClaims(env, grant, request), request.reason);
      ClearingChanges(entity, grant, request);
      if NothingToClear(entity, grant, request) {
        RefusedClaimsChange(ctx, env.options, author, entity, claims, request.reason);
      } else {
        ClaimsRise(env.options, author, cleared, claims, request.reason);
        GrewStays(entity, cleared, ApplyClaims(env.options, author, cleared, claims, request.reason).entity);
      }
    case PartialObservation =>
      RefusedClaimsChange(ctx, env.options, author, entity, Covered(request.claims, request.coverage), request.reason);
    case Incremental => RefusedEditsChange(ctx, env.options, author, entity, request.edits, request.reason, false);
  }

  // ----- the whole publication -----

  /** The request is refused before anything is created, retired or applied. */
  ghost predicate RefusedInTime(env: Environment, st: State, request: Request) {
    if Admit(env, st, request).Some? then true
    else if request.entity !in st.entities then |st.entities| >= env.options.maxEntities
    else if request.entityGeneration != st.entities[request.entity].current then
      request.entityGeneration < st.entities[request.entity].current
    else
      var grant := st.authorities[request.scope];
      var entity := st.entities[request.entity];
      || ClassifyReplay(st.publishers[request.Instance()].replay, request.attempt, ContentOf(request, grant)).Some?
      || CheckGenerations(entity, request).Some?
      || RefusedUntouched(env, grant, entity, request)
  }

  lemma RejectedAfterRetirement(env: Environment, st: State, request: Request)
    requires request.entity in st.entities && request.Instance() in st.publishers && request.scope in st.authorities
    requires PublishLocated(env, st, request).1.Rejected?
    ensures var after := PublishLocated(env, st, request).0;
            request.entity in after.entities && after.registryGeneration == st.registryGeneration
  {
  }

  lemma CommitIsCommitted(env: Environment, st: State, request: Request)
    requires request.Instance() in st.publishers && request.scope in st.authorities
    ensures forall before, after :: Commit(env, st, before, after, request).1.Committed?
  {
  }

  lemma RejectedInPlace(env: Environment, st: State, request: Request)
    requires env.Valid() && StateOk(env, st) && request.entity in st.entities
    requires request.Instance() in st.publishers && request.scope in st.authorities
    requires PublishLocated(env, st, request).1.Rejected?
    ensures var grant, entity := st.authorities[request.scope], st.entities[request.entity];
            PublishLocated(env, st, request).0 == st <==>
            (ClassifyReplay(st.publishers[request.Instance()].replay, request.attempt, ContentOf(request, grant)).Some?
             || CheckGenerations(entity, request).Some?
             || RefusedUntouched(env, grant, entity, request))
  {
    hide ApplyRequest, ContentOf, ClassifyReplay, CheckGenerations, Commit, RefusedUntouched;
    var grant, entity := st.authorities[request.scope], st.entities[request.entity];
    CommitIsCommitted(env, st, request);
    assert EntityOk(ContextOf(env, st), request.entity, entity);
    var applied := ApplyRequest(env, st.epoch, grant, entity, request);
    if applied.error.Some? {
      RefusedRequestChanges(env, ContextOf(env, st), st.epoch, grant, entity, request);
      assert st.entities[request.entity := entity] == st.entities;
      assert st.entities[request.entity := applied.entity][request.entity] == applied.entity;
    }
  }

  /** The status promises that a rejected publication left the registry unchanged. It did exactly
      when the request was refused in time. */
  lemma RejectionLeavesStateExactlyWhen(env: Environment, st: State, request: Request)
    requires env.Valid() && StateOk(env, st) && Publish(env, st, request).1.Rejected?
    ensures Publish(env, st, request).0 == st <==> RefusedInTime(env, st, request)
  {
    hide Admit, PublishLocated, StateOk, RefusedUntouched, ClassifyReplay, CheckGenerations, ContentOf;
    if Admit(env, st, request) == None {
      var (located, error) := Locate(env, st, request);
      if error == None {
        if located == st {
          RejectedInPlace(env, st, request);
        } else {
          RejectedAfterRetirement(env, located, request);
        }
      }
    }
  }

  /** The promise fails: a snapshot of an unknown entity that expects a set to exist is rejected,
      and the entity it names exists from then on. */
  lemma RejectionMayChangeState() returns (env: Environment, st: State, request: Request)
    ensures env.Valid() && StateOk(env, st)
    ensures Publish(env, st, request).1 == Rejected(CapabilitySetGenerationMismatch)
    ensures request.entity !in st.entities && request.entity in Publish(env, st, request).0.entities
  {
    hide ContentOf;
    var options := Options(8, 8, 8, 8, 8, 8, 8);
    env := Environment(options, [], x => 1, x => 1);
    var grant := Grant(1, [1], [1], {FullSnapshot}, false, false, 0, [], 8);
    st := Initial(1).(authorities := map[1 := grant],
                      publishers := map[PublisherKey(1, 1) := Runtime(1, 1, true, [])]);
    request := Request(FullSnapshot, 1, 1, 1, 1, 1, 1, 1, 1, 1, 1, 1, [], [], Partial, 0);
    assert Admit(env, st, request) == None;
    assert Locate(env, st, request).0.entities[1] == NewEntity(1, 1);
  }

  /** The rejection itself leaves the served set of every known entity as it was, or, when it retires
      the generation of its own entity first, serves none. What the next refresh serves, and what
      queries answer meanwhile, is the subject of `PartialSets`. */
  lemma RejectionKeepsPublishedSet(env: Environment, st: State, request: Request, e: Id)
    requires Publish(env, st, request).1.Rejected? && e in st.entities
    ensures var after := Publish(env, st, request).0;
            e in after.entities &&
            after.entities[e].published ==
            (if e == request.entity && request.entityGeneration > st.entities[e].current
                && Admit(env, st, request) == None
             then None else st.entities[e].published)
  {
    hide Admit, ApplyRequest, ContentOf, ClassifyReplay, CheckGenerations, Commit;
    if Admit(env, st, request) == None {
      var (located, error) := Locate(env, st, request);
      if error == None {
        CommitIsCommitted(env, located, request);
        ApplyRequestKeepsHeader(env, located.epoch, located.authorities[request.scope],
                                located.entities[request.entity], request);
      }
    }
  }
}
