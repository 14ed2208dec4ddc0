/** The invariant of the registry and the proof that every mutation keeps it, so
    that it holds in every state of every run. */
module RegistryInvariant {
  import opened Sequences
  import opened Evidence
  import opened RegistryState
  import opened EvidenceInvariant
  import opened RegistrySteps

  ghost function ContextOf(env: Environment, st: State): Context {
    Context(env.options.maxEvidence, st.epoch, st.fencedBoots)
  }

  ghost predicate EntityOk(ctx: Context, id: Id, entity: Entity) {
    && id != 0 && entity.id == id
    && entity.current >= 1 && entity.bound == entity.current
    && (!entity.hasSet ==> entity.setGeneration == 0)
    && (forall k :: k in entity.highWater ==> k.source != 0)
    && EntriesOk(ctx, entity)
  }

  ghost predicate EntitiesOk(ctx: Context, entities: map<Id, Entity>) {
    forall e :: e in entities ==> EntityOk(ctx, e, entities[e])
  }

  /** The fence list has no duplicate and lists exactly the fenced boots. */
  ghost predicate FencesOk(fences: seq<Fence>, fenced: set<Id>) {
    && (forall i, j :: 0 <= i < j < |fences| ==> fences[i].boot != fences[j].boot)
    && (forall b :: b in fenced <==> exists f :: f in fences && f.boot == b)
    && 0 !in fenced
  }

  /** Every remembered attempt is about a known entity at a generation no higher than its current one. */
  ghost predicate ReplaysOk(publishers: map<PublisherKey, Runtime>, entities: map<Id, Entity>) {
    forall k, r :: k in publishers && r in publishers[k].replay ==>
      r.content.entity in entities && r.content.entityGeneration <= entities[r.content.entity].current
  }

  ghost predicate DirectoryOk(st: State) {
    && (forall s :: s in st.authorities ==> s != 0 && st.authorities[s].scope == s)
    && (forall k :: k in st.publishers ==> k.publisher != 0 && k.boot != 0)
  }

  ghost predicate StateOk(env: Environment, st: State) {
    && st.epoch >= 1
    && EntitiesOk(ContextOf(env, st), st.entities)
    && FencesOk(st.fences, st.fencedBoots)
    && ReplaysOk(st.publishers, st.entities)
    && DirectoryOk(st)
  }

  // ----- one publication -----

  ghost predicate SameHeader(a: Entity, b: Entity) {
    b == a.(capabilities := b.capabilities)
  }

  ghost predicate EditOk(edit: Edit) {
    edit.operation.WithdrawClaim? || edit.operation.SupersedeSourceEvidence? || ClaimOk(EditClaim(edit))
  }

  lemma {:induction false} CheckedClaimsAreOk(env: Environment, grant: Grant, claims: seq<Claim>, seen: set<Id>)
    requires CheckClaims(env, grant, claims, seen) == None
    ensures forall c :: c in claims ==> ClaimOk(c)
    ensures forall i, j :: 0 <= i < j < |claims| ==> claims[i].capability != claims[j].capability
    ensures forall c :: c in claims ==> c.capability !in seen
    decreases |claims|
  {
    if claims != [] {
      var rest := seen + {claims[0].capability};
      CheckedClaimsAreOk(env, grant, claims[1..], rest);
      assert forall c :: c in claims[1..] ==> c.capability !in rest;
      assert claims == [claims[0]] + claims[1..];
    }
  }

  lemma {:induction false} CheckedEditsAreOk(env: Environment, grant: Grant, edits: seq<Edit>)
    requires CheckEdits(env, grant, edits) == None
    ensures forall e :: e in edits ==> EditOk(e)
    decreases |edits|
  {
    if edits != [] {
      CheckedEditsAreOk(env, grant, edits[1..]);
      assert edits == [edits[0]] + edits[1..];
    }
  }

  lemma {:induction false} ApplyClaimsKeepsEntries(ctx: Context, options: Options, author: Author, entity: Entity,
                                                  claims: seq<Claim>, reason: Id)
    requires EntriesOk(ctx, entity) && ctx.limit == options.maxEvidence && ctx.limit >= 1
    requires AuthorOk(ctx, author) && forall c :: c in claims ==> ClaimOk(c)
    ensures EntriesOk(ctx, ApplyClaims(options, author, entity, claims, reason).entity)
    decreases |claims|
  {
    if claims != [] {
      ApplyClaimKeepsEntries(ctx, options, author, entity, claims[0], reason);
      var first := ApplyClaim(options, author, entity, claims[0], reason);
      if first.error == None {
        ApplyClaimsKeepsEntries(ctx, options, author, first.entity, claims[1..], reason);
      }
    }
  }

  lemma ApplyEditKeepsEntries(ctx: Context, options: Options, author: Author, entity: Entity, edit: Edit, reason: Id,
                              superseded: bool)
    requires EntriesOk(ctx, entity) && ctx.limit == options.maxEvidence && ctx.limit >= 1
    requires AuthorOk(ctx, author) && EditOk(edit)
    ensures EntriesOk(ctx, ApplyEdit(options, author, entity, edit, reason, superseded).entity)
  {
    match edit.operation
    case WithdrawClaim => WithdrawKeepsEntries(ctx, entity, edit.capability, author.key, reason);
    case SupersedeSourceEvidence => MarkAllKeepsEntries(ctx, entity, Mark(LiveOf(author.key), Superseded, reason));
    case _ => ApplyClaimKeepsEntries(ctx, options, author, entity, EditClaim(edit), reason);
  }

  lemma {:induction false} ApplyEditsKeepsEntries(ctx: Context, options: Options, author: Author, entity: Entity,
                                                 edits: seq<Edit>, reason: Id, superseded: bool)
    requires EntriesOk(ctx, entity) && ctx.limit == options.maxEvidence && ctx.limit >= 1
    requires AuthorOk(ctx, author) && forall e :: e in edits ==> EditOk(e)
    ensures EntriesOk(ctx, ApplyEdits(options, author, entity, edits, reason, superseded).entity)
    decreases |edits|
  {
    if edits != [] {
      ApplyEditKeepsEntries(ctx, options, author, entity, edits[0], reason, superseded);
      var first := ApplyEdit(options, author, entity, edits[0], reason, superseded);
      if first.error == None {
        ApplyEditsKeepsEntries(ctx, options, author, first.entity, edits[1..], reason,
                               superseded || edits[0].operation.SupersedeSourceEvidence?);
      }
    }
  }

  lemma ApplyClaimKeepsHeader(options: Options, author: Author, entity: Entity, claim: Claim, reason: Id)
    ensures SameHeader(entity, ApplyClaim(options, author, entity, claim, reason).entity)
  {
  }

  lemma {:induction false} ApplyClaimsKeepsHeader(options: Options, author: Author, entity: Entity, claims: seq<Claim>,
                                                  reason: Id)
    ensures SameHeader(entity, ApplyClaims(options, author, entity, claims, reason).entity)
    decreases |claims|
  {
    if claims != [] {
      ApplyClaimKeepsHeader(options, author, entity, claims[0], reason);
      var first := ApplyClaim(options, author, entity, claims[0], reason);
      if first.error == None {
        ApplyClaimsKeepsHeader(options, author, first.entity, claims[1..], reason);
      }
    }
  }

  lemma {:induction false} ApplyEditsKeepsHeader(options: Options, author: Author, entity: Entity, edits: seq<Edit>,
                                                 reason: Id, superseded: bool)
    ensures SameHeader(entity, ApplyEdits(options, author, entity, edits, reason, superseded).entity)
    decreases |edits|
  {
    if edits != [] {
      var first := ApplyEdit(options, author, entity, edits[0], reason, superseded);
      ApplyEditKeepsHeader(options, author, entity, edits[0], reason, superseded);
      if first.error == None {
        ApplyEditsKeepsHeader(options, author, first.entity, edits[1..], reason,
                              superseded || edits[0].operation.SupersedeSourceEvidence?);
      }
    }
  }

  lemma ApplyEditKeepsHeader(options: Options, author: Author, entity: Entity, edit: Edit, reason: Id, superseded: bool)
    ensures SameHeader(entity, ApplyEdit(options, author, entity, edit, reason, superseded).entity)
  {
    match edit.operation
    case WithdrawClaim =>
    case SupersedeSourceEvidence =>
    case _ => ApplyClaimKeepsHeader(options, author, entity, EditClaim(edit), reason);
  }

  lemma ApplyRequestKeepsHeader(env: Environment, epoch: nat, grant: Grant, entity: Entity, request: Request)
    ensures SameHeader(entity, ApplyRequest(env, epoch, grant, entity, request).entity)
  {
    var author := AuthorOf(epoch, request);
    match request.mode
    case FullSnapshot =>
      var cleared := ClearForSnapshot(entity, grant, request);
      var claims := Covered(request.claims, request.coverage);
      ApplyClaimsKeepsHeader(env.options, author, cleared, claims, request.reason);
      var first := ApplyClaims(env.options, author, cleared, claims, request.reason);
      ApplyClaimsKeepsHeader(env.options, author, first.entity, AbsenceClaims(env, grant, request), request.reason);
    case PartialObservation =>
      ApplyClaimsKeepsHeader(env.options, author, entity, Covered(request.claims, request.coverage), request.reason);
    case Incremental =>
      ApplyEditsKeepsHeader(env.options, author, entity, request.edits, request.reason, false);
  }

  lemma {:induction false} ApplyClaimsConcat(options: Options, author: Author, entity: Entity, a: seq<Claim>,
                                             b: seq<Claim>,
                                            reason: Id)
    ensures var first := ApplyClaims(options, author, entity, a, reason);
            ApplyClaims(options, author, entity, a + b, reason) ==
            if first.error.Some? then first else ApplyClaims(options, author, first.entity, b, reason)
    decreases |a|
  {
    hide ApplyClaim;
    if a == [] {
      assert a + b == b;
    } else {
      assert (a + b)[1..] == a[1..] + b;
      ApplyClaimsConcat(options, author, ApplyClaim(options, author, entity, a[0], reason).entity, a[1..], b, reason);
    }
  }

  lemma CoveredClaimsAreOk(claims: seq<Claim>, coverage: Coverage)
    requires forall c :: c in claims ==> ClaimOk(c)
    ensures forall c :: c in Covered(claims, coverage) ==> ClaimOk(c)
  {
    forall c | c in Covered(claims, coverage) ensures ClaimOk(c) {
      var i :| 0 <= i < |claims| && Covered(claims, coverage)[i] == c;
      assert ClaimOk(claims[i]);
    }
  }

  lemma {:induction false} AbsentIdsAreSet(env: Environment, grant: Grant, claims: seq<Claim>,
                                           descriptors: seq<Descriptor>)
    ensures 0 !in AbsentCapabilities(env, grant, claims, descriptors)
  {
    if descriptors != [] {
      AbsentIdsAreSet(env, grant, claims, descriptors[..|descriptors| - 1]);
    }
  }

  lemma AbsenceClaimsAreOk(env: Environment, grant: Grant, request: Request)
    ensures forall c :: c in AbsenceClaims(env, grant, request) ==> ClaimOk(c)
  {
    var ids := AbsentCapabilities(env, grant, request.claims, env.descriptors);
    AbsentIdsAreSet(env, grant, request.claims, env.descriptors);
    forall c | c in AbsenceClaims(env, grant, request) ensures ClaimOk(c) {
      var i :| 0 <= i < |ids| && AbsenceClaims(env, grant, request)[i] == c;
      assert ids[i] in ids;
    }
  }

  ghost predicate RequestOk(request: Request) {
    && (forall c :: c in request.claims ==> ClaimOk(c))
    && (forall e :: e in request.edits ==> EditOk(e))
    && request.source != 0 && request.entity != 0 && request.entityGeneration >= 1
  }

  lemma AdmittedRequestIsOk(env: Environment, st: State, request: Request)
    requires Admit(env, st, request) == None
    ensures RequestOk(request)
    ensures request.epoch == st.epoch && request.boot !in st.fencedBoots
    ensures forall i, j :: 0 <= i < j < |request.claims| ==>
              request.claims[i].capability != request.claims[j].capability
  {
    var grant := st.authorities[request.scope];
    assert CheckContents(env, grant, request) == None;
    CheckedClaimsAreOk(env, grant, request.claims, {});
    CheckedEditsAreOk(env, grant, request.edits);
  }

  lemma ClearKeepsEntries(ctx: Context, entity: Entity, grant: Grant, request: Request)
    requires EntriesOk(ctx, entity)
    ensures EntriesOk(ctx, ClearForSnapshot(entity, grant, request))
    ensures SameHeader(entity, ClearForSnapshot(entity, grant, request))
  {
    var others := Mark(LiveProcessBoundOfOthers(request.Instance()), Superseded, request.reason);
    var own := Mark(LiveOf(request.Key()), Superseded, request.reason);
    MarkAllKeepsEntries(ctx, entity, others);
    MarkAllKeepsEntries(ctx, if grant.exclusive then MarkAll(entity, others) else entity, own);
  }

  lemma ApplyRequestKeepsEntries(env: Environment, ctx: Context, epoch: nat, grant: Grant, entity: Entity,
                                 request: Request)
    requires env.Valid() && ctx.limit == env.options.maxEvidence
    requires EntriesOk(ctx, entity) && RequestOk(request) && AuthorOk(ctx, AuthorOf(epoch, request))
    ensures EntriesOk(ctx, ApplyRequest(env, epoch, grant, entity, request).entity)
  {
    var author := AuthorOf(epoch, request);
    CoveredClaimsAreOk(request.claims, request.coverage);
    match request.mode
    case FullSnapshot =>
      var cleared := ClearForSnapshot(entity, grant, request);
      var claims := Covered(request.claims, request.coverage);
      ClearKeepsEntries(ctx, entity, grant, request);
      ApplyClaimsKeepsEntries(ctx, env.options, author, cleared, claims, request.reason);
      var first := ApplyClaims(env.options, author, cleared, claims, request.reason);
      AbsenceClaimsAreOk(env, grant, request);
      ApplyClaimsKeepsEntries(ctx, env.options, author, first.entity, AbsenceClaims(env, grant, request),
                              request.reason);
    case PartialObservation =>
      ApplyClaimsKeepsEntries(ctx, env.options, author, entity, Covered(request.claims, request.coverage),
                              request.reason);
    case Incremental =>
      ApplyEditsKeepsEntries(ctx, env.options, author, entity, request.edits, request.reason, false);
  }

  lemma SameEntriesOk(ctx: Context, a: Entity, b: Entity)
    requires EntriesOk(ctx, a) && a.id == b.id && a.bound == b.bound && a.capabilities == b.capabilities
    ensures EntriesOk(ctx, b)
  {
  }

  /** Putting back an entity that kept its generation keeps the remembered attempts right. */
  lemma PutKeepsState(env: Environment, st: State, id: Id, entity: Entity)
    requires StateOk(env, st) && EntityOk(ContextOf(env, st), id, entity)
    requires id in st.entities ==> st.entities[id].current <= entity.current
    ensures StateOk(env, PutEntity(st, id, entity))
  {
    var after := PutEntity(st, id, entity);
    assert ContextOf(env, after) == ContextOf(env, st);
  }

  lemma NewEntityOk(ctx: Context, id: Id, generation: nat)
    requires id != 0 && generation >= 1
    ensures EntityOk(ctx, id, NewEntity(id, generation))
  {
  }

  lemma LocateKeepsState(env: Environment, st: State, request: Request)
    requires StateOk(env, st) && RequestOk(request)
    ensures StateOk(env, Locate(env, st, request).0)
    ensures Locate(env, st, request).0.epoch == st.epoch
    ensures Locate(env, st, request).0.fencedBoots == st.fencedBoots
  {
    NewEntityOk(ContextOf(env, st), request.entity, request.entityGeneration);
    if request.entity !in st.entities || request.entityGeneration > st.entities[request.entity].current {
      var created := NewEntity(request.entity, request.entityGeneration);
      PutKeepsState(env, st, request.entity, created);
      GenerationKeepsState(env, PutEntity(st, request.entity, created), st.registryGeneration + 1);
    }
  }

  lemma GenerationKeepsState(env: Environment, st: State, registryGeneration: nat)
    requires StateOk(env, st)
    ensures StateOk(env, st.(registryGeneration := registryGeneration))
  {
  }

  lemma CommitEntityOk(ctx: Context, id: Id, before: Entity, after: Entity, request: Request, registryGeneration: nat)
    requires EntityOk(ctx, id, after) && request.source != 0
    ensures EntityOk(ctx, id, CommitEntity(before, after, request, registryGeneration))
    ensures CommitEntity(before, after, request, registryGeneration).current == after.current
  {
  }

  lemma PushKeepsReplays(env: Environment, st: State, key: PublisherKey, record: ReplayRecord)
    requires ReplaysOk(st.publishers, st.entities) && key in st.publishers
    requires record.content.entity in st.entities
    requires record.content.entityGeneration <= st.entities[record.content.entity].current
    ensures ReplaysOk(st.publishers[key := st.publishers[key].(
                                      replay := PushReplay(env, st.publishers[key].replay, record))], st.entities)
  {
  }

  lemma CommitKeepsState(env: Environment, st: State, before: Entity, after: Entity, request: Request)
    requires StateOk(env, st) && EntityOk(ContextOf(env, st), request.entity, after) && request.source != 0
    requires request.entity in st.entities && st.entities[request.entity].current == after.current
    requires request.entityGeneration == after.current
    requires request.Instance() in st.publishers && request.scope in st.authorities
    ensures StateOk(env, Commit(env, st, before, after, request).0)
  {
    hide Views, SortedResolutions, EntriesOk, FencesOk;
    var registryGeneration := if SemanticChange(before, after) then st.registryGeneration + 1
        else st.registryGeneration;
    var entity := CommitEntity(before, after, request, registryGeneration);
    CommitEntityOk(ContextOf(env, st), request.entity, before, after, request, registryGeneration);
    PutKeepsState(env, st, request.entity, entity);
    var put := PutEntity(st, request.entity, entity);
    var record := ReplayRecord(request.attempt, request.publication, ContentOf(request, st.authorities[request.scope]));
    PushKeepsReplays(env, put, request.Instance(), record);
    GenerationKeepsState(env, put, registryGeneration);
    var result := Commit(env, st, before, after, request).0;
    assert ContextOf(env, result) == ContextOf(env, st);
  }

  lemma AppliedEntityOk(env: Environment, st: State, request: Request)
    requires env.Valid() && StateOk(env, st) && RequestOk(request) && request.boot !in st.fencedBoots
    requires request.entity in st.entities && request.scope in st.authorities
    ensures EntityOk(ContextOf(env, st), request.entity,
                     ApplyRequest(env, st.epoch, st.authorities[request.scope], st.entities[request.entity],
                                  request).entity)
  {
    var entity := st.entities[request.entity];
    var grant := st.authorities[request.scope];
    ApplyRequestKeepsEntries(env, ContextOf(env, st), st.epoch, grant, entity, request);
    ApplyRequestKeepsHeader(env, st.epoch, grant, entity, request);
  }

  lemma PublishLocatedKeepsState(env: Environment, st: State, request: Request)
    requires env.Valid() && StateOk(env, st) && RequestOk(request) && request.boot !in st.fencedBoots
    requires request.entity in st.entities && request.Instance() in st.publishers && request.scope in st.authorities
    requires st.entities[request.entity].current == request.entityGeneration
    ensures StateOk(env, PublishLocated(env, st, request).0)
  {
    var entity := st.entities[request.entity];
    var grant := st.authorities[request.scope];
    var applied := ApplyRequest(env, st.epoch, grant, entity, request);
    AppliedEntityOk(env, st, request);
    ApplyRequestKeepsHeader(env, st.epoch, grant, entity, request);
    PutKeepsState(env, st, request.entity, applied.entity);
    CommitKeepsState(env, st, entity, applied.entity, request);
  }

  lemma LocatedGeneration(env: Environment, st: State, request: Request)
    requires Locate(env, st, request).1 == None
    ensures Locate(env, st, request).0.entities[request.entity].current == request.entityGeneration
  {
  }

  lemma PublishKeepsState(env: Environment, st: State, request: Request)
    requires env.Valid() && StateOk(env, st)
    ensures StateOk(env, Publish(env, st, request).0)
  {
    if Admit(env, st, request) == None {
      AdmittedRequestIsOk(env, st, request);
      LocateKeepsState(env, st, request);
      if Locate(env, st, request).1 == None {
        LocatedGeneration(env, st, request);
        PublishLocatedKeepsState(env, Locate(env, st, request).0, request);
      }
    }
  }
}
