/** What a rejected publication leaves for readers to see. A request refused for lack of room leaves
    the part before the refused claim behind: queries answer it at once, and the next refresh of the
    entity serves it. */
module PartialSets {
  import opened Sequences
  import opened Evidence
  import opened RegistryState
  import opened EvidenceInvariant
  import opened RegistrySteps
  import opened RegistryInvariant
  import opened Publications
  import opened Rejections
  import Authorship
  import ArrivalOrder

  // ----- what a query answers -----

  datatype QueryResult = QueryResult(
    registryGeneration: nat, known: bool, entityGeneration: nat, setGeneration: nat, invalidated: bool,
    resolution: Option<Resolution>)

  /** Query, without the explanation and the list of evidence. */
  function Query(st: State, e: Id, c: Id): QueryResult {
    if e !in st.entities then QueryResult(st.registryGeneration, false, 0, 0, false, None)
    else
      var entity := st.entities[e];
      QueryResult(st.registryGeneration, true, entity.current, entity.setGeneration, entity.invalidated,
             if c in entity.capabilities then entity.capabilities[c].resolution else None)
  }

  ghost predicate SameAnswers(st: State, after: State) {
    forall e, c :: Query(after, e, c) == Query(st, e, c)
  }

  /** Every capability has the generation and the resolution it had. */
  ghost predicate Unmoved(a: Entity, b: Entity) {
    && a.capabilities.Keys == b.capabilities.Keys
    && forall c :: c in a.capabilities ==>
         && a.capabilities[c].generation == b.capabilities[c].generation
         && a.capabilities[c].resolution == b.capabilities[c].resolution
  }

  lemma UnmovedSelf(a: Entity)
    ensures Unmoved(a, a)
  {
  }

  lemma GrownIsMoved(a: Entity, b: Entity)
    requires Grew(a, b)
    ensures !Unmoved(a, b)
  {
  }

  // ----- a request refused for lack of room -----

  lemma RefusedClaimIsUnmoved(options: Options, author: Author, entity: Entity, claim: Claim, reason: Id)
    requires options.maxEvidence >= 1 && ApplyClaim(options, author, entity, claim, reason).error.Some?
    ensures Unmoved(entity, ApplyClaim(options, author, entity, claim, reason).entity)
  {
    hide Displaced;
    NewCapabilityHasRoom(author.key, reason, options.maxEvidence);
  }

  /** The first claim finds no room. */
  ghost predicate ClaimsRefusedAtOnce(options: Options, key: SourceKey, entity: Entity, claims: seq<Claim>) {
    claims != [] && NoRoom(options, key, entity, claims[0].capability)
  }

  lemma RefusedClaimsShow(ctx: Context, options: Options, author: Author, entity: Entity, claims: seq<Claim>,
                          reason: Id)
    requires EntriesOk(ctx, entity) && ctx.limit == options.maxEvidence >= 1
    requires ApplyClaims(options, author, entity, claims, reason).error.Some?
    ensures var after := ApplyClaims(options, author, entity, claims, reason).entity;
            if ClaimsRefusedAtOnce(options, author.key, entity, claims) then Unmoved(entity, after)
            else Grew(entity, after)
  {
    hide ApplyClaim, NoRoom, Rises, Grew, Unmoved, EntriesOk;
    ClaimIsRefusedExactly(ctx, options, author, entity, claims[0], reason);
    var first := ApplyClaim(options, author, entity, claims[0], reason);
    if first.error.Some? {
      RefusedClaimIsUnmoved(options, author, entity, claims[0], reason);
    } else {
      ClaimRises(options, author, entity, claims[0], reason);
      ClaimsRise(options, author, first.entity, claims[1..], reason);
      GrewStays(entity, first.entity, ApplyClaims(options, author, first.entity, claims[1..], reason).entity);
    }
  }

  /** The first edit that finds anything to do finds no room. */
  ghost predicate EditsRefusedAtOnce(options: Options, key: SourceKey, entity: Entity, edits: seq<Edit>,
                                     superseded: bool)
    decreases |edits|
  {
    edits != [] &&
    match edits[0].operation
    case WithdrawClaim =>
      QuietAt(entity, edits[0].capability, key) && EditsRefusedAtOnce(options, key, entity, edits[1..], superseded)
    case SupersedeSourceEvidence =>
      (superseded || Quiet(entity, LiveOf(key))) && EditsRefusedAtOnce(options, key, entity, edits[1..], true)
    case _ => NoRoom(options, key, entity, edits[0].capability)
  }

  lemma {:induction false} RefusedEditsShow(ctx: Context, options: Options, author: Author, entity: Entity,
                                            edits: seq<Edit>, reason: Id, superseded: bool)
    requires EntriesOk(ctx, entity) && ctx.limit == options.maxEvidence >= 1
    requires ApplyEdits(options, author, entity, edits, reason, superseded).error.Some?
    ensures var after := ApplyEdits(options, author, entity, edits, reason, superseded).entity;
            if EditsRefusedAtOnce(options, author.key, entity, edits, superseded) then Unmoved(entity, after)
            else Grew(entity, after)
    decreases |edits|
  {
    hide ApplyClaim, MarkAll, Withdraw, NoRoom, QuietAt, Quiet, Grew, Rises, EntriesOk, Unmoved;
    var edit := edits[0];
    var first := ApplyEdit(options, author, entity, edit, reason, superseded);
    var next := superseded || edit.operation.SupersedeSourceEvidence?;
    if first.error.Some? {
      RefusedClaimIsUnmoved(options, author, entity, EditClaim(edit), reason);
      ClaimIsRefusedExactly(ctx, options, author, entity, EditClaim(edit), reason);
    } else {
      AppliedEditChanges(options, author, entity, edit, reason, superseded);
      if Idle(author.key, entity, edit, superseded) {
        RefusedEditsShow(ctx, options, author, entity, edits[1..], reason, next);
      } else {
        EditsRise(options, author, first.entity, edits[1..], reason, next);
        GrewStays(entity, first.entity, ApplyEdits(options, author, first.entity, edits[1..], reason, next).entity);
        if !edit.operation.WithdrawClaim? && !edit.operation.SupersedeSourceEvidence? {
          ClaimIsRefusedExactly(ctx, options, author, entity, EditClaim(edit), reason);
        }
      }
    }
  }

  /** Step 10 is refused before it applies anything; it may still have dropped a retired record. */
  ghost predicate RefusedAtOnce(env: Environment, grant: Grant, entity: Entity, request: Request) {
    match request.mode
    case FullSnapshot =>
      NothingToClear(entity, grant, request)
      && ClaimsRefusedAtOnce(env.options, request.Key(), entity, SnapshotClaims(env, grant, request))
    case PartialObservation =>
      ClaimsRefusedAtOnce(env.options, request.Key(), entity, Covered(request.claims, request.coverage))
    case Incremental => EditsRefusedAtOnce(env.options, request.Key(), entity, request.edits, false)
  }

  lemma RefusedRequestShows(env: Environment, ctx: Context, epoch: nat, grant: Grant, entity: Entity, request: Request)
    requires env.Valid() && EntriesOk(ctx, entity) && ctx.limit == env.options.maxEvidence
    requires ApplyRequest(env, epoch, grant, entity, request).error.Some?
    ensures var after := ApplyRequest(env, epoch, grant, entity, request).entity;
            if RefusedAtOnce(env, grant, entity, request) then Unmoved(entity, after) else Grew(entity, after)
  {
    hide ApplyClaims, ApplyEdits, EntriesOk, ClaimsRefusedAtOnce, EditsRefusedAtOnce, NothingToClear, Grew, Rises,
      Unmoved, ClearForSnapshot;
    var author := AuthorOf(epoch, request);
    match request.mode
    case FullSnapshot =>
      var cleared := ClearForSnapshot(entity, grant, request);
      var claims := SnapshotClaims(env, grant, request);
      ApplyClaimsConcat(env.options, author, cleared, Covered(request.claims, request.coverage),
                        AbsenceClaims(env, grant, request), request.reason);
      ClearingChanges(entity, grant, request);
      if NothingToClear(entity, grant, request) {
        RefusedClaimsShow(ctx, env.options, author, entity, claims, request.reason);
      } else {
        ClaimsRise(env.options, author, cleared, claims, request.reason);
        GrewStays(entity, cleared, ApplyClaims(env.options, author, cleared, claims, request.reason).entity);
      }
    case PartialObservation =>
      RefusedClaimsShow(ctx, env.options, author, entity, Covered(request.claims, request.coverage), request.reason);
    case Incremental => RefusedEditsShow(ctx, env.options, author, entity, request.edits, request.reason, false);
  }

  // ----- the whole publication -----

  /** The request is refused before anything is created, retired or applied, but for a retired record
      that a refused claim may have dropped. */
  ghost predicate RefusedUnseen(env: Environment, st: State, request: Request) {
    if Admit(env, st, request).Some? then true
    else if request.entity !in st.entities then |st.entities| >= env.options.maxEntities
    else if request.entityGeneration != st.entities[request.entity].current then
      request.entityGeneration < st.entities[request.entity].current
    else
      var grant := st.authorities[request.scope];
      var entity := st.entities[request.entity];
      || ClassifyReplay(st.publishers[request.Instance()].replay, request.attempt, ContentOf(request, grant)).Some?
      || CheckGenerations(entity, request).Some?
      || RefusedAtOnce(env, grant, entity, request)
  }

  /** What a rejection leaves of the addressed entity, if it was known at the generation named. */
  lemma RejectedInPlaceShows(env: Environment, st: State, request: Request)
    requires env.Valid() && StateOk(env, st) && request.entity in st.entities && Admit(env, st, request) == None
    requires request.entityGeneration == st.entities[request.entity].current && Publish(env, st, request).1.Rejected?
    ensures var before, after := st.entities[request.entity], Publish(env, st, request).0;
            && after == PutEntity(st, request.entity, after.entities[request.entity])
            && SameHeader(before, after.entities[request.entity])
            && if RefusedUnseen(env, st, request) then Unmoved(before, after.entities[request.entity])
               else Grew(before, after.entities[request.entity])
  {
    hide Admit, ApplyRequest, ContentOf, ClassifyReplay, CheckGenerations, Commit, RefusedAtOnce, Grew, Unmoved;
    var grant, entity := st.authorities[request.scope], st.entities[request.entity];
    CommitIsCommitted(env, st, request);
    assert EntityOk(ContextOf(env, st), request.entity, entity);
    assert st.entities[request.entity := entity] == st.entities;
    UnmovedSelf(entity);
    if ApplyRequest(env, st.epoch, grant, entity, request).error.Some? {
      RefusedRequestShows(env, ContextOf(env, st), st.epoch, grant, entity, request);
      ApplyRequestKeepsHeader(env, st.epoch, grant, entity, request);
    }
  }

  lemma ResolvedAt(c: Id, entry: Entry)
    requires Synced(c, entry)
    ensures entry.resolution.Some? && entry.resolution.value.generation == entry.generation
    ensures entry.resolution.value.capability == c
  {
    hide Filter;
  }

  lemma ResolutionTells(ctx: Context, a: Entity, b: Entity)
    requires EntriesOk(ctx, a) && EntriesOk(ctx, b) && Grew(a, b)
    ensures exists c :: (if c in a.capabilities then a.capabilities[c].resolution else None) !=
                        (if c in b.capabilities then b.capabilities[c].resolution else None)
  {
    hide Synced, EvidenceOk;
    var c :| c in b.capabilities
             && (c in a.capabilities ==> a.capabilities[c].generation < b.capabilities[c].generation);
    assert EntryOk(ctx, b, c, b.capabilities[c]);
    ResolvedAt(c, b.capabilities[c]);
    if c in a.capabilities {
      assert EntryOk(ctx, a, c, a.capabilities[c]);
      ResolvedAt(c, a.capabilities[c]);
    }
    assert (if c in a.capabilities then a.capabilities[c].resolution else None) !=
           (if c in b.capabilities then b.capabilities[c].resolution else None);
  }

  lemma UnmovedAnswersAlike(st: State, after: State, e: Id)
    requires e in st.entities && e in after.entities && after == PutEntity(st, e, after.entities[e])
    requires SameHeader(st.entities[e], after.entities[e]) && Unmoved(st.entities[e], after.entities[e])
    ensures SameAnswers(st, after)
  {
  }

  lemma GrownAnswersDiffer(ctx: Context, st: State, after: State, e: Id)
    requires e in st.entities && e in after.entities
    requires EntriesOk(ctx, st.entities[e]) && EntriesOk(ctx, after.entities[e])
             && Grew(st.entities[e], after.entities[e])
    ensures !SameAnswers(st, after)
  {
    hide EntriesOk, Grew;
    ResolutionTells(ctx, st.entities[e], after.entities[e]);
    var c :| (if c in st.entities[e].capabilities then st.entities[e].capabilities[c].resolution else None) !=
             (if c in after.entities[e].capabilities then after.entities[e].capabilities[c].resolution else None);
    assert Query(after, e, c) != Query(st, e, c);
  }

  /** A rejected publication leaves every query's answer as it was exactly when it was refused before
      it created, retired or applied anything. */
  lemma RejectionKeepsAnswersExactlyWhen(env: Environment, st: State, request: Request)
    requires env.Valid() && StateOk(env, st) && Publish(env, st, request).1.Rejected?
    ensures SameAnswers(st, Publish(env, st, request).0) <==> RefusedUnseen(env, st, request)
  {
    hide Admit, PublishLocated, StateOk, RefusedAtOnce, ClassifyReplay, CheckGenerations, ContentOf, Unmoved, Grew;
    var after := Publish(env, st, request).0;
    if Admit(env, st, request) == None {
      if request.entity in st.entities && request.entityGeneration == st.entities[request.entity].current {
        InPlaceAnswers(env, st, request);
      } else {
        MovedEntityShows(env, st, request);
      }
    }
  }

  lemma InPlaceAnswers(env: Environment, st: State, request: Request)
    requires env.Valid() && StateOk(env, st) && request.entity in st.entities && Admit(env, st, request) == None
    requires request.entityGeneration == st.entities[request.entity].current && Publish(env, st, request).1.Rejected?
    ensures SameAnswers(st, Publish(env, st, request).0) <==> RefusedUnseen(env, st, request)
  {
    hide Admit, Publish, RefusedUnseen, Unmoved, Grew, EntriesOk, SameAnswers;
    var after := Publish(env, st, request).0;
    RejectedInPlaceShows(env, st, request);
    PublishKeepsState(env, st, request);
    assert ContextOf(env, after) == ContextOf(env, st);
    assert EntityOk(ContextOf(env, st), request.entity, st.entities[request.entity]);
    assert EntityOk(ContextOf(env, st), request.entity, after.entities[request.entity]);
    if RefusedUnseen(env, st, request) {
      UnmovedAnswersAlike(st, after, request.entity);
    } else {
      GrownAnswersDiffer(ContextOf(env, st), st, after, request.entity);
    }
  }

  lemma MovedEntityShows(env: Environment, st: State, request: Request)
    requires Admit(env, st, request) == None && Publish(env, st, request).1.Rejected?
    requires request.entity in st.entities ==> request.entityGeneration != st.entities[request.entity].current
    ensures SameAnswers(st, Publish(env, st, request).0) <==> Locate(env, st, request).1.Some?
    ensures Locate(env, st, request).1.Some? ==> Publish(env, st, request).0 == st
    ensures RefusedUnseen(env, st, request) <==> Locate(env, st, request).1.Some?
  {
    hide Admit, ApplyRequest, ContentOf, ClassifyReplay, CheckGenerations, Commit, RefusedAtOnce;
    var after, located := Publish(env, st, request).0, Locate(env, st, request).0;
    if Locate(env, st, request).1 == None {
      CommitIsCommitted(env, located, request);
      ApplyRequestKeepsHeader(env, located.epoch, located.authorities[request.scope], located.entities[request.entity],
                              request);
      assert Query(after, request.entity, 0) != Query(st, request.entity, 0);
    }
  }

  // ----- the next refresh -----

  lemma UnmovedServesSame(a: Entity, b: Entity)
    requires Unmoved(a, b)
    ensures SortedResolutions(a.capabilities) == SortedResolutions(b.capabilities)
  {
  }

  /** The resolutions in a set tell which capabilities there are and at which generations. */
  lemma ServedTells(ctx: Context, a: Entity, b: Entity)
    requires EntriesOk(ctx, a) && EntriesOk(ctx, b)
    requires Views(SortedResolutions(a.capabilities)) == Views(SortedResolutions(b.capabilities))
    ensures !Grew(a, b)
  {
    hide Synced, EvidenceOk, Ascending;
    var x, y := SortedResolutions(a.capabilities), SortedResolutions(b.capabilities);
    assert |x| == |Views(x)| == |Views(y)| == |y|;
    forall c | c in b.capabilities
      ensures c in a.capabilities && a.capabilities[c].generation == b.capabilities[c].generation
    {
      assert c in Ascending(b.capabilities.Keys);
      var i :| 0 <= i < |y| && Ascending(b.capabilities.Keys)[i] == c;
      var d := Ascending(a.capabilities.Keys)[i];
      assert d in Ascending(a.capabilities.Keys);
      assert EntryOk(ctx, a, d, a.capabilities[d]) && EntryOk(ctx, b, c, b.capabilities[c]);
      ResolvedAt(d, a.capabilities[d]);
      ResolvedAt(c, b.capabilities[c]);
      assert Views(x)[i] == Views(y)[i];
    }
  }

  lemma QuietRefresh(entity: Entity, mark: Mark, registryGeneration: nat)
    requires Quiet(entity, mark.selector)
    ensures Refresh(MarkAll(entity, mark), registryGeneration) == Refresh(entity, registryGeneration)
  {
    hide Quiet;
    MarkingChanges(entity, mark);
  }

  /** Fencing a boot that no record of the entity is current for refreshes the entity as it stands. */
  lemma FenceRefreshes(env: Environment, st: State, boot: Id, owner: Id, reason: Id, e: Id)
    requires e in st.entities && boot != 0 && boot !in st.fencedBoots
    requires Quiet(st.entities[e], BootMark(boot, reason).selector)
    requires FenceWorkerBoot(env, st, boot, owner, reason).1 == None
    ensures e in FenceWorkerBoot(env, st, boot, owner, reason).0.entities
    ensures FenceWorkerBoot(env, st, boot, owner, reason).0.entities[e] ==
            Refresh(st.entities[e], st.registryGeneration)
  {
    hide Quiet, Refresh, MarkAll;
    QuietRefresh(st.entities[e], BootMark(boot, reason), st.registryGeneration);
  }

  /** A publication makes no record of another boot current. */
  lemma OtherBootsStayQuiet(env: Environment, st: State, request: Request, e: Id, boot: Id, reason: Id)
    requires e in st.entities && e in Publish(env, st, request).0.entities && boot != request.boot
    requires Quiet(st.entities[e], BootMark(boot, reason).selector)
    ensures Quiet(Publish(env, st, request).0.entities[e], BootMark(boot, reason).selector)
  {
    hide Publish;
    var before, after := st.entities, Publish(env, st, request).0.entities;
    Authorship.PublishAddsOwnRecords(env, st, request);
    forall c, r | c in after[e].capabilities && r in after[e].capabilities[c].evidence
      ensures !Selects(BootMark(boot, reason).selector, r)
    {
      assert Authorship.ListFrom(Authorship.Held(before, e, c), Authorship.Held(after, e, c),
                                 Authorship.OriginOf(env, st, request));
      if Authorship.Inherits(Authorship.Held(before, e, c), r) {
        var x :| x in Authorship.Held(before, e, c) && Authorship.SameObservation(x, r);
        assert c in before[e].capabilities && !Selects(BootMark(boot, reason).selector, x);
      }
    }
  }

  /** Fencing an unrelated boot after a rejection serves another set than it would have served without
      the rejected request, exactly when the rejection changed an answer; either way the set
      generation of a known entity generation stays. */
  lemma NextFenceServesExactly(env: Environment, st: State, request: Request, boot: Id, owner: Id, reason: Id)
    requires env.Valid() && StateOk(env, st) && Publish(env, st, request).1.Rejected?
    requires request.entity in st.entities && boot != 0 && boot !in st.fencedBoots && boot != request.boot
    requires Quiet(st.entities[request.entity], BootMark(boot, reason).selector)
    requires FenceWorkerBoot(env, st, boot, owner, reason).1 == None
    requires FenceWorkerBoot(env, Publish(env, st, request).0, boot, owner, reason).1 == None
    ensures request.entity in FenceWorkerBoot(env, st, boot, owner, reason).0.entities
    ensures request.entity in FenceWorkerBoot(env, Publish(env, st, request).0, boot, owner, reason).0.entities
    ensures var without := FenceWorkerBoot(env, st, boot, owner, reason).0.entities[request.entity];
            var after := Publish(env, st, request).0;
            var with := FenceWorkerBoot(env, after, boot, owner, reason).0.entities[request.entity];
            && (with.published == without.published <==> RefusedUnseen(env, st, request))
            && (with.current == without.current ==> with.setGeneration == without.setGeneration)
            && (with.current == without.current ==>
                  (DigestOf(with.published) == DigestOf(without.published) <==> RefusedUnseen(env, st, request)))
  {
    hide Publish, FenceWorkerBoot, Admit, StateOk, RefusedUnseen, Quiet, BootMark;
    var e, after := request.entity, Publish(env, st, request).0;
    KnownEntityStays(env, st, request);
    FenceRefreshes(env, st, boot, owner, reason, e);
    OtherBootsStayQuiet(env, st, request, e, boot, reason);
    FenceRefreshes(env, after, boot, owner, reason, e);
    RefreshServesExactly(env, st, request);
  }

  lemma KnownEntityStays(env: Environment, st: State, request: Request)
    requires Publish(env, st, request).1.Rejected? && request.entity in st.entities
    ensures request.entity in Publish(env, st, request).0.entities
    ensures Publish(env, st, request).0.fencedBoots == st.fencedBoots
  {
    hide Admit, ApplyRequest, ContentOf, ClassifyReplay, CheckGenerations, Commit;
    if Admit(env, st, request) == None && Locate(env, st, request).1 == None {
      CommitIsCommitted(env, Locate(env, st, request).0, request);
    }
  }

  lemma RefreshServesExactly(env: Environment, st: State, request: Request)
    requires env.Valid() && StateOk(env, st) && Publish(env, st, request).1.Rejected? && request.entity in st.entities
    ensures request.entity in Publish(env, st, request).0.entities
    ensures var after := Publish(env, st, request).0;
            var without := Refresh(st.entities[request.entity], st.registryGeneration);
            var with := Refresh(after.entities[request.entity], after.registryGeneration);
            && (with.published == without.published <==> RefusedUnseen(env, st, request))
            && (with.current == without.current ==> with.setGeneration == without.setGeneration)
            && (with.current == without.current ==>
                  (DigestOf(with.published) == DigestOf(without.published) <==> RefusedUnseen(env, st, request)))
  {
    hide Admit, Publish, StateOk, RefusedUnseen, Unmoved, Grew, Views, SortedResolutions;
    KnownEntityStays(env, st, request);
    if Admit(env, st, request).Some? {
      RefusedAtTheDoor(env, st, request);
    } else if request.entityGeneration == st.entities[request.entity].current {
      InPlaceRefresh(env, st, request);
    } else {
      MovedEntityShows(env, st, request);
      if Locate(env, st, request).1 == None {
        RetiredRefresh(env, st, request);
      }
    }
  }

  lemma RefusedAtTheDoor(env: Environment, st: State, request: Request)
    requires Admit(env, st, request).Some?
    ensures Publish(env, st, request).0 == st && RefusedUnseen(env, st, request)
  {
  }

  lemma InPlaceRefresh(env: Environment, st: State, request: Request)
    requires env.Valid() && StateOk(env, st) && request.entity in st.entities && Admit(env, st, request) == None
    requires request.entityGeneration == st.entities[request.entity].current && Publish(env, st, request).1.Rejected?
    ensures request.entity in Publish(env, st, request).0.entities
    ensures var after := Publish(env, st, request).0;
            var without := Refresh(st.entities[request.entity], st.registryGeneration);
            var with := Refresh(after.entities[request.entity], after.registryGeneration);
            && with.current == without.current && with.setGeneration == without.setGeneration
            && (with.published == without.published <==> RefusedUnseen(env, st, request))
            && (DigestOf(with.published) == DigestOf(without.published) <==> RefusedUnseen(env, st, request))
  {
    hide Admit, Publish, RefusedUnseen, Unmoved, Grew, EntriesOk, SortedResolutions, Views;
    var e, after := request.entity, Publish(env, st, request).0;
    RejectedInPlaceShows(env, st, request);
    PublishKeepsState(env, st, request);
    assert EntityOk(ContextOf(env, st), e, st.entities[e]) && EntityOk(ContextOf(env, st), e, after.entities[e]);
    if RefusedUnseen(env, st, request) {
      UnmovedServesSame(st.entities[e], after.entities[e]);
    } else if Views(SortedResolutions(st.entities[e].capabilities)) ==
              Views(SortedResolutions(after.entities[e].capabilities)) {
      ServedTells(ContextOf(env, st), st.entities[e], after.entities[e]);
    }
  }

  lemma RetiredRefresh(env: Environment, st: State, request: Request)
    requires env.Valid() && StateOk(env, st) && request.entity in st.entities && Admit(env, st, request) == None
    requires request.entityGeneration != st.entities[request.entity].current && Publish(env, st, request).1.Rejected?
    requires Locate(env, st, request).1 == None
    ensures request.entity in Publish(env, st, request).0.entities
    ensures var after := Publish(env, st, request).0;
            && after.entities[request.entity].current != st.entities[request.entity].current
            && after.entities[request.entity].bound != st.entities[request.entity].bound
  {
    hide Admit, ApplyRequest, ContentOf, ClassifyReplay, CheckGenerations, Commit, EntriesOk;
    var located := Locate(env, st, request).0;
    assert EntityOk(ContextOf(env, st), request.entity, st.entities[request.entity]);
    CommitIsCommitted(env, located, request);
    ApplyRequestKeepsHeader(env, located.epoch, located.authorities[request.scope], located.entities[request.entity],
                            request);
  }

  // ----- the part before the refused claim -----

  function Size(request: Request): nat {
    if request.mode.Incremental? then |request.edits| else |request.claims|
  }

  /** The publication with its first k claims or edits only. */
  function Part(request: Request, k: nat): Request
    requires k <= Size(request)
  {
    if request.mode.Incremental? then request.(edits := request.edits[..k]) else request.(claims := request.claims[..k])
  }

  /** The first k claims or edits are accepted and the next one is refused. */
  ghost predicate StopsAt(env: Environment, epoch: nat, grant: Grant, entity: Entity, request: Request, k: nat) {
    && k < Size(request)
    && ApplyRequest(env, epoch, grant, entity, Part(request, k)).error == None
    && ApplyRequest(env, epoch, grant, entity, Part(request, k + 1)).error.Some?
  }

  /** Steps 1 to 9 let the request through. */
  ghost predicate ReachesStep10(env: Environment, st: State, request: Request) {
    && Admit(env, st, request) == None
    && Locate(env, st, request).1 == None
    && !Remembers(st.publishers[request.Instance()].replay, request.attempt)
    && CheckGenerations(StartOf(env, st, request), request) == None
  }

  lemma {:induction false} ClaimsStop(options: Options, author: Author, entity: Entity, claims: seq<Claim>, reason: Id)
    returns (k: nat)
    requires options.maxEvidence >= 1 && ApplyClaims(options, author, entity, claims, reason).error.Some?
    ensures k < |claims| && ApplyClaims(options, author, entity, claims[..k], reason).error == None
    ensures ApplyClaims(options, author, entity, claims[..k + 1], reason) ==
            ApplyClaims(options, author, entity, claims, reason)
    ensures Unmoved(ApplyClaims(options, author, entity, claims[..k], reason).entity,
                    ApplyClaims(options, author, entity, claims, reason).entity)
    decreases |claims|
  {
    hide ApplyClaim, Unmoved;
    var first := ApplyClaim(options, author, entity, claims[0], reason);
    if first.error.Some? {
      RefusedClaimIsUnmoved(options, author, entity, claims[0], reason);
      k := 0;
    } else {
      var n := ClaimsStop(options, author, first.entity, claims[1..], reason);
      k := n + 1;
      assert claims[..k][1..] == claims[1..][..n] && claims[..k + 1][1..] == claims[1..][..n + 1];
    }
  }

  lemma {:induction false} EditsStop(options: Options, author: Author, entity: Entity, edits: seq<Edit>, reason: Id,
                                     superseded: bool)
    returns (k: nat)
    requires options.maxEvidence >= 1 && ApplyEdits(options, author, entity, edits, reason, superseded).error.Some?
    ensures k < |edits| && ApplyEdits(options, author, entity, edits[..k], reason, superseded).error == None
    ensures ApplyEdits(options, author, entity, edits[..k + 1], reason, superseded) ==
            ApplyEdits(options, author, entity, edits, reason, superseded)
    ensures Unmoved(ApplyEdits(options, author, entity, edits[..k], reason, superseded).entity,
                    ApplyEdits(options, author, entity, edits, reason, superseded).entity)
    decreases |edits|
  {
    hide ApplyClaim, Unmoved, MarkAll, Withdraw;
    var first := ApplyEdit(options, author, entity, edits[0], reason, superseded);
    if first.error.Some? {
      RefusedClaimIsUnmoved(options, author, entity, EditClaim(edits[0]), reason);
      k := 0;
    } else {
      var n := EditsStop(options, author, first.entity, edits[1..], reason,
                         superseded || edits[0].operation.SupersedeSourceEvidence?);
      k := n + 1;
      assert edits[..k][1..] == edits[1..][..n] && edits[..k + 1][1..] == edits[1..][..n + 1];
    }
  }

  /** A refused observation or edit list stops at one place, and the part before it moves the entity
      exactly as far as the whole request does. */
  lemma RequestStops(env: Environment, epoch: nat, grant: Grant, entity: Entity, request: Request) returns (k: nat)
    requires env.Valid() && !request.mode.FullSnapshot? && ApplyRequest(env, epoch, grant, entity, request).error.Some?
    ensures StopsAt(env, epoch, grant, entity, request, k)
    ensures Unmoved(ApplyRequest(env, epoch, grant, entity, Part(request, k)).entity,
                    ApplyRequest(env, epoch, grant, entity, request).entity)
  {
    hide ApplyClaims, ApplyEdits, Unmoved;
    var author := AuthorOf(epoch, request);
    if request.mode.Incremental? {
      k := EditsStop(env.options, author, entity, request.edits, request.reason, false);
    } else {
      var covered := Covered(request.claims, request.coverage);
      k := ClaimsStop(env.options, author, entity, covered, request.reason);
      assert covered[..k] == Covered(request.claims[..k], request.coverage);
      assert covered[..k + 1] == Covered(request.claims[..k + 1], request.coverage);
    }
  }

  lemma {:induction false} CheckedClaimsPrefix(env: Environment, grant: Grant, claims: seq<Claim>, seen: set<Id>,
                                               k: nat)
    requires k <= |claims| && CheckClaims(env, grant, claims, seen) == None
    ensures CheckClaims(env, grant, claims[..k], seen) == None
    decreases k
  {
    if k > 0 {
      CheckedClaimsPrefix(env, grant, claims[1..], seen + {claims[0].capability}, k - 1);
      assert claims[..k][1..] == claims[1..][..k - 1];
    }
  }

  lemma {:induction false} CheckedEditsPrefix(env: Environment, grant: Grant, edits: seq<Edit>, k: nat)
    requires k <= |edits| && CheckEdits(env, grant, edits) == None
    ensures CheckEdits(env, grant, edits[..k]) == None
    decreases k
  {
    if k > 0 {
      CheckedEditsPrefix(env, grant, edits[1..], k - 1);
      assert edits[..k][1..] == edits[1..][..k - 1];
    }
  }

  lemma PartIsAdmitted(env: Environment, st: State, request: Request, k: nat)
    requires Admit(env, st, request) == None && 0 < k <= Size(request) && !request.mode.FullSnapshot?
    ensures Admit(env, st, Part(request, k)) == None
  {
    hide CheckClaims, CheckEdits;
    var grant := st.authorities[request.scope];
    if request.mode.Incremental? {
      CheckedEditsPrefix(env, grant, request.edits, k);
    } else {
      CheckedClaimsPrefix(env, grant, request.claims, {}, k);
    }
  }

  lemma PartIsCommitted(env: Environment, st: State, request: Request, k: nat)
    requires ReachesStep10(env, st, request) && !request.mode.FullSnapshot? && 0 < k <= Size(request)
    requires ApplyRequest(env, st.epoch, st.authorities[request.scope], StartOf(env, st, request),
                          Part(request, k)).error == None
    ensures var (after, outcome) := Publish(env, st, Part(request, k));
            && outcome.Committed? && request.entity in after.entities
            && after.entities[request.entity].capabilities ==
               ApplyRequest(env, st.epoch, st.authorities[request.scope], StartOf(env, st, request),
                            Part(request, k)).entity.capabilities
  {
    hide Admit, ApplyRequest, ContentOf, ClassifyReplay, SemanticChange, Remembers;
    var part := Part(request, k);
    PartIsAdmitted(env, st, request, k);
    ArrivalOrder.NewAttempt(st.publishers[request.Instance()].replay, request.attempt,
                            ContentOf(part, st.authorities[request.scope]));
    assert Locate(env, st, part) == Locate(env, st, request)
           && CheckGenerations(StartOf(env, st, request), part) == None;
  }

  lemma WholeIsRefused(env: Environment, st: State, request: Request)
    requires ReachesStep10(env, st, request) && Publish(env, st, request).1.Rejected?
    ensures var applied := ApplyRequest(env, st.epoch, st.authorities[request.scope], StartOf(env, st, request),
                                        request);
            && applied.error.Some? && request.entity in Publish(env, st, request).0.entities
            && Publish(env, st, request).0.entities[request.entity] == applied.entity
  {
    hide Admit, ApplyRequest, ContentOf, ClassifyReplay, CheckGenerations, Remembers, Commit;
    ArrivalOrder.NewAttempt(st.publishers[request.Instance()].replay, request.attempt,
                            ContentOf(request, st.authorities[request.scope]));
    CommitIsCommitted(env, Locate(env, st, request).0, request);
  }

  /** A partial observation or an edit list that is rejected for lack of room answers queries as the
      part before the refused claim answers them when it is committed. */
  lemma RejectedAnswersLikeCommitted(env: Environment, st: State, request: Request) returns (k: nat)
    requires env.Valid() && !request.mode.FullSnapshot?
    requires ReachesStep10(env, st, request) && Publish(env, st, request).1.Rejected?
    ensures StopsAt(env, st.epoch, st.authorities[request.scope], StartOf(env, st, request), request, k)
    ensures request.entity in Publish(env, st, request).0.entities
    ensures k > 0 ==>
              var (part, outcome) := Publish(env, st, Part(request, k));
              && outcome.Committed? && request.entity in part.entities
              && Unmoved(part.entities[request.entity], Publish(env, st, request).0.entities[request.entity])
    ensures k == 0 ==> Unmoved(StartOf(env, st, request), Publish(env, st, request).0.entities[request.entity])
  {
    hide Publish, ApplyRequest, Unmoved, Admit;
    var grant, start := st.authorities[request.scope], StartOf(env, st, request);
    WholeIsRefused(env, st, request);
    k := RequestStops(env, st.epoch, grant, start, request);
    if k > 0 {
      PartIsCommitted(env, st, request, k);
      SameCapabilitiesUnmoved(ApplyRequest(env, st.epoch, grant, start, Part(request, k)).entity,
                              Publish(env, st, Part(request, k)).0.entities[request.entity],
                              Publish(env, st, request).0.entities[request.entity]);
    } else {
      EmptyPart(env, st.epoch, grant, start, request);
    }
  }

  lemma SameCapabilitiesUnmoved(a: Entity, b: Entity, c: Entity)
    requires a.capabilities == b.capabilities && Unmoved(a, c)
    ensures Unmoved(b, c)
  {
  }

  lemma EmptyPart(env: Environment, epoch: nat, grant: Grant, entity: Entity, request: Request)
    requires !request.mode.FullSnapshot?
    ensures ApplyRequest(env, epoch, grant, entity, Part(request, 0)).entity == entity
  {
  }
}
