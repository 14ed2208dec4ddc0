/** What a set generation proves. It moves with every semantic commit, but a fence, an epoch advance or
    an invalidation serves another set under the generation there was. */
module SetGenerations {
  import opened Sequences
  import opened Evidence
  import opened RegistryState
  import opened EvidenceInvariant
  import opened RegistrySteps
  import opened RegistryInvariant
  import opened Publications
  import opened Rejections
  import opened PartialSets
  import opened Runs
  import PartialViews

  // ----- a served set is never ahead of its entity -----

  ghost predicate Behind(r: Resolution, entity: Entity) {
    r.capability in entity.capabilities && r.generation <= entity.capabilities[r.capability].generation
  }

  ghost predicate ServedBehind(entity: Entity) {
    entity.published.Some? ==> forall r :: r in entity.published.value.resolutions ==> Behind(r, entity)
  }

  ghost predicate AllBehind(st: State) {
    forall e :: e in st.entities ==> ServedBehind(st.entities[e])
  }

  lemma RisingStaysBehind(a: Entity, b: Entity)
    requires ServedBehind(a) && Rises(a, b) && b.published == a.published
    ensures ServedBehind(b)
  {
  }

  lemma SortedAreBehind(ctx: Context, entity: Entity)
    requires EntriesOk(ctx, entity)
    ensures forall r :: r in SortedResolutions(entity.capabilities) ==> Behind(r, entity)
  {
    hide Synced, EvidenceOk, Ascending;
    var served, ids := SortedResolutions(entity.capabilities), Ascending(entity.capabilities.Keys);
    forall r | r in served ensures Behind(r, entity) {
      var i :| 0 <= i < |served| && served[i] == r;
      assert ids[i] in ids;
      assert EntryOk(ctx, entity, ids[i], entity.capabilities[ids[i]]);
      ResolvedAt(ids[i], entity.capabilities[ids[i]]);
    }
  }

  lemma RefreshedIsBehind(ctx: Context, entity: Entity)
    requires EntriesOk(ctx, entity) && entity.published.Some?
    requires entity.published.value.resolutions == SortedResolutions(entity.capabilities)
    ensures ServedBehind(entity)
  {
    SortedAreBehind(ctx, entity);
  }

  /** The served set is the one the cached resolutions make up. */
  ghost predicate Fresh(entity: Entity) {
    entity.published.Some? && entity.published.value.resolutions == SortedResolutions(entity.capabilities)
  }

  /** An entity serves no set, or one made up anew, or the old one while its capabilities only rose. */
  ghost predicate Moves(st: State, e: Id, after: Entity) {
    || after.published.None?
    || Fresh(after)
    || (e in st.entities && after.published == st.entities[e].published && Rises(st.entities[e], after))
  }

  lemma MovedIsBehind(ctx: Context, st: State, e: Id, after: Entity)
    requires EntriesOk(ctx, after) && Moves(st, e, after) && (e in st.entities ==> ServedBehind(st.entities[e]))
    ensures ServedBehind(after)
  {
    hide EntriesOk, Rises;
    if Fresh(after) {
      SortedAreBehind(ctx, after);
    } else if after.published.Some? {
      RisingStaysBehind(st.entities[e], after);
    }
  }

  lemma RequestRises(env: Environment, epoch: nat, grant: Grant, entity: Entity, request: Request)
    ensures Rises(entity, ApplyRequest(env, epoch, grant, entity, request).entity)
  {
    hide ApplyClaims, ApplyEdits, ClearForSnapshot, Rises, Grew;
    var author := AuthorOf(epoch, request);
    match request.mode
    case FullSnapshot =>
      var cleared := ClearForSnapshot(entity, grant, request);
      ClearingRises(entity, grant, request);
      ApplyClaimsConcat(env.options, author, cleared, Covered(request.claims, request.coverage),
                        AbsenceClaims(env, grant, request), request.reason);
      ClaimsRise(env.options, author, cleared, SnapshotClaims(env, grant, request), request.reason);
      RisesComposes(entity, cleared, ApplyClaims(env.options, author, cleared, SnapshotClaims(env, grant, request),
                                                 request.reason).entity);
    case PartialObservation =>
      ClaimsRise(env.options, author, entity, Covered(request.claims, request.coverage), request.reason);
    case Incremental => EditsRise(env.options, author, entity, request.edits, request.reason, false);
  }

  lemma ClearingRises(entity: Entity, grant: Grant, request: Request)
    ensures Rises(entity, ClearForSnapshot(entity, grant, request))
  {
    hide MarkAll, Rises, Grew, Quiet;
    var others := Mark(LiveProcessBoundOfOthers(request.Instance()), Superseded, request.reason);
    var own := Mark(LiveOf(request.Key()), Superseded, request.reason);
    var first := if grant.exclusive then MarkAll(entity, others) else entity;
    RisesSelf(entity);
    MarkingChanges(entity, others);
    MarkingChanges(first, own);
    RisesComposes(entity, first, MarkAll(first, own));
  }

  lemma CommitIsFresh(env: Environment, st: State, before: Entity, after: Entity, request: Request)
    requires request.Instance() in st.publishers && request.scope in st.authorities
    ensures var committed := Commit(env, st, before, after, request).0.entities;
            request.entity in committed && Fresh(committed[request.entity])
            && committed == st.entities[request.entity := committed[request.entity]]
  {
  }

  lemma PublishMoves(env: Environment, st: State, request: Request, e: Id)
    requires e in Publish(env, st, request).0.entities
    ensures Moves(st, e, Publish(env, st, request).0.entities[e])
  {
    hide Admit, ApplyRequest, ContentOf, ClassifyReplay, CheckGenerations, Commit, Rises, Fresh;
    if e in st.entities {
      RisesSelf(st.entities[e]);
    }
    if Admit(env, st, request) == None {
      var (located, error) := Locate(env, st, request);
      if error == None {
        var grant, start := located.authorities[request.scope], located.entities[request.entity];
        var applied := ApplyRequest(env, located.epoch, grant, start, request);
        RequestRises(env, located.epoch, grant, start, request);
        ApplyRequestKeepsHeader(env, located.epoch, grant, start, request);
        CommitIsFresh(env, located, start, applied.entity, request);
      }
    }
  }

  lemma MarkingMoves(st: State, e: Id, mark: Mark, registryGeneration: nat)
    requires e in st.entities
    ensures Moves(st, e, Refresh(MarkAll(st.entities[e], mark), registryGeneration))
    ensures Moves(st, e, MarkAll(st.entities[e], mark))
  {
    MarkingChanges(st.entities[e], mark);
  }

  lemma StepMoves(env: Environment, st: State, step: Step, e: Id)
    requires e in Perform(env, st, step).entities
    ensures Moves(st, e, Perform(env, st, step).entities[e])
  {
    hide Publish, MarkAll, Rises, SeemsChanged, LoadEntities, Fresh;
    if e in st.entities {
      RisesSelf(st.entities[e]);
    }
    match step
    case Submit(request) => PublishMoves(env, st, request, e);
    case FenceBoot(boot, owner, reason) =>
      if e in st.entities {
        MarkingMoves(st, e, BootMark(boot, reason), st.registryGeneration);
      }
    case Advance(boots, reason) => MarkingMoves(st, e, EpochMark(reason), st.registryGeneration);
    case Observe(entity, generation) => ObservationMoves(env, st, entity, generation, e);
    case Invalidate(entity, generation, reason) => InvalidationMoves(st, entity, generation, reason, e);
    case InvalidateSourceEvidence(source, reason) =>
      MarkingMoves(st, e, SourceMark(source, reason), st.registryGeneration);
    case Restart(payload) => LoadMoves(payload.entities, payload.registryGeneration, e);
    case _ =>
  }

  lemma RefreshIsFresh(entity: Entity, registryGeneration: nat)
    ensures Fresh(Refresh(entity, registryGeneration))
  {
  }

  lemma InvalidationMoves(st: State, id: Id, generation: nat, reason: Id, e: Id)
    requires e in st.entities
    ensures e in InvalidateEntity(st, id, generation, reason).0.entities
    ensures Moves(st, e, InvalidateEntity(st, id, generation, reason).0.entities[e])
  {
    hide MarkAll, Rises, SeemsChanged, Refresh, Fresh;
    RisesSelf(st.entities[e]);
    if id == e {
      var marked := MarkAll(st.entities[e], EntityMark(reason));
      MarkingMoves(st, e, EntityMark(reason), st.registryGeneration);
      RefreshIsFresh(marked, st.registryGeneration);
      RefreshIsFresh(marked.(invalidated := true, reason := reason), st.registryGeneration);
    }
  }

  lemma ObservationMoves(env: Environment, st: State, id: Id, generation: nat, e: Id)
    requires e in ObserveGeneration(env, st, id, generation).0.entities
    ensures Moves(st, e, ObserveGeneration(env, st, id, generation).0.entities[e])
  {
    hide Fresh;
  }

  lemma {:induction false} LoadMoves(stored: seq<StoredEntity>, registryGeneration: nat, e: Id)
    requires e in LoadEntities(stored, registryGeneration)
    ensures Fresh(LoadEntities(stored, registryGeneration)[e])
  {
    hide Fresh, LoadEntity;
    var n := |stored| - 1;
    LoadedIsFresh(stored[n], registryGeneration);
    if e in LoadEntities(stored[..n], registryGeneration) {
      LoadMoves(stored[..n], registryGeneration, e);
    }
  }

  lemma LoadedIsFresh(stored: StoredEntity, registryGeneration: nat)
    ensures Fresh(LoadEntity(stored, registryGeneration))
  {
  }

  /** A step keeps every served set no further than its entity. */
  lemma StepKeepsBehind(env: Environment, st: State, step: Step)
    requires env.Valid() && StateOk(env, st) && RegistrySteps.Enabled(st, step) && AllBehind(st)
    ensures AllBehind(Perform(env, st, step))
  {
    hide Perform, RegistrySteps.Enabled, ServedBehind, Moves, EntriesOk;
    PerformKeepsState(env, st, step);
    var after := Perform(env, st, step);
    forall e | e in after.entities ensures ServedBehind(after.entities[e]) {
      assert EntityOk(ContextOf(env, after), e, after.entities[e]);
      StepMoves(env, st, step, e);
      MovedIsBehind(ContextOf(env, after), st, e, after.entities[e]);
    }
  }

  lemma {:induction false} RunKeepsBehind(env: Environment, st: State, steps: seq<Step>)
    requires env.Valid() && StateOk(env, st) && IsRun(env, st, steps) && AllBehind(st)
    ensures AllBehind(Run(env, st, steps))
    decreases |steps|
  {
    hide Perform, StateOk, AllBehind, RegistrySteps.Enabled;
    if steps != [] {
      StepKeepsBehind(env, st, steps[0]);
      PerformKeepsState(env, st, steps[0]);
      RunKeepsBehind(env, Perform(env, st, steps[0]), steps[1..]);
    }
  }

  // ----- what a matching set generation proves -----

  /** The mark with which a step refreshes the entity, if it does. */
  ghost function RefreshMark(env: Environment, st: State, step: Step, e: Id): Option<Mark>
    requires e in st.entities
  {
    match step
    case FenceBoot(boot, _, reason) =>
      if boot != 0 && boot !in st.fencedBoots && MakeRoom(env, st).1 == None then Some(BootMark(boot, reason)) else None
    case Advance(_, reason) => Some(EpochMark(reason))
    case Invalidate(id, generation, reason) =>
      if id == e && generation != 0 && generation == st.entities[e].current
         && SeemsChanged(st.entities[e], MarkAll(st.entities[e], EntityMark(reason)))
      then Some(EntityMark(reason)) else None
    case InvalidateSourceEvidence(source, reason) =>
      if source != 0 && st.entities[e].capabilities != map[] then Some(SourceMark(source, reason)) else None
    case _ => None
  }

  ghost predicate ServesItsDigest(entity: Entity) {
    DigestOf(entity.published) == Some(Views(SortedResolutions(entity.capabilities)))
  }

  lemma BehindIsNotGrown(ctx: Context, entity: Entity, grown: Entity)
    requires EntriesOk(ctx, grown) && ServedBehind(entity) && entity.published.Some?
    requires Views(entity.published.value.resolutions) == Views(SortedResolutions(grown.capabilities))
    ensures !Grew(entity, grown)
  {
    hide Synced, EvidenceOk, Ascending;
    var x, y := entity.published.value.resolutions, SortedResolutions(grown.capabilities);
    assert |x| == |Views(x)| == |Views(y)| == |y|;
    forall c | c in grown.capabilities
      ensures c in entity.capabilities && entity.capabilities[c].generation >= grown.capabilities[c].generation
    {
      assert c in Ascending(grown.capabilities.Keys);
      var i :| 0 <= i < |y| && Ascending(grown.capabilities.Keys)[i] == c;
      assert EntryOk(ctx, grown, c, grown.capabilities[c]);
      ResolvedAt(c, grown.capabilities[c]);
      assert Views(x)[i] == Views(y)[i];
      assert Behind(x[i], entity);
    }
  }

  /** A refresh leaves the digest exactly when the set was up to date and the mark selects nothing. */
  lemma RefreshKeepsDigestExactly(ctx: Context, entity: Entity, mark: Mark, registryGeneration: nat)
    requires EntriesOk(ctx, entity) && ServedBehind(entity) && !mark.to.Current?
    ensures DigestOf(Refresh(MarkAll(entity, mark), registryGeneration).published) == DigestOf(entity.published) <==>
            ServesItsDigest(entity) && Quiet(entity, mark.selector)
  {
    hide EntriesOk, ServedBehind, MarkAll, Quiet, Grew, Rises, Views, SortedResolutions;
    var marked := MarkAll(entity, mark);
    MarkAllKeepsEntries(ctx, entity, mark);
    MarkingChanges(entity, mark);
    if entity.published.Some?
       && Views(entity.published.value.resolutions) == Views(SortedResolutions(marked.capabilities)) {
      BehindIsNotGrown(ctx, entity, marked);
    }
  }

  lemma SameSetGenerationSubmitted(env: Environment, st: State, request: Request, e: Id)
    requires e in st.entities && e in Publish(env, st, request).0.entities
    requires Publish(env, st, request).0.entities[e].current == st.entities[e].current
    requires Publish(env, st, request).0.entities[e].setGeneration == st.entities[e].setGeneration
    ensures DigestOf(Publish(env, st, request).0.entities[e].published) == DigestOf(st.entities[e].published)
  {
    hide Admit, ApplyRequest, ContentOf, ClassifyReplay, CheckGenerations, Views, SortedResolutions;
    if Admit(env, st, request) == None {
      var (located, error) := Locate(env, st, request);
      if error == None {
        ApplyRequestKeepsHeader(env, located.epoch, located.authorities[request.scope],
                                located.entities[request.entity],
                                request);
      }
    }
  }

  lemma MarkingKeepsServed(entity: Entity, mark: Mark)
    ensures MarkAll(entity, mark).published == entity.published
  {
  }

  lemma FenceAndDigest(env: Environment, st: State, boot: Id, owner: Id, reason: Id, e: Id)
    requires StateOk(env, st) && AllBehind(st) && e in st.entities
    ensures e in FenceWorkerBoot(env, st, boot, owner, reason).0.entities
    ensures DigestOf(FenceWorkerBoot(env, st, boot, owner, reason).0.entities[e].published) ==
            DigestOf(st.entities[e].published) <==>
            var mark := RefreshMark(env, st, FenceBoot(boot, owner, reason), e);
            mark == None || (ServesItsDigest(st.entities[e]) && Quiet(st.entities[e], mark.value.selector))
  {
    hide MarkAll, ServesItsDigest, Quiet, Refresh, DigestOf, ServedBehind, EntriesOk;
    assert EntityOk(ContextOf(env, st), e, st.entities[e]);
    RefreshKeepsDigestExactly(ContextOf(env, st), st.entities[e], BootMark(boot, reason), st.registryGeneration);
  }

  lemma SourceAndDigest(env: Environment, st: State, source: Id, reason: Id, e: Id)
    requires StateOk(env, st) && AllBehind(st) && e in st.entities
    ensures e in InvalidateSource(st, source, reason).0.entities
    ensures DigestOf(InvalidateSource(st, source, reason).0.entities[e].published) == DigestOf(st.entities[e].published)
            <==>
            var mark := RefreshMark(env, st, InvalidateSourceEvidence(source, reason), e);
            mark == None || (ServesItsDigest(st.entities[e]) && Quiet(st.entities[e], mark.value.selector))
  {
    hide MarkAll, ServesItsDigest, Quiet, Refresh, DigestOf, ServedBehind, EntriesOk;
    assert EntityOk(ContextOf(env, st), e, st.entities[e]);
    RefreshKeepsDigestExactly(ContextOf(env, st), st.entities[e], SourceMark(source, reason), st.registryGeneration);
  }

  lemma AdvanceAndDigest(env: Environment, st: State, boots: seq<Id>, reason: Id, e: Id)
    requires StateOk(env, st) && AllBehind(st) && e in st.entities
    ensures e in AdvanceEpoch(env, st, boots, reason).entities
    ensures DigestOf(AdvanceEpoch(env, st, boots, reason).entities[e].published) ==
            DigestOf(st.entities[e].published) <==>
            ServesItsDigest(st.entities[e]) && Quiet(st.entities[e], EpochMark(reason).selector)
  {
    hide MarkAll, ServesItsDigest, Quiet, Refresh, DigestOf, ServedBehind, EntriesOk;
    assert EntityOk(ContextOf(env, st), e, st.entities[e]);
    RefreshKeepsDigestExactly(ContextOf(env, st), st.entities[e], EpochMark(reason), st.registryGeneration);
  }

  lemma InvalidationAndDigest(env: Environment, st: State, id: Id, generation: nat, reason: Id, e: Id)
    requires env.Valid() && StateOk(env, st) && AllBehind(st) && e in st.entities
    ensures e in InvalidateEntity(st, id, generation, reason).0.entities
    ensures DigestOf(InvalidateEntity(st, id, generation, reason).0.entities[e].published) ==
            DigestOf(st.entities[e].published) <==>
            var mark := RefreshMark(env, st, Invalidate(id, generation, reason), e);
            mark == None || (ServesItsDigest(st.entities[e]) && Quiet(st.entities[e], mark.value.selector))
  {
    hide MarkAll, SeemsChanged, ServesItsDigest, Quiet, ServedBehind, EntriesOk, Views, SortedResolutions;
    assert EntityOk(ContextOf(env, st), e, st.entities[e]);
    MarkingKeepsServed(st.entities[e], EntityMark(reason));
    RefreshKeepsDigestExactly(ContextOf(env, st), st.entities[e], EntityMark(reason), st.registryGeneration);
  }

  /** Over a step other than a load that keeps an entity's generation and set generation, the digest of
      its set stays exactly when the step does not refresh the entity, or refreshes a set that is up to
      date and demotes none of its evidence. */
  lemma SameSetGenerationProvesExactly(env: Environment, st: State, step: Step, e: Id)
    requires env.Valid() && StateOk(env, st) && AllBehind(st) && !step.Restart? && e in st.entities
    requires e in Perform(env, st, step).entities
    requires Perform(env, st, step).entities[e].current == st.entities[e].current
    requires Perform(env, st, step).entities[e].setGeneration == st.entities[e].setGeneration
    ensures DigestOf(Perform(env, st, step).entities[e].published) == DigestOf(st.entities[e].published) <==>
            var mark := RefreshMark(env, st, step, e);
            mark == None || (ServesItsDigest(st.entities[e]) && Quiet(st.entities[e], mark.value.selector))
  {
    hide Publish, FenceWorkerBoot, AdvanceEpoch, InvalidateEntity, InvalidateSource, SeemsChanged, ServesItsDigest,
      Quiet, MakeRoom, DigestOf, StateOk, AllBehind;
    match step
    case Submit(request) => SameSetGenerationSubmitted(env, st, request, e);
    case FenceBoot(boot, owner, reason) => FenceAndDigest(env, st, boot, owner, reason, e);
    case Advance(boots, reason) => AdvanceAndDigest(env, st, boots, reason, e);
    case Invalidate(id, generation, reason) => InvalidationAndDigest(env, st, id, generation, reason, e);
    case InvalidateSourceEvidence(source, reason) => SourceAndDigest(env, st, source, reason, e);
    case _ =>
  }

  // ----- a set that changes under its set generation -----

  const SERVED_HALF: State := PutEntity(PartialViews.SERVING, 1, Refresh(PartialViews.Halfway(), 0))

  lemma ServedHalfIsOk()
    ensures StateOk(PartialViews.NARROW, SERVED_HALF) && AllBehind(SERVED_HALF)
  {
    hide Resolve, Publish, SortedResolutions;
    var half := PutEntity(PartialViews.SERVING, 1, PartialViews.Halfway());
    PartialViews.ServingIsOk();
    PartialViews.CrowdingIsRefused();
    PublishKeepsState(PartialViews.NARROW, PartialViews.SERVING, PartialViews.CROWDING);
    assert EntityOk(ContextOf(PartialViews.NARROW, half), 1, half.entities[1]);
    SortedAreBehind(ContextOf(PartialViews.NARROW, half), half.entities[1]);
  }

  /** Fencing the boot whose evidence the set rests on serves another set under the set generation there
      was, and a publication that expects that generation still finds it. */
  lemma SetChangesUnderItsGeneration(request: Request)
    requires request.expected == 1
    ensures StateOk(PartialViews.NARROW, SERVED_HALF)
    ensures var fenced := FenceWorkerBoot(PartialViews.NARROW, SERVED_HALF, 1, 1, 0).0;
            && 1 in fenced.entities && fenced.entities[1].setGeneration == SERVED_HALF.entities[1].setGeneration
            && DigestOf(fenced.entities[1].published) != DigestOf(SERVED_HALF.entities[1].published)
            && CheckGenerations(fenced.entities[1], request) == None
  {
    hide Resolve, StateOk, AllBehind, DigestOf, SortedResolutions;
    var entity := SERVED_HALF.entities[1];
    ServedHalfIsOk();
    FenceAndDigest(PartialViews.NARROW, SERVED_HALF, 1, 1, 0, 1);
    assert Selects(BootMark(1, 0).selector, PartialViews.SEEN);
    assert entity.capabilities[1].evidence == [PartialViews.SEEN];
    assert PartialViews.SEEN in entity.capabilities[1].evidence;
  }
}
