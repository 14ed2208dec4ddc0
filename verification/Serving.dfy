/** The set an entity serves to readers, and what a commit and every demotion leave of it, of the fences
    and of the counters. */
module Serving {
  import opened Sequences
  import opened Evidence
  import opened RegistryState
  import opened EvidenceInvariant
  import opened RegistrySteps
  import opened RegistryInvariant
  import opened LifecycleInvariant
  import opened Runs
  import opened Admission

  // ----- the served set -----

  /** Every capability once, in ascending order, with the resolution cached for it. */
  ghost predicate ListsCached(resolutions: seq<Resolution>, capabilities: map<Id, Entry>) {
    && |resolutions| == |capabilities|
    && (forall i, j :: 0 <= i < j < |resolutions| ==> resolutions[i].capability < resolutions[j].capability)
    && (forall i :: 0 <= i < |resolutions| ==>
          resolutions[i].capability in capabilities
          && capabilities[resolutions[i].capability].resolution == Some(resolutions[i]))
  }

  /** The entity serves what it caches, stamped with its generations and its invalidation. */
  ghost predicate Serves(entity: Entity, registryGeneration: nat) {
    && entity.published.Some?
    && var served := entity.published.value;
       && served.entityGeneration == entity.bound && served.setGeneration == entity.setGeneration
       && served.registryGeneration == registryGeneration
       && served.invalidated == entity.invalidated && served.reason == entity.reason
       && ListsCached(served.resolutions, entity.capabilities)
  }

  ghost predicate Cached(capabilities: map<Id, Entry>) {
    forall c :: c in capabilities ==>
      capabilities[c].resolution.Some? && capabilities[c].resolution.value.capability == c
  }

  lemma OkIsCached(ctx: Context, entity: Entity)
    requires EntriesOk(ctx, entity)
    ensures Cached(entity.capabilities)
  {
    hide EvidenceOk, RecordOk, Filter;
    forall c | c in entity.capabilities
      ensures entity.capabilities[c].resolution.Some? && entity.capabilities[c].resolution.value.capability == c
    {
      assert EntryOk(ctx, entity, c, entity.capabilities[c]);
      ResolutionRules.SameShape(c, entity.capabilities[c].generation, entity.capabilities[c].evidence);
    }
  }

  lemma SortedListsCached(capabilities: map<Id, Entry>)
    requires Cached(capabilities)
    ensures ListsCached(SortedResolutions(capabilities), capabilities)
  {
    var ids := Ascending(capabilities.Keys);
    var resolutions := SortedResolutions(capabilities);
    AscendingSorted(capabilities.Keys);
    forall i | 0 <= i < |ids| ensures resolutions[i].capability == ids[i] && ids[i] in capabilities
      ensures capabilities[ids[i]].resolution == Some(resolutions[i])
    {
      assert ids[i] in ids;
    }
  }

  lemma RefreshedServes(entity: Entity, registryGeneration: nat)
    requires Cached(entity.capabilities)
    ensures Serves(Refresh(entity, registryGeneration), registryGeneration)
  {
    hide SortedResolutions, ListsCached;
    SortedListsCached(entity.capabilities);
  }

  // ----- a commit -----

  /** What the digest of a served set cannot tell apart: the source generation and the identifiers of
      the evidence, though not how many conflict. */
  predicate ReadsAlike(a: Resolution, b: Resolution) {
    a == b.(sourceGeneration := a.sourceGeneration, winner := a.winner, conflicting := a.conflicting)
    && |a.conflicting| == |b.conflicting|
  }

  ghost predicate SetsReadAlike(a: seq<Resolution>, b: seq<Resolution>) {
    |a| == |b| && forall i :: 0 <= i < |a| ==> ReadsAlike(a[i], b[i])
  }

  lemma ViewsExactly(a: seq<Resolution>, b: seq<Resolution>)
    ensures Views(a) == Views(b) <==> SetsReadAlike(a, b)
  {
    if |a| == |b| {
      forall i | 0 <= i < |a| ensures Views(a)[i] == Views(b)[i] <==> ReadsAlike(a[i], b[i]) {
      }
      if SetsReadAlike(a, b) {
        forall i | 0 <= i < |a| ensures Views(a)[i] == Views(b)[i] {
        }
      }
    }
  }

  /** The entity a commit leaves: of the generation named, with a set, valid again, serving what it caches. */
  ghost predicate Settles(found: Entity, after: Entity, request: Request, outcome: Outcome, registryGeneration: nat)
    requires outcome.Committed?
  {
    && after.id == request.entity && after.current == request.entityGeneration && after.bound == after.current
    && after.hasSet && !after.invalidated && after.reason == 0
    && after.setGeneration == outcome.next && Serves(after, registryGeneration)
    && outcome.previous == (if found.published.Some? then found.published.value.setGeneration else 0)
    && (outcome.semantic <==>
          || found.published.None?
          || !SetsReadAlike(found.published.value.resolutions, after.published.value.resolutions))
    && outcome.next == (if outcome.semantic then found.setGeneration + 1 else found.setGeneration)
    && after.highWater == found.highWater[request.Key() := request.sourceGeneration]
  }

  /** Everything else a commit does: the attempt is remembered by its instance, the oldest one forgotten
      if the window is full, and the registry generation counts the retirement and the change. */
  ghost predicate Records(env: Environment, st: State, after: State, request: Request, semantic: bool) {
    var key := PublisherKey(request.publisher, request.boot);
    && key in st.publishers && request.scope in st.authorities
    && var replay := st.publishers[key].replay;
       var kept := if |replay| >= env.options.maxReplay && |replay| > 0 then replay[1..] else replay;
       var entry := ReplayRecord(request.attempt, request.publication,
                                 ContentOf(request, st.authorities[request.scope]));
       && after.publishers == st.publishers[key := st.publishers[key].(replay := kept + [entry])]
       && after.epoch == st.epoch && after.authorities == st.authorities
       && after.fencedBoots == st.fencedBoots && after.fences == st.fences
       && after.entities.Keys == st.entities.Keys + {request.entity}
       && after.registryGeneration ==
          st.registryGeneration + (if request.entity in st.entities && !Known(st, request) then 1 else 0)
          + (if semantic then 1 else 0)
  }

  lemma CommitSettles(env: Environment, st: State, request: Request)
    requires env.Valid() && StateOk(env, st) && Publish(env, st, request).1.Committed?
    ensures var (after, outcome) := Publish(env, st, request);
            && request.entity in after.entities
            && Settles(Found(st, request), after.entities[request.entity], request, outcome, after.registryGeneration)
            && Records(env, st, after, request, outcome.semantic)
  {
    hide Admit, StateOk, ApplyRequest, Commit, ContentOf, RequestOk, Serves, SetsReadAlike, PushReplay;
    AdmittedRequestIsOk(env, st, request);
    LocateKeepsState(env, st, request);
    EntityIdentifierIsSet(env, st, request);
    LocatedIsFound(env, st, request);
    LocatedDirectory(env, st, request);
    var located := Locate(env, st, request).0;
    LocatedGeneration(env, st, request);
    LocatedSettles(env, located, request);
  }

  lemma EntityIdentifierIsSet(env: Environment, st: State, request: Request)
    requires Admit(env, st, request) == None
    ensures RequestOk(request) && request.boot !in st.fencedBoots && request.entityGeneration >= 1
  {
    AdmittedRequestIsOk(env, st, request);
  }

  lemma LocatedDirectory(env: Environment, st: State, request: Request)
    requires Locate(env, st, request).1 == None
    ensures var located := Locate(env, st, request).0;
            && located.entities.Keys == st.entities.Keys + {request.entity}
            && located.fences == st.fences && located.fencedBoots == st.fencedBoots
            && located.registryGeneration ==
               st.registryGeneration + (if request.entity in st.entities && !Known(st, request) then 1 else 0)
  {
  }

  lemma LocatedSettles(env: Environment, st: State, request: Request)
    requires env.Valid() && StateOk(env, st) && RequestOk(request) && request.boot !in st.fencedBoots
    requires request.entity in st.entities && request.Instance() in st.publishers && request.scope in st.authorities
    requires st.entities[request.entity].current == request.entityGeneration
    requires PublishLocated(env, st, request).1.Committed?
    ensures var (after, outcome) := PublishLocated(env, st, request);
            && request.entity in after.entities
            && Settles(st.entities[request.entity], after.entities[request.entity], request, outcome,
                       after.registryGeneration)
            && Records(env, st, after, request, outcome.semantic)
  {
    hide StateOk, ApplyRequest, ContentOf, SortedResolutions, SetsReadAlike, EntriesOk, Views, ListsCached, Cached;
    var entity := st.entities[request.entity];
    var grant := st.authorities[request.scope];
    var applied := ApplyRequest(env, st.epoch, grant, entity, request).entity;
    KnownEntityOk(env, st, request.entity);
    AppliedEntityOk(env, st, request);
    ApplyRequestKeepsHeader(env, st.epoch, grant, entity, request);
    OkIsCached(ContextOf(env, st), applied);
    SortedListsCached(applied.capabilities);
    if entity.published.Some? {
      ViewsExactly(entity.published.value.resolutions, SortedResolutions(applied.capabilities));
    }
  }

  lemma KnownEntityOk(env: Environment, st: State, e: Id)
    requires StateOk(env, st) && e in st.entities
    ensures EntityOk(ContextOf(env, st), e, st.entities[e])
  {
  }

  // ----- fences and epochs -----

  ghost predicate AllServe(entities: map<Id, Entity>, registryGeneration: nat) {
    forall e :: e in entities ==> Serves(entities[e], registryGeneration)
  }

  /** The header of an entity: all but its evidence and what it serves. */
  predicate SameButEvidence(a: Entity, b: Entity) {
    b == a.(capabilities := b.capabilities, published := b.published)
  }

  ghost predicate AllSameButEvidence(before: map<Id, Entity>, after: map<Id, Entity>) {
    before.Keys == after.Keys && forall e :: e in before ==> SameButEvidence(before[e], after[e])
  }

  lemma MarkedServe(ctx: Context, entities: map<Id, Entity>, mark: Mark, registryGeneration: nat)
    requires EntitiesOk(ctx, entities) && !mark.to.Current?
    ensures AllServe(MarkEverywhere(entities, mark, registryGeneration), registryGeneration)
    ensures AllSameButEvidence(entities, MarkEverywhere(entities, mark, registryGeneration))
  {
    hide EntriesOk, MarkAll, Serves, Materialize;
    forall e | e in entities
      ensures Serves(Refresh(MarkAll(entities[e], mark), registryGeneration), registryGeneration)
      ensures SameButEvidence(entities[e], Refresh(MarkAll(entities[e], mark), registryGeneration))
    {
      assert EntityOk(ctx, e, entities[e]);
      MarkAllKeepsEntries(ctx, entities[e], mark);
      OkIsCached(ctx, MarkAll(entities[e], mark));
      RefreshedServes(MarkAll(entities[e], mark), registryGeneration);
      MarkKeepsHeader(entities[e], mark, registryGeneration);
    }
  }

  lemma MarkKeepsHeader(entity: Entity, mark: Mark, registryGeneration: nat)
    ensures SameButEvidence(entity, Refresh(MarkAll(entity, mark), registryGeneration))
  {
  }

  /** The boot has a record that is current somewhere. */
  ghost predicate HasCurrentRecord(entities: map<Id, Entity>, boot: Id) {
    exists e, c, r :: e in entities && c in entities[e].capabilities && r in entities[e].capabilities[c].evidence
                      && r.key.boot == boot && r.currentness.Current?
  }

  lemma OwnsExactly(entities: map<Id, Entity>, boot: Id)
    ensures OwnsCurrentEvidence(entities, boot) <==> HasCurrentRecord(entities, boot)
  {
    if OwnsCurrentEvidence(entities, boot) {
      var e :| e in entities && OwnsCurrent(entities[e], boot);
      var c :| c in entities[e].capabilities &&
        exists r :: r in entities[e].capabilities[c].evidence && r.key.boot == boot && IsCurrent(r);
      var r :| r in entities[e].capabilities[c].evidence && r.key.boot == boot && IsCurrent(r);
      assert e in entities && c in entities[e].capabilities && r in entities[e].capabilities[c].evidence;
    }
    if HasCurrentRecord(entities, boot) {
      var e, c, r :| e in entities && c in entities[e].capabilities && r in entities[e].capabilities[c].evidence
        && r.key.boot == boot && r.currentness.Current?;
      assert OwnsCurrent(entities[e], boot);
    }
  }

  /** The fences that stay when one more is added: all, or all but the oldest that protects nothing. */
  ghost predicate FencesKept(env: Environment, st: State, kept: seq<Fence>) {
    if |st.fences| < env.options.maxFences then kept == st.fences
    else exists v :: 0 <= v < |st.fences| && kept == st.fences[..v] + st.fences[v + 1..]
                     && !HasCurrentRecord(st.entities, st.fences[v].boot)
                     && forall i :: 0 <= i < v ==> HasCurrentRecord(st.entities, st.fences[i].boot)
  }

  lemma RoomKeepsFences(env: Environment, st: State)
    requires MakeRoom(env, st).1 == None
    ensures FencesKept(env, st, MakeRoom(env, st).0.fences)
    ensures var kept := MakeRoom(env, st).0;
            kept == st.(fences := kept.fences, fencedBoots := kept.fencedBoots)
  {
    hide HasCurrentRecord;
    forall boot ensures OwnsCurrentEvidence(st.entities, boot) <==> HasCurrentRecord(st.entities, boot) {
      OwnsExactly(st.entities, boot);
    }
    hide OwnsCurrentEvidence;
    if |st.fences| >= env.options.maxFences {
      var v := FirstEvictable(st.entities, st.fences);
      assert 0 <= v < |st.fences| && !HasCurrentRecord(st.entities, st.fences[v].boot);
    }
  }

  /** A fence that takes effect is appended with the publisher and the reason it was given, drops that
      publisher's registration for the boot, and advances the registry once; everything is served anew. */
  lemma FencedExactly(env: Environment, st: State, boot: Id, owner: Id, reason: Id)
    requires StateOk(env, st) && boot !in st.fencedBoots && FenceWorkerBoot(env, st, boot, owner, reason).1 == None
    ensures var after := FenceWorkerBoot(env, st, boot, owner, reason).0;
            && (exists kept :: FencesKept(env, st, kept) && after.fences == kept + [Fence(boot, owner, reason)])
            && after.publishers == st.publishers - {PublisherKey(owner, boot)}
            && after.epoch == st.epoch && after.authorities == st.authorities
            && after.registryGeneration == st.registryGeneration + 1
            && AllServe(after.entities, st.registryGeneration)
            && AllSameButEvidence(st.entities, after.entities)
  {
    hide StateOk, MarkEverywhere, FencesKept, AllServe, AllSameButEvidence, MakeRoom;
    RoomKeepsFences(env, st);
    EntitiesAreOk(env, st);
    MarkedServe(ContextOf(env, st), st.entities, BootMark(boot, reason), st.registryGeneration);
  }

  lemma EntitiesAreOk(env: Environment, st: State)
    requires StateOk(env, st)
    ensures EntitiesOk(ContextOf(env, st), st.entities)
  {
  }

  /** Fencing without effect: a boot that is unset, or already fenced, or whose fence is refused. */
  lemma FenceWithoutEffect(env: Environment, st: State, boot: Id, owner: Id, reason: Id)
    requires boot in st.fencedBoots || FenceWorkerBoot(env, st, boot, owner, reason).1.Some?
    ensures var (after, error) := FenceWorkerBoot(env, st, boot, owner, reason);
            && after == st
            && error == (if boot == 0 then Some(InvalidArgument)
                         else if boot in st.fencedBoots then None else Some(TooManyItems))
  {
  }

  /** New fences of an epoch advance: for boots it lists that were not fenced, naming no publisher. */
  ghost predicate FencesOfAdvance(st: State, after: State, boots: seq<Id>, reason: Id) {
    && |st.fences| <= |after.fences| && after.fences[..|st.fences|] == st.fences
    && forall i :: |st.fences| <= i < |after.fences| ==>
         after.fences[i].boot in boots && after.fences[i].boot !in st.fencedBoots
         && after.fences[i] == Fence(after.fences[i].boot, 0, reason)
  }

  lemma {:induction false} ListedFences(fences: seq<Fence>, fenced: set<Id>, boots: seq<Id>, limit: nat, reason: Id)
    ensures var after := FenceListed(fences, fenced, boots, limit, reason).0;
            && |fences| <= |after| && after[..|fences|] == fences
            && forall i :: |fences| <= i < |after| ==>
                 after[i].boot in boots && after[i].boot !in fenced && after[i] == Fence(after[i].boot, 0, reason)
    decreases |boots|
  {
    if boots != [] {
      assert boots == [boots[0]] + boots[1..];
      if boots[0] in fenced {
        ListedFences(fences, fenced, boots[1..], limit, reason);
      } else if |fences| < limit {
        var more := fences + [Fence(boots[0], 0, reason)];
        ListedFences(more, fenced + {boots[0]}, boots[1..], limit, reason);
        var after := FenceListed(fences, fenced, boots, limit, reason).0;
        assert after[..|fences|] == after[..|more|][..|fences|] == fences;
        assert after[|fences|] == after[..|more|][|fences|];
      }
    }
  }

  /** An epoch advance moves the epoch and the registry generation by one, drops every registration,
      keeps the grants and every fence, and serves everything anew. */
  lemma AdvancedExactly(env: Environment, st: State, boots: seq<Id>, reason: Id)
    requires StateOk(env, st)
    ensures var after := AdvanceEpoch(env, st, boots, reason);
            && after.epoch == st.epoch + 1 && after.registryGeneration == st.registryGeneration + 1
            && after.publishers == map[] && after.authorities == st.authorities
            && FencesOfAdvance(st, after, boots, reason)
            && AllServe(after.entities, st.registryGeneration)
            && AllSameButEvidence(st.entities, after.entities)
  {
    hide StateOk, MarkEverywhere, AllServe, AllSameButEvidence, FenceListed;
    ListedFences(st.fences, st.fencedBoots, boots, env.options.maxFences, reason);
    EntitiesAreOk(env, st);
    MarkedServe(ContextOf(env, st), st.entities, EpochMark(reason), st.registryGeneration);
  }

  // ----- invalidations -----

  lemma NothingStaysActionable(ctx: Context, entity: Entity, reason: Id, c: Id)
    requires EntityOk(ctx, entity.id, entity) && c in entity.capabilities
    ensures !ResolutionOf(c, MarkAll(entity, EntityMark(reason)).capabilities[c]).Actionable()
  {
    hide Resolve, EntryOk, EvidenceOk;
    var marked := MarkAll(entity, EntityMark(reason));
    MarkedEntityOk(ctx, entity.id, entity, EntityMark(reason));
    MarkedEntryIsNotCurrent(c, entity.capabilities[c], EntityMark(reason));
    NothingCurrentIsNotActionable(ctx, marked, c, marked.capabilities[c]);
  }

  /** The first invalidation of an entity, and every one of an entity with capabilities, serves it anew
      and advances the registry once; any other changes nothing but the demoted evidence. */
  lemma InvalidationServes(env: Environment, st: State, id: Id, generation: nat, reason: Id)
    requires StateOk(env, st) && InvalidateEntity(st, id, generation, reason).1 == None
    ensures var (before, after) := (st.entities[id], InvalidateEntity(st, id, generation, reason).0);
            && after == st.(entities := after.entities, registryGeneration := after.registryGeneration)
            && (if !before.invalidated || before.capabilities != map[] then
                  after.registryGeneration == st.registryGeneration + 1
                  && Serves(after.entities[id], st.registryGeneration)
                else after == st)
  {
    hide EntriesOk, Materialize, SeemsChanged, Serves, FencesOk, ReplaysOk, MarkEntry;
    var before, ctx := st.entities[id], ContextOf(env, st);
    var marked := MarkAll(before, EntityMark(reason));
    assert EntityOk(ctx, id, before);
    MarkedEntityOk(ctx, id, before, EntityMark(reason));
    OkIsCached(ctx, marked);
    var invalidated := if before.invalidated then marked else marked.(invalidated := true, reason := reason);
    RefreshedServes(invalidated, st.registryGeneration);
    SeemsChangedExactly(ctx, before, reason);
    if before.capabilities == map[] {
      assert marked.capabilities == map[] && marked == before;
      assert st.entities[id := before] == st.entities;
    }
  }

  lemma SeemsChangedExactly(ctx: Context, entity: Entity, reason: Id)
    requires EntityOk(ctx, entity.id, entity)
    ensures SeemsChanged(entity, MarkAll(entity, EntityMark(reason))) <==>
              !entity.invalidated || entity.capabilities != map[]
  {
    hide EntriesOk, MarkEntry, ResolutionOf;
    var marked := MarkAll(entity, EntityMark(reason));
    if entity.capabilities != map[] {
      var c :| c in entity.capabilities;
      NothingStaysActionable(ctx, entity, reason, c);
      assert c in marked.capabilities;
    }
  }

  /** Invalidating a source serves every entity with capabilities anew, and advances the registry once
      if there is one; it changes no header and nothing else. */
  lemma SourceInvalidationServes(env: Environment, st: State, source: Id, reason: Id)
    requires StateOk(env, st) && source != 0
    ensures var after := InvalidateSource(st, source, reason).0;
            && after == st.(entities := after.entities, registryGeneration := after.registryGeneration)
            && AllSameButEvidence(st.entities, after.entities)
            && after.registryGeneration ==
               (if exists e :: e in st.entities && st.entities[e].capabilities != map[] then st.registryGeneration + 1
                else st.registryGeneration)
            && forall e :: e in st.entities ==>
                 if st.entities[e].capabilities == map[] then after.entities[e] == st.entities[e]
                 else Serves(after.entities[e], st.registryGeneration)
  {
    hide EntriesOk, Materialize, Serves, FencesOk, ReplaysOk, MarkEntry, MarkAll;
    var ctx, mark := ContextOf(env, st), SourceMark(source, reason);
    forall e | e in st.entities
      ensures Serves(Refresh(MarkAll(st.entities[e], mark), st.registryGeneration), st.registryGeneration)
      ensures SameButEvidence(st.entities[e], Refresh(MarkAll(st.entities[e], mark), st.registryGeneration))
    {
      assert EntityOk(ctx, e, st.entities[e]);
      MarkedEntityOk(ctx, e, st.entities[e], mark);
      OkIsCached(ctx, MarkAll(st.entities[e], mark));
      RefreshedServes(MarkAll(st.entities[e], mark), st.registryGeneration);
      MarkKeepsHeader(st.entities[e], mark, st.registryGeneration);
    }
  }

  // ----- snapshots -----

  ghost predicate ServeAlike(a: Option<EntitySet>, b: Option<EntitySet>) {
    && (a.None? <==> b.None?)
    && (a.Some? && b.Some? ==> SetsReadAlike(a.value.resolutions, b.value.resolutions))
  }

  ghost predicate SameForReaders(a: Entity, b: Entity) {
    a.current == b.current && a.setGeneration == b.setGeneration && ServeAlike(a.published, b.published)
  }

  lemma EntryTells(st: State, after: State, id: Id)
    requires id in st.entities && id in after.entities
    ensures EntryFor(after, id) == EntryFor(st, id) <==> SameForReaders(after.entities[id], st.entities[id])
  {
    hide Views, SetsReadAlike;
    var a, b := after.entities[id].published, st.entities[id].published;
    if a.Some? && b.Some? {
      ViewsExactly(a.value.resolutions, b.value.resolutions);
    }
  }

  /** A snapshot of one state is current in another exactly when the registry generation and the epoch
      are the same and every entity it covers has the same generations and serves the same to readers. */
  lemma SnapshotCurrentExactly(st: State, after: State, ids: seq<Id>)
    requires forall id :: id in ids ==> id in st.entities
    ensures SnapshotIsCurrent(after, TakeSnapshot(st, ids)) <==>
              && after.registryGeneration == st.registryGeneration && after.epoch == st.epoch
              && forall id :: id in ids ==>
                   id in after.entities && SameForReaders(after.entities[id], st.entities[id])
  {
    hide SameForReaders, DigestOf;
    var entries := TakeSnapshot(st, ids).entries;
    forall i | 0 <= i < |ids|
      ensures entries[i] == EntryFor(st, ids[i]) && entries[i].entity == ids[i] && entries[i] in entries
      ensures ids[i] in after.entities ==>
                (EntryFor(after, ids[i]) == EntryFor(st, ids[i]) <==>
                 SameForReaders(after.entities[ids[i]], st.entities[ids[i]]))
    {
      assert ids[i] in ids;
      if ids[i] in after.entities {
        EntryTells(st, after, ids[i]);
      }
    }
  }
}
