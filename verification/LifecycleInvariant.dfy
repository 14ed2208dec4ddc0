/** The invariant through fencing, epochs, entity lifecycle and authority changes. */
module LifecycleInvariant {
  import opened Sequences
  import opened Evidence
  import opened RegistryState
  import opened EvidenceInvariant
  import opened RegistrySteps
  import opened RegistryInvariant

  ghost predicate FitsContext(ctx: Context, entity: Entity) {
    forall c, r :: c in entity.capabilities && r in entity.capabilities[c].evidence && ProcessBoundCurrent(r) ==>
      r.epoch == ctx.epoch && r.key.boot !in ctx.fenced
  }

  lemma MovesToContext(from: Context, to: Context, id: Id, entity: Entity)
    requires EntityOk(from, id, entity) && from.limit == to.limit && FitsContext(to, entity)
    ensures EntityOk(to, id, entity)
  {
  }

  lemma MarkedEntityOk(ctx: Context, id: Id, entity: Entity, mark: Mark)
    requires EntityOk(ctx, id, entity) && !mark.to.Current?
    ensures EntityOk(ctx, id, MarkAll(entity, mark))
  {
    MarkAllKeepsEntries(ctx, entity, mark);
  }

  lemma RefreshedEntityOk(ctx: Context, id: Id, entity: Entity, registryGeneration: nat)
    requires EntityOk(ctx, id, entity)
    ensures EntityOk(ctx, id, Refresh(entity, registryGeneration))
  {
  }

  lemma OwnRecordsFit(ctx: Context, id: Id, entity: Entity)
    requires EntityOk(ctx, id, entity)
    ensures FitsContext(ctx, entity)
  {
  }

  // ----- fencing -----

  lemma BootMarkedFits(ctx: Context, entity: Entity, boot: Id, reason: Id)
    requires FitsContext(ctx, entity)
    ensures FitsContext(ctx.(fenced := ctx.fenced + {boot}), MarkAll(entity, BootMark(boot, reason)))
  {
    var mark := BootMark(boot, reason);
    forall c, r | c in entity.capabilities && r in MarkEntry(c, entity.capabilities[c], mark).evidence
                  && ProcessBoundCurrent(r)
      ensures r.epoch == ctx.epoch && r.key.boot !in ctx.fenced + {boot}
    {
      MarkedEntryIsNotCurrent(c, entity.capabilities[c], mark);
      assert r in entity.capabilities[c].evidence && !Selects(mark.selector, r);
    }
  }

  lemma BootMarkFits(ctx: Context, id: Id, entity: Entity, boot: Id, reason: Id, registryGeneration: nat)
    requires EntityOk(ctx, id, entity)
    ensures EntityOk(ctx.(fenced := ctx.fenced + {boot}), id,
                     Refresh(MarkAll(entity, BootMark(boot, reason)), registryGeneration))
  {
    var mark := BootMark(boot, reason);
    var to := ctx.(fenced := ctx.fenced + {boot});
    MarkedEntityOk(ctx, id, entity, mark);
    OwnRecordsFit(ctx, id, entity);
    BootMarkedFits(ctx, entity, boot, reason);
    MovesToContext(ctx, to, id, MarkAll(entity, mark));
    RefreshedEntityOk(to, id, MarkAll(entity, mark), registryGeneration);
  }

  lemma FewerFencesFit(ctx: Context, fenced: set<Id>, entities: map<Id, Entity>)
    requires EntitiesOk(ctx, entities) && fenced <= ctx.fenced
    ensures EntitiesOk(ctx.(fenced := fenced), entities)
  {
  }

  lemma FenceRemovedOk(fences: seq<Fence>, fenced: set<Id>, v: nat)
    requires FencesOk(fences, fenced) && v < |fences|
    ensures FencesOk(fences[..v] + fences[v + 1..], fenced - {fences[v].boot})
  {
  }

  lemma FenceAddedOk(fences: seq<Fence>, fenced: set<Id>, f: Fence)
    requires FencesOk(fences, fenced) && f.boot !in fenced && f.boot != 0
    ensures FencesOk(fences + [f], fenced + {f.boot})
  {
  }

  lemma MakeRoomKeepsState(env: Environment, st: State)
    requires StateOk(env, st)
    ensures StateOk(env, MakeRoom(env, st).0)
  {
    var roomy := MakeRoom(env, st).0;
    var v := FirstEvictable(st.entities, st.fences);
    if |st.fences| >= env.options.maxFences && v < |st.fences| {
      FenceRemovedOk(st.fences, st.fencedBoots, v);
      FewerFencesFit(ContextOf(env, st), roomy.fencedBoots, st.entities);
    }
  }

  lemma SameGenerationsKeepReplays(publishers: map<PublisherKey, Runtime>, a: map<Id, Entity>, b: map<Id, Entity>)
    requires ReplaysOk(publishers, a) && a.Keys <= b.Keys
    requires forall e :: e in a ==> a[e].current <= b[e].current
    ensures ReplaysOk(publishers, b)
  {
  }

  lemma FencedEntitiesOk(ctx: Context, entities: map<Id, Entity>, boot: Id, reason: Id, registryGeneration: nat)
    requires EntitiesOk(ctx, entities)
    ensures EntitiesOk(ctx.(fenced := ctx.fenced + {boot}),
                       MarkEverywhere(entities, BootMark(boot, reason), registryGeneration))
  {
    var after := MarkEverywhere(entities, BootMark(boot, reason), registryGeneration);
    forall e | e in after ensures EntityOk(ctx.(fenced := ctx.fenced + {boot}), e, after[e]) {
      BootMarkFits(ctx, e, entities[e], boot, reason, registryGeneration);
    }
  }

  lemma FenceKeepsState(env: Environment, st: State, boot: Id, owner: Id, reason: Id)
    requires StateOk(env, st)
    ensures StateOk(env, FenceWorkerBoot(env, st, boot, owner, reason).0)
  {
    if boot != 0 && boot !in st.fencedBoots {
      MakeRoomKeepsState(env, st);
      var roomy := MakeRoom(env, st).0;
      if MakeRoom(env, st).1 == None {
        FenceAddedOk(roomy.fences, roomy.fencedBoots, Fence(boot, owner, reason));
        FencedEntitiesOk(ContextOf(env, roomy), roomy.entities, boot, reason, roomy.registryGeneration);
        var after := FenceWorkerBoot(env, st, boot, owner, reason).0;
        assert ContextOf(env, after) == ContextOf(env, roomy).(fenced := roomy.fencedBoots + {boot});
        SameGenerationsKeepReplays(roomy.publishers, roomy.entities, after.entities);
      }
    }
  }

  // ----- epochs -----

  lemma {:induction false} FenceListedOk(fences: seq<Fence>, fenced: set<Id>, boots: seq<Id>, limit: nat, reason: Id)
    requires FencesOk(fences, fenced) && 0 !in boots
    ensures var (f, b) := FenceListed(fences, fenced, boots, limit, reason); FencesOk(f, b) && fenced <= b
    decreases |boots|
  {
    if boots != [] {
      assert boots == [boots[0]] + boots[1..];
      if boots[0] in fenced {
        FenceListedOk(fences, fenced, boots[1..], limit, reason);
      } else if |fences| < limit {
        FenceAddedOk(fences, fenced, Fence(boots[0], 0, reason));
        FenceListedOk(fences + [Fence(boots[0], 0, reason)], fenced + {boots[0]}, boots[1..], limit, reason);
      }
    }
  }

  /** No process-bound record is current. */
  ghost predicate NoLiveProcess(entity: Entity) {
    forall c, r :: c in entity.capabilities && r in entity.capabilities[c].evidence ==> !ProcessBoundCurrent(r)
  }

  lemma EpochMarkEndsProcesses(entity: Entity, reason: Id, registryGeneration: nat)
    ensures NoLiveProcess(Refresh(MarkAll(entity, EpochMark(reason)), registryGeneration))
  {
    forall c, r | c in entity.capabilities && r in MarkEntry(c, entity.capabilities[c], EpochMark(reason)).evidence
      ensures !ProcessBoundCurrent(r)
    {
      MarkedEntryIsNotCurrent(c, entity.capabilities[c], EpochMark(reason));
    }
  }

  lemma EpochMarkFits(from: Context, to: Context, id: Id, entity: Entity, reason: Id, registryGeneration: nat)
    requires EntityOk(from, id, entity) && from.limit == to.limit
    ensures EntityOk(to, id, Refresh(MarkAll(entity, EpochMark(reason)), registryGeneration))
  {
    var after := Refresh(MarkAll(entity, EpochMark(reason)), registryGeneration);
    MarkedEntityOk(from, id, entity, EpochMark(reason));
    RefreshedEntityOk(from, id, MarkAll(entity, EpochMark(reason)), registryGeneration);
    EpochMarkEndsProcesses(entity, reason, registryGeneration);
    MovesToContext(from, to, id, after);
  }

  lemma AdvanceKeepsState(env: Environment, st: State, boots: seq<Id>, reason: Id)
    requires StateOk(env, st) && ListsBoots(st, boots)
    ensures StateOk(env, AdvanceEpoch(env, st, boots, reason))
  {
    var after := AdvanceEpoch(env, st, boots, reason);
    FenceListedOk(st.fences, st.fencedBoots, boots, env.options.maxFences, reason);
    forall e | e in after.entities ensures EntityOk(ContextOf(env, after), e, after.entities[e]) {
      EpochMarkFits(ContextOf(env, st), ContextOf(env, after), e, st.entities[e], reason, st.registryGeneration);
    }
  }

  // ----- entity lifecycle -----

  lemma ObserveKeepsState(env: Environment, st: State, id: Id, generation: nat)
    requires StateOk(env, st)
    ensures StateOk(env, ObserveGeneration(env, st, id, generation).0)
  {
    if id != 0 && generation != 0 && (id !in st.entities || generation > st.entities[id].current) {
      NewEntityOk(ContextOf(env, st), id, generation);
      PutKeepsState(env, st, id, NewEntity(id, generation));
      GenerationKeepsState(env, PutEntity(st, id, NewEntity(id, generation)), st.registryGeneration + 1);
    }
  }

  lemma InvalidateKeepsState(env: Environment, st: State, id: Id, generation: nat, reason: Id)
    requires StateOk(env, st)
    ensures StateOk(env, InvalidateEntity(st, id, generation, reason).0)
  {
    hide MarkEntry, Materialize, EntriesOk;
    if id in st.entities && generation != 0 && generation == st.entities[id].current {
      var ctx := ContextOf(env, st);
      var entity := st.entities[id];
      var marked := MarkAll(entity, EntityMark(reason));
      var invalidated := if entity.invalidated then marked else marked.(invalidated := true, reason := reason);
      MarkedEntityOk(ctx, id, entity, EntityMark(reason));
      SameEntriesOk(ctx, marked, invalidated);
      RefreshedEntityOk(ctx, id, invalidated, st.registryGeneration);
      PutKeepsState(env, st, id, marked);
      PutKeepsState(env, st, id, Refresh(invalidated, st.registryGeneration));
      GenerationKeepsState(env, PutEntity(st, id, Refresh(invalidated, st.registryGeneration)),
                           st.registryGeneration + 1);
    }
  }

  lemma InvalidateSourceKeepsState(env: Environment, st: State, source: Id, reason: Id)
    requires StateOk(env, st)
    ensures StateOk(env, InvalidateSource(st, source, reason).0)
  {
    if source != 0 {
      var after := InvalidateSource(st, source, reason).0;
      var mark := SourceMark(source, reason);
      var ctx := ContextOf(env, st);
      forall e | e in after.entities ensures EntityOk(ctx, e, after.entities[e]) {
        MarkedEntityOk(ctx, e, st.entities[e], mark);
        RefreshedEntityOk(ctx, e, MarkAll(st.entities[e], mark), st.registryGeneration);
      }
      SameGenerationsKeepReplays(st.publishers, st.entities, after.entities);
      assert ContextOf(env, after) == ctx;
    }
  }

  // ----- authorities and publisher instances -----

  lemma DeclareKeepsState(env: Environment, st: State, grant: Grant)
    requires StateOk(env, st)
    ensures StateOk(env, DeclareAuthority(env, st, grant).0)
  {
    assert ContextOf(env, DeclareAuthority(env, st, grant).0) == ContextOf(env, st);
  }

  lemma RegisterKeepsState(env: Environment, st: State, publisher: Id, scope: Id, boot: Id)
    requires StateOk(env, st)
    ensures StateOk(env, RegisterPublisher(env, st, publisher, scope, boot).0)
  {
  }

  lemma RetireKeepsState(env: Environment, st: State, publisher: Id, boot: Id)
    requires StateOk(env, st)
    ensures StateOk(env, RetirePublisher(st, publisher, boot).0)
  {
  }
}
