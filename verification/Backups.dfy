/** Runs in which a store saved earlier, and not only one of the present state, may be loaded. */
module Backups {
  import opened Sequences
  import opened Evidence
  import opened ResolutionRules
  import opened RegistryState
  import opened EvidenceInvariant
  import opened RegistrySteps
  import opened RegistryInvariant
  import opened LifecycleInvariant
  import opened Recovery
  import opened Runs
  import opened Fencing

  ghost predicate Makes(env: Environment, st: State, step: Step, next: State) {
    RegistrySteps.Enabled(st, step) && next == Perform(env, st, step)
  }

  ghost predicate Steps(env: Environment, st: State, next: State) {
    exists step :: Makes(env, st, step, next)
  }

  ghost predicate Restores(st: State, payload: Payload, next: State) {
    Saves(st, payload) && next == Load(payload)
  }

  /** `next` may follow the states `past`: by a mutation of the last of them, or by loading a payload
      saved from any of them. */
  ghost predicate MayFollow(env: Environment, past: seq<State>, next: State)
    requires past != []
  {
    || Steps(env, past[|past| - 1], next)
    || (exists k, payload :: 0 <= k < |past| && Restores(past[k], payload, next))
  }

  /** The states of a run from `initial` in which earlier saves may be loaded. */
  ghost predicate IsHistory(env: Environment, initial: State, states: seq<State>) {
    && states != [] && states[0] == initial
    && forall k :: 1 <= k < |states| ==> MayFollow(env, states[..k], states[k])
  }

  ghost predicate AllOk(env: Environment, states: seq<State>) {
    forall k :: 0 <= k < |states| ==> StateOk(env, states[k])
  }

  lemma FollowerIsOk(env: Environment, past: seq<State>, next: State)
    requires env.Valid() && past != [] && AllOk(env, past) && MayFollow(env, past, next)
    ensures StateOk(env, next)
  {
    hide StateOk, Perform, Load, RegistrySteps.Enabled, Saves;
    if Steps(env, past[|past| - 1], next) {
      var step :| Makes(env, past[|past| - 1], step, next);
      PerformKeepsState(env, past[|past| - 1], step);
    } else {
      var k, payload :| 0 <= k < |past| && Restores(past[k], payload, next);
      LoadKeepsState(env, past[k], payload);
    }
  }

  /** The registry invariant holds in every state of every such run. */
  lemma {:induction false} HistoryKeepsState(env: Environment, initial: State, states: seq<State>)
    requires env.Valid() && StateOk(env, initial) && IsHistory(env, initial, states)
    ensures AllOk(env, states)
    decreases |states|
  {
    hide StateOk, MayFollow;
    if |states| > 1 {
      var n := |states| - 1;
      assert forall k :: 1 <= k < n ==> states[..n][..k] == states[..k];
      HistoryKeepsState(env, initial, states[..n]);
      FollowerIsOk(env, states[..n], states[n]);
    }
  }

  /** However old the stores that were loaded, every cached resolution is the one its evidence decides. */
  lemma HistoryFollowsTheRule(env: Environment, epoch: nat, states: seq<State>, k: nat, e: Id, c: Id)
    requires env.Valid() && IsHistory(env, Initial(epoch), states) && k < |states|
    requires e in states[k].entities && c in states[k].entities[e].capabilities
    ensures var entry := states[k].entities[e].capabilities[c];
            entry.resolution.Some? && Decides(LiveSet(entry.evidence), entry.resolution.value)
  {
    HistoryKeepsState(env, Initial(epoch), states);
    assert StateOk(env, states[k]);
    assert EntityOk(ContextOf(env, states[k]), e, states[k].entities[e]);
    assert EntryOk(ContextOf(env, states[k]), states[k].entities[e], c, states[k].entities[e].capabilities[c]);
    SyncedFollowsRule(c, states[k].entities[e].capabilities[c]);
  }

  /** Generations, floors and capabilities of an entity are those it had. */
  ghost predicate SameGenerations(a: Entity, b: Entity) {
    && a.id == b.id && a.current == b.current && a.bound == b.bound && a.hasSet == b.hasSet
    && a.setGeneration == b.setGeneration && a.highWater == b.highWater
    && a.invalidated == b.invalidated && a.capabilities.Keys == b.capabilities.Keys
    && forall c :: c in a.capabilities ==> a.capabilities[c].generation == b.capabilities[c].generation
  }

  /** Loading an earlier save goes back to the state that was saved: its epoch, registry generation,
      fences, entities and generations, and no process-bound evidence current. */
  lemma LoadGoesBack(env: Environment, initial: State, states: seq<State>, k: nat, payload: Payload)
    requires env.Valid() && StateOk(env, initial) && IsHistory(env, initial, states) && k < |states|
    requires Saves(states[k], payload)
    ensures var saved, now := states[k], Load(payload);
            && StateOk(env, now)
            && now.epoch == saved.epoch && now.registryGeneration == saved.registryGeneration
            && now.fencedBoots == saved.fencedBoots && multiset(now.fences) == multiset(saved.fences)
            && now.entities.Keys == saved.entities.Keys
            && forall e :: e in saved.entities ==>
                 SameGenerations(saved.entities[e], now.entities[e]) && NoLiveProcess(now.entities[e])
  {
    HistoryKeepsState(env, initial, states);
    SaveIsFaithful(env, states[k], payload);
  }

  lemma SaveIsFaithful(env: Environment, st: State, payload: Payload)
    requires env.Valid() && StateOk(env, st) && Saves(st, payload)
    ensures var now := Load(payload);
            && StateOk(env, now)
            && now.epoch == st.epoch && now.registryGeneration == st.registryGeneration
            && now.fencedBoots == st.fencedBoots && multiset(now.fences) == multiset(st.fences)
            && now.entities.Keys == st.entities.Keys
            && forall e :: e in st.entities ==>
                 SameGenerations(st.entities[e], now.entities[e]) && NoLiveProcess(now.entities[e])
  {
    hide SavesAuthorities, SavesRegistrations, LoadGrants, LoadRegistrations, LoadEntities, Filter, NoLiveProcess,
      SameGenerations;
    LoadKeepsState(env, st, payload);
    LoadKeepsFences(env, st, payload);
    LoadedFencesOk(st, payload.fences);
    DistinctSameMembers(payload.fences, st.fences);
    var ctx, g := ContextOf(env, st), st.registryGeneration;
    LoadedKeys(ctx, st.entities, payload.entities, g);
    forall e | e in st.entities ensures SameGenerations(st.entities[e], Load(payload).entities[e]) {
      var se := LoadedFrom(ctx, st.entities, payload.entities, g, e);
      LoadedGenerations(ctx, st.entities[e], se, g);
    }
  }

  lemma LoadedGenerations(ctx: Context, entity: Entity, se: StoredEntity, registryGeneration: nat)
    requires EntityOk(ctx, entity.id, entity) && Stores(entity, se)
    ensures SameGenerations(entity, LoadEntity(se, registryGeneration))
  {
    LoadedCapabilityMap(ctx, entity, se, registryGeneration);
    LoadedFloorMap(ctx, entity, se);
  }

  lemma DistinctSameMembers<T>(a: seq<T>, b: seq<T>)
    requires Distinct(a) && Distinct(b) && forall x :: x in a <==> x in b
    ensures multiset(a) == multiset(b)
  {
    forall x ensures multiset(a)[x] == multiset(b)[x] {
      DistinctOnce(a, x);
      DistinctOnce(b, x);
    }
  }

  lemma {:induction false} DistinctOnce<T>(s: seq<T>, x: T)
    requires Distinct(s)
    ensures multiset(s)[x] == if x in s then 1 else 0
  {
    if s != [] {
      var n := |s| - 1;
      assert s == s[..n] + [s[n]];
      DistinctOnce(s[..n], x);
    }
  }

  /** The move between k and the last state at which the boot came to be fenced. */
  lemma {:induction false} FencedSince(states: seq<State>, k: nat, boot: Id) returns (j: nat)
    requires k < |states| && boot !in states[k].fencedBoots && boot in states[|states| - 1].fencedBoots
    ensures k < j < |states| && boot !in states[j - 1].fencedBoots && boot in states[j].fencedBoots
    decreases |states| - k
  {
    if boot in states[k + 1].fencedBoots {
      j := k + 1;
    } else {
      j := FencedSince(states, k + 1, boot);
    }
  }

  /** The load of an earlier save takes a boot's fence away exactly when the boot was not fenced at the
      save; then some move since fenced it, and the boot can register again. */
  lemma LoadLosesFenceExactly(env: Environment, initial: State, states: seq<State>, k: nat, payload: Payload, boot: Id)
    requires env.Valid() && StateOk(env, initial) && IsHistory(env, initial, states) && k < |states|
    requires Saves(states[k], payload) && boot in states[|states| - 1].fencedBoots
    ensures boot !in Load(payload).fencedBoots <==> boot !in states[k].fencedBoots
    ensures boot !in Load(payload).fencedBoots ==>
              exists j :: k < j < |states| && boot !in states[j - 1].fencedBoots && boot in states[j].fencedBoots
    ensures boot !in Load(payload).fencedBoots ==>
              forall publisher, scope ::
                CheckRegistration(env, Load(payload), publisher, scope, boot) != Some(WorkerBootFenced)
  {
    hide Load, IsHistory, StateOk;
    LoadGoesBack(env, initial, states, k, payload);
    if boot !in states[k].fencedBoots {
      var j := FencedSince(states, k, boot);
    }
  }

  lemma FreshSave()
    ensures Restores(Initial(1), Payload(1, 0, [], [], [], []), Initial(1))
  {
  }

  /** A run in which the load of an older save takes a fence away. */
  lemma OlderSaveForgetsFence(env: Environment, boot: Id)
    requires env.Valid() && boot != 0 && env.options.maxFences >= 1
    ensures var fenced := FenceWorkerBoot(env, Initial(1), boot, 0, 0).0;
            && IsHistory(env, Initial(1), [Initial(1), fenced, Initial(1)])
            && boot in fenced.fencedBoots && boot !in Initial(1).fencedBoots
  {
    hide Restores, MarkEverywhere;
    var start := Initial(1);
    var fenced := FenceWorkerBoot(env, start, boot, 0, 0).0;
    var states := [start, fenced, start];
    FreshSave();
    assert Makes(env, start, FenceBoot(boot, 0, 0), fenced);
    assert states[..1][0] == start && states[..2][0] == start;
    assert MayFollow(env, states[..1], states[1]) && MayFollow(env, states[..2], states[2]);
  }

  /** After the load of a save of any age no live observation survives as support. */
  lemma NoObservationSurvivesOldSave(env: Environment, initial: State, states: seq<State>, k: nat, payload: Payload,
                                     e: Id, c: Id)
    requires env.Valid() && StateOk(env, initial) && IsHistory(env, initial, states) && k < |states|
    requires Saves(states[k], payload)
    requires e in Load(payload).entities && c in Load(payload).entities[e].capabilities
    requires ResolutionOf(c, Load(payload).entities[e].capabilities[c]).state.Supported?
    ensures var entry := Load(payload).entities[e].capabilities[c];
            DurablySupported(entry.evidence, ResolutionOf(c, entry).winner)
  {
    hide LiveSet, Filter, Load, IsHistory;
    HistoryKeepsState(env, initial, states);
    LoadKeepsState(env, states[k], payload);
    var now := Load(payload);
    assert EntityOk(ContextOf(env, now), e, now.entities[e]);
    SupportNeedsDurableEvidence(ContextOf(env, now), now.entities[e], c);
  }
}
