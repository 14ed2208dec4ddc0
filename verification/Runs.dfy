/** What every run of the registry keeps: the invariant, the resolution rule, the
    meaning of a restart, replays, snapshots and generations. */
module Runs {
  import opened Sequences
  import opened Evidence
  import opened ResolutionRules
  import opened RegistryState
  import opened EvidenceInvariant
  import opened RegistrySteps
  import opened RegistryInvariant
  import opened LifecycleInvariant
  import opened Recovery

  // ----- the invariant -----

  lemma PerformKeepsState(env: Environment, st: State, step: Step)
    requires env.Valid() && StateOk(env, st) && Enabled(st, step)
    ensures StateOk(env, Perform(env, st, step))
  {
    match step
    case Declare(grant) => DeclareKeepsState(env, st, grant);
    case Register(publisher, scope, boot) => RegisterKeepsState(env, st, publisher, scope, boot);
    case Retire(publisher, boot) => RetireKeepsState(env, st, publisher, boot);
    case Submit(request) => PublishKeepsState(env, st, request);
    case FenceBoot(boot, owner, reason) => FenceKeepsState(env, st, boot, owner, reason);
    case Advance(boots, reason) => AdvanceKeepsState(env, st, boots, reason);
    case Observe(entity, generation) => ObserveKeepsState(env, st, entity, generation);
    case Invalidate(entity, generation, reason) => InvalidateKeepsState(env, st, entity, generation, reason);
    case InvalidateSourceEvidence(source, reason) => InvalidateSourceKeepsState(env, st, source, reason);
    case Restart(payload) => LoadKeepsState(env, st, payload);
  }

  /** The invariant holds after every run. */
  lemma {:induction false} RunKeepsState(env: Environment, st: State, steps: seq<Step>)
    requires env.Valid() && StateOk(env, st) && IsRun(env, st, steps)
    ensures StateOk(env, Run(env, st, steps))
    decreases |steps|
  {
    if steps != [] {
      PerformKeepsState(env, st, steps[0]);
      RunKeepsState(env, Perform(env, st, steps[0]), steps[1..]);
    }
  }

  /** In every reachable state each cached resolution is the one its evidence list decides. */
  lemma EveryRunFollowsTheRule(env: Environment, epoch: nat, steps: seq<Step>, e: Id, c: Id)
    requires env.Valid() && IsRun(env, Initial(epoch), steps)
    requires var st := Run(env, Initial(epoch), steps); e in st.entities && c in st.entities[e].capabilities
    ensures var entry := Run(env, Initial(epoch), steps).entities[e].capabilities[c];
            entry.resolution.Some? && Decides(LiveSet(entry.evidence), entry.resolution.value)
  {
    RunKeepsState(env, Initial(epoch), steps);
    var st := Run(env, Initial(epoch), steps);
    assert EntityOk(ContextOf(env, st), e, st.entities[e]);
    assert EntryOk(ContextOf(env, st), st.entities[e], c, st.entities[e].capabilities[c]);
    SyncedFollowsRule(c, st.entities[e].capabilities[c]);
  }

  /** In every reachable state: a current process-bound record carries the current epoch and an
      unfenced boot, every record carries its entity's generation, a durable record is no live
      observation, a source key holds at most one live record, and the lists stay bounded. */
  lemma EveryRunBoundsEvidence(env: Environment, epoch: nat, steps: seq<Step>, e: Id, c: Id)
    requires env.Valid() && IsRun(env, Initial(epoch), steps)
    requires var st := Run(env, Initial(epoch), steps); e in st.entities && c in st.entities[e].capabilities
    ensures var st := Run(env, Initial(epoch), steps);
            var evidence := st.entities[e].capabilities[c].evidence;
            && (forall r :: r in evidence ==>
                  && r.entityGeneration == st.entities[e].current && r.entity == e && r.claim.capability == c
                  && (r.claim.durability.Durable? ==> !LiveProcessObservation(r.claim.provenance))
                  && (ProcessBoundCurrent(r) ==> r.epoch == st.epoch && r.key.boot !in st.fencedBoots))
            && DistinctKeys(LiveSet(evidence))
            && KeyOrdered(evidence)
            && |LiveSet(evidence)| <= env.options.maxEvidence
            && |evidence| <= env.options.maxEvidence + 1
  {
    RunKeepsState(env, Initial(epoch), steps);
    var st := Run(env, Initial(epoch), steps);
    var evidence := st.entities[e].capabilities[c].evidence;
    assert EntityOk(ContextOf(env, st), e, st.entities[e]);
    assert EntryOk(ContextOf(env, st), st.entities[e], c, st.entities[e].capabilities[c]);
    LiveKeysAreDistinct(evidence);
    LiveCountIsSetSize(evidence);
    forall r | r in evidence ensures RecordOk(ContextOf(env, st), st.entities[e], c, r) {
    }
  }

  // ----- support after a restart -----

  /** Support rests on a current durable record of a class no live record outranks. */
  ghost predicate DurablySupported(evidence: seq<Record>, winner: Option<EvidenceId>) {
    exists w :: w in evidence && IsCurrent(w) && w.claim.durability.Durable? && winner == Some(w.Identity())
      && w.claim.state.Supported? && !LiveProcessObservation(w.claim.provenance)
      && forall x :: x in evidence && Live(x) ==> w.claim.provenance <= x.claim.provenance
  }

  lemma SupportedWinner(live: set<Record>, r: Resolution) returns (w: Record)
    requires Decides(live, r) && r.state.Supported?
    ensures w in live && IsCurrent(w) && r.winner == Some(w.Identity()) && w.claim.state.Supported?
    ensures forall x :: x in live ==> w.claim.provenance <= x.claim.provenance
  {
    w :| w in live && DecidedBy(r, live, w);
    assert w in CurrentOnes(Strongest(live));
  }

  lemma SupportNeedsDurableEvidence(ctx: Context, entity: Entity, c: Id)
    requires EntriesOk(ctx, entity) && NoLiveProcess(entity) && c in entity.capabilities
    requires ResolutionOf(c, entity.capabilities[c]).state.Supported?
    ensures DurablySupported(entity.capabilities[c].evidence, ResolutionOf(c, entity.capabilities[c]).winner)
  {
    hide Resolve, Filter;
    var entry := entity.capabilities[c];
    assert EntryOk(ctx, entity, c, entry);
    SyncedFollowsRule(c, entry);
    var w := SupportedWinner(LiveSet(entry.evidence), entry.resolution.value);
    assert RecordOk(ctx, entity, c, w) && !ProcessBoundCurrent(w);
    assert forall x :: x in entry.evidence && Live(x) ==> x in LiveSet(entry.evidence);
  }

  lemma RestartEndsProcesses(env: Environment, st: State, step: Step, e: Id)
    requires env.Valid() && StateOk(env, st) && Enabled(st, step) && (step.Advance? || step.Restart?)
    requires e in Perform(env, st, step).entities
    ensures NoLiveProcess(Perform(env, st, step).entities[e])
  {
    hide NoLiveProcess, StateOk, FenceListed, Saves, ListsBoots, MarkAll, Materialize;
    match step
    case Advance(boots, reason) => EpochMarkEndsProcesses(st.entities[e], reason, st.registryGeneration);
    case Restart(payload) => LoadKeepsState(env, st, payload);
  }

  /** After an epoch advance or a load, no live observation survives as support. */
  lemma NoObservationSurvivesRestart(env: Environment, st: State, step: Step, e: Id, c: Id)
    requires env.Valid() && StateOk(env, st) && Enabled(st, step) && (step.Advance? || step.Restart?)
    requires var after := Perform(env, st, step); e in after.entities && c in after.entities[e].capabilities
    requires ResolutionOf(c, Perform(env, st, step).entities[e].capabilities[c]).state.Supported?
    ensures var entry := Perform(env, st, step).entities[e].capabilities[c];
            DurablySupported(entry.evidence, ResolutionOf(c, entry).winner)
  {
    hide Perform, Enabled, NoLiveProcess, DurablySupported, ResolutionOf, FencesOk, ReplaysOk, DirectoryOk, EntriesOk;
    var after := Perform(env, st, step);
    PerformKeepsState(env, st, step);
    RestartEndsProcesses(env, st, step, e);
    assert EntityOk(ContextOf(env, after), e, after.entities[e]);
    SupportNeedsDurableEvidence(ContextOf(env, after), after.entities[e], c);
  }

  // ----- replays -----

  ghost predicate Active(st: State, instance: PublisherKey) {
    instance in st.publishers && st.publishers[instance].replay != []
  }

  /** The attempt an instance committed last. */
  ghost function LatestOf(st: State, instance: PublisherKey): ReplayRecord
    requires Active(st, instance)
  {
    var replay := st.publishers[instance].replay;
    replay[|replay| - 1]
  }

  /** The request repeats what its instance committed last. */
  ghost predicate RepeatsLatest(st: State, request: Request) {
    && Active(st, request.Instance()) && request.scope in st.authorities
    && LatestOf(st, request.Instance()).attempt == request.attempt
    && LatestOf(st, request.Instance()).content == ContentOf(request, st.authorities[request.scope])
  }

  /** Retirement runs before the replay is recognised, yet a repeated request never retires anything. */
  lemma RepeatNeverRetires(env: Environment, st: State, request: Request)
    requires StateOk(env, st) && RepeatsLatest(st, request)
    ensures request.entity in st.entities
    ensures Locate(env, st, request).0 == st
    ensures Locate(env, st, request).1 == None <==> st.entities[request.entity].current == request.entityGeneration
  {
  }

  lemma RepeatIsReplayed(env: Environment, st: State, request: Request)
    requires RepeatsLatest(st, request) && request.entity in st.entities
    ensures PublishLocated(env, st, request) == (st, Replayed)
  {
  }

  /** Submitting the latest committed attempt again, with the same content and any expected
      generation, changes nothing at all. */
  lemma ReplayChangesNothing(env: Environment, st: State, request: Request)
    requires StateOk(env, st) && RepeatsLatest(st, request)
    ensures Publish(env, st, request).0 == st
    ensures !Publish(env, st, request).1.Committed?
    ensures Admit(env, st, request) == None && st.entities[request.entity].current == request.entityGeneration ==>
              Publish(env, st, request).1 == Replayed
  {
    RepeatNeverRetires(env, st, request);
    RepeatIsReplayed(env, st, request);
  }

  /** An attempt that is still remembered never commits again. */
  lemma RememberedAttemptNeverCommits(env: Environment, st: State, request: Request)
    requires request.Instance() in st.publishers
    requires Remembers(st.publishers[request.Instance()].replay, request.attempt)
    ensures !Publish(env, st, request).1.Committed?
  {
  }

  /** The attempt is among the last d remembered ones. */
  ghost predicate RecalledWithin(replay: seq<ReplayRecord>, attempt: Id, d: nat) {
    exists i :: 0 <= i < |replay| && |replay| - d <= i && replay[i].attempt == attempt
  }

  lemma PushKeepsRecall(env: Environment, replay: seq<ReplayRecord>, attempt: Id, d: nat, record: ReplayRecord)
    requires RecalledWithin(replay, attempt, d) && d < env.options.maxReplay
    ensures RecalledWithin(PushReplay(env, replay, record), attempt, d + 1)
  {
    var i :| 0 <= i < |replay| && |replay| - d <= i && replay[i].attempt == attempt;
    var pushed := PushReplay(env, replay, record);
    var j := if |replay| >= env.options.maxReplay then i - 1 else i;
    assert pushed[j] == replay[i];
  }

  ghost predicate CommitsFor(env: Environment, st: State, step: Step, instance: PublisherKey) {
    step.Submit? && step.request.Instance() == instance && Publish(env, st, step.request).1.Committed?
  }

  /** The step neither registers the instance anew nor drops it. */
  ghost predicate KeepsInstance(step: Step, instance: PublisherKey) {
    match step
    case Register(publisher, _, boot) => PublisherKey(publisher, boot) != instance
    case FenceBoot(boot, owner, _) => PublisherKey(owner, boot) != instance
    case Advance(_, _) => false
    case Restart(_) => false
    case _ => true
  }

  ghost function CommitCount(env: Environment, st: State, steps: seq<Step>, instance: PublisherKey): nat
    decreases |steps|
  {
    if steps == [] then 0
    else (if CommitsFor(env, st, steps[0], instance) then 1 else 0)
         + CommitCount(env, Perform(env, st, steps[0]), steps[1..], instance)
  }

  lemma StepKeepsRecall(env: Environment, st: State, step: Step, instance: PublisherKey, attempt: Id, d: nat)
    requires KeepsInstance(step, instance) && instance in st.publishers
    requires RecalledWithin(st.publishers[instance].replay, attempt, d)
    requires CommitsFor(env, st, step, instance) ==> d < env.options.maxReplay
    ensures var after := Perform(env, st, step);
            instance in after.publishers
            && RecalledWithin(after.publishers[instance].replay, attempt,
                              if CommitsFor(env, st, step, instance) then d + 1 else d)
  {
    hide Publish, MarkEverywhere, MarkAll, MarkSourceEverywhere, SeemsChanged, AnyCapabilities, Materialize,
      RecalledWithin, PushReplay;
    if step.Submit? {
      SubmitReplay(env, st, step.request, instance);
      if CommitsFor(env, st, step, instance) {
        var request := step.request;
        var record := ReplayRecord(request.attempt, request.publication,
                                   ContentOf(request, st.authorities[request.scope]));
        PushKeepsRecall(env, st.publishers[instance].replay, attempt, d, record);
      }
    }
  }

  lemma SubmitReplay(env: Environment, st: State, request: Request, instance: PublisherKey)
    requires instance in st.publishers
    ensures var (after, outcome) := Publish(env, st, request);
            instance in after.publishers &&
            if outcome.Committed? && request.Instance() == instance then
              request.scope in st.authorities &&
              after.publishers[instance].replay ==
              PushReplay(env, st.publishers[instance].replay,
                         ReplayRecord(request.attempt, request.publication,
                                      ContentOf(request, st.authorities[request.scope])))
            else after.publishers[instance].replay == st.publishers[instance].replay
  {
  }

  lemma {:induction false} RunKeepsRecall(env: Environment, st: State, steps: seq<Step>, instance: PublisherKey,
                                         attempt: Id, d: nat)
    requires forall step :: step in steps ==> KeepsInstance(step, instance)
    requires instance in st.publishers && RecalledWithin(st.publishers[instance].replay, attempt, d)
    requires d + CommitCount(env, st, steps, instance) <= env.options.maxReplay
    ensures var after := Run(env, st, steps);
            instance in after.publishers && Remembers(after.publishers[instance].replay, attempt)
    decreases |steps|
  {
    if steps != [] {
      assert steps == [steps[0]] + steps[1..];
      StepKeepsRecall(env, st, steps[0], instance, attempt, d);
      RunKeepsRecall(env, Perform(env, st, steps[0]), steps[1..], instance, attempt,
                     if CommitsFor(env, st, steps[0], instance) then d + 1 else d);
    }
  }

  /** A committed attempt is not committed a second time while its instance stays registered
      and commits fewer than the window's length of other attempts. */
  lemma NoAttemptCommitsTwice(env: Environment, st: State, request: Request, steps: seq<Step>, again: Request)
    requires env.Valid() && Publish(env, st, request).1.Committed?
    requires again.Instance() == request.Instance() && again.attempt == request.attempt
    requires forall step :: step in steps ==> KeepsInstance(step, request.Instance())
    requires CommitCount(env, Publish(env, st, request).0, steps, request.Instance()) < env.options.maxReplay
    ensures !Publish(env, Run(env, Publish(env, st, request).0, steps), again).1.Committed?
  {
    var after := Publish(env, st, request).0;
    assert request.Instance() in st.publishers;
    SubmitReplay(env, st, request, request.Instance());
    var replay := after.publishers[request.Instance()].replay;
    assert replay[|replay| - 1].attempt == request.attempt;
    RunKeepsRecall(env, after, steps, request.Instance(), request.attempt, 1);
    RememberedAttemptNeverCommits(env, Run(env, after, steps), again);
  }

  // ----- snapshots -----

  /** Everything a snapshot records of st is so in after too. What queries answer may differ: see
      `PartialSets`. */
  ghost predicate SameForSnapshots(st: State, after: State) {
    && after.epoch == st.epoch
    && forall e :: e in st.entities ==> e in after.entities && EntryFor(after, e) == EntryFor(st, e)
  }

  ghost predicate Progresses(st: State, after: State) {
    && after.registryGeneration >= st.registryGeneration
    && (after.registryGeneration == st.registryGeneration ==> SameForSnapshots(st, after))
  }

  lemma CommitProgresses(env: Environment, st: State, before: Entity, after: Entity, request: Request)
    requires request.Instance() in st.publishers && request.scope in st.authorities
    requires request.entity in st.entities && st.entities[request.entity] == before
    requires before.id == request.entity && SameHeader(before, after)
    ensures Progresses(st, Commit(env, st, before, after, request).0)
  {
  }

  lemma PublishLocatedProgresses(env: Environment, st: State, request: Request)
    requires request.entity in st.entities && st.entities[request.entity].id == request.entity
    requires request.Instance() in st.publishers && request.scope in st.authorities
    ensures Progresses(st, PublishLocated(env, st, request).0)
  {
    var entity := st.entities[request.entity];
    var grant := st.authorities[request.scope];
    ApplyRequestKeepsHeader(env, st.epoch, grant, entity, request);
    CommitProgresses(env, st, entity, ApplyRequest(env, st.epoch, grant, entity, request).entity, request);
  }

  lemma PublishProgresses(env: Environment, st: State, request: Request)
    requires StateOk(env, st)
    ensures Progresses(st, Publish(env, st, request).0)
  {
    if Admit(env, st, request) == None {
      var (located, error) := Locate(env, st, request);
      assert Progresses(st, located);
      if error == None {
        assert located.entities[request.entity].id == request.entity by {
          if request.entity in st.entities {
            assert EntityOk(ContextOf(env, st), request.entity, st.entities[request.entity]);
          }
        }
        PublishLocatedProgresses(env, located, request);
        ProgressComposes(st, located, PublishLocated(env, located, request).0);
      }
    }
  }

  lemma ProgressComposes(a: State, b: State, c: State)
    requires Progresses(a, b) && Progresses(b, c)
    ensures Progresses(a, c)
  {
  }

  lemma FenceProgresses(env: Environment, st: State, boot: Id, owner: Id, reason: Id)
    ensures Progresses(st, FenceWorkerBoot(env, st, boot, owner, reason).0)
  {
  }

  lemma InvalidationProgresses(st: State, id: Id, generation: nat, reason: Id)
    ensures Progresses(st, InvalidateEntity(st, id, generation, reason).0)
  {
  }

  lemma SourceInvalidationProgresses(st: State, source: Id, reason: Id)
    ensures Progresses(st, InvalidateSource(st, source, reason).0)
  {
  }

  /** Whenever a mutation changes an entity's generation, set generation or set digest, or the
      epoch, it also advances the registry generation. */
  lemma StepProgresses(env: Environment, st: State, step: Step)
    requires StateOk(env, st) && !step.Restart?
    ensures Progresses(st, Perform(env, st, step))
  {
    hide Publish, FenceWorkerBoot, InvalidateEntity, InvalidateSource;
    match step
    case Submit(request) => PublishProgresses(env, st, request);
    case FenceBoot(boot, owner, reason) => FenceProgresses(env, st, boot, owner, reason);
    case Invalidate(entity, generation, reason) => InvalidationProgresses(st, entity, generation, reason);
    case InvalidateSourceEvidence(source, reason) => SourceInvalidationProgresses(st, source, reason);
    case _ =>
  }

  lemma {:induction false} RunProgresses(env: Environment, st: State, steps: seq<Step>)
    requires env.Valid() && StateOk(env, st) && IsRun(env, st, steps)
    requires forall step :: step in steps ==> !step.Restart?
    ensures Progresses(st, Run(env, st, steps))
    decreases |steps|
  {
    if steps != [] {
      assert steps == [steps[0]] + steps[1..];
      var next := Perform(env, st, steps[0]);
      StepProgresses(env, st, steps[0]);
      PerformKeepsState(env, st, steps[0]);
      RunProgresses(env, next, steps[1..]);
      ProgressComposes(st, next, Run(env, next, steps[1..]));
    }
  }

  /** In a run without a load, an unchanged registry generation alone proves a snapshot current. */
  lemma MatchingGenerationProvesSnapshot(env: Environment, st: State, ids: seq<Id>, steps: seq<Step>)
    requires env.Valid() && StateOk(env, st) && IsRun(env, st, steps)
    requires forall step :: step in steps ==> !step.Restart?
    requires forall id :: id in ids ==> id in st.entities
    ensures var after := Run(env, st, steps);
            SnapshotIsCurrent(after, TakeSnapshot(st, ids)) <==> after.registryGeneration == st.registryGeneration
  {
    RunProgresses(env, st, steps);
    var after := Run(env, st, steps);
    var snapshot := TakeSnapshot(st, ids);
    if after.registryGeneration == st.registryGeneration {
      forall entry | entry in snapshot.entries
        ensures entry.entity in after.entities && EntryFor(after, entry.entity) == entry
      {
        var i :| 0 <= i < |ids| && snapshot.entries[i] == entry;
        assert ids[i] in ids;
      }
    }
  }

  lemma NothingCurrentIsNotActionable(ctx: Context, entity: Entity, c: Id, entry: Entry)
    requires EntryOk(ctx, entity, c, entry)
    requires forall r :: r in entry.evidence ==> !IsCurrent(r)
    ensures !ResolutionOf(c, entry).Actionable()
  {
    SyncedFollowsRule(c, entry);
    if ResolutionOf(c, entry).Actionable() {
      var w := SupportedWinner(LiveSet(entry.evidence), entry.resolution.value);
    }
  }

  /** Invalidation never overlooks a touched entry: a touched entry is no longer actionable. */
  lemma InvalidationNeverMisses(ctx: Context, id: Id, entity: Entity, reason: Id)
    requires EntityOk(ctx, id, entity)
    requires MarkAll(entity, EntityMark(reason)) != entity
    ensures SeemsChanged(entity, MarkAll(entity, EntityMark(reason)))
  {
    hide Resolve, EntryOk;
    var marked := MarkAll(entity, EntityMark(reason));
    assert marked.capabilities != entity.capabilities;
    var c :| c in entity.capabilities && marked.capabilities[c] != entity.capabilities[c];
    MarkedEntityOk(ctx, id, entity, EntityMark(reason));
    MarkedEntryIsNotCurrent(c, entity.capabilities[c], EntityMark(reason));
    NothingCurrentIsNotActionable(ctx, marked, c, marked.capabilities[c]);
  }

  // ----- generations -----

  ghost predicate FloorsRise(a: Entity, b: Entity) {
    forall k :: k in a.highWater ==> k in b.highWater && a.highWater[k] <= b.highWater[k]
  }

  /** Generations only move forward; within one entity generation so do the set generation
      and every source floor. */
  ghost predicate EntityAdvances(a: Entity, b: Entity) {
    && a.current <= b.current
    && (a.current == b.current ==> a.setGeneration <= b.setGeneration && FloorsRise(a, b))
  }

  ghost predicate StateAdvances(st: State, after: State) {
    forall e :: e in st.entities ==> e in after.entities && EntityAdvances(st.entities[e], after.entities[e])
  }

  lemma AdvanceComposes(a: State, b: State, c: State)
    requires StateAdvances(a, b) && StateAdvances(b, c)
    ensures StateAdvances(a, c)
  {
  }

  lemma CommitAdvances(before: Entity, after: Entity, request: Request, registryGeneration: nat)
    requires SameHeader(before, after)
    requires request.Key() in before.highWater ==> before.highWater[request.Key()] <= request.sourceGeneration
    ensures var entity := CommitEntity(before, after, request, registryGeneration);
            EntityAdvances(before, entity) && request.Key() in entity.highWater
            && entity.highWater[request.Key()] == request.sourceGeneration
  {
  }

  lemma PutAdvances(st: State, id: Id, entity: Entity)
    requires id in st.entities && EntityAdvances(st.entities[id], entity)
    ensures StateAdvances(st, PutEntity(st, id, entity))
  {
  }

  lemma PublishLocatedAdvances(env: Environment, st: State, request: Request)
    requires request.entity in st.entities && request.Instance() in st.publishers && request.scope in st.authorities
    ensures StateAdvances(st, PublishLocated(env, st, request).0)
  {
    var entity := st.entities[request.entity];
    var grant := st.authorities[request.scope];
    var after := ApplyRequest(env, st.epoch, grant, entity, request).entity;
    ApplyRequestKeepsHeader(env, st.epoch, grant, entity, request);
    PutAdvances(st, request.entity, after);
    if CheckGenerations(entity, request) == None {
      var registryGeneration := if SemanticChange(entity, after) then st.registryGeneration + 1
          else st.registryGeneration;
      CommitAdvances(entity, after, request, registryGeneration);
      PutAdvances(st, request.entity, CommitEntity(entity, after, request, registryGeneration));
    }
  }

  lemma PublishAdvances(env: Environment, st: State, request: Request)
    ensures StateAdvances(st, Publish(env, st, request).0)
  {
    if Admit(env, st, request) == None {
      var (located, error) := Locate(env, st, request);
      assert StateAdvances(st, located);
      if error == None {
        PublishLocatedAdvances(env, located, request);
        AdvanceComposes(st, located, PublishLocated(env, located, request).0);
      }
    }
  }

  lemma LoadAdvances(env: Environment, st: State, payload: Payload)
    requires StateOk(env, st) && Saves(st, payload)
    ensures StateAdvances(st, Load(payload))
  {
    var ctx, g := ContextOf(env, st), st.registryGeneration;
    forall e | e in st.entities
      ensures e in Load(payload).entities && EntityAdvances(st.entities[e], Load(payload).entities[e])
    {
      var se := LoadedFrom(ctx, st.entities, payload.entities, g, e);
      LoadedEntityOk(ctx, ctx, st.entities[e], se, g);
    }
  }

  lemma MarkingAdvances(st: State, after: State, mark: Mark)
    requires after.entities == MarkEverywhere(st.entities, mark, st.registryGeneration)
    ensures StateAdvances(st, after)
  {
  }

  lemma FenceAdvances(env: Environment, st: State, boot: Id, owner: Id, reason: Id)
    ensures StateAdvances(st, FenceWorkerBoot(env, st, boot, owner, reason).0)
  {
    var after := FenceWorkerBoot(env, st, boot, owner, reason).0;
    if after.entities != st.entities {
      MarkingAdvances(st, after, BootMark(boot, reason));
    }
  }

  lemma EpochAdvances(env: Environment, st: State, boots: seq<Id>, reason: Id)
    ensures StateAdvances(st, AdvanceEpoch(env, st, boots, reason))
  {
  }

  lemma ObserveAdvances(env: Environment, st: State, id: Id, generation: nat)
    ensures StateAdvances(st, ObserveGeneration(env, st, id, generation).0)
  {
  }

  lemma InvalidationAdvances(st: State, id: Id, generation: nat, reason: Id)
    ensures StateAdvances(st, InvalidateEntity(st, id, generation, reason).0)
  {
    hide MarkEntry, SeemsChanged, Materialize;
  }

  lemma SourceInvalidationAdvances(st: State, source: Id, reason: Id)
    ensures StateAdvances(st, InvalidateSource(st, source, reason).0)
  {
  }

  lemma StepAdvances(env: Environment, st: State, step: Step)
    requires StateOk(env, st) && Enabled(st, step)
    ensures StateAdvances(st, Perform(env, st, step))
  {
    hide Publish, FenceWorkerBoot, InvalidateEntity, InvalidateSource, AdvanceEpoch, ObserveGeneration, Load;
    match step
    case Submit(request) => PublishAdvances(env, st, request);
    case FenceBoot(boot, owner, reason) => FenceAdvances(env, st, boot, owner, reason);
    case Advance(boots, reason) => EpochAdvances(env, st, boots, reason);
    case Observe(entity, generation) => ObserveAdvances(env, st, entity, generation);
    case Invalidate(entity, generation, reason) => InvalidationAdvances(st, entity, generation, reason);
    case InvalidateSourceEvidence(source, reason) => SourceInvalidationAdvances(st, source, reason);
    case Restart(payload) => LoadAdvances(env, st, payload);
    case _ =>
  }

  lemma {:induction false} RunAdvances(env: Environment, st: State, steps: seq<Step>)
    requires env.Valid() && StateOk(env, st) && IsRun(env, st, steps)
    ensures StateAdvances(st, Run(env, st, steps))
    decreases |steps|
  {
    if steps != [] {
      var next := Perform(env, st, steps[0]);
      StepAdvances(env, st, steps[0]);
      PerformKeepsState(env, st, steps[0]);
      RunAdvances(env, next, steps[1..]);
      AdvanceComposes(st, next, Run(env, next, steps[1..]));
    }
  }

  /** A commit finds the expected set generation and, when it changes anything, moves it up by
      exactly one; it never accepts a source generation below the floor, and raises the floor to it. */
  lemma CommitMovesFromExpected(env: Environment, st: State, request: Request)
    requires StateOk(env, st) && Publish(env, st, request).1.Committed?
    ensures var (after, outcome) := Publish(env, st, request);
            && request.entity in after.entities
            && after.entities[request.entity].current == request.entityGeneration
            && after.entities[request.entity].setGeneration == outcome.next
            && outcome.next == (if outcome.semantic then request.expected + 1 else request.expected)
            && request.Key() in after.entities[request.entity].highWater
            && after.entities[request.entity].highWater[request.Key()] == request.sourceGeneration
            && (request.entity in st.entities && st.entities[request.entity].current == request.entityGeneration ==>
                  && st.entities[request.entity].setGeneration == request.expected
                  && (request.Key() in st.entities[request.entity].highWater ==>
                        st.entities[request.entity].highWater[request.Key()] <= request.sourceGeneration))
  {
    AdmittedRequestIsOk(env, st, request);
    LocateKeepsState(env, st, request);
    LocatedGeneration(env, st, request);
    var located := Locate(env, st, request).0;
    LocatedCommit(env, located, request);
  }

  lemma LocatedCommit(env: Environment, st: State, request: Request)
    requires StateOk(env, st) && request.entity in st.entities
    requires request.Instance() in st.publishers && request.scope in st.authorities
    requires PublishLocated(env, st, request).1.Committed?
    ensures var (after, outcome) := PublishLocated(env, st, request);
            && request.entity in after.entities
            && after.entities[request.entity].current == st.entities[request.entity].current
            && after.entities[request.entity].setGeneration == outcome.next
            && outcome.next == (if outcome.semantic then request.expected + 1 else request.expected)
            && request.Key() in after.entities[request.entity].highWater
            && after.entities[request.entity].highWater[request.Key()] == request.sourceGeneration
            && st.entities[request.entity].setGeneration == request.expected
            && (request.Key() in st.entities[request.entity].highWater ==>
                  st.entities[request.entity].highWater[request.Key()] <= request.sourceGeneration)
  {
    var entity := st.entities[request.entity];
    var grant := st.authorities[request.scope];
    assert EntityOk(ContextOf(env, st), request.entity, entity);
    ApplyRequestKeepsHeader(env, st.epoch, grant, entity, request);
    var applied := ApplyRequest(env, st.epoch, grant, entity, request);
    CommitAdvances(entity, applied.entity, request,
                   if SemanticChange(entity, applied.entity) then st.registryGeneration + 1 else st.registryGeneration);
  }

  /** No lost update: two commits to one entity generation, with anything between them (a
      restart included), never consume the same expected generation if the first one changed
      the set, and one source key is never accepted with a decreasing source generation. */
  lemma NoLostUpdate(env: Environment, st: State, first: Request, steps: seq<Step>, second: Request)
    requires env.Valid() && StateOk(env, st)
    requires Publish(env, st, first).1.Committed?
    requires IsRun(env, Publish(env, st, first).0, steps)
    requires Publish(env, Run(env, Publish(env, st, first).0, steps), second).1.Committed?
    requires second.entity == first.entity && second.entityGeneration == first.entityGeneration
    ensures first.expected <= second.expected
    ensures Publish(env, st, first).1.semantic ==> first.expected < second.expected
    ensures second.Key() == first.Key() ==> first.sourceGeneration <= second.sourceGeneration
  {
    var between := Publish(env, st, first).0;
    var later := Run(env, between, steps);
    PublishKeepsState(env, st, first);
    RunKeepsState(env, between, steps);
    RunAdvances(env, between, steps);
    CommitMovesFromExpected(env, st, first);
    CommitMovesFromExpected(env, later, second);
    PublishAdvances(env, later, second);
    assert EntityAdvances(between.entities[first.entity], later.entities[first.entity]);
    assert EntityAdvances(later.entities[first.entity], Publish(env, later, second).0.entities[first.entity]);
  }
}
