/** How long a fence lasts: a fenced boot can neither register nor publish, and its fence goes
    only when it is evicted to make room for another one. */
module Fencing {
  import opened Sequences
  import opened Evidence
  import opened RegistryState
  import opened RegistrySteps
  import opened RegistryInvariant
  import opened Recovery
  import Runs

  /** A fence is refused exactly for an unset boot, or when every fence still protects current evidence. */
  lemma FenceIsRefusedExactly(env: Environment, st: State, boot: Id, owner: Id, reason: Id)
    ensures FenceWorkerBoot(env, st, boot, owner, reason).1.Some? <==>
            boot == 0 || (boot !in st.fencedBoots && |st.fences| >= env.options.maxFences
                          && forall f :: f in st.fences ==> OwnsCurrentEvidence(st.entities, f.boot))
  {
  }

  /** A fenced boot can neither publish nor register; trying changes nothing. */
  lemma FencedBootIsShutOut(env: Environment, st: State, request: Request)
    requires request.boot in st.fencedBoots
    ensures Publish(env, st, request).0 == st && Publish(env, st, request).1.Rejected?
    ensures RegisterPublisher(env, st, request.publisher, request.scope, request.boot).0 == st
    ensures RegisterPublisher(env, st, request.publisher, request.scope, request.boot).1.Some?
  {
    hide Locate, PublishLocated, CheckContents, CheckGrant;
  }

  lemma PublishKeepsEpochAndFences(env: Environment, st: State, request: Request)
    ensures Publish(env, st, request).0.epoch == st.epoch && Publish(env, st, request).0.fencedBoots == st.fencedBoots
  {
    hide ApplyRequest, Admit, ClassifyReplay, CheckGenerations, CommitEntity, ContentOf, SemanticChange,
      RetireGeneration;
  }

  lemma InvalidationKeepsEpochAndFences(st: State, id: Id, generation: nat, reason: Id)
    ensures InvalidateEntity(st, id, generation, reason).0.epoch == st.epoch
    ensures InvalidateEntity(st, id, generation, reason).0.fencedBoots == st.fencedBoots
    ensures InvalidateSource(st, id, reason).0.epoch == st.epoch
    ensures InvalidateSource(st, id, reason).0.fencedBoots == st.fencedBoots
  {
  }

  lemma {:induction false} ListedKeepsFences(fences: seq<Fence>, fenced: set<Id>, boots: seq<Id>, limit: nat,
                                             reason: Id)
    ensures fenced <= FenceListed(fences, fenced, boots, limit, reason).1
    decreases |boots|
  {
    if boots != [] && boots[0] in fenced {
      ListedKeepsFences(fences, fenced, boots[1..], limit, reason);
    } else if boots != [] && |fences| < limit {
      ListedKeepsFences(fences + [Fence(boots[0], 0, reason)], fenced + {boots[0]}, boots[1..], limit, reason);
    }
  }

  ghost function Unfenced(boots: seq<Id>, fenced: set<Id>): set<Id> {
    set b | b in boots && b !in fenced
  }

  lemma {:induction false} ListedFencesExactly(fences: seq<Fence>, fenced: set<Id>, boots: seq<Id>, limit: nat,
                                               reason: Id)
    ensures (forall b :: b in boots ==> b in FenceListed(fences, fenced, boots, limit, reason).1) <==>
            Unfenced(boots, fenced) == {} || |fences| + |Unfenced(boots, fenced)| <= limit
    decreases |boots|
  {
    if boots == [] {
      assert Unfenced(boots, fenced) == {};
    } else {
      var b, rest := boots[0], boots[1..];
      assert boots == [b] + rest;
      var unfenced := Unfenced(boots, fenced);
      if b in fenced {
        ListedFencesExactly(fences, fenced, rest, limit, reason);
        assert unfenced == Unfenced(rest, fenced);
        ListedKeepsFences(fences, fenced, boots, limit, reason);
      } else {
        assert b in unfenced && |unfenced| >= 1;
        if |fences| < limit {
          ListedFencesExactly(fences + [Fence(b, 0, reason)], fenced + {b}, rest, limit, reason);
          ListedKeepsFences(fences + [Fence(b, 0, reason)], fenced + {b}, rest, limit, reason);
          var left := Unfenced(rest, fenced + {b});
          assert left == unfenced - {b} && |left| == |unfenced| - 1;
          assert left == {} <==> |left| == 0;
        } else {
          assert b in boots && b !in FenceListed(fences, fenced, boots, limit, reason).1;
        }
      }
    }
  }

  /** An epoch advance fences every registered boot exactly when the fence list has room for all
      those that are not fenced yet. */
  lemma AdvanceFencesEveryBootExactlyWhen(env: Environment, st: State, boots: seq<Id>, reason: Id)
    requires ListsBoots(st, boots)
    ensures var unfenced := Unfenced(boots, st.fencedBoots);
            (forall k :: k in st.publishers ==> k.boot in AdvanceEpoch(env, st, boots, reason).fencedBoots) <==>
            unfenced == {} || |st.fences| + |unfenced| <= env.options.maxFences
  {
    hide MarkEverywhere, FenceListed, Unfenced;
    ListedFencesExactly(st.fences, st.fencedBoots, boots, env.options.maxFences, reason);
    var fenced := AdvanceEpoch(env, st, boots, reason).fencedBoots;
    forall b | b in boots ensures exists k :: k in st.publishers && k.boot == b {
    }
    forall k | k in st.publishers ensures k.boot in boots {
    }
    assert (forall b :: b in boots ==> b in fenced) <==> (forall k :: k in st.publishers ==> k.boot in fenced);
  }

  /** The promise fails: with room for one fence and one held already, an advance leaves a registered
      boot unfenced, and it may register again. */
  lemma AdvanceMayLeaveBootUnfenced() returns (env: Environment, st: State, boots: seq<Id>)
    ensures env.Valid() && StateOk(env, st) && ListsBoots(st, boots) && PublisherKey(1, 2) in st.publishers
    ensures var after := AdvanceEpoch(env, st, boots, 0);
            2 !in after.fencedBoots && RegisterPublisher(env, after, 1, 1, 2).1 == None
  {
    env := Environment(Options(8, 8, 8, 8, 1, 8, 8), [], x => 1, x => 1);
    st := FENCED.(publishers := map[PublisherKey(1, 2) := Runtime(1, 1, true, [])]);
    boots := [2];
    assert PublisherKey(1, 2) in st.publishers;
    assert FenceListed(st.fences, st.fencedBoots, boots, 1, 0) == (st.fences, st.fencedBoots);
  }

  /** Fencing another boot evicts this one's fence: the list is full and its fence is the oldest
      that protects no current evidence. */
  ghost predicate Evicts(env: Environment, st: State, step: Step, boot: Id) {
    && step.FenceBoot? && step.boot != 0 && step.boot !in st.fencedBoots && |st.fences| >= env.options.maxFences
    && var victim := FirstEvictable(st.entities, st.fences);
    victim < |st.fences| && st.fences[victim].boot == boot
  }

  lemma FencingLosesExactly(env: Environment, st: State, other: Id, owner: Id, reason: Id, boot: Id)
    requires boot in st.fencedBoots
    ensures boot !in FenceWorkerBoot(env, st, other, owner, reason).0.fencedBoots <==>
            Evicts(env, st, FenceBoot(other, owner, reason), boot)
  {
  }

  lemma LoadKeepsFences(env: Environment, st: State, payload: Payload)
    requires StateOk(env, st) && Saves(st, payload)
    ensures Load(payload).fencedBoots == st.fencedBoots
  {
    hide SavesEntities, SavesAuthorities, SavesRegistrations, LoadEntities, LoadGrants, LoadRegistrations, Filter;
    LoadedFencesOk(st, payload.fences);
  }

  /** A step takes a fence away exactly when it evicts it; a load never does. */
  lemma FenceIsLostExactlyWhen(env: Environment, st: State, step: Step, boot: Id)
    requires StateOk(env, st) && RegistrySteps.Enabled(st, step) && boot in st.fencedBoots
    ensures boot !in Perform(env, st, step).fencedBoots <==> Evicts(env, st, step, boot)
  {
    hide Publish, FenceWorkerBoot, InvalidateEntity, InvalidateSource, FenceListed, MarkEverywhere, Load, StateOk;
    match step
    case Submit(request) => PublishKeepsEpochAndFences(env, st, request);
    case FenceBoot(other, owner, reason) => FencingLosesExactly(env, st, other, owner, reason, boot);
    case Advance(boots, reason) => ListedKeepsFences(st.fences, st.fencedBoots, boots, env.options.maxFences, reason);
    case Invalidate(entity, generation, reason) => InvalidationKeepsEpochAndFences(st, entity, generation, reason);
    case InvalidateSourceEvidence(source, reason) => InvalidationKeepsEpochAndFences(st, source, 0, reason);
    case Restart(payload) => LoadKeepsFences(env, st, payload);
    case _ =>
  }

  /** Some step of the run evicts the boot's fence while the boot is fenced. */
  ghost predicate EvictedIn(env: Environment, st: State, steps: seq<Step>, boot: Id)
    decreases |steps|
  {
    steps != [] && (Evicts(env, st, steps[0], boot) || EvictedIn(env, Perform(env, st, steps[0]), steps[1..], boot))
  }

  /** A fenced boot stays shut out through every run, restarts included, that does not evict its fence. */
  lemma {:induction false} FencedBootNeverPublishes(env: Environment, st: State, steps: seq<Step>, request: Request)
    requires env.Valid() && StateOk(env, st) && IsRun(env, st, steps) && request.boot in st.fencedBoots
    requires !EvictedIn(env, st, steps, request.boot)
    ensures request.boot in Run(env, st, steps).fencedBoots
    ensures Publish(env, Run(env, st, steps), request).0 == Run(env, st, steps)
    ensures Publish(env, Run(env, st, steps), request).1.Rejected?
    decreases |steps|
  {
    hide Perform, Publish, StateOk, Evicts, RegistrySteps.Enabled;
    if steps == [] {
      FencedBootIsShutOut(env, st, request);
    } else {
      FenceIsLostExactlyWhen(env, st, steps[0], request.boot);
      Runs.PerformKeepsState(env, st, steps[0]);
      FencedBootNeverPublishes(env, Perform(env, st, steps[0]), steps[1..], request);
    }
  }

  lemma SecondFenceEvicts(env: Environment, st: State)
    requires env.options.maxFences == 1 && st.entities == map[] && st.fences == [Fence(1, 0, 0)]
             && st.fencedBoots == {1}
    ensures var after := FenceWorkerBoot(env, st, 2, 0, 0).0;
            && after.fencedBoots == {2} && after.entities == map[] && after.authorities == st.authorities
            && after.epoch == st.epoch && after.publishers == st.publishers - {PublisherKey(0, 2)}
  {
  }

  lemma FirstSnapshotCommits(env: Environment, st: State, request: Request)
    requires Admit(env, st, request) == None && st.entities == map[] && env.options.maxEntities > 0
    requires request.Instance() in st.publishers && st.publishers[request.Instance()].replay == []
    requires request.scope in st.authorities && !st.authorities[request.scope].exclusive
    requires request.mode.FullSnapshot? && request.claims == [] && request.expected == 0
    ensures Publish(env, st, request).1.Committed?
  {
    hide Admit, ContentOf, SemanticChange, CommitEntity, ApplyRequest;
    NothingToApply(env, st.epoch, st.authorities[request.scope], NewEntity(request.entity, request.entityGeneration),
                   request);
  }

  lemma TwoSteps(env: Environment, st: State, a: Step, b: Step)
    requires RegistrySteps.Enabled(st, a) && RegistrySteps.Enabled(Perform(env, st, a), b)
    ensures IsRun(env, st, [a, b]) && Run(env, st, [a, b]) == Perform(env, Perform(env, st, a), b)
  {
    hide Perform, RegistrySteps.Enabled;
    var once, twice := Perform(env, st, a), Perform(env, Perform(env, st, a), b);
    assert [a, b][1..] == [b] && [b][1..] == [];
    assert IsRun(env, twice, []) && Run(env, twice, []) == twice;
    assert IsRun(env, once, [b]) && Run(env, once, [b]) == twice;
  }

  const GRANT: Grant := Grant(1, [1], [1], {FullSnapshot}, false, false, 0, [], 8)

  /** One scope, one fenced boot and nothing else. */
  const FENCED: State := Initial(1).(authorities := map[1 := GRANT], fencedBoots := {1}, fences := [Fence(1, 0, 0)])

  lemma ReturnedBootIsAdmitted(env: Environment, st: State, request: Request)
    requires request == Request(FullSnapshot, 1, 1, 1, 1, 1, 1, 1, 1, 1, 1, 0, [], [], Partial, 0)
    requires env.kindOf(1) == 1 && st.epoch == 1 && st.fencedBoots == {2} && st.authorities == map[1 := GRANT]
    requires PublisherKey(1, 1) in st.publishers && st.publishers[PublisherKey(1, 1)] == Runtime(1, 1, true, [])
    ensures Admit(env, st, request) == None
  {
  }

  /** Without that condition a fenced boot may publish again: fencing another boot when the list is
      full evicts its fence, and it registers and commits. */
  lemma EvictedBootMayPublish() returns (env: Environment, st: State, steps: seq<Step>, request: Request)
    ensures env.Valid() && StateOk(env, st) && IsRun(env, st, steps)
    ensures request.boot in st.fencedBoots && Publish(env, Run(env, st, steps), request).1.Committed?
  {
    hide ContentOf, FenceWorkerBoot, Publish, Admit, IsRun, Run;
    env := Environment(Options(8, 8, 8, 8, 1, 8, 8), [], x => 1, x => 1);
    st := FENCED;
    steps := [FenceBoot(2, 0, 0), Register(1, 1, 1)];
    request := Request(FullSnapshot, 1, 1, 1, 1, 1, 1, 1, 1, 1, 1, 0, [], [], Partial, 0);
    SecondFenceEvicts(env, st);
    var once := Perform(env, st, steps[0]);
    var twice := Perform(env, once, steps[1]);
    TwoSteps(env, st, steps[0], steps[1]);
    assert twice == once.(publishers := once.publishers[PublisherKey(1, 1) := Runtime(1, 1, true, [])]);
    ReturnedBootIsAdmitted(env, twice, request);
    FirstSnapshotCommits(env, twice, request);
  }

  lemma NothingToApply(env: Environment, epoch: nat, grant: Grant, entity: Entity, request: Request)
    requires request.mode.FullSnapshot? && request.claims == [] && !grant.exclusive && entity.capabilities == map[]
    ensures ApplyRequest(env, epoch, grant, entity, request) == Applied(entity, None)
  {
  }
}
