/** Exactly when an attempt that was committed may commit again. The window of an instance holds its last
    commits since it was registered, and registering anew empties it. */
module ReplayWindows {
  import opened Sequences
  import opened Evidence
  import opened RegistryState
  import opened RegistrySteps
  import opened RegistryInvariant
  import opened Publications
  import opened PartialSets
  import opened Runs
  import ArrivalOrder
  import Fencing
  import Rejections

  function LastOf<T>(n: nat, s: seq<T>): seq<T> { if |s| <= n then s else s[|s| - n..] }

  /** What a commit remembers of its request. */
  function Remembered(st: State, request: Request): ReplayRecord
    requires request.scope in st.authorities
  {
    ReplayRecord(request.attempt, request.publication, ContentOf(request, st.authorities[request.scope]))
  }

  /** What a step commits for an instance: one record or none. */
  ghost function StepCommit(env: Environment, st: State, step: Step, instance: PublisherKey): seq<ReplayRecord> {
    if CommitsFor(env, st, step, instance) && step.request.scope in st.authorities then [Remembered(st, step.request)]
    else []
  }

  /** The commits of an instance over a run, in order. */
  ghost function CommitLog(env: Environment, st: State, steps: seq<Step>, instance: PublisherKey): seq<ReplayRecord>
    decreases |steps|
  {
    if steps == [] then []
    else
      StepCommit(env, st, steps[0], instance) + CommitLog(env, Perform(env, st, steps[0]), steps[1..], instance)
  }

  lemma PushIsLast(env: Environment, window: seq<ReplayRecord>, record: ReplayRecord)
    requires env.Valid() && |window| <= env.options.maxReplay
    ensures PushReplay(env, window, record) == LastOf(env.options.maxReplay, window + [record])
  {
  }

  lemma LastOfLast<T>(n: nat, a: seq<T>, b: seq<T>)
    ensures LastOf(n, LastOf(n, a) + b) == LastOf(n, a + b)
  {
  }

  lemma OtherStepKeepsWindow(env: Environment, st: State, step: Step, instance: PublisherKey)
    requires !step.Submit? && KeepsInstance(step, instance) && instance in st.publishers
    ensures instance in Perform(env, st, step).publishers
    ensures Perform(env, st, step).publishers[instance].replay == st.publishers[instance].replay
  {
    hide Publish, MarkEverywhere, MarkAll, MarkSourceEverywhere, SeemsChanged, AnyCapabilities, Materialize, Refresh;
  }

  lemma StepWindow(env: Environment, st: State, step: Step, instance: PublisherKey)
    requires env.Valid() && KeepsInstance(step, instance) && instance in st.publishers
    requires |st.publishers[instance].replay| <= env.options.maxReplay
    ensures instance in Perform(env, st, step).publishers
    ensures Perform(env, st, step).publishers[instance].replay ==
            LastOf(env.options.maxReplay, st.publishers[instance].replay + StepCommit(env, st, step, instance))
    ensures |StepCommit(env, st, step, instance)| == if CommitsFor(env, st, step, instance) then 1 else 0
  {
    hide Publish, KeepsInstance, MarkEverywhere, MarkAll, MarkSourceEverywhere, SeemsChanged, AnyCapabilities,
      Materialize, PushReplay, ContentOf, LastOf;
    var window := st.publishers[instance].replay;
    NothingPushed(env.options.maxReplay, window);
    if !step.Submit? {
      OtherStepKeepsWindow(env, st, step, instance);
    } else {
      SubmitReplay(env, st, step.request, instance);
      if CommitsFor(env, st, step, instance) {
        PushIsLast(env, window, Remembered(st, step.request));
      }
    }
  }

  lemma WindowBound<T>(n: nat, s: seq<T>)
    ensures |LastOf(n, s)| <= n
  {
  }

  lemma NothingPushed<T>(n: nat, s: seq<T>)
    requires |s| <= n
    ensures LastOf(n, s + []) == s
  {
  }

  /** Over a run that keeps an instance, its window holds the last commits and no other. */
  lemma {:induction false} WindowIsLastCommits(env: Environment, st: State, steps: seq<Step>, instance: PublisherKey)
    requires env.Valid() && instance in st.publishers && |st.publishers[instance].replay| <= env.options.maxReplay
    requires forall step :: step in steps ==> KeepsInstance(step, instance)
    ensures instance in Run(env, st, steps).publishers
    ensures Run(env, st, steps).publishers[instance].replay ==
            LastOf(env.options.maxReplay, st.publishers[instance].replay + CommitLog(env, st, steps, instance))
    ensures |CommitLog(env, st, steps, instance)| == CommitCount(env, st, steps, instance)
    decreases |steps|
  {
    hide Perform, KeepsInstance, CommitsFor, StepCommit, LastOf;
    var window := st.publishers[instance].replay;
    if steps == [] {
      NothingPushed(env.options.maxReplay, window);
    } else {
      assert steps == [steps[0]] + steps[1..];
      var next, here := Perform(env, st, steps[0]), StepCommit(env, st, steps[0], instance);
      StepWindow(env, st, steps[0], instance);
      WindowBound(env.options.maxReplay, window + here);
      WindowIsLastCommits(env, next, steps[1..], instance);
      var rest := CommitLog(env, next, steps[1..], instance);
      LastOfLast(env.options.maxReplay, window + here, rest);
      assert window + here + rest == window + (here + rest);
    }
  }

  /** Whether a publication commits, step by step. */
  lemma CommitsExactly(env: Environment, st: State, request: Request)
    ensures Publish(env, st, request).1.Committed? <==>
            && ReachesStep10(env, st, request)
            && ApplyRequest(env, st.epoch, st.authorities[request.scope], StartOf(env, st, request), request).error
               == None
  {
    hide Admit, ApplyRequest, ContentOf, ClassifyReplay, CheckGenerations, Remembers;
    if Admit(env, st, request) == None && Locate(env, st, request).1 == None {
      ArrivalOrder.NewAttempt(st.publishers[request.Instance()].replay, request.attempt,
                              ContentOf(request, st.authorities[request.scope]));
      NeverCommittedByReplay(st.publishers[request.Instance()].replay, request.attempt,
                             ContentOf(request, st.authorities[request.scope]));
      Rejections.CommitIsCommitted(env, Locate(env, st, request).0, request);
    }
  }

  lemma NeverCommittedByReplay(replay: seq<ReplayRecord>, attempt: Id, content: Content)
    ensures ClassifyReplay(replay, attempt, content).Some? ==>
            !ClassifyReplay(replay, attempt, content).value.Committed?
  {
  }

  /** The steps other than the replay window let the request through. */
  ghost predicate OtherwiseAcceptable(env: Environment, st: State, request: Request) {
    && Admit(env, st, request) == None
    && Locate(env, st, request).1 == None
    && CheckGenerations(StartOf(env, st, request), request) == None
    && ApplyRequest(env, st.epoch, st.authorities[request.scope], StartOf(env, st, request), request).error == None
  }

  lemma LastHolds(n: nat, before: seq<ReplayRecord>, record: ReplayRecord, log: seq<ReplayRecord>)
    requires !Remembers(before, record.attempt) && !Remembers(log, record.attempt)
    ensures Remembers(LastOf(n, before + [record] + log), record.attempt) <==> |log| < n
  {
    var all := before + [record] + log;
    var last := LastOf(n, all);
    assert all[|before|] == record;
    if |log| < n {
      assert last[|last| - |log| - 1] == record;
    } else {
      assert last == LastOf(n, log);
      assert forall r :: r in last ==> r in log;
    }
  }

  /** A committed attempt commits again, over a run that keeps its instance and does not commit it in
      between, exactly when the run fills the window with other commits and nothing else is wrong. */
  lemma AttemptCommitsAgainExactlyWhen(env: Environment, st: State, request: Request, steps: seq<Step>, again: Request)
    requires env.Valid() && Publish(env, st, request).1.Committed?
    requires |st.publishers[request.Instance()].replay| <= env.options.maxReplay
    requires again.Instance() == request.Instance() && again.attempt == request.attempt
    requires forall step :: step in steps ==> KeepsInstance(step, request.Instance())
    requires !Remembers(CommitLog(env, Publish(env, st, request).0, steps, request.Instance()), request.attempt)
    ensures var after := Publish(env, st, request).0;
            Publish(env, Run(env, after, steps), again).1.Committed? <==>
            && CommitCount(env, after, steps, request.Instance()) >= env.options.maxReplay
            && OtherwiseAcceptable(env, Run(env, after, steps), again)
  {
    hide Publish, Admit, Run, ApplyRequest, ContentOf, Remembers, CheckGenerations, CommitLog, LastOf, CommitCount;
    var instance, after := request.Instance(), Publish(env, st, request).0;
    CommitsExactly(env, st, request);
    StepWindow(env, st, Submit(request), instance);
    var window := st.publishers[instance].replay;
    WindowBound(env.options.maxReplay, window + [Remembered(st, request)]);
    WindowIsLastCommits(env, after, steps, instance);
    var log := CommitLog(env, after, steps, instance);
    LastOfLast(env.options.maxReplay, window + [Remembered(st, request)], log);
    LastHolds(env.options.maxReplay, window, Remembered(st, request), log);
    CommitsExactly(env, Run(env, after, steps), again);
  }

  ghost predicate WindowsBounded(env: Environment, st: State) {
    forall k :: k in st.publishers ==> |st.publishers[k].replay| <= env.options.maxReplay
  }

  /** No step lets a window outgrow its limit. */
  lemma StepKeepsWindowsBounded(env: Environment, st: State, step: Step)
    requires env.Valid() && WindowsBounded(env, st)
    ensures WindowsBounded(env, Perform(env, st, step))
  {
    hide Publish, MarkEverywhere, MarkAll, MarkSourceEverywhere, SeemsChanged, AnyCapabilities, Materialize,
      LoadEntities;
    var after := Perform(env, st, step);
    match step
    case Submit(request) =>
      forall k | k in after.publishers ensures |after.publishers[k].replay| <= env.options.maxReplay {
        PublishKeepsInstances(env, st, request);
        SubmitReplay(env, st, request, k);
      }
    case Restart(payload) =>
      LoadedWindowsEmpty(payload.registrations, BootsOf(Filter(HasBoot, payload.fences)), after.epoch);
    case _ =>
  }

  lemma PublishKeepsInstances(env: Environment, st: State, request: Request)
    ensures Publish(env, st, request).0.publishers.Keys == st.publishers.Keys
  {
    hide Admit, ApplyRequest, ContentOf, ClassifyReplay, CheckGenerations, PushReplay;
  }

  lemma {:induction false} LoadedWindowsEmpty(stored: seq<StoredRegistration>, fenced: set<Id>, epoch: nat)
    ensures forall k :: k in LoadRegistrations(stored, fenced, epoch) ==>
              LoadRegistrations(stored, fenced, epoch)[k].replay == []
  {
    if stored != [] {
      LoadedWindowsEmpty(stored[..|stored| - 1], fenced, epoch);
    }
  }

  // ----- registering anew -----

  /** After a registration an attempt commits exactly when nothing else is wrong with it, whatever the
      instance committed before. */
  lemma RegistrationForgets(env: Environment, st: State, publisher: Id, scope: Id, boot: Id, request: Request)
    requires RegisterPublisher(env, st, publisher, scope, boot).1 == None
    requires request.Instance() == PublisherKey(publisher, boot)
    ensures var after := RegisterPublisher(env, st, publisher, scope, boot).0;
            Publish(env, after, request).1.Committed? <==> OtherwiseAcceptable(env, after, request)
  {
    hide Publish, Admit, ApplyRequest, CheckGenerations;
    CommitsExactly(env, RegisterPublisher(env, st, publisher, scope, boot).0, request);
  }

  const OPEN: State := Initial(1).(authorities := map[1 := Fencing.GRANT],
                                   publishers := map[PublisherKey(1, 1) := Runtime(1, 1, true, [])])

  const WIDE: Environment := Environment(Options(8, 8, 8, 8, 8, 8, 8), [], x => 1, x => 1)

  /** An empty snapshot of entity 1, always under the same attempt. */
  function Snapshotting(expected: nat): Request {
    Request(FullSnapshot, 1, 1, 1, 1, 1, 1, 1, 1, 1, 1, expected, [], [], Partial, 0)
  }

  lemma SnapshottingIsAdmitted(st: State, expected: nat)
    requires st.epoch == 1 && st.fencedBoots == {} && st.authorities == OPEN.authorities
    requires PublisherKey(1, 1) in st.publishers
    requires var runtime := st.publishers[PublisherKey(1, 1)];
             runtime.active && runtime.scope == 1 && runtime.epoch == 1
    ensures Admit(WIDE, st, Snapshotting(expected)) == None
  {
  }

  lemma FirstSnapshot()
    ensures var (after, outcome) := Publish(WIDE, OPEN, Snapshotting(0));
            && outcome.Committed?
            && after == OPEN.(registryGeneration := 1, entities := after.entities, publishers := after.publishers)
            && after.entities.Keys == {1} && after.publishers.Keys == {PublisherKey(1, 1)}
            && after.entities[1].capabilities == map[] && after.entities[1].current == 1
            && after.entities[1].hasSet && after.entities[1].setGeneration == 1
            && after.entities[1].highWater == map[SourceKey(1, 1) := 1]
  {
    hide Admit, ApplyRequest, ContentOf, Materialize;
    SnapshottingIsAdmitted(OPEN, 0);
    Fencing.NothingToApply(WIDE, 1, Fencing.GRANT, NewEntity(1, 1), Snapshotting(0));
  }

  /** An attempt commits, its instance is registered anew, and the same attempt commits again. */
  lemma AttemptCommitsTwice()
    ensures WIDE.Valid() && StateOk(WIDE, OPEN)
    ensures Publish(WIDE, OPEN, Snapshotting(0)).1.Committed?
    ensures var first := Publish(WIDE, OPEN, Snapshotting(0)).0;
            var (anew, error) := RegisterPublisher(WIDE, first, 1, 1, 1);
            && error == None && Publish(WIDE, anew, Snapshotting(1)).1.Committed?
            && Snapshotting(1).attempt == Snapshotting(0).attempt
  {
    hide Publish, Admit, ApplyRequest, ContentOf;
    FirstSnapshot();
    var first := Publish(WIDE, OPEN, Snapshotting(0)).0;
    var anew := RegisterPublisher(WIDE, first, 1, 1, 1).0;
    SnapshottingIsAdmitted(anew, 1);
    Fencing.NothingToApply(WIDE, 1, Fencing.GRANT, anew.entities[1], Snapshotting(1));
    RegistrationForgets(WIDE, first, 1, 1, 1, Snapshotting(1));
  }
}
