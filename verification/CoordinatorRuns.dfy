/** What every interleaving of the connections keeps: records carry greeted identities,
    a closed connection's boot stays silent, and a request reaches the registry once. */
module CoordinatorRuns {
  import opened Sequences
  import opened Evidence
  import opened RegistryState
  import opened RegistrySteps
  import opened RegistryInvariant
  import opened Authorship
  import opened Fencing
  import opened C = Coordinator

  lemma {:induction false} RunKeepsOk(env: Environment, co: Coordinator, steps: seq<C.Step>)
    requires env.Valid() && CoordinatorOk(env, co) && C.IsRun(env, co, steps)
    ensures CoordinatorOk(env, C.Run(env, co, steps))
    decreases |steps|
  {
    hide CoordinatorOk, C.Perform;
    if steps != [] {
      StepKeepsOk(env, co, steps[0]);
      RunKeepsOk(env, C.Perform(env, co, steps[0]), steps[1..]);
    }
  }

  // ----- who wrote a record -----

  /** A coordinator over a registry that was loaded with records of the known identities. */
  function Opened(registry: State, known: set<Identity>): Coordinator {
    Coordinator(registry, map[], map[], known)
  }

  ghost predicate Adopts(co: Coordinator, step: C.Step, identity: Identity) {
    && step.Adopt? && C.Enabled(co, step)
    && co.connections[step.conn].phase.hello.identity == identity
  }

  /** Some step of the run accepted a Hello with this identity. */
  ghost predicate WasAdopted(env: Environment, co: Coordinator, steps: seq<C.Step>, identity: Identity)
    requires C.IsRun(env, co, steps)
    decreases |steps|
  {
    steps != [] && (Adopts(co, steps[0], identity)
                    || WasAdopted(env, C.Perform(env, co, steps[0]), steps[1..], identity))
  }

  lemma GreetedByAdoption(env: Environment, co: Coordinator, step: C.Step, identity: Identity)
    requires C.Enabled(co, step) && identity in C.Perform(env, co, step).greeted
    ensures identity in co.greeted || Adopts(co, step, identity)
  {
    hide RegisterPublisher, FenceWorkerBoot, Publish, RegistrySteps.Perform, Cached;
  }

  lemma {:induction false} RunGreetsByAdoption(env: Environment, co: Coordinator, steps: seq<C.Step>,
                                              identity: Identity)
    requires C.IsRun(env, co, steps) && identity in C.Run(env, co, steps).greeted
    ensures identity in co.greeted || WasAdopted(env, co, steps, identity)
    decreases |steps|
  {
    hide C.Perform, Adopts, Ready, NamesOwner;
    if steps != [] {
      var next := C.Perform(env, co, steps[0]);
      RunGreetsByAdoption(env, next, steps[1..], identity);
      if identity in next.greeted {
        GreetedByAdoption(env, co, steps[0], identity);
      }
    }
  }

  /** Under every interleaving, every record of the registry was loaded with it or carries the
      publisher, scope, source and boot of a Hello that some connection had accepted. */
  lemma EveryRecordWasGreeted(env: Environment, registry: State, known: set<Identity>, steps: seq<C.Step>,
                              e: Id, c: Id, r: Record)
    requires env.Valid() && StateOk(env, registry) && RecordsGreeted(registry.entities, known)
    requires C.IsRun(env, Opened(registry, known), steps)
    requires r in Held(C.Run(env, Opened(registry, known), steps).registry.entities, e, c)
    ensures IdentityOf(r) in known || WasAdopted(env, Opened(registry, known), steps, IdentityOf(r))
  {
    hide StateOk, Held;
    RunKeepsOk(env, Opened(registry, known), steps);
    RunGreetsByAdoption(env, Opened(registry, known), steps, IdentityOf(r));
  }

  /** Only an accepted Hello changes the identity of a connection. */
  lemma IdentityIsLastHello(env: Environment, co: Coordinator, step: C.Step, conn: nat)
    requires C.Enabled(co, step) && conn in co.connections
    requires conn in C.Perform(env, co, step).connections
    ensures C.Perform(env, co, step).connections[conn].identity ==
            if step == Adopt(conn) then Some(co.connections[conn].phase.hello.identity)
            else co.connections[conn].identity
  {
    hide RegisterPublisher, FenceWorkerBoot, Publish, RegistrySteps.Perform, GreetedNext, PublishNext, FenceNext,
      NamesOwner, MayDrop;
  }

  /** What a publication adds carries the identity its own connection holds at that moment. */
  lemma PublicationCarriesIdentity(env: Environment, co: Coordinator, conn: nat, e: Id, c: Id, r: Record)
    requires env.Valid() && CoordinatorOk(env, co) && C.Enabled(co, PublishStamped(conn))
    requires r in Held(C.Perform(env, co, PublishStamped(conn)).registry.entities, e, c)
    ensures Inherits(Held(co.registry.entities, e, c), r)
            || (co.connections[conn].identity.Some? && IdentityOf(r) == co.connections[conn].identity.value)
  {
    hide StateOk, CacheOk, RecordsGreeted, Publish, Inherits, Held;
    assert ConnectionOk(co.greeted, co.connections[conn]);
    var request := co.connections[conn].phase.request;
    PublishAddsOwnRecords(env, co.registry, request);
    assert ListFrom(Held(co.registry.entities, e, c), Held(Publish(env, co.registry, request).0.entities, e, c),
                    OriginOf(env, co.registry, request));
  }

  // ----- fences -----

  lemma FencedBootIsSilent(env: Environment, st: State, boot: Id, e: Id, c: Id)
    requires StateOk(env, st) && boot in st.fencedBoots
    ensures forall r :: r in Held(st.entities, e, c) && r.key.boot == boot ==> !ProcessBoundCurrent(r)
  {
  }

  /** Once a greeted connection has closed and its fence was not refused, its boot is fenced, and in
      every later state that still has the fence no process-bound record of the boot is current. */
  lemma ClosedConnectionIsSilent(env: Environment, co: Coordinator, conn: nat, owner: Id, reason: Id, boot: Id,
                                 closed: Coordinator, steps: seq<C.Step>, e: Id, c: Id)
    requires env.Valid() && CoordinatorOk(env, co) && C.Enabled(co, CloseFence(conn, owner, reason))
    requires co.connections[conn].identity.Some? && co.connections[conn].identity.value.boot == boot
    requires FenceWorkerBoot(env, co.registry, boot, owner, reason).1 == None
    requires closed == C.Perform(env, co, CloseFence(conn, owner, reason)) && C.IsRun(env, closed, steps)
    ensures boot in closed.registry.fencedBoots
    ensures boot in C.Run(env, closed, steps).registry.fencedBoots ==>
              forall r :: r in Held(C.Run(env, closed, steps).registry.entities, e, c) && r.key.boot == boot ==>
                !ProcessBoundCurrent(r)
  {
    hide StateOk, RecordsGreeted, ConnectionOk, Held, MarkEverywhere, ProcessBoundCurrent, NamesOwner;
    StepKeepsOk(env, co, CloseFence(conn, owner, reason));
    RunKeepsOk(env, closed, steps);
    var later := C.Run(env, closed, steps).registry;
    if boot in later.fencedBoots {
      FencedBootIsSilent(env, later, boot, e, c);
    }
  }

  /** Closing a greeted connection fences the boot of its last accepted Hello and no other, unless
      that boot was fenced already or its fence is refused. */
  lemma ClosingFencesExactly(env: Environment, co: Coordinator, conn: nat, owner: Id, reason: Id, boot: Id)
    requires C.Enabled(co, CloseFence(conn, owner, reason)) && boot !in co.registry.fencedBoots
    ensures boot in C.Perform(env, co, CloseFence(conn, owner, reason)).registry.fencedBoots <==>
            var identity := co.connections[conn].identity;
            && identity.Some? && identity.value.boot == boot
            && FenceWorkerBoot(env, co.registry, boot, owner, reason).1 == None
  {
    hide MarkEverywhere, NamesOwner;
  }

  lemma RunStep(env: Environment, co: Coordinator, step: C.Step, rest: seq<C.Step>)
    requires C.Enabled(co, step) && C.IsRun(env, C.Perform(env, co, step), rest)
    ensures C.IsRun(env, co, [step] + rest)
    ensures C.Run(env, co, [step] + rest) == C.Run(env, C.Perform(env, co, step), rest)
  {
    hide C.Enabled, C.Perform;
    assert ([step] + rest)[1..] == rest;
  }

  /** The state after an idle connection greets once more, with this Hello. */
  function GreetedAgain(env: Environment, co: Coordinator, conn: nat, hello: Hello): Coordinator
    requires conn in co.connections
  {
    var i := hello.identity;
    Put(co, conn, co.connections[conn].(identity := Some(i))).(
      registry := RegisterPublisher(env, co.registry, i.publisher, i.scope, i.boot).0,
      greeted := co.greeted + {i}, bootScopes := co.bootScopes[i.boot := i.scope])
  }

  function HelloSteps(conn: nat, hello: Hello): seq<C.Step> {
    [C.ReceiveHello(conn, Some(hello)), RegisterGreeted(conn), Adopt(conn), NoteScope(conn)]
  }

  ghost predicate Greetable(env: Environment, co: Coordinator, conn: nat, hello: Hello) {
    && conn in co.connections && co.connections[conn].phase.Idle? && hello.epoch == 0
    && var i := hello.identity;
       RegisterPublisher(env, co.registry, i.publisher, i.scope, i.boot).1 == None
  }

  lemma SecondGreeting(env: Environment, co: Coordinator, conn: nat, hello: Hello, rest: seq<C.Step>)
    requires Greetable(env, co, conn, hello) && C.IsRun(env, GreetedAgain(env, co, conn, hello), rest)
    ensures C.IsRun(env, co, HelloSteps(conn, hello) + rest)
    ensures C.Run(env, co, HelloSteps(conn, hello) + rest) == C.Run(env, GreetedAgain(env, co, conn, hello), rest)
  {
    hide RegisterPublisher, C.IsRun, C.Run;
    var c, receive := co.connections[conn], C.ReceiveHello(conn, Some(hello));
    var received := C.Perform(env, co, receive);
    var registered := C.Perform(env, received, RegisterGreeted(conn));
    var adopted := C.Perform(env, registered, Adopt(conn));
    assert C.Perform(env, adopted, NoteScope(conn)) == GreetedAgain(env, co, conn, hello) by {
      assert adopted.connections[conn := adopted.connections[conn].(phase := Idle)] ==
             co.connections[conn := c.(identity := Some(hello.identity))];
    }
    RunStep(env, adopted, NoteScope(conn), rest);
    RunStep(env, registered, Adopt(conn), [NoteScope(conn)] + rest);
    RunStep(env, received, RegisterGreeted(conn), [Adopt(conn)] + ([NoteScope(conn)] + rest));
    RunStep(env, co, receive, [RegisterGreeted(conn)] + ([Adopt(conn)] + ([NoteScope(conn)] + rest)));
    assert HelloSteps(conn, hello) + rest ==
           [receive] + ([RegisterGreeted(conn)] + ([Adopt(conn)] + ([NoteScope(conn)] + rest)));
  }

  predicate IsRegistered(st: State, publisher: Id, boot: Id) {
    PublisherKey(publisher, boot) in st.publishers && st.publishers[PublisherKey(publisher, boot)].active
  }

  /** A greeted connection that greets again with another boot and then ends leaves the first boot
      unfenced and its publisher registered. */
  lemma EarlierBootStaysOpen(env: Environment, co: Coordinator, conn: nat, hello: Hello, owner: Id, reason: Id)
    requires Greetable(env, co, conn, hello) && co.connections[conn].identity.Some?
    requires var first := co.connections[conn].identity.value;
             && first.boot != hello.identity.boot && first.boot !in co.registry.fencedBoots
             && IsRegistered(co.registry, first.publisher, first.boot)
    requires OwnerOf(GreetedAgain(env, co, conn, hello).registry, hello.identity.boot, owner)
    ensures var steps := HelloSteps(conn, hello) + [Drop(conn), CloseFence(conn, owner, reason)];
            var first := co.connections[conn].identity.value;
            && C.IsRun(env, co, steps)
            && first.boot !in C.Run(env, co, steps).registry.fencedBoots
            && IsRegistered(C.Run(env, co, steps).registry, first.publisher, first.boot)
  {
    hide RegisterPublisher, FenceWorkerBoot, OwnerOf, HelloSteps, IsRegistered;
    var first, again := co.connections[conn].identity.value, GreetedAgain(env, co, conn, hello);
    var dropped := C.Perform(env, again, Drop(conn));
    var closing := CloseFence(conn, owner, reason);
    RunStep(env, dropped, closing, []);
    RunStep(env, again, Drop(conn), [closing]);
    assert [Drop(conn)] + [closing] == [Drop(conn), closing];
    SecondGreeting(env, co, conn, hello, [Drop(conn), closing]);
    FirstBootUntouched(env, co.registry, hello.identity, first, owner, reason);
    ClosingFencesExactly(env, dropped, conn, owner, reason, first.boot);
  }

  lemma FirstBootUntouched(env: Environment, st: State, second: Identity, first: Identity, owner: Id, reason: Id)
    requires first.boot != second.boot && first.boot !in st.fencedBoots && IsRegistered(st, first.publisher, first.boot)
    ensures var registered := RegisterPublisher(env, st, second.publisher, second.scope, second.boot).0;
            && first.boot !in registered.fencedBoots
            && IsRegistered(FenceWorkerBoot(env, registered, second.boot, owner, reason).0, first.publisher, first.boot)
  {
    hide MarkEverywhere;
  }

  // ----- whom a fence frame may fence -----

  /** Some accepted Hello of the run, or one known before it, named this boot together with this scope. */
  ghost predicate EverGreeted(env: Environment, co: Coordinator, steps: seq<C.Step>, boot: Id, scope: Id)
    requires C.IsRun(env, co, steps)
  {
    exists i: Identity :: i.boot == boot && i.scope == scope && (i in co.greeted || WasAdopted(env, co, steps, i))
  }

  /** Under every interleaving, a boot that a frame is about to fence was named by some accepted Hello
      together with the scope of the connection the frame came over. */
  lemma FencedBootWasGreeted(env: Environment, co: Coordinator, steps: seq<C.Step>, conn: nat)
    requires env.Valid() && CoordinatorOk(env, co) && C.IsRun(env, co, steps)
    requires var now := C.Run(env, co, steps); conn in now.connections && now.connections[conn].phase.FenceAllowed?
    ensures var c := C.Run(env, co, steps).connections[conn];
            c.identity.Some? && EverGreeted(env, co, steps, c.phase.boot, c.identity.value.scope)
  {
    hide StateOk, RecordsGreeted, CacheOk, PhaseOk, WasAdopted, ScopesGreeted;
    RunKeepsOk(env, co, steps);
    var now := C.Run(env, co, steps);
    var c := now.connections[conn];
    assert ConnectionOk(now.greeted, c);
    var i :| i in now.greeted && i.boot == c.phase.boot && i.scope == c.identity.value.scope;
    RunGreetsByAdoption(env, co, steps, i);
  }

  /** Under every interleaving, a fence frame that names a boot never greeted under the scope of its
      connection leaves the whole coordinator as it was. */
  lemma ForeignBootIsNotFenced(env: Environment, co: Coordinator, steps: seq<C.Step>, conn: nat, boot: Id, reason: Id)
    requires env.Valid() && CoordinatorOk(env, co) && C.IsRun(env, co, steps)
    requires var now := C.Run(env, co, steps);
             && C.Enabled(now, C.ReceiveFence(conn, boot, reason)) && now.connections[conn].identity.Some?
             && !EverGreeted(env, co, steps, boot, now.connections[conn].identity.value.scope)
    ensures var now := C.Run(env, co, steps); C.Perform(env, now, C.ReceiveFence(conn, boot, reason)) == now
  {
    hide StateOk, RecordsGreeted, CacheOk, PhaseOk, WasAdopted, ConnectionOk;
    RunKeepsOk(env, co, steps);
    var now := C.Run(env, co, steps);
    var c := now.connections[conn];
    if boot in now.bootScopes && now.bootScopes[boot] == c.identity.value.scope {
      var i :| i in now.greeted && i.boot == boot && i.scope == c.identity.value.scope;
      RunGreetsByAdoption(env, co, steps, i);
    }
    assert now.connections[conn := now.connections[conn]] == now.connections;
  }

  /** A fence frame over a connection that never greeted ends the connection. */
  lemma UngreetedFenceDrops(env: Environment, co: Coordinator, conn: nat, boot: Id, reason: Id)
    requires C.Enabled(co, C.ReceiveFence(conn, boot, reason)) && co.connections[conn].identity.None?
    ensures var after := C.Perform(env, co, C.ReceiveFence(conn, boot, reason));
            after == Put(co, conn, co.connections[conn].(phase := Closing))
  {
  }

  /** A connection that has just greeted may fence the boot of its own Hello, and then does. */
  lemma OwnBootMayBeFenced(env: Environment, co: Coordinator, conn: nat, hello: Hello, reason: Id, owner: Id)
    requires Greetable(env, co, conn, hello)
    requires OwnerOf(GreetedAgain(env, co, conn, hello).registry, hello.identity.boot, owner)
    ensures var boot := hello.identity.boot;
            var steps := HelloSteps(conn, hello) + [C.ReceiveFence(conn, boot, reason), C.DoFence(conn, owner)];
            && C.IsRun(env, co, steps)
            && C.Run(env, co, steps).registry ==
               FenceWorkerBoot(env, GreetedAgain(env, co, conn, hello).registry, boot, owner, reason).0
  {
    hide RegisterPublisher, FenceWorkerBoot, OwnerOf, HelloSteps;
    var boot, again := hello.identity.boot, GreetedAgain(env, co, conn, hello);
    var receive, fence := C.ReceiveFence(conn, boot, reason), C.DoFence(conn, owner);
    var received := C.Perform(env, again, receive);
    RunStep(env, received, fence, []);
    RunStep(env, again, receive, [fence]);
    assert [receive] + [fence] == [receive, fence];
    SecondGreeting(env, co, conn, hello, [receive, fence]);
  }

  // ----- one request, one publication -----

  /** The id is among the last d answered ones. */
  ghost predicate AnsweredWithin(order: seq<nat>, id: nat, d: nat) {
    exists i :: 0 <= i < |order| && |order| - d <= i && order[i] == id
  }

  /** The connection's thread has left its loop. */
  predicate Ending(phase: Phase) {
    phase.Closing? || phase.ClosingFenced? || phase.Removing?
  }

  /** The request has gone to the registry: its answer is about to be cached, is among the
      last d cached ones, or the connection is ending. */
  ghost predicate Spent(c: Connection, id: nat, d: nat) {
    || (c.phase.Answered? && c.phase.id == id)
    || AnsweredWithin(c.order, id, d)
    || Ending(c.phase)
  }

  function Answers(step: C.Step, conn: nat): nat {
    if step == CacheAnswer(conn) then 1 else 0
  }

  /** How many answers the run caches on the connection. */
  function AnswerCount(steps: seq<C.Step>, conn: nat): nat {
    if steps == [] then 0 else Answers(steps[0], conn) + AnswerCount(steps[1..], conn)
  }

  lemma CachingKeepsAnswered(c: Connection, answered: nat, outcome: Outcome, id: nat, d: nat)
    requires CacheOk(c) && d < MAX_IN_FLIGHT && (answered == id || AnsweredWithin(c.order, id, d))
    ensures AnsweredWithin(Cached(c, answered, outcome).order, id, d + 1)
  {
    var after := Cached(c, answered, outcome).order;
    if answered == id {
      assert after[|after| - 1] == id;
    } else {
      var i :| 0 <= i < |c.order| && |c.order| - d <= i && c.order[i] == id;
      var full := |c.replay| >= MAX_IN_FLIGHT && c.order != [];
      assert after[if full then i - 1 else i] == id;
    }
  }

  /** The connection after a step that is not its removal. */
  lemma StepKeepsSpent(env: Environment, co: Coordinator, step: C.Step, conn: nat, id: nat, d: nat)
    requires C.Enabled(co, step) && step != Remove(conn) && conn in co.connections
    requires CacheOk(co.connections[conn]) && Spent(co.connections[conn], id, d)
    requires d + Answers(step, conn) <= MAX_IN_FLIGHT
    ensures var after := C.Perform(env, co, step);
            conn in after.connections && Spent(after.connections[conn], id, d + Answers(step, conn))
  {
    hide RegisterPublisher, FenceWorkerBoot, Publish, RegistrySteps.Perform, RegistrySteps.Enabled, CacheOk, Cached,
         AnsweredWithin;
    var c := co.connections[conn];
    if step == CacheAnswer(conn) {
      if c.phase.id == id || AnsweredWithin(c.order, id, d) {
        CachingKeepsAnswered(c, c.phase.id, c.phase.outcome, id, d);
      }
    } else {
      OtherStepsKeepOrder(env, co, step, conn);
    }
  }

  lemma OtherStepsKeepOrder(env: Environment, co: Coordinator, step: C.Step, conn: nat)
    requires C.Enabled(co, step) && step != Remove(conn) && step != CacheAnswer(conn) && conn in co.connections
    ensures var after := C.Perform(env, co, step);
            && conn in after.connections && after.connections[conn].order == co.connections[conn].order
            && (Ending(co.connections[conn].phase) ==> Ending(after.connections[conn].phase))
            && (co.connections[conn].phase.Answered? ==>
                  after.connections[conn].phase == co.connections[conn].phase || Ending(after.connections[conn].phase))
  {
    hide RegisterPublisher, FenceWorkerBoot, Publish, RegistrySteps.Perform, RegistrySteps.Enabled, Cached;
  }

  lemma SpentGrows(c: Connection, id: nat, d: nat, more: nat)
    requires Spent(c, id, d) && d <= more
    ensures Spent(c, id, more)
  {
  }

  lemma {:induction false} RunKeepsSpent(env: Environment, co: Coordinator, steps: seq<C.Step>,
                                        conn: nat, id: nat, d: nat)
    requires env.Valid() && CoordinatorOk(env, co) && C.IsRun(env, co, steps)
    requires conn in co.connections && Spent(co.connections[conn], id, d) && Remove(conn) !in steps
    requires d + AnswerCount(steps, conn) <= MAX_IN_FLIGHT
    ensures var after := C.Run(env, co, steps);
            conn in after.connections && Spent(after.connections[conn], id, MAX_IN_FLIGHT)
    decreases |steps|
  {
    hide C.Perform, StateOk, RecordsGreeted, PhaseOk, CacheOk, Ready, NamesOwner, Spent;
    if steps == [] {
      SpentGrows(co.connections[conn], id, d, MAX_IN_FLIGHT);
    } else {
      assert ConnectionOk(co.greeted, co.connections[conn]);
      StepKeepsSpent(env, co, steps[0], conn, id, d);
      StepKeepsOk(env, co, steps[0]);
      RunKeepsSpent(env, C.Perform(env, co, steps[0]), steps[1..], conn, id, d + Answers(steps[0], conn));
    }
  }

  /** The connection is about to hand the request with this id to the registry. */
  ghost predicate Sends(co: Coordinator, conn: nat, id: nat) {
    conn in co.connections && co.connections[conn].phase.Stamped? && co.connections[conn].phase.id == id
  }

  lemma SentIsSpent(env: Environment, co: Coordinator, conn: nat, id: nat)
    requires Sends(co, conn, id) && C.Enabled(co, PublishStamped(conn))
    ensures var sent := C.Perform(env, co, PublishStamped(conn));
            conn in sent.connections && Spent(sent.connections[conn], id, 0)
  {
    hide Publish, NamesOwner, AnsweredWithin;
  }

  lemma SpentIsNotSent(c: Connection, id: nat)
    requires CacheOk(c) && PhaseOk(c) && Spent(c, id, MAX_IN_FLIGHT) && c.phase.Stamped?
    ensures c.phase.id != id
  {
  }

  /** At most once: after a request went to the registry, no request with its id goes there again over
      the same connection while fewer than 64 other answers have been cached after its own. */
  lemma NoRequestIsPublishedTwice(env: Environment, co: Coordinator, conn: nat, id: nat, sent: Coordinator,
                                  steps: seq<C.Step>)
    requires env.Valid() && CoordinatorOk(env, co) && Sends(co, conn, id)
    requires C.Enabled(co, PublishStamped(conn)) && sent == C.Perform(env, co, PublishStamped(conn))
    requires C.IsRun(env, sent, steps) && Remove(conn) !in steps && AnswerCount(steps, conn) <= MAX_IN_FLIGHT
    ensures !Sends(C.Run(env, sent, steps), conn, id)
  {
    hide C.Perform, StateOk, RecordsGreeted, Ready, NamesOwner, CacheOk, PhaseOk, Spent;
    SentIsSpent(env, co, conn, id);
    StepKeepsOk(env, co, PublishStamped(conn));
    RunKeepsSpent(env, sent, steps, conn, id, 0);
    RunKeepsOk(env, sent, steps);
    var after := C.Run(env, sent, steps);
    assert ConnectionOk(after.greeted, after.connections[conn]);
    if after.connections[conn].phase.Stamped? {
      SpentIsNotSent(after.connections[conn], id);
    }
  }

  /** A request whose answer is cached changes nothing, whatever it carries. */
  lemma CachedRequestChangesNothing(env: Environment, co: Coordinator, conn: nat, id: nat, request: Option<Request>)
    requires C.Enabled(co, ReceivePublish(conn, id, request))
    requires co.connections[conn].identity.Some? && id in co.connections[conn].replay
    ensures C.Perform(env, co, ReceivePublish(conn, id, request)) == co
  {
    assert co.connections[conn := co.connections[conn]] == co.connections;
  }

  // ----- epochs -----

  lemma FenceKeepsEpoch(env: Environment, st: State, boot: Id, owner: Id, reason: Id)
    ensures FenceWorkerBoot(env, st, boot, owner, reason).0.epoch == st.epoch
  {
  }

  lemma EpochNeverFalls(env: Environment, st: State, step: RegistrySteps.Step)
    requires !step.Restart?
    ensures RegistrySteps.Perform(env, st, step).epoch ==
            if step.Advance? then st.epoch + 1 else st.epoch
  {
    hide Publish, FenceWorkerBoot, InvalidateEntity, InvalidateSource, FenceListed, MarkEverywhere;
    match step
    case Submit(request) => PublishKeepsEpochAndFences(env, st, request);
    case FenceBoot(boot, owner, reason) => FenceKeepsEpoch(env, st, boot, owner, reason);
    case Invalidate(entity, generation, reason) => InvalidationKeepsEpochAndFences(st, entity, generation, reason);
    case InvalidateSourceEvidence(source, reason) => InvalidationKeepsEpochAndFences(st, source, 0, reason);
    case _ =>
  }

  lemma CoordinatorEpochNeverFalls(env: Environment, co: Coordinator, step: C.Step)
    requires C.Enabled(co, step)
    ensures C.Perform(env, co, step).registry.epoch ==
            if step.Direct? && step.step.Advance? then co.registry.epoch + 1 else co.registry.epoch
  {
    hide RegistrySteps.Perform, Publish, FenceWorkerBoot, NamesOwner, Cached, PublishNext, FenceNext, GreetedNext;
    match step
    case PublishStamped(conn) => PublishKeepsEpochAndFences(env, co.registry, co.connections[conn].phase.request);
    case DoFence(conn, owner) =>
      FenceKeepsEpoch(env, co.registry, co.connections[conn].phase.boot, owner, co.connections[conn].phase.reason);
    case CloseFence(conn, owner, reason) =>
      if co.connections[conn].identity.Some? {
        FenceKeepsEpoch(env, co.registry, co.connections[conn].identity.value.boot, owner, reason);
      }
    case Direct(s) => EpochNeverFalls(env, co.registry, s);
    case _ =>
  }

  lemma StampedStays(env: Environment, co: Coordinator, step: C.Step, conn: nat)
    requires C.Enabled(co, step) && step != PublishStamped(conn)
    requires conn in co.connections && co.connections[conn].phase.Stamped?
    ensures var after := C.Perform(env, co, step);
            conn in after.connections && after.connections[conn].phase == co.connections[conn].phase
  {
    hide RegistrySteps.Perform, RegisterPublisher, Publish, FenceWorkerBoot, NamesOwner, Cached;
  }

  ghost predicate Advances(steps: seq<C.Step>) {
    exists step :: step in steps && step.Direct? && step.step.Advance?
  }

  lemma {:induction false} RunKeepsStamped(env: Environment, co: Coordinator, steps: seq<C.Step>, conn: nat)
    requires C.IsRun(env, co, steps) && PublishStamped(conn) !in steps
    requires conn in co.connections && co.connections[conn].phase.Stamped?
    ensures var after := C.Run(env, co, steps);
            && conn in after.connections && after.connections[conn].phase == co.connections[conn].phase
            && after.registry.epoch >= co.registry.epoch
            && (Advances(steps) ==> after.registry.epoch > co.registry.epoch)
    decreases |steps|
  {
    hide C.Perform, Ready, NamesOwner;
    if steps != [] {
      assert steps == [steps[0]] + steps[1..];
      StampedStays(env, co, steps[0], conn);
      CoordinatorEpochNeverFalls(env, co, steps[0]);
      RunKeepsStamped(env, C.Perform(env, co, steps[0]), steps[1..], conn);
    }
  }

  /** A publication stamped before an epoch advance is refused after it and changes nothing,
      whatever the other connections do in between. */
  lemma AdvanceOvertakesPublication(env: Environment, co: Coordinator, conn: nat, stamped: Coordinator,
                                    steps: seq<C.Step>)
    requires C.Enabled(co, StampEpoch(conn)) && stamped == C.Perform(env, co, StampEpoch(conn))
    requires C.IsRun(env, stamped, steps) && PublishStamped(conn) !in steps && Advances(steps)
    ensures conn in C.Run(env, stamped, steps).connections
    ensures var late := C.Run(env, stamped, steps);
            && late.connections[conn].phase.Stamped?
            && Publish(env, late.registry, late.connections[conn].phase.request).0 == late.registry
            && Publish(env, late.registry, late.connections[conn].phase.request).1.Rejected?
  {
    hide ApplyRequest, CheckContents, Locate, PublishLocated, NamesOwner;
    RunKeepsStamped(env, stamped, steps, conn);
  }
}
