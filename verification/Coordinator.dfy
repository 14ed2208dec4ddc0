/** The coordinator: connections that greet, publish, fence and close, as atomic
    steps over one registry that may interleave in any order. */
module Coordinator {
  import opened Sequences
  import opened Evidence
  import opened RegistryState
  import opened RegistrySteps
  import opened RegistryInvariant
  import opened Authorship
  import Runs

  const MAX_IN_FLIGHT: nat := 64

  // ----- state -----

  datatype Identity = Identity(publisher: Id, scope: Id, source: Id, boot: Id)

  datatype Hello = Hello(identity: Identity, epoch: nat)

  /** Where a connection's thread is between two of its atomic steps. */
  datatype Phase =
    | Idle
    | Greeted(hello: Hello)
    | Registered(hello: Hello)
    | Adopted(hello: Hello)
    | Checked(id: nat, request: Request)
    | Stamped(id: nat, request: Request)
    | Answered(id: nat, outcome: Outcome)
    | FenceAllowed(boot: Id, reason: Id)
    | FenceDone(boot: Id)
    | Closing
    | ClosingFenced
    | Removing

  /** `identity` is the one of the last accepted Hello; without one the handshake is not done. */
  datatype Connection = Connection(identity: Option<Identity>, order: seq<nat>, replay: map<nat, Outcome>, phase: Phase)

  /** `greeted` remembers, for the proof only, every identity whose Hello was accepted. */
  datatype Coordinator = Coordinator(
    registry: State, connections: map<nat, Connection>, bootScopes: map<Id, Id>, greeted: set<Identity>)

  datatype Step =
    | Accept(conn: nat, limit: nat)
    | ReceiveHello(conn: nat, hello: Option<Hello>)
    | RegisterGreeted(conn: nat)
    | Adopt(conn: nat)
    | NoteScope(conn: nat)
    | ReceivePublish(conn: nat, id: nat, request: Option<Request>)
    | StampEpoch(conn: nat)
    | PublishStamped(conn: nat)
    | CacheAnswer(conn: nat)
    | ReceiveFence(conn: nat, boot: Id, reason: Id)
    | DoFence(conn: nat, owner: Id)
    | ForgetScope(conn: nat)
    | Drop(conn: nat)
    | CloseFence(conn: nat, owner: Id, reason: Id)
    | CloseForget(conn: nat)
    | Remove(conn: nat)
    | Direct(step: RegistrySteps.Step)

  // ----- steps -----

  predicate Matches(request: Request, identity: Identity) {
    && request.publisher == identity.publisher && request.boot == identity.boot
    && request.scope == identity.scope && request.source == identity.source
  }

  /** The replay cache keeps the answers to the last 64 distinct requests. */
  function Cached(c: Connection, id: nat, outcome: Outcome): Connection {
    var full := |c.replay| >= MAX_IN_FLIGHT && c.order != [];
    var order := if full then c.order[1..] else c.order;
    var replay := if full then c.replay - {c.order[0]} else c.replay;
    c.(order := order + [id], replay := replay[id := outcome], phase := Idle)
  }

  /** The connection exists and its thread has reached the point this step starts from. */
  predicate Ready(co: Coordinator, step: Step) {
    match step
    case Accept(conn, limit) => conn !in co.connections && |co.connections| < limit
    case Direct(s) => !s.Submit? && !s.Restart?
    case _ => step.conn in co.connections && Reached(co.connections[step.conn], step)
  }

  predicate Reached(c: Connection, step: Step) {
    match step
    case ReceiveHello(_, _) => c.phase.Idle?
    case RegisterGreeted(_) => c.phase.Greeted?
    case Adopt(_) => c.phase.Registered?
    case NoteScope(_) => c.phase.Adopted?
    case ReceivePublish(_, _, _) => c.phase.Idle?
    case StampEpoch(_) => c.phase.Checked?
    case PublishStamped(_) => c.phase.Stamped?
    case CacheAnswer(_) => c.phase.Answered?
    case ReceiveFence(_, _, _) => c.phase.Idle?
    case DoFence(_, _) => c.phase.FenceAllowed?
    case ForgetScope(_) => c.phase.FenceDone?
    case Drop(_) => MayDrop(c.phase)
    case CloseFence(_, _, _) => c.phase.Closing?
    case CloseForget(_) => c.phase.ClosingFenced? && c.identity.Some?
    case Remove(_) => c.phase.Removing?
    case _ => true
  }

  /** A goodbye, a receive or send that fails, or an answer that cannot be encoded. */
  predicate MayDrop(phase: Phase) {
    phase.Idle? || phase.Registered? || phase.Answered?
  }

  /** The step may happen, with an owner the registry may name for a boot to fence. */
  ghost predicate Enabled(co: Coordinator, step: Step) {
    Ready(co, step) && NamesOwner(co, step)
  }

  ghost predicate NamesOwner(co: Coordinator, step: Step)
    requires Ready(co, step)
  {
    match step
    case DoFence(conn, owner) => OwnerOf(co.registry, co.connections[conn].phase.boot, owner)
    case CloseFence(conn, owner, _) =>
      co.connections[conn].identity.Some? ==> OwnerOf(co.registry, co.connections[conn].identity.value.boot, owner)
    case Direct(s) => RegistrySteps.Enabled(co.registry, s)
    case _ => true
  }

  function Put(co: Coordinator, conn: nat, c: Connection): Coordinator {
    co.(connections := co.connections[conn := c])
  }

  function GreetedNext(co: Coordinator, c: Connection, hello: Option<Hello>): Phase {
    if hello.None? then Closing
    else if hello.value.epoch != 0 && hello.value.epoch != co.registry.epoch then Closing
    else Greeted(hello.value)
  }

  function RegisterNext(env: Environment, co: Coordinator, conn: nat, c: Connection, hello: Hello): Coordinator {
    var (registry, error) := RegisterPublisher(env, co.registry, hello.identity.publisher, hello.identity.scope,
                                               hello.identity.boot);
    Put(co.(registry := registry), conn, c.(phase := if error.Some? then Closing else Registered(hello)))
  }

  /** A publish frame: answered from the cache, refused, or passed on. */
  function PublishNext(c: Connection, id: nat, request: Option<Request>): Phase {
    if c.identity.None? then Closing
    else if id in c.replay then Idle
    else if request.None? then Answered(id, Rejected(MalformedRequest))
    else if !Matches(request.value, c.identity.value) then Answered(id, Rejected(UnauthorizedPublisher))
    else Checked(id, request.value)
  }

  /** A fence frame may only name a boot registered inside the connection's own scope. */
  function FenceNext(co: Coordinator, c: Connection, boot: Id, reason: Id): Phase {
    if c.identity.None? then Closing
    else if boot in co.bootScopes && co.bootScopes[boot] == c.identity.value.scope then FenceAllowed(boot, reason)
    else Idle
  }

  function PublishStampedNext(env: Environment, co: Coordinator, conn: nat, c: Connection): Coordinator
    requires c.phase.Stamped?
  {
    var (registry, outcome) := Publish(env, co.registry, c.phase.request);
    Put(co.(registry := registry), conn, c.(phase := Answered(c.phase.id, outcome)))
  }

  function FenceStepNext(env: Environment, co: Coordinator, conn: nat, c: Connection, owner: Id): Coordinator
    requires c.phase.FenceAllowed?
  {
    var (registry, error) := FenceWorkerBoot(env, co.registry, c.phase.boot, owner, c.phase.reason);
    Put(co.(registry := registry), conn, c.(phase := if error.Some? then Idle else FenceDone(c.phase.boot)))
  }

  /** When a greeted connection ends, its worker boot is fenced. */
  function CloseNext(env: Environment, co: Coordinator, conn: nat, c: Connection, owner: Id, reason: Id): Coordinator {
    if c.identity.None? then Put(co, conn, c.(phase := Removing))
    else
      var registry := FenceWorkerBoot(env, co.registry, c.identity.value.boot, owner, reason).0;
      Put(co.(registry := registry), conn, c.(phase := ClosingFenced))
  }

  function Perform(env: Environment, co: Coordinator, step: Step): Coordinator
    requires Ready(co, step)
  {
    match step
    case Accept(conn, _) => Put(co, conn, Connection(None, [], map[], Idle))
    case ReceiveHello(conn, hello) =>
      Put(co, conn, co.connections[conn].(phase := GreetedNext(co, co.connections[conn], hello)))
    case RegisterGreeted(conn) => RegisterNext(env, co, conn, co.connections[conn], co.connections[conn].phase.hello)
    case Adopt(conn) =>
      var hello := co.connections[conn].phase.hello;
      Put(co, conn, co.connections[conn].(identity := Some(hello.identity), phase := Adopted(hello))).(
        greeted := co.greeted + {hello.identity})
    case NoteScope(conn) =>
      var identity := co.connections[conn].phase.hello.identity;
      Put(co, conn, co.connections[conn].(phase := Idle)).(bootScopes := co.bootScopes[identity.boot := identity.scope])
    case ReceivePublish(conn, id, request) =>
      Put(co, conn, co.connections[conn].(phase := PublishNext(co.connections[conn], id, request)))
    case StampEpoch(conn) =>
      var phase := co.connections[conn].phase;
      Put(co, conn, co.connections[conn].(phase := Stamped(phase.id, phase.request.(epoch := co.registry.epoch))))
    case PublishStamped(conn) => PublishStampedNext(env, co, conn, co.connections[conn])
    case CacheAnswer(conn) =>
      var phase := co.connections[conn].phase;
      Put(co, conn, Cached(co.connections[conn], phase.id, phase.outcome))
    case ReceiveFence(conn, boot, reason) =>
      Put(co, conn, co.connections[conn].(phase := FenceNext(co, co.connections[conn], boot, reason)))
    case DoFence(conn, owner) => FenceStepNext(env, co, conn, co.connections[conn], owner)
    case ForgetScope(conn) =>
      Put(co, conn, co.connections[conn].(phase := Idle)).(
        bootScopes := co.bootScopes - {co.connections[conn].phase.boot})
    case Drop(conn) => Put(co, conn, co.connections[conn].(phase := Closing))
    case CloseFence(conn, owner, reason) => CloseNext(env, co, conn, co.connections[conn], owner, reason)
    case CloseForget(conn) =>
      Put(co, conn, co.connections[conn].(phase := Removing)).(
        bootScopes := co.bootScopes - {co.connections[conn].identity.value.boot})
    case Remove(conn) => co.(connections := co.connections - {conn})
    case Direct(s) => co.(registry := RegistrySteps.Perform(env, co.registry, s))
  }

  ghost predicate IsRun(env: Environment, co: Coordinator, steps: seq<Step>)
    decreases |steps|
  {
    steps == [] || (Enabled(co, steps[0]) && IsRun(env, Perform(env, co, steps[0]), steps[1..]))
  }

  ghost function Run(env: Environment, co: Coordinator, steps: seq<Step>): Coordinator
    requires IsRun(env, co, steps)
    decreases |steps|
  {
    if steps == [] then co else Run(env, Perform(env, co, steps[0]), steps[1..])
  }

  function Start(epoch: nat): Coordinator {
    Coordinator(Initial(epoch), map[], map[], {})
  }

  // ----- invariant -----

  ghost predicate NoTwins(order: seq<nat>) {
    forall i, j :: 0 <= i < j < |order| ==> order[i] != order[j]
  }

  /** The cache holds exactly the answers to the remembered ids, each once, at most 64 of them. */
  ghost predicate CacheOk(c: Connection) {
    && NoTwins(c.order) && |c.order| <= MAX_IN_FLIGHT
    && |c.replay| == |c.order|
    && forall id :: id in c.order <==> id in c.replay
  }

  /** A request on its way carries the connection's identity and is not in the cache. */
  ghost predicate PhaseOk(c: Connection) {
    match c.phase
    case Checked(id, request) => id !in c.replay && c.identity.Some? && Matches(request, c.identity.value)
    case Stamped(id, request) => id !in c.replay && c.identity.Some? && Matches(request, c.identity.value)
    case Answered(id, _) => id !in c.replay
    case ClosingFenced => c.identity.Some?
    case _ => true
  }

  /** Some accepted Hello named this boot together with this scope. */
  ghost predicate BootGreeted(greeted: set<Identity>, boot: Id, scope: Id) {
    exists i :: i in greeted && i.boot == boot && i.scope == scope
  }

  /** A fence that is allowed is for a boot that was greeted under the connection's own scope. */
  ghost predicate FenceOk(greeted: set<Identity>, c: Connection) {
    && (c.phase.Adopted? ==> c.phase.hello.identity in greeted)
    && (c.phase.FenceAllowed? ==> c.identity.Some? && BootGreeted(greeted, c.phase.boot, c.identity.value.scope))
  }

  ghost predicate ConnectionOk(greeted: set<Identity>, c: Connection) {
    CacheOk(c) && PhaseOk(c) && FenceOk(greeted, c) && (c.identity.Some? ==> c.identity.value in greeted)
  }

  /** Every remembered scope is the one its boot was greeted under. */
  ghost predicate ScopesGreeted(bootScopes: map<Id, Id>, greeted: set<Identity>) {
    forall b :: b in bootScopes ==> BootGreeted(greeted, b, bootScopes[b])
  }

  function IdentityOf(r: Record): Identity {
    Identity(r.publisher, r.scope, r.key.source, r.key.boot)
  }

  /** Every record carries the identity of an accepted Hello. */
  ghost predicate RecordsGreeted(entities: map<Id, Entity>, greeted: set<Identity>) {
    forall e, c, r :: r in Held(entities, e, c) ==> IdentityOf(r) in greeted
  }

  ghost predicate CoordinatorOk(env: Environment, co: Coordinator) {
    && StateOk(env, co.registry)
    && RecordsGreeted(co.registry.entities, co.greeted)
    && ScopesGreeted(co.bootScopes, co.greeted)
    && forall conn :: conn in co.connections ==> ConnectionOk(co.greeted, co.connections[conn])
  }

  lemma ForgettingKeepsOk(c: Connection)
    requires CacheOk(c) && c.order != []
    ensures CacheOk(c.(order := c.order[1..], replay := c.replay - {c.order[0]}))
    ensures |(c.replay - {c.order[0]})| == |c.replay| - 1
  {
  }

  lemma AddingKeepsOk(c: Connection, id: nat, outcome: Outcome)
    requires CacheOk(c) && id !in c.replay && |c.order| < MAX_IN_FLIGHT
    ensures CacheOk(c.(order := c.order + [id], replay := c.replay[id := outcome]))
  {
  }

  lemma CachingKeepsOk(c: Connection, id: nat, outcome: Outcome)
    requires CacheOk(c) && id !in c.replay
    ensures CacheOk(Cached(c, id, outcome))
  {
    var full := |c.replay| >= MAX_IN_FLIGHT && c.order != [];
    assert |c.order| == |c.replay| <= MAX_IN_FLIGHT;
    if full {
      ForgettingKeepsOk(c);
    }
    hide CacheOk;
    var kept := if full then c.(order := c.order[1..], replay := c.replay - {c.order[0]}) else c;
    AddingKeepsOk(kept, id, outcome);
    SameCache(kept.(order := kept.order + [id], replay := kept.replay[id := outcome]), Cached(c, id, outcome));
  }

  lemma ConnectionStaysOk(env: Environment, co: Coordinator, conn: nat, c: Connection, greeted: set<Identity>)
    requires CoordinatorOk(env, co) && ConnectionOk(greeted, c) && co.greeted <= greeted
    ensures CoordinatorOk(env, Put(co, conn, c).(greeted := greeted))
  {
  }

  /** A connection that only moves to another phase. */
  lemma PhaseMoves(env: Environment, co: Coordinator, conn: nat, phase: Phase)
    requires CoordinatorOk(env, co) && conn in co.connections && PhaseOk(co.connections[conn].(phase := phase))
    requires FenceOk(co.greeted, co.connections[conn].(phase := phase))
    ensures CoordinatorOk(env, Put(co, conn, co.connections[conn].(phase := phase)))
  {
    hide CacheOk, PhaseOk, FenceOk, StateOk;
    var c := co.connections[conn];
    assert ConnectionOk(co.greeted, c);
    SameCache(c, c.(phase := phase));
    ConnectionStaysOk(env, co, conn, c.(phase := phase), co.greeted);
  }

  lemma GreetedIsBootGreeted(greeted: set<Identity>, identity: Identity)
    requires identity in greeted
    ensures BootGreeted(greeted, identity.boot, identity.scope)
  {
  }

  lemma KnownScopes(env: Environment, co: Coordinator)
    requires CoordinatorOk(env, co)
    ensures ScopesGreeted(co.bootScopes, co.greeted)
  {
  }

  lemma ScopesMove(env: Environment, co: Coordinator, bootScopes: map<Id, Id>)
    requires CoordinatorOk(env, co) && ScopesGreeted(bootScopes, co.greeted)
    ensures CoordinatorOk(env, co.(bootScopes := bootScopes))
  {
  }

  lemma RegistryStaysOk(env: Environment, co: Coordinator, registry: State)
    requires CoordinatorOk(env, co) && StateOk(env, registry) && RecordsGreeted(registry.entities, co.greeted)
    ensures CoordinatorOk(env, co.(registry := registry))
  {
  }

  lemma InheritedStaysGreeted(before: map<Id, Entity>, after: map<Id, Entity>, greeted: set<Identity>)
    requires RecordsGreeted(before, greeted) && NothingAdded(before, after)
    ensures RecordsGreeted(after, greeted)
  {
    hide Held;
    forall e, c, r | r in Held(after, e, c) ensures IdentityOf(r) in greeted {
      assert Inherits(Held(before, e, c), r);
      var x :| x in Held(before, e, c) && SameObservation(x, r);
      assert IdentityOf(x) == IdentityOf(r);
    }
  }

  lemma PublishedStaysGreeted(before: map<Id, Entity>, after: map<Id, Entity>, origin: Origin, greeted: set<Identity>)
    requires RecordsGreeted(before, greeted) && EntitiesFrom(before, after, origin)
    requires Identity(origin.author.publisher, origin.author.scope, origin.author.key.source,
                      origin.author.key.boot) in greeted
    ensures RecordsGreeted(after, greeted)
  {
    hide Held;
    forall e, c, r | r in Held(after, e, c) ensures IdentityOf(r) in greeted {
      assert ListFrom(Held(before, e, c), Held(after, e, c), origin);
      if Inherits(Held(before, e, c), r) {
        var x :| x in Held(before, e, c) && SameObservation(x, r);
        assert IdentityOf(x) == IdentityOf(r);
      }
    }
  }

  lemma PublishStampedKeepsOk(env: Environment, co: Coordinator, conn: nat)
    requires env.Valid() && CoordinatorOk(env, co) && Enabled(co, PublishStamped(conn))
    ensures CoordinatorOk(env, Perform(env, co, PublishStamped(conn)))
  {
    hide StateOk, CacheOk, Publish, EntitiesFrom, RecordsGreeted;
    var c := co.connections[conn];
    var request := c.phase.request;
    var registry := Publish(env, co.registry, request).0;
    assert ConnectionOk(co.greeted, c);
    PublishKeepsState(env, co.registry, request);
    PublishAddsOwnRecords(env, co.registry, request);
    PublishedStaysGreeted(co.registry.entities, registry.entities, OriginOf(env, co.registry, request), co.greeted);
    RegistryStaysOk(env, co, registry);
    var outcome := Publish(env, co.registry, request).1;
    PhaseMoves(env, co.(registry := registry), conn, Answered(c.phase.id, outcome));
  }

  lemma RegistryStepKeepsOk(env: Environment, co: Coordinator, step: RegistrySteps.Step)
    requires env.Valid() && CoordinatorOk(env, co) && RegistrySteps.Enabled(co.registry, step)
    requires !step.Submit? && !step.Restart?
    ensures CoordinatorOk(env, co.(registry := RegistrySteps.Perform(env, co.registry, step)))
  {
    hide StateOk, ConnectionOk, RegistrySteps.Perform, RecordsGreeted, NothingAdded, RegistrySteps.Enabled;
    Runs.PerformKeepsState(env, co.registry, step);
    DirectAddsNothing(env, co.registry, step);
    InheritedStaysGreeted(co.registry.entities, RegistrySteps.Perform(env, co.registry, step).entities, co.greeted);
    RegistryStaysOk(env, co, RegistrySteps.Perform(env, co.registry, step));
  }

  /** Every step of every connection keeps the invariant. */
  lemma StepKeepsOk(env: Environment, co: Coordinator, step: Step)
    requires env.Valid() && CoordinatorOk(env, co) && Enabled(co, step)
    ensures CoordinatorOk(env, Perform(env, co, step))
  {
    hide CoordinatorOk, Publish, FenceWorkerBoot, RegisterPublisher, Cached, RegistrySteps.Enabled, OwnerOf;
    match step
    case PublishStamped(conn) => PublishStampedKeepsOk(env, co, conn);
    case Direct(s) => RegistryStepKeepsOk(env, co, s);
    case RegisterGreeted(conn) => RegisterKeepsOk(env, co, conn);
    case DoFence(conn, owner) => DoFenceKeepsOk(env, co, conn, owner);
    case CloseFence(conn, owner, reason) => CloseFenceKeepsOk(env, co, conn, owner, reason);
    case _ => LocalStepKeepsOk(env, co, step);
  }

  lemma RegisterKeepsOk(env: Environment, co: Coordinator, conn: nat)
    requires env.Valid() && CoordinatorOk(env, co) && Enabled(co, RegisterGreeted(conn))
    ensures CoordinatorOk(env, Perform(env, co, RegisterGreeted(conn)))
  {
    hide StateOk, CacheOk, RegisterPublisher, RecordsGreeted;
    var c := co.connections[conn];
    var i := c.phase.hello.identity;
    assert ConnectionOk(co.greeted, c);
    RegistryStepKeepsOk(env, co, Register(i.publisher, i.scope, i.boot));
    var (registry, error) := RegisterPublisher(env, co.registry, i.publisher, i.scope, i.boot);
    PhaseMoves(env, co.(registry := registry), conn, if error.Some? then Closing else Registered(c.phase.hello));
  }

  lemma DoFenceKeepsOk(env: Environment, co: Coordinator, conn: nat, owner: Id)
    requires env.Valid() && CoordinatorOk(env, co) && Enabled(co, DoFence(conn, owner))
    ensures CoordinatorOk(env, Perform(env, co, DoFence(conn, owner)))
  {
    hide StateOk, CacheOk, FenceWorkerBoot, RecordsGreeted;
    var c := co.connections[conn];
    assert ConnectionOk(co.greeted, c);
    RegistryStepKeepsOk(env, co, FenceBoot(c.phase.boot, owner, c.phase.reason));
    var (registry, error) := FenceWorkerBoot(env, co.registry, c.phase.boot, owner, c.phase.reason);
    PhaseMoves(env, co.(registry := registry), conn, if error.Some? then Idle else FenceDone(c.phase.boot));
  }

  lemma CloseFenceKeepsOk(env: Environment, co: Coordinator, conn: nat, owner: Id, reason: Id)
    requires env.Valid() && CoordinatorOk(env, co) && Enabled(co, CloseFence(conn, owner, reason))
    ensures CoordinatorOk(env, Perform(env, co, CloseFence(conn, owner, reason)))
  {
    hide StateOk, CacheOk, FenceWorkerBoot, RecordsGreeted;
    var c := co.connections[conn];
    assert ConnectionOk(co.greeted, c);
    if c.identity.None? {
      PhaseMoves(env, co, conn, Removing);
    } else {
      var boot := c.identity.value.boot;
      RegistryStepKeepsOk(env, co, FenceBoot(boot, owner, reason));
      var registry := FenceWorkerBoot(env, co.registry, boot, owner, reason).0;
      PhaseMoves(env, co.(registry := registry), conn, ClosingFenced);
    }
  }

  lemma AdoptKeepsOk(env: Environment, co: Coordinator, conn: nat)
    requires CoordinatorOk(env, co) && Enabled(co, Adopt(conn))
    ensures CoordinatorOk(env, Perform(env, co, Adopt(conn)))
  {
    hide StateOk, RecordsGreeted, CacheOk;
    var c := co.connections[conn];
    assert ConnectionOk(co.greeted, c);
    var hello := c.phase.hello;
    var adopted := c.(identity := Some(hello.identity), phase := Adopted(hello));
    var greeted := co.greeted + {hello.identity};
    SameCache(c, adopted);
    MoreGreeted(co, greeted);
    ConnectionStaysOk(env, co, conn, adopted, greeted);
  }

  lemma CacheAnswerKeepsOk(env: Environment, co: Coordinator, conn: nat)
    requires CoordinatorOk(env, co) && Enabled(co, CacheAnswer(conn))
    ensures CoordinatorOk(env, Perform(env, co, CacheAnswer(conn)))
  {
    hide StateOk, RecordsGreeted, CacheOk, Cached;
    var c := co.connections[conn];
    assert ConnectionOk(co.greeted, c);
    CachingKeepsOk(c, c.phase.id, c.phase.outcome);
    CachedParts(c, c.phase.id, c.phase.outcome);
    ConnectionStaysOk(env, co, conn, Cached(c, c.phase.id, c.phase.outcome), co.greeted);
  }

  /** A step that leaves the registry alone. */
  lemma LocalStepKeepsOk(env: Environment, co: Coordinator, step: Step)
    requires env.Valid() && CoordinatorOk(env, co) && Enabled(co, step)
    requires !step.PublishStamped? && !step.Direct? && !step.RegisterGreeted? && !step.DoFence? && !step.CloseFence?
    ensures CoordinatorOk(env, Perform(env, co, step))
  {
    hide StateOk, RecordsGreeted, CacheOk, Cached;
    if step.Accept? {
      FreshConnectionOk(co.greeted);
      ConnectionStaysOk(env, co, step.conn, Connection(None, [], map[], Idle), co.greeted);
    } else {
      assert ConnectionOk(co.greeted, co.connections[step.conn]);
      ConnectedStepKeepsOk(env, co, step, step.conn, co.connections[step.conn]);
    }
  }

  lemma ConnectedStepKeepsOk(env: Environment, co: Coordinator, step: Step, conn: nat, c: Connection)
    requires CoordinatorOk(env, co) && Enabled(co, step) && conn in co.connections && co.connections[conn] == c
    requires ConnectionOk(co.greeted, c)
    requires !step.PublishStamped? && !step.Direct? && !step.RegisterGreeted? && !step.DoFence? && !step.CloseFence?
    requires !step.Accept? && step.conn == conn
    ensures CoordinatorOk(env, Perform(env, co, step))
  {
    hide CoordinatorOk, CacheOk, Cached, BootGreeted;
    KnownScopes(env, co);
    match step
    case ReceiveHello(_, hello) => PhaseMoves(env, co, conn, GreetedNext(co, c, hello));
    case Adopt(_) => AdoptKeepsOk(env, co, conn);
    case NoteScope(_) =>
      PhaseMoves(env, co, conn, Idle);
      var identity := c.phase.hello.identity;
      assert BootGreeted(co.greeted, identity.boot, identity.scope) by {
        GreetedIsBootGreeted(co.greeted, identity);
      }
      ScopesMove(env, Put(co, conn, c.(phase := Idle)), co.bootScopes[identity.boot := identity.scope]);
    case ReceivePublish(_, id, request) => PhaseMoves(env, co, conn, PublishNext(c, id, request));
    case StampEpoch(_) =>
      PhaseMoves(env, co, conn, Stamped(c.phase.id, c.phase.request.(epoch := co.registry.epoch)));
    case CacheAnswer(_) => CacheAnswerKeepsOk(env, co, conn);
    case ReceiveFence(_, boot, reason) => PhaseMoves(env, co, conn, FenceNext(co, c, boot, reason));
    case ForgetScope(_) =>
      PhaseMoves(env, co, conn, Idle);
      ScopesMove(env, Put(co, conn, c.(phase := Idle)), co.bootScopes - {c.phase.boot});
    case Drop(_) => PhaseMoves(env, co, conn, Closing);
    case CloseForget(_) =>
      PhaseMoves(env, co, conn, Removing);
      ScopesMove(env, Put(co, conn, c.(phase := Removing)), co.bootScopes - {c.identity.value.boot});
    case Remove(_) => RemovalKeepsOk(env, co, conn);
  }

  lemma RemovalKeepsOk(env: Environment, co: Coordinator, conn: nat)
    requires CoordinatorOk(env, co)
    ensures CoordinatorOk(env, co.(connections := co.connections - {conn}))
  {
  }

  lemma CachedParts(c: Connection, id: nat, outcome: Outcome)
    ensures Cached(c, id, outcome).identity == c.identity && Cached(c, id, outcome).phase == Idle
  {
  }

  lemma SameCache(a: Connection, b: Connection)
    requires CacheOk(a) && a.order == b.order && a.replay == b.replay
    ensures CacheOk(b)
  {
  }

  lemma FreshConnectionOk(greeted: set<Identity>)
    ensures ConnectionOk(greeted, Connection(None, [], map[], Idle))
  {
  }

  lemma MoreGreeted(co: Coordinator, greeted: set<Identity>)
    requires RecordsGreeted(co.registry.entities, co.greeted) && co.greeted <= greeted
    ensures RecordsGreeted(co.registry.entities, greeted)
  {
  }
}
