/** What one frame of a connection does when nothing comes between its steps: the greeting, the
    publication, the fence and the close, each from the frame to its answer. */
module Conversations {
  import opened Sequences
  import opened Evidence
  import opened RegistryState
  import opened RegistrySteps
  import opened C = Coordinator
  import CoordinatorRuns

  /** The steps of one frame, taken one after the other. */
  ghost predicate Leads(env: Environment, co: Coordinator, steps: seq<C.Step>, after: Coordinator) {
    C.IsRun(env, co, steps) && C.Run(env, co, steps) == after
  }

  ghost predicate Moves(env: Environment, co: Coordinator, step: C.Step, next: Coordinator) {
    C.Enabled(co, step) && C.Perform(env, co, step) == next
  }

  lemma One(env: Environment, co: Coordinator, a: C.Step, after: Coordinator)
    requires Moves(env, co, a, after)
    ensures Leads(env, co, [a], after)
  {
    hide C.Enabled, C.Perform;
    CoordinatorRuns.RunStep(env, co, a, []);
    assert [a] + [] == [a];
  }

  lemma Then(env: Environment, co: Coordinator, a: C.Step, next: Coordinator, rest: seq<C.Step>, after: Coordinator)
    requires Moves(env, co, a, next) && Leads(env, next, rest, after)
    ensures Leads(env, co, [a] + rest, after)
  {
    hide C.Enabled, C.Perform;
    CoordinatorRuns.RunStep(env, co, a, rest);
  }

  lemma Two(env: Environment, co: Coordinator, a: C.Step, x: Coordinator, b: C.Step, after: Coordinator)
    requires Moves(env, co, a, x) && Moves(env, x, b, after)
    ensures Leads(env, co, [a, b], after)
  {
    hide Moves, Leads;
    One(env, x, b, after);
    Then(env, co, a, x, [b], after);
    assert [a] + [b] == [a, b];
  }

  lemma Three(env: Environment, co: Coordinator, a: C.Step, x: Coordinator, b: C.Step, y: Coordinator, c: C.Step,
              after: Coordinator)
    requires Moves(env, co, a, x) && Moves(env, x, b, y) && Moves(env, y, c, after)
    ensures Leads(env, co, [a, b, c], after)
  {
    hide Moves, Leads;
    Two(env, x, b, y, c, after);
    Then(env, co, a, x, [b, c], after);
    assert [a] + [b, c] == [a, b, c];
  }

  lemma Four(env: Environment, co: Coordinator, a: C.Step, x: Coordinator, b: C.Step, y: Coordinator, c: C.Step,
             z: Coordinator, d: C.Step, after: Coordinator)
    requires Moves(env, co, a, x) && Moves(env, x, b, y) && Moves(env, y, c, z) && Moves(env, z, d, after)
    ensures Leads(env, co, [a, b, c, d], after)
  {
    hide Moves, Leads;
    Three(env, x, b, y, c, z, d, after);
    Then(env, co, a, x, [b, c, d], after);
    assert [a] + [b, c, d] == [a, b, c, d];
  }

  /** The coordinator with one connection replaced. */
  function With(co: Coordinator, conn: nat, c: Connection): Coordinator {
    co.(connections := co.connections[conn := c])
  }

  // ----- greeting -----

  /** A greeting is refused: the frame cannot be read, names an epoch that is not the current one, or
      the registry refuses to register the instance. */
  predicate GreetingRefused(env: Environment, co: Coordinator, hello: Option<Hello>) {
    || hello.None?
    || (hello.value.epoch != 0 && hello.value.epoch != co.registry.epoch)
    || var i := hello.value.identity; RegisterPublisher(env, co.registry, i.publisher, i.scope, i.boot).1.Some?
  }

  function GreetingSteps(env: Environment, co: Coordinator, conn: nat, hello: Option<Hello>): seq<C.Step> {
    if hello.None? || (hello.value.epoch != 0 && hello.value.epoch != co.registry.epoch) then
      [C.ReceiveHello(conn, hello)]
    else if GreetingRefused(env, co, hello) then [C.ReceiveHello(conn, hello), C.RegisterGreeted(conn)]
    else [C.ReceiveHello(conn, hello), C.RegisterGreeted(conn), C.Adopt(conn), C.NoteScope(conn)]
  }

  /** A refused greeting ends the connection and changes nothing else. An accepted one registers the
      instance, gives the connection its identity, and remembers the scope of its boot. */
  lemma GreetingAnswered(env: Environment, co: Coordinator, conn: nat, hello: Option<Hello>)
    requires conn in co.connections && co.connections[conn].phase.Idle?
    ensures GreetingRefused(env, co, hello) ==>
              Leads(env, co, GreetingSteps(env, co, conn, hello),
                    With(co, conn, co.connections[conn].(phase := Closing)))
    ensures !GreetingRefused(env, co, hello) ==>
              var i := hello.value.identity;
              Leads(env, co, GreetingSteps(env, co, conn, hello),
                    With(co, conn, co.connections[conn].(identity := Some(i))).(
                      registry := RegisterPublisher(env, co.registry, i.publisher, i.scope, i.boot).0,
                      bootScopes := co.bootScopes[i.boot := i.scope], greeted := co.greeted + {i}))
  {
    hide RegisterPublisher, Leads;
    var c := co.connections[conn];
    var received := C.Perform(env, co, C.ReceiveHello(conn, hello));
    if hello.None? || (hello.value.epoch != 0 && hello.value.epoch != co.registry.epoch) {
      One(env, co, C.ReceiveHello(conn, hello), received);
    } else if GreetingRefused(env, co, hello) {
      RefusedRegistration(env, co, hello.value);
      var registered := C.Perform(env, received, C.RegisterGreeted(conn));
      assert registered.connections == co.connections[conn := c.(phase := Closing)];
      Two(env, co, C.ReceiveHello(conn, hello), received, C.RegisterGreeted(conn), registered);
    } else {
      AcceptedGreeting(env, co, conn, hello.value);
    }
  }

  lemma RefusedRegistration(env: Environment, co: Coordinator, hello: Hello)
    requires var i := hello.identity; RegisterPublisher(env, co.registry, i.publisher, i.scope, i.boot).1.Some?
    ensures var i := hello.identity;
            RegisterPublisher(env, co.registry, i.publisher, i.scope, i.boot).0 == co.registry
  {
  }

  lemma AcceptedGreeting(env: Environment, co: Coordinator, conn: nat, hello: Hello)
    requires conn in co.connections && co.connections[conn].phase.Idle? && !GreetingRefused(env, co, Some(hello))
    ensures var i := hello.identity;
            Leads(env, co, [C.ReceiveHello(conn, Some(hello)), C.RegisterGreeted(conn), C.Adopt(conn),
                            C.NoteScope(conn)],
                  With(co, conn, co.connections[conn].(identity := Some(i))).(
                    registry := RegisterPublisher(env, co.registry, i.publisher, i.scope, i.boot).0,
                    bootScopes := co.bootScopes[i.boot := i.scope], greeted := co.greeted + {i}))
  {
    hide RegisterPublisher, Leads;
    var c, i := co.connections[conn], hello.identity;
    var received := C.Perform(env, co, C.ReceiveHello(conn, Some(hello)));
    var registered := C.Perform(env, received, C.RegisterGreeted(conn));
    var adopted := C.Perform(env, registered, C.Adopt(conn));
    var noted := C.Perform(env, adopted, C.NoteScope(conn));
    assert noted.connections == co.connections[conn := c.(identity := Some(i))];
    Four(env, co, C.ReceiveHello(conn, Some(hello)), received, C.RegisterGreeted(conn), registered, C.Adopt(conn),
         adopted, C.NoteScope(conn), noted);
  }

  // ----- publication -----

  /** The connection after an answer is remembered: the oldest of 64 answers is forgotten. */
  function Remembering(c: Connection, id: nat, outcome: Outcome): Connection {
    var full := |c.replay| >= 64 && |c.order| > 0;
    c.(order := (if full then c.order[1..] else c.order) + [id],
       replay := (if full then c.replay - {c.order[0]} else c.replay)[id := outcome])
  }

  /** The request speaks for the connection: its publisher, scope, source and boot. */
  predicate SpeaksFor(request: Request, i: Identity) {
    request.publisher == i.publisher && request.scope == i.scope && request.source == i.source && request.boot == i.boot
  }

  /** A publish frame over a greeted connection, with an identifier that is not remembered: a request
      for the connection's own identity goes to the registry in the current epoch, whatever epoch it
      carries; anything else is refused. The answer is remembered. */
  lemma PublicationAnswered(env: Environment, co: Coordinator, conn: nat, id: nat, request: Option<Request>)
    requires conn in co.connections && co.connections[conn].phase.Idle? && co.connections[conn].identity.Some?
    requires id !in co.connections[conn].replay
    ensures var c := co.connections[conn];
            if request.Some? && SpeaksFor(request.value, c.identity.value) then
              var (registry, outcome) := Publish(env, co.registry, request.value.(epoch := co.registry.epoch));
              Leads(env, co, [C.ReceivePublish(conn, id, request), C.StampEpoch(conn), C.PublishStamped(conn),
                              C.CacheAnswer(conn)],
                    With(co, conn, Remembering(c, id, outcome)).(registry := registry))
            else
              Leads(env, co, [C.ReceivePublish(conn, id, request), C.CacheAnswer(conn)],
                    With(co, conn, Remembering(c, id, Rejected(if request.None? then MalformedRequest
                                                               else UnauthorizedPublisher))))
  {
    hide Publish, Leads;
    var c := co.connections[conn];
    var received := C.Perform(env, co, C.ReceivePublish(conn, id, request));
    if request.Some? && SpeaksFor(request.value, c.identity.value) {
      var stamped := C.Perform(env, received, C.StampEpoch(conn));
      var published := C.Perform(env, stamped, C.PublishStamped(conn));
      var outcome := Publish(env, co.registry, request.value.(epoch := co.registry.epoch)).1;
      assert published.connections == co.connections[conn := c.(phase := Answered(id, outcome))];
      var answered := C.Perform(env, published, C.CacheAnswer(conn));
      assert answered.connections == co.connections[conn := Remembering(c, id, outcome)];
      Four(env, co, C.ReceivePublish(conn, id, request), received, C.StampEpoch(conn), stamped, C.PublishStamped(conn),
           published, C.CacheAnswer(conn), answered);
    } else {
      var refusal := Rejected(if request.None? then MalformedRequest else UnauthorizedPublisher);
      var answered := C.Perform(env, received, C.CacheAnswer(conn));
      assert answered.connections == co.connections[conn := Remembering(c, id, refusal)];
      Two(env, co, C.ReceivePublish(conn, id, request), received, C.CacheAnswer(conn), answered);
    }
  }

  /** Before the greeting, a publish frame ends the connection. */
  lemma UngreetedPublicationDrops(env: Environment, co: Coordinator, conn: nat, id: nat, request: Option<Request>)
    requires conn in co.connections && co.connections[conn].phase.Idle? && co.connections[conn].identity.None?
    ensures Leads(env, co, [C.ReceivePublish(conn, id, request)],
                  With(co, conn, co.connections[conn].(phase := Closing)))
  {
    One(env, co, C.ReceivePublish(conn, id, request), With(co, conn, co.connections[conn].(phase := Closing)));
  }

  // ----- fences -----

  /** A fence frame for a boot whose remembered scope is the connection's own fences the boot and
      forgets its scope; a refused fence leaves both. */
  lemma FenceAnswered(env: Environment, co: Coordinator, conn: nat, boot: Id, reason: Id, owner: Id)
    requires conn in co.connections && co.connections[conn].phase.Idle? && co.connections[conn].identity.Some?
    requires boot in co.bootScopes && co.bootScopes[boot] == co.connections[conn].identity.value.scope
    requires OwnerOf(co.registry, boot, owner)
    ensures var (registry, error) := FenceWorkerBoot(env, co.registry, boot, owner, reason);
            if error == None then
              Leads(env, co, [C.ReceiveFence(conn, boot, reason), C.DoFence(conn, owner), C.ForgetScope(conn)],
                    co.(registry := registry, bootScopes := co.bootScopes - {boot}))
            else Leads(env, co, [C.ReceiveFence(conn, boot, reason), C.DoFence(conn, owner)], co)
  {
    hide Leads, OwnerOf, FenceWorkerBoot;
    var c := co.connections[conn];
    var (registry, error) := FenceWorkerBoot(env, co.registry, boot, owner, reason);
    RefusedFenceChangesNothing(env, co.registry, boot, owner, reason);
    var allowed := C.Perform(env, co, C.ReceiveFence(conn, boot, reason));
    var fenced := C.Perform(env, allowed, C.DoFence(conn, owner));
    if error == None {
      var forgot := C.Perform(env, fenced, C.ForgetScope(conn));
      assert forgot.connections == co.connections;
      Three(env, co, C.ReceiveFence(conn, boot, reason), allowed, C.DoFence(conn, owner), fenced, C.ForgetScope(conn),
            forgot);
    } else {
      assert fenced.connections == co.connections;
      Two(env, co, C.ReceiveFence(conn, boot, reason), allowed, C.DoFence(conn, owner), fenced);
    }
  }

  lemma RefusedFenceChangesNothing(env: Environment, st: State, boot: Id, owner: Id, reason: Id)
    ensures var (after, error) := FenceWorkerBoot(env, st, boot, owner, reason); error.Some? ==> after == st
  {
  }

  // ----- closing -----

  /** A connection that ends: a greeted one has the boot of its identity fenced, as far as that is not
      refused, and its scope forgotten; then the connection is gone. */
  lemma CloseAnswered(env: Environment, co: Coordinator, conn: nat, owner: Id, reason: Id)
    requires conn in co.connections && co.connections[conn].phase.Closing?
    requires co.connections[conn].identity.Some? ==>
               OwnerOf(co.registry, co.connections[conn].identity.value.boot, owner)
    ensures var identity := co.connections[conn].identity;
            if identity.None? then
              Leads(env, co, [C.CloseFence(conn, owner, reason), C.Remove(conn)],
                    co.(connections := co.connections - {conn}))
            else
              Leads(env, co, [C.CloseFence(conn, owner, reason), C.CloseForget(conn), C.Remove(conn)],
                    co.(registry := FenceWorkerBoot(env, co.registry, identity.value.boot, owner, reason).0,
                        bootScopes := co.bootScopes - {identity.value.boot},
                        connections := co.connections - {conn}))
  {
    hide Leads, OwnerOf, FenceWorkerBoot;
    var closed := C.Perform(env, co, C.CloseFence(conn, owner, reason));
    if co.connections[conn].identity.None? {
      var gone := C.Perform(env, closed, C.Remove(conn));
      assert gone.connections == co.connections - {conn};
      Two(env, co, C.CloseFence(conn, owner, reason), closed, C.Remove(conn), gone);
    } else {
      var forgot := C.Perform(env, closed, C.CloseForget(conn));
      var gone := C.Perform(env, forgot, C.Remove(conn));
      assert gone.connections == co.connections - {conn};
      Three(env, co, C.CloseFence(conn, owner, reason), closed, C.CloseForget(conn), forgot, C.Remove(conn), gone);
    }
  }
}
