/** The coordinator as the object its connection threads update in place. Each method does one
    atomic step; ServeConnection chains them as one connection's thread does. */
module LiveCoordinator {
  import opened Sequences
  import opened Evidence
  import opened RegistryState
  import opened RegistrySteps
  import opened RegistryIndex
  import opened RegistryInvariant
  import opened LiveRegistry
  import opened C = Coordinator

  /** What a connection receives next; `sent` says whether the answer could be sent. */
  datatype Frame =
    | HelloFrame(hello: Option<Hello>, sent: bool)
    | PublishFrame(id: nat, request: Option<Request>, encodes: bool, sent: bool)
    | FenceFrame(boot: Id, reason: Id, sent: bool)
    | OtherFrame(sent: bool)
    | Goodbye

  /** The request a thread is working on. */
  function IdOf(phase: Phase): Option<nat> {
    match phase
    case Checked(id, _) => Some(id)
    case Stamped(id, _) => Some(id)
    case Answered(id, _) => Some(id)
    case _ => None
  }

  /** The steps lead from one state of the coordinator to another. */
  ghost predicate Leads(env: Environment, from: Coordinator, steps: seq<C.Step>, to: Coordinator) {
    C.IsRun(env, from, steps) && C.Run(env, from, steps) == to
  }

  lemma LeadsNowhere(env: Environment, co: Coordinator)
    ensures Leads(env, co, [], co)
  {
  }

  lemma {:induction false} LeadsOneMore(env: Environment, from: Coordinator, steps: seq<C.Step>, to: Coordinator,
                                        step: C.Step)
    requires Leads(env, from, steps, to) && C.Enabled(to, step)
    ensures Leads(env, from, steps + [step], C.Perform(env, to, step))
    decreases |steps|
  {
    hide C.Perform, Ready, NamesOwner;
    if steps == [] {
      assert steps + [step] == [step] && [step][1..] == [];
      assert C.IsRun(env, C.Perform(env, to, step), []);
      assert C.Run(env, to, [step]) == C.Run(env, C.Perform(env, to, step), []);
    } else {
      assert (steps + [step])[1..] == steps[1..] + [step];
      LeadsOneMore(env, C.Perform(env, from, steps[0]), steps[1..], to, step);
    }
  }

  class CapabilityCoordinator {
    const registry: CapabilityRegistry
    const maxConnections: nat
    var connections: map<nat, Connection>
    var bootScopes: map<Id, Id>
    ghost var greeted: set<Identity>

    ghost function Contents(): Coordinator
      requires KeysOk(registry.keys, registry.slots)
      reads this, registry
    {
      Coordinator(registry.Contents(), connections, bootScopes, greeted)
    }

    ghost predicate Valid()
      reads this, registry
    {
      KeysOk(registry.keys, registry.slots) && registry.Valid() && CoordinatorOk(registry.env, Contents())
    }

    constructor (registry: CapabilityRegistry, maxConnections: nat, ghost known: set<Identity>)
      requires registry.Valid() && RecordsGreeted(registry.Contents().entities, known)
      ensures Valid() && this.registry == registry && this.maxConnections == maxConnections
      ensures Contents() == Coordinator(registry.Contents(), map[], map[], known)
    {
      this.registry, this.maxConnections := registry, maxConnections;
      connections, bootScopes, greeted := map[], map[], known;
    }

    // ----- single steps -----

    /** Admits a connection while there is room for one. */
    method AcceptConnection(conn: nat) returns (accepted: bool)
      requires Valid() && conn !in connections
      modifies `connections
      ensures Valid() && accepted == (|old(connections)| < maxConnections)
      ensures Contents() == if accepted then C.Perform(registry.env, old(Contents()), Accept(conn, maxConnections))
                            else old(Contents())
    {
      hide CoordinatorOk, StateOk, IndexComplete, IndexExact;
      accepted := |connections| < maxConnections;
      if accepted {
        StepKeepsOk(registry.env, Contents(), Accept(conn, maxConnections));
        connections := connections[conn := Connection(None, [], map[], Idle)];
      }
    }

    /** A Hello is refused at once if it cannot be decoded or names another epoch. */
    method ReceiveHello(conn: nat, hello: Option<Hello>)
      requires Valid() && C.Enabled(Contents(), C.ReceiveHello(conn, hello))
      modifies `connections
      ensures Valid()
      ensures Contents() == C.Perform(registry.env, old(Contents()), C.ReceiveHello(conn, hello))
      ensures conn in connections
      ensures connections[conn].phase.Closing?
              || (connections[conn].phase.Greeted? && hello == Some(connections[conn].phase.hello))
    {
      hide CoordinatorOk, StateOk, IndexComplete, IndexExact, NamesOwner;
      StepKeepsOk(registry.env, Contents(), C.ReceiveHello(conn, hello));
      var phase := if hello.None? || (hello.value.epoch != 0 && hello.value.epoch != registry.epoch) then Closing
                   else Greeted(hello.value);
      connections := connections[conn := connections[conn].(phase := phase)];
    }

    /** Registers the publisher instance of a Hello. */
    method RegisterGreeted(conn: nat)
      requires Valid() && C.Enabled(Contents(), C.RegisterGreeted(conn))
      modifies `connections, registry
      ensures Valid()
      ensures Contents() == C.Perform(registry.env, old(Contents()), C.RegisterGreeted(conn))
      ensures conn in connections
      ensures connections[conn].phase.Closing?
              || connections[conn].phase == Registered(old(connections)[conn].phase.hello)
    {
      hide CoordinatorOk, StateOk, IndexComplete, IndexExact, NamesOwner;
      StepKeepsOk(registry.env, Contents(), C.RegisterGreeted(conn));
      var hello := connections[conn].phase.hello;
      var error := registry.RegisterPublisher(hello.identity.publisher, hello.identity.scope, hello.identity.boot);
      connections := connections[conn := connections[conn].(
        phase := if error.Some? then Closing else Registered(hello))];
    }

    /** The connection takes on the identity of its accepted Hello. */
    method Adopt(conn: nat)
      requires Valid() && C.Enabled(Contents(), C.Adopt(conn))
      modifies `connections, `greeted
      ensures Valid()
      ensures Contents() == C.Perform(registry.env, old(Contents()), C.Adopt(conn))
      ensures conn in connections
      ensures connections[conn].phase.Adopted?
              && connections[conn].identity == Some(old(connections)[conn].phase.hello.identity)
    {
      hide CoordinatorOk, StateOk, IndexComplete, IndexExact, NamesOwner;
      StepKeepsOk(registry.env, Contents(), C.Adopt(conn));
      var hello := connections[conn].phase.hello;
      connections := connections[conn := connections[conn].(identity := Some(hello.identity), phase := Adopted(hello))];
      greeted := greeted + {hello.identity};
    }

    /** Remembers the scope a boot was registered in. */
    method NoteScope(conn: nat)
      requires Valid() && C.Enabled(Contents(), C.NoteScope(conn))
      modifies `connections, `bootScopes
      ensures Valid()
      ensures Contents() == C.Perform(registry.env, old(Contents()), C.NoteScope(conn))
      ensures conn in connections
      ensures connections[conn].phase.Idle? && connections[conn].identity == old(connections)[conn].identity
    {
      hide CoordinatorOk, StateOk, IndexComplete, IndexExact, NamesOwner;
      StepKeepsOk(registry.env, Contents(), C.NoteScope(conn));
      var identity := connections[conn].phase.hello.identity;
      connections := connections[conn := connections[conn].(phase := Idle)];
      bootScopes := bootScopes[identity.boot := identity.scope];
    }

    /** A publish frame is answered from the cache, refused, or let through. */
    method ReceivePublish(conn: nat, id: nat, request: Option<Request>)
      requires Valid() && C.Enabled(Contents(), C.ReceivePublish(conn, id, request))
      modifies `connections
      ensures Valid()
      ensures Contents() == C.Perform(registry.env, old(Contents()), C.ReceivePublish(conn, id, request))
      ensures conn in connections
      ensures var c := connections[conn];
              c.phase.Closing? || (c.phase.Idle? && id in c.replay)
              || ((c.phase.Answered? || c.phase.Checked?) && IdOf(c.phase) == Some(id))
    {
      hide CoordinatorOk, StateOk, IndexComplete, IndexExact, NamesOwner;
      StepKeepsOk(registry.env, Contents(), C.ReceivePublish(conn, id, request));
      var c := connections[conn];
      var phase := Closing;
      if c.identity.Some? {
        if id in c.replay {
          phase := Idle;
        } else if request.None? {
          phase := Answered(id, Rejected(MalformedRequest));
        } else if !Matches(request.value, c.identity.value) {
          phase := Answered(id, Rejected(UnauthorizedPublisher));
        } else {
          phase := Checked(id, request.value);
        }
      }
      connections := connections[conn := c.(phase := phase)];
    }

    /** The request is stamped with the epoch of this moment. */
    method StampEpoch(conn: nat)
      requires Valid() && C.Enabled(Contents(), C.StampEpoch(conn))
      modifies `connections
      ensures Valid()
      ensures Contents() == C.Perform(registry.env, old(Contents()), C.StampEpoch(conn))
      ensures conn in connections
      ensures connections[conn].phase.Stamped? && IdOf(connections[conn].phase) == IdOf(old(connections)[conn].phase)
    {
      hide CoordinatorOk, StateOk, IndexComplete, IndexExact, NamesOwner;
      StepKeepsOk(registry.env, Contents(), C.StampEpoch(conn));
      var phase := connections[conn].phase;
      connections := connections[conn := connections[conn].(
        phase := Stamped(phase.id, phase.request.(epoch := registry.epoch)))];
    }

    /** The stamped request reaches the registry. */
    method PublishStamped(conn: nat)
      requires Valid() && C.Enabled(Contents(), C.PublishStamped(conn))
      modifies `connections, registry
      ensures Valid()
      ensures Contents() == C.Perform(registry.env, old(Contents()), C.PublishStamped(conn))
      ensures conn in connections
      ensures connections[conn].phase.Answered? && IdOf(connections[conn].phase) == IdOf(old(connections)[conn].phase)
    {
      hide CoordinatorOk, StateOk, IndexComplete, IndexExact, NamesOwner;
      StepKeepsOk(registry.env, Contents(), C.PublishStamped(conn));
      var phase := connections[conn].phase;
      var outcome := registry.Publish(phase.request);
      connections := connections[conn := connections[conn].(phase := Answered(phase.id, outcome))];
    }

    /** Remembers the answer, forgetting the oldest one when 64 are remembered. */
    method CacheAnswer(conn: nat)
      requires Valid() && C.Enabled(Contents(), C.CacheAnswer(conn))
      modifies `connections
      ensures Valid()
      ensures Contents() == C.Perform(registry.env, old(Contents()), C.CacheAnswer(conn))
      ensures conn in connections
      ensures connections[conn].phase.Idle?
      ensures forall id :: IdOf(old(connections)[conn].phase) == Some(id) ==> id in connections[conn].replay
    {
      hide CoordinatorOk, StateOk, IndexComplete, IndexExact, NamesOwner;
      StepKeepsOk(registry.env, Contents(), C.CacheAnswer(conn));
      var c := connections[conn];
      var order, replay := c.order, c.replay;
      if |replay| >= MAX_IN_FLIGHT && order != [] {
        replay := replay - {order[0]};
        order := order[1..];
      }
      order := order + [c.phase.id];
      replay := replay[c.phase.id := c.phase.outcome];
      connections := connections[conn := c.(order := order, replay := replay, phase := Idle)];
    }

    /** A fence frame may only name a boot registered inside the connection's own scope. */
    method ReceiveFence(conn: nat, boot: Id, reason: Id)
      requires Valid() && C.Enabled(Contents(), C.ReceiveFence(conn, boot, reason))
      modifies `connections
      ensures Valid()
      ensures Contents() == C.Perform(registry.env, old(Contents()), C.ReceiveFence(conn, boot, reason))
      ensures conn in connections
      ensures connections[conn].phase.Closing? || connections[conn].phase.Idle? || connections[conn].phase.FenceAllowed?
    {
      hide CoordinatorOk, StateOk, IndexComplete, IndexExact, NamesOwner;
      StepKeepsOk(registry.env, Contents(), C.ReceiveFence(conn, boot, reason));
      var c := connections[conn];
      var phase := Idle;
      if c.identity.None? {
        phase := Closing;
      } else if boot in bootScopes && bootScopes[boot] == c.identity.value.scope {
        phase := FenceAllowed(boot, reason);
      }
      connections := connections[conn := c.(phase := phase)];
    }

    /** Fences the boot the frame names. */
    method DoFence(conn: nat) returns (owner: Id)
      requires Valid() && Ready(Contents(), C.DoFence(conn, 0))
      modifies `connections, registry
      ensures Valid() && C.Enabled(old(Contents()), C.DoFence(conn, owner))
      ensures Contents() == C.Perform(registry.env, old(Contents()), C.DoFence(conn, owner))
      ensures conn in connections
      ensures connections[conn].phase.Idle? || connections[conn].phase.FenceDone?
    {
      hide CoordinatorOk, StateOk, IndexComplete, IndexExact, KeysOk, RegistrySteps.FenceWorkerBoot;
      ghost var before := Contents();
      var phase := connections[conn].phase;
      var error: Option<Error>;
      error, owner := registry.FenceWorkerBoot(phase.boot, phase.reason);
      StepKeepsOk(registry.env, before, C.DoFence(conn, owner));
      connections := connections[conn := connections[conn].(
        phase := if error.Some? then Idle else FenceDone(phase.boot))];
    }

    /** Forgets the scope of a fenced boot. */
    method ForgetScope(conn: nat)
      requires Valid() && C.Enabled(Contents(), C.ForgetScope(conn))
      modifies `connections, `bootScopes
      ensures Valid()
      ensures Contents() == C.Perform(registry.env, old(Contents()), C.ForgetScope(conn))
      ensures conn in connections
      ensures connections[conn].phase.Idle?
    {
      hide CoordinatorOk, StateOk, IndexComplete, IndexExact, NamesOwner;
      StepKeepsOk(registry.env, Contents(), C.ForgetScope(conn));
      bootScopes := bootScopes - {connections[conn].phase.boot};
      connections := connections[conn := connections[conn].(phase := Idle)];
    }

    /** The thread leaves its loop. */
    method Drop(conn: nat)
      requires Valid() && C.Enabled(Contents(), C.Drop(conn))
      modifies `connections
      ensures Valid()
      ensures Contents() == C.Perform(registry.env, old(Contents()), C.Drop(conn))
      ensures conn in connections
      ensures connections[conn].phase.Closing?
    {
      hide CoordinatorOk, StateOk, IndexComplete, IndexExact, NamesOwner;
      StepKeepsOk(registry.env, Contents(), C.Drop(conn));
      connections := connections[conn := connections[conn].(phase := Closing)];
    }

    /** A greeted connection that ends has its own boot fenced. */
    method CloseFence(conn: nat, reason: Id) returns (owner: Id)
      requires Valid() && Ready(Contents(), C.CloseFence(conn, 0, reason))
      modifies `connections, registry
      ensures Valid() && C.Enabled(old(Contents()), C.CloseFence(conn, owner, reason))
      ensures Contents() == C.Perform(registry.env, old(Contents()), C.CloseFence(conn, owner, reason))
      ensures conn in connections
      ensures connections[conn].phase == if connections[conn].identity.Some? then ClosingFenced else Removing
    {
      hide CoordinatorOk, StateOk, IndexComplete, IndexExact, KeysOk, RegistrySteps.FenceWorkerBoot;
      ghost var before := Contents();
      owner := 0;
      if connections[conn].identity.Some? {
        var _, named := registry.FenceWorkerBoot(connections[conn].identity.value.boot, reason);
        owner := named;
      }
      StepKeepsOk(registry.env, before, C.CloseFence(conn, owner, reason));
      connections := connections[conn := connections[conn].(
          phase := if connections[conn].identity.Some? then ClosingFenced else Removing)];
    }

    /** Forgets the scope of the connection's own boot. */
    method CloseForget(conn: nat)
      requires Valid() && C.Enabled(Contents(), C.CloseForget(conn))
      modifies `connections, `bootScopes
      ensures Valid()
      ensures Contents() == C.Perform(registry.env, old(Contents()), C.CloseForget(conn))
      ensures conn in connections
      ensures connections[conn].phase.Removing?
    {
      hide CoordinatorOk, StateOk, IndexComplete, IndexExact, NamesOwner;
      StepKeepsOk(registry.env, Contents(), C.CloseForget(conn));
      bootScopes := bootScopes - {connections[conn].identity.value.boot};
      connections := connections[conn := connections[conn].(phase := Removing)];
    }

    /** The connection is gone. */
    method RemoveConnection(conn: nat)
      requires Valid() && C.Enabled(Contents(), C.Remove(conn))
      modifies `connections
      ensures Valid()
      ensures Contents() == C.Perform(registry.env, old(Contents()), C.Remove(conn))
      ensures conn !in connections
    {
      hide CoordinatorOk, StateOk, IndexComplete, IndexExact, NamesOwner;
      StepKeepsOk(registry.env, Contents(), C.Remove(conn));
      connections := connections - {conn};
    }

    // ----- one connection's thread -----

    /** The thread waits for a frame or has left its loop. */
    ghost predicate Between(conn: nat)
      reads this
    {
      conn in connections && (connections[conn].phase.Idle? || connections[conn].phase.Closing?)
    }

    /** Serves a Hello from its arrival to the noted scope. */
    method ServeHello(conn: nat, hello: Option<Hello>, sent: bool, ghost from: Coordinator, ghost before: seq<C.Step>)
      returns (ghost steps: seq<C.Step>)
      requires Valid() && conn in connections && connections[conn].phase.Idle?
      requires Leads(registry.env, from, before, Contents())
      modifies this, registry
      ensures Valid() && Between(conn) && Leads(registry.env, from, steps, Contents())
      ensures connections[conn].phase.Idle? ==> hello.Some? && connections[conn].identity == Some(hello.value.identity)
    {
      hide C.Perform, CoordinatorOk, KeysOk, CapabilityRegistry.Valid, Leads, RegistrySteps.RegisterPublisher;
      LeadsOneMore(registry.env, from, before, Contents(), C.ReceiveHello(conn, hello));
      ReceiveHello(conn, hello);
      steps := before + [C.ReceiveHello(conn, hello)];
      if connections[conn].phase.Greeted? {
        LeadsOneMore(registry.env, from, steps, Contents(), C.RegisterGreeted(conn));
        RegisterGreeted(conn);
        steps := steps + [C.RegisterGreeted(conn)];
        if connections[conn].phase.Registered? {
          if sent {
            LeadsOneMore(registry.env, from, steps, Contents(), C.Adopt(conn));
            Adopt(conn);
            steps := steps + [C.Adopt(conn)];
            LeadsOneMore(registry.env, from, steps, Contents(), C.NoteScope(conn));
            NoteScope(conn);
            steps := steps + [C.NoteScope(conn)];
          } else {
            steps := LeaveLoop(conn, from, steps);
          }
        }
      }
    }

    method LeaveLoop(conn: nat, ghost from: Coordinator, ghost before: seq<C.Step>) returns (ghost steps: seq<C.Step>)
      requires Valid() && conn in connections && MayDrop(connections[conn].phase)
      requires Leads(registry.env, from, before, Contents())
      modifies `connections
      ensures Valid() && conn in connections && connections[conn].phase.Closing?
      ensures Leads(registry.env, from, steps, Contents())
    {
      hide C.Perform, CoordinatorOk, KeysOk, CapabilityRegistry.Valid, Leads;
      LeadsOneMore(registry.env, from, before, Contents(), C.Drop(conn));
      Drop(conn);
      steps := before + [C.Drop(conn)];
    }

    /** Serves a publish frame from its arrival to the cached answer. */
    method ServePublish(conn: nat, id: nat, request: Option<Request>, encodes: bool, sent: bool,
                        ghost from: Coordinator,
                        ghost before: seq<C.Step>) returns (ghost steps: seq<C.Step>)
      requires Valid() && conn in connections && connections[conn].phase.Idle?
      requires Leads(registry.env, from, before, Contents())
      modifies this, registry
      ensures Valid() && Between(conn) && Leads(registry.env, from, steps, Contents())
      ensures connections[conn].phase.Idle? ==> id in connections[conn].replay
    {
      hide C.Perform, CoordinatorOk, KeysOk, CapabilityRegistry.Valid, Leads, RegistrySteps.Publish;
      LeadsOneMore(registry.env, from, before, Contents(), C.ReceivePublish(conn, id, request));
      ReceivePublish(conn, id, request);
      steps := before + [C.ReceivePublish(conn, id, request)];
      if connections[conn].phase.Checked? {
        LeadsOneMore(registry.env, from, steps, Contents(), C.StampEpoch(conn));
        StampEpoch(conn);
        steps := steps + [C.StampEpoch(conn)];
        LeadsOneMore(registry.env, from, steps, Contents(), C.PublishStamped(conn));
        PublishStamped(conn);
        steps := steps + [C.PublishStamped(conn)];
      }
      if connections[conn].phase.Answered? {
        if encodes {
          LeadsOneMore(registry.env, from, steps, Contents(), C.CacheAnswer(conn));
          CacheAnswer(conn);
          steps := steps + [C.CacheAnswer(conn)];
        } else {
          steps := LeaveLoop(conn, from, steps);
        }
      }
      if connections[conn].phase.Idle? && !sent {
        steps := LeaveLoop(conn, from, steps);
      }
    }

    /** Serves a fence frame. */
    method ServeFence(conn: nat, boot: Id, reason: Id, sent: bool, ghost from: Coordinator, ghost before: seq<C.Step>)
      returns (ghost steps: seq<C.Step>)
      requires Valid() && conn in connections && connections[conn].phase.Idle?
      requires Leads(registry.env, from, before, Contents())
      modifies this, registry
      ensures Valid() && Between(conn) && Leads(registry.env, from, steps, Contents())
    {
      hide C.Perform, CoordinatorOk, KeysOk, CapabilityRegistry.Valid, Leads, RegistrySteps.FenceWorkerBoot, OwnerOf;
      LeadsOneMore(registry.env, from, before, Contents(), C.ReceiveFence(conn, boot, reason));
      ReceiveFence(conn, boot, reason);
      steps := before + [C.ReceiveFence(conn, boot, reason)];
      if connections[conn].phase.FenceAllowed? {
        ghost var was := Contents();
        var owner := DoFence(conn);
        LeadsOneMore(registry.env, from, steps, was, C.DoFence(conn, owner));
        steps := steps + [C.DoFence(conn, owner)];
        if connections[conn].phase.FenceDone? {
          LeadsOneMore(registry.env, from, steps, Contents(), C.ForgetScope(conn));
          ForgetScope(conn);
          steps := steps + [C.ForgetScope(conn)];
        }
      }
      if connections[conn].phase.Idle? && !sent {
        steps := LeaveLoop(conn, from, steps);
      }
    }

    /** Fences the boot of a greeted connection and removes the connection. */
    method Close(conn: nat, reason: Id, ghost from: Coordinator, ghost before: seq<C.Step>)
      returns (ghost steps: seq<C.Step>)
      requires Valid() && conn in connections && connections[conn].phase.Closing?
      requires Leads(registry.env, from, before, Contents())
      modifies this, registry
      ensures Valid() && conn !in connections && Leads(registry.env, from, steps, Contents())
    {
      hide C.Perform, CoordinatorOk, KeysOk, CapabilityRegistry.Valid, Leads, RegistrySteps.FenceWorkerBoot, OwnerOf;
      ghost var was := Contents();
      var owner := CloseFence(conn, reason);
      LeadsOneMore(registry.env, from, before, was, C.CloseFence(conn, owner, reason));
      steps := before + [C.CloseFence(conn, owner, reason)];
      if connections[conn].identity.Some? {
        LeadsOneMore(registry.env, from, steps, Contents(), C.CloseForget(conn));
        CloseForget(conn);
        steps := steps + [C.CloseForget(conn)];
      }
      LeadsOneMore(registry.env, from, steps, Contents(), C.Remove(conn));
      RemoveConnection(conn);
      steps := steps + [C.Remove(conn)];
    }

    /** The loop of one connection's thread over the frames it receives. Undisturbed, it is a run
        of the state machine from the accepted connection to its removal. */
    method ServeConnection(conn: nat, frames: seq<Frame>, reason: Id) returns (ghost steps: seq<C.Step>)
      requires Valid() && conn in connections && connections[conn].phase.Idle?
      modifies this, registry
      ensures Valid() && conn !in connections
      ensures Leads(registry.env, old(Contents()), steps, Contents())
    {
      hide C.Perform, CoordinatorOk, KeysOk, CapabilityRegistry.Valid, Leads;
      ghost var from := Contents();
      LeadsNowhere(registry.env, from);
      steps := [];
      var k := 0;
      while k < |frames| && connections[conn].phase.Idle?
        invariant k <= |frames| && Valid() && Between(conn)
        invariant Leads(registry.env, from, steps, Contents())
        decreases |frames| - k
      {
        match frames[k] {
          case HelloFrame(hello, sent) => steps := ServeHello(conn, hello, sent, from, steps);
          case PublishFrame(id, request, encodes, sent) =>
            steps := ServePublish(conn, id, request, encodes, sent, from, steps);
          case FenceFrame(boot, why, sent) => steps := ServeFence(conn, boot, why, sent, from, steps);
          case OtherFrame(sent) =>
            if connections[conn].identity.None? || !sent {
              steps := LeaveLoop(conn, from, steps);
            }
          case Goodbye => steps := LeaveLoop(conn, from, steps);
        }
        k := k + 1;
      }
      if connections[conn].phase.Idle? {
        steps := LeaveLoop(conn, from, steps);
      }
      steps := Close(conn, reason, from, steps);
    }
  }
}
