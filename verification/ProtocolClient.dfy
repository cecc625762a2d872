/** The client object (src/remote/client.ts): its fields, and its methods each
    proved to take the step of the model. */
module ProtocolClient {
  import opened Common
  import opened Client

  class ProtocolClient {
    var socket: Option<nat>
    var pending: map<nat, Waiter>
    var queue: seq<Queued>
    var gen: nat
    var attempt: nat
    var retry: bool
    var closedByUs: bool
    var status: Status
    var target: Option<Target>
    // the runs of `attemptConnect` still waiting on something
    var attempts: map<nat, Phase>
    var nextId: nat
    ghost var accepted: nat
    ghost var sent: seq<nat>
    // callers told how their request ended, in order
    ghost var settled: seq<nat>

    ghost function Model(): State
      reads this
    {
      State(socket, pending, queue, gen, attempt, retry, closedByUs, status, target, attempts, accepted, nextId, sent, settled)
    }

    constructor ()
      ensures Model() == INITIAL
    {
      socket, pending, queue, gen, attempt, retry, closedByUs := None, map[], [], 0, 0, false, false;
      status, target, attempts, nextId := Disconnected, None, map[], 0;
      accepted, sent, settled := 0, [], [];
    }

    // -- requests -----------------------------------------------------------

    method SendNow(q: Queued)
      modifies this
      ensures Model() == Send(old(Model()), q)
    {
      var id := nextId;
      nextId := nextId + 1;
      pending := pending[id := Awaiting(q.handle, q.on, q.timed)];
      sent := sent + [q.handle];
    }

    method Request(handle: nat, on: nat, timed: bool)
      requires handle == accepted
      modifies this
      ensures Model() == Client.Request(old(Model()), on, timed)
    {
      accepted := accepted + 1;
      if |pending| < MAX_IN_FLIGHT {
        SendNow(Queued(handle, on, timed));
      } else {
        queue := queue + [Queued(handle, on, timed)];
      }
    }

    method Settle(id: nat) returns (waiter: Option<Waiter>)
      modifies this
      ensures waiter == if id in old(pending) then Some(old(pending)[id]) else None
      ensures Model() == if id in old(pending) then Client.Settle(old(Model()), id) else old(Model())
    {
      if id !in pending { return None; }
      waiter := Some(pending[id]);
      pending := pending - {id};
      if queue != [] {
        var next := queue[0];
        queue := queue[1..];
        SendNow(next);
      }
    }

    /** `timeoutMs` passed: the caller is told, and the slot stays taken. */
    method RequestTimesOut(id: nat)
      requires id in pending && pending[id].Awaiting? && pending[id].timed
      modifies this
      ensures Model() == Step(old(Model()), Event.RequestTimesOut(id))
    {
      settled := settled + [pending[id].handle];
      pending := pending[id := Abandoned(pending[id].on)];
    }

    method Call(handle: nat, timed: bool) returns (accepted: bool)
      requires handle == this.accepted
      modifies this
      ensures Model() == Step(old(Model()), Event.Call(timed))
      ensures accepted <==> old(socket).Some?
    {
      if socket.None? { return false; }
      Request(handle, socket.value, timed);
      accepted := true;
    }

    method SendFails(id: nat, handle: nat)
      requires id in pending && handle == accepted
      modifies this
      ensures Model() == Step(old(Model()), Event.SendFails(id))
    {
      Finish(id, handle, false);
    }

    method OnMessage(from: nat, id: nat, ok: bool, handle: nat)
      requires handle == accepted && Enabled(Model(), Answer(from, id, ok))
      modifies this
      ensures Model() == Step(old(Model()), Answer(from, id, ok))
    {
      if from != gen { return; }
      if id in pending { Finish(id, handle, ok); }
    }

    /** The answer settles the request; a handshake waiting on it goes on in the
        same turn. `handle` is the next request's. */
    method Finish(id: nat, handle: nat, ok: bool)
      requires id in pending && handle == accepted
      modifies this
      ensures Model() == Client.Finish(old(Model()), id, ok)
    {
      hide Client.Settle, Client.Continue, Client.Request;
      ghost var before := Model();
      var waiter := Settle(id);
      if waiter.value.Abandoned? { return; }
      settled := settled + [waiter.value.handle];
      SettleKeeps(before, id);
      if gen in attempts && attempts[gen].Handshaking? && attempts[gen].handle == waiter.value.handle {
        Continue(gen, handle, ok);
      }
    }

    static lemma SettleKeeps(c: State, id: nat)
      requires id in c.pending
      ensures var c' := Client.Settle(c, id);
        c'.attempts == c.attempts && c'.gen == c.gen && c'.accepted == c.accepted
    {
    }

    // -- attempts -----------------------------------------------------------

    method Connect(pairing: bool)
      modifies this
      ensures Model() == Step(old(Model()), Event.Connect(pairing))
    {
      Teardown();
      target := Some(Target(pairing));
      closedByUs := false;
      attempt := 0;
      StartAttempt(false);
    }

    method Disconnect()
      modifies this
      ensures Model() == Step(old(Model()), Event.Disconnect)
    {
      closedByUs := true;
      Teardown();
      target := None;
      status := Disconnected;
    }

    method StartAttempt(fromRetry: bool)
      requires target.Some?
      modifies this
      ensures Model() == Client.StartAttempt(old(Model()), fromRetry)
    {
      gen := gen + 1;
      status := if target.value.pairing then Pairing else Connecting;
      attempts := attempts[gen := Dialing(fromRetry)];
    }

    method RetryFires()
      requires retry
      modifies this
      ensures Model() == Step(old(Model()), Event.RetryFires)
    {
      retry := false;
      if target.Some? { StartAttempt(true); }
    }

    /** `openFirstReachable` returned a socket. */
    method DialOpens(g: nat, handle: nat)
      requires g in attempts && attempts[g].Dialing? && handle == accepted
      modifies this
      ensures Model() == DialSucceeds(old(Model()), g)
    {
      hide Client.Request;
      if g != gen {
        attempts := attempts - {g};
        return;
      }
      socket := Some(g);
      var first := if target.Some? && target.value.pairing then Pair else Hello;
      attempts := attempts[g := Handshaking(first, handle, attempts[g].fromRetry)];
      Request(handle, g, false);
    }

    method Continue(g: nat, handle: nat, ok: bool)
      requires g in attempts && attempts[g].Handshaking? && handle == accepted
      modifies this
      ensures Model() == Client.Continue(old(Model()), g, ok)
    {
      hide Client.Request, Client.AttemptFails;
      if !ok {
        AttemptFails(g, false);
        return;
      }
      var phase := attempts[g];
      status := Connected;
      if phase.first == Pair {
        target := Some(Target(false));
        attempts := attempts[g := phase.(first := Workspace, handle := handle)];
        Request(handle, g, false);
      } else {
        attempts := attempts - {g};
        if phase.fromRetry { attempt := 0; }
      }
    }

    method AttemptFails(g: nat, mismatch: bool)
      modifies this
      ensures Model() == Client.AttemptFails(old(Model()), g, mismatch)
    {
      var retryable := !(target.Some? && target.value.pairing) && !mismatch;
      attempts := attempts - {g};
      if g == gen {
        socket := None;
        Fail(retryable);
      }
    }

    method Fail(retryable: bool)
      modifies this
      ensures Model() == Client.Fail(old(Model()), retryable)
    {
      if retryable && !closedByUs { ScheduleRetry(); }
      status := Error;
    }

    method ScheduleRetry()
      modifies this
      ensures Model() == Client.ScheduleRetry(old(Model()))
    {
      if retry { return; }
      attempt := attempt + 1;
      retry := true;
    }

    method OnClose(from: nat, fatal: bool)
      requires Enabled(Model(), SocketCloses(from, fatal))
      modifies this
      ensures Model() == Step(old(Model()), SocketCloses(from, fatal))
    {
      hide Client.Fail, HandlesOf, AwaitedBelow;
      if from != gen { return; }
      Teardown();
      if closedByUs { return; }
      Fail(!fatal);
    }

    method OnSocketError(from: nat)
      requires Enabled(Model(), SocketErrors(from))
      modifies this
      ensures Model() == Step(old(Model()), SocketErrors(from))
    {
      if from == gen && status == Connected { status := Error; }
    }

    /** Everyone waiting is told, in the order they queued and then in the order
        they were sent; a handshake told so is over. */
    method Teardown()
      modifies this
      ensures Model() == Client.Teardown(old(Model()))
    {
      hide HandlesOf, AwaitedBelow, StillDialing;
      gen := gen + 1;
      retry := false;
      RejectAll();
      EmptyBooks();
    }

    method EmptyBooks()
      modifies this
      ensures Model() == old(Model()).(queue := [], pending := map[], socket := None, attempts := StillDialing(old(attempts)))
    {
      hide StillDialing;
      queue := [];
      pending := map[];
      socket := None;
      attempts := StillDialing(attempts);
    }

    method RejectAll()
      modifies this`settled
      ensures settled == old(settled) + HandlesOf(queue) + AwaitedBelow(pending, nextId)
    {
      hide HandlesOf, AwaitedBelow;
      RejectQueued();
      RejectPending();
    }

    method RejectQueued()
      modifies this`settled
      ensures settled == old(settled) + HandlesOf(queue)
    {
      for i := 0 to |queue|
        invariant settled == old(settled) + HandlesOf(queue[..i])
      {
        settled := settled + [queue[i].handle];
        assert HandlesOf(queue[..i + 1]) == HandlesOf(queue[..i]) + [queue[i].handle];
      }
      assert queue[..|queue|] == queue;
    }

    method RejectPending()
      modifies this`settled
      ensures settled == old(settled) + AwaitedBelow(pending, nextId)
    {
      for id := 0 to nextId
        invariant settled == old(settled) + AwaitedBelow(pending, id)
      {
        if id in pending && pending[id].Awaiting? {
          settled := settled + [pending[id].handle];
        }
      }
    }
  }
}
