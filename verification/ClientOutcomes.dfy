/** What becomes of the client's connection, step by step and over runs: how an
    attempt starts, succeeds and fails, when a retry is armed, and when the
    client gives up. */
module ClientOutcomes {
  import opened Common
  import opened Client
  import opened ClientProofs

  /** The client apart from its requests. */
  datatype Line = Line(
    socket: Option<nat>,
    gen: nat,
    attempt: nat,
    retry: bool,
    closedByUs: bool,
    status: Status,
    target: Option<Target>,
    attempts: map<nat, Phase>)

  function LineOf(c: State): Line {
    Line(c.socket, c.gen, c.attempt, c.retry, c.closedByUs, c.status, c.target, c.attempts)
  }

  // -- what an event means for the attempt under way ------------------------

  predicate Pairs(c: State) {
    c.target.Some? && c.target.value.pairing
  }

  /** The event ends the request the current handshake waits on. */
  predicate EndsHandshake(c: State, e: Event) {
    && ((e.Answer? && e.gen == c.gen) || e.SendFails?)
    && e.id in c.pending && c.pending[e.id].Awaiting?
    && c.gen in c.attempts && c.attempts[c.gen].Handshaking? && c.attempts[c.gen].handle == c.pending[e.id].handle
  }

  /** The current attempt fails. */
  predicate Fails(c: State, e: Event) {
    || ((e.DialRejects? || e.HandshakeTimesOut?) && e.gen == c.gen)
    || (EndsHandshake(c, e) && (e.SendFails? || !e.ok))
  }

  /** Trying again cannot help: another host key, or a pairing code still held. */
  predicate Hopeless(c: State, e: Event) {
    (e.DialRejects? && e.mismatch) || Pairs(c)
  }

  /** The socket of the current generation is lost. */
  predicate Loses(c: State, e: Event) {
    e.SocketCloses? && e.gen == c.gen
  }

  // -- requests leave the connection alone ----------------------------------

  lemma RequestLine(c: State, on: nat, timed: bool)
    ensures LineOf(Request(c, on, timed)) == LineOf(c) && Request(c, on, timed).accepted == c.accepted + 1
  {
  }

  lemma SettleLine(c: State, id: nat)
    requires id in c.pending
    ensures LineOf(Settle(c, id)) == LineOf(c) && Settle(c, id).accepted == c.accepted
  {
  }

  lemma TeardownLine(c: State)
    ensures var c' := Teardown(c);
      LineOf(c') == LineOf(c).(gen := c.gen + 1, retry := false, socket := None, attempts := StillDialing(c.attempts))
  {
  }

  /** The end of a request, seen from the connection. */
  lemma FinishLine(c: State, e: Event)
    requires Enabled(c, e) && ((e.Answer? && e.gen == c.gen && e.id in c.pending) || e.SendFails?)
    ensures !EndsHandshake(c, e) ==> LineOf(Step(c, e)) == LineOf(c)
    ensures EndsHandshake(c, e) ==>
              exists told: State ::
                && LineOf(told) == LineOf(c) && told.accepted == c.accepted
                && Step(c, e) == Continue(told, c.gen, e.Answer? && e.ok)
  {
    hide Settle, Continue;
    SettleLine(c, e.id);
    var waiter := c.pending[e.id];
    var freed := Settle(c, e.id);
    var told := freed.(settled := freed.settled + [if waiter.Awaiting? then waiter.handle else 0]);
    assert LineOf(told) == LineOf(c);
  }

  // -- how an attempt ends --------------------------------------------------

  /** A failed attempt: its socket goes, the failure is reported, and a retry is
      armed, one step further back, exactly when trying again can help. */
  lemma AttemptLost(c: State, e: Event)
    requires Lifecycle(c) && Enabled(c, e) && Fails(c, e)
    ensures LineOf(Step(c, e))
            == LineOf(c).(socket := None, status := Error, attempts := c.attempts - {c.gen},
                          retry := !Hopeless(c, e), attempt := c.attempt + if Hopeless(c, e) then 0 else 1)
  {
    hide Settle, Request;
    if e.Answer? || e.SendFails? {
      FinishLine(c, e);
    }
  }

  /** A handshake answered. The host greeted, or its workspace was read: the client
      is connected and this attempt is over; backoff starts afresh after a retry.
      Paired: the code is spent, and the attempt reads the workspace. */
  lemma HandshakeAnswered(c: State, e: Event)
    requires Lifecycle(c) && Enabled(c, e) && EndsHandshake(c, e) && e.Answer? && e.ok
    ensures var phase := c.attempts[c.gen];
      LineOf(Step(c, e))
      == if phase.first == Pair
         then LineOf(c).(status := Connected, target := Some(Target(false)),
                         attempts := c.attempts[c.gen := Handshaking(Workspace, c.accepted, phase.fromRetry)])
         else LineOf(c).(status := Connected, attempts := c.attempts - {c.gen},
                         attempt := if phase.fromRetry then 0 else c.attempt)
  {
    hide Settle, Request;
    FinishLine(c, e);
    var told: State :|
      LineOf(told) == LineOf(c) && told.accepted == c.accepted && Step(c, e) == Continue(told, c.gen, e.Answer? && e.ok);
    var phase := c.attempts[c.gen];
    if phase.first == Pair {
      var paired := told.(target := Some(Target(false)), status := Connected,
                          attempts := told.attempts[c.gen := phase.(first := Workspace, handle := told.accepted)]);
      RequestLine(paired, c.gen, false);
    }
  }

  /** The socket closes under a client that did not ask for it: the loss is
      reported, and a retry is armed exactly when the close code is not fatal. */
  lemma SocketLost(c: State, e: Event)
    requires Lifecycle(c) && Enabled(c, e) && Loses(c, e)
    ensures !c.closedByUs
    ensures LineOf(Step(c, e))
            == LineOf(c).(socket := None, gen := c.gen + 1, status := Error, attempts := StillDialing(c.attempts),
                          retry := !e.fatal, attempt := c.attempt + if e.fatal then 0 else 1)
  {
    hide Teardown, StillDialing;
    TeardownLine(c);
  }

  // -- how an attempt starts ------------------------------------------------

  /** Connecting, or the retry, dials under a new generation; a dial that opens in
      time holds its socket and greets the host, or pairs while a code is held. */
  lemma AttemptStarts(c: State, e: Event)
    requires Lifecycle(c) && Enabled(c, e)
    ensures e.Connect? ==>
              LineOf(Step(c, e))
              == Line(None, c.gen + 2, 0, false, false, if e.pairing then Pairing else Connecting, Some(Target(e.pairing)),
                      StillDialing(c.attempts)[c.gen + 2 := Dialing(false)])
    ensures e.RetryFires? ==>
              LineOf(Step(c, e))
              == LineOf(c).(gen := c.gen + 1, retry := false, status := if Pairs(c) then Pairing else Connecting,
                            attempts := c.attempts[c.gen + 1 := Dialing(true)])
    ensures e.DialOpens? ==>
              LineOf(Step(c, e))
              == if e.gen != c.gen then LineOf(c).(attempts := c.attempts - {e.gen})
                 else
                   var first := if Pairs(c) then Pair else Hello;
                   LineOf(c).(socket := Some(c.gen),
                              attempts := c.attempts[c.gen := Handshaking(first, c.accepted, c.attempts[c.gen].fromRetry)])
  {
    hide Teardown, StillDialing, Request;
    TeardownLine(c);
    if e.DialOpens? && e.gen == c.gen {
      var phase := Handshaking(if Pairs(c) then Pair else Hello, c.accepted, c.attempts[c.gen].fromRetry);
      RequestLine(c.(socket := Some(c.gen), attempts := c.attempts[c.gen := phase]), c.gen, false);
    }
  }

  /** Told to disconnect, it drops everything but dials still out; an error on a
      connected socket is reported; a superseded attempt is forgotten; and no
      other event touches the connection. */
  lemma NothingElse(c: State, e: Event)
    requires Lifecycle(c) && Enabled(c, e)
    requires !e.Connect? && !e.RetryFires? && !e.DialOpens? && !EndsHandshake(c, e) && !Fails(c, e) && !Loses(c, e)
    ensures LineOf(Step(c, e))
            == if e.Disconnect? then
                 LineOf(c).(socket := None, gen := c.gen + 1, retry := false, closedByUs := true, status := Disconnected, target := None,
                            attempts := StillDialing(c.attempts))
               else if e.SocketErrors? && e.gen == c.gen && c.status == Connected then LineOf(c).(status := Error)
               else if e.DialRejects? || e.HandshakeTimesOut? then LineOf(c).(attempts := c.attempts - {e.gen})
               else LineOf(c)
  {
    hide Teardown, StillDialing, Request, Finish;
    TeardownLine(c);
    if e.Call? && c.socket.Some? { RequestLine(c, c.socket.value, e.timed); }
    if (e.Answer? && e.gen == c.gen && e.id in c.pending) || e.SendFails? { FinishLine(c, e); }
  }

  // -- giving up ------------------------------------------------------------

  /** Something is still going to happen: a retry, a live attempt, or a socket. */
  predicate Alive(c: State) {
    c.retry || c.socket.Some? || c.gen in c.attempts
  }

  /** Told to disconnect; or lost to what only the user can clear: a fatal close,
      another host key, a pairing that failed. */
  predicate GivesUp(c: State, e: Event) {
    e.Disconnect? || (Loses(c, e) && e.fatal) || (Fails(c, e) && Hopeless(c, e))
  }

  /** At each step the client stays alive exactly unless the event makes it give
      up, and only connecting brings it back. */
  lemma StepAlive(c: State, e: Event)
    requires Lifecycle(c) && Enabled(c, e)
    ensures Alive(Step(c, e)) <==> e.Connect? || (Alive(c) && !GivesUp(c, e))
  {
    hide Step, StillDialing;
    OldDials(c);
    AttemptStarts(c, e);
    if Fails(c, e) {
      AttemptLost(c, e);
    } else if EndsHandshake(c, e) {
      HandshakeAnswered(c, e);
    } else if Loses(c, e) {
      SocketLost(c, e);
    } else if !e.Connect? && !e.RetryFires? && !e.DialOpens? {
      NothingElse(c, e);
    }
    assert LineOf(Step(c, e)).retry == Step(c, e).retry;
  }

  lemma OldDials(c: State)
    ensures forall g :: g in StillDialing(c.attempts) ==> g in c.attempts
  {
  }

  /** No event of the run makes the client give up. */
  predicate Persists(c: State, run: seq<Event>)
    requires Legal(c, run)
    decreases |run|
  {
    run == [] || (!GivesUp(c, run[0]) && Persists(Step(c, run[0]), run[1..]))
  }

  /** The run connects, and from then on the client does not give up. */
  predicate Reconnects(c: State, run: seq<Event>)
    requires Legal(c, run)
    decreases |run|
  {
    run != []
    && ((run[0].Connect? && Persists(Step(c, run[0]), run[1..])) || Reconnects(Step(c, run[0]), run[1..]))
  }

  lemma {:induction false} RunAlive(c: State, run: seq<Event>)
    requires Lifecycle(c) && Legal(c, run)
    ensures Alive(Exec(c, run)) <==> (Alive(c) && Persists(c, run)) || Reconnects(c, run)
    decreases |run|
  {
    hide Lifecycle, Alive, Step, Enabled, GivesUp;
    if run != [] {
      StepAlive(c, run[0]);
      StepLifecycle(c, run[0]);
      ConnectHolds(c, run[0]);
      RunAlive(Step(c, run[0]), run[1..]);
    }
  }

  lemma ConnectHolds(c: State, e: Event)
    ensures e.Connect? ==> !GivesUp(c, e)
  {
  }

  /** Over every run the client is still trying, or connected, exactly when some
      connect of the run was followed by nothing that makes it give up. */
  lemma NeverGivesUpSilently(run: seq<Event>)
    requires Legal(INITIAL, run)
    ensures Alive(Exec(INITIAL, run)) <==> Reconnects(INITIAL, run)
  {
    hide Legal, Exec, Persists, Reconnects;
    RunAlive(INITIAL, run);
  }

  // -- one request ----------------------------------------------------------

  /** A call is accepted exactly while a socket is held; it goes out at once while
      a slot is free, and waits behind all others otherwise. */
  lemma CallGoesOut(c: State, timed: bool)
    ensures var c' := Step(c, Call(timed));
      if c.socket.None? then c' == c
      else
        && c'.accepted == c.accepted + 1 && c'.settled == c.settled
        && (|c.pending| < MAX_IN_FLIGHT ==>
              && c'.sent == c.sent + [c.accepted] && c'.queue == c.queue
              && c'.pending == c.pending[c.nextId := Awaiting(c.accepted, c.socket.value, timed)])
        && (|c.pending| >= MAX_IN_FLIGHT ==>
              c'.sent == c.sent && c'.pending == c.pending && c'.queue == c.queue + [Queued(c.accepted, c.socket.value, timed)])
  {
  }

  /** An answer on the current socket, or a failed send, frees its slot: the head
      of the queue goes out, and a caller still waiting is told. */
  lemma RequestEnds(c: State, e: Event)
    requires Slots(c) && Enabled(c, e) && ((e.Answer? && e.gen == c.gen && e.id in c.pending) || e.SendFails?)
    ensures var c', waiter := Step(c, e), c.pending[e.id];
      && e.id !in c'.pending
      && c'.settled == c.settled + (if waiter.Awaiting? then [waiter.handle] else [])
      && (c.queue != [] ==> c.sent + [c.queue[0].handle] <= c'.sent)
  {
    hide Step, Settle, Continue, Request, Fifo, HandlesOf;
    var freed := Settle(c, e.id);
    SettleLine(c, e.id);
    SettleSends(c, e.id);
    FinishIs(c, e);
    if EndsHandshake(c, e) {
      ContinueTold(freed.(settled := freed.settled + [c.pending[e.id].handle]), c.gen, e.Answer? && e.ok, e.id);
    }
  }

  lemma SettleSends(c: State, id: nat)
    requires IdsFresh(c) && id in c.pending
    ensures var freed := Settle(c, id);
      && id !in freed.pending && id < freed.nextId && freed.settled == c.settled
      && (c.queue != [] ==> freed.sent == c.sent + [c.queue[0].handle])
  {
  }

  lemma FinishIs(c: State, e: Event)
    requires Enabled(c, e) && ((e.Answer? && e.gen == c.gen && e.id in c.pending) || e.SendFails?)
    ensures var freed, waiter := Settle(c, e.id), c.pending[e.id];
      Step(c, e) == if waiter.Abandoned? then freed
                    else
                      var told := freed.(settled := freed.settled + [waiter.handle]);
                      if EndsHandshake(c, e) then Continue(told, c.gen, e.Answer? && e.ok) else told
  {
    hide Settle, Continue;
  }

  lemma ContinueTold(c: State, g: nat, ok: bool, id: nat)
    requires g in c.attempts && c.attempts[g].Handshaking? && id !in c.pending && id < c.nextId
    ensures var c' := Continue(c, g, ok);
      id !in c'.pending && c'.settled == c.settled && c.sent <= c'.sent
  {
  }

  /** Once the attempt is abandoned, to connect anew, to disconnect or for a lost
      socket, every request accepted before has been settled. */
  lemma EveryoneTold(c: State, e: Event, r: nat)
    requires Good(c) && Enabled(c, e) && (e.Connect? || e.Disconnect? || Loses(c, e)) && r < c.accepted
    ensures r in Step(c, e).settled
  {
    hide Lifecycle, Slots, HandlesOf, AwaitedBelow;
    var c' := Step(c, e);
    StepGood(c, e);
    assert c'.queue == [] && c'.pending == map[] && c'.accepted == c.accepted;
    assert Tally(c', r) == 1;
    NobodyWaits(c'.nextId, r);
    InTimes(c'.settled, r);
  }

  lemma {:induction false} NobodyWaits(bound: nat, r: nat)
    ensures Waiting(map[], bound, r) == 0 && Times(HandlesOf([]), r) == 0
  {
    if bound > 0 { NobodyWaits(bound - 1, r); }
  }

  lemma {:induction false} InTimes(xs: seq<nat>, r: nat)
    requires Times(xs, r) > 0
    ensures r in xs
  {
    if xs[|xs| - 1] != r { InTimes(xs[..|xs| - 1], r); }
  }
}
