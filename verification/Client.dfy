/** The phone's protocol client as a state machine (src/remote/client.ts): what
    it holds and what each call, timer and socket callback does to it.

    A request is known by its place in the order of acceptance (`handle`), a
    sent one also by the id its frame carries; ids are fresh. A socket is known
    by the generation its callbacks carry. */
module Client {
  import opened Common

  const MAX_IN_FLIGHT: nat := 8

  /** A slot of `pending`: a request awaiting its answer, or one given up on
      after its timeout, whose slot stays taken. `on` is the socket it went to. */
  datatype Waiter = Awaiting(handle: nat, on: nat, timed: bool) | Abandoned(on: nat)

  /** A request held back; its send is bound to the socket it was made on. */
  datatype Queued = Queued(handle: nat, on: nat, timed: bool)

  datatype Status = Disconnected | Connecting | Pairing | Connected | Error

  datatype First = Hello | Pair | Workspace

  /** Where one run of `attemptConnect` has got to. */
  datatype Phase = Dialing(fromRetry: bool) | Handshaking(first: First, handle: nat, fromRetry: bool)

  /** `pairing`: the target still holds a pairing code. */
  datatype Target = Target(pairing: bool)

  datatype State = State(
    socket: Option<nat>,
    pending: map<nat, Waiter>,
    queue: seq<Queued>,
    gen: nat,
    attempt: nat,
    retry: bool,
    closedByUs: bool,
    status: Status,
    target: Option<Target>,
    attempts: map<nat, Phase>,
    accepted: nat,
    nextId: nat,
    sent: seq<nat>,
    settled: seq<nat>)

  const INITIAL := State(None, map[], [], 0, 0, false, false, Disconnected, None, map[], 0, 0, [], [])

  // -- requests -------------------------------------------------------------

  function Send(c: State, q: Queued): State {
    c.(pending := c.pending[c.nextId := Awaiting(q.handle, q.on, q.timed)],
       nextId := c.nextId + 1,
       sent := c.sent + [q.handle])
  }

  /** A request accepted on the socket of generation `on`. */
  function Request(c: State, on: nat, timed: bool): State {
    var q := Queued(c.accepted, on, timed);
    var c' := c.(accepted := c.accepted + 1);
    if |c.pending| < MAX_IN_FLIGHT then Send(c', q) else c'.(queue := c.queue + [q])
  }

  /** Take `id` off the books and hand its slot to the next queued request. */
  function Settle(c: State, id: nat): State
    requires id in c.pending
  {
    var c' := c.(pending := c.pending - {id});
    if c.queue == [] then c' else Send(c'.(queue := c.queue[1..]), c.queue[0])
  }

  /** The awaited handles of a map of slots, slot by slot in order of id. */
  function AwaitedBelow(pending: map<nat, Waiter>, bound: nat): seq<nat> {
    if bound == 0 then []
    else
      var id := bound - 1;
      AwaitedBelow(pending, id) + (if id in pending && pending[id].Awaiting? then [pending[id].handle] else [])
  }

  function HandlesOf(queue: seq<Queued>): seq<nat> {
    seq(|queue|, i requires 0 <= i < |queue| => queue[i].handle)
  }

  /** Dials still out run on after a teardown. */
  function StillDialing(attempts: map<nat, Phase>): map<nat, Phase> {
    map g | g in attempts && attempts[g].Dialing? :: attempts[g]
  }

  /** Abandon the current attempt: everything waiting on it is rejected, which
      also ends a handshake that was waiting on its request. */
  function Teardown(c: State): State {
    c.(gen := c.gen + 1,
       retry := false,
       settled := c.settled + HandlesOf(c.queue) + AwaitedBelow(c.pending, c.nextId),
       queue := [],
       pending := map[],
       socket := None,
       attempts := StillDialing(c.attempts))
  }

  // -- attempts -------------------------------------------------------------

  function ScheduleRetry(c: State): State {
    if c.retry then c else c.(retry := true, attempt := c.attempt + 1)
  }

  function Fail(c: State, retryable: bool): State {
    (if retryable && !c.closedByUs then ScheduleRetry(c) else c).(status := Error)
  }

  function StartAttempt(c: State, fromRetry: bool): State
    requires c.target.Some?
  {
    c.(gen := c.gen + 1,
       status := if c.target.value.pairing then Pairing else Connecting,
       attempts := c.attempts[c.gen + 1 := Dialing(fromRetry)])
  }

  /** The `catch` of `attemptConnect`: a current attempt drops its socket, but
      nothing it left pending is cleared. */
  function AttemptFails(c: State, g: nat, mismatch: bool): State {
    var over := c.(attempts := c.attempts - {g});
    if g != c.gen then over
    else
      Fail(over.(socket := None), !mismatch && !(c.target.Some? && c.target.value.pairing))
  }

  function AttemptSucceeds(c: State, g: nat, fromRetry: bool): State {
    c.(status := Connected, attempts := c.attempts - {g}, attempt := if fromRetry then 0 else c.attempt)
  }

  function DialSucceeds(c: State, g: nat): State
    requires g in c.attempts && c.attempts[g].Dialing?
  {
    if g != c.gen then c.(attempts := c.attempts - {g})
    else
      var first := if c.target.Some? && c.target.value.pairing then Pair else Hello;
      var phase := Handshaking(first, c.accepted, c.attempts[g].fromRetry);
      Request(c.(socket := Some(g), attempts := c.attempts[g := phase]), g, false)
  }

  /** The live handshake that is waiting on request `handle`. */
  function HandshakeOn(c: State, handle: nat): (g: Option<nat>)
    ensures g.Some? ==> g.value in c.attempts && c.attempts[g.value].Handshaking? && c.attempts[g.value].handle == handle
  {
    if c.gen in c.attempts && c.attempts[c.gen].Handshaking? && c.attempts[c.gen].handle == handle
    then Some(c.gen) else None
  }

  /** What a handshake does with the outcome of the request it waited on. */
  function Continue(c: State, g: nat, ok: bool): State
    requires g in c.attempts && c.attempts[g].Handshaking?
  {
    var phase := c.attempts[g];
    if !ok then AttemptFails(c, g, false)
    else
      match phase.first
      case Pair =>
        var paired := c.(target := Some(Target(false)), status := Connected,
                         attempts := c.attempts[g := phase.(first := Workspace, handle := c.accepted)]);
        Request(paired, g, false)
      case _ => AttemptSucceeds(c, g, phase.fromRetry)
  }

  /** Request `id` ended: its slot moves on, its caller learns, and a handshake
      waiting on it goes on. */
  function Finish(c: State, id: nat, ok: bool): State
    requires id in c.pending
  {
    var waiter := c.pending[id];
    var freed := Settle(c, id);
    if waiter.Abandoned? then freed
    else
      var told := freed.(settled := freed.settled + [waiter.handle]);
      match HandshakeOn(c, waiter.handle)
      case Some(g) => Continue(told, g, ok)
      case None => told
  }

  // -- steps ----------------------------------------------------------------

  datatype Event =
    | Connect(pairing: bool)
    | Disconnect
    | Call(timed: bool)
    | DialOpens(gen: nat)
    | DialRejects(gen: nat, mismatch: bool)
    | Answer(gen: nat, id: nat, ok: bool)
    | SendFails(id: nat)
    | RequestTimesOut(id: nat)
    | HandshakeTimesOut(gen: nat)
    | SocketCloses(gen: nat, fatal: bool)
    | SocketErrors(gen: nat)
    | RetryFires

  /** A socket of the current generation still delivers: it is held, or its
      dial has not returned yet. The transport delivers nothing after `close`. */
  predicate Delivers(c: State, g: nat) {
    g != c.gen || c.socket == Some(g) || (g in c.attempts && c.attempts[g].Dialing?)
  }

  /** What the transport and the timers may do. An answer's id, if it is still
      on the books, was sent on the socket the answer arrives on. */
  predicate Enabled(c: State, e: Event) {
    match e
    case DialOpens(g) => g in c.attempts && c.attempts[g].Dialing?
    case DialRejects(g, _) => g in c.attempts && c.attempts[g].Dialing?
    case Answer(g, id, _) => Delivers(c, g) && (id in c.pending ==> c.pending[id].on == g)
    case SendFails(id) => id in c.pending
    case RequestTimesOut(id) => id in c.pending && c.pending[id].Awaiting? && c.pending[id].timed
    case HandshakeTimesOut(g) => g in c.attempts && c.attempts[g].Handshaking?
    case SocketCloses(g, _) => Delivers(c, g)
    case SocketErrors(g) => Delivers(c, g)
    case RetryFires => c.retry
    case _ => true
  }

  function Step(c: State, e: Event): State
    requires Enabled(c, e)
  {
    match e
    case Connect(pairing) =>
      StartAttempt(Teardown(c).(target := Some(Target(pairing)), closedByUs := false, attempt := 0), false)
    case Disconnect => Teardown(c).(closedByUs := true, target := None, status := Disconnected)
    case Call(timed) => if c.socket.Some? then Request(c, c.socket.value, timed) else c
    case DialOpens(g) => DialSucceeds(c, g)
    case DialRejects(g, mismatch) => AttemptFails(c, g, mismatch)
    case Answer(g, id, ok) => if g == c.gen && id in c.pending then Finish(c, id, ok) else c
    case SendFails(id) => Finish(c, id, false)
    case RequestTimesOut(id) =>
      c.(pending := c.pending[id := Abandoned(c.pending[id].on)], settled := c.settled + [c.pending[id].handle])
    case HandshakeTimesOut(g) => AttemptFails(c, g, false)
    case SocketCloses(g, fatal) =>
      if g != c.gen then c
      else
        var down := Teardown(c);
        if c.closedByUs then down else Fail(down, !fatal)
    case SocketErrors(g) => if g == c.gen && c.status == Connected then c.(status := Error) else c
    case RetryFires =>
      if c.target.None? then c.(retry := false) else StartAttempt(c.(retry := false), true)
  }

  predicate Legal(c: State, run: seq<Event>)
    decreases |run|
  {
    run == [] || (Enabled(c, run[0]) && Legal(Step(c, run[0]), run[1..]))
  }

  function Exec(c: State, run: seq<Event>): State
    requires Legal(c, run)
    decreases |run|
  {
    if run == [] then c else Exec(Step(c, run[0]), run[1..])
  }
}
