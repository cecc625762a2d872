/** What the client keeps over every run of calls, timers and callbacks. */
module ClientProofs {
  import opened Common
  import opened Client

  // -- the lifecycle --------------------------------------------------------

  /** A held socket is the current generation's; an armed retry excludes a
      socket and a live attempt; only the current attempt can be past its dial,
      and then it holds the socket; a client told to disconnect has nothing
      left; and the status never claims more than there is. */
  predicate Lifecycle(c: State) {
    && (c.socket.Some? ==> c.socket.value == c.gen)
    && (c.retry ==> c.socket.None? && c.gen !in c.attempts && c.target.Some? && !c.closedByUs)
    && (forall g :: g in c.attempts ==> g <= c.gen && (c.attempts[g].Handshaking? ==> c.socket == Some(g)))
    && (c.closedByUs ==> c.target.None? && c.socket.None? && c.gen !in c.attempts && c.status == Disconnected)
    && (c.status == Connecting || c.status == Pairing ==> c.gen in c.attempts)
    && (c.status == Connected ==> c.socket.Some?)
    && (c.gen in c.attempts && c.attempts[c.gen].Dialing? ==> c.socket.None?)
    && (c.socket.Some? || c.gen in c.attempts ==> c.target.Some?)
  }

  lemma RequestLifecycle(c: State, on: nat, timed: bool)
    ensures var c' := Request(c, on, timed);
      && c'.socket == c.socket && c'.retry == c.retry && c'.gen == c.gen && c'.attempts == c.attempts
      && c'.target == c.target && c'.closedByUs == c.closedByUs && c'.status == c.status
  {
  }

  lemma FinishLifecycle(c: State, id: nat, ok: bool)
    requires Lifecycle(c) && id in c.pending
    ensures Lifecycle(Finish(c, id, ok))
  {
    var waiter := c.pending[id];
    if waiter.Awaiting? {
      var freed := Settle(c, id);
      var told := freed.(settled := freed.settled + [waiter.handle]);
      assert Lifecycle(told);
      match HandshakeOn(c, waiter.handle)
      case None =>
      case Some(g) => ContinueLifecycle(told, g, ok);
    }
  }

  lemma ContinueLifecycle(c: State, g: nat, ok: bool)
    requires Lifecycle(c) && g in c.attempts && c.attempts[g].Handshaking?
    ensures Lifecycle(Continue(c, g, ok))
  {
    hide Request;
    var phase := c.attempts[g];
    if ok && phase.first == Pair {
      var paired := c.(target := Some(Target(false)), status := Connected,
                       attempts := c.attempts[g := phase.(first := Workspace, handle := c.accepted)]);
      assert Lifecycle(paired);
      RequestLifecycle(paired, g, false);
    }
  }

  lemma DialSucceedsLifecycle(c: State, g: nat)
    requires Lifecycle(c) && g in c.attempts && c.attempts[g].Dialing?
    ensures Lifecycle(DialSucceeds(c, g))
  {
    hide Request;
    if g == c.gen {
      var first := if c.target.Some? && c.target.value.pairing then Pair else Hello;
      var phase := Handshaking(first, c.accepted, c.attempts[g].fromRetry);
      var held := c.(socket := Some(g), attempts := c.attempts[g := phase]);
      assert Lifecycle(held);
      RequestLifecycle(held, g, false);
    }
  }

  lemma AttemptFailsLifecycle(c: State, g: nat, mismatch: bool)
    requires Lifecycle(c) && g in c.attempts
    ensures Lifecycle(AttemptFails(c, g, mismatch))
  {
  }

  /** After a teardown only older dials are still out. */
  lemma TeardownLifecycle(c: State)
    requires Lifecycle(c)
    ensures var c' := Teardown(c);
      && c'.gen == c.gen + 1 && c'.socket.None? && !c'.retry && c'.gen !in c'.attempts
      && c'.status == c.status && c'.closedByUs == c.closedByUs && c'.target == c.target
      && (forall g :: g in c'.attempts ==> g <= c.gen && c'.attempts[g].Dialing?)
      && (c.socket.Some? || c.gen in c.attempts ==> c'.target.Some?)
  {
    hide HandlesOf, AwaitedBelow;
  }

  lemma StepLifecycle(c: State, e: Event)
    requires Lifecycle(c) && Enabled(c, e)
    ensures Lifecycle(Step(c, e))
  {
    hide Teardown, Finish, DialSucceeds, Request, AttemptFails;
    match e
    case DialOpens(g) => DialSucceedsLifecycle(c, g);
    case DialRejects(g, mismatch) => AttemptFailsLifecycle(c, g, mismatch);
    case HandshakeTimesOut(g) => AttemptFailsLifecycle(c, g, false);
    case Answer(g, id, ok) => if g == c.gen && id in c.pending { FinishLifecycle(c, id, ok); }
    case SendFails(id) => FinishLifecycle(c, id, false);
    case Call(timed) => if c.socket.Some? { RequestLifecycle(c, c.socket.value, timed); }
    case Connect(_) => TeardownLifecycle(c);
    case Disconnect => TeardownLifecycle(c);
    case SocketCloses(g, _) => TeardownLifecycle(c);
    case _ =>
  }

  // -- the slots ------------------------------------------------------------

  predicate Ascending(xs: seq<nat>) {
    forall i, j :: 0 <= i < j < |xs| ==> xs[i] < xs[j]
  }

  /** Requests go out in the order they were accepted: those sent, then those
      still queued, are in ascending order of acceptance. */
  predicate Fifo(c: State) {
    var line := c.sent + HandlesOf(c.queue);
    Ascending(line) && forall i :: 0 <= i < |line| ==> line[i] < c.accepted
  }

  predicate Slots(c: State) {
    && |c.pending| <= MAX_IN_FLIGHT
    && (c.queue != [] ==> |c.pending| == MAX_IN_FLIGHT)
    && IdsFresh(c)
    && Fifo(c)
  }

  /** How often `r` occurs in `xs`. */
  function Times(xs: seq<nat>, r: nat): nat {
    if xs == [] then 0 else Times(xs[..|xs| - 1], r) + if xs[|xs| - 1] == r then 1 else 0
  }

  /** How many slots below `bound` await the answer to request `r`. */
  function Waiting(pending: map<nat, Waiter>, bound: nat, r: nat): nat {
    if bound == 0 then 0
    else
      var id := bound - 1;
      Waiting(pending, id, r) + if id in pending && pending[id].Awaiting? && pending[id].handle == r then 1 else 0
  }

  /** How often request `r` is on the books: settled, queued or awaiting. */
  function Tally(c: State, r: nat): nat {
    Times(c.settled, r) + Times(HandlesOf(c.queue), r) + Waiting(c.pending, c.nextId, r)
  }

  /** Each accepted request is on the books exactly once, and no other is. */
  ghost predicate Balanced(c: State) {
    forall r: nat :: Tally(c, r) == if r < c.accepted then 1 else 0
  }

  lemma {:induction false} TimesConcat(xs: seq<nat>, ys: seq<nat>, r: nat)
    ensures Times(xs + ys, r) == Times(xs, r) + Times(ys, r)
  {
    if ys == [] {
      assert xs + ys == xs;
    } else {
      var last := |ys| - 1;
      assert (xs + ys)[..|xs| + last] == xs + ys[..last];
      TimesConcat(xs, ys[..last], r);
    }
  }

  lemma {:induction false} WaitingSame(p: map<nat, Waiter>, p': map<nat, Waiter>, bound: nat, r: nat)
    requires forall id :: 0 <= id < bound ==> Alike(p, p', id)
    ensures Waiting(p, bound, r) == Waiting(p', bound, r)
  {
    if bound > 0 {
      assert Alike(p, p', bound - 1);
      WaitingSame(p, p', bound - 1, r);
    }
  }

  predicate Alike(p: map<nat, Waiter>, p': map<nat, Waiter>, k: nat) {
    (k in p <==> k in p') && (k in p ==> p[k] == p'[k])
  }

  /** Slot `id` stops awaiting: its request is waited on once less. */
  lemma {:induction false} WaitingLess(p: map<nat, Waiter>, p': map<nat, Waiter>, id: nat, bound: nat, r: nat)
    requires id < bound && id in p && (id in p' ==> p'[id].Abandoned?)
    requires forall k :: 0 <= k < bound && k != id ==> Alike(p, p', k)
    ensures Waiting(p, bound, r)
            == Waiting(p', bound, r) + (if p[id].Awaiting? && p[id].handle == r then 1 else 0)
  {
    if id == bound - 1 {
      assert forall k :: 0 <= k < bound - 1 ==> Alike(p, p', k);
      WaitingSame(p, p', bound - 1, r);
    } else {
      WaitingLess(p, p', id, bound - 1, r);
      assert Alike(p, p', bound - 1);
    }
  }

  lemma {:induction false} WaitingListed(p: map<nat, Waiter>, bound: nat, r: nat)
    ensures Times(AwaitedBelow(p, bound), r) == Waiting(p, bound, r)
  {
    if bound > 0 {
      var id := bound - 1;
      WaitingListed(p, id, r);
      if id in p && p[id].Awaiting? {
        TimesConcat(AwaitedBelow(p, id), [p[id].handle], r);
      } else {
        assert AwaitedBelow(p, bound) == AwaitedBelow(p, id);
      }
    }
  }

  predicate IdsFresh(c: State) {
    forall id :: id in c.pending ==> id < c.nextId
  }

  lemma SendTally(c: State, q: Queued, r: nat)
    requires IdsFresh(c)
    ensures IdsFresh(Send(c, q)) && |Send(c, q).pending| == |c.pending| + 1
    ensures Tally(Send(c, q), r) == Tally(c, r) + if q.handle == r then 1 else 0
  {
    WaitingSame(c.pending, Send(c, q).pending, c.nextId, r);
  }

  lemma QueueTally(c: State, q: Queued, r: nat)
    ensures Tally(c.(queue := c.queue + [q]), r) == Tally(c, r) + if q.handle == r then 1 else 0
  {
    assert HandlesOf(c.queue + [q]) == HandlesOf(c.queue) + [q.handle];
    TimesConcat(HandlesOf(c.queue), [q.handle], r);
  }

  lemma ShiftTally(c: State, r: nat)
    requires c.queue != []
    ensures Tally(c, r) == Tally(c.(queue := c.queue[1..]), r) + if c.queue[0].handle == r then 1 else 0
  {
    assert HandlesOf(c.queue) == [c.queue[0].handle] + HandlesOf(c.queue[1..]);
    TimesConcat([c.queue[0].handle], HandlesOf(c.queue[1..]), r);
  }

  lemma SettledTally(c: State, handle: nat, r: nat)
    ensures Tally(c.(settled := c.settled + [handle]), r) == Tally(c, r) + if handle == r then 1 else 0
  {
    TimesConcat(c.settled, [handle], r);
  }

  lemma FifoSend(c: State, q: Queued)
    requires c.queue == [] && Fifo(c) && q.handle == c.accepted
    ensures Fifo(Send(c.(accepted := c.accepted + 1), q))
  {
    var line := c.sent + HandlesOf(c.queue);
    assert line == c.sent;
    assert c.sent + [q.handle] + HandlesOf([]) == line + [q.handle];
  }

  lemma FifoQueue(c: State, q: Queued)
    requires Fifo(c) && q.handle == c.accepted
    ensures Fifo(c.(accepted := c.accepted + 1, queue := c.queue + [q]))
  {
    assert c.sent + HandlesOf(c.queue + [q]) == c.sent + HandlesOf(c.queue) + [q.handle];
  }

  lemma FifoShift(c: State)
    requires Fifo(c) && c.queue != []
    ensures Fifo(Send(c.(queue := c.queue[1..]), c.queue[0]))
  {
    assert c.sent + [c.queue[0].handle] + HandlesOf(c.queue[1..]) == c.sent + HandlesOf(c.queue);
  }

  lemma FifoSame(c: State, c': State)
    requires Fifo(c) && c'.sent == c.sent && c'.queue == c.queue && c'.accepted == c.accepted
    ensures Fifo(c')
  {
  }

  lemma RequestKeeps(c: State, on: nat, timed: bool)
    requires Slots(c) && Balanced(c)
    ensures Slots(Request(c, on, timed)) && Balanced(Request(c, on, timed))
  {
    hide Fifo, Tally;
    var q := Queued(c.accepted, on, timed);
    var c' := Request(c, on, timed);
    var more := c.(accepted := c.accepted + 1);
    assert IdsFresh(more);
    if |c.pending| < MAX_IN_FLIGHT {
      FifoSend(c, q);
      SendTally(more, q, 0);
    } else {
      FifoQueue(c, q);
    }
    forall r: nat
      ensures Tally(c', r) == if r < c'.accepted then 1 else 0
    {
      SameTally(c, more, r);
      if |c.pending| < MAX_IN_FLIGHT { SendTally(more, q, r); } else { QueueTally(more, q, r); }
    }
  }

  lemma SameTally(c: State, c': State, r: nat)
    requires c'.pending == c.pending && c'.queue == c.queue && c'.settled == c.settled && c'.nextId == c.nextId
    ensures Tally(c', r) == Tally(c, r)
  {
  }

  lemma SettleSlots(c: State, id: nat)
    requires Slots(c) && id in c.pending
    ensures Slots(Settle(c, id))
  {
    hide Fifo, Tally;
    var c' := c.(pending := c.pending - {id});
    FifoSame(c, c');
    if c.queue != [] {
      assert IdsFresh(c'.(queue := c.queue[1..]));
      SendTally(c'.(queue := c.queue[1..]), c.queue[0], 0);
      FifoShift(c');
    }
  }

  /** Settling takes one request off the books and hands the slot on. */
  lemma SettleTally(c: State, id: nat, r: nat)
    requires IdsFresh(c) && id in c.pending
    ensures Tally(c, r)
            == Tally(Settle(c, id), r) + if c.pending[id].Awaiting? && c.pending[id].handle == r then 1 else 0
  {
    var c' := c.(pending := c.pending - {id});
    WaitingLess(c.pending, c'.pending, id, c.nextId, r);
    if c.queue != [] {
      ShiftTally(c', r);
      assert IdsFresh(c'.(queue := c.queue[1..]));
      SendTally(c'.(queue := c.queue[1..]), c.queue[0], r);
    }
  }

  lemma FinishKeeps(c: State, id: nat, ok: bool)
    requires Slots(c) && Balanced(c) && id in c.pending
    ensures Slots(Finish(c, id, ok)) && Balanced(Finish(c, id, ok))
  {
    hide Settle, Fifo, Tally, Continue;
    var waiter := c.pending[id];
    var freed := Settle(c, id);
    var told := if waiter.Awaiting? then freed.(settled := freed.settled + [waiter.handle]) else freed;
    SettleSlots(c, id);
    SettleFrame(c, id);
    FifoSame(freed, told);
    forall r: nat
      ensures Tally(told, r) == if r < told.accepted then 1 else 0
    {
      SettleTally(c, id, r);
      if waiter.Awaiting? { SettledTally(freed, waiter.handle, r); }
    }
    if waiter.Awaiting? {
      match HandshakeOn(c, waiter.handle)
      case None =>
      case Some(g) => ContinueKeeps(told, g, ok);
    }
  }

  lemma SettleFrame(c: State, id: nat)
    requires id in c.pending
    ensures Settle(c, id).attempts == c.attempts && Settle(c, id).accepted == c.accepted
  {
  }

  /** Moving through the lifecycle does not touch the books. */
  lemma SameBooks(c: State, c': State)
    requires Slots(c) && Balanced(c)
    requires c'.pending == c.pending && c'.queue == c.queue && c'.settled == c.settled && c'.sent == c.sent
    requires c'.accepted == c.accepted && c'.nextId == c.nextId
    ensures Slots(c') && Balanced(c')
  {
    hide Fifo, Tally;
    FifoSame(c, c');
    forall r: nat
      ensures Tally(c', r) == Tally(c, r)
    {
      SameTally(c, c', r);
    }
  }

  lemma ContinueKeeps(c: State, g: nat, ok: bool)
    requires Slots(c) && Balanced(c) && g in c.attempts && c.attempts[g].Handshaking?
    ensures Slots(Continue(c, g, ok)) && Balanced(Continue(c, g, ok))
  {
    hide Slots, Balanced, Request;
    var phase := c.attempts[g];
    if ok && phase.first == Pair {
      var paired := c.(target := Some(Target(false)), status := Connected,
                       attempts := c.attempts[g := phase.(first := Workspace, handle := c.accepted)]);
      SameBooks(c, paired);
      RequestKeeps(paired, g, false);
    } else {
      SameBooks(c, Continue(c, g, ok));
    }
  }

  lemma DialSucceedsKeeps(c: State, g: nat)
    requires Slots(c) && Balanced(c) && g in c.attempts && c.attempts[g].Dialing?
    ensures Slots(DialSucceeds(c, g)) && Balanced(DialSucceeds(c, g))
  {
    hide Slots, Balanced, Request;
    if g == c.gen {
      var first := if c.target.Some? && c.target.value.pairing then Pair else Hello;
      var phase := Handshaking(first, c.accepted, c.attempts[g].fromRetry);
      var held := c.(socket := Some(g), attempts := c.attempts[g := phase]);
      SameBooks(c, held);
      RequestKeeps(held, g, false);
    } else {
      SameBooks(c, DialSucceeds(c, g));
    }
  }

  lemma TeardownKeeps(c: State)
    requires Slots(c) && Balanced(c)
    ensures Slots(Teardown(c)) && Balanced(Teardown(c))
  {
    var c' := Teardown(c);
    assert c'.sent + HandlesOf(c'.queue) == c.sent;
    var line := c.sent + HandlesOf(c.queue);
    assert forall i :: 0 <= i < |c.sent| ==> c.sent[i] == line[i];
    assert Fifo(c');
    forall r: nat
      ensures Tally(c', r) == Tally(c, r)
    {
      NothingWaits(c.nextId, r);
      WaitingListed(c.pending, c.nextId, r);
      TimesConcat(c.settled + HandlesOf(c.queue), AwaitedBelow(c.pending, c.nextId), r);
      TimesConcat(c.settled, HandlesOf(c.queue), r);
    }
  }

  lemma {:induction false} NothingWaits(bound: nat, r: nat)
    ensures Waiting(map[], bound, r) == 0
  {
    if bound > 0 { NothingWaits(bound - 1, r); }
  }

  lemma TimeoutKeeps(c: State, id: nat)
    requires Slots(c) && Balanced(c) && Enabled(c, RequestTimesOut(id))
    ensures Slots(Step(c, RequestTimesOut(id))) && Balanced(Step(c, RequestTimesOut(id)))
  {
    hide Fifo, Tally;
    var handle := c.pending[id].handle;
    var given := c.(pending := c.pending[id := Abandoned(c.pending[id].on)]);
    var c' := Step(c, RequestTimesOut(id));
    assert c' == given.(settled := c.settled + [handle]);
    assert c'.pending.Keys == c.pending.Keys;
    FifoSame(c, c');
    forall r: nat
      ensures Tally(c', r) == Tally(c, r)
    {
      GivenUpTally(c, given, id, r);
      SettledTally(given, handle, r);
    }
  }

  lemma GivenUpTally(c: State, given: State, id: nat, r: nat)
    requires IdsFresh(c) && id in c.pending && c.pending[id].Awaiting?
    requires given == c.(pending := c.pending[id := Abandoned(c.pending[id].on)])
    ensures Tally(c, r) == Tally(given, r) + if c.pending[id].handle == r then 1 else 0
  {
    WaitingLess(c.pending, given.pending, id, c.nextId, r);
  }

  lemma StepBooks(c: State, e: Event)
    requires Slots(c) && Balanced(c) && Enabled(c, e)
    ensures Slots(Step(c, e)) && Balanced(Step(c, e))
  {
    hide Slots, Balanced, Request, Finish, Teardown, DialSucceeds, AttemptFails, Fail;
    match e
    case Call(timed) => if c.socket.Some? { RequestKeeps(c, c.socket.value, timed); }
    case DialOpens(g) => DialSucceedsKeeps(c, g);
    case Answer(g, id, ok) => if g == c.gen && id in c.pending { FinishKeeps(c, id, ok); }
    case SendFails(id) => FinishKeeps(c, id, false);
    case RequestTimesOut(id) => TimeoutKeeps(c, id);
    case Connect(_) =>
      TeardownKeeps(c);
      SameBooks(Teardown(c), Step(c, e));
    case Disconnect =>
      TeardownKeeps(c);
      SameBooks(Teardown(c), Step(c, e));
    case SocketCloses(g, fatal) =>
      if g == c.gen {
        TeardownKeeps(c);
        FailedBooks(Teardown(c), !fatal);
        SameBooks(Teardown(c), Step(c, e));
      }
    case _ =>
      QuietStep(c, e);
      SameBooks(c, Step(c, e));
  }

  lemma FailedBooks(c: State, retryable: bool)
    ensures var c' := Fail(c, retryable);
      && c'.pending == c.pending && c'.queue == c.queue && c'.settled == c.settled && c'.sent == c.sent
      && c'.accepted == c.accepted && c'.nextId == c.nextId && c'.gen == c.gen
  {
  }

  /** The steps that only move the lifecycle. */
  lemma QuietStep(c: State, e: Event)
    requires Enabled(c, e) && (e.DialRejects? || e.HandshakeTimesOut? || e.SocketErrors? || e.RetryFires?)
    ensures var c' := Step(c, e);
      && c'.pending == c.pending && c'.queue == c.queue && c'.settled == c.settled && c'.sent == c.sent
      && c'.accepted == c.accepted && c'.nextId == c.nextId && c.gen <= c'.gen
  {
    hide Fail, HandlesOf, AwaitedBelow;
    var over := c.(attempts := if e.DialRejects? || e.HandshakeTimesOut? then c.attempts - {e.gen} else c.attempts, socket := None);
    FailedBooks(over, true);
    FailedBooks(over, false);
  }

  // -- over every run -------------------------------------------------------

  ghost predicate Good(c: State) {
    Lifecycle(c) && Slots(c) && Balanced(c)
  }

  lemma {:induction false} RunGood(c: State, run: seq<Event>)
    requires Good(c) && Legal(c, run)
    ensures Good(Exec(c, run))
    decreases |run|
  {
    hide Lifecycle, Slots, Balanced, Step, Enabled;
    if run != [] {
      StepLifecycle(c, run[0]);
      StepBooks(c, run[0]);
      RunGood(Step(c, run[0]), run[1..]);
    }
  }

  /** The invariant of every reachable client. */
  lemma EveryRun(run: seq<Event>)
    requires Legal(INITIAL, run)
    ensures Good(Exec(INITIAL, run))
  {
    hide Legal, Exec;
    RunGood(INITIAL, run);
  }

  lemma {:induction false} TimesMeans(xs: seq<nat>, r: nat)
    ensures r in xs <==> Times(xs, r) > 0
  {
    if xs != [] {
      TimesMeans(xs[..|xs| - 1], r);
      assert xs == xs[..|xs| - 1] + [xs[|xs| - 1]];
    }
  }

  /** Every accepted request is exactly one of queued, awaiting its answer and
      settled, and has been settled at most once. */
  lemma ExactlyOne(c: State, r: nat)
    requires Balanced(c) && r < c.accepted
    ensures Times(c.settled, r) <= 1
    ensures (if r in c.settled then 1 else 0) + (if r in HandlesOf(c.queue) then 1 else 0)
            + (if r in AwaitedBelow(c.pending, c.nextId) then 1 else 0) == 1
  {
    assert Tally(c, r) == 1;
    WaitingListed(c.pending, c.nextId, r);
    TimesMeans(c.settled, r);
    TimesMeans(HandlesOf(c.queue), r);
    TimesMeans(AwaitedBelow(c.pending, c.nextId), r);
  }

  lemma FinishSettles(c: State, id: nat, ok: bool)
    requires id in c.pending
    ensures c.settled <= Finish(c, id, ok).settled
  {
    hide HandlesOf, AwaitedBelow;
    var waiter := c.pending[id];
    var freed := Settle(c, id);
    assert freed.settled == c.settled;
    if waiter.Awaiting? {
      var told := freed.(settled := freed.settled + [waiter.handle]);
      match HandshakeOn(c, waiter.handle)
      case None =>
      case Some(g) => assert Continue(told, g, ok).settled == told.settled;
    }
  }

  /** What is on record as settled is never taken back, so a run settles no
      request twice. */
  lemma StepSettles(c: State, e: Event)
    requires Enabled(c, e)
    ensures c.settled <= Step(c, e).settled
  {
    hide Finish, HandlesOf, AwaitedBelow;
    match e
    case Answer(g, id, ok) => if g == c.gen && id in c.pending { FinishSettles(c, id, ok); }
    case SendFails(id) => FinishSettles(c, id, false);
    case DialOpens(g) => assert Step(c, e).settled == c.settled;
    case _ =>
  }

  /** No request goes out while one accepted before it is still queued. */
  lemma SentBeforeQueued(c: State, i: nat, j: nat)
    requires Slots(c) && i < |c.sent| && j < |c.queue|
    ensures c.sent[i] < c.queue[j].handle
  {
    var line := c.sent + HandlesOf(c.queue);
    assert line[i] == c.sent[i] && line[|c.sent| + j] == c.queue[j].handle;
  }

  /** A slot other than the finished one is untouched. */
  lemma FinishLeaves(c: State, id: nat, ok: bool, other: nat)
    requires IdsFresh(c) && id in c.pending && other in c.pending && other != id
    ensures var p := Finish(c, id, ok).pending; other in p && p[other] == c.pending[other]
  {
    hide Continue, HandlesOf;
    var freed := Settle(c, id);
    assert other in freed.pending && freed.pending[other] == c.pending[other] && other < freed.nextId;
    var waiter := c.pending[id];
    if waiter.Awaiting? {
      var told := freed.(settled := freed.settled + [waiter.handle]);
      match HandshakeOn(c, waiter.handle)
      case None =>
      case Some(g) => ContinueLeaves(told, g, ok, other);
    }
  }

  lemma ContinueLeaves(c: State, g: nat, ok: bool, other: nat)
    requires g in c.attempts && c.attempts[g].Handshaking? && other in c.pending && other < c.nextId
    ensures var p := Continue(c, g, ok).pending; other in p && p[other] == c.pending[other]
  {
  }

  /** A timed-out request holds its slot until its answer comes, its send fails,
      or everything is torn down. */
  lemma AbandonedHolds(c: State, e: Event, id: nat)
    requires Good(c) && Enabled(c, e) && id in c.pending && c.pending[id].Abandoned?
    requires !(e.Answer? && e.id == id && e.gen == c.gen) && !(e.SendFails? && e.id == id)
    requires !e.Connect? && !e.Disconnect? && !(e.SocketCloses? && e.gen == c.gen)
    ensures id in Step(c, e).pending && Step(c, e).pending[id] == c.pending[id]
  {
    hide Finish, Lifecycle, Balanced, Fifo;
    assert id < c.nextId;
    match e
    case Answer(g, k, ok) => if g == c.gen && k in c.pending { FinishLeaves(c, k, ok, id); }
    case SendFails(k) => FinishLeaves(c, k, false, id);
    case _ =>
  }

  /** Callbacks of an older generation change nothing; an older dial that
      returns only stops being waited for. */
  lemma StaleIgnored(c: State, e: Event)
    requires Enabled(c, e)
    ensures e.Answer? && e.gen < c.gen ==> Step(c, e) == c
    ensures e.SocketCloses? && e.gen < c.gen ==> Step(c, e) == c
    ensures e.SocketErrors? && e.gen < c.gen ==> Step(c, e) == c
    ensures (e.DialOpens? || e.DialRejects?) && e.gen < c.gen ==>
              Step(c, e) == c.(attempts := c.attempts - {e.gen})
  {
  }

  /** After a disconnect, until the next connect, whatever fires. */
  lemma {:induction false} StaysDisconnected(c: State, run: seq<Event>)
    requires Good(c) && c.closedByUs && Legal(c, run)
    requires forall i :: 0 <= i < |run| ==> !run[i].Connect?
    ensures var c' := Exec(c, run);
      c'.closedByUs && c'.status == Disconnected && !c'.retry && c'.socket.None? && c'.target.None?
    decreases |run|
  {
    if run != [] {
      StepLifecycle(c, run[0]);
      StepBooks(c, run[0]);
      StaysDisconnected(Step(c, run[0]), run[1..]);
    }
  }

  lemma DisconnectCloses(c: State)
    requires Good(c)
    ensures Good(Step(c, Disconnect)) && Step(c, Disconnect).closedByUs
  {
    StepLifecycle(c, Disconnect);
    StepBooks(c, Disconnect);
  }

  // -- a slot that is never given back --------------------------------------

  /** Whether a fresh socket's first frame goes out at once: exactly when an
      earlier handshake did not leave every slot taken. */
  lemma FirstFrameGoesOut(c: State, g: nat)
    requires Good(c) && Enabled(c, DialOpens(g)) && g == c.gen
    ensures Step(c, DialOpens(g)).sent == c.sent + [c.accepted] <==> |c.pending| < MAX_IN_FLIGHT
  {
    var c' := Step(c, DialOpens(g));
    assert |c'.sent| == |c.sent| <==> |c.pending| >= MAX_IN_FLIGHT;
  }

  /** A client waiting to retry a paired Mac, with `n` slots taken and nothing
      queued. */
  ghost predicate RetryingWith(c: State, n: nat) {
    && Good(c) && c.retry && c.target == Some(Target(false)) && c.queue == [] && |c.pending| == n && |c.sent| == n
    && forall id :: id in c.pending ==> c.pending[id].on <= c.gen
  }

  lemma StepGood(c: State, e: Event)
    requires Good(c) && Enabled(c, e)
    ensures Good(Step(c, e))
  {
    StepLifecycle(c, e);
    StepBooks(c, e);
  }

  lemma GoodParts(c: State)
    requires Good(c)
    ensures IdsFresh(c) && |c.pending| <= MAX_IN_FLIGHT && (c.retry ==> !c.closedByUs && c.gen !in c.attempts)
  {
    hide Balanced, Fifo;
  }

  /** The retry fires and its dial opens: the hello takes a slot, or waits. */
  lemma RetryOpens(c: State, n: nat) returns (c2: State)
    requires RetryingWith(c, n)
    ensures Enabled(c, RetryFires) && Enabled(Step(c, RetryFires), DialOpens(c.gen + 1))
    ensures c2 == Step(Step(c, RetryFires), DialOpens(c.gen + 1)) && Good(c2)
    ensures c2.socket == Some(c.gen + 1) && c2.gen == c.gen + 1 && c2.target == c.target && !c2.closedByUs
    ensures c2.gen in c2.attempts && c2.attempts[c2.gen].Handshaking?
    ensures n < MAX_IN_FLIGHT ==> |c2.pending| == n + 1 && |c2.sent| == n + 1 && c2.queue == []
    ensures n >= MAX_IN_FLIGHT ==> |c2.pending| == n && |c2.sent| == n && |c2.queue| == 1 && c2.queue[0].on == c2.gen
    ensures forall id :: id in c2.pending ==> c2.pending[id].on <= c2.gen && (n >= MAX_IN_FLIGHT ==> c2.pending[id].on < c2.gen)
  {
    hide Good, Slots, Balanced, Fifo, HandlesOf, AwaitedBelow;
    var g := c.gen + 1;
    var c1 := Step(c, RetryFires);
    GoodParts(c);
    StepGood(c, RetryFires);
    GoodParts(c1);
    c2 := Step(c1, DialOpens(g));
    StepGood(c1, DialOpens(g));
  }

  /** One round of a Mac that accepts the socket and never answers. */
  lemma SilentRound(c: State, n: nat) returns (round: seq<Event>)
    requires RetryingWith(c, n) && n < MAX_IN_FLIGHT
    ensures Legal(c, round) && RetryingWith(Exec(c, round), n + 1)
  {
    hide Balanced, Slots, Lifecycle;
    var g := c.gen + 1;
    var c2 := RetryOpens(c, n);
    var c1 := Step(c, RetryFires);
    var c3 := Step(c2, HandshakeTimesOut(g));
    StepGood(c2, HandshakeTimesOut(g));
    round := [RetryFires, DialOpens(g), HandshakeTimesOut(g)];
    Three(c, RetryFires, DialOpens(g), HandshakeTimesOut(g));
  }

  lemma Three(c: State, e1: Event, e2: Event, e3: Event)
    requires Enabled(c, e1) && Enabled(Step(c, e1), e2) && Enabled(Step(Step(c, e1), e2), e3)
    ensures Legal(c, [e1, e2, e3]) && Exec(c, [e1, e2, e3]) == Step(Step(Step(c, e1), e2), e3)
  {
    hide Enabled, Step;
    Two(Step(c, e1), e2, e3);
    assert [e1, e2, e3][1..] == [e2, e3];
  }

  lemma Two(c: State, e1: Event, e2: Event)
    requires Enabled(c, e1) && Enabled(Step(c, e1), e2)
    ensures Legal(c, [e1, e2]) && Exec(c, [e1, e2]) == Step(Step(c, e1), e2)
  {
    hide Enabled, Step;
    var c' := Step(c, e1);
    assert [e1, e2][1..] == [e2];
    One(c', e2);
  }

  lemma One(c: State, e: Event)
    requires Enabled(c, e)
    ensures Legal(c, [e]) && Exec(c, [e]) == Step(c, e)
  {
    hide Enabled, Step;
    assert [e][1..] == [];
    assert Legal(Step(c, e), []);
  }

  lemma {:induction false} Chain(c: State, first: seq<Event>, rest: seq<Event>)
    requires Legal(c, first) && Legal(Exec(c, first), rest)
    ensures Legal(c, first + rest) && Exec(c, first + rest) == Exec(Exec(c, first), rest)
    decreases |first|
  {
    hide Step, Enabled;
    if first == [] {
      assert first + rest == rest;
    } else {
      Chain(Step(c, first[0]), first[1..], rest);
      assert (first + rest)[1..] == first[1..] + rest;
    }
  }

  lemma {:induction false} SilentRounds(c: State, n: nat) returns (run: seq<Event>)
    requires RetryingWith(c, n) && n <= MAX_IN_FLIGHT
    ensures Legal(c, run) && RetryingWith(Exec(c, run), MAX_IN_FLIGHT)
    decreases MAX_IN_FLIGHT - n
  {
    hide RetryingWith, Step, Enabled;
    if n == MAX_IN_FLIGHT {
      run := [];
    } else {
      var round := SilentRound(c, n);
      var rest := SilentRounds(Exec(c, round), n + 1);
      Chain(c, round, rest);
      run := round + rest;
    }
  }

  /** Eight unanswered handshakes in a row leave no slot free: the ninth
      attempt opens its socket, and its hello is queued behind them. */
  lemma UnansweredHandshakesStarve() returns (run: seq<Event>)
    ensures Legal(INITIAL, run)
    ensures var c := Exec(INITIAL, run);
      && c.socket == Some(c.gen) && |c.sent| == 8 && |c.queue| == 1 && c.queue[0].on == c.gen
      && Good(c) && Stuck(c) && c.queue[0].handle !in c.sent
  {
    hide Step, Enabled, Legal, Exec, RetryingWith, Good;
    var start := FirstFailure();
    var c0 := Exec(INITIAL, start);
    var rounds := SilentRounds(c0, 0);
    Chain(INITIAL, start, rounds);
    var c := Exec(c0, rounds);
    var c2 := RetryOpens(c, MAX_IN_FLIGHT);
    Two(c, RetryFires, DialOpens(c.gen + 1));
    Chain(INITIAL, start + rounds, [RetryFires, DialOpens(c.gen + 1)]);
    QueuedUnsent(c2);
    run := start + rounds + [RetryFires, DialOpens(c.gen + 1)];
  }

  lemma QueuedUnsent(c: State)
    requires Good(c) && c.queue != []
    ensures c.queue[0].handle !in c.sent
  {
    hide Lifecycle, Balanced;
    if c.queue[0].handle in c.sent {
      var i :| 0 <= i < |c.sent| && c.sent[i] == c.queue[0].handle;
      SentBeforeQueued(c, i, 0);
    }
  }

  /** Every slot is taken by a request of an earlier socket. */
  predicate Stuck(c: State) {
    |c.pending| == MAX_IN_FLIGHT && forall id :: id in c.pending ==> c.pending[id].on < c.gen
  }

  /** Request `r` has not been sent, and is off the queue or stuck in it. */
  predicate Unsendable(c: State, r: nat) {
    r < c.accepted && r !in c.sent && (r in HandlesOf(c.queue) ==> Stuck(c))
  }

  /** A request takes the next handle, and waits when no slot is free. */
  lemma RequestUnsendable(c: State, on: nat, timed: bool, r: nat)
    requires Unsendable(c, r)
    ensures Unsendable(Request(c, on, timed), r)
  {
    var c' := Request(c, on, timed);
    assert HandlesOf(c'.queue) == HandlesOf(c.queue) || HandlesOf(c'.queue) == HandlesOf(c.queue) + [c.accepted];
  }

  lemma FinishUnsendable(c: State, id: nat, ok: bool, r: nat)
    requires Unsendable(c, r) && id in c.pending && r !in HandlesOf(c.queue)
    ensures Unsendable(Finish(c, id, ok), r)
  {
    var freed := Settle(c, id);
    assert c.queue != [] ==> HandlesOf(c.queue)[0] == c.queue[0].handle && HandlesOf(freed.queue) == HandlesOf(c.queue)[1..];
    assert r !in HandlesOf(freed.queue) && r !in freed.sent;
    var waiter := c.pending[id];
    if waiter.Awaiting? {
      var told := freed.(settled := freed.settled + [waiter.handle]);
      match HandshakeOn(c, waiter.handle)
      case None =>
      case Some(g) => ContinueUnsendable(told, g, ok, r);
    }
  }

  lemma ContinueUnsendable(c: State, g: nat, ok: bool, r: nat)
    requires g in c.attempts && c.attempts[g].Handshaking? && Unsendable(c, r) && r !in HandlesOf(c.queue)
    ensures Unsendable(Continue(c, g, ok), r)
  {
    hide HandlesOf;
    var phase := c.attempts[g];
    if ok && phase.first.Pair? {
      var paired := c.(target := Some(Target(false)), status := Connected,
                       attempts := c.attempts[g := phase.(first := Workspace, handle := c.accepted)]);
      RequestUnsendable(paired, g, false, r);
    }
  }

  lemma StepUnsendable(c: State, e: Event, r: nat)
    requires Enabled(c, e) && !e.SendFails? && Unsendable(c, r)
    ensures Unsendable(Step(c, e), r)
  {
    hide HandlesOf, AwaitedBelow, Request, Finish, AttemptFails, Fail;
    match e
    case Connect(_) => NoHandles();
    case Disconnect => NoHandles();
    case SocketCloses(_, fatal) =>
      NoHandles();
      FailedBooks(Teardown(c), !fatal);
    case Call(timed) => if c.socket.Some? { RequestUnsendable(c, c.socket.value, timed, r); }
    case DialOpens(g) =>
      if g == c.gen {
        var first := if c.target.Some? && c.target.value.pairing then Pair else Hello;
        var phase := Handshaking(first, c.accepted, c.attempts[g].fromRetry);
        RequestUnsendable(c.(socket := Some(g), attempts := c.attempts[g := phase]), g, false, r);
      }
    case Answer(g, id, ok) => if g == c.gen && id in c.pending { FinishUnsendable(c, id, ok, r); }
    case RequestTimesOut(_) =>
    case _ => QuietStep(c, e);
  }

  lemma NoHandles()
    ensures HandlesOf([]) == []
  {
  }

  lemma {:induction false} RunUnsendable(c: State, run: seq<Event>, r: nat)
    requires Unsendable(c, r) && Legal(c, run)
    requires forall i :: 0 <= i < |run| ==> !run[i].SendFails?
    ensures Unsendable(Exec(c, run), r)
    decreases |run|
  {
    hide Unsendable, Step, Enabled;
    if run != [] {
      StepUnsendable(c, run[0], r);
      RunUnsendable(Step(c, run[0]), run[1..], r);
    }
  }

  /** Behind eight slots of earlier sockets a queued request is never sent, in no
      run of calls, answers, timeouts, closes, retries, connects and disconnects:
      only a send that fails after the fact frees one of the slots. */
  lemma NeverSent(c: State, run: seq<Event>, i: nat)
    requires Good(c) && Stuck(c) && i < |c.queue| && Legal(c, run)
    requires forall x :: 0 <= x < |run| ==> !run[x].SendFails?
    ensures c.queue[i].handle !in Exec(c, run).sent
  {
    hide Lifecycle, Balanced, Legal, Exec;
    var r := c.queue[i].handle;
    var line := c.sent + HandlesOf(c.queue);
    assert line[|c.sent| + i] == r;
    forall x | 0 <= x < |c.sent| ensures c.sent[x] != r {
      SentBeforeQueued(c, x, i);
    }
    RunUnsendable(c, run, r);
  }

  /** And such a failing send does: the request at the head of the queue goes out. */
  lemma FailedSendFrees(c: State, id: nat)
    requires Good(c) && id in c.pending && c.queue != []
    ensures c.queue[0].handle in Step(c, SendFails(id)).sent
  {
    hide HandlesOf, AwaitedBelow, Good;
    var freed := Settle(c, id);
    assert freed.sent == c.sent + [c.queue[0].handle];
  }

  lemma FirstFailure() returns (start: seq<Event>)
    ensures Legal(INITIAL, start) && RetryingWith(Exec(INITIAL, start), 0)
  {
    var c0 := INITIAL;
    var g := 2;
    start := [Connect(false), DialRejects(g, false)];
    var c1 := Step(c0, Connect(false));
    assert c1.gen == g && g in c1.attempts;
    StepGood(c0, Connect(false));
    StepGood(c1, DialRejects(g, false));
    Two(c0, Connect(false), DialRejects(g, false));
  }
}
