/** The message budget of a device link over whole runs, and what becomes of
    each of its messages. */
module RelayRates {
  import opened Common
  import opened Limiter
  import opened Relay
  import opened RelayCore
  import opened RelayTalk
  import Base64url
  import Frames
  import Utf8

  // -- read off the run -----------------------------------------------------

  function ArrivedBy(t: Timed, d: nat): seq<int> {
    if t.event.DeviceSends? && t.event.device == d then [t.at] else []
  }

  /** When the run brings messages on the device link `d`. */
  function Arrivals(run: seq<Timed>, d: nat): seq<int> {
    if run == [] then [] else ArrivedBy(run[0], d) + Arrivals(run[1..], d)
  }

  /** The log grew by a data frame about connection `c`. */
  predicate Forwards(before: seq<Entry>, after: seq<Entry>, c: int) {
    exists i :: |before| <= i < |after| && after[i].ToHost? && IsData(after[i].frame) && after[i].frame.connId == c
  }

  function ForwardedBy(s: State, t: Timed, d: nat): seq<int>
    requires Enabled(s, t.at, t.event)
  {
    if d < |s.devices| && Forwards(s.log, Step(s, t.at, t.event).log, s.devices[d].connId) then [t.at] else []
  }

  /** When the run passes messages of the device link `d` on to a host. */
  function Forwarded(s: State, clock: int, run: seq<Timed>, d: nat): seq<int>
    requires Legal(s, clock, run)
    decreases |run|
  {
    if run == [] then []
    else ForwardedBy(s, run[0], d) + Forwarded(Step(s, run[0].at, run[0].event), run[0].at, run[1..], d)
  }

  /** When the run accepts the device link `d`; its end when it does not. */
  function AttachedAt(s: State, clock: int, run: seq<Timed>, d: nat): int
    requires Legal(s, clock, run)
    decreases |run|
  {
    if run == [] then clock
    else
      var s' := Step(s, run[0].at, run[0].event);
      if d < |s'.devices| then run[0].at else AttachedAt(s', run[0].at, run[1..], d)
  }

  /** When the window of the last of `times` began: the first begins at `born`,
      each later one with the first message that finds the one before over. */
  function WindowStart(born: int, windowMs: nat, times: seq<int>): int {
    if times == [] then born
    else
      var last := times[|times| - 1];
      var start := WindowStart(born, windowMs, times[..|times| - 1]);
      if last - start >= windowMs then last else start
  }

  /** More than `limit` arrived in the last message's window. */
  predicate Spent(born: int, limit: nat, windowMs: nat, times: seq<int>) {
    times != [] && CountIn(times, WindowStart(born, windowMs, times), times[|times| - 1] + 1) > limit
  }

  lemma {:induction false} StartIsStart(born: int, windowMs: nat, times: seq<int>)
    ensures After(Window(born, 0), windowMs, times).start == WindowStart(born, windowMs, times)
  {
    if times != [] {
      var init, last := times[..|times| - 1], times[|times| - 1];
      StartIsStart(born, windowMs, init);
      AfterStep(Window(born, 0), windowMs, init, last);
      assert init + [last] == times;
    }
  }

  /** The counter says whether the window is spent. */
  lemma CountSpent(born: int, limit: nat, windowMs: nat, times: seq<int>)
    requires times != [] && windowMs > 0 && Clocked(Window(born, 0), times)
    ensures After(Window(born, 0), windowMs, times).count > limit <==> Spent(born, limit, windowMs, times)
  {
    hide After, WindowStart, CountIn;
    StartIsStart(born, windowMs, times);
    CounterCounts(Window(born, 0), windowMs, times);
  }

  // -- what every step keeps ------------------------------------------------

  /** The rate a live link carries is that of all its messages so far, and what
      was passed on is what that rate admits; a closed link passed on no more. */
  predicate Metered(s: State, clock: int, d: nat, born: int, past: seq<int>, passed: seq<int>) {
    var w := Window(born, 0);
    && born <= clock && Clocked(w, past) && (past != [] ==> past[|past| - 1] <= clock)
    && passed <= Admitted(w, RATE_LIMIT_MESSAGES, RATE_LIMIT_WINDOW_MS, past)
    && (d >= |s.devices| ==> past == [])
    && (Live(s.devices, d) ==>
          && passed == Admitted(w, RATE_LIMIT_MESSAGES, RATE_LIMIT_WINDOW_MS, past)
          && s.devices[d].rate == After(w, RATE_LIMIT_WINDOW_MS, past)
          && s.devices[d].farewell.None?)
  }

  /** The payload a device's message has in its frame. */
  function Bytes(m: Message): nat {
    |Carrier(0, m).payload|
  }

  /** One message on a live link, by its length, its link's rate and the host. */
  lemma MessageAnswered(s: State, now: int, d: nat, m: Message)
    requires Live(s.devices, d)
    ensures var s', rate, host := DeviceMessage(s, now, d, m), Touch(s.devices[d].rate, now, RATE_LIMIT_WINDOW_MS), ReadyHost(s.hosts);
      var link, c := s.devices[d], s.devices[d].connId;
      if Bytes(m) <= MAX_MESSAGE_BYTES && rate.count <= RATE_LIMIT_MESSAGES && host.Some? then
        && s'.devices == s.devices[d := link.(rate := rate)]
        && s'.log == s.log + [Heard(c, m)] + [ToHost(host.value, Carrier(c, m))]
      else
        var code := if Bytes(m) > MAX_MESSAGE_BYTES then CLOSE_TOO_BIG
                    else if rate.count > RATE_LIMIT_MESSAGES then CLOSE_RATE_LIMIT else CLOSE_NO_HOST;
        && |s'.devices| == |s.devices| && s'.devices[d].closed && s'.devices[d].farewell == Bid(link.farewell, Some(code))
        && s'.devices[d].connId == c && (forall i :: 0 <= i < |s.devices| && i != d ==> s'.devices[i] == s.devices[i])
        && exists reason: seq<Byte> :: s'.log == s.log + [Heard(c, m)] + TellHost(s.hosts, CloseFrame(c, code, reason))
  {
    hide Touch, ReadyHost, Utf8.MeasuredSize, Utf8.Encode, CloseFrame;
    DeviceCapExact(m);
  }

  /** Passing on one message is one data frame; ending its link is none. */
  lemma MessageForwards(log: seq<Entry>, c: int, m: Message, h: nat, hosts: seq<HostLink>, code: int, reason: seq<Byte>)
    ensures Forwards(log, log + [Heard(c, m)] + [ToHost(h, Carrier(c, m))], c)
    ensures !Forwards(log, log + [Heard(c, m)] + TellHost(hosts, CloseFrame(c, code, reason)), c)
  {
    hide Utf8.Encode, Frames.ClosePayload, ReadyHost;
    var after := log + [Heard(c, m)] + [ToHost(h, Carrier(c, m))];
    assert after[|log| + 1] == ToHost(h, Carrier(c, m));
  }

  /** No other step touches the link's rate, brings it to life or passes its
      messages on. */
  lemma OthersQuiet(s: State, clock: int, now: int, e: Event, d: nat)
    requires Core(s, clock) && Enabled(s, now, e) && d < |s.devices|
    requires !(e.DeviceSends? && e.device == d)
    ensures var s' := Step(s, now, e);
      && |s.devices| <= |s'.devices|
      && (Live(s'.devices, d) ==> s'.devices[d] == s.devices[d])
      && !Forwards(s.log, s'.log, s.devices[d].connId)
  {
    hide LiveCount, Mirrored, AlarmCovers, NotifyBudgeted, ProofsInTime, OneReady;
    if e.DeviceSends? {
      OtherSends(s, now, e.device, e.sent, d);
    } else if e.HostSends? {
      HostMessageQuiet(s, now, e.host, e.sent, e.field, d);
    } else {
      hide Base64url.HostKey, Base64url.Text, Base64url.Decoded, ReadyHost, NextDeadline, HostFacingCode, Frames.ClosePayload;
    }
  }

  lemma OtherSends(s: State, now: int, i: nat, m: Message, d: nat)
    requires IdsAscend(s.devices, s.nextConnId) && Live(s.devices, i) && d < |s.devices| && i != d
    ensures var s' := DeviceMessage(s, now, i, m);
      |s'.devices| == |s.devices| && s'.devices[d] == s.devices[d] && !Forwards(s.log, s'.log, s.devices[d].connId)
  {
    hide DeviceMessage, ReadyHost, Frames.ClosePayload, Carrier, Touch;
    MessageAnswered(s, now, i, m);
    assert s.devices[i].connId != s.devices[d].connId by {
      assert i < d || d < i;
    }
    CarriesItsId(s.devices[i].connId, m);
  }

  lemma CarriesItsId(c: int, m: Message)
    ensures Carrier(c, m).connId == c && IsData(Carrier(c, m))
  {
  }

  lemma HostMessageQuiet(s: State, now: int, h: nat, m: Message, field: Option<string>, d: nat)
    requires h < |s.hosts| && d < |s.devices|
    ensures var s' := HostMessage(s, now, h, m, field);
      && |s'.devices| == |s.devices| && (Live(s'.devices, d) ==> s'.devices[d] == s.devices[d])
      && forall c :: !Forwards(s.log, s'.log, c)
  {
    hide Size, ReadyHost, Frames.Decode, Frames.DecodeClose, Frames.ClosePayload, ProofAcceptable, Offered, Touch, DeviceOf;
  }

  lemma StepMetered(s: State, clock: int, t: Timed, d: nat, born: int, past: seq<int>, passed: seq<int>)
    requires Core(s, clock) && clock <= t.at && Enabled(s, t.at, t.event) && Metered(s, clock, d, born, past, passed)
    ensures var s' := Step(s, t.at, t.event);
      && |s.devices| <= |s'.devices|
      && Metered(s', t.at, d, if d < |s.devices| || d >= |s'.devices| then born else t.at,
                 past + ArrivedBy(t, d), passed + ForwardedBy(s, t, d))
  {
    hide Core, After, Admitted, Forwards, AttachHost, HostMessage, Verdict, HostClosed, AttachDevice, DeviceMessage, DeviceClosed, Alarm,
      Hibernate;
    if t.event.DeviceSends? && t.event.device == d {
      SendsMetered(s, clock, t.at, d, t.event.sent, born, past, passed);
    } else if d < |s.devices| {
      OthersQuiet(s, clock, t.at, t.event, d);
      assert past + [] == past && passed + [] == passed;
    } else {
      Attaching(s, t.at, t.event, d);
      assert past + [] == past && passed + [] == passed;
      NothingYet(t.at);
      NothingYet(born);
    }
  }

  lemma NothingYet(born: int)
    ensures Admitted(Window(born, 0), RATE_LIMIT_MESSAGES, RATE_LIMIT_WINDOW_MS, []) == []
    ensures After(Window(born, 0), RATE_LIMIT_WINDOW_MS, []) == Window(born, 0)
  {
  }

  /** A link that was not there yet is accepted with a window of its own. */
  lemma Attaching(s: State, now: int, e: Event, d: nat)
    requires Enabled(s, now, e) && |s.devices| <= d
    ensures var s' := Step(s, now, e);
      && |s.devices| <= |s'.devices| && (d < |s'.devices| ==> s'.devices[d].rate == Window(now, 0) && s'.devices[d].farewell.None?)
  {
    hide Base64url.HostKey, Base64url.Text, Base64url.Decoded, Size, Frames.Decode, Frames.DecodeClose, Frames.ClosePayload,
      ReadyHost, DeviceOf, LiveCount, Touch, ProofAcceptable, NextDeadline;
  }

  lemma SendsMetered(s: State, clock: int, now: int, d: nat, m: Message, born: int, past: seq<int>, passed: seq<int>)
    requires Live(s.devices, d) && clock <= now && Metered(s, clock, d, born, past, passed)
    ensures var s' := DeviceMessage(s, now, d, m);
      && |s'.devices| == |s.devices|
      && Metered(s', now, d, born, past + [now],
                 passed + if Forwards(s.log, s'.log, s.devices[d].connId) then [now] else [])
  {
    hide DeviceMessage, After, Admitted, Forwards, ReadyHost, Carrier, CloseFrame, Bytes, Touch;
    var w, c := Window(born, 0), s.devices[d].connId;
    var s' := DeviceMessage(s, now, d, m);
    MessageAnswered(s, now, d, m);
    AfterStep(w, RATE_LIMIT_WINDOW_MS, past, now);
    AdmittedAppend(w, RATE_LIMIT_MESSAGES, RATE_LIMIT_WINDOW_MS, past, now);
    if Live(s'.devices, d) {
      MessageForwards(s.log, c, m, ReadyHost(s.hosts).value, s.hosts, 0, []);
    } else {
      var code: int, reason: seq<Byte> :|
        s'.log == s.log + [Heard(c, m)] + TellHost(s.hosts, CloseFrame(c, code, reason));
      MessageForwards(s.log, c, m, 0, s.hosts, code, reason);
      assert passed + [] == passed;
    }
  }

  // -- over runs ------------------------------------------------------------

  lemma {:induction false} RunMetered(s: State, clock: int, run: seq<Timed>, d: nat, born: int, past: seq<int>, passed: seq<int>)
    requires Core(s, clock) && Legal(s, clock, run) && Metered(s, clock, d, born, past, passed)
    ensures var s' := Exec(s, clock, run);
      && |s.devices| <= |s'.devices|
      && Metered(s', ClockAfter(clock, run), d, if d < |s.devices| then born else if d < |s'.devices| then AttachedAt(s, clock, run, d) else born,
                 past + Arrivals(run, d), passed + Forwarded(s, clock, run, d))
    decreases |run|
  {
    hide Core, Metered, Step, Enabled, ArrivedBy, ForwardedBy;
    if run == [] {
      assert past + [] == past && passed + [] == passed;
    } else {
      var t := run[0];
      var s' := Step(s, t.at, t.event);
      var arrived, sent := ArrivedBy(t, d), ForwardedBy(s, t, d);
      StepMetered(s, clock, t, d, born, past, passed);
      StepKeeps(s, clock, t.at, t.event);
      RunMetered(s', t.at, run[1..], d, if d < |s.devices| || d >= |s'.devices| then born else t.at, past + arrived, passed + sent);
      assert past + arrived + Arrivals(run[1..], d) == past + (arrived + Arrivals(run[1..], d));
      assert passed + sent + Forwarded(s', t.at, run[1..], d) == passed + (sent + Forwarded(s', t.at, run[1..], d));
    }
  }

  lemma {:induction false} CountPrefix(a: seq<int>, b: seq<int>, lo: int, hi: int)
    requires a <= b
    ensures CountIn(a, lo, hi) <= CountIn(b, lo, hi)
  {
    if a != [] { CountPrefix(a[1..], b[1..], lo, hi); }
  }

  lemma InitialMetered(apns: bool, clock: int, run: seq<Timed>, d: nat) returns (born: int)
    requires 0 <= clock && Legal(Initial(apns), clock, run)
    ensures Metered(Exec(Initial(apns), clock, run), ClockAfter(clock, run), d, born, Arrivals(run, d), Forwarded(Initial(apns), clock, run, d))
    ensures d < |Exec(Initial(apns), clock, run).devices| ==> born == AttachedAt(Initial(apns), clock, run, d)
  {
    hide Legal, Exec, Core, AttachedAt, Arrivals, Forwarded, ClockAfter;
    InitialCore(apns, clock);
    RunMetered(Initial(apns), clock, run, d, clock, [], []);
    assert [] + Arrivals(run, d) == Arrivals(run, d);
    assert [] + Forwarded(Initial(apns), clock, run, d) == Forwarded(Initial(apns), clock, run, d);
    born := if d < |Exec(Initial(apns), clock, run).devices| then AttachedAt(Initial(apns), clock, run, d) else clock;
  }

  /** Over every run and for every device link, whatever interval of one window's
      length is chosen, at most twice the limit of its messages was passed on in
      it. */
  lemma DeviceBudget(apns: bool, clock: int, run: seq<Timed>, d: nat, lo: int)
    requires 0 <= clock && Legal(Initial(apns), clock, run)
    ensures CountIn(Forwarded(Initial(apns), clock, run, d), lo, lo + RATE_LIMIT_WINDOW_MS) <= 2 * RATE_LIMIT_MESSAGES
  {
    hide Legal, Exec, Clocked, After, Admitted, CountIn, Forwarded, Arrivals, AttachedAt, ClockAfter;
    var born := InitialMetered(apns, clock, run, d);
    var w, past := Window(born, 0), Arrivals(run, d);
    IntervalBound(w, RATE_LIMIT_MESSAGES, RATE_LIMIT_WINDOW_MS, past, lo);
    CountPrefix(Forwarded(Initial(apns), clock, run, d), Admitted(w, RATE_LIMIT_MESSAGES, RATE_LIMIT_WINDOW_MS, past), lo, lo + RATE_LIMIT_WINDOW_MS);
  }

  /** After every run, a message on a live link: it is passed on and nothing else
      happens, or it closes the link, for its length, for a spent window or for
      want of a host, the first of these that holds; and a window is spent only
      by more than the limit of messages within one window's length. */
  lemma EveryMessage(apns: bool, clock: int, run: seq<Timed>, now: int, d: nat, m: Message)
    requires 0 <= clock && Legal(Initial(apns), clock, run) && ClockAfter(clock, run) <= now
    requires Enabled(Exec(Initial(apns), clock, run), now, DeviceSends(d, m))
    ensures var s := Exec(Initial(apns), clock, run);
      var s', c, host := Step(s, now, DeviceSends(d, m)), s.devices[d].connId, ReadyHost(s.hosts);
      var spent := Spent(AttachedAt(Initial(apns), clock, run, d), RATE_LIMIT_MESSAGES, RATE_LIMIT_WINDOW_MS, Arrivals(run, d) + [now]);
      if Bytes(m) <= MAX_MESSAGE_BYTES && !spent && host.Some? then
        && Live(s'.devices, d)
        && s'.log == s.log + [Heard(c, m)] + [ToHost(host.value, Carrier(c, m))]
      else
        var code := if Bytes(m) > MAX_MESSAGE_BYTES then CLOSE_TOO_BIG else if spent then CLOSE_RATE_LIMIT else CLOSE_NO_HOST;
        && !Live(s'.devices, d) && s'.devices[d].farewell == Some(code)
        && exists reason: seq<Byte> :: s'.log == s.log + [Heard(c, m)] + TellHost(s.hosts, CloseFrame(c, code, reason))
    ensures Spent(AttachedAt(Initial(apns), clock, run, d), RATE_LIMIT_MESSAGES, RATE_LIMIT_WINDOW_MS, Arrivals(run, d) + [now]) ==>
              exists lo :: Crowded(Arrivals(run, d) + [now], lo, now, RATE_LIMIT_MESSAGES) && lo <= now < lo + RATE_LIMIT_WINDOW_MS
  {
    hide Legal, Exec, After, Admitted, Forwarded, Arrivals, AttachedAt, ClockAfter, DeviceMessage, Spent, Touch, Crowded, ReadyHost, CloseFrame,
      Carrier, Bytes;
    var s := Exec(Initial(apns), clock, run);
    var born := InitialMetered(apns, clock, run, d);
    var w, past := Window(born, 0), Arrivals(run, d);
    MessageAnswered(s, now, d, m);
    AfterStep(w, RATE_LIMIT_WINDOW_MS, past, now);
    CountSpent(born, RATE_LIMIT_MESSAGES, RATE_LIMIT_WINDOW_MS, past + [now]);
    if Spent(born, RATE_LIMIT_MESSAGES, RATE_LIMIT_WINDOW_MS, past + [now]) {
      RefusedWhenFull(w, RATE_LIMIT_MESSAGES, RATE_LIMIT_WINDOW_MS, past + [now]);
    }
  }
}
