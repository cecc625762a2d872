/** What the host hears of each virtual connection, and the one interleaving
    under which that breaks down. */
module RelayTalk {
  import opened Common
  import opened Limiter
  import opened Relay
  import opened RelayCore
  import Base64url
  import Frames

  // -- reading one connection's traffic off the log -------------------------

  /** A frame as it went out: on which host link. */
  datatype Passed = Passed(link: nat, frame: Frames.Frame)

  function SentOf(e: Entry, c: int): seq<Passed> {
    if e.ToHost? && e.frame.connId == c then [Passed(e.link, e.frame)] else []
  }

  /** Every frame the host links were sent about connection `c`, in order. */
  function Sent(log: seq<Entry>, c: int): seq<Passed> {
    if log == [] then [] else Sent(log[..|log| - 1], c) + SentOf(log[|log| - 1], c)
  }

  function HeardOf(e: Entry, c: int): seq<Frames.Frame> {
    if e.Heard? && e.connId == c then [Carrier(c, e.message)] else []
  }

  /** Every message the device on `c` delivered, as the frame that carries it. */
  function HeardFrom(log: seq<Entry>, c: int): seq<Frames.Frame> {
    if log == [] then [] else HeardFrom(log[..|log| - 1], c) + HeardOf(log[|log| - 1], c)
  }

  lemma Append(log: seq<Entry>, e: Entry, c: int)
    ensures Sent(log + [e], c) == Sent(log, c) + SentOf(e, c)
    ensures HeardFrom(log + [e], c) == HeardFrom(log, c) + HeardOf(e, c)
    ensures SentOf(e, c) == [] ==> Sent(log + [e], c) == Sent(log, c)
    ensures HeardOf(e, c) == [] ==> HeardFrom(log + [e], c) == HeardFrom(log, c)
  {
    assert (log + [e])[..|log|] == log;
  }

  // -- the protocol of one connection ---------------------------------------

  predicate IsData(f: Frames.Frame) {
    f.kind == Frames.DATA || f.kind == Frames.TEXT
  }

  /** OPEN, then data, with no CLOSE yet, all of it on host link `h`. */
  predicate Open(x: seq<Passed>, h: nat) {
    && x != [] && x[0].frame.kind == Frames.OPEN
    && (forall i :: 0 <= i < |x| ==> x[i].link == h)
    && (forall i :: 1 <= i < |x| ==> IsData(x[i].frame))
  }

  /** Nothing yet; or OPEN, data and at most one CLOSE at the end, all on a
      single host link. */
  predicate Conversation(x: seq<Passed>) {
    x == [] ||
    (var last := |x| - 1;
     Open(x, x[0].link)
     || (x[last].frame.kind == Frames.CLOSE && x[last].link == x[0].link && Open(x[..last], x[0].link)))
  }

  /** The data frames among those passed. */
  function Carried(x: seq<Passed>): seq<Frames.Frame> {
    if x == [] then []
    else Carried(x[..|x| - 1]) + (if IsData(x[|x| - 1].frame) then [x[|x| - 1].frame] else [])
  }

  lemma CarriedAppend(x: seq<Passed>, p: Passed)
    ensures Carried(x + [p]) == Carried(x) + (if IsData(p.frame) then [p.frame] else [])
  {
    assert (x + [p])[..|x|] == x;
  }

  /** What connection `c` has come to: a conversation that carried the device's
      own messages, in its own order and from the first on; open on the link
      that is the host now, with nothing missing, while its device lives. */
  ghost predicate Thread(s: State, c: int) {
    var sent, heard := Sent(s.log, c), HeardFrom(s.log, c);
    && Conversation(sent)
    && Carried(sent) <= heard
    && (c < 1 || c >= s.nextConnId ==> sent == [] && heard == [])
    && (forall d :: Live(s.devices, d) && s.devices[d].connId == c ==>
                      ReadyHost(s.hosts).Some? && Open(sent, ReadyHost(s.hosts).value) && Carried(sent) == heard)
  }

  ghost predicate Threads(s: State) {
    forall c: int :: Thread(s, c)
  }

  /** Every live device was opened on the host link that is ready now. */
  ghost predicate DevicesOnReadyHost(s: State) {
    forall d :: Live(s.devices, d) ==>
                  ReadyHost(s.hosts).Some?
                  && Open(Sent(s.log, s.devices[d].connId), ReadyHost(s.hosts).value)
  }

  /** A failing verdict lands on a link that another proof has made the host
      meanwhile, while devices are attached to it. */
  ghost predicate Orphans(s: State, e: Event)
    requires e.Judged? ==> e.proof < |s.verifying| && s.verifying[e.proof].link < |s.hosts|
  {
    && e.Judged?
    && s.hosts[s.verifying[e.proof].link].expected != Some(s.verifying[e.proof].offered)
    && s.hosts[s.verifying[e.proof].link].stage == Ready
    && exists d :: Live(s.devices, d)
  }

  // -- each step ------------------------------------------------------------

  /** Nothing was said about `c`, and its device, if it still lives, has the
      host it had. */
  lemma ThreadKept(s: State, s': State, c: int)
    requires Thread(s, c) && s'.nextConnId >= s.nextConnId
    requires Sent(s'.log, c) == Sent(s.log, c) && HeardFrom(s'.log, c) == HeardFrom(s.log, c)
    requires forall d :: Live(s'.devices, d) && s'.devices[d].connId == c ==>
                           Live(s.devices, d) && s.devices[d].connId == c && ReadyHost(s'.hosts) == ReadyHost(s.hosts)
    ensures Thread(s', c)
  {
    hide Sent, HeardFrom, Conversation, Open, Carried, ReadyHost;
  }

  /** A step that says nothing to the host and hears nothing from a device. */
  ghost predicate Silent(s: State, s': State) {
    && OnlyCloses(s.devices, s'.devices)
    && s'.nextConnId == s.nextConnId
    && ((forall d :: !Live(s'.devices, d)) || ReadyHost(s'.hosts) == ReadyHost(s.hosts))
    && (s'.log == s.log || (exists e: Entry :: s'.log == s.log + [e] && !e.ToHost? && !e.Heard?))
  }

  lemma SilentKeeps(s: State, s': State)
    requires Threads(s) && Silent(s, s')
    ensures Threads(s')
  {
    forall c: int
      ensures Thread(s', c)
    {
      assert Thread(s, c);
      if s'.log != s.log {
        var e: Entry :| s'.log == s.log + [e] && !e.ToHost? && !e.Heard?;
        Append(s.log, e, c);
      }
      ThreadKept(s, s', c);
    }
  }

  lemma RetireSilent(s: State, h: nat, seen: Stage, code: Option<int>)
    requires OneReady(s.hosts) && h < |s.hosts|
    requires s.hosts[h].stage == Ready ==> seen == Ready || forall d :: !Live(s.devices, d)
    ensures Silent(s, Retire(s, h, seen, code))
  {
    var s' := Retire(s, h, seen, code);
    if s.hosts[h].stage != Ready {
      SameReady(s.hosts, s'.hosts);
    }
  }

  lemma PromoteSilent(s: State, h: nat)
    requires OneReady(s.hosts) && h < |s.hosts|
    requires ReadyHost(s.hosts).None? ==> forall d :: !Live(s.devices, d)
    ensures Silent(s, Promote(s, h))
  {
    var s' := Promote(s, h);
    assert s'.log == s.log + [Welcomed(h)];
    if !OtherReady(s.hosts, h) && ReadyHost(s.hosts).Some? {
      SameReady(s.hosts, s'.hosts);
    }
  }

  lemma CloseEnds(x: seq<Passed>, h: nat, frame: Frames.Frame)
    requires Open(x, h) && frame.kind == Frames.CLOSE
    ensures Conversation(x + [Passed(h, frame)]) && Carried(x + [Passed(h, frame)]) == Carried(x)
  {
    assert (x + [Passed(h, frame)])[..|x|] == x;
    CarriedAppend(x, Passed(h, frame));
  }

  lemma DataExtends(x: seq<Passed>, h: nat, frame: Frames.Frame)
    requires Open(x, h) && IsData(frame)
    ensures Open(x + [Passed(h, frame)], h) && Conversation(x + [Passed(h, frame)])
    ensures Carried(x + [Passed(h, frame)]) == Carried(x) + [frame]
  {
    CarriedAppend(x, Passed(h, frame));
  }

  /** A closed link was its id's only one. */
  lemma OwnGone(before: seq<DeviceLink>, after: seq<DeviceLink>, d: nat, next: int)
    requires IdsAscend(before, next) && OnlyCloses(before, after) && d < |after| && after[d].closed
    ensures forall i :: Live(after, i) ==> after[i].connId != before[d].connId
  {
    forall i | Live(after, i)
      ensures after[i].connId != before[d].connId
    {
      assert i != d && after[i].connId == before[i].connId;
      assert i < d || d < i;
    }
  }

  /** A connection whose device is gone, having said its last word. */
  lemma ThreadOver(s: State, c: int)
    requires Conversation(Sent(s.log, c)) && Carried(Sent(s.log, c)) <= HeardFrom(s.log, c)
    requires 1 <= c < s.nextConnId && forall i :: Live(s.devices, i) ==> s.devices[i].connId != c
    ensures Thread(s, c)
  {
  }

  /** The last word about `c`: its device just died, and the host is told. */
  lemma Closing(s: State, d: nat, farewell: Option<int>, code: int, reason: seq<Byte>, clock: int)
    requires Core(s, clock) && Threads(s) && d < |s.devices|
    ensures Threads(EndDevice(s, d, farewell, code, reason))
  {
    hide Base64url.HostKey, Frames.ClosePayload;
    var s' := EndDevice(s, d, farewell, code, reason);
    if Live(s.devices, d) {
      var own := s.devices[d].connId;
      assert Thread(s, own);
      var h := ReadyHost(s.hosts).value;
      var e := ToHost(h, CloseFrame(own, code, reason));
      assert s'.log == s.log + [e];
      CloseEnds(Sent(s.log, own), h, e.frame);
      OwnGone(s.devices, s'.devices, d, s.nextConnId);
      forall c: int
        ensures Thread(s', c)
      {
        hide Open, Conversation, Carried, Sent, HeardFrom;
        assert Thread(s, c);
        Append(s.log, e, c);
        if c != own {
          ThreadKept(s, s', c);
        } else {
          ThreadOver(s', c);
        }
      }
    }
  }

  /** A connection that has heard nothing and said only OPEN, on the host. */
  lemma ThreadStarts(s: State, c: int, first: Passed)
    requires Sent(s.log, c) == [first] && HeardFrom(s.log, c) == [] && 1 <= c < s.nextConnId
    requires first.frame.kind == Frames.OPEN && ReadyHost(s.hosts) == Some(first.link)
    ensures Thread(s, c)
  {
    CarriedAppend([], first);
    assert [] + [first] == [first];
  }

  /** The first word about a new connection. */
  lemma Opening(s: State, now: int, clock: int)
    requires Core(s, clock) && Threads(s)
    ensures Threads(AttachDevice(s, now))
  {
    hide NotifyBudgeted, LiveCount, Sent, HeardFrom, Open, Conversation, Carried;
    var s' := AttachDevice(s, now);
    if Admission(s).Accepted? {
      var own, h := s.nextConnId, ReadyHost(s.hosts).value;
      var e := ToHost(h, Frames.Frame(Frames.OPEN, own, []));
      assert s'.log == s.log + [e];
      forall c: int
        ensures Thread(s', c)
      {
        assert Thread(s, c);
        Append(s.log, e, c);
        if c != own {
          ThreadKept(s, s', c);
        } else {
          assert Sent(s'.log, c) == [Passed(h, e.frame)];
          ThreadStarts(s', c, Passed(h, e.frame));
        }
      }
    }
  }

  /** A message let through: one more data frame on the connection's own link. */
  lemma Forwarding(s: State, s': State, d: nat, m: Message)
    requires Threads(s) && Live(s.devices, d) && OnlyCloses(s.devices, s'.devices)
    requires s'.nextConnId == s.nextConnId && s'.hosts == s.hosts && ReadyHost(s.hosts).Some?
    requires var c := s.devices[d].connId;
      s'.log == s.log + [Heard(c, m)] + [ToHost(ReadyHost(s.hosts).value, Carrier(c, m))]
    ensures Threads(s')
  {
    hide Utf8.Encode;
    var own, h := s.devices[d].connId, ReadyHost(s.hosts).value;
    var e := ToHost(h, Carrier(own, m));
    assert Thread(s, own);
    DataExtends(Sent(s.log, own), h, e.frame);
    forall c: int
      ensures Thread(s', c)
    {
      hide Open, Conversation, Carried, Sent, HeardFrom, Carrier;
      assert Thread(s, c);
      Append(s.log, Heard(own, m), c);
      Append(s.log + [Heard(own, m)], e, c);
      if c != own {
        ThreadKept(s, s', c);
      }
    }
  }

  /** A message refused: it was heard, and closed the link instead. */
  lemma Refusing(s: State, touched: State, d: nat, m: Message, farewell: Option<int>, code: int, reason: seq<Byte>)
    requires Threads(s) && OneReady(s.hosts) && Live(s.devices, d) && OnlyCloses(s.devices, touched.devices)
    requires IdsAscend(s.devices, s.nextConnId) && Live(touched.devices, d)
    requires touched.nextConnId == s.nextConnId && touched.hosts == s.hosts
    requires touched.log == s.log + [Heard(s.devices[d].connId, m)]
    ensures Threads(EndDevice(touched, d, farewell, code, reason))
  {
    hide Frames.ClosePayload, Utf8.Encode;
    var s' := EndDevice(touched, d, farewell, code, reason);
    var own := s.devices[d].connId;
    assert Thread(s, own);
    var h := ReadyHost(s.hosts).value;
    var e := ToHost(h, CloseFrame(own, code, reason));
    assert s'.log == touched.log + [e];
    CloseEnds(Sent(s.log, own), h, e.frame);
    OwnGone(s.devices, s'.devices, d, s.nextConnId);
    forall c: int
      ensures Thread(s', c)
    {
      hide Open, Conversation, Carried, Sent, HeardFrom, Carrier, IdsAscend;
      assert Thread(s, c);
      Append(s.log, Heard(own, m), c);
      Append(touched.log, e, c);
      if c != own {
        ThreadKept(s, s', c);
      } else {
        ThreadOver(s', c);
      }
    }
  }

  lemma DeviceSpeaks(s: State, now: int, clock: int, d: nat, m: Message)
    requires Core(s, clock) && Threads(s) && Live(s.devices, d)
    ensures Threads(DeviceMessage(s, now, d, m))
  {
    hide Size, Utf8.Encode, Threads, Core;
    var heard := s.(log := s.log + [Heard(s.devices[d].connId, m)]);
    var touched := heard.(devices := s.devices[d := s.devices[d].(rate := Touch(s.devices[d].rate, now, RATE_LIMIT_WINDOW_MS))]);
    var s' := DeviceMessage(s, now, d, m);
    CoreParts(s, clock);
    HostOfLive(s, d);
    if Size(m) > MAX_MESSAGE_BYTES {
      Refusing(s, heard, d, m, Some(CLOSE_TOO_BIG), CLOSE_TOO_BIG, Ascii("message too large"));
    } else if touched.devices[d].rate.count > RATE_LIMIT_MESSAGES {
      Refusing(s, touched, d, m, Some(CLOSE_RATE_LIMIT), CLOSE_RATE_LIMIT, Ascii("rate limit exceeded"));
    } else {
      Forwarding(s, s', d, m);
    }
  }

  lemma CoreParts(s: State, clock: int)
    requires Core(s, clock)
    ensures OneReady(s.hosts) && IdsAscend(s.devices, s.nextConnId)
    ensures Hibernate(s) == s
  {
  }

  lemma HostOfLive(s: State, d: nat)
    requires Threads(s) && Live(s.devices, d)
    ensures ReadyHost(s.hosts).Some?
  {
    assert Thread(s, s.devices[d].connId);
  }

  lemma HostlessIdle(s: State)
    requires Threads(s)
    ensures ReadyHost(s.hosts).None? ==> forall d :: !Live(s.devices, d)
  {
    forall d | Live(s.devices, d)
      ensures ReadyHost(s.hosts).Some?
    {
      HostOfLive(s, d);
    }
  }

  lemma HostSpeaks(s: State, now: int, clock: int, h: nat, m: Message, field: Option<string>)
    requires Core(s, clock) && Threads(s) && h < |s.hosts|
    ensures Threads(HostMessage(s, now, h, m, field))
  {
    hide Size, Threads, Core, Retire, EndDevice, Frames.Decode, Frames.DecodeClose, ProofAcceptable, Offered, ReadyHost;
    CoreParts(s, clock);
    var s' := HostMessage(s, now, h, m, field);
    if Size(m) > MAX_MESSAGE_BYTES + Frames.HEADER_BYTES {
      match OversizedTarget(s, h, m)
      case Some(d) => Closing(s, d, Some(CLOSE_TOO_BIG), CLOSE_TOO_BIG, Ascii("message too large"), clock);
      case None =>
        RetireSilent(s, h, s.hosts[h].stage, Some(CLOSE_TOO_BIG));
        SilentKeeps(s, s');
    } else {
      if s.hosts[h].stage == AwaitProof {
        RetireSilent(s, h, AwaitProof, Some(CLOSE_BAD_PROOF));
      }
      assert Silent(s, s');
      SilentKeeps(s, s');
    }
  }

  lemma AlarmSilent(s: State, now: int)
    requires OneReady(s.hosts)
    ensures Silent(s, Alarm(s, now))
  {
    SameReady(s.hosts, Alarm(s, now).hosts);
  }

  lemma AttachHostSilent(s: State, now: int, hostId: string, challenge: seq<Byte>, expected: Option<seq<Byte>>)
    requires OneReady(s.hosts)
    ensures Silent(s, AttachHost(s, now, hostId, challenge, expected))
  {
    hide Base64url.HostKey, Base64url.Text;
    var s' := AttachHost(s, now, hostId, challenge, expected);
    SameReady(s.hosts, s'.hosts);
  }

  lemma VerdictSilent(s: State, v: nat)
    requires OneReady(s.hosts) && Threads(s) && v < |s.verifying| && s.verifying[v].link < |s.hosts|
    requires !Orphans(s, Judged(v))
    ensures Silent(s, Verdict(s, v))
  {
    var rest := s.(verifying := Without(s.verifying, v));
    HostlessIdle(s);
    if s.hosts[s.verifying[v].link].expected == Some(s.verifying[v].offered) {
      PromoteSilent(rest, s.verifying[v].link);
    } else {
      RetireSilent(rest, s.verifying[v].link, AwaitProof, Some(CLOSE_BAD_PROOF));
    }
  }

  lemma StepThreads(s: State, clock: int, now: int, e: Event)
    requires Core(s, clock) && Threads(s) && Enabled(s, now, e) && !Orphans(s, e)
    ensures Threads(Step(s, now, e))
  {
    hide Core, Threads, AttachHost, HostMessage, Verdict, Retire, AttachDevice, DeviceMessage, EndDevice, Alarm, Hibernate,
      Silent, OneReady;
    CoreParts(s, clock);
    var s' := Step(s, now, e);
    match e
    case HostAttaches(hostId, challenge, expected) =>
      AttachHostSilent(s, now, hostId, challenge, expected);
      SilentKeeps(s, s');
    case HostSends(h, m, field) => HostSpeaks(s, now, clock, h, m, field);
    case Judged(v) =>
      VerdictSilent(s, v);
      SilentKeeps(s, s');
    case HostCloses(h) =>
      RetireSilent(s, h, s.hosts[h].stage, None);
      SilentKeeps(s, s');
    case DeviceAttaches => Opening(s, now, clock);
    case DeviceSends(d, m) => DeviceSpeaks(s, now, clock, d, m);
    case DeviceCloses(d, code, wasClean, reason) =>
      Closing(s, d, None, HostFacingCode(code, wasClean), reason, clock);
    case AlarmFires =>
      AlarmSilent(s, now);
      SilentKeeps(s, s');
    case Hibernates =>
      assert s' == s;
  }

  // -- over runs ------------------------------------------------------------

  /** No verdict in the run orphans a device. */
  ghost predicate Orderly(s: State, clock: int, run: seq<Timed>)
    requires Legal(s, clock, run)
    decreases |run|
  {
    run == [] ||
    (!Orphans(s, run[0].event) && Orderly(Step(s, run[0].at, run[0].event), run[0].at, run[1..]))
  }

  lemma {:induction false} RunThreads(s: State, clock: int, run: seq<Timed>)
    requires Core(s, clock) && Threads(s) && Legal(s, clock, run) && Orderly(s, clock, run)
    ensures Threads(Exec(s, clock, run))
    decreases |run|
  {
    hide Core, Threads, Step, Enabled, Orphans;
    if run != [] {
      StepThreads(s, clock, run[0].at, run[0].event);
      StepKeeps(s, clock, run[0].at, run[0].event);
      RunThreads(Step(s, run[0].at, run[0].event), run[0].at, run[1..]);
    }
  }

  lemma InitialThreads(apns: bool)
    ensures Threads(Initial(apns))
  {
    forall c: int
      ensures Thread(Initial(apns), c)
    {
    }
  }

  /** In every orderly run each connection's frames are one conversation on one
      host link, carrying the device's messages in its own order; and every live
      device was opened on the host that is ready now. */
  lemma EveryConversation(apns: bool, clock: int, run: seq<Timed>)
    requires 0 <= clock && Legal(Initial(apns), clock, run) && Orderly(Initial(apns), clock, run)
    ensures Threads(Exec(Initial(apns), clock, run)) && DevicesOnReadyHost(Exec(Initial(apns), clock, run))
  {
    hide Legal, Exec, Orderly;
    InitialCore(apns, clock);
    InitialThreads(apns);
    RunThreads(Initial(apns), clock, run);
    ThreadsGiveHosts(Exec(Initial(apns), clock, run));
  }

  lemma ThreadsGiveHosts(s: State)
    requires Threads(s)
    ensures DevicesOnReadyHost(s)
  {
    forall d | Live(s.devices, d)
      ensures ReadyHost(s.hosts).Some? && Open(Sent(s.log, s.devices[d].connId), ReadyHost(s.hosts).value)
    {
      assert Thread(s, s.devices[d].connId);
    }
  }

  /** The exact condition, at each step: the devices stay on the ready host
      unless the step orphans them. */
  lemma OrphansExactly(s: State, clock: int, now: int, e: Event)
    requires Core(s, clock) && Threads(s) && clock <= now && Enabled(s, now, e)
    ensures DevicesOnReadyHost(Step(s, now, e)) <==> !Orphans(s, e)
  {
    if Orphans(s, e) {
      var s' := Step(s, now, e);
      var d :| Live(s.devices, d);
      assert Live(s'.devices, d);
      assert ReadyHost(s'.hosts).None? by {
        forall i | 0 <= i < |s'.hosts|
          ensures s'.hosts[i].stage != Ready
        {
        }
      }
    } else {
      StepThreads(s, clock, now, e);
      ThreadsGiveHosts(Step(s, now, e));
    }
  }

  /** The live devices are on the ready host at every state of the run. */
  ghost predicate HeldThroughout(s: State, clock: int, run: seq<Timed>)
    requires Legal(s, clock, run)
    decreases |run|
  {
    && DevicesOnReadyHost(s)
    && (run == [] || HeldThroughout(Step(s, run[0].at, run[0].event), run[0].at, run[1..]))
  }

  /** The exact condition, over runs: the devices stay on the ready host all
      along exactly when no verdict of the run orphans one. */
  lemma {:induction false} HeldExactly(s: State, clock: int, run: seq<Timed>)
    requires Core(s, clock) && Threads(s) && Legal(s, clock, run)
    ensures HeldThroughout(s, clock, run) <==> Orderly(s, clock, run)
    decreases |run|
  {
    hide Core, Threads, DevicesOnReadyHost, Step, Orphans;
    ThreadsGiveHosts(s);
    if run != [] {
      var t := run[0];
      var s' := Step(s, t.at, t.event);
      OrphansExactly(s, clock, t.at, t.event);
      if !Orphans(s, t.event) {
        StepThreads(s, clock, t.at, t.event);
        StepKeeps(s, clock, t.at, t.event);
        HeldExactly(s', t.at, run[1..]);
      }
    }
  }

  /** Two proofs of one claim are sent before the first is judged, only the first
      of them right. The first verdict makes the claim the host, a device
      attaches, and the second verdict takes the host away from under it. */
  lemma OrphaningRun(apns: bool) returns (run: seq<Timed>, last: Event)
    ensures Legal(Initial(apns), 0, run) && Orderly(Initial(apns), 0, run)
    ensures Enabled(Exec(Initial(apns), 0, run), ClockAfter(0, run), last)
    ensures Orphans(Exec(Initial(apns), 0, run), last)
  {
    hide Step, Enabled, Orphans, Legal, Exec, Orderly, ClockAfter, Base64url.Text, Base64url.Decoded, Base64url.HostKey;
    var right, wrong := Bytes(1), Bytes(2);
    var text, other := Base64url.Text(right), Base64url.Text(wrong);
    Readable(right);
    Readable(wrong);
    var claim, first, second := HostAttaches(text, right, Some(right)), HostSends(0, Text([]), Some(text)), HostSends(0, Text([]), Some(other));
    var s0 := Initial(apns);
    var s1 := Claimed(s0, right);
    var s2, s3 := TwoProofs(s1, right, wrong);
    var s4, s5 := FirstJudged(s3, right, wrong);
    Harmless(s0, claim);
    Harmless(s1, first);
    Harmless(s2, second);
    Harmless(s4, DeviceAttaches);
    last := Judged(0);
    run := Alone(s4, DeviceAttaches);
    run := Before(s3, Timed(0, Judged(0)), run);
    run := Before(s2, Timed(0, second), run);
    run := Before(s1, Timed(0, first), run);
    run := Before(s0, Timed(0, claim), run);
  }

  function Bytes(b: Byte): (key: seq<Byte>)
    ensures |key| == 32 && key[0] == b
  {
    seq(32, _ => b)
  }

  lemma Readable(key: seq<Byte>)
    requires |key| == 32
    ensures Base64url.HostKey(Base64url.Text(key)).Some? && Base64url.Decoded(Base64url.Text(key)) == Some(key)
  {
    hide Base64url.Text, Base64url.Decoded, Base64url.HostKey;
    Base64url.DecodeEncode(key);
    Base64url.HostIdIsKey(Base64url.Text(key));
  }

  /** Only verdicts orphan devices or revive links, and attaching is always open. */
  lemma Harmless(s: State, e: Event)
    requires !e.Judged?
    ensures !Orphans(s, e) && !Revives(s, e)
    ensures e.HostAttaches? || e.DeviceAttaches? ==> Enabled(s, 0, e)
  {
  }

  /** The link of a claim whose host key, nonce and right proof are one key. */
  function ClaimLink(key: seq<Byte>): HostLink {
    HostLink(AwaitProof, Base64url.Text(key), Base64url.Text(key), Some(key), HOST_AUTH_TIMEOUT_MS, None)
  }

  lemma Claimed(s: State, key: seq<Byte>) returns (next: State)
    requires |key| == 32
    ensures next == Step(s, 0, HostAttaches(Base64url.Text(key), key, Some(key)))
    ensures next.hosts == s.hosts + [ClaimLink(key)] && next.verifying == s.verifying
    ensures next.devices == s.devices && next.nextConnId == s.nextConnId
  {
    hide Base64url.Text, Base64url.Decoded, Base64url.HostKey;
    Readable(key);
    next := AttachHost(s, 0, Base64url.Text(key), key, Some(key));
  }

  /** A run of one event that orphans nobody. */
  lemma Alone(s: State, e: Event) returns (run: seq<Timed>)
    requires Enabled(s, 0, e) && !Orphans(s, e)
    ensures run != [] && Legal(s, 0, run) && Orderly(s, 0, run)
    ensures Exec(s, 0, run) == Step(s, 0, e) && ClockAfter(0, run) == 0
  {
    hide Step, Enabled, Orphans;
    run := [Timed(0, e)];
  }

  /** A pending link's proof, sent in time, goes under examination. */
  lemma ProofTaken(s: State, h: nat, key: seq<Byte>, offered: seq<Byte>) returns (next: State)
    requires |key| == 32 && |offered| == 32 && h < |s.hosts| && s.hosts[h] == ClaimLink(key)
    ensures Enabled(s, 0, HostSends(h, Text([]), Some(Base64url.Text(offered))))
    ensures next == Step(s, 0, HostSends(h, Text([]), Some(Base64url.Text(offered))))
    ensures next == s.(verifying := s.verifying + [Verification(h, offered, 0)])
  {
    hide Base64url.Text, Base64url.Decoded, Base64url.HostKey, Frames.Decode, Retire;
    Readable(key);
    Readable(offered);
    assert Size(Text([])) == 0;
    next := HostMessage(s, 0, h, Text([]), Some(Base64url.Text(offered)));
  }

  /** A device attaches while nothing stands against it. */
  lemma DeviceTaken(s: State) returns (next: State)
    requires ReadyHost(s.hosts).Some? && s.devices == [] && s.nextConnId == 1
    ensures next == Step(s, 0, DeviceAttaches)
    ensures next.hosts == s.hosts && next.verifying == s.verifying && Live(next.devices, 0)
  {
    next := AttachDevice(s, 0);
  }

  lemma TwoProofs(s1: State, right: seq<Byte>, wrong: seq<Byte>) returns (s2: State, s3: State)
    requires |right| == 32 && |wrong| == 32
    requires s1.hosts == [ClaimLink(right)] && s1.verifying == []
    ensures var proof := HostSends(0, Text([]), Some(Base64url.Text(right))); Enabled(s1, 0, proof) && s2 == Step(s1, 0, proof)
    ensures var proof := HostSends(0, Text([]), Some(Base64url.Text(wrong))); Enabled(s2, 0, proof) && s3 == Step(s2, 0, proof)
    ensures s3.hosts == s1.hosts && s3.verifying == [Verification(0, right, 0), Verification(0, wrong, 0)]
    ensures s3.devices == s1.devices && s3.nextConnId == s1.nextConnId
  {
    hide Base64url.Text, ClaimLink, Step, Enabled;
    s2 := ProofTaken(s1, 0, right, right);
    s3 := ProofTaken(s2, 0, right, wrong);
  }

  lemma FirstJudged(s3: State, right: seq<Byte>, wrong: seq<Byte>) returns (s4: State, s5: State)
    requires s3.hosts == [ClaimLink(right)] && s3.verifying == [Verification(0, right, 0), Verification(0, wrong, 0)]
    requires right != wrong && s3.devices == [] && s3.nextConnId == 1
    ensures Enabled(s3, 0, Judged(0)) && s4 == Step(s3, 0, Judged(0)) && !Orphans(s3, Judged(0))
    ensures s5 == Step(s4, 0, DeviceAttaches)
    ensures Enabled(s5, 0, Judged(0)) && Orphans(s5, Judged(0))
  {
    hide Base64url.Text;
    s4 := Verdict(s3, 0);
    assert s4.hosts == [ClaimLink(right).(stage := Ready)] && s4.verifying == [Verification(0, wrong, 0)];
    s5 := DeviceTaken(s4);
  }

  /** One more event in front of an orderly run. */
  lemma Before(s: State, t: Timed, run: seq<Timed>) returns (longer: seq<Timed>)
    requires t.at == 0 && Enabled(s, 0, t.event) && !Orphans(s, t.event) && run != []
    requires Legal(Step(s, 0, t.event), 0, run) && Orderly(Step(s, 0, t.event), 0, run)
    ensures longer == [t] + run && Legal(s, 0, longer) && Orderly(s, 0, longer)
    ensures Exec(s, 0, longer) == Exec(Step(s, 0, t.event), 0, run)
    ensures ClockAfter(0, longer) == ClockAfter(0, run)
  {
    hide Step, Enabled, Orphans;
    longer := [t] + run;
    assert longer[1..] == run;
  }

  /** Why the runtime must deliver nothing on a closed device socket: the
      handler would forward it behind the CLOSE. */
  lemma LateMessageBreaks(s: State, now: int, d: nat, m: Message)
    requires Threads(s) && d < |s.devices| && s.devices[d].closed && ReadyHost(s.hosts).Some?
    requires var x := Sent(s.log, s.devices[d].connId); x != [] && x[|x| - 1].frame.kind == Frames.CLOSE
    requires Size(m) <= MAX_MESSAGE_BYTES
    requires Touch(s.devices[d].rate, now, RATE_LIMIT_WINDOW_MS).count <= RATE_LIMIT_MESSAGES
    ensures !Threads(DeviceMessage(s, now, d, m))
  {
    hide Size, Utf8.Encode;
    var c := s.devices[d].connId;
    var s' := DeviceMessage(s, now, d, m);
    var x := Sent(s.log, c);
    Append(s.log, Heard(c, m), c);
    Append(s.log + [Heard(c, m)], ToHost(ReadyHost(s.hosts).value, Carrier(c, m)), c);
    assert Sent(s'.log, c)[|x| - 1] == x[|x| - 1] && |Sent(s'.log, c)| == |x| + 1;
    assert !Conversation(Sent(s'.log, c)) by {
      var y := Sent(s'.log, c);
      assert y[|y| - 1].frame == Carrier(c, m);
      if |x| == 1 { assert y[0].frame.kind != Frames.OPEN; }
    }
    assert !Thread(s', c);
  }
}
