/** What every run of the relay keeps, however its handlers, hibernations and
    pending proof checks interleave. */
module RelayCore {
  import opened Common
  import opened Limiter
  import opened Relay

  // -- the invariant --------------------------------------------------------

  predicate OneReady(hosts: seq<HostLink>) {
    forall i, j :: 0 <= i < |hosts| && 0 <= j < |hosts| && hosts[i].stage == Ready && hosts[j].stage == Ready ==> i == j
  }

  /** Connection ids are handed out in strictly increasing order, inside u32. */
  predicate IdsAscend(devices: seq<DeviceLink>, next: int) {
    && 1 <= next <= MAX_CONN_ID + 1
    && (forall i :: 0 <= i < |devices| ==> 1 <= devices[i].connId < next)
    && (forall i, j :: 0 <= i < j < |devices| ==> devices[i].connId < devices[j].connId)
  }

  /** What the instance holds is what a rebuild would read back. */
  predicate Mirrored(s: State) {
    s.nextConnId == s.savedConnId.GetOr(1) && s.notifyRate == s.savedRate.GetOr(FRESH_RATE)
  }

  /** No pending link's deadline passes without an alarm. */
  predicate AlarmCovers(hosts: seq<HostLink>, alarm: Option<int>) {
    forall i :: 0 <= i < |hosts| && hosts[i].stage == AwaitProof ==> alarm.Some? && alarm.value <= hosts[i].deadline
  }

  /** Every proof under examination arrived by its link's deadline. */
  predicate ProofsInTime(hosts: seq<HostLink>, verifying: seq<Verification>) {
    forall v :: 0 <= v < |verifying| ==>
                  verifying[v].link < |hosts| && verifying[v].arrived <= hosts[verifying[v].link].deadline
  }

  /** When NOTIFY frames were handled, and which were let through. */
  function NotifyTimes(log: seq<Entry>): seq<int> {
    if log == [] then []
    else
      NotifyTimes(log[..|log| - 1]) + (if log[|log| - 1].Notified? then [log[|log| - 1].at] else [])
  }

  function AllowedTimes(log: seq<Entry>): seq<int> {
    if log == [] then []
    else
      var last := log[|log| - 1];
      AllowedTimes(log[..|log| - 1]) + (if last.Notified? && last.allowed then [last.at] else [])
  }

  /** The budget is one limiter over all NOTIFY frames the host ever sent. */
  predicate NotifyBudgeted(s: State, clock: int) {
    var times := NotifyTimes(s.log);
    && Clocked(FRESH_RATE, times)
    && 0 <= clock && (forall i :: 0 <= i < |times| ==> times[i] <= clock)
    && s.notifyRate == After(FRESH_RATE, NOTIFY_LIMIT_WINDOW_MS, times)
    && AllowedTimes(s.log) == Admitted(FRESH_RATE, NOTIFY_LIMIT_FRAMES, NOTIFY_LIMIT_WINDOW_MS, times)
  }

  predicate Core(s: State, clock: int) {
    && OneReady(s.hosts)
    && LiveCount(s.devices) <= MAX_DEVICES
    && IdsAscend(s.devices, s.nextConnId)
    && Mirrored(s)
    && AlarmCovers(s.hosts, s.alarm)
    && ProofsInTime(s.hosts, s.verifying)
    && NotifyBudgeted(s, clock)
  }

  // -- how a step can touch the devices and the log -------------------------

  /** Every device link is still there under its id; none came back to life. */
  predicate OnlyCloses(before: seq<DeviceLink>, after: seq<DeviceLink>) {
    |after| == |before| && forall i :: 0 <= i < |before| ==>
                                         after[i].connId == before[i].connId && (Live(after, i) ==> Live(before, i))
  }

  lemma {:induction false} LiveCountShrinks(before: seq<DeviceLink>, after: seq<DeviceLink>)
    requires OnlyCloses(before, after)
    ensures LiveCount(after) <= LiveCount(before)
  {
    if before != [] {
      var a, b := after[..|after| - 1], before[..|before| - 1];
      assert OnlyCloses(b, a) by {
        forall i | 0 <= i < |b|
          ensures a[i].connId == b[i].connId && (Live(a, i) ==> Live(b, i))
        {
          assert after[i].connId == before[i].connId && (Live(after, i) ==> Live(before, i));
        }
      }
      LiveCountShrinks(b, a);
      assert Live(after, |after| - 1) ==> Live(before, |before| - 1);
    }
  }

  lemma OnlyClosesKeeps(before: seq<DeviceLink>, after: seq<DeviceLink>, next: int)
    requires OnlyCloses(before, after) && IdsAscend(before, next)
    ensures IdsAscend(after, next) && LiveCount(after) <= LiveCount(before)
  {
    LiveCountShrinks(before, after);
  }

  /** Entries other than NOTIFY decisions do not touch the budget. */
  lemma {:induction false} NotifyQuiet(log: seq<Entry>, more: seq<Entry>)
    requires forall i :: 0 <= i < |more| ==> !more[i].Notified?
    ensures NotifyTimes(log + more) == NotifyTimes(log) && AllowedTimes(log + more) == AllowedTimes(log)
    decreases |more|
  {
    if more == [] {
      assert log + more == log;
    } else {
      assert log + more == (log + [more[0]]) + more[1..];
      NotifyQuiet(log + [more[0]], more[1..]);
    }
  }

  /** The shape of every step but attaching a device and handling a NOTIFY. */
  predicate Mild(s: State, s': State) {
    && OnlyCloses(s.devices, s'.devices)
    && s'.nextConnId == s.nextConnId && s'.savedConnId == s.savedConnId
    && s'.notifyRate == s.notifyRate && s'.savedRate == s.savedRate
    && s.log <= s'.log && (forall i :: |s.log| <= i < |s'.log| ==> !s'.log[i].Notified?)
  }

  lemma MildKeeps(s: State, s': State, clock: int, now: int)
    requires Core(s, clock) && clock <= now && Mild(s, s')
    requires OneReady(s'.hosts) && AlarmCovers(s'.hosts, s'.alarm) && ProofsInTime(s'.hosts, s'.verifying)
    ensures Core(s', now)
  {
    OnlyClosesKeeps(s.devices, s'.devices, s.nextConnId);
    var more := s'.log[|s.log|..];
    assert s'.log == s.log + more;
    NotifyQuiet(s.log, more);
  }

  // -- one lemma per transition ---------------------------------------------

  lemma AttachDeviceKeeps(s: State, clock: int, now: int)
    requires Core(s, clock) && clock <= now
    ensures Core(AttachDevice(s, now), now)
  {
    var s' := AttachDevice(s, now);
    if Admission(s).Accepted? {
      assert s'.devices[..|s.devices|] == s.devices;
      NotifyQuiet(s.log, s'.log[|s.log|..]);
      assert s'.log == s.log + s'.log[|s.log|..];
    }
  }

  lemma NotifyKeeps(s: State, clock: int, now: int)
    requires Core(s, clock) && clock <= now
    ensures Core(Notify(s, now), now)
  {
    if s.apns {
      var times := NotifyTimes(s.log);
      var s' := Notify(s, now);
      AfterStep(FRESH_RATE, NOTIFY_LIMIT_WINDOW_MS, times, now);
      AdmittedAppend(FRESH_RATE, NOTIFY_LIMIT_FRAMES, NOTIFY_LIMIT_WINDOW_MS, times, now);
    }
  }

  lemma RetireKeeps(s: State, clock: int, now: int, h: nat, seen: Stage, code: Option<int>)
    requires Core(s, clock) && clock <= now && h < |s.hosts|
    ensures Core(Retire(s, h, seen, code), now)
  {
    MildKeeps(s, Retire(s, h, seen, code), clock, now);
  }

  lemma EndDeviceKeeps(s: State, clock: int, now: int, d: nat, farewell: Option<int>, code: int, reason: seq<Byte>)
    requires Core(s, clock) && clock <= now && d < |s.devices|
    ensures Core(EndDevice(s, d, farewell, code, reason), now)
  {
    MildKeeps(s, EndDevice(s, d, farewell, code, reason), clock, now);
  }

  lemma HandleProofKeeps(s: State, clock: int, now: int, h: nat, m: Message, field: Option<string>)
    requires Core(s, clock) && clock <= now && h < |s.hosts|
    ensures Core(HandleProof(s, now, h, m, field), now)
  {
    hide Offered, Base64url.HostKey, Base64url.Decoded;
    if ProofAcceptable(s.hosts[h], now, m, field) {
      MildKeeps(s, HandleProof(s, now, h, m, field), clock, now);
    } else {
      RetireKeeps(s, clock, now, h, AwaitProof, Some(CLOSE_BAD_PROOF));
    }
  }

  lemma RouteKeeps(s: State, clock: int, now: int, bytes: seq<Byte>)
    requires Core(s, clock) && clock <= now
    ensures Core(RouteHostFrame(s, now, bytes), now)
  {
    hide Frames.Decode, Frames.DecodeClose;
    var frame := Frames.Decode(bytes);
    if frame.Some? && frame.value.kind == Frames.NOTIFY {
      NotifyKeeps(s, clock, now);
    } else {
      MildKeeps(s, RouteHostFrame(s, now, bytes), clock, now);
    }
  }

  lemma HostMessageKeeps(s: State, clock: int, now: int, h: nat, m: Message, field: Option<string>)
    requires Core(s, clock) && clock <= now && h < |s.hosts|
    ensures Core(HostMessage(s, now, h, m, field), now)
  {
    hide Core, Size, Retire, EndDevice, HandleProof, RouteHostFrame, OversizedTarget;
    if Size(m) > MAX_MESSAGE_BYTES + Frames.HEADER_BYTES {
      match OversizedTarget(s, h, m)
      case Some(d) => EndDeviceKeeps(s, clock, now, d, Some(CLOSE_TOO_BIG), CLOSE_TOO_BIG, Ascii("message too large"));
      case None => RetireKeeps(s, clock, now, h, s.hosts[h].stage, Some(CLOSE_TOO_BIG));
    } else if s.hosts[h].stage == AwaitProof {
      HandleProofKeeps(s, clock, now, h, m, field);
    } else if s.hosts[h].stage == Ready && m.Binary? {
      RouteKeeps(s, clock, now, m.bytes);
    } else {
      Later(s, clock, now);
    }
  }

  /** Time passing on its own disturbs nothing. */
  lemma Later(s: State, clock: int, now: int)
    requires Core(s, clock) && clock <= now
    ensures Core(s, now)
  {
  }

  lemma AttachHostKeeps(s: State, clock: int, now: int, hostId: string, challenge: seq<Byte>, expected: Option<seq<Byte>>)
    requires Core(s, clock) && clock <= now
    ensures Core(AttachHost(s, now, hostId, challenge, expected), now)
  {
    hide Base64url.HostKey, Base64url.Text;
    MildKeeps(s, AttachHost(s, now, hostId, challenge, expected), clock, now);
  }

  lemma HibernateKeeps(s: State, clock: int, now: int)
    requires Core(s, clock) && clock <= now
    ensures Core(Hibernate(s), now) && Hibernate(s) == s
  {
  }

  lemma VerdictKeeps(s: State, clock: int, now: int, v: nat)
    requires Core(s, clock) && clock <= now && v < |s.verifying|
    ensures Core(Verdict(s, v), now)
  {
    hide NotifyBudgeted, LiveCount, IdsAscend;
    var rest := s.(verifying := Without(s.verifying, v));
    assert ProofsInTime(rest.hosts, rest.verifying) by {
      forall u | 0 <= u < |rest.verifying|
        ensures rest.verifying[u].link < |s.hosts| && rest.verifying[u].arrived <= s.hosts[rest.verifying[u].link].deadline
      {
        assert rest.verifying[u] == s.verifying[if u < v then u else u + 1];
      }
    }
    MildKeeps(s, Verdict(s, v), clock, now);
  }

  lemma DeviceMessageKeeps(s: State, clock: int, now: int, d: nat, m: Message)
    requires Core(s, clock) && clock <= now && d < |s.devices|
    ensures Core(DeviceMessage(s, now, d, m), now)
  {
    hide NotifyBudgeted, LiveCount, IdsAscend, Mirrored, AlarmCovers, OneReady, ProofsInTime, Touch, CloseFrame, Ascii;
    var heard := s.(log := s.log + [Heard(s.devices[d].connId, m)]);
    var touched := heard.(devices := s.devices[d := s.devices[d].(rate := Touch(s.devices[d].rate, now, RATE_LIMIT_WINDOW_MS))]);
    hide ReadyHost, Size, Carrier;
    var s' := DeviceMessage(s, now, d, m);
    assert s'.devices[d].connId == s.devices[d].connId;
    MildKeeps(s, s', clock, now);
  }

  lemma AlarmKeeps(s: State, clock: int, now: int)
    requires Core(s, clock) && clock <= now
    ensures Core(Alarm(s, now), now)
  {
    var s' := Alarm(s, now);
    forall i | 0 <= i < |s'.hosts| && s'.hosts[i].stage == AwaitProof
      ensures s'.alarm.Some? && s'.alarm.value <= s'.hosts[i].deadline
    {
      assert s.hosts[i].stage == AwaitProof && s.hosts[i].deadline > now;
    }
    MildKeeps(s, s', clock, now);
  }

  lemma StepKeeps(s: State, clock: int, now: int, e: Event)
    requires Core(s, clock) && clock <= now && Enabled(s, now, e)
    ensures Core(Step(s, now, e), now)
  {
    hide Core, AttachHost, HostMessage, Verdict, Retire, AttachDevice, DeviceMessage, EndDevice, Alarm, Hibernate;
    match e
    case HostAttaches(hostId, challenge, expected) => AttachHostKeeps(s, clock, now, hostId, challenge, expected);
    case HostSends(h, m, field) => HostMessageKeeps(s, clock, now, h, m, field);
    case Judged(v) => VerdictKeeps(s, clock, now, v);
    case HostCloses(h) => RetireKeeps(s, clock, now, h, s.hosts[h].stage, None);
    case DeviceAttaches => AttachDeviceKeeps(s, clock, now);
    case DeviceSends(d, m) => DeviceMessageKeeps(s, clock, now, d, m);
    case DeviceCloses(d, code, wasClean, reason) =>
      EndDeviceKeeps(s, clock, now, d, None, HostFacingCode(code, wasClean), reason);
    case AlarmFires => AlarmKeeps(s, clock, now);
    case Hibernates => HibernateKeeps(s, clock, now);
  }

  // -- over every run -------------------------------------------------------

  lemma {:induction false} RunKeeps(s: State, clock: int, run: seq<Timed>)
    requires Core(s, clock) && Legal(s, clock, run)
    ensures Core(Exec(s, clock, run), ClockAfter(clock, run))
    decreases |run|
  {
    hide Core, Step, Enabled;
    if run != [] {
      StepKeeps(s, clock, run[0].at, run[0].event);
      RunKeeps(Step(s, run[0].at, run[0].event), run[0].at, run[1..]);
    }
  }

  /** Every state a relay can reach, proof checks interleaving with all other
      handlers, has one ready host link at most, eight live devices at most,
      ascending ids, storage that mirrors the instance, an alarm over every
      pending deadline, and a NOTIFY budget kept across links and wakes. */
  lemma EveryRun(apns: bool, clock: int, run: seq<Timed>)
    requires 0 <= clock && Legal(Initial(apns), clock, run)
    ensures Core(Exec(Initial(apns), clock, run), ClockAfter(clock, run))
  {
    hide Legal, Exec;
    InitialCore(apns, clock);
    RunKeeps(Initial(apns), clock, run);
  }

  lemma InitialCore(apns: bool, clock: int)
    requires 0 <= clock
    ensures Core(Initial(apns), clock)
  {
    var s := Initial(apns);
    assert s.log == [] && NotifyTimes(s.log) == [] && AllowedTimes(s.log) == [];
    assert NotifyBudgeted(s, clock);
  }

  /** Whatever interval of one window's length is chosen, the relay let at most
      twice the limit of NOTIFY frames through in it, over the object's life. */
  lemma NotifyBudget(apns: bool, clock: int, run: seq<Timed>, lo: int)
    requires 0 <= clock && Legal(Initial(apns), clock, run)
    ensures CountIn(AllowedTimes(Exec(Initial(apns), clock, run).log), lo, lo + NOTIFY_LIMIT_WINDOW_MS)
            <= 2 * NOTIFY_LIMIT_FRAMES
  {
    hide Legal, Exec, Clocked, After, Admitted, CountIn, NotifyTimes, AllowedTimes, IdsAscend, LiveCount, Mirrored;
    EveryRun(apns, clock, run);
    var s := Exec(Initial(apns), clock, run);
    IntervalBound(FRESH_RATE, NOTIFY_LIMIT_FRAMES, NOTIFY_LIMIT_WINDOW_MS, NotifyTimes(s.log), lo);
  }

  /** An alarm step leaves no link pending past its deadline. */
  lemma AlarmClears(s: State, now: int)
    ensures forall i :: 0 <= i < |Alarm(s, now).hosts| && Alarm(s, now).hosts[i].stage == AwaitProof
                        ==> now < Alarm(s, now).hosts[i].deadline
    ensures forall i :: 0 <= i < |s.hosts| && (s.hosts[i].stage != AwaitProof || now < s.hosts[i].deadline)
                        ==> Alarm(s, now).hosts[i] == s.hosts[i]
  {
  }

  /** A matching verdict lands on a link that has ended meanwhile. */
  predicate Revives(s: State, e: Event)
    requires e.Judged? ==> e.proof < |s.verifying| && s.verifying[e.proof].link < |s.hosts|
  {
    && e.Judged?
    && s.hosts[s.verifying[e.proof].link].expected == Some(s.verifying[e.proof].offered)
    && s.hosts[s.verifying[e.proof].link].stage == Gone
  }

  /** A link becomes the host only through a proof that arrived in time and
      equals what the library computed, and from pending unless the verdict
      revives it. */
  lemma PromotedByProof(s: State, clock: int, now: int, e: Event, h: nat)
    requires Core(s, clock) && clock <= now && Enabled(s, now, e)
    requires h < |Step(s, now, e).hosts| && Step(s, now, e).hosts[h].stage == Ready
    requires h < |s.hosts| ==> s.hosts[h].stage != Ready
    ensures e.Judged? && s.verifying[e.proof].link == h
            && s.hosts[h].expected == Some(s.verifying[e.proof].offered)
            && s.verifying[e.proof].arrived <= s.hosts[h].deadline
    ensures s.hosts[h].stage == (if Revives(s, e) then Gone else AwaitProof)
  {
    hide Base64url.HostKey, Base64url.Text, Base64url.Decoded, Size, Frames.Decode, Frames.DecodeClose, Carrier, ReadyHost, LiveCount,
      DeviceOf, IdsAscend, Mirrored, AlarmCovers, NotifyBudgeted, Touch, ProofAcceptable, CloseAll, NextDeadline, CloseFrame;
  }

  /** Device links are only ever added, and keep their id for good. */
  predicate SameIds(s: State, s': State) {
    |s.devices| <= |s'.devices| && forall i :: 0 <= i < |s.devices| ==> s'.devices[i].connId == s.devices[i].connId
  }

  lemma HostMessageSameIds(s: State, now: int, h: nat, m: Message, field: Option<string>)
    requires h < |s.hosts|
    ensures SameIds(s, HostMessage(s, now, h, m, field))
  {
    hide Size, Frames.Decode, Frames.DecodeClose, ReadyHost, DeviceOf, Touch, ProofAcceptable, CloseFrame;
  }

  lemma DeviceMessageSameIds(s: State, now: int, d: nat, m: Message)
    requires d < |s.devices|
    ensures SameIds(s, DeviceMessage(s, now, d, m))
  {
    hide Size, ReadyHost, Touch, Carrier, CloseFrame;
  }

  lemma StepSameIds(s: State, now: int, e: Event)
    requires Enabled(s, now, e)
    ensures SameIds(s, Step(s, now, e))
  {
    hide HostMessage, DeviceMessage, Base64url.HostKey, Base64url.Text, ReadyHost, LiveCount, NextDeadline, CloseFrame;
    if e.HostSends? {
      HostMessageSameIds(s, now, e.host, e.sent, e.field);
    } else if e.DeviceSends? {
      DeviceMessageSameIds(s, now, e.device, e.sent);
    }
  }

  lemma {:induction false} RunSameIds(s: State, clock: int, run: seq<Timed>)
    requires Legal(s, clock, run)
    ensures SameIds(s, Exec(s, clock, run))
    decreases |run|
  {
    hide Step, Enabled;
    if run != [] {
      StepSameIds(s, run[0].at, run[0].event);
      RunSameIds(Step(s, run[0].at, run[0].event), run[0].at, run[1..]);
    }
  }

  /** A connection id names one device link for the object's whole life: a
      later state, hibernations included, never gives it to another. */
  lemma IdsNeverReused(apns: bool, clock: int, run: seq<Timed>, more: seq<Timed>, i: nat, j: nat)
    requires 0 <= clock && Legal(Initial(apns), clock, run)
    requires Legal(Exec(Initial(apns), clock, run), ClockAfter(clock, run), more)
    requires i < |Exec(Initial(apns), clock, run).devices|
    requires j < |Exec(Exec(Initial(apns), clock, run), ClockAfter(clock, run), more).devices|
    requires Exec(Initial(apns), clock, run).devices[i].connId
             == Exec(Exec(Initial(apns), clock, run), ClockAfter(clock, run), more).devices[j].connId
    ensures i == j
  {
    hide Legal, Exec, ClockAfter, LiveCount, Mirrored, NotifyBudgeted, AlarmCovers, ProofsInTime, OneReady;
    var s, t := Exec(Initial(apns), clock, run), ClockAfter(clock, run);
    EveryRun(apns, clock, run);
    RunKeeps(s, t, more);
    RunSameIds(s, t, more);
  }

  /** The event is about claims that are still pending, and proves none of them. */
  predicate OnlyPending(s: State, e: Event)
    requires e.HostSends? || e.HostCloses? ==> e.host < |s.hosts|
    requires e.Judged? ==> e.proof < |s.verifying| && s.verifying[e.proof].link < |s.hosts|
  {
    match e
    case HostAttaches(_, _, _) => true
    case HostSends(h, _, _) => s.hosts[h].stage == AwaitProof
    case HostCloses(h) => s.hosts[h].stage == AwaitProof
    case Judged(v) =>
      var link := s.hosts[s.verifying[v].link];
      link.stage == AwaitProof && link.expected != Some(s.verifying[v].offered)
    case AlarmFires => true
    case _ => false
  }

  predicate SameReadyLinks(a: seq<HostLink>, b: seq<HostLink>) {
    && (forall i :: 0 <= i < |a| && a[i].stage == Ready ==> i < |b| && b[i].stage == Ready)
    && (forall i :: 0 <= i < |b| && b[i].stage == Ready ==> i < |a| && a[i].stage == Ready)
  }

  lemma RetirePending(s: State, h: nat, code: Option<int>)
    requires h < |s.hosts| && s.hosts[h].stage == AwaitProof
    ensures var s' := Retire(s, h, AwaitProof, code);
      s'.devices == s.devices && SameReadyLinks(s.hosts, s'.hosts)
  {
  }

  lemma PendingStep(s: State, now: int, e: Event)
    requires Enabled(s, now, e) && OnlyPending(s, e)
    ensures var s' := Step(s, now, e);
      s'.devices == s.devices && SameReadyLinks(s.hosts, s'.hosts)
  {
    hide Base64url.HostKey, Base64url.Text, Base64url.Decoded, Size, ProofAcceptable, Retire, NextDeadline;
    if e.HostSends? {
      RetirePending(s, e.host, Some(CLOSE_TOO_BIG));
      RetirePending(s, e.host, Some(CLOSE_BAD_PROOF));
    } else if e.HostCloses? {
      RetirePending(s, e.host, None);
    } else if e.Judged? {
      RetirePending(s.(verifying := Without(s.verifying, e.proof)), s.verifying[e.proof].link, Some(CLOSE_BAD_PROOF));
    }
  }

  /** Attaching, failing or closing a claim that is still pending changes
      neither the ready host nor any device. */
  lemma PendingClaimHarmless(s: State, clock: int, now: int, e: Event)
    requires Core(s, clock) && Enabled(s, now, e)
    requires OnlyPending(s, e)
    ensures Step(s, now, e).devices == s.devices
    ensures ReadyHost(Step(s, now, e).hosts) == ReadyHost(s.hosts)
  {
    hide Step, Enabled, OnlyPending, ReadyHost, LiveCount, IdsAscend, Mirrored, AlarmCovers, NotifyBudgeted;
    PendingStep(s, now, e);
    SameReady(s.hosts, Step(s, now, e).hosts);
  }

  /** The ready host is found by its stage alone. */
  lemma SameReady(a: seq<HostLink>, b: seq<HostLink>)
    requires OneReady(a) && SameReadyLinks(a, b)
    ensures ReadyHost(a) == ReadyHost(b)
  {
  }

  /** At most one live device answers to an id, so a lookup has no choice. */
  lemma OneDevicePerId(s: State, clock: int, i: nat, j: nat)
    requires Core(s, clock) && Live(s.devices, i) && Live(s.devices, j)
    requires s.devices[i].connId == s.devices[j].connId
    ensures i == j && DeviceOf(s.devices, s.devices[i].connId) == Some(i)
  {
    var d := DeviceOf(s.devices, s.devices[i].connId);
    assert d.Some?;
  }

  /** The device cap is decided as the message's true UTF-8 length would. */
  lemma DeviceCapExact(m: Message)
    ensures Size(m) > MAX_MESSAGE_BYTES <==> |Carrier(0, m).payload| > MAX_MESSAGE_BYTES
  {
    if m.Text? {
      Utf8.MeasuredExact(m.units, MAX_MESSAGE_BYTES);
    }
  }
}
