/** What one step does to one link, told from the link's side: how a device
    link comes and goes, and what becomes of a host link. */
module RelayEnds {
  import opened Common
  import opened Limiter
  import opened Relay
  import opened RelayCore
  import opened RelayTalk
  import R = RelayRates
  import Base64url
  import Frames
  import Utf8

  const HOST_CAP: nat := MAX_MESSAGE_BYTES + Frames.HEADER_BYTES

  // -- what a host's message says -------------------------------------------

  /** The bytes are a frame of that kind for connection `c`. */
  ghost predicate Says(bytes: seq<Byte>, kind: Byte, c: int) {
    exists p: seq<Byte> :: bytes == Frames.Encode(Frames.Frame(kind, c, p))
  }

  /** Bytes from the host that is ready. */
  predicate FromReady(s: State, e: Event)
    requires e.HostSends? ==> e.host < |s.hosts|
  {
    e.HostSends? && s.hosts[e.host].stage == Ready && e.sent.Binary?
  }

  /** The host hangs up on connection `c`. */
  ghost predicate HostHangsUp(s: State, e: Event, c: int)
    requires e.HostSends? ==> e.host < |s.hosts|
  {
    FromReady(s, e) && |e.sent.bytes| <= HOST_CAP && Says(e.sent.bytes, Frames.CLOSE, c)
  }

  /** A message too large for the device it is for. */
  ghost predicate TooLargeFor(s: State, e: Event, c: int)
    requires e.HostSends? ==> e.host < |s.hosts|
  {
    FromReady(s, e) && |e.sent.bytes| > HOST_CAP && Says(e.sent.bytes, Frames.DATA, c)
  }

  /** A message too large, for no device that lives. */
  ghost predicate TooLarge(s: State, e: Event)
    requires e.HostSends? ==> e.host < |s.hosts|
  {
    e.HostSends? && Size(e.sent) > HOST_CAP && forall i :: Live(s.devices, i) ==> !TooLargeFor(s, e, s.devices[i].connId)
  }

  predicate Matches(s: State, e: Event)
    requires e.Judged? ==> e.proof < |s.verifying| && s.verifying[e.proof].link < |s.hosts|
  {
    e.Judged? && s.hosts[s.verifying[e.proof].link].expected == Some(s.verifying[e.proof].offered)
  }

  /** The step takes the ready host away. */
  ghost predicate HostLeaves(s: State, e: Event)
    requires e.HostSends? || e.HostCloses? ==> e.host < |s.hosts|
    requires e.Judged? ==> e.proof < |s.verifying| && s.verifying[e.proof].link < |s.hosts|
  {
    || (TooLarge(s, e) && s.hosts[e.host].stage == Ready)
    || (e.HostCloses? && s.hosts[e.host].stage == Ready)
    || (Matches(s, e) && exists i :: 0 <= i < |s.hosts| && i != s.verifying[e.proof].link && s.hosts[i].stage == Ready)
  }

  /** A frame's kind and connection are in its first five bytes. */
  lemma SaysDecodes(bytes: seq<Byte>, kind: Byte, c: int)
    requires 0 <= c < Frames.TWO_32
    ensures var f := Frames.Decode(bytes);
      Says(bytes, kind, c) <==> f.Some? && f.value.kind == kind && f.value.connId == c
  {
    hide Frames.Encode, Frames.Decode;
    Frames.EncodeDecode(bytes);
    forall p: seq<Byte> | bytes == Frames.Encode(Frames.Frame(kind, c, p))
      ensures Frames.Decode(bytes) == Some(Frames.Frame(kind, c, p))
    {
      Frames.DecodeEncode(Frames.Frame(kind, c, p));
    }
    var f := Frames.Decode(bytes);
    if f.Some? && f.value.kind == kind && f.value.connId == c {
      assert f.value == Frames.Frame(kind, c, f.value.payload);
    }
  }

  lemma HeaderDecodes(bytes: seq<Byte>)
    requires |bytes| >= Frames.HEADER_BYTES
    ensures var f, g := Frames.Decode(bytes), Frames.Decode(bytes[..Frames.HEADER_BYTES]);
      f.Some? && g.Some? && f.value.kind == g.value.kind && f.value.connId == g.value.connId
      && f.value.payload == bytes[Frames.HEADER_BYTES..]
  {
  }

  /** The device an oversized message is for, as the relay finds it. */
  lemma TargetIsMeant(s: State, clock: int, e: Event)
    requires Core(s, clock) && e.HostSends? && e.host < |s.hosts| && Size(e.sent) > HOST_CAP
    ensures var d := OversizedTarget(s, e.host, e.sent);
      && (d.Some? ==> Live(s.devices, d.value) && TooLargeFor(s, e, s.devices[d.value].connId))
      && (d.None? <==> TooLarge(s, e))
      && forall i :: Live(s.devices, i) && TooLargeFor(s, e, s.devices[i].connId) ==> d == Some(i)
  {
    hide Frames.Decode, Says, DeviceOf, LiveCount, NotifyBudgeted, Mirrored, OneReady, AlarmCovers, ProofsInTime;
    if FromReady(s, e) {
      HeaderDecodes(e.sent.bytes);
      forall i | Live(s.devices, i)
        ensures 0 <= s.devices[i].connId < Frames.TWO_32
        ensures var f := Frames.Decode(e.sent.bytes);
          Says(e.sent.bytes, Frames.DATA, s.devices[i].connId)
          <==> f.Some? && f.value.kind == Frames.DATA && f.value.connId == s.devices[i].connId
      {
        SaysDecodes(e.sent.bytes, Frames.DATA, s.devices[i].connId);
      }
    }
  }

  // -- a device link --------------------------------------------------------

  /** The close code in the payload of a CLOSE, or the plain one. */
  function CodeIn(payload: seq<Byte>): int {
    if |payload| < 2 then 1000 else payload[0] as int * 256 + payload[1]
  }

  /** A live link after a step in which its device sends nothing: it goes with
      its host; it is closed when the host hangs up on it, with the code the host
      gives; for a message too large for it; and when its device hangs up. The
      host hears of the last two. Nothing else touches it. */
  lemma DeviceEnds(s: State, clock: int, now: int, e: Event, d: nat)
    requires Core(s, clock) && Enabled(s, now, e) && Live(s.devices, d) && !(e.DeviceSends? && e.device == d)
    ensures var s', link, c := Step(s, now, e), s.devices[d], s.devices[d].connId;
      && d < |s'.devices|
      && if HostLeaves(s, e) then
           s'.devices[d] == link.(closed := true, farewell := Bid(link.farewell, Some(CLOSE_NO_HOST)))
         else if HostHangsUp(s, e, c) then
           && s'.devices[d] == link.(closed := true, farewell := Bid(link.farewell, Some(CodeIn(e.sent.bytes[Frames.HEADER_BYTES..]))))
           && s'.log == s.log
         else if TooLargeFor(s, e, c) then
           && s'.devices[d] == link.(closed := true, farewell := Bid(link.farewell, Some(CLOSE_TOO_BIG)))
           && exists reason: seq<Byte> :: s'.log == s.log + TellHost(s.hosts, CloseFrame(c, CLOSE_TOO_BIG, reason))
         else if e.DeviceCloses? && e.device == d then
           var code := if e.wasClean && 1000 <= e.code <= 4999 && e.code != 1005 && e.code != 1006 then e.code else 1006;
           && s'.devices[d] == link.(closed := true)
           && s'.log == s.log + TellHost(s.hosts, CloseFrame(c, code, e.reason))
         else s'.devices[d] == link
  {
    hide Core, Size, Says, Frames.Decode, Frames.ClosePayload, ReadyHost, Base64url.HostKey, Base64url.Text, Base64url.Decoded,
      Touch, NextDeadline, HostMessage, DeviceMessage, Verdict;
    if e.HostSends? {
      HostMessageEnds(s, clock, now, e, d);
    } else if e.Judged? {
      VerdictEnds(s, e, d);
    } else if e.DeviceSends? {
      OneSends(s, now, e.device, e.sent, d);
    }
  }

  lemma OneSends(s: State, now: int, i: nat, m: Message, d: nat)
    requires i < |s.devices| && d < |s.devices| && i != d
    ensures |DeviceMessage(s, now, i, m).devices| == |s.devices| && DeviceMessage(s, now, i, m).devices[d] == s.devices[d]
  {
    hide Size, Touch, ReadyHost, CloseFrame, Carrier;
  }

  lemma VerdictEnds(s: State, e: Event, d: nat)
    requires e.Judged? && e.proof < |s.verifying| && s.verifying[e.proof].link < |s.hosts| && Live(s.devices, d)
    ensures var s', link := Verdict(s, e.proof), s.devices[d];
      |s'.devices| == |s.devices|
      && s'.devices[d] == if HostLeaves(s, e) then link.(closed := true, farewell := Bid(link.farewell, Some(CLOSE_NO_HOST))) else link
  {
  }

  /** The device a small frame from the ready host is for. */
  lemma RoutedTo(s: State, clock: int, bytes: seq<Byte>, d: nat)
    requires Core(s, clock) && Live(s.devices, d)
    ensures var f := Frames.Decode(bytes);
      Says(bytes, Frames.CLOSE, s.devices[d].connId)
      <==> f.Some? && f.value.kind == Frames.CLOSE && DeviceOf(s.devices, f.value.connId) == Some(d)
  {
    hide Frames.Decode, Says, DeviceOf, LiveCount, NotifyBudgeted, Mirrored, OneReady, AlarmCovers, ProofsInTime;
    SaysDecodes(bytes, Frames.CLOSE, s.devices[d].connId);
    OneDevicePerId(s, clock, d, d);
    var f := Frames.Decode(bytes);
    if f.Some? && f.value.connId == s.devices[d].connId && DeviceOf(s.devices, f.value.connId).Some? {
      OneDevicePerId(s, clock, DeviceOf(s.devices, f.value.connId).value, d);
    }
  }

  lemma HostMessageEnds(s: State, clock: int, now: int, e: Event, d: nat)
    requires Core(s, clock) && e.HostSends? && e.host < |s.hosts| && Live(s.devices, d)
    ensures var s', link, c := HostMessage(s, now, e.host, e.sent, e.field), s.devices[d], s.devices[d].connId;
      && |s'.devices| == |s.devices|
      && if HostLeaves(s, e) then
           s'.devices[d] == link.(closed := true, farewell := Bid(link.farewell, Some(CLOSE_NO_HOST)))
         else if HostHangsUp(s, e, c) then
           && s'.devices[d] == link.(closed := true, farewell := Bid(link.farewell, Some(CodeIn(e.sent.bytes[Frames.HEADER_BYTES..]))))
           && s'.log == s.log
         else if TooLargeFor(s, e, c) then
           && s'.devices[d] == link.(closed := true, farewell := Bid(link.farewell, Some(CLOSE_TOO_BIG)))
           && exists reason: seq<Byte> :: s'.log == s.log + TellHost(s.hosts, CloseFrame(c, CLOSE_TOO_BIG, reason))
         else s'.devices[d] == link
  {
    hide Core, Utf8.MeasuredSize, Says, Frames.Decode, Frames.DecodeClose, ReadyHost, Touch, OversizedTarget, DeviceOf, ProofAcceptable, CloseFrame, Offered;
    if Size(e.sent) > HOST_CAP {
      TargetIsMeant(s, clock, e);
    } else if FromReady(s, e) {
      RoutedTo(s, clock, e.sent.bytes, d);
      if |e.sent.bytes| >= Frames.HEADER_BYTES {
        HeaderDecodes(e.sent.bytes);
        CodeRead(e.sent.bytes[Frames.HEADER_BYTES..]);
      }
      Frames.EncodeDecode(e.sent.bytes);
    }
  }

  lemma CodeRead(payload: seq<Byte>)
    ensures var info := Frames.DecodeClose(payload);
      CodeIn(payload) == if info.Some? then info.value.code else 1000
  {
  }

  // -- a new device ---------------------------------------------------------

  function LiveOnes(devices: seq<DeviceLink>): set<int> {
    set i | 0 <= i < |devices| && Live(devices, i)
  }

  lemma LastOne(devices: seq<DeviceLink>)
    requires devices != []
    ensures var init, last := devices[..|devices| - 1], |devices| - 1;
      LiveOnes(devices) == LiveOnes(init) + (if devices[last].closed then {} else {last}) && last !in LiveOnes(init)
  {
  }

  lemma {:induction false} LiveCountCounts(devices: seq<DeviceLink>)
    ensures LiveCount(devices) == |LiveOnes(devices)|
  {
    hide LiveOnes;
    if devices == [] {
      NoneLive();
    } else {
      LiveCountCounts(devices[..|devices| - 1]);
      LastOne(devices);
    }
  }

  lemma NoneLive()
    ensures LiveOnes([]) == {}
  {
  }

  /** A device is accepted exactly while a host is ready, fewer than eight devices
      live and an id is left; it gets the next id, and the host hears OPEN. A
      device refused leaves no trace, and is told no host or too many. */
  lemma Admits(s: State, now: int)
    ensures var live, host := LiveOnes(s.devices), ReadyHost(s.hosts);
      var s' := AttachDevice(s, now);
      if host.Some? && |live| < 8 && s.nextConnId <= 0xffff_ffff then
        && Admission(s) == Accepted(|s.devices|)
        && s'.devices == s.devices + [DeviceLink(s.nextConnId, false, Window(now, 0), None)]
        && s'.log == s.log + [ToHost(host.value, Frames.Frame(Frames.OPEN, s.nextConnId, []))]
        && s'.hosts == s.hosts
      else
        && Admission(s) == Refused(if host.None? then 4404 else 4429)
        && s' == s
  {
    hide LiveCount, LiveOnes, ReadyHost;
    LiveCountCounts(s.devices);
  }

  // -- a host link ----------------------------------------------------------

  /** A claim's nonce and key can be read back. */
  predicate Sound(hosts: seq<HostLink>) {
    forall h :: 0 <= h < |hosts| ==> Base64url.HostKey(hosts[h].hostId).Some? && Base64url.Decoded(hosts[h].nonce).Some?
  }

  lemma StepSound(s: State, now: int, e: Event)
    requires Sound(s.hosts) && Enabled(s, now, e)
    ensures Sound(Step(s, now, e).hosts)
  {
    hide Base64url.HostKey, Base64url.Text, Base64url.Decoded, Size, Frames.Decode, Frames.DecodeClose, Frames.ClosePayload, ReadyHost,
      DeviceOf, LiveCount, Touch, NextDeadline, CloseAll, OversizedTarget, DeviceMessage, ProofAcceptable;
    if e.HostAttaches? {
      Base64url.DecodeEncode(e.challenge);
    } else if e.DeviceSends? {
      SendsKeepHosts(s, now, e.device, e.sent);
    }
  }

  lemma SendsKeepHosts(s: State, now: int, d: nat, m: Message)
    requires d < |s.devices|
    ensures DeviceMessage(s, now, d, m).hosts == s.hosts && DeviceMessage(s, now, d, m).verifying == s.verifying
  {
    hide Size, Touch, ReadyHost, CloseFrame, Carrier;
  }

  lemma {:induction false} EverySound(s: State, clock: int, run: seq<Timed>)
    requires Sound(s.hosts) && Legal(s, clock, run)
    ensures Sound(Exec(s, clock, run).hosts)
    decreases |run|
  {
    hide Sound, Step, Enabled;
    if run != [] {
      StepSound(s, run[0].at, run[0].event);
      EverySound(Step(s, run[0].at, run[0].event), run[0].at, run[1..]);
    }
  }

  /** Thirty-two bytes offered as text, in time. */
  predicate ProofInTime(link: HostLink, now: int, e: Event) {
    && e.HostSends? && now <= link.deadline && e.sent.Text? && e.field.Some?
    && Base64url.Decoded(e.field.value).Some? && |Base64url.Decoded(e.field.value).value| == 32
  }

  datatype Fate = Stays | Wins | Ends(code: Option<int>)

  /** What the step does to the host link `h`. */
  ghost function FateOf(s: State, now: int, e: Event, h: nat): Fate
    requires Enabled(s, now, e) && h < |s.hosts|
  {
    var link := s.hosts[h];
    if e.HostSends? && e.host == h then
      if TooLarge(s, e) then Ends(Some(CLOSE_TOO_BIG))
      else if link.stage == AwaitProof && Size(e.sent) <= HOST_CAP && !ProofInTime(link, now, e) then Ends(Some(CLOSE_BAD_PROOF))
      else Stays
    else if e.HostCloses? && e.host == h then Ends(None)
    else if e.AlarmFires? && link.stage == AwaitProof && link.deadline <= now then Ends(Some(CLOSE_BAD_PROOF))
    else if e.Judged? && s.verifying[e.proof].link == h then
      if link.expected == Some(s.verifying[e.proof].offered) then Wins else Ends(Some(CLOSE_BAD_PROOF))
    else if Matches(s, e) && link.stage == Ready then Ends(Some(CLOSE_REPLACED))
    else Stays
  }

  /** A host link after a step: it wins by a proof that matches; it ends with the
      code of what ended it; and nothing else touches it. */
  lemma HostFate(s: State, clock: int, now: int, e: Event, h: nat)
    requires Core(s, clock) && Sound(s.hosts) && Enabled(s, now, e) && h < |s.hosts|
    ensures var s', link, fate := Step(s, now, e), s.hosts[h], FateOf(s, now, e, h);
      && h < |s'.hosts|
      && s'.hosts[h] == (if fate.Wins? then link.(stage := Ready)
                         else if fate.Ends? then link.(stage := Gone, farewell := Bid(link.farewell, fate.code))
                         else link)
      && (fate.Wins? ==> s'.log == s.log + [Welcomed(h)])
  {
    hide Core, Utf8.MeasuredSize, Says, Frames.Decode, Frames.ClosePayload, ReadyHost, Base64url.HostKey, Base64url.Text, Base64url.Decoded,
      Touch, NextDeadline, DeviceMessage, OversizedTarget, CloseAll, RouteHostFrame, CloseFrame, LiveCount, TooLarge;
    if e.HostSends? {
      if Size(e.sent) > HOST_CAP { TargetIsMeant(s, clock, e); }
      RoutesKeepHosts(s, now, e);
    } else if e.DeviceSends? {
      SendsKeepHosts(s, now, e.device, e.sent);
    }
  }

  lemma RoutesKeepHosts(s: State, now: int, e: Event)
    requires e.HostSends? && e.host < |s.hosts|
    ensures TooLarge(s, e) ==> Size(e.sent) > HOST_CAP
    ensures e.sent.Binary? ==> RouteHostFrame(s, now, e.sent.bytes).hosts == s.hosts
    ensures e.sent.Binary? ==> RouteHostFrame(s, now, e.sent.bytes).verifying == s.verifying
  {
    hide Size, Frames.Decode, Frames.DecodeClose, DeviceOf, Touch;
  }

  /** A proof goes under examination exactly when it is thirty-two bytes in time
      on a pending link, with its time; a verdict takes its proof off. */
  lemma Examined(s: State, clock: int, now: int, e: Event)
    requires Core(s, clock) && Sound(s.hosts) && Enabled(s, now, e) && !e.Judged?
    ensures Step(s, now, e).verifying
            == s.verifying
               + if e.HostSends? && s.hosts[e.host].stage == AwaitProof && Size(e.sent) <= HOST_CAP && ProofInTime(s.hosts[e.host], now, e)
                 then [Verification(e.host, Base64url.Decoded(e.field.value).value, now)] else []
  {
    hide Core, Utf8.MeasuredSize, Frames.ClosePayload, ReadyHost, Base64url.HostKey, Base64url.Text, Base64url.Decoded, Touch, NextDeadline,
      DeviceMessage, OversizedTarget, CloseAll, RouteHostFrame, CloseFrame, LiveCount;
    if e.HostSends? {
      RoutesKeepHosts(s, now, e);
    } else if e.DeviceSends? {
      SendsKeepHosts(s, now, e.device, e.sent);
    }
  }

  /** A claim is taken exactly for the id of a key; it waits ten seconds for the
      proof of the challenge it is sent. */
  lemma ClaimStarts(s: State, now: int, hostId: string, challenge: seq<Byte>, expected: Option<seq<Byte>>)
    ensures var s' := AttachHost(s, now, hostId, challenge, expected);
      if Base64url.HostKey(hostId).Some? then
        && |s'.hosts| == |s.hosts| + 1 && s'.hosts[..|s.hosts|] == s.hosts
        && Base64url.Decoded(s'.hosts[|s.hosts|].nonce) == Some(challenge)
        && s'.hosts[|s.hosts|] == HostLink(AwaitProof, hostId, s'.hosts[|s.hosts|].nonce, expected, now + 10_000, None)
        && s'.log == s.log + [Challenged(|s.hosts|)]
        && s'.alarm == Some(if s.alarm.Some? && s.alarm.value <= now + 10_000 then s.alarm.value else now + 10_000)
      else s' == s
  {
    hide Base64url.HostKey, Base64url.Text, Base64url.Decoded;
    Base64url.DecodeEncode(challenge);
  }

  /** After an alarm the next one is for the first of the deadlines still pending,
      and there is none when no link is pending. */
  lemma AlarmIsFirst(s: State, now: int)
    ensures var s' := Alarm(s, now);
      && (s'.alarm.None? <==> forall h :: 0 <= h < |s'.hosts| ==> s'.hosts[h].stage != AwaitProof)
      && (s'.alarm.Some? ==>
            && (forall h :: 0 <= h < |s'.hosts| && s'.hosts[h].stage == AwaitProof ==> s'.alarm.value <= s'.hosts[h].deadline)
            && exists h :: 0 <= h < |s'.hosts| && s'.hosts[h].stage == AwaitProof && s'.hosts[h].deadline == s'.alarm.value)
  {
    hide NextDeadline;
    var s' := Alarm(s, now);
    DeadlineOfOne(s.hosts, now);
    if s'.alarm.Some? {
      var h :| 0 <= h < |s.hosts| && s.hosts[h].stage == AwaitProof && now < s.hosts[h].deadline == s'.alarm.value;
      assert s'.hosts[h] == s.hosts[h];
    }
  }

  lemma {:induction false} DeadlineOfOne(hosts: seq<HostLink>, now: int)
    ensures var at := NextDeadline(hosts, now);
      at.Some? ==> exists h :: 0 <= h < |hosts| && hosts[h].stage == AwaitProof && now < hosts[h].deadline == at.value
  {
    var at := NextDeadline(hosts, now);
    if at.Some? {
      var init, last := hosts[..|hosts| - 1], |hosts| - 1;
      DeadlineOfOne(init, now);
      if NextDeadline(init, now) == at {
        var h :| 0 <= h < |init| && init[h].stage == AwaitProof && now < init[h].deadline == at.value;
        assert hosts[h] == init[h];
      } else {
        assert hosts[last].deadline == at.value;
      }
    }
  }

  // -- notifications --------------------------------------------------------

  /** The event is a NOTIFY frame from the ready host. */
  ghost predicate Notifies(s: State, e: Event)
    requires e.HostSends? ==> e.host < |s.hosts|
  {
    FromReady(s, e) && |e.sent.bytes| <= HOST_CAP && exists c: int :: 0 <= c < Frames.TWO_32 && Says(e.sent.bytes, Frames.NOTIFY, c)
  }

  lemma KindRead(bytes: seq<Byte>)
    ensures (exists c: int :: 0 <= c < Frames.TWO_32 && Says(bytes, Frames.NOTIFY, c))
            <==> Frames.Decode(bytes).Some? && Frames.Decode(bytes).value.kind == Frames.NOTIFY
  {
    hide Frames.Decode, Says;
    Frames.EncodeDecode(bytes);
    var f := Frames.Decode(bytes);
    if f.Some? && f.value.kind == Frames.NOTIFY {
      SaysDecodes(bytes, Frames.NOTIFY, f.value.connId);
    }
    forall c: int | 0 <= c < Frames.TWO_32 && Says(bytes, Frames.NOTIFY, c)
      ensures f.Some? && f.value.kind == Frames.NOTIFY
    {
      SaysDecodes(bytes, Frames.NOTIFY, c);
    }
  }

  /** Every NOTIFY frame of the ready host is put to the budget, and nothing else
      is. */
  lemma NotifyHeard(s: State, now: int, e: Event)
    requires Enabled(s, now, e)
    ensures NotifyTimes(Step(s, now, e).log) == NotifyTimes(s.log) + if s.apns && Notifies(s, e) then [now] else []
  {
    hide NotifyTimes, Says, Frames.Encode, HostMessage, Frames.Decode;
    if e.HostSends? {
      hide Notifies;
      HostNotifies(s, now, e);
    } else {
      hide Step;
      OthersQuiet(s, now, e);
      var log := Step(s, now, e).log;
      NotifyQuiet(s.log, log[|s.log|..]);
      assert log == s.log + log[|s.log|..];
    }
  }

  lemma OthersQuiet(s: State, now: int, e: Event)
    requires Enabled(s, now, e) && !e.HostSends?
    ensures var log := Step(s, now, e).log;
      s.log <= log && forall i :: |s.log| <= i < |log| ==> !log[i].Notified?
  {
    hide Frames.ClosePayload, ReadyHost, Base64url.HostKey, Base64url.Text, Base64url.Decoded, NextDeadline, DeviceMessage, CloseAll,
      CloseFrame, LiveCount;
    if e.DeviceSends? {
      SendsQuiet(s, now, e.device, e.sent);
    }
  }

  lemma HostNotifies(s: State, now: int, e: Event)
    requires e.HostSends? && e.host < |s.hosts|
    ensures var log := HostMessage(s, now, e.host, e.sent, e.field).log;
      s.log <= log && NotifyTimes(log) == NotifyTimes(s.log) + if s.apns && Notifies(s, e) then [now] else []
  {
    hide Size, Says, Frames.Decode, ReadyHost, OversizedTarget, CloseAll, EndDevice, RouteHostFrame, ProofAcceptable, Offered, NotifyTimes;
    if FromReady(s, e) && |e.sent.bytes| <= HOST_CAP {
      KindRead(e.sent.bytes);
      RouteNotifies(s, now, e.sent.bytes);
      BinarySize(e.sent);
    } else if e.sent.Binary? && s.hosts[e.host].stage == Ready {
      BinarySize(e.sent);
      EndQuiet(s, OversizedTarget(s, e.host, e.sent).GetOr(0));
    } else {
      EndQuiet(s, OversizedTarget(s, e.host, e.sent).GetOr(0));
    }
  }

  lemma BinarySize(m: Message)
    requires m.Binary?
    ensures Size(m) == |m.bytes|
  {
  }

  lemma EndQuiet(s: State, d: nat)
    ensures d < |s.devices| ==>
              var log := EndDevice(s, d, Some(CLOSE_TOO_BIG), CLOSE_TOO_BIG, Ascii("message too large")).log;
              s.log <= log && NotifyTimes(log) == NotifyTimes(s.log)
  {
    hide NotifyTimes, ReadyHost, CloseFrame;
    if d < |s.devices| {
      NotifyQuiet(s.log, TellHost(s.hosts, CloseFrame(s.devices[d].connId, CLOSE_TOO_BIG, Ascii("message too large"))));
    }
  }

  lemma RouteNotifies(s: State, now: int, bytes: seq<Byte>)
    ensures var log, f := RouteHostFrame(s, now, bytes).log, Frames.Decode(bytes);
      && s.log <= log
      && NotifyTimes(log) == NotifyTimes(s.log) + if s.apns && f.Some? && f.value.kind == Frames.NOTIFY then [now] else []
  {
    hide Frames.Decode, Frames.DecodeClose, Touch, DeviceOf, NotifyTimes;
    var log, f := RouteHostFrame(s, now, bytes).log, Frames.Decode(bytes);
    if s.apns && f.Some? && f.value.kind == Frames.NOTIFY {
      OneNotify(s.log, log[|s.log|].at, log[|s.log|].allowed);
    } else {
      NotifyQuiet(s.log, log[|s.log|..]);
      assert log == s.log + log[|s.log|..];
    }
  }

  lemma OneNotify(log: seq<Entry>, at: int, allowed: bool)
    ensures NotifyTimes(log + [Notified(at, allowed)]) == NotifyTimes(log) + [at]
  {
    assert (log + [Notified(at, allowed)])[..|log|] == log;
  }

  lemma SendsQuiet(s: State, now: int, d: nat, m: Message)
    requires d < |s.devices|
    ensures var log := DeviceMessage(s, now, d, m).log;
      s.log <= log && forall i :: |s.log| <= i < |log| ==> !log[i].Notified?
  {
    hide Size, Touch, ReadyHost, CloseFrame, Carrier;
  }

  /** When the run brings NOTIFY frames from the host that is ready. */
  ghost function Notices(s: State, clock: int, run: seq<Timed>): seq<int>
    requires Legal(s, clock, run)
    decreases |run|
  {
    if run == [] then []
    else
      (if s.apns && Notifies(s, run[0].event) then [run[0].at] else [])
      + Notices(Step(s, run[0].at, run[0].event), run[0].at, run[1..])
  }

  lemma {:induction false} RunNotices(s: State, clock: int, run: seq<Timed>)
    requires Legal(s, clock, run)
    ensures NotifyTimes(Exec(s, clock, run).log) == NotifyTimes(s.log) + Notices(s, clock, run)
    decreases |run|
  {
    hide Step, Enabled, Notifies, NotifyTimes;
    if run != [] {
      NotifyHeard(s, run[0].at, run[0].event);
      RunNotices(Step(s, run[0].at, run[0].event), run[0].at, run[1..]);
    }
  }

  /** After every run, a NOTIFY frame of the ready host: it is let through exactly
      when its window holds no more than the limit of such frames, windows being
      counted from time zero over every host link there has been; and a window
      holds more only when more than the limit came within one window's length. */
  lemma EveryNotice(apns: bool, clock: int, run: seq<Timed>, now: int, e: Event)
    requires 0 <= clock && Legal(Initial(apns), clock, run) && ClockAfter(clock, run) <= now
    requires Enabled(Exec(Initial(apns), clock, run), now, e) && Notifies(Exec(Initial(apns), clock, run), e) && apns
    ensures var s, times := Exec(Initial(apns), clock, run), Notices(Initial(apns), clock, run) + [now];
      Step(s, now, e).log == s.log + [Notified(now, !R.Spent(0, NOTIFY_LIMIT_FRAMES, NOTIFY_LIMIT_WINDOW_MS, times))]
    ensures var times := Notices(Initial(apns), clock, run) + [now];
      R.Spent(0, NOTIFY_LIMIT_FRAMES, NOTIFY_LIMIT_WINDOW_MS, times) ==>
        exists lo :: Crowded(times, lo, now, NOTIFY_LIMIT_FRAMES) && lo <= now < lo + NOTIFY_LIMIT_WINDOW_MS
  {
    hide Legal, Exec, Notices, NotifyTimes, AllowedTimes, After, R.Spent, Crowded, Says, LiveCount, Mirrored, IdsAscend, OneReady,
      AlarmCovers, ProofsInTime, Frames.Decode, Touch, ClockAfter;
    var s := Exec(Initial(apns), clock, run);
    var past := Notices(Initial(apns), clock, run);
    EveryRun(apns, clock, run);
    RunNotices(Initial(apns), clock, run);
    KeepsApns(Initial(apns), clock, run);
    NoNotices();
    assert past == NotifyTimes(s.log);
    KindRead(e.sent.bytes);
    AfterStep(FRESH_RATE, NOTIFY_LIMIT_WINDOW_MS, past, now);
    R.CountSpent(0, NOTIFY_LIMIT_FRAMES, NOTIFY_LIMIT_WINDOW_MS, past + [now]);
    if R.Spent(0, NOTIFY_LIMIT_FRAMES, NOTIFY_LIMIT_WINDOW_MS, past + [now]) {
      RefusedWhenFull(FRESH_RATE, NOTIFY_LIMIT_FRAMES, NOTIFY_LIMIT_WINDOW_MS, past + [now]);
    }
  }

  lemma NoNotices()
    ensures NotifyTimes([]) == []
  {
  }

  lemma StepApns(s: State, now: int, e: Event)
    requires Enabled(s, now, e)
    ensures Step(s, now, e).apns == s.apns
  {
    hide Base64url.HostKey, Base64url.Text, Base64url.Decoded, Size, Frames.Decode, Frames.DecodeClose, Frames.ClosePayload, ReadyHost,
      DeviceOf, LiveCount, Touch, NextDeadline, CloseAll, OversizedTarget, ProofAcceptable, CloseFrame;
  }

  lemma {:induction false} KeepsApns(s: State, clock: int, run: seq<Timed>)
    requires Legal(s, clock, run)
    ensures Exec(s, clock, run).apns == s.apns
    decreases |run|
  {
    hide Step, Enabled;
    if run != [] {
      StepApns(s, run[0].at, run[0].event);
      KeepsApns(Step(s, run[0].at, run[0].event), run[0].at, run[1..]);
    }
  }
}
