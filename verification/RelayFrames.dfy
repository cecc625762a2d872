/** What passes on both sides of the relay: every frame it sends a host fits the
    wire, and a device is sent what the ready host addressed to it. */
module RelayFrames {
  import opened Common
  import opened Limiter
  import opened Relay
  import opened RelayCore
  import Base64url
  import Frames
  import Utf8

  // -- to the host ----------------------------------------------------------

  predicate Fits(log: seq<Entry>) {
    forall i :: 0 <= i < |log| && log[i].ToHost? ==> Frames.Representable(log[i].frame)
  }

  lemma EndDeviceFits(s: State, d: nat, farewell: Option<int>, code: int, reason: seq<Byte>)
    requires Fits(s.log) && IdsAscend(s.devices, s.nextConnId) && d < |s.devices|
    ensures Fits(EndDevice(s, d, farewell, code, reason).log)
  {
    hide Frames.ClosePayload;
  }

  lemma HostMessageFits(s: State, clock: int, now: int, h: nat, m: Message, field: Option<string>)
    requires Core(s, clock) && Fits(s.log) && h < |s.hosts|
    ensures Fits(HostMessage(s, now, h, m, field).log)
  {
    hide Size, EndDevice, LiveCount, NotifyBudgeted, ProofAcceptable, Offered, Frames.Decode, Frames.DecodeClose;
    if Size(m) > MAX_MESSAGE_BYTES + Frames.HEADER_BYTES && OversizedTarget(s, h, m).Some? {
      EndDeviceFits(s, OversizedTarget(s, h, m).value, Some(CLOSE_TOO_BIG), CLOSE_TOO_BIG, Ascii("message too large"));
    }
  }

  lemma DeviceMessageFits(s: State, clock: int, now: int, d: nat, m: Message)
    requires Core(s, clock) && Fits(s.log) && d < |s.devices|
    ensures Fits(DeviceMessage(s, now, d, m).log)
  {
    hide Size, EndDevice, LiveCount, NotifyBudgeted, Utf8.Encode;
    var heard := s.(log := s.log + [Heard(s.devices[d].connId, m)]);
    var touched := heard.(devices := s.devices[d := s.devices[d].(rate := Touch(s.devices[d].rate, now, RATE_LIMIT_WINDOW_MS))]);
    EndDeviceFits(heard, d, Some(CLOSE_TOO_BIG), CLOSE_TOO_BIG, Ascii("message too large"));
    EndDeviceFits(touched, d, Some(CLOSE_RATE_LIMIT), CLOSE_RATE_LIMIT, Ascii("rate limit exceeded"));
    EndDeviceFits(touched, d, Some(CLOSE_NO_HOST), CLOSE_NO_HOST, Ascii("host offline"));
  }

  lemma StepFits(s: State, clock: int, now: int, e: Event)
    requires Core(s, clock) && Fits(s.log) && Enabled(s, now, e)
    ensures Fits(Step(s, now, e).log)
  {
    hide HostMessage, DeviceMessage, EndDevice, LiveCount, NotifyBudgeted, Base64url.HostKey, Base64url.Text;
    match e
    case HostSends(h, m, field) => HostMessageFits(s, clock, now, h, m, field);
    case DeviceSends(d, m) => DeviceMessageFits(s, clock, now, d, m);
    case DeviceCloses(d, code, wasClean, reason) => EndDeviceFits(s, d, None, HostFacingCode(code, wasClean), reason);
    case _ =>
  }

  lemma {:induction false} RunFits(s: State, clock: int, run: seq<Timed>)
    requires Core(s, clock) && Fits(s.log) && Legal(s, clock, run)
    ensures Fits(Exec(s, clock, run).log)
    decreases |run|
  {
    hide Core, Fits, Step, Enabled;
    if run != [] {
      var t := run[0];
      StepFits(s, clock, t.at, t.event);
      StepKeeps(s, clock, t.at, t.event);
      RunFits(Step(s, t.at, t.event), t.at, run[1..]);
    }
  }

  /** Every frame a run ever sends a host link fits the wire, and the host reads
      back the frame that was sent. */
  lemma EveryFrameFits(apns: bool, clock: int, run: seq<Timed>, link: nat, frame: Frames.Frame)
    requires 0 <= clock && Legal(Initial(apns), clock, run)
    requires ToHost(link, frame) in Exec(Initial(apns), clock, run).log
    ensures Frames.Representable(frame) && Frames.Decode(Frames.Encode(frame)) == Some(frame)
  {
    hide Core, Legal, Exec, Frames.Decode, Frames.Encode;
    InitialCore(apns, clock);
    RunFits(Initial(apns), clock, run);
    Frames.DecodeEncode(frame);
  }

  // -- to a device ----------------------------------------------------------

  function DeliveredOf(e: Entry, d: nat): seq<seq<Byte>> {
    if e.ToDevice? && e.device == d then [e.payload] else []
  }

  /** What was sent on the device link `d`, in order. */
  function Delivered(log: seq<Entry>, d: nat): seq<seq<Byte>> {
    if log == [] then [] else Delivered(log[..|log| - 1], d) + DeliveredOf(log[|log| - 1], d)
  }

  ghost predicate Living(devices: seq<DeviceLink>, c: int) {
    exists d :: Live(devices, d) && devices[d].connId == c
  }

  /** The payload the event brings from the ready host for connection `c`. */
  ghost function Addressed(s: State, e: Event, c: int): seq<seq<Byte>>
    requires e.HostSends? ==> e.host < |s.hosts|
  {
    if e.HostSends? && s.hosts[e.host].stage == Ready && e.sent.Binary?
       && |e.sent.bytes| <= MAX_MESSAGE_BYTES + Frames.HEADER_BYTES
       && (exists p: seq<Byte> :: e.sent.bytes == Frames.Encode(Frames.Frame(Frames.DATA, c, p)))
    then [e.sent.bytes[Frames.HEADER_BYTES..]]
    else []
  }

  /** What the run owes connection `c`: what ready hosts address to it while a
      live device answers to it. */
  ghost function Owed(s: State, clock: int, run: seq<Timed>, c: int): seq<seq<Byte>>
    requires Legal(s, clock, run)
    decreases |run|
  {
    if run == [] then []
    else
      (if Living(s.devices, c) then Addressed(s, run[0].event, c) else [])
      + Owed(Step(s, run[0].at, run[0].event), run[0].at, run[1..], c)
  }

  lemma {:induction false} DeliveredAppend(log: seq<Entry>, more: seq<Entry>, d: nat)
    ensures (forall i :: 0 <= i < |more| ==> DeliveredOf(more[i], d) == []) ==> Delivered(log + more, d) == Delivered(log, d)
    ensures |more| == 1 ==> Delivered(log + more, d) == Delivered(log, d) + DeliveredOf(more[0], d)
    decreases |more|
  {
    if more == [] {
      assert log + more == log;
    } else {
      assert (log + more)[..|log + more| - 1] == log + more[..|more| - 1];
      DeliveredAppend(log, more[..|more| - 1], d);
      if |more| == 1 { assert log + more[..0] == log; }
    }
  }

  /** What the bytes of a DATA frame for `c` are, read from the front. */
  lemma AddressedDecodes(s: State, e: Event, c: int)
    requires 0 <= c < Frames.TWO_32
    requires e.HostSends? && e.host < |s.hosts| && s.hosts[e.host].stage == Ready && e.sent.Binary?
    requires |e.sent.bytes| <= MAX_MESSAGE_BYTES + Frames.HEADER_BYTES
    ensures var f := Frames.Decode(e.sent.bytes);
      Addressed(s, e, c)
      == if f.Some? && f.value.kind == Frames.DATA && f.value.connId == c then [f.value.payload] else []
  {
    hide Frames.Encode, Frames.Decode;
    var bytes := e.sent.bytes;
    var f := Frames.Decode(bytes);
    Frames.EncodeDecode(bytes);
    forall p: seq<Byte> | bytes == Frames.Encode(Frames.Frame(Frames.DATA, c, p))
      ensures f == Some(Frames.Frame(Frames.DATA, c, p))
    {
      Frames.DecodeEncode(Frames.Frame(Frames.DATA, c, p));
    }
    if f.Some? {
      PayloadIsRest(bytes);
      if f.value.kind == Frames.DATA && f.value.connId == c {
        assert f.value == Frames.Frame(Frames.DATA, c, f.value.payload);
      }
    }
  }

  lemma PayloadIsRest(bytes: seq<Byte>)
    requires Frames.Decode(bytes).Some?
    ensures Frames.Decode(bytes).value.payload == bytes[Frames.HEADER_BYTES..]
  {
  }

  /** Link `d` answers to `c` once it is there, and nothing live does before. */
  ghost predicate NamedBy(s: State, d: nat, c: int) {
    if d < |s.devices| then s.devices[d].connId == c else !Living(s.devices, c)
  }

  lemma LivingIsOne(s: State, d: nat, c: int)
    requires IdsAscend(s.devices, s.nextConnId) && NamedBy(s, d, c)
    ensures Living(s.devices, c) <==> Live(s.devices, d)
    ensures DeviceOf(s.devices, c) == if Live(s.devices, d) then Some(d) else None
    ensures forall x :: x != c ==> DeviceOf(s.devices, x) != Some(d)
  {
    hide DeviceOf;
    forall i | Live(s.devices, i) && s.devices[i].connId == c
      ensures i == d
    {
      assert d < |s.devices|;
      assert i < d || i == d || d < i;
    }
  }

  lemma RouteDelivers(s: State, now: int, bytes: seq<Byte>, d: nat, c: int)
    requires IdsAscend(s.devices, s.nextConnId) && NamedBy(s, d, c)
    ensures var f := Frames.Decode(bytes);
      Delivered(RouteHostFrame(s, now, bytes).log, d)
      == Delivered(s.log, d)
         + if Live(s.devices, d) && f.Some? && f.value.kind == Frames.DATA && f.value.connId == c
           then [f.value.payload] else []
  {
    hide Frames.Decode, Frames.DecodeClose, Delivered, DeviceOf, IdsAscend, Touch;
    LivingIsOne(s, d, c);
    var s' := RouteHostFrame(s, now, bytes);
    assert s.log <= s'.log;
    DeliveredAppend(s.log, s'.log[|s.log|..], d);
    assert s'.log == s.log + s'.log[|s.log|..];
  }

  lemma EndDeviceDelivers(s: State, d: nat, farewell: Option<int>, code: int, reason: seq<Byte>, to: nat)
    requires d < |s.devices|
    ensures Delivered(EndDevice(s, d, farewell, code, reason).log, to) == Delivered(s.log, to)
  {
    hide Delivered;
    DeliveredAppend(s.log, TellHost(s.hosts, CloseFrame(s.devices[d].connId, code, reason)), to);
  }

  lemma HostMessageDelivers(s: State, now: int, e: Event, d: nat, c: int)
    requires IdsAscend(s.devices, s.nextConnId) && NamedBy(s, d, c) && 1 <= c <= MAX_CONN_ID
    requires e.HostSends? && e.host < |s.hosts|
    ensures Delivered(HostMessage(s, now, e.host, e.sent, e.field).log, d)
            == Delivered(s.log, d) + if Live(s.devices, d) then Addressed(s, e, c) else []
  {
    hide Utf8.MeasuredSize, EndDevice, Delivered, IdsAscend, RouteHostFrame, ProofAcceptable, Offered, Frames.Decode, Frames.Encode;
    if Size(e.sent) > MAX_MESSAGE_BYTES + Frames.HEADER_BYTES {
      if OversizedTarget(s, e.host, e.sent).Some? {
        EndDeviceDelivers(s, OversizedTarget(s, e.host, e.sent).value, Some(CLOSE_TOO_BIG), CLOSE_TOO_BIG, Ascii("message too large"), d);
      }
    } else if s.hosts[e.host].stage == Ready && e.sent.Binary? {
      AddressedDecodes(s, e, c);
      RouteDelivers(s, now, e.sent.bytes, d, c);
    }
  }

  lemma DeviceMessageDelivers(s: State, now: int, d: nat, m: Message, to: nat)
    requires d < |s.devices|
    ensures Delivered(DeviceMessage(s, now, d, m).log, to) == Delivered(s.log, to)
  {
    hide Size, EndDevice, Delivered, Carrier, Utf8.Encode;
    var heard := s.(log := s.log + [Heard(s.devices[d].connId, m)]);
    var touched := heard.(devices := s.devices[d := s.devices[d].(rate := Touch(s.devices[d].rate, now, RATE_LIMIT_WINDOW_MS))]);
    DeliveredAppend(s.log, [Heard(s.devices[d].connId, m)], to);
    EndDeviceDelivers(heard, d, Some(CLOSE_TOO_BIG), CLOSE_TOO_BIG, Ascii("message too large"), to);
    EndDeviceDelivers(touched, d, Some(CLOSE_RATE_LIMIT), CLOSE_RATE_LIMIT, Ascii("rate limit exceeded"), to);
    EndDeviceDelivers(touched, d, Some(CLOSE_NO_HOST), CLOSE_NO_HOST, Ascii("host offline"), to);
    if ReadyHost(s.hosts).Some? {
      DeliveredAppend(heard.log, [ToHost(ReadyHost(s.hosts).value, Carrier(s.devices[d].connId, m))], to);
    }
  }

  lemma OthersDeliver(s: State, now: int, e: Event, d: nat)
    requires Enabled(s, now, e) && !e.HostSends?
    ensures Delivered(Step(s, now, e).log, d) == Delivered(s.log, d)
  {
    hide EndDevice, DeviceMessage, Delivered, Base64url.HostKey, Base64url.Text, CloseAll;
    if e.DeviceSends? {
      DeviceMessageDelivers(s, now, e.device, e.sent, d);
    } else if e.DeviceCloses? {
      EndDeviceDelivers(s, e.device, None, HostFacingCode(e.code, e.wasClean), e.reason, d);
    } else {
      var s' := Step(s, now, e);
      assert s.log <= s'.log;
      DeliveredAppend(s.log, s'.log[|s.log|..], d);
      assert s'.log == s.log + s'.log[|s.log|..];
    }
  }

  lemma StepDelivers(s: State, clock: int, now: int, e: Event, d: nat, c: int)
    requires Core(s, clock) && Enabled(s, now, e) && NamedBy(s, d, c) && 1 <= c <= MAX_CONN_ID
    ensures Delivered(Step(s, now, e).log, d)
            == Delivered(s.log, d) + if Living(s.devices, c) then Addressed(s, e, c) else []
  {
    hide Delivered, HostMessage, DeviceMessage, Living, LiveCount, NotifyBudgeted;
    LivingIsOne(s, d, c);
    if e.HostSends? {
      HostMessageDelivers(s, now, e, d, c);
    } else {
      OthersDeliver(s, now, e, d);
    }
  }

  lemma {:induction false} RunDelivers(s: State, clock: int, run: seq<Timed>, d: nat, c: int)
    requires Core(s, clock) && Legal(s, clock, run)
    requires d < |Exec(s, clock, run).devices| && Exec(s, clock, run).devices[d].connId == c
    ensures Delivered(Exec(s, clock, run).log, d) == Delivered(s.log, d) + Owed(s, clock, run, c)
    decreases |run|
  {
    hide Core, Delivered, Step, Enabled, Addressed, Living;
    if run != [] {
      var t := run[0];
      var s' := Step(s, t.at, t.event);
      NamedThroughout(s, clock, run, d);
      StepDelivers(s, clock, t.at, t.event, d, c);
      StepKeeps(s, clock, t.at, t.event);
      RunDelivers(s', t.at, run[1..], d, c);
    }
  }

  lemma NamedThroughout(s: State, clock: int, run: seq<Timed>, d: nat)
    requires Core(s, clock) && Legal(s, clock, run) && d < |Exec(s, clock, run).devices|
    ensures NamedBy(s, d, Exec(s, clock, run).devices[d].connId)
    ensures 1 <= Exec(s, clock, run).devices[d].connId <= MAX_CONN_ID
  {
    hide Legal, Exec, LiveCount, NotifyBudgeted;
    RunKeeps(s, clock, run);
    RunSameIds(s, clock, run);
  }

  /** Over every run, what was sent on a device link is exactly what ready hosts
      addressed to its connection while it lived, in that order. */
  lemma EveryDelivery(apns: bool, clock: int, run: seq<Timed>, d: nat)
    requires 0 <= clock && Legal(Initial(apns), clock, run)
    requires d < |Exec(Initial(apns), clock, run).devices|
    ensures var s := Exec(Initial(apns), clock, run);
      Delivered(s.log, d) == Owed(Initial(apns), clock, run, s.devices[d].connId)
  {
    hide Legal, Exec, Owed, Core;
    InitialCore(apns, clock);
    RunDelivers(Initial(apns), clock, run, d, Exec(Initial(apns), clock, run).devices[d].connId);
  }
}
