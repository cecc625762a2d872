/** What one relay object holds and what each of its handlers does to it
    (relay/src/host-relay.ts). Sockets are numbered in the order they were
    accepted, one numbering for host links and one for device links; a socket
    that ended keeps its number, marked `Gone` or `closed`. */
module Relay {
  import opened Common
  import opened Limiter
  import Base64url
  import Frames
  import Utf8

  const MAX_DEVICES: nat := 8
  const MAX_MESSAGE_BYTES: nat := 4 * 1024 * 1024
  const RATE_LIMIT_MESSAGES: nat := 100
  const RATE_LIMIT_WINDOW_MS: nat := 10_000
  const NOTIFY_LIMIT_FRAMES: nat := 30
  const NOTIFY_LIMIT_WINDOW_MS: nat := 60_000
  const HOST_AUTH_TIMEOUT_MS: nat := 10_000
  const CLOSE_BAD_PROOF: int := 4003
  const CLOSE_NO_HOST: int := 4404
  const CLOSE_REPLACED: int := 4409
  const CLOSE_TOO_MANY: int := 4429
  const CLOSE_TOO_BIG: int := 1009
  const CLOSE_RATE_LIMIT: int := 1008
  const MAX_CONN_ID: int := 0xffff_ffff

  datatype Stage = AwaitProof | Ready | Gone

  /** `expected` is the proof the crypto library computes for the link: it depends
      on the link's key pair, its nonce and its host key alone, so every verdict
      on one link compares with the same bytes; None when the library rejects the
      key. `farewell` is the first close code the relay itself sent on the socket. */
  datatype HostLink = HostLink(
    stage: Stage,
    hostId: string,
    nonce: string,
    expected: Option<seq<Byte>>,
    deadline: int,
    farewell: Option<int>)

  datatype DeviceLink = DeviceLink(connId: int, closed: bool, rate: Window, farewell: Option<int>)

  datatype Message = Text(units: seq<Unit>) | Binary(bytes: seq<Byte>)

  /** A proof handed to the crypto library, not yet judged. */
  datatype Verification = Verification(link: nat, offered: seq<Byte>, arrived: int)

  /** What passed through the relay, in order. */
  datatype Entry =
    | Challenged(link: nat)
    | Welcomed(link: nat)
    | ToHost(link: nat, frame: Frames.Frame)
    | ToDevice(device: nat, payload: seq<Byte>)
    | Heard(connId: int, message: Message)
    | Notified(at: int, allowed: bool)

  /** `nextConnId` and `notifyRate` live on the instance and die with it; the
      `saved` fields and the alarm are in storage. */
  datatype State = State(
    apns: bool,
    hosts: seq<HostLink>,
    devices: seq<DeviceLink>,
    nextConnId: int,
    notifyRate: Window,
    savedConnId: Option<int>,
    savedRate: Option<Window>,
    alarm: Option<int>,
    verifying: seq<Verification>,
    log: seq<Entry>)

  const FRESH_RATE := Window(0, 0)

  function Initial(apns: bool): State {
    State(apns, [], [], 1, FRESH_RATE, None, None, None, [], [])
  }

  // -- lookups --------------------------------------------------------------

  function ReadyHost(hosts: seq<HostLink>): (h: Option<nat>)
    ensures h.Some? ==> h.value < |hosts| && hosts[h.value].stage == Ready
    ensures h.None? ==> forall i :: 0 <= i < |hosts| ==> hosts[i].stage != Ready
  {
    if hosts == [] then None
    else if hosts[|hosts| - 1].stage == Ready && ReadyHost(hosts[..|hosts| - 1]).None? then Some(|hosts| - 1)
    else ReadyHost(hosts[..|hosts| - 1])
  }

  function LiveCount(devices: seq<DeviceLink>): nat {
    if devices == [] then 0
    else LiveCount(devices[..|devices| - 1]) + if devices[|devices| - 1].closed then 0 else 1
  }

  predicate Live(devices: seq<DeviceLink>, d: int) {
    0 <= d < |devices| && !devices[d].closed
  }

  function DeviceOf(devices: seq<DeviceLink>, connId: int): (d: Option<nat>)
    ensures d.Some? ==> Live(devices, d.value) && devices[d.value].connId == connId
    ensures d.None? ==> forall i :: Live(devices, i) ==> devices[i].connId != connId
  {
    if devices == [] then None
    else
      var earlier := DeviceOf(devices[..|devices| - 1], connId);
      if earlier.Some? then earlier
      else if Live(devices, |devices| - 1) && devices[|devices| - 1].connId == connId then Some(|devices| - 1)
      else None
  }

  function Size(m: Message): nat {
    match m
    case Text(units) => Utf8.MeasuredSize(units, MAX_MESSAGE_BYTES)
    case Binary(bytes) => |bytes|
  }

  function Ascii(s: string): seq<Byte> {
    seq(|s|, i requires 0 <= i < |s| => s[i] as int % 256)
  }

  /** The first close code sent on a socket is the one that counts. */
  function Bid(farewell: Option<int>, code: Option<int>): Option<int> {
    if farewell.Some? then farewell else code
  }

  // -- transitions shared by the handlers -----------------------------------

  function CloseAll(devices: seq<DeviceLink>): seq<DeviceLink> {
    seq(|devices|, i requires 0 <= i < |devices| =>
      if devices[i].closed then devices[i]
      else devices[i].(closed := true, farewell := Bid(devices[i].farewell, Some(CLOSE_NO_HOST))))
  }

  /** A host link ends. `seen` is the stage its handler read off the socket. */
  function Retire(s: State, h: nat, seen: Stage, code: Option<int>): State
    requires h < |s.hosts|
  {
    s.(hosts := s.hosts[h := s.hosts[h].(stage := Gone, farewell := Bid(s.hosts[h].farewell, code))],
       devices := if seen == Ready then CloseAll(s.devices) else s.devices)
  }

  predicate OtherReady(hosts: seq<HostLink>, h: nat) {
    exists i :: 0 <= i < |hosts| && i != h && hosts[i].stage == Ready
  }

  function Evict(link: HostLink): HostLink {
    if link.stage == Ready then link.(stage := Gone, farewell := Bid(link.farewell, Some(CLOSE_REPLACED))) else link
  }

  function Promote(s: State, h: nat): State
    requires h < |s.hosts|
  {
    s.(hosts := seq(|s.hosts|, i requires 0 <= i < |s.hosts| =>
         if i == h then s.hosts[h].(stage := Ready) else Evict(s.hosts[i])),
       devices := if OtherReady(s.hosts, h) then CloseAll(s.devices) else s.devices,
       log := s.log + [Welcomed(h)])
  }

  function CloseFrame(connId: int, code: int, reason: seq<Byte>): Frames.Frame {
    Frames.Frame(Frames.CLOSE, connId, Frames.ClosePayload(code, reason))
  }

  function TellHost(hosts: seq<HostLink>, frame: Frames.Frame): seq<Entry> {
    match ReadyHost(hosts)
    case Some(h) => [ToHost(h, frame)]
    case None => []
  }

  /** The device link `d` ends, and the host is told. */
  function EndDevice(s: State, d: nat, farewell: Option<int>, code: int, reason: seq<Byte>): State
    requires d < |s.devices|
  {
    if s.devices[d].closed then s
    else
      s.(devices := s.devices[d := s.devices[d].(closed := true, farewell := Bid(s.devices[d].farewell, farewell))],
         log := s.log + TellHost(s.hosts, CloseFrame(s.devices[d].connId, code, reason)))
  }

  // -- host links -----------------------------------------------------------

  function EarlierAlarm(alarm: Option<int>, at: int): Option<int> {
    if alarm.None? || alarm.value > at then Some(at) else alarm
  }

  function AttachHost(s: State, now: int, hostId: string, challenge: seq<Byte>, expected: Option<seq<Byte>>): State {
    if Base64url.HostKey(hostId).None? then s
    else
      var deadline := now + HOST_AUTH_TIMEOUT_MS;
      s.(hosts := s.hosts + [HostLink(AwaitProof, hostId, Base64url.Text(challenge), expected, deadline, None)],
         log := s.log + [Challenged(|s.hosts|)],
         alarm := EarlierAlarm(s.alarm, deadline))
  }

  /** The proof bytes in a message's `proof` field, if it has one. */
  function Offered(field: Option<string>): Option<seq<Byte>> {
    if field.None? then None
    else
      var bytes := Base64url.Decoded(field.value);
      if bytes.Some? && |bytes.value| == 32 then bytes else None
  }

  predicate ProofAcceptable(link: HostLink, now: int, m: Message, field: Option<string>) {
    && now <= link.deadline
    && m.Text?
    && Offered(field).Some?
    && Base64url.Decoded(link.nonce).Some?
    && Base64url.HostKey(link.hostId).Some?
  }

  function HandleProof(s: State, now: int, h: nat, m: Message, field: Option<string>): State
    requires h < |s.hosts|
  {
    if ProofAcceptable(s.hosts[h], now, m, field) then
      s.(verifying := s.verifying + [Verification(h, Offered(field).value, now)])
    else Retire(s, h, AwaitProof, Some(CLOSE_BAD_PROOF))
  }

  function Without<T>(xs: seq<T>, v: nat): seq<T>
    requires v < |xs|
  {
    xs[..v] + xs[v + 1..]
  }

  /** The crypto library answers for the verification `v`. The handler still
      holds the state it read when the proof arrived, so a failure counts the
      link as pending whatever has become of it. */
  function Verdict(s: State, v: nat): State
    requires v < |s.verifying| && s.verifying[v].link < |s.hosts|
  {
    var proof := s.verifying[v];
    var rest := s.(verifying := Without(s.verifying, v));
    if s.hosts[proof.link].expected == Some(proof.offered) then Promote(rest, proof.link)
    else Retire(rest, proof.link, AwaitProof, Some(CLOSE_BAD_PROOF))
  }

  function Notify(s: State, now: int): State {
    if !s.apns then s
    else
      var rate := Touch(s.notifyRate, now, NOTIFY_LIMIT_WINDOW_MS);
      s.(notifyRate := rate, savedRate := Some(rate),
         log := s.log + [Notified(now, rate.count <= NOTIFY_LIMIT_FRAMES)])
  }

  function RouteHostFrame(s: State, now: int, bytes: seq<Byte>): State {
    match Frames.Decode(bytes)
    case None => s
    case Some(frame) =>
      if frame.kind == Frames.NOTIFY then Notify(s, now)
      else
        match DeviceOf(s.devices, frame.connId)
        case None => s
        case Some(d) =>
          if frame.kind == Frames.DATA then s.(log := s.log + [ToDevice(d, frame.payload)])
          else if frame.kind == Frames.CLOSE then
            var info := Frames.DecodeClose(frame.payload);
            var code := if info.Some? then info.value.code else 1000;
            s.(devices := s.devices[d := s.devices[d].(closed := true, farewell := Bid(s.devices[d].farewell, Some(code)))])
          else s
  }

  function OversizedTarget(s: State, h: nat, m: Message): (d: Option<nat>)
    requires h < |s.hosts|
    ensures d.Some? ==> d.value < |s.devices|
  {
    if s.hosts[h].stage != Ready || m.Text? || |m.bytes| < Frames.HEADER_BYTES then None
    else
      match Frames.Decode(m.bytes[..Frames.HEADER_BYTES])
      case None => None
      case Some(header) => if header.kind == Frames.DATA then DeviceOf(s.devices, header.connId) else None
  }

  function HostMessage(s: State, now: int, h: nat, m: Message, field: Option<string>): State
    requires h < |s.hosts|
  {
    if Size(m) > MAX_MESSAGE_BYTES + Frames.HEADER_BYTES then
      match OversizedTarget(s, h, m)
      case Some(d) => EndDevice(s, d, Some(CLOSE_TOO_BIG), CLOSE_TOO_BIG, Ascii("message too large"))
      case None => Retire(s, h, s.hosts[h].stage, Some(CLOSE_TOO_BIG))
    else if s.hosts[h].stage == AwaitProof then HandleProof(s, now, h, m, field)
    else if s.hosts[h].stage == Ready && m.Binary? then RouteHostFrame(s, now, m.bytes)
    else s
  }

  function HostClosed(s: State, h: nat): State
    requires h < |s.hosts|
  {
    Retire(s, h, s.hosts[h].stage, None)
  }

  predicate Overdue(link: HostLink, now: int) {
    link.stage == AwaitProof && link.deadline <= now
  }

  /** The earliest deadline of the links still pending after `now`. */
  function NextDeadline(hosts: seq<HostLink>, now: int): (at: Option<int>)
    ensures at.None? ==> forall i :: 0 <= i < |hosts| && hosts[i].stage == AwaitProof ==> hosts[i].deadline <= now
    ensures at.Some? ==> forall i :: 0 <= i < |hosts| && hosts[i].stage == AwaitProof && hosts[i].deadline > now
                                     ==> at.value <= hosts[i].deadline
  {
    if hosts == [] then None
    else
      var last := hosts[|hosts| - 1];
      var earlier := NextDeadline(hosts[..|hosts| - 1], now);
      if last.stage == AwaitProof && last.deadline > now then EarlierAlarm(earlier, last.deadline) else earlier
  }

  function Alarm(s: State, now: int): State {
    s.(hosts := seq(|s.hosts|, i requires 0 <= i < |s.hosts| =>
         if Overdue(s.hosts[i], now)
         then s.hosts[i].(stage := Gone, farewell := Bid(s.hosts[i].farewell, Some(CLOSE_BAD_PROOF)))
         else s.hosts[i]),
       alarm := NextDeadline(s.hosts, now))
  }

  // -- device links ---------------------------------------------------------

  datatype Answer = Accepted(socket: nat) | Refused(code: int)

  function Admission(s: State): Answer {
    if ReadyHost(s.hosts).None? then Refused(CLOSE_NO_HOST)
    else if LiveCount(s.devices) >= MAX_DEVICES then Refused(CLOSE_TOO_MANY)
    else if s.nextConnId > MAX_CONN_ID then Refused(CLOSE_TOO_MANY)
    else Accepted(|s.devices|)
  }

  function AttachDevice(s: State, now: int): State {
    if Admission(s).Refused? then s
    else
      s.(nextConnId := s.nextConnId + 1,
         savedConnId := Some(s.nextConnId + 1),
         devices := s.devices + [DeviceLink(s.nextConnId, false, Window(now, 0), None)],
         log := s.log + [ToHost(ReadyHost(s.hosts).value, Frames.Frame(Frames.OPEN, s.nextConnId, []))])
  }

  /** The frame a device's message rides to the host in. */
  function Carrier(connId: int, m: Message): Frames.Frame {
    match m
    case Text(units) => Frames.Frame(Frames.TEXT, connId, Utf8.Encode(units))
    case Binary(bytes) => Frames.Frame(Frames.DATA, connId, bytes)
  }

  function DeviceMessage(s0: State, now: int, d: nat, m: Message): State
    requires d < |s0.devices|
  {
    var s := s0.(log := s0.log + [Heard(s0.devices[d].connId, m)]);
    if Size(m) > MAX_MESSAGE_BYTES then
      EndDevice(s, d, Some(CLOSE_TOO_BIG), CLOSE_TOO_BIG, Ascii("message too large"))
    else
      var rate := Touch(s.devices[d].rate, now, RATE_LIMIT_WINDOW_MS);
      var touched := s.(devices := s.devices[d := s.devices[d].(rate := rate)]);
      if rate.count > RATE_LIMIT_MESSAGES then
        EndDevice(touched, d, Some(CLOSE_RATE_LIMIT), CLOSE_RATE_LIMIT, Ascii("rate limit exceeded"))
      else
        match ReadyHost(s.hosts)
        case None => EndDevice(touched, d, Some(CLOSE_NO_HOST), CLOSE_NO_HOST, Ascii("host offline"))
        case Some(h) => touched.(log := touched.log + [ToHost(h, Carrier(s.devices[d].connId, m))])
  }

  /** The code the host sees for a device link that ended on its own. */
  function HostFacingCode(code: int, wasClean: bool): int {
    if !wasClean then 1006
    else if code < 1000 || code > 4999 || code == 1005 || code == 1006 then 1006
    else code
  }

  function DeviceClosed(s: State, d: nat, code: int, wasClean: bool, reason: seq<Byte>): State
    requires d < |s.devices|
  {
    EndDevice(s, d, None, HostFacingCode(code, wasClean), reason)
  }

  // -- the object -----------------------------------------------------------

  /** Eviction and the next wake: the instance is rebuilt from storage. */
  function Hibernate(s: State): State {
    s.(nextConnId := s.savedConnId.GetOr(1), notifyRate := s.savedRate.GetOr(FRESH_RATE))
  }

  datatype Event =
    | HostAttaches(hostId: string, challenge: seq<Byte>, expected: Option<seq<Byte>>)
    | HostSends(host: nat, sent: Message, field: Option<string>)
    | Judged(proof: nat)
    | HostCloses(host: nat)
    | DeviceAttaches
    | DeviceSends(device: nat, sent: Message)
    | DeviceCloses(device: nat, code: int, wasClean: bool, reason: seq<Byte>)
    | AlarmFires
    | Hibernates

  /** What the runtime may do next. It delivers nothing on a device socket the
      relay or the peer has closed, fires an alarm only when it is due, and
      evicts the object only while no handler is waiting. */
  predicate Enabled(s: State, now: int, e: Event) {
    match e
    case HostAttaches(_, _, _) => true
    case HostSends(h, _, _) => h < |s.hosts|
    case Judged(v) => v < |s.verifying| && s.verifying[v].link < |s.hosts|
    case HostCloses(h) => h < |s.hosts|
    case DeviceAttaches => true
    case DeviceSends(d, _) => Live(s.devices, d)
    case DeviceCloses(d, _, _, _) => d < |s.devices|
    case AlarmFires => s.alarm.Some? && s.alarm.value <= now
    case Hibernates => s.verifying == []
  }

  function Step(s: State, now: int, e: Event): State
    requires Enabled(s, now, e)
  {
    match e
    case HostAttaches(hostId, challenge, expected) => AttachHost(s, now, hostId, challenge, expected)
    case HostSends(h, m, field) => HostMessage(s, now, h, m, field)
    case Judged(v) => Verdict(s, v)
    case HostCloses(h) => HostClosed(s, h)
    case DeviceAttaches => AttachDevice(s, now)
    case DeviceSends(d, m) => DeviceMessage(s, now, d, m)
    case DeviceCloses(d, code, wasClean, reason) => DeviceClosed(s, d, code, wasClean, reason)
    case AlarmFires => Alarm(s, now)
    case Hibernates => Hibernate(s)
  }

  datatype Timed = Timed(at: int, event: Event)

  /** The events can happen in this order, on a clock that never runs back. */
  predicate Legal(s: State, clock: int, run: seq<Timed>)
    decreases |run|
  {
    run == [] ||
    (clock <= run[0].at && Enabled(s, run[0].at, run[0].event)
     && Legal(Step(s, run[0].at, run[0].event), run[0].at, run[1..]))
  }

  function Exec(s: State, clock: int, run: seq<Timed>): State
    requires Legal(s, clock, run)
    decreases |run|
  {
    if run == [] then s else Exec(Step(s, run[0].at, run[0].event), run[0].at, run[1..])
  }

  function ClockAfter(clock: int, run: seq<Timed>): int {
    if run == [] then clock else run[|run| - 1].at
  }
}
