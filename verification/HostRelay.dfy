/** The relay object itself (relay/src/host-relay.ts): fields the handlers
    update in place and loops over the attached sockets, each handler proved
    to take the step of the model. */
module HostRelay {
  import opened Common
  import opened Limiter
  import opened Relay
  import Base64url
  import Frames

  lemma {:induction false} FirstReady(hosts: seq<HostLink>, i: nat)
    requires i < |hosts| && hosts[i].stage == Ready
    requires forall k :: 0 <= k < i ==> hosts[k].stage != Ready
    ensures ReadyHost(hosts) == Some(i)
  {
    if i < |hosts| - 1 {
      FirstReady(hosts[..|hosts| - 1], i);
    }
  }

  lemma {:induction false} FirstDevice(devices: seq<DeviceLink>, connId: int, i: nat)
    requires Live(devices, i) && devices[i].connId == connId
    requires forall k :: 0 <= k < i ==> devices[k].closed || devices[k].connId != connId
    ensures DeviceOf(devices, connId) == Some(i)
  {
    if i < |devices| - 1 {
      FirstDevice(devices[..|devices| - 1], connId, i);
    }
  }

  class HostRelay {
    const apns: bool
    // instance fields, lost on hibernation
    var nextConnId: int
    var notifyRate: Window
    // storage
    var savedConnId: Option<int>
    var savedRate: Option<Window>
    var alarm: Option<int>
    // the attachments of the sockets `getWebSockets` lists, by tag
    var hosts: seq<HostLink>
    var devices: seq<DeviceLink>
    // handlers waiting for the crypto library
    var verifying: seq<Verification>
    ghost var log: seq<Entry>

    ghost function Model(): State
      reads this
    {
      State(apns, hosts, devices, nextConnId, notifyRate, savedConnId, savedRate, alarm, verifying, log)
    }

    constructor (apns: bool)
      ensures this.apns == apns && Model() == Initial(apns)
    {
      this.apns := apns;
      nextConnId, notifyRate := 1, FRESH_RATE;
      savedConnId, savedRate, alarm := None, None, None;
      hosts, devices, verifying, log := [], [], [], [];
    }

    /** The object is evicted and rebuilt: the constructor's defaults, then
        what storage holds. */
    method Rebuild()
      modifies this
      ensures Model() == Hibernate(old(Model()))
    {
      nextConnId, notifyRate := 1, FRESH_RATE;
      if savedConnId.Some? { nextConnId := savedConnId.value; }
      if savedRate.Some? { notifyRate := savedRate.value; }
    }

    // -- host links ---------------------------------------------------------

    method ScheduleAuthDeadline(at: int)
      modifies this`alarm
      ensures alarm == EarlierAlarm(old(alarm), at)
    {
      if alarm.None? || alarm.value > at { alarm := Some(at); }
    }

    /** `expected` is what the crypto library will compute for the new key pair. */
    method AttachHost(now: int, hostId: string, challenge: seq<Byte>, expected: Option<seq<Byte>>) returns (accepted: bool)
      modifies this
      ensures Model() == Relay.AttachHost(old(Model()), now, hostId, challenge, expected)
      ensures accepted <==> Base64url.HostKey(hostId).Some?
    {
      hide Base64url.HostKey, Base64url.Text;
      if Base64url.HostKey(hostId).None? { return false; }
      var nonce := Base64url.B64urlEncode(challenge);
      var deadline := now + HOST_AUTH_TIMEOUT_MS;
      log := log + [Challenged(|hosts|)];
      hosts := hosts + [HostLink(AwaitProof, hostId, nonce, expected, deadline, None)];
      ScheduleAuthDeadline(deadline);
      accepted := true;
    }

    method HandleProof(h: nat, now: int, m: Message, field: Option<string>)
      requires h < |hosts|
      modifies this
      ensures Model() == Relay.HandleProof(old(Model()), now, h, m, field)
    {
      hide Base64url.HostKey, Base64url.Decoded;
      var state := hosts[h];
      if now > state.deadline || m.Binary? {
        FailHostAuth(h, AwaitProof);
        return;
      }
      var offered := Offered(field);
      var nonce := Base64url.Decoded(state.nonce);
      var hostKey := Base64url.HostKey(state.hostId);
      if offered.None? || nonce.None? || hostKey.None? {
        FailHostAuth(h, AwaitProof);
        return;
      }
      verifying := verifying + [Verification(h, offered.value, now)];
    }

    /** The rest of `handleProof`, once the expected proof has been computed. */
    method ProofJudged(v: nat)
      requires v < |verifying| && verifying[v].link < |hosts|
      modifies this
      ensures Model() == Verdict(old(Model()), v)
    {
      var proof := verifying[v];
      var want := hosts[proof.link].expected;
      verifying := Without(verifying, v);
      if want.None? || want.value != proof.offered {
        FailHostAuth(proof.link, AwaitProof);
      } else {
        PromoteHost(proof.link);
      }
    }

    method PromoteHost(h: nat)
      requires h < |hosts|
      modifies this
      ensures Model() == Promote(old(Model()), h)
    {
      ghost var before := hosts;
      EvictReadyHosts(h);
      hosts := hosts[h := hosts[h].(stage := Ready)];
      log := log + [Welcomed(h)];
      assert hosts == Promote(old(Model()), h).hosts;
    }

    method FailHostAuth(h: nat, seen: Stage)
      requires h < |hosts|
      modifies this
      ensures Model() == Retire(old(Model()), h, seen, Some(CLOSE_BAD_PROOF))
    {
      RetireHost(h, seen, Some(CLOSE_BAD_PROOF));
    }

    /** `seen` is the stage in the copy of the state the handler holds. */
    method RetireHost(h: nat, seen: Stage, code: Option<int>)
      requires h < |hosts|
      modifies this
      ensures Model() == Retire(old(Model()), h, seen, code)
    {
      var wasReady := seen == Ready;
      hosts := hosts[h := hosts[h].(stage := Gone, farewell := Bid(hosts[h].farewell, code))];
      if wasReady { CloseAllDevices(); }
    }

    method HostSocket() returns (h: Option<nat>)
      ensures h == ReadyHost(hosts)
    {
      for i := 0 to |hosts|
        invariant forall k :: 0 <= k < i ==> hosts[k].stage != Ready
      {
        if hosts[i].stage == Ready {
          FirstReady(hosts, i);
          return Some(i);
        }
      }
      h := None;
    }

    method EvictReadyHosts(keep: nat)
      requires keep < |hosts|
      modifies this`hosts, this`devices
      ensures |hosts| == |old(hosts)|
      ensures forall i :: 0 <= i < |hosts| ==> hosts[i] == if i == keep then old(hosts)[i] else Evict(old(hosts)[i])
      ensures devices == if OtherReady(old(hosts), keep) then CloseAll(old(devices)) else old(devices)
    {
      ghost var found := false;
      for i := 0 to |hosts|
        invariant |hosts| == |old(hosts)|
        invariant forall k :: 0 <= k < i ==> hosts[k] == if k == keep then old(hosts)[k] else Evict(old(hosts)[k])
        invariant forall k :: i <= k < |hosts| ==> hosts[k] == old(hosts)[k]
        invariant found <==> exists k :: 0 <= k < i && k != keep && old(hosts)[k].stage == Ready
        invariant devices == if found then CloseAll(old(devices)) else old(devices)
      {
        if i != keep && hosts[i].stage == Ready {
          hosts := hosts[i := hosts[i].(stage := Gone, farewell := Bid(hosts[i].farewell, Some(CLOSE_REPLACED)))];
          CloseAllDevices();
          assert CloseAll(CloseAll(old(devices))) == CloseAll(old(devices));
          found := true;
        }
      }
    }

    method CloseAllDevices()
      modifies this`devices
      ensures devices == CloseAll(old(devices))
    {
      for i := 0 to |devices|
        invariant |devices| == |old(devices)|
        invariant forall k :: 0 <= k < i ==> devices[k] == CloseAll(old(devices))[k]
        invariant forall k :: i <= k < |devices| ==> devices[k] == old(devices)[k]
      {
        if !devices[i].closed {
          devices := devices[i := devices[i].(closed := true, farewell := Bid(devices[i].farewell, Some(CLOSE_NO_HOST)))];
        }
      }
    }

    // -- device links -------------------------------------------------------

    method AttachDevice(now: int) returns (answer: Answer)
      modifies this
      ensures Model() == Relay.AttachDevice(old(Model()), now)
      ensures answer == Admission(old(Model()))
    {
      var host := HostSocket();
      if host.None? { return Refused(CLOSE_NO_HOST); }
      var live := LiveDeviceCount();
      if live >= MAX_DEVICES { return Refused(CLOSE_TOO_MANY); }
      var connId := AllocateConnId();
      if connId.None? { return Refused(CLOSE_TOO_MANY); }
      answer := Accepted(|devices|);
      devices := devices + [DeviceLink(connId.value, false, Window(now, 0), None)];
      log := log + [ToHost(host.value, Frames.Frame(Frames.OPEN, connId.value, []))];
    }

    method LiveDeviceCount() returns (n: nat)
      ensures n == LiveCount(devices)
    {
      n := 0;
      for i := 0 to |devices|
        invariant n == LiveCount(devices[..i])
      {
        assert devices[..i + 1][..i] == devices[..i];
        if !devices[i].closed { n := n + 1; }
      }
      assert devices[..|devices|] == devices;
    }

    method DeviceSocket(connId: int) returns (d: Option<nat>)
      ensures d == DeviceOf(devices, connId)
    {
      for i := 0 to |devices|
        invariant forall k :: 0 <= k < i ==> devices[k].closed || devices[k].connId != connId
      {
        if !devices[i].closed && devices[i].connId == connId {
          FirstDevice(devices, connId, i);
          return Some(i);
        }
      }
      d := None;
    }

    method AllocateConnId() returns (connId: Option<int>)
      modifies this`nextConnId, this`savedConnId
      ensures old(nextConnId) > MAX_CONN_ID ==>
                connId.None? && nextConnId == old(nextConnId) && savedConnId == old(savedConnId)
      ensures old(nextConnId) <= MAX_CONN_ID ==>
                connId == Some(old(nextConnId)) && nextConnId == old(nextConnId) + 1 && savedConnId == Some(nextConnId)
    {
      if nextConnId > MAX_CONN_ID { return None; }
      connId := Some(nextConnId);
      nextConnId := nextConnId + 1;
      savedConnId := Some(nextConnId);
    }

    // -- hibernation handlers -----------------------------------------------

    /** `field` is the string in the message's `proof` field, when it parses as
        JSON of type "proof". */
    method HostMessage(h: nat, now: int, m: Message, field: Option<string>)
      requires h < |hosts|
      modifies this
      ensures Model() == Relay.HostMessage(old(Model()), now, h, m, field)
    {
      hide Size, Frames.Decode, Retire, EndDevice, Relay.HandleProof, Relay.RouteHostFrame;
      var state := hosts[h];
      if Size(m) > MAX_MESSAGE_BYTES + Frames.HEADER_BYTES {
        var device := OversizedTarget(h, m);
        if device.Some? {
          CloseDevice(device.value, Some(CLOSE_TOO_BIG), CLOSE_TOO_BIG, Ascii("message too large"));
        } else {
          RetireHost(h, state.stage, Some(CLOSE_TOO_BIG));
        }
        return;
      }
      if state.stage == AwaitProof {
        HandleProof(h, now, m, field);
        return;
      }
      if state.stage != Ready { return; }
      if m.Binary? { RouteHostFrame(now, m.bytes); }
    }

    method OversizedTarget(h: nat, m: Message) returns (d: Option<nat>)
      requires h < |hosts|
      ensures d == Relay.OversizedTarget(Model(), h, m)
    {
      hide Frames.Decode;
      if hosts[h].stage != Ready || m.Text? || |m.bytes| < Frames.HEADER_BYTES { return None; }
      var header := Frames.Decode(m.bytes[..Frames.HEADER_BYTES]);
      if header.None? || header.value.kind != Frames.DATA { return None; }
      d := DeviceSocket(header.value.connId);
    }

    method RouteHostFrame(now: int, bytes: seq<Byte>)
      modifies this
      ensures Model() == Relay.RouteHostFrame(old(Model()), now, bytes)
    {
      hide Frames.Decode, Frames.DecodeClose;
      var frame := Frames.Decode(bytes);
      if frame.None? { return; }
      if frame.value.kind == Frames.NOTIFY {
        HandleNotify(now);
        return;
      }
      var device := DeviceSocket(frame.value.connId);
      if device.None? { return; }
      var d := device.value;
      if frame.value.kind == Frames.DATA {
        log := log + [ToDevice(d, frame.value.payload)];
        return;
      }
      if frame.value.kind == Frames.CLOSE {
        var info := Frames.DecodeClose(frame.value.payload);
        var code := if info.Some? then info.value.code else 1000;
        devices := devices[d := devices[d].(closed := true, farewell := Bid(devices[d].farewell, Some(code)))];
      }
    }

    method HandleNotify(now: int)
      modifies this
      ensures Model() == Notify(old(Model()), now)
    {
      if !apns { return; }
      var rate, allowed := AllowRate(notifyRate, now, NOTIFY_LIMIT_FRAMES, NOTIFY_LIMIT_WINDOW_MS);
      notifyRate := rate;
      savedRate := Some(rate);
      log := log + [Notified(now, allowed)];
    }

    method DeviceMessage(d: nat, now: int, m: Message)
      requires d < |devices|
      modifies this
      ensures Model() == Relay.DeviceMessage(old(Model()), now, d, m)
    {
      hide Size, Utf8.Encode, Frames.ClosePayload, EndDevice;
      log := log + [Heard(devices[d].connId, m)];
      if Size(m) > MAX_MESSAGE_BYTES {
        CloseDevice(d, Some(CLOSE_TOO_BIG), CLOSE_TOO_BIG, Ascii("message too large"));
        return;
      }
      var rate, allowed := AllowRate(devices[d].rate, now, RATE_LIMIT_MESSAGES, RATE_LIMIT_WINDOW_MS);
      devices := devices[d := devices[d].(rate := rate)];
      if !allowed {
        CloseDevice(d, Some(CLOSE_RATE_LIMIT), CLOSE_RATE_LIMIT, Ascii("rate limit exceeded"));
        return;
      }
      var host := HostSocket();
      if host.None? {
        CloseDevice(d, Some(CLOSE_NO_HOST), CLOSE_NO_HOST, Ascii("host offline"));
        return;
      }
      log := log + [ToHost(host.value, Carrier(devices[d].connId, m))];
    }

    /** The device's half of `closeLink`, and of `webSocketClose` when the peer
        hung up and there is no farewell to send. */
    method CloseDevice(d: nat, farewell: Option<int>, code: int, reason: seq<Byte>)
      requires d < |devices|
      modifies this
      ensures Model() == EndDevice(old(Model()), d, farewell, code, reason)
    {
      hide Frames.ClosePayload;
      if devices[d].closed { return; }
      devices := devices[d := devices[d].(closed := true)];
      var host := HostSocket();
      if host.Some? {
        log := log + [ToHost(host.value, CloseFrame(devices[d].connId, code, reason))];
      }
      devices := devices[d := devices[d].(farewell := Bid(devices[d].farewell, farewell))];
    }

    method DeviceClose(d: nat, code: int, wasClean: bool, reason: seq<Byte>)
      requires d < |devices|
      modifies this
      ensures Model() == DeviceClosed(old(Model()), d, code, wasClean, reason)
    {
      CloseDevice(d, None, HostFacingCode(code, wasClean), reason);
    }

    method HostClose(h: nat)
      requires h < |hosts|
      modifies this
      ensures Model() == HostClosed(old(Model()), h)
    {
      RetireHost(h, hosts[h].stage, None);
    }

    /** The runtime clears the alarm as it fires it. */
    method Alarm(now: int)
      modifies this
      ensures Model() == Relay.Alarm(old(Model()), now)
    {
      hide NextDeadline;
      alarm := None;
      var next: Option<int> := None;
      NoDeadline(now);
      for i := 0 to |hosts|
        invariant |hosts| == |old(hosts)| && devices == old(devices) && log == old(log) && alarm == None
        invariant verifying == old(verifying) && nextConnId == old(nextConnId) && notifyRate == old(notifyRate)
        invariant savedConnId == old(savedConnId) && savedRate == old(savedRate)
        invariant forall k :: 0 <= k < i ==> hosts[k] == Expired(old(hosts)[k], now)
        invariant forall k :: i <= k < |hosts| ==> hosts[k] == old(hosts)[k]
        invariant next == NextDeadline(old(hosts)[..i], now)
      {
        assert old(hosts)[..i + 1] == old(hosts)[..i] + [old(hosts)[i]];
        OneMoreDeadline(old(hosts)[..i], old(hosts)[i], now);
        if hosts[i].stage == AwaitProof {
          if hosts[i].deadline <= now {
            FailHostAuth(i, AwaitProof);
          } else {
            next := if next.None? || next.value > hosts[i].deadline then Some(hosts[i].deadline) else next;
          }
        }
      }
      assert old(hosts)[..|hosts|] == old(hosts);
      if next.Some? { alarm := next; }
      assert hosts == Relay.Alarm(old(Model()), now).hosts;
    }
  }

  /** A link after an alarm at `now`. */
  function Expired(link: HostLink, now: int): HostLink {
    if Overdue(link, now) then link.(stage := Gone, farewell := Bid(link.farewell, Some(CLOSE_BAD_PROOF))) else link
  }

  lemma NoDeadline(now: int)
    ensures NextDeadline([], now) == None
  {
  }

  lemma OneMoreDeadline(hosts: seq<HostLink>, link: HostLink, now: int)
    ensures NextDeadline(hosts + [link], now)
            == if link.stage == AwaitProof && link.deadline > now then EarlierAlarm(NextDeadline(hosts, now), link.deadline)
               else NextDeadline(hosts, now)
  {
    assert (hosts + [link])[..|hosts|] == hosts;
  }
}
