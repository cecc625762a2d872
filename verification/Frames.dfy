/** The host-link frame codec (relay/src/frames.ts): type, connId as u32
    big-endian, payload. */
module Frames {
  import opened Common
  import Utf8

  const OPEN: Byte := 0x01
  const DATA: Byte := 0x02
  const CLOSE: Byte := 0x03
  const TEXT: Byte := 0x04
  const NOTIFY: Byte := 0x05

  const HEADER_BYTES: nat := 5
  const TWO_32: int := 0x1_0000_0000

  datatype Frame = Frame(kind: int, connId: int, payload: seq<Byte>)

  datatype CloseInfo = CloseInfo(code: int, reason: seq<Byte>)

  /** What the header fields can carry: one byte and an unsigned 32-bit word. */
  predicate Representable(f: Frame) {
    0 <= f.kind < 256 && 0 <= f.connId < TWO_32
  }

  /** The four octets of an unsigned 32-bit word, most significant first. */
  function Octets(u: int): (b: seq<Byte>)
    ensures |b| == 4
  {
    [u / 0x100_0000 % 256, u / 0x1_0000 % 256, u / 0x100 % 256, u % 256]
  }

  /** Four octets read as a big-endian u32. */
  function Word(b1: int, b2: int, b3: int, b4: int): int {
    ((b1 * 0x100 + b2) * 0x100 + b3) * 0x100 + b4
  }

  /** The bytes of a frame. `x >>> k` on a JavaScript number first reduces x
      modulo 2^32, and `& 0xff` keeps the low byte. */
  function Encode(f: Frame): (bytes: seq<Byte>) {
    [f.kind % 256] + Octets(f.connId % TWO_32) + f.payload
  }

  /** None for anything too short to hold a header. */
  function Decode(bytes: seq<Byte>): (f: Option<Frame>) {
    if |bytes| < HEADER_BYTES then None
    else Some(Frame(bytes[0], Word(bytes[1], bytes[2], bytes[3], bytes[4]), bytes[HEADER_BYTES..]))
  }

  /** `encodeClose`'s payload. Reducing `code` modulo 2^32 first, as `>>>` does,
      leaves the sixteen bits read here unchanged. */
  function ClosePayload(code: int, reason: seq<Byte>): (payload: seq<Byte>) {
    [code / 0x100 % 256, code % 256] + reason
  }

  function DecodeClose(payload: seq<Byte>): (info: Option<CloseInfo>) {
    if |payload| < 2 then None
    else Some(CloseInfo(payload[0] as int * 0x100 + payload[1], payload[2..]))
  }

  /** `encode` fills a fresh buffer: the five header bytes, then the payload
      copied behind them. */
  method EncodeFrame(kind: int, connId: int, payload: seq<Byte>) returns (out: array<Byte>)
    ensures fresh(out)
    ensures out[..] == Encode(Frame(kind, connId, payload))
  {
    out := new Byte[HEADER_BYTES + |payload|](_ => 0);
    var u := connId % TWO_32;
    out[0] := kind % 256;
    out[1], out[2], out[3], out[4] := u / 0x100_0000 % 256, u / 0x1_0000 % 256, u / 0x100 % 256, u % 256;
    forall i | 0 <= i < |payload| {
      out[HEADER_BYTES + i] := payload[i];
    }
  }

  lemma WordOfOctets(u: int)
    requires 0 <= u < TWO_32
    ensures var b := Octets(u); Word(b[0], b[1], b[2], b[3]) == u
  {
    var a := u / 0x100;
    var b := a / 0x100;
    assert b == u / 0x1_0000;
    assert b / 0x100 == u / 0x100_0000;
  }

  lemma OctetsOfWord(b1: Byte, b2: Byte, b3: Byte, b4: Byte)
    ensures 0 <= Word(b1, b2, b3, b4) < TWO_32
    ensures Octets(Word(b1, b2, b3, b4)) == [b1, b2, b3, b4]
  {
    var b: int := b1 as int * 0x100 + b2;
    var a: int := b * 0x100 + b3;
    var u := Word(b1, b2, b3, b4);
    assert u == a * 0x100 + b4 && u / 0x100 == a;
    assert a / 0x100 == b;
    assert u / 0x1_0000 == b;
    assert u / 0x100_0000 == b1;
  }

  lemma Modulo(x: int, m: int)
    requires m > 0
    ensures 0 <= x % m < m
    ensures x % m == x <==> 0 <= x < m
  {
  }

  lemma Parts(kind: Byte, id: seq<Byte>, payload: seq<Byte>)
    requires |id| == 4
    ensures Decode([kind] + id + payload) == Some(Frame(kind, Word(id[0], id[1], id[2], id[3]), payload))
  {
    hide Word;
    assert ([kind] + id + payload)[HEADER_BYTES..] == payload;
  }

  /** The header survives: what decodes is the frame with its fields reduced to
      what the header can carry. */
  lemma DecodeReduces(f: Frame)
    ensures Decode(Encode(f)) == Some(Frame(f.kind % 256, f.connId % TWO_32, f.payload))
  {
    hide Word, Octets, Decode;
    var u := f.connId % TWO_32;
    Modulo(f.connId, TWO_32);
    WordOfOctets(u);
    Parts(f.kind % 256, Octets(u), f.payload);
  }

  /** Decoding inverts encoding exactly on the frames the header can carry. */
  lemma DecodeEncode(f: Frame)
    ensures Decode(Encode(f)) == Some(f) <==> Representable(f)
  {
    hide Encode, Decode;
    DecodeReduces(f);
    Modulo(f.kind, 256);
    Modulo(f.connId, TWO_32);
  }

  /** Every byte string long enough is the encoding of what it decodes to, so
      no two byte strings decode to one frame. */
  lemma EncodeDecode(bytes: seq<Byte>)
    ensures Decode(bytes).Some? <==> |bytes| >= HEADER_BYTES
    ensures Decode(bytes).Some? ==>
              Representable(Decode(bytes).value) && Encode(Decode(bytes).value) == bytes
  {
    hide Word, Octets;
    if |bytes| >= HEADER_BYTES {
      var f := Decode(bytes).value;
      OctetsOfWord(bytes[1], bytes[2], bytes[3], bytes[4]);
      Modulo(f.connId, TWO_32);
      Modulo(f.kind, 256);
      assert Encode(f) == [bytes[0]] + [bytes[1], bytes[2], bytes[3], bytes[4]] + bytes[HEADER_BYTES..];
    }
  }

  lemma CodeOfDigits(code: int)
    ensures code / 0x100 % 256 * 0x100 + code % 256 == code % 0x1_0000
  {
    var a := code / 0x100;
    Remainder(code, a / 0x100, a % 256 * 0x100 + code % 256, 0x1_0000);
  }

  /** A CLOSE frame carries its connection, code and reason through the wire;
      the code exactly when it is a u16. */
  lemma CloseRoundTrip(connId: int, code: int, reason: seq<Byte>)
    requires 0 <= connId < TWO_32
    ensures var frame := Frame(CLOSE, connId, ClosePayload(code, reason));
      Decode(Encode(frame)) == Some(frame)
      && (DecodeClose(frame.payload) == Some(CloseInfo(code, reason)) <==> 0 <= code < 0x1_0000)
  {
    hide Encode, Decode;
    var payload := ClosePayload(code, reason);
    DecodeEncode(Frame(CLOSE, connId, payload));
    CodeOfDigits(code);
    Modulo(code, 0x1_0000);
    assert DecodeClose(payload) == Some(CloseInfo(code % 0x1_0000, reason)) by {
      assert payload[2..] == reason;
    }
  }

  predicate Marked(bytes: seq<Byte>) {
    |bytes| >= 3 && bytes[0] == 0xEF && bytes[1] == 0xBB && bytes[2] == 0xBF
  }

  /** A default text decoder reads UTF-8 past a leading byte order mark. */
  function ReadText(bytes: seq<Byte>): Option<seq<Unit>> {
    Utf8.Decode(if Marked(bytes) then bytes[3..] else bytes)
  }

  lemma MarkOfUnit(u: Unit)
    requires !Utf8.High(u) && !Utf8.Low(u)
    ensures var b := Utf8.Single(u); b[0] == 0xEF && |b| >= 3 && b[1] == 0xBB && b[2] == 0xBF <==> u == 0xFEFF
    ensures Utf8.Single(u)[0] == 0xEF ==> |Utf8.Single(u)| == 3
  {
    var x: int := u;
    assert x == (x / 64) * 64 + x % 64 && x / 64 == x / 0x1000 * 64 + x / 64 % 64 by {
      assert x / 0x1000 == x / 64 / 64;
    }
  }

  /** Only a text that begins with U+FEFF is written with the mark first. */
  lemma MarkIsFirstUnit(text: seq<Unit>)
    requires Utf8.WellFormed(text)
    ensures Marked(Utf8.Encode(text)) <==> text != [] && text[0] == 0xFEFF
    ensures Marked(Utf8.Encode(text)) ==> Utf8.Encode(text)[3..] == Utf8.Encode(text[1..])
  {
    hide Utf8.Single, Utf8.Scalar;
    if text != [] {
      if Utf8.PairFirst(text) {
        assert Utf8.Encode(text)[0] == Utf8.Four(Utf8.Scalar(text[0], text[1]))[0] >= 0xF0;
      } else {
        MarkOfUnit(text[0]);
        var first, rest := Utf8.Single(text[0]), Utf8.Encode(text[1..]);
        assert Utf8.Encode(text) == first + rest;
        assert (first + rest)[|first|..] == rest;
      }
    }
  }

  /** A well-formed reason survives the wire and the text decoder, exactly when it
      does not begin with the mark the decoder strips. */
  lemma CloseReasonRoundTrip(connId: int, code: int, reason: seq<Unit>)
    requires 0 <= connId < TWO_32 && 0 <= code < 0x1_0000 && Utf8.WellFormed(reason)
    ensures var frame := Frame(CLOSE, connId, ClosePayload(code, Utf8.Encode(reason)));
      && Decode(Encode(frame)) == Some(frame)
      && DecodeClose(frame.payload) == Some(CloseInfo(code, Utf8.Encode(reason)))
      && (ReadText(DecodeClose(frame.payload).value.reason) == Some(reason) <==> !(reason != [] && reason[0] == 0xFEFF))
  {
    hide Encode, Decode, ClosePayload, DecodeClose, Utf8.Encode, Utf8.Decode;
    CloseRoundTrip(connId, code, Utf8.Encode(reason));
    MarkIsFirstUnit(reason);
    Utf8.RoundTrip(reason);
    if reason != [] && reason[0] == 0xFEFF {
      Utf8.RoundTrip(reason[1..]);
    }
  }

  /** A word's octets stand most significant first. */
  lemma BigEndian(u: int, v: int)
    requires 0 <= u < v < TWO_32
    ensures exists k :: 0 <= k < 4 && Octets(u)[..k] == Octets(v)[..k] && Octets(u)[k] < Octets(v)[k]
  {
    hide Octets;
    WordOfOctets(u);
    WordOfOctets(v);
    var a, b := Octets(u), Octets(v);
    if a[0] != b[0] {
      assert a[0] < b[0] by { Greater(a, b, 0); }
      assert a[..0] == b[..0];
    } else if a[1] != b[1] {
      assert a[1] < b[1] by { Greater(a, b, 1); }
      assert a[..1] == b[..1];
    } else if a[2] != b[2] {
      assert a[2] < b[2] by { Greater(a, b, 2); }
      assert a[..2] == b[..2];
    } else {
      assert a[..3] == b[..3];
      assert a[3] < b[3];
    }
  }

  lemma Greater(a: seq<Byte>, b: seq<Byte>, k: nat)
    requires |a| == 4 && |b| == 4 && k < 3 && a[..k] == b[..k] && a[k] != b[k]
    requires Word(a[0], a[1], a[2], a[3]) < Word(b[0], b[1], b[2], b[3])
    ensures a[k] < b[k]
  {
    assert forall i :: 0 <= i < k ==> a[i] == a[..k][i] == b[..k][i] == b[i];
  }

  /** On the wire a frame is its type, its connection's four octets and its payload;
      of two connections the one with the greater id has the greater octet where
      theirs first differ. */
  lemma OnTheWire(f: Frame, g: Frame)
    requires Representable(f) && Representable(g) && f.connId < g.connId
    ensures Encode(f)[0] == f.kind && Encode(f)[HEADER_BYTES..] == f.payload
    ensures exists k :: 1 <= k < HEADER_BYTES && Encode(f)[1..k] == Encode(g)[1..k] && Encode(f)[k] < Encode(g)[k]
  {
    hide Octets;
    BigEndian(f.connId, g.connId);
    var a, b := Octets(f.connId), Octets(g.connId);
    var k :| 0 <= k < 4 && a[..k] == b[..k] && a[k] < b[k];
    WireOctets(f);
    WireOctets(g);
    assert Encode(f)[1..k + 1] == a[..k] && Encode(g)[1..k + 1] == b[..k];
    assert Encode(f)[k + 1] < Encode(g)[k + 1];
  }

  lemma WireOctets(f: Frame)
    requires Representable(f)
    ensures Encode(f)[0] == f.kind && Encode(f)[HEADER_BYTES..] == f.payload
    ensures forall k :: 0 <= k < 4 ==> Encode(f)[k + 1] == Octets(f.connId)[k]
  {
    hide Octets;
  }
}
