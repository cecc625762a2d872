/** UTF-8 of a JavaScript string (RFC 3629, section 3), as TextEncoder writes
    it, and the relay's shortcut for sizing a message without encoding it. */
module Utf8 {
  import opened Common

  predicate High(u: Unit) { 0xD800 <= u < 0xDC00 }

  predicate Low(u: Unit) { 0xDC00 <= u < 0xE000 }

  /** The string opens with both halves of a surrogate pair. */
  predicate PairFirst(s: seq<Unit>) {
    |s| >= 2 && High(s[0]) && Low(s[1])
  }

  /** No half of a surrogate pair stands alone. */
  predicate WellFormed(s: seq<Unit>) {
    if s == [] then true
    else if PairFirst(s) then WellFormed(s[2..])
    else !High(s[0]) && !Low(s[0]) && WellFormed(s[1..])
  }

  function Scalar(hi: Unit, lo: Unit): (p: int)
    requires High(hi) && Low(lo)
    ensures 0x1_0000 <= p < 0x11_0000
  {
    0x1_0000 + (hi - 0xD800) as int * 0x400 + (lo - 0xDC00) as int
  }

  function Four(p: int): seq<Byte>
    requires 0x1_0000 <= p < 0x11_0000
  {
    [0xF0 + p / 0x4_0000, 0x80 + p / 0x1000 % 64, 0x80 + p / 64 % 64, 0x80 + p % 64]
  }

  /** The octets of one unit outside a pair; a lone half is replaced by U+FFFD. */
  function Single(u: Unit): (b: seq<Byte>)
    ensures 1 <= |b| <= 3
  {
    if u < 0x80 then [u]
    else if u < 0x800 then [0xC0 + u / 64, 0x80 + u % 64]
    else if High(u) || Low(u) then [0xEF, 0xBF, 0xBD]
    else [0xE0 + u / 0x1000, 0x80 + u / 64 % 64, 0x80 + u % 64]
  }

  function Encode(s: seq<Unit>): (b: seq<Byte>) {
    if s == [] then []
    else if PairFirst(s) then Four(Scalar(s[0], s[1])) + Encode(s[2..])
    else Single(s[0]) + Encode(s[1..])
  }

  /** How many octets the character that `lead` opens takes. */
  function Width(lead: Byte): (n: nat) {
    if lead < 0x80 then 1 else if lead < 0xE0 then 2 else if lead < 0xF0 then 3 else 4
  }

  /** The units of one character's octets. */
  function UnitsOf(b: seq<Byte>): seq<Unit>
    requires |b| > 0 && |b| == Width(b[0])
  {
    var x: int := b[0];
    if |b| == 1 then [x]
    else if |b| == 2 then [(x - 0xC0) % 32 * 64 + b[1] % 64]
    else if |b| == 3 then [(x - 0xE0) % 16 * 0x1000 + b[1] as int % 64 * 64 + b[2] % 64]
    else Halves(Point(b[0], b[1], b[2], b[3]))
  }

  /** The surrogate pair of a supplementary scalar value. */
  function Halves(p: int): seq<Unit> {
    [0xD800 + (p - 0x1_0000) / 0x400 % 0x400, 0xDC00 + (p - 0x1_0000) % 0x400]
  }

  /** The payload bits of four octets. */
  function Point(b0: int, b1: int, b2: int, b3: int): int {
    (b0 - 0xF0) % 8 * 0x4_0000 + b1 % 64 * 0x1000 + b2 % 64 * 64 + b3 % 64
  }

  function Decode(b: seq<Byte>): (s: Option<seq<Unit>>) {
    if b == [] then Some([])
    else if |b| < Width(b[0]) then None
    else
      var rest := Decode(b[Width(b[0])..]);
      if rest.None? then None else Some(UnitsOf(b[..Width(b[0])]) + rest.value)
  }

  lemma SixBitDigits(p: int)
    requires 0 <= p
    ensures p == p / 0x4_0000 * 0x4_0000 + p / 0x1000 % 64 * 0x1000 + p / 64 % 64 * 64 + p % 64
  {
    var a := p / 64;
    var b := a / 64;
    assert b == p / 0x1000;
    assert b / 64 == p / 0x4_0000;
    assert p == ((b / 64 * 64 + b % 64) * 64 + a % 64) * 64 + p % 64;
  }

  lemma HalvesBack(hi: Unit, lo: Unit)
    requires High(hi) && Low(lo)
    ensures Halves(Scalar(hi, lo)) == [hi, lo]
  {
    var h: int, l: int := hi - 0xD800, lo - 0xDC00;
    assert Scalar(hi, lo) - 0x1_0000 == h * 0x400 + l;
  }

  /** The low bits of a continuation octet. */
  lemma Masked(x: int)
    requires 0 <= x < 64
    ensures (0x80 + x) % 64 == x
  {
  }

  lemma PointBack(p: int)
    requires 0x1_0000 <= p < 0x11_0000
    ensures var b := Four(p); Point(b[0], b[1], b[2], b[3]) == p
  {
    var d3, d2, d1, d0 := p / 0x4_0000, p / 0x1000 % 64, p / 64 % 64, p % 64;
    PointOfDigits(d3, d2, d1, d0);
    SixBitDigits(p);
  }

  lemma PointOfDigits(d3: int, d2: int, d1: int, d0: int)
    requires 0 <= d3 < 8 && 0 <= d2 < 64 && 0 <= d1 < 64 && 0 <= d0 < 64
    ensures Point(0xF0 + d3, 0x80 + d2, 0x80 + d1, 0x80 + d0) == d3 * 0x4_0000 + d2 * 0x1000 + d1 * 64 + d0
  {
    Masked(d2);
    Masked(d1);
    Masked(d0);
    assert (0xF0 + d3 - 0xF0) % 8 == d3;
  }

  lemma FourBack(hi: Unit, lo: Unit)
    requires High(hi) && Low(lo)
    ensures var b := Four(Scalar(hi, lo)); Width(b[0]) == 4 && UnitsOf(b) == [hi, lo]
  {
    var p := Scalar(hi, lo);
    var b := Four(p);
    PointBack(p);
    assert UnitsOf(b) == Halves(p);
    HalvesBack(hi, lo);
  }

  lemma ThreeBack(u: int)
    requires 0x800 <= u < 0x1_0000
    ensures (0xE0 + u / 0x1000 - 0xE0) % 16 * 0x1000 + (0x80 + u / 64 % 64) % 64 * 64 + (0x80 + u % 64) % 64 == u
  {
    SixBitDigits(u);
    Masked(u / 64 % 64);
    Masked(u % 64);
    assert u / 0x4_0000 == 0 && u / 0x1000 % 64 == u / 0x1000 < 16;
  }

  lemma SingleBack(u: Unit)
    requires !High(u) && !Low(u)
    ensures var b := Single(u); |b| == Width(b[0]) && UnitsOf(b) == [u]
  {
    if u >= 0x800 { ThreeBack(u); }
  }

  /** A well-formed text survives the trip through its octets. */
  lemma {:induction false} RoundTrip(s: seq<Unit>)
    requires WellFormed(s)
    ensures Decode(Encode(s)) == Some(s)
  {
    if s == [] {
    } else if PairFirst(s) {
      var b := Four(Scalar(s[0], s[1]));
      FourBack(s[0], s[1]);
      RoundTrip(s[2..]);
      assert s == [s[0], s[1]] + s[2..];
    } else {
      SingleBack(s[0]);
      RoundTrip(s[1..]);
      assert s == [s[0]] + s[1..];
    }
  }

  /** Every unit costs between one and three octets. */
  lemma {:induction false} SizeBounds(s: seq<Unit>)
    ensures |s| <= |Encode(s)| <= 3 * |s|
  {
    if s == [] {
    } else if PairFirst(s) {
      SizeBounds(s[2..]);
    } else {
      SizeBounds(s[1..]);
    }
  }

  /** `messageBytes` of a text under the cap `max`: only the ambiguous band is
      encoded to be measured. */
  function MeasuredSize(s: seq<Unit>, max: nat): (n: nat) {
    if |s| > max then |s|
    else if |s| * 3 <= max then |s|
    else |Encode(s)|
  }

  /** Against any limit from `max` up, the shortcut and the true length decide
      alike except in one family: more units than `max` but not more than the
      limit, with an encoding over the limit. */
  lemma MeasuredDecides(s: seq<Unit>, max: nat, limit: nat)
    requires max <= limit
    ensures (MeasuredSize(s, max) > limit <==> |Encode(s)| > limit)
            <==> !(max < |s| <= limit && |Encode(s)| > limit)
  {
    SizeBounds(s);
  }

  /** At the cap itself, which is the device link's limit, there is no such
      family. */
  lemma MeasuredExact(s: seq<Unit>, max: nat)
    ensures MeasuredSize(s, max) > max <==> |Encode(s)| > max
  {
    SizeBounds(s);
  }

  // -- the octets are UTF-8 -------------------------------------------------

  predicate Tail(b: int) { 0x80 <= b < 0xC0 }

  /** The length of the character that opens `b`, by section 4 of RFC 3629; 0 when
      none does. */
  function CharLength(b: seq<Byte>): nat {
    if |b| >= 1 && b[0] < 0x80 then 1
    else if |b| >= 2 && 0xC2 <= b[0] < 0xE0 && Tail(b[1]) then 2
    else if |b| >= 3 && 0xE0 <= b[0] < 0xF0 && Tail(b[1]) && Tail(b[2])
            && (b[0] == 0xE0 ==> b[1] >= 0xA0) && (b[0] == 0xED ==> b[1] < 0xA0) then 3
    else if |b| >= 4 && 0xF0 <= b[0] < 0xF5 && Tail(b[1]) && Tail(b[2]) && Tail(b[3])
            && (b[0] == 0xF0 ==> b[1] >= 0x90) && (b[0] == 0xF4 ==> b[1] < 0x90) then 4
    else 0
  }

  predicate IsUtf8(b: seq<Byte>)
    decreases |b|
  {
    b == [] || (0 < CharLength(b) <= |b| && IsUtf8(b[CharLength(b)..]))
  }

  lemma SingleIsChar(u: Unit, rest: seq<Byte>)
    ensures CharLength(Single(u) + rest) == |Single(u)|
  {
  }

  lemma FourIsChar(p: int, rest: seq<Byte>)
    requires 0x1_0000 <= p < 0x11_0000
    ensures CharLength(Four(p) + rest) == 4
  {
  }

  /** Whatever the text, lone halves included, its octets are UTF-8. */
  lemma {:induction false} EncodesUtf8(s: seq<Unit>)
    ensures IsUtf8(Encode(s))
    decreases |s|
  {
    hide CharLength, Four, Single, Scalar;
    if s != [] {
      if PairFirst(s) {
        var p := Scalar(s[0], s[1]);
        EncodesUtf8(s[2..]);
        FourIsChar(p, Encode(s[2..]));
        FourOctets(p);
        assert (Four(p) + Encode(s[2..]))[4..] == Encode(s[2..]);
      } else {
        EncodesUtf8(s[1..]);
        SingleIsChar(s[0], Encode(s[1..]));
        assert (Single(s[0]) + Encode(s[1..]))[|Single(s[0])|..] == Encode(s[1..]);
      }
    }
  }

  lemma FourOctets(p: int)
    requires 0x1_0000 <= p < 0x11_0000
    ensures |Four(p)| == 4
  {
  }
}
