/** Strict, unpadded base64url (relay/src/auth.ts; RFC 4648, section 5, with
    the canonical rule of section 3.5). */
module Base64url {
  import opened Common

  const UPPER: string := "ABCDEFGHIJKLMNOPQRSTUVWXYZ"
  const LOWER: string := "abcdefghijklmnopqrstuvwxyz"
  const DIGITS: string := "0123456789"
  const ALPHABET: string := UPPER + LOWER + DIGITS + "-_"

  const HOST_ID_LENGTH: nat := 43
  const KEY_BYTES: nat := 32

  // -- the meaning of a text ------------------------------------------------

  type Sextet = x: int | 0 <= x < 64

  function Symbol(v: Sextet): char {
    if v < 26 then 'A' + v as char
    else if v < 52 then 'a' + (v - 26) as char
    else if v < 62 then '0' + (v - 52) as char
    else if v == 62 then '-' else '_'
  }

  predicate IsSymbol(c: char) {
    'A' <= c <= 'Z' || 'a' <= c <= 'z' || '0' <= c <= '9' || c == '-' || c == '_'
  }

  function Value(c: char): Sextet
    requires IsSymbol(c)
  {
    if 'A' <= c <= 'Z' then c as int - 'A' as int
    else if 'a' <= c <= 'z' then c as int - 'a' as int + 26
    else if '0' <= c <= '9' then c as int - '0' as int + 52
    else if c == '-' then 62 else 63
  }

  lemma SymbolValue(v: Sextet)
    ensures IsSymbol(Symbol(v)) && Value(Symbol(v)) == v
  {
  }

  lemma ValueSymbol(c: char)
    requires IsSymbol(c)
    ensures Symbol(Value(c)) == c
  {
  }

  lemma AlphabetBlocks(v: nat)
    ensures v < 26 ==> UPPER[v] == 'A' + v as char
    ensures v < 26 ==> LOWER[v] == 'a' + v as char
    ensures v < 10 ==> DIGITS[v] == '0' + v as char
  {
  }

  /** The source's alphabet is the one RFC 4648 tabulates. */
  lemma AlphabetIsSymbols()
    ensures |ALPHABET| == 64
    ensures forall v: Sextet :: ALPHABET[v] == Symbol(v)
  {
    forall v: Sextet
      ensures ALPHABET[v] == Symbol(v)
    {
      if v < 26 {
        AlphabetBlocks(v);
      } else if v < 52 {
        AlphabetBlocks(v - 26);
      } else if v < 62 {
        AlphabetBlocks(v - 52);
      }
    }
  }

  function At(b: seq<Byte>, j: nat): Byte {
    if j < |b| then b[j] else 0
  }

  /** The `p`-th of the four six-bit fields of three octets. */
  function Field(a: Byte, b: Byte, c: Byte, p: nat): Sextet
    requires p < 4
  {
    if p == 0 then a / 4
    else if p == 1 then a as int % 4 * 16 + b / 16
    else if p == 2 then b as int % 16 * 4 + c / 64
    else c % 64
  }

  /** The `p`-th of the three octets that four six-bit groups make. */
  function Join(v0: Sextet, v1: Sextet, v2: Sextet, v3: Sextet, p: nat): Byte
    requires p < 3
  {
    if p == 0 then v0 as int * 4 + v1 / 16
    else if p == 1 then v1 as int % 16 * 16 + v2 / 4
    else v2 as int % 4 * 64 + v3
  }

  lemma JoinFields(a: Byte, b: Byte, c: Byte)
    ensures var v0, v1, v2, v3 := Field(a, b, c, 0), Field(a, b, c, 1), Field(a, b, c, 2), Field(a, b, c, 3);
      Join(v0, v1, v2, v3, 0) == a && Join(v0, v1, v2, v3, 1) == b && Join(v0, v1, v2, v3, 2) == c
  {
  }

  lemma FieldsOfJoin(v0: Sextet, v1: Sextet, v2: Sextet, v3: Sextet)
    ensures var a, b, c := Join(v0, v1, v2, v3, 0), Join(v0, v1, v2, v3, 1), Join(v0, v1, v2, v3, 2);
      Field(a, b, c, 0) == v0 && Field(a, b, c, 1) == v1 && Field(a, b, c, 2) == v2 && Field(a, b, c, 3) == v3
  {
  }

  /** The `i`-th group of six bits, zero bits standing in past the end. */
  function SextetAt(b: seq<Byte>, i: nat): Sextet {
    var g := i / 4 * 3;
    Field(At(b, g), At(b, g + 1), At(b, g + 2), i % 4)
  }

  /** As many groups of six as cover `8 * n` bits. */
  function EncodedLength(n: nat): nat {
    n / 3 * 4 + if n % 3 == 0 then 0 else n % 3 + 1
  }

  function Text(b: seq<Byte>): string {
    seq(EncodedLength(|b|), i requires 0 <= i < EncodedLength(|b|) => Symbol(SextetAt(b, i)))
  }

  /** The bits left over after the last whole octet are zero. */
  predicate TrailingZero(t: string) {
    (|t| % 4 == 2 ==> ValueAt(t, |t| - 1) % 16 == 0) && (|t| % 4 == 3 ==> ValueAt(t, |t| - 1) % 4 == 0)
  }

  predicate Canonical(t: string) {
    |t| % 4 != 1 && (forall i :: 0 <= i < |t| ==> IsSymbol(t[i])) && TrailingZero(t)
  }

  function ValueAt(t: string, i: nat): Sextet {
    if i < |t| && IsSymbol(t[i]) then Value(t[i]) else 0
  }

  /** The `j`-th octet the text's groups of six bits make. */
  function OctetAt(t: string, j: nat): Byte {
    var g := j / 3 * 4;
    Join(ValueAt(t, g), ValueAt(t, g + 1), ValueAt(t, g + 2), ValueAt(t, g + 3), j % 3)
  }

  function Octets(t: string): seq<Byte> {
    seq(|t| * 3 / 4, j requires 0 <= j < |t| * 3 / 4 => OctetAt(t, j))
  }

  function Decoded(t: string): Option<seq<Byte>> {
    if Canonical(t) then Some(Octets(t)) else None
  }

  /** A host ID is 43 characters decoding to exactly 32 bytes. */
  function HostKey(hostId: string): Option<seq<Byte>> {
    if |hostId| != HOST_ID_LENGTH then None
    else
      var raw := Decoded(hostId);
      if raw.Some? && |raw.value| == KEY_BYTES then raw else None
  }

  // -- the code -------------------------------------------------------------

  /** ECMAScript's ToInt32, applied after every bitwise operator. */
  function Int32(x: int): int {
    (x + 0x8000_0000) % 0x1_0000_0000 - 0x8000_0000
  }

  /** The module's lookup table: the value of each ASCII symbol, -1 elsewhere. */
  method ReverseTable() returns (table: array<int>)
    ensures fresh(table) && table.Length == 128
    ensures forall c: char | c < 128 as char :: table[c as int] == if IsSymbol(c) then Value(c) else -1
  {
    AlphabetIsSymbols();
    table := new int[128](_ => -1);
    var i := 0;
    while i < |ALPHABET|
      invariant 0 <= i <= |ALPHABET|
      invariant forall c: char | c < 128 as char ::
          table[c as int] == if IsSymbol(c) && Value(c) < i then Value(c) else -1
    {
      SymbolValue(i);
      forall c: char | IsSymbol(c)
        ensures Value(c) == i <==> c == ALPHABET[i]
      {
        ValueSymbol(c);
      }
      table[ALPHABET[i] as int] := i;
      i := i + 1;
    }
  }

  /** The four six-bit fields of three octets read as one number. */
  lemma ThreeBytes(a: Byte, b: Byte, c: Byte)
    ensures var n := a as int * 0x1_0000 + b as int * 0x100 + c;
      && n / 0x4_0000 % 64 == Field(a, b, c, 0)
      && n / 0x1000 % 64 == Field(a, b, c, 1)
      && n / 64 % 64 == Field(a, b, c, 2)
      && n % 64 == Field(a, b, c, 3)
  {
    var n := a as int * 0x1_0000 + b as int * 0x100 + c;
    Remainder(n, a / 4, a as int % 4 * 0x1_0000 + b as int * 0x100 + c, 0x4_0000);
    Remainder(n, a as int * 16 + b / 16, b as int % 16 * 0x100 + c, 0x1000);
    Remainder(a as int * 16 + b / 16, a / 4, a as int % 4 * 16 + b / 16, 64);
    Remainder(n, a as int * 1024 + b as int * 4 + c / 64, c % 64, 64);
    Remainder(a as int * 1024 + b as int * 4 + c / 64, a as int * 16 + b / 16, b as int % 16 * 4 + c / 64, 64);
  }

  /** The symbols of one group, as the code picks them out of `n`. */
  method Group(a: Byte, b: Byte, c: Byte) returns (four: string)
    ensures |four| == 4 && forall p :: 0 <= p < 4 ==> four[p] == Symbol(Field(a, b, c, p))
  {
    var n := a as int * 0x1_0000 + b as int * 0x100 + c;
    ThreeBytes(a, b, c);
    AlphabetIsSymbols();
    four := [ALPHABET[n / 0x4_0000 % 64], ALPHABET[n / 0x1000 % 64], ALPHABET[n / 64 % 64], ALPHABET[n % 64]];
  }

  /** Two or three symbols of a last, partial group; the missing octets count
      as zero. */
  method B64urlEncode(bytes: seq<Byte>) returns (out: string)
    ensures out == Text(bytes)
  {
    out := "";
    var full := |bytes| - |bytes| % 3;
    var i := 0;
    while i < full
      invariant 0 <= i <= full && i % 3 == 0
      invariant |out| == i / 3 * 4
      invariant forall k :: 0 <= k < |out| ==> out[k] == Symbol(SextetAt(bytes, k))
    {
      var four := Group(bytes[i], bytes[i + 1], bytes[i + 2]);
      GroupText(bytes, i / 3, four);
      out := out + four;
      i := i + 3;
    }
    var rest := |bytes| - full;
    if rest == 1 {
      var four := Group(bytes[full], 0, 0);
      GroupText(bytes, full / 3, four);
      out := out + four[..2];
    } else if rest == 2 {
      var four := Group(bytes[full], bytes[full + 1], 0);
      GroupText(bytes, full / 3, four);
      out := out + four[..3];
    }
  }

  lemma GroupText(b: seq<Byte>, g: nat, four: string)
    requires |four| == 4
    requires forall p :: 0 <= p < 4 ==> four[p] == Symbol(Field(At(b, 3 * g), At(b, 3 * g + 1), At(b, 3 * g + 2), p))
    ensures forall k :: 4 * g <= k < 4 * g + 4 ==> four[k - 4 * g] == Symbol(SextetAt(b, k))
  {
    forall k | 4 * g <= k < 4 * g + 4
      ensures four[k - 4 * g] == Symbol(SextetAt(b, k))
    {
      assert k / 4 == g && k % 4 == k - 4 * g;
    }
  }

  /** `(acc << 6) | v` on a 32-bit integer only ever adds a multiple of 2^32 to
      the sum, so the low bits are those of the previous value and `v`. */
  lemma Wraps(acc: int, v: Sextet) returns (a: int)
    ensures Int32(acc * 64 + v) == a * 64 + v
    ensures a % 64 == acc % 64
  {
    var wraps := (acc * 64 + v + 0x8000_0000) / 0x1_0000_0000;
    a := acc - wraps * 0x400_0000;
    assert a == acc - 64 * (wraps * 0x10_0000);
    Shifted(acc, wraps * 0x10_0000, 64);
  }

  lemma Shifted(x: int, k: int, m: int)
    requires m > 0
    ensures (x - m * k) % m == x % m
  {
    var q, r := x / m, x % m;
    assert x - m * k == m * (q - k) + r;
    Remainder(x - m * k, q - k, r, m);
  }

  /** Shifting six more bits into the accumulator: whatever it held above its
      low six bits, and however often it has wrapped, does not reach the octet
      read out of it. */
  lemma AccumulatorOctet(acc: int, v: Sextet)
    ensures var next := Int32(acc * 64 + v);
      && next % 64 == v
      && next % 256 == acc % 64 % 4 * 64 + v
      && next / 4 % 256 == acc % 64 % 16 * 16 + v / 4
      && next / 16 % 256 == acc % 64 * 4 + v / 16
  {
    var a := Wraps(acc, v);
    LastOctet(a / 64, a % 64, v);
    MiddleOctet(a / 64, a % 64, v);
    FirstOctet(a / 64, a % 64, v);
    Remainder(a * 64 + v, a, v, 64);
  }

  /** The low eight bits of three groups of six. */
  lemma LastOctet(q: int, u: Sextet, v: Sextet)
    ensures ((q * 64 + u) * 64 + v) % 256 == u % 4 * 64 + v
  {
    Remainder((q * 64 + u) * 64 + v, q * 16 + u / 4, u % 4 * 64 + v, 256);
  }

  /** The eight bits above the lowest two. */
  lemma MiddleOctet(q: int, u: Sextet, v: Sextet)
    ensures ((q * 64 + u) * 64 + v) / 4 % 256 == u % 16 * 16 + v / 4
  {
    var high := q * 4 + u / 16;
    Remainder((q * 64 + u) * 64 + v, 256 * high + (u % 16 * 16 + v / 4), v % 4, 4);
    Remainder(256 * high + (u % 16 * 16 + v / 4), high, u % 16 * 16 + v / 4, 256);
  }

  /** The eight bits above the lowest four. */
  lemma FirstOctet(q: int, u: Sextet, v: Sextet)
    ensures ((q * 64 + u) * 64 + v) / 16 % 256 == u * 4 + v / 16
  {
    Remainder((q * 64 + u) * 64 + v, 256 * q + (u * 4 + v / 16), v % 16, 16);
    Remainder(256 * q + (u * 4 + v / 16), q, u * 4 + v / 16, 256);
  }

  /** How many whole octets `i` symbols complete, and how many bits are over. */
  lemma Progress(i: nat)
    ensures i % 4 == 0 ==> (i + 1) * 3 / 4 == i * 3 / 4 && i * 6 - i * 3 / 4 * 8 == 0
    ensures i % 4 != 0 ==> (i + 1) * 3 / 4 == i * 3 / 4 + 1 && i * 6 - i * 3 / 4 * 8 == 8 - 2 * (i % 4)
    ensures i % 4 != 0 ==> i * 3 / 4 == i / 4 * 3 + i % 4 - 1
  {
    var g, r := i / 4, i % 4;
    var over := if r == 0 then 0 else r - 1;
    Remainder(i * 3, 3 * g + over, r * 3 - over * 4, 4);
    var next := if r == 0 then 0 else r;
    Remainder((i + 1) * 3, 3 * g + next, (r + 1) * 3 - next * 4, 4);
  }

  /** The octet completed by the symbol at `i`. */
  lemma NewOctet(text: string, i: nat, acc: int)
    requires i % 4 != 0 && acc % 64 == ValueAt(text, i - 1)
    ensures Int32(acc * 64 + ValueAt(text, i)) / Power2(2 * (3 - i % 4)) % 256 == OctetAt(text, i * 3 / 4)
  {
    hide Int32, Power2, ValueAt, OctetAt;
    var g := i / 4;
    AccumulatorOctet(acc, ValueAt(text, i));
    Powers();
    Progress(i);
    OctetInGroup(text, g, i % 4 - 1);
    assert i == 4 * g + i % 4;
  }

  /** The two checks on what is left over read as the code makes them. */
  lemma LeftOver(text: string, acc: int, bits: nat)
    requires |text| % 4 != 1 && bits == |text| * 6 - |text| * 3 / 4 * 8
    requires |text| > 0 ==> acc % 64 == ValueAt(text, |text| - 1)
    ensures bits > 0 && acc % Power2(bits) != 0 <==> !TrailingZero(text)
  {
    hide ValueAt;
    LowBits(acc);
    Progress(|text|);
  }

  method B64urlDecode(text: string, reverse: array<int>) returns (r: Option<seq<Byte>>)
    requires reverse.Length == 128
    requires forall c: char | c < 128 as char :: reverse[c as int] == if IsSymbol(c) then Value(c) else -1
    ensures r == Decoded(text)
  {
    hide Int32, OctetAt, Power2, TrailingZero;
    if |text| % 4 == 1 { return None; }
    var out := new Byte[|text| * 3 / 4](_ => 0);
    var acc, bits, written := 0, 0, 0;
    var i := 0;
    while i < |text|
      invariant 0 <= i <= |text|
      invariant forall k :: 0 <= k < i ==> IsSymbol(text[k])
      invariant written == i * 3 / 4 && bits == i * 6 - written * 8
      invariant i > 0 ==> acc % 64 == ValueAt(text, i - 1)
      invariant forall j :: 0 <= j < written ==> out[j] == OctetAt(text, j)
    {
      var code := text[i] as int;
      if code > 127 { return None; }
      var value := reverse[code];
      if value < 0 { return None; }
      assert IsSymbol(text[i]) && value == Value(text[i]);
      AccumulatorOctet(acc, value);
      if i % 4 != 0 { NewOctet(text, i, acc); }
      Progress(i);
      acc := Int32(acc * 64 + value);
      bits := bits + 6;
      if bits >= 8 {
        bits := bits - 8;
        assert written < out.Length;
        out[written] := acc / Power2(bits) % 256;
        written := written + 1;
      }
      i := i + 1;
    }
    LeftOver(text, acc, bits);
    if bits > 0 && acc % Power2(bits) != 0 { return None; }
    assert out[..] == Octets(text);
    r := Some(out[..]);
  }

  function Power2(n: nat): (p: nat)
    ensures p > 0
  {
    if n == 0 then 1 else 2 * Power2(n - 1)
  }

  lemma LowBits(acc: int)
    ensures acc % Power2(2) == acc % 64 % 4 && acc % Power2(4) == acc % 64 % 16
    ensures Power2(2) == 4 && Power2(4) == 16
  {
    Powers();
    var h, l := acc / 64, acc % 64;
    Remainder(acc, 16 * h + l / 4, l % 4, 4);
    Remainder(acc, 4 * h + l / 16, l % 16, 16);
  }

  // -- the laws -------------------------------------------------------------

  lemma TextSymbols(b: seq<Byte>)
    ensures forall i :: 0 <= i < |Text(b)| ==> IsSymbol(Text(b)[i]) && Value(Text(b)[i]) == SextetAt(b, i)
  {
    forall i | 0 <= i < |Text(b)|
      ensures IsSymbol(Text(b)[i]) && Value(Text(b)[i]) == SextetAt(b, i)
    {
      SymbolValue(SextetAt(b, i));
    }
  }

  lemma LengthsMatch(n: nat)
    ensures EncodedLength(n) * 3 / 4 == n && EncodedLength(n) % 4 != 1
    ensures EncodedLength(n) % 4 == 2 <==> n % 3 == 1
    ensures EncodedLength(n) % 4 == 3 <==> n % 3 == 2
  {
    var g := n / 3;
  }

  lemma SextetInGroup(b: seq<Byte>, g: nat, p: nat)
    requires p < 4
    ensures SextetAt(b, 4 * g + p) == Field(At(b, 3 * g), At(b, 3 * g + 1), At(b, 3 * g + 2), p)
  {
    assert (4 * g + p) / 4 == g && (4 * g + p) % 4 == p;
  }

  lemma OctetInGroup(t: string, g: nat, p: nat)
    requires p < 3
    ensures OctetAt(t, 3 * g + p)
            == Join(ValueAt(t, 4 * g), ValueAt(t, 4 * g + 1), ValueAt(t, 4 * g + 2), ValueAt(t, 4 * g + 3), p)
  {
    assert (3 * g + p) / 3 == g && (3 * g + p) % 3 == p;
  }

  /** The symbol at a position holds that position's field; past the end of the
      text, the fields of the missing octets are zero. */
  lemma ValueOfText(b: seq<Byte>, g: nat, p: nat)
    requires p < 4 && 3 * g < |b|
    ensures ValueAt(Text(b), 4 * g + p) == Field(At(b, 3 * g), At(b, 3 * g + 1), At(b, 3 * g + 2), p)
  {
    SextetInGroup(b, g, p);
    LengthsMatch(|b|);
    if 4 * g + p < |Text(b)| {
      SymbolValue(SextetAt(b, 4 * g + p));
    } else {
      assert g == |b| / 3;
    }
  }

  lemma OctetBack(b: seq<Byte>, j: nat)
    requires j < |b|
    ensures OctetAt(Text(b), j) == b[j]
  {
    hide Field, Join, Text, OctetAt, ValueAt;
    var g := j / 3;
    ValueOfText(b, g, 0);
    ValueOfText(b, g, 1);
    ValueOfText(b, g, 2);
    ValueOfText(b, g, 3);
    OctetInGroup(Text(b), g, j % 3);
    JoinFields(At(b, 3 * g), At(b, 3 * g + 1), At(b, 3 * g + 2));
  }

  lemma PartialFields(x: Byte, y: Byte)
    ensures Field(x, 0, 0, 1) % 16 == 0 && Field(x, y, 0, 2) % 4 == 0
  {
    Remainder(x as int % 4 * 16, x % 4, 0, 16);
    Remainder(y as int % 16 * 4, y % 16, 0, 4);
  }

  lemma TextEndsInZeros(b: seq<Byte>)
    ensures TrailingZero(Text(b))
  {
    hide Field, ValueAt;
    LengthsMatch(|b|);
    if |b| % 3 != 0 {
      var g := |b| / 3;
      ValueOfText(b, g, |b| % 3);
      PartialFields(At(b, 3 * g), At(b, 3 * g + 1));
      assert |Text(b)| - 1 == 4 * g + |b| % 3;
    }
  }

  /** What is written out is accepted, and reads back as the same bytes. */
  lemma DecodeEncode(b: seq<Byte>)
    ensures Decoded(Text(b)) == Some(b)
  {
    TextSymbols(b);
    LengthsMatch(|b|);
    TextEndsInZeros(b);
    forall j | 0 <= j < |b|
      ensures OctetAt(Text(b), j) == b[j]
    {
      OctetBack(b, j);
    }
    assert Octets(Text(b)) == b;
  }

  lemma OctetsPadded(t: string, g: nat, p: nat)
    requires Canonical(t) && p < 3 && 4 * g < |t|
    ensures At(Octets(t), 3 * g + p)
            == Join(ValueAt(t, 4 * g), ValueAt(t, 4 * g + 1), ValueAt(t, 4 * g + 2), ValueAt(t, 4 * g + 3), p)
  {
    OctetInGroup(t, g, p);
    if 3 * g + p >= |Octets(t)| {
      assert g == |t| / 4 && |t| % 4 <= p + 1;
    }
  }

  lemma LengthsBack(n: nat)
    requires n % 4 != 1
    ensures EncodedLength(n * 3 / 4) == n
  {
  }

  lemma SymbolBack(t: string, i: nat)
    requires Canonical(t) && i < |t|
    ensures Symbol(ValueAt(t, i)) == t[i]
  {
    ValueSymbol(t[i]);
  }

  lemma SymbolRebuilt(t: string, i: nat)
    requires Canonical(t) && i < |t|
    ensures Symbol(SextetAt(Octets(t), i)) == t[i]
  {
    hide Field, Join, SextetAt, OctetAt, Octets, Canonical, TrailingZero, ValueAt;
    var g, b := i / 4, Octets(t);
    SextetInGroup(b, g, i % 4);
    OctetsPadded(t, g, 0);
    OctetsPadded(t, g, 1);
    OctetsPadded(t, g, 2);
    FieldsOfJoin(ValueAt(t, 4 * g), ValueAt(t, 4 * g + 1), ValueAt(t, 4 * g + 2), ValueAt(t, 4 * g + 3));
    SymbolBack(t, i);
  }

  /** Every accepted text is the one its bytes are written as. */
  lemma EncodeDecode(t: string)
    requires Decoded(t).Some?
    ensures Text(Decoded(t).value) == t
  {
    hide SextetAt, OctetAt, Symbol, EncodedLength;
    LengthsBack(|t|);
    forall i | 0 <= i < |t|
      ensures Text(Octets(t))[i] == t[i]
    {
      SymbolRebuilt(t, i);
    }
  }

  /** Each byte string has exactly one accepted spelling. */
  lemma OneSpelling(b: seq<Byte>, t: string)
    ensures Decoded(t) == Some(b) <==> t == Text(b)
  {
    DecodeEncode(b);
    if Decoded(t) == Some(b) {
      EncodeDecode(t);
    }
  }

  /** A 43-character id decodes to 32 bytes or not at all, and the 32-byte keys
      are exactly what host IDs name. */
  lemma HostIdIsKey(t: string)
    ensures |t| == HOST_ID_LENGTH && Decoded(t).Some? ==> |Decoded(t).value| == KEY_BYTES
    ensures HostKey(t).Some? <==> exists k: seq<Byte> :: |k| == KEY_BYTES && t == Text(k)
  {
    if HostKey(t).Some? {
      EncodeDecode(t);
      assert |HostKey(t).value| == KEY_BYTES && t == Text(HostKey(t).value);
    }
    forall k: seq<Byte> | |k| == KEY_BYTES && t == Text(k)
      ensures HostKey(t).Some?
    {
      DecodeEncode(k);
    }
  }

  /** Bit `k` of a byte string read most significant first, zero past its end. */
  function BitAt(b: seq<Byte>, k: nat): int {
    At(b, k / 8) as int / Power2(7 - k % 8) % 2
  }

  lemma BitInGroup(b: seq<Byte>, g: nat, o: nat)
    requires o < 24
    ensures BitAt(b, 24 * g + o) == At(b, 3 * g + o / 8) as int / Power2(7 - o % 8) % 2
  {
    hide Power2, At;
    Remainder(24 * g + o, 3 * g + o / 8, o % 8, 8);
  }

  /** Section 4 of RFC 4648: the symbols spell the bits of the bytes, six at a
      time. */
  lemma SextetsAreBits(b: seq<Byte>, i: nat, r: nat)
    requires r < 6
    ensures SextetAt(b, i) as int / Power2(5 - r) % 2 == BitAt(b, 6 * i + r)
  {
    hide Power2, At, Field, SextetAt, BitAt;
    var g, p := i / 4, i % 4;
    assert i == 4 * g + p;
    SextetInGroup(b, g, p);
    BitInGroup(b, g, 6 * p + r);
    FieldBits(At(b, 3 * g), At(b, 3 * g + 1), At(b, 3 * g + 2), p, r);
  }

  lemma Powers()
    ensures Power2(0) == 1 && Power2(1) == 2 && Power2(2) == 4 && Power2(3) == 8
    ensures Power2(4) == 16 && Power2(5) == 32 && Power2(6) == 64 && Power2(7) == 128
  {
  }

  /** A bit below the `2 * m` place does not see what lies above it. */
  lemma LowBit(hi: int, lo: int, m: int, k: int)
    requires 0 <= hi && 0 <= lo && m > 0 && k > 0
    ensures (hi * (2 * m * k) + lo) / m % 2 == lo / m % 2
  {
    var q, r := lo / m, lo % m;
    assert hi * (2 * m * k) + lo == m * (2 * (hi * k) + q) + r;
    Remainder(hi * (2 * m * k) + lo, 2 * (hi * k) + q, r, m);
  }

  lemma Nested(x: Byte)
    ensures x / 4 / 2 == x / 8 && x / 4 / 4 == x / 16 && x / 4 / 8 == x / 32 && x / 4 / 16 == x / 64 && x / 4 / 32 == x / 128
    ensures x / 16 / 2 == x / 32 && x / 16 / 4 == x / 64 && x / 16 / 8 == x / 128
    ensures x / 64 / 2 == x / 128
  {
  }

  lemma MaskedBits(x: Byte)
    ensures x % 16 / 8 % 2 == x / 8 % 2 && x % 16 / 4 % 2 == x / 4 % 2 && x % 16 / 2 % 2 == x / 2 % 2 && x % 16 % 2 == x % 2
  {
    var h: int, l: int := x / 16, x % 16;
    assert x == h * 16 + l;
    LowBit(h, l, 8, 1);
    LowBit(h, l, 4, 2);
    LowBit(h, l, 2, 4);
    LowBit(h, l, 1, 8);
  }

  lemma MaskedTwoBits(x: Byte)
    ensures x % 4 / 2 % 2 == x / 2 % 2 && x % 4 % 2 == x % 2
  {
    var h: int, l: int := x / 4, x % 4;
    assert x == h * 4 + l;
    LowBit(h, l, 2, 1);
    LowBit(h, l, 1, 2);
  }

  lemma OpeningBits(x: Byte)
    ensures x / 4 / 32 % 2 == x / 128 % 2 && x / 4 / 16 % 2 == x / 64 % 2 && x / 4 / 8 % 2 == x / 32 % 2
    ensures x / 4 / 4 % 2 == x / 16 % 2 && x / 4 / 2 % 2 == x / 8 % 2
  {
    Nested(x);
  }

  lemma ClosingBits(x: Byte)
    ensures x % 64 / 32 % 2 == x / 32 % 2 && x % 64 / 16 % 2 == x / 16 % 2 && x % 64 / 8 % 2 == x / 8 % 2
    ensures x % 64 / 4 % 2 == x / 4 % 2 && x % 64 / 2 % 2 == x / 2 % 2 && x % 64 % 2 == x % 2
  {
    var h: int, l: int := x / 64, x % 64;
    assert x == h * 64 + l;
    LowBit(h, l, 32, 1);
    LowBit(h, l, 16, 2);
    LowBit(h, l, 8, 4);
    LowBit(h, l, 4, 8);
    LowBit(h, l, 2, 16);
    LowBit(h, l, 1, 32);
  }

  /** Two bits of `x`, then four of `y`. */
  lemma TwoFourBits(x: Byte, y: Byte)
    ensures var f := x as int % 4 * 16 + y / 16;
      && f / 32 % 2 == x as int / 2 % 2 && f / 16 % 2 == x as int % 2
      && f / 8 % 2 == y as int / 128 % 2 && f / 4 % 2 == y as int / 64 % 2
      && f / 2 % 2 == y as int / 32 % 2 && f % 2 == y as int / 16 % 2
  {
    var h: int, l: int := x % 4, y / 16;
    Nested(y);
    MaskedTwoBits(x);
    LowBit(h, l, 8, 1);
    LowBit(h, l, 4, 2);
    LowBit(h, l, 2, 4);
    LowBit(h, l, 1, 8);
    Remainder(h * 16 + l, h, l, 16);
  }

  /** Four bits of `x`, then two of `y`. */
  lemma FourTwoBits(x: Byte, y: Byte)
    ensures var f := x as int % 16 * 4 + y / 64;
      && f / 32 % 2 == x as int / 8 % 2 && f / 16 % 2 == x as int / 4 % 2
      && f / 8 % 2 == x as int / 2 % 2 && f / 4 % 2 == x as int % 2
      && f / 2 % 2 == y as int / 128 % 2 && f % 2 == y as int / 64 % 2
  {
    var h: int, l: int := x % 16, y / 64;
    var f := h * 4 + l;
    Nested(y);
    MaskedBits(x);
    LowBit(h, l, 2, 1);
    LowBit(h, l, 1, 2);
    Remainder(f, h, l, 4);
    assert f / 8 == h / 2 && f / 16 == h / 4 && f / 32 == h / 8;
  }

  lemma FirstField(x: Byte, r: nat)
    requires r < 6
    ensures x / 4 / Power2(5 - r) % 2 == x / Power2(7 - r) % 2
  {
    hide Power2;
    Powers();
    OpeningBits(x);
    match r case 0 => case 1 => case 2 => case 3 => case 4 => case _ =>
  }

  lemma SecondField(x: Byte, y: Byte, r: nat)
    requires r < 6
    ensures var f := x as int % 4 * 16 + y / 16;
      f / Power2(5 - r) % 2 == if r < 2 then x as int / Power2(1 - r) % 2 else y as int / Power2(9 - r) % 2
  {
    hide Power2;
    Powers();
    TwoFourBits(x, y);
    match r case 0 => case 1 => case 2 => case 3 => case 4 => case _ =>
  }

  lemma ThirdField(x: Byte, y: Byte, r: nat)
    requires r < 6
    ensures var f := x as int % 16 * 4 + y / 64;
      f / Power2(5 - r) % 2 == if r < 4 then x as int / Power2(3 - r) % 2 else y as int / Power2(11 - r) % 2
  {
    hide Power2;
    Powers();
    FourTwoBits(x, y);
    match r case 0 => case 1 => case 2 => case 3 => case 4 => case _ =>
  }

  lemma FourthField(x: Byte, r: nat)
    requires r < 6
    ensures x % 64 / Power2(5 - r) % 2 == x / Power2(5 - r) % 2
  {
    hide Power2;
    Powers();
    ClosingBits(x);
    match r case 0 => case 1 => case 2 => case 3 => case 4 => case _ =>
  }

  lemma FieldBits(x: Byte, y: Byte, z: Byte, p: nat, r: nat)
    requires p < 4 && r < 6
    ensures var o := 6 * p + r;
      var octet: int := if o < 8 then x else if o < 16 then y else z;
      Field(x, y, z, p) as int / Power2(5 - r) % 2 == octet / Power2(7 - o % 8) % 2
  {
    hide Power2;
    Places(p, r);
    if p == 0 {
      FirstField(x, r);
    } else if p == 1 {
      SecondField(x, y, r);
    } else if p == 2 {
      ThirdField(y, z, r);
    } else {
      FourthField(z, r);
    }
  }

  /** Which bit of which octet the `r`-th bit of field `p` is. */
  lemma Places(p: nat, r: nat)
    requires p < 4 && r < 6
    ensures p == 0 ==> (6 * p + r) % 8 == r
    ensures p == 1 ==> (6 * p + r) % 8 == if r < 2 then 6 + r else r - 2
    ensures p == 2 ==> (6 * p + r) % 8 == if r < 4 then 4 + r else r - 4
    ensures p == 3 ==> (6 * p + r) % 8 == 2 + r
  {
  }
}
