/** JSONC reduced to JSON (src-tauri/src/editors.rs:353-412). */
module Jsonc {
  import opened Common

  /** Unicode White_Space, which is what the language's `is_whitespace` tests. */
  predicate IsWhitespace(c: char) {
    || '\U{0009}' <= c <= '\U{000D}' || c == ' ' || c == '\U{0085}' || c == '\U{00A0}' || c == '\U{1680}'
    || '\U{2000}' <= c <= '\U{200A}' || c == '\U{2028}' || c == '\U{2029}' || c == '\U{202F}' || c == '\U{205F}'
    || c == '\U{3000}'
  }

  // -- the text as tokens ---------------------------------------------------

  /** A string with its quotes; a line comment without the newline that ends it;
      a block comment; a comma; a closing bracket; and single other characters. */
  datatype Token =
    | Str(text: string)
    | Line(text: string, newline: bool)
    | Block(text: string)
    | Comma
    | Close(c: char)
    | Space(c: char)
    | Other(c: char)

  function Text(tok: Token): string {
    match tok
    case Str(text) => text
    case Line(text, newline) => text + if newline then "\n" else ""
    case Block(text) => text
    case Comma => ","
    case Close(c) => [c]
    case Space(c) => [c]
    case Other(c) => [c]
  }

  /** How far a string's rest reaches: past its closing quote, or to the end. */
  function StringLength(s: string): (n: nat)
    ensures n <= |s|
  {
    if s == [] then 0
    else if s[0] == '\\' then (if |s| == 1 then 1 else 2 + StringLength(s[2..]))
    else if s[0] == '"' then 1
    else 1 + StringLength(s[1..])
  }

  /** How far a line reaches: up to its newline, or to the end. */
  function LineLength(s: string): (n: nat)
    ensures n <= |s| && (n < |s| ==> s[n] == '\n')
    ensures forall i :: 0 <= i < n ==> s[i] != '\n'
  {
    if s == [] || s[0] == '\n' then 0 else 1 + LineLength(s[1..])
  }

  /** How far a block comment's rest reaches: past the first slash that follows
      a star, or to the end. */
  function BlockLength(s: string, prev: char): (n: nat)
    ensures n <= |s|
  {
    if s == [] then 0
    else if prev == '*' && s[0] == '/' then 1
    else 1 + BlockLength(s[1..], s[0])
  }

  function First(t: string): (tok: Token)
    requires t != []
    ensures 0 < |Text(tok)| <= |t| && t[..|Text(tok)|] == Text(tok)
  {
    var c := t[0];
    if c == '"' then Str(t[..1 + StringLength(t[1..])])
    else if c == '/' && |t| > 1 && t[1] == '/' then
      var n := LineLength(t); Line(t[..n], n < |t|)
    else if c == '/' && |t| > 1 && t[1] == '*' then Block(t[..2 + BlockLength(t[2..], '\0')])
    else if c == ',' then Comma
    else if c == '}' || c == ']' then Close(c)
    else if IsWhitespace(c) then Space(c)
    else Other(c)
  }

  function Lex(t: string): seq<Token>
    decreases |t|
  {
    if t == [] then [] else var tok := First(t); [tok] + Lex(t[|Text(tok)|..])
  }

  function Flatten(ts: seq<Token>): string {
    if ts == [] then [] else Text(ts[0]) + Flatten(ts[1..])
  }

  // -- what is kept ---------------------------------------------------------

  predicate IsComment(tok: Token) {
    tok.Line? || tok.Block?
  }

  predicate IsGap(tok: Token) {
    IsComment(tok) || tok.Space?
  }

  /** The first token that is neither whitespace nor a comment closes a bracket. */
  predicate Closes(ts: seq<Token>) {
    ts != [] && (ts[0].Close? || (IsGap(ts[0]) && Closes(ts[1..])))
  }

  /** The comma that opens `ts` is a trailing one. */
  predicate Trailing(ts: seq<Token>) {
    ts != [] && ts[0].Comma? && Closes(ts[1..])
  }

  /** The tokens without comments, a line comment's newline kept, and without
      trailing commas. */
  function Kept(ts: seq<Token>): seq<Token> {
    if ts == [] then []
    else
      (if ts[0].Block? || Trailing(ts) then []
       else if ts[0].Line? then (if ts[0].newline then [Space('\n')] else [])
       else [ts[0]])
      + Kept(ts[1..])
  }

  function Json(t: string): string {
    Flatten(Kept(Lex(t)))
  }

  // -- the code -------------------------------------------------------------

  /** The output so far and the place in it of a comma that may be trailing. */
  datatype Scan = Scan(out: string, pending: Option<nat>) {
    predicate Valid() {
      pending.Some? ==> pending.value < |out| && out[pending.value] == ','
    }

    /** The output without the pending comma. */
    function Dropped(): string
      requires Valid()
    {
      if pending.Some? then out[..pending.value] + out[pending.value + 1..] else out
    }
  }

  /** One token taken in. */
  function After(s: Scan, tok: Token): (r: Scan)
    requires s.Valid()
    ensures r.Valid()
  {
    match tok
    case Str(text) => Scan(s.out + text, None)
    case Line(_, newline) => Scan(if newline then s.out + "\n" else s.out, s.pending)
    case Block(_) => s
    case Comma => Scan(s.out + ",", Some(|s.out|))
    case Close(c) => Scan(s.Dropped() + [c], None)
    case Space(c) => Scan(s.out + [c], s.pending)
    case Other(c) => Scan(s.out + [c], None)
  }

  /** What the output becomes when the tokens `ts` follow. */
  function Outcome(s: Scan, ts: seq<Token>): string
    requires s.Valid()
  {
    (if Closes(ts) then s.Dropped() else s.out) + Flatten(Kept(ts))
  }

  lemma KeptHead(tok: Token, ts: seq<Token>)
    ensures Flatten(Kept([tok] + ts)) == (if tok.Block? || (tok.Comma? && Closes(ts)) then [] else if tok.Line? then (if tok.newline then "\n" else []) else Text(tok))
                                         + Flatten(Kept(ts))
    ensures Closes([tok] + ts) <==> tok.Close? || (IsGap(tok) && Closes(ts))
  {
    assert ([tok] + ts)[1..] == ts;
    var kept := Kept(ts);
    assert ([Space('\n')] + kept)[1..] == kept && ([tok] + kept)[1..] == kept && [] + kept == kept;
  }

  /** Taking in the first token leaves the outcome as it was. */
  lemma Step(s: Scan, tok: Token, ts: seq<Token>)
    requires s.Valid()
    ensures Outcome(s, [tok] + ts) == Outcome(After(s, tok), ts)
  {
    hide Kept, Flatten, Closes;
    KeptHead(tok, ts);
    if tok.Comma? {
      CommaStep(s, Closes(ts), Flatten(Kept(ts)));
    } else if tok.Space? || tok.Line? {
      var added := if tok.Space? then [tok.c] else if tok.newline then "\n" else [];
      DropThenAdd(s, added);
      AddFirst(s, added, Flatten(Kept(ts)));
    } else if !tok.Block? {
      AddFirst(s, Text(tok), Flatten(Kept(ts)));
    }
  }

  lemma AddFirst(s: Scan, added: string, tail: string)
    requires s.Valid()
    ensures s.out + (added + tail) == s.out + added + tail && s.Dropped() + (added + tail) == s.Dropped() + added + tail
    ensures s.out + [] == s.out
  {
  }

  lemma CommaStep(s: Scan, trailing: bool, tail: string)
    requires s.Valid()
    ensures s.out + ((if trailing then [] else ",") + tail)
            == (if trailing then After(s, Comma).Dropped() else After(s, Comma).out) + tail
  {
    assert (s.out + ",")[..|s.out|] == s.out && (s.out + ",")[|s.out| + 1..] == [];
  }

  lemma DropThenAdd(s: Scan, added: string)
    requires s.Valid()
    ensures Scan(s.out + added, s.pending).Dropped() == s.Dropped() + added
  {
  }

  method JsoncToJson(text: string) returns (out: string)
    ensures out == Json(text)
  {
    hide Kept, Flatten, Closes, Lex, IsWhitespace, Outcome, StringLength, LineLength, BlockLength, First;
    out := [];
    var pending: Option<nat>, i := None, 0;
    Start(text);
    while i < |text|
      invariant i <= |text|
      invariant Scan(out, pending).Valid()
      invariant Json(text) == Outcome(Scan(out, pending), Lex(text[i..]))
      decreases |text| - i
    {
      ghost var was, tok := text[i..], First(text[i..]);
      ghost var after := After(Scan(out, pending), tok);
      Step(Scan(out, pending), tok, Lex(was[|Text(tok)|..]));
      LexHead(was);
      FirstShape(was);
      var c := text[i];
      assert text[i + 1..] == was[1..] && (i + 1 < |text| ==> text[i + 2..] == was[2..]);
      i := i + 1;
      if c == '"' {
        pending := None;
        ghost var already := out;
        i, out := ReadString(text, i, out + [c]);
        assert out == already + ([c] + was[1..1 + StringLength(was[1..])]);
      } else if c == '/' && i < |text| && text[i] == '/' {
        i, out := SkipLine(text, i, out);
      } else if c == '/' && i < |text| && text[i] == '*' {
        i := SkipBlock(text, i + 1);
      } else if c == ',' {
        pending := Some(|out|);
        out := out + [c];
      } else if c == '}' || c == ']' {
        if pending.Some? {
          out := out[..pending.value] + out[pending.value + 1..];
          pending := None;
        }
        out := out + [c];
      } else if IsWhitespace(c) {
        out := out + [c];
      } else {
        pending := None;
        out := out + [c];
      }
      assert text[i..] == was[|Text(tok)|..];
      assert Scan(out, pending) == after;
    }
    assert text[i..] == [];
    Stop(out, pending);
  }

  lemma Start(text: string)
    ensures Outcome(Scan([], None), Lex(text)) == Json(text)
    ensures text[0..] == text
  {
  }

  lemma Stop(out: string, pending: Option<nat>)
    requires Scan(out, pending).Valid()
    ensures Outcome(Scan(out, pending), Lex([])) == out
  {
  }

  /** The first token, and where it ends. */
  lemma LexHead(t: string)
    requires t != []
    ensures Lex(t) == [First(t)] + Lex(t[|Text(First(t))|..])
  {
    hide First;
  }

  /** The first token by its first characters. */
  lemma FirstShape(t: string)
    requires t != []
    ensures t[0] == '"' ==> First(t) == Str([t[0]] + t[1..1 + StringLength(t[1..])])
    ensures t[0] == '/' && |t| > 1 && t[1] == '/' ==>
      var n := LineLength(t[1..]); First(t) == Line(t[..1 + n], 1 + n < |t|)
    ensures t[0] == '/' && |t| > 1 && t[1] == '*' ==> First(t) == Block(t[..2 + BlockLength(t[2..], '\0')])
    ensures t[0] == '/' && !(|t| > 1 && (t[1] == '/' || t[1] == '*')) ==> First(t) == Other(t[0])
    ensures IsWhitespace(t[0]) ==> t[0] != '"' && t[0] != '/'
    ensures t[0] != '"' && t[0] != '/' ==>
      First(t) == if t[0] == ',' then Comma else if t[0] == '}' || t[0] == ']' then Close(t[0])
                  else if IsWhitespace(t[0]) then Space(t[0]) else Other(t[0])
  {
    hide Kept, StringLength, BlockLength, LineLength;
    LineHead(t);
    if t[0] == '"' {
      assert t[..1 + StringLength(t[1..])] == [t[0]] + t[1..1 + StringLength(t[1..])];
    }
  }

  lemma LineHead(s: string)
    requires s != []
    ensures LineLength(s) == if s[0] == '\n' then 0 else 1 + LineLength(s[1..])
  {
  }

  /** The rest of a string, copied as it is. */
  method ReadString(text: string, from: nat, already: string) returns (i: nat, out: string)
    requires from <= |text|
    ensures i == from + StringLength(text[from..]) && out == already + text[from..i]
  {
    hide StringLength;
    i, out := from, already;
    StringHead(text[from..]);
    while i < |text|
      invariant from <= i <= |text| && out == already + text[from..i]
      invariant from + StringLength(text[from..]) == i + StringLength(text[i..])
    {
      var s := text[i];
      StringHead(text[i..]);
      assert text[i..][1..] == text[i + 1..] && (i + 1 < |text| ==> text[i..][2..] == text[i + 2..]);
      out := out + [s];
      i := i + 1;
      assert text[from..i] == text[from..i - 1] + [s];
      if s == '\\' {
        if i < |text| {
          out := out + [text[i]];
          i := i + 1;
          assert text[from..i] == text[from..i - 1] + [text[i - 1]];
        }
      } else if s == '"' {
        return;
      }
    }
    StringHead(text[i..]);
  }

  lemma StringHead(s: string)
    ensures StringLength(s) == if s == [] then 0
                               else if s[0] == '\\' then (if |s| == 1 then 1 else 2 + StringLength(s[2..]))
                               else if s[0] == '"' then 1 else 1 + StringLength(s[1..])
  {
  }

  method SkipLine(text: string, from: nat, already: string) returns (i: nat, out: string)
    requires from <= |text|
    ensures var n := from + LineLength(text[from..]);
      if n < |text| then i == n + 1 && out == already + "\n" else i == n && out == already
  {
    i, out := from, already;
    while i < |text|
      invariant from <= i <= |text| && out == already
      invariant from + LineLength(text[from..]) == i + LineLength(text[i..])
    {
      var s := text[i];
      i := i + 1;
      if s == '\n' {
        out := out + [s];
        return;
      }
    }
  }

  method SkipBlock(text: string, from: nat) returns (i: nat)
    requires from <= |text|
    ensures i == from + BlockLength(text[from..], '\0')
  {
    i := from;
    var prev := '\0';
    while i < |text|
      invariant from <= i <= |text|
      invariant from + BlockLength(text[from..], '\0') == i + BlockLength(text[i..], prev)
    {
      var s := text[i];
      i := i + 1;
      if prev == '*' && s == '/' { return; }
      prev := s;
    }
  }

  lemma {:induction false} FlattenConcat(a: seq<Token>, b: seq<Token>)
    ensures Flatten(a + b) == Flatten(a) + Flatten(b)
  {
    if a == [] {
      assert a + b == b;
    } else {
      assert (a + b)[1..] == a[1..] + b;
      FlattenConcat(a[1..], b);
    }
  }
}
