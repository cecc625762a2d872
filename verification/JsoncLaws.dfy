/** What reducing JSONC to JSON deletes and what it leaves
    (src-tauri/src/editors.rs:353-412). */
module JsoncLaws {
  import opened Common
  import opened Jsonc

  /** Reading a text as tokens loses nothing. */
  lemma {:induction false} LexLosesNothing(t: string)
    ensures Flatten(Lex(t)) == t
    decreases |t|
  {
    hide First;
    if t != [] {
      var tok := First(t);
      var rest := t[|Text(tok)|..];
      LexLosesNothing(rest);
      assert Lex(t)[1..] == Lex(rest);
      assert t == Text(tok) + rest;
    }
  }

  // -- where comments and strings end ---------------------------------------

  /** The character at `i` stands behind an odd number of backslashes. */
  predicate Escaped(s: string, i: int) {
    0 < i <= |s| && s[i - 1] == '\\' && !Escaped(s, i - 1)
  }

  lemma {:induction false} EscapedLater(s: string, i: nat)
    requires |s| >= 2 && s[0] == '\\' && 2 <= i <= |s|
    ensures Escaped(s, i) <==> Escaped(s[2..], i - 2)
  {
    if i > 2 { EscapedLater(s, i - 1); } else { assert !Escaped(s, 0); }
  }

  lemma {:induction false} EscapedNext(s: string, i: nat)
    requires s != [] && s[0] != '\\' && 1 <= i <= |s|
    ensures Escaped(s, i) <==> Escaped(s[1..], i - 1)
  {
    if i > 1 { EscapedNext(s, i - 1); }
  }

  /** A quote that no backslash escapes. */
  predicate Quotes(s: string, i: int) {
    0 <= i < |s| && s[i] == '"' && !Escaped(s, i)
  }

  /** A string ends at its first quote that is not escaped, or with the text. */
  lemma {:induction false} StringStops(s: string)
    ensures var n := StringLength(s);
      && (forall i :: 0 <= i < n - 1 ==> !Quotes(s, i))
      && (n < |s| ==> n > 0 && Quotes(s, n - 1))
  {
    hide Escaped;
    var n := StringLength(s);
    if s != [] {
      NothingEscapes(s);
      if s[0] == '\\' && |s| > 1 {
        StringStops(s[2..]);
        forall i | 2 <= i < |s| ensures Quotes(s, i) <==> Quotes(s[2..], i - 2) { EscapedLater(s, i); }
      } else if s[0] != '"' && s[0] != '\\' {
        StringStops(s[1..]);
        forall i | 1 <= i < |s| ensures Quotes(s, i) <==> Quotes(s[1..], i - 1) { EscapedNext(s, i); }
      }
    }
  }

  lemma NothingEscapes(s: string)
    requires s != []
    ensures !Escaped(s, 0) && (Escaped(s, 1) <==> s[0] == '\\')
  {
  }

  /** A star and a slash. */
  predicate StarSlash(s: string, i: int) {
    0 < i < |s| && s[i - 1] == '*' && s[i] == '/'
  }

  lemma {:induction false} BlockStops(s: string, prev: char)
    ensures var n := BlockLength(s, prev);
      && (forall i :: 0 < i < n - 1 ==> !StarSlash(s, i))
      && (n > 1 ==> !(prev == '*' && s[0] == '/'))
      && (n < |s| ==> n > 0 && (StarSlash(s, n - 1) || (n == 1 && prev == '*' && s[0] == '/')))
  {
    if s != [] && !(prev == '*' && s[0] == '/') {
      BlockStops(s[1..], s[0]);
      assert forall i :: 1 < i < |s| ==> (StarSlash(s, i) <==> StarSlash(s[1..], i - 1));
    }
  }

  /** The first token of a text, by what stands there: a string runs to its first
      quote that is not escaped, a line comment to the newline, a block comment to
      the first star and slash past its opening; each to the end of the text when
      there is none. */
  lemma FirstToken(t: string)
    requires t != []
    ensures var tok := First(t); var n := |Text(tok)|;
      && (tok.Str? <==> t[0] == '"')
      && (tok.Line? <==> |t| > 1 && t[0] == '/' && t[1] == '/')
      && (tok.Block? <==> |t| > 1 && t[0] == '/' && t[1] == '*')
      && (tok.Comma? <==> t[0] == ',') && (tok.Close? <==> t[0] == '}' || t[0] == ']') && (tok.Space? <==> IsWhitespace(t[0]))
      && (tok.Str? ==> (forall i :: 0 <= i < n - 2 ==> !Quotes(t[1..], i)) && (n < |t| ==> Quotes(t[1..], n - 2)))
      && (tok.Line? ==> (forall i :: 0 <= i < |tok.text| ==> t[i] != '\n') && (tok.newline <==> |tok.text| < |t|)
                        && (tok.newline ==> t[|tok.text|] == '\n'))
      && (tok.Block? ==> (forall i :: 0 < i < n - 3 ==> !StarSlash(t[2..], i)) && (n < |t| ==> StarSlash(t[2..], n - 3)))
  {
    hide StringLength, BlockLength, Quotes, StarSlash, LineLength;
    StringStops(t[1..]);
    if |t| > 1 { BlockStops(t[2..], '\0'); }
  }

  // -- what is kept, token by token -----------------------------------------

  /** Only white space and comments stand between the token at `i` and a closing
      bracket. */
  predicate BeforeBracket(ts: seq<Token>, i: nat) {
    exists j :: i < j < |ts| && ts[j].Close? && forall k :: i < k < j ==> ts[k].Space? || ts[k].Line? || ts[k].Block?
  }

  lemma {:induction false} ClosesAhead(ts: seq<Token>, i: nat)
    requires i < |ts|
    ensures Closes(ts[i + 1..]) <==> BeforeBracket(ts, i)
    decreases |ts| - i
  {
    var rest := ts[i + 1..];
    if rest != [] {
      assert rest[0] == ts[i + 1] && rest[1..] == ts[i + 2..];
      ClosesAhead(ts, i + 1);
      if rest[0].Close? {
        assert BeforeBracket(ts, i);
      } else if IsGap(rest[0]) && BeforeBracket(ts, i + 1) {
        var j :| i + 1 < j < |ts| && ts[j].Close? && forall k :: i + 1 < k < j ==> ts[k].Space? || ts[k].Line? || ts[k].Block?;
        assert BeforeBracket(ts, i);
      }
    }
  }

  /** Each token in its turn: a comment goes, a line comment's newline stays; a
      comma before a closing bracket goes; all else stays. */
  lemma EachToken(ts: seq<Token>, i: nat)
    requires i < |ts|
    ensures Kept(ts[i..])
            == (if ts[i].Block? || (ts[i].Comma? && BeforeBracket(ts, i)) then []
                else if ts[i].Line? then (if ts[i].newline then [Space('\n')] else [])
                else [ts[i]])
               + Kept(ts[i + 1..])
  {
    hide Closes, BeforeBracket;
    ClosesAhead(ts, i);
    assert ts[i..][0] == ts[i] && ts[i..][1..] == ts[i + 1..];
  }

  // -- token lists that read back as themselves -----------------------------

  /** The rest of a string ends with its closing quote. */
  predicate Ends(s: string) {
    s != [] && (if s[0] == '\\' then |s| > 1 && Ends(s[2..]) else if s[0] == '"' then |s| == 1 else Ends(s[1..]))
  }

  /** Spelled as its kind of token is; a string that is not the last token ends. */
  predicate Sound(tok: Token, last: bool) {
    match tok
    case Str(s) => s != [] && s[0] == '"' && StringLength(s[1..]) == |s| - 1 && (last || Ends(s[1..]))
    case Line(s, _) => |s| >= 2
    case Block(s) => |s| >= 2
    case Comma => true
    case Close(c) => c == '}' || c == ']'
    case Space(c) => IsWhitespace(c)
    case Other(c) => c != '"' && c != ',' && c != '}' && c != ']' && !IsWhitespace(c)
  }

  /** Side by side the two would read as a comment. */
  predicate Joins(a: Token, b: Token) {
    a == Other('/') && (IsComment(b) || b == Other('/') || b == Other('*'))
  }

  predicate Proper(ts: seq<Token>) {
    ts != [] ==> Sound(ts[0], |ts| == 1) && (|ts| > 1 ==> !Joins(ts[0], ts[1])) && Proper(ts[1..])
  }

  lemma {:induction false} StringEnds(s: string)
    ensures StringLength(s[..StringLength(s)]) == StringLength(s)
    ensures StringLength(s) < |s| ==> Ends(s[..StringLength(s)])
    decreases |s|
  {
    var n := StringLength(s);
    if s != [] {
      if s[0] == '\\' {
        if |s| > 1 {
          StringEnds(s[2..]);
          assert s[..n][2..] == s[2..][..n - 2];
        }
      } else if s[0] != '"' {
        StringEnds(s[1..]);
        assert s[..n][1..] == s[1..][..n - 1];
      }
    }
  }

  lemma {:induction false} EndsThere(s: string, more: string)
    requires Ends(s)
    ensures StringLength(s + more) == |s|
    decreases |s|
  {
    if s[0] == '\\' {
      EndsThere(s[2..], more);
      assert (s + more)[2..] == s[2..] + more;
    } else if s[0] != '"' {
      EndsThere(s[1..], more);
      assert (s + more)[1..] == s[1..] + more;
    }
  }

  lemma FirstIsSound(t: string)
    requires t != []
    ensures var tok := First(t); Sound(tok, |Text(tok)| == |t|)
    ensures var tok := First(t); tok == Other('/') && |t| > 1 ==> t[1] != '/' && t[1] != '*'
  {
    hide StringLength, BlockLength, LineLength, Ends;
    if t[0] == '"' {
      StringEnds(t[1..]);
      var n := StringLength(t[1..]);
      assert t[..1 + n][1..] == t[1..][..n];
    }
    LineHead(t);
    if |t| > 1 { LineHead(t[1..]); }
  }

  lemma {:induction false} LexIsProper(t: string)
    ensures Proper(Lex(t))
    decreases |t|
  {
    hide First, Sound;
    if t != [] {
      var tok := First(t);
      var rest := t[|Text(tok)|..];
      LexIsProper(rest);
      FirstIsSound(t);
      assert Lex(t)[1..] == Lex(rest);
      if tok == Other('/') && rest != [] {
        FirstShape(rest);
        Spelled(rest);
      }
    }
  }

  /** A token that begins with neither slash nor star joins nothing. */
  lemma Spelled(t: string)
    requires t != [] && t[0] != '/' && t[0] != '*'
    ensures !Joins(Other('/'), First(t))
  {
    hide StringLength, BlockLength, LineLength;
  }

  predicate NoComments(ts: seq<Token>) {
    forall i :: 0 <= i < |ts| ==> !IsComment(ts[i])
  }

  lemma FirstOf(tok: Token, more: string)
    requires Sound(tok, more == []) && !IsComment(tok)
    requires tok == Other('/') && more != [] ==> more[0] != '/' && more[0] != '*'
    ensures Text(tok) + more != [] && First(Text(tok) + more) == tok
  {
    hide BlockLength, LineLength, Ends, StringLength;
    if tok.Str? {
      var s := tok.text;
      assert (s + more)[1..] == s[1..] + more;
      if more == [] {
        assert s[1..] + more == s[1..];
      } else {
        EndsThere(s[1..], more);
      }
      assert (s + more)[..|s|] == s;
    }
  }

  /** Tokens without comments read back as they are, when none join. */
  lemma {:induction false} ReadsBack(ts: seq<Token>)
    requires Proper(ts) && NoComments(ts)
    ensures Lex(Flatten(ts)) == ts
  {
    hide First, Sound;
    if ts != [] {
      var tok, more := ts[0], Flatten(ts[1..]);
      ReadsBack(ts[1..]);
      assert Proper(ts[1..]);
      if |ts| > 1 {
        NotEmpty(ts[1], |ts| == 2);
        assert more[0] == Text(ts[1])[0];
      }
      FirstOf(tok, more);
      assert (Text(tok) + more)[|Text(tok)|..] == more;
      assert ts == [tok] + ts[1..];
    }
  }

  lemma NotEmpty(tok: Token, last: bool)
    requires Sound(tok, last)
    ensures Text(tok) != []
    ensures !IsComment(tok) && !Joins(Other('/'), tok) ==> Text(tok)[0] != '/' && Text(tok)[0] != '*'
  {
    hide StringLength, Ends;
  }

  // -- what is kept ---------------------------------------------------------

  /** What stands before a bracket's whitespace and comments is kept with them. */
  lemma {:induction false} KeptCloses(ts: seq<Token>)
    requires Closes(ts)
    ensures Kept(ts) != [] && (Kept(ts)[0].Space? || Kept(ts)[0].Close?)
  {
    if !ts[0].Close? { KeptCloses(ts[1..]); }
  }

  /** Deleting brings no two tokens together that would read as a comment. */
  lemma {:induction false} KeptIsProper(ts: seq<Token>)
    requires Proper(ts)
    ensures Proper(Kept(ts)) && NoComments(Kept(ts))
    ensures forall a :: ts != [] && Kept(ts) != [] && !Joins(a, ts[0]) ==> !Joins(a, Kept(ts)[0])
  {
    hide Closes, IsWhitespace;
    if ts != [] {
      var rest := ts[1..];
      KeptIsProper(rest);
      SoundLonger(ts[0], |ts| == 1);
      var head := if ts[0].Block? || Trailing(ts) then [] else if ts[0].Line? then (if ts[0].newline then [Space('\n')] else []) else [ts[0]];
      assert Kept(ts) == head + Kept(rest);
      if head == [] {
        assert Kept(ts) == Kept(rest);
        if Trailing(ts) { KeptCloses(rest); }
      } else {
        assert Kept(ts)[1..] == Kept(rest);
        assert rest == [] ==> Kept(rest) == [];
      }
    }
  }

  lemma SoundLonger(tok: Token, last: bool)
    requires Sound(tok, last)
    ensures !last ==> Sound(tok, true)
    ensures Sound(Space('\n'), last)
  {
  }

  /** The reduced text, read as tokens, is the tokens of the original without its
      comments and its trailing commas: nothing else changes, no comment is left
      outside strings, and deleting never makes a new one. */
  lemma ReducedTokens(t: string)
    ensures Lex(Json(t)) == Kept(Lex(t))
    ensures NoComments(Lex(Json(t)))
  {
    LexIsProper(t);
    KeptIsProper(Lex(t));
    ReadsBack(Kept(Lex(t)));
  }

  function Strings(ts: seq<Token>): seq<string> {
    if ts == [] then [] else (if ts[0].Str? then [ts[0].text] else []) + Strings(ts[1..])
  }

  lemma {:induction false} KeptStrings(ts: seq<Token>)
    ensures Strings(Kept(ts)) == Strings(ts)
  {
    if ts != [] {
      KeptStrings(ts[1..]);
      var head := if ts[0].Block? || Trailing(ts) then [] else if ts[0].Line? then (if ts[0].newline then [Space('\n')] else []) else [ts[0]];
      assert Kept(ts) == head + Kept(ts[1..]);
      if head == [] {
        assert Kept(ts) == Kept(ts[1..]);
      } else {
        assert Kept(ts)[1..] == Kept(ts[1..]);
      }
    }
  }

  /** Strings come through as they were, escapes and all. */
  lemma StringsSurvive(t: string)
    ensures Strings(Lex(Json(t))) == Strings(Lex(t))
  {
    ReducedTokens(t);
    KeptStrings(Lex(t));
  }

  predicate AnyTrailing(ts: seq<Token>) {
    ts != [] && (Trailing(ts) || AnyTrailing(ts[1..]))
  }

  lemma {:induction false} KeptLength(ts: seq<Token>)
    requires Proper(ts)
    ensures |Flatten(Kept(ts))| <= |Flatten(ts)|
    ensures |Flatten(Kept(ts))| == |Flatten(ts)| <==> NoComments(ts) && !AnyTrailing(ts)
    ensures NoComments(ts) && !AnyTrailing(ts) ==> Kept(ts) == ts
  {
    hide Closes, IsWhitespace, StringLength, Ends;
    if ts != [] {
      KeptLength(ts[1..]);
      KeptHead(ts[0], ts[1..]);
      assert [ts[0]] + ts[1..] == ts;
      assert NoComments(ts) <==> !IsComment(ts[0]) && NoComments(ts[1..]) by {
        assert forall i :: 0 <= i < |ts| - 1 ==> ts[1..][i] == ts[i + 1];
      }
    }
  }

  /** A text is left as it was exactly when it has no comment and no trailing
      comma. */
  lemma UnchangedIffClean(t: string)
    ensures Json(t) == t <==> NoComments(Lex(t)) && !AnyTrailing(Lex(t))
  {
    LexIsProper(t);
    LexLosesNothing(t);
    KeptLength(Lex(t));
  }

  // -- reducing twice -------------------------------------------------------

  /** The first token past whitespace and comments is a trailing comma. */
  predicate NextTrailing(ts: seq<Token>) {
    ts != [] && (Trailing(ts) || (IsGap(ts[0]) && NextTrailing(ts[1..])))
  }

  /** A comma stands right before a trailing one. */
  predicate Doubled(ts: seq<Token>) {
    ts != [] && ((ts[0].Comma? && NextTrailing(ts[1..])) || Doubled(ts[1..]))
  }

  lemma {:induction false} ClosesKept(ts: seq<Token>)
    ensures Closes(Kept(ts)) <==> Closes(ts) || NextTrailing(ts)
    ensures !(Closes(ts) && NextTrailing(ts))
  {
    if ts != [] {
      ClosesKept(ts[1..]);
      assert [] + Kept(ts[1..]) == Kept(ts[1..]);
      if Kept(ts) != Kept(ts[1..]) { assert Kept(ts)[1..] == Kept(ts[1..]); }
    }
  }

  lemma {:induction false} TrailingKept(ts: seq<Token>)
    ensures AnyTrailing(Kept(ts)) <==> Doubled(ts)
  {
    hide Closes, NextTrailing;
    if ts != [] {
      TrailingKept(ts[1..]);
      ClosesKept(ts[1..]);
      assert [] + Kept(ts[1..]) == Kept(ts[1..]);
      if Kept(ts) != Kept(ts[1..]) { assert Kept(ts)[1..] == Kept(ts[1..]); }
    }
  }

  /** Reducing again changes nothing exactly when no comma stood right before a
      trailing one: of several only the last is deleted. */
  lemma SettledIffSingle(t: string)
    ensures Json(Json(t)) == Json(t) <==> !Doubled(Lex(t))
  {
    hide Lex, Kept, Flatten;
    LexIsProper(t);
    KeptIsProper(Lex(t));
    ReducedTokens(t);
    KeptLength(Kept(Lex(t)));
    TrailingKept(Lex(t));
  }

  /** Two commas before a bracket: one stays, and the text is no JSON. */
  lemma TwoCommas()
    ensures Json(",,]") == ",]" && Json(Json(",,]")) == "]"
  {
    assert ",,]" == "," + ",]" && ",]" == "," + "]";
    CommaHead("]");
    CommaHead(",]");
    assert Lex("]") == [Close(']')] by {
      LexHead("]");
      FirstShape("]");
      assert "]"[1..] == "";
    }
    hide Lex, First;
    assert Kept([Close(']')]) == [Close(']')];
    assert Kept([Comma, Close(']')]) == [Close(']')];
    assert [Comma, Comma, Close(']')][1..] == [Comma, Close(']')];
    assert !Closes([Comma, Close(']')]);
    assert Kept([Comma, Comma, Close(']')]) == [Comma, Close(']')];
    assert Flatten([Comma, Close(']')]) == ",]" && Flatten([Close(']')]) == "]";
  }

  lemma CommaHead(t: string)
    ensures Lex("," + t) == [Comma] + Lex(t)
  {
    hide First;
    LexHead("," + t);
    FirstShape("," + t);
    assert ("," + t)[1..] == t;
  }
}
