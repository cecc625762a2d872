/** What a handoff transcript says: which items of a log speak in it, in whose
    voice, and with which words. */
module HandoffLines {
  import opened Common
  import opened Handoff
  import L = HandoffLaws

  // -- what one item says ---------------------------------------------------

  /** The item has something to say: a message of the user's own; an answer, a
      summary or a notice with words in it; a tool call; a result that is not
      blank. */
  predicate Speaks(it: Item) {
    || (it.User? && !it.appAction)
    || (it.Agent? && it.text != [])
    || it.ToolCall?
    || (it.ToolResult? && !Blank(it.content))
    || (it.Notice? && (if it.kind.CompactSummary? then it.summary else it.text) != [])
  }

  /** In whose voice. */
  function Voice(it: Item): string {
    match it
    case User(_, _, _) => "User: "
    case Agent(_) => "Assistant: "
    case ToolCall(_, _, _) => "Assistant used tool `"
    case ToolResult(_, isError) => if isError then "Tool error:\n" else "Tool result:\n"
    case Notice(kind, _, _) => if kind.Reasoning? then "Assistant (thinking): " else if kind.Error? then "Error: " else ""
    case Queued => ""
  }

  /** With which words: a message's whole; a tool's name with its input, or its
      result, without the white space around it and cut to the tool limit. */
  function Words(it: Item): Str {
    match it
    case User(text, _, _) => text
    case Agent(text) => text
    case ToolCall(name, input, _) => name + Ascii("`") + if Blank(input) then [] else Ascii(":\n") + CapText(Trim(input))
    case ToolResult(content, _) => CapText(Trim(content))
    case Notice(kind, text, summary) => if kind.CompactSummary? then summary else text
    case Queued => []
  }

  function Opening(it: Item): Str {
    Ascii(Voice(it)) + Words(it)
  }

  lemma BlankTrims(s: Str)
    ensures Blank(s) <==> Trim(s) == []
    ensures CapText(Trim(s)) == [] <==> Blank(s)
  {
    hide Trim, CapText, IsSpace;
    var r := Trim(s);
    var from, to :| Bare(s, r, from, to);
    if r == [] {
      assert from == to;
      Halves(s, from);
    } else {
      assert s[from] == r[0];
    }
    CapEmpty(r);
  }

  lemma Halves(s: Str, at: nat)
    requires at <= |s| && Blank(s[..at]) && Blank(s[at..])
    ensures Blank(s)
  {
    hide IsSpace;
    forall i | 0 <= i < |s| ensures IsSpace(s[i]) {
      assert s[i] == if i < at then s[..at][i] else s[at..][i - at];
    }
  }

  lemma CapEmpty(text: Str)
    ensures CapText(text) == [] <==> text == []
  {
  }

  lemma AsciiConcat(a: string, b: string)
    ensures Ascii(a + b) == Ascii(a) + Ascii(b)
  {
  }

  /** Every item that speaks, and no other, has a line; the line begins with its
      voice and its words, and is nothing more but for what a tool call's own items
      say below it. */
  lemma LineBegins(it: Item)
    ensures Serialize(it).Some? <==> Speaks(it)
    ensures Speaks(it) ==>
              Serialize(it).value
              == Opening(it) + if it.ToolCall? && Lines(it.children) != [] then [10] + Join(Lines(it.children)) else []
  {
    hide Trim, CapText, Ascii, Join, Lines;
    if it.ToolCall? {
      CallBegins(it);
    } else if it.ToolResult? {
      ResultBegins(it);
    } else if it.Notice? {
      NoAscii();
      assert forall s: Str :: [] + s == s;
    }
  }

  lemma CallBegins(it: Item)
    requires it.ToolCall?
    ensures Serialize(it) == Some(Opening(it) + if Lines(it.children) != [] then [10] + Join(Lines(it.children)) else [])
  {
    hide Trim, CapText, Ascii, Join, Lines, Blank;
    BlankTrims(it.input);
    var more := if Blank(it.input) then [] else Ascii(":\n") + CapText(Trim(it.input));
    Grouped(Ascii("Assistant used tool `"), it.name, Ascii("`"), more);
    Apart(Opening(it), Join(Lines(it.children)));
  }

  lemma Grouped(a: Str, b: Str, c: Str, d: Str)
    ensures a + (b + c + d) == a + b + c + d
  {
  }

  lemma Apart(head: Str, rest: Str)
    ensures head + [10] + rest == head + ([10] + rest) && head + [] == head
  {
  }

  lemma ResultBegins(it: Item)
    requires it.ToolResult?
    ensures Serialize(it) == if Blank(it.content) then None else Some(Opening(it))
  {
    hide Trim, CapText, Ascii, Blank;
    BlankTrims(it.content);
    AsciiConcat("Tool error", ":\n");
    AsciiConcat("Tool result", ":\n");
    assert "Tool error" + ":\n" == "Tool error:\n" && "Tool result" + ":\n" == "Tool result:\n";
  }

  lemma NoAscii()
    ensures Ascii("") == []
  {
  }

  // -- what a log says ------------------------------------------------------

  /** The items that speak, each tool call followed by those nested in it. */
  function Spoken(items: seq<Item>): seq<Item>
    decreases items
  {
    if items == [] then []
    else
      (if !Speaks(items[0]) then [] else [items[0]] + if items[0].ToolCall? then Spoken(items[0].children) else [])
      + Spoken(items[1..])
  }

  /** The openings one after the other, each behind its gap. */
  function Woven(items: seq<Item>, gaps: seq<Str>): Str
    requires |gaps| == |items|
  {
    if items == [] then [] else gaps[0] + Opening(items[0]) + Woven(items[1..], gaps[1..])
  }

  /** Nothing stands between two openings but a blank line or, before the first
      item nested in a tool call, a new line. */
  predicate Spaced(gaps: seq<Str>, first: Str) {
    gaps != [] ==> gaps[0] == first && forall i :: 1 <= i < |gaps| ==> gaps[i] == [10] || gaps[i] == SEP
  }

  lemma {:induction false} WovenConcat(a: seq<Item>, b: seq<Item>, ga: seq<Str>, gb: seq<Str>)
    requires |ga| == |a| && |gb| == |b|
    ensures Woven(a + b, ga + gb) == Woven(a, ga) + Woven(b, gb)
  {
    hide Opening;
    if a == [] {
      assert a + b == b && ga + gb == gb;
    } else {
      WovenConcat(a[1..], b, ga[1..], gb);
      assert (a + b)[1..] == a[1..] + b && (ga + gb)[1..] == ga[1..] + gb;
    }
  }

  lemma WovenFirst(it: Item, rest: seq<Item>, first: Str, gaps: seq<Str>)
    requires |gaps| == |rest|
    ensures Woven([it] + rest, [first] + gaps) == first + Opening(it) + Woven(rest, gaps)
  {
    assert ([it] + rest)[1..] == rest && ([first] + gaps)[1..] == gaps;
  }

  lemma JoinFirst(line: Str, lines: seq<Str>)
    ensures Join([line] + lines) == if lines == [] then line else line + SEP + Join(lines)
  {
    assert ([line] + lines)[1..] == lines;
  }

  /** An item with what is nested in it. */
  function WithNested(it: Item): seq<Item> {
    [it] + Below(it)
  }

  function Below(it: Item): seq<Item> {
    if it.ToolCall? then Spoken(it.children) else []
  }

  lemma FirstSpoken(items: seq<Item>)
    requires items != []
    ensures Spoken(items) == (if Speaks(items[0]) then WithNested(items[0]) else []) + Spoken(items[1..])
    ensures Lines(items) == (if Speaks(items[0]) then [Serialize(items[0]).GetOr([])] else []) + Lines(items[1..])
  {
    hide Serialize, Speaks;
    LineBegins(items[0]);
  }

  lemma NothingSpoken()
    ensures Spoken([]) == [] && Lines([]) == [] && Woven([], []) == []
  {
  }

  lemma SpacedConcat(a: seq<Str>, b: seq<Str>, first: Str)
    requires a != [] && Spaced(a, first) && Spaced(b, SEP)
    ensures Spaced(a + b, first)
  {
  }

  /** A paragraph, whatever it stands behind. */
  lemma {:induction false} ItemWoven(it: Item, first: Str) returns (gaps: seq<Str>)
    requires Speaks(it)
    ensures |gaps| == |WithNested(it)| && Spaced(gaps, first) && first + Serialize(it).GetOr([]) == Woven(WithNested(it), gaps)
    decreases it, 1
  {
    hide Opening, Serialize, Join, Lines, Woven, Spoken, Speaks, Spaced;
    LineBegins(it);
    NothingSpoken();
    NoGaps([10]);
    var under: seq<Str> := [];
    if it.ToolCall? {
      under := LinesWoven(it.children, [10]);
    }
    WovenFirst(it, Below(it), first, under);
    SpacedFirst(under, first);
    gaps := [first] + under;
    assert first + (Opening(it) + Woven(Below(it), under)) == first + Opening(it) + Woven(Below(it), under);
  }

  lemma {:induction false} LinesWoven(items: seq<Item>, first: Str) returns (gaps: seq<Str>)
    ensures |gaps| == |Spoken(items)| && Spaced(gaps, first)
    ensures Lines(items) == [] <==> Spoken(items) == []
    ensures Woven(Spoken(items), gaps) == if Lines(items) == [] then [] else first + Join(Lines(items))
    decreases items, 0
  {
    hide Opening, Serialize, Join, Lines, Woven, Spoken, Speaks, Spaced, Below;
    if items == [] {
      NothingSpoken();
      gaps := [];
      assert Spaced(gaps, first) by { NoGaps(first); }
    } else {
      FirstSpoken(items);
      if !Speaks(items[0]) {
        assert [] + Lines(items[1..]) == Lines(items[1..]) && [] + Spoken(items[1..]) == Spoken(items[1..]);
        gaps := LinesWoven(items[1..], first);
      } else {
        var line, lines := Serialize(items[0]).GetOr([]), Lines(items[1..]);
        var head := ItemWoven(items[0], first);
        var tail := LinesWoven(items[1..], SEP);
        WovenConcat(WithNested(items[0]), Spoken(items[1..]), head, tail);
        JoinFirst(line, lines);
        SpacedConcat(head, tail, first);
        gaps := head + tail;
        Regroup(first, line, Join(lines));
        assert Lines(items) == [line] + lines;
      }
    }
  }

  lemma SpacedFirst(under: seq<Str>, first: Str)
    requires Spaced(under, [10])
    ensures Spaced([first] + under, first)
  {
  }

  lemma NoGaps(first: Str)
    ensures Spaced([], first)
  {
  }

  lemma Regroup(first: Str, line: Str, rest: Str)
    ensures first + line + (SEP + rest) == first + (line + SEP + rest)
    ensures first + line + [] == first + line
  {
  }

  /** The item stands for all that came before it, in so many words. */
  predicate Compacts(it: Item) {
    it.Notice? && it.kind == CompactSummary && |it.summary| > 0
  }

  /** A transcript within its budget holds, in the log's order, the voice and the
      words of every item that speaks from the last compaction on, those nested in
      tool calls in their place, set apart by line breaks and nothing else; only
      white space at its two ends is taken off. */
  lemma TranscriptSays(log: seq<Item>, cutoff: nat) returns (gaps: seq<Str>, text: Str, from: int, to: int)
    requires cutoff <= |log|
    ensures var start := StartOf(log, cutoff);
      && start <= cutoff && (start > 0 ==> start < cutoff && Compacts(log[start]))
      && forall i :: start < i < cutoff ==> !Compacts(log[i])
    ensures var said := Spoken(log[StartOf(log, cutoff)..cutoff]);
      && |gaps| == |said| && Spaced(gaps, [])
      && Bare(Woven(said, gaps), text, from, to) && (text != [] ==> !IsSpace(text[0]) && !IsSpace(text[|text| - 1]))
      && (|text| <= INPUT_MAX ==> Rendered(log, cutoff) == if text == [] then None else Some(text))
  {
    hide Trim, Join, Lines, Spoken, Woven, StartOf, Bare, Spaced, INPUT_MAX, IsSpace;
    var part := log[StartOf(log, cutoff)..cutoff];
    gaps := LinesWoven(part, []);
    NothingJoined(Lines(part));
    text := Trim(Join(Lines(part)));
    from, to :| Bare(Join(Lines(part)), text, from, to);
  }

  lemma NothingJoined(lines: seq<Str>)
    ensures lines == [] ==> Join(lines) == []
    ensures [] + Join(lines) == Join(lines)
  {
  }

  /** The lines from one on are those of the items from some place on. */
  lemma {:induction false} LinesFrom(items: seq<Item>, from: nat) returns (n: nat)
    requires from <= |Lines(items)|
    ensures n <= |items| && Lines(items[n..]) == Lines(items)[from..]
  {
    hide Serialize, Speaks;
    if from == 0 {
      assert items[0..] == items;
      n := 0;
    } else {
      FirstSpoken(items);
      var rest := items[1..];
      var m := LinesFrom(rest, if Speaks(items[0]) then from - 1 else from);
      assert items[m + 1..] == rest[m..];
      n := m + 1;
    }
  }

  /** The end of a text, behind the note, filling the budget up to one unit. */
  predicate EndOf(said: Str, tail: Str) {
    |tail| < |said| && tail == said[|said| - |tail|..] && INPUT_MAX - 1 <= |Note() + SEP + tail| <= INPUT_MAX
  }

  lemma LinesKept(lines: seq<Str>) returns (from: nat)
    requires |Trim(Join(lines))| > INPUT_MAX
    ensures from < |lines|
    ensures Recent(lines) == Note() + SEP + Join(lines[from..])
            || exists tail: Str :: EndOf(Join(lines[from..]), tail) && Recent(lines) == Note() + SEP + tail
  {
    hide Trim, TrimsTo, Join, Recent, Note;
    L.Shape(lines);
    if exists x: nat :: 0 < x < |lines| && Recent(lines) == Note() + SEP + Join(lines[x..]) {
      from :| 0 < from < |lines| && Recent(lines) == Note() + SEP + Join(lines[from..]);
    } else {
      var last := lines[|lines| - 1];
      from := |lines| - 1;
      L.WeightOfOne(last);
      assert lines[from..] == [last];
      var tail: Str :| |tail| < |last| && tail == last[|last| - |tail|..]
                       && Recent(lines) == Note() + SEP + tail && INPUT_MAX - 1 <= |Recent(lines)| <= INPUT_MAX;
      assert EndOf(Join(lines[from..]), tail);
    }
  }

  /** Past its budget a transcript is the note and then, in full, what the items
      from some place `n` on say; or, when the last line alone is too long, the
      note and the end of it, filling the budget up to one unit. */
  lemma TranscriptTail(log: seq<Item>, cutoff: nat) returns (n: nat, gaps: seq<Str>)
    requires cutoff <= |log| && |Trim(Join(Lines(log[StartOf(log, cutoff)..cutoff])))| > INPUT_MAX
    ensures StartOf(log, cutoff) <= n <= cutoff && |gaps| == |Spoken(log[n..cutoff])| && Spaced(gaps, [])
    ensures var said := Woven(Spoken(log[n..cutoff]), gaps);
      || Rendered(log, cutoff) == Some(Note() + SEP + said)
      || exists tail: Str :: EndOf(said, tail) && Rendered(log, cutoff) == Some(Note() + SEP + tail)
  {
    hide Trim, TrimsTo, Join, Lines, Spoken, Woven, StartOf, Note, Spaced, Recent, EndOf;
    var start := StartOf(log, cutoff);
    var part := log[start..cutoff];
    var from := LinesKept(Lines(part));
    NoteThere();
    var m := LinesFrom(part, from);
    n := start + m;
    assert part[m..] == log[n..cutoff];
    gaps := LinesWoven(log[n..cutoff], []);
    NothingJoined(Lines(part)[from..]);
  }

  lemma NoteThere()
    ensures Note() != []
  {
  }
}
