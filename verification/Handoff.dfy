/** A conversation rendered as plain text for the summarizer that briefs a new
    session's agent (src/adapters/handoff.ts). Texts are JavaScript strings. */
module Handoff {
  import opened Common
  import Utf8

  type Str = seq<Unit>

  const TOOL_TEXT_MAX := 2000
  const INPUT_MAX := 400000

  /** An ASCII text in code units. */
  function Ascii(s: string): (r: Str)
    ensures |r| == |s| && forall i :: 0 <= i < |r| ==> r[i] < 0x80
  {
    seq(|s|, i requires 0 <= i < |s| => s[i] as int % 0x80)
  }

  const SEP: Str := [10, 10]

  function Note(): (r: Str)
    ensures |r| == 83 && forall i :: 0 <= i < |r| ==> r[i] < 0x80
  {
    Ascii("[Earlier conversation omitted to fit the size limit; the most recent part follows.]")
  }

  // -- whole characters -----------------------------------------------------

  /** Every half of a surrogate pair stands beside its other half. */
  predicate Whole(s: Str) {
    && (forall i :: 0 <= i < |s| && Utf8.High(s[i]) ==> i + 1 < |s| && Utf8.Low(s[i + 1]))
    && (forall i :: 0 <= i < |s| && Utf8.Low(s[i]) ==> i > 0 && Utf8.High(s[i - 1]))
  }

  lemma WellFormedPastFirst(s: Str, n: nat)
    requires s != [] && n == if Utf8.PairFirst(s) then 2 else 1
    ensures Utf8.WellFormed(s) <==> (n == 2 || (!Utf8.High(s[0]) && !Utf8.Low(s[0]))) && Utf8.WellFormed(s[n..])
  {
  }

  lemma WholePastFirst(s: Str, n: nat)
    requires s != [] && n == if Utf8.PairFirst(s) then 2 else 1
    ensures Whole(s) <==> (n == 2 || (!Utf8.High(s[0]) && !Utf8.Low(s[0]))) && Whole(s[n..])
  {
    assert forall i :: 0 <= i < |s| - n ==> s[n..][i] == s[i + n];
    if Whole(s[n..]) {
      forall i | n <= i < |s| ensures s[i] == s[n..][i - n] {}
    }
  }

  lemma {:induction false} WholeIffWellFormed(s: Str)
    ensures Whole(s) <==> Utf8.WellFormed(s)
    decreases |s|
  {
    if s != [] {
      var n := if Utf8.PairFirst(s) then 2 else 1;
      WholeIffWellFormed(s[n..]);
      hide Utf8.WellFormed;
      WholePastFirst(s, n);
      WellFormedPastFirst(s, n);
    }
  }

  lemma WholeConcat(a: Str, b: Str)
    requires Whole(a) && Whole(b)
    ensures Whole(a + b)
  {
  }

  /** Cut where no pair is split. */
  lemma WholeSlice(s: Str, from: nat, to: nat)
    requires Whole(s) && from <= to <= |s|
    requires from == |s| || !Utf8.Low(s[from])
    requires to == 0 || !Utf8.High(s[to - 1])
    ensures Whole(s[from..to])
  {
    var r := s[from..to];
    forall i | 0 <= i < |r| && Utf8.High(r[i]) ensures i + 1 < |r| && Utf8.Low(r[i + 1]) {
      assert s[from + i] == r[i];
    }
    forall i | 0 <= i < |r| && Utf8.Low(r[i]) ensures i > 0 && Utf8.High(r[i - 1]) {
      assert s[from + i] == r[i];
    }
  }

  /** Text without surrogates. */
  lemma PlainIsWhole(s: Str)
    requires forall i :: 0 <= i < |s| ==> s[i] < 0xD800
    ensures Whole(s)
  {
  }

  // -- trimming and capping -------------------------------------------------

  /** JavaScript's white space and line terminators, which `trim` removes. */
  predicate IsSpace(u: Unit) {
    || 9 <= u <= 13 || u == 32 || u == 0xA0 || u == 0x1680 || 0x2000 <= u <= 0x200A || u == 0x2028 || u == 0x2029
    || u == 0x202F || u == 0x205F || u == 0x3000 || u == 0xFEFF
  }

  predicate Blank(s: Str) {
    forall i :: 0 <= i < |s| ==> IsSpace(s[i])
  }

  /** `r` is what stands between the places `from` and `to`, with only white space
      on either side. */
  predicate Bare(s: Str, r: Str, from: int, to: int) {
    0 <= from <= to <= |s| && r == s[from..to] && Blank(s[..from]) && Blank(s[to..])
  }

  /** What is left of `s` when white space, and nothing else, goes from its ends. */
  ghost predicate TrimsTo(s: Str, r: Str) {
    exists from, to :: Bare(s, r, from, to)
  }

  function Trim(s: Str): (r: Str)
    ensures |r| <= |s|
    ensures Whole(s) ==> Whole(r)
    ensures r != [] ==> !IsSpace(r[0]) && !IsSpace(r[|r| - 1])
    ensures TrimsTo(s, r)
    decreases |s|
  {
    if s == [] then NothingTrimmed(s); []
    else
      PlainEdge(s);
      if IsSpace(s[0]) then var r := Trim(s[1..]); SpaceInFront(s, s[1..], r); r
      else if IsSpace(s[|s| - 1]) then var r := Trim(s[..|s| - 1]); SpaceBehind(s, s[..|s| - 1], r); r
      else NothingTrimmed(s); s
  }

  lemma NothingTrimmed(s: Str)
    ensures TrimsTo(s, s)
  {
    assert s[..0] == [] && s[|s|..] == [] && s[0..|s|] == s;
    assert Bare(s, s, 0, |s|);
  }

  lemma SpaceInFront(s: Str, rest: Str, r: Str)
    requires s != [] && IsSpace(s[0]) && rest == s[1..] && TrimsTo(rest, r)
    ensures TrimsTo(s, r)
  {
    hide IsSpace;
    var from, to :| Bare(rest, r, from, to);
    assert s[..from + 1] == [s[0]] + rest[..from];
    assert s[to + 1..] == rest[to..];
    assert forall i :: from <= i < to ==> rest[i] == s[i + 1];
    assert s[from + 1..to + 1] == rest[from..to];
    assert Bare(s, r, from + 1, to + 1);
  }

  lemma SpaceBehind(s: Str, init: Str, r: Str)
    requires s != [] && IsSpace(s[|s| - 1]) && init == s[..|s| - 1] && TrimsTo(init, r)
    ensures TrimsTo(s, r)
  {
    hide IsSpace;
    var from, to :| Bare(init, r, from, to);
    assert s[to..] == init[to..] + [s[|s| - 1]];
    assert s[..from] == init[..from] && s[from..to] == init[from..to];
    assert Bare(s, r, from, to);
  }

  lemma PlainEdge(s: Str)
    requires s != []
    ensures Whole(s) && IsSpace(s[0]) ==> Whole(s[1..])
    ensures Whole(s) && IsSpace(s[|s| - 1]) ==> Whole(s[..|s| - 1])
  {
    if Whole(s) {
      if IsSpace(s[0]) { WholeSlice(s, 1, |s|); }
      if IsSpace(s[|s| - 1]) { WholeSlice(s, 0, |s| - 1); }
    }
  }

  function Digit(n: nat): (u: Unit)
    requires n < 10
    ensures 48 <= u < 58
  {
    48 + n
  }

  function Decimal(n: nat): (s: Str)
    ensures s != [] && forall i :: 0 <= i < |s| ==> 48 <= s[i] < 58
  {
    if n < 10 then [Digit(n)] else Decimal(n / 10) + [Digit(n % 10)]
  }

  /** The number as `toLocaleString("en-US")` writes it. */
  function Grouped(n: nat): (s: Str)
    ensures forall i :: 0 <= i < |s| ==> s[i] < 0x80
  {
    if n < 1000 then Decimal(n)
    else Grouped(n / 1000) + [44, Digit(n / 100 % 10), Digit(n / 10 % 10), Digit(n % 10)]
  }

  /** The number a run of digits with commas in it spells. */
  function Spelled(s: Str): int {
    if s == [] then 0
    else
      var u := s[|s| - 1];
      if u == 44 then Spelled(s[..|s| - 1]) else Spelled(s[..|s| - 1]) * 10 + (u as int - 48)
  }

  lemma SpelledMore(s: Str, u: Unit)
    ensures Spelled(s + [u]) == if u == 44 then Spelled(s) else Spelled(s) * 10 + (u as int - 48)
  {
    assert (s + [u])[..|s|] == s;
  }

  lemma {:induction false} DecimalSpells(n: nat)
    ensures Spelled(Decimal(n)) == n
  {
    if n < 10 {
      SpelledMore([], Digit(n));
      assert [] + [Digit(n)] == [Digit(n)];
    } else {
      DecimalSpells(n / 10);
      SpelledMore(Decimal(n / 10), Digit(n % 10));
    }
  }

  lemma LastDigits(n: nat)
    ensures ((n / 1000 * 10 + n / 100 % 10) * 10 + n / 10 % 10) * 10 + n % 10 == n
  {
    var tens, hundreds := n / 10, n / 100;
    assert hundreds == tens / 10 && n / 1000 == hundreds / 10;
    assert hundreds == hundreds / 10 * 10 + hundreds % 10;
    assert tens == tens / 10 * 10 + tens % 10;
  }

  lemma {:induction false} GroupedSpells(n: nat)
    ensures Spelled(Grouped(n)) == n
  {
    hide Spelled, Decimal, Digit;
    if n < 1000 {
      DecimalSpells(n);
    } else {
      GroupedSpells(n / 1000);
      FourMore(Grouped(n / 1000), n / 100 % 10, n / 10 % 10, n % 10);
      LastDigits(n);
    }
  }

  lemma FourMore(q: Str, a: nat, b: nat, c: nat)
    requires a < 10 && b < 10 && c < 10
    ensures Spelled(q + [44, Digit(a), Digit(b), Digit(c)]) == ((Spelled(q) * 10 + a) * 10 + b) * 10 + c
  {
    hide Spelled;
    SpelledMore(q, 44);
    SpelledMore(q + [44], Digit(a));
    SpelledMore(q + [44] + [Digit(a)], Digit(b));
    SpelledMore(q + [44] + [Digit(a)] + [Digit(b)], Digit(c));
    assert q + [44, Digit(a), Digit(b), Digit(c)] == q + [44] + [Digit(a)] + [Digit(b)] + [Digit(c)];
  }

  /** Where a capped text is cut: not inside a pair. */
  function CapEnd(text: Str): (end: nat)
    requires |text| > TOOL_TEXT_MAX
    ensures TOOL_TEXT_MAX - 1 <= end <= TOOL_TEXT_MAX
    ensures Whole(text) ==> Whole(text[..end])
  {
    var end := if Utf8.High(text[TOOL_TEXT_MAX - 1]) then TOOL_TEXT_MAX - 1 else TOOL_TEXT_MAX;
    CapKeepsWhole(text, end);
    end
  }

  lemma CapKeepsWhole(text: Str, end: nat)
    requires |text| > TOOL_TEXT_MAX
    requires end == if Utf8.High(text[TOOL_TEXT_MAX - 1]) then TOOL_TEXT_MAX - 1 else TOOL_TEXT_MAX
    ensures Whole(text) ==> Whole(text[..end])
  {
    if Whole(text) {
      if Utf8.High(text[TOOL_TEXT_MAX - 1]) {
        assert !Utf8.High(text[TOOL_TEXT_MAX - 2]);
      }
      WholeSlice(text, 0, end);
    }
  }

  function MoreNote(dropped: nat): (r: Str)
    ensures forall i :: 0 <= i < |r| ==> r[i] < 0xD800
  {
    [10, 0x5B, 0x2026, 0x20] + Grouped(dropped) + Ascii(" more chars]")
  }

  function CapText(text: Str): Str {
    if |text| <= TOOL_TEXT_MAX then text
    else var end := CapEnd(text); text[..end] + MoreNote(|text| - end)
  }

  /** A long text keeps its first 2000 units, or one fewer rather than half a
      pair; the note spells how many units were left out. */
  lemma CapTells(text: Str)
    ensures |text| <= TOOL_TEXT_MAX ==> CapText(text) == text
    ensures |text| > TOOL_TEXT_MAX ==>
      exists end: nat, digits: Str ::
        && TOOL_TEXT_MAX - 1 <= end <= TOOL_TEXT_MAX && Spelled(digits) == |text| - end
        && CapText(text) == text[..end] + ([10, 0x5B, 0x2026, 0x20] + digits + Ascii(" more chars]"))
    ensures Whole(text) ==> Whole(CapText(text))
  {
    hide Ascii, Spelled, Grouped, CapEnd;
    if |text| > TOOL_TEXT_MAX {
      var end := CapEnd(text);
      GroupedSpells(|text| - end);
      if Whole(text) {
        PlainIsWhole(MoreNote(|text| - end));
        WholeConcat(text[..end], MoreNote(|text| - end));
      }
      var digits := Grouped(|text| - end);
      assert CapText(text) == text[..end] + ([10, 0x5B, 0x2026, 0x20] + digits + Ascii(" more chars]"));
    }
  }

  // -- one item -------------------------------------------------------------

  type TurnId(==, !new)

  datatype NoticeKind = CompactSummary | Reasoning | Error | OtherNotice

  /** An item with its texts as the renderers it calls give them: the message
      stripped of injected instructions, the tool's input and result as text. */
  datatype Item =
    | User(text: Str, appAction: bool, turn: Option<TurnId>)
    | Agent(text: Str)
    | ToolCall(name: Str, input: Str, children: seq<Item>)
    | ToolResult(content: Str, isError: bool)
    | Notice(kind: NoticeKind, text: Str, summary: Str)
    | Queued

  function Join(lines: seq<Str>): (r: Str) {
    if lines == [] then []
    else if |lines| == 1 then lines[0]
    else lines[0] + SEP + Join(lines[1..])
  }

  function Serialize(it: Item): Option<Str>
    decreases it
  {
    match it
    case User(text, appAction, _) => if appAction then None else Some(Ascii("User: ") + text)
    case Agent(text) => if text == [] then None else Some(Ascii("Assistant: ") + text)
    case ToolCall(name, input, children) =>
      var capped := CapText(Trim(input));
      var head := Ascii("Assistant used tool `") + name + Ascii("`") + if capped == [] then [] else Ascii(":\n") + capped;
      var nested := Lines(children);
      Some(if nested == [] then head else head + [10] + Join(nested))
    case ToolResult(content, isError) =>
      var text := CapText(Trim(content));
      if text == [] then None else Some(Ascii(if isError then "Tool error" else "Tool result") + Ascii(":\n") + text)
    case Notice(kind, text, summary) =>
      if kind.CompactSummary? then (if summary == [] then None else Some(summary))
      else if text == [] then None
      else if kind.Reasoning? then Some(Ascii("Assistant (thinking): ") + text)
      else if kind.Error? then Some(Ascii("Error: ") + text)
      else Some(text)
    case Queued => None
  }

  /** The lines of the items, skipping those that have none. */
  function Lines(items: seq<Item>): seq<Str>
    decreases items
  {
    if items == [] then []
    else
      var line := Serialize(items[0]);
      (if line.Some? then [line.value] else []) + Lines(items[1..])
  }

  // -- the most recent part that fits ---------------------------------------

  /** What a note of `INPUT_MAX` leaves room for. */
  const ROOM: nat := INPUT_MAX - 83

  /** The size of the lines, each with a separator. */
  function Weight(lines: seq<Str>): nat {
    if lines == [] then 0 else |lines[0]| + 2 + Weight(lines[1..])
  }

  lemma {:induction false} WeightMore(lines: seq<Str>, line: Str)
    ensures Weight(lines + [line]) == Weight(lines) + |line| + 2
  {
    if lines != [] {
      assert (lines + [line])[1..] == lines[1..] + [line];
      WeightMore(lines[1..], line);
    }
  }

  lemma {:induction false} JoinSize(lines: seq<Str>)
    requires lines != []
    ensures |Join(lines)| + 2 == Weight(lines)
  {
    if |lines| > 1 { JoinSize(lines[1..]); } else { assert Weight(lines[1..]) == 0; }
  }

  /** The first of the lines at the end that fit in `room` whole. */
  function KeptFrom(lines: seq<Str>, room: nat): (from: nat)
    ensures from <= |lines|
  {
    if lines == [] then 0
    else
      var last := lines[|lines| - 1];
      if |last| + 2 <= room then KeptFrom(lines[..|lines| - 1], room - |last| - 2) else |lines|
  }

  lemma NoWeight()
    ensures Weight([]) == 0
  {
  }

  lemma {:induction false} KeptFits(lines: seq<Str>, room: nat)
    ensures var from := KeptFrom(lines, room);
      Weight(lines[from..]) <= room && (from > 0 ==> Weight(lines[from - 1..]) > room)
  {
    if lines == [] {
      assert Weight([]) == 0;
    } else {
      hide KeptFrom, Weight;
      KeptStep(lines, room);
      var last, front := lines[|lines| - 1], lines[..|lines| - 1];
      if |last| + 2 <= room {
        var from := KeptFrom(front, room - |last| - 2);
        KeptFits(front, room - |last| - 2);
        assert lines[from..] == front[from..] + [last];
        WeightMore(front[from..], last);
        if from > 0 {
          assert lines[from - 1..] == front[from - 1..] + [last];
          WeightMore(front[from - 1..], last);
        }
      } else {
        assert lines[|lines|..] == [];
        LastAlone(lines);
        NoWeight();
      }
    }
  }

  /** The last `max` units, or one fewer rather than half a pair. */
  function TailOf(text: Str, max: nat): (tail: Str)
    requires 0 < max < |text|
    ensures max - 1 <= |tail| <= max && tail == text[|text| - |tail|..]
    ensures Whole(text) ==> Whole(tail)
  {
    var start := |text| - max;
    var from := if Utf8.Low(text[start]) then start + 1 else start;
    text[from..]
  }

  function KeptLines(lines: seq<Str>): (kept: seq<Str>)
    requires lines != [] && Weight(lines) > ROOM
    ensures kept != []
  {
    KeptFits(lines, ROOM);
    var from := KeptFrom(lines, ROOM);
    if from < |lines| then lines[from..]
    else LastAlone(lines); [TailOf(lines[|lines| - 1], ROOM - 2)]
  }

  lemma LastAlone(lines: seq<Str>)
    requires lines != []
    ensures Weight(lines[|lines| - 1..]) == |lines[|lines| - 1]| + 2
  {
    assert lines[|lines| - 1..][1..] == [];
  }

  function Recent(lines: seq<Str>): Str {
    var whole := Trim(Join(lines));
    if |whole| <= INPUT_MAX then whole
    else JoinWeighs(lines); Join([Note()] + KeptLines(lines))
  }

  lemma JoinWeighs(lines: seq<Str>)
    requires |Join(lines)| > INPUT_MAX
    ensures lines != [] && Weight(lines) > ROOM
  {
    if lines != [] { JoinSize(lines); }
  }

  /** The loop of `keepRecent`. */
  method KeepRecent(lines: seq<Str>) returns (r: Str)
    ensures r == Recent(lines)
  {
    hide Join, Weight, KeptFrom, Note, Trim, TrimsTo, TailOf, Utf8.Low;
    var whole := Trim(Join(lines));
    if |whole| <= INPUT_MAX { return whole; }
    JoinWeighs(lines);
    var room, kept, i := ROOM, [], |lines|;
    assert lines[..|lines|] == lines;
    while i > 0 && |lines[i - 1]| + 2 <= room
      invariant 0 <= i <= |lines| && kept == lines[i..] && room >= 0
      invariant KeptFrom(lines, ROOM) == KeptFrom(lines[..i], room)
      decreases i
    {
      KeptStep(lines[..i], room);
      assert lines[..i][..i - 1] == lines[..i - 1];
      kept := [lines[i - 1]] + kept;
      room := room - |lines[i - 1]| - 2;
      i := i - 1;
    }
    KeptStep(lines[..i], room);
    assert KeptFrom(lines, ROOM) == i;
    KeptFits(lines, ROOM);
    if kept == [] {
      assert i == |lines|;
      LastAlone(lines);
      kept := [TailOf(lines[|lines| - 1], ROOM - 2)];
    }
    r := Join([Note()] + kept);
  }

  lemma KeptStep(lines: seq<Str>, room: nat)
    ensures KeptFrom(lines, room)
            == if lines == [] then 0
               else if |lines[|lines| - 1]| + 2 <= room then KeptFrom(lines[..|lines| - 1], room - |lines[|lines| - 1]| - 2)
               else |lines|
  {
  }

  // -- transcripts ----------------------------------------------------------

  predicate IsCompaction(it: Item) {
    it.Notice? && it.kind.CompactSummary? && it.summary != []
  }

  /** Where the transcript before `cutoff` starts: at the last compaction before
      it, or at the top. */
  function StartOf(log: seq<Item>, cutoff: nat): (start: nat)
    requires cutoff <= |log|
    ensures start <= cutoff
    ensures forall i :: start < i < cutoff ==> !IsCompaction(log[i])
    ensures start > 0 ==> start < cutoff && IsCompaction(log[start])
  {
    if cutoff == 0 then 0
    else if IsCompaction(log[cutoff - 1]) then cutoff - 1
    else
      var start := StartOf(log, cutoff - 1);
      start
  }

  function Rendered(log: seq<Item>, cutoff: nat): Option<Str>
    requires cutoff <= |log|
  {
    var text := Recent(Lines(log[StartOf(log, cutoff)..cutoff]));
    if text == [] then None else Some(text)
  }

  method RenderBefore(log: seq<Item>, cutoff: nat) returns (r: Option<Str>)
    requires cutoff <= |log|
    ensures r == Rendered(log, cutoff)
  {
    hide Recent, Lines, Serialize;
    var start: int := cutoff - 1;
    while start >= 0 && !IsCompaction(log[start])
      invariant -1 <= start < cutoff
      invariant forall i :: start < i < cutoff ==> !IsCompaction(log[i])
      decreases start
    {
      start := start - 1;
    }
    start := if start < 0 then 0 else start;
    assert start == StartOf(log, cutoff);
    var lines := [];
    ghost var part := log[start..cutoff];
    NoLines();
    assert log[start..start] == [];
    for i := start to cutoff
      invariant lines == Lines(log[start..i])
    {
      var line := Serialize(log[i]);
      LinesMore(log[start..i], log[i]);
      assert log[start..i + 1] == log[start..i] + [log[i]];
      if line.Some? { lines := lines + [line.value]; }
    }
    var transcript := KeepRecent(lines);
    r := if transcript == [] then None else Some(transcript);
  }

  lemma NoLines()
    ensures Lines([]) == []
  {
  }

  lemma {:induction false} LinesMore(items: seq<Item>, it: Item)
    ensures Lines(items + [it]) == Lines(items) + if Serialize(it).Some? then [Serialize(it).value] else []
  {
    hide Serialize;
    if items == [] {
      assert [it][1..] == [] && items + [it] == [it];
    } else {
      assert (items + [it])[1..] == items[1..] + [it];
      LinesMore(items[1..], it);
    }
  }

  /** The turn a user message carries. */
  function TurnOf(it: Item): Option<TurnId> {
    if it.User? then it.turn else None
  }

  /** The first item of the turn; past the end when there is none. */
  function FindTurn(log: seq<Item>, turn: TurnId): (at: nat)
    ensures at <= |log| && (at < |log| ==> TurnOf(log[at]) == Some(turn))
    ensures forall i :: 0 <= i < at ==> TurnOf(log[i]) != Some(turn)
  {
    if log == [] then 0 else if TurnOf(log[0]) == Some(turn) then 0 else 1 + FindTurn(log[1..], turn)
  }

  /** The first item past `from` that carries a turn; past the end when none. */
  function NextTurn(log: seq<Item>, from: nat): (at: nat)
    requires from <= |log|
    ensures from <= at <= |log| && (at < |log| ==> TurnOf(log[at]).Some?)
    ensures forall i :: from <= i < at ==> TurnOf(log[i]).None?
    decreases |log| - from
  {
    if from == |log| || TurnOf(log[from]).Some? then from else NextTurn(log, from + 1)
  }

  function Transcript(log: seq<Item>, through: Option<TurnId>): Option<Str> {
    if through.None? then Rendered(log, |log|)
    else
      var anchor := FindTurn(log, through.value);
      if anchor == |log| then None else Rendered(log, NextTurn(log, anchor + 1))
  }

  function TranscriptBefore(log: seq<Item>, turn: TurnId): Option<Str> {
    var anchor := FindTurn(log, turn);
    if anchor == |log| then None else Rendered(log, anchor)
  }
}
