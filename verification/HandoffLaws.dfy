/** What a handoff transcript is sure of (src/adapters/handoff.ts:97-167). */
module HandoffLaws {
  import opened Common
  import opened Handoff
  import Utf8

  // -- size and shape -------------------------------------------------------

  lemma NotePlusSize(kept: seq<Str>)
    requires kept != []
    ensures Join([Note()] + kept) == Note() + SEP + Join(kept)
    ensures |Join([Note()] + kept)| == 83 + Weight(kept)
  {
    assert ([Note()] + kept)[1..] == kept;
    JoinSize(kept);
  }

  /** A transcript never exceeds its budget. */
  lemma Bounded(lines: seq<Str>)
    ensures |Recent(lines)| <= INPUT_MAX
  {
    hide Join, Trim, Note, Weight, KeptFrom;
    if |Trim(Join(lines))| > INPUT_MAX {
      JoinWeighs(lines);
      var kept := KeptLines(lines);
      NotePlusSize(kept);
      KeptFits(lines, ROOM);
      WeightOfOne(kept[0]);
      assert KeptFrom(lines, ROOM) == |lines| ==> kept == [kept[0]];
    }
  }

  lemma WeightOfOne(line: Str)
    ensures Weight([line]) == |line| + 2 && Join([line]) == line
  {
    assert [line][1..] == [];
  }

  /** A transcript that fits is the trimmed whole. One that does not is the note
      and then either as many of the last lines as fit whole, one more being too
      many, or the end of the last line, which fills the room up to one unit. */
  lemma Shape(lines: seq<Str>)
    ensures |Trim(Join(lines))| <= INPUT_MAX ==> Recent(lines) == Trim(Join(lines))
    ensures |Trim(Join(lines))| > INPUT_MAX ==>
      || (exists from: nat :: 0 < from < |lines| && Recent(lines) == Note() + SEP + Join(lines[from..])
                              && |Note() + SEP + Join(lines[from - 1..])| > INPUT_MAX)
      || (lines != [] && exists tail: Str ::
            var last := lines[|lines| - 1];
            |tail| < |last| && tail == last[|last| - |tail|..]
            && Recent(lines) == Note() + SEP + tail && INPUT_MAX - 1 <= |Recent(lines)| <= INPUT_MAX)
  {
    hide Join, Trim, Note, Weight, KeptFrom;
    if |Trim(Join(lines))| > INPUT_MAX {
      JoinWeighs(lines);
      var kept, from := KeptLines(lines), KeptFrom(lines, ROOM);
      NotePlusSize(kept);
      KeptFits(lines, ROOM);
      if from < |lines| {
        assert lines[0..] == lines;
        JoinSize(lines[from - 1..]);
        assert Recent(lines) == Note() + SEP + Join(lines[from..]);
      } else {
        var last := lines[|lines| - 1];
        LastAlone(lines);
        var tail := TailOf(last, ROOM - 2);
        WeightOfOne(tail);
        assert Recent(lines) == Note() + SEP + tail;
      }
    }
  }

  // -- whole characters -----------------------------------------------------

  predicate AllWhole(lines: seq<Str>) {
    forall i :: 0 <= i < |lines| ==> Whole(lines[i])
  }

  lemma {:induction false} JoinWhole(lines: seq<Str>)
    requires AllWhole(lines)
    ensures Whole(Join(lines))
  {
    hide Whole;
    PlainIsWhole(SEP);
    PlainIsWhole([]);
    if |lines| > 1 {
      JoinWhole(lines[1..]);
      WholeConcat(lines[0], SEP);
      WholeConcat(lines[0] + SEP, Join(lines[1..]));
    }
  }

  lemma RecentWhole(lines: seq<Str>)
    requires AllWhole(lines)
    ensures Whole(Recent(lines))
  {
    hide Join, Trim, Note, Weight, KeptFrom, Whole;
    JoinWhole(lines);
    if |Trim(Join(lines))| > INPUT_MAX {
      JoinWeighs(lines);
      var kept := KeptLines(lines);
      KeptFits(lines, ROOM);
      if KeptFrom(lines, ROOM) == |lines| { LastAlone(lines); }
      assert AllWhole(kept);
      PlainIsWhole(Note());
      assert AllWhole([Note()] + kept);
      JoinWhole([Note()] + kept);
    }
  }

  /** Every text of the item, and of the items nested in it, is whole. */
  predicate WholeItem(it: Item) {
    match it
    case User(text, _, _) => Whole(text)
    case Agent(text) => Whole(text)
    case ToolCall(name, input, children) => Whole(name) && Whole(input) && forall i :: 0 <= i < |children| ==> WholeItem(children[i])
    case ToolResult(content, _) => Whole(content)
    case Notice(_, text, summary) => Whole(text) && Whole(summary)
    case Queued => true
  }

  lemma {:induction false} SerializeWhole(it: Item)
    requires WholeItem(it)
    ensures Serialize(it).Some? ==> Whole(Serialize(it).value)
    decreases it
  {
    hide Whole, CapText, Trim, Lines, Ascii, Join;
    match it
    case User(text, _, _) => Prefixed("User: ", text);
    case Agent(text) => Prefixed("Assistant: ", text);
    case ToolCall(name, input, children) =>
      LinesWhole(children);
      ToolCallWhole(name, input, Lines(children));
    case ToolResult(content, isError) =>
      CapTells(Trim(content));
      Prefixed(":\n", CapText(Trim(content)));
      Prefixed(if isError then "Tool error" else "Tool result", Ascii(":\n") + CapText(Trim(content)));
      Associates(Ascii(if isError then "Tool error" else "Tool result"), Ascii(":\n"), CapText(Trim(content)));
    case Notice(_, text, _) =>
      Prefixed("Assistant (thinking): ", text);
      Prefixed("Error: ", text);
    case Queued =>
  }

  lemma Associates(a: Str, b: Str, c: Str)
    ensures a + b + c == a + (b + c)
  {
  }

  lemma Prefixed(s: string, text: Str)
    requires Whole(text)
    ensures Whole(Ascii(s) + text) && Whole(Ascii(s))
  {
    PlainIsWhole(Ascii(s));
    WholeConcat(Ascii(s), text);
  }

  lemma ToolCallWhole(name: Str, input: Str, nested: seq<Str>)
    requires Whole(name) && Whole(input) && AllWhole(nested)
    ensures var capped := CapText(Trim(input));
      var head := Ascii("Assistant used tool `") + name + Ascii("`") + if capped == [] then [] else Ascii(":\n") + capped;
      Whole(head) && Whole(head + [10] + Join(nested))
  {
    hide Whole, CapText, Trim, Ascii, Join;
    var capped := CapText(Trim(input));
    CapTells(Trim(input));
    Prefixed("Assistant used tool `", name);
    Prefixed("`", name);
    Prefixed(":\n", capped);
    PlainIsWhole([]);
    PlainIsWhole([10]);
    JoinWhole(nested);
    var more := if capped == [] then [] else Ascii(":\n") + capped;
    WholeConcat(Ascii("Assistant used tool `") + name, Ascii("`"));
    WholeConcat(Ascii("Assistant used tool `") + name + Ascii("`"), more);
    var head := Ascii("Assistant used tool `") + name + Ascii("`") + more;
    WholeConcat(head, [10]);
    WholeConcat(head + [10], Join(nested));
  }

  lemma {:induction false} LinesWhole(items: seq<Item>)
    requires forall i :: 0 <= i < |items| ==> WholeItem(items[i])
    ensures AllWhole(Lines(items))
    decreases items
  {
    hide Whole, Serialize;
    if items != [] {
      SerializeWhole(items[0]);
      LinesWhole(items[1..]);
    }
  }

  /** A log of whole texts, however deep its tool calls nest, gives a transcript
      that is whole: nothing on the way, the caps, the trims and the cut, leaves
      half a surrogate pair. */
  lemma TranscriptWhole(log: seq<Item>, cutoff: nat)
    requires cutoff <= |log| && forall i :: 0 <= i < |log| ==> WholeItem(log[i])
    ensures Rendered(log, cutoff).Some? ==>
      Utf8.WellFormed(Rendered(log, cutoff).value) && 0 < |Rendered(log, cutoff).value| <= INPUT_MAX
  {
    hide Whole, Recent, Lines, WholeItem, StartOf;
    var part := log[StartOf(log, cutoff)..cutoff];
    LinesWhole(part);
    RecentWhole(Lines(part));
    Bounded(Lines(part));
    WholeIffWellFormed(Recent(Lines(part)));
  }

  // -- where it starts and stops --------------------------------------------

  /** A compaction before the cut stands for all that comes before it. */
  lemma CompactionStands(log: seq<Item>, at: nat, cutoff: nat)
    requires at < cutoff <= |log| && IsCompaction(log[at])
    ensures Rendered(log, cutoff) == Rendered(log[at..], cutoff - at)
  {
    hide Recent, Lines, StartOf;
    var start, later := StartOf(log, cutoff), StartOf(log[at..], cutoff - at);
    assert start >= at;
    assert log[at..][start - at] == log[start];
    assert forall i :: 0 <= i < |log| - at ==> log[at..][i] == log[i + at];
    assert later == start - at;
    assert log[at..][later..cutoff - at] == log[start..cutoff];
  }

  predicate DistinctTurns(log: seq<Item>) {
    forall i, j :: 0 <= i < j < |log| && TurnOf(log[i]).Some? ==> TurnOf(log[i]) != TurnOf(log[j])
  }

  /** A fork through one turn is told what a rewind to the next is told: the two
      cuts fall at the same item, or at the end when no turn follows. */
  lemma ThroughIsBeforeNext(log: seq<Item>, turn: TurnId)
    requires DistinctTurns(log) && FindTurn(log, turn) < |log|
    ensures var next := NextTurn(log, FindTurn(log, turn) + 1);
      if next == |log| then Transcript(log, Some(turn)) == Transcript(log, None)
      else TurnOf(log[next]).Some? && Transcript(log, Some(turn)) == TranscriptBefore(log, TurnOf(log[next]).value)
  {
    hide Rendered, FindTurn, NextTurn, TurnOf;
    var next := NextTurn(log, FindTurn(log, turn) + 1);
    if next < |log| {
      var first := FindTurn(log, TurnOf(log[next]).value);
      assert first <= next;
    }
  }
}
