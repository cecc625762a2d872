/** Carrying store-only items over a rebuild of the log
    (src/helpers/transcript.ts:55-145). */
module Carry {
  import opened Common
  import opened ChatLog

  predicate IsReasoning(it: Item) {
    it.body.Notice? && it.body.subtype == Reasoning
  }

  predicate IsCommandOutput(it: Item) {
    it.body.Notice? && it.body.subtype == CommandOutput
  }

  /** The kinds an item can be located by. */
  predicate Anchorable(it: Item) {
    it.body.ToolCall? || it.body.UserMessage? || it.body.AgentMessage? || IsReasoning(it)
  }

  /** `r` is where `it` would be: a tool call by its id, the rest by their text. */
  predicate Matches(r: Item, it: Item) {
    match it.body
    case ToolCall(id) => r.body.ToolCall? && r.body.id == id
    case UserMessage(text, _, _, _, _) => r.body.UserMessage? && r.body.text == text
    case AgentMessage(text) => r.body.AgentMessage? && r.body.text == text
    case Notice(subtype, text) => subtype == Reasoning && IsReasoning(r) && r.body.text == text
    case _ => false
  }

  /** The first place at or after `from` that matches. */
  function Located(rebuilt: seq<Item>, it: Item, from: nat): (at: Option<nat>)
    requires from <= |rebuilt|
    ensures at.Some? ==> from <= at.value < |rebuilt| && Matches(rebuilt[at.value], it)
    ensures at.Some? ==> forall i :: from <= i < at.value ==> !Matches(rebuilt[i], it)
    ensures at.None? ==> forall i :: from <= i < |rebuilt| ==> !Matches(rebuilt[i], it)
    decreases |rebuilt| - from
  {
    if from == |rebuilt| then None
    else if Matches(rebuilt[from], it) then Some(from)
    else Located(rebuilt, it, from + 1)
  }

  /** A follow-up the rebuilt log draws already. */
  predicate Matched(rebuilt: seq<Item>, it: Item) {
    it.body.QueuedMessage? && it.body.turn.Some? && HasSentTurn(rebuilt, it.body.turn.value)
  }

  /** The place of the latest item among the first `j` of `prev` located in the
      rebuilt log, each sought past the one before; -1 before the first. */
  function AnchorAfter(rebuilt: seq<Item>, prev: seq<Item>, j: nat): (anchor: int)
    requires j <= |prev|
    ensures -1 <= anchor < |rebuilt|
  {
    if j == 0 then -1
    else
      var anchor, it := AnchorAfter(rebuilt, prev, j - 1), prev[j - 1];
      if it.body.QueuedMessage? || IsCommandOutput(it) then anchor
      else var at := Located(rebuilt, it, anchor + 1); if at.Some? then at.value else anchor
  }

  /** Item `j` of the previous log is carried over. */
  predicate Carries(rebuilt: seq<Item>, prev: seq<Item>, j: nat)
    requires j < |prev|
  {
    var it := prev[j];
    if it.body.QueuedMessage? then !Matched(rebuilt, it)
    else if IsCommandOutput(it) then true
    else IsReasoning(it) && Located(rebuilt, it, AnchorAfter(rebuilt, prev, j) + 1).None?
  }

  // -- the new log, part by part --------------------------------------------

  datatype Part = Rebuilt(i: nat) | Carried(j: nat)

  predicate Belongs(rebuilt: seq<Item>, prev: seq<Item>, p: Part) {
    match p
    case Rebuilt(i) => i < |rebuilt|
    case Carried(j) => j < |prev| && Carries(rebuilt, prev, j)
  }

  function Draw(rebuilt: seq<Item>, prev: seq<Item>, p: Part): Item
    requires Belongs(rebuilt, prev, p)
  {
    match p
    case Rebuilt(i) => rebuilt[i]
    case Carried(j) => prev[j]
  }

  /** The items of the first `upto` carried at `anchor`, in order. */
  function CarriedAt(rebuilt: seq<Item>, prev: seq<Item>, anchor: int, upto: nat): (ps: seq<Part>)
    requires upto <= |prev|
    ensures forall x :: 0 <= x < |ps| ==> Belongs(rebuilt, prev, ps[x])
  {
    if upto == 0 then []
    else
      CarriedAt(rebuilt, prev, anchor, upto - 1)
      + if Carries(rebuilt, prev, upto - 1) && AnchorAfter(rebuilt, prev, upto - 1) == anchor then [Carried(upto - 1)] else []
  }

  function Front(rebuilt: seq<Item>, prev: seq<Item>, upto: nat): (ps: seq<Part>)
    requires upto <= |rebuilt|
    ensures forall x :: 0 <= x < |ps| ==> Belongs(rebuilt, prev, ps[x])
  {
    if upto == 0 then []
    else Front(rebuilt, prev, upto - 1) + [Rebuilt(upto - 1)] + CarriedAt(rebuilt, prev, upto - 1, |prev|)
  }

  function Layout(rebuilt: seq<Item>, prev: seq<Item>): (ps: seq<Part>)
    ensures forall x :: 0 <= x < |ps| ==> Belongs(rebuilt, prev, ps[x])
  {
    Front(rebuilt, prev, |rebuilt|) + CarriedAt(rebuilt, prev, -1, |prev|)
  }

  function Drawn(rebuilt: seq<Item>, prev: seq<Item>, ps: seq<Part>): (r: seq<Item>)
    requires forall x :: 0 <= x < |ps| ==> Belongs(rebuilt, prev, ps[x])
    ensures |r| == |ps|
    ensures forall x :: 0 <= x < |ps| ==> r[x] == Draw(rebuilt, prev, ps[x])
  {
    seq(|ps|, x requires 0 <= x < |ps| => Draw(rebuilt, prev, ps[x]))
  }

  /** The log after a rebuild. */
  function CarriedOver(rebuilt: seq<Item>, prev: seq<Item>): seq<Item> {
    Drawn(rebuilt, prev, Layout(rebuilt, prev))
  }

  // -- the order of the parts -----------------------------------------------

  /** What a part stands with: the rebuilt item it is or follows, or the end. */
  function Slot(rebuilt: seq<Item>, prev: seq<Item>, p: Part): nat
    requires Belongs(rebuilt, prev, p)
  {
    match p
    case Rebuilt(i) => i
    case Carried(j) => var anchor := AnchorAfter(rebuilt, prev, j); if anchor < 0 then |rebuilt| else anchor
  }

  predicate Before(rebuilt: seq<Item>, prev: seq<Item>, p: Part, q: Part)
    requires Belongs(rebuilt, prev, p) && Belongs(rebuilt, prev, q)
  {
    var a, b := Slot(rebuilt, prev, p), Slot(rebuilt, prev, q);
    a < b || (a == b && q.Carried? && (p.Rebuilt? || p.j < q.j))
  }

  predicate Sorted(rebuilt: seq<Item>, prev: seq<Item>, ps: seq<Part>) {
    && (forall x :: 0 <= x < |ps| ==> Belongs(rebuilt, prev, ps[x]))
    && (forall x, y :: 0 <= x < y < |ps| ==> Before(rebuilt, prev, ps[x], ps[y]))
  }

  /** Every part of `ps` stands with `slot`. */
  predicate AllAt(rebuilt: seq<Item>, prev: seq<Item>, ps: seq<Part>, slot: nat) {
    forall x :: 0 <= x < |ps| ==> Belongs(rebuilt, prev, ps[x]) && Slot(rebuilt, prev, ps[x]) == slot
  }

  lemma SortedConcat(rebuilt: seq<Item>, prev: seq<Item>, ps: seq<Part>, qs: seq<Part>)
    requires Sorted(rebuilt, prev, ps) && Sorted(rebuilt, prev, qs)
    requires forall x, y :: 0 <= x < |ps| && 0 <= y < |qs| ==> Before(rebuilt, prev, ps[x], qs[y])
    ensures Sorted(rebuilt, prev, ps + qs)
  {
    hide Belongs, Before;
  }

  lemma {:induction false} CarriedSorted(rebuilt: seq<Item>, prev: seq<Item>, anchor: int, upto: nat)
    requires upto <= |prev| && -1 <= anchor < |rebuilt|
    ensures Sorted(rebuilt, prev, CarriedAt(rebuilt, prev, anchor, upto))
    ensures AllAt(rebuilt, prev, CarriedAt(rebuilt, prev, anchor, upto), if anchor < 0 then |rebuilt| else anchor)
    ensures forall p :: p in CarriedAt(rebuilt, prev, anchor, upto) <==>
                          p.Carried? && p.j < upto && Carries(rebuilt, prev, p.j) && AnchorAfter(rebuilt, prev, p.j) == anchor
  {
    hide Carries, AnchorAfter;
    if upto > 0 {
      CarriedSorted(rebuilt, prev, anchor, upto - 1);
      var ps := CarriedAt(rebuilt, prev, anchor, upto - 1);
      if Carries(rebuilt, prev, upto - 1) && AnchorAfter(rebuilt, prev, upto - 1) == anchor {
        assert forall x :: 0 <= x < |ps| ==> ps[x] in ps;
        SortedConcat(rebuilt, prev, ps, [Carried(upto - 1)]);
      } else {
        assert CarriedAt(rebuilt, prev, anchor, upto) == ps;
      }
    }
  }

  lemma {:induction false} FrontSorted(rebuilt: seq<Item>, prev: seq<Item>, upto: nat)
    requires upto <= |rebuilt|
    ensures Sorted(rebuilt, prev, Front(rebuilt, prev, upto))
    ensures forall p :: p in Front(rebuilt, prev, upto) <==> Belongs(rebuilt, prev, p) && Slot(rebuilt, prev, p) < upto
  {
    hide Carries, AnchorAfter, CarriedAt;
    if upto > 0 {
      var front, carried := Front(rebuilt, prev, upto - 1), CarriedAt(rebuilt, prev, upto - 1, |prev|);
      FrontSorted(rebuilt, prev, upto - 1);
      CarriedSorted(rebuilt, prev, upto - 1, |prev|);
      assert forall x :: 0 <= x < |front| ==> front[x] in front;
      SortedConcat(rebuilt, prev, front, [Rebuilt(upto - 1)]);
      assert forall x :: 0 <= x < |carried| ==> carried[x] in carried;
      SortedConcat(rebuilt, prev, front + [Rebuilt(upto - 1)], carried);
    }
  }

  /** The new log holds each part that belongs, once, in order. */
  lemma LayoutSorted(rebuilt: seq<Item>, prev: seq<Item>)
    ensures Sorted(rebuilt, prev, Layout(rebuilt, prev))
    ensures forall p :: p in Layout(rebuilt, prev) <==> Belongs(rebuilt, prev, p)
  {
    hide Carries, AnchorAfter, CarriedAt, Front;
    var front, last := Front(rebuilt, prev, |rebuilt|), CarriedAt(rebuilt, prev, -1, |prev|);
    FrontSorted(rebuilt, prev, |rebuilt|);
    CarriedSorted(rebuilt, prev, -1, |prev|);
    assert forall x :: 0 <= x < |front| ==> front[x] in front;
    assert forall x :: 0 <= x < |last| ==> last[x] in last;
    SortedConcat(rebuilt, prev, front, last);
  }

  /** Where two parts stand follows their order. */
  lemma StandsBefore(rebuilt: seq<Item>, prev: seq<Item>, x: nat, y: nat)
    requires x < |Layout(rebuilt, prev)| && y < |Layout(rebuilt, prev)|
    ensures var ps := Layout(rebuilt, prev); x < y <==> Before(rebuilt, prev, ps[x], ps[y])
  {
    hide Carries, AnchorAfter, Layout;
    LayoutSorted(rebuilt, prev);
    var ps := Layout(rebuilt, prev);
    assert y < x ==> Before(rebuilt, prev, ps[y], ps[x]);
  }

  // -- the code -------------------------------------------------------------

  method LocateAnchor(rebuilt: seq<Item>, it: Item, from: nat) returns (at: Option<nat>)
    requires from <= |rebuilt|
    ensures at == Located(rebuilt, it, from)
  {
    if !Anchorable(it) {
      return None;
    }
    for i := from to |rebuilt|
      invariant Located(rebuilt, it, from) == Located(rebuilt, it, i)
    {
      if Matches(rebuilt[i], it) { return Some(i); }
    }
    return None;
  }

  ghost predicate Bucket(rebuilt: seq<Item>, prev: seq<Item>, upto: nat, insertAfter: map<int, seq<Item>>, anchor: int)
    requires upto <= |prev|
  {
    var ps := CarriedAt(rebuilt, prev, anchor, upto);
    (anchor in insertAfter <==> ps != []) && (anchor in insertAfter ==> insertAfter[anchor] == Drawn(rebuilt, prev, ps))
  }

  ghost predicate Buckets(rebuilt: seq<Item>, prev: seq<Item>, upto: nat, insertAfter: map<int, seq<Item>>)
    requires upto <= |prev|
  {
    forall anchor :: Bucket(rebuilt, prev, upto, insertAfter, anchor)
  }

  function Added(insertAfter: map<int, seq<Item>>, anchor: int, it: Item): map<int, seq<Item>> {
    insertAfter[anchor := (if anchor in insertAfter then insertAfter[anchor] else []) + [it]]
  }

  lemma BucketStep(rebuilt: seq<Item>, prev: seq<Item>, j: nat, insertAfter: map<int, seq<Item>>)
    requires j < |prev| && Buckets(rebuilt, prev, j, insertAfter)
    ensures Buckets(rebuilt, prev, j + 1, if Carries(rebuilt, prev, j)
                                          then Added(insertAfter, AnchorAfter(rebuilt, prev, j), prev[j]) else insertAfter)
  {
    hide Carries, AnchorAfter;
    var next := j + 1;
    var after := if Carries(rebuilt, prev, j) then Added(insertAfter, AnchorAfter(rebuilt, prev, j), prev[j]) else insertAfter;
    forall anchor ensures Bucket(rebuilt, prev, next, after, anchor) {
      assert Bucket(rebuilt, prev, j, insertAfter, anchor);
      if Carries(rebuilt, prev, j) && AnchorAfter(rebuilt, prev, j) == anchor {
        assert Belongs(rebuilt, prev, Carried(j));
      } else {
        assert CarriedAt(rebuilt, prev, anchor, next) == CarriedAt(rebuilt, prev, anchor, j);
      }
    }
  }

  method CarryForwardStoreOnly(rebuilt: seq<Item>, prev: seq<Item>) returns (r: seq<Item>)
    ensures r == CarriedOver(rebuilt, prev)
  {
    hide Located, Buckets, CarriedOver, Matches, HasSentTurn;
    var insertAfter: map<int, seq<Item>>, anchor: int := map[], -1;
    NoBuckets(rebuilt, prev);
    for j := 0 to |prev|
      invariant anchor == AnchorAfter(rebuilt, prev, j)
      invariant Buckets(rebuilt, prev, j, insertAfter)
    {
      var it := prev[j];
      BucketStep(rebuilt, prev, j, insertAfter);
      if it.body.QueuedMessage? {
        if !Matched(rebuilt, it) { insertAfter := Added(insertAfter, anchor, it); }
      } else if IsCommandOutput(it) {
        insertAfter := Added(insertAfter, anchor, it);
      } else {
        var at := LocateAnchor(rebuilt, it, anchor + 1);
        if at.Some? {
          anchor := at.value;
        } else if IsReasoning(it) {
          insertAfter := Added(insertAfter, anchor, it);
        }
      }
    }
    r := Assemble(rebuilt, prev, insertAfter);
  }

  lemma NoBuckets(rebuilt: seq<Item>, prev: seq<Item>)
    ensures Buckets(rebuilt, prev, 0, map[])
  {
  }

  method Assemble(rebuilt: seq<Item>, ghost prev: seq<Item>, insertAfter: map<int, seq<Item>>) returns (r: seq<Item>)
    requires Buckets(rebuilt, prev, |prev|, insertAfter)
    ensures r == CarriedOver(rebuilt, prev)
  {
    hide Carries, AnchorAfter, CarriedAt, Belongs, Draw;
    if insertAfter == map[] {
      assert forall anchor :: Bucket(rebuilt, prev, |prev|, insertAfter, anchor) ==> CarriedAt(rebuilt, prev, anchor, |prev|) == [];
      NothingCarried(rebuilt, prev, |rebuilt|);
      return rebuilt;
    }
    r := [];
    for i := 0 to |rebuilt|
      invariant r == Drawn(rebuilt, prev, Front(rebuilt, prev, i))
    {
      assert Bucket(rebuilt, prev, |prev|, insertAfter, i);
      FrontStep(rebuilt, prev, i);
      r := r + [rebuilt[i]];
      if i in insertAfter { r := r + insertAfter[i]; }
    }
    assert Bucket(rebuilt, prev, |prev|, insertAfter, -1);
    if -1 in insertAfter { r := r + insertAfter[-1]; }
  }

  lemma FrontStep(rebuilt: seq<Item>, prev: seq<Item>, i: nat)
    requires i < |rebuilt|
    ensures Drawn(rebuilt, prev, Front(rebuilt, prev, i + 1))
            == Drawn(rebuilt, prev, Front(rebuilt, prev, i)) + [rebuilt[i]] + Drawn(rebuilt, prev, CarriedAt(rebuilt, prev, i, |prev|))
  {
    hide CarriedAt, Carries;
    assert Belongs(rebuilt, prev, Rebuilt(i));
  }

  lemma {:induction false} NothingCarried(rebuilt: seq<Item>, prev: seq<Item>, upto: nat)
    requires upto <= |rebuilt|
    requires forall anchor :: CarriedAt(rebuilt, prev, anchor, |prev|) == []
    ensures Drawn(rebuilt, prev, Front(rebuilt, prev, upto)) == rebuilt[..upto]
  {
    hide CarriedAt, Carries;
    if upto > 0 {
      NothingCarried(rebuilt, prev, upto - 1);
      FrontStep(rebuilt, prev, upto - 1);
    }
  }
}
