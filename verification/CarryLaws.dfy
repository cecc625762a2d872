/** What carrying store-only items over a rebuild keeps, and when a second
    rebuild leaves the log as the first one did (src/helpers/transcript.ts:55-145). */
module CarryLaws {
  import opened Common
  import opened ChatLog
  import opened Carry

  // -- anchors --------------------------------------------------------------

  /** The rebuilt item that item `j` of the previous log is located at. */
  function Anchoring(rebuilt: seq<Item>, prev: seq<Item>, j: nat): Option<nat>
    requires j < |prev|
  {
    if prev[j].body.QueuedMessage? || IsCommandOutput(prev[j]) then None
    else Located(rebuilt, prev[j], AnchorAfter(rebuilt, prev, j) + 1)
  }

  /** The nearest item before `j` that was located. */
  function Nearest(rebuilt: seq<Item>, prev: seq<Item>, j: nat): (near: Option<nat>)
    requires j <= |prev|
    ensures near.Some? ==> near.value < j && Anchoring(rebuilt, prev, near.value).Some?
  {
    if j == 0 then None
    else if Anchoring(rebuilt, prev, j - 1).Some? then Some(j - 1) else Nearest(rebuilt, prev, j - 1)
  }

  /** The walk's anchor is where the nearest located item before it is. */
  lemma {:induction false} AnchorIsNearest(rebuilt: seq<Item>, prev: seq<Item>, j: nat)
    requires j <= |prev|
    ensures var near := Nearest(rebuilt, prev, j);
      if near.None? then AnchorAfter(rebuilt, prev, j) == -1
      else near.value < j && Anchoring(rebuilt, prev, near.value) == Some(AnchorAfter(rebuilt, prev, j))
    ensures forall k :: (if Nearest(rebuilt, prev, j).None? then 0 else Nearest(rebuilt, prev, j).value + 1) <= k < j
                        ==> Anchoring(rebuilt, prev, k).None?
  {
    hide Located;
    if j > 0 { AnchorIsNearest(rebuilt, prev, j - 1); }
  }

  /** The same thing said again: a tool call of one id; or the same words of the
      user, of the agent, or thought by it. */
  predicate SameThing(r: Item, it: Item) {
    || (r.body.ToolCall? && it.body.ToolCall? && r.body.id == it.body.id)
    || (r.body.UserMessage? && it.body.UserMessage? && r.body.text == it.body.text)
    || (r.body.AgentMessage? && it.body.AgentMessage? && r.body.text == it.body.text)
    || (r.body.Notice? && it.body.Notice? && r.body.subtype == Reasoning && it.body.subtype == Reasoning && r.body.text == it.body.text)
  }

  /** The anchor says again what an earlier item said, and none of the items
      between that one and `j` is said again further down. */
  lemma AnchorRepeats(rebuilt: seq<Item>, prev: seq<Item>, j: nat)
    requires j <= |prev|
    ensures var anchor := AnchorAfter(rebuilt, prev, j);
      && (anchor >= 0 ==> exists i :: Repeats(rebuilt, prev, j, anchor, i))
      && (anchor < 0 ==> forall i, k :: 0 <= i < j && 0 <= k < |rebuilt| ==> !SameThing(rebuilt[k], prev[i]))
  {
    hide Located, AnchorAfter, Nearest;
    AnchorIsNearest(rebuilt, prev, j);
    var near, anchor := Nearest(rebuilt, prev, j), AnchorAfter(rebuilt, prev, j);
    forall i | (if near.None? then 0 else near.value + 1) <= i < j
      ensures forall k :: anchor < k < |rebuilt| ==> !SameThing(rebuilt[k], prev[i])
    {
      AnchorsGrow(rebuilt, prev, i, j);
      NotSaidAgain(rebuilt, prev, i);
    }
    if near.Some? { assert Repeats(rebuilt, prev, j, anchor, near.value); }
  }

  predicate Repeats(rebuilt: seq<Item>, prev: seq<Item>, j: nat, anchor: int, i: int) {
    && 0 <= i < j <= |prev| && 0 <= anchor < |rebuilt| && SameThing(rebuilt[anchor], prev[i])
    && forall x, k :: i < x < j && anchor < k < |rebuilt| ==> !SameThing(rebuilt[k], prev[x])
  }

  /** An item that was not located is not said again past the walk's place. */
  lemma NotSaidAgain(rebuilt: seq<Item>, prev: seq<Item>, i: nat)
    requires i < |prev|
    ensures Anchoring(rebuilt, prev, i).None? ==>
              forall k :: AnchorAfter(rebuilt, prev, i) < k < |rebuilt| ==> !SameThing(rebuilt[k], prev[i])
  {
  }

  /** What is carried over: every command output; every follow-up but one whose
      turn the rebuilt log draws; every thought not thought again past its place;
      and nothing else. */
  lemma WhatIsCarried(rebuilt: seq<Item>, prev: seq<Item>, j: nat)
    requires j < |prev|
    ensures var it := prev[j];
      Carried(j) in Layout(rebuilt, prev) <==>
      || (it.body.Notice? && it.body.subtype == CommandOutput)
      || (it.body.QueuedMessage? && !(it.body.turn.Some? && exists i :: 0 <= i < |rebuilt| && TurnOf(rebuilt[i]) == it.body.turn))
      || (it.body.Notice? && it.body.subtype == Reasoning
          && forall k :: AnchorAfter(rebuilt, prev, j) < k < |rebuilt| ==> !SameThing(rebuilt[k], it))
  {
    hide Layout, Before, AnchorAfter;
    LayoutSorted(rebuilt, prev);
    assert Carried(j) in Layout(rebuilt, prev) <==> Carries(rebuilt, prev, j);
  }

  lemma {:induction false} AnchorsGrow(rebuilt: seq<Item>, prev: seq<Item>, j: nat, k: nat)
    requires j <= k <= |prev|
    ensures AnchorAfter(rebuilt, prev, j) <= AnchorAfter(rebuilt, prev, k)
    decreases k
  {
    hide Located;
    if j < k { AnchorsGrow(rebuilt, prev, j, k - 1); }
  }

  /** Later items are located at later places: the walk keeps step with the
      rebuilt log, and no rebuilt item anchors twice. */
  lemma AnchorsAdvance(rebuilt: seq<Item>, prev: seq<Item>, j: nat, k: nat)
    requires j < k < |prev|
    requires Anchoring(rebuilt, prev, j).Some? && Anchoring(rebuilt, prev, k).Some?
    ensures var a, b := Anchoring(rebuilt, prev, j).value, Anchoring(rebuilt, prev, k).value;
      && a < b < |rebuilt| && Matches(rebuilt[a], prev[j]) && Matches(rebuilt[b], prev[k])
      && forall i :: AnchorAfter(rebuilt, prev, k) < i < b ==> !Matches(rebuilt[i], prev[k])
  {
    hide Located, Matches;
    AnchorsGrow(rebuilt, prev, j + 1, k);
  }

  // -- conservation ---------------------------------------------------------

  /** The new log with everything carried over taken out again. */
  function Erased(rebuilt: seq<Item>, prev: seq<Item>, ps: seq<Part>): seq<Item>
    requires forall x :: 0 <= x < |ps| ==> Belongs(rebuilt, prev, ps[x])
  {
    if ps == [] then []
    else
      var last := ps[|ps| - 1];
      Erased(rebuilt, prev, ps[..|ps| - 1]) + if last.Rebuilt? then [Draw(rebuilt, prev, last)] else []
  }

  lemma {:induction false} ErasedConcat(rebuilt: seq<Item>, prev: seq<Item>, ps: seq<Part>, qs: seq<Part>)
    requires forall x :: 0 <= x < |ps| ==> Belongs(rebuilt, prev, ps[x])
    requires forall x :: 0 <= x < |qs| ==> Belongs(rebuilt, prev, qs[x])
    ensures Erased(rebuilt, prev, ps + qs) == Erased(rebuilt, prev, ps) + Erased(rebuilt, prev, qs)
  {
    hide Draw, Belongs;
    if qs == [] {
      assert ps + qs == ps;
    } else {
      assert (ps + qs)[..|ps + qs| - 1] == ps + qs[..|qs| - 1];
      ErasedConcat(rebuilt, prev, ps, qs[..|qs| - 1]);
    }
  }

  lemma {:induction false} CarriedErased(rebuilt: seq<Item>, prev: seq<Item>, ps: seq<Part>)
    requires forall x :: 0 <= x < |ps| ==> Belongs(rebuilt, prev, ps[x]) && ps[x].Carried?
    ensures Erased(rebuilt, prev, ps) == []
  {
    hide Draw, Belongs;
    if ps != [] { CarriedErased(rebuilt, prev, ps[..|ps| - 1]); }
  }

  lemma {:induction false} FrontErased(rebuilt: seq<Item>, prev: seq<Item>, upto: nat)
    requires upto <= |rebuilt|
    ensures Erased(rebuilt, prev, Front(rebuilt, prev, upto)) == rebuilt[..upto]
  {
    hide Carries, AnchorAfter, CarriedAt, Before, Sorted, AllAt;
    if upto > 0 {
      var front, carried := Front(rebuilt, prev, upto - 1), CarriedAt(rebuilt, prev, upto - 1, |prev|);
      FrontErased(rebuilt, prev, upto - 1);
      OnlyCarried(rebuilt, prev, upto - 1);
      ErasedConcat(rebuilt, prev, front, [Rebuilt(upto - 1)]);
      ErasedConcat(rebuilt, prev, front + [Rebuilt(upto - 1)], carried);
      JustRebuilt(rebuilt, prev, upto - 1);
    }
  }

  lemma JustRebuilt(rebuilt: seq<Item>, prev: seq<Item>, i: nat)
    requires i < |rebuilt|
    ensures Erased(rebuilt, prev, [Rebuilt(i)]) == [rebuilt[i]]
  {
    hide Carries;
    assert [Rebuilt(i)][..0] == [];
  }

  lemma OnlyCarried(rebuilt: seq<Item>, prev: seq<Item>, anchor: int)
    requires -1 <= anchor < |rebuilt|
    ensures Erased(rebuilt, prev, CarriedAt(rebuilt, prev, anchor, |prev|)) == []
  {
    hide Carries, AnchorAfter, CarriedAt, Erased;
    CarriedSorted(rebuilt, prev, anchor, |prev|);
    var ps := CarriedAt(rebuilt, prev, anchor, |prev|);
    assert forall x :: 0 <= x < |ps| ==> ps[x] in ps;
    CarriedErased(rebuilt, prev, ps);
  }

  /** Taking out what was carried over gives the rebuilt log back; each carried
      item stands in the new log once, and nothing else does. */
  lemma Conserved(rebuilt: seq<Item>, prev: seq<Item>)
    ensures Erased(rebuilt, prev, Layout(rebuilt, prev)) == rebuilt
    ensures forall j :: 0 <= j < |prev| ==> (Carried(j) in Layout(rebuilt, prev) <==> Carries(rebuilt, prev, j))
    ensures forall x, y :: 0 <= x < y < |Layout(rebuilt, prev)| ==> Layout(rebuilt, prev)[x] != Layout(rebuilt, prev)[y]
  {
    hide Carries, AnchorAfter, CarriedAt, Front, Erased;
    FrontErased(rebuilt, prev, |rebuilt|);
    OnlyCarried(rebuilt, prev, -1);
    ErasedConcat(rebuilt, prev, Front(rebuilt, prev, |rebuilt|), CarriedAt(rebuilt, prev, -1, |prev|));
    assert rebuilt[..|rebuilt|] == rebuilt;
    LayoutSorted(rebuilt, prev);
  }

  // -- order ----------------------------------------------------------------

  /** A carried item stands after exactly the rebuilt items up to the one its
      nearest located predecessor was located at; with no such predecessor,
      after all of them. */
  lemma AfterItsAnchor(rebuilt: seq<Item>, prev: seq<Item>, x: nat, y: nat)
    requires x < |Layout(rebuilt, prev)| && y < |Layout(rebuilt, prev)|
    requires var ps := Layout(rebuilt, prev); ps[x].Rebuilt? && ps[y].Carried?
    ensures var ps := Layout(rebuilt, prev);
      x < y <==> var near := Nearest(rebuilt, prev, ps[y].j);
                 near.None? || ps[x].i <= Anchoring(rebuilt, prev, near.value).value
  {
    hide Carries, Layout, Anchoring, Nearest, AnchorAfter;
    StandsBefore(rebuilt, prev, x, y);
    AnchorIsNearest(rebuilt, prev, Layout(rebuilt, prev)[y].j);
  }

  /** Two carried items keep their order unless only the later one has an anchor. */
  lemma CarriedOrder(rebuilt: seq<Item>, prev: seq<Item>, x: nat, y: nat)
    requires x < |Layout(rebuilt, prev)| && y < |Layout(rebuilt, prev)|
    requires var ps := Layout(rebuilt, prev); ps[x].Carried? && ps[y].Carried? && ps[x].j < ps[y].j
    ensures var ps := Layout(rebuilt, prev);
      x < y <==> Nearest(rebuilt, prev, ps[x].j).Some? || Nearest(rebuilt, prev, ps[y].j).None?
  {
    hide Carries, Layout, Anchoring, Nearest, AnchorAfter;
    StandsBefore(rebuilt, prev, x, y);
    var ps := Layout(rebuilt, prev);
    AnchorIsNearest(rebuilt, prev, ps[x].j);
    AnchorIsNearest(rebuilt, prev, ps[y].j);
    AnchorsGrow(rebuilt, prev, ps[x].j, ps[y].j);
  }

  // -- rebuilding twice -----------------------------------------------------

  /** A rebuilt log as the records and turn rows give it: no command output, and
      every follow-up in it names its turn. */
  predicate FromRecords(rebuilt: seq<Item>) {
    forall i :: 0 <= i < |rebuilt| ==>
      !IsCommandOutput(rebuilt[i]) && (rebuilt[i].body.QueuedMessage? ==> rebuilt[i].body.turn.Some?)
  }

  /** The last of the first `upto` items that can anchor; -1 when none can. */
  function LastAnchor(rebuilt: seq<Item>, upto: nat): (at: int)
    requires upto <= |rebuilt|
    ensures -1 <= at < upto
    ensures at >= 0 ==> Anchorable(rebuilt[at])
    ensures forall i :: at < i < upto ==> !Anchorable(rebuilt[i])
  {
    if upto == 0 then -1
    else if Anchorable(rebuilt[upto - 1]) then upto - 1
    else LastAnchor(rebuilt, upto - 1)
  }

  /** How many of the first `x` parts are rebuilt items. */
  function Seen(ps: seq<Part>, x: nat): nat
    requires x <= |ps|
  {
    if x == 0 then 0 else Seen(ps, x - 1) + if ps[x - 1].Rebuilt? then 1 else 0
  }

  lemma BeforeIsBelow(rebuilt: seq<Item>, prev: seq<Item>, p: Part)
    requires Belongs(rebuilt, prev, p)
    ensures var slot := Slot(rebuilt, prev, p);
      slot <= |rebuilt|
      && forall i :: 0 <= i < |rebuilt| ==>
           (Before(rebuilt, prev, Rebuilt(i), p) <==> if p.Rebuilt? then i < p.i else slot == |rebuilt| || i < slot + 1)
  {
    hide Carries, AnchorAfter;
  }

  /** Ahead of each part stand exactly the rebuilt items that come before it. */
  lemma AheadIsBefore(rebuilt: seq<Item>, prev: seq<Item>, x: nat)
    requires x < |Layout(rebuilt, prev)|
    ensures var ps := Layout(rebuilt, prev);
      forall i :: 0 <= i < |rebuilt| ==> (Rebuilt(i) in ps[..x] <==> Before(rebuilt, prev, Rebuilt(i), ps[x]))
  {
    hide Carries, AnchorAfter, Layout;
    var ps := Layout(rebuilt, prev);
    LayoutSorted(rebuilt, prev);
    forall i | 0 <= i < |rebuilt|
      ensures Rebuilt(i) in ps[..x] <==> Before(rebuilt, prev, Rebuilt(i), ps[x])
    {
      assert Rebuilt(i) in ps;
      var z :| 0 <= z < |ps| && ps[z] == Rebuilt(i);
      if z < x { assert ps[..x][z] == Rebuilt(i); }
      if Rebuilt(i) in ps[..x] {
        var w :| 0 <= w < x && ps[w] == Rebuilt(i);
      }
    }
  }

  /** Before each part stand exactly the rebuilt items of smaller slots, and its
      own for a carried one. */
  lemma {:induction false} SeenIsSlot(rebuilt: seq<Item>, prev: seq<Item>, x: nat)
    requires x <= |Layout(rebuilt, prev)|
    ensures var ps := Layout(rebuilt, prev); Seen(ps, x) <= |rebuilt|
    ensures var ps := Layout(rebuilt, prev); forall i :: 0 <= i < |rebuilt| ==> (i < Seen(ps, x) <==> Rebuilt(i) in ps[..x])
    ensures var ps := Layout(rebuilt, prev);
      x < |ps| ==>
        Seen(ps, x) == if ps[x].Rebuilt? then ps[x].i
                       else if Slot(rebuilt, prev, ps[x]) == |rebuilt| then |rebuilt|
                       else Slot(rebuilt, prev, ps[x]) + 1
  {
    hide Carries, AnchorAfter, Layout, Slot, Before;
    var ps := Layout(rebuilt, prev);
    LayoutSorted(rebuilt, prev);
    if x > 0 {
      SeenIsSlot(rebuilt, prev, x - 1);
      assert ps[..x] == ps[..x - 1] + [ps[x - 1]];
    }
    if x < |ps| {
      AheadIsBefore(rebuilt, prev, x);
      BeforeIsBelow(rebuilt, prev, ps[x]);
      var seen := Seen(ps, x);
      assert seen < |rebuilt| ==> !Before(rebuilt, prev, Rebuilt(seen), ps[x]);
      assert seen > 0 ==> Before(rebuilt, prev, Rebuilt(seen - 1), ps[x]);
    }
  }

  lemma AnchorsAreAnchorable(rebuilt: seq<Item>, prev: seq<Item>, j: nat)
    requires j <= |prev|
    ensures var anchor := AnchorAfter(rebuilt, prev, j); anchor >= 0 ==> Anchorable(rebuilt[anchor])
  {
    AnchorIsNearest(rebuilt, prev, j);
  }

  lemma LocatedLater(rebuilt: seq<Item>, it: Item, from: nat, later: nat)
    requires from <= later <= |rebuilt| && Located(rebuilt, it, from).None?
    ensures Located(rebuilt, it, later).None?
  {
  }

  /** An item of the rebuilt log is located at its own place, when the walk has
      come as far as the last item before it that can anchor. */
  lemma LocatesItself(rebuilt: seq<Item>, i: nat)
    requires i < |rebuilt|
    ensures Located(rebuilt, rebuilt[i], LastAnchor(rebuilt, i) + 1) == if Anchorable(rebuilt[i]) then Some(i) else None
  {
    hide Located, LastAnchor, Matches, Anchorable;
    var from, it := LastAnchor(rebuilt, i) + 1, rebuilt[i];
    forall k | from <= k < |rebuilt| ensures !Anchorable(it) || !Anchorable(rebuilt[k]) ==> !Matches(rebuilt[k], it) {
      OnlyAnchorableMatch(rebuilt[k], it);
    }
    OnlyAnchorableMatch(it, it);
  }

  lemma OnlyAnchorableMatch(r: Item, it: Item)
    ensures Matches(r, it) ==> Anchorable(r) && Anchorable(it)
    ensures Anchorable(it) ==> Matches(it, it)
  {
  }

  /** One step of the walk. */
  lemma AnchorStep(rebuilt: seq<Item>, prev: seq<Item>, j: nat)
    requires j < |prev|
    ensures var at := Located(rebuilt, prev[j], AnchorAfter(rebuilt, prev, j) + 1);
      AnchorAfter(rebuilt, prev, j + 1)
      == if prev[j].body.QueuedMessage? || IsCommandOutput(prev[j]) || at.None? then AnchorAfter(rebuilt, prev, j) else at.value
  {
    hide Located, IsCommandOutput;
  }

  /** Walking on over a rebuilt item, or over a carried one. */
  lemma StepOverRebuilt(rebuilt: seq<Item>, again: seq<Item>, x: nat, i: nat)
    requires FromRecords(rebuilt) && x < |again| && i < |rebuilt| && again[x] == rebuilt[i]
    requires AnchorAfter(rebuilt, again, x) == LastAnchor(rebuilt, i)
    ensures AnchorAfter(rebuilt, again, x + 1) == LastAnchor(rebuilt, i + 1)
  {
    hide AnchorAfter, Located, LastAnchor, IsCommandOutput, FromRecords;
    PastRebuilt(rebuilt, i);
    AnchorStep(rebuilt, again, x);
    QueuedIsNoAnchor(rebuilt[i]);
  }

  lemma QueuedIsNoAnchor(it: Item)
    ensures it.body.QueuedMessage? ==> !Anchorable(it)
  {
  }

  lemma StepOverCarried(rebuilt: seq<Item>, prev: seq<Item>, again: seq<Item>, x: nat, j: nat, seen: nat)
    requires j < |prev| && Carries(rebuilt, prev, j) && seen <= |rebuilt| && x < |again| && again[x] == prev[j]
    requires var slot := Slot(rebuilt, prev, Carried(j)); seen == if slot == |rebuilt| then |rebuilt| else slot + 1
    requires AnchorAfter(rebuilt, again, x) == LastAnchor(rebuilt, seen)
    ensures AnchorAfter(rebuilt, again, x + 1) == LastAnchor(rebuilt, seen)
  {
    hide AnchorAfter, Located, LastAnchor, IsCommandOutput, IsReasoning, Carries, Slot;
    PastCarried(rebuilt, prev, j, seen);
    AnchorStep(rebuilt, again, x);
  }

  /** Where the walk over the new log stands: at the last anchor passed. */
  lemma {:induction false} SecondAnchor(rebuilt: seq<Item>, prev: seq<Item>, x: nat)
    requires FromRecords(rebuilt) && x <= |CarriedOver(rebuilt, prev)|
    ensures Seen(Layout(rebuilt, prev), x) <= |rebuilt|
    ensures AnchorAfter(rebuilt, CarriedOver(rebuilt, prev), x) == LastAnchor(rebuilt, Seen(Layout(rebuilt, prev), x))
  {
    hide Layout, LastAnchor, FromRecords, Slot, Carries, AnchorAfter;
    var ps, again := Layout(rebuilt, prev), CarriedOver(rebuilt, prev);
    SeenIsSlot(rebuilt, prev, x);
    if x == 0 {
      NoAnchorYet(rebuilt, again);
    } else {
      SecondAnchor(rebuilt, prev, x - 1);
      SeenIsSlot(rebuilt, prev, x - 1);
      if ps[x - 1].Rebuilt? {
        StepOverRebuilt(rebuilt, again, x - 1, ps[x - 1].i);
      } else {
        StepOverCarried(rebuilt, prev, again, x - 1, ps[x - 1].j, Seen(ps, x - 1));
      }
    }
  }

  lemma NoAnchorYet(rebuilt: seq<Item>, prev: seq<Item>)
    ensures AnchorAfter(rebuilt, prev, 0) == LastAnchor(rebuilt, 0)
  {
  }

  lemma PastRebuilt(rebuilt: seq<Item>, i: nat)
    requires FromRecords(rebuilt) && i < |rebuilt|
    ensures !IsCommandOutput(rebuilt[i])
    ensures Located(rebuilt, rebuilt[i], LastAnchor(rebuilt, i) + 1) == if Anchorable(rebuilt[i]) then Some(i) else None
    ensures LastAnchor(rebuilt, i + 1) == if Anchorable(rebuilt[i]) then i else LastAnchor(rebuilt, i)
  {
    LocatesItself(rebuilt, i);
  }

  lemma PastCarried(rebuilt: seq<Item>, prev: seq<Item>, j: nat, seen: nat)
    requires j < |prev| && Carries(rebuilt, prev, j) && seen <= |rebuilt|
    requires var slot := Slot(rebuilt, prev, Carried(j)); seen == if slot == |rebuilt| then |rebuilt| else slot + 1
    ensures IsReasoning(prev[j]) ==> Located(rebuilt, prev[j], LastAnchor(rebuilt, seen) + 1).None?
    ensures prev[j].body.QueuedMessage? || IsCommandOutput(prev[j]) || IsReasoning(prev[j])
    ensures AnchorAfter(rebuilt, prev, j) >= 0 ==> LastAnchor(rebuilt, seen) == AnchorAfter(rebuilt, prev, j)
  {
    hide Located, LastAnchor, AnchorAfter, HasSentTurn, Anchorable;
    AnchorsAreAnchorable(rebuilt, prev, j);
    var anchor := AnchorAfter(rebuilt, prev, j);
    assert anchor >= 0 ==> LastAnchor(rebuilt, seen) == anchor;
    if IsReasoning(prev[j]) {
      LocatedLater(rebuilt, prev[j], AnchorAfter(rebuilt, prev, j) + 1, LastAnchor(rebuilt, seen) + 1);
    }
  }

  /** The second rebuild carries what the first one carried. */
  lemma SecondCarries(rebuilt: seq<Item>, prev: seq<Item>, x: nat)
    requires FromRecords(rebuilt) && x < |CarriedOver(rebuilt, prev)|
    ensures Carries(rebuilt, CarriedOver(rebuilt, prev), x) <==> Layout(rebuilt, prev)[x].Carried?
  {
    hide Layout, Located, LastAnchor, FromRecords, Slot;
    var ps := Layout(rebuilt, prev);
    SecondAnchor(rebuilt, prev, x);
    SeenIsSlot(rebuilt, prev, x);
    match ps[x]
    case Rebuilt(i) =>
      PastRebuilt(rebuilt, i);
      NamesItsTurn(rebuilt, i);
    case Carried(j) => PastCarried(rebuilt, prev, j, Seen(ps, x));
  }

  lemma NamesItsTurn(rebuilt: seq<Item>, i: nat)
    requires FromRecords(rebuilt) && i < |rebuilt|
    ensures rebuilt[i].body.QueuedMessage? ==> Matched(rebuilt, rebuilt[i])
  {
  }

  /** Where the second rebuild puts part `x` of the first one's log: an item with
      an anchor back there, one without after the last item that can anchor. */
  lemma SecondSlot(rebuilt: seq<Item>, prev: seq<Item>, x: nat)
    requires FromRecords(rebuilt) && x < |CarriedOver(rebuilt, prev)| && Layout(rebuilt, prev)[x].Carried?
    ensures Belongs(rebuilt, CarriedOver(rebuilt, prev), Carried(x))
    ensures var first := Slot(rebuilt, prev, Layout(rebuilt, prev)[x]);
      Slot(rebuilt, CarriedOver(rebuilt, prev), Carried(x))
      == if first < |rebuilt| || LastAnchor(rebuilt, |rebuilt|) < 0 then first else LastAnchor(rebuilt, |rebuilt|)
  {
    hide Layout, Located, LastAnchor, FromRecords, Carries;
    var ps := Layout(rebuilt, prev);
    SecondCarries(rebuilt, prev, x);
    SecondAnchor(rebuilt, prev, x);
    SeenIsSlot(rebuilt, prev, x);
    PastCarried(rebuilt, prev, ps[x].j, Seen(ps, x));
  }

  /** Sorted listings of the same parts are the same. */
  lemma {:induction false} OneListing(rebuilt: seq<Item>, prev: seq<Item>, ps: seq<Part>, qs: seq<Part>)
    requires Sorted(rebuilt, prev, ps) && Sorted(rebuilt, prev, qs)
    requires forall p :: p in ps <==> p in qs
    ensures ps == qs
  {
    hide Carries, AnchorAfter;
    assert qs != [] ==> qs[0] in ps;
    if ps != [] {
      assert ps[0] in qs;
      assert qs[0] in ps;
      var z :| 0 <= z < |ps| && ps[z] == qs[0];
      var w :| 0 <= w < |qs| && qs[w] == ps[0];
      assert z == 0 || w == 0;
      assert forall p :: p in ps[1..] <==> p in ps && p != ps[0];
      assert forall p :: p in qs[1..] <==> p in qs && p != qs[0];
      OneListing(rebuilt, prev, ps[1..], qs[1..]);
      assert ps == [ps[0]] + ps[1..] && qs == [qs[0]] + qs[1..];
    }
  }

  /** The second layout, told in parts of the first. */
  function Image(ps: seq<Part>, p: Part): Part
    requires p.Carried? ==> p.j < |ps|
  {
    if p.Rebuilt? then p else ps[p.j]
  }

  /** Item `j` is carried over with no anchor. */
  predicate Unanchored(rebuilt: seq<Item>, prev: seq<Item>, j: nat)
    requires j < |prev|
  {
    Carries(rebuilt, prev, j) && AnchorAfter(rebuilt, prev, j) == -1
  }

  /** Every carried item has an anchor, or no rebuilt item can be one, or the
      last rebuilt item can. */
  predicate Steady(rebuilt: seq<Item>, prev: seq<Item>) {
    || (forall j :: 0 <= j < |prev| ==> !Unanchored(rebuilt, prev, j))
    || (forall i :: 0 <= i < |rebuilt| ==> !Anchorable(rebuilt[i]))
    || (rebuilt != [] && Anchorable(rebuilt[|rebuilt| - 1]))
  }

  lemma ImageBefore(rebuilt: seq<Item>, prev: seq<Item>, p: Part, q: Part)
    requires FromRecords(rebuilt) && Steady(rebuilt, prev)
    requires var again := CarriedOver(rebuilt, prev);
      Belongs(rebuilt, again, p) && Belongs(rebuilt, again, q) && Before(rebuilt, again, p, q)
    ensures var ps := Layout(rebuilt, prev);
      var p1, q1 := Image(ps, p), Image(ps, q);
      Belongs(rebuilt, prev, p1) && Belongs(rebuilt, prev, q1) && Before(rebuilt, prev, p1, q1)
  {
    hide Layout, FromRecords, Carries, LastAnchor, AnchorAfter;
    var ps := Layout(rebuilt, prev);
    SteadySlot(rebuilt, prev);
    if p.Carried? {
      SecondCarries(rebuilt, prev, p.j);
      SecondSlot(rebuilt, prev, p.j);
    }
    if q.Carried? {
      SecondCarries(rebuilt, prev, q.j);
      SecondSlot(rebuilt, prev, q.j);
    }
    if p.Carried? && q.Carried? {
      StandsBefore(rebuilt, prev, p.j, q.j);
      StandsBefore(rebuilt, prev, q.j, p.j);
    }
  }

  lemma SteadySlot(rebuilt: seq<Item>, prev: seq<Item>)
    requires Steady(rebuilt, prev)
    ensures var last := LastAnchor(rebuilt, |rebuilt|);
      || last < 0 || last == |rebuilt| - 1
      || forall p :: Belongs(rebuilt, prev, p) ==> Slot(rebuilt, prev, p) < |rebuilt|
  {
    hide Carries, AnchorAfter;
    assert forall p :: Belongs(rebuilt, prev, p) && p.Carried? ==> (Unanchored(rebuilt, prev, p.j) <==> Slot(rebuilt, prev, p) == |rebuilt|);
  }

  lemma SteadyAgain(rebuilt: seq<Item>, prev: seq<Item>)
    requires FromRecords(rebuilt) && Steady(rebuilt, prev)
    ensures CarriedOver(rebuilt, CarriedOver(rebuilt, prev)) == CarriedOver(rebuilt, prev)
  {
    hide Layout, FromRecords, Carries, Steady, Before, Slot;
    var ps, again := Layout(rebuilt, prev), CarriedOver(rebuilt, prev);
    var qs := Layout(rebuilt, again);
    LayoutSorted(rebuilt, prev);
    LayoutSorted(rebuilt, again);
    var image := seq(|qs|, x requires 0 <= x < |qs| => Image(ps, qs[x]));
    forall x, y | 0 <= x < y < |image| ensures Before(rebuilt, prev, image[x], image[y]) {
      ImageBefore(rebuilt, prev, qs[x], qs[y]);
    }
    ImageMembers(rebuilt, prev, image);
    OneListing(rebuilt, prev, image, ps);
    forall x | 0 <= x < |qs| ensures Draw(rebuilt, again, qs[x]) == Draw(rebuilt, prev, ps[x]) {
      assert image[x] == ps[x];
    }
  }

  lemma ImageMembers(rebuilt: seq<Item>, prev: seq<Item>, image: seq<Part>)
    requires FromRecords(rebuilt)
    requires var ps, qs := Layout(rebuilt, prev), Layout(rebuilt, CarriedOver(rebuilt, prev));
      |image| == |qs| && forall x :: 0 <= x < |qs| ==> image[x] == Image(ps, qs[x])
    ensures forall x :: 0 <= x < |image| ==> Belongs(rebuilt, prev, image[x])
    ensures forall p :: p in image <==> p in Layout(rebuilt, prev)
  {
    hide Layout, FromRecords, Carries, AnchorAfter, Before, Sorted;
    var ps, again := Layout(rebuilt, prev), CarriedOver(rebuilt, prev);
    var qs := Layout(rebuilt, again);
    LayoutSorted(rebuilt, prev);
    LayoutSorted(rebuilt, again);
    forall x | 0 <= x < |image| ensures Belongs(rebuilt, prev, image[x]) {
      assert qs[x] in qs;
    }
    forall p | p in ps ensures p in image {
      var q: Part;
      if p.Rebuilt? {
        q := p;
      } else {
        var x :| 0 <= x < |ps| && ps[x] == p;
        SecondCarries(rebuilt, prev, x);
        q := Carried(x);
      }
      assert Belongs(rebuilt, again, q);
      var z :| 0 <= z < |qs| && qs[z] == q;
      assert image[z] == p;
    }
  }

  /** An item with no anchor ends the log; the next rebuild puts it after the
      last item that can anchor and ends with the last rebuilt item. */
  lemma UnsteadyAgain(rebuilt: seq<Item>, prev: seq<Item>)
    requires FromRecords(rebuilt) && !Steady(rebuilt, prev)
    ensures CarriedOver(rebuilt, CarriedOver(rebuilt, prev)) != CarriedOver(rebuilt, prev)
  {
    hide Layout, FromRecords, Carries;
    var again := CarriedOver(rebuilt, prev);
    var j :| 0 <= j < |prev| && Unanchored(rebuilt, prev, j);
    EndsUnanchored(rebuilt, prev, j);
    EndsRebuilt(rebuilt, prev);
    EndsDiffer(rebuilt, prev, Layout(rebuilt, prev)[|again| - 1].j);
  }

  lemma EndsUnanchored(rebuilt: seq<Item>, prev: seq<Item>, j: nat)
    requires j < |prev| && Unanchored(rebuilt, prev, j)
    ensures var ps := Layout(rebuilt, prev);
      ps != [] && ps[|ps| - 1].Carried? && CarriedOver(rebuilt, prev)[|ps| - 1] == prev[ps[|ps| - 1].j]
  {
    hide Layout, Carries, AnchorAfter;
    var ps := Layout(rebuilt, prev);
    LayoutSorted(rebuilt, prev);
    assert Belongs(rebuilt, prev, Carried(j));
    var z :| 0 <= z < |ps| && ps[z] == Carried(j);
    StandsBefore(rebuilt, prev, z, |ps| - 1);
  }

  lemma EndsRebuilt(rebuilt: seq<Item>, prev: seq<Item>)
    requires FromRecords(rebuilt) && 0 <= LastAnchor(rebuilt, |rebuilt|) < |rebuilt| - 1
    ensures var twice := CarriedOver(rebuilt, CarriedOver(rebuilt, prev));
      twice != [] && twice[|twice| - 1] == rebuilt[|rebuilt| - 1]
  {
    hide Layout, FromRecords, Carries, AnchorAfter, LastAnchor;
    var again, end := CarriedOver(rebuilt, prev), Rebuilt(|rebuilt| - 1);
    var qs := Layout(rebuilt, again);
    LayoutSorted(rebuilt, again);
    assert Belongs(rebuilt, again, end);
    var z :| 0 <= z < |qs| && qs[z] == end;
    var last := qs[|qs| - 1];
    assert last in qs;
    if last.Carried? {
      SecondCarries(rebuilt, prev, last.j);
      SecondSlot(rebuilt, prev, last.j);
      AnchorsBounded(rebuilt, prev, Layout(rebuilt, prev)[last.j]);
    }
    StandsBefore(rebuilt, again, z, |qs| - 1);
  }

  /** Items anchor at places that can anchor. */
  lemma AnchorsBounded(rebuilt: seq<Item>, prev: seq<Item>, p: Part)
    requires p.Carried? && Belongs(rebuilt, prev, p)
    ensures Slot(rebuilt, prev, p) <= LastAnchor(rebuilt, |rebuilt|) || Slot(rebuilt, prev, p) == |rebuilt|
  {
    AnchorsAreAnchorable(rebuilt, prev, p.j);
  }

  lemma EndsDiffer(rebuilt: seq<Item>, prev: seq<Item>, j: nat)
    requires FromRecords(rebuilt) && rebuilt != [] && !Anchorable(rebuilt[|rebuilt| - 1])
    requires j < |prev| && Carries(rebuilt, prev, j)
    ensures prev[j] != rebuilt[|rebuilt| - 1]
  {
    NamesItsTurn(rebuilt, |rebuilt| - 1);
  }

  /** Rebuilding again from the same records leaves the log as it is exactly when
      it is steady. Otherwise items the first rebuild put at the end for want of
      an anchor move up, to right after the last item that can anchor. */
  lemma RebuildTwice(rebuilt: seq<Item>, prev: seq<Item>)
    requires FromRecords(rebuilt)
    ensures CarriedOver(rebuilt, CarriedOver(rebuilt, prev)) == CarriedOver(rebuilt, prev) <==> Steady(rebuilt, prev)
  {
    hide CarriedOver, FromRecords, Steady;
    if Steady(rebuilt, prev) {
      SteadyAgain(rebuilt, prev);
    } else {
      UnsteadyAgain(rebuilt, prev);
    }
  }

  /** An answer, a tool's result and a follow-up, of whatever turn. */
  predicate Sample(a: Item, r: Item, q: Item) {
    a.body.AgentMessage? && r.body.ToolResult? && q.body.QueuedMessage?
  }

  lemma CarriesStep(rebuilt: seq<Item>, prev: seq<Item>, anchor: int, j: nat)
    requires j < |prev|
    ensures CarriedAt(rebuilt, prev, anchor, j + 1)
            == CarriedAt(rebuilt, prev, anchor, j)
               + if Carries(rebuilt, prev, j) && AnchorAfter(rebuilt, prev, j) == anchor then [Carried(j)] else []
    ensures CarriedAt(rebuilt, prev, anchor, 0) == []
  {
    hide Carries, AnchorAfter;
  }

  lemma TwoFronts(rebuilt: seq<Item>, prev: seq<Item>)
    requires |rebuilt| == 2
    ensures Layout(rebuilt, prev)
            == [Rebuilt(0)] + CarriedAt(rebuilt, prev, 0, |prev|) + [Rebuilt(1)] + CarriedAt(rebuilt, prev, 1, |prev|)
               + CarriedAt(rebuilt, prev, -1, |prev|)
  {
    hide Carries, AnchorAfter, CarriedAt;
    assert Front(rebuilt, prev, 1) == [Rebuilt(0)] + CarriedAt(rebuilt, prev, 0, |prev|);
  }

  lemma FirstRebuild(a: Item, r: Item, q: Item)
    requires Sample(a, r, q)
    ensures CarriedOver([a, r], [q]) == [a, r, q]
  {
    forall anchor ensures CarriedAt([a, r], [q], anchor, 1) == if anchor == -1 then [Carried(0)] else [] {
      CarriesStep([a, r], [q], anchor, 0);
    }
    TwoFronts([a, r], [q]);
  }

  lemma SecondRebuild(a: Item, r: Item, q: Item)
    requires Sample(a, r, q)
    ensures CarriedOver([a, r], [a, r, q]) == [a, q, r]
  {
    hide Layout, Front, CarriedAt;
    var prev := [a, r, q];
    assert AnchorAfter([a, r], prev, 1) == 0 by { assert Located([a, r], a, 0) == Some(0); }
    assert AnchorAfter([a, r], prev, 2) == 0;
    forall anchor ensures CarriedAt([a, r], prev, anchor, 3) == if anchor == 0 then [Carried(2)] else [] {
      CarriesStep([a, r], prev, anchor, 0);
      CarriesStep([a, r], prev, anchor, 1);
      CarriesStep([a, r], prev, anchor, 2);
    }
    TwoFronts([a, r], prev);
  }

  /** For instance: a follow-up typed before the agent answered stands below the
      tool's result after one rebuild and above it after the next. */
  lemma FollowUpMovesUp(answer: string, tool: string, typed: string, turn: TurnId)
    ensures var a, r, q := Item(AgentMessage(answer), None), Item(ToolResult(tool), None), Item(QueuedMessage(typed, Some(turn), []), None);
      CarriedOver([a, r], [q]) == [a, r, q] && CarriedOver([a, r], [a, r, q]) == [a, q, r]
  {
    var a, r, q := Item(AgentMessage(answer), None), Item(ToolResult(tool), None), Item(QueuedMessage(typed, Some(turn), []), None);
    FirstRebuild(a, r, q);
    SecondRebuild(a, r, q);
  }
}
