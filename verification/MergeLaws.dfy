/** What a merge conserves and where it places things
    (src/helpers/mergeTurns.ts:66-147). */
module MergeLaws {
  import opened Common
  import opened ChatLog
  import opened MergeTurns

  // -- conservation ---------------------------------------------------------

  /** The merged log with everything the merge put in taken out again. */
  function Erased(items: seq<Item>, turns: seq<UserTurn>, ps: seq<Piece>): seq<Item>
    requires forall x :: 0 <= x < |ps| ==> Belongs(items, turns, ps[x])
  {
    if ps == [] then []
    else
      var last := ps[|ps| - 1];
      Erased(items, turns, ps[..|ps| - 1]) + if last.Kept? then [Draw(items, turns, last)] else []
  }

  /** How many of the first `upto` turns get a bubble of their own. */
  function Drawings(items: seq<Item>, turns: seq<UserTurn>, upto: nat): nat
    requires upto <= |turns|
  {
    if upto == 0 then 0
    else
      var p := PlaceOf(items, turns, upto - 1);
      Drawings(items, turns, upto - 1) + if p.Inserted? || p.AtEnd? then 1 else 0
  }

  lemma {:induction false} ErasedConcat(items: seq<Item>, turns: seq<UserTurn>, ps: seq<Piece>, qs: seq<Piece>)
    requires forall x :: 0 <= x < |ps| ==> Belongs(items, turns, ps[x])
    requires forall x :: 0 <= x < |qs| ==> Belongs(items, turns, qs[x])
    ensures Erased(items, turns, ps + qs) == Erased(items, turns, ps) + Erased(items, turns, qs)
  {
    hide Draw, Belongs;
    if qs == [] {
      assert ps + qs == ps;
    } else {
      assert (ps + qs)[..|ps + qs| - 1] == ps + qs[..|qs| - 1];
      ErasedConcat(items, turns, ps, qs[..|qs| - 1]);
    }
  }

  lemma {:induction false} NothingKept(items: seq<Item>, turns: seq<UserTurn>, ps: seq<Piece>)
    requires forall x :: 0 <= x < |ps| ==> Belongs(items, turns, ps[x]) && !ps[x].Kept?
    ensures Erased(items, turns, ps) == []
  {
    hide Draw, Belongs;
    if ps != [] { NothingKept(items, turns, ps[..|ps| - 1]); }
  }

  lemma JustKept(items: seq<Item>, turns: seq<UserTurn>, i: nat)
    requires i < |items|
    ensures Belongs(items, turns, Kept(i)) && Erased(items, turns, [Kept(i)]) == [Shown(items, turns, i)]
  {
    hide PlaceOf, Shown;
    assert [Kept(i)][..0] == [];
  }

  lemma {:induction false} ErasedFront(items: seq<Item>, turns: seq<UserTurn>, upto: nat)
    requires upto <= |items|
    ensures |Erased(items, turns, Front(items, turns, upto))| == upto
    ensures forall i :: 0 <= i < upto ==> Erased(items, turns, Front(items, turns, upto))[i] == Shown(items, turns, i)
  {
    hide PlaceOf, Shown, BubblesAt, Belongs, Before, Sorted;
    if upto > 0 {
      var front, bubbles := Front(items, turns, upto - 1), BubblesAt(items, turns, upto - 1, |turns|);
      ErasedFront(items, turns, upto - 1);
      BubblesSorted(items, turns, upto - 1, |turns|);
      assert forall x :: 0 <= x < |bubbles| ==> bubbles[x] in bubbles;
      NothingKept(items, turns, bubbles);
      JustKept(items, turns, upto - 1);
      ErasedConcat(items, turns, front, bubbles);
      ErasedConcat(items, turns, front + bubbles, [Kept(upto - 1)]);
    }
  }

  /** All bubbles of the first `upto` turns at slots below `slots`. */
  function BubblesBelow(items: seq<Item>, turns: seq<UserTurn>, slots: nat, upto: nat): nat
    requires upto <= |turns|
  {
    if slots == 0 then 0 else BubblesBelow(items, turns, slots - 1, upto) + |BubblesAt(items, turns, slots - 1, upto)|
  }

  lemma {:induction false} BubblesBelowStep(items: seq<Item>, turns: seq<UserTurn>, slots: nat, k: nat)
    requires k < |turns|
    ensures BubblesBelow(items, turns, slots, k + 1) == BubblesBelow(items, turns, slots, k)
            + var p := PlaceOf(items, turns, k); if p.Inserted? && p.slot < slots then 1 else 0
  {
    hide PlaceOf, Belongs;
    if slots > 0 { BubblesBelowStep(items, turns, slots - 1, k); }
  }

  lemma {:induction false} AllDrawings(items: seq<Item>, turns: seq<UserTurn>, upto: nat)
    requires upto <= |turns|
    ensures BubblesBelow(items, turns, |items| + 1, upto) + |Tails(items, turns, upto)| == Drawings(items, turns, upto)
  {
    hide PlaceOf, BubblesAt, BubblesBelow;
    if upto == 0 {
      NoBubblesYet(items, turns, |items| + 1);
    } else {
      AllDrawings(items, turns, upto - 1);
      BubblesBelowStep(items, turns, |items| + 1, upto - 1);
    }
  }

  lemma {:induction false} NoBubblesYet(items: seq<Item>, turns: seq<UserTurn>, slots: nat)
    ensures BubblesBelow(items, turns, slots, 0) == 0
  {
    if slots > 0 { NoBubblesYet(items, turns, slots - 1); }
  }

  lemma {:induction false} FrontLength(items: seq<Item>, turns: seq<UserTurn>, upto: nat)
    requires upto <= |items|
    ensures |Front(items, turns, upto)| == upto + BubblesBelow(items, turns, upto, |turns|)
  {
    hide PlaceOf, BubblesAt, Belongs;
    if upto > 0 { FrontLength(items, turns, upto - 1); }
  }

  /** Taking out what was put in gives the items back in order, each itself or
      under the metadata of its claimant; the log grew by one bubble for each
      turn inserted or put at the end, and by nothing else. */
  lemma Conserved(items: seq<Item>, turns: seq<UserTurn>)
    ensures Erased(items, turns, Layout(items, turns)) == seq(|items|, i requires 0 <= i < |items| => Shown(items, turns, i))
    ensures |Merged(items, turns)| == |items| + Drawings(items, turns, |turns|)
  {
    hide PlaceOf, Shown, Draw, Drawn, Front, BubblesAt, Tails, Belongs, Before, Sorted, Erased, BubblesBelow, Drawings;
    var front, last, tail := Front(items, turns, |items|), BubblesAt(items, turns, |items|, |turns|), Tails(items, turns, |turns|);
    ErasedFront(items, turns, |items|);
    BubblesSorted(items, turns, |items|, |turns|);
    TailsSorted(items, turns, |turns|);
    assert forall x :: 0 <= x < |last| ==> last[x] in last;
    assert forall x :: 0 <= x < |tail| ==> tail[x] in tail;
    NothingKept(items, turns, last);
    NothingKept(items, turns, tail);
    ErasedConcat(items, turns, front, last);
    ErasedConcat(items, turns, front + last, tail);
    FrontLength(items, turns, |items|);
    AllDrawings(items, turns, |turns|);
    LastBubbles(items, turns);
  }

  lemma LastBubbles(items: seq<Item>, turns: seq<UserTurn>)
    ensures BubblesBelow(items, turns, |items| + 1, |turns|)
            == BubblesBelow(items, turns, |items|, |turns|) + |BubblesAt(items, turns, |items|, |turns|)|
  {
  }

  /** A prompt is claimed by one turn, the first one paired with it, and shows
      that turn's id; a prompt no turn claims is left as it was. */
  lemma OneClaimEach(items: seq<Item>, turns: seq<UserTurn>, at: nat)
    requires at < |items|
    ensures forall k :: 0 <= k < |turns| ==> (PlaceOf(items, turns, k) == Overlaid(at) <==> Claimant(items, turns, at) == Some(k))
    ensures (forall k :: 0 <= k < |turns| ==> PlaceOf(items, turns, k) != Overlaid(at)) <==> Claimant(items, turns, at).None?
  {
    forall k | 0 <= k < |turns|
      ensures PlaceOf(items, turns, k) == Overlaid(at) <==> Claimant(items, turns, at) == Some(k)
    {
      var first := Claimant(items, turns[..k], at);
      assert forall j :: 0 <= j < k ==> turns[..k][j] == turns[j];
      if first.Some? { assert Target(items, turns[first.value]) == Some(at); }
      if PlaceOf(items, turns, k) == Overlaid(at) { assert Target(items, turns[k]) == Some(at); }
    }
  }

  // -- order ----------------------------------------------------------------

  /** Where two pieces stand follows their order. */
  lemma StandsBefore(items: seq<Item>, turns: seq<UserTurn>, x: nat, y: nat)
    requires x < |Layout(items, turns)| && y < |Layout(items, turns)|
    ensures var ps := Layout(items, turns); x < y <==> Before(items, turns, ps[x], ps[y])
  {
    hide PlaceOf, Layout;
    LayoutSorted(items, turns);
    var ps := Layout(items, turns);
    assert y < x ==> Before(items, turns, ps[y], ps[x]);
  }

  /** A session's records come in ascending order. */
  predicate Ascending(items: seq<Item>, session: Option<string>) {
    forall i, j :: 0 <= i < j < |items| && InSession(items[i], session) && InSession(items[j], session)
      ==> items[i].stamp.value.number <= items[j].stamp.value.number
  }

  /** A bubble drawn from its row stands after exactly the records of its session
      below its position. */
  lemma AmongItsSession(items: seq<Item>, turns: seq<UserTurn>, x: nat, y: nat)
    requires x < |Layout(items, turns)| && y < |Layout(items, turns)|
    requires var ps := Layout(items, turns); ps[x].Bubble? && ps[y].Kept?
    requires var ps := Layout(items, turns); InSession(items[ps[y].i], turns[ps[x].k].session)
    requires var ps := Layout(items, turns); Ascending(items, turns[ps[x].k].session)
    ensures var ps := Layout(items, turns);
      turns[ps[x].k].position.Some?
      && (y < x <==> items[ps[y].i].stamp.value.number < turns[ps[x].k].position.value)
  {
    hide Layout, SlotOf, Claimant, Target, Noticed, UnplacedBubble;
    StandsBefore(items, turns, y, x);
    var ps := Layout(items, turns);
    var t, i := turns[ps[x].k], ps[y].i;
    var slot := SlotOf(items, t.session, t.position.value);
    SlotHit(items, t.session, t.position.value, i);
  }

  lemma SlotHit(items: seq<Item>, session: Option<string>, position: int, i: nat)
    requires i < |items| && InSession(items[i], session)
    ensures i < SlotOf(items, session, position) ==> items[i].stamp.value.number < position
    ensures Ascending(items, session) ==> (i < SlotOf(items, session, position) <==> items[i].stamp.value.number < position)
  {
  }

  /** The bubble stands as far down as that allows: right before the first record
      of its session at or past its position or, when there is none, right after
      the session's last record, with only other bubbles between. */
  lemma TightlyPlaced(items: seq<Item>, turns: seq<UserTurn>, x: nat, y: nat)
    requires x < |Layout(items, turns)| && y < |Layout(items, turns)|
    requires var ps := Layout(items, turns); ps[x].Bubble? && ps[y].Kept?
    ensures var ps := Layout(items, turns); turns[ps[x].k].position.Some?
    ensures var ps := Layout(items, turns); var t := turns[ps[x].k];
      y > x && (forall z :: x < z < y ==> !ps[z].Kept?)
      && (exists i :: 0 <= i < |items| && InSession(items[i], t.session) && items[i].stamp.value.number >= t.position.value)
      ==> InSession(items[ps[y].i], t.session) && items[ps[y].i].stamp.value.number >= t.position.value
    ensures var ps := Layout(items, turns); var t := turns[ps[x].k];
      y < x && (forall z :: y < z < x ==> !ps[z].Kept?)
      && (exists i :: 0 <= i < |items| && InSession(items[i], t.session))
      && (forall i :: 0 <= i < |items| && InSession(items[i], t.session) ==> items[i].stamp.value.number < t.position.value)
      ==> InSession(items[ps[y].i], t.session)
  {
    hide Layout, SlotOf, Claimant, Target, Noticed, UnplacedBubble, Before, Sorted;
    var ps := Layout(items, turns);
    LayoutSorted(items, turns);
    var t := turns[ps[x].k];
    var slot := SlotOf(items, t.session, t.position.value);
    assert PlaceOf(items, turns, ps[x].k) == Inserted(slot);
    NextKept(items, turns, x, y, slot);
    SlotCases(items, t.session, t.position.value);
  }

  lemma SlotCases(items: seq<Item>, session: Option<string>, position: int)
    ensures var slot := SlotOf(items, session, position);
      (exists i :: 0 <= i < |items| && InSession(items[i], session) && items[i].stamp.value.number >= position)
      ==> slot < |items| && InSession(items[slot], session) && items[slot].stamp.value.number >= position
    ensures var slot := SlotOf(items, session, position);
      (exists i :: 0 <= i < |items| && InSession(items[i], session))
      && (forall i :: 0 <= i < |items| && InSession(items[i], session) ==> items[i].stamp.value.number < position)
      ==> slot > 0 && InSession(items[slot - 1], session)
  {
  }

  /** The items around a bubble are the ones on either side of its slot. */
  lemma NextKept(items: seq<Item>, turns: seq<UserTurn>, x: nat, y: nat, slot: nat)
    requires x < |Layout(items, turns)| && y < |Layout(items, turns)|
    requires var ps := Layout(items, turns);
      ps[x].Bubble? && ps[x].k < |turns| && PlaceOf(items, turns, ps[x].k) == Inserted(slot) && ps[y].Kept?
    ensures var ps := Layout(items, turns);
      y > x && (forall z :: x < z < y ==> !ps[z].Kept?) && slot < |items| ==> ps[y].i == slot
    ensures var ps := Layout(items, turns);
      y < x && (forall z :: y < z < x ==> !ps[z].Kept?) && slot > 0 ==> ps[y].i == slot - 1
  {
    hide PlaceOf, Layout;
    var ps := Layout(items, turns);
    LayoutSorted(items, turns);
    StandsBefore(items, turns, x, y);
    StandsBefore(items, turns, y, x);
    if y > x && slot < |items| && ps[y].i != slot {
      assert Belongs(items, turns, Kept(slot));
      var z :| 0 <= z < |ps| && ps[z] == Kept(slot);
      StandsBefore(items, turns, x, z);
      StandsBefore(items, turns, z, y);
    }
    if y < x && slot > 0 && ps[y].i != slot - 1 {
      assert PlaceOf(items, turns, ps[x].k).slot <= |items|;
      assert Belongs(items, turns, Kept(slot - 1));
      var z :| 0 <= z < |ps| && ps[z] == Kept(slot - 1);
      StandsBefore(items, turns, z, x);
      StandsBefore(items, turns, y, z);
    }
  }

  /** Bubbles of one session keep the order of their positions, and of the turns
      where positions tie. */
  lemma BubblesInOrder(items: seq<Item>, turns: seq<UserTurn>, x: nat, y: nat)
    requires x < |Layout(items, turns)| && y < |Layout(items, turns)|
    requires var ps := Layout(items, turns); ps[x].Bubble? && ps[y].Bubble? && ps[x].k < ps[y].k
    requires var ps := Layout(items, turns);
      var t, u := turns[ps[x].k], turns[ps[y].k];
      t.session == u.session && t.position.Some? && u.position.Some? && t.position.value <= u.position.value
    ensures x < y
  {
    hide Layout, SlotOf, Claimant, Target, Noticed, UnplacedBubble;
    StandsBefore(items, turns, x, y);
    var ps := Layout(items, turns);
    var t, u := turns[ps[x].k], turns[ps[y].k];
    SlotsMonotone(items, t.session, t.position.value, u.position.value);
  }

  lemma SlotsMonotone(items: seq<Item>, session: Option<string>, low: int, high: int)
    requires low <= high
    ensures SlotOf(items, session, low) <= SlotOf(items, session, high)
  {
  }
}
