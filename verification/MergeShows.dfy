/** Which turns a merged log shows, and what their bubbles say, told from the
    turns' own fields. */
module MergeShows {
  import opened Common
  import opened ChatLog
  import opened MergeTurns

  // -- where a turn goes ----------------------------------------------------

  /** The turn was echoed, and its prompt's record has a place in its session. */
  predicate Echoed(t: UserTurn) {
    t.nativeId.Some? && t.nativeId.value != "" && t.position.Some?
  }

  /** The item was reduced from the record where the turn stands. */
  predicate FromRecordOf(t: UserTurn, it: Item) {
    && t.position.Some? && it.stamp.Some? && it.stamp.value.number == t.position.value
    && it.stamp.value.session.GetOr("") == t.session.GetOr("")
  }

  /** Item `i` is the first bubble reduced from the record of the turn's prompt. */
  predicate IsPromptOf(items: seq<Item>, t: UserTurn, i: int) {
    && Echoed(t) && 0 <= i < |items| && items[i].body.UserMessage? && FromRecordOf(t, items[i])
    && forall j :: 0 <= j < i && items[j].body.UserMessage? ==> !FromRecordOf(t, items[j])
  }

  /** Turn `k` is the first one with that prompt. */
  predicate Claims(items: seq<Item>, turns: seq<UserTurn>, k: int, i: int) {
    0 <= k < |turns| && IsPromptOf(items, turns[k], i) && forall j :: 0 <= j < k ==> !IsPromptOf(items, turns[j], i)
  }

  predicate DrawnAsNotice(items: seq<Item>, t: UserTurn) {
    Echoed(t) && exists i :: 0 <= i < |items| && items[i].body.Notice? && FromRecordOf(t, items[i])
  }

  lemma {:induction false} PromptFirst(items: seq<Item>, key: (string, int))
    ensures var at := PromptAt(items, key);
      at.Some? ==> forall j :: 0 <= j < at.value ==> !(items[j].body.UserMessage? && Keyed(items[j], key))
  {
    if items != [] {
      PromptFirst(items[..|items| - 1], key);
    }
  }

  lemma TargetIsPrompt(items: seq<Item>, t: UserTurn, i: nat)
    ensures Target(items, t) == Some(i) <==> IsPromptOf(items, t, i)
  {
    hide PromptAt;
    if Echoed(t) {
      var key := RecordKey(t.session, t.position.value);
      PromptFirst(items, key);
      assert forall j :: 0 <= j < |items| ==> (Keyed(items[j], key) <==> FromRecordOf(t, items[j]));
    }
  }

  lemma ClaimantClaims(items: seq<Item>, turns: seq<UserTurn>, k: nat, i: nat)
    requires k < |turns|
    ensures Claimant(items, turns, i) == Some(k) <==> Claims(items, turns, k, i)
    ensures PlaceOf(items, turns, k) == Overlaid(i) <==> Claims(items, turns, k, i)
  {
    hide Target, Claimant, IsPromptOf, Noticed, UnplacedBubble, SlotOf;
    forall j | 0 <= j < |turns| ensures Target(items, turns[j]) == Some(i) <==> IsPromptOf(items, turns[j], i) {
      TargetIsPrompt(items, turns[j], i);
    }
    EchoedTargets(items, turns[k], i);
    assert forall j :: 0 <= j < k ==> turns[..k][j] == turns[j];
  }

  lemma EchoedTargets(items: seq<Item>, t: UserTurn, i: nat)
    ensures IsPromptOf(items, t, i) ==> t.position.Some?
  {
  }

  /** What becomes of a turn: laid over its prompt's bubble when it is the first
      turn with that prompt; else nothing when its prompt's record is drawn as a
      notice; else a bubble of its own. Without a position, a bubble of its own
      exactly while it has not ended and no item draws it. */
  lemma PlacedWhen(items: seq<Item>, turns: seq<UserTurn>, k: nat)
    requires k < |turns|
    ensures var t, p, claims := turns[k], PlaceOf(items, turns, k), exists i :: Claims(items, turns, k, i);
      && (p.Overlaid? <==> claims)
      && (p.Inserted? <==> t.position.Some? && !claims && !DrawnAsNotice(items, t))
      && (p.AtEnd? <==> t.position.None? && t.timing.endedAt.None? && !HasSentTurn(items, t.id))
      && (p.Nowhere? <==> !HasPlace(items, turns, k))
  {
    hide Target, Claimant, IsPromptOf, PromptAt, SlotOf;
    var t, p := turns[k], PlaceOf(items, turns, k);
    NoticedNotice(items, t);
    if exists i :: Claims(items, turns, k, i) {
      var i :| Claims(items, turns, k, i);
      PromptInside(items, t, i);
      ClaimantClaims(items, turns, k, i);
    }
    if p.Overlaid? { ClaimantClaims(items, turns, k, p.at); }
  }

  lemma PromptInside(items: seq<Item>, t: UserTurn, i: int)
    requires IsPromptOf(items, t, i)
    ensures 0 <= i < |items|
  {
  }

  lemma NoticedNotice(items: seq<Item>, t: UserTurn)
    ensures DrawnAsNotice(items, t) <==> t.position.Some? && Truthy(t.nativeId) && Noticed(items, RecordKey(t.session, t.position.value))
  {
    if Echoed(t) {
      var key := RecordKey(t.session, t.position.value);
      assert forall j :: 0 <= j < |items| ==> (Keyed(items[j], key) <==> FromRecordOf(t, items[j]));
    }
  }

  // -- which turns are shown ------------------------------------------------

  /** The turn is the first with its prompt; or it has a position, and its prompt's
      record is not drawn as a notice; or it has none, has not ended and no item
      draws it. */
  ghost predicate HasPlace(items: seq<Item>, turns: seq<UserTurn>, k: nat)
    requires k < |turns|
  {
    var t := turns[k];
    || (exists i :: Claims(items, turns, k, i))
    || (t.position.Some? && !DrawnAsNotice(items, t))
    || (t.position.None? && t.timing.endedAt.None? && !HasSentTurn(items, t.id))
  }

  /** An item draws the turn, and no turn row is laid over it. */
  ghost predicate DrawnAlready(items: seq<Item>, turns: seq<UserTurn>, turn: TurnId) {
    exists i :: 0 <= i < |items| && TurnOf(items[i]) == Some(turn) && forall k :: !Claims(items, turns, k, i)
  }

  lemma TurnOfPiece(items: seq<Item>, turns: seq<UserTurn>, p: Piece)
    requires Belongs(items, turns, p)
    ensures TurnOf(Draw(items, turns, p))
            == if p.Bubble? || p.Tail? then Some(turns[p.k].id)
               else if Claimant(items, turns, p.i).Some? then Some(turns[Claimant(items, turns, p.i).value].id)
               else TurnOf(items[p.i])
  {
    hide Claimant, Target, Noticed, SlotOf, HasSentTurn;
  }

  lemma Unclaimed(items: seq<Item>, turns: seq<UserTurn>, i: nat)
    ensures Claimant(items, turns, i).None? <==> forall k :: !Claims(items, turns, k, i)
  {
    hide Claimant, Claims, Target;
    forall k: nat | k < |turns| ensures Claimant(items, turns, i) == Some(k) <==> Claims(items, turns, k, i) {
      ClaimantClaims(items, turns, k, i);
    }
    forall k | Claims(items, turns, k, i) ensures 0 <= k < |turns| {
      ClaimsInside(items, turns, k, i);
    }
  }

  lemma ClaimsInside(items: seq<Item>, turns: seq<UserTurn>, k: int, i: int)
    requires Claims(items, turns, k, i)
    ensures 0 <= k < |turns|
  {
  }

  predicate DistinctTurns(turns: seq<UserTurn>) {
    forall j, k :: 0 <= j < k < |turns| ==> turns[j].id != turns[k].id
  }

  /** The merged log shows a turn exactly when it has a place, or an item draws it
      that no other turn's row is laid over. */
  lemma ShownExactly(items: seq<Item>, turns: seq<UserTurn>, k: nat)
    requires DistinctTurns(turns) && k < |turns|
    ensures var t := turns[k];
      HasSentTurn(Merged(items, turns), t.id) <==> HasPlace(items, turns, k) || DrawnAlready(items, turns, t.id)
  {
    hide Claimant, PlaceOf, Draw, Layout, Before, Claims, DrawnAsNotice, HasSentTurn, DistinctTurns;
    PlacedWhen(items, turns, k);
    var t, place := turns[k], PlaceOf(items, turns, k);
    if place.Overlaid? {
      ClaimantClaims(items, turns, k, place.at);
      ShowsPiece(items, turns, Kept(place.at), t.id);
    } else if place.Inserted? {
      ShowsPiece(items, turns, Bubble(k), t.id);
    } else if place.AtEnd? {
      ShowsPiece(items, turns, Tail(k), t.id);
    }
    if DrawnAlready(items, turns, t.id) {
      var i :| 0 <= i < |items| && TurnOf(items[i]) == Some(t.id) && forall k :: !Claims(items, turns, k, i);
      Unclaimed(items, turns, i);
      ShowsPiece(items, turns, Kept(i), t.id);
    }
    if HasSentTurn(Merged(items, turns), t.id) { ShownHow(items, turns, k); }
  }

  /** A piece of the layout is on show. */
  lemma ShowsPiece(items: seq<Item>, turns: seq<UserTurn>, p: Piece, turn: TurnId)
    requires Belongs(items, turns, p)
    requires p.Bubble? ==> turns[p.k].id == turn
    requires p.Tail? ==> turns[p.k].id == turn
    requires p.Kept? ==> var k := Claimant(items, turns, p.i);
      (if k.Some? then Some(turns[k.value].id) else TurnOf(items[p.i])) == Some(turn)
    ensures HasSentTurn(Merged(items, turns), turn)
  {
    hide Claimant, PlaceOf, Draw, Layout, Before;
    LayoutSorted(items, turns);
    TurnOfPiece(items, turns, p);
    var x :| 0 <= x < |Layout(items, turns)| && Layout(items, turns)[x] == p;
    assert TurnOf(Merged(items, turns)[x]) == Some(turn);
  }

  lemma SameTurn(turns: seq<UserTurn>, j: nat, k: nat)
    requires DistinctTurns(turns) && j < |turns| && k < |turns| && turns[j].id == turns[k].id
    ensures j == k
  {
  }

  lemma ShownHow(items: seq<Item>, turns: seq<UserTurn>, k: nat)
    requires DistinctTurns(turns) && k < |turns| && HasSentTurn(Merged(items, turns), turns[k].id)
    ensures !PlaceOf(items, turns, k).Nowhere? || DrawnAlready(items, turns, turns[k].id)
  {
    hide Claimant, PlaceOf, Draw, Layout, Before, Claims, DistinctTurns;
    LayoutSorted(items, turns);
    var merged, ps := Merged(items, turns), Layout(items, turns);
    var x :| 0 <= x < |merged| && TurnOf(merged[x]) == Some(turns[k].id);
    assert ps[x] in ps;
    TurnOfPiece(items, turns, ps[x]);
    match ps[x]
    case Kept(i) =>
      var j := Claimant(items, turns, i);
      if j.Some? {
        SameTurn(turns, j.value, k);
        ClaimantClaims(items, turns, k, i);
      } else {
        Unclaimed(items, turns, i);
      }
    case Bubble(j) => SameTurn(turns, j, k);
    case Tail(j) => SameTurn(turns, j, k);
  }

  // -- what a bubble says ---------------------------------------------------

  /** A bubble drawn from a turn's row carries the turn's text, attachments and
      times, a run of no length left out. It waits at the end exactly when the
      turn has no position, start or outcome; and it says undelivered exactly when
      the turn was never echoed and was interrupted or failed. */
  lemma BubbleSays(items: seq<Item>, turns: seq<UserTurn>, x: nat, k: nat)
    requires x < |Layout(items, turns)| && (Layout(items, turns)[x] == Bubble(k) || Layout(items, turns)[x] == Tail(k))
    ensures k < |turns|
    ensures var t, it := turns[k], Merged(items, turns)[x];
      && it.stamp.None? && TurnOf(it) == Some(t.id)
      && it.body == (
           if t.position.None? && t.timing.startedAt.None? && t.outcome.None?
           then QueuedMessage(t.text, Some(t.id), t.attachments)
           else UserMessage(t.text, Some(t.id), t.attachments,
                            t.timing.(runMs := if t.timing.runMs == Some(0) then None else t.timing.runMs),
                            if !(t.nativeId.Some? && t.nativeId.value != "") && (t.outcome == Some(Interrupted) || t.outcome == Some(Failed))
                            then t.outcome else None))
  {
    hide Target, Claimant, Noticed, SlotOf, HasSentTurn, Layout;
    assert Belongs(items, turns, Layout(items, turns)[x]);
  }

  /** A row laid over its prompt's bubble: the turn's own times and attachments
      where it has them and the bubble's elsewhere; the text the user typed when
      there are attachments and the bubble's text begins with it; and the rest as
      it was. */
  lemma OverlaySays(items: seq<Item>, turns: seq<UserTurn>, x: nat, k: nat)
    requires x < |Layout(items, turns)| && Layout(items, turns)[x].Kept? && k < |turns| && Claims(items, turns, k, Layout(items, turns)[x].i)
    ensures var t, was, it := turns[k], items[Layout(items, turns)[x].i], Merged(items, turns)[x];
      && was.body.UserMessage? && it.body.UserMessage? && it.stamp == was.stamp
      && it.body.turn == Some(t.id) && it.body.undelivered == was.body.undelivered
      && it.body.text == (if t.attachments != [] && t.text <= was.body.text then t.text else was.body.text)
      && it.body.attachments == (if t.attachments != [] then t.attachments else was.body.attachments)
      && it.body.timing.startedAt == (if t.timing.startedAt.Some? then t.timing.startedAt else was.body.timing.startedAt)
      && it.body.timing.endedAt == (if t.timing.endedAt.Some? then t.timing.endedAt else was.body.timing.endedAt)
      && it.body.timing.runMs == (if t.timing.runMs.Some? && t.timing.runMs != Some(0) then t.timing.runMs else was.body.timing.runMs)
  {
    hide Target, Claimant, Noticed, SlotOf, HasSentTurn, Layout, PlaceOf;
    var i := Layout(items, turns)[x].i;
    assert Belongs(items, turns, Layout(items, turns)[x]);
    ClaimantClaims(items, turns, k, i);
  }

  /** An item no row is laid over stands as it was. */
  lemma UntouchedStands(items: seq<Item>, turns: seq<UserTurn>, x: nat)
    requires x < |Layout(items, turns)| && Layout(items, turns)[x].Kept? && forall k :: !Claims(items, turns, k, Layout(items, turns)[x].i)
    ensures Layout(items, turns)[x].i < |items| && Merged(items, turns)[x] == items[Layout(items, turns)[x].i]
  {
    hide Claimant, Layout, PlaceOf, Claims;
    assert Belongs(items, turns, Layout(items, turns)[x]);
    Unclaimed(items, turns, Layout(items, turns)[x].i);
  }
}
