/** The whole rebuild of a log: turn rows merged into the items reduced from
    records, then store-only items carried over from the log on screen
    (src/store/eventListeners.ts:382-387). */
module RebuildLaws {
  import opened Common
  import opened ChatLog
  import M = MergeTurns
  import L = MergeLaws
  import C = Carry
  import K = CarryLaws
  import S = MergeShows

  /** What an adapter reduces from records: no bubble of it names a turn, and the
      store-only kinds are not among it. */
  predicate FromAdapter(items: seq<Item>) {
    forall i :: 0 <= i < |items| ==> TurnOf(items[i]).None? && !items[i].body.QueuedMessage? && !C.IsCommandOutput(items[i])
  }

  /** The log on screen holds at most one waiting follow-up of a turn. */
  predicate OneFollowUpPerTurn(prev: seq<Item>) {
    forall i, j :: 0 <= i < j < |prev| && prev[i].body.QueuedMessage? && prev[j].body.QueuedMessage? && prev[i].body.turn.Some?
      ==> prev[i].body.turn != prev[j].body.turn
  }

  function Rebuilt(items: seq<Item>, turns: seq<M.UserTurn>, prev: seq<Item>): seq<Item> {
    C.CarriedOver(M.Merged(items, turns), prev)
  }

  method RebuildLog(items: seq<Item>, turns: seq<M.UserTurn>, prev: seq<Item>) returns (r: seq<Item>)
    ensures r == Rebuilt(items, turns, prev)
  {
    var merged := M.MergeUserTurns(items, turns);
    r := C.CarryForwardStoreOnly(merged, prev);
  }

  // -- the merged log -------------------------------------------------------

  /** The turn a piece of the merged log shows. */
  function ShownTurn(items: seq<Item>, turns: seq<M.UserTurn>, p: M.Piece): Option<nat>
    requires M.Belongs(items, turns, p)
  {
    match p
    case Kept(i) => M.Claimant(items, turns, i)
    case Bubble(k) => Some(k)
    case Tail(k) => Some(k)
  }

  lemma ShowsItsTurn(items: seq<Item>, turns: seq<M.UserTurn>, p: M.Piece)
    requires FromAdapter(items) && M.Belongs(items, turns, p)
    ensures var k := ShownTurn(items, turns, p);
      && (k.Some? ==> k.value < |turns|)
      && TurnOf(M.Draw(items, turns, p)) == (if k.Some? then Some(turns[k.value].id) else None)
    ensures var it := M.Draw(items, turns, p);
      !C.IsCommandOutput(it) && (it.body.QueuedMessage? ==> it.body.turn.Some?)
  {
    hide M.Claimant, M.Target, M.Noticed, M.SlotOf, HasSentTurn;
  }

  /** The piece that shows turn `k`; no piece of the log when it has no place. */
  function PieceFor(items: seq<Item>, turns: seq<M.UserTurn>, k: nat): M.Piece
    requires k < |turns|
  {
    match M.PlaceOf(items, turns, k)
    case Overlaid(at) => M.Kept(at)
    case Inserted(_) => M.Bubble(k)
    case AtEnd(_) => M.Tail(k)
    case Nowhere => M.Kept(|items|)
  }

  /** A turn is shown by one piece, or by none when it has no place. */
  lemma OneShowing(items: seq<Item>, turns: seq<M.UserTurn>, p: M.Piece, k: nat)
    requires M.Belongs(items, turns, p) && k < |turns|
    ensures ShownTurn(items, turns, p) == Some(k) <==>
            p == PieceFor(items, turns, k)
  {
    hide M.PlaceOf, M.Claimant;
    if p.Kept? { L.OneClaimEach(items, turns, p.i); }
  }

  /** The merged log shows no turn twice, and shows a turn exactly when the merge
      has a place for it. */
  lemma MergedOnce(items: seq<Item>, turns: seq<M.UserTurn>)
    requires FromAdapter(items) && S.DistinctTurns(turns)
    ensures OneBubblePerTurn(M.Merged(items, turns))
    ensures K.FromRecords(M.Merged(items, turns))
    ensures forall k :: 0 <= k < |turns| ==> (HasSentTurn(M.Merged(items, turns), turns[k].id) <==> S.HasPlace(items, turns, k))
  {
    hide S.HasPlace, M.PlaceOf, M.Claimant, M.Draw, M.Layout, M.Before, ShownTurn, S.DistinctTurns, FromAdapter;
    var ps, merged := M.Layout(items, turns), M.Merged(items, turns);
    M.LayoutSorted(items, turns);
    forall x | 0 <= x < |ps|
      ensures merged[x] == M.Draw(items, turns, ps[x])
      ensures var k := ShownTurn(items, turns, ps[x]);
        (k.Some? ==> k.value < |turns|) && TurnOf(merged[x]) == (if k.Some? then Some(turns[k.value].id) else None)
      ensures !C.IsCommandOutput(merged[x]) && (merged[x].body.QueuedMessage? ==> merged[x].body.turn.Some?)
    {
      ShowsItsTurn(items, turns, ps[x]);
    }
    forall x, y | 0 <= x < y < |merged| && TurnOf(merged[x]).Some?
      ensures TurnOf(merged[x]) != TurnOf(merged[y])
    {
      var j, k := ShownTurn(items, turns, ps[x]), ShownTurn(items, turns, ps[y]);
      if k.Some? && turns[j.value].id == turns[k.value].id {
        S.SameTurn(turns, j.value, k.value);
        OneShowing(items, turns, ps[x], j.value);
        OneShowing(items, turns, ps[y], j.value);
        L.StandsBefore(items, turns, x, y);
        L.StandsBefore(items, turns, y, x);
      }
    }
    forall k | 0 <= k < |turns|
      ensures HasSentTurn(merged, turns[k].id) <==> S.HasPlace(items, turns, k)
    {
      ShownIffPlaced(items, turns, k);
    }
  }

  lemma ShownIffPlaced(items: seq<Item>, turns: seq<M.UserTurn>, k: nat)
    requires FromAdapter(items) && S.DistinctTurns(turns) && k < |turns|
    ensures HasSentTurn(M.Merged(items, turns), turns[k].id) <==> S.HasPlace(items, turns, k)
  {
    hide S.HasPlace, M.PlaceOf, M.Claimant, M.Draw, M.Layout, M.Before, ShownTurn, S.DistinctTurns, FromAdapter;
    var ps, merged := M.Layout(items, turns), M.Merged(items, turns);
    M.LayoutSorted(items, turns);
    var place := M.PlaceOf(items, turns, k);
    S.PlacedWhen(items, turns, k);
    if !place.Nowhere? {
      var p := match place case Overlaid(at) => M.Kept(at) case Inserted(_) => M.Bubble(k) case _ => M.Tail(k);
      assert M.Belongs(items, turns, p);
      var x :| 0 <= x < |ps| && ps[x] == p;
      OneShowing(items, turns, p, k);
      ShowsItsTurn(items, turns, p);
      assert TurnOf(merged[x]) == Some(turns[k].id);
    }
    if HasSentTurn(merged, turns[k].id) {
      var x :| 0 <= x < |merged| && TurnOf(merged[x]) == Some(turns[k].id);
      assert ps[x] in ps;
      ShowsItsTurn(items, turns, ps[x]);
      var j := ShownTurn(items, turns, ps[x]);
      S.SameTurn(turns, j.value, k);
      OneShowing(items, turns, ps[x], k);
    }
  }

  // -- the whole rebuild ----------------------------------------------------

  lemma CarriedTurn(rebuilt: seq<Item>, prev: seq<Item>, j: nat)
    requires j < |prev| && C.Carries(rebuilt, prev, j) && TurnOf(prev[j]).Some?
    ensures prev[j].body.QueuedMessage? && !HasSentTurn(rebuilt, prev[j].body.turn.value)
  {
    hide C.Located, C.AnchorAfter;
  }

  /** A rebuild shows no turn twice. */
  lemma ShownOnce(rebuilt: seq<Item>, prev: seq<Item>)
    requires OneBubblePerTurn(rebuilt) && OneFollowUpPerTurn(prev)
    ensures OneBubblePerTurn(C.CarriedOver(rebuilt, prev))
  {
    hide C.Carries, C.AnchorAfter, C.Layout, C.Before, HasSentTurn;
    var ps, log := C.Layout(rebuilt, prev), C.CarriedOver(rebuilt, prev);
    K.Conserved(rebuilt, prev);
    forall x, y | 0 <= x < y < |log| && TurnOf(log[x]).Some?
      ensures TurnOf(log[x]) != TurnOf(log[y])
    {
      assert ps[x] != ps[y];
      if TurnOf(log[x]) == TurnOf(log[y]) {
        if ps[x].Carried? { CarriedTurn(rebuilt, prev, ps[x].j); }
        if ps[y].Carried? { CarriedTurn(rebuilt, prev, ps[y].j); }
        if ps[x].Rebuilt? { Sends(rebuilt, ps[x].i); }
        if ps[y].Rebuilt? { Sends(rebuilt, ps[y].i); }
      }
    }
  }

  lemma Sends(items: seq<Item>, i: nat)
    requires i < |items| && TurnOf(items[i]).Some?
    ensures HasSentTurn(items, TurnOf(items[i]).value)
  {
  }

  /** From records, turn rows and the log on screen, a rebuild: shows no turn
      twice; keeps the merged log whole and in order; carries each command output
      once; drops a waiting follow-up exactly when its turn row has a place, or a
      row of the merged log draws it; and settles at once or not as its
      steadiness says. */
  lemma RebuildKeeps(items: seq<Item>, turns: seq<M.UserTurn>, prev: seq<Item>)
    requires FromAdapter(items) && S.DistinctTurns(turns) && OneFollowUpPerTurn(prev)
    ensures OneBubblePerTurn(Rebuilt(items, turns, prev))
    ensures var merged := M.Merged(items, turns); K.Erased(merged, prev, C.Layout(merged, prev)) == merged
    ensures forall j :: 0 <= j < |prev| && C.IsCommandOutput(prev[j]) ==> C.Carried(j) in C.Layout(M.Merged(items, turns), prev)
    ensures var parts := C.Layout(M.Merged(items, turns), prev); forall x, y :: 0 <= x < y < |parts| ==> parts[x] != parts[y]
    ensures forall j, k ::
              0 <= j < |prev| && 0 <= k < |turns| && prev[j].body.QueuedMessage? && prev[j].body.turn == Some(turns[k].id)
              ==> (C.Carried(j) !in C.Layout(M.Merged(items, turns), prev) <==> S.HasPlace(items, turns, k))
    ensures forall j ::
              0 <= j < |prev| && prev[j].body.QueuedMessage? && (forall k :: 0 <= k < |turns| ==> prev[j].body.turn != Some(turns[k].id))
              ==> C.Carried(j) in C.Layout(M.Merged(items, turns), prev)
    ensures Rebuilt(items, turns, Rebuilt(items, turns, prev)) == Rebuilt(items, turns, prev)
            <==> K.Steady(M.Merged(items, turns), prev)
  {
    hide S.HasPlace, M.PlaceOf, M.Layout, C.Layout, M.Merged, C.CarriedOver, C.Located, C.AnchorAfter, HasSentTurn, K.Steady, K.Erased;
    var merged := M.Merged(items, turns);
    MergedOnce(items, turns);
    ShownOnce(merged, prev);
    K.Conserved(merged, prev);
    K.RebuildTwice(merged, prev);
    forall j | 0 <= j < |prev| && prev[j].body.QueuedMessage? && prev[j].body.turn.Some?
      && (forall k :: 0 <= k < |turns| ==> prev[j].body.turn != Some(turns[k].id))
      ensures !HasSentTurn(merged, prev[j].body.turn.value)
    {
      OnlyRows(items, turns, prev[j].body.turn.value);
    }
  }

  /** The merged log names no turn but those of its rows. */
  lemma OnlyRows(items: seq<Item>, turns: seq<M.UserTurn>, turn: TurnId)
    requires FromAdapter(items)
    ensures HasSentTurn(M.Merged(items, turns), turn) ==> exists k :: 0 <= k < |turns| && turns[k].id == turn
  {
    hide M.PlaceOf, M.Claimant, M.Draw, M.Layout, ShownTurn, FromAdapter;
    var ps, merged := M.Layout(items, turns), M.Merged(items, turns);
    if HasSentTurn(merged, turn) {
      var x :| 0 <= x < |merged| && TurnOf(merged[x]) == Some(turn);
      ShowsItsTurn(items, turns, ps[x]);
    }
  }
}
