/** Snapshot and stream reconciliation (src/rowSync.ts): subscribe, fetch,
    replay. */
module RowSync {
  import opened Common

  type Id(==, !new)

  type Body(==, !new)

  datatype Row = Row(id: Id, body: Body)

  datatype Event = Upsert(row: Row) | Delete(gone: Id)

  function IdOf(e: Event): Id {
    match e
    case Upsert(row) => row.id
    case Delete(id) => id
  }

  // -- one event on a list of rows ------------------------------------------

  predicate Has(rows: seq<Row>, id: Id) {
    exists i :: 0 <= i < |rows| && rows[i].id == id
  }

  function Remove(rows: seq<Row>, id: Id): seq<Row> {
    if rows == [] then []
    else Remove(rows[..|rows| - 1], id) + if rows[|rows| - 1].id == id then [] else [rows[|rows| - 1]]
  }

  function Replace(rows: seq<Row>, row: Row): seq<Row> {
    seq(|rows|, i requires 0 <= i < |rows| => if rows[i].id == row.id then row else rows[i])
  }

  function Apply(rows: seq<Row>, e: Event): seq<Row> {
    match e
    case Delete(id) => Remove(rows, id)
    case Upsert(row) => if Has(rows, row.id) then Replace(rows, row) else rows + [row]
  }

  function Fold(rows: seq<Row>, events: seq<Event>): seq<Row> {
    if events == [] then rows
    else Apply(Fold(rows, events[..|events| - 1]), events[|events| - 1])
  }

  lemma {:induction false} FoldConcat(rows: seq<Row>, a: seq<Event>, b: seq<Event>)
    ensures Fold(rows, a + b) == Fold(Fold(rows, a), b)
  {
    if b == [] {
      assert a + b == a;
    } else {
      var last := |b| - 1;
      assert (a + b)[..|a| + last] == a + b[..last];
      FoldConcat(rows, a, b[..last]);
    }
  }

  // -- rows as a table ------------------------------------------------------

  function Find(rows: seq<Row>, id: Id): (r: Option<Row>)
    ensures r.Some? <==> Has(rows, id)
    ensures r.Some? ==> r.value.id == id && r.value in rows
  {
    if rows == [] then None
    else
      var earlier := Find(rows[..|rows| - 1], id);
      var last := rows[|rows| - 1];
      if earlier.Some? then earlier else if last.id == id then Some(last) else None
  }

  predicate Distinct(rows: seq<Row>) {
    forall i, j :: 0 <= i < j < |rows| ==> rows[i].id != rows[j].id
  }

  /** What the last event about `id` left of it. */
  function Outcome(events: seq<Event>, id: Id, before: Option<Row>): Option<Row> {
    if events == [] then before
    else
      var last := events[|events| - 1];
      if IdOf(last) == id then (if last.Upsert? then Some(last.row) else None)
      else Outcome(events[..|events| - 1], id, before)
  }

  lemma {:induction false} FindRemoved(rows: seq<Row>, gone: Id, id: Id)
    ensures Find(Remove(rows, gone), id) == if id == gone then None else Find(rows, id)
  {
    if rows != [] {
      var init, last := rows[..|rows| - 1], rows[|rows| - 1];
      FindRemoved(init, gone, id);
      if last.id == gone {
        assert Remove(rows, gone) == Remove(init, gone);
      } else {
        FindAppended(Remove(init, gone), last, id);
      }
    }
  }

  lemma FindAppended(rows: seq<Row>, row: Row, id: Id)
    ensures Find(rows + [row], id) == if Find(rows, id).Some? then Find(rows, id) else if row.id == id then Some(row) else None
  {
    assert (rows + [row])[..|rows|] == rows;
  }

  lemma {:induction false} FindReplaced(rows: seq<Row>, row: Row, id: Id)
    ensures Find(Replace(rows, row), id)
            == if id == row.id && Find(rows, id).Some? then Some(row) else Find(rows, id)
  {
    if rows != [] {
      var last := |rows| - 1;
      assert Replace(rows, row)[..last] == Replace(rows[..last], row);
      FindReplaced(rows[..last], row, id);
    }
  }

  lemma FindApplied(rows: seq<Row>, e: Event, id: Id)
    ensures Find(Apply(rows, e), id)
            == if IdOf(e) == id then (if e.Upsert? then Some(e.row) else None) else Find(rows, id)
  {
    match e
    case Delete(gone) => FindRemoved(rows, gone, id);
    case Upsert(row) =>
      FindReplaced(rows, row, id);
      FindAppended(rows, row, id);
  }

  /** Last write wins, id by id. */
  lemma {:induction false} FindFolded(rows: seq<Row>, events: seq<Event>, id: Id)
    ensures Find(Fold(rows, events), id) == Outcome(events, id, Find(rows, id))
  {
    if events != [] {
      var init := events[..|events| - 1];
      FindFolded(rows, init, id);
      FindApplied(Fold(rows, init), events[|events| - 1], id);
    }
  }

  predicate Touches(events: seq<Event>, id: Id) {
    exists i :: 0 <= i < |events| && IdOf(events[i]) == id
  }

  lemma {:induction false} OutcomeConcat(a: seq<Event>, b: seq<Event>, id: Id, before: Option<Row>)
    ensures Outcome(a + b, id, before) == Outcome(b, id, Outcome(a, id, before))
  {
    if b == [] {
      assert a + b == a;
    } else {
      var last := |b| - 1;
      assert (a + b)[..|a| + last] == a + b[..last];
      OutcomeConcat(a, b[..last], id, before);
    }
  }

  lemma {:induction false} OutcomeTouched(events: seq<Event>, id: Id, x: Option<Row>, y: Option<Row>)
    ensures Touches(events, id) ==> Outcome(events, id, x) == Outcome(events, id, y)
    ensures !Touches(events, id) ==> Outcome(events, id, x) == x
  {
    if events != [] {
      var last := |events| - 1;
      OutcomeTouched(events[..last], id, x, y);
      if Touches(events, id) && IdOf(events[last]) != id {
        var i :| 0 <= i < |events| && IdOf(events[i]) == id;
        assert events[..last][i] == events[i];
      }
      if Touches(events[..last], id) {
        var i :| 0 <= i < last && IdOf(events[..last][i]) == id;
        assert IdOf(events[i]) == id;
      }
    }
  }

  // -- the backend ----------------------------------------------------------

  /** The backend's rows after the first `k` events of its history. */
  function Truth(history: seq<Event>, k: nat): seq<Row>
    requires k <= |history|
  {
    Fold([], history[..k])
  }

  lemma TruthExtends(history: seq<Event>, j: nat, k: nat)
    requires j <= k <= |history|
    ensures Truth(history, k) == Fold(Truth(history, j), history[j..k])
  {
    assert history[..k] == history[..j] + history[j..k];
    FoldConcat([], history[..j], history[j..k]);
  }

  /** Replaying from `j` over the snapshot taken at `k` gives, id by id, the
      true rows at `n`, for every history. */
  lemma ReplayConverges(history: seq<Event>, j: nat, k: nat, n: nat, id: Id)
    requires j <= k <= n <= |history|
    ensures Find(Fold(Truth(history, k), history[j..n]), id) == Find(Truth(history, n), id)
  {
    var T := Find(Truth(history, j), id);
    TruthExtends(history, j, k);
    TruthExtends(history, j, n);
    FindFolded(Truth(history, j), history[j..k], id);
    FindFolded(Truth(history, j), history[j..n], id);
    FindFolded(Truth(history, k), history[j..n], id);
    var S := Outcome(history[j..k], id, T);
    OutcomeTouched(history[j..n], id, S, T);
    OutcomeTouched(history[j..n], id, T, T);
    OutcomeTouched(history[j..k], id, T, T);
    if Touches(history[j..k], id) {
      var i :| 0 <= i < k - j && IdOf(history[j..k][i]) == id;
      assert IdOf(history[j..n][i]) == id;
    }
  }

  // -- the order of the replayed rows ---------------------------------------

  /** The ids some event of `events` deletes. */
  function Deleted(events: seq<Event>): set<Id> {
    if events == [] then {}
    else
      Deleted(events[..|events| - 1]) + if events[|events| - 1].Delete? then {events[|events| - 1].gone} else {}
  }

  function Only(rows: seq<Row>, ids: set<Id>): seq<Row> {
    if rows == [] then []
    else Only(rows[..|rows| - 1], ids) + if rows[|rows| - 1].id in ids then [rows[|rows| - 1]] else []
  }

  function Except(rows: seq<Row>, ids: set<Id>): seq<Row> {
    if rows == [] then []
    else Except(rows[..|rows| - 1], ids) + if rows[|rows| - 1].id in ids then [] else [rows[|rows| - 1]]
  }

  function Ids(rows: seq<Row>): seq<Id> {
    seq(|rows|, i requires 0 <= i < |rows| => rows[i].id)
  }

  lemma IdsAppend(rows: seq<Row>, row: Row)
    ensures Ids(rows + [row]) == Ids(rows) + [row.id]
  {
  }

  lemma OnlyAppend(rows: seq<Row>, row: Row, ids: set<Id>)
    ensures Only(rows + [row], ids) == Only(rows, ids) + if row.id in ids then [row] else []
    ensures Except(rows + [row], ids) == Except(rows, ids) + if row.id in ids then [] else [row]
  {
    assert (rows + [row])[..|rows|] == rows;
  }

  lemma RemoveAppend(rows: seq<Row>, row: Row, id: Id)
    ensures row.id != id ==> Remove(rows + [row], id) == Remove(rows, id) + [row]
    ensures row.id == id ==> Remove(rows + [row], id) == Remove(rows, id)
  {
    assert (rows + [row])[..|rows|] == rows;
  }

  lemma {:induction false} RemoveConcat(a: seq<Row>, b: seq<Row>, id: Id)
    ensures Remove(a + b, id) == Remove(a, id) + Remove(b, id)
  {
    if b == [] {
      assert a + b == a;
    } else {
      var last := |b| - 1;
      assert (a + b)[..|a| + last] == a + b[..last];
      RemoveConcat(a, b[..last], id);
    }
  }

  lemma {:induction false} RemoveSubset(rows: seq<Row>, id: Id)
    ensures forall i :: 0 <= i < |Remove(rows, id)| ==> Remove(rows, id)[i] in rows && Remove(rows, id)[i].id != id
  {
    if rows != [] { RemoveSubset(rows[..|rows| - 1], id); }
  }

  /** The deleted id drops out of what is set apart. */
  lemma {:induction false} OnlyRemoved(rows: seq<Row>, id: Id, ids: set<Id>)
    ensures Only(Remove(rows, id), ids + {id}) == Remove(Only(rows, ids), id)
  {
    if rows != [] {
      var init, last := rows[..|rows| - 1], rows[|rows| - 1];
      OnlyRemoved(init, id, ids);
      if last.id == id {
        assert Remove(rows, id) == Remove(init, id);
      } else {
        OnlyAppend(Remove(init, id), last, ids + {id});
      }
      if last.id in ids {
        RemoveAppend(Only(init, ids), last, id);
      } else {
        assert Only(rows, ids) == Only(init, ids);
      }
    }
  }

  /** And out of what is kept. */
  lemma {:induction false} ExceptRemoved(rows: seq<Row>, id: Id, ids: set<Id>)
    ensures Remove(Except(rows, ids), id) == Except(rows, ids + {id})
  {
    if rows != [] {
      var init, last := rows[..|rows| - 1], rows[|rows| - 1];
      ExceptRemoved(init, id, ids);
      if last.id in ids {
        assert Except(rows, ids) == Except(init, ids) && Except(rows, ids + {id}) == Except(init, ids + {id});
      } else {
        RemoveAppend(Except(init, ids), last, id);
        if last.id == id { assert Except(rows, ids + {id}) == Except(init, ids + {id}); }
      }
    }
  }

  lemma {:induction false} OnlyHas(rows: seq<Row>, ids: set<Id>, id: Id)
    ensures id in ids ==> (Has(Only(rows, ids), id) <==> Has(rows, id))
    ensures id !in ids ==> (Has(Except(rows, ids), id) <==> Has(rows, id))
    ensures id in ids ==> !Has(Except(rows, ids), id)
  {
    if rows != [] {
      var init, last := rows[..|rows| - 1], rows[|rows| - 1];
      OnlyHas(init, ids, id);
      HasAppend(init, last, id);
      assert init + [last] == rows;
      if last.id in ids {
        HasAppend(Only(init, ids), last, id);
        assert Except(rows, ids) == Except(init, ids);
      } else {
        HasAppend(Except(init, ids), last, id);
        assert Only(rows, ids) == Only(init, ids);
      }
    }
  }

  lemma HasAppend(rows: seq<Row>, row: Row, id: Id)
    ensures Has(rows + [row], id) <==> Has(rows, id) || row.id == id
  {
    if Has(rows, id) {
      var i :| 0 <= i < |rows| && rows[i].id == id;
      assert (rows + [row])[i].id == id;
    }
    if row.id == id { assert (rows + [row])[|rows|].id == id; }
  }

  lemma {:induction false} OnlyReplaced(rows: seq<Row>, row: Row, ids: set<Id>)
    ensures Only(Replace(rows, row), ids) == Replace(Only(rows, ids), row)
  {
    if rows != [] {
      var last := |rows| - 1;
      assert Replace(rows, row)[..last] == Replace(rows[..last], row);
      OnlyReplaced(rows[..last], row, ids);
    }
  }

  lemma {:induction false} ReplaceAbsent(rows: seq<Row>, row: Row)
    requires !Has(rows, row.id)
    ensures Replace(rows, row) == rows
  {
  }

  /** Seen through the ids deleted so far, two runs over the same events look
      alike whatever they started from. */
  lemma {:induction false} DeletedAlike(a: seq<Row>, b: seq<Row>, events: seq<Event>)
    ensures Only(Fold(a, events), Deleted(events)) == Only(Fold(b, events), Deleted(events))
  {
    if events == [] {
      NoneOnly(a);
      NoneOnly(b);
    } else {
      var init, e := events[..|events| - 1], events[|events| - 1];
      var P, Q, D := Fold(a, init), Fold(b, init), Deleted(init);
      DeletedAlike(a, b, init);
      match e
      case Delete(id) =>
        OnlyRemoved(P, id, D);
        OnlyRemoved(Q, id, D);
      case Upsert(row) =>
        assert Deleted(events) == D;
        OnlyUpserted(P, row, D);
        OnlyUpserted(Q, row, D);
    }
  }

  lemma {:induction false} NoneOnly(rows: seq<Row>)
    ensures Only(rows, {}) == [] && Except(rows, {}) == rows
  {
    if rows != [] { NoneOnly(rows[..|rows| - 1]); }
  }

  lemma OnlyUpserted(rows: seq<Row>, row: Row, ids: set<Id>)
    ensures Only(Apply(rows, Upsert(row)), ids)
            == if row.id in ids then Apply(Only(rows, ids), Upsert(row)) else Only(rows, ids)
  {
    OnlyHas(rows, ids, row.id);
    OnlyReplaced(rows, row, ids);
    OnlyAppend(rows, row, ids);
    if row.id !in ids {
      OnlyMembers(rows, ids);
      assert !Has(Only(rows, ids), row.id);
      ReplaceAbsent(Only(rows, ids), row);
    }
  }

  lemma {:induction false} OnlyMembers(rows: seq<Row>, ids: set<Id>)
    ensures forall i :: 0 <= i < |Only(rows, ids)| ==> Only(rows, ids)[i].id in ids
    ensures forall i :: 0 <= i < |Except(rows, ids)| ==> Except(rows, ids)[i].id !in ids
  {
    if rows != [] { OnlyMembers(rows[..|rows| - 1], ids); }
  }

  /** The replay over `start` so far: the rows of `start` not yet deleted, in
      place, then rows that were deleted meanwhile or never in `start`. */
  ghost predicate Split(start: seq<Row>, events: seq<Event>, stay: seq<Row>, come: seq<Row>) {
    && Fold(start, events) == stay + come
    && Ids(stay) == Ids(Except(start, Deleted(events)))
    && forall i :: 0 <= i < |come| ==> come[i].id in Deleted(events) || !Has(start, come[i].id)
  }

  lemma {:induction false} Splits(start: seq<Row>, events: seq<Event>) returns (stay: seq<Row>, come: seq<Row>)
    ensures Split(start, events, stay, come)
  {
    if events == [] {
      NoneOnly(start);
      stay, come := start, [];
      assert stay + come == start;
    } else {
      var init, e := events[..|events| - 1], events[|events| - 1];
      var stay', come' := Splits(start, init);
      var D := Deleted(init);
      match e
      case Delete(id) =>
        RemoveConcat(stay', come', id);
        stay, come := Remove(stay', id), Remove(come', id);
        ExceptRemoved(start, id, D);
        RemoveIds(stay', Except(start, D), id);
        RemoveSubset(come', id);
      case Upsert(row) =>
        assert Deleted(events) == D;
        if Has(stay' + come', row.id) {
          stay, come := Replace(stay', row), Replace(come', row);
          assert Replace(stay' + come', row) == stay + come;
        } else {
          stay, come := stay', come' + [row];
          assert stay' + come' + [row] == stay + come;
          SameHas(stay', Except(start, D), row.id);
          HasConcat(stay', come', row.id);
          OnlyHas(start, D, row.id);
        }
    }
  }

  lemma HasConcat(a: seq<Row>, b: seq<Row>, id: Id)
    ensures Has(a, id) ==> Has(a + b, id)
  {
    if Has(a, id) {
      var i :| 0 <= i < |a| && a[i].id == id;
      assert (a + b)[i].id == id;
    }
  }

  lemma SameHas(a: seq<Row>, b: seq<Row>, id: Id)
    requires Ids(a) == Ids(b)
    ensures Has(a, id) <==> Has(b, id)
  {
    assert |Ids(a)| == |a| && |Ids(b)| == |b|;
    forall i | 0 <= i < |a|
      ensures a[i].id == b[i].id
    {
      assert Ids(a)[i] == Ids(b)[i];
    }
  }

  lemma {:induction false} RemoveIds(a: seq<Row>, b: seq<Row>, id: Id)
    requires Ids(a) == Ids(b)
    ensures Ids(Remove(a, id)) == Ids(Remove(b, id))
  {
    assert |Ids(a)| == |a| && |Ids(b)| == |b|;
    if a != [] {
      var last := |a| - 1;
      assert Ids(a)[last] == Ids(b)[last];
      assert Ids(a[..last]) == Ids(a)[..last] && Ids(b[..last]) == Ids(b)[..last];
      RemoveIds(a[..last], b[..last], id);
      IdsAppend(Remove(a[..last], id), a[last]);
      IdsAppend(Remove(b[..last], id), b[last]);
      if a[last].id == id {
        assert Remove(a, id) == Remove(a[..last], id) && Remove(b, id) == Remove(b[..last], id);
      }
    }
  }

  lemma {:induction false} FoldDistinct(rows: seq<Row>, events: seq<Event>)
    requires Distinct(rows)
    ensures Distinct(Fold(rows, events))
  {
    if events != [] {
      var init := events[..|events| - 1];
      FoldDistinct(rows, init);
      var e := events[|events| - 1];
      if e.Delete? { RemoveDistinct(Fold(rows, init), e.gone); }
    }
  }

  lemma {:induction false} RemoveDistinct(rows: seq<Row>, id: Id)
    requires Distinct(rows)
    ensures Distinct(Remove(rows, id))
  {
    if rows != [] {
      var init := rows[..|rows| - 1];
      RemoveDistinct(init, id);
      RemoveSubset(init, id);
    }
  }

  lemma {:induction false} FindAt(rows: seq<Row>, i: nat)
    requires Distinct(rows) && i < |rows|
    ensures Find(rows, rows[i].id) == Some(rows[i])
  {
    var last := |rows| - 1;
    if i < last {
      FindAt(rows[..last], i);
    } else {
      assert forall k :: 0 <= k < last ==> rows[..last][k].id != rows[i].id;
    }
  }

  lemma {:induction false} OnlyConcat(a: seq<Row>, b: seq<Row>, ids: set<Id>)
    ensures Only(a + b, ids) == Only(a, ids) + Only(b, ids)
  {
    if b == [] {
      assert a + b == a;
    } else {
      var last := |b| - 1;
      assert (a + b)[..|a| + last] == a + b[..last];
      OnlyConcat(a, b[..last], ids);
    }
  }

  lemma {:induction false} OnlyAllOrNone(rows: seq<Row>, ids: set<Id>)
    ensures (forall i :: 0 <= i < |rows| ==> rows[i].id in ids) ==> Only(rows, ids) == rows
    ensures (forall i :: 0 <= i < |rows| ==> rows[i].id !in ids) ==> Only(rows, ids) == []
  {
    if rows != [] { OnlyAllOrNone(rows[..|rows| - 1], ids); }
  }

  lemma {:induction false} ExceptSubset(rows: seq<Row>, ids: set<Id>)
    ensures forall i :: 0 <= i < |Except(rows, ids)| ==> Except(rows, ids)[i] in rows
  {
    if rows != [] { ExceptSubset(rows[..|rows| - 1], ids); }
  }

  /** Replaying events already in the rows leaves every id as it was. */
  lemma OverlapTable(before: seq<Row>, events: seq<Event>, id: Id)
    ensures Find(Fold(Fold(before, events), events), id) == Find(Fold(before, events), id)
  {
    var S := Fold(before, events);
    FindFolded(before, events, id);
    FindFolded(S, events, id);
    OutcomeTouched(events, id, Find(S, id), Find(before, id));
    OutcomeTouched(events, id, Find(before, id), Find(S, id));
  }

  /** Of the split, the first part is what the snapshot keeps... */
  lemma StayIsKept(S: seq<Row>, events: seq<Event>, stay: seq<Row>, come: seq<Row>)
    requires Split(S, events, stay, come) && Distinct(S) && Distinct(Fold(S, events))
    requires forall id: Id :: Find(Fold(S, events), id) == Find(S, id)
    ensures stay == Except(S, Deleted(events))
  {
    var Q, kept := Fold(S, events), Except(S, Deleted(events));
    assert |stay| == |Ids(stay)| == |Ids(kept)| == |kept|;
    ExceptSubset(S, Deleted(events));
    forall i | 0 <= i < |stay|
      ensures stay[i] == kept[i]
    {
      assert Ids(stay)[i] == Ids(kept)[i];
      assert Q[i] == stay[i];
      FindAt(Q, i);
      assert kept[i] in S;
      var k :| 0 <= k < |S| && S[k] == kept[i];
      FindAt(S, k);
    }
  }

  /** ...and the second holds deleted ids only. */
  lemma ComeIsDeleted(S: seq<Row>, events: seq<Event>, stay: seq<Row>, come: seq<Row>, i: nat)
    requires Split(S, events, stay, come) && Distinct(Fold(S, events)) && i < |come|
    requires forall id: Id :: Find(Fold(S, events), id) == Find(S, id)
    ensures come[i].id in Deleted(events)
  {
    var Q := Fold(S, events);
    assert Q[|stay| + i] == come[i];
    FindAt(Q, |stay| + i);
    assert Find(S, come[i].id).Some?;
  }

  /** Where the overlap puts every row: replaying the very events a snapshot
      already holds leaves the rows those events never delete in place, and
      moves the ones deleted and added back behind them. */
  lemma OverlapOrder(before: seq<Row>, events: seq<Event>)
    requires Distinct(before)
    ensures var snapshot := Fold(before, events);
      Fold(snapshot, events) == Except(snapshot, Deleted(events)) + Only(snapshot, Deleted(events))
  {
    hide Fold, Only, Except, Deleted, Find;
    var S, D := Fold(before, events), Deleted(events);
    FoldDistinct(before, events);
    FoldDistinct(S, events);
    var stay, come := Splits(S, events);
    forall id: Id
      ensures Find(Fold(S, events), id) == Find(S, id)
    {
      OverlapTable(before, events, id);
    }
    StayIsKept(S, events, stay, come);
    forall i | 0 <= i < |come|
      ensures come[i].id in D
    {
      ComeIsDeleted(S, events, stay, come, i);
    }
    OnlyMembers(S, D);
    OnlyConcat(stay, come, D);
    OnlyAllOrNone(stay, D);
    OnlyAllOrNone(come, D);
    DeletedAlike(before, S, events);
  }

  /** The rows with ids in `ids` are the last ones. */
  predicate Trailing(rows: seq<Row>, ids: set<Id>) {
    forall i, j :: 0 <= i < j < |rows| && rows[i].id in ids ==> rows[j].id in ids
  }

  lemma SplitIsTrailing(rows: seq<Row>, ids: set<Id>)
    ensures Except(rows, ids) + Only(rows, ids) == rows ==> Trailing(rows, ids)
  {
    hide Except, Only;
    OnlyMembers(rows, ids);
    var a, b := Except(rows, ids), Only(rows, ids);
    if a + b == rows {
      assert forall i :: 0 <= i < |a| ==> rows[i] == a[i];
      assert forall i :: |a| <= i < |rows| ==> rows[i] == b[i - |a|];
    }
  }

  lemma {:induction false} TrailingMeans(rows: seq<Row>, ids: set<Id>)
    ensures Except(rows, ids) + Only(rows, ids) == rows <==> Trailing(rows, ids)
  {
    SplitIsTrailing(rows, ids);
    if Trailing(rows, ids) && rows != [] {
      var last := |rows| - 1;
      TrailingMeans(rows[..last], ids);
      if rows[last].id !in ids {
        assert forall i :: 0 <= i < last ==> rows[..last][i].id !in ids;
        OnlyAllOrNone(rows[..last], ids);
      }
      assert rows == rows[..last] + [rows[last]];
    }
  }

  lemma {:induction false} ExceptConcat(a: seq<Row>, b: seq<Row>, ids: set<Id>)
    ensures Except(a + b, ids) == Except(a, ids) + Except(b, ids)
  {
    if b == [] {
      assert a + b == a;
    } else {
      var last := |b| - 1;
      assert (a + b)[..|a| + last] == a + b[..last];
      ExceptConcat(a, b[..last], ids);
    }
  }

  /** Setting rows apart and leaving rows out may be done in either order. */
  lemma {:induction false} ExceptCommutes(rows: seq<Row>, a: set<Id>, b: set<Id>)
    ensures Except(Except(rows, a), b) == Except(Except(rows, b), a)
    ensures Except(Only(rows, a), b) == Only(Except(rows, b), a)
  {
    if rows != [] {
      hide Only, Except;
      var init, row := rows[..|rows| - 1], rows[|rows| - 1];
      assert rows == init + [row];
      ExceptCommutes(init, a, b);
      AppendTo(init, row, a);
      AppendTo(init, row, b);
      AppendTo(Except(init, a), row, b);
      AppendTo(Except(init, b), row, a);
      AppendTo(Only(init, a), row, b);
    }
  }

  lemma AppendTo(rows: seq<Row>, row: Row, ids: set<Id>)
    ensures Only(rows + [row], ids) == if row.id in ids then Only(rows, ids) + [row] else Only(rows, ids)
    ensures Except(rows + [row], ids) == if row.id in ids then Except(rows, ids) else Except(rows, ids) + [row]
  {
    hide Only, Except;
    OnlyAppend(rows, row, ids);
  }

  lemma HasExcept(rows: seq<Row>, ids: set<Id>, id: Id)
    ensures Has(Except(rows, ids), id) <==> Has(rows, id) && id !in ids
  {
    OnlyHas(rows, ids, id);
  }

  /** Two lists of the same ids under the same events: what each keeps of its own
      rows, in its own order, and the same rows come in behind. */
  lemma {:induction false} SplitsAlike(p: seq<Row>, q: seq<Row>, events: seq<Event>)
    returns (stayP: seq<Row>, stayQ: seq<Row>, come: seq<Row>)
    requires forall id: Id :: Has(p, id) <==> Has(q, id)
    ensures Fold(p, events) == stayP + come && Fold(q, events) == stayQ + come
    ensures Ids(stayP) == Ids(Except(p, Deleted(events))) && Ids(stayQ) == Ids(Except(q, Deleted(events)))
  {
    hide Find, Only;
    if events == [] {
      NoneOnly(p);
      NoneOnly(q);
      stayP, stayQ, come := p, q, [];
      assert p + [] == p && q + [] == q;
    } else {
      var init, e := events[..|events| - 1], events[|events| - 1];
      var p', q', come' := SplitsAlike(p, q, init);
      stayP, come := OneMore(p, init, e, p', come');
      var come2;
      stayQ, come2 := OneMore(q, init, e, q', come');
      if e.Upsert? {
        SameHas(p', Except(p, Deleted(init)), e.row.id);
        SameHas(q', Except(q, Deleted(init)), e.row.id);
        HasExcept(p, Deleted(init), e.row.id);
        HasExcept(q, Deleted(init), e.row.id);
      }
    }
  }

  /** One more event on a list split in two. */
  lemma OneMore(start: seq<Row>, init: seq<Event>, e: Event, stay: seq<Row>, come: seq<Row>) returns (stay': seq<Row>, come': seq<Row>)
    requires Ids(stay) == Ids(Except(start, Deleted(init)))
    ensures Apply(stay + come, e) == stay' + come'
    ensures Ids(stay') == Ids(Except(start, Deleted(init + [e])))
    ensures come' == if e.Delete? then Remove(come, e.gone)
                     else if Has(stay, e.row.id) || Has(come, e.row.id) then Replace(come, e.row)
                     else come + [e.row]
  {
    hide Find, Only, Except;
    assert (init + [e])[..|init|] == init;
    var D := Deleted(init);
    match e
    case Delete(id) =>
      RemoveConcat(stay, come, id);
      stay', come' := Remove(stay, id), Remove(come, id);
      ExceptRemoved(start, id, D);
      RemoveIds(stay, Except(start, D), id);
    case Upsert(row) =>
      assert Deleted(init + [e]) == D;
      HasEither(stay, come, row.id);
      if Has(stay + come, row.id) {
        stay', come' := Replace(stay, row), Replace(come, row);
        assert Replace(stay + come, row) == stay' + come';
        assert Ids(stay') == Ids(stay);
      } else {
        stay', come' := stay, come + [row];
        assert stay + come + [row] == stay' + come';
      }
  }

  lemma HasEither(a: seq<Row>, b: seq<Row>, id: Id)
    ensures Has(a + b, id) <==> Has(a, id) || Has(b, id)
  {
    HasConcat(a, b, id);
    if Has(b, id) {
      var i :| 0 <= i < |b| && b[i].id == id;
      assert (a + b)[|a| + i].id == id;
    }
  }

  lemma SameRowsByIds(p: seq<Row>, q: seq<Row>, a: seq<Row>, b: seq<Row>)
    requires Distinct(p) && Distinct(q) && Ids(a) == Ids(b)
    requires forall id: Id :: Find(p, id) == Find(q, id)
    requires (forall i :: 0 <= i < |a| ==> a[i] in p) && (forall i :: 0 <= i < |b| ==> b[i] in q)
    ensures a == b
  {
    hide Find;
    assert |a| == |Ids(a)| == |Ids(b)| == |b|;
    forall i | 0 <= i < |a| ensures a[i] == b[i] {
      assert Ids(a)[i] == Ids(b)[i];
      var x :| 0 <= x < |p| && p[x] == a[i];
      var y :| 0 <= y < |q| && q[y] == b[i];
      FindAt(p, x);
      FindAt(q, y);
    }
  }

  /** The same rows in two orders end in one order under the same events exactly
      when the rows those events never delete stood in one order before. */
  lemma SameOrder(p: seq<Row>, q: seq<Row>, events: seq<Event>)
    requires Distinct(p) && Distinct(q)
    requires forall id: Id :: Find(p, id) == Find(q, id)
    ensures Fold(p, events) == Fold(q, events) <==> Except(p, Deleted(events)) == Except(q, Deleted(events))
  {
    hide Fold, Find, Except, Deleted, Only;
    var D := Deleted(events);
    assert forall id: Id :: Has(p, id) <==> Find(p, id).Some?;
    var stayP, stayQ, come := SplitsAlike(p, q, events);
    FoldDistinct(p, events);
    FoldDistinct(q, events);
    forall id: Id ensures Find(Fold(p, events), id) == Find(Fold(q, events), id) {
      FindFolded(p, events, id);
      FindFolded(q, events, id);
    }
    if Fold(p, events) == Fold(q, events) {
      assert |stayP| == |stayQ|;
      assert stayP == (stayP + come)[..|stayP|] == (stayQ + come)[..|stayQ|] == stayQ;
      ExceptSubset(p, D);
      ExceptSubset(q, D);
      SameRowsByIds(p, q, Except(p, D), Except(q, D));
    }
    if Except(p, D) == Except(q, D) {
      forall i | 0 <= i < |stayP| ensures stayP[i] in Fold(p, events) { assert Fold(p, events)[i] == stayP[i]; }
      forall i | 0 <= i < |stayQ| ensures stayQ[i] in Fold(q, events) { assert Fold(q, events)[i] == stayQ[i]; }
      SameRowsByIds(Fold(p, events), Fold(q, events), stayP, stayQ);
    }
  }

  /** Subscribed at `j`, snapshot at `k`, observed to `n`: the settled list is in
      the true order exactly when, of the snapshot's rows that no later event
      deletes, the ones deleted in the overlap and there again are the last. */
  lemma OrderKeptExactly(history: seq<Event>, j: nat, k: nat, n: nat)
    requires j <= k <= n <= |history|
    ensures Fold(Truth(history, k), history[j..n]) == Truth(history, n)
            <==> Trailing(Except(Truth(history, k), Deleted(history[k..n])), Deleted(history[j..k]))
  {
    hide Fold, Find, Except, Deleted, Only, Trailing;
    var S, overlap, later := Truth(history, k), history[j..k], history[k..n];
    var D, L := Deleted(overlap), Deleted(later);
    var before := Truth(history, j);
    TruthFolds(history, j);
    TruthExtends(history, j, k);
    TruthExtends(history, k, n);
    FoldDistinct(before, overlap);
    FoldDistinct(S, overlap);
    OverlapOrder(before, overlap);
    forall id: Id ensures Find(Fold(S, overlap), id) == Find(S, id) { OverlapTable(before, overlap, id); }
    assert history[j..n] == overlap + later;
    FoldConcat(S, overlap, later);
    SameOrder(Fold(S, overlap), S, later);
    ExceptConcat(Except(S, D), Only(S, D), L);
    ExceptCommutes(S, D, L);
    TrailingMeans(Except(S, L), D);
  }

  lemma TruthFolds(history: seq<Event>, k: nat)
    requires k <= |history|
    ensures Distinct(Truth(history, k))
  {
    FoldDistinct([], history[..k]);
  }

  /** No id deleted in the overlap is upserted again before the snapshot. */
  predicate NoRevival(history: seq<Event>, j: nat, k: nat)
    requires j <= k <= |history|
  {
    forall a, b :: j <= a < b < k && history[a].Delete? && history[b].Upsert? ==> history[a].gone != history[b].row.id
  }

  lemma {:induction false} DeletedMeans(events: seq<Event>, id: Id)
    ensures id in Deleted(events) <==> exists i :: 0 <= i < |events| && events[i] == Delete(id)
  {
    if events != [] {
      var last := |events| - 1;
      DeletedMeans(events[..last], id);
      if id in Deleted(events[..last]) {
        var i :| 0 <= i < last && events[..last][i] == Delete(id);
        assert events[i] == Delete(id);
      }
      if exists i :: 0 <= i < |events| && events[i] == Delete(id) {
        var i :| 0 <= i < |events| && events[i] == Delete(id);
        if i < last { assert events[..last][i] == Delete(id); }
      }
    }
  }

  lemma {:induction false} GoneForGood(history: seq<Event>, j: nat, i: nat, k: nat)
    requires j <= i < k <= |history| && NoRevival(history, j, k) && history[i].Delete?
    ensures Find(Truth(history, k), history[i].gone).None?
    decreases k
  {
    var id, e := history[i].gone, history[k - 1];
    assert history[..k][..k - 1] == history[..k - 1];
    FindApplied(Truth(history, k - 1), e, id);
    if i < k - 1 { GoneForGood(history, j, i, k - 1); }
  }

  lemma DeletedGone(history: seq<Event>, j: nat, k: nat, id: Id)
    requires j <= k <= |history| && NoRevival(history, j, k) && id in Deleted(history[j..k])
    ensures !Has(Truth(history, k), id)
  {
    DeletedMeans(history[j..k], id);
    var i :| 0 <= i < k - j && history[j..k][i] == Delete(id);
    GoneForGood(history, j, j + i, k);
  }

  /** With no id revived in the overlap, the settled list is the true list, order
      included, whatever is revived later. */
  lemma ReplayExact(history: seq<Event>, j: nat, k: nat, n: nat)
    requires j <= k <= n <= |history| && NoRevival(history, j, k)
    ensures Fold(Truth(history, k), history[j..n]) == Truth(history, n)
  {
    var S, D, L := Truth(history, k), Deleted(history[j..k]), Deleted(history[k..n]);
    ExceptSubset(S, L);
    forall x | 0 <= x < |Except(S, L)|
      ensures Except(S, L)[x].id !in D
    {
      var i :| 0 <= i < |S| && S[i] == Except(S, L)[x];
      assert Has(S, S[i].id);
      if S[i].id in D { DeletedGone(history, j, k, S[i].id); }
    }
    OrderKeptExactly(history, j, k, n);
  }

  lemma FoldAppend(rows: seq<Row>, events: seq<Event>, e: Event)
    ensures Fold(rows, events + [e]) == Apply(Fold(rows, events), e)
  {
    assert (events + [e])[..|events|] == events;
  }

  lemma OnTwoRows(a: Row, b: Row)
    requires a.id != b.id
    ensures Apply([], Upsert(a)) == [a] && Apply([a], Delete(a.id)) == [] && Apply([a], Upsert(b)) == [a, b]
    ensures Apply([a, b], Delete(a.id)) == [b] && Apply([b, a], Upsert(b)) == [b, a]
  {
    RemoveAppend([], a, a.id);
    RemoveAppend([a], b, a.id);
    assert [] + [a] == [a] && [a] + [b] == [a, b] && Remove([], a.id) == [];
    assert [a][0].id == a.id && [b, a][0].id == b.id;
  }

  /** Revived mid-overlap, ahead of a newer row: the two trade places. */
  lemma RevivedRowMoves(a: Row, b: Row)
    requires a.id != b.id
    ensures var history := [Upsert(a), Delete(a.id), Upsert(a), Upsert(b)];
      Truth(history, 4) == [a, b] && Fold(Truth(history, 4), history[1..4]) == [b, a]
  {
    hide Fold, Apply;
    var first, overlap := [Upsert(a)], [Delete(a.id), Upsert(a), Upsert(b)];
    var history := first + overlap;
    OnTwoRows(a, b);
    OnTwoRows(b, a);
    Folded(overlap, a, b, [a, b]);
    Folded(overlap, a, b, [a]);
    assert history == [Upsert(a), Delete(a.id), Upsert(a), Upsert(b)];
    assert history[..4] == history && history[1..4] == overlap;
    FoldConcat([], first, overlap);
    FoldAppend([], [], Upsert(a));
    FoldNone([]);
    assert [] + first == first;
  }

  lemma FoldNone(rows: seq<Row>)
    ensures Fold(rows, []) == rows
  {
  }

  lemma Folded(overlap: seq<Event>, a: Row, b: Row, rows: seq<Row>)
    requires overlap == [Delete(a.id), Upsert(a), Upsert(b)]
    ensures Fold(rows, overlap) == Apply(Apply(Apply(rows, Delete(a.id)), Upsert(a)), Upsert(b))
  {
    hide Fold, Apply;
    FoldNone(rows);
    FoldAppend(rows, [], Delete(a.id));
    FoldAppend(rows, [Delete(a.id)], Upsert(a));
    FoldAppend(rows, [Delete(a.id), Upsert(a)], Upsert(b));
    assert [] + [Delete(a.id)] == [Delete(a.id)];
    assert [Delete(a.id)] + [Upsert(a)] == [Delete(a.id), Upsert(a)];
    assert [Delete(a.id), Upsert(a)] + [Upsert(b)] == overlap;
  }

  // -- the sequencer --------------------------------------------------------

  /** Buffer, then replay, then pass through. `rows` is the state the `commit`
      updater writes. */
  class Sync {
    var rows: seq<Row>
    var buffered: Option<seq<Event>>

    constructor (held: seq<Row>)
      ensures rows == held && buffered == Some([])
    {
      rows, buffered := held, Some([]);
    }

    method Push(e: Event)
      modifies this
      ensures old(buffered).Some? ==> buffered == Some(old(buffered).value + [e]) && rows == old(rows)
      ensures old(buffered).None? ==> buffered.None? && rows == Apply(old(rows), e)
    {
      if buffered.Some? {
        buffered := Some(buffered.value + [e]);
      } else {
        rows := Apply(rows, e);
      }
    }

    method Settle(snapshot: Option<seq<Row>>)
      modifies this
      ensures buffered.None?
      ensures rows == Fold(snapshot.GetOr(old(rows)), old(buffered).GetOr([]))
    {
      var pending := buffered.GetOr([]);
      buffered := None;
      var base := snapshot.GetOr(rows);
      var result := base;
      for i := 0 to |pending|
        invariant result == Fold(base, pending[..i])
      {
        assert pending[..i + 1][..i] == pending[..i];
        result := Apply(result, pending[i]);
      }
      assert pending[..|pending|] == pending;
      rows := result;
    }
  }

  /** Subscribed at `j`, with the events up to `m` in the buffer. */
  method Listening(held: seq<Row>, history: seq<Event>, j: nat, m: nat) returns (sync: Sync)
    requires j <= m <= |history|
    ensures fresh(sync) && sync.rows == held && sync.buffered == Some(history[j..m])
  {
    sync := new Sync(held);
    assert history[j..j] == [];
    for i := j to m
      invariant sync.rows == held && sync.buffered == Some(history[j..i])
    {
      sync.Push(history[i]);
      assert history[j..i] + [history[i]] == history[j..i + 1];
    }
  }

  /** Events passed through once settled. */
  method PassOn(sync: Sync, ghost base: seq<Row>, history: seq<Event>, ghost from: nat, m: nat, n: nat)
    requires from <= m <= n <= |history|
    requires sync.buffered.None? && sync.rows == Fold(base, history[from..m])
    modifies sync
    ensures sync.buffered.None? && sync.rows == Fold(base, history[from..n])
  {
    hide Fold, Apply;
    for i := m to n
      invariant sync.buffered.None? && sync.rows == Fold(base, history[from..i])
    {
      sync.Push(history[i]);
      FoldAppend(base, history[from..i], history[i]);
      assert history[from..i] + [history[i]] == history[from..i + 1];
    }
  }

  /** A whole load through the object: subscribed at `j`, snapshot read at `k`,
      settled after `m` of the events, observed to `n`. */
  method Load(held: seq<Row>, history: seq<Event>, j: nat, k: nat, m: nat, n: nat) returns (rows: seq<Row>)
    requires j <= k <= n <= |history| && j <= m <= n
    ensures forall id: Id :: Find(rows, id) == Find(Truth(history, n), id)
    ensures rows == Truth(history, n)
            <==> Trailing(Except(Truth(history, k), Deleted(history[k..n])), Deleted(history[j..k]))
    ensures NoRevival(history, j, k) ==> rows == Truth(history, n)
  {
    hide Find, Trailing, Except, Deleted, NoRevival, Apply, Fold, Truth;
    var sync := Listening(held, history, j, m);
    sync.Settle(Some(Truth(history, k)));
    PassOn(sync, Truth(history, k), history, j, m, n);
    rows := sync.rows;
    forall id: Id
      ensures Find(rows, id) == Find(Truth(history, n), id)
    {
      ReplayConverges(history, j, k, n, id);
    }
    OrderKeptExactly(history, j, k, n);
    if NoRevival(history, j, k) { ReplayExact(history, j, k, n); }
  }

  /** A load whose fetch failed: settled over the rows held. It ends right about
      an id exactly when an event was about it or the rows held were right. */
  method LoadUnfetched(held: seq<Row>, history: seq<Event>, j: nat, m: nat, n: nat) returns (rows: seq<Row>)
    requires j <= m <= n <= |history|
    ensures rows == Fold(held, history[j..n])
    ensures forall id: Id ::
              Find(rows, id) == Find(Truth(history, n), id)
              <==> Touches(history[j..n], id) || Find(held, id) == Find(Truth(history, j), id)
    ensures held == Truth(history, j) ==> rows == Truth(history, n)
  {
    hide Find, Touches, Apply, Fold, Truth;
    var sync := Listening(held, history, j, m);
    sync.Settle(None);
    PassOn(sync, held, history, j, m, n);
    rows := sync.rows;
    TruthExtends(history, j, n);
    forall id: Id
      ensures Find(rows, id) == Find(Truth(history, n), id)
              <==> Touches(history[j..n], id) || Find(held, id) == Find(Truth(history, j), id)
    {
      FindFolded(held, history[j..n], id);
      FindFolded(Truth(history, j), history[j..n], id);
      OutcomeTouched(history[j..n], id, Find(held, id), Find(Truth(history, j), id));
      OutcomeTouched(history[j..n], id, Find(Truth(history, j), id), Find(held, id));
    }
  }

  /** The snapshot is no older than the first `m` events, or a later event is
      about `id`, or the events the snapshot lacks left `id` as it has it. */
  predicate Recovers(history: seq<Event>, again: nat, m: nat, n: nat, id: Id)
    requires again <= n <= |history| && m <= n
  {
    || m <= again
    || Touches(history[m..n], id)
    || Outcome(history[again..m], id, Find(Truth(history, again), id)) == Find(Truth(history, again), id)
  }

  /** Settled again, after `m` events, with a snapshot taken at `again`, and
      observed to `n`, the rows are right about an id exactly when it recovers: the
      events the snapshot lacks were applied to rows the settle throws away. */
  lemma SecondSettle(history: seq<Event>, again: nat, m: nat, n: nat, id: Id)
    requires again <= n <= |history| && m <= n
    ensures Find(Fold(Truth(history, again), history[m..n]), id) == Find(Truth(history, n), id)
            <==> Recovers(history, again, m, n, id)
  {
    if m <= again {
      ReplayConverges(history, m, again, n, id);
    } else {
      var held, was := Find(Truth(history, again), id), Find(Truth(history, m), id);
      TruthExtends(history, again, m);
      TruthExtends(history, m, n);
      FindFolded(Truth(history, again), history[again..m], id);
      FindFolded(Truth(history, again), history[m..n], id);
      FindFolded(Truth(history, m), history[m..n], id);
      OutcomeTouched(history[m..n], id, held, was);
      OutcomeTouched(history[m..n], id, was, held);
    }
  }

  /** A snapshot older than an event already applied: the row is lost. */
  lemma StaleSnapshotLosesRow(a: Row)
    ensures var history := [Upsert(a)];
      && Truth(history, 1) == [a] && Fold(Truth(history, 0), history[1..1]) == []
      && !Recovers(history, 0, 1, 1, a.id)
  {
    hide Recovers, Apply, Fold, Find;
    var history := [Upsert(a)];
    assert history[..1] == [] + [Upsert(a)] && history[..0] == [] && history[1..1] == [];
    FoldNone([]);
    FoldAppend([], [], Upsert(a));
    AddedAtEnd([], a);
    assert [] + [a] == [a] && [a][0].id == a.id;
    SecondSettle(history, 0, 1, 1, a.id);
  }

  lemma AddedAtEnd(rows: seq<Row>, row: Row)
    ensures !Has(rows, row.id) ==> Apply(rows, Upsert(row)) == rows + [row]
  {
  }

  /** A load that settles twice: with the snapshot read at `k` after the first `m0`
      events, and again after `m` of them, with a snapshot read at `again` or, as
      after a failed fetch, with none. */
  method LoadSettledTwice(held: seq<Row>, history: seq<Event>, j: nat, k: nat, m0: nat, m: nat, again: Option<nat>, n: nat)
    returns (rows: seq<Row>)
    requires j <= k <= n <= |history| && j <= m0 <= m <= n && (again.Some? ==> again.value <= n)
    ensures again.None? ==> rows == Fold(Truth(history, k), history[j..n])
    ensures again.None? ==> forall id: Id :: Find(rows, id) == Find(Truth(history, n), id)
    ensures again.Some? ==> forall id: Id ::
              Find(rows, id) == Find(Truth(history, n), id)
              <==> Recovers(history, again.value, m, n, id)
    ensures again.Some? ==> rows == Fold(Truth(history, again.value), history[m..n])
    ensures again.Some? && m <= again.value ==>
              (rows == Truth(history, n)
               <==> Trailing(Except(Truth(history, again.value), Deleted(history[again.value..n])),
                             Deleted(history[m..again.value])))
  {
    hide Find, Recovers, Apply, Fold, Truth, Trailing, Except, Deleted;
    var sync := Listening(held, history, j, m0);
    sync.Settle(Some(Truth(history, k)));
    PassOn(sync, Truth(history, k), history, j, m0, m);
    ghost var from := if again.Some? then m else j;
    ghost var base := if again.Some? then Truth(history, again.value) else Truth(history, k);
    FoldNone(sync.rows);
    FoldNone(base);
    assert history[m..m] == [];
    sync.Settle(if again.Some? then Some(Truth(history, again.value)) else None);
    PassOn(sync, base, history, from, m, n);
    rows := sync.rows;
    if again.Some? {
      forall id: Id { SecondSettle(history, again.value, m, n, id); }
      if m <= again.value { OrderKeptExactly(history, m, again.value, n); }
    } else {
      forall id: Id { ReplayConverges(history, j, k, n, id); }
    }
  }

  // -- the one-row form -----------------------------------------------------

  type Value = Option<Body>

  /** The backend's value after `k` writes. */
  function Latest(first: Value, writes: seq<Value>, k: nat): Value
    requires k <= |writes|
  {
    if k == 0 then first else writes[k - 1]
  }

  class SingleSync {
    var held: Value
    var settled: bool
    var buffered: Option<Value>

    constructor (held: Value)
      ensures this.held == held && !settled && buffered.None?
    {
      this.held, settled, buffered := held, false, None;
    }

    method Push(value: Value)
      modifies this
      ensures settled == old(settled)
      ensures old(settled) ==> held == value && buffered == old(buffered)
      ensures !old(settled) ==> held == old(held) && buffered == Some(value)
    {
      if settled { held := value; } else { buffered := Some(value); }
    }

    method Settle(fetched: Option<Value>)
      modifies this
      ensures settled && buffered == old(buffered)
      ensures held == if buffered.Some? then buffered.value else fetched.GetOr(old(held))
    {
      settled := true;
      if buffered.Some? {
        held := buffered.value;
      } else if fetched.Some? {
        held := fetched.value;
      }
    }
  }

  /** Subscribed at `j`, settled after `m` of the writes over the value read at
      `k`, or over the one held when the fetch failed, and observed to `n`. */
  method SettledSingle(held: Value, first: Value, writes: seq<Value>, j: nat, k: Option<nat>, m: nat, n: nat)
    returns (sync: SingleSync)
    requires j <= m <= n <= |writes| && (k.Some? ==> k.value <= |writes|)
    ensures fresh(sync) && sync.settled
    ensures sync.buffered == if m == j then None else Some(writes[m - 1])
    ensures sync.held == if n > j then writes[n - 1] else if k.Some? then Latest(first, writes, k.value) else held
  {
    sync := new SingleSync(held);
    for i := j to m
      invariant sync.held == held && !sync.settled && sync.buffered == if i == j then None else Some(writes[i - 1])
    {
      sync.Push(writes[i]);
    }
    sync.Settle(if k.Some? then Some(Latest(first, writes, k.value)) else None);
    for i := m to n
      invariant sync.settled && sync.buffered == if m == j then None else Some(writes[m - 1])
      invariant sync.held == if i > j then writes[i - 1] else if k.Some? then Latest(first, writes, k.value) else held
    {
      sync.Push(writes[i]);
    }
  }

  /** The one-row load converges on every run of writes, a release included. */
  method LoadSingle(held: Value, first: Value, writes: seq<Value>, j: nat, k: nat, m: nat, n: nat) returns (value: Value)
    requires j <= k <= n <= |writes| && j <= m <= n
    ensures value == Latest(first, writes, n)
  {
    var sync := SettledSingle(held, first, writes, j, Some(k), m, n);
    value := sync.held;
  }

  /** A write follows, or what the second settle commits is the newest value: the
      last one buffered, which the first settle left in the buffer; with nothing
      buffered, what it fetched, if anything. */
  predicate SingleRecovers(first: Value, writes: seq<Value>, j: nat, m0: nat, m: nat, again: Option<nat>, n: nat)
    requires j <= m0 <= m <= n <= |writes| && (again.Some? ==> again.value <= |writes|)
  {
    || m < n
    || (m0 > j && writes[m0 - 1] == Latest(first, writes, n))
    || (m0 == j && (again.None? || Latest(first, writes, again.value) == Latest(first, writes, n)))
  }

  /** Settled a second time, after `m` of the writes, the one-row load ends at the
      newest value exactly when it recovers. */
  method LoadSingleTwice(held: Value, first: Value, writes: seq<Value>, j: nat, k: nat, m0: nat, m: nat, again: Option<nat>, n: nat)
    returns (value: Value)
    requires j <= k <= n <= |writes| && j <= m0 <= m <= n && (again.Some? ==> again.value <= n)
    ensures value == Latest(first, writes, n) <==> SingleRecovers(first, writes, j, m0, m, again, n)
  {
    var sync := SettledSingle(held, first, writes, j, Some(k), m0, m);
    sync.Settle(if again.Some? then Some(Latest(first, writes, again.value)) else None);
    ghost var restored := sync.held;
    for i := m to n
      invariant sync.settled && sync.held == if i == m then restored else writes[i - 1]
    {
      sync.Push(writes[i]);
    }
    value := sync.held;
  }

  /** A value that arrived while the fetch was in flight is committed again, over
      the newer one: a release (`y` gone) is undone. */
  method SecondSettleBringsBack(held: Value, x: Value, y: Value) returns (value: Value)
    requires x != y
    ensures value == x != Latest(held, [x, y], 2)
    ensures !SingleRecovers(held, [x, y], 0, 1, 2, None, 2)
  {
    var sync := new SingleSync(held);
    sync.Push(x);
    sync.Settle(None);
    sync.Push(y);
    sync.Settle(None);
    value := sync.held;
  }
}
