/** The turns one page of history can place (src/helpers/mergeTurns.ts:149-165). */
module PageTurns {
  import opened Common
  import opened MergeTurns

  datatype Record = Record(session: Option<string>, number: int)

  /** Record `i` is the session's first. */
  predicate Opens(records: seq<Record>, session: Option<string>, i: int) {
    0 <= i < |records| && records[i].session == session && forall j :: 0 <= j < i ==> records[j].session != session
  }

  /** The number of the page's first record of the session. */
  function FirstOf(records: seq<Record>, session: Option<string>): (first: Option<int>)
    ensures first.None? <==> forall i :: 0 <= i < |records| ==> records[i].session != session
    ensures first.Some? ==> exists i :: Opens(records, session, i) && records[i].number == first.value
  {
    if records == [] then None
    else
      var earlier := FirstOf(records[..|records| - 1], session);
      var last := records[|records| - 1];
      assert forall i :: Opens(records[..|records| - 1], session, i) ==> Opens(records, session, i) && records[i] == records[..|records| - 1][i];
      assert earlier.None? && last.session == session ==> Opens(records, session, |records| - 1);
      if earlier.Some? then earlier else if last.session == session then Some(last.number) else None
  }

  predicate OnPage(records: seq<Record>, t: UserTurn) {
    if t.position.None? then true
    else
      var from := FirstOf(records, t.session);
      if from.None? then !t.inherited else t.position.value >= from.value
  }

  function Placeable(records: seq<Record>, turns: seq<UserTurn>, upto: nat): seq<UserTurn>
    requires upto <= |turns|
  {
    if upto == 0 then []
    else Placeable(records, turns, upto - 1) + if OnPage(records, turns[upto - 1]) then [turns[upto - 1]] else []
  }

  method TurnsOnPage(turns: seq<UserTurn>, records: seq<Record>) returns (placed: seq<UserTurn>)
    ensures placed == Placeable(records, turns, |turns|)
  {
    var first: map<Option<string>, int> := map[];
    for i := 0 to |records|
      invariant forall s :: s in first <==> FirstOf(records[..i], s).Some?
      invariant forall s :: s in first ==> FirstOf(records[..i], s) == Some(first[s])
    {
      assert records[..i + 1][..i] == records[..i];
      var r := records[i];
      if r.session !in first { first := first[r.session := r.number]; }
    }
    assert records[..|records|] == records;
    placed := [];
    for k := 0 to |turns|
      invariant placed == Placeable(records, turns, k)
    {
      var t := turns[k];
      var kept := if t.position.None? then true
                  else if t.session !in first then !t.inherited
                  else t.position.value >= first[t.session];
      if kept { placed := placed + [t]; }
    }
  }

  /** The placed turns are the ones the page can place, each once and in order. */
  lemma {:induction false} KeepsThePlaced(records: seq<Record>, turns: seq<UserTurn>, upto: nat) returns (at: seq<nat>)
    requires upto <= |turns|
    ensures |at| == |Placeable(records, turns, upto)|
    ensures forall x :: 0 <= x < |at| ==> at[x] < upto && Placeable(records, turns, upto)[x] == turns[at[x]]
    ensures forall x, y :: 0 <= x < y < |at| ==> at[x] < at[y]
    ensures forall k :: 0 <= k < upto ==> (k in at <==> OnPage(records, turns[k]))
  {
    hide OnPage;
    at := [];
    if upto > 0 {
      at := KeepsThePlaced(records, turns, upto - 1);
      if OnPage(records, turns[upto - 1]) { at := at + [upto - 1]; }
    }
  }

  /** A session's records are read in ascending order. */
  predicate Ascending(records: seq<Record>, session: Option<string>) {
    forall i, j :: 0 <= i < j < |records| && records[i].session == session && records[j].session == session
      ==> records[i].number <= records[j].number
  }

  /** A turn is placed on the page exactly when it has no position; or the page
      holds a record of its session at or before it; or, holding none of its
      session, the turn is the agent's own. */
  lemma PlacedExactly(records: seq<Record>, t: UserTurn)
    requires Ascending(records, t.session)
    ensures OnPage(records, t) <==>
            || t.position.None?
            || (exists i :: 0 <= i < |records| && records[i].session == t.session && records[i].number <= t.position.value)
            || ((forall i :: 0 <= i < |records| ==> records[i].session != t.session) && !t.inherited)
  {
    hide FirstOf;
  }

  /** Reading an older page in front loses no turn whose session the page shows. */
  lemma OlderPagesOnlyAdd(older: seq<Record>, records: seq<Record>, t: UserTurn)
    requires t.position.Some? ==> Ascending(older + records, t.session) && FirstOf(records, t.session).Some?
    requires OnPage(records, t)
    ensures OnPage(older + records, t)
  {
    if t.position.Some? {
      var all := older + records;
      assert forall i :: 0 <= i < |records| ==> all[i + |older|] == records[i];
      assert Ascending(records, t.session) by {
        forall i, j | 0 <= i < j < |records| && records[i].session == t.session && records[j].session == t.session
          ensures records[i].number <= records[j].number
        {
          assert all[i + |older|].number <= all[j + |older|].number;
        }
      }
      PlacedExactly(records, t);
      var i :| 0 <= i < |records| && records[i].session == t.session && records[i].number <= t.position.value;
      assert all[i + |older|].session == t.session;
      PlacedExactly(all, t);
    }
  }
}
