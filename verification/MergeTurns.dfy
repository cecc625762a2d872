/** Merging the user's turn rows into a log reduced from session records
    (src/helpers/mergeTurns.ts). */
module MergeTurns {
  import opened Common
  import opened ChatLog

  datatype UserTurn = UserTurn(
    id: TurnId,
    session: Option<string>,
    text: string,
    attachments: seq<string>,
    nativeId: Option<string>,
    timing: Timing,
    outcome: Option<Outcome>,
    position: Option<int>,
    inherited: bool)

  /** JavaScript truth of a string that may be null. */
  predicate Truthy(s: Option<string>) {
    s.Some? && s.value != ""
  }

  // -- drawing one turn -----------------------------------------------------

  predicate IsUserMessage(it: Item) {
    it.body.UserMessage?
  }

  function Later(newer: Option<int>, older: Option<int>): Option<int> {
    if newer.Some? then newer else older
  }

  /** The turn's metadata laid over the bubble it belongs to. */
  function OverlayTurn(it: Item, t: UserTurn): (r: Item)
    requires IsUserMessage(it)
    ensures IsUserMessage(r) && r.stamp == it.stamp && TurnOf(r) == Some(t.id)
    ensures r.body.text <= it.body.text && (t.attachments == [] ==> r.body.text == it.body.text)
  {
    var own := it.body.timing;
    var timing := Timing(Later(t.timing.startedAt, own.startedAt), Later(t.timing.endedAt, own.endedAt),
                         if t.timing.runMs.GetOr(0) != 0 then t.timing.runMs else own.runMs);
    var typed := t.attachments != [] && t.text <= it.body.text;
    it.(body := UserMessage(if typed then t.text else it.body.text, Some(t.id),
                            if t.attachments != [] then t.attachments else it.body.attachments,
                            timing, it.body.undelivered))
  }

  function TurnBubble(t: UserTurn): (r: Item)
    ensures TurnOf(r) == Some(t.id) && r.stamp.None?
  {
    var it := OverlayTurn(Item(UserMessage(t.text, None, [], NO_TIMING, None), None), t);
    if !Truthy(t.nativeId) && (t.outcome == Some(Interrupted) || t.outcome == Some(Failed))
    then it.(body := it.body.(undelivered := t.outcome)) else it
  }

  function UnplacedBubble(items: seq<Item>, t: UserTurn): (r: Option<Item>)
    ensures r.Some? <==> t.timing.endedAt.None? && !HasSentTurn(items, t.id)
    ensures r.Some? ==> TurnOf(r.value) == Some(t.id)
                        && (r.value.body.QueuedMessage? <==> t.timing.startedAt.None? && t.outcome.None?)
  {
    if t.timing.endedAt.Some? || HasSentTurn(items, t.id) then None
    else if t.timing.startedAt.Some? || t.outcome.Some? then Some(TurnBubble(t))
    else Some(SentTurnBubble(t.id, t.text, t.attachments, true))
  }

  // -- where a turn goes ----------------------------------------------------

  /** A record's name in a stitched history; no session reads as the empty one. */
  function RecordKey(session: Option<string>, number: int): (string, int) {
    (session.GetOr(""), number)
  }

  predicate Keyed(it: Item, key: (string, int)) {
    it.stamp.Some? && RecordKey(it.stamp.value.session, it.stamp.value.number) == key
  }

  /** The first bubble reduced from the record `key`. */
  function PromptAt(items: seq<Item>, key: (string, int)): (at: Option<nat>)
    ensures at.Some? ==> at.value < |items| && IsUserMessage(items[at.value]) && Keyed(items[at.value], key)
    ensures at.None? ==> forall i :: 0 <= i < |items| ==> !(IsUserMessage(items[i]) && Keyed(items[i], key))
  {
    if items == [] then None
    else
      var earlier := PromptAt(items[..|items| - 1], key);
      var last := items[|items| - 1];
      if earlier.Some? then earlier
      else if IsUserMessage(last) && Keyed(last, key) then Some(|items| - 1) else None
  }

  /** The adapter drew the record as a notice. */
  predicate Noticed(items: seq<Item>, key: (string, int)) {
    exists i :: 0 <= i < |items| && items[i].body.Notice? && Keyed(items[i], key)
  }

  predicate InSession(it: Item, session: Option<string>) {
    it.stamp.Some? && it.stamp.value.session == session
  }

  /** Just before the first item of the session at or past `position`, or after
      the session's last item, or at the end when it has none. */
  function SlotOf(items: seq<Item>, session: Option<string>, position: int): (slot: nat)
    ensures slot <= |items|
    ensures forall i :: 0 <= i < slot && i < |items| && InSession(items[i], session) ==> items[i].stamp.value.number < position
  {
    SlotFrom(items, session, position, 0)
  }

  function LastOf(items: seq<Item>, session: Option<string>): (last: Option<nat>)
    ensures last.Some? ==> last.value < |items| && InSession(items[last.value], session)
    ensures last.Some? ==> forall i :: last.value < i < |items| ==> !InSession(items[i], session)
    ensures last.None? ==> forall i :: 0 <= i < |items| ==> !InSession(items[i], session)
  {
    if items == [] then None
    else if InSession(items[|items| - 1], session) then Some(|items| - 1)
    else LastOf(items[..|items| - 1], session)
  }

  function SlotFrom(items: seq<Item>, session: Option<string>, position: int, from: nat): (slot: nat)
    requires from <= |items|
    requires forall i :: 0 <= i < from && InSession(items[i], session) ==> items[i].stamp.value.number < position
    ensures slot <= |items|
    ensures forall i :: 0 <= i < slot && i < |items| && InSession(items[i], session) ==> items[i].stamp.value.number < position
    ensures (slot < |items| && InSession(items[slot], session) && items[slot].stamp.value.number >= position)
            || ((forall i :: 0 <= i < |items| && InSession(items[i], session) ==> items[i].stamp.value.number < position)
                && slot == if LastOf(items, session).Some? then LastOf(items, session).value + 1 else |items|)
    decreases |items| - from
  {
    if from == |items| then
      (if LastOf(items, session).Some? then LastOf(items, session).value + 1 else |items|)
    else if InSession(items[from], session) && items[from].stamp.value.number >= position then from
    else SlotFrom(items, session, position, from + 1)
  }

  /** The prompt a turn is paired with, if the log draws it as a bubble. */
  function Target(items: seq<Item>, t: UserTurn): (at: Option<nat>)
    ensures at.Some? ==> at.value < |items| && IsUserMessage(items[at.value])
  {
    if t.position.Some? && Truthy(t.nativeId) then PromptAt(items, RecordKey(t.session, t.position.value)) else None
  }

  /** The turn that claims prompt `at`: the first one paired with it. */
  function Claimant(items: seq<Item>, turns: seq<UserTurn>, at: nat): (k: Option<nat>)
    ensures k.Some? ==> k.value < |turns| && Target(items, turns[k.value]) == Some(at)
    ensures k.Some? ==> forall j :: 0 <= j < k.value ==> Target(items, turns[j]) != Some(at)
    ensures k.None? ==> forall j :: 0 <= j < |turns| ==> Target(items, turns[j]) != Some(at)
  {
    if turns == [] then None
    else
      var earlier := Claimant(items, turns[..|turns| - 1], at);
      if earlier.Some? then earlier
      else if Target(items, turns[|turns| - 1]) == Some(at) then Some(|turns| - 1) else None
  }

  datatype Place = Overlaid(at: nat) | Inserted(slot: nat) | AtEnd(bubble: Item) | Nowhere

  /** What becomes of the turn `k`. */
  function PlaceOf(items: seq<Item>, turns: seq<UserTurn>, k: nat): (p: Place)
    requires k < |turns|
    ensures p.Inserted? ==> p.slot <= |items|
    ensures p.Overlaid? ==> p.at < |items| && IsUserMessage(items[p.at])
  {
    var t := turns[k];
    if t.position.None? then
      var bubble := UnplacedBubble(items, t);
      if bubble.Some? then AtEnd(bubble.value) else Nowhere
    else
      var at := Target(items, t);
      if at.Some? && Claimant(items, turns[..k], at.value).None? then Overlaid(at.value)
      else if Truthy(t.nativeId) && Noticed(items, RecordKey(t.session, t.position.value)) then Nowhere
      else Inserted(SlotOf(items, t.session, t.position.value))
  }

  // -- the merged log, piece by piece ---------------------------------------

  /** What stands at one place of the merged log: item `i` of the input, or the
      bubble of turn `k`, inserted or at the end. */
  datatype Piece = Kept(i: nat) | Bubble(k: nat) | Tail(k: nat)

  /** The turns inserted at `slot`, in turn order. */
  function BubblesAt(items: seq<Item>, turns: seq<UserTurn>, slot: nat, upto: nat): (ps: seq<Piece>)
    requires upto <= |turns|
    ensures forall x :: 0 <= x < |ps| ==> Belongs(items, turns, ps[x])
  {
    if upto == 0 then []
    else
      BubblesAt(items, turns, slot, upto - 1)
      + if PlaceOf(items, turns, upto - 1) == Inserted(slot) then [Bubble(upto - 1)] else []
  }

  function Tails(items: seq<Item>, turns: seq<UserTurn>, upto: nat): (ps: seq<Piece>)
    requires upto <= |turns|
    ensures forall x :: 0 <= x < |ps| ==> Belongs(items, turns, ps[x])
  {
    if upto == 0 then []
    else
      Tails(items, turns, upto - 1) + if PlaceOf(items, turns, upto - 1).AtEnd? then [Tail(upto - 1)] else []
  }

  function Front(items: seq<Item>, turns: seq<UserTurn>, upto: nat): (ps: seq<Piece>)
    requires upto <= |items|
    ensures forall x :: 0 <= x < |ps| ==> Belongs(items, turns, ps[x])
  {
    if upto == 0 then []
    else Front(items, turns, upto - 1) + BubblesAt(items, turns, upto - 1, |turns|) + [Kept(upto - 1)]
  }

  function Layout(items: seq<Item>, turns: seq<UserTurn>): (ps: seq<Piece>)
    ensures forall x :: 0 <= x < |ps| ==> Belongs(items, turns, ps[x])
  {
    Front(items, turns, |items|) + BubblesAt(items, turns, |items|, |turns|) + Tails(items, turns, |turns|)
  }

  predicate Belongs(items: seq<Item>, turns: seq<UserTurn>, p: Piece) {
    match p
    case Kept(i) => i < |items|
    case Bubble(k) => k < |turns| && PlaceOf(items, turns, k).Inserted?
    case Tail(k) => k < |turns| && PlaceOf(items, turns, k).AtEnd?
  }

  /** Item `i` under the metadata of the turns among `turns` that claim it. */
  function Shown(items: seq<Item>, turns: seq<UserTurn>, i: nat): (it: Item)
    requires i < |items|
    ensures it.stamp == items[i].stamp
    ensures Claimant(items, turns, i).None? ==> it == items[i]
    ensures Claimant(items, turns, i).Some? ==> TurnOf(it) == Some(turns[Claimant(items, turns, i).value].id)
  {
    var k := Claimant(items, turns, i);
    if k.Some? then OverlayTurn(items[i], turns[k.value]) else items[i]
  }

  function Draw(items: seq<Item>, turns: seq<UserTurn>, p: Piece): Item
    requires Belongs(items, turns, p)
  {
    match p
    case Kept(i) => Shown(items, turns, i)
    case Bubble(k) => TurnBubble(turns[k])
    case Tail(k) => PlaceOf(items, turns, k).bubble
  }

  // -- the order of the pieces ----------------------------------------------

  function SlotOfPiece(items: seq<Item>, turns: seq<UserTurn>, p: Piece): nat
    requires Belongs(items, turns, p)
  {
    match p
    case Kept(i) => i
    case Bubble(k) => PlaceOf(items, turns, k).slot
    case Tail(_) => |items|
  }

  /** The order every merged log is in: by slot; in one slot the bubbles, in turn
      order, ahead of the item; the tail bubbles last, in turn order. */
  predicate Before(items: seq<Item>, turns: seq<UserTurn>, p: Piece, q: Piece)
    requires Belongs(items, turns, p) && Belongs(items, turns, q)
  {
    if p.Tail? || q.Tail? then !p.Tail? || (q.Tail? && p.k < q.k)
    else
      var a, b := SlotOfPiece(items, turns, p), SlotOfPiece(items, turns, q);
      a < b || (a == b && p.Bubble? && (q.Kept? || p.k < q.k))
  }

  predicate Sorted(items: seq<Item>, turns: seq<UserTurn>, ps: seq<Piece>) {
    && (forall x :: 0 <= x < |ps| ==> Belongs(items, turns, ps[x]))
    && (forall x, y :: 0 <= x < y < |ps| ==> Before(items, turns, ps[x], ps[y]))
  }

  predicate Follows(items: seq<Item>, turns: seq<UserTurn>, ps: seq<Piece>, qs: seq<Piece>) {
    Sorted(items, turns, ps) && Sorted(items, turns, qs)
    && forall x, y :: 0 <= x < |ps| && 0 <= y < |qs| ==> Before(items, turns, ps[x], qs[y])
  }

  lemma SortedConcat(items: seq<Item>, turns: seq<UserTurn>, ps: seq<Piece>, qs: seq<Piece>)
    requires Follows(items, turns, ps, qs)
    ensures Sorted(items, turns, ps + qs)
  {
    hide PlaceOf;
  }

  /** Pieces of smaller slots come before pieces of the slot `slot`. */
  lemma SlotsFollow(items: seq<Item>, turns: seq<UserTurn>, ps: seq<Piece>, qs: seq<Piece>, slot: nat)
    requires Sorted(items, turns, ps) && Sorted(items, turns, qs)
    requires forall p :: p in ps ==> Belongs(items, turns, p) && !p.Tail? && SlotOfPiece(items, turns, p) < slot
    requires forall q :: q in qs ==> q.Tail? || (Belongs(items, turns, q) && SlotOfPiece(items, turns, q) == slot)
    ensures Follows(items, turns, ps, qs)
  {
    hide PlaceOf;
    forall x, y | 0 <= x < |ps| && 0 <= y < |qs|
      ensures Before(items, turns, ps[x], qs[y])
    {
      assert ps[x] in ps && qs[y] in qs;
    }
  }

  lemma {:induction false} BubblesSorted(items: seq<Item>, turns: seq<UserTurn>, slot: nat, upto: nat)
    requires upto <= |turns|
    ensures Sorted(items, turns, BubblesAt(items, turns, slot, upto))
    ensures forall p :: p in BubblesAt(items, turns, slot, upto) <==>
                          p.Bubble? && p.k < upto && PlaceOf(items, turns, p.k) == Inserted(slot)
  {
    hide PlaceOf;
    if upto > 0 {
      BubblesSorted(items, turns, slot, upto - 1);
      if PlaceOf(items, turns, upto - 1) == Inserted(slot) {
        var ps := BubblesAt(items, turns, slot, upto - 1);
        assert forall x :: 0 <= x < |ps| ==> ps[x] in ps;
        SortedConcat(items, turns, ps, [Bubble(upto - 1)]);
      } else {
        assert BubblesAt(items, turns, slot, upto) == BubblesAt(items, turns, slot, upto - 1);
      }
    }
  }

  lemma {:induction false} TailsSorted(items: seq<Item>, turns: seq<UserTurn>, upto: nat)
    requires upto <= |turns|
    ensures Sorted(items, turns, Tails(items, turns, upto))
    ensures forall p :: p in Tails(items, turns, upto) <==> p.Tail? && p.k < upto && PlaceOf(items, turns, p.k).AtEnd?
  {
    hide PlaceOf;
    if upto > 0 {
      TailsSorted(items, turns, upto - 1);
      if PlaceOf(items, turns, upto - 1).AtEnd? {
        var ps := Tails(items, turns, upto - 1);
        assert forall x :: 0 <= x < |ps| ==> ps[x] in ps;
        SortedConcat(items, turns, ps, [Tail(upto - 1)]);
      } else {
        assert Tails(items, turns, upto) == Tails(items, turns, upto - 1);
      }
    }
  }

  lemma {:induction false} FrontSorted(items: seq<Item>, turns: seq<UserTurn>, upto: nat)
    requires upto <= |items|
    ensures Sorted(items, turns, Front(items, turns, upto))
    ensures forall p :: p in Front(items, turns, upto) <==>
                          !p.Tail? && Belongs(items, turns, p) && SlotOfPiece(items, turns, p) < upto
  {
    hide PlaceOf;
    if upto > 0 {
      var front, bubbles := Front(items, turns, upto - 1), BubblesAt(items, turns, upto - 1, |turns|);
      FrontSorted(items, turns, upto - 1);
      BubblesSorted(items, turns, upto - 1, |turns|);
      SlotsFollow(items, turns, front, bubbles, upto - 1);
      SortedConcat(items, turns, front, bubbles);
      SortedConcat(items, turns, front + bubbles, [Kept(upto - 1)]);
    }
  }

  /** The merged log holds each piece that belongs, and is in order: it is the
      one sorted listing of them. */
  lemma LayoutSorted(items: seq<Item>, turns: seq<UserTurn>)
    ensures Sorted(items, turns, Layout(items, turns))
    ensures forall p :: p in Layout(items, turns) <==> Belongs(items, turns, p)
  {
    hide PlaceOf;
    var front, last, tail := Front(items, turns, |items|), BubblesAt(items, turns, |items|, |turns|), Tails(items, turns, |turns|);
    FrontSorted(items, turns, |items|);
    BubblesSorted(items, turns, |items|, |turns|);
    TailsSorted(items, turns, |turns|);
    SlotsFollow(items, turns, front, last, |items|);
    SortedConcat(items, turns, front, last);
    SortedConcat(items, turns, front + last, tail);
    forall p
      ensures p in Layout(items, turns) <==> Belongs(items, turns, p)
    {
      if Belongs(items, turns, p) { PlaceBounds(items, turns, p); }
    }
  }

  lemma PlaceBounds(items: seq<Item>, turns: seq<UserTurn>, p: Piece)
    requires Belongs(items, turns, p)
    ensures SlotOfPiece(items, turns, p) <= |items|
  {
  }

  function Drawn(items: seq<Item>, turns: seq<UserTurn>, ps: seq<Piece>): (r: seq<Item>)
    requires forall x :: 0 <= x < |ps| ==> Belongs(items, turns, ps[x])
    ensures |r| == |ps|
  {
    seq(|ps|, x requires 0 <= x < |ps| => Draw(items, turns, ps[x]))
  }

  lemma DrawnConcat(items: seq<Item>, turns: seq<UserTurn>, ps: seq<Piece>, qs: seq<Piece>)
    requires forall x :: 0 <= x < |ps| ==> Belongs(items, turns, ps[x])
    requires forall x :: 0 <= x < |qs| ==> Belongs(items, turns, qs[x])
    ensures Drawn(items, turns, ps + qs) == Drawn(items, turns, ps) + Drawn(items, turns, qs)
  {
    hide Draw, Belongs;
  }

  /** The merged log. */
  function Merged(items: seq<Item>, turns: seq<UserTurn>): (r: seq<Item>)
    ensures |r| == |Layout(items, turns)|
  {
    Drawn(items, turns, Layout(items, turns))
  }

  // -- the code -------------------------------------------------------------

  /** The indices of a session's items among the first `upto`. */
  function IndicesOf(items: seq<Item>, session: Option<string>, upto: nat): (idxs: seq<nat>)
    requires upto <= |items|
    ensures forall x :: 0 <= x < |idxs| ==> idxs[x] < upto && InSession(items[idxs[x]], session)
    ensures forall i :: 0 <= i < upto && InSession(items[i], session) ==> i in idxs
    ensures forall x, y :: 0 <= x < y < |idxs| ==> idxs[x] < idxs[y]
  {
    if upto == 0 then []
    else
      IndicesOf(items, session, upto - 1) + if InSession(items[upto - 1], session) then [upto - 1] else []
  }

  /** The table of prompts by record. */
  ghost predicate PromptTable(items: seq<Item>, prompts: map<(string, int), nat>) {
    forall key :: (key in prompts <==> PromptAt(items, key).Some?) && (key in prompts ==> PromptAt(items, key) == Some(prompts[key]))
  }

  /** The records drawn as notices. */
  ghost predicate NoticeTable(items: seq<Item>, noticed: set<(string, int)>) {
    forall key :: key in noticed <==> Noticed(items, key)
  }

  ghost predicate SessionRow(items: seq<Item>, bySession: map<Option<string>, seq<nat>>, s: Option<string>) {
    var idxs := IndicesOf(items, s, |items|);
    (s in bySession <==> idxs != []) && (s in bySession ==> bySession[s] == idxs)
  }

  /** Each session's items. */
  ghost predicate SessionTable(items: seq<Item>, bySession: map<Option<string>, seq<nat>>) {
    forall s :: SessionRow(items, bySession, s)
  }

  method Index(items: seq<Item>)
    returns (prompts: map<(string, int), nat>, noticed: set<(string, int)>, bySession: map<Option<string>, seq<nat>>)
    ensures PromptTable(items, prompts) && NoticeTable(items, noticed) && SessionTable(items, bySession)
  {
    hide PromptTable, NoticeTable, SessionTable, RecordKey;
    prompts, noticed, bySession := map[], {}, map[];
    assert items[..0] == [];
    NoTables();
    for i := 0 to |items|
      invariant PromptTable(items[..i], prompts)
      invariant NoticeTable(items[..i], noticed)
      invariant SessionTable(items[..i], bySession)
    {
      var it := items[i];
      assert items[..i + 1] == items[..i] + [it];
      PromptStep(items[..i], it, prompts);
      NoticeStep(items[..i], it, noticed);
      SessionStep(items[..i], it, bySession);
      if it.stamp.Some? {
        var stamp := it.stamp.value;
        var idxs := if stamp.session in bySession then bySession[stamp.session] else [];
        bySession := bySession[stamp.session := idxs + [i]];
        var key := RecordKey(stamp.session, stamp.number);
        if it.body.Notice? { noticed := noticed + {key}; }
        if IsUserMessage(it) && key !in prompts { prompts := prompts[key := i]; }
      }
    }
    assert items[..|items|] == items;
  }

  lemma NoTables()
    ensures PromptTable([], map[]) && NoticeTable([], {}) && SessionTable([], map[])
  {
  }

  lemma PromptStep(items: seq<Item>, it: Item, prompts: map<(string, int), nat>)
    requires PromptTable(items, prompts)
    ensures it.stamp.None? || !IsUserMessage(it) ==> PromptTable(items + [it], prompts)
    ensures it.stamp.Some? && IsUserMessage(it) ==>
      var key := RecordKey(it.stamp.value.session, it.stamp.value.number);
      PromptTable(items + [it], if key in prompts then prompts else prompts[key := |items|])
  {
    hide RecordKey;
    assert (items + [it])[..|items|] == items;
  }

  lemma NoticeStep(items: seq<Item>, it: Item, noticed: set<(string, int)>)
    requires NoticeTable(items, noticed)
    ensures it.stamp.None? || !it.body.Notice? ==> NoticeTable(items + [it], noticed)
    ensures it.stamp.Some? && it.body.Notice? ==>
      NoticeTable(items + [it], noticed + {RecordKey(it.stamp.value.session, it.stamp.value.number)})
  {
    hide RecordKey, NoticeTable, Noticed;
    forall key
      ensures Noticed(items + [it], key) <==> Noticed(items, key) || (it.body.Notice? && Keyed(it, key))
    {
      OneMoreNotice(items, it, key);
    }
    NoticesOnly(items, it, noticed);
  }

  lemma NoticesOnly(items: seq<Item>, it: Item, noticed: set<(string, int)>)
    requires NoticeTable(items, noticed)
    requires forall key :: Noticed(items + [it], key) <==> Noticed(items, key) || (it.body.Notice? && Keyed(it, key))
    ensures it.stamp.None? || !it.body.Notice? ==> NoticeTable(items + [it], noticed)
    ensures it.stamp.Some? && it.body.Notice? ==>
      NoticeTable(items + [it], noticed + {RecordKey(it.stamp.value.session, it.stamp.value.number)})
  {
    hide RecordKey, Noticed;
  }

  lemma OneMoreNotice(items: seq<Item>, it: Item, key: (string, int))
    ensures Noticed(items + [it], key) <==> Noticed(items, key) || (it.body.Notice? && Keyed(it, key))
  {
    if Noticed(items, key) {
      var i :| 0 <= i < |items| && items[i].body.Notice? && Keyed(items[i], key);
      assert (items + [it])[i] == items[i];
    }
    assert (items + [it])[|items|] == it;
  }

  lemma SessionStep(items: seq<Item>, it: Item, bySession: map<Option<string>, seq<nat>>)
    requires SessionTable(items, bySession)
    ensures it.stamp.None? ==> SessionTable(items + [it], bySession)
    ensures it.stamp.Some? ==>
      var session := it.stamp.value.session;
      var idxs := if session in bySession then bySession[session] else [];
      SessionTable(items + [it], bySession[session := idxs + [|items|]])
  {
    hide IndicesOf;
    forall s
      ensures IndicesOf(items + [it], s, |items + [it]|) == IndicesOf(items, s, |items|) + if InSession(it, s) then [|items|] else []
    {
      OneMoreIndex(items, it, s);
    }
    var grown := items + [it];
    var after := if it.stamp.None? then bySession
                 else var s := it.stamp.value.session;
                      bySession[s := (if s in bySession then bySession[s] else []) + [|items|]];
    forall s ensures SessionRow(grown, after, s) {
      assert SessionRow(items, bySession, s);
    }
  }

  lemma OneMoreIndex(items: seq<Item>, it: Item, s: Option<string>)
    ensures IndicesOf(items + [it], s, |items + [it]|) == IndicesOf(items, s, |items|) + if InSession(it, s) then [|items|] else []
  {
    SameIndices(items, it, s, |items|);
  }

  lemma {:induction false} SameIndices(items: seq<Item>, it: Item, s: Option<string>, upto: nat)
    requires upto <= |items|
    ensures IndicesOf(items + [it], s, upto) == IndicesOf(items, s, upto)
  {
    if upto > 0 { SameIndices(items, it, s, upto - 1); }
  }

  /** `slotOf`, over the session's indices. */
  method FindSlot(items: seq<Item>, bySession: map<Option<string>, seq<nat>>, session: Option<string>, position: int)
    returns (slot: nat)
    requires SessionRow(items, bySession, session)
    ensures slot == SlotOf(items, session, position)
  {
    hide SlotOf, IndicesOf;
    if session !in bySession {
      SlotUnique(items, session, position, |items|);
      return |items|;
    }
    var idxs := bySession[session];
    for x := 0 to |idxs|
      invariant forall y :: 0 <= y < x ==> items[idxs[y]].stamp.value.number < position
    {
      if items[idxs[x]].stamp.value.number >= position {
        FirstHit(items, session, position, x);
        SlotUnique(items, session, position, idxs[x]);
        return idxs[x];
      }
    }
    slot := idxs[|idxs| - 1] + 1;
    LastIndex(items, session, position);
    SlotUnique(items, session, position, slot);
  }

  lemma FirstHit(items: seq<Item>, session: Option<string>, position: int, x: nat)
    requires var idxs := IndicesOf(items, session, |items|);
      x < |idxs| && forall y :: 0 <= y < x ==> items[idxs[y]].stamp.value.number < position
    ensures var idxs := IndicesOf(items, session, |items|);
      forall i :: 0 <= i < idxs[x] && InSession(items[i], session) ==> items[i].stamp.value.number < position
  {
    hide IndicesOf;
    var idxs := IndicesOf(items, session, |items|);
    forall i | 0 <= i < idxs[x] && InSession(items[i], session)
      ensures items[i].stamp.value.number < position
    {
      assert i in idxs;
      var y :| 0 <= y < |idxs| && idxs[y] == i;
      assert y < x;
    }
  }

  lemma LastIndex(items: seq<Item>, session: Option<string>, position: int)
    requires var idxs := IndicesOf(items, session, |items|);
      idxs != [] && forall y :: 0 <= y < |idxs| ==> items[idxs[y]].stamp.value.number < position
    ensures var idxs := IndicesOf(items, session, |items|); LastOf(items, session) == Some(idxs[|idxs| - 1])
    ensures forall i :: 0 <= i < |items| && InSession(items[i], session) ==> items[i].stamp.value.number < position
  {
    hide IndicesOf;
    var idxs := IndicesOf(items, session, |items|);
    var last := LastOf(items, session);
    assert InSession(items[idxs[|idxs| - 1]], session);
    assert last.Some? && last.value in idxs;
    forall i | 0 <= i < |items| && InSession(items[i], session)
      ensures items[i].stamp.value.number < position
    {
      assert i in idxs;
    }
  }

  /** What the three cases of `slotOf` say determines the slot. */
  lemma SlotUnique(items: seq<Item>, session: Option<string>, position: int, slot: nat)
    requires slot <= |items|
    requires forall i :: 0 <= i < slot && i < |items| && InSession(items[i], session) ==> items[i].stamp.value.number < position
    requires (slot < |items| && InSession(items[slot], session) && items[slot].stamp.value.number >= position)
             || ((forall i :: 0 <= i < |items| && InSession(items[i], session) ==> items[i].stamp.value.number < position)
                 && slot == if LastOf(items, session).Some? then LastOf(items, session).value + 1 else |items|)
    ensures slot == SlotOf(items, session, position)
  {
    var other := SlotOf(items, session, position);
    if slot < |items| && InSession(items[slot], session) && items[slot].stamp.value.number >= position {
      assert other <= slot;
    }
  }

  /** One more turn looked at: only its own claim can change what is shown. */
  lemma ClaimStep(items: seq<Item>, turns: seq<UserTurn>, k: nat, at: nat)
    requires k < |turns|
    ensures Claimant(items, turns[..k + 1], at)
            == if PlaceOf(items, turns, k) == Overlaid(at) then Some(k) else Claimant(items, turns[..k], at)
  {
    assert turns[..k + 1][..k] == turns[..k];
    assert turns[..k + 1][k] == turns[k];
  }

  /** What the loop over the turns keeps. */
  datatype Work = Work(result: seq<Item>, before: map<nat, seq<Item>>, claimed: set<nat>, tail: seq<Item>)

  function Inserting(w: Work, slot: nat, it: Item): Work {
    w.(before := w.before[slot := (if slot in w.before then w.before[slot] else []) + [it]])
  }

  /** One turn put where it belongs. */
  function Placed(items: seq<Item>, turns: seq<UserTurn>, k: nat, w: Work): Work
    requires k < |turns| && |w.result| == |items|
    requires var p := PlaceOf(items, turns, k); p.Overlaid? ==> IsUserMessage(w.result[p.at])
  {
    match PlaceOf(items, turns, k)
    case Overlaid(at) => w.(claimed := w.claimed + {at}, result := w.result[at := OverlayTurn(w.result[at], turns[k])])
    case Inserted(slot) => Inserting(w, slot, TurnBubble(turns[k]))
    case AtEnd(bubble) => w.(tail := w.tail + [bubble])
    case Nowhere => w
  }

  /** The state of the merge after the first `k` turns. */
  ghost predicate Progress(items: seq<Item>, turns: seq<UserTurn>, k: nat, w: Work)
    requires k <= |turns|
  {
    && |w.result| == |items|
    && (forall i :: 0 <= i < |items| ==> w.result[i] == Shown(items, turns[..k], i))
    && (forall at: nat :: at in w.claimed <==> Claimant(items, turns[..k], at).Some?)
    && (forall slot: nat :: Bucket(items, turns, k, w.before, slot))
    && w.tail == Drawn(items, turns, Tails(items, turns, k))
  }

  ghost predicate Bucket(items: seq<Item>, turns: seq<UserTurn>, k: nat, before: map<nat, seq<Item>>, slot: nat)
    requires k <= |turns|
  {
    var ps := BubblesAt(items, turns, slot, k);
    (slot in before <==> ps != []) && (slot in before ==> before[slot] == Drawn(items, turns, ps))
  }

  lemma Overlayable(items: seq<Item>, turns: seq<UserTurn>, k: nat, w: Work)
    requires k < |turns| && Progress(items, turns, k, w)
    ensures var p := PlaceOf(items, turns, k); p.Overlaid? ==> w.result[p.at] == items[p.at]
  {
    hide Target, Bucket;
  }

  lemma ProgressStep(items: seq<Item>, turns: seq<UserTurn>, k: nat, w: Work)
    requires k < |turns| && Progress(items, turns, k, w)
    requires var p := PlaceOf(items, turns, k); p.Overlaid? ==> w.result[p.at] == items[p.at]
    ensures Progress(items, turns, k + 1, Placed(items, turns, k, w))
  {
    hide PlaceOf, OverlayTurn, TurnBubble, Claimant, Bucket, Drawn, BubblesAt, Tails;
    var after := Placed(items, turns, k, w);
    forall at: nat
      ensures Claimant(items, turns[..k + 1], at)
              == if PlaceOf(items, turns, k) == Overlaid(at) then Some(k) else Claimant(items, turns[..k], at)
    {
      ClaimStep(items, turns, k, at);
    }
    forall i | 0 <= i < |items| ensures after.result[i] == Shown(items, turns[..k + 1], i) {
      assert w.result[i] == Shown(items, turns[..k], i);
      assert turns[..k + 1][k] == turns[k];
      var c := Claimant(items, turns[..k], i);
      if c.Some? { assert turns[..k][c.value] == turns[..k + 1][c.value]; }
    }
    var next, before := k + 1, after.before;
    forall slot: nat ensures Bucket(items, turns, next, before, slot) {
      BucketStep(items, turns, k, w, slot);
    }
    TailStep(items, turns, k, w);
  }

  lemma BucketStep(items: seq<Item>, turns: seq<UserTurn>, k: nat, w: Work, slot: nat)
    requires k < |turns| && |w.result| == |items| && Bucket(items, turns, k, w.before, slot)
    requires var p := PlaceOf(items, turns, k); p.Overlaid? ==> IsUserMessage(w.result[p.at])
    ensures Bucket(items, turns, k + 1, Placed(items, turns, k, w).before, slot)
  {
    hide PlaceOf, OverlayTurn, TurnBubble;
    var ps := BubblesAt(items, turns, slot, k);
    if PlaceOf(items, turns, k) == Inserted(slot) {
      assert Belongs(items, turns, Bubble(k));
      DrawnConcat(items, turns, ps, [Bubble(k)]);
      assert Drawn(items, turns, [Bubble(k)]) == [TurnBubble(turns[k])];
    } else {
      assert BubblesAt(items, turns, slot, k + 1) == ps;
    }
  }

  lemma TailStep(items: seq<Item>, turns: seq<UserTurn>, k: nat, w: Work)
    requires k < |turns| && |w.result| == |items| && w.tail == Drawn(items, turns, Tails(items, turns, k))
    requires var p := PlaceOf(items, turns, k); p.Overlaid? ==> IsUserMessage(w.result[p.at])
    ensures Placed(items, turns, k, w).tail == Drawn(items, turns, Tails(items, turns, k + 1))
  {
    hide PlaceOf, OverlayTurn, TurnBubble;
    var p := PlaceOf(items, turns, k);
    if p.AtEnd? {
      assert Belongs(items, turns, Tail(k));
      DrawnConcat(items, turns, Tails(items, turns, k), [Tail(k)]);
      assert Drawn(items, turns, [Tail(k)]) == [p.bubble];
    } else {
      assert Tails(items, turns, k + 1) == Tails(items, turns, k);
    }
  }

  method MergeUserTurns(items: seq<Item>, turns: seq<UserTurn>) returns (r: seq<Item>)
    ensures r == Merged(items, turns)
  {
    hide PromptAt, Noticed, IndicesOf, SlotOf, Claimant, Shown, UnplacedBubble, TurnBubble, OverlayTurn, Keyed, Merged,
      Bucket, Drawn, Tails, SessionRow;
    if turns == [] {
      NothingToMerge(items);
      return items;
    }
    var prompts, noticed, bySession := Index(items);
    assert forall s :: SessionRow(items, bySession, s);
    var result, before: map<nat, seq<Item>>, claimed: set<nat>, tail: seq<Item> := items, map[], {}, [];
    ProgressStart(items, turns);
    for k := 0 to |turns|
      invariant Progress(items, turns, k, Work(result, before, claimed, tail))
    {
      var t := turns[k];
      ghost var w := Work(result, before, claimed, tail);
      Overlayable(items, turns, k, w);
      if t.position.None? {
        var bubble := UnplacedBubble(items, t);
        if bubble.Some? { tail := tail + [bubble.value]; }
      } else {
        var key := RecordKey(t.session, t.position.value);
        var at := if Truthy(t.nativeId) && key in prompts then Some(prompts[key]) else None;
        if at.Some? && at.value !in claimed {
          claimed := claimed + {at.value};
          result := result[at.value := OverlayTurn(result[at.value], t)];
        } else if Truthy(t.nativeId) && key in noticed {
        } else {
          var slot := FindSlot(items, bySession, t.session, t.position.value);
          var bucket := if slot in before then before[slot] else [];
          before := before[slot := bucket + [TurnBubble(t)]];
        }
      }
      assert Work(result, before, claimed, tail) == Placed(items, turns, k, w);
      ProgressStep(items, turns, k, w);
    }
    r := Assemble(items, turns, result, before, claimed, tail);
  }

  lemma ProgressStart(items: seq<Item>, turns: seq<UserTurn>)
    ensures Progress(items, turns, 0, Work(items, map[], {}, []))
  {
    assert turns[..0] == [];
  }

  /** The buckets laid out among the items. */
  method Assemble(items: seq<Item>, turns: seq<UserTurn>,
                  result: seq<Item>, before: map<nat, seq<Item>>, ghost claimed: set<nat>, tail: seq<Item>)
    returns (merged: seq<Item>)
    requires Progress(items, turns, |turns|, Work(result, before, claimed, tail))
    ensures merged == Merged(items, turns)
  {
    hide PlaceOf, Shown, Draw, BubblesAt, Tails, Drawn, Belongs;
    assert turns[..|turns|] == turns;
    if before == map[] {
      assert forall slot: nat :: Bucket(items, turns, |turns|, before, slot) ==> BubblesAt(items, turns, slot, |turns|) == [];
      UnbrokenFront(items, turns, result, |items|);
      DrawnConcat(items, turns, Front(items, turns, |items|), BubblesAt(items, turns, |items|, |turns|));
      DrawnConcat(items, turns, Front(items, turns, |items|) + BubblesAt(items, turns, |items|, |turns|), Tails(items, turns, |turns|));
      return if tail == [] then result else result + tail;
    }
    merged := [];
    for i := 0 to |result|
      invariant merged == Drawn(items, turns, Front(items, turns, i))
    {
      FrontStep(items, turns, i);
      assert Bucket(items, turns, |turns|, before, i);
      if i in before { merged := merged + before[i]; }
      merged := merged + [result[i]];
    }
    assert Bucket(items, turns, |turns|, before, |items|);
    DrawnConcat(items, turns, Front(items, turns, |items|), BubblesAt(items, turns, |items|, |turns|));
    DrawnConcat(items, turns, Front(items, turns, |items|) + BubblesAt(items, turns, |items|, |turns|), Tails(items, turns, |turns|));
    merged := merged + (if |result| in before then before[|result|] else []) + tail;
  }

  lemma FrontStep(items: seq<Item>, turns: seq<UserTurn>, i: nat)
    requires i < |items|
    ensures Drawn(items, turns, Front(items, turns, i + 1))
            == Drawn(items, turns, Front(items, turns, i)) + Drawn(items, turns, BubblesAt(items, turns, i, |turns|)) + [Shown(items, turns, i)]
  {
    hide PlaceOf, Shown, BubblesAt;
    var front, bubbles := Front(items, turns, i), BubblesAt(items, turns, i, |turns|);
    assert Belongs(items, turns, Kept(i));
    DrawnConcat(items, turns, front, bubbles);
    DrawnConcat(items, turns, front + bubbles, [Kept(i)]);
    assert Drawn(items, turns, [Kept(i)]) == [Shown(items, turns, i)];
  }

  lemma {:induction false} UnbrokenFront(items: seq<Item>, turns: seq<UserTurn>, result: seq<Item>, upto: nat)
    requires upto <= |items| == |result|
    requires forall i :: 0 <= i < |items| ==> result[i] == Shown(items, turns, i)
    requires forall slot: nat :: BubblesAt(items, turns, slot, |turns|) == []
    ensures Drawn(items, turns, Front(items, turns, upto)) == result[..upto]
  {
    hide PlaceOf, Shown, BubblesAt;
    if upto > 0 {
      UnbrokenFront(items, turns, result, upto - 1);
      FrontStep(items, turns, upto - 1);
      assert Drawn(items, turns, []) == [];
    }
  }

  lemma NothingToMerge(items: seq<Item>)
    ensures Merged(items, []) == items
  {
    UnbrokenFront(items, [], items, |items|);
    assert Layout(items, []) == Front(items, [], |items|);
  }
}
