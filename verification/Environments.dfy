/** The store's environments: one visible view, the others parked as stashes
    (src/store/environments.ts, src/store/environmentSwitch.ts). */
module Environments {
  import opened Common

  type Id = string
  type Key(==, !new)
  type Value(==, !new)
  /** What a host reported; the store keeps it and never looks inside. */
  type Report(==, !new)

  const LOCAL: Id := "local"

  datatype Kind = LocalKind | RemoteKind
  datatype Connection = Connected | Connecting | Disconnected | Errored

  /** What the switcher shows of an environment. */
  datatype Descriptor = Descriptor(
    name: string,
    kind: Kind,
    connection: Connection,
    error: Option<string>,
    retrying: Option<bool>,
    transport: Option<Report>,
    appVersion: Option<string>,
    protocol: Option<Report>,
    providers: Option<Report>)

  /** A field of an entry handed to `upsertEnvironment`: left out, or given, be it
      as undefined. */
  datatype Given<T> = LeftOut | Given(value: Option<T>) {
    function Over(known: Option<T>): Option<T> {
      if Given? then value else known
    }
  }

  datatype Entry = Entry(descriptor: Descriptor, stash: Option<map<Key, Value>>, lastSelected: Option<string>)

  /** A descriptor as `upsertEnvironment` is given it. */
  datatype Patch = Patch(
    name: string,
    kind: Kind,
    connection: Connection,
    error: Given<string>,
    retrying: Given<bool>,
    transport: Given<Report>,
    appVersion: Given<string>,
    protocol: Given<Report>,
    providers: Given<Report>)

  /** The keys that belong to one engine, and the value each starts with: the
      type of the blank view makes it carry exactly those keys. */
  datatype Layout = Layout(keys: seq<Key>, blank: map<Key, Value>) {
    predicate Valid() {
      && (forall k :: k in keys ==> k in blank) && (forall k :: k in blank ==> k in keys)
      && (forall x, y :: 0 <= x < y < |keys| ==> keys[x] != keys[y])
    }
  }

  /** The agents, by bare id, whose next event is to be treated apart: stopped by
      the user, failed, hidden until archived. */
  datatype Marks = Marks(interrupted: set<string>, errored: set<string>, hidden: set<string>)

  const NO_MARKS := Marks({}, {}, {})

  /** The store. `asked` holds, for each read over the wire started so far, the
      environment that was active then. */
  datatype State = State(
    values: map<Key, Value>,
    selected: Option<string>,
    environments: map<Id, Entry>,
    active: Id,
    marks: Marks,
    asked: seq<Id>)

  predicate Valid(lay: Layout, s: State) {
    && lay.Valid()
    && (forall k :: k in lay.keys ==> k in s.values)
    && LOCAL in s.environments && s.active in s.environments
    && forall e :: e in s.environments && s.environments[e].stash.Some? ==>
      forall k :: k in s.environments[e].stash.value ==> k in lay.keys
  }

  function Initial(lay: Layout, values: map<Key, Value>): State {
    var local := Entry(Descriptor("This Mac", LocalKind, Connected, None, None, None, None, None, None), None, None);
    State(values + lay.blank, None, map[LOCAL := local], LOCAL, NO_MARKS, [])
  }

  // -- what happens ---------------------------------------------------------

  datatype Event =
    | Edit(key: Key, value: Value)
    | Select(agent: Option<string>)
    | Mark(marks: Marks)
    | Switch(id: Id)
    | Upsert(id: Id, patch: Patch)
    | SetConnection(id: Id, connection: Connection, error: Option<string>, retrying: Option<bool>)
    | SetProviders(id: Id, providers: Report)
    | Remove(id: Id)
    | StartRead
    | Land(read: nat, key: Key, value: Value)

  function StashOf(keys: seq<Key>, values: map<Key, Value>): (stash: map<Key, Value>)
    requires forall k :: k in keys ==> k in values
  {
    map k | k in keys :: values[k]
  }

  function SwitchTo(lay: Layout, s: State, id: Id): State
    requires Valid(lay, s)
  {
    if id == s.active || id !in s.environments then s
    else
      var target := s.environments[id];
      s.(environments := s.environments[s.active := s.environments[s.active].(stash := Some(StashOf(lay.keys, s.values)),
                                                                               lastSelected := s.selected)],
         active := id,
         values := s.values + lay.blank + target.stash.GetOr(map[]),
         selected := target.lastSelected,
         marks := NO_MARKS)
  }

  /** The entry spread over what is known of the environment: a field left out
      keeps what is known, a field given as undefined clears it. */
  function Merge(known: Descriptor, given: Patch): Descriptor {
    Descriptor(given.name, given.kind, given.connection,
               given.error.Over(known.error), given.retrying.Over(known.retrying), given.transport.Over(known.transport),
               given.appVersion.Over(known.appVersion), given.protocol.Over(known.protocol),
               given.providers.Over(known.providers))
  }

  function Unknown(given: Patch): Descriptor {
    Descriptor(given.name, given.kind, given.connection, None, None, None, None, None, None)
  }

  function UpsertTo(s: State, id: Id, given: Patch): State {
    var entry := if id in s.environments then s.environments[id].(descriptor := Merge(s.environments[id].descriptor, given))
                 else Entry(Merge(Unknown(given), given), None, None);
    s.(environments := s.environments[id := entry])
  }

  function Redescribed(s: State, id: Id, descriptor: Descriptor): State
    requires id in s.environments
  {
    s.(environments := s.environments[id := s.environments[id].(descriptor := descriptor)])
  }

  function RemoveFrom(s: State, id: Id): State {
    if id == LOCAL then s
    else s.(environments := s.environments - {id}, active := if s.active == id then LOCAL else s.active)
  }

  /** A read's answer is written only where it was asked. */
  function LandIn(s: State, read: nat, key: Key, value: Value): State {
    if read < |s.asked| && s.asked[read] == s.active then s.(values := s.values[key := value]) else s
  }

  function Step(lay: Layout, s: State, e: Event): (r: State)
    requires Valid(lay, s)
    ensures Valid(lay, r)
  {
    match e
    case Edit(key, value) => s.(values := s.values[key := value])
    case Select(agent) => s.(selected := agent)
    case Mark(marks) => s.(marks := marks)
    case Switch(id) => SwitchTo(lay, s, id)
    case Upsert(id, given) => UpsertTo(s, id, given)
    case SetConnection(id, connection, error, retrying) =>
      if id in s.environments
      then Redescribed(s, id, s.environments[id].descriptor.(connection := connection, error := error, retrying := retrying))
      else s
    case SetProviders(id, providers) =>
      if id in s.environments then Redescribed(s, id, s.environments[id].descriptor.(providers := Some(providers))) else s
    case Remove(id) => RemoveFrom(s, id)
    case StartRead => s.(asked := s.asked + [s.active])
    case Land(read, key, value) => LandIn(s, read, key, value)
  }

  // -- what it means: a map from environment to view -------------------------

  datatype View = View(values: map<Key, Value>, selected: Option<string>)

  /** Each known environment's view, what belongs to none, and the one on screen. */
  datatype Desk = Desk(views: map<Id, View>, shared: map<Key, Value>, active: Id, marks: Marks, asked: seq<Id>)

  function OnScreen(lay: Layout, s: State): View
    requires Valid(lay, s)
  {
    View(StashOf(lay.keys, s.values), s.selected)
  }

  function Parked(lay: Layout, entry: Entry): View {
    View(lay.blank + entry.stash.GetOr(map[]), entry.lastSelected)
  }

  function ViewOf(lay: Layout, s: State, e: Id): View
    requires Valid(lay, s) && e in s.environments
  {
    if e == s.active then OnScreen(lay, s) else Parked(lay, s.environments[e])
  }

  function Meaning(lay: Layout, s: State): Desk
    requires Valid(lay, s)
  {
    Desk(map e | e in s.environments :: ViewOf(lay, s, e),
         map k | k in s.values && k !in lay.keys :: s.values[k],
         s.active, s.marks, s.asked)
  }

  /** A key written on the desk: in the view on screen, or beside the views. */
  function Written(lay: Layout, d: Desk, key: Key, value: Value): Desk
    requires d.active in d.views
  {
    if key in lay.keys
    then d.(views := d.views[d.active := d.views[d.active].(values := d.views[d.active].values[key := value])])
    else d.(shared := d.shared[key := value])
  }

  /** What each event means: switching changes which view is on screen and no
      view, and forgets the marks on bare agent ids. */
  function Means(lay: Layout, d: Desk, e: Event): Desk
    requires d.active in d.views
  {
    match e
    case Edit(key, value) => Written(lay, d, key, value)
    case Select(agent) => d.(views := d.views[d.active := d.views[d.active].(selected := agent)])
    case Mark(marks) => d.(marks := marks)
    case Switch(id) => if id in d.views && id != d.active then d.(active := id, marks := NO_MARKS) else d
    case Upsert(id, _) => if id in d.views then d else d.(views := d.views[id := View(lay.blank, None)])
    case SetConnection(_, _, _, _) => d
    case SetProviders(_, _) => d
    case Remove(id) => if id == LOCAL then d else d.(views := d.views - {id}, active := if d.active == id then LOCAL else d.active)
    case StartRead => d.(asked := d.asked + [d.active])
    case Land(read, key, value) => if read < |d.asked| && d.asked[read] == d.active then Written(lay, d, key, value) else d
  }

  lemma EditScreen(lay: Layout, s: State, key: Key, value: Value)
    requires Valid(lay, s)
    ensures var after := s.(values := s.values[key := value]);
      OnScreen(lay, after) == if key in lay.keys then OnScreen(lay, s).(values := OnScreen(lay, s).values[key := value]) else OnScreen(lay, s)
  {
    var after := s.(values := s.values[key := value]);
    assert OnScreen(lay, after).values == if key in lay.keys then OnScreen(lay, s).values[key := value] else OnScreen(lay, s).values;
  }

  lemma EditMeans(lay: Layout, s: State, key: Key, value: Value)
    requires Valid(lay, s)
    ensures var after := s.(values := s.values[key := value]);
      Valid(lay, after) && Meaning(lay, after) == Written(lay, Meaning(lay, s), key, value)
  {
    hide OnScreen, Parked;
    EditScreen(lay, s, key, value);
    var after := s.(values := s.values[key := value]);
    var was, now := Meaning(lay, s), Meaning(lay, after);
    assert now.shared == if key in lay.keys then was.shared else was.shared[key := value];
    assert now.views == Written(lay, was, key, value).views;
  }

  /** What parking and restoring do to the values. */
  lemma Restored(lay: Layout, s: State, id: Id)
    requires Valid(lay, s) && id in s.environments && id != s.active
    ensures var after := SwitchTo(lay, s, id);
      && Valid(lay, after)
      && OnScreen(lay, after) == Parked(lay, s.environments[id])
      && Parked(lay, after.environments[s.active]) == OnScreen(lay, s)
      && (forall k :: k !in lay.keys ==> (k in after.values <==> k in s.values) && (k in s.values ==> after.values[k] == s.values[k]))
  {
    var after, back := SwitchTo(lay, s, id), lay.blank + s.environments[id].stash.GetOr(map[]);
    assert forall k :: k in lay.keys <==> k in back;
    assert after.values == s.values + back;
    assert StashOf(lay.keys, after.values) == back;
    assert lay.blank + StashOf(lay.keys, s.values) == StashOf(lay.keys, s.values);
  }

  lemma SwitchMeans(lay: Layout, s: State, id: Id)
    requires Valid(lay, s) && id in s.environments && id != s.active
    ensures Valid(lay, SwitchTo(lay, s, id))
    ensures Meaning(lay, SwitchTo(lay, s, id)) == Meaning(lay, s).(active := id, marks := NO_MARKS)
  {
    hide OnScreen, Parked;
    Restored(lay, s, id);
    var after := SwitchTo(lay, s, id);
    assert Meaning(lay, after).shared == Meaning(lay, s).shared;
    assert Meaning(lay, after).views == Meaning(lay, s).views;
  }

  lemma SameScreen(lay: Layout, s: State, after: State)
    requires Valid(lay, s) && Valid(lay, after) && after.values == s.values && after.selected == s.selected
    ensures OnScreen(lay, after) == OnScreen(lay, s)
  {
  }

  lemma SameParked(lay: Layout, before: Entry, after: Entry)
    requires after.stash == before.stash && after.lastSelected == before.lastSelected
    ensures Parked(lay, after) == Parked(lay, before)
  {
  }

  lemma NothingParked(lay: Layout, entry: Entry)
    requires entry.stash.None? && entry.lastSelected.None?
    ensures Parked(lay, entry) == View(lay.blank, None)
  {
    assert lay.blank + map[] == lay.blank;
  }

  lemma UpsertMeans(lay: Layout, s: State, id: Id, given: Patch)
    requires Valid(lay, s)
    ensures Meaning(lay, UpsertTo(s, id, given)) == Means(lay, Meaning(lay, s), Upsert(id, given))
  {
    hide StashOf, Merge, Unknown, Parked, OnScreen;
    var after := UpsertTo(s, id, given);
    SameScreen(lay, s, after);
    if id in s.environments {
      SameParked(lay, s.environments[id], after.environments[id]);
    } else {
      NothingParked(lay, after.environments[id]);
    }
    assert Meaning(lay, after).views == Means(lay, Meaning(lay, s), Upsert(id, given)).views;
  }

  lemma DescriptionMeans(lay: Layout, s: State, id: Id, descriptor: Descriptor)
    requires Valid(lay, s) && id in s.environments
    ensures Meaning(lay, Redescribed(s, id, descriptor)) == Meaning(lay, s)
  {
    hide StashOf;
    assert Meaning(lay, Redescribed(s, id, descriptor)).views == Meaning(lay, s).views;
  }

  lemma SelectMeans(lay: Layout, s: State, agent: Option<string>)
    requires Valid(lay, s)
    ensures Meaning(lay, s.(selected := agent)) == Means(lay, Meaning(lay, s), Select(agent))
  {
    hide Parked, StashOf;
    assert Meaning(lay, s.(selected := agent)).views == Means(lay, Meaning(lay, s), Select(agent)).views;
  }

  /** Forgetting an environment drops its view and no other, unless it is the
      remote one on screen and This Mac's parked view differs from what it shows:
      the store then puts This Mac on screen without putting its view back. */
  lemma RemoveMeans(lay: Layout, s: State, id: Id)
    requires Valid(lay, s)
    ensures Valid(lay, RemoveFrom(s, id))
    ensures Meaning(lay, RemoveFrom(s, id)) == Means(lay, Meaning(lay, s), Remove(id))
            <==> id != s.active || id == LOCAL || OnScreen(lay, s) == Parked(lay, s.environments[LOCAL])
  {
    var after := RemoveFrom(s, id);
    var was, now := Meaning(lay, s), Meaning(lay, after);
    var meant := Means(lay, was, Remove(id));
    if id != LOCAL {
      assert now.shared == was.shared;
      assert now.views[LOCAL] == if s.active == LOCAL || id == s.active then OnScreen(lay, s) else Parked(lay, s.environments[LOCAL]);
      if id != s.active || OnScreen(lay, s) == Parked(lay, s.environments[LOCAL]) {
        assert now.views == meant.views;
      }
    }
  }

  /** The remote environment on screen is not forgotten before it is left. */
  predicate Proper(s: State, e: Event) {
    e.Remove? ==> e.id != s.active || e.id == LOCAL
  }

  /** Every step of the store means what it should. */
  lemma StepMeans(lay: Layout, s: State, e: Event)
    requires Valid(lay, s) && Proper(s, e)
    ensures Valid(lay, Step(lay, s, e))
    ensures Meaning(lay, Step(lay, s, e)) == Means(lay, Meaning(lay, s), e)
  {
    hide Meaning, UpsertTo, Redescribed, RemoveFrom, Written, OnScreen, Parked;
    SameRecords(lay, s);
    match e
    case Edit(key, value) => EditMeans(lay, s, key, value);
    case Select(agent) => SelectMeans(lay, s, agent);
    case Mark(marks) => MarkMeans(lay, s, marks);
    case Switch(id) => if id in s.environments && id != s.active { SwitchMeans(lay, s, id); }
    case Upsert(id, given) => UpsertMeans(lay, s, id, given);
    case SetConnection(id, connection, error, retrying) =>
      if id in s.environments {
        DescriptionMeans(lay, s, id, s.environments[id].descriptor.(connection := connection, error := error, retrying := retrying));
      }
    case SetProviders(id, providers) =>
      if id in s.environments { DescriptionMeans(lay, s, id, s.environments[id].descriptor.(providers := Some(providers))); }
    case Remove(id) => RemoveMeans(lay, s, id);
    case StartRead => ReadMeans(lay, s);
    case Land(_, key, value) => EditMeans(lay, s, key, value);
  }

  lemma SameRecords(lay: Layout, s: State)
    requires Valid(lay, s)
    ensures var d := Meaning(lay, s);
      d.active == s.active && d.asked == s.asked && d.marks == s.marks && (forall e :: e in d.views <==> e in s.environments)
  {
  }

  lemma MarkMeans(lay: Layout, s: State, marks: Marks)
    requires Valid(lay, s)
    ensures Meaning(lay, s.(marks := marks)) == Meaning(lay, s).(marks := marks)
  {
    hide StashOf, Parked;
    assert Meaning(lay, s.(marks := marks)).views == Meaning(lay, s).views;
  }

  lemma ReadMeans(lay: Layout, s: State)
    requires Valid(lay, s)
    ensures Valid(lay, s.(asked := s.asked + [s.active]))
    ensures Meaning(lay, s.(asked := s.asked + [s.active])) == Means(lay, Meaning(lay, s), StartRead)
  {
    hide StashOf, Parked;
    assert Meaning(lay, s.(asked := s.asked + [s.active])).views == Meaning(lay, s).views;
  }

  // -- runs -----------------------------------------------------------------

  ghost predicate Legal(lay: Layout, s: State, es: seq<Event>)
    requires Valid(lay, s)
    decreases |es|
  {
    es != [] ==> Proper(s, es[0]) && (Legal(lay, Step(lay, s, es[0]), es[1..]))
  }

  function Exec(lay: Layout, s: State, es: seq<Event>): (r: State)
    requires Valid(lay, s)
    ensures Valid(lay, r)
    decreases |es|
  {
    if es == [] then s else Exec(lay, Step(lay, s, es[0]), es[1..])
  }

  function MeansAll(lay: Layout, d: Desk, es: seq<Event>): Desk
    requires d.active in d.views && LOCAL in d.views
    decreases |es|
  {
    if es == [] then d else MeansAll(lay, Means(lay, d, es[0]), es[1..])
  }

  /** Over every run the store and its stashes stand for the plain map. */
  lemma {:induction false} EveryRun(lay: Layout, s: State, es: seq<Event>)
    requires Valid(lay, s) && Legal(lay, s, es)
    ensures Meaning(lay, Exec(lay, s, es)) == MeansAll(lay, Meaning(lay, s), es)
    decreases |es|
  {
    hide Means, Step, Meaning;
    if es != [] {
      StepMeans(lay, s, es[0]);
      EveryRun(lay, Step(lay, s, es[0]), es[1..]);
    }
  }

  /** The environment `e` is away from the screen through all of the run, and not
      forgotten. */
  ghost predicate Away(lay: Layout, s: State, es: seq<Event>, e: Id)
    requires Valid(lay, s)
    decreases |es|
  {
    && s.active != e
    && (es != [] ==> es[0] != Remove(e) && (Away(lay, Step(lay, s, es[0]), es[1..], e)))
  }

  lemma AwayStep(lay: Layout, s: State, ev: Event, e: Id)
    requires Valid(lay, s) && Proper(s, ev) && e in s.environments && s.active != e && ev != Remove(e)
    requires Step(lay, s, ev).active != e
    ensures var after := Step(lay, s, ev);
      e in after.environments && Parked(lay, after.environments[e]) == Parked(lay, s.environments[e])
  {
    hide Parked, Step;
    StepMeans(lay, s, ev);
    var was, now := Meaning(lay, s), Meaning(lay, Step(lay, s, ev));
    assert e in now.views && now.views[e] == was.views[e];
  }

  /** While an environment is away from the screen nothing reaches its view: no
      edit, no switch between others, no answer to a read, wherever asked. */
  lemma {:induction false} AwayUntouched(lay: Layout, s: State, es: seq<Event>, e: Id)
    requires Valid(lay, s) && Legal(lay, s, es) && Away(lay, s, es, e) && e in s.environments
    ensures var after := Exec(lay, s, es);
      e in after.environments && after.active != e && Parked(lay, after.environments[e]) == Parked(lay, s.environments[e])
    decreases |es|
  {
    hide Parked, Step;
    if es != [] {
      AwayStep(lay, s, es[0], e);
      AwayUntouched(lay, Step(lay, s, es[0]), es[1..], e);
    }
  }

  /** Switching back shows exactly what was on screen when the environment was
      left, whatever happened elsewhere meanwhile. */
  lemma SwitchBackRestores(lay: Layout, s: State, to: Id, es: seq<Event>)
    requires Valid(lay, s) && to in s.environments && to != s.active
    requires Legal(lay, Step(lay, s, Switch(to)), es)
    requires Away(lay, Step(lay, s, Switch(to)), es, s.active)
    ensures var back := SwitchTo(lay, Exec(lay, Step(lay, s, Switch(to)), es), s.active);
      Valid(lay, back) && back.active == s.active && OnScreen(lay, back) == OnScreen(lay, s)
  {
    hide Exec, Legal, Away, Parked, OnScreen;
    var left := Step(lay, s, Switch(to));
    SwitchMeans(lay, s, to);
    assert Meaning(lay, left).views[s.active] == Meaning(lay, s).views[s.active];
    AwayUntouched(lay, left, es, s.active);
    var last := Exec(lay, left, es);
    SwitchMeans(lay, last, s.active);
    assert Meaning(lay, SwitchTo(lay, last, s.active)).views[s.active] == Meaning(lay, last).views[s.active];
  }

  /** An environment first heard of shows the blank view when it is first entered:
      no key of any other environment's view shows through. */
  lemma FirstVisitIsBlank(lay: Layout, s: State, id: Id, given: Patch, es: seq<Event>)
    requires Valid(lay, s) && id !in s.environments
    requires Legal(lay, Step(lay, s, Upsert(id, given)), es)
    requires Away(lay, Step(lay, s, Upsert(id, given)), es, id)
    ensures var entered := SwitchTo(lay, Exec(lay, Step(lay, s, Upsert(id, given)), es), id);
      Valid(lay, entered) && entered.active == id && OnScreen(lay, entered) == View(lay.blank, None)
  {
    hide Exec, Legal, Away, OnScreen, Parked, Merge, Unknown;
    var added := Step(lay, s, Upsert(id, given));
    NothingParked(lay, added.environments[id]);
    AwayUntouched(lay, added, es, id);
    var last := Exec(lay, added, es);
    SwitchMeans(lay, last, id);
    assert Meaning(lay, SwitchTo(lay, last, id)).views[id] == Meaning(lay, last).views[id];
  }

  /** A Mac is added, entered, edited and forgotten while on screen: This Mac then
      shows the forgotten one's value. */
  lemma ForgottenViewStays(lay: Layout, values: map<Key, Value>, id: Id, given: Patch, key: Key, v: Value)
    requires lay.Valid() && id != LOCAL && key in lay.keys && v != lay.blank[key]
    ensures Valid(lay, Initial(lay, values))
    ensures Legal(lay, Initial(lay, values), [Upsert(id, given), Switch(id), Edit(key, v)])
    ensures var s := Exec(lay, Initial(lay, values), [Upsert(id, given), Switch(id), Edit(key, v)]);
      Meaning(lay, RemoveFrom(s, id)) != Means(lay, Meaning(lay, s), Remove(id))
  {
    hide Meaning, Means, StashOf, Merge, Unknown, OnScreen, Parked;
    var s0 := Initial(lay, values);
    var s1 := Step(lay, s0, Upsert(id, given));
    var s2 := Step(lay, s1, Switch(id));
    var s3 := Step(lay, s2, Edit(key, v));
    ThreeSteps(lay, s0, Upsert(id, given), Switch(id), Edit(key, v));
    Restored(lay, s1, id);
    ShownAt(lay, s1, key);
    ShownAt(lay, s3, key);
    RemoveMeans(lay, s3, id);
  }

  lemma ShownAt(lay: Layout, s: State, key: Key)
    requires Valid(lay, s) && key in lay.keys
    ensures key in OnScreen(lay, s).values && OnScreen(lay, s).values[key] == s.values[key]
  {
  }

  lemma ThreeSteps(lay: Layout, s: State, a: Event, b: Event, c: Event)
    requires Valid(lay, s) && !a.Remove? && !b.Remove? && !c.Remove?
    ensures Legal(lay, s, [a, b, c])
    ensures Exec(lay, s, [a, b, c]) == Step(lay, Step(lay, Step(lay, s, a), b), c)
  {
    hide Step;
    var s2 := Step(lay, Step(lay, s, a), b);
    assert [a, b, c][1..] == [b, c] && [b, c][1..] == [c] && [c][1..] == [];
    assert Legal(lay, s2, [c]) && Exec(lay, s2, [c]) == Step(lay, s2, c);
    assert Legal(lay, Step(lay, s, a), [b, c]);
  }
}
