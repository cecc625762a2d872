/** What the switcher shows of each environment: field by field, the last word
    that was said about it (src/store/environments.ts:119-161). */
module Descriptors {
  import opened Common
  import opened Environments

  datatype Field = TheName | TheKind | TheConnection | TheError | TheRetrying | TheTransport | TheVersion | TheProtocol | TheProviders

  datatype Content =
    | Named(name: string)
    | OfKind(kind: Kind)
    | Linked(connection: Connection)
    | Words(words: Option<string>)
    | Flag(flag: Option<bool>)
    | Reported(report: Option<Report>)

  function Read(d: Descriptor, f: Field): Content {
    match f
    case TheName => Named(d.name)
    case TheKind => OfKind(d.kind)
    case TheConnection => Linked(d.connection)
    case TheError => Words(d.error)
    case TheRetrying => Flag(d.retrying)
    case TheTransport => Reported(d.transport)
    case TheVersion => Words(d.appVersion)
    case TheProtocol => Reported(d.protocol)
    case TheProviders => Reported(d.providers)
  }

  /** The field of an environment nobody said anything of. */
  function Unsaid(f: Field): Content {
    match f
    case TheName => Named("")
    case TheKind => OfKind(LocalKind)
    case TheConnection => Linked(Disconnected)
    case TheError => Words(None)
    case TheVersion => Words(None)
    case TheRetrying => Flag(None)
    case _ => Reported(None)
  }

  /** What the event says of that field of `id`, if it says anything. */
  function Said(e: Event, id: Id, f: Field): Option<Content> {
    if e.Upsert? && e.id == id then
      match f
      case TheName => Some(Named(e.patch.name))
      case TheKind => Some(OfKind(e.patch.kind))
      case TheConnection => Some(Linked(e.patch.connection))
      case TheError => if e.patch.error.Given? then Some(Words(e.patch.error.value)) else None
      case TheRetrying => if e.patch.retrying.Given? then Some(Flag(e.patch.retrying.value)) else None
      case TheTransport => if e.patch.transport.Given? then Some(Reported(e.patch.transport.value)) else None
      case TheVersion => if e.patch.appVersion.Given? then Some(Words(e.patch.appVersion.value)) else None
      case TheProtocol => if e.patch.protocol.Given? then Some(Reported(e.patch.protocol.value)) else None
      case TheProviders => if e.patch.providers.Given? then Some(Reported(e.patch.providers.value)) else None
    else if e.SetConnection? && e.id == id then
      match f
      case TheConnection => Some(Linked(e.connection))
      case TheError => Some(Words(e.error))
      case TheRetrying => Some(Flag(e.retrying))
      case _ => None
    else if e.SetProviders? && e.id == id && f == TheProviders then Some(Reported(Some(e.providers)))
    else None
  }

  function Shown(s: State, id: Id, f: Field): Option<Content> {
    if id in s.environments then Some(Read(s.environments[id].descriptor, f)) else None
  }

  /** The word on the field once the event has happened; None while the
      environment is not known. */
  function Word(before: Option<Content>, e: Event, id: Id, f: Field): Option<Content> {
    if e == Remove(id) && id != LOCAL then None
    else if before.None? && !(e.Upsert? && e.id == id) then None
    else if Said(e, id, f).Some? then Said(e, id, f)
    else Some(before.GetOr(Unsaid(f)))
  }

  /** The last word on the field after the events. */
  function LastWord(was: Option<Content>, es: seq<Event>, id: Id, f: Field): Option<Content> {
    if es == [] then was else Word(LastWord(was, es[..|es| - 1], id, f), es[|es| - 1], id, f)
  }

  lemma UpsertSays(s: State, id: Id, given: Patch, f: Field)
    ensures Shown(UpsertTo(s, id, given), id, f) == Word(Shown(s, id, f), Upsert(id, given), id, f)
  {
  }

  lemma StepSays(lay: Layout, s: State, e: Event, id: Id, f: Field)
    requires Valid(lay, s)
    ensures Shown(Step(lay, s, e), id, f) == Word(Shown(s, id, f), e, id, f)
  {
    hide StashOf, UpsertTo, Unsaid, Valid;
    if e.Upsert? {
      UpsertSays(s, e.id, e.patch, f);
      OthersKeep(s, e.id, e.patch, id);
    } else if e.SetConnection? || e.SetProviders? {
      DescribesSays(lay, s, e, id, f);
    } else {
      hide Read, Said;
      SaysNothing(e, id, f);
      KeepsDescriptors(lay, s, e, id);
    }
  }

  lemma OthersKeep(s: State, at: Id, given: Patch, id: Id)
    ensures id != at && id in s.environments ==> id in UpsertTo(s, at, given).environments && UpsertTo(s, at, given).environments[id] == s.environments[id]
    ensures id != at && id !in s.environments ==> id !in UpsertTo(s, at, given).environments
  {
  }

  lemma DescribesSays(lay: Layout, s: State, e: Event, id: Id, f: Field)
    requires Valid(lay, s) && (e.SetConnection? || e.SetProviders?)
    ensures Shown(Step(lay, s, e), id, f) == Word(Shown(s, id, f), e, id, f)
  {
    hide Valid;
  }

  lemma SaysNothing(e: Event, id: Id, f: Field)
    requires !e.Upsert? && !e.SetConnection? && !e.SetProviders?
    ensures Said(e, id, f).None?
  {
  }

  lemma KeepsDescriptors(lay: Layout, s: State, e: Event, id: Id)
    requires Valid(lay, s) && !e.Upsert? && !e.SetConnection? && !e.SetProviders?
    ensures var after := Step(lay, s, e).environments;
      && (id in after <==> id in s.environments && !(e == Remove(id) && id != LOCAL))
      && (id in after ==> after[id].descriptor == s.environments[id].descriptor)
  {
    hide StashOf;
  }

  lemma {:induction false} LastWordFrom(was: Option<Content>, e: Event, es: seq<Event>, id: Id, f: Field)
    ensures LastWord(Word(was, e, id, f), es, id, f) == LastWord(was, [e] + es, id, f)
  {
    hide Word;
    if es == [] {
      assert [e] + es == [e] && [e][..0] == [];
    } else {
      LastWordFrom(was, e, es[..|es| - 1], id, f);
      assert ([e] + es)[..|es|] == [e] + es[..|es| - 1];
    }
  }

  /** Over every run each field of each known environment shows the last word on
      it: a report of its link or providers, or an upsert, one given as undefined
      included; an upsert that leaves the field out keeps it; forgetting the
      environment forgets it. */
  lemma {:induction false} EveryField(lay: Layout, s: State, es: seq<Event>, id: Id, f: Field)
    requires Valid(lay, s)
    ensures Shown(Exec(lay, s, es), id, f) == LastWord(Shown(s, id, f), es, id, f)
    decreases |es|
  {
    hide Step, Shown, LastWord, Word;
    if es == [] {
      NoWord(Shown(s, id, f), id, f);
    } else {
      StepSays(lay, s, es[0], id, f);
      EveryField(lay, Step(lay, s, es[0]), es[1..], id, f);
      LastWordFrom(Shown(s, id, f), es[0], es[1..], id, f);
      assert [es[0]] + es[1..] == es;
    }
  }

  lemma NoWord(was: Option<Content>, id: Id, f: Field)
    ensures LastWord(was, [], id, f) == was
  {
  }
}
