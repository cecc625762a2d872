/** The store slices' actions (src/store/environmentSwitch.ts:203-345,
    src/store/environments.ts:119-161), each tied to its step of the model. */
module EnvironmentStore {
  import opened Common
  import opened Environments

  class EnvironmentStore {
    const lay: Layout
    var values: map<Key, Value>
    var selectedAgentId: Option<string>
    var environments: map<Id, Entry>
    var activeEnvironmentId: Id
    var marks: Marks
    ghost var asked: seq<Id>

    ghost function Model(): State
      reads this
    {
      State(values, selectedAgentId, environments, activeEnvironmentId, marks, asked)
    }

    ghost predicate Ready()
      reads this
    {
      Valid(lay, Model())
    }

    constructor (lay: Layout, values: map<Key, Value>)
      requires lay.Valid()
      ensures Ready() && this.lay == lay && Model() == Initial(lay, values)
    {
      this.lay := lay;
      this.values := values + lay.blank;
      selectedAgentId := None;
      environments := map[LOCAL := Entry(Descriptor("This Mac", LocalKind, Connected, None, None, None, None, None, None), None, None)];
      activeEnvironmentId := LOCAL;
      marks := NO_MARKS;
      asked := [];
    }

    method Set(key: Key, value: Value)
      requires Ready()
      modifies this
      ensures Ready() && Model() == Step(lay, old(Model()), Edit(key, value))
    {
      values := values[key := value];
    }

    /** `stashOf`: the values of the engine's keys, one by one. */
    method StashValues() returns (stash: map<Key, Value>)
      requires Ready()
      ensures stash == StashOf(lay.keys, values)
    {
      stash := map[];
      for x := 0 to |lay.keys|
        invariant forall k :: k in stash <==> k in lay.keys[..x]
        invariant forall k :: k in stash ==> stash[k] == values[k]
      {
        stash := stash[lay.keys[x] := values[lay.keys[x]]];
      }
      assert lay.keys[..|lay.keys|] == lay.keys;
    }

    method SwitchEnvironment(id: Id)
      requires Ready()
      modifies this
      ensures Ready() && Model() == Step(lay, old(Model()), Switch(id))
    {
      var from := activeEnvironmentId;
      if id == from || id !in environments { return; }
      ghost var was := Model();
      var target := environments[id];
      if from in environments {
        var stash := StashValues();
        environments := environments[from := environments[from].(stash := Some(stash), lastSelected := selectedAgentId)];
      }
      activeEnvironmentId := id;
      Show(target);
      assert Model() == SwitchTo(lay, was, id);
    }

    /** The entry's stash over the blank view, and no marks. */
    method Show(target: Entry)
      modifies this
      ensures Model() == old(Model()).(values := old(values) + lay.blank + target.stash.GetOr(map[]),
                                       selected := target.lastSelected, marks := NO_MARKS)
    {
      values := values + lay.blank;
      if target.stash.Some? { values := values + target.stash.value; }
      selectedAgentId := target.lastSelected;
      marks := NO_MARKS;
    }

    method UpsertEnvironment(id: Id, given: Patch)
      requires Ready()
      modifies this
      ensures Ready() && Model() == Step(lay, old(Model()), Upsert(id, given))
    {
      if id in environments {
        environments := environments[id := environments[id].(descriptor := Merge(environments[id].descriptor, given))];
      } else {
        environments := environments[id := Entry(Merge(Unknown(given), given), None, None)];
      }
    }

    method SetEnvironmentConnection(id: Id, connection: Connection, error: Option<string>, retrying: Option<bool>)
      requires Ready()
      modifies this
      ensures Ready() && Model() == Step(lay, old(Model()), SetConnection(id, connection, error, retrying))
    {
      if id !in environments { return; }
      var entry := environments[id];
      environments := environments[id := entry.(descriptor := entry.descriptor.(connection := connection, error := error, retrying := retrying))];
    }

    method SetEnvironmentProviders(id: Id, providers: Report)
      requires Ready()
      modifies this
      ensures Ready() && Model() == Step(lay, old(Model()), SetProviders(id, providers))
    {
      if id !in environments { return; }
      var entry := environments[id];
      environments := environments[id := entry.(descriptor := entry.descriptor.(providers := Some(providers)))];
    }

    method RemoveEnvironment(id: Id)
      requires Ready()
      modifies this
      ensures Ready() && Model() == Step(lay, old(Model()), Remove(id))
    {
      if id == LOCAL { return; }
      environments := environments - {id};
      if activeEnvironmentId == id { activeEnvironmentId := LOCAL; }
    }

    /** The first half of `forActiveEnvironment`: what is active is remembered. */
    method StartRead() returns (asking: Id)
      requires Ready()
      modifies this
      ensures Ready() && Model() == Step(lay, old(Model()), Event.StartRead)
      ensures asking == asked[|asked| - 1]
    {
      asking := activeEnvironmentId;
      asked := asked + [asking];
    }

    /** The second half: an answer asked of another environment is dropped. */
    method LandRead(ghost read: nat, asking: Id, key: Key, value: Value)
      requires Ready() && read < |asked| && asking == asked[read]
      modifies this
      ensures Ready() && Model() == Step(lay, old(Model()), Land(read, key, value))
    {
      if activeEnvironmentId == asking { values := values[key := value]; }
    }
  }
}
