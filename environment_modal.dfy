/**
 * The environment editor: a working copy of the environments and the id
 * of the selected one. Edits to a name or a row apply to the selected
 * environment only, and do nothing when none is selected.
 */
module EnvironmentModal {
  import opened Options
  import opened VariableSubstitution
  import opened ParamList

  /** The two row lists of an environment. */
  datatype ListKind = Variables | Headers

  function ListOf(e: Environment, kind: ListKind): seq<Parameter> {
    if kind == Variables then e.variables else e.headers
  }

  function WithList(e: Environment, kind: ListKind, list: seq<Parameter>): (r: Environment)
    ensures r.id == e.id && r.name == e.name && ListOf(r, kind) == list
    ensures kind == Variables ==> r.headers == e.headers
    ensures kind == Headers ==> r.variables == e.variables
  {
    if kind == Variables then e.(variables := list) else e.(headers := list)
  }

  /** The edit `addItem(kind)` makes to the selected environment: a blank row at the end of the chosen list. */
  function AddRow(kind: ListKind): Environment -> Environment {
    e => WithList(e, kind, Append(ListOf(e, kind)))
  }

  /** `environments.map(e => e.id === selectedEnvId ? f(e) : e)` */
  function MapSelected(envs: seq<Environment>, selected: Option<string>, f: Environment -> Environment): (r: seq<Environment>)
    ensures |r| == |envs|
    ensures forall i :: 0 <= i < |envs| ==> r[i] == if selected == Some(envs[i].id) then f(envs[i]) else envs[i]
  {
    seq(|envs|, i requires 0 <= i < |envs| => if selected == Some(envs[i].id) then f(envs[i]) else envs[i])
  }

  /** `environments.filter(e => e.id !== id)` */
  function RemoveEnvironment(envs: seq<Environment>, id: string): (r: seq<Environment>)
    ensures |r| <= |envs|
  {
    if envs == [] then []
    else if envs[0].id == id then RemoveEnvironment(envs[1..], id)
    else [envs[0]] + RemoveEnvironment(envs[1..], id)
  }

  /** Exactly the environments with another id remain. */
  lemma {:induction false} RemoveEnvironmentMembers(envs: seq<Environment>, id: string)
    ensures forall e :: e in RemoveEnvironment(envs, id) <==> e in envs && e.id != id
    decreases |envs|
  {
    if envs != [] {
      RemoveEnvironmentMembers(envs[1..], id);
      assert envs == [envs[0]] + envs[1..];
    }
  }

  /** An environment that is kept has a place in the list after the delete. */
  lemma {:induction false} RemoveEnvironmentPosition(envs: seq<Environment>, id: string, j: nat) returns (p: nat)
    requires j < |envs| && envs[j].id != id
    ensures p <= j && p < |RemoveEnvironment(envs, id)| && RemoveEnvironment(envs, id)[p] == envs[j]
    decreases |envs|
  {
    var rest := RemoveEnvironment(envs[1..], id);
    if j == 0 {
      assert RemoveEnvironment(envs, id) == [envs[0]] + rest;
      p := 0;
    } else {
      var q := RemoveEnvironmentPosition(envs[1..], id, j - 1);
      assert envs[1..][j - 1] == envs[j];
      if envs[0].id == id {
        assert RemoveEnvironment(envs, id) == rest;
        p := q;
      } else {
        assert RemoveEnvironment(envs, id) == [envs[0]] + rest;
        p := q + 1;
      }
    }
  }

  /** Deleting keeps the others in their order: two kept environments keep their relative places. */
  lemma {:induction false} RemoveEnvironmentKeepsOrder(envs: seq<Environment>, id: string, i: nat, j: nat) returns (a: nat, b: nat)
    requires i < j < |envs| && envs[i].id != id && envs[j].id != id
    ensures a < b < |RemoveEnvironment(envs, id)|
    ensures RemoveEnvironment(envs, id)[a] == envs[i] && RemoveEnvironment(envs, id)[b] == envs[j]
    decreases |envs|
  {
    var rest := RemoveEnvironment(envs[1..], id);
    if i == 0 {
      var q := RemoveEnvironmentPosition(envs[1..], id, j - 1);
      assert envs[1..][j - 1] == envs[j];
      assert RemoveEnvironment(envs, id) == [envs[0]] + rest;
      a, b := 0, q + 1;
    } else {
      var a', b' := RemoveEnvironmentKeepsOrder(envs[1..], id, i - 1, j - 1);
      assert envs[1..][i - 1] == envs[i] && envs[1..][j - 1] == envs[j];
      if envs[0].id == id {
        assert RemoveEnvironment(envs, id) == rest;
        a, b := a', b';
      } else {
        assert RemoveEnvironment(envs, id) == [envs[0]] + rest;
        a, b := a' + 1, b' + 1;
      }
    }
  }

  /** The selection after a delete: kept unless it was deleted, else the first remaining environment, else none. */
  function SelectionAfterDelete(newEnvs: seq<Environment>, selected: Option<string>, id: string): (r: Option<string>)
    ensures selected == Some(id) && |newEnvs| > 0 ==> r == Some(newEnvs[0].id)
    ensures selected == Some(id) && |newEnvs| == 0 ==> r == None
    ensures selected != Some(id) ==> r == selected
  {
    if selected == Some(id) then (if |newEnvs| > 0 then Some(newEnvs[0].id) else None) else selected
  }

  /** The selection names an environment of the list, or nothing. */
  predicate Names(envs: seq<Environment>, selected: Option<string>) {
    selected.None? || exists e :: e in envs && e.id == selected.value
  }

  /** A delete leaves the selection naming an environment that remains, or nothing. */
  lemma DeleteKeepsSelectionValid(envs: seq<Environment>, selected: Option<string>, id: string)
    requires Names(envs, selected)
    ensures var newEnvs := RemoveEnvironment(envs, id);
      Names(newEnvs, SelectionAfterDelete(newEnvs, selected, id))
  {
    var newEnvs := RemoveEnvironment(envs, id);
    RemoveEnvironmentMembers(envs, id);
    if selected.Some? && selected != Some(id) {
      var e :| e in envs && e.id == selected.value;
      assert e in newEnvs;
    } else if selected == Some(id) && |newEnvs| > 0 {
      assert newEnvs[0] in newEnvs;
    }
  }

  /** Edits that keep every id keep the selection valid. */
  lemma MapSelectedKeepsIds(envs: seq<Environment>, selected: Option<string>, f: Environment -> Environment, s: Option<string>)
    requires forall e :: f(e).id == e.id
    requires Names(envs, s)
    ensures Names(MapSelected(envs, selected, f), s)
  {
    if s.Some? {
      var e :| e in envs && e.id == s.value;
      var i :| 0 <= i < |envs| && envs[i] == e;
      assert MapSelected(envs, selected, f)[i].id == s.value;
    }
  }

  class Editor {
    var environments: seq<Environment>
    var selectedEnvId: Option<string>

    /** The modal's first state: the given environments, the first one selected. */
    constructor (initial: seq<Environment>)
      ensures environments == initial
      ensures selectedEnvId == if |initial| > 0 then Some(initial[0].id) else None
    {
      environments := initial;
      selectedEnvId := if |initial| > 0 then Some(initial[0].id) else None;
    }

    /** `selectedEnv` */
    function SelectedEnv(): Option<Environment>
      reads this
    {
      FindEnvironment(environments, selectedEnvId)
    }

    /** The effect that runs when the modal opens or its input changes: the working copy is reset, and the first environment selected if none is. */
    method Sync(initial: seq<Environment>)
      modifies this
      ensures environments == initial
      ensures selectedEnvId ==
        if |initial| > 0 && (old(selectedEnvId).None? || old(selectedEnvId) == Some("")) then Some(initial[0].id) else old(selectedEnvId)
    {
      environments := initial;
      if |initial| > 0 && (selectedEnvId.None? || selectedEnvId == Some("")) {
        selectedEnvId := Some(initial[0].id);
      }
    }

    /** `handleAddEnvironment`; `newId` stands for `crypto.randomUUID()`. */
    method AddEnvironment(newId: string)
      modifies this
      ensures environments == old(environments) + [Environment(newId, "New Environment", [], [])]
      ensures selectedEnvId == Some(newId)
      ensures Names(environments, selectedEnvId)
    {
      var newEnv := Environment(newId, "New Environment", [], []);
      environments := environments + [newEnv];
      selectedEnvId := Some(newEnv.id);
      assert environments[|environments| - 1] == newEnv;
    }

    /** `handleDeleteEnvironment(id)` */
    method DeleteEnvironment(id: string)
      modifies this
      ensures environments == RemoveEnvironment(old(environments), id)
      ensures selectedEnvId == SelectionAfterDelete(environments, old(selectedEnvId), id)
      ensures old(Names(environments, selectedEnvId)) ==> Names(environments, selectedEnvId)
    {
      if Names(environments, selectedEnvId) {
        DeleteKeepsSelectionValid(environments, selectedEnvId, id);
      }
      var newEnvs := RemoveEnvironment(environments, id);
      environments := newEnvs;
      if selectedEnvId == Some(id) {
        selectedEnvId := if |newEnvs| > 0 then Some(newEnvs[0].id) else None;
      }
    }

    /** `updateEnvName(name)` */
    method UpdateEnvName(name: string)
      modifies this
      ensures selectedEnvId == old(selectedEnvId)
      ensures old(SelectedEnv()).None? ==> environments == old(environments)
      ensures old(SelectedEnv()).Some? ==> environments == MapSelected(old(environments), selectedEnvId, (e: Environment) => e.(name := name))
    {
      if SelectedEnv().None? {
        return;
      }
      environments := MapSelected(environments, selectedEnvId, (e: Environment) => e.(name := name));
    }

    /** `addItem(type)`: a blank row at the end of the chosen list of the selected environment. */
    method AddItem(kind: ListKind)
      modifies this
      ensures selectedEnvId == old(selectedEnvId)
      ensures old(SelectedEnv()).None? ==> environments == old(environments)
      ensures old(SelectedEnv()).Some? ==> environments == MapSelected(old(environments), selectedEnvId, AddRow(kind))
    {
      if SelectedEnv().None? {
        return;
      }
      environments := MapSelected(environments, selectedEnvId, AddRow(kind));
    }

    /** `updateItem(type, index, field, value)`: the selected environment's list, copied and changed at one row. */
    method UpdateItem(kind: ListKind, index: nat, u: FieldUpdate)
      requires SelectedEnv().Some? ==> index < |ListOf(SelectedEnv().value, kind)|
      modifies this
      ensures selectedEnvId == old(selectedEnvId)
      ensures old(SelectedEnv()).None? ==> environments == old(environments)
      ensures old(SelectedEnv()).Some? ==>
        var newList := SetAt(ListOf(old(SelectedEnv()).value, kind), index, u);
        environments == MapSelected(old(environments), selectedEnvId, e => WithList(e, kind, newList))
    {
      var selectedEnv := SelectedEnv();
      if selectedEnv.None? {
        return;
      }
      var newList := ListOf(selectedEnv.value, kind);
      newList := newList[index := WithField(newList[index], u)];
      environments := MapSelected(environments, selectedEnvId, e => WithList(e, kind, newList));
    }

    /** `removeItem(type, index)` */
    method RemoveItem(kind: ListKind, index: nat)
      modifies this
      ensures selectedEnvId == old(selectedEnvId)
      ensures old(SelectedEnv()).None? ==> environments == old(environments)
      ensures old(SelectedEnv()).Some? ==>
        var newList := RemoveAt(ListOf(old(SelectedEnv()).value, kind), index);
        environments == MapSelected(old(environments), selectedEnvId, e => WithList(e, kind, newList))
    {
      var selectedEnv := SelectedEnv();
      if selectedEnv.None? {
        return;
      }
      var newList := RemoveAt(ListOf(selectedEnv.value, kind), index);
      environments := MapSelected(environments, selectedEnvId, e => WithList(e, kind, newList));
    }
  }

  /**
   * A row edit changes only the chosen list of the environments with the
   * selected id: their other list, their id and name, and every other
   * environment stay as they were.
   */
  lemma RowEditTouchesOnlyChosenList(envs: seq<Environment>, selected: Option<string>, kind: ListKind, newList: seq<Parameter>, i: nat)
    requires i < |envs|
    ensures var r := MapSelected(envs, selected, e => WithList(e, kind, newList));
      && r[i].id == envs[i].id && r[i].name == envs[i].name
      && (selected != Some(envs[i].id) ==> r[i] == envs[i])
      && (selected == Some(envs[i].id) ==>
            && ListOf(r[i], kind) == newList
            && ListOf(r[i], if kind == Variables then Headers else Variables) == ListOf(envs[i], if kind == Variables then Headers else Variables))
  {
  }
}
