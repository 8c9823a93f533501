/**
 * Editing a list of key/value/enabled entries by row index, as the
 * secrets, global headers and headers editors all do: append a blank row,
 * set one field of a row, flip a row's enabled flag, or drop a row.
 */
module ParamList {
  import opened Options
  import opened VariableSubstitution
  import opened Filters

  /** The row every "add" appends. */
  const Blank := Parameter("", "", true)

  /** `{ ...row, [field]: value }` for a field and a value of its type. */
  datatype FieldUpdate = SetKey(key: string) | SetValue(value: string) | SetEnabled(enabled: bool)

  function WithField(p: Parameter, u: FieldUpdate): (r: Parameter)
    ensures u.SetKey? ==> r.key == u.key && r.value == p.value && r.isEnabled == p.isEnabled
    ensures u.SetValue? ==> r.value == u.value && r.key == p.key && r.isEnabled == p.isEnabled
    ensures u.SetEnabled? ==> r.isEnabled == u.enabled && r.key == p.key && r.value == p.value
  {
    match u
    case SetKey(k) => p.(key := k)
    case SetValue(v) => p.(value := v)
    case SetEnabled(b) => p.(isEnabled := b)
  }

  /** `[...list, blank]`: the old rows untouched, the blank row last. */
  function Append(list: seq<Parameter>): (r: seq<Parameter>)
    ensures |r| == |list| + 1 && r[..|list|] == list && r[|list|] == Blank
  {
    list + [Blank]
  }

  /** Copy the list, then replace row `index` by the updated row. */
  function SetAt(list: seq<Parameter>, index: nat, u: FieldUpdate): (r: seq<Parameter>)
    requires index < |list|
    ensures |r| == |list|
    ensures r[index] == WithField(list[index], u)
    ensures forall j :: 0 <= j < |list| && j != index ==> r[j] == list[j]
  {
    list[index := WithField(list[index], u)]
  }

  /** Copy the list, then flip row `index`'s enabled flag. */
  function Toggle(list: seq<Parameter>, index: nat): (r: seq<Parameter>)
    requires index < |list|
    ensures |r| == |list|
    ensures r[index] == list[index].(isEnabled := !list[index].isEnabled)
    ensures forall j :: 0 <= j < |list| && j != index ==> r[j] == list[j]
  {
    list[index := list[index].(isEnabled := !list[index].isEnabled)]
  }

  /** Flipping the same row twice gives the list back. */
  lemma ToggleTwice(list: seq<Parameter>, index: nat)
    requires index < |list|
    ensures Toggle(Toggle(list, index), index) == list
  {
  }

  /** `list.filter((_, i) => i !== index)`, for rows of any kind. */
  function RemoveAt<T>(list: seq<T>, index: nat): (r: seq<T>)
    decreases |list|
  {
    if list == [] then []
    else if index == 0 then list[1..]
    else [list[0]] + RemoveAt(list[1..], index - 1)
  }

  /**
   * Removing a row that exists drops exactly that row: the ones before
   * keep their place, the ones after move up by one.
   */
  lemma {:induction false} RemoveAtDropsRow<T>(list: seq<T>, index: nat)
    requires index < |list|
    ensures var r := RemoveAt(list, index);
      && |r| == |list| - 1
      && (forall j :: 0 <= j < index ==> r[j] == list[j])
      && (forall j :: index <= j < |r| ==> r[j] == list[j + 1])
    decreases |list|
  {
    if index > 0 {
      RemoveAtDropsRow(list[1..], index - 1);
    }
  }

  /** Removing a row past the end changes nothing. */
  lemma {:induction false} RemoveAtPastEnd<T>(list: seq<T>, index: nat)
    requires index >= |list|
    ensures RemoveAt(list, index) == list
    decreases |list|
  {
    if list != [] {
      RemoveAtPastEnd(list[1..], index - 1);
      assert list == [list[0]] + list[1..];
    }
  }

  /** Removing the row just appended gives the list back. */
  lemma RemoveAppended(list: seq<Parameter>)
    ensures RemoveAt(Append(list), |list|) == list
  {
    var r := RemoveAt(Append(list), |list|);
    RemoveAtDropsRow(Append(list), |list|);
    assert r == list;
  }

  /** The rows shown as read-only: enabled with a non-empty key, in order. */
  function Visible(list: seq<Parameter>): (r: seq<Parameter>)
    ensures |r| <= |list|
    ensures forall p :: p in r <==> p in list && p.isEnabled && p.key != ""
  {
    if list == [] then []
    else if list[0].isEnabled && list[0].key != "" then [list[0]] + Visible(list[1..])
    else Visible(list[1..])
  }

  predicate Shown(p: Parameter) {
    p.isEnabled && p.key != ""
  }

  /** `Visible` is the in-order filter for enabled rows with a key. */
  lemma {:induction false} VisibleIsFilter(list: seq<Parameter>)
    ensures Visible(list) == Filter(list, Shown)
    decreases |list|
  {
    if list != [] {
      VisibleIsFilter(list[1..]);
    }
  }

  /** `list.find(s => s.key === key && s.isEnabled)?.value ?? null` */
  function FindEnabledValue(list: seq<Parameter>, key: string): (r: Option<string>)
    ensures r.None? <==> forall j :: 0 <= j < |list| ==> !(list[j].key == key && list[j].isEnabled)
    decreases |list|
  {
    if list == [] then None
    else if list[0].key == key && list[0].isEnabled then Some(list[0].value)
    else
      var r := FindEnabledValue(list[1..], key);
      assert forall j :: 1 <= j < |list| ==> list[1..][j - 1] == list[j];
      r
  }

  /** The value found is that of the first enabled row with the key. */
  lemma {:induction false} FindEnabledValueFirst(list: seq<Parameter>, key: string, j: nat)
    requires j < |list| && list[j].key == key && list[j].isEnabled
    requires forall i :: 0 <= i < j ==> !(list[i].key == key && list[i].isEnabled)
    ensures FindEnabledValue(list, key) == Some(list[j].value)
    decreases j
  {
    if j > 0 {
      FindEnabledValueFirst(list[1..], key, j - 1);
    }
  }
}
