/**
 * The workspace page: the composer state, the request history, the
 * collection tree and its edits, and the assembly of the outgoing request
 * from the composer, the active environment, the secrets and the global
 * headers.
 */
module Workspace {
  import opened Options
  import opened VariableSubstitution
  import opened RequestTypes
  import opened PostmanParser

  /** The history keeps the newest entries up to this many. */
  const HistoryLimit: nat := 50

  /** The header a fresh composer starts with. */
  const DefaultHeader := Parameter("Content-Type", "application/json", true)

  /** The arguments handed to the dispatcher. */
  datatype Outgoing = Outgoing(url: string, httpMethod: string, headers: seq<Parameter>, body: string)

  function Min(a: nat, b: nat): nat {
    if a <= b then a else b
  }

  /** The new entry in front, the list cut to the newest fifty. */
  function CapHistory(history: seq<HistoryItem>, item: HistoryItem): (r: seq<HistoryItem>)
    ensures |r| == Min(|history| + 1, HistoryLimit)
    ensures r[0] == item
    ensures forall i :: 1 <= i < |r| ==> r[i] == history[i - 1]
  {
    var all := [item] + history;
    all[..Min(|all|, HistoryLimit)]
  }

  // ---------------------------------------------------------------------
  // Assembly of the outgoing request

  /** `hs.filter(h => h.isEnabled).map(h => ({key, value, isEnabled: true}))` */
  function EnabledLayer(hs: seq<Parameter>): (r: seq<Parameter>)
    ensures |r| == |Enabled(hs)|
    ensures forall i :: 0 <= i < |r| ==> r[i] == Enabled(hs)[i].(isEnabled := true)
  {
    var e := Enabled(hs);
    seq(|e|, i requires 0 <= i < |e| => Parameter(e[i].key, e[i].value, true))
  }

  /** Forcing `isEnabled` on entries already filtered for it changes nothing. */
  lemma EnabledLayerIsEnabled(hs: seq<Parameter>)
    ensures EnabledLayer(hs) == Enabled(hs)
  {
    var e := Enabled(hs);
    forall i | 0 <= i < |e|
      ensures e[i].isEnabled
    {
      assert e[i] in e;
    }
  }

  /** The variables of the active environment, none without one. */
  function EnvVars(env: Option<Environment>): seq<Parameter> {
    if env.Some? then env.value.variables else []
  }

  /** Environment variables are applied only when an environment is active and has variables. */
  predicate UsesEnv(env: Option<Environment>) {
    env.Some? && |env.value.variables| > 0
  }

  /** The environment's header layer: its enabled headers, substituted with its variables only. */
  function EnvLayer(env: Option<Environment>): seq<Parameter> {
    if env.Some? && |env.value.headers| > 0 then SubstituteHeaders(EnabledLayer(env.value.headers), env.value.variables)
    else []
  }

  /** The global header layer: the enabled global headers, substituted with the environment and then the secrets. */
  function GlobalLayer(globals: seq<Parameter>, env: Option<Environment>, secrets: seq<Parameter>): seq<Parameter> {
    var g := EnabledLayer(globals);
    var g1 := if UsesEnv(env) then SubstituteHeaders(g, EnvVars(env)) else g;
    if |secrets| > 0 then SubstituteHeaders(g1, secrets) else g1
  }

  /** A text as it leaves the two substitution stages. */
  function Staged(s: string, env: Option<Environment>, secrets: seq<Parameter>): string {
    var s1 := if UsesEnv(env) then Substitute(s, EnvVars(env)) else s;
    if |secrets| > 0 then Substitute(s1, secrets) else s1
  }

  /** The request headers as they leave the two substitution stages. */
  function StagedHeaders(hs: seq<Parameter>, env: Option<Environment>, secrets: seq<Parameter>): seq<Parameter> {
    var h1 := if UsesEnv(env) then SubstituteHeaders(hs, EnvVars(env)) else hs;
    if |secrets| > 0 then SubstituteHeaders(h1, secrets) else h1
  }

  /** The structured body as it leaves the two substitution stages. */
  function StagedBody(b: StructuredBody, env: Option<Environment>, secrets: seq<Parameter>): StructuredBody {
    var vars := EnvVars(env);
    var b1 := if UsesEnv(env) then SubstituteStructuredBody(b, s => Substitute(s, vars)) else b;
    if |secrets| > 0 then SubstituteStructuredBody(b1, s => Substitute(s, secrets)) else b1
  }

  /** What `handleSend` hands to `sendRequest`. */
  function Assemble(
    url: string, httpMethod: string, headers: seq<Parameter>, body: string,
    env: Option<Environment>, secrets: seq<Parameter>, globals: seq<Parameter>, codec: JsonCodec): Outgoing
  {
    Outgoing(
      Staged(url, env, secrets),
      httpMethod,
      StagedHeaders(headers, env, secrets) + EnvLayer(env) + GlobalLayer(globals, env, secrets),
      StringifyBodyContent(StagedBody(ParseBodyContent(body, codec), env, secrets), codec))
  }

  /** Substituting with an empty list is the identity on header lists too. */
  lemma SubstituteHeadersEmpty(hs: seq<Parameter>)
    ensures SubstituteHeaders(hs, []) == hs
  {
    forall i | 0 <= i < |hs|
      ensures SubstituteHeaders(hs, [])[i] == hs[i]
    {
      SubstituteNoVariables(hs[i].key);
      SubstituteNoVariables(hs[i].value);
    }
  }

  /** The guards are immaterial: each stage is plain substitution, environment first, then secrets. */
  lemma StagedIsEnvThenSecrets(s: string, env: Option<Environment>, secrets: seq<Parameter>)
    ensures Staged(s, env, secrets) == Substitute(Substitute(s, EnvVars(env)), secrets)
  {
    SubstituteNoVariables(s);
    SubstituteNoVariables(Substitute(s, EnvVars(env)));
  }

  /** The request headers are substituted field by field, environment first, and keep their `isEnabled`. */
  lemma StagedHeadersFields(hs: seq<Parameter>, env: Option<Environment>, secrets: seq<Parameter>)
    ensures var out := StagedHeaders(hs, env, secrets);
      && |out| == |hs|
      && forall i :: 0 <= i < |hs| ==>
           && out[i].isEnabled == hs[i].isEnabled
           && out[i].key == Substitute(Substitute(hs[i].key, EnvVars(env)), secrets)
           && out[i].value == Substitute(Substitute(hs[i].value, EnvVars(env)), secrets)
  {
    SubstituteHeadersEmpty(hs);
    SubstituteHeadersEmpty(SubstituteHeaders(hs, EnvVars(env)));
    forall i | 0 <= i < |hs|
      ensures Staged(hs[i].key, env, secrets) == Substitute(Substitute(hs[i].key, EnvVars(env)), secrets)
      ensures Staged(hs[i].value, env, secrets) == Substitute(Substitute(hs[i].value, EnvVars(env)), secrets)
    {
      StagedIsEnvThenSecrets(hs[i].key, env, secrets);
      StagedIsEnvThenSecrets(hs[i].value, env, secrets);
    }
  }

  /** The environment layer holds one enabled entry per enabled environment header. */
  lemma EnvLayerCount(env: Option<Environment>)
    ensures |EnvLayer(env)| == (if env.Some? then |Enabled(env.value.headers)| else 0)
    ensures forall i :: 0 <= i < |EnvLayer(env)| ==> EnvLayer(env)[i].isEnabled
  {
    if env.Some? && |env.value.headers| == 0 {
      assert Enabled(env.value.headers) == [];
    }
  }

  /**
   * The merged header list is exactly the request headers, then the
   * environment layer, then the global layer, nothing filtered out: its
   * length is the sum of the three, and disabled request headers stay.
   */
  lemma MergedHeaderLayers(
    url: string, httpMethod: string, headers: seq<Parameter>, body: string,
    env: Option<Environment>, secrets: seq<Parameter>, globals: seq<Parameter>, codec: JsonCodec)
    ensures var out := Assemble(url, httpMethod, headers, body, env, secrets, globals, codec).headers;
      var envCount := if env.Some? then |Enabled(env.value.headers)| else 0;
      && |out| == |headers| + envCount + |Enabled(globals)|
      && out[..|headers|] == StagedHeaders(headers, env, secrets)
      && out[|headers|..|headers| + envCount] == EnvLayer(env)
      && out[|headers| + envCount..] == GlobalLayer(globals, env, secrets)
  {
    var a := StagedHeaders(headers, env, secrets);
    var e := EnvLayer(env);
    var g := GlobalLayer(globals, env, secrets);
    StagedHeadersFields(headers, env, secrets);
    EnvLayerCount(env);
    GlobalLayerStaged(globals, env, secrets);
    var out := a + e + g;
    assert out[..|a|] == a;
    assert out[|a|..|a| + |e|] == e;
    assert out[|a| + |e|..] == g;
  }

  /** The environment layer does not see the secrets: changing them leaves it as it is. */
  lemma EnvLayerIgnoresSecrets(
    url: string, httpMethod: string, headers: seq<Parameter>, body: string,
    env: Option<Environment>, secrets1: seq<Parameter>, secrets2: seq<Parameter>, globals: seq<Parameter>, codec: JsonCodec)
    ensures var out1 := Assemble(url, httpMethod, headers, body, env, secrets1, globals, codec).headers;
      var out2 := Assemble(url, httpMethod, headers, body, env, secrets2, globals, codec).headers;
      var k := |EnvLayer(env)|;
      && |out1| == |out2|
      && out1[|headers|..|headers| + k] == out2[|headers|..|headers| + k] == EnvLayer(env)
  {
    var s1 := StagedHeaders(headers, env, secrets1);
    var s2 := StagedHeaders(headers, env, secrets2);
    var out1 := s1 + EnvLayer(env) + GlobalLayer(globals, env, secrets1);
    var out2 := s2 + EnvLayer(env) + GlobalLayer(globals, env, secrets2);
    assert out1[|headers|..|headers| + |EnvLayer(env)|] == EnvLayer(env);
    assert out2[|headers|..|headers| + |EnvLayer(env)|] == EnvLayer(env);
  }

  /** Each global header is substituted with the environment and then the secrets. */
  lemma GlobalLayerStaged(globals: seq<Parameter>, env: Option<Environment>, secrets: seq<Parameter>)
    ensures var g := GlobalLayer(globals, env, secrets);
      && |g| == |Enabled(globals)|
      && forall i :: 0 <= i < |g| ==>
           && g[i].isEnabled
           && g[i].key == Substitute(Substitute(Enabled(globals)[i].key, EnvVars(env)), secrets)
           && g[i].value == Substitute(Substitute(Enabled(globals)[i].value, EnvVars(env)), secrets)
  {
    var e := EnabledLayer(globals);
    SubstituteHeadersEmpty(e);
    SubstituteHeadersEmpty(SubstituteHeaders(e, EnvVars(env)));
    forall i | 0 <= i < |e|
      ensures Staged(e[i].key, env, secrets) == Substitute(Substitute(e[i].key, EnvVars(env)), secrets)
      ensures Staged(e[i].value, env, secrets) == Substitute(Substitute(e[i].value, EnvVars(env)), secrets)
    {
      StagedIsEnvThenSecrets(e[i].key, env, secrets);
      StagedIsEnvThenSecrets(e[i].value, env, secrets);
    }
  }

  /** The body sent is the parsed body with every text field run through both stages, environment first. */
  lemma StagedBodyIsEnvThenSecrets(b: StructuredBody, env: Option<Environment>, secrets: seq<Parameter>)
    ensures StagedBody(b, env, secrets) == SubstituteStructuredBody(b, s => Substitute(Substitute(s, EnvVars(env)), secrets))
  {
    var vars := EnvVars(env);
    var f := s => Substitute(s, vars);
    var g := s => Substitute(s, secrets);
    var both := s => Substitute(Substitute(s, vars), secrets);
    forall s: string
      ensures Substitute(s, []) == s
    {
      SubstituteNoVariables(s);
    }
    if UsesEnv(env) && |secrets| > 0 {
      SubstituteCompose(b, f, g);
      SubstituteExtensional(b, s => g(f(s)), both);
    } else if UsesEnv(env) {
      SubstituteExtensional(b, f, both);
    } else if |secrets| > 0 {
      SubstituteExtensional(b, g, both);
    } else {
      SubstituteIdentity(b);
      SubstituteExtensional(b, s => s, both);
    }
  }

  /** With no environment and no secrets the request goes out as composed, plus the enabled global headers. */
  lemma NothingToSubstitute(url: string, httpMethod: string, headers: seq<Parameter>, body: string, globals: seq<Parameter>, codec: JsonCodec)
    ensures Assemble(url, httpMethod, headers, body, None, [], globals, codec)
         == Outgoing(url, httpMethod, headers + Enabled(globals), StringifyBodyContent(ParseBodyContent(body, codec), codec))
  {
    EnabledLayerIsEnabled(globals);
    assert headers + [] == headers;
  }

  // ---------------------------------------------------------------------
  // The collection tree

  /** Some node at some depth has the id. */
  predicate HasId(items: seq<CollectionItem>, id: string)
    decreases items
  {
    && items != []
    && (|| items[0].id == id
        || (items[0].children.Present? && HasId(items[0].children.items, id))
        || HasId(items[1..], id))
  }

  /** The ids and names of all nodes, in depth-first order. */
  function Outline(items: seq<CollectionItem>): seq<(string, string)>
    decreases items
  {
    if items == [] then []
    else
      [(items[0].id, items[0].name)]
      + (if items[0].children.Present? then Outline(items[0].children.items) else [])
      + Outline(items[1..])
  }

  /** `updateItemInList`: the request fields of the node with the id are overwritten; its children are not searched. */
  function UpdateItemInList(items: seq<CollectionItem>, id: string, m: string, u: string, hs: seq<Parameter>, b: string): (r: seq<CollectionItem>)
    ensures |r| == |items|
    ensures forall i :: 0 <= i < |r| ==>
      && r[i].id == items[i].id && r[i].name == items[i].name && r[i].kind == items[i].kind
      && (items[i].id == id ==>
            r[i] == items[i].(httpMethod := Some(m), url := Some(u), headers := Some(hs), body := Some(b)))
      && (items[i].id != id ==>
            r[i].httpMethod == items[i].httpMethod && r[i].url == items[i].url
            && r[i].headers == items[i].headers && r[i].body == items[i].body)
      && (items[i].id != id && items[i].children.Absent? ==> r[i] == items[i])
      && (items[i].id != id && items[i].children.Present? ==>
            r[i] == items[i].(children := Present(UpdateItemInList(items[i].children.items, id, m, u, hs, b))))
    decreases items
  {
    if items == [] then []
    else
      var n := items[0];
      var head :=
        if n.id == id then n.(httpMethod := Some(m), url := Some(u), headers := Some(hs), body := Some(b))
        else if n.children.Present? then n.(children := Present(UpdateItemInList(n.children.items, id, m, u, hs, b)))
        else n;
      [head] + UpdateItemInList(items[1..], id, m, u, hs, b)
  }

  /** Saving keeps every id and name at every depth, in order. */
  lemma {:induction false} UpdateKeepsOutline(items: seq<CollectionItem>, id: string, m: string, u: string, hs: seq<Parameter>, b: string)
    ensures Outline(UpdateItemInList(items, id, m, u, hs, b)) == Outline(items)
    decreases items
  {
    if items != [] {
      var n := items[0];
      var r := UpdateItemInList(items, id, m, u, hs, b);
      UpdateKeepsOutline(items[1..], id, m, u, hs, b);
      if n.id != id && n.children.Present? {
        UpdateKeepsOutline(n.children.items, id, m, u, hs, b);
      }
      assert r[1..] == UpdateItemInList(items[1..], id, m, u, hs, b);
    }
  }

  /** Saving to an id the tree does not hold changes nothing. */
  lemma {:induction false} UpdateMissing(items: seq<CollectionItem>, id: string, m: string, u: string, hs: seq<Parameter>, b: string)
    requires !HasId(items, id)
    ensures UpdateItemInList(items, id, m, u, hs, b) == items
    decreases items
  {
    if items != [] {
      var n := items[0];
      if n.children.Present? {
        UpdateMissing(n.children.items, id, m, u, hs, b);
      }
      UpdateMissing(items[1..], id, m, u, hs, b);
      assert items == [n] + items[1..];
    }
  }

  /** `editItemInList`: the node with the id is renamed; its children are not searched. */
  function EditItemInList(items: seq<CollectionItem>, id: string, newName: string): (r: seq<CollectionItem>)
    ensures |r| == |items|
    ensures forall i :: 0 <= i < |r| ==>
      && r[i].id == items[i].id && r[i].kind == items[i].kind
      && r[i].name == (if items[i].id == id then newName else items[i].name)
      && (items[i].id == id ==> r[i] == items[i].(name := newName))
      && (items[i].id != id && items[i].children.Absent? ==> r[i] == items[i])
      && (items[i].id != id && items[i].children.Present? ==>
            r[i] == items[i].(children := Present(EditItemInList(items[i].children.items, id, newName))))
    decreases items
  {
    if items == [] then []
    else
      var n := items[0];
      var head :=
        if n.id == id then n.(name := newName)
        else if n.children.Present? then n.(children := Present(EditItemInList(n.children.items, id, newName)))
        else n;
      [head] + EditItemInList(items[1..], id, newName)
  }

  /** Renaming keeps the tree's shape: the same nodes at every depth. */
  lemma {:induction false} EditKeepsSize(items: seq<CollectionItem>, id: string, newName: string)
    ensures Size(EditItemInList(items, id, newName)) == Size(items)
    decreases items
  {
    if items != [] {
      var n := items[0];
      var r := EditItemInList(items, id, newName);
      EditKeepsSize(items[1..], id, newName);
      if n.id != id && n.children.Present? {
        EditKeepsSize(n.children.items, id, newName);
      }
      assert r[1..] == EditItemInList(items[1..], id, newName);
    }
  }

  /** The children of a node, the absent list read as empty (`item.children || []`). */
  function ChildrenOf(n: CollectionItem): seq<CollectionItem> {
    if n.children.Present? then n.children.items else []
  }

  /** `addItemToList`: the new node is appended to the children of the node with the parent id; its children are not searched. */
  function AddItemToList(items: seq<CollectionItem>, parentId: string, newItem: CollectionItem): (r: seq<CollectionItem>)
    ensures |r| == |items|
    ensures forall i :: 0 <= i < |r| ==>
      && r[i].id == items[i].id && r[i].name == items[i].name && r[i].kind == items[i].kind
      && (items[i].id == parentId ==> r[i] == items[i].(children := Present(ChildrenOf(items[i]) + [newItem])))
      && (items[i].id != parentId && items[i].children.Absent? ==> r[i] == items[i])
      && (items[i].id != parentId && items[i].children.Present? ==>
            r[i] == items[i].(children := Present(AddItemToList(items[i].children.items, parentId, newItem))))
    decreases items
  {
    if items == [] then []
    else
      var n := items[0];
      var head :=
        if n.id == parentId then n.(children := Present(ChildrenOf(n) + [newItem]))
        else if n.children.Present? then n.(children := Present(AddItemToList(n.children.items, parentId, newItem)))
        else n;
      [head] + AddItemToList(items[1..], parentId, newItem)
  }

  /** The parents `addItemToList` reaches: nodes with the id that are not below another such node. */
  function Reached(items: seq<CollectionItem>, id: string): nat
    decreases items
  {
    if items == [] then 0
    else
      (if items[0].id == id then 1
       else if items[0].children.Present? then Reached(items[0].children.items, id)
       else 0)
      + Reached(items[1..], id)
  }

  /** Adding a fresh node grows the tree by one node per parent reached. */
  lemma {:induction false} AddGrowsTree(items: seq<CollectionItem>, parentId: string, newItem: CollectionItem)
    requires Size([newItem]) == 1
    ensures Size(AddItemToList(items, parentId, newItem)) == Size(items) + Reached(items, parentId)
    decreases items
  {
    if items != [] {
      var n := items[0];
      var r := AddItemToList(items, parentId, newItem);
      AddGrowsTree(items[1..], parentId, newItem);
      assert r[1..] == AddItemToList(items[1..], parentId, newItem);
      if n.id == parentId {
        SizeAppend(ChildrenOf(n), [newItem]);
      } else if n.children.Present? {
        AddGrowsTree(n.children.items, parentId, newItem);
      }
    }
  }

  /** A parent id that is in the tree is reached. */
  lemma {:induction false} ParentReached(items: seq<CollectionItem>, parentId: string)
    requires HasId(items, parentId)
    ensures Reached(items, parentId) >= 1
    decreases items
  {
    var n := items[0];
    if n.id != parentId {
      if n.children.Present? && HasId(n.children.items, parentId) {
        ParentReached(n.children.items, parentId);
      } else {
        ParentReached(items[1..], parentId);
      }
    }
  }

  lemma {:induction false} SizeAppend(a: seq<CollectionItem>, b: seq<CollectionItem>)
    ensures Size(a + b) == Size(a) + Size(b)
    decreases a
  {
    if a != [] {
      assert (a + b)[1..] == a[1..] + b;
      SizeAppend(a[1..], b);
    } else {
      assert a + b == b;
    }
  }

  /** The top-level nodes whose id is not `id`, in their order. */
  function Survivors(items: seq<CollectionItem>, id: string): (r: seq<CollectionItem>)
    ensures |r| <= |items|
    ensures forall j :: 0 <= j < |r| ==> r[j] in items && r[j].id != id
    decreases items
  {
    if items == [] then []
    else if items[0].id == id then Survivors(items[1..], id)
    else [items[0]] + Survivors(items[1..], id)
  }

  /** `deleteItemFromList`: nodes with the id are dropped at every depth. */
  function DeleteItemFromList(items: seq<CollectionItem>, id: string): (r: seq<CollectionItem>)
    ensures |r| <= |items|
    decreases items
  {
    if items == [] then []
    else
      var rest := DeleteItemFromList(items[1..], id);
      var n := items[0];
      if n.id == id then rest
      else if n.children.Present? then [n.(children := Present(DeleteItemFromList(n.children.items, id)))] + rest
      else [n] + rest
  }

  /** The top-level ids, in order. */
  function TopIds(items: seq<CollectionItem>): (r: seq<string>)
    ensures |r| == |items|
  {
    seq(|items|, i requires 0 <= i < |items| => items[i].id)
  }

  /** The ids other than `id`, in order. */
  function Without(ids: seq<string>, id: string): seq<string> {
    if ids == [] then []
    else if ids[0] == id then Without(ids[1..], id)
    else [ids[0]] + Without(ids[1..], id)
  }

  /** After a delete no node with the id remains at any depth. */
  lemma {:induction false} DeleteRemovesEverywhere(items: seq<CollectionItem>, id: string)
    ensures !HasId(DeleteItemFromList(items, id), id)
    decreases items
  {
    if items != [] {
      var n := items[0];
      DeleteRemovesEverywhere(items[1..], id);
      if n.id != id && n.children.Present? {
        DeleteRemovesEverywhere(n.children.items, id);
      }
    }
  }

  /** The surviving siblings keep their order: the top level is the old one with the id filtered out. */
  lemma {:induction false} DeleteKeepsOrder(items: seq<CollectionItem>, id: string)
    ensures TopIds(DeleteItemFromList(items, id)) == Without(TopIds(items), id)
    decreases items
  {
    if items != [] {
      DeleteKeepsOrder(items[1..], id);
      assert TopIds(items)[1..] == TopIds(items[1..]);
      var r := DeleteItemFromList(items, id);
      if items[0].id != id {
        assert TopIds(r) == [items[0].id] + TopIds(DeleteItemFromList(items[1..], id));
      }
    }
  }

  /** `d` is `n` with the nodes with the id pruned from its children, at every depth. */
  predicate PrunedFrom(d: CollectionItem, n: CollectionItem, id: string) {
    && (n.children.Absent? ==> d == n)
    && (n.children.Present? ==> d == n.(children := Present(DeleteItemFromList(n.children.items, id))))
  }

  /**
   * The j-th remaining node is the j-th surviving sibling, with its
   * children pruned the same way; this fixes the result at every depth.
   */
  lemma {:induction false} DeleteKeepsSurvivors(items: seq<CollectionItem>, id: string)
    ensures |DeleteItemFromList(items, id)| == |Survivors(items, id)|
    ensures forall j :: 0 <= j < |Survivors(items, id)| ==>
      PrunedFrom(DeleteItemFromList(items, id)[j], Survivors(items, id)[j], id)
    decreases items
  {
    if items != [] {
      var n, rest := items[0], items[1..];
      DeleteKeepsSurvivors(rest, id);
      if n.id != id {
        var d, sv := DeleteItemFromList(items, id), Survivors(items, id);
        var dr, sr := DeleteItemFromList(rest, id), Survivors(rest, id);
        assert sv == [n] + sr;
        assert d[1..] == dr;
        forall j | 0 <= j < |sv|
          ensures PrunedFrom(d[j], sv[j], id)
        {
          if j > 0 {
            assert d[j] == dr[j - 1] && sv[j] == sr[j - 1];
          }
        }
      }
    }
  }

  /** Deleting an id the tree does not hold changes nothing. */
  lemma {:induction false} DeleteMissing(items: seq<CollectionItem>, id: string)
    requires !HasId(items, id)
    ensures DeleteItemFromList(items, id) == items
    decreases items
  {
    if items != [] {
      var n := items[0];
      if n.children.Present? {
        DeleteMissing(n.children.items, id);
      }
      DeleteMissing(items[1..], id);
      assert items == [n] + items[1..];
    }
  }

  /** The node `handleCreateCollectionItem` creates. */
  function NewItem(id: string, isFolder: bool): (n: CollectionItem)
    ensures WellShaped(n) && Size([n]) == 1
  {
    if isFolder then CollectionItem(id, "New Folder", "folder", None, None, None, None, Present([]))
    else CollectionItem(id, "New Request", "request", Some("GET"), Some(""), Some([]), Some(""), Absent)
  }

  /** A JavaScript string or null used as a condition. */
  predicate Nonblank(s: Option<string>) {
    s.Some? && s.value != ""
  }

  /** The page's state: the composer, history, collections and environments. */
  class Home {
    var httpMethod: string
    var url: string
    var headers: seq<Parameter>
    var body: string
    var history: seq<HistoryItem>
    var collections: seq<CollectionItem>
    var activeItemId: Option<string>
    var environments: seq<Environment>
    var activeEnvironmentId: Option<string>

    /** The state on first render, before anything is loaded. */
    constructor ()
      ensures httpMethod == "GET" && url == "" && headers == [DefaultHeader] && body == ""
      ensures history == [] && collections == [] && activeItemId == None
      ensures environments == [] && activeEnvironmentId == None
    {
      httpMethod, url, headers, body := "GET", "", [DefaultHeader], "";
      history, collections, activeItemId := [], [], None;
      environments, activeEnvironmentId := [], None;
    }

    /**
     * `handleSend`: with an empty URL nothing happens; otherwise the raw
     * request goes to the front of the history and the assembled request
     * is returned for dispatch. `newId` and `date` stand for
     * `crypto.randomUUID()` and the current time.
     */
    method Send(secrets: seq<Parameter>, globals: seq<Parameter>, codec: JsonCodec, newId: string, date: string)
      returns (sent: Option<Outgoing>)
      modifies this
      ensures httpMethod == old(httpMethod) && url == old(url) && headers == old(headers) && body == old(body)
      ensures collections == old(collections) && activeItemId == old(activeItemId)
      ensures environments == old(environments) && activeEnvironmentId == old(activeEnvironmentId)
      ensures url == "" ==> sent == None && history == old(history)
      ensures url != "" ==>
        && history == CapHistory(old(history), HistoryItem(newId, httpMethod, url, date, headers, body))
        && sent == Some(Assemble(url, httpMethod, headers, body,
                                 FindEnvironment(environments, activeEnvironmentId), secrets, globals, codec))
    {
      if url == "" {
        return None;
      }
      history := CapHistory(history, HistoryItem(newId, httpMethod, url, date, headers, body));

      var finalUrl := url;
      var finalHeaders := headers;
      var finalBody := ParseBodyContent(body, codec);

      var activeEnv := FindEnvironment(environments, activeEnvironmentId);
      var envHeaders: seq<Parameter> := [];
      if activeEnv.Some? {
        var vars := activeEnv.value.variables;
        if |vars| > 0 {
          finalUrl := SubstituteVariables(finalUrl, vars);
          finalHeaders := SubstituteHeaders(finalHeaders, vars);
          finalBody := SubstituteStructuredBody(finalBody, s => Substitute(s, vars));
        }
        if |activeEnv.value.headers| > 0 {
          envHeaders := SubstituteHeaders(EnabledLayer(activeEnv.value.headers), vars);
        }
      }

      if |secrets| > 0 {
        finalUrl := SubstituteVariables(finalUrl, secrets);
        finalHeaders := SubstituteHeaders(finalHeaders, secrets);
        finalBody := SubstituteStructuredBody(finalBody, s => Substitute(s, secrets));
      }

      var globalHeaders := EnabledLayer(globals);
      if activeEnv.Some? && |activeEnv.value.variables| > 0 {
        globalHeaders := SubstituteHeaders(globalHeaders, activeEnv.value.variables);
      }
      if |secrets| > 0 {
        globalHeaders := SubstituteHeaders(globalHeaders, secrets);
      }

      var merged := finalHeaders + envHeaders + globalHeaders;
      sent := Some(Outgoing(finalUrl, httpMethod, merged, StringifyBodyContent(finalBody, codec)));
    }

    /** `handleSave`: the composer is written into the active collection item, if there is one. */
    method Save()
      modifies this
      ensures httpMethod == old(httpMethod) && url == old(url) && headers == old(headers) && body == old(body)
      ensures history == old(history) && activeItemId == old(activeItemId)
      ensures environments == old(environments) && activeEnvironmentId == old(activeEnvironmentId)
      ensures !Nonblank(activeItemId) ==> collections == old(collections)
      ensures Nonblank(activeItemId) ==>
        collections == UpdateItemInList(old(collections), activeItemId.value, httpMethod, url, headers, body)
    {
      if !Nonblank(activeItemId) {
        return;
      }
      collections := UpdateItemInList(collections, activeItemId.value, httpMethod, url, headers, body);
    }

    /**
     * `handleCreateCollectionItem`: a new folder or request, at the top
     * level without a parent id, else under the node with that id; a new
     * request becomes the active item. `newId` stands for
     * `crypto.randomUUID()`.
     */
    method CreateCollectionItem(parentId: Option<string>, isFolder: bool, newId: string)
      modifies this
      ensures httpMethod == old(httpMethod) && url == old(url) && headers == old(headers) && body == old(body)
      ensures history == old(history)
      ensures environments == old(environments) && activeEnvironmentId == old(activeEnvironmentId)
      ensures !Nonblank(parentId) ==> collections == old(collections) + [NewItem(newId, isFolder)]
      ensures Nonblank(parentId) ==> collections == AddItemToList(old(collections), parentId.value, NewItem(newId, isFolder))
      ensures activeItemId == if isFolder then old(activeItemId) else Some(newId)
    {
      var newItem := NewItem(newId, isFolder);
      if !Nonblank(parentId) {
        collections := collections + [newItem];
      } else {
        collections := AddItemToList(collections, parentId.value, newItem);
      }
      if !isFolder {
        activeItemId := Some(newId);
      }
    }

    /** `handleEditCollectionItem`: the node with the id is renamed. */
    method EditCollectionItem(id: string, newName: string)
      modifies this
      ensures httpMethod == old(httpMethod) && url == old(url) && headers == old(headers) && body == old(body)
      ensures history == old(history) && activeItemId == old(activeItemId)
      ensures environments == old(environments) && activeEnvironmentId == old(activeEnvironmentId)
      ensures collections == EditItemInList(old(collections), id, newName)
    {
      collections := EditItemInList(collections, id, newName);
    }

    /** `handleDeleteCollectionItem`: deleting the active item also resets the composer. */
    method DeleteCollectionItem(id: string)
      modifies this
      ensures history == old(history)
      ensures environments == old(environments) && activeEnvironmentId == old(activeEnvironmentId)
      ensures collections == DeleteItemFromList(old(collections), id)
      ensures old(activeItemId) == Some(id) ==>
        activeItemId == None && httpMethod == "GET" && url == "" && headers == [DefaultHeader] && body == ""
      ensures old(activeItemId) != Some(id) ==>
        && activeItemId == old(activeItemId)
        && httpMethod == old(httpMethod) && url == old(url) && headers == old(headers) && body == old(body)
    {
      collections := DeleteItemFromList(collections, id);
      if activeItemId == Some(id) {
        activeItemId := None;
        httpMethod, url, headers, body := "GET", "", [DefaultHeader], "";
      }
    }

    /** `loadHistoryItem`: the composer takes the entry's request, and no collection item is active. */
    method LoadHistoryItem(item: HistoryItem)
      modifies this
      ensures activeItemId == None
      ensures httpMethod == item.httpMethod && url == item.url && headers == item.headers && body == item.body
      ensures history == old(history) && collections == old(collections)
      ensures environments == old(environments) && activeEnvironmentId == old(activeEnvironmentId)
    {
      activeItemId := None;
      httpMethod, url, headers, body := item.httpMethod, item.url, item.headers, item.body;
    }

    /** `loadCollectionItem`: the composer takes the node's request fields, a falsy one read as its default, and the node becomes active. */
    method LoadCollectionItem(item: CollectionItem)
      modifies this
      ensures activeItemId == Some(item.id)
      ensures httpMethod == (if Nonblank(item.httpMethod) then item.httpMethod.value else "GET")
      ensures url == (if Nonblank(item.url) then item.url.value else "")
      ensures headers == (if item.headers.Some? then item.headers.value else [])
      ensures body == (if Nonblank(item.body) then item.body.value else "")
      ensures history == old(history) && collections == old(collections)
      ensures environments == old(environments) && activeEnvironmentId == old(activeEnvironmentId)
    {
      activeItemId := Some(item.id);
      httpMethod := if item.httpMethod.Some? && item.httpMethod.value != "" then item.httpMethod.value else "GET";
      url := if item.url.Some? && item.url.value != "" then item.url.value else "";
      headers := if item.headers.Some? then item.headers.value else [];
      body := if item.body.Some? && item.body.value != "" then item.body.value else "";
    }

    /**
     * The reader callback of `handleFileUpload`: the imported nodes are
     * appended to the collections. `None` stands for every file on which
     * the callback throws before the update: text that `JSON.parse`
     * rejects, and also a parsed value on which the importer throws (a
     * top-level `null`, or a `null` inside some `item` array); such a file
     * leaves the collections as they are. `mint` stands for `uuidv4`.
     */
    method ImportFile(parsed: Option<PostmanCollection>, mint: nat -> string)
      modifies this
      ensures parsed.None? ==> collections == old(collections)
      ensures parsed.Some? ==> collections == old(collections) + ParsePostmanCollection(parsed.value, mint)
      ensures parsed.Some? ==> Size(collections) == Size(old(collections)) + Size(ParsePostmanCollection(parsed.value, mint))
      ensures httpMethod == old(httpMethod) && url == old(url) && headers == old(headers) && body == old(body)
      ensures history == old(history) && activeItemId == old(activeItemId)
      ensures environments == old(environments) && activeEnvironmentId == old(activeEnvironmentId)
    {
      if parsed.None? {
        return;
      }
      var imported := ParsePostmanCollection(parsed.value, mint);
      SizeAppend(collections, imported);
      collections := collections + imported;
    }
  }
}
