/**
 * The collections route's tree builder: the flat list of stored
 * collection items, each naming its parent by id, nested into the tree
 * the workspace uses.
 */
module CollectionsRoute {
  import opened Options
  import opened VariableSubstitution
  import opened PostmanParser

  /** A stored collection item; `None` stands for a database null. */
  datatype DbItem = DbItem(
    id: string, name: string, kind: string,
    httpMethod: Option<string>, url: Option<string>, body: Option<string>,
    headers: Option<seq<Parameter>>, parentId: Option<string>)

  /** The ids are pairwise distinct, as primary keys are. */
  predicate DistinctIds(items: seq<DbItem>) {
    forall i: nat, j: nat {:trigger IdAt(items, i), IdAt(items, j)} ::
      i < |items| && j < |items| && IdAt(items, i) == IdAt(items, j) ==> i == j
  }

  /** The id of item `i`. */
  function IdAt(items: seq<DbItem>, i: nat): string
    requires i < |items|
  {
    items[i].id
  }

  /** `value || undefined` for a nullable string. */
  function OrUndefined(s: Option<string>): (r: Option<string>)
    ensures r.Some? <==> s.Some? && s.value != ""
    ensures r.Some? ==> r == s
  {
    if s.Some? && s.value != "" then s else None
  }

  /**
   * The ghost path of item indices from a root down to the parent being
   * expanded: distinct, starting at a root, each the child of the one
   * before.
   */
  ghost predicate Chain(items: seq<DbItem>, path: seq<nat>) {
    && (forall k :: 0 <= k < |path| ==> path[k] < |items|)
    && (forall k, l :: 0 <= k < l < |path| ==> path[k] != path[l])
    && (|path| > 0 ==> items[path[0]].parentId == None)
    && (forall k :: 0 < k < |path| ==> items[path[k]].parentId == Some(items[path[k - 1]].id))
  }

  /** The parent id the path stands for: null at the top, else the id of its last item. */
  ghost predicate Expands(items: seq<DbItem>, path: seq<nat>, parentId: Option<string>) {
    && Chain(items, path)
    && (path == [] ==> parentId == None)
    && (path != [] ==> parentId == Some(items[path[|path| - 1]].id))
  }

  ghost function Unvisited(items: seq<DbItem>, path: seq<nat>): set<nat> {
    set i: nat | i < |items| && i !in path
  }

  /** A child of the parent a path stands for is not on the path, so the path can grow by it. */
  lemma ChildExtendsChain(items: seq<DbItem>, path: seq<nat>, parentId: Option<string>, j: nat)
    requires DistinctIds(items) && Expands(items, path, parentId)
    requires j < |items| && items[j].parentId == parentId
    ensures j !in path
    ensures Expands(items, path + [j], Some(items[j].id))
    ensures Unvisited(items, path + [j]) < Unvisited(items, path)
  {
    forall m | 0 <= m < |path|
      ensures path[m] != j
    {
      if m == 0 {
        assert items[path[0]].parentId == None && parentId != None;
      } else {
        assert path[m - 1] != path[|path| - 1];
        assert IdAt(items, path[m - 1]) != IdAt(items, path[|path| - 1]);
      }
    }
    var p := path + [j];
    assert forall k :: 0 < k < |p| ==> items[p[k]].parentId == Some(items[p[k - 1]].id) by {
      forall k | 0 < k < |p|
        ensures items[p[k]].parentId == Some(items[p[k - 1]].id)
      {
        if k < |path| {
          assert p[k] == path[k] && p[k - 1] == path[k - 1];
        }
      }
    }
    assert j in Unvisited(items, path) && j !in Unvisited(items, p);
  }

  /** The indices from `from` on whose item has the parent id, in order. */
  function Matching(items: seq<DbItem>, parentId: Option<string>, from: nat): (r: seq<nat>)
    requires from <= |items|
    ensures forall k :: 0 <= k < |r| ==> from <= r[k] < |items| && items[r[k]].parentId == parentId
    decreases |items| - from
  {
    if from == |items| then []
    else if items[from].parentId == parentId then [from] + Matching(items, parentId, from + 1)
    else Matching(items, parentId, from + 1)
  }

  /** The matching indices are all the items with the parent id, in increasing order. */
  lemma {:induction false} MatchingFacts(items: seq<DbItem>, parentId: Option<string>, from: nat)
    requires from <= |items|
    ensures var r := Matching(items, parentId, from);
      && (forall k, l :: 0 <= k < l < |r| ==> r[k] < r[l])
      && (forall i :: from <= i < |items| && items[i].parentId == parentId ==> i in r)
    decreases |items| - from
  {
    if from < |items| {
      MatchingFacts(items, parentId, from + 1);
      var r, rest := Matching(items, parentId, from), Matching(items, parentId, from + 1);
      if items[from].parentId == parentId {
        assert r == [from] + rest;
        forall k | 0 < k < |r|
          ensures r[k] == rest[k - 1]
        {
        }
      }
    }
  }

  /** The node an item becomes, with its children when it is a folder. */
  function Mapped(item: DbItem, children: seq<CollectionItem>): CollectionItem {
    CollectionItem(item.id, item.name, item.kind,
      OrUndefined(item.httpMethod), OrUndefined(item.url), item.headers, OrUndefined(item.body),
      if item.kind == "folder" then Present(children) else Absent)
  }

  /** The node item `m` becomes below the parent the path stands for, its children built below it. */
  function Node(items: seq<DbItem>, parentId: Option<string>, ghost path: seq<nat>, m: nat): (n: CollectionItem)
    requires DistinctIds(items) && Expands(items, path, parentId) && m < |items| && items[m].parentId == parentId
    ensures n.id == items[m].id && n.kind == items[m].kind
    decreases Unvisited(items, path), 0
  {
    ChildExtendsChain(items, path, parentId, m);
    Mapped(items[m], BuildFrom(items, Some(items[m].id), path + [m], 0))
  }

  /**
   * `buildTree(items, parentId)`, over the items from `from` on: each item
   * with the parent id becomes a node, its children built below it.
   */
  function BuildFrom(items: seq<DbItem>, parentId: Option<string>, ghost path: seq<nat>, from: nat): (r: seq<CollectionItem>)
    requires DistinctIds(items) && Expands(items, path, parentId) && from <= |items|
    ensures |r| == |Matching(items, parentId, from)|
    decreases Unvisited(items, path), |items| - from + 1
  {
    if from == |items| then []
    else if items[from].parentId == parentId then [Node(items, parentId, path, from)] + BuildFrom(items, parentId, path, from + 1)
    else BuildFrom(items, parentId, path, from + 1)
  }

  /** `buildTree(items)`: the roots are the items without a parent. */
  function BuildTree(items: seq<DbItem>): seq<CollectionItem>
    requires DistinctIds(items)
  {
    BuildFrom(items, None, [], 0)
  }

  /** A node is its item mapped over the children built from the items naming it as parent. */
  lemma NodeUnfold(items: seq<DbItem>, parentId: Option<string>, path: seq<nat>, m: nat)
    requires DistinctIds(items) && Expands(items, path, parentId) && m < |items| && items[m].parentId == parentId
    ensures m !in path && Unvisited(items, path + [m]) < Unvisited(items, path)
    ensures Expands(items, path + [m], Some(items[m].id))
    ensures Node(items, parentId, path, m) == Mapped(items[m], BuildFrom(items, Some(items[m].id), path + [m], 0))
  {
    ChildExtendsChain(items, path, parentId, m);
  }

  /** A matching item gives the first node; the rest follow from the next item on. */
  lemma BuildFromMatched(items: seq<DbItem>, parentId: Option<string>, path: seq<nat>, from: nat)
    requires DistinctIds(items) && Expands(items, path, parentId) && from < |items|
    requires items[from].parentId == parentId
    ensures Matching(items, parentId, from) == [from] + Matching(items, parentId, from + 1)
    ensures BuildFrom(items, parentId, path, from) == [Node(items, parentId, path, from)] + BuildFrom(items, parentId, path, from + 1)
  {
  }

  /** Past a matching item, the later nodes are those built from the next item on. */
  lemma BuildFromLater(items: seq<DbItem>, parentId: Option<string>, path: seq<nat>, from: nat, k: nat)
    requires DistinctIds(items) && Expands(items, path, parentId) && from < |items|
    requires items[from].parentId == parentId && 0 < k < |Matching(items, parentId, from)|
    ensures Matching(items, parentId, from)[k] == Matching(items, parentId, from + 1)[k - 1]
    ensures BuildFrom(items, parentId, path, from)[k] == BuildFrom(items, parentId, path, from + 1)[k - 1]
  {
    BuildFromMatched(items, parentId, path, from);
  }

  /** Any other item is skipped. */
  lemma BuildFromSkipped(items: seq<DbItem>, parentId: Option<string>, path: seq<nat>, from: nat)
    requires DistinctIds(items) && Expands(items, path, parentId) && from < |items|
    requires items[from].parentId != parentId
    ensures Matching(items, parentId, from) == Matching(items, parentId, from + 1)
    ensures BuildFrom(items, parentId, path, from) == BuildFrom(items, parentId, path, from + 1)
  {
  }

  /** The k-th node built is the node of the k-th matching item. */
  lemma {:induction false} NodeIsMapped(items: seq<DbItem>, parentId: Option<string>, path: seq<nat>, from: nat, k: nat)
    requires DistinctIds(items) && Expands(items, path, parentId) && from <= |items|
    requires k < |Matching(items, parentId, from)|
    ensures BuildFrom(items, parentId, path, from)[k] == Node(items, parentId, path, Matching(items, parentId, from)[k])
    decreases |items| - from
  {
    assert from < |items|;
    if items[from].parentId == parentId && k == 0 {
      BuildFromMatched(items, parentId, path, from);
    } else if items[from].parentId == parentId {
      BuildFromLater(items, parentId, path, from, k);
      NodeIsMapped(items, parentId, path, from + 1, k - 1);
    } else {
      BuildFromSkipped(items, parentId, path, from);
      NodeIsMapped(items, parentId, path, from + 1, k);
    }
  }

  /**
   * A node copies its item's id, name, type and headers, maps a falsy
   * method, URL or body to undefined, and carries children only when it
   * is a folder: exactly the items naming it as parent, in input order.
   */
  lemma NodeFields(items: seq<DbItem>, parentId: Option<string>, path: seq<nat>, from: nat, k: nat)
    requires DistinctIds(items) && Expands(items, path, parentId) && from <= |items|
    requires k < |Matching(items, parentId, from)|
    ensures var item := items[Matching(items, parentId, from)[k]];
      var n := BuildFrom(items, parentId, path, from)[k];
      var below := Matching(items, Some(item.id), 0);
      && n.id == item.id && n.name == item.name && n.kind == item.kind && n.headers == item.headers
      && n.httpMethod == OrUndefined(item.httpMethod) && n.url == OrUndefined(item.url) && n.body == OrUndefined(item.body)
      && (n.children.Present? <==> item.kind == "folder")
      && (n.children.Present? ==>
            && |n.children.items| == |below|
            && forall c :: 0 <= c < |below| ==> n.children.items[c].id == items[below[c]].id)
  {
    NodeIsMapped(items, parentId, path, from, k);
    var m := Matching(items, parentId, from)[k];
    NodeUnfold(items, parentId, path, m);
    var below := Matching(items, Some(items[m].id), 0);
    forall c | 0 <= c < |below|
      ensures BuildFrom(items, Some(items[m].id), path + [m], 0)[c].id == items[below[c]].id
    {
      NodeIsMapped(items, Some(items[m].id), path + [m], 0, c);
    }
  }

  /** The roots are exactly the items with a null parent id, in input order. */
  lemma TopLevelIsParentless(items: seq<DbItem>)
    requires DistinctIds(items)
    ensures var roots := Matching(items, None, 0);
      && |BuildTree(items)| == |roots|
      && (forall k :: 0 <= k < |roots| ==> BuildTree(items)[k].id == items[roots[k]].id && items[roots[k]].parentId == None)
      && (forall i :: 0 <= i < |items| && items[i].parentId == None ==> i in roots)
  {
    var roots := Matching(items, None, 0);
    MatchingFacts(items, None, 0);
    forall k | 0 <= k < |roots|
      ensures BuildTree(items)[k].id == items[roots[k]].id
    {
      NodeIsMapped(items, None, [], 0, k);
    }
  }

  /** Children only on folders, at every depth. */
  predicate FolderShaped(ns: seq<CollectionItem>)
    decreases ns
  {
    forall i :: 0 <= i < |ns| ==>
      && (ns[i].children.Present? <==> ns[i].kind == "folder")
      && (ns[i].children.Present? ==> FolderShaped(ns[i].children.items))
  }

  /** Request nodes never carry children, at any depth of the built tree. */
  lemma {:induction false} BuildFromFolderShaped(items: seq<DbItem>, parentId: Option<string>, path: seq<nat>, from: nat)
    requires DistinctIds(items) && Expands(items, path, parentId) && from <= |items|
    ensures FolderShaped(BuildFrom(items, parentId, path, from))
    decreases Unvisited(items, path)
  {
    var r := BuildFrom(items, parentId, path, from);
    forall k | 0 <= k < |r|
      ensures (r[k].children.Present? <==> r[k].kind == "folder")
      ensures r[k].children.Present? ==> FolderShaped(r[k].children.items)
    {
      var m := Matching(items, parentId, from)[k];
      NodeIsMapped(items, parentId, path, from, k);
      NodeUnfold(items, parentId, path, m);
      BuildFromFolderShaped(items, Some(items[m].id), path + [m], 0);
    }
  }

  lemma BuildTreeFolderShaped(items: seq<DbItem>)
    requires DistinctIds(items)
    ensures FolderShaped(BuildTree(items))
  {
    BuildFromFolderShaped(items, None, [], 0);
  }

  /**
   * The indices of the items that become nodes below the parent the path
   * stands for, from `from` on, at every depth: a matching item, and the
   * items below it when it is a folder.
   */
  ghost function Used(items: seq<DbItem>, parentId: Option<string>, path: seq<nat>, from: nat): (r: set<nat>)
    requires DistinctIds(items) && Expands(items, path, parentId) && from <= |items|
    decreases Unvisited(items, path), |items| - from
  {
    if from == |items| then {}
    else if items[from].parentId == parentId then
      ChildExtendsChain(items, path, parentId, from);
      var below := if items[from].kind == "folder" then Used(items, Some(items[from].id), path + [from], 0) else {};
      {from} + below + Used(items, parentId, path, from + 1)
    else Used(items, parentId, path, from + 1)
  }

  /** The used items are items of the list and lie off the path. */
  lemma {:induction false} UsedWithin(items: seq<DbItem>, parentId: Option<string>, path: seq<nat>, from: nat, j: nat)
    requires DistinctIds(items) && Expands(items, path, parentId) && from <= |items|
    requires j in Used(items, parentId, path, from)
    ensures j < |items| && j !in path
    decreases Unvisited(items, path), |items| - from
  {
    if items[from].parentId == parentId {
      ChildExtendsChain(items, path, parentId, from);
      var sub := path + [from];
      if j != from {
        if items[from].kind == "folder" && j in Used(items, Some(items[from].id), sub, 0) {
          UsedWithin(items, Some(items[from].id), sub, 0, j);
        } else {
          UsedWithin(items, parentId, path, from + 1, j);
        }
      }
    } else {
      UsedWithin(items, parentId, path, from + 1, j);
    }
  }

  /** Dropping the last step of a chain leaves a chain. */
  lemma ChainPrefix(items: seq<DbItem>, c: seq<nat>)
    requires Chain(items, c) && |c| > 0
    ensures Chain(items, c[..|c| - 1])
  {
  }

  /** With distinct ids, an item's chain of parents up to a root is determined by the item. */
  lemma {:induction false} ChainUnique(items: seq<DbItem>, c1: seq<nat>, c2: seq<nat>)
    requires DistinctIds(items) && Chain(items, c1) && Chain(items, c2)
    requires |c1| > 0 && |c2| > 0 && c1[|c1| - 1] == c2[|c2| - 1]
    ensures c1 == c2
    decreases |c1|
  {
    var j := c1[|c1| - 1];
    assert |c1| > 1 ==> items[j].parentId == Some(items[c1[|c1| - 2]].id);
    assert |c2| > 1 ==> items[j].parentId == Some(items[c2[|c2| - 2]].id);
    if items[j].parentId.None? {
      assert |c1| == 1 && |c2| == 1;
    } else {
      assert |c1| > 1 && |c2| > 1;
      var p1, p2 := c1[..|c1| - 1], c2[..|c2| - 1];
      assert p1[|p1| - 1] == c1[|c1| - 2] && p2[|p2| - 1] == c2[|c2| - 2];
      assert IdAt(items, p1[|p1| - 1]) == IdAt(items, p2[|p2| - 1]);
      ChainPrefix(items, c1);
      ChainPrefix(items, c2);
      ChainUnique(items, p1, p2);
      assert c1 == p1 + [j] && c2 == p2 + [j];
    }
  }

  /** An item used below a parent is reached by a chain that runs through the path and a matching item from `from` on. */
  lemma {:induction false} UsedChain(items: seq<DbItem>, parentId: Option<string>, path: seq<nat>, from: nat, j: nat) returns (c: seq<nat>)
    requires DistinctIds(items) && Expands(items, path, parentId) && from <= |items|
    requires j in Used(items, parentId, path, from)
    ensures Chain(items, c) && |c| > |path| && c[..|path|] == path && c[|c| - 1] == j
    ensures from <= c[|path|] && items[c[|path|]].parentId == parentId
    decreases Unvisited(items, path), |items| - from
  {
    if items[from].parentId == parentId {
      ChildExtendsChain(items, path, parentId, from);
      var sub := path + [from];
      if j == from {
        c := sub;
      } else if items[from].kind == "folder" && j in Used(items, Some(items[from].id), sub, 0) {
        c := UsedChain(items, Some(items[from].id), sub, 0, j);
        assert c[..|path|] == c[..|sub|][..|path|];
        assert c[|path|] == c[..|sub|][|path|];
      } else {
        c := UsedChain(items, parentId, path, from + 1, j);
      }
    } else {
      c := UsedChain(items, parentId, path, from + 1, j);
    }
  }

  /** A matching item and the items below it are used by none of the later siblings' subtrees. */
  lemma SubtreeApart(items: seq<DbItem>, parentId: Option<string>, path: seq<nat>, from: nat)
    requires DistinctIds(items) && Expands(items, path, parentId) && from < |items|
    requires items[from].parentId == parentId
    ensures Expands(items, path + [from], Some(items[from].id))
    ensures from !in Used(items, parentId, path, from + 1)
    ensures forall j :: j in Used(items, Some(items[from].id), path + [from], 0) ==>
      j != from && j !in Used(items, parentId, path, from + 1)
  {
    ChildExtendsChain(items, path, parentId, from);
    var sub := path + [from];
    var later := Used(items, parentId, path, from + 1);
    if from in later {
      var c := UsedChain(items, parentId, path, from + 1, from);
      ChainUnique(items, c, sub);
      assert false;
    }
    forall j | j in Used(items, Some(items[from].id), sub, 0)
      ensures j != from && j !in later
    {
      UsedWithin(items, Some(items[from].id), sub, 0, j);
      var c1 := UsedChain(items, Some(items[from].id), sub, 0, j);
      assert c1[|path|] == c1[..|sub|][|path|];
      if j in later {
        var c2 := UsedChain(items, parentId, path, from + 1, j);
        ChainUnique(items, c1, c2);
        assert false;
      }
    }
  }

  /** A matching item's subtree and its later siblings' subtrees, as sets of used items. */
  lemma SplitUsed(items: seq<DbItem>, parentId: Option<string>, path: seq<nat>, from: nat)
    requires DistinctIds(items) && Expands(items, path, parentId) && from < |items|
    requires items[from].parentId == parentId
    ensures Expands(items, path + [from], Some(items[from].id))
    ensures var below := if items[from].kind == "folder" then Used(items, Some(items[from].id), path + [from], 0) else {};
      var later := Used(items, parentId, path, from + 1);
      && Used(items, parentId, path, from) == {from} + below + later
      && |Used(items, parentId, path, from)| == 1 + |below| + |later|
  {
    SubtreeApart(items, parentId, path, from);
    var below := if items[from].kind == "folder" then Used(items, Some(items[from].id), path + [from], 0) else {};
    var later := Used(items, parentId, path, from + 1);
    assert {from} * below == {};
    assert ({from} + below) * later == {};
  }

  lemma SizeCons(node: CollectionItem, rest: seq<CollectionItem>)
    ensures Size([node] + rest) == 1 + (if node.children.Present? then Size(node.children.items) else 0) + Size(rest)
  {
    assert ([node] + rest)[1..] == rest;
  }

  /** The built nodes, at every depth, are the used items, each once. */
  lemma {:induction false} SizeIsUsed(items: seq<DbItem>, parentId: Option<string>, path: seq<nat>, from: nat)
    requires DistinctIds(items) && Expands(items, path, parentId) && from <= |items|
    ensures Size(BuildFrom(items, parentId, path, from)) == |Used(items, parentId, path, from)|
    decreases Unvisited(items, path), |items| - from
  {
    if from < |items| {
      SizeIsUsed(items, parentId, path, from + 1);
      if items[from].parentId == parentId {
        SplitUsed(items, parentId, path, from);
        BuildFromMatched(items, parentId, path, from);
        NodeUnfold(items, parentId, path, from);
        var sub := path + [from];
        var rest := BuildFrom(items, parentId, path, from + 1);
        SizeCons(Node(items, parentId, path, from), rest);
        if items[from].kind == "folder" {
          SizeIsUsed(items, Some(items[from].id), sub, 0);
        }
      }
    }
  }

  /** The indices below `n`. */
  function Range(n: nat): (r: set<nat>)
    ensures |r| == n
    ensures forall i: nat :: i in r <==> i < n
  {
    if n == 0 then {} else Range(n - 1) + {n - 1}
  }

  lemma SubsetSize(a: set<nat>, b: set<nat>)
    requires a <= b
    ensures |a| <= |b|
  {
    assert b == a + (b - a);
  }

  /**
   * With distinct ids, every node of the built tree is a distinct input
   * item, so the tree has at most as many nodes as there are items.
   */
  lemma BuildTreeSize(items: seq<DbItem>)
    requires DistinctIds(items)
    ensures Size(BuildTree(items)) == |Used(items, None, [], 0)| <= |items|
  {
    SizeIsUsed(items, None, [], 0);
    var used, all := Used(items, None, [], 0), Range(|items|);
    forall j | j in used
      ensures j in all
    {
      UsedWithin(items, None, [], 0, j);
    }
    SubsetSize(used, all);
  }
}
