/**
 * The collection tree of the workspace, and the importer that turns a
 * Postman collection into it: requests become request nodes, item groups
 * become folders, everything else is dropped.
 */
module PostmanParser {
  import opened Options
  import opened VariableSubstitution

  /**
   * A node of the collection tree: `kind` is "request" or "folder"; the
   * request fields are present on requests, `children` on folders.
   */
  datatype CollectionItem = CollectionItem(
    id: string,
    name: string,
    kind: string,
    httpMethod: Option<string>,
    url: Option<string>,
    headers: Option<seq<Parameter>>,
    body: Option<string>,
    children: ChildList)

  /** The optional `children` array. */
  datatype ChildList = Absent | Present(items: seq<CollectionItem>)

  /** The number of nodes at every depth. */
  function Size(items: seq<CollectionItem>): nat
    decreases items
  {
    if items == [] then 0
    else 1 + (if items[0].children.Present? then Size(items[0].children.items) else 0) + Size(items[1..])
  }

  /** An entry of the request history. */
  datatype HistoryItem = HistoryItem(id: string, httpMethod: string, url: string, date: string, headers: seq<Parameter>, body: string)

  /** A Postman header; a missing `disabled` is `false`. */
  datatype PostmanHeader = PostmanHeader(key: string, value: string, disabled: bool)

  /** The `header` field: missing (or null), an array, or some other value, on which `.map` throws. */
  datatype HeaderField = NoHeader | HeaderArray(entries: seq<PostmanHeader>) | HeaderNotArray

  /** The `url` field: a string, an object with `raw` ("" when it has none), or missing. */
  datatype PostmanUrl = UrlString(text: string) | UrlObject(raw: string) | NoUrl

  /** A request body; `raw` is "" when missing. */
  datatype PostmanBody = PostmanBody(mode: string, raw: string)

  /** A Postman request; `httpMethod` is the `method` field, "" when missing. */
  datatype PostmanRequest = PostmanRequest(httpMethod: string, header: HeaderField, body: Option<PostmanBody>, url: PostmanUrl)

  /** A Postman item: a request, a folder (`item`), or neither; `name` is "" when missing. */
  datatype PostmanItem = PostmanItem(name: string, request: Option<PostmanRequest>, item: Option<ItemList>)

  /** The value of an `item` field: an array, or something else. */
  datatype ItemList = Items(elems: seq<PostmanItem>) | NotAnArray

  datatype PostmanCollection = PostmanCollection(item: Option<ItemList>)

  const DefaultMethod := "GET"
  const UntitledRequest := "Untitled Request"
  const UntitledFolder := "Untitled Folder"

  /** `header?.map(...) || []`; `None` where the map throws and the item is skipped. */
  function ConvertHeaders(h: HeaderField): (r: Option<seq<Parameter>>)
    ensures r.None? <==> h.HeaderNotArray?
    ensures h.NoHeader? ==> r == Some([])
    ensures h.HeaderArray? ==>
      && r.Some? && |r.value| == |h.entries|
      && forall i :: 0 <= i < |h.entries| ==>
           r.value[i] == Parameter(h.entries[i].key, h.entries[i].value, !h.entries[i].disabled)
  {
    match h
    case NoHeader => Some([])
    case HeaderNotArray => None
    case HeaderArray(es) =>
      Some(seq(|es|, i requires 0 <= i < |es| => Parameter(es[i].key, es[i].value, !es[i].disabled)))
  }

  /** The URL text: the string form, else `url.raw`, else "". */
  function UrlText(u: PostmanUrl): string {
    match u
    case UrlString(t) => t
    case UrlObject(raw) => raw
    case NoUrl => ""
  }

  /** The body text: copied only from a raw-mode body with non-empty text. */
  function BodyText(b: Option<PostmanBody>): (r: string)
    ensures r != "" ==> b.Some? && b.value.mode == "raw" && r == b.value.raw
    ensures b.Some? && b.value.mode == "raw" && b.value.raw != "" ==> r == b.value.raw
  {
    if b.Some? && b.value.mode == "raw" && b.value.raw != "" then b.value.raw else ""
  }

  /** Whether an item yields a node: a request whose headers convert, or a folder. */
  predicate Converts(it: PostmanItem) {
    if it.request.Some? then !it.request.value.header.HeaderNotArray? else it.item.Some?
  }

  /** The name the node gets. */
  function NodeName(it: PostmanItem): string {
    if it.name != "" then it.name
    else if it.request.Some? then UntitledRequest else UntitledFolder
  }

  /** `item.request.method || "GET"` */
  function MethodOf(req: PostmanRequest): string {
    if req.httpMethod != "" then req.httpMethod else DefaultMethod
  }

  /** A request node as the importer builds it. */
  function RequestNode(req: PostmanRequest, name: string, id: string, headers: seq<Parameter>): CollectionItem {
    CollectionItem(id, name, "request",
      Some(MethodOf(req)), Some(UrlText(req.url)), Some(headers), Some(BodyText(req.body)), Absent)
  }

  /**
   * The node carries what the item says: its name (or the default one);
   * for a request, the method (or GET), the URL text, the converted
   * headers and the body text, and no children; for a folder, children
   * and no request fields.
   */
  predicate Mirrors(n: CollectionItem, it: PostmanItem) {
    && n.name == NodeName(it)
    && (it.request.Some? ==>
         var req := it.request.value;
         && n.kind == "request" && n.children.Absent?
         && n.httpMethod == Some(MethodOf(req)) && n.url == Some(UrlText(req.url))
         && n.headers == ConvertHeaders(req.header) && n.body == Some(BodyText(req.body)))
    && (it.request.None? ==>
         && n.kind == "folder" && n.children.Present?
         && n.httpMethod.None? && n.url.None? && n.headers.None? && n.body.None?)
  }

  /**
   * What `traverse` pushes for one item, and the next fresh id number;
   * `mint(n)` is the n-th id `uuidv4` hands out. A folder takes its id
   * before its children take theirs.
   */
  function ConvertItem(it: PostmanItem, next: nat, mint: nat -> string): (r: (seq<CollectionItem>, nat))
    ensures |r.0| <= 1 && (|r.0| == 1 <==> Converts(it))
    ensures r.1 >= next
    ensures |r.0| == 1 ==> r.0[0].id == mint(next) && Mirrors(r.0[0], it)
    ensures !Converts(it) ==> r == ([], next)
    ensures it.request.Some? && Converts(it) ==> r.1 == next + 1
    ensures it.request.None? && it.item.Some? ==>
      var sub := TraverseList(it.item.value, next + 1, mint);
      r.0[0].children == Present(sub.0) && r.1 == sub.1
  {
    if it.request.Some? then
      match ConvertHeaders(it.request.value.header)
      case None => ([], next)
      case Some(hs) => ([RequestNode(it.request.value, NodeName(it), mint(next), hs)], next + 1)
    else if it.item.Some? then
      var (children, after) := TraverseList(it.item.value, next + 1, mint);
      ([CollectionItem(mint(next), NodeName(it), "folder", None, None, None, None, Present(children))], after)
    else ([], next)
  }

  /** `traverse(node)`: a value that is not an array gives no nodes. */
  function TraverseList(l: ItemList, next: nat, mint: nat -> string): (r: (seq<CollectionItem>, nat))
    ensures r.1 >= next
  {
    match l
    case NotAnArray => ([], next)
    case Items(es) => TraverseSeq(es, next, mint)
  }

  /** The `for` loop of `traverse`, over the items from the first. */
  function TraverseSeq(es: seq<PostmanItem>, next: nat, mint: nat -> string): (r: (seq<CollectionItem>, nat))
    ensures r.1 >= next
  {
    if es == [] then ([], next)
    else
      var (head, n1) := ConvertItem(es[0], next, mint);
      var (tail, n2) := TraverseSeq(es[1..], n1, mint);
      (head + tail, n2)
  }

  /** `parsePostmanCollection`: a collection without `item` gives no nodes. */
  function ParsePostmanCollection(c: PostmanCollection, mint: nat -> string): (r: seq<CollectionItem>)
    ensures c.item.None? || c.item == Some(NotAnArray) ==> r == []
  {
    match c.item
    case None => []
    case Some(l) => TraverseList(l, 0, mint).0
  }

  /** One turn of `traverse`'s loop: the item's node, if any, pushed onto `result`. */
  method PushItem(item: PostmanItem, result: seq<CollectionItem>, after: nat, mint: nat -> string)
    returns (pushed: seq<CollectionItem>, next: nat)
    ensures pushed == result + ConvertItem(item, after, mint).0 && next == ConvertItem(item, after, mint).1
    decreases item
  {
    pushed, next := result, after;
    if item.request.Some? {
      var headers := ConvertHeaders(item.request.value.header);
      if headers.Some? {
        pushed := pushed + [RequestNode(item.request.value, NodeName(item), mint(after), headers.value)];
        next := after + 1;
      }
    } else if item.item.Some? {
      var id := mint(after);
      var children, following := Traverse(item.item.value, after + 1, mint);
      pushed := pushed + [CollectionItem(id, NodeName(item), "folder", None, None, None, None, Present(children))];
      next := following;
    }
  }

  /** The loop from item `i` on: item `i`'s node pushed after `before`, then the rest from the next fresh id. */
  lemma TraverseSeqAt(es: seq<PostmanItem>, i: nat, before: seq<CollectionItem>, next: nat, mint: nat -> string)
    requires i < |es|
    ensures var step := ConvertItem(es[i], next, mint);
      var rest := TraverseSeq(es[i + 1..], step.1, mint);
      && (before + step.0) + rest.0 == before + TraverseSeq(es[i..], next, mint).0
      && rest.1 == TraverseSeq(es[i..], next, mint).1
  {
    assert es[i..][1..] == es[i + 1..];
    var step := ConvertItem(es[i], next, mint);
    var rest := TraverseSeq(es[i + 1..], step.1, mint);
    assert (before + step.0) + rest.0 == before + (step.0 + rest.0);
  }

  /** `traverse` as the source writes it: a loop pushing onto `result`, recursing into folders. */
  method Traverse(l: ItemList, next: nat, mint: nat -> string) returns (result: seq<CollectionItem>, after: nat)
    ensures (result, after) == TraverseList(l, next, mint)
    decreases l
  {
    if l.NotAnArray? {
      return [], next;
    }
    var es := l.elems;
    result, after := [], next;
    assert es[0..] == es;
    for i := 0 to |es|
      invariant result + TraverseSeq(es[i..], after, mint).0 == TraverseSeq(es, next, mint).0
      invariant TraverseSeq(es[i..], after, mint).1 == TraverseSeq(es, next, mint).1
    {
      TraverseSeqAt(es, i, result, after, mint);
      result, after := PushItem(es[i], result, after, mint);
    }
    assert es[|es|..] == [];
    assert result + [] == result;
  }

  /** The items that yield a node, in input order. */
  function Kept(es: seq<PostmanItem>): (r: seq<PostmanItem>)
    ensures |r| <= |es|
  {
    if es == [] then []
    else if Converts(es[0]) then [es[0]] + Kept(es[1..])
    else Kept(es[1..])
  }

  /**
   * The output follows the input: one node per item that converts, in the
   * same order and carrying that item's name and request fields, so never
   * more nodes than items.
   */
  lemma {:induction false} TraverseFollowsInput(es: seq<PostmanItem>, next: nat, mint: nat -> string)
    ensures var out := TraverseSeq(es, next, mint).0;
      && |out| == |Kept(es)| <= |es|
      && forall k :: 0 <= k < |out| ==> Mirrors(out[k], Kept(es)[k])
  {
    if es != [] {
      var step := ConvertItem(es[0], next, mint);
      var rest := TraverseSeq(es[1..], step.1, mint);
      TraverseFollowsInput(es[1..], step.1, mint);
      var out := step.0 + rest.0;
      assert TraverseSeq(es, next, mint).0 == out;
      if Converts(es[0]) {
        assert Kept(es) == [es[0]] + Kept(es[1..]);
        forall k | 1 <= k < |out|
          ensures Mirrors(out[k], Kept(es)[k])
        {
          assert out[k] == rest.0[k - 1];
          assert Kept(es)[k] == Kept(es[1..])[k - 1];
        }
      } else {
        assert step.0 == [];
        assert out == rest.0;
      }
    }
  }

  /**
   * The shape invariant of the tree: a request node carries the request
   * fields and no children, a folder carries children and no request
   * fields, at every depth.
   */
  predicate WellShaped(n: CollectionItem) {
    && (n.kind == "request" || n.kind == "folder")
    && (n.kind == "request" <==> n.children.Absent?)
    && (n.kind == "request" <==> n.httpMethod.Some? && n.url.Some? && n.headers.Some? && n.body.Some?)
    && (n.children.Present? ==> forall i :: 0 <= i < |n.children.items| ==> WellShaped(n.children.items[i]))
  }

  predicate AllWellShaped(ns: seq<CollectionItem>) {
    forall i :: 0 <= i < |ns| ==> WellShaped(ns[i])
  }

  lemma {:induction false} ConvertItemWellShaped(it: PostmanItem, next: nat, mint: nat -> string)
    ensures AllWellShaped(ConvertItem(it, next, mint).0)
    decreases it
  {
    if it.request.None? && it.item.Some? {
      TraverseListWellShaped(it.item.value, next + 1, mint);
    }
  }

  lemma {:induction false} TraverseListWellShaped(l: ItemList, next: nat, mint: nat -> string)
    ensures AllWellShaped(TraverseList(l, next, mint).0)
    decreases l
  {
    if l.Items? {
      TraverseSeqWellShaped(l.elems, next, mint);
    }
  }

  /** Every imported node, at every depth, is either a request or a folder, never both. */
  lemma {:induction false} TraverseSeqWellShaped(es: seq<PostmanItem>, next: nat, mint: nat -> string)
    ensures AllWellShaped(TraverseSeq(es, next, mint).0)
    decreases es
  {
    if es != [] {
      var (head, n1) := ConvertItem(es[0], next, mint);
      ConvertItemWellShaped(es[0], next, mint);
      TraverseSeqWellShaped(es[1..], n1, mint);
      var (tail, n2) := TraverseSeq(es[1..], n1, mint);
      assert forall i :: 0 <= i < |head + tail| ==> (head + tail)[i] == if i < |head| then head[i] else tail[i - |head|];
    }
  }

  /** An item with a request becomes a request node even when it also has `item`. */
  lemma RequestWinsOverFolder(it: PostmanItem, next: nat, mint: nat -> string)
    requires it.request.Some? && it.item.Some? && !it.request.value.header.HeaderNotArray?
    ensures var r := ConvertItem(it, next, mint).0;
      |r| == 1 && r[0].kind == "request" && r[0].children.Absent?
  {
  }
}
