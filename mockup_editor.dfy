/**
 * The mock endpoint editor's form state: the endpoint's path, method,
 * description, visibility and rate limit, and its list of responses with
 * the index of the one being edited.
 */
module MockupEditor {
  import opened Options
  import opened VariableSubstitution
  import opened ParamList

  /** A response being edited; `None` stands for a missing id or a null body or header list. */
  datatype MockResponse = MockResponse(id: Option<string>, statusCode: int, body: Option<string>, headers: Option<seq<Parameter>>)

  /** A stored mock endpoint, as the editor receives it. */
  datatype MockEndpoint = MockEndpoint(
    id: string, path: string, httpMethod: string, description: Option<string>,
    isPublic: bool, rateLimit: int, responses: seq<MockResponse>)

  /** What the editor hands to its save callback. */
  datatype Draft = Draft(
    id: Option<string>, path: string, httpMethod: string, description: string,
    isPublic: bool, rateLimit: int, responses: seq<MockResponse>)

  /** The rate limit the form always holds. */
  const FormRateLimit: int := 100

  /** A fresh response with the given status, an empty body and no headers. */
  function Fresh(statusCode: int): MockResponse {
    MockResponse(None, statusCode, Some(""), Some([]))
  }

  /** The response list of a new form: one `200` response. */
  const Initial: seq<MockResponse> := [Fresh(200)]

  /** The responses loaded from stored data: a copy of them, or the one default response when there are none. */
  function Loaded(rs: seq<MockResponse>): (r: seq<MockResponse>)
    ensures |r| > 0
    ensures |rs| > 0 ==> r == rs
    ensures |rs| == 0 ==> r == Initial
  {
    if |rs| > 0 then rs else Initial
  }

  /** `handleAddResponse`'s list: a fresh response whose status is 200 plus the old length, appended. */
  function Added(rs: seq<MockResponse>): (r: seq<MockResponse>)
    ensures |r| == |rs| + 1 && r[..|rs|] == rs
    ensures r[|rs|].statusCode == 200 + |rs| && r[|rs|].body == Some("") && r[|rs|].headers == Some([])
  {
    rs + [Fresh(200 + |rs|)]
  }

  /** The list after `n` adds in a row. */
  function AddedTimes(rs: seq<MockResponse>, n: nat): seq<MockResponse>
    decreases n
  {
    if n == 0 then rs else AddedTimes(Added(rs), n - 1)
  }

  /** Each response's status is 200 plus its position. */
  predicate NumberedFrom200(rs: seq<MockResponse>) {
    forall i :: 0 <= i < |rs| ==> rs[i].statusCode == 200 + i
  }

  /** Adding to a list numbered from 200 keeps it numbered: the new form's responses read 200, 201, 202, … as they are added. */
  lemma {:induction false} AddsKeepNumbering(rs: seq<MockResponse>, n: nat)
    requires NumberedFrom200(rs)
    ensures |AddedTimes(rs, n)| == |rs| + n
    ensures NumberedFrom200(AddedTimes(rs, n))
    decreases n
  {
    if n > 0 {
      var next := Added(rs);
      assert forall i :: 0 <= i < |rs| ==> next[i] == next[..|rs|][i];
      AddsKeepNumbering(next, n - 1);
    }
  }

  /** After a remove, an index past the end moves to the last response (or 0), and any other index stays. */
  function ActiveAfterRemove(active: nat, newLength: nat): (r: nat)
    ensures newLength > 0 ==> r < newLength
    ensures active < newLength ==> r == active
    ensures newLength == 0 ==> r == 0
  {
    if active >= newLength then (if newLength > 0 then newLength - 1 else 0) else active
  }

  /** One field of a response, set to a value of its type. */
  datatype ResponseUpdate = SetStatus(statusCode: int) | SetBody(body: string) | SetHeaders(headers: seq<Parameter>)

  function WithResponseField(r: MockResponse, u: ResponseUpdate): (n: MockResponse)
    ensures n.id == r.id
    ensures u.SetStatus? ==> n == r.(statusCode := u.statusCode)
    ensures u.SetBody? ==> n == r.(body := Some(u.body))
    ensures u.SetHeaders? ==> n == r.(headers := Some(u.headers))
  {
    match u
    case SetStatus(s) => r.(statusCode := s)
    case SetBody(b) => r.(body := Some(b))
    case SetHeaders(hs) => r.(headers := Some(hs))
  }

  /**
   * The index is not shifted by a remove: removing a response before the
   * active one leaves the same index selecting the response that followed
   * the active one, unless the active one was last, when the index moves
   * back onto it.
   */
  lemma RemoveBeforeActive(rs: seq<MockResponse>, index: nat, active: nat)
    requires index < active < |rs|
    ensures var newRs := RemoveAt(rs, index);
      && |newRs| == |rs| - 1 && newRs[active - 1] == rs[active]
      && (active + 1 < |rs| ==> ActiveAfterRemove(active, |newRs|) == active && newRs[active] == rs[active + 1])
      && (active + 1 == |rs| ==> ActiveAfterRemove(active, |newRs|) == active - 1)
  {
    RemoveAtDropsRow(rs, index);
  }

  class Editor {
    var path: string
    var httpMethod: string
    var description: string
    var responses: seq<MockResponse>
    var isPublic: bool
    var rateLimit: int
    var activeIndex: nat
    /** The id of the endpoint being edited, `None` for a new one. */
    var editingId: Option<string>

    /** The active index selects a response, and the rate limit is the fixed one. */
    predicate Valid()
      reads this
    {
      activeIndex < |responses| && rateLimit == FormRateLimit
    }

    /** The form's first state: a new endpoint at `/` with one `200` response. */
    constructor ()
      ensures path == "/" && httpMethod == "GET" && description == "" && !isPublic
      ensures responses == Initial && activeIndex == 0 && editingId == None
      ensures Valid()
    {
      path, httpMethod, description := "/", "GET", "";
      responses := [MockResponse(None, 200, Some(""), Some([]))];
      isPublic, rateLimit, activeIndex := false, 100, 0;
      editingId := None;
    }

    /** The effect run when the editor opens or its data changes: the form is filled from the data, or reset. */
    method Load(initialData: Option<MockEndpoint>)
      modifies this
      ensures initialData.None? ==>
        && path == "/" && httpMethod == "GET" && description == "" && !isPublic
        && responses == Initial && editingId == None
      ensures initialData.Some? ==>
        var d := initialData.value;
        && path == d.path && httpMethod == d.httpMethod && isPublic == d.isPublic
        && description == (if d.description.Some? then d.description.value else "")
        && responses == Loaded(d.responses) && editingId == Some(d.id)
      ensures activeIndex == 0 && rateLimit == FormRateLimit
      ensures Valid()
    {
      if initialData.Some? {
        var d := initialData.value;
        path := d.path;
        httpMethod := d.httpMethod;
        description := if d.description.Some? && d.description.value != "" then d.description.value else "";
        responses := if |d.responses| > 0 then d.responses else [MockResponse(None, 200, Some(""), Some([]))];
        isPublic := d.isPublic;
        editingId := Some(d.id);
      } else {
        path := "/";
        httpMethod := "GET";
        description := "";
        responses := [MockResponse(None, 200, Some(""), Some([]))];
        isPublic := false;
        editingId := None;
      }
      rateLimit := 100;
      activeIndex := 0;
    }

    /** `handleAddResponse`: the new response is appended and becomes the active one. */
    method AddResponse()
      modifies this`responses, this`activeIndex
      ensures responses == Added(old(responses))
      ensures activeIndex == old(|responses|)
      ensures rateLimit == FormRateLimit ==> Valid()
    {
      var nextStatus := 200 + |responses|;
      activeIndex := |responses|;
      responses := responses + [MockResponse(None, nextStatus, Some(""), Some([]))];
    }

    /** `handleRemoveResponse(index)`: that response is dropped, and an index past the end moves back. */
    method RemoveResponse(index: nat)
      modifies this`responses, this`activeIndex
      ensures responses == RemoveAt(old(responses), index)
      ensures activeIndex == ActiveAfterRemove(old(activeIndex), |responses|)
      ensures rateLimit == FormRateLimit && old(|responses|) > 1 ==> Valid()
    {
      var newResponses := RemoveAt(responses, index);
      if index < |responses| {
        RemoveAtDropsRow(responses, index);
      } else {
        RemoveAtPastEnd(responses, index);
      }
      responses := newResponses;
      if activeIndex >= |newResponses| {
        activeIndex := if |newResponses| - 1 > 0 then |newResponses| - 1 else 0;
      }
    }

    /** `handleUpdateResponse(field, value)`: a copy of the list with one field of the active response changed. */
    method UpdateResponse(u: ResponseUpdate)
      requires activeIndex < |responses|
      modifies this`responses
      ensures |responses| == old(|responses|)
      ensures responses[activeIndex] == WithResponseField(old(responses[activeIndex]), u)
      ensures forall j :: 0 <= j < |responses| && j != activeIndex ==> responses[j] == old(responses[j])
      ensures old(Valid()) ==> Valid()
    {
      var newResponses := responses;
      newResponses := newResponses[activeIndex := WithResponseField(newResponses[activeIndex], u)];
      responses := newResponses;
    }

    /** `handleSave`: what is handed to the save callback. */
    function SaveDraft(): (d: Draft)
      reads this
      ensures d.responses == responses && d.id == editingId
      ensures Valid() ==> d.rateLimit == FormRateLimit
    {
      Draft(editingId, path, httpMethod, description, isPublic, rateLimit, responses)
    }
  }
}
