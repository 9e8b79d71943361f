/**
 * `TopicComponent`: one topic's page. It lists the topic's requests split
 * into open and answered ones, adds a blank request and edits it in place,
 * removes requests, renames the topic inline and cycles the priority of the
 * request being edited.
 *
 * `st` is what the store selectors return; every dispatch is applied to it
 * at once (the awaited dynamic imports only delay the second dispatch, and
 * nothing else runs in between here). `now` is the reducer's clock and
 * `nowIso` the `new Date().toISOString()` an answer is stamped with.
 */
module TopicComponent {
  import opened Wrappers
  import opened Collections
  import opened Store
  import opened Text

  /** `!!r.answeredDate`: an answer date is present and not empty. */
  predicate Answered(r: RequestEntity)
  {
    r.answeredDate.Some? && r.answeredDate.value != ""
  }

  predicate Unanswered(r: RequestEntity)
  {
    !Answered(r)
  }

  /** `requests`: the stored requests the topic holds, in store order; none without a topic. */
  function TopicRequests(topic: Option<TopicEntity>, requests: seq<RequestEntity>): (r: seq<RequestEntity>)
    ensures topic.None? ==> r == []
    ensures topic.Some? ==> forall x :: x in r <==> x in requests && x.id in topic.value.requestIds
  {
    if topic.None? then [] else Filter(requests, (x: RequestEntity) => x.id in topic.value.requestIds)
  }

  /** Each held request appears as often as it is stored, each other request never. */
  lemma TopicRequestsCount(topic: TopicEntity, requests: seq<RequestEntity>, x: RequestEntity)
    ensures multiset(TopicRequests(Some(topic), requests))[x] == if x.id in topic.requestIds then multiset(requests)[x] else 0
  {
    FilterMultiset(requests, (y: RequestEntity) => y.id in topic.requestIds, x);
  }

  /** `openRequests`. */
  function OpenRequests(rs: seq<RequestEntity>): (r: seq<RequestEntity>)
    ensures forall x :: x in r <==> x in rs && !Answered(x)
  {
    Filter(rs, Unanswered)
  }

  /** `answeredRequests`. */
  function AnsweredRequests(rs: seq<RequestEntity>): (r: seq<RequestEntity>)
    ensures forall x :: x in r <==> x in rs && Answered(x)
  {
    Filter(rs, Answered)
  }

  /** The two tabs split the topic's requests: together they hold each request exactly as often. */
  lemma TabsPartition(rs: seq<RequestEntity>)
    ensures multiset(OpenRequests(rs)) + multiset(AnsweredRequests(rs)) == multiset(rs)
  {
    forall x ensures (multiset(OpenRequests(rs)) + multiset(AnsweredRequests(rs)))[x] == multiset(rs)[x] {
      FilterMultiset(rs, Unanswered, x);
      FilterMultiset(rs, Answered, x);
    }
  }

  /** `requests.length ? Math.max(...ids) + 1 : 1`: an id no stored request has. */
  function NewRequestId(requests: seq<RequestEntity>): (n: int)
    ensures !HasId(requests, RequestId, n)
    ensures |requests| == 0 ==> n == 1
    ensures |requests| > 0 ==> HasId(requests, RequestId, n - 1)
  {
    NextIdIsFresh(requests, RequestId);
    NextId(Ids(requests, RequestId))
  }

  /** With unique ids, the one topic found under an id is relinked and every other topic stays. */
  lemma RelinkFoundTopic(ts: seq<TopicEntity>, topicId: int, owner: TopicEntity, ids: seq<int>)
    requires UniqueKeys(ts, TopicId) && FindById(ts, TopicId, topicId) == Some(owner)
    ensures var r := TopicsReducer(ts, UpdateTopic(owner.id, TopicChanges(None, Some(ids))));
      |r| == |ts| && forall k :: 0 <= k < |ts| ==> r[k] == if ts[k].id == topicId then ts[k].(requestIds := ids) else ts[k]
  {
    var k :| 0 <= k < |ts| && ts[k] == owner && TopicId(ts[k]) == topicId;
    UpdateTopicAt(ts, k, TopicChanges(None, Some(ids)));
    forall j | 0 <= j < |ts| && ts[j].id == topicId ensures j == k {
    }
  }

  /** No topic carries an id that is not found. */
  lemma NoTopicUnder(ts: seq<TopicEntity>, topicId: int)
    requires FindById(ts, TopicId, topicId).None?
    ensures forall k :: 0 <= k < |ts| ==> ts[k].id != topicId
  {
    forall k | 0 <= k < |ts| ensures ts[k].id != topicId {
      assert TopicId(ts[k]) == ts[k].id;
    }
  }

  /** `onAdd`: a blank request under the new id, linked to the topic when there is one. */
  function AddRequestActions(topic: Option<TopicEntity>, n: int): (acts: seq<Action>)
    ensures |acts| == if topic.Some? then 2 else 1
  {
    [AddRequestWithId(n, "")]
    + match topic
      case None => []
      case Some(t) => [UpdateTopic(t.id, TopicChanges(None, Some(Dedupe(t.requestIds + [n]))))]
  }

  /**
   * Adding stores one blank request under a fresh id at the end, and the
   * topic's ids become its ids without repeats, then the new id; nothing else
   * changes.
   */
  lemma OnAddEffect(st: AppState, topicId: int, now: string)
    requires UniqueKeys(st.topics, TopicId)
    ensures var n := NewRequestId(st.requests);
      var r := DispatchAll(st, AddRequestActions(FindById(st.topics, TopicId, topicId), n), now);
      r.requests == st.requests + [NewRequest(n, "", now)]
      && r.lists == st.lists
      && |r.topics| == |st.topics|
      && forall k :: 0 <= k < |st.topics| ==>
        r.topics[k] == if st.topics[k].id == topicId then st.topics[k].(requestIds := Dedupe(st.topics[k].requestIds + [n])) else st.topics[k]
  {
    var n := NewRequestId(st.requests);
    var topic := FindById(st.topics, TopicId, topicId);
    var add := AddRequestWithId(n, "");
    var s1 := Dispatch(st, add, now);
    assert s1 == st.(requests := st.requests + [NewRequest(n, "", now)]);
    if topic.Some? {
      var t := topic.value;
      var ids := Dedupe(t.requestIds + [n]);
      DispatchAllPair(st, add, UpdateTopic(t.id, TopicChanges(None, Some(ids))), now);
      RelinkFoundTopic(st.topics, topicId, t, ids);
    } else {
      DispatchAllOne(st, add, now);
      NoTopicUnder(st.topics, topicId);
    }
  }

  /** `onRemove`: the request deleted and unlinked from the topic when there is one. */
  function RemoveRequestActions(topic: Option<TopicEntity>, id: int): (acts: seq<Action>)
    ensures |acts| == if topic.Some? then 2 else 1
  {
    [RemoveRequest(id)]
    + match topic
      case None => []
      case Some(t) => [UpdateTopic(t.id, TopicChanges(None, Some(Without(t.requestIds, id))))]
  }

  /**
   * Removing deletes exactly the requests under that id, and the topic keeps
   * every other request id it held, as often, and no longer `id`.
   */
  lemma OnRemoveEffect(st: AppState, topicId: int, id: int, now: string)
    requires UniqueKeys(st.topics, TopicId)
    ensures var r := DispatchAll(st, RemoveRequestActions(FindById(st.topics, TopicId, topicId), id), now);
      (forall x :: x in r.requests <==> x in st.requests && x.id != id)
      && r.lists == st.lists
      && |r.topics| == |st.topics|
      && forall k :: 0 <= k < |st.topics| ==>
        r.topics[k] == if st.topics[k].id == topicId then st.topics[k].(requestIds := Without(st.topics[k].requestIds, id)) else st.topics[k]
  {
    var topic := FindById(st.topics, TopicId, topicId);
    var rm := RemoveRequest(id);
    var s1 := Dispatch(st, rm, now);
    assert s1 == st.(requests := RequestsReducer(st.requests, rm, now));
    RemoveRequestDeletesOnlyTarget(st.requests, id, now);
    if topic.Some? {
      var t := topic.value;
      var ids := Without(t.requestIds, id);
      DispatchAllPair(st, rm, UpdateTopic(t.id, TopicChanges(None, Some(ids))), now);
      RelinkFoundTopic(st.topics, topicId, t, ids);
    } else {
      DispatchAllOne(st, rm, now);
      NoTopicUnder(st.topics, topicId);
    }
  }

  /** `saveEdit`: a rename only when the trimmed text is non-empty and differs from the name. */
  function RenameTopicActions(topic: Option<TopicEntity>, editName: string): (acts: seq<Action>)
    ensures acts != [] <==> topic.Some? && EditedName(editName, topic.value.name).Some?
  {
    match topic
    case None => []
    case Some(t) =>
      match EditedName(editName, t.name)
      case None => []
      case Some(v) => [UpdateTopic(t.id, TopicChanges(Some(v), None))]
  }

  /** A rename gives the topic the trimmed text; saving that text once more renames nothing. */
  lemma RenameTopicSettles(st: AppState, topicId: int, editName: string, now: string)
    requires UniqueKeys(st.topics, TopicId)
    requires RenameTopicActions(FindById(st.topics, TopicId, topicId), editName) != []
    ensures var r := DispatchAll(st, RenameTopicActions(FindById(st.topics, TopicId, topicId), editName), now);
      FindById(r.topics, TopicId, topicId).Some?
      && FindById(r.topics, TopicId, topicId).value.name == Trim(editName)
      && RenameTopicActions(FindById(r.topics, TopicId, topicId), editName) == []
  {
    var t := FindById(st.topics, TopicId, topicId).value;
    var k :| 0 <= k < |st.topics| && st.topics[k] == t && TopicId(st.topics[k]) == topicId;
    var v := EditedName(editName, t.name).value;
    var c := TopicChanges(Some(v), None);
    UpdateTopicAt(st.topics, k, c);
    assert DispatchAll(st, [UpdateTopic(t.id, c)], now) == Dispatch(st, UpdateTopic(t.id, c), now);
    var ts := st.topics[k := ApplyTopicChanges(t, c)];
    FindUnique(ts, k, topicId);
    EditedNameSettles(editName, t.name);
  }

  /** With unique ids, the entity found under an id is the one stored there. */
  lemma FindUnique(ts: seq<TopicEntity>, k: nat, id: int)
    requires k < |ts| && ts[k].id == id && UniqueKeys(ts, TopicId)
    ensures FindById(ts, TopicId, id) == Some(ts[k])
  {
    assert TopicId(ts[k]) == id;
    var i :| 0 <= i < |ts| && ts[i] == FindById(ts, TopicId, id).value && TopicId(ts[i]) == id;
    if i != k {
      assert TopicId(ts[i]) == TopicId(ts[k]);
    }
  }

  /** `onRenameTopic`: the dialog's answer becomes the name as given; a dismissed or empty answer does nothing. */
  function RenameFromDialog(topic: Option<TopicEntity>, value: Option<string>): (acts: seq<Action>)
    ensures acts != [] <==> topic.Some? && value.Some? && value.value != ""
    ensures acts != [] ==> acts == [UpdateTopic(topic.value.id, TopicChanges(value, None))]
  {
    if topic.None? || value.None? || value.value == "" then []
    else [UpdateTopic(topic.value.id, TopicChanges(value, None))]
  }

  /** `onDeleteTopic`: only a topic that shows no request, and only once confirmed. */
  function DeleteTopicActions(topic: Option<TopicEntity>, requests: seq<RequestEntity>, ok: bool): (acts: seq<Action>)
    ensures acts != [] <==> topic.Some? && TopicRequests(topic, requests) == [] && ok
  {
    if topic.None? || |TopicRequests(topic, requests)| > 0 || !ok then []
    else [RemoveTopic(topic.value.id)]
  }

  /**
   * A deleted topic named no stored request, so no request loses its topic;
   * the topic is gone, every other topic stays, and lists and requests are
   * untouched.
   */
  lemma DeleteTopicEffect(st: AppState, topicId: int, ok: bool, now: string)
    requires DeleteTopicActions(FindById(st.topics, TopicId, topicId), st.requests, ok) != []
    ensures var t := FindById(st.topics, TopicId, topicId).value;
      forall x :: x in t.requestIds ==> !HasId(st.requests, RequestId, x)
    ensures var r := DispatchAll(st, DeleteTopicActions(FindById(st.topics, TopicId, topicId), st.requests, ok), now);
      !HasId(r.topics, TopicId, topicId)
      && (forall x :: x in r.topics <==> x in st.topics && x.id != topicId)
      && r.lists == st.lists && r.requests == st.requests
  {
    var topic := FindById(st.topics, TopicId, topicId);
    var t := topic.value;
    var k :| 0 <= k < |st.topics| && st.topics[k] == t && TopicId(st.topics[k]) == topicId;
    forall i | 0 <= i < |st.requests| ensures RequestId(st.requests[i]) !in t.requestIds {
      assert st.requests[i] !in TopicRequests(topic, st.requests);
    }
    var rm := RemoveTopic(t.id);
    DispatchAllOne(st, rm, now);
    RemoveTopicDeletesOnlyTarget(st.topics, t.id);
    var r := Dispatch(st, rm, now);
    forall j | 0 <= j < |r.topics| ensures TopicId(r.topics[j]) != topicId {
      assert r.topics[j] in r.topics;
    }
  }

  /** `cyclePriority`: 1, 2, 3, 4, 5, then back to 1. */
  function NextPriority(p: int): (q: int)
    ensures 1 <= p <= 5 ==> 1 <= q <= 5 && q != p
    ensures p < 5 ==> q == p + 1
    ensures p >= 5 ==> q == 1
  {
    if p >= 5 then 1 else p + 1
  }

  /** Five presses bring a priority in 1..5 back to where it was, passing every other value. */
  lemma CycleReturns(p: int)
    requires 1 <= p <= 5
    ensures NextPriority(NextPriority(NextPriority(NextPriority(NextPriority(p))))) == p
    ensures {p, NextPriority(p), NextPriority(NextPriority(p)), NextPriority(NextPriority(NextPriority(p))),
             NextPriority(NextPriority(NextPriority(NextPriority(p))))} == {1, 2, 3, 4, 5}
  {
  }

  /** The changes an inline save writes: the trimmed text and the chosen priority. */
  function InlineChanges(text: string, priority: int): RequestChanges
  {
    NoRequestChanges.(description := Some(Trim(text)), priority := Some(priority))
  }

  /** `saveInline`: nothing for blank text, else the request takes the trimmed text and the priority. */
  function SaveInlineActions(id: int, text: string, priority: int): (acts: seq<Action>)
    ensures acts == [] <==> AllSpace(text)
  {
    TrimEmptyIffAllSpace(text);
    if Trim(text) == [] then [] else [UpdateRequest(id, InlineChanges(text, priority))]
  }

  /** `markAnsweredInline`: as `saveInline`, also stamping the answer date. */
  function MarkAnsweredActions(id: int, text: string, priority: int, nowIso: string): (acts: seq<Action>)
    ensures acts == [] <==> AllSpace(text)
  {
    TrimEmptyIffAllSpace(text);
    if Trim(text) == [] then []
    else [UpdateRequest(id, InlineChanges(text, priority).(answeredDate := Some(Some(nowIso))))]
  }

  /**
   * A non-blank inline save gives the request its trimmed text, without
   * surrounding white space, and the priority; marking answered with a
   * non-empty stamp moves it from the open tab to the answered tab. Other
   * requests keep their state.
   */
  lemma InlineSaveEffect(rs: seq<RequestEntity>, i: nat, text: string, priority: int, nowIso: string, now: string)
    requires i < |rs| && !AllSpace(text) && nowIso != ""
    ensures var saved := RequestsReducer(rs, SaveInlineActions(rs[i].id, text, priority)[0], now);
      |saved| == |rs| && saved[i].description == Trim(text) && saved[i].priority == priority
      && !IsSpace(saved[i].description[0]) && Answered(saved[i]) == Answered(rs[i])
      && forall k :: 0 <= k < |rs| && rs[k].id != rs[i].id ==> saved[k] == rs[k]
    ensures var marked := RequestsReducer(rs, MarkAnsweredActions(rs[i].id, text, priority, nowIso)[0], now);
      |marked| == |rs| && marked[i].description == Trim(text) && Answered(marked[i])
      && marked[i] !in OpenRequests(marked) && marked[i] in AnsweredRequests(marked)
      && forall k :: 0 <= k < |rs| && rs[k].id != rs[i].id ==> marked[k] == rs[k]
  {
    TrimEmptyIffAllSpace(text);
    var c := InlineChanges(text, priority);
    UpdateRequestTouchesOnlyTarget(rs, rs[i].id, c, now);
    UpdateRequestTouchesOnlyTarget(rs, rs[i].id, c.(answeredDate := Some(Some(nowIso))), now);
  }

  /** `cancelInline` removes the request being edited when it is gone or its text is blank. */
  predicate Discard(req: Option<RequestEntity>)
  {
    req.None? || Trim(req.value.description) == []
  }

  /** The inline editor: the request being edited, its text and priority, and whether it existed before. */
  datatype InlineEdit = InlineEdit(requestId: Option<int>, text: string, priority: int, existing: bool)

  const NoInlineEdit := InlineEdit(None, "", 1, false)

  class TopicPage {
    var st: AppState
    var topicId: Option<int>
    var editing: bool
    var editName: string
    var inline: InlineEdit
    var activeTabIndex: int

    /** `Number(param) || undefined`: a missing or non-numeric parameter is `None`, and 0 is no id either. */
    constructor (store: AppState, param: Option<int>)
      ensures st == store && topicId == (if param == Some(0) then None else param)
      ensures !editing && editName == "" && inline == NoInlineEdit && activeTabIndex == 0
    {
      st := store;
      topicId := if param == Some(0) then None else param;
      editing := false;
      editName := "";
      inline := NoInlineEdit;
      activeTabIndex := 0;
    }

    /** `currentTopic`. */
    function CurrentTopic(): Option<TopicEntity>
      reads this
    {
      if topicId.None? then None else FindById(st.topics, TopicId, topicId.value)
    }

    /** `requests`. */
    function Requests(): seq<RequestEntity>
      reads this
    {
      TopicRequests(CurrentTopic(), st.requests)
    }

    /** `startEdit`: opens the name editor on the current name, or '' without a topic. */
    method StartEdit()
      modifies this
      ensures old(editing) ==> editing && editName == old(editName)
      ensures !old(editing) ==> editing && editName == (if old(CurrentTopic()).Some? then old(CurrentTopic()).value.name else "")
      ensures st == old(st) && topicId == old(topicId) && inline == old(inline) && activeTabIndex == old(activeTabIndex)
    {
      if editing {
        return;
      }
      var topic := CurrentTopic();
      editing := true;
      editName := if topic.Some? then topic.value.name else "";
    }

    /** `saveEdit`: renames when the trimmed text is new and non-empty, and always closes the editor. */
    method SaveEdit(now: string)
      modifies this
      ensures st == DispatchAll(old(st), RenameTopicActions(old(CurrentTopic()), old(editName)), now)
      ensures !editing
      ensures editName == old(editName) && topicId == old(topicId) && inline == old(inline) && activeTabIndex == old(activeTabIndex)
    {
      var topic := CurrentTopic();
      if topic.None? {
        editing := false;
        return;
      }
      var value := EditedName(editName, topic.value.name);
      if value.Some? {
        var a := UpdateTopic(topic.value.id, TopicChanges(Some(value.value), None));
        DispatchAllOne(st, a, now);
        st := Dispatch(st, a, now);
      }
      editing := false;
    }

    /** `onSectionClick`: a click beside the editor saves an open edit and does nothing otherwise. */
    method OnSectionClick(now: string)
      modifies this
      ensures old(editing) ==> st == DispatchAll(old(st), RenameTopicActions(old(CurrentTopic()), old(editName)), now) && !editing
      ensures !old(editing) ==> st == old(st) && !editing
      ensures editName == old(editName) && topicId == old(topicId) && inline == old(inline) && activeTabIndex == old(activeTabIndex)
    {
      if editing {
        SaveEdit(now);
      }
    }

    /** `cancelEdit`. */
    method CancelEdit()
      modifies this
      ensures !editing && editName == ""
      ensures st == old(st) && topicId == old(topicId) && inline == old(inline) && activeTabIndex == old(activeTabIndex)
    {
      editing := false;
      editName := "";
    }

    /** `onAdd`: adds a blank request under a fresh id, links it and starts editing it. */
    method OnAdd(now: string)
      modifies this
      ensures st == DispatchAll(old(st), AddRequestActions(old(CurrentTopic()), NewRequestId(old(st.requests))), now)
      ensures inline == InlineEdit(Some(NewRequestId(old(st.requests))), "", 1, false)
      ensures activeTabIndex == 0
      ensures editing == old(editing) && editName == old(editName) && topicId == old(topicId)
    {
      activeTabIndex := 0;
      var requests := st.requests;
      var nextId := NewRequestId(requests);
      var add := AddRequestWithId(nextId, "");
      ghost var st0 := st;
      ghost var topic0 := CurrentTopic();
      st := Dispatch(st, add, now);
      var topic := CurrentTopic();
      assert topic == topic0;
      if topic.Some? {
        var update := UpdateTopic(topic.value.id, TopicChanges(None, Some(Dedupe(topic.value.requestIds + [nextId]))));
        DispatchAllPair(st0, add, update, now);
        st := Dispatch(st, update, now);
      } else {
        DispatchAllOne(st0, add, now);
      }
      inline := InlineEdit(Some(nextId), "", 1, false);
    }

    /** `onRemove`: deletes the request and unlinks it from the topic. */
    method OnRemove(id: int, now: string)
      modifies this
      ensures st == DispatchAll(old(st), RemoveRequestActions(old(CurrentTopic()), id), now)
      ensures editing == old(editing) && editName == old(editName) && topicId == old(topicId)
      ensures inline == old(inline) && activeTabIndex == old(activeTabIndex)
    {
      var rm := RemoveRequest(id);
      ghost var st0 := st;
      ghost var topic0 := CurrentTopic();
      st := Dispatch(st, rm, now);
      var topic := CurrentTopic();
      assert topic == topic0;
      if topic.Some? {
        var update := UpdateTopic(topic.value.id, TopicChanges(None, Some(Without(topic.value.requestIds, id))));
        DispatchAllPair(st0, rm, update, now);
        st := Dispatch(st, update, now);
      } else {
        DispatchAllOne(st0, rm, now);
      }
    }

    /** `onRenameTopic`, given the name the dialog closed with (`None` when dismissed). */
    method OnRenameTopic(value: Option<string>, now: string)
      modifies this
      ensures st == DispatchAll(old(st), RenameFromDialog(old(CurrentTopic()), value), now)
      ensures editing == old(editing) && editName == old(editName) && topicId == old(topicId)
      ensures inline == old(inline) && activeTabIndex == old(activeTabIndex)
    {
      var topic := CurrentTopic();
      if topic.None? || value.None? || value.value == "" {
        return;
      }
      var a := UpdateTopic(topic.value.id, TopicChanges(value, None));
      DispatchAllOne(st, a, now);
      st := Dispatch(st, a, now);
    }

    /** `onDeleteTopic`, given whether the confirmation dialog was accepted; navigation is not modelled. */
    method OnDeleteTopic(ok: bool, now: string)
      modifies this
      ensures st == DispatchAll(old(st), DeleteTopicActions(old(CurrentTopic()), old(st.requests), ok), now)
      ensures editing == old(editing) && editName == old(editName) && topicId == old(topicId)
      ensures inline == old(inline) && activeTabIndex == old(activeTabIndex)
    {
      var topic := CurrentTopic();
      if topic.None? {
        return;
      }
      if |Requests()| > 0 {
        return;
      }
      if !ok {
        return;
      }
      var a := RemoveTopic(topic.value.id);
      DispatchAllOne(st, a, now);
      st := Dispatch(st, a, now);
    }

    /** `onEditRequest`: starts editing a stored request unless it is already being edited. */
    method OnEditRequest(id: int)
      modifies this
      ensures var req := FindById(old(st.requests), RequestId, id);
        if req.None? || old(inline.requestId) == Some(id) then inline == old(inline)
        else inline == InlineEdit(Some(id), req.value.description, if req.value.priority == 0 then 1 else req.value.priority, true)
      ensures st == old(st) && editing == old(editing) && editName == old(editName) && topicId == old(topicId)
      ensures activeTabIndex == old(activeTabIndex)
    {
      var req := FindById(st.requests, RequestId, id);
      if req.None? {
        return;
      }
      if inline.requestId == Some(id) {
        return;
      }
      inline := InlineEdit(Some(id), req.value.description, if req.value.priority == 0 then 1 else req.value.priority, true);
    }

    /** `saveInline`: does nothing for blank text; otherwise saves and closes the inline editor. */
    method SaveInline(id: int, now: string)
      modifies this
      ensures st == DispatchAll(old(st), SaveInlineActions(id, old(inline.text), old(inline.priority)), now)
      ensures inline == if AllSpace(old(inline.text)) then old(inline) else NoInlineEdit
      ensures editing == old(editing) && editName == old(editName) && topicId == old(topicId)
      ensures activeTabIndex == old(activeTabIndex)
    {
      var desc := Trim(inline.text);
      TrimEmptyIffAllSpace(inline.text);
      if desc == [] {
        return;
      }
      var a := UpdateRequest(id, InlineChanges(inline.text, inline.priority));
      DispatchAllOne(st, a, now);
      st := Dispatch(st, a, now);
      inline := NoInlineEdit;
    }

    /** `markAnsweredInline`: as `saveInline`, stamping the answer date and switching to the answers tab. */
    method MarkAnsweredInline(id: int, nowIso: string, now: string)
      modifies this
      ensures st == DispatchAll(old(st), MarkAnsweredActions(id, old(inline.text), old(inline.priority), nowIso), now)
      ensures AllSpace(old(inline.text)) ==> inline == old(inline) && activeTabIndex == old(activeTabIndex)
      ensures !AllSpace(old(inline.text)) ==> inline == NoInlineEdit && activeTabIndex == 1
      ensures editing == old(editing) && editName == old(editName) && topicId == old(topicId)
    {
      var desc := Trim(inline.text);
      TrimEmptyIffAllSpace(inline.text);
      if desc == [] {
        return;
      }
      var a := UpdateRequest(id, InlineChanges(inline.text, inline.priority).(answeredDate := Some(Some(nowIso))));
      DispatchAllOne(st, a, now);
      st := Dispatch(st, a, now);
      inline := NoInlineEdit;
      activeTabIndex := 1;
    }

    /** `cancelInline`: closes the inline editor, removing the request when it is gone or blank. */
    method CancelInline(now: string)
      modifies this
      ensures old(inline.requestId).None? ==> st == old(st) && inline == old(inline)
      ensures old(inline.requestId).Some? ==>
        var id := old(inline.requestId).value;
        inline == NoInlineEdit
        && st == (if Discard(FindById(old(st.requests), RequestId, id))
                  then DispatchAll(old(st), RemoveRequestActions(old(CurrentTopic()), id), now)
                  else old(st))
      ensures editing == old(editing) && editName == old(editName) && topicId == old(topicId)
      ensures activeTabIndex == old(activeTabIndex)
    {
      if inline.requestId.None? {
        return;
      }
      var id := inline.requestId.value;
      var req := FindById(st.requests, RequestId, id);
      if Discard(req) {
        OnRemove(id, now);
      }
      inline := NoInlineEdit;
    }

    /** `onInlineDelete`: removes the request being edited and closes the inline editor. */
    method OnInlineDelete(now: string)
      modifies this
      ensures old(inline.requestId).None? ==> st == old(st) && inline == old(inline)
      ensures old(inline.requestId).Some? ==>
        inline == NoInlineEdit && st == DispatchAll(old(st), RemoveRequestActions(old(CurrentTopic()), old(inline.requestId).value), now)
      ensures editing == old(editing) && editName == old(editName) && topicId == old(topicId)
      ensures activeTabIndex == old(activeTabIndex)
    {
      if inline.requestId.None? {
        return;
      }
      OnRemove(inline.requestId.value, now);
      inline := NoInlineEdit;
    }

    /** `cyclePriority`. */
    method CyclePriority()
      modifies this
      ensures inline == old(inline).(priority := NextPriority(old(inline.priority)))
      ensures st == old(st) && editing == old(editing) && editName == old(editName) && topicId == old(topicId)
      ensures activeTabIndex == old(activeTabIndex)
    {
      var current := inline.priority;
      inline := inline.(priority := if current >= 5 then 1 else current + 1);
    }
  }
}
