/**
 * `ListComponent`: one list's page. It shows the list's topics, adds a topic
 * named in a dialog, removes topics, renames the list inline or through a
 * dialog and deletes an empty list once confirmed.
 *
 * Dialog answers are parameters (`None` when a dialog is dismissed);
 * `st` is what the store selectors return and every dispatch is applied to it
 * at once. Navigation is not modelled.
 */
module ListComponent {
  import opened Wrappers
  import opened Collections
  import opened Store
  import opened Text

  /** `topics`: the stored topics the list holds, in store order; none without a list. */
  function ListTopics(list: Option<ListEntity>, topics: seq<TopicEntity>): (r: seq<TopicEntity>)
    ensures list.None? ==> r == []
    ensures list.Some? ==> forall t :: t in r <==> t in topics && t.id in list.value.topicIds
  {
    if list.None? then [] else Filter(topics, (t: TopicEntity) => t.id in list.value.topicIds)
  }

  /** `topics.length ? Math.max(...ids) + 1 : 1`: an id no stored topic has. */
  function NewTopicId(topics: seq<TopicEntity>): (n: int)
    ensures !HasId(topics, TopicId, n)
    ensures |topics| == 0 ==> n == 1
    ensures |topics| > 0 ==> HasId(topics, TopicId, n - 1)
  {
    NextIdIsFresh(topics, TopicId);
    NextId(Ids(topics, TopicId))
  }

  /** With unique ids, the one list found under an id gets the new topic ids and every other list stays. */
  lemma RelinkFoundList(ls: seq<ListEntity>, listId: int, owner: ListEntity, ids: seq<int>)
    requires UniqueKeys(ls, ListId) && FindById(ls, ListId, listId) == Some(owner)
    ensures var r := ListsReducer(ls, UpdateList(owner.id, ListChanges(None, Some(ids), None)));
      |r| == |ls| && forall k :: 0 <= k < |ls| ==> r[k] == if ls[k].id == listId then ls[k].(topicIds := ids) else ls[k]
  {
    var k :| 0 <= k < |ls| && ls[k] == owner && ListId(ls[k]) == listId;
    UpdateListAt(ls, k, ListChanges(None, Some(ids), None));
    forall j | 0 <= j < |ls| && ls[j].id == listId ensures j == k {
    }
  }

  /** No list carries an id that is not found. */
  lemma NoListUnder(ls: seq<ListEntity>, listId: int)
    requires FindById(ls, ListId, listId).None?
    ensures forall k :: 0 <= k < |ls| ==> ls[k].id != listId
  {
    forall k | 0 <= k < |ls| ensures ls[k].id != listId {
      assert ListId(ls[k]) == ls[k].id;
    }
  }

  /** `onAdd`: a dismissed or empty name adds nothing; otherwise a new topic, linked to the list when there is one. */
  function AddTopicActions(list: Option<ListEntity>, n: int, value: Option<string>): (acts: seq<Action>)
    ensures acts == [] <==> value.None? || value.value == ""
  {
    if value.None? || value.value == "" then []
    else
      [AddTopicWithId(n, value.value)]
      + match list
        case None => []
        case Some(l) => [UpdateList(l.id, ListChanges(None, Some(Dedupe(l.topicIds + [n])), None))]
  }

  /**
   * A named topic is stored under a fresh id at the end, empty; the list's
   * ids become its ids without repeats, then the new id, so the page shows the
   * new topic; requests and every other list are untouched.
   */
  lemma OnAddEffect(st: AppState, listId: int, name: string)
    requires UniqueKeys(st.lists, ListId) && name != ""
    ensures var n := NewTopicId(st.topics);
      var r := DispatchAll(st, AddTopicActions(FindById(st.lists, ListId, listId), n, Some(name)), "");
      r.topics == st.topics + [TopicEntity(n, name, [])]
      && r.requests == st.requests
      && |r.lists| == |st.lists|
      && (forall k :: 0 <= k < |st.lists| ==>
        r.lists[k] == if st.lists[k].id == listId then st.lists[k].(topicIds := Dedupe(st.lists[k].topicIds + [n])) else st.lists[k])
  {
    var n := NewTopicId(st.topics);
    var list := FindById(st.lists, ListId, listId);
    var add := AddTopicWithId(n, name);
    DispatchAddTopicWithId(st, n, name, "");
    var s1 := st.(topics := st.topics + [TopicEntity(n, name, [])]);
    if list.Some? {
      var l := list.value;
      var ids := Dedupe(l.topicIds + [n]);
      var c := ListChanges(None, Some(ids), None);
      assert AddTopicActions(list, n, Some(name)) == [add, UpdateList(l.id, c)];
      DispatchAllPair(st, add, UpdateList(l.id, c), "");
      DispatchUpdateList(s1, l.id, c, "");
      RelinkFoundList(st.lists, listId, l, ids);
    } else {
      assert AddTopicActions(list, n, Some(name)) == [add];
      DispatchAllOne(st, add, "");
      NoListUnder(st.lists, listId);
    }
  }

  /** On a list's page, adding a topic stores it and gives the list found under the page's id the new id. */
  lemma AddOnListResult(st: AppState, listId: int, name: string)
    requires UniqueKeys(st.lists, ListId) && name != "" && FindById(st.lists, ListId, listId).Some?
    ensures var n := NewTopicId(st.topics);
      var l := FindById(st.lists, ListId, listId).value;
      var r := DispatchAll(st, AddTopicActions(Some(l), n, Some(name)), "");
      r.topics == st.topics + [TopicEntity(n, name, [])]
      && FindById(r.lists, ListId, listId) == Some(l.(topicIds := Dedupe(l.topicIds + [n])))
  {
    var n := NewTopicId(st.topics);
    var l := FindById(st.lists, ListId, listId).value;
    var k :| 0 <= k < |st.lists| && st.lists[k] == l && ListId(st.lists[k]) == listId;
    var c := ListChanges(None, Some(Dedupe(l.topicIds + [n])), None);
    var add := AddTopicWithId(n, name);
    assert AddTopicActions(Some(l), n, Some(name)) == [add, UpdateList(l.id, c)];
    DispatchAllPair(st, add, UpdateList(l.id, c), "");
    DispatchAddTopicWithId(st, n, name, "");
    var s1 := st.(topics := st.topics + [TopicEntity(n, name, [])]);
    DispatchUpdateList(s1, l.id, c, "");
    UpdateListAt(st.lists, k, c);
    FindUniqueList(st.lists[k := ApplyListChanges(l, c)], k, listId);
  }

  /** On a list's page, the topic just added is among the topics the page shows. */
  lemma AddedTopicShown(st: AppState, listId: int, name: string)
    requires UniqueKeys(st.lists, ListId) && name != "" && FindById(st.lists, ListId, listId).Some?
    ensures var n := NewTopicId(st.topics);
      var r := DispatchAll(st, AddTopicActions(FindById(st.lists, ListId, listId), n, Some(name)), "");
      TopicEntity(n, name, []) in ListTopics(FindById(r.lists, ListId, listId), r.topics)
  {
    var n := NewTopicId(st.topics);
    var l := FindById(st.lists, ListId, listId).value;
    AddOnListResult(st, listId, name);
    var r := DispatchAll(st, AddTopicActions(Some(l), n, Some(name)), "");
    var shown := ListTopics(Some(l.(topicIds := Dedupe(l.topicIds + [n]))), r.topics);
    assert n in Dedupe(l.topicIds + [n]);
    assert TopicEntity(n, name, []) in r.topics;
    assert TopicEntity(n, name, []) in shown;
  }

  /** With unique ids, the list found under an id is the one stored there. */
  lemma FindUniqueList(ls: seq<ListEntity>, k: nat, id: int)
    requires k < |ls| && ls[k].id == id && UniqueKeys(ls, ListId)
    ensures FindById(ls, ListId, id) == Some(ls[k])
  {
    assert ListId(ls[k]) == id;
    var i :| 0 <= i < |ls| && ls[i] == FindById(ls, ListId, id).value && ListId(ls[i]) == id;
    if i != k {
      assert ListId(ls[i]) == ListId(ls[k]);
    }
  }

  /** `onRemove`: the topic deleted and unlinked from the list when there is one. */
  function RemoveTopicActions(list: Option<ListEntity>, id: int): (acts: seq<Action>)
    ensures |acts| == if list.Some? then 2 else 1
  {
    [RemoveTopic(id)]
    + match list
      case None => []
      case Some(l) => [UpdateList(l.id, ListChanges(None, Some(Without(l.topicIds, id)), None))]
  }

  /**
   * Removing deletes exactly the topics under that id and the list keeps every
   * other topic id, as often, and no longer `id`; the topic's requests stay
   * stored.
   */
  lemma OnRemoveEffect(st: AppState, listId: int, id: int)
    requires UniqueKeys(st.lists, ListId)
    ensures var r := DispatchAll(st, RemoveTopicActions(FindById(st.lists, ListId, listId), id), "");
      (forall t :: t in r.topics <==> t in st.topics && t.id != id)
      && r.requests == st.requests
      && |r.lists| == |st.lists|
      && forall k :: 0 <= k < |st.lists| ==>
        r.lists[k] == if st.lists[k].id == listId then st.lists[k].(topicIds := Without(st.lists[k].topicIds, id)) else st.lists[k]
  {
    var list := FindById(st.lists, ListId, listId);
    var rm := RemoveTopic(id);
    var s1 := Dispatch(st, rm, "");
    assert s1 == st.(topics := TopicsReducer(st.topics, rm));
    RemoveTopicDeletesOnlyTarget(st.topics, id);
    if list.Some? {
      var l := list.value;
      var ids := Without(l.topicIds, id);
      DispatchAllPair(st, rm, UpdateList(l.id, ListChanges(None, Some(ids), None)), "");
      RelinkFoundList(st.lists, listId, l, ids);
    } else {
      DispatchAllOne(st, rm, "");
      NoListUnder(st.lists, listId);
    }
  }

  /** `onRename`: the dialog's answer becomes the name as given; a dismissed or empty answer does nothing. */
  function RenameFromDialog(list: Option<ListEntity>, value: Option<string>): (acts: seq<Action>)
    ensures acts != [] <==> list.Some? && value.Some? && value.value != ""
    ensures acts != [] ==> acts == [UpdateList(list.value.id, ListChanges(value, None, None))]
  {
    if list.None? || value.None? || value.value == "" then []
    else [UpdateList(list.value.id, ListChanges(value, None, None))]
  }

  /** `saveEdit`: a rename only when the trimmed text is non-empty and differs from the name. */
  function RenameListActions(list: Option<ListEntity>, editName: string): (acts: seq<Action>)
    ensures acts != [] <==> list.Some? && EditedName(editName, list.value.name).Some?
  {
    match list
    case None => []
    case Some(l) =>
      match EditedName(editName, l.name)
      case None => []
      case Some(v) => [UpdateList(l.id, ListChanges(Some(v), None, None))]
  }

  /** A rename gives the list the trimmed text and keeps its topics; saving that text once more renames nothing. */
  lemma RenameListSettles(st: AppState, listId: int, editName: string, now: string)
    requires UniqueKeys(st.lists, ListId)
    requires RenameListActions(FindById(st.lists, ListId, listId), editName) != []
    ensures var l := FindById(st.lists, ListId, listId).value;
      var r := DispatchAll(st, RenameListActions(FindById(st.lists, ListId, listId), editName), now);
      FindById(r.lists, ListId, listId) == Some(l.(name := Trim(editName)))
      && RenameListActions(FindById(r.lists, ListId, listId), editName) == []
  {
    var l := FindById(st.lists, ListId, listId).value;
    var k :| 0 <= k < |st.lists| && st.lists[k] == l && ListId(st.lists[k]) == listId;
    var v := EditedName(editName, l.name).value;
    var c := ListChanges(Some(v), None, None);
    UpdateListAt(st.lists, k, c);
    assert DispatchAll(st, [UpdateList(l.id, c)], now) == Dispatch(st, UpdateList(l.id, c), now);
    var ls := st.lists[k := ApplyListChanges(l, c)];
    FindUniqueList(ls, k, listId);
    EditedNameSettles(editName, l.name);
  }

  /** `onDelete`: only a list that shows no topic, and only once confirmed. */
  function DeleteListActions(list: Option<ListEntity>, topics: seq<TopicEntity>, ok: bool): (acts: seq<Action>)
    ensures acts != [] <==> list.Some? && ListTopics(list, topics) == [] && ok
  {
    if list.None? || |ListTopics(list, topics)| > 0 || !ok then []
    else [RemoveList(list.value.id)]
  }

  /**
   * A deleted list named no stored topic, so no topic loses its list; the
   * list is gone, every other list stays, and topics and requests are
   * untouched.
   */
  lemma DeleteListEffect(st: AppState, listId: int, ok: bool)
    requires DeleteListActions(FindById(st.lists, ListId, listId), st.topics, ok) != []
    ensures var l := FindById(st.lists, ListId, listId).value;
      forall x :: x in l.topicIds ==> !HasId(st.topics, TopicId, x)
    ensures var r := DispatchAll(st, DeleteListActions(FindById(st.lists, ListId, listId), st.topics, ok), "");
      !HasId(r.lists, ListId, listId)
      && (forall x :: x in r.lists <==> x in st.lists && x.id != listId)
      && r.topics == st.topics && r.requests == st.requests
  {
    var list := FindById(st.lists, ListId, listId);
    var l := list.value;
    var k :| 0 <= k < |st.lists| && st.lists[k] == l && ListId(st.lists[k]) == listId;
    forall i | 0 <= i < |st.topics| ensures TopicId(st.topics[i]) !in l.topicIds {
      assert st.topics[i] !in ListTopics(list, st.topics);
    }
    var rm := RemoveList(l.id);
    DispatchAllOne(st, rm, "");
    RemoveListDeletesOnlyTarget(st.lists, l.id);
    var r := Dispatch(st, rm, "");
    forall j | 0 <= j < |r.lists| ensures ListId(r.lists[j]) != listId {
      assert r.lists[j] in r.lists;
    }
  }

  class ListPage {
    var st: AppState
    var listId: Option<int>
    var editing: bool
    var editName: string

    /** `Number(param) || undefined`: a missing or non-numeric parameter is `None`, and 0 is no id either. */
    constructor (store: AppState, param: Option<int>)
      ensures st == store && listId == (if param == Some(0) then None else param)
      ensures !editing && editName == ""
    {
      st := store;
      listId := if param == Some(0) then None else param;
      editing := false;
      editName := "";
    }

    /** `currentList`. */
    function CurrentList(): Option<ListEntity>
      reads this
    {
      if listId.None? then None else FindById(st.lists, ListId, listId.value)
    }

    /** `topics`. */
    function Topics(): seq<TopicEntity>
      reads this
    {
      ListTopics(CurrentList(), st.topics)
    }

    /** `onAdd`, given the name the dialog closed with. */
    method OnAdd(value: Option<string>, now: string)
      modifies this
      ensures st == DispatchAll(old(st), AddTopicActions(old(CurrentList()), NewTopicId(old(st.topics)), value), now)
      ensures listId == old(listId) && editing == old(editing) && editName == old(editName)
    {
      if value.None? || value.value == "" {
        return;
      }
      var topics := st.topics;
      var nextId := NewTopicId(topics);
      var add := AddTopicWithId(nextId, value.value);
      ghost var st0 := st;
      ghost var list0 := CurrentList();
      st := Dispatch(st, add, now);
      var list := CurrentList();
      assert list == list0;
      if list.Some? {
        var update := UpdateList(list.value.id, ListChanges(None, Some(Dedupe(list.value.topicIds + [nextId])), None));
        DispatchAllPair(st0, add, update, now);
        st := Dispatch(st, update, now);
      } else {
        DispatchAllOne(st0, add, now);
      }
    }

    /** `onRename`, given the name the dialog closed with. */
    method OnRename(value: Option<string>, now: string)
      modifies this
      ensures st == DispatchAll(old(st), RenameFromDialog(old(CurrentList()), value), now)
      ensures listId == old(listId) && editing == old(editing) && editName == old(editName)
    {
      var list := CurrentList();
      if list.None? || value.None? || value.value == "" {
        return;
      }
      var a := UpdateList(list.value.id, ListChanges(value, None, None));
      DispatchAllOne(st, a, now);
      st := Dispatch(st, a, now);
    }

    /** `onDelete`, given whether the confirmation dialog was accepted. */
    method OnDelete(ok: bool, now: string)
      modifies this
      ensures st == DispatchAll(old(st), DeleteListActions(old(CurrentList()), old(st.topics), ok), now)
      ensures listId == old(listId) && editing == old(editing) && editName == old(editName)
    {
      var list := CurrentList();
      if list.None? {
        return;
      }
      if |Topics()| > 0 {
        return;
      }
      if !ok {
        return;
      }
      var a := RemoveList(list.value.id);
      DispatchAllOne(st, a, now);
      st := Dispatch(st, a, now);
    }

    /** `onRemove`: deletes the topic and unlinks it from the list. */
    method OnRemove(id: int, now: string)
      modifies this
      ensures st == DispatchAll(old(st), RemoveTopicActions(old(CurrentList()), id), now)
      ensures listId == old(listId) && editing == old(editing) && editName == old(editName)
    {
      var rm := RemoveTopic(id);
      ghost var st0 := st;
      ghost var list0 := CurrentList();
      st := Dispatch(st, rm, now);
      var list := CurrentList();
      assert list == list0;
      if list.Some? {
        var update := UpdateList(list.value.id, ListChanges(None, Some(Without(list.value.topicIds, id)), None));
        DispatchAllPair(st0, rm, update, now);
        st := Dispatch(st, update, now);
      } else {
        DispatchAllOne(st0, rm, now);
      }
    }

    /** `startEdit`: opens the name editor on the current name, or '' without a list. */
    method StartEdit()
      modifies this
      ensures old(editing) ==> editing && editName == old(editName)
      ensures !old(editing) ==> editing && editName == (if old(CurrentList()).Some? then old(CurrentList()).value.name else "")
      ensures st == old(st) && listId == old(listId)
    {
      if editing {
        return;
      }
      var list := CurrentList();
      editing := true;
      editName := if list.Some? then list.value.name else "";
    }

    /** `saveEdit`: renames when the trimmed text is new and non-empty, and always closes the editor. */
    method SaveEdit(now: string)
      modifies this
      ensures st == DispatchAll(old(st), RenameListActions(old(CurrentList()), old(editName)), now)
      ensures !editing && editName == old(editName) && listId == old(listId)
    {
      var list := CurrentList();
      if list.None? {
        editing := false;
        return;
      }
      var value := EditedName(editName, list.value.name);
      if value.Some? {
        var a := UpdateList(list.value.id, ListChanges(Some(value.value), None, None));
        DispatchAllOne(st, a, now);
        st := Dispatch(st, a, now);
      }
      editing := false;
    }

    /** `onSectionClick`: a click beside the editor saves an open edit and does nothing otherwise. */
    method OnSectionClick(now: string)
      modifies this
      ensures old(editing) ==> st == DispatchAll(old(st), RenameListActions(old(CurrentList()), old(editName)), now) && !editing
      ensures !old(editing) ==> st == old(st) && !editing
      ensures editName == old(editName) && listId == old(listId)
    {
      if editing {
        SaveEdit(now);
      }
    }

    /** `cancelEdit`. */
    method CancelEdit()
      modifies this
      ensures !editing && editName == ""
      ensures st == old(st) && listId == old(listId)
    {
      editing := false;
      editName := "";
    }
  }
}
