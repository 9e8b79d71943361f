/**
 * The NgRx store: the three entity collections (lists, topics, requests), the
 * actions that change them, and their reducers.
 *
 * An entity collection is held as the sequence of its entities in insertion
 * (id-list) order, which is the order `selectAll` yields. The entity adapter
 * is modelled as: `addOne` appends unless the id is already present (then the
 * state is unchanged), `updateOne` merges the changes into the entity with
 * that id (no-op when absent), `removeOne` drops it, `removeAll` empties.
 */
module Store {
  import opened Wrappers
  import opened Numbers
  import opened Collections

  datatype RequestEntity = RequestEntity(
    id: int,
    description: string,
    createdDate: string,
    answeredDate: Option<string>,      // null / undefined are both None
    answerDescription: Option<string>,
    prayerCount: int,
    priority: int,
    archived: Option<bool>)

  datatype TopicEntity = TopicEntity(id: int, name: string, requestIds: seq<int>)

  datatype ListEntity = ListEntity(id: int, name: string, topicIds: seq<int>, excludeFromAll: bool)

  function RequestId(r: RequestEntity): int { r.id }
  function TopicId(t: TopicEntity): int { t.id }
  function ListId(l: ListEntity): int { l.id }

  /** A present change is `Some`; `Some(None)` sets a nullable field to null. */
  datatype RequestChanges = RequestChanges(
    description: Option<string>,
    createdDate: Option<string>,
    answeredDate: Option<Option<string>>,
    answerDescription: Option<Option<string>>,
    prayerCount: Option<int>,
    priority: Option<int>,
    archived: Option<Option<bool>>)

  datatype TopicChanges = TopicChanges(name: Option<string>, requestIds: Option<seq<int>>)

  datatype ListChanges = ListChanges(name: Option<string>, topicIds: Option<seq<int>>, excludeFromAll: Option<bool>)

  const NoRequestChanges := RequestChanges(None, None, None, None, None, None, None)

  datatype Action =
    | AddList(name: string)
    | AddListWithId(id: int, name: string, listTopicIds: Option<seq<int>>, excludeFromAll: Option<bool>)
    | UpdateList(id: int, listChanges: ListChanges)
    | RemoveList(id: int)
    | ClearLists
    | AddTopic(name: string)
    | AddTopicWithId(id: int, name: string)
    | UpdateTopic(id: int, topicChanges: TopicChanges)
    | RemoveTopic(id: int)
    | ClearTopics
    | AddRequest(description: string)
    | AddRequestWithId(id: int, description: string)
    | UpdateRequest(id: int, requestChanges: RequestChanges)
    | RemoveRequest(id: int)
    | ClearRequests

  datatype AppState = AppState(lists: seq<ListEntity>, topics: seq<TopicEntity>, requests: seq<RequestEntity>)

  // ---------------------------------------------------------------------------
  // Entity adapter

  function Ids<T>(s: seq<T>, key: T -> int): (ids: seq<int>)
    ensures |ids| == |s|
    ensures forall i :: 0 <= i < |s| ==> ids[i] == key(s[i])
  {
    if s == [] then [] else Ids(s[..|s| - 1], key) + [key(s[|s| - 1])]
  }

  predicate UniqueIds(ids: seq<int>)
  {
    forall i, j :: 0 <= i < j < |ids| ==> ids[i] != ids[j]
  }

  predicate HasId<T>(s: seq<T>, key: T -> int, id: int)
  {
    exists i :: 0 <= i < |s| && key(s[i]) == id
  }

  /** The two ways of saying that ids are unique agree. */
  lemma UniqueIdsKeys<T>(s: seq<T>, key: T -> int)
    ensures UniqueIds(Ids(s, key)) <==> UniqueKeys(s, key)
  {
    var ids := Ids(s, key);
    if UniqueIds(ids) {
      forall i, j | 0 <= i < j < |s| ensures key(s[i]) != key(s[j]) {
        assert ids[i] == key(s[i]) && ids[j] == key(s[j]);
      }
    }
    if UniqueKeys(s, key) {
      forall i, j | 0 <= i < j < |ids| ensures ids[i] != ids[j] {
        assert ids[i] == key(s[i]) && ids[j] == key(s[j]);
      }
    }
  }

  /** `s.find(e => key(e) === id)`: the first entity with that id. */
  function FindById<T>(s: seq<T>, key: T -> int, id: int): (r: Option<T>)
    ensures r.Some? <==> HasId(s, key, id)
    ensures r.Some? ==> exists i :: 0 <= i < |s| && s[i] == r.value && key(s[i]) == id
  {
    if s == [] then None
    else if key(s[0]) == id then Some(s[0])
    else
      var r := FindById(s[1..], key, id);
      assert HasId(s, key, id) ==> HasId(s[1..], key, id) by {
        if HasId(s, key, id) {
          var i :| 0 <= i < |s| && key(s[i]) == id;
          assert i > 0 && key(s[1..][i - 1]) == id;
        }
      }
      assert r.Some? ==> HasId(s, key, id) by {
        if r.Some? {
          var i :| 0 <= i < |s[1..]| && s[1..][i] == r.value && key(s[1..][i]) == id;
          assert s[i + 1] == r.value;
        }
      }
      r
  }

  function AddOne<T>(s: seq<T>, key: T -> int, e: T): seq<T>
  {
    if HasId(s, key, key(e)) then s else s + [e]
  }

  function UpdateOne<T>(s: seq<T>, key: T -> int, id: int, f: T -> T): (r: seq<T>)
  {
    seq(|s|, i requires 0 <= i < |s| => if key(s[i]) == id then f(s[i]) else s[i])
  }

  function RemoveOne<T>(s: seq<T>, key: T -> int, id: int): (r: seq<T>)
  {
    if s == [] then []
    else if key(s[|s| - 1]) == id then RemoveOne(s[..|s| - 1], key, id)
    else RemoveOne(s[..|s| - 1], key, id) + [s[|s| - 1]]
  }

  /** `nextId`: one more than the largest id, or 1 for an empty collection. */
  function NextId(ids: seq<int>): (n: int)
    ensures forall x :: x in ids ==> x < n
    ensures |ids| == 0 ==> n == 1
    ensures |ids| > 0 ==> n - 1 in ids
  {
    if |ids| == 0 then 1 else MaxOf(ids) + 1
  }

  // ---------------------------------------------------------------------------
  // Changes

  function ApplyRequestChanges(r: RequestEntity, c: RequestChanges): RequestEntity
  {
    RequestEntity(
      r.id,
      GetOr(c.description, r.description),
      GetOr(c.createdDate, r.createdDate),
      GetOr(c.answeredDate, r.answeredDate),
      GetOr(c.answerDescription, r.answerDescription),
      GetOr(c.prayerCount, r.prayerCount),
      GetOr(c.priority, r.priority),
      GetOr(c.archived, r.archived))
  }

  function ApplyTopicChanges(t: TopicEntity, c: TopicChanges): TopicEntity
  {
    TopicEntity(t.id, GetOr(c.name, t.name), GetOr(c.requestIds, t.requestIds))
  }

  function ApplyListChanges(l: ListEntity, c: ListChanges): ListEntity
  {
    ListEntity(l.id, GetOr(c.name, l.name), GetOr(c.topicIds, l.topicIds), GetOr(c.excludeFromAll, l.excludeFromAll))
  }

  // ---------------------------------------------------------------------------
  // Reducers

  /** The list reducer. It has no case for `AddListWithId`, so that action leaves lists as they are. */
  function ListsReducer(s: seq<ListEntity>, a: Action): seq<ListEntity>
  {
    match a
    case AddList(name) => AddOne(s, ListId, ListEntity(NextId(Ids(s, ListId)), name, [], false))
    case UpdateList(id, c) => UpdateOne(s, ListId, id, (l: ListEntity) => ApplyListChanges(l, c))
    case RemoveList(id) => RemoveOne(s, ListId, id)
    case ClearLists => []
    case _ => s
  }

  function TopicsReducer(s: seq<TopicEntity>, a: Action): seq<TopicEntity>
  {
    match a
    case AddTopic(name) => AddOne(s, TopicId, TopicEntity(NextId(Ids(s, TopicId)), name, []))
    case AddTopicWithId(id, name) => AddOne(s, TopicId, TopicEntity(id, name, []))
    case UpdateTopic(id, c) => UpdateOne(s, TopicId, id, (t: TopicEntity) => ApplyTopicChanges(t, c))
    case RemoveTopic(id) => RemoveOne(s, TopicId, id)
    case ClearTopics => []
    case _ => s
  }

  /** A request as the reducer creates it: stamped `now`, unanswered, never prayed, priority 1. */
  function NewRequest(id: int, description: string, now: string): RequestEntity
  {
    RequestEntity(id, description, now, None, None, 0, 1, None)
  }

  /** The request reducer; `now` is the clock reading `new Date().toISOString()` takes. */
  function RequestsReducer(s: seq<RequestEntity>, a: Action, now: string): seq<RequestEntity>
  {
    match a
    case AddRequest(description) => AddOne(s, RequestId, NewRequest(NextId(Ids(s, RequestId)), description, now))
    case AddRequestWithId(id, description) => AddOne(s, RequestId, NewRequest(id, description, now))
    case UpdateRequest(id, c) => UpdateOne(s, RequestId, id, (r: RequestEntity) => ApplyRequestChanges(r, c))
    case RemoveRequest(id) => RemoveOne(s, RequestId, id)
    case ClearRequests => []
    case _ => s
  }

  /** `store.dispatch(a)`: every feature reducer sees the action. */
  function Dispatch(st: AppState, a: Action, now: string): AppState
  {
    AppState(ListsReducer(st.lists, a), TopicsReducer(st.topics, a), RequestsReducer(st.requests, a, now))
  }

  /** Several dispatches in order. */
  function DispatchAll(st: AppState, acts: seq<Action>, now: string): AppState
    decreases |acts|
  {
    if acts == [] then st else DispatchAll(Dispatch(st, acts[0], now), acts[1..], now)
  }

  /** Each collection holds at most one entity per id. */
  predicate ValidState(st: AppState)
  {
    UniqueIds(Ids(st.lists, ListId)) && UniqueIds(Ids(st.topics, TopicId)) && UniqueIds(Ids(st.requests, RequestId))
  }

  // ---------------------------------------------------------------------------
  // Adapter properties

  lemma {:induction false} AddOneSpec<T>(s: seq<T>, key: T -> int, e: T)
    requires UniqueIds(Ids(s, key))
    ensures HasId(s, key, key(e)) ==> AddOne(s, key, e) == s
    ensures !HasId(s, key, key(e)) ==> AddOne(s, key, e) == s + [e]
    ensures UniqueIds(Ids(AddOne(s, key, e), key))
    ensures HasId(AddOne(s, key, e), key, key(e))
  {
    var r := AddOne(s, key, e);
    if !HasId(s, key, key(e)) {
      assert r[|s|] == e;
      forall i, j | 0 <= i < j < |r| ensures Ids(r, key)[i] != Ids(r, key)[j] {
        if j < |s| {
          assert Ids(r, key)[i] == Ids(s, key)[i] && Ids(r, key)[j] == Ids(s, key)[j];
        } else {
          assert key(r[i]) != key(e) by { assert r[i] == s[i]; }
        }
      }
    }
  }

  lemma {:induction false} RemoveOneSpec<T>(s: seq<T>, key: T -> int, id: int)
    ensures forall x :: x in RemoveOne(s, key, id) ==> x in s && key(x) != id
    ensures forall x :: x in s && key(x) != id ==> x in RemoveOne(s, key, id)
    ensures !HasId(RemoveOne(s, key, id), key, id)
    ensures |RemoveOne(s, key, id)| <= |s|
    decreases |s|
  {
    if s != [] {
      var p := s[..|s| - 1];
      RemoveOneSpec(p, key, id);
      assert s == p + [s[|s| - 1]];
    }
  }

  lemma {:induction false} RemoveOneKeepsUnique<T>(s: seq<T>, key: T -> int, id: int)
    requires UniqueIds(Ids(s, key))
    ensures UniqueIds(Ids(RemoveOne(s, key, id), key))
    decreases |s|
  {
    if s != [] {
      var p := s[..|s| - 1];
      var last := s[|s| - 1];
      assert UniqueIds(Ids(p, key)) by {
        forall i, j | 0 <= i < j < |p| ensures Ids(p, key)[i] != Ids(p, key)[j] {
          assert Ids(s, key)[i] == key(p[i]) && Ids(s, key)[j] == key(p[j]);
        }
      }
      RemoveOneKeepsUnique(p, key, id);
      var rp := RemoveOne(p, key, id);
      if key(last) != id {
        RemoveOneSpec(p, key, id);
        var r := rp + [last];
        assert RemoveOne(s, key, id) == r;
        forall i, j | 0 <= i < j < |r| ensures Ids(r, key)[i] != Ids(r, key)[j] {
          if j == |r| - 1 {
            assert r[i] == rp[i] && rp[i] in rp;
            var k :| 0 <= k < |p| && p[k] == r[i];
            assert Ids(s, key)[k] != Ids(s, key)[|s| - 1];
          } else {
            assert Ids(rp, key)[i] == key(r[i]) && Ids(rp, key)[j] == key(r[j]);
          }
        }
      }
    }
  }

  lemma UpdateOneSpec<T>(s: seq<T>, key: T -> int, id: int, f: T -> T)
    requires forall x :: key(f(x)) == key(x)
    ensures |UpdateOne(s, key, id, f)| == |s|
    ensures Ids(UpdateOne(s, key, id, f), key) == Ids(s, key)
    ensures forall i :: 0 <= i < |s| && key(s[i]) == id ==> UpdateOne(s, key, id, f)[i] == f(s[i])
    ensures forall i :: 0 <= i < |s| && key(s[i]) != id ==> UpdateOne(s, key, id, f)[i] == s[i]
  {
  }

  // ---------------------------------------------------------------------------
  // Reducer properties

  /** Every action keeps the lists free of duplicate ids. */
  lemma ListsReducerKeepsIdsUnique(s: seq<ListEntity>, a: Action)
    requires UniqueIds(Ids(s, ListId))
    ensures UniqueIds(Ids(ListsReducer(s, a), ListId))
  {
    match a {
      case AddList(name) => AddOneSpec(s, ListId, ListEntity(NextId(Ids(s, ListId)), name, [], false));
      case UpdateList(id, c) => UpdateOneSpec(s, ListId, id, (l: ListEntity) => ApplyListChanges(l, c));
      case RemoveList(id) => RemoveOneKeepsUnique(s, ListId, id);
      case _ =>
    }
  }

  /** Every action keeps the topics free of duplicate ids. */
  lemma TopicsReducerKeepsIdsUnique(s: seq<TopicEntity>, a: Action)
    requires UniqueIds(Ids(s, TopicId))
    ensures UniqueIds(Ids(TopicsReducer(s, a), TopicId))
  {
    match a {
      case AddTopic(name) => AddOneSpec(s, TopicId, TopicEntity(NextId(Ids(s, TopicId)), name, []));
      case AddTopicWithId(id, name) => AddOneSpec(s, TopicId, TopicEntity(id, name, []));
      case UpdateTopic(id, c) => UpdateOneSpec(s, TopicId, id, (t: TopicEntity) => ApplyTopicChanges(t, c));
      case RemoveTopic(id) => RemoveOneKeepsUnique(s, TopicId, id);
      case _ =>
    }
  }

  /** Every action keeps the requests free of duplicate ids. */
  lemma RequestsReducerKeepsIdsUnique(s: seq<RequestEntity>, a: Action, now: string)
    requires UniqueIds(Ids(s, RequestId))
    ensures UniqueIds(Ids(RequestsReducer(s, a, now), RequestId))
  {
    match a {
      case AddRequest(d) => AddOneSpec(s, RequestId, NewRequest(NextId(Ids(s, RequestId)), d, now));
      case AddRequestWithId(id, d) => AddOneSpec(s, RequestId, NewRequest(id, d, now));
      case UpdateRequest(id, c) => UpdateOneSpec(s, RequestId, id, (r: RequestEntity) => ApplyRequestChanges(r, c));
      case RemoveRequest(id) => RemoveOneKeepsUnique(s, RequestId, id);
      case _ =>
    }
  }

  /** Every action keeps each collection free of duplicate ids. */
  lemma DispatchKeepsIdsUnique(st: AppState, a: Action, now: string)
    requires ValidState(st)
    ensures ValidState(Dispatch(st, a, now))
  {
    ListsReducerKeepsIdsUnique(st.lists, a);
    TopicsReducerKeepsIdsUnique(st.topics, a);
    RequestsReducerKeepsIdsUnique(st.requests, a, now);
  }

  /** The next id of a collection is no stored entity's id; a non-empty collection holds its predecessor. */
  lemma NextIdIsFresh<T>(s: seq<T>, key: T -> int)
    ensures !HasId(s, key, NextId(Ids(s, key)))
    ensures |s| > 0 ==> HasId(s, key, NextId(Ids(s, key)) - 1)
  {
    var ids := Ids(s, key);
    var n := NextId(ids);
    forall i | 0 <= i < |s| ensures key(s[i]) != n {
      assert ids[i] == key(s[i]) && ids[i] in ids;
    }
    if |s| > 0 {
      var i :| 0 <= i < |ids| && ids[i] == n - 1;
      assert key(s[i]) == n - 1;
    }
  }

  /** `addRequest` appends a fresh request whose id exceeds every existing id. */
  lemma AddRequestAppendsFresh(s: seq<RequestEntity>, description: string, now: string)
    ensures var n := NextId(Ids(s, RequestId));
      RequestsReducer(s, AddRequest(description), now) == s + [NewRequest(n, description, now)]
      && forall r :: r in s ==> r.id < n
  {
    var n := NextId(Ids(s, RequestId));
    if HasId(s, RequestId, n) {
      var i :| 0 <= i < |s| && s[i].id == n;
      assert Ids(s, RequestId)[i] == n;
    }
    forall r | r in s ensures r.id < n {
      var i :| 0 <= i < |s| && s[i] == r;
      assert Ids(s, RequestId)[i] == r.id && Ids(s, RequestId)[i] in Ids(s, RequestId);
    }
  }

  /** `addTopic` appends a fresh, empty topic whose id exceeds every existing id. */
  lemma AddTopicAppendsFresh(s: seq<TopicEntity>, name: string)
    ensures var n := NextId(Ids(s, TopicId));
      TopicsReducer(s, AddTopic(name)) == s + [TopicEntity(n, name, [])]
      && forall t :: t in s ==> t.id < n
  {
    var n := NextId(Ids(s, TopicId));
    if HasId(s, TopicId, n) {
      var i :| 0 <= i < |s| && s[i].id == n;
      assert Ids(s, TopicId)[i] == n;
    }
    forall t | t in s ensures t.id < n {
      var i :| 0 <= i < |s| && s[i] == t;
      assert Ids(s, TopicId)[i] == t.id && Ids(s, TopicId)[i] in Ids(s, TopicId);
    }
  }

  /** `addList` appends a fresh, empty list whose id exceeds every existing id. */
  lemma AddListAppendsFresh(s: seq<ListEntity>, name: string)
    ensures var n := NextId(Ids(s, ListId));
      ListsReducer(s, AddList(name)) == s + [ListEntity(n, name, [], false)]
      && forall l :: l in s ==> l.id < n
  {
    var n := NextId(Ids(s, ListId));
    if HasId(s, ListId, n) {
      var i :| 0 <= i < |s| && s[i].id == n;
      assert Ids(s, ListId)[i] == n;
    }
    forall l | l in s ensures l.id < n {
      var i :| 0 <= i < |s| && s[i] == l;
      assert Ids(s, ListId)[i] == l.id && Ids(s, ListId)[i] in Ids(s, ListId);
    }
  }

  /** `updateRequest` merges the changes into the request with that id and leaves every other request as it was. */
  lemma UpdateRequestTouchesOnlyTarget(s: seq<RequestEntity>, id: int, c: RequestChanges, now: string)
    ensures var r := RequestsReducer(s, UpdateRequest(id, c), now);
      |r| == |s| && Ids(r, RequestId) == Ids(s, RequestId)
      && (forall i :: 0 <= i < |s| && s[i].id == id ==> r[i] == ApplyRequestChanges(s[i], c))
      && (forall i :: 0 <= i < |s| && s[i].id != id ==> r[i] == s[i])
  {
    UpdateOneSpec(s, RequestId, id, (x: RequestEntity) => ApplyRequestChanges(x, c));
  }

  /** `updateTopic` changes only the topic with that id. */
  lemma UpdateTopicTouchesOnlyTarget(s: seq<TopicEntity>, id: int, c: TopicChanges)
    ensures var r := TopicsReducer(s, UpdateTopic(id, c));
      |r| == |s| && Ids(r, TopicId) == Ids(s, TopicId)
      && (forall i :: 0 <= i < |s| && s[i].id == id ==> r[i] == ApplyTopicChanges(s[i], c))
      && (forall i :: 0 <= i < |s| && s[i].id != id ==> r[i] == s[i])
  {
    UpdateOneSpec(s, TopicId, id, (x: TopicEntity) => ApplyTopicChanges(x, c));
  }

  /** `updateList` changes only the list with that id. */
  lemma UpdateListTouchesOnlyTarget(s: seq<ListEntity>, id: int, c: ListChanges)
    ensures var r := ListsReducer(s, UpdateList(id, c));
      |r| == |s| && Ids(r, ListId) == Ids(s, ListId)
      && (forall i :: 0 <= i < |s| && s[i].id == id ==> r[i] == ApplyListChanges(s[i], c))
      && (forall i :: 0 <= i < |s| && s[i].id != id ==> r[i] == s[i])
  {
    UpdateOneSpec(s, ListId, id, (x: ListEntity) => ApplyListChanges(x, c));
  }

  /** With unique list ids, updating the list at position `k` changes that position alone. */
  lemma UpdateListAt(s: seq<ListEntity>, k: nat, c: ListChanges)
    requires k < |s| && UniqueKeys(s, ListId)
    ensures ListsReducer(s, UpdateList(s[k].id, c)) == s[k := ApplyListChanges(s[k], c)]
    ensures UniqueKeys(s[k := ApplyListChanges(s[k], c)], ListId)
  {
    UpdateListTouchesOnlyTarget(s, s[k].id, c);
    forall i | 0 <= i < |s| && i != k ensures s[i].id != s[k].id {
      assert ListId(s[i]) != ListId(s[k]);
    }
    var u := s[k := ApplyListChanges(s[k], c)];
    forall i, j | 0 <= i < j < |u| ensures ListId(u[i]) != ListId(u[j]) {
      assert ListId(u[i]) == ListId(s[i]) && ListId(u[j]) == ListId(s[j]);
    }
  }

  /** With unique topic ids, updating the topic at position `k` changes that position alone. */
  lemma UpdateTopicAt(s: seq<TopicEntity>, k: nat, c: TopicChanges)
    requires k < |s| && UniqueKeys(s, TopicId)
    ensures TopicsReducer(s, UpdateTopic(s[k].id, c)) == s[k := ApplyTopicChanges(s[k], c)]
    ensures UniqueKeys(s[k := ApplyTopicChanges(s[k], c)], TopicId)
  {
    UpdateTopicTouchesOnlyTarget(s, s[k].id, c);
    forall i | 0 <= i < |s| && i != k ensures s[i].id != s[k].id {
      assert TopicId(s[i]) != TopicId(s[k]);
    }
    var u := s[k := ApplyTopicChanges(s[k], c)];
    forall i, j | 0 <= i < j < |u| ensures TopicId(u[i]) != TopicId(u[j]) {
      assert TopicId(u[i]) == TopicId(s[i]) && TopicId(u[j]) == TopicId(s[j]);
    }
  }

  /** `removeRequest` deletes exactly the request with that id. */
  lemma RemoveRequestDeletesOnlyTarget(s: seq<RequestEntity>, id: int, now: string)
    ensures var r := RequestsReducer(s, RemoveRequest(id), now);
      forall x :: x in r <==> x in s && x.id != id
  {
    RemoveOneSpec(s, RequestId, id);
  }

  /** `removeTopic` deletes exactly the topic with that id. */
  lemma RemoveTopicDeletesOnlyTarget(s: seq<TopicEntity>, id: int)
    ensures var r := TopicsReducer(s, RemoveTopic(id));
      forall x :: x in r <==> x in s && x.id != id
  {
    RemoveOneSpec(s, TopicId, id);
  }

  /** `removeList` deletes exactly the list with that id. */
  lemma RemoveListDeletesOnlyTarget(s: seq<ListEntity>, id: int)
    ensures var r := ListsReducer(s, RemoveList(id));
      forall x :: x in r <==> x in s && x.id != id
  {
    RemoveOneSpec(s, ListId, id);
  }

  /** Only list actions (other than `AddListWithId`) change the lists. */
  predicate ChangesLists(a: Action)
  {
    a.AddList? || a.UpdateList? || a.RemoveList? || a.ClearLists?
  }

  lemma {:induction false} DispatchAllKeepsLists(st: AppState, acts: seq<Action>, now: string)
    requires forall k :: 0 <= k < |acts| ==> !ChangesLists(acts[k])
    ensures DispatchAll(st, acts, now).lists == st.lists
    decreases |acts|
  {
    if acts != [] {
      DispatchAllKeepsLists(Dispatch(st, acts[0], now), acts[1..], now);
    }
  }

  /** Dispatches `acts` one at a time. */
  method DispatchEach(st0: AppState, acts: seq<Action>, now: string) returns (st: AppState)
    ensures st == DispatchAll(st0, acts, now)
  {
    st := st0;
    var i := 0;
    while i < |acts|
      invariant 0 <= i <= |acts|
      invariant DispatchAll(st0, acts, now) == DispatchAll(st, acts[i..], now)
    {
      assert acts[i..][0] == acts[i] && acts[i..][1..] == acts[i + 1..];
      st := Dispatch(st, acts[i], now);
      i := i + 1;
    }
  }

  /** Dispatching `a + b` is dispatching `a`, then `b`. */
  lemma {:induction false} DispatchAllAppend(st: AppState, a: seq<Action>, b: seq<Action>, now: string)
    ensures DispatchAll(st, a + b, now) == DispatchAll(DispatchAll(st, a, now), b, now)
    decreases |a|
  {
    if a != [] {
      assert (a + b)[0] == a[0] && (a + b)[1..] == a[1..] + b;
      DispatchAllAppend(Dispatch(st, a[0], now), a[1..], b, now);
    } else {
      assert a + b == b;
    }
  }

  // ---------------------------------------------------------------------------
  // Dispatching one or two actions

  /** `updateList` touches the lists alone. */
  lemma DispatchUpdateList(st: AppState, id: int, c: ListChanges, now: string)
    ensures Dispatch(st, UpdateList(id, c), now) == st.(lists := ListsReducer(st.lists, UpdateList(id, c)))
  {
  }

  /** `addTopicWithId` under a free id appends the topic and touches nothing else. */
  lemma DispatchAddTopicWithId(st: AppState, id: int, name: string, now: string)
    requires !HasId(st.topics, TopicId, id)
    ensures Dispatch(st, AddTopicWithId(id, name), now) == st.(topics := st.topics + [TopicEntity(id, name, [])])
  {
    assert TopicId(TopicEntity(id, name, [])) == id;
  }

  lemma DispatchAllOne(st: AppState, a: Action, now: string)
    ensures DispatchAll(st, [a], now) == Dispatch(st, a, now)
  {
    assert [a][1..] == [];
  }

  lemma DispatchAllPair(st: AppState, a: Action, b: Action, now: string)
    ensures DispatchAll(st, [a], now) == Dispatch(st, a, now)
    ensures DispatchAll(st, [a, b], now) == Dispatch(Dispatch(st, a, now), b, now)
  {
    assert [a][1..] == [] && [a, b][1..] == [b] && [b][1..] == [];
    assert DispatchAll(Dispatch(st, a, now), [b], now) == DispatchAll(Dispatch(Dispatch(st, a, now), b, now), [], now);
  }
}
