/**
 * Which topics and requests a prayer session covers, and how a store entity
 * becomes a session card. Shared by the session service, the session
 * component and the legacy pray component.
 */
module Scope {
  import opened Wrappers
  import opened Store
  import opened SessionUtils
  import opened Collections
  import Text

  /** `lists.find(l => l.id === id)`. */
  function ListById(lists: seq<ListEntity>, id: int): (r: Option<ListEntity>)
    ensures r.Some? ==> r.value in lists && r.value.id == id
    ensures r.None? ==> forall l :: l in lists ==> l.id != id
  {
    if lists == [] then None else if lists[0].id == id then Some(lists[0]) else ListById(lists[1..], id)
  }

  /** `lists.find(l => l.topicIds.includes(topicId))`: the first list holding the topic. */
  function ListContaining(lists: seq<ListEntity>, topicId: int): (r: Option<ListEntity>)
    ensures r.Some? ==> r.value in lists && topicId in r.value.topicIds
    ensures r.None? ==> forall l :: l in lists ==> topicId !in l.topicIds
  {
    if lists == [] then None
    else if topicId in lists[0].topicIds then Some(lists[0])
    else ListContaining(lists[1..], topicId)
  }

  /** `topics.find(t => t.requestIds.includes(requestId))`: the first topic holding the request. */
  function TopicContaining(topics: seq<TopicEntity>, requestId: int): (r: Option<TopicEntity>)
    ensures r.Some? ==> r.value in topics && requestId in r.value.requestIds
    ensures r.None? ==> forall t :: t in topics ==> requestId !in t.requestIds
  {
    if topics == [] then None
    else if requestId in topics[0].requestIds then Some(topics[0])
    else TopicContaining(topics[1..], requestId)
  }

  /** How a session without a list id is scoped. */
  datatype AllListsRule =
    | SkipExcludedLists   // the session service and session component honour `excludeFromAll`
    | EveryTopic          // the legacy pray component takes every topic

  /** A list id is used only when it is truthy (present and non-zero). */
  predicate HasListId(lid: Option<int>) { lid.Some? && lid.value != 0 }

  /** A topic counts in the all-lists session when the first list holding it exists and is not excluded. */
  predicate InAllListsScope(lists: seq<ListEntity>, t: TopicEntity)
  {
    var home := ListContaining(lists, t.id);
    home.Some? && !(exists l :: l in lists && l.excludeFromAll && l.id == home.value.id)
  }

  /** The topics of the session, in store order. */
  function ScopedTopics(lid: Option<int>, lists: seq<ListEntity>, topics: seq<TopicEntity>, rule: AllListsRule): (r: seq<TopicEntity>)
  {
    if HasListId(lid) then
      var list := ListById(lists, lid.value);
      var ids := if list.Some? then list.value.topicIds else [];
      Filter(topics, (t: TopicEntity) => t.id in ids)
    else if rule == SkipExcludedLists then
      Filter(topics, (t: TopicEntity) => InAllListsScope(lists, t))
    else topics
  }

  /** With a list id, the scope is exactly the store topics that list names; an unknown list gives nothing. */
  lemma ScopeOfList(lid: Option<int>, lists: seq<ListEntity>, topics: seq<TopicEntity>, rule: AllListsRule)
    requires HasListId(lid)
    ensures ListById(lists, lid.value).None? ==> ScopedTopics(lid, lists, topics, rule) == []
    ensures forall t :: t in ScopedTopics(lid, lists, topics, rule) <==>
      t in topics && ListById(lists, lid.value).Some? && t.id in ListById(lists, lid.value).value.topicIds
  {
    if ListById(lists, lid.value).None? {
      var empty: seq<int> := [];
      FilterNone(topics, (t: TopicEntity) => t.id in empty);
    }
  }

  /** Without a list id, the session service keeps a topic iff its first list exists and is not excluded. */
  lemma ScopeOfAllLists(lid: Option<int>, lists: seq<ListEntity>, topics: seq<TopicEntity>)
    requires !HasListId(lid)
    ensures forall t :: t in ScopedTopics(lid, lists, topics, SkipExcludedLists) <==>
      t in topics && ListContaining(lists, t.id).Some?
      && !(exists l :: l in lists && l.excludeFromAll && l.id == ListContaining(lists, t.id).value.id)
    ensures forall t :: t in topics && (forall l :: l in lists ==> t.id !in l.topicIds) ==>
      t !in ScopedTopics(lid, lists, topics, SkipExcludedLists)
  {
  }

  /** The legacy component has no all-lists filter: without a list id every topic is in scope. */
  lemma LegacyScopeIsEveryTopic(lid: Option<int>, lists: seq<ListEntity>, topics: seq<TopicEntity>)
    requires !HasListId(lid)
    ensures ScopedTopics(lid, lists, topics, EveryTopic) == topics
  {
  }

  /** Some scoped topic lists the request. */
  predicate BelongsTo(scoped: seq<TopicEntity>, requestId: int)
  {
    exists t :: t in scoped && requestId in t.requestIds
  }

  /** `!!r.answeredDate`. */
  predicate IsAnswered(r: RequestEntity) { Truthy(r.answeredDate) }

  /** Ids of the requests in `rs` that belong to the scope. */
  function SeenIds(rs: seq<RequestEntity>, scoped: seq<TopicEntity>): (seen: set<int>)
    ensures forall id :: id in seen <==> BelongsTo(scoped, id) && exists r :: r in rs && r.id == id
  {
    if rs == [] then {}
    else
      var last := rs[|rs| - 1];
      var p := SeenIds(rs[..|rs| - 1], scoped);
      assert forall r :: r in rs <==> r in rs[..|rs| - 1] || r == last;
      if BelongsTo(scoped, last.id) then p + {last.id} else p
  }

  /**
   * The filter with the `requestIdSet` shortcut of the session component and
   * the legacy component: a request whose id was already seen in scope is kept
   * without further test; otherwise it is kept when it belongs (and, when
   * `dropAnswered`, is not answered).
   */
  function ScopedRequestsSeen(rs: seq<RequestEntity>, scoped: seq<TopicEntity>, dropAnswered: bool): (r: seq<RequestEntity>)
  {
    if rs == [] then []
    else
      var p := rs[..|rs| - 1];
      var last := rs[|rs| - 1];
      var keep := last.id in SeenIds(p, scoped) || (BelongsTo(scoped, last.id) && !(dropAnswered && IsAnswered(last)));
      ScopedRequestsSeen(p, scoped, dropAnswered) + (if keep then [last] else [])
  }

  /** The plain filter: requests that belong to the scope and, when `dropAnswered`, are unanswered. */
  function ScopedRequests(rs: seq<RequestEntity>, scoped: seq<TopicEntity>, dropAnswered: bool): (r: seq<RequestEntity>)
  {
    Filter(rs, InScope(scoped, dropAnswered))
  }

  function InScope(scoped: seq<TopicEntity>, dropAnswered: bool): RequestEntity -> bool
  {
    (x: RequestEntity) => BelongsTo(scoped, x.id) && !(dropAnswered && IsAnswered(x))
  }

  /**
   * With unique request ids (as the store keeps them) the `requestIdSet`
   * shortcut never fires, so the seen-set filter is the plain filter.
   */
  lemma {:induction false} SeenFilterIsPlainFilter(rs: seq<RequestEntity>, scoped: seq<TopicEntity>, dropAnswered: bool)
    requires UniqueKeys(rs, RequestId)
    ensures ScopedRequestsSeen(rs, scoped, dropAnswered) == ScopedRequests(rs, scoped, dropAnswered)
    decreases |rs|
  {
    if rs != [] {
      var p := rs[..|rs| - 1];
      var last := rs[|rs| - 1];
      LastKeyIsNew(rs);
      SeenFilterIsPlainFilter(p, scoped, dropAnswered);
      assert last.id !in SeenIds(p, scoped);
      assert rs == p + [last];
      FilterSnoc(p, last, InScope(scoped, dropAnswered));
    }
  }

  /** With unique ids, the prefix keeps unique ids and the last id occurs nowhere before. */
  lemma LastKeyIsNew(rs: seq<RequestEntity>)
    requires rs != [] && UniqueKeys(rs, RequestId)
    ensures UniqueKeys(rs[..|rs| - 1], RequestId)
    ensures forall r :: r in rs[..|rs| - 1] ==> r.id != rs[|rs| - 1].id
  {
    var p := rs[..|rs| - 1];
    forall r | r in p ensures r.id != rs[|rs| - 1].id {
      var i :| 0 <= i < |p| && p[i] == r;
      assert RequestId(rs[i]) != RequestId(rs[|rs| - 1]);
    }
  }

  /** Without the answered filter the shortcut changes nothing, whatever the ids. */
  lemma {:induction false} SeenFilterKeepsBelonging(rs: seq<RequestEntity>, scoped: seq<TopicEntity>)
    ensures ScopedRequestsSeen(rs, scoped, false) == ScopedRequests(rs, scoped, false)
    decreases |rs|
  {
    if rs != [] {
      var p := rs[..|rs| - 1];
      var last := rs[|rs| - 1];
      SeenFilterKeepsBelonging(p, scoped);
      assert rs == p + [last];
      FilterSnoc(p, last, InScope(scoped, false));
    }
  }

  /** Scoped topics that list no requests; they are prayed for as topic cards. */
  function EmptyTopics(scoped: seq<TopicEntity>): (r: seq<TopicEntity>)
    ensures forall t :: t in r <==> t in scoped && t.requestIds == []
  {
    Filter(scoped, (t: TopicEntity) => |t.requestIds| == 0)
  }

  /** The card shapes the three call sites build for a request. */
  datatype CardShape =
    | SessionCard     // list name, topic name, created date, priority, prayer count
    | JoinedCard      // legacy shuffle: 'List: Topic' in the topic name
    | PlainCard       // legacy sorted: topic name only

  /** The card for a scoped request; owner topic from the scope, owner list from all lists. */
  function RequestCard(r: RequestEntity, shape: CardShape, scoped: seq<TopicEntity>, lists: seq<ListEntity>): (item: SessionItem)
    ensures item.RequestItem? && item.id == r.id && item.description == r.description
    ensures item.priority == Some(r.priority) && item.prayerCount == Some(r.prayerCount)
    ensures item.isAnswered.None?
  {
    var ownerTopic := TopicContaining(scoped, r.id);
    var ownerList := if ownerTopic.Some? then ListContaining(lists, ownerTopic.value.id) else None;
    var topicName := if ownerTopic.Some? then Some(ownerTopic.value.name) else None;
    var listName := if ownerList.Some? then Some(ownerList.value.name) else None;
    match shape
    case SessionCard =>
      RequestItem(r.id, r.description, listName, topicName, Some(r.createdDate), Some(r.prayerCount), Some(r.priority), None, None, None)
    case JoinedCard =>
      RequestItem(r.id, r.description, None,
        Some(Text.JoinPresent(GetOr(listName, ""), GetOr(topicName, ""), ": ")),
        None, Some(r.prayerCount), Some(r.priority), None, None, None)
    case PlainCard =>
      RequestItem(r.id, r.description, None, topicName, None, Some(r.prayerCount), Some(r.priority), None, None, None)
  }

  /** The card for an empty topic, named after the first list holding it. */
  function TopicCard(t: TopicEntity, lists: seq<ListEntity>): (item: SessionItem)
    ensures item.TopicItem? && item.id == t.id && item.name == t.name
  {
    var ownerList := ListContaining(lists, t.id);
    TopicItem(t.id, t.name, if ownerList.Some? then Some(ownerList.value.name) else None)
  }

  /** The card builder of one call site, as a function value. */
  function CardMaker(shape: CardShape, scoped: seq<TopicEntity>, lists: seq<ListEntity>): (card: RequestEntity -> SessionItem)
    ensures forall r :: card(r).RequestItem? && card(r).id == r.id
  {
    (r: RequestEntity) => RequestCard(r, shape, scoped, lists)
  }

  function RequestCards(rs: seq<RequestEntity>, shape: CardShape, scoped: seq<TopicEntity>, lists: seq<ListEntity>): (items: seq<SessionItem>)
    ensures |items| == |rs|
    ensures forall i :: 0 <= i < |rs| ==> items[i] == RequestCard(rs[i], shape, scoped, lists)
  {
    if rs == [] then [] else [RequestCard(rs[0], shape, scoped, lists)] + RequestCards(rs[1..], shape, scoped, lists)
  }

  function TopicCards(ts: seq<TopicEntity>, lists: seq<ListEntity>): (items: seq<SessionItem>)
    ensures |items| == |ts|
    ensures forall i :: 0 <= i < |ts| ==> items[i] == TopicCard(ts[i], lists)
  {
    if ts == [] then [] else [TopicCard(ts[0], lists)] + TopicCards(ts[1..], lists)
  }
}
