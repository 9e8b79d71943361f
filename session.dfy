/**
 * The session pool as the prayer-session service keeps it: computed once
 * per scope change while the session has not started (the freeze), then
 * shown with live prayer counts; plus the pure selection helpers the two
 * session components share.
 */
module Session {
  import opened Wrappers
  import opened Numbers
  import opened Store
  import opened SessionUtils
  import opened Collections
  import opened Scope
  import opened Ordering
  import opened Shuffle

  // ---------------------------------------------------------------------------
  // The pool

  /**
   * The freeze signature: the ids of the scoped unanswered requests and of the
   * empty topics, sorted and joined with ','. Sorting and joining a list of
   * integers loses exactly the order, so the signature is the multiset of ids.
   */
  function PoolSignature(lid: Option<int>, st: AppState): (sig: multiset<int>)
    ensures |sig| == |ScopedRequests(st.requests, ScopedTopics(lid, st.lists, st.topics, SkipExcludedLists), true)|
                     + |EmptyTopics(ScopedTopics(lid, st.lists, st.topics, SkipExcludedLists))|
  {
    var scoped := ScopedTopics(lid, st.lists, st.topics, SkipExcludedLists);
    multiset(Ids(ScopedRequests(st.requests, scoped, true), RequestId)) + multiset(Ids(EmptyTopics(scoped), TopicId))
  }

  /**
   * The pool the service and the session component compute: in shuffle mode
   * the weighted, shuffled, deduplicated cards (`rand` stands for the draws of
   * `Math.random`), otherwise `baseItems`.
   */
  function SessionPool(lid: Option<int>, st: AppState, shuffle: bool, rand: nat -> nat): seq<SessionItem>
  {
    var scoped := ScopedTopics(lid, st.lists, st.topics, SkipExcludedLists);
    if shuffle then
      ShuffledPool(ScopedRequests(st.requests, scoped, true), CardMaker(SessionCard, scoped, st.lists),
                   TopicCards(EmptyTopics(scoped), st.lists), rand)
    else BaseItems(lid, st, SkipExcludedLists, true, SessionCard)
  }

  /**
   * In both modes, with unique store ids: the request cards of the pool show
   * exactly the scoped unanswered requests, each once, and the topic cards are
   * those of the empty scoped topics.
   */
  lemma SessionPoolCoversScope(lid: Option<int>, st: AppState, shuffle: bool, rand: nat -> nat)
    requires ValidState(st)
    ensures var scoped := ScopedTopics(lid, st.lists, st.topics, SkipExcludedLists);
      var pool := SessionPool(lid, st, shuffle, rand);
      RequestIdSet(pool) == RequestIds(ScopedRequests(st.requests, scoped, true))
      && NoDuplicateRequests(pool)
      && multiset(Filter(pool, IsTopicCard)) == multiset(TopicCards(EmptyTopics(scoped), st.lists))
  {
    var scoped := ScopedTopics(lid, st.lists, st.topics, SkipExcludedLists);
    var requests := ScopedRequests(st.requests, scoped, true);
    var topicCards := TopicCards(EmptyTopics(scoped), st.lists);
    TopicCardsAreTopics(EmptyTopics(scoped), st.lists);
    if shuffle {
      ShuffledPoolSpec(requests, CardMaker(SessionCard, scoped, st.lists), topicCards, rand);
    } else {
      BaseItemsSplit(lid, st, SkipExcludedLists, SessionCard);
      UniqueIdsKeys(st.requests, RequestId);
      FilterKeepsUniqueKeys(st.requests, RequestId, InScope(scoped, true));
      SortedPoolCoversRequests(requests, scoped, st.lists, topicCards);
    }
  }

  /** Sorted request cards followed by topic cards: one card per request, no duplicates, and the topic cards. */
  lemma SortedPoolCoversRequests(requests: seq<RequestEntity>, scoped: seq<TopicEntity>, lists: seq<ListEntity>, topicCards: seq<SessionItem>)
    requires UniqueKeys(requests, RequestId)
    requires forall c :: c in topicCards ==> c.TopicItem?
    ensures var pool := RequestCards(SortByScore(requests), SessionCard, scoped, lists) + topicCards;
      RequestIdSet(pool) == RequestIds(requests)
      && NoDuplicateRequests(pool)
      && multiset(Filter(pool, IsTopicCard)) == multiset(topicCards)
  {
    var sorted := SortByScore(requests);
    var cards := RequestCards(sorted, SessionCard, scoped, lists);
    PermutationKeepsUniqueKeys(requests, sorted, RequestId);
    assert RequestIds(sorted) == RequestIds(requests) by {
      forall r ensures r in sorted <==> r in requests {
        assert r in sorted <==> r in multiset(sorted);
      }
    }
    CardsThenTopicsIds(sorted, scoped, lists, topicCards);
    CardsThenTopicsUnique(sorted, scoped, lists, topicCards);
    FilterAppend(cards, topicCards, IsTopicCard);
    FilterNone(cards, IsTopicCard);
    FilterAll(topicCards, IsTopicCard);
  }

  lemma CardsThenTopicsIds(rs: seq<RequestEntity>, scoped: seq<TopicEntity>, lists: seq<ListEntity>, topicCards: seq<SessionItem>)
    requires forall c :: c in topicCards ==> c.TopicItem?
    ensures RequestIdSet(RequestCards(rs, SessionCard, scoped, lists) + topicCards) == RequestIds(rs)
  {
    var cards := RequestCards(rs, SessionCard, scoped, lists);
    var pool := cards + topicCards;
    forall id | id in RequestIdSet(pool) ensures id in RequestIds(rs) {
      var y :| y in pool && y.RequestItem? && y.id == id;
      var k :| 0 <= k < |pool| && pool[k] == y;
      assert forall m :: |cards| <= m < |pool| ==> pool[m] in topicCards;
      assert cards[k].id == rs[k].id && rs[k] in rs;
    }
    forall id | id in RequestIds(rs) ensures id in RequestIdSet(pool) {
      var r :| r in rs && r.id == id;
      var k :| 0 <= k < |rs| && rs[k] == r;
      assert pool[k] == cards[k] && pool[k] in pool;
    }
  }

  lemma CardsThenTopicsUnique(rs: seq<RequestEntity>, scoped: seq<TopicEntity>, lists: seq<ListEntity>, topicCards: seq<SessionItem>)
    requires UniqueKeys(rs, RequestId)
    requires forall c :: c in topicCards ==> c.TopicItem?
    ensures NoDuplicateRequests(RequestCards(rs, SessionCard, scoped, lists) + topicCards)
  {
    var cards := RequestCards(rs, SessionCard, scoped, lists);
    var pool := cards + topicCards;
    forall i, j | 0 <= i < j < |pool| && pool[i].RequestItem? && pool[j].RequestItem? ensures pool[i].id != pool[j].id {
      assert forall m :: |cards| <= m < |pool| ==> pool[m] in topicCards;
      assert pool[i].id == RequestId(rs[i]) && pool[j].id == RequestId(rs[j]);
    }
  }

  /**
   * The legacy component's pool: every topic when no list is given, answered
   * requests kept, 'List: Topic' cards in shuffle mode and topic-only cards
   * otherwise, recomputed (and reshuffled) on every change.
   */
  function LegacyItems(lid: Option<int>, st: AppState, shuffle: bool, rand: nat -> nat): seq<SessionItem>
  {
    var scoped := ScopedTopics(lid, st.lists, st.topics, EveryTopic);
    if shuffle then
      ShuffledPool(ScopedRequestsSeen(st.requests, scoped, false), CardMaker(JoinedCard, scoped, st.lists),
                   TopicCards(EmptyTopics(scoped), st.lists), rand)
    else BaseItems(lid, st, EveryTopic, false, PlainCard)
  }

  /**
   * The legacy pool keeps answered requests: its request cards show exactly the
   * scoped requests, answered or not, whatever the ids.
   */
  lemma LegacyItemsKeepAnswered(lid: Option<int>, st: AppState, rand: nat -> nat)
    ensures var scoped := ScopedTopics(lid, st.lists, st.topics, EveryTopic);
      RequestIdSet(LegacyItems(lid, st, true, rand)) == RequestIds(ScopedRequests(st.requests, scoped, false))
  {
    var scoped := ScopedTopics(lid, st.lists, st.topics, EveryTopic);
    SeenFilterKeepsBelonging(st.requests, scoped);
    TopicCardsAreTopics(EmptyTopics(scoped), st.lists);
    ShuffledPoolSpec(ScopedRequests(st.requests, scoped, false), CardMaker(JoinedCard, scoped, st.lists),
                     TopicCards(EmptyTopics(scoped), st.lists), rand);
  }

  // ---------------------------------------------------------------------------
  // Live prayer counts

  /** One card of `items`: a request card takes the store's current prayer count when the request is found. */
  function Refresh(item: SessionItem, requests: seq<RequestEntity>): (r: SessionItem)
    ensures r.RequestItem? == item.RequestItem? && r.id == item.id
    ensures item.TopicItem? || FindById(requests, RequestId, item.id).None? ==> r == item
    ensures item.RequestItem? && FindById(requests, RequestId, item.id).Some? ==>
      r == item.(prayerCount := Some(FindById(requests, RequestId, item.id).value.prayerCount))
  {
    if item.RequestItem? then
      match FindById(requests, RequestId, item.id)
      case Some(current) =>
        if Some(current.prayerCount) != item.prayerCount then item.(prayerCount := Some(current.prayerCount)) else item
      case None => item
    else item
  }

  /** `items`: the frozen pool with live prayer counts; same length, same cards in the same order. */
  function RefreshCounts(items: seq<SessionItem>, requests: seq<RequestEntity>): (r: seq<SessionItem>)
    ensures |r| == |items|
    ensures forall i :: 0 <= i < |items| ==> r[i] == Refresh(items[i], requests)
  {
    if items == [] then [] else [Refresh(items[0], requests)] + RefreshCounts(items[1..], requests)
  }

  /** Refreshing twice is refreshing once. */
  lemma RefreshIdempotent(items: seq<SessionItem>, requests: seq<RequestEntity>)
    ensures RefreshCounts(RefreshCounts(items, requests), requests) == RefreshCounts(items, requests)
  {
  }

  // ---------------------------------------------------------------------------
  // Selection

  /** `requests.filter(r => r.answeredDate)`. */
  function AnsweredRequests(requests: seq<RequestEntity>): (r: seq<RequestEntity>)
    ensures forall x :: x in r <==> x in requests && IsAnswered(x)
  {
    Filter(requests, IsAnswered)
  }

  /** The card of an answered request in the answered prefix; its owner topic is looked up among all topics. */
  function AnsweredCard(r: RequestEntity, topics: seq<TopicEntity>, lists: seq<ListEntity>): (item: SessionItem)
    ensures item.RequestItem? && item.id == r.id && item.isAnswered == Some(true)
    ensures item.answeredDate.Some? <==> Truthy(r.answeredDate)
    ensures item.answerDescription == r.answerDescription
  {
    var card := RequestCard(r, SessionCard, topics, lists);
    RequestItem(card.id, card.description, card.listName, card.topicName, card.createdDate, card.prayerCount, card.priority,
                Some(true), if Truthy(r.answeredDate) then r.answeredDate else None, r.answerDescription)
  }

  function AnsweredCards(rs: seq<RequestEntity>, topics: seq<TopicEntity>, lists: seq<ListEntity>): (items: seq<SessionItem>)
    ensures |items| == |rs|
    ensures forall i :: 0 <= i < |rs| ==> items[i] == AnsweredCard(rs[i], topics, lists)
  {
    if rs == [] then [] else [AnsweredCard(rs[0], topics, lists)] + AnsweredCards(rs[1..], topics, lists)
  }

  /**
   * The answered prefix: when `answeredValue > 0`, the answered requests in a
   * random order (the draws `rand`), cut to `answeredValue`.
   */
  function AnsweredPrefix(answered: seq<RequestEntity>, answeredValue: int, rand: nat -> nat, topics: seq<TopicEntity>, lists: seq<ListEntity>): seq<SessionItem>
  {
    if answeredValue > 0 then AnsweredCards(Shuffled(answered, rand)[..Min(answeredValue, |answered|)], topics, lists)
    else []
  }

  /** The regular part: nothing for an empty pool, everything when the count covers it, else the first `max(1, count)`. */
  function RegularSelection(all: seq<SessionItem>, count: int): (r: seq<SessionItem>)
    ensures r <= all
    ensures |all| == 0 ==> r == []
    ensures |all| > 0 && count >= |all| ==> r == all
    ensures |all| > 0 && count < |all| ==> |r| == Max(1, count)
    ensures |all| > 0 ==> 1 <= |r|
  {
    if |all| == 0 then []
    else if count >= |all| then all
    else all[..Max(1, count)]
  }

  /** `selectedItems` of the session component. */
  function SelectedItems(all: seq<SessionItem>, count: int, answeredValue: int, answered: seq<RequestEntity>,
                         rand: nat -> nat, topics: seq<TopicEntity>, lists: seq<ListEntity>): seq<SessionItem>
  {
    if |all| == 0 then []
    else AnsweredPrefix(answered, answeredValue, rand, topics, lists) + RegularSelection(all, count)
  }

  /**
   * An empty pool selects nothing. Otherwise the selection is
   * `min(answeredValue, #answered)` answered cards (none when `answeredValue <= 0`),
   * each of a distinct answered request, followed by a non-empty prefix of the pool.
   */
  lemma SelectedItemsSpec(all: seq<SessionItem>, count: int, answeredValue: int, answered: seq<RequestEntity>,
                          rand: nat -> nat, topics: seq<TopicEntity>, lists: seq<ListEntity>)
    ensures var sel := SelectedItems(all, count, answeredValue, answered, rand, topics, lists);
      var k := if answeredValue > 0 then Min(answeredValue, |answered|) else 0;
      (|all| == 0 ==> sel == [])
      && (|all| > 0 ==>
            k <= |sel|
            && sel[k..] == RegularSelection(all, count)
            && (forall i :: 0 <= i < k ==> sel[i].RequestItem? && sel[i].isAnswered == Some(true)
                                            && exists r :: r in answered && r.id == sel[i].id))
  {
    if |all| > 0 && answeredValue > 0 {
      var k := Min(answeredValue, |answered|);
      var sh := Shuffled(answered, rand);
      ShufflePermutes(answered, rand);
      var prefix := AnsweredPrefix(answered, answeredValue, rand, topics, lists);
      var sel := prefix + RegularSelection(all, count);
      forall i | 0 <= i < k ensures sel[i].RequestItem? && sel[i].isAnswered == Some(true) && exists r :: r in answered && r.id == sel[i].id {
        assert sel[i] == AnsweredCard(sh[..k][i], topics, lists);
        assert sh[i] in multiset(answered);
      }
    }
  }

  /** The answered prefix draws each answered request at most once when the store ids are unique. */
  lemma AnsweredPrefixDistinct(answered: seq<RequestEntity>, answeredValue: int, rand: nat -> nat, topics: seq<TopicEntity>, lists: seq<ListEntity>)
    requires UniqueKeys(answered, RequestId)
    ensures NoDuplicateRequests(AnsweredPrefix(answered, answeredValue, rand, topics, lists))
  {
    if answeredValue > 0 {
      var sh := Shuffled(answered, rand);
      ShufflePermutes(answered, rand);
      PermutationKeepsUniqueKeys(answered, sh, RequestId);
      var k := Min(answeredValue, |answered|);
      var p := AnsweredPrefix(answered, answeredValue, rand, topics, lists);
      forall i, j | 0 <= i < j < |p| && p[i].RequestItem? && p[j].RequestItem? ensures p[i].id != p[j].id {
        assert p[i].id == RequestId(sh[i]) && p[j].id == RequestId(sh[j]);
      }
    }
  }

  /** `syncEffect`: no items forces 0; a count outside `[1, max]` is reset to `max`; otherwise it is kept. */
  function SyncedCount(max: int, cur: int): (r: int)
    ensures max <= 0 ==> r == 0
    ensures max > 0 ==> 1 <= r <= max
    ensures max > 0 && 1 <= cur <= max ==> r == cur
    ensures max > 0 && !(1 <= cur <= max) ==> r == max
  {
    if max <= 0 then 0
    else if cur < 1 || cur > max then max
    else cur
  }

  /** Syncing is stable: a synced count stays as it is. */
  lemma SyncedCountStable(max: int, cur: int)
    ensures SyncedCount(max, SyncedCount(max, cur)) == SyncedCount(max, cur)
  {
  }

  /** `onSelectCountChange`: `max(1, min(v, max))`, which is 1 even when there are no items. */
  function SelectCountAfterChange(v: int, max: int): (r: int)
    ensures r >= 1
    ensures max >= 1 ==> r <= max
    ensures 1 <= v <= max ==> r == v
    ensures max < 1 ==> r == 1
  {
    Max(1, Min(v, max))
  }

  /** A slider count set while there are no items is taken back to 0 by the next sync. */
  lemma EmptyPoolCountSyncsToZero(v: int)
    ensures SelectCountAfterChange(v, 0) == 1 && SyncedCount(0, SelectCountAfterChange(v, 0)) == 0
  {
  }

  // ---------------------------------------------------------------------------
  // The service

  /** The recomputation inside `updateShuffledEffect`: the weighted Fisher–Yates pass or `baseItems`. */
  method ComputePool(lid: Option<int>, st: AppState, shuffle: bool, rand: nat -> nat) returns (pool: seq<SessionItem>)
    ensures pool == SessionPool(lid, st, shuffle, rand)
  {
    var scoped := ScopedTopics(lid, st.lists, st.topics, SkipExcludedLists);
    if shuffle {
      pool := ShufflePool(ScopedRequests(st.requests, scoped, true), CardMaker(SessionCard, scoped, st.lists),
                          EmptyTopics(scoped), st.lists, rand);
    } else {
      pool := BaseItems(lid, st, SkipExcludedLists, true, SessionCard);
    }
  }

  /**
   * The decision of `updateShuffledEffect` on values: the new signature,
   * whether the pool is recomputed (the signature or the shuffle flag changed
   * and the session has not started), and the recomputed pool.
   */
  method PoolEffect(lid: Option<int>, st: AppState, shuffle: bool, rand: nat -> nat,
                    lastIds: multiset<int>, lastShuffle: bool, started: bool)
    returns (recompute: bool, ids: multiset<int>, pool: seq<SessionItem>)
    ensures ids == PoolSignature(lid, st)
    ensures recompute <==> (lastIds != ids || lastShuffle != shuffle) && !started
    ensures recompute ==> pool == SessionPool(lid, st, shuffle, rand)
  {
    ids := PoolSignature(lid, st);
    recompute := (lastIds != ids || lastShuffle != shuffle) && !started;
    pool := [];
    if recompute {
      pool := ComputePool(lid, st, shuffle, rand);
    }
  }

  /** `PrayerSessionService`: the scope inputs, the freeze state and the frozen pool. */
  class PrayerSessionService {
    var listId: Option<int>
    var sessionStarted: bool
    var shuffledItems: seq<SessionItem>
    var lastIds: multiset<int>
    var lastShuffle: bool

    constructor ()
      ensures listId == None && !sessionStarted && shuffledItems == [] && lastIds == multiset{} && !lastShuffle
    {
      listId := None;
      sessionStarted := false;
      shuffledItems := [];
      lastIds := multiset{};
      lastShuffle := false;
    }

    method SetListId(lid: Option<int>)
      modifies this`listId
      ensures listId == lid
    {
      listId := lid;
    }

    method SetSessionStarted(started: bool)
      modifies this`sessionStarted
      ensures sessionStarted == started
    {
      sessionStarted := started;
    }

    /**
     * `updateShuffledEffect`, run with the current store `st`, the shuffle
     * setting and the random draws `rand`. The pool is replaced only when the
     * signature or the shuffle flag changed and the session has not started.
     */
    method UpdateShuffled(st: AppState, shuffle: bool, rand: nat -> nat)
      modifies this`lastIds, this`lastShuffle, this`shuffledItems
      ensures old((lastIds != PoolSignature(listId, st) || lastShuffle != shuffle) && !sessionStarted) ==>
        lastIds == old(PoolSignature(listId, st)) && lastShuffle == shuffle
        && shuffledItems == old(SessionPool(listId, st, shuffle, rand))
      ensures !old((lastIds != PoolSignature(listId, st) || lastShuffle != shuffle) && !sessionStarted) ==>
        unchanged(this`lastIds, this`lastShuffle, this`shuffledItems)
    {
      var recompute, ids, pool := PoolEffect(listId, st, shuffle, rand, lastIds, lastShuffle, sessionStarted);
      if recompute {
        Freeze(ids, shuffle, pool);
      }
    }

    /** The assignments of a recomputation. */
    method Freeze(ids: multiset<int>, sh: bool, pool: seq<SessionItem>)
      modifies this`lastIds, this`lastShuffle, this`shuffledItems
      ensures lastIds == ids && lastShuffle == sh && shuffledItems == pool
    {
      lastIds, lastShuffle, shuffledItems := ids, sh, pool;
    }

    /** `items`: the frozen pool with the store's current prayer counts. */
    function Items(requests: seq<RequestEntity>): (r: seq<SessionItem>)
      reads this
      ensures |r| == |shuffledItems|
    {
      RefreshCounts(shuffledItems, requests)
    }

    function MaxSelectable(requests: seq<RequestEntity>): (n: nat)
      reads this
      ensures n == |shuffledItems|
    {
      |Items(requests)|
    }

    /** `getSafeMaxSelectable`: `max(1, length)`. */
    function SafeMaxSelectable(requests: seq<RequestEntity>): (n: int)
      reads this
      ensures n >= 1 && n >= |shuffledItems|
      ensures |shuffledItems| > 0 ==> n == |shuffledItems|
    {
      Max(1, MaxSelectable(requests))
    }

    function MaxAnswered(requests: seq<RequestEntity>): (n: nat)
      reads this
      ensures n == |AnsweredRequests(requests)|
    {
      |AnsweredRequests(requests)|
    }
  }
}
