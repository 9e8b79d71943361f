/**
 * The non-shuffled session pool (`baseItems`): scoped requests in a stable
 * sort by descending score, then one card per empty scoped topic.
 */
module Ordering {
  import opened Wrappers
  import opened Numbers
  import opened Store
  import opened SessionUtils
  import opened Collections
  import opened Scope

  /** Scores never increase along the sequence. */
  predicate SortedByScore(s: seq<RequestEntity>)
  {
    forall i, j :: 0 <= i < j < |s| ==> RequestScore(s[i]) >= RequestScore(s[j])
  }

  /** Places `x` before the first element whose score is not above its own. */
  function InsertByScore(x: RequestEntity, s: seq<RequestEntity>): (r: seq<RequestEntity>)
    ensures multiset(r) == multiset(s) + multiset{x}
    ensures |r| == |s| + 1
  {
    if s == [] || RequestScore(s[0]) <= RequestScore(x) then [x] + s
    else
      assert s == [s[0]] + s[1..];
      [s[0]] + InsertByScore(x, s[1..])
  }

  /** `scored.sort((a, b) => b.score - a.score)`, a stable sort. */
  function SortByScore(s: seq<RequestEntity>): (r: seq<RequestEntity>)
    ensures multiset(r) == multiset(s)
    ensures |r| == |s|
  {
    if s == [] then []
    else
      assert s == [s[0]] + s[1..];
      InsertByScore(s[0], SortByScore(s[1..]))
  }

  lemma {:induction false} InsertKeepsSorted(x: RequestEntity, s: seq<RequestEntity>)
    requires SortedByScore(s)
    ensures SortedByScore(InsertByScore(x, s))
    decreases |s|
  {
    if !(s == [] || RequestScore(s[0]) <= RequestScore(x)) {
      InsertKeepsSorted(x, s[1..]);
      var r := InsertByScore(x, s);
      var t := InsertByScore(x, s[1..]);
      assert r == [s[0]] + t;
      forall k | 0 <= k < |t| ensures RequestScore(s[0]) >= RequestScore(t[k]) {
        assert t[k] in multiset(t);
        assert t[k] == x || t[k] in multiset(s[1..]);
      }
    }
  }

  /** The sort orders by non-increasing score. */
  lemma {:induction false} SortIsSorted(s: seq<RequestEntity>)
    ensures SortedByScore(SortByScore(s))
    decreases |s|
  {
    if s != [] {
      SortIsSorted(s[1..]);
      InsertKeepsSorted(s[0], SortByScore(s[1..]));
    }
  }

  /** The elements of `s` with score `k`, in order. */
  function WithScore(s: seq<RequestEntity>, k: int): seq<RequestEntity>
  {
    if s == [] then [] else (if RequestScore(s[0]) == k then [s[0]] else []) + WithScore(s[1..], k)
  }

  lemma {:induction false} InsertStable(x: RequestEntity, s: seq<RequestEntity>, k: int)
    requires SortedByScore(s)
    ensures WithScore(InsertByScore(x, s), k) == (if RequestScore(x) == k then [x] else []) + WithScore(s, k)
    decreases |s|
  {
    if s == [] || RequestScore(s[0]) <= RequestScore(x) {
      assert ([x] + s)[1..] == s;
    } else {
      InsertStable(x, s[1..], k);
      assert ([s[0]] + InsertByScore(x, s[1..]))[1..] == InsertByScore(x, s[1..]);
      if RequestScore(x) == k {
        WithScoreAbove(s, k);
      }
    }
  }

  /** A head scoring above `k` is not among the score-`k` elements. */
  lemma WithScoreAbove(s: seq<RequestEntity>, k: int)
    requires s != [] && RequestScore(s[0]) > k
    ensures WithScore(s, k) == WithScore(s[1..], k)
  {
  }

  /** Stability: requests of equal score keep their store order. */
  lemma {:induction false} SortIsStable(s: seq<RequestEntity>, k: int)
    ensures WithScore(SortByScore(s), k) == WithScore(s, k)
    decreases |s|
  {
    if s != [] {
      SortIsStable(s[1..], k);
      SortIsSorted(s[1..]);
      InsertStable(s[0], SortByScore(s[1..]), k);
    }
  }

  /** `baseItems`: the ordered request cards followed by the empty-topic cards. */
  function BaseItems(lid: Option<int>, st: AppState, rule: AllListsRule, dropAnswered: bool, shape: CardShape): (items: seq<SessionItem>)
  {
    var scoped := ScopedTopics(lid, st.lists, st.topics, rule);
    var requests := ScopedRequestsSeen(st.requests, scoped, dropAnswered);
    RequestCards(SortByScore(requests), shape, scoped, st.lists) + TopicCards(EmptyTopics(scoped), st.lists)
  }

  /** The score of a request card, from the priority and prayer count it carries. */
  function CardScore(item: SessionItem): int
    requires item.RequestItem?
  {
    NumberOr(item.priority, DefaultPriority) * 10 - NumberOr(item.prayerCount, 0)
  }

  /** With unique store ids, the pool is the sorted plain-filtered requests' cards, then the empty topics' cards. */
  lemma BaseItemsSplit(lid: Option<int>, st: AppState, rule: AllListsRule, shape: CardShape)
    requires ValidState(st)
    ensures var scoped := ScopedTopics(lid, st.lists, st.topics, rule);
      BaseItems(lid, st, rule, true, shape)
      == RequestCards(SortByScore(ScopedRequests(st.requests, scoped, true)), shape, scoped, st.lists)
         + TopicCards(EmptyTopics(scoped), st.lists)
  {
    UniqueIdsKeys(st.requests, RequestId);
    SeenFilterIsPlainFilter(st.requests, ScopedTopics(lid, st.lists, st.topics, rule), true);
  }

  /** Cards of sorted requests have non-increasing card scores. */
  lemma SortedCards(rs: seq<RequestEntity>, shape: CardShape, scoped: seq<TopicEntity>, lists: seq<ListEntity>)
    requires SortedByScore(rs)
    ensures var cards := RequestCards(rs, shape, scoped, lists);
      forall i, j :: 0 <= i < j < |cards| ==> CardScore(cards[i]) >= CardScore(cards[j])
  {
    var cards := RequestCards(rs, shape, scoped, lists);
    forall i, j | 0 <= i < j < |cards| ensures CardScore(cards[i]) >= CardScore(cards[j]) {
      assert CardScore(cards[i]) == RequestScore(rs[i]) && CardScore(cards[j]) == RequestScore(rs[j]);
    }
  }

  /** The request ids carried by the cards are those of the requests. */
  lemma CardIds(rs: seq<RequestEntity>, shape: CardShape, scoped: seq<TopicEntity>, lists: seq<ListEntity>)
    ensures var cards := RequestCards(rs, shape, scoped, lists);
      (set i | 0 <= i < |cards| :: cards[i].id) == (set r | r in rs :: r.id)
  {
    var cards := RequestCards(rs, shape, scoped, lists);
    forall r | r in rs ensures r.id in (set i | 0 <= i < |cards| :: cards[i].id) {
      var i :| 0 <= i < |rs| && rs[i] == r;
      assert cards[i].id == r.id;
    }
  }

  /**
   * `items` starts with one card per request of `requests` (by id), ordered by
   * non-increasing score, and continues with cards taken from `tail`.
   */
  predicate OrderedPool(items: seq<SessionItem>, requests: seq<RequestEntity>, tail: seq<SessionItem>)
  {
    var n := |requests|;
    n <= |items|
    && (forall i :: 0 <= i < n ==> items[i].RequestItem?)
    && (forall i, j :: 0 <= i < j < n ==> CardScore(items[i]) >= CardScore(items[j]))
    && (set i | 0 <= i < n :: items[i].id) == (set r | r in requests :: r.id)
    && (forall i :: n <= i < |items| ==> items[i] in tail)
  }

  lemma ConcatIsOrderedPool(cards: seq<SessionItem>, requests: seq<RequestEntity>, tail: seq<SessionItem>)
    requires |cards| == |requests|
    requires forall i :: 0 <= i < |cards| ==> cards[i].RequestItem?
    requires forall i, j :: 0 <= i < j < |cards| ==> CardScore(cards[i]) >= CardScore(cards[j])
    requires (set i | 0 <= i < |cards| :: cards[i].id) == (set r | r in requests :: r.id)
    ensures OrderedPool(cards + tail, requests, tail)
  {
    var items := cards + tail;
    assert forall i :: 0 <= i < |cards| ==> items[i] == cards[i];
    assert (set i | 0 <= i < |requests| :: items[i].id) == (set i | 0 <= i < |cards| :: cards[i].id);
    forall i | |requests| <= i < |items| ensures items[i] in tail {
      assert items[i] == tail[i - |requests|];
    }
  }

  /** Sorting keeps the set of request ids. */
  lemma SortKeepsIds(requests: seq<RequestEntity>)
    ensures (set r | r in SortByScore(requests) :: r.id) == (set r | r in requests :: r.id)
  {
    var sorted := SortByScore(requests);
    forall r ensures r in sorted <==> r in requests {
      assert r in sorted <==> r in multiset(sorted);
    }
  }

  lemma SortedCardsThenTail(requests: seq<RequestEntity>, shape: CardShape, scoped: seq<TopicEntity>, lists: seq<ListEntity>, tail: seq<SessionItem>)
    ensures OrderedPool(RequestCards(SortByScore(requests), shape, scoped, lists) + tail, requests, tail)
  {
    var sorted := SortByScore(requests);
    var cards := RequestCards(sorted, shape, scoped, lists);
    SortIsSorted(requests);
    SortedCards(sorted, shape, scoped, lists);
    CardIds(sorted, shape, scoped, lists);
    SortKeepsIds(requests);
    ConcatIsOrderedPool(cards, requests, tail);
  }

  /**
   * The session pool without shuffle (store ids unique): first one card per
   * scoped, unanswered request, ordered by non-increasing score; then one card
   * per scoped topic without requests. A topic that has requests never appears.
   */
  lemma BaseItemsShape(lid: Option<int>, st: AppState, rule: AllListsRule, shape: CardShape)
    requires ValidState(st)
    ensures var scoped := ScopedTopics(lid, st.lists, st.topics, rule);
      OrderedPool(BaseItems(lid, st, rule, true, shape), ScopedRequests(st.requests, scoped, true),
                  TopicCards(EmptyTopics(scoped), st.lists))
  {
    var scoped := ScopedTopics(lid, st.lists, st.topics, rule);
    BaseItemsSplit(lid, st, rule, shape);
    SortedCardsThenTail(ScopedRequests(st.requests, scoped, true), shape, scoped, st.lists, TopicCards(EmptyTopics(scoped), st.lists));
  }

  /** Cards built from topics are topic cards of those topics. */
  lemma TopicCardsAreTopics(ts: seq<TopicEntity>, lists: seq<ListEntity>)
    ensures forall c :: c in TopicCards(ts, lists) ==> c.TopicItem? && exists t :: t in ts && t.id == c.id
  {
    var cards := TopicCards(ts, lists);
    forall c | c in cards ensures c.TopicItem? && exists t :: t in ts && t.id == c.id {
      var i :| 0 <= i < |cards| && cards[i] == c;
      assert ts[i] in ts;
    }
  }
}
