/**
 * Shuffle mode of the session pool: a priority-weighted expansion of the
 * scoped requests plus one card per empty topic, a Fisher–Yates shuffle in
 * place, and a dedupe that keeps the first card of each request.
 *
 * `Math.random` is replaced by `rand`: step `i` of the shuffle swaps with
 * index `rand(i) % (i + 1)`, which ranges over every `j` in `[0, i]` as
 * `rand` varies.
 */
module Shuffle {
  import opened Wrappers
  import opened Numbers
  import opened Store
  import opened SessionUtils
  import opened Collections
  import opened Scope

  /** `Math.max(1, Number(r.priority) || 1)`: how many cards a request gets before the shuffle. */
  function Weight(r: RequestEntity): (w: nat)
    ensures w >= 1
    ensures r.priority >= 1 ==> w == r.priority
  {
    Max(1, NumberOr(Some(r.priority), 1))
  }

  function Repeat<T>(x: T, n: nat): (s: seq<T>)
    ensures |s| == n && forall i :: 0 <= i < n ==> s[i] == x
  {
    seq(n, _ => x)
  }

  /** `card` turns each request into a request card with the request's id. */
  ghost predicate MakesRequestCards(card: RequestEntity -> SessionItem)
  {
    forall r :: card(r).RequestItem? && card(r).id == r.id
  }

  /** The request part of the weighted list: each request's card, `Weight` times, in request order. */
  function WeightedCards(rs: seq<RequestEntity>, card: RequestEntity -> SessionItem): seq<SessionItem>
  {
    if rs == [] then []
    else
      var last := rs[|rs| - 1];
      WeightedCards(rs[..|rs| - 1], card) + Repeat(card(last), Weight(last))
  }

  /** The `weighted` array before shuffling: the weighted request cards, then the empty-topic cards. */
  function Weighted(rs: seq<RequestEntity>, card: RequestEntity -> SessionItem, topicCards: seq<SessionItem>): seq<SessionItem>
  {
    WeightedCards(rs, card) + topicCards
  }

  /** Builds the weighted list with the source's two push loops. */
  method BuildWeighted(rs: seq<RequestEntity>, card: RequestEntity -> SessionItem, empty: seq<TopicEntity>, lists: seq<ListEntity>)
    returns (weighted: seq<SessionItem>)
    ensures weighted == Weighted(rs, card, TopicCards(empty, lists))
  {
    weighted := [];
    for k := 0 to |rs|
      invariant weighted == WeightedCards(rs[..k], card)
    {
      var c := card(rs[k]);
      var repeats := Max(1, NumberOr(Some(rs[k].priority), 1));
      ghost var before := weighted;
      for i := 0 to repeats
        invariant weighted == before + Repeat(c, i)
      {
        weighted := weighted + [c];
      }
      assert rs[..k + 1][..k] == rs[..k];
    }
    assert rs[..|rs|] == rs;
    ghost var requestPart := weighted;
    for k := 0 to |empty|
      invariant weighted == requestPart + TopicCards(empty[..k], lists)
    {
      weighted := weighted + [TopicCard(empty[k], lists)];
      assert TopicCards(empty[..k + 1], lists) == TopicCards(empty[..k], lists) + [TopicCard(empty[k], lists)];
    }
    assert empty[..|empty|] == empty;
  }

  // ---------------------------------------------------------------------------
  // Fisher–Yates

  function Swap<T>(s: seq<T>, i: nat, j: nat): (r: seq<T>)
    requires i < |s| && j < |s|
    ensures |r| == |s|
  {
    s[i := s[j]][j := s[i]]
  }

  lemma SwapPermutes<T>(s: seq<T>, i: nat, j: nat)
    requires i < |s| && j < |s|
    ensures multiset(Swap(s, i, j)) == multiset(s)
  {
  }

  /** The shuffle from step `i` down to step 1. */
  function ShuffleFrom<T>(s: seq<T>, i: nat, rand: nat -> nat): (r: seq<T>)
    requires i < |s|
    ensures |r| == |s|
    decreases i
  {
    if i == 0 then s else ShuffleFrom(Swap(s, i, rand(i) % (i + 1)), i - 1, rand)
  }

  /** The list after the Fisher–Yates loop. */
  function Shuffled<T>(s: seq<T>, rand: nat -> nat): (r: seq<T>)
    ensures |r| == |s|
  {
    if |s| == 0 then s else ShuffleFrom(s, |s| - 1, rand)
  }

  /** The loop only swaps, so the result is a permutation of its input. */
  lemma {:induction false} ShuffleFromPermutes<T>(s: seq<T>, i: nat, rand: nat -> nat)
    requires i < |s|
    ensures multiset(ShuffleFrom(s, i, rand)) == multiset(s)
    decreases i
  {
    if i > 0 {
      SwapPermutes(s, i, rand(i) % (i + 1));
      ShuffleFromPermutes(Swap(s, i, rand(i) % (i + 1)), i - 1, rand);
    }
  }

  lemma ShufflePermutes<T>(s: seq<T>, rand: nat -> nat)
    ensures multiset(Shuffled(s, rand)) == multiset(s)
  {
    if |s| > 0 { ShuffleFromPermutes(s, |s| - 1, rand); }
  }

  /** `for (i = n-1; i > 0; i--) swap(weighted[i], weighted[j])`, in place. */
  method FisherYates<T>(a: array<T>, rand: nat -> nat)
    modifies a
    ensures a[..] == Shuffled(old(a[..]), rand)
  {
    var i := a.Length - 1;
    while i > 0
      invariant i < a.Length
      invariant a.Length > 0 ==> 0 <= i && ShuffleFrom(a[..], i, rand) == Shuffled(old(a[..]), rand)
      invariant a.Length == 0 ==> a[..] == old(a[..])
      decreases i
    {
      var j := rand(i) % (i + 1);
      ghost var before := a[..];
      a[i], a[j] := a[j], a[i];
      assert a[..] == Swap(before, i, j);
      i := i - 1;
    }
  }

  // ---------------------------------------------------------------------------
  // Dedupe

  /** Ids of the request cards in `s`. */
  function RequestIdSet(s: seq<SessionItem>): (ids: set<int>)
  {
    set x | x in s && x.RequestItem? :: x.id
  }

  /** Keep every topic card and the first card of each request id. */
  function Deduped(s: seq<SessionItem>): (r: seq<SessionItem>)
  {
    if s == [] then []
    else
      var p := s[..|s| - 1];
      var last := s[|s| - 1];
      Deduped(p) + (if last.TopicItem? || last.id !in RequestIdSet(p) then [last] else [])
  }

  lemma RequestIdSetSnoc(p: seq<SessionItem>, x: SessionItem)
    ensures RequestIdSet(p + [x]) == RequestIdSet(p) + (if x.RequestItem? then {x.id} else {})
  {
    assert forall y :: y in p + [x] <==> y in p || y == x;
  }

  /** The `seenReq` loop. */
  method Dedupe(weighted: seq<SessionItem>) returns (deduped: seq<SessionItem>)
    ensures deduped == Deduped(weighted)
  {
    var seenReq: set<int> := {};
    deduped := [];
    for k := 0 to |weighted|
      invariant seenReq == RequestIdSet(weighted[..k])
      invariant deduped == Deduped(weighted[..k])
    {
      var item := weighted[k];
      assert weighted[..k + 1] == weighted[..k] + [item];
      RequestIdSetSnoc(weighted[..k], item);
      if item.TopicItem? {
        deduped := deduped + [item];
      } else if item.id !in seenReq {
        seenReq := seenReq + {item.id};
        deduped := deduped + [item];
      }
    }
    assert weighted[..|weighted|] == weighted;
  }

  predicate IsTopicCard(x: SessionItem) { x.TopicItem? }

  /** No request id occurs on two cards. */
  predicate NoDuplicateRequests(s: seq<SessionItem>)
  {
    forall i, j :: 0 <= i < j < |s| && s[i].RequestItem? && s[j].RequestItem? ==> s[i].id != s[j].id
  }

  /** The dedupe keeps the set of request ids. */
  lemma {:induction false} DedupedKeepsIds(s: seq<SessionItem>)
    ensures RequestIdSet(Deduped(s)) == RequestIdSet(s)
    decreases |s|
  {
    if s != [] {
      var p := s[..|s| - 1];
      var last := s[|s| - 1];
      DedupedKeepsIds(p);
      assert s == p + [last];
      RequestIdSetSnoc(p, last);
      var d := Deduped(p);
      if last.TopicItem? || last.id !in RequestIdSet(p) {
        RequestIdSetSnoc(d, last);
      }
    }
  }

  /** After the dedupe each request id is on one card only. */
  lemma {:induction false} DedupedIsDuplicateFree(s: seq<SessionItem>)
    ensures NoDuplicateRequests(Deduped(s))
    decreases |s|
  {
    if s != [] {
      var p := s[..|s| - 1];
      var last := s[|s| - 1];
      DedupedIsDuplicateFree(p);
      DedupedKeepsIds(p);
      var d := Deduped(p);
      if last.TopicItem? || last.id !in RequestIdSet(p) {
        var r := d + [last];
        forall i, j | 0 <= i < j < |r| && r[i].RequestItem? && r[j].RequestItem? ensures r[i].id != r[j].id {
          if j == |d| {
            assert r[i] == d[i] && d[i] in d;
          } else {
            assert r[i] == d[i] && r[j] == d[j];
          }
        }
      }
    }
  }

  /** The dedupe keeps every topic card, in order. */
  lemma {:induction false} DedupedKeepsTopics(s: seq<SessionItem>)
    ensures Filter(Deduped(s), IsTopicCard) == Filter(s, IsTopicCard)
    decreases |s|
  {
    if s != [] {
      var p := s[..|s| - 1];
      var last := s[|s| - 1];
      DedupedKeepsTopics(p);
      assert s == p + [last];
      FilterAppend(p, [last], IsTopicCard);
      var tail := if last.TopicItem? || last.id !in RequestIdSet(p) then [last] else [];
      FilterAppend(Deduped(p), tail, IsTopicCard);
    }
  }

  /** Equal multisets carry the same request ids. */
  lemma SameMultisetSameIds(a: seq<SessionItem>, b: seq<SessionItem>)
    requires multiset(a) == multiset(b)
    ensures RequestIdSet(a) == RequestIdSet(b)
  {
    forall x ensures x in a <==> x in b {
      assert x in a <==> x in multiset(a);
      assert x in b <==> x in multiset(b);
    }
  }

  /** The ids of `rs`. */
  function RequestIds(rs: seq<RequestEntity>): set<int>
  {
    set r | r in rs :: r.id
  }

  /** Every request has at least one card in the weighted list, and nothing else is a request card. */
  lemma {:induction false} WeightedCardIds(rs: seq<RequestEntity>, card: RequestEntity -> SessionItem)
    requires MakesRequestCards(card)
    ensures RequestIdSet(WeightedCards(rs, card)) == RequestIds(rs)
    ensures Filter(WeightedCards(rs, card), IsTopicCard) == []
    decreases |rs|
  {
    if rs != [] {
      var p := rs[..|rs| - 1];
      var last := rs[|rs| - 1];
      WeightedCardIds(p, card);
      var rep := Repeat(card(last), Weight(last));
      var w := WeightedCards(p, card);
      assert rep[0] == card(last);
      assert RequestIdSet(w + rep) == RequestIdSet(w) + {last.id} by {
        forall id | id in RequestIdSet(w + rep) ensures id in RequestIdSet(w) + {last.id} {
          var y :| y in w + rep && y.RequestItem? && y.id == id;
          if y !in w {
            var i :| 0 <= i < |rep| && rep[i] == y;
          }
        }
        forall id | id in RequestIdSet(w) + {last.id} ensures id in RequestIdSet(w + rep) {
          if id == last.id {
            assert card(last) in w + rep;
          } else {
            var y :| y in w && y.RequestItem? && y.id == id;
            assert y in w + rep;
          }
        }
      }
      assert rs == p + [last];
      assert RequestIds(rs) == RequestIds(p) + {last.id} by {
        forall id | id in RequestIds(rs) ensures id in RequestIds(p) + {last.id} {
          var r :| r in rs && r.id == id;
          if r != last { assert r in p; }
        }
        forall id | id in RequestIds(p) + {last.id} ensures id in RequestIds(rs) {
          if id != last.id {
            var r :| r in p && r.id == id;
            assert r in rs;
          } else {
            assert last in rs;
          }
        }
      }
      FilterAppend(w, rep, IsTopicCard);
      FilterNone(rep, IsTopicCard);
    }
  }

  lemma WeightedIds(rs: seq<RequestEntity>, card: RequestEntity -> SessionItem, topicCards: seq<SessionItem>)
    requires MakesRequestCards(card)
    requires forall c :: c in topicCards ==> c.TopicItem?
    ensures RequestIdSet(Weighted(rs, card, topicCards)) == RequestIds(rs)
    ensures Filter(Weighted(rs, card, topicCards), IsTopicCard) == topicCards
  {
    WeightedCardIds(rs, card);
    var w := WeightedCards(rs, card);
    assert forall y :: y in w + topicCards <==> y in w || y in topicCards;
    FilterAppend(w, topicCards, IsTopicCard);
    FilterAll(topicCards, IsTopicCard);
  }

  /** Does this card show request `id`? */
  function ShowsRequest(id: int): (p: SessionItem -> bool)
    ensures forall x :: p(x) == (x.RequestItem? && x.id == id)
  {
    (x: SessionItem) => x.RequestItem? && x.id == id
  }

  /** The number of request cards with id `id`. */
  function CountRequest(s: seq<SessionItem>, id: int): nat
  {
    |Filter(s, ShowsRequest(id))|
  }

  lemma CountRequestAppend(a: seq<SessionItem>, b: seq<SessionItem>, id: int)
    ensures CountRequest(a + b, id) == CountRequest(a, id) + CountRequest(b, id)
  {
    FilterAppend(a, b, ShowsRequest(id));
  }

  lemma CountRepeat(x: SessionItem, n: nat, id: int)
    ensures CountRequest(Repeat(x, n), id) == if x.RequestItem? && x.id == id then n else 0
  {
    if x.RequestItem? && x.id == id {
      FilterAll(Repeat(x, n), ShowsRequest(id));
    } else {
      FilterNone(Repeat(x, n), ShowsRequest(id));
    }
  }

  lemma {:induction false} AbsentCount(rs: seq<RequestEntity>, card: RequestEntity -> SessionItem, id: int)
    requires MakesRequestCards(card)
    requires forall q :: q in rs ==> q.id != id
    ensures CountRequest(WeightedCards(rs, card), id) == 0
    decreases |rs|
  {
    if rs != [] {
      var p := rs[..|rs| - 1];
      var last := rs[|rs| - 1];
      assert forall q :: q in p ==> q in rs;
      AbsentCount(p, card, id);
      CountRequestAppend(WeightedCards(p, card), Repeat(card(last), Weight(last)), id);
      CountRepeat(card(last), Weight(last), id);
    }
  }

  /** Dropping the last entity keeps ids unique. */
  lemma UniquePrefix<T>(s: seq<T>, key: T -> int)
    requires s != [] && UniqueIds(Ids(s, key))
    ensures UniqueIds(Ids(s[..|s| - 1], key))
  {
    var p := s[..|s| - 1];
    var all := Ids(s, key);
    assert all == Ids(p, key) + [key(s[|s| - 1])];
    var ip := Ids(p, key);
    forall i, j | 0 <= i < j < |ip| ensures ip[i] != ip[j] {
      assert ip[i] == all[i];
      assert ip[j] == all[j];
    }
  }

  /** With unique ids the last entity's id is not used before it. */
  lemma LastIdFresh<T>(s: seq<T>, key: T -> int)
    requires s != [] && UniqueIds(Ids(s, key))
    ensures forall i :: 0 <= i < |s| - 1 ==> key(s[i]) != key(s[|s| - 1])
  {
    var all := Ids(s, key);
    forall i | 0 <= i < |s| - 1 ensures key(s[i]) != key(s[|s| - 1]) {
      assert all[i] == key(s[i]);
      assert all[|s| - 1] == key(s[|s| - 1]);
    }
  }

  lemma LastIdAbsent<T>(s: seq<T>, key: T -> int)
    requires s != []
    requires forall i :: 0 <= i < |s| - 1 ==> key(s[i]) != key(s[|s| - 1])
    ensures forall q :: q in s[..|s| - 1] ==> key(q) != key(s[|s| - 1])
  {
    var p := s[..|s| - 1];
    var last := key(s[|s| - 1]);
    assert forall i :: 0 <= i < |p| ==> key(p[i]) != last;
  }

  /** With unique request ids, request `r` has exactly `Weight(r)` cards in the weighted list. */
  lemma {:induction false} WeightedCount(rs: seq<RequestEntity>, card: RequestEntity -> SessionItem, r: RequestEntity)
    requires MakesRequestCards(card)
    requires UniqueIds(Ids(rs, RequestId))
    requires r in rs
    ensures CountRequest(WeightedCards(rs, card), r.id) == Weight(r)
    decreases |rs|
  {
    var p := rs[..|rs| - 1];
    var last := rs[|rs| - 1];
    assert WeightedCards(rs, card) == WeightedCards(p, card) + Repeat(card(last), Weight(last));
    CountRequestAppend(WeightedCards(p, card), Repeat(card(last), Weight(last)), r.id);
    CountRepeat(card(last), Weight(last), r.id);
    UniquePrefix(rs, RequestId);
    LastIdFresh(rs, RequestId);
    LastIdAbsent(rs, RequestId);
    if r == last {
      AbsentCount(p, card, r.id);
    } else {
      assert rs == p + [last];
      assert r in p;
      assert r.id != last.id;
      WeightedCount(p, card, r);
    }
  }

  /** The pool shuffle mode produces. */
  function ShuffledPool(rs: seq<RequestEntity>, card: RequestEntity -> SessionItem, topicCards: seq<SessionItem>, rand: nat -> nat): seq<SessionItem>
  {
    Deduped(Shuffled(Weighted(rs, card, topicCards), rand))
  }

  /** Weighted expansion, shuffle in place, dedupe: the shuffle branch of the pool recompute. */
  method ShufflePool(rs: seq<RequestEntity>, card: RequestEntity -> SessionItem, empty: seq<TopicEntity>, lists: seq<ListEntity>, rand: nat -> nat)
    returns (pool: seq<SessionItem>)
    ensures pool == ShuffledPool(rs, card, TopicCards(empty, lists), rand)
  {
    var weighted := BuildWeighted(rs, card, empty, lists);
    var a := new SessionItem[|weighted|](i requires 0 <= i < |weighted| => weighted[i]);
    assert a[..] == weighted;
    FisherYates(a, rand);
    pool := Dedupe(a[..]);
  }

  /**
   * Whatever the random draws: every request appears exactly once, no other
   * request appears, and the topic cards are exactly the given ones (in some order).
   */
  lemma ShuffledPoolSpec(rs: seq<RequestEntity>, card: RequestEntity -> SessionItem, topicCards: seq<SessionItem>, rand: nat -> nat)
    requires MakesRequestCards(card)
    requires forall c :: c in topicCards ==> c.TopicItem?
    ensures var pool := ShuffledPool(rs, card, topicCards, rand);
      RequestIdSet(pool) == RequestIds(rs)
      && NoDuplicateRequests(pool)
      && multiset(Filter(pool, IsTopicCard)) == multiset(topicCards)
  {
    var w := Weighted(rs, card, topicCards);
    var sh := Shuffled(w, rand);
    ShufflePermutes(w, rand);
    SameMultisetSameIds(sh, w);
    WeightedIds(rs, card, topicCards);
    DedupedKeepsIds(sh);
    DedupedIsDuplicateFree(sh);
    DedupedKeepsTopics(sh);
    forall x ensures multiset(Filter(sh, IsTopicCard))[x] == multiset(Filter(w, IsTopicCard))[x] {
      FilterMultiset(sh, IsTopicCard, x);
      FilterMultiset(w, IsTopicCard, x);
    }
  }

  /** Before dedupe, the shuffled list holds request `r` exactly `Weight(r)` times. */
  lemma ShuffledKeepsWeights(rs: seq<RequestEntity>, card: RequestEntity -> SessionItem, topicCards: seq<SessionItem>, rand: nat -> nat, r: RequestEntity)
    requires MakesRequestCards(card)
    requires forall c :: c in topicCards ==> c.TopicItem?
    requires UniqueIds(Ids(rs, RequestId)) && r in rs
    ensures CountRequest(Shuffled(Weighted(rs, card, topicCards), rand), r.id) == Weight(r)
  {
    var w := Weighted(rs, card, topicCards);
    ShufflePermutes(w, rand);
    WeightedCount(rs, card, r);
    CountRequestAppend(WeightedCards(rs, card), topicCards, r.id);
    TopicCardsCountNothing(topicCards, r.id);
    CountIsMultiset(Shuffled(w, rand), w, r.id);
  }

  lemma TopicCardsCountNothing(cards: seq<SessionItem>, id: int)
    requires forall c :: c in cards ==> c.TopicItem?
    ensures CountRequest(cards, id) == 0
  {
    FilterNone(cards, ShowsRequest(id));
  }

  /** `CountRequest` depends only on the multiset of cards. */
  lemma CountIsMultiset(a: seq<SessionItem>, b: seq<SessionItem>, id: int)
    requires multiset(a) == multiset(b)
    ensures CountRequest(a, id) == CountRequest(b, id)
  {
    var p := ShowsRequest(id);
    forall x ensures multiset(Filter(a, p))[x] == multiset(Filter(b, p))[x] {
      FilterMultiset(a, p, x);
      FilterMultiset(b, p, x);
    }
    assert multiset(Filter(a, p)) == multiset(Filter(b, p));
    assert |multiset(Filter(a, p))| == |Filter(a, p)|;
  }
}
