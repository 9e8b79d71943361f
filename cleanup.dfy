/**
 * `SettingsComponent.cleanupData`: the repair of the store. It drops
 * references to missing topics and requests, gives every list after the
 * first its own copy of a topic that several lists hold (and likewise for
 * requests held by several topics), and gathers requests no topic holds and
 * topics no list holds.
 *
 * Every step reads the lists, topics and requests as they were when the
 * repair began; the dispatches of one step are not seen by the later ones.
 * Each step is a function giving its dispatches from that snapshot, and the
 * component's loops are methods proved to dispatch exactly those.
 */
module Cleanup {
  import opened Wrappers
  import opened Numbers
  import opened Collections
  import opened Store

  const OrphanedRequestsName := "Orphaned Requests"
  const OrphanedTopicsName := "Orphaned Topics"

  function ListTopicIds(l: ListEntity): seq<int> { l.topicIds }
  function TopicRequestIds(t: TopicEntity): seq<int> { t.requestIds }

  // ---------------------------------------------------------------------------
  // Steps 1 and 2: references to missing entities

  /** `ids.filter(id => existing.has(id))`. */
  function Kept(ids: seq<int>, existing: set<int>): (r: seq<int>)
    ensures |r| <= |ids|
  {
    if ids == [] then []
    else Kept(ids[..|ids| - 1], existing) + (if ids[|ids| - 1] in existing then [ids[|ids| - 1]] else [])
  }

  /**
   * The filter keeps exactly the existing ids; it keeps all of them exactly
   * when every id exists, and then it changes nothing.
   */
  lemma {:induction false} KeptSpec(ids: seq<int>, existing: set<int>)
    ensures forall x :: x in Kept(ids, existing) <==> x in ids && x in existing
    ensures |Kept(ids, existing)| == |ids| <==> forall x :: x in ids ==> x in existing
    ensures Kept(ids, existing) == ids <==> forall x :: x in ids ==> x in existing
  {
    if ids != [] {
      var p := ids[..|ids| - 1];
      var x := ids[|ids| - 1];
      assert ids == p + [x];
      KeptSpec(p, existing);
      assert forall z :: z in ids <==> z in p || z == x;
      if |Kept(ids, existing)| == |ids| {
        assert x in existing && |Kept(p, existing)| == |p|;
      }
    }
  }

  /** A list with its missing topics dropped. */
  function CleanedList(l: ListEntity, topicIds: set<int>): ListEntity
  {
    l.(topicIds := Kept(l.topicIds, topicIds))
  }

  /** A topic with its missing requests dropped. */
  function CleanedTopic(t: TopicEntity, requestIds: set<int>): TopicEntity
  {
    t.(requestIds := Kept(t.requestIds, requestIds))
  }

  /** Step 1 for one list: an update only when some of its topics are missing. */
  function CleanListActions(l: ListEntity, topicIds: set<int>): (acts: seq<Action>)
  {
    var cleaned := Kept(l.topicIds, topicIds);
    if |cleaned| != |l.topicIds| then [UpdateList(l.id, ListChanges(None, Some(cleaned), None))] else []
  }

  /** A list gets an update exactly when cleaning it changes it. */
  lemma CleanListIdle(l: ListEntity, topicIds: set<int>)
    ensures CleanListActions(l, topicIds) == [] <==> CleanedList(l, topicIds) == l
  {
    KeptSpec(l.topicIds, topicIds);
  }

  /** Step 2 for one topic: an update only when some of its requests are missing. */
  function CleanTopicActions(t: TopicEntity, requestIds: set<int>): (acts: seq<Action>)
  {
    var cleaned := Kept(t.requestIds, requestIds);
    if |cleaned| != |t.requestIds| then [UpdateTopic(t.id, TopicChanges(None, Some(cleaned)))] else []
  }

  /** A topic gets an update exactly when cleaning it changes it. */
  lemma CleanTopicIdle(t: TopicEntity, requestIds: set<int>)
    ensures CleanTopicActions(t, requestIds) == [] <==> CleanedTopic(t, requestIds) == t
  {
    KeptSpec(t.requestIds, requestIds);
  }

  /** Step 1: the list updates, list by list. */
  function Step1(lists: seq<ListEntity>, topicIds: set<int>): seq<Action>
  {
    if lists == [] then []
    else Step1(lists[..|lists| - 1], topicIds) + CleanListActions(lists[|lists| - 1], topicIds)
  }

  /** Step 2: the topic updates, topic by topic. */
  function Step2(topics: seq<TopicEntity>, requestIds: set<int>): seq<Action>
  {
    if topics == [] then []
    else Step2(topics[..|topics| - 1], requestIds) + CleanTopicActions(topics[|topics| - 1], requestIds)
  }

  /** The first `k` lists cleaned, the rest as they were. */
  function ListsCleanedUpTo(ls: seq<ListEntity>, topicIds: set<int>, k: nat): (r: seq<ListEntity>)
    ensures |r| == |ls|
  {
    seq(|ls|, i requires 0 <= i < |ls| => if i < k then CleanedList(ls[i], topicIds) else ls[i])
  }

  /** The first `k` topics cleaned, the rest as they were. */
  function TopicsCleanedUpTo(ts: seq<TopicEntity>, requestIds: set<int>, k: nat): (r: seq<TopicEntity>)
    ensures |r| == |ts|
  {
    seq(|ts|, i requires 0 <= i < |ts| => if i < k then CleanedTopic(ts[i], requestIds) else ts[i])
  }

  /** Step 1's dispatches for the list at position `k` clean that list alone. */
  lemma CleanListStep(s: AppState, topicIds: set<int>, k: nat, now: string)
    requires k < |s.lists| && UniqueKeys(s.lists, ListId)
    ensures DispatchAll(s, CleanListActions(s.lists[k], topicIds), now)
      == s.(lists := s.lists[k := CleanedList(s.lists[k], topicIds)])
  {
    var acts := CleanListActions(s.lists[k], topicIds);
    if acts != [] {
      UpdateListAt(s.lists, k, ListChanges(None, Some(Kept(s.lists[k].topicIds, topicIds)), None));
      assert DispatchAll(s, acts, now) == Dispatch(s, acts[0], now);
    } else {
      CleanListIdle(s.lists[k], topicIds);
      assert s.lists[k := CleanedList(s.lists[k], topicIds)] == s.lists;
    }
  }

  /** Step 2's dispatches for the topic at position `k` clean that topic alone. */
  lemma CleanTopicStep(s: AppState, requestIds: set<int>, k: nat, now: string)
    requires k < |s.topics| && UniqueKeys(s.topics, TopicId)
    ensures DispatchAll(s, CleanTopicActions(s.topics[k], requestIds), now)
      == s.(topics := s.topics[k := CleanedTopic(s.topics[k], requestIds)])
  {
    var acts := CleanTopicActions(s.topics[k], requestIds);
    if acts != [] {
      UpdateTopicAt(s.topics, k, TopicChanges(None, Some(Kept(s.topics[k].requestIds, requestIds))));
      assert DispatchAll(s, acts, now) == Dispatch(s, acts[0], now);
    } else {
      CleanTopicIdle(s.topics[k], requestIds);
      assert s.topics[k := CleanedTopic(s.topics[k], requestIds)] == s.topics;
    }
  }

  lemma ListsCleanedOneMore(ls: seq<ListEntity>, topicIds: set<int>, k: nat)
    requires k < |ls|
    ensures ListsCleanedUpTo(ls, topicIds, k)[k := CleanedList(ls[k], topicIds)] == ListsCleanedUpTo(ls, topicIds, k + 1)
  {
  }

  lemma TopicsCleanedOneMore(ts: seq<TopicEntity>, requestIds: set<int>, k: nat)
    requires k < |ts|
    ensures TopicsCleanedUpTo(ts, requestIds, k)[k := CleanedTopic(ts[k], requestIds)] == TopicsCleanedUpTo(ts, requestIds, k + 1)
  {
  }

  lemma ListsCleanedKeepKeys(ls: seq<ListEntity>, topicIds: set<int>, k: nat)
    requires UniqueKeys(ls, ListId)
    ensures UniqueKeys(ListsCleanedUpTo(ls, topicIds, k), ListId)
  {
    var r := ListsCleanedUpTo(ls, topicIds, k);
    forall i, j | 0 <= i < j < |r| ensures ListId(r[i]) != ListId(r[j]) {
      assert r[i].id == ls[i].id && r[j].id == ls[j].id;
    }
  }

  lemma TopicsCleanedKeepKeys(ts: seq<TopicEntity>, requestIds: set<int>, k: nat)
    requires UniqueKeys(ts, TopicId)
    ensures UniqueKeys(TopicsCleanedUpTo(ts, requestIds, k), TopicId)
  {
    var r := TopicsCleanedUpTo(ts, requestIds, k);
    forall i, j | 0 <= i < j < |r| ensures TopicId(r[i]) != TopicId(r[j]) {
      assert r[i].id == ts[i].id && r[j].id == ts[j].id;
    }
  }

  /** Dispatching the first `k` entries of step 1 is dispatching the first `k - 1`, then entry `k - 1`. */
  lemma Step1Split(st: AppState, ls: seq<ListEntity>, topicIds: set<int>, k: nat, now: string)
    requires 0 < k <= |ls|
    ensures DispatchAll(st, Step1(ls[..k], topicIds), now)
      == DispatchAll(DispatchAll(st, Step1(ls[..k - 1], topicIds), now), CleanListActions(ls[k - 1], topicIds), now)
  {
    assert ls[..k][..k - 1] == ls[..k - 1];
    var before := Step1(ls[..k - 1], topicIds);
    var acts := CleanListActions(ls[k - 1], topicIds);
    assert Step1(ls[..k], topicIds) == before + acts;
    DispatchAllAppend(st, before, acts, now);
  }

  lemma {:induction false} Step1Prefix(st: AppState, topicIds: set<int>, k: nat, now: string)
    requires k <= |st.lists| && UniqueKeys(st.lists, ListId)
    ensures DispatchAll(st, Step1(st.lists[..k], topicIds), now) == st.(lists := ListsCleanedUpTo(st.lists, topicIds, k))
  {
    var ls := st.lists;
    if k == 0 {
      assert ListsCleanedUpTo(ls, topicIds, 0) == ls;
    } else {
      Step1Prefix(st, topicIds, k - 1, now);
      Step1Split(st, ls, topicIds, k, now);
      var prev := ListsCleanedUpTo(ls, topicIds, k - 1);
      ListsCleanedKeepKeys(ls, topicIds, k - 1);
      assert prev[k - 1] == ls[k - 1];
      CleanListStep(st.(lists := prev), topicIds, k - 1, now);
      ListsCleanedOneMore(ls, topicIds, k - 1);
    }
  }

  /** Dispatching the first `k` entries of step 2 is dispatching the first `k - 1`, then entry `k - 1`. */
  lemma Step2Split(st: AppState, ts: seq<TopicEntity>, requestIds: set<int>, k: nat, now: string)
    requires 0 < k <= |ts|
    ensures DispatchAll(st, Step2(ts[..k], requestIds), now)
      == DispatchAll(DispatchAll(st, Step2(ts[..k - 1], requestIds), now), CleanTopicActions(ts[k - 1], requestIds), now)
  {
    assert ts[..k][..k - 1] == ts[..k - 1];
    var before := Step2(ts[..k - 1], requestIds);
    var acts := CleanTopicActions(ts[k - 1], requestIds);
    assert Step2(ts[..k], requestIds) == before + acts;
    DispatchAllAppend(st, before, acts, now);
  }

  lemma {:induction false} Step2Prefix(st: AppState, requestIds: set<int>, k: nat, now: string)
    requires k <= |st.topics| && UniqueKeys(st.topics, TopicId)
    ensures DispatchAll(st, Step2(st.topics[..k], requestIds), now) == st.(topics := TopicsCleanedUpTo(st.topics, requestIds, k))
  {
    var ts := st.topics;
    if k == 0 {
      assert TopicsCleanedUpTo(ts, requestIds, 0) == ts;
    } else {
      Step2Prefix(st, requestIds, k - 1, now);
      Step2Split(st, ts, requestIds, k, now);
      var prev := TopicsCleanedUpTo(ts, requestIds, k - 1);
      TopicsCleanedKeepKeys(ts, requestIds, k - 1);
      assert prev[k - 1] == ts[k - 1];
      CleanTopicStep(st.(topics := prev), requestIds, k - 1, now);
      TopicsCleanedOneMore(ts, requestIds, k - 1);
    }
  }

  /** Step 1 as a whole cleans every list in place. */
  lemma Step1Result(st: AppState, topicIds: set<int>, now: string)
    requires UniqueKeys(st.lists, ListId)
    ensures DispatchAll(st, Step1(st.lists, topicIds), now) == st.(lists := ListsCleanedUpTo(st.lists, topicIds, |st.lists|))
  {
    assert st.lists[..|st.lists|] == st.lists;
    Step1Prefix(st, topicIds, |st.lists|, now);
  }

  /** Every id of `kept` is in `held` and names a stored topic. */
  predicate OnlyExistingTopics(kept: seq<int>, held: seq<int>, topics: seq<TopicEntity>)
  {
    forall x :: x in kept ==> x in held && HasId(topics, TopicId, x)
  }

  /** Each list in `after` holds only topic ids its counterpart in `before` held and that name a stored topic. */
  predicate ListsKeepExisting(after: seq<ListEntity>, before: seq<ListEntity>, topics: seq<TopicEntity>)
  {
    |after| == |before|
    && forall i :: 0 <= i < |before| ==> OnlyExistingTopics(after[i].topicIds, before[i].topicIds, topics)
  }

  /** Every cleaned list holds only ids it held before and that name an existing topic. */
  lemma ListsCleanedExisting(ls: seq<ListEntity>, topics: seq<TopicEntity>)
    ensures ListsKeepExisting(ListsCleanedUpTo(ls, Elements(Ids(topics, TopicId)), |ls|), ls, topics)
  {
    var cleaned := ListsCleanedUpTo(ls, Elements(Ids(topics, TopicId)), |ls|);
    forall i | 0 <= i < |ls| ensures OnlyExistingTopics(cleaned[i].topicIds, ls[i].topicIds, topics) {
      assert cleaned[i].topicIds == Kept(ls[i].topicIds, Elements(Ids(topics, TopicId)));
      KeptExisting(ls[i].topicIds, topics, TopicId);
    }
  }


  /**
   * With unique list ids, step 1 leaves every list holding only existing
   * topics, in their order, and touches nothing else.
   */
  lemma Step1Cleans(st: AppState, now: string)
    requires UniqueKeys(st.lists, ListId)
    ensures var topicIds := Elements(Ids(st.topics, TopicId));
      var r := DispatchAll(st, Step1(st.lists, topicIds), now);
      r.topics == st.topics && r.requests == st.requests && |r.lists| == |st.lists|
      && forall i :: 0 <= i < |st.lists| ==> r.lists[i] == CleanedList(st.lists[i], topicIds)
  {
    Step1Result(st, Elements(Ids(st.topics, TopicId)), now);
  }

  /** After step 1 every list holds only topic ids it held before and that name a stored topic. */
  lemma Step1LeavesExisting(st: AppState, now: string)
    requires UniqueKeys(st.lists, ListId)
    ensures ListsKeepExisting(DispatchAll(st, Step1(st.lists, Elements(Ids(st.topics, TopicId))), now).lists, st.lists, st.topics)
  {
    Step1Result(st, Elements(Ids(st.topics, TopicId)), now);
    ListsCleanedExisting(st.lists, st.topics);
  }



  /** Kept ids were held before and name an existing entity. */
  lemma KeptExisting<E>(ids: seq<int>, existing: seq<E>, key: E -> int)
    ensures forall x :: x in Kept(ids, Elements(Ids(existing, key))) ==> x in ids && HasId(existing, key, x)
  {
    KeptSpec(ids, Elements(Ids(existing, key)));
    forall x | x in Kept(ids, Elements(Ids(existing, key))) ensures HasId(existing, key, x) {
      InIdSet(existing, key, x);
    }
  }

  /** Step 2 as a whole cleans every topic in place. */
  lemma Step2Result(st: AppState, requestIds: set<int>, now: string)
    requires UniqueKeys(st.topics, TopicId)
    ensures DispatchAll(st, Step2(st.topics, requestIds), now) == st.(topics := TopicsCleanedUpTo(st.topics, requestIds, |st.topics|))
  {
    assert st.topics[..|st.topics|] == st.topics;
    Step2Prefix(st, requestIds, |st.topics|, now);
  }

  /** Every id of `kept` is in `held` and names a stored request. */
  predicate OnlyExistingRequests(kept: seq<int>, held: seq<int>, requests: seq<RequestEntity>)
  {
    forall x :: x in kept ==> x in held && HasId(requests, RequestId, x)
  }

  /** Each topic in `after` holds only request ids its counterpart in `before` held and that name a stored request. */
  predicate TopicsKeepExisting(after: seq<TopicEntity>, before: seq<TopicEntity>, requests: seq<RequestEntity>)
  {
    |after| == |before|
    && forall i :: 0 <= i < |before| ==> OnlyExistingRequests(after[i].requestIds, before[i].requestIds, requests)
  }

  /** Every cleaned topic holds only ids it held before and that name an existing request. */
  lemma TopicsCleanedExisting(ts: seq<TopicEntity>, requests: seq<RequestEntity>)
    ensures TopicsKeepExisting(TopicsCleanedUpTo(ts, Elements(Ids(requests, RequestId)), |ts|), ts, requests)
  {
    var cleaned := TopicsCleanedUpTo(ts, Elements(Ids(requests, RequestId)), |ts|);
    forall i | 0 <= i < |ts| ensures OnlyExistingRequests(cleaned[i].requestIds, ts[i].requestIds, requests) {
      assert cleaned[i].requestIds == Kept(ts[i].requestIds, Elements(Ids(requests, RequestId)));
      KeptExisting(ts[i].requestIds, requests, RequestId);
    }
  }


  /**
   * With unique topic ids, step 2 leaves every topic holding only existing
   * requests, in their order, and touches nothing else.
   */
  lemma Step2Cleans(st: AppState, now: string)
    requires UniqueKeys(st.topics, TopicId)
    ensures var requestIds := Elements(Ids(st.requests, RequestId));
      var r := DispatchAll(st, Step2(st.topics, requestIds), now);
      r.lists == st.lists && r.requests == st.requests && |r.topics| == |st.topics|
      && forall i :: 0 <= i < |st.topics| ==> r.topics[i] == CleanedTopic(st.topics[i], requestIds)
  {
    Step2Result(st, Elements(Ids(st.requests, RequestId)), now);
  }

  /** After step 2 every topic holds only request ids it held before and that name a stored request. */
  lemma Step2LeavesExisting(st: AppState, now: string)
    requires UniqueKeys(st.topics, TopicId)
    ensures TopicsKeepExisting(DispatchAll(st, Step2(st.topics, Elements(Ids(st.requests, RequestId))), now).topics, st.topics, st.requests)
  {
    Step2Result(st, Elements(Ids(st.requests, RequestId)), now);
    TopicsCleanedExisting(st.topics, st.requests);
  }



  // ---------------------------------------------------------------------------
  // Steps 3 and 5: which owners hold each id

  function PairMember(p: (int, int)): int { p.0 }

  /** `(member, owner)` for each member of one owner, in order. */
  function Tag(members: seq<int>, owner: int): (ps: seq<(int, int)>)
    ensures |ps| == |members|
    ensures forall i :: 0 <= i < |members| ==> ps[i] == (members[i], owner)
  {
    seq(|members|, i requires 0 <= i < |members| => (members[i], owner))
  }

  /** The `(member, owner)` pairs in the order the nested `forEach` visits them. */
  function Pairs<T>(s: seq<T>, owner: T -> int, members: T -> seq<int>): seq<(int, int)>
  {
    if s == [] then [] else Pairs(s[..|s| - 1], owner, members) + Tag(members(s[|s| - 1]), owner(s[|s| - 1]))
  }

  /** A pair is visited exactly when its owner holds its member. */
  lemma {:induction false} PairsSpec<T>(s: seq<T>, owner: T -> int, members: T -> seq<int>)
    ensures forall p :: p in Pairs(s, owner, members) <==>
      exists j :: 0 <= j < |s| && owner(s[j]) == p.1 && p.0 in members(s[j])
  {
    if s != [] {
      var init := s[..|s| - 1];
      var last := s[|s| - 1];
      PairsSpec(init, owner, members);
      var tag := Tag(members(last), owner(last));
      forall p ensures p in Pairs(s, owner, members) <==>
        exists j :: 0 <= j < |s| && owner(s[j]) == p.1 && p.0 in members(s[j])
      {
        if exists j :: 0 <= j < |s| && owner(s[j]) == p.1 && p.0 in members(s[j]) {
          var j :| 0 <= j < |s| && owner(s[j]) == p.1 && p.0 in members(s[j]);
          if j == |s| - 1 {
            var i :| 0 <= i < |members(last)| && members(last)[i] == p.0;
            assert tag[i] == p;
          } else {
            assert init[j] == s[j];
          }
        }
        if p in tag {
          var i :| 0 <= i < |tag| && tag[i] == p;
          assert owner(s[|s| - 1]) == p.1 && p.0 in members(s[|s| - 1]);
        }
        if p in Pairs(init, owner, members) {
          var j :| 0 <= j < |init| && owner(init[j]) == p.1 && p.0 in members(init[j]);
          assert s[j] == init[j];
        }
      }
    }
  }

  /** A `Map<number, number[]>`: its keys in insertion order and the array under each key. */
  datatype Index = Index(keys: seq<int>, owners: map<int, seq<int>>)

  const EmptyIndex := Index([], map[])

  /** `if (!m.has(k)) m.set(k, []); m.get(k)!.push(o)`. */
  function Push(ix: Index, k: int, o: int): Index
  {
    if k in ix.owners then Index(ix.keys, ix.owners[k := ix.owners[k] + [o]])
    else Index(ix.keys + [k], ix.owners[k := [o]])
  }

  /** Every pair pushed in order. */
  function PushAll(ix: Index, ps: seq<(int, int)>): Index
  {
    if ps == [] then ix else Push(PushAll(ix, ps[..|ps| - 1]), ps[|ps| - 1].0, ps[|ps| - 1].1)
  }

  /** The map the pairs build from an empty one. */
  function Group(ps: seq<(int, int)>): Index
  {
    PushAll(EmptyIndex, ps)
  }

  /** The owners paired with `k`, in order: the reference meaning of the array under `k`. */
  function OwnersOf(ps: seq<(int, int)>, k: int): (r: seq<int>)
    ensures forall o :: o in r <==> (k, o) in ps
    ensures r != [] <==> k in Map(ps, PairMember)
  {
    if ps == [] then []
    else
      var init := ps[..|ps| - 1];
      var p := ps[|ps| - 1];
      assert ps == init + [p];
      assert forall q :: q in ps <==> q in init || q == p;
      MapSnoc(init, p, PairMember);
      assert forall m :: m in Map(ps, PairMember) <==> m in Map(init, PairMember) || m == p.0;
      OwnersOf(init, k) + (if p.0 == k then [p.1] else [])
  }

  /**
   * The map built from the pairs has every member as a key, once, in order of
   * first appearance, and under each key the owners paired with it, in order.
   */
  lemma {:induction false} GroupSpec(ps: seq<(int, int)>)
    ensures Group(ps).keys == Dedupe(Map(ps, PairMember))
    ensures forall k :: k in Group(ps).owners <==> k in Group(ps).keys
    ensures forall k :: k in Group(ps).owners ==> Group(ps).owners[k] == OwnersOf(ps, k)
  {
    if ps != [] {
      var init := ps[..|ps| - 1];
      var p := ps[|ps| - 1];
      assert ps == init + [p];
      GroupSpec(init);
      MapSnoc(init, p, PairMember);
      assert Map(ps, PairMember)[..|ps| - 1] == Map(init, PairMember);
      var ix := Group(init);
      var r := Group(ps);
      assert r == Push(ix, p.0, p.1);
      forall k | k in r.owners ensures r.owners[k] == OwnersOf(ps, k) {
        if k != p.0 {
          assert OwnersOf(ps, k) == OwnersOf(init, k);
        } else if k !in ix.owners {
          assert OwnersOf(init, k) == [];
        }
      }
    }
  }

  /** `topicToLists`: for each topic id some list holds, the ids of the lists holding it. */
  function TopicToLists(lists: seq<ListEntity>): Index
  {
    Group(Pairs(lists, ListId, ListTopicIds))
  }

  /** `requestToTopics`: for each request id some topic holds, the ids of the topics holding it. */
  function RequestToTopics(topics: seq<TopicEntity>): Index
  {
    Group(Pairs(topics, TopicId, TopicRequestIds))
  }

  /** Steps 3 and 5: the nested `forEach` that fills the map. */
  method BuildIndex<T>(s: seq<T>, owner: T -> int, members: T -> seq<int>) returns (ix: Index)
    ensures ix == Group(Pairs(s, owner, members))
  {
    ix := EmptyIndex;
    var i := 0;
    while i < |s|
      invariant 0 <= i <= |s|
      invariant ix == Group(Pairs(s[..i], owner, members))
    {
      var ms := members(s[i]);
      var o := owner(s[i]);
      var done := Pairs(s[..i], owner, members);
      var j := 0;
      assert Tag(ms[..0], o) == [] && done + [] == done;
      while j < |ms|
        invariant 0 <= j <= |ms|
        invariant ix == Group(done + Tag(ms[..j], o))
      {
        var k := ms[j];
        ghost var prev := ix;
        if k !in ix.owners {
          ix := Index(ix.keys + [k], ix.owners[k := []]);
          assert ix.owners[k] + [o] == [o];
        }
        ix := Index(ix.keys, ix.owners[k := ix.owners[k] + [o]]);
        assert ix == Push(prev, k, o);
        var before := done + Tag(ms[..j], o);
        assert done + Tag(ms[..j + 1], o) == before + [(k, o)];
        assert (before + [(k, o)])[..|before|] == before;
        j := j + 1;
      }
      assert ms[..j] == ms;
      assert s[..i + 1][..i] == s[..i];
      i := i + 1;
    }
    assert s[..i] == s;
  }

  // ---------------------------------------------------------------------------
  // Steps 4 and 6: one copy per extra holder

  /** `ids.map(id => id === from ? to : id)`. */
  function ReplaceId(ids: seq<int>, from: int, to: int): (r: seq<int>)
    ensures |r| == |ids|
    ensures forall i :: 0 <= i < |ids| ==> r[i] == if ids[i] == from then to else ids[i]
    ensures from != to ==> from !in r
  {
    seq(|ids|, i requires 0 <= i < |ids| => if ids[i] == from then to else ids[i])
  }

  /** The snapshot's list `listId`, if any, pointed from topic `from` to topic `to`. */
  function RetargetList(lists: seq<ListEntity>, listId: int, from: int, to: int): (acts: seq<Action>)
    ensures acts == [] <==> !HasId(lists, ListId, listId)
  {
    match FindById(lists, ListId, listId)
    case None => []
    case Some(l) => [UpdateList(l.id, ListChanges(None, Some(ReplaceId(l.topicIds, from, to)), None))]
  }

  /** The snapshot's topic `topicId`, if any, pointed from request `from` to request `to`. */
  function RetargetTopic(topics: seq<TopicEntity>, topicId: int, from: int, to: int): (acts: seq<Action>)
    ensures acts == [] <==> !HasId(topics, TopicId, topicId)
  {
    match FindById(topics, TopicId, topicId)
    case None => []
    case Some(t) => [UpdateTopic(t.id, TopicChanges(None, Some(ReplaceId(t.requestIds, from, to))))]
  }

  /**
   * The loop over the holders after the first: each round adds a topic named
   * like the original under `n` and points the holder at it. `n` is computed
   * from the snapshot, so every round (and every shared topic) uses the same id.
   */
  function CopyTopicActions(topicId: int, name: string, holders: seq<int>, lists: seq<ListEntity>, n: int): (acts: seq<Action>)
    ensures holders != [] ==> |acts| > 0
  {
    if holders == [] then []
    else
      CopyTopicActions(topicId, name, holders[..|holders| - 1], lists, n)
      + [AddTopicWithId(n, name)] + RetargetList(lists, holders[|holders| - 1], topicId, n)
  }

  /** Step 4 for one entry of `topicToLists`: copies only when several lists hold an existing topic. */
  function SharedTopicActions(topicId: int, listIds: seq<int>, lists: seq<ListEntity>, topics: seq<TopicEntity>): (acts: seq<Action>)
    ensures acts != [] <==> |listIds| > 1 && HasId(topics, TopicId, topicId)
  {
    if |listIds| <= 1 then []
    else
      match FindById(topics, TopicId, topicId)
      case None => []
      // the snapshot holds a topic here, so `Math.max(...ids) + 1` is `NextId`
      case Some(orig) => CopyTopicActions(topicId, orig.name, listIds[1..], lists, NextId(Ids(topics, TopicId)))
  }

  /** Step 4 over the keys of `topicToLists`, in insertion order. */
  function Step4From(ix: Index, keys: seq<int>, lists: seq<ListEntity>, topics: seq<TopicEntity>): seq<Action>
  {
    if keys == [] then []
    else
      var k := keys[|keys| - 1];
      Step4From(ix, keys[..|keys| - 1], lists, topics)
      + (if k in ix.owners then SharedTopicActions(k, ix.owners[k], lists, topics) else [])
  }

  function Step4(lists: seq<ListEntity>, topics: seq<TopicEntity>): seq<Action>
  {
    var ix := TopicToLists(lists);
    Step4From(ix, ix.keys, lists, topics)
  }

  /** With two topic ids in the index, step 4 visits the first, then the second. */
  lemma Step4TwoKeys(lists: seq<ListEntity>, topics: seq<TopicEntity>, a: int, b: int, oa: seq<int>, ob: seq<int>)
    requires a != b && TopicToLists(lists) == Index([a, b], map[a := oa, b := ob])
    ensures Step4(lists, topics) == SharedTopicActions(a, oa, lists, topics) + SharedTopicActions(b, ob, lists, topics)
  {
    var ix := Index([a, b], map[a := oa, b := ob]);
    assert [a, b][..1] == [a] && [a][..0] == [];
    assert Step4From(ix, [a], lists, topics) == SharedTopicActions(a, oa, lists, topics);
  }

  /** The fields a copy takes from the original request, all but its id and description. */
  function CopyChanges(r: RequestEntity): RequestChanges
  {
    RequestChanges(None, Some(r.createdDate), Some(r.answeredDate), Some(r.answerDescription),
                   Some(r.prayerCount), Some(r.priority), Some(r.archived))
  }

  /** Adding a request and applying the copied fields gives the original under the new id. */
  lemma CopyIsOriginal(r: RequestEntity, n: int, now: string)
    ensures ApplyRequestChanges(NewRequest(n, r.description, now), CopyChanges(r)) == r.(id := n)
  {
  }

  /**
   * The loop over the holders after the first: each round adds a request with
   * the original's description and fields under `n` and points the holder at
   * it; `n` comes from the snapshot, as in step 4.
   */
  function CopyRequestActions(requestId: int, orig: RequestEntity, holders: seq<int>, topics: seq<TopicEntity>, n: int): (acts: seq<Action>)
    ensures holders != [] ==> |acts| > 0
  {
    if holders == [] then []
    else
      CopyRequestActions(requestId, orig, holders[..|holders| - 1], topics, n)
      + [AddRequestWithId(n, orig.description), UpdateRequest(n, CopyChanges(orig))]
      + RetargetTopic(topics, holders[|holders| - 1], requestId, n)
  }

  /** Step 6 for one entry of `requestToTopics`: copies only when several topics hold an existing request. */
  function SharedRequestActions(requestId: int, topicIds: seq<int>, topics: seq<TopicEntity>, requests: seq<RequestEntity>): (acts: seq<Action>)
    ensures acts != [] <==> |topicIds| > 1 && HasId(requests, RequestId, requestId)
  {
    if |topicIds| <= 1 then []
    else
      match FindById(requests, RequestId, requestId)
      case None => []
      case Some(orig) => CopyRequestActions(requestId, orig, topicIds[1..], topics, NextId(Ids(requests, RequestId)))
  }

  /** Step 6 over the keys of `requestToTopics`, in insertion order. */
  function Step6From(ix: Index, keys: seq<int>, topics: seq<TopicEntity>, requests: seq<RequestEntity>): seq<Action>
  {
    if keys == [] then []
    else
      var k := keys[|keys| - 1];
      Step6From(ix, keys[..|keys| - 1], topics, requests)
      + (if k in ix.owners then SharedRequestActions(k, ix.owners[k], topics, requests) else [])
  }

  function Step6(topics: seq<TopicEntity>, requests: seq<RequestEntity>): seq<Action>
  {
    var ix := RequestToTopics(topics);
    Step6From(ix, ix.keys, topics, requests)
  }

  // ---------------------------------------------------------------------------
  // Steps 7 and 8: what nothing holds

  /** Every id some owner holds. */
  function Referenced<T>(s: seq<T>, members: T -> seq<int>): set<int>
  {
    if s == [] then {} else Referenced(s[..|s| - 1], members) + Elements(members(s[|s| - 1]))
  }

  /** An id is referenced exactly when some owner holds it. */
  lemma {:induction false} ReferencedSpec<T>(s: seq<T>, members: T -> seq<int>, x: int)
    ensures x in Referenced(s, members) <==> exists j :: 0 <= j < |s| && x in members(s[j])
  {
    if s != [] {
      var init := s[..|s| - 1];
      ReferencedSpec(init, members, x);
      if x in Referenced(init, members) {
        var j :| 0 <= j < |init| && x in members(init[j]);
        assert s[j] == init[j];
      }
      if exists j :: 0 <= j < |s| && x in members(s[j]) {
        var j :| 0 <= j < |s| && x in members(s[j]);
        if j < |init| {
          assert init[j] == s[j];
        }
      }
    }
  }

  /**
   * `Array.from(new Set(ids)).filter(id => !referenced.has(id))`: the ids no
   * owner holds, each once, in order of first appearance.
   */
  function Unreferenced(ids: seq<int>, referenced: set<int>): (r: seq<int>)
    ensures Distinct(r)
    ensures forall x :: x in r <==> x in ids && x !in referenced
  {
    if ids == [] then []
    else
      var p := Unreferenced(ids[..|ids| - 1], referenced);
      var x := ids[|ids| - 1];
      assert forall z :: z in ids <==> z in ids[..|ids| - 1] || z == x;
      if x in referenced || x in p then p else (DistinctSnoc(p, x); p + [x])
  }

  /** The requests no topic holds. */
  function OrphanedRequests(topics: seq<TopicEntity>, requests: seq<RequestEntity>): seq<int>
  {
    Unreferenced(Ids(requests, RequestId), Referenced(topics, TopicRequestIds))
  }

  /** The topics no list holds. */
  function OrphanedTopics(lists: seq<ListEntity>, topics: seq<TopicEntity>): seq<int>
  {
    Unreferenced(Ids(topics, TopicId), Referenced(lists, ListTopicIds))
  }

  /** `lists.find(l => l.name === 'Orphaned Topics')`. */
  function OrphanList(lists: seq<ListEntity>): (r: Option<ListEntity>)
    ensures r.Some? ==> r.value in lists && r.value.name == OrphanedTopicsName
    ensures r.None? ==> forall l :: l in lists ==> l.name != OrphanedTopicsName
  {
    var i := FirstIndex(lists, (l: ListEntity) => l.name == OrphanedTopicsName);
    if i < |lists| then Some(lists[i]) else None
  }

  /** `Math.max(...ids, 0) + 1`: above every id and at least 1. */
  function FreshAfter(ids: seq<int>): (n: int)
    ensures n >= 1
    ensures forall x :: x in ids ==> x < n
  {
    MaxOrZero(ids) + 1
  }

  /**
   * Step 7: when some request is orphaned, a topic 'Orphaned Requests' under a
   * fresh id holding them, listed in the 'Orphaned Topics' list; a missing list
   * is requested with `addListWithId`.
   */
  function Step7(lists: seq<ListEntity>, topics: seq<TopicEntity>, requests: seq<RequestEntity>): (acts: seq<Action>)
    ensures acts == [] <==> OrphanedRequests(topics, requests) == []
  {
    var orphaned := OrphanedRequests(topics, requests);
    if orphaned == [] then []
    else
      var topicId := FreshAfter(Ids(topics, TopicId));
      [AddTopicWithId(topicId, OrphanedRequestsName), UpdateTopic(topicId, TopicChanges(None, Some(orphaned)))]
      + match OrphanList(lists)
        case None => [AddListWithId(FreshAfter(Ids(lists, ListId)), OrphanedTopicsName, Some([topicId]), None)]
        case Some(l) => [UpdateList(l.id, ListChanges(None, Some(l.topicIds + [topicId]), None))]
  }

  /** Step 8: the topics no list holds, appended to the 'Orphaned Topics' list or requested as a new one. */
  function Step8(lists: seq<ListEntity>, topics: seq<TopicEntity>): (acts: seq<Action>)
    ensures acts == [] <==> OrphanedTopics(lists, topics) == []
  {
    var orphaned := OrphanedTopics(lists, topics);
    if orphaned == [] then []
    else
      match OrphanList(lists)
      case None => [AddListWithId(FreshAfter(Ids(lists, ListId)), OrphanedTopicsName, Some(orphaned), None)]
      case Some(l) => [UpdateList(l.id, ListChanges(None, Some(l.topicIds + orphaned), None))]
  }

  /** A request is orphaned exactly when it exists and no topic holds it. */
  lemma OrphanedRequestsSpec(topics: seq<TopicEntity>, requests: seq<RequestEntity>, x: int)
    ensures x in OrphanedRequests(topics, requests) <==>
      HasId(requests, RequestId, x) && !exists j :: 0 <= j < |topics| && x in topics[j].requestIds
  {
    ReferencedSpec(topics, TopicRequestIds, x);
    if HasId(requests, RequestId, x) {
      var i :| 0 <= i < |requests| && RequestId(requests[i]) == x;
      assert Ids(requests, RequestId)[i] == x;
    }
    if x in Ids(requests, RequestId) {
      var i :| 0 <= i < |requests| && Ids(requests, RequestId)[i] == x;
      assert RequestId(requests[i]) == x;
    }
  }

  /** A topic is orphaned exactly when it exists and no list holds it. */
  lemma OrphanedTopicsSpec(lists: seq<ListEntity>, topics: seq<TopicEntity>, x: int)
    ensures x in OrphanedTopics(lists, topics) <==>
      HasId(topics, TopicId, x) && !exists j :: 0 <= j < |lists| && x in lists[j].topicIds
  {
    ReferencedSpec(lists, ListTopicIds, x);
    if HasId(topics, TopicId, x) {
      var i :| 0 <= i < |topics| && TopicId(topics[i]) == x;
      assert Ids(topics, TopicId)[i] == x;
    }
    if x in Ids(topics, TopicId) {
      var i :| 0 <= i < |topics| && Ids(topics, TopicId)[i] == x;
      assert TopicId(topics[i]) == x;
    }
  }

  // ---------------------------------------------------------------------------
  // The whole repair

  function TopicIdSet(st: AppState): set<int> { Elements(Ids(st.topics, TopicId)) }
  function RequestIdSet(st: AppState): set<int> { Elements(Ids(st.requests, RequestId)) }

  /** Every dispatch of `cleanupData`, in order, all computed from the snapshot `st`. */
  function CleanupActions(st: AppState): seq<Action>
  {
    Step1(st.lists, TopicIdSet(st)) + Step2(st.topics, RequestIdSet(st))
    + Step4(st.lists, st.topics) + Step6(st.topics, st.requests)
    + Step7(st.lists, st.topics, st.requests) + Step8(st.lists, st.topics)
  }

  // ---------------------------------------------------------------------------
  // A consistent store is left alone

  /** Every id held by the owners, owner by owner, in order. */
  function Flatten<T>(s: seq<T>, members: T -> seq<int>): seq<int>
  {
    if s == [] then [] else Flatten(s[..|s| - 1], members) + members(s[|s| - 1])
  }

  /** The members of the visited pairs are the owners' ids, flattened. */
  lemma {:induction false} PairMembersFlatten<T>(s: seq<T>, owner: T -> int, members: T -> seq<int>)
    ensures Map(Pairs(s, owner, members), PairMember) == Flatten(s, members)
  {
    if s != [] {
      var init := s[..|s| - 1];
      var last := s[|s| - 1];
      PairMembersFlatten(init, owner, members);
      MapAppend(Pairs(init, owner, members), Tag(members(last), owner(last)), PairMember);
      assert Map(Tag(members(last), owner(last)), PairMember) == members(last);
    }
  }

  lemma {:induction false} FlattenSpec<T>(s: seq<T>, members: T -> seq<int>, x: int)
    ensures x in Flatten(s, members) <==> exists j :: 0 <= j < |s| && x in members(s[j])
  {
    if s != [] {
      var init := s[..|s| - 1];
      FlattenSpec(init, members, x);
      if x in Flatten(init, members) {
        var j :| 0 <= j < |init| && x in members(init[j]);
        assert s[j] == init[j];
      }
      if exists j :: 0 <= j < |s| && x in members(s[j]) {
        var j :| 0 <= j < |s| && x in members(s[j]);
        if j < |init| {
          assert init[j] == s[j];
        }
      }
    }
  }

  /** The array under `k` is as long as `k` is often paired. */
  lemma {:induction false} OwnersOfCount(ps: seq<(int, int)>, k: int)
    ensures |OwnersOf(ps, k)| == multiset(Map(ps, PairMember))[k]
  {
    if ps != [] {
      var init := ps[..|ps| - 1];
      var p := ps[|ps| - 1];
      assert ps == init + [p];
      OwnersOfCount(init, k);
      MapSnoc(init, p, PairMember);
    }
  }

  lemma InIdSet<T>(s: seq<T>, key: T -> int, x: int)
    ensures x in Elements(Ids(s, key)) <==> HasId(s, key, x)
  {
    if HasId(s, key, x) {
      var i :| 0 <= i < |s| && key(s[i]) == x;
      assert Ids(s, key)[i] == x;
    }
  }

  /** Two sequences whose concatenation is empty are both empty. */
  lemma EmptyConcat<T>(a: seq<T>, b: seq<T>)
    ensures a + b == [] <==> a == [] && b == []
  {
    assert |a + b| == |a| + |b|;
  }

  lemma {:induction false} Step1EmptyAt(lists: seq<ListEntity>, topicIds: set<int>, i: nat)
    requires i < |lists| && Step1(lists, topicIds) == []
    ensures CleanListActions(lists[i], topicIds) == []
  {
    var init := lists[..|lists| - 1];
    EmptyConcat(Step1(init, topicIds), CleanListActions(lists[|lists| - 1], topicIds));
    if i < |init| {
      Step1EmptyAt(init, topicIds, i);
      assert lists[i] == init[i];
    }
  }


  /** When no list needs an update, step 1 dispatches nothing. */
  lemma {:induction false} Step1EmptyWhenAll(lists: seq<ListEntity>, topicIds: set<int>)
    requires forall i :: 0 <= i < |lists| ==> CleanListActions(lists[i], topicIds) == []
    ensures Step1(lists, topicIds) == []
  {
    if lists != [] {
      var init := lists[..|lists| - 1];
      forall i | 0 <= i < |init| ensures CleanListActions(init[i], topicIds) == [] {
        assert init[i] == lists[i];
      }
      Step1EmptyWhenAll(init, topicIds);
    }
  }

  /** Step 1 dispatches nothing exactly when every list holds only existing topics. */
  lemma Step1Empty(lists: seq<ListEntity>, topicIds: set<int>)
    ensures Step1(lists, topicIds) == [] <==>
      forall i, x :: 0 <= i < |lists| && x in lists[i].topicIds ==> x in topicIds
  {
    if Step1(lists, topicIds) == [] {
      forall i, x | 0 <= i < |lists| && x in lists[i].topicIds ensures x in topicIds {
        Step1EmptyAt(lists, topicIds, i);
        KeptSpec(lists[i].topicIds, topicIds);
      }
    }
    if forall i, x :: 0 <= i < |lists| && x in lists[i].topicIds ==> x in topicIds {
      forall i | 0 <= i < |lists| ensures CleanListActions(lists[i], topicIds) == [] {
        KeptSpec(lists[i].topicIds, topicIds);
      }
      Step1EmptyWhenAll(lists, topicIds);
    }
  }

  /** A step 2 that dispatches nothing leaves the topic at position `i` alone. */
  lemma {:induction false} Step2EmptyAt(topics: seq<TopicEntity>, requestIds: set<int>, i: nat)
    requires i < |topics| && Step2(topics, requestIds) == []
    ensures CleanTopicActions(topics[i], requestIds) == []
  {
    var init := topics[..|topics| - 1];
    EmptyConcat(Step2(init, requestIds), CleanTopicActions(topics[|topics| - 1], requestIds));
    if i < |init| {
      Step2EmptyAt(init, requestIds, i);
      assert topics[i] == init[i];
    }
  }


  /** When no topic needs an update, step 2 dispatches nothing. */
  lemma {:induction false} Step2EmptyWhenAll(topics: seq<TopicEntity>, requestIds: set<int>)
    requires forall i :: 0 <= i < |topics| ==> CleanTopicActions(topics[i], requestIds) == []
    ensures Step2(topics, requestIds) == []
  {
    if topics != [] {
      var init := topics[..|topics| - 1];
      forall i | 0 <= i < |init| ensures CleanTopicActions(init[i], requestIds) == [] {
        assert init[i] == topics[i];
      }
      Step2EmptyWhenAll(init, requestIds);
    }
  }

  /** Step 2 dispatches nothing exactly when every topic holds only existing requests. */
  lemma Step2Empty(topics: seq<TopicEntity>, requestIds: set<int>)
    ensures Step2(topics, requestIds) == [] <==>
      forall i, x :: 0 <= i < |topics| && x in topics[i].requestIds ==> x in requestIds
  {
    if Step2(topics, requestIds) == [] {
      forall i, x | 0 <= i < |topics| && x in topics[i].requestIds ensures x in requestIds {
        Step2EmptyAt(topics, requestIds, i);
        KeptSpec(topics[i].requestIds, requestIds);
      }
    }
    if forall i, x :: 0 <= i < |topics| && x in topics[i].requestIds ==> x in requestIds {
      forall i | 0 <= i < |topics| ensures CleanTopicActions(topics[i], requestIds) == [] {
        KeptSpec(topics[i].requestIds, requestIds);
      }
      Step2EmptyWhenAll(topics, requestIds);
    }
  }

  lemma {:induction false} Step4FromEmpty(ix: Index, keys: seq<int>, lists: seq<ListEntity>, topics: seq<TopicEntity>)
    ensures Step4From(ix, keys, lists, topics) == [] <==>
      forall i :: 0 <= i < |keys| && keys[i] in ix.owners ==> |ix.owners[keys[i]]| <= 1 || !HasId(topics, TopicId, keys[i])
  {
    if keys != [] {
      var init := keys[..|keys| - 1];
      Step4FromEmpty(ix, init, lists, topics);
      assert forall i :: 0 <= i < |init| ==> init[i] == keys[i];
    }
  }

  lemma {:induction false} Step6FromEmpty(ix: Index, keys: seq<int>, topics: seq<TopicEntity>, requests: seq<RequestEntity>)
    ensures Step6From(ix, keys, topics, requests) == [] <==>
      forall i :: 0 <= i < |keys| && keys[i] in ix.owners ==> |ix.owners[keys[i]]| <= 1 || !HasId(requests, RequestId, keys[i])
  {
    if keys != [] {
      var init := keys[..|keys| - 1];
      Step6FromEmpty(ix, init, topics, requests);
      assert forall i :: 0 <= i < |init| ==> init[i] == keys[i];
    }
  }

  /** The grouping's keys are the held ids, and the array under each is as long as the id is often held. */
  lemma GroupCounts<T>(s: seq<T>, owner: T -> int, members: T -> seq<int>, x: int)
    ensures var ix := Group(Pairs(s, owner, members));
      var held := Flatten(s, members);
      (x in ix.keys <==> x in held)
      && (x in ix.keys ==> x in ix.owners && |ix.owners[x]| == multiset(held)[x])
  {
    var ps := Pairs(s, owner, members);
    GroupSpec(ps);
    PairMembersFlatten(s, owner, members);
    OwnersOfCount(ps, x);
  }

  /** Step 4 dispatches nothing exactly when no existing topic is held twice. */
  lemma Step4Empty(lists: seq<ListEntity>, topics: seq<TopicEntity>)
    ensures var held := Flatten(lists, ListTopicIds);
      Step4(lists, topics) == [] <==> forall x :: x in held && HasId(topics, TopicId, x) ==> multiset(held)[x] <= 1
  {
    var held := Flatten(lists, ListTopicIds);
    var ix := TopicToLists(lists);
    Step4FromEmpty(ix, ix.keys, lists, topics);
    if Step4(lists, topics) == [] {
      forall x | x in held && HasId(topics, TopicId, x) ensures multiset(held)[x] <= 1 {
        GroupCounts(lists, ListId, ListTopicIds, x);
        var i :| 0 <= i < |ix.keys| && ix.keys[i] == x;
      }
    } else {
      var i :| 0 <= i < |ix.keys| && ix.keys[i] in ix.owners && !(|ix.owners[ix.keys[i]]| <= 1 || !HasId(topics, TopicId, ix.keys[i]));
      GroupCounts(lists, ListId, ListTopicIds, ix.keys[i]);
    }
  }

  /** Step 6 dispatches nothing exactly when no existing request is held twice. */
  lemma Step6Empty(topics: seq<TopicEntity>, requests: seq<RequestEntity>)
    ensures var held := Flatten(topics, TopicRequestIds);
      Step6(topics, requests) == [] <==> forall x :: x in held && HasId(requests, RequestId, x) ==> multiset(held)[x] <= 1
  {
    var held := Flatten(topics, TopicRequestIds);
    var ix := RequestToTopics(topics);
    Step6FromEmpty(ix, ix.keys, topics, requests);
    if Step6(topics, requests) == [] {
      forall x | x in held && HasId(requests, RequestId, x) ensures multiset(held)[x] <= 1 {
        GroupCounts(topics, TopicId, TopicRequestIds, x);
        var i :| 0 <= i < |ix.keys| && ix.keys[i] == x;
      }
    } else {
      var i :| 0 <= i < |ix.keys| && ix.keys[i] in ix.owners && !(|ix.owners[ix.keys[i]]| <= 1 || !HasId(requests, RequestId, ix.keys[i]));
      GroupCounts(topics, TopicId, TopicRequestIds, ix.keys[i]);
    }
  }

  /** No list holds a missing topic and no topic holds a missing request. */
  ghost predicate NoDangling(st: AppState)
  {
    (forall i, x :: 0 <= i < |st.lists| && x in st.lists[i].topicIds ==> HasId(st.topics, TopicId, x))
    && (forall i, x :: 0 <= i < |st.topics| && x in st.topics[i].requestIds ==> HasId(st.requests, RequestId, x))
  }

  /** No topic is held twice, by two lists or by one, and no request twice. */
  ghost predicate NoSharing(st: AppState)
  {
    Distinct(Flatten(st.lists, ListTopicIds)) && Distinct(Flatten(st.topics, TopicRequestIds))
  }

  /** Every request is held by some topic and every topic by some list. */
  ghost predicate NoOrphans(st: AppState)
  {
    (forall x :: HasId(st.requests, RequestId, x) ==> exists j :: 0 <= j < |st.topics| && x in st.topics[j].requestIds)
    && (forall x :: HasId(st.topics, TopicId, x) ==> exists j :: 0 <= j < |st.lists| && x in st.lists[j].topicIds)
  }

  /** The store shape on which `cleanupData` dispatches nothing: a tree of lists, topics and requests. */
  ghost predicate Consistent(st: AppState)
  {
    NoDangling(st) && NoSharing(st) && NoOrphans(st)
  }

  /** Steps 1 and 2 dispatch nothing exactly when nothing dangles. */
  lemma DanglingIdle(st: AppState)
    ensures Step1(st.lists, TopicIdSet(st)) == [] && Step2(st.topics, RequestIdSet(st)) == [] <==> NoDangling(st)
  {
    Step1Empty(st.lists, TopicIdSet(st));
    Step2Empty(st.topics, RequestIdSet(st));
    forall x ensures x in TopicIdSet(st) <==> HasId(st.topics, TopicId, x) {
      InIdSet(st.topics, TopicId, x);
    }
    forall x ensures x in RequestIdSet(st) <==> HasId(st.requests, RequestId, x) {
      InIdSet(st.requests, RequestId, x);
    }
  }

  /** An id held at most once wherever it names an entity, and held only where it does, is held at most once. */
  lemma HeldOnce<T>(held: seq<int>, s: seq<T>, key: T -> int)
    requires forall x :: x in held ==> HasId(s, key, x)
    ensures (forall x :: x in held && HasId(s, key, x) ==> multiset(held)[x] <= 1) <==> Distinct(held)
  {
    DistinctCounts(held);
    if forall x :: x in held && HasId(s, key, x) ==> multiset(held)[x] <= 1 {
      forall x ensures multiset(held)[x] <= 1 {
        if x !in held {
          assert x !in multiset(held);
        }
      }
    }
  }

  /** Once nothing dangles, steps 4 and 6 dispatch nothing exactly when nothing is shared. */
  lemma SharingIdle(st: AppState)
    requires NoDangling(st)
    ensures Step4(st.lists, st.topics) == [] && Step6(st.topics, st.requests) == [] <==> NoSharing(st)
  {
    Step4Empty(st.lists, st.topics);
    Step6Empty(st.topics, st.requests);
    var lh := Flatten(st.lists, ListTopicIds);
    var th := Flatten(st.topics, TopicRequestIds);
    forall x | x in lh ensures HasId(st.topics, TopicId, x) {
      FlattenSpec(st.lists, ListTopicIds, x);
    }
    forall x | x in th ensures HasId(st.requests, RequestId, x) {
      FlattenSpec(st.topics, TopicRequestIds, x);
    }
    HeldOnce(lh, st.topics, TopicId);
    HeldOnce(th, st.requests, RequestId);
  }

  /** Steps 7 and 8 dispatch nothing exactly when nothing is orphaned. */
  lemma OrphansIdle(st: AppState)
    ensures Step7(st.lists, st.topics, st.requests) == [] && Step8(st.lists, st.topics) == [] <==> NoOrphans(st)
  {
    forall x ensures x in OrphanedRequests(st.topics, st.requests) <==>
      HasId(st.requests, RequestId, x) && !exists j :: 0 <= j < |st.topics| && x in st.topics[j].requestIds
    {
      OrphanedRequestsSpec(st.topics, st.requests, x);
    }
    forall x ensures x in OrphanedTopics(st.lists, st.topics) <==>
      HasId(st.topics, TopicId, x) && !exists j :: 0 <= j < |st.lists| && x in st.lists[j].topicIds
    {
      OrphanedTopicsSpec(st.lists, st.topics, x);
    }
    if OrphanedRequests(st.topics, st.requests) != [] {
      var x := OrphanedRequests(st.topics, st.requests)[0];
      assert x in OrphanedRequests(st.topics, st.requests);
    }
    if OrphanedTopics(st.lists, st.topics) != [] {
      var x := OrphanedTopics(st.lists, st.topics)[0];
      assert x in OrphanedTopics(st.lists, st.topics);
    }
  }

  /**
   * `cleanupData` dispatches nothing exactly when the store is already
   * consistent: it acts only on the defects it repairs.
   */
  lemma CleanupIdleIffConsistent(st: AppState)
    ensures CleanupActions(st) == [] <==> Consistent(st)
  {
    DanglingIdle(st);
    OrphansIdle(st);
    if NoDangling(st) {
      SharingIdle(st);
    }
  }

  // ---------------------------------------------------------------------------
  // Step 4 as written: one id for every copy

  /** Two lists that both hold the topics 1 'A' and 2 'B'. */
  const SharedLists := [ListEntity(1, "a", [1, 2], false), ListEntity(2, "b", [1, 2], false)]
  const SharedTopics := [TopicEntity(1, "A", []), TopicEntity(2, "B", [])]

  /** The nested walk visits list 1's topics, then list 2's. */
  lemma SharedPairs()
    ensures Pairs(SharedLists, ListId, ListTopicIds) == [(1, 1), (2, 1), (1, 2), (2, 2)]
  {
    var l1 := SharedLists[..1];
    assert l1[..0] == [];
    assert Pairs(l1, ListId, ListTopicIds) == Tag([1, 2], 1);
    assert SharedLists[..1] == l1;
  }

  /** The first three pairs: topic 1 with list 1, topic 2 with list 1, topic 1 with list 2. */
  lemma SharedFirstPushes()
    ensures PushAll(EmptyIndex, [(1, 1), (2, 1), (1, 2)]) == Index([1, 2], map[1 := [1, 2], 2 := [1]])
  {
    var ps := [(1, 1), (2, 1), (1, 2)];
    assert ps[..1] == [(1, 1)] && [(1, 1)][..0] == [];
    assert PushAll(EmptyIndex, [(1, 1)]) == Index([1], map[1 := [1]]);
    assert ps[..2] == [(1, 1), (2, 1)] && [(1, 1), (2, 1)][..1] == [(1, 1)];
    assert PushAll(EmptyIndex, [(1, 1), (2, 1)]) == Index([1, 2], map[1 := [1], 2 := [1]]);
  }

  lemma SharedTopicsGrouped()
    ensures TopicToLists(SharedLists) == Index([1, 2], map[1 := [1, 2], 2 := [1, 2]])
  {
    SharedPairs();
    var ps := [(1, 1), (2, 1), (1, 2), (2, 2)];
    assert ps[..3] == [(1, 1), (2, 1), (1, 2)];
    SharedFirstPushes();
    var ix := Index([1, 2], map[1 := [1, 2], 2 := [1]]);
    assert TopicToLists(SharedLists) == PushAll(EmptyIndex, ps) == Push(ix, 2, 2);
    assert ix.owners[2] + [2] == [1, 2];
    assert ix.owners[2 := [1, 2]] == map[1 := [1, 2], 2 := [1, 2]];
  }

  /** Each shared topic is copied once, under 3, for list 2. */
  lemma SharedTopicCopied(k: int)
    requires k == 1 || k == 2
    ensures SharedTopicActions(k, [1, 2], SharedLists, SharedTopics)
      == [AddTopicWithId(3, SharedTopics[k - 1].name), UpdateList(2, ListChanges(None, Some(ReplaceId([1, 2], k, 3)), None))]
  {
    SharedSnapshotIds(k);
    assert [1, 2][1..] == [2];
    SharedCopyForList2(k, SharedTopics[k - 1].name);
  }

  /** In the snapshot, the next topic id is 3 and topics 1 and 2 are found. */
  lemma SharedSnapshotIds(k: int)
    requires k == 1 || k == 2
    ensures NextId(Ids(SharedTopics, TopicId)) == 3
    ensures FindById(SharedTopics, TopicId, k) == Some(SharedTopics[k - 1])
  {
    assert Ids(SharedTopics, TopicId) == [1, 2];
    assert NextId([1, 2]) == 3;
  }

  /** Copying topic `k` for list 2 alone: one add, one retarget of list 2. */
  lemma SharedCopyForList2(k: int, name: string)
    requires k == 1 || k == 2
    ensures CopyTopicActions(k, name, [2], SharedLists, 3)
      == [AddTopicWithId(3, name), UpdateList(2, ListChanges(None, Some(ReplaceId([1, 2], k, 3)), None))]
  {
    assert FindById(SharedLists, ListId, 2) == Some(SharedLists[1]);
    assert [2][..0] == [];
  }

  /** Topic 1 is visited before topic 2. */
  lemma SharedTopicsInOrder()
    ensures Step4(SharedLists, SharedTopics)
      == SharedTopicActions(1, [1, 2], SharedLists, SharedTopics) + SharedTopicActions(2, [1, 2], SharedLists, SharedTopics)
  {
    SharedTopicsGrouped();
    Step4TwoKeys(SharedLists, SharedTopics, 1, 2, [1, 2], [1, 2]);
  }

  lemma SharedTopicsActions()
    ensures Step4(SharedLists, SharedTopics) == [
      AddTopicWithId(3, "A"), UpdateList(2, ListChanges(None, Some([3, 2]), None)),
      AddTopicWithId(3, "B"), UpdateList(2, ListChanges(None, Some([1, 3]), None))]
  {
    SharedTopicsInOrder();
    SharedTopicCopied(1);
    SharedTopicCopied(2);
    SharedReplacements();
  }

  /** Replacing either shared topic by 3 in list 2's ids. */
  lemma SharedReplacements()
    ensures ReplaceId([1, 2], 1, 3) == [3, 2] && ReplaceId([1, 2], 2, 3) == [1, 3]
  {
    assert ReplaceId([1, 2], 1, 3) == [3, 2];
    assert ReplaceId([1, 2], 2, 3) == [1, 3];
  }

  /** The copy of 'A' is stored under 3 and list 2 points at it. */
  lemma SharedFirstRound(now: string)
    ensures DispatchAll(AppState(SharedLists, SharedTopics, []),
                        [AddTopicWithId(3, "A"), UpdateList(2, ListChanges(None, Some([3, 2]), None))], now)
      == AppState([SharedLists[0], ListEntity(2, "b", [3, 2], false)], SharedTopics + [TopicEntity(3, "A", [])], [])
  {
    var st := AppState(SharedLists, SharedTopics, []);
    var a := AddTopicWithId(3, "A");
    var b := UpdateList(2, ListChanges(None, Some([3, 2]), None));
    DispatchAllPair(st, a, b, now);
    assert !HasId(SharedTopics, TopicId, 3);
    UpdateListAt(SharedLists, 1, ListChanges(None, Some([3, 2]), None));
  }

  /** The copy of 'B' finds 3 taken and is dropped; list 2 is rewritten from the snapshot. */
  lemma SharedSecondRound(now: string)
    ensures DispatchAll(AppState([SharedLists[0], ListEntity(2, "b", [3, 2], false)], SharedTopics + [TopicEntity(3, "A", [])], []),
                        [AddTopicWithId(3, "B"), UpdateList(2, ListChanges(None, Some([1, 3]), None))], now)
      == AppState([SharedLists[0], ListEntity(2, "b", [1, 3], false)], SharedTopics + [TopicEntity(3, "A", [])], [])
  {
    var lists := [SharedLists[0], ListEntity(2, "b", [3, 2], false)];
    var topics := SharedTopics + [TopicEntity(3, "A", [])];
    DispatchAllPair(AppState(lists, topics, []), AddTopicWithId(3, "B"), UpdateList(2, ListChanges(None, Some([1, 3]), None)), now);
    assert TopicId(topics[2]) == 3;
    UpdateListAt(lists, 1, ListChanges(None, Some([1, 3]), None));
  }

  /**
   * Both copies are requested under id 3 and both list updates start from the
   * snapshot, so the second update undoes the first: list 2 ends up holding
   * topic 1 again, still shared with list 1, and the copy of 'B' is never
   * stored.
   */
  lemma SharedTopicsCollide(now: string)
    ensures var r := DispatchAll(AppState(SharedLists, SharedTopics, []), Step4(SharedLists, SharedTopics), now);
      r.lists == [ListEntity(1, "a", [1, 2], false), ListEntity(2, "b", [1, 3], false)]
      && r.topics == SharedTopics + [TopicEntity(3, "A", [])]
  {
    SharedTopicsActions();
    var ab := [AddTopicWithId(3, "A"), UpdateList(2, ListChanges(None, Some([3, 2]), None))];
    var cd := [AddTopicWithId(3, "B"), UpdateList(2, ListChanges(None, Some([1, 3]), None))];
    assert Step4(SharedLists, SharedTopics) == ab + cd;
    DispatchAllAppend(AppState(SharedLists, SharedTopics, []), ab, cd, now);
    SharedFirstRound(now);
    SharedSecondRound(now);
  }

  // ---------------------------------------------------------------------------
  // The component's loops

  /** Step 1: `lists.forEach`, dispatching an update for each list that held a missing topic. */
  method DispatchStep1(st0: AppState, lists: seq<ListEntity>, topicIds: set<int>, now: string) returns (st: AppState)
    ensures st == DispatchAll(st0, Step1(lists, topicIds), now)
  {
    st := st0;
    var i := 0;
    while i < |lists|
      invariant 0 <= i <= |lists|
      invariant st == DispatchAll(st0, Step1(lists[..i], topicIds), now)
    {
      var list := lists[i];
      var cleaned := Kept(list.topicIds, topicIds);
      ghost var acts := CleanListActions(list, topicIds);
      assert lists[..i + 1][..i] == lists[..i];
      DispatchAllAppend(st0, Step1(lists[..i], topicIds), acts, now);
      if |cleaned| != |list.topicIds| {
        DispatchAllOne(st, acts[0], now);
        st := Dispatch(st, UpdateList(list.id, ListChanges(None, Some(cleaned), None)), now);
      }
      i := i + 1;
    }
    assert lists[..i] == lists;
  }

  /** Step 2: `topics.forEach`, dispatching an update for each topic that held a missing request. */
  method DispatchStep2(st0: AppState, topics: seq<TopicEntity>, requestIds: set<int>, now: string) returns (st: AppState)
    ensures st == DispatchAll(st0, Step2(topics, requestIds), now)
  {
    st := st0;
    var i := 0;
    while i < |topics|
      invariant 0 <= i <= |topics|
      invariant st == DispatchAll(st0, Step2(topics[..i], requestIds), now)
    {
      var topic := topics[i];
      var cleaned := Kept(topic.requestIds, requestIds);
      ghost var acts := CleanTopicActions(topic, requestIds);
      assert topics[..i + 1][..i] == topics[..i];
      DispatchAllAppend(st0, Step2(topics[..i], requestIds), acts, now);
      if |cleaned| != |topic.requestIds| {
        DispatchAllOne(st, acts[0], now);
        st := Dispatch(st, UpdateTopic(topic.id, TopicChanges(None, Some(cleaned))), now);
      }
      i := i + 1;
    }
    assert topics[..i] == topics;
  }

  /** One round of step 4's inner loop: the copy under `n` and the holder's update. */
  method CopyTopicRound(st0: AppState, topicId: int, name: string, listId: int, lists: seq<ListEntity>, n: int, now: string)
    returns (st: AppState)
    ensures st == DispatchAll(st0, [AddTopicWithId(n, name)] + RetargetList(lists, listId, topicId, n), now)
  {
    var add := AddTopicWithId(n, name);
    st := Dispatch(st0, add, now);
    var list := FindById(lists, ListId, listId);
    if list.Some? {
      var update := UpdateList(list.value.id, ListChanges(None, Some(ReplaceId(list.value.topicIds, topicId, n)), None));
      DispatchAllPair(st0, add, update, now);
      st := Dispatch(st, update, now);
    } else {
      DispatchAllOne(st0, add, now);
    }
  }

  /** Step 4's inner loop: `for (let i = 1; i < listIds.length; i++)`. */
  method CopyTopicLoop(st0: AppState, topicId: int, name: string, listIds: seq<int>, lists: seq<ListEntity>, n: int, now: string)
    returns (st: AppState)
    requires |listIds| > 1
    ensures st == DispatchAll(st0, CopyTopicActions(topicId, name, listIds[1..], lists, n), now)
  {
    st := st0;
    var j := 1;
    assert listIds[1..1] == [];
    while j < |listIds|
      invariant 1 <= j <= |listIds|
      invariant st == DispatchAll(st0, CopyTopicActions(topicId, name, listIds[1..j], lists, n), now)
    {
      ghost var done := CopyTopicActions(topicId, name, listIds[1..j], lists, n);
      ghost var round := [AddTopicWithId(n, name)] + RetargetList(lists, listIds[j], topicId, n);
      assert listIds[1..j + 1][..j - 1] == listIds[1..j];
      assert CopyTopicActions(topicId, name, listIds[1..j + 1], lists, n) == done + round;
      DispatchAllAppend(st0, done, round, now);
      st := CopyTopicRound(st, topicId, name, listIds[j], lists, n, now);
      j := j + 1;
    }
    assert listIds[1..j] == listIds[1..];
  }

  /** Step 4: `topicToLists.forEach`, copying each existing topic once per list after the first. */
  method DispatchStep4(st0: AppState, ix: Index, lists: seq<ListEntity>, topics: seq<TopicEntity>, now: string)
    returns (st: AppState)
    ensures st == DispatchAll(st0, Step4From(ix, ix.keys, lists, topics), now)
  {
    st := st0;
    var i := 0;
    while i < |ix.keys|
      invariant 0 <= i <= |ix.keys|
      invariant st == DispatchAll(st0, Step4From(ix, ix.keys[..i], lists, topics), now)
    {
      var topicId := ix.keys[i];
      ghost var before := Step4From(ix, ix.keys[..i], lists, topics);
      ghost var acts := if topicId in ix.owners then SharedTopicActions(topicId, ix.owners[topicId], lists, topics) else [];
      assert ix.keys[..i + 1][..i] == ix.keys[..i];
      DispatchAllAppend(st0, before, acts, now);
      if topicId in ix.owners && |ix.owners[topicId]| > 1 {
        var listIds := ix.owners[topicId];
        var original := FindById(topics, TopicId, topicId);
        if original.Some? {
          var ids := Ids(topics, TopicId);
          var newTopicId := MaxOf(ids) + 1;
          assert newTopicId == NextId(ids);
          st := CopyTopicLoop(st, topicId, original.value.name, listIds, lists, newTopicId, now);
        }
      }
      i := i + 1;
    }
    assert ix.keys[..i] == ix.keys;
  }

  /** One round of step 6's inner loop: the copy under `n`, its fields, and the holder's update. */
  method CopyRequestRound(st0: AppState, requestId: int, orig: RequestEntity, topicId: int, topics: seq<TopicEntity>, n: int, now: string)
    returns (st: AppState)
    ensures st == DispatchAll(st0, [AddRequestWithId(n, orig.description), UpdateRequest(n, CopyChanges(orig))]
                                   + RetargetTopic(topics, topicId, requestId, n), now)
  {
    var add := AddRequestWithId(n, orig.description);
    var fields := UpdateRequest(n, CopyChanges(orig));
    DispatchAllPair(st0, add, fields, now);
    st := Dispatch(st0, add, now);
    st := Dispatch(st, fields, now);
    var topic := FindById(topics, TopicId, topicId);
    if topic.Some? {
      var update := UpdateTopic(topic.value.id, TopicChanges(None, Some(ReplaceId(topic.value.requestIds, requestId, n))));
      DispatchAllAppend(st0, [add, fields], [update], now);
      DispatchAllOne(st, update, now);
      st := Dispatch(st, update, now);
    } else {
      assert [add, fields] + [] == [add, fields];
    }
  }

  /** Step 6's inner loop: `for (let i = 1; i < topicIds.length; i++)`. */
  method CopyRequestLoop(st0: AppState, requestId: int, orig: RequestEntity, topicIds: seq<int>, topics: seq<TopicEntity>, n: int, now: string)
    returns (st: AppState)
    requires |topicIds| > 1
    ensures st == DispatchAll(st0, CopyRequestActions(requestId, orig, topicIds[1..], topics, n), now)
  {
    st := st0;
    var j := 1;
    assert topicIds[1..1] == [];
    while j < |topicIds|
      invariant 1 <= j <= |topicIds|
      invariant st == DispatchAll(st0, CopyRequestActions(requestId, orig, topicIds[1..j], topics, n), now)
    {
      ghost var done := CopyRequestActions(requestId, orig, topicIds[1..j], topics, n);
      ghost var round := [AddRequestWithId(n, orig.description), UpdateRequest(n, CopyChanges(orig))]
                         + RetargetTopic(topics, topicIds[j], requestId, n);
      assert topicIds[1..j + 1][..j - 1] == topicIds[1..j];
      assert CopyRequestActions(requestId, orig, topicIds[1..j + 1], topics, n) == done + round;
      DispatchAllAppend(st0, done, round, now);
      st := CopyRequestRound(st, requestId, orig, topicIds[j], topics, n, now);
      j := j + 1;
    }
    assert topicIds[1..j] == topicIds[1..];
  }

  /** Step 6: `requestToTopics.forEach`, copying each existing request once per topic after the first. */
  method DispatchStep6(st0: AppState, ix: Index, topics: seq<TopicEntity>, requests: seq<RequestEntity>, now: string)
    returns (st: AppState)
    ensures st == DispatchAll(st0, Step6From(ix, ix.keys, topics, requests), now)
  {
    st := st0;
    var i := 0;
    while i < |ix.keys|
      invariant 0 <= i <= |ix.keys|
      invariant st == DispatchAll(st0, Step6From(ix, ix.keys[..i], topics, requests), now)
    {
      var requestId := ix.keys[i];
      ghost var before := Step6From(ix, ix.keys[..i], topics, requests);
      ghost var acts := if requestId in ix.owners then SharedRequestActions(requestId, ix.owners[requestId], topics, requests) else [];
      assert ix.keys[..i + 1][..i] == ix.keys[..i];
      DispatchAllAppend(st0, before, acts, now);
      if requestId in ix.owners && |ix.owners[requestId]| > 1 {
        var topicIds := ix.owners[requestId];
        var original := FindById(requests, RequestId, requestId);
        if original.Some? {
          var ids := Ids(requests, RequestId);
          var newRequestId := MaxOf(ids) + 1;
          assert newRequestId == NextId(ids);
          st := CopyRequestLoop(st, requestId, original.value, topicIds, topics, newRequestId, now);
        }
      }
      i := i + 1;
    }
    assert ix.keys[..i] == ix.keys;
  }

  /** Steps 7 and 8: the nested `forEach` filling the set of referenced ids. */
  method ReferencedSet<T>(s: seq<T>, members: T -> seq<int>) returns (r: set<int>)
    ensures r == Referenced(s, members)
  {
    r := {};
    var i := 0;
    while i < |s|
      invariant 0 <= i <= |s|
      invariant r == Referenced(s[..i], members)
    {
      var ms := members(s[i]);
      var j := 0;
      while j < |ms|
        invariant 0 <= j <= |ms|
        invariant r == Referenced(s[..i], members) + Elements(ms[..j])
      {
        ElementsSnoc(ms[..j], ms[j]);
        assert ms[..j + 1] == ms[..j] + [ms[j]];
        r := r + {ms[j]};
        j := j + 1;
      }
      assert ms[..j] == ms;
      assert s[..i + 1][..i] == s[..i];
      i := i + 1;
    }
    assert s[..i] == s;
  }

  /** Step 7 as the component runs it. */
  method DispatchStep7(st0: AppState, lists: seq<ListEntity>, topics: seq<TopicEntity>, requests: seq<RequestEntity>, now: string)
    returns (st: AppState)
    ensures st == DispatchAll(st0, Step7(lists, topics, requests), now)
  {
    var referenced := ReferencedSet(topics, TopicRequestIds);
    var orphaned := Unreferenced(Ids(requests, RequestId), referenced);
    st := st0;
    if |orphaned| > 0 {
      var topicId := MaxOrZero(Ids(topics, TopicId)) + 1;
      var add := AddTopicWithId(topicId, OrphanedRequestsName);
      var fill := UpdateTopic(topicId, TopicChanges(None, Some(orphaned)));
      var target := OrphanList(lists);
      var link := if target.None? then AddListWithId(MaxOrZero(Ids(lists, ListId)) + 1, OrphanedTopicsName, Some([topicId]), None)
                  else UpdateList(target.value.id, ListChanges(None, Some(target.value.topicIds + [topicId]), None));
      assert Step7(lists, topics, requests) == [add, fill] + [link];
      DispatchAllAppend(st0, [add, fill], [link], now);
      DispatchAllPair(st0, add, fill, now);
      st := Dispatch(st, add, now);
      st := Dispatch(st, fill, now);
      DispatchAllOne(st, link, now);
      st := Dispatch(st, link, now);
    }
  }

  /** Step 8 as the component runs it. */
  method DispatchStep8(st0: AppState, lists: seq<ListEntity>, topics: seq<TopicEntity>, now: string)
    returns (st: AppState)
    ensures st == DispatchAll(st0, Step8(lists, topics), now)
  {
    var referenced := ReferencedSet(lists, ListTopicIds);
    var orphaned := Unreferenced(Ids(topics, TopicId), referenced);
    st := st0;
    if |orphaned| > 0 {
      var target := OrphanList(lists);
      var link := if target.None? then AddListWithId(MaxOrZero(Ids(lists, ListId)) + 1, OrphanedTopicsName, Some(orphaned), None)
                  else UpdateList(target.value.id, ListChanges(None, Some(target.value.topicIds + orphaned), None));
      DispatchAllOne(st0, link, now);
      st := Dispatch(st, link, now);
    }
  }

  /**
   * `cleanupData`: the snapshot is read once, then the eight steps run in
   * order; the state reached is the snapshot with every dispatch of
   * `CleanupActions` applied.
   */
  method CleanupData(st0: AppState, now: string) returns (st: AppState)
    ensures st == DispatchAll(st0, CleanupActions(st0), now)
  {
    var lists := st0.lists;
    var topics := st0.topics;
    var requests := st0.requests;
    var topicIds := Elements(Ids(topics, TopicId));
    var requestIds := Elements(Ids(requests, RequestId));
    ghost var a1 := Step1(lists, topicIds);
    ghost var a2 := Step2(topics, requestIds);
    ghost var a4 := Step4(lists, topics);
    ghost var a6 := Step6(topics, requests);
    ghost var a7 := Step7(lists, topics, requests);
    ghost var a8 := Step8(lists, topics);

    st := DispatchStep1(st0, lists, topicIds, now);
    st := DispatchStep2(st, topics, requestIds, now);
    DispatchAllAppend(st0, a1, a2, now);
    var topicToLists := BuildIndex(lists, ListId, ListTopicIds);
    st := DispatchStep4(st, topicToLists, lists, topics, now);
    DispatchAllAppend(st0, a1 + a2, a4, now);
    var requestToTopics := BuildIndex(topics, TopicId, TopicRequestIds);
    st := DispatchStep6(st, requestToTopics, topics, requests, now);
    DispatchAllAppend(st0, a1 + a2 + a4, a6, now);
    st := DispatchStep7(st, lists, topics, requests, now);
    DispatchAllAppend(st0, a1 + a2 + a4 + a6, a7, now);
    st := DispatchStep8(st, lists, topics, now);
    DispatchAllAppend(st0, a1 + a2 + a4 + a6 + a7, a8, now);
  }
}
