/**
 * `ImportExportService`, part two: the merge-mode import. Lists and topics are
 * matched by name and requests by topic and description; unmatched records
 * are added with ids computed from a snapshot of the store taken before each
 * phase, and the old-to-new id maps are filled as the loops go.
 */
module ImportMerge {
  import opened Wrappers
  import opened Numbers
  import opened Collections
  import opened Store
  import opened Stats
  import opened ImportExport
  import opened TopicIds

  // ---------------------------------------------------------------------------
  // Lists (matched by name)

  /** The position of the first current list named like `l`, or `|cur|`. */
  function ListMatch(cur: seq<ListEntity>, l: ImportedList): (i: nat)
    ensures i <= |cur|
    ensures i < |cur| ==> cur[i].name == l.name
    ensures forall j :: 0 <= j < i ==> cur[j].name != l.name
  {
    FirstIndex(cur, (e: ListEntity) => e.name == l.name)
  }

  /** The id an imported list is mapped to: the matched list's, else the snapshot's next id. */
  function ListTarget(cur: seq<ListEntity>, l: ImportedList): (id: int)
    ensures ListMatch(cur, l) < |cur| ==> id == cur[ListMatch(cur, l)].id
    ensures ListMatch(cur, l) == |cur| ==> id == NextId(Ids(cur, ListId))
  {
    var i := ListMatch(cur, l);
    if i < |cur| then cur[i].id else NextId(Ids(cur, ListId))
  }

  /** A matched list gets the imported `excludeFromAll` (missing reads as false); an unmatched one is added by name. */
  function ListMergeAction(cur: seq<ListEntity>, l: ImportedList): Action
  {
    var i := ListMatch(cur, l);
    if i < |cur| then UpdateList(cur[i].id, ListChanges(None, None, Some(GetOr(l.excludeFromAll, false))))
    else AddList(l.name)
  }

  function ListMergeActions(cur: seq<ListEntity>, ls: seq<ImportedList>): seq<Action>
  {
    if ls == [] then [] else ListMergeActions(cur, ls[..|ls| - 1]) + [ListMergeAction(cur, ls[|ls| - 1])]
  }

  /** `idMappings.lists` after the loop. */
  function ListMapping(cur: seq<ListEntity>, ls: seq<ImportedList>): map<int, int>
  {
    if ls == [] then map[] else ListMapping(cur, ls[..|ls| - 1])[ls[|ls| - 1].id := ListTarget(cur, ls[|ls| - 1])]
  }

  /** Every imported list is mapped; with unique imported ids, to its name match or the snapshot's next id. */
  lemma {:induction false} ListMappingSpec(cur: seq<ListEntity>, ls: seq<ImportedList>)
    ensures forall id :: id in ListMapping(cur, ls) <==> exists l :: l in ls && l.id == id
    ensures UniqueKeys(ls, ImportedListId) ==>
      forall l :: l in ls ==> ListMapping(cur, ls)[l.id] == ListTarget(cur, l)
    decreases |ls|
  {
    if ls != [] {
      var p := ls[..|ls| - 1];
      var last := ls[|ls| - 1];
      ListMappingSpec(cur, p);
      assert ls == p + [last];
      if UniqueKeys(ls, ImportedListId) {
        assert UniqueKeys(p, ImportedListId);
        forall l | l in ls ensures ListMapping(cur, ls)[l.id] == ListTarget(cur, l) {
          if l != last {
            var k :| 0 <= k < |ls| && ls[k] == l;
            assert k < |p| && p[k] == l;
            assert l.id != last.id;
          }
        }
      }
    }
  }

  /** Two new lists both map to the same snapshot id, though `addList` gives the second the next one. */
  lemma NewListsShareMappedId()
    ensures var ls := [ImportedList(7, "A", None, None), ImportedList(8, "B", None, None)];
      var m := ListMapping([], ls);
      m[7] == 1 && m[8] == 1
      && DispatchAll(AppState([], [], []), ListMergeActions([], ls), "").lists
         == [ListEntity(1, "A", [], false), ListEntity(2, "B", [], false)]
  {
    var ls := [ImportedList(7, "A", None, None), ImportedList(8, "B", None, None)];
    assert ls[..1] == [ls[0]] && [ls[0]][..0] == [];
    assert ListMergeActions([], ls) == [AddList("A"), AddList("B")];
    var s1 := Dispatch(AppState([], [], []), AddList("A"), "");
    assert s1.lists == [ListEntity(1, "A", [], false)];
    assert Ids(s1.lists, ListId) == [1];
    var s2 := Dispatch(s1, AddList("B"), "");
    assert !HasId(s1.lists, ListId, 2);
    assert s2.lists == [ListEntity(1, "A", [], false), ListEntity(2, "B", [], false)];
    assert [AddList("A"), AddList("B")][1..] == [AddList("B")] && [AddList("B")][1..] == [];
  }

  // ---------------------------------------------------------------------------
  // Topics (matched by name)

  function TopicMatch(cur: seq<TopicEntity>, t: ImportedTopic): (i: nat)
    ensures i <= |cur|
    ensures i < |cur| ==> cur[i].name == t.name
    ensures forall j :: 0 <= j < i ==> cur[j].name != t.name
  {
    FirstIndex(cur, (e: TopicEntity) => e.name == t.name)
  }

  /** As written: a matched topic's id, else the next id of the snapshot taken before the loop. */
  function TopicTarget(cur: seq<TopicEntity>, t: ImportedTopic): (id: int)
    ensures TopicMatch(cur, t) < |cur| ==> id == cur[TopicMatch(cur, t)].id
    ensures TopicMatch(cur, t) == |cur| ==> id == NextId(Ids(cur, TopicId))
  {
    var i := TopicMatch(cur, t);
    if i < |cur| then cur[i].id else NextId(Ids(cur, TopicId))
  }

  function TopicMergeAction(cur: seq<TopicEntity>, t: ImportedTopic): Action
  {
    var i := TopicMatch(cur, t);
    if i < |cur| then UpdateTopic(cur[i].id, TopicChanges(Some(t.name), None))
    else AddTopicWithId(NextId(Ids(cur, TopicId)), t.name)
  }

  function TopicMergeActions(cur: seq<TopicEntity>, ts: seq<ImportedTopic>): seq<Action>
  {
    if ts == [] then [] else TopicMergeActions(cur, ts[..|ts| - 1]) + [TopicMergeAction(cur, ts[|ts| - 1])]
  }

  /** `idMappings.topics` after the loop. */
  function TopicMapping(cur: seq<TopicEntity>, ts: seq<ImportedTopic>): map<int, int>
  {
    if ts == [] then map[] else TopicMapping(cur, ts[..|ts| - 1])[ts[|ts| - 1].id := TopicTarget(cur, ts[|ts| - 1])]
  }

  /**
   * Two new topics get the same id: the second `addTopicWithId` finds it
   * taken and is ignored, so that topic is never stored, yet both old ids map
   * to the first one.
   */
  lemma NewTopicsCollide()
    ensures var ts := [ImportedTopic(7, "A", None), ImportedTopic(8, "B", None)];
      var m := TopicMapping([], ts);
      m[7] == 1 && m[8] == 1
      && DispatchAll(AppState([], [], []), TopicMergeActions([], ts), "").topics == [TopicEntity(1, "A", [])]
  {
    var ts := [ImportedTopic(7, "A", None), ImportedTopic(8, "B", None)];
    assert ts[..1] == [ts[0]] && [ts[0]][..0] == [];
    assert TopicMergeActions([], ts) == [AddTopicWithId(1, "A"), AddTopicWithId(1, "B")];
    var s1 := Dispatch(AppState([], [], []), AddTopicWithId(1, "A"), "");
    assert s1.topics == [TopicEntity(1, "A", [])];
    assert TopicId(s1.topics[0]) == 1;
    assert HasId(s1.topics, TopicId, 1);
    assert [AddTopicWithId(1, "A"), AddTopicWithId(1, "B")][1..] == [AddTopicWithId(1, "B")];
    assert [AddTopicWithId(1, "B")][1..] == [];
  }

  /** How many of `ts` match no current topic by name. */
  function NewTopicCount(cur: seq<TopicEntity>, ts: seq<ImportedTopic>): (n: nat)
    ensures n <= |ts|
  {
    if ts == [] then 0
    else NewTopicCount(cur, ts[..|ts| - 1]) + (if TopicMatch(cur, ts[|ts| - 1]) == |cur| then 1 else 0)
  }

  /** Corrected: an unmatched topic gets the next id not yet handed out, so no two new topics share one. */
  function FixedTopicTarget(cur: seq<TopicEntity>, done: seq<ImportedTopic>, t: ImportedTopic): (id: int)
    ensures TopicMatch(cur, t) < |cur| ==> id == cur[TopicMatch(cur, t)].id
    ensures TopicMatch(cur, t) == |cur| ==> id == FreshTopicId(cur, NewTopicCount(cur, done))
  {
    var i := TopicMatch(cur, t);
    if i < |cur| then cur[i].id else FreshTopicId(cur, NewTopicCount(cur, done))
  }

  /** Corrected: the dispatch for `t` after the topics `done`. */
  function FixedTopicMergeAction(cur: seq<TopicEntity>, done: seq<ImportedTopic>, t: ImportedTopic): Action
  {
    var i := TopicMatch(cur, t);
    if i < |cur| then UpdateTopic(cur[i].id, TopicChanges(Some(t.name), None))
    else AddTopicWithId(FixedTopicTarget(cur, done, t), t.name)
  }

  function FixedTopicMergeActions(cur: seq<TopicEntity>, ts: seq<ImportedTopic>): seq<Action>
  {
    if ts == [] then []
    else FixedTopicMergeActions(cur, ts[..|ts| - 1]) + [FixedTopicMergeAction(cur, ts[..|ts| - 1], ts[|ts| - 1])]
  }

  function FixedTopicMapping(cur: seq<TopicEntity>, ts: seq<ImportedTopic>): map<int, int>
  {
    if ts == [] then map[] else FixedTopicMapping(cur, ts[..|ts| - 1])[ts[|ts| - 1].id := FixedTopicTarget(cur, ts[..|ts| - 1], ts[|ts| - 1])]
  }

  /** The unmatched topics of `ts`, as the corrected merge stores them. */
  function AddedTopics(cur: seq<TopicEntity>, ts: seq<ImportedTopic>): (added: seq<TopicEntity>)
    ensures |added| == NewTopicCount(cur, ts)
    ensures forall k :: 0 <= k < |added| ==> added[k].id == FreshTopicId(cur, k) && added[k].requestIds == []
  {
    if ts == [] then []
    else
      var p := ts[..|ts| - 1];
      var t := ts[|ts| - 1];
      AddedTopics(cur, p)
      + (if TopicMatch(cur, t) == |cur| then [TopicEntity(FreshTopicId(cur, NewTopicCount(cur, p)), t.name, [])] else [])
  }

  /** One corrected topic dispatch: a matched topic stays as it is, an unmatched one is appended. */
  lemma FixedTopicStep(cur: seq<TopicEntity>, ts: seq<ImportedTopic>)
    requires UniqueKeys(cur, TopicId) && ts != []
    ensures var p := ts[..|ts| - 1];
      TopicsReducer(cur + AddedTopics(cur, p), FixedTopicMergeAction(cur, p, ts[|ts| - 1])) == cur + AddedTopics(cur, ts)
  {
    var p := ts[..|ts| - 1];
    var t := ts[|ts| - 1];
    var added := AddedTopics(cur, p);
    var i := TopicMatch(cur, t);
    if i < |cur| {
      MatchedTopicUnchanged(cur, added, i, t.name);
      assert AddedTopics(cur, ts) == added + [];
    } else {
      FreshTopicAppended(cur, added, t.name);
      assert AddedTopics(cur, ts) == added + [TopicEntity(FreshTopicId(cur, |added|), t.name, [])];
    }
  }

  /** With the corrected ids, the merged topics are the current ones followed by every unmatched imported topic. */
  lemma {:induction false} FixedTopicsStored(st: AppState, ts: seq<ImportedTopic>, now: string)
    requires UniqueIds(Ids(st.topics, TopicId))
    ensures DispatchAll(st, FixedTopicMergeActions(st.topics, ts), now).topics == st.topics + AddedTopics(st.topics, ts)
    decreases |ts|
  {
    var cur := st.topics;
    if ts == [] {
      assert cur + [] == cur;
    } else {
      var p := ts[..|ts| - 1];
      var a := FixedTopicMergeAction(cur, p, ts[|ts| - 1]);
      FixedTopicsStored(st, p, now);
      DispatchAllAppend(st, FixedTopicMergeActions(cur, p), [a], now);
      DispatchAllOne(DispatchAll(st, FixedTopicMergeActions(cur, p), now), a, now);
      UniqueIdsKeys(cur, TopicId);
      FixedTopicStep(cur, ts);
    }
  }

  /** With the corrected ids every imported topic is stored under the id it is mapped to, with its name. */
  lemma {:induction false} FixedTopicMappingFound(cur: seq<TopicEntity>, ts: seq<ImportedTopic>)
    requires UniqueKeys(ts, ImportedTopicId)
    ensures forall t :: t in ts ==>
      (t.id in FixedTopicMapping(cur, ts)
       && exists e :: e in cur + AddedTopics(cur, ts) && e.id == FixedTopicMapping(cur, ts)[t.id] && e.name == t.name)
    decreases |ts|
  {
    if ts != [] {
      var p := ts[..|ts| - 1];
      var last := ts[|ts| - 1];
      assert ts == p + [last];
      assert UniqueKeys(p, ImportedTopicId);
      FixedTopicMappingFound(cur, p);
      var m := FixedTopicMapping(cur, ts);
      assert AddedTopics(cur, p) <= AddedTopics(cur, ts);
      forall t | t in ts
        ensures t.id in m && exists e :: e in cur + AddedTopics(cur, ts) && e.id == m[t.id] && e.name == t.name
      {
        if t == last {
          var i := TopicMatch(cur, t);
          if i < |cur| {
            assert cur[i] in cur + AddedTopics(cur, ts);
          } else {
            var e := TopicEntity(FreshTopicId(cur, NewTopicCount(cur, p)), t.name, []);
            assert AddedTopics(cur, ts)[|AddedTopics(cur, p)|] == e;
            assert e in cur + AddedTopics(cur, ts);
          }
        } else {
          var k :| 0 <= k < |ts| && ts[k] == t;
          assert k < |p| && p[k] == t && t.id != last.id;
          var e :| e in cur + AddedTopics(cur, p) && e.id == FixedTopicMapping(cur, p)[t.id] && e.name == t.name;
          assert e in cur + AddedTopics(cur, ts);
        }
      }
    }
  }

  // ---------------------------------------------------------------------------
  // Linking topics to lists

  /** `topicIds.map(old => idMappings.topics.get(old)).filter(defined)`. */
  function MappedIds(ids: seq<int>, m: map<int, int>): (r: seq<int>)
    ensures |r| <= |ids|
    ensures forall x :: x in r <==> exists y :: y in ids && y in m && m[y] == x
  {
    if ids == [] then []
    else
      var p := ids[..|ids| - 1];
      var y := ids[|ids| - 1];
      var r := MappedIds(p, m) + (if y in m then [m[y]] else []);
      assert forall z :: z in ids <==> z in p || z == y;
      r
  }

  /** For an imported list mapped to a list present in `curLists`, its topics' new ids replace that list's `topicIds`. */
  function LinkAction(curLists: seq<ListEntity>, listMap: map<int, int>, topicMap: map<int, int>, l: ImportedList): (acts: seq<Action>)
    ensures |acts| <= 1
    ensures l.id !in listMap || listMap[l.id] == 0 || l.topicIds.None? || !HasId(curLists, ListId, listMap[l.id]) ==> acts == []
  {
    if l.id in listMap && listMap[l.id] != 0 && l.topicIds.Some? then
      match FindById(curLists, ListId, listMap[l.id])
      case None => []
      case Some(target) =>
        var ids := MappedIds(l.topicIds.value, topicMap);
        if |ids| > 0 then [UpdateList(target.id, ListChanges(None, Some(ids), None))] else []
    else []
  }

  function LinkActions(curLists: seq<ListEntity>, listMap: map<int, int>, topicMap: map<int, int>, ls: seq<ImportedList>): seq<Action>
  {
    if ls == [] then []
    else LinkActions(curLists, listMap, topicMap, ls[..|ls| - 1]) + LinkAction(curLists, listMap, topicMap, ls[|ls| - 1])
  }

  // ---------------------------------------------------------------------------
  // Requests (matched by topic and description)

  /** The first imported topic listing request id `rid`. */
  function ImportedTopicOf(topics: seq<ImportedTopic>, rid: int): (i: nat)
    ensures i <= |topics|
    ensures i < |topics| ==> rid in GetOr(topics[i].requestIds, [])
  {
    FirstIndex(topics, (t: ImportedTopic) => rid in GetOr(t.requestIds, []))
  }

  /** The topic a request goes to: its imported topic's new id, when that topic was imported (a 0 id counts as missing). */
  function RequestTopicTarget(topics: seq<ImportedTopic>, topicMap: map<int, int>, rid: int): (r: Option<int>)
    ensures r.Some? ==> r.value != 0
    ensures r.Some? <==>
      (ImportedTopicOf(topics, rid) < |topics| && topics[ImportedTopicOf(topics, rid)].id in topicMap
       && topicMap[topics[ImportedTopicOf(topics, rid)].id] != 0)
  {
    var i := ImportedTopicOf(topics, rid);
    if i < |topics| && topics[i].id in topicMap && topicMap[topics[i].id] != 0 then Some(topicMap[topics[i].id]) else None
  }

  /** The id of the first current topic listing request id `qid`, if any. */
  function OwningTopic(curTopics: seq<TopicEntity>, qid: int): Option<int>
  {
    var i := FirstIndex(curTopics, (t: TopicEntity) => qid in t.requestIds);
    if i < |curTopics| then Some(curTopics[i].id) else None
  }

  /** `description || text`, which may be undefined. */
  function MatchKey(r: ImportedRequest): Option<string>
  {
    if r.description.Some? && r.description.value != "" then r.description else r.text
  }

  /** The position of the first current request in topic `topicId` with the imported description, or `|cur|`. */
  function RequestMatch(curRequests: seq<RequestEntity>, curTopics: seq<TopicEntity>, topicId: int, r: ImportedRequest): (i: nat)
    ensures i <= |curRequests|
    ensures i < |curRequests| ==>
      (MatchKey(r).Some? && curRequests[i].description == MatchKey(r).value
       && OwningTopic(curTopics, curRequests[i].id) == Some(topicId))
    ensures MatchKey(r).Some? ==> forall j :: 0 <= j < i ==>
      !(OwningTopic(curTopics, curRequests[j].id) == Some(topicId) && curRequests[j].description == MatchKey(r).value)
  {
    if MatchKey(r).None? then |curRequests|
    else
      var key := MatchKey(r).value;
      FirstIndex(curRequests, (q: RequestEntity) => OwningTopic(curTopics, q.id) == Some(topicId) && q.description == key)
  }

  /** The fields a merged request takes from the file; a missing nullable field becomes null. */
  function MergeChanges(r: ImportedRequest, withDescription: bool): RequestChanges
  {
    RequestChanges(
      if withDescription then Some(Describe(r)) else None,
      None,
      Some(GetOr(r.answeredDate, None)),
      Some(GetOr(r.answerDescription, None)),
      r.prayerCount,
      r.priority,
      None)
  }

  /** `answeredDate || prayerCount || priority !== undefined`. */
  predicate HasExtras(r: ImportedRequest)
  {
    (r.answeredDate.Some? && r.answeredDate.value.Some? && r.answeredDate.value.value != "")
    || (r.prayerCount.Some? && r.prayerCount.value != 0)
    || r.priority.Some?
  }

  /** As written: the dispatches for one imported request. A new request takes the snapshot's next id. */
  function RequestMergeActions1(curRequests: seq<RequestEntity>, curTopics: seq<TopicEntity>, topics: seq<ImportedTopic>,
                                topicMap: map<int, int>, r: ImportedRequest): seq<Action>
  {
    match RequestTopicTarget(topics, topicMap, r.id)
    case None => []
    case Some(tid) =>
      var i := RequestMatch(curRequests, curTopics, tid, r);
      if i < |curRequests| then [UpdateRequest(curRequests[i].id, MergeChanges(r, true))]
      else
        var n := NextId(Ids(curRequests, RequestId));
        [AddRequestWithId(n, Describe(r))]
        + (if HasExtras(r) then [UpdateRequest(n, MergeChanges(r, false))] else [])
        + (match FindById(curTopics, TopicId, tid)
           case None => []
           case Some(target) => [UpdateTopic(target.id, TopicChanges(None, Some(Dedupe(target.requestIds + [n]))))])
  }

  /** The new id an imported request is mapped to, if it is not skipped. */
  function RequestTarget(curRequests: seq<RequestEntity>, curTopics: seq<TopicEntity>, topics: seq<ImportedTopic>,
                         topicMap: map<int, int>, r: ImportedRequest): (o: Option<int>)
    ensures RequestTopicTarget(topics, topicMap, r.id).None? ==> o.None?
    ensures RequestTopicTarget(topics, topicMap, r.id).Some? ==> o.Some?
  {
    match RequestTopicTarget(topics, topicMap, r.id)
    case None => None
    case Some(tid) =>
      var i := RequestMatch(curRequests, curTopics, tid, r);
      if i < |curRequests| then Some(curRequests[i].id) else Some(NextId(Ids(curRequests, RequestId)))
  }

  /**
   * A request whose topic was not imported is skipped; one matching a current
   * request of its new topic by description updates and maps to that request.
   */
  lemma RequestSkipOrMatch(curRequests: seq<RequestEntity>, curTopics: seq<TopicEntity>, topics: seq<ImportedTopic>,
                           topicMap: map<int, int>, r: ImportedRequest)
    ensures RequestTopicTarget(topics, topicMap, r.id).None? ==>
      RequestMergeActions1(curRequests, curTopics, topics, topicMap, r) == []
    ensures var tid := RequestTopicTarget(topics, topicMap, r.id);
      tid.Some? && RequestMatch(curRequests, curTopics, tid.value, r) < |curRequests| ==>
        var q := curRequests[RequestMatch(curRequests, curTopics, tid.value, r)];
        RequestTarget(curRequests, curTopics, topics, topicMap, r) == Some(q.id)
        && OwningTopic(curTopics, q.id) == tid && q.description == MatchKey(r).value
        && RequestMergeActions1(curRequests, curTopics, topics, topicMap, r) == [UpdateRequest(q.id, MergeChanges(r, true))]
  {
  }

  function RequestMergeActions(curRequests: seq<RequestEntity>, curTopics: seq<TopicEntity>, topics: seq<ImportedTopic>,
                               topicMap: map<int, int>, rs: seq<ImportedRequest>): seq<Action>
  {
    if rs == [] then []
    else RequestMergeActions(curRequests, curTopics, topics, topicMap, rs[..|rs| - 1])
         + RequestMergeActions1(curRequests, curTopics, topics, topicMap, rs[|rs| - 1])
  }

  /** `idMappings.requests` after the loop. */
  function RequestMapping(curRequests: seq<RequestEntity>, curTopics: seq<TopicEntity>, topics: seq<ImportedTopic>,
                          topicMap: map<int, int>, rs: seq<ImportedRequest>): map<int, int>
  {
    if rs == [] then map[]
    else
      var m := RequestMapping(curRequests, curTopics, topics, topicMap, rs[..|rs| - 1]);
      var r := rs[|rs| - 1];
      match RequestTarget(curRequests, curTopics, topics, topicMap, r)
      case None => m
      case Some(n) => m[r.id := n]
  }

  /** Two new requests of one imported topic get the same id; the second is dropped and its fields land on the first. */
  lemma NewRequestsCollide()
    ensures var topics := [ImportedTopic(5, "T", Some([7, 8]))];
      var tm := map[5 := 1];
      var cur := [TopicEntity(1, "T", [])];
      var r1 := ImportedRequest(7, Some("a"), None, None, None, None, None, None, None);
      var r2 := ImportedRequest(8, Some("b"), None, None, None, None, None, None, None);
      var m := RequestMapping([], cur, topics, tm, [r1, r2]);
      m[7] == 1 && m[8] == 1
  {
    var topics := [ImportedTopic(5, "T", Some([7, 8]))];
    var tm := map[5 := 1];
    var cur := [TopicEntity(1, "T", [])];
    var r1 := ImportedRequest(7, Some("a"), None, None, None, None, None, None, None);
    var r2 := ImportedRequest(8, Some("b"), None, None, None, None, None, None, None);
    assert ImportedTopicOf(topics, 7) == 0 && ImportedTopicOf(topics, 8) == 0;
    assert [r1, r2][..1] == [r1] && [r1][..0] == [];
  }

  // ---------------------------------------------------------------------------
  // The import

  /** The store after one list of actions, and the maps, phase by phase. */
  datatype MergeOutcome = MergeOutcome(
    st: AppState,
    listMap: map<int, int>,
    topicMap: map<int, int>,
    requestMap: map<int, int>)

  /**
   * `importMergeMode` as written. The list phase reads the lists before its
   * loop; the topic phase reads topics and lists after the list phase; the
   * request phase reads requests and topics after the topic phase.
   */
  function MergeImport(st0: AppState, data: ImportData, includeRequests: bool, now: string): (o: MergeOutcome)
    ensures o.listMap == ListMapping(st0.lists, data.lists)
    ensures !includeRequests ==> o.requestMap == map[]
  {
    var listMap := ListMapping(st0.lists, data.lists);
    var s1 := DispatchAll(st0, ListMergeActions(st0.lists, data.lists), now);
    var topicMap := TopicMapping(s1.topics, data.topics);
    var s2 := DispatchAll(s1, TopicMergeActions(s1.topics, data.topics), now);
    var s3 := DispatchAll(s2, LinkActions(s1.lists, listMap, topicMap, if |data.topics| > 0 then data.lists else []), now);
    if includeRequests then
      var s4 := DispatchAll(s3, RequestMergeActions(s3.requests, s3.topics, data.topics, topicMap, data.requests), now);
      MergeOutcome(s4, listMap, topicMap, RequestMapping(s3.requests, s3.topics, data.topics, topicMap, data.requests))
    else MergeOutcome(s3, listMap, topicMap, map[])
  }

  /** With no file records, merging changes nothing. */
  lemma EmptyMergeChangesNothing(st0: AppState, includeRequests: bool, now: string)
    ensures MergeImport(st0, ImportData([], [], [], None), includeRequests, now).st == st0
  {
  }

  /** The list loop: it reads the lists once, then dispatches per imported list. */
  method MergeLists(st0: AppState, ls: seq<ImportedList>, now: string) returns (st: AppState, listMap: map<int, int>)
    ensures st == DispatchAll(st0, ListMergeActions(st0.lists, ls), now)
    ensures listMap == ListMapping(st0.lists, ls)
  {
    st := st0;
    listMap := map[];
    var curLists := st0.lists;
    var i := 0;
    while i < |ls|
      invariant 0 <= i <= |ls|
      invariant st == DispatchAll(st0, ListMergeActions(curLists, ls[..i]), now)
      invariant listMap == ListMapping(curLists, ls[..i])
    {
      assert ls[..i + 1][..i] == ls[..i];
      var l := ls[i];
      var a := ListMergeAction(curLists, l);
      DispatchAllAppend(st0, ListMergeActions(curLists, ls[..i]), [a], now);
      DispatchAllOne(st, a, now);
      st := Dispatch(st, a, now);
      listMap := listMap[l.id := ListTarget(curLists, l)];
      i := i + 1;
    }
    assert ls[..i] == ls;
  }

  /** The topic loop: it reads the topics once, then dispatches per imported topic. */
  method MergeTopics(st0: AppState, ts: seq<ImportedTopic>, now: string) returns (st: AppState, topicMap: map<int, int>)
    ensures st == DispatchAll(st0, TopicMergeActions(st0.topics, ts), now)
    ensures topicMap == TopicMapping(st0.topics, ts)
  {
    st := st0;
    topicMap := map[];
    var curTopics := st0.topics;
    var j := 0;
    while j < |ts|
      invariant 0 <= j <= |ts|
      invariant st == DispatchAll(st0, TopicMergeActions(curTopics, ts[..j]), now)
      invariant topicMap == TopicMapping(curTopics, ts[..j])
    {
      assert ts[..j + 1][..j] == ts[..j];
      var t := ts[j];
      var a := TopicMergeAction(curTopics, t);
      DispatchAllAppend(st0, TopicMergeActions(curTopics, ts[..j]), [a], now);
      DispatchAllOne(st, a, now);
      st := Dispatch(st, a, now);
      topicMap := topicMap[t.id := TopicTarget(curTopics, t)];
      j := j + 1;
    }
    assert ts[..j] == ts;
  }

  /** The linking loop, against the lists read before the topic loop. */
  method LinkTopics(st0: AppState, listsNow: seq<ListEntity>, listMap: map<int, int>, topicMap: map<int, int>,
                    ls: seq<ImportedList>, now: string) returns (st: AppState)
    ensures st == DispatchAll(st0, LinkActions(listsNow, listMap, topicMap, ls), now)
  {
    st := st0;
    var k := 0;
    while k < |ls|
      invariant 0 <= k <= |ls|
      invariant st == DispatchAll(st0, LinkActions(listsNow, listMap, topicMap, ls[..k]), now)
    {
      assert ls[..k + 1][..k] == ls[..k];
      var acts := LinkAction(listsNow, listMap, topicMap, ls[k]);
      DispatchAllAppend(st0, LinkActions(listsNow, listMap, topicMap, ls[..k]), acts, now);
      if acts != [] {
        DispatchAllOne(st, acts[0], now);
        assert acts == [acts[0]];
        st := Dispatch(st, acts[0], now);
      } else {
        assert DispatchAll(st, acts, now) == st;
      }
      k := k + 1;
    }
    assert ls[..k] == ls;
  }

  /** The request loop: it reads requests and topics once, then dispatches per imported request. */
  method MergeRequests(st0: AppState, topics: seq<ImportedTopic>, topicMap: map<int, int>, rs: seq<ImportedRequest>, now: string)
    returns (st: AppState, requestMap: map<int, int>)
    ensures st == DispatchAll(st0, RequestMergeActions(st0.requests, st0.topics, topics, topicMap, rs), now)
    ensures requestMap == RequestMapping(st0.requests, st0.topics, topics, topicMap, rs)
  {
    st := st0;
    requestMap := map[];
    var curRequests := st0.requests;
    var topicsNow := st0.topics;
    var n := 0;
    while n < |rs|
      invariant 0 <= n <= |rs|
      invariant st == DispatchAll(st0, RequestMergeActions(curRequests, topicsNow, topics, topicMap, rs[..n]), now)
      invariant requestMap == RequestMapping(curRequests, topicsNow, topics, topicMap, rs[..n])
    {
      assert rs[..n + 1][..n] == rs[..n];
      var r := rs[n];
      var acts := RequestMergeActions1(curRequests, topicsNow, topics, topicMap, r);
      DispatchAllAppend(st0, RequestMergeActions(curRequests, topicsNow, topics, topicMap, rs[..n]), acts, now);
      st := DispatchEach(st, acts, now);
      var target := RequestTarget(curRequests, topicsNow, topics, topicMap, r);
      if target.Some? {
        requestMap := requestMap[r.id := target.value];
      }
      n := n + 1;
    }
    assert rs[..n] == rs;
  }

  /**
   * `importMergeMode`: the list, topic, linking and request loops, then the
   * stats merge when the stats are included.
   */
  method ImportMergeMode(st0: AppState, data: ImportData, options: ImportOptions, now: string, stats: PrayerStats)
    returns (st: AppState, listMap: map<int, int>, topicMap: map<int, int>, requestMap: map<int, int>)
    modifies stats
    ensures MergeOutcome(st, listMap, topicMap, requestMap) == MergeImport(st0, data, options.includeRequests, now)
    ensures options.includeStats && data.stats.Some? ==> stats.Snapshot() == MergeStats(old(stats.Snapshot()), data.stats.value)
    ensures !(options.includeStats && data.stats.Some?) ==> stats.Snapshot() == old(stats.Snapshot())
  {
    st, listMap := MergeLists(st0, data.lists, now);
    var listsNow := st.lists;
    st, topicMap := MergeTopics(st, data.topics, now);
    st := LinkTopics(st, listsNow, listMap, topicMap, if |data.topics| > 0 then data.lists else [], now);
    requestMap := map[];
    if options.includeRequests {
      st, requestMap := MergeRequests(st, data.topics, topicMap, data.requests, now);
    }
    if options.includeStats && data.stats.Some? {
      var merged := MergeStats(stats.Snapshot(), data.stats.value);
      ExportThenSetAll(merged);
      stats.SetAllStats(ToInput(merged));
    }
  }
}
