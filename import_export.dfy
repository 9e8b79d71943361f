/**
 * `ImportExportService`, part one: the export filters, the stats merge, and
 * the replace-mode import. Imported records are plain objects whose fields
 * may be missing; `Some(None)` is an explicit null where the store field is
 * nullable, and a null counter or flag is folded into its falsy value (0 or
 * false), which every use below treats the same way.
 */
module ImportExport {
  import opened Wrappers
  import opened Numbers
  import opened Collections
  import opened Store
  import opened Stats

  datatype ImportedList = ImportedList(id: int, name: string, topicIds: Option<seq<int>>, excludeFromAll: Option<bool>)

  datatype ImportedTopic = ImportedTopic(id: int, name: string, requestIds: Option<seq<int>>)

  datatype ImportedRequest = ImportedRequest(
    id: int,
    description: Option<string>,
    text: Option<string>,
    createdDate: Option<string>,
    answeredDate: Option<Option<string>>,
    answerDescription: Option<Option<string>>,
    prayerCount: Option<int>,
    priority: Option<int>,
    archived: Option<bool>)

  /** An export file; missing arrays are empty. */
  datatype ImportData = ImportData(
    lists: seq<ImportedList>,
    topics: seq<ImportedTopic>,
    requests: seq<ImportedRequest>,
    stats: Option<StatsInput>)

  datatype ImportOptions = ImportOptions(includeRequests: bool, includeStats: bool, mergeMode: bool)

  /** What an export carries besides the version and date stamps. */
  datatype ExportData = ExportData(
    lists: seq<ListEntity>,
    topics: seq<TopicEntity>,
    requests: seq<RequestEntity>,
    stats: Option<StatsRecord>)

  function ImportedListId(l: ImportedList): int { l.id }
  function ImportedTopicId(t: ImportedTopic): int { t.id }
  function ImportedRequestId(r: ImportedRequest): int { r.id }

  // ---------------------------------------------------------------------------
  // Export

  /** Some topic of `topics` lists request id `id`. */
  predicate InSomeTopic(id: int, topics: seq<TopicEntity>)
  {
    exists t :: t in topics && id in t.requestIds
  }

  /**
   * `exportListData`: null for an unknown list; otherwise that list, the
   * topics it names and the requests those topics name, in store order.
   */
  function ExportListData(st: AppState, listId: int): (r: Option<ExportData>)
    ensures r.None? <==> !HasId(st.lists, ListId, listId)
    ensures r.Some? ==> |r.value.lists| == 1 && r.value.lists[0] in st.lists && r.value.lists[0].id == listId
    ensures r.Some? ==> forall t :: t in r.value.topics <==> t in st.topics && t.id in r.value.lists[0].topicIds
    ensures r.Some? ==> forall q :: q in r.value.requests <==> q in st.requests && InSomeTopic(q.id, r.value.topics)
    ensures r.Some? ==> r.value.stats.None?
  {
    match FindById(st.lists, ListId, listId)
    case None => None
    case Some(l) =>
      var topics := Filter(st.topics, (t: TopicEntity) => t.id in l.topicIds);
      var requests := Filter(st.requests, (q: RequestEntity) => InSomeTopic(q.id, topics));
      Some(ExportData([l], topics, requests, None))
  }

  /**
   * `exportTopicData`: null for an unknown topic; otherwise no lists, that
   * topic and the requests it names, in store order.
   */
  function ExportTopicData(st: AppState, topicId: int): (r: Option<ExportData>)
    ensures r.None? <==> !HasId(st.topics, TopicId, topicId)
    ensures r.Some? ==>
      (r.value.lists == [] && |r.value.topics| == 1 && r.value.topics[0] in st.topics && r.value.topics[0].id == topicId)
    ensures r.Some? ==> forall q :: q in r.value.requests <==> q in st.requests && q.id in r.value.topics[0].requestIds
    ensures r.Some? ==> r.value.stats.None?
  {
    match FindById(st.topics, TopicId, topicId)
    case None => None
    case Some(t) =>
      Some(ExportData([], [t], Filter(st.requests, (q: RequestEntity) => q.id in t.requestIds), None))
  }

  /** A list export holds every request its topic export would hold. */
  lemma ListExportCoversTopicExports(st: AppState, listId: int, topicId: int)
    requires ExportListData(st, listId).Some? && ExportTopicData(st, topicId).Some?
    requires var l := ExportListData(st, listId).value.lists[0];
      topicId in l.topicIds && UniqueIds(Ids(st.topics, TopicId))
    ensures forall q :: q in ExportTopicData(st, topicId).value.requests ==> q in ExportListData(st, listId).value.requests
  {
    var le := ExportListData(st, listId).value;
    var t := ExportTopicData(st, topicId).value.topics[0];
    assert t in le.topics;
    forall q | q in ExportTopicData(st, topicId).value.requests
      ensures q in le.requests
    {
      assert InSomeTopic(q.id, le.topics);
    }
  }

  // ---------------------------------------------------------------------------
  // Stats merge

  /** `a && b ? min(a, b) : a || b` on optional timestamps. */
  function EarlierDate(a: Option<int>, b: Option<int>): (r: Option<int>)
    ensures a.Some? && b.Some? ==> r == Some(Min(a.value, b.value))
    ensures a.Some? && b.None? ==> r == a
    ensures a.None? ==> r == b
  {
    if a.Some? && b.Some? then Some(Min(a.value, b.value)) else if a.Some? then a else b
  }

  /** `a && b ? max(a, b) : a || b` on optional timestamps. */
  function LaterDate(a: Option<int>, b: Option<int>): (r: Option<int>)
    ensures a.Some? && b.Some? ==> r == Some(Max(a.value, b.value))
    ensures a.Some? && b.None? ==> r == a
    ensures a.None? ==> r == b
  {
    if a.Some? && b.Some? then Some(Max(a.value, b.value)) else if a.Some? then a else b
  }

  /** The merge-mode stats: each counter the larger of the two, the earlier first date, the later last date. */
  function MergeStats(cur: StatsRecord, imp: StatsInput): (m: StatsRecord)
    ensures m.totalTimePrayed == Max(cur.totalTimePrayed, NumberOr(imp.totalTimePrayed, 0))
    ensures m.totalRequestsPrayed == Max(cur.totalRequestsPrayed, NumberOr(imp.totalRequestsPrayed, 0))
    ensures m.totalRequestsAnswered == Max(cur.totalRequestsAnswered, NumberOr(imp.totalRequestsAnswered, 0))
    ensures m.totalSessions == Max(cur.totalSessions, NumberOr(imp.totalSessions, 0))
    ensures m.firstSessionDate == EarlierDate(cur.firstSessionDate, imp.firstSessionDate)
    ensures m.lastSessionDate == LaterDate(cur.lastSessionDate, imp.lastSessionDate)
  {
    StatsRecord(
      Max(cur.totalTimePrayed, NumberOr(imp.totalTimePrayed, 0)),
      Max(cur.totalRequestsPrayed, NumberOr(imp.totalRequestsPrayed, 0)),
      Max(cur.totalRequestsAnswered, NumberOr(imp.totalRequestsAnswered, 0)),
      Max(cur.totalSessions, NumberOr(imp.totalSessions, 0)),
      EarlierDate(cur.firstSessionDate, imp.firstSessionDate),
      LaterDate(cur.lastSessionDate, imp.lastSessionDate))
  }

  /** No counter decreases, the first date only moves earlier and the last only later. */
  lemma MergeKeepsHigher(cur: StatsRecord, imp: StatsInput)
    ensures var m := MergeStats(cur, imp);
      m.totalTimePrayed >= cur.totalTimePrayed && m.totalRequestsPrayed >= cur.totalRequestsPrayed
      && m.totalRequestsAnswered >= cur.totalRequestsAnswered && m.totalSessions >= cur.totalSessions
      && (cur.firstSessionDate.Some? ==> m.firstSessionDate.Some? && m.firstSessionDate.value <= cur.firstSessionDate.value)
      && (cur.lastSessionDate.Some? ==> m.lastSessionDate.Some? && m.lastSessionDate.value >= cur.lastSessionDate.value)
  {
  }

  /** Merging the stats with their own export changes nothing. */
  lemma MergeIdempotent(s: StatsRecord)
    ensures MergeStats(s, ToInput(s)) == s
  {
  }

  /** Which side is the file and which the device does not matter. */
  lemma MergeCommutes(a: StatsRecord, b: StatsRecord)
    ensures MergeStats(a, ToInput(b)) == MergeStats(b, ToInput(a))
  {
  }

  /** The merged stats survive `setAllStats` unchanged. */
  lemma MergedStatsStored(cur: StatsRecord, imp: StatsInput)
    ensures FromInput(ToInput(MergeStats(cur, imp))) == MergeStats(cur, imp)
  {
    ExportThenSetAll(MergeStats(cur, imp));
  }

  // ---------------------------------------------------------------------------
  // Replace mode

  /** `description || text || ''`. */
  function Describe(r: ImportedRequest): (d: string)
    ensures r.description.Some? && r.description.value != "" ==> d == r.description.value
    ensures (r.description.None? || r.description.value == "") && r.text.Some? ==> d == r.text.value
    ensures (r.description.None? || r.description.value == "") && r.text.None? ==> d == ""
  {
    if r.description.Some? && r.description.value != "" then r.description.value
    else if r.text.Some? && r.text.value != "" then r.text.value
    else ""
  }

  /**
   * The follow-up changes of a replaced request: each field present in the
   * file, with `prayerCount || 0`, `priority || 1` and `archived || false`.
   */
  function ReplaceChanges(r: ImportedRequest): (c: RequestChanges)
    ensures c.description.None?
    ensures c.createdDate == r.createdDate && c.answeredDate == r.answeredDate
      && c.answerDescription == r.answerDescription
    ensures c.prayerCount.Some? <==> r.prayerCount.Some?
    ensures c.priority.Some? <==> r.priority.Some?
    ensures r.priority.Some? ==> c.priority.value == NumberOr(r.priority, 1) && c.priority.value != 0
    ensures c.archived == (if r.archived.Some? then Some(r.archived) else None)
  {
    RequestChanges(
      None,
      r.createdDate,
      r.answeredDate,
      r.answerDescription,
      if r.prayerCount.Some? then Some(NumberOr(r.prayerCount, 0)) else None,
      if r.priority.Some? then Some(NumberOr(r.priority, 1)) else None,
      if r.archived.Some? then Some(r.archived) else None)
  }

  function ListReplaceAction(l: ImportedList): Action
  {
    AddListWithId(l.id, l.name, Some(GetOr(l.topicIds, [])), Some(GetOr(l.excludeFromAll, false)))
  }

  function TopicReplaceActions(t: ImportedTopic): seq<Action>
  {
    [AddTopicWithId(t.id, t.name)]
    + (if t.requestIds.Some? && |t.requestIds.value| > 0 then [UpdateTopic(t.id, TopicChanges(None, t.requestIds))] else [])
  }

  function RequestReplaceActions(r: ImportedRequest): seq<Action>
  {
    [AddRequestWithId(r.id, Describe(r))]
    + (if ReplaceChanges(r) != NoRequestChanges then [UpdateRequest(r.id, ReplaceChanges(r))] else [])
  }

  function ListsReplaceActions(ls: seq<ImportedList>): seq<Action>
  {
    if ls == [] then [] else ListsReplaceActions(ls[..|ls| - 1]) + [ListReplaceAction(ls[|ls| - 1])]
  }

  function TopicsReplaceActions(ts: seq<ImportedTopic>): seq<Action>
  {
    if ts == [] then [] else TopicsReplaceActions(ts[..|ts| - 1]) + TopicReplaceActions(ts[|ts| - 1])
  }

  function RequestsReplaceActions(rs: seq<ImportedRequest>): seq<Action>
  {
    if rs == [] then [] else RequestsReplaceActions(rs[..|rs| - 1]) + RequestReplaceActions(rs[|rs| - 1])
  }

  /** The dispatches of `importReplaceMode`: clear all three collections, then re-add with the file's ids. */
  function ReplaceActions(data: ImportData): seq<Action>
  {
    [ClearLists, ClearTopics, ClearRequests]
    + ListsReplaceActions(data.lists) + TopicsReplaceActions(data.topics) + RequestsReplaceActions(data.requests)
  }

  /** A topic as the replace import leaves it. */
  function RestoredTopic(t: ImportedTopic): (e: TopicEntity)
    ensures e.id == t.id && e.name == t.name
    ensures t.requestIds.Some? ==> e.requestIds == t.requestIds.value
    ensures t.requestIds.None? ==> e.requestIds == []
  {
    TopicEntity(t.id, t.name, GetOr(t.requestIds, []))
  }

  /** A request as the replace import leaves it: created with defaults, then the file's fields applied. */
  function RestoredRequest(r: ImportedRequest, now: string): (e: RequestEntity)
    ensures e.id == r.id && e.description == Describe(r)
    ensures e.prayerCount == NumberOr(r.prayerCount, 0)
    ensures e.priority == NumberOr(r.priority, 1)
    ensures e.createdDate == GetOr(r.createdDate, now)
    ensures e.answeredDate == GetOr(r.answeredDate, None)
    ensures e.archived == r.archived
  {
    ApplyRequestChanges(NewRequest(r.id, Describe(r), now), ReplaceChanges(r))
  }

  // --- Dispatch sequences

  /** The replace import's list, topic and request phases issue only additions and updates of their own kind. */
  lemma {:induction false} ReplaceActionsSpareLists(data: ImportData)
    ensures forall k :: 0 <= k < |ListsReplaceActions(data.lists)| ==> ListsReplaceActions(data.lists)[k].AddListWithId?
    ensures forall k :: 0 <= k < |TopicsReplaceActions(data.topics)| ==> TopicsReplaceActions(data.topics)[k].AddTopicWithId? || TopicsReplaceActions(data.topics)[k].UpdateTopic?
    ensures forall k :: 0 <= k < |RequestsReplaceActions(data.requests)| ==> RequestsReplaceActions(data.requests)[k].AddRequestWithId? || RequestsReplaceActions(data.requests)[k].UpdateRequest?
  {
    ListActionsAreAddWithId(data.lists);
    TopicActionsKind(data.topics);
    RequestActionsKind(data.requests);
  }

  lemma {:induction false} ListActionsAreAddWithId(ls: seq<ImportedList>)
    ensures forall k :: 0 <= k < |ListsReplaceActions(ls)| ==> ListsReplaceActions(ls)[k].AddListWithId?
    decreases |ls|
  {
    if ls != [] {
      ListActionsAreAddWithId(ls[..|ls| - 1]);
    }
  }

  lemma {:induction false} TopicActionsKind(ts: seq<ImportedTopic>)
    ensures forall k :: 0 <= k < |TopicsReplaceActions(ts)| ==> TopicsReplaceActions(ts)[k].AddTopicWithId? || TopicsReplaceActions(ts)[k].UpdateTopic?
    decreases |ts|
  {
    if ts != [] {
      TopicActionsKind(ts[..|ts| - 1]);
    }
  }

  lemma {:induction false} RequestActionsKind(rs: seq<ImportedRequest>)
    ensures forall k :: 0 <= k < |RequestsReplaceActions(rs)| ==> RequestsReplaceActions(rs)[k].AddRequestWithId? || RequestsReplaceActions(rs)[k].UpdateRequest?
    decreases |rs|
  {
    if rs != [] {
      RequestActionsKind(rs[..|rs| - 1]);
    }
  }

  /** Actions that are neither topic actions nor clears leave the topics alone. */
  lemma {:induction false} DispatchAllKeepsTopics(st: AppState, acts: seq<Action>, now: string)
    requires forall k :: 0 <= k < |acts| ==> acts[k].AddListWithId? || acts[k].AddRequestWithId? || acts[k].UpdateRequest?
    ensures DispatchAll(st, acts, now).topics == st.topics
    decreases |acts|
  {
    if acts != [] {
      DispatchAllKeepsTopics(Dispatch(st, acts[0], now), acts[1..], now);
    }
  }

  /** List and topic additions leave the requests alone. */
  lemma {:induction false} DispatchAllKeepsRequests(st: AppState, acts: seq<Action>, now: string)
    requires forall k :: 0 <= k < |acts| ==> acts[k].AddListWithId? || acts[k].AddTopicWithId? || acts[k].UpdateTopic?
    ensures DispatchAll(st, acts, now).requests == st.requests
    decreases |acts|
  {
    if acts != [] {
      DispatchAllKeepsRequests(Dispatch(st, acts[0], now), acts[1..], now);
    }
  }

  /** One topic record replayed onto topics that lack its id appends the restored topic. */
  lemma TopicStep(s1: AppState, t: ImportedTopic, now: string)
    requires !HasId(s1.topics, TopicId, t.id)
    ensures DispatchAll(s1, TopicReplaceActions(t), now).topics == s1.topics + [RestoredTopic(t)]
  {
    var add := AddTopicWithId(t.id, t.name);
    var s2 := Dispatch(s1, add, now);
    assert s2.topics == s1.topics + [TopicEntity(t.id, t.name, [])];
    if t.requestIds.Some? && |t.requestIds.value| > 0 {
      var upd := UpdateTopic(t.id, TopicChanges(None, t.requestIds));
      DispatchAllPair(s1, add, upd, now);
      UpdateTopicTouchesOnlyTarget(s2.topics, t.id, TopicChanges(None, t.requestIds));
      var after := Dispatch(s2, upd, now).topics;
      assert forall i :: 0 <= i < |s1.topics| ==> s1.topics[i].id != t.id;
      assert after == s1.topics + [RestoredTopic(t)];
    } else {
      DispatchAllOne(s1, add, now);
    }
  }

  /** Updating the last request, whose id no earlier request has, changes it alone. */
  lemma UpdateLastRequest(s: seq<RequestEntity>, e: RequestEntity, c: RequestChanges, now: string)
    requires !HasId(s, RequestId, e.id)
    ensures RequestsReducer(s + [e], UpdateRequest(e.id, c), now) == s + [ApplyRequestChanges(e, c)]
  {
    UpdateRequestTouchesOnlyTarget(s + [e], e.id, c, now);
    assert forall i :: 0 <= i < |s| ==> s[i].id != e.id by {
      forall i | 0 <= i < |s| ensures s[i].id != e.id {
        assert RequestId(s[i]) == s[i].id;
      }
    }
  }

  /** One request record replayed onto requests that lack its id appends the restored request. */
  lemma RequestStep(s1: AppState, r: ImportedRequest, now: string)
    requires !HasId(s1.requests, RequestId, r.id)
    ensures DispatchAll(s1, RequestReplaceActions(r), now).requests == s1.requests + [RestoredRequest(r, now)]
  {
    var add := AddRequestWithId(r.id, Describe(r));
    var s2 := Dispatch(s1, add, now);
    var e := NewRequest(r.id, Describe(r), now);
    assert s2.requests == s1.requests + [e];
    var c := ReplaceChanges(r);
    if c != NoRequestChanges {
      var upd := UpdateRequest(r.id, c);
      assert RequestReplaceActions(r) == [add, upd];
      DispatchAllPair(s1, add, upd, now);
      UpdateLastRequest(s1.requests, e, c, now);
    } else {
      assert RequestReplaceActions(r) == [add];
      assert DispatchAll(s1, [add], now) == s2;
    }
  }

  /** Replaying the topic records onto no topics rebuilds them one for one. */
  lemma {:induction false} TopicsRestored(st: AppState, ts: seq<ImportedTopic>, now: string)
    requires st.topics == [] && UniqueKeys(ts, ImportedTopicId)
    ensures DispatchAll(st, TopicsReplaceActions(ts), now).topics == Map(ts, RestoredTopic)
    decreases |ts|
  {
    if ts != [] {
      var p := ts[..|ts| - 1];
      var t := ts[|ts| - 1];
      assert UniqueKeys(p, ImportedTopicId);
      MapSnoc(p, t, RestoredTopic);
      assert ts == p + [t];
      var m := Map(p, RestoredTopic);
      forall i | 0 <= i < |m| ensures m[i].id != t.id {
        assert ts[i] == p[i];
      }
      TopicsRestored(st, p, now);
      DispatchAllAppend(st, TopicsReplaceActions(p), TopicReplaceActions(t), now);
      TopicStep(DispatchAll(st, TopicsReplaceActions(p), now), t, now);
    }
  }

  /** Replaying the request records onto no requests rebuilds them one for one. */
  lemma {:induction false} RequestsRestored(st: AppState, rs: seq<ImportedRequest>, now: string)
    requires st.requests == [] && UniqueKeys(rs, ImportedRequestId)
    ensures DispatchAll(st, RequestsReplaceActions(rs), now).requests == Map(rs, (r: ImportedRequest) => RestoredRequest(r, now))
    decreases |rs|
  {
    if rs != [] {
      var p := rs[..|rs| - 1];
      var r := rs[|rs| - 1];
      var f := (r: ImportedRequest) => RestoredRequest(r, now);
      assert UniqueKeys(p, ImportedRequestId);
      MapSnoc(p, r, f);
      assert rs == p + [r];
      var m := Map(p, f);
      forall i | 0 <= i < |m| ensures m[i].id != r.id {
        assert rs[i] == p[i];
      }
      RequestsRestored(st, p, now);
      DispatchAllAppend(st, RequestsReplaceActions(p), RequestReplaceActions(r), now);
      RequestStep(DispatchAll(st, RequestsReplaceActions(p), now), r, now);
    }
  }

  /** The three clears empty the store, whatever it held. */
  lemma ReplaceStartsEmpty(st: AppState, data: ImportData, now: string)
    ensures DispatchAll(st, ReplaceActions(data), now)
      == DispatchAll(AppState([], [], []),
                     ListsReplaceActions(data.lists) + (TopicsReplaceActions(data.topics) + RequestsReplaceActions(data.requests)), now)
  {
    var clears := [ClearLists, ClearTopics, ClearRequests];
    var la := ListsReplaceActions(data.lists);
    var ta := TopicsReplaceActions(data.topics);
    var ra := RequestsReplaceActions(data.requests);
    calc {
      ReplaceActions(data);
      ((clears + la) + ta) + ra;
      { assert (clears + la) + ta == clears + (la + ta); }
      (clears + (la + ta)) + ra;
      clears + ((la + ta) + ra);
      { assert (la + ta) + ra == la + (ta + ra); }
      clears + (la + (ta + ra));
    }
    DispatchAllAppend(st, clears, la + (ta + ra), now);
    ClearsEmpty(st, now);
  }

  /** The three clears leave an empty store. */
  lemma ClearsEmpty(st: AppState, now: string)
    ensures DispatchAll(st, [ClearLists, ClearTopics, ClearRequests], now) == AppState([], [], [])
  {
    var s1 := Dispatch(st, ClearLists, now);
    var s2 := Dispatch(s1, ClearTopics, now);
    var s3 := Dispatch(s2, ClearRequests, now);
    assert s3 == AppState([], [], []);
    assert [ClearLists, ClearTopics, ClearRequests][1..] == [ClearTopics, ClearRequests];
    assert [ClearTopics, ClearRequests][1..] == [ClearRequests];
    DispatchAllOne(s2, ClearRequests, now);
  }

  /** The replace import runs in three phases after the clears; each phase touches only its own collection. */
  lemma ReplacePhases(st: AppState, data: ImportData, now: string)
    ensures var s1 := DispatchAll(AppState([], [], []), ListsReplaceActions(data.lists), now);
      var s2 := DispatchAll(s1, TopicsReplaceActions(data.topics), now);
      var fin := DispatchAll(s2, RequestsReplaceActions(data.requests), now);
      DispatchAll(st, ReplaceActions(data), now) == fin
      && s1.topics == [] && s1.requests == [] && s2.requests == [] && fin.topics == s2.topics
  {
    var la := ListsReplaceActions(data.lists);
    var ta := TopicsReplaceActions(data.topics);
    var ra := RequestsReplaceActions(data.requests);
    ReplaceActionsSpareLists(data);
    ReplaceStartsEmpty(st, data, now);
    var s0 := AppState([], [], []);
    DispatchAllAppend(s0, la, ta + ra, now);
    var s1 := DispatchAll(s0, la, now);
    DispatchAllKeepsTopics(s0, la, now);
    DispatchAllKeepsRequests(s0, la, now);
    DispatchAllAppend(s1, ta, ra, now);
    var s2 := DispatchAll(s1, ta, now);
    DispatchAllKeepsRequests(s1, ta, now);
    DispatchAllKeepsTopics(s2, ra, now);
  }

  /** After a replace import there are no lists: the list reducer has no case for `addListWithId`. */
  lemma ReplaceImportDropsLists(st: AppState, data: ImportData, now: string)
    ensures DispatchAll(st, ReplaceActions(data), now).lists == []
  {
    var la := ListsReplaceActions(data.lists);
    var ta := TopicsReplaceActions(data.topics);
    var ra := RequestsReplaceActions(data.requests);
    ReplaceActionsSpareLists(data);
    ReplacePhases(st, data, now);
    var s0 := AppState([], [], []);
    var s1 := DispatchAll(s0, la, now);
    var s2 := DispatchAll(s1, ta, now);
    DispatchAllKeepsLists(s0, la, now);
    DispatchAllKeepsLists(s1, ta, now);
    DispatchAllKeepsLists(s2, ra, now);
  }

  /** A list record as the replace import means to restore it. */
  function RestoredList(l: ImportedList): (e: ListEntity)
    ensures e.id == l.id && e.name == l.name
    ensures e.topicIds == GetOr(l.topicIds, []) && e.excludeFromAll == GetOr(l.excludeFromAll, false)
  {
    ListEntity(l.id, l.name, GetOr(l.topicIds, []), GetOr(l.excludeFromAll, false))
  }

  /** The list reducer with the `addListWithId` case it lacks: add the list under the given id unless taken. */
  function ListsReducerWithId(s: seq<ListEntity>, a: Action): (r: seq<ListEntity>)
    ensures !a.AddListWithId? ==> r == ListsReducer(s, a)
  {
    match a
    case AddListWithId(id, name, topicIds, excludeFromAll) =>
      AddOne(s, ListId, ListEntity(id, name, GetOr(topicIds, []), GetOr(excludeFromAll, false)))
    case _ => ListsReducer(s, a)
  }

  /** The lists after `acts`, with the corrected list reducer. */
  function ReplayLists(s: seq<ListEntity>, acts: seq<Action>): seq<ListEntity>
  {
    if acts == [] then s else ListsReducerWithId(ReplayLists(s, acts[..|acts| - 1]), acts[|acts| - 1])
  }

  /** With the corrected reducer, a list record whose id is free is appended as stored. */
  lemma ListStepWithId(s: seq<ListEntity>, l: ImportedList)
    requires !HasId(s, ListId, l.id)
    ensures ListsReducerWithId(s, ListReplaceAction(l)) == s + [RestoredList(l)]
  {
    assert ListId(RestoredList(l)) == l.id;
  }

  /** Replaying one more list record applies the corrected reducer to the lists so far. */
  lemma ReplayListsSnoc(ls: seq<ImportedList>)
    requires ls != []
    ensures ReplayLists([], ListsReplaceActions(ls))
      == ListsReducerWithId(ReplayLists([], ListsReplaceActions(ls[..|ls| - 1])), ListReplaceAction(ls[|ls| - 1]))
  {
    var acts := ListsReplaceActions(ls);
    assert acts[..|acts| - 1] == ListsReplaceActions(ls[..|ls| - 1]);
  }

  /** In a file without repeated ids, no list restored before the last record has its id. */
  lemma RestoredListsLackLastId(ls: seq<ImportedList>)
    requires ls != [] && UniqueKeys(ls, ImportedListId)
    ensures !HasId(Map(ls[..|ls| - 1], RestoredList), ListId, ls[|ls| - 1].id)
  {
    var p := ls[..|ls| - 1];
    var m := Map(p, RestoredList);
    forall i | 0 <= i < |m| ensures ListId(m[i]) != ls[|ls| - 1].id {
      assert m[i] == RestoredList(ls[i]);
    }
  }

  /** With the corrected reducer, replaying the list records of a file without repeated ids restores them in file order. */
  lemma {:induction false} ListsRestoredWithId(ls: seq<ImportedList>)
    requires UniqueKeys(ls, ImportedListId)
    ensures ReplayLists([], ListsReplaceActions(ls)) == Map(ls, RestoredList)
    decreases |ls|
  {
    if ls != [] {
      var p := ls[..|ls| - 1];
      var l := ls[|ls| - 1];
      LastKeyFresh(ls, ImportedListId);
      ListsRestoredWithId(p);
      ReplayListsSnoc(ls);
      RestoredListsLackLastId(ls);
      ListStepWithId(Map(p, RestoredList), l);
      MapSnoc(p, l, RestoredList);
      assert ls == p + [l];
    }
  }

  /** For a file without repeated ids, the replace import rebuilds its topics and requests in file order. */
  lemma ReplaceImportRestores(st: AppState, data: ImportData, now: string)
    requires UniqueKeys(data.topics, ImportedTopicId) && UniqueKeys(data.requests, ImportedRequestId)
    ensures DispatchAll(st, ReplaceActions(data), now).topics == Map(data.topics, RestoredTopic)
    ensures DispatchAll(st, ReplaceActions(data), now).requests == Map(data.requests, (r: ImportedRequest) => RestoredRequest(r, now))
  {
    ReplacePhases(st, data, now);
    var s1 := DispatchAll(AppState([], [], []), ListsReplaceActions(data.lists), now);
    var s2 := DispatchAll(s1, TopicsReplaceActions(data.topics), now);
    TopicsRestored(s1, data.topics, now);
    RequestsRestored(s2, data.requests, now);
  }

  /** The loop over the file's lists in `importReplaceMode`: one `addListWithId` each. */
  method ReplaceLists(lists: seq<ImportedList>) returns (acts: seq<Action>)
    ensures acts == ListsReplaceActions(lists)
  {
    acts := [];
    var i := 0;
    while i < |lists|
      invariant 0 <= i <= |lists|
      invariant acts == ListsReplaceActions(lists[..i])
    {
      assert lists[..i + 1][..i] == lists[..i];
      var l := lists[i];
      acts := acts + [AddListWithId(l.id, l.name, Some(GetOr(l.topicIds, [])), Some(GetOr(l.excludeFromAll, false)))];
      i := i + 1;
    }
    assert lists[..i] == lists;
  }

  /** The loop over the file's topics: `addTopicWithId`, then the request ids when there are any. */
  method ReplaceTopics(topics: seq<ImportedTopic>) returns (acts: seq<Action>)
    ensures acts == TopicsReplaceActions(topics)
  {
    acts := [];
    var j := 0;
    while j < |topics|
      invariant 0 <= j <= |topics|
      invariant acts == TopicsReplaceActions(topics[..j])
    {
      assert topics[..j + 1][..j] == topics[..j];
      var t := topics[j];
      acts := acts + [AddTopicWithId(t.id, t.name)];
      if t.requestIds.Some? && |t.requestIds.value| > 0 {
        acts := acts + [UpdateTopic(t.id, TopicChanges(None, t.requestIds))];
      }
      j := j + 1;
    }
    assert topics[..j] == topics;
  }

  /** The loop over the file's requests: `addRequestWithId`, then the recorded fields when any differ. */
  method ReplaceRequests(requests: seq<ImportedRequest>) returns (acts: seq<Action>)
    ensures acts == RequestsReplaceActions(requests)
  {
    acts := [];
    var k := 0;
    while k < |requests|
      invariant 0 <= k <= |requests|
      invariant acts == RequestsReplaceActions(requests[..k])
    {
      assert requests[..k + 1][..k] == requests[..k];
      var r := requests[k];
      acts := acts + [AddRequestWithId(r.id, Describe(r))];
      var changes := ReplaceChanges(r);
      if changes != NoRequestChanges {
        acts := acts + [UpdateRequest(r.id, changes)];
      }
      k := k + 1;
    }
    assert requests[..k] == requests;
  }

  /**
   * `importReplaceMode`: the dispatches it issues, in order, and the stats it
   * leaves: reset, then the file's stats when they are included.
   */
  method ImportReplace(data: ImportData, options: ImportOptions, stats: PrayerStats) returns (acts: seq<Action>)
    modifies stats
    ensures acts == ReplaceActions(data)
    ensures options.includeStats && data.stats.Some? ==> stats.Snapshot() == FromInput(data.stats.value)
    ensures !(options.includeStats && data.stats.Some?) ==> stats.Snapshot() == ZeroStats
  {
    acts := [ClearLists, ClearTopics, ClearRequests];
    stats.ResetStats();
    var listActs := ReplaceLists(data.lists);
    var topicActs := ReplaceTopics(data.topics);
    var requestActs := ReplaceRequests(data.requests);
    acts := acts + listActs + topicActs + requestActs;
    if options.includeStats && data.stats.Some? {
      stats.SetAllStats(data.stats.value);
    }
  }
}
