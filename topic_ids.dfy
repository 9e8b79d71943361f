/**
 * Topic ids handed out one after another above the current ones, as a merge
 * that adds several topics needs them, and the updates that leave topics as
 * they are.
 */
module TopicIds {
  import opened Wrappers
  import opened Collections
  import opened Store

  /** The id of the `k`-th unmatched topic when ids are handed out one after another from the snapshot's next id. */
  function FreshTopicId(cur: seq<TopicEntity>, k: nat): int
  {
    NextId(Ids(cur, TopicId)) + k
  }

  /** The handed-out ids lie above every current id and increase, so each names one topic. */
  lemma FreshIdsAvoidCurrent(cur: seq<TopicEntity>, added: seq<TopicEntity>, e: TopicEntity)
    requires forall k :: 0 <= k < |added| ==> added[k].id == FreshTopicId(cur, k)
    requires e in cur + added
    ensures e in cur ==> e.id < NextId(Ids(cur, TopicId))
    ensures e !in cur ==> NextId(Ids(cur, TopicId)) <= e.id
    ensures e.id < FreshTopicId(cur, |added|)
  {
    if e in cur {
      var j :| 0 <= j < |cur| && cur[j] == e;
      assert Ids(cur, TopicId)[j] == e.id;
      assert e.id in Ids(cur, TopicId);
    } else {
      var k :| 0 <= k < |added| && added[k] == e;
    }
  }

  /** An added topic never carries the id of a current one. */
  lemma AddedIdsAboveCurrent(cur: seq<TopicEntity>, added: seq<TopicEntity>, i: nat, q: nat)
    requires i < |cur| && |cur| <= q < |cur| + |added|
    requires forall k :: 0 <= k < |added| ==> added[k].id == FreshTopicId(cur, k)
    ensures (cur + added)[q].id != cur[i].id
  {
    var ids := Ids(cur, TopicId);
    assert ids[i] in ids;
    assert (cur + added)[q] == added[q - |cur|];
  }

  /** Updating topic `id` with `c` leaves every topic with that id as it is. */
  predicate UpdateLeaves(s: seq<TopicEntity>, id: int, c: TopicChanges)
  {
    forall q :: 0 <= q < |s| && s[q].id == id ==> ApplyTopicChanges(s[q], c) == s[q]
  }

  /** Such an update leaves the topics as they are. */
  lemma UpdateTopicNoOp(s: seq<TopicEntity>, id: int, c: TopicChanges)
    requires UpdateLeaves(s, id, c)
    ensures TopicsReducer(s, UpdateTopic(id, c)) == s
  {
    UpdateTopicTouchesOnlyTarget(s, id, c);
  }

  /** `updateTopic` acts on two runs of topics separately. */
  lemma UpdateTopicConcat(a: seq<TopicEntity>, b: seq<TopicEntity>, id: int, c: TopicChanges)
    ensures TopicsReducer(a + b, UpdateTopic(id, c)) == TopicsReducer(a, UpdateTopic(id, c)) + TopicsReducer(b, UpdateTopic(id, c))
  {
    UpdateTopicTouchesOnlyTarget(a + b, id, c);
    UpdateTopicTouchesOnlyTarget(a, id, c);
    UpdateTopicTouchesOnlyTarget(b, id, c);
  }

  /** With unique ids, the current topic at `i` is the only one with its id. */
  lemma OnlyIndexWithId(cur: seq<TopicEntity>, i: nat)
    requires UniqueKeys(cur, TopicId) && i < |cur|
    ensures forall q :: 0 <= q < |cur| && cur[q].id == cur[i].id ==> q == i
  {
    forall q | 0 <= q < |cur| && cur[q].id == cur[i].id ensures q == i {
      assert TopicId(cur[q]) == TopicId(cur[i]);
    }
  }

  /** With unique ids, renaming the current topic at `i` to its own name touches only that topic and keeps it. */
  lemma CurrentRenameLeaves(cur: seq<TopicEntity>, i: nat, name: string)
    requires UniqueKeys(cur, TopicId) && i < |cur| && cur[i].name == name
    ensures UpdateLeaves(cur, cur[i].id, TopicChanges(Some(name), None))
  {
    OnlyIndexWithId(cur, i);
  }

  /** No added topic carries a current id, so renaming a current topic touches none of them. */
  lemma AddedRenameLeaves(cur: seq<TopicEntity>, added: seq<TopicEntity>, i: nat, name: string)
    requires i < |cur|
    requires forall k :: 0 <= k < |added| ==> added[k].id == FreshTopicId(cur, k)
    ensures UpdateLeaves(added, cur[i].id, TopicChanges(Some(name), None))
  {
    forall q | 0 <= q < |added|
      ensures added[q].id != cur[i].id
    {
      AddedIdsAboveCurrent(cur, added, i, |cur| + q);
      assert (cur + added)[|cur| + q] == added[q];
    }
  }

  /** Renaming a current topic to the name it has leaves the current and the added topics as they are. */
  lemma MatchedTopicUnchanged(cur: seq<TopicEntity>, added: seq<TopicEntity>, i: nat, name: string)
    requires UniqueKeys(cur, TopicId) && i < |cur| && cur[i].name == name
    requires forall k :: 0 <= k < |added| ==> added[k].id == FreshTopicId(cur, k)
    ensures TopicsReducer(cur + added, UpdateTopic(cur[i].id, TopicChanges(Some(name), None))) == cur + added
  {
    CurrentRenameLeaves(cur, i, name);
    UpdateTopicNoOp(cur, cur[i].id, TopicChanges(Some(name), None));
    AddedRenameLeaves(cur, added, i, name);
    UpdateTopicNoOp(added, cur[i].id, TopicChanges(Some(name), None));
    UpdateTopicConcat(cur, added, cur[i].id, TopicChanges(Some(name), None));
  }

  /** The next handed-out id is free, so adding a topic under it appends that topic. */
  lemma FreshTopicAppended(cur: seq<TopicEntity>, added: seq<TopicEntity>, name: string)
    requires forall k :: 0 <= k < |added| ==> added[k].id == FreshTopicId(cur, k)
    ensures var n := FreshTopicId(cur, |added|);
      TopicsReducer(cur + added, AddTopicWithId(n, name)) == cur + added + [TopicEntity(n, name, [])]
  {
    var n := FreshTopicId(cur, |added|);
    forall e | e in cur + added ensures e.id != n {
      FreshIdsAvoidCurrent(cur, added, e);
    }
    assert !HasId(cur + added, TopicId, n);
  }
}
