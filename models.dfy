/**
 * The domain model classes `Request`, `Topic` and `List`. Each constructor
 * validates one field and fills defaults with `??`, so supplied values
 * (including 0 and false) are kept. Dates are epoch milliseconds; `now` is the
 * reading `new Date()` would take.
 */
module Models {
  import opened Wrappers

  const NewRequestId := 0
  const NewTopicId := 0
  const NewContextId := 0

  /** `Partial<Request>`: every field may be absent. */
  datatype RequestInit = RequestInit(
    id: Option<int>,
    description: Option<string>,
    createdDate: Option<int>,
    answeredDate: Option<int>,
    answerDescription: Option<string>,
    prayerCount: Option<int>,
    archived: Option<bool>,
    priority: Option<int>)

  datatype Request = Request(
    id: int,
    description: string,
    createdDate: int,
    answeredDate: Option<int>,
    answerDescription: Option<string>,
    prayerCount: int,
    archived: bool,
    priority: int)

  datatype TopicInit = TopicInit(id: Option<int>, name: Option<string>, requestIds: Option<seq<int>>)
  datatype Topic = Topic(id: int, name: string, requestIds: seq<int>)

  datatype ListInit = ListInit(id: Option<int>, name: Option<string>, topicIds: Option<seq<int>>)
  datatype List = List(id: int, name: string, topicIds: seq<int>)

  /** `new Request(init)`: fails with 'Empty Request' on a missing or empty description. */
  function MakeRequest(init: RequestInit, now: int): (r: Result<Request>)
    ensures r.Err? <==> init.description.None? || init.description.value == ""
    ensures r.Err? ==> r.message == "Empty Request"
    ensures r.Ok? ==> r.value.description == init.description.value
    ensures r.Ok? ==> r.value.id == (if init.id.Some? then init.id.value else NewRequestId)
    ensures r.Ok? ==> r.value.createdDate == (if init.createdDate.Some? then init.createdDate.value else now)
    ensures r.Ok? ==> r.value.answeredDate == init.answeredDate && r.value.answerDescription == init.answerDescription
    ensures r.Ok? ==> r.value.archived == (init.archived.Some? && init.archived.value)
    ensures r.Ok? ==> r.value.prayerCount == (if init.prayerCount.Some? then init.prayerCount.value else 0)
    ensures r.Ok? ==> r.value.priority == (if init.priority.Some? then init.priority.value else 1)
  {
    if init.description.None? || init.description.value == "" then Err("Empty Request")
    else Ok(Request(
      GetOr(init.id, NewRequestId),
      init.description.value,
      GetOr(init.createdDate, now),
      init.answeredDate,
      init.answerDescription,
      GetOr(init.prayerCount, 0),
      GetOr(init.archived, false),
      GetOr(init.priority, 1)))
  }

  /** Every field of a request, as a partial that supplies all of them. */
  function RequestFields(q: Request): RequestInit
  {
    RequestInit(Some(q.id), Some(q.description), Some(q.createdDate), q.answeredDate,
      q.answerDescription, Some(q.prayerCount), Some(q.archived), Some(q.priority))
  }

  /** Rebuilding a request from its own fields gives it back unchanged: no supplied value is overridden by a default. */
  lemma RequestRebuild(q: Request, now: int)
    requires q.description != ""
    ensures MakeRequest(RequestFields(q), now) == Ok(q)
  {
  }

  /** The defaults of a request built from a description only. */
  lemma RequestDefaults(description: string, now: int)
    requires description != ""
    ensures MakeRequest(RequestInit(None, Some(description), None, None, None, None, None, None), now)
      == Ok(Request(0, description, now, None, None, 0, false, 1))
  {
  }

  /** `new Topic(init)`: fails with 'Empty Topic' on a missing or empty name. */
  function MakeTopic(init: TopicInit): (r: Result<Topic>)
    ensures r.Err? <==> init.name.None? || init.name.value == ""
    ensures r.Err? ==> r.message == "Empty Topic"
    ensures r.Ok? ==> r.value.name == init.name.value
    ensures r.Ok? ==> r.value.id == (if init.id.Some? then init.id.value else NewTopicId)
    ensures r.Ok? ==> r.value.requestIds == (if init.requestIds.Some? then init.requestIds.value else [])
  {
    if init.name.None? || init.name.value == "" then Err("Empty Topic")
    else Ok(Topic(GetOr(init.id, NewTopicId), init.name.value, GetOr(init.requestIds, [])))
  }

  lemma TopicRebuild(t: Topic)
    requires t.name != ""
    ensures MakeTopic(TopicInit(Some(t.id), Some(t.name), Some(t.requestIds))) == Ok(t)
  {
  }

  /** `new List(init)`: fails with 'Empty Context' on a missing or empty name. */
  function MakeList(init: ListInit): (r: Result<List>)
    ensures r.Err? <==> init.name.None? || init.name.value == ""
    ensures r.Err? ==> r.message == "Empty Context"
    ensures r.Ok? ==> r.value.name == init.name.value
    ensures r.Ok? ==> r.value.id == (if init.id.Some? then init.id.value else NewContextId)
    ensures r.Ok? ==> r.value.topicIds == (if init.topicIds.Some? then init.topicIds.value else [])
  {
    if init.name.None? || init.name.value == "" then Err("Empty Context")
    else Ok(List(GetOr(init.id, NewContextId), init.name.value, GetOr(init.topicIds, [])))
  }

  lemma ListRebuild(l: List)
    requires l.name != ""
    ensures MakeList(ListInit(Some(l.id), Some(l.name), Some(l.topicIds))) == Ok(l)
  {
  }
}
