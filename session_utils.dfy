/**
 * The prayer-session item union and the standalone helpers that build items,
 * score requests and clamp numbers.
 */
module SessionUtils {
  import opened Wrappers
  import opened Numbers
  import opened Store
  import Models

  const RegisterSeconds := 12
  const DefaultPriority := 1
  const MaxTimeValue := 61
  const MinTimeValue := 1
  const MaxSelectCount := 100
  const MinSelectCount := 1

  /** `PrayerSessionItem`: a request card or a topic card. Optional fields are `Option`s. */
  datatype SessionItem =
    | RequestItem(
        id: int,
        description: string,
        listName: Option<string>,
        topicName: Option<string>,
        createdDate: Option<string>,
        prayerCount: Option<int>,
        priority: Option<int>,
        isAnswered: Option<bool>,
        answeredDate: Option<string>,
        answerDescription: Option<string>)
    | TopicItem(id: int, name: string, listName: Option<string>)

  /** A string field is truthy when present and non-empty. */
  predicate Truthy(s: Option<string>) { s.Some? && s.value != "" }

  function NameOf<T>(o: Option<T>, name: T -> string): (r: Option<string>)
    ensures r.Some? <==> o.Some?
  {
    if o.Some? then Some(name(o.value)) else None
  }

  function TopicName(t: Models.Topic): string { t.name }
  function ListName(l: Models.List): string { l.name }

  /** `createRequestItem`: never fails; invalid input yields the base item with placeholders. */
  function CreateRequestItem(request: Option<RequestEntity>, ownerTopic: Option<Models.Topic>, ownerList: Option<Models.List>): (item: SessionItem)
    ensures item.RequestItem?
    ensures item.listName == NameOf(ownerList, ListName) && item.topicName == NameOf(ownerTopic, TopicName)
    ensures item.priority.Some? && item.prayerCount.Some?
    ensures request.Some? ==> item.priority.value == NumberOr(Some(request.value.priority), DefaultPriority)
    ensures request.Some? ==> item.prayerCount.value == request.value.prayerCount
    ensures request.None? ==> item.priority.value == DefaultPriority && item.prayerCount.value == 0
    ensures request.None? || request.value.id == 0 ==> item.id == 0
    ensures request.None? || request.value.description == "" ==> item.description == "Unknown request"
    ensures item.isAnswered.Some? <==> request.Some? && request.value.id != 0 && request.value.description != ""
    ensures item.isAnswered.None? ==> item.answeredDate.None? && item.answerDescription.None?
    ensures request.Some? && request.value.id != 0 && request.value.description != "" ==>
      item.id == request.value.id && item.description == request.value.description
      && item.isAnswered == Some(Truthy(request.value.answeredDate) && request.value.archived != Some(true))
      && (item.answeredDate.Some? <==> Truthy(request.value.answeredDate))
      && item.answerDescription == request.value.answerDescription
  {
    var base := RequestItem(
      if request.Some? then request.value.id else 0,
      if request.Some? && request.value.description != "" then request.value.description else "Unknown request",
      NameOf(ownerList, ListName),
      NameOf(ownerTopic, TopicName),
      if request.Some? then Some(request.value.createdDate) else None,
      Some(if request.Some? then NumberOr(Some(request.value.prayerCount), 0) else 0),
      Some(if request.Some? then NumberOr(Some(request.value.priority), DefaultPriority) else DefaultPriority),
      None, None, None);
    if request.None? || request.value.id == 0 || request.value.description == "" then base
    else
      var r := request.value;
      base.(isAnswered := Some(Truthy(r.answeredDate) && r.archived != Some(true)),
            answeredDate := if Truthy(r.answeredDate) then r.answeredDate else None,
            answerDescription := r.answerDescription)
  }

  /** `createTopicItem`: never fails; an invalid topic gets id 0 or the placeholder name. */
  function CreateTopicItem(topic: Option<Models.Topic>, ownerList: Option<Models.List>): (item: SessionItem)
    ensures item.TopicItem?
    ensures item.listName == NameOf(ownerList, ListName)
    ensures topic.Some? && topic.value.id != 0 && topic.value.name != "" ==>
      item.id == topic.value.id && item.name == topic.value.name
    ensures topic.None? || topic.value.id == 0 ==> item.id == 0
    ensures topic.None? || topic.value.name == "" ==> item.name == "Unknown topic"
    ensures topic.Some? && topic.value.name != "" ==> item.name == topic.value.name
  {
    if topic.None? || topic.value.id == 0 || topic.value.name == "" then
      TopicItem(if topic.Some? then topic.value.id else 0,
                if topic.Some? && topic.value.name != "" then topic.value.name else "Unknown topic",
                NameOf(ownerList, ListName))
    else TopicItem(topic.value.id, topic.value.name, NameOf(ownerList, ListName))
  }

  /** `calculateRequestScore`: ten points per priority level, minus one per prayer. */
  function RequestScore(r: RequestEntity): int
  {
    NumberOr(Some(r.priority), DefaultPriority) * 10 - NumberOr(Some(r.prayerCount), 0)
  }

  /** A higher priority never lowers the score, and praying never raises it. */
  lemma ScoreMonotone(r: RequestEntity, p: int, c: int)
    requires p >= r.priority
    requires c >= r.prayerCount
    ensures RequestScore(r.(priority := p)) >= RequestScore(r)
    ensures RequestScore(r.(prayerCount := c)) <= RequestScore(r)
  {
  }

  /** A missing priority (0) scores like priority 1, and a prayer count of 0 subtracts nothing. */
  lemma ScoreDefaults(r: RequestEntity)
    ensures r.priority == 0 ==> RequestScore(r) == 10 - r.prayerCount
    ensures RequestScore(r) == NumberOr(Some(r.priority), 1) * 10 - r.prayerCount
  {
  }

  /** `clamp(value, min, max) = Math.max(min, Math.min(value, max))`. */
  function Clamp(value: int, lo: int, hi: int): (r: int)
    ensures lo <= hi ==> lo <= r <= hi
    ensures lo <= value <= hi ==> r == value
    ensures value < lo ==> r == lo
    ensures value > hi ==> r == Max(lo, hi)
  {
    Max(lo, Min(value, hi))
  }

  /** Clamping twice is clamping once. */
  lemma ClampIdempotent(value: int, lo: int, hi: int)
    requires lo <= hi
    ensures Clamp(Clamp(value, lo, hi), lo, hi) == Clamp(value, lo, hi)
  {
  }
}
