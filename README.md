# A verified model of the prayer app's session engine and data store

The app organises prayer requests into topics and topics into lists, and runs
prayer sessions over them: a session takes the requests in scope (one list, or
every list not excluded from "all"), orders them by score or shuffles them with
a priority weighting, shows them as cards in a swipeable carousel with an
optional countdown, and counts a prayer for each card that stays on screen long
enough. Statistics accumulate across sessions. The data lives in an NgRx store
of three entity collections; the list and topic pages edit it, a repair routine
in the settings page cleans it up, and it can be exported and imported.

This project models that core in Dafny and proves what the code promises about
it. Each source file has a module of its own:

| module | models |
|---|---|
| `Models` | the `Request`, `Topic` and `List` constructors with their validation and defaults |
| `Store` | the actions and the three entity reducers, with `nextId` |
| `SessionUtils` | the session item union, item building, the request score, `clamp` |
| `Scope`, `Ordering`, `Shuffle`, `Session` | the session pool of `PrayerSessionService`: scope, score order, weighted shuffle and dedupe, the freeze, the selection helpers |
| `Timing` | `TimerService` (countdown, dwell timer, per-session counting) and the time settings and labels |
| `Swipe`, `Carousel` | the swipe rule, `CarouselService` and `CarouselComponent` |
| `SessionComponent`, `PrayComponent` | the current session screen and the legacy pray screen, each as a class over its own fields |
| `Stats`, `StatsCard` | `PrayerStats` and the end-of-session stats card |
| `DateUtils` | the answered-time captions |
| `ListComponent`, `TopicComponent` | the list and topic pages |
| `Cleanup` | the eight-step store repair of `SettingsComponent.cleanupData` |
| `ImportExport`, `ImportMerge`, `TopicIds` | the export filters, the stats merge, and the replace and merge imports |
| `Wrappers`, `Numbers`, `Text`, `Collections` | JavaScript idioms and sequence helpers the rest shares |

Code that changes fields in place is modelled as classes whose methods state
their whole new state in terms of specification functions (`TimerService`,
`CarouselService`, `CarouselComponent`, `PrayerStats`, the session service and
components, the list and topic pages). Loops are methods proved to compute
those functions: the Fisher–Yates shuffle works in place on an array, and the
repair and import loops are proved to dispatch exactly the actions their
specification functions list. Reducers, scoring, formatting and the export
filters are functions. A component's dispatches are applied to the store state
`st` at once, in order.

## Model

| member | source | states |
|---|---|---|
| Models.MakeRequest | src/app/shared/models/request.ts:13-23 | fails with 'Empty Request' exactly when the description is missing or empty; otherwise each field is the supplied value or its default (id 0, created now, not archived, 0 prayers, priority 1) |
| Models.RequestRebuild | src/app/shared/models/request.ts:13-23 | building a request from all of its own fields gives it back unchanged |
| Models.RequestDefaults | src/app/shared/models/request.ts:15-22 | a request built from a description alone has id 0, is created now, unanswered, unarchived, never prayed, priority 1 |
| Models.MakeTopic | src/app/shared/models/topic.ts:8-13 | fails with 'Empty Topic' exactly when the name is missing or empty; otherwise id defaults to 0 and request ids to none |
| Models.TopicRebuild | src/app/shared/models/topic.ts:8-13 | building a topic from its own fields gives it back unchanged |
| Models.MakeList | src/app/shared/models/list.ts:8-13 | fails with 'Empty Context' exactly when the name is missing or empty; otherwise id defaults to 0 and topic ids to none |
| Models.ListRebuild | src/app/shared/models/list.ts:8-13 | building a list from its own fields gives it back unchanged |
| Store.AddOne | src/app/store/requests/request.reducer.ts:32 | `adapter.addOne`: the entity is appended unless its id is already present; Store.AddOneSpec proves both cases |
| Store.UpdateOne | src/app/store/requests/request.reducer.ts:38 | `adapter.updateOne`: the entity with that id takes the change, every other entity and the order stay; Store.UpdateOneSpec proves it |
| Store.RemoveOne | src/app/store/requests/request.reducer.ts:39 | `adapter.removeOne`: every entity with that id goes, the rest keep their order; Store.RemoveOneSpec and Store.RemoveOneKeepsUnique prove it |
| Store.ListsReducer | src/app/store/lists/list.reducer.ts:24-33 | the list reducer: add under `nextId` with no topics, update, remove, clear; every other action, `addListWithId` included, leaves the lists as they are; its properties are Store.ListsReducerKeepsIdsUnique, Store.AddListAppendsFresh, Store.UpdateListTouchesOnlyTarget and Store.RemoveListDeletesOnlyTarget |
| Store.TopicsReducer | src/app/store/topics/topic.reducer.ts:24-36 | the topic reducer: add under `nextId` or under a given id with no requests, update, remove, clear; its properties are Store.TopicsReducerKeepsIdsUnique, Store.AddTopicAppendsFresh, Store.DispatchAddTopicWithId, Store.UpdateTopicTouchesOnlyTarget and Store.RemoveTopicDeletesOnlyTarget |
| Store.RequestsReducer | src/app/store/requests/request.reducer.ts:27-41 | the request reducer: a new request (under `nextId` or a given id) is stamped with the clock reading, unanswered, never prayed, priority 1; update, remove, clear; its properties are Store.RequestsReducerKeepsIdsUnique, Store.AddRequestAppendsFresh, Store.UpdateRequestTouchesOnlyTarget and Store.RemoveRequestDeletesOnlyTarget |
| Store.Dispatch | src/app/store/index.ts:12-23 | `store.dispatch`: each of the three feature reducers sees the action; Store.DispatchKeepsIdsUnique proves every collection keeps one entity per id |
| Store.DispatchAll | src/app/store/index.ts:12-23 | several dispatches in order; Store.DispatchAllAppend, Store.DispatchAllOne and Store.DispatchAllPair relate it to single dispatches |
| Store.NextId | src/app/store/requests/request.reducer.ts:22-25 | the next id exceeds every stored id; it is 1 for an empty collection and otherwise the largest id plus one |
| Store.AddOneSpec | src/app/store/requests/request.reducer.ts:32 | the entity adapter's `addOne` ignores an entity whose id is already stored and otherwise appends it; ids stay unique and the id is then present |
| Store.RemoveOneSpec | src/app/store/requests/request.reducer.ts:39 | `removeOne` keeps exactly the entities with another id, never grows the collection, and the id is gone afterwards |
| Store.RemoveOneKeepsUnique | src/app/store/requests/request.reducer.ts:39 | `removeOne` keeps ids unique |
| Store.UpdateOneSpec | src/app/store/requests/request.reducer.ts:38 | `updateOne` keeps the length and the ids, applies the changes at the positions holding the id, and leaves every other position as it was |
| Store.ListsReducerKeepsIdsUnique | src/app/store/lists/list.reducer.ts:24-33 | every action keeps the list ids unique |
| Store.TopicsReducerKeepsIdsUnique | src/app/store/topics/topic.reducer.ts:24-36 | every action keeps the topic ids unique |
| Store.RequestsReducerKeepsIdsUnique | src/app/store/requests/request.reducer.ts:27-41 | every action keeps the request ids unique |
| Store.DispatchKeepsIdsUnique | src/app/store/requests/request.reducer.ts:27-41 | dispatching any action keeps all three collections free of duplicate ids |
| Store.NextIdIsFresh | src/app/store/topics/topic.reducer.ts:19-22 | the next id belongs to no stored entity, and in a non-empty collection its predecessor is stored |
| Store.AddRequestAppendsFresh | src/app/store/requests/request.reducer.ts:29-33 | `addRequest` appends one request with the next id, the description, the clock reading, no answer, no prayers and priority 1 |
| Store.AddTopicAppendsFresh | src/app/store/topics/topic.reducer.ts:26-29 | `addTopic` appends one empty topic with the next id and the name |
| Store.AddListAppendsFresh | src/app/store/lists/list.reducer.ts:26-29 | `addList` appends one empty list with the next id and the name |
| Store.UpdateRequestTouchesOnlyTarget | src/app/store/requests/request.reducer.ts:38 | `updateRequest` merges the changes into the request with that id only; ids and length are kept |
| Store.UpdateTopicTouchesOnlyTarget | src/app/store/topics/topic.reducer.ts:33 | `updateTopic` merges the changes into the topic with that id only |
| Store.UpdateListTouchesOnlyTarget | src/app/store/lists/list.reducer.ts:30 | `updateList` merges the changes into the list with that id only |
| Store.UpdateListAt | src/app/store/lists/list.reducer.ts:30 | with unique ids, updating the list at one position replaces that position alone and keeps ids unique |
| Store.UpdateTopicAt | src/app/store/topics/topic.reducer.ts:33 | with unique ids, updating the topic at one position replaces that position alone and keeps ids unique |
| Store.RemoveRequestDeletesOnlyTarget | src/app/store/requests/request.reducer.ts:39 | `removeRequest` deletes the request with that id and keeps every other one |
| Store.RemoveTopicDeletesOnlyTarget | src/app/store/topics/topic.reducer.ts:34 | `removeTopic` deletes the topic with that id and keeps every other one |
| Store.RemoveListDeletesOnlyTarget | src/app/store/lists/list.reducer.ts:31 | `removeList` deletes the list with that id and keeps every other one |
| Store.DispatchAllKeepsLists | src/app/store/lists/list.reducer.ts:24-33 | a run of actions none of which is a list action leaves the lists as they were |
| Store.DispatchAddTopicWithId | src/app/store/topics/topic.reducer.ts:30-32 | `addTopicWithId` under a free id appends an empty topic with that id and name and changes nothing else |
| Store.DispatchAllAppend | src/app/store/requests/request.reducer.ts:27-41 | dispatching two runs of actions in turn is dispatching their concatenation |
| Scope.ScopedTopics | src/app/shared/services/prayer-session.service.ts:57-76 | the session's topics in store order: a truthy list id gives that list's topics (none for an unknown list); without one, the service keeps each topic whose first list exists and is not excluded and the legacy component keeps every topic; proved in Scope.ScopeOfList, Scope.ScopeOfAllLists and Scope.LegacyScopeIsEveryTopic |
| Scope.ScopedRequestsSeen | src/app/shared/services/prayer-session.service.ts:79-91 | the request filter with the `requestIdSet` shortcut; Scope.SeenFilterKeepsBelonging proves every request it keeps belongs to the scope |
| Scope.ScopedRequests | src/app/shared/services/prayer-session.service.ts:156 | the plain filter: requests that some scoped topic lists and, when answered ones are dropped, are unanswered; Scope.SeenFilterIsPlainFilter proves the shortcut filter equals it when request ids are unique |
| Scope.ListById | src/app/shared/services/prayer-session.service.ts:60 | finds a list with the id when there is one, and reports none only when no list has it |
| Scope.ListContaining | src/app/shared/services/prayer-session.service.ts:68 | finds a list naming the topic when there is one, and reports none only when no list names it |
| Scope.TopicContaining | src/app/shared/services/prayer-session.service.ts:104 | finds a topic naming the request when there is one, and reports none only when no topic names it |
| Scope.ScopeOfList | src/app/shared/services/prayer-session.service.ts:57-61 | with a list id the scope is exactly the stored topics that list names, in store order; an unknown list gives no topics |
| Scope.ScopeOfAllLists | src/app/shared/services/prayer-session.service.ts:62-76 | without a list id a topic is in scope iff the first list naming it exists and is not excluded from all; a topic in no list is never in scope |
| Scope.LegacyScopeIsEveryTopic | src/app/pray/pray.component.ts:52-61 | the legacy pray page takes every topic when no list id is given |
| Scope.SeenIds | src/app/shared/services/prayer-session.service.ts:79-89 | the ids remembered by the filter are exactly the ids of requests that belong to a scoped topic |
| Scope.SeenFilterIsPlainFilter | src/app/shared/services/prayer-session.service.ts:79-91 | with unique request ids, the filter's remembered-id shortcut keeps exactly the requests of the plain filter: belonging to a scoped topic and unanswered |
| Scope.SeenFilterKeepsBelonging | src/app/shared/services/prayer-session.service.ts:79-91 | without the answered test the shortcut keeps exactly the belonging requests, whatever the ids |
| Scope.EmptyTopics | src/app/shared/services/prayer-session.service.ts:94 | the empty topics are exactly the scoped topics listing no request |
| Scope.RequestCard | src/app/shared/services/prayer-session.service.ts:103-116 | a request card carries the request's id, description, priority and prayer count, and no answered flag |
| Scope.TopicCard | src/app/shared/services/prayer-session.service.ts:118-121 | a topic card carries the topic's id and name |
| Scope.RequestCards | src/app/shared/services/prayer-session.service.ts:103-116 | one request card per request, in order |
| Scope.TopicCards | src/app/shared/services/prayer-session.service.ts:118-121 | one topic card per empty topic, in order |
| SessionUtils.CreateRequestItem | src/app/shared/utils/prayer-session-utils.ts:10-37 | never fails; an invalid request (missing, id 0 or empty description) yields the base item with id 0 / 'Unknown request' and no answer fields; a valid one carries its id, description, answered flag (answered and not archived), answered date and answer text; priority defaults to 1 |
| SessionUtils.CreateTopicItem | src/app/shared/utils/prayer-session-utils.ts:42-59 | never fails; a valid topic keeps its id and name; a missing or zero id gives 0 and a missing or empty name gives 'Unknown topic' |
| SessionUtils.RequestScore | src/app/shared/utils/prayer-session-utils.ts:65-69 | `calculateRequestScore`: ten points per priority level minus one per prayer, with missing values read as priority 1 and no prayers; SessionUtils.ScoreMonotone and SessionUtils.ScoreDefaults state this |
| SessionUtils.ScoreMonotone | src/app/shared/utils/prayer-session-utils.ts:65-69 | a higher priority never lowers a request's score and more prayers never raise it |
| SessionUtils.ScoreDefaults | src/app/shared/utils/prayer-session-utils.ts:65-69 | a missing (zero) priority scores as priority 1; the score is ten per priority level minus the prayer count |
| SessionUtils.Clamp | src/app/shared/utils/prayer-session-utils.ts:74-76 | the result lies between the bounds, equals the value inside them, and is the lower bound below them |
| SessionUtils.ClampIdempotent | src/app/shared/utils/prayer-session-utils.ts:74-76 | clamping twice is clamping once |
| Ordering.SortedByScore | src/app/shared/services/prayer-session.service.ts:101 | the order `scored.sort` leaves: scores never increase along the sequence; Ordering.SortIsSorted proves the sort establishes it |
| Ordering.BaseItems | src/app/shared/services/prayer-session.service.ts:52-123 | `baseItems`: the scoped requests sorted by score as cards, then one card per empty scoped topic; Ordering.BaseItemsSplit and Ordering.BaseItemsShape state its shape |
| Ordering.OrderedPool | src/app/shared/services/prayer-session.service.ts:96-122 | a pool that starts with one card per scoped request, in non-increasing score, and continues with topic cards; Ordering.ConcatIsOrderedPool and Ordering.BaseItemsShape prove `baseItems` is one |
| Ordering.InsertByScore | src/app/shared/services/prayer-session.service.ts:101 | inserting keeps every element: the result is the input plus the new request, as a multiset |
| Ordering.SortByScore | src/app/shared/services/prayer-session.service.ts:97-101 | the sort is a permutation of the scoped requests |
| Ordering.InsertKeepsSorted | src/app/shared/services/prayer-session.service.ts:101 | inserting into a list ordered by non-increasing score keeps it ordered |
| Ordering.SortIsSorted | src/app/shared/services/prayer-session.service.ts:96-101 | the sorted requests have non-increasing scores (priority times ten minus prayers) |
| Ordering.InsertStable | src/app/shared/services/prayer-session.service.ts:101 | inserting keeps the relative order of the requests of each score |
| Ordering.SortIsStable | src/app/shared/services/prayer-session.service.ts:101 | the sort is stable: requests of equal score keep their store order |
| Ordering.BaseItemsSplit | src/app/shared/services/prayer-session.service.ts:52-123 | with unique ids, the sorted pool is the cards of the sorted, plain-filtered requests followed by the empty topics' cards |
| Ordering.SortedCards | src/app/shared/services/prayer-session.service.ts:103-116 | cards built from sorted requests keep non-increasing scores |
| Ordering.CardIds | src/app/shared/services/prayer-session.service.ts:103-116 | the cards carry exactly the ids of the requests they are built from |
| Ordering.SortKeepsIds | src/app/shared/services/prayer-session.service.ts:101 | sorting keeps the set of request ids |
| Ordering.ConcatIsOrderedPool | src/app/shared/services/prayer-session.service.ts:117-122 | score-ordered request cards with the requests' ids, followed by the topic cards, form an ordered pool |
| Ordering.SortedCardsThenTail | src/app/shared/services/prayer-session.service.ts:96-122 | the request cards of the sorted requests followed by any tail form an ordered pool |
| Ordering.BaseItemsShape | src/app/shared/services/prayer-session.service.ts:52-123 | the non-shuffled pool holds one card per scoped unanswered request, in non-increasing score order, and then exactly the empty topics' cards |
| Ordering.TopicCardsAreTopics | src/app/shared/services/prayer-session.service.ts:118-121 | cards built from topics are topic cards of those topics |
| Shuffle.Weighted | src/app/shared/services/prayer-session.service.ts:166-187 | the `weighted` array before shuffling: each scoped request's card as many times as its weight, in request order, then one card per empty topic; Shuffle.BuildWeighted computes it and Shuffle.WeightedIds and Shuffle.WeightedCount state its contents |
| Shuffle.Shuffled | src/app/shared/services/prayer-session.service.ts:189-193 | the list after the Fisher–Yates loop with the draws `rand`; Shuffle.ShufflePermutes proves it a permutation and Shuffle.FisherYates computes it in place |
| Shuffle.Deduped | src/app/shared/services/prayer-session.service.ts:195-204 | the deduplication pass: the first card of each request kept, topic cards kept; Shuffle.DedupedKeepsIds, Shuffle.DedupedIsDuplicateFree and Shuffle.DedupedKeepsTopics prove it |
| Shuffle.ShuffledPool | src/app/shared/services/prayer-session.service.ts:164-205 | the pool of shuffle mode: weighted, shuffled, deduplicated; Shuffle.ShuffledPoolSpec states which cards it holds and Shuffle.ShufflePool computes it |
| Shuffle.Weight | src/app/shared/services/prayer-session.service.ts:170 | a request is repeated at least once, and exactly its priority times when the priority is at least 1 |
| Shuffle.BuildWeighted | src/app/shared/services/prayer-session.service.ts:166-187 | the loops build the weighted list: each request's card repeated by its weight, then the empty topics' cards |
| Shuffle.SwapPermutes | src/app/shared/services/prayer-session.service.ts:192 | a swap keeps the multiset of elements |
| Shuffle.ShuffleFromPermutes | src/app/shared/services/prayer-session.service.ts:190-193 | every Fisher-Yates step sequence keeps the multiset of elements, whatever the random draws |
| Shuffle.ShufflePermutes | src/app/shared/services/prayer-session.service.ts:189-193 | the Fisher-Yates shuffle is a permutation, whatever the random draws |
| Shuffle.FisherYates | src/app/shared/services/prayer-session.service.ts:189-193 | the in-place loop over the array leaves it holding the shuffle of its old contents |
| Shuffle.Dedupe | src/app/shared/services/prayer-session.service.ts:195-204 | the deduplicating loop computes the deduplicated pool |
| Shuffle.DedupedKeepsIds | src/app/shared/services/prayer-session.service.ts:195-204 | deduplication keeps every request id |
| Shuffle.DedupedIsDuplicateFree | src/app/shared/services/prayer-session.service.ts:195-204 | after deduplication no request id occurs twice |
| Shuffle.DedupedKeepsTopics | src/app/shared/services/prayer-session.service.ts:199 | deduplication keeps every topic card, in order |
| Shuffle.WeightedCardIds | src/app/shared/services/prayer-session.service.ts:167-183 | the weighted request cards carry exactly the scoped requests' ids and no topic card |
| Shuffle.WeightedIds | src/app/shared/services/prayer-session.service.ts:166-187 | the weighted list carries exactly the requests' ids, and its topic cards are exactly the empty topics' cards, in order |
| Shuffle.WeightedCount | src/app/shared/services/prayer-session.service.ts:167-183 | with unique ids, each request occurs in the weighted list exactly its weight many times |
| Shuffle.ShufflePool | src/app/shared/services/prayer-session.service.ts:164-205 | the shuffle branch computes the deduplicated shuffle of the weighted list |
| Shuffle.ShuffledPoolSpec | src/app/shared/services/prayer-session.service.ts:164-205 | the shuffled pool shows each scoped request exactly once and every empty topic exactly once |
| Shuffle.ShuffledKeepsWeights | src/app/shared/services/prayer-session.service.ts:189-193 | before deduplication the shuffle still holds each request as many times as its weight |
| Session.SessionPool | src/app/shared/services/prayer-session.service.ts:160-208 | the pool a recomputation freezes: `ShuffledPool` in shuffle mode, `baseItems` otherwise; Session.SessionPoolCoversScope proves it shows each scoped unanswered request exactly once, plus the empty scoped topics |
| Session.LegacyItems | src/app/pray/pray.component.ts:46-137 | the legacy component's pool: every topic without a list id, answered requests kept, recomputed on every change; Session.LegacyItemsKeepAnswered proves which requests it shows |
| Session.SelectedItems | src/app/prayer-session/prayer-session.component.ts:246-287 | `selectedItems`: nothing for an empty pool, otherwise the answered cards the slider asks for, then a prefix of the pool; Session.SelectedItemsSpec proves it |
| Session.PoolSignature | src/app/shared/services/prayer-session.service.ts:156-158 | the change-detection key counts one entry per scoped unanswered request (the sorted, joined id string is modelled as the multiset of ids) |
| Session.SessionPoolCoversScope | src/app/shared/services/prayer-session.service.ts:131-210 | whether shuffled or sorted, the pool shows exactly the scoped unanswered requests, each once, and exactly the empty scoped topics |
| Session.SortedPoolCoversRequests | src/app/shared/services/prayer-session.service.ts:96-122 | the sorted pool shows each request once and keeps the topic cards |
| Session.CardsThenTopicsIds | src/app/shared/services/prayer-session.service.ts:102-122 | request cards followed by topic cards carry exactly the requests' ids |
| Session.CardsThenTopicsUnique | src/app/shared/services/prayer-session.service.ts:102-122 | with unique request ids, request cards followed by topic cards repeat no request |
| Session.LegacyItemsKeepAnswered | src/app/pray/pray.component.ts:63-117 | the legacy pray page's shuffled pool shows every scoped request, answered ones included |
| Session.Refresh | src/app/shared/services/prayer-session.service.ts:216-224 | a request card takes the current prayer count of the stored request with its id; topic cards and cards of vanished requests are unchanged |
| Session.RefreshCounts | src/app/shared/services/prayer-session.service.ts:213-225 | the displayed items are the frozen pool item by item, with prayer counts refreshed |
| Session.RefreshIdempotent | src/app/shared/services/prayer-session.service.ts:213-225 | refreshing the counts twice is refreshing once |
| Session.AnsweredRequests | src/app/shared/services/prayer-session.service.ts:47 | exactly the stored requests with an answered date |
| Session.AnsweredCard | src/app/prayer-session/prayer-session.component.ts:259-275 | an answered card carries the request's id, is flagged answered, and carries the answer date when set and the answer text |
| Session.AnsweredCards | src/app/prayer-session/prayer-session.component.ts:259-275 | one answered card per sampled answered request, in order |
| Session.RegularSelection | src/app/prayer-session/prayer-session.component.ts:279-284 | the regular selection is a prefix of the pool: all of it when the count reaches its length, otherwise at least one and at most the count |
| Session.SelectedItemsSpec | src/app/prayer-session/prayer-session.component.ts:246-287 | the selection is empty for an empty pool; otherwise the first min(answered setting, answered count) cards are answered requests, followed by the regular selection |
| Session.AnsweredPrefixDistinct | src/app/prayer-session/prayer-session.component.ts:257 | the sampled answered cards repeat no request |
| Session.SyncedCount | src/app/prayer-session/prayer-session.component.ts:290-300 | the count syncs to 0 for an empty pool, keeps an in-range value, and otherwise becomes the pool size |
| Session.SyncedCountStable | src/app/prayer-session/prayer-session.component.ts:290-300 | the sync effect reaches a fixed point after one run |
| Session.SelectCountAfterChange | src/app/prayer-session/prayer-session.component.ts:445-448 | the slider value is clamped to at least 1 and, when the pool is non-empty, at most its size |
| Session.EmptyPoolCountSyncsToZero | src/app/prayer-session/prayer-session.component.ts:445-448 | on an empty pool the slider stores 1 and the sync effect then resets it to 0 |
| Session.ComputePool | src/app/shared/services/prayer-session.service.ts:164-208 | computes the shuffled pool or the sorted base items, as the setting says |
| Session.PoolEffect | src/app/shared/services/prayer-session.service.ts:131-210 | the pool is recomputed exactly when the key or the shuffle setting changed and the session has not started |
| Session.PrayerSessionService.UpdateShuffled | src/app/shared/services/prayer-session.service.ts:131-210 | on a recompute, stores the new key, the setting and the pool; otherwise nothing changes |
| Session.PrayerSessionService.Freeze | src/app/shared/services/prayer-session.service.ts:160-208 | a recomputation stores the new signature, the shuffle mode and the new pool |
| Session.PrayerSessionService.Items | src/app/shared/services/prayer-session.service.ts:213-225 | `items`: the frozen pool with the store's current prayer counts, one card per frozen card; Session.RefreshCounts says what each card becomes |
| Session.PrayerSessionService.MaxSelectable | src/app/shared/services/prayer-session.service.ts:249-251 | the number of displayed items |
| Session.PrayerSessionService.SafeMaxSelectable | src/app/shared/services/prayer-session.service.ts:253-255 | at least 1, and the number of items when there are any |
| Session.PrayerSessionService.MaxAnswered | src/app/shared/services/prayer-session.service.ts:257-259 | the number of answered requests |
| Session.PrayerSessionService.constructor | src/app/shared/services/prayer-session.service.ts:38-128 | a new service has no list, no started session, no pool and no recorded signature |
| Session.PrayerSessionService.SetListId | src/app/shared/services/prayer-session.service.ts:228-230 | only the list id changes, to the given one |
| Session.PrayerSessionService.SetSessionStarted | src/app/shared/services/prayer-session.service.ts:232-234 | only the started flag changes, to the given value |
| Timing.CountdownTick | src/app/shared/services/timer.service.ts:53-60 | one tick lowers a positive countdown by one second and never goes below zero |
| Timing.TicksCountDown | src/app/shared/services/timer.service.ts:53-60 | after k ticks from n seconds the countdown shows n - k, and 0 once k reaches n |
| Timing.RunningUntilZero | src/app/shared/services/timer.service.ts:56-59 | the interval keeps running after k ticks exactly when k is 0 or fewer than n ticks have passed |
| Timing.FormatRemaining | src/app/shared/services/timer.service.ts:114-122 | the remaining-time label ends in ' min' from 60 seconds on and in ' sec' below |
| Timing.FormatRemainingMinutes | src/app/shared/services/timer.service.ts:116-118 | from 60 seconds on the label shows the minutes rounded up: the number m with 60(m-1) < total <= 60m |
| Timing.FormatRemainingSeconds | src/app/shared/services/timer.service.ts:119-121 | below 60 seconds the label shows the exact number of seconds |
| Timing.TimeProgressPercent | src/app/shared/services/timer.service.ts:106-112 | the elapsed share lies between 0 and 100; it is 0 without a start and before any time passed, and 100 at the end |
| Timing.ProgressMonotone | src/app/shared/services/timer.service.ts:106-112 | less time remaining never shows less progress |
| Timing.TickAdvancesProgress | src/app/shared/services/timer.service.ts:53-60 | a tick never lowers the progress |
| Timing.CountdownTotal | src/app/prayer-session/prayer-session.component.ts:407-410 | no countdown when the slider is at its unlimited value; otherwise the slider's minutes in seconds |
| Timing.TimeSliderValue | src/app/prayer-session/prayer-session.component.ts:456-462 | the time slider value is clamped into 1 .. cap+1 and an in-range value is kept |
| Timing.SliderCountdown | src/app/prayer-session/prayer-session.component.ts:456-462 | a clamped slider gives no countdown exactly at the unlimited value, and otherwise a whole number of minutes between 1 and the cap |
| Timing.TimerMinutes | src/app/shared/services/timer.service.ts:39-41 | the timer's minutes are capped at 60: values up to 60 are kept and anything above becomes 60 |
| Timing.WatchedCard | src/app/shared/services/timer.service.ts:75-77 | a card is watched exactly when the index is on a request card that is not skipped as answered |
| Timing.ScheduledWatch | src/app/prayer-session/prayer-session.component.ts:423-431 | a view timer is scheduled exactly for a watched request card not yet counted this session, remembering its id and index |
| Timing.RegisteredCount | src/app/prayer-session/prayer-session.component.ts:439 | a registered prayer stores the card's prayer count plus one, counting a missing count as 0 |
| Timing.TimerService.constructor | src/app/shared/services/timer.service.ts:13-20 | the service starts with no countdown, no view timer and nothing counted |
| Timing.TimerService.StartCountdown | src/app/shared/services/timer.service.ts:43-61 | does nothing when unlimited; otherwise sets the countdown and its initial value to the minutes in seconds and starts ticking |
| Timing.TimerService.Tick | src/app/shared/services/timer.service.ts:53-60 | the countdown ticks once and the interval stops when it reaches zero |
| Timing.TimerService.StartViewTimer | src/app/shared/services/timer.service.ts:63-93 | replaces any pending view timer; schedules one only for a watched, uncounted request card |
| Timing.TimerService.FireViewTimer | src/app/shared/services/timer.service.ts:83-92 | when the card is still the watched one its id is counted once for the session and registered; the timer is cleared |
| Timing.TimerService.StopViewTimer | src/app/shared/services/timer.service.ts:95-100 | clears the pending view timer and nothing else |
| Timing.TimerService.ResetSessionCounted | src/app/shared/services/timer.service.ts:102-104 | forgets every counted id |
| Timing.TimerService.SessionPrayerCount | src/app/shared/services/timer.service.ts:124-126 | the number of prayers registered this session |
| Timing.TimerService.ProgressPercent | src/app/shared/services/timer.service.ts:106-112 | the time progress lies between 0 and 100, and is 0 without a start |
| Timing.TimerService.Remaining | src/app/shared/services/timer.service.ts:114-122 | the remaining-time label |
| Timing.TimerService.Destroy | src/app/shared/services/timer.service.ts:128-137 | stops the countdown and the view timer and keeps the counts |
| Timing.CountLabel | src/app/prayer-session/prayer-session.component.ts:472-476 | 'All items' once the count covers the pool, otherwise the count in digits |
| Timing.TimeLabel | src/app/prayer-session/prayer-session.component.ts:478-482 | 'Unlimited' at the top of the slider, otherwise the minutes followed by ' min' |
| Timing.TimeLabelMinutes | src/app/pray/pray.component.ts:350-354 | below the top of the slider the label ends in ' min' and its digits read back the slider value |
| Timing.AnsweredLabel | src/app/prayer-session/prayer-session.component.ts:484-488 | 'None' for zero answered requests, otherwise the number |
| Timing.AnsweredLabelReadsBack | src/app/prayer-session/prayer-session.component.ts:484-488 | a positive answered count is shown as digits that read back the count |
| Swipe.SwipeWidth | src/app/shared/services/carousel.service.ts:149 | the slide width when non-zero, else the container width when non-zero, else 1 |
| Swipe.Threshold | src/app/shared/services/carousel.service.ts:150 | the swipe threshold is the larger of 60 pixels and 15% of the width |
| Swipe.SwipeTarget | src/app/shared/services/carousel.service.ts:147-156 | a drag left past the threshold moves one slide forward, right past it one back, shorter drags stay; the result is clamped to 0 .. max |
| Swipe.SwipeMovesAtMostOne | src/app/shared/services/carousel.service.ts:152-156 | a swipe moves at most one slide |
| Swipe.ShortDragStays | src/app/shared/services/carousel.service.ts:150-154 | a drag shorter than 60 pixels never changes the slide |
| Swipe.SwipeThereAndBack | src/app/shared/services/carousel.service.ts:152-156 | away from the last slide, a full swipe forward then back returns to the start |
| Swipe.CurrentSlide | src/app/shared/services/carousel.service.ts:192-196 | 0 on the settings slide; otherwise the index, capped at the number of items |
| Swipe.ProgressPercent | src/app/shared/services/carousel.service.ts:198-204 | the progress lies between 0 and 100; 0 without items or on the settings slide; 100 on the last slide |
| Swipe.ProgressMonotone | src/app/shared/services/carousel.service.ts:198-204 | moving forward never lowers the progress |
| Carousel.CarouselService.constructor | src/app/shared/services/carousel.service.ts:14-27 | the carousel starts on the settings slide, not dragging, with nothing measured |
| Carousel.CarouselService.Measured | src/app/shared/services/carousel.service.ts:68-94 | a measurement stores the two widths and nothing else |
| Carousel.CarouselService.OnPointerDown | src/app/shared/services/carousel.service.ts:103-118 | a press on a control does nothing; otherwise the drag flag is cleared and a drag starts at the pointer |
| Carousel.CarouselService.OnPointerMove | src/app/shared/services/carousel.service.ts:120-136 | while dragging, the move is scheduled for the next frame, replacing any pending one |
| Carousel.CarouselService.AnimationFrame | src/app/shared/services/carousel.service.ts:129-135 | the frame sets the offset from the drag start and marks a drag of at least 8 pixels |
| Carousel.CarouselService.OnPointerUp | src/app/shared/services/carousel.service.ts:138-170 | without a drag returns the current index; otherwise ends the drag, cancels the pending frame, moves to the swipe target and keeps the drag flag for a delayed clear |
| Carousel.CarouselService.ClearDragFlag | src/app/shared/services/carousel.service.ts:163-166 | the delayed clear resets the drag flag |
| Carousel.CarouselService.SetIndex | src/app/shared/services/carousel.service.ts:176-179 | the index is clamped to 0 .. 999 |
| Carousel.CarouselService.CurrentSlide | src/app/shared/services/carousel.service.ts:192-196 | the current slide lies between 0 and the item count and is the index when in range |
| Carousel.CarouselService.Progress | src/app/shared/services/carousel.service.ts:198-204 | the progress lies between 0 and 100 |
| Carousel.CarouselService.Destroy | src/app/shared/services/carousel.service.ts:207-215 | cancels the pending frame and keeps the rest |
| Carousel.CarouselComponent.constructor | src/app/prayer-session/carousel/carousel.component.ts:12-26 | the component starts on slide 0, not dragging, having emitted nothing |
| Carousel.CarouselComponent.SetItems | src/app/prayer-session/carousel/carousel.component.ts:12 | a new item list replaces the old one and nothing else |
| Carousel.CarouselComponent.SetCurrentIndex | src/app/prayer-session/carousel/carousel.component.ts:13 | the parent's index input replaces the current index as given, with nothing emitted and nothing else changed |
| Carousel.CarouselComponent.Measured | src/app/prayer-session/carousel/carousel.component.ts:33-56 | a measurement stores the two widths |
| Carousel.CarouselComponent.SetIndex | src/app/prayer-session/carousel/carousel.component.ts:110-115 | the index is clamped to 0 .. items; a change is emitted once, an unchanged index emits nothing |
| Carousel.CarouselComponent.OnKeyDown | src/app/prayer-session/carousel/carousel.component.ts:69-78 | the arrow keys move one slide back or forward and are consumed; other keys change nothing |
| Carousel.CarouselComponent.OnPointerDown | src/app/prayer-session/carousel/carousel.component.ts:80-87 | a press on a control does nothing; otherwise a drag starts at the pointer |
| Carousel.CarouselComponent.OnPointerMove | src/app/prayer-session/carousel/carousel.component.ts:89-93 | while dragging, the offset follows the pointer |
| Carousel.CarouselComponent.OnPointerUp | src/app/prayer-session/carousel/carousel.component.ts:95-108 | ends the drag and moves to the swipe target within 0 .. items |
| Carousel.CarouselComponent.Slide | src/app/prayer-session/carousel/carousel.component.ts:127-130 | the slide number lies between 0 and the item count, and is 0 on the settings slide |
| Carousel.EmittedInRange | src/app/prayer-session/carousel/carousel.component.ts:110-115 | an emitted index is in range and differs from the old one; nothing is emitted exactly when the index stays |
| SessionComponent.PrayerCountUpdate | src/app/prayer-session/prayer-session.component.ts:439-440 | a registration dispatches an update of that request's prayer count alone |
| SessionComponent.RegistrationAddsOne | src/app/prayer-session/prayer-session.component.ts:436-441 | when the card shows the stored count, a registration raises that request's count by exactly one and changes nothing else in the store |
| SessionComponent.AnswerUpdate | src/app/prayer-session/prayer-session.component.ts:534-542 | answering dispatches an update setting the answer date to the clock reading and the answer text |
| SessionComponent.AnsweringMarksRequest | src/app/prayer-session/prayer-session.component.ts:534-542 | answering a stored request marks it answered with the text, keeps its other fields, and leaves every other entity alone |
| SessionComponent.PrayerSessionComponent.constructor | src/app/prayer-session/prayer-session.component.ts:226-244 | the screen starts on the settings slide with the saved slider values (count falling back through 0, time to 60, answered to 0), an empty pool and nothing counted |
| SessionComponent.PrayerSessionComponent.StoreChanged | src/app/prayer-session/prayer-session.component.ts:40-44 | a store change replaces the selected store state and the answered sample's draws |
| SessionComponent.PrayerSessionComponent.UpdateShuffled | src/app/prayer-session/prayer-session.component.ts:121-191 | on a recompute (key or setting changed, session not started) stores the new key, setting and pool and resets the countdown flag; otherwise changes nothing |
| SessionComponent.PrayerSessionComponent.Freeze | src/app/prayer-session/prayer-session.component.ts:149-188 | before the session starts, a recomputation stores the signature, the shuffle mode and the pool and clears the countdown flag, keeping the component invariant |
| SessionComponent.PrayerSessionComponent.Items | src/app/prayer-session/prayer-session.component.ts:193-205 | `items`: the frozen pool with live prayer counts, as Session.RefreshCounts describes |
| SessionComponent.PrayerSessionComponent.Selected | src/app/prayer-session/prayer-session.component.ts:246-287 | `selectedItems` of the live items, slider values and answered draws; its meaning is Session.SelectedItemsSpec |
| SessionComponent.PrayerSessionComponent.Unlimited | src/app/prayer-session/prayer-session.component.ts:238 | the time slider reads unlimited at 61 and above |
| SessionComponent.PrayerSessionComponent.TimeMinutes | src/app/prayer-session/prayer-session.component.ts:239 | the slider value capped at 60 minutes |
| SessionComponent.PrayerSessionComponent.SyncSelectCount | src/app/prayer-session/prayer-session.component.ts:290-300 | the selection count becomes the synced count for the pool size |
| SessionComponent.AfterSetIndex | src/app/prayer-session/prayer-session.component.ts:391-405 | the state `setIndex` leaves: either nothing changes or the index moves into 0 .. the selection size; a started session stays started and any move onto a card starts it; the countdown is started at most once more, and only on reaching slide 1 for the first time when not unlimited |
| SessionComponent.PrayerSessionComponent.SetIndex | src/app/prayer-session/prayer-session.component.ts:391-405 | the moved fields (index, started flags, view timer, countdown) become `SessionComponent.AfterSetIndex` of their old values: an unchanged clamped index changes nothing; otherwise the index moves, the session starts on any card, the countdown starts once when slide 1 is first reached, and the view timer is rescheduled for the new card |
| SessionComponent.PrayerSessionComponent.StartCountdownIfNeeded | src/app/prayer-session/prayer-session.component.ts:407-421 | when not unlimited, sets the countdown and its initial value to the minutes in seconds and starts the interval, at most once per session |
| SessionComponent.PrayerSessionComponent.HandleViewTimer | src/app/prayer-session/prayer-session.component.ts:423-443 | schedules a view timer exactly for an unanswered, uncounted request card on the current slide |
| SessionComponent.PrayerSessionComponent.FireViewTimer | src/app/prayer-session/prayer-session.component.ts:432-442 | when still on the watched card, counts its id once and dispatches the card's count plus one; otherwise changes nothing; the timer is cleared |
| SessionComponent.PrayerSessionComponent.Register | src/app/prayer-session/prayer-session.component.ts:438-440 | counts the id for the session and dispatches the prayer-count update |
| SessionComponent.PrayerSessionComponent.Tick | src/app/prayer-session/prayer-session.component.ts:413-420 | the countdown ticks once and stops at zero |
| SessionComponent.PrayerSessionComponent.OnSelectCountChange | src/app/prayer-session/prayer-session.component.ts:445-454 | stores the clamped count and takes fresh draws for the answered sample when the count changed; when the index lies beyond the new selection, every field `setIndex` moves becomes its state after moving to the last slide (`AfterSetIndex`), and otherwise none of them changes |
| SessionComponent.PrayerSessionComponent.PullIndexBack | src/app/prayer-session/prayer-session.component.ts:452-453 | an index beyond the selection moves to the last slide, with every field `setIndex` moves in its `AfterSetIndex` state; an index inside it leaves all of them as they were; the component invariant is kept |
| SessionComponent.PrayerSessionComponent.OnTimeChange | src/app/prayer-session/prayer-session.component.ts:456-462 | stores the time value clamped to 1 .. 61 |
| SessionComponent.PrayerSessionComponent.OnAnsweredChange | src/app/prayer-session/prayer-session.component.ts:464-470 | stores the answered count clamped to 0 .. the number of answered requests (`Math.max(0, Math.min(v, max))`), keeping an in-range value, and takes fresh draws for the answered sample when the count changed |
| SessionComponent.PrayerSessionComponent.OnPointerDown | src/app/prayer-session/prayer-session.component.ts:360-368 | a press on a slider does nothing; otherwise a drag starts at the pointer |
| SessionComponent.PrayerSessionComponent.OnPointerMove | src/app/prayer-session/prayer-session.component.ts:370-374 | while dragging, the offset follows the pointer |
| SessionComponent.PrayerSessionComponent.OnPointerUp | src/app/prayer-session/prayer-session.component.ts:376-389 | ends the drag; every field `setIndex` moves becomes its state after moving to the swipe target within the selection (`AfterSetIndex`); without a drag neither the drag fields nor those fields change |
| SessionComponent.PrayerSessionComponent.OnRequestAnswered | src/app/prayer-session/prayer-session.component.ts:534-542 | the store becomes the old store with the answer update dispatched |
| SessionComponent.PrayerSessionComponent.Remaining | src/app/prayer-session/prayer-session.component.ts:507-516 | 'Unlimited' when unlimited, otherwise the remaining-time label |
| SessionComponent.PrayerSessionComponent.TimeProgress | src/app/prayer-session/prayer-session.component.ts:498-505 | the time progress lies between 0 and 100 and is 0 when unlimited |
| SessionComponent.PrayerSessionComponent.Progress | src/app/prayer-session/prayer-session.component.ts:490-496 | the slide progress lies between 0 and 100 |
| SessionComponent.PrayerSessionComponent.Slide | src/app/prayer-session/prayer-session.component.ts:528-532 | the slide number lies between 0 and the selection size |
| SessionComponent.PrayerSessionComponent.Destroy | src/app/prayer-session/prayer-session.component.ts:353-358 | clears the interval and the view timer |
| PrayComponent.PrayComponent.constructor | src/app/pray/pray.component.ts:38-46 | the page starts on the settings slide with the pool computed from the store, the saved count (falling back to the pool size) and time (60), and nothing counted |
| PrayComponent.PrayComponent.StoreChanged | src/app/pray/pray.component.ts:46-137 | a store change replaces the store state and recomputes, and in shuffle mode redraws, the pool |
| PrayComponent.PrayComponent.Recompute | src/app/pray/pray.component.ts:46-137 | the pool becomes the legacy pool of the current store with the new draws |
| PrayComponent.PrayComponent.Selected | src/app/pray/pray.component.ts:171-177 | `selectedItems`: Session.RegularSelection of the items, whose contract gives nothing for an empty pool and otherwise a non-empty prefix |
| PrayComponent.PrayComponent.Unlimited | src/app/pray/pray.component.ts:168 | the time slider reads unlimited at 121 and above |
| PrayComponent.PrayComponent.TimeMinutes | src/app/pray/pray.component.ts:169 | the slider value capped at 120 minutes |
| PrayComponent.PrayComponent.SyncSelectCount | src/app/pray/pray.component.ts:180-190 | the selection count becomes the synced count for the pool size |
| PrayComponent.AfterSetIndex | src/app/pray/pray.component.ts:279-286 | the state `setIndex` leaves on the legacy page: either nothing changes or the index moves into 0 .. the selection size; the countdown changes only on reaching slide 1 when not unlimited, and then holds the full time and runs; a new view timer watches an uncounted card on the new slide |
| PrayComponent.PrayComponent.SetIndex | src/app/pray/pray.component.ts:279-286 | the moved fields (index, view timer, countdown) become `PrayComponent.AfterSetIndex` of their old values: an unchanged clamped index changes nothing; otherwise the index moves, the countdown restarts whenever slide 1 is reached, and the view timer is rescheduled |
| PrayComponent.PrayComponent.StartCountdownIfNeeded | src/app/pray/pray.component.ts:288-301 | when not unlimited, sets the countdown to the minutes in seconds and starts the interval |
| PrayComponent.PrayComponent.HandleViewTimer | src/app/pray/pray.component.ts:303-323 | schedules a view timer exactly for an uncounted request card on the current slide, answered or not |
| PrayComponent.PrayComponent.FireViewTimer | src/app/pray/pray.component.ts:312-322 | when still on the watched card, counts its id once and dispatches the card's count plus one; otherwise changes nothing |
| PrayComponent.PrayComponent.Register | src/app/pray/pray.component.ts:318-320 | counts the id for the session and dispatches the prayer-count update |
| PrayComponent.PrayComponent.Tick | src/app/pray/pray.component.ts:293-300 | the countdown ticks once and stops at zero |
| PrayComponent.PrayComponent.OnSelectCountChange | src/app/pray/pray.component.ts:325-334 | stores the clamped count; when the index lies beyond the new selection, every field `setIndex` moves becomes its state after moving to the last slide (`AfterSetIndex`), and otherwise none of them changes |
| PrayComponent.PrayComponent.OnTimeChange | src/app/pray/pray.component.ts:336-342 | stores the time value clamped to 1 .. 121 |
| PrayComponent.PrayComponent.OnPointerDown | src/app/pray/pray.component.ts:248-256 | a press on a slider does nothing; otherwise a drag starts at the pointer |
| PrayComponent.PrayComponent.OnPointerMove | src/app/pray/pray.component.ts:258-262 | while dragging, the offset follows the pointer |
| PrayComponent.PrayComponent.OnPointerUp | src/app/pray/pray.component.ts:264-277 | ends the drag; every field `setIndex` moves becomes its state after moving to the swipe target within the selection (`AfterSetIndex`); without a drag neither the drag fields nor those fields change |
| PrayComponent.PrayComponent.Remaining | src/app/pray/pray.component.ts:364-373 | 'Unlimited' when unlimited, otherwise the remaining-time label |
| PrayComponent.PrayComponent.Progress | src/app/pray/pray.component.ts:356-362 | the progress lies between 0 and 100 and is 100 on the last slide |
| PrayComponent.PrayComponent.Slide | src/app/pray/pray.component.ts:385-389 | the slide number lies between 0 and the selection size and is the index when on a card |
| PrayComponent.PrayComponent.Destroy | src/app/pray/pray.component.ts:241-246 | clears the interval and the view timer |
| Stats.FromInput | src/app/shared/services/prayer-stats.ts:128-142 | each counter is the supplied value or 0 when missing or zero; the dates are kept; an empty record gives all zeros |
| Stats.ToInput | src/app/shared/services/prayer-stats.ts:21-30 | the saved record carries every counter and both dates |
| Stats.ExportThenSetAll | src/app/shared/services/prayer-stats.ts:128-142 | setting all stats from a saved record restores the record exactly |
| Stats.AfterSession | src/app/shared/services/prayer-stats.ts:90-97 | a session adds one to the session count, stamps the last date, sets the first date only when missing, and keeps the other counters |
| Stats.AfterSessionKeepsDatesOrdered | src/app/shared/services/prayer-stats.ts:90-97 | with ordered dates and a clock that does not run backwards, the first date stays at or before the last |
| Stats.FirstDateFixedAfterFirstSession | src/app/shared/services/prayer-stats.ts:93-95 | after the first session the first date never changes again, and each session counts once |
| Stats.SessionsPerWeek | src/app/shared/services/prayer-stats.ts:60-75 | without both dates or with at most one session the rate is the session count; otherwise sessions divided by the weeks between the dates, at least one week |
| Stats.SessionsWithinAWeek | src/app/shared/services/prayer-stats.ts:71-74 | sessions all within one week give a rate equal to the session count |
| Stats.PrayerStats.constructor | src/app/shared/services/prayer-stats.ts:17-18 | without saved stats everything is zero; otherwise the saved record as setAllStats would read it |
| Stats.PrayerStats.AddSessionTime | src/app/shared/services/prayer-stats.ts:78-80 | adds the seconds to the time prayed and changes nothing else |
| Stats.PrayerStats.AddSessionRequestsPrayed | src/app/shared/services/prayer-stats.ts:82-84 | adds the count to the requests prayed and changes nothing else |
| Stats.PrayerStats.AddRequestsAnswered | src/app/shared/services/prayer-stats.ts:86-88 | adds the count to the requests answered and changes nothing else |
| Stats.PrayerStats.AddSession | src/app/shared/services/prayer-stats.ts:90-97 | the record becomes the record after one more session |
| Stats.PrayerStats.ResetStats | src/app/shared/services/prayer-stats.ts:118-125 | every counter is zero and both dates are cleared |
| Stats.PrayerStats.SetAllStats | src/app/shared/services/prayer-stats.ts:128-142 | the record becomes the one read from the supplied values |
| Stats.PrayerStats.GetSessionsPerWeek | src/app/shared/services/prayer-stats.ts:60-75 | the session count when there is too little data, and never more than the session count |
| StatsCard.Average | src/app/prayer-session/stats-card/stats-card.ts:22-30 | both averages (seconds per prayer, seconds per session): 0 when the count is zero, otherwise the total over the count rounded to the nearest whole number |
| StatsCard.AverageOfExactMultiple | src/app/prayer-session/stats-card/stats-card.ts:22-30 | an exact multiple averages to its factor |
| StatsCard.AverageNonNegative | src/app/prayer-session/stats-card/stats-card.ts:22-25 | averages of non-negative totals are non-negative |
| StatsCard.PrayerStreak | src/app/prayer-session/stats-card/stats-card.ts:32-36 | the weekly session rate times seven, rounded to the nearest whole number |
| StatsCard.StreakOfRate | src/app/prayer-session/stats-card/stats-card.ts:32-36 | a whole weekly rate gives seven times it, and a higher rate never gives a lower streak |
| StatsCard.PrayerEfficiency | src/app/prayer-session/stats-card/stats-card.ts:38-41 | as written: 0 with no time prayed, otherwise requests per minute (prayed over seconds times 60), rounded |
| StatsCard.EfficiencyIsPerMinute | src/app/prayer-session/stats-card/stats-card.ts:38-41 | 60 requests in one hour give an efficiency of 1 as written and 60 per hour as intended |
| StatsCard.PrayerEfficiencyPerHour | src/app/prayer-session/stats-card/stats-card.ts:38-41 | the intended rate: requests per hour (prayed over seconds times 3600), rounded |
| StatsCard.PerHourOfWholeHours | src/app/prayer-session/stats-card/stats-card.ts:38-41 | k requests per hour over whole hours give exactly k |
| StatsCard.MilestoneLevel | src/app/prayer-session/stats-card/stats-card.ts:43-50 | the milestone level lies between 0 and 5; 0 exactly below one session and 5 exactly from 100 sessions |
| StatsCard.Milestone | src/app/prayer-session/stats-card/stats-card.ts:43-50 | the label of the level, empty exactly below one session |
| StatsCard.MilestoneMonotone | src/app/prayer-session/stats-card/stats-card.ts:43-50 | more sessions never give a lower milestone |
| StatsCard.MilestoneLabelsDistinct | src/app/prayer-session/stats-card/stats-card.ts:43-50 | distinct milestone levels have distinct labels |
| StatsCard.DurationParts | src/app/prayer-session/stats-card/stats-card.ts:53-54 | for non-negative seconds the whole minutes and remaining seconds (0 .. 59) add back up; negative input keeps JavaScript's signs |
| StatsCard.FormatDuration | src/app/prayer-session/stats-card/stats-card.ts:52-59 | the label ends in 's' and mentions minutes exactly from 60 seconds on |
| StatsCard.FormatDurationSplits | src/app/prayer-session/stats-card/stats-card.ts:52-59 | under a minute the label is the seconds; from a minute on it is the whole minutes, 'm ', the remaining seconds and 's' |
| DateUtils.DiffDays | src/app/shared/services/date-utils.service.ts:9-10 | the whole days between the two instants, rounded down |
| DateUtils.DiffMonths | src/app/shared/services/date-utils.service.ts:11 | within one year, the difference of the calendar months |
| DateUtils.DiffYears | src/app/shared/services/date-utils.service.ts:12 | whole 365-day years, rounded down |
| DateUtils.Counted | src/app/shared/services/date-utils.service.ts:15-19 | the singular form for exactly one, otherwise the number and the plural |
| DateUtils.TimeSpan | src/app/shared/services/date-utils.service.ts:8-23 | years if any, else calendar months if any, else days if any, else 'less than a day', which appears exactly when none is positive |
| DateUtils.SameMonthCountsDays | src/app/shared/services/date-utils.service.ts:8-23 | within one calendar month, a span of a day or more and under a year is counted in days |
| DateUtils.TimeSpanExamples | src/app/shared/services/date-utils.service.ts:8-23 | worked examples of the four cases |
| DateUtils.AnsweredSummary | src/app/shared/services/date-utils.service.ts:25-41 | empty when the count is missing or zero or a date is missing; otherwise 'Prayed N time(s) over <span>' |
| DateUtils.AnsweredSummaryPresent | src/app/shared/services/date-utils.service.ts:25-41 | a summary appears exactly when all three inputs are present and the count is non-zero; a count of one reads 'Prayed 1 time' |
| DateUtils.AnsweredDateText | src/app/shared/services/date-utils.service.ts:43-51 | empty unless answered with a date; otherwise 'Answered ' followed by the rendered date |
| ListComponent.ListTopics | src/app/main/list/list.component.ts:31-36 | no topics without a current list; otherwise exactly the stored topics the list names |
| ListComponent.NewTopicId | src/app/main/list/list.component.ts:46 | the new topic id is used by no stored topic; it is 1 for no topics and otherwise one more than a stored id |
| ListComponent.AddTopicActions | src/app/main/list/list.component.ts:43-54 | nothing is dispatched exactly when the dialog returns no name or an empty one |
| ListComponent.OnAddEffect | src/app/main/list/list.component.ts:38-55 | adding appends an empty topic under the new id, leaves the requests alone, and links the id (once) into the current list only |
| ListComponent.AddOnListResult | src/app/main/list/list.component.ts:47-52 | on an existing list the new topic is stored and the list's topic ids gain the new id, deduplicated |
| ListComponent.AddedTopicShown | src/app/main/list/list.component.ts:31-55 | after adding, the new topic is among the topics the page shows |
| ListComponent.RemoveTopicActions | src/app/main/list/list.component.ts:91-99 | two actions (the topic removal and the list relink) with a current list, only the removal without one |
| ListComponent.OnRemoveEffect | src/app/main/list/list.component.ts:91-99 | removing deletes exactly that topic, leaves the requests alone, and drops its id from the current list only |
| ListComponent.RenameFromDialog | src/app/main/list/list.component.ts:57-73 | a rename is dispatched exactly for a current list and a non-empty name, and only changes the list's name |
| ListComponent.RenameListActions | src/app/main/list/list.component.ts:116-125 | the inline rename dispatches exactly when a current list exists and the trimmed text is non-empty and new |
| ListComponent.RenameListSettles | src/app/main/list/list.component.ts:116-125 | after an inline rename the list carries the trimmed name, and saving the same text again dispatches nothing |
| ListComponent.DeleteListActions | src/app/main/list/list.component.ts:75-89 | a delete is dispatched exactly for a current list that shows no topics, once confirmed |
| ListComponent.DeleteListEffect | src/app/main/list/list.component.ts:75-89 | a deleted list names no stored topic; afterwards exactly the other lists remain and topics and requests are untouched |
| ListComponent.ListPage.constructor | src/app/main/list/list.component.ts:29 | the route id is the list id, a zero id counting as none; the editor is closed |
| ListComponent.ListPage.CurrentList | src/app/main/list/list.component.ts:30 | `currentList`: the store list with the page's id, if any |
| ListComponent.ListPage.Topics | src/app/main/list/list.component.ts:31-36 | `topics`: the current list's topics as ListComponent.ListTopics states them |
| ListComponent.ListPage.OnAdd | src/app/main/list/list.component.ts:38-55 | the store becomes the old store with the add actions dispatched; the editor state is kept |
| ListComponent.ListPage.OnRename | src/app/main/list/list.component.ts:57-73 | the store becomes the old store with the dialog's rename dispatched |
| ListComponent.ListPage.OnDelete | src/app/main/list/list.component.ts:75-89 | the store becomes the old store with the confirmed delete dispatched |
| ListComponent.ListPage.OnRemove | src/app/main/list/list.component.ts:91-99 | the store becomes the old store with the removal actions dispatched |
| ListComponent.ListPage.StartEdit | src/app/main/list/list.component.ts:109-114 | an open editor is kept; otherwise it opens on the current list's name, or empty without one |
| ListComponent.ListPage.SaveEdit | src/app/main/list/list.component.ts:116-125 | dispatches the inline rename, if any, and closes the editor |
| ListComponent.ListPage.OnSectionClick | src/app/main/list/list.component.ts:132-134 | an open editor is saved and closed; otherwise nothing changes |
| ListComponent.ListPage.CancelEdit | src/app/main/list/list.component.ts:127-130 | closes the editor and clears the text |
| TopicComponent.TopicRequests | src/app/main/list/topic/topic.component.ts:47-52 | no requests without a current topic; otherwise exactly the stored requests the topic names |
| TopicComponent.TopicRequestsCount | src/app/main/list/topic/topic.component.ts:47-52 | each stored request the topic names is shown as often as it is stored, and no other request is shown |
| TopicComponent.OpenRequests | src/app/main/list/topic/topic.component.ts:54 | exactly the given requests without an answered date |
| TopicComponent.AnsweredRequests | src/app/main/list/topic/topic.component.ts:55 | exactly the given requests with an answered date |
| TopicComponent.TabsPartition | src/app/main/list/topic/topic.component.ts:54-55 | the open and answered tabs together hold every request of the topic exactly once |
| TopicComponent.NewRequestId | src/app/main/list/topic/topic.component.ts:97-98 | the new request id is used by no stored request; it is 1 for no requests and otherwise one more than a stored id |
| TopicComponent.AddRequestActions | src/app/main/list/topic/topic.component.ts:92-114 | two actions (the request and the topic relink) with a current topic, only the request without one |
| TopicComponent.OnAddEffect | src/app/main/list/topic/topic.component.ts:92-114 | adding appends an empty request under the new id, leaves the lists alone, and links the id (once) into the current topic only |
| TopicComponent.RemoveRequestActions | src/app/main/list/topic/topic.component.ts:116-125 | two actions (the removal and the topic relink) with a current topic, only the removal without one |
| TopicComponent.OnRemoveEffect | src/app/main/list/topic/topic.component.ts:116-125 | removing deletes exactly that request, leaves the lists alone, and drops its id from the current topic only |
| TopicComponent.RenameTopicActions | src/app/main/list/topic/topic.component.ts:70-79 | the inline rename dispatches exactly when a current topic exists and the trimmed text is non-empty and new |
| TopicComponent.RenameTopicSettles | src/app/main/list/topic/topic.component.ts:70-79 | after an inline rename the topic carries the trimmed name, and saving the same text again dispatches nothing |
| TopicComponent.RenameFromDialog | src/app/main/list/topic/topic.component.ts:127-139 | a rename is dispatched exactly for a current topic and a non-empty name, and only changes the topic's name |
| TopicComponent.DeleteTopicActions | src/app/main/list/topic/topic.component.ts:141-155 | a delete is dispatched exactly for a current topic that shows no requests, once confirmed |
| TopicComponent.DeleteTopicEffect | src/app/main/list/topic/topic.component.ts:141-155 | a deleted topic names no stored request; afterwards exactly the other topics remain and lists and requests are untouched |
| TopicComponent.NextPriority | src/app/main/list/topic/topic.component.ts:222-225 | the next priority: one more below 5, back to 1 from 5 on, so from 1..5 always another priority in 1..5 |
| TopicComponent.CycleReturns | src/app/main/list/topic/topic.component.ts:222-225 | five clicks return to the starting priority after visiting every priority 1..5 |
| TopicComponent.SaveInlineActions | src/app/main/list/topic/topic.component.ts:167-176 | nothing is dispatched exactly when the edited text is blank |
| TopicComponent.InlineChanges | src/app/main/list/topic/topic.component.ts:170 | the change an inline save writes: the trimmed text and the chosen priority, nothing else; TopicComponent.InlineSaveEffect states its effect on the store |
| TopicComponent.MarkAnsweredActions | src/app/main/list/topic/topic.component.ts:209-220 | nothing is dispatched exactly when the edited text is blank |
| TopicComponent.InlineSaveEffect | src/app/main/list/topic/topic.component.ts:167-220 | saving stores the trimmed text and priority and keeps the answered state; marking answered also moves the request from the open tab to the answered tab; no other request changes |
| TopicComponent.TopicPage.constructor | src/app/main/list/topic/topic.component.ts:44 | the route id is the topic id, a zero id counting as none; nothing is being edited and the first tab is active |
| TopicComponent.TopicPage.CurrentTopic | src/app/main/list/topic/topic.component.ts:45 | `currentTopic`: the store topic with the page's id, if any |
| TopicComponent.TopicPage.Requests | src/app/main/list/topic/topic.component.ts:47-52 | `requests`: the current topic's requests as TopicComponent.TopicRequests states them |
| TopicComponent.TopicPage.StartEdit | src/app/main/list/topic/topic.component.ts:63-68 | an open editor is kept; otherwise it opens on the current topic's name, or empty without one |
| TopicComponent.TopicPage.SaveEdit | src/app/main/list/topic/topic.component.ts:70-79 | dispatches the inline rename, if any, and closes the editor |
| TopicComponent.TopicPage.CancelEdit | src/app/main/list/topic/topic.component.ts:81-84 | closes the editor and clears the text |
| TopicComponent.TopicPage.OnSectionClick | src/app/main/list/topic/topic.component.ts:86-90 | an open editor is saved and closed; otherwise nothing changes |
| TopicComponent.TopicPage.OnAdd | src/app/main/list/topic/topic.component.ts:92-114 | the store becomes the old store with the add actions dispatched; the new request is opened for inline editing at priority 1 on the open tab |
| TopicComponent.TopicPage.OnRemove | src/app/main/list/topic/topic.component.ts:116-125 | the store becomes the old store with the removal actions dispatched |
| TopicComponent.TopicPage.OnRenameTopic | src/app/main/list/topic/topic.component.ts:127-139 | the store becomes the old store with the dialog's rename dispatched |
| TopicComponent.TopicPage.OnDeleteTopic | src/app/main/list/topic/topic.component.ts:141-155 | the store becomes the old store with the confirmed delete dispatched |
| TopicComponent.TopicPage.OnEditRequest | src/app/main/list/topic/topic.component.ts:157-165 | an unknown request or the one already open leaves the editor alone; otherwise it opens on that request's text and priority (0 counting as 1) |
| TopicComponent.TopicPage.SaveInline | src/app/main/list/topic/topic.component.ts:167-176 | a blank text changes nothing; otherwise the inline save is dispatched and the editor closes |
| TopicComponent.TopicPage.CancelInline | src/app/main/list/topic/topic.component.ts:178-190 | with nothing open nothing changes; otherwise the editor closes, and the edited request is removed when it is gone or its text is blank |
| TopicComponent.TopicPage.OnInlineDelete | src/app/main/list/topic/topic.component.ts:192-200 | with nothing open nothing changes; otherwise the open request is removed and the editor closes |
| TopicComponent.TopicPage.MarkAnsweredInline | src/app/main/list/topic/topic.component.ts:209-220 | a blank text changes nothing; otherwise the answered update is dispatched, the editor closes and the answered tab is shown |
| TopicComponent.TopicPage.CyclePriority | src/app/main/list/topic/topic.component.ts:222-225 | only the edited priority moves to the next one |
| Cleanup.KeptSpec | src/app/settings/settings.component.ts:48-49 | the kept ids are exactly the held ids that exist, in order; the length is unchanged exactly when every held id exists |
| Cleanup.CleanListIdle | src/app/settings/settings.component.ts:47-51 | a list is updated exactly when cleaning changes its topic ids |
| Cleanup.CleanTopicIdle | src/app/settings/settings.component.ts:55-59 | a topic is updated exactly when cleaning changes its request ids |
| Cleanup.Step1 | src/app/settings/settings.component.ts:46-52 | step 1's dispatches, list by list; Cleanup.Step1Cleans, Cleanup.Step1LeavesExisting and Cleanup.Step1Empty state what they do |
| Cleanup.Step2 | src/app/settings/settings.component.ts:54-60 | step 2's dispatches, topic by topic; Cleanup.Step2Cleans, Cleanup.Step2LeavesExisting and Cleanup.Step2Empty state what they do |
| Cleanup.Step4 | src/app/settings/settings.component.ts:73-98 | step 4's dispatches over `topicToLists` in insertion order; Cleanup.Step4TwoKeys, Cleanup.Step4Empty and Cleanup.SharedTopicsCollide state what they do |
| Cleanup.Step6 | src/app/settings/settings.component.ts:111-147 | step 6's dispatches over `requestToTopics` in insertion order; Cleanup.SharedRequestActions and Cleanup.Step6Empty state what they do |
| Cleanup.CleanupActions | src/app/settings/settings.component.ts:38-215 | every dispatch of `cleanupData`, all computed from the snapshot; Cleanup.CleanupIdleIffConsistent proves it is empty exactly on a consistent store, and Cleanup.CleanupData dispatches it |
| Cleanup.Step1Prefix | src/app/settings/settings.component.ts:46-52 | the updates for the first k lists leave exactly those k lists cleaned and the rest of the store untouched |
| Cleanup.Step1Cleans | src/app/settings/settings.component.ts:46-52 | after step 1 every list holds its own ids minus the missing topics, in order; topics and requests are untouched |
| Cleanup.Step1LeavesExisting | src/app/settings/settings.component.ts:46-52 | after step 1 every list holds only existing topics, and each of them it held before |
| Cleanup.Step1Empty | src/app/settings/settings.component.ts:46-52 | step 1 dispatches nothing exactly when no list holds a missing topic |
| Cleanup.Step2Prefix | src/app/settings/settings.component.ts:54-60 | the updates for the first k topics leave exactly those k topics cleaned and the rest of the store untouched |
| Cleanup.Step2Cleans | src/app/settings/settings.component.ts:54-60 | after step 2 every topic holds its own ids minus the missing requests, in order; lists and requests are untouched |
| Cleanup.Step2LeavesExisting | src/app/settings/settings.component.ts:54-60 | after step 2 every topic holds only existing requests, and each of them it held before |
| Cleanup.Step2Empty | src/app/settings/settings.component.ts:54-60 | step 2 dispatches nothing exactly when no topic holds a missing request |
| Cleanup.PairsSpec | src/app/settings/settings.component.ts:64-70 | the nested walk yields exactly the pairs of a held id and the owner holding it |
| Cleanup.OwnersOf | src/app/settings/settings.component.ts:66-69 | the owners recorded for an id are exactly those paired with it, and there are some exactly when the id is held |
| Cleanup.GroupSpec | src/app/settings/settings.component.ts:62-71 | the map's keys are the held ids in first-seen order without repeats, and each key maps to the owners that hold it, in walk order |
| Cleanup.GroupCounts | src/app/settings/settings.component.ts:62-71 | an id is a key exactly when some owner holds it, and it then lists as many owners as there are holdings of it |
| Cleanup.BuildIndex | src/app/settings/settings.component.ts:63-71 | the loop builds exactly the grouped map of the walk |
| Cleanup.ReplaceId | src/app/settings/settings.component.ts:93 | the result has the same length, with the old id replaced by the new one at every position and nowhere else |
| Cleanup.RetargetList | src/app/settings/settings.component.ts:91-95 | a list update is dispatched exactly when the list exists |
| Cleanup.RetargetTopic | src/app/settings/settings.component.ts:140-144 | a topic update is dispatched exactly when the topic exists |
| Cleanup.CopyTopicActions | src/app/settings/settings.component.ts:80-96 | some dispatch happens for every topic copy requested |
| Cleanup.SharedTopicActions | src/app/settings/settings.component.ts:74-98 | copies are dispatched exactly for a topic that exists and that more than one list holds |
| Cleanup.Step4TwoKeys | src/app/settings/settings.component.ts:74-98 | two shared topics are handled one after the other, in the order the map first saw them |
| Cleanup.Step4FromEmpty | src/app/settings/settings.component.ts:74-98 | walking the map dispatches nothing exactly when no existing topic has more than one owning list |
| Cleanup.Step4Empty | src/app/settings/settings.component.ts:73-98 | step 4 dispatches nothing exactly when every existing topic is held at most once over all lists |
| Cleanup.SharedTopicsCollide | src/app/settings/settings.component.ts:80-95 | when two lists share two topics, both copies are requested under the same id and the second list update undoes the first: the list ends up still sharing topic 1, and the second copy is never stored |
| Cleanup.CopyIsOriginal | src/app/settings/settings.component.ts:121-137 | adding a request and then applying the copied fields gives the original request under the new id |
| Cleanup.CopyRequestActions | src/app/settings/settings.component.ts:118-145 | some dispatch happens for every request copy requested |
| Cleanup.SharedRequestActions | src/app/settings/settings.component.ts:112-147 | copies are dispatched exactly for a request that exists and that more than one topic holds |
| Cleanup.Step6FromEmpty | src/app/settings/settings.component.ts:112-147 | walking the map dispatches nothing exactly when no existing request has more than one owning topic |
| Cleanup.Step6Empty | src/app/settings/settings.component.ts:111-147 | step 6 dispatches nothing exactly when every existing request is held at most once over all topics |
| Cleanup.ReferencedSpec | src/app/settings/settings.component.ts:151-154 | an id is referenced exactly when some owner holds it |
| Cleanup.Referenced | src/app/settings/settings.component.ts:151-154 | every id some owner holds; Cleanup.ReferencedSpec proves the membership |
| Cleanup.Unreferenced | src/app/settings/settings.component.ts:156 | the result has no repeats and holds exactly the given ids that are not referenced |
| Cleanup.OrphanList | src/app/settings/settings.component.ts:172 | a found list is a stored list named 'Orphaned Topics'; none is found exactly when no list has that name |
| Cleanup.FreshAfter | src/app/settings/settings.component.ts:159 | the new id is at least 1 and greater than every given id |
| Cleanup.OrphanedRequestsSpec | src/app/settings/settings.component.ts:150-156 | a request is orphaned exactly when it is stored and no topic holds it |
| Cleanup.OrphanedRequests | src/app/settings/settings.component.ts:150-156 | the ids of the requests no topic holds, in store order; Cleanup.OrphanedRequestsSpec proves it |
| Cleanup.OrphanedTopics | src/app/settings/settings.component.ts:190-196 | the ids of the topics no list holds, in store order; Cleanup.OrphanedTopicsSpec proves it |
| Cleanup.OrphanedTopicsSpec | src/app/settings/settings.component.ts:190-196 | a topic is orphaned exactly when it is stored and no list holds it |
| Cleanup.Step7 | src/app/settings/settings.component.ts:149-187 | step 7 dispatches nothing exactly when there are no orphaned requests |
| Cleanup.Step8 | src/app/settings/settings.component.ts:189-214 | step 8 dispatches nothing exactly when there are no orphaned topics |
| Cleanup.DanglingIdle | src/app/settings/settings.component.ts:46-60 | steps 1 and 2 dispatch nothing exactly when every held id names a stored entity |
| Cleanup.SharingIdle | src/app/settings/settings.component.ts:62-147 | on a store without dangling ids, steps 4 and 6 dispatch nothing exactly when no list holds a topic twice or shares it and no topic holds a request twice or shares it |
| Cleanup.OrphansIdle | src/app/settings/settings.component.ts:149-214 | steps 7 and 8 dispatch nothing exactly when every request has a topic and every topic has a list |
| Cleanup.CleanupIdleIffConsistent | src/app/settings/settings.component.ts:38-215 | the repair dispatches nothing exactly when the store is consistent: no dangling ids, no sharing, no orphans |
| Cleanup.DispatchStep1 | src/app/settings/settings.component.ts:46-52 | the loop's store is the old store with step 1's updates dispatched |
| Cleanup.DispatchStep2 | src/app/settings/settings.component.ts:54-60 | the loop's store is the old store with step 2's updates dispatched |
| Cleanup.CopyTopicRound | src/app/settings/settings.component.ts:80-95 | one iteration dispatches the copy and the retargeting of that list |
| Cleanup.CopyTopicLoop | src/app/settings/settings.component.ts:80-96 | the loop dispatches a copy for every list after the first |
| Cleanup.DispatchStep4 | src/app/settings/settings.component.ts:74-98 | the loop over the map dispatches exactly step 4's actions |
| Cleanup.CopyRequestRound | src/app/settings/settings.component.ts:119-144 | one iteration dispatches the copy, its fields and the retargeting of that topic |
| Cleanup.CopyRequestLoop | src/app/settings/settings.component.ts:118-145 | the loop dispatches a copy for every topic after the first |
| Cleanup.DispatchStep6 | src/app/settings/settings.component.ts:112-147 | the loop over the map dispatches exactly step 6's actions |
| Cleanup.ReferencedSet | src/app/settings/settings.component.ts:151-154 | the loop collects exactly the referenced ids |
| Cleanup.DispatchStep7 | src/app/settings/settings.component.ts:149-187 | the store becomes the old store with step 7's actions dispatched |
| Cleanup.DispatchStep8 | src/app/settings/settings.component.ts:189-214 | the store becomes the old store with step 8's actions dispatched |
| Cleanup.CleanupData | src/app/settings/settings.component.ts:38-215 | the store becomes the old store with all the repair's actions, computed from the snapshot, dispatched in order |
| ImportExport.ExportListData | src/app/shared/services/import-export.ts:52-73 | nothing for an unknown list; otherwise that list alone, exactly the stored topics it names, and exactly the stored requests some exported topic holds, without stats |
| ImportExport.ExportTopicData | src/app/shared/services/import-export.ts:75-93 | nothing for an unknown topic; otherwise no lists, that topic alone and exactly the stored requests it holds, without stats |
| ImportExport.ListExportCoversTopicExports | src/app/shared/services/import-export.ts:52-93 | every request in the export of a topic that a list names is also in the export of that list |
| ImportExport.EarlierDate | src/app/shared/services/import-export.ts:385-387 | the earlier of two dates when both exist, otherwise whichever exists |
| ImportExport.LaterDate | src/app/shared/services/import-export.ts:388-390 | the later of two dates when both exist, otherwise whichever exists |
| ImportExport.MergeStats | src/app/shared/services/import-export.ts:380-391 | every counter is the larger of the current one and the imported one (missing counting as 0); first and last dates are the earlier and later ones |
| ImportExport.MergeKeepsHigher | src/app/shared/services/import-export.ts:380-391 | merging never lowers a counter, never moves the first date later nor the last date earlier |
| ImportExport.MergeIdempotent | src/app/shared/services/import-export.ts:380-391 | merging the stats with themselves changes nothing |
| ImportExport.MergeCommutes | src/app/shared/services/import-export.ts:380-391 | merging a into b gives the same stats as merging b into a |
| ImportExport.MergedStatsStored | src/app/shared/services/import-export.ts:393 | the merged stats are stored as they are |
| ImportExport.Describe | src/app/shared/services/import-export.ts:168 | the description when non-empty, else the text, else empty |
| ImportExport.ListReplaceAction | src/app/shared/services/import-export.ts:134-141 | `addListWithId` with the file's id and name, topics defaulting to none and `excludeFromAll` to false; ImportExport.ListStepWithId states its effect |
| ImportExport.TopicReplaceActions | src/app/shared/services/import-export.ts:147-158 | `addTopicWithId` with the file's id and name, then the topic's request ids when it has some; ImportExport.TopicStep states their effect |
| ImportExport.RequestReplaceActions | src/app/shared/services/import-export.ts:165-186 | `addRequestWithId` with the file's id and description, then the fields the file sets; ImportExport.RequestStep states their effect |
| ImportExport.ReplaceActions | src/app/shared/services/import-export.ts:120-187 | every dispatch of the replace import: clear all three collections, then re-add lists, topics and requests under the file's ids; ImportExport.ReplacePhases and ImportExport.ReplaceImportRestores state the outcome |
| ImportExport.ReplaceChanges | src/app/shared/services/import-export.ts:172-178 | the follow-up update carries exactly the fields the record has: dates and answer text as given, a prayer count and a priority (0 becoming 1) when present, archived when present |
| ImportExport.RestoredTopic | src/app/shared/services/import-export.ts:147-158 | a topic record is restored with its id, name and request ids (none when missing) |
| ImportExport.RestoredRequest | src/app/shared/services/import-export.ts:165-185 | a request record is restored with its id, its description, and each field given or its default (0 prayers, priority 1, created now, unanswered) |
| ImportExport.ReplaceActionsSpareLists | src/app/shared/services/import-export.ts:131-187 | the list phase only adds lists with their ids; the topic and request phases only add and update topics and requests |
| ImportExport.TopicStep | src/app/shared/services/import-export.ts:147-158 | one topic record whose id is free appends exactly its restored topic |
| ImportExport.RequestStep | src/app/shared/services/import-export.ts:165-186 | one request record whose id is free appends exactly its restored request |
| ImportExport.TopicsRestored | src/app/shared/services/import-export.ts:144-160 | from no topics, a file without repeated topic ids restores exactly its topics, in order |
| ImportExport.RequestsRestored | src/app/shared/services/import-export.ts:162-187 | from no requests, a file without repeated request ids restores exactly its requests, in order |
| ImportExport.ClearsEmpty | src/app/shared/services/import-export.ts:126-128 | the three clears leave an empty store, whatever it held |
| ImportExport.ReplaceStartsEmpty | src/app/shared/services/import-export.ts:120-187 | a replace import ends as if it had started from an empty store |
| ImportExport.ReplacePhases | src/app/shared/services/import-export.ts:120-187 | the import runs its list, topic and request phases in order; topics are untouched by the request phase and requests by the topic phase |
| ImportExport.ReplaceImportDropsLists | src/app/shared/services/import-export.ts:132-141 | after a replace import there are no lists at all, because the list reducer ignores the add-with-id action |
| ImportExport.RestoredList | src/app/shared/services/import-export.ts:135-140 | a list record as meant to be restored: its id and name, its topic ids (none when missing), excluded only when set |
| ImportExport.ListsReducerWithId | src/app/store/lists/list.reducer.ts:24-33 | the corrected list reducer acts like the original on every other action |
| ImportExport.ListStepWithId | src/app/shared/services/import-export.ts:134-141 | with the corrected reducer, a list record whose id is free appends exactly its restored list |
| ImportExport.ListsRestoredWithId | src/app/shared/services/import-export.ts:132-141 | with the corrected reducer, a file without repeated list ids restores exactly its lists, in order |
| ImportExport.ReplaceImportRestores | src/app/shared/services/import-export.ts:120-187 | a replace import of a file without repeated ids leaves exactly the file's topics and requests, restored in order |
| ImportExport.ReplaceLists | src/app/shared/services/import-export.ts:132-142 | the loop dispatches one add-with-id per list record |
| ImportExport.ReplaceTopics | src/app/shared/services/import-export.ts:144-160 | the loop dispatches an add per topic record, and an update for a record holding request ids |
| ImportExport.ReplaceRequests | src/app/shared/services/import-export.ts:162-187 | the loop dispatches an add per request record, and an update for a record with extra fields |
| ImportExport.ImportReplace | src/app/shared/services/import-export.ts:120-193 | dispatches the replace actions; the stats become the file's stats when asked for and present, and are reset otherwise |
| ImportMerge.ListMergeAction | src/app/shared/services/import-export.ts:207-242 | a list matched by name gets the imported `excludeFromAll` (missing reads as false); an unmatched one is added by name; ImportMerge.MergeLists states the effect of the whole loop |
| ImportMerge.ListMapping | src/app/shared/services/import-export.ts:220-241 | `idMappings.lists` after the loop; ImportMerge.ListMappingSpec proves every imported list is mapped to its match or the next id |
| ImportMerge.ListMatch | src/app/shared/services/import-export.ts:208 | the position of the first current list with the record's name, or past the end when none has it |
| ImportMerge.ListTarget | src/app/shared/services/import-export.ts:210-241 | a matched record maps to that list's id; an unmatched one to the next id of the lists read before the loop |
| ImportMerge.ListMappingSpec | src/app/shared/services/import-export.ts:202-244 | the list map has exactly the file's list ids as keys, and in a file without repeated ids each maps to its record's target |
| ImportMerge.NewListsShareMappedId | src/app/shared/services/import-export.ts:223-241 | two new lists from one file are both mapped to id 1 although the store gives them ids 1 and 2 |
| ImportMerge.TopicMergeAction | src/app/shared/services/import-export.ts:252-269 | a topic matched by name is renamed to itself; an unmatched one is added under the snapshot's next id; ImportMerge.MergeTopics and ImportMerge.NewTopicsCollide state the effect of the loop |
| ImportMerge.TopicMapping | src/app/shared/services/import-export.ts:252-273 | `idMappings.topics` after the loop |
| ImportMerge.TopicMatch | src/app/shared/services/import-export.ts:253 | the position of the first current topic with the record's name, or past the end when none has it |
| ImportMerge.TopicTarget | src/app/shared/services/import-export.ts:256-268 | a matched record maps to that topic's id; an unmatched one to the next id of the topics read before the loop |
| ImportMerge.NewTopicsCollide | src/app/shared/services/import-export.ts:264-272 | two new topics from one file are both mapped to id 1, and only the first is stored |
| ImportMerge.NewTopicCount | src/app/shared/services/import-export.ts:252-273 | the number of new topics is at most the number of records |
| ImportMerge.FixedTopicTarget | src/app/shared/services/import-export.ts:256-268 | corrected: an unmatched record gets the next id after the topics before the loop and the new ones already added |
| ImportMerge.AddedTopics | src/app/shared/services/import-export.ts:264-269 | corrected: one new empty topic per unmatched record, with consecutive fresh ids |
| ImportMerge.FixedTopicStep | src/app/shared/services/import-export.ts:252-273 | corrected: each record either leaves the topics unchanged or appends its new topic |
| ImportMerge.FixedTopicsStored | src/app/shared/services/import-export.ts:246-273 | corrected: the topic phase leaves the old topics unchanged, followed by exactly the new topics |
| ImportMerge.FixedTopicMappingFound | src/app/shared/services/import-export.ts:246-273 | corrected: every imported topic maps to a stored topic with its name |
| ImportMerge.LinkActions | src/app/shared/services/import-export.ts:275-294 | the list updates that point each mapped list at its mapped topics; ImportMerge.LinkTopics states their effect |
| ImportMerge.MappedIds | src/app/shared/services/import-export.ts:283-285 | exactly the mapped ids of the held ids that have a mapping |
| ImportMerge.LinkAction | src/app/shared/services/import-export.ts:277-292 | at most one update, and none for an unmapped list, a zero id, a record without topic ids, or a list not found before the topic phase |
| ImportMerge.ImportedTopicOf | src/app/shared/services/import-export.ts:305 | the position of the first file topic that holds the request id, or past the end |
| ImportMerge.RequestTopicTarget | src/app/shared/services/import-export.ts:305-308 | a target exists exactly when some file topic holds the request and its mapped id is non-zero; it is then non-zero |
| ImportMerge.RequestMatch | src/app/shared/services/import-export.ts:310-318 | the first current request with the record's text that the target topic holds, or past the end |
| ImportMerge.MergeChanges | src/app/shared/services/import-export.ts:324-351 | the fields a merged request takes from the file, description included only for a matched request; ImportMerge.RequestSkipOrMatch uses it |
| ImportMerge.RequestMergeActions1 | src/app/shared/services/import-export.ts:303-364 | the dispatches for one imported request: skip when its topic was not imported, update a description match, otherwise add under the snapshot's next id, update its extras and link it to its topic; ImportMerge.RequestSkipOrMatch and ImportMerge.NewRequestsCollide prove the cases |
| ImportMerge.RequestMapping | src/app/shared/services/import-export.ts:333-363 | `idMappings.requests` after the loop; ImportMerge.MergeRequests uses it |
| ImportMerge.RequestTarget | src/app/shared/services/import-export.ts:303-364 | a request is mapped exactly when its topic was imported |
| ImportMerge.RequestSkipOrMatch | src/app/shared/services/import-export.ts:303-333 | a request without an imported topic dispatches nothing; a matching one updates that request and maps to its id |
| ImportMerge.NewRequestsCollide | src/app/shared/services/import-export.ts:334-363 | two new requests in one topic are both mapped to the same id |
| ImportMerge.MergeImport | src/app/shared/services/import-export.ts:195-366 | the list map comes from the lists before the import; without requests the request map is empty |
| ImportMerge.EmptyMergeChangesNothing | src/app/shared/services/import-export.ts:195-366 | a file with no records leaves the store unchanged |
| ImportMerge.MergeLists | src/app/shared/services/import-export.ts:202-244 | the loop dispatches exactly the list phase's actions and builds exactly its map |
| ImportMerge.MergeTopics | src/app/shared/services/import-export.ts:246-273 | the loop dispatches exactly the topic phase's actions and builds exactly its map |
| ImportMerge.LinkTopics | src/app/shared/services/import-export.ts:275-294 | the loop dispatches exactly the linking updates |
| ImportMerge.MergeRequests | src/app/shared/services/import-export.ts:297-366 | the loop dispatches exactly the request phase's actions and builds exactly its map |
| ImportMerge.ImportMergeMode | src/app/shared/services/import-export.ts:195-395 | the outcome is the merge import's; the stats are merged when asked for and present, and unchanged otherwise |
| TopicIds.FreshIdsAvoidCurrent | src/app/shared/services/import-export.ts:266-268 | corrected: the fresh ids lie above every current id and below the next fresh id |
| TopicIds.AddedIdsAboveCurrent | src/app/shared/services/import-export.ts:266-268 | corrected: no new topic shares an id with a current topic |
| TopicIds.UpdateTopicNoOp | src/app/store/topics/topic.reducer.ts:33 | an update that would leave its target as it is changes no topic |
| TopicIds.MatchedTopicUnchanged | src/app/shared/services/import-export.ts:256-263 | renaming a matched topic to its own name leaves the topics, old and new, unchanged |
| TopicIds.FreshTopicAppended | src/app/shared/services/import-export.ts:264-268 | corrected: adding under the next fresh id appends exactly the new empty topic |
| Text.Trim | src/app/main/list/topic/topic.component.ts:73 | the result is the input with leading and trailing white space removed (tab, vertical tab, form feed, byte order mark, every Unicode space separator and the line terminators, as `String.prototype.trim` strips them): it is a slice with only white space outside it, and it neither starts nor ends with white space |
| Text.TrimEmptyIffAllSpace | src/app/main/list/topic/topic.component.ts:168-169 | trimming gives the empty string exactly when the text is all white space |
| Text.TrimIdempotent | src/app/main/list/topic/topic.component.ts:73 | trimming twice is trimming once |
| Text.EditedName | src/app/main/list/topic/topic.component.ts:73-74 | a new name exactly when the trimmed text is non-empty and differs from the current name; it is then the trimmed text |
| Text.BlankSeparatorsSaveNothing | src/app/main/list/topic/topic.component.ts:73-74 | text made only of Unicode space separators (a full-width space, an ogham space mark, the general-punctuation spaces) trims to nothing, so no name is saved |
| Text.EditedNameSettles | src/app/main/list/topic/topic.component.ts:70-79 | once a name is saved, saving the same text again changes nothing |
| Text.JoinPresent | src/app/pray/pray.component.ts:90 | the present parts joined by the separator; an absent part and its separator are dropped |
| Text.ParseNatToString | src/app/shared/services/timer.service.ts:118 | a number printed in decimal reads back as itself |
| Text.IntToStringInjective | src/app/shared/services/timer.service.ts:118 | different numbers print differently |
| Collections.Dedupe | src/app/main/list/list.component.ts:50 | the result has no repeats and holds exactly the given ids |
| Collections.Without | src/app/main/list/list.component.ts:95 | the id is gone and every other id occurs as often as before |
| Collections.WithoutSnoc | src/app/main/list/list.component.ts:95 | `filter` keeps the order of the other ids: nothing is removed from an empty list, and an id appended at the end stays at the end unless it is the one removed |
| Numbers.Round | src/app/prayer-session/stats-card/stats-card.ts:24 | the result is the integer nearest the value, halves rounding up |
| Numbers.CeilDiv | src/app/shared/services/timer.service.ts:117 | the least integer quotient not below the exact one |
| Numbers.MaxOrZero | src/app/settings/settings.component.ts:159 | at least 0 and every given value; the largest value when that is not negative |

## Left out

- Signals, `computed` and `effect`: every derived value is a function of the fields it reads, and each effect is a method the caller invokes (`UpdateShuffled`, `SyncSelectCount`, `StoreChanged`). The re-computation the store triggers after the dwell timer registers a prayer is the separate `StoreChanged` event, not part of `FireViewTimer`.
- Timers: `setInterval` and `setTimeout` are explicit events (`Tick`, `FireViewTimer`, `ClearDragFlag`, the animation frame); the 12-second and 150 ms delays are not modelled, and a handle is a flag or an optional value.
- `TimerService.FireViewTimer` clears its handle when the timeout fires; the source keeps the spent handle until the next start or stop, which changes nothing observable.
- `Math.random`: the Fisher–Yates index is `rand(i) % (i + 1)` for an arbitrary `rand`, and the answered sample's `sort(() => Math.random() - 0.5)` is an arbitrary permutation given by draws, followed by a prefix.
- The pool signature (sorted ids joined by commas) is the multiset of the ids; two joined strings are equal exactly when the multisets are.
- Floating point: widths, drag offsets, rates and percentages are exact reals, and `Math.round` rounds halves up; rounding error in the source's doubles is not modelled.
- JavaScript numbers are unbounded integers here; ids and counters above 2^53 are not modelled.
- Dates: the store's ISO strings are strings, timestamps are integers, and `toLocaleDateString` and `Date` parsing are parameters or inputs (year and month are passed with each timestamp).
- DOM measurement and layout (`getBoundingClientRect`, resize listeners, `carouselTransform` strings, scrolling, `viewportHeight`): slide and container widths are inputs.
- Persistence: `localStorage` in the settings service, in `PrayerStats` and in the local-storage meta-reducer; `downloadData`; `exportAllData`, which only copies the store and the stats.
- Dynamic `import()` and `await`: dispatches are applied in program order at once.
- Dialogs are parameters (the name typed, or whether a confirmation was accepted); navigation and routing, the wake lock, animations and the card, answer-form, header, footer, tab and pager components are not part of this model.
- The NgRx entity adapter is not visible: `addOne` on an id already present is taken to leave the state unchanged, and `selectAll` to yield insertion order.
- Merge import: an absent `excludeFromAll` is taken as false; absent `prayerCount` and `priority` in a request update keep the stored values; the `setTimeout` follow-up that sets `excludeFromAll` on a newly added list is not modelled.
- Cleanup.CopyTopicActions: the contract states only that a copy is dispatched for each later list; the exact actions are fixed by `Cleanup.CopyTopicLoop` and exhibited by `Cleanup.SharedTopicsActions`.
- Cleanup.CopyRequestActions: the contract states only that a copy is dispatched for each later topic; the exact actions are fixed by `Cleanup.CopyRequestLoop` and `Cleanup.CopyIsOriginal`.
- ImportMerge.MergeImport: the contract states only the list map and the empty request map; the store it yields is what `ImportMerge.ImportMergeMode` and the phase loops are proved against.
- ImportMerge.NewTopicCount: the contract bounds the count only; its meaning comes through `ImportMerge.AddedTopics` and `ImportMerge.FixedTopicsStored`.
- Cleanup steps 4 and 6 are modelled as written, and a corrected repair is not modelled. In step 4 every copy of a shared topic gets the same new id, and `Cleanup.SharedTopicsCollide` shows the result. A step 4 copy is also stored with no request ids, because only its id and name are dispatched. In step 6 every copy of a shared request takes the snapshot's next request id, so a second copy's add is ignored and its update overwrites the first copy's fields. A single run of the repair therefore need not reach the shape `Cleanup.Consistent` describes; the model proves only that the repair is idle exactly on that shape (`Cleanup.CleanupIdleIffConsistent`).

## Findings

| source | as written | input that shows it | evidently intended | confidence | as-written member | corrected member |
|---|---|---|---|---|---|---|
| src/app/prayer-session/stats-card/stats-card.ts:38-41 | `round(prayed / seconds * 60)`, requests per minute, under a comment saying requests per hour | 60 requests in 3600 seconds give 1 (`StatsCard.EfficiencyIsPerMinute`) | requests per hour, `round(prayed / seconds * 3600)`, which gives 60 (`StatsCard.PerHourOfWholeHours`) | not executed | StatsCard.PrayerEfficiency | StatsCard.PrayerEfficiencyPerHour |
| src/app/store/lists/list.reducer.ts:24-33 | the list reducer has no case for `addListWithId`, which the replace import and the repair dispatch | any replace import of a file with lists ends with no lists (`ImportExport.ReplaceImportDropsLists`) | the list is added under the given id, so the file's lists are restored in order (`ImportExport.ListsRestoredWithId`) | not executed | ImportExport.ReplaceImportDropsLists | ImportExport.ListsReducerWithId |
| src/app/shared/services/import-export.ts:266 | every new topic of a merge import gets `max(ids) + 1` of the snapshot taken before the loop | two new topics 'A' and 'B' into an empty store: both map to 1 and only 'A' is stored (`ImportMerge.NewTopicsCollide`) | consecutive fresh ids, so every new topic is stored and every imported topic maps to a stored topic of its name (`ImportMerge.FixedTopicsStored`, `ImportMerge.FixedTopicMappingFound`) | not executed | ImportMerge.TopicTarget | ImportMerge.FixedTopicTarget |
