# Tinder-style backend: a Dafny model

This project models the core of a small dating backend and proves what its parts promise. A Go
service keeps users, swipes, exclusions, chats and photos in Postgres and an object store,
publishes analytics events to a Redis stream, and a Python consumer writes them to ClickHouse.

`dafny verify dfyconfig.toml` checks everything. The files, by subject:

- `Common`, `Schema`: shared vocabulary and the tables.
- `Calendar`: Go's year arithmetic against the SQL age function.
- `Cursors`, `Paging`, `ChatService`: cursor text, pages that fetch one row more than they
  show, the chat list, message history and incoming likes.
- `CandidateQuery`: the feed query as a syntax tree over numbered placeholders, with SQL's
  three-valued logic, against the direct predicate.
- `Feed`, `FeedRequest`, `FeedTraversal`: the batched scan, one request told from its own
  inputs, and whole traversals, the tables free to change before every statement (`world(k)` is
  what the k-th statement sees).
- `RibbonStore`, `RibbonRuns`, `RibbonHistory`: likes, dislikes, blocks, chats and messages,
  one transaction at a time, over all runs.
- `ReadCommitted`, `ReadCommittedHistory`, `ReadCommittedRaces`, `ReadCommittedSerial`: the
  same transactions statement by statement under READ COMMITTED; what survives, exactly when
  the rest fails, runs in which it does, and the link back to the serial form.
- `PairView`, `SerialOrder`, `ReadCommittedSerializable`: one open transaction per pair makes
  every interleaving serializable.
- `Publisher`, `Consumer`, `RibbonService`: the parts of the event path, each as a state machine
  and as the object the source has.
- `Delivery`, `Pipeline`, `PipelineRaces`: all of it together, over serial and over interleaved
  transactions.
- `Migrations`, `MigrationInstances`: one run of the migration loop, and many instances under
  the lock.
- `PhotoStore`, `PhotoSaga`: photo rows, and uploads and deletions across two stores.

Code that works step by step is a method with loops on an object whose state it updates; its
contract ties the new state to a specification function, and the lemmas are about that
function and about runs of it. The outcomes of calls into other systems (a query's snapshot, a
send, an insert, a lost reply, the distance between two points, the clock) are parameters, so
the results hold for all of them.

## Where code and documentation disagree

The model follows the code.

- The repository's README says the consumer writes each event to ClickHouse. It reads only
  entries never delivered before, so an entry whose insert fails, or that is in hand when the
  task ends, is never stored later (`Consumer.NoSecondChance`, `Consumer.RejectedInsertIsLost`).
- The comment on `CreateLike` says a like creates or returns the pair's chat when the other
  side has liked already. Two likes at the same moment can both miss each other
  (`ReadCommittedRaces.SimultaneousLikesMissTheMatch`); exactly when is
  `ReadCommittedHistory.MatchMissedIffNeitherSaw`.
- The comment on `CreateBlock` says the pair's chat is deactivated. A like that passed its
  check before the block committed can create an active one afterwards
  (`ReadCommittedRaces.LikeAroundBlockLeavesActiveChat`); exactly which chats a block reaches is
  `ReadCommittedHistory.InactiveIffBlockReached`. One transaction per pair at a time rules out
  both (`ReadCommittedSerializable.PairLockedIsSerial`).
- `Publisher.Close` is said to wait for in-flight sends. It does, but once the context is
  cancelled a worker may leave instead of taking what is queued, and the server cancels it
  before every graceful shutdown; events then still queued when the last worker leaves are never
  attempted (`Publisher.CancelledCloseMayAbandon`, `Publisher.SettledStays`). What a caller can
  count on is `Publisher.CloseGuarantee`.
- `normalizeChatPage` reports a limit out of range as an invalid cursor.
- A photo repository comment says the first photo of a profile is its main one. A deleted main
  photo is not replaced (`PhotoStore.DeletingMainLeavesNone`, `PhotoStore.NoMainIffDeleted`).
- A like can be answered as a match whose chat was deactivated long ago
  (`RibbonRuns.RematchNamesInactiveChat`, `RibbonRuns.MatchedChatIsActive`).

## Model

| member | source | states |
|---|---|---|
| `CandidateQuery.BuildCandidateQuery` | go-core/internal/repository/ribbon.go:129-189 | for every combination of optional filters: every placeholder is within the arguments, every argument is referenced, the last one is the LIMIT, and the built conjunction selects a profile exactly when the direct predicate on the input holds, in every table state |
| `CandidateQuery.MoreArguments` | go-core/internal/repository/ribbon.go:163-166 | arguments appended later never change the meaning of a condition already bound, sub-queries included |
| `CandidateQuery.AppendConjunct` | go-core/internal/repository/ribbon.go:163-175 | one more condition narrows the selection by exactly its own meaning |
| `CandidateQuery.BaseMeaning` | go-core/internal/repository/ribbon.go:130-161 | the ten fixed conditions, NULLs and both NOT EXISTS sub-queries included, mean: active, not the viewer, inside the bounds, of the right age, after the cursor, not excluded either way, not yet liked |
| `CandidateQuery.KleeneLogic` | go-core/internal/repository/ribbon.go:130-161 | the connectives the query is evaluated with: with no below unknown below yes, AND is the lesser, OR the greater, NOT the reverse |
| `CandidateQuery.NullIsUnknown` | go-core/internal/repository/ribbon.go:130-161 | a comparison with NULL is unknown, one of numbers is what it says |
| `CandidateQuery.LimitArgument` | go-core/internal/repository/ribbon.go:176-186 | the LIMIT argument completes the numbering without touching the selection |
| `Feed.ListCandidates` | go-core/internal/repository/ribbon.go:117-127 | the built statement, executed, lists the qualifying profiles by ascending id, cut at the limit |
| `Feed.ScanCandidates` | go-core/internal/repository/ribbon.go:420-433 | the row loop gives the candidates of the selected ids one by one, each with its profile and verified flag |
| `Feed.KeepNear` | go-core/internal/service/ribbon.go:176-190 | the inner loop keeps every near candidate in order up to a full page, whatever earlier batches saw; the scan cursor ends on the last candidate looked at |
| `Feed.ScanFeed` | go-core/internal/service/ribbon.go:158-195 | for any batch size of at least one the batched scan terminates; every item was shown at some statement of the request, ids ascend above the cursor, and a profile that belonged at every statement is on the page unless it lies after a full page's last item; when the tables stay the same during the request it makes at most N / batch size + 1 queries |
| `FeedRequest.GetFeed` | go-core/internal/service/ribbon.go:128-202 | which error is returned for a limit outside 0..50, a bad cursor, missing preferences, profile, coordinates or bounds; otherwise at most limit items (20 when 0) by rising id above the cursor, each a profile that some statement of the request showed qualifying for this viewer and these filters in the bounds drawn around the viewer's own latitude and longitude with a radius of at least 100 km, within the asked distance of that place and with that distance to 0.005; and every profile so at every statement is there unless it comes after a full page; the cursor names the last item of a full page, and on unchanging tables the number of queries is bounded |
| `FeedTraversal.TraversalAscends` | go-core/internal/service/ribbon.go:158-200 | following the cursors while the tables change between any two statements gives strictly ascending profile ids, so no repeats |
| `FeedTraversal.TraversalIsComplete` | go-core/internal/service/ribbon.go:158-200 | a profile that belongs in the feed at every statement is shown exactly once by the end of the traversal |
| `FeedTraversal.PageIsFirstOfFeed` | go-core/internal/service/ribbon.go:156-202 | on one snapshot a page is exactly the first limit elements of the filtered, id-sorted rows after the cursor |
| `FeedTraversal.SnapshotTraversal` | go-core/internal/service/ribbon.go:156-202 | on one snapshot the pages put together are the whole feed, in F / limit + 1 pages, the last one empty when limit divides F |
| `FeedTraversal.UnfinishedTraversal` | go-core/internal/service/ribbon.go:156-202 | before that, the pages so far are full and together the beginning of the feed, so there are at most F / limit of them |
| `FeedTraversal.Request` | go-core/internal/service/ribbon.go:128-202 | a page GetFeed answers to a text cursor is a page of the kind the traversal lemmas speak of |
| `FeedTraversal.Browse` | go-core/internal/service/ribbon.go:128-202 | a client that asks for page after page comes to an end however the tables change, meets no error after its first answer, and collects a finished traversal of one search with one limit; if the tables stay the same meanwhile it is the whole feed, in F / limit + 1 pages |
| `FeedTraversal.CursorNamesLastItem` | go-core/internal/service/ribbon.go:197-200 | a cursor is given exactly with a full page, and parses back to the id of its last item |
| `Cursors.CursorRoundTrip` | go-core/internal/service/ribbon.go:325-334 | formatting any id up to the int64 maximum and parsing it as a cursor returns it |
| `Cursors.AcceptedDigitCursors` | go-core/internal/service/ribbon.go:325-334 | digit text is read as v exactly when it is the canonical text of v after leading zeros and v fits int64 |
| `Cursors.AcceptedCursorShape` | go-core/internal/service/ribbon.go:325-334 | exactly which texts are accepted: digits with an optional plus sign within int64, and minus only before zeros |
| `Cursors.SignedCursors` | go-core/internal/service/ribbon.go:325-334 | a plus sign does not change the value of digit text, and a minus sign is accepted before zeros only, as zero |
| `Cursors.BlankCursorIsStart` | go-core/internal/service/ribbon.go:325-334 | no cursor, or one of spaces, tabs and line ends, starts at the beginning |
| `Paging.MakePage` | go-core/internal/service/chat.go:111-121 | the loop over limit + 1 rows gives the first limit of them, and a cursor exactly when a row remains |
| `Paging.FetchedRowsMakePage` | go-core/internal/service/chat.go:111-121 | a page made from the rows of the next limit + 1 keys shows the rows of the next limit keys, with a cursor exactly when a key remains, naming the last one shown |
| `Paging.FollowAscends` | go-core/internal/service/chat.go:93-121 | following limit + 1 cursors over a changing table never repeats a row |
| `Paging.FollowIsComplete` | go-core/internal/service/chat.go:93-121 | a row present at every request is shown exactly once |
| `Paging.FollowUnchanging` | go-core/internal/service/chat.go:93-121 | on an unchanging table the pages put together are the table, in max(1, N / limit rounded up) pages: no empty page trails |
| `Paging.ClientSeesFollow` | go-core/internal/service/chat.go:93-121 | a client that follows the cursors of any endpoint answering such pages sees what the lemmas above speak of |
| `Paging.ClientSeesOnce` | go-core/internal/service/ribbon.go:207-230 | for the rows of such an endpoint: ascending, and once each for those always listed |
| `Paging.ClientSeesAll` | go-core/internal/service/ribbon.go:207-230 | for the rows of such an endpoint on an unchanging list: all of them, in max(1, N / limit rounded up) pages |
| `Paging.BrowsesFollows` | go-core/internal/service/chat.go:93-121 | pages got by asking an endpoint again with each cursor it answers are such pages |
| `Paging.ListIncomingLikes` | go-core/internal/repository/ribbon.go:193-219 | the rows of the incoming likes by ascending profile id, cut at the limit, each with its profile and verified flag |
| `Paging.GetIncomingLikes` | go-core/internal/service/ribbon.go:207-230 | an invalid limit outside 0..50, else an invalid cursor, else the page of incoming likes after exactly the value of the cursor text, 20 rows when the limit is 0 |
| `Paging.IncomingPageKeys` | go-core/internal/service/ribbon.go:217-228 | that page is the page of the list of all likers after the cursor, for every cursor, so the results on following cursors hold of it |
| `Paging.IncomingPageRows` | go-core/internal/repository/ribbon.go:198-209 | every row of it is an active profile whose user has swiped the asking one, with no exclusion between them, as the tables have it |
| `Paging.IncomingLikesOnce` | go-core/internal/service/ribbon.go:207-230 | a client paging through its incoming likes while the tables change sees no profile twice, and one that is a liker at every request once |
| `Paging.IncomingLikesAll` | go-core/internal/service/ribbon.go:207-230 | on unchanging tables it gets all its likers in order, in max(1, N / limit rounded up) pages |
| `Paging.BrowseIncomingLikes` | go-core/internal/service/ribbon.go:207-230 | a client loop that sends back each cursor text it was given ends, and collects exactly the whole list of likers |
| `ChatService.Messages` | go-core/internal/service/chat.go:60-73 | an invalid chat id, else an invalid limit or cursor text, else not found for everyone but the two participants, else the page after exactly the value of the cursor text, 20 rows when the limit is 0 |
| `ChatService.MessagePageKeys` | go-core/internal/repository/chat_repository.go:65-104 | that page is the page of the chat's message ids, for every cursor |
| `ChatService.MessagePageRows` | go-core/internal/repository/chat_repository.go:65-104 | every row of it is a message of the chat, as it is stored |
| `ChatService.List` | go-core/internal/service/chat.go:48-58 | failure exactly for a limit outside 0..50 or a bad cursor text; otherwise the page of the user's active chats after exactly the value of that text, 20 rows when the limit is 0 |
| `ChatService.ListActive` | go-core/internal/repository/chat_repository.go:24-63 | the active chats after an id with their previews, cut at the limit |
| `ChatService.ChatPageKeys` | go-core/internal/service/chat.go:48-58 | the page is the page of the list of the user's listed chats, for every cursor |
| `ChatService.ChatPageRows` | go-core/internal/repository/chat_repository.go:26-33 | every row is an active chat of the user, with the other side's id and name |
| `ChatService.ChatsOnce` | go-core/internal/service/chat.go:48-58 | a client paging through its chats while the tables change sees none twice, and one that is listed at every request once |
| `ChatService.ChatsAll` | go-core/internal/service/chat.go:48-58 | on unchanging tables it gets its whole list in order, in max(1, N / limit rounded up) pages |
| `ChatService.BrowseChats` | go-core/internal/service/chat.go:48-58 | a client loop that sends back each cursor text it was given ends, and collects the whole list |
| `ChatService.ListedChatsMeaning` | go-core/internal/repository/chat_repository.go:24-36 | the list is the active chats the user takes part in on either side whose other side has a profile |
| `ChatService.HistoryIsComplete` | go-core/internal/service/chat.go:60-73 | a client paging through Messages while any operations go on sees no message twice, and every message that was there at the start once |
| `ChatService.BrowseMessages` | go-core/internal/service/chat.go:60-73 | a client loop that sends back each cursor text it was given ends, and collects every message of the chat in order, as it is stored; it fails exactly for a bad chat id or limit and for outsiders |
| `ChatService.BannedChatIsNotListed` | go-core/internal/repository/chat_repository.go:24-36 | in no reachable state does a page of the list show either side of a ban their chat |
| `RibbonStore.RibbonRepository.CreateLike` | go-core/internal/repository/ribbon.go:223-281 | unknown target exactly when the target has no active profile, then exclusions either way, then the constraints; a success adds that one swipe, answers a chat exactly when the reverse swipe is there, and that chat is the pair's: the one it had, as it was, or a new active one; everything else is unchanged |
| `RibbonStore.RibbonRepository.CreateDislike` | go-core/internal/repository/ribbon.go:285-299 | each refusal, or a plain dislike where no exclusion stood; an existing one keeps its flag, and nothing else changes |
| `RibbonStore.RibbonRepository.CreateBlock` | go-core/internal/repository/ribbon.go:303-334 | each refusal, or the ban and the deactivation of exactly the pair's chat, in either column order |
| `RibbonStore.RibbonRepository.RemoveBlock` | go-core/internal/repository/ribbon.go:338-349 | only a permanent exclusion is removed |
| `RibbonStore.ChatIsUnique` | go-core/internal/repository/ribbon.go:268-276 | under the unique pair index the id read back after a match is the pair's only chat |
| `RibbonStore.ChatRepository.CreateMessage` | go-core/internal/repository/chat_repository.go:106-136 | a message is added exactly when the chat is active and the sender is one of its two users; nothing else changes |
| `RibbonStore.ChatRepository.MarkRead` | go-core/internal/repository/chat_repository.go:138-154 | exactly the other side's messages of that chat become read |
| `RibbonStore.ChatRepository.EnsureParticipant` | go-core/internal/repository/chat_repository.go:156-170 | succeeds exactly for the two participants of an existing chat |
| `RibbonStore.ChatRepository.ListMessages` | go-core/internal/repository/chat_repository.go:65-104 | the chat's messages after an id, in order, cut at the limit, for participants only |
| `RibbonRuns.ReachableInv` | go-core/internal/repository/ribbon.go:223-327 | in every state reached by serial transactions: a chat joins a pair exactly when both swipes exist, it is their only chat, no ban either way stands over an active chat, and message senders take part in their chat |
| `RibbonRuns.RunExtends` | go-core/internal/repository/ribbon.go:236-281 | over any continuation swipes, chats, messages and read flags are never lost, a deactivated chat never becomes active, and nothing is added to an inactive chat |
| `RibbonRuns.RepeatedLikeSameChat` | go-core/internal/repository/ribbon.go:236-280 | a like is answered with a chat exactly when the other side liked before, and every later like between the two names the same chat |
| `RibbonRuns.BlockIsFinal` | go-core/internal/repository/ribbon.go:313-327 | after a block no operations whatever, unblock and like again included, revive the pair's chat or add a message to it |
| `RibbonRuns.MatchedChatIsActive` | go-core/internal/repository/ribbon.go:260-276 | the chat a match is answered with is active exactly when it is new or had not been deactivated |
| `RibbonRuns.RematchNamesInactiveChat` | go-core/internal/repository/ribbon.go:260-276 | a concrete run: match, block, unblock, like again; the answer is a match whose chat is inactive |
| `RibbonHistory.ExclusionHistory` | go-core/internal/repository/ribbon.go:285-349 | over any run a ban stands exactly when the last block came after the last unblock; a plain dislike stands exactly when made while no ban stood and not replaced by a block since, so unblocks never remove it |
| `RibbonHistory.FeedHistoryOmits` | go-core/internal/repository/ribbon.go:139-144 | no feed page all of whose statements fall into a time in which the history leaves an exclusion standing, either way, shows the other user |
| `RibbonHistory.IncomingLikesOmit` | go-core/internal/repository/ribbon.go:204-209 | while the history of either direction leaves an exclusion standing, neither user is on any page of the other's incoming likes |
| `RibbonHistory.LikedUserLeavesFeed` | go-core/internal/repository/ribbon.go:145-150 | once a like is recorded the liked user is on no later feed page of the liker, whatever happens in between |
| `RibbonHistory.SwipeHistory` | go-core/internal/repository/ribbon.go:236-242 | in every reachable state a has swiped b exactly when some Like(a, b) of the log was answered as liked |
| `RibbonHistory.IncomingLikesAreLikers` | go-core/internal/repository/ribbon.go:198-209 | every row of a's incoming likes is the active profile of a user whose like of a is in the log as answered, with no exclusion standing between them |
| `RibbonHistory.LikersAreIncoming` | go-core/internal/repository/ribbon.go:198-209 | and each such user's profile is in the list behind the pages exactly once |
| `RibbonHistory.ReadHistory` | go-core/internal/repository/chat_repository.go:138-170 | a message is read exactly when the other participant marked the chat read after it was sent; the sender's own calls never set the flag |
| `ReadCommitted.ReachableSafe` | go-core/internal/repository/ribbon.go:236-280 | statement by statement with any number of transactions: at most one committed chat per unordered pair, every committed chat has both swipes committed, and the id a matching like read back is that chat |
| `ReadCommitted.ReachableGrows` | go-core/internal/repository/ribbon.go:236-327 | over any interleaving committed swipes and chats are never lost and a deactivated chat stays inactive |
| `ReadCommitted.StatementsWait` | go-core/internal/repository/ribbon.go:236-327 | exactly when a statement waits: a swipe or a ban for another open transaction's row of the same users in the same order, a chat for one of the same pair, an update for active rows another has updated |
| `ReadCommittedHistory.ChatIffCheckSawPartner` | go-core/internal/repository/ribbon.go:236-280 | under every interleaving: a swipe is committed exactly when a like of it was, and a chat exactly when some committed like of the pair ran its mutual check with the reverse swipe committed |
| `ReadCommittedHistory.MatchMissedIffNeitherSaw` | go-core/internal/repository/ribbon.go:244-258 | two committed likes lack a chat exactly when every committed like of the pair ran its mutual check while the reverse swipe was not committed |
| `ReadCommittedHistory.InactiveIffBlockReached` | go-core/internal/repository/ribbon.go:321-327 | a committed chat is inactive exactly when a committed block of its pair ran its update after the chat was committed |
| `ReadCommittedRaces.SimultaneousLikesMissTheMatch` | go-core/internal/repository/ribbon.go:244-258 | a concrete interleaving in which both likes commit and no chat exists |
| `ReadCommittedRaces.LikeAroundBlockLeavesActiveChat` | go-core/internal/repository/ribbon.go:233-327 | a concrete interleaving that leaves a blocked pair with an active chat |
| `ReadCommittedSerializable.PairLockedIsSerial` | go-core/internal/repository/ribbon.go:223-349 | serializability: if no like or block begins on a pair that has one open, then, other pairs, dislikes and unblocks interleaving freely, the committed rows are those of a serial run of the committed transactions, each as often as committed, up to chat ids |
| `ReadCommittedSerializable.PairLockRestoresLaws` | go-core/internal/repository/ribbon.go:223-334 | so both laws of the serial runs hold again: a pair shares a chat exactly when both likes are committed, and no ban stands over an active chat |
| `PairView.RunShows` | go-core/internal/repository/ribbon.go:223-349 | chats named by their pair instead of their id, a serial run of likes, dislikes, blocks and unblocks does what the operations on pairs say |
| `PairView.LikeCommutesWithAll` | go-core/internal/repository/ribbon.go:233-266 | a like that has passed its exclusion check can be moved past everything but likes and blocks of its own pair |
| `ReadCommittedSerial.SerialLikeRefines` | go-core/internal/repository/ribbon.go:223-281 | the seven statements of a like run without interruption have the rows and the answer of the serial transaction |
| `ReadCommittedSerial.SerialBlockRefines` | go-core/internal/repository/ribbon.go:303-334 | the three statements of a block run without interruption leave the rows of the serial transaction |
| `ReadCommittedSerial.SerialExclusionsRefine` | go-core/internal/repository/ribbon.go:285-349 | so do a dislike and an unblock, single statements each |
| `Publisher.Conservation` | go-core/internal/events/publisher.go:41-90 | in every reachable state, any number of workers: published = dropped + queued + in flight + sent + failed as multisets, the queue fits its buffer, and the taken events are a prefix of the accepted ones, the rest being the queue |
| `Publisher.SentExactlyWhenEndedWell` | go-core/internal/events/publisher.go:64-79 | over every run, told from the log: an event was sent exactly as often as a worker carrying it ended its attempt well, and failed exactly as often as one ended badly |
| `Publisher.DroppedExactlyWhenFull` | go-core/internal/events/publisher.go:84-90 | over every run, an event was dropped exactly as often as it was published on an open queue without room |
| `Publisher.CloseDrains` | go-core/internal/events/publisher.go:48-96 | when Close has returned nothing is in flight, cancelled or not, and every accepted event was attempted exactly once exactly when the queue is empty; without cancellation, exactly when there is a worker or nothing was accepted |
| `Publisher.CloseGuarantee` | go-core/internal/events/publisher.go:48-96 | exactly when calling Close guarantees that every accepted event is attempted, if no cancellation comes later: the queue is empty, or there is a worker and no cancellation has come |
| `Publisher.CloseGuaranteeUnderCancellation` | go-core/internal/events/publisher.go:48-96 | when a cancellation may still come, exactly when the queue is empty |
| `Publisher.CancelledCloseMayAbandon` | go-core/internal/events/publisher.go:51-61 | from every state after a cancellation Close can return with all waiting events still queued |
| `Publisher.SettledStays` | go-core/internal/events/publisher.go:92-96 | once the queue is closed and the workers are gone no step takes, sends or fails anything |
| `Publisher.CancellationAbandonsEvent` | go-core/internal/events/publisher.go:48-96 | a concrete run: an accepted event, a cancellation, Close; the event is never attempted |
| `Publisher.ClosedStepsDrain` | go-core/internal/events/publisher.go:48-96 | after close every worker step that does anything shortens what is left, and nothing adds to it |
| `Publisher.CloseNeverStuck` | go-core/internal/events/publisher.go:92-96 | while Close waits some worker can take a step |
| `Publisher.EventPublisher.Publish` | go-core/internal/events/publisher.go:84-90 | never waits: the event joins the queue if the buffer has room, is dropped if not, and the call panics on a closed queue, changing nothing |
| `Publisher.EventPublisher.Select` | go-core/internal/events/publisher.go:51-61 | the select of a worker: leave, take the oldest event, or wait |
| `Publisher.EventPublisher.Send` | go-core/internal/events/publisher.go:64-79 | one attempt: a successful one appends the carried event to the stream and logs no failure, a failed one logs it and leaves the stream alone; the worker is free again |
| `Publisher.EventPublisher.Close` | go-core/internal/events/publisher.go:92-96 | panics on a closed queue; otherwise returns with every worker gone, by worker steps alone, whatever they choose after a cancellation, and with everything attempted under the condition above |
| `Publisher.EventPublisher.Wait` | go-core/internal/events/publisher.go:95 | terminates when the last worker has left |
| `Consumer.GroupSafety` | python-analytics/app/services/redis_consumer.py:14-59 | over any failures and restarts: acknowledged entries are stored, stored ones delivered, delivered ones a prefix of the stream; rows stand in stream order, at most one per entry; pending is delivered minus acknowledged |
| `Consumer.PendingBetweenBatches` | python-analytics/app/services/redis_consumer.py:35-59 | between batches the pending list is exactly the inserts reported failed plus the entries a crash, a failed acknowledgement or a broken read left behind |
| `Consumer.PendingIsFailedInserts` | python-analytics/app/services/redis_consumer.py:52-59 | in a run without crashes it is exactly the failed inserts |
| `Consumer.StoredExactlyWhenInserted` | python-analytics/app/services/redis_consumer.py:52-59 | over every run, crashes and restarts included, an entry has a row exactly when some step inserted it with effect, and is acknowledged exactly when some acknowledgement of it got through |
| `Consumer.FailedExactlyWhenReported` | python-analytics/app/services/redis_consumer.py:53-58 | over every run, the failed inserts are exactly the entries some step reported as failed |
| `Consumer.TaskLivesUntilEnded` | python-analytics/app/services/redis_consumer.py:35-61 | in every reachable state: a step ends the task exactly when it is a stop between batches, a crash, a raised acknowledgement or a read error that is no connection error; a lost connection or a failed insert does not |
| `Consumer.NoSecondChance` | python-analytics/app/services/redis_consumer.py:37-43 | an entry that was delivered and is no longer in hand is never stored or acknowledged afterwards, restarts included |
| `Consumer.RejectedInsertIsLost` | python-analytics/app/services/redis_consumer.py:54-58 | so an entry whose insert failed is lost for good and pending forever |
| `Consumer.ConsumerStoresExactly` | python-analytics/app/services/redis_consumer.py:27-61 | without crashes a call stores exactly the entries it was handed whose insert stores a row, once and in order, acknowledges exactly those reported stored, and gets through 100 entries a poll while there are any |
| `Consumer.ConsumerIsRun` | python-analytics/app/services/redis_consumer.py:27-61 | a whole call is a run of the protocol, so the results on runs hold of it |
| `Consumer.RedisConsumer.EnsureGroup` | python-analytics/app/services/redis_consumer.py:14-24 | creates the group or keeps an existing one at its position; what was delivered, pending, acknowledged and stored is unchanged |
| `Consumer.RedisConsumer.ReadGroup` | python-analytics/app/services/redis_consumer.py:36-47 | hands out the next entries never delivered before, at most 100, and makes them pending; a lost connection leaves the task ready, any other error ends it, and entries already handed out stay pending |
| `Consumer.RedisConsumer.InsertEvent` | python-analytics/app/services/redis_consumer.py:53-58 | a row is added unless the insert is rejected; only a reported success leaves the acknowledgement due, and else the entry is passed over unacknowledged |
| `Consumer.RedisConsumer.Acknowledge` | python-analytics/app/services/redis_consumer.py:52-59 | the entry is acknowledged and no longer pending when the call got through, and a raised error ends the task either way |
| `Consumer.RedisConsumer.HandleBatch` | python-analytics/app/services/redis_consumer.py:52-59 | each entry is inserted and, only if that is reported to have worked, acknowledged; a failed acknowledgement ends the task |
| `Consumer.RedisConsumer.Poll` | python-analytics/app/services/redis_consumer.py:35-59 | one turn of the loop: a lost connection or an empty answer goes round again, any other exception ends the task |
| `Consumer.RedisConsumer.RunConsumer` | python-analytics/app/services/redis_consumer.py:27-61 | the loops in place do what the specification function says, for any outcomes of reads, inserts and acknowledgements |
| `RibbonService.Service.Like` | go-core/internal/service/ribbon.go:245-258 | an invalid target exactly for a non-positive id or oneself; else the transaction, then a swipe event and, for a match, a match event with the chat id; matched exactly when the target had swiped back; nothing is published for a refused call, and a closed queue panics after the transaction is committed |
| `RibbonService.Service.Dislike` | go-core/internal/service/ribbon.go:261-270 | validation, the transaction, then a swipe event with liked false |
| `RibbonService.Service.Block` | go-core/internal/service/ribbon.go:273-282 | validation, the transaction, then a block event |
| `RibbonService.Service.Unblock` | go-core/internal/service/ribbon.go:285-290 | validation and the transaction; no event |
| `RibbonService.Service.Publish` | go-core/internal/service/ribbon.go:397-408 | adds the two users and the time to the payload and hands the event over; without a publisher nothing happens |
| `RibbonService.EventsAreTold` | go-core/internal/service/ribbon.go:245-290 | kind and every payload field of the events of each operation and answer, in order: who, whom, when, liked true or false, the chat of a match |
| `RibbonService.NothingElseIsTold` | go-core/internal/service/ribbon.go:245-290 | a refused operation and one of another kind publish nothing |
| `RibbonService.ValidTargets` | go-core/internal/service/ribbon.go:245-290 | validation lets a target through exactly when its id is positive and not the user's own |
| `Pipeline.EveryRowIsOneEvent` | go-core/internal/service/ribbon.go:397-408 | end to end, with restarts of either process at any moment: every stored row comes from exactly one Publish call, for one event of a service call whose reply is that of the serial run, and no event of a call is stored twice |
| `Pipeline.CallsPublishInOrder` | go-core/internal/service/ribbon.go:245-290 | end to end: of a call that has made n Publish calls each of the first n events has been published exactly once, and no other; none is skipped |
| `Delivery.RowShowsEvent` | python-analytics/app/services/clickhouse_client.py:9-18 | the row of an event has its kind, its acting user and all its fields |
| `Delivery.EndedCallsAreSilent` | go-core/internal/events/publisher.go:84-90 | a restart ends every call being served, and an ended call publishes nothing more |
| `Pipeline.StoredMatchesAreMutual` | go-core/internal/service/ribbon.go:245-258 | end to end: every stored match row names, by its own fields, a chat between its two users with likes both ways |
| `PipelineRaces.StoredMatchesAreMutual` | go-core/internal/service/ribbon.go:245-258 | the same over interleaved transactions: whatever interleaves, every stored row is one event of one completed call, and every stored match row names a committed chat between its users with likes both ways |
| `PipelineRaces.CompletedIsCommitted` | go-core/internal/service/ribbon.go:245-290 | a statement completes a call exactly when it commits a like, a dislike or a block, with the answer its transaction has read |
| `Pipeline.EveryEventIsAccountedFor` | go-core/internal/events/publisher.go:64-90 | every published event is dropped, queued, in flight or failed to send at the publisher that took it, perhaps one that has ended, or in the stream, where it is stored, still due, or lost by a failed insert or a dead reader |
| `Migrations.MigrateMeaning` | go-core/internal/platform/postgres/migrator.go:48-67 | a successful run records every shipped file (its name ends in .sql), executes exactly the missing ones, each once, in the order of their characters, and an immediate second run changes nothing |
| `MigrationInstances.InstancesAreSerial` | go-core/internal/platform/postgres/migrator.go:28-73 | however instances with different files start, fail and interleave, the database is what the committed runs make of it one after the other, and each file's effect is committed at most once |
| `MigrationInstances.OnlyCommitsChange` | go-core/internal/platform/postgres/migrator.go:34-71 | a step changes the database only by committing a whole run, also when the commit's reply is lost; every other step, failures included, leaves it alone |
| `MigrationInstances.RecordedStays` | go-core/internal/platform/postgres/migrator.go:48-67 | what is recorded stays recorded and the executed sequence only grows |
| `MigrationInstances.ShipsWhatItStartedWith` | go-core/internal/platform/postgres/migrator.go:16-28 | in every run an instance at work runs the files of its last start |
| `MigrationInstances.SuccessMeansRecorded` | go-core/internal/platform/postgres/migrator.go:48-73 | in every reachable state a call that reported success has every file it ships recorded, whatever has run since |
| `MigrationInstances.FailureRollsBack` | go-core/internal/platform/postgres/migrator.go:34-46 | a failing instance reports it, gives the lock back and leaves the database as it was |
| `MigrationInstances.LockIsReleased` | go-core/internal/platform/postgres/migrator.go:34-46 | in every reachable state the lock is held by an instance at work, so it is free whenever none is |
| `MigrationInstances.SomeoneMovesOn` | go-core/internal/platform/postgres/migrator.go:34-71 | no deadlock: while an instance has begun and not ended, some step without a failure changes the state |
| `Migrations.SortNamesMeaning` | go-core/internal/platform/postgres/migrator.go:28 | sorting keeps the names and puts each before the next by its characters: a prefix, or the smaller one at the first difference |
| `Migrations.PrecedesMeaning` | go-core/internal/platform/postgres/migrator.go:28 | one name comes before another exactly when it is a proper prefix of it, or has the smaller character where they first differ |
| `Migrations.FirstFileErrorMeaning` | go-core/internal/platform/postgres/migrator.go:48-67 | the error of a run over the files is that of the first file that fails, reading what is recorded included |
| `Migrations.MigratedDatabase.CollectNames` | go-core/internal/platform/postgres/migrator.go:17-28 | the shipped names: files longer than four characters that end in .sql, sorted |
| `Migrations.MigratedDatabase.ExecuteFiles` | go-core/internal/platform/postgres/migrator.go:48-67 | the loop executes the files not recorded, each once, and stops at the first error |
| `Migrations.MigratedDatabase.ApplyMigrations` | go-core/internal/platform/postgres/migrator.go:16-73 | which error is returned, and that an error leaves the database unchanged unless the commit took effect and its reply was lost |
| `PhotoStore.MainIsPositionZero` | go-core/internal/repository/photo_repository.go:51-96 | over every run of creates and deletes a photo is main exactly when its position is 0, and a user's positions differ and grow with the order of creation |
| `PhotoStore.ListingIsCreationOrder` | go-core/internal/repository/photo_repository.go:24-31 | ordering by position has one answer, the order of creation |
| `PhotoStore.AllocationNeverCollides` | go-core/internal/repository/photo_repository.go:58-91 | allocation never breaks the unique position or main-photo index: an insert fails only for an unknown user, a used key, or when the positions of int16 are used up |
| `PhotoStore.NoMainIffDeleted` | go-core/internal/repository/photo_repository.go:66-78 | over every run, a user has photos but no main one exactly when the main photo was deleted while others remained and the user has had photos ever since |
| `PhotoStore.ApplyWithMain` | go-core/internal/repository/photo_repository.go:124-133 | a step takes the main photo away exactly when it deletes that photo |
| `PhotoStore.DeletingMainLeavesNone` | go-core/internal/repository/photo_repository.go:66-78 | a concrete run: two uploads, the first one deleted; a photo is left and none is main |
| `PhotoStore.DeleteFinds` | go-core/internal/repository/photo_repository.go:124-133 | a deletion answers not found exactly when the user has no such photo |
| `PhotoStore.PhotoRepository.Create` | go-core/internal/repository/photo_repository.go:51-96 | the new row is last, with position 0 or one more than the user's largest, and main exactly when the user had no photo; out of range exactly when a position of 32767 is taken; a failure adds no row |
| `PhotoStore.PhotoRepository.GetByID` | go-core/internal/repository/photo_repository.go:98-122 | finds the user's photo, or answers not found exactly when there is none |
| `PhotoStore.PhotoRepository.Delete` | go-core/internal/repository/photo_repository.go:124-133 | removes exactly the user's photo of that id, and answers not found exactly when there is none |
| `PhotoStore.PhotoRepository.ListByUserID` | go-core/internal/repository/photo_repository.go:24-48 | whatever order the query may choose among ties, the list is the creation order |
| `PhotoSaga.SagaAccounting` | go-core/internal/service/photo.go:49-91 | with fresh keys and any faults, lost replies included: an object is there exactly when it is that of a row no call has stranded, or an upload has orphaned it (stored but reported failed, or its row refused and its cleanup failed); a row is stranded by an upload whose save was stored but reported failed and then cleaned up, or by a deletion that got no further than the object |
| `PhotoSaga.RetriedDeleteRemoves` | go-core/internal/service/photo.go:79-91 | a fault-free retry of a deletion removes row and object, also when an earlier attempt had removed the object only |
| `PhotoSaga.FaultFreeStoresAgree` | go-core/internal/service/photo.go:49-91 | without faults objects and row keys agree, after refused saves too |
| `PhotoSaga.OrphansStay` | go-core/internal/service/photo.go:70-75 | no later call removes an orphaned object |
| `PhotoSaga.PhotoService.Upload` | go-core/internal/service/photo.go:49-77 | for every combination of faults the reply, the rows and whether the object is there: put and kept with the row, put unheard, or cleaned up after a failed save unless the cleanup is lost |
| `PhotoSaga.PhotoService.Delete` | go-core/internal/service/photo.go:79-91 | for every combination of faults the reply, the rows and whether the object is there: object first, then row, and nothing for a bad id, a failed read or a photo that is not the user's |
| `Calendar.AnniversaryMatchesAge` | go-core/internal/service/profile.go:68-74 | for all dates and every n: birthday plus n normalised years is not after today exactly when the SQL age is at least n, 29 February included |
| `Calendar.AnniversaryIsNormalised` | go-core/internal/service/profile.go:72 | adding years keeps the day, except that 29 February runs over to 1 March of a common year |
| `Calendar.AgeCountsBirthdays` | go-core/internal/repository/ribbon.go:137 | the SQL age is at least n exactly when the n-th birthday has come by year, month and day |
| `Calendar.FutureBirthdays` | go-core/internal/repository/ribbon.go:137 | for a birthday still to come the SQL age is not positive: the years still to run, negated |
| `Calendar.AcceptedProfileIsAdult` | go-core/internal/service/profile.go:68-74 | a birthday is accepted exactly when the 18th has come by year, month and day, which is when the SQL age is at least 18, and then it is so on every later date; none or a future one is invalid |
| `Calendar.AgeNeverDecreases` | go-core/internal/repository/ribbon.go:137 | an SQL age once reached is never lost |
| `Calendar.DayOrder` | go-core/internal/service/profile.go:69-72 | comparing dates field by field is comparing their day numbers |
| `Calendar.MonthLengths` | go-core/internal/service/profile.go:68-72 | which dates there are: the days of every month, and 29 February in every fourth year but three centuries in four |

## Left out

- Trigonometry and bounds (go-core/internal/geo): the distance is an uninterpreted function and the bounding rectangle a parameter; nothing is claimed about the rectangle containing the circle.
- SQL text: the candidate query is a syntax tree with numbered placeholders, not characters; the query never compares values of different kinds (in the model such an equality is false and such an order comparison unknown).
- Query planning and row order beyond ORDER BY: a query answers on one snapshot, in the order it asks for.
- Database errors other than the modelled refusals: a failing query or transaction returns an error and changes nothing.
- HTTP handlers, routing, authentication, configuration, logging and the clients of Redis, MinIO and Postgres.
- go-redis retries and ambiguous timeouts: a send is one attempt with one outcome.
- EventPublisher: a channel without buffer, where a send meets a waiting worker, is in the state machine (HandOff) but not in the object; the server's buffer holds 256.
- The report endpoint: it inserts a row and publishes one event, like a block without the chat.
- Preferences, account edits and registration are one operation that may change profiles freely and adds users; deletion of users and its cascades, which no route reaches, is not modelled.
- The seed loader, which inserts swipes past the match check.
- Field validation: names, genders, coordinates, age ranges, message length, photo type and size (a flag of the upload).
- Message deletion: no route sets deleted_at; message ids are the positions of insertion, without gaps.
- Timestamps other than order and dates, time zones, and floating-point detail; now is a UTC date, and rounding of a distance is over the reals.
- ReadCommitted: the profile check of an interleaved like and the user check of a block are not statements of their own (a refusal is a Rollback); statements that would wait for another transaction's row are not enabled until it ends.
- Photo positions under READ COMMITTED: two simultaneous uploads may compute the same position, and the unique index then refuses one; the results are for serial transactions.
- Object keys: the saga takes the whole key as drawn fresh; the composition of the key text from user, random part and extension is not modelled.
- RunConsumer: the wait of a blocking read and the pause after a lost connection have no duration, and closing the clients at the end is not modelled.
- FieldsOf: values stay typed; their rendering as text in the stream and as JSON in the payload column is not modelled.
- ExecuteFiles: the effect of a file's SQL is its place in the sequence of executed files; files are taken not to end the transaction themselves.
