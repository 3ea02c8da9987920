# Embodiment: a verified model

A model of the parts of the repository that carry state, ordering and arithmetic, with proofs of
what they promise. Sockets, stores, models, clocks and threads are replaced by inputs, by oracle
functions that may answer anything, or by interleaved steps; everything proved holds for all of
them.

| file | models |
|---|---|
| `EventQueue.dfy`, `QueueLaws.dfy` | a bus subscription: the drop policy, gaps and counters, over any run |
| `Bus.dfy`, `BusProtocol.dfy`, `Degradations.dfy` | publish, the broker worker and `close` as objects and as an interleaving; the degradation ledger |
| `Context.dfy`, `History.dfy` | windowing a message list and its estimated cut; what makes a history fit to send |
| `Loop.dfy`, `Spawn.dfy` | a whole drive: turns, retries, delegation, synthesis; the tree of child drives |
| `Ingest.dfy`, `IngestRetry.dfy` | the ingest batch: collisions, superseding, the report; retrying it |
| `AbandonedLedger.dfy`, `Inflight.dfy`, `Backfill.dfy` | in-flight slots, deferred jobs and the close report; the backfill's wake-ups |
| `Fence.dfy` | the sanitiser and the rendering of recalled memory |
| `RateWindow.dfy`, `AskBook.dfy` | the two rate limiters; the ask book |
| `Wire.dfy`, `IrcLines.dfy`, `Sasl.dfy`, `Outbox.dfy` | framing, parsing, SASL chunking; counting outbound lines |
| `Common.dfy`, `Text.dfy` | options, subsequences, filters; joining and splitting text |

`dafny verify dfyconfig.toml` checks the project.

## How to read the proofs

A class models an object of the source and its methods are proved against functions of its old
contents; the laws are lemmas about those functions, stated on inputs and results, so that the
functions themselves cannot drift. A protocol is a state, the steps of its
threads (one per critical section, event or await), and `Reaches`; an invariant is proved for one
step, then for every run. Where a step depends on something outside (a broker, a store, a model, a
future), the step carries the outcome and every outcome is covered.

## Where the code and its documentation differ

The model follows the code. The members named carry the proofs.

- "A closed bus builds no client" (embodiment/bus.py:185): a thread past its last read of the closed
  flag still builds one after `close` returned, if the broker is enabled or a retry under way is about
  to enable it, and only then. `BusProtocol.StillBuildsIff`, `BusProtocol.BuildsAfterClose`.
- "OpenAI validity is maintained" by windowing (embodiment/context.py:264-265): true of a paired
  history, `History.WindowKeepsGood`; a media part after any call but the last of a turn breaks the
  pairing first (embodiment/loop.py:1521-1532). `History.TurnPairedIff`, `History.MidTurnMediaOrphans`.
- The cut estimate is tight for the character counter only. `Context.EstimatedCutIsOptimal`,
  `Context.ForeignCounterOvershoots`.
- "The total number of `complete` calls a drive makes never exceeds `max_steps`"
  (embodiment/loop.py:675-676) counts turns; retries are further raw calls, bounded in `Loop.Work.Run`.
- "Every write is an idempotent upsert, so a caller retries the whole batch"
  (embodiment/memory.py:2262-2264). A batch that supersedes one of its own records or repeats an id
  may end elsewhere when run to the end twice (`IngestRetry.ChainDiverges`,
  `IngestRetry.RepeatedIdDiverges`). Any other batch that gives no stored id a new text may be
  retried after every halt, however late deferred jobs land (`IngestRetry.HaltedRetry`,
  `IngestRetry.LateHaltsConverge`), and after records that failed in mid-batch exactly when its texts
  are distinct (`IngestRetry.ConvergesIff`, `IngestRetry.SharedTextDiverges`,
  `IngestRetry.LateRepairs`). On every store, so also when it rewrites a stored id: after halts
  exactly when it has a single text (`IngestRetry.HaltsConvergeIff`, `IngestRetry.RewriteDiverges`),
  after arbitrary faults exactly when it has at most one record (`IngestRetry.AlwaysConvergesIff`).
- "Every write still in flight at the deadline is named" by `close` (embodiment/memory.py:3431-3433):
  exactly the registered ones are. `Inflight.CloseNamesIff`, `Inflight.CloseMissesUnregistered`.
- A deferred ingest job that succeeded is recorded as not stored, and one that landed in time is
  listed by `close` as failed, because its answer is a tuple with no `ok`; and any job that raises or
  answers not ok after its text was stored is so too (embodiment/memory.py:911-924, 2016-2030,
  2304-2346). `Inflight.LedgerTrueIff`, `Inflight.CloseAccounts`, `Inflight.LogMisleads`,
  `Inflight.CloseMisleads`.
- `stop_backfill` answers "stopped" while a loop runs if a start overlapped the end of the previous
  one. `Backfill.DoneIsTrue`, `Backfill.DoneMisleads`, `Backfill.DoneMisleadsRun`.
- A record body is exactly one line, whatever the comment on ordinary line breaks says
  (embodiment/memory.py:3655-3656). `Fence.QuotedIsOneLine`.
- Kept asks stay within 200 plus the open ones only right after a post; the bound that always holds
  is 207. `AskBook.ReachableBounds`, `AskBook.HeldBeyondOpen`.
- A continuation line goes to the ask's last entry, which is the sender's own answer
  (embodiment/mesh_asks.py:340-341) exactly when that answer was stored and none was stored since.
  `AskBook.ContinuesOwnIff`; it fails when a second sender answered meanwhile
  (`AskBook.ContinuesAnothers`) and when the ask was full (`AskBook.ContinuesPastFull`).
- Outbound lines queued when a session's opening lines fail to drain, or accepted after that, are
  counted nowhere. `Outbox.NothingLostIff`, `Outbox.FailedOpeningLoses`, `Outbox.OpenDoorLoses`.

## Model

| member | source | states |
|---|---|---|
| EventQueue.DropPolicy | embodiment/bus.py:731-769 | The policy edits the shared queue in place and says what it did: nothing while there is room; it refuses a drop-first arrival at a full queue; else it removes the oldest drop-first event, or the oldest of all when every one is protected, and the returned kind and flag name exactly that event. |
| EventQueue.OldestDroppable | embodiment/bus.py:731-769 | The index found is drop-first and no earlier one is; the length when none is. |
| EventQueue.Subscription.Offer | embodiment/bus.py:846-862 | A closed or uninterested subscription is untouched; otherwise queue, drop counters and per-kind tallies move as one arrival, and the kind of a sacrificed protected event comes back. |
| EventQueue.Subscription.Get | embodiment/bus.py:864-885 | The oldest event leaves, stamped with every drop since the last delivery, and the pending count returns to zero; nothing queued gives none. |
| EventQueue.Subscription.Drain | embodiment/bus.py:887-895 | Everything queued comes out in order, the first stamped with the pending drops, exactly as repeated deliveries would. |
| EventQueue.Subscription.Close | embodiment/bus.py:897-901 | Only the closed flag changes. |
| QueueLaws.RunConserves | embodiment/bus.py:838-895 | Over any run of offers, gets, drains and closes: accepted events equal delivered plus queued plus lost as multisets, gaps delivered plus pending drops equal lifetime drops, per-kind tallies are exact, protected drops are those of the non-drop-first kinds, and the queue never exceeds its size. |
| QueueLaws.TalliesAddUp | embodiment/bus.py:838-895 | Over any run the values of the per-kind map add up to the lifetime drops, and those of the kinds that are not drop-first to the protected drops. |
| QueueLaws.RefinesRing | embodiment/bus.py:731-769 | Forgetting drop-first events, a subscription is a drop-oldest ring of the same capacity over every run: same contents, same deliveries, same overwrites. |
| QueueLaws.ProtectedLossIff | embodiment/bus.py:731-769 | An arrival costs a protected event exactly when it is protected itself and the queue is full of protected events; the cost is then the oldest of them. |
| QueueLaws.ArrivalCosts | embodiment/bus.py:731-769 | An arrival in full: at a full queue a drop-first event costs itself; a protected one costs the first drop-first event, wherever it stands, and only when there is none the oldest; the others keep their order and the arrival goes last. |
| QueueLaws.OfferLands | embodiment/bus.py:846-862 | An offer reaches the queue of exactly the open subscriptions that asked for the kind. |
| QueueLaws.DeliveryReportsDrops | embodiment/bus.py:864-885 | After any run the next delivery is the oldest event queued, and the gaps delivered then add up to all drops so far. |
| QueueLaws.DrainHandsOutAll | embodiment/bus.py:887-895 | A drain hands out the whole queue in order, the pending drops on its first event. |
| Bus.Bus.OfferToSubscribersLocked | embodiment/bus.py:1105-1117 | Every live subscription takes the same offer, and the kinds sacrificed come back one per drop in subscription order. |
| Bus.SacrificedKindsAre | embodiment/bus.py:1105-1117 | The kinds name, in order, exactly the open subscriptions that asked for the event and whose queue was full of protected events, each with the kind of its oldest. |
| Bus.Bus.CommitLocked | embodiment/bus.py:1044-1067 | One section: a number is always spent; a refused candidate reaches no subscriber; an accepted one reaches all with that number. |
| Bus.Bus.Publish | embodiment/bus.py:1017-1080 | A closed bus or bad data costs no number and touches no queue; otherwise subscribers and the broker queue each move by one arrival, and the drop counter by its cost. |
| Bus.Bus.EnqueueBroker | embodiment/bus.py:1263-1281 | Local-only kinds and a disabled broker are skipped; otherwise the broker queue takes one arrival, the counter its cost, and no worker starts after stop. |
| Bus.Bus.EnsureBrokerThread | embodiment/bus.py:1283-1292 | After it a worker is alive unless none was and stop is set. |
| Bus.Bus.TakeForBroker | embodiment/bus.py:1294-1321 | Stop wins over a backlog and leaves the queue alone; otherwise the oldest event is taken. |
| Bus.Bus.BeginClose | embodiment/bus.py:1193-1204 | All subscriptions are detached and closed with their queues intact, closed and stop are set, and nothing else moves. |
| Bus.SubscribeStep | embodiment/bus.py:1119-1145 | The protocol's subscribe step adds the fresh subscription the object's method adds, last and live. |
| Bus.CommitStep | embodiment/bus.py:1044-1067 | The protocol's commit section moves number and live subscriptions as the object's section does. |
| Bus.EnqueueRun | embodiment/bus.py:1263-1281 | From any state with the event committed, the protocol's check, admit and thread steps run one after the other and leave queue, drop counter and worker as the object's method does. |
| Bus.PublishRun | embodiment/bus.py:1017-1080 | The closed read, commit and enqueue steps run one after the other from every open state and leave what the object's `publish` leaves. |
| Bus.TakeStep | embodiment/bus.py:1294-1321 | An idle worker leaves exactly when stopped, else takes the oldest event if there is one, as the object's section does. |
| Bus.CloseRun | embodiment/bus.py:1193-1204 | From every state the protocol's mark, detach, shut and stop steps run and leave what the object's `BeginClose` leaves, each subscription that was live closed and no other changed. |
| Degradations.LedgerIsExact | embodiment/bus.py:1232-1259 | After any calls: each code's count is its occurrences, at most 64 records of different codes are kept and each was announced once, and the dropped calls are exactly those of unrecorded codes, which exist only once the ledger is full. |
| Degradations.LedgerKeepsFirsts | embodiment/bus.py:1232-1259 | The records are the first calls of the first 64 codes, in order, and exactly those of them whose hook raised count as hook errors. |
| Degradations.DegradationLedger.Degrade | embodiment/bus.py:1232-1259 | One call moves the ledger's fields as the specified step. |
| BusProtocol.StepInv | embodiment/bus.py:1017-1327 | Every step of every thread keeps: numbers split between published and refused; each subscription's accepted events are the wanted slice of the publications; every published event is in exactly one place on its way to the broker; and each close call's facts. |
| BusProtocol.DeliveryOrder | embodiment/bus.py:1044-1117 | For every interleaving, what a subscription delivered then queues is a strictly increasing subsequence of the published events, refused numbers appear nowhere, and exactly the events it asked for while registered are accounted for. |
| BusProtocol.LeftHearsNothing | embodiment/bus.py:1147-1154 | A subscription that left takes in no event published afterwards, in any continuation. |
| BusProtocol.CloseStopsBroker | embodiment/bus.py:1183-1327 | From the `_broker_cv` section of close on, for every continuation: nothing is popped, no worker starts, and at most the event already in flight reaches the client. |
| BusProtocol.ReportIsTrue | embodiment/bus.py:1208-1230 | No event a close report counts as unsent ever reaches the client, and if it reports the worker stopped the client sees nothing more. |
| BusProtocol.LocalNeverLeaves | embodiment/bus.py:1263-1281 | In no run does an event of a local-only kind enter the broker queue, let alone reach the client. |
| BusProtocol.SkippedStays | embodiment/bus.py:1263-1281 | Nor does an event whose publisher finds the broker disabled, whatever happens later. |
| BusProtocol.SendsIff | embodiment/bus.py:1323-1366 | Left alone, the worker sends the event it took exactly when the bus is open, the broker enabled, and core and client are there or can be had; a failed send disables the broker. |
| BusProtocol.RetryRestores | embodiment/bus.py:1423-1445 | Left alone, a retry tick on an open bus with the broker disabled loads the core and installs a new client, and enables the broker exactly when both succeed. |
| BusProtocol.ConnectionMoves | embodiment/bus.py:1368-1404 | What becomes of the connection in every step: disabled by a failure to load, build or send alone, enabled by a retry alone, core and client dropped by a retry and the client by a close call alone. |
| BusProtocol.ReportNamesQueued | embodiment/bus.py:1208-1230 | Everything queued when a close call counts is in its report. |
| BusProtocol.ClosedBoundsSends | embodiment/bus.py:1323-1366 | Already from the moment closed is set at most the in-flight event is still sent. |
| BusProtocol.StillBuildsIff | embodiment/bus.py:1368-1404 | In every reachable closed state some continuation builds a client if and only if a thread is past its last closed read and the broker is enabled or a retry under way is about to enable it. |
| BusProtocol.NoBuildAfterClose | embodiment/bus.py:1368-1404 | Where that does not hold, no continuation ever builds a client. |
| BusProtocol.BuildAfterCloseRace | embodiment/bus.py:1385-1404 | Where it does hold, a close call returns and a client is built after it. |
| BusProtocol.BuildsAfterClose | embodiment/bus.py:1385-1404 | A run from the initial state (publish, commit, enqueue, pop, connect, close) that builds a client after a close call returned. |
| Context.Tokens | embodiment/context.py:64-84 | A quarter of the characters rounded down, 1 for less than four and 0 only for no text. |
| Context.ContentChars | embodiment/context.py:41-61 | The loop over parts sums exactly the text sizes of a content. |
| Context.SegChars | embodiment/context.py:188-196 | The nested loops sum contents plus the name and arguments of every call. |
| Context.CountTokensChars | embodiment/context.py:64-84 | The loops compute the token estimate of the list's character size. |
| Context.BuildDroppableSegments | embodiment/context.py:128-180 | The scan yields the specified segments of everything after the first two messages. |
| Context.SegmentsPartition | embodiment/context.py:128-180 | Segments put end to end are the droppable messages: nothing lost, nothing reordered, none empty. |
| Context.SegmentsAreUnits | embodiment/context.py:128-180 | Every segment is a single message, or a turn with tool calls and all the replies to it that follow at once, each call answered once: never less and never more. |
| Context.PartsWeigh | embodiment/context.py:41-61 | A text part weighs its characters and a media part nothing, wherever it stands. |
| Context.CallsWeigh | embodiment/context.py:188-196 | A call weighs its name and its arguments, wherever it stands. |
| Context.MessagesWeigh | embodiment/context.py:64-84 | A message weighs its content and its calls, and a list the sum of its messages. |
| Context.ProportionalCut | embodiment/context.py:199-210 | The fewest leading segments, at most the cap, whose sizes reach the excess. |
| Context.DropUntilFit | embodiment/context.py:213-234 | From the start cut, the first candidate that fits, or the last segment alone. |
| Context.WindowMessages | embodiment/context.py:237-293 | A fitting list is returned unchanged; otherwise head, placeholder and the segments from a cut found by verifying from the proportional estimate. |
| Context.WindowedShape | embodiment/context.py:237-293 | A windowed history is its first two messages, the placeholder and a proper tail of the rest. |
| Context.EstimatedCutIsOptimal | embodiment/context.py:199-293 | With the character counter, the cut found from the estimate is the smallest that fits (or the last segment alone when none does): floor division and the placeholder's 48 characters never make the estimate overshoot. |
| Context.WindowByChars | embodiment/context.py:237-293 | The window over the character counter, stated with no mention of the estimate. |
| Context.ForeignCounterOvershoots | embodiment/context.py:199-293 | With a counter of another kind the estimate can skip a cut that fits: a concrete history where it does. |
| History.WindowKeepsGood | embodiment/context.py:237-293 | For any budget and counter windowing keeps a history well-formed: no call without its replies, no orphan reply, one placeholder at most and only at index 2. |
| History.FlattenKeepsGood | embodiment/loop.py:1584-1612 | Flattening media parts keeps a history well-formed, and no flattened follow-up is mistaken for the placeholder. |
| History.FlattenReads | embodiment/loop.py:1584-1612 | A flattened text part reads as its text and an image, audio or video part as its marker, in order. |
| History.FlattenTouches | embodiment/loop.py:1584-1612 | Flattening changes nothing of a message but its content, and that only when it has parts. |
| History.TurnPairedIff | embodiment/loop.py:1474-1566 | A turn with tool calls is well-formed on the wire exactly when its ids are distinct and no call but the last attaches media. |
| History.MidTurnMediaOrphans | embodiment/loop.py:1521-1532 | With media on the first of two calls, dropping the oldest segment leaves a reply no assistant turn announces. |
| History.TurnKeepsGood | embodiment/loop.py:1544-1554 | A whole orderly turn appended to a well-formed history leaves it well-formed. |
| Spawn.DescendantsBounded | embodiment/loop.py:1169-1248 | A drive with allowance a has at most 2^a - 1 descendants in any legally minted tree. |
| Spawn.DepthBounded | embodiment/loop.py:1169-1248 | No chain of descendants is longer than the root's allowance. |
| Spawn.BoundAttained | embodiment/loop.py:1169-1248 | Some legal tree has exactly 2^a - 1 descendants. |
| Spawn.MintsAreLegal | embodiment/loop.py:1190-1248 | A tree whose children come from mints a drive made is legal and within the bound, whichever of the mints came to nothing. |
| Loop.Work.ShrinkForRetry | embodiment/loop.py:1569-1581 | A retry re-windows the list to the shrunk budget, which is strictly smaller above one; at one it only continues when the list got shorter; the history stays well-formed. |
| Loop.Work.FlattenOnMediaRejection | embodiment/loop.py:1584-1612 | Every parts message is flattened in place; true comes back exactly when there was one, and else nothing changed. |
| Loop.Work.Degrade | embodiment/loop.py:1615-1647 | A media rejection flattens first when there are parts and it was not done; else a degradable failure shrinks while retries are left and there is anything left to drop; each retry uses up exactly one of the two. |
| Loop.Work.Ladder | embodiment/loop.py:1650-1682 | The first list sent is the history windowed to the budget (untouched without one), each next one the last one flattened or windowed further; at most 2 + max(0, max_overflow_retries) raw calls; it gives up only when no parts and no retry, or nothing more to drop, are left; and the answer is that of the last list, which is the history then. |
| Loop.Work.ChargeChild | embodiment/loop.py:1091-1108 | A child's report is charged verbatim, clamped at zero, whatever it was granted. |
| Loop.Work.Delegate | embodiment/loop.py:1169-1248 | A mint happens exactly when a request meets an allowance, spare turns and a seam; it costs one allowance whatever the seam then does; the seam is asked for a child with at most one less and at most the turns left, less only when the request says so; and what it answers decides the step, the note and the charge. |
| Loop.Work.RunToolCall | embodiment/loop.py:1474-1541 | A denial, a rewrite, an error, an abort or an outcome, each with its exact step, reply and media follow-up: short of an abort exactly one step and one reply are recorded; a delegation goes as `Delegate` says; and exactly a finishing outcome finishes, its summary replacing the one so far unless empty. |
| Loop.Work.RunToolCalls | embodiment/loop.py:1544-1554 | Every call of the turn runs, is numbered and is answered in order, and the turn finishes exactly when one of them does; the summary is the last non-empty one. |
| Loop.Work.HandleNoToolTurn | embodiment/loop.py:1704-1727 | A literal finish ends the drive with its summary; else the prose and a nudge while any is left; else a stop that changes nothing. |
| Loop.Work.AdvanceTurn | embodiment/loop.py:1730-1737 | A turn without tool calls goes as above; one with calls appends its message and all replies, finishes exactly when a call does and is cut short exactly when a call aborts; the ledgers hold, and the history is well-formed again after every orderly turn. |
| Loop.Work.WorkLoop | embodiment/loop.py:1740-1767 | The loop ends within the reading budget, with one ladder per turn: finished exactly when something finished it, stopped exactly in prose with the nudges used up, else out of budget. |
| Loop.Work.MaybeForceSynthesis | embodiment/loop.py:1838-1871 | The synthesis turn happens exactly when armed, nothing was answered, steps were taken and a turn is left; it asks with the prompt of the exit on the history as it stands, and its stripped answer becomes the summary. |
| Loop.Work.Finish | embodiment/loop.py:1874-1884 | What finished the drive, else the stripped synthesis answer, else the last prose among all the model answered, else the sentinel. |
| Loop.Work.Run | embodiment/loop.py:2021-2191 | For any seams the drive ends; its summary is the last non-empty one that finished it, else the synthesis answer, else the last prose among all the answers, else the sentinel; it stops in prose exactly after one more prose turn than there are nudges; every answer is counted as a turn and every tool call left a step; turns and raw calls are within the stated bounds; with honest children own plus child turns stay within budget and an armed synthesis still has its turn; every list sent up to the end of the first turn that was not orderly, and every list when all were, is well-formed; steps are numbered 0..n-1; mints are paid for. |
| Ingest.Clash | embodiment/memory.py:1047-1056 | The other stored record with this text, archived or not, or none exactly when there is none. |
| Ingest.Scope.IngestOne | embodiment/memory.py:2304-2346 | One job leaves the store and answers as specified under every fault: refusals, timeouts, exceptions, a refused write, a refused flip. |
| Ingest.Scope.IngestRecords | embodiment/memory.py:2238-2302 | The batch loop leaves the store and the report of the specified play: in order, halting at a refused or deferred record. |
| Ingest.Tally.Outcome | embodiment/memory.py:1125-1192 | Folding one answer into the tally enters exactly its lists. |
| Ingest.AfterSettles | embodiment/memory.py:2304-2346 | After its job a record is stored active with its text and what it supersedes is archived or gone, unless a record it does not supersede holds that text. |
| Ingest.SettledStays | embodiment/memory.py:2262-2264 | Running a settled record again changes nothing at all. |
| Ingest.RetryConverges | embodiment/memory.py:2238-2369 | For a batch of distinct ids that supersedes nothing of its own, and gives no stored id a new text or has a single text, any number of interrupted attempts then a full run leave the store of one clean run. |
| IngestRetry.HaltedRetry | embodiment/memory.py:2238-2297 | The same for the batch as it runs: after any halt, a deferred job that landed its text without its flip included, one clean run ends where one clean run would. |
| IngestRetry.LateHaltsConverge | embodiment/memory.py:2164-2212 | And when deferred jobs land, wholly, in part or not at all, at any point between or after the jobs of later attempts: once an attempt has run to the end the store is that of one clean run. |
| IngestRetry.HaltsConvergeIff | embodiment/memory.py:2262-2264 | For a batch of distinct ids that supersedes nothing of its own: retrying after halts is safe on every store, also one holding its ids under other texts, if and only if all its texts are the same. |
| IngestRetry.RewriteDiverges | embodiment/memory.py:2262-2264 | On the store that holds the first record's text under the id of the first record with another text, one run leaves the first record out and a halt there then a full run stores it. |
| IngestRetry.SecondRunDiffers | embodiment/memory.py:2262-2264 | In particular a batch of two or more distinct texts, run to the end twice, stores a record that one run leaves out. |
| IngestRetry.AlwaysConvergesIff | embodiment/memory.py:2262-2264 | For a batch of distinct ids that supersedes nothing of its own: retrying after arbitrary faults is safe on every store if and only if it has at most one record. |
| IngestRetry.ChainDiverges | embodiment/memory.py:2262-2264 | A batch in which c supersedes b and b supersedes a, on an empty store: after one run a is archived, after a second it is active. |
| IngestRetry.RepeatedIdDiverges | embodiment/memory.py:2262-2264 | A batch that gives one id two texts: a second run stores a record the first leaves out. |
| IngestRetry.ConvergesIff | embodiment/memory.py:2262-2264 | For a batch of distinct ids that supersedes nothing of its own: whatever faults strike a play of it, on whatever store whose ids it gives no new text, a clean run afterwards ends where one clean run alone would, if and only if no two of its records share a text. |
| IngestRetry.SharedTextDiverges | embodiment/memory.py:2262-2264 | Two records with one text: one refused write in an otherwise clean play, then a clean run, leaves out a record that one clean run stores. |
| IngestRetry.RetryRepairs | embodiment/memory.py:2238-2369 | For distinct texts in a batch of distinct ids that supersedes nothing of its own and gives no stored id a new text: whatever faults struck, one clean run puts the store right. |
| IngestRetry.LateRepairs | embodiment/memory.py:2164-2212 | For such a batch the same when deferred jobs land at any later time and records failed in earlier attempts, once an attempt has run to the end with no failure of its own. |
| Ingest.Commute | embodiment/memory.py:2304-2346 | Jobs of records with different texts give the same store in either order. |
| Ingest.LeavesOnlyReplaced | embodiment/memory.py:2304-2346 | A stored id leaves the scope exactly when the job reports having replaced it. |
| Ingest.HiddenOnlyReported | embodiment/memory.py:2348-2369 | An active id that stays is archived exactly when the job reports that flip. |
| Ingest.ReportPartitions | embodiment/memory.py:1125-1192 | Every input is in exactly one of written, failed, not attempted or collapsed, except those that took a superseded record's place, which are in written and collapsed. |
| Ingest.AnswerMeans | embodiment/memory.py:2304-2346 | What each verdict means for the store: written leaves the record there, active, and what it flipped archived; a takeover and a collapse name the record holding the text; and nothing else in the store changes. |
| Ingest.FaultMeans | embodiment/memory.py:2304-2346 | What each fault does: a refused write fails exactly the jobs with one to make, a refused flip exactly those with one to make, the record standing; a job that raised or was not waited for is reported failed, however much of it landed. |
| Ingest.ReportLists | embodiment/memory.py:1125-1192 | Each list of the report is the inputs with its verdicts, or the records they name, in batch order. |
| Ingest.SupersededIff | embodiment/memory.py:1125-1192 | The superseded list names exactly the records that some input not reported failed archived or replaced. |
| Ingest.NotAttemptedIff | embodiment/memory.py:2238-2302 | An input is not attempted, and leaves the store alone, exactly when an earlier record was refused a slot or not waited for. |
| Ingest.BatchLosesNothing | embodiment/memory.py:1125-1192 | An id that left the scope was last removed by the job of an input superseding it, and that job is reported, as superseded and as a collapse partner, or is itself reported failed. |
| AbandonedLedger.Ledger.RecordAbandoned | embodiment/memory.py:1792-1802 | One append keeps: the ledger is the newest undrained entries within its bound, and the counter is how many older ones it displaced. |
| AbandonedLedger.Ledger.DrainAbandoned | embodiment/memory.py:1804-1817 | A drain returns the newest entries since the last one and the count of the rest, which together are all of them. |
| Inflight.SlotsAreExact | embodiment/memory.py:1821-1863 | In every reachable state pending equals the jobs holding a slot and is within its cap; no slot is given back twice, and a finished job gave its back once. |
| Inflight.DeferredFailureLogged | embodiment/memory.py:1991-2031 | Once a deferred job's callback ran, its failure is on the log exactly once and a success never is: a read fails when it raises, a write also when it does not answer ok. |
| Inflight.LedgerTrueIff | embodiment/memory.py:1991-2031 | The log names every deferred ingest write, and names a deferred write exactly when it was not stored, if and only if it is an ingest write that stored nothing or another write that stored exactly when it answered ok. |
| Inflight.LogMisleads | embodiment/memory.py:2016-2030 | A run for each other case: an ingest write stored, whether its job answered or raised after the write, and logged; another write stored and then raised or answered not ok, and logged; one answered ok and not stored, and not logged. |
| Inflight.CloseAccounts | embodiment/memory.py:3417-3523 | A finished close has every write of its snapshot in exactly one list and each unconfirmed one on the log once; it lists a finished write as landed exactly when it answered ok, so never an ingest write, and is right about what was stored under the same condition as the log; drained, dropped and kept entries add up to all ever logged. |
| Inflight.CloseMisleads | embodiment/memory.py:911-924 | A run for each other case: the write, finished in time, is in the wrong list of the report. |
| Inflight.CloseNamesIff | embodiment/memory.py:3417-3497 | Of the writes holding a slot when close begins, the report names exactly those already registered. |
| Inflight.CloseMissesUnregistered | embodiment/memory.py:1821-1863 | A run in which an admitted write is in no list of the report and still running afterwards. |
| Inflight.Slots.Reserve | embodiment/memory.py:1834-1839 | Closed refuses first, then saturation; only an admission takes a slot. |
| Inflight.SettleWrites | embodiment/memory.py:3499-3523 | The loop puts every write in exactly one list: unconfirmed when its future is not done, landed when it answered ok, else failed. |
| Backfill.NoLostWakeup | embodiment/memory.py:3236-3303 | For every interleaving of loop, writers and stoppers, no wait blocks and no idle interval elapses between a write's wake and the next tick. |
| Backfill.TickComes | embodiment/memory.py:3291-3301 | With a wake pending and nobody stopping it, the loop is never blocked and starts a tick within a fixed number of its own steps. |
| Backfill.LoopRests | embodiment/memory.py:3236-3303 | A loop that nobody wakes makes at most ten more moves, then waits or is gone. |
| Backfill.StopLeaves | embodiment/memory.py:3236-3303 | A loop told to stop, or whose memory was closed, is gone after at most ten moves of its own, and is never blocked for good before that. |
| Backfill.DoneIsTrue | embodiment/memory.py:3319-3323 | If no start overlapped a finishing thread, done means no loop is left. |
| Backfill.DoneMisleads | embodiment/memory.py:3270-3317 | From every such overlap done can be set while the new loop runs. |
| Backfill.DoneMisleadsRun | embodiment/memory.py:3270-3317 | And a run from the start gets there: a start whose spawn fails, a second start, the first one's late done. |
| Fence.Neutralise | embodiment/memory.py:3566-3601 | The loop and the two substitutions compute the specified text, which is safe and unchanged by a second pass. |
| Fence.NeutralIsSafe | embodiment/memory.py:3566-3601 | No three brackets in a row, no stripped category and no space but the plain one, for any input. |
| Fence.NeutralIdempotent | embodiment/memory.py:3566-3601 | Sanitising twice is sanitising once. |
| Fence.SafeStays | embodiment/memory.py:3566-3601 | Safe text is shown exactly as it is. |
| Fence.NeutralSifts | embodiment/memory.py:3566-3601 | A stripped character is as if it were not there, and an exotic space as if it were a plain one, anywhere in a text. |
| Fence.NeutralConcat | embodiment/memory.py:3566-3601 | Away from a run of brackets each part of a text is sanitised by itself. |
| Fence.NeutralRun | embodiment/memory.py:3566-3601 | A run of three or more brackets becomes its mark, a shorter one stays. |
| Fence.FreeTextSafe | embodiment/memory.py:3613-3644 | Free provenance text is capped at 160 and safe. |
| Fence.FreeTextShows | embodiment/memory.py:3613-3644 | It is the words of the sanitised value one space apart, cut at 160. |
| Fence.FieldFits | embodiment/memory.py:3613-3644 | A header field has 1 to 64 characters, all allowed or the placeholder, unless empty with an empty fallback. |
| Fence.FieldShows | embodiment/memory.py:3613-3644 | It shows the sanitised value without the spaces around it, each character where allowed and the placeholder where not, the first 64 of them; or the fallback when nothing is left. |
| Fence.FieldCharacters | embodiment/memory.py:3613-3644 | The printable characters an id or a writer is shown with, and those of a time stamp; any other is a question mark. |
| Fence.QuotedIsOneLine | embodiment/memory.py:3647-3662 | A body is exactly one quoted line. |
| Fence.QuotedShows | embodiment/memory.py:3647-3662 | That line is the quote mark and the whole sanitised text when it fits, its first `cap` characters and the truncation marker when not; and a safe text that fits as it is. |
| Fence.ProvenanceOf | embodiment/memory.py:3679-3706 | For a source in label characters: exactly the two registered ones have a provenance line, and which fields it shows under which label. |
| Fence.PartsShow | embodiment/memory.py:3709-3721 | Parts with a value are shown as label and value, in order, with a bar between them. |
| Fence.PartShows | embodiment/memory.py:3709-3721 | One part is its label, a colon and its value, or nothing without a value. |
| Fence.DigitsRead | embodiment/memory.py:3756-3759 | The number of a header is the decimal numeral of the index, without leading zeros. |
| Fence.HeaderShapedIff | embodiment/memory.py:547-551 | A header has the published shape exactly while its index is below 10^6. |
| Fence.UsableIdShown | embodiment/memory.py:3542-3558 | An id the tools accept is shown in the header exactly as it is. |
| Fence.HeaderReads | embodiment/memory.py:3756-3759 | Splitting a header at spaces gives its four fields, each under its own name. |
| Fence.RenderingIsFenced | embodiment/memory.py:3724-3765 | The text splits at newlines into exactly 4 + 2n + p lines with the marks third and last; each mark occurs once in it; every line between is quoted or a header. |
| Fence.RenderingShows | embodiment/memory.py:3724-3765 | Every record is shown at its own place: its header with the index counting from one, its provenance if any, and its sanitised text, cut only when too long. |
| Fence.RenderRecalled | embodiment/memory.py:3724-3765 | The loop renders exactly those lines, nothing for no records, and every record is shown in them. |
| RateWindow.JudgeBudget.Take | embodiment/mesh_judge.py:255-278 | Popping the old front and comparing to the cap, in place, is the specified step. |
| RateWindow.FilterRunIsRule | embodiment/mesh_asks.py:252-263 | Under a nondecreasing clock the filtered list decides by the rule "fewer than cap accepted calls in the window". |
| RateWindow.AcceptedNext | embodiment/mesh_asks.py:252-263 | The rule: the next call is accepted exactly when fewer than cap accepted ones are less than a window ago. |
| RateWindow.LimitersAgree | embodiment/mesh_judge.py:255-278 | Under a nondecreasing clock both limiters make the same decisions from the same memory, for every cap and window. |
| RateWindow.BackwardClockDiffers | embodiment/mesh_judge.py:255-278 | A clock that steps back tells them apart. |
| RateWindow.AcceptedSpan | embodiment/mesh_asks.py:252-263 | Any cap + 1 accepted calls span at least the window. |
| AskBook.UnmatchedIff | embodiment/mesh_asks.py:114-156 | Exactly when a message matches no ask: a system sender, or no unfailed ask in the thread or with the reply id it names, and, when it is direct, none listening on the channel. |
| AskBook.FallbackIsLatest | embodiment/mesh_asks.py:114-156 | A fallback match is the latest ask listening on the channel, never an expired one, and ambiguous exactly when others listen. |
| AskBook.MatchNamesItsAsk | embodiment/mesh_asks.py:114-156 | The rule and the ask it picks: the first unfailed ask of the thread the message names; only if none, the first unfailed one posted as what it replies to; only if none, and the message is direct, one listening on the channel; and when the answer counts as late or after expiry. |
| AskBook.ReachableBounds | embodiment/mesh_asks.py:166-473 | At most 8 open asks, 207 kept, 20 answers each, answers exactly on answered asks, one ask per running turn, in every reachable book. |
| AskBook.KeptAfterPost | embodiment/mesh_asks.py:281-322 | Right after a post fewer than 200 asks are kept beside the open ones. |
| AskBook.PostIff | embodiment/mesh_asks.py:281-322 | In every reachable book a post goes through exactly when the turn is no mesh turn, has not asked, fewer than eight asks are open and the save succeeds; then the new ask is last and open, and no open ask goes; otherwise the new ask is not in the book. |
| AskBook.TurnAsksOnce | embodiment/mesh_asks.py:252-322 | In every run a turn posts at most one ask until it ends, none if it had asked, and none while it is a mesh turn. |
| AskBook.MeshTurnNeverAsks | embodiment/mesh_asks.py:252-322 | A turn admitted from the mesh posts nothing until it ends. |
| AskBook.EndForgets | embodiment/mesh_asks.py:265-278 | The end of a turn forgets it and leaves the account of every other turn alone. |
| AskBook.HeldBeyondOpen | embodiment/mesh_asks.py:281-322 | A run that keeps 207 asks with none open: the bound "200 plus the open ones" holds only right after a post. |
| AskBook.StatusesMoveForward | embodiment/mesh_asks.py:166-473 | No status returns to open, answered stays answered, failed stays failed with no answers, over every continuation. |
| AskBook.MeshTurnsSpan | embodiment/mesh_asks.py:252-263 | Any seven admitted mesh turns span at least 600 seconds. |
| AskBook.MeshAdmittedIff | embodiment/mesh_asks.py:252-263 | In every reachable book a mesh turn is admitted exactly when fewer than six admitted ones began less than 600 seconds ago. |
| AskBook.PruneShape | embodiment/mesh_asks.py:315-317 | Pruning keeps the newest 200 asks and the open ones before them. |
| AskBook.ContinuesOwnIff | embodiment/mesh_asks.py:339-366 | In every reachable book a continuation edits the entry its sender's last answer stored if and only if that answer was stored (fewer than 20 then) and none was stored on the ask since; the edited entry has the sender as author if and only if the ask's latest stored answer is theirs. |
| AskBook.ContinuesAnothers | embodiment/mesh_asks.py:339-366 | A run from the empty book in which a second sender answers the same ask and the first one's next line is appended to the second one's answer. |
| AskBook.ContinuesPastFull | embodiment/mesh_asks.py:339-443 | A run from the empty book in which an ask holds 20 answers of one sender, another's answer is dropped, and that one's next line is appended to the twentieth. |
| AskBook.ContinuesLastEntry | embodiment/mesh_asks.py:339-366 | A continuation appends the line, clipped, to the last entry of the ask its sender last answered, restarts the time, and changes nothing else. |
| AskBook.ContinuesIff | embodiment/mesh_asks.py:339-366 | Exactly when a line counts as a continuation. |
| AskBook.AnswerLands | embodiment/mesh_asks.py:410-466 | An answer is recorded on the ask that matches once the due asks have expired, which is then answered, and on no other; when none matches nothing is recorded. |
| AskBook.AttachLands | embodiment/mesh_asks.py:393-443 | The judge's choice is recorded on the kept ask of that id, exactly unless it failed or there is none. |
| AskBook.AskBook.BeginTurn | embodiment/mesh_asks.py:252-263 | The book moves and answers as the specified step, whose effect on a turn's account `TurnAsksOnce` and whose admission `MeshAdmittedIff` state. |
| AskBook.AskBook.EndTurn | embodiment/mesh_asks.py:265-278 | The loop stamps exactly the turn's unstamped asks, changes no other, and forgets the turn. |
| AskBook.AskBook.OpenAsk | embodiment/mesh_asks.py:281-322 | Refused for a mesh turn, a turn that asked, eight open asks or a failed save, in that order, or posted; the book then is as `PostIff` says. |
| AskBook.AskBook.Expire | embodiment/mesh_asks.py:237-244 | The loop expires exactly the open asks whose time is up, and says whether any changed. |
| AskBook.AskBook.Attach | embodiment/mesh_asks.py:393-408 | Expire, then record the judge's choice on any kept ask but a failed one. |
| AskBook.AskBook.Fail | embodiment/mesh_asks.py:324-337 | Exactly the first ask of that id, when open, is closed as failed, no other changes, and true says so. |
| AskBook.AskBook.Continuation | embodiment/mesh_asks.py:339-366 | Within five seconds of the sender's last answer its line is appended, clipped, to the ask's last entry. |
| AskBook.AskBook.Answer | embodiment/mesh_asks.py:410-466 | Expire, match, record: the book moves as the specified step, whose ask `MatchNamesItsAsk` and whose effect `AnswerLands` state. |
| Wire.Chunks | embodiment/mesh_client.py:432-446 | The loop computes the specified chunks. |
| Wire.ChunksFlatten | embodiment/mesh_client.py:432-446 | Chunks put end to end are the text, and none is empty. |
| Wire.ChunksFitIff | embodiment/mesh_client.py:432-446 | Every chunk is within the budget exactly when every character alone is. |
| Wire.FewestChunks | embodiment/mesh_client.py:432-446 | No way of cutting the text into pieces within the budget uses fewer pieces. |
| Wire.CleanLinesAreClean | embodiment/mesh_client.py:424-429 | A cleaned line holds no break and no NUL and is not blank. |
| Wire.CleanLineStays | embodiment/mesh_client.py:424-429 | A text with no break and no NUL cleans to itself alone, and to nothing when it is blank. |
| Wire.CleanSplits | embodiment/mesh_client.py:424-429 | A text cleans to what it has before any of its breaks followed by what it has after it. |
| Wire.CleanDropsNul | embodiment/mesh_client.py:424-429 | A NUL anywhere is as if it were not there. |
| Wire.CleanKeepsVisible | embodiment/mesh_client.py:424-429 | The cleaned lines hold every character of the text that is not white space or NUL, in order. |
| Wire.FramedFitsIff | embodiment/mesh_client.py:449-452 | Every framed line with its CRLF fits 8192 bytes exactly when every character fits beside the head. |
| Wire.FramedSplits | embodiment/mesh_client.py:449-452 | What is sent splits where the text has a break. |
| Wire.FramedLine | embodiment/mesh_client.py:449-452 | A line is sent whole after its head when it fits, else in chunks; a blank one not at all. |
| Wire.ThreadFits | embodiment/mesh_client.py:737-749 | One create line then replies, one per chunk, each within 8192 bytes although cut for the longer head. |
| IrcLines.UnescapeTag | embodiment/mesh_client.py:380-389 | The loop computes the specified unescaping. |
| IrcLines.UnescapeEscape | embodiment/mesh_client.py:380-389 | Unescaping undoes IRCv3 escaping for every value. |
| IrcLines.UnescapeOther | embodiment/mesh_client.py:380-389 | Any other escaped character stands for itself, and a last lone backslash for nothing. |
| IrcLines.ParsePrint | embodiment/mesh_client.py:392-421 | Parsing a printed message gives back tags, prefix, command, parameters and trailing text. |
| IrcLines.ParseBare | embodiment/mesh_client.py:392-421 | Any line without tags or prefix: its words up to the first " :", the first one upper-cased, and the rest as one more parameter; none without a word. |
| IrcLines.WordsSplit | embodiment/mesh_client.py:392-421 | Words are cut at every white space character. |
| IrcLines.ParsePrefix | embodiment/mesh_client.py:392-421 | A prefix in front of any such line gives it its prefix and changes nothing else. |
| IrcLines.ParseTagged | embodiment/mesh_client.py:392-421 | A tag list in front of any line gives it its tags and changes nothing else. |
| IrcLines.TagMapNext | embodiment/mesh_client.py:392-421 | An empty item is no tag, a key without a value has the empty one, and a later tag wins. |
| IrcLines.ParseIgnoresEnd | embodiment/mesh_client.py:392-421 | Line breaks at the end of a line are as if they were not there. |
| IrcLines.ParseIgnoresFront | embodiment/mesh_client.py:392-421 | So are spaces before a line without tags. |
| IrcLines.FramedRoundTrip | embodiment/mesh_client.py:392-452 | Parsing every framed line and joining the trailing texts gives the text again: every character of it that is not white space or NUL, in order, and a clean line exactly. |
| IrcLines.ThreadRoundTrip | embodiment/mesh_client.py:392-749 | A thread's lines parse to one THREAD CREATE and then THREAD REPLYs with the channel, the name and one chunk each, and the chunks end to end give the text again in the same sense. |
| Sasl.SaslLines | embodiment/mesh_client.py:192-199 | One AUTHENTICATE line per chunk, a multiple of 400 closed by "+". |
| Sasl.SaslRoundTripIff | embodiment/mesh_client.py:192-199 | A server joining chunks up to the first short one or "+" recovers the payload exactly when the last piece is not a lone "+", so for all base64. |
| Outbox.CountedOnce | embodiment/mesh_client.py:788-1065 | In every run each line handed over is in exactly one place: sent, dropped, queued, being written, or in an abandoned outbox. |
| Outbox.SentAreDrained | embodiment/mesh_client.py:1046-1065 | In every run exactly the messages whose writing was seen through count as sent. |
| Outbox.FirstInFirstOut | embodiment/mesh_client.py:788-1065 | While an outbox stands its lines are written in the order in which they were queued. |
| Outbox.AcceptsIff | embodiment/mesh_client.py:788-1044 | After any run a batch is accepted exactly when the last welcome or leave left the door open, an outbox stands and the batch fits. |
| Outbox.NothingLostIff | embodiment/mesh_client.py:788-1065 | Between sessions sent plus dropped is all that was handed over if and only if no opening failed with a message queued and no batch was accepted afterwards while no session was left. |
| Outbox.NothingLost | embodiment/mesh_client.py:1011-1065 | In particular when every opening succeeds. |
| Outbox.FailedOpeningLoses | embodiment/mesh_client.py:1011-1044 | A run from the start in which a line accepted while the opening lines are written, which then fail to drain, is counted nowhere. |
| Outbox.OpenDoorLoses | embodiment/mesh_client.py:788-1044 | A run from the start in which a line accepted after such a failure, the door still open, is counted nowhere. |
| Outbox.Client.Enqueue | embodiment/mesh_client.py:788-798 | A whole batch is queued when the door is open and it fits, and else a whole batch is dropped and counted. |
| Outbox.UnsentMessages | embodiment/mesh_client.py:208-215 | The loop counts exactly the messages; presence lines are not messages. |

## Left out

- Sockets, MQTT, HTTP, files, permissions, JSON and regular expressions: their outcomes are inputs.
- Time: waits, deadlines and timeouts are steps that may or may not happen; clocks are inputs, nondecreasing where a property needs it. That a wait ends, and how long anything takes, is not stated.
- The embedding backfill's own work, recall, ranking, archiving by source and the vector cache.
- Validation of event payloads, redaction and size limits: one verdict per publication.
- Heartbeats and the reasons recorded with a degradation.
- `media_aware_count`: a counter like any other, covered by the arbitrary counter of the windowing lemmas.
- Presence, operator messages, progress, hooks other than the pre-tool decision, statistics and the incompletion record of a drive; prompt texts that no proof reads.
- Float shrinking by 0.6: any function that stays between 1 and its argument and is smaller above 1.
- Subagents: only what the loop states of them, an arbitrary report of turns.
- Loop.Work.Run: lists sent after a turn that was not orderly (distinct call ids, media on the last call only) are not promised well-formed, because they need not be (`History.TurnPairedIff`).
- Ingest.Scope.IngestOne: a job that was not waited for lands at once or never; landing between the jobs of later attempts is modelled for the store (`IngestRetry.LateHaltsConverge`), not for what those attempts report.
- IngestRetry.HaltedRetry: of batches that repeat an id or supersede one of their own records only the two failing ones are given.
- Ingest.ReportPartitions: ids are compared as shown in the report, so two invalid inputs may share the placeholder id.
- Inflight.CloseAccounts: the order in which a close report sorts ids is not modelled.
- Fence.RenderingIsFenced: Unicode categories are a table of which only printable ASCII, the space and the line breaks are fixed.
- AskBook.ReachableBounds: starts from an empty book; a book loaded from a file someone else wrote, and the list of the last 100 refusals, are not modelled. Ids drawn are assumed never to repeat.
- IrcLines.ParsePrint: upper-casing is an oracle that leaves the command alone.
- Sasl.SaslLines: starts from the base64 text; base64 is not modelled beyond its length being a multiple of four.
- Outbox.CountedOnce: a batch accepted from another thread but not yet run on the loop when it stops was never handed over, and is not counted.
- Registration, SASL negotiation, reconnection and nick rules of the mesh client.
