# Formal model of the UTH notifier's durable core

The project models the parts of the notifier whose correctness depends on
state, order or arithmetic, and proves what they promise.

- **Edge relay** (`EdgeEvents`, `EdgeTable`, `EdgeInbox`, `EdgeReconciler`,
  `RelayProtocol`, `RelaySafety`, `RelayTheorems`, `RelayProgress`,
  `RelayRejection`, `RelayConflict`): webhook
  events are stored at the edge, leased to reconcilers, imported into the inbox
  and acknowledged. The three request handlers, the importer and the
  reconciler's cycle are methods over tables; `RelayProtocol` interleaves the
  same statements with any number of concurrent requests, lost messages,
  crashes and retention.
- **Inbox** (`InboxWork`, `InboxRuns`): the imported events are handed out in
  order, completed, failed, dead-lettered and deleted. `InboxRuns` puts any number
  of consumers on top of the relay, down to what every event comes to.
- **Portal discovery** (`PortalScan`, `PortalRuns`, `PortalPolling`): the page
  scan with its early stop, cycles over time, and the adaptive polling states.
- **Snapshots** (`ScriptScanner`, `TagGrammar`, `ScriptExtraction`, `Snapshot`,
  `SnapshotRoundTrip`, `JsonText`): what the browser agent appends to a page and
  what the crawler's scanner reads back.
- **Captured posts** (`PostMerge`, `CaptureRuns`, `PostUrls`, `GraphqlCapturing`):
  how posts are made and their URLs kept, the merge by key and the incremental
  capture.
- **Graph walk** (`GraphWalk`, `GraphItems`, `GraphMeaning`, `GraphSources`,
  `GraphOrder`, `CaptureToCrawl`): attribution of JSON data to posts, and the way from a
  captured post to the accumulators.
- **Strategy circuit** (`StrategyCircuit`, `CircuitHistory`).
- **Telegram** (`TelegramUpdates`, `TelegramOffset`, `Text`, `Amounts`,
  `Commands`, `CommandLinks`, `CommandWords`): batches and the update offset, amounts and
  commands.
- **Calendar and metrics** (`Calendar`, `Metrics`).
- `Prelude`, `Json` and `Decimal` are shared.

`dafny verify dfyconfig.toml` checks everything.

## What the model found

- The edge compares a repeated webhook without its arrival time, the importer
  with it. A repeat that comes after edge retention deleted the first row is
  stored as a second version, and until inbox retention deletes the old row the
  importer rejects every batch with it (`RelayConflict.ImportCanBeRejected`).
  In every reachable state this is the only reason for a rejection
  (`RelayRejection.RejectedIff`, `TimedRejectedIff`), and without a second version
  nothing is ever rejected (`RelayTheorems.Agreement`).
- A notice skipped because of a non-network error can lie below a stored one.
  No scan returns it while a stored notice stays listed on an earlier page
  (`PortalRuns.StrandedWhileShadowed`, `SkippedIsStranded`); it is returned again
  once none is (`DroppedFindsAgain`). `FoundIff` and `CompleteIff` say exactly what
  a scan returns and when it misses nothing.
- A page that ends inside a script tag or element can swallow the first appended
  block, as the page `<script>` does
  (`SnapshotRoundTrip.OpenScriptSwallows`); `SnapshotReadIff` says exactly when everything is read back.
- The byte budgets of the capture leave no room for the tags, so captured
  payloads can be dropped from the snapshot (`GraphqlCapturing.BudgetsNotEnough`,
  `FullBudgetsOccur`; exactly when: `AllAppendedIff`).
- `postLocator` returns an empty text, never null, so the URL is never a key: two
  posts without ids collapse exactly when their locators are equal
  (`CaptureRuns.LocatorsCollapse`). Some URLs the agent keeps have the empty one
  (`PostUrls.KeptLocatorEmptyIff`), so the posts made at a page's video and reel
  overviews become one (`OverviewsCollapse`).
- A post known only by a pfbid id is normalized by the agent but contributes
  nothing in the crawler, to any id (`CaptureToCrawl.PostGivesIff`, `PfbidDiffers`);
  it arrives exactly when its id is numeric (`CapturedPostCrawledIff`).
- When only the delivery of user feedback fails, an answered event is neither
  completed nor counted as an attempt, and is handed out and answered again
  (`InboxWork.AnsweredAgain`; exactly when: `LeftAloneIff`).

## How the source is rendered

- A row SELECT or DELETE answers with any result its WHERE, ORDER BY and LIMIT
  allow; the answers are parameters. `CURRENT_TIMESTAMP` is fixed within one
  sequential handler method, while in `RelayProtocol` time passes between any
  two statements. Edge times are seconds, polling times nanoseconds.
- Network behaviour is a parameter: replies per attempt, deliveries cut short,
  outcomes of sending. Fields that record history (`versions`, `imported`,
  `acked`, `grants`, `retired`, `inserted`, `purged`) are never read by a step.
- In the scanner and the snapshot printer a character stands for a byte.
  Elsewhere lengths count characters.
- The URL library, Unicode trimming and lower-casing, JSON parsing, the post
  locator and the classifier are function parameters; `Text.Sane` fixes the
  Unicode functions on ASCII, and that lower-casing keeps a leading slash.
- A JSON object is the sequence of its members in iteration order; the five sets
  of a post accumulator are one set of tagged items; a sorted map is a sequence
  in key order; the language's stable sort is a stable insertion sort.
- A post's `publishedAt` text is the instant it denotes. The importer's method
  parses arrival times and compares instants; `RelayProtocol` compares their texts,
  which is the same for times printed by one clock (`EdgeInbox.TimedIsBatch`).
- The edge database's answers to a pull are functions of the table, constrained
  only by the statements; `EdgeReconciler.CandidatesExist` shows that there are
  such answers.
- The importer's clock and the edge's are independent. A payment event is worked
  off by the same statements, so a hand-out in `InboxRuns` is of either kind; the
  Telegram cycle takes the one that the SELECT's order puts first.
- `chrono` durations or instants out of range (an error or a panic in the
  source) give no next polling state.

## Model

| member | source | states |
|---|---|---|
| EdgeEvents.TelegramEventAccepted | crates/domain/src/lib.rs:168-189 | a Telegram body becomes an event exactly when it carries a non-negative update id and an arrival time is given, and that event passes validation |
| EdgeEvents.TelegramIdentity | crates/domain/src/lib.rs:168-206 | two bodies share an event id exactly when they share the update id, and count as one delivery exactly when they are the same body, whenever they arrive |
| EdgeEvents.TelegramChatIs | crates/domain/src/lib.rs:191-215 | the chat of a body is the number at the first of five places that holds one in range: message, edited message, channel post, edited channel post, the message under a button |
| EdgeEvents.TelegramEventIs | crates/domain/src/lib.rs:168-189 | the sequence is the update id, the event id names it, the aggregate names the chat, or the update where there is none, and the body and arrival time are kept |
| EdgeEvents.SameAggregateIff | crates/domain/src/lib.rs:174-177 | two events share their aggregate exactly when both bodies carry the same chat, or neither carries one and they are the same update |
| Decimal.PrintParses | crates/domain/src/lib.rs:180-183 | the decimal text of a number in range parses back to it, signed and unsigned |
| Decimal.PrintInjective | crates/domain/src/lib.rs:174-180 | different integers never print alike |
| EdgeTable.EdgeWorker.PersistEvent | apps/edge-worker/src/lib.rs:186-228 | the first version of an event is kept, and a repeat is accepted exactly when it differs at most in its arrival time |
| EdgeTable.EdgeWorker.PullEvents | apps/edge-worker/src/lib.rs:230-305 | the whole table after a pull: retention, clamped limit and lease, the leased candidates; the events returned, or how far leasing went before an invalid row failed the pull; never fails on rows the webhook stored |
| EdgeTable.EdgeWorker.LeaseCandidates | apps/edge-worker/src/lib.rs:272-303 | the lease loop leases exactly the candidates before and including the first invalid one, and returns their stored events in order |
| EdgeTable.CandidatesAre | apps/edge-worker/src/lib.rs:259-270 | a row is a candidate only if it is pending or its lease has run out, and every such row is one while there is room |
| EdgeTable.CandidatesOrdered | apps/edge-worker/src/lib.rs:266 | candidates come by sequence, then by arrival, and what is left out comes no earlier |
| EdgeTable.InsertedIs | apps/edge-worker/src/lib.rs:190-208 | a first version is stored as it came, pending, unleased and never tried |
| EdgeTable.RemovedIsOld | apps/edge-worker/src/lib.rs:248-258 | retention deletes at most 100 rows, all acknowledged more than thirty days ago |
| EdgeTable.OwnerIs | apps/edge-worker/src/lib.rs:379-385 | an owner is valid exactly with one to a hundred letters, digits, underscores and hyphens |
| EdgeTable.AckIs | apps/edge-worker/src/lib.rs:325-335 | an acknowledgement settles a row exactly when it is leased to the owner, whether or not the lease has run out |
| EdgeTable.EdgeWorker.AcknowledgeEvents | apps/edge-worker/src/lib.rs:315-357 | the table after an acknowledgement and the count, which equals the number of ids exactly when every id is acknowledged; it fails exactly on a bad owner, a bad number of ids or a malformed id, having settled the ids before that |
| EdgeTable.LeaseAllAt | apps/edge-worker/src/lib.rs:273-291 | leasing a candidate list changes exactly the listed rows, each once |
| EdgeTable.AckAllAt | apps/edge-worker/src/lib.rs:321-344 | acknowledging a list settles exactly the listed rows leased to the owner and leaves every other row alone |
| EdgeTable.PullThenAck | apps/edge-worker/src/lib.rs:259-357 | a pull followed by its owner's acknowledgement settles everything pulled, even after the leases ran out, and nothing else |
| EdgeInbox.InboxStore.ImportEdgeEvents | crates/storage/src/lib.rs:686-739 | a batch is imported as a whole or not at all, with arrival times parsed and compared as instants; the rows are those of the timed import, and imported and duplicate counts add up to its length |
| EdgeInbox.TimedCommitsIff | crates/storage/src/lib.rs:686-739 | a batch commits exactly when every event is valid, has an arrival time that parses, and agrees, up to the spelling of its arrival time, with the stored row of its id and the earlier events of the batch |
| EdgeInbox.TimedRow | crates/storage/src/lib.rs:700-735 | a committed batch keeps every old row and adds exactly its own ids, each with the first event sent under it, which agrees with all others |
| EdgeInbox.TimedIsBatch | crates/storage/src/lib.rs:700-735 | when all arrival times are printed uniformly, as the edge does, comparing instants and comparing texts give the same import |
| EdgeInbox.ImportCommitsIff | crates/storage/src/lib.rs:686-739 | for uniformly printed arrival times: a batch commits exactly when every event is valid and contradicts neither the stored row of its id nor an earlier event of the batch |
| EdgeInbox.ImportCommitted | crates/storage/src/lib.rs:700-735 | for uniformly printed arrival times: a committed batch keeps every old row, adds exactly its own ids, and stores each event as sent |
| EdgeInbox.ImportInserts | crates/storage/src/lib.rs:700-735 | the ids counted as imported are exactly the growth of the table |
| EdgeReconciler.PullEvents | apps/core-agent/src/edge_reconciler.rs:107-150 | at most three requests, all but the last of them broken or not executed; success exactly when one is answered before the others are used up; the result is exactly the candidate list that the answered request found in the table the earlier ones left, and that request leased exactly these rows, each once, to the owner; no row is acknowledged or overwritten |
| EdgeReconciler.CandidatesExist | apps/edge-worker/src/lib.rs:259-270 | every table has a candidate list of the order and limit asked for |
| EdgeReconciler.AcknowledgeEvents | apps/core-agent/src/edge_reconciler.rs:152-200 | success means that every id is acknowledged at the edge, however many replies were lost or requests cut short; rows leased to the owner are acknowledged exactly when one request is replied to; only named rows leased to the owner change, and only by being settled |
| EdgeReconciler.RunCycle | apps/core-agent/src/edge_reconciler.rs:76-96 | the cycle succeeds exactly when the pull is answered, its batch can be imported, the acknowledgement is replied to and old rows can be deleted; its events are exactly the candidate list the answered request found; a successful cycle has imported and acknowledged all of them and reports the counts; no row becomes acknowledged at the edge unless it was pulled and the whole batch imported first |
| RelaySafety.Step | apps/edge-worker/src/lib.rs:186-357 | every atomic step of webhooks, pulls, imports, acknowledgements, retention, losses and crashes keeps the invariant |
| RelaySafety.Invariant | apps/edge-worker/src/lib.rs:186-357 | the invariant holds after every possible run |
| RelayTheorems.HistoryOfIds | apps/core-agent/src/edge_reconciler.rs:75-89 | the history fields record exactly what happened in the run: deliveries, committed imports, rows that were ever acknowledged |
| RelayTheorems.NoLoss | apps/core-agent/src/edge_reconciler.rs:76-89 | after any run an event delivered by a webhook is still held unacknowledged at the edge or a batch with it was committed; a row is acknowledged only after such a commit |
| RelayTheorems.AckSuccess | apps/core-agent/src/edge_reconciler.rs:173-185 | an acknowledgement whose count equals the ids sent means that every one of them was acknowledged, and imported before |
| RelayTheorems.AcknowledgedOnlyByOwner | apps/edge-worker/src/lib.rs:325-344 | only the lease owner's acknowledgement makes a row acknowledged, and after that the row never changes until retention deletes it |
| RelayTheorems.LeaseExclusive | apps/edge-worker/src/lib.rs:272-291 | however pulls interleave, two grants of one event never overlap in time |
| RelayTheorems.AttemptsCountGrants | apps/edge-worker/src/lib.rs:276-280 | attempts counts the grants of the event, minus those of rows that retention deleted |
| RelayTheorems.ImportedAtMostOnce | crates/storage/src/lib.rs:700-735 | insertions of an id into the inbox exceed its deletions by one while its row is there and equal them otherwise |
| RelayTheorems.Agreement | apps/edge-worker/src/lib.rs:186-228 | while no second version of an event is stored, all edge rows and inbox rows of an id equal its first version for ever, and no import is rejected |
| RelayTheorems.UnretainedFaithful | apps/edge-worker/src/lib.rs:248-258 | runs in which edge retention deletes nothing never store a second version |
| RelayProgress.LeasableIff | apps/edge-worker/src/lib.rs:264-280 | after any run a row can be leased exactly when it is unacknowledged and every grant of its event has run out |
| RelayProgress.RunOutIsListed | apps/edge-worker/src/lib.rs:259-270 | after any run the candidate list of any pull holds such events only, and all of them while there is room |
| RelayProgress.RunOutIsGranted | apps/edge-worker/src/lib.rs:272-303 | the leasing statement gives such an event to the owner of the pull that listed it, for its lease, and to its reply |
| RelayProgress.HeadCanFinish | apps/core-agent/src/edge_reconciler.rs:76-89 | from every reachable state the first unacknowledged event can be leased, imported and acknowledged, unless the inbox holds another version of it, leaving all other rows alone |
| RelayProgress.AllCanFinish | apps/core-agent/src/edge_reconciler.rs:76-89 | there is no dead end: from every state reached without a second version, whatever was lost, the run can go on to where every delivered event is imported and every row acknowledged |
| RelayConflict.ImportCanBeRejected | apps/edge-worker/src/lib.rs:206-226 | for any two arrival times that denote different instants and any wait beyond the retention period there is a run, with the events the webhook makes of one body delivered at the start and after the wait, in which the repeat is stored anew and its batch is rejected |
| RelayConflict.RejectedAfterAMonth | apps/edge-worker/src/lib.rs:206-226 | an instance with two RFC 3339 texts 31 days apart, delivered 31 days apart |
| RelayRejection.RejectedIff | crates/storage/src/lib.rs:700-735 | after every possible run a batch on its way is rejected exactly when the inbox holds another version of one of its events |
| RelayRejection.RejectedDrops | crates/storage/src/lib.rs:722-731 | a rejected import changes nothing but that its reconciler's batch is gone |
| RelayRejection.TimedRejectedIff | crates/storage/src/lib.rs:686-739 | the same with arrival times parsed and compared as instants: exactly when one of them does not parse or the inbox row of its event differs in more than its spelling |
| RelayRejection.RunsOncePerBatch | apps/edge-worker/src/lib.rs:259-303 | after every possible run no pull and no batch holds an event twice |
| InboxWork.WorkStore.CompleteEdgeEvent | crates/storage/src/lib.rs:1293-1309 | the row after a completion, which succeeds exactly on an unprocessed row |
| InboxWork.WorkStore.FailEdgeEvent | crates/storage/src/lib.rs:1332-1363 | the row after a failure: one more attempt, a later time, and dead-lettered exactly when the attempts reach the maximum; refused exactly on invalid values or a row not pending |
| InboxWork.WorkStore.ApplyRetention | crates/storage/src/lib.rs:1366-1384 | only rows processed longer ago than the days given are deleted |
| InboxWork.RunEdgeInteractionCycle | apps/core-agent/src/notification_worker.rs:1859-1932 | what one cycle does to the row handed out, for every way its event comes out: completed exactly when all of it was answered and the feedback delivery did not fail, left as it is when only that failed, otherwise one failed attempt of three or five |
| InboxWork.LeftAloneIff | apps/core-agent/src/notification_worker.rs:1909-1930 | the cycle leaves the row handed out as it is exactly when the feedback delivery failed after an event that parsed and did not break off |
| InboxWork.AnsweredAgain | apps/core-agent/src/notification_worker.rs:1909-1917 | an instance: a message that was answered stays ready, and is answered again, when the feedback delivery after it fails |
| InboxWork.NextIs | crates/storage/src/lib.rs:750-760 | the event handed out comes no later, by import and then sequence, than any that is pending, due and first of its chat |
| InboxWork.FailedIs | crates/storage/src/lib.rs:1345-1352 | a failed attempt is counted and the row waits for the delay; from the last attempt on it is dead-lettered and thereby processed |
| InboxWork.DelaysAre | apps/core-agent/src/notification_worker.rs:4817-4820 | the delays double from five seconds up to one minute, or to five |
| InboxWork.GivenUpIff | apps/core-agent/src/notification_worker.rs:1875-1930 | an unreadable event, or one whose answer broke off, is given up at the third failed attempt, a stopped one at the fifth |
| InboxWork.RetiredIs | crates/storage/src/lib.rs:1366-1377 | retention deletes only rows processed longer ago than the days given |
| InboxRuns.RelayUnderneath | crates/storage/src/lib.rs:686-739 | under every run of relay, consumers and retention lies a possible run of the relay, so that its theorems hold there |
| InboxRuns.StepKeeps | crates/storage/src/lib.rs:742-772 | every import, hand-out, report, loss and deletion keeps the invariant of the table |
| InboxRuns.NewRowIs | crates/storage/src/lib.rs:700-720 | a step of the relay leaves every row as it is, and a new row is untried and due at once |
| InboxRuns.SettledOnce | crates/storage/src/lib.rs:1293-1384 | for any number of consumers, every insertion of an event was completed, rejected or dead-lettered exactly once or is still pending; so nothing is deleted unsettled |
| InboxRuns.NothingSkipped | apps/core-agent/src/notification_worker.rs:1859-1932 | from the webhook to the end: after any run an event delivered is held at the edge unacknowledged, pending in the inbox, or settled |
| InboxRuns.ResultsBounded | crates/storage/src/lib.rs:1347-1352 | an event is reported on at most five times per insertion |
| InboxRuns.HandedOutInOrder | crates/storage/src/lib.rs:750-760 | if an event is handed out after a later one of its chat, it was inserted only after the later one was handed out |
| InboxRuns.HeadOfLine | crates/storage/src/lib.rs:750-760 | the first pending event of an aggregate can be handed out exactly when it is due, and until it is settled no later one can |
| InboxRuns.HeadCanSettle | apps/core-agent/src/notification_worker.rs:1859-1932 | from every reachable state the first pending event of an aggregate can be handed out and completed, changing no other row |
| InboxRuns.AllCanSettle | apps/core-agent/src/notification_worker.rs:1859-1932 | there is no dead end: whatever happened before, the run can go on to where every row has been processed |
| InboxRuns.CycleIsStep | apps/core-agent/src/notification_worker.rs:1859-1932 | what the consumer's cycle does to a row handed out is one step of these runs |
| PortalScan.UnobservedNoticeIds | apps/core-agent/src/portal.rs:189-223 | the scan succeeds exactly when its last page is within the limit and no page before it fails; it then returns, ascending, exactly the unobserved ids on the pages read |
| PortalScan.ScanPage | apps/core-agent/src/portal.rs:204-220 | one page adds exactly its unobserved ids and ends the scan exactly on an empty page, an observed notice or the last page |
| PortalScan.PagesAre | apps/core-agent/src/portal.rs:214-220 | the last page is the one that holds the last entry |
| PortalRuns.PortalStore.RunPortalCycle | apps/core-agent/src/notification_worker.rs:1080-1148 | the stored notices after a cycle: an archive into an empty store, the discovered ids in ascending order up to the first failure; when the cycle counts as failed, by the archive, the missing cursor, the scan, a notice or the body backfill; and its counts |
| PortalRuns.FoundIff | apps/core-agent/src/portal.rs:202-220 | a missing notice is returned by a successful scan exactly when no stored notice is listed on an earlier page |
| PortalRuns.ScanComplete | apps/core-agent/src/portal.rs:202-220 | without a gap a successful scan returns every missing notice above the baseline |
| PortalRuns.CompleteIff | apps/core-agent/src/portal.rs:214-220 | a successful scan returns every missing notice above the baseline exactly when no stored notice is listed on a page before that of such a missing one |
| PortalRuns.RunsTight | apps/core-agent/src/notification_worker.rs:1099-1138 | over any sequence of cycles, some aborted midway, what is still missing is newer than everything stored |
| PortalRuns.NoStrandedNotice | apps/core-agent/src/notification_worker.rs:1099-1138 | after any cycles without a skipped fetch the next successful scan returns, ascending, listed and missing notices only, among them every one newer than the oldest notice of the first archive |
| PortalRuns.CleanCycleCatchesUp | apps/core-agent/src/notification_worker.rs:1099-1138 | one successful scan whose notices are all stored leaves nothing above the baseline missing |
| PortalRuns.StrandedWhileShadowed | apps/core-agent/src/portal.rs:214-220 | over any cycles, a missing notice stays missing and unreturned while some stored notice stays listed on an earlier page |
| PortalRuns.SkippedIsStranded | apps/core-agent/src/notification_worker.rs:1213-1234 | a concrete skipped fetch, after which no scan of any later run returns the notice while the newer stored one is listed whenever it is |
| PortalRuns.DroppedFindsAgain | apps/core-agent/src/portal.rs:214-220 | once the Portal drops that newer notice, the scan returns the skipped one again |
| PortalPolling.JitterBounds | apps/core-agent/src/notification_worker.rs:1047-1064 | the jittered delay stays within the percentage window and is positive exactly when the base is |
| PortalPolling.JitterReaches | apps/core-agent/src/notification_worker.rs:1047-1064 | every delay in the window is taken for some seed |
| PortalPolling.SeedsFollow | apps/core-agent/src/notification_worker.rs:1047-1064 | the seed counts the milliseconds since 1970 |
| PortalPolling.TransitionSafe | apps/core-agent/src/notification_worker.rs:973-1045 | every transition keeps the mode, burst and cooldown constraint of the table and schedules the next poll later than this one |
| PortalPolling.NoTransitionIff | apps/core-agent/src/notification_worker.rs:973-1045 | there is no next state exactly when a rate limit asks for more than the longest duration, or the next poll or the end of a new burst lies beyond the last instant; otherwise the next poll is exactly the chosen wait away |
| PortalPolling.CooldownIs | apps/core-agent/src/notification_worker.rs:973-1000 | a failed poll waits for exactly the cooldown of its failure, a rate limit for what it asked, and is recorded under its name |
| PortalPolling.OutcomeIs | apps/core-agent/src/notification_worker.rs:1001-1045 | a successful poll is recorded as new notices exactly when it found some |
| PortalPolling.TransitionTiming | apps/core-agent/src/notification_worker.rs:973-1045 | a burst follows exactly a successful poll that found notices or falls within the burst; the wait stays within the jitter around the interval of the mode, and is at least what a rate limit asked for |
| PortalPolling.BurstEnds | apps/core-agent/src/notification_worker.rs:1001-1030 | quiet polls never extend a burst, and only as many fall into it as shortest delays fit into its duration |
| PortalPolling.SteadyAgain | apps/core-agent/src/notification_worker.rs:1033-1044 | from the first quiet poll after the end of the burst on, polling is steady |
| ScriptScanner.FindFirst | crates/crawler/src/facebook.rs:271-279 | the case-insensitive search finds the first match at or after the start, and none exactly when there is none |
| ScriptScanner.TagHasJsonType | crates/crawler/src/facebook.rs:281-334 | the cursor loops stay in bounds, end, and compute the recursive reading of the tag |
| ScriptScanner.ScanAttribute | crates/crawler/src/facebook.rs:284-332 | one round of the tag loop reads one attribute and moves the cursor forward |
| TagGrammar.TagAccepted | crates/crawler/src/facebook.rs:281-334 | for every well-formed printed attribute list, the tag is accepted exactly when some attribute is named type with value application/json, ignoring ASCII case |
| TagGrammar.ClassesAre | crates/crawler/src/facebook.rs:284-330 | which characters are white space, end a name, end an unquoted value and quote one |
| ScriptExtraction.ExtractJsonScripts | crates/crawler/src/facebook.rs:336-356 | the cursor loop returns the contents of exactly the JSON script elements, in order |
| ScriptExtraction.ScriptsAppend | crates/crawler/src/facebook.rs:336-356 | text appended to a page whose scan settles is scanned as if it stood alone |
| Snapshot.Escape | apps/browser-agent/src/post.ts:634-640 | escaped JSON holds no opening angle bracket |
| JsonText.EscapeKeepsMeaning | apps/browser-agent/src/post.ts:634-640 | escaping the opening angle brackets of valid JSON leaves its tokens unchanged |
| JsonText.UnitsAre | apps/browser-agent/src/post.ts:634-640 | inside a string a character stands for itself and an escape for its code unit, as section 7 of RFC 8259 has it |
| JsonText.TextIsUnits | apps/browser-agent/src/post.ts:634-640 | a quoted text without quotes, backslashes and control characters is read as its characters |
| Snapshot.OpenText | apps/browser-agent/src/post.ts:689-698 | the printed tags are, character for character, those of the agent's template |
| Snapshot.OpenIsGood | apps/browser-agent/src/post.ts:686-702 | the opening tags the agent prints are single well-formed tags that the crawler accepts as JSON |
| Snapshot.PrintedBlock | apps/browser-agent/src/post.ts:686-702 | a printed block is read back as one element with exactly its payload |
| SnapshotRoundTrip.AppendGraphqlSnapshot | apps/browser-agent/src/post.ts:682-704 | the loop appends the normalized block and then, greedily in order, the payloads that still fit |
| SnapshotRoundTrip.BlockRecovered | crates/crawler/src/facebook.rs:340-354 | an appended block is read back in its place exactly when the page's scan settles, or the page ends inside a script tag that the appended one turns into a JSON tag |
| SnapshotRoundTrip.SnapshotRead | apps/browser-agent/src/post.ts:682-704 | the crawler reads from a settled page its own scripts followed by exactly the appended payloads, in order |
| SnapshotRoundTrip.SnapshotReadIff | crates/crawler/src/facebook.rs:340-354 | when anything is appended, the crawler reads exactly that after the page's own scripts exactly when the page's scan settles or ends inside a script tag that the first appended tag completes to a JSON one |
| SnapshotRoundTrip.OpenScriptSwallows | crates/crawler/src/facebook.rs:340-354 | an instance: whatever is appended to the page `<script>`, the crawler does not read all of it back |
| SnapshotRoundTrip.SnapshotBounded | apps/browser-agent/src/post.ts:692-702 | at most 4 MiB of scripts are appended, whatever was captured |
| SnapshotRoundTrip.FitAllIff | apps/browser-agent/src/post.ts:697-702 | every payload is appended exactly when all of them fit together |
| PostMerge.PreferredIs | apps/browser-agent/src/post.ts:101-108 | the preferred id is the first numeric one of those given, else the first plausible one, and missing exactly when none is plausible |
| PostMerge.CombineKeepsKey | apps/browser-agent/src/post.ts:582-607 | merging two posts of one key gives a post of that key |
| PostMerge.CombineAssociates | apps/browser-agent/src/post.ts:597-607 | merging posts is associative |
| PostMerge.MergeGraphqlPosts | apps/browser-agent/src/post.ts:580-618 | the map loop followed by the sort computes the fold by key in order of first occurrence, newest first |
| PostMerge.SortSorts | apps/browser-agent/src/post.ts:609-617 | the sort yields the same posts, newest first, posts without a time last |
| PostMerge.SortStable | apps/browser-agent/src/post.ts:609-617 | posts of one time keep their order |
| CaptureRuns.MergeMeaning | apps/browser-agent/src/post.ts:580-618 | a merge is newest first, has one post per key, and folds to what its input folds to |
| CaptureRuns.MergeIdempotent | apps/browser-agent/src/post.ts:580-618 | merging a merge changes nothing, not even the order |
| CaptureRuns.MergedLatest | apps/browser-agent/src/post.ts:590-605 | a merged post has the url and time of the latest post of its key, the last of several equally late |
| CaptureRuns.MergedLongest | apps/browser-agent/src/post.ts:599-602 | a merged post has the longest text of its key, the first of several |
| CaptureRuns.IncrementalMerge | apps/browser-agent/src/post.ts:727-730 | merging a merge with a merged batch keeps what merging everything at once keeps |
| CaptureRuns.MergeSize | apps/browser-agent/src/post.ts:580-618 | a merge has exactly as many posts as there are different keys |
| CaptureRuns.CollapseIff | apps/browser-agent/src/post.ts:583-589 | two posts become one exactly when their keys are equal: their ids, else their locators, else their URLs |
| CaptureRuns.LocatorsCollapse | apps/browser-agent/src/post.ts:583-589 | with the agent's locator, two posts without ids become one exactly when their locators are equal, as the fallback to the URL is never reached |
| CaptureRuns.IdsCollapse | apps/browser-agent/src/post.ts:583-589 | posts with ids become one exactly when the ids are equal, and a post with an id absorbs one without exactly when the id is that one's locator |
| CaptureRuns.PostLocatorIs | apps/browser-agent/src/post.ts:904-914 | the locator is the story id if there is one, else what follows the first marker of the path, else empty |
| CaptureRuns.LocatorEmptyIff | apps/browser-agent/src/post.ts:904-920 | a URL has the empty locator exactly when it carries no story id and no path segment follows a marker |
| PostUrls.HasMarkerIff | apps/browser-agent/src/post.ts:308-310 | the path filter accepts a path exactly when some part between two slashes is a marker in any letter case |
| PostUrls.KeptIff | apps/browser-agent/src/post.ts:298-312 | a URL is kept exactly when its host is Facebook's and its path is the permalink's or has a marker between two slashes |
| PostUrls.KeptLocatorEmptyIff | apps/browser-agent/src/post.ts:298-324 | of the URLs the agent keeps, exactly these have the empty locator: a permalink without both parameters, or a path whose every marker, in any letter case, is last or not in small letters |
| PostUrls.PostIdIff | apps/browser-agent/src/post.ts:545-577 | a post made from signals has no id exactly when no candidate id and no locator is plausible; it then stands at a kept URL or at one built from its locator |
| PostUrls.PostIs | apps/browser-agent/src/post.ts:545-577 | a post has the latest of the times, one of the longest texts, and the matching URL if it is of the source page itself, else one built from its locator, else one built from the id |
| PostUrls.LongestIs | apps/browser-agent/src/post.ts:569-570 | of several longest texts it is the first |
| PostUrls.PlausibleIs | apps/browser-agent/src/post.ts:97-99 | an id is plausible exactly when it is eight digits or more, or pfbid in any letter case followed by letters and digits |
| PostUrls.NoLocatorCollapseIff | apps/browser-agent/src/post.ts:583-589 | a post without id at a kept URL without locator is merged with exactly those whose kept URL has none either |
| PostUrls.OverviewsCollapse | apps/browser-agent/src/post.ts:545-589 | an instance: the posts the agent makes at a page's video and reel overviews have different URLs and no id, and are merged into one |
| PostUrls.PhotoNotKept | apps/browser-agent/src/post.ts:307-312 | a photo's URL is not kept, so no such post arises from it |
| GraphqlCapturing.GraphqlCapture.Collect | apps/browser-agent/src/post.ts:711-752 | one response: the posts kept and cut to 100, the payloads kept within the count, duplicate and byte budgets |
| GraphqlCapturing.CapturedListed | apps/browser-agent/src/post.ts:727-730 | whatever was captured, at most 100 posts are kept, newest first, one per key |
| GraphqlCapturing.NewestKept | apps/browser-agent/src/post.ts:727-730 | of more than 100 merged posts the first 100 are kept, and none that is dropped is newer than one kept |
| GraphqlCapturing.CaptureIsMerge | apps/browser-agent/src/post.ts:727-730 | capturing response by response keeps what one merge of all posts keeps, exactly while at most 100 different posts were seen |
| GraphqlCapturing.AllAppendedIff | apps/browser-agent/src/post.ts:692-702 | every captured payload reaches the snapshot exactly when payloads, their tags and the normalized block fit into 4 MiB together |
| GraphqlCapturing.BudgetsNotEnough | apps/browser-agent/src/post.ts:739-743 | the capture budget alone does not ensure it: with both budgets full some payload is dropped |
| GraphqlCapturing.FullBudgetsOccur | apps/browser-agent/src/post.ts:692-702 | both budgets can be full at once: whatever encloses the normalized text, some text fills it while two captured payloads fill theirs, and then not all is appended |
| GraphWalk.Walker.WalkGraph | crates/crawler/src/facebook.rs:358-504 | the recursive walk computes the accumulators and the visit counter of the functional walk |
| GraphWalk.GatherPosts | crates/crawler/src/facebook.rs:570-582 | the loop over the scripts gathers what the parsed ones give, each with its own node budget, and counts parsed and malformed ones |
| GraphItems.ContributionSource | crates/crawler/src/facebook.rs:398-478 | an object contributes exactly the items with a source in it: positive times, canonical post permalinks, texts of at least 20 characters with the score of their key, external links, and media only inside an attachment |
| GraphSources.OwnIdIs | crates/crawler/src/facebook.rs:384-388 | the own id of an object is its post_id when that is a text or a number, and its top_level_post_id, read the same way, exactly when there is no post_id |
| GraphSources.OwnIdGathers | crates/crawler/src/facebook.rs:384-478 | within the limits, an object with a numeric id of its own, from either member, has each item with a source in it gathered under that id |
| GraphSources.TopLevelGathers | crates/crawler/src/facebook.rs:384-402 | an instance: the time of an object that only names its top-level post |
| GraphSources.MessageTextIs | crates/crawler/src/facebook.rs:223-236 | a message is a text or an object with one, without the white space around it, unless nothing is left |
| GraphSources.LooksLikePostIff | crates/crawler/src/facebook.rs:406-417 | a link counts as a post's exactly when it contains one of the four marks |
| GraphSources.NestedUriIs | crates/crawler/src/facebook.rs:250-268 | the nested URI is the http URI at the first path that leads to one, with escaped slashes replaced |
| GraphSources.MediaKindIs | crates/crawler/src/facebook.rs:441-453 | a medium is a video or an image by its type name, ignoring ASCII case, which media_type gives only when there is no __typename |
| GraphSources.MediaUrlIs | crates/crawler/src/facebook.rs:454-470 | its URL is the nested one; only a video without one may name its file, by playable_url or, without that, browser_native_hd_url |
| GraphSources.InAttachmentIff | crates/crawler/src/facebook.rs:482-500 | a node lies in an attachment exactly when its path leaves some object by one of the five attachment keys |
| GraphMeaning.WalkTakes | crates/crawler/src/facebook.rs:366-369 | the walk records exactly the first nodes in preorder that depth and node limits allow |
| GraphMeaning.PreorderHasPath | crates/crawler/src/facebook.rs:372-381 | every node visited lies at the end of a path of at most 128 steps |
| GraphMeaning.PathInPreorder | crates/crawler/src/facebook.rs:482-500 | every node at the end of such a path is due a visit |
| GraphMeaning.VisitMeaning | crates/crawler/src/facebook.rs:384-396 | the id and attachment flag carried down are the nearest plausible id and the attachment keys found going up |
| GraphMeaning.WalkMeaning | crates/crawler/src/facebook.rs:358-504 | never more than 200,000 visits; everything gathered comes from an object and its nearest plausible id; within the limits exactly what all objects give is gathered, whatever their order |
| GraphOrder.OrderIrrelevant | crates/crawler/src/facebook.rs:358-504 | two scripts within the limits that differ only in the order or repetition of array elements, at any depth, give the same accumulators |
| GraphMeaning.GatheredMeaning | crates/crawler/src/facebook.rs:570-582 | the scripts of a page add up to what each gives, in whatever order they come |
| CaptureToCrawl.CapturedPostCrawled | apps/browser-agent/src/post.ts:659-704 | end to end: a complete captured post with a numeric id reaches the crawler's accumulators under that id with its time and text, whatever else the page and the responses hold |
| CaptureToCrawl.OnlyNumericIds | crates/crawler/src/facebook.rs:393-397 | whatever the scripts hold, nothing is gathered under an id that is not eight digits or more |
| CaptureToCrawl.PostGivesIff | crates/crawler/src/facebook.rs:384-396 | a normalized post, its message and all else in it contribute to its own id if that is numeric, and otherwise to no id at all |
| CaptureToCrawl.CapturedPostCrawledIff | apps/browser-agent/src/post.ts:659-704 | end to end: a complete captured post's time and text reach the accumulators of its id exactly when that id is numeric |
| CaptureToCrawl.PfbidDiffers | apps/browser-agent/src/post.ts:97-99 | an instance of an id the agent takes for a post id and the crawler does not |
| CaptureToCrawl.RootNodes | apps/browser-agent/src/post.ts:666-685 | the normalized block stays within the crawler's node limit |
| StrategyCircuit.StrategyCircuitBreaker.constructor | apps/core-agent/src/strategy_circuit.rs:41-70 | every configured strategy starts at the threshold and open when its last sample in the history holds enough attempts and no healthy one, or with no deadline where that one is out of range, and fresh otherwise; all later results start from such states |
| StrategyCircuit.StrategyCircuitBreaker.Select | apps/core-agent/src/strategy_circuit.rs:72-88 | the states after a selection; enabled and skipped are the names admitted and not, in order |
| StrategyCircuit.StrategyCircuitBreaker.Observe | apps/core-agent/src/strategy_circuit.rs:90-111 | the states after an observation of several strategies |
| StrategyCircuit.StrategyCircuitBreaker.RecordFailure | apps/core-agent/src/strategy_circuit.rs:136-142 | the saturating count and the deadline after a failure |
| StrategyCircuit.StrategyCircuitBreaker.Snapshots | apps/core-agent/src/strategy_circuit.rs:113-134 | one snapshot for every strategy: half open exactly while a probe is out, open exactly before the deadline, with the whole seconds remaining, closed otherwise |
| CircuitHistory.RunProjects | apps/core-agent/src/strategy_circuit.rs:72-111 | over any calls the state of a strategy depends only on the selections and observations that named it |
| CircuitHistory.HistoryExplains | apps/core-agent/src/strategy_circuit.rs:72-142 | for every history: the failures are those since the last healthy outcome, saturated, with the seed before one; the deadline is the last failure plus the cooldown; a probe is out exactly when a selection at or after the deadline is unanswered |
| CircuitHistory.DeadlineIs | apps/core-agent/src/strategy_circuit.rs:136-142 | with the threshold reached the circuit is open for exactly the cooldown after the last failure, or not at all beyond the last instant |
| CircuitHistory.AdmittedExactly | apps/core-agent/src/strategy_circuit.rs:77-86 | a strategy is admitted exactly when its circuit is closed, or its deadline has passed and no selection since its last observation was at or after it |
| CircuitHistory.CircuitInvariant | apps/core-agent/src/strategy_circuit.rs:136-142 | an open circuit has reached the threshold and a probe is out only while it is open; while deadlines can be represented, reaching the threshold means being open |
| CircuitHistory.WasProbeIrrelevant | apps/core-agent/src/strategy_circuit.rs:139-141 | whether the failing task was the probe never matters |
| CircuitHistory.OneProbeAtATime | apps/core-agent/src/strategy_circuit.rs:77-86 | after a granted probe no selection is admitted until the next observation |
| CircuitHistory.ReadmittedAtDeadline | apps/core-agent/src/strategy_circuit.rs:77-86 | an observed open strategy is admitted again exactly from its deadline on |
| CircuitHistory.ChosenSplits | apps/core-agent/src/strategy_circuit.rs:72-88 | enabled and skipped split the input |
| CircuitHistory.MaskIs | apps/core-agent/src/strategy_circuit.rs:75-86 | each name is admitted by the state the names before it left |
| CircuitHistory.SnapshotTells | apps/core-agent/src/strategy_circuit.rs:113-134 | after any history a snapshot reads closed exactly when the next selection would admit the strategy |
| TelegramUpdates.ProcessInteractionUpdates | apps/core-agent/src/notification_worker.rs:1631-1836 | in both modes a batch is complete exactly when replied and ignored add up to received, exactly when every selected interaction passed; it fails exactly when a store update fails after the first interaction that does not pass was sent; the counters of a complete batch, and those of one abandoned at an interaction, which is processed but neither replied nor ignored |
| TelegramUpdates.SelectInteractions | apps/core-agent/src/notification_worker.rs:1639-1660 | the interactions chosen and the updates ignored add up to the batch, without the saturating subtraction ever saturating |
| TelegramUpdates.InteractionIs | apps/core-agent/src/notification_worker.rs:1838-1857 | an update is answered exactly when it is a private text message, or else a button pressed in a private chat; the answer is to the message's text or to the button's data, in that chat |
| TelegramUpdates.InteractionsAre | apps/core-agent/src/notification_worker.rs:1639-1660 | the interactions of a batch are those of its updates, one after the other |
| TelegramUpdates.PassesIff | apps/core-agent/src/notification_worker.rs:1680-1790 | an interaction passes exactly when it is not admitted, or was sent or never can be and its outcome was stored |
| TelegramUpdates.SelectedMeaning | apps/core-agent/src/notification_worker.rs:1642-1653 | the first batch answers each chat once, with its last interaction, oldest update first; later batches answer every interaction |
| TelegramUpdates.MaxIdIs | apps/core-agent/src/notification_worker.rs:1526-1530 | the id the offset moves past is the largest of the batch |
| TelegramUpdates.NextUpdateIdIs | apps/core-agent/src/notification_worker.rs:1526-1536 | the offset to move to is one past the largest id, unless that is the last number there is |
| TelegramUpdates.RunInteractionCycle | apps/core-agent/src/notification_worker.rs:1504-1556 | the stored offset moves past a batch exactly when it completed, the feedback delivery after it did not fail and the offset is not negative, and never back |
| TelegramUpdates.UpdateState.Advance | crates/storage/src/lib.rs:2823-2847 | a negative offset is refused; otherwise the stored offset is the larger of the old and the new one |
| TelegramOffset.Invariant | apps/core-agent/src/notification_worker.rs:1504-1556 | the invariant behind the offset over any run of overlapping, failing and crashing cycles |
| TelegramOffset.NothingSkipped | apps/core-agent/src/notification_worker.rs:1549-1554 | every update below the stored offset belonged to a completed batch |
| TelegramOffset.OffsetMonotone | crates/storage/src/lib.rs:2835-2838 | the offset never decreases over a run |
| TelegramOffset.FutureStaysAhead | apps/core-agent/src/notification_worker.rs:1526-1530 | no update that is still to come lies below the offset |
| TelegramOffset.FinishCycle | apps/core-agent/src/notification_worker.rs:1504-1556 | what the polling cycle does to the stored offset is the protocol's Finish action, completed or not |
| Amounts.FormatVnd | apps/core-agent/src/notification_worker.rs:4695-4706 | the digit loop prints the number in groups of three from the right |
| Amounts.GroupedParses | apps/core-agent/src/notification_worker.rs:3907-3931 | the group parser undoes the grouping of any digits |
| Amounts.ParsedRegroups | apps/core-agent/src/notification_worker.rs:3907-3931 | grouping undoes the parser on every dotted text it accepts |
| Amounts.AmountRoundTrip | apps/core-agent/src/notification_worker.rs:3876-3905 | a printed 64-bit amount parses back exactly when it is from 10,000 to 10,000,000, and is rejected otherwise |
| Amounts.ThousandsAmount | apps/core-agent/src/notification_worker.rs:3891-3899 | digits before a k stand for thousands, within the same limits |
| Amounts.SeparatorsAlike | apps/core-agent/src/notification_worker.rs:3907-3931 | dots, commas and underscores group digits alike |
| Amounts.MixedRejected | apps/core-agent/src/notification_worker.rs:3914-3919 | two kinds of separators in one text are rejected |
| Amounts.CurrencyDropped | apps/core-agent/src/notification_worker.rs:3886-3890 | each of the four ways to write the currency is dropped |
| CommandLinks.LinkDispatches | apps/core-agent/src/notification_worker.rs:3511-3858 | no earlier arm takes a printed command away from its own, for ids up to the largest signed and pages up to the largest unsigned 64-bit number |
| CommandLinks.LinkRoundTrip | apps/core-agent/src/notification_worker.rs:3511-3858 | every numbered command printed in messages and keyboards parses back to what it stands for, with or without the bot's name |
| CommandLinks.DonateRoundTrip | crates/delivery/src/lib.rs:1195-1220 | the donation buttons' commands are read as their amounts, others answered with the usage hint |
| CommandLinks.ButtonRoundTrip | crates/delivery/src/lib.rs:1214-1289 | the buttons without a number (onboarding, settings, start, stop, custom amount) parse back to what they stand for, with or without the bot's name |
| CommandWords.SpacedRoundTrip | apps/core-agent/src/notification_worker.rs:3560-3858 | a number after a space means what it means after an underscore |
| CommandWords.DecisionIs | apps/core-agent/src/notification_worker.rs:3932-3950 | approving names an entry and rejecting gives a reason, each after its number, the words joined by single spaces |
| CommandWords.ReasonIs | apps/core-agent/src/notification_worker.rs:3775-3835 | what follows the number of a skipped or decided entry is the reason |
| CommandWords.FreeTextIs | apps/core-agent/src/notification_worker.rs:3694-3703 | feedback is the text after the command, a suggestion its first word, and a start parameter counts if it is valid |
| CommandWords.StartParameterIs | apps/core-agent/src/notification_worker.rs:3860-3874 | a start parameter is valid exactly with one to 64 letters, digits, underscores and hyphens |
| CommandWords.KeyboardRoundTrip | crates/delivery/src/lib.rs:1154-1184 | the labels of the bot's keyboard are read as what they say |
| CommandWords.BadPageIs | apps/core-agent/src/notification_worker.rs:3560-3858 | a page that cannot be read, or is zero, is the first |
| CommandWords.BadIdIs | apps/core-agent/src/notification_worker.rs:3560-3858 | a number after a command that cannot be read or is not positive is answered with a hint |
| CommandWords.AddressIs | apps/core-agent/src/notification_worker.rs:3852-3855 | an http or https address alone is a suggestion of it |
| Calendar.NextDayNumber | crates/classifier/src/lib.rs:327-328 | the day numbers count the days of the calendar one by one |
| Calendar.MonthsAre | crates/classifier/src/lib.rs:327-328 | the months have their lengths, with the leap days of 1900, 2000, 2023 and 2024 |
| Calendar.InferredIsNearest | crates/classifier/src/lib.rs:323-335 | an inferred date is the day asked for, within 183 days of today, and at most one day farther than the same day of any other year |
| Calendar.NotInferredIff | crates/classifier/src/lib.rs:323-335 | no date is inferred exactly when the texts are not numbers, the day does not exist in today's year, or the year to move to has no such day: for 29 February, or beyond the calendar |
| Metrics.ValidateDataset | crates/classifier/src/evaluation.rs:159-179 | a dataset passes exactly when it has the schema version, at least one case, distinct ids, and no blank id or text |
| Metrics.Evaluate | crates/classifier/src/evaluation.rs:69-155 | a report is given exactly when the dataset is valid, its times parse and every case can be classified; it counts what the cases and the classifier's decisions say and lists the mismatches in order |
| Metrics.ClassifiedIs | crates/classifier/src/evaluation.rs:84-97 | a case is classified at its own time if it gives one, which must then parse, and otherwise at the dataset's |
| Metrics.CountIs | crates/classifier/src/evaluation.rs:98-125 | each count is the number of cases with the decisions it stands for |
| Metrics.CountsFit | crates/classifier/src/evaluation.rs:84-112 | the four confusion counts add up to the cases and to the expected and predicted totals; exact matches and failures add up to the cases |
| Metrics.F1Between | crates/classifier/src/evaluation.rs:137-150 | the floored F1 lies between the floored precision and recall while its product does not saturate |

## Left out

- HTTP, D1, PostgreSQL, Telegram, payOS and browser drivers, authentication and signature checks: only their outcomes appear.
- Payment webhooks and the donation ledger: another consumer of the same event path.
- URL parsing and printing, the owner of a post among its signals, message wording, keyboards and the texts of usage hints.
- Building a reply to a command, including what it stores: only whether a reply was built, sent and recorded.
- The choice of a post from its accumulators (hints, matching URLs, content hash).
- `collectGraphqlSignals` and `candidateScopes`, the walk that finds posts in a response: their results are the input of the merge.
- Keyword rules and scores of the classifier.
- A portal listing that changes while it is scanned: each scan sees one listing.
- Portal attachments; of the initial archive and the body backfill only what they store, skip or fail at.
- Telegram's expiry of updates after a day, and update ids that do not grow.
- The edge worker's free choice among candidates with equal sequence and time is kept; the D1 clock's one-second rounding within a request is not.
- EdgeTable.EdgeWorker.PersistEvent: keeps the sequence exactly; the worker binds it as a 64-bit float, which rounds above 2^53.
- InboxRuns.HandedOutInOrder: does not promise that events are imported in the order of their sequence, which the edge does not ensure while leases overlap.
- PortalRuns.NoStrandedNotice: assumes that no fetch is skipped and that new notices have larger ids; SkippedIsStranded shows that the first cannot be dropped, FoundIff what holds without either.
- PortalRuns.FoundIff: assumes a listing in descending order, newest first.
- RelayTheorems.Agreement: assumes that no second version is stored after edge retention; ImportCanBeRejected shows why, RejectedIff what holds without it.
- RelayRejection.RejectedIff: compares arrival times as texts, as the whole protocol does; TimedRejectedIff compares instants.
- SnapshotRoundTrip.SnapshotRead: assumes a page whose scan settles; SnapshotReadIff gives the exact condition.
- PortalPolling.BurstEnds: speaks of polls without errors, as an error ends the burst.
- CaptureToCrawl.CapturedPostCrawled: assumes that the normalized text parses to the value it was printed from, within 1 MiB.
- Metrics.F1Between: assumes that twice the hits times 10,000 fits a 64-bit word, as for any dataset that fits in memory; SaturatedF1 shows a count, too large for one, where the bounds fail.
- TelegramOffset.NothingSkipped: assumes that Telegram returns the earliest updates at or above the offset asked for.
