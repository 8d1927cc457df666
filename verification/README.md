# rpa_recorder: a Dafny model of its stateful core

The Python package `rpa_recorder` records what a person does in a browser, cleans and labels the
recorded actions, stores them in layers, replays them, and streams progress to web clients. This
project models the parts of it whose correctness depends on interleavings, on several passes
working together, or on state kept over a whole run, and proves what those parts promise.

The files follow the system:

- `HeuristicRules`, `HeuristicEngine`: the filter, normalize, filter, classify pipeline, once as
  functions on lists and once as the loops over a shared context. `Bursts` gives coalescing its
  meaning (cut the list into maximal bursts, keep one action of each), `Cleaning` says what the whole
  pipeline keeps, `Survivors` what becomes of each kind of action in terms of its recorded fields,
  `RepeatedVisits` when it leaves a repeated navigation, `FocusBlur` when one pass of the focus/blur
  filter is enough.
- `EventLog`, `Mailbox`, `RunStream`, `RefCounts`, `Deliveries`, `Service`, `StreamManager`: published
  events, one subscriber's dedup window and bounded queue, and the step system of publisher, channel
  readers, attaching, backfilling and leaving subscribers: what never happens, and what always still can.
- `Recorder`, `BronzeDrain`: capture, the bounded bronze queue, and the batching drain with its
  sentinel and its cancellation. `Envelopes` and `Text` hold what captured envelopes and JSONL files are.
- `Silver`, `Compact`: the two copies derived from the bronze log, resumed from a row count and
  skipped by a row count. `Pipeline` follows a recording from the page into both.
- `Pages`, `Recovery`, `Executor`, `Trace`: resolving selectors, cost-ordered recovery with
  verification, the replay loop, and the grammar of the event trace as a reader of the stream.
- `JobPool`: the in-process job pool. `Budget`, `ResponseCache`, `Backoff`: the LLM tier's daily
  budget, response cache and retry policy.

Code that updates objects is a class whose methods are tied to a function of the old state; code that
interleaves at awaits is a step system in which a step that is not enabled does nothing, so that a
lemma about every list of steps is a lemma about every interleaving. No proof uses automatic
induction: every lemma carries `{:induction false}` and spells its induction out.

## Assumptions

- A publish (PUBLISH, LPUSH, LTRIM) is one atomic step although the pipeline is opened with
  `transaction=False`; a SUBSCRIBE takes effect at some moment before its await returns; Redis, the
  disk and the event emitter do not fail; event ids that are made up are new and not empty.
- Times are whole microseconds, money and delays are reals, identifiers are opaque and distinct.
- The JSON library, the validating model constructors, URL canonicalization, the strategies of the
  recovery engine, browser operations and classify rules are parameters: arbitrary functions of
  their inputs and, where they act on the page, of the page.
- Executor and recovery engine share one event emitter, as `src/rpa_recorder/queues/replay_handler.py:74-93` wires them.
- `stop()` cancels the drain task at most once; promotion is the only writer of a recording's silver rows.
- A job handler ends by returning, by raising an `Exception`, or by cancellation.

## Where code and documentation differ

- The docstring of `subscribe` says backfill comes before the subscription. The code attaches first;
  that is what `RunStream.NoGaps` rests on, and it gives no chronological order.
- The module's docstring has the dedup window suppress the duplicates of backfill and subscription. It
  does while the run has no more events than the window (`Deliveries.NoDuplicates`), not beyond
  (`Deliveries.SmallWindowDuplicates`).
- A Parquet file is not always as new as the last compaction that read the log: one that read less can
  write last (`Compact.CompactionCanGoBack`). The next one on its own repairs it.
- `_envelope_to_row` is documented as a mirror of the recorder's `_build_action`. It also refuses a payload
  that is no object, which the recorder takes where the payload's constructor does, as for a key press
  (`Silver.MirrorsRecorderIff`).
- `promote_bronze_to_silver` is documented as idempotent. `Silver.IdempotentIff` gives the exact
  condition and `Silver.RerunCanDuplicate` a log that breaks it.
- The pool keeps ended jobs with their terminal status for `queue_size`. A job cancelled before its
  handler starts gets no terminal status and is counted for ever (`JobPool.LostJobsStayListed`).
- The focus/blur filter is not idempotent; `FocusBlur.OnePassIsEnoughIff` says exactly when it is. The
  pipeline can leave two equal navigations next to each other; `RepeatedVisits.RepeatsRemainIff` says
  exactly when.
- A coalesced action carries the last follower's value before trimming, because followers are read
  from the unnormalized list (`Bursts.MergedValueIsAsRecorded`).

## Model

| member | source | states |
|---|---|---|
| `HeuristicEngine.FilterPipeline.Apply` | src/rpa_recorder/classifier/heuristic/engine.py:53-75 | the loop over a shared context returns exactly the actions every rule keeps, in order |
| `HeuristicEngine.ScanFollowers` | src/rpa_recorder/classifier/heuristic/normalizers/coalesce_input_bursts.py:40-54 | the scan finds every rapid follower and the last one's value |
| `HeuristicEngine.CoalesceBursts` | src/rpa_recorder/classifier/heuristic/normalizers/coalesce_input_bursts.py:27-63 | the rule returns the action and leaves the scratch marks that the specification function describes, in every branch |
| `HeuristicEngine.NormalizePipeline.Apply` | src/rpa_recorder/classifier/heuristic/engine.py:84-97 | each action goes through all rules in order against the list as it was before the pass; length is kept |
| `HeuristicEngine.Classify` | src/rpa_recorder/classifier/heuristic/engine.py:110-138 | the earliest rule with the strictly greatest confidence above the floor decides; the default only if there is none |
| `HeuristicEngine.Engine.Clean` | src/rpa_recorder/classifier/heuristic/engine.py:154-164 | the three passes over the shared context return the cleaned list |
| `HeuristicEngine.Engine.Process` | src/rpa_recorder/classifier/heuristic/engine.py:154-171 | one verdict for each action of the cleaned list, computed against that list |
| `HeuristicRules.Trim` | src/rpa_recorder/classifier/heuristic/normalizers/trim_input_value.py:20-31 | a non-sensitive typed value becomes the stripped one; everything else, a sensitive value included, is unchanged |
| `Text.StripMeaning` | src/rpa_recorder/classifier/heuristic/normalizers/trim_input_value.py:20-31 | stripping drops outer whitespace only, and all of it; a value is left alone iff it had none |
| `Text.StripEmptiesBlanks` | src/rpa_recorder/classifier/heuristic/normalizers/trim_input_value.py:20-31 | trimming yields the empty value exactly for blank values |
| `Bursts.BurstsPartition` | src/rpa_recorder/classifier/heuristic/normalizers/coalesce_input_bursts.py:40-54 | the cut consists of bursts, is maximal, and flattens back to the list |
| `Bursts.NormalizePassMeaning` | src/rpa_recorder/classifier/heuristic/engine.py:84-97 | after the pass every action is in normal form and exactly the non-first members of the maximal bursts are marked |
| `Bursts.CoalescingIsSegmentation` | src/rpa_recorder/classifier/heuristic/filters/drop_coalesced_followers.py:22-26 | marking in one pass and dropping in a later one equals keeping one merged action for each maximal burst |
| `Bursts.MergedValueIsAsRecorded` | src/rpa_recorder/classifier/heuristic/normalizers/coalesce_input_bursts.py:40-63 | a burst of two or more carries its last member's value as recorded, which is the trimmed one iff that value had no outer whitespace |
| `Bursts.MergedValueCanBeUntrimmed` | src/rpa_recorder/classifier/heuristic/engine.py:84-97 | an input for which the normalize pass, trimming included, leaves outer whitespace |
| `Cleaning.TypedInputIsNeverLost` | src/rpa_recorder/classifier/heuristic/engine.py:154-171 | every enabled input whose value trimming does not empty is in the cleaned list itself or through the leader of its burst |
| `Cleaning.SurvivesSecondPass` | src/rpa_recorder/classifier/heuristic/engine.py:159-165 | the leader of a burst of two or more is kept by the second pass even if its merged value is empty |
| `Cleaning.CleaningThins` | src/rpa_recorder/classifier/heuristic/engine.py:154-171 | with any rules the output is an order-keeping subsequence that differs only in payloads |
| `Cleaning.DuplicateNavigateIsFixpoint` | src/rpa_recorder/classifier/heuristic/filters/drop_duplicate_navigate.py:31-40 | one pass of the filter alone keeps the first of every repeat, leaves no adjacent repeat, and a second pass changes nothing |
| `RepeatedVisits.RepeatsRemainIff` | src/rpa_recorder/classifier/heuristic/engine.py:154-171 | for every list: the pipeline leaves two adjacent equal navigations iff, between its filter passes, two visits to one URL have only stray blank inputs between them, at least one |
| `RepeatedVisits.RepeatsAreMeetings` | src/rpa_recorder/classifier/heuristic/engine.py:53-75 | whatever a pass keeps has an adjacent repeat exactly where two kept visits have nothing kept between them |
| `RepeatedVisits.PipelineCanLeaveRepeats` | src/rpa_recorder/classifier/heuristic/engine.py:154-171 | a visit, an input of spaces, the same visit again: the repeat stays |
| `Survivors.OnlyUsableIsLeft` | src/rpa_recorder/classifier/heuristic/filters/drop_disabled_target.py:21-23 | every action the default pipeline leaves has no element state or one recorded as enabled |
| `Survivors.PlainSurvivesIff` | src/rpa_recorder/classifier/heuristic/engine.py:154-171 | an action that is neither a typed input nor a navigation is left, unchanged, iff its element was not recorded as disabled |
| `Survivors.FirstVisitSurvives` | src/rpa_recorder/classifier/heuristic/filters/drop_duplicate_navigate.py:31-40 | the first visit to an address is left, a typed address in canonical form |
| `Survivors.RepeatedVisitIsGone` | src/rpa_recorder/classifier/heuristic/filters/drop_duplicate_navigate.py:31-40 | a visit right behind one to the same address is not |
| `Survivors.StrayInputIsGone` | src/rpa_recorder/classifier/heuristic/filters/drop_focus_blur_only.py:23-39 | neither is an empty input without a later input on its selector within two seconds |
| `Survivors.TwoInputsMergeIff` | src/rpa_recorder/classifier/heuristic/normalizers/coalesce_input_bursts.py:40-63 | two inputs with text on one selector come out as one, with the second value, iff at most 200 ms lie between; else both come out trimmed |
| `FocusBlur.FollowUpIsNext` | src/rpa_recorder/classifier/heuristic/filters/drop_focus_blur_only.py:23-39 | the look-ahead answers for the nearest later input on the selector only |
| `FocusBlur.FollowUpAfterPass` | src/rpa_recorder/classifier/heuristic/filters/drop_focus_blur_only.py:23-39 | after a pass the look-ahead sees exactly the nearest kept input on the selector |
| `FocusBlur.OnePassIsEnoughIff` | src/rpa_recorder/classifier/heuristic/filters/drop_focus_blur_only.py:23-39 | for every list: a second pass changes nothing iff each kept empty input has a kept next input on its selector within the window |
| `FocusBlur.OnePassIsEnough` | src/rpa_recorder/classifier/heuristic/filters/drop_focus_blur_only.py:23-39 | a second pass changes nothing if no empty input was kept for the sake of a dropped one |
| `FocusBlur.OnePassInTimeOrder` | src/rpa_recorder/classifier/heuristic/filters/drop_focus_blur_only.py:23-39 | on a list in time order exactly then |
| `FocusBlur.ChainedEmptyInputsAreStranded` | src/rpa_recorder/classifier/heuristic/filters/drop_focus_blur_only.py:23-39 | two empty inputs a second apart lose one in each pass |
| `FocusBlur.StrandedYetSaved` | src/rpa_recorder/classifier/heuristic/filters/drop_focus_blur_only.py:23-39 | out of time order an empty input kept for a dropped one can still be kept by a later input |
| `EventLog.PublishKeepsNewest` | src/rpa_recorder/queues/events.py:52-66 | the capped list is the reverse of the newest events, for every bound including zero and negative ones |
| `EventLog.RunLog.Publish` | src/rpa_recorder/queues/events.py:39-66 | a given id is kept, a missing one is the fresh one, the body stays, and the list law holds again |
| `EventLog.RunLog.Backfill` | src/rpa_recorder/queues/events.py:70-80 | backfill returns exactly the last min(N, total) events, oldest first |
| `Mailbox.Subscriber.HasSeen` | src/rpa_recorder/api/streaming/manager.py:62-68 | a known id is seen, an unknown one is recorded, a missing one is never seen |
| `Mailbox.Subscriber.Deliver` | src/rpa_recorder/api/streaming/manager.py:199-210 | one offer: skip a known id, else enqueue and drop the oldest on overflow |
| `Mailbox.Subscriber.Backfill` | src/rpa_recorder/api/streaming/manager.py:212-227 | the backfill loop offers every event in order |
| `Mailbox.Subscriber.Get` | src/rpa_recorder/api/streaming/manager.py:229-240 | the sender takes the oldest queued event, so what was sent grows by it |
| `Mailbox.OfferKeepsQueue` | src/rpa_recorder/api/streaming/manager.py:199-210 | the queue stays a suffix of the enqueue history within its bound; enqueued = taken + dropped + queued |
| `Mailbox.OfferSendsNothing` | src/rpa_recorder/api/streaming/manager.py:199-210 | what an offer pushes out was dropped, not sent |
| `Mailbox.NothingDroppedWithinBound` | src/rpa_recorder/api/streaming/manager.py:199-240 | while no more was enqueued than the queue can hold, every event was sent or is still queued |
| `Mailbox.TakeKeepsLaw` | src/rpa_recorder/api/streaming/manager.py:229-240 | taking keeps both laws, and what was taken is a subsequence of the enqueue order |
| `Mailbox.OfferKeepsDedup` | src/rpa_recorder/api/streaming/manager.py:62-68 | the window is the newest recorded ids, and an id recurs only after a whole window of others |
| `Mailbox.NewEventsKeepOrder` | src/rpa_recorder/api/streaming/manager.py:212-227 | events with ids of their own, none recorded before, are all enqueued in the order offered, so a backfill that nothing raced is chronological |
| `Mailbox.WindowIsDistinct` | src/rpa_recorder/api/streaming/manager.py:57-68 | the window holds distinct ids and at most `dedup_window` of them |
| `Mailbox.RepeatsAreFarApart` | src/rpa_recorder/api/streaming/manager.py:57-68 | an event enqueued twice had at least a window of other ids recorded in between |
| `StreamManager.Fanout` | src/rpa_recorder/api/streaming/manager.py:199-210 | every subscriber of the channel is offered the event once |
| `StreamManager.WebSocketManager.AcquireChannel` | src/rpa_recorder/api/streaming/manager.py:136-150 | a run's channel is created once and shared; its count stays the number of its subscribers |
| `StreamManager.WebSocketManager.ReleaseChannel` | src/rpa_recorder/api/streaming/manager.py:152-168 | mapped or not, member or not, the channel loses the subscriber and one count, and at zero the run is unmapped; the manager's law is kept if the subscriber is one of the channel's |
| `StreamManager.WebSocketManager.CloseAll` | src/rpa_recorder/api/streaming/manager.py:117-124 | closing unmaps every run and hands over their channels |
| `RunStream.EveryRunKeepsLaw` | src/rpa_recorder/api/streaming/manager.py:136-227 | the invariant of the whole stream holds after every interleaving |
| `RunStream.NoGaps` | src/rpa_recorder/api/streaming/manager.py:99-107 | once backfill is done and the reader has caught up, an event was enqueued unless it came before the attach and had left the newest N when the list was read |
| `Deliveries.NoDuplicates` | src/rpa_recorder/api/streaming/manager.py:57-68 | in a run of at most `dedup_window` identified events no subscriber is given one of them twice |
| `Deliveries.ExactlyOnce` | src/rpa_recorder/api/streaming/manager.py:99-107 | in such a run each identified event is given exactly once, save those `NoGaps` excepts |
| `Deliveries.StampedRunIsIdentified` | src/rpa_recorder/queues/events.py:52-52 | drafts without ids, given distinct fresh ones, are all published, with their bodies, each under an id of its own |
| `Deliveries.EveryStampedEventOnce` | src/rpa_recorder/queues/events.py:39-66 | so in such a run every event there is reaches a subscriber exactly once, save those `NoGaps` excepts |
| `Deliveries.SmallWindowDuplicates` | src/rpa_recorder/api/streaming/manager.py:199-227 | with a window of one, a run whose backfill gives an event a second time |
| `RunStream.TeardownIsSafe` | src/rpa_recorder/api/streaming/manager.py:152-168 | a teardown meets only an unmapped channel without members, also when a subscriber arrived in between |
| `RunStream.EveryBoxIsLawful` | src/rpa_recorder/api/streaming/manager.py:199-240 | every subscriber's queue and window obey their laws in every reachable state |
| `RefCounts.RefCountLaw` | src/rpa_recorder/api/streaming/manager.py:136-168 | a channel is mapped iff its count is positive, and the count is the number of attached subscribers |
| `Service.SenderNeverWaits` | src/rpa_recorder/api/streaming/manager.py:229-240 | the sender of an attached subscriber can send the oldest queued event at any time, before its backfill too |
| `Service.EveryoneCanBeServed` | src/rpa_recorder/api/streaming/manager.py:170-240 | from every reachable state reading, backfilling and sending alone bring an attached subscriber to the end of the run |
| `Service.ServedWasSent` | src/rpa_recorder/api/streaming/manager.py:99-107 | then it was sent every event but those `NoGaps` excepts, unless its queue overflowed |
| `Service.JoinsTheMappedChannel` | src/rpa_recorder/api/streaming/manager.py:136-150 | a subscriber of a mapped run joins its channel at once, where the channel is |
| `Service.OpensAtItsSubscribe` | src/rpa_recorder/api/streaming/manager.py:136-150 | the first subscriber is given what was published since its SUBSCRIBE, not only since it attached |
| `Service.FailedOpeningLetsGo` | src/rpa_recorder/api/streaming/manager.py:136-150 | an opening that fails gives the lock back and maps nothing |
| `Service.LastOneClosesTheChannel` | src/rpa_recorder/api/streaming/manager.py:152-168 | a leaving subscriber is gone from its channel only; the last one unmaps the run, and the teardown closes the channel |
| `Recorder.Recorder.OnCapture` | src/rpa_recorder/browser/recorder.py:198-216 | the envelope is queued iff the queue has no bound or is below it, independently of the action; a failed record burns a number |
| `Recorder.Recorder.OnFrameNavigated` | src/rpa_recorder/browser/recorder.py:371-391 | a main-frame visit to a new non-empty URL, and only that, becomes the next action |
| `Recorder.Recorder.Valid` | src/rpa_recorder/browser/recorder.py:218-278 | sequence numbers are pairwise distinct, which is what the heuristic tier needs |
| `Recorder.Recorder.BeginStop` | src/rpa_recorder/browser/recorder.py:142-158 | stopping freezes capture and leaves one sentinel iff the queue has no bound or is below it |
| `Envelopes.KindIs` | src/rpa_recorder/browser/recorder.py:218-240 | the kind of action is told by the event type, and for "change" by a target tag that reads select in any case |
| `Recorder.BuiltIff` | src/rpa_recorder/browser/recorder.py:218-278 | an action of a kind is made iff the envelope names it, its parts pass their constructors and the record passes; a failed record takes its number |
| `BronzeDrain.EveryRunKeepsLaw` | src/rpa_recorder/browser/recorder.py:288-346 | the invariant of capture, drain, stop and cancellation holds after every interleaving |
| `BronzeDrain.NothingLostBeforeCancel` | src/rpa_recorder/browser/recorder.py:288-346 | accepted = handed batches, then the batch in hand, then the queue, in order; batches hold 1 to 10 |
| `BronzeDrain.StopAccountsForEverything` | src/rpa_recorder/browser/recorder.py:142-165 | on the sentinel path everything was handed over; after a cancellation all but fewer than ten in hand |
| `BronzeDrain.CaptureIsAccepted` | src/rpa_recorder/browser/recorder.py:198-211 | until the stop a captured envelope is accepted iff the queue has room, and then it is the last in the queue |
| `BronzeDrain.UnboundedAcceptsAll` | src/rpa_recorder/browser/recorder.py:198-211 | with no bound exactly what was captured before the stop is accepted, in order |
| `BronzeDrain.StopIsSignalled` | src/rpa_recorder/browser/recorder.py:142-158 | the stop puts its sentinel behind what was accepted iff there is room |
| `BronzeDrain.CancellationHits` | src/rpa_recorder/browser/recorder.py:329-346 | a cancellation hands over what is queued in one call; lost is what was in hand, cut short the call under way, never both |
| `BronzeDrain.EveryRunCanBeDrained` | src/rpa_recorder/browser/recorder.py:288-328 | from every reachable state the drain alone can hand over everything accepted, and with the sentinel on its way it finishes |
| `BronzeDrain.CancelEndsIt` | src/rpa_recorder/browser/recorder.py:142-165 | after a stop a cancellation and one write always end the drain |
| `BronzeDrain.TenAreOneBatch` | src/rpa_recorder/browser/recorder.py:314-328 | ten waiting envelopes are handed over in one call |
| `Silver.ConversionIgnoresNumber` | src/rpa_recorder/medallion/silver.py:67-133 | whether and to what an envelope converts does not depend on the number it is given |
| `Silver.SilverTable.Promote` | src/rpa_recorder/medallion/silver.py:136-207 | the loop appends exactly the conversions of the lines past the row count, numbered on |
| `Silver.NumbersAreContiguous` | src/rpa_recorder/medallion/silver.py:149-207 | any interleaving of appends and promotions keeps row numbers 1 to count, count at most the lines |
| `Silver.PromotionsReachFixpoint` | src/rpa_recorder/medallion/silver.py:149-207 | on a fixed log at most lines minus rows promotions insert anything |
| `Silver.SplitRunsEqualOneRun` | src/rpa_recorder/medallion/silver.py:149-207 | if every line converts, the rows are the mapped log however promotions were split, and a rerun inserts nothing |
| `Silver.IdempotentIff` | src/rpa_recorder/medallion/silver.py:136-207 | a rerun changes nothing iff the unconvertible lines of the part read all come last |
| `Silver.RerunCanDuplicate` | src/rpa_recorder/medallion/silver.py:149-207 | one malformed line before a good one: the rerun inserts the good line again |
| `Silver.NothingConvertibleIsLost` | src/rpa_recorder/medallion/silver.py:149-207 | after any interleaving every convertible line the log had at the last promotion has a row with its body, unconvertible lines or not |
| `Silver.ConvertIff` | src/rpa_recorder/medallion/silver.py:67-133 | a line converts iff it is a JSON object that names a kind of action, with an object payload, whose parts and row pass their constructors |
| `Silver.EveryActionHasItsRow` | src/rpa_recorder/medallion/silver.py:149-207 | every such line the log had at the last promotion has a row of its kind with its envelope |
| `Silver.EveryRowHasItsLine` | src/rpa_recorder/medallion/silver.py:149-207 | after any interleaving every row is the conversion of some line |
| `Silver.MirrorsRecorderIff` | src/rpa_recorder/medallion/silver.py:67-85 | where record and row pass, promotion makes a row of a kind iff the recorder makes an action of it, exactly unless a payload that is no object passes |
| `Pipeline.PromotedIsRecorded` | src/rpa_recorder/medallion/silver.py:136-207 | end to end: the rows of a recording that was not cut off are the recorder's own actions by kind and envelope, in order, numbered from one |
| `Pipeline.CapturedIsCompacted` | src/rpa_recorder/medallion/compact.py:119-193 | end to end: its table has one row for every envelope accepted, in order, and with no bound for every one captured before the stop |
| `Compact.TableOfIsTable` | src/rpa_recorder/medallion/compact.py:59-97 | every column has one value a row; row i holds sequence i and envelope i |
| `Compact.TableRoundTrips` | src/rpa_recorder/medallion/compact.py:59-97 | the envelopes can be read back from the table's JSON column |
| `Compact.RecordingFiles.BuildTable` | src/rpa_recorder/medallion/compact.py:76-97 | the loop over columns builds exactly that table |
| `Compact.RecordingFiles.CompactToParquet` | src/rpa_recorder/medallion/compact.py:119-193 | skip, rebuild and no-input branches leave the files and artifact rows the specification function gives |
| `Compact.ParquetIsPrefixTable` | src/rpa_recorder/medallion/compact.py:119-193 | for an append-only log and any overlap of compactions and appends, the Parquet file is always the table of a prefix of the log's envelopes |
| `Compact.DecisionIsTheLogAsRead` | src/rpa_recorder/medallion/compact.py:162-183 | a compaction that skips or replaces the file leaves the table of the log as it read it, which is the rebuild of the present log iff nothing was appended since |
| `Compact.UninterruptedIsCompacted` | src/rpa_recorder/medallion/compact.py:119-193 | the steps of one compaction in a row do what the method does |
| `Compact.CompactionIsCurrent` | src/rpa_recorder/medallion/compact.py:146-193 | a compaction that runs on its own and finds envelopes, skipped or not, leaves the rebuild of the present log, whatever came before |
| `Compact.CompactionCanGoBack` | src/rpa_recorder/medallion/compact.py:162-193 | a run in which two overlapping compactions leave the older table |
| `Compact.CompactIff` | src/rpa_recorder/medallion/compact.py:162-183 | a compaction is skipped iff the file is readable, its latest artifact is not empty, and it has a row for every envelope |
| `Compact.SecondCompactionSkipsIff` | src/rpa_recorder/medallion/compact.py:119-193 | compacting an unchanged log again does nothing iff the file is readable and its latest artifact not empty |
| `Compact.FreshFileIsLeftAlone` | src/rpa_recorder/medallion/compact.py:119-193 | so a file just written is left alone, if the clock moved on since the earlier artifacts |
| `Compact.AppendedIsRead` | src/rpa_recorder/medallion/compact.py:146-160 | appending envelopes to the log adds exactly them to what a compaction reads |
| `Text.AppendExtendsLines` | src/rpa_recorder/medallion/bronze_store.py:92-99 | a newline-terminated append adds exactly its non-blank lines and keeps the file terminated |
| `Pages.ResolveSelector` | src/rpa_recorder/browser/executor.py:68-135 | the loops find that strategy, and fail iff no strategy matches exactly one element |
| `Pages.ResolveIffUnique` | src/rpa_recorder/browser/executor.py:68-135 | a selector resolves iff one of its strategies matches exactly one element |
| `Pages.ResolvesToBest` | src/rpa_recorder/browser/executor.py:68-135 | a resolved selector gives the most robust strategy, by test id, role, text, CSS, XPath, that matches one element of the first frame with its URL, and a selector that names it alone |
| `Recovery.SortIsStable` | src/rpa_recorder/recovery/engine.py:53-62 | strategies are in cost order and those of one tier stay in the order given |
| `Recovery.ApplicableLaw` | src/rpa_recorder/recovery/engine.py:64-97 | exactly the strategies for the failure mode are tried, by tier, in their order within a tier |
| `Recovery.TriedInStableCostOrder` | src/rpa_recorder/recovery/engine.py:53-97 | end to end: the matching strategies are tried in tier order and, within a tier, in the order the engine was given them |
| `Recovery.RecoveryEngine.Try` | src/rpa_recorder/recovery/engine.py:98-186 | one strategy's turn: its events, the page it leaves, a win iff applicable, succeeded and verified, and the re-raised cancellation |
| `Recovery.RecoveryEngine.Attempt` | src/rpa_recorder/recovery/engine.py:64-186 | below the depth limit and with a failure mode the result, page and events are those of the first verified win in stable cost order; otherwise nothing happens |
| `Recovery.RecoversByFirstVerifiedWin` | src/rpa_recorder/recovery/engine.py:53-208 | the result is the first verified win in stable cost order; None iff there is none, unless cancelled; a returned win's selector resolves uniquely |
| `Recovery.WinsIff` | src/rpa_recorder/recovery/engine.py:133-186 | a win is an applicable, successful decision whose own selector, or else the action's, resolves uniquely on the page left behind |
| `Recovery.TurnShowsOutcome` | src/rpa_recorder/recovery/engine.py:98-186 | a turn's events tell a win from a failure, and say nothing of a strategy that declined or was cancelled |
| `Executor.Executor.RecordFailure` | src/rpa_recorder/browser/executor.py:306-358 | artifacts, then the report, then recovery decides between RECOVERED and FAILED; an error of the capture or a cancelled recovery goes on to the caller |
| `Executor.Executor.ExecuteAction` | src/rpa_recorder/browser/executor.py:244-304 | one action's execution, page and events; none when an uncaught error aborts it |
| `Executor.PerformingDecides` | src/rpa_recorder/browser/executor.py:244-304 | an action on an element ends as performing it on the selector's best match does, in the world that leaves |
| `Executor.NavigatingDecides` | src/rpa_recorder/browser/executor.py:386-398 | a navigation ends as going to its own URL does |
| `Executor.OutOfReachFails` | src/rpa_recorder/browser/executor.py:244-276 | without a match, a URL or a supported type an action never succeeds, and fails in the world it found |
| `Executor.ModeIsToldByFailure` | src/rpa_recorder/browser/executor.py:138-148 | each failure is reported under its own mode, read from the message in any case |
| `Executor.FailureEndsAsRecovery` | src/rpa_recorder/browser/executor.py:306-358 | a caught failure ends as the first verified win, or the lack of one, says, from the world its artifacts were taken in |
| `Executor.RecoveredIffWin` | src/rpa_recorder/browser/executor.py:306-358 | where nobody is cancelled it ends RECOVERED iff some matching strategy wins |
| `Executor.UnrecoveredFailure` | src/rpa_recorder/browser/executor.py:306-358 | without an engine or depth it stays FAILED; if the artifacts cannot be taken, the action aborts |
| `Executor.Executor.Run` | src/rpa_recorder/browser/executor.py:193-240 | every action is executed once in order whatever became of the earlier ones, up to one that aborts the run, and the trace is theirs |
| `Executor.TotalsAddUp` | src/rpa_recorder/browser/executor.py:213-240 | succeeded plus failed is the number of actions, and failures are counted iff there are some |
| `Trace.ReadAction` | src/rpa_recorder/browser/executor.py:244-358 | one action's events, read back, tell how it ended; a recovery success is last and marks RECOVERED |
| `Trace.TraceTellsTheRun` | src/rpa_recorder/browser/executor.py:193-240 | every run's trace follows the grammar and determines each action's status, the totals and the run's status; an aborted run's stops inside the action that aborted it |
| `Trace.RunAnswersItsStarts` | src/rpa_recorder/browser/executor.py:244-358 | in every run's trace a success or failure comes right after the start of the same action or strategy |
| `JobPool.InProcessQueuePool.EnqueueJob` | src/rpa_recorder/queues/in_process.py:77-106 | which error comes first, that a rejected call changes nothing, and the job an accepted one adds |
| `JobPool.InProcessQueuePool.QueueSize` | src/rpa_recorder/queues/in_process.py:108-113 | the loop counts the queue's jobs whose status is queued or in progress |
| `JobPool.InProcessQueuePool.CloseDown` | src/rpa_recorder/queues/in_process.py:126-134 | the first close refuses new jobs and names exactly the tasks still to be awaited |
| `JobPool.InProcessQueuePool.CancelActive` | src/rpa_recorder/queues/in_process.py:135-141 | after the grace period every task has ended, a running one with the status its handler chose and any other with the status it had, every permit is back, and it all is a run of the step system |
| `JobPool.InProcessQueuePool.TakePermit` | src/rpa_recorder/queues/in_process.py:172-173 | a job takes one permit of its queue and keeps its status |
| `JobPool.InProcessQueuePool.BeginHandler` | src/rpa_recorder/queues/in_process.py:174-177 | the status becomes in progress |
| `JobPool.InProcessQueuePool.EndHandler` | src/rpa_recorder/queues/in_process.py:178-203 | the status becomes the handler's ending while the permit is still held |
| `JobPool.InProcessQueuePool.ReturnPermit` | src/rpa_recorder/queues/in_process.py:173-206 | the permit goes back to the queue and the status stays |
| `JobPool.InProcessQueuePool.AbandonWait` | src/rpa_recorder/queues/in_process.py:172-204 | a cancellation before the handler gives a handed permit back and leaves the status alone |
| `JobPool.EveryRunKeepsLaw` | src/rpa_recorder/queues/in_process.py:157-206 | the pool's invariant holds after every interleaving |
| `JobPool.PermitsAreConserved` | src/rpa_recorder/queues/in_process.py:172-174 | for each queue free permits plus the jobs holding one equal the cap, so at most cap jobs are in progress |
| `JobPool.NobodyWaitsForNothing` | src/rpa_recorder/queues/in_process.py:172-206 | while a job waits for a queue with capacity, some job of that queue can move |
| `JobPool.AcceptedJobCanRun` | src/rpa_recorder/queues/in_process.py:157-206 | an accepted job whose queue has a permit can run at once; its status is its handler's ending, and the permit is back |
| `JobPool.CancellationIsARun` | src/rpa_recorder/queues/in_process.py:135-141 | cancelling a task is a run of the steps it had left, so every law of runs covers closing |
| `JobPool.StatusesMoveOneStep` | src/rpa_recorder/queues/in_process.py:174-203 | a status moves only from queued to in progress and from there to one terminal status; only a cancellation before the handler ends a job without one |
| `JobPool.HistoryOnlyGrows` | src/rpa_recorder/queues/in_process.py:157-206 | a terminal status never changes in any later state |
| `JobPool.LostIffCancelledEarly` | src/rpa_recorder/queues/in_process.py:172-206 | a queue has a job that ended without a terminal status iff at some step a cancellation reached a job of it before its handler started |
| `JobPool.QueueSizeCountsLostJobs` | src/rpa_recorder/queues/in_process.py:108-113 | queue_size is the jobs still to end plus the lost ones, and equals the jobs still to end iff no such cancellation ever happened |
| `JobPool.LostJobsStayListed` | src/rpa_recorder/queues/in_process.py:172-206 | such a job stays queued in every later state |
| `JobPool.ClosedPoolRunsDry` | src/rpa_recorder/queues/in_process.py:126-141 | after closing, only as many steps can change the pool as the remaining tasks have phases left |
| `Budget.ComputeCost` | src/rpa_recorder/classifier/llm/cost.py:28-44 | the cost is non-negative, and zero iff the model is unknown or no token was used |
| `Budget.CostIsByTheToken` | src/rpa_recorder/classifier/llm/cost.py:28-44 | the cost is linear in the tokens, an output token costing five input tokens |
| `Budget.PriceOfAMillion` | src/rpa_recorder/classifier/llm/cost.py:28-34 | the price of a million input tokens of each model |
| `Budget.BudgetGuard.CheckOrRaise` | src/rpa_recorder/classifier/llm/cost.py:89-95 | the check passes iff today's spend is below the cap |
| `Budget.BudgetGuard.RecordSpend` | src/rpa_recorder/classifier/llm/cost.py:97-106 | a positive amount is added to today and to no other day; others change nothing |
| `Budget.EveryRunKeepsLaw` | src/rpa_recorder/classifier/llm/classifier.py:130-164 | for every day, spend plus what running calls may still add stays below the ceiling |
| `Budget.OvershootIsBounded` | src/rpa_recorder/classifier/llm/classifier.py:130-233 | no interleaving, across midnight too, takes a day's spend to cap + K * C, for at most K calls running at once and a largest call price C |
| `Budget.OvershootIsReached` | src/rpa_recorder/classifier/llm/classifier.py:130-164 | even with one permit some run spends the full price of every call that may run at once, so the semaphore is not the bound |
| `Budget.PermitsBoundCalls` | src/rpa_recorder/classifier/llm/classifier.py:138-148 | at no moment of any run do more calls wait for an answer than there are permits |
| `Budget.LedgerIsConserved` | src/rpa_recorder/classifier/llm/cost.py:97-106 | in every run a day's counter is what it started with plus the costs of the calls recorded on that day |
| `Budget.ChargedAfterMidnight` | src/rpa_recorder/classifier/llm/classifier.py:130-164 | a call can be charged to a day whose counter it never checked |
| `Budget.CheckedAgainstItsDay` | src/rpa_recorder/classifier/llm/cost.py:76-95 | a call begun before midnight is checked against the counter of the day it began on |
| `Budget.AbortFreesSlot` | src/rpa_recorder/classifier/llm/classifier.py:130-164 | a call given up charges nothing |
| `ResponseCache.InMemoryResponseCache.FetchOrDrop` | src/rpa_recorder/classifier/llm/cache.py:35-43 | a get returns the unexpired payload or nothing, and drops an expired entry |
| `ResponseCache.InMemoryResponseCache.Keep` | src/rpa_recorder/classifier/llm/cache.py:45-53 | a set overwrites in place, appends, or evicts the oldest; it fails iff it must evict from an empty store |
| `ResponseCache.CacheRefinesMap` | src/rpa_recorder/classifier/llm/cache.py:35-53 | a get hits iff a plain map's value is unexpired and not evicted; eviction takes `max_size` later insertions; size is bounded |
| `ResponseCache.OverwritingEvictsNothing` | src/rpa_recorder/classifier/llm/cache.py:45-53 | overwriting evicts nothing and keeps every key's place |
| `ResponseCache.NoRoomNoEntries` | src/rpa_recorder/classifier/llm/cache.py:45-53 | with no room nothing is ever stored |
| `ResponseCache.GetSweepsExpired` | src/rpa_recorder/classifier/llm/cache.py:35-43 | a get removes the key's entry iff it has expired, and nothing else, and keeps the order |
| `ResponseCache.PutCostsTheOldest` | src/rpa_recorder/classifier/llm/cache.py:45-53 | a put leaves every other key's entry, except the oldest one when a new key meets a full store |
| `ResponseCache.WithRoomItIsAMap` | src/rpa_recorder/classifier/llm/cache.py:35-53 | with no more keys than places the cache is a plain map with expiry |
| `ResponseCache.LatestIsLastPut` | src/rpa_recorder/classifier/llm/cache.py:45-53 | the value a get can return is the last one put, living for its own time to live |
| `Backoff.DelayIsNearDoubled` | src/rpa_recorder/classifier/llm/retry.py:73-79 | each sleep is non-negative and within the jitter of the doubled base |
| `Backoff.JitterIsSpanned` | src/rpa_recorder/classifier/llm/retry.py:73-79 | the draws span the whole jitter in even steps |
| `Backoff.SleepSpansJitter` | src/rpa_recorder/classifier/llm/retry.py:73-79 | each sleep reaches from the doubled base less the jitter, cut off at zero, to the doubled base plus the jitter, and grows with the draw |
| `Backoff.DoubledIsPower` | src/rpa_recorder/classifier/llm/retry.py:73-73 | doubling n times multiplies by two to the n |
| `Backoff.TotalSleepIsBounded` | src/rpa_recorder/classifier/llm/retry.py:59-87 | the time slept is at most base * (2^(n-1) - 1) + (n-1) * jitter |
| `Backoff.Execute` | src/rpa_recorder/classifier/llm/retry.py:59-87 | calls = sleeps + 1 <= n, the result is the last answer, and only retryable errors are followed by a call |

## Left out

- The internals of Playwright, SQLAlchemy, the Redis client, pyarrow, DuckDB and the Anthropic SDK: a page is element counts for each query, a table is sequences, Redis is a capped list and an ordered channel.
- `canonicalize_url`, `filter_dom` and prompts rewrite text by library calls and regular expressions; renderers, the CLI, routers and configuration connect the parts; retention deletes old files by age; gold-tier aggregates and repository rows copy and sum fields.
- `selectors.js`: `uniqueCss` and `xpathOf` do not give the uniqueness their names suggest, and no other part relies on it.
- `RunStream` and `RefCounts` describe runs before `WebSocketManager.close()`; heartbeats and WebSocket errors are left out.
- `StreamManager.WebSocketManager.ReleaseChannel`: the manager's law is not promised for a subscriber that leaves a mapped channel it is not in; `subscribe` acquires once and releases once.
- `HeuristicEngine.Classify`: the individual classify rules are parameters.
- The wait for a semaphore is not first-in first-out in `JobPool` and `Budget`: any waiting task may be next, which only adds interleavings.
- A cap below zero, which `asyncio.Semaphore` rejects, and a handler that raises something outside `Exception`.
- `JobPool.InProcessQueuePool.CancelActive`: how the cancelled tasks interleave while they are awaited is the step system's matter; Redis's cancel flag is left out.
- `Executor.Executor.Run`: input-value substitution, timings and console logs of an attempt; a run without an emitter has no trace.
- `Executor.ModeIsToldByFailure`, `Envelopes.KindIs`: lower-casing is that of the letters A to Z.
- `Recovery.RecoveryEngine.Attempt`: a cancellation between two strategies or during verification (one during a strategy is modelled), and the time-out clock; a timed-out or raising strategy is an outcome without a decision.
- `Compact.RecordingFiles.CompactToParquet`: Parquet's own encoding, a file reads back as the table written; a failing write, which leaves the file as it was.
- `Budget.OvershootIsBounded`: the day's counter in Redis and in memory are one ledger, and its expiry after 90 days is left out.
- `ResponseCache.CacheRefinesMap`: the Redis-backed cache, whose expiry Redis does.
- `Backoff.Execute`: a cancelled sleep, and a policy of fewer than one attempt, which the constructor refuses.
