# VPN monitoring: the state machine from evidence to messages and history

This project models the monitoring core of VPNPulse and proves what it promises. The core starts at
stored evidence, evaluates each server's state, logs the transitions, decides who is told and when,
delivers the messages with retries, and rebuilds a history from the log for the screens.

| files | what they hold |
|---|---|
| `Sequences`, `Domain` | filtering and stable sorting; the value types |
| `Evaluator`, `Streaks`, `EvaluatorLaws`, `VerdictLaws`, `Recommender` | evaluating one server from its observations, and every column of the verdict; choosing a server |
| `Notifications`, `QueueFacts`, `Repository` | snapshot, transition log and queue: what saving and delivering do, and the classes that do it |
| `Runs`, `RunLaws`, `NoticeLaws`, `DeliveryLaws` | whole runs of evaluations and deliveries: keys, retries, what the administrator is told, what a notice says and when it is due, which rows a delivery hands over |
| `LogLaws`, `TransitionLaws` | the transition log in every run: which row is open, and what each row records |
| `GroupLaws`, `GroupRuns`, `AlertLaws`, `Rounds`, `LastWord` | what the group is told, for any messenger and in the loop's own rounds, and when the last word it heard is true |
| `Shortfalls`, `Misled` | runs and rounds in which the protocol falls short |
| `Inputs`, `Monitor`, `MonitorLaws`, `LoopLaws` | the loop from probe reports and collected observations to messages and card: the object that runs it, and what every message rests on |
| `OutageLaws`, `MaintenanceLaws` | the reports an outage needs and those that suffice for one; how old the loop lets its evidence get |
| `ReadModel`, `Views`, `TimelineLaws`, `CardLaws`, `ChartLaws` | the timeline, availability, chart points and card, and their agreement with the evaluations saved |
| `Evidence`, `ReportLaws`, `EvidenceLaws`, `RetentionLaws` | probe reports, what a stored row says of its report, retention, confluence of deliveries |
| `Aggregates`, `AggregateLaws` | the hourly aggregate maintained incrementally against recomputation |
| `RateLimiter`, `RateLimiterLaws` | token buckets in an LRU-bounded table |

Each class or loop of the program is a Dafny class or method proved equal to a specification function
(`Saved`, `AfterDelivery`, `Evaluate`, `Accepted`, `Call`, ...); the laws are lemmas about those functions,
over every input, every run or every order of delivery. Beside each function stand laws that say what its
result is without it, in terms of the rows and items it comes from (`VerdictExactly`, `NoticeExactly`,
`TriedExactly`, `LogRecordsChanges`, `RowsSay`, `ReadExactly`, `ScratchExactly`, `ChosenExactly`,
`PointExactly`). `Monitor.Pipeline` owns the objects and keeps them equal to what all inputs so far lead to,
so that the laws hold of the objects.

## How the program is represented

- Tables are sequences or maps held in a class; each `with connection:` block is one atomic step.
  Instants are integers counting microseconds (the rate limiter's are real seconds), and Python floats are reals.
- The key of a transition and of its notice is the tuple the UUIDv5 is derived from, so equal ids mean
  equal tuples. A payload's SHA-256 is compared by comparing payloads.
- The messenger is an arbitrary choice, at each delivery, of which messages it takes. Clocks are
  parameters: no law about runs in `RunLaws` assumes that time moves forward; those about the group and the
  history say so where they do.
- A server's id is an integer where only its order matters (`Recommender`), and a string elsewhere.
- Automatic induction is switched off on every lemma; each inductive proof is written out.

## What the proofs found

- The documentation says recovery needs two successes (`docs/concepts.md:45`). The code needs one: a single fresh success
  without a failure is OPERATIONAL (`EvaluatorLaws.OtherStatesExactly`). The model follows the code.
- The order in which evidence is listed can decide between an outage and a partial failure, when tests of
  one source carry the same timestamp (`TiesMatter`); `OrderIrrelevantExactly` says exactly when it cannot.
- An evaluation without evidence has no observation time, so its key repeats: the second time a server
  falls silent from the same state nothing is logged and nobody is told (`SecondSilenceIsLost`, with a run in
  `SecondSilenceHappens`). Log and history agree if and only if keys are fresh (`AgreesExactlyWhenKeysFresh`).
- Group messages alternate as long as no news for the group is queued while another group row of the scope
  is pending (`GroupMessagesAlternate`), and the group's last word is then true whenever everything is sent
  (`LastWordIsTrue`). More exactly: as long as no group message is overtaken, given up or failed for good, the
  last word is true if and only if an even number of messages is still pending (`LastWordTrueExactly`); and after
  all that is pending was delivered as one batch, if and only if the last message heard before was no outage, the
  batch is even in number, or it is one message (`BatchTrueExactly`).
- Otherwise the group can be misled, for every interval between rounds that is no shorter than the back-off and
  shorter than nineteen of them (60 and 30 seconds by default): an outage refused until its back-off outlasts the interval is overtaken by its recovery and sent last
  (`RecoveryOvertakesOutage`), a recovery due again together with a new outage sends a second outage
  (`OutageHeardTwice`), and a refused recovery, a new outage and its recovery cancel to nothing
  (`RecoveriesCancel`). Overtaking takes a refusal and a back-off still running (`OvertakenWasRefused`).
- When a key repeats, the scope has no open transition at all (`ChangeOpensExactly`).
- The aggregate's window of 25 complete hours reaches further back than one day, the shortest retention the
  configuration schema accepts. A maintenance then deletes an hour that was already right
  (`ShortRetentionErases`); `RetentionSufficesExactly` gives the bound.
- A client that waits exactly the advertised `retry_after` can be refused again, on the one route with fewer than
  sixty requests a minute (`AdvertisedWaitMayFallShort`); `AdvertisedWaitSufficesExactly` says when.
- A report delivered again after its retention expired is stored a second time (`RedeliveryAfterSweep`), to be
  swept again; what is not older than the last sweep is stored once (`RecentRowsOnce`).

## Model

| member | source | states |
|---|---|---|
| Evaluator.GroupFullTests | src/vpnpulse/domain/evaluator.py:60-63 | the grouping loop yields exactly the sources with full tests, each with its own tests in time order |
| Evaluator.FailureConfirmed | src/vpnpulse/domain/evaluator.py:65-70 | the loop with its early exit finds whether any source's last n full tests are all valid failures |
| Evaluator.EvaluateScope | src/vpnpulse/domain/evaluator.py:20-90 | the whole evaluation, step by step, is the specified verdict over the usable unexpired observations |
| Streaks.FreshIsSortedLive | src/vpnpulse/domain/evaluator.py:38-39 | dropping unverified routes, sorting and then dropping expired evidence is the same as sorting what is live |
| EvaluatorLaws.DeadEvidenceIsIgnored | src/vpnpulse/pipeline.py:157-174 | any pre-filter that keeps the live observations, such as the SQL one, changes nothing in the evaluation |
| Streaks.StreakBounds | src/vpnpulse/domain/evaluator.py:38-68 | however simultaneous tests are listed, the failures a source ends with number between two order-free counts, and each count is reached |
| EvaluatorLaws.UnavailableExactly | src/vpnpulse/domain/evaluator.py:52-88 | UNAVAILABLE exactly when some source has n full-test failures since its last other full test and no person or non-abroad full test succeeds |
| EvaluatorLaws.OtherStatesExactly | src/vpnpulse/domain/evaluator.py:77-88 | OPERATIONAL, UNKNOWN and DEGRADED-or-UNAVAILABLE characterised by whether live successes and failures exist |
| EvaluatorLaws.CoverageExactly | src/vpnpulse/domain/evaluator.py:40 | coverage lies in [0, 1], is 0 exactly without live evidence and 1 exactly when the expected number of sources is live |
| VerdictLaws.CoverageIs | src/vpnpulse/domain/evaluator.py:40 | coverage is the number of sources with live evidence over the number expected, at least one, and never above 1 |
| VerdictLaws.ObservedAtExactly | src/vpnpulse/domain/evaluator.py:41-44 | `observed_at` is t if and only if some live observation was made at t and none later; none exactly without live evidence |
| VerdictLaws.FreshUntilExactly | src/vpnpulse/domain/evaluator.py:41-45 | `fresh_until` is t if and only if some live observation expires at t and none later; none exactly without live evidence |
| VerdictLaws.EvidenceCountExactly | src/vpnpulse/domain/evaluator.py:90 | the evidence count is the number of live observations |
| VerdictLaws.ReasonsExactly | src/vpnpulse/domain/evaluator.py:41-88 | every reason code, and every state but UNAVAILABLE, each if and only if live successes and failures are as it says; for any evidence |
| VerdictLaws.VerdictExactly | src/vpnpulse/domain/evaluator.py:52-88 | where simultaneous tests of a source agree, UNAVAILABLE and both kinds of DEGRADED with their reasons, each if and only if the evidence shows an outage or not |
| EvaluatorLaws.SecondOutageBranchUnreachable | src/vpnpulse/domain/evaluator.py:81-82 | the second way to UNAVAILABLE is never taken |
| EvaluatorLaws.OrderIndependence | src/vpnpulse/domain/evaluator.py:38-90 | the evaluation is the same for every permutation of evidence whose simultaneous tests of a source agree |
| EvaluatorLaws.AgreedTiesSettle | src/vpnpulse/domain/evaluator.py:38 | distinct timestamps, or simultaneous tests that agree, are enough for ties to decide nothing |
| EvaluatorLaws.OrderIrrelevantExactly | src/vpnpulse/domain/evaluator.py:38-90 | for any evidence: the evaluation is the same for every permutation if and only if ties decide nothing |
| EvaluatorLaws.TiesMatter | src/vpnpulse/domain/evaluator.py:38 | two listings of the same two simultaneous tests, one an outage and one a partial failure |
| EvaluatorLaws.NotRunNeverWorsens | src/vpnpulse/domain/evaluator.py:20-90 | a NOT_RUN observation anywhere leaves the state, or turns UNAVAILABLE into DEGRADED |
| EvaluatorLaws.NotRunsNeverWorsen | src/vpnpulse/domain/evaluator.py:20-90 | the same for any number of them |
| Recommender.RecommendsEligibleOrNothing | src/vpnpulse/domain/evaluator.py:98-106 | the answer is an eligible server, and None exactly when there is none |
| Recommender.LoadWithinTenPercent | src/vpnpulse/domain/evaluator.py:108-124 | a known recommended load is at most 1.10 times every known eligible load |
| Recommender.AnswerIsStable | src/vpnpulse/domain/evaluator.py:108-124 | fed back as the previous server, the answer is given again |
| Recommender.CandidateOrderIrrelevant | src/vpnpulse/domain/evaluator.py:109-118 | with distinct ids the order of the candidates is irrelevant |
| Recommender.ChosenExactly | src/vpnpulse/domain/evaluator.py:93-124 | with distinct ids a server is recommended if and only if it is the previous one and may stay, or none may and no other on offer is ahead of it by load, priority and id |
| Repository.StateRepository.SaveEvaluation | src/vpnpulse/storage/repository.py:107-199 | the three tables afterwards, and the transition id returned: upsert, insert-or-ignore, closing, dropping waiting notices, audience, hold, queueing |
| Repository.StateRepository.LogTransition | src/vpnpulse/storage/repository.py:155-168 | the log gets the row unless its key is there, and every other open transition of the scope is closed |
| Repository.StateRepository.DropWaitingNotices | src/vpnpulse/storage/repository.py:72-81 | superseding by id the rows selected supersedes exactly the scope's pending admin notices |
| Repository.NotificationWorker.Deliver | src/vpnpulse/storage/repository.py:251-272 | one row becomes sent, or pending with a later attempt, or failed at the twentieth; all others stay |
| Repository.NotificationWorker.DeliverOne | src/vpnpulse/storage/repository.py:210-218 | at most the oldest due row is delivered |
| Repository.NotificationWorker.SupersedeOlder | src/vpnpulse/storage/repository.py:226-242 | the loop over due rows keeps what collapsing leaves of every slot and supersedes the rest, counting it |
| Repository.NotificationWorker.DeliverAll | src/vpnpulse/storage/repository.py:243-248 | every remaining row is handed over once, in order, and the counters add up |
| Repository.NotificationWorker.DeliverPending | src/vpnpulse/storage/repository.py:220-249 | the queue afterwards, and sent + failed + superseded is the number of due rows |
| QueueFacts.CollapseConserves | src/vpnpulse/storage/repository.py:226-242 | every due row either stands for its slot or is given up, exactly once |
| QueueFacts.CollapseBySlot | src/vpnpulse/storage/repository.py:226-242 | what is left of a slot depends on that slot's rows alone: nothing, or its newest |
| QueueFacts.WaitingKeys | src/vpnpulse/storage/repository.py:72-81 | updating by id is updating by condition, because keys are unique |
| NoticeLaws.NoticeExactly | src/vpnpulse/storage/repository.py:151-198 | every column of an added notice; it is due at once unless it tells the administrator of DEGRADED or UNKNOWN while fewer than six of the scope's admin rows of the last hour were superseded, and then after the quiet time |
| NoticeLaws.HoldExactly | src/vpnpulse/storage/repository.py:174-183 | in every run an admin notice that no change and no delivery came across since it was queued is handed over by a delivery if and only if that comes at its due time or later |
| DeliveryLaws.TriedExactly | src/vpnpulse/storage/repository.py:220-248 | a delivery hands over a row if and only if it is due, newer than every other due row for the same scope and destination, and no group recovery right after an unsent outage |
| DeliveryLaws.DeliveryExactly | src/vpnpulse/storage/repository.py:220-249 | the calls of one delivery are about exactly those rows, oldest first, at its instant, taken or refused as the messenger pleases |
| DeliveryLaws.OldestExactly | src/vpnpulse/storage/repository.py:210-218 | delivering one message takes the due row older than all others, if there is any |
| Monitor.Pipeline.AcceptReport | src/vpnpulse/storage/store.py:226-281 | after a report the objects are what all inputs so far lead to, and it waits for the loop's next turn |
| Monitor.Pipeline.WriteItems | src/vpnpulse/pipeline.py:105-146 | the collecting loop stores one row per item of a known server, in order, and counts them |
| Monitor.Pipeline.EvaluateServer | src/vpnpulse/pipeline.py:157-188 | the evaluation computed from the stored rows: what is read, how many sources are expected, what the evaluator finds |
| Monitor.Pipeline.Evaluate | src/vpnpulse/pipeline.py:182-191 | the evaluation computed is saved, and tables and send log stay what all inputs so far lead to |
| Monitor.Pipeline.Notify | src/vpnpulse/pipeline.py:206-207 | the same for a delivery |
| Monitor.Pipeline.Maintain | src/vpnpulse/pipeline.py:213-219 | the same for the sweep of old evidence |
| Monitor.Pipeline.RunRound | src/vpnpulse/pipeline.py:254-262 | one round is a collection, the evaluation of every enabled server in turn, one delivery, and maintenance when it is due |
| Monitor.Pipeline.RunOnce | src/vpnpulse/pipeline.py:254-262 | one run of the loop is one more turn over the reports since the last: all inputs so far are those of the turns, and a turn maintains exactly when none did before or the last that did is at least the interval ago |
| MonitorLaws.MessagesAreGrounded | src/vpnpulse/pipeline.py:157-207 | in every run each message ever handed over was queued by an evaluation, at the instant of its creation, of rows then stored that showed what it says |
| MonitorLaws.OutagesNeedFailedTests | src/vpnpulse/pipeline.py:134-207 | an outage message needs, stored and unexpired when it was queued, as many failed full tests of one source as are configured, each from a report or collection received before, and no success from where the members sit |
| MonitorLaws.OutageQueuedExactly | src/vpnpulse/pipeline.py:182-191 | an evaluation queues a group outage if and only if it is a change with a new key, none is open, and the stored evidence confirms a failure nobody contradicts |
| MonitorLaws.RecoveryQueuedExactly | src/vpnpulse/pipeline.py:182-191 | it queues a group recovery if and only if it is a change with a new key, an outage is open, and the stored evidence has a success and no failure |
| MonitorLaws.CardShowsLiveEvidence | src/vpnpulse/storage/read_model.py:325-331 | in every run a card shows a state exactly while the last evaluation's rows had a success or a failure and one of them is still fresh, and "operational" exactly when, besides, none failed |
| MonitorLaws.SnapshotNamesServer | src/vpnpulse/pipeline.py:182-187 | in every run a server's snapshot names that server and all networks |
| LoopLaws.LoopPlays | src/vpnpulse/pipeline.py:254-262 | turns of reporting, collecting, evaluating, delivering and maintaining run as the rounds of their evaluations |
| LoopLaws.LoopTellsTruth | src/vpnpulse/pipeline.py:254-262 | from reports to messages: in the loop's turns, with group messages accepted and fresh keys, what the group hears about a server alternates and ends in an outage exactly while one is open |
| OutageLaws.OutagesNeedReports | src/vpnpulse/storage/store.py:226-281 | an outage message needs as many failed tests of one source as are configured, each told by a report with a failed check, a handshake, an HTTPS check and a control check that succeeded last, or by such a collected item, and no success from where the members sit |
| OutageLaws.ReportsSuffice | src/vpnpulse/pipeline.py:157-188 | conversely, that many stored reports of failure newer than every other full test of their source, and no such success, make the evaluation UNAVAILABLE |
| MaintenanceLaws.OldEvidenceIsSwept | src/vpnpulse/pipeline.py:209-219 | after every turn of the loop the last sweep was in it or less than the maintenance interval before, and every stored observation was made within the retention before that sweep or came since |
| MaintenanceLaws.EvidenceAgeBounded | src/vpnpulse/pipeline.py:209-219 | so nothing stored is older than the retention and the interval together, unless it came since the last sweep |
| MaintenanceLaws.RecentEvidenceIsKept | src/vpnpulse/pipeline.py:213-214 | while the clock does not run backwards an observation made within the retention before the last turn is stored as often as it ever was |
| RunLaws.RunConsistent | src/vpnpulse/storage/repository.py:151-198 | in every run keys are unique and every notice has its logged transition |
| LogLaws.OpenExactly | src/vpnpulse/storage/repository.py:155-168 | in every run a transition is open if and only if it is the one its scope's last change logged; it names the scope's state |
| LogLaws.ChangeOpensExactly | src/vpnpulse/storage/repository.py:155-168 | after a change the scope has an open transition if and only if the key was new |
| TransitionLaws.LogRecordsChanges | src/vpnpulse/storage/repository.py:155-168 | in every run each row of the log records the first change under its key, with that evaluation's reason and instant, and is closed exactly when and at the instant when the state changed next |
| RunLaws.RowCases | src/vpnpulse/storage/repository.py:107-272 | what any event can do to a queue row: leave it, supersede it while pending, or attempt it when due |
| RunLaws.FinishedStaysFinished | src/vpnpulse/storage/repository.py:210-272 | sent, superseded and failed rows never change again |
| RunLaws.RetriesAccounted | src/vpnpulse/storage/repository.py:251-272 | in every run: at most 20 attempts, none after a success, the k-th no earlier than backoff * (1 + ... + k) after the first, and the row's columns agree with the log |
| RunLaws.FailsOnlyAfterLongRefusal | src/vpnpulse/storage/repository.py:22 | a message fails for good only after twenty refusals over at least 190 back-off periods |
| RunLaws.AcceptedOnce | src/vpnpulse/storage/repository.py:220-272 | no message is accepted twice |
| RunLaws.RunInformed | src/vpnpulse/storage/repository.py:169-198 | in every run a scope has at most one pending admin notice, and it names the snapshot's state |
| RunLaws.AdminMessagesAreCurrent | src/vpnpulse/storage/repository.py:169-172 | whatever failed before, an admin message handed over describes the current state |
| RunLaws.OnlyGroupRowsCollapse | src/vpnpulse/storage/repository.py:229-242 | the admin branch of collapsing never fires |
| RunLaws.QuietHold | src/vpnpulse/storage/repository.py:36-43 | a degraded or no-data notice goes out only if every evaluation since found the same state and the hold has passed, or the scope was flapping |
| RunLaws.SilentExactly | src/vpnpulse/storage/repository.py:169-198 | a transition queues one notice describing the new state if and only if its key is new and it is not a return to operation after a data gap or an unannounced problem |
| RunLaws.NothingLeftDue | src/vpnpulse/storage/repository.py:220-272 | with a positive back-off a delivery leaves no pending row that is due |
| GroupLaws.OnlyNewestIsTried | src/vpnpulse/storage/repository.py:226-248 | per delivery each scope and destination is attempted at most once, with its newest due row |
| GroupLaws.OutageBatch | src/vpnpulse/storage/repository.py:231-241 | of alternating due rows from an outage the last outage goes out when they are odd in number, nothing when even |
| GroupLaws.RecoveryBatch | src/vpnpulse/storage/repository.py:231-241 | of alternating due rows from a recovery what goes out, by their number; three, five, and so on send nothing |
| GroupLaws.NotDueStaysExactly | src/vpnpulse/storage/repository.py:220-249 | when a message of a slot goes out, another of the slot stays pending if and only if it is pending and not due |
| GroupLaws.SaveGroupRows | src/vpnpulse/storage/repository.py:174-198 | an evaluation adds to the group's rows exactly the news it calls for, when its key is fresh |
| GroupLaws.AlertFollowsExactly | src/vpnpulse/storage/repository.py:94-105 | `group_alerted` follows a transition correctly if and only if it calls for no group message or its key is fresh |
| GroupRuns.GroupMessagesAlternate | src/vpnpulse/storage/repository.py:94-105 | for any messenger and interleaving, a scope's group messages alternate from an outage unless news is queued while another group row of the scope is pending; rows failed for good do no harm |
| GroupRuns.OvertakenWasRefused | src/vpnpulse/storage/repository.py:220-272 | in every run, a group message attempted while an older one of its scope stays pending finds that one refused before and still in back-off |
| Rounds.RoundsAlternate | src/vpnpulse/pipeline.py:254-261 | in rounds of evaluating and delivering whose group messages are accepted, whatever becomes of the others, the alternation holds and none is left pending |
| Rounds.RoundsAlert | src/vpnpulse/pipeline.py:254-261 | in such rounds with fresh keys `group_alerted` holds exactly while an outage is open |
| AlertLaws.AlertedExactlyWhileOutageOpen | src/vpnpulse/storage/repository.py:94-105 | for any messenger and interleaving, while no group message was given up or failed for good and keys were fresh, `group_alerted` holds exactly when an UNAVAILABLE evaluation has occurred since the last OPERATIONAL one |
| LastWord.RunInOrder | src/vpnpulse/storage/repository.py:220-272 | while nothing of the group's is overtaken, given up or failed for good, its rows are sent in order as far as it heard them and pending from there |
| LastWord.LastWordTrueExactly | src/vpnpulse/storage/repository.py:94-105 | in such runs with fresh keys the messages heard alternate, and the last is an outage exactly while one is open, if and only if an even number is pending |
| LastWord.BatchExactly | src/vpnpulse/storage/repository.py:226-242 | when a batch keeps the alternation, and when it leaves the last word that all its rows would leave, both exactly |
| LastWord.BatchTrueExactly | src/vpnpulse/storage/repository.py:220-249 | after a run in order, when delivering all that is pending keeps the alternation, and when it leaves a true last word, both exactly |
| LastWord.LastWordIsTrue | src/vpnpulse/storage/repository.py:94-105 | for any messenger and interleaving, uncrowded, with fresh keys and everything sent, the last message heard is an outage exactly while one is open |
| LastWord.RoundsTellTruth | src/vpnpulse/pipeline.py:254-261 | in rounds whose group messages are accepted, with fresh keys, the last word is true after every round |
| Shortfalls.SecondSilenceIsLost | src/vpnpulse/storage/repository.py:151-164 | in every run the second loss of all evidence from the same state is neither logged nor announced |
| Shortfalls.SecondSilenceHappens | src/vpnpulse/storage/repository.py:151-164 | a run of four evaluations whose log has fewer rows than its history has changes |
| Misled.RecoveryOvertakesOutage | src/vpnpulse/storage/repository.py:265-271 | for every interval from one back-off to nineteen, rounds after which the last group message is an outage of a server that works and nothing is left to send |
| Misled.OutageHeardTwice | src/vpnpulse/storage/repository.py:231-242 | for every interval no shorter than the back-off, three rounds in which the group hears of two outages in a row |
| Misled.RecoveriesCancel | src/vpnpulse/storage/repository.py:231-241 | for every interval from one back-off to nineteen, rounds whose refused recovery, outage and recovery cancel: the last word stays an outage of a server that works, and nothing is left to send |
| ReadModel.CutAtTransitions | src/vpnpulse/storage/read_model.py:214-226 | the first loop cuts the window into ascending pieces on which the log's state is constant |
| ReadModel.AddPiece | src/vpnpulse/storage/read_model.py:228-238 | one piece is appended without gap, split where the server becomes known |
| ReadModel.ClipToKnown | src/vpnpulse/storage/read_model.py:227-239 | the second loop tiles the window and keeps the states right |
| ReadModel.Timeline | src/vpnpulse/storage/read_model.py:202-239 | non-empty ordered contiguous intervals that exactly partition [start, end), each carrying the log's state at all its instants |
| TimelineLaws.SnapshotSummarises | src/vpnpulse/storage/repository.py:116-150 | in every run the snapshot carries the last evaluation and its version counts them |
| CardLaws.SnapshotHoldsLast | src/vpnpulse/storage/repository.py:124-150 | in every run a snapshot holds the scope's last evaluation, column by column, and exists exactly if there was one |
| CardLaws.SnapshotNamedByFirst | src/vpnpulse/storage/repository.py:131-136 | the server and the network it names stay those of the scope's first evaluation |
| TimelineLaws.LogIsChangesExactly | src/vpnpulse/storage/repository.py:151-168 | the log is the list of changes of the evaluation history if and only if every key was fresh, and is shorter otherwise |
| TimelineLaws.LogAsWritten | src/vpnpulse/storage/read_model.py:204-217 | while the clock does not run backwards ORDER BY keeps the log as written, and the state before it is unknown |
| TimelineLaws.TimelineShowsHistory | src/vpnpulse/storage/read_model.py:202-239 | writer and reader agree: every instant carries the state of the last evaluation at or before it, unknown before the first observation |
| TimelineLaws.FreshKeysExactly | src/vpnpulse/storage/repository.py:151-164 | keys were fresh if and only if no two changes of the scope's state had the same key |
| TimelineLaws.AdvancingEvidenceIsFresh | src/vpnpulse/storage/repository.py:151-153 | transitions whose evaluations were observed at strictly increasing instants have fresh keys |
| TimelineLaws.AgreesExactlyWhenKeysFresh | src/vpnpulse/storage/repository.py:151-168 | log and history agree at every instant if and only if no key was repeated |
| TimelineLaws.StateSinceIsSuffixStart | src/vpnpulse/storage/read_model.py:185-189 | `state_since` is when the history's current constant suffix began |
| TimelineLaws.LastIncidentIsLastEnd | src/vpnpulse/storage/read_model.py:190-200 | `last_incident_at` is when the last degraded or unavailable spell ended |
| Views.TimeIsInstants | src/vpnpulse/storage/read_model.py:202-247 | the intervals measure each state exactly as counting instants does |
| Views.InstantsTotal | src/vpnpulse/storage/read_model.py:241-252 | the times in the four states sum to the window |
| Views.TimeAddsOverSplit | src/vpnpulse/storage/read_model.py:202-239 | when the log is not empty, or both parts assume the same current state, splitting a window splits the time in every state |
| Views.Availability | src/vpnpulse/storage/read_model.py:241-256 | uptime and coverage are the nearest four-decimal fractions of the instants shown, both in [0, 1], absent exactly when nothing is known or the window is empty |
| Views.RoundExactly | src/vpnpulse/storage/read_model.py:241-256 | a share is rounded to the nearest of the fractions with four decimals, the even one of two |
| Views.SlotExactly | src/vpnpulse/storage/read_model.py:266-268 | every instant of the window has a bucket, and it is the one half-open slot that contains it |
| Views.MarkSeen | src/vpnpulse/storage/read_model.py:300-306 | a bucket is marked exactly when something was observed in its slot |
| Views.CollectValues | src/vpnpulse/storage/read_model.py:270-297 | every bucket gets its slot's values, in order |
| Views.StateAtInstant | src/vpnpulse/storage/read_model.py:308-312 | the search finds the state shown; falling through is unreachable |
| Views.Points | src/vpnpulse/storage/read_model.py:258-322 | every point: seen or not, the state shown one second before its slot ends, the rounded average |
| ChartLaws.PointExactly | src/vpnpulse/storage/read_model.py:258-322 | a point from the entries and observations of its slot alone: seen, state, and a number if and only if some entry carries a value, which is their mean rounded half up |
| Evidence.EvidenceStore.AcceptReport | src/vpnpulse/storage/store.py:226-281 | the tables and the outcome: stored with one observation per known target, duplicate, or conflict |
| Evidence.EvidenceStore.WriteObservations | src/vpnpulse/storage/store.py:245-279 | the loop writes one row per known target, in order of appearance, and counts them |
| Evidence.EvidenceStore.RowFromItems | src/vpnpulse/storage/store.py:254-277 | a target's row: failure over success over not-run, full test, control Internet, first error |
| ReportLaws.RowsSay | src/vpnpulse/storage/store.py:248-279 | one row for each of the servers the report checked; its result, full test, control Internet and error each follow from the checks of that server in the report, without exception |
| ReportLaws.OutcomeExactly | src/vpnpulse/storage/store.py:233-281 | duplicate, conflict or written, each if and only if the id is known with the same or another payload or new; how many rows are written; a known id changes nothing |
| ReportLaws.ItemRowsRepeat | src/vpnpulse/pipeline.py:134-146 | a collected row repeats its item; only the collector's own word on full tests is taken from its metrics |
| Evidence.EvidenceStore.GroupByTarget | src/vpnpulse/storage/store.py:248-250 | the grouping loop: targets in order of appearance, each with its items |
| Evidence.EvidenceStore.Sweep | src/vpnpulse/storage/store.py:328-332 | exactly the observations and the reports at or after the horizon stay, with their multiplicity, and every reference still resolves |
| EvidenceLaws.ReportsAreDelivered | src/vpnpulse/storage/store.py:226-244 | exactly the delivered reports are stored, whatever was repeated |
| EvidenceLaws.RedeliveryChangesNothing | src/vpnpulse/storage/store.py:240-244 | a delivered report changes nothing when it comes again |
| EvidenceLaws.StoredByReport | src/vpnpulse/storage/store.py:226-281 | how often a row is stored depends only on its report |
| EvidenceLaws.DeliveryOrderIrrelevant | src/vpnpulse/storage/store.py:226-281 | two deliveries of the same reports, in any order and repetition, store the same observations up to receive time |
| EvidenceLaws.EvaluationIsConfluent | src/vpnpulse/pipeline.py:157-188 | and lead to the same evaluation at any instant, unless ties of one source decide it |
| EvidenceLaws.ReadExactly | src/vpnpulse/pipeline.py:157-174 | an evaluation reads every row of the server with a known result that has not expired, as often as it is stored, oldest first, each as stored |
| EvidenceLaws.CoverageOfStored | src/vpnpulse/pipeline.py:176-180 | the coverage found is the number of sources with live rows over the number heard of in the last 24 hours |
| Evidence.AcceptKeepsReferences | src/vpnpulse/storage/store.py:233-279 | an observation's report is stored and as old as the observation |
| Evidence.SweepIsExact | src/vpnpulse/storage/store.py:328-332 | a report not older than the horizon is never deleted, an older one never kept, although the statement asks for references |
| EvidenceLaws.RedeliveryAfterSweep | src/vpnpulse/storage/store.py:233-244 | after a sweep a repeated report is recognised if and only if it is not older than the horizon |
| RetentionLaws.RecentRowsOnce | src/vpnpulse/storage/store.py:226-332 | in every run of deliveries and sweeps, the observations not older than the last sweep are those of every delivered report counted once, up to receive time |
| Aggregates.Aggregator.Buckets | src/vpnpulse/pipeline.py:230-242 | the loop collects the samples of every hour of the window, and only those |
| Aggregates.Aggregator.ReplaceWindow | src/vpnpulse/pipeline.py:243-250 | one protocol's window becomes what its samples say; all other rows stay |
| Aggregates.Aggregator.InsertBucket | src/vpnpulse/pipeline.py:245-249 | one more hour of the window holds its summary, nothing else changes |
| Aggregates.Aggregator.AggregateHourly | src/vpnpulse/pipeline.py:221-251 | every hour of the 25 before the current one is right for every protocol, said of the stored rows alone; rows outside are untouched |
| Aggregates.Aggregator.Maintain | src/vpnpulse/pipeline.py:213-219 | sweep, expiry of aggregates and rebuild, in that order |
| Aggregates.ScratchExactly | src/vpnpulse/pipeline.py:228-249 | an hour's row is right if and only if it exists exactly when a count was taken, its least and greatest are counts that bound all, and its number, average and unknown time are theirs |
| AggregateLaws.ExpiredAreGone | src/vpnpulse/pipeline.py:213-217 | a maintenance leaves no row older than the aggregates are kept for, outside the window it rebuilds |
| AggregateLaws.MaintainedEqualsRecomputed | src/vpnpulse/pipeline.py:213-251 | in every timely run every covered hour has a row exactly if a count was ever stored for it, with the minimum, maximum, average, number and unknown time of all of them |
| AggregateLaws.RebuildIsIdempotent | src/vpnpulse/pipeline.py:222 | rebuilding twice gives what rebuilding once gives |
| AggregateLaws.RetentionSufficesExactly | src/vpnpulse/pipeline.py:213-224 | a maintenance keeps the aggregate right, in every steady run in which it was right before, if and only if retention is at least 25 hours plus the minutes of the current one |
| AggregateLaws.ShortRetentionErases | src/vpnpulse/pipeline.py:213-251 | with a shorter retention, a run in which a maintenance deletes an hour's row that was right |
| RateLimiter.Limiter.Allow | src/vpnpulse/api/security.py:25-42 | the table and the answer: refill, grant, recency, eviction, advertised wait |
| RateLimiterLaws.TableBounded | src/vpnpulse/api/security.py:38-40 | in every run the table lists each client once and never exceeds its bound |
| RateLimiterLaws.InTableExactly | src/vpnpulse/api/security.py:28-40 | a client is in the table if and only if it has called and fewer than max_keys others have called since it last did |
| RateLimiterLaws.TokensInRange | src/vpnpulse/api/security.py:29-37 | tokens stay between zero and the limit, whatever the clock does |
| RateLimiterLaws.AdmissionBound | src/vpnpulse/api/security.py:25-42 | with a monotone clock and whatever the others do, a client is let through at most one bucketful, one more for each return after max_keys others displaced it, plus the refill for the time elapsed |
| RateLimiterLaws.OneBucketful | src/vpnpulse/api/security.py:25-42 | one bucketful plus the refill, when fewer than max_keys others call between any two successive calls of the client |
| RateLimiterLaws.SpacedClientNeverRefused | src/vpnpulse/api/security.py:25-42 | requests at least 60 / per_minute seconds apart are never refused, evicted or not |
| RateLimiterLaws.RetryAfterSuffices | src/vpnpulse/api/security.py:41 | a request at least retry_after plus a millisecond after a refusal is let through, unless one in between was |
| RateLimiterLaws.AdvertisedWaitSufficesExactly | src/vpnpulse/api/security.py:41 | after exactly the advertised wait the client is let through if and only if max_keys others have called meanwhile or the rounding covers its deficit |
| RateLimiterLaws.AdvertisedWaitSufficesWhenFast | src/vpnpulse/api/app.py:135-136 | on routes of at least sixty a minute it always is |
| RateLimiterLaws.AdvertisedWaitMayFallShort | src/vpnpulse/api/app.py:135-136 | on the route of twenty a minute a client is told to wait 2 seconds and refused again after them |

## Left out

- SQLite, WAL, locking and threads: transactions are atomic steps, tables are sequences or maps, and rowid order is insertion order.
- ISO timestamp text and its lexical ordering, and JSON encoding: instants are integers and payloads are records.
- HTTP, Telegram, cookies, SSH collection, the collectors map, the CLI with backup and restore, the Mini App and translations.
- Sessions, enrolment codes, auditing, analytics and the administrator's note: single-statement writes.
- The paging of events, and the event row written beside a transition: plain LIMIT/OFFSET and one insert.
- The seven-day connection chart's alignment: its points take the hourly averages as entries, and nothing is claimed about how those hours fall into its slots.
- Columns no modelled decision reads: confidence and via-server metadata of an observation, its network scope, a probe's last_seen_at, collection runs.
- Evidence.EvidenceStore.AcceptReport: a report always carries an observation time, and a probe is of one of the four configured kinds; the fallbacks to the time of receipt and to the kind's own name are not modelled.
- Observation rows hold parsed metrics: a row whose stored JSON does not parse is a row without those metrics, as the readers treat it.
- Repository.NotificationWorker.DeliverPending: rows are grouped by their scope key, which every notice written here carries; the fallbacks to a server id or row id are not modelled.
- Monitor.Pipeline.Maintain: it sweeps the evidence; the hourly aggregate rebuilt in the same breath is modelled by `Aggregates.Aggregator` over the same kind of rows.
- Monitor.Pipeline.RunOnce: mirroring the configuration into the tables on the first run, and the collection run's own row, are not modelled; a collector that fails delivers no items.
- Aggregates.Aggregator.AggregateHourly: the polling interval is a whole number of seconds, and sums are exact rather than rounded floats.
- RateLimiter.Limiter.Allow: token arithmetic is exact rather than in floats, and a limit of zero, on which the code divides by zero, is excluded.
- Recommender.LoadWithinTenPercent: loads are non-negative, as the collectors report them.
