# AutoSIEM, verified

AutoSIEM is a security event pipeline. Lines are admitted to a durable queue, processed in batches,
saved and acknowledged; findings are correlated into incidents that later batches extend; rules are
exchanged in the Sigma format. This project models the parts where failures and interleavings
matter, and proves what they keep.

| part | files |
|---|---|
| durable queue and ingest protocol | `Bus`, `BusRuns`, `DurableQueue`, `Ingest`, `IngestSafety`, `IngestRuns`, `IngestBisect`, `IngestDrain`, `DistributedPipeline` |
| learned state | `Anomaly`, `AnomalyHistory`, `AnomalyDetector`, `Suppression` |
| Sigma compiler and exporter | `Detection`, `SigmaCombine`, `SigmaCondition`, `ConditionParser`, `SigmaScalar`, `SigmaExport`, `SigmaBlocks`, `SigmaRoundTrip`, `SigmaReimport`, `SigmaExporter` |
| correlation, merging, incident store | `UnionFind`, `Correlation`, `Incidents`, `Merging`, `MergeStories`, `MergeLanding`, `IncidentStore`, `IncidentGuards`, `IncidentReplacement`, `IncidentRuns`, `IncidentStories`, `IncidentVerdicts`, `IncidentTables`, `Decision` |
| journal, audit log | `Journal`, `JournalRuns`, `JournalTears`, `Audit` |
| drainer threads | `Drainer`, `DrainerIngest`, `Batcher` |
| shared | `Common`, `Decimal`, `Schemas`, `Sorting` |

Objects that change in place are classes whose methods are proved equal to functions on their state;
the properties over whole runs are lemmas about those functions. What the outside world does (whether
processing, saving, acknowledging, a compaction or a write fails, and how) is a parameter that every
theorem quantifies over. A save or an acknowledgement fails if and only if nothing of it was committed.
Times are integers, fractions are rationals, and case folding, regular expressions, hashing and the
JSON codec are arbitrary functions with only the properties the theorems name.

Where the code and its documentation or the obvious expectation part, the model follows the code and
says so in a lemma: a failed compaction loses the bound on acknowledged rows
(`BusRuns.FailedCompactionBreaksTheBound`); a repeat threshold of one switches the check off
(`Suppression.ThresholdOneKeepsEverything`); `null` does not negate (`SigmaCombine.NullDoesNotNegate`);
negative integers, control characters and empty lists do not survive a Sigma export
(`SigmaScalar.IntegerReadBackIff`, `SigmaScalar.ScalarRoundTripIff`,
`SigmaRoundTrip.EmptyListReadBackIff`), and a `not` over several operators on one field is exported but
refused on import (`SigmaReimport.SeveralOperatorsDoNotComeBack`); a replaced finding leaves its
incident's score stale (`IncidentReplacement.ReplacedFindingGoesStale`); a verdict between read and save
can leave a disconnected incident (`IncidentVerdicts.LateVerdictSplits`); negative points can lower a decision unnoticed
(`Decision.NegativePointsGoUnnoticed`); a journal line that lost only its end repeats a sequence number
(`Journal.LostEndRepeatsSequence`). The comment above `DECISION_RISK_THRESHOLDS` says the analyst's
confidence changes only at those scores; it also changes with the number of findings and the first
anomaly, which `Decision.ImmaterialKeepsConfidence` holds fixed.

## Model

| member | source | states |
|---|---|---|
| `Bus.PullTakesOldest` | src/autosiem/bus.py:223-232 | any pending row a pull leaves behind is newer than every row it took, and the pull was full |
| `Bus.CompactKeeps` | src/autosiem/bus.py:258-276 | however far a chunked compaction gets, every pending and dead row and the checkpoint row survive in order; a complete one leaves everything but the acknowledged rows below the newest acknowledged one |
| `Bus.AckManyFacts` | src/autosiem/bus.py:237-256 | an acknowledgement with its opportunistic compaction alters only the named rows, deletes no row that is not acknowledged, and strictly lowers the pending count if it named a pending row |
| `Durable.DurableQueue.PushMany` | src/autosiem/bus.py:196-216 | appends under the pending limit, in order, with increasing offsets; the new table is that of the specification |
| `Durable.DurableQueue.Pull` | src/autosiem/bus.py:223-232 | pending rows only, oldest first, at most the limit; every pending row left behind is newer than all of them, and then the batch is full |
| `Durable.DurableQueue.AckMany` | src/autosiem/bus.py:237-256 | marks the rows, counts them, and compacts at the threshold; the new table and counter are those of the specification |
| `Durable.DurableQueue.CompactAcked` | src/autosiem/bus.py:258-276 | the deleting loop terminates and leaves the table of the specification, also when one of its chunks fails |
| `Durable.DurableQueue.SetAside` | src/autosiem/bus.py:289-296 | the row with the offset becomes a dead letter with its payload kept, so there is one pending row fewer if it was pending; no other row changes |
| `Durable.DurableQueue.RequeueDeadLetters` | src/autosiem/bus.py:303-307 | no dead letter is left; as many rows more are pending as the returned count; every row that was not dead is untouched |
| `BusRuns.EveryRun` | src/autosiem/bus.py:148-158 | over every run of pushes, acks, dead-letters, requeues, compactions and reopenings, whether or not compactions fail: offsets strictly increase, every pushed row is stored unchanged or was acknowledged before it was deleted, and acknowledged rows never exceed the ack counter plus one unless the last compaction due failed too early |
| `BusRuns.EveryRunFromEmpty` | src/autosiem/bus.py:137-158 | in particular over every run from the empty queue |
| `BusRuns.BoundAfterDueIff` | src/autosiem/bus.py:243-256 | after an acknowledgement that makes a compaction due, the bound holds if and only if no more than the threshold, one, and the rows of the chunks deleted before a failure are acknowledged |
| `BusRuns.UnackedRowsStay` | src/autosiem/bus.py:258-287 | a pending or dead row leaves the queue only by being acknowledged first |
| `BusRuns.FailedCompactionBreaksTheBound` | src/autosiem/bus.py:248-256 | a run from the empty queue: after pushing and acknowledging at least the threshold of rows, with the compaction failing at once, the bound holds if and only if fewer than two rows above the threshold went in |
| `Distributed.DistributedPipeline.Admit` | src/autosiem/distributed.py:186-200 | pushes lines and returns how many the queue accepted |
| `Distributed.DistributedPipeline.Settle` | src/autosiem/distributed.py:286-313 | the recursive bisection with its rollback ends in the state, outcome and suspects of the specification, whatever processing, saving and acknowledging do |
| `Distributed.DistributedPipeline.SettleBatch` | src/autosiem/distributed.py:268-284 | suspects are set aside only when the batch settled something, else the error is raised |
| `Distributed.DistributedPipeline.SaveHeld` | src/autosiem/distributed.py:341-357 | persist, clear the held batch, remember offsets to acknowledge, feed the backend, acknowledge; a fault at any of them leaves the state of the specification |
| `Distributed.DistributedPipeline.SetAsideAll` | src/autosiem/distributed.py:359-372 | dead-letters the suspects one by one; stops at the first failure, whether it comes before the dead letter is committed or after, while they are counted |
| `Distributed.DistributedPipeline.SendToBackend` | src/autosiem/distributed.py:374-382 | backlog of backend events, bounded, oldest dropped |
| `Distributed.DistributedPipeline.FlushBackend` | src/autosiem/distributed.py:384-405 | retries the backlog before a drain |
| `Distributed.DistributedPipeline.DrainQueue` | src/autosiem/distributed.py:222-266 | the drain loop terminates and ends in the state and outcome of the specification |
| `IngestSafety.TurnKeeps` | src/autosiem/distributed.py:239-266 | every turn of the drain loop, with any outcome of process, persist and ack, keeps the invariant of queue, log and learner; a turn that continues leaves fewer pending rows; one that finishes leaves none |
| `IngestSafety.SettleKeeps` | src/autosiem/distributed.py:286-313 | settling a batch keeps that invariant, and blames only lines that are still pending and unsaved |
| `IngestSafety.SettleBatchKeeps` | src/autosiem/distributed.py:268-284 | and a line is set aside only if a line of the same batch was saved in the same call |
| `IngestSafety.RestoreUndoes` | src/autosiem/distributed.py:321-339 | restoring a snapshot gives back exactly the learned state it was taken of |
| `IngestRuns.NoLineSavedTwice` | src/autosiem/distributed.py:222-313 | over every run of admits, drains and requeues within a process, with transient or permanent failures anywhere, no line is in two successful saves or twice in one |
| `IngestRuns.SavedAgainOnlyIfLost` | src/autosiem/distributed.py:222-266 | across restarts, a line is saved again only if the process ended between its save and its acknowledgement |
| `IngestRuns.AckedOnlyAfterSave` | src/autosiem/distributed.py:341-357 | no line is acknowledged before a save containing it succeeded |
| `IngestRuns.SavedNeverTouchedAgain` | src/autosiem/distributed.py:239-313 | within a process, a saved line, acknowledged or not, is never processed or dead-lettered again |
| `IngestRuns.QueueTellsTheTruth` | src/autosiem/distributed.py:239-266 | a line of the queue, unless a restart lost its acknowledgement, was saved if and only if it is acknowledged or waiting for exactly that |
| `IngestRuns.NothingLearnedTwice` | src/autosiem/distributed.py:286-339 | whenever a drain returns or raises, the learned state is the one from processing exactly the saved batches in order, plus the held batch if any |
| `IngestRuns.HeldIsNotReprocessed` | src/autosiem/distributed.py:243-254 | a held batch is saved from memory; unless its save fails permanently no turn processes it again |
| `IngestRuns.DrainKeeps` | src/autosiem/distributed.py:222-266 | a drain that returns leaves nothing pending, held or unacknowledged |
| `IngestRuns.BackendAccounts` | src/autosiem/distributed.py:374-382 | every saved event is delivered, waiting or counted as dropped, oldest dropped first, and no more than the bound wait |
| `IngestBisect.SettleIsExact` | src/autosiem/distributed.py:286-313 | when the permanent failures are exactly the batches holding a bad line, every good line is saved once and in order, exactly the bad ones are reported, in at most 1 + 2 k ceil(log2 n) processing passes |
| `IngestBisect.BoundMeaning` | src/autosiem/distributed.py:312-313 | the bound on passes is 1 + 2 k times the logarithm |
| `IngestBisect.CeilLog2Meaning` | src/autosiem/distributed.py:312-313 | the bound uses the true logarithm rounded up |
| `IngestBisect.BatchSetsAsideExactlyTheBad` | src/autosiem/distributed.py:268-284 | bad lines are dead-lettered if and only if a good line was saved beside them; otherwise the error is raised, nothing is saved or dead-lettered, and every line of the batch is still pending |
| `IngestDrain.DrainPutsEveryLineInPlace` | src/autosiem/distributed.py:222-284 | a whole drain against such failures returns if and only if, cut into pulls of the batch size, the rows pending before it have a good line in every pull with lines; then it has saved every waiting good line and dead-lettered every waiting bad one; otherwise it raises a permanent error, and every waiting line still waits or is where it belongs |
| `Anomaly.SnapshotRoundTripIff` | src/autosiem/anomaly.py:110-147 | from_dict(to_dict(s)) == s if and only if no time window is longer than its bound |
| `Anomaly.LearnAllBounds` | src/autosiem/anomaly.py:314-331 | learning never makes a window longer than its bound |
| `AnomalyHistory.LearnedStateAgrees` | src/autosiem/anomaly.py:314-331 | after any events every counter (per entity, per user and address or host, per action), hour counter, observation count, window and peer count equals a definition over the whole history |
| `AnomalyHistory.PeerSignalIsExact` | src/autosiem/anomaly.py:179-211 | for an observed entity the peer signal compares exactly the other entities that did the action with exactly the other entities of its kind, and awards 1 to 20 points |
| `AnomalyHistory.PeerCountRightIffObserved` | src/autosiem/anomaly.py:149-152 | the peer count is right if and only if the entity was observed before |
| `Detector.AnomalyDetector.Update` | src/autosiem/anomaly.py:314-331 | the updating loops reach the learned state of the specification |
| `Detector.AnomalyDetector.Restore` | src/autosiem/distributed.py:331-339 | the state the snapshot was taken of, if and only if that state kept its windows within their bound; restored windows always do |
| `Detector.AnomalyDetector.PeerSignals` | src/autosiem/anomaly.py:179-211 | the signals of the specification, in entity order, changing nothing |
| `Suppression.DequeIsWindow` | src/autosiem/suppression.py:201-219 | with non-decreasing times per rule and entity, the repeat deque holds exactly the earlier occurrences still inside the window |
| `Suppression.DequeIsWindowIff` | src/autosiem/suppression.py:201-219 | whatever the times, the deque is exactly the window after every check if and only if at each check whatever lies in the new window lay in the last one, and what has expired since stands before what has not |
| `Suppression.KeptIffWithinThreshold` | src/autosiem/suppression.py:201-219 | as long as the checks are timely in that sense, a finding passes the repeat check if and only if at most threshold occurrences, itself included, lie in the window ending with it |
| `Suppression.KeptBound` | src/autosiem/suppression.py:201-219 | with timely checks no window of the configured length contains more than threshold kept findings of one key |
| `Suppression.ThresholdOneKeepsEverything` | src/autosiem/suppression.py:201-206 | a threshold of one or less switches the check off |
| `Suppression.WithoutCheckAllAreKept` | src/autosiem/suppression.py:201-206 | with the check off the kept findings of a window are all its occurrences, so the bound holds if and only if no more than threshold occurrences lie in it |
| `Suppression.OutOfOrderKeepsExpired` | src/autosiem/suppression.py:201-219 | the witness: with times that go back the deque holds an expired occurrence |
| `Suppression.CallsCompose` | src/autosiem/suppression.py:160-199 | any number of apply calls leaves the state of one history of checks |
| `Suppression.VerdictIsLastKept` | src/autosiem/suppression.py:160-199 | the verdict of a finding in a call is the one its place in that history gives it |
| `Suppression.CallsKeepBound` | src/autosiem/suppression.py:160-219 | across any number of apply calls with timely checks, no window of the configured length contains more than threshold findings of one rule and entity that the calls kept after the repeat check |
| `Suppression.NothingVanishes` | src/autosiem/suppression.py:160-199 | id by id, the findings a call keeps and those it records as dropped are together exactly the findings it was given |
| `Suppression.SuppressionEngine.AutoRepeat` | src/autosiem/suppression.py:201-219 | the popping and appending loop on the deque reaches the specification |
| `Suppression.SuppressionEngine.ApplyTo` | src/autosiem/suppression.py:160-199 | the loop over findings, with lowering of severity, reaches the specification |
| `Detection.ScalarCoherentIff` | src/autosiem/detection.py:37-166 | for scalars, exactly which event values make a plain value and the equals operator disagree |
| `Detection.TextIsCoherent` | src/autosiem/detection.py:37-64 | a non-empty string against a text or absent field reads the same both ways |
| `SigmaCombine.AnyMeansOr` | src/autosiem/sigma.py:625-632 | the alternative constructor, with its flattening, matches when some part does |
| `SigmaCombine.AllMeansAnd` | src/autosiem/sigma.py:635-679 | the conjunction constructor, with its flattening and flat merging, matches when every part does |
| `SigmaCombine.NotMeansNot` | src/autosiem/sigma.py:657-719 | the negation constructor, with double-negation removal and operator flipping, matches when its part does not |
| `SigmaCombine.PlainNegationIff` | src/autosiem/sigma.py:657-719 | negating a single plain value is right if and only if the event is coherent with it |
| `SigmaCombine.NullDoesNotNegate` | src/autosiem/sigma.py:682-719 | a null filter does not negate: an event without the field matches the filter and its negation |
| `SigmaCondition.ParseIffSpells` | src/autosiem/sigma.py:507-556 | the recursive-descent parser accepts exactly the spellings of the grammar, and each spells one tree, with or weaker than and, and weaker than not |
| `SigmaCondition.ConditionKeepsMeaning` | src/autosiem/sigma.py:507-719 | if parsing succeeds, the compiled selection matches an event coherent with the blocks the condition names exactly when the or/and/not/1 of/all of expression over the blocks' own truth values is true |
| `SigmaParser.ConditionParser.Parse` | src/autosiem/sigma.py:515-521 | the parser that advances its index builds the selection of the specification, and errs exactly where it does |
| `SigmaScalar.ScalarRoundTripIff` | src/autosiem/sigma.py:420-448 | reading back a written string gives the string if and only if it does not need double-quote escapes around a control character |
| `SigmaScalar.ScalarRoundTrip` | src/autosiem/sigma.py:1061-1101 | every string without control characters is read back as written |
| `SigmaScalar.LineRoundTrip` | src/autosiem/sigma.py:243-260 | comment stripping keeps a written field line whole, and splitting gives back exactly the field and the scalar |
| `SigmaScalar.ItemRoundTrip` | src/autosiem/sigma.py:399-417 | a written list item is never taken for a mapping, nor cut as a comment |
| `SigmaScalar.OtherScalarsRoundTrip` | src/autosiem/sigma.py:1080-1101 | null, Booleans and non-negative integers are read back as written |
| `SigmaScalar.NegativeNumberBecomesText` | src/autosiem/sigma.py:420-448 | every negative integer comes back as the string of its digits with the sign |
| `SigmaScalar.IntegerReadBackIff` | src/autosiem/sigma.py:420-448 | an integer is read back as written if and only if it is not negative |
| `SigmaScalar.StripCommentOf` | src/autosiem/sigma.py:243-260 | the quote-tracking scan stops at the first comment mark outside quotes |
| `SigmaScalar.SplitMappingOf` | src/autosiem/sigma.py:399-417 | the quote-tracking scan splits at the first colon outside quotes |
| `SigmaBlocks.FieldComesBack` | src/autosiem/sigma.py:1014-1054 | every field a block can hold is written with a key that parses back to the same field and operator |
| `SigmaBlocks.AgainMeans` | src/autosiem/sigma.py:722-785 | what a field comes back as matches the same events, although values become strings and equals becomes a plain value |
| `SigmaBlocks.BlockMeans` | src/autosiem/sigma.py:722-785 | a block written out and read back is a flat selection matching the same events, no field overwriting another |
| `SigmaRoundTrip.SplitMeans` | src/autosiem/sigma.py:963-1003 | the fields hold exactly when the positive side does and nothing on the filter side does |
| `SigmaRoundTrip.EmitOk` | src/autosiem/sigma.py:898-948 | emitted blocks have distinct names and can be written; the emitted term can be read |
| `SigmaRoundTrip.EmitSays` | src/autosiem/sigma.py:909-948 | the emitted term, read over the emitted blocks, is true exactly when the selection matches |
| `SigmaRoundTrip.ExportImportKeepsMeaning` | src/autosiem/sigma.py:818-948 | whenever export and re-import both succeed, the selection read back matches exactly the same events, for flat selections with filters and for nested any_of/all_of/not trees |
| `SigmaRoundTrip.TextRoundTrip` | src/autosiem/sigma.py:819-826 | in particular for non-empty strings over events in which the fields the selection names are text or absent, whatever the other fields hold |
| `SigmaRoundTrip.FlatKeeps` | src/autosiem/sigma.py:839-859 | a flat selection with one operator a field always re-imports, with the same meaning |
| `SigmaRoundTrip.EmptyListReadBackIff` | src/autosiem/sigma.py:1014-1054 | for every list operator, what an empty list is read back as matches the same events if and only if the value is not one that null, or its text, matches: a missing field for in, a text containing, beginning or ending with None for the any operators, and nothing for the all operators |
| `SigmaRoundTrip.EmptyPlainListReadBackIff` | src/autosiem/sigma.py:1014-1054 | a plain empty list matches the same events after export and import if and only if the field is present |
| `SigmaReimport.ReimportIs` | src/autosiem/sigma.py:818-948 | what the whole round trip gives, computed on the selection alone: a structured selection comes back as its parts rebuilt one by one, or not at all if some part or list of branches in it is empty, which is refused or written as an empty parenthesis |
| `SigmaReimport.ReimportsIff` | src/autosiem/sigma.py:657-719 | whatever the nesting, export and re-import both succeed if and only if the selection needs no structure, or nothing in it is empty and no negated part comes back as one field with several operators |
| `SigmaReimport.SeveralOperatorsDoNotComeBack` | src/autosiem/sigma.py:682-719 | an input that fails: not over one field that must contain one text and start with another is exported and cannot be imported again |
| `SigmaExporter.Exporter.AddBlock` | src/autosiem/sigma.py:898-907 | bumps one counter and appends one named block |
| `SigmaExporter.Exporter.EmitFields` | src/autosiem/sigma.py:911-925 | the loops over include and filter fields append the blocks and terms of the specification |
| `SigmaExporter.Exporter.Emit` | src/autosiem/sigma.py:909-948 | the recursive emitter reaches the blocks, counters and term of the specification, or errs where it does |
| `UnionFind.Classes.Find` | src/autosiem/risk.py:65-69 | path halving terminates, returns the root, and changes no root |
| `UnionFind.Classes.Union` | src/autosiem/risk.py:71-78 | joins exactly the two classes, led by the lower root |
| `UnionFind.RootIsLeast` | src/autosiem/risk.py:71-78 | each root is the least member of its class |
| `UnionFind.HalvingKeepsRoots` | src/autosiem/risk.py:65-69 | skipping a parent keeps parents at or below their index and every root unchanged |
| `Correlation.ChainReaches` | src/autosiem/risk.py:101-106 | two close findings of one entity are linked although only consecutive ones are |
| `Correlation.ClassesAreComponents` | src/autosiem/risk.py:94-106 | the classes are exactly the connected components of "shares an entity and at most a window apart" |
| `Correlation.CorrelateFindings` | src/autosiem/risk.py:81-111 | the clusters are those components; each is chronological, they come in order of their first finding, and every finding is in exactly one, once |
| `Correlation.ClustersAreUnique` | src/autosiem/risk.py:81-111 | those properties determine the list of clusters completely |
| `Correlation.OrderedFacts` | src/autosiem/risk.py:94-94 | ordering by time and position is strict and loses and repeats nothing |
| `Incidents.IncidentSums` | src/autosiem/risk.py:171-192 | risk is the capped sum and severity the maximum over the findings, whatever their order |
| `Incidents.IncidentEntities` | src/autosiem/risk.py:114-122 | entities are those of the findings, or the placeholder when there are none |
| `Incidents.KillChainFacts` | src/autosiem/risk.py:125-132 | techniques are those of the findings, none twice |
| `Incidents.EntityTimes` | src/autosiem/risk.py:239-246 | the timetable holds exactly the times of the findings with each entity, sorted |
| `Incidents.BisectFinds` | src/autosiem/risk.py:249-260 | the element the bisection finds is in the window if and only if some element is |
| `Incidents.Linked` | src/autosiem/risk.py:249-260 | true exactly when some finding shares a real entity with a stored one inside the window |
| `Merging.JoinsHighestRisk` | src/autosiem/risk.py:277-287 | a cluster joins a linked incident with room that no other such incident outranks by risk, age and id |
| `Merging.CandidatesFacts` | src/autosiem/risk.py:277-280 | the candidates are exactly the stored incidents with room, in that order |
| `Merging.MergeIntoStored` | src/autosiem/risk.py:263-309 | opens one incident for each cluster that joins nothing and merges once into each incident that gains something, with exactly the findings that join it and are not redeliveries |
| `MergeStories.ClusterIsOneStory` | src/autosiem/risk.py:81-111 | a cluster is connected by its own findings |
| `MergeStories.MergedIsOneStory` | src/autosiem/risk.py:293-309 | clusters that each link to a connected incident extend it to a connected one, even when redeliveries are left out |
| `MergeStories.MergingKeepsStories` | src/autosiem/risk.py:263-309 | every incident a batch opens or extends is connected |
| `MergeLanding.EveryFindingLandsOnce` | src/autosiem/risk.py:285-309 | every finding of a batch lands in exactly one new incident or exactly one merge, or is a redelivery and lands in none |
| `IncidentTables.RelationalStorage.SavePipelineResult` | src/autosiem/storage.py:110-214 | inserts findings and incidents and merges, in order, reaching the tables of the specification |
| `IncidentTables.RelationalStorage.MergeIncident` | src/autosiem/storage.py:239-274 | recomputes an open incident from its stored findings and the new ones; refuses one no longer open, changing nothing |
| `IncidentTables.RelationalStorage.UpdateIncident` | src/autosiem/storage.py:599-636 | sets the given triage fields of one row; a missing incident changes nothing |
| `IncidentTables.RelationalStorage.OpenIncidentsForEntities` | src/autosiem/storage.py:216-237 | returns open incidents with room and their findings, and misses none of the scanned ones that touch the entities |
| `IncidentReplacement.SaveKeepsIff` | src/autosiem/storage.py:110-274 | whatever findings a save carries, stored ones with other contents included, every incident equals the recomputation from its findings afterwards if and only if each incident is merged into by the same save or is indifferent to the replacements among its findings: the times stay in order, and the capped sums, top severities, entities and techniques agree |
| `IncidentReplacement.RowStaysIff` | src/autosiem/storage.py:136-150 | inserting any batch leaves a stored incident equal to the recomputation if and only if it is indifferent to what the batch replaces among its findings |
| `IncidentReplacement.AgreeingIsHarmless` | src/autosiem/storage.py:110-137 | a save that carries only new findings, or stored ones unchanged, falsifies no incident |
| `IncidentGuards.SaveGuards` | src/autosiem/storage.py:142-177 | whatever findings a save carries, it changes no status, assignee or resolution and nothing of a resolved or closed incident |
| `IncidentReplacement.ReplacementKeepsIff` | src/autosiem/storage.py:1219-1224 | over any right tables, replacing one finding by any other with its id keeps them right if and only if, for every incident that lists it, the new time keeps the order, the points are equal or both sums reach the cap, the severities are equal or another finding is as severe as both, the entities come to the same with those of the other findings, and the techniques are met in the same order |
| `IncidentStore.MergeIsOk` | src/autosiem/storage.py:239-274 | after a merge the incident is the recomputation from exactly the known and the new finding ids |
| `IncidentGuards.SaveItemLands` | src/autosiem/storage.py:157-177 | everything an item brings is in some incident afterwards, whether or not its target is still open |
| `IncidentReplacement.ReplacedFindingGoesStale` | src/autosiem/storage.py:1219-1224 | the witness: an incident of one finding goes stale when that finding is saved again with more points |
| `IncidentRuns.EveryStateOk` | src/autosiem/storage.py:239-274 | under any interleaving of reads, saves and triage from right tables, the stored risk, severity, entities and ids of every incident equal the recomputation from its findings in every state if and only if every save recomputes each incident that its replaced findings falsify |
| `IncidentRuns.NoFindingIsLost` | src/autosiem/storage.py:139-177 | under any interleaving, replaced findings included, every finding a pipeline saves is from then on listed by some incident, or is a redelivery of one that is |
| `IncidentRuns.VerdictFreezes` | src/autosiem/storage.py:246-248 | under any interleaving, replaced findings included, an incident that stays resolved or closed keeps its list of findings, score and all else it says |
| `IncidentRuns.TriageSurvives` | src/autosiem/storage.py:254-266 | no save, replaced findings included, changes status, assignee or resolution |
| `IncidentRuns.DecidedFindingsStayIff` | src/autosiem/storage.py:1219-1224 | the rows of the findings under a decided incident stay the same through a save if and only if the save carries none of them with other contents |
| `IncidentStories.EveryIncidentIsOneStory` | src/autosiem/risk.py:263-309 | over any run in which no finding is replaced, every incident stays connected if and only if each save whose target was decided between the read and the save brings findings connected by themselves |
| `IncidentVerdicts.LateVerdictSplits` | src/autosiem/storage.py:142-147 | a run from the empty tables: a finding connects two others, its incident is closed before they are merged into it, and the incident they open is not connected |
| `IncidentVerdicts.SomeBridge` | src/autosiem/risk.py:81-111 | there are findings for such a run |
| `Decision.AddingIsMonotone` | src/autosiem/risk.py:171-192 | adding findings lowers no severity and removes no technique and no entity but the placeholder for none; the risk becomes the capped sum, and is no lower if no added points are negative |
| `Decision.ImmaterialKeepsDecision` | src/autosiem/soc_runtime.py:601-626 | an immaterial merge with non-negative points leaves the decision type unchanged |
| `Decision.ImmaterialKeepsDecisionIff` | src/autosiem/soc_runtime.py:601-626 | with points of any sign an immaterial merge leaves the decision type unchanged if and only if the capped sum of points does not fall past a score at which the decision turns for the incident's severity |
| `Decision.ImmaterialKeepsConfidence` | src/autosiem/soc_runtime.py:585-599 | and the confidence, for the same number of findings and presence of anomalies |
| `Decision.NegativePointsGoUnnoticed` | src/autosiem/risk.py:223-236 | the witness: an immaterial merge with negative points that lowers an escalation to likely benign |
| `Journal.AppendKeepsIff` | src/autosiem/archive.py:81-114 | after an append torn at any byte, and then a whole append of at least one record by any writer with a right count, the k-th readable record carries sequence k if and only if the tear did not lose exactly the end of a line |
| `Journal.AnyTearKeepsCounts` | src/autosiem/archive.py:99-114 | however it is torn, an append changes no earlier byte, leaves the readable records numbered and the writer's own count right |
| `Journal.AppendKeeps` | src/autosiem/archive.py:99-114 | it changes no earlier byte and leaves the writer's count equal to the readable records in the bytes it has scanned |
| `Journal.AppendNumbers` | src/autosiem/archive.py:90-97 | a whole append adds exactly its records, numbered on from those already readable |
| `Journal.CaughtUp` | src/autosiem/archive.py:61-73 | catching up from any right cache counts every readable record and notices a torn line |
| `Journal.LostEndRepeatsSequence` | src/autosiem/archive.py:99-107 | after losing just the end of a line, readers see two records with the same sequence |
| `JournalRuns.JournalStaysRight` | src/autosiem/archive.py:61-114 | with any number of writers, restarts and fair tears, the k-th readable record carries sequence k and every cached count is right |
| `JournalRuns.NumberingIffFair` | src/autosiem/archive.py:61-114 | over any fair run, then a tear at any byte, then a whole append by any writer: the numbering is right if and only if that tear did not lose exactly the end of a line |
| `JournalTears.RightIffFair` | src/autosiem/archive.py:61-114 | over every run of writers, with any number of writes torn at any byte: the records are numbered, the last line is no record without its end, and every cached count is right, if and only if no tear lost exactly the end of a line |
| `JournalTears.NumbersOnIffFair` | src/autosiem/archive.py:81-114 | after such a run, whichever writer appends next and whatever it appends whole, readers find the k-th record numbered k, if and only if no tear of the run lost exactly the end of a line |
| `JournalRuns.BytesAreOnlyAppended` | src/autosiem/archive.py:99-114 | no earlier byte is ever changed, whatever the tears |
| `JournalRuns.JournalFile.CatchUp` | src/autosiem/archive.py:61-73 | the writer's cache moves as specified |
| `JournalRuns.JournalFile.Next` | src/autosiem/archive.py:99-107 | ends a torn line and returns the next sequence |
| `JournalRuns.JournalFile.Sequence` | src/autosiem/archive.py:75-79 | catches up and returns the count |
| `JournalRuns.JournalFile.AppendMany` | src/autosiem/archive.py:90-97 | file and cache after the write, whole or torn, are those of the specification; an empty list touches nothing |
| `JournalRuns.JournalFile.Append` | src/autosiem/archive.py:81-88 | the same for one record |
| `Audit.BuiltVerifies` | src/autosiem/storage.py:791-857 | a log built by audit calls, with a legacy unhashed prefix and a key set once and then kept, verifies with no mismatch, with or without the key |
| `Audit.SameEndSameHistory` | src/autosiem/storage.py:822-857 | with a collision-free hash, two fully hashed logs that both verify and end in the same hash have the same payloads row by row |
| `Audit.LastLinks` | src/autosiem/storage.py:838-848 | a verified row names its predecessor's hash and hashes its own payload |
| `Audit.AuditLog.Audit` | src/autosiem/storage.py:791-820 | appends exactly one row, chained to the previous one and sealed if a key is set |
| `Audit.AuditLog.VerifyAuditChain` | src/autosiem/storage.py:822-857 | the verifying loop reports the mismatches of the specification |
| `Drainer.NeverStrands` | src/autosiem/listeners.py:338-375 | for all interleavings of admit, notify, drain steps, success, failure and close: whenever the thread waits without a limit, every line it was told of has been settled, and it is not closed |
| `DrainerIngest.LastLookIsFinishedTurn` | src/autosiem/distributed.py:255-266 | when a turn of the ingest drain finds nothing left, no row is pending, so the last look after which the drainer reports success is a step it can take |
| `DrainerIngest.ReturnedDrainLeavesNothing` | src/autosiem/distributed.py:222-266 | a drain that returns instead of raising leaves no pending row |
| `Drainer.TimedWaitsAreBounded` | src/autosiem/listeners.py:338-350 | a timed wait ends at the retry time or max_wait after the oldest unlooked-at line, and the batch is not full meanwhile |
| `Drainer.DelayStaysInBounds` | src/autosiem/listeners.py:352-375 | the retry delay stays between its initial and maximum values |
| `Drainer.DelayBoundsIff` | src/autosiem/listeners.py:301-319 | the bounds hold in every state if and only if the initial delay is at most the maximum |
| `Drainer.QueueDrainer.Notify` | src/autosiem/listeners.py:321-329 | fields after a notification, and when it wakes the thread |
| `Drainer.QueueDrainer.WaitForWork` | src/autosiem/listeners.py:338-350 | whether to go, sleep until a time, or sleep |
| `Drainer.QueueDrainer.Begin` | src/autosiem/listeners.py:356-359 | takes the count back to zero and remembers whether it is closing |
| `Drainer.QueueDrainer.End` | src/autosiem/listeners.py:360-373 | retry time and delay after a failed or successful drain |
| `Batcher.EveryState` | src/autosiem/listeners.py:241-288 | the batches handed over, then the buffer, are exactly what arrived, in order; batches are neither empty nor too large; an unlimited wait is over an empty buffer |
| `Batcher.StopsEmpty` | src/autosiem/listeners.py:264-270 | when the thread stops, everything that arrived has been handed over |

## Left out

- SigmaScalar.ParseScalar: does not decode `\u` escapes in double-quoted scalars, which the exporter never writes; floating-point numbers and inline lists are kept as their text.
- SigmaRoundTrip.ExportImportKeepsMeaning: assumes well-formed selections (no field twice, field names in normal form and unquoted, no empty list), printable scalars, and events on which a plain value and `equals` agree; the failing corners have their own lemmas. A field literally named `any_of`, `all_of` or `not`, and nested mappings as values, are not modelled.
- SigmaReimport.ReimportsIff: assumes well-formed fields and printable values, as `SigmaRoundTrip.ExportImportKeepsMeaning` does; branch lists and parts may be empty.
- SigmaRoundTrip.EmptyListReadBackIff: is about one field with one operator that is not negated; an empty list under a negated operator is not modelled.
- SigmaCondition.ConditionKeepsMeaning: works on tokens; the regular expression that splits a condition into tokens, and the glob patterns of `1 of` and `all of`, are abstract. It assumes events coherent with the blocks the condition names, because merging and negation turn plain values into `equals`.
- IncidentRuns.EveryStateOk: assumes that no single batch lists a finding id twice; the PostgreSQL insert, which keeps the older row, is not modelled.
- IncidentStories.EveryIncidentIsOneStory: assumes that a finding saved again is the same finding, and that equal rule and event ids mean equal time and entities.
- IncidentStore.FindingsByIds: takes findings with equal times in id-list order, where SQL leaves the order open.
- IncidentTables.RelationalStorage.OpenIncidentsForEntities: takes the query's answer, most recent first up to the scan limit, as a parameter; transactions and row locks are modelled as atomic methods.
- Incidents.IncidentFrom: leaves out titles and summaries, which are prose.
- JournalRuns.JournalStaysRight: automatic sequence numbers only; a caller-chosen sequence, foreign bytes and truncation of the file are not modelled as steps.
- Decision.Decide: the path without a model override; explanations and recommended owners are left out.
- Drainer.NeverStrands: a drain is a sequence of steps that settle lines, ending in success only after the queue was seen empty; what it does inside is the ingest protocol.
- Batcher.EveryState: the processing callback is a step; a batch whose processing fails is counted by the caller and not retried, as in the code.
- AnomalyHistory.PeerSignalIsExact: other signals (novelty, temporal, rare action) only read the counters whose meaning is proved here.
- IngestRuns.NoLineSavedTwice: lines are admitted between the turns of a drain, not in the middle of one; a push only adds pending rows at the end, which no turn under way has pulled.
- `DistributedPipeline.run`, the worker pool, archive mode and replay: each chunk has its own baseline, so no serial statement holds.
- A missing suppression engine or anomaly detector, and the refusal of a transactional outbox without persistence: one-step guards.
- HTTP, sockets, SQL text, threads, vendor mappers, connectors, LLM reports, RBAC, metrics and the user interface.
- The indentation-based YAML block parser beyond single lines.
