# Dev Process Manager: a verified model

This project models the four hardest parts of the repository and proves what they are for.

**Discovery scheduler** (`Scheduler` and the modules below it). A single-threaded actor keeps tables of
processes, ports, per-process port results, classification facts, managed bindings, caches and task queues,
and updates them incrementally. `Scheduler.Actor` has one method per handler; the clock is a parameter.
`Scheduler.Step` says for each input what it does to all tables, tasks and queues, and every handler is proved to do
that. The invariant says that every shortcut equals the full recomputation: each cached record is a fixed point of
classification under its current facts, rules and ownership, shows exactly the ports that a recomputation from
the current port table would show, and the fold of every published update is the actor's tables. `Run` keeps
it over any sequence of ticks, commands and task completions, and links successive states by `Step`.

- `Classification`, `Project`, `PathKey`, `Text`: what records are classified by, and how paths are stored
- `KeyOrder`, `Coalescing`, `EventPublisher`: sorted output, last-write-wins coalescing, the event stream
- `PortIndex`, `ProcessTable`, `FastScan`, `PortUpdates`, `PortPasses`, `Enrichment`, `ContextPasses`, `Expiry`:
  the tables, and for every handler the lemma that its shortcut is sound
- `EnrichmentQueue`, `ProjectQueue`: bounded concurrency, dispatch order, merging, cancellation
- `Outcomes`: what each input leaves in the tables, field by field and without the functions that compute it

**Rolling logs** (`Utf8`, `MemoryTail`, `RollingFiles`, `RollingWindow`, `RollingLog`, `LogRange`,
`EventDelivery`, `ApplicationLog`). Files are byte sequences in numbered slots; every file operation may fail, as an
arbitrary sequence of answers says, and a write may be torn. Text is UTF-8 as sections 3 and 4 of RFC 3629 define it. Delivery is a transition system in which two
writers and a consumer interleave freely.

**Redaction** (`Greedy`, `Trie`, `Redaction`). `Greedy.Redacted` is the specification, a leftmost-longest scan
of the whole text; the trie and the streaming redactor are proved to implement it for every way of cutting the
text into chunks.

**Smaller pieces**: `Calendar` (civil dates and the canonical timestamp of section 5.7 of RFC 3339) and
`OwnedChild` (who may still signal a child process; everything asked of the operating system is logged with its
answer, and contracts speak about the log).

## What turned out not to hold

- A write that is torn, and whose rollback fails too, leaves bytes in the file that are not part of the stream.
  Afterwards reads are refused, unless the files can be listed and at least as many bytes had been rotated away as
  were torn: then the window slides back over them. It holds the right bytes exactly if the stream with the torn bytes
  repeats itself from there on with their number as its period (`RollingLog.LogStreamCollector.WriteChunk`,
  `RollingWindow.TornWindowSlides`). `RollingLog.TornAppend` is an input: one file of four bytes, to which "wxyz",
  "ab" and, torn after one byte, "cd" are appended; it then shows "abc" where "zab" was written.
- An entity too large for any event is reported and dropped, and clients keep what they have. A client is right about
  a key exactly if the latest state of the key fits into an event or is no different from the latest that did
  (`EventPublisher.Publisher.FlushedClientAgrees`, `Scheduler.Actor.Run`); if nothing was too large, it is right about
  everything. About a process that is there it is right exactly if its record fits. An input is one argument of
  131,072 single quotes: the backend reads it whole, but quoted and written as JSON it takes more than 512 KiB
  (`EventPublisher.LongArgumentOutgrowsEvents`, `EventPublisher.ClientCanStayBehind`,
  `Scheduler.Actor.LongLineStaysBehind`).
- From second 253,402,300,800 on, the year has more than four digits, and the text fails the timestamp validator;
  no earlier clock reading does (`Calendar.TimestampsPassValidation`, `Calendar.LongYearIsRefused`).
- Killing a suspended child by its number is harmless exactly until its root is reaped
  (`OwnedChild.Child.TerminateSuspended`); the owners call it in no other state.

## Model

| member | source | states |
|---|---|---|
| Scheduler.Actor.Run | crates/discovery/src/scheduler.rs:987-1034 | Over every sequence of ticks, commands and completions in time order, successive states are linked by what each input does to all tables, tasks and queues, until a shutdown is signalled; at the end everything is flushed, cancelled and dropped, every record says field by field what it has to, and a client that folds every update from the start is right about a process, a port up to its observation time, or the availability exactly if its latest state fits into an event or is no different from the latest that did, and about a process that is there exactly if its record fits; if nothing was too large, it knows all tables; what was sent stays sent |
| Scheduler.Actor.SnapshotThenRun | crates/discovery/src/scheduler.rs:2752-2781 | A client that starts from a snapshot and applies every later update is right, after any run, about every process that was up to date in the snapshot and is at the end; if nothing was too large, about all of them |
| Scheduler.Actor.LongLineStaysBehind | crates/discovery/src/scheduler.rs:2832-2850 | In any state, an enriched command line that outgrows an event is taken over, and clients do not have the record |
| Scheduler.Actor.Handle | crates/discovery/src/scheduler.rs:987-1116 | Whatever wakes the actor does what is stated for that input and changes nothing else: a finished scan, enrichment or project scan is taken over, refused with a failure or ignored, requests raise or queue work, cancelled work is dropped or asked to stop, rules, context and managed processes are replaced or left alone, sweeps remove what has expired; no demand and no lookup is lost; the whole invariant is kept |
| Scheduler.Actor.RequestEnrichment | crates/discovery/src/scheduler.rs:1051-1076 | A request for an unknown process changes nothing; any other is cached, merged or queued, and for a process that a user looks at its project is looked up or a failure published |
| Scheduler.Actor.CancelEnrichment | crates/discovery/src/scheduler.rs:1516-1526 | The entry of the process is dropped, its run asked to stop, and nothing else changes |
| Scheduler.Actor.RequestProjectEvidence | crates/discovery/src/scheduler.rs:1528-1610 | Unless the directory is unknown or freshly proven, a matching scan or entry is raised, or the project is looked up anew, a failure is published, or there is no room; other lookups go on |
| Scheduler.Actor.CancelProjectEvidence | crates/discovery/src/scheduler.rs:1716-1726 | The entry of the process is dropped, its scan asked to stop, and nothing else changes |
| Scheduler.Actor.ClientConverges | crates/discovery/src/scheduler.rs:2797-3065 | After a flush, the fold of the stream from its start is the actor's tables: exactly where the latest state fits or equals the latest that did, wrong only about what is itself too large, and everywhere if nothing was too large |
| Scheduler.Actor.SnapshotMatchesStream | crates/discovery/src/scheduler.rs:2752-2781 | The records a flushed snapshot lists are what the stream up to its sequence number folds to, at exactly the keys that are up to date |
| Scheduler.Actor.TakeSnapshot | crates/discovery/src/scheduler.rs:2752-2781 | A snapshot does what a sweep does and is flushed, carries the number of updates sent, lists every record in key order, agrees with the stream at exactly the keys that are up to date, and lists bindings only while ports are known |
| Scheduler.SnapshotIsComplete | crates/discovery/src/scheduler.rs:2752-2781 | A snapshot lists every record and every binding exactly once |
| Scheduler.Actor.ApplyFastScan | crates/discovery/src/scheduler.rs:2009-2134 | A scan is refused exactly for excess, invalid or repeated keys and then changes nothing; otherwise exactly the scanned processes remain: observed fields are the scanned ones, or the cached ones where the scan saw nothing; evidence and facts stay only with processes that stay in their directory; bindings and results of the others leave; the metadata of every new process is asked for at the lowest priority, and the project of every new or moved one is looked up or a failure published |
| Scheduler.Actor.ApplyPortScan | crates/discovery/src/scheduler.rs:2136-2215 | A scan is refused exactly for excess, invalid owners or repeated bindings and then changes nothing; a known one becomes the port table and forgets per-process results, any other keeps them; availability and its term follow; of the records only ports and classification change |
| Scheduler.Actor.ReplacePorts | crates/discovery/src/scheduler.rs:2136-2215 | The table becomes exactly the scan, keeping the entries that are unchanged up to observation time; an excessive or invalid scan changes nothing |
| Scheduler.Actor.ApplyEnrichment | crates/discovery/src/scheduler.rs:2217-2317 | Exactly the conditions under which a result is refused; otherwise the record has the enriched fields, what was proven in another directory is forgotten, the ports of the process become the reported ones and everybody at their endpoints is rated again, the result is kept for its term in place of the one that expires first, and the project of a known directory is looked up or a failure published |
| Scheduler.Actor.ApplyProjectScan | crates/discovery/src/scheduler.rs:2319-2381 | A valid result about the present directory and catalog is taken over and never refused for its facts: the record and the facts say what was proven, the proof is kept for its term in place of the one that expires first, and that process loses its own evidence; an outdated one changes nothing |
| Scheduler.Actor.SweepExpired | crates/discovery/src/scheduler.rs:2637-2750 | Exactly the expired processes, proofs, results, bindings and cached enrichments leave, whoever shared an endpoint with a binding that leaves is rated again, expired availability becomes unknown, records lose only what was proven by an expired proof, its project is looked up again, and the queued work of processes that stay is untouched |
| Scheduler.Actor.ReplaceClassificationRules | crates/discovery/src/scheduler.rs:1118-1139 | Refused exactly when the projects differ, the rules are invalid or the work budget is exceeded, and then nothing changes; otherwise threshold, projects and the enabled rules in evaluation order are the given ones, and of the records only the classification changes |
| Scheduler.Actor.ReplaceProjectContext | crates/discovery/src/scheduler.rs:1141-1191 | Exactly when a new catalog and rules are accepted; then the catalog and rules are the given ones, the generation advances, nothing is proven any more, and the project of every process in a known directory is looked up or a failure published; otherwise nothing changes |
| Scheduler.Actor.ReplaceManagedProcessBindings | crates/discovery/src/scheduler.rs:1193-1262 | Refused exactly for excess, invalid or repeated bindings, and then nothing changes; otherwise exactly the given processes are managed, each by its run, records say so, and nothing else but classifications changes |
| Scheduler.ManagedTableHolds | crates/discovery/src/scheduler.rs:1193-1262 | Accepted bindings bind each process to the run given for it, and no run to two processes |
| Scheduler.AcceptedManagedAreDistinct | crates/discovery/src/scheduler.rs:1193-1236 | Managed bindings are accepted exactly if each is valid and no two name the same process or the same run |
| Scheduler.Actor.ClearProjectEvidence | crates/discovery/src/scheduler.rs:1264-1279 | Records and facts of the given processes are reset and reclassified, all others untouched |
| Scheduler.Actor.ReclassifyAllProcesses | crates/discovery/src/scheduler.rs:1281-1307 | All records become what the rules and their facts make of them; what they show about ports stays right |
| Scheduler.Actor.PublishProcessPortChanges | crates/discovery/src/scheduler.rs:2551-2589 | Recomputing only records whose bindings changed gives the full recomputation, and publishes it |
| Scheduler.Actor.RemovePortsForProcesses | crates/discovery/src/scheduler.rs:2591-2635 | Removal with local rebalancing and refreshing is the full recomputation of the table without those owners |
| Scheduler.Actor.SweepPorts | crates/discovery/src/scheduler.rs:2698-2749 | Expired bindings and results leave, confidence is rebalanced locally, and the records follow |
| Scheduler.Actor.SwitchContext | crates/discovery/src/scheduler.rs:1141-1191 | Catalog, rules, facts and records change together; no scan of the old context stays queued, running or proven |
| Scheduler.Actor.QueueEnrichment | crates/discovery/src/scheduler.rs:1373-1441 | A request is refused only for an unknown process; otherwise it is answered from fresh data, raises priority and demand of the uncancelled run or the entry that waits, or is queued or started as it is; nothing asked for before is lost, and a first request touches no other process |
| Scheduler.Actor.QueueProjectScanBackground | crates/discovery/src/scheduler.rs:1612-1623 | Afterwards the project of a process in a known directory is proven, being looked up or about to be, or a failure was published; the same holds of every other process for which it held |
| Scheduler.Actor.CompleteEnrichment | crates/discovery/src/scheduler.rs:1734-1900 | A cancelled run changes no table, an acceptable result of any other is taken over and any other answer published as a failure; the run is over, demand merged into an uncancelled one is served again, and no demand is lost |
| Scheduler.Actor.CompleteFastScan | crates/discovery/src/scheduler.rs:1734-2007 | A cancelled scan changes no table, an acceptable one is taken over, and a failed, broken or unacceptable one is published as a failure and changes no table; a refresh requested meanwhile starts the next scan |
| Scheduler.Actor.CompletePortScan | crates/discovery/src/scheduler.rs:1734-2007 | A cancelled scan changes no table, an acceptable one is taken over, and a failed, broken or unacceptable one is published as a failure and changes no table; a refresh requested meanwhile starts the next scan |
| Scheduler.Actor.CompleteProjectScan | crates/discovery/src/scheduler.rs:1734-1991 | A cancelled scan changes no table, a valid and still wanted result of any other is taken over, and a failed, broken or invalid one is published as a failure; the scan is over, and whatever was to be looked up still is, or a failure is published |
| Scheduler.Actor.CancelAllTasks | crates/discovery/src/scheduler.rs:3073-3090 | Everything running is cancelled, nothing stays queued, and no table changes |
| Scheduler.ScanFactsAreAccepted | crates/discovery/src/scheduler.rs:2319-2381 | Rules and catalog name the same projects, so the facts of a validated scan are always valid |
| Outcomes.ObservedIsScanned | crates/discovery/src/scheduler.rs:3156-3205 | A scanned record has the name, observation and access level of the scan, path, command line and directory as scanned unless unknown, ownership from the managed bindings, and evidence only if it was cached in the same directory |
| Outcomes.ScanIsApplied | crates/discovery/src/scheduler.rs:2009-2134 | What the incremental handler of a process scan leaves in the tables, field by field |
| Outcomes.PortScanIsApplied | crates/discovery/src/scheduler.rs:2136-2215 | What the handler of a port scan leaves in the tables, field by field; unchanged bindings keep the time of their first observation |
| Outcomes.EnrichmentIsApplied | crates/discovery/src/scheduler.rs:2217-2317 | What the handler of an enrichment leaves in the tables, field by field |
| Outcomes.ProjectScanIsApplied | crates/discovery/src/scheduler.rs:2319-2381 | What the handler of a project scan leaves in the tables, field by field |
| Outcomes.SweepIsApplied | crates/discovery/src/scheduler.rs:2637-2750 | What a sweep leaves in the tables, field by field |
| Outcomes.RulesAreApplied | crates/discovery/src/scheduler.rs:1118-1139 | What new rules leave in the tables, field by field |
| Outcomes.ContextIsApplied | crates/discovery/src/scheduler.rs:1141-1191 | What a new context leaves in the tables, field by field |
| Outcomes.OwnershipIsApplied | crates/discovery/src/scheduler.rs:1193-1262 | What new managed processes leave in the tables, field by field |
| Outcomes.RemovalLeaves | crates/discovery/src/scheduler.rs:2591-2635 | Only the bindings of the given owners leave; exactly whoever shared an endpoint with one of them is rated again: unknown without an owner, shared if somebody else is there, exact otherwise |
| Outcomes.ExpiryLeaves | crates/discovery/src/scheduler.rs:2698-2749 | Only expired bindings leave, with the same rating of their endpoints |
| Outcomes.ClaimIsReported | crates/discovery/src/scheduler.rs:2383-2463 | A process has exactly the bindings it reported, others keep theirs, and exactly the endpoints involved are rated again |
| Outcomes.CoherentAreRight | crates/discovery/src/scheduler.rs:3156-3246 | The invariant says of every record, field by field: ownership and run follow the managed bindings, facts are what the evidence amounts to, the classification is the decided one, and the ports shown are what the process reported last, or the bindings it owns in key order, or why nothing is known |
| ContextPasses.OwnershipShortcutIsSound | crates/discovery/src/scheduler.rs:1237-1262 | Reclassifying only records whose ownership changes equals reclassifying all |
| ContextPasses.OwnershipMakesCoherent | crates/discovery/src/scheduler.rs:1193-1262 | After the shortcut every record is coherent with the new bindings |
| ContextPasses.ScanMakesCoherent | crates/discovery/src/scheduler.rs:2339-2379 | Taking over a scan makes one record coherent with its new facts and leaves the others coherent |
| ContextPasses.ClearMakesCoherent | crates/discovery/src/scheduler.rs:1264-1279 | Resetting evidence makes records coherent with no facts, under old or new rules |
| ContextPasses.RulesMakeCoherent | crates/discovery/src/scheduler.rs:1281-1307 | Reclassifying everything makes all records coherent with the new rules |
| FastScan.ObservedIsCoherent | crates/discovery/src/scheduler.rs:2040-2091 | A scanned record, normalized against the cached one and reclassified only if its inputs differ, is coherent |
| FastScan.CollectFastScan | crates/discovery/src/scheduler.rs:2009-2091 | The table collected from an accepted scan is the specified one, and exactly the changed records are listed, each once; exactly unacceptable scans are refused |
| FastScan.AcceptedScanIsDistinct | crates/discovery/src/scheduler.rs:2035-2046 | A scan is accepted exactly if every identity is valid and no two records have the same |
| FastScan.CollectedIsCoherent | crates/discovery/src/scheduler.rs:2009-2134 | All records of a collected table are coherent and show the right ports |
| Enrichment.EnrichmentPass | crates/discovery/src/scheduler.rs:2255-2302 | Taking over enriched fields keeps every record coherent |
| Enrichment.ClaimIsCoherent | crates/discovery/src/scheduler.rs:2383-2463 | Replacing the bindings of one process by what it reported, rebalanced locally, keeps every result equal to the sorted bindings its process owns |
| Expiry.ExpiryIsCoherent | crates/discovery/src/scheduler.rs:2698-2749 | Expiry, rebalanced locally, keeps every result equal to the sorted bindings its process owns |
| Expiry.SweptIsExact | crates/discovery/src/scheduler.rs:2637-2750 | Right after a sweep every record shows, up to observation times, exactly what recomputing it from the port table gives |
| PortPasses.PortShortcutIsSound | crates/discovery/src/scheduler.rs:2551-2589 | Skipping records whose bindings stay the same equals recomputing every record |
| PortPasses.PortPass | crates/discovery/src/scheduler.rs:2551-2589 | After the pass all records are coherent and show what the port table says |
| PortPasses.RemovalIsCoherent | crates/discovery/src/scheduler.rs:2591-2635 | Removing owners keeps every result equal to the sorted bindings its process owns, and a balanced table balanced |
| PortUpdates.CollectPortScan | crates/discovery/src/scheduler.rs:2136-2190 | The table holds exactly the scanned bindings and lists exactly the changed ones; invalid owners and repeated bindings refuse the scan |
| PortUpdates.AcceptedBindingsAreDistinct | crates/discovery/src/scheduler.rs:2136-2190 | Bindings are accepted exactly if each is valid and no two have the same key |
| PortUpdates.Settle | crates/discovery/src/scheduler.rs:2402-2463 | Rebalancing only changed endpoints and refreshing only affected owners gives the full recomputation |
| PortUpdates.LocalDiffIsGlobal | crates/discovery/src/scheduler.rs:2465-2489 | Comparing only the changed endpoints finds exactly the changed bindings, each once |
| PortUpdates.SettlementIsCoherent | crates/discovery/src/scheduler.rs:2591-2635 | After settling, every known result equals the sorted bindings owned by its process |
| PortUpdates.ClaimReplacesOwned | crates/discovery/src/scheduler.rs:2383-2463 | After a claim a process owns exactly the bindings it reported, and the others keep theirs at untouched endpoints |
| PortUpdates.ValidateEnrichmentPorts | crates/discovery/src/scheduler.rs:3399-3448 | Accepted exactly when there are not too many, each is owned by the process, and none repeats |
| PortIndex.OwnedIsSortedSelection | crates/discovery/src/scheduler.rs:3309-3342 | The bindings of a process are exactly those it owns, sorted, without repetition |
| PortIndex.LocalRebalanceIsGlobal | crates/discovery/src/scheduler.rs:3277-3307 | From a balanced table, rebalancing only the affected endpoints equals rebalancing all of them |
| PortIndex.RebalancePortConfidence | crates/discovery/src/scheduler.rs:3277-3307 | The loop over groups computes the rebalanced table |
| PortIndex.RefreshKnownProcessPortResults | crates/discovery/src/scheduler.rs:3309-3342 | The loop refreshes exactly the known results of the given processes |
| ProcessTable.SkippingSamePortsIsSound | crates/discovery/src/scheduler.rs:2562-2580 | A record whose bindings stay the same need not be reclassified |
| ProcessTable.SkippingSameInputsIsSound | crates/discovery/src/scheduler.rs:3360-3370 | A record whose classification inputs stay the same need not be reclassified |
| ProcessTable.SettledIsCoherent | crates/discovery/src/scheduler.rs:3350-3358 | Keeping the cached record when only observation times differ keeps it coherent |
| ProcessTable.ProcessDeltaReaches | crates/discovery/src/scheduler.rs:2811-2830 | Applying a delta of changed and removed records to the old records gives the new ones |
| ProcessTable.PortDeltaReaches | crates/discovery/src/scheduler.rs:2899-2915 | Applying a delta of changed and removed bindings mirrors the new port table up to observation times |
| ProcessTable.PublishedIsKnown | crates/discovery/src/scheduler.rs:2832-2978 | What fits of everything handed over makes a client right about a key exactly if the key is up to date, and about everything if nothing was too large |
| ProcessTable.KnownIsWrongOnlyIfOversized | crates/discovery/src/scheduler.rs:2840-2850 | A client is wrong only about a key whose own latest record, binding or removal is too large, and right about a process that is there exactly if its record fits |
| EventPublisher.Publisher.FlushedClientAgrees | crates/discovery/src/scheduler.rs:2797-3065 | A flushed client agrees with the handlers at a key exactly if the latest mutation of the key fits into an event or the latest that fits left the same value; with nothing oversized it agrees everywhere |
| EventPublisher.Publisher.FlushedClientKnows | crates/discovery/src/scheduler.rs:2797-3065 | The fold of the whole stream is the fold of exactly the mutations that fit, in order |
| EventPublisher.Publisher.RefuseProcess | crates/discovery/src/scheduler.rs:2840-2850 | A mutation too large for any event is reported and leaves what clients will know as it was |
| EventPublisher.RefusedRecordIsNotSeen | crates/discovery/src/scheduler.rs:2840-2850 | For every record that fits followed by one of the same process that does not, a flushed client holds the first |
| EventPublisher.ClientCanStayBehind | crates/discovery/src/scheduler.rs:2840-2850 | An input: an argument that is read whole grows beyond an event, and leaves the client with the old record |
| EventPublisher.QuotingGrows | crates/platform-macos/src/native.rs:1197-1232 | An argument of single quotes takes five bytes for each of them once quoted and written as JSON |
| EventPublisher.LongArgumentOutgrowsEvents | crates/platform-macos/src/native.rs:1046-1081 | An argument of half the read limit can outgrow every event |
| EventPublisher.SnapshotResynchronizes | crates/discovery/src/scheduler.rs:2752-2781 | Starting from a snapshot and replaying what follows its sequence number gives what the whole stream gives, at every key where the snapshot agrees with the stream up to there |
| EventPublisher.FoldReadsKey | crates/discovery/src/scheduler.rs:298-309 | What a client ends up with at a key depends only on what it starts with at that key |
| EventPublisher.GroupEffect | crates/discovery/src/scheduler.rs:862-907 | Publishing a coalesced group container by container has the effect of all its mutations, and every event stays within 128 entities and 512 KiB |
| EventPublisher.OrderedByFirstUse | crates/discovery/src/scheduler.rs:862-907 | Containers are published in the order in which they were first used |
| EventPublisher.StreamAt | crates/discovery/src/scheduler.rs:3056-3065 | Updates are numbered contiguously from 1 and each is within the limits |
| EventPublisher.Publisher.PublishImmediate | crates/discovery/src/scheduler.rs:3056-3065 | One more numbered update, or a shutdown signal once the sequence is exhausted |
| EventPublisher.Publisher.FlushPendingUpdates | crates/discovery/src/scheduler.rs:3046-3054 | Afterwards clients know exactly what they would have known with the group pending |
| EventPublisher.Publisher.AccumulateProcessMutation | crates/discovery/src/scheduler.rs:2832-2897 | The mutation counts as handed over, and takes effect for clients exactly if it fits; the estimate stays exact, the retry loop runs at most twice, and at most six updates are sent |
| EventPublisher.Publisher.AccumulatePortMutation | crates/discovery/src/scheduler.rs:2917-2978 | The mutation counts as handed over, and takes effect for clients exactly if it fits; the estimate stays exact, the retry loop runs at most twice, and at most six updates are sent |
| EventPublisher.Publisher.AccumulatePortAvailability | crates/discovery/src/scheduler.rs:2980-3036 | The value counts as handed over, and takes effect for clients exactly if it fits; the retry loop runs at most twice |
| EventPublisher.Publisher.PublishFailure | crates/discovery/src/scheduler.rs:2797-2809 | A failure is published behind everything accumulated before it |
| Coalescing.CoalescingPreservesEffect | crates/discovery/src/scheduler.rs:2832-2978 | Last-write-wins coalescing has the effect of the whole mutation sequence |
| Coalescing.FittingIsEnough | crates/discovery/src/scheduler.rs:2832-2978 | Applying only the mutations that fit is right about a key exactly if its latest mutation fits or the latest that fits left the same value |
| Coalescing.SumInsert | crates/discovery/src/scheduler.rs:2852-2890 | Replacing a pending mutation changes the summed cost by exactly the difference |
| KeyOrder.ProcessOrder | crates/discovery/src/scheduler.rs:3748-3753 | The order of process keys is a strict total order |
| KeyOrder.PortOrder | crates/discovery/src/scheduler.rs:3783-3797 | The order of port keys is a strict total order |
| EnrichmentQueue.Queue.Pump | crates/discovery/src/scheduler.rs:1443-1502 | Slots are filled with what outranks, or came before, everything that waits and could have been started; an entry disappears without a run only if its process is gone or its data is fresh; afterwards no slot is idle that an entry could use |
| EnrichmentQueue.Queue.NextPending | crates/discovery/src/scheduler.rs:1504-1514 | The first eligible key in dispatch order, or none exactly when none is eligible |
| EnrichmentQueue.Queue.Dispatch | crates/discovery/src/scheduler.rs:1443-1502 | One entry becomes a run or is dropped, the limit holds, and a key is pending and running only if the run is cancelled |
| EnrichmentQueue.Queue.Request | crates/discovery/src/scheduler.rs:1373-1441 | A request is refused, answered from fresh data, merged or queued, exactly as the present tables decide; what is queued goes behind everything of its priority |
| EnrichmentQueue.RequestRaises | crates/discovery/src/scheduler.rs:1373-1441 | A request that is not answered from fresh data raises priority and demand of the uncancelled run, or of the entry that waits, to the higher and the wider of the two; without either it is queued or started as it is |
| EnrichmentQueue.Queue.FollowUp | crates/discovery/src/scheduler.rs:1883-1900 | Demand merged into an uncancelled run is queued, under way or satisfied once the run has ended |
| EnrichmentQueue.Queue.InsertCache | crates/discovery/src/scheduler.rs:2491-2520 | The entry is kept for its term; when the cache is full, exactly the one that expires first is evicted |
| ProjectQueue.Queue.Pump | crates/discovery/src/scheduler.rs:1625-1701 | Slots are filled with what outranks, or came before, everything that waits and could have been started; every started scan is about the present directory and catalog; entries that cannot be scanned are reported |
| ProjectQueue.Queue.RequestScan | crates/discovery/src/scheduler.rs:1528-1610 | Refused exactly when no matching work exists and the board stays full after abandoning outdated work; otherwise a matching scan is queued, running or reported |
| ProjectQueue.Queue.Request | crates/discovery/src/scheduler.rs:1528-1610 | Unknown process, unknown directory, fresh proof, merge into the matching scan or entry at the higher priority, refusal or a new entry, as the present tables decide; whatever else was to be looked up still is, or is reported |
| ProjectQueue.Queue.InsertProof | crates/discovery/src/scheduler.rs:2522-2549 | When full, the proof that expires first is evicted and returned |
| Classification.ClassifyProcess | crates/discovery/src/classification.rs:236-418 | The accumulating loop over signals and rules computes the classification, and that is the decided one |
| Classification.ClassificationIsDecided | crates/discovery/src/classification.rs:236-418 | Each reason occurs exactly under its condition with its number, the score is their sum; an exclusion wins over any other rule, a rule over any score, and without a rule a process is under development exactly if there is a reason besides the runtime and the score reaches the threshold; the category in every case |
| Classification.BestRuleDecides | crates/discovery/src/classification.rs:236-418 | The first matching rule of the sorted list is the best matching rule of the snapshot |
| Classification.BestRuleIsUnique | crates/discovery/src/classification.rs:142-210 | Precedence leaves no ties: the best matching rule is unique |
| Classification.SortRulesIsSorted | crates/discovery/src/classification.rs:142-210 | The engine holds exactly the enabled rules of the snapshot, in precedence order |
| Classification.ClassifyReadsInputsOnly | crates/discovery/src/scheduler.rs:3360-3370 | Records that differ in nothing the comparison looks at classify the same |
| Classification.NewEngine | crates/discovery/src/classification.rs:142-210 | Exactly the valid snapshots make an engine |
| Project.NewCatalog | crates/discovery/src/project.rs:266-309 | Exactly bounded lists of absolute paths with distinct ids and roots make a catalog |
| Project.ValidProjectsAreDistinct | crates/discovery/src/project.rs:266-309 | Projects are valid exactly if each is and no two share an id or a root |
| Project.CatalogHoldsProjects | crates/discovery/src/project.rs:266-309 | A catalog holds exactly its projects, each under its own root |
| Project.NearestIsDeepest | crates/discovery/src/project.rs:336-350 | The nearest project is the deepest registered ancestor of a path, and none is found exactly if there is none |
| Project.FindNearestProject | crates/discovery/src/project.rs:336-350 | Popping one component at a time finds the nearest project |
| Project.AssociationIsNearest | crates/discovery/src/project.rs:352-365 | A known path is associated with the deepest registered project around it, or missing exactly if there is none |
| Project.ValidateFeatureEvidence | crates/discovery/src/project.rs:588-653 | Remembering the last index is enough: accepted exactly when known markers come in fixed order without repetition, as bounded absolute paths directly below one root |
| Project.ValidateFor | crates/discovery/src/project.rs:521-541 | Exactly when a scan result answers its request consistently |
| Project.ValidatedFactsAreAccepted | crates/discovery/src/project.rs:543-571 | The facts of a validated result are valid for an engine that knows the catalog's projects |
| PathKey.RoundTrip | crates/discovery/src/project.rs:70-148 | Parsing the printed form of any valid key returns that key, and its length never stands in the way |
| PathKey.AcceptedIffPrinted | crates/discovery/src/project.rs:87-148 | Every accepted string is exactly what its key prints |
| PathKey.PrintIsInjective | crates/discovery/src/project.rs:70-85 | Different valid keys print differently |
| PathKey.PrintedExamples | crates/discovery/src/project.rs:70-85 | The printed form of a network path, a drive path and a root, byte by byte |
| PathKey.HexRoundTrip | crates/discovery/src/project.rs:744-789 | Decoding the hex of non-empty text returns it |
| PathKey.HexEncodeAt | crates/discovery/src/project.rs:744-752 | Two lower-case digits for each byte, the high one first |
| PathKey.DecodePairs | crates/discovery/src/project.rs:754-781 | The loop over digit pairs computes the decoded bytes, or fails exactly on odd length or a bad digit |
| RollingLog.LogStreamCollector.AppendUtf8 | crates/logging/src/lib.rs:968-1017 | An append succeeds exactly if the stream is available, the offset limit is kept and every file operation it tries succeeds; appended text extends the stream, the files read oldest to newest are exactly stream[firstAvailable..end], and files and window are exactly what the passes over the text make of them; a disk failure reports how much was accepted, and a stream that failed once refuses everything after |
| RollingLog.LogStreamCollector.AppendUnderGate | crates/logging/src/lib.rs:1019-1087 | All text is accepted, and the files are as the passes leave them, exactly if every file operation succeeds; otherwise the stream is unavailable and a proper prefix accepted; if a write was torn, where the window started and which bytes were left is determined by what had been accepted |
| RollingLog.LogStreamCollector.AppendPass | crates/logging/src/lib.rs:1019-1087 | Each pass rotates if the next scalar does not fit and writes as many scalars as fit, at least one; it makes the stream unavailable exactly if a file operation fails |
| RollingLog.LogStreamCollector.MakeRoom | crates/logging/src/lib.rs:1028-1055 | Succeeds exactly if every file operation does; a rotation moves the window start by the bytes removed and keeps every archive of this generation within three bytes of the limit; after a failed one the window starts where the remaining files do |
| RollingLog.LogStreamCollector.WriteChunk | crates/logging/src/lib.rs:1056-1080 | A written chunk reaches file, tail and offsets together. A torn write leaves a proper prefix of the chunk in the file; afterwards the lengths agree exactly if the files could be listed and at least as many bytes had been rotated away as were torn, and the window then holds the right bytes exactly if the stream with the torn bytes repeats itself from there with their number as its period |
| RollingLog.LogStreamCollector.NextChunk | crates/logging/src/lib.rs:1703-1709 | The longest run of whole scalars that fits, never empty when one scalar fits |
| RollingLog.LogStreamCollector.Flush | crates/logging/src/lib.rs:1169-1189 | A flush succeeds exactly if the file operation does, and changes nothing; a failed one makes the stream unavailable for good |
| RollingLog.LogStreamCollector.ReconcileRetainedWindow | crates/logging/src/lib.rs:1211-1226 | If the files can be listed, the window is again exactly what the files hold; after a torn write it moves back by the torn bytes exactly if that many had been rotated away, and stays otherwise |
| RollingWindow.WindowAfterRotation | crates/logging/src/lib.rs:1033-1053 | A complete rotation leaves the window that starts after the removed archive |
| RollingWindow.PassIsGreedy | crates/logging/src/lib.rs:1028-1080 | A pass rotates exactly if the next scalar does not fit, which drops the oldest file and starts an empty one; then it writes whole scalars, at least one, and stops only where the next does not fit |
| RollingWindow.TornWindowSlides | crates/logging/src/lib.rs:1845-1864 | For files that end in torn bytes: the slid window's length agrees exactly if at least as many bytes were rotated away, and its bytes exactly if the stream with the torn bytes repeats itself |
| RollingLog.TornAppend | crates/logging/src/lib.rs:1019-1087 | An input: one file of four bytes, "wxyz", "ab" and a torn "c" of "cd"; if the files are listed, the window shows "abc" for "zab" and its length agrees |
| RollingWindow.TornExampleHappens | crates/logging/src/lib.rs:1019-1087 | The files of that example are what such a write leaves |
| RollingFiles.RollingFile.Rotate | crates/logging/src/lib.rs:1870-1933 | A rotation is complete exactly if every file operation succeeds; it then drops exactly the oldest file and starts an empty one; stopped anywhere, what is left is a suffix of what was retained |
| RollingFiles.RollingFile.MoveUp | crates/logging/src/lib.rs:1892-1915 | Stopped after any rename, what is left is a suffix of what was retained |
| RollingFiles.RollingFile.WriteUtf8Chunk | crates/logging/src/lib.rs:1818-1864 | Bytes are appended to the active file completely exactly if every file operation succeeds, otherwise not at all, or, if rolling back fails too, as a proper prefix |
| RollingFiles.RollingFile.constructor | crates/logging/src/lib.rs:1732-1808 | Opening keeps everything earlier generations retained |
| MemoryTail.BoundedByteTail.AppendUtf8 | crates/logging/src/lib.rs:1955-1992 | The buffer stays a valid UTF-8 suffix of everything appended, within the capacity and at correct offsets; what fits evicts nothing, and otherwise the tail starts at the first scalar boundary from which it fits |
| LogRange.ReadSnapshot | crates/logging/src/lib.rs:1357-1487 | Bad requests are told apart; a read fails only if a file cannot be opened or read; a read that succeeds is exact, ends on a scalar boundary, progresses, and is complete exactly when it says so; with a sound window only an offset inside a scalar is rejected |
| LogRange.ReadCollector | crates/logging/src/lib.rs:1357-1487 | The same over a collector in any state; after a torn write a read succeeds only from a window that slid back over it, and that window is right exactly if the stream with the torn bytes repeats itself |
| LogRange.ReadIsExact | crates/logging/src/lib.rs:1455-1487 | The answer is exact from a scalar boundary on, and a rejection inside a scalar |
| LogRange.ReadWhole | crates/logging/src/lib.rs:1357-1487 | Chaining `next` over a stable window ends and returns it whole, each byte once, and it ends well whenever the files can be read |
| LogRange.Gather | crates/logging/src/lib.rs:1422-1458 | The loop over files reads exactly the requested part of their concatenation |
| LogRange.WindowText | crates/logging/src/lib.rs:1711-1729 | In a window of text, a read of at least four bytes from a boundary keeps at least one scalar |
| LogRange.ValidateUtf8File | crates/logging/src/lib.rs:1637-1681 | Validation by bounded buffers with a carried-over scalar accepts exactly the valid files |
| Utf8.BoundaryCuts | crates/logging/src/lib.rs:1703-1709 | Valid text cut at a byte is valid on both sides exactly if the byte starts a scalar |
| Utf8.FloorIsNear | crates/logging/src/lib.rs:1703-1709 | A scalar boundary is at most three bytes below any position |
| Utf8.DecodeCut | crates/logging/src/lib.rs:1711-1729 | Strict decoding of valid text cut anywhere stops at the last boundary before the cut, as an incomplete, not a malformed end |
| Utf8.ValidIffEncoded | crates/logging/src/lib.rs:1637-1681 | Text is exactly what encodes some sequence of Unicode scalar values by the table of section 3 of RFC 3629 |
| EventDelivery.RunsAreSafe | crates/logging/src/lib.rs:695-881 | In every interleaving, wherever the first available byte moves, a stream that is ahead of its cursor is about to be looked at, and the events of each stream tile it |
| EventDelivery.EndMeansDelivered | crates/logging/src/lib.rs:695-720 | When the source ends, every stream whose last read succeeded was delivered to its end with its final status: apart from the gaps its events state, their texts are everything written since delivery began |
| EventDelivery.TextsAreStream | crates/logging/src/lib.rs:796-881 | The texts of the events, with what they skipped put back, are the stream from where delivery began to the cursor; without gaps the texts alone are |
| EventDelivery.NeverStuck | crates/logging/src/lib.rs:722-786 | Undelivered text never waits for nobody: a notification is owed, or the consumer can take a step, and a read succeeds wherever the remaining bytes are text |
| EventDelivery.TilesMean | crates/logging/src/lib.rs:796-881 | Events are numbered consecutively, start where the last one ended with gaps only where the first byte is the first available one, and carry the bytes between their offsets |
| EventDelivery.FillReports | crates/logging/src/lib.rs:796-881 | A read that has news adds one event, which states the bytes, the window and the error found at that moment, and any other adds none; a failure is news once for each error and status, and that reading works again is news |
| Redaction.RedactChunks | crates/logging/src/redaction.rs:128-189 | However text is cut into UTF-8 chunks, the output is the leftmost-longest redaction of the whole text, and the flag says whether anything was replaced |
| Greedy.EveryOccurrenceIsHit | crates/logging/src/redaction.rs:156-189 | Wherever a secret occurs in the text, at least one of its bytes is replaced |
| Greedy.RedactedIsRendered | crates/logging/src/redaction.rs:156-189 | The output is the text with each leftmost-longest match of a secret turned into one marker and everything else kept in order, where a match may start at any byte; exactly the bytes of the matches count as replaced |
| Greedy.MatchesAreUnique | crates/logging/src/redaction.rs:156-189 | A text has one list of leftmost-longest matches |
| Greedy.HitsMeansReplaced | crates/logging/src/redaction.rs:152-154 | The flag says exactly whether any byte was replaced |
| Greedy.NoHitNoChange | crates/logging/src/redaction.rs:156-189 | If nothing is replaced, the text comes out as it is |
| Redaction.LogRedactor.Push | crates/logging/src/redaction.rs:128-138 | What was emitted plus the carry determine the redaction of everything received, whatever follows; at most the longest pattern plus two bytes are carried; after the end nothing happens |
| Redaction.LogRedactor.Finish | crates/logging/src/redaction.rs:141-149 | Everything emitted is the redaction of everything received |
| Redaction.LogRedactor.Process | crates/logging/src/redaction.rs:156-189 | The scan emits only what no later text can change, and its cursor stays on scalar boundaries |
| Redaction.LogRedactor.SafeEnd | crates/logging/src/redaction.rs:156-170 | The scan stops at a boundary with a whole pattern's length in view, at most three bytes early |
| Redaction.FromSecrets | crates/logging/src/redaction.rs:55-98 | The first violated limit refuses all secrets; otherwise exactly their distinct non-empty projections are indexed |
| Redaction.CollectedAreProjections | crates/logging/src/redaction.rs:55-98 | Accepted secrets become exactly the set of their non-empty projections, within the limits |
| Redaction.RefusalHasReason | crates/logging/src/redaction.rs:55-98 | Secrets are refused for the first one that breaks a limit: its length, the number of patterns or their total length, in this order |
| Greedy.StepIsLocal | crates/logging/src/redaction.rs:156-189 | With a whole pattern's length in view, what follows does not change a step of the scan |
| Greedy.FaithfulStep | crates/logging/src/redaction.rs:156-189 | One step of the streaming scan keeps emitted text and carry faithful to every continuation |
| Trie.Trie.LongestMatchAt | crates/logging/src/redaction.rs:247-262 | The walk returns the length of the longest inserted pattern the text starts with, or none |
| Trie.Trie.Insert | crates/logging/src/redaction.rs:213-233 | Afterwards the index holds exactly one more pattern, and its maximum length |
| Trie.Trie.Child | crates/logging/src/redaction.rs:235-245 | The walk along an edge list ends and finds the child for a byte exactly if there is one |
| Trie.Trie.AddChild | crates/logging/src/redaction.rs:213-233 | A new edge at the head of a list keeps all lists acyclic and complete |
| ApplicationLog.ApplicationLogBuffer.Append | crates/logging/src/application.rs:356-484 | A failed append changes nothing and names the check that failed; otherwise the line is last, sequences stay consecutive, byte counts exact, and no more old lines are dropped than have to be |
| ApplicationLog.ApplicationLogBuffer.MakeRoom | crates/logging/src/application.rs:448-470 | There is always a line left to drop until the new one fits |
| ApplicationLog.ApplicationLogBuffer.ReadJsonLines | crates/logging/src/application.rs:521-578 | Whole lines from a cursor on, as many as fit; the cursor moves while there are lines, gaps are reported, and bad cursors and limits are refused exactly |
| ApplicationLog.ApplicationLogBuffer.ReadAll | crates/logging/src/application.rs:521-578 | Chaining the cursor over a stable ring returns every retained line exactly once, as many bytes as are counted as retained |
| Calendar.NextDayIsNextDate | crates/platform-macos/src/macos.rs:909-922 | Every accepted day is a date, and the next day is its calendar successor |
| Calendar.EpochIsDayZero | crates/platform-macos/src/macos.rs:909-922 | Day 0 is the first of January 1970 |
| Calendar.ConversionIsInjective | crates/platform-macos/src/macos.rs:909-922 | No two accepted days have the same date |
| Calendar.LaterDaysLaterDates | crates/platform-macos/src/macos.rs:909-922 | Later days have later dates |
| Calendar.YearOfEraIsYear | crates/platform-macos/src/macos.rs:909-922 | The division formula finds the year a day of the 400-year era falls into |
| Calendar.TimestampsPassValidation | crates/platform-macos/src/macos.rs:861-894 | A formatted clock reading passes the validator, and names its day, its second of the day and its nanosecond, exactly before second 253,402,300,800, the end of the year 9999 |
| Calendar.LongYearIsRefused | crates/platform-macos/src/macos.rs:861-894 | An input: the first second of the year 10000 is formatted, and its text is refused |
| Calendar.PrintedIsCanonical | crates/lifecycle/src/lib.rs:831-890 | The text of every date of the years 1 to 9999 and every time of day has the canonical shape and reads back as that date, time and nanosecond |
| Calendar.TimestampsAreDistinct | crates/platform-macos/src/macos.rs:861-894 | Different clock readings before the year 10000 have different texts |
| OwnedChild.RunCalls | crates/platform-macos/src/managed.rs:1665-1879 | Over every sequence of calls, each of which asks of the operating system what is stated for it, no signal but a probe follows the reaping of the root, the root counts as reaped exactly once a wait said so, and a resumed child counts as exited only after that and with a probe that found its group absent as the last thing sent |
| OwnedChild.Child.TerminateAndConfirm | crates/platform-macos/src/managed.rs:1665-1686 | What is asked in which order and how its answers decide: a confirmed exit needs nothing, a suspended child is killed by its number and waited for, a running one by its group; success means the root was reaped and, for a resumed child, the exit confirmed |
| OwnedChild.Child.TerminateSuspended | crates/platform-macos/src/managed.rs:1665-1686 | Killing by number is harmless exactly until the root is reaped |
| OwnedChild.Child.TerminateRunningGroup | crates/platform-macos/src/managed.rs:1688-1729 | The group is killed at most once, while its identity is confirmed or its root missing; then the root is waited for and the group probed until it is absent; a lost boundary kills the root alone and is reported; success is a confirmed exit |
| OwnedChild.Child.SendManagedStopSignal | crates/platform-macos/src/managed.rs:1731-1768 | The given signal is sent to the whole group exactly if its identity is confirmed, and delivered only before its root is reaped; a missing root counts as an attempt, and a refusal sends nothing |
| OwnedChild.Child.PollManagedExit | crates/platform-macos/src/managed.rs:1770-1783 | Refused until a stop was attempted; exit is reported exactly when confirmed |
| OwnedChild.Child.PollCompleteGroupExit | crates/platform-macos/src/managed.rs:1792-1831 | One probe of the group; only if it is absent and the root not reaped yet, one wait for the root; the answers decide the poll |
| OwnedChild.Child.KillAndWaitRoot | crates/platform-macos/src/managed.rs:1833-1848 | Signals nothing once the root is reaped; otherwise kills it by its number and succeeds exactly if a wait reaps it; why it failed |
| OwnedChild.Ownership.ResumeChild | crates/platform-macos/src/managed.rs:396-428 | A suspended child runs exactly if its identity is confirmed and its SIGCONT delivered; any other is cleaned up, and nobody keeps a suspended one |
| OwnedChild.Ownership.Handle | crates/platform-macos/src/managed.rs:396-560 | What each call asks of the operating system and who holds the child afterwards: a graceful stop sends SIGTERM to the group, a forced one SIGKILL, polls only look, cleanups release the owner or keep it for a retry, and a call that is not the owner's does nothing |
| OwnedChild.Ownership.DropOwner | crates/platform-macos/src/managed.rs:441-457 | Dropping cleans up once, and a failure is never retried |

## Left out

- Draining tasks after shutdown, the batch form of enrichment requests, latency statistics, and the tick intervals of the configuration
- Text decoding, the control-sequence filter and the printable-text check: filtered UTF-8 is the input, and the filter used on secrets is a parameter
- Serialized sizes of records, keys and bindings: an uninterpreted function of the entity
- Sorting delta lists before they are handed to the publisher, which sorts them again; loops over hash maps visit them in arbitrary order
- One clock reading per handler: the source reads the clock more than once within a handler
- One ordering sequence and one task counter for each queue: the source shares them between the two queues, which only spreads the numbers
- Identity of shared catalogs: a scan request is about the present catalog if catalog and generation are equal
- Order inside a handler that nobody observes: work of changed processes is dropped before the table is replaced, and a run leaves its table after its result was applied
- CPU percentages: an opaque value of the record
- Freshness of project evidence after the project queue itself has dropped an expired proof: the source keeps the evidence until the next scan, and no invariant is claimed
- Confidence values reported by a full port scan: taken over as reported, so balance is claimed only from a balanced table on
- Wiping of secrets from memory, file permissions, directory handles and the retrying of interrupted system calls
- Deadlines of waits: arbitrary budgets, which also bound how often an interrupted wait is repeated
- The arithmetic overflow errors of offsets and byte counts, which the limits make unreachable; offsets are bounded by 2^53-1 as in the source
- Exhaustion of event sequence numbers on one log stream: such a step is not enabled
- Scheduler.Actor.Handle: replies to commands are stated by the methods it calls; of the updates sent it names the failures, and what the others amount to is stated by `Scheduler.Actor.ClientConverges`
- EventDelivery.RunsAreSafe: a read that succeeds is taken to be exact, which LogRange.ReadCollector promises short of a torn write; after one it says when the window is wrong
- LogRange.ReadCollector: after a torn write it says when the window is right, not what the text of a read from it is, because the torn bytes may not be text
- OwnedChild.RunCalls: rests on the operating system never confirming the identity of a reaped process
- Recovered process groups, spawning, terminals and environment handling of managed processes
- Diagnostic exports, previews, retention of old runs, catalogs on disk and the user interface
