/**
 The discovery scheduler: a single-threaded actor whose handlers keep about ten interdependent tables
 in step and publish what changed.
 */
module Scheduler {
  import opened DiscoveryDomain
  import opened KeyOrder
  import opened Coalescing
  import opened EventPublisher
  import opened PortIndex
  import opened Classification
  import opened Project
  import opened ProcessTable
  import opened FastScan
  import opened PortUpdates
  import opened PortPasses
  import opened Enrichment
  import opened ContextPasses
  import opened Expiry
  import opened Outcomes
  import EnrichmentQueue
  import PathKey
  import ProjectQueue
  import Text

  const MAX_CATALOG_GENERATION: nat := 0xFFFF_FFFF_FFFF_FFFF

  datatype Config = Config(
    processTtl: nat, portTtl: nat, enrichmentTtl: nat, projectTtl: nat,
    processCapacity: nat, portCapacity: nat, enrichmentCapacity: nat, projectCapacity: nat,
    enrichmentConcurrency: nat, projectConcurrency: nat)

  /** What the configuration check guarantees. */
  predicate ValidConfig(c: Config) {
    && c.processCapacity > 0 && c.portCapacity > 0 && c.enrichmentCapacity > 0 && c.projectCapacity > 0
    && c.enrichmentConcurrency > 0 && c.projectConcurrency > 0
  }

  /** A directory that a project scan can be asked about. */
  function Scannable(): string -> bool {
    (directory: string) => Text.NonEmptyBounded(directory, PathKey.MAX_PROJECT_PATH_BYTES)
  }

  /** The scan is still about the directory the process is in and the catalog in force. */
  predicate StillWanted(processes: Processes, catalog: Catalog, generation: nat, request: ScanRequest) {
    && request.generation == generation && request.catalog == catalog
    && request.key in processes
    && processes[request.key].record.workingDirectory == Known(request.expectedDirectory)
  }

  lemma DirectoryIsCurrent(processes: Processes, catalog: Catalog, generation: nat, request: ScanRequest)
    requires StillWanted(processes, catalog, generation, request)
    ensures ProjectQueue.Current(
              Directories(processes), generation, request.key, request.expectedDirectory, request.generation)
  {
  }

  function EngineOf(snapshot: RulesSnapshot): Engine {
    Engine(snapshot.threshold, Elements(snapshot.projectIds), SortRules(snapshot.rules))
  }

  function SetOf(key: Option<ProcessKey>): set<ProcessKey> {
    if key.Some? then {key.value} else {}
  }

  /** Rules and catalog identify the same projects. */
  predicate SameProjects(ids: set<string>, projectIds: seq<string>) {
    Elements(projectIds) == ids && |projectIds| == |ids|
  }

  function MAX_MANAGED_RUN_ID_BYTES(): nat { 256 }

  datatype ManagedBinding = ManagedBinding(key: ProcessKey, runId: string)

  predicate ValidManagedBinding(binding: ManagedBinding) {
    && ValidInstanceKey(binding.key)
    && Text.NonEmptyBounded(binding.runId, MAX_MANAGED_RUN_ID_BYTES()) && '\0' !in binding.runId
  }

  /** Valid bindings that name no run and no process twice. */
  predicate AcceptedManaged(bindings: seq<ManagedBinding>) {
    bindings == []
    || (var front, last := bindings[..|bindings| - 1], bindings[|bindings| - 1];
        && AcceptedManaged(front) && ValidManagedBinding(last)
        && last.key !in ManagedTable(front) && last.runId !in RunIds(front))
  }

  function ManagedTable(bindings: seq<ManagedBinding>): Bindings {
    if bindings == [] then map[]
    else
      var last := bindings[|bindings| - 1];
      ManagedTable(bindings[..|bindings| - 1])[last.key := last.runId]
  }

  function RunIds(bindings: seq<ManagedBinding>): set<string> {
    if bindings == [] then {} else RunIds(bindings[..|bindings| - 1]) + {bindings[|bindings| - 1].runId}
  }

  /** Bindings are accepted exactly if each is valid and no two name the same process or the same run. */
  lemma {:induction false} AcceptedManagedAreDistinct(bindings: seq<ManagedBinding>)
    ensures AcceptedManaged(bindings)
            <==> && (forall i | 0 <= i < |bindings| :: ValidManagedBinding(bindings[i]))
                 && (forall i, j | 0 <= i < j < |bindings| ::
                       bindings[i].key != bindings[j].key && bindings[i].runId != bindings[j].runId)
  {
    hide ValidManagedBinding;
    if bindings != [] {
      var front := bindings[..|bindings| - 1];
      AcceptedManagedAreDistinct(front);
      assert forall i | 0 <= i < |front| :: front[i] == bindings[i];
      NamedAreListed(front);
    }
  }

  lemma {:induction false} NamedAreListed(bindings: seq<ManagedBinding>)
    ensures forall k :: k in ManagedTable(bindings) <==> exists i :: 0 <= i < |bindings| && bindings[i].key == k
    ensures forall r :: r in RunIds(bindings) <==> exists i :: 0 <= i < |bindings| && bindings[i].runId == r
  {
    if bindings != [] {
      var front, last := bindings[..|bindings| - 1], bindings[|bindings| - 1];
      NamedAreListed(front);
      assert forall i | 0 <= i < |front| :: front[i] == bindings[i];
    }
  }

  lemma {:induction false} ManagedPrefixesAreAccepted(bindings: seq<ManagedBinding>, n: nat)
    requires AcceptedManaged(bindings) && n <= |bindings|
    ensures AcceptedManaged(bindings[..n])
  {
    if n < |bindings| {
      var front := bindings[..|bindings| - 1];
      ManagedPrefixesAreAccepted(front, n);
      assert front[..n] == bindings[..n];
    } else {
      assert bindings[..n] == bindings;
    }
  }

  /** Each process is bound to the run that was given for it, and no run to two processes. */
  lemma ManagedTableHolds(bindings: seq<ManagedBinding>)
    requires AcceptedManaged(bindings)
    ensures forall b | b in bindings :: b.key in ManagedTable(bindings) && ManagedTable(bindings)[b.key] == b.runId
    ensures forall k | k in ManagedTable(bindings) :: ManagedBinding(k, ManagedTable(bindings)[k]) in bindings
    ensures forall j, k | j in ManagedTable(bindings) && k in ManagedTable(bindings) && j != k ::
              ManagedTable(bindings)[j] != ManagedTable(bindings)[k]
  {
    hide AcceptedManaged, ManagedTable;
    ManagedTableLists(bindings);
    RunsAreDistinct(bindings);
  }

  lemma {:induction false} ManagedTableLists(bindings: seq<ManagedBinding>)
    requires AcceptedManaged(bindings)
    ensures forall b | b in bindings :: b.key in ManagedTable(bindings) && ManagedTable(bindings)[b.key] == b.runId
    ensures forall k | k in ManagedTable(bindings) :: ManagedBinding(k, ManagedTable(bindings)[k]) in bindings
  {
    if bindings != [] {
      var front, last := bindings[..|bindings| - 1], bindings[|bindings| - 1];
      ManagedTableLists(front);
      assert bindings == front + [last];
      forall k | k in ManagedTable(bindings) ensures ManagedBinding(k, ManagedTable(bindings)[k]) in bindings {
        if k != last.key {
          assert ManagedBinding(k, ManagedTable(front)[k]) in front;
        }
      }
    }
  }

  lemma {:induction false} RunIdsListed(bindings: seq<ManagedBinding>)
    ensures forall b | b in bindings :: b.runId in RunIds(bindings)
  {
    if bindings != [] {
      RunIdsListed(bindings[..|bindings| - 1]);
      assert bindings == bindings[..|bindings| - 1] + [bindings[|bindings| - 1]];
    }
  }

  lemma {:induction false} RunsAreDistinct(bindings: seq<ManagedBinding>)
    requires AcceptedManaged(bindings)
    ensures forall a, b | a in bindings && b in bindings && a != b :: a.runId != b.runId
  {
    if bindings != [] {
      var front, last := bindings[..|bindings| - 1], bindings[|bindings| - 1];
      RunsAreDistinct(front);
      RunIdsListed(front);
      assert bindings == front + [last];
    }
  }

  lemma ManagedStep(bindings: seq<ManagedBinding>, i: nat)
    requires i < |bindings|
    ensures var front, last, more := bindings[..i], bindings[i], bindings[..i + 1];
            && (AcceptedManaged(more)
                <==> && AcceptedManaged(front) && ValidManagedBinding(last)
                     && last.key !in ManagedTable(front) && last.runId !in RunIds(front))
            && ManagedTable(more) == ManagedTable(front)[last.key := last.runId]
            && RunIds(more) == RunIds(front) + {last.runId}
  {
    hide ValidManagedBinding;
    assert bindings[..i + 1][..i] == bindings[..i];
  }

  method CollectManaged(bindings: seq<ManagedBinding>) returns (table: Option<Bindings>)
    ensures table == if AcceptedManaged(bindings) then Some(ManagedTable(bindings)) else None
  {
    hide AcceptedManaged, ManagedTable, RunIds, ValidManagedBinding;
    var next: Bindings := map[];
    var runIds: set<string> := {};
    NothingManaged();
    for i := 0 to |bindings|
      invariant AcceptedManaged(bindings[..i]) && next == ManagedTable(bindings[..i]) && runIds == RunIds(bindings[..i])
    {
      ManagedStep(bindings, i);
      if !ValidManagedBinding(bindings[i]) || bindings[i].runId in runIds || bindings[i].key in next {
        if AcceptedManaged(bindings) {
          ManagedPrefixesAreAccepted(bindings, i + 1);
        }
        return None;
      }
      next, runIds := next[bindings[i].key := bindings[i].runId], runIds + {bindings[i].runId};
    }
    assert bindings[..|bindings|] == bindings;
    table := Some(next);
  }

  lemma NothingManaged()
    ensures AcceptedManaged([]) && ManagedTable([]) == map[] && RunIds([]) == {}
  {
  }

  /** Rules and catalog name the same projects, and every stored fact names one of them. */
  ghost predicate ContextMatches(engine: Engine, catalog: Catalog, generation: nat) {
    && engine.known == catalog.ids && ValidCatalog(catalog) && BoundedIds(catalog.ids)
    && generation <= MAX_CATALOG_GENERATION
  }

  ghost predicate FactsAccepted(engine: Engine, facts: FactTable) {
    forall k | k in facts :: ValidFacts(engine, facts[k])
  }

  lemma FewerFactsAreAccepted(engine: Engine, facts: FactTable, left: FactTable)
    requires FactsAccepted(engine, facts) && forall k | k in left :: k in facts && left[k] == facts[k]
    ensures FactsAccepted(engine, left)
  {
  }

  lemma NoResultsAreCoherent(ports: Ports)
    requires WellKeyed(ports)
    ensures PortsCoherent(ports, map[])
  {
  }

  lemma GoneAreRemoved(before: Processes, next: Processes, gone: set<ProcessKey>)
    requires gone == before.Keys - next.Keys
    ensures forall k :: k in SortedProcesses(gone) <==> k in before && k !in next
  {
  }

  lemma FactsLeftAreAccepted(engine: Engine, facts: FactTable, gone: set<ProcessKey>)
    requires FactsAccepted(engine, facts)
    ensures FactsAccepted(engine, facts - gone)
  {
  }

  lemma FewerEnrichmentFacts(engine: Engine, facts: FactTable, processes: Processes, result: Enriched)
    requires FactsAccepted(engine, facts)
    ensures FactsAccepted(engine, FactsAfterEnrichment(facts, processes, result))
  {
  }

  lemma SameKnownSameFacts(engine: Engine, next: Engine, facts: FactTable)
    requires FactsAccepted(engine, facts) && engine.known == next.known
    ensures FactsAccepted(next, facts)
  {
  }

  lemma ScanFactsAreAccepted(
    platform: Platform, engine: Engine, catalog: Catalog, generation: nat, facts: FactTable,
    result: ScanResult, request: ScanRequest)
    requires ContextMatches(engine, catalog, generation) && FactsAccepted(engine, facts)
    requires ValidFor(platform, result, request) && request.catalog == catalog
    ensures ValidFacts(engine, FactsOf(result.association, result.features))
    ensures FactsAccepted(engine, WithFacts(facts, request.key, FactsOf(result.association, result.features)))
  {
    hide ValidFor, ValidFacts;
    ValidatedFactsAreAccepted(platform, result, request, engine);
  }

  ghost predicate AcceptedContext(
    platform: Platform, projectList: seq<RegisteredProject>, snapshot: RulesSnapshot, processCapacity: nat)
  {
    && |projectList| <= MAX_PROJECT_CATALOG_ENTRIES && ValidProjects(platform, projectList)
    && SameProjects(CatalogOf(projectList).ids, snapshot.projectIds)
    && ValidSnapshot(snapshot) && WithinWorkBudget(processCapacity, EngineOf(snapshot))
  }

  lemma NothingIsCoherent()
    ensures Coherent(Tables(map[], map[], map[], Unknown, DEFAULT_ENGINE, map[], map[]), 0)
    ensures ContextMatches(DEFAULT_ENGINE, EMPTY_CATALOG, 0) && FactsAccepted(DEFAULT_ENGINE, map[])
    ensures Records(map[]) == EMPTY_MIRROR.processes && MirrorsPorts(EMPTY_MIRROR.ports, map[])
  {
  }

  lemma NoFactsAreFine(engine: Engine, processes: Processes)
    ensures FactsAccepted(engine, map[]) && FactsKept(map[], processes)
  {
  }

  lemma ForgettingAllFacts(facts: FactTable, processes: Processes)
    requires FactsKept(facts, processes)
    ensures facts - processes.Keys == map[]
  {
  }

  lemma FactsKeptByPass(facts: FactTable, before: Processes, after: Processes)
    requires FactsKept(facts, before) && before.Keys == after.Keys
    ensures FactsKept(facts, after)
  {
  }

  /** What the collected table guarantees, in one place. */
  lemma FastScanFacts(t: Tables, scan: seq<ProcessRecord>, now: nat, expiresAt: nat, c: Collected)
    requires Coherent(t, now) && CollectedFrom(Observer(t, now), t.processes, scan, expiresAt, c)
    ensures var facts := FactsAfter(t.facts, t.processes, c.next);
            && RecordsCoherent(t.engine, facts, t.bindings, c.next)
            && FactsKept(facts, c.next)
            && PortsShown(t.(processes := c.next, facts := facts), now)
    ensures KeysMatch(c.next) && Changes(t.processes, c.next, c.upserted)
    ensures c.newKeys == c.next.Keys - t.processes.Keys
    ensures forall k | k in Directories(t.processes) && k !in c.invalidated + (t.processes.Keys - c.next.Keys) ::
              k in Directories(c.next) && Directories(c.next)[k] == Directories(t.processes)[k]
  {
    hide Classify, Observed;
    CollectedIsCoherent(t, scan, now, now, expiresAt, c);
    ShownInAnyContext(
      t.(processes := c.next), t.engine, FactsAfter(t.facts, t.processes, c.next), t.bindings, now);
    UnforgottenStay(t.processes, c);
    forall k | k in c.next ensures c.next[k].record.key == k {
      assert RecordCoherent(t.engine, FactsAfter(t.facts, t.processes, c.next), t.bindings, k, c.next[k].record);
    }
  }

  lemma FewerScanFacts(engine: Engine, facts: FactTable, before: Processes, after: Processes)
    requires FactsAccepted(engine, facts)
    ensures FactsAccepted(engine, FactsAfter(facts, before, after))
  {
  }

  lemma RefreshedKeys(before: PortResults, after: PortResults)
    requires OnlyRefreshed(before, after)
    ensures after.Keys == before.Keys
  {
  }

  lemma NextGenerationMatches(engine: Engine, catalog: Catalog, generation: nat)
    requires ContextMatches(engine, catalog, 0) && generation < MAX_CATALOG_GENERATION
    ensures ContextMatches(engine, catalog, generation + 1)
  {
  }

  /** Under the bindings in force the overlay is what the records already are. */
  lemma ManagedUnchanged(engine: Engine, facts: FactTable, bindings: Bindings, processes: Processes)
    requires RecordsCoherent(engine, facts, bindings, processes)
    ensures Revised(processes, processes.Keys, OwnershipRevision(engine, facts, bindings)) == processes
  {
    hide RecordCoherent, OwnershipRevision, Revised, Settled;
    var revise := OwnershipRevision(engine, facts, bindings);
    RevisedKeys(processes, processes.Keys, revise);
    forall k | k in processes ensures Revised(processes, processes.Keys, revise)[k] == processes[k] {
      assert RecordCoherent(engine, facts, bindings, k, processes[k].record);
      RevisedRecord(processes, processes.Keys, revise, k);
      OverlaidAlready(engine, facts, bindings, k, processes[k].record);
    }
  }

  lemma OverlaidAlready(
    engine: Engine, facts: FactTable, bindings: Bindings, key: ProcessKey, record: ProcessRecord)
    requires RecordCoherent(engine, facts, bindings, key, record)
    ensures Settled(record, OwnershipRevision(engine, facts, bindings)(record)) == record
  {
    hide Classify, SameRecord;
  }

  lemma OwnershipRevisedSame(
    engine: Engine, facts: FactTable, known: Bindings, bindings: Bindings, processes: Processes)
    requires RecordsCoherent(engine, facts, known, processes)
    ensures Revised(processes, processes.Keys, OwnershipShortcut(engine, facts, bindings))
            == Revised(processes, processes.Keys, OwnershipRevision(engine, facts, bindings))
  {
    hide RecordCoherent, OwnershipRevision, OwnershipShortcut, Revised, Settled;
    var a, b := OwnershipShortcut(engine, facts, bindings), OwnershipRevision(engine, facts, bindings);
    OwnershipShortcutIsSound(engine, facts, known, bindings, processes);
    RevisedKeys(processes, processes.Keys, a);
    RevisedKeys(processes, processes.Keys, b);
    forall k | k in processes
      ensures Revised(processes, processes.Keys, a)[k] == Revised(processes, processes.Keys, b)[k]
    {
      RevisedRecord(processes, processes.Keys, a, k);
      RevisedRecord(processes, processes.Keys, b, k);
    }
  }

  /** What a task hands back: a result, or nothing because it was aborted or broke. */
  datatype Completion<+T> = Finished(result: Result<T>, cancelled: bool) | Aborted | Broken

  datatype ScanTask = ScanTask(cancelled: bool)

  datatype Snapshot = Snapshot(
    sequence: nat, records: seq<ProcessRecord>, bindings: FieldValue<seq<PortBinding>>)

  /** The records of a snapshot, in key order. */
  function RecordList(processes: Processes): seq<ProcessRecord> {
    var keys := SortedProcesses(processes.Keys);
    seq(|keys|, i requires 0 <= i < |keys| => assert keys[i] in processes.Keys; processes[keys[i]].record)
  }

  /** The records of a list by key. */
  function Listed(records: seq<ProcessRecord>): map<ProcessKey, ProcessRecord> {
    if records == [] then map[]
    else Listed(records[..|records| - 1])[records[|records| - 1].key := records[|records| - 1]]
  }

  lemma {:induction false} ListedHolds(records: seq<ProcessRecord>)
    ensures forall k | k in Listed(records) :: Listed(records)[k] in records && Listed(records)[k].key == k
    ensures forall r | r in records :: r.key in Listed(records)
  {
    if records != [] {
      ListedHolds(records[..|records| - 1]);
      assert records == records[..|records| - 1] + [records[|records| - 1]];
    }
  }

  lemma RecordListIsRecords(processes: Processes)
    requires KeysMatch(processes)
    ensures Listed(RecordList(processes)) == Records(processes)
  {
    hide RecordList, Listed;
    var records := RecordList(processes);
    AllRecordsListed(processes);
    ListedHolds(records);
    forall r | r in records ensures r.key in processes && processes[r.key].record == r {
      ListedIsRecord(processes, r);
    }
    assert Listed(records).Keys == processes.Keys;
  }

  lemma ListedIsRecord(processes: Processes, record: ProcessRecord)
    requires KeysMatch(processes) && record in RecordList(processes)
    ensures record.key in processes && processes[record.key].record == record
  {
    hide SortedProcesses;
    var keys, records := SortedProcesses(processes.Keys), RecordList(processes);
    var i :| 0 <= i < |records| && records[i] == record;
    assert keys[i] in keys && keys[i] in processes.Keys;
  }

  function BindingList(ports: Ports): seq<PortBinding> {
    var keys := SortedPorts(ports.Keys);
    seq(|keys|, i requires 0 <= i < |keys| => assert keys[i] in ports.Keys; ports[keys[i]].binding)
  }

  /** A snapshot lists every record and every binding exactly once. */
  lemma SnapshotIsComplete(processes: Processes, ports: Ports)
    ensures |RecordList(processes)| == |processes| && |BindingList(ports)| == |ports|
    ensures forall k | k in processes :: processes[k].record in RecordList(processes)
    ensures forall k | k in ports :: ports[k].binding in BindingList(ports)
  {
    hide RecordList, BindingList;
    AllRecordsListed(processes);
    AllBindingsListed(ports);
  }

  lemma AllRecordsListed(processes: Processes)
    ensures |RecordList(processes)| == |processes|
    ensures forall k | k in processes :: processes[k].record in RecordList(processes)
  {
    hide SortedProcesses;
    assert |processes.Keys| == |processes|;
    var keys := SortedProcesses(processes.Keys);
    forall k | k in processes ensures processes[k].record in RecordList(processes) {
      assert k in keys;
      var i :| 0 <= i < |keys| && keys[i] == k;
      assert RecordList(processes)[i] == processes[k].record;
    }
  }

  lemma AllBindingsListed(ports: Ports)
    ensures |BindingList(ports)| == |ports|
    ensures forall k | k in ports :: ports[k].binding in BindingList(ports)
  {
    hide SortedPorts;
    assert |ports.Keys| == |ports|;
    var keys := SortedPorts(ports.Keys);
    forall k | k in ports ensures ports[k].binding in BindingList(ports) {
      assert k in keys;
      var i :| 0 <= i < |keys| && keys[i] == k;
      assert BindingList(ports)[i] == ports[k].binding;
    }
  }

  /** Everything that can wake the actor. */
  datatype Input =
    | FastTick | PortTick | SweepTick | FlushTick | SnapshotTaken
    | Refresh(processScan: bool, portScan: bool, restart: bool)
    | EnrichmentRequested(
        key: ProcessKey, priority: EnrichmentQueue.Priority, demand: EnrichmentQueue.Demand)
    | EnrichmentCancelled(key: ProcessKey)
    | ProjectRequested(key: ProcessKey, priority: EnrichmentQueue.Priority)
    | ProjectCancelled(key: ProcessKey)
    | RulesReplaced(rules: RulesSnapshot)
    | ContextReplaced(projectList: seq<RegisteredProject>, rules: RulesSnapshot)
    | ManagedReplaced(managed: seq<ManagedBinding>)
    | FastScanDone(processes: Completion<seq<ProcessRecord>>)
    | PortScanDone(ports: Completion<FieldValue<seq<PortBinding>>>)
    | EnrichmentDone(
        key: ProcessKey, taskId: nat, demand: EnrichmentQueue.Demand, enriched: Completion<Enriched>)
    | ProjectScanDone(request: ScanRequest, taskId: nat, scanned: Completion<ScanResult>)

  predicate IsTick(input: Input) {
    input.FastTick? || input.PortTick? || input.SweepTick? || input.FlushTick? || input.SnapshotTaken?
  }

  predicate IsCompletion(input: Input) {
    input.FastScanDone? || input.PortScanDone? || input.EnrichmentDone? || input.ProjectScanDone?
  }

  datatype Timed = Timed(input: Input, now: nat)

  /** The clock never runs backwards. */
  ghost predicate InTime(inputs: seq<Timed>) {
    forall i, j | 0 <= i < j < |inputs| :: inputs[i].now <= inputs[j].now
  }

  // ----- Failures and lookups -----

  /** A failure of the operation was published since, or the updates are used up. */
  ghost predicate Told(earlier: seq<Update>, later: seq<Update>, halted: bool, operation: Operation) {
    || halted
    || exists i :: |earlier| <= i < |later|
                   && later[i].change.OperationFailed? && later[i].change.operation == operation
  }

  lemma ToldLast(earlier: seq<Update>, later: seq<Update>, halted: bool, operation: Operation, error: ErrorCode)
    requires halted || (|earlier| < |later| && later[|later| - 1].change == OperationFailed(operation, error))
    ensures Told(earlier, later, halted, operation)
  {
  }

  /** What was told stays told. */
  lemma ToldStays(
    a: seq<Update>, b: seq<Update>, c: seq<Update>, d: seq<Update>, halted: bool, later: bool, operation: Operation)
    requires a <= b <= c <= d && Told(b, c, halted, operation) && (halted ==> later)
    ensures Told(a, d, later, operation)
  {
  }

  /**
   The project of a process in a known directory is proven, being looked up or about to be, or a failure was
   published.
   */
  ghost predicate LookedUp(
    processes: Processes, board: ProjectQueue.Board, generation: nat, earlier: seq<Update>, later: seq<Update>,
    halted: bool, key: ProcessKey, now: nat)
  {
    key in processes && processes[key].record.workingDirectory.Known? ==>
      || ProjectQueue.Handled(board, key, processes[key].record.workingDirectory.value, generation, now)
      || Told(earlier, later, halted, ProjectAssociation(key))
  }

  lemma LookedUpStays(
    processes: Processes, before: ProjectQueue.Board, after: ProjectQueue.Board, generation: nat,
    a: seq<Update>, b: seq<Update>, c: seq<Update>, halted: bool, later: bool, failed: set<ProcessKey>,
    except: set<ProcessKey>, key: ProcessKey, now: nat)
    requires a <= b <= c && (halted ==> later) && key !in except
    requires LookedUp(processes, before, generation, a, b, halted, key, now)
    requires ProjectQueue.KeepsHandled(before, after, Directories(processes), generation, failed, now, except)
    requires forall k | k in failed :: Told(b, c, later, ProjectAssociation(k))
    ensures LookedUp(processes, after, generation, a, c, later, key, now)
  {
    hide ProjectQueue.Handled, Told;
    if key in processes && processes[key].record.workingDirectory.Known? {
      if Told(a, b, halted, ProjectAssociation(key)) {
        ToldStays(a, a, b, c, halted, later, ProjectAssociation(key));
      } else if key in failed {
        ToldStays(a, b, c, c, later, later, ProjectAssociation(key));
      }
    }
  }

  lemma LookedUpSinceEarlier(
    processes: Processes, board: ProjectQueue.Board, generation: nat, a: seq<Update>, b: seq<Update>, c: seq<Update>,
    halted: bool, keys: set<ProcessKey>, now: nat)
    requires a <= b <= c
    requires forall k | k in keys :: LookedUp(processes, board, generation, b, c, halted, k, now)
    ensures forall k | k in keys :: LookedUp(processes, board, generation, a, c, halted, k, now)
  {
    hide ProjectQueue.Handled, Told;
    forall k | k in keys ensures LookedUp(processes, board, generation, a, c, halted, k, now) {
      if Told(b, c, halted, ProjectAssociation(k)) {
        ToldStays(a, b, c, c, halted, halted, ProjectAssociation(k));
      }
    }
  }

  /** Processes that left are dropped from both queues; projects of those that moved are forgotten. */
  ghost predicate QueuesForget(
    before: EnrichmentQueue.State, after: EnrichmentQueue.State, board: ProjectQueue.Board, left: ProjectQueue.Board,
    gone: set<ProcessKey>, forgotten: set<ProcessKey>)
  {
    && after.cache == before.cache - gone
    && (forall k | k !in gone :: EnrichmentQueue.SameAt(before, after, k))
    && left.cache == board.cache - forgotten
    && (forall k | k !in forgotten :: ProjectQueue.SameOnBoard(board, left, k))
  }

  /**
   The first request for a process asks for its metadata if that is what a new process gets; what was asked for
   others stays, and what nothing was asked for yet stays so.
   */
  ghost predicate FirstRequested(
    known: set<ProcessKey>, before: EnrichmentQueue.State, after: EnrichmentQueue.State, key: ProcessKey,
    priority: EnrichmentQueue.Priority, demand: EnrichmentQueue.Demand, untouched: set<ProcessKey>)
  {
    && (forall k | k in known && k != key && EnrichmentQueue.Asked(before, k) :: EnrichmentQueue.Asked(after, k))
    && (key !in untouched ==> EnrichmentQueue.Avoids(after, untouched))
    && (priority.New? && demand.Metadata? ==> EnrichmentQueue.Asked(after, key))
  }

  // ----- What inputs do -----

  /** Everything that inputs change, apart from the clock. */
  datatype World = World(
    tables: Tables, availableUntil: Option<nat>, catalog: Catalog, generation: nat,
    fastTask: Option<ScanTask>, fastPending: bool, portTask: Option<ScanTask>, portPending: bool,
    enrichments: EnrichmentQueue.State, projects: ProjectQueue.Board,
    sent: seq<Update>, halted: bool, flushed: bool)

  ghost predicate LooksUp(before: World, after: World, key: ProcessKey, now: nat) {
    LookedUp(
      after.tables.processes, after.projects, after.generation, before.sent, after.sent, after.halted, key, now)
  }

  predicate HandledIn(processes: Processes, board: ProjectQueue.Board, generation: nat, key: ProcessKey, now: nat)
    : (handled: bool)
    ensures handled ==> key in processes
  {
    && key in processes && processes[key].record.workingDirectory.Known?
    && ProjectQueue.Handled(board, key, processes[key].record.workingDirectory.value, generation, now)
  }

  predicate IsHandled(world: World, key: ProcessKey, now: nat) {
    HandledIn(world.tables.processes, world.projects, world.generation, key, now)
  }

  /** What was to be looked up still is, or a failure was published. */
  ghost predicate KeepsLookingUp(before: World, after: World, now: nat) {
    forall k | k in after.tables.processes && IsHandled(before, k, now) :: LooksUp(before, after, k, now)
  }

  /** No demand of a process that stays is lost. */
  ghost predicate KeepsServing(before: World, after: World, now: nat) {
    forall k, d | k in before.tables.processes && k in after.tables.processes
                  && EnrichmentQueue.Served(before.enrichments, k, d, now) ::
      EnrichmentQueue.Served(after.enrichments, k, d, now)
  }

  /** Whoever was forgotten or has moved is looked up again; for the others nothing has changed. */
  lemma KeptLookingUp(
    before: World, board: ProjectQueue.Board, after: World, forgotten: set<ProcessKey>, again: set<ProcessKey>,
      now: nat)
    requires after.generation == before.generation
    requires forall k | k !in forgotten :: ProjectQueue.SameOnBoard(before.projects, board, k)
    requires forall k | k in again || HandledIn(after.tables.processes, board, after.generation, k, now) ::
               LooksUp(before, after, k, now)
    requires forall k | && k in after.tables.processes && after.tables.processes[k].record.workingDirectory.Known?
                        && (k in forgotten || NewOrMoved(before.tables.processes, after.tables.processes, k)) ::
               k in again
    ensures KeepsLookingUp(before, after, now)
  {
    hide LookedUp;
    forall k | k in after.tables.processes && IsHandled(before, k, now) ensures LooksUp(before, after, k, now) {
      if after.tables.processes[k].record.workingDirectory.Known? && k !in again {
        assert HandledIn(after.tables.processes, board, after.generation, k, now);
      } else if k !in again {
        UnknownIsLookedUp(before, after, k, now);
      }
    }
  }

  lemma UnknownIsLookedUp(before: World, after: World, key: ProcessKey, now: nat)
    requires key in after.tables.processes ==> !after.tables.processes[key].record.workingDirectory.Known?
    ensures LooksUp(before, after, key, now)
  {
  }

  lemma KeptServing(
    before: EnrichmentQueue.State, between: EnrichmentQueue.State, gone: set<ProcessKey>, key: ProcessKey,
    demand: EnrichmentQueue.Demand, now: nat)
    requires key !in gone && EnrichmentQueue.SameAt(before, between, key) && between.cache == before.cache - gone
    requires EnrichmentQueue.Served(before, key, demand, now)
    ensures EnrichmentQueue.Served(between, key, demand, now)
  {
  }

  /** A failure with this error was published since, or the updates are used up. */
  ghost predicate ToldError(before: World, after: World, operation: Operation, error: ErrorCode) {
    || after.halted
    || exists i :: |before.sent| <= i < |after.sent| && after.sent[i].change == OperationFailed(operation, error)
  }

  /** Nothing changes but what was sent. */
  ghost predicate OnlySends(before: World, after: World) {
    after == before.(sent := after.sent, halted := after.halted, flushed := after.flushed)
  }

  ghost predicate Fails(before: World, after: World, operation: Operation, error: ErrorCode) {
    OnlySends(before, after) && ToldError(before, after, operation, error)
  }

  /** A refresh while a scan runs makes the scan run again; it may also ask it to stop. */
  predicate ScanAsked(
    task: Option<ScanTask>, pending: bool, restart: bool, nextTask: Option<ScanTask>, nextPending: bool)
  {
    && nextTask == Some(ScanTask(task.Some? && (task.value.cancelled || restart)))
    && (nextPending <==> pending || task.Some?)
  }

  /** A scan ends; a refresh requested meanwhile starts the next one. */
  predicate ScanEnds(pending: bool, nextTask: Option<ScanTask>, nextPending: bool) {
    nextTask == (if pending then Some(ScanTask(false)) else None) && !nextPending
  }

  ghost predicate RefreshAsked(before: World, after: World, processScan: bool, portScan: bool, restart: bool) {
    && after == before.(
         fastTask := after.fastTask, fastPending := after.fastPending,
         portTask := after.portTask, portPending := after.portPending)
    && (if processScan
        then ScanAsked(before.fastTask, before.fastPending, restart, after.fastTask, after.fastPending)
        else after.fastTask == before.fastTask && after.fastPending == before.fastPending)
    && (if portScan
        then ScanAsked(before.portTask, before.portPending, restart, after.portTask, after.portPending)
        else after.portTask == before.portTask && after.portPending == before.portPending)
  }

  /** An accepted process scan: new processes are enriched, and projects of new or moved ones looked up. */
  ghost predicate FastScanTaken(before: World, after: World, scan: seq<ProcessRecord>, expiresAt: nat, now: nat) {
    && after == before.(
         tables := after.tables, enrichments := after.enrichments, projects := after.projects,
         sent := after.sent, halted := after.halted, flushed := after.flushed)
    && ProcessesScanned(before.tables, after.tables, scan, expiresAt)
    && (forall k | k in after.tables.processes && k !in before.tables.processes ::
          EnrichmentQueue.Asked(after.enrichments, k))
    && (forall k | k in after.tables.processes && NewOrMoved(before.tables.processes, after.tables.processes, k) ::
          LooksUp(before, after, k, now))
    && KeepsLookingUp(before, after, now) && KeepsServing(before, after, now)
  }

  /** What the task of a process scan hands back: a scan to take over, a failure, or nothing. */
  ghost predicate ProcessScanResult(
    config: Config, before: World, after: World, completion: Completion<seq<ProcessRecord>>, now: nat)
  {
    match completion
    case Aborted => after == before
    case Broken => Fails(before, after, FastProcessScan, Internal)
    case Finished(result, cancelled) =>
      if cancelled then after == before
      else match result
           case Err(error) => Fails(before, after, FastProcessScan, error)
           case Ok(scan) =>
             if |scan| <= config.processCapacity && AcceptedScan(scan)
             then FastScanTaken(before, after, scan, now + config.processTtl, now)
             else Fails(before, after, FastProcessScan, PlatformError)
  }

  ghost predicate ProcessScanEnds(
    config: Config, before: World, after: World, completion: Completion<seq<ProcessRecord>>, now: nat)
  {
    var rest := before.(fastTask := after.fastTask, fastPending := after.fastPending);
    && ScanEnds(before.fastPending, after.fastTask, after.fastPending)
    && (if before.fastTask == Some(ScanTask(true)) then after == rest
        else ProcessScanResult(config, rest, after, completion, now))
  }

  lemma TaskIsApart(
    config: Config, before: World, after: World, completion: Completion<seq<ProcessRecord>>, now: nat,
    task: Option<ScanTask>, pending: bool)
    requires ProcessScanResult(config, before, after, completion, now)
    ensures ProcessScanResult(
              config, before.(fastTask := task, fastPending := pending),
              after.(fastTask := task, fastPending := pending), completion, now)
  {
    hide ProcessesScanned, LookedUp, AcceptedScan, EnrichmentQueue.Asked, NewOrMoved;
  }

  /** An accepted port scan says for how long it holds, unless it says nothing. */
  ghost predicate PortScanTaken(before: World, after: World, bindings: FieldValue<seq<PortBinding>>, expiresAt: nat) {
    && after == before.(
         tables := after.tables, availableUntil := after.availableUntil, sent := after.sent,
         halted := after.halted, flushed := after.flushed)
    && PortsScanned(before.tables, after.tables, bindings, expiresAt)
    && after.availableUntil == (if bindings.Unknown? then None else Some(expiresAt))
  }

  ghost predicate PortScanResult(
    config: Config, before: World, after: World, completion: Completion<FieldValue<seq<PortBinding>>>, now: nat)
  {
    match completion
    case Aborted => after == before
    case Broken => Fails(before, after, PortScan, Internal)
    case Finished(result, cancelled) =>
      if cancelled then after == before
      else match result
           case Err(error) => Fails(before, after, PortScan, error)
           case Ok(bindings) =>
             if AcceptedPortScan(bindings, config.portCapacity)
             then PortScanTaken(before, after, bindings, now + config.portTtl)
             else Fails(before, after, PortScan, PlatformError)
  }

  ghost predicate PortScanEnds(
    config: Config, before: World, after: World, completion: Completion<FieldValue<seq<PortBinding>>>, now: nat)
  {
    var rest := before.(portTask := after.portTask, portPending := after.portPending);
    && ScanEnds(before.portPending, after.portTask, after.portPending)
    && (if before.portTask == Some(ScanTask(true)) then after == rest
        else PortScanResult(config, rest, after, completion, now))
  }

  lemma PortTaskIsApart(
    config: Config, before: World, after: World, completion: Completion<FieldValue<seq<PortBinding>>>, now: nat,
    task: Option<ScanTask>, pending: bool)
    requires PortScanResult(config, before, after, completion, now)
    ensures PortScanResult(
              config, before.(portTask := task, portPending := pending),
              after.(portTask := task, portPending := pending), completion, now)
  {
    hide PortsScanned, AcceptedPortScan;
  }

  /** The process that a result moves to another directory. */
  function MovedAway(processes: Processes, result: Enriched): set<ProcessKey> {
    if MovedBy(processes, result) then {result.key} else {}
  }

  /** How long enrichment data holds. */
  function EnrichmentTerm(config: Config, demand: EnrichmentQueue.Demand): nat {
    if demand.MetadataAndPorts? && config.portTtl < config.enrichmentTtl then config.portTtl else config.enrichmentTtl
  }

  /**
   What an enrichment result does: it is refused with a failure, ignored if its process has gone, or taken over;
   then it is kept for a while, and the project of its directory is looked up.
   */
  ghost predicate EnrichmentTaken(
    config: Config, before: World, after: World, key: ProcessKey, demand: EnrichmentQueue.Demand, result: Enriched,
    now: nat)
  {
    if !(ValidInstanceKey(result.key) && result.key == key && AcceptedReport(result, config.portCapacity)) then
      exists error ::
        ReportRefused(key, result, config.portCapacity, error) && Fails(before, after, Operation.Enrichment(key), error)
    else if key !in before.tables.processes then after == before
    else if !ReportFits(before.tables.ports, result, config.portCapacity) then
      Fails(before, after, Operation.Enrichment(key), PlatformError)
    else EnrichmentApplied(config, before, after, key, demand, result, now)
  }

  /** Why a result is refused whatever the tables say. */
  ghost predicate ReportRefused(key: ProcessKey, result: Enriched, capacity: nat, error: ErrorCode) {
    if !ValidInstanceKey(result.key) || result.key != key then error == IdentityMismatch
    else
      result.portBindings.Some? && result.portBindings.value.Known?
      && PortsRefused(result.key, result.portBindings.value.value, capacity, error)
  }

  ghost predicate EnrichmentApplied(
    config: Config, before: World, after: World, key: ProcessKey, demand: EnrichmentQueue.Demand, result: Enriched,
    now: nat)
  {
    var was, cache := before.enrichments.cache, after.enrichments.cache;
    && after == before.(
         tables := after.tables, enrichments := before.enrichments.(cache := cache), projects := after.projects,
         sent := after.sent, halted := after.halted, flushed := after.flushed)
    && ProcessEnriched(before.tables, after.tables, result, now + config.portTtl)
    && EnrichmentQueue.InsertedInto(
         was, cache, config.enrichmentCapacity, key,
         EnrichmentQueue.CacheEntry(now + EnrichmentTerm(config, demand), demand))
    && (if result.workingDirectory.Known? then LooksUp(before, after, key, now) else true)
    && KeepsLookingUp(before, after, now)
  }

  ghost predicate EnrichmentResult(
    config: Config, before: World, after: World, key: ProcessKey, demand: EnrichmentQueue.Demand,
    completion: Completion<Enriched>, now: nat)
  {
    match completion
    case Aborted => after == before
    case Broken => Fails(before, after, Operation.Enrichment(key), Internal)
    case Finished(result, cancelled) =>
      if cancelled then after == before
      else match result
           case Err(error) => Fails(before, after, Operation.Enrichment(key), error)
           case Ok(enriched) => EnrichmentTaken(config, before, after, key, demand, enriched, now)
  }

  /**
   A run ends, and free slots are filled. No demand is lost: neither what waits, nor what was merged into the run
   meanwhile.
   */
  ghost predicate EnrichmentsMoveOn(before: World, after: World, key: ProcessKey, taskId: nat, now: nat) {
    var run := EnrichmentQueue.RunOf(before.enrichments.running, key, taskId);
    var waiting := if run.Some? then before.enrichments.(running := before.enrichments.running - {key})
                   else before.enrichments;
    && after == before.(enrichments := after.enrichments)
    && (run.Some? ==> EnrichmentQueue.RunOf(after.enrichments.running, key, taskId).None?)
    && (run.Some? && !run.value.cancelled && !run.value.started.Covers(run.value.desired)
        && key in before.tables.processes ==>
          EnrichmentQueue.Served(after.enrichments, key, run.value.desired, now))
    && (forall k, d | k in before.tables.processes && EnrichmentQueue.Served(waiting, k, d, now) ::
          EnrichmentQueue.Served(after.enrichments, k, d, now))
  }

  ghost predicate EnrichmentEnds(
    config: Config, before: World, after: World, key: ProcessKey, taskId: nat, demand: EnrichmentQueue.Demand,
    completion: Completion<Enriched>, now: nat)
  {
    var run := EnrichmentQueue.RunOf(before.enrichments.running, key, taskId);
    exists taken: World ::
      && EnrichmentsMoveOn(taken, after, key, taskId, now)
      && (if run.Some? && run.value.cancelled then taken == before
          else EnrichmentResult(config, before, taken, key, demand, completion, now))
  }

  lemma RefusedEnrichment(
    config: Config, before: World, after: World, key: ProcessKey, demand: EnrichmentQueue.Demand, result: Enriched,
    error: ErrorCode, now: nat)
    requires Fails(before, after, Operation.Enrichment(key), error)
    requires var accepted :=
               ValidInstanceKey(result.key) && result.key == key && AcceptedReport(result, config.portCapacity);
             && !(accepted
                  && (key in before.tables.processes ==>
                        ReportFits(before.tables.ports, result, config.portCapacity)))
             && (if accepted then error == PlatformError else ReportRefused(key, result, config.portCapacity, error))
    ensures EnrichmentTaken(config, before, after, key, demand, result, now)
  {
    hide EnrichmentApplied, AcceptedReport, ReportFits, ValidInstanceKey, ReportRefused;
  }

  lemma IgnoredEnrichment(
    config: Config, world: World, key: ProcessKey, demand: EnrichmentQueue.Demand, result: Enriched, now: nat)
    requires ValidInstanceKey(result.key) && result.key == key && AcceptedReport(result, config.portCapacity)
    requires key !in world.tables.processes
    ensures EnrichmentTaken(config, world, world, key, demand, result, now)
  {
    hide EnrichmentApplied, AcceptedReport, ValidInstanceKey, ReportRefused;
  }

  /** A wanted project scan: the record says what was proven, and the proof is kept, in place of the oldest. */
  ghost predicate ProjectScanTaken(
    config: Config, before: World, after: World, request: ScanRequest, found: ScanResult, evicted: Option<ProcessKey>,
    now: nat)
  {
    var was, proofs := before.projects.cache, after.projects.cache;
    && after == before.(
         tables := after.tables, projects := before.projects.(cache := proofs), sent := after.sent,
         halted := after.halted, flushed := after.flushed)
    && ProjectQueue.EvictsOldest(was, config.projectCapacity, request.key, evicted)
    && proofs == (was - SetOf(evicted))[
         request.key := ProjectQueue.Proof(now + config.projectTtl, request.expectedDirectory, request.generation)]
    && EvidenceFound(before.tables, after.tables, request.key, found, evicted)
  }

  ghost predicate ProjectScanResult(
    config: Config, platform: Platform, before: World, after: World, request: ScanRequest,
    completion: Completion<ScanResult>, now: nat)
  {
    var operation := ProjectAssociation(request.key);
    match completion
    case Aborted => after == before
    case Broken => Fails(before, after, operation, Internal)
    case Finished(result, cancelled) =>
      if cancelled then after == before
      else match result
           case Err(error) => Fails(before, after, operation, error)
           case Ok(found) =>
             if !ValidFor(platform, found, request) then Fails(before, after, operation, PlatformError)
             else if !StillWanted(before.tables.processes, before.catalog, before.generation, request) then
               after == before
             else exists evicted :: ProjectScanTaken(config, before, after, request, found, evicted, now)
  }

  /** A scan ends, and free slots are filled; what was to be looked up still is, or a failure is published. */
  ghost predicate ScansMoveOn(before: World, after: World, key: ProcessKey, taskId: nat, now: nat) {
    && OnlySends(before.(projects := after.projects), after)
    && (ProjectQueue.ScanOf(before.projects.running, key, taskId).Some? ==>
          ProjectQueue.ScanOf(after.projects.running, key, taskId).None?)
    && (forall k | k in after.tables.processes && k != key && IsHandled(before, k, now) ::
      LooksUp(before, after, k, now))
  }

  lemma EvidenceIsApplied(
    config: Config, before: World, after: World, request: ScanRequest, result: ScanResult, evicted: Option<ProcessKey>,
    now: nat)
    requires StillWanted(before.tables.processes, before.catalog, before.generation, request)
    requires ProjectQueue.EvictsOldest(before.projects.cache, config.projectCapacity, request.key, evicted)
    requires after == before.(
               tables := after.tables, projects := before.projects.(cache := after.projects.cache), sent := after.sent,
               halted := after.halted, flushed := after.flushed)
    requires after.projects.cache == (before.projects.cache - SetOf(evicted))[
               request.key := ProjectQueue.Proof(now + config.projectTtl, request.expectedDirectory,
                 request.generation)]
    requires var engine := before.tables.engine;
             after.tables == before.tables.(
               processes := Revised(
                 Revised(before.tables.processes, {request.key}, ScanRevision(engine, result)), SetOf(evicted),
                 ClearRevision(engine)),
               facts := WithFacts(before.tables.facts, request.key, FactsOf(result.association, result.features))
                        - SetOf(evicted))
    ensures ProjectScanTaken(config, before, after, request, result, evicted, now)
  {
    hide Revised, ScanRevision, ClearRevision, WithFacts, FactsOf, EvidenceFound;
    ProjectScanIsApplied(before.tables, after.tables, request.key, result, evicted);
  }

  lemma HandledIsLookedUp(before: World, after: World, failed: set<ProcessKey>, key: ProcessKey, now: nat)
    requires after.generation == before.generation && after.tables == before.tables
    requires ProjectQueue.KeepsHandled(
               before.projects, after.projects, Directories(before.tables.processes), before.generation, failed, now,
               {key})
    requires forall k | k in failed :: Told(before.sent, after.sent, after.halted, ProjectAssociation(k))
    ensures forall k | k in after.tables.processes && k != key && IsHandled(before, k, now) ::
              LooksUp(before, after, k, now)
  {
    hide Told, ProjectQueue.Handled;
  }

  lemma ProjectIsAsked(
    config: Config, before: World, after: World, status: Result<EnrichmentQueue.Status>, failed: set<ProcessKey>,
    key: ProcessKey, priority: EnrichmentQueue.Priority, now: nat)
    requires OnlySends(before.(projects := after.projects), after)
    requires forall k | k in failed :: Told(before.sent, after.sent, after.halted, ProjectAssociation(k))
    requires failed == {} ==>
               after.sent == before.sent && after.halted == before.halted && after.flushed == before.flushed
    requires var processes, board := before.tables.processes, before.projects;
             if !WantsScan(processes, board.cache, before.generation, key, now)
             then failed == {} && after.projects == board
             else
               && ProjectQueue.MatchRaised(
                    board, after.projects, key, priority, processes[key].record.workingDirectory.value,
                    before.generation)
               && (if status.Ok? then HandledIn(processes, after.projects, before.generation, key, now) || key in failed
                   else |board.pending - {key}| + |board.running| >= config.projectCapacity)
    requires ProjectQueue.KeepsHandled(
               before.projects, after.projects, Directories(before.tables.processes), before.generation, failed, now,
               {key})
    ensures ProjectAsked(config, before, after, key, priority, now)
    ensures status.Ok? && WantsScan(before.tables.processes, before.projects.cache, before.generation, key, now) ==>
              LooksUp(before, after, key, now)
  {
    hide Told, ProjectQueue.Handled, ProjectQueue.KeepsHandled, ProjectQueue.MatchRaised, ProjectQueue.FreshProof;
    HandledIsLookedUp(before, after, failed, key, now);
  }

  /** The result is taken over unless the scan was cancelled, and then the queue moves on. */
  ghost predicate ProjectScanEnds(
    config: Config, platform: Platform, before: World, after: World, request: ScanRequest, taskId: nat,
    completion: Completion<ScanResult>, now: nat)
  {
    var scan := ProjectQueue.ScanOf(before.projects.running, request.key, taskId);
    exists taken: World ::
      && ScansMoveOn(taken, after, request.key, taskId, now)
      && (if scan.Some? && scan.value.cancelled then taken == before
          else ProjectScanResult(config, platform, before, taken, request, completion, now))
  }

  /** Whatever has expired is gone; known availability that has expired is unknown again. */
  ghost predicate SweepDone(before: World, after: World, now: nat) {
    && after == before.(
         tables := after.tables, availableUntil := after.availableUntil, enrichments := after.enrichments,
         projects := after.projects, sent := after.sent, halted := after.halted, flushed := after.flushed)
    && TablesSwept(before.tables, after.tables, before.projects.cache, now)
    && (if before.availableUntil.Some? && before.availableUntil.value <= now
        then after.tables.availability.Unknown? && after.availableUntil.None?
        else after.tables.availability == before.tables.availability && after.availableUntil == before.availableUntil)
    && (forall k :: k in after.enrichments.cache
                    <==> && k in before.enrichments.cache && before.enrichments.cache[k].expiresAt > now
                         && k in after.tables.processes)
    && (forall k | k in after.enrichments.cache :: after.enrichments.cache[k] == before.enrichments.cache[k])
    && (forall k | k in after.tables.processes :: EnrichmentQueue.SameAt(before.enrichments, after.enrichments, k))
    && (forall k | k in after.projects.cache ::
          && after.projects.cache[k].expiresAt > now
          && k in before.projects.cache && after.projects.cache[k] == before.projects.cache[k])
    && (forall k | k in after.tables.processes && k in before.projects.cache
                   && before.projects.cache[k].expiresAt <= now ::
          LooksUp(before, after, k, now))
    && KeepsLookingUp(before, after, now) && KeepsServing(before, after, now)
  }

  /** A request for a known process raises what is queued or running for it, or is queued. */
  ghost predicate EnrichmentAsked(
    before: World, after: World, key: ProcessKey, priority: EnrichmentQueue.Priority, demand: EnrichmentQueue.Demand,
    now: nat)
  {
    if key !in before.tables.processes then after == before
    else
      && after == before.(
           enrichments := after.enrichments, projects := after.projects, sent := after.sent,
           halted := after.halted, flushed := after.flushed)
      && (if EnrichmentQueue.Fresh(before.enrichments.cache, key, demand, now)
          then after.enrichments == before.enrichments
          else EnrichmentQueue.MergedOrQueued(before.enrichments, after.enrichments, key, priority, demand))
      && KeepsServing(before, after, now)
      && (if priority.Visible? || priority.Selected?
          then LooksUp(before, after, key, now) && KeepsLookingUp(before, after, now)
          else after == before.(enrichments := after.enrichments))
  }

  ghost predicate EnrichmentStopped(before: World, after: World, key: ProcessKey) {
    var was, now := before.enrichments, after.enrichments;
    && after == before.(enrichments := now) && now.cache == was.cache && now.nextTaskId == was.nextTaskId
    && now.pending == was.pending - {key} && EnrichmentQueue.StopsRun(was.running, now.running, key)
  }

  /** The directory is known, and nothing fresh is proven about it. */
  predicate WantsScan(
    processes: Processes, proofs: map<ProcessKey, ProjectQueue.Proof>, generation: nat, key: ProcessKey, now: nat)
    : (wanted: bool)
    ensures wanted ==> key in processes && processes[key].record.workingDirectory.Known?
  {
    && key in processes && processes[key].record.workingDirectory.Known?
    && !ProjectQueue.FreshProof(proofs, key, processes[key].record.workingDirectory.value, generation, now)
  }

  /** A request is answered, raises what is queued or running, is queued, or is refused because the queue is full. */
  ghost predicate ProjectAsked(
    config: Config, before: World, after: World, key: ProcessKey, priority: EnrichmentQueue.Priority, now: nat)
  {
    var board, processes := before.projects, before.tables.processes;
    if !WantsScan(processes, board.cache, before.generation, key, now) then after == before
    else
      && OnlySends(before.(projects := after.projects), after)
      && ProjectQueue.MatchRaised(
           board, after.projects, key, priority, processes[key].record.workingDirectory.value, before.generation)
      && (LooksUp(before, after, key, now) || |board.pending - {key}| + |board.running| >= config.projectCapacity)
      && (forall k | k in processes && k != key && IsHandled(before, k, now) :: LooksUp(before, after, k, now))
  }

  ghost predicate ProjectStopped(before: World, after: World, key: ProcessKey) {
    var was, now := before.projects, after.projects;
    && after == before.(projects := now) && now.cache == was.cache && now.nextTaskId == was.nextTaskId
    && now.pending == was.pending - {key} && ProjectQueue.StopsScan(was.running, now.running, key)
  }

  ghost predicate RulesAsked(config: Config, before: World, after: World, rules: RulesSnapshot) {
    if SameProjects(before.catalog.ids, rules.projectIds) && ValidSnapshot(rules)
       && WithinWorkBudget(config.processCapacity, EngineOf(rules))
    then
      && after == before.(tables := after.tables, sent := after.sent, halted := after.halted, flushed := after.flushed)
      && RulesTaken(before.tables, after.tables, rules)
    else after == before
  }

  /** A new context: everything is looked up again under the next generation. */
  ghost predicate ContextAsked(
    config: Config, platform: Platform, before: World, after: World, projectList: seq<RegisteredProject>,
    rules: RulesSnapshot, now: nat)
  {
    if AcceptedContext(platform, projectList, rules, config.processCapacity)
       && before.generation < MAX_CATALOG_GENERATION
    then
      && after == before.(
           tables := after.tables, catalog := CatalogOf(projectList), generation := before.generation + 1,
           projects := after.projects, sent := after.sent, halted := after.halted, flushed := after.flushed)
      && ContextTaken(before.tables, after.tables, rules)
      && (forall k | k in after.tables.processes :: LooksUp(before, after, k, now))
    else after == before
  }

  ghost predicate ManagedAsked(config: Config, before: World, after: World, managed: seq<ManagedBinding>) {
    if |managed| <= config.processCapacity && AcceptedManaged(managed)
    then
      && after == before.(tables := after.tables, sent := after.sent, halted := after.halted, flushed := after.flushed)
      && OwnershipTaken(before.tables, after.tables)
      && (forall k :: k in after.tables.bindings <==> exists b :: b in managed && b.key == k)
      && (forall b | b in managed :: after.tables.bindings[b.key] == b.runId)
    else after == before
  }

  lemma ManagedIsApplied(config: Config, before: World, after: World, managed: seq<ManagedBinding>)
    requires |managed| <= config.processCapacity && AcceptedManaged(managed) && KeysMatch(before.tables.processes)
    requires after
             == before.(tables := after.tables, sent := after.sent, halted := after.halted, flushed := after.flushed)
    requires after.tables == before.tables.(processes := after.tables.processes, bindings := ManagedTable(managed))
    requires after.tables.processes == Revised(
               before.tables.processes, before.tables.processes.Keys,
               OwnershipRevision(before.tables.engine, before.tables.facts, after.tables.bindings))
    ensures ManagedAsked(config, before, after, managed)
  {
    hide AcceptedManaged, ManagedTable, OwnershipTaken, OwnershipRevision, Revised;
    ManagedTableHolds(managed);
    OwnershipIsApplied(before.tables, after.tables);
    forall k ensures k in after.tables.bindings <==> exists b :: b in managed && b.key == k {
      if k in after.tables.bindings {
        assert ManagedBinding(k, after.tables.bindings[k]) in managed;
      }
    }
  }

  lemma ContextIsAsked(
    config: Config, platform: Platform, before: World, after: World, projectList: seq<RegisteredProject>,
    rules: RulesSnapshot, now: nat)
    requires AcceptedContext(platform, projectList, rules, config.processCapacity)
    requires before.generation < MAX_CATALOG_GENERATION
    requires after == before.(
               tables := after.tables, catalog := CatalogOf(projectList), generation := before.generation + 1,
               projects := after.projects, sent := after.sent, halted := after.halted, flushed := after.flushed)
    requires after.tables == before.tables.(engine := EngineOf(rules), processes := after.tables.processes,
              facts := map[])
    requires after.tables.processes == Revised(
               before.tables.processes, before.tables.processes.Keys, ClearRevision(after.tables.engine))
    requires forall k | k in after.tables.processes :: LooksUp(before, after, k, now)
    ensures ContextAsked(config, platform, before, after, projectList, rules, now)
  {
    hide ContextTaken, ClearRevision, Revised, LookedUp, CatalogOf, ValidProjects, ValidSnapshot, WithinWorkBudget,
      SortRules;
    ContextIsApplied(before.tables, after.tables, rules);
  }

  /** What each input does to everything. */
  ghost predicate Step(config: Config, platform: Platform, before: World, input: Input, now: nat, after: World) {
    match input
    case FastTick => RefreshAsked(before, after, true, false, false)
    case PortTick => RefreshAsked(before, after, false, true, false)
    case SweepTick => SweepDone(before, after, now)
    case FlushTick => OnlySends(before, after) && after.flushed
    case SnapshotTaken => SweepDone(before, after, now) && after.flushed
    case Refresh(processScan, portScan, restart) => RefreshAsked(before, after, processScan, portScan, restart)
    case EnrichmentRequested(key, priority, demand) => EnrichmentAsked(before, after, key, priority, demand, now)
    case EnrichmentCancelled(key) => EnrichmentStopped(before, after, key)
    case ProjectRequested(key, priority) => ProjectAsked(config, before, after, key, priority, now)
    case ProjectCancelled(key) => ProjectStopped(before, after, key)
    case RulesReplaced(rules) => RulesAsked(config, before, after, rules)
    case ContextReplaced(projectList, rules) => ContextAsked(config, platform, before, after, projectList, rules, now)
    case ManagedReplaced(managed) => ManagedAsked(config, before, after, managed)
    case FastScanDone(completion) =>
      if before.fastTask.None? then after == before else ProcessScanEnds(config, before, after, completion, now)
    case PortScanDone(completion) =>
      if before.portTask.None? then after == before else PortScanEnds(config, before, after, completion, now)
    case EnrichmentDone(key, taskId, demand, completion) =>
      EnrichmentEnds(config, before, after, key, taskId, demand, completion, now)
    case ProjectScanDone(request, taskId, completion) =>
      ProjectScanEnds(config, platform, before, after, request, taskId, completion, now)
  }

  /** Successive states: each input leads from one to the next, until a shutdown is signalled. */
  ghost predicate Linked(
    config: Config, platform: Platform, inputs: seq<Timed>, worlds: seq<World>, first: World, last: World)
  {
    && 1 <= |worlds| <= |inputs| + 1 && worlds[0] == first && worlds[|worlds| - 1] == last
    && (forall i | 0 <= i < |worlds| - 1 ::
          && !worlds[i].halted
          && Step(config, platform, worlds[i], inputs[i].input, inputs[i].now, worlds[i + 1]))
    && (|worlds| == |inputs| + 1 || last.halted)
  }

  /** A run: all inputs, and then the end, with everything published. */
  ghost predicate RunsThrough(
    config: Config, platform: Platform, inputs: seq<Timed>, worlds: seq<World>, before: World, after: World)
  {
    && after.flushed
    && exists last: World :: Linked(config, platform, inputs, worlds, before, last) && Stopped(last, after)
  }

  lemma LinkExtends(
    config: Config, platform: Platform, inputs: seq<Timed>, worlds: seq<World>, next: World)
    requires 1 <= |worlds| <= |inputs| && !worlds[|worlds| - 1].halted
    requires forall i | 0 <= i < |worlds| - 1 ::
               && !worlds[i].halted
               && Step(config, platform, worlds[i], inputs[i].input, inputs[i].now, worlds[i + 1])
    requires Step(
               config, platform, worlds[|worlds| - 1], inputs[|worlds| - 1].input, inputs[|worlds| - 1].now, next)
    ensures forall i | 0 <= i < |worlds| ::
              && !(worlds + [next])[i].halted
              && Step(
                   config, platform, (worlds + [next])[i], inputs[i].input, inputs[i].now, (worlds + [next])[i + 1])
  {
    hide Step;
  }

  /** At the end everything queued is dropped and everything running is cancelled; the tables stay as they are. */
  ghost predicate Stopped(before: World, after: World) {
    && after == before.(
         fastTask := if before.fastTask.Some? then Some(ScanTask(true)) else None, fastPending := false,
         portTask := if before.portTask.Some? then Some(ScanTask(true)) else None, portPending := false,
         enrichments := before.enrichments.(pending := map[], running := after.enrichments.running),
         projects := before.projects.(pending := map[], running := after.projects.running),
         sent := after.sent, halted := after.halted, flushed := after.flushed)
    && after.enrichments.running.Keys == before.enrichments.running.Keys
    && (forall k | k in after.enrichments.running :: after.enrichments.running[k].cancelled)
    && after.projects.running.Keys == before.projects.running.Keys
    && (forall k | k in after.projects.running :: after.projects.running[k].cancelled)
  }

  predicate NewOrMoved(before: Processes, after: Processes, key: ProcessKey)
    requires key in after
  {
    key !in before || before[key].record.workingDirectory != after[key].record.workingDirectory
  }

  lemma RescanCovers(before: Processes, c: Collected, after: Processes)
    requires SetsFrom(before, c) && OnlyPortsDiffer(c.next, after)
    ensures forall k | k in after && NewOrMoved(before, after, k) && after[k].record.workingDirectory.Known? ::
              k in c.rescan
  {
  }

  lemma HandledAreLookedUp(
    processes: Processes, board: ProjectQueue.Board, generation: nat, sent: seq<Update>, halted: bool,
    handled: set<ProcessKey>, now: nat)
    requires forall k | k in handled :: HandledIn(processes, board, generation, k, now)
    ensures forall k | k in handled :: LookedUp(processes, board, generation, sent, sent, halted, k, now)
  {
    hide ProjectQueue.Handled, Told;
  }

  lemma OthersNeedNoLookup(
    processes: Processes, keys: set<ProcessKey>, rescan: set<ProcessKey>, board: ProjectQueue.Board, generation: nat,
    earlier: seq<Update>, later: seq<Update>, halted: bool, now: nat)
    requires rescan == set k | k in keys && k in processes && processes[k].record.workingDirectory.Known?
    requires forall k | k in rescan :: LookedUp(processes, board, generation, earlier, later, halted, k, now)
    ensures forall k | k in keys :: LookedUp(processes, board, generation, earlier, later, halted, k, now)
  {
    hide ProjectQueue.Handled, Told;
    forall k | k in keys ensures LookedUp(processes, board, generation, earlier, later, halted, k, now) {
      if k in processes && processes[k].record.workingDirectory.Known? {
        assert k in rescan;
      }
    }
  }

  lemma ScanLooksUp(
    before: World, after: World, c: Collected, between: EnrichmentQueue.State, board: ProjectQueue.Board, now: nat)
    requires SetsFrom(before.tables.processes, c) && OnlyPortsDiffer(c.next, after.tables.processes)
    requires after.generation == before.generation
    requires var gone := before.tables.processes.Keys - c.next.Keys;
             QueuesForget(before.enrichments, between, before.projects, board, gone, c.invalidated + gone)
    requires forall k | k in c.rescan || HandledIn(after.tables.processes, board, after.generation, k, now) ::
               LooksUp(before, after, k, now)
    ensures KeepsLookingUp(before, after, now)
    ensures forall k | k in after.tables.processes && NewOrMoved(before.tables.processes, after.tables.processes, k) ::
              LooksUp(before, after, k, now)
  {
    hide LookedUp, HandledIn, SetsFrom, OnlyPortsDiffer, ProjectQueue.SameOnBoard, EnrichmentQueue.SameAt, NewOrMoved;
    var gone := before.tables.processes.Keys - c.next.Keys;
    RescanCovers(before.tables.processes, c, after.tables.processes);
    InvalidatedMoved(before.tables.processes, c, after.tables.processes);
    KeptLookingUp(before, board, after, c.invalidated + gone, c.rescan, now);
    forall k | k in after.tables.processes && NewOrMoved(before.tables.processes, after.tables.processes, k)
      ensures LooksUp(before, after, k, now)
    {
      if k !in c.rescan {
        UnknownIsLookedUp(before, after, k, now);
      }
    }
  }

  lemma InvalidatedMoved(before: Processes, c: Collected, after: Processes)
    requires SetsFrom(before, c) && OnlyPortsDiffer(c.next, after)
    ensures after.Keys == c.next.Keys
    ensures forall k | k in after && k in c.invalidated :: NewOrMoved(before, after, k)
  {
  }

  lemma ScanServes(
    before: World, between: EnrichmentQueue.State, board: ProjectQueue.Board, gone: set<ProcessKey>,
    forgotten: set<ProcessKey>, after: World, now: nat)
    requires QueuesForget(before.enrichments, between, before.projects, board, gone, forgotten)
    requires gone !! after.tables.processes.Keys
    requires forall k, d | k in after.tables.processes && EnrichmentQueue.Served(between, k, d, now) ::
               EnrichmentQueue.Served(after.enrichments, k, d, now)
    ensures KeepsServing(before, after, now)
  {
    hide EnrichmentQueue.Served, EnrichmentQueue.SameAt, ProjectQueue.SameOnBoard;
    forall k, d | && k in before.tables.processes && k in after.tables.processes
                  && EnrichmentQueue.Served(before.enrichments, k, d, now)
      ensures EnrichmentQueue.Served(after.enrichments, k, d, now)
    {
      KeptServing(before.enrichments, between, gone, k, d, now);
    }
  }

  lemma EnrichedLooksUp(
    before: World, board: ProjectQueue.Board, after: World, result: Enriched, expiresAt: nat, now: nat)
    requires ProcessEnriched(before.tables, after.tables, result, expiresAt) && after.generation == before.generation
    requires forall k | k !in MovedAway(before.tables.processes, result) ::
               ProjectQueue.SameOnBoard(before.projects, board, k)
    requires forall k | (k == result.key && result.workingDirectory.Known?)
                        || HandledIn(after.tables.processes, board, after.generation, k, now) ::
               LooksUp(before, after, k, now)
    ensures KeepsLookingUp(before, after, now)
  {
    hide LookedUp, HandledIn, ProjectQueue.SameOnBoard, FactsStay, BindingsReported, ResultsStay;
    KeptLookingUp(
      before, board, after, MovedAway(before.tables.processes, result),
      if result.workingDirectory.Known? then {result.key} else {}, now);
  }

  /** The first half of a sweep: processes and what the queues keep about them. */
  ghost predicate ProcessesSwept(before: World, after: World, board: ProjectQueue.Board, now: nat) {
    var gone := ExpiredProcesses(before.tables.processes, now);
    var cleared := ExpiredProofs(before.projects.cache - gone, now);
    && after == before.(
         tables := before.tables.(
           processes := after.tables.processes, ports := after.tables.ports, results := after.tables.results,
           facts := after.tables.facts),
         enrichments := after.enrichments, projects := after.projects, sent := after.sent,
         halted := after.halted, flushed := after.flushed)
    && OnlyPortsDiffer(Cleared(before.tables.processes - gone, cleared), after.tables.processes)
    && after.tables.facts == before.tables.facts - gone - cleared
    && after.tables.ports == PortsAfterRemoval(before.tables.ports, gone)
    && OnlyRefreshed(before.tables.results - gone, after.tables.results)
    && QueuesSwept(before, after, board, gone, cleared, now)
  }

  /** The second half: ports and their availability. */
  ghost predicate PortsSwept(before: World, after: World, now: nat) {
    && after == before.(
         tables := before.tables.(
           processes := after.tables.processes, ports := after.tables.ports, results := after.tables.results,
           availability := after.tables.availability),
         availableUntil := after.availableUntil, sent := after.sent, halted := after.halted, flushed := after.flushed)
    && OnlyPortsDiffer(before.tables.processes, after.tables.processes)
    && after.tables.ports == PortsAfterExpiry(before.tables.ports, now)
    && OnlyRefreshed(before.tables.results - ExpiredResults(before.tables.results, now), after.tables.results)
    && (if Due(before.availableUntil, now) then after.tables.availability.Unknown? && after.availableUntil.None?
        else after.tables.availability == before.tables.availability && after.availableUntil == before.availableUntil)
  }

  lemma TablesAreSwept(before: World, between: World, board: ProjectQueue.Board, after: World, now: nat)
    requires FactsKept(before.tables.facts, before.tables.processes)
    requires ProcessesSwept(before, between, board, now) && PortsSwept(between, after, now)
    ensures TablesSwept(before.tables, after.tables, before.projects.cache, now)
  {
    hide OnlyPortsDiffer, PortsAfterRemoval, PortsAfterExpiry, TablesSwept, Cleared, ResultsStay, ExpiredProofs,
      FactsKept,
      QueuesSwept;
    var gone := ExpiredProcesses(before.tables.processes, now);
    var cleared := ExpiredProofs(before.projects.cache - gone, now);
    PortsDifferTwice(
      Cleared(before.tables.processes - gone, cleared), between.tables.processes, after.tables.processes);
    RefreshedTwice(before.tables.results, between.tables.results, after.tables.results, gone, now);
    SweepIsApplied(before.tables, after.tables, before.projects.cache, between.tables.ports, now);
  }

  lemma RefreshedTwice(a: PortResults, b: PortResults, c: PortResults, gone: set<ProcessKey>, now: nat)
    requires OnlyRefreshed(a - gone, b) && OnlyRefreshed(b - ExpiredResults(b, now), c)
    ensures ResultsStay(a, c, set p | p in a && (a[p].expiresAt <= now || p in gone))
  {
  }

  /** What a sweep makes of the queues, between the removal of processes and that of ports. */
  ghost predicate QueuesSwept(
    before: World, after: World, board: ProjectQueue.Board, gone: set<ProcessKey>, cleared: set<ProcessKey>, now: nat)
  {
    && after.enrichments.cache
       == (map k | k in before.enrichments.cache && k !in gone && before.enrichments.cache[k].expiresAt > now
             :: before.enrichments.cache[k])
    && (forall k | k !in gone :: EnrichmentQueue.SameAt(before.enrichments, after.enrichments, k))
    && (forall k | k !in gone + cleared :: ProjectQueue.SameOnBoard(before.projects, board, k))
    && ProjectQueue.ProofsShrink(before.projects.cache, after.projects.cache)
    && (forall k | k in after.projects.cache :: after.projects.cache[k].expiresAt > now)
    && (forall k | k in after.tables.processes
                   && (k in cleared || HandledIn(after.tables.processes, board, after.generation, k, now)) ::
          LooksUp(before, after, k, now))
  }

  lemma QueuesAreSwept(
    before: World, between: EnrichmentQueue.State, board: ProjectQueue.Board, left: ProjectQueue.Board, after: World,
    gone: set<ProcessKey>, cleared: set<ProcessKey>, now: nat)
    requires QueuesForget(before.enrichments, between, before.projects, board, gone, gone)
    requires after.enrichments.cache
             == (map k | k in between.cache && between.cache[k].expiresAt > now :: between.cache[k])
    requires after.enrichments == between.(cache := after.enrichments.cache)
    requires cleared == ExpiredProofs(board.cache, now)
    requires forall k | k !in cleared :: ProjectQueue.SameOnBoard(board, left, k)
    requires left.cache == board.cache - cleared && ProjectQueue.ProofsShrink(left.cache, after.projects.cache)
    requires forall k | k in after.tables.processes
                        && (k in cleared || HandledIn(after.tables.processes, left, after.generation, k, now)) ::
               LooksUp(before, after, k, now)
    ensures QueuesSwept(before, after, left, gone, cleared, now)
  {
    hide HandledIn, LookedUp;
  }

  /** Ports do not matter to lookups, and more updates do no harm. */
  lemma LookedUpThroughout(
    before: World, between: World, after: World, board: ProjectQueue.Board, cleared: set<ProcessKey>, now: nat)
    requires OnlyPortsDiffer(between.tables.processes, after.tables.processes)
    requires after.projects == between.projects && after.generation == between.generation
    requires before.sent <= between.sent <= after.sent && (between.halted ==> after.halted)
    requires forall k | k in between.tables.processes
                        && (k in cleared || HandledIn(between.tables.processes, board, between.generation, k, now)) ::
               LooksUp(before, between, k, now)
    ensures forall k | k in after.tables.processes
                       && (k in cleared || HandledIn(after.tables.processes, board, after.generation, k, now)) ::
              LooksUp(before, after, k, now)
  {
    hide ProjectQueue.Handled, Told;
    forall k | k in after.tables.processes
               && (k in cleared || HandledIn(after.tables.processes, board, after.generation, k, now))
      ensures LooksUp(before, after, k, now)
    {
      assert LooksUp(before, between, k, now);
      if Told(before.sent, between.sent, between.halted, ProjectAssociation(k)) {
        ToldStays(
          before.sent, before.sent, between.sent, after.sent, between.halted, after.halted, ProjectAssociation(k));
      }
    }
  }

  lemma SweepLooksUp(
    before: World, board: ProjectQueue.Board, after: World, gone: set<ProcessKey>, cleared: set<ProcessKey>, now: nat)
    requires after.generation == before.generation && gone == ExpiredProcesses(before.tables.processes, now)
    requires forall k | k !in gone + cleared :: ProjectQueue.SameOnBoard(before.projects, board, k)
    requires forall k :: k in after.tables.processes <==> k in before.tables.processes && k !in gone
    requires forall k | k in after.tables.processes ::
               after.tables.processes[k].record.workingDirectory == before.tables.processes[k].record.workingDirectory
    requires forall k | k in after.tables.processes
                        && (k in cleared || HandledIn(after.tables.processes, board, after.generation, k, now)) ::
               LooksUp(before, after, k, now)
    ensures KeepsLookingUp(before, after, now)
  {
    hide LookedUp, HandledIn, ProjectQueue.SameOnBoard;
    KeptLookingUp(before, board, after, gone + cleared, cleared * after.tables.processes.Keys, now);
  }

  lemma SweptProcesses(before: World, after: World, now: nat)
    requires TablesSwept(before.tables, after.tables, before.projects.cache, now)
    ensures forall k :: k in after.tables.processes
                        <==> k in before.tables.processes && k !in ExpiredProcesses(before.tables.processes, now)
    ensures forall k | k in after.tables.processes ::
              after.tables.processes[k].record.workingDirectory == before.tables.processes[k].record.workingDirectory
  {
    hide BindingsLeave, ResultsStay, NothingProven;
  }

  lemma ExpiredAreCleared(cache: map<ProcessKey, ProjectQueue.Proof>, gone: set<ProcessKey>, now: nat)
    ensures forall k | k in cache && cache[k].expiresAt <= now && k !in gone :: k in ExpiredProofs(cache - gone, now)
  {
  }

  lemma SweptServes(
    before: World, between: World, board: ProjectQueue.Board, after: World, gone: set<ProcessKey>,
    cleared: set<ProcessKey>, now: nat)
    requires QueuesSwept(before, between, board, gone, cleared, now) && after.enrichments == between.enrichments
    requires gone !! after.tables.processes.Keys
    ensures KeepsServing(before, after, now)
  {
    hide LookedUp, HandledIn, ProjectQueue.SameOnBoard, EnrichmentQueue.Served;
    forall k, d | && k in before.tables.processes && k in after.tables.processes
                  && EnrichmentQueue.Served(before.enrichments, k, d, now)
      ensures EnrichmentQueue.Served(after.enrichments, k, d, now)
    {
      StillServed(before.enrichments, after.enrichments, gone, k, d, now);
    }
  }

  lemma StillServed(
    before: EnrichmentQueue.State, after: EnrichmentQueue.State, gone: set<ProcessKey>, key: ProcessKey,
    demand: EnrichmentQueue.Demand, now: nat)
    requires key !in gone && EnrichmentQueue.SameAt(before, after, key)
    requires after.cache
             == (map k | k in before.cache && k !in gone && before.cache[k].expiresAt > now :: before.cache[k])
    requires EnrichmentQueue.Served(before, key, demand, now)
    ensures EnrichmentQueue.Served(after, key, demand, now)
  {
  }

  lemma SweepIsDone(before: World, between: World, board: ProjectQueue.Board, after: World, now: nat)
    requires FactsKept(before.tables.facts, before.tables.processes)
    requires before.enrichments.cache.Keys <= before.tables.processes.Keys
    requires ProcessesSwept(before, between, board, now) && PortsSwept(between, after, now)
    requires before.sent <= between.sent <= after.sent && (between.halted ==> after.halted)
    ensures SweepDone(before, after, now)
  {
    hide HandledIn, LookedUp, KeepsLookingUp, KeepsServing, OnlyPortsDiffer, TablesSwept, ExpiredProofs,
      EnrichmentQueue.SameAt,
      ProjectQueue.SameOnBoard, PortsAfterRemoval, PortsAfterExpiry, OnlyRefreshed, FactsKept;
    var gone := ExpiredProcesses(before.tables.processes, now);
    var cleared := ExpiredProofs(before.projects.cache - gone, now);
    TablesAreSwept(before, between, board, after, now);
    SweptProcesses(before, after, now);
    LookedUpThroughout(before, between, after, board, cleared, now);
    SweepLooksUp(before, board, after, gone, cleared, now);
    SweptServes(before, between, board, after, gone, cleared, now);
    ExpiredAreCleared(before.projects.cache, gone, now);
  }

  /** More updates do no harm. */
  lemma SweepThenFlush(before: World, swept: World, after: World, now: nat)
    requires SweepDone(before, swept, now) && OnlySends(swept, after)
    requires before.sent <= swept.sent <= after.sent && (swept.halted ==> after.halted)
    ensures SweepDone(before, after, now)
  {
    hide TablesSwept, EnrichmentQueue.SameAt, LookedUp;
    forall k | LooksUp(before, swept, k, now) ensures LooksUp(before, after, k, now) {
      LooksUpStays(before, swept, after, k, now);
    }
  }

  lemma LooksUpStays(before: World, between: World, after: World, key: ProcessKey, now: nat)
    requires LooksUp(before, between, key, now) && OnlySends(between, after)
    requires before.sent <= between.sent <= after.sent && (between.halted ==> after.halted)
    ensures LooksUp(before, after, key, now)
  {
    hide ProjectQueue.Handled, Told;
    if Told(before.sent, between.sent, between.halted, ProjectAssociation(key)) {
      ToldStays(
        before.sent, before.sent, between.sent, after.sent, between.halted, after.halted, ProjectAssociation(key));
    }
  }

  lemma SentSince(a: Trail, b: Trail, c: Trail)
    requires Extends(a, b) && Extends(b, c)
    ensures a.sent <= b.sent <= c.sent
  {
  }

  class Actor {
    const config: Config
    const platform: Platform
    const events: Publisher
    const enrichments: EnrichmentQueue.Queue
    const projects: ProjectQueue.Queue
    var processes: Processes
    var ports: Ports
    var portResults: PortResults
    var portAvailability: FieldValue<()>
    var portAvailabilityExpiresAt: Option<nat>
    var catalog: Catalog
    var catalogGeneration: nat
    var engine: Engine
    var facts: FactTable
    var managedBindings: Bindings
    var fastTask: Option<ScanTask>
    var fastPending: bool
    var portTask: Option<ScanTask>
    var portPending: bool
    ghost var clock: nat

    ghost function Now(): Tables
      reads this
    {
      Tables(processes, ports, portResults, portAvailability, engine, facts, managedBindings)
    }

    ghost function Whole(): World
      reads this, events, enrichments, projects
    {
      World(
        Now(), portAvailabilityExpiresAt, catalog, catalogGeneration, fastTask, fastPending, portTask, portPending,
        enrichments.Now(), projects.Now(), events.sent, events.shutdownSignalled, events.pending.IsEmpty())
    }

    /** The publisher has room for what the next handler hands over. */
    ghost predicate EventsReady()
      reads events
    {
      events.Valid() && events.pending.Roomy()
    }

    /** The fold of all published deltas is the state of the scheduler. */
    ghost predicate Mirrored()
      reads this`processes, this`ports, this`portAvailability, events
    {
      && events.target.processes == Records(processes)
      && MirrorsPorts(events.target.ports, ports)
      && events.target.availability == portAvailability
    }

    constructor (config: Config, platform: Platform, sizes: Sizes)
      requires ValidConfig(config)
      ensures this.config == config && this.platform == platform && events.sizes == sizes
      ensures Now() == Tables(map[], map[], map[], Unknown, DEFAULT_ENGINE, map[], map[])
      ensures Valid() && clock == 0
      ensures fresh(events) && fresh(enrichments) && fresh(projects)
    {
      hide Publisher.Valid, EnrichmentQueue.Queue.Valid, ProjectQueue.Queue.Valid, EnrichmentQueue.StateWithin,
        Coherent, ContextMatches, FactsAccepted, Records, MirrorsPorts, ProjectQueue.UpToDate, Directories;
      this.config, this.platform := config, platform;
      events := new Publisher(sizes);
      enrichments := new EnrichmentQueue.Queue(
        config.enrichmentConcurrency, config.enrichmentCapacity, config.enrichmentTtl, config.portTtl);
      projects := new ProjectQueue.Queue(
        Scannable(), config.projectConcurrency, config.projectCapacity, config.projectTtl);
      processes, ports, portResults := map[], map[], map[];
      portAvailability, portAvailabilityExpiresAt := Unknown, None;
      catalog, catalogGeneration := EMPTY_CATALOG, 0;
      engine, facts, managedBindings := DEFAULT_ENGINE, map[], map[];
      fastTask, fastPending, portTask, portPending := None, false, None, false;
      clock := 0;
      new;
      NothingIsCoherent();
      ProjectQueue.IdleIsUpToDate(projects.Now(), Directories(processes), catalogGeneration);
    }

    /** Queued, cached and running work is about the processes and the catalog of now. */
    ghost predicate QueuesReady()
      reads this`processes, this`catalogGeneration, enrichments, projects
    {
      && enrichments.Valid() && enrichments.Within(processes.Keys)
      && enrichments.orderingSequence <= EnrichmentQueue.MAX_ORDERING_SEQUENCE
      && projects.Valid()
      && ProjectQueue.UpToDate(projects.Now(), Directories(processes), catalogGeneration)
    }

    ghost predicate ContextReady()
      reads this`engine, this`catalog, this`catalogGeneration, this`facts
    {
      ContextMatches(engine, catalog, catalogGeneration) && FactsAccepted(engine, facts)
    }

    /** The queues are as large as the configuration says. */
    ghost predicate Configured() {
      && enrichments.concurrency == config.enrichmentConcurrency
        && enrichments.cacheCapacity == config.enrichmentCapacity
      && enrichments.cacheTtl == config.enrichmentTtl && enrichments.portTtl == config.portTtl
      && projects.concurrency == config.projectConcurrency && projects.capacity == config.projectCapacity
      && projects.cacheTtl == config.projectTtl && projects.ok == Scannable()
    }

    /** What is known about ports has a term, and only that. */
    ghost predicate TermReady()
      reads this`portAvailability, this`portAvailabilityExpiresAt
    {
      portAvailabilityExpiresAt.Some? <==> !portAvailability.Unknown?
    }

    ghost predicate Valid()
      reads this, events, enrichments, projects
    {
      && Coherent(Now(), clock) && TermReady()
      && EventsReady() && Mirrored()
      && QueuesReady() && ContextReady() && Configured()
    }

    // ----- Publishing -----

    method PublishProcesses(ghost before: Processes, upserted: seq<ProcessRecord>, removed: seq<ProcessKey>)
      requires EventsReady() && events.target.processes == Records(before)
      requires Changes(before, processes, upserted)
      requires KeysMatch(processes)
      requires forall k :: k in removed <==> k in before && k !in processes
      modifies events
      ensures EventsReady() && events.target == old(events.target).(processes := Records(processes))
      ensures old(events.shutdownSignalled) ==> events.shutdownSignalled
      ensures Extends(old(events.Past()), events.Past())
    {
      hide Publisher.Valid, Publisher.View, EventPublisher.Group.Roomy;
      ProcessDeltaReaches(events.sizes, before, processes, upserted, removed);
      if upserted != [] || removed != [] {
        events.PublishProcessDelta(upserted, removed);
      }
    }

    method PublishPorts(ghost before: Ports, upserted: seq<PortBinding>, removed: seq<PortKey>)
      requires EventsReady() && MirrorsPorts(events.target.ports, before)
      requires WellKeyed(ports) && PortChanges(before, ports, upserted)
      requires forall k :: k in removed <==> k in before && k !in ports
      modifies events
      ensures EventsReady() && events.target == old(events.target).(ports := events.target.ports)
      ensures MirrorsPorts(events.target.ports, ports)
      ensures old(events.shutdownSignalled) ==> events.shutdownSignalled
      ensures Extends(old(events.Past()), events.Past())
    {
      hide Publisher.Valid, Publisher.View, EventPublisher.Group.Roomy;
      PortDeltaReaches(events.sizes, events.target.ports, before, ports, upserted, removed);
      if removed != [] || upserted != [] {
        events.PublishPortDelta(upserted, removed);
      }
    }

    method PublishAvailability()
      requires EventsReady()
      modifies events
      ensures EventsReady() && events.target == old(events.target).(availability := portAvailability)
      ensures old(events.shutdownSignalled) ==> events.shutdownSignalled
      ensures Extends(old(events.Past()), events.Past())
    {
      hide Publisher.Valid, Publisher.View, EventPublisher.Group.Roomy;
      events.AccumulatePortAvailability(portAvailability);
    }

    method PublishFailure(operation: Operation, error: ErrorCode)
      requires EventsReady()
      modifies events
      ensures EventsReady() && events.target == old(events.target)
      ensures old(events.shutdownSignalled) ==> events.shutdownSignalled
      ensures Extends(old(events.Past()), events.Past())
      ensures events.shutdownSignalled
              || (events.sent != [] && events.sent[|events.sent| - 1].change == OperationFailed(operation, error))
      ensures events.shutdownSignalled || |old(events.sent)| < |events.sent|
    {
      hide Publisher.Valid, Publisher.View, EventPublisher.Group.Roomy;
      events.PublishFailure(operation, error);
    }

    // ----- Ports shown by the records -----

    /** Only records whose bindings changed are reclassified; the result is the full recomputation. */
    method PublishProcessPortChanges(now: nat)
      requires EventsReady() && events.target.processes == Records(processes)
      requires RecordsCoherent(engine, facts, managedBindings, processes)
      modifies this`processes, events
      ensures EventsReady() && events.target == old(events.target).(processes := Records(processes))
      ensures RecordsCoherent(engine, facts, managedBindings, processes) && PortsShown(Now(), now)
      ensures processes == Revised(old(processes), old(processes).Keys, PortRevision(old(Now()), now))
      ensures OnlyPortsDiffer(old(processes), processes)
      ensures old(events.shutdownSignalled) ==> events.shutdownSignalled
      ensures Extends(old(events.Past()), events.Past())
    {
      hide EventsReady, Revised, RecordsCoherent, PortsShown, OnlyPortsDiffer, PortShortcut, PortRevision,
        KeysMatch;
      ghost var before := processes;
      var t := Tables(processes, ports, portResults, portAvailability, engine, facts, managedBindings);
      PortPass(t, now);
      var shortcut := PortShortcut(t, now);
      var next, upserted := Revise(processes, processes.Keys, shortcut);
      processes := next;
      PublishProcesses(before, upserted, []);
    }

    /** Rebalance, refresh and publish after a local change to the port table. */
    method SettleAndPublish(
      changed: Ports, endpoints: set<Endpoint>, results: PortResults, extra: set<ProcessKey>, gone: set<ProcessKey>)
      returns (s: Settlement)
      requires EventsReady() && MirrorsPorts(events.target.ports, ports)
      requires WellKeyed(changed) && TouchesOnly(ports, changed, endpoints)
      modifies this`ports, this`portResults, events
      ensures SettledFrom(old(ports), changed, endpoints, results, extra, gone, s)
      ensures ports == s.ports && portResults == s.results && WellKeyed(ports)
      ensures EventsReady() && events.target == old(events.target).(ports := events.target.ports)
      ensures MirrorsPorts(events.target.ports, ports)
      ensures old(events.shutdownSignalled) ==> events.shutdownSignalled
      ensures Extends(old(events.Past()), events.Past())
    {
      hide EventsReady, MirrorsPorts, PortChanges, TouchesOnly, Rebalanced, Refreshed, WellKeyed;
      ghost var before := ports;
      s := Settle(ports, changed, endpoints, results, extra, gone);
      SettledIsBalanced(ports, changed, endpoints);
      ports, portResults := s.ports, s.results;
      PublishPorts(before, s.upserted, s.removed);
    }

    /** Drop the bindings and results of processes that are gone. */
    method RemovePortsForProcesses(gone: set<ProcessKey>, now: nat)
      requires EventsReady() && Mirrored()
      requires RecordsCoherent(engine, facts, managedBindings, processes)
      requires PortsCoherent(ports, portResults) && PortsShown(Now(), now)
      requires gone !! processes.Keys
      modifies this`processes, this`ports, this`portResults, events
      ensures EventsReady() && Mirrored()
      ensures RecordsCoherent(engine, facts, managedBindings, processes)
      ensures PortsCoherent(ports, portResults) && PortsShown(Now(), now)
      ensures OnlyPortsDiffer(old(processes), processes)
      ensures ports == PortsAfterRemoval(old(ports), gone)
      ensures Balanced(old(ports)) ==> Balanced(ports)
      ensures OnlyRefreshed(old(portResults) - gone, portResults)
      ensures old(events.shutdownSignalled) ==> events.shutdownSignalled
      ensures Extends(old(events.Past()), events.Past())
    {
      hide EventsReady, MirrorsPorts, Records, PortsShown, RecordsCoherent, PortsCoherent, Balanced,
        PortsAfterRemoval, OnlyRefreshed, RemovalSettled, EndpointsOwnedBy, OnlyPortsDiffer;
      ghost var t := Now();
      if gone == {} {
        NothingGone(t);
        return;
      }
      var endpoints := EndpointsOwnedBy(ports, gone);
      if endpoints == {} {
        NothingToRemove(t, gone, now);
        portResults := portResults - gone;
        return;
      }
      var s := DropOwned(gone, endpoints);
      RemovalIsCoherent(t, gone, s);
      if s.affected == {} {
        RemovalStaysShown(t, gone, s, now);
        NothingGone(t);
      } else {
        PublishProcessPortChanges(now);
      }
    }

    method DropOwned(gone: set<ProcessKey>, endpoints: set<Endpoint>) returns (s: Settlement)
      requires EventsReady() && Mirrored() && PortsCoherent(ports, portResults)
      requires endpoints == EndpointsOwnedBy(ports, gone)
      modifies this`ports, this`portResults, events
      ensures RemovalSettled(old(Now()), gone, s) && ports == s.ports && portResults == s.results
      ensures EventsReady() && Mirrored()
      ensures old(events.shutdownSignalled) ==> events.shutdownSignalled
      ensures Extends(old(events.Past()), events.Past())
    {
      hide EventsReady, MirrorsPorts, SettledFrom, Records;
      WithoutOwnersTouches(ports, gone);
      var changed := WithoutOwners(ports, gone);
      s := SettleAndPublish(changed, endpoints, portResults - gone, {}, gone);
    }

    // ----- Queueing work -----

    method QueueEnrichment(key: ProcessKey, priority: EnrichmentQueue.Priority, demand: EnrichmentQueue.Demand,
      now: nat)
      returns (status: Result<EnrichmentQueue.Status>)
      requires QueuesReady()
      modifies enrichments
      ensures QueuesReady()
      ensures status.Err? <==> key !in processes
      ensures status.Err? ==> status.error == NotFound
      ensures key in processes && !EnrichmentQueue.Fresh(old(enrichments.cache), key, demand, now) ==>
                || (key in enrichments.pending && enrichments.pending[key].demand.Covers(demand))
                || (key in enrichments.running && enrichments.running[key].desired.Covers(demand))
      ensures key in processes ==>
                (if EnrichmentQueue.Fresh(old(enrichments.cache), key, demand, now)
                 then enrichments.Now() == old(enrichments.Now())
                 else EnrichmentQueue.MergedOrQueued(old(enrichments.Now()), enrichments.Now(), key, priority, demand))
      ensures key !in processes ==> enrichments.Now() == old(enrichments.Now())
      ensures forall k, d | k in processes && EnrichmentQueue.Served(old(enrichments.Now()), k, d, now) ::
                EnrichmentQueue.Served(enrichments.Now(), k, d, now)
      ensures forall untouched |
                key in processes && EnrichmentQueue.Avoids(old(enrichments.Now()), untouched + {key}) ::
                FirstRequested(
                  processes.Keys, old(enrichments.Now()), enrichments.Now(), key, priority, demand, untouched)
    {
      hide EnrichmentQueue.Filled, EnrichmentQueue.StateWithin, ProjectQueue.UpToDate, ProjectQueue.SteadyBoard,
        EnrichmentQueue.Requested, EnrichmentQueue.Asked, EnrichmentQueue.Avoids, EnrichmentQueue.Outcome,
        EnrichmentQueue.MergedOrQueued, EnrichmentQueue.Served;
      ghost var before, sequence := enrichments.Now(), enrichments.orderingSequence;
      status := enrichments.Request(processes.Keys, key, priority, demand, now);
      EnrichmentQueue.RequestStaysWithin(
        before, enrichments.Now(), processes.Keys, key, priority, demand, sequence, now, status);
      forall untouched | key in processes && EnrichmentQueue.Avoids(before, untouched + {key})
        ensures FirstRequested(processes.Keys, before, enrichments.Now(), key, priority, demand, untouched)
      {
        EnrichmentQueue.RequestKeepsAsked(
          before, enrichments.Now(), processes.Keys, key, priority, demand, sequence, now, status, untouched);
      }
      EnrichmentQueue.RequestKeepsServed(
        before, enrichments.Now(), processes.Keys, key, priority, demand, sequence, now, status);
      EnrichmentQueue.RequestIsRecorded(
        before, enrichments.Now(), processes.Keys, key, priority, demand, sequence, now, status);
      EnrichmentQueue.OutcomeIsError(before, processes.Keys, key, priority, demand, now);
    }

    /**
     Afterwards the project is proven, being looked up or about to be, or a failure was published: for a
     request that was refused as for an entry that cannot be scanned.
     */
    method QueueProjectScanBackground(key: ProcessKey, priority: EnrichmentQueue.Priority, now: nat)
      returns (ghost failures: set<ProcessKey>)
      requires QueuesReady() && EventsReady()
      modifies projects, events
      ensures QueuesReady() && EventsReady() && events.target == old(events.target)
      ensures ProjectQueue.ProofsShrink(old(projects.cache), projects.cache)
      ensures old(events.shutdownSignalled) ==> events.shutdownSignalled
      ensures Extends(old(events.Past()), events.Past())
      ensures LookedUp(
                processes, projects.Now(), catalogGeneration, old(events.sent), events.sent, events.shutdownSignalled,
                key, now)
      ensures ProjectQueue.KeepsHandled(
                old(projects.Now()), projects.Now(), Directories(processes), catalogGeneration, failures, now, {key})
      ensures forall k | k in failures ::
                Told(old(events.sent), events.sent, events.shutdownSignalled, ProjectAssociation(k))
    {
      hide EventsReady, ProjectQueue.UpToDate, EnrichmentQueue.Queue.Valid, ProjectQueue.SteadyBoard,
        ProjectQueue.KeepsHandled, ProjectQueue.Handled, ProjectQueue.MatchRaised, Told;
      var directories := Directories(processes);
      var status, failed := projects.Request(directories, catalogGeneration, key, priority, now);
      PublishScanFailures(failed);
      failures := failed;
      TellRefusal(key, status, old(events.sent), failed);
    }

    method TellRefusal(
      key: ProcessKey, status: Result<EnrichmentQueue.Status>, ghost earlier: seq<Update>,
        ghost failed: set<ProcessKey>)
      requires EventsReady() && earlier <= events.sent
      requires forall k | k in failed :: Told(earlier, events.sent, events.shutdownSignalled, ProjectAssociation(k))
      modifies events
      ensures EventsReady() && events.target == old(events.target)
      ensures old(events.shutdownSignalled) ==> events.shutdownSignalled
      ensures Extends(old(events.Past()), events.Past())
      ensures forall k | k in failed :: Told(earlier, events.sent, events.shutdownSignalled, ProjectAssociation(k))
      ensures status.Err? ==> Told(earlier, events.sent, events.shutdownSignalled, ProjectAssociation(key))
    {
      hide EventsReady, Told;
      if status.Err? {
        ghost var sent, halted := events.sent, events.shutdownSignalled;
        PublishFailure(ProjectAssociation(key), status.error);
        ToldLast(earlier, events.sent, events.shutdownSignalled, ProjectAssociation(key), status.error);
        forall k | k in failed ensures Told(earlier, events.sent, events.shutdownSignalled, ProjectAssociation(k)) {
          ToldStays(
            earlier, earlier, sent, events.sent, halted, events.shutdownSignalled, ProjectAssociation(k));
        }
      }
    }

    method PublishScanFailures(failed: set<ProcessKey>)
      requires EventsReady()
      modifies events
      ensures EventsReady() && events.target == old(events.target)
      ensures old(events.shutdownSignalled) ==> events.shutdownSignalled
      ensures Extends(old(events.Past()), events.Past())
      ensures failed == {} ==>
                && events.sent == old(events.sent) && events.shutdownSignalled == old(events.shutdownSignalled)
                && events.pending == old(events.pending)
      ensures forall k | k in failed ::
                Told(old(events.sent), events.sent, events.shutdownSignalled, ProjectAssociation(k))
    {
      hide EventsReady, Told;
      var todo := failed;
      while todo != {}
        invariant EventsReady() && events.target == old(events.target)
        invariant old(events.shutdownSignalled) ==> events.shutdownSignalled
        invariant Extends(old(events.Past()), events.Past())
        invariant failed == {} ==>
                    && events.sent == old(events.sent) && events.shutdownSignalled == old(events.shutdownSignalled)
                    && events.pending == old(events.pending)
        invariant todo <= failed
        invariant forall k | k in failed && k !in todo ::
                    Told(old(events.sent), events.sent, events.shutdownSignalled, ProjectAssociation(k))
        decreases |todo|
      {
        var key :| key in todo;
        ghost var sent, halted := events.sent, events.shutdownSignalled;
        PublishFailure(ProjectAssociation(key), InvalidArgument);
        ToldLast(
          old(events.sent), events.sent, events.shutdownSignalled, ProjectAssociation(key), InvalidArgument);
        forall k | k in failed && k !in todo
          ensures Told(old(events.sent), events.sent, events.shutdownSignalled, ProjectAssociation(k))
        {
          ToldStays(
            old(events.sent), old(events.sent), sent, events.sent, halted, events.shutdownSignalled,
            ProjectAssociation(k));
        }
        todo := todo - {key};
      }
    }

    // ----- Port scans -----

    /** The table becomes exactly the scan; what single processes reported is forgotten. */
    method ReplacePorts(bindings: seq<PortBinding>, expiresAt: nat) returns (error: Option<ErrorCode>)
      requires EventsReady() && Mirrored() && PortsCoherent(ports, portResults)
      modifies this`ports, this`portResults, events
      ensures EventsReady() && Mirrored() && PortsCoherent(ports, portResults)
      ensures error.Some? <==> |bindings| > config.portCapacity || !AcceptedBindings(OwnerCheck(), bindings)
      ensures error.Some? ==> error.value == PlatformError && ports == old(ports) && portResults == old(portResults)
      ensures error.Some? ==>
                && events.sent == old(events.sent) && events.shutdownSignalled == old(events.shutdownSignalled)
                && events.pending == old(events.pending)
      ensures error.None? ==> ScannedTable(old(ports), bindings, expiresAt, ports) && portResults == map[]
      ensures old(events.shutdownSignalled) ==> events.shutdownSignalled
      ensures Extends(old(events.Past()), events.Past())
    {
      hide EventsReady, MirrorsPorts, PortChanges, Records, ScannedTable, AcceptedBindings, WellKeyed;
      if |bindings| > config.portCapacity {
        return Some(PlatformError);
      }
      var next, upserted := CollectPortScan(OwnerCheck(), ports, bindings, expiresAt);
      if next.Err? {
        return Some(PlatformError);
      }
      ScannedTableIsKeyed(ports, bindings, expiresAt, next.value);
      NoResultsAreCoherent(next.value);
      ghost var before := ports;
      var removed := KeysGone(ports.Keys, next.value.Keys);
      portResults := map[];
      ports := next.value;
      PublishPorts(before, upserted, removed);
      error := None;
    }

    method ApplyPortScan(bindings: FieldValue<seq<PortBinding>>, now: nat) returns (error: Option<ErrorCode>)
      requires Valid() && clock <= now
      modifies this`processes, this`ports, this`portResults, this`portAvailability, this`portAvailabilityExpiresAt,
        this`clock, events
      ensures Valid() && clock == now
      ensures error == if AcceptedPortScan(bindings, config.portCapacity) then None else Some(PlatformError)
      ensures error.Some? ==> Whole() == old(Whole())
      ensures error.None? ==> PortScanTaken(old(Whole()), Whole(), bindings, now + config.portTtl)
      ensures old(events.shutdownSignalled) ==> events.shutdownSignalled
      ensures Extends(old(events.Past()), events.Past())
    {
      hide Coherent, EventsReady, Mirrored, QueuesReady, ContextReady, OnlyPortsDiffer, ScannedTable, AvailabilityOf,
        AcceptedBindings, PortsScanned;
      AdvanceClock(now);
      ghost var before := Now();
      error := TakePortScan(bindings, now);
      if error.None? {
        PortScanIsApplied(before, Now(), bindings, now + config.portTtl);
      }
    }

    method TakePortScan(bindings: FieldValue<seq<PortBinding>>, now: nat) returns (error: Option<ErrorCode>)
      requires Valid() && clock == now
      modifies this`processes, this`ports, this`portResults, this`portAvailability, this`portAvailabilityExpiresAt,
        events
      ensures Valid()
      ensures error == if AcceptedPortScan(bindings, config.portCapacity) then None else Some(PlatformError)
      ensures error.Some? ==> Now() == old(Now()) && events.sent == old(events.sent)
                              && portAvailabilityExpiresAt == old(portAvailabilityExpiresAt)
                              && events.shutdownSignalled == old(events.shutdownSignalled)
                              && events.pending == old(events.pending)
      ensures error.None? ==>
                && portAvailability == AvailabilityOf(bindings)
                && portAvailabilityExpiresAt == (if bindings.Unknown? then None else Some(now + config.portTtl))
                && OnlyPortsDiffer(old(processes), processes)
      ensures error.None? && bindings.Known? ==>
                ScannedTable(old(ports), bindings.value, now + config.portTtl, ports) && portResults == map[]
      ensures error.None? && !bindings.Known? ==> ports == old(ports) && portResults == old(portResults)
      ensures old(events.shutdownSignalled) ==> events.shutdownSignalled
      ensures Extends(old(events.Past()), events.Past())
    {
      hide EventsReady, Mirrored, PortsShown, RecordsCoherent, OnlyPortsDiffer, ScannedTable,
        EnrichmentQueue.Queue.Valid, ProjectQueue.Queue.Valid, ProjectQueue.UpToDate, EnrichmentQueue.StateWithin,
        FactsKept, ContextReady, AvailabilityOf, Directories, PortsCoherent, AcceptedBindings;
      if bindings.Known? {
        error := ReplacePorts(bindings.value, now + config.portTtl);
        if error.Some? {
          return;
        }
      }
      SetAvailability(
        AvailabilityOf(bindings), if bindings.Unknown? then None else Some(now + config.portTtl), now);
      OnlyPortsDifferKeeps(facts, old(processes), processes);
      error := None;
    }

    /** Records are brought up to date before the new availability is announced. */
    method SetAvailability(availability: FieldValue<()>, expiresAt: Option<nat>, now: nat)
      requires EventsReady() && Mirrored() && RecordsCoherent(engine, facts, managedBindings, processes)
      modifies this`processes, this`portAvailability, this`portAvailabilityExpiresAt, events
      ensures EventsReady() && Mirrored()
      ensures RecordsCoherent(engine, facts, managedBindings, processes) && PortsShown(Now(), now)
      ensures portAvailability == availability && portAvailabilityExpiresAt == expiresAt
      ensures OnlyPortsDiffer(old(processes), processes)
      ensures old(events.shutdownSignalled) ==> events.shutdownSignalled
      ensures Extends(old(events.Past()), events.Past())
    {
      hide EventsReady, MirrorsPorts, Records, PortsShown, RecordsCoherent, OnlyPortsDiffer;
      var previous := portAvailability;
      portAvailability, portAvailabilityExpiresAt := availability, expiresAt;
      PublishProcessPortChanges(now);
      if previous != portAvailability {
        PublishAvailability();
      }
    }

    // ----- Enrichment -----

    method ClaimPorts(owner: ProcessKey, value: FieldValue<seq<PortBinding>>, now: nat) returns (s: Settlement)
      requires EventsReady() && Mirrored() && PortsCoherent(ports, portResults)
      requires forall i | 0 <= i < |Reported(value)| :: Reported(value)[i].owner == Some(owner)
      modifies this`ports, this`portResults, events
      ensures ClaimSettled(old(Now()), owner, value, now + config.portTtl, s)
      ensures ports == s.ports && portResults == s.results
      ensures EventsReady() && Mirrored()
      ensures old(events.shutdownSignalled) ==> events.shutdownSignalled
      ensures Extends(old(events.Past()), events.Past())
    {
      hide EventsReady, MirrorsPorts, SettledFrom, Records;
      var bindings, expiresAt := Reported(value), now + config.portTtl;
      ClaimReplacesOwned(ports, owner, bindings, expiresAt);
      var endpoints := ClaimEndpoints(ports, owner, bindings);
      var changed := ClaimBindings(WithoutOwners(ports, {owner}), bindings, expiresAt);
      s := SettleAndPublish(changed, endpoints, portResults[owner := PortResult(value, expiresAt)], {owner}, {});
    }

    /** Running scans of these processes are cancelled, and their entries and proofs dropped. */
    method ForgetProjects(keys: set<ProcessKey>)
      requires projects.Valid() && ProjectQueue.UpToDate(projects.Now(), Directories(processes), catalogGeneration)
      modifies projects
      ensures projects.Valid() && ProjectQueue.Avoids(projects.Now(), keys)
      ensures ProjectQueue.UpToDate(projects.Now(), Directories(processes), catalogGeneration)
      ensures projects.cache == old(projects.cache) - keys
      ensures forall k | k !in keys :: ProjectQueue.SameOnBoard(old(projects.Now()), projects.Now(), k)
    {
      hide ProjectQueue.UpToDate, ProjectQueue.Queue.Valid, ProjectQueue.Avoids, ProjectQueue.SameOnBoard, Directories;
      ProjectQueue.NothingToAvoid(projects.Now());
      var todo := keys;
      ghost var done: set<ProcessKey> := {};
      while todo != {}
        invariant projects.Valid() && ProjectQueue.Avoids(projects.Now(), done) && done + todo == keys
        invariant ProjectQueue.UpToDate(projects.Now(), Directories(processes), catalogGeneration)
        invariant projects.cache == old(projects.cache) - done
        invariant forall k | k !in done :: ProjectQueue.SameOnBoard(old(projects.Now()), projects.Now(), k)
        decreases |todo|
      {
        var key :| key in todo;
        ghost var board := projects.Now();
        ForgetProject(key, done);
        ProjectQueue.MinusTwice(old(projects.cache), done, key);
        ProjectQueue.SameOnBoardTwice(old(projects.Now()), board, projects.Now(), done, key);
        todo, done := todo - {key}, done + {key};
      }
      assert done == keys;
    }

    method ForgetProject(key: ProcessKey, ghost done: set<ProcessKey>)
      requires projects.Valid() && ProjectQueue.Avoids(projects.Now(), done)
      requires ProjectQueue.UpToDate(projects.Now(), Directories(processes), catalogGeneration)
      modifies projects
      ensures projects.Valid() && ProjectQueue.Avoids(projects.Now(), done + {key})
      ensures ProjectQueue.UpToDate(projects.Now(), Directories(processes), catalogGeneration)
      ensures projects.cache == old(projects.cache) - {key}
      ensures forall k | k != key :: ProjectQueue.SameOnBoard(old(projects.Now()), projects.Now(), k)
    {
      hide ProjectQueue.UpToDate, ProjectQueue.SteadyBoard, ProjectQueue.Avoids, Directories;
      ghost var before := projects.Now();
      var found := projects.Cancel(key);
      projects.ForgetProof(key);
      ProjectQueue.ForgettingAvoids(before, projects.Now(), key, done);
    }

    method CheckEnrichment(requested: ProcessKey, result: Enriched) returns (error: Option<ErrorCode>)
      ensures error.None? <==>
                ValidInstanceKey(result.key) && result.key == requested && AcceptedReport(result, config.portCapacity)
      ensures error.Some? ==> ReportRefused(requested, result, config.portCapacity, error.value)
    {
      hide ValidInstanceKey, PortsRefused;
      if !ValidInstanceKey(result.key) || result.key != requested {
        return Some(IdentityMismatch);
      }
      error := None;
      if result.portBindings.Some? && result.portBindings.value.Known? {
        error := ValidateEnrichmentPorts(result.key, result.portBindings.value.value, config.portCapacity);
      }
    }

    method ReportPorts(result: Enriched, now: nat) returns (affected: set<ProcessKey>)
      requires EventsReady() && Mirrored() && PortsCoherent(ports, portResults) && PortsShown(Now(), now)
      requires AcceptedReport(result, config.portCapacity)
      modifies this`ports, this`portResults, events
      ensures EventsReady() && Mirrored() && PortsCoherent(ports, portResults) && result.key in affected
      ensures portResults.Keys <= old(portResults).Keys + {result.key}
      ensures forall p | p in processes && p !in affected ::
                ShowsPorts(processes[p].record.portBindings, p, portAvailability, ports, portResults, now)
      ensures result.portBindings.None? ==> ports == old(ports) && portResults == old(portResults)
      ensures result.portBindings.Some? ==>
                && ports == PortsAfterClaim(
                     old(ports), result.key, Reported(result.portBindings.value), now + config.portTtl)
                && OnlyRefreshed(
                     old(portResults)[result.key := PortResult(result.portBindings.value, now + config.portTtl)],
                     portResults)
      ensures Balanced(old(ports)) ==> Balanced(ports)
      ensures old(events.shutdownSignalled) ==> events.shutdownSignalled
      ensures Extends(old(events.Past()), events.Past())
    {
      hide EventsReady, MirrorsPorts, Records, PortsCoherent, Balanced, PortsAfterClaim, ClaimSettled,
        OwnedKeys, KeysOfBindings, ShowsPorts, OnlyRefreshed;
      affected := {result.key};
      if result.portBindings.Some? {
        ghost var t := Now();
        var value := result.portBindings.value;
        AcceptedAreOwned(result.key, Reported(value));
        var s := ClaimPorts(result.key, value, now);
        ClaimIsCoherent(t, result.key, value, now + config.portTtl, s);
        ClaimRefreshes(t, result.key, value, now + config.portTtl, s);
        ClaimStaysShown(t, result.key, value, now + config.portTtl, s, now);
        affected := s.affected;
      }
    }

    /** Every affected record is recomputed and classified again. */
    method ReviseEnriched(ghost known: FactTable, result: Enriched, affected: set<ProcessKey>, now: nat)
      requires EventsReady() && Mirrored()
      requires RecordsCoherent(engine, known, managedBindings, processes) && FactsKept(known, processes)
      requires facts == FactsAfterEnrichment(known, processes, result)
      requires result.key in processes && result.key in affected
      requires forall p | p in processes && p !in affected ::
                 ShowsPorts(processes[p].record.portBindings, p, portAvailability, ports, portResults, now)
      modifies this`processes, events
      ensures EventsReady() && Mirrored()
      ensures RecordsCoherent(engine, facts, managedBindings, processes) && FactsKept(facts, processes)
      ensures PortsShown(Now(), now)
      ensures OnlyPortsDiffer(EnrichedTable(old(processes), result), processes)
      ensures old(events.shutdownSignalled) ==> events.shutdownSignalled
      ensures Extends(old(events.Past()), events.Past())
    {
      hide EventsReady, MirrorsPorts, Records, PortsShown, ShowsPorts, RecordsCoherent, FactsKept, Revised,
        OnlyPortsDiffer, EnrichmentRevision, EnrichedTable, FactsAfterEnrichment, KeysMatch;
      ghost var before := processes;
      var t := Tables(processes, ports, portResults, portAvailability, engine, facts, managedBindings);
      EnrichmentPass(t, known, result, affected, now);
      var next, upserted := Revise(processes, affected, EnrichmentRevision(t, result, now));
      processes := next;
      PublishProcesses(before, upserted, []);
    }

    /** Facts and scans of a process that left its directory are dropped before it is recomputed. */
    method ForgetIfMoved(result: Enriched)
      requires projects.Valid() && ProjectQueue.UpToDate(projects.Now(), Directories(processes), catalogGeneration)
      modifies this`facts, projects
      ensures facts == FactsAfterEnrichment(old(facts), processes, result)
      ensures projects.Valid()
      ensures ProjectQueue.UpToDate(projects.Now(), Directories(processes), catalogGeneration)
      ensures ProjectQueue.Avoids(projects.Now(), MovedAway(processes, result))
      ensures forall k | k !in MovedAway(processes, result) ::
                ProjectQueue.SameOnBoard(old(projects.Now()), projects.Now(), k)
    {
      hide ProjectQueue.UpToDate, ProjectQueue.SteadyBoard, Directories;
      if MovedBy(processes, result) {
        ForgetProjects({result.key});
        facts := facts - {result.key};
      }
    }

    /** An accepted result for a process that is still there. */
    method TakeEnrichment(result: Enriched, now: nat)
      requires EventsReady() && Mirrored() && QueuesReady() && ContextReady()
      requires Coherent(Now(), now) && result.key in processes && AcceptedReport(result, config.portCapacity)
      modifies this`processes, this`ports, this`portResults, this`facts, events, projects
      ensures EventsReady() && Mirrored() && QueuesReady() && ContextReady() && Coherent(Now(), now)
      ensures processes.Keys == old(processes).Keys
      ensures ProcessEnriched(old(Now()), Now(), result, now + config.portTtl)
      ensures forall k | k !in MovedAway(old(processes), result) ::
                ProjectQueue.SameOnBoard(old(projects.Now()), projects.Now(), k)
      ensures Balanced(old(ports)) ==> Balanced(ports)
      ensures old(events.shutdownSignalled) ==> events.shutdownSignalled
      ensures Extends(old(events.Past()), events.Past())
    {
      hide EventsReady, Mirrored, PortsShown, ShowsPorts, RecordsCoherent, FactsKept,
        OnlyPortsDiffer, EnrichedTable, FactsAfterEnrichment, PortsCoherent, Balanced, PortsAfterClaim, OwnedKeys,
        KeysOfBindings, AcceptedReport, ContextMatches, FactsAccepted, Directories, MovedBy, ProjectQueue.UpToDate,
        ProjectQueue.Avoids, EnrichmentQueue.Queue.Valid, ProjectQueue.Queue.Valid, EnrichmentQueue.StateWithin,
        OnlyRefreshed, ProcessEnriched;
      ghost var t, before, known, generation := Now(), processes, facts, catalogGeneration;
      var affected := ReportPorts(result, now);
      ForgetIfMoved(result);
      ghost var board := projects.Now();
      ReviseEnriched(known, result, affected, now);
      EnrichedDirectories(before, processes, result);
      FewerEnrichmentFacts(engine, known, before, result);
      ProjectQueue.AvoidedMayChange(
        board, MovedAway(before, result), Directories(before), Directories(processes), generation);
      EnrichmentIsApplied(t, Now(), result, config.portCapacity, now + config.portTtl);
    }

    method InsertEnrichmentCache(key: ProcessKey, demand: EnrichmentQueue.Demand, now: nat)
      requires QueuesReady() && key in processes
      modifies enrichments`cache
      ensures QueuesReady()
      ensures EnrichmentQueue.InsertedInto(
                old(enrichments.cache), enrichments.cache, enrichments.cacheCapacity, key,
                EnrichmentQueue.CacheEntry(
                  now + (if demand.MetadataAndPorts? && enrichments.portTtl < enrichments.cacheTtl
                         then enrichments.portTtl else enrichments.cacheTtl), demand))
    {
      hide EnrichmentQueue.SteadyState, EnrichmentQueue.Eligible, EnrichmentQueue.StateWithin, ProjectQueue.Queue.Valid,
        ProjectQueue.UpToDate, Directories;
      EnrichmentQueue.CachingStaysWithin(enrichments.Now(), processes.Keys, key);
      enrichments.InsertCache(key, demand, now);
    }

    /**
     The result of an enrichment task: checked, dropped if the process is gone, refused if the port
     cache is full, and otherwise taken over into the record, the port table and the records it affects.
     */
    method ApplyEnrichment(
      requested: ProcessKey, demand: EnrichmentQueue.Demand, priority: EnrichmentQueue.Priority, result: Enriched,
      now: nat)
      returns (error: Option<ErrorCode>)
      requires Valid() && clock <= now
      modifies this`processes, this`ports, this`portResults, this`facts, this`clock, events, enrichments`cache, projects
      ensures Valid() && clock == now
      ensures error.None? <==>
                && ValidInstanceKey(result.key) && result.key == requested
                  && AcceptedReport(result, config.portCapacity)
                && (requested in old(processes) ==> ReportFits(old(ports), result, config.portCapacity))
      ensures error.Some? ==>
                if ValidInstanceKey(result.key) && result.key == requested
                  && AcceptedReport(result, config.portCapacity)
                then error.value == PlatformError
                else ReportRefused(requested, result, config.portCapacity, error.value)
      ensures error.Some? || requested !in old(processes) ==> Whole() == old(Whole())
      ensures error.None? && requested in old(processes) ==>
                EnrichmentApplied(config, old(Whole()), Whole(), requested, demand, result, now)
      ensures Balanced(old(ports)) ==> Balanced(ports)
      ensures old(events.shutdownSignalled) ==> events.shutdownSignalled
      ensures Extends(old(events.Past()), events.Past())
    {
      hide Coherent, EventsReady, Mirrored, QueuesReady, ContextReady, EnrichmentApplied, Balanced, AcceptedReport,
        ReportFits, ValidInstanceKey, ReportRefused, Extends;
      AdvanceClock(now);
      SamePast(events.Past());
      error := CheckEnrichment(requested, result);
      if error.Some? || requested !in processes {
        return;
      }
      if !ReportFits(ports, result, config.portCapacity) {
        return Some(PlatformError);
      }
      TakeAccepted(demand, priority, result, now);
    }

    /** Take over a result, keep it for a while, and look up the project of its directory. */
    method TakeAccepted(
      demand: EnrichmentQueue.Demand, priority: EnrichmentQueue.Priority, result: Enriched, now: nat)
      requires Valid() && clock == now && result.key in processes && AcceptedReport(result, config.portCapacity)
      modifies this`processes, this`ports, this`portResults, this`facts, events, enrichments`cache, projects
      ensures Valid()
      ensures EnrichmentApplied(config, old(Whole()), Whole(), result.key, demand, result, now)
      ensures Balanced(old(ports)) ==> Balanced(ports)
      ensures old(events.shutdownSignalled) ==> events.shutdownSignalled
      ensures Extends(old(events.Past()), events.Past())
    {
      hide EventsReady, MirrorsPorts, Records, Coherent, ProcessEnriched, Balanced, LookedUp, HandledIn, KeepsLookingUp,
        EnrichmentQueue.InsertedInto, AcceptedReport, ContextReady, QueuesReady, ProjectQueue.SameOnBoard, MovedAway,
        Extends;
      ghost var before := Whole();
      TakeEnrichment(result, now);
      InsertEnrichmentCache(result.key, demand, now);
      ghost var taken := Whole();
      LookUpIfKnown(result, priority, old(events.Past()), now);
      EnrichedLooksUp(before, taken.projects, Whole(), result, now + config.portTtl, now);
    }

    /** The project is looked up if the directory is known. */
    method LookUpIfKnown(
      result: Enriched, priority: EnrichmentQueue.Priority, ghost earlier: Trail, now: nat)
      requires QueuesReady() && EventsReady() && Extends(earlier, events.Past())
      modifies projects, events
      ensures QueuesReady() && EventsReady() && events.target == old(events.target)
      ensures old(events.shutdownSignalled) ==> events.shutdownSignalled
      ensures Extends(earlier, events.Past())
      ensures forall k | (k == result.key && result.workingDirectory.Known?)
                         || HandledIn(processes, old(projects.Now()), catalogGeneration, k, now) ::
                LookedUp(
                  processes, projects.Now(), catalogGeneration, earlier.sent, events.sent, events.shutdownSignalled, k,
                  now)
    {
      hide EventsReady, QueuesReady, LookedUp, HandledIn, Extends;
      if result.workingDirectory.Known? {
        LookUpProject(result.key, priority, earlier, now);
      } else {
        ghost var handled := set k | k in processes && HandledIn(processes, projects.Now(), catalogGeneration, k, now);
        HandledAreLookedUp(
          processes, projects.Now(), catalogGeneration, events.sent, events.shutdownSignalled, handled, now);
        SentSince(earlier, earlier, events.Past());
        LookedUpSinceEarlier(
          processes, projects.Now(), catalogGeneration, earlier.sent, events.sent, events.sent,
          events.shutdownSignalled, handled, now);
      }
    }

    method LookUpProject(key: ProcessKey, priority: EnrichmentQueue.Priority, ghost earlier: Trail, now: nat)
      requires QueuesReady() && EventsReady() && Extends(earlier, events.Past())
      modifies projects, events
      ensures QueuesReady() && EventsReady() && events.target == old(events.target)
      ensures old(events.shutdownSignalled) ==> events.shutdownSignalled
      ensures Extends(earlier, events.Past())
      ensures LookedUp(
                processes, projects.Now(), catalogGeneration, earlier.sent, events.sent, events.shutdownSignalled, key,
                now)
      ensures forall k | HandledIn(processes, old(projects.Now()), catalogGeneration, k, now) ::
                LookedUp(
                  processes, projects.Now(), catalogGeneration, earlier.sent, events.sent, events.shutdownSignalled, k,
                  now)
    {
      hide EventsReady, QueuesReady, LookedUp, Told, HandledIn, ProjectQueue.KeepsHandled, Directories, Extends;
      ghost var past, board := events.Past(), projects.Now();
      ghost var handled := set k | k in processes && HandledIn(processes, board, catalogGeneration, k, now);
      HandledAreLookedUp(processes, board, catalogGeneration, past.sent, events.shutdownSignalled, handled, now);
      ghost var halted := events.shutdownSignalled;
      ghost var failures := QueueProjectScanBackground(key, priority, now);
      ExtendsTwice(earlier, past, events.Past());
      SentSince(earlier, past, events.Past());
      forall k | k in handled && k != key
        ensures LookedUp(
                  processes, projects.Now(), catalogGeneration, past.sent, events.sent, events.shutdownSignalled, k,
                    now)
      {
        LookedUpStays(
          processes, board, projects.Now(), catalogGeneration, past.sent, past.sent, events.sent, halted,
          events.shutdownSignalled, failures, {key}, k, now);
      }
      LookedUpSinceEarlier(
        processes, projects.Now(), catalogGeneration, earlier.sent, past.sent, events.sent, events.shutdownSignalled,
        handled + {key}, now);
    }

    // ----- Projects, rules and ownership -----

    /** Recompute some records and publish those that changed. */
    method RevisePublish(keys: set<ProcessKey>, revise: ProcessRecord -> ProcessRecord, now: nat)
      requires EventsReady() && Mirrored() && PortsShown(Now(), now)
      requires MakesCoherent(engine, facts, managedBindings, processes, keys, revise)
      requires LeavesPortsAlone(processes, revise)
      modifies this`processes, events
      ensures EventsReady() && Mirrored() && PortsShown(Now(), now)
      ensures RecordsCoherent(engine, facts, managedBindings, processes)
      ensures processes == Revised(old(processes), keys, revise)
      ensures processes.Keys == old(processes).Keys && Directories(processes) == Directories(old(processes))
      ensures old(events.shutdownSignalled) ==> events.shutdownSignalled
      ensures Extends(old(events.Past()), events.Past())
    {
      hide EventsReady, MirrorsPorts, Records, PortsShown, RecordsCoherent, Revised, MakesCoherent,
        LeavesPortsAlone, KeysMatch, Directories;
      ghost var before := processes;
      PassKeepsPortsShown(Now(), keys, revise, now);
      PassIsCoherent(engine, facts, managedBindings, processes, keys, revise);
      var next, upserted := Revise(processes, keys, revise);
      processes := next;
      PublishProcesses(before, upserted, []);
    }

    /** What was proven about some processes is forgotten; without facts they are classified again. */
    method ClearProjectEvidence(keys: set<ProcessKey>, now: nat)
      requires EventsReady() && Mirrored() && Coherent(Now(), now)
      modifies this`processes, this`facts, events
      ensures EventsReady() && Mirrored() && Coherent(Now(), now)
      ensures processes == Revised(old(processes), keys, ClearRevision(engine)) && facts == old(facts) - keys
      ensures processes.Keys == old(processes).Keys && Directories(processes) == Directories(old(processes))
      ensures old(events.shutdownSignalled) ==> events.shutdownSignalled
      ensures Extends(old(events.Past()), events.Past())
    {
      hide EventsReady, MirrorsPorts, Records, PortsShown, RecordsCoherent, Revised, MakesCoherent,
        LeavesPortsAlone, Directories, PortsCoherent, ClearRevision;
      ClearMakesCoherent(engine, engine, facts, managedBindings, processes, keys);
      ShownInAnyContext(Now(), engine, facts - keys, managedBindings, now);
      facts := facts - keys;
      RevisePublish(keys, ClearRevision(engine), now);
    }

    /** New rules are checked against the catalog, the work budget and the stored facts. */
    method ReplaceClassificationRules(snapshot: RulesSnapshot, now: nat) returns (error: Option<ErrorCode>)
      requires Valid() && clock <= now
      modifies this`processes, this`engine, this`clock, events
      ensures Valid() && clock == now
      ensures error == if SameProjects(catalog.ids, snapshot.projectIds) && ValidSnapshot(snapshot)
                          && WithinWorkBudget(config.processCapacity, EngineOf(snapshot))
                       then None else Some(InvalidArgument)
      ensures RulesAsked(config, old(Whole()), Whole(), snapshot)
      ensures old(events.shutdownSignalled) ==> events.shutdownSignalled
      ensures Extends(old(events.Past()), events.Past())
    {
      hide Coherent, EventsReady, Mirrored, QueuesReady, Revised, RulesRevision, FactsAccepted, ValidSnapshot,
        WithinWorkBudget, SortRules, ValidCatalog, BoundedIds, RulesTaken;
      AdvanceClock(now);
      if !SameProjects(catalog.ids, snapshot.projectIds) {
        return Some(InvalidArgument);
      }
      var next := NewEngine(snapshot);
      if next.Err? || !WithinWorkBudget(config.processCapacity, next.value) {
        return Some(InvalidArgument);
      }
      ghost var before := Now();
      UseRules(next.value, now);
      RulesAreApplied(before, Now(), snapshot);
      error := None;
    }

    method UseRules(next: Engine, now: nat)
      requires EventsReady() && Mirrored() && QueuesReady() && ContextReady() && Coherent(Now(), now)
      requires next.known == engine.known
      modifies this`processes, this`engine, events
      ensures EventsReady() && Mirrored() && QueuesReady() && ContextReady() && Coherent(Now(), now)
      ensures engine == next && processes == Revised(old(processes), old(processes).Keys, RulesRevision(engine, facts))
      ensures old(events.shutdownSignalled) ==> events.shutdownSignalled
      ensures Extends(old(events.Past()), events.Past())
    {
      hide EventsReady, Mirrored, PortsShown, RecordsCoherent, Revised, MakesCoherent, LeavesPortsAlone, Directories,
        PortsCoherent, RulesRevision, FactsAccepted, EnrichmentQueue.Queue.Valid, ProjectQueue.Queue.Valid,
        EnrichmentQueue.StateWithin, ProjectQueue.UpToDate, FactsKept, ValidCatalog, BoundedIds;
      SameKnownSameFacts(engine, next, facts);
      RulesMakeCoherent(next, engine, facts, managedBindings, processes);
      ShownInAnyContext(Now(), next, facts, managedBindings, now);
      engine := next;
      ReclassifyAllProcesses(now);
    }

    method ReclassifyAllProcesses(now: nat)
      requires EventsReady() && Mirrored() && PortsShown(Now(), now) && FactsKept(facts, processes)
      requires MakesCoherent(engine, facts, managedBindings, processes, processes.Keys, RulesRevision(engine, facts))
      requires LeavesPortsAlone(processes, RulesRevision(engine, facts))
      modifies this`processes, events
      ensures EventsReady() && Mirrored() && PortsShown(Now(), now) && FactsKept(facts, processes)
      ensures RecordsCoherent(engine, facts, managedBindings, processes)
      ensures processes == Revised(old(processes), old(processes).Keys, RulesRevision(engine, facts))
      ensures processes.Keys == old(processes).Keys && Directories(processes) == Directories(old(processes))
      ensures old(events.shutdownSignalled) ==> events.shutdownSignalled
      ensures Extends(old(events.Past()), events.Past())
    {
      hide EventsReady, MirrorsPorts, Records, PortsShown, RecordsCoherent, Revised, MakesCoherent,
        LeavesPortsAlone, Directories, RulesRevision;
      RevisePublish(processes.Keys, RulesRevision(engine, facts), now);
    }

    /** A new set of managed processes; records whose ownership stays the same are not reclassified. */
    method ReplaceManagedProcessBindings(bindings: seq<ManagedBinding>, now: nat) returns (error: Option<ErrorCode>)
      requires Valid() && clock <= now
      modifies this`processes, this`managedBindings, this`clock, events
      ensures Valid() && clock == now
      ensures error == if |bindings| <= config.processCapacity && AcceptedManaged(bindings)
                       then None else Some(InvalidArgument)
      ensures ManagedAsked(config, old(Whole()), Whole(), bindings)
      ensures old(events.shutdownSignalled) ==> events.shutdownSignalled
      ensures Extends(old(events.Past()), events.Past())
    {
      hide Coherent, EventsReady, Mirrored, QueuesReady, ContextReady, Revised, OwnershipRevision, AcceptedManaged,
        ManagedTable, OwnershipTaken, KeysMatch;
      AdvanceClock(now);
      if |bindings| > config.processCapacity {
        return Some(InvalidArgument);
      }
      var table := CollectManaged(bindings);
      if table.None? {
        return Some(InvalidArgument);
      }
      ghost var before := Whole();
      RecordsMatchKeys();
      UseManaged(table.value, now);
      ManagedIsApplied(config, before, Whole(), bindings);
      error := None;
    }

    lemma RecordsMatchKeys()
      requires Valid()
      ensures KeysMatch(processes)
    {
      hide EventsReady, Mirrored, QueuesReady, ContextReady, PortsShown, PortsCoherent, FactsKept;
    }

    /** The bindings in force already are in the records. */
    method UseManaged(table: Bindings, now: nat)
      requires EventsReady() && Mirrored() && QueuesReady() && ContextReady() && Coherent(Now(), now)
      modifies this`processes, this`managedBindings, events
      ensures EventsReady() && Mirrored() && QueuesReady() && ContextReady() && Coherent(Now(), now)
      ensures managedBindings == table
      ensures processes == Revised(
                old(processes), old(processes).Keys, OwnershipRevision(engine, facts, managedBindings))
      ensures old(events.shutdownSignalled) ==> events.shutdownSignalled
      ensures Extends(old(events.Past()), events.Past())
    {
      hide EventsReady, Mirrored, PortsShown, RecordsCoherent, Revised, MakesCoherent, LeavesPortsAlone, Directories,
        PortsCoherent, OwnershipRevision, OwnershipShortcut, EnrichmentQueue.Queue.Valid, ProjectQueue.Queue.Valid,
        EnrichmentQueue.StateWithin, ProjectQueue.UpToDate, FactsKept, ContextReady;
      ManagedUnchanged(engine, facts, managedBindings, processes);
      if table == managedBindings {
        return;
      }
      OwnershipMakesCoherent(engine, facts, managedBindings, table, processes);
      OwnershipRevisedSame(engine, facts, managedBindings, table, processes);
      ShownInAnyContext(Now(), engine, facts, table, now);
      managedBindings := table;
      OverlayAll(now);
    }

    method OverlayAll(now: nat)
      requires EventsReady() && Mirrored() && PortsShown(Now(), now) && FactsKept(facts, processes)
      requires MakesCoherent(
                 engine, facts, managedBindings, processes, processes.Keys,
                 OwnershipShortcut(engine, facts, managedBindings))
      requires LeavesPortsAlone(processes, OwnershipShortcut(engine, facts, managedBindings))
      modifies this`processes, events
      ensures EventsReady() && Mirrored() && PortsShown(Now(), now) && FactsKept(facts, processes)
      ensures RecordsCoherent(engine, facts, managedBindings, processes)
      ensures processes == Revised(
                old(processes), old(processes).Keys, OwnershipShortcut(engine, facts, managedBindings))
      ensures processes.Keys == old(processes).Keys && Directories(processes) == Directories(old(processes))
      ensures old(events.shutdownSignalled) ==> events.shutdownSignalled
      ensures Extends(old(events.Past()), events.Past())
    {
      hide EventsReady, MirrorsPorts, Records, PortsShown, RecordsCoherent, Revised, MakesCoherent,
        LeavesPortsAlone, Directories, OwnershipShortcut;
      RevisePublish(processes.Keys, OwnershipShortcut(engine, facts, managedBindings), now);
    }

    /** A new catalog and new rules: everything proven under the old ones is forgotten and looked up again. */
    method ReplaceProjectContext(projectList: seq<RegisteredProject>, snapshot: RulesSnapshot, now: nat)
      returns (error: Option<ErrorCode>)
      requires Valid() && clock <= now
      modifies this`processes, this`engine, this`facts, this`catalog, this`catalogGeneration, this`clock, events,
        projects
      ensures Valid() && clock == now
      ensures error.None? <==>
                && AcceptedContext(platform, projectList, snapshot, config.processCapacity)
                && old(catalogGeneration) < MAX_CATALOG_GENERATION
      ensures error.Some? ==>
                error.value == (if AcceptedContext(platform, projectList, snapshot, config.processCapacity)
                                then Internal else InvalidArgument)
      ensures ContextAsked(config, platform, old(Whole()), Whole(), projectList, snapshot, now)
      ensures old(events.shutdownSignalled) ==> events.shutdownSignalled
      ensures Extends(old(events.Past()), events.Past())
    {
      hide Coherent, EventsReady, Mirrored, QueuesReady, ContextReady, AcceptedContext, ContextTaken, CatalogOf,
        EngineOf,
        LookedUp, ContextMatches, Extends;
      AdvanceClock(now);
      SamePast(events.Past());
      var context := CheckContext(projectList, snapshot);
      if context.Err? {
        return Some(InvalidArgument);
      }
      GenerationIsBounded();
      if catalogGeneration == MAX_CATALOG_GENERATION {
        return Some(Internal);
      }
      TakeContext(projectList, snapshot, context.value.0, context.value.1, now);
      error := None;
    }

    lemma GenerationIsBounded()
      requires ContextReady()
      ensures catalogGeneration <= MAX_CATALOG_GENERATION
    {
      hide ValidCatalog, BoundedIds, FactsAccepted;
    }

    method TakeContext(
      ghost projectList: seq<RegisteredProject>, ghost snapshot: RulesSnapshot, nextCatalog: Catalog,
        nextEngine: Engine,
      now: nat)
      requires Valid() && clock == now && catalogGeneration < MAX_CATALOG_GENERATION
      requires AcceptedContext(platform, projectList, snapshot, config.processCapacity)
      requires nextCatalog == CatalogOf(projectList) && nextEngine == EngineOf(snapshot)
      requires ContextMatches(nextEngine, nextCatalog, 0)
      modifies this`processes, this`engine, this`facts, this`catalog, this`catalogGeneration, events, projects
      ensures Valid() && ContextAsked(config, platform, old(Whole()), Whole(), projectList, snapshot, now)
      ensures old(events.shutdownSignalled) ==> events.shutdownSignalled
      ensures Extends(old(events.Past()), events.Past())
    {
      hide Coherent, EventsReady, MirrorsPorts, Records, QueuesReady, ContextReady, ContextMatches, Revised,
        ClearRevision,
        LookedUp, AcceptedContext, ContextAsked, CatalogOf, EngineOf, Extends;
      ghost var before := Whole();
      SwitchContext(nextCatalog, nextEngine, now);
      Rescan(old(events.Past()), now);
      ContextIsAsked(config, platform, before, Whole(), projectList, snapshot, now);
    }

    method CheckContext(projectList: seq<RegisteredProject>, snapshot: RulesSnapshot)
      returns (context: Result<(Catalog, Engine)>)
      ensures context ==
              if AcceptedContext(platform, projectList, snapshot, config.processCapacity)
              then Ok((CatalogOf(projectList), EngineOf(snapshot))) else Err(InvalidArgument)
      ensures context.Ok? ==> ContextMatches(context.value.1, context.value.0, 0)
    {
      hide ValidSnapshot, WithinWorkBudget, SortRules, CatalogOf, ValidProjects;
      var next := NewCatalog(platform, projectList);
      if next.Err? || !SameProjects(next.value.ids, snapshot.projectIds) {
        return Err(InvalidArgument);
      }
      var rules := NewEngine(snapshot);
      if rules.Err? || !WithinWorkBudget(config.processCapacity, rules.value) {
        return Err(InvalidArgument);
      }
      CatalogIdsAreBounded(platform, projectList);
      CatalogHoldsProjects(platform, projectList);
      context := Ok((next.value, rules.value));
    }

    method ResetProjects()
      requires projects.Valid()
      modifies projects
      ensures projects.Valid() && ProjectQueue.Idle(projects.Now())
    {
      projects.CancelAll();
      projects.ClearProofs();
    }

    method SwitchContext(nextCatalog: Catalog, nextEngine: Engine, now: nat)
      requires EventsReady() && Mirrored() && QueuesReady() && Coherent(Now(), now)
      requires ContextMatches(nextEngine, nextCatalog, 0) && catalogGeneration < MAX_CATALOG_GENERATION
      modifies this`processes, this`engine, this`facts, this`catalog, this`catalogGeneration, events, projects
      ensures EventsReady() && Mirrored() && QueuesReady() && ContextReady() && Coherent(Now(), now)
      ensures catalog == nextCatalog && engine == nextEngine && catalogGeneration == old(catalogGeneration) + 1
      ensures facts == map[] && processes == Revised(old(processes), old(processes).Keys, ClearRevision(engine))
      ensures old(events.shutdownSignalled) ==> events.shutdownSignalled
      ensures Extends(old(events.Past()), events.Past())
    {
      hide EventsReady, Mirrored, PortsShown, RecordsCoherent, Revised, Directories, MakesCoherent, LeavesPortsAlone,
        PortsCoherent, ClearRevision, EnrichmentQueue.Queue.Valid, EnrichmentQueue.StateWithin, ContextReady,
        ContextMatches, ProjectQueue.Queue.Valid, ProjectQueue.UpToDate, FactsKept;
      ClearMakesCoherent(nextEngine, engine, facts, managedBindings, processes, processes.Keys);
      ForgettingAllFacts(facts, processes);
      ShownInAnyContext(Now(), nextEngine, map[], managedBindings, now);
      AdoptContext(nextCatalog, nextEngine);
      RevisePublish(processes.Keys, ClearRevision(engine), now);
      NoFactsAreFine(engine, processes);
    }

    /** The new context comes into force with nothing known, queued or proven under it. */
    method AdoptContext(nextCatalog: Catalog, nextEngine: Engine)
      requires QueuesReady() && ContextMatches(nextEngine, nextCatalog, 0) && catalogGeneration < MAX_CATALOG_GENERATION
      modifies this`engine, this`facts, this`catalog, this`catalogGeneration, projects
      ensures QueuesReady() && ContextReady()
      ensures catalog == nextCatalog && engine == nextEngine && catalogGeneration == old(catalogGeneration) + 1
      ensures facts == map[]
    {
      hide EnrichmentQueue.Queue.Valid, EnrichmentQueue.StateWithin, ProjectQueue.Queue.Valid, ProjectQueue.UpToDate,
        ProjectQueue.Idle, ContextMatches, FactsAccepted, Directories;
      NextGenerationMatches(nextEngine, nextCatalog, catalogGeneration);
      NoFactsAreFine(nextEngine, processes);
      ResetProjects();
      ProjectQueue.IdleIsUpToDate(projects.Now(), Directories(processes), catalogGeneration + 1);
      facts := map[];
      catalog, catalogGeneration := nextCatalog, catalogGeneration + 1;
      engine := nextEngine;
    }

    /** Look up the project of every process whose directory is known. */
    method Rescan(ghost earlier: Trail, now: nat)
      requires EventsReady() && QueuesReady() && Extends(earlier, events.Past())
      modifies events, projects
      ensures EventsReady() && QueuesReady() && events.target == old(events.target)
      ensures old(events.shutdownSignalled) ==> events.shutdownSignalled
      ensures Extends(earlier, events.Past())
      ensures forall k | k in processes ::
                LookedUp(
                  processes, projects.Now(), catalogGeneration, earlier.sent, events.sent, events.shutdownSignalled, k,
                  now)
    {
      hide EventsReady, QueuesReady, LookedUp, HandledIn, Extends;
      var keys := set k | k in processes && processes[k].record.workingDirectory.Known?;
      QueueWanted(keys, EnrichmentQueue.New, earlier, now);
      OthersNeedNoLookup(
        processes, processes.Keys, keys, projects.Now(), catalogGeneration, earlier.sent, events.sent,
        events.shutdownSignalled, now);
    }

    method QueueProjectScans(keys: set<ProcessKey>, priority: EnrichmentQueue.Priority, now: nat)
      requires EventsReady() && QueuesReady()
      modifies events, projects
      ensures EventsReady() && QueuesReady() && events.target == old(events.target)
      ensures ProjectQueue.ProofsShrink(old(projects.cache), projects.cache)
      ensures old(events.shutdownSignalled) ==> events.shutdownSignalled
      ensures Extends(old(events.Past()), events.Past())
      ensures forall k | k in keys || HandledIn(processes, old(projects.Now()), catalogGeneration, k, now) ::
                LookedUp(
                  processes, projects.Now(), catalogGeneration, old(events.sent), events.sent,
                  events.shutdownSignalled, k, now)
    {
      hide EventsReady, QueuesReady, LookedUp, Told, ProjectQueue.KeepsHandled, Directories, HandledIn;
      var todo := keys;
      ghost var handled := set k | k in processes && HandledIn(processes, projects.Now(), catalogGeneration, k, now);
      HandledAreLookedUp(
        processes, projects.Now(), catalogGeneration, events.sent, events.shutdownSignalled, handled, now);
      while todo != {}
        invariant todo <= keys
        invariant EventsReady() && QueuesReady() && events.target == old(events.target)
        invariant ProjectQueue.ProofsShrink(old(projects.cache), projects.cache)
        invariant old(events.shutdownSignalled) ==> events.shutdownSignalled
        invariant Extends(old(events.Past()), events.Past())
        invariant forall k | k in handled || (k in keys && k !in todo) ::
                    LookedUp(
                      processes, projects.Now(), catalogGeneration, old(events.sent), events.sent,
                      events.shutdownSignalled, k, now)
        decreases |todo|
      {
        var key :| key in todo;
        ghost var board, sent, halted := projects.Now(), events.sent, events.shutdownSignalled;
        ghost var failures := QueueProjectScanBackground(key, priority, now);
        forall k | k in handled || (k in keys && k !in todo - {key})
          ensures LookedUp(
                    processes, projects.Now(), catalogGeneration, old(events.sent), events.sent,
                    events.shutdownSignalled, k, now)
        {
          if k == key {
            LookedUpSinceEarlier(
              processes, projects.Now(), catalogGeneration, old(events.sent), sent, events.sent,
              events.shutdownSignalled, {key}, now);
          } else {
            LookedUpStays(
              processes, board, projects.Now(), catalogGeneration, old(events.sent), sent, events.sent, halted,
              events.shutdownSignalled, failures, {key}, k, now);
          }
        }
        todo := todo - {key};
      }
    }

    method InsertProjectProof(request: ScanRequest, now: nat) returns (evicted: Option<ProcessKey>)
      requires QueuesReady() && StillWanted(processes, catalog, catalogGeneration, request)
      modifies projects`cache
      ensures QueuesReady()
      ensures ProjectQueue.EvictsOldest(old(projects.cache), projects.capacity, request.key, evicted)
      ensures projects.cache == (old(projects.cache) - SetOf(evicted))[
                request.key := ProjectQueue.Proof(now + projects.cacheTtl, request.expectedDirectory,
                  request.generation)]
    {
      hide ProjectQueue.UpToDate, ProjectQueue.EvictsOldest, ProjectQueue.Queue.Steady,
        ProjectQueue.Queue.WorkConserving,
        EnrichmentQueue.Queue.Valid, EnrichmentQueue.StateWithin, Directories;
      ghost var before := projects.Now();
      DirectoryIsCurrent(processes, catalog, catalogGeneration, request);
      evicted := projects.InsertProof(request.key, request.expectedDirectory, request.generation, now);
      ProjectQueue.ProvenIsUpToDate(
        before, projects.Now(), request.key,
        ProjectQueue.Proof(now + projects.cacheTtl, request.expectedDirectory, request.generation),
        Directories(processes), catalogGeneration);
      assert old(projects.cache) - {} == old(projects.cache);
    }

    /** What a wanted scan proved is taken over; a process whose proof is evicted for it loses its own. */
    method TakeProjectScan(request: ScanRequest, result: ScanResult, now: nat) returns (evicted: Option<ProcessKey>)
      requires EventsReady() && Mirrored() && QueuesReady() && ContextReady() && Coherent(Now(), now)
      requires ValidFor(platform, result, request) && StillWanted(processes, catalog, catalogGeneration, request)
      modifies this`processes, this`facts, events, projects`cache
      ensures EventsReady() && Mirrored() && QueuesReady() && ContextReady() && Coherent(Now(), now)
      ensures processes == Revised(
                Revised(old(processes), {request.key}, ScanRevision(engine, result)), SetOf(evicted),
                ClearRevision(engine))
      ensures facts == WithFacts(old(facts), request.key, FactsOf(result.association, result.features)) - SetOf(evicted)
      ensures ProjectQueue.EvictsOldest(old(projects.cache), projects.capacity, request.key, evicted)
      ensures projects.cache == (old(projects.cache) - SetOf(evicted))[
                request.key := ProjectQueue.Proof(now + projects.cacheTtl, request.expectedDirectory,
                  request.generation)]
      ensures old(events.shutdownSignalled) ==> events.shutdownSignalled
      ensures Extends(old(events.Past()), events.Past())
    {
      hide EventsReady, EnrichmentQueue.Queue.Valid, ProjectQueue.Queue.Valid, EnrichmentQueue.StateWithin,
        ProjectQueue.UpToDate, Mirrored, PortsShown, RecordsCoherent, Revised, Directories,
        MakesCoherent, LeavesPortsAlone, PortsCoherent, ClearRevision, ScanRevision, ValidFor, FactsAccepted,
        WithFacts, ContextMatches, FactsKept, FactsOf, ProjectQueue.EvictsOldest;
      evicted := InsertProjectProof(request, now);
      ScanFactsAreAccepted(platform, engine, catalog, catalogGeneration, facts, result, request);
      var found := FactsOf(result.association, result.features);
      assert ValidFacts(engine, found);
      ScanMakesCoherent(engine, facts, managedBindings, processes, request.key, result);
      ShownInAnyContext(Now(), engine, WithFacts(facts, request.key, found), managedBindings, now);
      facts := WithFacts(facts, request.key, found);
      RevisePublish({request.key}, ScanRevision(engine, result), now);
      ghost var known := facts;
      FactsKeptByPass(facts, old(processes), processes);
      ClearProjectEvidence(SetOf(evicted), now);
      FewerFactsAreAccepted(engine, known, facts);
    }

    /**
     The result of a project scan: checked against its request, ignored if the process, its directory or
     the catalog has changed since, and otherwise taken over. Its facts are never refused.
     */
    method ApplyProjectScan(request: ScanRequest, result: ScanResult, now: nat) returns (error: Option<ErrorCode>)
      requires Valid() && clock <= now
      modifies this`processes, this`facts, this`clock, events, projects`cache
      ensures Valid() && clock == now
      ensures error == if ValidFor(platform, result, request) then None else Some(PlatformError)
      ensures error.Some? || !StillWanted(old(processes), catalog, catalogGeneration, request) ==>
              Whole() == old(Whole())
      ensures error.None? && StillWanted(old(processes), catalog, catalogGeneration, request) ==>
                exists evicted :: ProjectScanTaken(config, old(Whole()), Whole(), request, result, evicted, now)
      ensures old(events.shutdownSignalled) ==> events.shutdownSignalled
      ensures Extends(old(events.Past()), events.Past())
    {
      hide Coherent, EventsReady, Mirrored, QueuesReady, ContextReady, ProjectScanTaken, ValidFor, StillWanted, Extends;
      AdvanceClock(now);
      SamePast(events.Past());
      var valid := ValidateFor(platform, result, request);
      if !valid {
        return Some(PlatformError);
      }
      error := None;
      if StillWanted(processes, catalog, catalogGeneration, request) {
        assert Whole() == old(Whole());
        TakeWantedScan(request, result, now);
      }
    }

    method TakeWantedScan(request: ScanRequest, result: ScanResult, now: nat)
      requires Valid() && clock == now
      requires ValidFor(platform, result, request) && StillWanted(processes, catalog, catalogGeneration, request)
      modifies this`processes, this`facts, events, projects`cache
      ensures Valid()
      ensures exists evicted :: ProjectScanTaken(config, old(Whole()), Whole(), request, result, evicted, now)
      ensures old(events.shutdownSignalled) ==> events.shutdownSignalled
      ensures Extends(old(events.Past()), events.Past())
    {
      hide EventsReady, Mirrored, Coherent, QueuesReady, ContextReady, Revised, ProjectScanTaken, FactsOf,
        ClearRevision,
        ScanRevision, ValidFor, WithFacts, StillWanted, ProjectQueue.EvictsOldest;
      ghost var before := Whole();
      var evicted := TakeProjectScan(request, result, now);
      EvidenceIsApplied(config, before, Whole(), request, result, evicted, now);
    }

    // ----- Process scans -----

    method ForgetEnrichments(gone: set<ProcessKey>)
      requires enrichments.Valid() && enrichments.Within(processes.Keys)
      modifies enrichments`pending, enrichments`running, enrichments`cache
      ensures enrichments.Valid() && EnrichmentQueue.Avoids(enrichments.Now(), gone)
      ensures enrichments.Within(processes.Keys)
      ensures enrichments.cache == old(enrichments.cache) - gone
      ensures forall k | k !in gone :: EnrichmentQueue.SameAt(old(enrichments.Now()), enrichments.Now(), k)
    {
      hide EnrichmentQueue.Queue.Valid, EnrichmentQueue.StateWithin, EnrichmentQueue.Avoids, EnrichmentQueue.SameAt;
      EnrichmentQueue.NothingToAvoid(enrichments.Now());
      var todo := gone;
      ghost var done: set<ProcessKey> := {};
      while todo != {}
        invariant enrichments.Valid() && EnrichmentQueue.Avoids(enrichments.Now(), done) && done + todo == gone
        invariant enrichments.Within(processes.Keys)
        invariant enrichments.cache == old(enrichments.cache) - done
        invariant forall k | k !in done :: EnrichmentQueue.SameAt(old(enrichments.Now()), enrichments.Now(), k)
        decreases |todo|
      {
        var key :| key in todo;
        ghost var before := enrichments.Now();
        enrichments.Forget(key, done, processes.Keys);
        EnrichmentQueue.MinusTwice(old(enrichments.cache), done, key);
        EnrichmentQueue.SameAtTwice(old(enrichments.Now()), before, enrichments.Now(), done, key);
        todo, done := todo - {key}, done + {key};
      }
      assert done == gone;
    }

    /** The processes that left, and what was known about them, are dropped from tables and queues. */
    method ReplaceProcesses(next: Processes, forgotten: set<ProcessKey>, gone: set<ProcessKey>)
      requires QueuesReady() && gone <= forgotten
      requires gone == processes.Keys - next.Keys
      requires forall k | k in Directories(processes) && k !in forgotten ::
                 k in Directories(next) && Directories(next)[k] == Directories(processes)[k]
      modifies this`processes, enrichments, projects
      ensures QueuesReady() && processes == next
      ensures EnrichmentQueue.StateWithin(enrichments.Now(), old(processes).Keys)
      ensures QueuesForget(
                old(enrichments.Now()), enrichments.Now(), old(projects.Now()), projects.Now(), gone, forgotten)
    {
      hide EnrichmentQueue.Queue.Valid, ProjectQueue.Queue.Valid, EnrichmentQueue.Avoids,
        ProjectQueue.UpToDate, ProjectQueue.Avoids, Directories;
      ForgetProjects(forgotten);
      ForgetEnrichments(gone);
      EnrichmentQueue.AvoidedMayLeave(enrichments.Now(), processes.Keys, gone, next.Keys);
      ProjectQueue.AvoidedMayChange(
        projects.Now(), forgotten, Directories(processes), Directories(next), catalogGeneration);
      processes := next;
    }

    /** Tables and queues change together, and the change is published. */
    method ReplaceTables(
      next: Processes, nextFacts: FactTable, forgotten: set<ProcessKey>, gone: set<ProcessKey>,
      upserted: seq<ProcessRecord>, now: nat)
      requires EventsReady() && Mirrored() && QueuesReady() && ContextReady()
      requires FactsAccepted(engine, nextFacts) && KeysMatch(next) && Changes(processes, next, upserted)
      requires PortsShown(Now().(processes := next, facts := nextFacts), now)
      requires gone <= forgotten && gone == processes.Keys - next.Keys
      requires forall k | k in Directories(processes) && k !in forgotten ::
                 k in Directories(next) && Directories(next)[k] == Directories(processes)[k]
      modifies this`processes, this`facts, events, enrichments, projects
      ensures EventsReady() && Mirrored() && QueuesReady() && ContextReady()
      ensures processes == next && facts == nextFacts && PortsShown(Now(), now)
      ensures EnrichmentQueue.StateWithin(enrichments.Now(), old(processes).Keys)
      ensures QueuesForget(
                old(enrichments.Now()), enrichments.Now(), old(projects.Now()), projects.Now(), gone, forgotten)
      ensures old(events.shutdownSignalled) ==> events.shutdownSignalled
      ensures Extends(old(events.Past()), events.Past())
    {
      hide EventsReady, QueuesReady, ContextReady, FactsAccepted, Directories, KeysMatch, Changes, PortsShown,
        MirrorsPorts, Records, Enumerates, SortedProcesses, QueuesForget, EnrichmentQueue.StateWithin;
      ghost var before := processes;
      GoneAreRemoved(before, next, gone);
      ReplaceProcessesAndFacts(next, nextFacts, forgotten, gone);
      PublishProcesses(before, upserted, SortedProcesses(gone));
    }

    method ReplaceProcessesAndFacts(
      next: Processes, nextFacts: FactTable, forgotten: set<ProcessKey>, gone: set<ProcessKey>)
      requires QueuesReady() && ContextReady() && FactsAccepted(engine, nextFacts)
      requires gone <= forgotten && gone == processes.Keys - next.Keys
      requires forall k | k in Directories(processes) && k !in forgotten ::
                 k in Directories(next) && Directories(next)[k] == Directories(processes)[k]
      modifies this`processes, this`facts, enrichments, projects
      ensures QueuesReady() && ContextReady() && processes == next && facts == nextFacts
      ensures EnrichmentQueue.StateWithin(enrichments.Now(), old(processes).Keys)
      ensures QueuesForget(
                old(enrichments.Now()), enrichments.Now(), old(projects.Now()), projects.Now(), gone, forgotten)
    {
      hide QueuesReady, Directories, ContextMatches, FactsAccepted, QueuesForget, EnrichmentQueue.StateWithin;
      ReplaceProcesses(next, forgotten, gone);
      facts := nextFacts;
    }

    /** Every new process is enriched. */
    method EnrichNew(newKeys: set<ProcessKey>, now: nat)
      requires QueuesReady() && newKeys <= processes.Keys && EnrichmentQueue.Avoids(enrichments.Now(), newKeys)
      modifies enrichments
      ensures QueuesReady()
      ensures forall k | k in newKeys :: EnrichmentQueue.Asked(enrichments.Now(), k)
      ensures forall k, d | k in processes && EnrichmentQueue.Served(old(enrichments.Now()), k, d, now) ::
                EnrichmentQueue.Served(enrichments.Now(), k, d, now)
    {
      hide QueuesReady, EnrichmentQueue.Asked, EnrichmentQueue.Avoids, EnrichmentQueue.Served,
        EnrichmentQueue.MergedOrQueued;
      var todo := newKeys;
      while todo != {}
        invariant todo <= newKeys && QueuesReady()
        invariant forall k | k in newKeys && k !in todo :: EnrichmentQueue.Asked(enrichments.Now(), k)
        invariant EnrichmentQueue.Avoids(enrichments.Now(), todo)
        invariant forall k, d | k in processes && EnrichmentQueue.Served(old(enrichments.Now()), k, d, now) ::
                    EnrichmentQueue.Served(enrichments.Now(), k, d, now)
        decreases |todo|
      {
        var key :| key in todo;
        assert todo - {key} + {key} == todo;
        var status := QueueEnrichment(key, EnrichmentQueue.New, EnrichmentQueue.Metadata, now);
        todo := todo - {key};
      }
    }

    /** Take over what a scan collected: tables first, then the ports of the processes that left. */
    method TakeFastScan(c: Collected, ghost scan: seq<ProcessRecord>, now: nat)
      requires EventsReady() && Mirrored() && QueuesReady() && ContextReady() && Coherent(Now(), now)
      requires CollectedFrom(Observer(Now(), now), processes, scan, now + config.processTtl, c)
      modifies this`processes, this`ports, this`portResults, this`facts, events, enrichments, projects
      ensures EventsReady() && Mirrored() && QueuesReady() && ContextReady() && Coherent(Now(), now)
      ensures OnlyPortsDiffer(c.next, processes) && facts == FactsAfter(old(facts), old(processes), c.next)
      ensures ports == PortsAfterRemoval(old(ports), old(processes).Keys - c.next.Keys)
      ensures OnlyRefreshed(old(portResults) - (old(processes).Keys - c.next.Keys), portResults)
      ensures Balanced(old(ports)) ==> Balanced(ports)
      ensures c.newKeys == processes.Keys - old(processes).Keys && EnrichmentQueue.Avoids(enrichments.Now(), c.newKeys)
      ensures QueuesForget(
                old(enrichments.Now()), enrichments.Now(), old(projects.Now()), projects.Now(),
                  old(processes).Keys - c.next.Keys,
                c.invalidated + (old(processes).Keys - c.next.Keys))
      ensures old(events.shutdownSignalled) ==> events.shutdownSignalled
      ensures Extends(old(events.Past()), events.Past())
    {
      hide EventsReady, Mirrored, PortsShown, RecordsCoherent, Directories, FactsAfter,
        OnlyPortsDiffer, PortsCoherent, Balanced, PortsAfterRemoval, OnlyRefreshed, ContextReady,
        EnrichmentQueue.Queue.Valid, ProjectQueue.Queue.Valid, EnrichmentQueue.StateWithin, ProjectQueue.UpToDate,
        FactsKept, CollectedFrom, QueuesForget, EnrichmentQueue.Avoids;
      ghost var results := portResults;
      var gone := processes.Keys - c.next.Keys;
      SwapProcesses(c, scan, gone, now);
      RemovePortsForProcesses(gone, now);
      OnlyPortsDifferKeeps(facts, c.next, processes);
      RefreshedKeys(results - gone, portResults);
    }

    method SwapProcesses(c: Collected, ghost scan: seq<ProcessRecord>, gone: set<ProcessKey>, now: nat)
      requires EventsReady() && Mirrored() && QueuesReady() && ContextReady() && Coherent(Now(), now)
      requires CollectedFrom(Observer(Now(), now), processes, scan, now + config.processTtl, c)
      requires gone == processes.Keys - c.next.Keys
      modifies this`processes, this`facts, events, enrichments, projects
      ensures EventsReady() && Mirrored() && QueuesReady() && ContextReady()
      ensures processes == c.next && facts == FactsAfter(old(facts), old(processes), c.next)
      ensures RecordsCoherent(engine, facts, managedBindings, processes) && FactsKept(facts, processes)
      ensures PortsShown(Now(), now)
      ensures c.newKeys == processes.Keys - old(processes).Keys && EnrichmentQueue.Avoids(enrichments.Now(), c.newKeys)
      ensures QueuesForget(
                old(enrichments.Now()), enrichments.Now(), old(projects.Now()), projects.Now(), gone,
                c.invalidated + gone)
      ensures old(events.shutdownSignalled) ==> events.shutdownSignalled
      ensures Extends(old(events.Past()), events.Past())
    {
      hide EventsReady, QueuesReady, Mirrored, PortsShown, RecordsCoherent, Directories, FactsAfter, PortsCoherent,
        ContextMatches, FactsAccepted, FactsKept, KeysMatch, CollectedFrom, Changes, QueuesForget,
        EnrichmentQueue.StateWithin, EnrichmentQueue.Avoids;
      FastScanFacts(Now(), scan, now, now + config.processTtl, c);
      var left := FactsAfter(facts, processes, c.next);
      FewerScanFacts(engine, facts, processes, c.next);
      ReplaceTables(c.next, left, c.invalidated + gone, gone, c.upserted, now);
      EnrichmentQueue.StrangersAreAvoided(enrichments.Now(), old(processes).Keys, c.newKeys);
    }

    /**
     A scan of the process table. Afterwards exactly the scanned processes are known, each with what the
     full recomputation makes of it; every new process is queued for enrichment.
     */
    method ApplyFastScan(scan: seq<ProcessRecord>, now: nat) returns (error: Option<ErrorCode>)
      requires Valid() && clock <= now
      modifies this`processes, this`ports, this`portResults, this`facts, this`clock, events, enrichments, projects
      ensures Valid() && clock == now
      ensures error == if |scan| <= config.processCapacity && AcceptedScan(scan) then None else Some(PlatformError)
      ensures error.Some? ==> Whole() == old(Whole())
      ensures error.None? ==> FastScanTaken(old(Whole()), Whole(), scan, now + config.processTtl, now)
      ensures Balanced(old(ports)) ==> Balanced(ports)
      ensures old(events.shutdownSignalled) ==> events.shutdownSignalled
      ensures Extends(old(events.Past()), events.Past())
    {
      hide PortsShown, PortsCoherent, RecordsCoherent, FactsKept, EventsReady, Mirrored, QueuesReady, ContextReady,
        FastScanTaken, CollectedFrom, AcceptedScan, Balanced, Extends;
      AdvanceClock(now);
      SamePast(events.Past());
      if |scan| > config.processCapacity {
        return Some(PlatformError);
      }
      var t := Tables(processes, ports, portResults, portAvailability, engine, facts, managedBindings);
      var collected := CollectFastScan(t, scan, now, now + config.processTtl);
      if collected.Err? {
        return Some(PlatformError);
      }
      TakeCollected(collected.value, scan, now);
      error := None;
    }

    /** Take over what was collected, enrich the new processes and look up the projects of those that moved. */
    method TakeCollected(c: Collected, ghost scan: seq<ProcessRecord>, now: nat)
      requires Valid() && clock == now
      requires CollectedFrom(Observer(Now(), now), processes, scan, now + config.processTtl, c)
      modifies this`processes, this`ports, this`portResults, this`facts, events, enrichments, projects
      ensures Valid()
      ensures FastScanTaken(old(Whole()), Whole(), scan, now + config.processTtl, now)
      ensures Balanced(old(ports)) ==> Balanced(ports)
      ensures old(events.shutdownSignalled) ==> events.shutdownSignalled
      ensures Extends(old(events.Past()), events.Past())
    {
      hide EventsReady, MirrorsPorts, Records, Coherent, QueuesReady, ContextReady, QueuesForget, FactsAfter,
        OnlyPortsDiffer, Balanced, PortsAfterRemoval, OnlyRefreshed, TableFrom, SetsFrom, EnrichmentQueue.Asked,
        EnrichmentQueue.Served, HandledIn, Extends, ProcessesScanned, LookedUp, NewOrMoved, KeepsLookingUp,
        KeepsServing;
      ghost var before := Whole();
      TakeFastScan(c, scan, now);
      ScanIsApplied(before.tables, Now(), scan, now, now + config.processTtl, c.next);
      ghost var taken := Whole();
      QueueForScan(c.newKeys, c.rescan, old(events.Past()), now);
      ScanLooksUp(before, Whole(), c, taken.enrichments, taken.projects, now);
      InvalidatedMoved(before.tables.processes, c, processes);
      var gone := before.tables.processes.Keys - c.next.Keys;
      ScanServes(before, taken.enrichments, taken.projects, gone, c.invalidated + gone, Whole(), now);
    }

    /** New processes are enriched, and projects of new or moved ones looked up. */
    method QueueForScan(newKeys: set<ProcessKey>, rescan: set<ProcessKey>, ghost earlier: Trail, now: nat)
      requires EventsReady() && QueuesReady() && Extends(earlier, events.Past())
      requires newKeys <= processes.Keys && EnrichmentQueue.Avoids(enrichments.Now(), newKeys)
      modifies events, enrichments, projects
      ensures EventsReady() && QueuesReady() && events.target == old(events.target)
      ensures old(events.shutdownSignalled) ==> events.shutdownSignalled
      ensures Extends(earlier, events.Past())
      ensures forall k | k in newKeys :: EnrichmentQueue.Asked(enrichments.Now(), k)
      ensures forall k, d | k in processes && EnrichmentQueue.Served(old(enrichments.Now()), k, d, now) ::
                EnrichmentQueue.Served(enrichments.Now(), k, d, now)
      ensures forall k | k in rescan || HandledIn(processes, old(projects.Now()), catalogGeneration, k, now) ::
                LookedUp(
                  processes, projects.Now(), catalogGeneration, earlier.sent, events.sent, events.shutdownSignalled, k,
                  now)
    {
      hide EventsReady, QueuesReady, EnrichmentQueue.Asked, EnrichmentQueue.Avoids, EnrichmentQueue.Served, LookedUp,
        HandledIn, Extends;
      EnrichNew(newKeys, now);
      QueueWanted(rescan, EnrichmentQueue.New, earlier, now);
    }

    method QueueWanted(
      keys: set<ProcessKey>, priority: EnrichmentQueue.Priority, ghost earlier: Trail, now: nat)
      requires EventsReady() && QueuesReady() && Extends(earlier, events.Past())
      modifies events, projects
      ensures EventsReady() && QueuesReady() && events.target == old(events.target)
      ensures ProjectQueue.ProofsShrink(old(projects.cache), projects.cache)
      ensures old(events.shutdownSignalled) ==> events.shutdownSignalled
      ensures Extends(earlier, events.Past())
      ensures forall k | k in keys || HandledIn(processes, old(projects.Now()), catalogGeneration, k, now) ::
                LookedUp(
                  processes, projects.Now(), catalogGeneration, earlier.sent, events.sent, events.shutdownSignalled, k,
                  now)
    {
      hide EventsReady, QueuesReady, LookedUp, HandledIn, Extends;
      ghost var past := events.Past();
      ghost var handled := set k | k in processes && HandledIn(processes, projects.Now(), catalogGeneration, k, now);
      QueueProjectScans(keys, priority, now);
      ExtendsTwice(earlier, past, events.Past());
      SentSince(earlier, past, events.Past());
      LookedUpSinceEarlier(
        processes, projects.Now(), catalogGeneration, earlier.sent, past.sent, events.sent, events.shutdownSignalled,
        keys + handled, now);
    }

    // ----- Expiry -----

    method SweepProcesses(now: nat)
      requires EventsReady() && Mirrored() && QueuesReady() && ContextReady() && Coherent(Now(), now)
      modifies this`processes, this`ports, this`portResults, this`facts, events, enrichments, projects
      ensures EventsReady() && Mirrored() && QueuesReady() && ContextReady() && Coherent(Now(), now)
      ensures OnlyPortsDiffer(old(processes) - ExpiredProcesses(old(processes), now), processes)
      ensures facts == old(facts) - ExpiredProcesses(old(processes), now)
      ensures var gone := ExpiredProcesses(old(processes), now);
              QueuesForget(old(enrichments.Now()), enrichments.Now(), old(projects.Now()), projects.Now(), gone, gone)
      ensures ports == PortsAfterRemoval(old(ports), ExpiredProcesses(old(processes), now))
      ensures OnlyRefreshed(old(portResults) - ExpiredProcesses(old(processes), now), portResults)
      ensures Balanced(old(ports)) ==> Balanced(ports)
      ensures old(events.shutdownSignalled) ==> events.shutdownSignalled
      ensures Extends(old(events.Past()), events.Past())
    {
      hide EventsReady, Mirrored, PortsShown, RecordsCoherent, Directories,
        OnlyPortsDiffer, PortsCoherent, Balanced, PortsAfterRemoval, OnlyRefreshed, ContextReady, ExpiredProcesses,
        EnrichmentQueue.Queue.Valid, ProjectQueue.Queue.Valid, EnrichmentQueue.StateWithin, ProjectQueue.UpToDate,
        FactsKept, QueuesForget;
      ghost var results, left := portResults, processes - ExpiredProcesses(processes, now);
      var gone := ExpiredProcesses(processes, now);
      DropProcesses(gone, now);
      RemovePortsForProcesses(gone, now);
      OnlyPortsDifferKeeps(facts, left, processes);
      RefreshedKeys(results - gone, portResults);
    }

    method DropProcesses(gone: set<ProcessKey>, now: nat)
      requires EventsReady() && Mirrored() && QueuesReady() && ContextReady() && Coherent(Now(), now)
      requires gone <= processes.Keys
      modifies this`processes, this`facts, events, enrichments, projects
      ensures EventsReady() && Mirrored() && QueuesReady() && ContextReady()
      ensures processes == old(processes) - gone && facts == old(facts) - gone
      ensures QueuesForget(
                old(enrichments.Now()), enrichments.Now(), old(projects.Now()), projects.Now(), gone, gone)
      ensures RecordsCoherent(engine, facts, managedBindings, processes) && FactsKept(facts, processes)
      ensures PortsShown(Now(), now)
      ensures old(events.shutdownSignalled) ==> events.shutdownSignalled
      ensures Extends(old(events.Past()), events.Past())
    {
      hide EventsReady, QueuesReady, Mirrored, PortsShown, RecordsCoherent, Directories, PortsCoherent, ContextMatches,
        FactsAccepted, FactsKept, KeysMatch, Changes, QueuesForget;
      FewerProcessesAreCoherent(Now(), gone, now);
      FewerDirectories(processes, gone);
      FactsLeftAreAccepted(engine, facts, gone);
      ReplaceTables(processes - gone, facts - gone, gone, gone, [], now);
    }

    /** Proofs that expired are forgotten, and the project is looked up again. */
    method SweepProjects(ghost earlier: Trail, now: nat) returns (ghost left: ProjectQueue.Board)
      requires EventsReady() && Mirrored() && QueuesReady() && ContextReady() && Coherent(Now(), now)
      requires Extends(earlier, events.Past())
      modifies this`processes, this`facts, events, projects
      ensures EventsReady() && Mirrored() && QueuesReady() && ContextReady() && Coherent(Now(), now)
      ensures var expired := ExpiredProofs(old(projects.cache), now);
              && processes == Revised(old(processes), expired, ClearRevision(engine))
              && facts == old(facts) - expired
              && (forall k | k !in expired :: ProjectQueue.SameOnBoard(old(projects.Now()), left, k))
              && left.cache == old(projects.cache) - expired
              && ProjectQueue.ProofsShrink(left.cache, projects.cache)
              && (forall k | k in processes
                && (k in expired || HandledIn(processes, left, catalogGeneration, k, now)) ::
                    LookedUp(
                      processes, projects.Now(), catalogGeneration, earlier.sent, events.sent,
                      events.shutdownSignalled, k, now))
      ensures processes.Keys == old(processes).Keys
      ensures old(events.shutdownSignalled) ==> events.shutdownSignalled
      ensures Extends(earlier, events.Past())
    {
      hide EventsReady, MirrorsPorts, Records, Coherent, Directories, Revised, ContextMatches, FactsAccepted,
        EnrichmentQueue.Queue.Valid, ProjectQueue.Queue.Valid, EnrichmentQueue.StateWithin, ProjectQueue.UpToDate,
        ProjectQueue.Avoids, ClearRevision, ProjectQueue.SameOnBoard, HandledIn, LookedUp, Extends;
      ghost var known, past := facts, events.Past();
      var expired := ExpiredProofs(projects.cache, now);
      ForgetProjects(expired);
      left := projects.Now();
      ClearProjectEvidence(expired, now);
      ExtendsTwice(earlier, past, events.Past());
      FewerFactsAreAccepted(engine, known, facts);
      var rescan := set k | k in expired && k in processes && processes[k].record.workingDirectory.Known?;
      QueueWanted(rescan, EnrichmentQueue.ClassificationCandidate, earlier, now);
      OthersNeedNoLookup(
        processes, expired, rescan, projects.Now(), catalogGeneration, earlier.sent, events.sent,
        events.shutdownSignalled, now);
    }

    /** Results and bindings that expired leave the port table. */
    method SweepPorts(now: nat)
      requires EventsReady() && Mirrored() && RecordsCoherent(engine, facts, managedBindings, processes)
      requires PortsCoherent(ports, portResults) && PortsShown(Now(), now)
      modifies this`processes, this`ports, this`portResults, events
      ensures EventsReady() && Mirrored() && RecordsCoherent(engine, facts, managedBindings, processes)
      ensures PortsCoherent(ports, portResults) && PortsShown(Now(), now)
      ensures OnlyPortsDiffer(old(processes), processes)
      ensures ports == PortsAfterExpiry(old(ports), now)
      ensures OnlyRefreshed(old(portResults) - ExpiredResults(old(portResults), now), portResults)
      ensures forall p | p in portResults :: portResults[p].expiresAt > now
      ensures Balanced(old(ports)) ==> Balanced(ports)
      ensures old(events.shutdownSignalled) ==> events.shutdownSignalled
      ensures Extends(old(events.Past()), events.Past())
    {
      hide EventsReady, MirrorsPorts, Records, PortsShown, RecordsCoherent, PortsCoherent, Balanced,
        PortsAfterExpiry, OnlyRefreshed, ExpirySettled, OnlyPortsDiffer, ExpiredResults, Owned;
      ghost var t := Now();
      var s := DropExpiredPorts(now);
      ExpiryIsCoherent(t, now, s);
      if s.affected == {} {
        ExpiryStaysShown(t, now, s);
        NothingGone(t);
      } else {
        PublishProcessPortChanges(now);
      }
    }

    method DropExpiredPorts(now: nat) returns (s: Settlement)
      requires EventsReady() && Mirrored() && PortsCoherent(ports, portResults)
      modifies this`ports, this`portResults, events
      ensures ExpirySettled(old(Now()), now, s) && ports == s.ports && portResults == s.results
      ensures EventsReady() && Mirrored()
      ensures old(events.shutdownSignalled) ==> events.shutdownSignalled
      ensures Extends(old(events.Past()), events.Past())
    {
      hide EventsReady, MirrorsPorts, SettledFrom, Records, UnexpiredPorts, ExpiredResults, ExpiredEndpoints;
      ExpiryTouchesOnly(ports, now);
      var expired := ExpiredResults(portResults, now);
      s := SettleAndPublish(
        UnexpiredPorts(ports, now), ExpiredEndpoints(ports, now), portResults - expired, expired, {});
    }

    /** Everything that has expired leaves; afterwards every record shows exactly what is still known. */
    method SweepExpired(now: nat)
      requires Valid() && clock <= now
      modifies this`processes, this`ports, this`portResults, this`portAvailability, this`portAvailabilityExpiresAt,
        this`facts, this`clock, events, enrichments, projects
      ensures Valid() && clock == now
      ensures SweepDone(old(Whole()), Whole(), now)
      ensures Balanced(old(ports)) ==> Balanced(ports)
      ensures old(events.shutdownSignalled) ==> events.shutdownSignalled
      ensures Extends(old(events.Past()), events.Past())
    {
      hide Valid, Balanced, ProcessesSwept, PortsSwept, SweepDone, Extends;
      AdvanceClock(now);
      SamePast(events.Past());
      CachedAreKnown();
      FactsAreKept();
      ghost var before := Whole();
      ghost var board := SweepQueues(now);
      ghost var between, past := Whole(), events.Past();
      SweepPortTables(now);
      ExtendsTwice(old(events.Past()), past, events.Past());
      SentSince(old(events.Past()), past, events.Past());
      SweepIsDone(before, between, board, Whole(), now);
    }

    lemma FactsAreKept()
      requires Valid()
      ensures FactsKept(facts, processes)
    {
      hide EventsReady, Mirrored, QueuesReady, ContextReady, PortsShown, RecordsCoherent, PortsCoherent, FactsKept;
    }

    lemma CachedAreKnown()
      requires Valid()
      ensures enrichments.cache.Keys <= processes.Keys
    {
      hide EventsReady, Mirrored, Coherent, ContextReady, EnrichmentQueue.Queue.Valid, ProjectQueue.Queue.Valid,
        ProjectQueue.UpToDate;
    }

    /** Processes that expired leave, and so does what expired in the queues. */
    method SweepQueues(now: nat) returns (ghost board: ProjectQueue.Board)
      requires Valid() && clock == now
      modifies this`processes, this`ports, this`portResults, this`facts, events, enrichments, projects
      ensures Valid()
      ensures ProcessesSwept(old(Whole()), Whole(), board, now)
      ensures Balanced(old(ports)) ==> Balanced(ports)
      ensures old(events.shutdownSignalled) ==> events.shutdownSignalled
      ensures Extends(old(events.Past()), events.Past())
    {
      hide EventsReady, Mirrored, Coherent, OnlyPortsDiffer, Balanced, PortsAfterRemoval, ContextReady, QueuesReady,
        OnlyRefreshed, ExpiredProcesses, ExpiredProofs, Cleared, QueuesSwept;
      board := SweepProcessesAndProofs(now);
    }

    method SweepProcessesAndProofs(now: nat) returns (ghost board: ProjectQueue.Board)
      requires EventsReady() && Mirrored() && QueuesReady() && ContextReady() && Coherent(Now(), now)
      modifies this`processes, this`ports, this`portResults, this`facts, events, enrichments, projects
      ensures EventsReady() && Mirrored() && QueuesReady() && ContextReady() && Coherent(Now(), now)
      ensures var gone := ExpiredProcesses(old(processes), now);
              var cleared := ExpiredProofs(old(projects.cache) - gone, now);
              && OnlyPortsDiffer(Cleared(old(processes) - gone, cleared), processes)
              && facts == old(facts) - gone - cleared && ports == PortsAfterRemoval(old(ports), gone)
              && OnlyRefreshed(old(portResults) - gone, portResults)
              && QueuesSwept(old(Whole()), Whole(), board, gone, cleared, now)
      ensures Balanced(old(ports)) ==> Balanced(ports)
      ensures old(events.shutdownSignalled) ==> events.shutdownSignalled
      ensures Extends(old(events.Past()), events.Past())
    {
      hide EventsReady, Mirrored, Coherent, OnlyPortsDiffer, Balanced, PortsAfterRemoval, ContextReady, QueuesReady,
        OnlyRefreshed, ExpiredProcesses, ExpiredProofs, Revised, ClearRevision, Cleared, QueuesSwept, LookedUp,
        HandledIn, EnrichmentQueue.SameAt, ProjectQueue.SameOnBoard, ProjectQueue.ProofsShrink, Extends;
      ghost var before, gone := Whole(), ExpiredProcesses(processes, now);
      ghost var left := processes - gone;
      SweepProcesses(now);
      ghost var between, forgotten := enrichments.Now(), projects.Now();
      SweepEnrichments(now);
      ghost var survivors, cleared := processes, ExpiredProofs(projects.cache, now);
      board := SweepProjects(old(events.Past()), now);
      ClearedThenRevised(engine, left, survivors, cleared);
      QueuesAreSwept(before, between, forgotten, board, Whole(), gone, cleared, now);
    }

    method SweepEnrichments(now: nat)
      requires QueuesReady()
      modifies enrichments`cache
      ensures QueuesReady()
      ensures enrichments.cache
              == (map k | k in old(enrichments.cache) && old(enrichments.cache)[k].expiresAt > now
                    :: old(enrichments.cache)[k])
    {
      enrichments.SweepCache(now);
    }

    method SweepPortTables(now: nat)
      requires Valid() && clock == now
      modifies this`processes, this`ports, this`portResults, this`portAvailability, this`portAvailabilityExpiresAt,
        events
      ensures Valid()
      ensures PortsSwept(old(Whole()), Whole(), now)
      ensures Balanced(old(ports)) ==> Balanced(ports)
      ensures old(events.shutdownSignalled) ==> events.shutdownSignalled
      ensures Extends(old(events.Past()), events.Past())
    {
      hide EventsReady, Mirrored, OnlyPortsDiffer, Coherent, QueuesReady, Balanced, PortsAfterExpiry, OnlyRefreshed,
        ContextReady, ExpiredResults;
      SweepPortsAndTerm(now);
    }

    /** Ports first, then availability, so that no record is announced with a stale answer. */
    method SweepPortsAndTerm(now: nat)
      requires EventsReady() && Mirrored() && QueuesReady() && ContextReady() && Coherent(Now(), now) && TermReady()
      modifies this`processes, this`ports, this`portResults, this`portAvailability, this`portAvailabilityExpiresAt,
        events
      ensures EventsReady() && Mirrored() && QueuesReady() && ContextReady() && Coherent(Now(), now) && TermReady()
      ensures OnlyPortsDiffer(old(processes), processes) && ports == PortsAfterExpiry(old(ports), now)
      ensures OnlyRefreshed(old(portResults) - ExpiredResults(old(portResults), now), portResults)
      ensures if Due(old(portAvailabilityExpiresAt), now)
              then portAvailability.Unknown? && portAvailabilityExpiresAt.None?
              else
                && portAvailability == old(portAvailability)
                && portAvailabilityExpiresAt == old(portAvailabilityExpiresAt)
      ensures Balanced(old(ports)) ==> Balanced(ports)
      ensures old(events.shutdownSignalled) ==> events.shutdownSignalled
      ensures Extends(old(events.Past()), events.Past())
    {
      hide EventsReady, Mirrored, PortsShown, RecordsCoherent, Directories, OnlyPortsDiffer,
        PortsCoherent, Balanced, PortsAfterExpiry, OnlyRefreshed, ContextReady, ExpiredResults, FactsKept,
        EnrichmentQueue.Queue.Valid, ProjectQueue.Queue.Valid, EnrichmentQueue.StateWithin, ProjectQueue.UpToDate;
      ghost var before, results := processes, portResults;
      SweepPorts(now);
      RefreshedKeys(results - ExpiredResults(results, now), portResults);
      if Due(portAvailabilityExpiresAt, now) {
        ghost var between := processes;
        SetAvailability(Unknown, None, now);
        PortsDifferTwice(before, between, processes);
      }
      OnlyPortsDifferKeeps(facts, before, processes);
    }

    // ----- What clients see -----

    /** What a client knows that folds every update from the start. */
    ghost function Client(): Mirror
      reads events
    {
      Fold(events.sizes, EMPTY_MIRROR, events.sent)
    }

    /** It knows the tables, exactly except for what was too large to publish; if nothing was, it knows them all. */
    ghost predicate ClientAgrees()
      reads this, events
    {
      && Knows(events.sizes, Client(), events.handed, processes, ports, portAvailability)
      && WrongOnlyIfOversized(events.sizes, Client(), events.target, processes, ports, portAvailability)
      && (NothingOversized(events.sizes, events.handed) ==> KnowsAll(Client(), processes, ports, portAvailability))
    }

    /** A client that folds every update from the start agrees with the scheduler after a flush. */
    lemma ClientConverges()
      requires Valid() && events.pending.IsEmpty() && !events.shutdownSignalled
      ensures ClientAgrees()
    {
      hide Coherent, QueuesReady, ContextReady, Fold, MirrorsPorts, Knows, KnowsAll, WrongOnlyIfOversized, Records,
        Publisher.Contiguous, EventPublisher.Group.Accounted, Total, Publishable, NothingOversized, SizedHanded;
      events.FlushedClientKnows();
      PublishedIsKnown(events.sizes, events.handed, processes, ports, portAvailability);
      KnownIsWrongOnlyIfOversized(
        events.sizes, Client(), events.handed, processes, ports, portAvailability);
    }

    method FlushPendingUpdates()
      requires Valid()
      modifies events
      ensures Valid() && events.pending.IsEmpty() && OnlySends(old(Whole()), Whole())
      ensures old(events.shutdownSignalled) ==> events.shutdownSignalled
      ensures Extends(old(events.Past()), events.Past())
    {
      hide Coherent, QueuesReady, ContextReady, MirrorsPorts, Records, Publisher.Valid;
      events.FlushPendingUpdates();
    }

    /**
     A snapshot is taken after a sweep and a flush, so that its sequence number covers everything it
     shows. The port table is shown only while ports are known to be available.
     */
    method TakeSnapshot(now: nat) returns (snapshot: Snapshot)
      requires Valid() && clock <= now
      modifies this`processes, this`ports, this`portResults, this`portAvailability, this`portAvailabilityExpiresAt,
        this`facts, this`clock, events, enrichments, projects
      ensures Valid() && clock == now && events.pending.IsEmpty()
      ensures snapshot.sequence == |events.sent|
      ensures snapshot.records == RecordList(processes)
      ensures snapshot.bindings == match portAvailability
                                   case Known(_) => Known(BindingList(ports))
                                   case Unknown => Unknown
                                   case AccessLimited(reason) => AccessLimited(reason)
                                   case NotSupported => NotSupported
      ensures !events.shutdownSignalled ==>
                forall k ::
                  Lookup(Client().processes, k) == Lookup(Listed(snapshot.records), k)
                  <==> UpToDate(events.handed.processes, MAX_ENTITY_BYTES, k)
      ensures SweepDone(old(Whole()), Whole(), now)
      ensures old(events.shutdownSignalled) ==> events.shutdownSignalled
      ensures Extends(old(events.Past()), events.Past())
    {
      hide Coherent, QueuesReady, ContextReady, EventsReady, Mirrored, Extends, SweepDone;
      ghost var before := Whole();
      SweepExpired(now);
      ghost var past, swept := events.Past(), Whole();
      FlushPendingUpdates();
      ExtendsTwice(old(events.Past()), past, events.Past());
      SentSince(old(events.Past()), past, events.Past());
      SweepThenFlush(before, swept, Whole(), now);
      SequenceIsLength();
      var bindings: FieldValue<seq<PortBinding>> := match portAvailability
        case Known(_) => Known(BindingList(ports))
        case Unknown => Unknown
        case AccessLimited(reason) => AccessLimited(reason)
        case NotSupported => NotSupported;
      snapshot := Snapshot(events.updateSequence, RecordList(processes), bindings);
      if !events.shutdownSignalled {
        SnapshotMatchesStream();
      }
    }

    lemma SequenceIsLength()
      requires Valid()
      ensures events.updateSequence == |events.sent|
    {
      hide Coherent, QueuesReady, ContextReady, Mirrored, Total, Publishable, WellFormedStream, IsHistory;
    }

    /**
     The records of a flushed snapshot are what the stream up to its sequence number folds to, at exactly
     the keys that are up to date.
     */
    lemma SnapshotMatchesStream()
      requires Valid() && events.pending.IsEmpty() && !events.shutdownSignalled
      ensures forall k ::
                Lookup(Client().processes, k) == Lookup(Listed(RecordList(processes)), k)
                <==> UpToDate(events.handed.processes, MAX_ENTITY_BYTES, k)
    {
      hide QueuesReady, ContextReady, EventsReady, Mirrored, Fold, Records, UpToDate, RecordList, Listed, PortsShown,
        PortsCoherent, FactsKept;
      ClientConverges();
      forall k | k in processes ensures processes[k].record.key == k {
        assert RecordCoherent(engine, facts, managedBindings, k, processes[k].record);
      }
      RecordListIsRecords(processes);
    }

    // ----- Tasks -----

    ghost method AdvanceClock(now: nat)
      requires Valid() && clock <= now
      modifies this`clock
      ensures Valid() && clock == now && Whole() == old(Whole())
    {
      hide EventsReady, Mirrored, QueuesReady, ContextReady, PortsShown, RecordsCoherent, FactsKept, PortsCoherent;
      TimePasses(Now(), clock, now);
      clock := now;
    }

    /** A refresh while a scan runs makes the scan run again; it may also ask it to stop. */
    method RequestFastScan(restart: bool)
      modifies this`fastTask, this`fastPending
      ensures ScanAsked(old(fastTask), old(fastPending), restart, fastTask, fastPending)
    {
      if fastTask.Some? {
        fastPending := true;
        fastTask := Some(ScanTask(fastTask.value.cancelled || restart));
        return;
      }
      fastTask := Some(ScanTask(false));
    }

    method RequestPortScan(restart: bool)
      modifies this`portTask, this`portPending
      ensures ScanAsked(old(portTask), old(portPending), restart, portTask, portPending)
    {
      if portTask.Some? {
        portPending := true;
        portTask := Some(ScanTask(portTask.value.cancelled || restart));
        return;
      }
      portTask := Some(ScanTask(false));
    }

    method Fail(operation: Operation, error: ErrorCode)
      requires Valid()
      modifies events
      ensures Valid() && Fails(old(Whole()), Whole(), operation, error)
      ensures old(events.shutdownSignalled) ==> events.shutdownSignalled
      ensures Extends(old(events.Past()), events.Past())
    {
      hide Coherent, QueuesReady, ContextReady, EventsReady, MirrorsPorts, Records;
      PublishFailure(operation, error);
    }

    /** A cancelled scan changes nothing; a refresh requested meanwhile starts the next one. */
    method CompleteFastScan(completion: Completion<seq<ProcessRecord>>, now: nat)
      requires Valid() && clock == now && fastTask.Some?
      modifies this, events, enrichments, projects
      ensures Valid() && clock == now
      ensures ProcessScanEnds(config, old(Whole()), Whole(), completion, now)
      ensures old(events.shutdownSignalled) ==> events.shutdownSignalled
      ensures Extends(old(events.Past()), events.Past())
    {
      hide Valid, ProcessScanResult, Extends;
      SamePast(events.Past());
      var cancelled := fastTask.value.cancelled;
      ClearFastTask();
      ghost var ending := Whole();
      if !cancelled {
        TakeFastCompletion(completion, now);
      }
      ghost var taken := Whole();
      RestartFastScan();
      if !cancelled {
        TaskIsApart(config, ending, taken, completion, now, fastTask, fastPending);
      }
    }

    method ClearFastTask()
      requires Valid()
      modifies this`fastTask
      ensures Valid() && Whole() == old(Whole()).(fastTask := None)
    {
      hide Coherent, QueuesReady, ContextReady, EventsReady, Mirrored;
      fastTask := None;
    }

    method RestartFastScan()
      requires Valid()
      modifies this`fastTask, this`fastPending
      ensures Valid()
      ensures Whole() == old(Whole()).(
                fastTask := if old(fastPending) then Some(ScanTask(false)) else old(fastTask), fastPending := false)
    {
      hide Coherent, QueuesReady, ContextReady, EventsReady, Mirrored;
      if fastPending {
        fastPending := false;
        fastTask := Some(ScanTask(false));
      }
    }

    method TakeFastCompletion(completion: Completion<seq<ProcessRecord>>, now: nat)
      requires Valid() && clock == now
      modifies this`processes, this`ports, this`portResults, this`facts, this`clock, events, enrichments, projects
      ensures Valid() && clock == now
      ensures ProcessScanResult(config, old(Whole()), Whole(), completion, now)
      ensures old(events.shutdownSignalled) ==> events.shutdownSignalled
      ensures Extends(old(events.Past()), events.Past())
    {
      hide Coherent, QueuesReady, ContextReady, EventsReady, Mirrored, FastScanTaken, AcceptedScan, Extends, Balanced;
      SamePast(events.Past());
      if completion.Broken? {
        Fail(FastProcessScan, Internal);
      } else if completion.Finished? && !completion.cancelled {
        var error: Option<ErrorCode>;
        if completion.result.Ok? {
          error := ApplyFastScan(completion.result.value, now);
        } else {
          error := Some(completion.result.error);
        }
        if error.Some? {
          ghost var past := events.Past();
          Fail(FastProcessScan, error.value);
          ExtendsTwice(old(events.Past()), past, events.Past());
        }
      }
    }

    method CompletePortScan(completion: Completion<FieldValue<seq<PortBinding>>>, now: nat)
      requires Valid() && clock == now && portTask.Some?
      modifies this, events
      ensures Valid() && clock == now
      ensures PortScanEnds(config, old(Whole()), Whole(), completion, now)
      ensures old(events.shutdownSignalled) ==> events.shutdownSignalled
      ensures Extends(old(events.Past()), events.Past())
    {
      hide Valid, PortScanResult, Extends;
      SamePast(events.Past());
      var cancelled := portTask.value.cancelled;
      ClearPortTask();
      ghost var ending := Whole();
      if !cancelled {
        TakePortCompletion(completion, now);
      }
      ghost var taken := Whole();
      RestartPortScan();
      if !cancelled {
        PortTaskIsApart(config, ending, taken, completion, now, portTask, portPending);
      }
    }

    method ClearPortTask()
      requires Valid()
      modifies this`portTask
      ensures Valid() && Whole() == old(Whole()).(portTask := None)
    {
      hide Coherent, QueuesReady, ContextReady, EventsReady, Mirrored;
      portTask := None;
    }

    method RestartPortScan()
      requires Valid()
      modifies this`portTask, this`portPending
      ensures Valid()
      ensures Whole() == old(Whole()).(
                portTask := if old(portPending) then Some(ScanTask(false)) else old(portTask), portPending := false)
    {
      hide Coherent, QueuesReady, ContextReady, EventsReady, Mirrored;
      if portPending {
        portPending := false;
        portTask := Some(ScanTask(false));
      }
    }

    method TakePortCompletion(completion: Completion<FieldValue<seq<PortBinding>>>, now: nat)
      requires Valid() && clock == now
      modifies this`processes, this`ports, this`portResults, this`portAvailability, this`portAvailabilityExpiresAt,
        this`clock, events
      ensures Valid() && clock == now
      ensures PortScanResult(config, old(Whole()), Whole(), completion, now)
      ensures old(events.shutdownSignalled) ==> events.shutdownSignalled
      ensures Extends(old(events.Past()), events.Past())
    {
      hide Coherent, QueuesReady, ContextReady, EventsReady, Mirrored, PortsScanned, AcceptedPortScan, Extends;
      SamePast(events.Past());
      if completion.Broken? {
        Fail(PortScan, Internal);
      } else if completion.Finished? && !completion.cancelled {
        var error: Option<ErrorCode>;
        if completion.result.Ok? {
          error := ApplyPortScan(completion.result.value, now);
        } else {
          error := Some(completion.result.error);
        }
        if error.Some? {
          ghost var past := events.Past();
          Fail(PortScan, error.value);
          ExtendsTwice(old(events.Past()), past, events.Past());
        }
      }
    }

    /**
     An enrichment task ends: its result is taken over unless it was cancelled, demand that was merged
     into it meanwhile is requested again, and the free slot is filled. The run leaves the table after its
     result has been applied; nothing in between looks at it.
     */
    method CompleteEnrichment(
      key: ProcessKey, taskId: nat, demand: EnrichmentQueue.Demand, completion: Completion<Enriched>, now: nat)
      requires Valid() && clock == now
      modifies this`processes, this`ports, this`portResults, this`facts, this`clock, events, enrichments, projects
      ensures Valid() && clock == now
      ensures EnrichmentEnds(config, old(Whole()), Whole(), key, taskId, demand, completion, now)
      ensures old(events.shutdownSignalled) ==> events.shutdownSignalled
      ensures Extends(old(events.Past()), events.Past())
    {
      hide Coherent, QueuesReady, ContextReady, EventsReady, Mirrored, EnrichmentResult, EnrichmentsMoveOn, Extends;
      SamePast(events.Past());
      var run := EnrichmentQueue.RunOf(enrichments.running, key, taskId);
      var cancelled := run.Some? && run.value.cancelled;
      if !cancelled {
        var priority := if run.Some? then run.value.priority else EnrichmentQueue.New;
        TakeEnrichmentCompletion(key, demand, priority, completion, now);
      }
      ghost var taken := Whole();
      FollowEnrichment(key, taskId, run, cancelled, now);
      assert EnrichmentsMoveOn(taken, Whole(), key, taskId, now);
    }

    method TakeEnrichmentCompletion(
      key: ProcessKey, demand: EnrichmentQueue.Demand, priority: EnrichmentQueue.Priority,
      completion: Completion<Enriched>, now: nat)
      requires Valid() && clock == now
      modifies this`processes, this`ports, this`portResults, this`facts, this`clock, events, enrichments`cache, projects
      ensures Valid() && clock == now
      ensures EnrichmentResult(config, old(Whole()), Whole(), key, demand, completion, now)
      ensures old(events.shutdownSignalled) ==> events.shutdownSignalled
      ensures Extends(old(events.Past()), events.Past())
    {
      hide Coherent, QueuesReady, ContextReady, EventsReady, Mirrored, Balanced, EnrichmentTaken, Extends;
      SamePast(events.Past());
      if completion.Broken? {
        Fail(Operation.Enrichment(key), Internal);
      } else if completion.Finished? && !completion.cancelled {
        if completion.result.Err? {
          Fail(Operation.Enrichment(key), completion.result.error);
        } else {
          TakeOrRefuse(key, demand, priority, completion.result.value, now);
        }
      }
    }

    method TakeOrRefuse(
      key: ProcessKey, demand: EnrichmentQueue.Demand, priority: EnrichmentQueue.Priority, result: Enriched, now: nat)
      requires Valid() && clock == now
      modifies this`processes, this`ports, this`portResults, this`facts, this`clock, events, enrichments`cache, projects
      ensures Valid() && clock == now
      ensures EnrichmentTaken(config, old(Whole()), Whole(), key, demand, result, now)
      ensures old(events.shutdownSignalled) ==> events.shutdownSignalled
      ensures Extends(old(events.Past()), events.Past())
    {
      hide Coherent, QueuesReady, ContextReady, EventsReady, Mirrored, Balanced, EnrichmentApplied, AcceptedReport,
        ReportFits, ValidInstanceKey, ReportRefused, Extends;
      ghost var before := Whole();
      var error := ApplyEnrichment(key, demand, priority, result, now);
      if error.Some? {
        ghost var past := events.Past();
        Fail(Operation.Enrichment(key), error.value);
        ExtendsTwice(old(events.Past()), past, events.Past());
        RefusedEnrichment(config, before, Whole(), key, demand, result, error.value, now);
      } else if key !in before.tables.processes {
        IgnoredEnrichment(config, before, key, demand, result, now);
      }
    }

    method FollowEnrichment(
      key: ProcessKey, taskId: nat, run: Option<EnrichmentQueue.Run>, cancelled: bool, now: nat)
      requires Valid() && run == EnrichmentQueue.RunOf(enrichments.running, key, taskId)
      requires cancelled == (run.Some? && run.value.cancelled)
      modifies enrichments
      ensures Valid() && EnrichmentsMoveOn(old(Whole()), Whole(), key, taskId, now)
    {
      hide Coherent, QueuesReady, ContextReady, EventsReady, Mirrored, EnrichmentQueue.Served;
      EndRun(key, taskId, run, cancelled, now);
    }

    method EndRun(key: ProcessKey, taskId: nat, run: Option<EnrichmentQueue.Run>, cancelled: bool, now: nat)
      requires QueuesReady() && run == EnrichmentQueue.RunOf(enrichments.running, key, taskId)
      modifies enrichments
      ensures QueuesReady()
      ensures run.Some? && !cancelled && !run.value.started.Covers(run.value.desired) && key in processes ==>
                EnrichmentQueue.Served(enrichments.Now(), key, run.value.desired, now)
      ensures run.Some? ==> EnrichmentQueue.RunOf(enrichments.running, key, taskId).None?
      ensures var before := old(enrichments.Now());
              var waiting := if run.Some? then before.(running := before.running - {key}) else before;
              forall k, d | k in processes && EnrichmentQueue.Served(waiting, k, d, now) ::
                EnrichmentQueue.Served(enrichments.Now(), k, d, now)
    {
      hide ProjectQueue.UpToDate, ProjectQueue.Queue.Valid, EnrichmentQueue.Served;
      var completed := enrichments.ClearRunningTask(key, taskId);
      EnrichmentQueue.EndingStaysWithin(old(enrichments.Now()), enrichments.Now(), processes.Keys);
      enrichments.FollowUp(processes.Keys, key, completed, cancelled, now, taskId);
      PumpEnrichments(key, taskId, now);
    }

    /** Filling the slots loses no demand. */
    method PumpEnrichments(ghost key: ProcessKey, ghost taskId: nat, now: nat)
      requires enrichments.Steady() && enrichments.Within(processes.Keys)
      modifies enrichments
      ensures enrichments.Valid() && enrichments.Within(processes.Keys)
      ensures enrichments.orderingSequence == old(enrichments.orderingSequence)
      ensures old(taskId < enrichments.nextTaskId && EnrichmentQueue.RunOf(enrichments.running, key, taskId).None?) ==>
                EnrichmentQueue.RunOf(enrichments.running, key, taskId).None?
      ensures forall k, d | k in processes && EnrichmentQueue.Served(old(enrichments.Now()), k, d, now) ::
                EnrichmentQueue.Served(enrichments.Now(), k, d, now)
    {
      hide EnrichmentQueue.Filled, EnrichmentQueue.SteadyState, EnrichmentQueue.Served, EnrichmentQueue.StateWithin;
      ghost var before := enrichments.Now();
      enrichments.Pump(processes.Keys, now);
      EnrichmentQueue.FillingStaysWithin(before, enrichments.Now(), processes.Keys, now);
      forall k, d | k in processes && EnrichmentQueue.Served(before, k, d, now)
        ensures EnrichmentQueue.Served(enrichments.Now(), k, d, now)
      {
        EnrichmentQueue.FillingKeepsServed(before, enrichments.Now(), processes.Keys, now, k, d);
      }
      if taskId < before.nextTaskId && EnrichmentQueue.RunOf(before.running, key, taskId).None? {
        EnrichmentQueue.EndedStaysEnded(before, enrichments.Now(), processes.Keys, now, key, taskId);
      }
    }

    method CompleteProjectScan(request: ScanRequest, taskId: nat, completion: Completion<ScanResult>, now: nat)
      requires Valid() && clock == now
      modifies this`processes, this`facts, this`clock, events, projects
      ensures Valid() && clock == now
      ensures ProjectScanEnds(config, platform, old(Whole()), Whole(), request, taskId, completion, now)
      ensures old(events.shutdownSignalled) ==> events.shutdownSignalled
      ensures Extends(old(events.Past()), events.Past())
    {
      hide Coherent, QueuesReady, ContextReady, EventsReady, Mirrored, ProjectScanResult, ScansMoveOn, Extends;
      SamePast(events.Past());
      var scan := ProjectQueue.ScanOf(projects.running, request.key, taskId);
      if scan.None? || !scan.value.cancelled {
        TakeScanCompletion(request, completion, now);
      }
      ghost var taken, past := Whole(), events.Past();
      FollowProjectScan(request.key, taskId, now);
      ExtendsTwice(old(events.Past()), past, events.Past());
      assert ScansMoveOn(taken, Whole(), request.key, taskId, now);
    }

    method TakeScanCompletion(request: ScanRequest, completion: Completion<ScanResult>, now: nat)
      requires Valid() && clock == now
      modifies this`processes, this`facts, this`clock, events, projects`cache
      ensures Valid() && clock == now
      ensures ProjectScanResult(config, platform, old(Whole()), Whole(), request, completion, now)
      ensures old(events.shutdownSignalled) ==> events.shutdownSignalled
      ensures Extends(old(events.Past()), events.Past())
    {
      hide Coherent, QueuesReady, ContextReady, EventsReady, Mirrored, ValidFor, StillWanted, ProjectScanTaken, Extends;
      SamePast(events.Past());
      if completion.Broken? {
        Fail(ProjectAssociation(request.key), Internal);
      } else if completion.Finished? && !completion.cancelled {
        var error: Option<ErrorCode>;
        if completion.result.Ok? {
          error := ApplyProjectScan(request, completion.result.value, now);
        } else {
          error := Some(completion.result.error);
        }
        if error.Some? {
          ghost var past := events.Past();
          Fail(ProjectAssociation(request.key), error.value);
          ExtendsTwice(old(events.Past()), past, events.Past());
        }
      }
    }

    method FollowProjectScan(key: ProcessKey, taskId: nat, now: nat)
      requires Valid()
      modifies events, projects
      ensures Valid() && ScansMoveOn(old(Whole()), Whole(), key, taskId, now)
      ensures old(events.shutdownSignalled) ==> events.shutdownSignalled
      ensures Extends(old(events.Past()), events.Past())
    {
      hide Coherent, ContextReady, EventsReady, QueuesReady, MirrorsPorts, Records, LookedUp, IsHandled, Told,
        ProjectQueue.KeepsHandled, Directories;
      ghost var before := Whole();
      var failed := PumpProjects(key, taskId, now);
      PublishScanFailures(failed);
      HandledIsLookedUp(before, Whole(), failed, key, now);
    }

    /** The run ends, and its slot is filled. */
    method PumpProjects(key: ProcessKey, taskId: nat, now: nat) returns (failed: set<ProcessKey>)
      requires QueuesReady()
      modifies projects
      ensures QueuesReady()
      ensures ProjectQueue.ScanOf(old(projects.running), key, taskId).Some? ==>
                ProjectQueue.ScanOf(projects.running, key, taskId).None?
      ensures ProjectQueue.KeepsHandled(
                old(projects.Now()), projects.Now(), Directories(processes), catalogGeneration, failed, now, {key})
    {
      hide ProjectQueue.UpToDate, ProjectQueue.BoardFilled, EnrichmentQueue.Queue.Valid,
        EnrichmentQueue.StateWithin, Directories, ProjectQueue.KeepsHandled;
      ghost var before, directories := projects.Now(), Directories(processes);
      var found := projects.ClearRunningTask(key, taskId);
      ghost var ended := projects.Now();
      ProjectQueue.EndingIsUpToDate(before, ended, directories, catalogGeneration);
      ProjectQueue.EndingKeepsHandled(before, ended, key, directories, catalogGeneration, now);
      failed := projects.Pump(Directories(processes), catalogGeneration, now);
      ProjectQueue.FilledIsUpToDate(projects.ok, ended, projects.Now(), directories, catalogGeneration, failed, now);
      ProjectQueue.FillingKeepsHandled(projects.ok, ended, projects.Now(), directories, catalogGeneration, failed, now);
      ProjectQueue.HandledTwice(before, ended, projects.Now(), directories, catalogGeneration, failed, now, {key});
      if found.Some? {
        ProjectQueue.EndedStaysEnded(
          projects.ok, ended, projects.Now(), directories, catalogGeneration, failed, now, key, taskId);
      }
    }

    // ----- Commands -----

    /** Processes that a user looks at also get their project looked up. */
    method RequestEnrichment(
      key: ProcessKey, priority: EnrichmentQueue.Priority, demand: EnrichmentQueue.Demand, now: nat)
      returns (status: Result<EnrichmentQueue.Status>)
      requires Valid()
      modifies events, enrichments, projects
      ensures Valid()
      ensures status.Err? <==> key !in processes
      ensures EnrichmentAsked(old(Whole()), Whole(), key, priority, demand, now)
      ensures old(events.shutdownSignalled) ==> events.shutdownSignalled
      ensures Extends(old(events.Past()), events.Past())
    {
      hide Coherent, ContextReady, QueuesReady, EventsReady, MirrorsPorts, Records, EnrichmentQueue.Fresh, LookedUp,
        EnrichmentQueue.MergedOrQueued, EnrichmentQueue.Served, EnrichmentQueue.Asked, HandledIn, Extends;
      SamePast(events.Past());
      status := QueueEnrichment(key, priority, demand, now);
      if status.Ok? && priority.Rank() >= EnrichmentQueue.Priority.Visible.Rank() {
        LookUpProject(key, priority, old(events.Past()), now);
      }
    }

    method CancelEnrichment(key: ProcessKey) returns (found: bool)
      requires Valid()
      modifies enrichments
      ensures Valid() && EnrichmentStopped(old(Whole()), Whole(), key)
      ensures found <==> key in old(enrichments.pending) || key in old(enrichments.running)
      ensures key !in enrichments.pending && (key in enrichments.running ==> enrichments.running[key].cancelled)
    {
      hide Coherent, TermReady, ContextReady, EventsReady, Mirrored, EnrichmentQueue.Queue.Valid,
        EnrichmentQueue.StateWithin, ProjectQueue.Queue.Valid, ProjectQueue.UpToDate, Directories;
      found := StopEnrichment(key);
    }

    method StopEnrichment(key: ProcessKey) returns (found: bool)
      requires enrichments.Valid() && enrichments.Within(processes.Keys)
      modifies enrichments`pending, enrichments`running
      ensures enrichments.Valid() && enrichments.Within(processes.Keys)
      ensures found <==> key in old(enrichments.pending) || key in old(enrichments.running)
      ensures enrichments.pending == old(enrichments.pending) - {key}
      ensures EnrichmentQueue.StopsRun(old(enrichments.running), enrichments.running, key)
    {
      hide EnrichmentQueue.Queue.Valid, EnrichmentQueue.StateWithin, EnrichmentQueue.CancelledIn,
        EnrichmentQueue.StopsRun;
      ghost var before := enrichments.Now();
      found := enrichments.Cancel(key);
      EnrichmentQueue.CancellingStaysWithin(before, enrichments.Now(), key, processes.Keys);
    }

    method CancelProjectEvidence(key: ProcessKey) returns (found: bool)
      requires Valid()
      modifies projects
      ensures Valid() && ProjectStopped(old(Whole()), Whole(), key)
      ensures found <==> key in old(projects.pending) || key in old(projects.running)
      ensures key !in projects.pending && (key in projects.running ==> projects.running[key].cancelled)
    {
      hide Coherent, TermReady, ContextReady, EventsReady, Mirrored, QueuesReady;
      found := StopProjectScan(key);
    }

    method StopProjectScan(key: ProcessKey) returns (found: bool)
      requires QueuesReady()
      modifies projects`pending, projects`running
      ensures QueuesReady()
      ensures found <==> key in old(projects.pending) || key in old(projects.running)
      ensures projects.pending == old(projects.pending) - {key}
      ensures ProjectQueue.StopsScan(old(projects.running), projects.running, key)
    {
      hide EnrichmentQueue.Queue.Valid, EnrichmentQueue.StateWithin, ProjectQueue.UpToDate, ProjectQueue.Queue.Valid,
        ProjectQueue.CancelledScan, ProjectQueue.StopsScan, Directories;
      ghost var before := projects.Now();
      found := projects.Cancel(key);
      ProjectQueue.CancellingIsUpToDate(before, projects.Now(), key, Directories(processes), catalogGeneration);
    }

    method RequestProjectEvidence(key: ProcessKey, priority: EnrichmentQueue.Priority, now: nat)
      returns (status: Result<EnrichmentQueue.Status>)
      requires Valid()
      modifies events, projects
      ensures Valid()
      ensures status == Err(NotFound) <==> key !in processes
      ensures ProjectAsked(config, old(Whole()), Whole(), key, priority, now)
      ensures status.Ok? && WantsScan(processes, old(projects.cache), catalogGeneration, key, now) ==>
                LooksUp(old(Whole()), Whole(), key, now)
      ensures old(events.shutdownSignalled) ==> events.shutdownSignalled
      ensures Extends(old(events.Past()), events.Past())
    {
      hide Coherent, ContextReady, EventsReady, QueuesReady, MirrorsPorts, Records, WantsScan, ProjectAsked, LookedUp,
        HandledIn, ProjectQueue.KeepsHandled, ProjectQueue.MatchRaised, Told, Directories;
      ghost var before := Whole();
      var failed: set<ProcessKey>;
      status, failed := AskProject(key, priority, now);
      PublishScanFailures(failed);
      ProjectIsAsked(config, before, Whole(), status, failed, key, priority, now);
    }

    method AskProject(key: ProcessKey, priority: EnrichmentQueue.Priority, now: nat)
      returns (status: Result<EnrichmentQueue.Status>, failed: set<ProcessKey>)
      requires QueuesReady()
      modifies projects
      ensures QueuesReady()
      ensures status == Err(NotFound) <==> key !in processes
      ensures if !WantsScan(processes, old(projects.cache), catalogGeneration, key, now)
              then failed == {} && projects.Now() == old(projects.Now())
              else
                && ProjectQueue.MatchRaised(
                     old(projects.Now()), projects.Now(), key, priority, processes[key].record.workingDirectory.value,
                     catalogGeneration)
                && (if status.Ok? then HandledIn(processes, projects.Now(), catalogGeneration, key, now)
                  || key in failed
                    else |old(projects.pending) - {key}| + |old(projects.running)| >= projects.capacity)
      ensures ProjectQueue.KeepsHandled(
                old(projects.Now()), projects.Now(), Directories(processes), catalogGeneration, failed, now, {key})
    {
      hide ProjectQueue.UpToDate, ProjectQueue.Queue.Valid, EnrichmentQueue.Queue.Valid, EnrichmentQueue.StateWithin,
        ProjectQueue.KeepsHandled, ProjectQueue.MatchRaised, ProjectQueue.Handled;
      status, failed := projects.Request(Directories(processes), catalogGeneration, key, priority, now);
    }

    /** Cancel every task and drop everything that waits. */
    method CancelAllTasks()
      requires Valid()
      modifies this`fastTask, this`portTask, this`fastPending, this`portPending, enrichments, projects
      ensures Valid() && Stopped(old(Whole()), Whole())
    {
      hide Coherent, ContextReady, EventsReady, Mirrored, QueuesReady;
      CancelScans();
      CancelQueues();
    }

    method CancelScans()
      modifies this`fastTask, this`portTask, this`fastPending, this`portPending
      ensures !fastPending && !portPending
      ensures fastTask == if old(fastTask).Some? then Some(ScanTask(true)) else None
      ensures portTask == if old(portTask).Some? then Some(ScanTask(true)) else None
    {
      if fastTask.Some? {
        fastTask := Some(ScanTask(true));
      }
      if portTask.Some? {
        portTask := Some(ScanTask(true));
      }
      fastPending, portPending := false, false;
    }

    method CancelQueues()
      requires QueuesReady()
      modifies enrichments`pending, enrichments`running, projects`pending, projects`running
      ensures QueuesReady() && enrichments.pending == map[] && projects.pending == map[]
      ensures enrichments.running.Keys == old(enrichments.running).Keys
      ensures forall k | k in enrichments.running :: enrichments.running[k].cancelled
      ensures projects.running.Keys == old(projects.running).Keys
      ensures forall k | k in projects.running :: projects.running[k].cancelled
    {
      hide QueuesReady;
      CancelAllEnrichments();
      CancelAllProjectScans();
    }

    method CancelAllEnrichments()
      requires QueuesReady()
      modifies enrichments`pending, enrichments`running
      ensures QueuesReady() && enrichments.pending == map[]
      ensures enrichments.running.Keys == old(enrichments.running).Keys
      ensures forall k | k in enrichments.running :: enrichments.running[k].cancelled
    {
      hide EnrichmentQueue.SteadyState, EnrichmentQueue.StateWithin, ProjectQueue.Queue.Valid, ProjectQueue.UpToDate,
        Directories;
      ghost var waiting := enrichments.Now();
      enrichments.CancelAll();
      EnrichmentQueue.StoppingStaysWithin(waiting, enrichments.Now(), processes.Keys);
    }

    method CancelAllProjectScans()
      requires QueuesReady()
      modifies projects`pending, projects`running
      ensures QueuesReady() && projects.pending == map[]
      ensures projects.running.Keys == old(projects.running).Keys
      ensures forall k | k in projects.running :: projects.running[k].cancelled
    {
      hide EnrichmentQueue.Queue.Valid, EnrichmentQueue.StateWithin, ProjectQueue.SteadyBoard, ProjectQueue.UpToDate,
        Directories;
      ghost var board := projects.Now();
      projects.CancelAll();
      ProjectQueue.StoppingIsUpToDate(board, projects.Now(), Directories(processes), catalogGeneration);
    }

    // ----- Runs -----

    method HandleCommand(input: Input, now: nat)
      requires Valid() && clock == now && !IsTick(input) && !IsCompletion(input)
      modifies this, events, enrichments, projects
      ensures Valid() && clock == now
      ensures Step(config, platform, old(Whole()), input, now, Whole())
      ensures old(events.shutdownSignalled) ==> events.shutdownSignalled
      ensures Extends(old(events.Past()), events.Past())
    {
      hide Coherent, ContextReady, QueuesReady, EventsReady, Mirrored, TermReady, EnrichmentAsked, EnrichmentStopped,
        ProjectAsked, ProjectStopped, RulesAsked, ContextAsked, ManagedAsked, RefreshAsked, Extends;
      SamePast(events.Past());
      match input
      case Refresh(processScan, portScan, restart) =>
        HandleRefresh(processScan, portScan, restart);
      case EnrichmentRequested(key, priority, demand) =>
        var status := RequestEnrichment(key, priority, demand, now);
      case EnrichmentCancelled(key) =>
        var found := CancelEnrichment(key);
      case ProjectRequested(key, priority) =>
        var status := RequestProjectEvidence(key, priority, now);
      case ProjectCancelled(key) =>
        var found := CancelProjectEvidence(key);
      case RulesReplaced(rules) =>
        var error := ReplaceClassificationRules(rules, now);
      case ContextReplaced(projectList, rules) =>
        var error := ReplaceProjectContext(projectList, rules, now);
      case ManagedReplaced(managed) =>
        var error := ReplaceManagedProcessBindings(managed, now);
    }

    method HandleRefresh(processScan: bool, portScan: bool, restart: bool)
      requires Valid()
      modifies this`fastTask, this`fastPending, this`portTask, this`portPending
      ensures Valid() && RefreshAsked(old(Whole()), Whole(), processScan, portScan, restart)
    {
      hide Coherent, ContextReady, QueuesReady, EventsReady, Mirrored, ScanAsked;
      if processScan {
        RequestFastScan(restart);
      }
      if portScan {
        RequestPortScan(restart);
      }
    }

    method HandleCompletion(input: Input, now: nat)
      requires Valid() && clock == now && IsCompletion(input)
      modifies this, events, enrichments, projects
      ensures Valid() && clock == now
      ensures Step(config, platform, old(Whole()), input, now, Whole())
      ensures old(events.shutdownSignalled) ==> events.shutdownSignalled
      ensures Extends(old(events.Past()), events.Past())
    {
      hide Coherent, TermReady, ContextReady, QueuesReady, EventsReady, Mirrored, ProcessScanEnds, PortScanEnds,
        EnrichmentEnds,
        ProjectScanEnds, Extends;
      SamePast(events.Past());
      match input
      case FastScanDone(completion) =>
        if fastTask.Some? {
          CompleteFastScan(completion, now);
        }
      case PortScanDone(completion) =>
        if portTask.Some? {
          CompletePortScan(completion, now);
        }
      case EnrichmentDone(key, taskId, demand, completion) =>
        CompleteEnrichment(key, taskId, demand, completion, now);
      case ProjectScanDone(request, taskId, completion) =>
        CompleteProjectScan(request, taskId, completion, now);
    }

    /** Whatever wakes the actor does what is stated for it, and nothing else. */
    method Handle(input: Input, now: nat)
      requires Valid() && clock <= now
      modifies this, events, enrichments, projects
      ensures Valid() && clock == now
      ensures Step(config, platform, old(Whole()), input, now, Whole())
      ensures old(events.shutdownSignalled) ==> events.shutdownSignalled
      ensures Extends(old(events.Past()), events.Past())
    {
      hide Valid, Step, Extends;
      AdvanceClock(now);
      SamePast(events.Past());
      if IsTick(input) {
        HandleTick(input, now);
      } else if IsCompletion(input) {
        HandleCompletion(input, now);
      } else {
        HandleCommand(input, now);
      }
    }

    method HandleTick(input: Input, now: nat)
      requires Valid() && clock == now && IsTick(input)
      modifies this, events, enrichments, projects
      ensures Valid() && clock == now
      ensures Step(config, platform, old(Whole()), input, now, Whole())
      ensures old(events.shutdownSignalled) ==> events.shutdownSignalled
      ensures Extends(old(events.Past()), events.Past())
    {
      hide Valid, SweepDone, RefreshAsked, OnlySends, Balanced, Extends;
      SamePast(events.Past());
      match input
      case FastTick => HandleRefresh(true, false, false);
      case PortTick => HandleRefresh(false, true, false);
      case SweepTick => SweepExpired(now);
      case FlushTick => FlushPendingUpdates();
      case SnapshotTaken =>
        var snapshot := TakeSnapshot(now);
    }

    /**
     Any run: whatever wakes the actor, in whatever order, each input does what is stated for it, every table stays
     coherent, and a client that received every update knows them.
     */
    method Run(inputs: seq<Timed>) returns (ghost worlds: seq<World>)
      requires Valid() && InTime(inputs) && (inputs != [] ==> clock <= inputs[0].now)
      modifies this, events, enrichments, projects
      ensures Valid() && events.pending.IsEmpty()
      ensures old(events.shutdownSignalled) ==> events.shutdownSignalled
      ensures Extends(old(events.Past()), events.Past())
      ensures !events.shutdownSignalled ==> ClientAgrees()
      ensures RunsThrough(config, platform, inputs, worlds, old(Whole()), Whole())
      ensures RecordsAreRight(Now(), clock)
    {
      hide Valid, Linked, Stopped, RecordsAreRight, ClientAgrees, Extends;
      worlds := HandleAll(inputs);
      ghost var handled, past := Whole(), events.Past();
      Stop();
      ExtendsTwice(old(events.Past()), past, events.Past());
      assert Stopped(handled, Whole());
      RightNow();
      if !events.shutdownSignalled {
        ClientConverges();
      }
    }

    lemma RightNow()
      requires Valid()
      ensures RecordsAreRight(Now(), clock)
    {
      hide Coherent, TermReady, ContextReady, QueuesReady, EventsReady, Mirrored, RecordsAreRight;
      CoherentAreRight(Now(), clock);
    }

    method HandleAll(inputs: seq<Timed>) returns (ghost worlds: seq<World>)
      requires Valid() && InTime(inputs) && (inputs != [] ==> clock <= inputs[0].now)
      modifies this, events, enrichments, projects
      ensures Valid()
      ensures Linked(config, platform, inputs, worlds, old(Whole()), Whole())
      ensures old(events.shutdownSignalled) ==> events.shutdownSignalled
      ensures Extends(old(events.Past()), events.Past())
    {
      hide Valid, Step, Extends;
      var i := 0;
      SamePast(events.Past());
      worlds := [Whole()];
      while i < |inputs| && !events.shutdownSignalled
        invariant 0 <= i <= |inputs| && Valid() && |worlds| == i + 1
        invariant i < |inputs| ==> clock <= inputs[i].now
        invariant worlds[0] == old(Whole()) && worlds[i] == Whole()
        invariant forall j | 0 <= j < i ::
                    && !worlds[j].halted
                    && Step(config, platform, worlds[j], inputs[j].input, inputs[j].now, worlds[j + 1])
        invariant old(events.shutdownSignalled) ==> events.shutdownSignalled
        invariant Extends(old(events.Past()), events.Past())
      {
        ghost var past := events.Past();
        Handle(inputs[i].input, inputs[i].now);
        ExtendsTwice(old(events.Past()), past, events.Past());
        LinkExtends(config, platform, inputs, worlds, Whole());
        worlds := worlds + [Whole()];
        i := i + 1;
      }
    }

    method Stop()
      requires Valid()
      modifies this`fastTask, this`portTask, this`fastPending, this`portPending, events, enrichments, projects
      ensures Valid() && events.pending.IsEmpty() && Stopped(old(Whole()), Whole())
      ensures old(events.shutdownSignalled) ==> events.shutdownSignalled
      ensures Extends(old(events.Past()), events.Past())
    {
      hide Valid;
      FlushPendingUpdates();
      CancelAllTasks();
    }

    /**
     A client that starts from a snapshot and applies every update after its sequence number. After any run it
     is right about every process that was up to date in the snapshot and is up to date at the end; if nothing
     was too large, that is all of them.
     */
    method SnapshotThenRun(now: nat, inputs: seq<Timed>) returns (snapshot: Snapshot, ghost taken: Trail)
      requires Valid() && clock <= now && InTime(inputs) && (inputs != [] ==> now <= inputs[0].now)
      modifies this, events, enrichments, projects
      ensures Valid() && events.pending.IsEmpty() && snapshot.sequence == |taken.sent|
      ensures Extends(old(events.Past()), taken) && Extends(taken, events.Past())
      ensures Total(taken.handed).processes == Listed(snapshot.records)
      ensures !events.shutdownSignalled ==>
                var known := Fold(
                  events.sizes, EMPTY_MIRROR.(processes := Listed(snapshot.records)), events.sent[snapshot.sequence..]);
                && (forall k |
                      && UpToDate(taken.handed.processes, MAX_ENTITY_BYTES, k)
                      && UpToDate(events.handed.processes, MAX_ENTITY_BYTES, k) ::
                      Lookup(known.processes, k) == Lookup(Records(processes), k))
                && (NothingOversized(events.sizes, events.handed) ==> known.processes == Records(processes))
    {
      hide Coherent, ContextReady, QueuesReady, EventsReady, Mirrored, Fold, Extends, WrongOnlyIfOversized, Listed,
        RecordList, Records, UpToDate, NothingOversized, KnowsAll, InTime, Total, RunsThrough, RecordsAreRight,
        SweepDone;
      snapshot := TakeSnapshot(now);
      ListedWasHanded();
      taken := events.Past();
      ghost var start := EMPTY_MIRROR.(processes := Listed(snapshot.records));
      ghost var worlds := Run(inputs);
      if !events.shutdownSignalled {
        Resynchronized(taken, start);
      }
    }

    /** An enriched command line that outgrows an event is taken over, and no client learns of it. */
    method LongLineStaysBehind(
      result: Enriched, demand: EnrichmentQueue.Demand, priority: EnrichmentQueue.Priority, now: nat)
      requires Valid() && clock <= now && CountsCommandLine(events.sizes)
      requires result.key in processes && ValidInstanceKey(result.key) && result.portBindings.None?
      requires result.commandLine.Known? && JsonString(result.commandLine.value) > MAX_ENTITY_BYTES
      modifies this`processes, this`ports, this`portResults, this`facts, this`clock, events, enrichments`cache, projects
      ensures Valid() && result.key in processes
      ensures processes[result.key].record.commandLine == result.commandLine
      ensures !events.shutdownSignalled ==>
                Lookup(Client().processes, result.key) != Some(processes[result.key].record)
    {
      hide Coherent, ContextReady, QueuesReady, EventsReady, Mirrored, Fold, Extends, Knows, KnowsAll, NothingOversized,
        JsonCharacters, BindingsReported, ResultsStay, FactsStay, LookedUp, KeepsLookingUp,
        EnrichmentQueue.InsertedInto;
      var error := ApplyEnrichment(result.key, demand, priority, result, now);
      FlushPendingUpdates();
      if !events.shutdownSignalled {
        ClientConverges();
      }
    }

    lemma ListedWasHanded()
      requires Valid()
      ensures Total(events.handed).processes == Listed(RecordList(processes))
    {
      hide QueuesReady, ContextReady, MirrorsPorts, Records, RecordList, Listed, PortsShown, PortsCoherent, FactsKept,
        Publisher.Contiguous, Publisher.View, EventPublisher.Group.Accounted, EventPublisher.Group.Bounded,
        EventPublisher.Group.Roomy, Total, Publishable, SizedHanded;
      forall k | k in processes ensures processes[k].record.key == k {
        assert RecordCoherent(engine, facts, managedBindings, k, processes[k].record);
      }
      RecordListIsRecords(processes);
    }

    lemma Resynchronized(taken: Trail, start: Mirror)
      requires Extends(taken, events.Past())
      requires forall k ::
                 Lookup(Fold(events.sizes, EMPTY_MIRROR, taken.sent).processes, k) == Lookup(start.processes, k)
                 <==> UpToDate(taken.handed.processes, MAX_ENTITY_BYTES, k)
      requires Knows(events.sizes, Client(), events.handed, processes, ports, portAvailability)
      ensures var known := Fold(events.sizes, start, events.sent[|taken.sent|..]);
              && (forall k |
                    && UpToDate(taken.handed.processes, MAX_ENTITY_BYTES, k)
                    && UpToDate(events.handed.processes, MAX_ENTITY_BYTES, k) ::
                    Lookup(known.processes, k) == Lookup(Records(processes), k))
              && (NothingOversized(events.sizes, events.handed) ==> known.processes == Records(processes))
    {
      hide Fold, UpToDate, Records;
      var known := Fold(events.sizes, start, events.sent[|taken.sent|..]);
      assert events.sent[..|taken.sent|] == taken.sent;
      forall k |
        UpToDate(taken.handed.processes, MAX_ENTITY_BYTES, k) && UpToDate(events.handed.processes, MAX_ENTITY_BYTES, k)
        ensures Lookup(known.processes, k) == Lookup(Records(processes), k)
      {
        SnapshotResynchronizes(events.sizes, events.sent, |taken.sent|, start, k);
      }
      if NothingOversized(events.sizes, events.handed) {
        forall k ensures Lookup(known.processes, k) == Lookup(Records(processes), k) {
          FittingIsUpToDate(taken.handed.processes, events.handed.processes, MAX_ENTITY_BYTES, k);
          FittingIsUpToDate(events.handed.processes, events.handed.processes, MAX_ENTITY_BYTES, k);
        }
        SameLookups(known.processes, Records(processes));
      }
    }
  }
}
