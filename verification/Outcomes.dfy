/** What an input does to the tables, field by field and without the functions that compute it. */
module Outcomes {
  import opened DiscoveryDomain
  import opened PortIndex
  import opened Classification
  import opened Project
  import opened ProcessTable
  import opened FastScan
  import opened PortUpdates
  import opened PortPasses
  import opened Enrichment
  import opened ContextPasses
  import opened Expiry
  import KeyOrder
  import ProjectQueue

  // ----- Bindings -----

  predicate SharesEndpoint(a: PortKey, b: PortKey) {
    a.protocol == b.protocol && a.family == b.family && a.address == b.address && a.port == b.port
  }

  /** Nobody known, or shared with somebody else, or exact. */
  ghost predicate RightConfidence(ports: Ports, key: PortKey)
    requires key in ports
  {
    var others := exists other :: other in ports && SharesEndpoint(other, key) && other.owner != key.owner;
    var confidence := ports[key].binding.confidence;
    && (confidence == UnknownOwner <==> key.owner.None?)
    && (confidence == Shared <==> key.owner.Some? && others)
  }

  predicate SameButConfidence(before: PortEntry, after: PortEntry) {
    after == before.(binding := before.binding.(confidence := after.binding.confidence))
  }

  /** Bindings leave; whoever shared an endpoint with one of them is rated again, and nothing else changes. */
  ghost predicate BindingsLeave(before: Ports, after: Ports, gone: set<PortKey>) {
    && (forall k :: k in after <==> k in before && k !in gone)
    && (forall k | k in after ::
          && SameButConfidence(before[k], after[k])
          && (if exists other :: other in before && other in gone && SharesEndpoint(other, k)
              then RightConfidence(after, k) else after[k] == before[k]))
  }

  lemma ConfidenceIsRight(ports: Ports, endpoints: set<Endpoint>, key: PortKey)
    requires key in ports && EndpointOf(key) in endpoints
    ensures key in Rebalanced(ports, endpoints) && RightConfidence(Rebalanced(ports, endpoints), key)
  {
    var after := Rebalanced(ports, endpoints);
    assert after.Keys == ports.Keys;
    forall other ensures SharesEndpoint(other, key) <==> EndpointOf(other) == EndpointOf(key) {
    }
  }

  lemma RebalancingKeeps(ports: Ports, endpoints: set<Endpoint>)
    ensures Rebalanced(ports, endpoints).Keys == ports.Keys
    ensures forall k | k in ports ::
              && SameButConfidence(ports[k], Rebalanced(ports, endpoints)[k])
              && (EndpointOf(k) !in endpoints ==> Rebalanced(ports, endpoints)[k] == ports[k])
  {
  }

  /** Dropping bindings and rating their endpoints again. */
  lemma DroppingLeaves(before: Ports, left: Ports, gone: set<PortKey>, endpoints: set<Endpoint>)
    requires forall k :: k in left <==> k in before && k !in gone
    requires forall k | k in left :: left[k] == before[k]
    requires forall e :: e in endpoints <==> exists k :: k in before && k in gone && EndpointOf(k) == e
    ensures BindingsLeave(before, Rebalanced(left, endpoints), gone)
  {
    hide Rebalanced, RightConfidence;
    var after := Rebalanced(left, endpoints);
    RebalancingKeeps(left, endpoints);
    forall k | k in after
      ensures if exists other :: other in before && other in gone && SharesEndpoint(other, k)
              then RightConfidence(after, k) else after[k] == before[k]
    {
      if EndpointOf(k) in endpoints {
        var other :| other in before && other in gone && EndpointOf(other) == EndpointOf(k);
        assert SharesEndpoint(other, k);
        ConfidenceIsRight(left, endpoints, k);
      } else {
        forall other | other in before && other in gone ensures !SharesEndpoint(other, k) {
          assert EndpointOf(other) in endpoints;
        }
      }
    }
  }

  /** The bindings of some owners. */
  function KeysOwnedBy(ports: Ports, owners: set<ProcessKey>): set<PortKey> {
    set k | k in ports && k.owner.Some? && k.owner.value in owners
  }

  function KeysExpired(ports: Ports, now: nat): set<PortKey> {
    set k | k in ports && ports[k].expiresAt <= now
  }

  lemma RemovalLeaves(ports: Ports, owners: set<ProcessKey>)
    ensures BindingsLeave(ports, PortsAfterRemoval(ports, owners), KeysOwnedBy(ports, owners))
  {
    hide Rebalanced, BindingsLeave;
    DroppingLeaves(ports, WithoutOwners(ports, owners), KeysOwnedBy(ports, owners), EndpointsOwnedBy(ports, owners));
  }

  lemma ExpiryLeaves(ports: Ports, now: nat)
    ensures BindingsLeave(ports, PortsAfterExpiry(ports, now), KeysExpired(ports, now))
  {
    hide Rebalanced, BindingsLeave;
    var gone := KeysExpired(ports, now);
    forall e ensures e in ExpiredEndpoints(ports, now) <==> exists k :: k in ports && k in gone && EndpointOf(k) == e {
    }
    DroppingLeaves(ports, UnexpiredPorts(ports, now), gone, ExpiredEndpoints(ports, now));
  }

  lemma LeavingTwice(a: Ports, b: Ports, c: Ports, first: set<PortKey>, second: set<PortKey>)
    requires BindingsLeave(a, b, first) && BindingsLeave(b, c, second)
    ensures BindingsLeave(a, c, first + second)
  {
    forall k | k in c
      ensures SameButConfidence(a[k], c[k])
      ensures if exists other :: other in a && other in first + second && SharesEndpoint(other, k)
              then RightConfidence(c, k) else c[k] == a[k]
    {
      if exists other :: other in b && other in second && SharesEndpoint(other, k) {
      } else {
        forall other | other in b && SharesEndpoint(other, k) ensures other in c {
        }
      }
    }
  }

  /** The bindings another report of a process involves: the reported ones, and those it had. */
  predicate Involves(before: Ports, owner: ProcessKey, bindings: seq<PortBinding>, key: PortKey) {
    (exists i :: 0 <= i < |bindings| && KeyOf(bindings[i]) == key) || (key in before && key.owner == Some(owner))
  }

  /** A process's bindings become the reported ones; everybody at an endpoint involved is rated again. */
  ghost predicate BindingsReported(
    before: Ports, after: Ports, owner: ProcessKey, bindings: seq<PortBinding>, expiresAt: nat)
  {
    && (forall k :: k in after <==> (exists i :: 0 <= i < |bindings| && KeyOf(bindings[i]) == k)
                                    || (k in before && k.owner != Some(owner)))
    && (forall i | 0 <= i < |bindings| ::
          SameButConfidence(PortEntry(bindings[i], expiresAt), after[KeyOf(bindings[i])]))
    && (forall k | k in after && !Involves(before, owner, bindings, k) :: SameButConfidence(before[k], after[k]))
    && (forall k | k in after ::
          if exists other :: Involves(before, owner, bindings, other) && SharesEndpoint(other, k)
          then RightConfidence(after, k) else k in before && after[k] == before[k])
  }

  /** A scanned table: unchanged bindings keep the time of their first observation. */
  ghost predicate BindingsScanned(before: Ports, after: Ports, bindings: seq<PortBinding>, expiresAt: nat) {
    && (forall k :: k in after <==> exists i :: 0 <= i < |bindings| && KeyOf(bindings[i]) == k)
    && (forall i | 0 <= i < |bindings| ::
          var key := KeyOf(bindings[i]);
          && key in after && after[key].expiresAt == expiresAt
          && (if key in before
                 && before[key].binding == bindings[i].(observedAt := before[key].binding.observedAt)
              then after[key].binding == before[key].binding else after[key].binding == bindings[i]))
  }

  lemma ScanIsTaken(before: Ports, after: Ports, bindings: seq<PortBinding>, expiresAt: nat)
    requires ScannedTable(before, bindings, expiresAt, after)
    ensures BindingsScanned(before, after, bindings, expiresAt)
  {
    forall k ensures k in after <==> exists i :: 0 <= i < |bindings| && KeyOf(bindings[i]) == k {
    }
  }

  lemma {:induction false} ClaimedAt(ports: Ports, bindings: seq<PortBinding>, expiresAt: nat, i: nat)
    requires forall i, j | 0 <= i < j < |bindings| :: KeyOf(bindings[i]) != KeyOf(bindings[j])
    requires i < |bindings|
    ensures KeyOf(bindings[i]) in Claimed(ports, bindings, expiresAt)
    ensures Claimed(ports, bindings, expiresAt)[KeyOf(bindings[i])]
            == PortEntry(bindings[i].(confidence := Exact), expiresAt)
    decreases |bindings|
  {
    if i < |bindings| - 1 {
      ClaimedAt(ports, bindings[..|bindings| - 1], expiresAt, i);
    }
  }

  lemma ClaimedAgain(ports: Ports, owner: ProcessKey, bindings: seq<PortBinding>, expiresAt: nat)
    requires forall i, j | 0 <= i < j < |bindings| :: KeyOf(bindings[i]) != KeyOf(bindings[j])
    ensures var changed := ClaimedTable(ports, owner, bindings, expiresAt);
            && (forall k :: k in changed <==> (exists i :: 0 <= i < |bindings| && KeyOf(bindings[i]) == k)
                                              || (k in ports && k.owner != Some(owner)))
            && (forall i | 0 <= i < |bindings| ::
                  SameButConfidence(PortEntry(bindings[i], expiresAt), changed[KeyOf(bindings[i])]))
            && (forall k | k in changed && !Involves(ports, owner, bindings, k) :: k in ports && changed[k] == ports[k])
  {
    hide Claimed;
    var left := WithoutOwners(ports, {owner});
    ClaimedKeys(left, bindings, expiresAt);
    forall i | 0 <= i < |bindings|
      ensures SameButConfidence(
                PortEntry(bindings[i], expiresAt), Claimed(left, bindings, expiresAt)[KeyOf(bindings[i])])
    {
      ClaimedAt(left, bindings, expiresAt, i);
    }
    forall k ensures k in KeysOfBindings(bindings) <==> exists i :: 0 <= i < |bindings| && KeyOf(bindings[i]) == k {
    }
  }

  lemma ClaimIsReported(ports: Ports, owner: ProcessKey, bindings: seq<PortBinding>, expiresAt: nat)
    requires forall i, j | 0 <= i < j < |bindings| :: KeyOf(bindings[i]) != KeyOf(bindings[j])
    ensures BindingsReported(ports, PortsAfterClaim(ports, owner, bindings, expiresAt), owner, bindings, expiresAt)
  {
    hide Rebalanced, RightConfidence, ClaimedTable, ClaimEndpoints, Involves, SharesEndpoint;
    var changed, endpoints := ClaimedTable(ports, owner, bindings, expiresAt), ClaimEndpoints(ports, owner, bindings);
    ClaimedAgain(ports, owner, bindings, expiresAt);
    RebalancingKeeps(changed, endpoints);
    forall k | k in changed
      ensures var after := Rebalanced(changed, endpoints);
              if exists other :: Involves(ports, owner, bindings, other) && SharesEndpoint(other, k)
              then RightConfidence(after, k) else k in ports && after[k] == ports[k]
    {
      InvolvedEndpoints(ports, owner, bindings, k);
      if EndpointOf(k) in endpoints {
        ConfidenceIsRight(changed, endpoints, k);
      }
    }
  }

  lemma InvolvedEndpoints(ports: Ports, owner: ProcessKey, bindings: seq<PortBinding>, key: PortKey)
    ensures EndpointOf(key) in ClaimEndpoints(ports, owner, bindings)
            <==> exists other :: Involves(ports, owner, bindings, other) && SharesEndpoint(other, key)
    ensures Involves(ports, owner, bindings, key) ==> EndpointOf(key) in ClaimEndpoints(ports, owner, bindings)
  {
    forall other ensures SharesEndpoint(other, key) <==> EndpointOf(other) == EndpointOf(key) {
    }
    forall other
      ensures other in KeysOfBindings(bindings) <==> exists i :: 0 <= i < |bindings| && KeyOf(bindings[i]) == other
    {
    }
  }

  // ----- Records -----

  /** Without proof, the evidence says as much as the directory does. */
  predicate NothingProven(record: ProcessRecord) {
    match record.workingDirectory
    case AccessLimited(reason) => record.association == Limited(reason) && record.features == Limited(reason)
    case NotSupported => record.association.Unsupported? && record.features.Unsupported?
    case Known(_) => record.association.Undetermined? && record.features.Undetermined?
    case Unknown => record.association.Undetermined? && record.features.Undetermined?
  }

  lemma ResetProves(record: ProcessRecord)
    ensures NothingProven(EvidenceReset(record))
    ensures EvidenceReset(record)
            == record.(association := EvidenceReset(record).association, features := EvidenceReset(record).features)
  {
  }

  /** What a scan does not observe is kept. */
  predicate Observes(after: FieldValue<string>, scanned: FieldValue<string>, cached: Option<FieldValue<string>>) {
    after == if scanned.Unknown? && cached.Some? then cached.value else scanned
  }

  /**
   A scanned record: observed fields are the scanned ones, ownership follows the managed processes, and what was
   proven in another directory is forgotten.
   */
  ghost predicate RecordScanned(
    cached: Option<ProcessRecord>, bindings: Bindings, scanned: ProcessRecord, after: ProcessRecord)
  {
    && after.key == scanned.key && after.observation == scanned.observation
    && after.executableName == scanned.executableName && after.accessLevel == scanned.accessLevel
    && Observes(
         after.executablePath, scanned.executablePath,
         if cached.Some? then Some(cached.value.executablePath) else None)
    && Observes(
         after.commandLine, scanned.commandLine, if cached.Some? then Some(cached.value.commandLine) else None)
    && Observes(
         after.workingDirectory, scanned.workingDirectory,
         if cached.Some? then Some(cached.value.workingDirectory) else None)
    && (after.ownership.Managed? <==> scanned.key in bindings)
    && after.managedRunId == (if scanned.key in bindings then Some(bindings[scanned.key]) else None)
    && (if cached.Some? && cached.value.workingDirectory == after.workingDirectory
        then after.association == cached.value.association && after.features == cached.value.features
        else NothingProven(after))
    && after.lastSeenRevision == (if cached.Some? then cached.value.lastSeenRevision else 0)
  }

  lemma ObservedIsScanned(t: Tables, scanned: ProcessRecord, now: nat)
    ensures RecordScanned(CachedRecord(t, scanned.key), t.bindings, scanned, Observed(t, scanned, now))
  {
    hide Classify, PortValue, SamePorts, WithoutTimes, FactsAt;
    var cached := CachedRecord(t, scanned.key);
    if cached.Some? {
      var c := cached.value;
      var base := Overlaid(t.bindings, Normalized(scanned, cached));
      var moved := c.workingDirectory != base.workingDirectory;
      var next := Reclassified(
        t.engine, if moved then NO_FACTS else FactsAt(t.facts, scanned.key),
        if moved then EvidenceReset(base) else base);
      if SameRecord(c, next) {
        SameRecordBase(c, next);
      }
    }
  }

  /** Facts stay with the processes that stay in their directory. */
  ghost predicate FactsStay(before: Tables, after: Tables) {
    && (forall k :: k in after.facts
                    <==> && k in before.facts && k in after.processes
                         && (k in before.processes ==>
                               before.processes[k].record.workingDirectory
                               == after.processes[k].record.workingDirectory))
    && (forall k | k in after.facts :: after.facts[k] == before.facts[k])
  }

  /** What is known about a process's bindings is at most listed anew. */
  ghost predicate ResultsStay(before: PortResults, after: PortResults, gone: set<ProcessKey>) {
    && (forall p :: p in after <==> p in before && p !in gone)
    && (forall p | p in after ::
          && after[p].expiresAt == before[p].expiresAt
          && (if before[p].value.Known? then after[p].value.Known? else after[p].value == before[p].value))
  }

  ghost predicate SameContext(before: Tables, after: Tables) {
    after.engine == before.engine && after.bindings == before.bindings && after.availability == before.availability
  }

  /** An accepted process scan. */
  ghost predicate ProcessesScanned(before: Tables, after: Tables, scan: seq<ProcessRecord>, expiresAt: nat) {
    var gone := before.processes.Keys - after.processes.Keys;
    && (forall k :: k in after.processes <==> exists i :: 0 <= i < |scan| && scan[i].key == k)
    && (forall i | 0 <= i < |scan| ::
          && after.processes[scan[i].key].expiresAt == expiresAt
          && RecordScanned(
               CachedRecord(before, scan[i].key), before.bindings, scan[i], after.processes[scan[i].key].record))
    && FactsStay(before, after) && SameContext(before, after)
    && BindingsLeave(before.ports, after.ports, KeysOwnedBy(before.ports, gone))
    && ResultsStay(before.results, after.results, gone)
  }

  lemma PortsDoNotMatter(
    cached: Option<ProcessRecord>, bindings: Bindings, scanned: ProcessRecord, a: ProcessRecord, b: ProcessRecord)
    requires RecordScanned(cached, bindings, scanned, a) && DiffersInPorts(a, b)
    ensures RecordScanned(cached, bindings, scanned, b)
  {
  }

  lemma ScanIsApplied(
    before: Tables, after: Tables, scan: seq<ProcessRecord>, now: nat, expiresAt: nat, observed: Processes)
    requires TableFrom(Observer(before, now), scan, expiresAt, observed) && OnlyPortsDiffer(observed, after.processes)
    requires after.facts == FactsAfter(before.facts, before.processes, observed) && SameContext(before, after)
    requires after.ports == PortsAfterRemoval(before.ports, before.processes.Keys - observed.Keys)
    requires OnlyRefreshed(before.results - (before.processes.Keys - observed.Keys), after.results)
    ensures ProcessesScanned(before, after, scan, expiresAt)
  {
    hide Observed, RecordScanned, PortsAfterRemoval, BindingsLeave, KeysOwnedBy;
    RemovalLeaves(before.ports, before.processes.Keys - observed.Keys);
    forall i | 0 <= i < |scan|
      ensures RecordScanned(
                CachedRecord(before, scan[i].key), before.bindings, scan[i], after.processes[scan[i].key].record)
    {
      ObservedIsScanned(before, scan[i], now);
      PortsDoNotMatter(
        CachedRecord(before, scan[i].key), before.bindings, scan[i], observed[scan[i].key].record,
        after.processes[scan[i].key].record);
    }
  }

  /** Apart from the bindings shown and what follows from them, the processes are the same. */
  ghost predicate SameButPorts(before: Processes, after: Processes) {
    && (forall k :: k in after <==> k in before)
    && (forall k | k in after ::
          && after[k].expiresAt == before[k].expiresAt
          && after[k].record == before[k].record.(
               portBindings := after[k].record.portBindings, classification := after[k].record.classification,
               projectId := after[k].record.projectId))
  }

  /** An accepted port scan. */
  ghost predicate PortsScanned(before: Tables, after: Tables, bindings: FieldValue<seq<PortBinding>>, expiresAt: nat) {
    && SameButPorts(before.processes, after.processes) && after.facts == before.facts
    && after.engine == before.engine && after.bindings == before.bindings
    && (match bindings
        case Known(list) =>
          && after.availability == Known(()) && after.results == map[]
          && BindingsScanned(before.ports, after.ports, list, expiresAt)
        case Unknown => after.availability.Unknown? && after.ports == before.ports && after.results == before.results
        case AccessLimited(reason) =>
          after.availability == AccessLimited(reason) && after.ports == before.ports && after.results == before.results
        case NotSupported =>
          after.availability.NotSupported? && after.ports == before.ports && after.results == before.results)
  }

  lemma PortScanIsApplied(before: Tables, after: Tables, bindings: FieldValue<seq<PortBinding>>, expiresAt: nat)
    requires after.availability == AvailabilityOf(bindings) && OnlyPortsDiffer(before.processes, after.processes)
    requires after.facts == before.facts && after.engine == before.engine && after.bindings == before.bindings
    requires bindings.Known? ==>
               ScannedTable(before.ports, bindings.value, expiresAt, after.ports) && after.results == map[]
    requires !bindings.Known? ==> after.ports == before.ports && after.results == before.results
    ensures PortsScanned(before, after, bindings, expiresAt)
  {
    hide ScannedTable, BindingsScanned;
    if bindings.Known? {
      ScanIsTaken(before.ports, after.ports, bindings.value, expiresAt);
    }
  }

  /** What enrichment found replaces what was known; what was proven in another directory is forgotten. */
  ghost predicate RecordEnriched(before: ProcessRecord, result: Enriched, after: ProcessRecord) {
    && after == before.(
         executablePath := result.executablePath, commandLine := result.commandLine,
         workingDirectory := result.workingDirectory,
         accessLevel := (if result.accessLevel.Some? then result.accessLevel.value else before.accessLevel),
         association := after.association, features := after.features,
         portBindings := after.portBindings, classification := after.classification, projectId := after.projectId)
    && (if before.workingDirectory == result.workingDirectory
        then after.association == before.association && after.features == before.features else NothingProven(after))
  }

  /** An accepted enrichment of a process that is there. */
  ghost predicate ProcessEnriched(before: Tables, after: Tables, result: Enriched, expiresAt: nat) {
    && result.key in before.processes && SameContext(before, after)
    && (forall k :: k in after.processes <==> k in before.processes)
    && (forall k | k in after.processes ::
          && after.processes[k].expiresAt == before.processes[k].expiresAt
          && (if k == result.key
              then RecordEnriched(before.processes[k].record, result, after.processes[k].record)
              else DiffersInPorts(before.processes[k].record, after.processes[k].record)))
    && FactsStay(before, after)
    && (match result.portBindings
        case None => after.ports == before.ports && after.results == before.results
        case Some(value) =>
          && BindingsReported(
               before.ports, after.ports, result.key, if value.Known? then value.value else [], expiresAt)
          && ResultsStay(before.results[result.key := PortResult(value, expiresAt)], after.results, {}))
  }

  lemma EnrichedIs(before: Processes, after: Processes, result: Enriched)
    requires result.key in before && OnlyPortsDiffer(EnrichedTable(before, result), after)
    ensures forall k :: k in after <==> k in before
    ensures forall k | k in after ::
              && after[k].expiresAt == before[k].expiresAt
              && (if k == result.key then RecordEnriched(before[k].record, result, after[k].record)
                  else DiffersInPorts(before[k].record, after[k].record))
  {
    hide EvidenceReset;
    EnrichedRecordIs(before[result.key].record, result);
  }

  lemma EnrichedRecordIs(record: ProcessRecord, result: Enriched)
    ensures RecordEnriched(record, result, EnrichedRecord(record, result))
  {
  }

  lemma EnrichmentKeepsFacts(before: Tables, after: Tables, result: Enriched)
    requires result.key in before.processes && FactsKept(before.facts, before.processes)
    requires OnlyPortsDiffer(EnrichedTable(before.processes, result), after.processes)
    requires after.facts == FactsAfterEnrichment(before.facts, before.processes, result)
    ensures FactsStay(before, after)
  {
    hide OnlyPortsDiffer, EnrichedTable;
    EnrichedIs(before.processes, after.processes, result);
  }

  lemma EnrichmentIsApplied(before: Tables, after: Tables, result: Enriched, capacity: nat, expiresAt: nat)
    requires result.key in before.processes && SameContext(before, after) && FactsKept(before.facts, before.processes)
    requires AcceptedReport(result, capacity)
    requires OnlyPortsDiffer(EnrichedTable(before.processes, result), after.processes)
    requires after.facts == FactsAfterEnrichment(before.facts, before.processes, result)
    requires result.portBindings.None? ==> after.ports == before.ports && after.results == before.results
    requires result.portBindings.Some? ==>
               && after.ports
                  == PortsAfterClaim(before.ports, result.key, Reported(result.portBindings.value), expiresAt)
               && OnlyRefreshed(
                    before.results[result.key := PortResult(result.portBindings.value, expiresAt)], after.results)
    ensures ProcessEnriched(before, after, result, expiresAt)
  {
    hide PortsAfterClaim, BindingsReported, OnlyPortsDiffer, EnrichedTable, FactsAfterEnrichment, FactsStay,
      RecordEnriched,
      DiffersInPorts;
    EnrichedIs(before.processes, after.processes, result);
    EnrichmentKeepsFacts(before, after, result);
    if result.portBindings.Some? {
      var bindings := Reported(result.portBindings.value);
      AcceptedBindingsAreDistinct(Owner(result.key), bindings);
      ClaimIsReported(before.ports, result.key, bindings, expiresAt);
    }
  }

  /** A revision that leaves ports and revision alone is taken over as it is. */
  lemma SettledIsNext(record: ProcessRecord, next: ProcessRecord)
    requires next.portBindings == record.portBindings && next.lastSeenRevision == record.lastSeenRevision
    ensures Settled(record, next) == next
  {
    if SameRecord(record, next) {
      SameRecordBase(record, next);
    }
  }

  /** Apart from what follows from the rules, the record is the same. */
  predicate SameButClassification(before: ProcessRecord, after: ProcessRecord) {
    after == before.(classification := after.classification, projectId := after.projectId)
  }

  /** The record says what a scan proved. */
  predicate RecordProven(before: ProcessRecord, result: ScanResult, after: ProcessRecord) {
    after == before.(
      association := result.association, features := result.features,
      classification := after.classification, projectId := after.projectId)
  }

  /** The record says that nothing is proven. */
  predicate RecordCleared(before: ProcessRecord, after: ProcessRecord) {
    && NothingProven(after)
    && after == before.(
         association := after.association, features := after.features,
         classification := after.classification, projectId := after.projectId)
  }

  lemma ScanRevisionIs(engine: Engine, result: ScanResult, record: ProcessRecord)
    ensures RecordProven(record, result, Settled(record, ScanRevision(engine, result)(record)))
  {
    hide Classify, Settled, FactsOf;
    SettledIsNext(record, ScanRevision(engine, result)(record));
  }

  lemma RulesRevisionIs(engine: Engine, facts: FactTable, record: ProcessRecord)
    ensures SameButClassification(record, Settled(record, RulesRevision(engine, facts)(record)))
  {
    hide Classify, Settled, FactsAt;
    SettledIsNext(record, RulesRevision(engine, facts)(record));
  }

  lemma ClearRevisionIs(engine: Engine, record: ProcessRecord)
    ensures RecordCleared(record, Settled(record, ClearRevision(engine)(record)))
  {
    hide Classify, Settled;
    ResetProves(record);
    SettledIsNext(record, ClearRevision(engine)(record));
  }

  /** A result says who the project is, and by which marker it was recognized. */
  predicate FactsFound(result: ScanResult, facts: Option<Facts>) {
    var project := if result.association.Proven? then Some(result.association.value.projectId) else None;
    var marker := if result.features.Proven? && result.features.value != [] then Some(result.features.value[0].markerId)
                  else None;
    facts == if project.None? && marker.None? then None else Some(Facts(project, marker))
  }

  /** A wanted project scan; at most one other process loses its proof for it. */
  ghost predicate EvidenceFound(
    before: Tables, after: Tables, key: ProcessKey, result: ScanResult, evicted: Option<ProcessKey>)
  {
    && key in before.processes && SameContext(before, after)
    && after.ports == before.ports && after.results == before.results
    && (forall k :: k in after.processes <==> k in before.processes)
    && (forall k | k in after.processes ::
          && after.processes[k].expiresAt == before.processes[k].expiresAt
          && var was, next := before.processes[k].record, after.processes[k].record;
             if k == key then RecordProven(was, result, next)
             else if evicted == Some(k) then RecordCleared(was, next)
             else next == was)
    && FactsFound(result, if key in after.facts then Some(after.facts[key]) else None)
    && (forall k | k != key :: k in after.facts <==> k in before.facts && evicted != Some(k))
    && (forall k | k != key && k in after.facts :: after.facts[k] == before.facts[k])
  }

  lemma ProjectScanIsApplied(
    before: Tables, after: Tables, key: ProcessKey, result: ScanResult, evicted: Option<ProcessKey>)
    requires key in before.processes && evicted != Some(key) && SameContext(before, after)
    requires after.ports == before.ports && after.results == before.results
    requires var gone := if evicted.Some? then {evicted.value} else {};
             && after.processes == Revised(
                  Revised(before.processes, {key}, ScanRevision(before.engine, result)), gone,
                  ClearRevision(before.engine))
             && after.facts == WithFacts(before.facts, key, FactsOf(result.association, result.features)) - gone
    ensures EvidenceFound(before, after, key, result, evicted)
  {
    hide Classify, Settled, ScanRevision, ClearRevision, RecordProven, RecordCleared, Revised;
    var scanned := Revised(before.processes, {key}, ScanRevision(before.engine, result));
    var gone := if evicted.Some? then {evicted.value} else {};
    RevisedKeys(before.processes, {key}, ScanRevision(before.engine, result));
    RevisedKeys(scanned, gone, ClearRevision(before.engine));
    forall k | k in before.processes
      ensures after.processes[k].expiresAt == before.processes[k].expiresAt
      ensures var was, next := before.processes[k].record, after.processes[k].record;
              if k == key then RecordProven(was, result, next)
              else if evicted == Some(k) then RecordCleared(was, next)
              else next == was
    {
      RevisedRecord(before.processes, {key}, ScanRevision(before.engine, result), k);
      RevisedRecord(scanned, gone, ClearRevision(before.engine), k);
      ScanRevisionIs(before.engine, result, before.processes[k].record);
      ClearRevisionIs(before.engine, before.processes[k].record);
    }
  }

  // ----- Sweeps -----

  ghost predicate RecordSwept(before: ProcessRecord, after: ProcessRecord, proofExpired: bool) {
    && after == before.(
         association := after.association, features := after.features,
         portBindings := after.portBindings, classification := after.classification, projectId := after.projectId)
    && (if proofExpired then NothingProven(after)
        else after.association == before.association && after.features == before.features)
  }

  /** Whatever has expired at `now` is gone, and nothing else. */
  ghost predicate TablesSwept(before: Tables, after: Tables, proofs: map<ProcessKey, ProjectQueue.Proof>, now: nat) {
    && (forall k :: k in after.processes <==> k in before.processes && before.processes[k].expiresAt > now)
    && (forall k | k in after.processes ::
          && after.processes[k].expiresAt == before.processes[k].expiresAt
          && RecordSwept(
               before.processes[k].record, after.processes[k].record, k in proofs && proofs[k].expiresAt <= now))
    && (forall k :: k in after.facts
                    <==> k in before.facts && k in after.processes && !(k in proofs && proofs[k].expiresAt <= now))
    && (forall k | k in after.facts :: after.facts[k] == before.facts[k])
    && BindingsLeave(
         before.ports, after.ports,
         set k | k in before.ports
                 && (before.ports[k].expiresAt <= now
                     || (k.owner.Some? && k.owner.value in before.processes && k.owner.value !in after.processes)))
    && ResultsStay(
         before.results, after.results,
         set p | p in before.results
                 && (before.results[p].expiresAt <= now || (p in before.processes && p !in after.processes)))
    && after.engine == before.engine && after.bindings == before.bindings
  }

  lemma ClearedIsSwept(left: Processes, cleared: set<ProcessKey>, after: Processes)
    requires OnlyPortsDiffer(Cleared(left, cleared), after)
    ensures forall k :: k in after <==> k in left
    ensures forall k | k in after ::
              after[k].expiresAt == left[k].expiresAt && RecordSwept(left[k].record, after[k].record, k in cleared)
  {
    hide EvidenceReset;
    forall k | k in after
      ensures k in left && after[k].expiresAt == left[k].expiresAt
      ensures RecordSwept(left[k].record, after[k].record, k in cleared)
    {
      assert k in Cleared(left, cleared);
      ResetProves(left[k].record);
    }
  }

  lemma PortsAreSwept(ports: Ports, gone: set<ProcessKey>, swept: Ports, after: Ports, now: nat)
    requires swept == PortsAfterRemoval(ports, gone) && after == PortsAfterExpiry(swept, now)
    ensures BindingsLeave(
              ports, after,
              set k | k in ports && (ports[k].expiresAt <= now || (k.owner.Some? && k.owner.value in gone)))
  {
    hide PortsAfterRemoval, PortsAfterExpiry, RightConfidence;
    RemovalLeaves(ports, gone);
    ExpiryLeaves(swept, now);
    LeavingTwice(ports, swept, after, KeysOwnedBy(ports, gone), KeysExpired(swept, now));
    assert KeysOwnedBy(ports, gone) + KeysExpired(swept, now)
           == set k | k in ports && (ports[k].expiresAt <= now || (k.owner.Some? && k.owner.value in gone));
  }

  lemma SweepIsApplied(
    before: Tables, after: Tables, proofs: map<ProcessKey, ProjectQueue.Proof>, swept: Ports, now: nat)
    requires FactsKept(before.facts, before.processes)
    requires after.engine == before.engine && after.bindings == before.bindings
    requires var gone := ExpiredProcesses(before.processes, now);
             var cleared := ExpiredProofs(proofs - gone, now);
             && OnlyPortsDiffer(Cleared(before.processes - gone, cleared), after.processes)
             && after.facts == before.facts - gone - cleared
             && swept == PortsAfterRemoval(before.ports, gone) && after.ports == PortsAfterExpiry(swept, now)
    requires ResultsStay(
               before.results, after.results,
               set p | p in before.results
                       && (before.results[p].expiresAt <= now || p in ExpiredProcesses(before.processes, now)))
    ensures TablesSwept(before, after, proofs, now)
  {
    hide PortsAfterRemoval, PortsAfterExpiry, BindingsLeave, OnlyPortsDiffer, RecordSwept, ResultsStay;
    var gone := ExpiredProcesses(before.processes, now);
    var cleared := ExpiredProofs(proofs - gone, now);
    ClearedIsSwept(before.processes - gone, cleared, after.processes);
    PortsAreSwept(before.ports, gone, swept, after.ports, now);
    assert (set k | k in before.ports
                    && (before.ports[k].expiresAt <= now
                        || (k.owner.Some? && k.owner.value in before.processes && k.owner.value !in after.processes)))
           == (set k | k in before.ports
                       && (before.ports[k].expiresAt <= now || (k.owner.Some? && k.owner.value in gone)));
    assert (set p | p in before.results
                    && (before.results[p].expiresAt <= now || (p in before.processes && p !in after.processes)))
           == (set p | p in before.results && (before.results[p].expiresAt <= now || p in gone));
  }

  // ----- Rules, projects and ownership -----

  /** New rules change classifications, and nothing else. */
  ghost predicate RulesTaken(before: Tables, after: Tables, snapshot: RulesSnapshot) {
    && EngineTaken(after.engine, snapshot)
    && (forall k :: k in after.processes <==> k in before.processes)
    && (forall k | k in after.processes ::
          && after.processes[k].expiresAt == before.processes[k].expiresAt
          && SameButClassification(before.processes[k].record, after.processes[k].record))
    && after.facts == before.facts && after.bindings == before.bindings && after.availability == before.availability
    && after.ports == before.ports && after.results == before.results
  }

  /** Threshold and projects are the given ones; the enabled rules are there, in evaluation order. */
  ghost predicate EngineTaken(engine: Engine, snapshot: RulesSnapshot) {
    && engine.threshold == snapshot.threshold
    && (forall id :: id in engine.known <==> id in snapshot.projectIds)
    && (forall r :: r in engine.rules <==> r in snapshot.rules && r.enabled)
    && (forall i, j | 0 <= i < j < |engine.rules| ::
          || engine.rules[i].priority > engine.rules[j].priority
          || (engine.rules[i].priority == engine.rules[j].priority
              && KeyOrder.StringLess(engine.rules[i].id, engine.rules[j].id)))
  }

  lemma RulesAreTaken(snapshot: RulesSnapshot)
    requires ValidSnapshot(snapshot)
    ensures EngineTaken(
              Engine(snapshot.threshold, Elements(snapshot.projectIds), SortRules(snapshot.rules)), snapshot)
  {
    hide SortRules;
    SortRulesIsSorted(snapshot.rules);
  }

  lemma RulesAreApplied(before: Tables, after: Tables, snapshot: RulesSnapshot)
    requires ValidSnapshot(snapshot)
    requires after.engine == Engine(snapshot.threshold, Elements(snapshot.projectIds), SortRules(snapshot.rules))
    requires after.processes
             == Revised(before.processes, before.processes.Keys, RulesRevision(after.engine, before.facts))
    requires after == before.(engine := after.engine, processes := after.processes)
    ensures RulesTaken(before, after, snapshot)
  {
    hide Classify, Settled, RulesRevision, SortRules, Revised, EngineTaken;
    RulesAreTaken(snapshot);
    RevisedKeys(before.processes, before.processes.Keys, RulesRevision(after.engine, before.facts));
    forall k | k in before.processes
      ensures after.processes[k].expiresAt == before.processes[k].expiresAt
      ensures SameButClassification(before.processes[k].record, after.processes[k].record)
    {
      RevisedRecord(before.processes, before.processes.Keys, RulesRevision(after.engine, before.facts), k);
      RulesRevisionIs(after.engine, before.facts, before.processes[k].record);
    }
  }

  /** A new catalog and new rules: nothing is proven any more. */
  ghost predicate ContextTaken(before: Tables, after: Tables, snapshot: RulesSnapshot) {
    && EngineTaken(after.engine, snapshot) && after.facts == map[]
    && (forall k :: k in after.processes <==> k in before.processes)
    && (forall k | k in after.processes ::
          && after.processes[k].expiresAt == before.processes[k].expiresAt
          && RecordCleared(before.processes[k].record, after.processes[k].record))
    && after.bindings == before.bindings && after.availability == before.availability
    && after.ports == before.ports && after.results == before.results
  }

  lemma ContextIsApplied(before: Tables, after: Tables, snapshot: RulesSnapshot)
    requires ValidSnapshot(snapshot)
    requires after.engine == Engine(snapshot.threshold, Elements(snapshot.projectIds), SortRules(snapshot.rules))
    requires after.processes == Revised(before.processes, before.processes.Keys, ClearRevision(after.engine))
    requires after == before.(engine := after.engine, processes := after.processes, facts := map[])
    ensures ContextTaken(before, after, snapshot)
  {
    hide Classify, Settled, ClearRevision, SortRules, Revised, EngineTaken, RecordCleared;
    RulesAreTaken(snapshot);
    RevisedKeys(before.processes, before.processes.Keys, ClearRevision(after.engine));
    forall k | k in before.processes
      ensures after.processes[k].expiresAt == before.processes[k].expiresAt
      ensures RecordCleared(before.processes[k].record, after.processes[k].record)
    {
      RevisedRecord(before.processes, before.processes.Keys, ClearRevision(after.engine), k);
      ClearRevisionIs(after.engine, before.processes[k].record);
    }
  }

  /** The managed processes are the given ones, and records say so. */
  ghost predicate OwnershipTaken(before: Tables, after: Tables) {
    && (forall k :: k in after.processes <==> k in before.processes)
    && (forall k | k in after.processes ::
          && after.processes[k].expiresAt == before.processes[k].expiresAt
          && RecordOwned(before.processes[k].record, after.bindings, k, after.processes[k].record))
    && after == before.(processes := after.processes, bindings := after.bindings)
  }

  predicate RecordOwned(before: ProcessRecord, bindings: Bindings, key: ProcessKey, after: ProcessRecord) {
    && (after.ownership.Managed? <==> key in bindings)
    && after.managedRunId == (if key in bindings then Some(bindings[key]) else None)
    && after == before.(
         ownership := after.ownership, managedRunId := after.managedRunId,
         classification := after.classification, projectId := after.projectId)
  }

  lemma OwnershipRevisionIs(engine: Engine, facts: FactTable, bindings: Bindings, record: ProcessRecord)
    ensures RecordOwned(
              record, bindings, record.key, Settled(record, OwnershipRevision(engine, facts, bindings)(record)))
  {
    hide Classify, Settled, FactsAt;
    SettledIsNext(record, OwnershipRevision(engine, facts, bindings)(record));
  }

  lemma OwnershipIsApplied(before: Tables, after: Tables)
    requires forall k | k in before.processes :: before.processes[k].record.key == k
    requires after.processes == Revised(
               before.processes, before.processes.Keys, OwnershipRevision(before.engine, before.facts, after.bindings))
    requires after == before.(processes := after.processes, bindings := after.bindings)
    ensures OwnershipTaken(before, after)
  {
    hide Classify, Settled, OwnershipRevision, Revised, RecordOwned;
    var revision := OwnershipRevision(before.engine, before.facts, after.bindings);
    RevisedKeys(before.processes, before.processes.Keys, revision);
    forall k | k in before.processes
      ensures after.processes[k].expiresAt == before.processes[k].expiresAt
      ensures RecordOwned(before.processes[k].record, after.bindings, k, after.processes[k].record)
    {
      RevisedRecord(before.processes, before.processes.Keys, revision, k);
      OwnershipRevisionIs(before.engine, before.facts, after.bindings, before.processes[k].record);
    }
  }

  // ----- What every record says -----

  /** The bindings that a process owns, in key order and up to observation times. */
  ghost predicate ListsOwned(bindings: seq<PortBinding>, ports: Ports, process: ProcessKey) {
    && (forall i | 0 <= i < |bindings| ::
          var key := KeyOf(bindings[i]);
          key.owner == Some(process) && key in ports && SamePort(ports[key].binding, bindings[i]))
    && (forall k | k in ports && k.owner == Some(process) :: exists i :: 0 <= i < |bindings| && KeyOf(bindings[i]) == k)
    && (forall i, j | 0 <= i < j < |bindings| :: KeyOrder.PortLess(KeyOf(bindings[i]), KeyOf(bindings[j])))
  }

  lemma OwnedAreListed(shown: FieldValue<seq<PortBinding>>, ports: Ports, process: ProcessKey)
    requires WellKeyed(ports) && SamePorts(shown, Known(Owned(ports, process)))
    ensures shown.Known? && ListsOwned(shown.value, ports, process)
  {
    hide Owned, KeyOrder.PortLess;
    var owned := Owned(ports, process);
    OwnedIsSortedSelection(ports, process);
    SameOneByOne(shown, owned);
    forall k | k in ports && k.owner == Some(process)
      ensures exists i :: 0 <= i < |shown.value| && KeyOf(shown.value[i]) == k
    {
      var i :| 0 <= i < |owned| && owned[i] == ports[k].binding;
      assert KeyOf(shown.value[i]) == k;
    }
  }

  lemma SameOneByOne(shown: FieldValue<seq<PortBinding>>, bindings: seq<PortBinding>)
    requires SamePorts(shown, Known(bindings))
    ensures shown.Known? && |shown.value| == |bindings|
    ensures forall i | 0 <= i < |bindings| ::
              SamePort(bindings[i], shown.value[i]) && KeyOf(shown.value[i]) == KeyOf(bindings[i])
  {
    var times := WithoutTimes(shown);
    forall i | 0 <= i < |bindings|
      ensures SamePort(bindings[i], shown.value[i]) && KeyOf(shown.value[i]) == KeyOf(bindings[i])
    {
      assert times.value[i] == WithoutTime(shown.value[i]) == WithoutTime(bindings[i]);
      assert KeyOf(shown.value[i]) == KeyOf(WithoutTime(shown.value[i]));
      assert KeyOf(bindings[i]) == KeyOf(WithoutTime(bindings[i]));
    }
  }

  /** What is known about ports decides what is shown: the owned bindings, or why there are none. */
  ghost predicate Answers<T>(
    known: FieldValue<T>, shown: FieldValue<seq<PortBinding>>, ports: Ports, process: ProcessKey)
  {
    match known
    case Known(_) => shown.Known? && ListsOwned(shown.value, ports, process)
    case Unknown => shown.Unknown?
    case AccessLimited(reason) => shown == AccessLimited(reason)
    case NotSupported => shown.NotSupported?
  }

  /** What a process reported about its own ports counts until it expires, and then what is known about all ports. */
  ghost predicate PortsAreRight(t: Tables, key: ProcessKey, shown: FieldValue<seq<PortBinding>>, now: nat) {
    if key !in t.results then Answers(t.availability, shown, t.ports, key)
    else
      || Answers(t.results[key].value, shown, t.ports, key)
      || (t.results[key].expiresAt <= now && Answers(t.availability, shown, t.ports, key))
  }

  /** The facts that a record's evidence amounts to. */
  predicate FactsAreRight(record: ProcessRecord, facts: Option<Facts>) {
    var project := if record.association.Proven? then Some(record.association.value.projectId) else None;
    var marker := if record.features.Proven? && record.features.value != [] then Some(record.features.value[0].markerId)
                  else None;
    facts == if project.None? && marker.None? then None else Some(Facts(project, marker))
  }

  /** What every record says, whatever shortcuts led to it. */
  ghost predicate RecordIsRight(t: Tables, key: ProcessKey, now: nat)
    requires key in t.processes
  {
    var r := t.processes[key].record;
    && r.key == key
    && (r.ownership.Managed? <==> key in t.bindings)
    && r.managedRunId == (if key in t.bindings then Some(t.bindings[key]) else None)
    && FactsAreRight(r, if key in t.facts then Some(t.facts[key]) else None)
    && Decided(
         t.engine, r, if key in t.facts then t.facts[key] else Facts(None, None),
         Decision(r.classification, r.projectId))
    && PortsAreRight(t, key, r.portBindings, now)
  }

  ghost predicate RecordsAreRight(t: Tables, now: nat) {
    forall k | k in t.processes :: RecordIsRight(t, k, now)
  }

  /** In coherent tables each record says what it has to, field by field. */
  lemma CoherentAreRight(t: Tables, now: nat)
    requires Coherent(t, now)
    ensures RecordsAreRight(t, now)
  {
    hide Coherent, RecordIsRight;
    forall k | k in t.processes ensures RecordIsRight(t, k, now) {
      CoherentIsRight(t, k, now);
    }
  }

  lemma CoherentIsRight(t: Tables, key: ProcessKey, now: nat)
    requires Coherent(t, now) && key in t.processes
    ensures RecordIsRight(t, key, now)
  {
    hide Classify, Decided, PortsAreRight;
    var r := t.processes[key].record;
    assert RecordCoherent(t.engine, t.facts, t.bindings, key, r);
    ClassificationIsDecided(t.engine, r, FactsAt(t.facts, key));
    ShownIsRight(t, key, now);
  }

  lemma ShownIsRight(t: Tables, key: ProcessKey, now: nat)
    requires PortsShown(t, now) && PortsCoherent(t.ports, t.results) && key in t.processes
    ensures PortsAreRight(t, key, t.processes[key].record.portBindings, now)
  {
    hide ListsOwned, Owned;
    var shown := t.processes[key].record.portBindings;
    if SamePorts(shown, Known(Owned(t.ports, key))) {
      OwnedAreListed(shown, t.ports, key);
    }
  }
}
