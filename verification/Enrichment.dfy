/** What the result of enriching one process does to the tables. */
module Enrichment {
  import opened DiscoveryDomain
  import opened PortIndex
  import opened Classification
  import opened Project
  import opened ProcessTable
  import opened PortUpdates
  import opened PortPasses

  datatype Enriched = Enriched(
    key: ProcessKey,
    executablePath: FieldValue<string>,
    commandLine: FieldValue<string>,
    workingDirectory: FieldValue<string>,
    accessLevel: Option<nat>,
    portBindings: Option<FieldValue<seq<PortBinding>>>)

  function Reported(value: FieldValue<seq<PortBinding>>): seq<PortBinding> {
    if value.Known? then value.value else []
  }

  predicate AcceptedReport(result: Enriched, capacity: nat) {
    result.portBindings.Some? ==>
      |Reported(result.portBindings.value)| <= capacity
      && AcceptedBindings(Owner(result.key), Reported(result.portBindings.value))
  }

  /** The bindings of everybody else and the reported ones together fit the cache. */
  predicate ReportFits(ports: Ports, result: Enriched, capacity: nat) {
    result.portBindings.Some? ==>
      |WithoutOwners(ports, {result.key})| + |Reported(result.portBindings.value)| <= capacity
  }

  /** The fields that enrichment brings, before ports and classification are recomputed. */
  function EnrichedRecord(record: ProcessRecord, result: Enriched): ProcessRecord {
    var base := record.(
      executablePath := result.executablePath, commandLine := result.commandLine,
      workingDirectory := result.workingDirectory,
      accessLevel := if result.accessLevel.Some? then result.accessLevel.value else record.accessLevel);
    if record.workingDirectory != result.workingDirectory then EvidenceReset(base) else base
  }

  function EnrichmentRevision(t: Tables, result: Enriched, now: nat): ProcessRecord -> ProcessRecord {
    (record: ProcessRecord) =>
      WithBindings(
        t.engine, t.facts, if record.key == result.key then EnrichedRecord(record, result) else record,
        PortValue(t, record.key, now))
  }

  predicate MovedBy(processes: Processes, result: Enriched) {
    result.key in processes && processes[result.key].record.workingDirectory != result.workingDirectory
  }

  /** Facts about a process that changed its directory are forgotten. */
  function FactsAfterEnrichment(facts: FactTable, processes: Processes, result: Enriched): FactTable {
    if MovedBy(processes, result) then facts - {result.key} else facts
  }

  function EnrichedTable(processes: Processes, result: Enriched): Processes {
    if result.key in processes then
      processes[result.key := processes[result.key].(record := EnrichedRecord(processes[result.key].record, result))]
    else processes
  }

  lemma EnrichmentAt(t: Tables, facts: FactTable, result: Enriched, now: nat, key: ProcessKey)
    requires key in t.processes && RecordCoherent(t.engine, facts, t.bindings, key, t.processes[key].record)
    requires t.facts == FactsAfterEnrichment(facts, t.processes, result)
    ensures var record := t.processes[key].record;
            var after := Settled(record, EnrichmentRevision(t, result, now)(record));
            && EnrichmentRevision(t, result, now)(record).key == key
            && RecordCoherent(t.engine, t.facts, t.bindings, key, after)
            && ShowsPorts(after.portBindings, key, t.availability, t.ports, t.results, now)
  {
    hide Classify, ShowsPorts, PortValue, SamePorts, EnrichedRecord, Overlaid, FactsAfterEnrichment, FactsOf;
    var record := t.processes[key].record;
    var base := if key == result.key then EnrichedRecord(record, result) else record;
    var next := EnrichmentRevision(t, result, now)(record);
    EnrichedBase(t, facts, result, key);
    var shown := base.(portBindings := PortValue(t, key, now));
    OverlayIgnoresPorts(t.bindings, base, PortValue(t, key, now));
    ReclassifiedIsCoherent(t.engine, t.facts, t.bindings, key, shown);
    assert RecordCoherent(t.engine, t.facts, t.bindings, key, next);
    SettledIsCoherent(t.engine, t.facts, t.bindings, key, record, next);
    ComputedPortsAreShown(t, now, key, Settled(record, next).portBindings);
  }

  lemma OverlayIgnoresPorts(bindings: Bindings, record: ProcessRecord, ports: FieldValue<seq<PortBinding>>)
    requires record == Overlaid(bindings, record)
    ensures record.(portBindings := ports) == Overlaid(bindings, record.(portBindings := ports))
  {
  }

  /** The enriched record is still overlaid, and its evidence gives the facts that are left. */
  lemma EnrichedBase(t: Tables, facts: FactTable, result: Enriched, key: ProcessKey)
    requires key in t.processes && RecordCoherent(t.engine, facts, t.bindings, key, t.processes[key].record)
    requires t.facts == FactsAfterEnrichment(facts, t.processes, result)
    ensures var record := t.processes[key].record;
            var base := if key == result.key then EnrichedRecord(record, result) else record;
            && base.key == key && base == Overlaid(t.bindings, base)
            && FactsAt(t.facts, key) == FactsOf(base.association, base.features)
  {
    hide Classify;
  }

  lemma EnrichmentKeepsTheRest(t: Tables, result: Enriched, now: nat, record: ProcessRecord)
    ensures var base := if record.key == result.key then EnrichedRecord(record, result) else record;
            var after := Settled(record, EnrichmentRevision(t, result, now)(record));
            after == base.(portBindings := after.portBindings, classification := after.classification,
                           projectId := after.projectId)
  {
    hide Classify;
    var next := EnrichmentRevision(t, result, now)(record);
    if SameRecord(record, next) {
      SameRecordBase(record, next);
    }
  }

  lemma SameRecordBase(a: ProcessRecord, b: ProcessRecord)
    requires SameRecord(a, b) && a.lastSeenRevision == b.lastSeenRevision
    ensures a == b.(portBindings := a.portBindings)
  {
  }

  /** Forgetting the facts of the enriched process does not touch the other records. */
  lemma CoherentUnderFacts(t: Tables, facts: FactTable, result: Enriched, key: ProcessKey)
    requires key in t.processes && RecordCoherent(t.engine, facts, t.bindings, key, t.processes[key].record)
    requires t.facts == FactsAfterEnrichment(facts, t.processes, result)
    ensures key != result.key ==> RecordCoherent(t.engine, t.facts, t.bindings, key, t.processes[key].record)
  {
    hide Classify;
  }

  /** One pass over the affected records: the enriched one, and those whose ports changed with it. */
  lemma EnrichmentPass(t: Tables, facts: FactTable, result: Enriched, affected: set<ProcessKey>, now: nat)
    requires RecordsCoherent(t.engine, facts, t.bindings, t.processes) && FactsKept(facts, t.processes)
    requires t.facts == FactsAfterEnrichment(facts, t.processes, result)
    requires result.key in t.processes && result.key in affected
    requires forall k | k in t.processes && k !in affected ::
               ShowsPorts(t.processes[k].record.portBindings, k, t.availability, t.ports, t.results, now)
    ensures forall k | k in t.processes :: EnrichmentRevision(t, result, now)(t.processes[k].record).key == k
    ensures var after := Revised(t.processes, affected, EnrichmentRevision(t, result, now));
            && RecordsCoherent(t.engine, t.facts, t.bindings, after) && FactsKept(t.facts, after)
            && PortsShown(t.(processes := after), now)
            && after.Keys == t.processes.Keys && KeysMatch(after)
            && OnlyPortsDiffer(EnrichedTable(t.processes, result), after)
  {
    hide RecordCoherent, ShowsPorts, EnrichmentRevision, EnrichedRecord, Settled, Revised;
    RevisedKeys(t.processes, affected, EnrichmentRevision(t, result, now));
    var after := Revised(t.processes, affected, EnrichmentRevision(t, result, now));
    forall k | k in t.processes
      ensures EnrichmentRevision(t, result, now)(t.processes[k].record).key == k
      ensures RecordCoherent(t.engine, t.facts, t.bindings, k, after[k].record)
      ensures ShowsPorts(after[k].record.portBindings, k, t.availability, t.ports, t.results, now)
      ensures after[k].record.key == k
      ensures after[k].expiresAt == EnrichedTable(t.processes, result)[k].expiresAt
      ensures DiffersInPorts(EnrichedTable(t.processes, result)[k].record, after[k].record)
    {
      var record := t.processes[k].record;
      assert RecordCoherent(t.engine, facts, t.bindings, k, record);
      CoherentKey(t.engine, facts, t.bindings, k, record);
      RevisedRecord(t.processes, affected, EnrichmentRevision(t, result, now), k);
      EnrichmentAt(t, facts, result, now, k);
      EnrichmentKeepsTheRest(t, result, now, record);
      CoherentUnderFacts(t, facts, result, k);
      CoherentKey(t.engine, t.facts, t.bindings, k, after[k].record);
    }
  }

  // ----- The bindings that were reported -----

  function ClaimEndpoints(ports: Ports, owner: ProcessKey, bindings: seq<PortBinding>): set<Endpoint> {
    EndpointsOwnedBy(ports, {owner}) + EndpointsOfBindings(bindings)
  }

  function ClaimedTable(ports: Ports, owner: ProcessKey, bindings: seq<PortBinding>, expiresAt: nat): Ports {
    Claimed(WithoutOwners(ports, {owner}), bindings, expiresAt)
  }

  function PortsAfterClaim(ports: Ports, owner: ProcessKey, bindings: seq<PortBinding>, expiresAt: nat): Ports {
    Rebalanced(ClaimedTable(ports, owner, bindings, expiresAt), ClaimEndpoints(ports, owner, bindings))
  }

  ghost predicate ClaimSettled(
    t: Tables, owner: ProcessKey, value: FieldValue<seq<PortBinding>>, expiresAt: nat, s: Settlement)
  {
    SettledFrom(
      t.ports, ClaimedTable(t.ports, owner, Reported(value), expiresAt),
      ClaimEndpoints(t.ports, owner, Reported(value)),
      t.results[owner := PortResult(value, expiresAt)], {owner}, {}, s)
  }

  lemma ClaimIsCoherent(
    t: Tables, owner: ProcessKey, value: FieldValue<seq<PortBinding>>, expiresAt: nat, s: Settlement)
    requires PortsCoherent(t.ports, t.results) && ClaimSettled(t, owner, value, expiresAt, s)
    requires forall i | 0 <= i < |Reported(value)| :: Reported(value)[i].owner == Some(owner)
    ensures s.ports == PortsAfterClaim(t.ports, owner, Reported(value), expiresAt)
    ensures PortsCoherent(s.ports, s.results) && s.results.Keys == t.results.Keys + {owner} && owner in s.affected
    ensures OwnedKeys(s.ports, owner) == KeysOfBindings(Reported(value))
    ensures Balanced(t.ports) ==> Balanced(s.ports)
    ensures forall p | p !in s.affected ::
              && Owned(t.ports, p) == Owned(s.ports, p)
              && (p in t.results ==> p in s.results && s.results[p] == t.results[p])
  {
    hide Owned, Balanced, WellKeyed, PortChanges, TouchesOnly, KeysOfBindings, Claimed, WithoutOwners;
    var changed := ClaimedTable(t.ports, owner, Reported(value), expiresAt);
    var endpoints := ClaimEndpoints(t.ports, owner, Reported(value));
    ClaimReplacesOwned(t.ports, owner, Reported(value), expiresAt);
    SettlementIsCoherent(
      t.ports, changed, endpoints, t.results[owner := PortResult(value, expiresAt)], {owner}, {}, s);
    assert OwnedKeys(s.ports, owner) == OwnedKeys(changed, owner);
  }

  lemma ClaimRefreshes(
    t: Tables, owner: ProcessKey, value: FieldValue<seq<PortBinding>>, expiresAt: nat, s: Settlement)
    requires ClaimSettled(t, owner, value, expiresAt, s)
    ensures OnlyRefreshed(t.results[owner := PortResult(value, expiresAt)], s.results)
  {
    hide Owned, ClaimedTable, ClaimEndpoints, Rebalanced, PortChanges, OwnersAt;
  }

  lemma ClaimStaysShown(
    t: Tables, owner: ProcessKey, value: FieldValue<seq<PortBinding>>, expiresAt: nat, s: Settlement, now: nat)
    requires PortsCoherent(t.ports, t.results) && ClaimSettled(t, owner, value, expiresAt, s)
    requires forall i | 0 <= i < |Reported(value)| :: Reported(value)[i].owner == Some(owner)
    requires PortsShown(t, now)
    ensures forall p | p in t.processes && p !in s.affected ::
              ShowsPorts(t.processes[p].record.portBindings, p, t.availability, s.ports, s.results, now)
  {
    hide PortsCoherent, ClaimSettled, Balanced, PortsAfterClaim, Owned, ShowsPorts;
    ClaimIsCoherent(t, owner, value, expiresAt, s);
    var unaffected := t.processes.Keys - s.affected;
    var results := t.results[owner := PortResult(value, expiresAt)];
    assert s.results.Keys == results.Keys;
    UnaffectedStayShown(t, results, s, unaffected, now, now);
    var kept := map p | p in unaffected :: t.processes[p];
    forall p | p in t.processes && p !in s.affected
      ensures ShowsPorts(t.processes[p].record.portBindings, p, t.availability, s.ports, s.results, now)
    {
      assert p in kept && kept[p] == t.processes[p];
    }
  }

  lemma EnrichedDirectories(before: Processes, after: Processes, result: Enriched)
    requires result.key in before && OnlyPortsDiffer(EnrichedTable(before, result), after)
    ensures after.Keys == before.Keys
    ensures after[result.key].record.workingDirectory == result.workingDirectory
    ensures forall k | k in Directories(before) && k !in (if MovedBy(before, result) then {result.key} else {}) ::
              k in Directories(after) && Directories(after)[k] == Directories(before)[k]
  {
  }
}
