/** Passes that bring the bindings shown by the records up to date, and what they may skip. */
module PortPasses {
  import opened DiscoveryDomain
  import opened PortIndex
  import opened Classification
  import opened ProcessTable
  import opened PortUpdates

  /** Apart from the bindings shown and what follows from them, the processes are the same. */
  ghost predicate OnlyPortsDiffer(before: Processes, after: Processes) {
    && before.Keys == after.Keys
    && forall k | k in before ::
         && after[k].expiresAt == before[k].expiresAt
         && DiffersInPorts(before[k].record, after[k].record)
  }

  /** The full recomputation of what a record shows about its ports. */
  function PortRevision(t: Tables, now: nat): ProcessRecord -> ProcessRecord {
    (record: ProcessRecord) => WithBindings(t.engine, t.facts, record, PortValue(t, record.key, now))
  }

  /** The shortcut the scheduler takes: nothing is reclassified while the bindings are the same. */
  function PortShortcut(t: Tables, now: nat): ProcessRecord -> ProcessRecord {
    (record: ProcessRecord) =>
      var next := PortValue(t, record.key, now);
      if SamePorts(record.portBindings, next) then record else WithBindings(t.engine, t.facts, record, next)
  }

  lemma PortShortcutIsSound(t: Tables, now: nat, keys: set<ProcessKey>)
    requires RecordsCoherent(t.engine, t.facts, t.bindings, t.processes)
    ensures Revised(t.processes, keys, PortShortcut(t, now)) == Revised(t.processes, keys, PortRevision(t, now))
  {
    hide PortShortcut, PortRevision, RecordCoherent, Revised, Settled;
    var a, b := Revised(t.processes, keys, PortShortcut(t, now)), Revised(t.processes, keys, PortRevision(t, now));
    RevisedKeys(t.processes, keys, PortShortcut(t, now));
    RevisedKeys(t.processes, keys, PortRevision(t, now));
    forall k | k in t.processes ensures a[k] == b[k] {
      assert RecordCoherent(t.engine, t.facts, t.bindings, k, t.processes[k].record);
      RevisedRecord(t.processes, keys, PortShortcut(t, now), k);
      RevisedRecord(t.processes, keys, PortRevision(t, now), k);
      PortShortcutAt(t, now, k, t.processes[k].record);
    }
  }

  lemma PortShortcutAt(t: Tables, now: nat, key: ProcessKey, record: ProcessRecord)
    requires RecordCoherent(t.engine, t.facts, t.bindings, key, record)
    ensures Settled(record, PortShortcut(t, now)(record)) == Settled(record, PortRevision(t, now)(record))
  {
    hide Classify, PortValue, SamePorts;
    if SamePorts(record.portBindings, PortValue(t, key, now)) {
      SkippingSamePortsIsSound(t.engine, t.facts, t.bindings, record, PortValue(t, key, now));
    }
  }

  lemma PortRevisionIsCoherent(t: Tables, now: nat, keys: set<ProcessKey>)
    requires RecordsCoherent(t.engine, t.facts, t.bindings, t.processes)
    requires forall k | k in t.processes && k !in keys ::
               ShowsPorts(t.processes[k].record.portBindings, k, t.availability, t.ports, t.results, now)
    ensures var after := Revised(t.processes, keys, PortRevision(t, now));
            && RecordsCoherent(t.engine, t.facts, t.bindings, after)
            && PortsShown(t.(processes := after), now)
            && OnlyPortsDiffer(t.processes, after)
  {
    hide RecordCoherent, ShowsPorts, PortRevision, Revised, Settled;
    var after := Revised(t.processes, keys, PortRevision(t, now));
    RevisedKeys(t.processes, keys, PortRevision(t, now));
    forall k | k in t.processes
      ensures RecordCoherent(t.engine, t.facts, t.bindings, k, after[k].record)
      ensures ShowsPorts(after[k].record.portBindings, k, t.availability, t.ports, t.results, now)
      ensures after[k].expiresAt == t.processes[k].expiresAt
      ensures DiffersInPorts(t.processes[k].record, after[k].record)
    {
      var record := t.processes[k].record;
      assert RecordCoherent(t.engine, t.facts, t.bindings, k, record);
      RevisedRecord(t.processes, keys, PortRevision(t, now), k);
      if k in keys {
        PortRevisionAt(t, now, k, record);
      }
    }
  }

  /** Apart from the bindings shown and what follows from them, the records are the same. */
  predicate DiffersInPorts(before: ProcessRecord, after: ProcessRecord) {
    after == before.(
      portBindings := after.portBindings, classification := after.classification, projectId := after.projectId)
  }

  lemma PortRevisionAt(t: Tables, now: nat, key: ProcessKey, record: ProcessRecord)
    requires RecordCoherent(t.engine, t.facts, t.bindings, key, record)
    ensures var after := Settled(record, PortRevision(t, now)(record));
            && RecordCoherent(t.engine, t.facts, t.bindings, key, after)
            && ShowsPorts(after.portBindings, key, t.availability, t.ports, t.results, now)
            && DiffersInPorts(record, after)
  {
    hide Classify, ShowsPorts, PortValue, SamePorts;
    var next := PortRevision(t, now)(record);
    ReclassifiedIsCoherent(
      t.engine, t.facts, t.bindings, key, record.(portBindings := PortValue(t, key, now)));
    assert RecordCoherent(t.engine, t.facts, t.bindings, key, next);
    SettledIsCoherent(t.engine, t.facts, t.bindings, key, record, next);
    ComputedPortsAreShown(t, now, key, Settled(record, next).portBindings);
  }

  lemma ComputedPortsAreShown(t: Tables, now: nat, key: ProcessKey, shown: FieldValue<seq<PortBinding>>)
    requires SamePorts(shown, PortValue(t, key, now))
    ensures ShowsPorts(shown, key, t.availability, t.ports, t.results, now)
  {
    ComputedIsShown(shown, key, t.availability, t.ports, t.results, now);
  }

  predicate KeysMatch(processes: Processes) {
    forall k | k in processes :: processes[k].record.key == k
  }

  /** One pass of the shortcut over every record. */
  lemma PortPass(t: Tables, now: nat)
    requires RecordsCoherent(t.engine, t.facts, t.bindings, t.processes)
    ensures forall k | k in t.processes :: PortShortcut(t, now)(t.processes[k].record).key == k
    ensures var after := Revised(t.processes, t.processes.Keys, PortShortcut(t, now));
            && after == Revised(t.processes, t.processes.Keys, PortRevision(t, now))
            && after.Keys == t.processes.Keys
            && RecordsCoherent(t.engine, t.facts, t.bindings, after) && KeysMatch(after)
            && PortsShown(t.(processes := after), now)
            && OnlyPortsDiffer(t.processes, after)
  {
    hide RecordCoherent, ShowsPorts, PortShortcut, PortRevision, Revised, OnlyPortsDiffer;
    PortShortcutIsSound(t, now, t.processes.Keys);
    PortRevisionIsCoherent(t, now, t.processes.Keys);
    var after := Revised(t.processes, t.processes.Keys, PortShortcut(t, now));
    RevisedKeys(t.processes, t.processes.Keys, PortShortcut(t, now));
    forall k | k in t.processes
      ensures PortShortcut(t, now)(t.processes[k].record).key == k && after[k].record.key == k
    {
      CoherentKey(t.engine, t.facts, t.bindings, k, t.processes[k].record);
      PortShortcutKeepsKey(t, now, t.processes[k].record);
      CoherentKey(t.engine, t.facts, t.bindings, k, after[k].record);
    }
  }

  lemma PortShortcutKeepsKey(t: Tables, now: nat, record: ProcessRecord)
    ensures PortShortcut(t, now)(record).key == record.key
  {
    hide Classify, PortValue, SamePorts;
  }

  /** A result is replaced at most by what the table now says; it keeps its age. */
  ghost predicate OnlyRefreshed(before: PortResults, after: PortResults) {
    && before.Keys == after.Keys
    && forall p | p in before ::
         && after[p].expiresAt == before[p].expiresAt
         && (if before[p].value.Known? then after[p].value.Known? else after[p] == before[p])
  }

  /** What a local change does not affect still shows the right bindings. */
  lemma UnaffectedStayShown(
    t: Tables, results: PortResults, s: Settlement, unaffected: set<ProcessKey>, now: nat, later: nat)
    requires PortsShown(t, now) && now <= later && unaffected <= t.processes.Keys
    requires s.results.Keys == results.Keys
    requires forall p | p in unaffected ::
               && (p in results <==> p in t.results)
               && (p in results ==> results[p] == t.results[p] && s.results[p] == results[p])
               && Owned(t.ports, p) == Owned(s.ports, p)
    ensures PortsShown(
              t.(processes := map p | p in unaffected :: t.processes[p], ports := s.ports, results := s.results), later)
  {
    forall p | p in unaffected
      ensures ShowsPorts(t.processes[p].record.portBindings, p, t.availability, s.ports, s.results, later)
    {
      ShownUnaffected(
        t.processes[p].record.portBindings, p, t.availability, t.ports, t.results, now, s.ports, s.results, later);
    }
  }

  function PortsAfterRemoval(ports: Ports, gone: set<ProcessKey>): Ports {
    Rebalanced(WithoutOwners(ports, gone), EndpointsOwnedBy(ports, gone))
  }

  lemma NothingGone(t: Tables)
    ensures t.ports == PortsAfterRemoval(t.ports, {})
    ensures t.results - {} == t.results && OnlyRefreshed(t.results - {}, t.results)
    ensures OnlyPortsDiffer(t.processes, t.processes)
  {
  }

  lemma NothingToRemove(t: Tables, gone: set<ProcessKey>, now: nat)
    requires PortsCoherent(t.ports, t.results) && PortsShown(t, now) && gone !! t.processes.Keys
    requires EndpointsOwnedBy(t.ports, gone) == {}
    ensures t.ports == PortsAfterRemoval(t.ports, gone)
    ensures OnlyRefreshed(t.results - gone, t.results - gone)
    ensures PortsCoherent(t.ports, t.results - gone) && PortsShown(t.(results := t.results - gone), now)
    ensures OnlyPortsDiffer(t.processes, t.processes)
  {
    assert t.ports == WithoutOwners(t.ports, gone) by {
      forall k | k in t.ports ensures k in WithoutOwners(t.ports, gone) {
        assert EndpointOf(k) !in EndpointsOwnedBy(t.ports, gone);
      }
    }
  }

  ghost predicate RemovalSettled(t: Tables, gone: set<ProcessKey>, s: Settlement) {
    SettledFrom(
      t.ports, WithoutOwners(t.ports, gone), EndpointsOwnedBy(t.ports, gone), t.results - gone, {}, gone, s)
  }

  lemma RemovalIsCoherent(t: Tables, gone: set<ProcessKey>, s: Settlement)
    requires PortsCoherent(t.ports, t.results) && RemovalSettled(t, gone, s)
    ensures s.ports == PortsAfterRemoval(t.ports, gone)
    ensures OnlyRefreshed(t.results - gone, s.results) && PortsCoherent(s.ports, s.results)
    ensures Balanced(t.ports) ==> Balanced(s.ports)
    ensures s.results.Keys == t.results.Keys - gone
    ensures forall p | p !in s.affected && p !in gone ::
              && Owned(t.ports, p) == Owned(s.ports, p)
              && (p in t.results ==> s.results[p] == t.results[p])
  {
    hide Owned;
    var results := t.results - gone;
    WithoutOwnersTouches(t.ports, gone);
    SettlementIsCoherent(
      t.ports, WithoutOwners(t.ports, gone), EndpointsOwnedBy(t.ports, gone), results, {}, gone, s);
  }

  lemma RemovalStaysShown(t: Tables, gone: set<ProcessKey>, s: Settlement, now: nat)
    requires PortsCoherent(t.ports, t.results) && RemovalSettled(t, gone, s)
    requires PortsShown(t, now) && gone !! t.processes.Keys && s.affected == {}
    ensures PortsShown(t.(ports := s.ports, results := s.results), now)
  {
    hide PortsCoherent, RemovalSettled, Balanced, OnlyRefreshed, PortsAfterRemoval, Owned, ShowsPorts;
    RemovalIsCoherent(t, gone, s);
    UnaffectedStayShown(t, t.results - gone, s, t.processes.Keys, now, now);
    assert (map p | p in t.processes.Keys :: t.processes[p]) == t.processes;
  }

  lemma OnlyPortsDifferKeeps(facts: FactTable, before: Processes, after: Processes)
    requires OnlyPortsDiffer(before, after)
    ensures after.Keys == before.Keys && Directories(after) == Directories(before)
    ensures FactsKept(facts, before) ==> FactsKept(facts, after)
  {
  }

  function OwnerCheck(): PortBinding -> bool {
    (binding: PortBinding) => ValidOwner(binding)
  }

  /** What a port scan says about availability, and until when. */
  function AvailabilityOf(bindings: FieldValue<seq<PortBinding>>): (r: FieldValue<()>)
    ensures r.Unknown? <==> bindings.Unknown?
  {
    match bindings
    case Known(_) => Known(())
    case Unknown => Unknown
    case AccessLimited(reason) => AccessLimited(reason)
    case NotSupported => NotSupported
  }

  predicate AcceptedPortScan(bindings: FieldValue<seq<PortBinding>>, capacity: nat) {
    bindings.Known? ==> |bindings.value| <= capacity && AcceptedBindings(OwnerCheck(), bindings.value)
  }

  /** What is shown stays shown as time passes. */
  lemma TimePasses(t: Tables, now: nat, later: nat)
    requires PortsShown(t, now) && now <= later
    ensures PortsShown(t, later)
  {
  }
}
