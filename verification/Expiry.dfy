/** What leaves the tables when its time is up. */
module Expiry {
  import opened DiscoveryDomain
  import opened KeyOrder
  import opened PortIndex
  import opened Classification
  import opened ProcessTable
  import opened PortUpdates
  import opened PortPasses
  import ContextPasses
  import Enrichment
  import ProjectQueue

  function ExpiredProcesses(processes: Processes, now: nat): (r: set<ProcessKey>)
    ensures r <= processes.Keys
  {
    set k | k in processes && processes[k].expiresAt <= now
  }

  function ExpiredResults(results: PortResults, now: nat): set<ProcessKey> {
    set p | p in results && results[p].expiresAt <= now
  }

  function ExpiredPorts(ports: Ports, now: nat): set<PortKey> {
    set k | k in ports && ports[k].expiresAt <= now
  }

  function ExpiredProofs(cache: map<ProcessKey, ProjectQueue.Proof>, now: nat): set<ProcessKey> {
    set k | k in cache && cache[k].expiresAt <= now
  }

  function UnexpiredPorts(ports: Ports, now: nat): Ports {
    map k | k in ports && ports[k].expiresAt > now :: ports[k]
  }

  function ExpiredEndpoints(ports: Ports, now: nat): set<Endpoint> {
    EndpointsOf(ExpiredPorts(ports, now))
  }

  function PortsAfterExpiry(ports: Ports, now: nat): Ports {
    Rebalanced(UnexpiredPorts(ports, now), ExpiredEndpoints(ports, now))
  }

  lemma ExpiryTouchesOnly(ports: Ports, now: nat)
    ensures TouchesOnly(ports, UnexpiredPorts(ports, now), ExpiredEndpoints(ports, now))
    ensures WellKeyed(ports) ==> WellKeyed(UnexpiredPorts(ports, now))
    ensures forall k | k in PortsAfterExpiry(ports, now) :: PortsAfterExpiry(ports, now)[k].expiresAt > now
  {
  }

  ghost predicate ExpirySettled(t: Tables, now: nat, s: Settlement) {
    SettledFrom(
      t.ports, UnexpiredPorts(t.ports, now), ExpiredEndpoints(t.ports, now),
      t.results - ExpiredResults(t.results, now), ExpiredResults(t.results, now), {}, s)
  }

  lemma ExpiryIsCoherent(t: Tables, now: nat, s: Settlement)
    requires PortsCoherent(t.ports, t.results) && ExpirySettled(t, now, s)
    ensures s.ports == PortsAfterExpiry(t.ports, now)
    ensures PortsCoherent(s.ports, s.results)
    ensures OnlyRefreshed(t.results - ExpiredResults(t.results, now), s.results)
    ensures forall p | p in s.results :: s.results[p].expiresAt > now
    ensures Balanced(t.ports) ==> Balanced(s.ports)
    ensures s.affected == {} ==>
              && ExpiredResults(t.results, now) == {}
              && s.results.Keys == t.results.Keys
              && forall p ::
                   && Owned(t.ports, p) == Owned(s.ports, p)
                   && (p in t.results ==> s.results[p] == t.results[p])
  {
    hide Owned, Balanced, WellKeyed, UnexpiredPorts, ExpiredEndpoints, Rebalanced, PortChanges, TouchesOnly;
    var expired := ExpiredResults(t.results, now);
    ExpiryTouchesOnly(t.ports, now);
    SettlementIsCoherent(
      t.ports, UnexpiredPorts(t.ports, now), ExpiredEndpoints(t.ports, now), t.results - expired, expired, {}, s);
    if s.affected == {} {
      assert forall p | p in expired :: p in s.affected;
      assert t.results - expired == t.results;
    }
  }

  lemma ExpiryStaysShown(t: Tables, now: nat, s: Settlement)
    requires PortsCoherent(t.ports, t.results) && ExpirySettled(t, now, s)
    requires PortsShown(t, now) && s.affected == {}
    ensures PortsShown(t.(ports := s.ports, results := s.results), now)
  {
    hide PortsCoherent, ExpirySettled, Balanced, PortsAfterExpiry, Owned, ShowsPorts, OnlyRefreshed;
    ExpiryIsCoherent(t, now, s);
    UnaffectedStayShown(t, t.results, s, t.processes.Keys, now, now);
    assert (map p | p in t.processes.Keys :: t.processes[p]) == t.processes;
  }

  /** Once nothing expired is left, every record shows exactly what a recomputation would give. */
  lemma SweptIsExact(t: Tables, now: nat, key: ProcessKey)
    requires Coherent(t, now) && key in t.processes
    requires forall p | p in t.results :: t.results[p].expiresAt > now
    ensures SamePorts(t.processes[key].record.portBindings, PortValue(t, key, now))
  {
    hide ShowsPorts;
    ShownIsComputed(t.processes[key].record.portBindings, key, t.availability, t.ports, t.results, now);
  }

  // ----- Processes -----

  lemma FewerProcessesAreCoherent(t: Tables, gone: set<ProcessKey>, now: nat)
    requires Coherent(t, now)
    ensures var left, facts := t.processes - gone, t.facts - gone;
            && RecordsCoherent(t.engine, facts, t.bindings, left)
            && FactsKept(facts, left)
            && PortsShown(t.(processes := left, facts := facts), now)
            && KeysMatch(left)
            && Changes(t.processes, left, [])
            && left.Keys == t.processes.Keys - gone
  {
    hide Classify;
    var left, facts := t.processes - gone, t.facts - gone;
    forall k | k in left
      ensures RecordCoherent(t.engine, facts, t.bindings, k, left[k].record)
      ensures left[k].record.key == k
    {
      assert RecordCoherent(t.engine, t.facts, t.bindings, k, t.processes[k].record);
      assert FactsAt(facts, k) == FactsAt(t.facts, k);
    }
  }

  lemma FewerDirectories(processes: Processes, gone: set<ProcessKey>)
    requires gone <= processes.Keys
    ensures gone == processes.Keys - (processes - gone).Keys
    ensures forall k :: k in SortedProcesses(gone) <==> k in processes && k !in processes - gone
    ensures forall k | k in Directories(processes) && k !in gone ::
              k in Directories(processes - gone) && Directories(processes - gone)[k] == Directories(processes)[k]
  {
  }

  // ----- A whole sweep -----

  /** What a sweep does to the processes, up to the bindings shown and what follows from them. */
  function Cleared(processes: Processes, keys: set<ProcessKey>): Processes {
    map k | k in processes ::
      if k in keys then processes[k].(record := EvidenceReset(processes[k].record)) else processes[k]
  }

  lemma ClearedRecord(engine: Engine, before: ProcessRecord, after: ProcessRecord)
    requires after == before.(
               portBindings := after.portBindings, classification := after.classification, projectId := after.projectId)
    ensures var next := Settled(after, ContextPasses.ClearRevision(engine)(after));
            next == EvidenceReset(before).(
                      portBindings := next.portBindings, classification := next.classification,
                      projectId := next.projectId)
  {
    hide Classify, WithoutTimes;
    var revised := ContextPasses.ClearRevision(engine)(after);
    if SameRecord(after, revised) {
      Enrichment.SameRecordBase(after, revised);
    }
  }

  lemma ClearedThenRevised(engine: Engine, before: Processes, after: Processes, keys: set<ProcessKey>)
    requires OnlyPortsDiffer(before, after)
    ensures OnlyPortsDiffer(Cleared(before, keys), Revised(after, keys, ContextPasses.ClearRevision(engine)))
  {
    hide Classify, Settled, EvidenceReset, SameRecord;
    var next := Revised(after, keys, ContextPasses.ClearRevision(engine));
    forall k | k in before
      ensures next[k].record == Cleared(before, keys)[k].record.(
                portBindings := next[k].record.portBindings, classification := next[k].record.classification,
                projectId := next[k].record.projectId)
    {
      if k in keys {
        ClearedRecord(engine, before[k].record, after[k].record);
      }
    }
  }

  lemma PortsDifferTwice(a: Processes, b: Processes, c: Processes)
    requires OnlyPortsDiffer(a, b) && OnlyPortsDiffer(b, c)
    ensures OnlyPortsDiffer(a, c)
  {
  }

  function Due(expiresAt: Option<nat>, now: nat): bool {
    expiresAt.Some? && expiresAt.value <= now
  }
}
