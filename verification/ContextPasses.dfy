/** Passes that change what the records say about projects, rules and ownership, but not their ports. */
module ContextPasses {
  import opened DiscoveryDomain
  import opened PortIndex
  import opened Classification
  import opened Project
  import opened ProcessTable
  import opened PortPasses

  /** Every record of the pass comes out coherent with the new engine, facts and bindings. */
  ghost predicate MakesCoherent(
    engine: Engine, facts: FactTable, bindings: Bindings, processes: Processes, keys: set<ProcessKey>,
    revise: ProcessRecord -> ProcessRecord)
  {
    forall k | k in processes ::
      if k in keys then RecordCoherent(engine, facts, bindings, k, revise(processes[k].record))
      else RecordCoherent(engine, facts, bindings, k, processes[k].record)
  }

  ghost predicate LeavesPortsAlone(processes: Processes, revise: ProcessRecord -> ProcessRecord) {
    forall k | k in processes ::
      var before, after := processes[k].record, revise(processes[k].record);
      && after.key == before.key
      && after.portBindings == before.portBindings && after.workingDirectory == before.workingDirectory
  }

  lemma PassKeepsPortsShown(t: Tables, keys: set<ProcessKey>, revise: ProcessRecord -> ProcessRecord, now: nat)
    requires PortsShown(t, now) && LeavesPortsAlone(t.processes, revise)
    ensures var after := Revised(t.processes, keys, revise);
            PortsShown(t.(processes := after), now) && Directories(after) == Directories(t.processes)
            && after.Keys == t.processes.Keys
  {
    hide ShowsPorts, Revised, Settled;
    var after := Revised(t.processes, keys, revise);
    RevisedKeys(t.processes, keys, revise);
    forall k | k in t.processes
      ensures ShowsPorts(after[k].record.portBindings, k, t.availability, t.ports, t.results, now)
      ensures after[k].record.workingDirectory == t.processes[k].record.workingDirectory
    {
      RevisedRecord(t.processes, keys, revise, k);
      SettledKeepsPorts(t.processes[k].record, revise(t.processes[k].record));
    }
  }

  lemma SettledKeepsPorts(before: ProcessRecord, next: ProcessRecord)
    requires next.portBindings == before.portBindings && next.workingDirectory == before.workingDirectory
    ensures var after := Settled(before, next);
            after.portBindings == before.portBindings && after.workingDirectory == before.workingDirectory
  {
  }

  /** What is shown does not depend on rules, facts or ownership. */
  lemma ShownInAnyContext(t: Tables, engine: Engine, facts: FactTable, bindings: Bindings, now: nat)
    requires PortsShown(t, now)
    ensures PortsShown(t.(engine := engine, facts := facts, bindings := bindings), now)
  {
  }

  lemma PassIsCoherent(
    engine: Engine, facts: FactTable, bindings: Bindings, processes: Processes, keys: set<ProcessKey>,
    revise: ProcessRecord -> ProcessRecord)
    requires MakesCoherent(engine, facts, bindings, processes, keys, revise) && LeavesPortsAlone(processes, revise)
    ensures forall k | k in processes :: revise(processes[k].record).key == k
    ensures var after := Revised(processes, keys, revise);
            RecordsCoherent(engine, facts, bindings, after) && KeysMatch(after) && after.Keys == processes.Keys
  {
    hide Classify;
    RevisedIsCoherent(engine, facts, bindings, processes, keys, revise);
    var after := Revised(processes, keys, revise);
    forall k | k in after ensures after[k].record.key == k {
      assert RecordCoherent(engine, facts, bindings, k, after[k].record);
    }
  }

  // ----- A project scan -----

  function ScanRevision(engine: Engine, result: ScanResult): ProcessRecord -> ProcessRecord {
    (record: ProcessRecord) =>
      Reclassified(
        engine, FactsOf(result.association, result.features),
        record.(association := result.association, features := result.features))
  }

  function WithFacts(facts: FactTable, key: ProcessKey, found: Facts): FactTable {
    if found == NO_FACTS then facts - {key} else facts[key := found]
  }

  lemma ScanMakesCoherent(
    engine: Engine, facts: FactTable, bindings: Bindings, processes: Processes, key: ProcessKey, result: ScanResult)
    requires RecordsCoherent(engine, facts, bindings, processes) && FactsKept(facts, processes) && key in processes
    ensures var found := WithFacts(facts, key, FactsOf(result.association, result.features));
            && MakesCoherent(engine, found, bindings, processes, {key}, ScanRevision(engine, result))
            && FactsKept(found, processes)
            && LeavesPortsAlone(processes, ScanRevision(engine, result))
  {
    hide Classify;
    var found := WithFacts(facts, key, FactsOf(result.association, result.features));
    forall k | k in processes
      ensures if k == key then
                RecordCoherent(engine, found, bindings, k, ScanRevision(engine, result)(processes[k].record))
              else RecordCoherent(engine, found, bindings, k, processes[k].record)
    {
      var record := processes[k].record;
      assert RecordCoherent(engine, facts, bindings, k, record);
      ReclassifiedIsFixed(
        engine, FactsOf(result.association, result.features),
        record.(association := result.association, features := result.features));
    }
  }

  // ----- Forgetting what was proven -----

  function ClearRevision(engine: Engine): ProcessRecord -> ProcessRecord {
    (record: ProcessRecord) => Reclassified(engine, NO_FACTS, EvidenceReset(record))
  }

  lemma ClearedIsCoherent(
    engine: Engine, left: FactTable, known: Engine, facts: FactTable, bindings: Bindings, key: ProcessKey,
    record: ProcessRecord)
    requires RecordCoherent(known, facts, bindings, key, record) && key !in left
    ensures RecordCoherent(engine, left, bindings, key, ClearRevision(engine)(record))
  {
    hide Classify;
    ReclassifiedIsFixed(engine, NO_FACTS, EvidenceReset(record));
    ResetProvesNothing(record);
  }

  lemma ClearLeavesPorts(engine: Engine, processes: Processes)
    ensures LeavesPortsAlone(processes, ClearRevision(engine))
  {
    hide Classify;
  }

  lemma ClearMakesCoherent(
    engine: Engine, known: Engine, facts: FactTable, bindings: Bindings, processes: Processes, keys: set<ProcessKey>)
    requires RecordsCoherent(known, facts, bindings, processes) && FactsKept(facts, processes)
    requires known == engine || processes.Keys <= keys
    ensures var left := facts - keys;
            && MakesCoherent(engine, left, bindings, processes, keys, ClearRevision(engine))
            && FactsKept(left, processes)
            && LeavesPortsAlone(processes, ClearRevision(engine))
  {
    hide Classify, ClearRevision, LeavesPortsAlone;
    ClearLeavesPorts(engine, processes);
    var left := facts - keys;
    forall k | k in processes
      ensures if k in keys then RecordCoherent(engine, left, bindings, k, ClearRevision(engine)(processes[k].record))
              else RecordCoherent(engine, left, bindings, k, processes[k].record)
    {
      var record := processes[k].record;
      assert RecordCoherent(known, facts, bindings, k, record);
      if k in keys {
        ClearedIsCoherent(engine, left, known, facts, bindings, k, record);
      }
    }
  }

  // ----- New rules -----

  function RulesRevision(engine: Engine, facts: FactTable): ProcessRecord -> ProcessRecord {
    (record: ProcessRecord) => Reclassified(engine, FactsAt(facts, record.key), record)
  }

  lemma RulesMakeCoherent(engine: Engine, known: Engine, facts: FactTable, bindings: Bindings, processes: Processes)
    requires RecordsCoherent(known, facts, bindings, processes)
    ensures MakesCoherent(engine, facts, bindings, processes, processes.Keys, RulesRevision(engine, facts))
    ensures LeavesPortsAlone(processes, RulesRevision(engine, facts))
  {
    hide Classify;
    forall k | k in processes
      ensures RecordCoherent(engine, facts, bindings, k, RulesRevision(engine, facts)(processes[k].record))
    {
      var record := processes[k].record;
      assert RecordCoherent(known, facts, bindings, k, record);
      ReclassifiedIsFixed(engine, FactsAt(facts, k), record);
    }
  }

  // ----- New managed bindings -----

  function OwnershipRevision(engine: Engine, facts: FactTable, bindings: Bindings): ProcessRecord -> ProcessRecord {
    (record: ProcessRecord) => Reclassified(engine, FactsAt(facts, record.key), Overlaid(bindings, record))
  }

  /** The shortcut: a record whose ownership stays the same is not reclassified. */
  function OwnershipShortcut(engine: Engine, facts: FactTable, bindings: Bindings): ProcessRecord -> ProcessRecord {
    (record: ProcessRecord) =>
      var next := Overlaid(bindings, record);
      if ClassificationInputsDiffer(record, next) then Reclassified(engine, FactsAt(facts, record.key), next) else next
  }

  lemma OwnershipShortcutIsSound(
    engine: Engine, facts: FactTable, known: Bindings, bindings: Bindings, processes: Processes)
    requires RecordsCoherent(engine, facts, known, processes)
    ensures forall k | k in processes ::
              OwnershipShortcut(engine, facts, bindings)(processes[k].record)
              == OwnershipRevision(engine, facts, bindings)(processes[k].record)
  {
    hide Classify;
    forall k | k in processes
      ensures OwnershipShortcut(engine, facts, bindings)(processes[k].record)
              == OwnershipRevision(engine, facts, bindings)(processes[k].record)
    {
      var record := processes[k].record;
      assert RecordCoherent(engine, facts, known, k, record);
      var next := Overlaid(bindings, record);
      if !ClassificationInputsDiffer(record, next) {
        SkippingSameInputsIsSound(engine, FactsAt(facts, k), record, next);
      }
    }
  }

  lemma OverlaidIsCoherent(
    engine: Engine, facts: FactTable, known: Bindings, bindings: Bindings, key: ProcessKey, record: ProcessRecord)
    requires RecordCoherent(engine, facts, known, key, record)
    ensures RecordCoherent(engine, facts, bindings, key, OwnershipRevision(engine, facts, bindings)(record))
  {
    hide Classify;
    ReclassifiedIsFixed(engine, FactsAt(facts, key), Overlaid(bindings, record));
  }

  lemma OwnershipLeavesPorts(engine: Engine, facts: FactTable, bindings: Bindings, processes: Processes)
    ensures LeavesPortsAlone(processes, OwnershipShortcut(engine, facts, bindings))
  {
    hide Classify;
  }

  lemma OwnershipMakesCoherent(
    engine: Engine, facts: FactTable, known: Bindings, bindings: Bindings, processes: Processes)
    requires RecordsCoherent(engine, facts, known, processes)
    ensures MakesCoherent(
              engine, facts, bindings, processes, processes.Keys, OwnershipShortcut(engine, facts, bindings))
    ensures LeavesPortsAlone(processes, OwnershipShortcut(engine, facts, bindings))
  {
    hide OwnershipShortcut, OwnershipRevision, RecordCoherent, LeavesPortsAlone;
    OwnershipShortcutIsSound(engine, facts, known, bindings, processes);
    OwnershipLeavesPorts(engine, facts, bindings, processes);
    forall k | k in processes
      ensures RecordCoherent(engine, facts, bindings, k,
              OwnershipRevision(engine, facts, bindings)(processes[k].record))
    {
      OverlaidIsCoherent(engine, facts, known, bindings, k, processes[k].record);
    }
  }
}
