/**
 What the scheduler keeps per process, and the full recomputation that every incremental update of a
 record has to agree with.
 */
module ProcessTable {
  import opened DiscoveryDomain
  import opened Coalescing
  import opened EventPublisher
  import opened PortIndex
  import opened Classification
  import opened Project

  datatype ProcessEntry = ProcessEntry(record: ProcessRecord, expiresAt: nat)

  type Processes = map<ProcessKey, ProcessEntry>

  type FactTable = map<ProcessKey, Facts>

  type Bindings = map<ProcessKey, string>

  function Records(processes: Processes): map<ProcessKey, ProcessRecord> {
    map k | k in processes :: processes[k].record
  }

  function Directories(processes: Processes): map<ProcessKey, FieldValue<string>> {
    map k | k in processes :: processes[k].record.workingDirectory
  }

  // ----- The full recomputation -----

  function FactsAt(facts: FactTable, key: ProcessKey): Facts {
    if key in facts then facts[key] else NO_FACTS
  }

  function Reclassified(engine: Engine, facts: Facts, record: ProcessRecord): ProcessRecord {
    var decision := Classify(engine, record, facts);
    record.(classification := decision.result, projectId := decision.projectId)
  }

  function Overlaid(bindings: Bindings, record: ProcessRecord): ProcessRecord {
    if record.key in bindings then record.(ownership := Managed, managedRunId := Some(bindings[record.key]))
    else record.(ownership := External, managedRunId := None)
  }

  /** What is known about a project once nothing is proven. */
  function EvidenceReset(record: ProcessRecord): ProcessRecord {
    match record.workingDirectory
    case Known(_) | Unknown => record.(association := Undetermined, features := Undetermined)
    case AccessLimited(reason) => record.(association := Limited(reason), features := Limited(reason))
    case NotSupported => record.(association := Unsupported, features := Unsupported)
  }

  /** A recomputed record replaces the cached one only if it differs beyond observation times. */
  function Settled(cached: ProcessRecord, next: ProcessRecord): ProcessRecord {
    if SameRecord(cached, next) then cached else next
  }

  /** The cached record is the fixed point of the recomputation. */
  ghost predicate RecordCoherent(
    engine: Engine, facts: FactTable, bindings: Bindings, key: ProcessKey, record: ProcessRecord)
  {
    && record.key == key
    && record == Reclassified(engine, FactsAt(facts, key), record)
    && record == Overlaid(bindings, record)
    && FactsAt(facts, key) == FactsOf(record.association, record.features)
  }

  ghost predicate RecordsCoherent(engine: Engine, facts: FactTable, bindings: Bindings, processes: Processes) {
    forall k | k in processes :: RecordCoherent(engine, facts, bindings, k, processes[k].record)
  }

  /** Facts are stored only for cached processes, and never the empty ones. */
  ghost predicate FactsKept(facts: FactTable, processes: Processes) {
    forall k | k in facts :: k in processes && facts[k] != NO_FACTS
  }

  lemma SettledIsCoherent(
    engine: Engine, facts: FactTable, bindings: Bindings, key: ProcessKey, cached: ProcessRecord, next: ProcessRecord)
    requires RecordCoherent(engine, facts, bindings, key, next)
    ensures RecordCoherent(engine, facts, bindings, key, Settled(cached, next))
    ensures SamePorts(Settled(cached, next).portBindings, next.portBindings)
    ensures Settled(cached, next).workingDirectory == next.workingDirectory
  {
    if SameRecord(cached, next) {
      SameRecordFields(cached, next);
      ClassifyReadsInputsOnly(engine, cached, next, FactsAt(facts, key));
    }
  }

  lemma SameRecordFields(cached: ProcessRecord, next: ProcessRecord)
    requires SameRecord(cached, next)
    ensures SamePorts(cached.portBindings, next.portBindings) && !ClassificationInputsDiffer(cached, next)
    ensures cached.key == next.key && cached.managedRunId == next.managedRunId
    ensures cached.association == next.association && cached.features == next.features
    ensures cached.classification == next.classification && cached.projectId == next.projectId
  {
  }

  /** Reclassifying is idempotent: its inputs are not among its outputs. */
  lemma ReclassifiedIsFixed(engine: Engine, facts: Facts, record: ProcessRecord)
    ensures var r := Reclassified(engine, facts, record); Reclassified(engine, facts, r) == r
  {
    ClassifyReadsInputsOnly(engine, record, Reclassified(engine, facts, record), facts);
  }

  lemma CoherentKey(engine: Engine, facts: FactTable, bindings: Bindings, key: ProcessKey, record: ProcessRecord)
    requires RecordCoherent(engine, facts, bindings, key, record)
    ensures record.key == key
  {
    hide Classify;
  }

  /** Reclassifying with the facts that follow from its evidence makes an overlaid record coherent. */
  lemma ReclassifiedIsCoherent(
    engine: Engine, facts: FactTable, bindings: Bindings, key: ProcessKey, record: ProcessRecord)
    requires record.key == key && record == Overlaid(bindings, record)
    requires FactsAt(facts, key) == FactsOf(record.association, record.features)
    ensures RecordCoherent(engine, facts, bindings, key, Reclassified(engine, FactsAt(facts, key), record))
  {
    hide Classify;
    ReclassifiedIsFixed(engine, FactsAt(facts, key), record);
  }

  // ----- The tables of the scheduler -----

  datatype Tables = Tables(
    processes: Processes,
    ports: Ports,
    results: PortResults,
    availability: FieldValue<()>,
    engine: Engine,
    facts: FactTable,
    bindings: Bindings)

  function PortValue(t: Tables, key: ProcessKey, now: nat): FieldValue<seq<PortBinding>> {
    ProcessPortValue(key, t.availability, t.ports, t.results, now)
  }

  /** The port table is keyed, and every known result lists what the table says. */
  ghost predicate PortsCoherent(ports: Ports, results: PortResults) {
    WellKeyed(ports) && ResultsCoherent(results, ports)
  }

  /** Every record shows the bindings a full recomputation would give it. */
  ghost predicate PortsShown(t: Tables, now: nat) {
    forall k | k in t.processes ::
      ShowsPorts(t.processes[k].record.portBindings, k, t.availability, t.ports, t.results, now)
  }

  /** What every handler of the scheduler keeps, whatever shortcut it takes. */
  ghost predicate Coherent(t: Tables, now: nat) {
    && RecordsCoherent(t.engine, t.facts, t.bindings, t.processes)
    && FactsKept(t.facts, t.processes)
    && PortsCoherent(t.ports, t.results)
    && t.results.Keys <= t.processes.Keys
    && PortsShown(t, now)
  }

  // ----- Shortcuts -----

  /** New port bindings, with the classification they call for. */
  function WithBindings(
    engine: Engine, facts: FactTable, record: ProcessRecord, bindings: FieldValue<seq<PortBinding>>): ProcessRecord
  {
    Reclassified(engine, FactsAt(facts, record.key), record.(portBindings := bindings))
  }

  /** Skipping the recomputation when the bindings are the same changes nothing. */
  lemma SkippingSamePortsIsSound(
    engine: Engine, facts: FactTable, bindings: Bindings, record: ProcessRecord, next: FieldValue<seq<PortBinding>>)
    requires RecordCoherent(engine, facts, bindings, record.key, record) && SamePorts(record.portBindings, next)
    ensures Settled(record, WithBindings(engine, facts, record, next)) == record
  {
    ClassifyReadsInputsOnly(engine, record, record.(portBindings := next), FactsAt(facts, record.key));
  }

  /** Skipping the reclassification when no input differs changes nothing. */
  lemma SkippingSameInputsIsSound(engine: Engine, facts: Facts, cached: ProcessRecord, next: ProcessRecord)
    requires cached == Reclassified(engine, facts, cached)
    requires cached.classification == next.classification && cached.projectId == next.projectId
    requires !ClassificationInputsDiffer(cached, next)
    ensures Reclassified(engine, facts, next) == next
  {
    ClassifyReadsInputsOnly(engine, cached, next, facts);
  }

  /** Nothing is proven about a project whose evidence was reset. */
  lemma ResetProvesNothing(record: ProcessRecord)
    ensures FactsOf(EvidenceReset(record).association, EvidenceReset(record).features) == NO_FACTS
  {
  }

  // ----- Bulk updates -----

  function Revised(processes: Processes, keys: set<ProcessKey>, revise: ProcessRecord -> ProcessRecord): Processes {
    map k | k in processes ::
      if k in keys then processes[k].(record := Settled(processes[k].record, revise(processes[k].record)))
      else processes[k]
  }

  lemma RevisedRecord(
    processes: Processes, keys: set<ProcessKey>, revise: ProcessRecord -> ProcessRecord, key: ProcessKey)
    requires key in processes
    ensures var entry, after := processes[key], Revised(processes, keys, revise);
            && key in after
            && after[key] == (if key in keys then entry.(record := Settled(entry.record, revise(entry.record)))
              else entry)
  {
    hide Settled;
  }

  lemma RevisedKeys(processes: Processes, keys: set<ProcessKey>, revise: ProcessRecord -> ProcessRecord)
    ensures Revised(processes, keys, revise).Keys == processes.Keys
  {
    hide Settled;
  }

  /** The upserted records are the changed ones of `after`, each once. */
  ghost predicate Changes(before: Processes, after: Processes, upserted: seq<ProcessRecord>) {
    && (forall r | r in upserted ::
          r.key in after && after[r.key].record == r && (r.key in before ==> before[r.key].record != r))
    && (forall i, j | 0 <= i < j < |upserted| :: upserted[i].key != upserted[j].key)
    && (forall k | k in after && (k !in before || before[k].record != after[k].record) :: after[k].record in upserted)
  }

  lemma RevisedOneMore(
    processes: Processes, done: set<ProcessKey>, key: ProcessKey, revise: ProcessRecord -> ProcessRecord)
    requires key in processes
    ensures var entry := processes[key];
            Revised(processes, done + {key}, revise)
            == Revised(processes, done, revise)[
                 key := entry.(record := Settled(entry.record, revise(entry.record)))]
  {
  }

  lemma ChangesGrow(
    before: Processes, after: Processes, upserted: seq<ProcessRecord>, key: ProcessKey, entry: ProcessEntry)
    requires Changes(before, after, upserted) && entry.record.key == key
    requires forall r | r in upserted :: r.key != key
    requires key in before ==> before[key].record != entry.record
    ensures Changes(before, after[key := entry], upserted + [entry.record])
  {
  }

  ghost predicate RevisedSoFar(
    processes: Processes, done: set<ProcessKey>, revise: ProcessRecord -> ProcessRecord,
    next: Processes, upserted: seq<ProcessRecord>)
  {
    && next == Revised(processes, done, revise)
    && Changes(processes, next, upserted)
    && (forall r | r in upserted :: r.key in done)
  }

  lemma NothingRevised(processes: Processes, revise: ProcessRecord -> ProcessRecord)
    ensures RevisedSoFar(processes, {}, revise, processes, [])
  {
  }

  lemma AllRevised(
    processes: Processes, keys: set<ProcessKey>, revise: ProcessRecord -> ProcessRecord,
    next: Processes, upserted: seq<ProcessRecord>)
    requires RevisedSoFar(processes, keys * processes.Keys, revise, next, upserted)
    ensures next == Revised(processes, keys, revise) && Changes(processes, next, upserted)
  {
  }

  method ReviseOne(
    processes: Processes, ghost done: set<ProcessKey>, key: ProcessKey, revise: ProcessRecord -> ProcessRecord,
    current: Processes, changed: seq<ProcessRecord>)
    returns (next: Processes, upserted: seq<ProcessRecord>)
    requires RevisedSoFar(processes, done, revise, current, changed)
    requires key in processes && key !in done && revise(processes[key].record).key == key
    ensures RevisedSoFar(processes, done + {key}, revise, next, upserted)
  {
    RevisedOneMore(processes, done, key, revise);
    var entry := current[key];
    var revised := revise(entry.record);
    if SameRecord(entry.record, revised) {
      return current, changed;
    }
    ChangesGrow(processes, current, changed, key, entry.(record := revised));
    next, upserted := current[key := entry.(record := revised)], changed + [revised];
  }

  /** Recompute the given processes, in any order, collecting the records that change. */
  method Revise(processes: Processes, keys: set<ProcessKey>, revise: ProcessRecord -> ProcessRecord)
    returns (next: Processes, upserted: seq<ProcessRecord>)
    requires forall k | k in processes :: revise(processes[k].record).key == k
    ensures next == Revised(processes, keys, revise)
    ensures Changes(processes, next, upserted)
  {
    hide Revised, Changes, RevisedSoFar;
    var todo := keys * processes.Keys;
    ghost var all := todo;
    next, upserted := processes, [];
    NothingRevised(processes, revise);
    assert all - todo == {};
    while todo != {}
      invariant todo <= all && RevisedSoFar(processes, all - todo, revise, next, upserted)
      decreases |todo|
    {
      var key :| key in todo;
      next, upserted := ReviseOne(processes, all - todo, key, revise, next, upserted);
      assert all - (todo - {key}) == all - todo + {key};
      todo := todo - {key};
    }
    assert all - todo == all;
    AllRevised(processes, keys, revise, next, upserted);
  }

  lemma RevisedIsCoherent(
    engine: Engine, facts: FactTable, bindings: Bindings,
    processes: Processes, keys: set<ProcessKey>, revise: ProcessRecord -> ProcessRecord)
    requires forall k | k in processes ::
               if k in keys then RecordCoherent(engine, facts, bindings, k, revise(processes[k].record))
               else RecordCoherent(engine, facts, bindings, k, processes[k].record)
    ensures RecordsCoherent(engine, facts, bindings, Revised(processes, keys, revise))
  {
    forall k | k in processes
      ensures RecordCoherent(engine, facts, bindings, k, Revised(processes, keys, revise)[k].record)
    {
      if k in keys {
        SettledIsCoherent(engine, facts, bindings, k, processes[k].record, revise(processes[k].record));
      }
    }
  }

  // ----- What the published deltas amount to -----

  /** Mutations that agree with `after` take over its values at their keys and touch nothing else. */
  lemma {:induction false} DeltaEffect<K(!new), V>(before: map<K, V>, after: map<K, V>, mutations: seq<Keyed<K, V>>)
    requires forall i | 0 <= i < |mutations| ::
               Lookup(after, mutations[i].key)
               == if mutations[i].mutation.Upsert? then Some(mutations[i].mutation.value) else None
    ensures forall k ::
              Lookup(ApplyAll(before, mutations), k)
              == if k in KeysOf(mutations) then Lookup(after, k) else Lookup(before, k)
  {
    if mutations == [] {
      assert KeysOf(mutations) == {};
    } else {
      var front, last := mutations[..|mutations| - 1], mutations[|mutations| - 1];
      DeltaEffect(before, after, front);
      assert KeysOf(mutations) == KeysOf(front) + {last.key} by {
        forall k | k in KeysOf(mutations) ensures k in KeysOf(front) + {last.key} {
          var i :| 0 <= i < |mutations| && mutations[i].key == k;
          if i < |front| {
            assert front[i].key == k;
          }
        }
        forall k | k in KeysOf(front) + {last.key} ensures k in KeysOf(mutations) {
          if k != last.key {
            var i :| 0 <= i < |front| && front[i].key == k;
            assert mutations[i].key == k;
          } else {
            assert mutations[|mutations| - 1].key == k;
          }
        }
      }
    }
  }

  lemma SameLookups<K(!new), V>(a: map<K, V>, b: map<K, V>)
    requires forall k :: Lookup(a, k) == Lookup(b, k)
    ensures a == b
  {
    assert forall k :: k in a <==> Lookup(a, k).Some?;
    assert forall k :: k in b <==> Lookup(b, k).Some?;
    forall k | k in a ensures k in b && a[k] == b[k] {
      assert Lookup(a, k) == Lookup(b, k);
    }
    forall k | k in b ensures k in a {
      assert Lookup(a, k) == Lookup(b, k);
    }
  }

  /** A client that knew the old records and applies the delta knows the new ones. */
  lemma ProcessDeltaReaches(
    sizes: Sizes, before: Processes, after: Processes, upserted: seq<ProcessRecord>, removed: seq<ProcessKey>)
    requires Changes(before, after, upserted)
    requires forall k | k in after :: after[k].record.key == k
    requires forall k :: k in removed <==> k in before && k !in after
    ensures ApplyAll(Records(before), ProcessMutations(sizes, upserted, removed)) == Records(after)
  {
    var mutations := ProcessMutations(sizes, upserted, removed);
    forall i | 0 <= i < |mutations|
      ensures Lookup(Records(after), mutations[i].key)
              == if mutations[i].mutation.Upsert? then Some(mutations[i].mutation.value) else None
    {
      if i < |upserted| {
        assert upserted[i] in upserted;
      } else {
        assert removed[i - |upserted|] in removed;
      }
    }
    DeltaEffect(Records(before), Records(after), mutations);
    forall k
      ensures Lookup(ApplyAll(Records(before), mutations), k) == Lookup(Records(after), k)
    {
      if k in after && after[k].record in upserted {
        var i :| 0 <= i < |upserted| && upserted[i] == after[k].record;
        assert mutations[i].key in KeysOf(mutations);
      } else if k in removed {
        var i :| 0 <= i < |removed| && removed[i] == k;
        assert mutations[|upserted| + i].key in KeysOf(mutations);
      }
    }
    SameLookups(ApplyAll(Records(before), mutations), Records(after));
  }

  /** A client's bindings are the scheduler's up to observation times. */
  ghost predicate MirrorsPorts(known: map<PortKey, PortBinding>, ports: Ports) {
    known.Keys == ports.Keys && forall k | k in ports :: SamePort(known[k], ports[k].binding)
  }

  /** The upserted bindings are those that changed beyond observation times, each once. */
  ghost predicate PortChanges(before: Ports, after: Ports, upserted: seq<PortBinding>) {
    && (forall b | b in upserted ::
          && KeyOf(b) in after && after[KeyOf(b)].binding == b
          && (KeyOf(b) in before ==> !SamePort(before[KeyOf(b)].binding, b)))
    && (forall i, j | 0 <= i < j < |upserted| :: KeyOf(upserted[i]) != KeyOf(upserted[j]))
    && (forall k | k in after && (k !in before || !SamePort(before[k].binding, after[k].binding)) ::
          after[k].binding in upserted)
  }

  lemma PortDeltaReaches(
    sizes: Sizes, known: map<PortKey, PortBinding>, before: Ports, after: Ports,
    upserted: seq<PortBinding>, removed: seq<PortKey>)
    requires MirrorsPorts(known, before) && WellKeyed(after) && PortChanges(before, after, upserted)
    requires forall k :: k in removed <==> k in before && k !in after
    ensures MirrorsPorts(ApplyAll(known, PortMutations(sizes, upserted, removed)), after)
  {
    hide KeysOf, ApplyAll, SamePort, PortMutations;
    var mutations := PortMutations(sizes, upserted, removed);
    var table := map k | k in after :: after[k].binding;
    PortMutationsAgree(sizes, before, after, upserted, removed);
    DeltaEffect(known, table, mutations);
    var now := ApplyAll(known, mutations);
    forall k
      ensures k in now <==> k in after
      ensures k in after ==> SamePort(now[k], after[k].binding)
    {
      assert Lookup(now, k) == if k in KeysOf(mutations) then Lookup(table, k) else Lookup(known, k);
      if k in after {
        SameAsItself(after[k].binding);
        if k in before {
          SameThrough(known[k], before[k].binding, after[k].binding);
        }
      }
      if (k in after && after[k].binding in upserted) || k in removed {
        PortIsMutated(sizes, after, upserted, removed, k);
      }
    }
  }

  lemma SameAsItself(binding: PortBinding)
    ensures SamePort(binding, binding)
  {
  }

  lemma SameThrough(a: PortBinding, b: PortBinding, c: PortBinding)
    ensures SamePort(a, b) && SamePort(b, c) ==> SamePort(a, c)
  {
  }

  lemma PortMutationsAgree(
    sizes: Sizes, before: Ports, after: Ports, upserted: seq<PortBinding>, removed: seq<PortKey>)
    requires PortChanges(before, after, upserted)
    requires forall k :: k in removed <==> k in before && k !in after
    ensures var mutations, table := PortMutations(sizes, upserted, removed), map k | k in after :: after[k].binding;
            forall i | 0 <= i < |mutations| ::
              Lookup(table, mutations[i].key)
              == if mutations[i].mutation.Upsert? then Some(mutations[i].mutation.value) else None
  {
    hide SamePort;
    var mutations, table := PortMutations(sizes, upserted, removed), map k | k in after :: after[k].binding;
    forall i | 0 <= i < |mutations|
      ensures Lookup(table, mutations[i].key)
              == if mutations[i].mutation.Upsert? then Some(mutations[i].mutation.value) else None
    {
      if i < |upserted| {
        assert upserted[i] in upserted;
      } else {
        assert removed[i - |upserted|] in removed;
      }
    }
  }

  lemma PortIsMutated(
    sizes: Sizes, after: Ports, upserted: seq<PortBinding>, removed: seq<PortKey>, key: PortKey)
    requires WellKeyed(after)
    requires (key in after && after[key].binding in upserted) || key in removed
    ensures key in KeysOf(PortMutations(sizes, upserted, removed))
  {
    var mutations := PortMutations(sizes, upserted, removed);
    if key in after && after[key].binding in upserted {
      var i :| 0 <= i < |upserted| && upserted[i] == after[key].binding;
      assert mutations[i].key == key;
    } else {
      var i :| 0 <= i < |removed| && removed[i] == key;
      assert mutations[|upserted| + i].key == key;
    }
  }

  // ----- Which keys a client may not know -----

  /** The latest state of the key is too large to publish. */
  ghost predicate Oversized<K(!new), V>(
    value: V -> nat, removal: K -> nat, target: map<K, V>, key: K)
  {
    if key in target then value(target[key]) > MAX_ENTITY_BYTES else removal(key) > MAX_ENTITY_BYTES
  }

  /** A mutation is as large as what it upserts or removes. */
  predicate IsSized<K, V>(value: V -> nat, removal: K -> nat, m: Keyed<K, V>) {
    m.mutation.bytes == match m.mutation case Upsert(v, _) => value(v) case Remove(_) => removal(m.key)
  }

  lemma {:induction false} LatestIsSized<K, V>(
    value: V -> nat, removal: K -> nat, mutations: seq<Keyed<K, V>>, key: K)
    requires forall m | m in mutations :: IsSized(value, removal, m)
    ensures Latest(mutations, key).Some? ==> IsSized(value, removal, Keyed(key, Latest(mutations, key).value))
  {
    if mutations != [] {
      var last := mutations[|mutations| - 1];
      assert IsSized(value, removal, last) && last == Keyed(last.key, last.mutation);
      LatestIsSized(value, removal, mutations[..|mutations| - 1], key);
    }
  }

  lemma {:induction false} FittingIsPart<K, V>(mutations: seq<Keyed<K, V>>, cap: nat)
    ensures forall m | m in Fitting(mutations, cap) :: m in mutations && m.mutation.bytes <= cap
  {
    if mutations != [] {
      FittingIsPart(mutations[..|mutations| - 1], cap);
    }
  }

  lemma {:induction false} LatestFits<K, V>(mutations: seq<Keyed<K, V>>, cap: nat, key: K)
    requires forall m | m in mutations :: m.mutation.bytes <= cap
    ensures Latest(mutations, key).Some? ==> Latest(mutations, key).value.bytes <= cap
  {
    if mutations != [] {
      LatestFits(mutations[..|mutations| - 1], cap, key);
    }
  }

  /** What is present is withheld exactly while it is too large; a removal only if the key itself is. */
  lemma WithheldIsOversized<K(!new), V>(
    value: V -> nat, removal: K -> nat, mutations: seq<Keyed<K, V>>, key: K)
    requires forall m | m in mutations :: IsSized(value, removal, m)
    ensures UpToDate(mutations, MAX_ENTITY_BYTES, key)
            || Oversized(value, removal, ApplyAll(map[], mutations), key)
    ensures key in ApplyAll(map[], mutations) && Oversized(value, removal, ApplyAll(map[], mutations), key) ==>
              !UpToDate(mutations, MAX_ENTITY_BYTES, key)
  {
    hide ApplyAll, Fitting, Latest;
    LatestIsSized(value, removal, mutations, key);
    LatestDecides(mutations, key);
    var fitting := Fitting(mutations, MAX_ENTITY_BYTES);
    FittingIsPart(mutations, MAX_ENTITY_BYTES);
    LatestFits(fitting, MAX_ENTITY_BYTES, key);
    LatestIsSized(value, removal, fitting, key);
  }

  // ----- What a client knows -----

  ghost predicate SameAt(known: map<PortKey, PortBinding>, ports: Ports, key: PortKey) {
    if key in ports then key in known && SamePort(known[key], ports[key].binding) else key !in known
  }

  /** The latest binding fits into an event, or the latest that fits is the same up to its observation time. */
  predicate PortUpToDate(mutations: seq<Keyed<PortKey, PortBinding>>, key: PortKey) {
    var latest := Latest(mutations, key);
    || latest.None? || latest.value.bytes <= MAX_ENTITY_BYTES
    || SameHeld(Held(latest), Held(Latest(Fitting(mutations, MAX_ENTITY_BYTES), key)))
  }

  predicate SameHeld(a: Option<PortBinding>, b: Option<PortBinding>) {
    if a.Some? && b.Some? then SamePort(a.value, b.value) else a == b
  }

  /**
   What a client knows about the scheduler's tables. It is right about a key exactly if the latest state of
   the key fits into an event, or is no different from the latest that did.
   */
  ghost predicate Knows(
    sizes: Sizes, known: Mirror, handed: Handed, processes: Processes, ports: Ports, availability: FieldValue<()>)
  {
    && (forall k ::
          Lookup(known.processes, k) == Lookup(Records(processes), k)
          <==> UpToDate(handed.processes, MAX_ENTITY_BYTES, k))
    && (forall k :: SameAt(known.ports, ports, k) <==> PortUpToDate(handed.ports, k))
    && (known.availability == availability <==> AvailabilityUpToDate(sizes, handed.availabilities))
  }

  /**
   Everything a client is wrong about is in its latest state too large to publish; about a process that is
   there, it is wrong exactly then.
   */
  ghost predicate WrongOnlyIfOversized(
    sizes: Sizes, known: Mirror, target: Mirror, processes: Processes, ports: Ports, availability: FieldValue<()>)
  {
    && (forall k ::
          || Lookup(known.processes, k) == Lookup(Records(processes), k)
          || Oversized(sizes.record, sizes.processKey, Records(processes), k))
    && (forall k | k in processes ::
          Lookup(known.processes, k) == Some(processes[k].record)
          <==> sizes.record(processes[k].record) <= MAX_ENTITY_BYTES)
    && (forall k ::
          || SameAt(known.ports, ports, k)
          || Oversized(sizes.binding, sizes.portKey, target.ports, k))
    && (known.availability == availability || sizes.availability(availability) > MAX_ENTITY_BYTES)
  }

  ghost predicate KnowsAll(known: Mirror, processes: Processes, ports: Ports, availability: FieldValue<()>) {
    && known.processes == Records(processes) && MirrorsPorts(known.ports, ports) && known.availability == availability
  }

  lemma PortsAreRightExactly(mutations: seq<Keyed<PortKey, PortBinding>>, ports: Ports, key: PortKey)
    requires MirrorsPorts(ApplyAll(map[], mutations), ports)
    ensures SameAt(ApplyAll(map[], Fitting(mutations, MAX_ENTITY_BYTES)), ports, key) <==> PortUpToDate(mutations, key)
  {
    hide ApplyAll, Fitting, Latest;
    LatestDecides(mutations, key);
    LatestDecides(Fitting(mutations, MAX_ENTITY_BYTES), key);
    FittingKeepsLatest(mutations, MAX_ENTITY_BYTES, key);
  }

  lemma PublishedIsKnown(
    sizes: Sizes, handed: Handed, processes: Processes, ports: Ports, availability: FieldValue<()>)
    requires Total(handed).processes == Records(processes) && MirrorsPorts(Total(handed).ports, ports)
    requires Total(handed).availability == availability
    ensures Knows(sizes, Total(Publishable(sizes, handed)), handed, processes, ports, availability)
    ensures NothingOversized(sizes, handed) ==>
              KnowsAll(Total(Publishable(sizes, handed)), processes, ports, availability)
  {
    hide ApplyAll, Fitting, Latest, UpToDate, PortUpToDate, SameAt, Records, MirrorsPorts, NothingOversized;
    var known := Total(Publishable(sizes, handed));
    forall k
      ensures Lookup(known.processes, k) == Lookup(Records(processes), k)
              <==> UpToDate(handed.processes, MAX_ENTITY_BYTES, k)
    {
      FittingIsEnough(handed.processes, MAX_ENTITY_BYTES, k);
    }
    forall k ensures SameAt(known.ports, ports, k) <==> PortUpToDate(handed.ports, k) {
      PortsAreRightExactly(handed.ports, ports, k);
    }
    FittingAvailabilityIsEnough(sizes, handed.availabilities);
    if NothingOversized(sizes, handed) {
      NothingOversizedAllPublished(sizes, handed);
    }
  }

  lemma PresentIsKnownIfItFits(
    sizes: Sizes, known: Mirror, handed: Handed, processes: Processes, key: ProcessKey)
    requires forall m | m in handed.processes :: IsSized(sizes.record, sizes.processKey, m)
    requires Total(handed).processes == Records(processes) && key in processes
    requires Lookup(known.processes, key) == Lookup(Records(processes), key)
             <==> UpToDate(handed.processes, MAX_ENTITY_BYTES, key)
    ensures Lookup(known.processes, key) == Some(processes[key].record)
            <==> sizes.record(processes[key].record) <= MAX_ENTITY_BYTES
  {
    hide ApplyAll, UpToDate;
    WithheldIsOversized(sizes.record, sizes.processKey, handed.processes, key);
  }

  lemma KnownIsWrongOnlyIfOversized(
    sizes: Sizes, known: Mirror, handed: Handed, processes: Processes, ports: Ports, availability: FieldValue<()>)
    requires Knows(sizes, known, handed, processes, ports, availability) && SizedHanded(sizes, handed)
    requires Total(handed).processes == Records(processes) && Total(handed).availability == availability
    ensures WrongOnlyIfOversized(sizes, known, Total(handed), processes, ports, availability)
  {
    hide ApplyAll, Fitting, Latest, Records, SameAt, Oversized;
    forall m | m in handed.processes ensures IsSized(sizes.record, sizes.processKey, m) {
      assert SizedProcess(sizes, m.key, m.mutation);
    }
    forall m | m in handed.ports ensures IsSized(sizes.binding, sizes.portKey, m) {
      assert SizedPort(sizes, m.key, m.mutation);
    }
    forall k
      ensures || Lookup(known.processes, k) == Lookup(Records(processes), k)
              || Oversized(sizes.record, sizes.processKey, Records(processes), k)
    {
      WithheldIsOversized(sizes.record, sizes.processKey, handed.processes, k);
    }
    forall k | k in processes
      ensures Lookup(known.processes, k) == Some(processes[k].record)
              <==> sizes.record(processes[k].record) <= MAX_ENTITY_BYTES
    {
      PresentIsKnownIfItFits(sizes, known, handed, processes, k);
    }
    forall k
      ensures SameAt(known.ports, ports, k) || Oversized(sizes.binding, sizes.portKey, Total(handed).ports, k)
    {
      WithheldIsOversized(sizes.binding, sizes.portKey, handed.ports, k);
    }
  }
}
