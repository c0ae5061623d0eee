/** One scan of the process table: what each scanned record becomes, and what follows from it. */
module FastScan {
  import opened DiscoveryDomain
  import opened Text
  import opened PortIndex
  import opened Classification
  import opened Project
  import opened ProcessTable

  const MAX_PROCESS_BOOT_ID_BYTES: nat := 256
  const MAX_PROCESS_NATIVE_START_TIME_BYTES: nat := 128
  const MAX_UNSIGNED_64: nat := 0xFFFF_FFFF_FFFF_FFFF

  function DecimalValue(s: string): nat
    requires forall i | 0 <= i < |s| :: IsAsciiDigit(s[i])
  {
    if s == "" then 0
    else
      assert IsAsciiDigit(s[|s| - 1]);
      DecimalValue(s[..|s| - 1]) * 10 + (s[|s| - 1] as int - '0' as int)
  }

  /** The canonical form of a nonzero 64-bit unsigned number. */
  predicate IsCanonicalNonzero(s: string) {
    && s != "" && s[0] != '0'
    && (forall i | 0 <= i < |s| :: IsAsciiDigit(s[i]))
    && DecimalValue(s) <= MAX_UNSIGNED_64
  }

  predicate ValidInstanceKey(key: ProcessKey) {
    && key.pid != 0
    && NonEmptyBounded(key.bootId, MAX_PROCESS_BOOT_ID_BYTES) && '\0' !in key.bootId
    && NonEmptyBounded(key.nativeStartTime, MAX_PROCESS_NATIVE_START_TIME_BYTES) && '\0' !in key.nativeStartTime
    && IsCanonicalNonzero(key.nativeStartTime)
  }

  predicate ValidScanned(record: ProcessRecord) {
    && ValidInstanceKey(record.key)
    && (record.observation.parent.Known? && record.observation.parent.value.Some? ==>
          ValidInstanceKey(record.observation.parent.value.value))
  }

  function PreservedIfUnknown(value: FieldValue<string>, cached: FieldValue<string>): FieldValue<string> {
    if value.Unknown? then cached else value
  }

  /** A fast scan does not look at ports, projects or classification, and may miss what enrichment found. */
  function Normalized(scanned: ProcessRecord, cached: Option<ProcessRecord>): ProcessRecord {
    match cached
    case Some(c) =>
      scanned.(
        executablePath := PreservedIfUnknown(scanned.executablePath, c.executablePath),
        commandLine := PreservedIfUnknown(scanned.commandLine, c.commandLine),
        workingDirectory := PreservedIfUnknown(scanned.workingDirectory, c.workingDirectory),
        portBindings := c.portBindings, association := c.association, features := c.features,
        projectId := c.projectId, classification := c.classification, lastSeenRevision := c.lastSeenRevision)
    case None => scanned.(portBindings := Unknown, lastSeenRevision := 0)
  }

  function CachedRecord(t: Tables, key: ProcessKey): Option<ProcessRecord> {
    if key in t.processes then Some(t.processes[key].record) else None
  }

  /** What a scanned record becomes, recomputed in full. */
  function Observed(t: Tables, scanned: ProcessRecord, now: nat): ProcessRecord {
    var cached := CachedRecord(t, scanned.key);
    var base := Overlaid(t.bindings, Normalized(scanned, cached));
    match cached
    case None =>
      Reclassified(t.engine, NO_FACTS, EvidenceReset(base.(portBindings := PortValue(t, scanned.key, now))))
    case Some(c) =>
      Settled(
        c,
        if c.workingDirectory != base.workingDirectory then Reclassified(t.engine, NO_FACTS, EvidenceReset(base))
        else Reclassified(t.engine, FactsAt(t.facts, scanned.key), base))
  }

  /** The facts that survive: those of processes that are still there and still in the same directory. */
  function FactsAfter(facts: FactTable, before: Processes, after: Processes): FactTable {
    map k | k in facts && k in after && k !in Invalidated(before, after) :: facts[k]
  }

  function Invalidated(before: Processes, after: Processes): set<ProcessKey> {
    set k | k in before && k in after && before[k].record.workingDirectory != after[k].record.workingDirectory
  }

  /** Processes whose project has to be looked up: new ones, and those that changed directory. */
  function ToRescan(before: Processes, after: Processes): set<ProcessKey> {
    set k | k in after && after[k].record.workingDirectory.Known? && (k !in before || k in Invalidated(before, after))
  }

  lemma ObservedIsCoherent(t: Tables, scanned: ProcessRecord, now: nat, facts: FactTable)
    requires RecordsCoherent(t.engine, t.facts, t.bindings, t.processes) && FactsKept(t.facts, t.processes)
    requires var r := Observed(t, scanned, now);
             FactsAt(facts, scanned.key)
             == if scanned.key in t.processes
                   && t.processes[scanned.key].record.workingDirectory == r.workingDirectory
                then FactsAt(t.facts, scanned.key) else NO_FACTS
    ensures RecordCoherent(t.engine, facts, t.bindings, scanned.key, Observed(t, scanned, now))
  {
    hide Classify, FactsOf, Normalized, EvidenceReset, Reclassified, RecordCoherent, SameRecord;
    var key, cached := scanned.key, CachedRecord(t, scanned.key);
    var normalized := Normalized(scanned, cached);
    NormalizedKeeps(scanned, cached);
    var base := Overlaid(t.bindings, normalized);
    if cached.None? {
      ResetIsCoherent(t.engine, facts, t.bindings, key, base.(portBindings := PortValue(t, key, now)));
    } else {
      var c := cached.value;
      assert RecordCoherent(t.engine, t.facts, t.bindings, key, c);
      ObservedDirectory(t, scanned, now);
      var moved := c.workingDirectory != base.workingDirectory;
      if moved {
        ResetIsCoherent(t.engine, facts, t.bindings, key, base);
      } else {
        EvidenceDecidesFacts(t.engine, t.facts, t.bindings, key, c);
        ReclassifiedIsCoherent(t.engine, facts, t.bindings, key, base);
      }
      var next := Reclassified(
        t.engine, FactsAt(facts, key), if moved then EvidenceReset(base) else base);
      SettledIsCoherent(t.engine, facts, t.bindings, key, c, next);
    }
  }

  lemma NormalizedKeeps(scanned: ProcessRecord, cached: Option<ProcessRecord>)
    ensures var r := Normalized(scanned, cached);
            && r.key == scanned.key
            && (cached.Some? ==>
                  r.classification == cached.value.classification && r.projectId == cached.value.projectId)
            && (cached.Some? ==> r.association == cached.value.association && r.features == cached.value.features)
  {
  }

  lemma ResetIsCoherent(
    engine: Engine, facts: FactTable, bindings: Bindings, key: ProcessKey, base: ProcessRecord)
    requires base.key == key && base == Overlaid(bindings, base) && FactsAt(facts, key) == NO_FACTS
    ensures RecordCoherent(engine, facts, bindings, key, Reclassified(engine, NO_FACTS, EvidenceReset(base)))
  {
    hide Classify, FactsOf, RecordCoherent;
    ResetProvesNothing(base);
    ReclassifiedIsCoherent(engine, facts, bindings, key, EvidenceReset(base));
  }

  lemma EvidenceDecidesFacts(
    engine: Engine, facts: FactTable, bindings: Bindings, key: ProcessKey, record: ProcessRecord)
    requires RecordCoherent(engine, facts, bindings, key, record)
    ensures FactsAt(facts, key) == FactsOf(record.association, record.features)
  {
    hide Classify, FactsOf;
  }

  /** An observed record is in the directory that was scanned, or in the cached one if none was. */
  lemma ObservedDirectory(t: Tables, scanned: ProcessRecord, now: nat)
    requires scanned.key in t.processes
    ensures Observed(t, scanned, now).workingDirectory
            == Normalized(scanned, CachedRecord(t, scanned.key)).workingDirectory
  {
    hide Classify, Normalized;
  }

  /** What one pass over a scan collects. */
  datatype Collected = Collected(
    next: Processes, upserted: seq<ProcessRecord>,
    newKeys: set<ProcessKey>, invalidated: set<ProcessKey>, rescan: set<ProcessKey>)

  function ScannedKeys(scan: seq<ProcessRecord>): set<ProcessKey> {
    set i | 0 <= i < |scan| :: scan[i].key
  }

  /** The next table holds exactly the scanned processes. */
  ghost predicate TableFrom(
    observe: ProcessRecord -> ProcessRecord, scan: seq<ProcessRecord>, expiresAt: nat, next: Processes)
  {
    && next.Keys == ScannedKeys(scan)
    && (forall i | 0 <= i < |scan| :: next[scan[i].key] == ProcessEntry(observe(scan[i]), expiresAt))
  }

  ghost predicate SetsFrom(before: Processes, c: Collected) {
    && Changes(before, c.next, c.upserted)
    && c.newKeys == c.next.Keys - before.Keys
    && c.invalidated == Invalidated(before, c.next)
    && c.rescan == ToRescan(before, c.next)
  }

  ghost predicate CollectedFrom(
    observe: ProcessRecord -> ProcessRecord, before: Processes, scan: seq<ProcessRecord>, expiresAt: nat, c: Collected)
  {
    TableFrom(observe, scan, expiresAt, c.next) && SetsFrom(before, c)
  }

  function Observer(t: Tables, now: nat): ProcessRecord -> ProcessRecord {
    (scanned: ProcessRecord) => Observed(t, scanned, now)
  }

  /** Every identity is valid and none is repeated. */
  predicate AcceptedScan(scan: seq<ProcessRecord>) {
    scan == []
    || (var front, last := scan[..|scan| - 1], scan[|scan| - 1];
        AcceptedScan(front) && ValidScanned(last) && last.key !in ScannedKeys(front))
  }

  /** A scan is accepted exactly if every identity is valid and no two records have the same. */
  lemma {:induction false} AcceptedScanIsDistinct(scan: seq<ProcessRecord>)
    ensures AcceptedScan(scan)
            <==> && (forall i | 0 <= i < |scan| :: ValidScanned(scan[i]))
                 && (forall i, j | 0 <= i < j < |scan| :: scan[i].key != scan[j].key)
  {
    hide ValidScanned;
    if scan != [] {
      var front := scan[..|scan| - 1];
      AcceptedScanIsDistinct(front);
      assert forall i | 0 <= i < |front| :: front[i] == scan[i];
    }
  }

  lemma {:induction false} PrefixesAreAccepted(scan: seq<ProcessRecord>, n: nat)
    requires AcceptedScan(scan) && n <= |scan|
    ensures AcceptedScan(scan[..n])
  {
    if n < |scan| {
      var front := scan[..|scan| - 1];
      PrefixesAreAccepted(front, n);
      assert front[..n] == scan[..n];
    } else {
      assert scan[..n] == scan;
    }
  }

  predicate Moved(before: Processes, record: ProcessRecord) {
    record.key in before && before[record.key].record.workingDirectory != record.workingDirectory
  }

  function Collecting(before: Processes, c: Collected, record: ProcessRecord, expiresAt: nat): Collected {
    var isNew, moved := record.key !in before, Moved(before, record);
    Collected(
      c.next[record.key := ProcessEntry(record, expiresAt)],
      if isNew || before[record.key].record != record then c.upserted + [record] else c.upserted,
      if isNew then c.newKeys + {record.key} else c.newKeys,
      if moved then c.invalidated + {record.key} else c.invalidated,
      if (isNew || moved) && record.workingDirectory.Known? then c.rescan + {record.key} else c.rescan)
  }

  lemma TableGrows(
    observe: ProcessRecord -> ProcessRecord, scan: seq<ProcessRecord>, expiresAt: nat, next: Processes,
    scanned: ProcessRecord)
    requires TableFrom(observe, scan, expiresAt, next) && scanned.key !in ScannedKeys(scan)
    ensures TableFrom(
              observe, scan + [scanned], expiresAt, next[scanned.key := ProcessEntry(observe(scanned), expiresAt)])
  {
    var all := scan + [scanned];
    assert ScannedKeys(all) == ScannedKeys(scan) + {scanned.key} by {
      assert all[|scan|].key == scanned.key;
      forall k | k in ScannedKeys(scan) ensures k in ScannedKeys(all) {
        var i :| 0 <= i < |scan| && scan[i].key == k;
        assert all[i].key == k;
      }
    }
    forall i | 0 <= i < |scan| ensures all[i].key != scanned.key && all[i] == scan[i] {
      assert scan[i].key in ScannedKeys(scan);
    }
  }

  lemma SetsGrow(before: Processes, c: Collected, record: ProcessRecord, expiresAt: nat)
    requires SetsFrom(before, c) && record.key !in c.next
    ensures SetsFrom(before, Collecting(before, c, record, expiresAt))
  {
    hide Changes, Invalidated, ToRescan;
    ChangesCollected(before, c, record, expiresAt);
    MovesCollected(before, c.next, record, expiresAt);
    RescansCollected(before, c.next, record, expiresAt);
  }

  lemma ChangesCollected(before: Processes, c: Collected, record: ProcessRecord, expiresAt: nat)
    requires Changes(before, c.next, c.upserted) && record.key !in c.next
    ensures var d := Collecting(before, c, record, expiresAt); Changes(before, d.next, d.upserted)
  {
    var entry := ProcessEntry(record, expiresAt);
    if record.key !in before || before[record.key].record != record {
      ChangesGrow(before, c.next, c.upserted, record.key, entry);
    }
  }

  lemma MovesCollected(before: Processes, next: Processes, record: ProcessRecord, expiresAt: nat)
    requires record.key !in next
    ensures Invalidated(before, next[record.key := ProcessEntry(record, expiresAt)])
            == Invalidated(before, next) + (if Moved(before, record) then {record.key} else {})
  {
  }

  lemma RescansCollected(before: Processes, next: Processes, record: ProcessRecord, expiresAt: nat)
    requires record.key !in next
    ensures ToRescan(before, next[record.key := ProcessEntry(record, expiresAt)])
            == ToRescan(before, next)
               + (if (record.key !in before || Moved(before, record)) && record.workingDirectory.Known?
                  then {record.key} else {})
  {
    hide Invalidated;
    MovesCollected(before, next, record, expiresAt);
    assert Invalidated(before, next) !! {record.key} by { OnlyListedMove(before, next); }
  }

  lemma OnlyListedMove(before: Processes, next: Processes)
    ensures Invalidated(before, next) <= next.Keys
  {
  }

  /** The code path: reclassify only if an input differs, keep the cached record if nothing visible changed. */
  method ObserveRecord(t: Tables, scanned: ProcessRecord, now: nat) returns (record: ProcessRecord)
    requires RecordsCoherent(t.engine, t.facts, t.bindings, t.processes) && FactsKept(t.facts, t.processes)
    ensures record == Observed(t, scanned, now) && record.key == scanned.key
  {
    hide Classify, FactsOf, Normalized, SameRecord, SamePorts, PortValue;
    var cached := CachedRecord(t, scanned.key);
    NormalizedKeeps(scanned, cached);
    record := Overlaid(t.bindings, Normalized(scanned, cached));
    if cached.None? {
      record := EvidenceReset(record.(portBindings := PortValue(t, scanned.key, now)));
      record := Reclassified(t.engine, FactsAt(t.facts, scanned.key), record);
      return;
    }
    var c := cached.value;
    assert RecordCoherent(t.engine, t.facts, t.bindings, scanned.key, c);
    var moved := c.workingDirectory != record.workingDirectory;
    if moved {
      record := EvidenceReset(record);
    }
    if ClassificationInputsDiffer(c, record) {
      record := Reclassified(t.engine, if moved then NO_FACTS else FactsAt(t.facts, scanned.key), record);
    } else {
      SkippingSameInputsIsSound(t.engine, FactsAt(t.facts, scanned.key), c, record);
    }
    if SameRecord(c, record) {
      record := c;
    }
  }

  lemma OneMoreScanned(scan: seq<ProcessRecord>, i: nat)
    requires i < |scan|
    ensures scan[..i + 1] == scan[..i] + [scan[i]]
    ensures AcceptedScan(scan[..i + 1])
            <==> AcceptedScan(scan[..i]) && ValidScanned(scan[i]) && scan[i].key !in ScannedKeys(scan[..i])
  {
    hide ValidScanned, ScannedKeys;
    assert scan[..i + 1][..i] == scan[..i];
  }

  lemma CollectedKeys(
    observe: ProcessRecord -> ProcessRecord, scan: seq<ProcessRecord>, expiresAt: nat, next: Processes)
    requires TableFrom(observe, scan, expiresAt, next)
    ensures next.Keys == ScannedKeys(scan)
  {
  }

  method CollectOne(
    ghost observe: ProcessRecord -> ProcessRecord, before: Processes, scan: seq<ProcessRecord>, i: nat,
    record: ProcessRecord, expiresAt: nat, c: Collected)
    returns (next: Result<Collected>)
    requires i < |scan| && record == observe(scan[i]) && record.key == scan[i].key
    requires CollectedFrom(observe, before, scan[..i], expiresAt, c) && AcceptedScan(scan[..i])
    ensures next.Ok? <==> AcceptedScan(scan[..i + 1])
    ensures next.Ok? ==> CollectedFrom(observe, before, scan[..i + 1], expiresAt, next.value)
    ensures next.Err? ==> next.error == PlatformError
  {
    hide AcceptedScan, ValidScanned, TableFrom, SetsFrom, ScannedKeys;
    OneMoreScanned(scan, i);
    CollectedKeys(observe, scan[..i], expiresAt, c.next);
    if !ValidScanned(scan[i]) || scan[i].key in c.next {
      return Err(PlatformError);
    }
    TableGrows(observe, scan[..i], expiresAt, c.next, scan[i]);
    SetsGrow(before, c, record, expiresAt);
    next := Ok(Collecting(before, c, record, expiresAt));
  }

  lemma NothingCollected(observe: ProcessRecord -> ProcessRecord, before: Processes, expiresAt: nat)
    ensures CollectedFrom(observe, before, [], expiresAt, Collected(map[], [], {}, {}, {})) && AcceptedScan([])
  {
  }

  /** Nothing is collected from a scan with an invalid or repeated identity. */
  method CollectFastScan(t: Tables, scan: seq<ProcessRecord>, now: nat, expiresAt: nat) returns (c: Result<Collected>)
    requires RecordsCoherent(t.engine, t.facts, t.bindings, t.processes) && FactsKept(t.facts, t.processes)
    ensures c.Ok? <==> AcceptedScan(scan)
    ensures c.Ok? ==> CollectedFrom(Observer(t, now), t.processes, scan, expiresAt, c.value)
    ensures c.Err? ==> c.error == PlatformError
  {
    hide AcceptedScan, Observed, CollectedFrom;
    ghost var observe := Observer(t, now);
    NothingCollected(observe, t.processes, expiresAt);
    c := Ok(Collected(map[], [], {}, {}, {}));
    for i := 0 to |scan|
      invariant c.Ok? && CollectedFrom(observe, t.processes, scan[..i], expiresAt, c.value) && AcceptedScan(scan[..i])
    {
      var record := ObserveRecord(t, scan[i], now);
      c := CollectOne(observe, t.processes, scan, i, record, expiresAt, c.value);
      if c.Err? {
        if AcceptedScan(scan) {
          PrefixesAreAccepted(scan, i + 1);
        }
        return;
      }
    }
    assert scan[..|scan|] == scan;
  }

  /** The collected table is coherent again, up to the ports of the processes that left. */
  lemma CollectedIsCoherent(t: Tables, scan: seq<ProcessRecord>, before: nat, now: nat, expiresAt: nat, c: Collected)
    requires Coherent(t, before) && before <= now
    requires CollectedFrom(Observer(t, now), t.processes, scan, expiresAt, c)
    ensures var facts := FactsAfter(t.facts, t.processes, c.next);
            && RecordsCoherent(t.engine, facts, t.bindings, c.next)
            && FactsKept(facts, c.next)
            && PortsShown(t.(processes := c.next), now)
  {
    hide RecordCoherent, ShowsPorts, Observed, FactsAfter, SetsFrom;
    var facts := FactsAfter(t.facts, t.processes, c.next);
    FactsThatSurvive(t, c.next);
    forall k | k in c.next
      ensures RecordCoherent(t.engine, facts, t.bindings, k, c.next[k].record)
      ensures ShowsPorts(c.next[k].record.portBindings, k, t.availability, t.ports, t.results, now)
    {
      assert k in ScannedKeys(scan);
      var i :| 0 <= i < |scan| && scan[i].key == k;
      ObservedIsCoherent(t, scan[i], now, facts);
      ObservedShowsPorts(t, scan[i], before, now);
    }
  }

  lemma FactsThatSurvive(t: Tables, next: Processes)
    requires FactsKept(t.facts, t.processes)
    ensures var facts := FactsAfter(t.facts, t.processes, next);
            && FactsKept(facts, next)
            && (forall k | k in next ::
                  FactsAt(facts, k)
                  == if k in t.processes && t.processes[k].record.workingDirectory == next[k].record.workingDirectory
                     then FactsAt(t.facts, k) else NO_FACTS)
  {
  }

  lemma ObservedShowsPorts(t: Tables, scanned: ProcessRecord, before: nat, now: nat)
    requires PortsShown(t, before) && before <= now
    ensures ShowsPorts(Observed(t, scanned, now).portBindings, scanned.key, t.availability, t.ports, t.results, now)
  {
    var cached := CachedRecord(t, scanned.key);
    if cached.Some? {
      var c := cached.value;
      var base := Overlaid(t.bindings, Normalized(scanned, cached));
      assert base.portBindings == c.portBindings;
      assert Observed(t, scanned, now).portBindings == c.portBindings;
    }
  }

  /** Whoever neither left nor moved keeps its directory. */
  lemma UnforgottenStay(before: Processes, c: Collected)
    requires SetsFrom(before, c)
    ensures forall k | k in Directories(before) && k !in c.invalidated + (before.Keys - c.next.Keys) ::
              k in Directories(c.next) && Directories(c.next)[k] == Directories(before)[k]
    ensures c.newKeys == c.next.Keys - before.Keys
  {
  }

}
