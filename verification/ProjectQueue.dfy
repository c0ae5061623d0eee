/**
 The project-association queue: like the enrichment queue, but each entry also remembers the working
 directory and the catalog generation it was asked for, and work for any other is never started.
 */
module ProjectQueue {
  import opened DiscoveryDomain
  import opened EnrichmentQueue

  datatype Entry = Entry(priority: Priority, sequence: nat, directory: string, generation: nat)

  datatype Scan = Scan(taskId: nat, cancelled: bool, priority: Priority, directory: string, generation: nat)

  datatype Proof = Proof(expiresAt: nat, directory: string, generation: nat)

  type Directories = map<ProcessKey, FieldValue<string>>

  /** The work is still about where the process is and about the catalog in force. */
  predicate Current(directories: Directories, generation: nat, key: ProcessKey, directory: string, asked: nat) {
    key in directories && directories[key] == Known(directory) && asked == generation
  }

  predicate FreshProof(cache: map<ProcessKey, Proof>, key: ProcessKey, directory: string, generation: nat, now: nat) {
    key in cache && cache[key].expiresAt > now && cache[key].generation == generation
    && cache[key].directory == directory
  }

  predicate EntryBefore(a: Entry, b: Entry) {
    a.priority.Rank() > b.priority.Rank()
    || (a.priority == b.priority && a.sequence <= b.sequence)
  }

  /** Until the numbers run out, what waits has a smaller number than what comes next. */
  predicate EntriesNumbered(pending: map<ProcessKey, Entry>, next: nat) {
    forall k | k in pending :: pending[k].sequence < next || pending[k].sequence == next == MAX_ORDERING_SEQUENCE
  }

  /** A new entry goes behind everything of its priority. */
  predicate EntryGoesBehind(pending: map<ProcessKey, Entry>, entry: Entry) {
    forall k | k in pending && pending[k].priority == entry.priority :: !EntryBefore(entry, pending[k])
  }

  datatype Board = Board(
    running: map<ProcessKey, Scan>, pending: map<ProcessKey, Entry>, cache: map<ProcessKey, Proof>, nextTaskId: nat)

  function Waiting(b: Board): set<ProcessKey> {
    b.pending.Keys - b.running.Keys
  }

  ghost predicate SteadyBoard(b: Board, concurrency: nat) {
    && |b.running| <= concurrency
    && (forall k | k in b.pending && k in b.running :: b.running[k].cancelled)
    && (forall k | k in b.running :: b.running[k].taskId < b.nextTaskId)
  }

  /** Everything queued, proven or running uncancelled is about the present. */
  ghost predicate UpToDate(b: Board, directories: Directories, generation: nat) {
    && (forall k | k in b.pending ::
      Current(directories, generation, k, b.pending[k].directory, b.pending[k].generation))
    && (forall k | k in b.running && !b.running[k].cancelled ::
          Current(directories, generation, k, b.running[k].directory, b.running[k].generation))
    && (forall k | k in b.cache :: Current(directories, generation, k, b.cache[k].directory, b.cache[k].generation))
  }

  predicate Pointless(b: Board, directories: Directories, generation: nat, key: ProcessKey, now: nat)
    requires key in b.pending
  {
    var e := b.pending[key];
    !Current(directories, generation, key, e.directory, e.generation)
    || FreshProof(b.cache, key, e.directory, e.generation, now)
  }

  /** One dispatch: pointless and unrequestable entries are dropped, others become scans. */
  function BoardAfter(
    ok: string -> bool, b: Board, directories: Directories, generation: nat, key: ProcessKey, now: nat): Board
    requires key in b.pending
  {
    var e := b.pending[key];
    if Pointless(b, directories, generation, key, now) then b.(pending := b.pending - {key})
    else if !ok(e.directory) then b.(pending := b.pending - {key}, cache := b.cache - {key})
    else Board(
      b.running[key := Scan(b.nextTaskId, false, e.priority, e.directory, e.generation)],
      b.pending - {key}, b.cache - {key}, b.nextTaskId + 1)
  }

  ghost predicate ScanFrom(
    ok: string -> bool, before: Board, after: Board, directories: Directories, generation: nat, key: ProcessKey)
  {
    && key in before.pending && key !in after.pending && key in after.running && key !in after.cache
    && var scan, entry := after.running[key], before.pending[key];
       && !scan.cancelled && scan.priority == entry.priority
       && scan.directory == entry.directory && scan.generation == entry.generation
       && Current(directories, generation, key, scan.directory, scan.generation)
       && ok(scan.directory) && before.nextTaskId <= scan.taskId
  }

  ghost predicate BoardFilled(
    ok: string -> bool, before: Board, after: Board, directories: Directories, generation: nat,
    failed: set<ProcessKey>, now: nat)
  {
    && before.nextTaskId <= after.nextTaskId
    && (forall k | k in after.cache :: k in before.cache && after.cache[k] == before.cache[k])
    && (forall k | k in before.cache && k !in after.cache ::
          k in before.pending && k !in after.pending && !Pointless(before, directories, generation, k, now))
    && (forall k | k in after.pending :: k in before.pending && after.pending[k] == before.pending[k])
    && (forall k | k in before.running :: k in after.running && after.running[k] == before.running[k])
    && (forall k | k in after.running && k !in before.running ::
      ScanFrom(ok, before, after, directories, generation, k))
    && (forall k | k in failed :: k in before.pending && k !in after.pending && !ok(before.pending[k].directory))
    && (forall k | k in before.pending && k !in after.pending ::
          (k in after.running && k !in before.running) || k in failed
          || Pointless(before, directories, generation, k, now))
    && InOrder(before, after)
  }

  /** No entry that is still waiting comes before one that was started. */
  ghost predicate InOrder(before: Board, after: Board) {
    forall k, j | k in after.running && k !in before.running && j in after.pending && j !in before.running ::
      k in before.pending && EntryBefore(before.pending[k], after.pending[j])
  }

  /** What was started outranks, or came before, whatever could have been started and still waits. */
  ghost predicate BestScansFirst(before: Board, after: Board) {
    forall k, j | k in after.running && k !in before.running && j in after.pending && j !in before.running ::
      && k in before.pending && !Outranks(after.pending[j].priority, before.pending[k].priority)
      && (after.pending[j].priority == before.pending[k].priority ==>
            before.pending[k].sequence <= after.pending[j].sequence)
  }

  lemma InOrderIsBestFirst(before: Board, after: Board)
    requires InOrder(before, after)
    ensures BestScansFirst(before, after)
  {
  }

  ghost predicate IsFirst(b: Board, key: ProcessKey) {
    key in Waiting(b) && forall k | k in Waiting(b) :: EntryBefore(b.pending[key], b.pending[k])
  }

  lemma DispatchKeepsSteady(
    ok: string -> bool, b: Board, concurrency: nat, directories: Directories, generation: nat, key: ProcessKey,
      now: nat)
    requires SteadyBoard(b, concurrency) && |b.running| < concurrency && key in b.pending
    ensures var r := BoardAfter(ok, b, directories, generation, key, now);
            SteadyBoard(r, concurrency) && |r.pending| < |b.pending| && r.cache.Keys <= b.cache.Keys
  {
  }

  lemma DropFillsBoard(
    ok: string -> bool, before: Board, b: Board, directories: Directories, generation: nat,
    failed: set<ProcessKey>, key: ProcessKey, now: nat)
    requires BoardFilled(ok, before, b, directories, generation, failed, now) && IsFirst(b, key)
    requires Pointless(b, directories, generation, key, now)
    ensures BoardFilled(ok, before, b.(pending := b.pending - {key}), directories, generation, failed, now)
  {
    hide EntryBefore, Current, ScanFrom, InOrder;
    var r := b.(pending := b.pending - {key});
    FewerInOrder(before, b, r);
    forall k | k in r.running && k !in before.running ensures ScanFrom(ok, before, r, directories, generation, k) {
      StillScans(ok, before, b, r, directories, generation, k);
    }
  }

  lemma FewerInOrder(before: Board, b: Board, r: Board)
    requires InOrder(before, b) && r.running == b.running
    requires forall k | k in r.pending :: k in b.pending && r.pending[k] == b.pending[k]
    ensures InOrder(before, r)
  {
  }

  lemma StillScans(
    ok: string -> bool, before: Board, b: Board, r: Board, directories: Directories, generation: nat, key: ProcessKey)
    requires ScanFrom(ok, before, b, directories, generation, key) && r.running == b.running
    requires r.pending.Keys <= b.pending.Keys && r.cache.Keys <= b.cache.Keys
    ensures ScanFrom(ok, before, r, directories, generation, key)
  {
  }

  lemma FailFillsBoard(
    ok: string -> bool, before: Board, b: Board, directories: Directories, generation: nat,
    failed: set<ProcessKey>, key: ProcessKey, now: nat)
    requires BoardFilled(ok, before, b, directories, generation, failed, now) && IsFirst(b, key)
    requires !Pointless(b, directories, generation, key, now) && !ok(b.pending[key].directory)
    ensures BoardFilled(
              ok, before, b.(pending := b.pending - {key}, cache := b.cache - {key}), directories, generation,
              failed + {key}, now)
  {
    hide EntryBefore, Current, ScanFrom, InOrder;
    var r := b.(pending := b.pending - {key}, cache := b.cache - {key});
    FewerInOrder(before, b, r);
    forall k | k in r.running && k !in before.running ensures ScanFrom(ok, before, r, directories, generation, k) {
      StillScans(ok, before, b, r, directories, generation, k);
    }
  }

  lemma StartFillsBoard(
    ok: string -> bool, before: Board, b: Board, directories: Directories, generation: nat,
    failed: set<ProcessKey>, key: ProcessKey, now: nat)
    requires BoardFilled(ok, before, b, directories, generation, failed, now) && IsFirst(b, key)
    requires !Pointless(b, directories, generation, key, now) && ok(b.pending[key].directory)
    ensures BoardFilled(
              ok, before, BoardAfter(ok, b, directories, generation, key, now), directories, generation, failed, now)
  {
    var r := BoardAfter(ok, b, directories, generation, key, now);
    forall k | k in r.running && k !in before.running ensures ScanFrom(ok, before, r, directories, generation, k) {
      if k != key {
        assert ScanFrom(ok, before, b, directories, generation, k);
      }
    }
    forall k, j | k in r.running && k !in before.running && j in r.pending && j !in before.running
      ensures k in before.pending && EntryBefore(before.pending[k], r.pending[j])
    {
      if k == key {
        assert j in b.running ==> ScanFrom(ok, before, b, directories, generation, j);
        assert j in Waiting(b);
      } else {
        assert ScanFrom(ok, before, b, directories, generation, k);
      }
    }
  }

  lemma DispatchFillsBoard(
    ok: string -> bool, before: Board, b: Board, directories: Directories, generation: nat,
    failed: set<ProcessKey>, key: ProcessKey, now: nat)
    requires BoardFilled(ok, before, b, directories, generation, failed, now) && IsFirst(b, key)
    ensures var r := BoardAfter(ok, b, directories, generation, key, now);
            var bad := !Pointless(b, directories, generation, key, now) && !ok(b.pending[key].directory);
            BoardFilled(ok, before, r, directories, generation, if bad then failed + {key} else failed, now)
  {
    if Pointless(b, directories, generation, key, now) {
      DropFillsBoard(ok, before, b, directories, generation, failed, key, now);
    } else if !ok(b.pending[key].directory) {
      FailFillsBoard(ok, before, b, directories, generation, failed, key, now);
    } else {
      StartFillsBoard(ok, before, b, directories, generation, failed, key, now);
    }
  }

  /** Filling slots keeps everything about the present. */
  lemma FilledIsUpToDate(
    ok: string -> bool, before: Board, after: Board, directories: Directories, generation: nat,
    failed: set<ProcessKey>, now: nat)
    requires BoardFilled(ok, before, after, directories, generation, failed, now)
    requires UpToDate(before, directories, generation)
    ensures UpToDate(after, directories, generation)
  {
  }

  /** Nothing but the entries of one key changes, and what remains of them is about the same thing. */
  ghost predicate OnlyTouches(before: Board, after: Board, key: ProcessKey) {
    && after.cache == before.cache && after.nextTaskId == before.nextTaskId
    && after.running.Keys == before.running.Keys
    && after.pending.Keys <= before.pending.Keys && before.pending.Keys <= after.pending.Keys + {key}
    && (forall k | k in after.running ::
          && (k != key ==> after.running[k] == before.running[k])
          && (!after.running[k].cancelled ==> !before.running[k].cancelled)
          && after.running[k].directory == before.running[k].directory
          && after.running[k].generation == before.running[k].generation)
    && (forall k | k in after.pending ::
          && (k != key ==> after.pending[k] == before.pending[k])
          && after.pending[k].directory == before.pending[k].directory
          && after.pending[k].generation == before.pending[k].generation)
  }

  lemma TouchingKeepsUpToDate(before: Board, after: Board, key: ProcessKey, directories: Directories, generation: nat)
    requires OnlyTouches(before.(cache := before.cache - {key}), after, key)
    requires UpToDate(before, directories, generation)
    ensures UpToDate(after, directories, generation)
  {
  }

  /** A new proof in a full cache takes the place of the one that expires first. */
  ghost predicate EvictsOldest(
    cache: map<ProcessKey, Proof>, capacity: nat, key: ProcessKey, evicted: Option<ProcessKey>)
  {
    && (evicted.Some? <==> key !in cache && |cache| == capacity)
    && (evicted.Some? ==>
          && evicted.value in cache && evicted.value != key
          && forall j | j in cache :: cache[evicted.value].expiresAt <= cache[j].expiresAt)
  }

  /** No proof is added or changed. */
  ghost predicate ProofsShrink(before: map<ProcessKey, Proof>, after: map<ProcessKey, Proof>) {
    forall k | k in after :: k in before && after[k] == before[k]
  }

  /** The scan a task belongs to, if it is still the current one of its process. */
  function ScanOf(running: map<ProcessKey, Scan>, key: ProcessKey, taskId: nat): Option<Scan> {
    if key in running && running[key].taskId == taskId then Some(running[key]) else None
  }

  lemma EndingIsUpToDate(before: Board, after: Board, directories: Directories, generation: nat)
    requires UpToDate(before, directories, generation)
    requires after.pending == before.pending && after.cache == before.cache
    requires forall k | k in after.running :: k in before.running && after.running[k] == before.running[k]
    ensures UpToDate(after, directories, generation)
  {
  }

  /** The scan of the process is asked to stop, the others go on. */
  predicate StopsScan(before: map<ProcessKey, Scan>, after: map<ProcessKey, Scan>, key: ProcessKey) {
    && after.Keys == before.Keys
    && (forall k | k in after ::
          after[k] == if k == key then before[k].(cancelled := true) else before[k])
  }

  lemma CancellingIsUpToDate(before: Board, after: Board, key: ProcessKey, directories: Directories, generation: nat)
    requires UpToDate(before, directories, generation) && after.cache == before.cache
    requires after.pending == before.pending - {key} && after.running == CancelledScan(before.running, key)
    ensures UpToDate(after, directories, generation)
    ensures StopsScan(before.running, after.running, key)
  {
  }

  lemma StoppingIsUpToDate(before: Board, after: Board, directories: Directories, generation: nat)
    requires UpToDate(before, directories, generation) && after.cache == before.cache && after.pending == map[]
    requires forall k | k in after.running :: after.running[k].cancelled
    ensures UpToDate(after, directories, generation)
  {
  }

  /** A proof about the present may take the place of another. */
  lemma ProvenIsUpToDate(
    before: Board, after: Board, key: ProcessKey, proof: Proof, directories: Directories, generation: nat)
    requires UpToDate(before, directories, generation)
    requires Current(directories, generation, key, proof.directory, proof.generation)
    requires after.pending == before.pending && after.running == before.running
    requires forall k | k in after.cache ::
               if k == key then after.cache[k] == proof else k in before.cache && after.cache[k] == before.cache[k]
    ensures UpToDate(after, directories, generation)
  {
  }

  /** Nothing is queued or proven, and whatever still runs is cancelled. */
  ghost predicate Idle(b: Board) {
    b.pending == map[] && b.cache == map[] && forall k | k in b.running :: b.running[k].cancelled
  }

  lemma IdleIsUpToDate(b: Board, directories: Directories, generation: nat)
    requires Idle(b)
    ensures UpToDate(b, directories, generation)
  {
  }

  /** Nothing is queued, proven or running uncancelled for these processes. */
  ghost predicate Avoids(b: Board, keys: set<ProcessKey>) {
    && b.pending.Keys !! keys && b.cache.Keys !! keys
    && (forall k | k in b.running && k in keys :: b.running[k].cancelled)
  }

  lemma NothingToAvoid(b: Board)
    ensures Avoids(b, {}) && b.cache - {} == b.cache && forall k :: SameOnBoard(b, b, k)
  {
  }

  lemma MinusTwice(cache: map<ProcessKey, Proof>, keys: set<ProcessKey>, key: ProcessKey)
    ensures cache - keys - {key} == cache - (keys + {key})
  {
  }

  /** After that, it does not matter what becomes of them. */
  lemma AvoidedMayChange(
    b: Board, keys: set<ProcessKey>, before: Directories, after: Directories, generation: nat)
    requires UpToDate(b, before, generation) && Avoids(b, keys)
    requires forall k | k in before && k !in keys :: k in after && after[k] == before[k]
    ensures UpToDate(b, after, generation)
  {
  }

  lemma ForgettingAvoids(b: Board, after: Board, key: ProcessKey, keys: set<ProcessKey>)
    requires Avoids(b, keys)
    requires after.pending == b.pending - {key} && after.cache == b.cache - {key}
    requires after.running == CancelledScan(b.running, key)
    ensures Avoids(after, keys + {key})
    ensures forall k | k != key :: SameOnBoard(b, after, k)
    ensures forall directories, generation | UpToDate(b, directories, generation) ::
              UpToDate(after, directories, generation)
  {
  }

  lemma EnqueuedIsUpToDate(before: Board, after: Board, key: ProcessKey, directories: Directories, generation: nat)
    requires UpToDate(before, directories, generation) && key in after.pending
    requires after == before.(pending := before.pending[key := after.pending[key]])
    requires Current(directories, generation, key, after.pending[key].directory, after.pending[key].generation)
    ensures UpToDate(after, directories, generation)
  {
  }

  /** Once the slots are filled, a current entry without a proof still waits, is being scanned, or was reported. */
  lemma QueuedIsServed(
    ok: string -> bool, before: Board, after: Board, directories: Directories, generation: nat,
    failed: set<ProcessKey>, key: ProcessKey, now: nat)
    requires BoardFilled(ok, before, after, directories, generation, failed, now)
    requires key in before.pending && key !in before.cache
    requires var entry := before.pending[key];
             && Current(directories, generation, key, entry.directory, entry.generation)
             && (key in before.running ==> before.running[key].cancelled)
    ensures var entry := before.pending[key];
            || (key in after.pending && after.pending[key] == entry)
            || (key in failed && !ok(entry.directory))
            || (key in after.running && !after.running[key].cancelled
                && after.running[key].directory == entry.directory
                && after.running[key].generation == entry.generation)
    ensures key in after.pending ==> after.pending[key] == before.pending[key]
    ensures key in after.running && !after.running[key].cancelled ==>
              after.running[key].priority == before.pending[key].priority
    ensures ProofsShrink(before.cache, after.cache)
  {
    if key in after.running && key !in before.running {
      assert ScanFrom(ok, before, after, directories, generation, key);
    }
    if key !in after.pending && key !in failed {
      assert !Pointless(before, directories, generation, key, now);
    }
  }

  /** The project of the process in this directory is proven, being looked up, or about to be. */
  predicate Handled(b: Board, key: ProcessKey, directory: string, generation: nat, now: nat) {
    || FreshProof(b.cache, key, directory, generation, now)
    || (key in b.running && !b.running[key].cancelled
        && b.running[key].directory == directory && b.running[key].generation == generation)
    || (key in b.pending && b.pending[key].directory == directory && b.pending[key].generation == generation)
  }

  /** What is proven, queued and running for the process is the same. */
  predicate SameOnBoard(before: Board, after: Board, key: ProcessKey) {
    && (key in after.pending <==> key in before.pending)
    && (key in after.pending ==> after.pending[key] == before.pending[key])
    && (key in after.running <==> key in before.running)
    && (key in after.running ==> after.running[key] == before.running[key])
    && (key in after.cache <==> key in before.cache)
    && (key in after.cache ==> after.cache[key] == before.cache[key])
  }

  lemma SameOnBoardTwice(a: Board, b: Board, c: Board, done: set<ProcessKey>, key: ProcessKey)
    requires forall k | k !in done :: SameOnBoard(a, b, k)
    requires forall k | k != key :: SameOnBoard(b, c, k)
    ensures forall k | k !in done + {key} :: SameOnBoard(a, c, k)
  {
    forall k | k !in done + {key} ensures SameOnBoard(a, c, k) {
      assert SameOnBoard(a, b, k) && SameOnBoard(b, c, k);
    }
  }

  /** Everything that was handled still is, apart from failures. */
  ghost predicate KeepsHandled(
    before: Board, after: Board, directories: Directories, generation: nat, failed: set<ProcessKey>, now: nat,
    except: set<ProcessKey>)
  {
    forall k | k in directories && directories[k].Known? && k !in except
               && Handled(before, k, directories[k].value, generation, now) ::
      Handled(after, k, directories[k].value, generation, now) || k in failed
  }

  /** Filling slots drops a current entry only for a scan, a failure or a proof. */
  lemma FillingKeepsHandled(
    ok: string -> bool, before: Board, after: Board, directories: Directories, generation: nat,
    failed: set<ProcessKey>, now: nat)
    requires BoardFilled(ok, before, after, directories, generation, failed, now)
    ensures KeepsHandled(before, after, directories, generation, failed, now, {})
  {
    hide InOrder, EntryBefore;
    forall k | k in directories && directories[k].Known? && Handled(before, k, directories[k].value, generation, now)
      ensures Handled(after, k, directories[k].value, generation, now) || k in failed
    {
      if k in before.pending && k !in after.pending && k in after.running && k !in before.running {
        assert ScanFrom(ok, before, after, directories, generation, k);
      }
    }
  }

  /** Work on one key leaves the others handled. */
  lemma TouchingKeepsHandled(before: Board, after: Board, key: ProcessKey, directories: Directories, generation: nat,
    now: nat)
    requires OnlyTouches(before.(cache := before.cache - {key}), after, key)
    ensures KeepsHandled(before, after, directories, generation, {}, now, {key})
  {
  }

  lemma TouchingKeeps(before: Board, after: Board, key: ProcessKey, directories: Directories, generation: nat, now: nat)
    requires OnlyTouches(before, after, key) && key !in before.cache
    ensures UpToDate(before, directories, generation) ==> UpToDate(after, directories, generation)
    ensures KeepsHandled(before, after, directories, generation, {}, now, {key})
  {
    hide OnlyTouches, UpToDate, KeepsHandled;
    assert before.(cache := before.cache - {key}) == before;
    if UpToDate(before, directories, generation) {
      TouchingKeepsUpToDate(before, after, key, directories, generation);
    }
    TouchingKeepsHandled(before, after, key, directories, generation, now);
  }

  lemma EnqueuingKeepsHandled(before: Board, after: Board, key: ProcessKey, directories: Directories,
    generation: nat, now: nat)
    requires key !in before.pending && key in after.pending
    requires after == before.(pending := before.pending[key := after.pending[key]])
    ensures KeepsHandled(before, after, directories, generation, {}, now, {})
  {
  }

  lemma HandledTwice(
    a: Board, b: Board, c: Board, directories: Directories, generation: nat, failed: set<ProcessKey>, now: nat,
    except: set<ProcessKey>)
    requires KeepsHandled(a, b, directories, generation, {}, now, except)
    requires KeepsHandled(b, c, directories, generation, failed, now, {})
    ensures KeepsHandled(a, c, directories, generation, failed, now, except)
  {
  }

  lemma EndingKeepsHandled(
    before: Board, after: Board, key: ProcessKey, directories: Directories, generation: nat, now: nat)
    requires after.pending == before.pending && after.cache == before.cache
    requires forall k | k in before.running && k != key :: k in after.running && after.running[k] == before.running[k]
    ensures KeepsHandled(before, after, directories, generation, {}, now, {key})
  {
  }

  /** Task numbers are not used twice. */
  lemma EndedStaysEnded(
    ok: string -> bool, before: Board, after: Board, directories: Directories, generation: nat,
    failed: set<ProcessKey>, now: nat, key: ProcessKey, taskId: nat)
    requires BoardFilled(ok, before, after, directories, generation, failed, now)
    requires key !in before.running && taskId < before.nextTaskId
    ensures ScanOf(after.running, key, taskId).None?
  {
    hide InOrder, Pointless;
    if key in after.running {
      assert ScanFrom(ok, before, after, directories, generation, key);
    }
  }

  /** A new entry, and then the free slots filled. */
  lemma StartingKeepsHandled(
    ok: string -> bool, start: Board, before: Board, after: Board, key: ProcessKey, directories: Directories,
    generation: nat, failed: set<ProcessKey>, now: nat)
    requires key !in start.pending && key in before.pending
    requires before == start.(pending := start.pending[key := before.pending[key]])
    requires BoardFilled(ok, before, after, directories, generation, failed, now)
    ensures KeepsHandled(start, after, directories, generation, failed, now, {})
  {
    hide BoardFilled, KeepsHandled;
    EnqueuingKeepsHandled(start, before, key, directories, generation, now);
    FillingKeepsHandled(ok, before, after, directories, generation, failed, now);
    HandledTwice(start, before, after, directories, generation, failed, now, {});
  }

  predicate ScanMatches(b: Board, key: ProcessKey, directory: string, generation: nat) {
    key in b.running && !b.running[key].cancelled
    && b.running[key].directory == directory && b.running[key].generation == generation
  }

  predicate EntryMatches(b: Board, key: ProcessKey, directory: string, generation: nat) {
    key in b.pending && b.pending[key].directory == directory && b.pending[key].generation == generation
  }

  /** A request raises the matching scan or entry; without one, it is queued or started as it is. */
  ghost predicate MatchRaised(
    before: Board, after: Board, key: ProcessKey, priority: Priority, directory: string, generation: nat)
  {
    if ScanMatches(before, key, directory, generation) then
      && key in after.running && Raised(before.running[key].priority, priority, after.running[key].priority)
      && after.running[key] == before.running[key].(priority := after.running[key].priority)
    else if EntryMatches(before, key, directory, generation) then
      && key in after.pending && Raised(before.pending[key].priority, priority, after.pending[key].priority)
      && after.pending[key] == before.pending[key].(priority := after.pending[key].priority)
    else
      && (ScanMatches(after, key, directory, generation) ==> after.running[key].priority == priority)
      && (EntryMatches(after, key, directory, generation) ==> after.pending[key].priority == priority)
  }

  lemma MergedIntoEntry(
    before: Board, after: Board, key: ProcessKey, priority: Priority, directory: string, generation: nat)
    requires !ScanMatches(before, key, directory, generation) && EntryMatches(before, key, directory, generation)
    requires after.cache == before.cache && after.nextTaskId == before.nextTaskId
    requires after.running == CancelledScan(before.running, key)
    requires after.pending == before.pending[
               key := before.pending[key].(priority := Higher(before.pending[key].priority, priority))]
    ensures MatchRaised(before, after, key, priority, directory, generation) && OnlyTouches(before, after, key)
  {
  }

  lemma EntryAbandoned(before: Board, after: Board, key: ProcessKey)
    requires after.cache == before.cache && after.nextTaskId == before.nextTaskId
    requires after.running == CancelledScan(before.running, key) && after.pending == before.pending - {key}
    ensures OnlyTouches(before, after, key) && (key in after.running ==> after.running[key].cancelled)
  {
  }

  lemma NothingMatched(
    before: Board, after: Board, key: ProcessKey, priority: Priority, directory: string, generation: nat)
    requires !ScanMatches(before, key, directory, generation) && !EntryMatches(before, key, directory, generation)
    requires key in after.pending ==> after.pending[key].priority == priority
    requires key in after.running && !after.running[key].cancelled ==> after.running[key].priority == priority
    ensures MatchRaised(before, after, key, priority, directory, generation)
  {
  }

  lemma CacheDoesNotMatch(
    before: Board, cache: map<ProcessKey, Proof>, after: Board, key: ProcessKey, priority: Priority, directory: string,
    generation: nat)
    requires MatchRaised(before.(cache := cache), after, key, priority, directory, generation)
    ensures MatchRaised(before, after, key, priority, directory, generation)
  {
  }

  lemma ForgettingIsUpToDate(b: Board, key: ProcessKey, directories: Directories, generation: nat)
    ensures UpToDate(b, directories, generation) ==> UpToDate(b.(cache := b.cache - {key}), directories, generation)
  {
  }

  lemma ForgettingKeepsHandled(b: Board, key: ProcessKey, directories: Directories, generation: nat, now: nat)
    ensures KeepsHandled(b, b.(cache := b.cache - {key}), directories, generation, {}, now, {key})
  {
  }

  lemma HandledAlong(
    a: Board, b: Board, c: Board, directories: Directories, generation: nat, failed: set<ProcessKey>, now: nat,
    except: set<ProcessKey>)
    requires KeepsHandled(a, b, directories, generation, {}, now, except)
    requires KeepsHandled(b, c, directories, generation, failed, now, except)
    ensures KeepsHandled(a, c, directories, generation, failed, now, except)
  {
  }

  function CancelledScan(running: map<ProcessKey, Scan>, key: ProcessKey): map<ProcessKey, Scan> {
    if key in running then running[key := running[key].(cancelled := true)] else running
  }

  class Queue {
    /** Can a directory be asked about: not blank and within the path limit. */
    const ok: string -> bool
    const concurrency: nat
    const capacity: nat
    const cacheTtl: nat
    var running: map<ProcessKey, Scan>
    var pending: map<ProcessKey, Entry>
    var cache: map<ProcessKey, Proof>
    var orderingSequence: nat
    var nextTaskId: nat

    constructor (ok: string -> bool, concurrency: nat, capacity: nat, cacheTtl: nat)
      requires concurrency > 0 && capacity > 0
      ensures Valid() && Now() == Board(map[], map[], map[], 0)
      ensures this.ok == ok
      ensures this.concurrency == concurrency && this.capacity == capacity && this.cacheTtl == cacheTtl
    {
      this.ok := ok;
      this.concurrency, this.capacity, this.cacheTtl := concurrency, capacity, cacheTtl;
      running, pending, cache := map[], map[], map[];
      orderingSequence, nextTaskId := 0, 0;
    }

    ghost function Now(): Board
      reads this`running, this`pending, this`cache, this`nextTaskId
    {
      Board(running, pending, cache, nextTaskId)
    }

    ghost predicate Steady()
      reads this
    {
      && concurrency > 0 && capacity > 0 && |cache| <= capacity
      && SteadyBoard(Now(), concurrency)
      && orderingSequence <= MAX_ORDERING_SEQUENCE && EntriesNumbered(pending, orderingSequence)
    }

    ghost predicate WorkConserving()
      reads this
    {
      |running| == concurrency || Waiting(Now()) == {}
    }

    ghost predicate Valid()
      reads this
    {
      Steady() && WorkConserving()
    }

    method NextPending() returns (next: Option<ProcessKey>)
      ensures next.None? <==> Waiting(Now()) == {}
      ensures next.Some? ==> IsFirst(Now(), next.value)
    {
      var todo := pending.Keys - running.Keys;
      next := None;
      while todo != {}
        invariant todo <= Waiting(Now())
        invariant next.None? ==> todo == Waiting(Now())
        invariant next.Some? ==> next.value in Waiting(Now())
        invariant next.Some? ==>
                    forall k | k in Waiting(Now()) && k !in todo :: EntryBefore(pending[next.value], pending[k])
        decreases |todo|
      {
        var k :| k in todo;
        if next.None? || !EntryBefore(pending[next.value], pending[k]) {
          next := Some(k);
        }
        todo := todo - {k};
      }
    }

    method Dispatch(key: ProcessKey, directories: Directories, generation: nat, now: nat) returns (failed: bool)
      requires Steady() && |running| < concurrency && key in Waiting(Now())
      modifies this`running, this`pending, this`cache, this`nextTaskId
      ensures Steady() && Now() == BoardAfter(ok, old(Now()), directories, generation, key, now)
      ensures |pending| < |old(pending)|
      ensures failed <==> !Pointless(old(Now()), directories, generation, key, now)
                          && !ok(old(pending)[key].directory)
    {
      var entry := pending[key];
      DispatchKeepsSteady(ok, Now(), concurrency, directories, generation, key, now);
      SubsetIsSmaller(BoardAfter(ok, Now(), directories, generation, key, now).cache.Keys, cache.Keys);
      pending := pending - {key};
      if !Current(directories, generation, key, entry.directory, entry.generation)
         || FreshProof(cache, key, entry.directory, entry.generation, now) {
        return false;
      }
      cache := cache - {key};
      if !ok(entry.directory) {
        return true;
      }
      running := running[key := Scan(nextTaskId, false, entry.priority, entry.directory, entry.generation)];
      nextTaskId := nextTaskId + 1;
      failed := false;
    }

    /** Fill the free slots in dispatch order; entries whose directory cannot be scanned are reported. */
    method Pump(directories: Directories, generation: nat, now: nat) returns (failed: set<ProcessKey>)
      requires Steady()
      modifies this`running, this`pending, this`cache, this`nextTaskId
      ensures Valid() && BoardFilled(ok, old(Now()), Now(), directories, generation, failed, now)
      ensures BestScansFirst(old(Now()), Now())
    {
      failed := {};
      ghost var start := Now();
      while |running| < concurrency
        invariant Steady() && BoardFilled(ok, start, Now(), directories, generation, failed, now)
        decreases |pending|
      {
        var next := NextPending();
        if next.None? {
          break;
        }
        DispatchFillsBoard(ok, start, Now(), directories, generation, failed, next.value, now);
        var bad := Dispatch(next.value, directories, generation, now);
        if bad {
          failed := failed + {next.value};
        }
      }
      InOrderIsBestFirst(start, Now());
    }

    method Cancel(key: ProcessKey) returns (found: bool)
      requires Valid()
      modifies this`pending, this`running
      ensures Valid()
      ensures found <==> key in old(pending) || key in old(running)
      ensures pending == old(pending) - {key}
      ensures running == CancelledScan(old(running), key)
    {
      found := key in pending || key in running;
      assert (pending - {key}).Keys == pending.Keys - {key};
      assert CancelledScan(running, key).Keys == running.Keys;
      pending := pending - {key};
      running := CancelledScan(running, key);
    }

    method CancelAll()
      requires Steady()
      modifies this`pending, this`running
      ensures Valid() && pending == map[] && running.Keys == old(running).Keys
      ensures forall k | k in running :: running[k] == old(running)[k].(cancelled := true)
    {
      pending := map[];
      running := map k | k in running :: running[k].(cancelled := true);
      assert running.Keys == old(running).Keys;
    }

    method ClearRunningTask(key: ProcessKey, taskId: nat) returns (found: Option<Scan>)
      requires Steady()
      modifies this`running
      ensures Steady()
      ensures found == ScanOf(old(running), key, taskId)
      ensures running == if found.Some? then old(running) - {key} else old(running)
    {
      if key in running && running[key].taskId == taskId {
        found := Some(running[key]);
        assert (running - {key}).Keys == running.Keys - {key};
        running := running - {key};
      } else {
        found := None;
      }
    }

    method ForgetProof(key: ProcessKey)
      requires Steady()
      modifies this`cache
      ensures Steady() && cache == old(cache) - {key} && (old(WorkConserving()) ==> WorkConserving())
    {
      assert (cache - {key}).Keys == cache.Keys - {key};
      cache := cache - {key};
    }

    method ClearProofs()
      requires Steady()
      modifies this`cache
      ensures Steady() && cache == map[]
    {
      cache := map[];
    }

    /** Insert a proof, evicting the one that expires first when the cache is full. */
    method InsertProof(key: ProcessKey, directory: string, generation: nat, now: nat)
      returns (evicted: Option<ProcessKey>)
      requires Steady()
      modifies this`cache
      ensures Steady() && (old(WorkConserving()) ==> WorkConserving())
      ensures EvictsOldest(old(cache), capacity, key, evicted)
      ensures cache == (if evicted.Some? then old(cache) - {evicted.value} else old(cache))
                       [key := Proof(now + cacheTtl, directory, generation)]
    {
      evicted := None;
      if key !in cache && |cache| >= capacity {
        var oldest := OldestProof(cache);
        assert (cache - {oldest}).Keys == cache.Keys - {oldest};
        cache := cache - {oldest};
        evicted := Some(oldest);
      }
      var proof := Proof(now + cacheTtl, directory, generation);
      assert cache[key := proof].Keys == cache.Keys + {key};
      cache := cache[key := proof];
    }

    method Raise(key: ProcessKey, priority: Priority) returns (status: Status)
      requires Steady() && key in running
      modifies this`running
      ensures Steady() && running.Keys == old(running).Keys && |running| == |old(running)|
      ensures running == old(running)[key := old(running)[key].(
                priority := Higher(old(running)[key].priority, priority))]
      ensures status == if priority.Rank() > old(running)[key].priority.Rank() then Merged else Running
    {
      var scan := running[key];
      running := running[key := scan.(priority := Higher(scan.priority, priority))];
      assert running.Keys == old(running).Keys;
      status := if priority.Rank() > scan.priority.Rank() then Merged else Running;
    }

    method RaisePending(key: ProcessKey, priority: Priority)
      requires Steady() && key in pending
      modifies this`pending
      ensures Steady() && pending.Keys == old(pending).Keys
      ensures pending == old(pending)[key := old(pending)[key].(
                priority := Higher(old(pending)[key].priority, priority))]
    {
      var entry := pending[key];
      pending := pending[key := entry.(priority := Higher(entry.priority, priority))];
      assert pending.Keys == old(pending).Keys;
    }

    method DropPending(key: ProcessKey)
      requires Steady()
      modifies this`pending
      ensures Steady() && pending == old(pending) - {key}
    {
      assert (pending - {key}).Keys == pending.Keys - {key};
      pending := pending - {key};
    }

    method CancelRun(key: ProcessKey)
      requires Steady()
      modifies this`running
      ensures Steady() && running == CancelledScan(old(running), key)
      ensures running.Keys == old(running).Keys && |running| == |old(running)|
    {
      assert CancelledScan(running, key).Keys == running.Keys;
      running := CancelledScan(running, key);
    }

    method Enqueue(key: ProcessKey, priority: Priority, directory: string, generation: nat)
      requires Steady() && key !in pending && (key in running ==> running[key].cancelled)
      modifies this`pending, this`orderingSequence
      ensures Steady()
      ensures pending == old(pending)[key := Entry(priority, old(orderingSequence), directory, generation)]
      ensures old(orderingSequence) < MAX_ORDERING_SEQUENCE ==> EntryGoesBehind(old(pending), pending[key])
    {
      pending := pending[key := Entry(priority, orderingSequence, directory, generation)];
      if orderingSequence < MAX_ORDERING_SEQUENCE {
        orderingSequence := orderingSequence + 1;
      }
    }

    /** Is a matching, uncancelled scan under way? */
    predicate Scanning(key: ProcessKey, directory: string, generation: nat)
      reads this`running
    {
      key in running && !running[key].cancelled
      && running[key].generation == generation && running[key].directory == directory
    }

    predicate Awaiting(key: ProcessKey, directory: string, generation: nat)
      reads this`pending
    {
      key in pending && pending[key].generation == generation && pending[key].directory == directory
    }

    /** Merge into a matching scan or entry; abandon those about another directory or catalog. */
    method Merge(key: ProcessKey, priority: Priority, directory: string, generation: nat)
      returns (status: Option<Status>)
      requires Valid()
      modifies this`running, this`pending
      ensures Valid() && OnlyTouches(old(Now()), Now(), key)
      ensures status.Some? <==> old(Scanning(key, directory, generation)) || old(Awaiting(key, directory, generation))
      ensures status.Some? ==> Scanning(key, directory, generation) || Awaiting(key, directory, generation)
      ensures status.Some? ==> MatchRaised(old(Now()), Now(), key, priority, directory, generation)
      ensures status.None? ==> pending == old(pending) - {key} && (key in running ==> running[key].cancelled)
    {
      if key in running && !running[key].cancelled
         && running[key].generation == generation && running[key].directory == directory {
        var raised := Raise(key, priority);
        return Some(raised);
      }
      status := MergePending(key, priority, directory, generation);
    }

    /** Nothing that runs for the key matches: what does is cancelled. */
    method MergePending(key: ProcessKey, priority: Priority, directory: string, generation: nat)
      returns (status: Option<Status>)
      requires Valid() && !Scanning(key, directory, generation)
      modifies this`running, this`pending
      ensures Valid() && OnlyTouches(old(Now()), Now(), key)
      ensures status.Some? <==> old(Awaiting(key, directory, generation))
      ensures status.Some? ==> Awaiting(key, directory, generation)
      ensures status.Some? ==> MatchRaised(old(Now()), Now(), key, priority, directory, generation)
      ensures status.None? ==> pending == old(pending) - {key} && (key in running ==> running[key].cancelled)
    {
      hide MatchRaised, OnlyTouches, EntriesNumbered, SteadyBoard;
      ghost var before := Now();
      CancelRun(key);
      if key in pending && pending[key].generation == generation && pending[key].directory == directory {
        RaisePending(key, priority);
        MergedIntoEntry(before, Now(), key, priority, directory, generation);
        return Some(Merged);
      }
      DropPending(key);
      EntryAbandoned(before, Now(), key);
      status := None;
    }

    /** Queue a new entry and fill the free slots. */
    method Start(
      directories: Directories, generation: nat, key: ProcessKey, priority: Priority, directory: string, now: nat)
      returns (failed: set<ProcessKey>)
      requires Valid() && key !in pending && (key in running ==> running[key].cancelled)
      requires Current(directories, generation, key, directory, generation)
      requires key !in cache
      modifies this
      ensures Valid() && ProofsShrink(old(cache), cache)
      ensures old(UpToDate(Now(), directories, generation)) ==> UpToDate(Now(), directories, generation)
      ensures Scanning(key, directory, generation) || Awaiting(key, directory, generation)
              || (key in failed && !ok(directory))
      ensures KeepsHandled(old(Now()), Now(), directories, generation, failed, now, {})
      ensures (key in pending ==> pending[key].priority == priority)
              && (key in running && !running[key].cancelled ==> running[key].priority == priority)
    {
      hide Queue.Steady, EntryGoesBehind, BoardFilled, UpToDate, Current, KeepsHandled;
      ghost var start := Now();
      Enqueue(key, priority, directory, generation);
      ghost var before := Now();
      failed := Pump(directories, generation, now);
      StartingKeepsHandled(ok, start, before, Now(), key, directories, generation, failed, now);
      if UpToDate(start, directories, generation) {
        EnqueuedIsUpToDate(start, before, key, directories, generation);
        FilledIsUpToDate(ok, before, Now(), directories, generation, failed, now);
      }
      QueuedIsServed(ok, before, Now(), directories, generation, failed, key, now);
    }

    /** Merge, or refuse when the board is full. */
    method MergeOrRefuse(key: ProcessKey, priority: Priority, directory: string, generation: nat)
      returns (answer: Option<Result<Status>>)
      requires Valid()
      modifies this`running, this`pending
      ensures Valid() && OnlyTouches(old(Now()), Now(), key)
      ensures answer.Some? && answer.value.Ok? <==>
                old(Scanning(key, directory, generation)) || old(Awaiting(key, directory, generation))
      ensures answer.Some? && answer.value.Ok? ==>
                Scanning(key, directory, generation) || Awaiting(key, directory, generation)
      ensures answer.Some? && answer.value.Ok? ==> MatchRaised(old(Now()), Now(), key, priority, directory, generation)
      ensures answer.Some? && answer.value.Err? ==>
                key !in pending && (key in running ==> running[key].cancelled)
      ensures answer.Some? && answer.value.Err? ==> answer.value.error == PlatformError && old(Full(key))
      ensures answer.None? ==> !old(Full(key)) && key !in pending && (key in running ==> running[key].cancelled)
    {
      var merged := Merge(key, priority, directory, generation);
      if merged.Some? {
        return Some(Ok(merged.value));
      }
      SameSize(running, old(running));
      answer := if |pending| + |running| >= capacity then Some(Err(PlatformError)) else None;
    }

    /** Abandoning what the key has queued would still leave no room. */
    predicate Full(key: ProcessKey)
      reads this`pending, this`running
    {
      |pending - {key}| + |running| >= capacity
    }

    /** The request proper, once the directory is known and not freshly proven. */
    method RequestScan(
      directories: Directories, generation: nat, key: ProcessKey, priority: Priority, directory: string, now: nat)
      returns (status: Result<Status>, failed: set<ProcessKey>)
      requires Valid()
      requires Current(directories, generation, key, directory, generation)
      modifies this
      ensures Valid() && ProofsShrink(old(cache), cache)
      ensures old(UpToDate(Now(), directories, generation)) ==> UpToDate(Now(), directories, generation)
      ensures old(Scanning(key, directory, generation)) || old(Awaiting(key, directory, generation)) ==>
                failed == {} && status.Ok?
      ensures status.Err? <==>
                && !old(Scanning(key, directory, generation)) && !old(Awaiting(key, directory, generation))
                && old(Full(key))
      ensures status.Err? ==> failed == {} && status.error == PlatformError
      ensures status.Ok? ==>
                || Scanning(key, directory, generation) || Awaiting(key, directory, generation)
                || (key in failed && !ok(directory))
      ensures KeepsHandled(old(Now()), Now(), directories, generation, failed, now, {key})
      ensures MatchRaised(old(Now()), Now(), key, priority, directory, generation)
    {
      hide Queue.Steady, Queue.WorkConserving, UpToDate, Current, OnlyTouches, KeepsHandled, MatchRaised;
      ghost var before := Now();
      ForgetProof(key);
      ghost var forgotten := Now();
      assert forgotten == before.(cache := before.cache - {key});
      ForgettingIsUpToDate(before, key, directories, generation);
      ForgettingKeepsHandled(before, key, directories, generation, now);
      status, failed := MergeOrStart(directories, generation, key, priority, directory, now);
      HandledAlong(before, forgotten, Now(), directories, generation, failed, now, {key});
      CacheDoesNotMatch(before, before.cache - {key}, Now(), key, priority, directory, generation);
    }

    /** Merge into what matches; otherwise start anew, if there is room. */
    method MergeOrStart(
      directories: Directories, generation: nat, key: ProcessKey, priority: Priority, directory: string, now: nat)
      returns (status: Result<Status>, failed: set<ProcessKey>)
      requires Valid() && key !in cache
      requires Current(directories, generation, key, directory, generation)
      modifies this
      ensures Valid() && ProofsShrink(old(cache), cache)
      ensures old(UpToDate(Now(), directories, generation)) ==> UpToDate(Now(), directories, generation)
      ensures old(Scanning(key, directory, generation)) || old(Awaiting(key, directory, generation)) ==>
                failed == {} && status.Ok?
      ensures status.Err? <==>
                && !old(Scanning(key, directory, generation)) && !old(Awaiting(key, directory, generation))
                && old(Full(key))
      ensures status.Err? ==> failed == {} && status.error == PlatformError
      ensures status.Ok? ==>
                || Scanning(key, directory, generation) || Awaiting(key, directory, generation)
                || (key in failed && !ok(directory))
      ensures KeepsHandled(old(Now()), Now(), directories, generation, failed, now, {key})
      ensures MatchRaised(old(Now()), Now(), key, priority, directory, generation)
    {
      hide Queue.Valid, UpToDate, Current, OnlyTouches, KeepsHandled, MatchRaised;
      ghost var before := Now();
      failed := {};
      var answer := MergeOrRefuse(key, priority, directory, generation);
      TouchingKeeps(before, Now(), key, directories, generation, now);
      if answer.Some? {
        if answer.value.Err? {
          NothingMatched(before, Now(), key, priority, directory, generation);
        }
        return answer.value, {};
      }
      ghost var touched := Now();
      failed := Start(directories, generation, key, priority, directory, now);
      HandledTwice(before, touched, Now(), directories, generation, failed, now, {key});
      NothingMatched(before, Now(), key, priority, directory, generation);
      status := Ok(Queued);
    }

    /**
     A request is answered from a fresh proof, merged into the matching scan or entry, refused when the
     board is full, or queued. A scan or entry for another directory or catalog is abandoned.
     */
    method Request(directories: Directories, generation: nat, key: ProcessKey, priority: Priority, now: nat)
      returns (status: Result<Status>, failed: set<ProcessKey>)
      requires Valid()
      modifies this
      ensures Valid() && ProofsShrink(old(cache), cache)
      ensures old(UpToDate(Now(), directories, generation)) ==> UpToDate(Now(), directories, generation)
      ensures status == Err(NotFound) <==> key !in directories
      ensures key !in directories || !directories[key].Known?
              || FreshProof(old(cache), key, directories[key].value, generation, now) ==>
                failed == {} && Now() == old(Now()) && (key in directories ==> status == Ok(Cached))
      ensures key in directories && directories[key].Known? && status.Ok? ==>
                || FreshProof(old(cache), key, directories[key].value, generation, now)
                || Scanning(key, directories[key].value, generation)
                || Awaiting(key, directories[key].value, generation)
                || (key in failed && !ok(directories[key].value))
      ensures status.Err? && key in directories ==> status == Err(PlatformError) && old(Full(key))
      ensures key in directories && directories[key].Known? && status.Ok? ==>
                Handled(Now(), key, directories[key].value, generation, now) || key in failed
      ensures KeepsHandled(old(Now()), Now(), directories, generation, failed, now, {key})
      ensures key in directories && directories[key].Known?
              && !FreshProof(old(cache), key, directories[key].value, generation, now) ==>
                MatchRaised(old(Now()), Now(), key, priority, directories[key].value, generation)
    {
      failed := {};
      if key !in directories {
        return Err(NotFound), {};
      }
      if !directories[key].Known? {
        return Ok(Cached), {};
      }
      if FreshProof(cache, key, directories[key].value, generation, now) {
        return Ok(Cached), {};
      }
      status, failed := RequestScan(directories, generation, key, priority, directories[key].value, now);
    }
  }

  lemma SameSize<K, V, W>(a: map<K, V>, b: map<K, W>)
    requires a.Keys == b.Keys
    ensures |a| == |b|
  {
  }

  method OldestProof(cache: map<ProcessKey, Proof>) returns (oldest: ProcessKey)
    requires cache != map[]
    ensures oldest in cache
    ensures forall k | k in cache :: cache[oldest].expiresAt <= cache[k].expiresAt
  {
    var todo := cache.Keys;
    oldest :| oldest in cache;
    while todo != {}
      invariant todo <= cache.Keys && oldest in cache
      invariant forall k | k in cache && k !in todo :: cache[oldest].expiresAt <= cache[k].expiresAt
      decreases |todo|
    {
      var k :| k in todo;
      if cache[k].expiresAt < cache[oldest].expiresAt {
        oldest := k;
      }
      todo := todo - {k};
    }
  }
}
