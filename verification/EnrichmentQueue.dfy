/**
 The enrichment queue: bounded concurrency, priority dispatch, merging of demand into work that is
 already running or queued, and cooperative cancellation.
 */
module EnrichmentQueue {
  import opened DiscoveryDomain

  datatype Priority = New | ClassificationCandidate | Visible | Selected
  {
    function Rank(): nat {
      match this
      case New => 0
      case ClassificationCandidate => 1
      case Visible => 2
      case Selected => 3
    }
  }

  /** What a user looks at comes before what has to be classified, and that before what is merely new. */
  predicate Outranks(a: Priority, b: Priority) {
    match a
    case Selected => !b.Selected?
    case Visible => b.ClassificationCandidate? || b.New?
    case ClassificationCandidate => b.New?
    case New => false
  }

  function Higher(a: Priority, b: Priority): Priority {
    if b.Rank() > a.Rank() then b else a
  }

  /** The higher of two priorities, whichever it is. */
  predicate Raised(before: Priority, asked: Priority, after: Priority) {
    && (after == before || after == asked)
    && before.Rank() <= after.Rank() && asked.Rank() <= after.Rank()
  }

  /** The order of demands is also the order of coverage. */
  datatype Demand = Metadata | MetadataAndPorts
  {
    predicate Covers(other: Demand) {
      MetadataAndPorts? || other.Metadata?
    }
  }

  function Wider(a: Demand, b: Demand): Demand {
    if a.Covers(b) then a else b
  }

  /** The wider of two demands, whichever it is. */
  predicate Widened(before: Demand, asked: Demand, after: Demand) {
    (after == before || after == asked) && after.Covers(before) && after.Covers(asked)
  }

  datatype Status = Cached | Running | Queued | Merged

  datatype Pending = Pending(priority: Priority, demand: Demand, sequence: nat)

  datatype Run = Run(taskId: nat, cancelled: bool, priority: Priority, started: Demand, desired: Demand)

  datatype CacheEntry = CacheEntry(expiresAt: nat, demand: Demand)

  const MAX_ORDERING_SEQUENCE: nat := 0xFFFF_FFFF_FFFF_FFFF

  /** Highest priority first, then first come first served. */
  predicate Before(a: Pending, b: Pending) {
    a.priority.Rank() > b.priority.Rank()
    || (a.priority == b.priority && a.sequence <= b.sequence)
  }

  /** Until the numbers run out, what waits has a smaller number than what comes next. */
  predicate Numbered(pending: map<ProcessKey, Pending>, next: nat) {
    forall k | k in pending :: pending[k].sequence < next || pending[k].sequence == next == MAX_ORDERING_SEQUENCE
  }

  /** A new entry goes behind everything of its priority. */
  predicate GoesBehind(pending: map<ProcessKey, Pending>, entry: Pending) {
    forall k | k in pending && pending[k].priority == entry.priority :: !Before(entry, pending[k])
  }

  lemma BeforeIsTotal(a: Pending, b: Pending, c: Pending)
    ensures Before(a, b) || Before(b, a)
    ensures Before(a, b) && Before(b, c) ==> Before(a, c)
  {
  }

  predicate Fresh(cache: map<ProcessKey, CacheEntry>, key: ProcessKey, demand: Demand, now: nat) {
    key in cache && cache[key].expiresAt > now && cache[key].demand.Covers(demand)
  }

  function WithoutExpired(cache: map<ProcessKey, CacheEntry>, key: ProcessKey, now: nat)
    : map<ProcessKey, CacheEntry>
  {
    if key in cache && cache[key].expiresAt <= now then cache - {key} else cache
  }

  /** The keys that may be dispatched: a key still running waits for its run to end. */
  function Eligible(pending: map<ProcessKey, Pending>, running: map<ProcessKey, Run>): set<ProcessKey> {
    pending.Keys - running.Keys
  }

  /** The entry is there; at most one other had to leave for it, and only if the cache was full. */
  ghost predicate InsertedInto(
    before: map<ProcessKey, CacheEntry>, after: map<ProcessKey, CacheEntry>, capacity: nat, key: ProcessKey,
    entry: CacheEntry)
  {
    && key in after && after[key] == entry
    && (forall k | k in after && k != key :: k in before && after[k] == before[k])
    && (forall k | k in before && k !in after ::
          && key !in before && |before| == capacity && after.Keys == before.Keys - {k} + {key}
          && forall j | j in before :: before[k].expiresAt <= before[j].expiresAt)
    && (key !in before && |before| == capacity > 0 ==> exists k :: k in before && k !in after)
  }

  /** The fields a pump works on. */
  datatype State = State(
    running: map<ProcessKey, Run>, pending: map<ProcessKey, Pending>, cache: map<ProcessKey, CacheEntry>,
      nextTaskId: nat)

  /** Holds at every moment, inside handlers too. */
  ghost predicate SteadyState(s: State, concurrency: nat) {
    && |s.running| <= concurrency
    && (forall k | k in s.pending && k in s.running :: s.running[k].cancelled)
    && (forall k | k in s.running ::
          s.running[k].desired.Covers(s.running[k].started) && s.running[k].taskId < s.nextTaskId)
  }

  /** Cached data leaves only by expiry. */
  ghost predicate CacheShrinks(before: map<ProcessKey, CacheEntry>, after: map<ProcessKey, CacheEntry>, now: nat) {
    && (forall k | k in after :: k in before && after[k] == before[k])
    && (forall k | k in before && k !in after :: before[k].expiresAt <= now)
  }

  /** A run that was started takes over its entry. */
  ghost predicate StartedFrom(before: State, after: State, known: set<ProcessKey>, now: nat, key: ProcessKey) {
    && key in before.pending && key !in after.pending && key in known
    && key in after.running
    && var run, entry := after.running[key], before.pending[key];
       && !run.cancelled && run.priority == entry.priority && run.started == run.desired == entry.demand
       && !Fresh(before.cache, key, entry.demand, now) && before.nextTaskId <= run.taskId
  }

  /**
   What filling the free slots may do: every run that is started takes over a queued entry, an entry
   disappears without a run only if its process is gone or its data is fresh, and no entry that is
   still eligible comes before one that was started.
   */
  ghost predicate Filled(before: State, after: State, known: set<ProcessKey>, now: nat) {
    && before.nextTaskId <= after.nextTaskId && CacheShrinks(before.cache, after.cache, now)
    && (forall k | k in after.pending :: k in before.pending && after.pending[k] == before.pending[k])
    && (forall k | k in before.running :: k in after.running && after.running[k] == before.running[k])
    && (forall k | k in after.running && k !in before.running :: StartedFrom(before, after, known, now, k))
    && (forall k | k in before.pending && k !in after.pending ::
          || (k in after.running && k !in before.running)
          || k !in known || Fresh(before.cache, k, before.pending[k].demand, now))
    && (forall k, j | k in after.running && k !in before.running && j in after.pending && j !in before.running ::
          k in before.pending && Before(before.pending[k], after.pending[j]))
  }

  /** What was started outranks, or came before, whatever could have been started and still waits. */
  ghost predicate BestFirst(before: State, after: State) {
    forall k, j | k in after.running && k !in before.running && j in after.pending && j !in before.running ::
      && k in before.pending && !Outranks(after.pending[j].priority, before.pending[k].priority)
      && (after.pending[j].priority == before.pending[k].priority ==>
            before.pending[k].sequence <= after.pending[j].sequence)
  }

  lemma FilledIsBestFirst(before: State, after: State, known: set<ProcessKey>, now: nat)
    requires Filled(before, after, known, now)
    ensures BestFirst(before, after)
  {
  }

  function Started(s: State, key: ProcessKey, now: nat): State
    requires key in s.pending
  {
    var entry := s.pending[key];
    State(
      s.running[key := Run(s.nextTaskId, false, entry.priority, entry.demand, entry.demand)],
      s.pending - {key}, WithoutExpired(s.cache, key, now), s.nextTaskId + 1)
  }

  function Dispatched(s: State, key: ProcessKey, known: set<ProcessKey>, now: nat): State
    requires key in s.pending
  {
    if key !in known || Fresh(s.cache, key, s.pending[key].demand, now) then s.(pending := s.pending - {key})
    else Started(s, key, now)
  }

  ghost predicate IsNext(s: State, key: ProcessKey) {
    key in Eligible(s.pending, s.running)
    && forall k | k in Eligible(s.pending, s.running) :: Before(s.pending[key], s.pending[k])
  }

  lemma StartKeepsSteady(s: State, concurrency: nat, key: ProcessKey, now: nat)
    requires SteadyState(s, concurrency) && |s.running| < concurrency && key in Eligible(s.pending, s.running)
    ensures SteadyState(Started(s, key, now), concurrency)
    ensures SteadyState(s.(pending := s.pending - {key}), concurrency)
    ensures |s.pending - {key}| < |s.pending|
  {
  }

  lemma StartFills(before: State, s: State, known: set<ProcessKey>, now: nat, key: ProcessKey)
    requires Filled(before, s, known, now) && IsNext(s, key)
    requires key in known && !Fresh(s.cache, key, s.pending[key].demand, now)
    ensures Filled(before, Started(s, key, now), known, now)
  {
    var after := Started(s, key, now);
    forall k | k in after.running && k !in before.running ensures StartedFrom(before, after, known, now, k) {
      if k != key {
        assert StartedFrom(before, s, known, now, k);
      }
    }
    forall k, j | k in after.running && k !in before.running && j in after.pending && j !in before.running
      ensures k in before.pending && Before(before.pending[k], after.pending[j])
    {
      if k != key {
        assert StartedFrom(before, s, known, now, k);
      } else {
        assert j in s.running ==> StartedFrom(before, s, known, now, j);
        assert j in Eligible(s.pending, s.running);
      }
    }
  }

  lemma DropFills(before: State, s: State, known: set<ProcessKey>, now: nat, key: ProcessKey)
    requires Filled(before, s, known, now) && key in Eligible(s.pending, s.running)
    requires key !in known || Fresh(s.cache, key, s.pending[key].demand, now)
    ensures Filled(before, s.(pending := s.pending - {key}), known, now)
  {
    var after := s.(pending := s.pending - {key});
    assert after.pending.Keys == s.pending.Keys - {key};
    forall k | k in after.running && k !in before.running ensures StartedFrom(before, after, known, now, k) {
      assert StartedFrom(before, s, known, now, k);
    }
  }

  class Queue {
    const concurrency: nat
    const cacheCapacity: nat
    const cacheTtl: nat
    const portTtl: nat
    var running: map<ProcessKey, Run>
    var pending: map<ProcessKey, Pending>
    var cache: map<ProcessKey, CacheEntry>
    var orderingSequence: nat
    var nextTaskId: nat

    constructor (concurrency: nat, cacheCapacity: nat, cacheTtl: nat, portTtl: nat)
      requires concurrency > 0 && cacheCapacity > 0
      ensures Valid() && Within({})
      ensures running == map[] && pending == map[] && cache == map[] && orderingSequence == 0
      ensures this.concurrency == concurrency && this.cacheCapacity == cacheCapacity
      ensures this.cacheTtl == cacheTtl && this.portTtl == portTtl
    {
      this.concurrency, this.cacheCapacity := concurrency, cacheCapacity;
      this.cacheTtl, this.portTtl := cacheTtl, portTtl;
      running, pending, cache := map[], map[], map[];
      orderingSequence, nextTaskId := 0, 0;
    }

    ghost function Now(): State
      reads this`running, this`pending, this`cache, this`nextTaskId
    {
      State(running, pending, cache, nextTaskId)
    }

    ghost predicate Steady()
      reads this
    {
      && concurrency > 0 && cacheCapacity > 0 && |cache| <= cacheCapacity
      && SteadyState(Now(), concurrency)
      && Numbered(pending, orderingSequence)
    }

    /** No slot is left idle while a key could use it. */
    ghost predicate WorkConserving()
      reads this
    {
      |running| == concurrency || Eligible(pending, running) == {}
    }

    ghost predicate Valid()
      reads this
    {
      Steady() && WorkConserving()
    }

    /** Nothing is queued, cached or running uncancelled for a process that is gone. */
    ghost predicate Within(known: set<ProcessKey>)
      reads this
    {
      StateWithin(Now(), known)
    }

    /** The best eligible key, or none exactly when nothing is eligible. */
    method NextPending() returns (next: Option<ProcessKey>)
      ensures next.None? <==> Eligible(pending, running) == {}
      ensures next.Some? ==> next.value in Eligible(pending, running)
      ensures next.Some? ==> forall k | k in Eligible(pending, running) :: Before(pending[next.value], pending[k])
    {
      var todo := Eligible(pending, running);
      next := None;
      while todo != {}
        invariant todo <= Eligible(pending, running)
        invariant next.None? ==> todo == Eligible(pending, running)
        invariant next.Some? ==> next.value in Eligible(pending, running)
        invariant next.Some? ==>
                    forall k | k in Eligible(pending, running) && k !in todo :: Before(pending[next.value], pending[k])
        decreases |todo|
      {
        var k :| k in todo;
        if next.None? || !Before(pending[next.value], pending[k]) {
          ghost var best := next;
          next := Some(k);
          forall j | j in Eligible(pending, running) && j !in todo ensures Before(pending[k], pending[j]) {
            if best.Some? {
              BeforeIsTotal(pending[best.value], pending[k], pending[j]);
              BeforeIsTotal(pending[k], pending[best.value], pending[j]);
            }
          }
        }
        todo := todo - {k};
      }
    }

    /** Take the best entry off the queue: start it, unless there is nothing left to do for it. */
    method Dispatch(key: ProcessKey, known: set<ProcessKey>, now: nat)
      requires Steady() && |running| < concurrency && key in Eligible(pending, running)
      modifies this`running, this`pending, this`cache, this`nextTaskId
      ensures Steady() && Now() == Dispatched(old(Now()), key, known, now)
      ensures |pending| < |old(pending)|
    {
      var entry := pending[key];
      StartKeepsSteady(Now(), concurrency, key, now);
      if key !in known || Fresh(cache, key, entry.demand, now) {
        pending := pending - {key};
        return;
      }
      CacheOnlyShrinks(cache, key, now);
      pending := pending - {key};
      cache := WithoutExpired(cache, key, now);
      running := running[key := Run(nextTaskId, false, entry.priority, entry.demand, entry.demand)];
      nextTaskId := nextTaskId + 1;
    }

    /** Fill the free slots in dispatch order. */
    method Pump(known: set<ProcessKey>, now: nat)
      requires Steady()
      modifies this`running, this`pending, this`cache, this`nextTaskId
      ensures Valid() && Filled(old(Now()), Now(), known, now) && BestFirst(old(Now()), Now())
    {
      ghost var start := Now();
      while |running| < concurrency
        invariant Steady() && Filled(start, Now(), known, now)
        decreases |pending|
      {
        var next := NextPending();
        if next.None? {
          break;
        }
        DispatchFills(start, Now(), known, now, next.value);
        Dispatch(next.value, known, now);
      }
      FilledIsBestFirst(start, Now(), known, now);
    }

    method NextOrderingSequence() returns (current: nat)
      modifies this`orderingSequence
      ensures current == old(orderingSequence)
      ensures orderingSequence == if current < MAX_ORDERING_SEQUENCE then current + 1 else current
    {
      current := orderingSequence;
      if orderingSequence < MAX_ORDERING_SEQUENCE {
        orderingSequence := orderingSequence + 1;
      }
    }

    /** A request that needs no new entry is answered here. */
    method Merge(known: set<ProcessKey>, key: ProcessKey, priority: Priority, demand: Demand, now: nat)
      returns (status: Result<Status>)
      requires Steady()
      modifies this`running, this`pending, this`cache
      ensures Steady() && (old(WorkConserving()) ==> WorkConserving())
      ensures status == Outcome(old(Now()), known, key, priority, demand, now)
      ensures status != Ok(Queued) ==> Now() == Requested(old(Now()), known, key, priority, demand, 0, now)
      ensures status == Ok(Queued) ==> Now() == old(Now()).(cache := WithoutExpired(old(cache), key, now))
    {
      if key !in known {
        return Err(NotFound);
      }
      if Fresh(cache, key, demand, now) {
        return Ok(Cached);
      }
      CacheOnlyShrinks(cache, key, now);
      cache := WithoutExpired(cache, key, now);
      if key in running && !running[key].cancelled {
        var run := running[key];
        var upgraded := priority.Rank() > run.priority.Rank() || !run.desired.Covers(demand);
        Upgrade(key, priority, demand);
        return Ok(if upgraded then Merged else Running);
      }
      if key in pending {
        MergePending(key, priority, demand);
        return Ok(Merged);
      }
      status := Ok(Queued);
    }

    /**
     A request for a known process is answered from fresh data, merged into the uncancelled run or the
     queued entry of the same process, or queued behind everything of its priority.
     */
    method Request(known: set<ProcessKey>, key: ProcessKey, priority: Priority, demand: Demand, now: nat)
      returns (status: Result<Status>)
      requires Steady() && orderingSequence <= MAX_ORDERING_SEQUENCE
      modifies this
      ensures Steady() && orderingSequence <= MAX_ORDERING_SEQUENCE
      ensures old(WorkConserving()) || status == Ok(Queued) ==> WorkConserving()
      ensures status == Outcome(old(Now()), known, key, priority, demand, now)
      ensures status != Ok(Queued) ==> Now() == Requested(old(Now()), known, key, priority, demand, 0, now)
      ensures status == Ok(Queued) && old(orderingSequence) < MAX_ORDERING_SEQUENCE ==>
                GoesBehind(old(pending), Pending(priority, demand, old(orderingSequence)))
      ensures status == Ok(Queued) ==>
                Filled(
                  Requested(old(Now()), known, key, priority, demand, old(orderingSequence), now), Now(), known, now)
    {
      status := Merge(known, key, priority, demand, now);
      if status == Ok(Queued) {
        Enqueue(key, priority, demand);
        Pump(known, now);
      }
    }

    method Upgrade(key: ProcessKey, priority: Priority, demand: Demand)
      requires Steady() && key in running && !running[key].cancelled
      modifies this`running
      ensures Steady() && running.Keys == old(running).Keys && |running| == |old(running)|
      ensures running == old(running)[key := old(running)[key].(
                priority := Higher(old(running)[key].priority, priority),
                desired := Wider(old(running)[key].desired, demand))]
    {
      var run := running[key];
      running := running[
        key := run.(priority := Higher(run.priority, priority), desired := Wider(run.desired, demand))];
      assert running.Keys == old(running).Keys;
    }

    method MergePending(key: ProcessKey, priority: Priority, demand: Demand)
      requires Steady() && key in pending
      modifies this`pending
      ensures Steady() && pending.Keys == old(pending).Keys
      ensures pending == old(pending)[key := old(pending)[key].(
                priority := Higher(old(pending)[key].priority, priority),
                demand := Wider(old(pending)[key].demand, demand))]
    {
      var entry := pending[key];
      pending := pending[
        key := entry.(priority := Higher(entry.priority, priority), demand := Wider(entry.demand, demand))];
      assert pending.Keys == old(pending).Keys;
    }

    method Enqueue(key: ProcessKey, priority: Priority, demand: Demand)
      requires Steady() && orderingSequence <= MAX_ORDERING_SEQUENCE
      requires key !in pending && (key in running ==> running[key].cancelled)
      modifies this`pending, this`orderingSequence
      ensures Steady() && orderingSequence <= MAX_ORDERING_SEQUENCE
      ensures pending == old(pending)[key := Pending(priority, demand, old(orderingSequence))]
    {
      var sequence := NextOrderingSequence();
      pending := pending[key := Pending(priority, demand, sequence)];
    }

    /** A queued entry is dropped at once; a run is asked to stop. */
    method Cancel(key: ProcessKey) returns (found: bool)
      requires Valid()
      modifies this`pending, this`running
      ensures Valid()
      ensures found <==> key in old(pending) || key in old(running)
      ensures pending == old(pending) - {key}
      ensures running == CancelledIn(old(running), key)
    {
      found := key in pending || key in running;
      assert (pending - {key}).Keys == pending.Keys - {key};
      CancelKeepsKeys(running, key);
      pending := pending - {key};
      running := CancelledIn(running, key);
    }

    /** The run a finished task belonged to, if it is still the current one. */
    method ClearRunningTask(key: ProcessKey, taskId: nat) returns (completed: Option<Run>)
      requires Steady()
      modifies this`running
      ensures Steady()
      ensures completed == RunOf(old(running), key, taskId)
      ensures running == if completed.Some? then old(running) - {key} else old(running)
    {
      if key in running && running[key].taskId == taskId {
        completed := Some(running[key]);
        assert (running - {key}).Keys == running.Keys - {key};
        running := running - {key};
      } else {
        completed := None;
      }
    }

    /** Demand that was merged into a finished, uncancelled run is requested again. */
    method FollowUp(
      known: set<ProcessKey>, key: ProcessKey, completed: Option<Run>, cancelledByActor: bool, now: nat,
      ghost taskId: nat)
      requires Steady() && orderingSequence <= MAX_ORDERING_SEQUENCE
      requires completed.Some? ==> taskId < nextTaskId && RunOf(running, key, taskId).None?
      modifies this
      ensures Steady() && orderingSequence <= MAX_ORDERING_SEQUENCE
      ensures old(Within(known)) ==> Within(known)
      ensures completed.Some? && !cancelledByActor && !completed.value.started.Covers(completed.value.desired)
              && key in known ==>
                Served(Now(), key, completed.value.desired, now)
      ensures forall k, d | k in known && Served(old(Now()), k, d, now) :: Served(Now(), k, d, now)
      ensures completed.Some? ==> taskId < nextTaskId && RunOf(running, key, taskId).None?
    {
      hide Filled, Served, Requested, Outcome, StateWithin, Steady, GoesBehind;
      if completed.None? || cancelledByActor || completed.value.started.Covers(completed.value.desired) {
        return;
      }
      ghost var before := Now();
      ghost var sequence := orderingSequence;
      var status := Request(known, key, completed.value.priority, completed.value.desired, now);
      RequestStaysWithin(
        before, Now(), known, key, completed.value.priority, completed.value.desired, sequence, now, status);
      RequestKeepsServed(
        before, Now(), known, key, completed.value.priority, completed.value.desired, sequence, now, status);
      RequestEndsNoRun(
        before, Now(), known, key, completed.value.priority, completed.value.desired, sequence, now, status, taskId);
    }

    /** Insert, evicting the entry that expires first when the cache is full. */
    method InsertCache(key: ProcessKey, demand: Demand, now: nat)
      requires Steady()
      modifies this`cache
      ensures Steady()
      ensures cache.Keys <= old(cache).Keys + {key}
      ensures InsertedInto(
                old(cache), cache, cacheCapacity, key,
                CacheEntry(
                  now + (if demand.MetadataAndPorts? && portTtl < cacheTtl then portTtl else cacheTtl), demand))
    {
      if key !in cache && |cache| >= cacheCapacity {
        var oldest := Oldest(cache);
        assert (cache - {oldest}).Keys == cache.Keys - {oldest};
        cache := cache - {oldest};
      }
      var ttl := if demand.MetadataAndPorts? && portTtl < cacheTtl then portTtl else cacheTtl;
      assert cache[key := CacheEntry(now + ttl, demand)].Keys == cache.Keys + {key};
      cache := cache[key := CacheEntry(now + ttl, demand)];
    }

    method ForgetCached(key: ProcessKey)
      requires Steady()
      modifies this`cache
      ensures Steady() && cache == old(cache) - {key}
    {
      assert (cache - {key}).Keys == cache.Keys - {key};
      cache := cache - {key};
    }

    /** Queued entries and cached data are dropped, and a run is asked to stop. */
    method Forget(key: ProcessKey, ghost gone: set<ProcessKey>, ghost known: set<ProcessKey>)
      requires Valid() && Avoids(Now(), gone) && Within(known)
      modifies this`pending, this`running, this`cache
      ensures Valid() && Avoids(Now(), gone + {key}) && Within(known)
      ensures cache == old(cache) - {key}
      ensures forall k | k != key :: SameAt(old(Now()), Now(), k)
    {
      hide Avoids, StateWithin, CancelledIn, SameAt, SteadyState;
      ghost var before := Now();
      var found := Cancel(key);
      ForgetCached(key);
      ForgettingAvoids(before, Now(), key, gone, known);
    }

    method SweepCache(now: nat)
      requires Steady()
      modifies this`cache
      ensures Steady()
      ensures cache == map k | k in old(cache) && old(cache)[k].expiresAt > now :: old(cache)[k]
    {
      cache := map k | k in cache && cache[k].expiresAt > now :: cache[k];
      assert cache.Keys <= old(cache).Keys;
      SubsetIsSmaller(cache.Keys, old(cache).Keys);
    }

    /** Shutting down cancels everything. */
    method CancelAll()
      requires Steady()
      modifies this`pending, this`running
      ensures Valid() && pending == map[] && running.Keys == old(running).Keys
      ensures forall k | k in running :: running[k] == old(running)[k].(cancelled := true)
    {
      pending := map[];
      running := map k | k in running :: running[k].(cancelled := true);
      assert running.Keys == old(running).Keys;
    }
  }

  lemma SubsetIsSmaller<T>(a: set<T>, b: set<T>)
    requires a <= b
    ensures |a| <= |b|
  {
    assert b == a + (b - a);
    assert |b| == |a| + |b - a|;
  }

  function CancelledIn(running: map<ProcessKey, Run>, key: ProcessKey): map<ProcessKey, Run> {
    if key in running then running[key := running[key].(cancelled := true)] else running
  }

  lemma CancelKeepsKeys(running: map<ProcessKey, Run>, key: ProcessKey)
    ensures CancelledIn(running, key).Keys == running.Keys
    ensures |CancelledIn(running, key)| == |running|
  {
  }

  method Oldest(cache: map<ProcessKey, CacheEntry>) returns (oldest: ProcessKey)
    requires cache != map[]
    ensures oldest in cache
    ensures forall k | k in cache :: cache[oldest].expiresAt <= cache[k].expiresAt
  {
    var todo := cache.Keys;
    oldest :| oldest in cache;
    while todo != {}
      invariant todo <= cache.Keys && oldest in cache
      invariant forall k | k in cache && k !in todo :: cache[oldest].expiresAt <= cache[k].expiresAt
      decreases |todo|
    {
      var k :| k in todo;
      if cache[k].expiresAt < cache[oldest].expiresAt {
        oldest := k;
      }
      todo := todo - {k};
    }
  }

  function Outcome(
    s: State, known: set<ProcessKey>, key: ProcessKey, priority: Priority, demand: Demand, now: nat): Result<Status>
  {
    if key !in known then Err(NotFound)
    else if Fresh(s.cache, key, demand, now) then Ok(Cached)
    else if key in s.running && !s.running[key].cancelled then
      if priority.Rank() > s.running[key].priority.Rank() || !s.running[key].desired.Covers(demand)
      then Ok(Merged) else Ok(Running)
    else if key in s.pending then Ok(Merged)
    else Ok(Queued)
  }

  /** The fields after a request has been recorded and before any slot is filled. */
  function Requested(
    s: State, known: set<ProcessKey>, key: ProcessKey, priority: Priority, demand: Demand, sequence: nat, now: nat)
    : State
  {
    if key !in known || Fresh(s.cache, key, demand, now) then s
    else
      var c := WithoutExpired(s.cache, key, now);
      if key in s.running && !s.running[key].cancelled then
        var run := s.running[key];
        s.(cache := c, running := s.running[
          key := run.(priority := Higher(run.priority, priority), desired := Wider(run.desired, demand))])
      else if key in s.pending then
        var entry := s.pending[key];
        s.(cache := c, pending := s.pending[
          key := entry.(priority := Higher(entry.priority, priority), demand := Wider(entry.demand, demand))])
      else s.(cache := c, pending := s.pending[key := Pending(priority, demand, sequence)])
  }

  /**
   A request raises the uncancelled run of its process, or the entry that waits; otherwise it is queued or started
   as it is.
   */
  ghost predicate MergedOrQueued(before: State, after: State, key: ProcessKey, priority: Priority, demand: Demand) {
    if key in before.running && !before.running[key].cancelled then
      var run := before.running[key];
      && key in after.running && Raised(run.priority, priority, after.running[key].priority)
      && Widened(run.desired, demand, after.running[key].desired)
      && after.running[key] == run.(priority := after.running[key].priority, desired := after.running[key].desired)
    else if key in before.pending then
      var entry := before.pending[key];
      && key in after.pending && Raised(entry.priority, priority, after.pending[key].priority)
      && Widened(entry.demand, demand, after.pending[key].demand) && after.pending[key].sequence == entry.sequence
    else
      || (key in after.pending && after.pending[key].priority == priority && after.pending[key].demand == demand)
      || (key in after.running && !after.running[key].cancelled && after.running[key].priority == priority
          && after.running[key].started == after.running[key].desired == demand)
  }

  lemma RequestRaises(
    before: State, after: State,
    known: set<ProcessKey>, key: ProcessKey, priority: Priority, demand: Demand, sequence: nat, now: nat,
    status: Result<Status>)
    requires status == Outcome(before, known, key, priority, demand, now)
    requires status != Ok(Queued) ==> after == Requested(before, known, key, priority, demand, 0, now)
    requires status == Ok(Queued) ==>
               Filled(Requested(before, known, key, priority, demand, sequence, now), after, known, now)
    requires key in known && !Fresh(before.cache, key, demand, now)
    ensures MergedOrQueued(before, after, key, priority, demand)
  {
    if status == Ok(Queued) && key !in after.pending {
      assert StartedFrom(
          Requested(before, known, key, priority, demand, sequence, now), after, known, now, key);
    }
  }

  lemma RequestIsRecorded(
    before: State, after: State,
    known: set<ProcessKey>, key: ProcessKey, priority: Priority, demand: Demand, sequence: nat, now: nat,
    status: Result<Status>)
    requires status == Outcome(before, known, key, priority, demand, now)
    requires status != Ok(Queued) ==> after == Requested(before, known, key, priority, demand, 0, now)
    requires status == Ok(Queued) ==>
               Filled(Requested(before, known, key, priority, demand, sequence, now), after, known, now)
    ensures key !in known || Fresh(before.cache, key, demand, now) ==> after == before
    ensures key in known && !Fresh(before.cache, key, demand, now) ==>
              MergedOrQueued(before, after, key, priority, demand)
  {
    hide Filled, MergedOrQueued;
    if key in known && !Fresh(before.cache, key, demand, now) {
      RequestRaises(before, after, known, key, priority, demand, sequence, now, status);
    }
  }

  /** What is queued and running for the process is the same. */
  predicate SameAt(before: State, after: State, key: ProcessKey) {
    && (key in after.pending <==> key in before.pending)
    && (key in after.pending ==> after.pending[key] == before.pending[key])
    && (key in after.running <==> key in before.running)
    && (key in after.running ==> after.running[key] == before.running[key])
  }

  lemma SameAtTwice(a: State, b: State, c: State, done: set<ProcessKey>, key: ProcessKey)
    requires forall k | k !in done :: SameAt(a, b, k)
    requires forall k | k != key :: SameAt(b, c, k)
    ensures forall k | k !in done + {key} :: SameAt(a, c, k)
  {
    forall k | k !in done + {key} ensures SameAt(a, c, k) {
      assert SameAt(a, b, k) && SameAt(b, c, k);
    }
  }

  ghost predicate StateWithin(s: State, known: set<ProcessKey>) {
    && s.pending.Keys <= known
    && s.cache.Keys <= known
    && (forall k | k in s.running && !s.running[k].cancelled :: k in known)
  }

  /** Requests queue and start nothing outside the known processes, and lose none of their demand. */
  lemma RequestStaysWithin(
    before: State, after: State,
    known: set<ProcessKey>, key: ProcessKey, priority: Priority, demand: Demand, sequence: nat, now: nat,
    status: Result<Status>)
    requires status == Outcome(before, known, key, priority, demand, now)
    requires status != Ok(Queued) ==> after == Requested(before, known, key, priority, demand, 0, now)
    requires status == Ok(Queued) ==>
               Filled(Requested(before, known, key, priority, demand, sequence, now), after, known, now)
    ensures StateWithin(before, known) ==> StateWithin(after, known)
    ensures after.cache.Keys <= before.cache.Keys
    ensures key in known ==> Served(after, key, demand, now)
    ensures key in known && !Fresh(before.cache, key, demand, now) ==>
              || (key in after.pending && after.pending[key].demand.Covers(demand))
              || (key in after.running && after.running[key].desired.Covers(demand))
  {
    if status == Ok(Queued) {
      var mid := Requested(before, known, key, priority, demand, sequence, now);
      assert mid.pending[key].demand == demand;
      assert !Fresh(mid.cache, key, demand, now);
      if key !in after.pending && key in after.running && key !in mid.running {
        assert StartedFrom(mid, after, known, now, key);
      }
      forall k | k in after.running && !after.running[k].cancelled
        ensures StateWithin(before, known) ==> k in known
      {
        if k !in mid.running {
          assert StartedFrom(mid, after, known, now, k);
        }
      }
    }
  }

  /** The metadata of a new process is asked for, no more and no sooner: nothing is cached for it yet. */
  predicate Asked(s: State, key: ProcessKey) {
    && key !in s.cache
    && (|| (key in s.pending && s.pending[key].priority == New && s.pending[key].demand == Metadata)
        || (key in s.running && !s.running[key].cancelled && s.running[key].priority == New
            && s.running[key].started == s.running[key].desired == Metadata))
  }

  /** A first request for a process is recorded as it is, and leaves what others are asked for. */
  lemma RequestKeepsAsked(
    before: State, after: State,
    known: set<ProcessKey>, key: ProcessKey, priority: Priority, demand: Demand, sequence: nat, now: nat,
    status: Result<Status>, untouched: set<ProcessKey>)
    requires status == Outcome(before, known, key, priority, demand, now)
    requires status != Ok(Queued) ==> after == Requested(before, known, key, priority, demand, 0, now)
    requires status == Ok(Queued) ==>
               Filled(Requested(before, known, key, priority, demand, sequence, now), after, known, now)
    requires key in known && Avoids(before, untouched + {key})
    ensures forall k | k in known && k != key && Asked(before, k) :: Asked(after, k)
    ensures key !in untouched ==> Avoids(after, untouched)
    ensures priority == New && demand == Metadata ==> Asked(after, key)
  {
    assert key in untouched + {key};
  }

  /** The run a task belongs to, if it is still the current one of its process. */
  function RunOf(running: map<ProcessKey, Run>, key: ProcessKey, taskId: nat): Option<Run> {
    if key in running && running[key].taskId == taskId then Some(running[key]) else None
  }

  lemma EndingStaysWithin(before: State, after: State, known: set<ProcessKey>)
    requires StateWithin(before, known) && after.pending == before.pending && after.cache == before.cache
    requires forall k | k in after.running :: k in before.running && after.running[k] == before.running[k]
    ensures StateWithin(after, known)
  {
  }

  /** The run of the process is asked to stop, the others go on. */
  predicate StopsRun(before: map<ProcessKey, Run>, after: map<ProcessKey, Run>, key: ProcessKey) {
    && after.Keys == before.Keys
    && (forall k | k in after ::
          after[k] == if k == key then before[k].(cancelled := true) else before[k])
  }

  lemma CancellingStaysWithin(before: State, after: State, key: ProcessKey, known: set<ProcessKey>)
    requires StateWithin(before, known) && after.cache == before.cache
    requires after.pending == before.pending - {key} && after.running == CancelledIn(before.running, key)
    ensures StateWithin(after, known)
    ensures StopsRun(before.running, after.running, key)
  {
  }

  lemma CachingStaysWithin(before: State, known: set<ProcessKey>, key: ProcessKey)
    requires StateWithin(before, known) && key in known
    ensures forall cache: map<ProcessKey, CacheEntry> ::
              cache.Keys <= before.cache.Keys + {key} ==> StateWithin(before.(cache := cache), known)
  {
  }

  lemma StoppingStaysWithin(before: State, after: State, known: set<ProcessKey>)
    requires StateWithin(before, known) && after.cache == before.cache && after.pending == map[]
    requires forall k | k in after.running :: after.running[k].cancelled
    ensures StateWithin(after, known)
  {
  }

  /** The demand is queued, under way, or already satisfied. */
  predicate Served(s: State, key: ProcessKey, demand: Demand, now: nat) {
    || (key in s.pending && s.pending[key].demand.Covers(demand))
    || (key in s.running && s.running[key].desired.Covers(demand))
    || Fresh(s.cache, key, demand, now)
  }

  lemma RequestKeepsServed(
    before: State, after: State,
    known: set<ProcessKey>, key: ProcessKey, priority: Priority, demand: Demand, sequence: nat, now: nat,
    status: Result<Status>)
    requires status == Outcome(before, known, key, priority, demand, now)
    requires status != Ok(Queued) ==> after == Requested(before, known, key, priority, demand, 0, now)
    requires status == Ok(Queued) ==>
               Filled(Requested(before, known, key, priority, demand, sequence, now), after, known, now)
    ensures forall k, d | k in known && Served(before, k, d, now) :: Served(after, k, d, now)
  {
    hide Filled, Served;
    forall k, d | k in known && Served(before, k, d, now) ensures Served(after, k, d, now) {
      RecordingKeepsServed(before, known, key, priority, demand, sequence, now, k, d);
      if status == Ok(Queued) {
        FillingKeepsServed(
          Requested(before, known, key, priority, demand, sequence, now), after, known, now, k, d);
      } else {
        NotQueuedReadsNoSequence(before, known, key, priority, demand, sequence, now);
      }
    }
  }

  lemma NotQueuedReadsNoSequence(
    s: State, known: set<ProcessKey>, key: ProcessKey, priority: Priority, demand: Demand, sequence: nat, now: nat)
    requires Outcome(s, known, key, priority, demand, now) != Ok(Queued)
    ensures Requested(s, known, key, priority, demand, sequence, now)
            == Requested(s, known, key, priority, demand, 0, now)
  {
  }

  lemma RecordingKeepsServed(
    s: State, known: set<ProcessKey>, key: ProcessKey, priority: Priority, demand: Demand, sequence: nat, now: nat,
    other: ProcessKey, wanted: Demand)
    requires Served(s, other, wanted, now)
    ensures Served(Requested(s, known, key, priority, demand, sequence, now), other, wanted, now)
  {
  }

  /** Task numbers are not used twice. */
  lemma EndedStaysEnded(before: State, after: State, known: set<ProcessKey>, now: nat, key: ProcessKey, taskId: nat)
    requires Filled(before, after, known, now)
    requires taskId < before.nextTaskId && RunOf(before.running, key, taskId).None?
    ensures taskId < after.nextTaskId && RunOf(after.running, key, taskId).None?
  {
    if key in after.running && key !in before.running {
      assert StartedFrom(before, after, known, now, key);
    }
  }

  lemma RequestEndsNoRun(
    before: State, after: State,
    known: set<ProcessKey>, key: ProcessKey, priority: Priority, demand: Demand, sequence: nat, now: nat,
    status: Result<Status>, taskId: nat)
    requires status == Outcome(before, known, key, priority, demand, now)
    requires status != Ok(Queued) ==> after == Requested(before, known, key, priority, demand, 0, now)
    requires status == Ok(Queued) ==>
               Filled(Requested(before, known, key, priority, demand, sequence, now), after, known, now)
    requires taskId < before.nextTaskId && RunOf(before.running, key, taskId).None?
    ensures taskId < after.nextTaskId && RunOf(after.running, key, taskId).None?
  {
    hide Filled;
    if status == Ok(Queued) {
      EndedStaysEnded(
        Requested(before, known, key, priority, demand, sequence, now), after, known, now, key, taskId);
    }
  }

  lemma FillingKeepsServed(
    before: State, after: State, known: set<ProcessKey>, now: nat, key: ProcessKey, demand: Demand)
    requires Filled(before, after, known, now) && key in known && Served(before, key, demand, now)
    ensures Served(after, key, demand, now)
  {
  }

  lemma FillingStaysWithin(before: State, after: State, known: set<ProcessKey>, now: nat)
    requires Filled(before, after, known, now) && StateWithin(before, known)
    ensures StateWithin(after, known)
  {
  }

  /** Nothing is queued, cached or running uncancelled for these processes. */
  ghost predicate Avoids(s: State, gone: set<ProcessKey>) {
    && s.pending.Keys !! gone && s.cache.Keys !! gone
    && (forall k | k in s.running && k in gone :: s.running[k].cancelled)
  }

  lemma StrangersAreAvoided(s: State, known: set<ProcessKey>, strangers: set<ProcessKey>)
    requires StateWithin(s, known) && strangers !! known
    ensures Avoids(s, strangers)
  {
  }

  lemma NothingToAvoid(s: State)
    ensures Avoids(s, {}) && s.cache - {} == s.cache && forall k :: SameAt(s, s, k)
  {
  }

  lemma ForgettingAvoids(s: State, after: State, key: ProcessKey, gone: set<ProcessKey>, known: set<ProcessKey>)
    requires Avoids(s, gone) && StateWithin(s, known)
    requires after.pending == s.pending - {key} && after.cache == s.cache - {key}
    requires after.running == CancelledIn(s.running, key)
    ensures Avoids(after, gone + {key}) && StateWithin(after, known)
    ensures forall k | k != key :: SameAt(s, after, k)
  {
  }

  lemma MinusTwice(cache: map<ProcessKey, CacheEntry>, keys: set<ProcessKey>, key: ProcessKey)
    ensures cache - keys - {key} == cache - (keys + {key})
  {
  }

  lemma OutcomeIsError(s: State, known: set<ProcessKey>, key: ProcessKey, priority: Priority, demand: Demand, now: nat)
    ensures var status := Outcome(s, known, key, priority, demand, now);
            (status.Err? <==> key !in known) && (status.Err? ==> status.error == NotFound)
  {
  }

  lemma AvoidedMayLeave(s: State, known: set<ProcessKey>, gone: set<ProcessKey>, left: set<ProcessKey>)
    requires StateWithin(s, known) && Avoids(s, gone) && known - gone <= left
    ensures StateWithin(s, left)
  {
  }

  lemma DispatchFills(before: State, s: State, known: set<ProcessKey>, now: nat, key: ProcessKey)
    requires Filled(before, s, known, now) && IsNext(s, key)
    ensures Filled(before, Dispatched(s, key, known, now), known, now)
  {
    if key !in known || Fresh(s.cache, key, s.pending[key].demand, now) {
      DropFills(before, s, known, now, key);
    } else {
      StartFills(before, s, known, now, key);
    }
  }

  lemma CacheOnlyShrinks(cache: map<ProcessKey, CacheEntry>, key: ProcessKey, now: nat)
    ensures |WithoutExpired(cache, key, now)| <= |cache|
  {
  }
}
