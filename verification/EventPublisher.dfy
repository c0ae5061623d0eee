/**
 The event side of the discovery scheduler: mutations are coalesced per key, flushed in bounded
 groups under contiguous sequence numbers, and folded by clients into a mirror of the scheduler.
 */
module EventPublisher {
  import opened DiscoveryDomain
  import opened KeyOrder
  import opened Coalescing

  const MAX_DISCOVERY_EVENT_ENTITIES: nat := 128
  const MAX_DISCOVERY_EVENT_PAYLOAD_BYTES: nat := 512 * 1024
  const ESTIMATED_EVENT_CONTAINER_BYTES: nat := 128
  const MAX_UPDATE_SEQUENCE: nat := 0xFFFF_FFFF_FFFF_FFFF

  /** An entity larger than this cannot be published. */
  const MAX_ENTITY_BYTES: nat := MAX_DISCOVERY_EVENT_PAYLOAD_BYTES - ESTIMATED_EVENT_CONTAINER_BYTES

  /** Estimated serialized sizes. */
  datatype Sizes = Sizes(
    record: ProcessRecord -> nat,
    processKey: ProcessKey -> nat,
    binding: PortBinding -> nat,
    portKey: PortKey -> nat,
    availability: FieldValue<()> -> nat)

  datatype Operation =
    | FastProcessScan
    | PortScan
    | Enrichment(key: ProcessKey)
    | ProjectAssociation(key: ProcessKey)
    | ProcessPublication(key: ProcessKey)

  datatype Change =
    | ProcessDelta(upserted: seq<ProcessRecord>, removed: seq<ProcessKey>)
    | PortDelta(bindings: seq<PortBinding>, removedPorts: seq<PortKey>)
    | PortAvailabilityChanged(availability: FieldValue<()>)
    | OperationFailed(operation: Operation, error: ErrorCode)

  datatype Update = Update(sequence: nat, change: Change)

  /** What a client that folds every update knows. */
  datatype Mirror = Mirror(
    processes: map<ProcessKey, ProcessRecord>,
    ports: map<PortKey, PortBinding>,
    availability: FieldValue<()>)

  const EMPTY_MIRROR := Mirror(map[], map[], Unknown)

  function ProcessMutations(sizes: Sizes, upserted: seq<ProcessRecord>, removed: seq<ProcessKey>)
    : seq<Keyed<ProcessKey, ProcessRecord>>
  {
    seq(|upserted|, i requires 0 <= i < |upserted| =>
      Keyed(upserted[i].key, Upsert(upserted[i], sizes.record(upserted[i]))))
    + seq(|removed|, i requires 0 <= i < |removed| =>
        Keyed(removed[i], Remove(sizes.processKey(removed[i]))))
  }

  function PortMutations(sizes: Sizes, upserted: seq<PortBinding>, removed: seq<PortKey>)
    : seq<Keyed<PortKey, PortBinding>>
  {
    seq(|upserted|, i requires 0 <= i < |upserted| =>
      Keyed(KeyOf(upserted[i]), Upsert(upserted[i], sizes.binding(upserted[i]))))
    + seq(|removed|, i requires 0 <= i < |removed| =>
        Keyed(removed[i], Remove(sizes.portKey(removed[i]))))
  }

  /** A client applies one update; the sizes play no part in its effect. */
  function Deliver(sizes: Sizes, mirror: Mirror, change: Change): Mirror {
    match change
    case ProcessDelta(upserted, removed) =>
      mirror.(processes := ApplyAll(mirror.processes, ProcessMutations(sizes, upserted, removed)))
    case PortDelta(bindings, removed) =>
      mirror.(ports := ApplyAll(mirror.ports, PortMutations(sizes, bindings, removed)))
    case PortAvailabilityChanged(availability) =>
      mirror.(availability := availability)
    case OperationFailed(_, _) => mirror
  }

  /** A client that starts from `start` and applies every update of `sent` in order. */
  function Fold(sizes: Sizes, start: Mirror, sent: seq<Update>): Mirror {
    if sent == [] then start
    else Deliver(sizes, Fold(sizes, start, sent[..|sent| - 1]), sent[|sent| - 1].change)
  }

  /** Resynchronizing from a fold of a prefix and replaying the rest is folding everything. */
  lemma {:induction false} FoldSplits(sizes: Sizes, start: Mirror, sent: seq<Update>, n: nat)
    requires n <= |sent|
    ensures Fold(sizes, Fold(sizes, start, sent[..n]), sent[n..]) == Fold(sizes, start, sent)
    decreases |sent|
  {
    if n == |sent| {
      assert sent[..n] == sent;
    } else {
      var front := sent[..|sent| - 1];
      FoldSplits(sizes, start, front, n);
      assert front[..n] == sent[..n];
      assert front[n..] == sent[n..][..|sent[n..]| - 1];
    }
  }

  /** What a client ends up with at a key depends on what it starts with at that key, and on nothing else. */
  lemma {:induction false} FoldReadsKey(sizes: Sizes, a: Mirror, b: Mirror, sent: seq<Update>, key: ProcessKey)
    requires Lookup(a.processes, key) == Lookup(b.processes, key)
    ensures Lookup(Fold(sizes, a, sent).processes, key) == Lookup(Fold(sizes, b, sent).processes, key)
  {
    if sent != [] {
      FoldReadsKey(sizes, a, b, sent[..|sent| - 1], key);
      var change := sent[|sent| - 1].change;
      if change.ProcessDelta? {
        ApplyReadsKey(
          Fold(sizes, a, sent[..|sent| - 1]).processes, Fold(sizes, b, sent[..|sent| - 1]).processes,
          ProcessMutations(sizes, change.upserted, change.removed), key);
      }
    }
  }

  lemma {:induction false} ApplyReadsKey<K, V>(a: map<K, V>, b: map<K, V>, mutations: seq<Keyed<K, V>>, key: K)
    requires Lookup(a, key) == Lookup(b, key)
    ensures Lookup(ApplyAll(a, mutations), key) == Lookup(ApplyAll(b, mutations), key)
  {
    if mutations != [] {
      ApplyReadsKey(a, b, mutations[..|mutations| - 1], key);
    }
  }

  /**
   A client that starts from a snapshot and replays what follows its sequence number. Wherever the snapshot
   agrees with the stream up to there, the client ends up with what the whole stream says.
   */
  lemma SnapshotResynchronizes(sizes: Sizes, sent: seq<Update>, sequence: nat, snapshot: Mirror, key: ProcessKey)
    requires sequence <= |sent|
    requires Lookup(snapshot.processes, key) == Lookup(Fold(sizes, EMPTY_MIRROR, sent[..sequence]).processes, key)
    ensures Lookup(Fold(sizes, snapshot, sent[sequence..]).processes, key)
            == Lookup(Fold(sizes, EMPTY_MIRROR, sent).processes, key)
  {
    FoldReadsKey(sizes, snapshot, Fold(sizes, EMPTY_MIRROR, sent[..sequence]), sent[sequence..], key);
    FoldSplits(sizes, EMPTY_MIRROR, sent, sequence);
  }

  /** Every update stays within the entity and byte limits of one event. */
  predicate WithinLimits(sizes: Sizes, change: Change) {
    match change
    case ProcessDelta(upserted, removed) =>
      && |upserted| + |removed| <= MAX_DISCOVERY_EVENT_ENTITIES
      && ListBytes(ProcessMutations(sizes, upserted, removed)) <= MAX_ENTITY_BYTES
    case PortDelta(bindings, removed) =>
      && |bindings| + |removed| <= MAX_DISCOVERY_EVENT_ENTITIES
      && ListBytes(PortMutations(sizes, bindings, removed)) <= MAX_ENTITY_BYTES
    case PortAvailabilityChanged(availability) =>
      sizes.availability(availability) <= MAX_ENTITY_BYTES
    case OperationFailed(_, _) => true
  }

  /** Updates are numbered from 1 without a gap, and each is within the limits. */
  predicate WellFormedStream(sizes: Sizes, sent: seq<Update>) {
    sent == []
    || (var last := sent[|sent| - 1];
        last.sequence == |sent| && WithinLimits(sizes, last.change)
        && WellFormedStream(sizes, sent[..|sent| - 1]))
  }

  lemma {:induction false} StreamAt(sizes: Sizes, sent: seq<Update>, i: nat)
    requires WellFormedStream(sizes, sent) && i < |sent|
    ensures sent[i].sequence == i + 1 && WithinLimits(sizes, sent[i].change)
    decreases |sent|
  {
    if i < |sent| - 1 {
      StreamAt(sizes, sent[..|sent| - 1], i);
    }
  }

  datatype PendingAvailability = PendingAvailability(value: FieldValue<()>, bytes: nat)

  datatype Ordered = Ordered(order: nat, change: Change)

  /** Insertion into an ascending list. */
  function InsertOrdered(item: Ordered, items: seq<Ordered>): (r: seq<Ordered>)
    ensures |r| == |items| + 1
  {
    if items == [] || item.order < items[0].order then [item] + items
    else [items[0]] + InsertOrdered(item, items[1..])
  }

  function InsertOptional(item: Option<Ordered>, items: seq<Ordered>): seq<Ordered> {
    if item.Some? then InsertOrdered(item.value, items) else items
  }

  /** The changes that are present, by ascending order. */
  function Arrange(first: Option<Ordered>, second: Option<Ordered>, third: Option<Ordered>): seq<Ordered> {
    InsertOptional(third, InsertOptional(second, InsertOptional(first, [])))
  }

  /** Saturating subtraction. */
  function Minus(a: nat, b: nat): nat {
    if a < b then 0 else a - b
  }

  /** The pending mutations of one group. */
  datatype Group = Group(
    processes: map<ProcessKey, Mutation<ProcessRecord>>,
    ports: map<PortKey, Mutation<PortBinding>>,
    availability: Option<PendingAvailability>,
    processOrder: Option<nat>,
    portOrder: Option<nat>,
    availabilityOrder: Option<nat>,
    nextOrder: nat,
    estimatedPayloadBytes: nat)
  {
    predicate IsEmpty() {
      processes == map[] && ports == map[] && availability.None?
    }

    function EntityCount(): nat {
      |processes| + |ports|
    }

    function ContainerBytes(): nat {
      (if processes == map[] then 0 else ESTIMATED_EVENT_CONTAINER_BYTES)
      + (if ports == map[] then 0 else ESTIMATED_EVENT_CONTAINER_BYTES)
      + (if availability.None? then 0 else ESTIMATED_EVENT_CONTAINER_BYTES)
    }

    ghost function ExactBytes(): nat {
      SumBytes(processes) + SumBytes(ports)
      + (if availability.None? then 0 else availability.value.bytes) + ContainerBytes()
    }

    /** The running estimate is exact and the entries carry their own sizes. */
    ghost predicate Accounted(sizes: Sizes) {
      && estimatedPayloadBytes == ExactBytes()
      && (forall k | k in processes :: SizedProcess(sizes, k, processes[k]))
      && (forall k | k in ports :: SizedPort(sizes, k, ports[k]))
      && (availability.Some? ==> availability.value.bytes == sizes.availability(availability.value.value))
      && (processOrder.Some? <==> processes != map[])
      && (portOrder.Some? <==> ports != map[])
      && (availabilityOrder.Some? <==> availability.Some?)
    }

    predicate Bounded() {
      EntityCount() <= MAX_DISCOVERY_EVENT_ENTITIES
      && estimatedPayloadBytes <= MAX_DISCOVERY_EVENT_PAYLOAD_BYTES
    }

    /** There is room for at least one more entity. */
    predicate Roomy() {
      EntityCount() < MAX_DISCOVERY_EVENT_ENTITIES
      && estimatedPayloadBytes < MAX_DISCOVERY_EVENT_PAYLOAD_BYTES
    }

    function ProcessChange(): Change {
      var up := SortedProcesses(Upserted(processes));
      ProcessDelta(Values(processes, up), SortedProcesses(Removed(processes)))
    }

    function PortChange(): Change {
      var up := SortedPorts(Upserted(ports));
      PortDelta(Values(ports, up), SortedPorts(Removed(ports)))
    }

    /** One change per non-empty container, in the order in which the containers were opened. */
    function IntoOrderedChanges(): seq<Ordered> {
      Arrange(ProcessItem(this), PortItem(this), AvailabilityItem(this))
    }

    /** The group with one more process mutation, its cost projected from the change alone. */
    function WithProcess(key: ProcessKey, mutation: Mutation<ProcessRecord>): Group {
      var bytes := if processes == map[] then mutation.bytes + ESTIMATED_EVENT_CONTAINER_BYTES else mutation.bytes;
      this.(
        processes := processes[key := mutation],
        processOrder := if processOrder.None? then Some(nextOrder) else processOrder,
        nextOrder := if processOrder.None? then nextOrder + 1 else nextOrder,
        estimatedPayloadBytes := Minus(estimatedPayloadBytes, BytesAt(processes, key)) + bytes)
    }

    /** The group with one more port mutation. */
    function WithPort(key: PortKey, mutation: Mutation<PortBinding>): Group {
      var bytes := if ports == map[] then mutation.bytes + ESTIMATED_EVENT_CONTAINER_BYTES else mutation.bytes;
      this.(
        ports := ports[key := mutation],
        portOrder := if portOrder.None? then Some(nextOrder) else portOrder,
        nextOrder := if portOrder.None? then nextOrder + 1 else nextOrder,
        estimatedPayloadBytes := Minus(estimatedPayloadBytes, BytesAt(ports, key)) + bytes)
    }

    /** The group with the latest port availability. */
    function WithAvailability(value: FieldValue<()>, bytes: nat): Group {
      var existing := if availability.Some? then availability.value.bytes else 0;
      var added := if availability.None? then bytes + ESTIMATED_EVENT_CONTAINER_BYTES else bytes;
      this.(
        availability := Some(PendingAvailability(value, bytes)),
        availabilityOrder := if availabilityOrder.None? then Some(nextOrder) else availabilityOrder,
        nextOrder := if availabilityOrder.None? then nextOrder + 1 else nextOrder,
        estimatedPayloadBytes := Minus(estimatedPayloadBytes, existing) + added)
    }

    /** What the whole group does to a mirror. */
    function Effect(mirror: Mirror): Mirror {
      Mirror(
        Overlay(mirror.processes, processes),
        Overlay(mirror.ports, ports),
        if availability.Some? then availability.value.value else mirror.availability)
    }
  }

  function Values<K, V>(pending: map<K, Mutation<V>>, keys: seq<K>): seq<V>
    requires forall k :: k in keys ==> k in Upserted(pending)
  {
    seq(|keys|, i requires 0 <= i < |keys| => assert keys[i] in Upserted(pending); pending[keys[i]].value)
  }

  const EMPTY_GROUP := Group(map[], map[], None, None, None, None, 0, 0)

  predicate SizedProcess(sizes: Sizes, key: ProcessKey, mutation: Mutation<ProcessRecord>) {
    match mutation
    case Upsert(record, bytes) => record.key == key && bytes == sizes.record(record)
    case Remove(bytes) => bytes == sizes.processKey(key)
  }

  predicate SizedPort(sizes: Sizes, key: PortKey, mutation: Mutation<PortBinding>) {
    match mutation
    case Upsert(binding, bytes) => KeyOf(binding) == key && bytes == sizes.binding(binding)
    case Remove(bytes) => bytes == sizes.portKey(key)
  }

  // ----- A flushed group has the effect of its mutations -----

  lemma ProcessChangeAsList(
    sizes: Sizes, pending: map<ProcessKey, Mutation<ProcessRecord>>, up: seq<ProcessKey>, gone: seq<ProcessKey>)
    requires forall k | k in pending :: SizedProcess(sizes, k, pending[k])
    requires forall k :: k in up ==> k in pending && k in Upserted(pending)
    requires forall k :: k in gone ==> k in pending && k in Removed(pending)
    ensures ProcessMutations(sizes, Values(pending, up), gone) == ListOf(pending, up) + ListOf(pending, gone)
  {
    var left, right := ProcessMutations(sizes, Values(pending, up), gone), ListOf(pending, up) + ListOf(pending, gone);
    assert |left| == |right| == |up| + |gone|;
    forall i | 0 <= i < |left| ensures left[i] == right[i] {
      if i < |up| {
        assert up[i] in Upserted(pending) && SizedProcess(sizes, up[i], pending[up[i]]);
      } else {
        var k := gone[i - |up|];
        assert k in Removed(pending) && SizedProcess(sizes, k, pending[k]);
      }
    }
  }

  lemma ProcessChangeEffect(sizes: Sizes, group: Group, mirror: Mirror)
    requires group.Accounted(sizes)
    ensures Deliver(sizes, mirror, group.ProcessChange())
            == mirror.(processes := Overlay(mirror.processes, group.processes))
    ensures group.Bounded() && group.processes != map[] ==> WithinLimits(sizes, group.ProcessChange())
  {
    var up, gone := SortedProcesses(Upserted(group.processes)), SortedProcesses(Removed(group.processes));
    ProcessChangeAsList(sizes, group.processes, up, gone);
    BatchAsList(group.processes, up, gone);
    CoalescingPreservesEffect(mirror.processes, ListOf(group.processes, up) + ListOf(group.processes, gone));
  }
  lemma PortChangeAsList(
    sizes: Sizes, pending: map<PortKey, Mutation<PortBinding>>, up: seq<PortKey>, gone: seq<PortKey>)
    requires forall k | k in pending :: SizedPort(sizes, k, pending[k])
    requires forall k :: k in up ==> k in pending && k in Upserted(pending)
    requires forall k :: k in gone ==> k in pending && k in Removed(pending)
    ensures PortMutations(sizes, Values(pending, up), gone) == ListOf(pending, up) + ListOf(pending, gone)
  {
    var left, right := PortMutations(sizes, Values(pending, up), gone), ListOf(pending, up) + ListOf(pending, gone);
    assert |left| == |right| == |up| + |gone|;
    forall i | 0 <= i < |left| ensures left[i] == right[i] {
      if i < |up| {
        assert up[i] in Upserted(pending) && SizedPort(sizes, up[i], pending[up[i]]);
      } else {
        var k := gone[i - |up|];
        assert k in Removed(pending) && SizedPort(sizes, k, pending[k]);
      }
    }
  }

  lemma PortChangeEffect(sizes: Sizes, group: Group, mirror: Mirror)
    requires group.Accounted(sizes)
    ensures Deliver(sizes, mirror, group.PortChange())
            == mirror.(ports := Overlay(mirror.ports, group.ports))
    ensures group.Bounded() && group.ports != map[] ==> WithinLimits(sizes, group.PortChange())
  {
    var up, gone := SortedPorts(Upserted(group.ports)), SortedPorts(Removed(group.ports));
    PortChangeAsList(sizes, group.ports, up, gone);
    BatchAsList(group.ports, up, gone);
    CoalescingPreservesEffect(mirror.ports, ListOf(group.ports, up) + ListOf(group.ports, gone));
  }
  function DeliverAll(sizes: Sizes, mirror: Mirror, changes: seq<Ordered>): Mirror {
    if changes == [] then mirror
    else Deliver(sizes, DeliverAll(sizes, mirror, changes[..|changes| - 1]), changes[|changes| - 1].change)
  }

  function DeliverOptional(sizes: Sizes, mirror: Mirror, item: Option<Ordered>): Mirror {
    if item.Some? then Deliver(sizes, mirror, item.value.change) else mirror
  }

  lemma DeliverAppend(sizes: Sizes, mirror: Mirror, changes: seq<Ordered>, last: Ordered)
    ensures DeliverAll(sizes, mirror, changes + [last])
            == Deliver(sizes, DeliverAll(sizes, mirror, changes), last.change)
  {
  }

  /** Changes of different containers commute, so their relative order does not matter. */
  lemma {:induction false} InsertCommutes(sizes: Sizes, mirror: Mirror, item: Ordered, items: seq<Ordered>)
    requires forall i | 0 <= i < |items| :: Independent(item.change, items[i].change)
    ensures DeliverAll(sizes, mirror, InsertOrdered(item, items))
            == Deliver(sizes, DeliverAll(sizes, mirror, items), item.change)
    ensures forall x :: x in InsertOrdered(item, items) <==> x == item || x in items
    decreases |items|
  {
    var r := InsertOrdered(item, items);
    if items == [] {
      DeliverAppend(sizes, mirror, [], item);
    } else if item.order < items[0].order {
      MoveToEnd(sizes, mirror, item, items);
    } else {
      DeliverHead(sizes, mirror, items[0], InsertOrdered(item, items[1..]));
      assert forall i | 0 <= i < |items[1..]| :: items[1..][i] == items[i + 1];
      InsertCommutes(sizes, Deliver(sizes, mirror, items[0].change), item, items[1..]);
      DeliverHead(sizes, mirror, items[0], items[1..]);
      assert items == [items[0]] + items[1..];
    }
  }

  predicate Independent(a: Change, b: Change) {
    a.ProcessDelta? != b.ProcessDelta? || a.PortDelta? != b.PortDelta?
  }

  lemma IndependentCommute(sizes: Sizes, mirror: Mirror, a: Change, b: Change)
    requires Independent(a, b)
    ensures Deliver(sizes, Deliver(sizes, mirror, a), b) == Deliver(sizes, Deliver(sizes, mirror, b), a)
  {
  }

  lemma {:induction false} DeliverHead(sizes: Sizes, mirror: Mirror, head: Ordered, tail: seq<Ordered>)
    ensures DeliverAll(sizes, mirror, [head] + tail)
            == DeliverAll(sizes, Deliver(sizes, mirror, head.change), tail)
    decreases |tail|
  {
    if tail == [] {
      assert [head] + tail == [] + [head];
      DeliverAppend(sizes, mirror, [], head);
    } else {
      var front, last := tail[..|tail| - 1], tail[|tail| - 1];
      DeliverHead(sizes, mirror, head, front);
      assert [head] + tail == ([head] + front) + [last];
      DeliverAppend(sizes, mirror, [head] + front, last);
    }
  }

  lemma {:induction false} MoveToEnd(sizes: Sizes, mirror: Mirror, item: Ordered, items: seq<Ordered>)
    requires forall i | 0 <= i < |items| :: Independent(item.change, items[i].change)
    ensures DeliverAll(sizes, mirror, [item] + items)
            == Deliver(sizes, DeliverAll(sizes, mirror, items), item.change)
    decreases |items|
  {
    if items == [] {
      assert [item] + items == [] + [item];
      DeliverAppend(sizes, mirror, [], item);
    } else {
      var front, last := items[..|items| - 1], items[|items| - 1];
      MoveToEnd(sizes, mirror, item, front);
      assert [item] + items == ([item] + front) + [last];
      DeliverAppend(sizes, mirror, [item] + front, last);
      IndependentCommute(sizes, DeliverAll(sizes, mirror, front), item.change, last.change);
    }
  }

  lemma ArrangeEffect(
    sizes: Sizes, mirror: Mirror, first: Option<Ordered>, second: Option<Ordered>, third: Option<Ordered>)
    requires first.Some? ==> first.value.change.ProcessDelta?
    requires second.Some? ==> second.value.change.PortDelta?
    requires third.Some? ==> third.value.change.PortAvailabilityChanged?
    ensures DeliverAll(sizes, mirror, Arrange(first, second, third))
            == DeliverOptional(sizes, DeliverOptional(sizes, DeliverOptional(sizes, mirror, first), second), third)
    ensures |Arrange(first, second, third)| <= 3
    ensures forall x :: x in Arrange(first, second, third)
                    ==> Some(x) == first || Some(x) == second || Some(x) == third
  {
    var one := InsertOptional(first, []);
    if first.Some? {
      InsertCommutes(sizes, mirror, first.value, []);
    }
    var two := InsertOptional(second, one);
    if second.Some? {
      InsertCommutes(sizes, mirror, second.value, one);
    }
    if third.Some? {
      InsertCommutes(sizes, mirror, third.value, two);
    }
  }

  function ProcessItem(group: Group): Option<Ordered> {
    if group.processOrder.Some? then Some(Ordered(group.processOrder.value, group.ProcessChange())) else None
  }

  function PortItem(group: Group): Option<Ordered> {
    if group.portOrder.Some? then Some(Ordered(group.portOrder.value, group.PortChange())) else None
  }

  function AvailabilityItem(group: Group): Option<Ordered> {
    if group.availabilityOrder.Some? && group.availability.Some? then
      Some(Ordered(group.availabilityOrder.value, PortAvailabilityChanged(group.availability.value.value)))
    else None
  }

  lemma ProcessItemEffect(sizes: Sizes, group: Group, mirror: Mirror)
    requires group.Accounted(sizes) && group.Bounded()
    ensures DeliverOptional(sizes, mirror, ProcessItem(group))
            == mirror.(processes := Overlay(mirror.processes, group.processes))
    ensures ProcessItem(group).Some? ==> WithinLimits(sizes, ProcessItem(group).value.change)
  {
    ProcessChangeEffect(sizes, group, mirror);
    if group.processes == map[] {
      assert Overlay(mirror.processes, map[]) == mirror.processes;
    }
  }

  lemma PortItemEffect(sizes: Sizes, group: Group, mirror: Mirror)
    requires group.Accounted(sizes) && group.Bounded()
    ensures DeliverOptional(sizes, mirror, PortItem(group))
            == mirror.(ports := Overlay(mirror.ports, group.ports))
    ensures PortItem(group).Some? ==> WithinLimits(sizes, PortItem(group).value.change)
  {
    PortChangeEffect(sizes, group, mirror);
    if group.ports == map[] {
      assert Overlay(mirror.ports, map[]) == mirror.ports;
    }
  }

  /** Publishing the ordered changes of a group does what its coalesced mutations do. */
  lemma AvailabilityItemFits(sizes: Sizes, group: Group)
    requires group.Accounted(sizes) && group.Bounded()
    ensures AvailabilityItem(group).Some? ==> WithinLimits(sizes, AvailabilityItem(group).value.change)
    ensures group.availability.Some? <==> group.availabilityOrder.Some?
  {
  }

  lemma GroupEffect(sizes: Sizes, group: Group, mirror: Mirror)
    requires group.Accounted(sizes) && group.Bounded()
    ensures DeliverAll(sizes, mirror, group.IntoOrderedChanges()) == group.Effect(mirror)
    ensures |group.IntoOrderedChanges()| <= 3
    ensures forall x :: x in group.IntoOrderedChanges() ==> WithinLimits(sizes, x.change)
  {
    hide Group.Accounted, Group.Bounded, Arrange, WithinLimits, Overlay, DeliverAll;
    ArrangeEffect(sizes, mirror, ProcessItem(group), PortItem(group), AvailabilityItem(group));
    AvailabilityItemFits(sizes, group);
    ProcessItemEffect(sizes, group, mirror);
    PortItemEffect(sizes, group, DeliverOptional(sizes, mirror, ProcessItem(group)));
    forall x | x in group.IntoOrderedChanges() ensures WithinLimits(sizes, x.change) {
      assert Some(x) == ProcessItem(group) || Some(x) == PortItem(group) || Some(x) == AvailabilityItem(group);
    }
  }

  ghost predicate Ascending(changes: seq<Ordered>) {
    forall i, j | 0 <= i < j < |changes| :: changes[i].order <= changes[j].order
  }

  lemma {:induction false} InsertKeepsAscending(item: Ordered, items: seq<Ordered>)
    requires Ascending(items)
    ensures Ascending(InsertOrdered(item, items))
    ensures forall x :: x in InsertOrdered(item, items) <==> x == item || x in items
    decreases |items|
  {
    if items != [] && !(item.order < items[0].order) {
      InsertKeepsAscending(item, items[1..]);
      var rest := InsertOrdered(item, items[1..]);
      assert forall i | 0 <= i < |rest| :: rest[i] in rest;
    }
  }

  /** The changes of a group leave in the order in which their containers were opened. */
  lemma OrderedByFirstUse(group: Group)
    ensures Ascending(group.IntoOrderedChanges())
  {
    var one := InsertOptional(ProcessItem(group), []);
    var two := InsertOptional(PortItem(group), one);
    if PortItem(group).Some? {
      InsertKeepsAscending(PortItem(group).value, one);
    }
    if AvailabilityItem(group).Some? {
      InsertKeepsAscending(AvailabilityItem(group).value, two);
    }
  }

  /** `history[i]` is what a client knows after the first `i` updates. */
  ghost predicate IsHistory(sizes: Sizes, sent: seq<Update>, history: seq<Mirror>) {
    && |history| == |sent| + 1
    && history[0] == EMPTY_MIRROR
    && forall i {:trigger sent[i]} | 0 <= i < |sent| ::
         history[i + 1] == Deliver(sizes, history[i], sent[i].change)
  }

  lemma {:induction false} HistoryIsFold(sizes: Sizes, sent: seq<Update>, history: seq<Mirror>)
    requires IsHistory(sizes, sent, history)
    ensures Fold(sizes, EMPTY_MIRROR, sent) == history[|sent|]
    decreases |sent|
  {
    if sent != [] {
      var front := sent[..|sent| - 1];
      assert forall i | 0 <= i < |front| :: front[i] == sent[i];
      HistoryIsFold(sizes, front, history[..|sent|]);
      assert history[|sent|] == Deliver(sizes, history[|sent| - 1], sent[|sent| - 1].change);
    }
  }

  /** Everything the handlers handed over, in order, whether or not it could be published. */
  datatype Handed = Handed(
    processes: seq<Keyed<ProcessKey, ProcessRecord>>,
    ports: seq<Keyed<PortKey, PortBinding>>,
    availabilities: seq<FieldValue<()>>)

  const NOTHING_HANDED := Handed([], [], [])

  function LastAvailability(values: seq<FieldValue<()>>): FieldValue<()> {
    if values == [] then Unknown else values[|values| - 1]
  }

  function FittingAvailabilities(sizes: Sizes, values: seq<FieldValue<()>>): seq<FieldValue<()>> {
    if values == [] then []
    else
      var front, last := values[..|values| - 1], values[|values| - 1];
      if sizes.availability(last) <= MAX_ENTITY_BYTES then FittingAvailabilities(sizes, front) + [last]
      else FittingAvailabilities(sizes, front)
  }

  /** What was sent and handed over so far. */
  datatype Trail = Trail(sent: seq<Update>, handed: Handed)

  /** Nothing that was sent or handed over is taken back. */
  predicate Extends(earlier: Trail, later: Trail) {
    && earlier.sent <= later.sent
    && earlier.handed.processes <= later.handed.processes && earlier.handed.ports <= later.handed.ports
    && earlier.handed.availabilities <= later.handed.availabilities
  }

  lemma SamePast(past: Trail)
    ensures Extends(past, past)
  {
  }

  lemma ExtendsTwice(a: Trail, b: Trail, c: Trail)
    requires Extends(a, b) && Extends(b, c)
    ensures Extends(a, c)
  {
  }

  /** What the handlers know. */
  function Total(handed: Handed): Mirror {
    Mirror(
      ApplyAll(map[], handed.processes), ApplyAll(map[], handed.ports), LastAvailability(handed.availabilities))
  }

  /** What of it fits into events. */
  function Publishable(sizes: Sizes, handed: Handed): Handed {
    Handed(
      Fitting(handed.processes, MAX_ENTITY_BYTES), Fitting(handed.ports, MAX_ENTITY_BYTES),
      FittingAvailabilities(sizes, handed.availabilities))
  }

  ghost predicate SizedHanded(sizes: Sizes, handed: Handed) {
    && (forall m | m in handed.processes :: SizedProcess(sizes, m.key, m.mutation))
    && (forall m | m in handed.ports :: SizedPort(sizes, m.key, m.mutation))
  }

  /** No single entity was too large for an event. */
  ghost predicate NothingOversized(sizes: Sizes, handed: Handed) {
    && AllFit(handed.processes, MAX_ENTITY_BYTES) && AllFit(handed.ports, MAX_ENTITY_BYTES)
    && (forall value | value in handed.availabilities :: sizes.availability(value) <= MAX_ENTITY_BYTES)
  }

  predicate AvailabilityUpToDate(sizes: Sizes, values: seq<FieldValue<()>>) {
    || values == [] || sizes.availability(LastAvailability(values)) <= MAX_ENTITY_BYTES
    || LastAvailability(values) == LastAvailability(FittingAvailabilities(sizes, values))
  }

  lemma FittingAvailabilityIsEnough(sizes: Sizes, values: seq<FieldValue<()>>)
    ensures LastAvailability(FittingAvailabilities(sizes, values)) == LastAvailability(values)
            <==> AvailabilityUpToDate(sizes, values)
  {
  }

  lemma {:induction false} AvailabilitiesFit(sizes: Sizes, values: seq<FieldValue<()>>)
    requires forall value | value in values :: sizes.availability(value) <= MAX_ENTITY_BYTES
    ensures FittingAvailabilities(sizes, values) == values
  {
    if values != [] {
      AvailabilitiesFit(sizes, values[..|values| - 1]);
    }
  }

  lemma NothingOversizedAllPublished(sizes: Sizes, handed: Handed)
    requires NothingOversized(sizes, handed)
    ensures Publishable(sizes, handed) == handed
  {
    NothingOversizedNothingLost(handed.processes, MAX_ENTITY_BYTES);
    NothingOversizedNothingLost(handed.ports, MAX_ENTITY_BYTES);
    AvailabilitiesFit(sizes, handed.availabilities);
  }

  /** A table is right about a key exactly if the key is up to date. */
  ghost predicate RightExactly<K(!new), V>(known: map<K, V>, mutations: seq<Keyed<K, V>>) {
    forall k ::
      Lookup(known, k) == Lookup(ApplyAll(map[], mutations), k) <==> UpToDate(mutations, MAX_ENTITY_BYTES, k)
  }

  lemma PublishedIsRightExactly<K(!new), V>(mutations: seq<Keyed<K, V>>)
    ensures RightExactly(ApplyAll(map[], Fitting(mutations, MAX_ENTITY_BYTES)), mutations)
  {
    forall k
      ensures Lookup(ApplyAll(map[], Fitting(mutations, MAX_ENTITY_BYTES)), k) == Lookup(ApplyAll(map[], mutations), k)
              <==> UpToDate(mutations, MAX_ENTITY_BYTES, k)
    {
      FittingIsEnough(mutations, MAX_ENTITY_BYTES, k);
    }
  }

  /**
   The pending group, the broadcast stream, and two ghosts: everything the handlers `handed` over, and
   `target`, what it amounts to. Clients know what of it fits into events.
   */
  class Publisher {
    const sizes: Sizes
    var pending: Group
    var updateSequence: nat
    var shutdownSignalled: bool
    var sent: seq<Update>
    ghost var history: seq<Mirror>
    ghost var target: Mirror
    ghost var handed: Handed

    /** What a client that received every update knows. */
    ghost function Received(): Mirror
      requires history != []
      reads this`history
    {
      history[|history| - 1]
    }

    /** What such a client will know once the pending group is flushed. */
    ghost function View(): Mirror
      requires history != []
      reads this`history, this`pending
    {
      pending.Effect(Received())
    }

    ghost predicate Contiguous()
      reads this
    {
      && |sent| == updateSequence <= MAX_UPDATE_SEQUENCE
      && (shutdownSignalled ==> updateSequence == MAX_UPDATE_SEQUENCE)
      && WellFormedStream(sizes, sent)
      && IsHistory(sizes, sent, history)
    }

    ghost predicate Valid()
      reads this
    {
      && history != [] && Contiguous()
      && pending.Accounted(sizes) && pending.Bounded()
      && target == Total(handed) && SizedHanded(sizes, handed)
      && (!shutdownSignalled ==> View() == Total(Publishable(sizes, handed)))
    }

    ghost function Past(): Trail
      reads this`sent, this`handed
    {
      Trail(sent, handed)
    }

    constructor (sizes: Sizes)
      ensures Valid() && pending == EMPTY_GROUP && pending.Roomy()
      ensures this.sizes == sizes && sent == [] && updateSequence == 0 && !shutdownSignalled
      ensures target == EMPTY_MIRROR && handed == NOTHING_HANDED
    {
      this.sizes := sizes;
      pending := EMPTY_GROUP;
      updateSequence, shutdownSignalled, sent := 0, false, [];
      target, handed, history := EMPTY_MIRROR, NOTHING_HANDED, [EMPTY_MIRROR];
    }

    /** Once everything is flushed, folding the stream from its start gives what fits of what was handed over. */
    lemma FlushedClientKnows()
      requires Valid() && pending.IsEmpty() && !shutdownSignalled
      ensures Fold(sizes, EMPTY_MIRROR, sent) == Total(Publishable(sizes, handed))
    {
      HistoryIsFold(sizes, sent, history);
      EmptyEffect(pending, Received());
    }

    /**
     A flushed client agrees at a key exactly if the latest mutation of the key fits into an event, or the
     latest that fits left the same value. If nothing was too large, it agrees everywhere.
     */
    lemma FlushedClientAgrees()
      requires Valid() && pending.IsEmpty() && !shutdownSignalled
      ensures var known := Fold(sizes, EMPTY_MIRROR, sent);
              && target == Total(handed)
              && RightExactly(known.processes, handed.processes) && RightExactly(known.ports, handed.ports)
              && (known.availability == target.availability <==> AvailabilityUpToDate(sizes, handed.availabilities))
              && (NothingOversized(sizes, handed) ==> known == target)
    {
      hide Fold, ApplyAll, Fitting, RightExactly, NothingOversized;
      FlushedClientKnows();
      PublishedIsRightExactly(handed.processes);
      PublishedIsRightExactly(handed.ports);
      FittingAvailabilityIsEnough(sizes, handed.availabilities);
      if NothingOversized(sizes, handed) {
        NothingOversizedAllPublished(sizes, handed);
      }
    }

    /** One more numbered update, or a shutdown once the sequence is exhausted. */
    method PublishImmediate(change: Change)
      requires Contiguous() && WithinLimits(sizes, change)
      modifies this`updateSequence, this`shutdownSignalled, this`sent, this`history
      ensures Contiguous()
      ensures old(updateSequence) < MAX_UPDATE_SEQUENCE ==>
                sent == old(sent) + [Update(old(updateSequence) + 1, change)]
                && shutdownSignalled == old(shutdownSignalled)
                && Received() == Deliver(sizes, old(Received()), change)
      ensures old(updateSequence) == MAX_UPDATE_SEQUENCE ==>
                sent == old(sent) && Received() == old(Received()) && shutdownSignalled
    {
      if updateSequence == MAX_UPDATE_SEQUENCE {
        shutdownSignalled := true;
        return;
      }
      updateSequence := updateSequence + 1;
      sent := sent + [Update(updateSequence, change)];
      history := history + [Deliver(sizes, Received(), change)];
      assert sent[..|sent| - 1] == old(sent);
    }

    method PublishAll(changes: seq<Ordered>)
      requires Contiguous()
      requires forall x :: x in changes ==> WithinLimits(sizes, x.change)
      modifies this`updateSequence, this`shutdownSignalled, this`sent, this`history
      ensures Contiguous()
      ensures old(shutdownSignalled) ==> shutdownSignalled
      ensures old(sent) <= sent && |sent| <= |old(sent)| + |changes|
      ensures !shutdownSignalled ==>
                Received()
                == DeliverAll(sizes, old(Received()), changes)
    {
      ghost var start := Received();
      var i := 0;
      assert changes[..0] == [];
      while i < |changes|
        invariant 0 <= i <= |changes|
        invariant Contiguous()
        invariant old(shutdownSignalled) ==> shutdownSignalled
        invariant old(sent) <= sent && |sent| <= |old(sent)| + i
        invariant !shutdownSignalled ==>
                    Received() == DeliverAll(sizes, start, changes[..i])
      {
        assert changes[i] in changes;
        PublishImmediate(changes[i].change);
        assert changes[..i + 1] == changes[..i] + [changes[i]];
        DeliverAppend(sizes, start, changes[..i], changes[i]);
        i := i + 1;
      }
      assert changes[..i] == changes;
    }

    method PublishGroup(group: Group)
      requires Contiguous()
      requires group.Accounted(sizes) && group.Bounded()
      modifies this`updateSequence, this`shutdownSignalled, this`sent, this`history
      ensures Contiguous()
      ensures old(shutdownSignalled) ==> shutdownSignalled
      ensures old(sent) <= sent && |sent| <= |old(sent)| + 3
      ensures !shutdownSignalled ==>
                Received() == group.Effect(old(Received()))
    {
      GroupEffect(sizes, group, Received());
      var changes := group.IntoOrderedChanges();
      PublishAll(changes);
    }

    method FlushPendingUpdates()
      requires Valid()
      modifies this`pending, this`updateSequence, this`shutdownSignalled, this`sent, this`history
      ensures Valid() && pending.IsEmpty() && pending.Roomy()
      ensures old(shutdownSignalled) ==> shutdownSignalled
      ensures old(sent) <= sent && |sent| <= |old(sent)| + 3
      ensures !shutdownSignalled ==> Received() == View() == old(View())
    {
      hide Group.Accounted, Group.Bounded, Group.Roomy, Group.IsEmpty, Group.Effect, Total, Publishable, SizedHanded;
      if !pending.IsEmpty() {
        var group := pending;
        pending := EMPTY_GROUP;
        PublishGroup(group);
        NothingPending(sizes);
      }
      EmptyIsRoomy(sizes, pending);
      EmptyEffect(pending, Received());
    }

    method FlushPendingUpdatesIfFull()
      requires Valid()
      modifies this`pending, this`updateSequence, this`shutdownSignalled, this`sent, this`history
      ensures Valid() && pending.Roomy()
      ensures !shutdownSignalled ==> View() == old(View())
      ensures old(shutdownSignalled) ==> shutdownSignalled
      ensures old(sent) <= sent && |sent| <= |old(sent)| + 3
      ensures old(pending.Roomy()) ==> pending == old(pending) && sent == old(sent)
    {
      if pending.EntityCount() >= MAX_DISCOVERY_EVENT_ENTITIES
         || pending.estimatedPayloadBytes >= MAX_DISCOVERY_EVENT_PAYLOAD_BYTES {
        FlushPendingUpdates();
      }
    }

    /** A failure is published at once, behind everything accumulated before it. */
    method PublishFailure(operation: Operation, error: ErrorCode)
      requires Valid()
      modifies this`pending, this`updateSequence, this`shutdownSignalled, this`sent, this`history
      ensures Valid() && pending.IsEmpty() && pending.Roomy()
      ensures !shutdownSignalled ==> View() == old(View())
      ensures old(shutdownSignalled) ==> shutdownSignalled
      ensures old(sent) <= sent && |sent| <= |old(sent)| + 4
      ensures shutdownSignalled || (sent != [] && sent[|sent| - 1].change == OperationFailed(operation, error))
      ensures shutdownSignalled || |old(sent)| < |sent|
    {
      FlushPendingUpdates();
      PublishImmediate(OperationFailed(operation, error));
      EmptyEffect(pending, Received());
    }

    method InsertProcess(key: ProcessKey, mutation: Mutation<ProcessRecord>)
      requires Valid() && SizedProcess(sizes, key, mutation) && mutation.bytes <= MAX_ENTITY_BYTES
      requires pending.IsEmpty() || pending.WithProcess(key, mutation).Bounded()
      modifies this`pending, this`target, this`handed
      ensures Valid() && pending == old(pending).WithProcess(key, mutation)
      ensures View() == old(View()).(processes := Apply(old(View()).processes, key, mutation))
      ensures target == old(target).(processes := Apply(old(target).processes, key, mutation))
      ensures handed == old(handed).(processes := old(handed).processes + [Keyed(key, mutation)])
    {
      hide Group.Accounted, SizedProcess, Apply, ApplyAll, Fitting, Group.Effect;
      InsertProcessEffect(sizes, pending, key, mutation, Received());
      HandProcess(sizes, handed, key, mutation);
      pending := pending.WithProcess(key, mutation);
      target := target.(processes := Apply(target.processes, key, mutation));
      handed := handed.(processes := handed.processes + [Keyed(key, mutation)]);
    }

    /** An entity too large for any event is reported; clients keep what they have. */
    method RefuseProcess(key: ProcessKey, mutation: Mutation<ProcessRecord>)
      requires Valid() && SizedProcess(sizes, key, mutation) && mutation.bytes > MAX_ENTITY_BYTES
      modifies this
      ensures Valid() && pending.IsEmpty() && pending.Roomy()
      ensures !shutdownSignalled ==> View() == old(View())
      ensures target == old(target).(processes := Apply(old(target).processes, key, mutation))
      ensures handed == old(handed).(processes := old(handed).processes + [Keyed(key, mutation)])
      ensures old(shutdownSignalled) ==> shutdownSignalled
      ensures old(sent) <= sent && |sent| <= |old(sent)| + 4
    {
      hide Group.Accounted, SizedProcess, Apply, ApplyAll, Fitting, Group.Effect;
      PublishFailure(ProcessPublication(key), PlatformError);
      HandProcess(sizes, handed, key, mutation);
      target := target.(processes := Apply(target.processes, key, mutation));
      handed := handed.(processes := handed.processes + [Keyed(key, mutation)]);
    }

    /** Clients see the mutation exactly if it fits into an event. */
    method AccumulateProcessMutation(key: ProcessKey, mutation: Mutation<ProcessRecord>)
      requires Valid() && pending.Roomy() && SizedProcess(sizes, key, mutation)
      modifies this
      ensures Valid() && pending.Roomy()
      ensures !shutdownSignalled ==>
                View() == if mutation.bytes > MAX_ENTITY_BYTES then old(View())
                          else old(View()).(processes := Apply(old(View()).processes, key, mutation))
      ensures target == old(target).(processes := Apply(old(target).processes, key, mutation))
      ensures handed == old(handed).(processes := old(handed).processes + [Keyed(key, mutation)])
      ensures old(shutdownSignalled) ==> shutdownSignalled
      ensures old(sent) <= sent && |sent| <= |old(sent)| + 6
    {
      hide Group.Accounted, SizedProcess, Apply, Group.Effect, Total, Publishable, Contiguous;
      if mutation.bytes + ESTIMATED_EVENT_CONTAINER_BYTES > MAX_DISCOVERY_EVENT_PAYLOAD_BYTES {
        RefuseProcess(key, mutation);
        return;
      }
      ghost var passes := 0;
      while true
        invariant Valid() && pending.Roomy()
        invariant target == old(target) && handed == old(handed)
        invariant !shutdownSignalled ==> View() == old(View())
        invariant old(shutdownSignalled) ==> shutdownSignalled
        invariant old(sent) <= sent && |sent| <= |old(sent)| + 3 * passes
        invariant passes == 0 || (passes == 1 && pending.IsEmpty())
        decreases !pending.IsEmpty()
      {
        passes := passes + 1;
        if !pending.IsEmpty() && !pending.WithProcess(key, mutation).Bounded() {
          FlushPendingUpdates();
          continue;
        }
        InsertProcess(key, mutation);
        FlushPendingUpdatesIfFull();
        break;
      }
      assert passes <= 2;
    }

    method InsertPort(key: PortKey, mutation: Mutation<PortBinding>)
      requires Valid() && SizedPort(sizes, key, mutation) && mutation.bytes <= MAX_ENTITY_BYTES
      requires pending.IsEmpty() || pending.WithPort(key, mutation).Bounded()
      modifies this`pending, this`target, this`handed
      ensures Valid() && pending == old(pending).WithPort(key, mutation)
      ensures View() == old(View()).(ports := Apply(old(View()).ports, key, mutation))
      ensures target == old(target).(ports := Apply(old(target).ports, key, mutation))
      ensures handed == old(handed).(ports := old(handed).ports + [Keyed(key, mutation)])
    {
      hide Group.Accounted, SizedPort, Apply, ApplyAll, Fitting, Group.Effect;
      InsertPortEffect(sizes, pending, key, mutation, Received());
      HandPort(sizes, handed, key, mutation);
      pending := pending.WithPort(key, mutation);
      target := target.(ports := Apply(target.ports, key, mutation));
      handed := handed.(ports := handed.ports + [Keyed(key, mutation)]);
    }

    /** An entity too large for any event is reported; clients keep what they have. */
    method RefusePort(key: PortKey, mutation: Mutation<PortBinding>)
      requires Valid() && SizedPort(sizes, key, mutation) && mutation.bytes > MAX_ENTITY_BYTES
      modifies this
      ensures Valid() && pending.IsEmpty() && pending.Roomy()
      ensures !shutdownSignalled ==> View() == old(View())
      ensures target == old(target).(ports := Apply(old(target).ports, key, mutation))
      ensures handed == old(handed).(ports := old(handed).ports + [Keyed(key, mutation)])
      ensures old(shutdownSignalled) ==> shutdownSignalled
      ensures old(sent) <= sent && |sent| <= |old(sent)| + 4
    {
      hide Group.Accounted, SizedPort, Apply, ApplyAll, Fitting, Group.Effect;
      PublishFailure(PortScan, PlatformError);
      HandPort(sizes, handed, key, mutation);
      target := target.(ports := Apply(target.ports, key, mutation));
      handed := handed.(ports := handed.ports + [Keyed(key, mutation)]);
    }

    /** Clients see the mutation exactly if it fits into an event. */
    method AccumulatePortMutation(key: PortKey, mutation: Mutation<PortBinding>)
      requires Valid() && pending.Roomy() && SizedPort(sizes, key, mutation)
      modifies this
      ensures Valid() && pending.Roomy()
      ensures !shutdownSignalled ==>
                View() == if mutation.bytes > MAX_ENTITY_BYTES then old(View())
                          else old(View()).(ports := Apply(old(View()).ports, key, mutation))
      ensures target == old(target).(ports := Apply(old(target).ports, key, mutation))
      ensures handed == old(handed).(ports := old(handed).ports + [Keyed(key, mutation)])
      ensures old(shutdownSignalled) ==> shutdownSignalled
      ensures old(sent) <= sent && |sent| <= |old(sent)| + 6
    {
      hide Group.Accounted, SizedPort, Apply, Group.Effect, Total, Publishable, Contiguous;
      if mutation.bytes + ESTIMATED_EVENT_CONTAINER_BYTES > MAX_DISCOVERY_EVENT_PAYLOAD_BYTES {
        RefusePort(key, mutation);
        return;
      }
      ghost var passes := 0;
      while true
        invariant Valid() && pending.Roomy()
        invariant target == old(target) && handed == old(handed)
        invariant !shutdownSignalled ==> View() == old(View())
        invariant old(shutdownSignalled) ==> shutdownSignalled
        invariant old(sent) <= sent && |sent| <= |old(sent)| + 3 * passes
        invariant passes == 0 || (passes == 1 && pending.IsEmpty())
        decreases !pending.IsEmpty()
      {
        passes := passes + 1;
        if !pending.IsEmpty() && !pending.WithPort(key, mutation).Bounded() {
          FlushPendingUpdates();
          continue;
        }
        InsertPort(key, mutation);
        FlushPendingUpdatesIfFull();
        break;
      }
      assert passes <= 2;
    }

    method InsertAvailability(value: FieldValue<()>)
      requires Valid() && sizes.availability(value) <= MAX_ENTITY_BYTES
      requires pending.IsEmpty() || pending.WithAvailability(value, sizes.availability(value)).Bounded()
      modifies this`pending, this`target, this`handed
      ensures Valid() && pending == old(pending).WithAvailability(value, sizes.availability(value))
      ensures View() == old(View()).(availability := value)
      ensures target == old(target).(availability := value)
      ensures handed == old(handed).(availabilities := old(handed).availabilities + [value])
    {
      hide Group.Accounted, ApplyAll, Fitting, Group.Effect, FittingAvailabilities;
      InsertAvailabilityEffect(sizes, pending, value, Received());
      HandAvailability(sizes, handed, value);
      pending := pending.WithAvailability(value, sizes.availability(value));
      target := target.(availability := value);
      handed := handed.(availabilities := handed.availabilities + [value]);
    }

    method RefuseAvailability(value: FieldValue<()>)
      requires Valid() && sizes.availability(value) > MAX_ENTITY_BYTES
      modifies this
      ensures Valid() && pending.IsEmpty() && pending.Roomy()
      ensures !shutdownSignalled ==> View() == old(View())
      ensures target == old(target).(availability := value)
      ensures handed == old(handed).(availabilities := old(handed).availabilities + [value])
      ensures old(shutdownSignalled) ==> shutdownSignalled
      ensures old(sent) <= sent
    {
      hide Group.Accounted, ApplyAll, Fitting, Group.Effect, FittingAvailabilities;
      PublishFailure(PortScan, PlatformError);
      HandAvailability(sizes, handed, value);
      target := target.(availability := value);
      handed := handed.(availabilities := handed.availabilities + [value]);
    }

    /** Clients see the value exactly if it fits into an event. */
    method AccumulatePortAvailability(value: FieldValue<()>)
      requires Valid() && pending.Roomy()
      modifies this
      ensures Valid() && pending.Roomy()
      ensures !shutdownSignalled ==>
                View() == if sizes.availability(value) > MAX_ENTITY_BYTES then old(View())
                          else old(View()).(availability := value)
      ensures target == old(target).(availability := value)
      ensures handed == old(handed).(availabilities := old(handed).availabilities + [value])
      ensures old(shutdownSignalled) ==> shutdownSignalled
      ensures old(sent) <= sent
    {
      hide Group.Accounted, Group.Effect, Total, Publishable, Contiguous;
      var bytes := sizes.availability(value);
      if bytes + ESTIMATED_EVENT_CONTAINER_BYTES > MAX_DISCOVERY_EVENT_PAYLOAD_BYTES {
        RefuseAvailability(value);
        return;
      }
      ghost var passes := 0;
      while true
        invariant Valid() && pending.Roomy()
        invariant target == old(target) && handed == old(handed)
        invariant !shutdownSignalled ==> View() == old(View())
        invariant old(shutdownSignalled) ==> shutdownSignalled
        invariant old(sent) <= sent
        invariant passes == 0 || (passes == 1 && pending.IsEmpty())
        decreases !pending.IsEmpty()
      {
        passes := passes + 1;
        if !pending.IsEmpty()
           && pending.WithAvailability(value, bytes).estimatedPayloadBytes > MAX_DISCOVERY_EVENT_PAYLOAD_BYTES {
          FlushPendingUpdates();
          continue;
        }
        InsertAvailability(value);
        FlushPendingUpdatesIfFull();
        break;
      }
      assert passes <= 2;
    }

    method AccumulateProcessMutations(mutations: seq<Keyed<ProcessKey, ProcessRecord>>)
      requires Valid() && pending.Roomy()
      requires forall i | 0 <= i < |mutations| :: SizedProcess(sizes, mutations[i].key, mutations[i].mutation)
      modifies this
      ensures Valid() && pending.Roomy()
      ensures target == old(target).(processes := ApplyAll(old(target).processes, mutations))
      ensures handed == old(handed).(processes := old(handed).processes + mutations)
      ensures old(shutdownSignalled) ==> shutdownSignalled
      ensures old(sent) <= sent
    {
      hide Group.Accounted, Apply, Group.Effect, Total, Publishable, Contiguous, SizedProcess;
      for i := 0 to |mutations|
        invariant Valid() && pending.Roomy()
        invariant target == old(target).(processes := ApplyAll(old(target).processes, mutations[..i]))
        invariant handed == old(handed).(processes := old(handed).processes + mutations[..i])
        invariant old(shutdownSignalled) ==> shutdownSignalled
        invariant old(sent) <= sent
      {
        AccumulateProcessMutation(mutations[i].key, mutations[i].mutation);
        assert mutations[..i + 1][..i] == mutations[..i];
        assert mutations[i] == Keyed(mutations[i].key, mutations[i].mutation);
      }
      assert mutations[..|mutations|] == mutations;
    }

    method PublishProcessDelta(upserted: seq<ProcessRecord>, removed: seq<ProcessKey>)
      requires Valid() && pending.Roomy()
      modifies this
      ensures Valid() && pending.Roomy()
      ensures target == old(target).(
                processes := ApplyAll(old(target).processes, ProcessMutations(sizes, upserted, removed)))
      ensures handed == old(handed).(processes := old(handed).processes + ProcessMutations(sizes, upserted, removed))
      ensures old(shutdownSignalled) ==> shutdownSignalled
      ensures old(sent) <= sent
    {
      hide Group.Accounted, Apply, ApplyAll, Group.Effect, Total, Publishable, Contiguous;
      AccumulateProcessMutations(ProcessMutations(sizes, upserted, removed));
    }

    method AccumulatePortMutations(mutations: seq<Keyed<PortKey, PortBinding>>)
      requires Valid() && pending.Roomy()
      requires forall i | 0 <= i < |mutations| :: SizedPort(sizes, mutations[i].key, mutations[i].mutation)
      modifies this
      ensures Valid() && pending.Roomy()
      ensures target == old(target).(ports := ApplyAll(old(target).ports, mutations))
      ensures handed == old(handed).(ports := old(handed).ports + mutations)
      ensures old(shutdownSignalled) ==> shutdownSignalled
      ensures old(sent) <= sent
    {
      hide Group.Accounted, Apply, Group.Effect, Total, Publishable, Contiguous, SizedPort;
      for i := 0 to |mutations|
        invariant Valid() && pending.Roomy()
        invariant target == old(target).(ports := ApplyAll(old(target).ports, mutations[..i]))
        invariant handed == old(handed).(ports := old(handed).ports + mutations[..i])
        invariant old(shutdownSignalled) ==> shutdownSignalled
        invariant old(sent) <= sent
      {
        AccumulatePortMutation(mutations[i].key, mutations[i].mutation);
        assert mutations[..i + 1][..i] == mutations[..i];
        assert mutations[i] == Keyed(mutations[i].key, mutations[i].mutation);
      }
      assert mutations[..|mutations|] == mutations;
    }

    method PublishPortDelta(upserted: seq<PortBinding>, removed: seq<PortKey>)
      requires Valid() && pending.Roomy()
      modifies this
      ensures Valid() && pending.Roomy()
      ensures target == old(target).(
                ports := ApplyAll(old(target).ports, PortMutations(sizes, upserted, removed)))
      ensures handed == old(handed).(ports := old(handed).ports + PortMutations(sizes, upserted, removed))
      ensures old(shutdownSignalled) ==> shutdownSignalled
      ensures old(sent) <= sent
    {
      hide Group.Accounted, Apply, ApplyAll, Group.Effect, Total, Publishable, Contiguous;
      AccumulatePortMutations(PortMutations(sizes, upserted, removed));
    }
  }

  lemma HandProcess(sizes: Sizes, handed: Handed, key: ProcessKey, mutation: Mutation<ProcessRecord>)
    requires SizedHanded(sizes, handed) && SizedProcess(sizes, key, mutation)
    ensures var more := handed.(processes := handed.processes + [Keyed(key, mutation)]);
            && SizedHanded(sizes, more)
            && Total(more) == Total(handed).(processes := Apply(Total(handed).processes, key, mutation))
            && Total(Publishable(sizes, more))
               == (if mutation.bytes > MAX_ENTITY_BYTES then Total(Publishable(sizes, handed))
                   else Total(Publishable(sizes, handed)).(
                     processes := Apply(Total(Publishable(sizes, handed)).processes, key, mutation)))
  {
    hide ApplyAll, Apply, Fitting;
    OneMoreMutation(handed.processes, MAX_ENTITY_BYTES, key, mutation);
  }

  lemma HandPort(sizes: Sizes, handed: Handed, key: PortKey, mutation: Mutation<PortBinding>)
    requires SizedHanded(sizes, handed) && SizedPort(sizes, key, mutation)
    ensures var more := handed.(ports := handed.ports + [Keyed(key, mutation)]);
            && SizedHanded(sizes, more)
            && Total(more) == Total(handed).(ports := Apply(Total(handed).ports, key, mutation))
            && Total(Publishable(sizes, more))
               == (if mutation.bytes > MAX_ENTITY_BYTES then Total(Publishable(sizes, handed))
                   else Total(Publishable(sizes, handed)).(
                     ports := Apply(Total(Publishable(sizes, handed)).ports, key, mutation)))
  {
    hide ApplyAll, Apply, Fitting;
    OneMoreMutation(handed.ports, MAX_ENTITY_BYTES, key, mutation);
  }

  lemma HandAvailability(sizes: Sizes, handed: Handed, value: FieldValue<()>)
    requires SizedHanded(sizes, handed)
    ensures var more := handed.(availabilities := handed.availabilities + [value]);
            && SizedHanded(sizes, more)
            && Total(more) == Total(handed).(availability := value)
            && Total(Publishable(sizes, more))
               == (if sizes.availability(value) > MAX_ENTITY_BYTES then Total(Publishable(sizes, handed))
                   else Total(Publishable(sizes, handed)).(availability := value))
  {
    hide ApplyAll, Fitting;
    assert (handed.availabilities + [value])[..|handed.availabilities|] == handed.availabilities;
  }

  lemma EmptyEffect(group: Group, mirror: Mirror)
    requires group.IsEmpty()
    ensures group.Effect(mirror) == mirror
  {
  }

  lemma EmptyIsRoomy(sizes: Sizes, group: Group)
    requires group.IsEmpty() && group.Accounted(sizes)
    ensures group.Roomy()
  {
    assert group.ExactBytes() == 0 && group.EntityCount() == 0;
  }

  lemma NothingPending(sizes: Sizes)
    ensures EMPTY_GROUP.IsEmpty() && EMPTY_GROUP.Accounted(sizes) && EMPTY_GROUP.Bounded()
  {
  }

  /** An insertion keeps the running estimate exact and has the effect of its mutation. */
  lemma InsertProcessEffect(
    sizes: Sizes, group: Group, key: ProcessKey, mutation: Mutation<ProcessRecord>, mirror: Mirror)
    requires group.Accounted(sizes) && SizedProcess(sizes, key, mutation)
    ensures group.WithProcess(key, mutation).Accounted(sizes)
    ensures group.WithProcess(key, mutation).Effect(mirror)
            == group.Effect(mirror).(processes := Apply(group.Effect(mirror).processes, key, mutation))
    ensures group.IsEmpty() && mutation.bytes <= MAX_ENTITY_BYTES ==> group.WithProcess(key, mutation).Bounded()
  {
    SumInsert(group.processes, key, mutation);
    OverlayInsert(mirror.processes, group.processes, key, mutation);
    assert key in group.processes[key := mutation];
  }

  lemma InsertAvailabilityEffect(sizes: Sizes, group: Group, value: FieldValue<()>, mirror: Mirror)
    requires group.Accounted(sizes)
    ensures group.WithAvailability(value, sizes.availability(value)).Accounted(sizes)
    ensures group.WithAvailability(value, sizes.availability(value)).Effect(mirror)
            == group.Effect(mirror).(availability := value)
    ensures group.IsEmpty() && sizes.availability(value) <= MAX_ENTITY_BYTES
            ==> group.WithAvailability(value, sizes.availability(value)).Bounded()
  {
  }

  /** The same for ports. */
  lemma InsertPortEffect(
    sizes: Sizes, group: Group, key: PortKey, mutation: Mutation<PortBinding>, mirror: Mirror)
    requires group.Accounted(sizes) && SizedPort(sizes, key, mutation)
    ensures group.WithPort(key, mutation).Accounted(sizes)
    ensures group.WithPort(key, mutation).Effect(mirror)
            == group.Effect(mirror).(ports := Apply(group.Effect(mirror).ports, key, mutation))
    ensures group.IsEmpty() && mutation.bytes <= MAX_ENTITY_BYTES ==> group.WithPort(key, mutation).Bounded()
  {
    SumInsert(group.ports, key, mutation);
    OverlayInsert(mirror.ports, group.ports, key, mutation);
    assert key in group.ports[key := mutation];
  }

  // ----- A client that stays behind -----

  /** A record of a size that fits is followed by one that does not: the client keeps the first. */
  method RefusedRecordIsNotSeen(sizes: Sizes, small: ProcessRecord, large: ProcessRecord) returns (p: Publisher)
    requires small.key == large.key && small != large
    requires sizes.record(small) <= MAX_ENTITY_BYTES < sizes.record(large)
    ensures fresh(p) && p.Valid() && p.pending.IsEmpty() && !p.shutdownSignalled && p.sizes == sizes
    ensures p.target.processes == map[large.key := large]
    ensures Fold(p.sizes, EMPTY_MIRROR, p.sent).processes == map[large.key := small]
  {
    hide Publisher.Valid, Publisher.View, Group.Roomy, Fold;
    p := new Publisher(sizes);
    FreshView(p);
    HandOver(p, small);
    HandOver(p, large);
    p.FlushPendingUpdates();
    StillRunning(p);
    FlushedView(p);
  }

  /** What handing one record over does to the table and to what clients will know. */
  method HandOver(p: Publisher, record: ProcessRecord)
    requires p.Valid() && p.pending.Roomy() && p.history != []
    modifies p
    ensures p.Valid() && p.pending.Roomy() && p.history != []
    ensures p.target.processes == old(p.target.processes)[record.key := record]
    ensures !p.shutdownSignalled ==>
              p.View().processes == if p.sizes.record(record) > MAX_ENTITY_BYTES then old(p.View().processes)
                                    else old(p.View().processes)[record.key := record]
    ensures old(p.shutdownSignalled) ==> p.shutdownSignalled
    ensures |p.sent| <= |old(p.sent)| + 6
  {
    hide Publisher.Contiguous, Group.Accounted, Group.Effect, Total, Publishable, SizedHanded;
    p.AccumulateProcessMutation(record.key, Upsert(record, p.sizes.record(record)));
  }

  lemma FreshView(p: Publisher)
    requires p.Valid() && !p.shutdownSignalled && p.handed == NOTHING_HANDED
    ensures p.history != [] && p.View() == EMPTY_MIRROR
  {
  }

  lemma FlushedView(p: Publisher)
    requires p.Valid() && !p.shutdownSignalled && p.pending.IsEmpty()
    ensures p.history != [] && Fold(p.sizes, EMPTY_MIRROR, p.sent) == p.View()
  {
    p.FlushedClientKnows();
  }

  lemma StillRunning(p: Publisher)
    requires p.Valid() && |p.sent| < MAX_UPDATE_SEQUENCE
    ensures !p.shutdownSignalled
  {
  }

  // ----- A command line that is read whole and outgrows an event -----

  const MAX_PROCARGS_BYTES: nat := 256 * 1024

  predicate IsShellSafe(c: char) {
    'a' <= c <= 'z' || 'A' <= c <= 'Z' || '0' <= c <= '9' || c in "_-./:@+=,"
  }

  /** Single quotes end the quoting, are escaped, and start it again. */
  function Escaped(argument: string): string {
    if argument == "" then ""
    else (if argument[0] == '\'' then "'\\''" else [argument[0]]) + Escaped(argument[1..])
  }

  function QuoteArgument(argument: string): string {
    if argument != "" && forall c | c in argument :: IsShellSafe(c) then argument
    else "'" + Escaped(argument) + "'"
  }

  /** The bytes of a character in a JSON string. */
  function JsonCharacter(c: char): nat {
    if c in "\"\\\n\r\t" || c as int in {8, 12} then 2
    else if c < ' ' then 6
    else if c as int < 0x80 then 1
    else if c as int < 0x800 then 2
    else if c as int < 0x1_0000 then 3
    else 4
  }

  function JsonCharacters(s: string): nat {
    if s == "" then 0 else JsonCharacter(s[0]) + JsonCharacters(s[1..])
  }

  function JsonString(s: string): nat { JsonCharacters(s) + 2 }

  lemma {:induction false} JsonOfAppend(a: string, b: string)
    ensures JsonCharacters(a + b) == JsonCharacters(a) + JsonCharacters(b)
  {
    if a == "" {
      assert a + b == b;
    } else {
      JsonOfAppend(a[1..], b);
      assert (a + b)[1..] == a[1..] + b;
    }
  }

  function Quotes(n: nat): (r: string)
    ensures |r| == n && forall i | 0 <= i < n :: r[i] == '\''
  {
    if n == 0 then "" else "'" + Quotes(n - 1)
  }

  lemma {:induction false} EscapedQuotes(n: nat)
    ensures JsonCharacters(Escaped(Quotes(n))) == 5 * n
  {
    if n > 0 {
      EscapedQuotes(n - 1);
      assert Quotes(n)[1..] == Quotes(n - 1);
      JsonOfAppend("'\\''", Escaped(Quotes(n - 1)));
      assert JsonCharacters("'\\''") == 5;
    }
  }

  /** An argument of single quotes takes five bytes for each, once it is quoted and written as JSON. */
  lemma QuotingGrows(n: nat)
    requires n > 0
    ensures JsonString(QuoteArgument(Quotes(n))) == 5 * n + 4
  {
    assert Quotes(n)[0] == '\'' && !IsShellSafe('\'');
    EscapedQuotes(n);
    JsonOfAppend("'" + Escaped(Quotes(n)), "'");
    JsonOfAppend("'", Escaped(Quotes(n)));
  }

  /** Half of what the backend reads of the arguments of one process. */
  const LONG_ARGUMENT: string := Quotes(MAX_PROCARGS_BYTES / 2)

  /** The backend reads the argument whole, and no event can carry what it reports. */
  lemma LongArgumentOutgrowsEvents()
    ensures |LONG_ARGUMENT| < MAX_PROCARGS_BYTES && JsonString(QuoteArgument(LONG_ARGUMENT)) > MAX_ENTITY_BYTES
  {
    QuotingGrows(MAX_PROCARGS_BYTES / 2);
  }

  /** A record takes at least the bytes of its command line. */
  ghost predicate CountsCommandLine(sizes: Sizes) {
    forall r: ProcessRecord | r.commandLine.Known? :: sizes.record(r) >= JsonString(r.commandLine.value)
  }

  /** Sizes that allow a kilobyte for the other fields. */
  const COMMAND_LINE_SIZES: Sizes :=
    Sizes(
      (r: ProcessRecord) => 1_024 + if r.commandLine.Known? then JsonString(r.commandLine.value) else 0,
      _ => 128, _ => 512, _ => 512, _ => 64)

  function RecordWith(commandLine: string): ProcessRecord {
    ProcessRecord(
      ProcessKey("boot", 1, "1"), Observation(Unknown, Unknown, Unknown, Unknown, Unknown, Unknown),
      Unknown, Unknown, Known(commandLine), Unknown, 0, External, None, Undetermined, Undetermined, None,
      Classification(0, 0, Unclassified, [], None, false), Unknown, 0)
  }

  lemma ShortLine()
    ensures JsonString("a") == 3
  {
    assert "a"[1..] == "";
  }

  lemma LinesDiffer()
    ensures var small, large := RecordWith("a"), RecordWith(QuoteArgument(LONG_ARGUMENT));
            && small != large && small.key == large.key
            && COMMAND_LINE_SIZES.record(small) <= MAX_ENTITY_BYTES < COMMAND_LINE_SIZES.record(large)
  {
    hide JsonCharacters, QuoteArgument;
    LongArgumentOutgrowsEvents();
    ShortLine();
    assert RecordWith("a").commandLine.value == "a";
  }

  lemma EntriesDiffer<K, V>(key: K, a: V, b: V)
    requires a != b
    ensures map[key := a].Keys == map[key := b].Keys && map[key := a] != map[key := b]
  {
    assert map[key := a][key] != map[key := b][key];
  }

  /** Such records exist: a process whose argument the backend reads whole, but no event can carry. */
  method ClientCanStayBehind() returns (p: Publisher)
    ensures p.Valid() && p.pending.IsEmpty() && !p.shutdownSignalled && CountsCommandLine(p.sizes)
    ensures var known := Fold(p.sizes, EMPTY_MIRROR, p.sent);
            known.processes.Keys == p.target.processes.Keys && known.processes != p.target.processes
  {
    hide Fold, Publisher.Valid, RecordWith, QuoteArgument;
    var small, large := RecordWith("a"), RecordWith(QuoteArgument(LONG_ARGUMENT));
    LinesDiffer();
    EntriesDiffer(large.key, small, large);
    p := RefusedRecordIsNotSeen(COMMAND_LINE_SIZES, small, large);
  }
}
