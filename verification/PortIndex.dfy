/**
 The port table of the scheduler: who owns which binding, how confident that ownership is, and the
 per-process results that are kept in step with it by refreshing only what a change affects.
 */
module PortIndex {
  import opened DiscoveryDomain
  import opened KeyOrder

  datatype PortEntry = PortEntry(binding: PortBinding, expiresAt: nat)

  type Ports = map<PortKey, PortEntry>

  datatype PortResult = PortResult(value: FieldValue<seq<PortBinding>>, expiresAt: nat)

  type PortResults = map<ProcessKey, PortResult>

  datatype Endpoint = Endpoint(protocol: PortProtocol, family: AddressFamily, address: string, port: nat)

  function EndpointOf(key: PortKey): Endpoint {
    Endpoint(key.protocol, key.family, key.address, key.port)
  }

  ghost predicate WellKeyed(ports: Ports) {
    forall k | k in ports :: KeyOf(ports[k].binding) == k
  }

  // ----- The bindings a process owns -----

  function OwnedKeys(ports: Ports, process: ProcessKey): set<PortKey> {
    set k | k in ports && k.owner == Some(process)
  }

  /** Collected and sorted, as the scheduler stores and publishes them. */
  function Owned(ports: Ports, process: ProcessKey): seq<PortBinding> {
    var keys := SortedPorts(OwnedKeys(ports, process));
    seq(|keys|, i requires 0 <= i < |keys| => assert keys[i] in OwnedKeys(ports, process); ports[keys[i]].binding)
  }

  lemma OwnedUnchanged(before: Ports, after: Ports, process: ProcessKey)
    requires forall k: PortKey | k.owner == Some(process) :: k in before <==> k in after
    requires forall k: PortKey | k.owner == Some(process) && k in before && k in after ::
               before[k].binding == after[k].binding
    ensures Owned(before, process) == Owned(after, process)
  {
    assert OwnedKeys(before, process) == OwnedKeys(after, process);
    var keys := SortedPorts(OwnedKeys(before, process));
    forall i | 0 <= i < |keys|
      ensures keys[i] in before && keys[i] in after && before[keys[i]].binding == after[keys[i]].binding
    {
      assert keys[i] in OwnedKeys(before, process);
      assert keys[i] in OwnedKeys(after, process);
    }
  }

  /** The owned bindings are exactly those of the table, each once and in key order. */
  lemma OwnedIsSortedSelection(ports: Ports, process: ProcessKey)
    requires WellKeyed(ports)
    ensures forall i | 0 <= i < |Owned(ports, process)| ::
              var b := Owned(ports, process)[i];
              b.owner == Some(process) && KeyOf(b) in ports && ports[KeyOf(b)].binding == b
    ensures forall k | k in ports && k.owner == Some(process) :: ports[k].binding in Owned(ports, process)
    ensures forall i, j | 0 <= i < j < |Owned(ports, process)| ::
              PortLess(KeyOf(Owned(ports, process)[i]), KeyOf(Owned(ports, process)[j]))
  {
    var owned, keys := Owned(ports, process), SortedPorts(OwnedKeys(ports, process));
    SortedAscending({}, OwnedKeys(ports, process));
    forall i | 0 <= i < |keys| ensures keys[i] in OwnedKeys(ports, process) && KeyOf(owned[i]) == keys[i] {
      assert keys[i] in OwnedKeys(ports, process);
    }
    forall k | k in ports && k.owner == Some(process) ensures ports[k].binding in owned {
      assert k in OwnedKeys(ports, process);
      var i :| 0 <= i < |keys| && keys[i] == k;
      assert owned[i] == ports[k].binding;
    }
  }

  // ----- Ownership confidence -----

  /** An endpoint's binding is exact when its owner is known and nobody else claims it. */
  function ConfidenceOf(keys: set<PortKey>, key: PortKey): Confidence {
    if key.owner.None? then UnknownOwner
    else if exists other ::
              other in keys && EndpointOf(other) == EndpointOf(key) && other.owner != key.owner then Shared
    else Exact
  }

  ghost predicate BalancedAt(ports: Ports, endpoint: Endpoint) {
    forall k | k in ports && EndpointOf(k) == endpoint ::
      ports[k].binding.confidence == ConfidenceOf(ports.Keys, k)
  }

  function Rebalanced(ports: Ports, endpoints: set<Endpoint>): Ports {
    map k | k in ports ::
      if EndpointOf(k) in endpoints then
        ports[k].(binding := ports[k].binding.(confidence := ConfidenceOf(ports.Keys, k)))
      else ports[k]
  }

  function EndpointsOf(keys: set<PortKey>): set<Endpoint> {
    set k | k in keys :: EndpointOf(k)
  }

  lemma RebalancedKeeps(ports: Ports, endpoints: set<Endpoint>)
    requires WellKeyed(ports)
    ensures WellKeyed(Rebalanced(ports, endpoints))
    ensures Rebalanced(ports, endpoints).Keys == ports.Keys
    ensures forall e | e in endpoints || BalancedAt(ports, e) :: BalancedAt(Rebalanced(ports, endpoints), e)
  {
  }

  /** Adding and removing bindings disturbs the balance of no endpoint but their own. */
  lemma BalanceIsLocal(before: Ports, after: Ports, endpoint: Endpoint)
    requires BalancedAt(before, endpoint)
    requires forall k | EndpointOf(k) == endpoint :: k in before <==> k in after
    requires forall k | k in before && k in after && EndpointOf(k) == endpoint :: before[k] == after[k]
    ensures BalancedAt(after, endpoint)
  {
  }

  /** From a balanced table, rebalancing the touched endpoints rebalances the whole table. */
  lemma LocalRebalanceIsGlobal(before: Ports, after: Ports, touched: set<Endpoint>)
    requires forall e :: BalancedAt(before, e)
    requires forall k | EndpointOf(k) !in touched :: k in before <==> k in after
    requires forall k | k in before && k in after && EndpointOf(k) !in touched :: before[k] == after[k]
    ensures Rebalanced(after, touched) == Rebalanced(after, EndpointsOf(after.Keys))
  {
    forall k | k in after
      ensures Rebalanced(after, touched)[k] == Rebalanced(after, EndpointsOf(after.Keys))[k]
    {
      assert EndpointOf(k) in EndpointsOf(after.Keys);
      if EndpointOf(k) !in touched {
        BalanceIsLocal(before, after, EndpointOf(k));
      }
    }
  }

  /** What the scheduler collects about one endpoint before it assigns confidence. */
  datatype Group = Group(owners: set<ProcessKey>, hasUnknownOwner: bool)

  ghost predicate GroupOf(group: Group, keys: set<PortKey>, endpoint: Endpoint) {
    && (forall p :: p in group.owners
                    <==> exists k :: k in keys && EndpointOf(k) == endpoint && k.owner == Some(p))
    && (group.hasUnknownOwner <==> exists k :: k in keys && EndpointOf(k) == endpoint && k.owner.None?)
  }

  lemma GroupDecidesConfidence(keys: set<PortKey>, key: PortKey, group: Group)
    requires key in keys && GroupOf(group, keys, EndpointOf(key))
    ensures ConfidenceOf(keys, key)
            == if key.owner.None? then UnknownOwner
               else if |group.owners| > 1 || group.hasUnknownOwner then Shared
               else Exact
  {
    if key.owner.None? {
      return;
    }
    var owner := key.owner.value;
    assert owner in group.owners;
    if |group.owners| > 1 {
      assert group.owners - {owner} != {} by {
        assert |group.owners - {owner}| == |group.owners| - 1;
      }
      var p :| p in group.owners - {owner};
      var k :| k in keys && EndpointOf(k) == EndpointOf(key) && k.owner == Some(p);
      assert k.owner != key.owner;
    } else if !group.hasUnknownOwner {
      assert |group.owners - {owner}| == |group.owners| - 1 == 0;
      assert group.owners - {owner} == {};
      assert group.owners == {owner};
      forall k | k in keys && EndpointOf(k) == EndpointOf(key) ensures k.owner == key.owner {
        if k.owner.Some? {
          assert k.owner.value in group.owners;
        }
      }
    }
  }

  /** First pass: the owners of each affected endpoint. */
  method GroupEndpoints(keys: set<PortKey>, endpoints: set<Endpoint>) returns (groups: map<Endpoint, Group>)
    ensures groups.Keys == endpoints * EndpointsOf(keys)
    ensures forall e | e in groups :: GroupOf(groups[e], keys, e)
  {
    hide GroupOf;
    groups := map[];
    var todo := keys;
    ghost var done: set<PortKey> := {};
    while todo != {}
      invariant done + todo == keys && done !! todo
      invariant groups.Keys == endpoints * EndpointsOf(done)
      invariant forall e | e in groups :: GroupOf(groups[e], done, e)
      decreases |todo|
    {
      var key :| key in todo;
      var endpoint := EndpointOf(key);
      ghost var seen := done + {key};
      assert EndpointsOf(seen) == EndpointsOf(done) + {endpoint};
      forall e | e in groups && e != endpoint ensures GroupOf(groups[e], seen, e) {
        GroupIgnores(groups[e], done, key, e);
      }
      if endpoint in endpoints {
        var group := if endpoint in groups then groups[endpoint] else Group({}, false);
        if endpoint !in groups {
          NothingGrouped(done, endpoint);
        }
        GroupGrows(group, done, key);
        groups := groups[endpoint := Joined(group, key)];
      }
      todo, done := todo - {key}, seen;
    }
    assert done == keys;
  }

  function Joined(group: Group, key: PortKey): Group {
    if key.owner.Some? then group.(owners := group.owners + {key.owner.value})
    else group.(hasUnknownOwner := true)
  }

  /** Group the keys of the affected endpoints, then assign a confidence to each of them. */
  method RebalancePortConfidence(ports: Ports, endpoints: set<Endpoint>) returns (after: Ports)
    requires WellKeyed(ports)
    ensures after == Rebalanced(ports, endpoints)
  {
    hide GroupOf, ConfidenceOf;
    var groups := GroupEndpoints(ports.Keys, endpoints);
    after := ports;
    var todo := ports.Keys;
    while todo != {}
      invariant todo <= ports.Keys && after.Keys == ports.Keys
      invariant forall k | k in ports ::
                  after[k] == if k in todo then ports[k] else Rebalanced(ports, endpoints)[k]
      decreases |todo|
    {
      var key :| key in todo;
      var endpoint := EndpointOf(key);
      assert endpoint in EndpointsOf(ports.Keys);
      if endpoint in groups {
        var group := groups[endpoint];
        GroupDecidesConfidence(ports.Keys, key, group);
        var confidence :=
          if key.owner.None? then UnknownOwner
          else if |group.owners| > 1 || group.hasUnknownOwner then Shared
          else Exact;
        after := after[key := after[key].(binding := after[key].binding.(confidence := confidence))];
      }
      todo := todo - {key};
    }
    assert after == Rebalanced(ports, endpoints);
  }

  lemma NothingGrouped(keys: set<PortKey>, endpoint: Endpoint)
    requires endpoint !in EndpointsOf(keys)
    ensures GroupOf(Group({}, false), keys, endpoint)
  {
    forall k | k in keys ensures EndpointOf(k) != endpoint {
      assert EndpointOf(k) in EndpointsOf(keys);
    }
  }

  lemma GroupGrows(group: Group, keys: set<PortKey>, key: PortKey)
    requires GroupOf(group, keys, EndpointOf(key))
    ensures GroupOf(Joined(group, key), keys + {key}, EndpointOf(key))
  {
  }

  lemma GroupIgnores(group: Group, keys: set<PortKey>, key: PortKey, endpoint: Endpoint)
    requires GroupOf(group, keys, endpoint) && EndpointOf(key) != endpoint
    ensures GroupOf(group, keys + {key}, endpoint)
  {
  }

  // ----- Per-process results -----

  /** Every result that claims to know a process's bindings lists exactly what the table says. */
  ghost predicate ResultsCoherent(results: PortResults, ports: Ports) {
    forall p | p in results && results[p].value.Known? :: results[p].value.value == Owned(ports, p)
  }

  function Refreshed(results: PortResults, ports: Ports, processes: set<ProcessKey>): PortResults {
    map p | p in results ::
      if p in processes && results[p].value.Known? then results[p].(value := Known(Owned(ports, p)))
      else results[p]
  }

  /** `before` and `after` differ only in bindings owned by `processes` or by nobody known. */
  ghost predicate DifferOnlyFor(before: Ports, after: Ports, processes: set<ProcessKey>) {
    forall k: PortKey | k.owner.Some? && k.owner.value !in processes ::
      (k in before <==> k in after) && (k in before && k in after ==> before[k].binding == after[k].binding)
  }

  /** Refreshing the affected processes makes every result coherent again. */
  lemma RefreshRestores(results: PortResults, before: Ports, after: Ports, processes: set<ProcessKey>)
    requires forall p | p in results && results[p].value.Known? && p !in processes ::
               results[p].value.value == Owned(before, p)
    requires DifferOnlyFor(before, after, processes)
    ensures ResultsCoherent(Refreshed(results, after, processes), after)
  {
    var next := Refreshed(results, after, processes);
    forall p | p in next && next[p].value.Known? ensures next[p].value.value == Owned(after, p) {
      if p !in processes {
        OwnedUnchanged(before, after, p);
      }
    }
  }

  method RefreshKnownProcessPortResults(results: PortResults, ports: Ports, processes: set<ProcessKey>)
    returns (after: PortResults)
    ensures after == Refreshed(results, ports, processes)
  {
    after := results;
    var todo := set p | p in processes && p in results && results[p].value.Known?;
    ghost var known := todo;
    while todo != {}
      invariant todo <= known && after.Keys == results.Keys
      invariant forall p | p in results ::
                  after[p] == if p in todo then results[p]
                              else Refreshed(results, ports, processes)[p]
      decreases |todo|
    {
      var p :| p in todo;
      after := after[p := after[p].(value := Known(Owned(ports, p)))];
      todo := todo - {p};
    }
    assert after == Refreshed(results, ports, processes);
  }

  // ----- The value a process record shows -----

  function Fallback(process: ProcessKey, availability: FieldValue<()>, ports: Ports): FieldValue<seq<PortBinding>> {
    match availability
    case Known(_) => Known(Owned(ports, process))
    case Unknown => Unknown
    case AccessLimited(reason) => AccessLimited(reason)
    case NotSupported => NotSupported
  }

  /** A result that has not expired wins over the table. */
  function ProcessPortValue(
    process: ProcessKey, availability: FieldValue<()>, ports: Ports, results: PortResults, now: nat)
    : FieldValue<seq<PortBinding>>
  {
    if process in results && results[process].expiresAt > now then results[process].value
    else Fallback(process, availability, ports)
  }

  /**
   The value a record shows is the one a full recomputation would give. A result that has expired but
   is not yet swept may or may not have been replaced by the table's answer.
   */
  ghost predicate ShowsPorts(
    shown: FieldValue<seq<PortBinding>>, process: ProcessKey,
    availability: FieldValue<()>, ports: Ports, results: PortResults, now: nat)
  {
    || (process in results && SamePorts(shown, results[process].value))
    || ((process in results ==> results[process].expiresAt <= now)
        && SamePorts(shown, Fallback(process, availability, ports)))
  }

  lemma ComputedIsShown(
    shown: FieldValue<seq<PortBinding>>, process: ProcessKey,
    availability: FieldValue<()>, ports: Ports, results: PortResults, now: nat)
    requires SamePorts(shown, ProcessPortValue(process, availability, ports, results, now))
    ensures ShowsPorts(shown, process, availability, ports, results, now)
  {
  }

  /** Once nothing has expired, what is shown is exactly the recomputed value. */
  lemma ShownIsComputed(
    shown: FieldValue<seq<PortBinding>>, process: ProcessKey,
    availability: FieldValue<()>, ports: Ports, results: PortResults, now: nat)
    requires ShowsPorts(shown, process, availability, ports, results, now)
    requires process in results ==> results[process].expiresAt > now
    ensures SamePorts(shown, ProcessPortValue(process, availability, ports, results, now))
  {
  }

  /** A change that touches neither the process's bindings nor its result leaves its value valid. */
  lemma ShownUnaffected(
    shown: FieldValue<seq<PortBinding>>, process: ProcessKey, availability: FieldValue<()>,
    ports: Ports, results: PortResults, now: nat,
    nextPorts: Ports, nextResults: PortResults, later: nat)
    requires ShowsPorts(shown, process, availability, ports, results, now) && now <= later
    requires process in results <==> process in nextResults
    requires process in results ==> results[process] == nextResults[process]
    requires Owned(ports, process) == Owned(nextPorts, process)
    ensures ShowsPorts(shown, process, availability, nextPorts, nextResults, later)
  {
  }
}
