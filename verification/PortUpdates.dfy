/** The three ways the port table changes: a full scan, one process's bindings, and removal. */
module PortUpdates {
  import opened DiscoveryDomain
  import opened KeyOrder
  import opened PortIndex
  import opened ProcessTable
  import opened FastScan

  // ----- A full scan -----

  /** An unchanged binding keeps the time at which it was first observed. */
  function Scanned(ports: Ports, binding: PortBinding): PortBinding {
    var key := KeyOf(binding);
    if key in ports && SamePort(ports[key].binding, binding) then ports[key].binding else binding
  }

  predicate ValidOwner(binding: PortBinding) {
    binding.owner.Some? ==> ValidInstanceKey(binding.owner.value)
  }

  function KeysOfBindings(bindings: seq<PortBinding>): set<PortKey> {
    set i | 0 <= i < |bindings| :: KeyOf(bindings[i])
  }

  predicate AcceptedBindings(valid: PortBinding -> bool, bindings: seq<PortBinding>) {
    bindings == []
    || (var front, last := bindings[..|bindings| - 1], bindings[|bindings| - 1];
        AcceptedBindings(valid, front) && valid(last) && KeyOf(last) !in KeysOfBindings(front))
  }

  /** Bindings are accepted exactly if every one is valid and no two have the same key. */
  lemma {:induction false} AcceptedBindingsAreDistinct(valid: PortBinding -> bool, bindings: seq<PortBinding>)
    ensures AcceptedBindings(valid, bindings)
            <==> && (forall i | 0 <= i < |bindings| :: valid(bindings[i]))
                 && (forall i, j | 0 <= i < j < |bindings| :: KeyOf(bindings[i]) != KeyOf(bindings[j]))
  {
    if bindings != [] {
      var front := bindings[..|bindings| - 1];
      AcceptedBindingsAreDistinct(valid, front);
      assert forall i | 0 <= i < |front| :: front[i] == bindings[i];
    }
  }

  lemma {:induction false} BindingPrefixesAreAccepted(valid: PortBinding -> bool, bindings: seq<PortBinding>, n: nat)
    requires AcceptedBindings(valid, bindings) && n <= |bindings|
    ensures AcceptedBindings(valid, bindings[..n])
  {
    if n < |bindings| {
      var front := bindings[..|bindings| - 1];
      BindingPrefixesAreAccepted(valid, front, n);
      assert front[..n] == bindings[..n];
    } else {
      assert bindings[..n] == bindings;
    }
  }

  /** The scanned table holds exactly the scanned bindings. */
  ghost predicate ScannedTable(before: Ports, bindings: seq<PortBinding>, expiresAt: nat, next: Ports) {
    && next.Keys == KeysOfBindings(bindings)
    && (forall i | 0 <= i < |bindings| ::
      next[KeyOf(bindings[i])] == PortEntry(Scanned(before, bindings[i]), expiresAt))
  }

  lemma ScannedTableGrows(before: Ports, bindings: seq<PortBinding>, expiresAt: nat, next: Ports, binding: PortBinding)
    requires ScannedTable(before, bindings, expiresAt, next) && KeyOf(binding) !in next
    ensures ScannedTable(
              before, bindings + [binding], expiresAt,
              next[KeyOf(binding) := PortEntry(Scanned(before, binding), expiresAt)])
  {
    var all := bindings + [binding];
    assert KeysOfBindings(all) == KeysOfBindings(bindings) + {KeyOf(binding)} by {
      assert KeyOf(all[|bindings|]) == KeyOf(binding);
      forall k | k in KeysOfBindings(bindings) ensures k in KeysOfBindings(all) {
        var i :| 0 <= i < |bindings| && KeyOf(bindings[i]) == k;
        assert KeyOf(all[i]) == k;
      }
    }
    forall i | 0 <= i < |bindings| ensures KeyOf(all[i]) != KeyOf(binding) && all[i] == bindings[i] {
      assert KeyOf(bindings[i]) in KeysOfBindings(bindings);
    }
  }

  lemma ScannedTableIsKeyed(before: Ports, bindings: seq<PortBinding>, expiresAt: nat, next: Ports)
    requires ScannedTable(before, bindings, expiresAt, next) && WellKeyed(before)
    ensures WellKeyed(next)
  {
  }

  /** A scan with an invalid owner or a repeated binding changes nothing. */
  method CollectPortScan(valid: PortBinding -> bool, ports: Ports, bindings: seq<PortBinding>, expiresAt: nat)
    returns (next: Result<Ports>, upserted: seq<PortBinding>)
    requires WellKeyed(ports)
    ensures next.Ok? <==> AcceptedBindings(valid, bindings)
    ensures next.Ok? ==>
              ScannedTable(ports, bindings, expiresAt, next.value) && PortChanges(ports, next.value, upserted)
    ensures next.Err? ==> next.error == PlatformError
  {
    hide SamePort, ScannedTable, PortChanges;
    var found: Ports := map[];
    upserted := [];
    NothingScanned(ports, expiresAt);
    for i := 0 to |bindings|
      invariant ScannedTable(ports, bindings[..i], expiresAt, found) && PortChanges(ports, found, upserted)
      invariant AcceptedBindings(valid, bindings[..i])
    {
      var binding := bindings[i];
      var key := KeyOf(binding);
      assert bindings[..i + 1] == bindings[..i] + [binding];
      ScannedKeys(ports, bindings[..i], expiresAt, found);
      if !valid(binding) || key in found {
        if AcceptedBindings(valid, bindings) {
          BindingPrefixesAreAccepted(valid, bindings, i + 1);
        }
        return Err(PlatformError), [];
      }
      ScannedTableGrows(ports, bindings[..i], expiresAt, found, binding);
      if key in ports && SamePort(ports[key].binding, binding) {
        PortStays(ports, found, upserted, key, expiresAt);
        found := found[key := PortEntry(ports[key].binding, expiresAt)];
      } else {
        PortChangesGrow(ports, found, upserted, binding, expiresAt);
        found := found[key := PortEntry(binding, expiresAt)];
        upserted := upserted + [binding];
      }
    }
    assert bindings[..|bindings|] == bindings;
    next := Ok(found);
  }

  lemma NothingScanned(before: Ports, expiresAt: nat)
    ensures ScannedTable(before, [], expiresAt, map[]) && PortChanges(before, map[], [])
  {
  }

  lemma ScannedKeys(before: Ports, bindings: seq<PortBinding>, expiresAt: nat, next: Ports)
    requires ScannedTable(before, bindings, expiresAt, next)
    ensures next.Keys == KeysOfBindings(bindings)
  {
  }

  lemma PortStays(before: Ports, next: Ports, upserted: seq<PortBinding>, key: PortKey, expiresAt: nat)
    requires PortChanges(before, next, upserted) && key in before && key !in next
    ensures PortChanges(before, next[key := PortEntry(before[key].binding, expiresAt)], upserted)
  {
  }

  lemma PortChangesGrow(before: Ports, next: Ports, upserted: seq<PortBinding>, binding: PortBinding, expiresAt: nat)
    requires PortChanges(before, next, upserted) && KeyOf(binding) !in next
    requires KeyOf(binding) in before ==> !SamePort(before[KeyOf(binding)].binding, binding)
    ensures PortChanges(before, next[KeyOf(binding) := PortEntry(binding, expiresAt)], upserted + [binding])
  {
  }

  // ----- Local changes -----

  ghost predicate Balanced(ports: Ports) {
    forall e :: BalancedAt(ports, e)
  }

  /** Only bindings at these endpoints differ. */
  ghost predicate TouchesOnly(before: Ports, changed: Ports, endpoints: set<Endpoint>) {
    forall k | EndpointOf(k) !in endpoints ::
      (k in before <==> k in changed) && (k in before && k in changed ==> before[k] == changed[k])
  }

  function OwnersAt(ports: Ports, endpoints: set<Endpoint>): set<ProcessKey> {
    set k | k in ports && EndpointOf(k) in endpoints && k.owner.Some? :: k.owner.value
  }

  function WithoutOwners(ports: Ports, owners: set<ProcessKey>): Ports {
    map k | k in ports && !(k.owner.Some? && k.owner.value in owners) :: ports[k]
  }

  function EndpointsOwnedBy(ports: Ports, owners: set<ProcessKey>): set<Endpoint> {
    set k | k in ports && k.owner.Some? && k.owner.value in owners :: EndpointOf(k)
  }

  lemma WithoutOwnersTouches(ports: Ports, owners: set<ProcessKey>)
    ensures TouchesOnly(ports, WithoutOwners(ports, owners), EndpointsOwnedBy(ports, owners))
  {
  }

  /** What a client is told about a change at some endpoints. */
  function BindingsAt(ports: Ports, endpoints: set<Endpoint>): map<PortKey, PortBinding> {
    map k | k in ports && EndpointOf(k) in endpoints :: ports[k].binding
  }

  function KeysGone(before: set<PortKey>, after: set<PortKey>): (r: seq<PortKey>)
    ensures forall k :: k in r <==> k in before && k !in after
  {
    SortedPorts(before - after)
  }

  ghost predicate DiffSoFar(
    before: map<PortKey, PortBinding>, after: map<PortKey, PortBinding>, todo: set<PortKey>, upserted: seq<PortBinding>)
  {
    && (forall b | b in upserted ::
          && KeyOf(b) in after && KeyOf(b) !in todo && after[KeyOf(b)] == b
          && (KeyOf(b) in before ==> !SamePort(before[KeyOf(b)], b)))
    && (forall i, j | 0 <= i < j < |upserted| :: KeyOf(upserted[i]) != KeyOf(upserted[j]))
    && (forall k | k in after && k !in todo && (k !in before || !SamePort(before[k], after[k])) :: after[k] in upserted)
  }

  lemma NoDiffYet(before: map<PortKey, PortBinding>, after: map<PortKey, PortBinding>)
    ensures DiffSoFar(before, after, after.Keys, [])
  {
  }

  lemma DiffGoesOn(
    before: map<PortKey, PortBinding>, after: map<PortKey, PortBinding>, todo: set<PortKey>, upserted: seq<PortBinding>,
    key: PortKey)
    requires DiffSoFar(before, after, todo, upserted) && key in todo && key in after && KeyOf(after[key]) == key
    ensures if key !in before || !SamePort(before[key], after[key])
            then DiffSoFar(before, after, todo - {key}, upserted + [after[key]])
            else DiffSoFar(before, after, todo - {key}, upserted)
  {
    hide SamePort;
  }

  method PortCacheDiff(before: map<PortKey, PortBinding>, after: map<PortKey, PortBinding>)
    returns (upserted: seq<PortBinding>, removed: seq<PortKey>)
    requires forall k | k in after :: KeyOf(after[k]) == k
    ensures DiffSoFar(before, after, {}, upserted)
    ensures forall k :: k in removed <==> k in before && k !in after
  {
    hide DiffSoFar, SamePort;
    removed := KeysGone(before.Keys, after.Keys);
    upserted := [];
    var todo := after.Keys;
    NoDiffYet(before, after);
    while todo != {}
      invariant todo <= after.Keys && DiffSoFar(before, after, todo, upserted)
      decreases |todo|
    {
      var k :| k in todo;
      DiffGoesOn(before, after, todo, upserted, k);
      if k !in before || !SamePort(before[k], after[k]) {
        upserted := upserted + [after[k]];
      }
      todo := todo - {k};
    }
  }

  /** Differences at the touched endpoints are all the differences there are. */
  lemma LocalDiffIsGlobal(
    before: Ports, after: Ports, endpoints: set<Endpoint>, upserted: seq<PortBinding>, removed: seq<PortKey>)
    requires TouchesOnly(before, after, endpoints)
    requires DiffSoFar(BindingsAt(before, endpoints), BindingsAt(after, endpoints), {}, upserted)
    requires forall k :: k in removed <==> k in BindingsAt(before, endpoints) && k !in BindingsAt(after, endpoints)
    ensures PortChanges(before, after, upserted)
    ensures forall k :: k in removed <==> k in before && k !in after
  {
  }

  /** Bindings of other processes keep their owner's view. */
  lemma SettledDiffersOnlyFor(before: Ports, changed: Ports, endpoints: set<Endpoint>)
    requires TouchesOnly(before, changed, endpoints)
    ensures var after := Rebalanced(changed, endpoints);
            && TouchesOnly(before, after, endpoints)
            && DifferOnlyFor(before, after, OwnersAt(before, endpoints) + OwnersAt(after, endpoints))
  {
  }

  lemma SettledIsBalanced(before: Ports, changed: Ports, endpoints: set<Endpoint>)
    requires WellKeyed(changed) && TouchesOnly(before, changed, endpoints)
    ensures WellKeyed(Rebalanced(changed, endpoints))
    ensures Balanced(before) ==> Balanced(Rebalanced(changed, endpoints))
  {
    RebalancedKeeps(changed, endpoints);
    if Balanced(before) {
      forall e ensures BalancedAt(Rebalanced(changed, endpoints), e) {
        if e !in endpoints {
          BalanceIsLocal(before, changed, e);
        }
      }
    }
  }

  datatype Settlement = Settlement(
    ports: Ports, results: PortResults, affected: set<ProcessKey>,
    upserted: seq<PortBinding>, removed: seq<PortKey>)

  /**
   After a local change: the confidence of the touched endpoints is rebalanced, the results of the
   affected processes are refreshed, and the differences are collected.
   */
  ghost predicate SettledFrom(
    before: Ports, changed: Ports, endpoints: set<Endpoint>, results: PortResults,
    extra: set<ProcessKey>, gone: set<ProcessKey>, s: Settlement)
  {
    && s.ports == Rebalanced(changed, endpoints)
    && s.affected == extra + (OwnersAt(before, endpoints) + OwnersAt(s.ports, endpoints) - gone)
    && s.results == Refreshed(results, s.ports, s.affected)
    && PortChanges(before, s.ports, s.upserted)
    && (forall k :: k in s.removed <==> k in before && k !in s.ports)
  }

  method Settle(
    before: Ports, changed: Ports, endpoints: set<Endpoint>, results: PortResults,
    extra: set<ProcessKey>, gone: set<ProcessKey>)
    returns (s: Settlement)
    requires WellKeyed(changed) && TouchesOnly(before, changed, endpoints)
    ensures SettledFrom(before, changed, endpoints, results, extra, gone, s)
  {
    var ports := RebalancePortConfidence(changed, endpoints);
    SettledIsBalanced(before, changed, endpoints);
    SettledDiffersOnlyFor(before, changed, endpoints);
    var affected := extra + (OwnersAt(before, endpoints) + OwnersAt(ports, endpoints) - gone);
    var refreshed := RefreshKnownProcessPortResults(results, ports, affected);
    var upserted, removed := PortCacheDiff(BindingsAt(before, endpoints), BindingsAt(ports, endpoints));
    LocalDiffIsGlobal(before, ports, endpoints, upserted, removed);
    s := Settlement(ports, refreshed, affected, upserted, removed);
  }

  /** A settlement is coherent, balanced if the table was, and leaves every other process alone. */
  lemma SettlementIsCoherent(
    before: Ports, changed: Ports, endpoints: set<Endpoint>, results: PortResults,
    extra: set<ProcessKey>, gone: set<ProcessKey>, s: Settlement)
    requires WellKeyed(changed) && TouchesOnly(before, changed, endpoints)
    requires forall p | p in results && results[p].value.Known? && p !in extra ::
               results[p].value.value == Owned(before, p)
    requires results.Keys !! gone
    requires SettledFrom(before, changed, endpoints, results, extra, gone, s)
    ensures WellKeyed(s.ports) && ResultsCoherent(s.results, s.ports) && s.results.Keys == results.Keys
    ensures Balanced(before) ==> Balanced(s.ports)
    ensures forall p | p !in s.affected && p !in gone ::
              && Owned(before, p) == Owned(s.ports, p)
              && (p in results ==> s.results[p] == results[p])
  {
    SettledIsBalanced(before, changed, endpoints);
    SettledDiffersOnlyFor(before, changed, endpoints);
    var wide := s.affected + gone;
    RefreshRestores(results, before, s.ports, wide);
    assert Refreshed(results, s.ports, wide) == s.results;
    forall p | p !in s.affected && p !in gone ensures Owned(before, p) == Owned(s.ports, p) {
      OwnedUnchanged(before, s.ports, p);
    }
  }

  // ----- The bindings one process reports -----

  function Claimed(ports: Ports, bindings: seq<PortBinding>, expiresAt: nat): Ports {
    if bindings == [] then ports
    else
      var last := bindings[|bindings| - 1];
      Claimed(ports, bindings[..|bindings| - 1], expiresAt)[
        KeyOf(last) := PortEntry(last.(confidence := Exact), expiresAt)]
  }

  function EndpointsOfBindings(bindings: seq<PortBinding>): set<Endpoint> {
    EndpointsOf(KeysOfBindings(bindings))
  }

  lemma {:induction false} ClaimedKeys(ports: Ports, bindings: seq<PortBinding>, expiresAt: nat)
    ensures Claimed(ports, bindings, expiresAt).Keys == ports.Keys + KeysOfBindings(bindings)
    ensures forall k | k in ports && k !in KeysOfBindings(bindings) ::
            Claimed(ports, bindings, expiresAt)[k] == ports[k]
    ensures WellKeyed(ports) ==> WellKeyed(Claimed(ports, bindings, expiresAt))
  {
    if bindings != [] {
      var front, last := bindings[..|bindings| - 1], bindings[|bindings| - 1];
      ClaimedKeys(ports, front, expiresAt);
      LastKey(bindings);
    }
  }

  lemma LastKey(bindings: seq<PortBinding>)
    requires bindings != []
    ensures KeysOfBindings(bindings)
            == KeysOfBindings(bindings[..|bindings| - 1]) + {KeyOf(bindings[|bindings| - 1])}
  {
    var front, last := bindings[..|bindings| - 1], bindings[|bindings| - 1];
    assert KeyOf(bindings[|front|]) == KeyOf(last);
    forall k | k in KeysOfBindings(front) ensures k in KeysOfBindings(bindings) {
      var i :| 0 <= i < |front| && KeyOf(front[i]) == k;
      assert KeyOf(bindings[i]) == k;
    }
  }

  /** A process's bindings are exactly the ones it last reported. */
  lemma ClaimReplacesOwned(ports: Ports, owner: ProcessKey, bindings: seq<PortBinding>, expiresAt: nat)
    requires forall i | 0 <= i < |bindings| :: bindings[i].owner == Some(owner)
    ensures var changed := Claimed(WithoutOwners(ports, {owner}), bindings, expiresAt);
            && OwnedKeys(changed, owner) == KeysOfBindings(bindings)
            && (forall k: PortKey | k.owner != Some(owner) :: k in changed <==> k in ports)
            && TouchesOnly(ports, changed, EndpointsOwnedBy(ports, {owner}) + EndpointsOfBindings(bindings))
            && (WellKeyed(ports) ==> WellKeyed(changed))
  {
    var kept := WithoutOwners(ports, {owner});
    ClaimedKeys(kept, bindings, expiresAt);
    WithoutOwnersTouches(ports, {owner});
    var changed := Claimed(kept, bindings, expiresAt);
    var endpoints := EndpointsOwnedBy(ports, {owner}) + EndpointsOfBindings(bindings);
    forall k | EndpointOf(k) !in endpoints
      ensures (k in ports <==> k in changed) && (k in ports && k in changed ==> ports[k] == changed[k])
    {
      assert k !in KeysOfBindings(bindings);
    }
  }

  method ClaimBindings(ports: Ports, bindings: seq<PortBinding>, expiresAt: nat) returns (claimed: Ports)
    ensures claimed == Claimed(ports, bindings, expiresAt)
  {
    claimed := ports;
    for i := 0 to |bindings|
      invariant claimed == Claimed(ports, bindings[..i], expiresAt)
    {
      claimed := claimed[KeyOf(bindings[i]) := PortEntry(bindings[i].(confidence := Exact), expiresAt)];
      assert bindings[..i + 1][..i] == bindings[..i];
    }
    assert bindings[..|bindings|] == bindings;
  }

  predicate OwnedBy(owner: ProcessKey, binding: PortBinding) {
    binding.owner == Some(owner)
  }

  function Owner(owner: ProcessKey): PortBinding -> bool {
    (binding: PortBinding) => OwnedBy(owner, binding)
  }

  /** Reported bindings are the process's own, each reported once, and fit the cache. */
  /** The first binding that is owned by somebody else, or repeats another. */
  predicate FirstFault(owner: ProcessKey, bindings: seq<PortBinding>, i: nat) {
    && i < |bindings| && AcceptedBindings(Owner(owner), bindings[..i])
    && !AcceptedBindings(Owner(owner), bindings[..i + 1])
  }

  /** Too many bindings and a repeated one are the platform's fault, somebody else's a mismatch. */
  ghost predicate PortsRefused(owner: ProcessKey, bindings: seq<PortBinding>, capacity: nat, error: ErrorCode) {
    if |bindings| > capacity then error == PlatformError
    else exists i: nat ::
           FirstFault(owner, bindings, i)
           && error == if OwnedBy(owner, bindings[i]) then PlatformError else IdentityMismatch
  }

  method ValidateEnrichmentPorts(owner: ProcessKey, bindings: seq<PortBinding>, capacity: nat)
    returns (error: Option<ErrorCode>)
    ensures error.None? <==> |bindings| <= capacity && AcceptedBindings(Owner(owner), bindings)
    ensures error.Some? ==> PortsRefused(owner, bindings, capacity, error.value)
  {
    if |bindings| > capacity {
      return Some(PlatformError);
    }
    var seen: set<PortKey> := {};
    for i := 0 to |bindings|
      invariant AcceptedBindings(Owner(owner), bindings[..i]) && seen == KeysOfBindings(bindings[..i])
    {
      var key := KeyOf(bindings[i]);
      assert bindings[..i + 1][..i] == bindings[..i];
      if !OwnedBy(owner, bindings[i]) || key in seen {
        if AcceptedBindings(Owner(owner), bindings) {
          BindingPrefixesAreAccepted(Owner(owner), bindings, i + 1);
        }
        assert FirstFault(owner, bindings, i);
        return Some(if !OwnedBy(owner, bindings[i]) then IdentityMismatch else PlatformError);
      }
      ClaimedKeys(map[], bindings[..i + 1], 0);
      ClaimedKeys(map[], bindings[..i], 0);
      seen := seen + {key};
      assert seen == KeysOfBindings(bindings[..i + 1]);
    }
    assert bindings[..|bindings|] == bindings;
    error := None;
  }

  lemma {:induction false} AcceptedAreOwned(owner: ProcessKey, bindings: seq<PortBinding>)
    requires AcceptedBindings(Owner(owner), bindings)
    ensures forall i | 0 <= i < |bindings| :: bindings[i].owner == Some(owner)
  {
    if bindings != [] {
      AcceptedAreOwned(owner, bindings[..|bindings| - 1]);
      forall i | 0 <= i < |bindings| ensures bindings[i].owner == Some(owner) {
        if i < |bindings| - 1 {
          assert bindings[i] == bindings[..|bindings| - 1][i];
        } else {
          assert Owner(owner)(bindings[i]);
        }
      }
    }
  }
}
