/** The total orders by which the scheduler sorts keys, and sorting of finite key sets. */
module KeyOrder {
  import opened DiscoveryDomain

  ghost predicate StrictTotalOrder<T(!new)>(less: (T, T) -> bool) {
    && (forall x :: !less(x, x))
    && (forall x, y :: x != y ==> less(x, y) || less(y, x))
    && (forall x, y, z :: less(x, y) && less(y, z) ==> less(x, z))
  }

  ghost predicate SortedBy<T(!new)>(less: (T, T) -> bool, xs: seq<T>) {
    forall i, j | 0 <= i < j < |xs| :: less(xs[i], xs[j])
  }

  predicate StringLess(a: string, b: string) {
    |b| > 0 && (|a| == 0 || a[0] < b[0] || (a[0] == b[0] && StringLess(a[1..], b[1..])))
  }

  lemma {:induction false} StringTrichotomy(a: string, b: string)
    ensures !StringLess(a, a)
    ensures a != b ==> StringLess(a, b) || StringLess(b, a)
  {
    if |a| > 0 {
      if |b| > 0 {
        StringTrichotomy(a[1..], b[1..]);
        assert a == [a[0]] + a[1..] && b == [b[0]] + b[1..];
      } else {
        StringTrichotomy(a[1..], b);
      }
    }
  }

  lemma {:induction false} StringTransitive(a: string, b: string, c: string)
    requires StringLess(a, b) && StringLess(b, c)
    ensures StringLess(a, c)
  {
    if |a| > 0 && a[0] == b[0] == c[0] {
      StringTransitive(a[1..], b[1..], c[1..]);
    }
  }

  predicate ProcessLess(a: ProcessKey, b: ProcessKey) {
    || StringLess(a.bootId, b.bootId)
    || (a.bootId == b.bootId
        && (a.pid < b.pid
            || (a.pid == b.pid && StringLess(a.nativeStartTime, b.nativeStartTime))))
  }

  lemma ProcessTrichotomy(x: ProcessKey, y: ProcessKey)
    ensures !ProcessLess(x, x)
    ensures x != y ==> ProcessLess(x, y) || ProcessLess(y, x)
  {
    StringTrichotomy(x.bootId, x.bootId);
    StringTrichotomy(x.nativeStartTime, x.nativeStartTime);
    StringTrichotomy(x.bootId, y.bootId);
    StringTrichotomy(x.nativeStartTime, y.nativeStartTime);
  }

  lemma ProcessTransitive(x: ProcessKey, y: ProcessKey, z: ProcessKey)
    requires ProcessLess(x, y) && ProcessLess(y, z)
    ensures ProcessLess(x, z)
  {
    if StringLess(x.bootId, y.bootId) && StringLess(y.bootId, z.bootId) {
      StringTransitive(x.bootId, y.bootId, z.bootId);
    }
    if StringLess(x.nativeStartTime, y.nativeStartTime)
       && StringLess(y.nativeStartTime, z.nativeStartTime) {
      StringTransitive(x.nativeStartTime, y.nativeStartTime, z.nativeStartTime);
    }
  }

  lemma ProcessOrder()
    ensures StrictTotalOrder(ProcessLess)
  {
    forall x: ProcessKey, y: ProcessKey {
      ProcessTrichotomy(x, y);
    }
    forall x: ProcessKey, y: ProcessKey, z: ProcessKey | ProcessLess(x, y) && ProcessLess(y, z)
      ensures ProcessLess(x, z)
    {
      ProcessTransitive(x, y, z);
    }
  }

  predicate OwnerLess(a: Option<ProcessKey>, b: Option<ProcessKey>) {
    b.Some? && (a.None? || ProcessLess(a.value, b.value))
  }

  function ProtocolRank(p: PortProtocol): nat { if p.Tcp? then 0 else 1 }

  function FamilyRank(f: AddressFamily): nat { if f.Ipv4? then 0 else 1 }

  predicate PortLess(a: PortKey, b: PortKey) {
    || ProtocolRank(a.protocol) < ProtocolRank(b.protocol)
    || (a.protocol == b.protocol
        && (|| FamilyRank(a.family) < FamilyRank(b.family)
            || (a.family == b.family
                && (|| StringLess(a.address, b.address)
                    || (a.address == b.address
                        && (a.port < b.port
                            || (a.port == b.port && OwnerLess(a.owner, b.owner))))))))
  }

  lemma OwnerTrichotomy(x: Option<ProcessKey>, y: Option<ProcessKey>)
    ensures !OwnerLess(x, x)
    ensures x != y ==> OwnerLess(x, y) || OwnerLess(y, x)
  {
    if x.Some? && y.Some? {
      ProcessTrichotomy(x.value, y.value);
    } else if x.Some? {
      ProcessTrichotomy(x.value, x.value);
    }
  }

  lemma OwnerTransitive(x: Option<ProcessKey>, y: Option<ProcessKey>, z: Option<ProcessKey>)
    requires OwnerLess(x, y) && OwnerLess(y, z)
    ensures OwnerLess(x, z)
  {
    if x.Some? {
      ProcessTransitive(x.value, y.value, z.value);
    }
  }

  lemma PortTrichotomy(x: PortKey, y: PortKey)
    ensures !PortLess(x, x)
    ensures x != y ==> PortLess(x, y) || PortLess(y, x)
  {
    StringTrichotomy(x.address, x.address);
    StringTrichotomy(x.address, y.address);
    OwnerTrichotomy(x.owner, y.owner);
  }

  lemma PortTransitive(x: PortKey, y: PortKey, z: PortKey)
    requires PortLess(x, y) && PortLess(y, z)
    ensures PortLess(x, z)
  {
    if StringLess(x.address, y.address) && StringLess(y.address, z.address) {
      StringTransitive(x.address, y.address, z.address);
    }
    if OwnerLess(x.owner, y.owner) && OwnerLess(y.owner, z.owner) {
      OwnerTransitive(x.owner, y.owner, z.owner);
    }
  }

  lemma PortOrder()
    ensures StrictTotalOrder(PortLess)
  {
    forall x: PortKey, y: PortKey {
      PortTrichotomy(x, y);
    }
    forall x: PortKey, y: PortKey, z: PortKey | PortLess(x, y) && PortLess(y, z)
      ensures PortLess(x, z)
    {
      PortTransitive(x, y, z);
    }
  }

  predicate IsLeast<T(!new, ==)>(less: (T, T) -> bool, s: set<T>, m: T) {
    m in s && forall x | x in s && x != m :: less(m, x)
  }

  lemma {:induction false} LeastExists<T(!new)>(less: (T, T) -> bool, s: set<T>) returns (m: T)
    requires StrictTotalOrder(less) && s != {}
    ensures IsLeast(less, s, m)
  {
    var y :| y in s;
    if s == {y} {
      m := y;
    } else {
      var n := LeastExists(less, s - {y});
      m := if less(n, y) then n else y;
      forall x | x in s && x != m ensures less(m, x) {
        assert x == y || x == n || less(n, x);
      }
    }
  }

  /** The elements of `s` in ascending order: what collecting and sorting a hash set yields. */
  function Sorted<T(!new, ==)>(less: (T, T) -> bool, s: set<T>): (r: seq<T>)
    requires StrictTotalOrder(less)
    ensures SortedBy(less, r)
    ensures forall x :: x in r <==> x in s
    ensures |r| == |s|
    decreases s
  {
    if s == {} then []
    else
      assert exists m :: IsLeast(less, s, m) by { var m := LeastExists(less, s); }
      var m :| IsLeast(less, s, m);
      var rest := Sorted(less, s - {m});
      [m] + rest
  }

  lemma SortedIsDistinct<T(!new)>(less: (T, T) -> bool, xs: seq<T>)
    requires StrictTotalOrder(less) && SortedBy(less, xs)
    ensures forall i, j | 0 <= i < |xs| && 0 <= j < |xs| && i != j :: xs[i] != xs[j]
  {
  }

  /** `keys` lists each element of `s` exactly once. */
  ghost predicate Enumerates<K(!new)>(keys: seq<K>, s: set<K>) {
    && (forall k :: k in keys <==> k in s)
    && (forall i, j | 0 <= i < |keys| && 0 <= j < |keys| && i != j :: keys[i] != keys[j])
  }

  function SortedProcesses(s: set<ProcessKey>): (r: seq<ProcessKey>)
    ensures Enumerates(r, s)
    ensures |r| == |s|
  {
    ProcessOrder();
    SortedIsDistinct(ProcessLess, Sorted(ProcessLess, s));
    Sorted(ProcessLess, s)
  }

  function SortedPorts(s: set<PortKey>): (r: seq<PortKey>)
    ensures Enumerates(r, s)
    ensures |r| == |s|
  {
    PortOrder();
    SortedIsDistinct(PortLess, Sorted(PortLess, s));
    Sorted(PortLess, s)
  }

  lemma SortedAscending(processes: set<ProcessKey>, ports: set<PortKey>)
    ensures SortedBy(ProcessLess, SortedProcesses(processes))
    ensures SortedBy(PortLess, SortedPorts(ports))
  {
  }
}
