/** The pattern index: nodes and singly linked edge lists in two growing vectors. */
module Trie {
  import opened DiscoveryDomain
  import opened Utf8
  import opened Greedy

  datatype Node = Node(firstEdge: Option<nat>, terminal: bool)

  datatype Edge = Edge(value: byte, child: nat, next: Option<nat>)

  /** Following `next` from `from` reaches edge `i`; links only point to older edges. */
  ghost predicate InChain(edges: seq<Edge>, from: Option<nat>, i: nat)
    decreases if from.Some? then from.value + 1 else 0
  {
    && from.Some? && from.value < |edges|
    && (|| from.value == i
        || (var next := edges[from.value].next;
            next.Some? && next.value < from.value && InChain(edges, next, i)))
  }

  ghost predicate Descending(edges: seq<Edge>) {
    forall i | 0 <= i < |edges| :: edges[i].next.Some? ==> edges[i].next.value < i
  }

  lemma {:induction false} ChainGrows(edges: seq<Edge>, edge: Edge, from: Option<nat>, i: nat)
    requires InChain(edges, from, i)
    ensures InChain(edges + [edge], from, i)
    decreases if from.Some? then from.value + 1 else 0
  {
    if from.value != i {
      ChainGrows(edges, edge, edges[from.value].next, i);
    }
  }

  /** The n-th edge leads to node n + 1, whose path is one byte longer than its owner's. */
  ghost predicate IsShaped(nodes: seq<Node>, edges: seq<Edge>, paths: seq<Bytes>, owners: seq<nat>) {
    && |nodes| == |paths| == |edges| + 1 && |owners| == |edges|
    && paths[0] == []
    && Descending(edges)
    && (forall i | 0 <= i < |edges| ::
          && edges[i].child == i + 1 && owners[i] <= i
          && paths[i + 1] == paths[owners[i]] + [edges[i].value])
  }

  /** Every edge is on its owner's list, and lists hold only their owner's edges. */
  ghost predicate IsLinked(nodes: seq<Node>, edges: seq<Edge>, owners: seq<nat>)
    requires |owners| == |edges| && |nodes| == |edges| + 1 && forall i | 0 <= i < |edges| :: owners[i] <= i
  {
    && (forall n | 0 <= n < |nodes| ::
          nodes[n].firstEdge.Some? ==> nodes[n].firstEdge.value < |edges| && owners[nodes[n].firstEdge.value] == n)
    && (forall i | 0 <= i < |edges| ::
          edges[i].next.Some? ==> edges[i].next.value < i && owners[edges[i].next.value] == owners[i])
    && (forall i | 0 <= i < |edges| :: InChain(edges, nodes[owners[i]].firstEdge, i))
  }

  /** The nodes with one more, whose edge heads the list of `node`. */
  function WithChild(nodes: seq<Node>, node: nat, edge: nat): seq<Node>
    requires node < |nodes|
  {
    (nodes + [Node(None, false)])[node := nodes[node].(firstEdge := Some(edge))]
  }

  /** What a node is marked with plays no part in the lists. */
  lemma MarkKeepsLinks(nodes: seq<Node>, edges: seq<Edge>, paths: seq<Bytes>, owners: seq<nat>, node: nat)
    requires IsShaped(nodes, edges, paths, owners) && IsLinked(nodes, edges, owners) && node < |nodes|
    ensures var marked := nodes[node := nodes[node].(terminal := true)];
            IsShaped(marked, edges, paths, owners) && IsLinked(marked, edges, owners)
  {
    hide InChain;
  }

  lemma ShapeGrows(
    nodes: seq<Node>, edges: seq<Edge>, paths: seq<Bytes>, owners: seq<nat>, node: nat, value: byte)
    requires IsShaped(nodes, edges, paths, owners) && node < |nodes| && IsLinked(nodes, edges, owners)
    ensures IsShaped(
              WithChild(nodes, node, |edges|), edges + [Edge(value, |nodes|, nodes[node].firstEdge)],
              paths + [paths[node] + [value]], owners + [node])
  {
  }

  lemma LinksGrow(nodes: seq<Node>, edges: seq<Edge>, owners: seq<nat>, node: nat, value: byte)
    requires |owners| == |edges| && |nodes| == |edges| + 1 && forall i | 0 <= i < |edges| :: owners[i] <= i
    requires IsLinked(nodes, edges, owners) && node < |nodes|
    ensures IsLinked(
              WithChild(nodes, node, |edges|), edges + [Edge(value, |nodes|, nodes[node].firstEdge)], owners + [node])
  {
    hide InChain;
    var last := Edge(value, |nodes|, nodes[node].firstEdge);
    var now, heads := edges + [last], WithChild(nodes, node, |edges|);
    forall i | 0 <= i < |now| ensures InChain(now, heads[(owners + [node])[i]].firstEdge, i) {
      if i < |edges| {
        ChainGrows(edges, last, nodes[owners[i]].firstEdge, i);
        ChainStarts(now, |edges|, i);
      } else {
        ChainStarts(now, |edges|, i);
      }
    }
  }

  /** A list that starts at an edge holds that edge and what its link reaches. */
  lemma ChainStarts(edges: seq<Edge>, head: nat, i: nat)
    requires head < |edges|
    ensures head == i ==> InChain(edges, Some(head), i)
    ensures var next := edges[head].next;
            next.Some? && next.value < head && InChain(edges, next, i) ==> InChain(edges, Some(head), i)
  {
  }

  lemma LastIsUnique(a: Bytes, x: byte, b: Bytes, y: byte)
    requires a + [x] == b + [y]
    ensures a == b && x == y
  {
    assert |a + [x]| == |b + [y]|;
    assert (a + [x])[..|a|] == a && (b + [y])[..|b|] == b;
    assert (a + [x])[|a|] == x && (b + [y])[|b|] == y;
  }

  class Trie {
    var nodes: seq<Node>
    var edges: seq<Edge>
    var maxPatternBytes: nat
    /** The bytes that lead to each node, and the node each edge belongs to. */
    ghost var paths: seq<Bytes>
    ghost var owners: seq<nat>
    ghost var patterns: set<Bytes>

    ghost predicate Shaped()
      reads this`nodes, this`edges, this`paths, this`owners
    {
      IsShaped(nodes, edges, paths, owners)
    }

    ghost predicate Linked()
      requires Shaped()
      reads this`nodes, this`edges, this`paths, this`owners
    {
      IsLinked(nodes, edges, owners)
    }

    /** One node per path; the terminal ones are the patterns. */
    ghost predicate Indexed()
      reads this`nodes, this`edges, this`paths, this`owners, this`patterns
    {
      && Shaped() && Linked()
      && (forall i, j | 0 <= i < j < |paths| :: paths[i] != paths[j])
      && (forall n | 0 <= n < |nodes| :: nodes[n].terminal <==> paths[n] in patterns)
      && (forall p | p in patterns :: p != [] && p in paths)
    }

    ghost predicate Valid()
      reads this
    {
      Indexed() && BoundedBy(patterns, maxPatternBytes)
    }

    constructor ()
      ensures Valid() && patterns == {} && maxPatternBytes == 0
    {
      nodes, edges, maxPatternBytes := [Node(None, false)], [], 0;
      paths, owners, patterns := [[]], [], {};
    }

    /** The node one byte further, if there is one. */
    method Child(node: nat, value: byte) returns (child: Option<nat>)
      requires Shaped() && Linked() && node < |nodes|
      ensures child.Some? ==> 0 < child.value < |nodes| && paths[child.value] == paths[node] + [value]
                              && owners[child.value - 1] == node
      ensures child.None? ==> forall i | 0 <= i < |edges| && owners[i] == node :: edges[i].value != value
    {
      var edge: Option<nat> := nodes[node].firstEdge;
      while edge.Some?
        invariant edge.Some? ==> edge.value < |edges| && owners[edge.value] == node
        invariant forall i | 0 <= i < |edges| && owners[i] == node :: edges[i].value != value || InChain(edges, edge, i)
        decreases if edge.Some? then edge.value + 1 else 0
      {
        var candidate := edges[edge.value];
        if candidate.value == value {
          return Some(candidate.child);
        }
        edge := candidate.next;
      }
      child := None;
    }

    /** A new node under `node`, its edge at the head of the list. */
    method AddChild(node: nat, value: byte) returns (child: nat)
      requires Shaped() && Linked() && node < |nodes|
      modifies this`nodes, this`edges, this`paths, this`owners
      ensures Shaped() && Linked()
      ensures child == |old(nodes)| && |nodes| == |old(nodes)| + 1
      ensures paths == old(paths) + [old(paths)[node] + [value]]
      ensures forall n | 0 <= n < |old(nodes)| :: nodes[n].terminal == old(nodes)[n].terminal
      ensures !nodes[child].terminal
    {
      hide InChain;
      ShapeGrows(nodes, edges, paths, owners, node, value);
      LinksGrow(nodes, edges, owners, node, value);
      child := |nodes|;
      var edge := |edges|;
      nodes := nodes + [Node(None, false)];
      edges := edges + [Edge(value, child, nodes[node].firstEdge)];
      paths, owners := paths + [paths[node] + [value]], owners + [node];
      nodes := nodes[node := nodes[node].(firstEdge := Some(edge))];
    }

    /** A node without such a child is the only one its path could continue from. */
    lemma NoSuchPath(node: nat, value: byte)
      requires Indexed() && node < |nodes|
      requires forall i | 0 <= i < |edges| && owners[i] == node :: edges[i].value != value
      ensures paths[node] + [value] !in paths
    {
      forall m | 0 <= m < |paths| ensures paths[m] != paths[node] + [value] {
        if m > 0 && paths[m] == paths[node] + [value] {
          LastIsUnique(paths[owners[m - 1]], edges[m - 1].value, paths[node], value);
        }
      }
    }

    method Descend(node: nat, value: byte) returns (next: nat)
      requires Indexed() && node < |nodes|
      modifies this`nodes, this`edges, this`paths, this`owners
      ensures Indexed() && 0 < next < |nodes| == |paths|
      ensures old(paths) <= paths && paths[next] == old(paths)[node] + [value]
    {
      var child := Child(node, value);
      if child.Some? {
        return child.value;
      }
      NoSuchPath(node, value);
      ghost var before := paths;
      next := AddChild(node, value);
      forall n | 0 <= n < |nodes| ensures nodes[n].terminal <==> paths[n] in patterns {
        if n == next {
          assert paths[n] !in before;
        } else {
          assert paths[n] == before[n];
        }
      }
      forall i, j | 0 <= i < j < |paths| ensures paths[i] != paths[j] {
        assert paths[i] == before[i] && paths[i] in before;
      }
    }

    /** Afterwards the index holds one more pattern. */
    method Insert(pattern: Bytes)
      requires Valid() && pattern != []
      modifies this
      ensures Valid() && patterns == old(patterns) + {pattern}
      ensures maxPatternBytes == if |pattern| > old(maxPatternBytes) then |pattern| else old(maxPatternBytes)
    {
      hide Trie.Indexed;
      if |pattern| > maxPatternBytes {
        maxPatternBytes := |pattern|;
      }
      var node := 0;
      RootExists();
      for i := 0 to |pattern|
        invariant Indexed() && node < |nodes| == |paths| && paths[node] == pattern[..i]
        invariant patterns == old(patterns)
        invariant maxPatternBytes == if |pattern| > old(maxPatternBytes) then |pattern| else old(maxPatternBytes)
      {
        assert pattern[..i + 1] == pattern[..i] + [pattern[i]];
        node := Descend(node, pattern[i]);
      }
      assert pattern[..|pattern|] == pattern;
      MarkTerminal(node);
    }

    lemma RootExists()
      requires Indexed()
      ensures |nodes| == |paths| && |nodes| > 0 && paths[0] == []
    {
    }

    method MarkTerminal(node: nat)
      requires Indexed() && node < |nodes| == |paths| && paths[node] != []
      modifies this`nodes, this`patterns
      ensures Indexed() && patterns == old(patterns) + {paths[node]}
    {
      hide InChain, IsShaped, IsLinked;
      MarkKeepsLinks(nodes, edges, paths, owners, node);
      nodes := nodes[node := nodes[node].(terminal := true)];
      patterns := patterns + {paths[node]};
    }

    /** Every path's prefixes are paths. */
    lemma PrefixIsPath(node: nat, length: nat)
      requires Shaped() && node < |nodes| && length <= |paths[node]|
      ensures paths[node][..length] in paths
      decreases node
    {
      if length == |paths[node]| {
        assert paths[node][..length] == paths[node];
      } else {
        var i := node - 1;
        PrefixIsPath(owners[i], length);
        assert paths[node][..length] == paths[owners[i]][..length];
      }
    }

    /** Where the walk gets stuck, no longer pattern matches. */
    lemma StuckIsLongest(text: Bytes, depth: nat, longest: nat)
      requires Indexed() && depth <= |text|
      requires longest <= depth && (longest > 0 ==> MatchesHere(patterns, text, longest))
      requires forall n | longest < n <= depth :: !MatchesHere(patterns, text, n)
      requires depth < |text| ==> text[..depth + 1] !in paths
      ensures longest == Longest(patterns, text)
    {
      forall n | longest < n <= |text| ensures !MatchesHere(patterns, text, n) {
        if n > depth && text[..n] in patterns {
          var m :| 0 <= m < |paths| && paths[m] == text[..n];
          assert text[..n][..depth + 1] == text[..depth + 1];
          PrefixIsPath(m, depth + 1);
        }
      }
      LongestIsUnique(patterns, text, longest);
    }

    method WalkOn(node: nat, value: byte) returns (next: Option<nat>)
      requires Indexed() && node < |nodes| == |paths|
      ensures next.Some? ==> next.value < |nodes| && paths[next.value] == paths[node] + [value]
      ensures next.Some? ==> (nodes[next.value].terminal <==> paths[next.value] in patterns)
      ensures next.None? ==> paths[node] + [value] !in paths
    {
      next := Child(node, value);
      if next.None? {
        NoSuchPath(node, value);
      }
    }

    /** The walk finds the length of the longest pattern the text starts with, 0 meaning none. */
    method LongestMatchAt(bytes: Bytes, start: nat) returns (longest: nat)
      requires Valid() && start <= |bytes|
      ensures longest == Longest(patterns, bytes[start..])
    {
      hide Trie.Indexed, Longest;
      RootExists();
      var node, cursor := 0, start;
      longest := 0;
      ghost var text := bytes[start..];
      while cursor < |bytes|
        invariant start <= cursor <= |bytes| && node < |nodes| && paths[node] == text[..cursor - start]
        invariant longest <= cursor - start && (longest > 0 ==> MatchesHere(patterns, text, longest))
        invariant forall n | longest < n <= cursor - start :: !MatchesHere(patterns, text, n)
      {
        var next := WalkOn(node, bytes[cursor]);
        ghost var depth := cursor - start;
        assert text[..depth + 1] == text[..depth] + [bytes[cursor]];
        if next.None? {
          break;
        }
        node := next.value;
        cursor := cursor + 1;
        if nodes[node].terminal {
          longest := cursor - start;
        }
      }
      StuckIsLongest(text, cursor - start, longest);
    }
  }
}
