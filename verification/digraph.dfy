/**
 * The part of a networkx directed graph that the tech-path builder touches:
 * nodes kept in insertion order (the order `G.nodes()` lists them in), a
 * `time` attribute per node, and a set of directed edges.
 */
module Graph {

  /** A directed edge, source first. */
  type Edge = (string, string)

  /** No name occurs twice. */
  predicate Distinct(s: seq<string>) {
    forall a, b :: 0 <= a < b < |s| ==> s[a] != s[b]
  }

  /** `s.index(x)`: the position of the first occurrence of `x` in `s`. */
  function IndexOf(s: seq<string>, x: string): (k: nat)
    requires x in s
    ensures k < |s| && s[k] == x && x !in s[..k]
  {
    if s[0] == x then 0
    else
      var k' := IndexOf(s[1..], x);
      assert s[..k' + 1] == [s[0]] + s[1..][..k'];
      k' + 1
  }

  /** The first occurrence is the only position holding `x` with no `x` before it. */
  lemma IndexOfUnique(s: seq<string>, x: string, k: nat)
    requires k < |s| && s[k] == x && x !in s[..k]
    ensures IndexOf(s, x) == k
  {
  }

  /** A first occurrence comes no later than any occurrence. */
  lemma {:induction false} IndexOfFirst(s: seq<string>, x: string, j: nat)
    requires j < |s| && s[j] == x
    ensures IndexOf(s, x) <= j
  {
    if s[0] != x {
      IndexOfFirst(s[1..], x, j - 1);
    }
  }

  /** A name is among the first `n` exactly when its first occurrence is before `n`. */
  lemma PrefixMember(s: seq<string>, n: nat)
    requires n <= |s|
    ensures forall x :: x in s[..n] <==> x in s && IndexOf(s, x) < n
  {
    forall x | x in s[..n] ensures x in s && IndexOf(s, x) < n {
      var j :| 0 <= j < n && s[..n][j] == x;
      IndexOfFirst(s, x, j);
    }
    forall x | x in s && IndexOf(s, x) < n ensures x in s[..n] {
      assert s[..n][IndexOf(s, x)] == x;
    }
  }

  /** Appending never moves a first occurrence; a new name is found at the end. */
  lemma IndexOfSnoc(s: seq<string>, y: string)
    ensures forall x :: x in s ==> IndexOf(s + [y], x) == IndexOf(s, x)
    ensures y !in s ==> IndexOf(s + [y], y) == |s|
  {
    forall x | x in s ensures IndexOf(s + [y], x) == IndexOf(s, x) {
      var k := IndexOf(s, x);
      assert (s + [y])[..k] == s[..k];
      IndexOfUnique(s + [y], x, k);
    }
    if y !in s {
      assert (s + [y])[..|s|] == s;
      IndexOfUnique(s + [y], y, |s|);
    }
  }

  /** The node list after adding `x`: a present node keeps its place, a new one goes last. */
  function WithNode(s: seq<string>, x: string): seq<string> {
    if x in s then s else s + [x]
  }

  class DiGraph<T> {
    /** The nodes, in insertion order. */
    var nodes: seq<string>
    /** The `time` attribute of the nodes that were given one. */
    var time: map<string, T>
    var edges: set<Edge>

    ghost predicate Valid()
      reads this
    {
      && Distinct(nodes)
      && (forall x :: x in time ==> x in nodes)
      && (forall e :: e in edges ==> e.0 in nodes && e.1 in nodes)
    }

    /** `nx.DiGraph()`: the empty graph. */
    constructor ()
      ensures Valid()
      ensures nodes == [] && time == map[] && edges == {}
    {
      nodes, time, edges := [], map[], {};
    }

    /** `G.add_node(x, time=t)`: adds `x` if absent and sets its attribute. */
    method AddNode(x: string, t: T)
      requires Valid()
      modifies this
      ensures Valid()
      ensures nodes == WithNode(old(nodes), x)
      ensures time == old(time)[x := t]
      ensures edges == old(edges)
    {
      if x !in nodes {
        nodes := nodes + [x];
      }
      time := time[x := t];
    }

    /**
     * `G.add_edge(u, v)`: adds each endpoint that is not yet a node (with no
     * attribute), then the edge; an edge already present is not duplicated.
     */
    method AddEdge(u: string, v: string)
      requires Valid()
      modifies this
      ensures Valid()
      ensures nodes == WithNode(WithNode(old(nodes), u), v)
      ensures u in old(nodes) && v in old(nodes) ==> nodes == old(nodes)
      ensures time == old(time)
      ensures edges == old(edges) + {(u, v)}
    {
      if u !in nodes {
        nodes := nodes + [u];
      }
      if v !in nodes {
        nodes := nodes + [v];
      }
      edges := edges + {(u, v)};
    }
  }
}
