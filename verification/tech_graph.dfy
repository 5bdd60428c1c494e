/**
 * What the tech-path builder produces from one player's build order, stated
 * independently of the loop that computes it, and the properties of that
 * result.
 *
 * Times are kept abstract: `parse` stands for the float conversion applied to
 * the rewritten time string (None where that conversion raises), `format` for
 * the two-decimal label formatting.
 */
module TechGraphs {
  import opened Wrappers
  import opened Replay
  import opened TimeString
  import opened Graph
  import opened TechPath

  /** The size a node gets when it is first added. */
  const BaseSize: int := 1000
  /** What each repeat of an action adds to its node's size. */
  const RepeatIncrement: int := 500

  /** The time of one event: its string with ':' rewritten to '.', then converted. */
  function ParseTime<T>(e: BuildEvent, parse: string -> Option<T>): Option<T> {
    parse(Decimalize(e.time))
  }

  /** The times of the first `n` events all convert. */
  predicate TimesParse<T>(bo: seq<BuildEvent>, n: nat, parse: string -> Option<T>) {
    n <= |bo| && forall k :: 0 <= k < n ==> ParseTime(bo[k], parse).Some?
  }

  /** `k` is the first event whose time does not convert. */
  predicate FirstUnparsable<T>(bo: seq<BuildEvent>, parse: string -> Option<T>, k: nat) {
    k < |bo| && ParseTime(bo[k], parse).None? && TimesParse(bo, k, parse)
  }

  /**
   * The builder's output: the graph's node list, the nodes' `time` attribute
   * and its edge set, plus the parallel color and size lists and the edge labels.
   */
  datatype TechGraph<T, L> = TechGraph(
    nodes: seq<string>,
    time: map<string, T>,
    edges: set<Edge>,
    colors: seq<T>,
    sizes: seq<int>,
    labels: map<Edge, L>)

  /**
   * Nodes, their `time` attribute and their colors after the first `n` events:
   * one node per distinct name, in order of first occurrence; the attribute of
   * a node is the time of its name's first occurrence, and entry `k` of the
   * colors is the attribute of the `k`-th node.
   */
  ghost predicate NodesUpTo<T, L>(bo: seq<BuildEvent>, n: nat, parse: string -> Option<T>, tg: TechGraph<T, L>) {
    var ns := Names(bo);
    && TimesParse(bo, n, parse)
    && tg.nodes == FirstOccurrences(ns[..n])
    && (forall x :: x in tg.time <==> x in ns && IndexOf(ns, x) < n)
    && (forall x :: x in tg.time ==> tg.time[x] == ParseTime(bo[IndexOf(ns, x)], parse).value)
    && |tg.colors| == |tg.nodes|
    && (forall k :: 0 <= k < |tg.nodes| ==> tg.nodes[k] in tg.time && tg.colors[k] == tg.time[tg.nodes[k]])
  }

  /** Sizes after the first `n` events: the base size plus one increment per repeat of the `k`-th node's name. */
  ghost predicate SizesUpTo<T, L>(bo: seq<BuildEvent>, n: nat, tg: TechGraph<T, L>)
    requires n <= |bo|
  {
    var ns := Names(bo);
    && |tg.sizes| == |tg.nodes|
    && (forall k :: 0 <= k < |tg.nodes| ==>
          tg.sizes[k] == BaseSize + RepeatIncrement * (multiset(ns[..n])[tg.nodes[k]] as int - 1))
  }

  /**
   * Edges and labels after the first `n` events: the edge set is the set of
   * consecutive transitions, and each edge is labelled with the time of the
   * last event that completed it.
   */
  ghost predicate EdgesUpTo<T, L>(bo: seq<BuildEvent>, n: nat, parse: string -> Option<T>, format: T -> L, tg: TechGraph<T, L>) {
    var ns := Names(bo);
    && TimesParse(bo, n, parse)
    && tg.edges == Transitions(ns[..n])
    && tg.labels.Keys == tg.edges
    && (forall e :: e in tg.labels ==> tg.labels[e] == format(ParseTime(bo[LastIndex(ns[..n], e)], parse).value))
  }

  /** `tg` is what the builder holds after the first `n` events of `bo`. */
  ghost predicate TechPathUpTo<T, L>(bo: seq<BuildEvent>, n: nat, parse: string -> Option<T>, format: T -> L, tg: TechGraph<T, L>) {
    && NodesUpTo(bo, n, parse, tg)
    && SizesUpTo(bo, n, tg)
    && EdgesUpTo(bo, n, parse, format, tg)
  }

  /** `tg` is what the builder produces for the whole of `bo`. */
  ghost predicate IsTechPath<T, L>(bo: seq<BuildEvent>, parse: string -> Option<T>, format: T -> L, tg: TechGraph<T, L>) {
    TechPathUpTo(bo, |bo|, parse, format, tg)
  }

  /** Before any event the graph, the lists and the labels are empty. */
  lemma EmptyTechPath<T, L>(bo: seq<BuildEvent>, parse: string -> Option<T>, format: T -> L)
    ensures TechPathUpTo(bo, 0, parse, format, TechGraph([], map[], {}, [], [], map[]))
  {
    assert Names(bo)[..0] == [];
  }

  /**
   * The builder's state after one more event whose time converted to `t`: a
   * new name becomes a node with that time, its color and the base size; a
   * repeated name grows its node's size; from the second event on, the edge
   * from the previous name is added (with any missing endpoint, as adding an
   * edge does) and labelled with the formatted time.
   */
  function Advance<T, L>(bo: seq<BuildEvent>, n: nat, t: T, format: T -> L, tg: TechGraph<T, L>): TechGraph<T, L>
    requires n < |bo| && |tg.sizes| == |tg.nodes|
  {
    var name := bo[n].name;
    var isNew := name !in tg.nodes;
    var nodes := WithNode(tg.nodes, name);
    var e := if n == 0 then ("", "") else (bo[n - 1].name, name);
    TechGraph(
      if n == 0 then nodes else WithNode(WithNode(nodes, e.0), e.1),
      if isNew then tg.time[name := t] else tg.time,
      if n == 0 then tg.edges else tg.edges + {e},
      if isNew then tg.colors + [t] else tg.colors,
      if isNew then tg.sizes + [BaseSize]
      else tg.sizes[IndexOf(tg.nodes, name) := tg.sizes[IndexOf(tg.nodes, name)] + RepeatIncrement],
      if n == 0 then tg.labels else tg.labels[e := format(t)])
  }

  /** Each event keeps the builder's state equal to the specification of the events seen so far. */
  lemma AdvancePreserves<T, L>(bo: seq<BuildEvent>, n: nat, parse: string -> Option<T>, format: T -> L, tg: TechGraph<T, L>, t: T)
    requires n < |bo| && TechPathUpTo(bo, n, parse, format, tg) && ParseTime(bo[n], parse) == Some(t)
    ensures TechPathUpTo(bo, n + 1, parse, format, Advance(bo, n, t, format, tg))
  {
    if n > 0 {
      PreviousIsNode(bo, n, tg.nodes);
    }
    AdvanceNodes(bo, n, parse, format, tg);
    AdvanceSizes(bo, n, t, format, tg);
    AdvanceEdges(bo, n, parse, format, tg);
  }

  /** The previous event's name is already a node. */
  lemma PreviousIsNode(bo: seq<BuildEvent>, n: nat, nodes: seq<string>)
    requires 0 < n <= |bo| && nodes == FirstOccurrences(Names(bo)[..n])
    ensures bo[n - 1].name in nodes
  {
    assert Names(bo)[..n][n - 1] == bo[n - 1].name;
  }

  lemma AdvanceNodes<T, L>(bo: seq<BuildEvent>, n: nat, parse: string -> Option<T>, format: T -> L, tg: TechGraph<T, L>)
    requires n < |bo| && NodesUpTo(bo, n, parse, tg) && ParseTime(bo[n], parse).Some? && |tg.sizes| == |tg.nodes|
    requires n > 0 ==> bo[n - 1].name in tg.nodes
    ensures NodesUpTo(bo, n + 1, parse, Advance(bo, n, ParseTime(bo[n], parse).value, format, tg))
  {
    var tg' := Advance(bo, n, ParseTime(bo[n], parse).value, format, tg);
    assert tg'.nodes == WithNode(tg.nodes, bo[n].name);
    NodesStep(bo, n, parse, tg, tg');
  }

  lemma AdvanceSizes<T, L>(bo: seq<BuildEvent>, n: nat, t: T, format: T -> L, tg: TechGraph<T, L>)
    requires n < |bo| && SizesUpTo(bo, n, tg) && tg.nodes == FirstOccurrences(Names(bo)[..n])
    requires n > 0 ==> bo[n - 1].name in tg.nodes
    ensures SizesUpTo(bo, n + 1, Advance(bo, n, t, format, tg))
  {
    var tg' := Advance(bo, n, t, format, tg);
    assert tg'.nodes == WithNode(tg.nodes, bo[n].name);
    SizesStep(bo, n, tg, tg');
  }

  lemma AdvanceEdges<T, L>(bo: seq<BuildEvent>, n: nat, parse: string -> Option<T>, format: T -> L, tg: TechGraph<T, L>)
    requires n < |bo| && EdgesUpTo(bo, n, parse, format, tg) && ParseTime(bo[n], parse).Some? && |tg.sizes| == |tg.nodes|
    ensures EdgesUpTo(bo, n + 1, parse, format, Advance(bo, n, ParseTime(bo[n], parse).value, format, tg))
  {
    var t := ParseTime(bo[n], parse).value;
    var tg' := Advance(bo, n, t, format, tg);
    if n == 0 {
      assert tg'.edges == tg.edges && tg'.labels == tg.labels;
    } else {
      var e := (bo[n - 1].name, bo[n].name);
      assert tg'.edges == tg.edges + {e} && tg'.labels == tg.labels[e := format(t)];
    }
    EdgesStep(bo, n, parse, format, tg, tg');
  }

  /** One event's effect on nodes, attributes and colors: a new name is appended, a repeat changes nothing. */
  lemma NodesStep<T, L>(bo: seq<BuildEvent>, n: nat, parse: string -> Option<T>, tg: TechGraph<T, L>, tg': TechGraph<T, L>)
    requires n < |bo| && NodesUpTo(bo, n, parse, tg) && ParseTime(bo[n], parse).Some?
    requires tg'.nodes == WithNode(tg.nodes, bo[n].name)
    requires bo[n].name !in tg.nodes ==>
      tg'.time == tg.time[bo[n].name := ParseTime(bo[n], parse).value]
      && tg'.colors == tg.colors + [ParseTime(bo[n], parse).value]
    requires bo[n].name in tg.nodes ==> tg'.time == tg.time && tg'.colors == tg.colors
    ensures NodesUpTo(bo, n + 1, parse, tg')
  {
    var ns, name := Names(bo), bo[n].name;
    assert tg'.nodes == FirstOccurrences(ns[..n + 1]) by {
      assert ns[..n + 1] == ns[..n] + [name];
      FirstOccurrencesSnoc(ns[..n], name);
    }
    assert TimesParse(bo, n + 1, parse);
    if name !in tg.nodes {
      NewNameStep(bo, n, parse, tg, tg');
    } else {
      RepeatStep(ns, n, tg.time.Keys);
    }
  }

  /** A name not seen before gets its first-occurrence time, and its color is appended. */
  lemma NewNameStep<T, L>(bo: seq<BuildEvent>, n: nat, parse: string -> Option<T>, tg: TechGraph<T, L>, tg': TechGraph<T, L>)
    requires n < |bo| && NodesUpTo(bo, n, parse, tg) && ParseTime(bo[n], parse).Some?
    requires bo[n].name !in Names(bo)[..n]
    requires tg'.nodes == tg.nodes + [bo[n].name]
    requires tg'.time == tg.time[bo[n].name := ParseTime(bo[n], parse).value]
    requires tg'.colors == tg.colors + [ParseTime(bo[n], parse).value]
    ensures forall x :: x in tg'.time <==> x in Names(bo) && IndexOf(Names(bo), x) < n + 1
    ensures forall x :: x in tg'.time ==> tg'.time[x] == ParseTime(bo[IndexOf(Names(bo), x)], parse).value
    ensures forall k :: 0 <= k < |tg'.nodes| ==> tg'.nodes[k] in tg'.time && tg'.colors[k] == tg'.time[tg'.nodes[k]]
  {
    var ns, name := Names(bo), bo[n].name;
    IndexOfUnique(ns, name, n);
    forall x ensures x in tg'.time <==> x in ns && IndexOf(ns, x) < n + 1 {
      if x in ns && IndexOf(ns, x) == n {
        assert x == name;
      }
    }
    forall k | 0 <= k < |tg'.nodes| ensures tg'.nodes[k] in tg'.time && tg'.colors[k] == tg'.time[tg'.nodes[k]] {
      if k < |tg.nodes| {
        assert tg'.nodes[k] == tg.nodes[k] != name;
      }
    }
  }

  /** A repeated name adds no name to those whose first occurrence lies before the current event. */
  lemma RepeatStep(ns: seq<string>, n: nat, seen: set<string>)
    requires n < |ns| && ns[n] in ns[..n]
    requires forall x :: x in seen <==> x in ns && IndexOf(ns, x) < n
    ensures forall x :: x in seen <==> x in ns && IndexOf(ns, x) < n + 1
  {
    PrefixMember(ns, n);
    forall x | x in ns ensures x in seen <==> IndexOf(ns, x) < n + 1 {
      assert ns[IndexOf(ns, x)] == x;
    }
  }

  /** One event's effect on sizes: a new name gets the base size, a repeat grows its own entry only. */
  lemma SizesStep<T, L>(bo: seq<BuildEvent>, n: nat, tg: TechGraph<T, L>, tg': TechGraph<T, L>)
    requires n < |bo| && SizesUpTo(bo, n, tg) && tg.nodes == FirstOccurrences(Names(bo)[..n])
    requires tg'.nodes == WithNode(tg.nodes, bo[n].name)
    requires bo[n].name !in tg.nodes ==> tg'.sizes == tg.sizes + [BaseSize]
    requires bo[n].name in tg.nodes ==>
      var at := IndexOf(tg.nodes, bo[n].name);
      tg'.sizes == tg.sizes[at := tg.sizes[at] + RepeatIncrement]
    ensures SizesUpTo(bo, n + 1, tg')
  {
    var ns, name := Names(bo), bo[n].name;
    assert ns[..n + 1] == ns[..n] + [name];
    assert multiset(ns[..n + 1]) == multiset(ns[..n]) + multiset{name};
    if name !in tg.nodes {
      assert name !in multiset(ns[..n]);
    }
  }

  /** One event's effect on edges and labels: the transition it completes is added and relabelled. */
  lemma EdgesStep<T, L>(bo: seq<BuildEvent>, n: nat, parse: string -> Option<T>, format: T -> L, tg: TechGraph<T, L>, tg': TechGraph<T, L>)
    requires n < |bo| && EdgesUpTo(bo, n, parse, format, tg) && ParseTime(bo[n], parse).Some?
    requires n == 0 ==> tg'.edges == tg.edges && tg'.labels == tg.labels
    requires n > 0 ==>
      var e := (bo[n - 1].name, bo[n].name);
      && tg'.edges == tg.edges + {e}
      && tg'.labels == tg.labels[e := format(ParseTime(bo[n], parse).value)]
    ensures EdgesUpTo(bo, n + 1, parse, format, tg')
  {
    if n == 0 {
      assert Names(bo)[..1] == [] + [bo[0].name];
      TransitionsSnoc([], bo[0].name);
    } else {
      LaterEdgeStep(bo, n, parse, format, tg, tg');
    }
  }

  /** From the second event on, the completed transition becomes an edge labelled with this event's time. */
  lemma LaterEdgeStep<T, L>(bo: seq<BuildEvent>, n: nat, parse: string -> Option<T>, format: T -> L, tg: TechGraph<T, L>, tg': TechGraph<T, L>)
    requires 0 < n < |bo| && EdgesUpTo(bo, n, parse, format, tg) && ParseTime(bo[n], parse).Some?
    requires tg'.edges == tg.edges + {(bo[n - 1].name, bo[n].name)}
    requires tg'.labels == tg.labels[(bo[n - 1].name, bo[n].name) := format(ParseTime(bo[n], parse).value)]
    ensures EdgesUpTo(bo, n + 1, parse, format, tg')
  {
    var ns, name := Names(bo), bo[n].name;
    TransitionsPrefixStep(ns, n);
    assert TimesParse(bo, n + 1, parse);
    RelabelStep(bo, n, parse, format, tg, tg');
  }

  /** The completed transition's label becomes this event's time; every other label stays. */
  lemma RelabelStep<T, L>(bo: seq<BuildEvent>, n: nat, parse: string -> Option<T>, format: T -> L, tg: TechGraph<T, L>, tg': TechGraph<T, L>)
    requires 0 < n < |bo| && EdgesUpTo(bo, n, parse, format, tg) && ParseTime(bo[n], parse).Some?
    requires tg'.labels == tg.labels[(bo[n - 1].name, bo[n].name) := format(ParseTime(bo[n], parse).value)]
    ensures forall e :: e in tg'.labels ==>
      e in Transitions(Names(bo)[..n + 1]) &&
      tg'.labels[e] == format(ParseTime(bo[LastIndex(Names(bo)[..n + 1], e)], parse).value)
  {
    var ns, name := Names(bo), bo[n].name;
    assert ns[..n + 1] == ns[..n] + [name];
    assert ns[..n][n - 1] == bo[n - 1].name;
    TransitionsSnoc(ns[..n], name);
    forall e | e in tg'.labels
      ensures e in Transitions(ns[..n + 1])
      ensures tg'.labels[e] == format(ParseTime(bo[LastIndex(ns[..n + 1], e)], parse).value)
    {
      LastIndexSnoc(ns[..n], name, e);
    }
  }
}

/** What the builder's result says about the build order it was built from. */
module TechGraphFacts {
  import opened Wrappers
  import opened Replay
  import opened Graph
  import opened TechPath
  import opened TechGraphs

  lemma WholeOrder(bo: seq<BuildEvent>)
    ensures Names(bo)[..|bo|] == Names(bo)
  {
  }

  /** Building from the same build order always gives the same graph, colors, sizes and labels. */
  lemma TechPathUnique<T, L>(bo: seq<BuildEvent>, parse: string -> Option<T>, format: T -> L, a: TechGraph<T, L>, b: TechGraph<T, L>)
    requires IsTechPath(bo, parse, format, a) && IsTechPath(bo, parse, format, b)
    ensures a == b
  {
    SameTimes(bo, parse, format, a, b);
    SameColorsAndSizes(bo, parse, format, a, b);
    SameLabels(bo, parse, format, a, b);
  }

  lemma SameTimes<T, L>(bo: seq<BuildEvent>, parse: string -> Option<T>, format: T -> L, a: TechGraph<T, L>, b: TechGraph<T, L>)
    requires IsTechPath(bo, parse, format, a) && IsTechPath(bo, parse, format, b)
    ensures a.time == b.time
  {
    assert a.time.Keys == b.time.Keys;
    forall x | x in a.time ensures a.time[x] == b.time[x] {}
  }

  lemma SameColorsAndSizes<T, L>(bo: seq<BuildEvent>, parse: string -> Option<T>, format: T -> L, a: TechGraph<T, L>, b: TechGraph<T, L>)
    requires IsTechPath(bo, parse, format, a) && IsTechPath(bo, parse, format, b)
    ensures a.colors == b.colors && a.sizes == b.sizes
  {
    forall k | 0 <= k < |a.colors| ensures a.colors[k] == b.colors[k] {}
    forall k | 0 <= k < |a.sizes| ensures a.sizes[k] == b.sizes[k] {}
  }

  lemma SameLabels<T, L>(bo: seq<BuildEvent>, parse: string -> Option<T>, format: T -> L, a: TechGraph<T, L>, b: TechGraph<T, L>)
    requires IsTechPath(bo, parse, format, a) && IsTechPath(bo, parse, format, b)
    ensures a.labels == b.labels
  {
    assert a.labels.Keys == b.labels.Keys;
    forall e | e in a.labels ensures a.labels[e] == b.labels[e] {}
  }

  /**
   * The nodes are the distinct action names, each once, in the order in
   * which the actions first happen.
   */
  lemma NodesAreDistinctNamesInOrder<T, L>(bo: seq<BuildEvent>, parse: string -> Option<T>, format: T -> L, tg: TechGraph<T, L>)
    requires IsTechPath(bo, parse, format, tg)
    ensures Distinct(tg.nodes)
    ensures forall x :: x in tg.nodes <==> exists j :: 0 <= j < |bo| && bo[j].name == x
    ensures forall a, b :: 0 <= a < b < |tg.nodes| ==>
      IndexOf(Names(bo), tg.nodes[a]) < IndexOf(Names(bo), tg.nodes[b])
  {
    WholeOrder(bo);
    assert tg.nodes == FirstOccurrences(Names(bo));
    FirstOccurrencesOrdered(Names(bo));
    forall x ensures x in tg.nodes <==> exists j :: 0 <= j < |bo| && bo[j].name == x {
      InNames(bo, x);
    }
  }

  lemma InNames(bo: seq<BuildEvent>, x: string)
    ensures x in Names(bo) <==> exists j :: 0 <= j < |bo| && bo[j].name == x
  {
    var ns := Names(bo);
    if x in ns {
      assert ns[IndexOf(ns, x)] == x;
    }
  }

  /** The color of a node is the time of the first event with its name. */
  lemma ColorIsFirstTime<T, L>(bo: seq<BuildEvent>, parse: string -> Option<T>, format: T -> L, tg: TechGraph<T, L>, k: nat)
    requires IsTechPath(bo, parse, format, tg) && k < |tg.nodes|
    ensures var j := IndexOf(Names(bo), tg.nodes[k]);
      && j < |bo| && bo[j].name == tg.nodes[k]
      && (forall i :: 0 <= i < j ==> bo[i].name != tg.nodes[k])
      && tg.colors[k] == tg.time[tg.nodes[k]] == ParseTime(bo[j], parse).value
  {
    var ns := Names(bo);
    WholeOrder(bo);
    var j := IndexOf(ns, tg.nodes[k]);
    forall i | 0 <= i < j ensures bo[i].name != tg.nodes[k] {
      assert ns[..j][i] == bo[i].name;
    }
  }

  /** A repeated action makes a bigger node: the base size plus one increment per repeat. */
  lemma SizeCountsRepeats<T, L>(bo: seq<BuildEvent>, parse: string -> Option<T>, format: T -> L, tg: TechGraph<T, L>, k: nat)
    requires IsTechPath(bo, parse, format, tg) && k < |tg.nodes|
    ensures multiset(Names(bo))[tg.nodes[k]] >= 1
    ensures tg.sizes[k] == BaseSize + RepeatIncrement * (multiset(Names(bo))[tg.nodes[k]] - 1)
    ensures tg.sizes[k] >= BaseSize
    ensures tg.sizes[k] == BaseSize <==> multiset(Names(bo))[tg.nodes[k]] == 1
  {
    WholeOrder(bo);
    assert tg.nodes[k] in Names(bo);
  }

  /**
   * An edge joins two consecutive actions, every pair of consecutive actions
   * is an edge, and each edge's label is the time of the last event that
   * completed it.
   */
  lemma EdgesAreTransitions<T, L>(bo: seq<BuildEvent>, parse: string -> Option<T>, format: T -> L, tg: TechGraph<T, L>)
    requires IsTechPath(bo, parse, format, tg)
    ensures forall u, v :: (u, v) in tg.edges <==> exists j :: 1 <= j < |bo| && bo[j - 1].name == u && bo[j].name == v
    ensures forall e :: e in tg.edges <==> e in tg.labels
  {
    WholeOrder(bo);
    assert tg.edges == Transitions(Names(bo));
    forall u, v ensures (u, v) in tg.edges <==> exists j :: 1 <= j < |bo| && bo[j - 1].name == u && bo[j].name == v {
      InTransitions(bo, u, v);
    }
  }

  lemma InTransitions(bo: seq<BuildEvent>, u: string, v: string)
    ensures (u, v) in Transitions(Names(bo)) <==> exists j :: 1 <= j < |bo| && bo[j - 1].name == u && bo[j].name == v
  {
    var ns := Names(bo);
    if (u, v) in Transitions(ns) {
      var j :| 1 <= j < |ns| && Transition(ns, j) == (u, v);
      assert ns[j - 1] == bo[j - 1].name && ns[j] == bo[j].name;
    }
    if exists j :: 1 <= j < |bo| && bo[j - 1].name == u && bo[j].name == v {
      var j :| 1 <= j < |bo| && bo[j - 1].name == u && bo[j].name == v;
      assert ns[j - 1] == bo[j - 1].name && ns[j] == bo[j].name;
      assert Transition(ns, j) in Transitions(ns);
    }
  }

  /** Each edge's label is the formatted time of the last event completing that transition. */
  lemma LabelIsLastTime<T, L>(bo: seq<BuildEvent>, parse: string -> Option<T>, format: T -> L, tg: TechGraph<T, L>, u: string, v: string)
    requires IsTechPath(bo, parse, format, tg) && (u, v) in tg.labels
    ensures exists j: nat :: LastCompletion(bo, u, v, j) && tg.labels[(u, v)] == format(ParseTime(bo[j], parse).value)
  {
    var ns := Names(bo);
    WholeOrder(bo);
    var j := LastIndex(ns, (u, v));
    forall i | j < i < |bo| ensures !(bo[i - 1].name == u && bo[i].name == v) {
      assert Transition(ns, i) != (u, v);
    }
    assert LastCompletion(bo, u, v, j);
  }

  /** The event at index `j` is the last one that follows an action `u` with an action `v`. */
  predicate LastCompletion(bo: seq<BuildEvent>, u: string, v: string, j: nat) {
    && 1 <= j < |bo| && bo[j - 1].name == u && bo[j].name == v
    && forall i :: j < i < |bo| ==> !(bo[i - 1].name == u && bo[i].name == v)
  }

  /**
   * The graph never has more nodes than events, at least one node once there
   * is an event, no edge before the second event, and at most one edge per
   * event after the first.
   */
  lemma TechPathBounds<T, L>(bo: seq<BuildEvent>, parse: string -> Option<T>, format: T -> L, tg: TechGraph<T, L>)
    requires IsTechPath(bo, parse, format, tg)
    ensures |tg.nodes| == |tg.colors| == |tg.sizes| <= |bo|
    ensures |bo| >= 1 ==> |tg.nodes| >= 1
    ensures |bo| <= 1 ==> tg.edges == {} && tg.labels == map[]
    ensures |bo| >= 1 ==> |tg.edges| <= |bo| - 1
  {
    var ns := Names(bo);
    WholeOrder(bo);
    TransitionsBound(ns);
    if |bo| >= 1 {
      assert ns[0] in tg.nodes;
    }
  }

  /** A self-loop on a node is exactly an action performed twice in a row. */
  lemma SelfLoopIffImmediateRepeat<T, L>(bo: seq<BuildEvent>, parse: string -> Option<T>, format: T -> L, tg: TechGraph<T, L>, x: string)
    requires IsTechPath(bo, parse, format, tg)
    ensures (x, x) in tg.edges <==> exists j :: 1 <= j < |bo| && bo[j - 1].name == x && bo[j].name == x
  {
    WholeOrder(bo);
    SelfLoopIffRepeat(Names(bo), x);
  }
}

/** A worked build order: a probe, a pylon, then a second probe. */
module TechGraphExample {
  import opened Wrappers
  import opened Replay
  import opened TechPath
  import opened TechGraphs
  import opened TechGraphFacts

  /** The action names of a build order, spelled out for three events. */
  lemma NamesOfThree(bo: seq<BuildEvent>)
    requires |bo| == 3
    ensures Names(bo) == [bo[0].name, bo[1].name, bo[2].name]
  {
  }

  lemma GoAndBackFirst(a: string, b: string)
    requires a != b
    ensures FirstOccurrences([a, b, a]) == [a, b]
  {
    assert [a, b, a][..2] == [a, b] && [a, b][..1] == [a];
    assert FirstOccurrences([a]) == [a];
    assert FirstOccurrences([a, b]) == [a, b];
  }

  lemma GoAndBackCounts(a: string, b: string)
    requires a != b
    ensures multiset([a, b, a])[a] == 2 && multiset([a, b, a])[b] == 1
  {
  }

  lemma GoAndBackTransitions(a: string, b: string)
    ensures Transitions([a, b, a]) == {(a, b), (b, a)}
  {
    assert [a, b, a] == [a, b] + [a] && [a, b] == [a] + [b] && [a] == [] + [a];
    TransitionsSnoc([], a);
    TransitionsSnoc([a], b);
    TransitionsSnoc([a, b], a);
  }

  /**
   * An action, a different one, then the first again (a probe, a pylon,
   * then a second probe): two nodes, the first one grown once.
   */
  lemma GoAndBackNodes<T, L>(bo: seq<BuildEvent>, parse: string -> Option<T>, format: T -> L, tg: TechGraph<T, L>)
    requires |bo| == 3 && bo[0].name == bo[2].name != bo[1].name
    requires IsTechPath(bo, parse, format, tg)
    ensures tg.nodes == [bo[0].name, bo[1].name]
    ensures tg.sizes == [BaseSize + RepeatIncrement, BaseSize]
  {
    var a, b := bo[0].name, bo[1].name;
    assert Names(bo) == [a, b, a] by {
      NamesOfThree(bo);
    }
    GoAndBackFirst(a, b);
    GoAndBackCounts(a, b);
    GoAndBackTransitions(a, b);
    assert tg.nodes == [a, b] by {
      WholeOrder(bo);
    }
    TechPathBounds(bo, parse, format, tg);
    SizeCountsRepeats(bo, parse, format, tg, 0);
    SizeCountsRepeats(bo, parse, format, tg, 1);
  }

  /** The same build order: each node is colored with the time of the first event with its name. */
  lemma GoAndBackColors<T, L>(bo: seq<BuildEvent>, parse: string -> Option<T>, format: T -> L, tg: TechGraph<T, L>)
    requires |bo| == 3 && bo[0].name == bo[2].name != bo[1].name
    requires IsTechPath(bo, parse, format, tg)
    ensures tg.colors == [ParseTime(bo[0], parse).value, ParseTime(bo[1], parse).value]
    ensures tg.time[bo[0].name] == ParseTime(bo[0], parse).value
    ensures tg.time[bo[1].name] == ParseTime(bo[1], parse).value
  {
    GoAndBackNodes(bo, parse, format, tg);
    TechPathBounds(bo, parse, format, tg);
    ColorIsFirstTime(bo, parse, format, tg, 0);
    ColorIsFirstTime(bo, parse, format, tg, 1);
  }

  /** The same build order: one edge each way, each labelled with the time of the event that completed it. */
  lemma GoAndBackEdges<T, L>(bo: seq<BuildEvent>, parse: string -> Option<T>, format: T -> L, tg: TechGraph<T, L>)
    requires |bo| == 3 && bo[0].name == bo[2].name != bo[1].name
    requires IsTechPath(bo, parse, format, tg)
    ensures tg.edges == {(bo[0].name, bo[1].name), (bo[1].name, bo[0].name)}
    ensures tg.labels[(bo[0].name, bo[1].name)] == format(ParseTime(bo[1], parse).value)
    ensures tg.labels[(bo[1].name, bo[0].name)] == format(ParseTime(bo[2], parse).value)
  {
    var a, b := bo[0].name, bo[1].name;
    assert Names(bo) == [a, b, a] by {
      NamesOfThree(bo);
    }
    GoAndBackFirst(a, b);
    GoAndBackCounts(a, b);
    GoAndBackTransitions(a, b);
    WholeOrder(bo);
    assert LastIndex(Names(bo), (a, b)) == 1;
    assert LastIndex(Names(bo), (b, a)) == 2;
  }
}
