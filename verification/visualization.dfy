/**
 * The graph-building part of the tech-path visualisation: look up one
 * player's build order, then walk it once, growing a directed graph, a list
 * of node colors, a list of node sizes and a dictionary of edge labels.
 */
module Visualization {
  import opened Wrappers
  import opened Replay
  import opened TimeString
  import opened Graph
  import opened TechGraphs

  /** Why no graph was built: the player id is unknown, or an event's time does not convert. */
  datatype Failure = UnknownPlayer | UnparsableTime(index: nat)

  /**
   * The builder loop. Index `k` of `sizes` and `colors` always describes the
   * `k`-th node of the graph. When an event's time does not convert, the walk
   * stops there and no graph is produced.
   */
  method BuildTechPath<T, L>(buildOrder: seq<BuildEvent>, parse: string -> Option<T>, format: T -> L)
    returns (g: DiGraph?<T>, colors: seq<T>, sizes: seq<int>, labels: map<Edge, L>, badIndex: Option<nat>)
    ensures g == null <==> badIndex.Some?
    ensures badIndex.Some? ==> FirstUnparsable(buildOrder, parse, badIndex.value)
    ensures g != null ==> fresh(g) && g.Valid()
    ensures g != null ==> IsTechPath(buildOrder, parse, format, TechGraph(g.nodes, g.time, g.edges, colors, sizes, labels))
  {
    var graph := new DiGraph<T>();
    colors, sizes, labels := [], [], map[];
    ghost var built: TechGraph<T, L> := TechGraph([], map[], {}, [], [], map[]);
    EmptyTechPath(buildOrder, parse, format);
    var i := 0;
    while i < |buildOrder|
      invariant 0 <= i <= |buildOrder|
      invariant fresh(graph) && graph.Valid()
      invariant built == TechGraph(graph.nodes, graph.time, graph.edges, colors, sizes, labels)
      invariant TechPathUpTo(buildOrder, i, parse, format, built)
    {
      var parsed := parse(Decimalize(buildOrder[i].time));
      if parsed.None? {
        return null, colors, sizes, labels, Some(i);
      }
      var time := parsed.value;
      AdvancePreserves(buildOrder, i, parse, format, built, time);
      colors, sizes, labels := AddEvent(graph, buildOrder, i, time, format, colors, sizes, labels);
      built := Advance(buildOrder, i, time, format, built);
      i := i + 1;
    }
    g, badIndex := graph, None;
  }

  /**
   * The body of the builder loop for the event at index `i`, whose time has
   * converted to `time`: add the node or grow its size, then link it from
   * the previous event's node.
   */
  method AddEvent<T, L>(graph: DiGraph<T>, buildOrder: seq<BuildEvent>, i: nat, time: T, format: T -> L,
                        colors: seq<T>, sizes: seq<int>, labels: map<Edge, L>)
    returns (colors': seq<T>, sizes': seq<int>, labels': map<Edge, L>)
    requires i < |buildOrder| && graph.Valid() && |sizes| == |graph.nodes|
    modifies graph
    ensures graph.Valid()
    ensures TechGraph(graph.nodes, graph.time, graph.edges, colors', sizes', labels')
      == Advance(buildOrder, i, time, format, old(TechGraph(graph.nodes, graph.time, graph.edges, colors, sizes, labels)))
  {
    var name := buildOrder[i].name;
    colors', sizes', labels' := colors, sizes, labels;
    if name !in graph.nodes {
      graph.AddNode(name, time);
      colors' := colors' + [time];
      sizes' := sizes' + [BaseSize];
    } else {
      var index := IndexOf(graph.nodes, name);
      sizes' := sizes'[index := sizes'[index] + RepeatIncrement];
    }
    if i > 0 {
      var prevName := buildOrder[i - 1].name;
      graph.AddEdge(prevName, name);
      labels' := labels'[(prevName, name) := format(time)];
    }
  }

  /**
   * `parsed_data['players'][player_id]['buildOrder']` followed by the builder
   * loop: an unknown player id fails before anything is built.
   */
  method CreateTechPath<T, L>(players: map<PlayerId, PlayerRecord>, playerId: PlayerId, parse: string -> Option<T>, format: T -> L)
    returns (g: DiGraph?<T>, colors: seq<T>, sizes: seq<int>, labels: map<Edge, L>, failure: Option<Failure>)
    ensures g == null <==> failure.Some?
    ensures failure == Some(UnknownPlayer) <==> playerId !in players
    ensures failure.Some? && failure.value.UnparsableTime? ==>
      playerId in players && FirstUnparsable(players[playerId].buildOrder, parse, failure.value.index)
    ensures g != null ==> playerId in players && fresh(g) && g.Valid()
    ensures g != null ==>
      IsTechPath(players[playerId].buildOrder, parse, format, TechGraph(g.nodes, g.time, g.edges, colors, sizes, labels))
  {
    if playerId !in players {
      return null, [], [], map[], Some(UnknownPlayer);
    }
    var badIndex;
    g, colors, sizes, labels, badIndex := BuildTechPath(players[playerId].buildOrder, parse, format);
    failure := if badIndex.Some? then Some(UnparsableTime(badIndex.value)) else None;
  }
}
