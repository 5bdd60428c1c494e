# Tech-path builder of spawningtool, in Dafny

spawningtool draws a StarCraft II player's *tech path*. It reads the
player's build order, which is a chronological list of events, each with an
action `name` and a `"M:SS"` `time` string. From that list it builds a
directed graph:

- one node per distinct action, in the order the actions first happen;
- a `time` attribute on each node, holding the time of the action's first
  occurrence;
- a parallel list of node colors, also holding first-occurrence times;
- a parallel list of node sizes: 1000 for an action, plus 500 for each
  repeat of it;
- an edge for each pair of consecutive actions;
- an edge-label dictionary holding, for each edge, the formatted time of the
  event that last completed that transition.

Each time string becomes a number by replacing every `:` with `.`, so
`"1:30"` reads as 1.30 minutes, not 1.5. A second, smaller operation
projects each player record to its name, race and winner flag.

This project models those operations and proves what they compute.

| file | module | what it holds |
|---|---|---|
| `replay.dfy` | `Wrappers`, `Replay` | `Option`; build events and player records as parsed from a replay |
| `players.dfy` | `Players` | `GetPlayerInfo`, the per-player projection (a loop over the player map) |
| `time_string.dfy` | `TimeString` | `Decimalize`, the `:` to `.` rewrite, and its properties |
| `digraph.dfy` | `Graph` | `IndexOf` (`list.index`) and the `DiGraph` class: an insertion-ordered node list, the `time` node attribute and the edge set, with `add_node` and `add_edge` |
| `tech_path.dfy` | `TechPath` | specification functions on the list of names: first occurrences, consecutive transitions, last index of a transition |
| `tech_graph.dfy` | `TechGraphs`, `TechGraphFacts`, `TechGraphExample` | `IsTechPath`, which says what the builder produces independently of the loop; the one-event step and its preservation proof; consequences; a worked three-event example |
| `visualization.dfy` | `Visualization` | the builder loop as an imperative method over a `DiGraph`, and the player lookup in front of it |

Time conversion and label formatting are parameters of the model:

- `parse: string -> Option<T>` stands for `float(...)`; `None` is the
  `ValueError` it raises;
- `format: T -> L` stands for `f"{time:.2f}"`.

The builder is proved against `TechPathUpTo(bo, n, ...)`, which says what
the graph, colors, sizes and labels must be after the first `n` events. It is
the loop invariant. `TechPathUpTo` is the conjunction of three predicates:
`NodesUpTo`, `SizesUpTo` and `EdgesUpTo`. `IsTechPath` is `TechPathUpTo` at
`n = |bo|`, which describes the builder's final result.

Two consequences of the code are worth stating:

- Edges live in a `DiGraph`, so a repeated transition is one edge. The model
  proves `|edges| <= N - 1` (`TechGraphFacts.TechPathBounds`), and that the
  edge set is exactly the set of consecutive pairs
  (`TechGraphFacts.EdgesAreTransitions`).
- The builder loop accepts an empty build order and yields an empty graph.
  The program fails only later, at `min([])` on line 61, which is left out.

## Model

| member | source | states |
|---|---|---|
| Players.GetPlayerInfo | spawningtool/visualization.py:14-22 | the result has exactly the players' ids as keys, and each entry carries that player's name, race and winner flag |
| TimeString.Decimalize | spawningtool/visualization.py:35 | the rewrite keeps the length; each character is `.` where the input has `:` and is unchanged elsewhere |
| TimeString.DecimalizeLeavesNoColon | spawningtool/visualization.py:35 | no `:` survives the rewrite |
| TimeString.DecimalizeFixesExactlyColonFree | spawningtool/visualization.py:35 | the rewrite leaves a string unchanged if and only if it holds no `:` |
| TimeString.DecimalizeIdempotent | spawningtool/visualization.py:35 | rewriting twice gives the same string as rewriting once |
| TimeString.DecimalizeConcat | spawningtool/visualization.py:35 | the rewrite works character by character, so it distributes over concatenation |
| TimeString.DecimalizeMinuteThirty | spawningtool/visualization.py:35 | `"1:30"` becomes `"1.30"` (1.30 minutes, not 1.5) |
| Graph.IndexOf | spawningtool/visualization.py:42 | `list(G.nodes()).index(name)` returns an in-range position holding `name`, with no earlier occurrence of it |
| Graph.IndexOfFirst | spawningtool/visualization.py:42 | the index found is at or before every position that holds the name |
| Graph.DiGraph.constructor | spawningtool/visualization.py:27 | a new graph has no nodes, no attributes and no edges |
| Graph.DiGraph.AddNode | spawningtool/visualization.py:38 | `add_node` appends the node if absent, sets its `time` attribute and leaves the edges alone; the graph stays well formed |
| Graph.DiGraph.AddEdge | spawningtool/visualization.py:46 | `add_edge` appends each missing endpoint, adds the edge once and keeps the attributes; if both endpoints are already nodes, the node list is unchanged |
| TechPath.FirstOccurrences | spawningtool/visualization.py:37-40 | the distinct names, each once, with the same members as the input, and no more of them than events |
| TechPath.FirstOccurrencesOrdered | spawningtool/visualization.py:37-40 | the distinct names come out in the order of their first occurrences |
| TechPath.TransitionsBound | spawningtool/visualization.py:44-46 | fewer than two events give no transition; otherwise there are at most `N - 1` |
| TechPath.SelfLoopIffRepeat | spawningtool/visualization.py:44-46 | `(x, x)` is a transition if and only if `x` occurs twice in a row |
| TechPath.LastIndex | spawningtool/visualization.py:44-47 | the last position whose transition is the given one: it completes that transition and no later position does |
| TechGraphs.EmptyTechPath | spawningtool/visualization.py:27-30 | the empty graph, lists and dictionary are the correct result for zero events |
| TechGraphs.PreviousIsNode | spawningtool/visualization.py:44-46 | the previous event's name is already a node when the edge is added, so `add_edge` adds no node |
| TechGraphs.NodesStep | spawningtool/visualization.py:37-39 | appending a new name, with its time and color, or leaving a repeat unchanged, keeps nodes, attributes and colors correct for one more event |
| TechGraphs.SizesStep | spawningtool/visualization.py:40-42 | appending the base size for a new name, or adding the increment at the repeated name's own index, keeps every size equal to 1000 + 500 × (occurrences − 1) |
| TechGraphs.EdgesStep | spawningtool/visualization.py:44-47 | adding the edge from the previous name and overwriting its label keeps the edges equal to the transitions seen so far, each labelled with the time of its last occurrence |
| TechGraphs.AdvancePreserves | spawningtool/visualization.py:33-47 | one loop iteration takes a correct result for `n` events to a correct result for `n + 1` events |
| TechGraphFacts.TechPathUnique | spawningtool/visualization.py:33-47 | the result is determined by the build order: two results for the same events are equal |
| TechGraphFacts.NodesAreDistinctNamesInOrder | spawningtool/visualization.py:37-40 | the nodes are the event names, each once, in order of first occurrence |
| TechGraphFacts.ColorIsFirstTime | spawningtool/visualization.py:38-39 | a node's color and `time` attribute are the time of the first event with its name |
| TechGraphFacts.SizeCountsRepeats | spawningtool/visualization.py:40-42 | a node's size is 1000 + 500 × (occurrences − 1); it is at least 1000, and exactly 1000 if and only if the action happens once |
| TechGraphFacts.EdgesAreTransitions | spawningtool/visualization.py:44-47 | `(u, v)` is an edge if and only if some event named `v` directly follows one named `u`; the labelled pairs are exactly the edges |
| TechGraphFacts.LabelIsLastTime | spawningtool/visualization.py:44-47 | an edge's label is the formatted time of the last event completing that transition |
| TechGraphFacts.TechPathBounds | spawningtool/visualization.py:33-47 | colors, sizes and nodes have one length, at most the number of events; at least one node once there is an event; no edge or label below two events; at most `N - 1` edges |
| TechGraphFacts.SelfLoopIffImmediateRepeat | spawningtool/visualization.py:44-46 | a node has a self-loop if and only if its action happens twice in a row |
| TechGraphExample.GoAndBackNodes | spawningtool/visualization.py:33-42 | for a probe, a pylon, then a probe: the nodes are probe and pylon, with sizes 1500 and 1000 |
| TechGraphExample.GoAndBackColors | spawningtool/visualization.py:37-39 | for the same events: the colors are the times of the first probe and of the pylon, and so are their `time` attributes |
| TechGraphExample.GoAndBackEdges | spawningtool/visualization.py:44-47 | for the same events: the edges are probe to pylon and pylon to probe; the first is labelled with the pylon's time, the edge back with the second probe's time |
| Visualization.BuildTechPath | spawningtool/visualization.py:27-47 | the loop stops at the first time that does not convert and produces no graph; otherwise it returns a well-formed new graph whose nodes, attributes and edges, together with the colors, sizes and labels, satisfy `IsTechPath` |
| Visualization.AddEvent | spawningtool/visualization.py:34-47 | one loop body: the graph, colors, sizes and labels become the one-event step of the previous values |
| Visualization.CreateTechPath | spawningtool/visualization.py:25-47 | an unknown player id fails before anything is built; otherwise the outcome is the builder's outcome on that player's build order |

## Left out

- `float(...)` (line 35) is the parameter `parse`, and `f"{time:.2f}"` (line 47) is the parameter `format`. Floating-point conversion and formatting are not modelled, so the model does not show that `"1.30"` converts to 1.3.
- The exception raised by `float(...)` is modelled as a returned failure carrying the index of the first bad event. Propagation of the exception itself is not modelled.
- Missing keys in a record (`'name'`, `'time'`, `'buildOrder'`) cannot occur, because records are typed datatypes. A missing player id is modelled (`UnknownPlayer`).
- `nx.spring_layout` (line 53) is not modelled. It is stochastic, floating-point and a foreign library call.
- The x-coordinate overwrite and min–max normalisation (lines 56-63) and the colormap `Normalize` (line 67) are float arithmetic and are not modelled. As written, line 63 divides by `x_max - x_min` with no guard. A graph with one node, or with all first-occurrence times equal, therefore divides by zero. An empty build order makes `min([])` raise at line 61.
- Drawing, labels, colorbar, title, axis, `savefig` and the closing `print` (lines 50, 66-91) are rendering and file output. They are not modelled.
- `visualize_tech_path` (lines 95-97), `parse_replay` and `sc2reader` (lines 4-5, 96, 104), and the `__main__` block with its printing (lines 100-117) are replay I/O and command-line plumbing. They are not modelled.
- Players.GetPlayerInfo: a Python dict's insertion order is not modelled. The result is a `map`, and the loop takes the ids in an arbitrary order.
- Graph.DiGraph: the iteration order of edges and of the edge-label dictionary is not modelled. Edges are a `set`, and labels are a `map`.
