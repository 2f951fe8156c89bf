# graph-lib: a verified model of the directed-graph store

This project models the directed-graph store of `graph-lib`. It has three parts that refer to each other:

- **`OrientedEdge`** (module `Edges`, `edge.dfy`): an edge with weak start and end references to vertices and an optional payload.
- **`Vertex`** (module `Vertices`, `vertex.dfy`): an id, a payload and the ordered list of incident edges.
- **`OrientedGraph`** (module `Graphs`, `graph.dfy`): owns the vertex list and the edge list.

The graph's mutators keep three collections in step: the edge list and the incident lists of an edge's start and end vertex.

Shared and weak references (`Rc`, `Weak`, `RefCell`) become handles into two arenas:

- An edge endpoint is `Option<nat>`. It holds the position of a vertex in the graph's vertex list, or `None` when the endpoint was never set.
  - Positions are used rather than ids because vertex ids are not required to be unique.
  - Resolving an endpoint (`Weak::upgrade`) takes the arena's id column `ids`. A handle at or beyond `|ids|` stands for a vertex outside the graph, and it does not resolve. Vertices are never removed, so such a handle starts to resolve once the vertex list grows to reach it.
- A vertex's incident list is a `seq<nat>` of edge handles, which are positions in the graph's edge list.
- Vertex and edge objects are Dafny classes. The methods that change them in the library (`add_neighbor`, `remove_neighbor_by_position`, `set_start`, `set_end`, `value_mut`, `add_edge`, `add_edge_with_vertex_id`) are methods with `modifies` clauses. Each method states the whole new state.

The graph invariant, `OrientedGraph.Valid`, is stated on two values:

- `Incidence()` is every vertex's incident list, by vertex handle.
- `EdgeEnds()` is every edge's endpoint handles, by edge handle.

`Valid` says two things. The vertex objects are pairwise distinct. Every entry of a vertex's incident list names an edge of the graph that starts or ends at that vertex (`Consistent`). Every mutator of the graph preserves `Valid`.

Module `Scenarios` (`scenarios.dfy`) replays the library's test cases (`tests/src/lib.rs`) as client code, with the outcomes asserted:

- the vertex and edge counts of the two-vertex graph;
- looking up id 1 and id 5;
- adding two raw vertices;
- re-adding the pair 1 → 2.

Two more scenarios are the model's own, not library tests: an edge to a missing vertex (`MissingVertexScenario`) and a neighbour removed twice (`RemoveNeighborScenario`).

The tests build their graph by decoding text. The scenarios build the same graph with the graph's own operations instead.

## Model

| member | source | states |
|---|---|---|
| Edges.Upgrade | graph-lib/src/edge.rs:66 | a weak endpoint resolves exactly when it is set and its position lies inside the vertex arena, and then to that same handle |
| Edges.OrientedEdge.Default | graph-lib/src/edge.rs:31-39 | the default edge has no start, no end and no payload; its start id and end id are `None` against every arena |
| Edges.OrientedEdge.New | graph-lib/src/edge.rs:42-52 | the edge from `s` to `e` carries payload `Some(v)`, and against any arena holding both vertices its start id is the id of `s` and its end id the id of `e` |
| Edges.OrientedEdge.NewWithValue | graph-lib/src/edge.rs:54-59 | payload `Some(v)`, both endpoints unset, so both ids are `None` against every arena |
| Edges.OrientedEdge.Start | graph-lib/src/edge.rs:87-89 | the start vertex is returned exactly when it is set and lies inside the vertex arena |
| Edges.OrientedEdge.End | graph-lib/src/edge.rs:65-67 | the end vertex is returned exactly when it is set and lies inside the vertex arena |
| Edges.OrientedEdge.StartId | graph-lib/src/edge.rs:91-93 | `None` exactly when the start vertex does not resolve; otherwise the current id of that vertex |
| Edges.OrientedEdge.EndId | graph-lib/src/edge.rs:69-71 | `None` exactly when the end vertex does not resolve; otherwise the current id of that vertex |
| Edges.OrientedEdge.SetStart | graph-lib/src/edge.rs:95-97 | the start becomes the given vertex, so the start id is that vertex's id in any arena holding it; end and payload are unchanged |
| Edges.OrientedEdge.SetEnd | graph-lib/src/edge.rs:73-75 | the end becomes the given vertex, so the end id is that vertex's id in any arena holding it; start and payload are unchanged |
| Edges.OrientedEdge.WriteValue | graph-lib/src/edge.rs:77-83 | a mutable payload reference exists exactly when the edge has a payload; the value written through it is what `value` then holds; endpoints are unchanged |
| Vertices.FirstJoining | graph-lib/src/vertex.rs:60-63 | `Iterator::position` over the incident list: `None` exactly when no entry joins the two vertices in either direction, else the first entry that does |
| Vertices.RemoveAt | graph-lib/src/vertex.rs:65 | `Vec::remove`: one entry fewer, entries before the position keep their place, later ones shift down by one, and exactly the removed entry leaves the multiset |
| Vertices.RemoveUndoesAdd | graph-lib/src/vertex.rs:47-69 | when no incident edge joins `a` and `b`, appending an edge that does and then removing by `b`'s id finds that edge and restores the original list |
| Vertices.DanglingNeverJoins | graph-lib/src/vertex.rs:62-63 | an edge whose start or end does not resolve never matches a removal, since the comparisons are against `Some(..)` ids |
| Vertices.Vertex.New | graph-lib/src/vertex.rs:31-37 | the new vertex has the given id and value and an empty incident list |
| Vertices.Vertex.AddNeighbor | graph-lib/src/vertex.rs:47-49 | the handle is appended at the end: the length grows by one and every earlier entry keeps its position; id and value are constants |
| Vertices.Vertex.RemoveNeighborByPosition | graph-lib/src/vertex.rs:59-69 | when an incident edge joins this vertex and `remove_id` either way, the first such entry is removed and the call returns `Ok`; otherwise it returns `EdgeNotFound` and the list is unchanged |
| Graphs.FindById | graph-lib/src/graph.rs:42-44 | `Iterator::find` by id: `None` exactly when no vertex has the id, else the position of the first one that does |
| Graphs.FindByIdAppend | graph-lib/src/graph.rs:42-44 | appending a vertex never changes what an existing id finds; the new vertex is found only by an id no earlier vertex has |
| Graphs.RegisterEffect | graph-lib/src/graph.rs:55-56 | registering edge `k` appends it to the start's list and to the end's list (twice to one list for a self loop) and leaves every other list alone |
| Graphs.RegisterKeepsConsistent | graph-lib/src/graph.rs:54-56 | registering an edge `s -> e` in its endpoints' lists keeps every incident entry pointing at an edge that starts or ends at that vertex |
| Graphs.AppendEdgeKeepsConsistent | graph-lib/src/graph.rs:46-48 | appending an edge to the edge list keeps every incident list consistent |
| Graphs.AddVertexKeepsConsistent | graph-lib/src/vertex.rs:31-37 | a new vertex with an empty incident list keeps the lists consistent |
| Graphs.OrientedGraph.constructor | graph-lib/src/graph.rs:21-24 | an empty graph is valid |
| Graphs.OrientedGraph.VertexCount | graph-lib/src/graph.rs:30-32 | the vertex count is the length of the vertex list |
| Graphs.OrientedGraph.EdgesCount | graph-lib/src/graph.rs:34-36 | the edge count is the length of the edge list |
| Graphs.OrientedGraph.GetVertexes | graph-lib/src/graph.rs:38-40 | exactly the vertex list, in insertion order; so its length is the vertex count and it holds every vertex a lookup by id can return |
| Graphs.OrientedGraph.GetVertexById | graph-lib/src/graph.rs:42-44 | `None` exactly when no vertex has the id; otherwise the first vertex in list order that has it |
| Graphs.OrientedGraph.AddRawVertex | tests/src/lib.rs:45-50 | the vertex count grows by one; the new vertex is `Vertex::new(id, value)`; earlier vertices, all incident lists and the edge list are unchanged; lookups by id change only for an id no vertex had; validity is kept |
| Graphs.OrientedGraph.AddEdge | graph-lib/src/graph.rs:46-48 | the edge is appended to the edge list only: the edge count grows by one, vertices and incident lists are unchanged, validity is kept |
| Graphs.OrientedGraph.AddEdgeWithVertexId | graph-lib/src/graph.rs:50-62 | succeeds exactly when both ids name vertices. It then appends one new edge from the first vertex with id `start` to the first with id `end`, whose start and end ids are `start` and `end`, and registers it at the end of both endpoints' incident lists. No other list changes. There is no duplicate check. Otherwise it returns `VertexNotFound` and changes nothing. Validity is kept either way |
| Graphs.OrientedGraph.Connect | graph-lib/src/graph.rs:54-57 | builds the edge `s -> e` with the payload, appends it to the edge list and registers it in both endpoints' incident lists, keeping validity |
| Graphs.OrientedGraph.RegisterIncident | graph-lib/src/graph.rs:55-56 | appends an existing edge `s -> e` to the incident lists of `s` and then `e`, keeping validity; the edge list is unchanged |
| Graphs.IncidentEdgeResolves | graph-lib/src/graph.rs:54-56 | in a valid graph every incident edge of a vertex is in the edge list, and its start id or end id is that vertex's id |
| Graphs.IncidentEdgeIsRemovable | graph-lib/src/vertex.rs:59-66 | in a valid graph, removing a vertex's neighbour by the id of an incident edge's other endpoint finds that entry or an earlier one |

## Left out

- `find_neighbor` (graph-lib/src/vertex.rs:51-53) has an empty body and `remove_neighbor` (graph-lib/src/vertex.rs:55-57) is `todo!()`. Neither has behaviour to state.
- `get_edges`, `id` and `value` of a vertex, and `value` of an edge, are reads of the fields `edges`, `id`, `value` and `value`. A vertex's `id` and `value` are `const`, so adding and removing neighbours cannot change them.
- Reference counting and borrow checking (`Rc`, `RefCell`, `Weak`) are replaced by arena handles. The model never frees a vertex object, so a dangling endpoint shows up only as an unset endpoint or a handle outside the arena.
- Edges.Upgrade: a `Weak::upgrade` that has failed never succeeds later, and an edge to a live vertex outside the graph resolves to that vertex's id. In the model an out-of-range handle stands for a vertex outside the graph and resolves to nothing. Because vertices are never removed, it comes to life once the vertex list grows to reach it.
- Vertices.Vertex.RemoveNeighborByPosition and Graphs.IncidentEdgeIsRemovable give the intended outcome of a removal without `RefCell` borrows. In the library the vertex is mutably borrowed during `remove_neighbor_by_position`, and the search closure calls `start_id`/`end_id`, which borrow each endpoint's `RefCell` (graph-lib/src/vertex.rs:61-62, graph-lib/src/edge.rs:70, 92). For an incident edge whose endpoint is the vertex itself, that second borrow would panic. The model does not capture that panic.
- `usize` is modelled as `nat`, without the 64-bit bound.
- `add_edge` moves the edge into a new `Rc`. The model appends the given edge object itself.
- Graphs.OrientedGraph.AddEdgeWithVertexId takes a payload `value`. The library's tests call it with three arguments and `OrientedEdge::new` needs a payload, while graph-lib/src/graph.rs:50 declares two arguments. graph-lib/src/graph.rs also names `OrientedEdge<T>` with one type parameter and calls `add_neighbor` through a shared `Rc`. The model follows the evident intent: both endpoints' incident lists are appended to.
- Graphs.OrientedGraph.AddEdgeWithVertexId reports its `String` error "Cannot find vertexes" as `VertexNotFound`. graph-lib/src/error.rs as shown holds only parse errors. The `GraphError::EdgeNotFound` that neighbour removal returns (graph-lib/src/vertex.rs:67) is modelled as `EdgeNotFound`.
- Graphs.OrientedGraph.constructor: the library has no constructor. Its graphs come from the text decoder. The model adds an empty graph so that graphs can be built.
- Graphs.OrientedGraph.AddRawVertex: the tests call `add_raw_vertex` but none of the source files defines it. It is modelled as appending `Vertex::new(id, value)`, with no check that the id is new.
- The text encoder and decoder (graph-lib/src/serde.rs has signatures only), the command-line demo (graph-file/src/main.rs), `Debug` formatting, and the earlier stubs under src/ are not part of this model.
- Vertex removal, depth-first traversal, duplicate-edge rejection and id uniqueness are not implemented in the library, so they are not modelled.
