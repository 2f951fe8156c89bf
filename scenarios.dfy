/** The graph library's test cases, replayed against the model, followed by
    two scenarios of the model's own (a missing endpoint, a neighbour removed
    twice). The library's tests start from a decoded two-vertex graph; here
    that graph is built with the graph's own operations instead. */
module Scenarios {
  import opened Wrappers
  import opened Errors
  import opened Edges
  import opened Vertices
  import opened Graphs

  /** Vertices 1 and 2 and one edge 1 -> 2. */
  method TwoVertexGraph() returns (g: OrientedGraph<string, string>)
    ensures fresh(g) && fresh(g.vertexes) && g.Valid()
    ensures g.Ids() == [1, 2] && g.EdgesCount() == 1
  {
    g := new OrientedGraph();
    g.AddRawVertex(1, "First node");
    g.AddRawVertex(2, "Second node");
    assert g.Ids() == [1, 2];
    var r := g.AddEdgeWithVertexId(1, 2, "Edge between the two");
  }

  method GetVertexByIdScenario() {
    var g := TwoVertexGraph();
    assert g.Ids()[0] == 1;
    assert g.GetVertexById(1).Some?;
    assert g.GetVertexById(5).None?;
  }

  method AddRawVertexScenario() {
    var g := TwoVertexGraph();
    g.AddRawVertex(4, "Test");
    g.AddRawVertex(5, "Test1");
    assert g.VertexCount() == 4;
  }

  /** The two-vertex graph with a third vertex, 3, added. */
  method ThreeVertexGraph() returns (g: OrientedGraph<string, string>)
    ensures fresh(g) && fresh(g.vertexes) && g.Valid()
    ensures g.Ids() == [1, 2, 3] && g.EdgesCount() == 1
  {
    g := TwoVertexGraph();
    assert g.Ids()[0] == 1 && g.Ids()[1] == 2;
    g.AddRawVertex(3, "Test");
    assert g.Ids() == [1, 2, 3];
  }

  /** Adding 1 -> 2 a second time is accepted, like any other edge. */
  method AddEdgeWithVertexIdScenario() {
    var g := ThreeVertexGraph();
    assert g.Ids()[0] == 1 && g.Ids()[1] == 2 && g.Ids()[2] == 3;
    var r := g.AddEdgeWithVertexId(1, 2, "Edge 1-2");
    assert r.Ok? && g.EdgesCount() == 2;
    assert g.Ids()[1] == 2 && g.Ids()[2] == 3;
    r := g.AddEdgeWithVertexId(2, 3, "Edge 2-3");
    assert r.Ok? && g.EdgesCount() == 3;
  }

  method MissingVertexScenario() {
    var g := TwoVertexGraph();
    assert g.Ids()[0] == 1;
    var r := g.AddEdgeWithVertexId(1, 7, "Edge 1-7");
    assert r == Err(VertexNotFound);
    assert g.EdgesCount() == 1;
  }

  /** Vertex 2, whose only incident edge runs from vertex 1, removes that
      edge once; a second removal finds nothing. */
  method RemoveNeighborScenario() {
    var edge := new OrientedEdge.New(0, 1, "Edge 1-2");
    var v := new Vertex.New(2, "Second node");
    v.AddNeighbor(0);
    var arena, ids := [edge], [1, 2];
    assert Joins(arena, ids, 0, 2, 1);
    var r := v.RemoveNeighborByPosition(1, arena, ids);
    assert r == Ok(()) && v.edges == [];
    r := v.RemoveNeighborByPosition(1, arena, ids);
    assert r == Err(EdgeNotFound);
  }
}
