/** The directed graph (`OrientedGraph`): it owns a vertex list and an edge
    list, both in insertion order. A vertex is addressed by its position in the
    vertex list (its handle) and an edge by its position in the edge list. */
module Graphs {
  import opened Wrappers
  import opened Errors
  import opened Edges
  import opened Vertices

  /** Position of the first vertex in list order whose id is `id`. */
  function FindById<T>(vs: seq<Vertex<T>>, id: nat): (r: Option<nat>)
    ensures r.None? <==> forall i :: 0 <= i < |vs| ==> vs[i].id != id
    ensures r.Some? ==> && r.value < |vs| && vs[r.value].id == id
                        && forall i :: 0 <= i < r.value ==> vs[i].id != id
    decreases |vs|
  {
    if |vs| == 0 then None
    else if vs[0].id == id then Some(0)
    else match FindById(vs[1..], id)
      case None => None
      case Some(p) => Some(p + 1)
  }

  /** Appending a vertex never changes which vertex an id already finds; the
      new vertex is found only by an id no earlier vertex has. */
  lemma {:induction false} FindByIdAppend<T>(vs: seq<Vertex<T>>, v: Vertex<T>, id: nat)
    ensures FindById(vs + [v], id) ==
            if FindById(vs, id).Some? then FindById(vs, id)
            else if v.id == id then Some(|vs|)
            else None
  {
    var ws := vs + [v];
    match FindById(vs, id)
    case Some(p) =>
      forall i | 0 <= i <= p
        ensures ws[i] == vs[i]
      {
      }
    case None =>
      forall i | 0 <= i < |vs|
        ensures ws[i].id != id
      {
        assert ws[i] == vs[i];
      }
      assert ws[|vs|] == v;
  }

  /** The endpoint handles of one edge. */
  datatype Ends = Ends(start: Option<nat>, end: Option<nat>)

  /** Every entry of the incident list of the vertex with handle `i` is the
      handle of an edge in `ends` that starts or ends at `i`. */
  predicate Consistent(inc: seq<seq<nat>>, ends: seq<Ends>)
  {
    forall i, j :: 0 <= i < |inc| && 0 <= j < |inc[i]| ==>
      inc[i][j] < |ends| && (ends[inc[i][j]].start == Some(i) || ends[inc[i][j]].end == Some(i))
  }

  /** The incident lists after edge handle `k` is appended to the list of
      vertex `s` and then to the list of vertex `e`. */
  function Register(inc: seq<seq<nat>>, s: nat, e: nat, k: nat): (r: seq<seq<nat>>)
    requires s < |inc| && e < |inc|
  {
    var withStart := inc[s := inc[s] + [k]];
    withStart[e := withStart[e] + [k]]
  }

  /** Registering an edge appends it once to each endpoint's list (twice to
      one list for a self loop) and leaves every other list as it was. */
  lemma RegisterEffect(inc: seq<seq<nat>>, s: nat, e: nat, k: nat)
    requires s < |inc| && e < |inc|
    ensures |Register(inc, s, e, k)| == |inc|
    ensures s != e ==> Register(inc, s, e, k)[s] == inc[s] + [k] && Register(inc, s, e, k)[e] == inc[e] + [k]
    ensures s == e ==> Register(inc, s, e, k)[s] == inc[s] + [k, k]
    ensures forall i :: 0 <= i < |inc| && i != s && i != e ==> Register(inc, s, e, k)[i] == inc[i]
  {
    if s == e {
      assert inc[s] + [k] + [k] == inc[s] + [k, k];
    }
  }

  /** Registering an edge `s -> e` in the incident lists of its endpoints
      keeps the lists consistent. */
  lemma {:induction false} RegisterKeepsConsistent(inc: seq<seq<nat>>, ends: seq<Ends>, s: nat, e: nat, k: nat)
    requires Consistent(inc, ends) && s < |inc| && e < |inc|
    requires k < |ends| && ends[k] == Ends(Some(s), Some(e))
    ensures Consistent(Register(inc, s, e, k), ends)
  {
    var inc' := Register(inc, s, e, k);
    RegisterEffect(inc, s, e, k);
    forall i, j | 0 <= i < |inc'| && 0 <= j < |inc'[i]|
      ensures inc'[i][j] < |ends| && (ends[inc'[i][j]].start == Some(i) || ends[inc'[i][j]].end == Some(i))
    {
      if j < |inc[i]| {
        assert inc'[i][j] == inc[i][j];
      } else {
        assert inc'[i][j] == k;
      }
    }
  }

  /** Appending an edge that no incident list names keeps them consistent. */
  lemma {:induction false} AppendEdgeKeepsConsistent(inc: seq<seq<nat>>, ends: seq<Ends>, x: Ends)
    requires Consistent(inc, ends)
    ensures Consistent(inc, ends + [x])
  {
    forall i, j | 0 <= i < |inc| && 0 <= j < |inc[i]|
      ensures (ends + [x])[inc[i][j]] == ends[inc[i][j]]
    {
    }
  }

  /** A new vertex with an empty incident list keeps the lists consistent. */
  lemma {:induction false} AddVertexKeepsConsistent(inc: seq<seq<nat>>, ends: seq<Ends>)
    requires Consistent(inc, ends)
    ensures Consistent(inc + [[]], ends)
  {
    forall i, j | 0 <= i < |inc + [[]]| && 0 <= j < |(inc + [[]])[i]|
      ensures (inc + [[]])[i][j] == inc[i][j]
    {
    }
  }

  class OrientedGraph<T, V> {
    var vertexes: seq<Vertex<T>>
    var edges: seq<OrientedEdge<V>>

    /** Vertex handles name distinct vertices, and every entry of a vertex's
        incident list is the handle of an edge of this graph that starts or
        ends at that vertex. */
    ghost predicate Valid()
      reads this, vertexes, edges
    {
      && Distinct()
      && Consistent(Incidence(), EdgeEnds())
    }

    ghost predicate Distinct()
      reads this`vertexes
    {
      forall i, j :: 0 <= i < |vertexes| && 0 <= j < |vertexes| && i != j ==> vertexes[i] != vertexes[j]
    }

    /** The incident list of every vertex, by vertex handle. */
    ghost function Incidence(): (r: seq<seq<nat>>)
      reads this`vertexes, vertexes
      ensures |r| == |vertexes|
    {
      var vs := vertexes;
      seq(|vs|, i reads vs requires 0 <= i < |vs| => vs[i].edges)
    }

    /** The endpoint handles of every edge, by edge handle. */
    ghost function EdgeEnds(): (r: seq<Ends>)
      reads this`edges, edges
      ensures |r| == |edges|
    {
      var es := edges;
      seq(|es|, k reads es requires 0 <= k < |es| => Ends(es[k].start, es[k].end))
    }

    /** An empty graph. */
    constructor ()
      ensures Valid() && vertexes == [] && edges == []
    {
      vertexes, edges := [], [];
    }

    function VertexCount(): (n: nat)
      reads this
      ensures n == |vertexes|
    {
      |vertexes|
    }

    function EdgesCount(): (n: nat)
      reads this
      ensures n == |edges|
    {
      |edges|
    }

    /** The id column of the vertex arena, which edges resolve their endpoints against. */
    function Ids(): (r: seq<nat>)
      reads this`vertexes
      ensures |r| == |vertexes|
      ensures forall h :: 0 <= h < |r| ==> r[h] == vertexes[h].id
    {
      var vs := vertexes;
      seq(|vs|, h requires 0 <= h < |vs| => vs[h].id)
    }

    /** The vertices, in insertion order. */
    function GetVertexes(): (r: seq<Vertex<T>>)
      reads this
      ensures r == vertexes && |r| == VertexCount()
      ensures forall id :: GetVertexById(id).Some? ==> GetVertexById(id).value in r
    {
      vertexes
    }

    /** The first vertex in list order with id `id`, if any. */
    function GetVertexById(id: nat): (r: Option<Vertex<T>>)
      reads this
      ensures r.None? <==> forall i :: 0 <= i < |vertexes| ==> vertexes[i].id != id
      ensures r.Some? ==> exists i :: && 0 <= i < |vertexes| && vertexes[i] == r.value && r.value.id == id
                                      && forall j :: 0 <= j < i ==> vertexes[j].id != id
    {
      match FindById(vertexes, id)
      case None => None
      case Some(p) => Some(vertexes[p])
    }

    /** Appends a new vertex with no incident edges. There is no check that
        `id` is new: a vertex whose id is already taken is never found by id. */
    method AddRawVertex(id: nat, value: T)
      requires Valid()
      modifies this
      ensures Valid()
      ensures VertexCount() == old(VertexCount()) + 1 && EdgesCount() == old(EdgesCount())
      ensures vertexes[..|old(vertexes)|] == old(vertexes) && edges == old(edges)
      ensures var v := vertexes[|old(vertexes)|];
              fresh(v) && v.id == id && v.value == value && v.edges == []
      ensures Incidence() == old(Incidence()) + [[]] && EdgeEnds() == old(EdgeEnds())
      ensures forall x :: GetVertexById(x) ==
                if old(GetVertexById(x)).Some? then old(GetVertexById(x))
                else if x == id then Some(vertexes[|old(vertexes)|])
                else None
    {
      var v := new Vertex.New(id, value);
      ghost var before := vertexes;
      vertexes := vertexes + [v];
      assert Incidence() == old(Incidence()) + [[]];
      AddVertexKeepsConsistent(old(Incidence()), EdgeEnds());
      forall x
        ensures FindById(vertexes, x) ==
                  if FindById(before, x).Some? then FindById(before, x)
                  else if v.id == x then Some(|before|)
                  else None
      {
        FindByIdAppend(before, v, x);
      }
    }

    /** Appends a pre-built edge to the edge list only: no incident list changes. */
    method AddEdge(edge: OrientedEdge<V>)
      requires Valid()
      modifies this
      ensures Valid()
      ensures EdgesCount() == old(EdgesCount()) + 1 && VertexCount() == old(VertexCount())
      ensures edges == old(edges) + [edge] && vertexes == old(vertexes)
      ensures Incidence() == old(Incidence())
      ensures EdgeEnds() == old(EdgeEnds()) + [Ends(edge.start, edge.end)]
    {
      edges := edges + [edge];
      assert EdgeEnds() == old(EdgeEnds()) + [Ends(edge.start, edge.end)];
      AppendEdgeKeepsConsistent(Incidence(), old(EdgeEnds()), Ends(edge.start, edge.end));
    }

    /** Adds an edge from the first vertex with id `start` to the first vertex
        with id `end`: it is appended to the edge list and to the incident
        lists of both endpoints. Fails with `VertexNotFound`, changing nothing,
        when either id is absent. The three appends happen in one call, so
        their order is not observable. */
    method AddEdgeWithVertexId(start: nat, end: nat, value: V) returns (r: Result<()>)
      requires Valid()
      modifies this, vertexes
      ensures Valid()
      ensures vertexes == old(vertexes)
      ensures r.Ok? <==> old(GetVertexById(start)).Some? && old(GetVertexById(end)).Some?
      ensures r.Err? ==> && r.error == VertexNotFound
                         && edges == old(edges)
                         && Incidence() == old(Incidence())
      ensures r.Ok? ==>
        var si, ei, k := FindById(old(vertexes), start).value, FindById(old(vertexes), end).value, |old(edges)|;
        && |edges| == k + 1 && edges[..k] == old(edges)
        && fresh(edges[k])
        && edges[k].start == Some(si) && edges[k].end == Some(ei) && edges[k].value == Some(value)
        && edges[k].StartId(Ids()) == Some(start) && edges[k].EndId(Ids()) == Some(end)
        && Incidence() == Register(old(Incidence()), si, ei, k)
        && EdgeEnds() == old(EdgeEnds()) + [Ends(Some(si), Some(ei))]
    {
      var si := FindById(vertexes, start);
      var ei := FindById(vertexes, end);
      if si.None? || ei.None? {
        return Err(VertexNotFound);
      }
      var edge := Connect(si.value, ei.value, value);
      r := Ok(());
    }

    /** Builds an edge from the vertex with handle `s` to the vertex with
        handle `e`, appends it to the edge list and registers it in both
        endpoints' incident lists. */
    method Connect(s: nat, e: nat, value: V) returns (edge: OrientedEdge<V>)
      requires Valid() && s < |vertexes| && e < |vertexes|
      modifies this, vertexes
      ensures Valid()
      ensures vertexes == old(vertexes)
      ensures fresh(edge) && edges == old(edges) + [edge]
      ensures edge.start == Some(s) && edge.end == Some(e) && edge.value == Some(value)
      ensures Incidence() == Register(old(Incidence()), s, e, |old(edges)|)
      ensures EdgeEnds() == old(EdgeEnds()) + [Ends(Some(s), Some(e))]
    {
      var k := |edges|;
      edge := new OrientedEdge.New(s, e, value);
      AddEdge(edge);
      RegisterIncident(s, e, k);
    }

    /** Appends edge handle `k`, an edge `s -> e` of this graph, to the
        incident list of vertex `s` and then to that of vertex `e`; no other
        vertex and no edge changes. */
    method RegisterIncident(s: nat, e: nat, k: nat)
      requires Valid() && s < |vertexes| && e < |vertexes|
      requires k < |edges| && edges[k].start == Some(s) && edges[k].end == Some(e)
      modifies vertexes[s], vertexes[e]
      ensures Valid()
      ensures Incidence() == Register(old(Incidence()), s, e, k)
      ensures edges == old(edges) && EdgeEnds() == old(EdgeEnds())
    {
      vertexes[s].AddNeighbor(k);
      vertexes[e].AddNeighbor(k);
      assert Incidence() == Register(old(Incidence()), s, e, k);
      RegisterKeepsConsistent(old(Incidence()), EdgeEnds(), s, e, k);
    }
  }

  /** In a valid graph every incident edge of a vertex has that vertex as an
      endpoint, so it resolves to the vertex's id at its start or its end. */
  lemma IncidentEdgeResolves<T, V>(g: OrientedGraph<T, V>, i: nat, j: nat)
    requires g.Valid() && i < |g.vertexes| && j < |g.vertexes[i].edges|
    ensures g.vertexes[i].edges[j] < |g.edges|
    ensures var e := g.edges[g.vertexes[i].edges[j]];
            e.StartId(g.Ids()) == Some(g.vertexes[i].id) || e.EndId(g.Ids()) == Some(g.vertexes[i].id)
  {
    var inc, ends := g.Incidence(), g.EdgeEnds();
    assert inc[i][j] == g.vertexes[i].edges[j];
    var m := inc[i][j];
    assert ends[m] == Ends(g.edges[m].start, g.edges[m].end);
  }

  /** In a valid graph an incident edge whose endpoints both resolve is found
      by the vertex's neighbour removal, given the id of the edge's other
      endpoint: removal picks that entry or an earlier one. */
  lemma IncidentEdgeIsRemovable<T, V>(g: OrientedGraph<T, V>, i: nat, j: nat)
    requires g.Valid() && i < |g.vertexes| && j < |g.vertexes[i].edges|
    requires g.vertexes[i].edges[j] < |g.edges|
    requires var e := g.edges[g.vertexes[i].edges[j]];
             e.start.Some? && e.start.value < |g.vertexes| && e.end.Some? && e.end.value < |g.vertexes|
    ensures var e := g.edges[g.vertexes[i].edges[j]];
            var other := if e.start == Some(i) then e.end.value else e.start.value;
            var p := FirstJoining(g.vertexes[i].edges, g.edges, g.Ids(), g.vertexes[i].id, g.vertexes[other].id);
            p.Some? && p.value <= j
  {
    var m := g.vertexes[i].edges[j];
    var e := g.edges[m];
    var ids := g.Ids();
    var other := if e.start == Some(i) then e.end.value else e.start.value;
    var inc, ends := g.Incidence(), g.EdgeEnds();
    assert inc[i][j] == m && ends[m] == Ends(e.start, e.end);
    assert Joins(g.edges, ids, m, g.vertexes[i].id, g.vertexes[other].id);
  }
}
