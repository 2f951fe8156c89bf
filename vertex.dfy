/** Vertices: an id, a payload and the ordered list of incident edges.

    The incident list holds edge handles, positions in the graph's edge arena
    `arena`; an edge is shared between that arena and the incident lists of
    its endpoints. The id and the payload never change after construction. */
module Vertices {
  import opened Wrappers
  import opened Errors
  import opened Edges

  /** The edge behind `handle` runs `a -> b` or `b -> a`, with both endpoints
      resolving in the vertex arena `ids`. */
  predicate Joins<V>(arena: seq<OrientedEdge<V>>, ids: seq<nat>, handle: nat, a: nat, b: nat)
    reads arena
  {
    && handle < |arena|
    && var e := arena[handle];
       || (e.StartId(ids) == Some(a) && e.EndId(ids) == Some(b))
       || (e.StartId(ids) == Some(b) && e.EndId(ids) == Some(a))
  }

  /** Position of the first handle in `list` whose edge joins `a` and `b`. */
  function FirstJoining<V>(list: seq<nat>, arena: seq<OrientedEdge<V>>, ids: seq<nat>, a: nat, b: nat): (r: Option<nat>)
    reads arena
    ensures r.None? <==> forall i :: 0 <= i < |list| ==> !Joins(arena, ids, list[i], a, b)
    ensures r.Some? ==> && r.value < |list|
                        && Joins(arena, ids, list[r.value], a, b)
                        && forall i :: 0 <= i < r.value ==> !Joins(arena, ids, list[i], a, b)
    decreases |list|
  {
    if |list| == 0 then None
    else if Joins(arena, ids, list[0], a, b) then Some(0)
    else match FirstJoining(list[1..], arena, ids, a, b)
      case None => None
      case Some(p) => Some(p + 1)
  }

  /** `list` without its entry at position `p` (`Vec::remove`). */
  function RemoveAt(list: seq<nat>, p: nat): (r: seq<nat>)
    requires p < |list|
    ensures |r| == |list| - 1
    ensures forall i :: 0 <= i < p ==> r[i] == list[i]
    ensures forall i :: p <= i < |r| ==> r[i] == list[i + 1]
    ensures multiset(r) + multiset{list[p]} == multiset(list)
  {
    assert list == list[..p] + [list[p]] + list[p + 1..];
    list[..p] + list[p + 1..]
  }

  /** Removing a neighbour undoes adding it: when no edge already in the list
      joins `a` and `b`, an appended edge that does is the one found, and
      removing it gives back the original list. */
  lemma {:induction false} RemoveUndoesAdd<V>(list: seq<nat>, arena: seq<OrientedEdge<V>>, ids: seq<nat>, k: nat, a: nat, b: nat)
    requires FirstJoining(list, arena, ids, a, b).None?
    requires Joins(arena, ids, k, a, b)
    ensures FirstJoining(list + [k], arena, ids, a, b) == Some(|list|)
    ensures RemoveAt(list + [k], |list|) == list
  {
    var ext := list + [k];
    forall i | 0 <= i < |list|
      ensures !Joins(arena, ids, ext[i], a, b)
    {
      assert ext[i] == list[i];
    }
    assert ext[|list|] == k;
    assert ext[..|list|] == list;
  }

  /** An edge with an endpoint that does not resolve never joins two vertices. */
  lemma DanglingNeverJoins<V>(arena: seq<OrientedEdge<V>>, ids: seq<nat>, handle: nat, a: nat, b: nat)
    requires handle < |arena|
    requires arena[handle].StartId(ids).None? || arena[handle].EndId(ids).None?
    ensures !Joins(arena, ids, handle, a, b)
  {
  }

  class Vertex<T> {
    const id: nat
    const value: T
    var edges: seq<nat>

    /** A vertex with no incident edges. */
    constructor New(id: nat, value: T)
      ensures this.id == id && this.value == value && edges == []
    {
      this.id, this.value := id, value;
      edges := [];
    }

    /** Appends an edge handle to the incident list. */
    method AddNeighbor(handle: nat)
      modifies this
      ensures edges == old(edges) + [handle]
    {
      edges := edges + [handle];
    }

    /** Removes the first incident edge that joins this vertex and the vertex
        with id `removeId`, in either direction. */
    method RemoveNeighborByPosition<V>(removeId: nat, arena: seq<OrientedEdge<V>>, ids: seq<nat>)
      returns (r: Result<()>)
      modifies this
      ensures match FirstJoining(old(edges), arena, ids, id, removeId)
              case None => r == Err(EdgeNotFound) && edges == old(edges)
              case Some(p) => r == Ok(()) && edges == RemoveAt(old(edges), p)
    {
      var pos := 0;
      while pos < |edges| && !Joins(arena, ids, edges[pos], id, removeId)
        invariant pos <= |edges|
        invariant forall i :: 0 <= i < pos ==> !Joins(arena, ids, edges[i], id, removeId)
      {
        pos := pos + 1;
      }
      if pos < |edges| {
        edges := RemoveAt(edges, pos);
        return Ok(());
      }
      return Err(EdgeNotFound);
    }
  }
}
