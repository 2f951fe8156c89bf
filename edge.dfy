/** Directed edges (`OrientedEdge`).

    An edge does not own its endpoints. Each endpoint is a handle: the position
    of a vertex in the graph's vertex arena, or `None` for an endpoint that was
    never set. Resolving a handle (`Weak::upgrade`) takes the arena's id column
    `ids`, where `ids[h]` is the id of the vertex with handle `h`; a handle at or
    beyond `|ids|` stands for a vertex outside the arena and does not resolve.
    Vertices are never removed from the arena, so such a handle resolves once
    the arena has grown to reach it. */
module Edges {
  import opened Wrappers

  /** Resolves a weak endpoint handle against a vertex arena of size `|ids|`:
      only a set handle inside the arena resolves. */
  function Upgrade(handle: Option<nat>, ids: seq<nat>): (r: Option<nat>)
    ensures r.Some? <==> handle.Some? && handle.value < |ids|
    ensures r.Some? ==> r == handle
  {
    if handle.Some? && handle.value < |ids| then handle else None
  }

  class OrientedEdge<V> {
    var start: Option<nat>
    var end: Option<nat>
    var value: Option<V>

    /** An edge with neither endpoint set and no payload. */
    constructor Default()
      ensures start == None && end == None && value == None
      ensures forall ids: seq<nat> :: StartId(ids) == None && EndId(ids) == None
    {
      start, end, value := None, None, None;
    }

    /** An edge from the vertex with handle `start` to the one with handle `end`. */
    constructor New(start: nat, end: nat, value: V)
      ensures this.start == Some(start) && this.end == Some(end) && this.value == Some(value)
      ensures forall ids: seq<nat> :: start < |ids| ==> StartId(ids) == Some(ids[start])
      ensures forall ids: seq<nat> :: end < |ids| ==> EndId(ids) == Some(ids[end])
    {
      this.start, this.end, this.value := Some(start), Some(end), Some(value);
    }

    /** A default edge that carries a payload. */
    constructor NewWithValue(value: V)
      ensures start == None && end == None && this.value == Some(value)
      ensures forall ids: seq<nat> :: StartId(ids) == None && EndId(ids) == None
    {
      start, end, this.value := None, None, Some(value);
    }

    /** The start vertex's handle, if it still resolves. */
    function Start(ids: seq<nat>): (r: Option<nat>)
      reads this
      ensures r.Some? <==> start.Some? && start.value < |ids|
      ensures r.Some? ==> r == start
    {
      Upgrade(start, ids)
    }

    /** The end vertex's handle, if it still resolves. */
    function End(ids: seq<nat>): (r: Option<nat>)
      reads this
      ensures r.Some? <==> end.Some? && end.value < |ids|
      ensures r.Some? ==> r == end
    {
      Upgrade(end, ids)
    }

    /** The current id of the start vertex; `None` exactly when it does not resolve. */
    function StartId(ids: seq<nat>): (r: Option<nat>)
      reads this
      ensures r.None? <==> Start(ids).None?
      ensures r.Some? ==> start.Some? && start.value < |ids| && r.value == ids[start.value]
    {
      match Start(ids)
      case None => None
      case Some(h) => Some(ids[h])
    }

    /** The current id of the end vertex; `None` exactly when it does not resolve. */
    function EndId(ids: seq<nat>): (r: Option<nat>)
      reads this
      ensures r.None? <==> End(ids).None?
      ensures r.Some? ==> end.Some? && end.value < |ids| && r.value == ids[end.value]
    {
      match End(ids)
      case None => None
      case Some(h) => Some(ids[h])
    }

    /** Rebinds the start endpoint to the vertex with handle `vertex`. */
    method SetStart(vertex: nat)
      modifies this
      ensures start == Some(vertex) && end == old(end) && value == old(value)
      ensures forall ids: seq<nat> :: vertex < |ids| ==> StartId(ids) == Some(ids[vertex])
    {
      start := Some(vertex);
    }

    /** Rebinds the end endpoint to the vertex with handle `vertex`. */
    method SetEnd(vertex: nat)
      modifies this
      ensures end == Some(vertex) && start == old(start) && value == old(value)
      ensures forall ids: seq<nat> :: vertex < |ids| ==> EndId(ids) == Some(ids[vertex])
    {
      end := Some(vertex);
    }

    /** Writes `v` through the mutable payload reference. There is such a
        reference only when the edge carries a payload; `written` says whether
        there was one. */
    method WriteValue(v: V) returns (written: bool)
      modifies this
      ensures written <==> old(value).Some?
      ensures value == if written then Some(v) else old(value)
      ensures start == old(start) && end == old(end)
    {
      written := value.Some?;
      if written {
        value := Some(v);
      }
    }
  }
}
