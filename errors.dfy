/** Errors returned by the graph store's fallible operations. */
module Errors {

  /** `EdgeNotFound` is what a vertex reports when no incident edge joins it to
      the requested vertex; `VertexNotFound` stands for the graph's
      "Cannot find vertexes" error string. */
  datatype GraphError = EdgeNotFound | VertexNotFound

  datatype Result<+T> = Ok(value: T) | Err(error: GraphError)
}
