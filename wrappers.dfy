/** Optional values and results with the engine's failure kinds. */
module Wrappers {

  datatype Option<+T> = None | Some(value: T)

  /** The two ways a query of the engine fails.
      NoCluster: `getChildren` throws "No cluster with the specified id."
      MissingTree: `getClusters` reads the kd-tree of a zoom that was never built. */
  datatype Error = NoCluster | MissingTree

  datatype Result<+T> = Ok(value: T) | Err(error: Error)
}
