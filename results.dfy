/** Optional values and the failures the search can raise. */
module Results {

  /** Python's `None` or a value: the previous edge, a node's parent. */
  datatype Option<+T> = None | Some(value: T)

  /** The exceptions that `astar_path` and `astar_path_length` let escape. */
  datatype Error =
    | NodeNotFound    // source or target is not a node of the graph
    | NoPath          // the queue emptied without the target being popped
    | NotImplemented  // an attribute-name weight was asked for on a multigraph
    | WeightFailed    // the weight function raised (KeyError for a missing edge attribute, a division by zero)
    | MissingKey      // a lookup in `explored`, `enqueued` or the adjacency raised KeyError
    | OutOfFuel       // the main loop ran more iterations than the caller's bound
    | ParentCycle     // the parent walk revisits a node, so it would never end

  datatype Result<+T> = Success(value: T) | Failure(error: Error)
}
