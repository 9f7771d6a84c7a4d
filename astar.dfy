/**
 * The two entry points, `astar_path` and `astar_path_length`, written the
 * way the code runs them: a `while` loop over a queue, two dictionaries
 * updated in place, a counter, and a parent walk that appends and reverses.
 */
module AStar {
  import opened Results
  import opened Graphs
  import opened Weights
  import opened Frontier
  import opened Search
  import opened Soundness
  import opened Completeness

  ghost predicate NoDuplicates<T>(s: seq<T>) {
    forall i, j :: 0 <= i < j < |s| ==> s[i] != s[j]
  }

  /**
   * The reconstruction when the target is popped: append parents to `path`
   * until the `None` marker, then reverse. A walk longer than `explored` has
   * keys is going round a cycle and is cut off with ParentCycle.
   */
  method ReconstructPath<N>(explored: map<N, Option<N>>, target: N, parent: Option<N>) returns (r: Result<seq<N>>)
    ensures r == Reconstruct(explored, target, parent)
  {
    var path := [target];
    var node := parent;
    var budget: nat := |explored|;
    while node.Some?
      invariant WalkParents(explored, node, budget, path) == WalkParents(explored, parent, |explored|, [target])
      decreases budget
    {
      if node.value !in explored {
        return Failure(MissingKey);
      }
      if budget == 0 {
        return Failure(ParentCycle);
      }
      path := path + [node.value];
      node := explored[node.value];
      budget := budget - 1;
    }
    r := Success(Reversed(path));
  }

  /**
   * The loop over the neighbours of a finalized entry `e`: charge each edge,
   * push the neighbours that are new or now cheaper, and evaluate the
   * heuristic only for nodes not yet enqueued. `failed` when the weight
   * function raised.
   */
  method RelaxNeighbours<N>(g: Graph<N>, w: WeightFn<N>, h: HeuristicFn<N>, target: N, e: Entry<N>, nbrs: seq<N>,
                            queue0: seq<Entry<N>>, enqueued0: map<N, Enq>, explored: map<N, Option<N>>, c0: nat,
                            ghost calls0: seq<N>)
    returns (failed: bool, queue: seq<Entry<N>>, enqueued: map<N, Enq>, c: nat, ghost calls: seq<N>)
    requires NoDuplicates(calls0)
    requires forall n :: n in calls0 <==> n in enqueued0
    ensures var spec := RelaxAll(g, w, h, target, e, nbrs, State(queue0, enqueued0, explored, c0));
            && (failed <==> spec.Failure?)
            && (!failed ==> spec.value == State(queue, enqueued, explored, c))
    ensures NoDuplicates(calls)
    ensures forall n :: n in calls <==> n in enqueued
    ensures |calls0| <= |calls| && calls[..|calls0|] == calls0
  {
    queue, enqueued, c, calls := queue0, enqueued0, c0, calls0;
    var k := 0;
    while k < |nbrs|
      invariant 0 <= k <= |nbrs|
      invariant RelaxAll(g, w, h, target, e, nbrs[k..], State(queue, enqueued, explored, c))
                == RelaxAll(g, w, h, target, e, nbrs, State(queue0, enqueued0, explored, c0))
      invariant NoDuplicates(calls)
      invariant forall n :: n in calls <==> n in enqueued
      invariant |calls0| <= |calls| && calls[..|calls0|] == calls0
    {
      var nb := nbrs[k];
      var prevEdge := PrevEdge(e.trail, e.node);
      var cost := w(g, prevEdge, (e.node, nb));
      if cost.None? {
        return true, queue, enqueued, c, calls;
      }
      var ncost := e.dist + cost.value;
      if nb !in enqueued || ncost < enqueued[nb].cost {
        var hv: real;
        if nb in enqueued {
          hv := enqueued[nb].h;
        } else {
          hv := h(nb, target);
          calls := calls + [nb];
        }
        enqueued := enqueued[nb := Enq(ncost, hv)];
        queue := queue + [Entry(ncost + hv, c, nb, ncost, Some(e.node), e.trail + [nb])];
        c := c + 1;
      }
      assert nbrs[k..][1..] == nbrs[k + 1..];
      k := k + 1;
    }
    failed := false;
  }

  /**
   * One iteration of the main loop of `astar_path`: pop the best entry,
   * reconstruct the path when it is the target, skip it when its node is the
   * source or was reached more cheaply since, otherwise finalize its node and
   * relax its neighbours. `done` when the loop returns with `r`.
   */
  method Iterate<N>(g: Graph<N>, w: WeightFn<N>, h: HeuristicFn<N>, target: N,
                    queue0: seq<Entry<N>>, enqueued0: map<N, Enq>, explored0: map<N, Option<N>>, c0: nat,
                    ghost calls0: seq<N>)
    returns (done: bool, r: Result<seq<N>>,
             queue: seq<Entry<N>>, enqueued: map<N, Enq>, explored: map<N, Option<N>>, c: nat, ghost calls: seq<N>)
    requires |queue0| > 0
    requires NoDuplicates(calls0)
    requires forall n :: n in calls0 <==> n in enqueued0
    ensures Step(g, w, h, target, State(queue0, enqueued0, explored0, c0))
            == if done then Finish(r) else Continue(State(queue, enqueued, explored, c))
    ensures NoDuplicates(calls)
    ensures forall n :: n in calls <==> n in enqueued
    ensures |calls0| <= |calls| && calls[..|calls0|] == calls0
  {
    queue, enqueued, explored, c, calls := queue0, enqueued0, explored0, c0, calls0;
    done, r := true, Failure(MissingKey);
    var i := MinIndex(queue);
    var e := queue[i];
    queue := RemoveAt(queue, i);

    if e.node == target {
      r := ReconstructPath(explored, e.node, e.parent);
      return;
    }

    if e.node in explored {
      if explored[e.node].None? {
        // the source keeps its None marker
        done := false;
        return;
      }
      if e.node !in enqueued {
        return;
      }
      if enqueued[e.node].cost < e.dist {
        // a cheaper entry for this node was pushed after this one
        done := false;
        return;
      }
    }

    if e.node !in g.adj {
      return;
    }
    explored := explored[e.node := e.parent];
    ghost var before := State(queue0, enqueued0, explored0, c0);
    ghost var popped := before.(queue := RemoveAt(queue0, i));
    assert popped.(explored := popped.explored[e.node := e.parent]) == State(queue, enqueued, explored, c);
    RelaxAllSpec(g, w, h, target, e, g.adj[e.node], State(queue, enqueued, explored, c));
    var failed;
    failed, queue, enqueued, c, calls :=
      RelaxNeighbours(g, w, h, target, e, g.adj[e.node], queue, enqueued, explored, c, calls);
    if failed {
      r := Failure(WeightFailed);
    } else {
      done := false;
    }
  }

  /**
   * The main loop of `astar_path`, from the single initial entry until the
   * target is popped or the queue is empty, for at most `fuel` iterations.
   * `heuristicCalls` lists the nodes the heuristic was evaluated on, in
   * order: none of them twice.
   */
  method RunSearch<N>(g: Graph<N>, w: WeightFn<N>, h: HeuristicFn<N>, source: N, target: N, fuel: nat)
    returns (r: Result<seq<N>>, ghost heuristicCalls: seq<N>)
    ensures r == Run(g, w, h, target, Init(source), fuel)
    ensures NoDuplicates(heuristicCalls)
  {
    heuristicCalls := [];
    var c: nat := 0;
    var queue := [Entry(0.0, c, source, 0.0, None, [source])];
    c := c + 1;
    var enqueued: map<N, Enq> := map[];
    var explored: map<N, Option<N>> := map[];
    var fuelLeft := fuel;
    while |queue| > 0
      invariant Run(g, w, h, target, State(queue, enqueued, explored, c), fuelLeft) == Run(g, w, h, target, Init(source), fuel)
      invariant NoDuplicates(heuristicCalls)
      invariant forall n :: n in heuristicCalls <==> n in enqueued
      decreases fuelLeft
    {
      if fuelLeft == 0 {
        return Failure(OutOfFuel), heuristicCalls;
      }
      var done;
      done, r, queue, enqueued, explored, c, heuristicCalls :=
        Iterate(g, w, h, target, queue, enqueued, explored, c, heuristicCalls);
      if done {
        return r, heuristicCalls;
      }
      fuelLeft := fuelLeft - 1;
    }
    return Failure(NoPath), heuristicCalls;
  }

  /**
   * `astar_path`. NodeNotFound exactly when an endpoint is missing;
   * NotImplemented exactly for an attribute weight on a multigraph; a
   * returned path starts at the source, ends at the target and follows
   * edges of the graph; NetworkXNoPath only when no such path exists, and
   * when none exists no path is returned and no parent cycle is met.
   */
  method AStarPath<N>(g: Graph<N>, source: N, target: N, heuristic: Option<HeuristicFn<N>>, weight: WeightSpec<N>, fuel: nat)
    returns (r: Result<seq<N>>)
    requires ValidGraph(g)
    ensures r == AStarSpec(g, source, target, heuristic, weight, fuel)
    ensures r == Failure(NodeNotFound) <==> source !in g.adj || target !in g.adj
    ensures r == Failure(NotImplemented) <==> source in g.adj && target in g.adj && weight.Attribute? && g.isMultigraph
    ensures r != Failure(MissingKey)
    ensures r.Success? ==> IsPathFromTo(g, r.value, source, target)
    ensures r == Failure(NoPath) ==> forall p :: !IsPathFromTo(g, p, source, target)
    ensures source in g.adj && target in g.adj && (forall p :: !IsPathFromTo(g, p, source, target)) ==>
              r == Failure(NoPath) || r == Failure(WeightFailed) || r == Failure(NotImplemented) || r == Failure(OutOfFuel)
  {
    if source !in g.adj || target !in g.adj {
      r := Failure(NodeNotFound);
    } else {
      var h := HeuristicOrDefault(heuristic);
      var resolved := ResolveWeight(g, weight);
      if resolved.Failure? {
        r := Failure(resolved.error);
      } else {
        ghost var calls;
        r, calls := RunSearch(g, resolved.value, h, source, target, fuel);
      }
    }
    AStarPathSound(g, source, target, heuristic, weight, fuel);
    AStarPathComplete(g, source, target, heuristic, weight, fuel);
  }

  /**
   * `astar_path_length`: the cost of the path `astar_path` returns for the
   * same arguments, replayed edge by edge with each edge's predecessor.
   */
  method AStarPathLength<N>(g: Graph<N>, source: N, target: N, heuristic: Option<HeuristicFn<N>>, weight: WeightSpec<N>, fuel: nat)
    returns (r: Result<real>)
    requires ValidGraph(g)
    ensures r == AStarLengthSpec(g, source, target, heuristic, weight, fuel)
    ensures r == Failure(NodeNotFound) <==> source !in g.adj || target !in g.adj
    ensures var p := AStarSpec(g, source, target, heuristic, weight, fuel);
            && (p.Failure? ==> r == Failure(p.error))
            && (p.Success? ==> r == OptionToResult(TrailCost(ResolveWeight(g, weight).value, g, p.value)))
  {
    AStarLengthReplaysPath(g, source, target, heuristic, weight, fuel);
    AStarPathSound(g, source, target, heuristic, weight, fuel);
    if source !in g.adj || target !in g.adj {
      return Failure(NodeNotFound);
    }
    var resolved := ResolveWeight(g, weight);
    if resolved.Failure? {
      return Failure(resolved.error);
    }
    var path := AStarPath(g, source, target, heuristic, Callable(resolved.value), fuel);
    if path.Failure? {
      return Failure(path.error);
    }
    r := PathLength(resolved.value, g, path.value);
  }
}
