/**
 * What the search promises: the path it returns, the failures it raises,
 * when the parent walk cannot end, and how the length entry point relates
 * to the path entry point.
 */
module Soundness {
  import opened Results
  import opened Graphs
  import opened Weights
  import opened Frontier
  import opened Search
  import opened SearchInvariants

  /**
   * The parent walk collects nodes from the target back towards the source,
   * each an explored parent of the one before, and stops at the source.
   */
  lemma {:induction false} WalkParentsSound<N>(g: Graph<N>, source: N, explored: map<N, Option<N>>,
                                               node: Option<N>, budget: nat, acc: seq<N>)
    requires ExploredOk(g, source, explored)
    requires |acc| >= 1
    requires forall i :: 0 <= i < |acc| - 1 ==> HasEdge(g, acc[i + 1], acc[i])
    requires node.None? ==> acc[|acc| - 1] == source
    requires node.Some? ==> node.value in explored && HasEdge(g, node.value, acc[|acc| - 1])
    ensures WalkParents(explored, node, budget, acc) != Failure(MissingKey)
    ensures var r := WalkParents(explored, node, budget, acc);
            r.Success? ==>
              && |r.value| >= 1
              && r.value[0] == acc[0]
              && r.value[|r.value| - 1] == source
              && forall i :: 0 <= i < |r.value| - 1 ==> HasEdge(g, r.value[i + 1], r.value[i])
    decreases budget
  {
    if node.Some? && budget > 0 {
      var x := node.value;
      WalkParentsSound(g, source, explored, explored[x], budget - 1, acc + [x]);
    }
  }

  /** The reconstructed path runs from the source to the target along edges of the graph. */
  lemma ReconstructSound<N>(g: Graph<N>, source: N, explored: map<N, Option<N>>, target: N, parent: Option<N>)
    requires ExploredOk(g, source, explored)
    requires parent.None? ==> target == source
    requires parent.Some? ==> parent.value in explored && HasEdge(g, parent.value, target)
    ensures Reconstruct(explored, target, parent) != Failure(MissingKey)
    ensures var r := Reconstruct(explored, target, parent);
            r.Success? ==> IsPathFromTo(g, r.value, source, target)
  {
    WalkParentsSound(g, source, explored, parent, |explored|, [target]);
    var w := WalkParents(explored, parent, |explored|, [target]);
    if w.Success? {
      var p := w.value;
      var r := Reversed(p);
      forall i | 0 <= i < |r| - 1
        ensures HasEdge(g, r[i], r[i + 1])
      {
        var k := |p| - 2 - i;
        assert r[i] == p[k + 1] && r[i + 1] == p[k];
      }
    }
  }

  /**
   * From any state that satisfies the invariant, a path the loop returns
   * starts at the source, ends at the target and follows edges, and no
   * lookup in `explored`, `enqueued` or the adjacency raises KeyError.
   */
  lemma {:induction false} RunSound<N>(g: Graph<N>, w: WeightFn<N>, h: HeuristicFn<N>, source: N, target: N,
                                       st: State<N>, fuel: nat)
    requires Inv(g, w, h, source, target, st)
    ensures Run(g, w, h, target, st, fuel) != Failure(MissingKey)
    ensures var r := Run(g, w, h, target, st, fuel);
            r.Success? ==> IsPathFromTo(g, r.value, source, target)
    decreases fuel, 1
  {
    if |st.queue| == 0 || fuel == 0 {
      assert Run(g, w, h, target, st, fuel).error in {NoPath, OutOfFuel};
    } else {
      StepSound(g, w, h, source, target, st);
      ResumeSound(g, w, h, source, target, Step(g, w, h, target, st), fuel - 1);
    }
  }

  lemma {:induction false} ResumeSound<N>(g: Graph<N>, w: WeightFn<N>, h: HeuristicFn<N>, source: N, target: N,
                                          o: Outcome<N>, fuel: nat)
    requires OutcomeOk(g, w, h, source, target, o)
    ensures Resume(g, w, h, target, o, fuel) != Failure(MissingKey)
    ensures var r := Resume(g, w, h, target, o, fuel);
            r.Success? ==> IsPathFromTo(g, r.value, source, target)
    decreases fuel, 2
  {
    if o.Continue? {
      RunSound(g, w, h, source, target, o.next, fuel);
    }
  }

  /**
   * An iteration's outcome is sound: it goes on from a state that satisfies
   * the invariant, or it finishes without a KeyError from its own lookups,
   * and a path it returns runs from the source to the target along edges.
   */
  ghost predicate OutcomeOk<N>(g: Graph<N>, w: WeightFn<N>, h: HeuristicFn<N>, source: N, target: N, o: Outcome<N>) {
    && (o.Continue? ==> Inv(g, w, h, source, target, o.next))
    && (o.Finish? ==> o.result != Failure(MissingKey))
    && (o.Finish? && o.result.Success? ==> IsPathFromTo(g, o.result.value, source, target))
  }

  /**
   * One iteration from a state that satisfies the invariant either goes on
   * to another such state or finishes without a KeyError from its own
   * lookups, and a path it returns runs from the source to the target along
   * edges.
   */
  lemma StepSound<N>(g: Graph<N>, w: WeightFn<N>, h: HeuristicFn<N>, source: N, target: N, st: State<N>)
    requires Inv(g, w, h, source, target, st)
    requires |st.queue| > 0
    ensures OutcomeOk(g, w, h, source, target, Step(g, w, h, target, st))
  {
    var i := MinIndex(st.queue);
    var e := st.queue[i];
    assert e in st.queue;
    assert EntryOk(g, w, h, source, target, st.explored, e);
    if Step(g, w, h, target, st).Continue? {
      StepKeepsInv(g, w, h, source, target, st);
    } else if e.node == target {
      if e.parent.Some? {
        var t := e.trail;
        assert HasEdge(g, t[|t| - 2], t[|t| - 2 + 1]);
      }
      ReconstructSound(g, source, st.explored, e.node, e.parent);
    } else if e.node in st.explored && st.explored[e.node].Some? {
      assert e.node != source;
      assert e.node in st.enqueued;
      if st.enqueued[e.node].cost >= e.dist {
        var popped := st.(queue := RemoveAt(st.queue, i));
        RelaxAllSpec(g, w, h, target, e, g.adj[e.node], popped.(explored := popped.explored[e.node := e.parent]));
      }
    } else {
      var popped := st.(queue := RemoveAt(st.queue, i));
      RelaxAllSpec(g, w, h, target, e, g.adj[e.node], popped.(explored := popped.explored[e.node := e.parent]));
    }
  }

  /** The parent walk fails only with KeyError or a cycle. */
  lemma {:induction false} WalkParentsErrors<N>(explored: map<N, Option<N>>, node: Option<N>, budget: nat, acc: seq<N>)
    ensures var r := WalkParents(explored, node, budget, acc);
            r.Failure? ==> r.error == MissingKey || r.error == ParentCycle
    decreases budget
  {
    if node.Some? && node.value in explored && budget > 0 {
      WalkParentsErrors(explored, explored[node.value], budget - 1, acc + [node.value]);
    }
  }

  /** The failures one iteration of the main loop can raise. */
  predicate StepError(e: Error) {
    e == WeightFailed || e == MissingKey || e == ParentCycle
  }

  /** One iteration fails only with KeyError, a failing weight, or a failed parent walk. */
  lemma StepErrors<N>(g: Graph<N>, w: WeightFn<N>, h: HeuristicFn<N>, target: N, st: State<N>)
    requires |st.queue| > 0
    ensures var o := Step(g, w, h, target, st);
            o.Finish? && o.result.Failure? ==> StepError(o.result.error)
  {
    var i := MinIndex(st.queue);
    var e := st.queue[i];
    if e.node == target {
      WalkParentsErrors(st.explored, e.parent, |st.explored|, [e.node]);
    } else if e.node in g.adj {
      var popped := st.(queue := RemoveAt(st.queue, i));
      RelaxAllSpec(g, w, h, target, e, g.adj[e.node], popped.(explored := popped.explored[e.node := e.parent]));
    }
  }

  /** The main loop raises nothing but these; in particular never NodeNotFound or NotImplemented. */
  lemma {:induction false} RunErrors<N>(g: Graph<N>, w: WeightFn<N>, h: HeuristicFn<N>, target: N, st: State<N>, fuel: nat)
    ensures var r := Run(g, w, h, target, st, fuel);
            r.Failure? ==> StepError(r.error) || r.error == NoPath || r.error == OutOfFuel
    decreases fuel, 1
  {
    if |st.queue| > 0 && fuel > 0 {
      StepErrors(g, w, h, target, st);
      ResumeErrors(g, w, h, target, Step(g, w, h, target, st), fuel - 1);
    }
  }

  lemma {:induction false} ResumeErrors<N>(g: Graph<N>, w: WeightFn<N>, h: HeuristicFn<N>, target: N, o: Outcome<N>, fuel: nat)
    requires o.Finish? && o.result.Failure? ==> StepError(o.result.error)
    ensures var r := Resume(g, w, h, target, o, fuel);
            r.Failure? ==> StepError(r.error) || r.error == NoPath || r.error == OutOfFuel
    decreases fuel, 2
  {
    if o.Continue? {
      RunErrors(g, w, h, target, o.next, fuel);
    }
  }

  /**
   * `astar_path`: NodeNotFound exactly when an endpoint is missing,
   * NotImplemented exactly for an attribute weight on a multigraph with both
   * endpoints present, no KeyError from `explored`, `enqueued` or the
   * adjacency (a weight's own KeyError is `WeightFailed`), and any returned
   * path runs from the source to the target along edges of the graph.
   */
  lemma AStarPathSound<N>(g: Graph<N>, source: N, target: N, heuristic: Option<HeuristicFn<N>>, weight: WeightSpec<N>, fuel: nat)
    requires ValidGraph(g)
    ensures var r := AStarSpec(g, source, target, heuristic, weight, fuel);
            && (r == Failure(NodeNotFound) <==> source !in g.adj || target !in g.adj)
            && (r == Failure(NotImplemented) <==>
                  source in g.adj && target in g.adj && weight.Attribute? && g.isMultigraph)
            && r != Failure(MissingKey)
            && (r.Success? ==> IsPathFromTo(g, r.value, source, target))
  {
    if source in g.adj && target in g.adj {
      var h := HeuristicOrDefault(heuristic);
      var rw := ResolveWeight(g, weight);
      if rw.Success? {
        InitInv(g, rw.value, h, source, target);
        RunSound(g, rw.value, h, source, target, Init(source), fuel);
        RunErrors(g, rw.value, h, target, Init(source), fuel);
      }
    }
  }

  /**
   * `astar_path_length` searches with the resolved weight, which finds the
   * same path as `astar_path` with the caller's weight, and returns the
   * replayed cost of that path.
   */
  lemma AStarLengthReplaysPath<N>(g: Graph<N>, source: N, target: N, heuristic: Option<HeuristicFn<N>>, weight: WeightSpec<N>, fuel: nat)
    ensures var r := AStarLengthSpec(g, source, target, heuristic, weight, fuel);
            var p := AStarSpec(g, source, target, heuristic, weight, fuel);
            && (p.Failure? ==> r == Failure(p.error))
            && (p.Success? ==>
                  && ResolveWeight(g, weight).Success?
                  && r == PathLength(ResolveWeight(g, weight).value, g, p.value)
                  && r == OptionToResult(TrailCost(ResolveWeight(g, weight).value, g, p.value)))
  {
    var p := AStarSpec(g, source, target, heuristic, weight, fuel);
    if p.Success? {
      PathLengthIsTrailCost(ResolveWeight(g, weight).value, g, p.value);
    }
  }

  /** `node` followed `k` times through `explored`; `None` once the walk stops or a lookup would raise. */
  ghost function Ancestor<N>(explored: map<N, Option<N>>, node: Option<N>, k: nat): Option<N>
    decreases k
  {
    if k == 0 then node
    else
      match node
      case None => None
      case Some(x) => if x in explored then Ancestor(explored, explored[x], k - 1) else None
  }

  lemma {:induction false} AncestorCompose<N>(explored: map<N, Option<N>>, node: Option<N>, a: nat, b: nat)
    ensures Ancestor(explored, node, a + b) == Ancestor(explored, Ancestor(explored, node, a), b)
    decreases a
  {
    if a > 0 && node.Some? && node.value in explored {
      AncestorCompose(explored, explored[node.value], a - 1, b);
    } else if a > 0 {
      AncestorOfNone(explored, b);
    }
  }

  lemma {:induction false} AncestorOfNone<N>(explored: map<N, Option<N>>, b: nat)
    ensures Ancestor(explored, None, b) == None
  {
  }

  /** A walk that meets more nodes than a set holds, all from that set, meets one of them twice. */
  lemma {:induction false} Pigeonhole<T>(s: seq<T>, keys: set<T>)
    requires forall k :: 0 <= k < |s| ==> s[k] in keys
    requires |s| > |keys|
    ensures exists i, j :: 0 <= i < j < |s| && s[i] == s[j]
    decreases |s|
  {
    var x := s[|s| - 1];
    var rest := s[..|s| - 1];
    if i :| 0 <= i < |rest| && rest[i] == x {
      assert s[i] == s[|s| - 1];
    } else {
      forall k | 0 <= k < |rest|
        ensures rest[k] in keys - {x}
      {
        assert s[k] == rest[k];
      }
      Pigeonhole(rest, keys - {x});
      var i, j :| 0 <= i < j < |rest| && rest[i] == rest[j];
      assert s[i] == s[j];
    }
  }

  lemma {:induction false} WalkCycleAncestors<N>(explored: map<N, Option<N>>, node: Option<N>, budget: nat, acc: seq<N>)
    requires WalkParents(explored, node, budget, acc) == Failure(ParentCycle)
    ensures forall t :: 0 <= t <= budget ==>
              Ancestor(explored, node, t).Some? && Ancestor(explored, node, t).value in explored
    decreases budget
  {
    if budget > 0 {
      var x := node.value;
      WalkCycleAncestors(explored, explored[x], budget - 1, acc + [x]);
      forall t | 0 < t <= budget
        ensures Ancestor(explored, node, t) == Ancestor(explored, explored[x], t - 1)
      {
      }
    }
  }

  /**
   * When the reconstruction reports a cycle, the parent chain from the
   * target's parent never reaches `None` and never misses a key: the walk
   * `while node is not None` would run forever.
   */
  lemma WalkCycleNeverEnds<N>(explored: map<N, Option<N>>, target: N, parent: Option<N>)
    requires Reconstruct(explored, target, parent) == Failure(ParentCycle)
    ensures forall k: nat :: Ancestor(explored, parent, k).Some?
  {
    var b := |explored|;
    assert WalkParents(explored, parent, b, [target]) == Failure(ParentCycle);
    WalkCycleAncestors(explored, parent, b, [target]);
    var s := seq(b + 1, t requires 0 <= t <= b => Ancestor(explored, parent, t).value);
    assert |explored.Keys| == b;
    Pigeonhole(s, explored.Keys);
    var i, j :| 0 <= i < j < |s| && s[i] == s[j];
    assert Ancestor(explored, parent, i) == Ancestor(explored, parent, j);
    forall k: nat
      ensures Ancestor(explored, parent, k).Some?
    {
      PeriodicAncestor(explored, parent, i, j, b, k);
    }
  }

  lemma {:induction false} PeriodicAncestor<N>(explored: map<N, Option<N>>, node: Option<N>, i: nat, j: nat, b: nat, k: nat)
    requires i < j <= b
    requires Ancestor(explored, node, i) == Ancestor(explored, node, j)
    requires forall t :: 0 <= t <= b ==> Ancestor(explored, node, t).Some?
    ensures Ancestor(explored, node, k).Some?
    decreases k
  {
    if k > b {
      var m := k - j;
      AncestorCompose(explored, node, j, m);
      AncestorCompose(explored, node, i, m);
      PeriodicAncestor(explored, node, i, j, b, i + m);
    }
  }
}
