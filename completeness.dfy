/**
 * The other half of what `astar_path` promises: NetworkXNoPath is raised
 * only when no path leads from the source to the target, and when none does
 * the search neither returns a path nor reaches the reconstruction.
 *
 * The argument: every enqueued node is either explored or still has a
 * queue entry at its recorded cost, so it is popped again and then either
 * finalized or skipped as explored; every successor of an explored node is
 * enqueued; and the target is never explored, because popping it returns.
 * When the queue is empty, the explored nodes are therefore closed under
 * successors, contain the source, and miss the target.
 */
module Completeness {
  import opened Results
  import opened Graphs
  import opened Weights
  import opened Frontier
  import opened Search
  import opened SearchInvariants
  import opened Soundness

  /** Some entry for `n` is still queued, at `n`'s recorded cost when it has one. */
  ghost predicate Pending<N>(st: State<N>, n: N) {
    exists e | e in st.queue :: e.node == n && (n in st.enqueued ==> e.dist == st.enqueued[n].cost)
  }

  /** `n` is explored, or an entry of it that will not be skipped as stale is still queued. */
  ghost predicate Settled<N>(st: State<N>, n: N) {
    n in st.explored || Pending(st, n)
  }

  ghost predicate AllSettled<N>(st: State<N>) {
    forall n | n in st.enqueued :: Settled(st, n)
  }

  /**
   * What the main loop keeps towards completeness: the source and every
   * enqueued node are settled, every successor of an explored node is
   * enqueued, and the target is not explored.
   */
  ghost predicate Covered<N>(g: Graph<N>, source: N, target: N, st: State<N>) {
    && Settled(st, source)
    && AllSettled(st)
    && (forall n | n in st.explored :: n in g.adj && forall m | m in g.adj[n] :: m in st.enqueued)
    && target !in st.explored
  }

  lemma InitCovered<N>(g: Graph<N>, source: N, target: N)
    ensures Covered(g, source, target, Init(source))
  {
    assert Init(source).queue[0] in Init(source).queue;
  }

  /** After one neighbour pass the neighbour is enqueued, and a pushed entry settles it. */
  lemma RelaxOneCovers<N>(g: Graph<N>, w: WeightFn<N>, h: HeuristicFn<N>, target: N, cur: Entry<N>, nb: N, st: State<N>)
    requires RelaxOne(g, w, h, target, cur, nb, st).Success?
    ensures var r := RelaxOne(g, w, h, target, cur, nb, st).value;
            && r.explored == st.explored
            && (forall n | n in st.enqueued :: n in r.enqueued)
            && (forall n | Settled(st, n) :: Settled(r, n))
            && nb in r.enqueued
            && (AllSettled(st) ==> AllSettled(r))
  {
    RelaxOneSpec(g, w, h, target, cur, nb, st);
    var r := RelaxOne(g, w, h, target, cur, nb, st).value;
    var ncost := cur.dist + w(g, PrevEdge(cur.trail, cur.node), (cur.node, nb)).value;
    if nb !in st.enqueued || ncost < st.enqueued[nb].cost {
      var hv := if nb in st.enqueued then st.enqueued[nb].h else h(nb, target);
      var e := Entry(ncost + hv, st.counter, nb, ncost, Some(cur.node), cur.trail + [nb]);
      assert r.queue == st.queue + [e];
      assert e in r.queue;
      assert Pending(r, nb);
      forall n | Settled(st, n)
        ensures Settled(r, n)
      {
        if n != nb && n !in st.explored {
          var x :| x in st.queue && x.node == n && (n in st.enqueued ==> x.dist == st.enqueued[n].cost);
          assert x in r.queue;
        }
      }
    }
  }

  /** After the neighbour loop every neighbour is enqueued, and nothing was unsettled. */
  lemma {:induction false} RelaxAllCovers<N>(g: Graph<N>, w: WeightFn<N>, h: HeuristicFn<N>, target: N, cur: Entry<N>,
                                             nbrs: seq<N>, st: State<N>)
    requires RelaxAll(g, w, h, target, cur, nbrs, st).Success?
    ensures var r := RelaxAll(g, w, h, target, cur, nbrs, st).value;
            && r.explored == st.explored
            && (forall n | n in st.enqueued :: n in r.enqueued)
            && (forall n | Settled(st, n) :: Settled(r, n))
            && (forall k | 0 <= k < |nbrs| :: nbrs[k] in r.enqueued)
            && (AllSettled(st) ==> AllSettled(r))
    decreases |nbrs|
  {
    if nbrs != [] {
      RelaxOneCovers(g, w, h, target, cur, nbrs[0], st);
      var r1 := RelaxOne(g, w, h, target, cur, nbrs[0], st).value;
      RelaxAllCovers(g, w, h, target, cur, nbrs[1..], r1);
      var r := RelaxAll(g, w, h, target, cur, nbrs[1..], r1).value;
      forall k | 0 <= k < |nbrs|
        ensures nbrs[k] in r.enqueued
      {
        if k > 0 {
          assert nbrs[k] == nbrs[1..][k - 1];
        }
      }
    }
  }

  /** Popping entry `i` can unsettle only the popped node. */
  lemma PopSettles<N>(st: State<N>, i: nat, n: N)
    requires i < |st.queue|
    requires Settled(st, n)
    ensures n == st.queue[i].node || Settled(st.(queue := RemoveAt(st.queue, i)), n)
  {
    if n !in st.explored && n != st.queue[i].node {
      var x :| x in st.queue && x.node == n && (n in st.enqueued ==> x.dist == st.enqueued[n].cost);
      RemoveAtPermutes(st.queue, i);
      assert multiset(st.queue)[x] > 0;
      assert x in multiset(RemoveAt(st.queue, i));
    }
  }

  /** An iteration that does not return keeps `Covered`. */
  lemma StepKeepsCovered<N>(g: Graph<N>, w: WeightFn<N>, h: HeuristicFn<N>, source: N, target: N, st: State<N>)
    requires Covered(g, source, target, st)
    requires |st.queue| > 0
    requires Step(g, w, h, target, st).Continue?
    ensures Covered(g, source, target, Step(g, w, h, target, st).next)
  {
    var i := MinIndex(st.queue);
    var e := st.queue[i];
    var popped := st.(queue := RemoveAt(st.queue, i));
    forall n | Settled(st, n)
      ensures n == e.node || Settled(popped, n)
    {
      PopSettles(st, i, n);
    }
    if e.node in st.explored && st.explored[e.node].None? {
      assert Step(g, w, h, target, st).next == popped;
    } else if e.node in st.explored && e.node in st.enqueued && st.enqueued[e.node].cost < e.dist {
      assert Step(g, w, h, target, st).next == popped;
    } else {
      var fin := popped.(explored := popped.explored[e.node := e.parent]);
      var nbrs := g.adj[e.node];
      assert forall n | Settled(st, n) :: Settled(fin, n);
      RelaxAllCovers(g, w, h, target, e, nbrs, fin);
    }
  }

  /** With nothing left in the queue, every node along a walk from the source is explored. */
  lemma {:induction false} ExploredAlong<N>(g: Graph<N>, source: N, target: N, st: State<N>, p: seq<N>, k: nat)
    requires Covered(g, source, target, st) && |st.queue| == 0
    requires |p| >= 1 && p[0] == source && IsWalk(g, p)
    requires k < |p|
    ensures p[k] in st.explored
    decreases k
  {
    if k > 0 {
      ExploredAlong(g, source, target, st, p, k - 1);
      assert HasEdge(g, p[k - 1], p[k]);
      assert Settled(st, p[k]);
    } else {
      assert Settled(st, source);
    }
  }

  lemma EmptyUnreachable<N>(g: Graph<N>, source: N, target: N, st: State<N>)
    requires Covered(g, source, target, st) && |st.queue| == 0
    ensures forall p :: !IsPathFromTo(g, p, source, target)
  {
    forall p | IsPathFromTo(g, p, source, target)
      ensures p[|p| - 1] in st.explored
    {
      ExploredAlong(g, source, target, st, p, |p| - 1);
    }
  }

  /** From a covered state the loop raises NetworkXNoPath only when the target is unreachable. */
  lemma {:induction false} RunNoPath<N>(g: Graph<N>, w: WeightFn<N>, h: HeuristicFn<N>, source: N, target: N,
                                        st: State<N>, fuel: nat)
    requires Covered(g, source, target, st)
    ensures Run(g, w, h, target, st, fuel) == Failure(NoPath) ==> forall p :: !IsPathFromTo(g, p, source, target)
    decreases fuel, 1
  {
    if |st.queue| == 0 {
      EmptyUnreachable(g, source, target, st);
    } else if fuel > 0 {
      var o := Step(g, w, h, target, st);
      StepErrors(g, w, h, target, st);
      if o.Continue? {
        StepKeepsCovered(g, w, h, source, target, st);
      }
      ResumeNoPath(g, w, h, source, target, o, fuel - 1);
    }
  }

  lemma {:induction false} ResumeNoPath<N>(g: Graph<N>, w: WeightFn<N>, h: HeuristicFn<N>, source: N, target: N,
                                           o: Outcome<N>, fuel: nat)
    requires o.Continue? ==> Covered(g, source, target, o.next)
    requires o.Finish? ==> o.result != Failure(NoPath)
    ensures Resume(g, w, h, target, o, fuel) == Failure(NoPath) ==> forall p :: !IsPathFromTo(g, p, source, target)
    decreases fuel, 2
  {
    if o.Continue? {
      RunNoPath(g, w, h, source, target, o.next, fuel);
    }
  }

  /**
   * An iteration returns a path, or reports a parent cycle, only after
   * popping the target, whose entry holds a walk to it from the source.
   */
  lemma StepFinishReachable<N>(g: Graph<N>, w: WeightFn<N>, h: HeuristicFn<N>, source: N, target: N, st: State<N>)
    requires Inv(g, w, h, source, target, st)
    requires |st.queue| > 0
    ensures var o := Step(g, w, h, target, st);
            o.Finish? && (o.result.Success? || o.result == Failure(ParentCycle)) ==> exists p :: IsPathFromTo(g, p, source, target)
  {
    var i := MinIndex(st.queue);
    var e := st.queue[i];
    assert e in st.queue;
    if e.node == target {
      assert IsPathFromTo(g, e.trail, source, target);
    } else if e.node in g.adj {
      var popped := st.(queue := RemoveAt(st.queue, i));
      RelaxAllSpec(g, w, h, target, e, g.adj[e.node], popped.(explored := popped.explored[e.node := e.parent]));
    }
  }

  /** From an invariant state the loop returns a path or reports a cycle only when the target is reachable. */
  lemma {:induction false} RunFinishReachable<N>(g: Graph<N>, w: WeightFn<N>, h: HeuristicFn<N>, source: N, target: N,
                                                 st: State<N>, fuel: nat)
    requires Inv(g, w, h, source, target, st)
    ensures var r := Run(g, w, h, target, st, fuel);
            r.Success? || r == Failure(ParentCycle) ==> exists p :: IsPathFromTo(g, p, source, target)
    decreases fuel, 1
  {
    if |st.queue| == 0 || fuel == 0 {
      assert Run(g, w, h, target, st, fuel).error in {NoPath, OutOfFuel};
    } else {
      var o := Step(g, w, h, target, st);
      StepFinishReachable(g, w, h, source, target, st);
      if o.Continue? {
        StepKeepsInv(g, w, h, source, target, st);
      }
      ResumeFinishReachable(g, w, h, source, target, o, fuel - 1);
    }
  }

  lemma {:induction false} ResumeFinishReachable<N>(g: Graph<N>, w: WeightFn<N>, h: HeuristicFn<N>, source: N, target: N,
                                                    o: Outcome<N>, fuel: nat)
    requires o.Continue? ==> Inv(g, w, h, source, target, o.next)
    requires o.Finish? && (o.result.Success? || o.result == Failure(ParentCycle)) ==> exists p :: IsPathFromTo(g, p, source, target)
    ensures var r := Resume(g, w, h, target, o, fuel);
            r.Success? || r == Failure(ParentCycle) ==> exists p :: IsPathFromTo(g, p, source, target)
    decreases fuel, 2
  {
    if o.Continue? {
      RunFinishReachable(g, w, h, source, target, o.next, fuel);
    }
  }

  /**
   * `astar_path` raises NetworkXNoPath only when no path leads from the
   * source to the target. Conversely, with both endpoints in the graph and
   * no such path, it raises NetworkXNoPath, or the weight raised, or the
   * resolver refused the multigraph, or the iteration bound ran out.
   */
  lemma AStarPathComplete<N>(g: Graph<N>, source: N, target: N, heuristic: Option<HeuristicFn<N>>, weight: WeightSpec<N>, fuel: nat)
    requires ValidGraph(g)
    ensures var r := AStarSpec(g, source, target, heuristic, weight, fuel);
            && (r == Failure(NoPath) ==> forall p :: !IsPathFromTo(g, p, source, target))
            && (source in g.adj && target in g.adj && (forall p :: !IsPathFromTo(g, p, source, target)) ==>
                  r == Failure(NoPath) || r == Failure(WeightFailed) || r == Failure(NotImplemented) || r == Failure(OutOfFuel))
  {
    if source in g.adj && target in g.adj {
      var h := HeuristicOrDefault(heuristic);
      var rw := ResolveWeight(g, weight);
      if rw.Success? {
        InitCovered(g, source, target);
        RunNoPath(g, rw.value, h, source, target, Init(source), fuel);
        InitInv(g, rw.value, h, source, target);
        RunFinishReachable(g, rw.value, h, source, target, Init(source), fuel);
        RunSound(g, rw.value, h, source, target, Init(source), fuel);
        RunErrors(g, rw.value, h, target, Init(source), fuel);
      }
    }
  }
}
