/**
 * What every state the search reaches satisfies, and what follows from it
 * for the path the search returns.
 */
module SearchInvariants {
  import opened Results
  import opened Graphs
  import opened Weights
  import opened Frontier
  import opened Search

  /**
   * A queue entry extends a walk from the source to its node, whose replayed
   * cost is the entry's `dist`; its parent is the node before it on that
   * walk and is already explored, and only the initial entry has no parent.
   */
  ghost predicate EntryOk<N>(g: Graph<N>, w: WeightFn<N>, h: HeuristicFn<N>, source: N, target: N,
                             explored: map<N, Option<N>>, e: Entry<N>)
  {
    && IsPathFromTo(g, e.trail, source, e.node)
    && e.node in g.adj
    && TrailCost(w, g, e.trail) == Some(e.dist)
    && (e.parent.None? ==> e.node == source && e.trail == [source] && e.priority == 0.0)
    && (e.parent.Some? ==>
          && |e.trail| >= 2
          && e.trail[|e.trail| - 2] == e.parent.value
          && e.parent.value in explored
          && e.priority == e.dist + h(e.node, target))
  }

  /**
   * The `explored` table: once anything is explored the source is, with the
   * `None` marker that no other node carries; every other parent is an
   * explored node with an edge to its child.
   */
  ghost predicate ExploredOk<N>(g: Graph<N>, source: N, explored: map<N, Option<N>>) {
    && (explored != map[] ==> source in explored)
    && (forall n | n in explored :: n in g.adj && (explored[n].None? <==> n == source))
    && (forall n | n in explored && explored[n].Some? ::
          explored[n].value in explored && HasEdge(g, explored[n].value, n))
  }

  ghost predicate Inv<N>(g: Graph<N>, w: WeightFn<N>, h: HeuristicFn<N>, source: N, target: N, st: State<N>) {
    && ValidGraph(g)
    && source in g.adj
    && (forall e | e in st.queue :: EntryOk(g, w, h, source, target, st.explored, e))
    && (forall e | e in st.queue :: e.counter < st.counter)
    && DistinctCounters(st.queue)
    && (forall e | e in st.queue && e.parent.Some? ::
          e.node in st.enqueued && st.enqueued[e.node].cost <= e.dist)
    && (forall n | n in st.enqueued :: st.enqueued[n].h == h(n, target))
    && ExploredOk(g, source, st.explored)
    && (forall n | n in st.explored && n != source :: n in st.enqueued)
  }

  lemma InitInv<N>(g: Graph<N>, w: WeightFn<N>, h: HeuristicFn<N>, source: N, target: N)
    requires ValidGraph(g) && source in g.adj
    ensures Inv(g, w, h, source, target, Init(source))
  {
  }

  lemma PopKeepsInv<N>(g: Graph<N>, w: WeightFn<N>, h: HeuristicFn<N>, source: N, target: N, st: State<N>, i: nat)
    requires Inv(g, w, h, source, target, st)
    requires i < |st.queue|
    ensures Inv(g, w, h, source, target, st.(queue := RemoveAt(st.queue, i)))
  {
    var r := RemoveAt(st.queue, i);
    forall e | e in r
      ensures e in st.queue
    {
      var k :| 0 <= k < |r| && r[k] == e;
      assert e == st.queue[if k < i then k else k + 1];
    }
  }

  lemma FinalizeKeepsInv<N>(g: Graph<N>, w: WeightFn<N>, h: HeuristicFn<N>, source: N, target: N, st: State<N>, e: Entry<N>)
    requires Inv(g, w, h, source, target, st)
    requires EntryOk(g, w, h, source, target, st.explored, e)
    requires e.parent.Some? ==> e.node in st.enqueued
    requires e.node in st.explored ==> st.explored[e.node].Some?
    ensures Inv(g, w, h, source, target, st.(explored := st.explored[e.node := e.parent]))
    ensures EntryOk(g, w, h, source, target, st.explored[e.node := e.parent], e)
  {
    var ex := st.explored[e.node := e.parent];
    if e.parent.Some? {
      assert st.explored != map[] by { assert e.parent.value in st.explored; }
      assert source in st.explored;
      assert e.node != source;
      var t := e.trail;
      assert HasEdge(g, t[|t| - 2], t[|t| - 1]);
    }
    forall x | x in st.queue
      ensures EntryOk(g, w, h, source, target, ex, x)
    {
      assert EntryOk(g, w, h, source, target, st.explored, x);
    }
  }

  /** The entry pushed for neighbour `nb` extends the walk of `cur` by the edge to `nb`. */
  lemma PushedEntryOk<N>(g: Graph<N>, w: WeightFn<N>, h: HeuristicFn<N>, source: N, target: N,
                         explored: map<N, Option<N>>, cur: Entry<N>, nb: N, c: real, counter: nat)
    requires ValidGraph(g)
    requires EntryOk(g, w, h, source, target, explored, cur)
    requires cur.node in explored
    requires HasEdge(g, cur.node, nb)
    requires w(g, PrevEdge(cur.trail, cur.node), (cur.node, nb)) == Some(c)
    ensures EntryOk(g, w, h, source, target, explored,
                    Entry(cur.dist + c + h(nb, target), counter, nb, cur.dist + c, Some(cur.node), cur.trail + [nb]))
  {
    var t := cur.trail;
    var t' := t + [nb];
    TrailCostSnoc(w, g, t, nb);
    assert LastEdge(t) == PrevEdge(t, cur.node);
    assert nb in g.adj by {
      var k :| 0 <= k < |g.adj[cur.node]| && g.adj[cur.node][k] == nb;
    }
    assert IsWalk(g, t') by {
      forall k | 0 <= k < |t'| - 1
        ensures HasEdge(g, t'[k], t'[k + 1])
      {
        if k < |t| - 1 {
          assert t'[k] == t[k] && t'[k + 1] == t[k + 1];
        }
      }
    }
  }

  /** Pushing a well-formed entry for `nb` at a cost below its recorded one keeps the invariant. */
  lemma PushKeepsInv<N>(g: Graph<N>, w: WeightFn<N>, h: HeuristicFn<N>, source: N, target: N,
                        st: State<N>, e: Entry<N>, next: State<N>)
    requires Inv(g, w, h, source, target, st)
    requires EntryOk(g, w, h, source, target, st.explored, e)
    requires e.parent.Some? && e.counter == st.counter
    requires e.node !in st.enqueued || e.dist < st.enqueued[e.node].cost
    requires next.queue == st.queue + [e]
    requires next.enqueued == st.enqueued[e.node := Enq(e.dist, h(e.node, target))]
    requires next.explored == st.explored && next.counter == st.counter + 1
    ensures Inv(g, w, h, source, target, next)
  {
    forall x | x in next.queue
      ensures x in st.queue || x == e
    {
    }
    assert DistinctCounters(next.queue) by {
      forall i, j | 0 <= i < j < |next.queue|
        ensures next.queue[i].counter != next.queue[j].counter
      {
        if j == |st.queue| {
          assert next.queue[i] in st.queue;
        }
      }
    }
  }

  lemma RelaxOneKeepsInv<N>(g: Graph<N>, w: WeightFn<N>, h: HeuristicFn<N>, source: N, target: N,
                            cur: Entry<N>, nb: N, st: State<N>)
    requires Inv(g, w, h, source, target, st)
    requires EntryOk(g, w, h, source, target, st.explored, cur)
    requires cur.node in st.explored
    requires HasEdge(g, cur.node, nb)
    requires RelaxOne(g, w, h, target, cur, nb, st).Success?
    ensures Inv(g, w, h, source, target, RelaxOne(g, w, h, target, cur, nb, st).value)
  {
    RelaxOneSpec(g, w, h, target, cur, nb, st);
    var next := RelaxOne(g, w, h, target, cur, nb, st).value;
    var c := w(g, PrevEdge(cur.trail, cur.node), (cur.node, nb)).value;
    var ncost := cur.dist + c;
    if nb !in st.enqueued || ncost < st.enqueued[nb].cost {
      var hv := if nb in st.enqueued then st.enqueued[nb].h else h(nb, target);
      assert hv == h(nb, target);
      var e := Entry(ncost + hv, st.counter, nb, ncost, Some(cur.node), cur.trail + [nb]);
      assert next.queue == st.queue + [e];
      assert next.enqueued == st.enqueued[nb := Enq(ncost, hv)];
      PushedEntryOk(g, w, h, source, target, st.explored, cur, nb, c, st.counter);
      PushKeepsInv(g, w, h, source, target, st, e, next);
    }
  }

  lemma {:induction false} RelaxAllKeepsInv<N>(g: Graph<N>, w: WeightFn<N>, h: HeuristicFn<N>, source: N, target: N,
                                               cur: Entry<N>, nbrs: seq<N>, st: State<N>)
    requires Inv(g, w, h, source, target, st)
    requires EntryOk(g, w, h, source, target, st.explored, cur)
    requires cur.node in st.explored
    requires forall k :: 0 <= k < |nbrs| ==> HasEdge(g, cur.node, nbrs[k])
    requires RelaxAll(g, w, h, target, cur, nbrs, st).Success?
    ensures Inv(g, w, h, source, target, RelaxAll(g, w, h, target, cur, nbrs, st).value)
    decreases |nbrs|
  {
    if nbrs != [] {
      RelaxOneKeepsInv(g, w, h, source, target, cur, nbrs[0], st);
      var st1 := RelaxOne(g, w, h, target, cur, nbrs[0], st).value;
      RelaxAllKeepsInv(g, w, h, source, target, cur, nbrs[1..], st1);
    }
  }

  /**
   * One iteration keeps the invariant; the source keeps its `None` parent;
   * a node's parent changes only when it is popped with an entry whose cost
   * is its best enqueued cost; and `enqueued` costs never rise.
   */
  lemma StepKeepsInv<N>(g: Graph<N>, w: WeightFn<N>, h: HeuristicFn<N>, source: N, target: N, st: State<N>)
    requires Inv(g, w, h, source, target, st)
    requires |st.queue| > 0
    requires Step(g, w, h, target, st).Continue?
    ensures var next := Step(g, w, h, target, st).next;
            && Inv(g, w, h, source, target, next)
            && EnqueuedNeverRises(st.enqueued, next.enqueued)
            && next.counter >= st.counter
            && (source in st.explored ==> source in next.explored && next.explored[source] == None)
            && var e := st.queue[MinIndex(st.queue)];
               && st.explored.Keys <= next.explored.Keys
               && (forall n | n in st.explored && n != e.node :: next.explored[n] == st.explored[n])
               && (next.explored != st.explored ==>
                     && next.explored == st.explored[e.node := e.parent]
                     && (e.node in st.explored ==> st.enqueued[e.node].cost == e.dist))
  {
    var i := MinIndex(st.queue);
    var e := st.queue[i];
    assert e in st.queue;
    var popped := st.(queue := RemoveAt(st.queue, i));
    PopKeepsInv(g, w, h, source, target, st, i);
    if e.node in st.explored && st.explored[e.node].None? {
    } else if e.node in st.explored && st.enqueued[e.node].cost < e.dist {
    } else {
      if e.parent.None? {
        assert e.node == source;
      }
      FinalizeKeepsInv(g, w, h, source, target, popped, e);
      var finalized := popped.(explored := popped.explored[e.node := e.parent]);
      var nbrs := g.adj[e.node];
      forall k | 0 <= k < |nbrs|
        ensures HasEdge(g, e.node, nbrs[k])
      {
      }
      RelaxAllKeepsInv(g, w, h, source, target, e, nbrs, finalized);
      RelaxAllSpec(g, w, h, target, e, nbrs, finalized);
    }
  }
}
