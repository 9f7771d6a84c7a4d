/**
 * Single iterations of the search, stated generically so that a worked
 * example can be checked one iteration at a time.
 */
module FixtureSteps {
  import opened Results
  import opened Graphs
  import opened Weights
  import opened Frontier
  import opened Search

  /**
   * An iteration that pops entry `i`, finalizes its node (new, or popped at
   * its best enqueued cost) and relaxes its neighbours into `next`.
   */
  lemma Expand<N>(g: Graph<N>, w: WeightFn<N>, h: HeuristicFn<N>, target: N, st: State<N>, i: nat, fin: State<N>, next: State<N>)
    requires |st.queue| > 0 && MinIndex(st.queue) == i
    requires st.queue[i].node != target && st.queue[i].node in g.adj
    requires st.queue[i].node in st.explored ==>
               && st.explored[st.queue[i].node].Some?
               && st.queue[i].node in st.enqueued
               && st.enqueued[st.queue[i].node].cost >= st.queue[i].dist
    requires fin == State(RemoveAt(st.queue, i), st.enqueued, st.explored[st.queue[i].node := st.queue[i].parent], st.counter)
    requires RelaxAll(g, w, h, target, st.queue[i], g.adj[st.queue[i].node], fin) == Success(next)
    ensures Step(g, w, h, target, st) == Continue(next)
  {
  }

  /** The neighbour loop over a single neighbour. */
  lemma RelaxSingle<N>(g: Graph<N>, w: WeightFn<N>, h: HeuristicFn<N>, target: N, cur: Entry<N>, nb: N, st: State<N>)
    ensures RelaxAll(g, w, h, target, cur, [nb], st) == RelaxOne(g, w, h, target, cur, nb, st)
  {
    assert [nb][1..] == [];
  }

  /** The neighbour loop over two neighbours, each relaxed successfully. */
  lemma RelaxPair<N>(g: Graph<N>, w: WeightFn<N>, h: HeuristicFn<N>, target: N, cur: Entry<N>, a: N, b: N,
                     st: State<N>, mid: State<N>, next: State<N>)
    requires RelaxOne(g, w, h, target, cur, a, st) == Success(mid)
    requires RelaxOne(g, w, h, target, cur, b, mid) == Success(next)
    ensures RelaxAll(g, w, h, target, cur, [a, b], st) == Success(next)
  {
    assert [a, b][1..] == [b];
    RelaxSingle(g, w, h, target, cur, b, mid);
  }

  /** One more iteration of fuel runs one more step. */
  lemma RunContinue<N>(g: Graph<N>, w: WeightFn<N>, h: HeuristicFn<N>, target: N, st: State<N>, fuel: nat, next: State<N>)
    requires |st.queue| > 0 && Step(g, w, h, target, st) == Continue(next)
    ensures Run(g, w, h, target, st, fuel + 1) == Run(g, w, h, target, next, fuel)
  {
  }

  lemma RunFinish<N>(g: Graph<N>, w: WeightFn<N>, h: HeuristicFn<N>, target: N, st: State<N>, fuel: nat)
    requires |st.queue| > 0 && Step(g, w, h, target, st).Finish?
    ensures Run(g, w, h, target, st, fuel + 1) == Step(g, w, h, target, st).result
  {
  }

  /** A neighbour reached more cheaply than recorded is pushed with the next counter. */
  lemma Push<N>(g: Graph<N>, w: WeightFn<N>, h: HeuristicFn<N>, target: N, cur: Entry<N>, nb: N, st: State<N>,
                cost: real, hv: real, next: State<N>)
    requires w(g, PrevEdge(cur.trail, cur.node), (cur.node, nb)) == Some(cost)
    requires nb !in st.enqueued || cur.dist + cost < st.enqueued[nb].cost
    requires hv == if nb in st.enqueued then st.enqueued[nb].h else h(nb, target)
    requires next.queue == st.queue + [Entry(cur.dist + cost + hv, st.counter, nb, cur.dist + cost, Some(cur.node), cur.trail + [nb])]
    requires next.enqueued == st.enqueued[nb := Enq(cur.dist + cost, hv)]
    requires next.explored == st.explored && next.counter == st.counter + 1
    ensures RelaxOne(g, w, h, target, cur, nb, st) == Success(next)
  {
    RelaxOneSpec(g, w, h, target, cur, nb, st);
  }

  /** A neighbour already enqueued at no higher cost is left alone. */
  lemma Keep<N>(g: Graph<N>, w: WeightFn<N>, h: HeuristicFn<N>, target: N, cur: Entry<N>, nb: N, st: State<N>, cost: real)
    requires w(g, PrevEdge(cur.trail, cur.node), (cur.node, nb)) == Some(cost)
    requires nb in st.enqueued && st.enqueued[nb].cost <= cur.dist + cost
    ensures RelaxOne(g, w, h, target, cur, nb, st) == Success(st)
  {
  }
}
