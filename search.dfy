/**
 * The A* search of `astar_path` as a state machine over its call-local
 * state: the queue, the `enqueued` table, the `explored` table and the
 * tie-break counter. One `Step` is one iteration of the main loop.
 */
module Search {
  import opened Results
  import opened Graphs
  import opened Weights
  import opened Frontier

  /** An `enqueued` record: the best cost found so far and the node's heuristic value. */
  datatype Enq = Enq(cost: real, h: real)

  /** `counter` is the next value `next(c)` hands out. */
  datatype State<N> = State(queue: seq<Entry<N>>, enqueued: map<N, Enq>, explored: map<N, Option<N>>, counter: nat)

  /** The state before the main loop: one entry `(0, 0, source, 0, None, [source])`. */
  function Init<N>(source: N): State<N> {
    State([Entry(0.0, 0, source, 0.0, None, [source])], map[], map[], 1)
  }

  /** `(explored_path[-2], curnode)`, or `None` when indexing `[-2]` raises IndexError. */
  function PrevEdge<N>(trail: seq<N>, cur: N): Option<Edge<N>> {
    if |trail| >= 2 then Some((trail[|trail| - 2], cur)) else None
  }

  /** Every node already in `before` is still there, at no higher cost and with the same heuristic value. */
  ghost predicate EnqueuedNeverRises<N>(before: map<N, Enq>, after: map<N, Enq>) {
    forall n | n in before :: n in after && after[n].cost <= before[n].cost && after[n].h == before[n].h
  }

  /**
   * The entries `after` has beyond `before` were appended in order, the
   * k-th of them with counter `before.counter + k`, and the counter moved
   * past all of them.
   */
  ghost predicate PushedInOrder<N>(before: State<N>, after: State<N>) {
    && |before.queue| <= |after.queue|
    && after.queue[..|before.queue|] == before.queue
    && after.counter == before.counter + (|after.queue| - |before.queue|)
    && forall k :: |before.queue| <= k < |after.queue| ==>
         after.queue[k].counter == before.counter + (k - |before.queue|)
  }

  /**
   * One pass of the loop over the neighbours of `cur.node`: charge the edge
   * to `nb` with the previous edge of `cur.trail`, and push `nb` unless it
   * is already enqueued at a cost no higher than the new one.
   */
  function RelaxOne<N>(g: Graph<N>, w: WeightFn<N>, h: HeuristicFn<N>, target: N, cur: Entry<N>, nb: N, st: State<N>): Result<State<N>> {
    match w(g, PrevEdge(cur.trail, cur.node), (cur.node, nb))
    case None => Failure(WeightFailed)
    case Some(c) =>
      var ncost := cur.dist + c;
      if nb in st.enqueued && st.enqueued[nb].cost <= ncost then Success(st)
      else
        var hv := if nb in st.enqueued then st.enqueued[nb].h else h(nb, target);
        var e := Entry(ncost + hv, st.counter, nb, ncost, Some(cur.node), cur.trail + [nb]);
        Success(State(st.queue + [e], st.enqueued[nb := Enq(ncost, hv)], st.explored, st.counter + 1))
  }

  /**
   * A neighbour is pushed exactly when it is not enqueued yet or the new
   * cost is strictly below its recorded one; the pushed entry takes the
   * next counter, its priority is its cost plus the heuristic value (reused
   * when the node was enqueued before), and it extends the walk of `cur`.
   * Otherwise nothing changes. `enqueued` costs never rise.
   */
  lemma RelaxOneSpec<N>(g: Graph<N>, w: WeightFn<N>, h: HeuristicFn<N>, target: N, cur: Entry<N>, nb: N, st: State<N>)
    ensures var r := RelaxOne(g, w, h, target, cur, nb, st);
            var wc := w(g, PrevEdge(cur.trail, cur.node), (cur.node, nb));
            && (r.Failure? <==> wc.None?)
            && (r.Failure? ==> r.error == WeightFailed)
            && (r.Success? ==>
                  var ncost := cur.dist + wc.value;
                  var pushed := nb !in st.enqueued || ncost < st.enqueued[nb].cost;
                  var hv := if nb in st.enqueued then st.enqueued[nb].h else h(nb, target);
                  && r.value.explored == st.explored
                  && EnqueuedNeverRises(st.enqueued, r.value.enqueued)
                  && PushedInOrder(st, r.value)
                  && (!pushed ==> r.value == st)
                  && (pushed ==>
                        && r.value.queue == st.queue + [Entry(ncost + hv, st.counter, nb, ncost, Some(cur.node), cur.trail + [nb])]
                        && r.value.enqueued == st.enqueued[nb := Enq(ncost, hv)]))
  {
  }

  /** The whole loop `for neighbor, w in graph[curnode].items()`. */
  function RelaxAll<N>(g: Graph<N>, w: WeightFn<N>, h: HeuristicFn<N>, target: N, cur: Entry<N>, nbrs: seq<N>, st: State<N>): Result<State<N>>
    decreases |nbrs|
  {
    if nbrs == [] then Success(st)
    else
      match RelaxOne(g, w, h, target, cur, nbrs[0], st)
      case Failure(e) => Failure(e)
      case Success(st1) => RelaxAll(g, w, h, target, cur, nbrs[1..], st1)
  }

  /**
   * Across the whole neighbour loop: only a raising weight fails it,
   * `explored` is untouched, `enqueued` costs never rise and heuristic
   * values are kept, and the pushed entries are appended with consecutive
   * counters.
   */
  lemma {:induction false} RelaxAllSpec<N>(g: Graph<N>, w: WeightFn<N>, h: HeuristicFn<N>, target: N, cur: Entry<N>, nbrs: seq<N>, st: State<N>)
    ensures var r := RelaxAll(g, w, h, target, cur, nbrs, st);
            && (r.Failure? ==> r.error == WeightFailed)
            && (r.Success? ==>
                  && r.value.explored == st.explored
                  && EnqueuedNeverRises(st.enqueued, r.value.enqueued)
                  && PushedInOrder(st, r.value))
    decreases |nbrs|
  {
    if nbrs != [] {
      RelaxOneSpec(g, w, h, target, cur, nbrs[0], st);
      var r1 := RelaxOne(g, w, h, target, cur, nbrs[0], st);
      if r1.Success? {
        RelaxAllSpec(g, w, h, target, cur, nbrs[1..], r1.value);
        var r := RelaxAll(g, w, h, target, cur, nbrs[1..], r1.value);
        if r.Success? {
          var a, b, d := st.queue, r1.value.queue, r.value.queue;
          assert d[..|a|] == b[..|b|][..|a|];
        }
      }
    }
  }

  /**
   * The parent walk `while node is not None: path.append(node); node = explored[node]`
   * with `acc` the list built so far. `budget` bounds the appends: once it is
   * spent the walk has met more nodes than `explored` has keys, so it is
   * going round a cycle.
   */
  function WalkParents<N>(explored: map<N, Option<N>>, node: Option<N>, budget: nat, acc: seq<N>): Result<seq<N>>
    decreases budget
  {
    if node.None? then Success(acc)
    else if node.value !in explored then Failure(MissingKey)
    else if budget == 0 then Failure(ParentCycle)
    else WalkParents(explored, explored[node.value], budget - 1, acc + [node.value])
  }

  /** The path returned when `target` is popped with `parent`: the parent walk, reversed. */
  function Reconstruct<N>(explored: map<N, Option<N>>, target: N, parent: Option<N>): Result<seq<N>> {
    match WalkParents(explored, parent, |explored|, [target])
    case Failure(e) => Failure(e)
    case Success(p) => Success(Reversed(p))
  }

  datatype Outcome<N> = Continue(next: State<N>) | Finish(result: Result<seq<N>>)

  /** One iteration of `while queue`. */
  function Step<N>(g: Graph<N>, w: WeightFn<N>, h: HeuristicFn<N>, target: N, st: State<N>): Outcome<N>
    requires |st.queue| > 0
  {
    var i := MinIndex(st.queue);
    var e := st.queue[i];
    var popped := st.(queue := RemoveAt(st.queue, i));
    if e.node == target then Finish(Reconstruct(st.explored, e.node, e.parent))
    else if e.node in st.explored && st.explored[e.node].None? then Continue(popped)
    else if e.node in st.explored && e.node !in st.enqueued then Finish(Failure(MissingKey))
    else if e.node in st.explored && st.enqueued[e.node].cost < e.dist then Continue(popped)
    else if e.node !in g.adj then Finish(Failure(MissingKey))
    else
      var finalized := popped.(explored := popped.explored[e.node := e.parent]);
      match RelaxAll(g, w, h, target, e, g.adj[e.node], finalized)
      case Failure(err) => Finish(Failure(err))
      case Success(next) => Continue(next)
  }

  /** The main loop, run for at most `fuel` iterations. */
  function Run<N>(g: Graph<N>, w: WeightFn<N>, h: HeuristicFn<N>, target: N, st: State<N>, fuel: nat): Result<seq<N>>
    decreases fuel, 1
  {
    if |st.queue| == 0 then Failure(NoPath)
    else if fuel == 0 then Failure(OutOfFuel)
    else Resume(g, w, h, target, Step(g, w, h, target, st), fuel - 1)
  }

  /** The loop after one iteration: return its result, or go on from the new state. */
  function Resume<N>(g: Graph<N>, w: WeightFn<N>, h: HeuristicFn<N>, target: N, o: Outcome<N>, fuel: nat): Result<seq<N>>
    decreases fuel, 2
  {
    match o
    case Finish(r) => r
    case Continue(next) => Run(g, w, h, target, next, fuel)
  }

  /** `astar_path`: check the endpoints, pick the heuristic, resolve the weight, search. */
  function AStarSpec<N>(g: Graph<N>, source: N, target: N, heuristic: Option<HeuristicFn<N>>, weight: WeightSpec<N>, fuel: nat): Result<seq<N>> {
    if source !in g.adj || target !in g.adj then Failure(NodeNotFound)
    else
      var h := HeuristicOrDefault(heuristic);
      match ResolveWeight(g, weight)
      case Failure(e) => Failure(e)
      case Success(w) => Run(g, w, h, target, Init(source), fuel)
  }

  /** `astar_path_length`: search with the resolved weight, then replay the path through it. */
  function AStarLengthSpec<N>(g: Graph<N>, source: N, target: N, heuristic: Option<HeuristicFn<N>>, weight: WeightSpec<N>, fuel: nat): Result<real> {
    if source !in g.adj || target !in g.adj then Failure(NodeNotFound)
    else
      match ResolveWeight(g, weight)
      case Failure(e) => Failure(e)
      case Success(w) =>
        match AStarSpec(g, source, target, heuristic, Callable(w), fuel)
        case Failure(e) => Failure(e)
        case Success(path) => PathLength(w, g, path)
  }
}
