/**
 * The example graph of the test suite, worked through the search by hand.
 *
 * Two routes lead from S to T: S -> A1 -> T with weights -2 and 7, and
 * S -> A2 -> B2 -> C2 -> T with weight 1 on every edge. Summing attributes
 * makes the long route cheaper (4 against 5); dividing each edge's weight
 * by the previous edge's weight makes the short route cheaper (-2 + 7 / -2
 * = -5.5). Each lemma below fixes the state after one iteration of the main
 * loop, so the final results follow step by step.
 */
module Fixture {
  import opened Results
  import opened Graphs
  import opened Weights
  import opened Frontier
  import opened Search
  import opened FixtureSteps

  datatype Node = S | A1 | T | A2 | B2 | C2

  /** A directed graph (not a multigraph); adjacency lists in insertion order. */
  function G(): Graph<Node> {
    Graph(Adjacency(), Attributes(), false)
  }

  function Adjacency(): map<Node, seq<Node>> {
    map[S := [A1, A2], A1 := [T], T := [], A2 := [B2], B2 := [C2], C2 := [T]]
  }

  function Attributes(): map<Edge<Node>, map<string, real>> {
    map[(S, A1) := Weighted(-2.0), (A1, T) := Weighted(7.0),
        (S, A2) := Weighted(1.0), (A2, B2) := Weighted(1.0),
        (B2, C2) := Weighted(1.0), (C2, T) := Weighted(1.0)]
  }

  /** The attribute the test graph stores its weights under. */
  const Key: string := "weight"

  /** The attribute dictionary `{'weight': x}` of an edge. */
  function Weighted(x: real): map<string, real> {
    map[Key := x]
  }

  /**
   * What the search needs to know about the test graph: each node's
   * adjacency list and each edge's weight. The step lemmas below assume only
   * this of their graph, and `GraphShape` shows the test graph has it.
   */
  ghost predicate Shape(g: Graph<Node>) {
    && S in g.adj && g.adj[S] == [A1, A2]
    && A1 in g.adj && g.adj[A1] == [T]
    && A2 in g.adj && g.adj[A2] == [B2]
    && B2 in g.adj && g.adj[B2] == [C2]
    && C2 in g.adj && g.adj[C2] == [T]
    && T in g.adj
    && !g.isMultigraph
    && EdgeAttribute(g, (S, A1), Key) == Some(-2.0)
    && EdgeAttribute(g, (A1, T), Key) == Some(7.0)
    && EdgeAttribute(g, (S, A2), Key) == Some(1.0)
    && EdgeAttribute(g, (A2, B2), Key) == Some(1.0)
    && EdgeAttribute(g, (B2, C2), Key) == Some(1.0)
    && EdgeAttribute(g, (C2, T), Key) == Some(1.0)
  }

  lemma GraphShape()
    ensures Shape(G())
  {
  }

  /**
   * The test's edge-based weight: the current edge's weight alone for the
   * first edge, otherwise divided by the previous edge's weight. A missing
   * edge or a zero previous weight makes it raise.
   */
  function DependentWeight(g: Graph<Node>, prev: Option<Edge<Node>>, cur: Edge<Node>): Option<real> {
    match prev
    case None => EdgeAttribute(g, cur, Key)
    case Some(p) =>
      match (EdgeAttribute(g, p, Key), EdgeAttribute(g, cur, Key))
      case (Some(pw), Some(cw)) => if pw == 0.0 then None else Some(cw / pw)
      case _ => None
  }

  function Zero(): HeuristicFn<Node> {
    HeuristicOrDefault(None)
  }

  function Summed(): WeightFn<Node> {
    AttributeWeight(Key)
  }

  // Entries pushed along the way, in push order: (priority, counter, node, dist, parent, path).
  function EA1(): Entry<Node> { Entry(-2.0, 1, A1, -2.0, Some(S), [S, A1]) }
  function EA2(): Entry<Node> { Entry(1.0, 2, A2, 1.0, Some(S), [S, A2]) }

  /** After the source is expanded, with either weight. */
  function AfterSource(): State<Node> {
    State([EA1(), EA2()], map[A1 := Enq(-2.0, 0.0), A2 := Enq(1.0, 0.0)], map[S := None], 3)
  }

  lemma ExpandSource(g: Graph<Node>, w: WeightFn<Node>)
    requires Shape(g)
    requires w == Summed() || w == DependentWeight
    ensures Step(g, w, Zero(), T, Init(S)) == Continue(AfterSource())
  {
    var h, st := Zero(), Init(S);
    var e := st.queue[0];
    assert MinIndex(st.queue) == 0;
    assert RemoveAt(st.queue, 0) == [];
    var fin := State([], map[], map[S := None], 1);
    assert w(g, None, (S, A1)) == Some(-2.0);
    assert w(g, None, (S, A2)) == Some(1.0);
    var mid := State([EA1()], map[A1 := Enq(-2.0, 0.0)], map[S := None], 2);
    assert e == Entry(0.0, 0, S, 0.0, None, [S]);
    assert [S] + [A1] == [S, A1] && [S] + [A2] == [S, A2];
    assert [] + [EA1()] == [EA1()] && [EA1()] + [EA2()] == [EA1(), EA2()];
    DefaultEstimateIsZero<Node>(A1, T);
    Push(g, w, Zero(), T, e, A1, fin, -2.0, 0.0, mid);
    DefaultEstimateIsZero<Node>(A2, T);
    Push(g, w, Zero(), T, e, A2, mid, 1.0, 0.0, AfterSource());
    assert RelaxAll(g, w, h, T, e, [A2], mid) == Success(AfterSource());
    assert RelaxAll(g, w, h, T, e, [A1, A2], fin) == Success(AfterSource());
  }

  // --- summed attribute weights ---

  function ET1(): Entry<Node> { Entry(5.0, 3, T, 5.0, Some(A1), [S, A1, T]) }
  function EB2(): Entry<Node> { Entry(2.0, 4, B2, 2.0, Some(A2), [S, A2, B2]) }
  function EC2(): Entry<Node> { Entry(3.0, 5, C2, 3.0, Some(B2), [S, A2, B2, C2]) }
  function ET2(): Entry<Node> { Entry(4.0, 6, T, 4.0, Some(C2), [S, A2, B2, C2, T]) }

  function SummedAfterA1(): State<Node> {
    State([EA2(), ET1()],
          map[A1 := Enq(-2.0, 0.0), A2 := Enq(1.0, 0.0), T := Enq(5.0, 0.0)],
          map[S := None, A1 := Some(S)], 4)
  }

  function SummedAfterA2(): State<Node> {
    State([ET1(), EB2()],
          map[A1 := Enq(-2.0, 0.0), A2 := Enq(1.0, 0.0), T := Enq(5.0, 0.0), B2 := Enq(2.0, 0.0)],
          map[S := None, A1 := Some(S), A2 := Some(S)], 5)
  }

  function SummedAfterB2(): State<Node> {
    State([ET1(), EC2()],
          map[A1 := Enq(-2.0, 0.0), A2 := Enq(1.0, 0.0), T := Enq(5.0, 0.0), B2 := Enq(2.0, 0.0), C2 := Enq(3.0, 0.0)],
          map[S := None, A1 := Some(S), A2 := Some(S), B2 := Some(A2)], 6)
  }

  /** Reaching T again through C2 costs 4, below the 5 recorded through A1, so T is pushed a second time. */
  function SummedAfterC2(): State<Node> {
    State([ET1(), ET2()],
          map[A1 := Enq(-2.0, 0.0), A2 := Enq(1.0, 0.0), T := Enq(4.0, 0.0), B2 := Enq(2.0, 0.0), C2 := Enq(3.0, 0.0)],
          map[S := None, A1 := Some(S), A2 := Some(S), B2 := Some(A2), C2 := Some(B2)], 7)
  }

  lemma SummedExpandA1(g: Graph<Node>)
    requires Shape(g)
    ensures Step(g, Summed(), Zero(), T, AfterSource()) == Continue(SummedAfterA1())
  {
    var st, w := AfterSource(), Summed();
    assert MinIndex(st.queue) == 0;
    assert RemoveAt(st.queue, 0) == [EA2()];
    var fin := State([EA2()], st.enqueued, st.explored[A1 := Some(S)], 3);
    assert w(g, Some((S, A1)), (A1, T)) == Some(7.0);
    assert [S, A1] + [T] == [S, A1, T] && [EA2()] + [ET1()] == [EA2(), ET1()];
    DefaultEstimateIsZero<Node>(T, T);
    Push(g, w, Zero(), T, EA1(), T, fin, 7.0, 0.0, SummedAfterA1());
    RelaxSingle(g, w, Zero(), T, EA1(), T, fin);
    Expand(g, w, Zero(), T, st, 0, fin, SummedAfterA1());
  }

  lemma SummedExpandA2(g: Graph<Node>)
    requires Shape(g)
    ensures Step(g, Summed(), Zero(), T, SummedAfterA1()) == Continue(SummedAfterA2())
  {
    var st, w := SummedAfterA1(), Summed();
    assert MinIndex(st.queue) == 0;
    assert RemoveAt(st.queue, 0) == [ET1()];
    var fin := State([ET1()], st.enqueued, st.explored[A2 := Some(S)], 4);
    assert w(g, Some((S, A2)), (A2, B2)) == Some(1.0);
    assert [S, A2] + [B2] == [S, A2, B2] && [ET1()] + [EB2()] == [ET1(), EB2()];
    DefaultEstimateIsZero<Node>(B2, T);
    Push(g, w, Zero(), T, EA2(), B2, fin, 1.0, 0.0, SummedAfterA2());
    RelaxSingle(g, w, Zero(), T, EA2(), B2, fin);
    Expand(g, w, Zero(), T, st, 0, fin, SummedAfterA2());
  }

  lemma SummedExpandB2(g: Graph<Node>)
    requires Shape(g)
    ensures Step(g, Summed(), Zero(), T, SummedAfterA2()) == Continue(SummedAfterB2())
  {
    var st, w := SummedAfterA2(), Summed();
    assert MinIndex(st.queue) == 1;
    assert RemoveAt(st.queue, 1) == [ET1()];
    var fin := State([ET1()], st.enqueued, st.explored[B2 := Some(A2)], 5);
    assert w(g, Some((A2, B2)), (B2, C2)) == Some(1.0);
    assert [S, A2, B2] + [C2] == [S, A2, B2, C2] && [ET1()] + [EC2()] == [ET1(), EC2()];
    DefaultEstimateIsZero<Node>(C2, T);
    Push(g, w, Zero(), T, EB2(), C2, fin, 1.0, 0.0, SummedAfterB2());
    RelaxSingle(g, w, Zero(), T, EB2(), C2, fin);
    Expand(g, w, Zero(), T, st, 1, fin, SummedAfterB2());
  }

  lemma SummedExpandC2(g: Graph<Node>)
    requires Shape(g)
    ensures Step(g, Summed(), Zero(), T, SummedAfterB2()) == Continue(SummedAfterC2())
  {
    var st, w := SummedAfterB2(), Summed();
    assert MinIndex(st.queue) == 1;
    assert RemoveAt(st.queue, 1) == [ET1()];
    var fin := State([ET1()], st.enqueued, st.explored[C2 := Some(B2)], 6);
    assert w(g, Some((B2, C2)), (C2, T)) == Some(1.0);
    assert [S, A2, B2, C2] + [T] == [S, A2, B2, C2, T] && [ET1()] + [ET2()] == [ET1(), ET2()];
    assert fin.enqueued[T := Enq(4.0, 0.0)] == SummedAfterC2().enqueued;
    DefaultEstimateIsZero<Node>(T, T);
    Push(g, w, Zero(), T, EC2(), T, fin, 1.0, 0.0, SummedAfterC2());
    RelaxSingle(g, w, Zero(), T, EC2(), T, fin);
    Expand(g, w, Zero(), T, st, 1, fin, SummedAfterC2());
  }

  /** The parent walk from C2 reaches the source through B2 and A2. */
  lemma SummedWalk()
    ensures Reconstruct(SummedAfterC2().explored, T, Some(C2)) == Success([S, A2, B2, C2, T])
  {
    var ex := SummedAfterC2().explored;
    assert |ex| == 5;
    assert [T] + [C2] == [T, C2] && [T, C2] + [B2] == [T, C2, B2];
    assert [T, C2, B2] + [A2] == [T, C2, B2, A2] && [T, C2, B2, A2] + [S] == [T, C2, B2, A2, S];
    calc {
      WalkParents(ex, Some(C2), 5, [T]);
      WalkParents(ex, Some(B2), 4, [T, C2]);
      WalkParents(ex, Some(A2), 3, [T, C2, B2]);
      WalkParents(ex, Some(S), 2, [T, C2, B2, A2]);
      WalkParents(ex, None, 1, [T, C2, B2, A2, S]);
      Success([T, C2, B2, A2, S]);
    }
    assert Reversed([T, C2, B2, A2, S]) == [S, A2, B2, C2, T];
  }

  /** T is popped at cost 4, ahead of its stale entry at cost 5. */
  lemma SummedPopTarget(g: Graph<Node>)
    requires Shape(g)
    ensures Step(g, Summed(), Zero(), T, SummedAfterC2()) == Finish(Success([S, A2, B2, C2, T]))
  {
    assert MinIndex(SummedAfterC2().queue) == 1;
    SummedWalk();
  }

  /** The main loop from the initial entry, with summed attribute weights. */
  lemma SummedRun(g: Graph<Node>)
    requires Shape(g)
    ensures Run(g, Summed(), Zero(), T, Init(S), 6) == Success([S, A2, B2, C2, T])
  {
    ExpandSource(g, Summed());
    SummedExpandA1(g);
    SummedExpandA2(g);
    SummedExpandB2(g);
    SummedExpandC2(g);
    SummedPopTarget(g);
    var w, h := Summed(), Zero();
    RunFinish(g, w, h, T, SummedAfterC2(), 0);
    RunContinue(g, w, h, T, SummedAfterB2(), 1, SummedAfterC2());
    RunContinue(g, w, h, T, SummedAfterA2(), 2, SummedAfterB2());
    RunContinue(g, w, h, T, SummedAfterA1(), 3, SummedAfterA2());
    RunContinue(g, w, h, T, AfterSource(), 4, SummedAfterA1());
    RunContinue(g, w, h, T, Init(S), 5, AfterSource());
  }

  /** With the weight attribute, the search returns the long route S, A2, B2, C2, T. */
  lemma SummedPath()
    ensures AStarSpec(G(), S, T, None, Attribute(Key), 6) == Success([S, A2, B2, C2, T])
  {
    GraphShape();
    SummedRun(G());
  }

  // --- the edge-based weight ---

  function ETd(): Entry<Node> { Entry(-5.5, 3, T, -5.5, Some(A1), [S, A1, T]) }

  /** Through A1 the edge to T costs 7 / -2 = -3.5, so T is reached at -5.5. */
  function DependentAfterA1(): State<Node> {
    State([EA2(), ETd()],
          map[A1 := Enq(-2.0, 0.0), A2 := Enq(1.0, 0.0), T := Enq(-5.5, 0.0)],
          map[S := None, A1 := Some(S)], 4)
  }

  lemma DependentExpandA1(g: Graph<Node>)
    requires Shape(g)
    ensures Step(g, DependentWeight, Zero(), T, AfterSource()) == Continue(DependentAfterA1())
  {
    var st, w := AfterSource(), DependentWeight;
    assert MinIndex(st.queue) == 0;
    assert RemoveAt(st.queue, 0) == [EA2()];
    var fin := State([EA2()], st.enqueued, st.explored[A1 := Some(S)], 3);
    assert w(g, Some((S, A1)), (A1, T)) == Some(-3.5);
    assert [S, A1] + [T] == [S, A1, T] && [EA2()] + [ETd()] == [EA2(), ETd()];
    DefaultEstimateIsZero<Node>(T, T);
    Push(g, w, Zero(), T, EA1(), T, fin, -3.5, 0.0, DependentAfterA1());
    RelaxSingle(g, w, Zero(), T, EA1(), T, fin);
    Expand(g, w, Zero(), T, st, 0, fin, DependentAfterA1());
  }

  /** The parent walk from A1 reaches the source directly. */
  lemma DependentWalk()
    ensures Reconstruct(DependentAfterA1().explored, T, Some(A1)) == Success([S, A1, T])
  {
    var ex := DependentAfterA1().explored;
    assert |ex| == 2;
    assert [T] + [A1] == [T, A1] && [T, A1] + [S] == [T, A1, S];
    calc {
      WalkParents(ex, Some(A1), 2, [T]);
      WalkParents(ex, Some(S), 1, [T, A1]);
      WalkParents(ex, None, 0, [T, A1, S]);
      Success([T, A1, S]);
    }
    assert Reversed([T, A1, S]) == [S, A1, T];
  }

  /** T is popped at cost -5.5, ahead of A2 at cost 1. */
  lemma DependentPopTarget(g: Graph<Node>)
    requires Shape(g)
    ensures Step(g, DependentWeight, Zero(), T, DependentAfterA1()) == Finish(Success([S, A1, T]))
  {
    assert MinIndex(DependentAfterA1().queue) == 1;
    DependentWalk();
  }

  lemma DependentRun(g: Graph<Node>)
    requires Shape(g)
    ensures Run(g, DependentWeight, Zero(), T, Init(S), 3) == Success([S, A1, T])
  {
    ExpandSource(g, DependentWeight);
    DependentExpandA1(g);
    DependentPopTarget(g);
    var w, h := DependentWeight, Zero();
    RunFinish(g, w, h, T, DependentAfterA1(), 0);
    RunContinue(g, w, h, T, AfterSource(), 1, DependentAfterA1());
    RunContinue(g, w, h, T, Init(S), 2, AfterSource());
  }

  /** With the edge-based weight, the search returns the short route S, A1, T. */
  lemma DependentPath()
    ensures AStarSpec(G(), S, T, None, Callable(DependentWeight), 3) == Success([S, A1, T])
  {
    GraphShape();
    DependentRun(G());
  }

  /** Replayed with the edge-based weight, the route S, A1, T has length -2 + 7 / -2 = -5.5. */
  lemma DependentLength()
    ensures AStarLengthSpec(G(), S, T, None, Callable(DependentWeight), 3) == Success(-5.5)
  {
    DependentPath();
    GraphShape();
    DependentReplay(G());
  }

  lemma DependentReplay(g: Graph<Node>)
    requires Shape(g)
    ensures PathLength(DependentWeight, g, [S, A1, T]) == Success(-5.5)
  {
    var es := PathEdges([S, A1, T]);
    assert es == [(S, A1), (A1, T)];
    var ps := PrevEdges(es);
    assert ps == [None, Some((S, A1))];
    var w := DependentWeight;
    calc {
      SumWeights(w, g, ps, es, 0.0);
      SumWeights(w, g, ps[1..], es[1..], -2.0);
      SumWeights(w, g, ps[2..], es[2..], -5.5);
      Success(-5.5);
    }
  }

  /** Replayed with the weight attribute, the route S, A2, B2, C2, T has length 4. */
  lemma SummedLength()
    ensures AStarLengthSpec(G(), S, T, None, Attribute(Key), 6) == Success(4.0)
  {
    GraphShape();
    SummedRun(G());
    SummedReplay(G());
  }

  lemma SummedReplay(g: Graph<Node>)
    requires Shape(g)
    ensures PathLength(Summed(), g, [S, A2, B2, C2, T]) == Success(4.0)
  {
    var p := [S, A2, B2, C2, T];
    var es := PathEdges(p);
    assert es == [(S, A2), (A2, B2), (B2, C2), (C2, T)];
    var ps := PrevEdges(es);
    var w := Summed();
    calc {
      SumWeights(w, g, ps, es, 0.0);
      SumWeights(w, g, ps[1..], es[1..], 1.0);
      SumWeights(w, g, ps[2..], es[2..], 2.0);
      SumWeights(w, g, ps[3..], es[3..], 3.0);
      SumWeights(w, g, ps[4..], es[4..], 4.0);
      Success(4.0);
    }
  }
}
