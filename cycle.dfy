/**
 * A run in which the parent walk of the path reconstruction goes round a
 * cycle.
 *
 * With an edge-based weight, a node may be finalized a second time when it
 * is popped again at its best recorded cost, and the second assignment to
 * its `explored` entry can close a cycle of parents. Here the walk
 * S -> A -> B -> A costs 1 + 1 - 5 = -3, below the 1 that A was first
 * finalized at, so A's parent becomes B while B's parent is A. When T is
 * popped next, its parent walk alternates A, B, A, ... without ever
 * reaching the source.
 */
module CycleFixture {
  import opened Results
  import opened Graphs
  import opened Weights
  import opened Frontier
  import opened Search
  import opened Soundness
  import opened FixtureSteps

  datatype Node = S | A | B | T

  /** A directed graph with edges S -> A, A -> B, A -> T and B -> A; the weight below reads no attributes. */
  function G(): Graph<Node> {
    Graph(map[S := [A], A := [B, T], B := [A], T := []], map[], false)
  }

  /**
   * An edge-based weight: turning back from B to A is cheap (-5), turning
   * from A back to B after that is dear (100), and so is going straight on
   * from S through A to T (100); every other edge costs 1.
   */
  function LoopWeight(g: Graph<Node>, prev: Option<Edge<Node>>, cur: Edge<Node>): Option<real> {
    if prev == Some((A, B)) && cur == (B, A) then Some(-5.0)
    else if prev == Some((B, A)) && cur == (A, B) then Some(100.0)
    else if prev == Some((S, A)) && cur == (A, T) then Some(100.0)
    else Some(1.0)
  }

  function Zero(): HeuristicFn<Node> {
    HeuristicOrDefault(None)
  }

  // Entries pushed along the way, in push order: (priority, counter, node, dist, parent, path).
  function EA(): Entry<Node> { Entry(1.0, 1, A, 1.0, Some(S), [S, A]) }
  function EB(): Entry<Node> { Entry(2.0, 2, B, 2.0, Some(A), [S, A, B]) }
  function ET(): Entry<Node> { Entry(101.0, 3, T, 101.0, Some(A), [S, A, T]) }
  function EA2(): Entry<Node> { Entry(-3.0, 4, A, -3.0, Some(B), [S, A, B, A]) }
  function ET2(): Entry<Node> { Entry(-2.0, 5, T, -2.0, Some(A), [S, A, B, A, T]) }

  function AfterS(): State<Node> {
    State([EA()], map[A := Enq(1.0, 0.0)], map[S := None], 2)
  }

  function AfterA(): State<Node> {
    State([EB(), ET()], map[A := Enq(1.0, 0.0), B := Enq(2.0, 0.0), T := Enq(101.0, 0.0)],
          map[S := None, A := Some(S)], 4)
  }

  /** A is reached again through B at -3, below its recorded 1, and pushed again. */
  function AfterB(): State<Node> {
    State([ET(), EA2()], map[A := Enq(-3.0, 0.0), B := Enq(2.0, 0.0), T := Enq(101.0, 0.0)],
          map[S := None, A := Some(S), B := Some(A)], 5)
  }

  /** A is finalized a second time, now with parent B; T is reached at -2. */
  function AfterA2(): State<Node> {
    State([ET(), ET2()], map[A := Enq(-3.0, 0.0), B := Enq(2.0, 0.0), T := Enq(-2.0, 0.0)],
          map[S := None, A := Some(B), B := Some(A)], 6)
  }

  lemma ExpandS()
    ensures Step(G(), LoopWeight, Zero(), T, Init(S)) == Continue(AfterS())
  {
    var g, w, st := G(), LoopWeight, Init(S);
    var e := st.queue[0];
    assert MinIndex(st.queue) == 0;
    assert RemoveAt(st.queue, 0) == [];
    var fin := State([], map[], map[S := None], 1);
    assert e == Entry(0.0, 0, S, 0.0, None, [S]);
    assert [S] + [A] == [S, A] && [] + [EA()] == [EA()];
    DefaultEstimateIsZero<Node>(A, T);
    Push(g, w, Zero(), T, e, A, fin, 1.0, 0.0, AfterS());
    RelaxSingle(g, w, Zero(), T, e, A, fin);
    Expand(g, w, Zero(), T, st, 0, fin, AfterS());
  }

  lemma ExpandA()
    ensures Step(G(), LoopWeight, Zero(), T, AfterS()) == Continue(AfterA())
  {
    var g, w, st := G(), LoopWeight, AfterS();
    assert MinIndex(st.queue) == 0;
    assert RemoveAt(st.queue, 0) == [];
    var fin := State([], st.enqueued, map[S := None, A := Some(S)], 2);
    var mid := State([EB()], map[A := Enq(1.0, 0.0), B := Enq(2.0, 0.0)], fin.explored, 3);
    assert [S, A] + [B] == [S, A, B] && [S, A] + [T] == [S, A, T];
    assert [] + [EB()] == [EB()] && [EB()] + [ET()] == [EB(), ET()];
    DefaultEstimateIsZero<Node>(B, T);
    DefaultEstimateIsZero<Node>(T, T);
    Push(g, w, Zero(), T, EA(), B, fin, 1.0, 0.0, mid);
    Push(g, w, Zero(), T, EA(), T, mid, 100.0, 0.0, AfterA());
    RelaxPair(g, w, Zero(), T, EA(), B, T, fin, mid, AfterA());
    Expand(g, w, Zero(), T, st, 0, fin, AfterA());
  }

  lemma ExpandB()
    ensures Step(G(), LoopWeight, Zero(), T, AfterA()) == Continue(AfterB())
  {
    var g, w, st := G(), LoopWeight, AfterA();
    assert MinIndex(st.queue) == 0;
    assert RemoveAt(st.queue, 0) == [ET()];
    var fin := State([ET()], st.enqueued, st.explored[B := Some(A)], 4);
    assert [S, A, B] + [A] == [S, A, B, A] && [ET()] + [EA2()] == [ET(), EA2()];
    assert fin.enqueued[A := Enq(-3.0, 0.0)] == AfterB().enqueued;
    Push(g, w, Zero(), T, EB(), A, fin, -5.0, 0.0, AfterB());
    RelaxSingle(g, w, Zero(), T, EB(), A, fin);
    Expand(g, w, Zero(), T, st, 0, fin, AfterB());
  }

  /**
   * A is popped at -3, equal to its recorded cost, so it is finalized again
   * with parent B. B is kept (97 is not below 2) and T is pushed at -2.
   */
  lemma ExpandA2()
    ensures Step(G(), LoopWeight, Zero(), T, AfterB()) == Continue(AfterA2())
  {
    var g, w, st := G(), LoopWeight, AfterB();
    assert MinIndex(st.queue) == 1;
    assert RemoveAt(st.queue, 1) == [ET()];
    var fin := State([ET()], st.enqueued, st.explored[A := Some(B)], 5);
    assert fin.explored == AfterA2().explored;
    assert [S, A, B, A] + [T] == [S, A, B, A, T] && [ET()] + [ET2()] == [ET(), ET2()];
    assert fin.enqueued[T := Enq(-2.0, 0.0)] == AfterA2().enqueued;
    Keep(g, w, Zero(), T, EA2(), B, fin, 100.0);
    Push(g, w, Zero(), T, EA2(), T, fin, 1.0, 0.0, AfterA2());
    RelaxPair(g, w, Zero(), T, EA2(), B, T, fin, fin, AfterA2());
    Expand(g, w, Zero(), T, st, 1, fin, AfterA2());
  }

  /** The bounded parent walk from A spends its budget of 3 going round A, B, A. */
  lemma CycleWalk()
    ensures Reconstruct(AfterA2().explored, T, Some(A)) == Failure(ParentCycle)
  {
    var ex := AfterA2().explored;
    assert |ex| == 3;
    calc {
      WalkParents(ex, Some(A), 3, [T]);
      WalkParents(ex, Some(B), 2, [T, A]);
      WalkParents(ex, Some(A), 1, [T, A, B]);
      WalkParents(ex, Some(B), 0, [T, A, B, A]);
      Failure(ParentCycle);
    }
  }

  /** T is popped at -2, ahead of its stale entry at 101. */
  lemma PopTarget()
    ensures Step(G(), LoopWeight, Zero(), T, AfterA2()) == Finish(Failure(ParentCycle))
  {
    assert MinIndex(AfterA2().queue) == 1;
    CycleWalk();
  }

  /** The main loop from the initial entry reaches the target at its fifth iteration. */
  lemma CycleRun(f: nat)
    ensures Run(G(), LoopWeight, Zero(), T, Init(S), f + 5) == Failure(ParentCycle)
  {
    var g, w, h := G(), LoopWeight, Zero();
    ExpandS();
    ExpandA();
    ExpandB();
    ExpandA2();
    PopTarget();
    RunFinish(g, w, h, T, AfterA2(), f);
    RunContinue(g, w, h, T, AfterB(), f + 1, AfterA2());
    RunContinue(g, w, h, T, AfterA(), f + 2, AfterB());
    RunContinue(g, w, h, T, AfterS(), f + 3, AfterA());
    RunContinue(g, w, h, T, Init(S), f + 4, AfterS());
  }

  /**
   * The search reports the parent cycle at the fifth iteration, however
   * much fuel it is given.
   */
  lemma CycleReported(fuel: nat)
    requires fuel >= 5
    ensures AStarSpec(G(), S, T, None, Callable(LoopWeight), fuel) == Failure(ParentCycle)
  {
    CycleRun(fuel - 5);
  }

  /**
   * On the same run the reconstruction loop as written never stops: every
   * node of the chain `node = explored[node]` from T's parent is present,
   * so `node is not None` holds forever.
   */
  lemma PythonWalkNeverEnds()
    ensures forall k: nat :: Ancestor(AfterA2().explored, Some(A), k).Some?
  {
    CycleWalk();
    WalkCycleNeverEnds(AfterA2().explored, T, Some(A));
  }
}
