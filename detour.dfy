/**
 * A run in which `astar_path` returns a different walk from the one along
 * which it reached the target, so `astar_path_length` reports a cost that
 * is not the one the search found.
 *
 * The target T is first reached along S -> A -> T at cost 11. Afterwards A
 * is reached again, through B, at cost 0, equal to its new recorded cost,
 * so it is finalized a second time with parent B; relaxing T from there
 * costs 100 and changes nothing. When T is popped at cost 11, the
 * reconstruction follows the parent table and returns S, B, A, T, whose
 * replayed length is 100.
 */
module DetourFixture {
  import opened Results
  import opened Graphs
  import opened Weights
  import opened Frontier
  import opened Search
  import opened FixtureSteps

  datatype Node = S | A | B | T

  /** Edges S -> A, S -> B, B -> A and A -> T; the weight below reads no attributes. */
  function G(): Graph<Node> {
    Graph(map[S := [A, B], A := [T], B := [A], T := []], map[], false)
  }

  /**
   * An edge-based weight: B -> A after S -> B costs -1, A -> T costs 10
   * after S -> A and 100 after B -> A; every other edge costs 1.
   */
  function DetourWeight(g: Graph<Node>, prev: Option<Edge<Node>>, cur: Edge<Node>): Option<real> {
    if prev == Some((S, B)) && cur == (B, A) then Some(-1.0)
    else if prev == Some((S, A)) && cur == (A, T) then Some(10.0)
    else if prev == Some((B, A)) && cur == (A, T) then Some(100.0)
    else Some(1.0)
  }

  function Zero(): HeuristicFn<Node> {
    HeuristicOrDefault(None)
  }

  // Entries pushed along the way, in push order: (priority, counter, node, dist, parent, path).
  function EA(): Entry<Node> { Entry(1.0, 1, A, 1.0, Some(S), [S, A]) }
  function EB(): Entry<Node> { Entry(1.0, 2, B, 1.0, Some(S), [S, B]) }
  function ET(): Entry<Node> { Entry(11.0, 3, T, 11.0, Some(A), [S, A, T]) }
  function EA2(): Entry<Node> { Entry(0.0, 4, A, 0.0, Some(B), [S, B, A]) }

  function AfterS(): State<Node> {
    State([EA(), EB()], map[A := Enq(1.0, 0.0), B := Enq(1.0, 0.0)], map[S := None], 3)
  }

  /** T is reached along S, A, T at cost 11. */
  function AfterA(): State<Node> {
    State([EB(), ET()], map[A := Enq(1.0, 0.0), B := Enq(1.0, 0.0), T := Enq(11.0, 0.0)],
          map[S := None, A := Some(S)], 4)
  }

  /** A is reached again through B at 0, below its recorded 1, and pushed again. */
  function AfterB(): State<Node> {
    State([ET(), EA2()], map[A := Enq(0.0, 0.0), B := Enq(1.0, 0.0), T := Enq(11.0, 0.0)],
          map[S := None, A := Some(S), B := Some(S)], 5)
  }

  /** A is finalized again with parent B; T through it would cost 100, so it is left alone. */
  function AfterA2(): State<Node> {
    State([ET()], map[A := Enq(0.0, 0.0), B := Enq(1.0, 0.0), T := Enq(11.0, 0.0)],
          map[S := None, A := Some(B), B := Some(S)], 5)
  }

  lemma ExpandS()
    ensures Step(G(), DetourWeight, Zero(), T, Init(S)) == Continue(AfterS())
  {
    var g, w, st := G(), DetourWeight, Init(S);
    var e := st.queue[0];
    assert MinIndex(st.queue) == 0;
    assert RemoveAt(st.queue, 0) == [];
    var fin := State([], map[], map[S := None], 1);
    var mid := State([EA()], map[A := Enq(1.0, 0.0)], map[S := None], 2);
    assert e == Entry(0.0, 0, S, 0.0, None, [S]);
    assert [S] + [A] == [S, A] && [S] + [B] == [S, B];
    assert [] + [EA()] == [EA()] && [EA()] + [EB()] == [EA(), EB()];
    DefaultEstimateIsZero<Node>(A, T);
    DefaultEstimateIsZero<Node>(B, T);
    Push(g, w, Zero(), T, e, A, fin, 1.0, 0.0, mid);
    Push(g, w, Zero(), T, e, B, mid, 1.0, 0.0, AfterS());
    RelaxPair(g, w, Zero(), T, e, A, B, fin, mid, AfterS());
    Expand(g, w, Zero(), T, st, 0, fin, AfterS());
  }

  lemma ExpandA()
    ensures Step(G(), DetourWeight, Zero(), T, AfterS()) == Continue(AfterA())
  {
    var g, w, st := G(), DetourWeight, AfterS();
    assert MinIndex(st.queue) == 0;
    assert RemoveAt(st.queue, 0) == [EB()];
    var fin := State([EB()], st.enqueued, map[S := None, A := Some(S)], 3);
    assert [S, A] + [T] == [S, A, T] && [EB()] + [ET()] == [EB(), ET()];
    DefaultEstimateIsZero<Node>(T, T);
    Push(g, w, Zero(), T, EA(), T, fin, 10.0, 0.0, AfterA());
    RelaxSingle(g, w, Zero(), T, EA(), T, fin);
    Expand(g, w, Zero(), T, st, 0, fin, AfterA());
  }

  lemma ExpandB()
    ensures Step(G(), DetourWeight, Zero(), T, AfterA()) == Continue(AfterB())
  {
    var g, w, st := G(), DetourWeight, AfterA();
    assert MinIndex(st.queue) == 0;
    assert RemoveAt(st.queue, 0) == [ET()];
    var fin := State([ET()], st.enqueued, st.explored[B := Some(S)], 4);
    assert [S, B] + [A] == [S, B, A] && [ET()] + [EA2()] == [ET(), EA2()];
    assert fin.enqueued[A := Enq(0.0, 0.0)] == AfterB().enqueued;
    Push(g, w, Zero(), T, EB(), A, fin, -1.0, 0.0, AfterB());
    RelaxSingle(g, w, Zero(), T, EB(), A, fin);
    Expand(g, w, Zero(), T, st, 0, fin, AfterB());
  }

  /** A is popped at 0, equal to its recorded cost, and finalized again with parent B. */
  lemma ExpandA2()
    ensures Step(G(), DetourWeight, Zero(), T, AfterB()) == Continue(AfterA2())
  {
    var g, w, st := G(), DetourWeight, AfterB();
    assert MinIndex(st.queue) == 1;
    assert RemoveAt(st.queue, 1) == [ET()];
    var fin := State([ET()], st.enqueued, st.explored[A := Some(B)], 5);
    assert fin.explored == AfterA2().explored;
    Keep(g, w, Zero(), T, EA2(), T, fin, 100.0);
    RelaxSingle(g, w, Zero(), T, EA2(), T, fin);
    Expand(g, w, Zero(), T, st, 1, fin, AfterA2());
  }

  /** The parent walk from A goes through B, not back to S directly. */
  lemma DetourWalk()
    ensures Reconstruct(AfterA2().explored, T, Some(A)) == Success([S, B, A, T])
  {
    var ex := AfterA2().explored;
    assert |ex| == 3;
    assert [T] + [A] == [T, A] && [T, A] + [B] == [T, A, B] && [T, A, B] + [S] == [T, A, B, S];
    calc {
      WalkParents(ex, Some(A), 3, [T]);
      WalkParents(ex, Some(B), 2, [T, A]);
      WalkParents(ex, Some(S), 1, [T, A, B]);
      WalkParents(ex, None, 0, [T, A, B, S]);
      Success([T, A, B, S]);
    }
    assert Reversed([T, A, B, S]) == [S, B, A, T];
  }

  /** T is popped with the entry it was pushed with along S, A, T at cost 11. */
  lemma PopTarget()
    ensures MinIndex(AfterA2().queue) == 0 && AfterA2().queue[0] == ET()
    ensures Step(G(), DetourWeight, Zero(), T, AfterA2()) == Finish(Success([S, B, A, T]))
  {
    DetourWalk();
  }

  lemma DetourRun(f: nat)
    ensures Run(G(), DetourWeight, Zero(), T, Init(S), f + 5) == Success([S, B, A, T])
  {
    var g, w, h := G(), DetourWeight, Zero();
    ExpandS();
    ExpandA();
    ExpandB();
    ExpandA2();
    PopTarget();
    RunFinish(g, w, h, T, AfterA2(), f);
    RunContinue(g, w, h, T, AfterB(), f + 1, AfterA2());
    RunContinue(g, w, h, T, AfterA(), f + 2, AfterB());
    RunContinue(g, w, h, T, AfterS(), f + 3, AfterA());
    RunContinue(g, w, h, T, Init(S), f + 4, AfterS());
  }

  /** `astar_path` returns S, B, A, T, not the walk S, A, T along which T was popped. */
  lemma DetourPath(fuel: nat)
    requires fuel >= 5
    ensures AStarSpec(G(), S, T, None, Callable(DetourWeight), fuel) == Success([S, B, A, T])
  {
    DetourRun(fuel - 5);
  }

  /** The walk T was popped along replays to 11, its entry's cost. */
  lemma FoundReplay()
    ensures PathLength(DetourWeight, G(), ET().trail) == Success(ET().dist)
  {
    var es := PathEdges([S, A, T]);
    assert es == [(S, A), (A, T)];
    var ps := PrevEdges(es);
    assert ps == [None, Some((S, A))];
    var w, g := DetourWeight, G();
    calc {
      SumWeights(w, g, ps, es, 0.0);
      SumWeights(w, g, ps[1..], es[1..], 1.0);
      SumWeights(w, g, ps[2..], es[2..], 11.0);
      Success(11.0);
    }
  }

  /** The returned path replays to 1 - 1 + 100. */
  lemma DetourReplay()
    ensures PathLength(DetourWeight, G(), [S, B, A, T]) == Success(100.0)
  {
    var es := PathEdges([S, B, A, T]);
    assert es == [(S, B), (B, A), (A, T)];
    var ps := PrevEdges(es);
    assert ps == [None, Some((S, B)), Some((B, A))];
    var w, g := DetourWeight, G();
    calc {
      SumWeights(w, g, ps, es, 0.0);
      SumWeights(w, g, ps[1..], es[1..], 1.0);
      SumWeights(w, g, ps[2..], es[2..], 0.0);
      SumWeights(w, g, ps[3..], es[3..], 100.0);
      Success(100.0);
    }
  }

  /**
   * `astar_path_length` reports 100, although the search reached the
   * target at cost 11.
   */
  lemma DetourLength(fuel: nat)
    requires fuel >= 5
    ensures AStarLengthSpec(G(), S, T, None, Callable(DetourWeight), fuel) == Success(100.0)
  {
    DetourPath(fuel);
    DetourReplay();
  }
}
