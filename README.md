# A* search with edge-based weights, in Dafny

This project models `networkx_astar_path/astar.py`, a variant of NetworkX's A*
search whose weight function sees both the edge being charged and the edge
taken just before it. The model covers:

- the weight resolver `_weight_function`. A callable is used as given. An
  attribute name becomes a lookup of that attribute on the current edge, and
  on a multigraph it raises NotImplementedError.
- the zero heuristic `_default_heuristic`.
- `astar_path`. The search keeps four things: a priority queue of
  `(priority, counter, node, cost, parent, walk)` entries, the `enqueued`
  table of best costs and heuristic values, the `explored` table of parents,
  and a tie-break counter. When the target is popped, the path is rebuilt by
  following parents and reversing. NodeNotFound is raised for an unknown
  endpoint and NetworkXNoPath when the queue runs out; it is proved that
  NetworkXNoPath comes only when no path leads from the source to the
  target, and that an unreachable target never yields a path.
- `astar_path_length`. It runs the same search with the resolved weight,
  then replays the path edge by edge, passing each edge's predecessor (or
  `None` for the first edge), and sums the weights.

Layout:

- `results.dfy`: `Option`, and the `Error`/`Result` types that stand for the
  exceptions.
- `graphs.dfy`: the graph as an adjacency map plus edge attributes; walks
  and paths.
- `weights.dfy`: weight resolution, the default heuristic, and the cost of
  replaying a walk.
- `frontier.dfy`: queue entries, the heap order, and the entry `heappop`
  removes.
- `search.dfy`: the search as a function. `Step` is one iteration of
  `while queue`, `Run` is the loop, and `AStarSpec` and `AStarLengthSpec`
  are the two entry points.
- `invariants.dfy`: the invariant every iteration keeps.
- `soundness.dfy`: what the entry points promise about what they return
  and raise, and why a parent walk that reports a cycle would never end as
  the code is written.
- `completeness.dfy`: NetworkXNoPath only for an unreachable target, and
  nothing but NetworkXNoPath or a failure unrelated to reachability for one.
- `astar.dfy`: the imperative form (a `while` loop over the queue, tables
  updated in place, the parent walk appending and reversing), each method
  proved equal to its functional counterpart.
- `steps.dfy`, `fixture.dfy`, `cycle.dfy`, `detour.dfy`: single iterations
  and three worked graphs. The first is the test suite's graph, under both
  weights. The second shows a run whose parent walk goes round a cycle. The
  third shows a run that returns a different walk from the one along which
  the target was reached, so that `astar_path_length` reports 100 where the
  search reached the target at cost 11.

Modelling choices:

- A weight function returns `Option<real>`; `None` means the call raised,
  which the search reports as `WeightFailed`.
- A lookup in `explored`, `enqueued` or the adjacency that would raise
  KeyError is a `MissingKey` failure, and it is proved that none of these
  lookups raises. A KeyError raised inside the weight function, such as
  the attribute weight's lookup on an edge without that attribute, is
  `WeightFailed`.
- The main loop runs for at most `fuel` iterations (`OutOfFuel`).
- The parent walk is cut off after as many steps as `explored` has keys,
  and reports `ParentCycle`.

## Model

| member | source | states |
|---|---|---|
| Weights.ResolveWeight | networkx_astar_path/astar.py:45-54 | a callable weight is returned unchanged; an attribute name fails exactly on a multigraph, and every failure is NotImplementedError |
| Weights.ResolveIdempotent | networkx_astar_path/astar.py:45-46 | resolving the already resolved weight as a callable gives it back, as `astar_path_length` does when it hands the resolved weight to `astar_path` |
| Weights.AttributeWeightIgnoresPrevious | networkx_astar_path/astar.py:53-54 | the attribute weight is the current edge's attribute and does not depend on the previous edge |
| Weights.DefaultHeuristic | networkx_astar_path/astar.py:57-58 | the default heuristic is 0 for every pair of nodes |
| Weights.HeuristicOrDefault | networkx_astar_path/astar.py:128-130 | a heuristic the caller gives is used as is |
| Weights.DefaultEstimateIsZero | networkx_astar_path/astar.py:128-130 | without a heuristic, every estimate is 0 |
| Weights.TrailCostSnoc | networkx_astar_path/astar.py:180-184 | extending a walk by one node adds that edge's weight, charged with the walk's last edge as the previous edge |
| Weights.PathEdges | networkx_astar_path/astar.py:256 | `zip(path[:-1], path[1:])` lists a path's consecutive node pairs in order |
| Weights.PrevEdges | networkx_astar_path/astar.py:256-259 | the previous-edge list is `None` followed by every edge but the last, one per edge |
| Weights.EdgeAttribute | networkx_astar_path/astar.py:54 | models `d[weight]` on the current edge's attribute dictionary, failing when the attribute is missing; stated by `Weights.AttributeWeightIgnoresPrevious` |
| Weights.AttributeWeight | networkx_astar_path/astar.py:53-54 | models the attribute weight the resolver builds; stated by `Weights.ResolveWeight` and `Weights.AttributeWeightIgnoresPrevious` |
| Weights.SumWeights | networkx_astar_path/astar.py:259 | models `sum(...)` over the per-edge weights, failing when one call fails; stated by `Weights.PathLengthIsTrailCost` |
| Weights.PathLength | networkx_astar_path/astar.py:256-259 | models the replay in `astar_path_length`; stated by `Weights.PathLengthIsTrailCost` and `Soundness.AStarLengthReplaysPath` |
| Weights.PathLengthIsTrailCost | networkx_astar_path/astar.py:256-259 | the replayed sum of weights equals the cost the search charges along the same walk, failing exactly when a weight call fails |
| Graphs.Reversed | networkx_astar_path/astar.py:163 | the reversed path has the same length, with element `i` taken from position `len - 1 - i` |
| Frontier.MinIndex | networkx_astar_path/astar.py:155 | the popped position is inside the queue |
| Frontier.MinIndexIsLeast | networkx_astar_path/astar.py:141-144 | no entry comes before the popped one in `(priority, counter)` order; when counters are distinct it comes strictly before all others, so heap layout cannot change the choice |
| Frontier.RemoveAt | networkx_astar_path/astar.py:155 | popping shortens the queue by one and keeps the other entries in order |
| Frontier.RemoveAtPermutes | networkx_astar_path/astar.py:155 | the queue after a pop plus the popped entry is the queue before, as a multiset |
| Search.RelaxOneSpec | networkx_astar_path/astar.py:179-207 | a neighbour is pushed exactly when it is new or strictly cheaper. The pushed entry has priority cost plus heuristic (the stored heuristic value is reused), the next counter, the current node as parent, and the extended walk. `explored` is untouched, enqueued costs never rise, and only a raising weight fails |
| Search.RelaxAllSpec | networkx_astar_path/astar.py:178-207 | over the whole neighbour loop: only a raising weight fails, `explored` is untouched, enqueued costs never rise and heuristic values stay, and new entries are appended with consecutive counters |
| Search.Init | networkx_astar_path/astar.py:141-151 | models the initial queue (one entry for the source, priority 0, counter 0, no parent, walk `[source]`) and the empty tables; its properties are stated by `SearchInvariants.InitInv` and `Completeness.InitCovered` |
| Search.PrevEdge | networkx_astar_path/astar.py:180-183 | models the previous edge: `None` for a one-node walk, else the walk's second-to-last node and the current node; stated through `Weights.TrailCostSnoc` and `SearchInvariants.PushedEntryOk` |
| Search.RelaxOne | networkx_astar_path/astar.py:184-207 | models one pass of the neighbour loop; its contract is `Search.RelaxOneSpec` |
| Search.RelaxAll | networkx_astar_path/astar.py:178-207 | models the whole neighbour loop; its contract is `Search.RelaxAllSpec` |
| Search.Step | networkx_astar_path/astar.py:153-207 | models one iteration of `while queue`: pop, return on the target, skip the source or a stale entry, finalize and relax; stated by `Soundness.StepSound`, `Soundness.StepErrors` and `SearchInvariants.StepKeepsInv` |
| Search.Run | networkx_astar_path/astar.py:153-209 | models the main loop, with NetworkXNoPath on an empty queue; stated by `Soundness.RunSound`, `Soundness.RunErrors` and `Completeness.RunNoPath` |
| Search.Resume | networkx_astar_path/astar.py:153-209 | the loop after one iteration, mutually recursive with `Run`; stated by `Soundness.ResumeSound` and `Completeness.ResumeNoPath` |
| Search.WalkParents | networkx_astar_path/astar.py:158-162 | models the parent walk, bounded by the size of `explored`; stated by `Soundness.WalkParentsSound`, `Soundness.WalkParentsErrors` and `Soundness.WalkCycleNeverEnds` |
| Search.Reconstruct | networkx_astar_path/astar.py:157-164 | models the path rebuild (walk, then reverse); stated by `Soundness.ReconstructSound` and `AStar.ReconstructPath` |
| Search.AStarSpec | networkx_astar_path/astar.py:124-209 | models `astar_path`; stated by `Soundness.AStarPathSound` and `Completeness.AStarPathComplete` |
| Search.AStarLengthSpec | networkx_astar_path/astar.py:247-259 | models `astar_path_length`; stated by `Soundness.AStarLengthReplaysPath` |
| SearchInvariants.InitInv | networkx_astar_path/astar.py:141-151 | the initial queue and empty tables satisfy the search invariant |
| SearchInvariants.PopKeepsInv | networkx_astar_path/astar.py:155 | popping an entry keeps the invariant |
| SearchInvariants.FinalizeKeepsInv | networkx_astar_path/astar.py:166-176 | recording the popped entry's parent in `explored` keeps the invariant; the source stays the only node with parent `None` |
| SearchInvariants.PushedEntryOk | networkx_astar_path/astar.py:184-207 | a pushed entry's walk runs from the source to the neighbour along edges, costs its `dist`, and ends with its explored parent |
| SearchInvariants.PushKeepsInv | networkx_astar_path/astar.py:196-207 | pushing such an entry with the next counter and recording its cost keeps the invariant |
| SearchInvariants.RelaxOneKeepsInv | networkx_astar_path/astar.py:178-207 | one pass of the neighbour loop keeps the invariant |
| SearchInvariants.RelaxAllKeepsInv | networkx_astar_path/astar.py:178-207 | the whole neighbour loop keeps the invariant |
| SearchInvariants.StepKeepsInv | networkx_astar_path/astar.py:153-207 | an iteration of the main loop that does not return keeps the invariant |
| Soundness.WalkParentsSound | networkx_astar_path/astar.py:158-162 | under the invariant no `explored` lookup of the parent walk raises KeyError, and what it collects runs back along edges from the target to the source |
| Soundness.ReconstructSound | networkx_astar_path/astar.py:157-164 | a reconstructed path starts at the source, ends at the target and follows edges; no `explored` lookup raises KeyError |
| Soundness.StepSound | networkx_astar_path/astar.py:153-207 | from an invariant state, an iteration either continues in an invariant state or returns without a KeyError from a lookup in `explored`, `enqueued` or the adjacency; a path it returns runs from the source to the target |
| Soundness.RunSound | networkx_astar_path/astar.py:153-209 | from an invariant state, no lookup of the main loop in `explored`, `enqueued` or the adjacency raises KeyError, and any path it returns runs from the source to the target along edges |
| Soundness.ResumeSound | networkx_astar_path/astar.py:153-209 | the same, for the loop after one iteration |
| Soundness.WalkParentsErrors | networkx_astar_path/astar.py:158-162 | the parent walk fails only with a KeyError from `explored` or a cycle |
| Soundness.StepErrors | networkx_astar_path/astar.py:153-207 | one iteration fails only with a KeyError from its own lookups, a raising weight, or a cyclic parent walk |
| Soundness.RunErrors | networkx_astar_path/astar.py:153-209 | the main loop fails only with those, NetworkXNoPath, or the iteration bound |
| Soundness.ResumeErrors | networkx_astar_path/astar.py:153-209 | the same, for the loop after one iteration |
| Soundness.AStarPathSound | networkx_astar_path/astar.py:124-209 | `astar_path` raises NodeNotFound exactly when an endpoint is missing, and NotImplementedError exactly for an attribute weight on a multigraph. No lookup in `explored`, `enqueued` or the adjacency raises KeyError (a weight's own KeyError is `WeightFailed`), and a returned path runs from the source to the target along edges |
| Soundness.AStarLengthReplaysPath | networkx_astar_path/astar.py:247-259 | `astar_path_length` fails exactly as `astar_path` does. Otherwise it returns the replayed cost of that same path under the resolved weight, which equals the path's cost under the search's own charging rule (each edge with its predecessor). This need not be the cost at which the target was popped, since the path follows the parent table, not the popped entry's walk (see `DetourFixture.DetourLength`) |
| Soundness.Ancestor | networkx_astar_path/astar.py:160-162 | models following `explored` from a node a given number of times, as the code's `node = explored[node]`; stated by `Soundness.AncestorCompose`, `Soundness.AncestorOfNone` and `Soundness.PeriodicAncestor` |
| Soundness.AncestorCompose | networkx_astar_path/astar.py:160-162 | following parents `a + b` times is following them `a` times, then `b` times |
| Soundness.AncestorOfNone | networkx_astar_path/astar.py:160 | once the walk has reached `None`, it stays there |
| Soundness.Pigeonhole | networkx_astar_path/astar.py:160-162 | a walk through more nodes than `explored` holds revisits one |
| Soundness.WalkCycleAncestors | networkx_astar_path/astar.py:160-162 | when the bounded walk reports a cycle, each of its first `budget` parents exists and is explored |
| Soundness.WalkCycleNeverEnds | networkx_astar_path/astar.py:157-164 | when the bounded walk reports a cycle, the unbounded `while node is not None` walk never reaches `None` and never raises |
| Soundness.PeriodicAncestor | networkx_astar_path/astar.py:160-162 | a parent chain that returns to a node repeats forever |
| Completeness.InitCovered | networkx_astar_path/astar.py:141-151 | the initial state is covered: the source has a queue entry, nothing is explored, and the target is not explored |
| Completeness.RelaxOneCovers | networkx_astar_path/astar.py:184-207 | one neighbour pass leaves `explored` alone, keeps every enqueued node enqueued and settled, and leaves the neighbour enqueued |
| Completeness.RelaxAllCovers | networkx_astar_path/astar.py:178-207 | after the neighbour loop every neighbour of the current node is enqueued, and every node settled before stays settled |
| Completeness.PopSettles | networkx_astar_path/astar.py:155 | popping one entry unsettles at most the popped node |
| Completeness.StepKeepsCovered | networkx_astar_path/astar.py:153-207 | an iteration that does not return keeps the coverage invariant: the source and every enqueued node are explored or still queued at their recorded cost, successors of explored nodes are enqueued, and the target is not explored |
| Completeness.ExploredAlong | networkx_astar_path/astar.py:153-209 | when the queue is empty under coverage, every node of a walk from the source is explored |
| Completeness.EmptyUnreachable | networkx_astar_path/astar.py:209 | when the queue is empty under coverage, no path leads from the source to the target |
| Completeness.RunNoPath | networkx_astar_path/astar.py:153-209 | from a covered state, the main loop raises NetworkXNoPath only when no path leads from the source to the target |
| Completeness.ResumeNoPath | networkx_astar_path/astar.py:153-209 | the same, for the loop after one iteration |
| Completeness.StepFinishReachable | networkx_astar_path/astar.py:157-164 | an iteration that returns a path, or reaches a cyclic parent walk, has popped the target, so a path from the source to the target exists |
| Completeness.RunFinishReachable | networkx_astar_path/astar.py:153-209 | a main loop that returns a path or reports a parent cycle implies a path from the source to the target exists |
| Completeness.ResumeFinishReachable | networkx_astar_path/astar.py:153-209 | the same, for the loop after one iteration |
| Completeness.AStarPathComplete | networkx_astar_path/astar.py:99-102 | `astar_path` raises NetworkXNoPath only when the target is unreachable, as its docstring says; conversely, with both endpoints present and the target unreachable it raises NetworkXNoPath, a raising weight's error, NotImplementedError or the iteration bound, never returning a path |
| AStar.ReconstructPath | networkx_astar_path/astar.py:157-164 | appending parents and reversing gives the reconstruction `Reconstruct` describes |
| AStar.RelaxNeighbours | networkx_astar_path/astar.py:178-207 | the in-place neighbour loop fails exactly when the functional one does, and otherwise produces the same queue, table and counter. The heuristic is evaluated only for nodes not yet enqueued, never twice for one node, and the record of evaluations only grows |
| AStar.Iterate | networkx_astar_path/astar.py:153-207 | one in-place iteration returns or continues exactly as `Step` does, with the same new state; the record of heuristic evaluations only grows |
| AStar.RunSearch | networkx_astar_path/astar.py:141-209 | the in-place main loop returns what `Run` returns from the initial entry, and evaluates the heuristic at most once per node |
| AStar.AStarPath | networkx_astar_path/astar.py:124-209 | `astar_path` as written. It has the same endpoint, multigraph and KeyError guarantees as `AStarPathSound`, and any path it returns is from the source to the target along edges. NetworkXNoPath is raised only when no path leads from the source to the target. Conversely, with both endpoints present and no such path, the result is NetworkXNoPath, a raising weight, the multigraph refusal or the iteration bound |
| AStar.AStarPathLength | networkx_astar_path/astar.py:247-259 | `astar_path_length` as written. It raises NodeNotFound exactly for a missing endpoint, propagates `astar_path`'s failures, and otherwise returns the replayed cost of that path |
| Fixture.DependentWeight | tests/test_astar_path.py:34-48 | models the test's edge-based weight; its values are stated by `Fixture.DependentReplay` and `Fixture.DependentRun` |
| Fixture.GraphShape | tests/test_astar_path.py:23-31 | the test graph has the adjacency and weights of the fixture |
| Fixture.SummedRun | networkx_astar_path/astar.py:153-209 | on the test graph with the attribute weight, the main loop returns S, A2, B2, C2, T after six iterations |
| Fixture.SummedPath | tests/test_astar_path.py:51-59 | `astar_path` with the weight attribute returns `['S', 'A2', 'B2', 'C2', 'T']` |
| Fixture.SummedLength | tests/test_astar_path.py:70-78 | `astar_path_length` with the weight attribute returns 4 |
| Fixture.SummedWalk | networkx_astar_path/astar.py:157-164 | the parent walk from C2 rebuilds S, A2, B2, C2, T |
| Fixture.DependentRun | networkx_astar_path/astar.py:153-209 | with the edge-based weight, the main loop returns S, A1, T after three iterations |
| Fixture.DependentPath | tests/test_astar_path.py:62-67 | `astar_path` with the edge-based weight returns `['S', 'A1', 'T']` |
| Fixture.DependentLength | tests/test_astar_path.py:81-86 | `astar_path_length` with the edge-based weight returns -5.5 |
| Fixture.DependentReplay | networkx_astar_path/astar.py:256-259 | replaying S, A1, T with the edge-based weight sums -2 and 7 / -2 |
| CycleFixture.ExpandA2 | networkx_astar_path/astar.py:166-176 | a node popped again at exactly its recorded cost is finalized a second time, with a new parent |
| CycleFixture.CycleWalk | networkx_astar_path/astar.py:157-164 | the parent walk from A alternates between A and B until its bound runs out |
| CycleFixture.CycleRun | networkx_astar_path/astar.py:153-209 | on the cycle graph, the main loop reports the parent cycle at its fifth iteration |
| CycleFixture.CycleReported | networkx_astar_path/astar.py:124-209 | with this weight, the search reports a parent cycle for any iteration bound of at least five |
| CycleFixture.PythonWalkNeverEnds | networkx_astar_path/astar.py:160-162 | on that run, the code's loop `while node is not None` never ends |
| DetourFixture.ExpandS | networkx_astar_path/astar.py:153-207 | on the detour graph, the first iteration finalizes S and pushes A and B at cost 1 |
| DetourFixture.ExpandA | networkx_astar_path/astar.py:166-207 | the second iteration finalizes A with parent S and pushes T at cost 11 along S, A, T |
| DetourFixture.ExpandB | networkx_astar_path/astar.py:178-207 | the third iteration finalizes B and pushes A again at the cheaper cost 0 |
| DetourFixture.ExpandA2 | networkx_astar_path/astar.py:166-207 | on the detour graph, A is popped again at a lower cost and finalized with parent B; T's queued cost 11 is below the new cost 100, so T is not pushed again |
| DetourFixture.DetourWalk | networkx_astar_path/astar.py:157-164 | the parent walk from A now rebuilds S, B, A, T |
| DetourFixture.PopTarget | networkx_astar_path/astar.py:153-164 | the next entry popped is T's entry at cost 11, whose walk is S, A, T, and the search returns S, B, A, T |
| DetourFixture.DetourRun | networkx_astar_path/astar.py:153-209 | on the detour graph, the main loop returns S, B, A, T at its fifth iteration |
| DetourFixture.DetourPath | networkx_astar_path/astar.py:124-209 | `astar_path` returns S, B, A, T for any iteration bound of at least five |
| DetourFixture.FoundReplay | networkx_astar_path/astar.py:256-259 | the walk T was popped along, S, A, T, replays to cost 11, the popped entry's cost |
| DetourFixture.DetourReplay | networkx_astar_path/astar.py:256-259 | the returned path S, B, A, T replays to cost 100 |
| DetourFixture.DetourLength | networkx_astar_path/astar.py:247-259 | `astar_path_length` returns 100 on this graph, not the cost 11 at which the target was reached |

## Left out

- AStar.AStarPath: does not state that the path is a shortest one, as the docstring says. With negative or edge-based weights this search does not guarantee it (the cycle example reaches an explored node again more cheaply), so only "a path from the source to the target along edges" is proved.
- `astar_path` returns the path rebuilt from the parent table, which can differ from the walk the target was popped along when a node is finalized twice; `astar_path_length` replays the returned path. Both are modelled as written, and `DetourFixture.DetourLength` shows the difference.
- AStar.RunSearch: the main loop runs for at most `fuel` iterations and then returns `OutOfFuel`, which the code has no counterpart for. A run longer than the bound is not modelled.
- The parent walk is cut off after `|explored|` steps with `ParentCycle`. The code loops forever instead; `Soundness.WalkCycleNeverEnds` shows the cut-off happens only when the code's walk never ends.
- NetworkX graph storage is an adjacency map whose lists keep insertion order, plus a map from edges to attribute dictionaries. Parallel edges of a multigraph are not represented: the only multigraph behaviour modelled is the resolver's NotImplementedError.
- `heapq` is a sequence from which the least `(priority, counter)` entry is removed. The heap's layout is not modelled; `Frontier.MinIndexIsLeast` shows the choice does not depend on it.
- Costs and heuristic values are real numbers. IEEE rounding, infinities and NaN are not modelled.
- The exception types and messages are collapsed into one `Error` value each. A weight function that raises anything, or returns a value that cannot be added, is `WeightFailed`.
- Heuristic functions are total: a heuristic that raises is not modelled.
- The docstring says a missing weight attribute counts as 1 and a multigraph uses its cheapest parallel edge. The code instead raises KeyError, and NotImplementedError for a multigraph; the model follows the code.
- The tests' comparison with stock NetworkX (`original_astar_path`, `original_astar_path_length`) is not modelled. `Fixture.SummedPath` and `Fixture.SummedLength` state the values this search gives.

## Findings

| source | as written | input that shows it | evidently intended | confidence | as-written member | corrected member |
|---|---|---|---|---|---|---|
| networkx_astar_path/astar.py:160-162 | A node popped again at its recorded cost is finalized again (line 176), overwriting its parent. The new parent can be one of its own descendants, and then the reconstruction loop `while node is not None` goes round the parent cycle forever | nodes S, A, B, T with edges S→A, A→B, A→T, B→A; h = 0; a callable weight that charges B→A after A→B at -5, A→B after B→A at 100, A→T after S→A at 100, and everything else at 1. A is finalized with parent S at cost 1, then again with parent B at cost -3, while B's parent is A; T is then popped with parent A | `astar_path` returns a path or raises, instead of hanging | high on the model, which is proved; not executed | Soundness.Ancestor, CycleFixture.PythonWalkNeverEnds | Search.Reconstruct, CycleFixture.CycleReported, Soundness.WalkCycleNeverEnds |
