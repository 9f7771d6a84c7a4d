/**
 * Edge costs and heuristics: the weight resolver, the default heuristic,
 * and the cost of a walk replayed through a history-sensitive weight.
 */
module Weights {
  import opened Results
  import opened Graphs

  /**
   * A cost function `(graph, prev_edge, cur_edge) -> cost`. `prev_edge` is
   * `None` for the first edge of a walk. `None` as the result means the
   * function raised.
   */
  type WeightFn<!N> = (Graph<N>, Option<Edge<N>>, Edge<N>) -> Option<real>

  /** An estimate of the remaining cost from a node to the target. */
  type HeuristicFn<!N> = (N, N) -> real

  /** The `weight` argument: a callable, or the name of an edge attribute. */
  datatype WeightSpec<!N> = Callable(fn: WeightFn<N>) | Attribute(name: string)

  /** `graph.get_edge_data(*e)[name]`, which raises when the edge or the key is missing. */
  function EdgeAttribute<N>(g: Graph<N>, e: Edge<N>, name: string): Option<real> {
    if e in g.attrs && name in g.attrs[e] then Some(g.attrs[e][name]) else None
  }

  /** The cost function built for an attribute name: it reads the current edge only. */
  function AttributeWeight<N>(name: string): WeightFn<N> {
    (graph: Graph<N>, prev: Option<Edge<N>>, cur: Edge<N>) => EdgeAttribute(graph, cur, name)
  }

  /**
   * `_weight_function`: a callable is returned unchanged; an attribute name
   * becomes a lookup of that attribute on the current edge, except on a
   * multigraph, where it is refused.
   */
  function ResolveWeight<N>(g: Graph<N>, spec: WeightSpec<N>): (r: Result<WeightFn<N>>)
    ensures spec.Callable? ==> r == Success(spec.fn)
    ensures spec.Attribute? ==> (r.Failure? <==> g.isMultigraph)
    ensures r.Failure? ==> r.error == NotImplemented
  {
    match spec
    case Callable(f) => Success(f)
    case Attribute(name) => if g.isMultigraph then Failure(NotImplemented) else Success(AttributeWeight(name))
  }

  /** Resolving the resolved function once more gives it back unchanged. */
  lemma ResolveIdempotent<N>(g: Graph<N>, spec: WeightSpec<N>)
    requires ResolveWeight(g, spec).Success?
    ensures ResolveWeight(g, Callable(ResolveWeight(g, spec).value)) == ResolveWeight(g, spec)
  {
  }

  /**
   * The attribute-mode cost function reads the named attribute of the
   * current edge and never looks at the previous edge.
   */
  lemma AttributeWeightIgnoresPrevious<N>(g: Graph<N>, name: string, graph: Graph<N>, p: Option<Edge<N>>, q: Option<Edge<N>>, cur: Edge<N>)
    requires !g.isMultigraph
    ensures ResolveWeight(g, Attribute(name)).Success?
    ensures ResolveWeight(g, Attribute(name)).value(graph, p, cur) == EdgeAttribute(graph, cur, name)
    ensures ResolveWeight(g, Attribute(name)).value(graph, p, cur) == ResolveWeight(g, Attribute(name)).value(graph, q, cur)
  {
  }

  /** `_default_heuristic`: zero for every pair of nodes. */
  function DefaultHeuristic<N>(u: N, v: N): (r: real)
    ensures r == 0.0
  {
    0.0
  }

  /** The heuristic the search uses: the caller's, or the zero heuristic when none is given. */
  function HeuristicOrDefault<N>(heuristic: Option<HeuristicFn<N>>): (h: HeuristicFn<N>)
    ensures heuristic.Some? ==> h == heuristic.value
  {
    match heuristic
    case Some(f) => f
    case None => (u: N, v: N) => DefaultHeuristic(u, v)
  }

  /** Without a heuristic from the caller, every estimate is zero. */
  lemma DefaultEstimateIsZero<N>(u: N, v: N)
    ensures HeuristicOrDefault<N>(None)(u, v) == 0.0
  {
  }

  /** The edge into the last node of a walk, or `None` for a walk of one node. */
  function LastEdge<N>(p: seq<N>): Option<Edge<N>> {
    if |p| >= 2 then Some((p[|p| - 2], p[|p| - 1])) else None
  }

  /**
   * The cost of a walk under a history-sensitive weight: each edge is
   * charged with the edge before it as context. `None` when a call raised.
   */
  function TrailCost<N>(w: WeightFn<N>, g: Graph<N>, p: seq<N>): Option<real>
    decreases |p|
  {
    if |p| <= 1 then Some(0.0)
    else
      var front := p[..|p| - 1];
      match TrailCost(w, g, front)
      case None => None
      case Some(c) =>
        match w(g, LastEdge(front), (p[|p| - 2], p[|p| - 1]))
        case None => None
        case Some(x) => Some(c + x)
  }

  /** Extending a walk by one node adds the cost of the new edge, charged with the walk's last edge. */
  lemma TrailCostSnoc<N>(w: WeightFn<N>, g: Graph<N>, p: seq<N>, x: N)
    requires |p| >= 1
    ensures TrailCost(w, g, p + [x]) ==
              match TrailCost(w, g, p)
              case None => None
              case Some(c) =>
                match w(g, LastEdge(p), (p[|p| - 1], x))
                case None => None
                case Some(y) => Some(c + y)
  {
    assert (p + [x])[..|p|] == p;
  }

  /** `zip(path[:-1], path[1:])`: the edges of a path, in order. */
  function PathEdges<N>(path: seq<N>): (es: seq<Edge<N>>)
    ensures |es| == if |path| == 0 then 0 else |path| - 1
    ensures forall i :: 0 <= i < |es| ==> es[i] == (path[i], path[i + 1])
  {
    if |path| <= 1 then [] else [(path[0], path[1])] + PathEdges(path[1..])
  }

  /** `chain([None], edges)` without its last element: the previous edge of each edge. */
  function PrevEdges<N>(es: seq<Edge<N>>): (ps: seq<Option<Edge<N>>>)
    ensures |ps| == |es|
    ensures forall i :: 0 <= i < |ps| ==> ps[i] == if i == 0 then None else Some(es[i - 1])
  {
    ([None] + seq(|es|, i requires 0 <= i < |es| => Some(es[i])))[..|es|]
  }

  /** `sum(weight(graph, u, v) for u, v in zip(prevs, curs))`, left to right from `acc`; a raising call raises. */
  function SumWeights<N>(w: WeightFn<N>, g: Graph<N>, prevs: seq<Option<Edge<N>>>, curs: seq<Edge<N>>, acc: real): Result<real>
    requires |prevs| == |curs|
    decreases |curs|
  {
    if |curs| == 0 then Success(acc)
    else
      match w(g, prevs[0], curs[0])
      case None => Failure(WeightFailed)
      case Some(c) => SumWeights(w, g, prevs[1..], curs[1..], acc + c)
  }

  /** The replay at the end of `astar_path_length`: the path's edges, each with its predecessor, summed. */
  function PathLength<N>(w: WeightFn<N>, g: Graph<N>, path: seq<N>): Result<real> {
    var es := PathEdges(path);
    SumWeights(w, g, PrevEdges(es), es, 0.0)
  }

  function OptionToResult(c: Option<real>): Result<real> {
    match c
    case Some(x) => Success(x)
    case None => Failure(WeightFailed)
  }

  /** The replay over edge pairs charges every edge exactly as the walk cost does. */
  lemma {:induction false} PathLengthIsTrailCost<N>(w: WeightFn<N>, g: Graph<N>, path: seq<N>)
    ensures PathLength(w, g, path) == OptionToResult(TrailCost(w, g, path))
  {
    if |path| <= 1 {
      return;
    }
    var es := PathEdges(path);
    var ps := PrevEdges(es);
    var k := 0;
    while k < |es|
      invariant 0 <= k <= |es|
      invariant PathLength(w, g, path) ==
                  match TrailCost(w, g, path[..k + 1])
                  case None => Failure(WeightFailed)
                  case Some(c) => SumWeights(w, g, ps[k..], es[k..], c)
    {
      assert path[..k + 2] == path[..k + 1] + [path[k + 1]];
      TrailCostSnoc(w, g, path[..k + 1], path[k + 1]);
      assert LastEdge(path[..k + 1]) == ps[k];
      assert ps[k..][1..] == ps[k + 1..] && es[k..][1..] == es[k + 1..];
      k := k + 1;
    }
    assert path[..k + 1] == path;
  }
}
