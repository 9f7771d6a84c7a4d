/** The graph the search runs on, reduced to what the search asks of it. */
module Graphs {

  type Edge<N> = (N, N)

  /**
   * A graph: for each node, its successors in the order the adjacency
   * iterates them; for each edge, its attribute dictionary; and whether
   * parallel edges are permitted.
   */
  datatype Graph<N> = Graph(adj: map<N, seq<N>>, attrs: map<Edge<N>, map<string, real>>, isMultigraph: bool)

  /** Every successor is itself a node of the graph. */
  ghost predicate ValidGraph<N>(g: Graph<N>) {
    forall u, i :: u in g.adj && 0 <= i < |g.adj[u]| ==> g.adj[u][i] in g.adj
  }

  predicate HasEdge<N>(g: Graph<N>, u: N, v: N) {
    u in g.adj && v in g.adj[u]
  }

  /** Each consecutive pair of `p` is an edge of `g`. */
  ghost predicate IsWalk<N>(g: Graph<N>, p: seq<N>) {
    forall i :: 0 <= i < |p| - 1 ==> HasEdge(g, p[i], p[i + 1])
  }

  /** `p` is a non-empty walk in `g` that starts at `s` and ends at `t`. */
  ghost predicate IsPathFromTo<N>(g: Graph<N>, p: seq<N>, s: N, t: N) {
    |p| >= 1 && p[0] == s && p[|p| - 1] == t && IsWalk(g, p)
  }

  /** A list reversed in place, as `list.reverse()` leaves it. */
  function Reversed<T>(s: seq<T>): (r: seq<T>)
    ensures |r| == |s|
    ensures forall i :: 0 <= i < |s| ==> r[i] == s[|s| - 1 - i]
  {
    if s == [] then [] else Reversed(s[1..]) + [s[0]]
  }
}
