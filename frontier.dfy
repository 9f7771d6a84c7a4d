/**
 * The priority queue of the search: its entries, the heap order on them,
 * and extract-min. The queue is kept as a sequence; only the order in which
 * `heappop` hands entries out matters, not the heap layout.
 */
module Frontier {
  import opened Results

  /**
   * A queue entry `(priority, counter, node, dist, parent, explored_path)`:
   * `dist` is the cost accumulated along `trail`, the walk from the source
   * that this entry extends.
   */
  datatype Entry<N> = Entry(priority: real, counter: nat, node: N, dist: real, parent: Option<N>, trail: seq<N>)

  /** Tuple order on the first two fields, `(priority, counter)`. */
  predicate Before<N>(a: Entry<N>, b: Entry<N>) {
    a.priority < b.priority || (a.priority == b.priority && a.counter < b.counter)
  }

  /** No two entries of the queue carry the same tie-break counter. */
  ghost predicate DistinctCounters<N>(q: seq<Entry<N>>) {
    forall i, j :: 0 <= i < j < |q| ==> q[i].counter != q[j].counter
  }

  /** The position of the entry `heappop` removes: the first entry that no later one comes before. */
  function MinIndex<N>(q: seq<Entry<N>>): (i: nat)
    requires |q| > 0
    ensures i < |q|
  {
    if |q| == 1 then 0
    else
      var k := MinIndex(q[..|q| - 1]);
      if Before(q[|q| - 1], q[k]) then |q| - 1 else k
  }

  /**
   * No entry comes before the popped one, and when the counters are
   * distinct it comes before every other entry, so the choice does not
   * depend on how the heap is laid out.
   */
  lemma {:induction false} MinIndexIsLeast<N>(q: seq<Entry<N>>)
    requires |q| > 0
    ensures forall j :: 0 <= j < |q| ==> !Before(q[j], q[MinIndex(q)])
    ensures DistinctCounters(q) ==> forall j :: 0 <= j < |q| && j != MinIndex(q) ==> Before(q[MinIndex(q)], q[j])
    decreases |q|
  {
    if |q| > 1 {
      var p := q[..|q| - 1];
      MinIndexIsLeast(p);
      assert forall j :: 0 <= j < |p| ==> p[j] == q[j];
    }
  }

  /** The queue without its `i`-th entry; the other entries keep their order. */
  function RemoveAt<N>(q: seq<Entry<N>>, i: nat): (r: seq<Entry<N>>)
    requires i < |q|
    ensures |r| == |q| - 1
    ensures forall k :: 0 <= k < |r| ==> r[k] == q[if k < i then k else k + 1]
  {
    q[..i] + q[i + 1..]
  }

  /** Popping loses exactly the popped entry: the queue stays the same collection otherwise. */
  lemma RemoveAtPermutes<N>(q: seq<Entry<N>>, i: nat)
    requires i < |q|
    ensures multiset(RemoveAt(q, i)) + multiset{q[i]} == multiset(q)
  {
    assert q == q[..i] + [q[i]] + q[i + 1..];
  }
}
