/** Paths, cycles and acyclicity of the directed graph given by a list of edges. */
module Graph {
  import opened Flow

  /** Some edge of the list goes from `u` to `v`. */
  predicate HasEdge(edges: seq<Edge>, u: NodeId, v: NodeId) {
    exists m :: 0 <= m < |edges| && edges[m].source == u && edges[m].target == v
  }

  /** `p` lists the ids along a walk that follows edges of the list. */
  ghost predicate IsPath(edges: seq<Edge>, p: seq<NodeId>) {
    |p| >= 1 && forall i :: 0 <= i < |p| - 1 ==> HasEdge(edges, p[i], p[i + 1])
  }

  /** A walk of at least one edge that returns to where it started. */
  ghost predicate IsCycle(edges: seq<Edge>, p: seq<NodeId>) {
    IsPath(edges, p) && |p| >= 2 && p[0] == p[|p| - 1]
  }

  ghost predicate Acyclic(edges: seq<Edge>) {
    forall p :: !IsCycle(edges, p)
  }

  /** `rank` numbers the ids so that every edge goes up. */
  ghost predicate IsRanking(edges: seq<Edge>, rank: NodeId -> nat) {
    forall m :: 0 <= m < |edges| ==> rank(edges[m].source) < rank(edges[m].target)
  }

  lemma {:induction false} RankIncreasesAlongPath(edges: seq<Edge>, rank: NodeId -> nat, p: seq<NodeId>)
    requires IsRanking(edges, rank)
    requires IsPath(edges, p) && |p| >= 2
    ensures rank(p[0]) < rank(p[|p| - 1])
    decreases |p|
  {
    var last := |p| - 1;
    assert HasEdge(edges, p[last - 1], p[last]);
    if |p| > 2 {
      var q := p[..last];
      assert forall i :: 0 <= i < |q| ==> q[i] == p[i];
      RankIncreasesAlongPath(edges, rank, q);
    }
  }

  /** A graph whose ids can be ranked so that every edge goes up has no cycle. */
  lemma RankedAcyclic(edges: seq<Edge>, rank: NodeId -> nat)
    requires IsRanking(edges, rank)
    ensures Acyclic(edges)
  {
    forall p ensures !IsCycle(edges, p) {
      if IsCycle(edges, p) {
        RankIncreasesAlongPath(edges, rank, p);
      }
    }
  }

  /** A repetition-free sequence drawn from `xs` is no longer than `xs` has elements. */
  lemma {:induction false} DistinctBound<T>(w: seq<T>, xs: set<T>)
    requires forall i :: 0 <= i < |w| ==> w[i] in xs
    requires forall i, j :: 0 <= i < j < |w| ==> w[i] != w[j]
    ensures |w| <= |xs|
    decreases |w|
  {
    if |w| > 0 {
      var last := w[|w| - 1];
      var rest := xs - {last};
      assert |rest| == |xs| - 1;
      DistinctBound(w[..|w| - 1], rest);
    }
  }
}
