/** `topologicalSort` of src/lib/execution.ts: Kahn's algorithm over maps keyed by
    node id, with a FIFO queue seeded in input order. */
module TopoSort {
  import opened Wrappers
  import opened Flow
  import opened Graph

  // ---------------------------------------------------------------------------
  // Counting edges

  /** The number of edges into `k` whose source is not in `done`. */
  function Pending(edges: seq<Edge>, k: NodeId, done: set<NodeId>): nat
    decreases |edges|
  {
    if |edges| == 0 then 0
    else
      var e := edges[|edges| - 1];
      Pending(edges[..|edges| - 1], k, done) + (if e.target == k && e.source !in done then 1 else 0)
  }

  /** The number of edges into `k`: what the source's `inDegree` map starts with. */
  function InDegree(edges: seq<Edge>, k: NodeId): nat {
    Pending(edges, k, {})
  }

  /** The targets of the edges leaving `u`, in edge-list order (the source's
      `graph.get(u)` once every edge has been pushed). */
  function Targets(edges: seq<Edge>, u: NodeId): seq<NodeId>
    decreases |edges|
  {
    if |edges| == 0 then []
    else
      var e := edges[|edges| - 1];
      Targets(edges[..|edges| - 1], u) + (if e.source == u then [e.target] else [])
  }

  lemma {:induction false} TargetsTargeted(edges: seq<Edge>, u: NodeId)
    ensures forall x :: x in Targets(edges, u) ==> x in TargetSet(edges)
    decreases |edges|
  {
    if |edges| > 0 {
      var init := edges[..|edges| - 1];
      TargetsTargeted(init, u);
      assert forall e :: e in init ==> e in edges;
    }
  }

  function TargetSet(edges: seq<Edge>): set<NodeId> {
    set e | e in edges :: e.target
  }

  /** The target of every edge, in edge-list order, duplicates kept. */
  function AllTargets(edges: seq<Edge>): (ts: seq<NodeId>)
    ensures forall x :: x in TargetSet(edges) ==> x in ts
  {
    var ts := seq(|edges|, m requires 0 <= m < |edges| => edges[m].target);
    assert forall x :: x in TargetSet(edges) ==> x in ts by {
      forall x | x in TargetSet(edges) ensures x in ts {
        var e :| e in edges && e.target == x;
        var m :| 0 <= m < |edges| && edges[m] == e;
        assert ts[m] == x;
      }
    }
    ts
  }

  /** The nodes nothing points at, in input order: the queue's initial contents. */
  function Sources(nodes: seq<Node>, edges: seq<Edge>): (s: seq<Node>)
    ensures forall n :: n in s <==> n in nodes && InDegree(edges, n.id) == 0
    ensures UniqueIds(nodes) ==> UniqueIds(s)
    decreases |nodes|
  {
    if |nodes| == 0 then []
    else
      var init := nodes[..|nodes| - 1];
      var n := nodes[|nodes| - 1];
      assert nodes == init + [n];
      var s0 := Sources(init, edges);
      assert UniqueIds(nodes) ==> UniqueIds(init) && forall j :: 0 <= j < |init| ==> init[j].id != n.id;
      if InDegree(edges, n.id) == 0 then s0 + [n] else s0
  }

  /** `nodes.find(n => n.id === id)`: the first node with that id. */
  function Find(nodes: seq<Node>, id: NodeId): (r: Option<Node>)
    ensures r.Some? ==> r.value in nodes && r.value.id == id
    ensures r.None? <==> forall n :: n in nodes ==> n.id != id
    ensures r.Some? ==> exists i :: 0 <= i < |nodes| && nodes[i] == r.value && forall j :: 0 <= j < i ==> nodes[j].id != id
    decreases |nodes|
  {
    if |nodes| == 0 then None
    else if nodes[0].id == id then Some(nodes[0])
    else
      var r := Find(nodes[1..], id);
      assert forall n :: n in nodes ==> n == nodes[0] || n in nodes[1..];
      assert r.Some? ==> exists i :: 1 <= i < |nodes| && nodes[i] == r.value && forall j :: 0 <= j < i ==> nodes[j].id != id by {
        if r.Some? {
          var i :| 0 <= i < |nodes[1..]| && nodes[1..][i] == r.value && forall j :: 0 <= j < i ==> nodes[1..][j].id != id;
          assert nodes[i + 1] == r.value;
          assert forall j :: 0 <= j < i + 1 ==> nodes[j].id != id by {
            forall j | 0 <= j < i + 1 ensures nodes[j].id != id {
              if j > 0 { assert nodes[j] == nodes[1..][j - 1]; }
            }
          }
        }
      }
      r
  }

  /** How the counting functions change when one more edge is taken into account. */
  lemma EdgeStep(edges: seq<Edge>, m: nat)
    requires m < |edges|
    ensures TargetSet(edges[..m + 1]) == TargetSet(edges[..m]) + {edges[m].target}
    ensures forall k :: Targets(edges[..m + 1], k) == Targets(edges[..m], k) + (if edges[m].source == k then [edges[m].target] else [])
    ensures forall k :: InDegree(edges[..m + 1], k) == InDegree(edges[..m], k) + (if edges[m].target == k then 1 else 0)
  {
    assert edges[..m + 1][..m] == edges[..m];
    assert edges[..m + 1] == edges[..m] + [edges[m]];
  }

  lemma {:induction false} PendingUntargeted(edges: seq<Edge>, k: NodeId, done: set<NodeId>)
    requires k !in TargetSet(edges)
    ensures Pending(edges, k, done) == 0
    decreases |edges|
  {
    if |edges| > 0 {
      var init := edges[..|edges| - 1];
      assert forall e :: e in init ==> e in edges;
      PendingUntargeted(init, k, done);
    }
  }

  lemma {:induction false} PendingSplit(edges: seq<Edge>, k: NodeId, done: set<NodeId>, c: NodeId)
    requires c !in done
    ensures Pending(edges, k, done) == Pending(edges, k, done + {c}) + multiset(Targets(edges, c))[k]
    decreases |edges|
  {
    if |edges| > 0 {
      PendingSplit(edges[..|edges| - 1], k, done, c);
    }
  }

  lemma {:induction false} PendingZero(edges: seq<Edge>, k: NodeId, done: set<NodeId>)
    requires Pending(edges, k, done) == 0
    ensures forall m :: 0 <= m < |edges| && edges[m].target == k ==> edges[m].source in done
    decreases |edges|
  {
    if |edges| > 0 {
      var init := edges[..|edges| - 1];
      PendingZero(init, k, done);
      assert forall m :: 0 <= m < |init| ==> init[m] == edges[m];
    }
  }

  lemma {:induction false} PendingPositive(edges: seq<Edge>, k: NodeId, done: set<NodeId>)
    requires Pending(edges, k, done) > 0
    ensures exists m :: 0 <= m < |edges| && edges[m].target == k && edges[m].source !in done
    decreases |edges|
  {
    var init := edges[..|edges| - 1];
    var e := edges[|edges| - 1];
    if !(e.target == k && e.source !in done) {
      PendingPositive(init, k, done);
      var m :| 0 <= m < |init| && init[m].target == k && init[m].source !in done;
      assert edges[m] == init[m];
    }
  }

  /** How many entries of `ks` have a positive degree: the termination measure. */
  function Positives(ks: seq<NodeId>, deg: map<NodeId, int>): nat
    decreases |ks|
  {
    if |ks| == 0 then 0
    else (if ks[0] in deg && deg[ks[0]] > 0 then 1 else 0) + Positives(ks[1..], deg)
  }

  lemma {:induction false} PositivesDecrement(ks: seq<NodeId>, deg: map<NodeId, int>, t: NodeId)
    requires t in deg
    ensures Positives(ks, deg[t := deg[t] - 1]) <= Positives(ks, deg)
    ensures deg[t] == 1 && t in ks ==> Positives(ks, deg[t := deg[t] - 1]) < Positives(ks, deg)
    decreases |ks|
  {
    if |ks| > 0 {
      PositivesDecrement(ks[1..], deg, t);
      assert t in ks && t != ks[0] ==> t in ks[1..];
    }
  }

  // ---------------------------------------------------------------------------
  // What the output promises

  /** Only nodes of the input are emitted. */
  ghost predicate FromInput(nodes: seq<Node>, sorted: seq<Node>) {
    forall n :: n in sorted ==> n in nodes
  }

  /** The output starts with the nodes nothing points at, in input order: ties among
      the initially ready nodes are broken by input position. */
  ghost predicate SourcesFirst(nodes: seq<Node>, edges: seq<Edge>, sorted: seq<Node>) {
    var s := Sources(nodes, edges);
    |s| <= |sorted| && sorted[..|s|] == s
  }

  /** For every edge u -> v whose target is emitted, the source was emitted earlier. */
  ghost predicate RespectsEdges(edges: seq<Edge>, sorted: seq<Node>) {
    forall j, m :: 0 <= j < |sorted| && 0 <= m < |edges| && edges[m].target == sorted[j].id ==>
      exists i :: 0 <= i < j && sorted[i].id == edges[m].source
  }

  /** A listed node is left out only when one of its incoming edges comes from an id
      that is not emitted (a node on or after a cycle, or an id not in the list). */
  ghost predicate Saturated(nodes: seq<Node>, edges: seq<Edge>, sorted: seq<Node>) {
    forall n :: n in nodes && n !in sorted ==>
      exists m :: 0 <= m < |edges| && edges[m].target == n.id && edges[m].source !in IdSet(sorted)
  }

  /** Everything the sort promises. The last three need unique ids: with a repeated id
      the source processes that id twice and decrements its targets twice. */
  ghost predicate IsKahnOrder(nodes: seq<Node>, edges: seq<Edge>, sorted: seq<Node>) {
    && FromInput(nodes, sorted)
    && SourcesFirst(nodes, edges, sorted)
    && (UniqueIds(nodes) ==> UniqueIds(sorted) && RespectsEdges(edges, sorted) && Saturated(nodes, edges, sorted))
  }

  /** Every edge endpoint is a listed node. */
  ghost predicate Closed(nodes: seq<Node>, edges: seq<Edge>) {
    forall e :: e in edges ==> e.source in IdSet(nodes) && e.target in IdSet(nodes)
  }

  // ---------------------------------------------------------------------------
  // The algorithm

  /** The source's first `forEach`: an empty adjacency list and a zero in-degree for
      every listed id. */
  method InitMaps(nodes: seq<Node>) returns (graph: map<NodeId, seq<NodeId>>, inDegree: map<NodeId, int>)
    ensures graph.Keys == IdSet(nodes) && inDegree.Keys == IdSet(nodes)
    ensures forall k :: k in graph ==> graph[k] == [] && inDegree[k] == 0
  {
    graph, inDegree := map[], map[];
    for i := 0 to |nodes|
      invariant graph.Keys == IdSet(nodes[..i]) && inDegree.Keys == IdSet(nodes[..i])
      invariant forall k :: k in graph ==> graph[k] == [] && inDegree[k] == 0
    {
      assert nodes[..i + 1] == nodes[..i] + [nodes[i]];
      IdSetAppend(nodes[..i], nodes[i]);
      graph := graph[nodes[i].id := []];
      inDegree := inDegree[nodes[i].id := 0];
    }
    assert nodes[..|nodes|] == nodes;
  }

  /** `graph` holds the adjacency lists built from the first `m` edges. */
  ghost predicate GraphAfter(edges: seq<Edge>, m: nat, listed: set<NodeId>, graph: map<NodeId, seq<NodeId>>)
    requires m <= |edges|
  {
    graph.Keys == listed && forall k :: k in graph ==> graph[k] == Targets(edges[..m], k)
  }

  /** `inDegree` holds the in-degrees counted from the first `m` edges. */
  ghost predicate DegreesAfter(edges: seq<Edge>, m: nat, listed: set<NodeId>, inDegree: map<NodeId, int>)
    requires m <= |edges|
  {
    inDegree.Keys == listed + TargetSet(edges[..m]) && forall k :: k in inDegree ==> inDegree[k] == InDegree(edges[..m], k)
  }

  /** One edge's effect on the adjacency lists. */
  lemma GraphStep(edges: seq<Edge>, m: nat, listed: set<NodeId>, g0: map<NodeId, seq<NodeId>>, g1: map<NodeId, seq<NodeId>>)
    requires m < |edges| && GraphAfter(edges, m, listed, g0)
    requires g1 == if edges[m].source in g0 then g0[edges[m].source := g0[edges[m].source] + [edges[m].target]] else g0
    ensures GraphAfter(edges, m + 1, listed, g1)
  {
    EdgeStep(edges, m);
    forall k | k in g1 ensures g1[k] == Targets(edges[..m + 1], k) {
      if k != edges[m].source { assert g1[k] == g0[k]; }
    }
  }

  /** One edge's effect on the in-degrees. */
  lemma DegreeStep(edges: seq<Edge>, m: nat, listed: set<NodeId>, d0: map<NodeId, int>, d1: map<NodeId, int>)
    requires m < |edges| && DegreesAfter(edges, m, listed, d0)
    requires d1 == d0[edges[m].target := (if edges[m].target in d0 then d0[edges[m].target] else 0) + 1]
    ensures DegreesAfter(edges, m + 1, listed, d1)
  {
    var t := edges[m].target;
    EdgeStep(edges, m);
    if t !in d0 {
      PendingUntargeted(edges[..m], t, {});
    }
    forall k | k in d1 ensures d1[k] == InDegree(edges[..m + 1], k) {
      assert InDegree(edges[..m + 1], k) == InDegree(edges[..m], k) + (if t == k then 1 else 0);
      if k != t { assert d1[k] == d0[k]; }
    }
  }

  /** The source's second `forEach`: edge by edge, the target is pushed onto the
      source's adjacency list when the source is listed, and the target's in-degree
      is raised (from 0 when the target is not listed). */
  method AddEdges(listed: set<NodeId>, edges: seq<Edge>)
    returns (graph: map<NodeId, seq<NodeId>>, inDegree: map<NodeId, int>)
    ensures graph.Keys == listed
    ensures forall k :: k in graph ==> graph[k] == Targets(edges, k)
    ensures inDegree.Keys == listed + TargetSet(edges)
    ensures forall k :: k in inDegree ==> inDegree[k] == InDegree(edges, k)
  {
    graph := map k | k in listed :: [];
    inDegree := map k | k in listed :: 0;
    assert TargetSet(edges[..0]) == {};
    for m := 0 to |edges|
      invariant GraphAfter(edges, m, listed, graph)
      invariant DegreesAfter(edges, m, listed, inDegree)
    {
      var e := edges[m];
      ghost var g0, d0 := graph, inDegree;
      if e.source in graph {
        graph := graph[e.source := graph[e.source] + [e.target]];
      }
      inDegree := inDegree[e.target := (if e.target in inDegree then inDegree[e.target] else 0) + 1];
      GraphStep(edges, m, listed, g0, graph);
      DegreeStep(edges, m, listed, d0, inDegree);
    }
    assert edges[..|edges|] == edges;
  }

  /** The third pass: every listed node whose in-degree is zero, in input order. */
  method SeedQueue(nodes: seq<Node>, edges: seq<Edge>, inDegree: map<NodeId, int>) returns (queue: seq<Node>)
    requires forall n :: n in nodes ==> n.id in inDegree && inDegree[n.id] == InDegree(edges, n.id)
    ensures queue == Sources(nodes, edges)
  {
    queue := [];
    for i := 0 to |nodes|
      invariant queue == Sources(nodes[..i], edges)
    {
      assert nodes[..i + 1][..i] == nodes[..i];
      if inDegree[nodes[i].id] == 0 {
        queue := queue + [nodes[i]];
      }
    }
    assert nodes[..|nodes|] == nodes;
  }

  /** The state of the main loop: `sorted` holds the dequeued nodes, `queue` the
      ready ones, and `owed` the decrements still to be applied for the node being
      processed. With unique ids, an id's in-degree counts the edges into it whose
      source has not been dequeued (plus what is owed), a listed node has been
      enqueued exactly when its in-degree reached zero, and every enqueued node comes
      after the sources of all its incoming edges. */
  ghost predicate Progress(nodes: seq<Node>, edges: seq<Edge>, keys: set<NodeId>, sources: seq<Node>,
                           sorted: seq<Node>, queue: seq<Node>, inDegree: map<NodeId, int>, owed: multiset<NodeId>)
  {
    && inDegree.Keys == keys
    && (forall n :: n in nodes ==> n.id in keys)
    && (forall n :: n in sorted + queue ==> n in nodes)
    && |sources| <= |sorted + queue| && (sorted + queue)[..|sources|] == sources
    && (UniqueIds(nodes) ==>
         && UniqueIds(sorted + queue)
         && (forall k :: k in inDegree ==> inDegree[k] == Pending(edges, k, IdSet(sorted)) + owed[k])
         && (forall n :: n in nodes ==> (n in sorted + queue <==> inDegree[n.id] == 0))
         && RespectsEdges(edges, sorted + queue))
  }

  /** Lowering a target's in-degree keeps the loop state when nothing is enqueued:
      the degree does not reach zero, or no listed node has that id. */
  lemma DecrementKeeps(nodes: seq<Node>, edges: seq<Edge>, keys: set<NodeId>, sources: seq<Node>,
                       sorted: seq<Node>, queue: seq<Node>, inDegree: map<NodeId, int>,
                       t: NodeId, rest: multiset<NodeId>)
    requires Progress(nodes, edges, keys, sources, sorted, queue, inDegree, multiset{t} + rest)
    requires t in keys
    requires inDegree[t] != 1 || Find(nodes, t).None?
    ensures Progress(nodes, edges, keys, sources, sorted, queue, inDegree[t := inDegree[t] - 1], rest)
  {
  }

  /** Lowering a target's in-degree from one to zero and enqueueing the node with
      that id keeps the loop state. */
  lemma ReleaseKeeps(nodes: seq<Node>, edges: seq<Edge>, keys: set<NodeId>, sources: seq<Node>,
                     sorted: seq<Node>, queue: seq<Node>, inDegree: map<NodeId, int>,
                     t: NodeId, rest: multiset<NodeId>, n: Node)
    requires Progress(nodes, edges, keys, sources, sorted, queue, inDegree, multiset{t} + rest)
    requires t in keys && inDegree[t] == 1 && Find(nodes, t) == Some(n)
    ensures Progress(nodes, edges, keys, sources, sorted, queue + [n], inDegree[t := 0], rest)
  {
    var prev := sorted + queue;
    assert sorted + (queue + [n]) == prev + [n];
    if UniqueIds(nodes) {
      forall x | x in prev ensures x.id != n.id {
        if x.id == n.id { UniqueIdsSame(nodes, x, n); }
      }
      PendingZero(edges, t, IdSet(sorted));
      forall m | 0 <= m < |edges| && edges[m].target == n.id
        ensures exists i :: 0 <= i < |prev| && prev[i].id == edges[m].source
      {
        var x :| x in sorted && x.id == edges[m].source;
        var i :| 0 <= i < |sorted| && sorted[i] == x;
        assert prev[i] == x;
      }
      forall y | y in nodes && y.id == n.id ensures y == n {
        UniqueIdsSame(nodes, y, n);
      }
      var after := prev + [n];
      assert RespectsEdges(edges, after) by {
        forall j, m | 0 <= j < |after| && 0 <= m < |edges| && edges[m].target == after[j].id
          ensures exists i :: 0 <= i < j && after[i].id == edges[m].source
        {
          if j < |prev| {
            var i :| 0 <= i < j && prev[i].id == edges[m].source;
            assert after[i] == prev[i];
          } else {
            var i :| 0 <= i < |prev| && prev[i].id == edges[m].source;
            assert after[i] == prev[i];
          }
        }
      }
    }
  }

  /** The source's inner `forEach` over the dequeued node's targets: lower each
      target's in-degree and enqueue the listed node whose in-degree reaches zero. */
  method ReleaseTargets(nodes: seq<Node>, edges: seq<Edge>, targets: seq<NodeId>,
                        inDegree0: map<NodeId, int>, queue0: seq<Node>,
                        ghost keys: set<NodeId>, ghost ks: seq<NodeId>, ghost sources: seq<Node>, ghost sorted: seq<Node>)
    returns (inDegree: map<NodeId, int>, queue: seq<Node>)
    requires forall x :: x in targets ==> x in keys && x in ks
    requires Progress(nodes, edges, keys, sources, sorted, queue0, inDegree0, multiset(targets))
    ensures Progress(nodes, edges, keys, sources, sorted, queue, inDegree, multiset{})
    ensures |queue| + Positives(ks, inDegree) <= |queue0| + Positives(ks, inDegree0)
  {
    inDegree, queue := inDegree0, queue0;
    for j := 0 to |targets|
      invariant Progress(nodes, edges, keys, sources, sorted, queue, inDegree, multiset(targets[j..]))
      invariant |queue| + Positives(ks, inDegree) <= |queue0| + Positives(ks, inDegree0)
    {
      var targetId := targets[j];
      assert targets[j..] == [targetId] + targets[j + 1..];
      assert multiset(targets[j..]) == multiset{targetId} + multiset(targets[j + 1..]);
      var newDegree := (if targetId in inDegree then inDegree[targetId] else 0) - 1;
      PositivesDecrement(ks, inDegree, targetId);
      var targetNode := if newDegree == 0 then Find(nodes, targetId) else None;
      if targetNode.Some? {
        ReleaseKeeps(nodes, edges, keys, sources, sorted, queue, inDegree, targetId, multiset(targets[j + 1..]), targetNode.value);
      } else {
        DecrementKeeps(nodes, edges, keys, sources, sorted, queue, inDegree, targetId, multiset(targets[j + 1..]));
      }
      inDegree := inDegree[targetId := newDegree];
      if targetNode.Some? {
        queue := queue + [targetNode.value];
      }
    }
  }

  /** The loop state before the first dequeue. */
  lemma StartKeeps(nodes: seq<Node>, edges: seq<Edge>, inDegree: map<NodeId, int>)
    requires forall n :: n in nodes ==> n.id in inDegree
    requires forall k :: k in inDegree ==> inDegree[k] == InDegree(edges, k)
    ensures Progress(nodes, edges, inDegree.Keys, Sources(nodes, edges), [], Sources(nodes, edges), inDegree, multiset{})
  {
    var queue := Sources(nodes, edges);
    assert [] + queue == queue;
    assert IdSet([]) == {};
    forall j, m | 0 <= j < |queue| && 0 <= m < |edges| ensures edges[m].target != queue[j].id {
      PendingZero(edges, queue[j].id, {});
    }
  }

  /** Dequeueing the head moves it to `sorted`; the decrements for its targets are
      then owed. */
  lemma PopKeeps(nodes: seq<Node>, edges: seq<Edge>, keys: set<NodeId>, sources: seq<Node>,
                 sorted: seq<Node>, queue: seq<Node>, inDegree: map<NodeId, int>)
    requires Progress(nodes, edges, keys, sources, sorted, queue, inDegree, multiset{})
    requires |queue| > 0
    ensures Progress(nodes, edges, keys, sources, sorted + [queue[0]], queue[1..], inDegree,
                     multiset(Targets(edges, queue[0].id)))
  {
    var node := queue[0];
    var all := sorted + queue;
    assert (sorted + [node]) + queue[1..] == all;
    IdSetAppend(sorted, node);
    if UniqueIds(nodes) {
      assert node.id !in IdSet(sorted) by {
        forall x | x in sorted ensures x.id != node.id {
          var i :| 0 <= i < |sorted| && sorted[i] == x;
          assert all[i] == x && all[|sorted|] == node;
        }
      }
      forall k | k in inDegree
        ensures inDegree[k] == Pending(edges, k, IdSet(sorted + [node])) + multiset(Targets(edges, node.id))[k]
      {
        PendingSplit(edges, k, IdSet(sorted), node.id);
      }
    }
  }

  /** When the queue runs dry, every listed node left out has an incoming edge from
      an id that was never emitted. */
  lemma EndSaturated(nodes: seq<Node>, edges: seq<Edge>, keys: set<NodeId>, sources: seq<Node>,
                     sorted: seq<Node>, inDegree: map<NodeId, int>)
    requires Progress(nodes, edges, keys, sources, sorted, [], inDegree, multiset{})
    requires UniqueIds(nodes)
    ensures Saturated(nodes, edges, sorted)
  {
    assert sorted + [] == sorted;
    forall n | n in nodes && n !in sorted
      ensures exists m :: 0 <= m < |edges| && edges[m].target == n.id && edges[m].source !in IdSet(sorted)
    {
      PendingPositive(edges, n.id, IdSet(sorted));
    }
  }

  /** The source's `topologicalSort`. */
  method TopologicalSort(nodes: seq<Node>, edges: seq<Edge>) returns (sorted: seq<Node>)
    ensures IsKahnOrder(nodes, edges, sorted)
    ensures UniqueIds(nodes) && Closed(nodes, edges) && Acyclic(edges) ==> multiset(sorted) == multiset(nodes)
  {
    var graph0, inDegree0 := InitMaps(nodes);
    var graph, inDegree := AddEdges(graph0.Keys, edges);
    var queue := SeedQueue(nodes, edges, inDegree);

    ghost var keys := inDegree.Keys;
    ghost var ks := AllTargets(edges);
    ghost var sources := queue;
    sorted := [];
    StartKeeps(nodes, edges, inDegree);

    while |queue| > 0
      invariant Progress(nodes, edges, keys, sources, sorted, queue, inDegree, multiset{})
      decreases |queue| + Positives(ks, inDegree)
    {
      var node := queue[0];
      PopKeeps(nodes, edges, keys, sources, sorted, queue, inDegree);
      queue := queue[1..];
      sorted := sorted + [node];
      if node.id in graph {
        var targets := graph[node.id];
        TargetsTargeted(edges, node.id);
        inDegree, queue := ReleaseTargets(nodes, edges, targets, inDegree, queue, keys, ks, sources, sorted);
      }
    }

    assert sorted + [] == sorted;
    if UniqueIds(nodes) {
      EndSaturated(nodes, edges, keys, sources, sorted, inDegree);
      if Closed(nodes, edges) && Acyclic(edges) {
        AllEmitted(nodes, edges, sorted);
      }
    }
  }

  // ---------------------------------------------------------------------------
  // Which nodes are emitted

  /** An emitted id's predecessors along any path into it were emitted earlier. */
  lemma {:induction false} EmittedUpstream(edges: seq<Edge>, sorted: seq<Node>, p: seq<NodeId>, j: nat)
    requires RespectsEdges(edges, sorted)
    requires IsPath(edges, p) && j < |sorted| && sorted[j].id == p[|p| - 1]
    ensures exists i :: 0 <= i <= j && sorted[i].id == p[0]
    decreases |p|
  {
    if |p| > 1 {
      var last := |p| - 1;
      assert HasEdge(edges, p[last - 1], p[last]);
      var m :| 0 <= m < |edges| && edges[m].source == p[last - 1] && edges[m].target == p[last];
      var i :| 0 <= i < j && sorted[i].id == edges[m].source;
      var q := p[..last];
      assert forall k :: 0 <= k < |q| ==> q[k] == p[k];
      EmittedUpstream(edges, sorted, q, i);
    }
  }

  /** No id on a cycle is emitted at position `j` or before. */
  lemma {:induction false} CycleNotBefore(edges: seq<Edge>, sorted: seq<Node>, p: seq<NodeId>, j: nat)
    requires RespectsEdges(edges, sorted) && IsCycle(edges, p) && j < |sorted|
    ensures forall k :: 0 <= k < |p| ==> sorted[j].id != p[k]
    decreases j
  {
    forall k | 0 <= k < |p| ensures sorted[j].id != p[k] {
      if sorted[j].id == p[k] {
        var pred := if k > 0 then k - 1 else |p| - 2;
        assert HasEdge(edges, p[pred], p[k]);
        var m :| 0 <= m < |edges| && edges[m].source == p[pred] && edges[m].target == p[k];
        var i :| 0 <= i < j && sorted[i].id == edges[m].source;
        CycleNotBefore(edges, sorted, p, i);
        assert false;
      }
    }
  }

  /** The source drops, without any error, every node on a cycle, every node reachable
      from a cycle, and every target of an edge whose source is not a listed node. */
  lemma Omissions(nodes: seq<Node>, edges: seq<Edge>, sorted: seq<Node>)
    requires IsKahnOrder(nodes, edges, sorted) && UniqueIds(nodes)
    ensures forall p, k :: IsCycle(edges, p) && 0 <= k < |p| ==> p[k] !in IdSet(sorted)
    ensures forall p, c :: IsCycle(edges, c) && IsPath(edges, p) && p[0] in c ==> p[|p| - 1] !in IdSet(sorted)
    ensures forall m :: 0 <= m < |edges| && edges[m].source !in IdSet(nodes) ==> edges[m].target !in IdSet(sorted)
  {
    forall p, k | IsCycle(edges, p) && 0 <= k < |p| ensures p[k] !in IdSet(sorted) {
      if p[k] in IdSet(sorted) {
        var n :| n in sorted && n.id == p[k];
        var j :| 0 <= j < |sorted| && sorted[j] == n;
        CycleNotBefore(edges, sorted, p, j);
        assert false;
      }
    }
    forall p, c | IsCycle(edges, c) && IsPath(edges, p) && p[0] in c ensures p[|p| - 1] !in IdSet(sorted) {
      if p[|p| - 1] in IdSet(sorted) {
        var n :| n in sorted && n.id == p[|p| - 1];
        var j :| 0 <= j < |sorted| && sorted[j] == n;
        EmittedUpstream(edges, sorted, p, j);
        var i :| 0 <= i <= j && sorted[i].id == p[0];
        CycleNotBefore(edges, sorted, c, i);
        assert false;
      }
    }
  }

  /** Some in-neighbour of `y` inside `within`, when there is one. */
  ghost function InNeighbour(edges: seq<Edge>, within: set<NodeId>, y: NodeId): (r: NodeId)
    ensures (exists z :: z in within && HasEdge(edges, z, y)) ==> r in within && HasEdge(edges, r, y)
  {
    if exists z :: z in within && HasEdge(edges, z, y) then var z :| z in within && HasEdge(edges, z, y); z else y
  }

  /** An omitted listed id has an incoming edge from another omitted listed id, and
      `InNeighbour` picks one. */
  lemma OmittedPredecessor(nodes: seq<Node>, edges: seq<Edge>, sorted: seq<Node>, x: NodeId)
    returns (y: NodeId)
    requires Saturated(nodes, edges, sorted) && Closed(nodes, edges)
    requires x in IdSet(nodes) && x !in IdSet(sorted)
    ensures y == InNeighbour(edges, IdSet(nodes) - IdSet(sorted), x)
    ensures y in IdSet(nodes) - IdSet(sorted) && HasEdge(edges, y, x)
  {
    var n :| n in nodes && n.id == x;
    assert n !in sorted;
    var m :| 0 <= m < |edges| && edges[m].target == n.id && edges[m].source !in IdSet(sorted);
    assert edges[m] in edges;
    var omitted := IdSet(nodes) - IdSet(sorted);
    assert HasEdge(edges, edges[m].source, x) && edges[m].source in omitted;
    y := InNeighbour(edges, omitted, x);
  }

  /** Following `pred` back `len` times from `x`, written in edge direction: a walk
      through `omitted` when `pred` maps each id there to an in-neighbour there. */
  lemma {:induction false} BackwardWalk(edges: seq<Edge>, omitted: set<NodeId>, pred: NodeId -> NodeId, x: NodeId, len: nat)
    returns (w: seq<NodeId>)
    requires forall y {:trigger pred(y)} :: y in omitted ==> pred(y) in omitted && HasEdge(edges, pred(y), y)
    requires x in omitted
    ensures |w| == len + 1 && w[len] == x
    ensures forall i :: 0 <= i < |w| ==> w[i] in omitted
    ensures forall i :: 0 <= i < len ==> HasEdge(edges, w[i], w[i + 1])
    decreases len
  {
    if len == 0 {
      w := [x];
    } else {
      var w0 := BackwardWalk(edges, omitted, pred, pred(x), len - 1);
      w := w0 + [x];
      assert forall i :: 0 <= i < len ==> w[i] == w0[i];
    }
  }

  lemma OmittedInNeighbours(nodes: seq<Node>, edges: seq<Edge>, sorted: seq<Node>)
    requires Saturated(nodes, edges, sorted) && Closed(nodes, edges)
    ensures var omitted := IdSet(nodes) - IdSet(sorted);
      forall y {:trigger InNeighbour(edges, omitted, y)} :: y in omitted ==>
        InNeighbour(edges, omitted, y) in omitted && HasEdge(edges, InNeighbour(edges, omitted, y), y)
  {
    var omitted := IdSet(nodes) - IdSet(sorted);
    forall y | y in omitted
      ensures InNeighbour(edges, omitted, y) in omitted && HasEdge(edges, InNeighbour(edges, omitted, y), y)
    {
      var z := OmittedPredecessor(nodes, edges, sorted, y);
    }
  }

  /** When every edge endpoint is listed, an omitted listed id is reached from a cycle
      of omitted ids. */
  lemma OmittedCycle(nodes: seq<Node>, edges: seq<Edge>, sorted: seq<Node>, x: NodeId)
    returns (c: seq<NodeId>)
    requires Saturated(nodes, edges, sorted) && Closed(nodes, edges)
    requires x in IdSet(nodes) && x !in IdSet(sorted)
    ensures IsCycle(edges, c)
    ensures forall k :: 0 <= k < |c| ==> c[k] in IdSet(nodes) - IdSet(sorted)
    ensures exists p :: IsPath(edges, p) && p[0] == c[0] && p[|p| - 1] == x
  {
    var omitted := IdSet(nodes) - IdSet(sorted);
    OmittedInNeighbours(nodes, edges, sorted);
    var pred := y => InNeighbour(edges, omitted, y);
    var w := BackwardWalk(edges, omitted, pred, x, |omitted|);
    if forall i, j :: 0 <= i < j < |w| ==> w[i] != w[j] {
      DistinctBound(w, omitted);
      assert false;
    }
    var i, j :| 0 <= i < j < |w| && w[i] == w[j];
    c := RepeatedSegment(edges, w, omitted, i, j);
  }

  /** The segment of a walk between two visits of the same id is a cycle of ids the
      walk visits, and the rest of the walk leads from it to the walk's end. */
  lemma RepeatedSegment(edges: seq<Edge>, w: seq<NodeId>, within: set<NodeId>, i: nat, j: nat)
    returns (c: seq<NodeId>)
    requires forall k :: 0 <= k < |w| - 1 ==> HasEdge(edges, w[k], w[k + 1])
    requires forall k :: 0 <= k < |w| ==> w[k] in within
    requires i < j < |w| && w[i] == w[j]
    ensures IsCycle(edges, c)
    ensures forall k :: 0 <= k < |c| ==> c[k] in within
    ensures exists p :: IsPath(edges, p) && p[0] == c[0] && p[|p| - 1] == w[|w| - 1]
  {
    RepeatIsCycle(edges, w, i, j);
    c := w[i..j + 1];
    forall k | 0 <= k < |c| ensures c[k] in within {
      assert c[k] == w[i + k];
    }
    var p := w[i..];
    forall k | 0 <= k < |p| - 1 ensures HasEdge(edges, p[k], p[k + 1]) {
      assert p[k] == w[i + k] && p[k + 1] == w[i + k + 1];
    }
    assert IsPath(edges, p) && p[0] == c[0] && p[|p| - 1] == w[|w| - 1];
  }

  /** A walk that visits some id twice contains a cycle. */
  lemma RepeatIsCycle(edges: seq<Edge>, w: seq<NodeId>, i: nat, j: nat)
    requires forall k :: 0 <= k < |w| - 1 ==> HasEdge(edges, w[k], w[k + 1])
    requires i < j < |w| && w[i] == w[j]
    ensures IsCycle(edges, w[i..j + 1])
  {
    var p := w[i..j + 1];
    forall k | 0 <= k < |p| - 1 ensures HasEdge(edges, p[k], p[k + 1]) {
      assert p[k] == w[i + k] && p[k + 1] == w[i + k + 1];
    }
  }

  /** A sequence without repetitions holds each of its elements once. */
  lemma {:induction false} DistinctCount<T>(s: seq<T>, x: T)
    requires forall i, j :: 0 <= i < j < |s| ==> s[i] != s[j]
    ensures multiset(s)[x] == if x in s then 1 else 0
    decreases |s|
  {
    if |s| > 0 {
      var init := s[..|s| - 1];
      assert s == init + [s[|s| - 1]];
      DistinctCount(init, x);
    }
  }

  /** With unique ids, every edge endpoint listed and no cycle, every listed node is
      emitted, so the output is a permutation of the input. */
  lemma AllEmitted(nodes: seq<Node>, edges: seq<Edge>, sorted: seq<Node>)
    requires IsKahnOrder(nodes, edges, sorted) && UniqueIds(nodes)
    requires Closed(nodes, edges) && Acyclic(edges)
    ensures multiset(sorted) == multiset(nodes)
  {
    forall n | n in nodes ensures n in sorted {
      if n !in sorted {
        assert n.id !in IdSet(sorted) by {
          forall y | y in sorted ensures y.id != n.id {
            if y.id == n.id { UniqueIdsSame(nodes, y, n); }
          }
        }
        var c := OmittedCycle(nodes, edges, sorted, n.id);
        assert false;
      }
    }
    forall x ensures multiset(sorted)[x] == multiset(nodes)[x] {
      DistinctCount(sorted, x);
      DistinctCount(nodes, x);
    }
  }
}
