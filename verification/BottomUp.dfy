/** `bottom_up_traversal`: visit a vertex once all targets of its out-edges have been visited. */
module BottomUp {
  import opened Walks
  import opened Graphs
  import opened BaseGraphs
  import opened Tarjan
  import opened StrongComponents

  // ---- cycles --------------------------------------------------------------------------------

  ghost predicate ReachesCycle(E: Rel, v: nat) {
    exists w: nat, x: nat :: Reach(E, v, w) && (w, x) in E && Reach(E, x, w)
  }

  /** Every vertex of `order` comes after all its successors. */
  ghost predicate SuccessorsFirst(E: Rel, order: seq<nat>) {
    && Distinct(order)
    && forall i, y: nat :: 0 <= i < |order| && (order[i], y) in E ==> y in order[..i]
  }

  lemma PrefixIsClosed(E: Rel, order: seq<nat>, i: nat, y: nat)
    requires SuccessorsFirst(E, order) && i < |order| && Reach(E, order[i], y)
    ensures y in order[..i + 1]
  {
    var prefix := order[..i + 1];
    var S := iset x: nat | x in prefix;
    forall x, z | x in S && (x, z) in E
      ensures z in S
    {
      var j :| 0 <= j < i + 1 && order[j] == x;
      assert z in order[..j];
    }
    assert prefix[i] == order[i];
    ReachStaysInClosedSet(E, S, order[i], y);
  }

  lemma OrderedReachesNoCycle(E: Rel, order: seq<nat>, v: nat)
    requires SuccessorsFirst(E, order) && v in order
    ensures !ReachesCycle(E, v)
  {
    if ReachesCycle(E, v) {
      var w: nat, x: nat :| Reach(E, v, w) && (w, x) in E && Reach(E, x, w);
      var i :| 0 <= i < |order| && order[i] == v;
      PrefixIsClosed(E, order, i, w);
      var j :| 0 <= j < |order| && order[j] == w;
      assert x in order[..j];
      var k :| 0 <= k < j && order[k] == x;
      PrefixIsClosed(E, order, k, w);
      assert false;
    }
  }

  ghost predicate HasSuccessor(E: Rel, U: iset<nat>, x: nat) {
    exists y :: y in U && (x, y) in E
  }

  /** Every vertex of `U` has a successor in `U`. */
  ghost predicate Trapped(E: Rel, U: iset<nat>) {
    forall x {:trigger HasSuccessor(E, U, x)} :: x in U ==> HasSuccessor(E, U, x)
  }

  /** A walk of `k` steps that stays in `U`. */
  lemma {:induction false} LongWalk(E: Rel, U: iset<nat>, u: nat, k: nat) returns (p: seq<nat>)
    requires u in U && Trapped(E, U)
    ensures IsWalk(E, p) && |p| == k + 1 && p[0] == u && forall i :: 0 <= i < |p| ==> p[i] in U
  {
    if k == 0 {
      p := [u];
    } else {
      var q := LongWalk(E, U, u, k - 1);
      assert HasSuccessor(E, U, q[|q| - 1]);
      var y :| y in U && (q[|q| - 1], y) in E;
      p := q + [y];
    }
  }

  lemma WalkPartReaches(E: Rel, p: seq<nat>, i: nat, j: nat)
    requires IsWalk(E, p) && i <= j < |p|
    ensures Reach(E, p[i], p[j])
  {
    assert IsWalkFromTo(E, p[i..j + 1], p[i], p[j]);
  }

  /** A walk over fewer vertices than it is long runs into a cycle. */
  lemma LongWalkReachesCycle(E: Rel, p: seq<nat>, n: nat)
    requires IsWalk(E, p) && |p| == n + 1 && forall i :: 0 <= i < |p| ==> p[i] < n
    ensures ReachesCycle(E, p[0])
  {
    if Distinct(p) {
      DistinctFits(p, n);
    }
    var i, j :| 0 <= i < j < |p| && p[i] == p[j];
    WalkPartReaches(E, p, 0, i);
    WalkPartReaches(E, p, i + 1, j);
    assert (p[i], p[i + 1]) in E;
  }

  /** If every vertex of a finite set has a successor in the set, every one of them reaches a cycle. */
  lemma StuckReachesCycle(E: Rel, U: iset<nat>, n: nat, u: nat)
    requires u in U && Trapped(E, U) && forall x :: x in U ==> x < n
    ensures ReachesCycle(E, u)
  {
    var p := LongWalk(E, U, u, n);
    LongWalkReachesCycle(E, p, n);
  }

  // ---- counting resolved out-edges -----------------------------------------------------------

  /** How many edges of `s` lead into `seen`. */
  function Resolved<P>(s: seq<Edge<P>>, seen: seq<nat>): nat {
    if s == [] then 0 else (if s[0].target in seen then 1 else 0) + Resolved(s[1..], seen)
  }

  lemma {:induction false} ResolvedBound<P>(s: seq<Edge<P>>, seen: seq<nat>)
    ensures Resolved(s, seen) <= |s|
    ensures Resolved(s, seen) == |s| <==> forall i :: 0 <= i < |s| ==> s[i].target in seen
  {
    if s != [] {
      ResolvedBound(s[1..], seen);
      if Resolved(s[1..], seen) == |s[1..]| {
        forall i | 1 <= i < |s|
          ensures s[i].target in seen
        {
          assert s[i] == s[1..][i - 1];
        }
      }
    }
  }

  lemma {:induction false} ResolvedNext<P>(s: seq<Edge<P>>, seen: seq<nat>, u: nat, v: nat)
    requires v !in seen && forall i :: 0 <= i < |s| ==> s[i].source == u
    ensures Resolved(s, seen + [v]) == Resolved(s, seen) + |Between(s, u, v)|
  {
    if s != [] {
      ResolvedNext(s[1..], seen, u, v);
    }
  }

  lemma {:induction false} BetweenPrefix<P>(s: seq<Edge<P>>, k: nat, u: nat, v: nat)
    requires k < |s|
    ensures |Between(s[..k + 1], u, v)| ==
            |Between(s[..k], u, v)| + if s[k].source == u && s[k].target == v then 1 else 0
    ensures |Between(s[..k + 1], u, v)| <= |Between(s, u, v)|
  {
    assert s[..k + 1] == s[..k] + [s[k]];
    BetweenAppend(s[..k], s[k], u, v);
    assert s == s[..k + 1] + s[k + 1..];
    BetweenConcat(s[..k + 1], s[k + 1..], u, v);
  }

  /** Each vertex has one count for each edge into a visited vertex, those into `v` as far as seen. */
  ghost predicate Counts<V, P>(g: Slots<V, P>, resolved: seq<int>, visited: seq<nat>, v: nat, k: nat)
    requires |resolved| >= |g| && v < |g| && k <= |g[v].inEdges|
  {
    forall u: nat {:trigger resolved[u]} :: u < |g| ==>
      resolved[u] == Resolved(g[u].outEdges, visited) + |Between(g[v].inEdges[..k], u, v)|
  }

  /** The state of the traversal while the first `k` in-edges of `v` have been counted; `visited`
      are the vertices handled before, `queue` those still waiting. */
  ghost predicate Counting<V, P>(g: Slots<V, P>, resolved: seq<int>, visited: seq<nat>, v: nat, k: nat,
                                 queue: seq<nat>) {
    && Mirrored(g) && |resolved| >= |g| && v < |g| && k <= |g[v].inEdges|
    && Released(g, resolved, visited + [v] + queue) && v !in visited
    && Counts(g, resolved, visited, v, k)
  }

  /** Exactly the vertices with no unresolved edge have been handed out, each once. */
  ghost predicate Released<V, P>(g: Slots<V, P>, resolved: seq<int>, all: seq<nat>)
    requires |resolved| >= |g|
  {
    && Distinct(all)
    && (forall i :: 0 <= i < |all| ==> all[i] < |g|)
    && (forall u: nat :: u < |g| ==> (u in all <==> resolved[u] == |g[u].outEdges|))
  }

  lemma CountRoom<V, P>(g: Slots<V, P>, resolved: seq<int>, visited: seq<nat>, v: nat, k: nat, queue: seq<nat>)
    requires Counting(g, resolved, visited, v, k, queue) && k < |g[v].inEdges|
    ensures var u := g[v].inEdges[k].source; u < |g| && resolved[u] < |g[u].outEdges|
  {
    var u := g[v].inEdges[k].source;
    BetweenPrefix(g[v].inEdges, k, u, v);
    ResolvedNext(g[u].outEdges, visited, u, v);
    ResolvedBound(g[u].outEdges, visited + [v]);
  }

  lemma QueueNext(visited: seq<nat>, v: nat, queue: seq<nat>, u: nat)
    ensures visited + [v] + (queue + [u]) == visited + [v] + queue + [u]
  {
  }

  lemma CountsNext<V, P>(g: Slots<V, P>, resolved: seq<int>, visited: seq<nat>, v: nat, k: nat, u: nat)
    requires |resolved| >= |g| && v < |g| && k < |g[v].inEdges| && Counts(g, resolved, visited, v, k)
    requires g[v].inEdges[k].target == v && g[v].inEdges[k].source == u && u < |g|
    ensures Counts(g, resolved[u := resolved[u] + 1], visited, v, k + 1)
  {
    forall x: nat | x < |g|
      ensures |Between(g[v].inEdges[..k + 1], x, v)| == |Between(g[v].inEdges[..k], x, v)| + if x == u then 1 else 0
    {
      BetweenPrefix(g[v].inEdges, k, x, v);
    }
  }

  lemma CountStep<V, P>(g: Slots<V, P>, resolved: seq<int>, visited: seq<nat>, v: nat, k: nat, queue: seq<nat>)
    requires Counting(g, resolved, visited, v, k, queue) && k < |g[v].inEdges|
    ensures var u := g[v].inEdges[k].source;
      && u < |g|
      && Counting(g, resolved[u := resolved[u] + 1], visited, v, k + 1,
                  if resolved[u] + 1 == |g[u].outEdges| then queue + [u] else queue)
  {
    CountRoom(g, resolved, visited, v, k, queue);
    var u := g[v].inEdges[k].source;
    CountsNext(g, resolved, visited, v, k, u);
    ReleaseStep(g, resolved, visited + [v] + queue, u);
    QueueNext(visited, v, queue, u);
  }

  lemma ReleaseStep<V, P>(g: Slots<V, P>, resolved: seq<int>, all: seq<nat>, u: nat)
    requires |resolved| >= |g| && Released(g, resolved, all) && u < |g| && resolved[u] < |g[u].outEdges|
    ensures Released(g, resolved[u := resolved[u] + 1], if resolved[u] + 1 == |g[u].outEdges| then all + [u] else all)
  {
  }

  /** Between two rounds of the outer loop. */
  ghost predicate Traversing<V, P>(g: Slots<V, P>, resolved: seq<int>, visited: seq<nat>, queue: seq<nat>) {
    && Mirrored(g) && |resolved| >= |g| && Released(g, resolved, visited + queue)
    && (forall u: nat :: u < |g| ==> resolved[u] == Resolved(g[u].outEdges, visited))
    && SuccessorsFirst(Edges(Targets(g)), visited)
  }

  lemma RoundStart<V, P>(g: Slots<V, P>, resolved: seq<int>, visited: seq<nat>, v: nat, queue: seq<nat>)
    requires Traversing(g, resolved, visited, [v] + queue)
    ensures Counting(g, resolved, visited, v, 0, queue)
    ensures SuccessorsFirst(Edges(Targets(g)), visited + [v])
  {
    var all := visited + ([v] + queue);
    assert visited + [v] + queue == all;
    assert all[|visited|] == v;
    assert v in all;
    assert forall i :: 0 <= i < |visited| ==> all[i] == visited[i];
    ResolvedBound(g[v].outEdges, visited);
    assert g[v].inEdges[..0] == [];
    var order := visited + [v];
    forall i, y: nat | 0 <= i < |order| && (order[i], y) in Edges(Targets(g))
      ensures y in order[..i]
    {
      if i < |visited| {
        assert y in visited[..i] && visited[..i] == order[..i];
      } else {
        var e :| 0 <= e < |Targets(g)[v]| && Targets(g)[v][e] == y;
        assert g[v].outEdges[e].target in visited;
        assert order[..i] == visited;
      }
    }
  }

  lemma RoundEnd<V, P>(g: Slots<V, P>, resolved: seq<int>, visited: seq<nat>, v: nat, queue: seq<nat>)
    requires v < |g| && Counting(g, resolved, visited, v, |g[v].inEdges|, queue)
    requires SuccessorsFirst(Edges(Targets(g)), visited + [v])
    ensures Traversing(g, resolved, visited + [v], queue)
  {
    assert g[v].inEdges[..|g[v].inEdges|] == g[v].inEdges;
    forall u: nat | u < |g|
      ensures resolved[u] == Resolved(g[u].outEdges, visited + [v])
    {
      ResolvedNext(g[u].outEdges, visited, u, v);
    }
  }

  /** What the traversal visits: exactly the vertices from which no cycle can be reached. */
  lemma VisitedIsAcyclicPart<V, P>(g: Slots<V, P>, resolved: seq<int>, visited: seq<nat>, v: nat)
    requires Traversing(g, resolved, visited, []) && v < |g|
    ensures v in visited <==> !ReachesCycle(Edges(Targets(g)), v)
  {
    var E := Edges(Targets(g));
    if v in visited {
      OrderedReachesNoCycle(E, visited, v);
    } else {
      assert visited + [] == visited;
      var U := iset x: nat | x < |g| && x !in visited;
      forall x | x in U
        ensures HasSuccessor(E, U, x)
      {
        ResolvedBound(g[x].outEdges, visited);
        var e :| 0 <= e < |g[x].outEdges| && g[x].outEdges[e].target !in visited;
        assert Targets(g)[x][e] in Targets(g)[x];
        assert g[x].outEdges[e].target in U && (x, g[x].outEdges[e].target) in E;
      }
      StuckReachesCycle(E, U, |g|, v);
    }
  }

  // ---- the loops -----------------------------------------------------------------------------

  method CountInEdges<V, P>(g: Slots<V, P>, resolved: seq<int>, ghost visited: seq<nat>, v: nat, queue: seq<nat>)
    returns (resolved': seq<int>, queue': seq<nat>)
    requires Counting(g, resolved, visited, v, 0, queue)
    ensures Counting(g, resolved', visited, v, |g[v].inEdges|, queue')
  {
    resolved', queue' := resolved, queue;
    var k := 0;
    while k < |g[v].inEdges|
      invariant 0 <= k <= |g[v].inEdges| && Counting(g, resolved', visited, v, k, queue')
    {
      CountStep(g, resolved', visited, v, k, queue');
      var u := g[v].inEdges[k].source;
      var r := resolved'[u] + 1;
      resolved' := resolved'[u := r];
      if r == |g[u].outEdges| {
        queue' := queue' + [u];
      }
      k := k + 1;
    }
  }

  lemma {:induction false} NothingResolved<P>(s: seq<Edge<P>>)
    ensures Resolved(s, []) == 0
  {
    if s != [] {
      NothingResolved(s[1..]);
    }
  }

  method InitialQueue<V, P>(g: Slots<V, P>) returns (queue: seq<nat>)
    ensures Distinct(queue) && (forall i :: 0 <= i < |queue| ==> queue[i] < |g|)
    ensures forall u: nat :: u < |g| ==> (u in queue <==> |g[u].outEdges| == 0)
  {
    queue := [];
    for v := 0 to |g|
      invariant Distinct(queue) && (forall i :: 0 <= i < |queue| ==> queue[i] < v)
      invariant forall u: nat :: u < v ==> (u in queue <==> |g[u].outEdges| == 0)
    {
      if |g[v].outEdges| == 0 {
        queue := queue + [v];
      }
    }
  }

  /** Returns the vertices in the order the visitor is called on them. */
  method BottomUpTraversal<V, P>(graph: BaseGraph<V, P>) returns (visited: seq<nat>)
    requires graph.Valid()
    ensures SuccessorsFirst(Edges(Targets(graph.slots)), visited)
    ensures forall v: nat :: v in visited ==> v < |graph.slots|
    ensures forall v: nat :: v < |graph.slots| ==>
              (v in visited <==> !ReachesCycle(Edges(Targets(graph.slots)), v))
  {
    var g := graph.slots;
    var resolved := seq(|g| + 1, _ => 0);
    var queue := InitialQueue(g);
    visited := [];
    StartTraversing(g, resolved, queue);
    while queue != []
      invariant Traversing(g, resolved, visited, queue)
      decreases |g| - |visited|
    {
      var v := queue[0];
      assert queue == [v] + queue[1..];
      RoundStart(g, resolved, visited, v, queue[1..]);
      resolved, queue := CountInEdges(g, resolved, visited, v, queue[1..]);
      RoundEnd(g, resolved, visited, v, queue);
      visited := visited + [v];
      VisitedFits(g, resolved, visited, queue);
    }
    assert visited + [] == visited;
    forall v: nat | v < |g|
      ensures v in visited <==> !ReachesCycle(Edges(Targets(g)), v)
    {
      VisitedIsAcyclicPart(g, resolved, visited, v);
    }
  }

  lemma StartTraversing<V, P>(g: Slots<V, P>, resolved: seq<int>, queue: seq<nat>)
    requires Mirrored(g) && |resolved| >= |g| && (forall u :: 0 <= u < |resolved| ==> resolved[u] == 0)
    requires Distinct(queue) && (forall i :: 0 <= i < |queue| ==> queue[i] < |g|)
    requires forall u: nat :: u < |g| ==> (u in queue <==> |g[u].outEdges| == 0)
    ensures Traversing(g, resolved, [], queue)
  {
    assert [] + queue == queue;
    forall u: nat | u < |g|
      ensures resolved[u] == Resolved(g[u].outEdges, [])
    {
      NothingResolved(g[u].outEdges);
    }
  }

  lemma VisitedFits<V, P>(g: Slots<V, P>, resolved: seq<int>, visited: seq<nat>, queue: seq<nat>)
    requires Traversing(g, resolved, visited, queue)
    ensures |visited| <= |g|
  {
    DistinctFits(visited + queue, |g|);
  }
}
