/** `strong_components_graph`: one vertex per component, holding the component's members, and one
    edge for every two components that some edge of the input graph joins. */
module Condensation {
  import opened Walks
  import opened Graphs
  import opened GraphOps
  import opened BaseGraphs
  import opened Tarjan
  import opened StrongComponents

  type SccSlots = Slots<seq<nat>, ()>

  /** The first `n` vertices with number `k`, in increasing order. */
  function Members(comp: seq<int>, n: nat, k: int): seq<nat>
    requires n <= |comp|
  {
    if n == 0 then []
    else if comp[n - 1] == k then Members(comp, n - 1, k) + [n - 1]
    else Members(comp, n - 1, k)
  }

  ghost predicate HasEdge(out: SccSlots, a: nat, b: nat) {
    a < |out| && Edge(a, b, ()) in out[a].outEdges
  }

  /** Some edge examined before edge `j` of vertex `i` runs from component `a` to component `b`. */
  ghost predicate Crosses(adj: Adjacency, comp: seq<int>, i: nat, j: nat, a: nat, b: nat)
    requires |comp| >= |adj|
  {
    && a != b
    && exists u: nat, e: nat {:trigger adj[u][e]} ::
         && u < |adj| && e < |adj[u]| && adj[u][e] < |adj|
         && (u < i || (u == i && e < j)) && comp[u] == a && comp[adj[u][e]] == b
  }

  /** The output graph after the first `i` vertices and the first `j` edges of vertex `i`;
      `listed` vertices have been entered into the lists. */
  ghost predicate Condensed(adj: Adjacency, comp: seq<int>, total: nat, st: GraphState<seq<nat>, ()>, listed: nat,
                            i: nat, j: nat) {
    && |comp| >= |adj| && listed <= |comp|
    && GraphOk(st) && |st.slots| == total && st.free == []
    && (forall k: nat :: k < total ==> st.slots[k].property == Members(comp, listed, k))
    && (forall a: nat, b: nat :: HasEdge(st.slots, a, b) <==> a < total && b < total && Crosses(adj, comp, i, j, a, b))
    && (forall a, x, y :: 0 <= a < total && 0 <= x < y < |st.slots[a].outEdges| ==>
          st.slots[a].outEdges[x] != st.slots[a].outEdges[y])
  }

  lemma AddEdgeMembers<V, P>(st: GraphState<V, P>, e: Edge<P>, f: Edge<P>)
    requires InRange(st.slots, e) && f.source < |st.slots|
    ensures f in AfterAddEdge(st, e).slots[f.source].outEdges <==> f == e || f in st.slots[f.source].outEdges
    ensures |AfterAddEdge(st, e).slots| == |st.slots|
  {
  }

  lemma AddEdgeDistinct<V, P>(st: GraphState<V, P>, e: Edge<P>, a: nat)
    requires InRange(st.slots, e) && a < |st.slots|
    requires forall x, y :: 0 <= x < y < |st.slots[a].outEdges| ==> st.slots[a].outEdges[x] != st.slots[a].outEdges[y]
    ensures var s := AfterAddEdge(st, e).slots[a].outEdges; forall x, y :: 0 <= x < y < |s| ==> s[x] != s[y]
    ensures AfterAddEdge(st, e).slots[a].property == st.slots[a].property
  {
  }

  /** Examining one more edge of vertex `i`. */
  lemma CrossesNext(adj: Adjacency, comp: seq<int>, i: nat, j: nat, a: nat, b: nat)
    requires |comp| >= |adj| && i < |adj| && j < |adj[i]| && adj[i][j] < |adj|
    ensures Crosses(adj, comp, i, j + 1, a, b) <==>
            Crosses(adj, comp, i, j, a, b) || (a != b && comp[i] == a && comp[adj[i][j]] == b)
  {
  }

  lemma CondenseEdge(adj: Adjacency, comp: seq<int>, total: nat, st: GraphState<seq<nat>, ()>, i: nat, j: nat)
    requires Condensed(adj, comp, total, st, i + 1, i, j)
    requires i < |adj| && j < |adj[i]| && adj[i][j] < |adj| && 0 <= comp[i] < total && 0 <= comp[adj[i][j]] < total
    ensures comp[i] == comp[adj[i][j]] ==> Condensed(adj, comp, total, st, i + 1, i, j + 1)
    ensures comp[i] != comp[adj[i][j]] ==>
              Condensed(adj, comp, total, AfterAddEdge(st, Edge(comp[i], comp[adj[i][j]], ())), i + 1, i, j + 1)
  {
    var a0: nat, b0: nat := comp[i], comp[adj[i][j]];
    forall a: nat, b: nat
      ensures Crosses(adj, comp, i, j + 1, a, b) <==> Crosses(adj, comp, i, j, a, b) || (a != b && a == a0 && b == b0)
    {
      CrossesNext(adj, comp, i, j, a, b);
    }
    if a0 != b0 {
      CondenseNewEdge(adj, comp, total, st, i, j);
    }
  }

  lemma CondenseNewEdge(adj: Adjacency, comp: seq<int>, total: nat, st: GraphState<seq<nat>, ()>, i: nat, j: nat)
    requires Condensed(adj, comp, total, st, i + 1, i, j)
    requires i < |adj| && j < |adj[i]| && adj[i][j] < |adj| && 0 <= comp[i] < total && 0 <= comp[adj[i][j]] < total
    requires comp[i] != comp[adj[i][j]]
    ensures Condensed(adj, comp, total, AfterAddEdge(st, Edge(comp[i], comp[adj[i][j]], ())), i + 1, i, j + 1)
  {
    var e := Edge(comp[i], comp[adj[i][j]], ());
    var t := AfterAddEdge(st, e);
    AddEdgeUniqueKeeps(st, e);
    forall a: nat, b: nat
      ensures HasEdge(t.slots, a, b) <==> a < total && b < total && Crosses(adj, comp, i, j + 1, a, b)
    {
      CrossesNext(adj, comp, i, j, a, b);
      if a < total {
        AddEdgeMembers(st, e, Edge(a, b, ()));
        assert HasEdge(st.slots, a, b) <==> b < total && Crosses(adj, comp, i, j, a, b);
      }
    }
    forall a: nat | a < total
      ensures t.slots[a].property == st.slots[a].property
      ensures forall x, y :: 0 <= x < y < |t.slots[a].outEdges| ==> t.slots[a].outEdges[x] != t.slots[a].outEdges[y]
    {
      AddEdgeDistinct(st, e, a);
    }
  }

  lemma CondenseList(adj: Adjacency, comp: seq<int>, total: nat, st: GraphState<seq<nat>, ()>, i: nat)
    requires Condensed(adj, comp, total, st, i, i, 0) && i < |adj| && 0 <= comp[i] < total
    ensures Condensed(adj, comp, total, AfterSetProperty(st, comp[i], st.slots[comp[i]].property + [i]), i + 1, i, 0)
  {
    var k: nat := comp[i];
    var t := AfterSetProperty(st, k, st.slots[k].property + [i]);
    SetPropertyKeeps(st, k, st.slots[k].property + [i]);
    forall a: nat, b: nat
      ensures HasEdge(t.slots, a, b) <==> HasEdge(st.slots, a, b)
    {
    }
  }

  lemma CondenseVertex(adj: Adjacency, comp: seq<int>, total: nat, st: GraphState<seq<nat>, ()>, i: nat)
    requires i < |adj| && Condensed(adj, comp, total, st, i + 1, i, |adj[i]|)
    ensures Condensed(adj, comp, total, st, i + 1, i + 1, 0)
  {
  }

  method AddComponents(outGraph: BaseGraph<seq<nat>, ()>, total: nat)
    requires outGraph.View() == GraphState([], 0, 0, [])
    modifies outGraph
    ensures outGraph.Valid() && |outGraph.slots| == total && outGraph.free == []
    ensures forall k :: 0 <= k < total ==> outGraph.slots[k] == Slot([], [], [], false)
  {
    for i := 0 to total
      invariant outGraph.Valid() && |outGraph.slots| == i && outGraph.free == []
      invariant forall k :: 0 <= k < i ==> outGraph.slots[k] == Slot([], [], [], false)
    {
      var _ := outGraph.AddVertex([]);
    }
  }

  /** The loop body for vertex `i`: list it in its component and add its crossing edges. */
  method CondenseOne<V, P>(inGraph: BaseGraph<V, P>, outGraph: BaseGraph<seq<nat>, ()>, ghost adj: Adjacency,
                           comp: seq<int>, ghost total: nat, i: nat)
    requires inGraph as object != outGraph && adj == Targets(inGraph.slots) && WellFormed(adj)
    requires i < |adj| && Condensed(adj, comp, total, outGraph.View(), i, i, 0)
    requires forall v :: 0 <= v < |adj| ==> 0 <= comp[v] < total
    modifies outGraph
    ensures Condensed(adj, comp, total, outGraph.View(), i + 1, i + 1, 0)
  {
    var v2: nat := comp[i];
    CondenseList(adj, comp, total, outGraph.View(), i);
    outGraph.SetProperty(v2, outGraph.slots[v2].property + [i]);
    CondenseEdges(inGraph, outGraph, adj, comp, total, i, v2);
    CondenseVertex(adj, comp, total, outGraph.View(), i);
  }

  method CondenseEdges<V, P>(inGraph: BaseGraph<V, P>, outGraph: BaseGraph<seq<nat>, ()>, ghost adj: Adjacency,
                             comp: seq<int>, ghost total: nat, i: nat, v2: nat)
    requires inGraph as object != outGraph && adj == Targets(inGraph.slots) && WellFormed(adj)
    requires i < |adj| && Condensed(adj, comp, total, outGraph.View(), i + 1, i, 0)
    requires (forall v :: 0 <= v < |adj| ==> 0 <= comp[v] < total) && v2 == comp[i]
    modifies outGraph
    ensures Condensed(adj, comp, total, outGraph.View(), i + 1, i, |adj[i]|)
  {
    var j := 0;
    while j < |inGraph.slots[i].outEdges|
      invariant 0 <= j <= |adj[i]| && Condensed(adj, comp, total, outGraph.View(), i + 1, i, j)
    {
      var t: nat := comp[inGraph.slots[i].outEdges[j].target];
      CondenseEdge(adj, comp, total, outGraph.View(), i, j);
      if v2 != t {
        AllLive(outGraph.View(), v2);
        AllLive(outGraph.View(), t);
        outGraph.AddEdge(Edge(v2, t, ()));
      }
      j := j + 1;
    }
  }

  lemma AllLive<V, P>(st: GraphState<V, P>, v: nat)
    requires FreeOk(st) && st.free == [] && v < |st.slots|
    ensures Live(st.slots, v)
  {
  }

  /** What the condensation says about the input graph. */
  ghost predicate IsCondensation(adj: Adjacency, comp: seq<int>, total: nat, out: SccSlots) {
    && |comp| >= |adj| && |out| == total
    && (forall k: nat :: k < total ==> out[k].property == Members(comp, |adj|, k))
    && (forall a: nat, b: nat :: HasEdge(out, a, b) <==> a < total && b < total && Joined(adj, comp, a, b))
    && (forall a: nat, b: nat :: HasEdge(out, a, b) ==> b < a)
    && (forall a, x, y :: 0 <= a < total && 0 <= x < y < |out[a].outEdges| ==> out[a].outEdges[x] != out[a].outEdges[y])
  }

  /** Some edge of the input graph runs from component `a` to the other component `b`. */
  ghost predicate Joined(adj: Adjacency, comp: seq<int>, a: nat, b: nat)
    requires |comp| >= |adj|
  {
    a != b && exists u: nat, v: nat :: (u, v) in Edges(adj) && u < |adj| && v < |adj| && comp[u] == a && comp[v] == b
  }

  lemma JoinedIsCrossed(adj: Adjacency, comp: seq<int>, a: nat, b: nat)
    requires WellFormed(adj) && |comp| >= |adj|
    ensures Joined(adj, comp, a, b) <==> Crosses(adj, comp, |adj|, 0, a, b)
  {
  }

  lemma CondensedIsCondensation(adj: Adjacency, comp: seq<int>, total: nat, st: GraphState<seq<nat>, ()>)
    requires WellFormed(adj) && SccNumbering(adj, comp, total)
    requires Condensed(adj, comp, total, st, |adj|, |adj|, 0)
    ensures IsCondensation(adj, comp, total, st.slots)
  {
    forall a: nat, b: nat
      ensures HasEdge(st.slots, a, b) <==> a < total && b < total && Joined(adj, comp, a, b)
      ensures HasEdge(st.slots, a, b) ==> b < a
    {
      JoinedIsCrossed(adj, comp, a, b);
      if HasEdge(st.slots, a, b) {
        var u: nat, v: nat :| (u, v) in Edges(adj) && u < |adj| && v < |adj| && comp[u] == a && comp[v] == b;
        ReachStep(Edges(adj), u, v);
      }
    }
  }

  method CondenseAll<V, P>(inGraph: BaseGraph<V, P>, outGraph: BaseGraph<seq<nat>, ()>, ghost adj: Adjacency,
                           comp: seq<int>, ghost total: nat)
    requires inGraph as object != outGraph && adj == Targets(inGraph.slots) && WellFormed(adj)
    requires Condensed(adj, comp, total, outGraph.View(), 0, 0, 0)
    requires forall v :: 0 <= v < |adj| ==> 0 <= comp[v] < total
    modifies outGraph
    ensures Condensed(adj, comp, total, outGraph.View(), |adj|, |adj|, 0)
  {
    var i := 0;
    while i < |inGraph.slots|
      invariant 0 <= i <= |adj| && Condensed(adj, comp, total, outGraph.View(), i, i, 0)
    {
      CondenseOne(inGraph, outGraph, adj, comp, total, i);
      i := i + 1;
    }
  }

  method StrongComponentsGraph<V, P>(inGraph: BaseGraph<V, P>, outGraph: BaseGraph<seq<nat>, ()>)
    returns (size: nat, ghost comp: seq<int>)
    requires inGraph as object != outGraph
    requires inGraph.Valid() && |inGraph.slots| <= UNASSIGNED && outGraph.View() == GraphState([], 0, 0, [])
    modifies outGraph
    ensures outGraph.Valid() && outGraph.free == []
    ensures SccNumbering(Targets(inGraph.slots), comp, size)
    ensures IsCondensation(Targets(inGraph.slots), comp, size, outGraph.slots)
  {
    ghost var adj := Targets(inGraph.slots);
    TargetsWellFormed(inGraph.slots);
    var total, components, _, _ := ComputeComponents(inGraph);
    size, comp := total, components;
    AddComponents(outGraph, size);
    CondenseAll(inGraph, outGraph, adj, components, size);
    CondensedIsCondensation(adj, comp, size, outGraph.View());
  }
}
