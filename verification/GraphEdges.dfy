/** What the operations of the graph class do to every single edge and vertex, by multiplicities: what
    changes is what the operation was asked for, and nothing else. */
module GraphEdges {
  import opened Graphs
  import opened GraphOps

  /** How often an edge occurs in a list. */
  function Times<P(==)>(s: seq<Edge<P>>, f: Edge<P>): nat {
    multiset(s)[f]
  }

  predicate SameVertex<V(==), P>(a: Slot<V, P>, b: Slot<V, P>) {
    b.property == a.property && b.empty == a.empty
  }

  /** In the list `t`, compared to `s`, `e` occurs `n` times and every other edge as often as before. */
  predicate Occurs<P(==)>(s: seq<Edge<P>>, t: seq<Edge<P>>, e: Edge<P>, n: nat) {
    multiset(t) == multiset(s)[e := n]
  }

  predicate OccursAt<V(==), P(==)>(g: Slots<V, P>, h: Slots<V, P>, e: Edge<P>, n: nat, x: nat)
    requires x < |g| && x < |h|
  {
    && SameVertex(g[x], h[x])
    && Occurs(g[x].outEdges, h[x].outEdges, e, if x == e.source then n else Times(g[x].outEdges, e))
    && Occurs(g[x].inEdges, h[x].inEdges, e, if x == e.target then n else Times(g[x].inEdges, e))
  }

  /** `e` occurs `n` times in the out-list of its source and in the in-list of its target; every other
      edge occurs as often as before in every list, and all vertices are as before. */
  ghost predicate OccursNow<V, P>(g: Slots<V, P>, h: Slots<V, P>, e: Edge<P>, n: nat) {
    |h| == |g| && forall x: nat :: x < |g| ==> OccursAt(g, h, e, n, x)
  }

  lemma OccursSame<P>(s: seq<Edge<P>>, e: Edge<P>)
    ensures Occurs(s, s, e, Times(s, e))
  {
  }

  lemma OccursPushed<P>(s: seq<Edge<P>>, e: Edge<P>)
    ensures Occurs(s, s + [e], e, Times(s, e) + 1)
  {
  }

  lemma OccursErased<P>(s: seq<Edge<P>>, e: Edge<P>)
    requires e in s
    ensures Occurs(s, RemoveFirst(s, e), e, Times(s, e) - 1)
  {
    RemoveFirstOnce(s, e);
  }

  lemma {:induction false} RemoveFirstOnce<P>(s: seq<Edge<P>>, e: Edge<P>)
    ensures multiset(RemoveFirst(s, e)) == multiset(s) - multiset{e}
  {
    if s != [] {
      assert s == [s[0]] + s[1..];
      if s[0] != e {
        RemoveFirstOnce(s[1..], e);
      }
    }
  }

  lemma {:induction false} TimesAvoiding<P>(s: seq<Edge<P>>, v: nat, f: Edge<P>)
    ensures Times(Avoiding(s, v), f) == if f.source == v || f.target == v then 0 else Times(s, f)
  {
    if s != [] {
      assert s == [s[0]] + s[1..];
      TimesAvoiding(s[1..], v, f);
    }
  }

  /** An edge occurs as often in the one list as in the other. */
  lemma {:induction false} TimesBetween<P>(s: seq<Edge<P>>, e: Edge<P>)
    ensures Times(Between(s, e.source, e.target), e) == Times(s, e)
  {
    if s != [] {
      assert s == [s[0]] + s[1..];
      TimesBetween(s[1..], e);
    }
  }

  lemma BothListsCount<V, P>(g: Slots<V, P>, e: Edge<P>)
    requires Mirrored(g) && InRange(g, e)
    ensures Times(g[e.source].outEdges, e) == Times(g[e.target].inEdges, e)
  {
    TimesBetween(g[e.source].outEdges, e);
    TimesBetween(g[e.target].inEdges, e);
  }

  /** `add_edge_unique` adds one edge. */
  lemma AddEdgeUniqueIs<V, P>(st: GraphState<V, P>, e: Edge<P>)
    requires GraphOk(st) && InRange(st.slots, e)
    ensures var t := AfterAddEdgeUnique(st, e);
            && OccursNow(st.slots, t.slots, e, Times(st.slots[e.source].outEdges, e) + 1)
            && t.edgeSize == st.edgeSize + 1 && t.size == st.size && t.free == st.free
  {
    var g, h := st.slots, AfterAddEdgeUnique(st, e).slots;
    var n := Times(g[e.source].outEdges, e) + 1;
    BothListsCount(g, e);
    forall x: nat | x < |g|
      ensures OccursAt(g, h, e, n, x)
    {
      PushedAt(g, e, x);
      OccursSame(g[x].outEdges, e);
      OccursSame(g[x].inEdges, e);
      OccursPushed(g[x].outEdges, e);
      OccursPushed(g[x].inEdges, e);
    }
  }

  /** `add_edge` adds the edge exactly if there is none like it. */
  lemma AddEdgeIs<V, P>(st: GraphState<V, P>, e: Edge<P>)
    requires GraphOk(st) && InRange(st.slots, e)
    ensures var t, n := AfterAddEdge(st, e), Times(st.slots[e.source].outEdges, e);
            && OccursNow(st.slots, t.slots, e, if n == 0 then 1 else n)
            && t.edgeSize == st.edgeSize + (if n == 0 then 1 else 0) && t.size == st.size && t.free == st.free
  {
    BothListsCount(st.slots, e);
    AddEdgeUniqueIs(st, e);
    Unchanged(st.slots, e);
  }

  lemma Unchanged<V, P>(g: Slots<V, P>, e: Edge<P>)
    requires Mirrored(g) && InRange(g, e)
    ensures OccursNow(g, g, e, Times(g[e.source].outEdges, e))
  {
    BothListsCount(g, e);
    forall x: nat | x < |g|
      ensures OccursAt(g, g, e, Times(g[e.source].outEdges, e), x)
    {
      OccursSame(g[x].outEdges, e);
      OccursSame(g[x].inEdges, e);
    }
  }

  /** `remove_edge` removes one such edge, if there is one. */
  lemma RemoveEdgeIs<V, P>(st: GraphState<V, P>, e: Edge<P>)
    requires GraphOk(st) && InRange(st.slots, e)
    ensures var t, n := AfterRemoveEdge(st, e), Times(st.slots[e.source].outEdges, e);
            && OccursNow(st.slots, t.slots, e, if n == 0 then 0 else n - 1)
            && t.edgeSize == st.edgeSize - (if n == 0 then 0 else 1) && t.size == st.size && t.free == st.free
  {
    var g, h := st.slots, AfterRemoveEdge(st, e).slots;
    BothListsCount(g, e);
    Unchanged(g, e);
    if e in g[e.source].outEdges {
      OccursErased(g[e.source].outEdges, e);
      OccursErased(g[e.target].inEdges, e);
      var n := Times(g[e.source].outEdges, e) - 1;
      forall x: nat | x < |g|
        ensures OccursAt(g, h, e, n, x)
      {
        OccursSame(g[x].outEdges, e);
        OccursSame(g[x].inEdges, e);
      }
    }
  }

  lemma OccursTrans<V, P>(g: Slots<V, P>, h: Slots<V, P>, k: Slots<V, P>, e: Edge<P>, n: nat, m: nat)
    requires OccursNow(g, h, e, n) && OccursNow(h, k, e, m)
    ensures OccursNow(g, k, e, m)
  {
    forall x: nat | x < |g|
      ensures OccursAt(g, k, e, m, x)
    {
      assert OccursAt(g, h, e, n, x) && OccursAt(h, k, e, m, x);
    }
  }

  lemma OccursCount<V, P>(g: Slots<V, P>, h: Slots<V, P>, e: Edge<P>, n: nat)
    requires OccursNow(g, h, e, n) && InRange(g, e)
    ensures Times(h[e.source].outEdges, e) == n
  {
    assert OccursAt(g, h, e, n, e.source);
  }

  /** Removing an edge undoes adding it, up to the order of the lists. */
  lemma RemoveUndoesAdd<V, P>(st: GraphState<V, P>, e: Edge<P>)
    requires GraphOk(st) && Live(st.slots, e.source) && Live(st.slots, e.target)
    ensures var u := AfterRemoveEdge(AfterAddEdgeUnique(st, e), e);
            && OccursNow(st.slots, u.slots, e, Times(st.slots[e.source].outEdges, e))
            && u.edgeSize == st.edgeSize && u.size == st.size && u.free == st.free
  {
    var t, n := AfterAddEdgeUnique(st, e), Times(st.slots[e.source].outEdges, e);
    AddEdgeUniqueKeeps(st, e);
    AddEdgeUniqueIs(st, e);
    OccursCount(st.slots, t.slots, e, n + 1);
    RemoveAfterAdd(st, t, e, n);
  }

  lemma RemoveAfterAdd<V, P>(st: GraphState<V, P>, t: GraphState<V, P>, e: Edge<P>, n: nat)
    requires GraphOk(t) && InRange(st.slots, e) && OccursNow(st.slots, t.slots, e, n + 1)
    requires Times(t.slots[e.source].outEdges, e) == n + 1
    ensures var u := AfterRemoveEdge(t, e);
            && OccursNow(st.slots, u.slots, e, n)
            && u.edgeSize == t.edgeSize - 1 && u.size == t.size && u.free == t.free
  {
    RemoveEdgeIs(t, e);
    OccursTrans(st.slots, t.slots, AfterRemoveEdge(t, e).slots, e, n + 1, n);
  }

  /** `add_vertex`: the vertex handed out is the last removed one, or a new one if none is left; it
      carries the property, is live and has no edges. No other vertex changes. */
  lemma AddVertexIs<V, P>(st: GraphState<V, P>, prop: V)
    requires GraphOk(st)
    ensures var t, v, n := AfterAddVertex(st, prop), NextVertex(st), |st.free|;
            && v == (if n == 0 then |st.slots| else st.free[n - 1])
            && |t.slots| == (if n == 0 then |st.slots| + 1 else |st.slots|)
            && v < |t.slots| && t.slots[v] == Slot([], [], prop, false)
            && (forall x: nat :: x < |st.slots| && x != v ==> t.slots[x] == st.slots[x])
            && t.free == (if n == 0 then [] else st.free[..n - 1])
            && t.size == st.size + 1 && t.edgeSize == st.edgeSize
  {
    var v := NextVertex(st);
    if st.free != [] {
      assert st.slots[v].empty;
    }
  }

  /** `remove_vertex`: the vertex has no edges any more and is empty; the edges that touch it are gone from
      all lists, all others occur as often as before, and all properties stay. */
  lemma RemoveVertexIs<V, P>(st: GraphState<V, P>, v: nat)
    requires GraphOk(st) && Live(st.slots, v)
    ensures var g, t := st.slots, AfterRemoveVertex(st, v);
            && |t.slots| == |g| && t.slots[v] == Slot([], [], g[v].property, true)
            && (forall x: nat :: x < |g| && x != v ==> SameVertex(g[x], t.slots[x]))
            && (forall x: nat, f: Edge<P> :: x < |g| ==>
                  && Times(t.slots[x].outEdges, f) ==
                     (if f.source == v || f.target == v then 0 else Times(g[x].outEdges, f))
                  && Times(t.slots[x].inEdges, f) ==
                     (if f.source == v || f.target == v then 0 else Times(g[x].inEdges, f)))
            && t.free == st.free + [v] && t.size == st.size - 1
  {
    IsolatedMirrored(st.slots, v);
    forall x: nat, f: Edge<P> | x < |st.slots|
      ensures var t := AfterRemoveVertex(st, v);
              && Times(t.slots[x].outEdges, f) ==
                 (if f.source == v || f.target == v then 0 else Times(st.slots[x].outEdges, f))
              && Times(t.slots[x].inEdges, f) ==
                 (if f.source == v || f.target == v then 0 else Times(st.slots[x].inEdges, f))
    {
      TimesAvoiding(st.slots[x].outEdges, v, f);
      TimesAvoiding(st.slots[x].inEdges, v, f);
    }
  }

  /** A vertex that is removed is the next one handed out. */
  lemma RemovedIsReused<V, P>(st: GraphState<V, P>, v: nat, prop: V)
    requires GraphOk(st) && Live(st.slots, v)
    ensures var t := AfterRemoveVertex(st, v);
            NextVertex(t) == v && AfterAddVertex(t, prop).slots[v] == Slot([], [], prop, false)
  {
    RemoveVertexKeeps(st, v);
    AddVertexIs(AfterRemoveVertex(st, v), prop);
  }

  /** Writing a property changes that property only. */
  lemma SetPropertyIs<V, P>(st: GraphState<V, P>, v: nat, prop: V)
    requires v < |st.slots|
    ensures var t := AfterSetProperty(st, v, prop);
            && |t.slots| == |st.slots| && t.size == st.size && t.edgeSize == st.edgeSize && t.free == st.free
            && t.slots[v].property == prop && t.slots[v].empty == st.slots[v].empty
            && t.slots[v].outEdges == st.slots[v].outEdges && t.slots[v].inEdges == st.slots[v].inEdges
            && forall x: nat :: x < |st.slots| && x != v ==> t.slots[x] == st.slots[x]
  {
  }
}
