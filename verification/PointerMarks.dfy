/** `markAsPointerToShared`: everything that a vertex or a part of it points to is shared. Unlike
    `markAsShared` it keeps no record of where it has been, so it follows part edges round a cycle for
    ever. */
module PointerMarks {
  import opened Walks
  import opened Graphs
  import opened BaseGraphs
  import opened BottomUp
  import opened Pdg
  import opened SharedMarks

  // ---- when the recursion ends -------------------------------------------------------------------

  /** The recursion that follows `E` from `v` is at most `n` calls deep. */
  ghost predicate Finishes(E: Rel, v: nat, n: nat)
    decreases n
  {
    n > 0 && forall w: nat :: (v, w) in E ==> Finishes(E, w, n - 1)
  }

  ghost predicate Ends(E: Rel, v: nat) {
    exists n: nat :: Finishes(E, v, n)
  }

  lemma {:induction false} LongRecursion(E: Rel, v: nat, n: nat) returns (p: seq<nat>)
    requires !Finishes(E, v, n)
    ensures IsWalk(E, p) && |p| == n + 1 && p[0] == v
    decreases n
  {
    if n == 0 {
      p := [v];
    } else {
      var w: nat :| (v, w) in E && !Finishes(E, w, n - 1);
      var q := LongRecursion(E, w, n - 1);
      p := [v] + q;
      forall i | 0 <= i < |p| - 1
        ensures (p[i], p[i + 1]) in E
      {
        assert i > 0 ==> (q[i - 1], q[i - 1 + 1]) in E;
      }
    }
  }

  lemma {:induction false} WalksEnd(E: Rel, v: nat, n: nat, p: seq<nat>)
    requires Finishes(E, v, n) && IsWalk(E, p) && p[0] == v
    ensures |p| <= n
    decreases n
  {
    if |p| > 1 {
      var q := p[1..];
      assert (p[0], p[0 + 1]) in E;
      forall i | 0 <= i < |q| - 1
        ensures (q[i], q[i + 1]) in E
      {
        assert (p[i + 1], p[i + 1 + 1]) in E;
      }
      WalksEnd(E, p[1], n - 1, q);
    }
  }

  ghost function Reaching(E: Rel, w: nat): iset<nat> {
    iset y: nat | Reach(E, y, w)
  }

  lemma CycleIsTrapped(E: Rel, w: nat, x: nat)
    requires (w, x) in E && Reach(E, x, w)
    ensures Trapped(E, Reaching(E, w))
  {
    var U := Reaching(E, w);
    forall y | y in U
      ensures HasSuccessor(E, U, y)
    {
      var q :| IsWalkFromTo(E, q, y, w);
      if |q| > 1 {
        WalkPartReaches(E, q, 1, |q| - 1);
        assert (q[0], q[0 + 1]) in E && q[1] in U;
      } else {
        assert x in U;
      }
    }
  }

  /** On a finite graph the recursion from `v` ends if and only if `v` reaches no cycle. */
  lemma FinishesIff(E: Rel, size: nat, v: nat)
    requires v < size && forall x: nat, y: nat :: (x, y) in E ==> y < size
    ensures Ends(E, v) <==> !ReachesCycle(E, v)
  {
    if !ReachesCycle(E, v) {
      DepthIsBounded(E, size, v);
    } else if n: nat :| Finishes(E, v, n) {
      NoCycleAhead(E, v, n);
    }
  }

  lemma NoCycleAhead(E: Rel, v: nat, n: nat)
    requires Finishes(E, v, n)
    ensures !ReachesCycle(E, v)
  {
    if ReachesCycle(E, v) {
      var w: nat, x: nat :| Reach(E, v, w) && (w, x) in E && Reach(E, x, w);
      CycleIsTrapped(E, w, x);
      var p := LongWalk(E, Reaching(E, w), v, n);
      WalksEnd(E, v, n, p);
    }
  }

  /** Without a cycle ahead, the number of vertices bounds the depth. */
  lemma DepthIsBounded(E: Rel, size: nat, v: nat)
    requires v < size && (forall x: nat, y: nat :: (x, y) in E ==> y < size) && !ReachesCycle(E, v)
    ensures Finishes(E, v, size)
  {
    if !Finishes(E, v, size) {
      var p := LongRecursion(E, v, size);
      forall i | 0 <= i < |p|
        ensures p[i] < size
      {
        assert i > 0 ==> (p[i - 1], p[i - 1 + 1]) in E;
      }
      LongWalkReachesCycle(E, p, size);
    }
  }

  lemma FinishesNext(E: Rel, v: nat, w: nat, n: nat)
    requires Finishes(E, v, n) && (v, w) in E
    ensures n > 0 && Finishes(E, w, n - 1)
  {
  }

  // ---- what it marks -----------------------------------------------------------------------------

  ghost function PartRel(g: PdgSlots): Rel {
    iset e: (nat, nat) | Flows(g, {Part}, e.0, e.1)
  }

  lemma PartsInRange(g: PdgSlots)
    requires Linked(g)
    ensures forall x: nat, y: nat :: (x, y) in PartRel(g) ==> y < |g|
  {
  }

  /** A vertex that is part of itself is one where the recursion does not end. */
  lemma OwnPartNeverEnds(g: PdgSlots, v: nat)
    requires Flows(g, {Part}, v, v)
    ensures !Ends(PartRel(g), v)
  {
    var E := PartRel(g);
    assert (v, v) in E;
    ReachSelf(E, v);
    if n: nat :| Finishes(E, v, n) {
      NoCycleAhead(E, v, n);
    }
  }

  /** What `v` or a part of it points to. */
  ghost predicate PointsTo(g: PdgSlots, v: nat, d: nat) {
    exists u :: Reach(PartRel(g), v, u) && Flows(g, {Deref}, u, d)
  }

  ghost function PointerTargets(g: PdgSlots, v: nat): iset<nat> {
    iset d: nat | PointsTo(g, v, d)
  }

  /** What the recursion reaches through one edge. */
  ghost predicate LeadsTo(g: PdgSlots, e: Edge<PdgEdge>, d: nat) {
    (e.property.kind == Deref && d == e.target) || (e.property.kind == Part && d in PointerTargets(g, e.target))
  }

  ghost predicate OneLeadsTo(g: PdgSlots, edges: seq<Edge<PdgEdge>>, d: nat) {
    exists k :: 0 <= k < |edges| && LeadsTo(g, edges[k], d)
  }

  ghost function Behind(g: PdgSlots, e: Edge<PdgEdge>): iset<nat> {
    iset d: nat | LeadsTo(g, e, d)
  }

  ghost function TargetsUpTo(g: PdgSlots, v: nat, n: nat): iset<nat>
    requires v < |g| && n <= |g[v].outEdges|
  {
    iset d: nat | OneLeadsTo(g, g[v].outEdges[..n], d)
  }

  lemma AllTargets(g: PdgSlots, v: nat)
    requires v < |g|
    ensures TargetsUpTo(g, v, |g[v].outEdges|) == PointerTargets(g, v)
  {
    var E, edges := PartRel(g), g[v].outEdges;
    forall d: nat | d in TargetsUpTo(g, v, |edges|)
      ensures d in PointerTargets(g, v)
    {
      assert edges[..|edges|] == edges;
      var k :| 0 <= k < |edges| && LeadsTo(g, edges[k], d);
      if edges[k].property.kind == Deref {
        ReachSelf(E, v);
        assert Flows(g, {Deref}, v, d);
      } else {
        var u :| Reach(E, edges[k].target, u) && Flows(g, {Deref}, u, d);
        assert Flows(g, {Part}, v, edges[k].target);
        ReachStep(E, v, edges[k].target);
        ReachTrans(E, v, edges[k].target, u);
      }
    }
    forall d: nat | d in PointerTargets(g, v)
      ensures d in TargetsUpTo(g, v, |edges|)
    {
      assert edges[..|edges|] == edges;
      var u :| Reach(E, v, u) && Flows(g, {Deref}, u, d);
      FirstStep(E, v, u);
      if u == v {
        var k :| 0 <= k < |edges| && edges[k].target == d && edges[k].property.kind in {Deref};
        assert LeadsTo(g, edges[k], d);
      } else {
        var w :| (v, w) in E && Reach(E, w, u);
        var k :| 0 <= k < |edges| && edges[k].target == w && edges[k].property.kind in {Part};
        assert LeadsTo(g, edges[k], d);
      }
    }
  }

  lemma TargetsNext(g: PdgSlots, v: nat, n: nat)
    requires v < |g| && n < |g[v].outEdges|
    ensures TargetsUpTo(g, v, n + 1) == TargetsUpTo(g, v, n) + Behind(g, g[v].outEdges[n])
  {
    var edges := g[v].outEdges;
    assert edges[..n + 1] == edges[..n] + [edges[n]];
    forall d: nat
      ensures OneLeadsTo(g, edges[..n + 1], d) <==> OneLeadsTo(g, edges[..n], d) || LeadsTo(g, edges[n], d)
    {
      if k :| 0 <= k < n && LeadsTo(g, edges[..n][k], d) {
        assert LeadsTo(g, edges[..n + 1][k], d);
      }
      if LeadsTo(g, edges[n], d) {
        assert LeadsTo(g, edges[..n + 1][n], d);
      }
    }
  }

  lemma SameTargets(g: PdgSlots, h: PdgSlots)
    requires OnlyMarksAdded(g, h)
    ensures PartRel(h) == PartRel(g) && SamePointers(g, h)
    ensures forall v: nat :: PointerTargets(h, v) == PointerTargets(g, v)
  {
    forall kinds: set<EdgeKind>, x: nat, y: nat
      ensures Flows(h, kinds, x, y) <==> Flows(g, kinds, x, y)
    {
      assert x < |g| ==> h[x].outEdges == g[x].outEdges;
    }
    assert PartRel(h) == PartRel(g);
  }

  lemma OnlyMarksTrans(g: PdgSlots, h: PdgSlots, k: PdgSlots)
    requires OnlyMarksAdded(g, h) && OnlyMarksAdded(h, k)
    ensures OnlyMarksAdded(g, k)
  {
  }

  lemma TargetsInRange(g: PdgSlots, e: Edge<PdgEdge>, d: nat)
    requires Linked(g) && LeadsTo(g, e, d) && e.target < |g|
    ensures d < |g|
  {
  }

  /** The first `n` out-edges of `v` have been followed. */
  ghost predicate Following(g: PdgSlots, v: nat, n: nat, h: PdgSlots) {
    v < |g| && n <= |g[v].outEdges| && OnlyMarksAdded(g, h) && MarksAre(g, TargetsUpTo(g, v, n), h)
  }

  lemma FollowNext(g: PdgSlots, v: nat, n: nat, h: PdgSlots, h': PdgSlots)
    requires Linked(g) && Following(g, v, n, h) && n < |g[v].outEdges| && OnlyMarksAdded(h, h')
    requires MarksAre(h, Behind(g, g[v].outEdges[n]), h')
    ensures Following(g, v, n + 1, h')
  {
    var next := Behind(g, g[v].outEdges[n]);
    forall d | d in next
      ensures d < |g|
    {
      TargetsInRange(g, g[v].outEdges[n], d);
    }
    OnlyMarksTrans(g, h, h');
    MarksCompose(g, TargetsUpTo(g, v, n), h, next, h');
    TargetsNext(g, v, n);
  }

  lemma OneStart(g: PdgSlots, x: nat, h: PdgSlots)
    requires MarksSpread(g, x, h)
    ensures MarksAre(g, iset{x}, h)
  {
    SameEdges(g, h);
    forall v: nat
      ensures MarkedFrom(g, iset{x}, v) <==> FreshFrom(g, x, v)
    {
      assert x in iset{x};
    }
  }

  lemma NoStart(g: PdgSlots)
    ensures MarksAre(g, iset{}, g)
  {
  }

  method MarkAsPointerToShared(graph: BaseGraph<PdgNode, PdgEdge>, v: nat, ghost depth: nat)
    requires graph.Valid() && v < |graph.slots| && Finishes(PartRel(graph.slots), v, depth)
    modifies graph
    ensures graph.Valid() && graph.View() == old(graph.View()).(slots := graph.slots)
    ensures OnlyMarksAdded(old(graph.slots), graph.slots)
    ensures MarksAre(old(graph.slots), PointerTargets(old(graph.slots), v), graph.slots)
    decreases depth, 1
  {
    ghost var g := graph.slots;
    var edges := graph.slots[v].outEdges;
    NoStart(g);
    assert TargetsUpTo(g, v, 0) == iset{};
    for i := 0 to |edges|
      invariant graph.Valid() && graph.View() == old(graph.View()).(slots := graph.slots)
      invariant Following(g, v, i, graph.slots)
    {
      FollowPointer(graph, g, v, edges, i, depth);
    }
    AllTargets(g, v);
  }

  method FollowPointer(graph: BaseGraph<PdgNode, PdgEdge>, ghost g: PdgSlots, ghost v: nat, edges: seq<Edge<PdgEdge>>,
                       i: nat, ghost depth: nat)
    requires graph.Valid() && Linked(g) && Following(g, v, i, graph.slots) && Finishes(PartRel(g), v, depth)
    requires edges == g[v].outEdges && i < |edges|
    modifies graph
    ensures graph.Valid() && graph.View() == old(graph.View()).(slots := graph.slots)
    ensures Following(g, v, i + 1, graph.slots)
    decreases depth, 0
  {
    ghost var h := graph.slots;
    ghost var next := Behind(g, edges[i]);
    var t := edges[i].target;
    SameTargets(g, h);
    if edges[i].property.kind == Deref {
      MarkAsShared(graph, t);
      OneStart(h, t, graph.slots);
      assert next == iset{t};
    } else if edges[i].property.kind == Part {
      assert Flows(g, {Part}, v, t);
      FinishesNext(PartRel(g), v, t, depth);
      MarkAsPointerToShared(graph, t, depth - 1);
      assert next == PointerTargets(g, t);
    } else {
      NoStart(h);
      assert next == iset{};
    }
    FollowNext(g, v, i, h, graph.slots);
  }

  // ---- what it marks, edge by edge ---------------------------------------------------------------

  /** An edge of the kind leads from `u` to `w`. */
  ghost predicate EdgeOfKind(g: PdgSlots, kind: EdgeKind, u: nat, w: nat) {
    && u < |g| && w < |g|
    && exists i :: 0 <= i < |g[u].outEdges| && g[u].outEdges[i].target == w && g[u].outEdges[i].property.kind == kind
  }

  /** The set holds `v`, and with a vertex its parts. */
  ghost predicate HoldsParts(g: PdgSlots, v: nat, S: iset<nat>) {
    v in S && forall u: nat, w: nat :: u in S && EdgeOfKind(g, Part, u, w) ==> w in S
  }

  /** `u` is `v`, a part of it, a part of a part, and so on. */
  ghost predicate IsPartOf(g: PdgSlots, v: nat, u: nat) {
    forall S: iset<nat> :: HoldsParts(g, v, S) ==> u in S
  }

  lemma PartsAre(g: PdgSlots, v: nat, u: nat)
    requires Linked(g)
    ensures IsPartOf(g, v, u) <==> Reach(PartRel(g), v, u)
  {
    var E := PartRel(g);
    ReachIffForced(E, v, u);
    assert forall x: nat, y: nat :: (x, y) in E <==> EdgeOfKind(g, Part, x, y);
    forall S: iset<nat>
      ensures HoldsParts(g, v, S) <==> v in S && ClosedUnder(E, S)
    {
    }
  }

  lemma TargetsAreEdges(g: PdgSlots, v: nat, d: nat)
    requires Linked(g)
    ensures d in PointerTargets(g, v) <==> exists u :: IsPartOf(g, v, u) && EdgeOfKind(g, Deref, u, d)
  {
    forall u: nat
      ensures IsPartOf(g, v, u) <==> Reach(PartRel(g), v, u)
      ensures Flows(g, {Deref}, u, d) <==> EdgeOfKind(g, Deref, u, d)
    {
      PartsAre(g, v, u);
    }
  }

  /** Everything that `v` or a part of it points to is marked; and a newly marked vertex is such a target,
      or a newly marked one points to it or holds it. */
  lemma PointerMarksFollowEdges(g: PdgSlots, v: nat, h: PdgSlots)
    requires Linked(g) && OnlyMarksAdded(g, h) && MarksAre(g, PointerTargets(g, v), h)
    ensures forall u: nat, d: nat :: IsPartOf(g, v, u) && EdgeOfKind(g, Deref, u, d) ==> h[d].property.ipcsink
    ensures forall x: nat :: NewlyMarked(g, h, x) ==>
              || (exists u :: IsPartOf(g, v, u) && EdgeOfKind(g, Deref, u, x))
              || (exists u :: NewlyMarked(g, h, u) && PointsToOrHolds(g, u, x))
  {
    SharingIsEdges(g);
    forall u: nat, d: nat | IsPartOf(g, v, u) && EdgeOfKind(g, Deref, u, d)
      ensures h[d].property.ipcsink
    {
      TargetsAreEdges(g, v, d);
      TargetIsMarked(g, PointerTargets(g, v), h, d);
    }
    forall x: nat | NewlyMarked(g, h, x)
      ensures || (exists u :: IsPartOf(g, v, u) && EdgeOfKind(g, Deref, u, x))
              || (exists u :: NewlyMarked(g, h, u) && PointsToOrHolds(g, u, x))
    {
      TargetsAreEdges(g, v, x);
      NewMarkHasReason(g, PointerTargets(g, v), h, x);
    }
  }

  lemma TargetIsMarked(g: PdgSlots, starts: iset<nat>, h: PdgSlots, d: nat)
    requires MarksAre(g, starts, h) && d in starts && d < |g|
    ensures Sink(h, d)
  {
    if !Sink(g, d) {
      ReachSelf(FreshRel(g), d);
      assert MarkedFrom(g, starts, d);
    }
  }

  lemma NewMarkHasReason(g: PdgSlots, starts: iset<nat>, h: PdgSlots, x: nat)
    requires Linked(g) && MarksAre(g, starts, h) && NewlyMarked(g, h, x)
    ensures x in starts || exists u :: NewlyMarked(g, h, u) && PointsToOrHolds(g, u, x)
  {
    SharingIsEdges(g);
    assert Sink(h, x) && !Sink(g, x);
    var s :| s in starts && FreshFrom(g, s, x);
    LastStep(FreshRel(g), s, x);
    if x != s {
      var u: nat :| Reach(FreshRel(g), s, u) && (u, x) in FreshRel(g);
      assert FreshFrom(g, s, u) && MarkedFrom(g, starts, u);
      assert Sink(h, u) && NewlyMarked(g, h, u) && PointsToOrHolds(g, u, x);
    }
  }

  // ---- the call ----------------------------------------------------------------------------------

  /** The call from outside: it returns if the vertex reaches no cycle of part edges, and only then. */
  method ShareWhatIsPointedTo(graph: BaseGraph<PdgNode, PdgEdge>, v: nat)
    requires graph.Valid() && v < |graph.slots| && !ReachesCycle(PartRel(graph.slots), v)
    modifies graph
    ensures graph.Valid() && graph.View() == old(graph.View()).(slots := graph.slots)
    ensures OnlyMarksAdded(old(graph.slots), graph.slots)
    ensures MarksAre(old(graph.slots), PointerTargets(old(graph.slots), v), graph.slots)
  {
    PartsInRange(graph.slots);
    DepthIsBounded(PartRel(graph.slots), |graph.slots|, v);
    MarkAsPointerToShared(graph, v, |graph.slots|);
  }
}
