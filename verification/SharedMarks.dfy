/** `markAsShared`: everything that a shared vertex points to or contains is shared as well. */
module SharedMarks {
  import opened Walks
  import opened Graphs
  import opened BaseGraphs
  import opened Pdg

  const SHARING: set<EdgeKind> := {Deref, Part}

  predicate Sink(g: PdgSlots, v: nat) {
    v < |g| && g[v].property.ipcsink
  }

  ghost function SharingRel(g: PdgSlots): Rel {
    iset e: (nat, nat) | Flows(g, SHARING, e.0, e.1)
  }

  /** The edges between vertices that are not marked yet. */
  ghost function FreshRel(g: PdgSlots): Rel {
    iset e: (nat, nat) | Flows(g, SHARING, e.0, e.1) && !Sink(g, e.0) && !Sink(g, e.1)
  }

  /** Nothing but marks was added. */
  ghost predicate OnlyMarksAdded(g: PdgSlots, h: PdgSlots) {
    && |h| == |g|
    && (forall x: nat :: x < |g| ==> h[x] == g[x].(property := g[x].property.(ipcsink := h[x].property.ipcsink)))
    && forall x: nat :: Sink(g, x) ==> Sink(h, x)
  }

  /** `v` is unmarked and reaches `x` without passing through a marked vertex. */
  ghost predicate FreshFrom(g: PdgSlots, v: nat, x: nat) {
    !Sink(g, v) && Reach(FreshRel(g), v, x)
  }

  /** The marks of `h` are those of `g` and what `v` reaches through unmarked vertices. */
  ghost predicate MarksFrom(g: PdgSlots, v: nat, h: PdgSlots) {
    forall x: nat :: x < |g| ==> (Sink(h, x) <==> Sink(g, x) || FreshFrom(g, v, x))
  }

  /** Starting from an unmarked `v`, exactly the vertices that `v` reaches without passing through a
      marked one become marked. */
  ghost predicate MarksSpread(g: PdgSlots, v: nat, h: PdgSlots) {
    OnlyMarksAdded(g, h) && MarksFrom(g, v, h)
  }

  // ---- marks stay closed -------------------------------------------------------------------------

  ghost predicate Closed(g: PdgSlots) {
    forall x: nat, y: nat :: Sink(g, x) && Flows(g, SHARING, x, y) && y < |g| ==> Sink(g, y)
  }

  lemma SameEdges(g: PdgSlots, h: PdgSlots)
    requires OnlyMarksAdded(g, h)
    ensures forall x: nat, y: nat :: Flows(h, SHARING, x, y) <==> Flows(g, SHARING, x, y)
  {
  }

  /** Whoever is unmarked at the end of a walk into a closed set's complement was so all along. */
  lemma {:induction false} UnmarkedWalk(g: PdgSlots, p: seq<nat>, i: nat)
    requires Closed(g) && IsWalk(SharingRel(g), p) && i < |p| && (forall k :: 0 <= k < |p| ==> p[k] < |g|)
    requires !Sink(g, p[|p| - 1])
    ensures !Sink(g, p[i])
    decreases |p| - i
  {
    if i < |p| - 1 {
      UnmarkedWalk(g, p, i + 1);
      assert (p[i], p[i + 1]) in SharingRel(g);
    }
  }

  /** If the marks were closed, they are closed afterwards, and the new ones are everything `v`
      reaches. */
  lemma SharedStaysClosed(g: PdgSlots, v: nat, h: PdgSlots)
    requires Closed(g) && Linked(g) && v < |g| && MarksSpread(g, v, h)
    ensures Closed(h)
    ensures forall x: nat :: x < |g| ==> (Sink(h, x) <==> Sink(g, x) || Reach(SharingRel(g), v, x))
  {
    SameEdges(g, h);
    forall x: nat, y: nat | Sink(h, x) && Flows(h, SHARING, x, y)
      ensures Sink(h, y)
    {
      if !Sink(g, x) && !Sink(g, y) {
        ReachStep(FreshRel(g), x, y);
        ReachTrans(FreshRel(g), v, x, y);
      }
    }
    forall x: nat | x < |g|
      ensures Sink(h, x) <==> Sink(g, x) || Reach(SharingRel(g), v, x)
    {
      if !Sink(g, v) && Reach(FreshRel(g), v, x) {
        ReachMono(FreshRel(g), SharingRel(g), v, x);
      }
      if Reach(SharingRel(g), v, x) && !Sink(g, x) {
        ReachAvoidsMarks(g, v, x);
      }
    }
  }

  lemma ReachAvoidsMarks(g: PdgSlots, v: nat, x: nat)
    requires Closed(g) && Linked(g) && v < |g| && Reach(SharingRel(g), v, x) && !Sink(g, x)
    ensures !Sink(g, v) && Reach(FreshRel(g), v, x)
  {
    var p :| IsWalkFromTo(SharingRel(g), p, v, x);
    forall k | 0 <= k < |p|
      ensures p[k] < |g|
    {
      if k > 0 {
        assert (p[k - 1], p[k - 1 + 1]) in SharingRel(g);
      }
    }
    forall k | 0 <= k < |p|
      ensures !Sink(g, p[k])
    {
      UnmarkedWalk(g, p, k);
    }
    assert IsWalkFromTo(FreshRel(g), p, v, x);
  }

  // ---- spreading from several vertices -----------------------------------------------------------

  ghost predicate SamePointers(g: PdgSlots, h: PdgSlots) {
    |h| == |g| && forall x: nat, y: nat :: Flows(h, SHARING, x, y) <==> Flows(g, SHARING, x, y)
  }

  ghost predicate MarkedFrom(g: PdgSlots, starts: iset<nat>, v: nat) {
    exists x :: x in starts && FreshFrom(g, x, v)
  }

  /** The marks of `h` are those of `g` and what the starts reach in `g` through unmarked vertices. */
  ghost predicate MarksAre(g: PdgSlots, starts: iset<nat>, h: PdgSlots) {
    SamePointers(g, h) && forall v: nat :: v < |g| ==> (Sink(h, v) <==> Sink(g, v) || MarkedFrom(g, starts, v))
  }

  lemma FreshTrans(g: PdgSlots, a: nat, b: nat, c: nat)
    requires FreshFrom(g, a, b) && FreshFrom(g, b, c)
    ensures FreshFrom(g, a, c)
  {
    ReachTrans(FreshRel(g), a, b, c);
  }

  /** Marked vertices lead only to marked ones. */
  lemma MarkedFromClosed(g: PdgSlots, starts: iset<nat>, a: nat, b: nat)
    requires MarkedFrom(g, starts, a) && FreshFrom(g, a, b)
    ensures MarkedFrom(g, starts, b)
  {
    var x :| x in starts && FreshFrom(g, x, a);
    FreshTrans(g, x, a, b);
  }

  lemma FreshReachesNow(g: PdgSlots, starts: iset<nat>, h: PdgSlots, x: nat, v: nat)
    requires MarksAre(g, starts, h) && x < |g| && v < |g|
    requires FreshFrom(g, x, v) && !Sink(h, v) && !Sink(h, x)
    ensures FreshFrom(h, x, v)
  {
    var S := iset y: nat | MarkedFrom(g, starts, y) || Reach(FreshRel(h), x, y);
    ReachSelf(FreshRel(h), x);
    forall a: nat, b: nat | a in S && (a, b) in FreshRel(g)
      ensures b in S
    {
      if MarkedFrom(g, starts, a) {
        ReachStep(FreshRel(g), a, b);
        MarkedFromClosed(g, starts, a, b);
      } else if !MarkedFrom(g, starts, b) {
        assert !Sink(h, a) && !Sink(h, b);
        ReachStep(FreshRel(h), a, b);
        ReachTrans(FreshRel(h), x, a, b);
      }
    }
    ReachStaysInClosedSet(FreshRel(g), S, x, v);
  }

  /** Spreading from `x` in the current graph adds what it would add in the starting graph. */
  lemma FreshNowIsFresh(g: PdgSlots, starts: iset<nat>, h: PdgSlots, x: nat, v: nat)
    requires MarksAre(g, starts, h) && x < |g| && v < |g|
    ensures Sink(h, v) || FreshFrom(h, x, v) <==> Sink(h, v) || FreshFrom(g, x, v)
  {
    if FreshFrom(h, x, v) {
      assert FreshRel(h) <= FreshRel(g);
      ReachMono(FreshRel(h), FreshRel(g), x, v);
    }
    if FreshFrom(g, x, v) && !Sink(h, v) {
      if Sink(h, x) {
        MarkedFromClosed(g, starts, x, v);
      } else {
        FreshReachesNow(g, starts, h, x, v);
      }
    }
  }

  /** Spreading in several rounds is spreading from all starts at once: the order does not matter. */
  lemma MarksCompose(g: PdgSlots, first: iset<nat>, h: PdgSlots, second: iset<nat>, h': PdgSlots)
    requires MarksAre(g, first, h) && MarksAre(h, second, h') && forall x :: x in second ==> x < |g|
    ensures MarksAre(g, first + second, h')
  {
    forall v: nat | v < |g|
      ensures Sink(h', v) <==> Sink(g, v) || MarkedFrom(g, first + second, v)
    {
      forall x | x in second
        ensures Sink(h, v) || FreshFrom(h, x, v) <==> Sink(h, v) || FreshFrom(g, x, v)
      {
        FreshNowIsFresh(g, first, h, x, v);
      }
      if x :| x in first && FreshFrom(g, x, v) {
        assert x in first + second;
      }
      if x :| x in second && FreshFrom(g, x, v) {
        assert x in first + second;
      }
    }
  }

  // ---- the recursion -----------------------------------------------------------------------------

  ghost function Unmarked(g: PdgSlots): set<nat> {
    set x: nat | x < |g| && !Sink(g, x)
  }

  /** While `v`'s out-edges are followed, `done` of them so far: what is newly marked was reached
      from `v`, and its successors are marked, those of `v` as far as they were followed. */
  ghost predicate Spreading(g: PdgSlots, v: nat, done: nat, h: PdgSlots) {
    && OnlyMarksAdded(g, h) && v < |g| && !Sink(g, v) && Sink(h, v) && done <= |g[v].outEdges|
    && (forall x: nat :: Sink(h, x) && !Sink(g, x) ==> Reach(FreshRel(g), v, x))
    && (forall x: nat, y: nat :: Sink(h, x) && !Sink(g, x) && x != v && Flows(g, SHARING, x, y) ==> Sink(h, y))
    && forall i :: 0 <= i < done && g[v].outEdges[i].property.kind in SHARING ==> Sink(h, g[v].outEdges[i].target)
  }

  lemma SpreadingDone(g: PdgSlots, v: nat, h: PdgSlots)
    requires v < |g| && Spreading(g, v, |g[v].outEdges|, h)
    ensures MarksSpread(g, v, h)
  {
    var S := iset x: nat | Sink(h, x) && !Sink(g, x);
    forall x: nat | x < |g| && Reach(FreshRel(g), v, x)
      ensures Sink(h, x)
    {
      forall a, b | a in S && (a, b) in FreshRel(g)
        ensures b in S
      {
        assert Flows(g, SHARING, a, b);
      }
      ReachStaysInClosedSet(FreshRel(g), S, v, x);
    }
  }

  lemma FollowReach(g: PdgSlots, v: nat, h: PdgSlots, t: nat, x: nat)
    requires OnlyMarksAdded(g, h) && !Sink(g, v) && Flows(g, SHARING, v, t) && !Sink(h, t) && t < |g|
    requires Reach(FreshRel(h), t, x)
    ensures Reach(FreshRel(g), v, x)
  {
    SameEdges(g, h);
    assert FreshRel(h) <= FreshRel(g);
    ReachMono(FreshRel(h), FreshRel(g), t, x);
    assert (v, t) in FreshRel(g);
    ReachStep(FreshRel(g), v, t);
    ReachTrans(FreshRel(g), v, t, x);
  }

  lemma SpreadingFollow(g: PdgSlots, v: nat, done: nat, h: PdgSlots, h': PdgSlots)
    requires Spreading(g, v, done, h) && done < |g[v].outEdges| && g[v].outEdges[done].property.kind in SHARING
    requires g[v].outEdges[done].target < |g| && Linked(g) && MarksSpread(h, g[v].outEdges[done].target, h')
    ensures Spreading(g, v, done + 1, h')
  {
    var t := g[v].outEdges[done].target;
    assert Flows(g, SHARING, v, t);
    SameEdges(g, h);
    ReachSelf(FreshRel(h), t);
    forall x: nat | Sink(h', x) && !Sink(g, x)
      ensures Reach(FreshRel(g), v, x)
    {
      if !Sink(h, x) {
        FollowReach(g, v, h, t, x);
      }
    }
    forall x: nat, y: nat | Sink(h', x) && !Sink(g, x) && x != v && Flows(g, SHARING, x, y)
      ensures Sink(h', y)
    {
      if !Sink(h, x) && !Sink(h, y) {
        assert (x, y) in FreshRel(h);
        ReachStep(FreshRel(h), x, y);
        ReachTrans(FreshRel(h), t, x, y);
      }
    }
  }

  lemma SpreadingStarts(g: PdgSlots, v: nat, h: PdgSlots)
    requires v < |g| && !Sink(g, v) && h == g[v := g[v].(property := g[v].property.(ipcsink := true))]
    ensures Spreading(g, v, 0, h)
  {
    ReachSelf(FreshRel(g), v);
    assert forall x: nat :: Sink(h, x) && !Sink(g, x) ==> x == v;
  }

  method MarkAsShared(graph: BaseGraph<PdgNode, PdgEdge>, v: nat)
    requires graph.Valid() && v < |graph.slots|
    modifies graph
    ensures graph.Valid() && graph.View() == old(graph.View()).(slots := graph.slots)
    ensures MarksSpread(old(graph.slots), v, graph.slots)
    decreases Unmarked(graph.slots), 0
  {
    if !graph.slots[v].property.ipcsink {
      ghost var g := graph.slots;
      graph.SetProperty(v, graph.slots[v].property.(ipcsink := true));
      SpreadingStarts(g, v, graph.slots);
      var edges := graph.slots[v].outEdges;
      for i := 0 to |edges|
        invariant graph.Valid() && graph.View() == old(graph.View()).(slots := graph.slots)
        invariant Spreading(g, v, i, graph.slots)
      {
        FewerUnmarked(g, v, i, graph.slots);
        FollowEdge(graph, g, v, edges, i);
      }
      SpreadingDone(g, v, graph.slots);
    }
  }

  lemma FewerUnmarked(g: PdgSlots, v: nat, done: nat, h: PdgSlots)
    requires Spreading(g, v, done, h)
    ensures Unmarked(h) < Unmarked(g)
  {
    assert v in Unmarked(g) && v !in Unmarked(h);
  }

  lemma NotFollowed(g: PdgSlots, v: nat, done: nat, h: PdgSlots)
    requires Spreading(g, v, done, h) && done < |g[v].outEdges| && g[v].outEdges[done].property.kind !in SHARING
    ensures Spreading(g, v, done + 1, h)
  {
  }

  method FollowEdge(graph: BaseGraph<PdgNode, PdgEdge>, ghost g: PdgSlots, v: nat, edges: seq<Edge<PdgEdge>>, i: nat)
    requires graph.Valid() && Linked(g) && Spreading(g, v, i, graph.slots) && edges == g[v].outEdges && i < |edges|
    modifies graph
    ensures graph.Valid() && graph.View() == old(graph.View()).(slots := graph.slots)
    ensures Spreading(g, v, i + 1, graph.slots)
    decreases Unmarked(graph.slots), 1
  {
    ghost var h := graph.slots;
    if edges[i].property.kind in SHARING {
      MarkAsShared(graph, edges[i].target);
      SpreadingFollow(g, v, i, h, graph.slots);
    } else {
      NotFollowed(g, v, i, h);
    }
  }

  // ---- what the marks mean, edge by edge ---------------------------------------------------------

  /** An edge of kind `Deref` or `Part` leads from `u` to `w`. */
  ghost predicate PointsToOrHolds(g: PdgSlots, u: nat, w: nat) {
    && u < |g| && w < |g|
    && exists i :: 0 <= i < |g[u].outEdges| && g[u].outEdges[i].target == w &&
                   (g[u].outEdges[i].property.kind == Deref || g[u].outEdges[i].property.kind == Part)
  }

  /** `x` was not marked and now is. */
  predicate NewlyMarked(g: PdgSlots, h: PdgSlots, x: nat) {
    x < |g| && x < |h| && !g[x].property.ipcsink && h[x].property.ipcsink
  }

  lemma SharingIsEdges(g: PdgSlots)
    requires Linked(g)
    ensures forall u: nat, w: nat :: Flows(g, SHARING, u, w) <==> PointsToOrHolds(g, u, w)
  {
  }

  /** After `markAsShared` on an unmarked `v`: `v` is marked; with a newly marked vertex everything is
      marked that it points to or holds; and every other newly marked vertex is pointed to or held by a
      newly marked one. */
  lemma MarksFollowEdges(g: PdgSlots, v: nat, h: PdgSlots)
    requires Linked(g) && v < |g| && !g[v].property.ipcsink && MarksSpread(g, v, h)
    ensures NewlyMarked(g, h, v)
    ensures forall u: nat, w: nat :: NewlyMarked(g, h, u) && PointsToOrHolds(g, u, w) ==> h[w].property.ipcsink
    ensures forall x: nat :: NewlyMarked(g, h, x) && x != v ==>
              exists u :: NewlyMarked(g, h, u) && PointsToOrHolds(g, u, x)
  {
    var E := FreshRel(g);
    SharingIsEdges(g);
    ReachSelf(E, v);
    forall x: nat
      ensures NewlyMarked(g, h, x) <==> x < |g| && !Sink(g, x) && FreshFrom(g, v, x)
    {
      assert x < |g| ==> (Sink(h, x) <==> Sink(g, x) || FreshFrom(g, v, x));
    }
    forall u: nat, w: nat | NewlyMarked(g, h, u) && PointsToOrHolds(g, u, w)
      ensures h[w].property.ipcsink
    {
      if Sink(g, w) {
        assert Sink(h, w);
      } else {
        ReachStep(E, u, w);
        ReachTrans(E, v, u, w);
        assert NewlyMarked(g, h, w);
      }
    }
    forall x: nat | NewlyMarked(g, h, x) && x != v
      ensures exists u :: NewlyMarked(g, h, u) && PointsToOrHolds(g, u, x)
    {
      LastStep(E, v, x);
      var u: nat :| Reach(E, v, u) && (u, x) in E;
      assert NewlyMarked(g, h, u);
    }
  }

  /** The set holds `v`, and with a vertex everything unmarked that it points to or holds. */
  ghost predicate TakesMarks(g: PdgSlots, v: nat, R: iset<nat>) {
    v in R && forall u: nat, w: nat :: u in R && PointsToOrHolds(g, u, w) && !g[w].property.ipcsink ==> w in R
  }

  /** The new marks are the least such set, or none if `v` was marked. */
  lemma MarkIff(g: PdgSlots, v: nat, h: PdgSlots, x: nat)
    requires Linked(g) && v < |g| && x < |g| && MarksSpread(g, v, h)
    ensures h[x].property.ipcsink <==>
            g[x].property.ipcsink || (!g[v].property.ipcsink && forall R: iset<nat> :: TakesMarks(g, v, R) ==> x in R)
    ensures |h| == |g| && h[x].outEdges == g[x].outEdges && h[x].inEdges == g[x].inEdges && h[x].empty == g[x].empty
    ensures h[x].property.owner == g[x].property.owner
    ensures h[x].property.reachesIpcSink == g[x].property.reachesIpcSink
  {
    var E := FreshRel(g);
    SharingIsEdges(g);
    if FreshFrom(g, v, x) {
      forall R: iset<nat> | TakesMarks(g, v, R)
        ensures x in R
      {
        ReachStaysInClosedSet(E, R, v, x);
      }
    } else if !Sink(g, v) {
      var R := iset y: nat | Reach(E, v, y);
      ReachSelf(E, v);
      forall u: nat, w: nat | u in R && PointsToOrHolds(g, u, w) && !g[w].property.ipcsink
        ensures w in R
      {
        FreshEnd(g, v, u);
        ReachStep(E, u, w);
        ReachTrans(E, v, u, w);
      }
      assert TakesMarks(g, v, R) && x !in R;
    }
  }

  lemma FreshEnd(g: PdgSlots, v: nat, u: nat)
    requires FreshFrom(g, v, u)
    ensures !Sink(g, u)
  {
    LastStep(FreshRel(g), v, u);
  }
}
