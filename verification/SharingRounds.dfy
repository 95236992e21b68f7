/** What the summary pass does to the shared marks. Its comment promises that if data flows from `a` to
    `b` and what `b` points to is shared, then what `a` points to is shared. The pass looks at each node
    once, so a mark that a later round sets is not carried back. Here is what the marks are in the end,
    and exactly when the promise is kept. */
module SharingRounds {
  import opened Options
  import opened Walks
  import opened Graphs
  import opened Pdg
  import opened SharedMarks

  // ---- what a vertex points to -------------------------------------------------------------------

  /** `getDerefOpt`: the target of the first `Deref` edge. */
  function DerefIn(edges: seq<Edge<PdgEdge>>): Option<nat> {
    if edges == [] then None
    else if edges[0].property.kind == Deref then Some(edges[0].target)
    else DerefIn(edges[1..])
  }

  function DerefOf(g: PdgSlots, v: nat): Option<nat> {
    if v < |g| then DerefIn(g[v].outEdges) else None
  }

  lemma {:induction false} DerefIsEdge(edges: seq<Edge<PdgEdge>>)
    requires DerefIn(edges).Some?
    ensures exists i :: 0 <= i < |edges| && edges[i].property.kind == Deref && edges[i].target == DerefIn(edges).value
  {
    if edges[0].property.kind != Deref {
      DerefIsEdge(edges[1..]);
      var rest := edges[1..];
      var i :| 0 <= i < |rest| && rest[i].property.kind == Deref && rest[i].target == DerefIn(edges).value;
      assert edges[i + 1] == rest[i];
    } else {
      assert edges[0].target == DerefIn(edges).value;
    }
  }

  /** The answer is the target of the first edge of kind `Deref`, and there is none only if there is no
      such edge. */
  lemma {:induction false} DerefInIff(edges: seq<Edge<PdgEdge>>, t: nat)
    ensures DerefIn(edges) == Some(t) <==> exists i :: 0 <= i < |edges| && IsFirstDeref(edges, i, t)
    ensures DerefIn(edges) == None <==> NoDeref(edges)
  {
    if edges != [] {
      var rest := edges[1..];
      DerefInIff(rest, t);
      if edges[0].property.kind == Deref {
        assert IsFirstDeref(edges, 0, edges[0].target);
        if i :| 0 <= i < |edges| && IsFirstDeref(edges, i, t) {
          if i > 0 {
            FirstDeref(edges, i);
          }
        }
      } else {
        if i :| 0 <= i < |rest| && IsFirstDeref(rest, i, t) {
          assert edges[..i + 1] == [edges[0]] + rest[..i];
          assert edges[i + 1] == rest[i] && IsFirstDeref(edges, i + 1, t);
        }
        if i :| 0 <= i < |edges| && IsFirstDeref(edges, i, t) {
          assert rest[i - 1] == edges[i] && rest[..i - 1] == edges[..i][1..];
          assert IsFirstDeref(rest, i - 1, t);
        }
        assert edges == [edges[0]] + rest;
      }
    }
  }

  /** Edge `i` is the first of kind `Deref` and leads to `t`. */
  predicate IsFirstDeref(edges: seq<Edge<PdgEdge>>, i: nat, t: nat)
    requires i < |edges|
  {
    edges[i].property.kind == Deref && edges[i].target == t && NoDeref(edges[..i])
  }

  lemma FirstDeref(edges: seq<Edge<PdgEdge>>, i: nat)
    requires 0 < i <= |edges| && edges[0].property.kind == Deref
    ensures !NoDeref(edges[..i])
  {
    assert edges[..i][0] == edges[0];
  }

  predicate NoDeref(edges: seq<Edge<PdgEdge>>) {
    forall i :: 0 <= i < |edges| ==> edges[i].property.kind != Deref
  }

  lemma {:induction false} DerefInAppend(edges: seq<Edge<PdgEdge>>, e: Edge<PdgEdge>)
    requires e.property.kind != Deref
    ensures DerefIn(edges + [e]) == DerefIn(edges)
  {
    if edges != [] {
      DerefInAppend(edges[1..], e);
      assert (edges + [e])[1..] == edges[1..] + [e];
    }
  }

  /** What `v` points to is shared or flows into a sink. */
  ghost predicate PointsToFlagged(g: PdgSlots, v: nat) {
    var x := DerefOf(g, v);
    x.Some? && x.value < |g| && Flagged(g[x.value].property)
  }

  /** If what `b` points to is shared or flows into a sink, so is what `a` points to. */
  ghost predicate SharedAlong(g: PdgSlots, a: nat, b: nat) {
    DerefOf(g, a).Some? && DerefOf(g, a).value < |g| && PointsToFlagged(g, b) ==> PointsToFlagged(g, a)
  }

  /** `h` has the pointers, parts and flow flags of `g`; its marks may differ. */
  ghost predicate SameSharing(g: PdgSlots, h: PdgSlots) {
    && |h| == |g|
    && (forall x: nat, y: nat :: Flows(h, SHARING, x, y) <==> Flows(g, SHARING, x, y))
    && (forall v: nat :: DerefOf(h, v) == DerefOf(g, v))
    && forall v: nat :: v < |g| ==> h[v].property.reachesIpcSink == g[v].property.reachesIpcSink
  }

  ghost predicate SameMarks(g: PdgSlots, h: PdgSlots) {
    forall v: nat :: v < |g| ==> (Sink(h, v) <==> Sink(g, v))
  }

  // ---- one node ----------------------------------------------------------------------------------

  /** The check after each new summary edge from `start` to `b`. */
  ghost predicate ShouldShare(g: PdgSlots, start: nat, b: nat) {
    var x := DerefOf(g, start);
    x.Some? && x.value < |g| && !g[x.value].property.reachesIpcSink && PointsToFlagged(g, b)
  }

  ghost predicate ShouldShareSome(g: PdgSlots, start: nat, targets: seq<nat>) {
    exists b :: b in targets && ShouldShare(g, start, b)
  }

  /** The marks after the checks for all targets: the order of the targets does not matter. */
  ghost predicate StartShared(g: PdgSlots, start: nat, targets: seq<nat>, h: PdgSlots) {
    if ShouldShareSome(g, start, targets) then MarksFrom(g, DerefOf(g, start).value, h) else SameMarks(g, h)
  }

  /** `x` is the target of the first edge of kind `Deref` of `v`. */
  ghost predicate PointsFirstTo(g: PdgSlots, v: nat, x: nat) {
    && v < |g| && x < |g|
    && exists i :: 0 <= i < |g[v].outEdges| && IsFirstDeref(g[v].outEdges, i, x)
  }

  lemma PointsFirstToIff(g: PdgSlots, v: nat, x: nat)
    ensures PointsFirstTo(g, v, x) <==> x < |g| && DerefOf(g, v) == Some(x)
  {
    if v < |g| {
      DerefInIff(g[v].outEdges, x);
    }
  }

  /** The check succeeds exactly if what the start points to is not known to reach a sink, and what the
      target points to is a sink or known to reach one. */
  lemma CheckIff(g: PdgSlots, start: nat, b: nat)
    ensures ShouldShare(g, start, b) <==>
            exists x: nat, y: nat :: && PointsFirstTo(g, start, x) && !g[x].property.reachesIpcSink
                                     && PointsFirstTo(g, b, y)
                                     && (g[y].property.ipcsink || g[y].property.reachesIpcSink)
  {
    forall v: nat, x: nat
      ensures PointsFirstTo(g, v, x) <==> x < |g| && DerefOf(g, v) == Some(x)
    {
      PointsFirstToIff(g, v, x);
    }
    if ShouldShare(g, start, b) {
      var x, y := DerefOf(g, start).value, DerefOf(g, b).value;
      assert PointsFirstTo(g, start, x) && PointsFirstTo(g, b, y);
    }
  }

  lemma SameFresh(g: PdgSlots, h: PdgSlots)
    requires SameSharing(g, h) && SameMarks(g, h)
    ensures FreshRel(h) == FreshRel(g)
    ensures forall a: nat, b: nat :: ShouldShare(h, a, b) <==> ShouldShare(g, a, b)
  {
    forall v: nat
      ensures PointsToFlagged(h, v) <==> PointsToFlagged(g, v)
    {
      SameFlag(g, h, v);
    }
  }

  lemma SameFlag(g: PdgSlots, h: PdgSlots, v: nat)
    requires SameSharing(g, h) && SameMarks(g, h)
    ensures PointsToFlagged(h, v) <==> PointsToFlagged(g, v)
  {
    var x := DerefOf(g, v);
    assert DerefOf(h, v) == x;
    if x.Some? && x.value < |g| {
      assert Sink(h, x.value) <==> Sink(g, x.value);
    }
  }

  lemma SharedIsMarked(g: PdgSlots, x: nat, h: PdgSlots)
    requires x < |g| && MarksFrom(g, x, h)
    ensures Sink(h, x)
  {
    ReachSelf(FreshRel(g), x);
    assert Sink(g, x) || FreshFrom(g, x, x);
  }

  lemma StartSharedNext(g: PdgSlots, start: nat, targets: seq<nat>, i: nat, h: PdgSlots, h': PdgSlots)
    requires i < |targets| && SameSharing(g, h) && StartShared(g, start, targets[..i], h)
    requires if ShouldShare(h, start, targets[i]) then MarksFrom(h, DerefOf(h, start).value, h') else SameMarks(h, h')
    ensures StartShared(g, start, targets[..i + 1], h')
  {
    assert targets[..i + 1] == targets[..i] + [targets[i]];
    if ShouldShareSome(g, start, targets[..i]) {
      SharedIsMarked(g, DerefOf(g, start).value, h);
      assert SameMarks(h, h');
    } else {
      SameFresh(g, h);
    }
  }

  /** When a node has been looked at, its promise is kept. */
  lemma StartSharedAlong(g: PdgSlots, start: nat, targets: seq<nat>, h: PdgSlots, b: nat)
    requires SameSharing(g, h) && StartShared(g, start, targets, h) && b in targets
    ensures SharedAlong(h, start, b)
  {
    if ShouldShareSome(g, start, targets) {
      SharedIsMarked(g, DerefOf(g, start).value, h);
    } else if DerefOf(g, start).Some? && DerefOf(g, start).value < |g| {
      SameFlag(g, h, b);
      SameFlag(g, h, start);
      assert !ShouldShare(g, start, b);
    }
  }

  // ---- all nodes ---------------------------------------------------------------------------------

  /** `b` is another node that data from `a` flows into. */
  ghost predicate InFlow(E: Rel, nodes: seq<nat>, a: nat, b: nat) {
    b in nodes && b != a && Reach(E, a, b)
  }

  /** What `a` points to may still have to be shared. */
  ghost predicate Shareable(g: PdgSlots, a: nat) {
    var x := DerefOf(g, a);
    x.Some? && x.value < |g| && !g[x.value].property.reachesIpcSink
  }

  /** What `b` points to is reached, in the starting graph through unmarked vertices, from what `a`
      points to. */
  ghost predicate PointersMeet(g: PdgSlots, a: nat, b: nat) {
    var x, y := DerefOf(g, a), DerefOf(g, b);
    x.Some? && y.Some? && y.value < |g| && FreshFrom(g, x.value, y.value)
  }

  /** The check for node `i` succeeds: what some node behind it points to is flagged at the start, or
      reached from what an earlier node points to whose check succeeded. */
  ghost predicate Triggered(g: PdgSlots, E: Rel, nodes: seq<nat>, i: nat)
    requires i < |nodes|
    decreases i
  {
    && Shareable(g, nodes[i])
    && exists b :: && InFlow(E, nodes, nodes[i], b)
                   && (PointsToFlagged(g, b) ||
                       exists j :: 0 <= j < i && Triggered(g, E, nodes, j) && PointersMeet(g, nodes[j], b))
  }

  /** The check for node `j` succeeds and marks `v`. */
  ghost predicate Spreads(g: PdgSlots, E: Rel, nodes: seq<nat>, j: nat, v: nat)
    requires j < |nodes|
  {
    Triggered(g, E, nodes, j) && DerefOf(g, nodes[j]).Some? && FreshFrom(g, DerefOf(g, nodes[j]).value, v)
  }

  ghost predicate MarkedBy(g: PdgSlots, E: Rel, nodes: seq<nat>, n: nat, v: nat)
    requires n <= |nodes|
  {
    exists j :: 0 <= j < n && Spreads(g, E, nodes, j, v)
  }

  /** What `b` points to is flagged once the first `n` nodes have been looked at. */
  ghost predicate FlaggedThen(g: PdgSlots, E: Rel, nodes: seq<nat>, n: nat, b: nat)
    requires n <= |nodes|
  {
    PointsToFlagged(g, b) ||
    (DerefOf(g, b).Some? && DerefOf(g, b).value < |g| && MarkedBy(g, E, nodes, n, DerefOf(g, b).value))
  }

  ghost predicate MeetsTriggered(g: PdgSlots, E: Rel, nodes: seq<nat>, n: nat, b: nat)
    requires n <= |nodes|
  {
    exists j :: 0 <= j < n && Triggered(g, E, nodes, j) && PointersMeet(g, nodes[j], b)
  }

  lemma TriggeredIff(g: PdgSlots, E: Rel, nodes: seq<nat>, i: nat)
    requires i < |nodes|
    ensures Triggered(g, E, nodes, i) <==>
            Shareable(g, nodes[i]) && exists b :: InFlow(E, nodes, nodes[i], b) && FlaggedThen(g, E, nodes, i, b)
  {
    forall b: nat
      ensures FlaggedThen(g, E, nodes, i, b) <==> PointsToFlagged(g, b) || MeetsTriggered(g, E, nodes, i, b)
    {
      FlaggedThenMeets(g, E, nodes, i, b);
    }
  }

  lemma FlaggedThenMeets(g: PdgSlots, E: Rel, nodes: seq<nat>, n: nat, b: nat)
    requires n <= |nodes|
    ensures FlaggedThen(g, E, nodes, n, b) <==> PointsToFlagged(g, b) || MeetsTriggered(g, E, nodes, n, b)
  {
    if j :| 0 <= j < n && Triggered(g, E, nodes, j) && PointersMeet(g, nodes[j], b) {
      assert Spreads(g, E, nodes, j, DerefOf(g, b).value);
    }
    if FlaggedThen(g, E, nodes, n, b) && !PointsToFlagged(g, b) {
      var j :| 0 <= j < n && Spreads(g, E, nodes, j, DerefOf(g, b).value);
      assert PointersMeet(g, nodes[j], b);
    }
  }

  /** The marks after the first `n` nodes, in terms of the starting graph `g` alone. */
  ghost predicate SharedUpTo(g: PdgSlots, E: Rel, nodes: seq<nat>, n: nat, h: PdgSlots)
    requires n <= |nodes|
  {
    SameSharing(g, h) && forall v: nat :: v < |g| ==> (Sink(h, v) <==> Sink(g, v) || MarkedBy(g, E, nodes, n, v))
  }

  lemma MarkedByNext(g: PdgSlots, E: Rel, nodes: seq<nat>, n: nat, v: nat)
    requires n < |nodes|
    ensures MarkedBy(g, E, nodes, n + 1, v) <==> MarkedBy(g, E, nodes, n, v) || Spreads(g, E, nodes, n, v)
  {
    if j :| 0 <= j < n && Spreads(g, E, nodes, j, v) {
      assert 0 <= j < n + 1;
    }
  }

  /** The check on the current graph is the trigger on the starting graph. */
  lemma TriggerIsCheck(g: PdgSlots, E: Rel, nodes: seq<nat>, n: nat, h: PdgSlots, targets: seq<nat>)
    requires n < |nodes| && SharedUpTo(g, E, nodes, n, h)
    requires forall b: nat :: b in targets <==> InFlow(E, nodes, nodes[n], b)
    ensures ShouldShareSome(h, nodes[n], targets) <==> Triggered(g, E, nodes, n)
  {
    TriggeredIff(g, E, nodes, n);
    forall b: nat
      ensures PointsToFlagged(h, b) <==> FlaggedThen(g, E, nodes, n, b)
    {
      FlaggedThenIs(g, E, nodes, n, h, b);
    }
  }

  lemma FlaggedThenIs(g: PdgSlots, E: Rel, nodes: seq<nat>, n: nat, h: PdgSlots, b: nat)
    requires n <= |nodes| && SharedUpTo(g, E, nodes, n, h)
    ensures PointsToFlagged(h, b) <==> FlaggedThen(g, E, nodes, n, b)
  {
    var x := DerefOf(g, b);
    assert DerefOf(h, b) == x;
    if x.Some? && x.value < |g| {
      assert Sink(h, x.value) <==> Sink(g, x.value) || MarkedBy(g, E, nodes, n, x.value);
    }
  }

  /** What the triggered nodes among the first `n` point to. */
  ghost function Starts(g: PdgSlots, E: Rel, nodes: seq<nat>, n: nat): iset<nat>
    requires n <= |nodes|
  {
    iset x: nat | exists j :: 0 <= j < n && Triggered(g, E, nodes, j) && DerefOf(g, nodes[j]) == Some(x)
  }

  lemma MarkedByStarts(g: PdgSlots, E: Rel, nodes: seq<nat>, n: nat, v: nat)
    requires n <= |nodes|
    ensures MarkedBy(g, E, nodes, n, v) <==> MarkedFrom(g, Starts(g, E, nodes, n), v)
  {
    if j :| 0 <= j < n && Spreads(g, E, nodes, j, v) {
      assert DerefOf(g, nodes[j]).value in Starts(g, E, nodes, n);
    }
    if x :| x in Starts(g, E, nodes, n) && FreshFrom(g, x, v) {
      var j :| 0 <= j < n && Triggered(g, E, nodes, j) && DerefOf(g, nodes[j]) == Some(x);
      assert Spreads(g, E, nodes, j, v);
    }
  }

  /** One more node looked at. */
  lemma RoundNext(g: PdgSlots, E: Rel, nodes: seq<nat>, n: nat, h: PdgSlots, targets: seq<nat>, h': PdgSlots)
    requires n < |nodes| && SharedUpTo(g, E, nodes, n, h) && SameSharing(h, h')
    requires forall b: nat :: b in targets <==> InFlow(E, nodes, nodes[n], b)
    requires StartShared(h, nodes[n], targets, h')
    ensures SharedUpTo(g, E, nodes, n + 1, h')
  {
    TriggerIsCheck(g, E, nodes, n, h, targets);
    forall v: nat
      ensures MarkedBy(g, E, nodes, n, v) <==> MarkedFrom(g, Starts(g, E, nodes, n), v)
    {
      MarkedByStarts(g, E, nodes, n, v);
    }
    assert MarksAre(g, Starts(g, E, nodes, n), h);
    forall v: nat | v < |g|
      ensures Sink(h', v) <==> Sink(g, v) || MarkedBy(g, E, nodes, n + 1, v)
    {
      MarkedByNext(g, E, nodes, n, v);
      if Triggered(g, E, nodes, n) {
        FreshNowIsFresh(g, Starts(g, E, nodes, n), h, DerefOf(g, nodes[n]).value, v);
      }
    }
  }

  // ---- when the promise is kept ------------------------------------------------------------------

  ghost predicate PromiseKept(h: PdgSlots, E: Rel, nodes: seq<nat>) {
    forall a: nat, b: nat :: a in nodes && InFlow(E, nodes, a, b) ==> SharedAlong(h, a, b)
  }

  /** Whenever a node later than `a` is triggered and reaches what some node behind `a` points to, what
      `a` points to is flagged at the start or reached by a triggered node as well. */
  ghost predicate NothingSpillsBack(g: PdgSlots, E: Rel, nodes: seq<nat>) {
    forall i, j, b: nat :: 0 <= i < j < |nodes| && SpillsBack(g, E, nodes, i, j, b) ==>
      FlaggedThen(g, E, nodes, |nodes|, nodes[i])
  }

  ghost predicate SpillsBack(g: PdgSlots, E: Rel, nodes: seq<nat>, i: nat, j: nat, b: nat)
    requires i < |nodes| && j < |nodes|
  {
    && InFlow(E, nodes, nodes[i], b) && DerefOf(g, nodes[i]).Some? && DerefOf(g, nodes[i]).value < |g|
    && DerefOf(g, b).Some? && DerefOf(g, b).value < |g| && Spreads(g, E, nodes, j, DerefOf(g, b).value)
  }

  /** A node whose check succeeds ends up pointing to something flagged. */
  lemma TriggeredIsFlagged(g: PdgSlots, E: Rel, nodes: seq<nat>, i: nat)
    requires i < |nodes| && Triggered(g, E, nodes, i)
    ensures FlaggedThen(g, E, nodes, |nodes|, nodes[i])
  {
    var x := DerefOf(g, nodes[i]).value;
    if !Sink(g, x) {
      ReachSelf(FreshRel(g), x);
      assert Spreads(g, E, nodes, i, x);
    }
  }

  lemma FlaggedByCheck(g: PdgSlots, E: Rel, nodes: seq<nat>, i: nat, b: nat)
    requires i < |nodes| && InFlow(E, nodes, nodes[i], b) && FlaggedThen(g, E, nodes, i, b)
    requires DerefOf(g, nodes[i]).Some? && DerefOf(g, nodes[i]).value < |g|
    ensures FlaggedThen(g, E, nodes, |nodes|, nodes[i])
  {
    if !g[DerefOf(g, nodes[i]).value].property.reachesIpcSink {
      TriggeredIff(g, E, nodes, i);
      TriggeredIsFlagged(g, E, nodes, i);
    }
  }

  lemma KeptAtNode(g: PdgSlots, E: Rel, nodes: seq<nat>, i: nat, b: nat)
    requires i < |nodes| && NothingSpillsBack(g, E, nodes) && InFlow(E, nodes, nodes[i], b)
    requires DerefOf(g, nodes[i]).Some? && DerefOf(g, nodes[i]).value < |g| && FlaggedThen(g, E, nodes, |nodes|, b)
    ensures FlaggedThen(g, E, nodes, |nodes|, nodes[i])
  {
    if FlaggedThen(g, E, nodes, i, b) {
      FlaggedByCheck(g, E, nodes, i, b);
    } else {
      var j :| 0 <= j < |nodes| && Spreads(g, E, nodes, j, DerefOf(g, b).value);
      if j == i {
        TriggeredIsFlagged(g, E, nodes, i);
      } else if i < j {
        assert SpillsBack(g, E, nodes, i, j, b);
      }
    }
  }

  /** For every graph and every order of the nodes: at the end the promise is kept for all pairs of nodes
      if and only if nothing spilled back. */
  lemma PromiseKeptIff(g: PdgSlots, E: Rel, nodes: seq<nat>, h: PdgSlots)
    requires SharedUpTo(g, E, nodes, |nodes|, h)
    ensures PromiseKept(h, E, nodes) <==> NothingSpillsBack(g, E, nodes)
  {
    forall v: nat
      ensures PointsToFlagged(h, v) <==> FlaggedThen(g, E, nodes, |nodes|, v)
    {
      FlaggedThenIs(g, E, nodes, |nodes|, h, v);
    }
    if PromiseKept(h, E, nodes) {
      forall i, j, b: nat | 0 <= i < j < |nodes| && SpillsBack(g, E, nodes, i, j, b)
        ensures FlaggedThen(g, E, nodes, |nodes|, nodes[i])
      {
        assert nodes[i] in nodes && MarkedBy(g, E, nodes, |nodes|, DerefOf(g, b).value);
        assert SharedAlong(h, nodes[i], b);
      }
    }
    if NothingSpillsBack(g, E, nodes) {
      forall a: nat, b: nat | a in nodes && InFlow(E, nodes, a, b)
        ensures SharedAlong(h, a, b)
      {
        var i :| 0 <= i < |nodes| && nodes[i] == a;
        if DerefOf(g, a).Some? && DerefOf(g, a).value < |g| && PointsToFlagged(h, b) {
          KeptAtNode(g, E, nodes, i, b);
        }
      }
    }
  }

  /** What a later node points to does not reach, through unmarked vertices, what another node behind
      an earlier one points to. This can be seen from the starting graph and the order of the nodes,
      without knowing whose check succeeds. */
  ghost predicate LaterStayApart(g: PdgSlots, E: Rel, nodes: seq<nat>) {
    forall i, j, b: nat :: 0 <= i < j < |nodes| && InFlow(E, nodes, nodes[i], b) && b != nodes[j] ==>
      !PointersMeet(g, nodes[j], b)
  }

  /** If the check of a later node succeeds, an earlier node whose data flows into it is flagged too. */
  lemma {:induction false} EarlierIsFlagged(g: PdgSlots, E: Rel, nodes: seq<nat>, i: nat, j: nat)
    requires LaterStayApart(g, E, nodes) && i < j < |nodes| && Triggered(g, E, nodes, j)
    requires Reach(E, nodes[i], nodes[j]) && DerefOf(g, nodes[i]).Some? && DerefOf(g, nodes[i]).value < |g|
    ensures FlaggedThen(g, E, nodes, |nodes|, nodes[i])
    decreases j
  {
    var a := nodes[i];
    var b :| InFlow(E, nodes, nodes[j], b) &&
      (PointsToFlagged(g, b) || MeetsTriggered(g, E, nodes, j, b));
    ReachTrans(E, a, nodes[j], b);
    if b == a {
      FlaggedLater(g, E, nodes, j, a);
    } else if FlaggedThen(g, E, nodes, i, b) {
      FlaggedByCheck(g, E, nodes, i, b);
    } else {
      FlaggedThenMeets(g, E, nodes, i, b);
      assert MeetsTriggered(g, E, nodes, j, b);
      var k: nat :| k < j && Triggered(g, E, nodes, k) && PointersMeet(g, nodes[k], b);
      if k == i {
        TriggeredIsFlagged(g, E, nodes, i);
      } else {
        assert i < k && b == nodes[k];
        EarlierIsFlagged(g, E, nodes, i, k);
      }
    }
  }

  lemma FlaggedLater(g: PdgSlots, E: Rel, nodes: seq<nat>, n: nat, b: nat)
    requires n <= |nodes| && (PointsToFlagged(g, b) || MeetsTriggered(g, E, nodes, n, b))
    ensures FlaggedThen(g, E, nodes, |nodes|, b)
  {
    if !PointsToFlagged(g, b) {
      var k :| 0 <= k < n && Triggered(g, E, nodes, k) && PointersMeet(g, nodes[k], b);
      assert MeetsTriggered(g, E, nodes, |nodes|, b);
    }
    FlaggedThenMeets(g, E, nodes, |nodes|, b);
  }

  /** The promise is kept if later nodes stay apart. */
  lemma LaterApartKept(g: PdgSlots, E: Rel, nodes: seq<nat>, h: PdgSlots)
    requires SharedUpTo(g, E, nodes, |nodes|, h) && LaterStayApart(g, E, nodes)
    ensures PromiseKept(h, E, nodes)
  {
    forall i, j, b: nat | 0 <= i < j < |nodes| && SpillsBack(g, E, nodes, i, j, b)
      ensures FlaggedThen(g, E, nodes, |nodes|, nodes[i])
    {
      assert PointersMeet(g, nodes[j], b);
      EarlierIsFlagged(g, E, nodes, i, j);
    }
    PromiseKeptIff(g, E, nodes, h);
  }

  // ---- independent nodes -------------------------------------------------------------------------

  /** What one node points to is not reached from what another points to. */
  ghost predicate Independent(g: PdgSlots, nodes: seq<nat>) {
    forall a: nat, b: nat :: a in nodes && b in nodes && a != b && DerefOf(g, a).Some? && DerefOf(g, b).Some? ==>
      !Reach(SharingRel(g), DerefOf(g, a).value, DerefOf(g, b).value)
  }

  /** Independent nodes stay apart in every order. */
  lemma IndependentStayApart(g: PdgSlots, E: Rel, nodes: seq<nat>)
    requires Independent(g, nodes)
    ensures LaterStayApart(g, E, nodes)
  {
    forall i, j, b: nat | 0 <= i < j < |nodes| && InFlow(E, nodes, nodes[i], b) && b != nodes[j]
      ensures !PointersMeet(g, nodes[j], b)
    {
      assert nodes[j] in nodes;
      if PointersMeet(g, nodes[j], b) {
        ReachMono(FreshRel(g), SharingRel(g), DerefOf(g, nodes[j]).value, DerefOf(g, b).value);
      }
    }
  }

  lemma SpreadsToItself(g: PdgSlots, E: Rel, nodes: seq<nat>, j: nat, b: nat)
    requires Independent(g, nodes) && j < |nodes| && b in nodes && DerefOf(g, b).Some?
    requires Spreads(g, E, nodes, j, DerefOf(g, b).value)
    ensures b == nodes[j]
  {
    ReachMono(FreshRel(g), SharingRel(g), DerefOf(g, nodes[j]).value, DerefOf(g, b).value);
    assert nodes[j] in nodes;
  }

  /** Data flows from `a` into a node, possibly `a` itself, that pointed to something flagged. */
  ghost predicate FlowsIntoFlagged(g: PdgSlots, E: Rel, nodes: seq<nat>, a: nat) {
    exists c :: c in nodes && Reach(E, a, c) && PointsToFlagged(g, c)
  }

  lemma {:induction false} TriggeredByStart(g: PdgSlots, E: Rel, nodes: seq<nat>, j: nat)
    requires Independent(g, nodes) && j < |nodes| && Triggered(g, E, nodes, j)
    ensures FlowsIntoFlagged(g, E, nodes, nodes[j])
    decreases j
  {
    TriggeredIff(g, E, nodes, j);
    var b :| InFlow(E, nodes, nodes[j], b) && FlaggedThen(g, E, nodes, j, b);
    if !PointsToFlagged(g, b) {
      var k :| 0 <= k < j && Spreads(g, E, nodes, k, DerefOf(g, b).value);
      SpreadsToItself(g, E, nodes, k, b);
      TriggeredByStart(g, E, nodes, k);
      var c :| c in nodes && Reach(E, b, c) && PointsToFlagged(g, c);
      ReachTrans(E, nodes[j], b, c);
    }
  }

  lemma FlaggedByFlow(g: PdgSlots, E: Rel, nodes: seq<nat>, i: nat)
    requires i < |nodes| && DerefOf(g, nodes[i]).Some? && DerefOf(g, nodes[i]).value < |g|
    requires FlowsIntoFlagged(g, E, nodes, nodes[i])
    ensures FlaggedThen(g, E, nodes, |nodes|, nodes[i])
  {
    var c :| c in nodes && Reach(E, nodes[i], c) && PointsToFlagged(g, c);
    if c != nodes[i] {
      FlaggedByCheck(g, E, nodes, i, c);
    }
  }

  /** For independent nodes, in any order: what a node points to is flagged at the end exactly if data
      flowed from the node into one that pointed to something flagged at the start; and the promise is
      kept. */
  lemma IndependentKept(g: PdgSlots, E: Rel, nodes: seq<nat>, h: PdgSlots)
    requires SharedUpTo(g, E, nodes, |nodes|, h) && Independent(g, nodes)
    ensures forall a: nat :: a in nodes && DerefOf(g, a).Some? && DerefOf(g, a).value < |g| ==>
              (PointsToFlagged(h, a) <==> FlowsIntoFlagged(g, E, nodes, a))
    ensures PromiseKept(h, E, nodes)
  {
    forall a: nat | a in nodes && DerefOf(g, a).Some? && DerefOf(g, a).value < |g|
      ensures PointsToFlagged(h, a) <==> FlowsIntoFlagged(g, E, nodes, a)
    {
      IndependentFlags(g, E, nodes, h, a);
    }
    IndependentStayApart(g, E, nodes);
    LaterApartKept(g, E, nodes, h);
  }

  lemma IndependentFlags(g: PdgSlots, E: Rel, nodes: seq<nat>, h: PdgSlots, a: nat)
    requires SharedUpTo(g, E, nodes, |nodes|, h) && Independent(g, nodes)
    requires a in nodes && DerefOf(g, a).Some? && DerefOf(g, a).value < |g|
    ensures PointsToFlagged(h, a) <==> FlowsIntoFlagged(g, E, nodes, a)
  {
    FlaggedThenIs(g, E, nodes, |nodes|, h, a);
    if FlaggedThen(g, E, nodes, |nodes|, a) {
      if PointsToFlagged(g, a) {
        ReachSelf(E, a);
      } else {
        var j :| 0 <= j < |nodes| && Spreads(g, E, nodes, j, DerefOf(g, a).value);
        SpreadsToItself(g, E, nodes, j, a);
        TriggeredByStart(g, E, nodes, j);
      }
    }
    if FlowsIntoFlagged(g, E, nodes, a) {
      var i :| 0 <= i < |nodes| && nodes[i] == a;
      FlaggedByFlow(g, E, nodes, i);
    }
  }
}
