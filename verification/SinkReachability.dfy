/** `calculateSinkReachability`: flag everything whose data can flow into a vertex that is, or
    already reaches, an IPC sink of the given functions. */
module SinkReachability {
  import opened Walks
  import opened Colors
  import opened Graphs
  import opened BaseGraphs
  import opened BreadthFirst
  import opened Options
  import opened Pdg

  type VertexIndex = map<Option<nat>, seq<nat>>

  const FLOW: set<EdgeKind> := {Data, Part}

  /** An indexed vertex of one of the functions that is a sink or reaches one. */
  ghost predicate IsSource(g: PdgSlots, index: VertexIndex, functions: seq<Option<nat>>, v: nat) {
    && v < |g| && g[v].property.owner in functions && g[v].property.owner in index
    && v in index[g[v].property.owner] && Flagged(g[v].property)
  }

  /** Data flows from `u` to `v` and `v` is in scope: a walk of this relation has all its later
      vertices in scope. */
  ghost function FlowRel(g: PdgSlots, functions: seq<Option<nat>>): Rel {
    iset e: (nat, nat) | Flows(g, FLOW, e.0, e.1) && InScope(g, functions, e.1)
  }

  ghost predicate ReachesSource(g: PdgSlots, index: VertexIndex, functions: seq<Option<nat>>, v: nat) {
    exists s :: IsSource(g, index, functions, s) && Reach(FlowRel(g, functions), v, s)
  }

  /** The graph after the pass: the flag is added to exactly the vertices that reach a source, and
      nothing else changes. */
  ghost predicate SinksMarked(g: PdgSlots, index: VertexIndex, functions: seq<Option<nat>>, h: PdgSlots) {
    && |h| == |g|
    && forall v: nat :: v < |g| ==>
         h[v] == g[v].(property := g[v].property.(reachesIpcSink :=
           g[v].property.reachesIpcSink || ReachesSource(g, index, functions, v)))
  }

  // ---- a second pass changes nothing ---------------------------------------------------------

  lemma SameFlow(g: PdgSlots, index: VertexIndex, functions: seq<Option<nat>>, h: PdgSlots)
    requires SinksMarked(g, index, functions, h)
    ensures FlowRel(h, functions) == FlowRel(g, functions)
  {
  }

  lemma SecondPassChangesNothing(g: PdgSlots, index: VertexIndex, functions: seq<Option<nat>>, h: PdgSlots,
                                 h': PdgSlots)
    requires SinksMarked(g, index, functions, h) && SinksMarked(h, index, functions, h')
    ensures h' == h
  {
    var E := FlowRel(g, functions);
    SameFlow(g, index, functions, h);
    forall v: nat | v < |g| && ReachesSource(h, index, functions, v)
      ensures h[v].property.reachesIpcSink
    {
      var s :| IsSource(h, index, functions, s) && Reach(E, v, s);
      if !IsSource(g, index, functions, s) {
        assert ReachesSource(g, index, functions, s);
        var s0 :| IsSource(g, index, functions, s0) && Reach(E, s, s0);
        ReachTrans(E, v, s, s0);
      }
    }
  }

  // ---- the pass ------------------------------------------------------------------------------

  function SinkVisitor(g: PdgSlots, functions: seq<Option<nat>>): Visitor<PdgEdge> {
    Visitor((e: Edge<PdgEdge>) => e.property.kind in FLOW, e => false,
            (v: nat) => InScope(g, functions, v), v => false)
  }

  lemma SinkStepsAre(g: PdgSlots, functions: seq<Option<nat>>)
    requires Mirrored(g)
    ensures StepRel(g, SinkVisitor(g, functions)) == Reversed(FlowRel(g, functions))
  {
    var vis := SinkVisitor(g, functions);
    forall u: nat, v: nat
      ensures Steps(g, vis, u, v) <==> Flows(g, FLOW, v, u) && InScope(g, functions, u)
    {
      if u < |g| {
        FlowsBackwards(g, FLOW, v, u);
      }
    }
  }

  lemma FoundIsReachesSource(g: PdgSlots, index: VertexIndex, functions: seq<Option<nat>>, sources: seq<nat>, v: nat)
    requires Mirrored(g) && forall s: nat :: s in sources <==> IsSource(g, index, functions, s)
    ensures FromSome(StepRel(g, SinkVisitor(g, functions)), sources, v) <==> ReachesSource(g, index, functions, v)
  {
    var E := FlowRel(g, functions);
    SinkStepsAre(g, functions);
    if FromSome(Reversed(E), sources, v) {
      var s :| s in sources && Reach(Reversed(E), s, v);
      ReachReversed(Reversed(E), s, v);
      assert Reversed(Reversed(E)) == E;
    }
    if ReachesSource(g, index, functions, v) {
      var s :| IsSource(g, index, functions, s) && Reach(E, v, s);
      ReachReversed(E, v, s);
    }
  }

  /** The flagged vertices of function `f` in one index list, with repetitions. */
  function FlaggedIn(g: PdgSlots, f: Option<nat>, vs: seq<nat>): seq<nat> {
    if vs == [] then []
    else
      var v := vs[|vs| - 1];
      FlaggedIn(g, f, vs[..|vs| - 1]) +
      if v < |g| && g[v].property.owner == f && Flagged(g[v].property) then [v] else []
  }

  function Indexed(index: VertexIndex, f: Option<nat>): seq<nat> {
    if f in index then index[f] else []
  }

  /** The sources of the search, in the order they are collected. */
  function SourcesOf(g: PdgSlots, index: VertexIndex, functions: seq<Option<nat>>): seq<nat> {
    if functions == [] then []
    else
      var f := functions[|functions| - 1];
      SourcesOf(g, index, functions[..|functions| - 1]) + FlaggedIn(g, f, Indexed(index, f))
  }

  lemma {:induction false} FlaggedInMembers(g: PdgSlots, f: Option<nat>, vs: seq<nat>, v: nat)
    ensures v in FlaggedIn(g, f, vs) <==> v in vs && v < |g| && g[v].property.owner == f && Flagged(g[v].property)
  {
    if vs != [] {
      FlaggedInMembers(g, f, vs[..|vs| - 1], v);
      assert vs == vs[..|vs| - 1] + [vs[|vs| - 1]];
    }
  }

  lemma {:induction false} SourcesAre(g: PdgSlots, index: VertexIndex, functions: seq<Option<nat>>, v: nat)
    ensures v in SourcesOf(g, index, functions) <==> IsSource(g, index, functions, v)
  {
    if functions != [] {
      var init, f := functions[..|functions| - 1], functions[|functions| - 1];
      SourcesAre(g, index, init, v);
      FlaggedInMembers(g, f, Indexed(index, f), v);
      assert functions == init + [f];
    }
  }

  method CollectSources(g: PdgSlots, index: VertexIndex, functions: seq<Option<nat>>) returns (sources: seq<nat>)
    requires forall f, v :: f in index && v in index[f] ==> v < |g|
    ensures sources == SourcesOf(g, index, functions)
    ensures forall s: nat :: s in sources <==> IsSource(g, index, functions, s)
  {
    sources := [];
    for i := 0 to |functions|
      invariant sources == SourcesOf(g, index, functions[..i])
    {
      var f := functions[i];
      var vs := Indexed(index, f);
      for j := 0 to |vs|
        invariant sources == SourcesOf(g, index, functions[..i]) + FlaggedIn(g, f, vs[..j])
      {
        var v := vs[j];
        assert v in vs && f in index;
        assert vs[..j + 1][..j] == vs[..j];
        if g[v].property.owner == f && Flagged(g[v].property) {
          sources := sources + [v];
        }
      }
      assert vs[..|vs|] == vs && functions[..i + 1][..i] == functions[..i];
    }
    assert functions[..|functions|] == functions;
    forall s: nat
      ensures s in sources <==> IsSource(g, index, functions, s)
    {
      SourcesAre(g, index, functions, s);
    }
  }

  /** `h` is `g` with the flag set on the vertices in `vs`. */
  ghost predicate FlagsAdded(g: PdgSlots, vs: seq<nat>, h: PdgSlots) {
    && |h| == |g|
    && forall v: nat :: v < |g| ==>
         h[v] == g[v].(property := g[v].property.(reachesIpcSink := g[v].property.reachesIpcSink || v in vs))
  }

  lemma FlagNext(g: PdgSlots, vs: seq<nat>, i: nat, h: PdgSlots)
    requires i < |vs| && vs[i] < |g| && FlagsAdded(g, vs[..i], h)
    ensures var v := vs[i];
            FlagsAdded(g, vs[..i + 1], h[v := h[v].(property := h[v].property.(reachesIpcSink := true))])
  {
    assert vs[..i + 1] == vs[..i] + [vs[i]];
  }

  /** Sets the flag along the list of discovered vertices. */
  method FlagAll(graph: BaseGraph<PdgNode, PdgEdge>, vs: seq<nat>)
    requires graph.Valid() && forall v :: v in vs ==> v < |graph.slots|
    modifies graph
    ensures graph.Valid() && graph.View() == old(graph.View()).(slots := graph.slots)
    ensures FlagsAdded(old(graph.slots), vs, graph.slots)
  {
    ghost var g := graph.slots;
    for i := 0 to |vs|
      invariant graph.Valid() && graph.View() == old(graph.View()).(slots := graph.slots)
      invariant FlagsAdded(g, vs[..i], graph.slots)
    {
      assert vs[i] in vs;
      FlagNext(g, vs, i, graph.slots);
      graph.SetProperty(vs[i], graph.slots[vs[i]].property.(reachesIpcSink := true));
    }
    assert vs[..|vs|] == vs;
  }

  /** The search asks `discover_vertex` only for scope, never for the flag, so setting the flags
      along the list of discovered vertices afterwards has the same effect. */
  method CalculateSinkReachability(graph: BaseGraph<PdgNode, PdgEdge>, index: VertexIndex,
                                   functions: seq<Option<nat>>, colors: ColorMap) returns (count: nat)
    requires graph.Valid() && |graph.slots| <= |colors.Cells()|
    requires forall f, v :: f in index && v in index[f] ==> v < |graph.slots|
    modifies graph, colors
    ensures graph.Valid() && SinksMarked(old(graph.slots), index, functions, graph.slots)
    ensures count == |SourcesOf(old(graph.slots), index, functions)|
  {
    var g := graph.slots;
    var sources := CollectSources(g, index, functions);
    var vis := SinkVisitor(g, functions);
    var _, discovered := BreadthFirstSearch(graph, vis, sources, colors);
    forall v: nat
      ensures v in discovered <==> ReachesSource(g, index, functions, v)
    {
      FoundIsReachesSource(g, index, functions, sources, v);
    }
    FlagAll(graph, discovered);
    count := |sources|;
  }

  // ---- what the pass means, edge by edge ---------------------------------------------------------

  /** An edge of kind `Data` or `Part` leads from `u` to `w`, and `w` belongs to no function or to one of
      the given ones. */
  ghost predicate FeedsInto(g: PdgSlots, functions: seq<Option<nat>>, u: nat, w: nat) {
    && u < |g| && w < |g| && (g[w].property.owner == None || g[w].property.owner in functions)
    && exists i :: 0 <= i < |g[u].outEdges| && g[u].outEdges[i].target == w &&
                   (g[u].outEdges[i].property.kind == Data || g[u].outEdges[i].property.kind == Part)
  }

  /** An indexed vertex of one of the functions that is an IPC sink or is known to reach one. */
  ghost predicate StartsPass(g: PdgSlots, index: VertexIndex, functions: seq<Option<nat>>, v: nat) {
    && v < |g| && (g[v].property.ipcsink || g[v].property.reachesIpcSink)
    && exists f :: f in functions && g[v].property.owner == f && f in index && v in index[f]
  }

  lemma StepsAreEdges(g: PdgSlots, index: VertexIndex, functions: seq<Option<nat>>)
    ensures forall u: nat, w: nat :: (u, w) in FlowRel(g, functions) <==> FeedsInto(g, functions, u, w)
    ensures forall v: nat :: IsSource(g, index, functions, v) <==> StartsPass(g, index, functions, v)
  {
  }

  /** The set holds the vertices the pass starts from, and with a vertex everything that feeds into it. */
  ghost predicate TakesAll(g: PdgSlots, index: VertexIndex, functions: seq<Option<nat>>, R: iset<nat>) {
    && (forall v: nat :: StartsPass(g, index, functions, v) ==> v in R)
    && forall u: nat, w: nat :: w in R && FeedsInto(g, functions, u, w) ==> u in R
  }

  /** The flag ends up on the vertices that had it and on those of the least such set. */
  lemma FlagIff(g: PdgSlots, index: VertexIndex, functions: seq<Option<nat>>, h: PdgSlots, v: nat)
    requires SinksMarked(g, index, functions, h) && v < |g|
    ensures h[v].property.reachesIpcSink <==>
            g[v].property.reachesIpcSink || forall R: iset<nat> :: TakesAll(g, index, functions, R) ==> v in R
    ensures |h| == |g| && h[v].outEdges == g[v].outEdges && h[v].inEdges == g[v].inEdges && h[v].empty == g[v].empty
    ensures h[v].property.owner == g[v].property.owner && h[v].property.ipcsink == g[v].property.ipcsink
  {
    var E := FlowRel(g, functions);
    StepsAreEdges(g, index, functions);
    if ReachesSource(g, index, functions, v) {
      forall R: iset<nat> | TakesAll(g, index, functions, R)
        ensures v in R
      {
        InEveryTaking(g, index, functions, v, R);
      }
    } else {
      var R := iset x: nat | ReachesSource(g, index, functions, x);
      ReachersTakeAll(g, index, functions, R);
      assert v !in R;
    }
  }

  lemma InEveryTaking(g: PdgSlots, index: VertexIndex, functions: seq<Option<nat>>, v: nat, R: iset<nat>)
    requires ReachesSource(g, index, functions, v) && TakesAll(g, index, functions, R)
    ensures v in R
  {
    var E := FlowRel(g, functions);
    StepsAreEdges(g, index, functions);
    var s :| IsSource(g, index, functions, s) && Reach(E, v, s);
    ReachReversed(E, v, s);
    ReachStaysInClosedSet(Reversed(E), R, s, v);
  }

  lemma ReachersTakeAll(g: PdgSlots, index: VertexIndex, functions: seq<Option<nat>>, R: iset<nat>)
    requires forall x: nat :: x in R <==> ReachesSource(g, index, functions, x)
    ensures TakesAll(g, index, functions, R)
  {
    var E := FlowRel(g, functions);
    StepsAreEdges(g, index, functions);
    forall v: nat | StartsPass(g, index, functions, v)
      ensures v in R
    {
      ReachSelf(E, v);
    }
    forall u: nat, w: nat | w in R && FeedsInto(g, functions, u, w)
      ensures u in R
    {
      var s :| IsSource(g, index, functions, s) && Reach(E, w, s);
      ReachStep(E, u, w);
      ReachTrans(E, u, w, s);
    }
  }

  /** What feeds into a vertex that reaches a source is flagged; and whatever the pass flags is a source
      or feeds into such a vertex. */
  lemma FlagsFollowEdges(g: PdgSlots, index: VertexIndex, functions: seq<Option<nat>>, h: PdgSlots)
    requires SinksMarked(g, index, functions, h)
    ensures forall u: nat, w: nat :: FeedsInto(g, functions, u, w) && ReachesSource(g, index, functions, w) ==>
              ReachesSource(g, index, functions, u) && h[u].property.reachesIpcSink
    ensures forall v: nat :: v < |g| && h[v].property.reachesIpcSink && !g[v].property.reachesIpcSink ==>
              StartsPass(g, index, functions, v) ||
              exists w :: FeedsInto(g, functions, v, w) && ReachesSource(g, index, functions, w)
  {
    var E := FlowRel(g, functions);
    StepsAreEdges(g, index, functions);
    forall u: nat, w: nat | FeedsInto(g, functions, u, w) && ReachesSource(g, index, functions, w)
      ensures ReachesSource(g, index, functions, u)
    {
      var s :| IsSource(g, index, functions, s) && Reach(E, w, s);
      ReachStep(E, u, w);
      ReachTrans(E, u, w, s);
    }
    forall v: nat | ReachesSource(g, index, functions, v) && !StartsPass(g, index, functions, v)
      ensures exists w :: FeedsInto(g, functions, v, w) && ReachesSource(g, index, functions, w)
    {
      var s :| IsSource(g, index, functions, s) && Reach(E, v, s);
      FirstStep(E, v, s);
      var w :| (v, w) in E && Reach(E, w, s);
    }
  }

  /** If functions and index lists do not repeat anything, no source is collected twice, so the number
      returned is that of the sources. */
  lemma {:induction false} SourcesOnce(g: PdgSlots, index: VertexIndex, functions: seq<Option<nat>>)
    requires forall i, j :: 0 <= i < j < |functions| ==> functions[i] != functions[j]
    requires forall f :: f in index ==> Distinct(index[f])
    ensures Distinct(SourcesOf(g, index, functions))
  {
    if functions != [] {
      var init, f := functions[..|functions| - 1], functions[|functions| - 1];
      SourcesOnce(g, index, init);
      var before, now := SourcesOf(g, index, init), FlaggedIn(g, f, Indexed(index, f));
      FlaggedInOnce(g, f, Indexed(index, f));
      forall i, j | 0 <= i < |before| && 0 <= j < |now|
        ensures before[i] != now[j]
      {
        SourcesAre(g, index, init, before[i]);
        FlaggedInMembers(g, f, Indexed(index, f), now[j]);
        assert before[i] in before && now[j] in now;
      }
    }
  }

  lemma {:induction false} FlaggedInOnce(g: PdgSlots, f: Option<nat>, vs: seq<nat>)
    requires Distinct(vs)
    ensures Distinct(FlaggedIn(g, f, vs))
  {
    if vs != [] {
      var init, v := vs[..|vs| - 1], vs[|vs| - 1];
      FlaggedInOnce(g, f, init);
      FlaggedInMembers(g, f, init, v);
      var before := FlaggedIn(g, f, init);
      assert forall i :: 0 <= i < |before| ==> before[i] in before;
    }
  }
}
