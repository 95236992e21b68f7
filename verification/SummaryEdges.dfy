/** `calculateSummaryEdges`: between the signature nodes of a group of functions, replace data flow
    by direct summary edges. Every search runs on the graph that the earlier searches have already
    extended. */
module SummaryEdges {
  import opened Walks
  import opened Colors
  import opened Graphs
  import opened GraphOps
  import opened BaseGraphs
  import opened BreadthFirst
  import opened Options
  import opened Pdg
  import opened SharedMarks
  import opened SharingRounds

  const FOLLOWED: set<EdgeKind> := {Data, SummaryData, Part}

  /** Signature nodes, global vertices and vertices of the functions may lie inside a flow. */
  predicate MayPass(g: PdgSlots, nodes: seq<nat>, functions: seq<Option<nat>>, v: nat) {
    v in nodes || InScope(g, functions, v)
  }

  /** One step of data flow out of a vertex that may lie inside a flow. */
  ghost function FlowRel(g: PdgSlots, nodes: seq<nat>, functions: seq<Option<nat>>): Rel {
    iset e: (nat, nat) | MayPass(g, nodes, functions, e.0) && Flows(g, FOLLOWED, e.0, e.1)
  }

  ghost predicate HasSummary(g: PdgSlots, a: nat, b: nat) {
    Flows(g, {SummaryData}, a, b)
  }

  function SummaryEdge(a: nat, b: nat): Edge<PdgEdge> {
    Edge(a, b, PdgEdge(SummaryData, 0))
  }

  /** `h` is `g` with summary edges and shared marks added: nothing else differs. */
  ghost predicate OnlySummariesAdded(g: PdgSlots, h: PdgSlots) {
    && |h| == |g|
    && (forall v: nat :: v < |g| ==>
          h[v].property == g[v].property.(ipcsink := h[v].property.ipcsink) && h[v].empty == g[v].empty)
    && (forall v: nat :: Sink(g, v) ==> Sink(h, v))
    && (forall u, e :: 0 <= u < |g| && e in g[u].outEdges ==> e in h[u].outEdges)
    && (forall u, e :: 0 <= u < |g| && e in h[u].outEdges ==> e in g[u].outEdges || e == SummaryEdge(u, e.target))
  }

  lemma AddedTrans(g: PdgSlots, h: PdgSlots, k: PdgSlots)
    requires OnlySummariesAdded(g, h) && OnlySummariesAdded(h, k)
    ensures OnlySummariesAdded(g, k)
  {
  }

  lemma {:induction false} FlowsMember(g: PdgSlots, kinds: set<EdgeKind>, u: nat, v: nat)
    requires u < |g|
    ensures Flows(g, kinds, u, v) <==> exists e :: e in g[u].outEdges && e.target == v && e.property.kind in kinds
  {
  }

  lemma FlowsGrow(g: PdgSlots, h: PdgSlots, kinds: set<EdgeKind>, u: nat, v: nat)
    requires OnlySummariesAdded(g, h)
    ensures Flows(g, kinds, u, v) ==> Flows(h, kinds, u, v)
    ensures SummaryData in kinds && Flows(h, kinds, u, v) ==> Flows(g, kinds, u, v) || HasSummary(h, u, v)
    ensures SummaryData !in kinds && Flows(h, kinds, u, v) ==> Flows(g, kinds, u, v)
  {
  }

  // ---- one search ------------------------------------------------------------------------------

  function SummaryVisitor(g: PdgSlots, nodes: seq<nat>, functions: seq<Option<nat>>): Visitor<PdgEdge> {
    Visitor(e => false, (e: Edge<PdgEdge>) => e.property.kind in FOLLOWED,
            (v: nat) => MayPass(g, nodes, functions, v), v => false)
  }

  lemma SummaryStepsAre(g: PdgSlots, nodes: seq<nat>, functions: seq<Option<nat>>)
    requires forall v :: v in nodes ==> v < |g|
    ensures StepRel(g, SummaryVisitor(g, nodes, functions)) == FlowRel(g, nodes, functions)
  {
  }

  /** The signature nodes other than `start` among the discovered vertices. */
  function Targets(discovered: seq<nat>, nodes: seq<nat>, start: nat): (r: seq<nat>)
    ensures forall b :: b in r <==> b in discovered && b in nodes && b != start
  {
    if discovered == [] then []
    else
      var rest := Targets(discovered[1..], nodes, start);
      if discovered[0] in nodes && discovered[0] != start then [discovered[0]] + rest else rest
  }

  /** The summary edges of `h` are those of `g` and the ones from `start` to the targets. */
  ghost predicate SummariesTo(g: PdgSlots, start: nat, targets: seq<nat>, h: PdgSlots) {
    forall a: nat, b: nat :: HasSummary(h, a, b) <==> HasSummary(g, a, b) || (a == start && b in targets)
  }

  lemma SummariesNext(g: PdgSlots, start: nat, targets: seq<nat>, i: nat, st: GraphState<PdgNode, PdgEdge>)
    requires i < |targets| && GraphOk(st) && Live(st.slots, start) && Live(st.slots, targets[i])
    requires OnlySummariesAdded(g, st.slots) && SummariesTo(g, start, targets[..i], st.slots)
    ensures var h := AfterAddEdge(st, SummaryEdge(start, targets[i])).slots;
            OnlySummariesAdded(g, h) && SummariesTo(g, start, targets[..i + 1], h)
  {
    AddOneSummary(st, start, targets[i]);
    AddedTrans(g, st.slots, AfterAddEdge(st, SummaryEdge(start, targets[i])).slots);
    assert targets[..i + 1] == targets[..i] + [targets[i]];
  }

  // ---- what a shared target says about the source --------------------------------------------

  lemma SummaryKeepsSharing(st: GraphState<PdgNode, PdgEdge>, a: nat, b: nat)
    requires a < |st.slots| && b < |st.slots|
    ensures var h := AfterAddEdge(st, SummaryEdge(a, b)).slots; SameSharing(st.slots, h) && SameMarks(st.slots, h)
  {
    var e, h := SummaryEdge(a, b), AfterAddEdge(st, SummaryEdge(a, b)).slots;
    AddOneSummary(st, a, b);
    forall v: nat
      ensures DerefOf(h, v) == DerefOf(st.slots, v)
      ensures v < |st.slots| ==> h[v].property == st.slots[v].property
    {
      if v < |st.slots| {
        PushedAt(st.slots, e, v);
        DerefInAppend(st.slots[v].outEdges, e);
      }
    }
    forall x: nat, y: nat
      ensures Flows(h, SHARING, x, y) <==> Flows(st.slots, SHARING, x, y)
    {
      FlowsGrow(st.slots, h, SHARING, x, y);
    }
  }

  lemma MarksKeepSharing(g: PdgSlots, h: PdgSlots)
    requires OnlyMarksAdded(g, h)
    ensures SameSharing(g, h) && OnlySummariesAdded(g, h)
    ensures forall a: nat, b: nat :: HasSummary(h, a, b) <==> HasSummary(g, a, b)
  {
    SameEdges(g, h);
    forall v: nat
      ensures DerefOf(h, v) == DerefOf(g, v)
    {
      if v < |g| {
        assert h[v].outEdges == g[v].outEdges;
      }
    }
  }

  lemma SameSharingTrans(g: PdgSlots, h: PdgSlots, k: PdgSlots)
    requires SameSharing(g, h) && SameSharing(h, k)
    ensures SameSharing(g, k)
  {
  }

  /** The check after each new summary edge: what the source points to is shared, and with it exactly what
      that reaches, if what the target points to is shared or flows into a sink. */
  method ShareSource(graph: BaseGraph<PdgNode, PdgEdge>, start: nat, derefStart: Option<nat>, target: nat)
    requires graph.Valid() && derefStart == DerefOf(graph.slots, start) && target < |graph.slots|
    modifies graph
    ensures graph.Valid() && graph.View() == old(graph.View()).(slots := graph.slots)
    ensures if old(ShouldShare(graph.slots, start, target))
            then MarksSpread(old(graph.slots), derefStart.value, graph.slots)
            else graph.slots == old(graph.slots)
  {
    if derefStart.Some? {
      DerefIsEdge(graph.slots[start].outEdges);
      var x := derefStart.value;
      if !graph.slots[x].property.reachesIpcSink {
        var derefTarget := DerefOf(graph.slots, target);
        if derefTarget.Some? {
          DerefIsEdge(graph.slots[target].outEdges);
          if Flagged(graph.slots[derefTarget.value].property) {
            MarkAsShared(graph, x);
          }
        }
      }
    }
  }

  /** The edges from `start` to its targets, and the marks that come with them; afterwards the source of
      every new flow into something shared is shared. */
  method AddSummaries(graph: BaseGraph<PdgNode, PdgEdge>, start: nat, targets: seq<nat>)
    requires graph.Valid() && Live(graph.slots, start) && forall b :: b in targets ==> Live(graph.slots, b)
    modifies graph
    ensures graph.Valid() && OnlySummariesAdded(old(graph.slots), graph.slots)
    ensures SummariesTo(old(graph.slots), start, targets, graph.slots)
    ensures SameSharing(old(graph.slots), graph.slots) && StartShared(old(graph.slots), start, targets, graph.slots)
    ensures forall b :: b in targets ==> SharedAlong(graph.slots, start, b)
  {
    ghost var g := graph.slots;
    var derefStart := DerefOf(graph.slots, start);
    for i := 0 to |targets|
      invariant Adding(g, start, targets, i, graph.View())
    {
      AddSummary(graph, g, start, derefStart, targets, i);
    }
    assert targets[..|targets|] == targets;
    forall b | b in targets
      ensures SharedAlong(graph.slots, start, b)
    {
      StartSharedAlong(g, start, targets, graph.slots, b);
    }
  }

  /** The edges to the first `i` targets have been added and their checks made. */
  ghost predicate Adding(g: PdgSlots, start: nat, targets: seq<nat>, i: nat, st: GraphState<PdgNode, PdgEdge>) {
    && i <= |targets| && GraphOk(st) && OnlySummariesAdded(g, st.slots) && SummariesTo(g, start, targets[..i], st.slots)
    && SameSharing(g, st.slots) && StartShared(g, start, targets[..i], st.slots)
  }

  lemma AddingEdge(g: PdgSlots, start: nat, targets: seq<nat>, i: nat, st: GraphState<PdgNode, PdgEdge>)
    requires Adding(g, start, targets, i, st) && i < |targets| && Live(st.slots, start) && Live(st.slots, targets[i])
    ensures var h := AfterAddEdge(st, SummaryEdge(start, targets[i])).slots;
            && OnlySummariesAdded(g, h) && SummariesTo(g, start, targets[..i + 1], h)
            && SameSharing(g, h) && StartShared(g, start, targets[..i], h)
  {
    SummariesNext(g, start, targets, i, st);
    SummaryKeepsSharing(st, start, targets[i]);
  }

  lemma AddingMarks(g: PdgSlots, start: nat, targets: seq<nat>, i: nat, h: PdgSlots, h': PdgSlots)
    requires i < |targets| && OnlySummariesAdded(g, h) && SummariesTo(g, start, targets[..i + 1], h)
    requires SameSharing(g, h) && StartShared(g, start, targets[..i], h)
    requires if ShouldShare(h, start, targets[i]) then MarksSpread(h, DerefOf(h, start).value, h') else h' == h
    ensures OnlySummariesAdded(g, h') && SummariesTo(g, start, targets[..i + 1], h')
    ensures SameSharing(g, h') && StartShared(g, start, targets[..i + 1], h')
  {
    assert OnlyMarksAdded(h, h');
    MarksKeepSharing(h, h');
    AddedTrans(g, h, h');
    SameSharingTrans(g, h, h');
    StartSharedNext(g, start, targets, i, h, h');
  }

  method AddSummary(graph: BaseGraph<PdgNode, PdgEdge>, ghost g: PdgSlots, start: nat, derefStart: Option<nat>,
                    targets: seq<nat>, i: nat)
    requires graph.Valid() && i < |targets| && Live(g, start) && (forall b :: b in targets ==> Live(g, b))
    requires Adding(g, start, targets, i, graph.View()) && derefStart == DerefOf(g, start)
    modifies graph
    ensures graph.Valid() && Adding(g, start, targets, i + 1, graph.View())
  {
    var t := targets[i];
    assert t in targets;
    AddingEdge(g, start, targets, i, graph.View());
    graph.AddEdge(SummaryEdge(start, t));
    ghost var h := graph.slots;
    ShareSource(graph, start, derefStart, t);
    AddingMarks(g, start, targets, i, h, graph.slots);
  }

  lemma AddOneSummary(st: GraphState<PdgNode, PdgEdge>, a: nat, b: nat)
    requires a < |st.slots| && b < |st.slots|
    ensures var h := AfterAddEdge(st, SummaryEdge(a, b)).slots;
      && OnlySummariesAdded(st.slots, h)
      && forall x: nat, y: nat :: HasSummary(h, x, y) <==> HasSummary(st.slots, x, y) || (x == a && y == b)
  {
    var e := SummaryEdge(a, b);
    var h := AfterAddEdge(st, e).slots;
    assert |h| == |st.slots|;
    forall x: nat | x < |st.slots|
      ensures h[x].property == st.slots[x].property && h[x].empty == st.slots[x].empty
      ensures forall f :: f in h[x].outEdges <==> f in st.slots[x].outEdges || (x == a && f == e)
    {
      PushedAt(st.slots, e, x);
    }
    forall x: nat, y: nat
      ensures HasSummary(h, x, y) <==> HasSummary(st.slots, x, y) || (x == a && y == b)
    {
      if x < |st.slots| {
        FlowsMember(st.slots, {SummaryData}, x, y);
        FlowsMember(h, {SummaryData}, x, y);
        if x == a && y == b {
          assert e in h[x].outEdges;
        }
      }
    }
  }

  // ---- all searches ----------------------------------------------------------------------------

  /** After the first `i` nodes: their summaries are exactly the flows of the original graph `g0`,
      and every summary edge of the current graph is such a flow or was there before. */
  ghost predicate Summarised(g0: PdgSlots, g: PdgSlots, nodes: seq<nat>, functions: seq<Option<nat>>, i: nat) {
    && i <= |nodes| && OnlySummariesAdded(g0, g)
    && (forall a: nat, b: nat :: HasSummary(g, a, b) ==>
          HasSummary(g0, a, b) || (a in nodes && b in nodes && Reach(FlowRel(g0, nodes, functions), a, b)))
    && (forall a: nat, b: nat ::
          a in nodes[..i] && b in nodes && a != b && Reach(FlowRel(g0, nodes, functions), a, b) ==> HasSummary(g, a, b))
  }

  /** Added summary edges are shortcuts: the searches see the reachability of the original graph. */
  lemma SameReach(g0: PdgSlots, g: PdgSlots, nodes: seq<nat>, functions: seq<Option<nat>>, i: nat, a: nat, b: nat)
    requires Summarised(g0, g, nodes, functions, i)
    ensures Reach(FlowRel(g, nodes, functions), a, b) <==> Reach(FlowRel(g0, nodes, functions), a, b)
  {
    var E, F := FlowRel(g0, nodes, functions), FlowRel(g, nodes, functions);
    forall x: nat, y: nat
      ensures (x, y) in E ==> (x, y) in F
      ensures (x, y) in F ==> Reach(E, x, y)
    {
      FlowsGrow(g0, g, FOLLOWED, x, y);
      if (x, y) in F {
        if Flows(g0, FOLLOWED, x, y) {
          ReachStep(E, x, y);
        } else {
          SummaryIsFollowed(g0, x, y);
        }
      }
    }
    ReachShortcuts(E, F, a, b);
  }

  lemma SummaryIsFollowed(g: PdgSlots, x: nat, y: nat)
    ensures HasSummary(g, x, y) ==> Flows(g, FOLLOWED, x, y)
  {
  }

  lemma SummariseNext(g0: PdgSlots, g: PdgSlots, h: PdgSlots, nodes: seq<nat>, functions: seq<Option<nat>>, i: nat,
                      targets: seq<nat>)
    requires Summarised(g0, g, nodes, functions, i) && i < |nodes| && OnlySummariesAdded(g, h)
    requires forall b: nat ::
               b in targets <==> Reach(FlowRel(g, nodes, functions), nodes[i], b) && b in nodes && b != nodes[i]
    requires forall a: nat, b: nat :: HasSummary(h, a, b) <==> HasSummary(g, a, b) || (a == nodes[i] && b in targets)
    ensures Summarised(g0, h, nodes, functions, i + 1)
  {
    AddedTrans(g0, g, h);
    forall b: nat
      ensures Reach(FlowRel(g, nodes, functions), nodes[i], b) <==> Reach(FlowRel(g0, nodes, functions), nodes[i], b)
    {
      SameReach(g0, g, nodes, functions, i, nodes[i], b);
    }
    assert nodes[i] in nodes;
    assert nodes[..i + 1] == nodes[..i] + [nodes[i]];
  }

  /** What the pass computes: between distinct signature nodes there is a summary edge exactly if
      the original graph has a data flow between them. */
  ghost predicate IsSummary(g0: PdgSlots, g: PdgSlots, nodes: seq<nat>, functions: seq<Option<nat>>) {
    && OnlySummariesAdded(g0, g)
    && (forall a: nat, b: nat :: a in nodes && b in nodes && a != b ==>
          (HasSummary(g, a, b) <==> Reach(FlowRel(g0, nodes, functions), a, b)))
    && (forall a: nat, b: nat :: a !in nodes || b !in nodes || a == b ==>
          (HasSummary(g, a, b) <==> HasSummary(g0, a, b)))
  }

  lemma SummarisedIsSummary(g0: PdgSlots, g: PdgSlots, nodes: seq<nat>, functions: seq<Option<nat>>)
    requires Summarised(g0, g, nodes, functions, |nodes|)
    requires forall a: nat :: HasSummary(g, a, a) ==> HasSummary(g0, a, a)
    ensures IsSummary(g0, g, nodes, functions)
  {
    assert nodes[..|nodes|] == nodes;
    forall a: nat, b: nat
      ensures HasSummary(g0, a, b) ==> HasSummary(g, a, b)
      ensures a in nodes && HasSummary(g0, a, b) ==> Reach(FlowRel(g0, nodes, functions), a, b)
    {
      FlowsGrow(g0, g, {SummaryData}, a, b);
      SummaryIsFollowed(g0, a, b);
      if a in nodes && HasSummary(g0, a, b) {
        ReachStep(FlowRel(g0, nodes, functions), a, b);
      }
    }
  }

  /** Whatever the order of the nodes: the summary edges are the flows of the starting graph, and the
      marks are those that the nodes triggered in this order spread. */
  method CalculateSummaryEdges(graph: BaseGraph<PdgNode, PdgEdge>, nodes: seq<nat>, functions: seq<Option<nat>>,
                               colors: ColorMap)
    requires graph.Valid() && |graph.slots| <= |colors.Cells()|
    requires forall v :: v in nodes ==> Live(graph.slots, v)
    modifies graph, colors
    ensures graph.Valid() && IsSummary(old(graph.slots), graph.slots, nodes, functions)
    ensures SharedUpTo(old(graph.slots), FlowRel(old(graph.slots), nodes, functions), nodes, |nodes|, graph.slots)
  {
    ghost var g0 := graph.slots;
    ghost var E := FlowRel(g0, nodes, functions);
    var i := 0;
    while i < |nodes|
      invariant 0 <= i <= |nodes| && graph.Valid() && |graph.slots| <= |colors.Cells()|
      invariant Summarised(g0, graph.slots, nodes, functions, i) && SharedUpTo(g0, E, nodes, i, graph.slots)
      invariant forall a: nat :: HasSummary(graph.slots, a, a) ==> HasSummary(g0, a, a)
    {
      ghost var g := graph.slots;
      var start := nodes[i];
      var targets := SummaryTargets(graph, start, nodes, functions, colors);
      AddSummaries(graph, start, targets);
      SummariseNext(g0, g, graph.slots, nodes, functions, i, targets);
      TargetsAreInFlow(g0, g, nodes, functions, i, targets);
      RoundNext(g0, E, nodes, i, g, targets, graph.slots);
      i := i + 1;
    }
    SummarisedIsSummary(g0, graph.slots, nodes, functions);
  }

  lemma TargetsAreInFlow(g0: PdgSlots, g: PdgSlots, nodes: seq<nat>, functions: seq<Option<nat>>, i: nat,
                         targets: seq<nat>)
    requires Summarised(g0, g, nodes, functions, i) && i < |nodes|
    requires forall b: nat ::
               b in targets <==> Reach(FlowRel(g, nodes, functions), nodes[i], b) && b in nodes && b != nodes[i]
    ensures forall b: nat :: b in targets <==> InFlow(FlowRel(g0, nodes, functions), nodes, nodes[i], b)
  {
    forall b: nat
      ensures b in targets <==> InFlow(FlowRel(g0, nodes, functions), nodes, nodes[i], b)
    {
      SameReach(g0, g, nodes, functions, i, nodes[i], b);
    }
  }

  /** Sharing goes along every summary edge between distinct nodes. */
  ghost predicate SharedAlongSummaries(h: PdgSlots, nodes: seq<nat>) {
    forall a: nat, b: nat :: a in nodes && b in nodes && a != b && HasSummary(h, a, b) ==> SharedAlong(h, a, b)
  }

  /** After the pass, sharing goes along every summary edge between distinct nodes if and only if nothing
      spills back in the starting graph. */
  lemma SharedAlongSummariesIff(g: PdgSlots, h: PdgSlots, nodes: seq<nat>, functions: seq<Option<nat>>)
    requires IsSummary(g, h, nodes, functions) && SharedUpTo(g, FlowRel(g, nodes, functions), nodes, |nodes|, h)
    ensures SharedAlongSummaries(h, nodes) <==> NothingSpillsBack(g, FlowRel(g, nodes, functions), nodes)
  {
    var E := FlowRel(g, nodes, functions);
    PromiseKeptIff(g, E, nodes, h);
    forall a: nat, b: nat | a in nodes && b in nodes && a != b
      ensures HasSummary(h, a, b) <==> InFlow(E, nodes, a, b)
    {
    }
  }

  method SummaryTargets(graph: BaseGraph<PdgNode, PdgEdge>, start: nat, nodes: seq<nat>,
                        functions: seq<Option<nat>>, colors: ColorMap)
    returns (targets: seq<nat>)
    requires graph.Valid() && |graph.slots| <= |colors.Cells()| && start in nodes
    requires forall v :: v in nodes ==> v < |graph.slots|
    modifies colors
    ensures |colors.Cells()| == |old(colors.Cells())|
    ensures forall b: nat :: b in targets <==>
              Reach(FlowRel(graph.slots, nodes, functions), start, b) && b in nodes && b != start
  {
    var g := graph.slots;
    var _, discovered := BreadthFirstSearch(graph, SummaryVisitor(g, nodes, functions), [start], colors);
    SummaryStepsAre(g, nodes, functions);
    forall b: nat
      ensures b in discovered <==> Reach(FlowRel(g, nodes, functions), start, b)
    {
      assert FromSome(FlowRel(g, nodes, functions), [start], b) <==> Reach(FlowRel(g, nodes, functions), start, b);
    }
    targets := Targets(discovered, nodes, start);
  }

  // ---- what the summaries mean, edge by edge -----------------------------------------------------

  /** Data goes on from `u` to `w`: `u` is a signature node, belongs to no function or to one of the given
      ones, and an edge of kind `Data`, `SummaryData` or `Part` leads to `w`. */
  ghost predicate GoesOnTo(g: PdgSlots, nodes: seq<nat>, functions: seq<Option<nat>>, u: nat, w: nat) {
    && u < |g| && (u in nodes || g[u].property.owner == None || g[u].property.owner in functions)
    && exists i :: 0 <= i < |g[u].outEdges| && g[u].outEdges[i].target == w &&
                   (|| g[u].outEdges[i].property.kind == Data
                    || g[u].outEdges[i].property.kind == SummaryData
                    || g[u].outEdges[i].property.kind == Part)
  }

  lemma FlowIsEdges(g: PdgSlots, nodes: seq<nat>, functions: seq<Option<nat>>)
    ensures forall u: nat, w: nat :: (u, w) in FlowRel(g, nodes, functions) <==> GoesOnTo(g, nodes, functions, u, w)
  {
  }

  ghost predicate TakesFlow(g: PdgSlots, nodes: seq<nat>, functions: seq<Option<nat>>, a: nat, R: iset<nat>) {
    a in R && forall u: nat, w: nat :: u in R && GoesOnTo(g, nodes, functions, u, w) ==> w in R
  }

  ghost predicate HasEdgeOfKind(g: PdgSlots, kind: EdgeKind, a: nat, b: nat) {
    && a < |g|
    && exists i :: 0 <= i < |g[a].outEdges| && g[a].outEdges[i].target == b && g[a].outEdges[i].property.kind == kind
  }

  /** After the pass a summary edge leads from one node to another exactly if the least set that holds the
      first and takes data wherever it goes on in the starting graph holds the second. */
  lemma SummaryIff(g: PdgSlots, h: PdgSlots, nodes: seq<nat>, functions: seq<Option<nat>>, a: nat, b: nat)
    requires IsSummary(g, h, nodes, functions) && a in nodes && b in nodes && a != b
    ensures HasEdgeOfKind(h, SummaryData, a, b) <==>
            forall R: iset<nat> :: TakesFlow(g, nodes, functions, a, R) ==> b in R
  {
    var E := FlowRel(g, nodes, functions);
    FlowIsEdges(g, nodes, functions);
    ReachIffForced(E, a, b);
    assert HasEdgeOfKind(h, SummaryData, a, b) <==> HasSummary(h, a, b);
    forall R: iset<nat>
      ensures TakesFlow(g, nodes, functions, a, R) <==> a in R && ClosedUnder(E, R)
    {
    }
  }

  /** Every edge that was there is there; what is new is a summary edge with index 0 between two different
      nodes. Owners, flow flags and emptiness of the vertices stay, and no mark is taken away. */
  lemma OnlySummariesNew(g: PdgSlots, h: PdgSlots, nodes: seq<nat>, functions: seq<Option<nat>>, u: nat,
                         e: Edge<PdgEdge>)
    requires IsSummary(g, h, nodes, functions) && u < |g| && Linked(h)
    ensures |h| == |g| && h[u].property.owner == g[u].property.owner && h[u].empty == g[u].empty
    ensures h[u].property.reachesIpcSink == g[u].property.reachesIpcSink
    ensures g[u].property.ipcsink ==> h[u].property.ipcsink
    ensures e in g[u].outEdges ==> e in h[u].outEdges
    ensures e in h[u].outEdges && e !in g[u].outEdges ==> e == Edge(u, e.target, PdgEdge(SummaryData, 0))
    ensures e in h[u].outEdges && e !in g[u].outEdges && !HasEdgeOfKind(g, SummaryData, u, e.target) ==>
              u in nodes && e.target in nodes && u != e.target
  {
    assert Sink(g, u) ==> Sink(h, u);
    if e in h[u].outEdges && e !in g[u].outEdges {
      var i :| 0 <= i < |h[u].outEdges| && h[u].outEdges[i] == e;
      assert HasSummary(h, u, e.target);
      assert HasSummary(g, u, e.target) <==> HasEdgeOfKind(g, SummaryData, u, e.target);
    }
  }
}
