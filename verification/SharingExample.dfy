/** A graph on which the summary pass leaves a pointer unshared that its comment promises to share: the
    mark on vertex 5 is set by node 2, after node 0 was looked at. */
module SharingExample {
  import opened Options
  import opened Walks
  import opened Graphs
  import opened GraphOps
  import opened BaseGraphs
  import opened Colors
  import opened Pdg
  import opened SharedMarks
  import opened SharingRounds
  import opened SummaryEdges

  function Arrow(u: nat, v: nat, kind: EdgeKind): Edge<PdgEdge> {
    Edge(u, v, PdgEdge(kind, 0))
  }

  function Vertex(outs: seq<Edge<PdgEdge>>, ins: seq<Edge<PdgEdge>>, marked: bool): Slot<PdgNode, PdgEdge> {
    Slot(outs, ins, PdgNode(None, marked, false), false)
  }

  /** Data flows from 0 to 1 and from 2 to 3; these point to 4, 5, 6 and 7; 5 is part of 6; 7 is shared. */
  function Example(): PdgSlots {
    [Vertex([Arrow(0, 1, Data), Arrow(0, 4, Deref)], [], false),
     Vertex([Arrow(1, 5, Deref)], [Arrow(0, 1, Data)], false),
     Vertex([Arrow(2, 3, Data), Arrow(2, 6, Deref)], [], false),
     Vertex([Arrow(3, 7, Deref)], [Arrow(2, 3, Data)], false),
     Vertex([], [Arrow(0, 4, Deref)], false),
     Vertex([], [Arrow(1, 5, Deref), Arrow(6, 5, Part)], false),
     Vertex([Arrow(6, 5, Part)], [Arrow(2, 6, Deref)], false),
     Vertex([], [Arrow(3, 7, Deref)], true)]
  }

  const NODES: seq<nat> := [0, 1, 2, 3]

  ghost function Flow(): Rel {
    FlowRel(Example(), NODES, [])
  }

  lemma ExampleFlows(u: nat, v: nat)
    ensures Flows(Example(), FOLLOWED, u, v) <==> (u == 0 && v == 1) || (u == 2 && v == 3) || (u == 6 && v == 5)
    ensures Flows(Example(), SHARING, u, v) ==> v == 4 ==> u == 0
    ensures u == 6 && v == 5 ==> Flows(Example(), SHARING, u, v)
  {
    var g := Example();
    if u == 0 {
      assert g[0].outEdges[0] == Arrow(0, 1, Data) && g[0].outEdges[1] == Arrow(0, 4, Deref);
    } else if u == 2 {
      assert g[2].outEdges[0] == Arrow(2, 3, Data) && g[2].outEdges[1] == Arrow(2, 6, Deref);
    } else if u == 6 {
      assert g[6].outEdges[0] == Arrow(6, 5, Part);
    }
  }

  lemma ExamplePointers()
    ensures var g := Example();
            && DerefOf(g, 0) == Some(4) && DerefOf(g, 1) == Some(5)
            && DerefOf(g, 2) == Some(6) && DerefOf(g, 3) == Some(7)
  {
    var g := Example();
    assert g[0].outEdges[1..] == [Arrow(0, 4, Deref)] && g[2].outEdges[1..] == [Arrow(2, 6, Deref)];
  }

  function Kept(e: Edge<PdgEdge>, u: nat, v: nat): seq<Edge<PdgEdge>> {
    if e.source == u && e.target == v then [e] else []
  }

  lemma BetweenShort(s: seq<Edge<PdgEdge>>, u: nat, v: nat)
    requires |s| <= 2
    ensures |s| == 0 ==> Between(s, u, v) == []
    ensures |s| == 1 ==> Between(s, u, v) == Kept(s[0], u, v)
    ensures |s| == 2 ==> Between(s, u, v) == Kept(s[0], u, v) + Kept(s[1], u, v)
  {
    if |s| == 2 {
      assert s[1..] == [s[1]] && Between([s[1]], u, v) == Kept(s[1], u, v);
    }
  }

  /** The edges from `u` to `v`. */
  function Arrows(u: nat, v: nat): seq<Edge<PdgEdge>> {
    if u == 0 && v == 1 then [Arrow(0, 1, Data)]
    else if u == 0 && v == 4 then [Arrow(0, 4, Deref)]
    else if u == 1 && v == 5 then [Arrow(1, 5, Deref)]
    else if u == 2 && v == 3 then [Arrow(2, 3, Data)]
    else if u == 2 && v == 6 then [Arrow(2, 6, Deref)]
    else if u == 3 && v == 7 then [Arrow(3, 7, Deref)]
    else if u == 6 && v == 5 then [Arrow(6, 5, Part)]
    else []
  }

  lemma OutsAre(u: nat, v: nat)
    requires u < 8
    ensures Between(Example()[u].outEdges, u, v) == Arrows(u, v)
  {
    BetweenShort(Example()[u].outEdges, u, v);
  }

  lemma InsAre(u: nat, v: nat)
    requires v < 8
    ensures Between(Example()[v].inEdges, u, v) == Arrows(u, v)
  {
    BetweenShort(Example()[v].inEdges, u, v);
  }

  lemma ExampleLinked(x: nat, i: nat)
    requires x < 8
    ensures i < |Example()[x].outEdges| ==>
              Example()[x].outEdges[i].source == x && Example()[x].outEdges[i].target < 8
    ensures i < |Example()[x].inEdges| ==>
              Example()[x].inEdges[i].target == x && Example()[x].inEdges[i].source < 8
  {
  }

  ghost predicate HasArrows(g: PdgSlots, u: nat, v: nat)
    requires u < |g| && v < |g|
  {
    Between(g[u].outEdges, u, v) == Arrows(u, v) && Between(g[v].inEdges, u, v) == Arrows(u, v)
  }

  lemma MirroredByArrows(g: PdgSlots)
    requires Linked(g)
    requires forall u: nat, v: nat {:trigger HasArrows(g, u, v)} :: u < |g| && v < |g| ==> HasArrows(g, u, v)
    ensures Mirrored(g)
  {
    forall u: nat, v: nat | u < |g| && v < |g|
      ensures Between(g[u].outEdges, u, v) == Between(g[v].inEdges, u, v)
    {
      assert HasArrows(g, u, v);
    }
  }

  /** It is a well-formed graph. */
  lemma ExampleMirrored()
    ensures Mirrored(Example())
  {
    forall u: nat, v: nat | u < 8 && v < 8
      ensures HasArrows(Example(), u, v)
    {
      OutsAre(u, v);
      InsAre(u, v);
    }
    forall x: nat, i: nat | x < 8
      ensures i < |Example()[x].outEdges| ==>
                Example()[x].outEdges[i].source == x && Example()[x].outEdges[i].target < 8
      ensures i < |Example()[x].inEdges| ==>
                Example()[x].inEdges[i].target == x && Example()[x].inEdges[i].source < 8
    {
      ExampleLinked(x, i);
    }
    MirroredByArrows(Example());
  }

  predicate InFirstFlow(x: nat) { x <= 1 }

  predicate AwayFromFour(x: nat) { x != 0 && x != 4 }

  lemma ReachedFromZero(b: nat)
    requires Reach(Flow(), 0, b)
    ensures b == 0 || b == 1
  {
    var S := iset x: nat | InFirstFlow(x);
    forall x: nat, y: nat | x in S && (x, y) in Flow()
      ensures y in S
    {
      ExampleFlows(x, y);
    }
    ReachStaysInClosedSet(Flow(), S, 0, b);
  }

  lemma FourIsNotReached(x: nat)
    requires x == 5 || x == 6 || x == 7
    ensures !Reach(FreshRel(Example()), x, 4)
  {
    if Reach(FreshRel(Example()), x, 4) {
      var S := iset y: nat | AwayFromFour(y);
      forall a: nat, b: nat | a in S && (a, b) in FreshRel(Example())
        ensures b in S
      {
        ExampleFlows(a, b);
        NobodyPointsToZero(a, b);
      }
      ReachStaysInClosedSet(FreshRel(Example()), S, x, 4);
    }
  }

  lemma NobodyPointsToZero(u: nat, v: nat)
    requires Flows(Example(), SHARING, u, v)
    ensures v != 0
  {
  }

  lemma ZeroIsNotTriggered()
    ensures !Triggered(Example(), Flow(), NODES, 0)
  {
    ExamplePointers();
    forall b: nat | InFlow(Flow(), NODES, 0, b)
      ensures b == 1
    {
      ReachedFromZero(b);
    }
  }

  lemma TwoIsTriggered()
    ensures Triggered(Example(), Flow(), NODES, 2) && Spreads(Example(), Flow(), NODES, 2, 5)
  {
    ExamplePointers();
    ExampleFlows(2, 3);
    ExampleFlows(6, 5);
    assert (2, 3) in Flow() && (6, 5) in FreshRel(Example());
    ReachStep(Flow(), 2, 3);
    ReachStep(FreshRel(Example()), 6, 5);
    assert NODES[3] == 3 && InFlow(Flow(), NODES, 2, 3) && PointsToFlagged(Example(), 3);
  }

  lemma NobodyMarksFour(j: nat)
    requires j < |NODES|
    ensures !Spreads(Example(), Flow(), NODES, j, 4)
  {
    ExamplePointers();
    if j == 0 {
      ZeroIsNotTriggered();
    } else {
      FourIsNotReached(4 + j);
    }
  }

  lemma FourIsNotMarked(h: PdgSlots)
    requires SharedUpTo(Example(), Flow(), NODES, 4, h)
    ensures !PointsToFlagged(h, 0)
  {
    ExamplePointers();
    forall j: nat | j < |NODES|
      ensures !Spreads(Example(), Flow(), NODES, j, 4)
    {
      NobodyMarksFour(j);
    }
    assert !Sink(h, 4);
  }

  lemma FiveIsMarked(h: PdgSlots)
    requires SharedUpTo(Example(), Flow(), NODES, 4, h)
    ensures PointsToFlagged(h, 1)
  {
    ExamplePointers();
    TwoIsTriggered();
    assert MarkedBy(Example(), Flow(), NODES, 4, 5);
    assert Sink(h, 5);
  }

  lemma ZeroFlowsIntoOne()
    ensures InFlow(Flow(), NODES, 0, 1)
  {
    ExampleFlows(0, 1);
    assert (0, 1) in Flow();
    ReachStep(Flow(), 0, 1);
    assert NODES[1] == 1;
  }

  /** However the pass runs on this graph, it ends with a summary edge from 0 to 1 and what 1 points to
      shared, but what 0 points to not shared. */
  lemma PromiseBroken(h: PdgSlots)
    requires IsSummary(Example(), h, NODES, []) && SharedUpTo(Example(), Flow(), NODES, 4, h)
    ensures HasSummary(h, 0, 1) && PointsToFlagged(h, 1) && !PointsToFlagged(h, 0) && !SharedAlong(h, 0, 1)
    ensures !NothingSpillsBack(Example(), Flow(), NODES)
  {
    FourIsNotMarked(h);
    FiveIsMarked(h);
    ZeroFlowsIntoOne();
    ExamplePointers();
    assert NODES[0] == 0 && NODES[1] == 1;
    PromiseKeptIff(Example(), Flow(), NODES, h);
  }

  lemma NoneRemoved(v: nat)
    requires v < 8
    ensures !Example()[v].empty
  {
  }

  lemma FullGraphOk(g: PdgSlots)
    requires Mirrored(g) && |g| == 8 && forall v: nat :: v < 8 ==> !g[v].empty
    ensures GraphOk(GraphState(g, 8, 7, [])) && forall v :: v in NODES ==> Live(g, v)
  {
  }

  lemma ExampleOk()
    ensures GraphOk(GraphState(Example(), 8, 7, []))
    ensures |Example()| == 8 && forall v :: v in NODES ==> Live(Example(), v)
  {
    ExampleMirrored();
    forall v: nat | v < 8
      ensures !Example()[v].empty
    {
      NoneRemoved(v);
    }
    FullGraphOk(Example());
  }

  method Build() returns (graph: BaseGraph<PdgNode, PdgEdge>)
    ensures fresh(graph) && graph.Valid() && graph.slots == Example()
  {
    graph := new BaseGraph<PdgNode, PdgEdge>();
    graph.slots, graph.size, graph.edgeSize := Example(), 8, 7;
    ExampleOk();
  }

  /** The pass itself, on this graph. */
  method RunExample() returns (graph: BaseGraph<PdgNode, PdgEdge>)
    ensures graph.Valid() && HasSummary(graph.slots, 0, 1) && !SharedAlong(graph.slots, 0, 1)
  {
    graph := Build();
    ExampleOk();
    var colors := new ColorMap(8);
    CalculateSummaryEdges(graph, NODES, [], colors);
    PromiseBroken(graph.slots);
  }
}
