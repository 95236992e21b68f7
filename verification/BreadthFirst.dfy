/** The visitor-driven breadth-first search. A visitor's answers are given as functions: which
    in-edges and out-edges to follow, which discovered vertices to expand, which vertices end the
    search. The result lists the vertices in the order `discover_vertex` is called on them, so a
    visitor's effect is whatever it does along that list. */
module BreadthFirst {
  import opened Walks
  import opened Colors
  import opened Graphs
  import opened BaseGraphs

  datatype Visitor<!P> = Visitor(
    back: Edge<P> -> bool, forth: Edge<P> -> bool, expand: nat -> bool, wanted: nat -> bool)

  /** `v` is entered from the expanded vertex `u` over an edge the visitor follows. */
  ghost predicate Steps<V, P>(g: Slots<V, P>, vis: Visitor<P>, u: nat, v: nat) {
    && u < |g| && vis.expand(u)
    && (|| (exists i :: 0 <= i < |g[u].inEdges| && vis.back(g[u].inEdges[i]) && g[u].inEdges[i].source == v)
        || (exists i :: 0 <= i < |g[u].outEdges| && vis.forth(g[u].outEdges[i]) && g[u].outEdges[i].target == v))
  }

  ghost function StepRel<V, P>(g: Slots<V, P>, vis: Visitor<P>): Rel {
    iset e: (nat, nat) | Steps(g, vis, e.0, e.1)
  }

  ghost predicate FromSome(E: Rel, sources: seq<nat>, v: nat) {
    exists s :: s in sources && Reach(E, s, v)
  }

  /** The search has discovered `found`; `queue` waits, `open` is being examined, `done`
      has been examined completely. */
  ghost predicate Frontier(E: Rel, n: nat, expand: nat -> bool, wanted: nat -> bool, sources: seq<nat>,
                           cells: seq<Color>, found: seq<nat>, queue: seq<nat>, open: set<nat>, done: set<nat>) {
    && n <= |cells|
    && (forall v: nat :: v < n ==> (cells[v].White? <==> v !in found))
    && (forall v :: v in found ==> v < n && !wanted(v))
    && (forall v {:trigger FromSome(E, sources, v)} :: v in found ==> FromSome(E, sources, v))
    && (forall v :: v in queue ==> v in found && expand(v))
    && (forall v :: v in found && expand(v) ==> v in queue || v in open || v in done)
    && (forall u, w :: u in done && (u, w) in E ==> w in found)
  }

  lemma FromSomeStep(E: Rel, sources: seq<nat>, u: nat, v: nat)
    requires FromSome(E, sources, u) && (u, v) in E
    ensures FromSome(E, sources, v)
  {
    var s :| s in sources && Reach(E, s, u);
    ReachStep(E, u, v);
    ReachTrans(E, s, u, v);
  }

  /** When the queue is empty, exactly what the sources reach has been discovered. */
  lemma FrontierDone(E: Rel, n: nat, expand: nat -> bool, wanted: nat -> bool, sources: seq<nat>,
                     cells: seq<Color>, found: seq<nat>, done: set<nat>, v: nat)
    requires Frontier(E, n, expand, wanted, sources, cells, found, [], {}, done)
    requires forall s :: s in sources ==> s in found
    requires forall u, w :: (u, w) in E ==> expand(u)
    ensures v in found <==> FromSome(E, sources, v)
  {
    if FromSome(E, sources, v) {
      var s :| s in sources && Reach(E, s, v);
      var S := iset x: nat | x in found;
      ReachStaysInClosedSet(E, S, s, v);
    }
  }

  lemma FrontierDiscover(E: Rel, n: nat, expand: nat -> bool, wanted: nat -> bool, sources: seq<nat>,
                         cells: seq<Color>, found: seq<nat>, queue: seq<nat>,
                         open: set<nat>, done: set<nat>, v: nat, c: Color)
    requires Frontier(E, n, expand, wanted, sources, cells, found, queue, open, done)
    requires v < n && !wanted(v) && FromSome(E, sources, v) && !c.White?
    ensures Frontier(E, n, expand, wanted, sources, cells[v := c], found + [v],
                     if expand(v) then queue + [v] else queue, open, done)
  {
  }

  lemma WhiteShrinks(cells: seq<Color>, n: nat, v: nat, c: Color)
    requires v < n <= |cells| && cells[v].White? && !c.White?
    ensures WhiteCells(cells[v := c], n) < WhiteCells(cells, n)
  {
    assert v in WhiteCells(cells, n) && v !in WhiteCells(cells[v := c], n);
  }

  ghost predicate WantedIsReached(E: Rel, n: nat, wanted: nat -> bool, sources: seq<nat>) {
    exists v: nat :: v < n && wanted(v) && FromSome(E, sources, v)
  }

  /** Colours a reached vertex gray, then asks the visitor whether it ends the search and whether
      to expand it. */
  method Discover<P>(ghost E: Rel, ghost n: nat, vis: Visitor<P>, ghost sources: seq<nat>, v: nat, colors: ColorMap,
                     found: seq<nat>, queue: seq<nat>, ghost open: set<nat>, ghost done: set<nat>)
    returns (hit: bool, found': seq<nat>, queue': seq<nat>)
    requires Frontier(E, n, vis.expand, vis.wanted, sources, colors.Cells(), found, queue, open, done)
    requires v < n && FromSome(E, sources, v)
    modifies colors
    ensures |colors.Cells()| == old(|colors.Cells()|)
    ensures WhiteCells(colors.Cells(), n) <= old(WhiteCells(colors.Cells(), n))
    ensures old(colors.Cells()[v].White?) ==> WhiteCells(colors.Cells(), n) < old(WhiteCells(colors.Cells(), n))
    ensures hit <==> vis.wanted(v)
    ensures !hit ==> found' == found + [v]
    ensures !hit ==> Frontier(E, n, vis.expand, vis.wanted, sources, colors.Cells(), found', queue', open, done)
  {
    ghost var cells := colors.Cells();
    colors.PutFast(v, Gray);
    assert colors.Cells() == cells[v := Join(cells[v], Gray)];
    if cells[v].White? {
      WhiteShrinks(cells, n, v, Gray);
    }
    hit, found', queue' := vis.wanted(v), found, queue;
    if !hit {
      FrontierDiscover(E, n, vis.expand, vis.wanted, sources, cells, found, queue, open, done, v, Join(cells[v], Gray));
      found' := found + [v];
      if vis.expand(v) {
        queue' := queue + [v];
      }
    }
  }

  predicate Follows<P>(vis: Visitor<P>, e: Edge<P>, backward: bool) {
    if backward then vis.back(e) else vis.forth(e)
  }

  function FarEnd<P>(e: Edge<P>, backward: bool): nat {
    if backward then e.source else e.target
  }

  lemma ProgressTrans(white2: set<nat>, white1: set<nat>, white0: set<nat>, queue2: nat, queue1: nat, queue0: nat)
    requires Progress(white2, white1, queue2, queue1) && Progress(white1, white0, queue1, queue0)
    ensures Progress(white2, white0, queue2, queue0)
  {
  }

  method FollowEdge<P>(ghost E: Rel, ghost n: nat, vis: Visitor<P>, ghost sources: seq<nat>, ghost u: nat, v: nat,
                       colors: ColorMap, found0: seq<nat>, queue0: seq<nat>, ghost open: set<nat>, ghost done: set<nat>)
    returns (hit: bool, found: seq<nat>, queue: seq<nat>)
    requires Frontier(E, n, vis.expand, vis.wanted, sources, colors.Cells(), found0, queue0, open, done)
    requires u in found0 && v < n && (u, v) in E
    modifies colors
    ensures hit ==> WantedIsReached(E, n, vis.wanted, sources)
    ensures !hit ==> Frontier(E, n, vis.expand, vis.wanted, sources, colors.Cells(), found, queue, open, done)
    ensures !hit ==> found0 <= found && v in found
    ensures Progress(WhiteCells(colors.Cells(), n), old(WhiteCells(colors.Cells(), n)), |queue|, |queue0|)
    ensures |colors.Cells()| == old(|colors.Cells()|)
  {
    hit, found, queue := false, found0, queue0;
    var c := colors.Get(v);
    if c == White {
      FromSomeStep(E, sources, u, v);
      hit, found, queue := Discover(E, n, vis, sources, v, colors, found, queue, open, done);
    }
  }

  /** Scans one edge list of `u`: the body shared by the backward and the forward loop. */
  method ExamineEdges<P>(ghost E: Rel, ghost n: nat, vis: Visitor<P>, ghost sources: seq<nat>, ghost u: nat,
                         edges: seq<Edge<P>>, backward: bool, colors: ColorMap,
                         found0: seq<nat>, queue0: seq<nat>, ghost open: set<nat>, ghost done: set<nat>)
    returns (hit: bool, found: seq<nat>, queue: seq<nat>)
    requires Frontier(E, n, vis.expand, vis.wanted, sources, colors.Cells(), found0, queue0, open, done) && u in found0
    requires forall i :: 0 <= i < |edges| && Follows(vis, edges[i], backward) ==>
               FarEnd(edges[i], backward) < n && (u, FarEnd(edges[i], backward)) in E
    modifies colors
    ensures hit ==> WantedIsReached(E, n, vis.wanted, sources)
    ensures !hit ==> Frontier(E, n, vis.expand, vis.wanted, sources, colors.Cells(), found, queue, open, done)
    ensures !hit ==> found0 <= found
    ensures !hit ==>
              forall i :: 0 <= i < |edges| && Follows(vis, edges[i], backward) ==> FarEnd(edges[i], backward) in found
    ensures Progress(WhiteCells(colors.Cells(), n), old(WhiteCells(colors.Cells(), n)), |queue|, |queue0|)
    ensures |colors.Cells()| == old(|colors.Cells()|)
  {
    hit, found, queue := false, found0, queue0;
    var i := 0;
    while i < |edges|
      invariant 0 <= i <= |edges| && found0 <= found && !hit
      invariant Frontier(E, n, vis.expand, vis.wanted, sources, colors.Cells(), found, queue, open, done)
      invariant forall k :: 0 <= k < i && Follows(vis, edges[k], backward) ==> FarEnd(edges[k], backward) in found
      invariant Progress(WhiteCells(colors.Cells(), n), old(WhiteCells(colors.Cells(), n)), |queue|, |queue0|)
      invariant |colors.Cells()| == old(|colors.Cells()|)
    {
      if Follows(vis, edges[i], backward) {
        var v := FarEnd(edges[i], backward);
        ghost var white, length := WhiteCells(colors.Cells(), n), |queue|;
        hit, found, queue := FollowEdge(E, n, vis, sources, u, v, colors, found, queue, open, done);
        ProgressTrans(WhiteCells(colors.Cells(), n), white, old(WhiteCells(colors.Cells(), n)),
                      |queue|, length, |queue0|);
        if hit {
          return;
        }
      }
      i := i + 1;
    }
  }

  /** Fewer white vertices, or the same and no longer queue. */
  ghost predicate Progress(white: set<nat>, white0: set<nat>, queue: nat, queue0: nat) {
    white < white0 || (white == white0 && queue <= queue0)
  }

  lemma EdgesAreSteps<V, P>(g: Slots<V, P>, vis: Visitor<P>, u: nat)
    requires Linked(g) && u < |g| && vis.expand(u)
    ensures forall i :: 0 <= i < |g[u].inEdges| && Follows(vis, g[u].inEdges[i], true) ==>
              FarEnd(g[u].inEdges[i], true) < |g| && (u, FarEnd(g[u].inEdges[i], true)) in StepRel(g, vis)
    ensures forall i :: 0 <= i < |g[u].outEdges| && Follows(vis, g[u].outEdges[i], false) ==>
              FarEnd(g[u].outEdges[i], false) < |g| && (u, FarEnd(g[u].outEdges[i], false)) in StepRel(g, vis)
  {
  }

  /** A vertex whose edge lists have both been scanned is done. */
  lemma VertexDone<V, P>(g: Slots<V, P>, vis: Visitor<P>, sources: seq<nat>, cells: seq<Color>,
                         found: seq<nat>, queue: seq<nat>, done: set<nat>, u: nat)
    requires u < |g| && vis.expand(u)
    requires Frontier(StepRel(g, vis), |g|, vis.expand, vis.wanted, sources, cells, found, queue, {u}, done)
    requires forall i :: 0 <= i < |g[u].inEdges| && Follows(vis, g[u].inEdges[i], true) ==>
               FarEnd(g[u].inEdges[i], true) in found
    requires forall i :: 0 <= i < |g[u].outEdges| && Follows(vis, g[u].outEdges[i], false) ==>
               FarEnd(g[u].outEdges[i], false) in found
    ensures Frontier(StepRel(g, vis), |g|, vis.expand, vis.wanted, sources, cells, found, queue, {}, done + {u})
  {
  }

  /** One round of the search: examine both edge lists of the vertex taken from the queue. */
  method ExamineVertex<V, P>(g: Slots<V, P>, vis: Visitor<P>, ghost sources: seq<nat>, colors: ColorMap,
                             u: nat, found0: seq<nat>, queue0: seq<nat>, ghost done: set<nat>)
    returns (hit: bool, found: seq<nat>, queue: seq<nat>)
    requires Linked(g) && u < |g| && u in found0 && vis.expand(u)
    requires Frontier(StepRel(g, vis), |g|, vis.expand, vis.wanted, sources, colors.Cells(), found0, queue0, {u}, done)
    modifies colors
    ensures hit ==> WantedIsReached(StepRel(g, vis), |g|, vis.wanted, sources)
    ensures !hit ==> found0 <= found
    ensures !hit ==> Frontier(StepRel(g, vis), |g|, vis.expand, vis.wanted, sources, colors.Cells(), found, queue,
                              {}, done + {u})
    ensures Progress(WhiteCells(colors.Cells(), |g|), old(WhiteCells(colors.Cells(), |g|)), |queue|, |queue0|)
    ensures |colors.Cells()| == old(|colors.Cells()|)
  {
    ghost var E := StepRel(g, vis);
    EdgesAreSteps(g, vis, u);
    hit, found, queue := ExamineEdges(E, |g|, vis, sources, u, g[u].inEdges, true, colors, found0, queue0, {u}, done);
    if hit {
      return;
    }
    ghost var mid := found;
    hit, found, queue := ExamineEdges(E, |g|, vis, sources, u, g[u].outEdges, false, colors, found, queue, {u}, done);
    if hit {
      return;
    }
    assert forall v :: v in mid ==> v in found;
    VertexDone(g, vis, sources, colors.Cells(), found, queue, done, u);
    Blacken(E, |g|, vis, sources, colors, found, queue, done + {u}, u);
  }

  method Blacken<P>(ghost E: Rel, ghost n: nat, ghost vis: Visitor<P>, ghost sources: seq<nat>, colors: ColorMap,
                    ghost found: seq<nat>, ghost queue: seq<nat>, ghost done: set<nat>, u: nat)
    requires u < n && u in found
    requires Frontier(E, n, vis.expand, vis.wanted, sources, colors.Cells(), found, queue, {}, done)
    modifies colors
    ensures Frontier(E, n, vis.expand, vis.wanted, sources, colors.Cells(), found, queue, {}, done)
    ensures WhiteCells(colors.Cells(), n) == old(WhiteCells(colors.Cells(), n))
    ensures |colors.Cells()| == old(|colors.Cells()|)
  {
    colors.PutFast(u, Black);
  }

  /** The sources are coloured and asked first, in order. */
  method DiscoverSources<P>(ghost E: Rel, ghost n: nat, vis: Visitor<P>, sources: seq<nat>, colors: ColorMap)
    returns (hit: bool, found: seq<nat>, queue: seq<nat>)
    requires n <= |colors.Cells()| && (forall s :: s in sources ==> s < n)
    requires forall v :: 0 <= v < n ==> colors.Cells()[v].White?
    modifies colors
    ensures hit ==> WantedIsReached(E, n, vis.wanted, sources)
    ensures !hit ==> Frontier(E, n, vis.expand, vis.wanted, sources, colors.Cells(), found, queue, {}, {})
    ensures !hit ==> found == sources
    ensures |colors.Cells()| == old(|colors.Cells()|)
  {
    hit, found, queue := false, [], [];
    var i := 0;
    while i < |sources|
      invariant 0 <= i <= |sources| && !hit && found == sources[..i] && |colors.Cells()| == old(|colors.Cells()|)
      invariant Frontier(E, n, vis.expand, vis.wanted, sources, colors.Cells(), found, queue, {}, {})
    {
      assert sources[i] in sources;
      ReachSelf(E, sources[i]);
      hit, found, queue := Discover(E, n, vis, sources, sources[i], colors, found, queue, {}, {});
      if hit {
        return;
      }
      i := i + 1;
    }
  }

  /** The two-way search. It stops early exactly if some wanted vertex can be reached; otherwise it
      discovers exactly what the sources reach over followed edges through expanded vertices. */
  method BreadthFirstSearch<V, P>(graph: BaseGraph<V, P>, vis: Visitor<P>, sources: seq<nat>, colors: ColorMap)
    returns (hit: bool, discovered: seq<nat>)
    requires graph.Valid() && |graph.slots| <= |colors.Cells()| && forall s :: s in sources ==> s < |graph.slots|
    modifies colors
    ensures hit <==> WantedIsReached(StepRel(graph.slots, vis), |graph.slots|, vis.wanted, sources)
    ensures !hit ==> forall v :: v in discovered <==> FromSome(StepRel(graph.slots, vis), sources, v)
    ensures !hit ==> sources <= discovered && forall v :: v in discovered ==> v < |graph.slots|
    ensures |colors.Cells()| == old(|colors.Cells()|)
  {
    if sources == [] {
      return false, [];
    }
    var g := graph.slots;
    ghost var E := StepRel(g, vis);
    colors.Init();
    var queue;
    hit, discovered, queue := DiscoverSources(E, |g|, vis, sources, colors);
    if hit {
      return;
    }
    ghost var done := {};
    while queue != []
      invariant sources <= discovered && |colors.Cells()| == old(|colors.Cells()|)
      invariant Frontier(E, |g|, vis.expand, vis.wanted, sources, colors.Cells(), discovered, queue, {}, done)
      decreases WhiteCells(colors.Cells(), |g|), |queue|
    {
      var u := queue[0];
      TakeFromQueue(E, |g|, vis, sources, colors.Cells(), discovered, queue, done);
      hit, discovered, queue := ExamineVertex(g, vis, sources, colors, u, discovered, queue[1..], done);
      if hit {
        return;
      }
      done := done + {u};
    }
    SearchDone(g, vis, sources, colors.Cells(), discovered, done);
  }

  lemma TakeFromQueue<P>(E: Rel, n: nat, vis: Visitor<P>, sources: seq<nat>, cells: seq<Color>,
                         found: seq<nat>, queue: seq<nat>, done: set<nat>)
    requires queue != [] && Frontier(E, n, vis.expand, vis.wanted, sources, cells, found, queue, {}, done)
    ensures Frontier(E, n, vis.expand, vis.wanted, sources, cells, found, queue[1..], {queue[0]}, done)
    ensures queue[0] < n && queue[0] in found && vis.expand(queue[0])
  {
    assert queue == [queue[0]] + queue[1..];
    assert queue[0] in queue;
  }

  lemma SearchDone<V, P>(g: Slots<V, P>, vis: Visitor<P>, sources: seq<nat>, cells: seq<Color>, found: seq<nat>,
                         done: set<nat>)
    requires Frontier(StepRel(g, vis), |g|, vis.expand, vis.wanted, sources, cells, found, [], {}, done)
    requires sources <= found
    ensures forall v :: v in found <==> FromSome(StepRel(g, vis), sources, v)
    ensures !WantedIsReached(StepRel(g, vis), |g|, vis.wanted, sources)
  {
    var E := StepRel(g, vis);
    forall s | s in sources
      ensures s in found
    {
      var i :| 0 <= i < |sources| && sources[i] == s;
      assert found[i] == s;
    }
    forall v: nat
      ensures v in found <==> FromSome(E, sources, v)
    {
      FrontierDone(E, |g|, vis.expand, vis.wanted, sources, cells, found, done, v);
    }
  }
}
