/** The iterative depth-first search with Tarjan's visitor, run on the graph class. */
module StrongComponents {
  import opened Walks
  import opened Colors
  import opened Graphs
  import opened BaseGraphs
  import opened Tarjan
  import opened TarjanFinish

  /** The targets of the out-edges of each vertex. */
  ghost function Targets<V, P>(g: Slots<V, P>): (adj: Adjacency)
    ensures |adj| == |g|
    ensures forall u :: 0 <= u < |g| ==> |adj[u]| == |g[u].outEdges|
    ensures forall u, i :: 0 <= u < |g| && 0 <= i < |g[u].outEdges| ==> adj[u][i] == g[u].outEdges[i].target
  {
    seq(|g|, u requires 0 <= u < |g| =>
      seq(|g[u].outEdges|, i requires 0 <= i < |g[u].outEdges| => g[u].outEdges[i].target))
  }

  /** `seg` grows downwards by one element of the stack. */
  lemma MarkedStep<T>(values: seq<T>, stack: seq<nat>, m: nat, x: T)
    requires 0 < m <= |stack| && stack[m - 1] < |values|
    ensures Marked(values, stack[m - 1..], x) == Marked(values, stack[m..], x)[stack[m - 1] := x]
  {
  }

  class TarjanVisitor {
    var c: nat
    var comp: seq<int>
    var root: seq<nat>
    var discoverTime: seq<int>
    var dfsTime: int
    var s: seq<nat>
    ghost var order: seq<nat>
    ghost var done: seq<nat>
    ghost var par: seq<nat>

    ghost function View(color: seq<Color>): State
      reads this
    {
      State(color, c, comp, root, discoverTime, s, order, done, par)
    }

    ghost predicate Clock()
      reads this
    {
      dfsTime == |order|
    }

    ghost predicate IsFresh(n: nat)
      reads this
    {
      && c == 0 && dfsTime == 0 && s == [] && order == [] && done == []
      && |comp| >= n && |root| >= n && |discoverTime| >= n && |par| >= n
    }

    constructor (capacity: nat)
      ensures IsFresh(capacity)
    {
      c, dfsTime, s := 0, 0, [];
      comp, discoverTime := seq(capacity + 1, _ => 0), seq(capacity + 1, _ => 0);
      root := seq(capacity + 1, _ => 0xffff_ffff_ffff_ffff);
      order, done, par := [], [], seq(capacity, _ => 0);
    }

    method DiscoverVertex(v: nat, ghost parent: nat)
      requires Clock() && v < |comp| && v < |root| && v < |discoverTime| && v < |par|
      modifies this
      ensures Clock() && c == old(c) && done == old(done)
      ensures comp == old(comp)[v := UNASSIGNED] && root == old(root)[v := v]
      ensures discoverTime == old(discoverTime)[v := |old(order)|]
      ensures s == old(s) + [v] && order == old(order) + [v] && par == old(par)[v := parent]
    {
      root := root[v := v];
      comp := comp[v := UNASSIGNED];
      discoverTime := discoverTime[v := dfsTime];
      dfsTime := dfsTime + 1;
      s := s + [v];
      order := order + [v];
      par := par[v := parent];
    }

    function MinDiscoverTime(u: nat, v: nat): nat
      requires u < |discoverTime| && v < |discoverTime|
      reads this
    {
      if discoverTime[u] < discoverTime[v] then u else v
    }

    /** The first loop of `finish_vertex`: fold the roots of the stacked successors into `root[v]`. */
    method FoldRoots<V, P>(g: BaseGraph<V, P>, ghost adj: Adjacency, v: nat, ghost color: seq<Color>,
                           ghost path: seq<Frame>)
      requires adj == Targets(g.slots) && Sized(adj, View(color)) && CanFold(adj, View(color), path, v)
      modifies `root
      ensures |root| == |old(root)| && root == old(root)[v := root[v]]
      ensures IsOldestRoot(adj, old(View(color)), v, root[v])
    {
      ghost var st := View(color);
      FoldStart(adj, st, path, v);
      var i := 0;
      while i < |g.slots[v].outEdges|
        invariant 0 <= i <= |adj[v]| && |root| == |st.root| && root == st.root[v := root[v]]
        invariant PartialOldest(adj, st, v, root[v], i)
      {
        var w := g.slots[v].outEdges[i].target;
        FoldNow(adj, st, path, v, root, i);
        if comp[w] == UNASSIGNED {
          root := root[v := MinDiscoverTime(root[v], root[w])];
        }
        i := i + 1;
      }
    }
  
    /** The second loop: pop the stack down to `v`, numbering every vertex popped. */
    method CloseComponent(v: nat, ghost k: nat)
      requires k < |s| && s[k] == v && v !in s[k + 1..]
      requires forall i :: 0 <= i < |s| ==> s[i] < |comp| && s[i] < |root|
      modifies `comp, `root, `s, `c
      ensures s == old(s)[..k] && c == old(c) + 1
      ensures comp == Marked(old(comp), old(s)[k..], old(c)) && root == Marked(old(root), old(s)[k..], v)
    {
      ghost var stack, m := s, |s|;
      assert stack[m..] == [] && comp == Marked(comp, [], c) && root == Marked(root, [], v);
      var w := s[|s| - 1];
      var first := true;
      while first || w != v
        invariant k <= m <= |stack| && s == stack[..m] && c == old(c)
        invariant comp == Marked(old(comp), stack[m..], c) && root == Marked(old(root), stack[m..], v)
        invariant if first then m == |stack| else m < |stack| && w == stack[m]
        invariant first || w == v <==> m == |stack| || m == k
        decreases m, first
      {
        MarkedStep(old(comp), stack, m, c);
        MarkedStep(old(root), stack, m, v);
        assert m - 1 > k ==> stack[m - 1] in stack[k + 1..] by {
          if m - 1 > k { assert stack[k + 1..][m - 1 - (k + 1)] == stack[m - 1]; }
        }
        w := s[|s| - 1];
        s := s[..|s| - 1];
        comp := comp[w := c];
        root := root[w := v];
        m := m - 1;
        first := false;
      }
      c := c + 1;
    }
  
    /** Either `v` keeps an older root, or `v` is its own root and closes a component. */
    method FinishVertex<V, P>(g: BaseGraph<V, P>, ghost adj: Adjacency, v: nat, ghost color: seq<Color>,
                              ghost path: seq<Frame>, ghost k: nat) returns (ghost r: nat)
      requires adj == Targets(g.slots) && Sized(adj, View(color)) && CanFold(adj, View(color), path, v)
      requires PopReady(adj, View(color), path, v, k) && v !in s[k + 1..] && root[v] == v
      modifies this
      ensures dfsTime == old(dfsTime) && order == old(order)
      ensures IsOldestRoot(adj, old(View(color)), v, r)
      ensures View(color[v := Black]) ==
              if r == v then Pop(adj, old(View(color)), v, k) else Stay(adj, old(View(color)), v, r)
    {
      ghost var st := View(color);
      FoldRoots(g, adj, v, color, path);
      done := done + [v];
      r := root[v];
      if root[v] == v {
        assert root == st.root;
        CloseComponent(v, k);
      }
    }
  }

  /** Where the finishing vertex sits on the stack. */
  lemma FindOnStack(adj: Adjacency, st: State, path: seq<Frame>, v: nat) returns (k: nat)
    requires Invariant(adj, st, path) && FinishReady(adj, st, path, v)
    ensures PopReady(adj, st, path, v, k) && v !in st.stack[k + 1..]
    ensures st.root[v] == v
  {
    FoldStart(adj, st, path, v);
    assert OnStack(adj, st, v);
    k :| 0 <= k < |st.stack| && st.stack[k] == v;
    ComponentsFit(adj, st, path, v);
  }

  lemma FinishKeepsInvariant(adj: Adjacency, st: State, path: seq<Frame>, v: nat, r: nat, k: nat)
    requires Invariant(adj, st, path) && PopReady(adj, st, path, v, k) && IsOldestRoot(adj, st, v, r)
    ensures Invariant(adj, if r == v then Pop(adj, st, v, k) else Stay(adj, st, v, r), Closed(path))
  {
    if r == v {
      PopKeepsInvariant(adj, st, path, v, k);
    } else {
      StayKeepsInvariant(adj, st, path, v, r);
    }
  }

  lemma ComponentsFit(adj: Adjacency, st: State, path: seq<Frame>, v: nat)
    requires Sized(adj, st) && DoneOk(adj, st) && IsGray(adj, st, v) && |adj| <= UNASSIGNED
    ensures st.comps < UNASSIGNED
  {
    DistinctFits(st.done + [v], |adj|);
  }

  ghost predicate CanFold(adj: Adjacency, st: State, path: seq<Frame>, v: nat)
    requires Sized(adj, st)
  {
    WellFormed(adj) && FinishReady(adj, st, path, v) && ExaminedOk(adj, st, path) && RootOk(adj, st) && OrderOk(adj, st)
  }

  lemma FoldStart(adj: Adjacency, st: State, path: seq<Frame>, v: nat)
    requires Sized(adj, st) && CanFold(adj, st, path, v)
    ensures st.root[v] == v && PartialOldest(adj, st, v, v, 0)
  {
    assert OnStack(adj, st, v) && RootMeans(adj, st, v);
  }

  lemma FoldStep(adj: Adjacency, st: State, path: seq<Frame>, v: nat, r: nat, i: nat)
    requires Sized(adj, st) && CanFold(adj, st, path, v)
    requires i < |adj[v]| && PartialOldest(adj, st, v, r, i)
    ensures var w := adj[v][i];
      && w < |adj|
      && if st.comp[w] == UNASSIGNED
         then
           var q := if w == v then r else st.root[w];
           q < |adj| && PartialOldest(adj, st, v, if st.disc[r] < st.disc[q] then r else q, i + 1)
         else PartialOldest(adj, st, v, r, i + 1)
  {
    var w := adj[v][i];
    SegmentIsSeen(adj, st, path, v, v, i);
    assert OnStack(adj, st, v) && RootMeans(adj, st, v);
    if st.comp[w] == UNASSIGNED {
      assert OnStack(adj, st, w) && RootMeans(adj, st, w);
    }
  }

  /** The same step on the table that the fold has written to. */
  lemma FoldNow(adj: Adjacency, st: State, path: seq<Frame>, v: nat, root: seq<nat>, i: nat)
    requires Sized(adj, st) && CanFold(adj, st, path, v) && i < |adj[v]|
    requires |root| == |st.root| && v < |root| && root == st.root[v := root[v]] && PartialOldest(adj, st, v, root[v], i)
    ensures var w := adj[v][i];
      && w < |adj| && root[v] < |adj|
      && if st.comp[w] == UNASSIGNED
         then
           && root[w] < |adj|
           && PartialOldest(adj, st, v, if st.disc[root[v]] < st.disc[root[w]] then root[v] else root[w], i + 1)
         else PartialOldest(adj, st, v, root[v], i + 1)
  {
    FoldStep(adj, st, path, v, root[v], i);
  }

  // ---- the search ----------------------------------------------------------------------------

  /** The search stands at `path`. */
  ghost predicate Searching(adj: Adjacency, vis: TarjanVisitor, color: ColorMap, path: seq<Frame>)
    reads vis, color
  {
    Invariant(adj, vis.View(color.Cells()), path) && vis.Clock()
  }

  lemma WhiteAfterGray(cells: seq<Color>, n: nat, v: nat)
    requires v < n <= |cells| && cells[v].White?
    ensures v in WhiteCells(cells, n) && WhiteCells(cells[v := Gray], n) == WhiteCells(cells, n) - {v}
  {
  }

  method EnterVertex(ghost adj: Adjacency, v: nat, vis: TarjanVisitor, color: ColorMap, ghost path: seq<Frame>)
    requires Searching(adj, vis, color, path) && CanDiscover(adj, vis.View(color.Cells()), path, v)
    modifies vis, color
    ensures Searching(adj, vis, color, Entered(path, v))
    ensures v in old(WhiteCells(color.Cells(), |adj|))
    ensures WhiteCells(color.Cells(), |adj|) == old(WhiteCells(color.Cells(), |adj|)) - {v}
  {
    ghost var st := vis.View(color.Cells());
    DiscoverKeepsInvariant(adj, st, path, v);
    WhiteAfterGray(st.color, |adj|, v);
    color.PutFast(v, Gray);
    vis.DiscoverVertex(v, if path == [] then v else path[|path| - 1].u);
    assert vis.View(color.Cells()) == Discover(adj, st, path, v);
  }

  method LeaveVertex<V, P>(g: BaseGraph<V, P>, ghost adj: Adjacency, v: nat, vis: TarjanVisitor, color: ColorMap,
                           ghost path: seq<Frame>)
    requires adj == Targets(g.slots) && Searching(adj, vis, color, path)
    requires FinishReady(adj, vis.View(color.Cells()), path, v)
    modifies vis, color
    ensures Searching(adj, vis, color, Closed(path))
    ensures WhiteCells(color.Cells(), |adj|) == old(WhiteCells(color.Cells(), |adj|))
  {
    ghost var st := vis.View(color.Cells());
    ghost var k := FindOnStack(adj, st, path, v);
    color.PutFast(v, Black);
    ghost var r := vis.FinishVertex(g, adj, v, st.color, path, k);
    FinishKeepsInvariant(adj, st, path, v, r, k);
  }

  /** What the loops need from the invariant: the innermost frame is in range. */
  lemma FrameInRange(adj: Adjacency, st: State, stack: seq<Frame>, u: nat, ei: nat)
    requires Invariant(adj, st, stack + [Frame(u, ei)])
    ensures u < |adj| && ei <= |adj[u]| && |adj| <= |st.color|
    ensures ei < |adj[u]| ==> adj[u][ei] < |adj|
    ensures ei == |adj[u]| ==> FinishReady(adj, st, stack + [Frame(u, ei)], u)
    ensures ei < |adj[u]| && st.color[adj[u][ei]].White? ==>
              CanDiscover(adj, st, stack + [Frame(u, ei)], adj[u][ei])
    ensures ei < |adj[u]| && !st.color[adj[u][ei]].White? ==> Invariant(adj, st, stack + [Frame(u, ei + 1)])
  {
    var path := stack + [Frame(u, ei)];
    assert path[|path| - 1] == Frame(u, ei);
    if ei < |adj[u]| && !st.color[adj[u][ei]].White? {
      AdvanceKeepsInvariant(adj, st, path);
      assert Advanced(path) == stack + [Frame(u, ei + 1)];
    }
  }

  lemma EnteredFrames(frames: seq<Frame>, u: nat, ei: nat, v: nat)
    ensures Entered(frames + [Frame(u, ei)], v) == frames + [Frame(u, ei + 1)] + [Frame(v, 0)]
  {
  }

  /** One round of the inner loop: examine edge `ei` of `u` and step into a white target. */
  method ExamineEdge<V, P>(g: BaseGraph<V, P>, ghost adj: Adjacency, frames: seq<Frame>, u: nat, ei: nat,
                           vis: TarjanVisitor, color: ColorMap)
    returns (stack: seq<Frame>, u': nat, ei': nat)
    requires adj == Targets(g.slots) && Searching(adj, vis, color, frames + [Frame(u, ei)])
    requires u < |adj| && ei < |adj[u]|
    modifies vis, color
    ensures Searching(adj, vis, color, stack + [Frame(u', ei')])
    ensures u' < |adj| && ei' <= |adj[u']|
    ensures var now, was := WhiteCells(color.Cells(), |adj|), old(WhiteCells(color.Cells(), |adj|));
            now < was || (now == was && stack == frames && u' == u && ei' == ei + 1)
  {
    FrameInRange(adj, vis.View(color.Cells()), frames, u, ei);
    var v := g.slots[u].outEdges[ei].target;
    var vColor := color.Get(v);
    if vColor == White {
      ghost var path := frames + [Frame(u, ei)];
      EnterVertex(adj, v, vis, color, path);
      stack, u', ei' := frames + [Frame(u, ei + 1)], v, 0;
      EnteredFrames(frames, u, ei, v);
    } else {
      stack, u', ei' := frames, u, ei + 1;
    }
  }

  /** Follows tree edges from the innermost frame until it stands at a vertex with no edge left. */
  method Descend<V, P>(g: BaseGraph<V, P>, ghost adj: Adjacency, frames: seq<Frame>, vis: TarjanVisitor,
                       color: ColorMap)
    returns (stack: seq<Frame>, u: nat)
    requires adj == Targets(g.slots) && frames != [] && Searching(adj, vis, color, frames)
    modifies vis, color
    ensures u < |adj| && Searching(adj, vis, color, stack + [Frame(u, |adj[u]|)])
    ensures var now, was := WhiteCells(color.Cells(), |adj|), old(WhiteCells(color.Cells(), |adj|));
            now < was || (now == was && |stack| < |frames|)
  {
    var ei: nat;
    u, ei := frames[|frames| - 1].u, frames[|frames| - 1].ei;
    stack := frames[..|frames| - 1];
    assert frames == stack + [Frame(u, ei)];
    FrameInRange(adj, vis.View(color.Cells()), stack, u, ei);
    while ei != |g.slots[u].outEdges|
      invariant Searching(adj, vis, color, stack + [Frame(u, ei)])
      invariant u < |adj| && ei <= |adj[u]|
      invariant var now, was := WhiteCells(color.Cells(), |adj|), old(WhiteCells(color.Cells(), |adj|));
                now < was || (now == was && |stack| < |frames|)
      decreases WhiteCells(color.Cells(), |adj|), |adj[u]| - ei
    {
      stack, u, ei := ExamineEdge(g, adj, stack, u, ei, vis, color);
    }
  }

  /** One search tree: `depth_first_visit_impl`. */
  method DepthFirstVisit<V, P>(g: BaseGraph<V, P>, ghost adj: Adjacency, start: nat, vis: TarjanVisitor,
                               color: ColorMap)
    requires adj == Targets(g.slots) && Searching(adj, vis, color, [])
    requires start < |adj| && color.Cells()[start].White?
    modifies vis, color
    ensures Searching(adj, vis, color, [])
    ensures WhiteCells(color.Cells(), |adj|) <= old(WhiteCells(color.Cells(), |adj|)) - {start}
  {
    EnterVertex(adj, start, vis, color, []);
    var stack := [Frame(start, 0)];
    ghost var before := old(WhiteCells(color.Cells(), |adj|)) - {start};
    while stack != []
      invariant Searching(adj, vis, color, stack)
      invariant WhiteCells(color.Cells(), |adj|) <= before
      decreases WhiteCells(color.Cells(), |adj|), |stack|
    {
      var rest, u := Descend(g, adj, stack, vis, color);
      ghost var path := rest + [Frame(u, |adj[u]|)];
      FrameInRange(adj, vis.View(color.Cells()), rest, u, |adj[u]|);
      LeaveVertex(g, adj, u, vis, color, path);
      assert Closed(path) == rest;
      stack := rest;
    }
  }

  // ---- the whole search and its result -------------------------------------------------------

  /** Component numbers run from 0 to `total - 1`, name exactly the classes of mutually reachable
      vertices, and never increase along an edge. */
  ghost predicate SccNumbering(adj: Adjacency, comp: seq<int>, total: nat) {
    && |comp| >= |adj|
    && (forall v :: 0 <= v < |adj| ==> 0 <= comp[v] < total)
    && (forall k :: 0 <= k < total ==> Used(adj, comp, k))
    && (forall u: nat, v: nat :: u < |adj| && v < |adj| ==>
          (comp[u] == comp[v] <==> Reach(Edges(adj), u, v) && Reach(Edges(adj), v, u)))
    && (forall u: nat, v: nat :: u < |adj| && v < |adj| && Reach(Edges(adj), u, v) ==> comp[v] <= comp[u])
  }

  ghost predicate Used(adj: Adjacency, comp: seq<int>, k: int)
    requires |comp| >= |adj|
  {
    exists v :: 0 <= v < |adj| && comp[v] == k
  }

  /** Every vertex occurs exactly once. */
  ghost predicate Enumerates(s: seq<nat>, n: nat) {
    && |s| == n && Distinct(s) && (forall i :: 0 <= i < |s| ==> s[i] < n)
    && (forall v: nat :: v < n ==> v in s)
  }

  ghost function Fresh(cells: seq<Color>, comp: seq<int>, root: seq<nat>, disc: seq<int>, par: seq<nat>): State {
    State(cells, 0, comp, root, disc, [], [], [], par)
  }

  lemma FreshInvariant(adj: Adjacency, st: State)
    requires WellFormed(adj) && |adj| <= UNASSIGNED
    requires st == Fresh(st.color, st.comp, st.root, st.disc, st.par)
    requires |st.color| >= |adj| && |st.comp| >= |adj| && |st.root| >= |adj| && |st.disc| >= |adj| && |st.par| >= |adj|
    requires forall v :: 0 <= v < |adj| ==> st.color[v] == White
    ensures Invariant(adj, st, [])
  {
    assert forall v :: 0 <= v < |adj| ==> !Seen(adj, st, v);
  }

  /** Once no vertex is white and no frame is open, every vertex is assigned. */
  lemma AllAssigned(adj: Adjacency, st: State, v: nat)
    requires Invariant(adj, st, []) && (forall v :: 0 <= v < |adj| ==> !st.color[v].White?) && v < |adj|
    ensures Assigned(adj, st, v) && st.color[v].Black?
  {
    assert OnStack(adj, st, v) ==> ReachesGray(adj, st, v);
  }

  lemma NumbersFallAlongWalks(adj: Adjacency, st: State, u: nat, v: nat)
    requires Invariant(adj, st, []) && (forall v :: 0 <= v < |adj| ==> !st.color[v].White?)
    requires u < |adj| && v < |adj| && Reach(Edges(adj), u, v)
    ensures st.comp[v] <= st.comp[u]
  {
    var S := iset x: nat | x < |adj| && st.comp[x] <= st.comp[u];
    forall x, y | x in S && (x, y) in Edges(adj)
      ensures y in S
    {
      AllAssigned(adj, st, x);
      var i :| 0 <= i < |adj[x]| && adj[x][i] == y;
    }
    ReachStaysInClosedSet(Edges(adj), S, u, v);
  }

  lemma FinalNumbering(adj: Adjacency, st: State)
    requires Invariant(adj, st, []) && (forall v :: 0 <= v < |adj| ==> !st.color[v].White?)
    ensures SccNumbering(adj, st.comp, st.comps)
  {
    forall v | 0 <= v < |adj|
      ensures 0 <= st.comp[v] < st.comps
    {
      AllAssigned(adj, st, v);
    }
    forall k | 0 <= k < st.comps
      ensures Used(adj, st.comp, k)
    {
      assert Named(adj, st, k);
    }
    forall u: nat, v: nat | u < |adj| && v < |adj| && Reach(Edges(adj), u, v)
      ensures st.comp[v] <= st.comp[u]
    {
      NumbersFallAlongWalks(adj, st, u, v);
    }
    forall u: nat, v: nat | u < |adj| && v < |adj| && st.comp[u] == st.comp[v]
      ensures Reach(Edges(adj), u, v) && Reach(Edges(adj), v, u)
    {
      AllAssigned(adj, st, u);
      AllAssigned(adj, st, v);
    }
  }

  lemma FinalEvents(adj: Adjacency, st: State)
    requires Invariant(adj, st, []) && (forall v :: 0 <= v < |adj| ==> !st.color[v].White?)
    ensures Enumerates(st.order, |adj|) && Enumerates(st.done, |adj|)
  {
    forall v: nat | v < |adj|
      ensures v in st.order && v in st.done
    {
      AllAssigned(adj, st, v);
      assert Seen(adj, st, v);
    }
    CoversAll(st.order, |adj|);
    CoversAll(st.done, |adj|);
  }

  lemma {:induction false} CoversAll(s: seq<nat>, n: nat)
    requires Distinct(s) && (forall i :: 0 <= i < |s| ==> s[i] < n) && (forall v: nat :: v < n ==> v in s)
    ensures |s| == n
  {
    DistinctFits(s, n);
    if n > 0 {
      assert n - 1 in s;
      var i :| 0 <= i < |s| && s[i] == n - 1;
      var t := s[..i] + s[i + 1..];
      forall v: nat | v < n - 1
        ensures v in t
      {
        assert v in s;
        var j :| 0 <= j < |s| && s[j] == v;
        assert t[if j < i then j else j - 1] == v;
      }
      CoversAll(t, n - 1);
    }
  }

  lemma TargetsWellFormed<V, P>(g: Slots<V, P>)
    requires Linked(g)
    ensures WellFormed(Targets(g))
  {
  }

  method StartSearch(ghost adj: Adjacency, vis: TarjanVisitor, color: ColorMap)
    requires WellFormed(adj) && |adj| <= UNASSIGNED && vis.IsFresh(|adj|) && |color.Cells()| >= |adj|
    modifies color
    ensures Searching(adj, vis, color, [])
    ensures forall v :: 0 <= v < |color.Cells()| ==> color.Cells()[v].White?
  {
    color.Init();
    FreshInvariant(adj, vis.View(color.Cells()));
  }

  method VisitIfWhite<V, P>(g: BaseGraph<V, P>, ghost adj: Adjacency, u: nat, vis: TarjanVisitor, color: ColorMap)
    requires adj == Targets(g.slots) && Searching(adj, vis, color, []) && u < |adj|
    modifies vis, color
    ensures Searching(adj, vis, color, [])
    ensures WhiteCells(color.Cells(), |adj|) <= old(WhiteCells(color.Cells(), |adj|)) - {u}
  {
    var c := color.Get(u);
    if c == White {
      DepthFirstVisit(g, adj, u, vis, color);
    }
  }

  method VisitAll<V, P>(g: BaseGraph<V, P>, ghost adj: Adjacency, vis: TarjanVisitor, color: ColorMap)
    requires adj == Targets(g.slots) && Searching(adj, vis, color, [])
    modifies vis, color
    ensures Searching(adj, vis, color, []) && WhiteCells(color.Cells(), |adj|) == {}
  {
    var u := 0;
    while u < |g.slots|
      invariant 0 <= u <= |adj| && Searching(adj, vis, color, [])
      invariant WhiteCells(color.Cells(), |adj|) <= From(u, |adj|)
    {
      VisitIfWhite(g, adj, u, vis, color);
      assert From(u, |adj|) - {u} == From(u + 1, |adj|);
      u := u + 1;
    }
  }

  ghost function From(u: nat, n: nat): (r: set<nat>)
    ensures forall v: nat :: v in r <==> u <= v < n
    decreases n - u
  {
    if u >= n then {} else {u} + From(u + 1, n)
  }

  /** The search from `source` (or nowhere, for -1) and then from every vertex still white. */
  method DepthFirstSearch<V, P>(g: BaseGraph<V, P>, ghost adj: Adjacency, vis: TarjanVisitor, source: int,
                                color: ColorMap)
    requires Linked(g.slots) && adj == Targets(g.slots) && |adj| <= UNASSIGNED
    requires -1 <= source < |g.slots| && vis.IsFresh(|adj|) && |color.Cells()| >= |adj|
    modifies vis, color
    ensures Searching(adj, vis, color, []) && WhiteCells(color.Cells(), |adj|) == {}
  {
    TargetsWellFormed(g.slots);
    StartSearch(adj, vis, color);
    if source != -1 && source != (if g.size == 0 then -1 else 0) {
      DepthFirstVisit(g, adj, source, vis, color);
    }
    VisitAll(g, adj, vis, color);
  }

  method ComputeComponents<V, P>(g: BaseGraph<V, P>)
    returns (total: nat, comp: seq<int>, ghost order: seq<nat>, ghost done: seq<nat>)
    requires g.Valid() && |g.slots| <= UNASSIGNED
    ensures SccNumbering(Targets(g.slots), comp, total)
    ensures Enumerates(order, |g.slots|) && Enumerates(done, |g.slots|)
  {
    ghost var adj := Targets(g.slots);
    var vis := new TarjanVisitor(|g.slots|);
    var color := new ColorMap(|g.slots|);
    DepthFirstSearch(g, adj, vis, -1, color);
    ghost var st := vis.View(color.Cells());
    forall v | 0 <= v < |adj|
      ensures !st.color[v].White?
    {
      assert v !in WhiteCells(color.Cells(), |adj|);
    }
    FinalNumbering(adj, st);
    FinalEvents(adj, st);
    return vis.c, vis.comp, vis.order, vis.done;
  }
}
