/** Finishing a vertex in Tarjan's search: either its root is older and it stays on the stack, or
    it is its own root and everything above it on the stack is one component. Both keep the
    invariant of Tarjan.dfy. */
module TarjanFinish {
  import opened Walks
  import opened Colors
  import opened Tarjan

  ghost predicate FinishReady(adj: Adjacency, st: State, path: seq<Frame>, v: nat)
    requires Sized(adj, st)
  {
    && PathOk(adj, st, path) && path != [] && v < |adj|
    && path[|path| - 1] == Frame(v, |adj[v]|)
  }

  function Closed(path: seq<Frame>): seq<Frame>
    requires path != []
  {
    path[..|path| - 1]
  }

  /** `r` is the oldest root among `v` itself and the stacked targets of its first `n` out-edges. */
  ghost predicate PartialOldest(adj: Adjacency, st: State, v: nat, r: nat, n: nat)
    requires Sized(adj, st) && v < |adj| && n <= |adj[v]|
  {
    && r < |adj| && st.disc[r] <= st.disc[v]
    && (r == v || exists i :: 0 <= i < n && OnStack(adj, st, adj[v][i]) && st.root[adj[v][i]] == r)
    && (forall i :: 0 <= i < n && OnStack(adj, st, adj[v][i]) ==>
          st.root[adj[v][i]] < |adj| && st.disc[r] <= st.disc[st.root[adj[v][i]]])
  }

  ghost predicate IsOldestRoot(adj: Adjacency, st: State, v: nat, r: nat)
    requires Sized(adj, st) && v < |adj|
  {
    PartialOldest(adj, st, v, r, |adj[v]|)
  }

  lemma OldestRootIsReached(adj: Adjacency, st: State, v: nat, r: nat)
    requires Sized(adj, st) && RootOk(adj, st) && OnStack(adj, st, v) && IsOldestRoot(adj, st, v, r)
    ensures OnStack(adj, st, r) && Reach(Edges(adj), v, r)
  {
    if r == v {
      ReachSelf(Edges(adj), v);
    } else {
      var i :| 0 <= i < |adj[v]| && OnStack(adj, st, adj[v][i]) && st.root[adj[v][i]] == r;
      var w := adj[v][i];
      assert RootMeans(adj, st, w);
      ReachStep(Edges(adj), v, w);
      ReachTrans(Edges(adj), v, w, r);
    }
  }

  lemma FirstOnStackIsOldest(adj: Adjacency, st: State, v: nat, y: nat)
    requires Sized(adj, st) && StackOk(adj, st) && OnStack(adj, st, v) && OnStack(adj, st, y)
    requires st.disc[v] < st.disc[y]
    ensures |st.stack| > 0 && y != st.stack[0]
  {
  }

  /** Everything above the last gray vertex hangs below it in the search tree, so the oldest root
      of that vertex is at least as old as theirs. */
  lemma OldestRootCoversSegment(adj: Adjacency, st: State, path: seq<Frame>, v: nat, r: nat, y: nat)
    requires Sized(adj, st) && OrderOk(adj, st) && FinishReady(adj, st, path, v)
    requires StackOk(adj, st) && TreeOk(adj, st) && IsOldestRoot(adj, st, v, r)
    requires OnStack(adj, st, y) && st.disc[v] < st.disc[y] && st.root[y] < |adj|
    ensures st.color[y].Black? && st.disc[r] <= st.disc[st.root[y]]
    decreases st.disc[y]
  {
    FirstOnStackIsOldest(adj, st, v, y);
    assert ParentOk(adj, st, y);
    var q := st.par[y];
    assert IsGray(adj, st, v);
    if q != v {
      assert st.disc[q] != st.disc[v];
      NewerIsBlack(adj, st, path, v, q);
      OldestRootCoversSegment(adj, st, path, v, r, q);
    }
    NewerIsBlack(adj, st, path, v, y);
  }

  lemma NewerIsBlack(adj: Adjacency, st: State, path: seq<Frame>, v: nat, y: nat)
    requires Sized(adj, st) && FinishReady(adj, st, path, v) && Seen(adj, st, y) && st.disc[v] < st.disc[y]
    ensures st.color[y].Black?
  {
    if IsGray(adj, st, y) {
      LastIsNewest(adj, st, path, y);
    }
  }

  /** No edge leaves the segment above `v` for a stacked vertex older than the oldest root. */
  lemma SegmentEdgesStayAboveRoot(adj: Adjacency, st: State, path: seq<Frame>, v: nat, r: nat, y: nat, i: nat)
    requires Sized(adj, st) && OrderOk(adj, st) && FinishReady(adj, st, path, v)
    requires StackOk(adj, st) && TreeOk(adj, st) && RootOk(adj, st) && IsOldestRoot(adj, st, v, r)
    requires OnStack(adj, st, y) && st.disc[v] <= st.disc[y]
    requires i < |adj[y]| && OnStack(adj, st, adj[y][i])
    ensures st.disc[r] <= st.disc[adj[y][i]]
  {
    assert RootMeans(adj, st, y) && RootMeans(adj, st, adj[y][i]);
    if y != v {
      assert st.disc[y] != st.disc[v];
      OldestRootCoversSegment(adj, st, path, v, r, y);
    }
  }

  // ---- the vertex keeps an older root and stays on the stack -------------------------------

  ghost function Stay(adj: Adjacency, st: State, v: nat, r: nat): State
    requires Sized(adj, st) && v < |adj|
  {
    st.(color := st.color[v := Black], done := st.done + [v], root := st.root[v := r])
  }

  lemma StayBasics(adj: Adjacency, st: State, path: seq<Frame>, v: nat, r: nat)
    requires Sized(adj, st) && FinishReady(adj, st, path, v)
    requires OrderOk(adj, st) && DoneOk(adj, st) && StackOk(adj, st) && SccOk(adj, st) && DownOk(adj, st)
    ensures var t := Stay(adj, st, v, r);
            && Sized(adj, t) && OrderOk(adj, t) && DoneOk(adj, t) && StackOk(adj, t) && SccOk(adj, t) && DownOk(adj, t)
  {
  }

  lemma FinishPath(adj: Adjacency, st: State, t: State, path: seq<Frame>, v: nat)
    requires Sized(adj, st) && FinishReady(adj, st, path, v) && ExaminedOk(adj, st, path)
    requires Sized(adj, t) && t.color == st.color[v := Black] && t.disc == st.disc
    requires forall x :: IsGray(adj, t, x) ==> t.comp[x] == st.comp[x]
    ensures PathOk(adj, t, Closed(path)) && ExaminedOk(adj, t, Closed(path))
  {
    forall x | IsGray(adj, t, x)
      ensures exists i :: 0 <= i < |Closed(path)| && Closed(path)[i].u == x
    {
      assert IsGray(adj, st, x);
      var i :| 0 <= i < |path| && path[i].u == x;
      assert Closed(path)[i].u == x;
    }
    forall k | 0 <= k < |adj[v]|
      ensures Seen(adj, t, adj[v][k])
    {
      assert Seen(adj, st, adj[path[|path| - 1].u][k]);
    }
  }

  lemma StayComp(adj: Adjacency, st: State, path: seq<Frame>, v: nat, r: nat)
    requires Sized(adj, st) && FinishReady(adj, st, path, v) && CompOk(adj, st)
    ensures var t := Stay(adj, st, v, r); Sized(adj, t) && CompOk(adj, t)
  {
    var t := Stay(adj, st, v, r);
    forall k | 0 <= k < t.comps
      ensures Named(adj, t, k)
    {
      assert Named(adj, st, k);
      var x :| Assigned(adj, st, x) && st.comp[x] == k;
      assert Assigned(adj, t, x) && t.comp[x] == k;
    }
  }

  /** When `v` turns black, what reached it still reaches the gray vertex that `v` reaches. */
  lemma StillReachesGray(adj: Adjacency, st: State, t: State, v: nat, x: nat, y: nat)
    requires Sized(adj, st) && Sized(adj, t) && v < |adj| && y < |adj| && t.disc == st.disc
    requires forall g {:trigger IsGray(adj, t, g)} :: IsGray(adj, st, g) && g != v ==> IsGray(adj, t, g)
    requires IsGray(adj, t, x) && st.disc[x] <= st.disc[v] && Reach(Edges(adj), v, x) && ReachesGray(adj, st, y)
    ensures ReachesGray(adj, t, y)
  {
    var g :| IsGray(adj, st, g) && st.disc[g] <= st.disc[y] && Reach(Edges(adj), y, g);
    if g == v {
      ReachTrans(Edges(adj), y, v, x);
    } else {
      assert IsGray(adj, t, g);
    }
  }

  lemma StayUp(adj: Adjacency, st: State, path: seq<Frame>, v: nat, r: nat)
    requires Sized(adj, st) && FinishReady(adj, st, path, v) && OrderOk(adj, st)
    requires UpOk(adj, st) && RootOk(adj, st) && IsOldestRoot(adj, st, v, r) && r != v
    ensures var t := Stay(adj, st, v, r); Sized(adj, t) && UpOk(adj, t)
  {
    var t := Stay(adj, st, v, r);
    OldestRootIsReached(adj, st, v, r);
    assert ReachesGray(adj, st, r);
    var x :| IsGray(adj, st, x) && st.disc[x] <= st.disc[r] && Reach(Edges(adj), r, x);
    assert st.disc[r] < st.disc[v];
    ReachTrans(Edges(adj), v, r, x);
    forall y | OnStack(adj, t, y)
      ensures ReachesGray(adj, t, y)
    {
      assert OnStack(adj, st, y) && ReachesGray(adj, st, y);
      StillReachesGray(adj, st, t, v, x, y);
    }
  }

  lemma StayRoot(adj: Adjacency, st: State, path: seq<Frame>, v: nat, r: nat)
    requires Sized(adj, st) && FinishReady(adj, st, path, v) && OrderOk(adj, st)
    requires RootOk(adj, st) && IsOldestRoot(adj, st, v, r) && r != v
    ensures var t := Stay(adj, st, v, r); Sized(adj, t) && RootOk(adj, t)
  {
    var t := Stay(adj, st, v, r);
    OldestRootIsReached(adj, st, v, r);
    forall y | OnStack(adj, t, y)
      ensures RootMeans(adj, t, y)
    {
      assert RootMeans(adj, st, y);
      if y == v {
        forall i | 0 <= i < |adj[v]| && OnStack(adj, t, adj[v][i])
          ensures t.disc[r] <= t.disc[adj[v][i]]
        {
          assert OnStack(adj, st, adj[v][i]);
          assert RootMeans(adj, st, adj[v][i]);
        }
      }
    }
  }

  lemma StayKeepsParent(adj: Adjacency, st: State, path: seq<Frame>, v: nat, r: nat, y: nat)
    requires Sized(adj, st) && FinishReady(adj, st, path, v) && IsOldestRoot(adj, st, v, r)
    requires OnStack(adj, st, y) && ParentOk(adj, st, y) && RootMeans(adj, st, y)
    ensures var t := Stay(adj, st, v, r); Sized(adj, t) && ParentOk(adj, t, y)
  {
    if st.par[y] == v {
      NewerIsBlack(adj, st, path, v, y);
    }
  }

  lemma StayTree(adj: Adjacency, st: State, path: seq<Frame>, v: nat, r: nat)
    requires Sized(adj, st) && FinishReady(adj, st, path, v) && OrderOk(adj, st)
    requires RootOk(adj, st) && TreeOk(adj, st) && IsOldestRoot(adj, st, v, r)
    ensures var t := Stay(adj, st, v, r); Sized(adj, t) && TreeOk(adj, t)
  {
    var t := Stay(adj, st, v, r);
    forall y | OnStack(adj, t, y) && |t.stack| > 0 && y != t.stack[0]
      ensures ParentOk(adj, t, y)
    {
      assert OnStack(adj, st, y);
      assert ParentOk(adj, st, y) && RootMeans(adj, st, y);
      StayKeepsParent(adj, st, path, v, r, y);
    }
  }

  lemma StayKeepsInvariant(adj: Adjacency, st: State, path: seq<Frame>, v: nat, r: nat)
    requires Invariant(adj, st, path) && FinishReady(adj, st, path, v)
    requires IsOldestRoot(adj, st, v, r) && r != v
    ensures Invariant(adj, Stay(adj, st, v, r), Closed(path))
  {
    StayBasics(adj, st, path, v, r);
    FinishPath(adj, st, Stay(adj, st, v, r), path, v);
    StayComp(adj, st, path, v, r);
    StayUp(adj, st, path, v, r);
    StayRoot(adj, st, path, v, r);
    StayTree(adj, st, path, v, r);
  }

  // ---- the vertex is its own root and closes a component -----------------------------------

  /** `values` with `x` stored for every vertex of `seg`. */
  function Marked<T>(values: seq<T>, seg: seq<nat>, x: T): (r: seq<T>)
    ensures |r| == |values|
    ensures forall i: nat :: i < |r| ==> r[i] == if i in seg then x else values[i]
  {
    seq(|values|, i requires 0 <= i < |values| => if i in seg then x else values[i])
  }

  ghost function Pop(adj: Adjacency, st: State, v: nat, k: nat): State
    requires Sized(adj, st) && v < |adj| && k < |st.stack|
  {
    st.(color := st.color[v := Black], done := st.done + [v],
        comp := Marked(st.comp, st.stack[k..], st.comps), root := Marked(st.root, st.stack[k..], v),
        comps := st.comps + 1, stack := st.stack[..k])
  }

  ghost predicate PopReady(adj: Adjacency, st: State, path: seq<Frame>, v: nat, k: nat)
    requires Sized(adj, st)
  {
    FinishReady(adj, st, path, v) && k < |st.stack| && st.stack[k] == v && st.comps < UNASSIGNED
  }

  lemma SegmentIsNewer(adj: Adjacency, st: State, k: nat, y: nat)
    requires Sized(adj, st) && StackOk(adj, st) && k < |st.stack|
    ensures y in st.stack[k..] <==> OnStack(adj, st, y) && st.disc[st.stack[k]] <= st.disc[y]
    ensures y in st.stack[..k] <==> OnStack(adj, st, y) && st.disc[y] < st.disc[st.stack[k]]
  {
  }

  /** What popping does to each vertex. */
  lemma PopEffect(adj: Adjacency, st: State, path: seq<Frame>, v: nat, k: nat, y: nat)
    requires Sized(adj, st) && StackOk(adj, st) && PopReady(adj, st, path, v, k) && y < |adj|
    ensures var t := Pop(adj, st, v, k);
      && Sized(adj, t)
      && (Seen(adj, t, y) <==> Seen(adj, st, y))
      && (OnStack(adj, t, y) <==> OnStack(adj, st, y) && st.disc[y] < st.disc[v])
      && (Assigned(adj, st, y) ==> Assigned(adj, t, y) && t.comp[y] == st.comp[y])
      && (OnStack(adj, st, y) && st.disc[v] <= st.disc[y] ==> Assigned(adj, t, y) && t.comp[y] == st.comps)
      && (OnStack(adj, t, y) ==> t.root[y] == st.root[y])
      && (Assigned(adj, t, y) ==> Assigned(adj, st, y) || (OnStack(adj, st, y) && st.disc[v] <= st.disc[y]))
      && (IsGray(adj, t, y) <==> IsGray(adj, st, y) && y != v)
  {
    SegmentIsNewer(adj, st, k, y);
  }

  lemma PopBasics(adj: Adjacency, st: State, path: seq<Frame>, v: nat, k: nat)
    requires Sized(adj, st) && PopReady(adj, st, path, v, k) && StackOk(adj, st)
    requires OrderOk(adj, st) && DoneOk(adj, st)
    ensures var t := Pop(adj, st, v, k); Sized(adj, t) && OrderOk(adj, t) && DoneOk(adj, t)
  {
    PopEffect(adj, st, path, v, k, v);
  }

  lemma PopStack(adj: Adjacency, st: State, path: seq<Frame>, v: nat, k: nat)
    requires Sized(adj, st) && PopReady(adj, st, path, v, k) && StackOk(adj, st)
    ensures var t := Pop(adj, st, v, k); Sized(adj, t) && StackOk(adj, t)
  {
    var t := Pop(adj, st, v, k);
    forall y | 0 <= y < |adj|
      ensures OnStack(adj, t, y) <==> y in t.stack
    {
      PopEffect(adj, st, path, v, k, y);
      SegmentIsNewer(adj, st, k, y);
    }
  }

  lemma PopNames(adj: Adjacency, st: State, path: seq<Frame>, v: nat, k: nat, c: nat)
    requires Sized(adj, st) && PopReady(adj, st, path, v, k) && StackOk(adj, st) && CompOk(adj, st)
    requires c <= st.comps
    ensures var t := Pop(adj, st, v, k); Sized(adj, t) && Named(adj, t, c)
  {
    var t := Pop(adj, st, v, k);
    if c < st.comps {
      assert Named(adj, st, c);
      var x :| Assigned(adj, st, x) && st.comp[x] == c;
      PopEffect(adj, st, path, v, k, x);
      assert Assigned(adj, t, x) && t.comp[x] == c;
    } else {
      PopEffect(adj, st, path, v, k, v);
      assert Assigned(adj, t, v) && t.comp[v] == c;
    }
  }

  lemma PopEdge(adj: Adjacency, st: State, path: seq<Frame>, v: nat, k: nat, y: nat, i: nat)
    requires Invariant(adj, st, path) && PopReady(adj, st, path, v, k) && IsOldestRoot(adj, st, v, v)
    requires Sized(adj, Pop(adj, st, v, k)) && Assigned(adj, Pop(adj, st, v, k), y) && i < |adj[y]|
    ensures var t := Pop(adj, st, v, k);
            Assigned(adj, t, adj[y][i]) && t.comp[adj[y][i]] <= t.comp[y]
  {
    var z := adj[y][i];
    PopEffect(adj, st, path, v, k, y);
    PopEffect(adj, st, path, v, k, z);
    if !Assigned(adj, st, y) {
      SegmentIsSeen(adj, st, path, v, y, i);
      if OnStack(adj, st, z) {
        SegmentEdgesStayAboveRoot(adj, st, path, v, v, y, i);
      }
    }
  }

  lemma SegmentIsSeen(adj: Adjacency, st: State, path: seq<Frame>, v: nat, y: nat, i: nat)
    requires Sized(adj, st) && FinishReady(adj, st, path, v) && ExaminedOk(adj, st, path) && OrderOk(adj, st)
    requires Seen(adj, st, y) && st.disc[v] <= st.disc[y] && i < |adj[y]|
    ensures Seen(adj, st, adj[y][i])
  {
    if y == v {
      assert Seen(adj, st, adj[path[|path| - 1].u][i]);
    } else {
      assert st.disc[y] != st.disc[v];
      NewerIsBlack(adj, st, path, v, y);
    }
  }

  lemma PopComp(adj: Adjacency, st: State, path: seq<Frame>, v: nat, k: nat)
    requires Invariant(adj, st, path) && PopReady(adj, st, path, v, k) && IsOldestRoot(adj, st, v, v)
    ensures var t := Pop(adj, st, v, k); Sized(adj, t) && CompOk(adj, t)
  {
    PopBasics(adj, st, path, v, k);
    var t := Pop(adj, st, v, k);
    forall y | Assigned(adj, t, y)
      ensures t.color[y].Black? && 0 <= t.comp[y] < t.comps
    {
      PopEffect(adj, st, path, v, k, y);
      if !Assigned(adj, st, y) && y != v {
        assert st.disc[y] != st.disc[v];
        NewerIsBlack(adj, st, path, v, y);
      }
    }
    forall y, i | Assigned(adj, t, y) && 0 <= i < |adj[y]|
      ensures Assigned(adj, t, adj[y][i]) && t.comp[adj[y][i]] <= t.comp[y]
    {
      PopEdge(adj, st, path, v, k, y, i);
    }
    forall c | 0 <= c < t.comps
      ensures Named(adj, t, c)
    {
      PopNames(adj, st, path, v, k, c);
    }
  }

  /** Everything on the stack reaches the last gray vertex. */
  lemma StackReachesLast(adj: Adjacency, st: State, path: seq<Frame>, v: nat, y: nat)
    requires Sized(adj, st) && FinishReady(adj, st, path, v) && UpOk(adj, st) && DownOk(adj, st)
    requires OnStack(adj, st, y)
    ensures Reach(Edges(adj), y, v)
  {
    assert ReachesGray(adj, st, y);
    var x :| IsGray(adj, st, x) && st.disc[x] <= st.disc[y] && Reach(Edges(adj), y, x);
    LastIsNewest(adj, st, path, x);
    ReachTrans(Edges(adj), y, x, v);
  }

  lemma PopScc(adj: Adjacency, st: State, path: seq<Frame>, v: nat, k: nat)
    requires Sized(adj, st) && PopReady(adj, st, path, v, k) && StackOk(adj, st)
    requires UpOk(adj, st) && DownOk(adj, st) && SccOk(adj, st) && CompOk(adj, st)
    ensures var t := Pop(adj, st, v, k); Sized(adj, t) && SccOk(adj, t)
  {
    PopEffect(adj, st, path, v, k, v);
    var t := Pop(adj, st, v, k);
    forall x, y | Assigned(adj, t, x) && Assigned(adj, t, y) && t.comp[x] == t.comp[y]
      ensures Reach(Edges(adj), x, y)
    {
      PopEffect(adj, st, path, v, k, x);
      PopEffect(adj, st, path, v, k, y);
      if !Assigned(adj, st, x) {
        StackReachesLast(adj, st, path, v, x);
        assert IsGray(adj, st, v) && OnStack(adj, st, y);
        ReachTrans(Edges(adj), x, v, y);
      }
    }
  }

  lemma PopDown(adj: Adjacency, st: State, path: seq<Frame>, v: nat, k: nat)
    requires Sized(adj, st) && PopReady(adj, st, path, v, k) && StackOk(adj, st) && DownOk(adj, st)
    ensures var t := Pop(adj, st, v, k); Sized(adj, t) && DownOk(adj, t)
  {
    PopEffect(adj, st, path, v, k, v);
    var t := Pop(adj, st, v, k);
    forall x, y | IsGray(adj, t, x) && OnStack(adj, t, y) && t.disc[x] <= t.disc[y]
      ensures Reach(Edges(adj), x, y)
    {
      PopEffect(adj, st, path, v, k, x);
      PopEffect(adj, st, path, v, k, y);
    }
  }

  lemma PopUp(adj: Adjacency, st: State, path: seq<Frame>, v: nat, k: nat)
    requires Sized(adj, st) && PopReady(adj, st, path, v, k) && StackOk(adj, st) && UpOk(adj, st)
    ensures var t := Pop(adj, st, v, k); Sized(adj, t) && UpOk(adj, t)
  {
    PopEffect(adj, st, path, v, k, v);
    var t := Pop(adj, st, v, k);
    forall y | OnStack(adj, t, y)
      ensures ReachesGray(adj, t, y)
    {
      PopEffect(adj, st, path, v, k, y);
      assert ReachesGray(adj, st, y);
      var x :| IsGray(adj, st, x) && st.disc[x] <= st.disc[y] && Reach(Edges(adj), y, x);
      assert IsGray(adj, t, x);
    }
  }

  lemma PopRoot(adj: Adjacency, st: State, path: seq<Frame>, v: nat, k: nat)
    requires Sized(adj, st) && PopReady(adj, st, path, v, k) && StackOk(adj, st) && RootOk(adj, st)
    ensures var t := Pop(adj, st, v, k); Sized(adj, t) && RootOk(adj, t)
  {
    PopEffect(adj, st, path, v, k, v);
    var t := Pop(adj, st, v, k);
    forall y | OnStack(adj, t, y)
      ensures RootMeans(adj, t, y)
    {
      PopEffect(adj, st, path, v, k, y);
      assert RootMeans(adj, st, y);
      PopEffect(adj, st, path, v, k, st.root[y]);
      forall i | 0 <= i < |adj[y]| && OnStack(adj, t, adj[y][i])
        ensures OnStack(adj, st, adj[y][i])
      {
        PopEffect(adj, st, path, v, k, adj[y][i]);
      }
    }
  }

  lemma PopKeepsParent(adj: Adjacency, st: State, path: seq<Frame>, v: nat, k: nat, y: nat)
    requires Sized(adj, st) && PopReady(adj, st, path, v, k) && StackOk(adj, st)
    requires OnStack(adj, st, y) && st.disc[y] < st.disc[v] && ParentOk(adj, st, y)
    ensures var t := Pop(adj, st, v, k); Sized(adj, t) && ParentOk(adj, t, y)
  {
    PopEffect(adj, st, path, v, k, y);
    PopEffect(adj, st, path, v, k, st.par[y]);
  }

  lemma PopTree(adj: Adjacency, st: State, path: seq<Frame>, v: nat, k: nat)
    requires Sized(adj, st) && PopReady(adj, st, path, v, k) && StackOk(adj, st) && TreeOk(adj, st)
    ensures var t := Pop(adj, st, v, k); Sized(adj, t) && TreeOk(adj, t)
  {
    PopEffect(adj, st, path, v, k, v);
    var t := Pop(adj, st, v, k);
    forall y | OnStack(adj, t, y) && |t.stack| > 0 && y != t.stack[0]
      ensures ParentOk(adj, t, y)
    {
      PopEffect(adj, st, path, v, k, y);
      assert ParentOk(adj, st, y);
      PopKeepsParent(adj, st, path, v, k, y);
    }
  }

  lemma PopKeepsInvariant(adj: Adjacency, st: State, path: seq<Frame>, v: nat, k: nat)
    requires Invariant(adj, st, path) && PopReady(adj, st, path, v, k) && IsOldestRoot(adj, st, v, v)
    ensures Invariant(adj, Pop(adj, st, v, k), Closed(path))
  {
    PopBasics(adj, st, path, v, k);
    var t := Pop(adj, st, v, k);
    forall x | IsGray(adj, t, x)
      ensures t.comp[x] == st.comp[x]
    {
      PopEffect(adj, st, path, v, k, x);
      LastIsNewest(adj, st, path, x);
      assert st.disc[x] != st.disc[v];
    }
    FinishPath(adj, st, t, path, v);
    PopStack(adj, st, path, v, k);
    PopComp(adj, st, path, v, k);
    PopScc(adj, st, path, v, k);
    PopDown(adj, st, path, v, k);
    PopUp(adj, st, path, v, k);
    PopRoot(adj, st, path, v, k);
    PopTree(adj, st, path, v, k);
  }
}
