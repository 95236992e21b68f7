/** The state of Tarjan's visitor inside the iterative depth-first search, and the invariant the
    search keeps: which vertices are mutually reachable, which component numbers are final, and
    what the recorded roots mean. Everything here is about values; StrongComponents.dfy runs the
    loops. */
module Tarjan {
  import opened Walks
  import opened Colors

  /** The component number of a discovered vertex whose component is not final yet
      (the largest `long`). */
  const UNASSIGNED: int := 0x7fff_ffff_ffff_ffff

  /** A suspended vertex and the index of the next out-edge to examine. */
  datatype Frame = Frame(u: nat, ei: nat)

  /** `order` and `done` list the vertices in the order of their discover and finish events and
      `par` holds tree parents: these three are history that the search never reads. The open
      frames, outermost first, are kept apart as `path`. */
  datatype State = State(
    color: seq<Color>, comps: nat, comp: seq<int>, root: seq<nat>,
    disc: seq<int>, stack: seq<nat>, order: seq<nat>, done: seq<nat>, par: seq<nat>)

  type Adjacency = seq<seq<nat>>

  ghost predicate WellFormed(adj: Adjacency) {
    forall u, i :: 0 <= u < |adj| && 0 <= i < |adj[u]| ==> adj[u][i] < |adj|
  }

  ghost function Edges(adj: Adjacency): Rel {
    iset e: (nat, nat) | e.0 < |adj| && e.1 in adj[e.0]
  }

  ghost predicate Sized(adj: Adjacency, st: State) {
    && |st.color| >= |adj| && |st.comp| >= |adj| && |st.root| >= |adj|
    && |st.disc| >= |adj| && |st.par| >= |adj|
    && (forall i :: 0 <= i < |st.stack| ==> st.stack[i] < |adj|)
    && (forall i :: 0 <= i < |st.order| ==> st.order[i] < |adj|)
    && (forall i :: 0 <= i < |st.done| ==> st.done[i] < |adj|)
    && (forall v :: 0 <= v < |adj| ==> !st.color[v].Green?)
  }

  ghost predicate PathSized(adj: Adjacency, path: seq<Frame>) {
    && (forall i :: 0 <= i < |path| ==> path[i].u < |adj|)
    && (forall i :: 0 <= i < |path| ==> path[i].ei <= |adj[path[i].u]|)
  }

  ghost predicate Seen(adj: Adjacency, st: State, v: int)
    requires Sized(adj, st)
  {
    0 <= v < |adj| && !st.color[v].White?
  }

  ghost predicate IsGray(adj: Adjacency, st: State, v: int)
    requires Sized(adj, st)
  {
    0 <= v < |adj| && st.color[v].Gray?
  }

  ghost predicate OnStack(adj: Adjacency, st: State, v: int)
    requires Sized(adj, st)
  {
    Seen(adj, st, v) && st.comp[v] == UNASSIGNED
  }

  ghost predicate Assigned(adj: Adjacency, st: State, v: int)
    requires Sized(adj, st)
  {
    Seen(adj, st, v) && st.comp[v] != UNASSIGNED
  }

  /** Discovery times number the discover events. */
  ghost predicate OrderOk(adj: Adjacency, st: State)
    requires Sized(adj, st)
  {
    && (forall i :: 0 <= i < |st.order| ==> Seen(adj, st, st.order[i]) && st.disc[st.order[i]] == i)
    && (forall v :: Seen(adj, st, v) ==> 0 <= st.disc[v] < |st.order| && st.order[st.disc[v]] == v)
  }

  /** Finish events name exactly the black vertices, each once. */
  ghost predicate DoneOk(adj: Adjacency, st: State)
    requires Sized(adj, st)
  {
    && (forall i :: 0 <= i < |st.done| ==> st.color[st.done[i]].Black?)
    && (forall i, j :: 0 <= i < j < |st.done| ==> st.done[i] != st.done[j])
    && (forall v :: 0 <= v < |adj| && st.color[v].Black? ==> v in st.done)
    && st.comps <= |st.done|
  }

  /** The open frames are exactly the gray vertices, in order of discovery. */
  ghost predicate PathOk(adj: Adjacency, st: State, path: seq<Frame>)
    requires Sized(adj, st)
  {
    && PathSized(adj, path)
    && (forall i :: 0 <= i < |path| ==> st.color[path[i].u].Gray?)
    && (forall v :: IsGray(adj, st, v) ==> exists i :: 0 <= i < |path| && path[i].u == v)
    && (forall i, j :: 0 <= i < j < |path| ==> st.disc[path[i].u] < st.disc[path[j].u])
    && (forall v :: IsGray(adj, st, v) ==> st.comp[v] == UNASSIGNED)
  }

  /** Examined edges lead to discovered vertices. */
  ghost predicate ExaminedOk(adj: Adjacency, st: State, path: seq<Frame>)
    requires Sized(adj, st)
  {
    && PathSized(adj, path)
    && (forall v, i :: 0 <= v < |adj| && st.color[v].Black? && 0 <= i < |adj[v]| ==>
          Seen(adj, st, adj[v][i]))
    && (forall i, k :: 0 <= i < |path| && 0 <= k < path[i].ei ==>
          Seen(adj, st, adj[path[i].u][k]))
  }

  ghost predicate Named(adj: Adjacency, st: State, k: int)
    requires Sized(adj, st)
  {
    exists v :: Assigned(adj, st, v) && st.comp[v] == k
  }

  /** Final component numbers never increase along an edge. */
  ghost predicate CompOk(adj: Adjacency, st: State)
    requires Sized(adj, st)
  {
    && (forall v :: Assigned(adj, st, v) ==> st.color[v].Black? && 0 <= st.comp[v] < st.comps)
    && (forall v, i :: Assigned(adj, st, v) && 0 <= i < |adj[v]| ==>
          Assigned(adj, st, adj[v][i]) && st.comp[adj[v][i]] <= st.comp[v])
    && (forall k :: 0 <= k < st.comps ==> Named(adj, st, k))
  }

  /** Vertices with the same final number reach each other. */
  ghost predicate SccOk(adj: Adjacency, st: State)
    requires Sized(adj, st)
  {
    forall u, v :: Assigned(adj, st, u) && Assigned(adj, st, v) && st.comp[u] == st.comp[v] ==>
      Reach(Edges(adj), u, v)
  }

  ghost predicate StackOk(adj: Adjacency, st: State)
    requires Sized(adj, st)
  {
    && (forall i :: 0 <= i < |st.stack| ==> OnStack(adj, st, st.stack[i]))
    && (forall v :: OnStack(adj, st, v) ==> v in st.stack)
    && (forall i, j :: 0 <= i < j < |st.stack| ==> st.disc[st.stack[i]] < st.disc[st.stack[j]])
  }

  /** A gray vertex reaches every stacked vertex discovered after it. */
  ghost predicate DownOk(adj: Adjacency, st: State)
    requires Sized(adj, st)
  {
    forall x, y :: IsGray(adj, st, x) && OnStack(adj, st, y) && st.disc[x] <= st.disc[y] ==>
      Reach(Edges(adj), x, y)
  }

  ghost predicate ReachesGray(adj: Adjacency, st: State, y: nat)
    requires Sized(adj, st) && y < |adj|
  {
    exists x :: IsGray(adj, st, x) && st.disc[x] <= st.disc[y] && Reach(Edges(adj), y, x)
  }

  /** Every stacked vertex reaches a gray vertex discovered no later. */
  ghost predicate UpOk(adj: Adjacency, st: State)
    requires Sized(adj, st)
  {
    forall y {:trigger ReachesGray(adj, st, y)} :: OnStack(adj, st, y) ==> ReachesGray(adj, st, y)
  }

  /** What the recorded root of a stacked vertex means. */
  ghost predicate RootMeans(adj: Adjacency, st: State, y: nat)
    requires Sized(adj, st) && y < |adj|
  {
    var r := st.root[y];
    && OnStack(adj, st, r) && Reach(Edges(adj), y, r)
    && (st.color[y].Gray? ==> r == y)
    && (st.color[y].Black? ==>
          && st.disc[r] < st.disc[y]
          && forall i :: 0 <= i < |adj[y]| && OnStack(adj, st, adj[y][i]) ==> st.disc[r] <= st.disc[adj[y][i]])
  }

  ghost predicate RootOk(adj: Adjacency, st: State)
    requires Sized(adj, st)
  {
    forall y {:trigger RootMeans(adj, st, y)} :: OnStack(adj, st, y) ==> RootMeans(adj, st, y)
  }

  /** The tree parent of a stacked vertex that is not the first one on the stack. */
  ghost predicate ParentOk(adj: Adjacency, st: State, y: nat)
    requires Sized(adj, st) && y < |adj|
  {
    var q := st.par[y];
    && OnStack(adj, st, q) && y in adj[q] && st.disc[q] < st.disc[y]
    && (st.color[q].Black? ==>
          && st.color[y].Black? && st.root[q] < |adj| && st.root[y] < |adj|
          && st.disc[st.root[q]] <= st.disc[st.root[y]])
    && (forall x :: IsGray(adj, st, x) && st.disc[x] < st.disc[y] ==> st.disc[x] <= st.disc[q])
  }

  ghost predicate TreeOk(adj: Adjacency, st: State)
    requires Sized(adj, st)
  {
    forall y {:trigger ParentOk(adj, st, y)} ::
      OnStack(adj, st, y) && |st.stack| > 0 && y != st.stack[0] ==> ParentOk(adj, st, y)
  }

  ghost predicate Invariant(adj: Adjacency, st: State, path: seq<Frame>) {
    && WellFormed(adj) && |adj| <= UNASSIGNED
    && Sized(adj, st) && OrderOk(adj, st) && DoneOk(adj, st) && PathOk(adj, st, path)
    && ExaminedOk(adj, st, path) && CompOk(adj, st) && SccOk(adj, st) && StackOk(adj, st)
    && DownOk(adj, st) && UpOk(adj, st) && RootOk(adj, st) && TreeOk(adj, st)
  }

  // ---- the three steps of the search -------------------------------------------------------

  /** The frame list after a white `v` has been discovered from the innermost frame. */
  function Entered(path: seq<Frame>, v: nat): seq<Frame> {
    if path == [] then [Frame(v, 0)]
    else path[..|path| - 1] + [Frame(path[|path| - 1].u, path[|path| - 1].ei + 1), Frame(v, 0)]
  }

  /** `discover_vertex` together with the colour and frame updates around it. */
  ghost function Discover(adj: Adjacency, st: State, path: seq<Frame>, v: nat): State
    requires Sized(adj, st) && v < |adj|
  {
    st.(color := st.color[v := Gray], comp := st.comp[v := UNASSIGNED], root := st.root[v := v],
        disc := st.disc[v := |st.order|], stack := st.stack + [v], order := st.order + [v],
        par := st.par[v := if path == [] then v else path[|path| - 1].u])
  }

  ghost predicate CanDiscover(adj: Adjacency, st: State, path: seq<Frame>, v: nat)
    requires Sized(adj, st)
  {
    && PathSized(adj, path) && v < |adj| && st.color[v].White?
    && (path != [] ==>
          var f := path[|path| - 1]; f.ei < |adj[f.u]| && adj[f.u][f.ei] == v)
  }

  lemma DiscoverSized(adj: Adjacency, st: State, path: seq<Frame>, v: nat)
    requires Sized(adj, st) && CanDiscover(adj, st, path, v)
    ensures Sized(adj, Discover(adj, st, path, v)) && PathSized(adj, Entered(path, v))
  {
  }

  lemma DiscoverOrder(adj: Adjacency, st: State, path: seq<Frame>, v: nat)
    requires Sized(adj, st) && CanDiscover(adj, st, path, v) && OrderOk(adj, st) && DoneOk(adj, st)
    ensures var t := Discover(adj, st, path, v); Sized(adj, t) && OrderOk(adj, t) && DoneOk(adj, t)
  {
    DiscoverSized(adj, st, path, v);
  }

  lemma EnteredVertices(path: seq<Frame>, v: nat)
    ensures |Entered(path, v)| == |path| + 1 && Entered(path, v)[|path|] == Frame(v, 0)
    ensures forall i :: 0 <= i < |path| ==> Entered(path, v)[i].u == path[i].u
  {
  }

  lemma DiscoverPath(adj: Adjacency, st: State, path: seq<Frame>, v: nat)
    requires Sized(adj, st) && CanDiscover(adj, st, path, v) && OrderOk(adj, st) && PathOk(adj, st, path)
    ensures var t := Discover(adj, st, path, v); Sized(adj, t) && PathOk(adj, t, Entered(path, v))
  {
    DiscoverSized(adj, st, path, v);
    EnteredVertices(path, v);
    var t, next := Discover(adj, st, path, v), Entered(path, v);
    forall x | IsGray(adj, t, x)
      ensures exists i :: 0 <= i < |next| && next[i].u == x
    {
      if x == v {
        assert next[|path|].u == v;
      } else {
        assert IsGray(adj, st, x);
        var i :| 0 <= i < |path| && path[i].u == x;
        assert next[i].u == x;
      }
    }
    forall i, j | 0 <= i < j < |next|
      ensures t.disc[next[i].u] < t.disc[next[j].u]
    {
      assert next[i].u == path[i].u;
      assert Seen(adj, st, path[i].u);
    }
  }

  lemma DiscoverExamined(adj: Adjacency, st: State, path: seq<Frame>, v: nat)
    requires Sized(adj, st) && CanDiscover(adj, st, path, v) && ExaminedOk(adj, st, path)
    ensures var t := Discover(adj, st, path, v); Sized(adj, t) && ExaminedOk(adj, t, Entered(path, v))
  {
    DiscoverSized(adj, st, path, v);
  }

  lemma DiscoverComp(adj: Adjacency, st: State, path: seq<Frame>, v: nat)
    requires Sized(adj, st) && CanDiscover(adj, st, path, v) && CompOk(adj, st)
    ensures var t := Discover(adj, st, path, v); Sized(adj, t) && CompOk(adj, t)
  {
    DiscoverSized(adj, st, path, v);
    var t := Discover(adj, st, path, v);
    forall k | 0 <= k < t.comps
      ensures Named(adj, t, k)
    {
      assert Named(adj, st, k);
      var x :| Assigned(adj, st, x) && st.comp[x] == k;
      assert Assigned(adj, t, x) && t.comp[x] == k;
    }
  }

  lemma DiscoverScc(adj: Adjacency, st: State, path: seq<Frame>, v: nat)
    requires Sized(adj, st) && CanDiscover(adj, st, path, v) && SccOk(adj, st) && StackOk(adj, st) && OrderOk(adj, st)
    ensures var t := Discover(adj, st, path, v); Sized(adj, t) && SccOk(adj, t) && StackOk(adj, t)
  {
    DiscoverSized(adj, st, path, v);
  }

  /** The innermost open frame holds the gray vertex discovered last. */
  lemma LastIsNewest(adj: Adjacency, st: State, path: seq<Frame>, x: nat)
    requires Sized(adj, st) && PathOk(adj, st, path) && IsGray(adj, st, x)
    ensures path != []
    ensures var u := path[|path| - 1].u; IsGray(adj, st, u) && OnStack(adj, st, u) && st.disc[x] <= st.disc[u]
  {
  }

  lemma DiscoverDown(adj: Adjacency, st: State, path: seq<Frame>, v: nat)
    requires Sized(adj, st) && CanDiscover(adj, st, path, v)
    requires OrderOk(adj, st) && PathOk(adj, st, path) && DownOk(adj, st)
    ensures var t := Discover(adj, st, path, v); Sized(adj, t) && DownOk(adj, t)
  {
    DiscoverSized(adj, st, path, v);
    var t := Discover(adj, st, path, v);
    forall x, y | IsGray(adj, t, x) && OnStack(adj, t, y) && t.disc[x] <= t.disc[y]
      ensures Reach(Edges(adj), x, y)
    {
      if y == v && x != v {
        LastIsNewest(adj, st, path, x);
        var u := path[|path| - 1].u;
        ReachStep(Edges(adj), u, v);
        ReachTrans(Edges(adj), x, u, v);
      } else if y == v {
        ReachSelf(Edges(adj), v);
      }
    }
  }

  lemma DiscoverUp(adj: Adjacency, st: State, path: seq<Frame>, v: nat)
    requires Sized(adj, st) && CanDiscover(adj, st, path, v) && UpOk(adj, st)
    ensures var t := Discover(adj, st, path, v); Sized(adj, t) && UpOk(adj, t)
  {
    DiscoverSized(adj, st, path, v);
    var t := Discover(adj, st, path, v);
    forall y | OnStack(adj, t, y)
      ensures ReachesGray(adj, t, y)
    {
      if y == v {
        ReachSelf(Edges(adj), v);
        assert IsGray(adj, t, v);
      } else {
        assert OnStack(adj, st, y) && ReachesGray(adj, st, y);
        var x :| IsGray(adj, st, x) && st.disc[x] <= st.disc[y] && Reach(Edges(adj), y, x);
        assert IsGray(adj, t, x);
      }
    }
  }

  lemma DiscoverRoot(adj: Adjacency, st: State, path: seq<Frame>, v: nat)
    requires Sized(adj, st) && CanDiscover(adj, st, path, v) && ExaminedOk(adj, st, path) && RootOk(adj, st)
    ensures var t := Discover(adj, st, path, v); Sized(adj, t) && RootOk(adj, t)
  {
    DiscoverSized(adj, st, path, v);
    ReachSelf(Edges(adj), v);
    var t := Discover(adj, st, path, v);
    forall y | OnStack(adj, t, y)
      ensures RootMeans(adj, t, y)
    {
      if y != v {
        assert OnStack(adj, st, y) && RootMeans(adj, st, y);
      }
    }
  }

  /** With no open frame the stack is empty: each search tree is fully assigned when it ends. */
  lemma StackNeedsPath(adj: Adjacency, st: State, path: seq<Frame>)
    requires Sized(adj, st) && PathOk(adj, st, path) && StackOk(adj, st) && UpOk(adj, st)
    ensures st.stack != [] ==> path != []
  {
    if st.stack != [] {
      assert OnStack(adj, st, st.stack[0]) && ReachesGray(adj, st, st.stack[0]);
    }
  }

  lemma DiscoverParent(adj: Adjacency, st: State, path: seq<Frame>, v: nat)
    requires Sized(adj, st) && CanDiscover(adj, st, path, v) && path != []
    requires OrderOk(adj, st) && PathOk(adj, st, path)
    ensures var t := Discover(adj, st, path, v); Sized(adj, t) && ParentOk(adj, t, v)
  {
    DiscoverSized(adj, st, path, v);
    var t := Discover(adj, st, path, v);
    var q := path[|path| - 1].u;
    LastIsNewest(adj, st, path, q);
    forall x | IsGray(adj, t, x) && t.disc[x] < t.disc[v]
      ensures t.disc[x] <= t.disc[q]
    {
      LastIsNewest(adj, st, path, x);
    }
  }

  lemma DiscoverKeepsParent(adj: Adjacency, st: State, path: seq<Frame>, v: nat, y: nat)
    requires Sized(adj, st) && CanDiscover(adj, st, path, v) && OrderOk(adj, st)
    requires OnStack(adj, st, y) && ParentOk(adj, st, y) && RootMeans(adj, st, y)
    requires OnStack(adj, st, st.par[y]) && RootMeans(adj, st, st.par[y])
    ensures var t := Discover(adj, st, path, v); Sized(adj, t) && ParentOk(adj, t, y)
  {
    DiscoverSized(adj, st, path, v);
  }

  lemma DiscoverTree(adj: Adjacency, st: State, path: seq<Frame>, v: nat)
    requires Sized(adj, st) && CanDiscover(adj, st, path, v)
    requires OrderOk(adj, st) && PathOk(adj, st, path) && StackOk(adj, st) && UpOk(adj, st) && RootOk(adj, st)
    requires TreeOk(adj, st)
    ensures var t := Discover(adj, st, path, v); Sized(adj, t) && TreeOk(adj, t)
  {
    DiscoverSized(adj, st, path, v);
    var t := Discover(adj, st, path, v);
    forall y | OnStack(adj, t, y) && |t.stack| > 0 && y != t.stack[0]
      ensures ParentOk(adj, t, y)
    {
      if y == v {
        StackNeedsPath(adj, st, path);
        DiscoverParent(adj, st, path, v);
      } else {
        assert OnStack(adj, st, y) && ParentOk(adj, st, y) && RootMeans(adj, st, y);
        assert RootMeans(adj, st, st.par[y]);
        DiscoverKeepsParent(adj, st, path, v, y);
      }
    }
  }

  lemma DiscoverKeepsInvariant(adj: Adjacency, st: State, path: seq<Frame>, v: nat)
    requires Invariant(adj, st, path) && CanDiscover(adj, st, path, v)
    ensures Invariant(adj, Discover(adj, st, path, v), Entered(path, v))
  {
    DiscoverOrder(adj, st, path, v);
    DiscoverPath(adj, st, path, v);
    DiscoverExamined(adj, st, path, v);
    DiscoverComp(adj, st, path, v);
    DiscoverScc(adj, st, path, v);
    DiscoverDown(adj, st, path, v);
    DiscoverUp(adj, st, path, v);
    DiscoverRoot(adj, st, path, v);
    DiscoverTree(adj, st, path, v);
  }

  /** The frame list after the innermost frame has moved past one edge. */
  function Advanced(path: seq<Frame>): seq<Frame>
    requires path != []
  {
    path[..|path| - 1] + [Frame(path[|path| - 1].u, path[|path| - 1].ei + 1)]
  }

  lemma AdvancePath(adj: Adjacency, st: State, path: seq<Frame>)
    requires Sized(adj, st) && PathOk(adj, st, path) && ExaminedOk(adj, st, path) && path != []
    requires var f := path[|path| - 1]; f.ei < |adj[f.u]| && Seen(adj, st, adj[f.u][f.ei])
    ensures PathOk(adj, st, Advanced(path)) && ExaminedOk(adj, st, Advanced(path))
  {
    var next := Advanced(path);
    forall v | IsGray(adj, st, v)
      ensures exists i :: 0 <= i < |next| && next[i].u == v
    {
      var i :| 0 <= i < |path| && path[i].u == v;
      assert next[i].u == v;
    }
  }

  lemma AdvanceKeepsInvariant(adj: Adjacency, st: State, path: seq<Frame>)
    requires Invariant(adj, st, path) && path != []
    requires var f := path[|path| - 1]; f.ei < |adj[f.u]| && Seen(adj, st, adj[f.u][f.ei])
    ensures Invariant(adj, st, Advanced(path))
  {
    AdvancePath(adj, st, path);
  }
}
