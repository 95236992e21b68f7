/** The five operations of the graph class as functions on its state, what each keeps, and what a
    whole run of them keeps. */
module GraphOps {
  import opened Graphs

  /** The edge counter is an unsigned 64-bit word. It is only ever added to and subtracted from,
      so the state keeps it unreduced and `NumEdges` reads the word. */
  const WORD: nat := 0x1_0000_0000_0000_0000

  datatype GraphState<V, P> = GraphState(slots: Slots<V, P>, size: int, edgeSize: int, free: seq<nat>)

  function NumEdges<V, P>(st: GraphState<V, P>): nat {
    st.edgeSize % WORD
  }

  /** The free list holds exactly the removed vertices, each once, and they have no edges. */
  ghost predicate FreeOk<V, P>(st: GraphState<V, P>) {
    && (forall i :: 0 <= i < |st.free| ==> st.free[i] < |st.slots| && st.slots[st.free[i]].empty)
    && (forall i, j :: 0 <= i < j < |st.free| ==> st.free[i] != st.free[j])
    && (forall v :: 0 <= v < |st.slots| && st.slots[v].empty ==>
          v in st.free && st.slots[v].outEdges == [] && st.slots[v].inEdges == [])
    && st.size == |st.slots| - |st.free|
  }

  ghost predicate GraphOk<V, P>(st: GraphState<V, P>) {
    Mirrored(st.slots) && FreeOk(st)
  }

  predicate Live<V, P>(g: Slots<V, P>, v: nat) {
    v < |g| && !g[v].empty
  }

  // ---- edges -------------------------------------------------------------------------------

  function WithOut<V, P>(g: Slots<V, P>, v: nat, s: seq<Edge<P>>): (r: Slots<V, P>)
    requires v < |g|
  {
    g[v := g[v].(outEdges := s)]
  }

  function WithIn<V, P>(g: Slots<V, P>, v: nat, s: seq<Edge<P>>): (r: Slots<V, P>)
    requires v < |g|
  {
    g[v := g[v].(inEdges := s)]
  }

  predicate InRange<V, P>(g: Slots<V, P>, e: Edge<P>) {
    e.source < |g| && e.target < |g|
  }

  /** `e` appended to both lists it belongs to. */
  function Pushed<V, P>(g: Slots<V, P>, e: Edge<P>): Slots<V, P>
    requires InRange(g, e)
  {
    var h := WithOut(g, e.source, g[e.source].outEdges + [e]);
    WithIn(h, e.target, h[e.target].inEdges + [e])
  }

  /** The first occurrence of `e` erased from both lists it belongs to. */
  function Erased<V, P(==)>(g: Slots<V, P>, e: Edge<P>): Slots<V, P>
    requires InRange(g, e)
  {
    var h := WithOut(g, e.source, RemoveFirst(g[e.source].outEdges, e));
    WithIn(h, e.target, RemoveFirst(h[e.target].inEdges, e))
  }

  lemma PushedAt<V, P>(g: Slots<V, P>, e: Edge<P>, x: nat)
    requires InRange(g, e) && x < |g|
    ensures var h := Pushed(g, e);
      && |h| == |g|
      && h[x].outEdges == (if x == e.source then g[x].outEdges + [e] else g[x].outEdges)
      && h[x].inEdges == (if x == e.target then g[x].inEdges + [e] else g[x].inEdges)
      && h[x].property == g[x].property && h[x].empty == g[x].empty
  {
  }

  lemma PushedLinked<V, P>(g: Slots<V, P>, e: Edge<P>)
    requires Linked(g) && InRange(g, e)
    ensures Linked(Pushed(g, e))
  {
  }

  lemma PushedMirrored<V, P>(g: Slots<V, P>, e: Edge<P>)
    requires Mirrored(g) && InRange(g, e)
    ensures Mirrored(Pushed(g, e))
  {
    PushedLinked(g, e);
    forall u: nat, v: nat | u < |g| && v < |g|
      ensures Between(Pushed(g, e)[u].outEdges, u, v) == Between(Pushed(g, e)[v].inEdges, u, v)
    {
      PushedBetween(g, e, u, v);
    }
  }

  lemma PushedBetween<V, P>(g: Slots<V, P>, e: Edge<P>, u: nat, v: nat)
    requires Mirrored(g) && InRange(g, e) && u < |g| && v < |g|
    ensures Between(Pushed(g, e)[u].outEdges, u, v) == Between(Pushed(g, e)[v].inEdges, u, v)
  {
    PushedAt(g, e, u);
    PushedAt(g, e, v);
    BetweenAppend(g[u].outEdges, e, u, v);
    BetweenAppend(g[v].inEdges, e, u, v);
  }

  lemma {:induction false} RemoveFirstMembers<T>(s: seq<T>, x: T)
    ensures forall y :: y in RemoveFirst(s, x) ==> y in s
    ensures |RemoveFirst(s, x)| == if x in s then |s| - 1 else |s|
    ensures x !in s ==> RemoveFirst(s, x) == s
  {
    if s != [] && s[0] != x {
      RemoveFirstMembers(s[1..], x);
    }
  }

  lemma ErasedMirrored<V, P>(g: Slots<V, P>, e: Edge<P>)
    requires Mirrored(g) && InRange(g, e)
    ensures Mirrored(Erased(g, e))
  {
    var h := Erased(g, e);
    ErasedLinked(g, e);
    forall u: nat, v: nat | u < |h| && v < |h|
      ensures Between(h[u].outEdges, u, v) == Between(h[v].inEdges, u, v)
    {
      BetweenRemoveFirst(g[u].outEdges, e, u, v);
      BetweenRemoveFirst(g[v].inEdges, e, u, v);
    }
  }

  lemma ErasedLinked<V, P>(g: Slots<V, P>, e: Edge<P>)
    requires Linked(g) && InRange(g, e)
    ensures Linked(Erased(g, e))
  {
    var h := Erased(g, e);
    RemoveFirstMembers(g[e.source].outEdges, e);
    RemoveFirstMembers(g[e.target].inEdges, e);
    forall u, i | 0 <= u < |h| && 0 <= i < |h[u].outEdges|
      ensures h[u].outEdges[i].source == u && h[u].outEdges[i].target < |h|
    {
      assert h[u].outEdges[i] in g[u].outEdges;
    }
    forall v, i | 0 <= v < |h| && 0 <= i < |h[v].inEdges|
      ensures h[v].inEdges[i].target == v && h[v].inEdges[i].source < |h|
    {
      assert h[v].inEdges[i] in g[v].inEdges;
    }
  }

  /** Under the mirror invariant both lists agree on whether `e` exists. */
  lemma BothListsAgree<V, P>(g: Slots<V, P>, e: Edge<P>)
    requires Mirrored(g) && InRange(g, e)
    ensures e in g[e.source].outEdges <==> e in g[e.target].inEdges
  {
    BetweenMembers(g[e.source].outEdges, e.source, e.target, e);
    BetweenMembers(g[e.target].inEdges, e.source, e.target, e);
  }

  lemma {:induction false} OutCountChanged<V, P>(g: Slots<V, P>, h: Slots<V, P>, u: nat, k: nat)
    requires |g| == |h| && u < |g| && k <= |g|
    requires forall x :: 0 <= x < |g| && x != u ==> |g[x].outEdges| == |h[x].outEdges|
    ensures OutCount(h, k) == OutCount(g, k) + if u < k then |h[u].outEdges| - |g[u].outEdges| else 0
  {
    if k > 0 {
      OutCountChanged(g, h, u, k - 1);
    }
  }

  // ---- removing a vertex -------------------------------------------------------------------

  /** Every list without the edges that touch `v`, and `v` marked empty. */
  function Isolated<V, P>(g: Slots<V, P>, v: nat): (h: Slots<V, P>)
    requires v < |g|
    ensures |h| == |g|
  {
    seq(|g|, x requires 0 <= x < |g| =>
      Slot(Avoiding(g[x].outEdges, v), Avoiding(g[x].inEdges, v), g[x].property, g[x].empty || x == v))
  }

  lemma {:induction false} AvoidingEmpty<P>(s: seq<Edge<P>>, v: nat)
    requires forall i :: 0 <= i < |s| ==> s[i].source == v || s[i].target == v
    ensures Avoiding(s, v) == []
  {
    if s != [] {
      AvoidingEmpty(s[1..], v);
    }
  }

  lemma IsolatedLinked<V, P>(g: Slots<V, P>, v: nat)
    requires Linked(g) && v < |g|
    ensures Linked(Isolated(g, v))
  {
    var h := Isolated(g, v);
    forall u, i | 0 <= u < |h| && 0 <= i < |h[u].outEdges|
      ensures h[u].outEdges[i].source == u && h[u].outEdges[i].target < |h|
    {
      AvoidingMembers(g[u].outEdges, v, h[u].outEdges[i]);
    }
    forall u, i | 0 <= u < |h| && 0 <= i < |h[u].inEdges|
      ensures h[u].inEdges[i].target == u && h[u].inEdges[i].source < |h|
    {
      AvoidingMembers(g[u].inEdges, v, h[u].inEdges[i]);
    }
  }

  lemma IsolatedMirrored<V, P>(g: Slots<V, P>, v: nat)
    requires Mirrored(g) && v < |g|
    ensures Mirrored(Isolated(g, v))
    ensures Isolated(g, v)[v].outEdges == [] && Isolated(g, v)[v].inEdges == []
  {
    var h := Isolated(g, v);
    IsolatedLinked(g, v);
    forall a: nat, b: nat | a < |h| && b < |h|
      ensures Between(h[a].outEdges, a, b) == Between(h[b].inEdges, a, b)
    {
      BetweenAvoiding(g[a].outEdges, v, a, b);
      BetweenAvoiding(g[b].inEdges, v, a, b);
    }
    AvoidingEmpty(g[v].outEdges, v);
    AvoidingEmpty(g[v].inEdges, v);
  }

  /** How many edges of `s` run from one of the first `k` vertices to `v`. */
  function FromCount<P>(s: seq<Edge<P>>, v: nat, k: nat): nat {
    if k == 0 then 0 else FromCount(s, v, k - 1) + |Between(s, k - 1, v)|
  }

  lemma {:induction false} FromCountCons<P>(s: seq<Edge<P>>, v: nat, k: nat)
    requires s != [] && s[0].target == v
    ensures FromCount(s, v, k) == FromCount(s[1..], v, k) + if s[0].source < k then 1 else 0
  {
    if k > 0 {
      FromCountCons(s, v, k - 1);
    }
  }

  lemma {:induction false} FromCountAll<P>(s: seq<Edge<P>>, v: nat, k: nat)
    requires forall i :: 0 <= i < |s| ==> s[i].source < k && s[i].target == v
    ensures FromCount(s, v, k) == |s|
  {
    if s == [] {
      FromCountNothing<P>(v, k);
    } else {
      FromCountCons(s, v, k);
      FromCountAll(s[1..], v, k);
    }
  }

  lemma {:induction false} FromCountNothing<P>(v: nat, k: nat)
    ensures FromCount<P>([], v, k) == 0
  {
    if k > 0 {
      FromCountNothing<P>(v, k - 1);
    }
  }

  lemma {:induction false} AvoidingLength<P>(s: seq<Edge<P>>, u: nat, v: nat)
    requires u != v && forall i :: 0 <= i < |s| ==> s[i].source == u
    ensures |Avoiding(s, v)| == |s| - |Between(s, u, v)|
  {
    if s != [] {
      AvoidingLength(s[1..], u, v);
    }
  }

  lemma IsolatedLength<V, P>(g: Slots<V, P>, v: nat, x: nat)
    requires Mirrored(g) && v < |g| && x < |g|
    ensures |Isolated(g, v)[x].outEdges| ==
            if x == v then 0 else |g[x].outEdges| - |Between(g[v].inEdges, x, v)|
  {
    if x == v {
      AvoidingEmpty(g[v].outEdges, v);
    } else {
      AvoidingLength(g[x].outEdges, x, v);
    }
  }

  /** How long `x`'s out-list is in `h`, which is `g` without `v`. */
  ghost predicate LengthWithout<V, P>(g: Slots<V, P>, h: Slots<V, P>, v: nat, x: nat)
    requires v < |g| && x < |g| && |h| == |g|
  {
    |h[x].outEdges| == if x == v then 0 else |g[x].outEdges| - |Between(g[v].inEdges, x, v)|
  }

  lemma {:induction false} OutCountWithout<V, P>(g: Slots<V, P>, h: Slots<V, P>, v: nat, k: nat)
    requires v < |g| && k <= |g| && |h| == |g|
    requires forall x: nat {:trigger LengthWithout(g, h, v, x)} :: x < |g| ==> LengthWithout(g, h, v, x)
    ensures OutCount(h, k) ==
            OutCount(g, k) - FromCount(g[v].inEdges, v, k)
            - if v < k then |g[v].outEdges| - |Between(g[v].inEdges, v, v)| else 0
  {
    if k > 0 {
      OutCountWithout(g, h, v, k - 1);
      assert LengthWithout(g, h, v, k - 1);
    }
  }

  /** Removing `v` takes away its in-edges and out-edges; a self-loop is both and goes once. */
  lemma IsolatedEdgeCount<V, P>(g: Slots<V, P>, v: nat)
    requires Mirrored(g) && v < |g|
    ensures EdgeCount(Isolated(g, v)) ==
            EdgeCount(g) - |g[v].inEdges| - |g[v].outEdges| + |Between(g[v].outEdges, v, v)|
  {
    forall x: nat | x < |g|
      ensures LengthWithout(g, Isolated(g, v), v, x)
    {
      IsolatedLength(g, v, x);
    }
    OutCountWithout(g, Isolated(g, v), v, |g|);
    FromCountAll(g[v].inEdges, v, |g|);
  }

  // ---- operations and runs -----------------------------------------------------------------

  datatype Op<V, P> =
    | AddVertex(prop: V)
    | AddEdge(e: Edge<P>)
    | AddEdgeUnique(e: Edge<P>)
    | RemoveEdge(e: Edge<P>)
    | RemoveVertex(v: nat)

  /** The vertex number the next `add_vertex` hands out: the last removed one, or a new slot. */
  function NextVertex<V, P>(st: GraphState<V, P>): nat {
    if st.free == [] then |st.slots| else st.free[|st.free| - 1]
  }

  function AfterAddVertex<V, P>(st: GraphState<V, P>, prop: V): GraphState<V, P>
    requires st.free != [] ==> NextVertex(st) < |st.slots|
  {
    var v := NextVertex(st);
    if st.free == [] then
      st.(slots := st.slots + [Slot([], [], prop, false)], size := st.size + 1)
    else
      st.(slots := st.slots[v := st.slots[v].(empty := false, property := prop)],
          size := st.size + 1, free := st.free[..|st.free| - 1])
  }

  function AfterAddEdgeUnique<V, P>(st: GraphState<V, P>, e: Edge<P>): GraphState<V, P>
    requires InRange(st.slots, e)
  {
    st.(slots := Pushed(st.slots, e), edgeSize := st.edgeSize + 1)
  }

  function AfterAddEdge<V, P(==)>(st: GraphState<V, P>, e: Edge<P>): GraphState<V, P>
    requires InRange(st.slots, e)
  {
    if e in st.slots[e.source].outEdges then st else AfterAddEdgeUnique(st, e)
  }

  function AfterRemoveEdge<V, P(==)>(st: GraphState<V, P>, e: Edge<P>): GraphState<V, P>
    requires InRange(st.slots, e)
  {
    if e in st.slots[e.source].outEdges
    then st.(slots := Erased(st.slots, e), edgeSize := st.edgeSize - 1)
    else st
  }

  function AfterRemoveVertex<V, P>(st: GraphState<V, P>, v: nat): GraphState<V, P>
    requires v < |st.slots|
  {
    st.(slots := Isolated(st.slots, v), size := st.size - 1, free := st.free + [v],
        edgeSize := st.edgeSize - |st.slots[v].inEdges| - |st.slots[v].outEdges|)
  }

  function AfterSetProperty<V, P>(st: GraphState<V, P>, v: nat, prop: V): GraphState<V, P>
    requires v < |st.slots|
  {
    st.(slots := st.slots[v := st.slots[v].(property := prop)])
  }

  /** Edges join live vertices and only live vertices are removed. */
  predicate Legal<V, P>(st: GraphState<V, P>, op: Op<V, P>) {
    match op
    case AddVertex(_) => st.free != [] ==> NextVertex(st) < |st.slots|
    case AddEdge(e) => Live(st.slots, e.source) && Live(st.slots, e.target)
    case AddEdgeUnique(e) => Live(st.slots, e.source) && Live(st.slots, e.target)
    case RemoveEdge(e) => InRange(st.slots, e)
    case RemoveVertex(v) => Live(st.slots, v)
  }

  function Apply<V, P(==)>(st: GraphState<V, P>, op: Op<V, P>): GraphState<V, P>
    requires Legal(st, op)
  {
    match op
    case AddVertex(prop) => AfterAddVertex(st, prop)
    case AddEdge(e) => AfterAddEdge(st, e)
    case AddEdgeUnique(e) => AfterAddEdgeUnique(st, e)
    case RemoveEdge(e) => AfterRemoveEdge(st, e)
    case RemoveVertex(v) => AfterRemoveVertex(st, v)
  }

  lemma AddVertexKeeps<V, P>(st: GraphState<V, P>, prop: V)
    requires GraphOk(st)
    ensures GraphOk(AfterAddVertex(st, prop))
  {
    var t := AfterAddVertex(st, prop);
    AddVertexFree(st, prop);
    AddVertexLinked(st, prop);
    forall u: nat, v: nat | u < |t.slots| && v < |t.slots|
      ensures Between(t.slots[u].outEdges, u, v) == Between(t.slots[v].inEdges, u, v)
    {
      AddVertexBetween(st, prop, u, v);
    }
  }

  lemma AddVertexFree<V, P>(st: GraphState<V, P>, prop: V)
    requires FreeOk(st)
    ensures FreeOk(AfterAddVertex(st, prop))
  {
  }

  lemma AddVertexLinked<V, P>(st: GraphState<V, P>, prop: V)
    requires GraphOk(st)
    ensures Linked(AfterAddVertex(st, prop).slots)
  {
    var t := AfterAddVertex(st, prop);
    assert forall x :: 0 <= x < |st.slots| ==>
      t.slots[x].outEdges == st.slots[x].outEdges && t.slots[x].inEdges == st.slots[x].inEdges;
  }

  lemma AddVertexBetween<V, P>(st: GraphState<V, P>, prop: V, u: nat, v: nat)
    requires GraphOk(st)
    requires u < |AfterAddVertex(st, prop).slots| && v < |AfterAddVertex(st, prop).slots|
    ensures var h := AfterAddVertex(st, prop).slots;
            Between(h[u].outEdges, u, v) == Between(h[v].inEdges, u, v)
  {
    var g := st.slots;
    if u < |g| && v < |g| {
      assert Between(g[u].outEdges, u, v) == Between(g[v].inEdges, u, v);
    } else if v < |g| {
      NothingBetween(g[v].inEdges, u, v);
    } else if u < |g| {
      NothingBetween(g[u].outEdges, u, v);
    }
  }

  lemma {:induction false} NothingBetween<P>(s: seq<Edge<P>>, u: nat, v: nat)
    requires forall i :: 0 <= i < |s| ==> s[i].source != u || s[i].target != v
    ensures Between(s, u, v) == []
  {
    if s != [] {
      NothingBetween(s[1..], u, v);
    }
  }

  lemma RemoveVertexKeeps<V, P>(st: GraphState<V, P>, v: nat)
    requires GraphOk(st) && Live(st.slots, v)
    ensures GraphOk(AfterRemoveVertex(st, v))
  {
    var t := AfterRemoveVertex(st, v);
    IsolatedMirrored(st.slots, v);
    forall x | 0 <= x < |t.slots| && t.slots[x].empty
      ensures x in t.free && t.slots[x].outEdges == [] && t.slots[x].inEdges == []
    {
      if x != v {
        assert st.slots[x].empty;
        AvoidingNothing<P>([], v);
      }
    }
  }

  lemma SetPropertyKeeps<V, P>(st: GraphState<V, P>, v: nat, prop: V)
    requires GraphOk(st) && v < |st.slots|
    ensures GraphOk(AfterSetProperty(st, v, prop))
  {
    var t := AfterSetProperty(st, v, prop);
    assert forall x :: 0 <= x < |st.slots| ==>
      t.slots[x].outEdges == st.slots[x].outEdges && t.slots[x].inEdges == st.slots[x].inEdges;
  }

  lemma AddEdgeUniqueKeeps<V, P>(st: GraphState<V, P>, e: Edge<P>)
    requires GraphOk(st) && Live(st.slots, e.source) && Live(st.slots, e.target)
    ensures GraphOk(AfterAddEdgeUnique(st, e))
  {
    PushedMirrored(st.slots, e);
  }

  lemma RemoveEdgeKeeps<V, P>(st: GraphState<V, P>, e: Edge<P>)
    requires GraphOk(st) && InRange(st.slots, e)
    ensures GraphOk(AfterRemoveEdge(st, e))
  {
    ErasedMirrored(st.slots, e);
    BothListsAgree(st.slots, e);
  }

  lemma ApplyKeepsGraph<V, P>(st: GraphState<V, P>, op: Op<V, P>)
    requires GraphOk(st) && Legal(st, op)
    ensures GraphOk(Apply(st, op))
  {
    match op
    case AddVertex(prop) => AddVertexKeeps(st, prop);
    case AddEdge(e) => AddEdgeUniqueKeeps(st, e);
    case AddEdgeUnique(e) => AddEdgeUniqueKeeps(st, e);
    case RemoveEdge(e) => RemoveEdgeKeeps(st, e);
    case RemoveVertex(v) => RemoveVertexKeeps(st, v);
  }

  /** The self-loops an operation makes `remove_vertex` subtract twice. */
  function LoopsLost<V, P>(st: GraphState<V, P>, op: Op<V, P>): nat
    requires Legal(st, op)
  {
    match op
    case RemoveVertex(v) => |Between(st.slots[v].outEdges, v, v)|
    case _ => 0
  }

  /** The edge counter is `lost` behind the true number of edges. */
  ghost predicate CountsEdges<V, P>(st: GraphState<V, P>, lost: int) {
    st.edgeSize == EdgeCount(st.slots) - lost
  }

  lemma PushedEdgeCount<V, P>(g: Slots<V, P>, e: Edge<P>)
    requires InRange(g, e)
    ensures EdgeCount(Pushed(g, e)) == EdgeCount(g) + 1
  {
    forall x | 0 <= x < |g| && x != e.source
      ensures |g[x].outEdges| == |Pushed(g, e)[x].outEdges|
    {
      PushedAt(g, e, x);
    }
    PushedAt(g, e, e.source);
    OutCountChanged(g, Pushed(g, e), e.source, |g|);
  }

  lemma ErasedEdgeCount<V, P>(g: Slots<V, P>, e: Edge<P>)
    requires InRange(g, e) && e in g[e.source].outEdges
    ensures EdgeCount(Erased(g, e)) == EdgeCount(g) - 1
  {
    RemoveFirstMembers(g[e.source].outEdges, e);
    OutCountChanged(g, Erased(g, e), e.source, |g|);
  }

  lemma {:induction false} SameOutCount<V, P>(g: Slots<V, P>, h: Slots<V, P>, k: nat)
    requires k <= |g| && k <= |h| && forall x :: 0 <= x < k ==> |g[x].outEdges| == |h[x].outEdges|
    ensures OutCount(g, k) == OutCount(h, k)
  {
    if k > 0 {
      SameOutCount(g, h, k - 1);
    }
  }

  lemma AddVertexCounts<V, P>(st: GraphState<V, P>, prop: V, lost: int)
    requires GraphOk(st) && CountsEdges(st, lost)
    ensures CountsEdges(AfterAddVertex(st, prop), lost)
  {
    SameOutCount(st.slots, AfterAddVertex(st, prop).slots, |st.slots|);
  }

  lemma AddEdgeUniqueCounts<V, P>(st: GraphState<V, P>, e: Edge<P>, lost: int)
    requires InRange(st.slots, e) && CountsEdges(st, lost)
    ensures CountsEdges(AfterAddEdgeUnique(st, e), lost)
  {
    PushedEdgeCount(st.slots, e);
  }

  lemma RemoveEdgeCounts<V, P>(st: GraphState<V, P>, e: Edge<P>, lost: int)
    requires InRange(st.slots, e) && CountsEdges(st, lost)
    ensures CountsEdges(AfterRemoveEdge(st, e), lost)
  {
    if e in st.slots[e.source].outEdges {
      ErasedEdgeCount(st.slots, e);
    }
  }

  lemma RemoveVertexCounts<V, P>(st: GraphState<V, P>, v: nat, lost: int)
    requires Mirrored(st.slots) && v < |st.slots| && CountsEdges(st, lost)
    ensures CountsEdges(AfterRemoveVertex(st, v), lost + |Between(st.slots[v].outEdges, v, v)|)
  {
    IsolatedEdgeCount(st.slots, v);
  }

  lemma ApplyCounts<V, P>(st: GraphState<V, P>, op: Op<V, P>, lost: int)
    requires GraphOk(st) && Legal(st, op) && CountsEdges(st, lost)
    ensures CountsEdges(Apply(st, op), lost + LoopsLost(st, op))
  {
    match op
    case AddVertex(prop) => AddVertexCounts(st, prop, lost);
    case AddEdge(e) => AddEdgeUniqueCounts(st, e, lost);
    case AddEdgeUnique(e) => AddEdgeUniqueCounts(st, e, lost);
    case RemoveEdge(e) => RemoveEdgeCounts(st, e, lost);
    case RemoveVertex(v) => RemoveVertexCounts(st, v, lost);
  }

  ghost predicate LegalRun<V, P>(st: GraphState<V, P>, ops: seq<Op<V, P>>)
    decreases |ops|
  {
    ops != [] ==> Legal(st, ops[0]) && LegalRun(Apply(st, ops[0]), ops[1..])
  }

  function Run<V, P(==)>(st: GraphState<V, P>, ops: seq<Op<V, P>>): GraphState<V, P>
    requires LegalRun(st, ops)
    decreases |ops|
  {
    if ops == [] then st else Run(Apply(st, ops[0]), ops[1..])
  }

  function RunLoopsLost<V, P(==)>(st: GraphState<V, P>, ops: seq<Op<V, P>>): nat
    requires LegalRun(st, ops)
    decreases |ops|
  {
    if ops == [] then 0 else LoopsLost(st, ops[0]) + RunLoopsLost(Apply(st, ops[0]), ops[1..])
  }

  /** Every run keeps the lists mirrored and the free list exact, and at its end the edge counter
      is behind the true count by exactly the self-loops on removed vertices. */
  lemma {:induction false} RunKeepsGraph<V, P>(st: GraphState<V, P>, ops: seq<Op<V, P>>, lost: int)
    requires GraphOk(st) && LegalRun(st, ops) && CountsEdges(st, lost)
    ensures GraphOk(Run(st, ops))
    ensures CountsEdges(Run(st, ops), lost + RunLoopsLost(st, ops))
    decreases |ops|
  {
    if ops != [] {
      var op, rest := ops[0], ops[1..];
      var next := Apply(st, op);
      assert GraphOk(next) && CountsEdges(next, lost + LoopsLost(st, op)) by {
        ApplyKeepsGraph(st, op);
        ApplyCounts(st, op, lost);
      }
      RunKeepsGraph(next, rest, lost + LoopsLost(st, op));
    }
  }

  /** A machine word that lost `loops` shows the right number only if nothing was lost. */
  lemma WordIsExactIff(n: nat, loops: nat)
    requires n < WORD && loops < WORD
    ensures (n - loops) % WORD == n <==> loops == 0
  {
    if loops > n {
      assert (n - loops) % WORD == n - loops + WORD;
    }
  }

  /** `num_edges` is exact after removing a vertex if and only if the vertex carries no self-loop. */
  lemma RemoveVertexCountExactIff<V, P>(st: GraphState<V, P>, v: nat)
    requires GraphOk(st) && Live(st.slots, v) && EdgeCount(st.slots) < WORD
    requires st.edgeSize == EdgeCount(st.slots)
    ensures var t := AfterRemoveVertex(st, v);
            NumEdges(t) == EdgeCount(t.slots) <==> Between(st.slots[v].outEdges, v, v) == []
  {
    var loops := |Between(st.slots[v].outEdges, v, v)|;
    IsolatedEdgeCount(st.slots, v);
    LoopsAreCounted(st.slots, v);
    EdgesAtVertex(st.slots, v);
    CountIsExactIff(st, v, loops);
  }

  lemma CountIsExactIff<V, P>(st: GraphState<V, P>, v: nat, loops: nat)
    requires v < |st.slots| && loops < WORD && EdgeCount(Isolated(st.slots, v)) < WORD
    requires EdgeCount(Isolated(st.slots, v)) == st.edgeSize - |st.slots[v].inEdges| - |st.slots[v].outEdges| + loops
    ensures var t := AfterRemoveVertex(st, v); NumEdges(t) == EdgeCount(t.slots) <==> loops == 0
  {
    WordIsExactIff(EdgeCount(Isolated(st.slots, v)), loops);
  }

  lemma EdgesAtVertex<V, P>(g: Slots<V, P>, v: nat)
    requires Mirrored(g) && v < |g|
    ensures EdgeCount(Isolated(g, v)) <= EdgeCount(g)
  {
    IsolatedEdgeCount(g, v);
    BetweenShorter(g[v].outEdges, v, v);
  }

  lemma {:induction false} BetweenShorter<P>(s: seq<Edge<P>>, u: nat, v: nat)
    ensures |Between(s, u, v)| <= |s|
  {
    if s != [] {
      BetweenShorter(s[1..], u, v);
    }
  }

  lemma LoopsAreCounted<V, P>(g: Slots<V, P>, v: nat)
    requires Mirrored(g) && v < |g|
    ensures |Between(g[v].outEdges, v, v)| <= |g[v].outEdges| <= EdgeCount(g)
  {
    BetweenShorter(g[v].outEdges, v, v);
    OutCountCovers(g, v, |g|);
  }

  lemma {:induction false} OutCountCovers<V, P>(g: Slots<V, P>, v: nat, k: nat)
    requires v < k <= |g|
    ensures |g[v].outEdges| <= OutCount(g, k)
  {
    if v < k - 1 {
      OutCountCovers(g, v, k - 1);
    }
  }

  /** One vertex with one self-loop: after removing it the counter reads 2^64 - 1 instead of 0. */
  lemma SelfLoopMiscounts()
    ensures var e := Edge(0, 0, ());
            var st := GraphState([Slot([e], [e], (), false)], 1, 1, []);
            && GraphOk(st) && CountsEdges(st, 0)
            && NumEdges(AfterRemoveVertex(st, 0)) == WORD - 1
            && EdgeCount(AfterRemoveVertex(st, 0).slots) == 0
  {
    var e := Edge(0, 0, ());
    var st := GraphState([Slot([e], [e], (), false)], 1, 1, []);
    assert OutCount(st.slots, 0) == 0;
    assert GraphOk(st);
    IsolatedEdgeCount(st.slots, 0);
    assert [e][1..] == [];
    assert Between([e], 0, 0) == [e];
  }
}
