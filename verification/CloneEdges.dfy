/** `cloneGraphForSCCEdges`: give freshly added clone vertices the edges of their originals. */
module CloneEdges {
  import opened Walks
  import opened Graphs
  import opened GraphOps
  import opened BaseGraphs

  /** The properties of the edges of `s` from `a` to `b`, in list order. */
  function Labels<P>(s: seq<Edge<P>>, a: nat, b: nat): seq<P> {
    if s == [] then []
    else if s[0].source == a && s[0].target == b then [s[0].property] + Labels(s[1..], a, b)
    else Labels(s[1..], a, b)
  }

  /** The labelled edges of a graph from `a` to `b`. */
  ghost function GraphLabels<V, P>(g: Slots<V, P>, a: nat, b: nat): seq<P>
    requires a < |g|
  {
    Labels(g[a].outEdges, a, b)
  }

  lemma {:induction false} LabelsConcat<P>(s: seq<Edge<P>>, t: seq<Edge<P>>, a: nat, b: nat)
    ensures Labels(s + t, a, b) == Labels(s, a, b) + Labels(t, a, b)
  {
    if s == [] {
      assert s + t == t;
    } else {
      assert (s + t)[1..] == s[1..] + t;
      LabelsConcat(s[1..], t, a, b);
    }
  }

  lemma LabelsAppend<P>(s: seq<Edge<P>>, e: Edge<P>, a: nat, b: nat)
    ensures Labels(s + [e], a, b) == Labels(s, a, b) + if e.source == a && e.target == b then [e.property] else []
  {
    LabelsConcat(s, [e], a, b);
    assert [e][1..] == [];
  }

  lemma {:induction false} LabelsNone<P>(s: seq<Edge<P>>, a: nat, b: nat)
    requires forall i :: 0 <= i < |s| ==> s[i].source != a || s[i].target != b
    ensures Labels(s, a, b) == []
  {
    if s != [] {
      LabelsNone(s[1..], a, b);
    }
  }

  lemma {:induction false} LabelsOfBetween<P>(s: seq<Edge<P>>, a: nat, b: nat)
    ensures Labels(Between(s, a, b), a, b) == Labels(s, a, b)
  {
    if s != [] {
      LabelsOfBetween(s[1..], a, b);
      var rest := Between(s[1..], a, b);
      assert ([s[0]] + rest)[1..] == rest;
    }
  }

  // ---- adding a list of edges ------------------------------------------------------------------

  ghost predicate AllInRange<V, P>(g: Slots<V, P>, es: seq<Edge<P>>) {
    forall i :: 0 <= i < |es| ==> InRange(g, es[i])
  }

  ghost function PushAll<V, P>(g: Slots<V, P>, es: seq<Edge<P>>): (h: Slots<V, P>)
    requires AllInRange(g, es)
    ensures |h| == |g|
  {
    if es == [] then g else Pushed(PushAll(g, es[..|es| - 1]), es[|es| - 1])
  }

  lemma {:induction false} PushAllAt<V, P>(g: Slots<V, P>, es: seq<Edge<P>>, x: nat)
    requires AllInRange(g, es) && x < |g|
    ensures (forall i :: 0 <= i < |es| ==> es[i].source != x) ==> PushAll(g, es)[x].outEdges == g[x].outEdges
    ensures (forall i :: 0 <= i < |es| ==> es[i].target != x) ==> PushAll(g, es)[x].inEdges == g[x].inEdges
    ensures PushAll(g, es)[x].property == g[x].property && PushAll(g, es)[x].empty == g[x].empty
  {
    if es != [] {
      PushAllAt(g, es[..|es| - 1], x);
      PushedAt(PushAll(g, es[..|es| - 1]), es[|es| - 1], x);
    }
  }

  lemma {:induction false} PushAllLabels<V, P>(g: Slots<V, P>, es: seq<Edge<P>>, a: nat, b: nat)
    requires AllInRange(g, es) && a < |g|
    ensures GraphLabels(PushAll(g, es), a, b) == GraphLabels(g, a, b) + Labels(es, a, b)
  {
    if es != [] {
      var init, e := es[..|es| - 1], es[|es| - 1];
      PushAllLabels(g, init, a, b);
      PushedAt(PushAll(g, init), e, a);
      assert es == init + [e];
      LabelsAppend(init, e, a, b);
      LabelsAppend(PushAll(g, init)[a].outEdges, e, a, b);
    }
  }

  // ---- the edges of the clone ------------------------------------------------------------------

  function Renamed(m: map<nat, nat>, v: nat): nat {
    if v in m then m[v] else v
  }

  /** Copies of the out-edges `s` of `k`, as out-edges of its clone. */
  function CopyOut<P>(s: seq<Edge<P>>, m: map<nat, nat>, k: nat): (r: seq<Edge<P>>)
    requires k in m
    ensures |r| == |s|
    ensures forall i :: 0 <= i < |s| ==> r[i] == Edge(m[k], Renamed(m, s[i].target), s[i].property)
  {
    seq(|s|, i requires 0 <= i < |s| => Edge(m[k], Renamed(m, s[i].target), s[i].property))
  }

  /** Copies of the in-edges `s` of `k` whose source is not cloned, as in-edges of its clone. */
  function CopyIn<P>(s: seq<Edge<P>>, m: map<nat, nat>, k: nat): seq<Edge<P>>
    requires k in m
  {
    if s == [] then []
    else
      var last := s[|s| - 1];
      CopyIn(s[..|s| - 1], m, k) + if last.source in m then [] else [Edge(last.source, m[k], last.property)]
  }

  ghost function CopyVertex<V, P>(g: Slots<V, P>, m: map<nat, nat>, k: nat): seq<Edge<P>> {
    if k in m && k < |g| then CopyOut(g[k].outEdges, m, k) + CopyIn(g[k].inEdges, m, k) else []
  }

  ghost predicate KeysOf(keys: seq<nat>, m: map<nat, nat>, n: nat) {
    Distinct(keys) && (forall k :: k in keys <==> k in m) && (forall k :: k in keys ==> k < n)
  }

  ghost function Copies<V, P>(g: Slots<V, P>, m: map<nat, nat>, keys: seq<nat>): seq<Edge<P>> {
    if keys == [] then [] else Copies(g, m, keys[..|keys| - 1]) + CopyVertex(g, m, keys[|keys| - 1])
  }

  ghost predicate OneToOne(m: map<nat, nat>) {
    forall k, l {:trigger m[k], m[l]} :: k in m && l in m && m[k] == m[l] ==> k == l
  }

  /** Every original has its own clone, and clones start without edges. */
  ghost predicate FreshClones<V, P>(g: Slots<V, P>, m: map<nat, nat>) {
    && (forall k :: k in m ==> Live(g, k))
    && (forall k {:trigger m[k]} :: k in m ==>
          Live(g, m[k]) && m[k] !in m && g[m[k]].outEdges == [] && g[m[k]].inEdges == [])
    && OneToOne(m)
  }

  ghost predicate IsClone(m: map<nat, nat>, v: nat) {
    exists k {:trigger m[k]} :: k in m && m[k] == v
  }

  /** No edge of the graph touches a clone yet. */
  lemma EdgesAvoidClones<V, P>(g: Slots<V, P>, m: map<nat, nat>, u: nat, e: Edge<P>)
    requires Mirrored(g) && FreshClones(g, m) && u < |g|
    ensures e in g[u].outEdges ==> !IsClone(m, u) && !IsClone(m, e.target) && e.target < |g|
    ensures e in g[u].inEdges ==> !IsClone(m, u) && !IsClone(m, e.source) && e.source < |g|
  {
    if e in g[u].outEdges {
      BothListsAgree(g, e);
    }
    if e in g[u].inEdges {
      BothListsAgree(g, e);
    }
  }

  lemma {:induction false} CopyInMembers<P>(s: seq<Edge<P>>, m: map<nat, nat>, k: nat)
    requires k in m
    ensures forall i :: 0 <= i < |CopyIn(s, m, k)| ==>
              var c := CopyIn(s, m, k)[i];
              c.target == m[k] && c.source !in m && exists e :: e in s && e.source == c.source
  {
    if s != [] {
      CopyInMembers(s[..|s| - 1], m, k);
      assert s[|s| - 1] in s;
    }
  }

  /** Every added edge runs between existing vertices and touches no original in its own lists. */
  ghost predicate CopyShape<P>(n: nat, m: map<nat, nat>, e: Edge<P>) {
    e.source < n && e.target < n && e.source !in m && e.target !in m && (IsClone(m, e.source) || IsClone(m, e.target))
  }

  lemma CopyVertexShape<V, P>(g: Slots<V, P>, m: map<nat, nat>, k: nat)
    requires Mirrored(g) && FreshClones(g, m) && k in m && k < |g|
    ensures forall i :: 0 <= i < |CopyVertex(g, m, k)| ==> CopyShape(|g|, m, CopyVertex(g, m, k)[i])
  {
    var out, ins := CopyOut(g[k].outEdges, m, k), CopyIn(g[k].inEdges, m, k);
    assert IsClone(m, m[k]);
    forall i | 0 <= i < |out|
      ensures CopyShape(|g|, m, out[i])
    {
      EdgesAvoidClones(g, m, k, g[k].outEdges[i]);
    }
    CopyInMembers(g[k].inEdges, m, k);
    forall i | 0 <= i < |ins|
      ensures CopyShape(|g|, m, ins[i])
    {
      var e :| e in g[k].inEdges && e.source == ins[i].source;
      EdgesAvoidClones(g, m, k, e);
    }
  }

  lemma {:induction false} CopiesShape<V, P>(g: Slots<V, P>, m: map<nat, nat>, keys: seq<nat>)
    requires Mirrored(g) && FreshClones(g, m) && forall k :: k in keys ==> k in m && k < |g|
    ensures forall i :: 0 <= i < |Copies(g, m, keys)| ==> CopyShape(|g|, m, Copies(g, m, keys)[i])
  {
    if keys != [] {
      var init, last := keys[..|keys| - 1], keys[|keys| - 1];
      forall k | k in init
        ensures k in m && k < |g|
      {
        assert k in keys;
      }
      CopiesShape(g, m, init);
      CopyVertexShape(g, m, last);
    }
  }

  // ---- what the copies add between two vertices --------------------------------------------------

  lemma {:induction false} CopyOutLabels<P>(s: seq<Edge<P>>, m: map<nat, nat>, k: nat, b: nat)
    requires k in m && !IsClone(m, b) && OneToOne(m)
    requires forall i :: 0 <= i < |s| ==> s[i].source == k && !IsClone(m, s[i].target)
    ensures Labels(CopyOut(s, m, k), m[k], Renamed(m, b)) == Labels(s, k, b)
  {
    if s != [] {
      CopyOutLabels(s[1..], m, k, b);
      assert CopyOut(s, m, k)[1..] == CopyOut(s[1..], m, k);
      assert IsClone(m, Renamed(m, b)) <==> b in m;
      assert Renamed(m, s[0].target) == Renamed(m, b) <==> s[0].target == b by {
        assert s[0].target in m ==> IsClone(m, Renamed(m, s[0].target));
      }
    }
  }

  lemma {:induction false} CopyInLabels<P>(s: seq<Edge<P>>, m: map<nat, nat>, k: nat, x: nat)
    requires k in m && x !in m && forall i :: 0 <= i < |s| ==> s[i].target == k
    ensures Labels(CopyIn(s, m, k), x, m[k]) == Labels(s, x, k)
  {
    if s != [] {
      var init, last := s[..|s| - 1], s[|s| - 1];
      CopyInLabels(init, m, k, x);
      assert s == init + [last];
      LabelsAppend(init, last, x, k);
      LabelsAppend(CopyIn(init, m, k), Edge(last.source, m[k], last.property), x, m[k]);
      assert last.source in m ==> CopyIn(s, m, k) == CopyIn(init, m, k);
    }
  }

  /** The edges that copying vertex `k` adds out of the clone of `u`. */
  lemma CopyVertexOut<V, P>(g: Slots<V, P>, m: map<nat, nat>, k: nat, u: nat, b: nat)
    requires Mirrored(g) && FreshClones(g, m) && k in m && k < |g| && u in m && u < |g| && !IsClone(m, b)
    ensures Labels(CopyVertex(g, m, k), m[u], Renamed(m, b)) == if k == u then GraphLabels(g, u, b) else []
  {
    var out, ins := CopyOut(g[k].outEdges, m, k), CopyIn(g[k].inEdges, m, k);
    LabelsConcat(out, ins, m[u], Renamed(m, b));
    CopyInMembers(g[k].inEdges, m, k);
    forall i | 0 <= i < |ins|
      ensures ins[i].source != m[u]
    {
      var e :| e in g[k].inEdges && e.source == ins[i].source;
      EdgesAvoidClones(g, m, k, e);
    }
    LabelsNone(ins, m[u], Renamed(m, b));
    if k == u {
      forall i | 0 <= i < |g[k].outEdges|
        ensures !IsClone(m, g[k].outEdges[i].target)
      {
        EdgesAvoidClones(g, m, k, g[k].outEdges[i]);
      }
      CopyOutLabels(g[k].outEdges, m, k, b);
    } else {
      LabelsNone(out, m[u], Renamed(m, b));
    }
  }

  /** The edges that copying vertex `k` adds into the clone of `u` from a vertex that is not cloned. */
  lemma CopyVertexIn<V, P>(g: Slots<V, P>, m: map<nat, nat>, k: nat, x: nat, u: nat)
    requires Mirrored(g) && FreshClones(g, m) && k in m && k < |g| && u in m && u < |g|
    requires x < |g| && x !in m && !IsClone(m, x)
    ensures Labels(CopyVertex(g, m, k), x, m[u]) == if k == u then GraphLabels(g, x, u) else []
  {
    var out, ins := CopyOut(g[k].outEdges, m, k), CopyIn(g[k].inEdges, m, k);
    LabelsConcat(out, ins, x, m[u]);
    assert IsClone(m, m[k]);
    LabelsNone(out, x, m[u]);
    CopyInMembers(g[k].inEdges, m, k);
    if k == u {
      CopyInLabels(g[u].inEdges, m, u, x);
      LabelsOfBetween(g[x].outEdges, x, u);
      LabelsOfBetween(g[u].inEdges, x, u);
    } else {
      LabelsNone(ins, x, m[u]);
    }
  }

  lemma LastKey(keys: seq<nat>, u: nat)
    requires Distinct(keys) && keys != []
    ensures var init, k := keys[..|keys| - 1], keys[|keys| - 1];
            && Distinct(init) && k !in init && k in keys && (u in keys <==> u in init || u == k)
            && forall l :: l in init ==> l in keys
  {
  }

  /** Labels over all keys, from those over all but the last. */
  lemma LabelsOfLast<P>(init: seq<Edge<P>>, last: seq<Edge<P>>, a: nat, b: nat, part: seq<P>, keys: seq<nat>, u: nat)
    requires Distinct(keys) && keys != []
    requires Labels(init, a, b) == if u in keys[..|keys| - 1] then part else []
    requires Labels(last, a, b) == if keys[|keys| - 1] == u then part else []
    ensures Labels(init + last, a, b) == if u in keys then part else []
  {
    LabelsConcat(init, last, a, b);
    LastKey(keys, u);
  }

  lemma {:induction false} CopiesOut<V, P>(g: Slots<V, P>, m: map<nat, nat>, keys: seq<nat>, u: nat, b: nat)
    requires Mirrored(g) && FreshClones(g, m) && Distinct(keys) && forall k :: k in keys ==> k in m && k < |g|
    requires u in m && u < |g| && !IsClone(m, b)
    ensures Labels(Copies(g, m, keys), m[u], Renamed(m, b)) == if u in keys then GraphLabels(g, u, b) else []
  {
    if keys != [] {
      var init, k := keys[..|keys| - 1], keys[|keys| - 1];
      LastKey(keys, u);
      CopiesOut(g, m, init, u, b);
      CopyVertexOut(g, m, k, u, b);
      LabelsOfLast(Copies(g, m, init), CopyVertex(g, m, k), m[u], Renamed(m, b), GraphLabels(g, u, b), keys, u);
    }
  }

  lemma {:induction false} CopiesIn<V, P>(g: Slots<V, P>, m: map<nat, nat>, keys: seq<nat>, x: nat, u: nat)
    requires Mirrored(g) && FreshClones(g, m) && Distinct(keys) && forall k :: k in keys ==> k in m && k < |g|
    requires u in m && u < |g| && x < |g| && x !in m && !IsClone(m, x)
    ensures Labels(Copies(g, m, keys), x, m[u]) == if u in keys then GraphLabels(g, x, u) else []
  {
    if keys != [] {
      var init, k := keys[..|keys| - 1], keys[|keys| - 1];
      LastKey(keys, u);
      CopiesIn(g, m, init, x, u);
      CopyVertexIn(g, m, k, x, u);
      LabelsOfLast(Copies(g, m, init), CopyVertex(g, m, k), x, m[u], GraphLabels(g, x, u), keys, u);
    }
  }

  // ---- the result --------------------------------------------------------------------------------

  /** The clones carry the edges of their originals, label for label: among each other, to and from
      the rest of the graph, and nothing more. The rest of the graph is as before. */
  ghost predicate IsClonedGraph<V, P>(g: Slots<V, P>, h: Slots<V, P>, m: map<nat, nat>) {
    && |h| == |g|
    && (forall v :: 0 <= v < |g| ==> h[v].property == g[v].property && h[v].empty == g[v].empty)
    && (forall u: nat, b: nat :: u in m && u < |g| && b < |g| && !IsClone(m, b) ==>
          m[u] < |h| && GraphLabels(h, m[u], Renamed(m, b)) == GraphLabels(g, u, b))
    && (forall x: nat, u: nat :: x < |g| && x !in m && !IsClone(m, x) && u in m ==>
          GraphLabels(h, x, m[u]) == GraphLabels(g, x, u))
    && (forall a: nat, b: nat :: a < |g| && b < |g| && !IsClone(m, a) && !IsClone(m, b) ==>
          GraphLabels(h, a, b) == GraphLabels(g, a, b))
    && (forall u: nat, w: nat :: u in m && w in m && w < |g| ==>
          m[u] < |h| && GraphLabels(h, m[u], w) == [] && GraphLabels(h, w, m[u]) == [])
  }

  lemma PushedCopiesCloned<V, P>(g: Slots<V, P>, m: map<nat, nat>, keys: seq<nat>)
    requires Mirrored(g) && FreshClones(g, m) && KeysOf(keys, m, |g|)
    ensures AllInRange(g, Copies(g, m, keys)) && IsClonedGraph(g, PushAll(g, Copies(g, m, keys)), m)
  {
    var es := Copies(g, m, keys);
    CopiesShape(g, m, keys);
    var h := PushAll(g, es);
    forall v | 0 <= v < |g|
      ensures h[v].property == g[v].property && h[v].empty == g[v].empty
    {
      PushAllAt(g, es, v);
    }
    forall u: nat, b: nat | u in m && u < |g| && b < |g| && !IsClone(m, b)
      ensures m[u] < |h| && GraphLabels(h, m[u], Renamed(m, b)) == GraphLabels(g, u, b)
    {
      PushAllLabels(g, es, m[u], Renamed(m, b));
      CopiesOut(g, m, keys, u, b);
    }
    forall x: nat, u: nat | x < |g| && x !in m && !IsClone(m, x) && u in m
      ensures GraphLabels(h, x, m[u]) == GraphLabels(g, x, u)
    {
      PushAllLabels(g, es, x, m[u]);
      CopiesIn(g, m, keys, x, u);
      NoLabelsIntoClone(g, m, x, u);
    }
    forall a: nat, b: nat | a < |g| && b < |g| && !IsClone(m, a) && !IsClone(m, b)
      ensures GraphLabels(h, a, b) == GraphLabels(g, a, b)
    {
      PushAllLabels(g, es, a, b);
      LabelsNone(es, a, b);
    }
    forall u: nat, w: nat | u in m && w in m && w < |g|
      ensures m[u] < |h| && GraphLabels(h, m[u], w) == [] && GraphLabels(h, w, m[u]) == []
    {
      PushAllLabels(g, es, m[u], w);
      PushAllLabels(g, es, w, m[u]);
      LabelsNone(es, m[u], w);
      LabelsNone(es, w, m[u]);
      NoLabelsIntoClone(g, m, w, u);
    }
  }

  lemma NoLabelsIntoClone<V, P>(g: Slots<V, P>, m: map<nat, nat>, x: nat, u: nat)
    requires Mirrored(g) && FreshClones(g, m) && x < |g| && u in m
    ensures GraphLabels(g, x, m[u]) == []
  {
    assert IsClone(m, m[u]);
    forall i | 0 <= i < |g[x].outEdges|
      ensures g[x].outEdges[i].target != m[u]
    {
      EdgesAvoidClones(g, m, x, g[x].outEdges[i]);
    }
    LabelsNone(g[x].outEdges, x, m[u]);
  }

  // ---- walks -------------------------------------------------------------------------------------

  ghost function LabelRel<V, P>(g: Slots<V, P>): Rel {
    iset e: (nat, nat) | e.0 < |g| && GraphLabels(g, e.0, e.1) != []
  }

  /** A walk among the originals is a walk among the clones, vertex for vertex. */
  lemma WalksCorrespond<V, P>(g: Slots<V, P>, h: Slots<V, P>, m: map<nat, nat>, p: seq<nat>, q: seq<nat>)
    requires FreshClones(g, m) && IsClonedGraph(g, h, m)
    requires |p| == |q| && forall i :: 0 <= i < |p| ==> p[i] in m && q[i] == m[p[i]]
    ensures IsWalk(LabelRel(g), p) <==> IsWalk(LabelRel(h), q)
    ensures IsWalk(LabelRel(g), p) <==> IsWalk(LabelRel(h), p)
  {
    forall i | 0 <= i < |p| - 1
      ensures (p[i], p[i + 1]) in LabelRel(g) <==> (q[i], q[i + 1]) in LabelRel(h)
      ensures (p[i], p[i + 1]) in LabelRel(g) <==> (p[i], p[i + 1]) in LabelRel(h)
    {
      assert !IsClone(m, p[i]) && !IsClone(m, p[i + 1]);
      assert Renamed(m, p[i + 1]) == q[i + 1];
      assert GraphLabels(h, m[p[i]], Renamed(m, p[i + 1])) == GraphLabels(g, p[i], p[i + 1]);
    }
    SameWalk(LabelRel(g), LabelRel(h), p, q);
    SameWalk(LabelRel(g), LabelRel(h), p, p);
  }

  lemma SameWalk(E: Rel, F: Rel, p: seq<nat>, q: seq<nat>)
    requires |p| == |q| && forall i :: 0 <= i < |p| - 1 ==> ((p[i], p[i + 1]) in E <==> (q[i], q[i + 1]) in F)
    ensures IsWalk(E, p) <==> IsWalk(F, q)
  {
  }

  // ---- the loops ---------------------------------------------------------------------------------

  /** Adding copies leaves the lists of the originals alone and keeps every endpoint live. */
  lemma CopiesKeepOriginals<V, P>(g: Slots<V, P>, m: map<nat, nat>, es: seq<Edge<P>>, k: nat)
    requires AllInRange(g, es) && k in m && k < |g|
    requires forall i :: 0 <= i < |es| ==> CopyShape(|g|, m, es[i])
    ensures PushAll(g, es)[k] == g[k]
  {
  }

  lemma EndpointsLive<V, P>(st: GraphState<V, P>, u: nat, e: Edge<P>)
    requires GraphOk(st) && u < |st.slots|
    ensures e in st.slots[u].outEdges ==> e.target < |st.slots| && Live(st.slots, e.target)
    ensures e in st.slots[u].inEdges ==> e.source < |st.slots| && Live(st.slots, e.source)
  {
    if e in st.slots[u].outEdges {
      BothListsAgree(st.slots, e);
    }
    if e in st.slots[u].inEdges {
      BothListsAgree(st.slots, e);
    }
  }

  lemma PushAllSnoc<V, P>(g: Slots<V, P>, es: seq<Edge<P>>, e: Edge<P>)
    requires AllInRange(g, es) && InRange(g, e)
    ensures AllInRange(g, es + [e]) && PushAll(g, es + [e]) == Pushed(PushAll(g, es), e)
  {
  }

  /** The state of the loops: `es` has been added to the graph `g0`. */
  ghost predicate Cloning<V, P>(g0: GraphState<V, P>, m: map<nat, nat>, st: GraphState<V, P>, es: seq<Edge<P>>) {
    && GraphOk(st) && AllInRange(g0.slots, es) && st.slots == PushAll(g0.slots, es)
    && (forall i :: 0 <= i < |es| ==> CopyShape(|g0.slots|, m, es[i]))
  }

  method AddCopy<V, P>(graph: BaseGraph<V, P>, ghost g0: GraphState<V, P>, ghost m: map<nat, nat>,
                       ghost es: seq<Edge<P>>, e: Edge<P>)
    requires Cloning(g0, m, graph.View(), es) && CopyShape(|g0.slots|, m, e)
    requires Live(g0.slots, e.source) && Live(g0.slots, e.target)
    modifies graph
    ensures Cloning(g0, m, graph.View(), es + [e])
  {
    PushAllAt(g0.slots, es, e.source);
    PushAllAt(g0.slots, es, e.target);
    PushAllSnoc(g0.slots, es, e);
    graph.AddEdgeUnique(e);
  }

  method CloneOutEdges<V, P>(graph: BaseGraph<V, P>, ghost g0: GraphState<V, P>, m: map<nat, nat>, k: nat,
                             ghost es: seq<Edge<P>>)
    requires GraphOk(g0) && FreshClones(g0.slots, m)
    requires Cloning(g0, m, graph.View(), es) && k in m && k < |g0.slots|
    modifies graph
    ensures Cloning(g0, m, graph.View(), es + CopyOut(g0.slots[k].outEdges, m, k))
  {
    CopiesKeepOriginals(g0.slots, m, es, k);
    var edges := graph.slots[k].outEdges;
    ghost var copies := CopyOut(edges, m, k);
    var j := 0;
    PrefixEnds(es, copies);
    while j < |edges|
      invariant 0 <= j <= |edges| && Cloning(g0, m, graph.View(), es + copies[..j])
    {
      CloneOutEdge(graph, g0, m, k, es, edges, j);
      j := j + 1;
    }
  }

  lemma PrefixEnds<T>(a: seq<T>, b: seq<T>)
    ensures a + b[..0] == a && b[..|b|] == b
  {
  }

  method CloneOutEdge<V, P>(graph: BaseGraph<V, P>, ghost g0: GraphState<V, P>, m: map<nat, nat>, k: nat,
                            ghost es: seq<Edge<P>>, edges: seq<Edge<P>>, j: nat)
    requires GraphOk(g0) && FreshClones(g0.slots, m) && k in m && k < |g0.slots|
    requires edges == g0.slots[k].outEdges && j < |edges|
    requires Cloning(g0, m, graph.View(), es + CopyOut(edges, m, k)[..j])
    modifies graph
    ensures Cloning(g0, m, graph.View(), es + CopyOut(edges, m, k)[..j + 1])
  {
    CopyOutOk(g0, m, k, j);
    PrefixSnoc(es, CopyOut(edges, m, k), j);
    AddCopy(graph, g0, m, es + CopyOut(edges, m, k)[..j], Edge(m[k], Renamed(m, edges[j].target), edges[j].property));
  }

  lemma PrefixSnoc<T>(a: seq<T>, b: seq<T>, j: nat)
    requires j < |b|
    ensures a + b[..j] + [b[j]] == a + b[..j + 1]
  {
  }

  lemma CopyOutOk<V, P>(g0: GraphState<V, P>, m: map<nat, nat>, k: nat, j: nat)
    requires GraphOk(g0) && FreshClones(g0.slots, m) && k in m && k < |g0.slots| && j < |g0.slots[k].outEdges|
    ensures var c := CopyOut(g0.slots[k].outEdges, m, k)[j];
            CopyShape(|g0.slots|, m, c) && Live(g0.slots, c.source) && Live(g0.slots, c.target)
  {
    var e := g0.slots[k].outEdges[j];
    EdgesAvoidClones(g0.slots, m, k, e);
    EndpointsLive(g0, k, e);
    assert IsClone(m, m[k]);
  }

  method CloneInEdges<V, P>(graph: BaseGraph<V, P>, ghost g0: GraphState<V, P>, m: map<nat, nat>, k: nat,
                            ghost es: seq<Edge<P>>)
    requires GraphOk(g0) && FreshClones(g0.slots, m)
    requires Cloning(g0, m, graph.View(), es) && k in m && k < |g0.slots|
    modifies graph
    ensures Cloning(g0, m, graph.View(), es + CopyIn(g0.slots[k].inEdges, m, k))
  {
    CopiesKeepOriginals(g0.slots, m, es, k);
    var edges := graph.slots[k].inEdges;
    var j := 0;
    NoCopiesYet(es, edges, m, k);
    while j < |edges|
      invariant 0 <= j <= |edges| && Cloning(g0, m, graph.View(), es + CopyIn(edges[..j], m, k))
    {
      CloneInEdge(graph, g0, m, k, es, edges, j);
      j := j + 1;
    }
  }

  lemma NoCopiesYet<P>(es: seq<Edge<P>>, s: seq<Edge<P>>, m: map<nat, nat>, k: nat)
    requires k in m
    ensures es + CopyIn(s[..0], m, k) == es && s[..|s|] == s
  {
  }

  method CloneInEdge<V, P>(graph: BaseGraph<V, P>, ghost g0: GraphState<V, P>, m: map<nat, nat>, k: nat,
                           ghost es: seq<Edge<P>>, edges: seq<Edge<P>>, j: nat)
    requires GraphOk(g0) && FreshClones(g0.slots, m) && k in m && k < |g0.slots|
    requires edges == g0.slots[k].inEdges && j < |edges|
    requires Cloning(g0, m, graph.View(), es + CopyIn(edges[..j], m, k))
    modifies graph
    ensures Cloning(g0, m, graph.View(), es + CopyIn(edges[..j + 1], m, k))
  {
    CopyInNext(es, edges, m, k, j);
    if edges[j].source !in m {
      CopyInOk(g0, m, k, edges[j]);
      AddCopy(graph, g0, m, es + CopyIn(edges[..j], m, k), Edge(edges[j].source, m[k], edges[j].property));
    }
  }

  lemma CopyInNext<P>(es: seq<Edge<P>>, s: seq<Edge<P>>, m: map<nat, nat>, k: nat, j: nat)
    requires k in m && j < |s|
    ensures es + CopyIn(s[..j + 1], m, k) ==
            if s[j].source in m then es + CopyIn(s[..j], m, k)
            else es + CopyIn(s[..j], m, k) + [Edge(s[j].source, m[k], s[j].property)]
  {
    assert s[..j + 1][..j] == s[..j];
  }

  lemma CopyInOk<V, P>(g0: GraphState<V, P>, m: map<nat, nat>, k: nat, e: Edge<P>)
    requires GraphOk(g0) && FreshClones(g0.slots, m) && k in m && k < |g0.slots|
    requires e in g0.slots[k].inEdges && e.source !in m
    ensures var c := Edge(e.source, m[k], e.property);
            CopyShape(|g0.slots|, m, c) && Live(g0.slots, c.source) && Live(g0.slots, c.target)
  {
    EdgesAvoidClones(g0.slots, m, k, e);
    EndpointsLive(g0, k, e);
    assert IsClone(m, m[k]);
  }

  lemma CopiesNext<V, P>(g: Slots<V, P>, m: map<nat, nat>, keys: seq<nat>, i: nat)
    requires i < |keys| && keys[i] in m && keys[i] < |g| && forall k :: k in keys ==> k in m && k < |g|
    ensures Copies(g, m, keys[..i + 1]) == Copies(g, m, keys[..i]) + CopyVertex(g, m, keys[i])
  {
    assert keys[..i + 1][..i] == keys[..i];
  }

  /** `keys` are the keys of the map in the order it is iterated. */
  method CloneGraphEdges<V, P>(graph: BaseGraph<V, P>, vertexMap: map<nat, nat>, keys: seq<nat>)
    requires graph.Valid() && FreshClones(graph.slots, vertexMap) && KeysOf(keys, vertexMap, |graph.slots|)
    modifies graph
    ensures graph.Valid() && IsClonedGraph(old(graph.slots), graph.slots, vertexMap)
  {
    ghost var g0 := graph.View();
    var i := 0;
    while i < |keys|
      invariant 0 <= i <= |keys| && Cloning(g0, vertexMap, graph.View(), Copies(g0.slots, vertexMap, keys[..i]))
    {
      assert keys[i] in keys;
      CloneVertex(graph, g0, vertexMap, keys[i], Copies(g0.slots, vertexMap, keys[..i]));
      CopiesNext(g0.slots, vertexMap, keys, i);
      i := i + 1;
    }
    assert keys[..|keys|] == keys;
    PushedCopiesCloned(g0.slots, vertexMap, keys);
  }

  method CloneVertex<V, P>(graph: BaseGraph<V, P>, ghost g0: GraphState<V, P>, m: map<nat, nat>, k: nat,
                           ghost es: seq<Edge<P>>)
    requires GraphOk(g0) && FreshClones(g0.slots, m)
    requires Cloning(g0, m, graph.View(), es) && k in m && k < |g0.slots|
    modifies graph
    ensures Cloning(g0, m, graph.View(), es + CopyVertex(g0.slots, m, k))
  {
    ghost var out, ins := CopyOut(g0.slots[k].outEdges, m, k), CopyIn(g0.slots[k].inEdges, m, k);
    CloneOutEdges(graph, g0, m, k, es);
    CloneInEdges(graph, g0, m, k, es + out);
    ConcatAssoc(es, out, ins);
  }

  lemma ConcatAssoc<T>(a: seq<T>, b: seq<T>, c: seq<T>)
    ensures a + b + c == a + (b + c)
  {
  }
}
