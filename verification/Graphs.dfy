/** The linker's multigraph as a value: every vertex slot holds an out-list and an in-list, and the
    two lists must tell the same story about every pair of vertices. */
module Graphs {

  datatype Edge<P> = Edge(source: nat, target: nat, property: P)

  datatype Slot<V, P> = Slot(outEdges: seq<Edge<P>>, inEdges: seq<Edge<P>>, property: V, empty: bool)

  type Slots<V, P> = seq<Slot<V, P>>

  // ---- edge lists --------------------------------------------------------------------------

  /** The edges of a list that run from `u` to `v`, in list order. */
  function Between<P>(s: seq<Edge<P>>, u: nat, v: nat): seq<Edge<P>> {
    if s == [] then []
    else if s[0].source == u && s[0].target == v then [s[0]] + Between(s[1..], u, v)
    else Between(s[1..], u, v)
  }

  /** The edges of a list that do not touch `v`, in list order. */
  function Avoiding<P>(s: seq<Edge<P>>, v: nat): seq<Edge<P>> {
    if s == [] then []
    else if s[0].source != v && s[0].target != v then [s[0]] + Avoiding(s[1..], v)
    else Avoiding(s[1..], v)
  }

  /** `unique_vector::remove`: the list without the first occurrence of `x`. */
  function RemoveFirst<T(==)>(s: seq<T>, x: T): seq<T> {
    if s == [] then [] else if s[0] == x then s[1..] else [s[0]] + RemoveFirst(s[1..], x)
  }

  lemma {:induction false} BetweenMembers<P>(s: seq<Edge<P>>, u: nat, v: nat, e: Edge<P>)
    ensures e in Between(s, u, v) <==> e in s && e.source == u && e.target == v
  {
    if s != [] {
      BetweenMembers(s[1..], u, v, e);
    }
  }

  lemma {:induction false} AvoidingMembers<P>(s: seq<Edge<P>>, v: nat, e: Edge<P>)
    ensures e in Avoiding(s, v) <==> e in s && e.source != v && e.target != v
  {
    if s != [] {
      AvoidingMembers(s[1..], v, e);
    }
  }

  lemma {:induction false} BetweenConcat<P>(s: seq<Edge<P>>, t: seq<Edge<P>>, u: nat, v: nat)
    ensures Between(s + t, u, v) == Between(s, u, v) + Between(t, u, v)
  {
    if s == [] {
      assert s + t == t;
    } else {
      assert (s + t)[1..] == s[1..] + t;
      BetweenConcat(s[1..], t, u, v);
    }
  }

  lemma BetweenAppend<P>(s: seq<Edge<P>>, e: Edge<P>, u: nat, v: nat)
    ensures Between(s + [e], u, v) == Between(s, u, v) + if e.source == u && e.target == v then [e] else []
  {
    BetweenConcat(s, [e], u, v);
    assert [e][1..] == [];
  }

  lemma {:induction false} BetweenRemoveFirst<P>(s: seq<Edge<P>>, e: Edge<P>, u: nat, v: nat)
    ensures Between(RemoveFirst(s, e), u, v) ==
            if e.source == u && e.target == v then RemoveFirst(Between(s, u, v), e) else Between(s, u, v)
  {
    if s != [] && s[0] != e {
      var rest := RemoveFirst(s[1..], e);
      assert ([s[0]] + rest)[1..] == rest;
      BetweenRemoveFirst(s[1..], e, u, v);
    }
  }

  lemma {:induction false} AvoidingRemoveFirst<P>(s: seq<Edge<P>>, e: Edge<P>, v: nat)
    requires e.source == v || e.target == v
    ensures Avoiding(RemoveFirst(s, e), v) == Avoiding(s, v)
  {
    if s != [] && s[0] != e {
      var rest := RemoveFirst(s[1..], e);
      assert ([s[0]] + rest)[1..] == rest;
      AvoidingRemoveFirst(s[1..], e, v);
    }
  }

  lemma {:induction false} BetweenAvoiding<P>(s: seq<Edge<P>>, x: nat, u: nat, v: nat)
    ensures Between(Avoiding(s, x), u, v) == if u == x || v == x then [] else Between(s, u, v)
  {
    if s != [] {
      BetweenAvoiding(s[1..], x, u, v);
      var rest := Avoiding(s[1..], x);
      assert ([s[0]] + rest)[1..] == rest;
    }
  }

  lemma {:induction false} AvoidingNothing<P>(s: seq<Edge<P>>, v: nat)
    requires forall e :: e in s ==> e.source != v && e.target != v
    ensures Avoiding(s, v) == s
  {
    if s != [] {
      assert s[0] in s;
      AvoidingNothing(s[1..], v);
    }
  }

  lemma {:induction false} BetweenCounts<P>(s: seq<Edge<P>>, e: Edge<P>)
    ensures multiset(Between(s, e.source, e.target))[e] == multiset(s)[e]
  {
    if s != [] {
      BetweenCounts(s[1..], e);
      assert s == [s[0]] + s[1..];
    }
  }

  // ---- the mirror invariant ----------------------------------------------------------------

  ghost predicate Linked<V, P>(g: Slots<V, P>) {
    && (forall u, i :: 0 <= u < |g| && 0 <= i < |g[u].outEdges| ==>
          g[u].outEdges[i].source == u && g[u].outEdges[i].target < |g|)
    && (forall v, i :: 0 <= v < |g| && 0 <= i < |g[v].inEdges| ==>
          g[v].inEdges[i].target == v && g[v].inEdges[i].source < |g|)
  }

  /** Out-lists and in-lists hold the same edges between every two vertices, in the same order. */
  ghost predicate Mirrored<V, P>(g: Slots<V, P>) {
    && Linked(g)
    && forall u: nat, v: nat :: u < |g| && v < |g| ==>
         Between(g[u].outEdges, u, v) == Between(g[v].inEdges, u, v)
  }

  /** The multiplicity of an edge is the same in its source's out-list and its target's in-list. */
  lemma MirrorMultiplicity<V, P>(g: Slots<V, P>, e: Edge<P>)
    requires Mirrored(g) && e.source < |g| && e.target < |g|
    ensures multiset(g[e.source].outEdges)[e] == multiset(g[e.target].inEdges)[e]
  {
    BetweenCounts(g[e.source].outEdges, e);
    BetweenCounts(g[e.target].inEdges, e);
  }

  // ---- counting edges ----------------------------------------------------------------------

  /** The number of edges that leave the first `k` slots. */
  function OutCount<V, P>(g: Slots<V, P>, k: nat): nat
    requires k <= |g|
  {
    if k == 0 then 0 else OutCount(g, k - 1) + |g[k - 1].outEdges|
  }

  function EdgeCount<V, P>(g: Slots<V, P>): nat {
    OutCount(g, |g|)
  }
}
