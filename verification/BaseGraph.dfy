/** `unique_vector`: linear scans over an edge list. */
module UniqueVector {
  import opened Graphs

  method Insert<T(==)>(vec: seq<T>, x: T) returns (r: seq<T>, isNew: bool)
    ensures isNew <==> x !in vec
    ensures r == if isNew then vec + [x] else vec
  {
    var it := 0;
    while it < |vec|
      invariant 0 <= it <= |vec| && x !in vec[..it]
    {
      if x == vec[it] {
        return vec, false;
      }
      it := it + 1;
    }
    return vec + [x], true;
  }

  lemma {:induction false} FirstErased<T>(vec: seq<T>, x: T, it: nat)
    requires it < |vec| && vec[it] == x && x !in vec[..it]
    ensures RemoveFirst(vec, x) == vec[..it] + vec[it + 1..]
  {
    if it > 0 {
      assert x !in vec[1..][..it - 1] by {
        assert vec[1..][..it - 1] == vec[1..it];
        assert forall y :: y in vec[1..it] ==> y in vec[..it];
      }
      assert vec[0] in vec[..it];
      FirstErased(vec[1..], x, it - 1);
    }
  }

  lemma {:induction false} NothingErased<T>(vec: seq<T>, x: T)
    requires x !in vec
    ensures RemoveFirst(vec, x) == vec
  {
    if vec != [] {
      NothingErased(vec[1..], x);
    }
  }

  method Remove<T(==)>(vec: seq<T>, x: T) returns (r: seq<T>, removed: bool)
    ensures removed <==> x in vec
    ensures r == RemoveFirst(vec, x)
  {
    var it := 0;
    while it < |vec|
      invariant 0 <= it <= |vec| && x !in vec[..it]
    {
      if vec[it] == x {
        FirstErased(vec, x, it);
        return vec[..it] + vec[it + 1..], true;
      }
      it := it + 1;
    }
    NothingErased(vec, x);
    return vec, false;
  }
}

/** The mutable graph class. Every method is proved against the operation of the same name in
    GraphOps. */
module BaseGraphs {
  import opened Graphs
  import opened GraphOps
  import UniqueVector

  class BaseGraph<V, P(==)> {
    var slots: Slots<V, P>
    var size: int
    var edgeSize: int
    var free: seq<nat>

    ghost function View(): GraphState<V, P>
      reads this
    {
      GraphState(slots, size, edgeSize, free)
    }

    ghost predicate Valid()
      reads this
    {
      GraphOk(View())
    }

    constructor ()
      ensures Valid() && View() == GraphState([], 0, 0, [])
    {
      slots, size, edgeSize, free := [], 0, 0, [];
    }

    /** Reuses the most recently removed vertex if there is one. */
    method AddVertex(prop: V) returns (v: nat)
      requires Valid()
      modifies this
      ensures Valid() && View() == AfterAddVertex(old(View()), prop)
      ensures v == NextVertex(old(View())) && Live(slots, v)
    {
      AddVertexKeeps(View(), prop);
      size := size + 1;
      if free != [] {
        // The entry is a valid slot, so the first entry popped is the one reused.
        v := free[|free| - 1];
        free := free[..|free| - 1];
        slots := slots[v := slots[v].(empty := false, property := prop)];
        return;
      }
      v := |slots|;
      slots := slots + [Slot([], [], prop, false)];
    }

    method SetProperty(v: nat, prop: V)
      requires Valid() && v < |slots|
      modifies this
      ensures Valid() && View() == AfterSetProperty(old(View()), v, prop)
    {
      SetPropertyKeeps(View(), v, prop);
      slots := slots[v := slots[v].(property := prop)];
    }

    method AddEdge(e: Edge<P>)
      requires Valid() && Live(slots, e.source) && Live(slots, e.target)
      modifies this
      ensures Valid() && View() == AfterAddEdge(old(View()), e)
    {
      BothListsAgree(slots, e);
      AddEdgeUniqueKeeps(View(), e);
      var s, isNew := UniqueVector.Insert(slots[e.source].outEdges, e);
      if isNew {
        slots := WithOut(slots, e.source, s);
        var t, isNew2 := UniqueVector.Insert(slots[e.target].inEdges, e);
        if isNew2 {
          slots := WithIn(slots, e.target, t);
          edgeSize := edgeSize + 1;
        }
      }
    }

    method AddEdgeUnique(e: Edge<P>)
      requires Valid() && Live(slots, e.source) && Live(slots, e.target)
      modifies this
      ensures Valid() && View() == AfterAddEdgeUnique(old(View()), e)
    {
      AddEdgeUniqueKeeps(View(), e);
      slots := WithOut(slots, e.source, slots[e.source].outEdges + [e]);
      slots := WithIn(slots, e.target, slots[e.target].inEdges + [e]);
      edgeSize := edgeSize + 1;
    }

    method RemoveEdge(e: Edge<P>)
      requires Valid() && InRange(slots, e)
      modifies this
      ensures Valid() && View() == AfterRemoveEdge(old(View()), e)
    {
      BothListsAgree(slots, e);
      RemoveEdgeKeeps(View(), e);
      var s, removed := UniqueVector.Remove(slots[e.source].outEdges, e);
      slots := WithOut(slots, e.source, s);
      var t, removed2 := UniqueVector.Remove(slots[e.target].inEdges, e);
      slots := WithIn(slots, e.target, t);
      if removed && removed2 {
        edgeSize := edgeSize - 1;
      } else {
        UniqueVector.NothingErased(old(slots)[e.source].outEdges, e);
        UniqueVector.NothingErased(old(slots)[e.target].inEdges, e);
        assert slots == old(slots);
      }
    }

    /** Erases every edge that touches `v` from the lists of the other endpoints, then clears `v`. */
    method RemoveVertex(v: nat)
      requires Valid() && Live(slots, v)
      modifies this
      ensures Valid() && View() == AfterRemoveVertex(old(View()), v)
    {
      RemoveVertexKeeps(View(), v);
      edgeSize := edgeSize - |slots[v].inEdges|;
      edgeSize := edgeSize - |slots[v].outEdges|;
      var mid := EraseFromSources(slots, v);
      var end := EraseFromTargets(slots, mid, v);
      EraseDone(slots, mid, end, v);
      slots := end[v := end[v].(inEdges := [], outEdges := [], empty := true)];
      size := size - 1;
      free := free + [v];
    }
  }

  // ---- the two erasing loops of RemoveVertex -------------------------------------------------

  /** The edges into `v` that are still in some out-list are those of `rest`. */
  ghost predicate OutErased<V, P>(was: Slots<V, P>, now: Slots<V, P>, v: nat, rest: seq<Edge<P>>) {
    && |now| == |was| && v < |was|
    && (forall x :: 0 <= x < |was| ==> now[x] == was[x].(outEdges := now[x].outEdges))
    && (forall x, i :: 0 <= x < |was| && 0 <= i < |now[x].outEdges| ==>
          now[x].outEdges[i].source == x && now[x].outEdges[i].target < |was|)
    && (forall i :: 0 <= i < |rest| ==> rest[i].target == v && rest[i].source < |was|)
    && (forall x: nat :: x < |was| ==> Avoiding(now[x].outEdges, v) == Avoiding(was[x].outEdges, v))
    && (forall x: nat :: x < |was| ==> Between(now[x].outEdges, x, v) == Between(rest, x, v))
    && (forall x: nat :: x < |was| && x != v ==> Between(now[v].outEdges, v, x) == Between(was[v].outEdges, v, x))
  }

  lemma OutEraseStart<V, P>(g: Slots<V, P>, v: nat)
    requires Mirrored(g) && v < |g|
    ensures OutErased(g, g, v, g[v].inEdges)
    ensures g[v].inEdges[0..] == g[v].inEdges
  {
  }

  lemma OutEraseLinked<V, P>(was: Slots<V, P>, now: Slots<V, P>, v: nat, e: Edge<P>, rest: seq<Edge<P>>)
    requires OutErased(was, now, v, [e] + rest) && e.source < |now|
    ensures var next := WithOut(now, e.source, RemoveFirst(now[e.source].outEdges, e));
            forall x, i :: 0 <= x < |was| && 0 <= i < |next[x].outEdges| ==>
              next[x].outEdges[i].source == x && next[x].outEdges[i].target < |was|
  {
    var next := WithOut(now, e.source, RemoveFirst(now[e.source].outEdges, e));
    RemoveFirstMembers(now[e.source].outEdges, e);
    forall x, i | 0 <= x < |was| && 0 <= i < |next[x].outEdges|
      ensures next[x].outEdges[i].source == x && next[x].outEdges[i].target < |was|
    {
      assert next[x].outEdges[i] in now[x].outEdges;
    }
  }

  lemma OutEraseStep<V, P>(was: Slots<V, P>, now: Slots<V, P>, v: nat, e: Edge<P>, rest: seq<Edge<P>>)
    requires OutErased(was, now, v, [e] + rest)
    ensures e.source < |now| && e.target == v
    ensures OutErased(was, WithOut(now, e.source, RemoveFirst(now[e.source].outEdges, e)), v, rest)
  {
    assert ([e] + rest)[0] == e && ([e] + rest)[1..] == rest;
    var next := WithOut(now, e.source, RemoveFirst(now[e.source].outEdges, e));
    OutEraseLinked(was, now, v, e, rest);
    forall i | 0 <= i < |rest|
      ensures rest[i].target == v && rest[i].source < |was|
    {
      assert rest[i] == ([e] + rest)[i + 1];
    }
    forall x: nat | x < |was|
      ensures Avoiding(next[x].outEdges, v) == Avoiding(was[x].outEdges, v)
      ensures Between(next[x].outEdges, x, v) == Between(rest, x, v)
    {
      if x == e.source {
        AvoidingRemoveFirst(now[x].outEdges, e, v);
        BetweenRemoveFirst(now[x].outEdges, e, x, v);
      }
    }
    forall x: nat | x < |was| && x != v
      ensures Between(next[v].outEdges, v, x) == Between(was[v].outEdges, v, x)
    {
      BetweenRemoveFirst(now[v].outEdges, e, v, x);
    }
  }

  /** The edges out of `v` that are still in some in-list of another vertex are those of `rest`. */
  ghost predicate InErased<V, P>(mid: Slots<V, P>, now: Slots<V, P>, v: nat, rest: seq<Edge<P>>) {
    && |now| == |mid| && v < |mid|
    && (forall x :: 0 <= x < |mid| ==> now[x] == mid[x].(inEdges := now[x].inEdges))
    && (forall x, i :: 0 <= x < |mid| && 0 <= i < |now[x].inEdges| ==>
          now[x].inEdges[i].target == x && now[x].inEdges[i].source < |mid|)
    && (forall i :: 0 <= i < |rest| ==> rest[i].source == v && rest[i].target < |mid|)
    && (forall x: nat :: x < |mid| ==> Avoiding(now[x].inEdges, v) == Avoiding(mid[x].inEdges, v))
    && (forall x: nat :: x < |mid| && x != v ==> Between(now[x].inEdges, v, x) == Between(rest, v, x))
  }

  lemma InEraseStart<V, P>(was: Slots<V, P>, mid: Slots<V, P>, v: nat)
    requires Mirrored(was) && OutErased(was, mid, v, [])
    ensures InErased(mid, mid, v, mid[v].outEdges)
    ensures mid[v].outEdges[0..] == mid[v].outEdges
  {
  }

  lemma InEraseStep<V, P>(mid: Slots<V, P>, now: Slots<V, P>, v: nat, e: Edge<P>, rest: seq<Edge<P>>)
    requires InErased(mid, now, v, [e] + rest)
    ensures e.target < |now| && e.source == v
    ensures InErased(mid, WithIn(now, e.target, RemoveFirst(now[e.target].inEdges, e)), v, rest)
  {
    assert ([e] + rest)[0] == e && ([e] + rest)[1..] == rest;
    var next := WithIn(now, e.target, RemoveFirst(now[e.target].inEdges, e));
    RemoveFirstMembers(now[e.target].inEdges, e);
    forall x, i | 0 <= x < |mid| && 0 <= i < |next[x].inEdges|
      ensures next[x].inEdges[i].target == x && next[x].inEdges[i].source < |mid|
    {
      assert next[x].inEdges[i] in now[x].inEdges;
    }
    forall i | 0 <= i < |rest|
      ensures rest[i].source == v && rest[i].target < |mid|
    {
      assert rest[i] == ([e] + rest)[i + 1];
    }
    forall x: nat | x < |mid|
      ensures Avoiding(next[x].inEdges, v) == Avoiding(mid[x].inEdges, v)
      ensures x != v ==> Between(next[x].inEdges, v, x) == Between(rest, v, x)
    {
      if x == e.target {
        AvoidingRemoveFirst(now[x].inEdges, e, v);
        BetweenRemoveFirst(now[x].inEdges, e, v, x);
      }
    }
  }

  method EraseFromSources<V, P(==)>(g: Slots<V, P>, v: nat) returns (h: Slots<V, P>)
    requires Mirrored(g) && v < |g|
    ensures OutErased(g, h, v, [])
  {
    h := g;
    var ins := g[v].inEdges;
    OutEraseStart(g, v);
    var i := 0;
    while i < |ins|
      invariant 0 <= i <= |ins| && OutErased(g, h, v, ins[i..])
    {
      var e := ins[i];
      assert ins[i..] == [e] + ins[i + 1..];
      OutEraseStep(g, h, v, e, ins[i + 1..]);
      var s, _ := UniqueVector.Remove(h[e.source].outEdges, e);
      h := WithOut(h, e.source, s);
      i := i + 1;
    }
  }

  method EraseFromTargets<V, P(==)>(ghost was: Slots<V, P>, mid: Slots<V, P>, v: nat) returns (h: Slots<V, P>)
    requires Mirrored(was) && OutErased(was, mid, v, [])
    ensures InErased(mid, h, v, [])
  {
    h := mid;
    var outs := mid[v].outEdges;
    InEraseStart(was, mid, v);
    var i := 0;
    while i < |outs|
      invariant 0 <= i <= |outs| && InErased(mid, h, v, outs[i..])
    {
      var e := outs[i];
      assert outs[i..] == [e] + outs[i + 1..];
      InEraseStep(mid, h, v, e, outs[i + 1..]);
      var s, _ := UniqueVector.Remove(h[e.target].inEdges, e);
      h := WithIn(h, e.target, s);
      i := i + 1;
    }
  }

  /** After both loops only `v` itself still has lists to clear. */
  lemma EraseDone<V, P>(was: Slots<V, P>, mid: Slots<V, P>, now: Slots<V, P>, v: nat)
    requires Linked(was) && OutErased(was, mid, v, []) && InErased(mid, now, v, [])
    ensures now[v := now[v].(inEdges := [], outEdges := [], empty := true)] == Isolated(was, v)
  {
    var h := Isolated(was, v);
    AvoidingEmpty(was[v].outEdges, v);
    AvoidingEmpty(was[v].inEdges, v);
    forall x: nat | x < |was| && x != v
      ensures now[x] == h[x]
    {
      EraseDoneAt(was, mid, now, v, x);
    }
  }

  lemma EraseDoneAt<V, P>(was: Slots<V, P>, mid: Slots<V, P>, now: Slots<V, P>, v: nat, x: nat)
    requires OutErased(was, mid, v, []) && InErased(mid, now, v, []) && x < |was| && x != v
    ensures now[x] == Isolated(was, v)[x]
  {
    forall e | e in now[x].outEdges
      ensures e.source != v && e.target != v
    {
      BetweenMembers(mid[x].outEdges, x, v, e);
    }
    AvoidingNothing(now[x].outEdges, v);
    forall e | e in now[x].inEdges
      ensures e.source != v && e.target != v
    {
      BetweenMembers(now[x].inEdges, v, x, e);
    }
    AvoidingNothing(now[x].inEdges, v);
  }
}
