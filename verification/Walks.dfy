/** Walks and reachability over an arbitrary edge relation on vertex numbers. Every search in the
    linker is specified against `Reach` of the relation it is allowed to follow. */
module Walks {

  type Rel = iset<(nat, nat)>

  ghost predicate IsWalk(E: Rel, p: seq<nat>) {
    && |p| > 0
    && forall i :: 0 <= i < |p| - 1 ==> (p[i], p[i + 1]) in E
  }

  ghost predicate IsWalkFromTo(E: Rel, p: seq<nat>, u: nat, v: nat) {
    IsWalk(E, p) && p[0] == u && p[|p| - 1] == v
  }

  ghost predicate Reach(E: Rel, u: nat, v: nat) {
    exists p :: IsWalkFromTo(E, p, u, v)
  }

  lemma ReachSelf(E: Rel, u: nat)
    ensures Reach(E, u, u)
  {
    assert IsWalkFromTo(E, [u], u, u);
  }

  lemma ReachStep(E: Rel, u: nat, v: nat)
    requires (u, v) in E
    ensures Reach(E, u, v)
  {
    assert IsWalkFromTo(E, [u, v], u, v);
  }

  lemma ReachTrans(E: Rel, u: nat, v: nat, w: nat)
    requires Reach(E, u, v) && Reach(E, v, w)
    ensures Reach(E, u, w)
  {
    var p :| IsWalkFromTo(E, p, u, v);
    var q :| IsWalkFromTo(E, q, v, w);
    var r := p + q[1..];
    forall i | 0 <= i < |r| - 1
      ensures (r[i], r[i + 1]) in E
    {
      if i >= |p| - 1 {
        assert r[i] == q[i - (|p| - 1)] && r[i + 1] == q[i - (|p| - 1) + 1];
      }
    }
    assert IsWalkFromTo(E, r, u, w);
  }

  /** A set that holds `u` and is closed under the relation holds everything `u` reaches. */
  lemma ReachStaysInClosedSet(E: Rel, S: iset<nat>, u: nat, v: nat)
    requires Reach(E, u, v) && u in S
    requires forall x, y :: x in S && (x, y) in E ==> y in S
    ensures v in S
  {
    var p :| IsWalkFromTo(E, p, u, v);
    var i := 0;
    while i < |p| - 1
      invariant 0 <= i <= |p| - 1 && p[i] in S
    {
      assert (p[i], p[i + 1]) in E;
      i := i + 1;
    }
  }

  ghost predicate ClosedUnder(E: Rel, S: iset<nat>) {
    forall x, y :: x in S && (x, y) in E ==> y in S
  }

  /** Reaching a vertex is being forced to hold it: every closed set that holds `u` holds `v`. */
  lemma ReachIffForced(E: Rel, u: nat, v: nat)
    ensures Reach(E, u, v) <==> forall S: iset<nat> :: u in S && ClosedUnder(E, S) ==> v in S
  {
    if Reach(E, u, v) {
      forall S: iset<nat> | u in S && ClosedUnder(E, S)
        ensures v in S
      {
        ReachStaysInClosedSet(E, S, u, v);
      }
    } else {
      var S := iset x: nat | Reach(E, u, x);
      ReachSelf(E, u);
      forall x, y | x in S && (x, y) in E
        ensures y in S
      {
        ReachStep(E, x, y);
        ReachTrans(E, u, x, y);
      }
      assert ClosedUnder(E, S) && u in S && v !in S;
    }
  }

  /** The first step of a walk. */
  lemma FirstStep(E: Rel, v: nat, u: nat)
    requires Reach(E, v, u)
    ensures u == v || exists w :: (v, w) in E && Reach(E, w, u)
  {
    var p :| IsWalkFromTo(E, p, v, u);
    if |p| > 1 {
      var q := p[1..];
      assert (p[0], p[0 + 1]) in E;
      forall i | 0 <= i < |q| - 1
        ensures (q[i], q[i + 1]) in E
      {
        assert (p[i + 1], p[i + 1 + 1]) in E;
      }
      assert IsWalkFromTo(E, q, p[1], u);
    }
  }

  /** The last step of a walk. */
  lemma LastStep(E: Rel, v: nat, u: nat)
    requires Reach(E, v, u)
    ensures u == v || exists w: nat :: Reach(E, v, w) && (w, u) in E
  {
    var p :| IsWalkFromTo(E, p, v, u);
    if |p| > 1 {
      var q := p[..|p| - 1];
      assert (p[|p| - 2], p[|p| - 2 + 1]) in E;
      assert IsWalkFromTo(E, q, v, p[|p| - 2]);
    }
  }

  /** Reachability grows with the relation. */
  lemma ReachMono(E: Rel, F: Rel, u: nat, v: nat)
    requires E <= F && Reach(E, u, v)
    ensures Reach(F, u, v)
  {
    var p :| IsWalkFromTo(E, p, u, v);
    assert IsWalkFromTo(F, p, u, v);
  }

  ghost function Reversed(E: Rel): Rel {
    iset e: (nat, nat) | (e.1, e.0) in E
  }

  /** Walking a relation backwards. */
  lemma {:induction false} ReachReversed(E: Rel, u: nat, v: nat)
    requires Reach(E, u, v)
    ensures Reach(Reversed(E), v, u)
  {
    var S := iset x: nat | Reach(Reversed(E), x, u);
    ReachSelf(Reversed(E), u);
    forall x, y | x in S && (x, y) in E
      ensures y in S
    {
      ReachStep(Reversed(E), y, x);
      ReachTrans(Reversed(E), y, x, u);
    }
    ReachStaysInClosedSet(E, S, u, v);
  }

  /** Shortcuts over existing walks add no new reachability. */
  lemma ReachShortcuts(E: Rel, F: Rel, u: nat, v: nat)
    requires E <= F && forall x, y :: (x, y) in F ==> Reach(E, x, y)
    ensures Reach(F, u, v) <==> Reach(E, u, v)
  {
    if Reach(E, u, v) {
      ReachMono(E, F, u, v);
    }
    if Reach(F, u, v) {
      var S := iset x: nat | Reach(E, u, x);
      ReachSelf(E, u);
      forall x, y | x in S && (x, y) in F
        ensures y in S
      {
        ReachTrans(E, u, x, y);
      }
      ReachStaysInClosedSet(F, S, u, v);
    }
  }

  // ---- pigeonhole --------------------------------------------------------------------------

  ghost predicate Distinct(s: seq<nat>) {
    forall i, j :: 0 <= i < j < |s| ==> s[i] != s[j]
  }

  /** Distinct numbers below `n` are at most `n` many. */
  lemma {:induction false} DistinctFits(s: seq<nat>, n: nat)
    requires Distinct(s) && forall i :: 0 <= i < |s| ==> s[i] < n
    ensures |s| <= n
  {
    if s == [] {
      return;
    }
    assert s[0] < n;
    if i :| 0 <= i < |s| && s[i] == n - 1 {
      DistinctFits(s[..i] + s[i + 1..], n - 1);
    } else {
      DistinctFits(s, n - 1);
    }
  }
}
