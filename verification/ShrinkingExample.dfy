/** Runs in which a move to fewer pages overwrites a page of another owner. They start at any initial
    state with enough pages, one for each way to count pages, and all their answers are free. */
module ShrinkingExample {
  import opened Options
  import opened PageBitmap
  import opened PageAllocator
  import opened PageContents

  lemma {:induction false} RunSnoc(cursor: nat, s: State, ops: seq<Op>, op: Op)
    requires LegalRun(cursor, s, ops) && AnswersFree(cursor, s, ops)
    requires Legal(After(cursor, s, ops), op) && GrantIsFree(cursor, After(cursor, s, ops), op)
    ensures LegalRun(cursor, s, ops + [op]) && AnswersFree(cursor, s, ops + [op])
    ensures After(cursor, s, ops + [op]) == Step(cursor, After(cursor, s, ops), op)
    decreases |ops|
  {
    if ops == [] {
      assert ops + [op] == [op] && [op][1..] == [];
    } else {
      RunSnoc(cursor, Step(cursor, s, ops[0]), ops[1..], op);
      assert (ops + [op])[1..] == ops[1..] + [op];
    }
  }

  /** First fit, where every free page before it is followed by a used one. */
  lemma FitsAt(used: seq<bool>, w: nat, n: nat)
    requires Window(used, w, n) && n > 0
    requires forall v {:trigger used[v]} :: 0 <= v < w ==> used[v] || (n > 1 && v + 1 < |used| && used[v + 1])
    ensures FirstFit(used, n) == Some(w)
  {
    forall v: nat | v < w
      ensures !Window(used, v, n)
    {
      assert used[v] || used[v + 1];
    }
    FirstFitIff(used, n);
    assert FirstWindow(used, w, n);
  }

  /** The run so far has led to `t`. */
  ghost predicate LeadsTo(cursor: nat, s: State, ops: seq<Op>, t: State) {
    LegalRun(cursor, s, ops) && AnswersFree(cursor, s, ops) && After(cursor, s, ops) == t
  }

  /** After a few requests: everything before `end` is used, save for `holes`. */
  ghost predicate Laid(s: State, t: State, end: nat, holes: set<nat>, live: seq<Run>) {
    && t.reserved == s.reserved && |t.used| == |s.used| && |t.mapped| == |s.mapped|
    && |t.pages| == end == t.firstUnused && t.live == live
    && forall p :: 0 <= p < |t.used| ==> (t.used[p] <==> p < end && p !in holes)
  }

  /** The page that a cursor of 1 passes over. */
  function Passed(end: nat, cursor: nat): set<nat> {
    if cursor == 0 then {} else {end}
  }

  /** The holes are one page each. */
  ghost predicate SmallHoles(holes: set<nat>, end: nat) {
    forall h :: h in holes ==> h + 1 < end && h + 1 !in holes
  }

  /** A request is answered behind the pages in use. With cursor 1 the holes are one page each, too
      small for a request of two. */
  lemma Ask(cursor: nat, s: State, ops: seq<Op>, t: State, end: nat, holes: set<nat>, i: nat, count: nat)
    returns (t': State)
    requires LeadsTo(cursor, s, ops, t) && Laid(s, t, end, holes, t.live) && i < |t.mapped| && count > 0
    requires end + cursor + count <= |t.used|
    requires cursor <= 1 && SmallHoles(holes, end) && (holes == {} || count > 1)
    ensures LeadsTo(cursor, s, ops + [Request(i, count)], t')
    ensures Laid(s, t', end + cursor + count, holes + Passed(end, cursor), t.live + [Run(end + cursor, count)])
    ensures SmallHoles(holes + Passed(end, cursor), end + cursor + count)
    ensures t'.pages[end + cursor] == ZeroPage()
  {
    FitsBehind(s, t, end, holes, count);
    RunSnoc(cursor, s, ops, Request(i, count));
    LaidNext(cursor, s, t, end, holes, i, count);
    t' := HandOut(Remapped(t, i), i, end + cursor, count);
  }

  lemma FitsBehind(s: State, t: State, end: nat, holes: set<nat>, count: nat)
    requires Laid(s, t, end, holes, t.live) && end + count <= |t.used| && count > 0
    requires SmallHoles(holes, end) && (holes == {} || count > 1)
    ensures FirstFit(t.used, count) == Some(end)
    ensures forall w :: end <= w && w + count <= |t.used| ==> Window(t.used, w, count)
  {
    FitsAt(t.used, end, count);
  }

  lemma LaidNext(cursor: nat, s: State, t: State, end: nat, holes: set<nat>, i: nat, count: nat)
    requires Laid(s, t, end, holes, t.live) && i < |t.mapped| && count > 0 && cursor <= 1 && SmallHoles(holes, end)
    ensures var t' := HandOut(Remapped(t, i), i, end + cursor, count);
            && Laid(s, t', end + cursor + count, holes + Passed(end, cursor), t.live + [Run(end + cursor, count)])
            && SmallHoles(holes + Passed(end, cursor), end + cursor + count)
            && t'.pages[end + cursor] == ZeroPage()
  {
  }

  /** Page `p` changes owners' contents in the last step of the run: it is owned before and after, its
      owner neither moved nor wrote it, and its contents are others. */
  ghost predicate LosesData(cursor: nat, s: State, ops: seq<Op>, op: Op, p: nat)
    requires op.Move?
  {
    && LegalRun(cursor, s, ops) && AnswersFree(cursor, s, ops)
    && var t := After(cursor, s, ops);
       && Legal(t, op) && RunIsFree(cursor, t, op.size) && CopyDefined(cursor, t, op.pos, op.count, op.size)
       && var u := Step(cursor, t, op);
          && Owned(t, p) && Owned(u, p) && !Touches(op, p)
          && p < |t.pages| && p < |u.pages| && t.pages[p] != u.pages[p]
  }

  lemma GiveBackAndStore(cursor: nat, s: State, ops: seq<Op>, t: State, pos: nat, count: nat, p: nat, data: Page)
    returns (t': State)
    requires LeadsTo(cursor, s, ops, t) && t.reserved <= pos && pos + count <= |t.used|
    requires p < |t.pages| && Owned(t, p) && !(pos <= p < pos + count)
    ensures LeadsTo(cursor, s, ops + [Free(pos, count)] + [Store(p, data)], t')
    ensures t' == AfterFree(t, pos, count).(pages := t.pages[p := data])
    ensures forall q: nat :: Taken(t', q) <==> Taken(t, q) && !(pos <= q < pos + count)
  {
    RunSnoc(cursor, s, ops, Free(pos, count));
    TakenAfterFree(t, pos, count, p);
    RunSnoc(cursor, s, ops + [Free(pos, count)], Store(p, data));
    t' := AfterFree(t, pos, count).(pages := t.pages[p := data]);
    forall q: nat
      ensures Taken(t', q) <==> Taken(t, q) && !(pos <= q < pos + count)
    {
      TakenAfterFree(t, pos, count, q);
      assert Taken(t', q) <==> Taken(AfterFree(t, pos, count), q);
    }
  }

  /** An owned page behind the answer gets what the moved page `q` holds. */
  lemma Overwritten(cursor: nat, s: State, ops: seq<Op>, t: State, op: Op, to: nat, p: nat, q: nat)
    requires Initial(s) && LeadsTo(cursor, s, ops, t) && op.Move? && Legal(t, op) && RunIsFree(cursor, t, op.size)
    requires Answer(cursor, t, op.size) == Some(to) && Exposed(cursor, t, op, p) && q == op.pos + p - to
    requires to + op.count <= |t.pages| && op.pos + op.count <= to && t.pages[p] != t.pages[q]
    ensures LosesData(cursor, s, ops, op, p)
  {
    ReachedIsSafe(cursor, s, ops, t);
    LastMove(cursor, t, op, to, p, q);
  }

  lemma LastMove(cursor: nat, t: State, op: Op, to: nat, p: nat, q: nat)
    requires Safe(t) && HighWater(t) && op.Move? && Legal(t, op) && RunIsFree(cursor, t, op.size)
    requires Answer(cursor, t, op.size) == Some(to) && Exposed(cursor, t, op, p) && q == op.pos + p - to
    requires to + op.count <= |t.pages| && op.pos + op.count <= to && t.pages[p] != t.pages[q]
    ensures CopyDefined(cursor, t, op.pos, op.count, op.size) && !Touches(op, p)
    ensures var u := Step(cursor, t, op); Owned(u, p) && p < |u.pages| && t.pages[p] != u.pages[p]
  {
    MovedOver(cursor, t, op.process, op.pos, op.count, op.size, p);
  }

  lemma ReachedIsSafe(cursor: nat, s: State, ops: seq<Op>, t: State)
    requires Initial(s) && LeadsTo(cursor, s, ops, t)
    ensures Safe(t) && HighWater(t)
  {
    InitialIsSafe(s);
    RunSafeIff(cursor, s, ops);
    SafeAtEnd(cursor, s, ops);
    EveryRunHandsOutZero(cursor, s, ops);
  }

  lemma {:induction false} SafeAtEnd(cursor: nat, s: State, ops: seq<Op>)
    requires LegalRun(cursor, s, ops) && SafeThroughout(cursor, s, ops)
    ensures Safe(After(cursor, s, ops))
    decreases |ops|
  {
    if ops != [] {
      SafeAtEnd(cursor, Step(cursor, s, ops[0]), ops[1..]);
    }
  }

  lemma TakenIn(t: State, k: nat, p: nat)
    requires k < |t.live| && Holds(t.live[k], p)
    ensures Taken(t, p)
  {
  }

  // ---- the page looked at is handed out ----------------------------------------------------------

  lemma ExaminedRequests(s: State, i: nat) returns (ops: seq<Op>, t: State)
    requires Initial(s) && i < |s.mapped| && s.reserved + 4 <= |s.used|
    ensures var r := s.reserved;
            && LeadsTo(0, s, ops, t) && Laid(s, t, r + 4, {}, [Run(r, 2), Run(r + 2, 1), Run(r + 3, 1)])
            && t.pages[r + 3] == ZeroPage()
  {
    var r := s.reserved;
    ops, t := [], s;
    t := Ask(0, s, ops, t, r, {}, i, 2);
    ops := ops + [Request(i, 2)];
    t := Ask(0, s, ops, t, r + 2, {}, i, 1);
    ops := ops + [Request(i, 1)];
    t := Ask(0, s, ops, t, r + 3, {}, i, 1);
    ops := ops + [Request(i, 1)];
  }

  /** The owner of the first two of four pages gives up one; what was in its second page ends up in
      the last of the four. */
  lemma ExaminedShrinkingLosesData(s: State, i: nat, data: Page) returns (ops: seq<Op>)
    requires Initial(s) && i < |s.mapped| && s.reserved + 4 <= |s.used| && data != ZeroPage()
    ensures LosesData(0, s, ops, Move(i, s.reserved, 2, 1), s.reserved + 3)
  {
    var r, t := s.reserved, s;
    ops, t := ExaminedRequests(s, i);
    TakenIn(t, 0, r);
    TakenIn(t, 0, r + 1);
    TakenIn(t, 2, r + 3);
    var t' := GiveBackAndStore(0, s, ops, t, r + 2, 1, r + 1, data);
    ops := ops + [Free(r + 2, 1)] + [Store(r + 1, data)];
    FitsAt(t'.used, r + 2, 1);
    Overwritten(0, s, ops, t', Move(i, r, 2, 1), r + 2, r + 3, r + 1);
  }

  // ---- as the code counts ------------------------------------------------------------------------

  lemma ShiftedRequests(s: State, i: nat) returns (ops: seq<Op>, t: State)
    requires Initial(s) && i < |s.mapped| && s.reserved + 11 <= |s.used|
    ensures var r := s.reserved;
            && LeadsTo(1, s, ops, t)
            && Laid(s, t, r + 11, {r, r + 5, r + 8}, [Run(r + 1, 4), Run(r + 6, 2), Run(r + 9, 2)])
            && t.pages[r + 9] == ZeroPage()
  {
    var r := s.reserved;
    ops, t := [], s;
    t := Ask(1, s, ops, t, r, {}, i, 4);
    ops := ops + [Request(i, 4)];
    assert {} + Passed(r, 1) == {r};
    t := Ask(1, s, ops, t, r + 5, {r}, i, 2);
    ops := ops + [Request(i, 2)];
    assert {r} + Passed(r + 5, 1) == {r, r + 5};
    t := Ask(1, s, ops, t, r + 8, {r, r + 5}, i, 2);
    ops := ops + [Request(i, 2)];
    assert {r, r + 5} + Passed(r + 8, 1) == {r, r + 5, r + 8};
  }

  /** The same as the code counts pages. */
  lemma ShiftedShrinkingLosesData(s: State, i: nat, data: Page) returns (ops: seq<Op>)
    requires Initial(s) && i < |s.mapped| && s.reserved + 11 <= |s.used| && data != ZeroPage()
    ensures LosesData(1, s, ops, Move(i, s.reserved + 1, 4, 2), s.reserved + 9)
  {
    var r, t := s.reserved, s;
    ops, t := ShiftedRequests(s, i);
    forall p | r + 1 <= p < r + 5
      ensures Taken(t, p)
    {
      TakenIn(t, 0, p);
    }
    TakenIn(t, 2, r + 9);
    var t' := GiveBackAndStore(1, s, ops, t, r + 6, 2, r + 4, data);
    ops := ops + [Free(r + 6, 2)] + [Store(r + 4, data)];
    FitsAt(t'.used, r + 5, 2);
    Overwritten(1, s, ops, t', Move(i, r + 1, 4, 2), r + 6, r + 9, r + 4);
  }
}
