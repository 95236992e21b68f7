/** Contents and mappings of the shared segment: everything handed out is zero, receivers of messages
    have mapped what was handed out, and owners keep their data. The last fails for a move to fewer
    pages, which copies all the old ones; here is exactly when. */
module PageContents {
  import opened Options
  import opened PageBitmap
  import opened PageAllocator

  // ---- the high-water mark -----------------------------------------------------------------------

  /** Pages from the high-water mark on were never written, so they are zero; and no process has
      mapped more than there is. */
  ghost predicate HighWater(s: State) {
    && s.reserved <= s.firstUnused <= |s.pages|
    && (forall p :: s.firstUnused <= p < |s.pages| ==> s.pages[p] == ZeroPage())
    && (forall k :: 0 <= k < |s.live| ==> s.live[k].count > 0 ==> s.live[k].pos + s.live[k].count <= s.firstUnused)
    && forall i :: 0 <= i < |s.mapped| ==> s.mapped[i] <= |s.pages|
  }

  /** There is nothing above the mark, as after `init` and ever since. */
  predicate Full(s: State) {
    s.firstUnused == |s.pages|
  }

  predicate Shrinks(op: Op) {
    op.Move? && op.size < op.count
  }

  /** Nothing above the mark can be written: there is nothing, or no move copies more than it gets. */
  predicate MarkHolds(s: State, ops: seq<Op>) {
    Full(s) || forall i :: 0 <= i < |ops| ==> !Shrinks(ops[i])
  }

  lemma InitialHighWater(s: State)
    requires Initial(s)
    ensures HighWater(s) && Full(s)
  {
  }

  lemma OwnedIsBelowMark(s: State, p: nat)
    requires HighWater(s) && Owned(s, p)
    ensures p < s.firstUnused
  {
    if p >= s.reserved {
      var k :| 0 <= k < |s.live| && Holds(s.live[k], p);
    }
  }

  /** Whatever the cursor, the pages handed out are zero, the process that asked has them mapped,
      and no other page of the segment changes. */
  lemma HandedOutZero(s: State, process: nat, pos: nat, count: nat)
    requires HighWater(s) && process < |s.mapped|
    ensures var t := HandOut(s, process, pos, count);
            && pos + count <= |t.pages| == t.mapped[process]
            && (forall p :: pos <= p < pos + count ==> t.pages[p] == ZeroPage())
            && forall p :: 0 <= p < |s.pages| && !(pos <= p < pos + count) ==> t.pages[p] == s.pages[p]
  {
  }

  lemma HandOutKeepsHighWater(s: State, process: nat, pos: nat, count: nat)
    requires HighWater(s) && process < |s.mapped|
    ensures var t := HandOut(s, process, pos, count); HighWater(t) && (Full(s) ==> Full(t))
  {
  }

  lemma FreeKeepsHighWater(s: State, pos: nat, count: nat)
    requires HighWater(s)
    ensures HighWater(AfterFree(s, pos, count))
  {
    TrimmedBelow(s.live, pos, pos + count, s.firstUnused);
  }

  lemma TrimmedBelow(live: seq<Run>, lo: nat, hi: nat, bound: nat)
    requires forall k :: 0 <= k < |live| ==> live[k].count > 0 ==> live[k].pos + live[k].count <= bound
    ensures var t := Trimmed(live, lo, hi);
            forall j :: 0 <= j < |t| ==> t[j].count > 0 ==> t[j].pos + t[j].count <= bound
  {
    var t := Trimmed(live, lo, hi);
    forall j | 0 <= j < |t|
      ensures t[j].count > 0 ==> t[j].pos + t[j].count <= bound
    {
      var r := live[Source(|live|, j)];
      assert t[j] == if j < |live| then Before(r, lo) else Behind(r, hi);
    }
  }

  lemma MoveKeepsHighWater(cursor: nat, s: State, process: nat, pos: nat, count: nat, size: nat)
    requires HighWater(s) && process < |s.mapped| && (Full(s) || count <= size)
    ensures var t := AfterMove(cursor, s, process, pos, count, size); HighWater(t) && (Full(s) ==> Full(t))
  {
    if Answer(cursor, s, size).Some? {
      var to := Answer(cursor, s, size).value;
      HandOutKeepsHighWater(s, process, to, size);
      TrimmedBelow(s.live, pos, pos + count, s.firstUnused);
    }
  }

  lemma StepKeepsHighWater(cursor: nat, s: State, op: Op)
    requires HighWater(s) && Legal(s, op) && (Full(s) || !Shrinks(op))
    ensures var t := Step(cursor, s, op); HighWater(t) && (Full(s) ==> Full(t))
  {
    match op
    case Request(i, count) =>
    case Free(pos, count) => FreeKeepsHighWater(s, pos, count);
    case Move(i, pos, count, size) => MoveKeepsHighWater(cursor, s, i, pos, count, size);
    case Store(p, data) => OwnedIsBelowMark(s, p);
    case Receive(i) =>
  }

  /** The segment, the high-water mark and the mapped sizes only grow; what is handed out lies below
      the mark; a request and a message leave the whole segment mapped. */
  lemma StepGrows(cursor: nat, s: State, op: Op)
    requires HighWater(s) && Legal(s, op)
    ensures var t := Step(cursor, s, op);
            && |s.pages| <= |t.pages| && s.firstUnused <= t.firstUnused && |t.mapped| == |s.mapped|
            && (forall i :: 0 <= i < |s.mapped| ==> s.mapped[i] <= t.mapped[i])
            && (op.Receive? || op.Request? || Granted(cursor, s, op).Some? ==> t.mapped[op.process] == |t.pages|)
            && (Granted(cursor, s, op).Some? ==>
                  var r := Granted(cursor, s, op).value; r.pos + r.count <= t.firstUnused)
  {
  }

  /** One step of a run, for the inductions below. */
  lemma RunStep(cursor: nat, s: State, ops: seq<Op>)
    requires HighWater(s) && LegalRun(cursor, s, ops) && MarkHolds(s, ops) && ops != []
    ensures var t := Step(cursor, s, ops[0]); HighWater(t) && MarkHolds(t, ops[1..])
  {
    StepKeepsHighWater(cursor, s, ops[0]);
  }

  // ---- zero pages --------------------------------------------------------------------------------

  /** How many of the pages answered come with contents: a move copies the old ones. */
  function CopiedPages(op: Op): nat {
    if op.Move? then op.count else 0
  }

  /** The pages handed out, behind what a move copies, are zero. */
  ghost predicate GrantIsZero(cursor: nat, s: State, op: Op)
    requires Legal(s, op)
  {
    var t, grant := Step(cursor, s, op), Granted(cursor, s, op);
    grant.Some? ==>
      var r := grant.value;
      && r.pos + r.count <= |t.pages|
      && forall p :: r.pos + CopiedPages(op) <= p < r.pos + r.count ==> t.pages[p] == ZeroPage()
  }

  /** Every request and every move of the run is answered with zero pages. */
  ghost predicate AnswersZero(cursor: nat, s: State, ops: seq<Op>)
    requires LegalRun(cursor, s, ops)
    decreases |ops|
  {
    ops == [] || (GrantIsZero(cursor, s, ops[0]) && AnswersZero(cursor, Step(cursor, s, ops[0]), ops[1..]))
  }

  lemma StepGrantsZero(cursor: nat, s: State, op: Op)
    requires HighWater(s) && Legal(s, op)
    ensures GrantIsZero(cursor, s, op)
  {
    var grant := Granted(cursor, s, op);
    if grant.Some? {
      var state := if op.Request? then Remapped(s, op.process) else s;
      HandedOutZero(state, op.process, grant.value.pos, grant.value.count);
    }
  }

  /** In every run, with any cursor: the segment only grows, no process has mapped more than there
      is, and everything handed out is zero. Runs that start with `init` meet the condition. */
  lemma {:induction false} RunHandsOutZero(cursor: nat, s: State, ops: seq<Op>)
    requires HighWater(s) && LegalRun(cursor, s, ops) && MarkHolds(s, ops)
    ensures AnswersZero(cursor, s, ops)
    ensures var t := After(cursor, s, ops);
            && HighWater(t) && (Full(s) ==> Full(t))
            && |s.pages| <= |t.pages| && s.firstUnused <= t.firstUnused && |t.mapped| == |s.mapped|
    decreases |ops|
  {
    if ops != [] {
      StepKeepsHighWater(cursor, s, ops[0]);
      StepGrows(cursor, s, ops[0]);
      StepGrantsZero(cursor, s, ops[0]);
      RunHandsOutZero(cursor, Step(cursor, s, ops[0]), ops[1..]);
    }
  }

  /** From `init` on, with moves to fewer pages or without. */
  lemma EveryRunHandsOutZero(cursor: nat, s: State, ops: seq<Op>)
    requires Initial(s) && LegalRun(cursor, s, ops)
    ensures AnswersZero(cursor, s, ops) && HighWater(After(cursor, s, ops)) && Full(After(cursor, s, ops))
  {
    InitialHighWater(s);
    RunHandsOutZero(cursor, s, ops);
  }

  // ---- what receivers have mapped ----------------------------------------------------------------

  /** The page was handed out at some point of the run. */
  ghost predicate HandedOut(cursor: nat, s: State, ops: seq<Op>, p: nat)
    requires LegalRun(cursor, s, ops)
    decreases |ops|
  {
    ops != [] &&
    ((Granted(cursor, s, ops[0]).Some? && Holds(Granted(cursor, s, ops[0]).value, p)) ||
     HandedOut(cursor, Step(cursor, s, ops[0]), ops[1..], p))
  }

  lemma {:induction false} HandedOutIsBelowMark(cursor: nat, s: State, ops: seq<Op>, p: nat)
    requires HighWater(s) && LegalRun(cursor, s, ops) && MarkHolds(s, ops) && HandedOut(cursor, s, ops, p)
    ensures p < After(cursor, s, ops).firstUnused
    decreases |ops|
  {
    RunStep(cursor, s, ops);
    StepGrows(cursor, s, ops[0]);
    var t := Step(cursor, s, ops[0]);
    if HandedOut(cursor, t, ops[1..], p) {
      HandedOutIsBelowMark(cursor, t, ops[1..], p);
    } else {
      RunHandsOutZero(cursor, t, ops[1..]);
    }
  }

  /** Once a process has received a message, it has mapped every page that anyone was handed before,
      and the allocator's own. */
  lemma ReceiverMapsEverything(cursor: nat, s: State, ops: seq<Op>, process: nat, p: nat)
    requires Initial(s) && LegalRun(cursor, s, ops) && process < |s.mapped|
    requires p < s.reserved || HandedOut(cursor, s, ops, p)
    ensures var t := After(cursor, s, ops); process < |t.mapped| && p < Remapped(t, process).mapped[process]
  {
    InitialHighWater(s);
    RunHandsOutZero(cursor, s, ops);
    if p >= s.reserved {
      HandedOutIsBelowMark(cursor, s, ops, p);
    }
  }

  // ---- what a move copies over -------------------------------------------------------------------

  /** Page `p` lies behind the run that a move to fewer pages is answered with, where it copies to all
      the same. */
  ghost predicate CopiedOver(cursor: nat, s: State, op: Op, p: nat) {
    op.Move? &&
    var answer := Answer(cursor, s, op.size);
    answer.Some? && answer.value + op.size <= p < answer.value + op.count
  }

  /** Handing out free pages leaves owned pages alone. */
  lemma HandOutSparesOwned(s: State, process: nat, pos: nat, count: nat, p: nat)
    requires Safe(s) && HighWater(s) && process < |s.mapped| && (count > 0 ==> Window(s.used, pos, count))
    requires Owned(s, p)
    ensures p < |s.pages| && !(pos <= p < pos + count) && HandOut(s, process, pos, count).pages[p] == s.pages[p]
  {
    OwnedIsBelowMark(s, p);
  }

  lemma PageAfterMove(cursor: nat, s: State, process: nat, pos: nat, count: nat, size: nat, to: nat, p: nat)
    requires process < |s.mapped| && Answer(cursor, s, size) == Some(to) && p < |s.pages|
    ensures var t, h := AfterMove(cursor, s, process, pos, count, size), HandOut(s, process, to, size);
            && |s.pages| <= |t.pages| == |h.pages|
            && t.pages[p] == if to != pos && to <= p < to + count && pos + p - to < |h.pages|
                             then h.pages[pos + p - to] else h.pages[p]
  {
  }

  /** The page that `p` gets from a move: an owned page that is not moved keeps its contents, or gets
      those of the moved page that is copied over it. */
  lemma MovedOver(cursor: nat, s: State, process: nat, pos: nat, count: nat, size: nat, p: nat)
    requires Safe(s) && HighWater(s) && Legal(s, Move(process, pos, count, size)) && RunIsFree(cursor, s, size)
    requires Owned(s, p) && !(pos <= p < pos + count)
    ensures var t, op := AfterMove(cursor, s, process, pos, count, size), Move(process, pos, count, size);
            && p < |s.pages| <= |t.pages| && Owned(t, p)
            && (!CopiedOver(cursor, s, op, p) ==> t.pages[p] == s.pages[p])
            && (CopiedOver(cursor, s, op, p) ==>
                  var q := pos + p - Answer(cursor, s, size).value;
                  pos <= q < pos + count && q < |s.pages| && t.pages[p] == s.pages[q])
  {
    OwnedIsBelowMark(s, p);
    if Answer(cursor, s, size).Some? {
      var to := Answer(cursor, s, size).value;
      OwnedAfterMove(cursor, s, process, pos, count, size, to, p);
      PageMovedOver(cursor, s, process, pos, count, size, to, p);
    }
  }

  lemma PageMovedOver(cursor: nat, s: State, process: nat, pos: nat, count: nat, size: nat, to: nat, p: nat)
    requires Safe(s) && HighWater(s) && Legal(s, Move(process, pos, count, size)) && RunIsFree(cursor, s, size)
    requires Answer(cursor, s, size) == Some(to) && Owned(s, p) && !(pos <= p < pos + count)
    ensures var t := AfterMove(cursor, s, process, pos, count, size);
            && p < |s.pages| <= |t.pages|
            && (!(to + size <= p < to + count) ==> t.pages[p] == s.pages[p])
            && (to + size <= p < to + count ==> pos + p - to < |s.pages| && t.pages[p] == s.pages[pos + p - to])
  {
    HandOutSparesOwned(s, process, to, size, p);
    PageAfterMove(cursor, s, process, pos, count, size, to, p);
    if to + size <= p < to + count {
      assert Taken(s, pos + p - to);
      HandOutSparesOwned(s, process, to, size, pos + p - to);
    }
  }

  lemma OwnedAfterMove(cursor: nat, s: State, process: nat, pos: nat, count: nat, size: nat, to: nat, p: nat)
    requires process < |s.mapped| && Answer(cursor, s, size) == Some(to) && Owned(s, p) && !(pos <= p < pos + count)
    ensures Owned(AfterMove(cursor, s, process, pos, count, size), p)
  {
    TakenAfterHandOut(s, process, to, size, p);
    TakenAfterFree(s, pos, count, p);
    var t := AfterMove(cursor, s, process, pos, count, size);
    var rest := AfterFree(s, pos, count).live;
    if j :| 0 <= j < |rest| && Holds(rest[j], p) {
      assert to != pos ==> Holds(t.live[j], p);
    }
  }

  /** Every owned page that is not moved keeps its contents. */
  ghost predicate SparesOthers(cursor: nat, s: State, process: nat, pos: nat, count: nat, size: nat)
    requires process < |s.mapped|
  {
    forall p: nat :: Owned(s, p) && !(pos <= p < pos + count) ==>
      SamePage(s, AfterMove(cursor, s, process, pos, count, size), p)
  }

  predicate SamePage(s: State, t: State, p: nat) {
    p < |s.pages| && p < |t.pages| && t.pages[p] == s.pages[p]
  }

  /** An owned page that is not moved, but copied over. */
  ghost predicate Exposed(cursor: nat, s: State, op: Op, p: nat)
    requires op.Move?
  {
    Owned(s, p) && !(op.pos <= p < op.pos + op.count) && CopiedOver(cursor, s, op, p)
  }

  /** A move to free pages spares all other owners if and only if what it copies over their pages is
      what they hold anyway. */
  lemma MoveSparesIff(cursor: nat, s: State, process: nat, pos: nat, count: nat, size: nat, to: nat)
    requires Safe(s) && HighWater(s) && Legal(s, Move(process, pos, count, size)) && RunIsFree(cursor, s, size)
    requires Answer(cursor, s, size) == Some(to)
    ensures SparesOthers(cursor, s, process, pos, count, size) <==>
            forall p: nat :: Exposed(cursor, s, Move(process, pos, count, size), p) ==>
              p < |s.pages| && pos + p - to < |s.pages| && s.pages[pos + p - to] == s.pages[p]
  {
    var op := Move(process, pos, count, size);
    if SparesOthers(cursor, s, process, pos, count, size) {
      forall p: nat | Exposed(cursor, s, op, p)
        ensures p < |s.pages| && pos + p - to < |s.pages| && s.pages[pos + p - to] == s.pages[p]
      {
        SparedHoldsCopy(cursor, s, process, pos, count, size, to, p);
      }
    } else {
      var p := LostIsExposed(cursor, s, process, pos, count, size, to);
    }
  }

  lemma SparedHoldsCopy(cursor: nat, s: State, process: nat, pos: nat, count: nat, size: nat, to: nat, p: nat)
    requires Safe(s) && HighWater(s) && Legal(s, Move(process, pos, count, size)) && RunIsFree(cursor, s, size)
    requires Answer(cursor, s, size) == Some(to) && Exposed(cursor, s, Move(process, pos, count, size), p)
    requires SparesOthers(cursor, s, process, pos, count, size)
    ensures p < |s.pages| && pos + p - to < |s.pages| && s.pages[pos + p - to] == s.pages[p]
  {
    MovedOver(cursor, s, process, pos, count, size, p);
    assert SamePage(s, AfterMove(cursor, s, process, pos, count, size), p);
  }

  lemma LostIsExposed(cursor: nat, s: State, process: nat, pos: nat, count: nat, size: nat, to: nat) returns (p: nat)
    requires Safe(s) && HighWater(s) && Legal(s, Move(process, pos, count, size)) && RunIsFree(cursor, s, size)
    requires Answer(cursor, s, size) == Some(to) && !SparesOthers(cursor, s, process, pos, count, size)
    ensures Exposed(cursor, s, Move(process, pos, count, size), p) && p < |s.pages|
    ensures pos + p - to < |s.pages| && s.pages[pos + p - to] != s.pages[p]
  {
    var t := AfterMove(cursor, s, process, pos, count, size);
    p :| Owned(s, p) && !(pos <= p < pos + count) && !SamePage(s, t, p);
    PageMovedOver(cursor, s, process, pos, count, size, to, p);
  }

  /** Contents that the segment could have. */
  ghost predicate Stored(s: State, pages: seq<Page>) {
    |pages| == |s.pages| && HighWater(s.(pages := pages))
  }

  ghost predicate SparesWhatever(cursor: nat, s: State, process: nat, pos: nat, count: nat, size: nat)
    requires process < |s.mapped|
  {
    forall pages: seq<Page> :: Stored(s, pages) ==>
      SparesOthers(cursor, s.(pages := pages), process, pos, count, size)
  }

  function OtherPage(page: Page): (r: Page)
    ensures r != page && |r| == PAGE_SIZE
  {
    var ones: Page := seq(PAGE_SIZE, _ => 1);
    assert ones[0] != ZeroPage()[0];
    if page == ZeroPage() then ones else ZeroPage()
  }

  lemma SameState(s: State, pages: seq<Page>, op: Op)
    requires op.Move?
    ensures var u := s.(pages := pages); Safe(u) == Safe(s) && Legal(u, op) == Legal(s, op)
    ensures forall p: nat :: Owned(s.(pages := pages), p) <==> Owned(s, p)
  {
    var u := s.(pages := pages);
    SafeDepends(s, u);
    assert forall p: nat :: Taken(u, p) <==> Taken(s, p);
  }

  /** Contents that the move to be made would overwrite page `p` with. */
  lemma OverwritingContents(s: State, p: nat, q: nat) returns (pages: seq<Page>)
    requires HighWater(s) && Owned(s, p) && Owned(s, q) && p != q
    ensures Stored(s, pages) && p < |pages| && q < |pages| && pages[p] != pages[q]
  {
    OwnedIsBelowMark(s, p);
    OwnedIsBelowMark(s, q);
    pages := s.pages[q := OtherPage(s.pages[p])];
  }

  lemma ExposedIsLost(cursor: nat, s: State, process: nat, pos: nat, count: nat, size: nat, p: nat)
    requires Safe(s) && HighWater(s) && Legal(s, Move(process, pos, count, size)) && RunIsFree(cursor, s, size)
    requires Exposed(cursor, s, Move(process, pos, count, size), p)
    ensures !SparesWhatever(cursor, s, process, pos, count, size)
  {
    var op, to := Move(process, pos, count, size), Answer(cursor, s, size).value;
    assert Taken(s, pos + p - to);
    var pages := OverwritingContents(s, p, pos + p - to);
    SameState(s, pages, op);
    assert Exposed(cursor, s.(pages := pages), op, p);
    MoveSparesIff(cursor, s.(pages := pages), process, pos, count, size, to);
  }

  /** Whatever the pages hold, a move to free pages spares all other owners if and only if no page of
      theirs lies behind the new run within the old number of pages. A move to at least as many pages
      always does. */
  lemma MoveSparesWhateverIff(cursor: nat, s: State, process: nat, pos: nat, count: nat, size: nat)
    requires Safe(s) && HighWater(s) && Legal(s, Move(process, pos, count, size)) && RunIsFree(cursor, s, size)
    ensures SparesWhatever(cursor, s, process, pos, count, size) <==>
            forall p: nat :: !Exposed(cursor, s, Move(process, pos, count, size), p)
    ensures count <= size ==> SparesWhatever(cursor, s, process, pos, count, size)
  {
    var op := Move(process, pos, count, size);
    if p: nat :| Exposed(cursor, s, op, p) {
      ExposedIsLost(cursor, s, process, pos, count, size, p);
    } else {
      forall pages: seq<Page> | Stored(s, pages)
        ensures SparesOthers(cursor, s.(pages := pages), process, pos, count, size)
      {
        NothingExposed(cursor, s, process, pos, count, size, pages);
      }
    }
  }

  lemma NothingExposed(cursor: nat, s: State, process: nat, pos: nat, count: nat, size: nat, pages: seq<Page>)
    requires Safe(s) && Legal(s, Move(process, pos, count, size)) && RunIsFree(cursor, s, size) && Stored(s, pages)
    requires forall p: nat :: !Exposed(cursor, s, Move(process, pos, count, size), p)
    ensures SparesOthers(cursor, s.(pages := pages), process, pos, count, size)
  {
    var op, u := Move(process, pos, count, size), s.(pages := pages);
    SameState(s, pages, op);
    forall p: nat | Owned(u, p) && !(pos <= p < pos + count)
      ensures SamePage(u, AfterMove(cursor, u, process, pos, count, size), p)
    {
      assert !Exposed(cursor, s, op, p);
      MovedOver(cursor, u, process, pos, count, size, p);
    }
  }

  /** What is moved keeps its contents as far as the new run goes, and the run is zero behind it. The
      old pages keep theirs too, and lie off the new ones, if the move is to at least as many. */
  lemma MoveKeepsData(cursor: nat, s: State, process: nat, pos: nat, count: nat, size: nat, to: nat)
    requires Safe(s) && HighWater(s) && Legal(s, Move(process, pos, count, size)) && RunIsFree(cursor, s, size)
    requires Answer(cursor, s, size) == Some(to)
    ensures var t := AfterMove(cursor, s, process, pos, count, size);
            && Safe(t) && to + size <= |t.pages| && (count > 0 ==> pos + count <= |s.pages| <= |t.pages|)
            && (forall p :: to <= p < to + Min(count, size) ==> t.pages[p] == s.pages[pos + p - to])
            && (forall p :: to + count <= p < to + size ==> t.pages[p] == ZeroPage())
            && (count <= size ==> Disjoint(Run(to, count), Run(pos, count)))
            && (count <= size ==> forall p :: pos <= p < pos + count ==> t.pages[p] == s.pages[p])
  {
    MoveSafe(cursor, s, process, pos, count, size);
    HandedOutZero(s, process, to, size);
    forall p | pos <= p < pos + count
      ensures p < |s.pages| && HandOut(s, process, to, size).pages[p] == s.pages[p]
    {
      OldPageSurvives(s, process, pos, count, size, to, p);
    }
    if count > 0 {
      OldPageSurvives(s, process, pos, count, size, to, pos);
      OldPageSurvives(s, process, pos, count, size, to, pos + count - 1);
    }
    OldAndNewApart(s, process, pos, count, size, to);
  }

  lemma OldAndNewApart(s: State, process: nat, pos: nat, count: nat, size: nat, to: nat)
    requires Safe(s) && Legal(s, Move(process, pos, count, size)) && (size > 0 ==> Window(s.used, to, size))
    ensures count <= size ==> Disjoint(Run(to, count), Run(pos, count))
  {
    if 0 < count <= size {
      WindowOffTaken(s, pos, count, to, size);
      forall p: nat | Holds(Run(pos, count), p)
        ensures !Holds(Run(to, count), p)
      {
        assert !Holds(Run(to, size), p);
      }
    }
  }

  lemma OldPageSurvives(s: State, process: nat, pos: nat, count: nat, size: nat, to: nat, p: nat)
    requires Safe(s) && HighWater(s) && Legal(s, Move(process, pos, count, size)) && pos <= p < pos + count
    requires size > 0 ==> Window(s.used, to, size)
    ensures p < |s.pages| && !(to <= p < to + size) && HandOut(s, process, to, size).pages[p] == s.pages[p]
  {
    HandOutSparesOwned(s, process, to, size, p);
  }

  // ---- is the copy defined? ----------------------------------------------------------------------

  /** The pages copied from and to are part of the segment and do not overlap, as `memcpy` demands. */
  ghost predicate CopyDefined(cursor: nat, s: State, pos: nat, count: nat, size: nat) {
    var answer := Answer(cursor, s, size);
    answer.Some? && answer.value != pos && count > 0 ==>
      var to, length := answer.value, Max(|s.pages|, answer.value + size);
      pos + count <= length && to + count <= length && (to + count <= pos || pos + count <= to)
  }

  /** The copy of a move to free pages is defined exactly if the move is to at least as many pages, or
      there is room for the old number of pages behind the answer and before the old pages. */
  lemma CopyDefinedIff(cursor: nat, s: State, process: nat, pos: nat, count: nat, size: nat, to: nat)
    requires Safe(s) && HighWater(s) && Legal(s, Move(process, pos, count, size)) && RunIsFree(cursor, s, size)
    requires 0 < count && Answer(cursor, s, size) == Some(to) && to != pos
    ensures CopyDefined(cursor, s, pos, count, size) <==>
            count <= size || (to + count <= |s.pages| && (to + count <= pos || pos + count <= to))
  {
    OldPageSurvives(s, process, pos, count, size, to, pos);
    OldPageSurvives(s, process, pos, count, size, to, pos + count - 1);
    if size > 0 && pos <= to < pos + count {
      OldPageSurvives(s, process, pos, count, size, to, to);
    }
  }

  /** Every copy of the run is defined. */
  ghost predicate CopiesDefined(cursor: nat, s: State, ops: seq<Op>)
    requires LegalRun(cursor, s, ops)
    decreases |ops|
  {
    ops == [] ||
    ((ops[0].Move? ==> CopyDefined(cursor, s, ops[0].pos, ops[0].count, ops[0].size)) &&
     CopiesDefined(cursor, Step(cursor, s, ops[0]), ops[1..]))
  }

  /** In a run whose answers are free, every move to at least as many pages copies within the segment,
      from pages to others. */
  lemma {:induction false} GrowingCopiesDefined(cursor: nat, s: State, ops: seq<Op>)
    requires Safe(s) && HighWater(s) && LegalRun(cursor, s, ops) && AnswersFree(cursor, s, ops)
    requires forall i :: 0 <= i < |ops| ==> !Shrinks(ops[i])
    ensures CopiesDefined(cursor, s, ops)
    decreases |ops|
  {
    if ops != [] {
      var op := ops[0];
      if op.Move? && op.count > 0 && Answer(cursor, s, op.size).Some? && Answer(cursor, s, op.size).value != op.pos {
        CopyDefinedIff(cursor, s, op.process, op.pos, op.count, op.size, Answer(cursor, s, op.size).value);
      }
      StepSafeIff(cursor, s, op);
      RunStep(cursor, s, ops);
      GrowingCopiesDefined(cursor, Step(cursor, s, op), ops[1..]);
    }
  }

  // ---- owners keep their data --------------------------------------------------------------------

  ghost predicate Touches(op: Op, p: nat) {
    match op
    case Free(pos, count) => pos <= p < pos + count
    case Move(_, pos, count, _) => pos <= p < pos + count
    case Store(q, _) => q == p
    case _ => false
  }

  /** In no step of the run the page is written, given back, moved or copied over. */
  ghost predicate Untouched(cursor: nat, s: State, ops: seq<Op>, p: nat)
    requires LegalRun(cursor, s, ops)
    decreases |ops|
  {
    ops == [] || (!Touches(ops[0], p) && !CopiedOver(cursor, s, ops[0], p) &&
                  Untouched(cursor, Step(cursor, s, ops[0]), ops[1..], p))
  }

  /** Without moves to fewer pages, nothing is copied over. */
  lemma {:induction false} GrowingMovesSpare(cursor: nat, s: State, ops: seq<Op>, p: nat)
    requires LegalRun(cursor, s, ops)
    requires forall i :: 0 <= i < |ops| ==> !Shrinks(ops[i]) && !Touches(ops[i], p)
    ensures Untouched(cursor, s, ops, p)
    decreases |ops|
  {
    if ops != [] {
      GrowingMovesSpare(cursor, Step(cursor, s, ops[0]), ops[1..], p);
    }
  }

  lemma RequestPreservesPage(cursor: nat, s: State, process: nat, count: nat, p: nat)
    requires Safe(s) && HighWater(s) && process < |s.mapped| && Owned(s, p) && RunIsFree(cursor, s, count)
    ensures var t := AfterRequest(cursor, s, process, count);
            Owned(t, p) && p < |s.pages| <= |t.pages| && t.pages[p] == s.pages[p]
  {
    OwnedIsBelowMark(s, p);
    var r, answer := Remapped(s, process), Answer(cursor, s, count);
    SafeDepends(s, r);
    assert Owned(r, p);
    if answer.Some? {
      TakenAfterHandOut(r, process, answer.value, count, p);
      HandOutSparesOwned(r, process, answer.value, count, p);
    }
  }

  lemma StepPreservesPage(cursor: nat, s: State, op: Op, p: nat)
    requires Safe(s) && HighWater(s) && Legal(s, op) && Owned(s, p) && GrantIsFree(cursor, s, op)
    requires !Touches(op, p) && !CopiedOver(cursor, s, op, p)
    ensures var t := Step(cursor, s, op); Owned(t, p) && p < |s.pages| <= |t.pages| && t.pages[p] == s.pages[p]
  {
    OwnedIsBelowMark(s, p);
    match op
    case Request(i, count) => RequestPreservesPage(cursor, s, i, count, p);
    case Free(pos, count) => TakenAfterFree(s, pos, count, p);
    case Move(i, pos, count, size) => MovedOver(cursor, s, i, pos, count, size, p);
    case Store(q, data) => var t := Step(cursor, s, op); assert Owned(t, p);
    case Receive(i) => assert Owned(Remapped(s, i), p);
  }

  /** An owner finds its data unchanged as long as the page is not written, given back, moved or copied
      over, in every run whose answers are free. */
  lemma {:induction false} OwnersKeepTheirData(cursor: nat, s: State, ops: seq<Op>, p: nat)
    requires Safe(s) && HighWater(s) && LegalRun(cursor, s, ops) && MarkHolds(s, ops) && AnswersFree(cursor, s, ops)
    requires Owned(s, p) && Untouched(cursor, s, ops, p)
    ensures var t := After(cursor, s, ops); Owned(t, p) && p < |s.pages| <= |t.pages| && t.pages[p] == s.pages[p]
    decreases |ops|
  {
    if ops == [] {
      OwnedIsBelowMark(s, p);
    } else {
      StepPreservesPage(cursor, s, ops[0], p);
      StepSafeIff(cursor, s, ops[0]);
      RunStep(cursor, s, ops);
      OwnersKeepTheirData(cursor, Step(cursor, s, ops[0]), ops[1..], p);
    }
  }

  // ---- what a step leaves alone ------------------------------------------------------------------

  /** Bitmap and segment as before, but for the pages `lo .. hi`. */
  ghost predicate SameOutside(s: State, t: State, lo: nat, hi: nat) {
    && |t.used| == |s.used| && |s.pages| <= |t.pages|
    && (forall p :: 0 <= p < |s.used| && !(lo <= p < hi) ==> t.used[p] == s.used[p])
    && (forall p :: 0 <= p < |s.pages| && !(lo <= p < hi) ==> t.pages[p] == s.pages[p])
  }

  /** A step changes the mapped size of the process that takes it and of no other. */
  lemma OthersKeepMapping(cursor: nat, s: State, op: Op, i: nat)
    requires Legal(s, op) && i < |s.mapped| && (op.Request? || op.Move? || op.Receive? ==> op.process != i)
    ensures var t := Step(cursor, s, op); |t.mapped| == |s.mapped| && t.mapped[i] == s.mapped[i]
  {
  }

  /** A request that is answered touches the pages it answers with; one that is not answered touches
      nothing. Giving back touches marks only, a store one page, a message nothing. */
  lemma StepTouches(cursor: nat, s: State, op: Op)
    requires HighWater(s) && Legal(s, op)
    ensures var t := Step(cursor, s, op); t.reserved == s.reserved
    ensures op.Request? ==>
              var t := Step(cursor, s, op);
              match Granted(cursor, s, op)
              case Some(r) => SameOutside(s, t, r.pos, r.pos + r.count) && t.live == s.live + [r]
              case None => t == s.(mapped := t.mapped)
    ensures op.Free? ==>
              var t := Step(cursor, s, op);
              && t == s.(used := t.used, live := t.live) && |t.used| == |s.used|
              && forall p :: 0 <= p < |s.used| ==> t.used[p] == (s.used[p] && !(op.pos <= p < op.pos + op.count))
    ensures op.Store? ==>
              var t := Step(cursor, s, op);
              && t == s.(pages := t.pages) && |t.pages| == |s.pages| && t.pages[op.page] == op.data
              && forall p :: 0 <= p < |s.pages| && p != op.page ==> t.pages[p] == s.pages[p]
    ensures op.Receive? ==> var t := Step(cursor, s, op); t == s.(mapped := t.mapped)
    ensures op.Move? && Granted(cursor, s, op).None? ==> Step(cursor, s, op) == s
  {
  }

  /** What an owner stores is what it finds, in every run whose answers are free, until the page is
      written again, given back, moved or copied over. */
  lemma StoredIsFound(cursor: nat, s: State, p: nat, data: Page, ops: seq<Op>)
    requires Safe(s) && HighWater(s) && Legal(s, Store(p, data))
    requires var t := Step(cursor, s, Store(p, data));
             && LegalRun(cursor, t, ops) && MarkHolds(t, ops)
             && AnswersFree(cursor, t, ops) && Untouched(cursor, t, ops, p)
    ensures var u := After(cursor, Step(cursor, s, Store(p, data)), ops); p < |u.pages| && u.pages[p] == data
  {
    var t := Step(cursor, s, Store(p, data));
    StepSafeIff(cursor, s, Store(p, data));
    OwnedIsBelowMark(s, p);
    assert Owned(t, p);
    assert HighWater(t);
    OwnersKeepTheirData(cursor, t, ops, p);
  }
}
