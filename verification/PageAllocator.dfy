/** The allocator of the shared segment as a state machine: requests, frees, moves, stores by owners,
    and messages, after which the receiving process maps the whole segment.

    `cursor` is where the page scan starts counting. The code starts at 1 although bit `j` of byte
    `i` stands for page `8 * i + j`; with 0 the page handed out is the page that was looked at. */
module PageAllocator {
  import opened Options
  import opened PageBitmap

  const PAGE_SIZE: nat := 4096

  type Page = seq<bv8>

  function ZeroPage(): Page {
    seq(PAGE_SIZE, _ => 0)
  }

  datatype Run = Run(pos: nat, count: nat)

  predicate Holds(r: Run, p: nat) {
    r.pos <= p < r.pos + r.count
  }

  /** `pages` is the segment itself, `mapped` how many of its pages each process has mapped,
      `live` what was handed out and not yet given back. */
  datatype State = State(
    used: seq<bool>, reserved: nat, pages: seq<Page>, firstUnused: nat, mapped: seq<nat>, live: seq<Run>)

  /** After `init`: the first pages hold the allocator's own data. */
  ghost predicate Initial(s: State) {
    && s.reserved <= |s.used| && |s.pages| == s.reserved == s.firstUnused && s.live == []
    && (forall p :: 0 <= p < |s.used| ==> (s.used[p] <==> p < s.reserved))
    && forall i :: 0 <= i < |s.mapped| ==> s.mapped[i] == s.reserved
  }

  /** The page was handed out and not given back. */
  ghost predicate Taken(s: State, p: nat) {
    exists k :: 0 <= k < |s.live| && Holds(s.live[k], p)
  }

  ghost predicate Owned(s: State, p: nat) {
    p < s.reserved || Taken(s, p)
  }

  // ---- the operations ----------------------------------------------------------------------------

  datatype Op =
    | Request(process: nat, count: nat)
    | Free(pos: nat, count: nat)
    | Move(process: nat, pos: nat, count: nat, size: nat)
    | Store(page: nat, data: Page)
    | Receive(process: nat)

  function Grown(pages: seq<Page>, size: nat): (r: seq<Page>)
    ensures |r| == if |pages| < size then size else |pages|
  {
    if |pages| < size then pages + seq(size - |pages|, _ => ZeroPage()) else pages
  }

  function Cleared(pages: seq<Page>, lo: nat, hi: nat): (r: seq<Page>)
    ensures |r| == |pages|
  {
    seq(|pages|, p requires 0 <= p < |pages| => if lo <= p < hi then ZeroPage() else pages[p])
  }

  /** A copy of `n` pages; pages past the end of the segment are dropped. */
  function Copied(pages: seq<Page>, from: nat, to: nat, n: nat): (r: seq<Page>)
    ensures |r| == |pages|
  {
    seq(|pages|, p requires 0 <= p < |pages| =>
      if to <= p < to + n && from + p - to < |pages| then pages[from + p - to] else pages[p])
  }

  function Max(a: nat, b: nat): nat {
    if a < b then b else a
  }

  function Min(a: nat, b: nat): nat {
    if a < b then a else b
  }

  /** Handing out `count` pages from `pos` on. */
  function HandOut(s: State, process: nat, pos: nat, count: nat): State
    requires process < |s.mapped|
  {
    var pages := Grown(s.pages, pos + count);
    s.(used := Marked(s.used, pos, pos + count, true),
       pages := if pos < s.firstUnused then Cleared(pages, pos, pos + count) else pages,
       firstUnused := Max(s.firstUnused, pos + count),
       mapped := s.mapped[process := |pages|],
       live := s.live + [Run(pos, count)])
  }

  function Remapped(s: State, process: nat): State
    requires process < |s.mapped|
  {
    s.(mapped := s.mapped[process := Max(s.mapped[process], |s.pages|)])
  }

  /** Which page a request is answered with. */
  ghost function Answer(cursor: nat, s: State, count: nat): Option<nat> {
    match FirstFit(s.used, Need(count))
    case Some(w) => Some(w + cursor)
    case None => None
  }

  ghost function AfterRequest(cursor: nat, s: State, process: nat, count: nat): State
    requires process < |s.mapped|
  {
    match Answer(cursor, s, count)
    case Some(pos) => HandOut(Remapped(s, process), process, pos, count)
    case None => Remapped(s, process)
  }

  function Before(r: Run, lo: nat): Run {
    Run(r.pos, if r.pos + r.count <= lo then r.count else if r.pos < lo then lo - r.pos else 0)
  }

  function Behind(r: Run, hi: nat): Run {
    var from := Max(r.pos, hi);
    Run(from, if from < r.pos + r.count then r.pos + r.count - from else 0)
  }

  /** What is left of the runs before and behind the pages given back. */
  function Trimmed(live: seq<Run>, lo: nat, hi: nat): (r: seq<Run>)
    ensures |r| == 2 * |live|
  {
    seq(|live|, k requires 0 <= k < |live| => Before(live[k], lo)) +
    seq(|live|, k requires 0 <= k < |live| => Behind(live[k], hi))
  }

  function AfterFree(s: State, pos: nat, count: nat): State {
    s.(used := Marked(s.used, pos, pos + count, false), live := Trimmed(s.live, pos, pos + count))
  }

  /** `shm_mremap` to a new size: request, copy, give the old pages back. */
  ghost function AfterMove(cursor: nat, s: State, process: nat, pos: nat, count: nat, size: nat): State
    requires process < |s.mapped|
  {
    match Answer(cursor, s, size)
    case None => s
    case Some(to) =>
      var t := HandOut(s, process, to, size);
      if to == pos then t
      else t.(used := Marked(t.used, pos, pos + count, false),
              pages := Copied(t.pages, pos, to, count),
              live := Trimmed(s.live, pos, pos + count) + [Run(to, size)])
  }

  /** Clients do not give back the allocator's own pages; they move and write only what they were
      handed. */
  ghost predicate Legal(s: State, op: Op) {
    match op
    case Request(i, _) => i < |s.mapped|
    case Free(pos, count) => count > 0 ==> s.reserved <= pos && pos + count <= |s.used|
    case Move(i, pos, count, size) =>
      i < |s.mapped| && forall p :: pos <= p < pos + count ==> Taken(s, p)
    case Store(p, _) => p < |s.pages| && Owned(s, p)
    case Receive(i) => i < |s.mapped|
  }

  ghost function Step(cursor: nat, s: State, op: Op): State
    requires Legal(s, op)
  {
    match op
    case Request(i, count) => AfterRequest(cursor, s, i, count)
    case Free(pos, count) => AfterFree(s, pos, count)
    case Move(i, pos, count, size) => AfterMove(cursor, s, i, pos, count, size)
    case Store(p, data) => s.(pages := s.pages[p := data])
    case Receive(i) => Remapped(s, i)
  }

  ghost predicate LegalRun(cursor: nat, s: State, ops: seq<Op>)
    decreases |ops|
  {
    ops == [] || (Legal(s, ops[0]) && LegalRun(cursor, Step(cursor, s, ops[0]), ops[1..]))
  }

  ghost function After(cursor: nat, s: State, ops: seq<Op>): State
    requires LegalRun(cursor, s, ops)
    decreases |ops|
  {
    if ops == [] then s else After(cursor, Step(cursor, s, ops[0]), ops[1..])
  }

  /** The run that an operation is answered with. */
  ghost function Granted(cursor: nat, s: State, op: Op): Option<Run> {
    var size := if op.Request? then op.count else if op.Move? then op.size else 0;
    if op.Request? || op.Move? then
      match Answer(cursor, s, size)
      case Some(pos) => Some(Run(pos, size))
      case None => None
    else None
  }

  // ---- disjoint runs, exact marks ----------------------------------------------------------------

  ghost predicate Disjoint(a: Run, b: Run) {
    forall p: nat {:trigger Holds(a, p)} {:trigger Holds(b, p)} :: !(Holds(a, p) && Holds(b, p))
  }

  /** Live runs are pairwise disjoint and avoid the reserved pages, and the marked pages are exactly
      the reserved and the live ones. */
  ghost predicate Safe(s: State) {
    && s.reserved <= |s.used|
    && (forall j, k :: 0 <= j < k < |s.live| ==> Disjoint(s.live[j], s.live[k]))
    && (forall k, p: nat {:trigger Holds(s.live[k], p)} ::
          0 <= k < |s.live| && Holds(s.live[k], p) ==> s.reserved <= p < |s.used|)
    && forall p :: 0 <= p < |s.used| ==> (s.used[p] <==> Owned(s, p))
  }

  /** The run a request for `count` pages would be answered with is free. */
  ghost predicate RunIsFree(cursor: nat, s: State, count: nat) {
    var answer := Answer(cursor, s, count);
    answer.Some? && count > 0 ==> Window(s.used, answer.value, count)
  }

  lemma SafeDepends(s: State, t: State)
    requires s.used == t.used && s.reserved == t.reserved && s.live == t.live
    ensures Safe(s) <==> Safe(t)
  {
    forall p: nat
      ensures Owned(t, p) <==> Owned(s, p)
    {
    }
  }

  lemma TakenAfterHandOut(s: State, process: nat, pos: nat, count: nat, p: nat)
    requires process < |s.mapped|
    ensures Taken(HandOut(s, process, pos, count), p) <==> Taken(s, p) || pos <= p < pos + count
  {
    var t := HandOut(s, process, pos, count);
    if k :| 0 <= k < |s.live| && Holds(s.live[k], p) {
      assert Holds(t.live[k], p);
    }
    if k :| 0 <= k < |t.live| && Holds(t.live[k], p) {
      assert k < |s.live| ==> Holds(s.live[k], p);
    }
    assert pos <= p < pos + count ==> Holds(t.live[|s.live|], p);
  }

  lemma HandOutSafe(s: State, process: nat, pos: nat, count: nat)
    requires Safe(s) && process < |s.mapped| && (count > 0 ==> Window(s.used, pos, count))
    ensures Safe(HandOut(s, process, pos, count))
  {
    var t := HandOut(s, process, pos, count);
    var n := |s.live|;
    forall j, k | 0 <= j < k < |t.live|
      ensures Disjoint(t.live[j], t.live[k])
    {
      if k == n {
        forall p: nat | Holds(t.live[j], p)
          ensures !Holds(t.live[n], p)
        {
          assert Holds(s.live[j], p);
          assert Owned(s, p);
        }
      }
    }
    forall k, p: nat | 0 <= k < |t.live| && Holds(t.live[k], p)
      ensures t.reserved <= p < |t.used|
    {
      if k == n {
        assert !s.used[p];
        assert !Owned(s, p);
      } else {
        assert Holds(s.live[k], p);
      }
    }
    forall p | 0 <= p < |t.used|
      ensures t.used[p] <==> Owned(t, p)
    {
      TakenAfterHandOut(s, process, pos, count, p);
    }
  }

  lemma HandOutUnsafe(s: State, process: nat, pos: nat, count: nat)
    requires Safe(s) && process < |s.mapped| && count > 0 && !Window(s.used, pos, count)
    ensures !Safe(HandOut(s, process, pos, count))
  {
    var t := HandOut(s, process, pos, count);
    var n := |s.live|;
    if pos + count > |s.used| {
      assert Holds(t.live[n], pos + count - 1);
    } else {
      var p :| pos <= p < pos + count && s.used[p];
      assert Holds(t.live[n], p);
      assert Owned(s, p);
      if p >= s.reserved {
        var k :| 0 <= k < n && Holds(s.live[k], p);
        assert Holds(t.live[k], p);
        assert !Disjoint(t.live[k], t.live[n]);
      }
    }
  }

  /** A request keeps the allocator safe exactly if the run it is answered with is free. */
  lemma RequestSafeIff(cursor: nat, s: State, process: nat, count: nat)
    requires Safe(s) && process < |s.mapped|
    ensures Safe(AfterRequest(cursor, s, process, count)) <==> RunIsFree(cursor, s, count)
  {
    var r := Remapped(s, process);
    SafeDepends(s, r);
    if Answer(cursor, s, count).Some? {
      var pos := Answer(cursor, s, count).value;
      if count > 0 && !Window(s.used, pos, count) {
        HandOutUnsafe(r, process, pos, count);
      } else {
        HandOutSafe(r, process, pos, count);
      }
    }
  }

  /** When the page handed out is the page looked at, every answer is free. */
  lemma ExaminedPagesAreFree(s: State, count: nat)
    ensures RunIsFree(0, s, count)
  {
    FirstFitIff(s.used, Need(count));
  }

  /** As the code stands, the answer is free exactly if the first gap of `count` free pages is also
      the first gap of `count + 1`. */
  lemma ShiftedPagesAreFreeIff(s: State, count: nat)
    requires count > 0
    ensures RunIsFree(1, s, count) <==> FirstFit(s.used, count + 1) == FirstFit(s.used, count)
  {
    FirstFitIff(s.used, count);
    FirstFitIff(s.used, count + 1);
    forall w: nat
      ensures Window(s.used, w, count + 1) <==> Window(s.used, w, count) && Window(s.used, w + 1, count)
    {
      if Window(s.used, w, count) && Window(s.used, w + 1, count) {
        forall p | w <= p < w + count + 1
          ensures !s.used[p]
        {
          assert p < w + count || p == w + 1 + count - 1;
        }
      }
    }
  }

  /** So two requests for one page get the same page, whenever the first free page has a free page
      after it. */
  lemma OnePageHandedOutTwice(s: State, process: nat, w: nat)
    requires process < |s.mapped| && FirstFit(s.used, 1) == Some(w) && w + 1 < |s.used| && !s.used[w + 1]
    ensures Answer(1, s, 1) == Some(w + 1)
    ensures Answer(1, AfterRequest(1, s, process, 1), 1) == Some(w + 1)
    ensures Safe(s) ==> !Safe(AfterRequest(1, AfterRequest(1, s, process, 1), process, 1))
  {
    StillFirstFit(s.used, w);
    if Safe(s) {
      var t := AfterRequest(1, s, process, 1);
      assert Window(s.used, w + 1, 1);
      RequestSafeIff(1, s, process, 1);
      assert t.used[w + 1];
      RequestSafeIff(1, t, process, 1);
    }
  }

  /** Marking the page after the first free one leaves the first fit where it was. */
  lemma StillFirstFit(used: seq<bool>, w: nat)
    requires FirstFit(used, 1) == Some(w)
    ensures FirstFit(Marked(used, w + 1, w + 2, true), 1) == Some(w)
  {
    var marked := Marked(used, w + 1, w + 2, true);
    FirstFitIff(used, 1);
    FirstFitIff(marked, 1);
    forall v: nat | v < w
      ensures !Window(marked, v, 1)
    {
      assert !Window(used, v, 1);
      assert used[v] && marked[v] == used[v];
    }
    assert FirstWindow(used, w, 1);
    assert FirstWindow(marked, w, 1);
  }

  /** The first fit right after `init` starts at the first page that is not reserved. */
  lemma FirstFitAtStart(s: State, count: nat)
    requires Initial(s) && 0 < count && s.reserved + count <= |s.used|
    ensures FirstFit(s.used, count) == Some(s.reserved)
  {
    FirstFitIff(s.used, count);
    assert Window(s.used, s.reserved, count);
    forall v: nat | v < s.reserved
      ensures !Window(s.used, v, count)
    {
      assert s.used[v];
    }
    assert FirstWindow(s.used, s.reserved, count);
  }

  /** The very first two one-page requests get the same page. */
  lemma FirstTwoRequestsCollide(s: State, process: nat)
    requires Initial(s) && process < |s.mapped| && s.reserved + 1 < |s.used|
    ensures Answer(1, s, 1) == Some(s.reserved + 1)
    ensures Answer(1, AfterRequest(1, s, process, 1), 1) == Some(s.reserved + 1)
    ensures !Safe(AfterRequest(1, AfterRequest(1, s, process, 1), process, 1))
  {
    FirstFitAtStart(s, 1);
    InitialIsSafe(s);
    OnePageHandedOutTwice(s, process, s.reserved);
  }

  // ---- does the marking stay inside the bitmap? --------------------------------------------------

  /** Every page that is marked has its bit in the bitmap. */
  ghost predicate InBitmap(used: seq<bool>, r: Run) {
    forall p: nat :: Holds(r, p) ==> p < |used|
  }

  ghost predicate StaysInside(cursor: nat, s: State, count: nat) {
    var answer := Answer(cursor, s, count);
    answer.Some? ==> InBitmap(s.used, Run(answer.value, count))
  }

  lemma InBitmapIff(used: seq<bool>, r: Run)
    ensures InBitmap(used, r) <==> r.count == 0 || r.pos + r.count <= |used|
  {
    if r.count > 0 {
      assert Holds(r, r.pos + r.count - 1);
    }
  }

  /** With first fit `w`, marking stays inside the bitmap exactly if the shifted run does. */
  lemma StaysInsideIff(cursor: nat, s: State, count: nat, w: nat)
    requires count > 0 && FirstFit(s.used, count) == Some(w)
    ensures StaysInside(cursor, s, count) <==> w + cursor + count <= |s.used|
  {
    InBitmapIff(s.used, Run(w + cursor, count));
  }

  /** When the page handed out is the page looked at, the marking always stays inside. */
  lemma ExaminedStaysInside(s: State, count: nat)
    ensures StaysInside(0, s, count)
  {
    FirstFitIff(s.used, Need(count));
    if count > 0 && FirstFit(s.used, count).Some? {
      StaysInsideIff(0, s, count, FirstFit(s.used, count).value);
    }
  }

  /** As the code stands it leaves the bitmap exactly if the first gap ends with the last page. */
  lemma ShiftedStaysInsideIff(s: State, count: nat)
    requires count > 0
    ensures !StaysInside(1, s, count) <==>
            exists w :: FirstFit(s.used, count) == Some(w) && w + count == |s.used|
  {
    FirstFitIff(s.used, count);
    if FirstFit(s.used, count).Some? {
      StaysInsideIff(1, s, count, FirstFit(s.used, count).value);
    }
  }

  /** It does so in the first request that asks for all the pages there are. */
  lemma WholeBitmapLeavesIt(s: State, count: nat)
    requires Initial(s) && 0 < count && s.reserved + count == |s.used|
    ensures Answer(1, s, count) == Some(s.reserved + 1) && !StaysInside(1, s, count)
  {
    FirstFitAtStart(s, count);
    ShiftedStaysInsideIff(s, count);
  }

  // ---- giving back -------------------------------------------------------------------------------

  lemma Parts(r: Run, lo: nat, hi: nat, p: nat)
    requires lo <= hi
    ensures Holds(Before(r, lo), p) || Holds(Behind(r, hi), p) <==> Holds(r, p) && !(lo <= p < hi)
    ensures !(Holds(Before(r, lo), p) && Holds(Behind(r, hi), p))
  {
  }

  /** Which run a part of it came from. */
  function Source(n: nat, j: nat): nat
    requires j < 2 * n
  {
    if j < n then j else j - n
  }

  lemma PartIsOf(live: seq<Run>, lo: nat, hi: nat, j: nat, p: nat)
    requires lo <= hi && j < 2 * |live| && Holds(Trimmed(live, lo, hi)[j], p)
    ensures Holds(live[Source(|live|, j)], p) && !(lo <= p < hi)
  {
    Parts(live[Source(|live|, j)], lo, hi, p);
  }

  lemma PartsAreDisjoint(live: seq<Run>, lo: nat, hi: nat, i: nat, j: nat, p: nat)
    requires lo <= hi && i < j < 2 * |live|
    requires forall j, k :: 0 <= j < k < |live| ==> Disjoint(live[j], live[k])
    ensures !(Holds(Trimmed(live, lo, hi)[i], p) && Holds(Trimmed(live, lo, hi)[j], p))
  {
    if Holds(Trimmed(live, lo, hi)[i], p) && Holds(Trimmed(live, lo, hi)[j], p) {
      PartIsOf(live, lo, hi, i, p);
      PartIsOf(live, lo, hi, j, p);
      Parts(live[Source(|live|, i)], lo, hi, p);
    }
  }

  lemma TakenAfterFree(s: State, pos: nat, count: nat, p: nat)
    ensures Taken(AfterFree(s, pos, count), p) <==> Taken(s, p) && !(pos <= p < pos + count)
  {
    var t, n := AfterFree(s, pos, count), |s.live|;
    if j :| 0 <= j < |t.live| && Holds(t.live[j], p) {
      PartIsOf(s.live, pos, pos + count, j, p);
    }
    if k :| 0 <= k < n && Holds(s.live[k], p) {
      Parts(s.live[k], pos, pos + count, p);
      assert t.live[k] == Before(s.live[k], pos) && t.live[n + k] == Behind(s.live[k], pos + count);
    }
  }

  lemma FreeSafe(s: State, pos: nat, count: nat)
    requires Safe(s) && (count > 0 ==> s.reserved <= pos)
    ensures Safe(AfterFree(s, pos, count))
  {
    var t := AfterFree(s, pos, count);
    forall i, j, p: nat | 0 <= i < j < |t.live| && Holds(t.live[i], p)
      ensures !Holds(t.live[j], p)
    {
      PartsAreDisjoint(s.live, pos, pos + count, i, j, p);
    }
    forall j, p: nat | 0 <= j < |t.live| && Holds(t.live[j], p)
      ensures t.reserved <= p < |t.used|
    {
      PartIsOf(s.live, pos, pos + count, j, p);
    }
    forall p | 0 <= p < |t.used|
      ensures t.used[p] <==> Owned(t, p)
    {
      TakenAfterFree(s, pos, count, p);
    }
  }

  // ---- moving ------------------------------------------------------------------------------------

  lemma TakenIsUsed(s: State, p: nat)
    requires Safe(s) && Taken(s, p)
    ensures s.reserved <= p < |s.used| && s.used[p]
  {
    var k :| 0 <= k < |s.live| && Holds(s.live[k], p);
    assert Owned(s, p);
  }

  /** A free run lies off the pages that are moved. */
  lemma WindowOffTaken(s: State, pos: nat, count: nat, to: nat, size: nat)
    requires Safe(s) && Window(s.used, to, size) && forall p :: pos <= p < pos + count ==> Taken(s, p)
    ensures Disjoint(Run(to, size), Run(pos, count))
  {
    forall p: nat | Holds(Run(pos, count), p)
      ensures !Holds(Run(to, size), p)
    {
      TakenIsUsed(s, p);
    }
  }

  /** In marks and runs, a move to other pages is giving back and then handing out. */
  lemma MoveIsFreeThenHandOut(cursor: nat, s: State, process: nat, pos: nat, count: nat, size: nat, to: nat)
    requires process < |s.mapped| && Answer(cursor, s, size) == Some(to) && to != pos
    requires Disjoint(Run(to, size), Run(pos, count))
    ensures var t := AfterMove(cursor, s, process, pos, count, size);
            var h := HandOut(AfterFree(s, pos, count), process, to, size);
            t.used == h.used && t.live == h.live && (Safe(t) <==> Safe(h))
  {
    var t := AfterMove(cursor, s, process, pos, count, size);
    var h := HandOut(AfterFree(s, pos, count), process, to, size);
    forall p | 0 <= p < |s.used|
      ensures t.used[p] == h.used[p]
    {
      assert !(Holds(Run(to, size), p) && Holds(Run(pos, count), p));
    }
    SafeDepends(t, h);
  }

  lemma MoveSafe(cursor: nat, s: State, process: nat, pos: nat, count: nat, size: nat)
    requires Safe(s) && Legal(s, Move(process, pos, count, size)) && RunIsFree(cursor, s, size)
    ensures Safe(AfterMove(cursor, s, process, pos, count, size))
  {
    if Answer(cursor, s, size).Some? {
      var to := Answer(cursor, s, size).value;
      if to == pos {
        HandOutSafe(s, process, to, size);
      } else {
        if size > 0 {
          WindowOffTaken(s, pos, count, to, size);
        }
        if count > 0 {
          TakenIsUsed(s, pos);
        }
        FreeThenHandOutSafe(s, process, pos, count, to, size);
        MoveIsFreeThenHandOut(cursor, s, process, pos, count, size, to);
      }
    }
  }

  lemma FreeThenHandOutSafe(s: State, process: nat, pos: nat, count: nat, to: nat, size: nat)
    requires Safe(s) && process < |s.mapped| && (count > 0 ==> s.reserved <= pos)
    requires size > 0 ==> Window(s.used, to, size)
    ensures Safe(HandOut(AfterFree(s, pos, count), process, to, size))
  {
    FreeSafe(s, pos, count);
    HandOutSafe(AfterFree(s, pos, count), process, to, size);
  }

  lemma MoveUnsafe(cursor: nat, s: State, process: nat, pos: nat, count: nat, size: nat)
    requires Safe(s) && Legal(s, Move(process, pos, count, size)) && !RunIsFree(cursor, s, size)
    ensures !Safe(AfterMove(cursor, s, process, pos, count, size))
  {
    var to := Answer(cursor, s, size).value;
    var t, n := AfterMove(cursor, s, process, pos, count, size), 2 * |s.live|;
    if to == pos {
      HandOutUnsafe(s, process, to, size);
    } else if to + size > |s.used| {
      assert Holds(t.live[n], to + size - 1);
    } else {
      var p :| to <= p < to + size && s.used[p];
      assert Holds(t.live[n], p) && Owned(s, p);
      if p >= s.reserved && !(pos <= p < pos + count) {
        TakenAfterFree(s, pos, count, p);
        var j :| 0 <= j < n && Holds(Trimmed(s.live, pos, pos + count)[j], p);
        assert Holds(t.live[j], p) && !Disjoint(t.live[j], t.live[n]);
      } else if p >= s.reserved {
        assert !t.used[p] && Owned(t, p);
      }
    }
  }

  // ---- safety over whole runs --------------------------------------------------------------------

  /** What the operation is answered with, if anything, is free. */
  ghost predicate GrantIsFree(cursor: nat, s: State, op: Op) {
    var grant := Granted(cursor, s, op);
    grant.Some? && grant.value.count > 0 ==> Window(s.used, grant.value.pos, grant.value.count)
  }

  ghost predicate SafeThroughout(cursor: nat, s: State, ops: seq<Op>)
    requires LegalRun(cursor, s, ops)
    decreases |ops|
  {
    Safe(s) && (ops == [] || SafeThroughout(cursor, Step(cursor, s, ops[0]), ops[1..]))
  }

  /** Every request and every move of the run finds its answer free. */
  ghost predicate AnswersFree(cursor: nat, s: State, ops: seq<Op>)
    requires LegalRun(cursor, s, ops)
    decreases |ops|
  {
    ops == [] || (GrantIsFree(cursor, s, ops[0]) && AnswersFree(cursor, Step(cursor, s, ops[0]), ops[1..]))
  }

  lemma StepSafeIff(cursor: nat, s: State, op: Op)
    requires Safe(s) && Legal(s, op)
    ensures Safe(Step(cursor, s, op)) <==> GrantIsFree(cursor, s, op)
  {
    match op
    case Request(i, count) => RequestSafeIff(cursor, s, i, count);
    case Free(pos, count) => FreeSafe(s, pos, count);
    case Move(i, pos, count, size) =>
      if RunIsFree(cursor, s, size) {
        MoveSafe(cursor, s, i, pos, count, size);
      } else {
        MoveUnsafe(cursor, s, i, pos, count, size);
      }
    case Store(p, data) => SafeDepends(s, Step(cursor, s, op));
    case Receive(i) => SafeDepends(s, Remapped(s, i));
  }

  lemma InitialIsSafe(s: State)
    requires Initial(s)
    ensures Safe(s)
  {
  }

  /** A run keeps the allocator safe in all its states exactly if every request and every move in it
      found its answer free. */
  lemma {:induction false} RunSafeIff(cursor: nat, s: State, ops: seq<Op>)
    requires Safe(s) && LegalRun(cursor, s, ops)
    ensures SafeThroughout(cursor, s, ops) <==> AnswersFree(cursor, s, ops)
    decreases |ops|
  {
    if ops != [] {
      StepSafeIff(cursor, s, ops[0]);
      var t := Step(cursor, s, ops[0]);
      if Safe(t) {
        RunSafeIff(cursor, t, ops[1..]);
      }
    }
  }

  lemma {:induction false} ExaminedAnswersFree(s: State, ops: seq<Op>)
    requires LegalRun(0, s, ops)
    ensures AnswersFree(0, s, ops)
    decreases |ops|
  {
    if ops != [] {
      if ops[0].Request? {
        ExaminedPagesAreFree(s, ops[0].count);
      } else if ops[0].Move? {
        ExaminedPagesAreFree(s, ops[0].size);
      }
      ExaminedAnswersFree(Step(0, s, ops[0]), ops[1..]);
    }
  }

  /** Handing out the pages looked at is safe in every run. */
  lemma ExaminedPagesSafe(s: State, ops: seq<Op>)
    requires Initial(s) && LegalRun(0, s, ops)
    ensures SafeThroughout(0, s, ops)
  {
    InitialIsSafe(s);
    ExaminedAnswersFree(s, ops);
    RunSafeIff(0, s, ops);
  }

  /** Every marking of the run stays inside the bitmap. */
  ghost predicate MarksInside(cursor: nat, s: State, ops: seq<Op>)
    requires LegalRun(cursor, s, ops)
    decreases |ops|
  {
    ops == [] ||
    ((ops[0].Request? ==> StaysInside(cursor, s, ops[0].count)) &&
     (ops[0].Move? ==> StaysInside(cursor, s, ops[0].size)) &&
     MarksInside(cursor, Step(cursor, s, ops[0]), ops[1..]))
  }

  /** A run whose answers are free marks nothing behind the bitmap. */
  lemma {:induction false} FreeAnswersStayInside(cursor: nat, s: State, ops: seq<Op>)
    requires LegalRun(cursor, s, ops) && AnswersFree(cursor, s, ops)
    ensures MarksInside(cursor, s, ops)
    decreases |ops|
  {
    if ops != [] {
      FreeAnswersStayInside(cursor, Step(cursor, s, ops[0]), ops[1..]);
    }
  }
}
