/** What the moves and events of a run alone say about its calls: which move opened an activation, which
    moves shared its descriptors, which move returned its value. Every reported call carries the target
    and the arguments of the move that opened it, with each descriptor replaced by what sharing it gave;
    every reported result is the value of its return move, or what sharing that gave. */
module IpcHistory {
  import opened Options
  import opened IpcMachine
  import opened IpcRefinement

  // ---- the history -------------------------------------------------------------------------------

  /** An open call, or an entered function, of one side. `at` is the move that opened the call, or with
      which the function was entered; `shares` are the moves that ended the sharing of a descriptor for
      it; `nested` says that the call itself shares a descriptor. */
  datatype Record =
    | Opened(at: nat, nested: bool, shares: seq<nat>)
    | Handled(at: nat, returned: Option<nat>, shares: seq<nat>)

  function Last<T>(rs: seq<T>): T
    requires rs != []
  {
    rs[|rs| - 1]
  }

  function Init<T>(rs: seq<T>): seq<T> {
    if rs == [] then [] else rs[..|rs| - 1]
  }

  /** The innermost record gets one more share, by move `n`. */
  function ShareNoted(rs: seq<Record>, n: nat): seq<Record> {
    if rs == [] then rs else Init(rs) + [Last(rs).(shares := Last(rs).shares + [n])]
  }

  function ReturnNoted(rs: seq<Record>, n: nat): seq<Record> {
    if rs == [] || !Last(rs).Handled? then rs else Init(rs) + [Last(rs).(returned := Some(n))]
  }

  function CollectNoted(rs: seq<Record>, n: nat): seq<Record> {
    if rs != [] && Last(rs).Opened? && Last(rs).nested then ShareNoted(Init(rs), n) else Init(rs)
  }

  /** The open records of a side after its move `n`. */
  function Noted(rs: seq<Record>, act: Action, ev: Event, n: nat): seq<Record> {
    match act
    case Call(_, _) => rs + [Opened(n, false, [])]
    case ShareCall(_, _) => rs + [Opened(n, true, [])]
    case ShareKnown(_) => ShareNoted(rs, n)
    case Return(_) => ReturnNoted(rs, n)
    case Respond => Init(rs)
    case Collect => CollectNoted(rs, n)
    case _ => if ev.Entered? then rs + [Handled(n, None, [])] else rs
  }

  /** The open records of side `s` after the first `n` moves. */
  function History(moves: seq<Move>, evs: seq<Event>, s: Side, n: nat): seq<Record>
    requires n <= |moves| == |evs|
  {
    if n == 0 then [] else
    var rs := History(moves, evs, s, n - 1);
    if moves[n - 1].side == s then Noted(rs, moves[n - 1].action, evs[n - 1], n - 1) else rs
  }

  // ---- what it explains --------------------------------------------------------------------------

  /** What the sharing of a descriptor gave: the number that the tables knew, or the result of the call
      that asked the other side. */
  function ShareValue(moves: seq<Move>, evs: seq<Event>, j: nat): Value
    requires |moves| == |evs|
  {
    if j >= |moves| then 0
    else if moves[j].action.ShareKnown? then moves[j].action.value
    else if evs[j].Returned? && evs[j].result.Some? then evs[j].result.value
    else 0
  }

  /** Move `j` of side `s` ended the sharing of a descriptor. */
  predicate IsShare(moves: seq<Move>, evs: seq<Event>, s: Side, j: nat)
    requires |moves| == |evs|
  {
    && j < |moves| && moves[j].side == s
    && (moves[j].action.ShareKnown? || (moves[j].action.Collect? && evs[j].Returned? && evs[j].result.Some?))
  }

  predicate AreShares(moves: seq<Move>, evs: seq<Event>, s: Side, n: nat, shares: seq<nat>)
    requires |moves| == |evs|
  {
    forall i :: 0 <= i < |shares| ==> shares[i] < n && IsShare(moves, evs, s, shares[i])
  }

  function Values(moves: seq<Move>, evs: seq<Event>, shares: seq<nat>): (vs: seq<Value>)
    requires |moves| == |evs|
    ensures |vs| == |shares|
  {
    seq(|shares|, i requires 0 <= i < |shares| => ShareValue(moves, evs, shares[i]))
  }

  /** `args` are the arguments passed, with the positions `fds` replaced by the values in this order; if
      a position is named twice, the later value stays. */
  predicate Translated(fds: seq<nat>, passed: seq<Value>, vs: seq<Value>, args: seq<Value>) {
    && |args| == |passed| && |vs| == |fds|
    && (forall k :: 0 <= k < |args| && k !in fds ==> args[k] == passed[k])
    && (forall i :: 0 <= i < |fds| && fds[i] < |args| && fds[i] !in fds[i + 1..] ==> args[fds[i]] == vs[i])
  }

  /** Record `r` was opened by a move of side `s` that calls `t` with `passed`. */
  predicate OpenedBy(moves: seq<Move>, s: Side, n: nat, r: Record, t: Target, passed: seq<Value>) {
    && r.Opened? && r.at < n && r.at < |moves|
    && moves[r.at] == Move(s, if r.nested then ShareCall(t, passed) else Call(t, passed))
  }

  predicate EnteredBy(moves: seq<Move>, evs: seq<Event>, s: Side, n: nat, r: Record, t: Target)
    requires |moves| == |evs|
  {
    r.Handled? && r.at < n && r.at < |moves| && evs[r.at].Entered? && evs[r.at].side == s && evs[r.at].target == t
  }

  predicate ReturnedBy(moves: seq<Move>, s: Side, n: nat, r: Record, w: Value) {
    && r.Handled? && r.returned.Some? && r.returned.value < n && r.returned.value < |moves|
    && moves[r.returned.value] == Move(s, Return(w))
  }

  /** Event `n` is what the moves and events before it say. */
  predicate Explained(sig: Signature, moves: seq<Move>, evs: seq<Event>, n: nat)
    requires n < |moves| == |evs|
  {
    var s := moves[n].side;
    var rs := History(moves, evs, s, n);
    match evs[n]
    case Called(side, t, passed, args) =>
      && side == s && rs != [] && OpenedBy(moves, s, n, Last(rs), t, passed)
      && AreShares(moves, evs, s, n, Last(rs).shares)
      && Translated(sig.fds(t), passed, Values(moves, evs, Last(rs).shares), args)
    case Exited(side, w, v) =>
      && side == s && rs != [] && ReturnedBy(moves, s, n, Last(rs), w)
      && Last(rs).at < n && evs[Last(rs).at].Entered? && evs[Last(rs).at].side == s
      && AreShares(moves, evs, s, n, Last(rs).shares)
      && var t, vs := evs[Last(rs).at].target, Values(moves, evs, Last(rs).shares);
         && |vs| == (if sig.fdResult(t) then 1 else 0)
         && v == if !sig.hasResult(t) then None else if sig.fdResult(t) then Some(vs[0]) else Some(w)
    case Returned(side, _) => side == s && rs != [] && Last(rs).Opened?
    case Entered(side, _, _) => side == s
    case ErrnoSet(side, x) => side == s && moves[n].action == SetErrno(x)
    case Silent => true
  }

  // ---- history and stack -------------------------------------------------------------------------

  /** The replacement of the first descriptors. */
  predicate TranslatedSoFar(fds: seq<nat>, passed: seq<Value>, vs: seq<Value>, args: seq<Value>) {
    |vs| <= |fds| && Translated(fds[..|vs|], passed, vs, args)
  }

  lemma TranslateNext(fds: seq<nat>, passed: seq<Value>, vs: seq<Value>, args: seq<Value>, v: Value)
    requires TranslatedSoFar(fds, passed, vs, args) && |vs| < |fds|
    ensures var k := fds[|vs|];
            TranslatedSoFar(fds, passed, vs + [v], if k < |args| then args[k := v] else args)
  {
    var n := |vs|;
    var k := fds[n];
    var args' := if k < |args| then args[k := v] else args;
    var before, now := fds[..n], fds[..n + 1];
    assert now == before + [k];
    forall i | 0 <= i < n + 1 && now[i] < |args'| && now[i] !in now[i + 1..]
      ensures args'[now[i]] == (vs + [v])[i]
    {
      if i < n {
        assert now[i + 1..][n - i - 1] == k;
        assert now[i + 1..] == before[i + 1..] + [k];
        assert before[i] == now[i] && now[i] !in before[i + 1..];
      }
    }
  }

  /** What the history knows about an activation. */
  predicate Matches(sig: Signature, moves: seq<Move>, evs: seq<Event>, s: Side, n: nat, r: Record, f: Frame)
    requires |moves| == |evs|
  {
    AreShares(moves, evs, s, n, r.shares) &&
    match f
    case Client(t, args, pc, passed) =>
      && OpenedBy(moves, s, n, r, t, passed) && (r.nested ==> sig.hasResult(t))
      && (pc.Sharing? ==> |r.shares| == pc.next &&
                          TranslatedSoFar(sig.fds(t), passed, Values(moves, evs, r.shares), args))
    case Handler(t, _, v, pc, w) =>
      && EnteredBy(moves, evs, s, n, r, t) && !pc.Loading?
      && (pc.Running? ==> r.shares == [])
      && (pc.SharingResult? ==>
            && ReturnedBy(moves, s, n, r, w) && |r.shares| == pc.next <= ShareLimit(sig, f)
            && v == if pc.next == 0 then w else ShareValue(moves, evs, r.shares[0]))
    case _ => false
  }

  predicate IsLoading(f: Frame) {
    f.Handler? && f.hpc.Loading?
  }

  /** A call is nested exactly if the activation below it is sharing a descriptor. */
  predicate NestedOk(sig: Signature, r: Record, f: Frame, below: Frame) {
    f.Client? ==> r.Opened? && (r.nested <==> IsSharing(below)) &&
                  (r.nested ==> ShareNext(below) < ShareLimit(sig, below))
  }

  predicate TiedAt(sig: Signature, moves: seq<Move>, evs: seq<Event>, s: Side, n: nat, rs: seq<Record>,
                   stack: seq<Frame>, i: nat)
    requires |moves| == |evs| && i < |rs| < |stack|
  {
    Matches(sig, moves, evs, s, n, rs[i], stack[i + 1]) && NestedOk(sig, rs[i], stack[i + 1], stack[i])
  }

  /** The records are those of the activations above the bottom, but for a handler that still loads its
      parameters. */
  ghost predicate Tied(sig: Signature, moves: seq<Move>, evs: seq<Event>, s: Side, n: nat, rs: seq<Record>,
                       stack: seq<Frame>)
    requires |moves| == |evs|
  {
    && |rs| < |stack| && |stack| == |rs| + (if IsLoading(Last(stack)) then 2 else 1)
    && !IsSharing(stack[0]) && !stack[0].Client? && !stack[0].Handler?
    && forall i :: 0 <= i < |rs| ==> TiedAt(sig, moves, evs, s, n, rs, stack, i)
  }

  lemma TiedLater(sig: Signature, moves: seq<Move>, evs: seq<Event>, s: Side, n: nat, m: nat, rs: seq<Record>,
                  stack: seq<Frame>)
    requires |moves| == |evs| && Tied(sig, moves, evs, s, n, rs, stack) && n <= m
    ensures Tied(sig, moves, evs, s, m, rs, stack)
  {
    forall i | 0 <= i < |rs|
      ensures TiedAt(sig, moves, evs, s, m, rs, stack, i)
    {
      assert TiedAt(sig, moves, evs, s, n, rs, stack, i);
    }
  }

  lemma TiedPush(sig: Signature, moves: seq<Move>, evs: seq<Event>, s: Side, n: nat, rs: seq<Record>,
                 stack: seq<Frame>, r: Record, f: Frame)
    requires |moves| == |evs| && Tied(sig, moves, evs, s, n, rs, stack) && !IsLoading(Last(stack))
    requires Matches(sig, moves, evs, s, n, r, f) && NestedOk(sig, r, f, Last(stack))
    ensures Tied(sig, moves, evs, s, n, rs + [r], stack + [f])
  {
    forall i | 0 <= i < |rs| + 1
      ensures TiedAt(sig, moves, evs, s, n, rs + [r], stack + [f], i)
    {
      assert i < |rs| ==> TiedAt(sig, moves, evs, s, n, rs, stack, i);
    }
  }

  /** The record of the innermost activation. */
  lemma TiedTop(sig: Signature, moves: seq<Move>, evs: seq<Event>, s: Side, n: nat, rs: seq<Record>, stack: seq<Frame>)
    requires |moves| == |evs| && Tied(sig, moves, evs, s, n, rs, stack)
    requires (Last(stack).Client? || Last(stack).Handler?) && !IsLoading(Last(stack))
    ensures rs != [] && |stack| > 1 && Matches(sig, moves, evs, s, n, Last(rs), Last(stack))
    ensures NestedOk(sig, Last(rs), Last(stack), stack[|stack| - 2])
  {
    assert TiedAt(sig, moves, evs, s, n, rs, stack, |rs| - 1);
  }

  lemma TiedPop(sig: Signature, moves: seq<Move>, evs: seq<Event>, s: Side, n: nat, rs: seq<Record>, stack: seq<Frame>)
    requires |moves| == |evs| && Tied(sig, moves, evs, s, n, rs, stack)
    requires (Last(stack).Client? || Last(stack).Handler?) && !IsLoading(Last(stack))
    ensures rs != [] && |stack| > 1 && Tied(sig, moves, evs, s, n, Init(rs), Init(stack))
  {
    TiedTop(sig, moves, evs, s, n, rs, stack);
    forall i | 0 <= i < |rs| - 1
      ensures TiedAt(sig, moves, evs, s, n, Init(rs), Init(stack), i)
    {
      assert TiedAt(sig, moves, evs, s, n, rs, stack, i);
    }
    if |rs| > 1 {
      assert TiedAt(sig, moves, evs, s, n, rs, stack, |rs| - 2);
    }
  }

  /** The innermost activation goes on. */
  lemma TiedReplace(sig: Signature, moves: seq<Move>, evs: seq<Event>, s: Side, n: nat, rs: seq<Record>,
                    stack: seq<Frame>, r: Record, f: Frame)
    requires |moves| == |evs| && Tied(sig, moves, evs, s, n, rs, stack)
    requires (Last(stack).Client? || Last(stack).Handler?) && !IsLoading(Last(stack)) && !IsLoading(f)
    requires Matches(sig, moves, evs, s, n, r, f)
    requires f.Client? ==>
               Last(stack).Client? && rs != [] && Last(rs).Opened? && r.Opened? && r.nested == Last(rs).nested
    ensures Tied(sig, moves, evs, s, n, Init(rs) + [r], Init(stack) + [f])
  {
    TiedTop(sig, moves, evs, s, n, rs, stack);
    TiedPop(sig, moves, evs, s, n, rs, stack);
    assert Last(Init(stack)) == stack[|stack| - 2];
    TiedPush(sig, moves, evs, s, n, Init(rs), Init(stack), r, f);
  }

  /** Another descriptor is shared for the innermost activation. */
  lemma SharedMatches(sig: Signature, moves: seq<Move>, evs: seq<Event>, s: Side, n: nat, r: Record, f: Frame)
    requires n < |moves| == |evs| && Matches(sig, moves, evs, s, n, r, f) && IsSharing(f)
    requires ShareNext(f) < ShareLimit(sig, f) && IsShare(moves, evs, s, n)
    ensures Matches(sig, moves, evs, s, n + 1, r.(shares := r.shares + [n]), Shared(sig, f, ShareValue(moves, evs, n)))
  {
    var v := ShareValue(moves, evs, n);
    if f.Client? {
      TranslateNext(sig.fds(f.target), f.passed, Values(moves, evs, r.shares), f.args, v);
      assert Values(moves, evs, r.shares + [n]) == Values(moves, evs, r.shares) + [v];
    }
  }

  // ---- the steps ---------------------------------------------------------------------------------

  /** Move `n` is the next step of the machine in state `c`, and the history fits its side. */
  ghost predicate AtStep(sig: Signature, moves: seq<Move>, evs: seq<Event>, n: nat, c: State, rs: seq<Record>) {
    && n < |moves| == |evs| && Sized(c)
    && var s, o := moves[n].side, Next(sig, c, moves[n].side, moves[n].action);
       o.Step? && evs[n] == o.event && Tied(sig, moves, evs, s, n, rs, c.procs[s].stack)
  }

  /** The history fits the side afterwards. */
  ghost predicate TiedAfter(sig: Signature, moves: seq<Move>, evs: seq<Event>, n: nat, c: State, rs: seq<Record>)
    requires n < |moves| == |evs| && Sized(c) && Next(sig, c, moves[n].side, moves[n].action).Step?
  {
    var s, d := moves[n].side, Next(sig, c, moves[n].side, moves[n].action).next;
    && |d.procs| == 2 && d.procs[1 - s].stack == c.procs[1 - s].stack
    && Tied(sig, moves, evs, s, n + 1, Noted(rs, moves[n].action, evs[n], n), d.procs[s].stack)
  }

  lemma CallTied(sig: Signature, moves: seq<Move>, evs: seq<Event>, n: nat, c: State, rs: seq<Record>)
    requires AtStep(sig, moves, evs, n, c, rs) && (moves[n].action.Call? || moves[n].action.ShareCall?)
    ensures TiedAfter(sig, moves, evs, n, c, rs)
  {
    var s, act := moves[n].side, moves[n].action;
    var r, f := Opened(n, act.ShareCall?, []), Client(act.target, act.args, Sharing(0), act.args);
    TiedLater(sig, moves, evs, s, n, n + 1, rs, c.procs[s].stack);
    assert Values(moves, evs, []) == [];
    assert Matches(sig, moves, evs, s, n + 1, r, f);
    TiedPush(sig, moves, evs, s, n + 1, rs, c.procs[s].stack, r, f);
  }

  lemma NextShare(sig: Signature, moves: seq<Move>, evs: seq<Event>, s: Side, n: nat, r: Record, f: Frame)
    returns (r': Record, f': Frame)
    requires n < |moves| == |evs| && Matches(sig, moves, evs, s, n, r, f) && IsSharing(f)
    requires ShareNext(f) < ShareLimit(sig, f) && IsShare(moves, evs, s, n)
    ensures r' == r.(shares := r.shares + [n]) && f' == Shared(sig, f, ShareValue(moves, evs, n))
    ensures Matches(sig, moves, evs, s, n + 1, r', f') && !IsLoading(f') && (f'.Client? <==> f.Client?)
    ensures f.Client? ==> r.Opened? && r'.Opened? && r'.nested == r.nested
  {
    r', f' := r.(shares := r.shares + [n]), Shared(sig, f, ShareValue(moves, evs, n));
    SharedMatches(sig, moves, evs, s, n, r, f);
  }

  lemma ShareTied(sig: Signature, moves: seq<Move>, evs: seq<Event>, s: Side, n: nat, rs: seq<Record>,
                  stack: seq<Frame>)
    requires n < |moves| == |evs| && Tied(sig, moves, evs, s, n, rs, stack) && IsShare(moves, evs, s, n)
    requires IsSharing(Last(stack)) && ShareNext(Last(stack)) < ShareLimit(sig, Last(stack))
    ensures var f := Shared(sig, Last(stack), ShareValue(moves, evs, n));
            Tied(sig, moves, evs, s, n + 1, ShareNoted(rs, n), Init(stack) + [f])
  {
    TiedTop(sig, moves, evs, s, n, rs, stack);
    var r, f := NextShare(sig, moves, evs, s, n, Last(rs), Last(stack));
    TiedLater(sig, moves, evs, s, n, n + 1, rs, stack);
    TiedReplace(sig, moves, evs, s, n + 1, rs, stack, r, f);
  }

  lemma ShareKnownTied(sig: Signature, moves: seq<Move>, evs: seq<Event>, n: nat, c: State, rs: seq<Record>)
    requires AtStep(sig, moves, evs, n, c, rs) && moves[n].action.ShareKnown?
    ensures TiedAfter(sig, moves, evs, n, c, rs)
  {
    ShareTied(sig, moves, evs, moves[n].side, n, rs, c.procs[moves[n].side].stack);
  }

  lemma ReturnTied(sig: Signature, moves: seq<Move>, evs: seq<Event>, n: nat, c: State, rs: seq<Record>)
    requires AtStep(sig, moves, evs, n, c, rs) && moves[n].action.Return?
    ensures TiedAfter(sig, moves, evs, n, c, rs)
  {
    var s, stack, v := moves[n].side, c.procs[moves[n].side].stack, moves[n].action.value;
    TiedTop(sig, moves, evs, s, n, rs, stack);
    TiedLater(sig, moves, evs, s, n, n + 1, rs, stack);
    TiedReplace(sig, moves, evs, s, n + 1, rs, stack, Last(rs).(returned := Some(n)),
                Last(stack).(result := v, returned := v, hpc := SharingResult(0)));
  }

  lemma PopTied(sig: Signature, moves: seq<Move>, evs: seq<Event>, n: nat, c: State, rs: seq<Record>)
    requires AtStep(sig, moves, evs, n, c, rs) && moves[n].action.Respond?
    ensures TiedAfter(sig, moves, evs, n, c, rs)
  {
    var s, stack := moves[n].side, c.procs[moves[n].side].stack;
    TiedPop(sig, moves, evs, s, n, rs, stack);
    TiedLater(sig, moves, evs, s, n, n + 1, Init(rs), Init(stack));
  }

  lemma CollectTied(sig: Signature, moves: seq<Move>, evs: seq<Event>, n: nat, c: State, rs: seq<Record>)
    requires AtStep(sig, moves, evs, n, c, rs) && moves[n].action.Collect?
    ensures TiedAfter(sig, moves, evs, n, c, rs) && rs != [] && Last(rs).Opened?
  {
    var s, stack := moves[n].side, c.procs[moves[n].side].stack;
    TiedTop(sig, moves, evs, s, n, rs, stack);
    TiedPop(sig, moves, evs, s, n, rs, stack);
    CollectStepIs(sig, c, s);
    var under := Init(stack);
    assert under == Below(c, s) && Last(under) == stack[|stack| - 2];
    if IsSharing(Last(under)) {
      ShareTied(sig, moves, evs, s, n, Init(rs), under);
    } else {
      TiedLater(sig, moves, evs, s, n, n + 1, Init(rs), under);
    }
  }

  lemma FinishSharingTied(sig: Signature, moves: seq<Move>, evs: seq<Event>, n: nat, c: State, rs: seq<Record>)
    requires AtStep(sig, moves, evs, n, c, rs) && moves[n].action.FinishSharing?
    ensures TiedAfter(sig, moves, evs, n, c, rs)
  {
    var s, stack := moves[n].side, c.procs[moves[n].side].stack;
    var f := Last(stack);
    TiedTop(sig, moves, evs, s, n, rs, stack);
    TiedLater(sig, moves, evs, s, n, n + 1, rs, stack);
    assert rs == Init(rs) + [Last(rs)];
    TiedReplace(sig, moves, evs, s, n + 1, rs, stack, Last(rs),
                if f.Client? then f.(cpc := Storing(0)) else f.(hpc := StoringResult));
  }

  /** The activation does something that the history does not record. */
  predicate GoesOn(g: Frame, f: Frame) {
    && !IsLoading(g) && !IsLoading(f) && !IsSharing(f)
    && ((g.Client? && f.Client? && f == g.(cpc := f.cpc)) ||
        (g.Handler? && f.Handler? && f == g.(hpc := f.hpc) && !f.hpc.Running?))
  }

  lemma GoOnTied(sig: Signature, moves: seq<Move>, evs: seq<Event>, s: Side, n: nat, rs: seq<Record>,
                 stack: seq<Frame>, f: Frame)
    requires |moves| == |evs| && Tied(sig, moves, evs, s, n, rs, stack) && GoesOn(Last(stack), f)
    ensures Tied(sig, moves, evs, s, n + 1, rs, Init(stack) + [f])
  {
    TiedTop(sig, moves, evs, s, n, rs, stack);
    TiedLater(sig, moves, evs, s, n, n + 1, rs, stack);
    assert rs == Init(rs) + [Last(rs)];
    TiedReplace(sig, moves, evs, s, n + 1, rs, stack, Last(rs), f);
  }

  lemma StoreTied(sig: Signature, moves: seq<Move>, evs: seq<Event>, n: nat, c: State, rs: seq<Record>)
    requires AtStep(sig, moves, evs, n, c, rs) && moves[n].action.Store?
    ensures TiedAfter(sig, moves, evs, n, c, rs)
  {
    var s, stack := moves[n].side, c.procs[moves[n].side].stack;
    var f := Last(stack);
    var f' := if f.Client?
              then f.(cpc := if f.cpc.StoringTarget? then Triggering
                             else if f.cpc.next < |f.args| then Storing(f.cpc.next + 1) else StoringTarget)
              else f.(hpc := if f.hpc.StoringResult? then StoringCode else Responding);
    assert Next(sig, c, s, Store).next.procs[s].stack == Init(stack) + [f'];
    GoOnTied(sig, moves, evs, s, n, rs, stack, f');
  }

  lemma TriggerTied(sig: Signature, moves: seq<Move>, evs: seq<Event>, n: nat, c: State, rs: seq<Record>)
    requires AtStep(sig, moves, evs, n, c, rs) && moves[n].action.Trigger?
    ensures TiedAfter(sig, moves, evs, n, c, rs)
  {
    var s, stack := moves[n].side, c.procs[moves[n].side].stack;
    GoOnTied(sig, moves, evs, s, n, rs, stack, Last(stack).(cpc := Waiting));
  }

  /** A handler that loads its parameters is not recorded yet. */
  lemma LoadingTied(sig: Signature, moves: seq<Move>, evs: seq<Event>, s: Side, n: nat, rs: seq<Record>,
                    stack: seq<Frame>, f: Frame)
    requires |moves| == |evs| && Tied(sig, moves, evs, s, n, rs, stack) && IsLoading(f)
    ensures !IsLoading(Last(stack)) ==> Tied(sig, moves, evs, s, n + 1, rs, stack + [f])
    ensures IsLoading(Last(stack)) ==> Tied(sig, moves, evs, s, n + 1, rs, Init(stack) + [f])
  {
    var m := n + 1;
    TiedLater(sig, moves, evs, s, n, m, rs, stack);
    var next := if IsLoading(Last(stack)) then Init(stack) + [f] else stack + [f];
    forall i | 0 <= i < |rs|
      ensures TiedAt(sig, moves, evs, s, m, rs, next, i)
    {
      assert TiedAt(sig, moves, evs, s, m, rs, stack, i);
    }
  }

  lemma ReceiveTied(sig: Signature, moves: seq<Move>, evs: seq<Event>, n: nat, c: State, rs: seq<Record>)
    requires AtStep(sig, moves, evs, n, c, rs) && moves[n].action.Receive?
    ensures TiedAfter(sig, moves, evs, n, c, rs)
  {
    var s, stack, b := moves[n].side, c.procs[moves[n].side].stack, c.bufs[1 - moves[n].side];
    if b.code == 1 && Last(stack).Client? {
      GoOnTied(sig, moves, evs, s, n, rs, stack, Last(stack).(cpc := Collecting));
    } else if b.code >= 2 {
      LoadingTied(sig, moves, evs, s, n, rs, stack,
                  Handler(if b.code == 2 then Callback(b.callback) else Function(b.code), [], 0, Loading, 0));
    } else {
      TiedLater(sig, moves, evs, s, n, n + 1, rs, stack);
    }
  }

  lemma LoadTied(sig: Signature, moves: seq<Move>, evs: seq<Event>, n: nat, c: State, rs: seq<Record>)
    requires AtStep(sig, moves, evs, n, c, rs) && moves[n].action.Load?
    ensures TiedAfter(sig, moves, evs, n, c, rs)
  {
    var s, stack := moves[n].side, c.procs[moves[n].side].stack;
    var f := Last(stack);
    if |f.params| < sig.arity(f.target) {
      LoadingTied(sig, moves, evs, s, n, rs, stack, f.(params := f.params + [Slot(c.bufs[1 - s], |f.params|)]));
    } else {
      EnteredTied(sig, moves, evs, s, n, rs, stack);
    }
  }

  lemma EnteredTied(sig: Signature, moves: seq<Move>, evs: seq<Event>, s: Side, n: nat, rs: seq<Record>,
                    stack: seq<Frame>)
    requires n < |moves| == |evs| && Tied(sig, moves, evs, s, n, rs, stack) && IsLoading(Last(stack))
    requires evs[n].Entered? && evs[n].side == s && evs[n].target == Last(stack).target
    ensures Tied(sig, moves, evs, s, n + 1, rs + [Handled(n, None, [])], Init(stack) + [Last(stack).(hpc := Running)])
  {
    var r, f, m := Handled(n, None, []), Last(stack).(hpc := Running), n + 1;
    TiedLater(sig, moves, evs, s, n, m, rs, stack);
    assert Matches(sig, moves, evs, s, m, r, f);
    forall i | 0 <= i < |rs| + 1
      ensures TiedAt(sig, moves, evs, s, m, rs + [r], Init(stack) + [f], i)
    {
      assert i < |rs| ==> TiedAt(sig, moves, evs, s, m, rs, stack, i);
    }
  }

  lemma StepTied(sig: Signature, moves: seq<Move>, evs: seq<Event>, n: nat, c: State, rs: seq<Record>)
    requires AtStep(sig, moves, evs, n, c, rs)
    ensures TiedAfter(sig, moves, evs, n, c, rs)
  {
    match moves[n].action
    case SetErrno(x) => TiedLater(sig, moves, evs, moves[n].side, n, n + 1, rs, c.procs[moves[n].side].stack);
    case Call(t, args) => CallTied(sig, moves, evs, n, c, rs);
    case ShareCall(t, args) => CallTied(sig, moves, evs, n, c, rs);
    case ShareKnown(v) => ShareKnownTied(sig, moves, evs, n, c, rs);
    case FinishSharing => FinishSharingTied(sig, moves, evs, n, c, rs);
    case Store => StoreTied(sig, moves, evs, n, c, rs);
    case Trigger => TriggerTied(sig, moves, evs, n, c, rs);
    case Receive => ReceiveTied(sig, moves, evs, n, c, rs);
    case Load => LoadTied(sig, moves, evs, n, c, rs);
    case Return(v) => ReturnTied(sig, moves, evs, n, c, rs);
    case Respond => PopTied(sig, moves, evs, n, c, rs);
    case Collect => CollectTied(sig, moves, evs, n, c, rs);
  }

  lemma CalledExplained(sig: Signature, moves: seq<Move>, evs: seq<Event>, n: nat, c: State, rs: seq<Record>)
    requires AtStep(sig, moves, evs, n, c, rs) && moves[n].action.FinishSharing?
    requires rs == History(moves, evs, moves[n].side, n)
    ensures Explained(sig, moves, evs, n)
  {
    var s, stack := moves[n].side, c.procs[moves[n].side].stack;
    var f := Last(stack);
    TiedTop(sig, moves, evs, s, n, rs, stack);
    if f.Client? {
      assert sig.fds(f.target)[..|sig.fds(f.target)|] == sig.fds(f.target);
    }
  }

  lemma StepExplained(sig: Signature, moves: seq<Move>, evs: seq<Event>, n: nat, c: State, rs: seq<Record>)
    requires AtStep(sig, moves, evs, n, c, rs) && rs == History(moves, evs, moves[n].side, n)
    ensures Explained(sig, moves, evs, n)
  {
    match moves[n].action
    case FinishSharing => CalledExplained(sig, moves, evs, n, c, rs);
    case Collect => CollectTied(sig, moves, evs, n, c, rs);
    case _ =>
  }

  // ---- whole runs --------------------------------------------------------------------------------

  ghost predicate BothTied(sig: Signature, moves: seq<Move>, evs: seq<Event>, n: nat, c: State) {
    && n <= |moves| == |evs| && |c.procs| == 2
    && Tied(sig, moves, evs, 0, n, History(moves, evs, 0, n), c.procs[0].stack)
    && Tied(sig, moves, evs, 1, n, History(moves, evs, 1, n), c.procs[1].stack)
  }

  lemma BothTiedNext(sig: Signature, moves: seq<Move>, evs: seq<Event>, n: nat, c: State)
    requires BothTied(sig, moves, evs, n, c) && n < |moves| && Sized(c)
    requires var o := Next(sig, c, moves[n].side, moves[n].action); o.Step? && evs[n] == o.event
    ensures BothTied(sig, moves, evs, n + 1, Next(sig, c, moves[n].side, moves[n].action).next)
  {
    var s := moves[n].side;
    var rs, other := History(moves, evs, s, n), History(moves, evs, 1 - s, n);
    StepTied(sig, moves, evs, n, c, rs);
    TiedLater(sig, moves, evs, 1 - s, n, n + 1, other, c.procs[1 - s].stack);
    assert History(moves, evs, s, n + 1) == Noted(rs, moves[n].action, evs[n], n);
    assert History(moves, evs, 1 - s, n + 1) == other;
    assert s == 0 || s == 1;
  }

  lemma {:induction false} RestExplained(sig: Signature, moves: seq<Move>, evs: seq<Event>, n: nat, c: State, m: nat)
    requires BothTied(sig, moves, evs, n, c) && IsRun(sig, c, moves[n..]) && evs[n..] == Events(sig, c, moves[n..])
    requires n <= m < |moves|
    ensures Explained(sig, moves, evs, m)
    decreases |moves| - n
  {
    var o := Next(sig, c, moves[n..][0].side, moves[n..][0].action);
    assert moves[n..][0] == moves[n] && evs[n..][0] == evs[n];
    assert moves[n..][1..] == moves[n + 1..] && evs[n..][1..] == evs[n + 1..];
    assert moves[n].side == 0 || moves[n].side == 1;
    if m == n {
      StepExplained(sig, moves, evs, n, c, History(moves, evs, moves[n].side, n));
    } else {
      BothTiedNext(sig, moves, evs, n, c);
      RestExplained(sig, moves, evs, n + 1, o.next, m);
    }
  }

  lemma {:induction false} OneEventEach(sig: Signature, c: State, moves: seq<Move>)
    requires IsRun(sig, c, moves)
    ensures |Events(sig, c, moves)| == |moves|
    decreases |moves|
  {
    if moves != [] {
      OneEventEach(sig, Next(sig, c, moves[0].side, moves[0].action).next, moves[1..]);
    }
  }

  /** In every run every event is explained by the moves and events before it. */
  lemma RunExplained(sig: Signature, errno: int, moves: seq<Move>, n: nat)
    requires IsRun(sig, Initial(errno), moves) && n < |moves|
    ensures var evs := Events(sig, Initial(errno), moves); |evs| == |moves| && Explained(sig, moves, evs, n)
  {
    var evs := Events(sig, Initial(errno), moves);
    OneEventEach(sig, Initial(errno), moves);
    assert moves[0..] == moves && evs[0..] == evs;
    RestExplained(sig, moves, evs, 0, Initial(errno), n);
  }

  // ---- from one side to the other ----------------------------------------------------------------

  /** What the synchronous call stack allows next, once something has been called or has exited. */
  lemma {:induction false} NextIsForced(sig: Signature, a: Sync, evs: seq<Event>, b: Sync, j: nat)
    requires SyncRun(sig, a, evs, b) && j < |evs| && evs[j] != Silent && forall k :: 0 <= k < j ==> evs[k] == Silent
    ensures a.mode.Entering? && |a.calls| > 0 ==>
              evs[j] == Entered(Turn(|a.calls|), Last(a.calls).target, Last(a.calls).args)
    ensures a.mode.Returning? && |a.calls| > 0 ==> evs[j] == Returned(Turn(|a.calls| - 1), a.mode.result)
    decreases |evs|
  {
    var m :| SyncStep(sig, a, evs[0], m) && SyncRun(sig, m, evs[1..], b);
    if j > 0 {
      assert evs[0] == Silent;
      forall k | 0 <= k < j - 1
        ensures evs[1..][k] == Silent
      {
        assert evs[k + 1] == Silent;
      }
      NextIsForced(sig, m, evs[1..], b, j - 1);
    }
  }

  /** The first thing to happen after a call is that the other side enters the target with these arguments;
      the first thing to happen after an exit is that the other side gets this result. */
  ghost predicate HandedOver(evs: seq<Event>, i: nat, j: nat)
    requires i < j < |evs|
  {
    && (evs[i].Called? ==> evs[j] == Entered(1 - evs[i].side, evs[i].target, evs[i].args))
    && (evs[i].Exited? ==> evs[j] == Returned(1 - evs[i].side, evs[i].result))
  }

  lemma {:induction false} SyncHandsOver(sig: Signature, a: Sync, evs: seq<Event>, b: Sync, i: nat, j: nat)
    requires SyncRun(sig, a, evs, b) && i < j < |evs|
    requires evs[j] != Silent && forall k :: i < k < j ==> evs[k] == Silent
    ensures HandedOver(evs, i, j)
    decreases |evs|
  {
    var m :| SyncStep(sig, a, evs[0], m) && SyncRun(sig, m, evs[1..], b);
    forall k | 0 <= k < |evs| - 1
      ensures evs[1..][k] == evs[k + 1]
    {
    }
    if i > 0 {
      SyncHandsOver(sig, m, evs[1..], b, i - 1, j - 1);
    } else {
      NextIsForced(sig, m, evs[1..], b, j - 1);
    }
  }

  /** So in every run of the two processes. */
  lemma RunHandsOver(sig: Signature, errno: int, moves: seq<Move>, i: nat, j: nat)
    requires IsRun(sig, Initial(errno), moves)
    requires var evs := Events(sig, Initial(errno), moves);
             i < j < |evs| && evs[j] != Silent && forall k :: i < k < j ==> evs[k] == Silent
    ensures HandedOver(Events(sig, Initial(errno), moves), i, j)
  {
    InitialRelated(sig, errno);
    var b, ph := RunRefines(sig, Initial(errno), Sync([], Working, errno), AtWork, moves);
    SyncHandsOver(sig, Sync([], Working, errno), Events(sig, Initial(errno), moves), b, i, j);
  }

  // ---- errno and the checks ----------------------------------------------------------------------

  /** The value that was set last. */
  function LastSet(errno: int, evs: seq<Event>): int {
    if evs == [] then errno
    else if Last(evs).ErrnoSet? then Last(evs).x
    else LastSet(errno, Init(evs))
  }

  lemma {:induction false} LastSetTail(errno: int, evs: seq<Event>)
    requires evs != []
    ensures LastSet(errno, evs) == LastSet(if evs[0].ErrnoSet? then evs[0].x else errno, evs[1..])
    decreases |evs|
  {
    if |evs| > 1 {
      LastSetTail(errno, Init(evs));
      assert Init(evs[1..]) == Init(evs)[1..] && Last(evs[1..]) == Last(evs);
    }
  }

  lemma {:induction false} SyncErrno(sig: Signature, a: Sync, evs: seq<Event>, b: Sync)
    requires SyncRun(sig, a, evs, b)
    ensures b.errno == LastSet(a.errno, evs)
    decreases |evs|
  {
    if evs != [] {
      var m :| SyncStep(sig, a, evs[0], m) && SyncRun(sig, m, evs[1..], b);
      SyncErrno(sig, m, evs[1..], b);
      LastSetTail(a.errno, evs);
    }
  }

  /** Whichever side runs the program or the library sees the errno that either of them set last. */
  lemma ErrnoIsLastSet(sig: Signature, errno: int, moves: seq<Move>, s: Side)
    requires IsRun(sig, Initial(errno), moves)
    requires var c := Final(sig, Initial(errno), moves); Sized(c) && InUserCode(Top(c, s))
    ensures var c := Final(sig, Initial(errno), moves);
            c.procs[s].errno == LastSet(errno, Events(sig, Initial(errno), moves))
  {
    var a := ReachableIsSafe(sig, errno, moves);
    SyncErrno(sig, Sync([], Working, errno), Events(sig, Initial(errno), moves), a);
  }

  lemma BlockedIffWaiting(sig: Signature, c: State, a: Sync, ph: Phase, s: Side)
    requires Related(sig, c, a, ph)
    ensures c.procs[s].blocked <==> IsWaiting(Top(c, s))
  {
  }

  lemma SenderRuns(sig: Signature, c: State, s: Side, act: Action)
    requires Sized(c) && Next(sig, c, s, act).Step? && (act.Trigger? || act.Respond?)
    ensures !IsWaiting(Top(c, s))
  {
  }

  lemma NoFaultOnReceipt(c: State, s: Side)
    requires Sized(c) && ReceiveStep(c, s).Step? && !ReceiveStep(c, s).next.fault
    ensures c.procs[s].blocked && c.bufs[1 - s].code >= 1
    ensures c.bufs[1 - s].code == 1 ==> Top(c, s).Client? && Top(c, s).cpc.Waiting?
  {
  }

  lemma ReceiptIsFine(sig: Signature, c: State, a: Sync, ph: Phase, s: Side)
    requires Related(sig, c, a, ph) && Next(sig, c, s, Receive).Step?
    ensures !Next(sig, c, s, Receive).next.fault
  {
    var a', ph' := StepRefines(sig, c, a, ph, s, Receive);
  }

  /** Whoever hands over the turn is not blocked, whoever gets it is; a reply finds a call that waits for
      it, and every other message names a function or a callback. */
  predicate ChecksHold(c: State, s: Side, act: Action)
    requires Sized(c)
  {
    && (act.Trigger? || act.Respond? ==> !c.procs[s].blocked)
    && (act.Receive? ==>
          && c.procs[s].blocked && c.bufs[1 - s].code >= 1
          && (c.bufs[1 - s].code == 1 ==> Top(c, s).Client? && Top(c, s).cpc.Waiting?))
  }

  lemma ChecksHoldRelated(sig: Signature, c: State, a: Sync, ph: Phase, s: Side, act: Action)
    requires Related(sig, c, a, ph) && Next(sig, c, s, act).Step?
    ensures ChecksHold(c, s, act)
  {
    BlockedIffWaiting(sig, c, a, ph, s);
    if act.Trigger? || act.Respond? {
      SenderRuns(sig, c, s, act);
    } else if act.Receive? {
      ReceiptIsFine(sig, c, a, ph, s);
      NoFaultOnReceipt(c, s);
    }
  }

  /** No check of the original fires in any run. */
  lemma ChecksNeverFire(sig: Signature, errno: int, moves: seq<Move>, s: Side, act: Action)
    requires IsRun(sig, Initial(errno), moves)
    requires var c := Final(sig, Initial(errno), moves); Sized(c) && Next(sig, c, s, act).Step?
    ensures ChecksHold(Final(sig, Initial(errno), moves), s, act)
  {
    InitialRelated(sig, errno);
    var a, ph := RunRefines(sig, Initial(errno), Sync([], Working, errno), AtWork, moves);
    ChecksHoldRelated(sig, Final(sig, Initial(errno), moves), a, ph, s, act);
  }
}
