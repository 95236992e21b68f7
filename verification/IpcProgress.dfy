/** Two things about the steps themselves: what an activation records of its call stays put until the
    call is reported, and the protocol cannot go on for long without something happening that the program
    or the library can observe. */
module IpcProgress {
  import opened IpcMachine
  import opened IpcRefinement

  // ---- what activations record -------------------------------------------------------------------

  /** The activation at the same place is still the same call: same target, same arguments passed in, and
      a handled function's result does not change once it has returned. */
  predicate SameRecord(f: Frame, g: Frame) {
    match f
    case Client(t, _, _, passed) => g.Client? && g.target == t && g.passed == passed
    case Handler(t, _, _, pc, w) => g.Handler? && g.target == t && (pc.Loading? || pc.Running? || g.returned == w)
    case _ => g == f
  }

  ghost predicate KeepsRecords(p: seq<Frame>, q: seq<Frame>) {
    |p| <= |q| + 1 && |q| <= |p| + 1 && forall i :: 0 <= i < |p| && i < |q| ==> SameRecord(p[i], q[i])
  }

  /** In the step from `c` to `d` of side `s` the records of both sides stay. */
  ghost predicate RecordsStay(c: State, d: State, s: Side) {
    && Sized(c) && |d.procs| == 2
    && KeepsRecords(c.procs[s].stack, d.procs[s].stack) && d.procs[1 - s].stack == c.procs[1 - s].stack
  }

  /** `d` differs from `c` in anything but the stacks. */
  predicate SameStacks(c: State, d: State) {
    Sized(c) && Sized(d) && d.procs[0].stack == c.procs[0].stack && d.procs[1].stack == c.procs[1].stack
  }

  lemma ReplacedStay(c: State, d: State, s: Side, f: Frame)
    requires SameStacks(c, d) && SameRecord(Top(c, s), f)
    ensures RecordsStay(c, Replaced(d, s, f), s)
  {
  }

  lemma PushedStay(c: State, d: State, s: Side, f: Frame)
    requires SameStacks(c, d)
    ensures RecordsStay(c, Pushed(d, s, f), s)
  {
  }

  lemma PoppedStay(c: State, d: State, s: Side)
    requires SameStacks(c, d)
    ensures RecordsStay(c, WithStack(d, s, Below(c, s)), s)
  {
  }

  lemma StoreStays(sig: Signature, c: State, s: Side)
    requires Sized(c) && StoreStep(sig, c, s).Step?
    ensures RecordsStay(c, StoreStep(sig, c, s).next, s)
  {
    var f, b := Top(c, s), c.bufs[s];
    if f.Client? {
      StoreStepStores(sig, c, s);
      var (b', f') := StoredRequest(b, f);
      ReplacedStay(c, c.(bufs := c.bufs[s := b']), s, f');
    } else if f.hpc.StoringResult? {
      var b' := if sig.hasResult(f.target) then b.(data := b.data[0 := f.result]) else b;
      ReplacedStay(c, c.(bufs := c.bufs[s := b']), s, f.(hpc := StoringCode));
    } else {
      ReplacedStay(c, c.(bufs := c.bufs[s := b.(code := 1)]), s, f.(hpc := Responding));
    }
  }

  lemma ReceiveStays(c: State, s: Side)
    requires Sized(c) && ReceiveStep(c, s).Step?
    ensures RecordsStay(c, ReceiveStep(c, s).next, s)
  {
    var b := c.bufs[1 - s];
    var d := c.(sems := c.sems[s := c.sems[s] - 1],
                procs := c.procs[s := c.procs[s].(blocked := false, errno := b.errno)],
                fault := c.fault || !c.procs[s].blocked);
    if b.code == 1 && Top(c, s).Client? {
      ReplacedStay(c, d, s, Top(c, s).(cpc := Collecting));
    } else if b.code == 2 {
      PushedStay(c, d, s, Handler(Callback(b.callback), [], 0, Loading, 0));
    } else if b.code > 2 {
      PushedStay(c, d, s, Handler(Function(b.code), [], 0, Loading, 0));
    }
  }

  lemma CollectStays(sig: Signature, c: State, s: Side)
    requires Sized(c) && CollectStep(sig, c, s).Step?
    ensures RecordsStay(c, CollectStep(sig, c, s).next, s)
  {
    CollectStepIs(sig, c, s);
    PoppedStay(c, c, s);
    var d := WithStack(c, s, Below(c, s));
    if IsSharing(Top(d, s)) {
      var f := Shared(sig, Top(d, s), Slot(c.bufs[1 - s], 0));
      ReplacedStay(d, d, s, f);
      assert Below(d, s) + [f] == TakenOver(sig, d, s, Slot(c.bufs[1 - s], 0)).procs[s].stack;
    }
  }

  /** Every step of either side leaves the records of the activations that stay open as they are. */
  lemma StepKeepsRecords(sig: Signature, c: State, s: Side, act: Action)
    requires Sized(c) && Next(sig, c, s, act).Step?
    ensures RecordsStay(c, Next(sig, c, s, act).next, s)
  {
    var f := Top(c, s);
    match act
    case SetErrno(x) =>
    case Call(t, args) => PushedStay(c, c, s, Client(t, args, Sharing(0), args));
    case ShareCall(t, args) => PushedStay(c, c, s, Client(t, args, Sharing(0), args));
    case ShareKnown(v) => ReplacedStay(c, c, s, Shared(sig, f, v));
    case FinishSharing => ReplacedStay(c, c, s, if f.Client? then f.(cpc := Storing(0)) else f.(hpc := StoringResult));
    case Store => StoreStays(sig, c, s);
    case Trigger => ReplacedStay(c, SendTurn(c, s), s, f.(cpc := Waiting));
    case Receive => ReceiveStays(c, s);
    case Load =>
      ReplacedStay(c, c, s, f.(params := f.params + [Slot(c.bufs[1 - s], |f.params|)]));
      ReplacedStay(c, c, s, f.(hpc := Running));
    case Return(v) => ReplacedStay(c, c, s, f.(result := v, returned := v, hpc := SharingResult(0)));
    case Respond => PoppedStay(c, SendTurn(c, s), s);
    case Collect => CollectStays(sig, c, s);
  }

  // ---- how long the protocol can be silent -------------------------------------------------------

  function Left(n: nat, i: nat): nat {
    if i < n then n - i else 0
  }

  /** How many silent steps an activation still leads to. */
  function FrameRank(sig: Signature, f: Frame): nat {
    match f
    case Client(t, args, pc, _) => (
      match pc
      case Sharing(i) => Left(|sig.fds(t)|, i)
      case Storing(i) => Left(|args|, i) + 4 + sig.arity(t)
      case StoringTarget => 3 + sig.arity(t)
      case Triggering => 2 + sig.arity(t)
      case _ => 0)
    case Handler(t, params, _, pc, _) => (
      match pc
      case Loading => Left(sig.arity(t), |params|)
      case SharingResult(i) => Left(ShareLimit(sig, f), i)
      case StoringResult => 4
      case StoringCode => 3
      case Responding => 2
      case Running => 0)
    case _ => 0
  }

  /** The same for a message on its way: a reply, or a request for some target. */
  function MessageRank(sig: Signature, b: Buffer): nat {
    if b.code == 1 then 1
    else if b.code == 2 then 1 + sig.arity(Callback(b.callback))
    else 1 + sig.arity(Function(b.code))
  }

  function SideRank(sig: Signature, c: State, s: Side): nat
    requires Sized(c)
  {
    FrameRank(sig, Top(c, s)) + if c.sems[s] > 0 then MessageRank(sig, c.bufs[1 - s]) else 0
  }

  function Rank(sig: Signature, c: State): nat
    requires Sized(c)
  {
    SideRank(sig, c, 0) + SideRank(sig, c, 1)
  }

  lemma RunningRank(sig: Signature, c: State, a: Sync, ph: Phase, s: Side)
    requires Related(sig, c, a, ph) && !IsWaiting(Top(c, s))
    ensures Rank(sig, c) == FrameRank(sig, Top(c, s)) && c.sems[s] == 0 && c.sems[1 - s] == 0
    ensures IsWaiting(Top(c, 1 - s))
  {
  }

  lemma WaitingRank(sig: Signature, c: State, a: Sync, ph: Phase, s: Side)
    requires Related(sig, c, a, ph) && c.sems[s] > 0
    ensures Rank(sig, c) == MessageRank(sig, c.bufs[1 - s]) && IsWaiting(Top(c, 0)) && IsWaiting(Top(c, 1))
  {
  }

  /** What user code or the descriptor tables decide to do is not a step of the protocol. */
  predicate IsProtocol(act: Action) {
    !act.Call? && !act.ShareCall? && !act.Return?
  }

  lemma StoreRequestFalls(sig: Signature, b: Buffer, f: Frame)
    requires f.Client? && (f.cpc.Storing? || f.cpc.StoringTarget?)
    ensures var g := StoredRequest(b, f).1;
            !IsWaiting(f) && !IsWaiting(g) && FrameRank(sig, g) < FrameRank(sig, f)
  {
  }

  lemma StoreFalls(sig: Signature, c: State, s: Side)
    requires Sized(c) && StoreStep(sig, c, s).Step?
    ensures var d := StoreStep(sig, c, s).next;
            && Sized(d) && !IsWaiting(Top(c, s)) && !IsWaiting(Top(d, s))
            && FrameRank(sig, Top(d, s)) < FrameRank(sig, Top(c, s))
  {
    if Top(c, s).Client? {
      StoreStepStores(sig, c, s);
      StoreRequestFalls(sig, c.bufs[s], Top(c, s));
    }
  }

  lemma LoadFalls(sig: Signature, c: State, s: Side)
    requires Sized(c) && LoadStep(sig, c, s).Step? && LoadStep(sig, c, s).event == Silent
    ensures var d := LoadStep(sig, c, s).next;
            && Sized(d) && !IsWaiting(Top(c, s)) && !IsWaiting(Top(d, s))
            && FrameRank(sig, Top(d, s)) < FrameRank(sig, Top(c, s))
  {
  }

  lemma ShareFalls(sig: Signature, f: Frame, v: Value)
    requires IsSharing(f) && ShareNext(f) < ShareLimit(sig, f)
    ensures FrameRank(sig, Shared(sig, f, v)) < FrameRank(sig, f)
    ensures !IsWaiting(f) && !IsWaiting(Shared(sig, f, v))
  {
  }

  lemma RequestRank(sig: Signature, b: Buffer, p: Pending)
    requires HoldsRequest(b, p) && (p.target.Function? ==> p.target.code > 2)
    ensures MessageRank(sig, b) == 1 + sig.arity(p.target)
  {
  }

  lemma TriggerFalls(sig: Signature, c: State, a: Sync, ph: Phase, s: Side, d: State)
    requires Related(sig, c, a, ph) && Top(c, s).Client? && Top(c, s).cpc.Triggering?
    requires d == Replaced(SendTurn(c, s), s, Top(c, s).(cpc := Waiting))
    ensures Sized(d) && d.sems[1 - s] > 0 && MessageRank(sig, d.bufs[s]) < FrameRank(sig, Top(c, s))
  {
    WritingPhase(sig, c, a, ph, s);
    var f := Top(c, s);
    assert Typed(sig, c.procs[s].stack[|c.procs[s].stack| - 1]);
    RequestRank(sig, d.bufs[s], Pending(f.target, f.args));
  }

  lemma RespondFalls(sig: Signature, c: State, a: Sync, ph: Phase, s: Side, d: State)
    requires Related(sig, c, a, ph) && Top(c, s).Handler? && Top(c, s).hpc.Responding? && |c.procs[s].stack| > 1
    requires d == WithStack(SendTurn(c, s), s, Below(c, s))
    ensures Sized(d) && d.sems[1 - s] > 0 && MessageRank(sig, d.bufs[s]) < FrameRank(sig, Top(c, s))
  {
    ReplyingPhase(sig, c, a, ph, s);
  }

  lemma ReceiveFalls(sig: Signature, c: State, s: Side)
    requires Sized(c) && ReceiveStep(c, s).Step? && !ReceiveStep(c, s).next.fault
    ensures var d := ReceiveStep(c, s).next;
            && Sized(d) && c.sems[s] > 0 && !IsWaiting(Top(d, s))
            && FrameRank(sig, Top(d, s)) < MessageRank(sig, c.bufs[1 - s])
  {
  }

  lemma LocalStepFalls(sig: Signature, c: State, s: Side, act: Action)
    requires Sized(c) && Next(sig, c, s, act).Step? && Next(sig, c, s, act).event == Silent
    requires act.ShareKnown? || act.Store? || act.Load?
    ensures var d := Next(sig, c, s, act).next;
            && Sized(d) && !IsWaiting(Top(c, s)) && !IsWaiting(Top(d, s))
            && FrameRank(sig, Top(d, s)) < FrameRank(sig, Top(c, s))
  {
    match act
    case ShareKnown(v) => ShareFalls(sig, Top(c, s), v);
    case Store => StoreFalls(sig, c, s);
    case Load => LoadFalls(sig, c, s);
  }

  lemma SendingStepFalls(sig: Signature, c: State, a: Sync, ph: Phase, s: Side, act: Action)
    requires Related(sig, c, a, ph) && Next(sig, c, s, act).Step? && (act.Trigger? || act.Respond?)
    ensures var d := Next(sig, c, s, act).next;
            && Sized(d) && !IsWaiting(Top(c, s)) && d.sems[1 - s] > 0
            && MessageRank(sig, d.bufs[s]) < FrameRank(sig, Top(c, s))
  {
    var d := Next(sig, c, s, act).next;
    if act.Trigger? {
      TriggerFalls(sig, c, a, ph, s, d);
    } else {
      RespondFalls(sig, c, a, ph, s, d);
    }
  }

  /** Only these steps of the protocol are silent. */
  lemma SilentActions(sig: Signature, c: State, s: Side, act: Action)
    requires Sized(c) && Next(sig, c, s, act).Step? && IsProtocol(act) && Next(sig, c, s, act).event == Silent
    ensures act.ShareKnown? || act.Store? || act.Load? || act.Trigger? || act.Respond? || act.Receive?
  {
  }

  /** Every silent step of the protocol brings the next event closer. */
  lemma SilentStepFalls(sig: Signature, c: State, a: Sync, ph: Phase, s: Side, act: Action)
    requires Related(sig, c, a, ph) && Next(sig, c, s, act).Step? && IsProtocol(act)
    requires Next(sig, c, s, act).event == Silent
    ensures var d := Next(sig, c, s, act).next; Sized(d) && Rank(sig, d) < Rank(sig, c)
  {
    var d := Next(sig, c, s, act).next;
    var a', ph' := StepRefines(sig, c, a, ph, s, act);
    SilentActions(sig, c, s, act);
    if act.ShareKnown? || act.Store? || act.Load? {
      LocalStepFalls(sig, c, s, act);
      FallsAtSide(sig, c, a, ph, d, a', ph', s);
    } else if act.Trigger? || act.Respond? {
      SendingStepFalls(sig, c, a, ph, s, act);
      FallsIntoMessage(sig, c, a, ph, d, a', ph', s);
    } else {
      ReceiveFalls(sig, c, s);
      WaitingRank(sig, c, a, ph, s);
      RunningRank(sig, d, a', ph', s);
    }
  }

  lemma FallsAtSide(sig: Signature, c: State, a: Sync, ph: Phase, d: State, a': Sync, ph': Phase, s: Side)
    requires Related(sig, c, a, ph) && Related(sig, d, a', ph') && !IsWaiting(Top(c, s)) && !IsWaiting(Top(d, s))
    requires FrameRank(sig, Top(d, s)) < FrameRank(sig, Top(c, s))
    ensures Rank(sig, d) < Rank(sig, c)
  {
    RunningRank(sig, c, a, ph, s);
    RunningRank(sig, d, a', ph', s);
  }

  lemma FallsIntoMessage(sig: Signature, c: State, a: Sync, ph: Phase, d: State, a': Sync, ph': Phase, s: Side)
    requires Related(sig, c, a, ph) && Related(sig, d, a', ph') && !IsWaiting(Top(c, s)) && d.sems[1 - s] > 0
    requires MessageRank(sig, d.bufs[s]) < FrameRank(sig, Top(c, s))
    ensures Rank(sig, d) < Rank(sig, c)
  {
    RunningRank(sig, c, a, ph, s);
    WaitingRank(sig, d, a', ph', 1 - s);
  }

  /** All moves are steps of the protocol and nothing is observed. */
  ghost predicate IsSilent(sig: Signature, c: State, moves: seq<Move>)
    requires IsRun(sig, c, moves)
  {
    && (forall i :: 0 <= i < |moves| ==> IsProtocol(moves[i].action))
    && (forall i :: 0 <= i < |Events(sig, c, moves)| ==> Events(sig, c, moves)[i] == Silent)
  }

  lemma {:induction false} SilenceIsRanked(sig: Signature, c: State, a: Sync, ph: Phase, moves: seq<Move>)
    requires Related(sig, c, a, ph) && IsRun(sig, c, moves) && IsSilent(sig, c, moves)
    ensures |moves| <= Rank(sig, c)
    decreases |moves|
  {
    if moves != [] {
      var s, act := moves[0].side, moves[0].action;
      var o := Next(sig, c, s, act);
      var evs := Events(sig, c, moves);
      assert evs[0] == o.event && evs[1..] == Events(sig, o.next, moves[1..]);
      SilentStepFalls(sig, c, a, ph, s, act);
      var a', ph' := StepRefines(sig, c, a, ph, s, act);
      SilenceIsRanked(sig, o.next, a', ph', moves[1..]);
    }
  }

  /** `t` is the target of the running activation of side `s`, or of the request on its way to it. */
  predicate InProgressAt(c: State, s: Side, t: Target)
    requires Sized(c)
  {
    var f, b := Top(c, s), c.bufs[1 - s];
    || (!IsWaiting(f) && (f.Client? || f.Handler?) && f.target == t)
    || (c.sems[s] > 0 && b.code != 1 && t == if b.code == 2 then Callback(b.callback) else Function(b.code))
  }

  predicate InProgress(c: State, t: Target)
    requires Sized(c)
  {
    InProgressAt(c, 0, t) || InProgressAt(c, 1, t)
  }

  /** There is no more than one such target. */
  lemma OneInProgress(sig: Signature, c: State, a: Sync, ph: Phase, t: Target, t': Target)
    requires Related(sig, c, a, ph) && InProgress(c, t) && InProgress(c, t')
    ensures t == t'
  {
    if !IsWaiting(Top(c, 0)) {
      RunningRank(sig, c, a, ph, 0);
    } else if !IsWaiting(Top(c, 1)) {
      RunningRank(sig, c, a, ph, 1);
    } else {
      WaitingRank(sig, c, a, ph, HolderOf(|a.calls|, ph).side);
    }
  }

  /** Steps that a call of `t` can silently take. */
  function Bound(sig: Signature, t: Target): nat {
    2 * sig.arity(t) + |sig.fds(t)| + 4
  }

  lemma FrameRankBound(sig: Signature, c: State, s: Side) returns (t: Target)
    requires Sized(c) && Typed(sig, Top(c, s)) && !IsWaiting(Top(c, s))
    ensures FrameRank(sig, Top(c, s)) == 0 || (InProgress(c, t) && FrameRank(sig, Top(c, s)) <= Bound(sig, t))
  {
    var f := Top(c, s);
    t := if f.Client? || f.Handler? then f.target else Function(3);
    assert s == 0 || s == 1;
  }

  lemma MessageRankBound(sig: Signature, c: State, s: Side) returns (t: Target)
    requires Sized(c) && c.sems[s] > 0
    ensures var rank := MessageRank(sig, c.bufs[1 - s]);
            rank <= 1 || (InProgress(c, t) && rank <= Bound(sig, t))
  {
    var b := c.bufs[1 - s];
    t := if b.code == 2 then Callback(b.callback) else Function(b.code);
    assert s == 0 || s == 1;
  }

  lemma RankBound(sig: Signature, c: State, a: Sync, ph: Phase) returns (t: Target)
    requires Related(sig, c, a, ph)
    ensures Rank(sig, c) <= 1 || (InProgress(c, t) && Rank(sig, c) <= Bound(sig, t))
  {
    if !IsWaiting(Top(c, 0)) {
      RunningRank(sig, c, a, ph, 0);
      t := FrameRankBound(sig, c, 0);
    } else if !IsWaiting(Top(c, 1)) {
      RunningRank(sig, c, a, ph, 1);
      t := FrameRankBound(sig, c, 1);
    } else {
      var s := HolderOf(|a.calls|, ph).side;
      WaitingRank(sig, c, a, ph, s);
      t := MessageRankBound(sig, c, s);
    }
  }

  /** After any run, before the program or the library observes something, the protocol alone makes at
      most one step, or at most twice the number of parameters, the number of descriptors and four more
      steps of the one target that is being called. */
  lemma SilenceIsBounded(sig: Signature, errno: int, moves: seq<Move>, silent: seq<Move>) returns (t: Target)
    requires IsRun(sig, Initial(errno), moves)
    requires IsRun(sig, Final(sig, Initial(errno), moves), silent)
    requires IsSilent(sig, Final(sig, Initial(errno), moves), silent)
    ensures var c := Final(sig, Initial(errno), moves);
            || |silent| <= 1
            || (&& Sized(c) && InProgress(c, t) && (forall t' :: InProgress(c, t') ==> t' == t)
                && |silent| <= 2 * sig.arity(t) + |sig.fds(t)| + 4)
  {
    InitialRelated(sig, errno);
    var a, ph := RunRefines(sig, Initial(errno), Sync([], Working, errno), AtWork, moves);
    var c := Final(sig, Initial(errno), moves);
    SilenceIsRanked(sig, c, a, ph, silent);
    t := RankBound(sig, c, a, ph);
    forall t' | InProgress(c, t) && InProgress(c, t')
      ensures t' == t
    {
      OneInProgress(sig, c, a, ph, t, t');
    }
  }
}
