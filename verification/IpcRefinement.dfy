/** Every run of the two-process protocol is a run of one synchronous call stack: calls nest, a
    callee sees the arguments its caller passed, a caller sees the result its callee returned. */
module IpcRefinement {
  import opened Options
  import opened IpcMachine

  // ---- the specification: one call stack ---------------------------------------------------------

  datatype Pending = Pending(target: Target, args: seq<Value>)

  datatype Mode = Working | Entering | Returning(result: Option<Value>)

  /** The calls in progress, outermost first, what the innermost one is doing, and one errno. */
  datatype Sync = Sync(calls: seq<Pending>, mode: Mode, errno: int)

  /** Calls alternate between the sides, so the depth tells whose turn it is. */
  function Turn(depth: nat): Side { depth % 2 }

  /** Only descriptors are replaced on the way. */
  predicate Agree(sig: Signature, t: Target, passed: seq<Value>, args: seq<Value>) {
    |passed| == |args| && forall k :: 0 <= k < |args| && k !in sig.fds(t) ==> args[k] == passed[k]
  }

  ghost predicate SyncStep(sig: Signature, a: Sync, ev: Event, a': Sync) {
    var n := |a.calls|;
    match ev
    case Silent => a' == a
    case ErrnoSet(s, x) => a.mode == Working && s == Turn(n) && a' == a.(errno := x)
    case Called(s, t, passed, args) =>
      && a.mode == Working && s == Turn(n) && Agree(sig, t, passed, args)
      && a' == Sync(a.calls + [Pending(t, args)], Entering, a.errno)
    case Entered(s, t, params) =>
      a.mode == Entering && n > 0 && s == Turn(n) && a.calls[n - 1] == Pending(t, params) && a' == a.(mode := Working)
    case Exited(s, w, v) =>
      && a.mode == Working && n > 0 && s == Turn(n)
      && (v.Some? <==> sig.hasResult(a.calls[n - 1].target)) && a' == a.(mode := Returning(v))
      && (v.Some? && !sig.fdResult(a.calls[n - 1].target) ==> v.value == w)
    case Returned(s, v) =>
      a.mode == Returning(v) && n > 0 && s == Turn(n - 1) && a' == Sync(a.calls[..n - 1], Working, a.errno)
  }

  // ---- stacks ------------------------------------------------------------------------------------

  /** Which activation may stand on top of which. */
  predicate Supports(f: Frame, g: Frame) {
    match f
    case Program => g.Client?
    case EventLoop => g.Handler?
    case Client(_, _, pc, _) => if pc.Waiting? then g.Handler? else pc.Sharing? && g.Client?
    case Handler(_, _, _, pc, _) => (pc.Running? || pc.SharingResult?) && g.Client?
  }

  predicate Typed(sig: Signature, f: Frame) {
    match f
    case Client(t, args, _, passed) =>
      |args| == sig.arity(t) && (t.Function? ==> t.code > 2) && Agree(sig, t, passed, args)
    case Handler(t, params, v, pc, w) =>
      |params| <= sig.arity(t) && (pc.Loading? || pc.Running? || sig.fdResult(t) || v == w)
    case _ => true
  }

  predicate StandsOn(stack: seq<Frame>, i: nat)
    requires i + 1 < |stack|
  {
    Supports(stack[i], stack[i + 1])
  }

  ghost predicate WellStacked(sig: Signature, stack: seq<Frame>, bottom: Frame) {
    && |stack| > 0 && stack[0] == bottom
    && (forall i {:trigger StandsOn(stack, i)} :: 0 <= i < |stack| - 1 ==> StandsOn(stack, i))
    && (forall i :: 0 <= i < |stack| ==> Typed(sig, stack[i]))
  }

  /** The request has been handed to the emitted store sequence: its arguments are final. */
  predicate Committed(f: Frame) {
    f.Client? && !f.cpc.Sharing?
  }

  /** The handler has all its parameters. */
  predicate HasParams(f: Frame) {
    f.Handler? && !f.hpc.Loading?
  }

  ghost function Issued(stack: seq<Frame>): seq<Pending> {
    if stack == [] then []
    else
      var f := stack[|stack| - 1];
      Issued(stack[..|stack| - 1]) + if Committed(f) then [Pending(f.target, f.args)] else []
  }

  ghost function Handled(stack: seq<Frame>): seq<Pending> {
    if stack == [] then []
    else
      var f := stack[|stack| - 1];
      Handled(stack[..|stack| - 1]) + if HasParams(f) then [Pending(f.target, f.params)] else []
  }

  /** The calls that side `s` has made. */
  ghost function Mine(calls: seq<Pending>, s: Side): seq<Pending> {
    if calls == [] then []
    else
      Mine(calls[..|calls| - 1], s) + if Turn(|calls| - 1) == s then [calls[|calls| - 1]] else []
  }

  lemma PushedStack(stack: seq<Frame>, f: Frame)
    ensures Issued(stack + [f]) == Issued(stack) + if Committed(f) then [Pending(f.target, f.args)] else []
    ensures Handled(stack + [f]) == Handled(stack) + if HasParams(f) then [Pending(f.target, f.params)] else []
  {
  }

  lemma MineAppend(calls: seq<Pending>, p: Pending, s: Side)
    ensures Mine(calls + [p], s) == Mine(calls, s) + if Turn(|calls|) == s then [p] else []
  {
  }

  // ---- the simulation relation -------------------------------------------------------------------

  datatype Phase = AtWork | Writing | CallSent | Reading | Replying | ReplySent | ReplyHere

  datatype Holder = Runs(side: Side) | InFlight(side: Side)

  function HolderOf(n: nat, ph: Phase): Holder {
    var caller: Side := if n == 0 then 1 else Turn(n - 1);
    match ph
    case AtWork => Runs(Turn(n))
    case Writing => Runs(caller)
    case CallSent => InFlight(Turn(n))
    case Reading => Runs(Turn(n))
    case Replying => Runs(Turn(n))
    case ReplySent => InFlight(caller)
    case ReplyHere => Runs(caller)
  }

  /** One side's part of the single token: it runs, or it waits with sending blocked, and its
      semaphore counts the message in flight to it. */
  predicate TokenPart(p: Process, sem: nat, h: Holder, s: Side)
    requires |p.stack| > 0
  {
    && (IsWaiting(p.stack[|p.stack| - 1]) <==> h != Runs(s))
    && p.blocked == IsWaiting(p.stack[|p.stack| - 1])
    && sem == if h == InFlight(s) then 1 else 0
  }

  /** How many of the calls have been entered. */
  function EnteredCalls(n: nat, ph: Phase): nat {
    if ph == AtWork || ph == Replying || n == 0 then n else n - 1
  }

  /** The requests and handlers on one side's stack are its share of the calls in progress. */
  ghost predicate Tracks(stack: seq<Frame>, a: Sync, ph: Phase, s: Side) {
    && Issued(stack) == Mine(a.calls, s)
    && Handled(stack) == Mine(a.calls[..EnteredCalls(|a.calls|, ph)], 1 - s)
  }

  /** The buffer holds the request `p`. */
  predicate HoldsRequest(b: Buffer, p: Pending) {
    && b.code == CodeOf(p.target) && (p.target.Callback? ==> b.callback == p.target.index)
    && HoldsData(b, p.args, |p.args|)
  }

  predicate HoldsData(b: Buffer, args: seq<Value>, n: nat) {
    n <= |args| && forall j :: 0 <= j < n ==> Slot(b, j) == args[j]
  }

  predicate HoldsResult(sig: Signature, b: Buffer, t: Target, v: Option<Value>) {
    v == ResultOf(sig, t, Slot(b, 0))
  }

  /** What the running activation and the buffers look like in each phase. */
  ghost predicate Detail(sig: Signature, c: State, a: Sync, ph: Phase)
    requires Sized(c)
  {
    var n := |a.calls|;
    if n == 0 then
      ph == AtWork && a.mode == Working && c.procs[0].errno == a.errno && AtWorkFrame(Top(c, 0))
    else
      var callee, caller := Turn(n), Turn(n - 1);
      var p := a.calls[n - 1];
      match ph
      case AtWork => a.mode == Working && c.procs[callee].errno == a.errno && AtWorkFrame(Top(c, callee))
      case Writing =>
        && a.mode == Entering && c.procs[caller].errno == a.errno
        && WritingFrame(c.bufs[caller], Top(c, caller))
      case CallSent => a.mode == Entering && c.bufs[caller].errno == a.errno && HoldsRequest(c.bufs[caller], p)
      case Reading =>
        && a.mode == Entering && c.procs[callee].errno == a.errno && HoldsRequest(c.bufs[caller], p)
        && ReadingFrame(Top(c, callee), p)
      case Replying =>
        && a.mode.Returning? && c.procs[callee].errno == a.errno
        && ReplyingFrame(sig, c.bufs[callee], Top(c, callee), p, a.mode.result)
      case ReplySent =>
        && a.mode.Returning? && c.bufs[callee].errno == a.errno && c.bufs[callee].code == 1
        && HoldsResult(sig, c.bufs[callee], p.target, a.mode.result)
      case ReplyHere =>
        && a.mode.Returning? && c.procs[caller].errno == a.errno
        && HoldsResult(sig, c.bufs[callee], p.target, a.mode.result)
        && Top(c, caller).Client? && Top(c, caller).cpc.Collecting?
  }

  predicate AtWorkFrame(f: Frame) {
    InUserCode(f) || IsSharing(f)
  }

  predicate WritingFrame(b: Buffer, f: Frame) {
    && f.Client?
    && match f.cpc
       case Storing(i) => HoldsData(b, f.args, i)
       case StoringTarget => HoldsData(b, f.args, |f.args|)
       case Triggering => HoldsRequest(b, Pending(f.target, f.args))
       case _ => false
  }

  predicate ReadingFrame(f: Frame, p: Pending) {
    f.Handler? && f.hpc.Loading? && f.target == p.target && f.params <= p.args
  }

  predicate ReplyingFrame(sig: Signature, b: Buffer, f: Frame, p: Pending, v: Option<Value>) {
    && f.Handler? && f.target == p.target && v == ResultOf(sig, f.target, f.result)
    && match f.hpc
       case StoringResult => true
       case StoringCode => HoldsResult(sig, b, f.target, v)
       case Responding => HoldsResult(sig, b, f.target, v) && b.code == 1
       case _ => false
  }

  function Bottom(s: Side): Frame { if s == 0 then Program else EventLoop }

  ghost predicate SideOk(sig: Signature, p: Process, sem: nat, a: Sync, ph: Phase, s: Side) {
    && WellStacked(sig, p.stack, Bottom(s))
    && TokenPart(p, sem, HolderOf(|a.calls|, ph), s) && Tracks(p.stack, a, ph, s)
  }

  ghost predicate Related(sig: Signature, c: State, a: Sync, ph: Phase) {
    && Sized(c) && !c.fault
    && SideOk(sig, c.procs[0], c.sems[0], a, ph, 0) && SideOk(sig, c.procs[1], c.sems[1], a, ph, 1)
    && Detail(sig, c, a, ph)
  }

  lemma InitialRelated(sig: Signature, errno: int)
    ensures Related(sig, Initial(errno), Sync([], Working, errno), AtWork)
  {
  }

  // ---- stack changes -----------------------------------------------------------------------------

  lemma ReplaceKeeps(sig: Signature, stack: seq<Frame>, f: Frame, bottom: Frame)
    requires WellStacked(sig, stack, bottom) && Typed(sig, f) && |stack| > 1
    requires var g := stack[|stack| - 1]; (g.Client? && f.Client?) || (g.Handler? && f.Handler?)
    ensures WellStacked(sig, stack[..|stack| - 1] + [f], bottom)
  {
    var next := stack[..|stack| - 1] + [f];
    forall i | 0 <= i < |next| - 1
      ensures StandsOn(next, i)
    {
      assert StandsOn(stack, i);
    }
  }

  lemma PushKeeps(sig: Signature, stack: seq<Frame>, f: Frame, bottom: Frame)
    requires WellStacked(sig, stack, bottom) && Typed(sig, f) && Supports(stack[|stack| - 1], f)
    ensures WellStacked(sig, stack + [f], bottom)
  {
    forall i | 0 <= i < |stack + [f]| - 1
      ensures StandsOn(stack + [f], i)
    {
      assert i < |stack| - 1 ==> StandsOn(stack, i);
    }
  }

  lemma PopKeeps(sig: Signature, stack: seq<Frame>, bottom: Frame)
    requires WellStacked(sig, stack, bottom) && |stack| > 1
    ensures WellStacked(sig, stack[..|stack| - 1], bottom)
    ensures Supports(stack[|stack| - 2], stack[|stack| - 1])
  {
    var rest := stack[..|stack| - 1];
    forall i | 0 <= i < |rest| - 1
      ensures StandsOn(rest, i)
    {
      assert StandsOn(stack, i);
    }
    assert StandsOn(stack, |stack| - 2);
  }

  /** Client and handler activations never stand at the bottom. */
  lemma NotBottom(sig: Signature, stack: seq<Frame>, s: Side)
    requires WellStacked(sig, stack, Bottom(s)) && (stack[|stack| - 1].Client? || stack[|stack| - 1].Handler?)
    ensures |stack| > 1
  {
  }

  lemma SplitTop(c: State, s: Side)
    requires Sized(c)
    ensures c.procs[s].stack == Below(c, s) + [Top(c, s)]
    ensures var f := Top(c, s);
      && Issued(c.procs[s].stack) == Issued(Below(c, s)) + (if Committed(f) then [Pending(f.target, f.args)] else [])
      && Handled(c.procs[s].stack) ==
         Handled(Below(c, s)) + (if HasParams(f) then [Pending(f.target, f.params)] else [])
  {
  }

  lemma LastOfMine(calls: seq<Pending>, s: Side)
    requires calls != [] && s == Turn(|calls| - 1)
    ensures Mine(calls, s) == Mine(calls[..|calls| - 1], s) + [calls[|calls| - 1]]
    ensures Mine(calls, 1 - s) == Mine(calls[..|calls| - 1], 1 - s)
  {
  }

  // ---- who can act -------------------------------------------------------------------------------

  lemma SameLast<T>(x: seq<T>, p: T, y: seq<T>, q: T)
    requires x + [p] == y + [q]
    ensures x == y && p == q
  {
    assert (x + [p])[|x|] == p && (y + [q])[|y|] == q;
    assert (x + [p])[..|x|] == x && (y + [q])[..|y|] == y;
  }

  /** The committed request on top of the caller's stack is the innermost call. */
  lemma TopIsLastCall(c: State, a: Sync, ph: Phase)
    requires Sized(c) && a.calls != [] && Committed(Top(c, Turn(|a.calls| - 1)))
    requires Tracks(c.procs[Turn(|a.calls| - 1)].stack, a, ph, Turn(|a.calls| - 1))
    ensures var f := Top(c, Turn(|a.calls| - 1)); Pending(f.target, f.args) == a.calls[|a.calls| - 1]
    ensures Issued(Below(c, Turn(|a.calls| - 1))) == Mine(a.calls[..|a.calls| - 1], Turn(|a.calls| - 1))
  {
    var s := Turn(|a.calls| - 1);
    LastOfMine(a.calls, s);
    SplitTop(c, s);
    SameLast(Issued(Below(c, s)), Pending(Top(c, s).target, Top(c, s).args),
             Mine(a.calls[..|a.calls| - 1], s), a.calls[|a.calls| - 1]);
  }

  /** The caller of the innermost call waits in the replacement function that issued it. */
  lemma CallerWaits(sig: Signature, c: State, a: Sync, ph: Phase)
    requires Sized(c) && a.calls != [] && IsWaiting(Top(c, Turn(|a.calls| - 1)))
    requires var s := Turn(|a.calls| - 1); SideOk(sig, c.procs[s], c.sems[s], a, ph, s)
    ensures var f := Top(c, Turn(|a.calls| - 1));
      f.Client? && f.cpc.Waiting? && Pending(f.target, f.args) == a.calls[|a.calls| - 1]
    ensures var p := a.calls[|a.calls| - 1];
      |p.args| == sig.arity(p.target) && (p.target.Function? ==> p.target.code > 2)
  {
    var s := Turn(|a.calls| - 1);
    var stack := c.procs[s].stack;
    LastOfMine(a.calls, s);
    SplitTop(c, s);
    if |stack| > 1 {
      assert StandsOn(stack, |stack| - 2);
    }
    TopIsLastCall(c, a, ph);
    assert Typed(sig, stack[|stack| - 1]);
  }

  /** The handler on top of the callee's stack that has its parameters handles the innermost call. */
  lemma TopHandlesLastCall(c: State, a: Sync, ph: Phase)
    requires Sized(c) && (ph == AtWork || ph == Replying) && HasParams(Top(c, Turn(|a.calls|)))
    requires Tracks(c.procs[Turn(|a.calls|)].stack, a, ph, Turn(|a.calls|))
    ensures a.calls != []
    ensures var f := Top(c, Turn(|a.calls|)); Pending(f.target, f.params) == a.calls[|a.calls| - 1]
    ensures Handled(Below(c, Turn(|a.calls|))) == Mine(a.calls[..|a.calls| - 1], 1 - Turn(|a.calls|))
  {
    var s := Turn(|a.calls|);
    SplitTop(c, s);
    assert a.calls[..|a.calls|] == a.calls;
    LastOfMine(a.calls, 1 - s);
    SameLast(Handled(Below(c, s)), Pending(Top(c, s).target, Top(c, s).params),
             Mine(a.calls[..|a.calls| - 1], 1 - s), a.calls[|a.calls| - 1]);
  }

  // ---- one side's part under a change of its stack -----------------------------------------------

  lemma SidePush(sig: Signature, p: Process, sem: nat, a: Sync, ph: Phase, s: Side, f: Frame, q: Process)
    requires SideOk(sig, p, sem, a, ph, s) && Typed(sig, f) && Supports(p.stack[|p.stack| - 1], f)
    requires !Committed(f) && !HasParams(f)
    requires q.stack == p.stack + [f]
    ensures WellStacked(sig, q.stack, Bottom(s)) && q.stack[|q.stack| - 1] == f && Tracks(q.stack, a, ph, s)
  {
    PushKeeps(sig, p.stack, f, Bottom(s));
    PushedStack(p.stack, f);
  }

  lemma SideReplace(sig: Signature, p: Process, sem: nat, a: Sync, ph: Phase, s: Side, f: Frame, q: Process)
    requires SideOk(sig, p, sem, a, ph, s) && Typed(sig, f)
    requires var g := p.stack[|p.stack| - 1]; (g.Client? && f.Client?) || (g.Handler? && f.Handler?)
    requires q.stack == p.stack[..|p.stack| - 1] + [f]
    ensures WellStacked(sig, q.stack, Bottom(s)) && q.stack[|q.stack| - 1] == f
    ensures var g := p.stack[|p.stack| - 1];
      && (Committed(f) == Committed(g) && (Committed(g) ==> f.target == g.target && f.args == g.args)
          ==> Issued(q.stack) == Issued(p.stack))
      && (HasParams(f) == HasParams(g) && (HasParams(g) ==> f.target == g.target && f.params == g.params)
          ==> Handled(q.stack) == Handled(p.stack))
      && (!Committed(g) && Committed(f) ==> Issued(q.stack) == Issued(p.stack) + [Pending(f.target, f.args)])
      && (!HasParams(g) && HasParams(f) ==> Handled(q.stack) == Handled(p.stack) + [Pending(f.target, f.params)])
  {
    NotBottom(sig, p.stack, s);
    ReplaceKeeps(sig, p.stack, f, Bottom(s));
    assert p.stack == p.stack[..|p.stack| - 1] + [p.stack[|p.stack| - 1]];
    PushedStack(p.stack[..|p.stack| - 1], p.stack[|p.stack| - 1]);
    PushedStack(p.stack[..|p.stack| - 1], f);
  }

  /** A waiting side keeps its part when the phase changes and nobody enters or leaves a call. */
  lemma SideChanges(sig: Signature, p: Process, sem: nat, a: Sync, ph: Phase, s: Side, sem': nat, ph': Phase)
    requires SideOk(sig, p, sem, a, ph, s) && IsWaiting(p.stack[|p.stack| - 1])
    requires HolderOf(|a.calls|, ph') != Runs(s) && EnteredCalls(|a.calls|, ph) == EnteredCalls(|a.calls|, ph')
    requires sem' == if HolderOf(|a.calls|, ph') == InFlight(s) then 1 else 0
    ensures SideOk(sig, p, sem', a, ph', s)
  {
  }

  // ---- steps of the side that is at work ---------------------------------------------------------

  lemma AtWorkPhase(sig: Signature, c: State, a: Sync, ph: Phase, s: Side)
    requires Related(sig, c, a, ph) && AtWorkFrame(Top(c, s))
    ensures ph == AtWork && s == Turn(|a.calls|) && a.mode == Working
    ensures SideOk(sig, c.procs[s], c.sems[s], a, ph, s) && SideOk(sig, c.procs[1 - s], c.sems[1 - s], a, ph, 1 - s)
    ensures c.procs[s].errno == a.errno
  {
    if a.calls != [] {
      TurnFlips(|a.calls| - 1);
    }
  }

  /** Putting the relation together from the two sides. */
  lemma Assemble(sig: Signature, d: State, a: Sync, ph: Phase, s: Side)
    requires Sized(d) && !d.fault && Detail(sig, d, a, ph)
    requires SideOk(sig, d.procs[s], d.sems[s], a, ph, s) && SideOk(sig, d.procs[1 - s], d.sems[1 - s], a, ph, 1 - s)
    ensures Related(sig, d, a, ph)
  {
  }

  lemma StepErrno(sig: Signature, c: State, a: Sync, ph: Phase, s: Side, x: int)
    requires Related(sig, c, a, ph) && InUserCode(Top(c, s))
    ensures SyncStep(sig, a, ErrnoSet(s, x), a.(errno := x))
    ensures Related(sig, c.(procs := c.procs[s := c.procs[s].(errno := x)]), a.(errno := x), AtWork)
  {
    AtWorkPhase(sig, c, a, ph, s);
    Assemble(sig, c.(procs := c.procs[s := c.procs[s].(errno := x)]), a.(errno := x), AtWork, s);
  }

  lemma StepPush(sig: Signature, c: State, a: Sync, ph: Phase, s: Side, f: Frame)
    requires Related(sig, c, a, ph) && AtWorkFrame(Top(c, s)) && f.Client? && f.cpc == Sharing(0) && Typed(sig, f)
    ensures Related(sig, Pushed(c, s, f), a, AtWork)
  {
    AtWorkPhase(sig, c, a, ph, s);
    var d := Pushed(c, s, f);
    SidePush(sig, c.procs[s], c.sems[s], a, ph, s, f, d.procs[s]);
    Assemble(sig, d, a, AtWork, s);
  }

  lemma StepReplace(sig: Signature, c: State, a: Sync, ph: Phase, s: Side, f: Frame)
    requires Related(sig, c, a, ph) && AtWorkFrame(Top(c, s)) && AtWorkFrame(f) && Typed(sig, f)
    requires var g := Top(c, s);
      (g.Client? && f.Client?) || (g.Handler? && f.Handler? && f.target == g.target && f.params == g.params)
    ensures Related(sig, Replaced(c, s, f), a, AtWork)
  {
    AtWorkPhase(sig, c, a, ph, s);
    var d := Replaced(c, s, f);
    SideReplace(sig, c.procs[s], c.sems[s], a, ph, s, f, d.procs[s]);
    Assemble(sig, d, a, AtWork, s);
  }

  // ---- a request on its way ----------------------------------------------------------------------

  lemma TurnFlips(n: nat)
    ensures Turn(n + 1) == 1 - Turn(n)
  {
  }

  /** A call made by the side at work joins that side's share of the calls and no other. */
  lemma CalledTracks(stack: seq<Frame>, stack': seq<Frame>, a: Sync, a': Sync, p: Pending, s: Side)
    requires Tracks(stack, a, AtWork, s) && a'.calls == a.calls + [p]
    requires Issued(stack') == Issued(stack) + if s == Turn(|a.calls|) then [p] else []
    requires Handled(stack') == Handled(stack)
    ensures Tracks(stack', a', Writing, s)
  {
    MineAppend(a.calls, p, s);
    assert a'.calls[..|a.calls|] == a.calls && a.calls[..|a.calls|] == a.calls;
  }

  lemma CalledMine(sig: Signature, p: Process, sem: nat, a: Sync, a': Sync, s: Side, q: Process)
    requires SideOk(sig, p, sem, a, AtWork, s) && s == Turn(|a.calls|)
    requires p.stack[|p.stack| - 1].Client? && p.stack[|p.stack| - 1].cpc.Sharing?
    requires var g := p.stack[|p.stack| - 1];
      && a'.calls == a.calls + [Pending(g.target, g.args)]
      && q == p.(stack := p.stack[..|p.stack| - 1] + [g.(cpc := Storing(0))])
    ensures SideOk(sig, q, sem, a', Writing, s)
  {
    var g := p.stack[|p.stack| - 1];
    assert Typed(sig, g);
    SideReplace(sig, p, sem, a, AtWork, s, g.(cpc := Storing(0)), q);
    CalledTracks(p.stack, q.stack, a, a', Pending(g.target, g.args), s);
  }

  lemma CalledOther(sig: Signature, p: Process, sem: nat, a: Sync, a': Sync, call: Pending, s: Side)
    requires SideOk(sig, p, sem, a, AtWork, s) && s != Turn(|a.calls|) && a'.calls == a.calls + [call]
    ensures SideOk(sig, p, sem, a', Writing, s)
  {
    CalledTracks(p.stack, p.stack, a, a', call, s);
  }

  lemma MakeCall(sig: Signature, c: State, a: Sync, a': Sync, s: Side)
    requires Sized(c) && !c.fault && s == Turn(|a.calls|) && Top(c, s).Client? && Top(c, s).cpc.Sharing?
    requires SideOk(sig, c.procs[s], c.sems[s], a, AtWork, s)
    requires SideOk(sig, c.procs[1 - s], c.sems[1 - s], a, AtWork, 1 - s)
    requires c.procs[s].errno == a.errno
    requires a' == Sync(a.calls + [Pending(Top(c, s).target, Top(c, s).args)], Entering, a.errno)
    ensures Related(sig, Replaced(c, s, Top(c, s).(cpc := Storing(0))), a', Writing)
  {
    var g := Top(c, s);
    var d := Replaced(c, s, g.(cpc := Storing(0)));
    CalledMine(sig, c.procs[s], c.sems[s], a, a', s, d.procs[s]);
    CalledOther(sig, c.procs[1 - s], c.sems[1 - s], a, a', Pending(g.target, g.args), 1 - s);
    Assemble(sig, d, a', Writing, s);
  }

  /** The arguments are final: the call has been made. */
  lemma StepCalled(sig: Signature, c: State, a: Sync, ph: Phase, s: Side)
    requires Related(sig, c, a, ph) && Top(c, s).Client? && Top(c, s).cpc.Sharing?
    ensures var f := Top(c, s);
            var a' := Sync(a.calls + [Pending(f.target, f.args)], Entering, a.errno);
      && SyncStep(sig, a, Called(s, f.target, f.passed, f.args), a')
      && Related(sig, Replaced(c, s, f.(cpc := Storing(0))), a', Writing)
  {
    AtWorkPhase(sig, c, a, ph, s);
    MakeCall(sig, c, a, Sync(a.calls + [Pending(Top(c, s).target, Top(c, s).args)], Entering, a.errno), s);
  }

  lemma WritingPhase(sig: Signature, c: State, a: Sync, ph: Phase, s: Side)
    requires Related(sig, c, a, ph) && Committed(Top(c, s)) && !Top(c, s).cpc.Waiting? && !Top(c, s).cpc.Collecting?
    ensures ph == Writing && a.calls != [] && s == Turn(|a.calls| - 1) && 1 - s == Turn(|a.calls|) && a.mode == Entering
    ensures SideOk(sig, c.procs[s], c.sems[s], a, ph, s) && SideOk(sig, c.procs[1 - s], c.sems[1 - s], a, ph, 1 - s)
    ensures c.procs[s].errno == a.errno && WritingFrame(c.bufs[s], Top(c, s))
  {
    if a.calls != [] {
      TurnFlips(|a.calls| - 1);
    }
  }

  lemma WritingMine(sig: Signature, p: Process, sem: nat, a: Sync, s: Side, f: Frame, q: Process)
    requires SideOk(sig, p, sem, a, Writing, s) && a.calls != [] && s == Turn(|a.calls| - 1)
    requires Committed(f) && !IsWaiting(f) && Committed(p.stack[|p.stack| - 1])
    requires f == p.stack[|p.stack| - 1].(cpc := f.cpc)
    requires q == p.(stack := p.stack[..|p.stack| - 1] + [f])
    ensures SideOk(sig, q, sem, a, Writing, s)
  {
    assert Typed(sig, p.stack[|p.stack| - 1]);
    SideReplace(sig, p, sem, a, Writing, s, f, q);
  }

  /** One store of the request: a parameter slot, or the callback number and the code. */
  lemma StepStoreRequest(sig: Signature, c: State, a: Sync, ph: Phase, s: Side, f: Frame, b: Buffer)
    requires Related(sig, c, a, ph) && Committed(Top(c, s)) && !Top(c, s).cpc.Waiting? && !Top(c, s).cpc.Collecting?
    requires Committed(f) && f == Top(c, s).(cpc := f.cpc) && WritingFrame(b, f)
    ensures Related(sig, Replaced(c.(bufs := c.bufs[s := b]), s, f), a, Writing)
  {
    WritingPhase(sig, c, a, ph, s);
    var d := Replaced(c.(bufs := c.bufs[s := b]), s, f);
    WritingMine(sig, c.procs[s], c.sems[s], a, s, f, d.procs[s]);
    Assemble(sig, d, a, Writing, s);
  }

  lemma SentMine(sig: Signature, p: Process, sem: nat, a: Sync, s: Side, q: Process)
    requires SideOk(sig, p, sem, a, Writing, s) && a.calls != [] && s == Turn(|a.calls| - 1) && 1 - s == Turn(|a.calls|)
    requires Committed(p.stack[|p.stack| - 1])
    requires var g := p.stack[|p.stack| - 1];
      q.stack == p.stack[..|p.stack| - 1] + [g.(cpc := Waiting)] && q.blocked
    ensures SideOk(sig, q, sem, a, CallSent, s)
  {
    var g := p.stack[|p.stack| - 1];
    assert Typed(sig, g);
    SideReplace(sig, p, sem, a, Writing, s, g.(cpc := Waiting), q);
  }

  lemma SendCall(sig: Signature, c: State, a: Sync, s: Side)
    requires Sized(c) && !c.fault && a.calls != [] && a.mode == Entering && s == Turn(|a.calls| - 1)
    requires 1 - s == Turn(|a.calls|)
    requires SideOk(sig, c.procs[s], c.sems[s], a, Writing, s)
    requires SideOk(sig, c.procs[1 - s], c.sems[1 - s], a, Writing, 1 - s)
    requires c.procs[s].errno == a.errno && Top(c, s).Client? && Top(c, s).cpc.Triggering?
    requires HoldsRequest(c.bufs[s], Pending(Top(c, s).target, Top(c, s).args))
    ensures Related(sig, Replaced(SendTurn(c, s), s, Top(c, s).(cpc := Waiting)), a, CallSent)
  {
    var d := Replaced(SendTurn(c, s), s, Top(c, s).(cpc := Waiting));
    TopIsLastCall(c, a, Writing);
    SentMine(sig, c.procs[s], c.sems[s], a, s, d.procs[s]);
    SideChanges(sig, c.procs[1 - s], c.sems[1 - s], a, Writing, 1 - s, d.sems[1 - s], CallSent);
    Assemble(sig, d, a, CallSent, s);
  }

  lemma StepTrigger(sig: Signature, c: State, a: Sync, ph: Phase, s: Side)
    requires Related(sig, c, a, ph) && Top(c, s).Client? && Top(c, s).cpc.Triggering?
    ensures Related(sig, Replaced(SendTurn(c, s), s, Top(c, s).(cpc := Waiting)), a, CallSent)
  {
    WritingPhase(sig, c, a, ph, s);
    SendCall(sig, c, a, s);
  }

  // ---- receiving ---------------------------------------------------------------------------------

  lemma InFlightPhase(sig: Signature, c: State, a: Sync, ph: Phase, s: Side)
    requires Related(sig, c, a, ph) && c.sems[s] > 0
    ensures a.calls != [] && c.sems[s] == 1 && c.procs[s].blocked && c.bufs[1 - s].errno == a.errno
    ensures SideOk(sig, c.procs[s], c.sems[s], a, ph, s) && SideOk(sig, c.procs[1 - s], c.sems[1 - s], a, ph, 1 - s)
    ensures IsWaiting(Top(c, s)) && IsWaiting(Top(c, 1 - s))
    ensures ph == CallSent || ph == ReplySent
    ensures ph == CallSent ==> s == Turn(|a.calls|) && 1 - s == Turn(|a.calls| - 1) && a.mode == Entering
    ensures ph == CallSent ==> HoldsRequest(c.bufs[1 - s], a.calls[|a.calls| - 1])
    ensures ph == ReplySent ==> s == Turn(|a.calls| - 1) && 1 - s == Turn(|a.calls|)
    ensures ph == ReplySent ==> a.mode.Returning? && c.bufs[1 - s].code == 1
    ensures ph == ReplySent ==> HoldsResult(sig, c.bufs[1 - s], a.calls[|a.calls| - 1].target, a.mode.result)
  {
    if a.calls != [] {
      TurnFlips(|a.calls| - 1);
    }
  }

  lemma ReadingMine(sig: Signature, p: Process, sem: nat, a: Sync, s: Side, t: Target, q: Process)
    requires SideOk(sig, p, sem, a, CallSent, s) && a.calls != [] && s == Turn(|a.calls|)
    requires q.stack == p.stack + [Handler(t, [], 0, Loading, 0)] && !q.blocked
    ensures SideOk(sig, q, 0, a, Reading, s)
  {
    SidePush(sig, p, sem, a, CallSent, s, Handler(t, [], 0, Loading, 0), q);
  }

  /** The receiver has taken the one message in flight. */
  function TurnTaken(c: State, s: Side): State
    requires Sized(c)
  {
    c.(sems := c.sems[s := 0], procs := c.procs[s := c.procs[s].(blocked := false, errno := c.bufs[1 - s].errno)])
  }

  lemma ReceivedCall(c: State, s: Side, p: Pending)
    requires Sized(c) && IsWaiting(Top(c, s)) && c.sems[s] == 1 && c.procs[s].blocked
    requires HoldsRequest(c.bufs[1 - s], p) && (p.target.Function? ==> p.target.code > 2)
    ensures ReceiveStep(c, s) == Step(Pushed(TurnTaken(c, s), s, Handler(p.target, [], 0, Loading, 0)), Silent)
  {
  }

  lemma EnterHandler(sig: Signature, c: State, a: Sync, s: Side)
    requires Sized(c) && !c.fault && a.calls != [] && a.mode == Entering && s == Turn(|a.calls|)
    requires 1 - s == Turn(|a.calls| - 1)
    requires SideOk(sig, c.procs[s], c.sems[s], a, CallSent, s)
    requires SideOk(sig, c.procs[1 - s], c.sems[1 - s], a, CallSent, 1 - s)
    requires c.bufs[1 - s].errno == a.errno && HoldsRequest(c.bufs[1 - s], a.calls[|a.calls| - 1])
    ensures var t := a.calls[|a.calls| - 1].target;
      Related(sig, Pushed(TurnTaken(c, s), s, Handler(t, [], 0, Loading, 0)), a, Reading)
  {
    var p := a.calls[|a.calls| - 1];
    var d := Pushed(TurnTaken(c, s), s, Handler(p.target, [], 0, Loading, 0));
    ReadingMine(sig, c.procs[s], c.sems[s], a, s, p.target, d.procs[s]);
    SideChanges(sig, c.procs[1 - s], c.sems[1 - s], a, CallSent, 1 - s, d.sems[1 - s], Reading);
    Assemble(sig, d, a, Reading, s);
  }

  lemma AcceptCall(sig: Signature, c: State, a: Sync, s: Side)
    requires Sized(c) && !c.fault && a.calls != [] && a.mode == Entering && s == Turn(|a.calls|)
    requires 1 - s == Turn(|a.calls| - 1)
    requires SideOk(sig, c.procs[s], c.sems[s], a, CallSent, s)
    requires SideOk(sig, c.procs[1 - s], c.sems[1 - s], a, CallSent, 1 - s)
    requires c.bufs[1 - s].errno == a.errno && HoldsRequest(c.bufs[1 - s], a.calls[|a.calls| - 1])
    ensures ReceiveStep(c, s).Step? && ReceiveStep(c, s).event == Silent
    ensures Related(sig, ReceiveStep(c, s).next, a, Reading)
  {
    CallerWaits(sig, c, a, CallSent);
    ReceivedCall(c, s, a.calls[|a.calls| - 1]);
    EnterHandler(sig, c, a, s);
  }

  /** A request arrives: its code is never 1, and the handler is the one it asks for. */
  lemma StepReceiveCall(sig: Signature, c: State, a: Sync, ph: Phase, s: Side)
    requires Related(sig, c, a, ph) && c.sems[s] > 0 && ph == CallSent
    ensures ReceiveStep(c, s).Step? && ReceiveStep(c, s).event == Silent
    ensures Related(sig, ReceiveStep(c, s).next, a, Reading)
  {
    InFlightPhase(sig, c, a, ph, s);
    AcceptCall(sig, c, a, s);
  }

  lemma CollectingMine(sig: Signature, p: Process, sem: nat, a: Sync, s: Side, q: Process)
    requires SideOk(sig, p, sem, a, ReplySent, s) && a.calls != [] && s == Turn(|a.calls| - 1)
    requires p.stack[|p.stack| - 1].Client? && p.stack[|p.stack| - 1].cpc.Waiting?
    requires var g := p.stack[|p.stack| - 1];
      q.stack == p.stack[..|p.stack| - 1] + [g.(cpc := Collecting)] && !q.blocked
    ensures SideOk(sig, q, 0, a, ReplyHere, s)
  {
    var g := p.stack[|p.stack| - 1];
    assert Typed(sig, g);
    SideReplace(sig, p, sem, a, ReplySent, s, g.(cpc := Collecting), q);
  }

  lemma ReceivedReply(c: State, s: Side)
    requires Sized(c) && Top(c, s).Client? && IsWaiting(Top(c, s)) && c.sems[s] == 1 && c.procs[s].blocked
    requires c.bufs[1 - s].code == 1
    ensures ReceiveStep(c, s) == Step(Replaced(TurnTaken(c, s), s, Top(c, s).(cpc := Collecting)), Silent)
  {
  }

  lemma ReturnToCaller(sig: Signature, c: State, a: Sync, s: Side)
    requires Sized(c) && !c.fault && a.calls != [] && a.mode.Returning? && s == Turn(|a.calls| - 1)
    requires 1 - s == Turn(|a.calls|)
    requires SideOk(sig, c.procs[s], c.sems[s], a, ReplySent, s)
    requires SideOk(sig, c.procs[1 - s], c.sems[1 - s], a, ReplySent, 1 - s)
    requires c.bufs[1 - s].errno == a.errno && Top(c, s).Client? && Top(c, s).cpc.Waiting?
    requires HoldsResult(sig, c.bufs[1 - s], a.calls[|a.calls| - 1].target, a.mode.result)
    ensures Related(sig, Replaced(TurnTaken(c, s), s, Top(c, s).(cpc := Collecting)), a, ReplyHere)
  {
    var d := Replaced(TurnTaken(c, s), s, Top(c, s).(cpc := Collecting));
    CollectingMine(sig, c.procs[s], c.sems[s], a, s, d.procs[s]);
    SideChanges(sig, c.procs[1 - s], c.sems[1 - s], a, ReplySent, 1 - s, d.sems[1 - s], ReplyHere);
    Assemble(sig, d, a, ReplyHere, s);
  }

  lemma AcceptReply(sig: Signature, c: State, a: Sync, s: Side)
    requires Sized(c) && !c.fault && a.calls != [] && a.mode.Returning? && s == Turn(|a.calls| - 1)
    requires 1 - s == Turn(|a.calls|)
    requires SideOk(sig, c.procs[s], c.sems[s], a, ReplySent, s)
    requires SideOk(sig, c.procs[1 - s], c.sems[1 - s], a, ReplySent, 1 - s)
    requires c.bufs[1 - s].errno == a.errno && c.bufs[1 - s].code == 1
    requires HoldsResult(sig, c.bufs[1 - s], a.calls[|a.calls| - 1].target, a.mode.result)
    ensures Top(c, s).Client? && Pending(Top(c, s).target, Top(c, s).args) == a.calls[|a.calls| - 1]
    ensures ReceiveStep(c, s).Step? && ReceiveStep(c, s).event == Silent
    ensures Related(sig, ReceiveStep(c, s).next, a, ReplyHere)
  {
    CallerWaits(sig, c, a, ReplySent);
    ReceivedReply(c, s);
    ReturnToCaller(sig, c, a, s);
  }

  /** A reply arrives at the activation that issued the call, never at the library's event loop. */
  lemma StepReceiveReply(sig: Signature, c: State, a: Sync, ph: Phase, s: Side)
    requires Related(sig, c, a, ph) && c.sems[s] > 0 && ph == ReplySent
    ensures a.calls != [] && Top(c, s).Client? && Pending(Top(c, s).target, Top(c, s).args) == a.calls[|a.calls| - 1]
    ensures ReceiveStep(c, s).Step? && ReceiveStep(c, s).event == Silent
    ensures Related(sig, ReceiveStep(c, s).next, a, ReplyHere)
  {
    InFlightPhase(sig, c, a, ph, s);
    AcceptReply(sig, c, a, s);
  }

  // ---- entering and leaving the callee -----------------------------------------------------------

  lemma ReadingPhase(sig: Signature, c: State, a: Sync, ph: Phase, s: Side)
    requires Related(sig, c, a, ph) && Top(c, s).Handler? && Top(c, s).hpc.Loading?
    ensures ph == Reading && a.calls != [] && s == Turn(|a.calls|) && 1 - s == Turn(|a.calls| - 1) && a.mode == Entering
    ensures SideOk(sig, c.procs[s], c.sems[s], a, ph, s) && SideOk(sig, c.procs[1 - s], c.sems[1 - s], a, ph, 1 - s)
    ensures c.procs[s].errno == a.errno && IsWaiting(Top(c, 1 - s))
    ensures HoldsRequest(c.bufs[1 - s], a.calls[|a.calls| - 1]) && ReadingFrame(Top(c, s), a.calls[|a.calls| - 1])
  {
    if a.calls != [] {
      TurnFlips(|a.calls| - 1);
    }
  }

  lemma ReadingOn(sig: Signature, p: Process, sem: nat, a: Sync, s: Side, f: Frame, q: Process)
    requires SideOk(sig, p, sem, a, Reading, s) && a.calls != [] && s == Turn(|a.calls|)
    requires p.stack[|p.stack| - 1].Handler? && p.stack[|p.stack| - 1].hpc.Loading?
    requires f.Handler? && f.hpc.Loading? && Typed(sig, f) && q == p.(stack := p.stack[..|p.stack| - 1] + [f])
    ensures SideOk(sig, q, sem, a, Reading, s)
  {
    SideReplace(sig, p, sem, a, Reading, s, f, q);
  }

  lemma LoadParameter(sig: Signature, c: State, a: Sync, s: Side, g: Frame)
    requires Sized(c) && !c.fault && a.calls != [] && a.mode == Entering && s == Turn(|a.calls|)
    requires 1 - s == Turn(|a.calls| - 1)
    requires SideOk(sig, c.procs[s], c.sems[s], a, Reading, s)
    requires SideOk(sig, c.procs[1 - s], c.sems[1 - s], a, Reading, 1 - s)
    requires c.procs[s].errno == a.errno && HoldsRequest(c.bufs[1 - s], a.calls[|a.calls| - 1])
    requires Top(c, s).Handler? && Top(c, s).hpc.Loading? && ReadingFrame(g, a.calls[|a.calls| - 1]) && Typed(sig, g)
    ensures Related(sig, Replaced(c, s, g), a, Reading)
  {
    var d := Replaced(c, s, g);
    ReadingOn(sig, c.procs[s], c.sems[s], a, s, g, d.procs[s]);
    Assemble(sig, d, a, Reading, s);
  }

  lemma NextParameter(b: Buffer, f: Frame, p: Pending)
    requires HoldsRequest(b, p) && ReadingFrame(f, p) && |f.params| < |p.args|
    ensures ReadingFrame(f.(params := f.params + [Slot(b, |f.params|)]), p)
  {
  }

  lemma StepLoad(sig: Signature, c: State, a: Sync, ph: Phase, s: Side)
    requires Related(sig, c, a, ph) && Top(c, s).Handler? && Top(c, s).hpc.Loading?
    requires |Top(c, s).params| < sig.arity(Top(c, s).target)
    ensures var f := Top(c, s);
      Related(sig, Replaced(c, s, f.(params := f.params + [Slot(c.bufs[1 - s], |f.params|)])), a, Reading)
  {
    ReadingPhase(sig, c, a, ph, s);
    CallerWaits(sig, c, a, ph);
    var f := Top(c, s);
    NextParameter(c.bufs[1 - s], f, a.calls[|a.calls| - 1]);
    LoadParameter(sig, c, a, s, f.(params := f.params + [Slot(c.bufs[1 - s], |f.params|)]));
  }

  lemma EnteredTracks(stack: seq<Frame>, stack': seq<Frame>, a: Sync, s: Side)
    requires Tracks(stack, a, Reading, s) && a.calls != [] && Issued(stack') == Issued(stack)
    requires Handled(stack') == Handled(stack) + if s == Turn(|a.calls|) then [a.calls[|a.calls| - 1]] else []
    ensures Tracks(stack', a.(mode := Working), AtWork, s)
  {
    HandledGrows(a.calls, Handled(stack), Handled(stack'), s);
    assert a.calls[..|a.calls|] == a.calls;
  }

  lemma HandledGrows(calls: seq<Pending>, handled: seq<Pending>, handled': seq<Pending>, s: Side)
    requires calls != [] && handled == Mine(calls[..|calls| - 1], 1 - s)
    requires handled' == handled + if s == Turn(|calls|) then [calls[|calls| - 1]] else []
    ensures handled' == Mine(calls, 1 - s)
  {
  }

  lemma EnteredMine(sig: Signature, p: Process, sem: nat, a: Sync, s: Side, f: Frame, q: Process)
    requires SideOk(sig, p, sem, a, Reading, s) && a.calls != [] && s == Turn(|a.calls|)
    requires p.stack[|p.stack| - 1].Handler? && p.stack[|p.stack| - 1].hpc.Loading?
    requires f.Handler? && f.hpc.Running? && Typed(sig, f) && q == p.(stack := p.stack[..|p.stack| - 1] + [f])
    requires Pending(f.target, f.params) == a.calls[|a.calls| - 1]
    ensures SideOk(sig, q, sem, a.(mode := Working), AtWork, s)
  {
    SideReplace(sig, p, sem, a, Reading, s, f, q);
    EnteredTracks(p.stack, q.stack, a, s);
  }

  lemma EnteredOther(sig: Signature, p: Process, sem: nat, a: Sync, s: Side)
    requires SideOk(sig, p, sem, a, Reading, s) && a.calls != [] && s != Turn(|a.calls|)
    ensures SideOk(sig, p, sem, a.(mode := Working), AtWork, s)
  {
    EnteredTracks(p.stack, p.stack, a, s);
  }

  /** All parameters are loaded: the callee starts with exactly the caller's arguments. */
  lemma StepEntered(sig: Signature, c: State, a: Sync, ph: Phase, s: Side)
    requires Related(sig, c, a, ph) && Top(c, s).Handler? && Top(c, s).hpc.Loading?
    requires |Top(c, s).params| >= sig.arity(Top(c, s).target)
    ensures SyncStep(sig, a, Entered(s, Top(c, s).target, Top(c, s).params), a.(mode := Working))
    ensures Related(sig, Replaced(c, s, Top(c, s).(hpc := Running)), a.(mode := Working), AtWork)
  {
    ReadingPhase(sig, c, a, ph, s);
    CallerWaits(sig, c, a, ph);
    var f := Top(c, s);
    assert Typed(sig, f);
    assert f.params == a.calls[|a.calls| - 1].args;
    var d := Replaced(c, s, f.(hpc := Running));
    EnteredMine(sig, c.procs[s], c.sems[s], a, s, f.(hpc := Running), d.procs[s]);
    EnteredOther(sig, c.procs[1 - s], c.sems[1 - s], a, 1 - s);
    Assemble(sig, d, a.(mode := Working), AtWork, s);
  }

  lemma ExitedMine(sig: Signature, p: Process, sem: nat, a: Sync, a': Sync, s: Side, f: Frame, q: Process)
    requires SideOk(sig, p, sem, a, AtWork, s) && s == Turn(|a.calls|) && a'.calls == a.calls
    requires HasParams(p.stack[|p.stack| - 1]) && HasParams(f) && Typed(sig, f)
    requires f.target == p.stack[|p.stack| - 1].target && f.params == p.stack[|p.stack| - 1].params
    requires q == p.(stack := p.stack[..|p.stack| - 1] + [f])
    ensures SideOk(sig, q, sem, a', Replying, s)
  {
    SideReplace(sig, p, sem, a, AtWork, s, f, q);
  }

  /** The result is final: the callee has returned. */
  lemma StepExited(sig: Signature, c: State, a: Sync, ph: Phase, s: Side)
    requires Related(sig, c, a, ph) && Top(c, s).Handler? && Top(c, s).hpc.SharingResult?
    ensures var v := ResultOf(sig, Top(c, s).target, Top(c, s).result);
      && SyncStep(sig, a, Exited(s, Top(c, s).returned, v), a.(mode := Returning(v)))
      && Related(sig, Replaced(c, s, Top(c, s).(hpc := StoringResult)), a.(mode := Returning(v)), Replying)
  {
    AtWorkPhase(sig, c, a, ph, s);
    TopHandlesLastCall(c, a, ph);
    var f := Top(c, s);
    var a' := a.(mode := Returning(ResultOf(sig, f.target, f.result)));
    var d := Replaced(c, s, f.(hpc := StoringResult));
    assert Typed(sig, f);
    ExitedMine(sig, c.procs[s], c.sems[s], a, a', s, f.(hpc := StoringResult), d.procs[s]);
    Assemble(sig, d, a', Replying, s);
  }

  // ---- the reply on its way ----------------------------------------------------------------------

  predicate IsReplying(f: Frame) {
    f.Handler? && (f.hpc.StoringResult? || f.hpc.StoringCode? || f.hpc.Responding?)
  }

  lemma ReplyingPhase(sig: Signature, c: State, a: Sync, ph: Phase, s: Side)
    requires Related(sig, c, a, ph) && IsReplying(Top(c, s))
    ensures ph == Replying && a.calls != [] && s == Turn(|a.calls|) && 1 - s == Turn(|a.calls| - 1) && a.mode.Returning?
    ensures SideOk(sig, c.procs[s], c.sems[s], a, ph, s) && SideOk(sig, c.procs[1 - s], c.sems[1 - s], a, ph, 1 - s)
    ensures c.procs[s].errno == a.errno && IsWaiting(Top(c, 1 - s))
    ensures ReplyingFrame(sig, c.bufs[s], Top(c, s), a.calls[|a.calls| - 1], a.mode.result)
  {
    if a.calls != [] {
      TurnFlips(|a.calls| - 1);
    }
  }

  lemma ReplyingOn(sig: Signature, p: Process, sem: nat, a: Sync, s: Side, f: Frame, q: Process)
    requires SideOk(sig, p, sem, a, Replying, s) && a.calls != [] && s == Turn(|a.calls|)
    requires IsReplying(p.stack[|p.stack| - 1]) && IsReplying(f)
    requires f == p.stack[|p.stack| - 1].(hpc := f.hpc)
    requires q == p.(stack := p.stack[..|p.stack| - 1] + [f])
    ensures SideOk(sig, q, sem, a, Replying, s)
  {
    assert Typed(sig, p.stack[|p.stack| - 1]);
    SideReplace(sig, p, sem, a, Replying, s, f, q);
  }

  lemma StepStoreReply(sig: Signature, c: State, a: Sync, ph: Phase, s: Side, f: Frame, b: Buffer)
    requires Related(sig, c, a, ph) && IsReplying(Top(c, s)) && IsReplying(f)
    requires f == Top(c, s).(hpc := f.hpc)
    requires ReplyingFrame(sig, b, f, a.calls[|a.calls| - 1], a.mode.result)
    ensures Related(sig, Replaced(c.(bufs := c.bufs[s := b]), s, f), a, Replying)
  {
    ReplyingPhase(sig, c, a, ph, s);
    var d := Replaced(c.(bufs := c.bufs[s := b]), s, f);
    ReplyingOn(sig, c.procs[s], c.sems[s], a, s, f, d.procs[s]);
    Assemble(sig, d, a, Replying, s);
  }

  lemma RespondMine(sig: Signature, c: State, a: Sync, s: Side, q: Process)
    requires Sized(c) && a.calls != [] && s == Turn(|a.calls|) && 1 - s == Turn(|a.calls| - 1)
    requires SideOk(sig, c.procs[s], c.sems[s], a, Replying, s) && IsReplying(Top(c, s))
    requires q.stack == Below(c, s) && q.blocked
    ensures |q.stack| > 0 && SideOk(sig, q, c.sems[s], a, ReplySent, s)
  {
    NotBottom(sig, c.procs[s].stack, s);
    PopKeeps(sig, c.procs[s].stack, Bottom(s));
    SplitTop(c, s);
    TopHandlesLastCall(c, a, Replying);
  }

  lemma RespondOther(sig: Signature, p: Process, sem: nat, a: Sync, s: Side)
    requires SideOk(sig, p, sem, a, Replying, s) && a.calls != [] && s == Turn(|a.calls| - 1)
    requires 1 - s == Turn(|a.calls|)
    ensures SideOk(sig, p, sem + 1, a, ReplySent, s)
  {
    LastOfMine(a.calls, s);
    assert a.calls[..|a.calls|] == a.calls;
  }

  lemma SendReply(sig: Signature, c: State, a: Sync, s: Side)
    requires Sized(c) && !c.fault && a.calls != [] && a.mode.Returning? && s == Turn(|a.calls|)
    requires 1 - s == Turn(|a.calls| - 1)
    requires SideOk(sig, c.procs[s], c.sems[s], a, Replying, s)
    requires SideOk(sig, c.procs[1 - s], c.sems[1 - s], a, Replying, 1 - s)
    requires c.procs[s].errno == a.errno && IsReplying(Top(c, s)) && Top(c, s).hpc.Responding?
    requires c.bufs[s].code == 1 && HoldsResult(sig, c.bufs[s], a.calls[|a.calls| - 1].target, a.mode.result)
    ensures |c.procs[s].stack| > 1 && Related(sig, WithStack(SendTurn(c, s), s, Below(c, s)), a, ReplySent)
  {
    NotBottom(sig, c.procs[s].stack, s);
    var d := WithStack(SendTurn(c, s), s, Below(c, s));
    RespondMine(sig, c, a, s, d.procs[s]);
    RespondOther(sig, c.procs[1 - s], c.sems[1 - s], a, 1 - s);
    Assemble(sig, d, a, ReplySent, s);
  }

  lemma StepRespond(sig: Signature, c: State, a: Sync, ph: Phase, s: Side)
    requires Related(sig, c, a, ph) && Top(c, s).Handler? && Top(c, s).hpc.Responding?
    ensures |c.procs[s].stack| > 1 && Related(sig, WithStack(SendTurn(c, s), s, Below(c, s)), a, ReplySent)
  {
    ReplyingPhase(sig, c, a, ph, s);
    SendReply(sig, c, a, s);
  }

  lemma ReplyHerePhase(sig: Signature, c: State, a: Sync, ph: Phase, s: Side)
    requires Related(sig, c, a, ph) && Top(c, s).Client? && Top(c, s).cpc.Collecting?
    ensures ph == ReplyHere && a.calls != [] && s == Turn(|a.calls| - 1) && 1 - s == Turn(|a.calls|)
    ensures a.mode.Returning?
    ensures SideOk(sig, c.procs[s], c.sems[s], a, ph, s) && SideOk(sig, c.procs[1 - s], c.sems[1 - s], a, ph, 1 - s)
    ensures c.procs[s].errno == a.errno
    ensures HoldsResult(sig, c.bufs[1 - s], a.calls[|a.calls| - 1].target, a.mode.result)
  {
    if a.calls != [] {
      TurnFlips(|a.calls| - 1);
    }
  }

  lemma CollectMine(sig: Signature, c: State, a: Sync, a': Sync, s: Side, q: Process)
    requires Sized(c) && a.calls != [] && s == Turn(|a.calls| - 1) && a'.calls == a.calls[..|a.calls| - 1]
    requires SideOk(sig, c.procs[s], c.sems[s], a, ReplyHere, s) && Top(c, s).Client? && Top(c, s).cpc.Collecting?
    requires q == c.procs[s].(stack := Below(c, s))
    ensures |q.stack| > 0 && SideOk(sig, q, c.sems[s], a', AtWork, s) && AtWorkFrame(q.stack[|q.stack| - 1])
  {
    NotBottom(sig, c.procs[s].stack, s);
    PopKeeps(sig, c.procs[s].stack, Bottom(s));
    SplitTop(c, s);
    TopIsLastCall(c, a, ReplyHere);
    assert a'.calls[..|a'.calls|] == a'.calls;
  }

  lemma CollectOther(sig: Signature, p: Process, sem: nat, a: Sync, a': Sync, s: Side)
    requires SideOk(sig, p, sem, a, ReplyHere, s) && a.calls != [] && 1 - s == Turn(|a.calls| - 1)
    requires s == Turn(|a.calls|)
    requires a'.calls == a.calls[..|a.calls| - 1]
    ensures SideOk(sig, p, sem, a', AtWork, s)
  {
    LastOfMine(a.calls, 1 - s);
    assert a'.calls[..|a'.calls|] == a'.calls;
  }

  lemma TakeReply(sig: Signature, c: State, a: Sync, s: Side)
    requires Sized(c) && !c.fault && a.calls != [] && s == Turn(|a.calls| - 1) && 1 - s == Turn(|a.calls|)
    requires SideOk(sig, c.procs[s], c.sems[s], a, ReplyHere, s)
    requires SideOk(sig, c.procs[1 - s], c.sems[1 - s], a, ReplyHere, 1 - s)
    requires c.procs[s].errno == a.errno && Top(c, s).Client? && Top(c, s).cpc.Collecting?
    ensures Below(c, s) != [] && Top(c, s).target == a.calls[|a.calls| - 1].target
    ensures Related(sig, WithStack(c, s, Below(c, s)), Sync(a.calls[..|a.calls| - 1], Working, a.errno), AtWork)
    ensures AtWorkFrame(Top(WithStack(c, s, Below(c, s)), s))
  {
    var a' := Sync(a.calls[..|a.calls| - 1], Working, a.errno);
    TopIsLastCall(c, a, ReplyHere);
    NotBottom(sig, c.procs[s].stack, s);
    var d := WithStack(c, s, Below(c, s));
    CollectMine(sig, c, a, a', s, d.procs[s]);
    CollectOther(sig, c.procs[1 - s], c.sems[1 - s], a, a', 1 - s);
    Assemble(sig, d, a', AtWork, s);
  }

  /** The caller continues below its replacement function with exactly the callee's result. */
  lemma StepReturned(sig: Signature, c: State, a: Sync, ph: Phase, s: Side) returns (a': Sync)
    requires Related(sig, c, a, ph) && Top(c, s).Client? && Top(c, s).cpc.Collecting?
    ensures Below(c, s) != []
    ensures SyncStep(sig, a, Returned(s, ResultOf(sig, Top(c, s).target, Slot(c.bufs[1 - s], 0))), a')
    ensures Related(sig, WithStack(c, s, Below(c, s)), a', AtWork)
    ensures AtWorkFrame(Top(WithStack(c, s, Below(c, s)), s))
  {
    ReplyHerePhase(sig, c, a, ph, s);
    TakeReply(sig, c, a, s);
    a' := Sync(a.calls[..|a.calls| - 1], Working, a.errno);
  }

  // ---- every step, every run ---------------------------------------------------------------------

  /** The buffer and the activation after one store of a request. */
  function StoredRequest(b: Buffer, f: Frame): (Buffer, Frame)
    requires f.Client? && (f.cpc.Storing? || f.cpc.StoringTarget?)
  {
    match f
    case Client(t, args, Storing(i), _) =>
      if i < |args| then (b.(data := b.data[i := args[i]]), f.(cpc := Storing(i + 1)))
      else (b, f.(cpc := StoringTarget))
    case Client(t, args, StoringTarget, _) =>
      (if t.Callback? then b.(callback := t.index, code := 2) else b.(code := t.code), f.(cpc := Triggering))
  }

  lemma StoredRequestHolds(b: Buffer, f: Frame)
    requires WritingFrame(b, f) && !f.cpc.Triggering?
    ensures var (b', f') := StoredRequest(b, f);
            WritingFrame(b', f') && Committed(f') && f' == f.(cpc := f'.cpc)
  {
  }

  lemma StoreStepStores(sig: Signature, c: State, s: Side)
    requires Sized(c) && StoreStep(sig, c, s).Step? && Top(c, s).Client?
    ensures Committed(Top(c, s)) && (Top(c, s).cpc.Storing? || Top(c, s).cpc.StoringTarget?)
    ensures var (b, f) := StoredRequest(c.bufs[s], Top(c, s));
            StoreStep(sig, c, s) == Step(Replaced(c.(bufs := c.bufs[s := b]), s, f), Silent)
  {
  }

  lemma StoreRequestStep(sig: Signature, c: State, a: Sync, ph: Phase, s: Side)
    requires Related(sig, c, a, ph) && StoreStep(sig, c, s).Step? && Top(c, s).Client?
    ensures StoreStep(sig, c, s).event == Silent && Related(sig, StoreStep(sig, c, s).next, a, Writing)
  {
    StoreStepStores(sig, c, s);
    WritingPhase(sig, c, a, ph, s);
    StoredRequestHolds(c.bufs[s], Top(c, s));
    var (b, f) := StoredRequest(c.bufs[s], Top(c, s));
    StepStoreRequest(sig, c, a, ph, s, f, b);
  }

  lemma StoreReplyStep(sig: Signature, c: State, a: Sync, ph: Phase, s: Side)
    requires Related(sig, c, a, ph) && StoreStep(sig, c, s).Step? && Top(c, s).Handler?
    ensures StoreStep(sig, c, s).event == Silent && Related(sig, StoreStep(sig, c, s).next, a, Replying)
  {
    ReplyingPhase(sig, c, a, ph, s);
    var b := c.bufs[s];
    match Top(c, s)
    case Handler(t, params, v, StoringResult, _) =>
      var b' := if sig.hasResult(t) then b.(data := b.data[0 := v]) else b;
      assert c.bufs[s := b] == c.bufs;
      StepStoreReply(sig, c, a, ph, s, Top(c, s).(hpc := StoringCode), b');
    case Handler(t, params, v, StoringCode, _) =>
      StepStoreReply(sig, c, a, ph, s, Top(c, s).(hpc := Responding), b.(code := 1));
  }

  lemma SharedTyped(sig: Signature, f: Frame, v: Value)
    requires Typed(sig, f) && IsSharing(f)
    ensures Typed(sig, Shared(sig, f, v)) && IsSharing(Shared(sig, f, v))
    ensures var g := Shared(sig, f, v);
      (f.Client? && g.Client?) || (f.Handler? && g.Handler? && g.target == f.target && g.params == f.params)
  {
  }

  lemma ShareKnownRefines(sig: Signature, c: State, a: Sync, ph: Phase, s: Side, v: Value)
    requires Related(sig, c, a, ph) && IsSharing(Top(c, s))
    ensures Related(sig, Replaced(c, s, Shared(sig, Top(c, s), v)), a, AtWork)
  {
    AtWorkPhase(sig, c, a, ph, s);
    assert Typed(sig, c.procs[s].stack[|c.procs[s].stack| - 1]);
    SharedTyped(sig, Top(c, s), v);
    StepReplace(sig, c, a, ph, s, Shared(sig, Top(c, s), v));
  }

  lemma ReturnRefines(sig: Signature, c: State, a: Sync, ph: Phase, s: Side, v: Value)
    requires Related(sig, c, a, ph) && Top(c, s).Handler? && Top(c, s).hpc.Running?
    ensures Related(sig, Replaced(c, s, Top(c, s).(result := v, returned := v, hpc := SharingResult(0))), a, AtWork)
  {
    AtWorkPhase(sig, c, a, ph, s);
    assert Typed(sig, c.procs[s].stack[|c.procs[s].stack| - 1]);
    StepReplace(sig, c, a, ph, s, Top(c, s).(result := v, returned := v, hpc := SharingResult(0)));
  }

  /** The result goes to the user code, or completes the sharing of a descriptor. */
  function TakenOver(sig: Signature, d: State, s: Side, v: Value): State
    requires Sized(d)
  {
    if IsSharing(Top(d, s)) then Replaced(d, s, Shared(sig, Top(d, s), v)) else d
  }

  lemma TakeOverRefines(sig: Signature, d: State, a: Sync, s: Side, v: Value)
    requires Related(sig, d, a, AtWork)
    ensures Related(sig, TakenOver(sig, d, s, v), a, AtWork)
  {
    if IsSharing(Top(d, s)) {
      ShareKnownRefines(sig, d, a, AtWork, s, v);
    }
  }

  lemma CollectStepIs(sig: Signature, c: State, s: Side)
    requires Sized(c) && CollectStep(sig, c, s).Step?
    ensures Top(c, s).Client? && Top(c, s).cpc.Collecting? && Below(c, s) != []
    ensures var v, d := Slot(c.bufs[1 - s], 0), WithStack(c, s, Below(c, s));
            CollectStep(sig, c, s) == Step(TakenOver(sig, d, s, v), Returned(s, ResultOf(sig, Top(c, s).target, v)))
  {
  }

  lemma CollectRefines(sig: Signature, c: State, a: Sync, ph: Phase, s: Side) returns (a': Sync)
    requires Related(sig, c, a, ph) && CollectStep(sig, c, s).Step?
    ensures SyncStep(sig, a, CollectStep(sig, c, s).event, a') && Related(sig, CollectStep(sig, c, s).next, a', AtWork)
  {
    CollectStepIs(sig, c, s);
    a' := StepReturned(sig, c, a, ph, s);
    TakeOverRefines(sig, WithStack(c, s, Below(c, s)), a', s, Slot(c.bufs[1 - s], 0));
  }

  predicate IsWorkAction(act: Action) {
    act.SetErrno? || act.Call? || act.ShareCall? || act.ShareKnown? || act.Return? || act.FinishSharing?
  }

  lemma FinishRefines(sig: Signature, c: State, a: Sync, ph: Phase, s: Side) returns (a': Sync, ph': Phase)
    requires Related(sig, c, a, ph) && FinishSharingStep(sig, c, s).Step?
    ensures SyncStep(sig, a, FinishSharingStep(sig, c, s).event, a')
    ensures Related(sig, FinishSharingStep(sig, c, s).next, a', ph')
  {
    var f := Top(c, s);
    if f.Client? {
      StepCalled(sig, c, a, ph, s);
      a', ph' := Sync(a.calls + [Pending(f.target, f.args)], Entering, a.errno), Writing;
    } else {
      StepExited(sig, c, a, ph, s);
      a', ph' := a.(mode := Returning(ResultOf(sig, f.target, f.result))), Replying;
    }
  }

  lemma WorkRefines(sig: Signature, c: State, a: Sync, ph: Phase, s: Side, act: Action) returns (a': Sync, ph': Phase)
    requires Related(sig, c, a, ph) && IsWorkAction(act) && Next(sig, c, s, act).Step?
    ensures SyncStep(sig, a, Next(sig, c, s, act).event, a') && Related(sig, Next(sig, c, s, act).next, a', ph')
  {
    a', ph' := a, AtWork;
    var f := Top(c, s);
    match act
    case SetErrno(x) =>
      StepErrno(sig, c, a, ph, s, x);
      a' := a.(errno := x);
    case Call(t, args) => StepPush(sig, c, a, ph, s, Client(t, args, Sharing(0), args));
    case ShareCall(t, args) => StepPush(sig, c, a, ph, s, Client(t, args, Sharing(0), args));
    case ShareKnown(v) => ShareKnownRefines(sig, c, a, ph, s, v);
    case Return(v) => ReturnRefines(sig, c, a, ph, s, v);
    case FinishSharing => a', ph' := FinishRefines(sig, c, a, ph, s);
  }

  lemma ReceiveRefines(sig: Signature, c: State, a: Sync, ph: Phase, s: Side) returns (ph': Phase)
    requires Related(sig, c, a, ph) && ReceiveStep(c, s).Step?
    ensures ReceiveStep(c, s).event == Silent && Related(sig, ReceiveStep(c, s).next, a, ph')
  {
    InFlightPhase(sig, c, a, ph, s);
    if ph == CallSent {
      StepReceiveCall(sig, c, a, ph, s);
      ph' := Reading;
    } else {
      StepReceiveReply(sig, c, a, ph, s);
      ph' := ReplyHere;
    }
  }

  lemma LoadRefines(sig: Signature, c: State, a: Sync, ph: Phase, s: Side) returns (a': Sync, ph': Phase)
    requires Related(sig, c, a, ph) && LoadStep(sig, c, s).Step?
    ensures SyncStep(sig, a, LoadStep(sig, c, s).event, a') && Related(sig, LoadStep(sig, c, s).next, a', ph')
  {
    var f := Top(c, s);
    if |f.params| < sig.arity(f.target) {
      StepLoad(sig, c, a, ph, s);
      a', ph' := a, Reading;
    } else {
      StepEntered(sig, c, a, ph, s);
      a', ph' := a.(mode := Working), AtWork;
    }
  }

  /** Every step of either side is silent or exactly one step of the synchronous call stack. */
  lemma StepRefines(sig: Signature, c: State, a: Sync, ph: Phase, s: Side, act: Action) returns (a': Sync, ph': Phase)
    requires Related(sig, c, a, ph) && Next(sig, c, s, act).Step?
    ensures SyncStep(sig, a, Next(sig, c, s, act).event, a') && Related(sig, Next(sig, c, s, act).next, a', ph')
  {
    a', ph' := a, ph;
    if IsWorkAction(act) {
      a', ph' := WorkRefines(sig, c, a, ph, s, act);
    } else {
      match act
      case Store =>
        if Top(c, s).Client? {
          StoreRequestStep(sig, c, a, ph, s);
          ph' := Writing;
        } else {
          StoreReplyStep(sig, c, a, ph, s);
          ph' := Replying;
        }
      case Trigger =>
        StepTrigger(sig, c, a, ph, s);
        ph' := CallSent;
      case Receive => ph' := ReceiveRefines(sig, c, a, ph, s);
      case Load => a', ph' := LoadRefines(sig, c, a, ph, s);
      case Respond =>
        StepRespond(sig, c, a, ph, s);
        ph' := ReplySent;
      case Collect =>
        a' := CollectRefines(sig, c, a, ph, s);
        ph' := AtWork;
    }
  }

  /** A run: at each point one side takes one step. */
  datatype Move = Move(side: Side, action: Action)

  ghost predicate IsRun(sig: Signature, c: State, moves: seq<Move>)
    decreases |moves|
  {
    moves != [] ==>
      Sized(c) &&
      var o := Next(sig, c, moves[0].side, moves[0].action); o.Step? && IsRun(sig, o.next, moves[1..])
  }

  ghost function Final(sig: Signature, c: State, moves: seq<Move>): State
    requires IsRun(sig, c, moves)
    decreases |moves|
  {
    if moves == [] then c
    else Final(sig, Next(sig, c, moves[0].side, moves[0].action).next, moves[1..])
  }

  ghost function Events(sig: Signature, c: State, moves: seq<Move>): seq<Event>
    requires IsRun(sig, c, moves)
    decreases |moves|
  {
    if moves == [] then []
    else
      var o := Next(sig, c, moves[0].side, moves[0].action);
      [o.event] + Events(sig, o.next, moves[1..])
  }

  /** The events lead the synchronous call stack from `a` to `b`. */
  ghost predicate SyncRun(sig: Signature, a: Sync, evs: seq<Event>, b: Sync)
    decreases |evs|
  {
    if evs == [] then a == b else exists m :: SyncStep(sig, a, evs[0], m) && SyncRun(sig, m, evs[1..], b)
  }

  /** Every run shows the events of a run of one synchronous call stack and ends related to it. */
  lemma {:induction false} RunRefines(sig: Signature, c: State, a: Sync, ph: Phase,
                                      moves: seq<Move>) returns (b: Sync, ph': Phase)
    requires Related(sig, c, a, ph) && IsRun(sig, c, moves)
    ensures SyncRun(sig, a, Events(sig, c, moves), b) && Related(sig, Final(sig, c, moves), b, ph')
    decreases |moves|
  {
    if moves == [] {
      b, ph' := a, ph;
    } else {
      var o := Next(sig, c, moves[0].side, moves[0].action);
      var m, q := StepRefines(sig, c, a, ph, moves[0].side, moves[0].action);
      b, ph' := RunRefines(sig, o.next, m, q, moves[1..]);
      SyncRunCons(sig, a, o.event, m, Events(sig, o.next, moves[1..]), b);
    }
  }

  lemma SyncRunCons(sig: Signature, a: Sync, ev: Event, m: Sync, evs: seq<Event>, b: Sync)
    requires SyncStep(sig, a, ev, m) && SyncRun(sig, m, evs, b)
    ensures SyncRun(sig, a, [ev] + evs, b)
  {
    assert ([ev] + evs)[1..] == evs;
  }

  // ---- what holds in every reachable state -------------------------------------------------------

  function TokensRunning(c: State, s: Side): nat
    requires Sized(c)
  {
    if IsWaiting(Top(c, s)) then 0 else 1
  }

  /** From the start on: no warning, no stray return, no invalid code; exactly one token; sending is
      blocked on exactly the sides that wait; and a side that runs its own code runs at its turn. */
  lemma ReachableIsSafe(sig: Signature, errno: int, moves: seq<Move>) returns (a: Sync)
    requires IsRun(sig, Initial(errno), moves)
    ensures SyncRun(sig, Sync([], Working, errno), Events(sig, Initial(errno), moves), a)
    ensures var c := Final(sig, Initial(errno), moves);
      && Sized(c) && !c.fault
      && TokensRunning(c, 0) + TokensRunning(c, 1) + c.sems[0] + c.sems[1] == 1
      && (forall s: Side :: c.procs[s].blocked <==> IsWaiting(Top(c, s)))
      && (forall s: Side :: AtWorkFrame(Top(c, s)) ==> s == Turn(|a.calls|) && c.procs[s].errno == a.errno)
  {
    InitialRelated(sig, errno);
    var ph;
    a, ph := RunRefines(sig, Initial(errno), Sync([], Working, errno), AtWork, moves);
    var c := Final(sig, Initial(errno), moves);
    forall s: Side | AtWorkFrame(Top(c, s))
      ensures s == Turn(|a.calls|) && c.procs[s].errno == a.errno
    {
      AtWorkPhase(sig, c, a, ph, s);
    }
  }

  /** The protocol is never stuck: in every reachable state some side can take a step. */
  lemma NeverStuck(sig: Signature, errno: int, moves: seq<Move>) returns (s: Side, act: Action)
    requires IsRun(sig, Initial(errno), moves)
    ensures var c := Final(sig, Initial(errno), moves); Sized(c) && Next(sig, c, s, act).Step?
  {
    InitialRelated(sig, errno);
    var a, ph := RunRefines(sig, Initial(errno), Sync([], Working, errno), AtWork, moves);
    var c := Final(sig, Initial(errno), moves);
    s := HolderOf(|a.calls|, ph).side;
    if IsWaiting(Top(c, s)) {
      act := Receive;
    } else {
      act := OwnMove(sig, c, s);
    }
  }

  lemma OwnMove(sig: Signature, c: State, s: Side) returns (act: Action)
    requires Sized(c) && WellStacked(sig, c.procs[s].stack, Bottom(s)) && !IsWaiting(Top(c, s))
    ensures Next(sig, c, s, act).Step?
  {
    match Top(c, s)
    case Program => act := SetErrno(0);
    case Client(t, args, pc, _) =>
      NotBottom(sig, c.procs[s].stack, s);
      match pc {
        case Sharing(i) => act := if i < |sig.fds(t)| then ShareKnown(0) else FinishSharing;
        case Triggering => act := Trigger;
        case Collecting => act := Collect;
        case _ => act := Store;
      }
    case Handler(t, params, v, pc, _) =>
      NotBottom(sig, c.procs[s].stack, s);
      match pc {
        case Loading => act := Load;
        case Running => act := SetErrno(0);
        case SharingResult(i) => act := if i < 1 && sig.fdResult(t) then ShareKnown(0) else FinishSharing;
        case Responding => act := Respond;
        case _ => act := Store;
      }
  }
}
