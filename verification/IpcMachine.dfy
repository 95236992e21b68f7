/** The two-process call protocol as a state machine. Side 0 is the program, side 1 the library.
    Each side has a stack of activations; the sides share two semaphores and two one-message
    buffers. One action is one step of the code that the linker emits or of the waiting loop. */
module IpcMachine {

  import opened Options

  /** A function of the other side, or a callback by its index in the other side's table. */
  datatype Target = Function(code: int) | Callback(index: nat)

  type Value = int

  /** What the linker knows about a target: the number of parameters, the parameters that are file
      descriptors, whether there is a result, and whether the result is a file descriptor. */
  datatype Signature = Signature(
    arity: Target -> nat, fds: Target -> seq<nat>, hasResult: Target -> bool, fdResult: Target -> bool)

  /** The communication struct: code, errno, callback number and data slots. */
  datatype Buffer = Buffer(code: int, errno: int, callback: nat, data: map<nat, Value>)

  function Slot(b: Buffer, i: nat): Value {
    if i in b.data then b.data[i] else 0
  }

  /** Progress of a replacement function: share descriptors, store parameters, store callback number
      and code, trigger, wait, load the result. */
  datatype ClientPc = Sharing(next: nat) | Storing(next: nat) | StoringTarget | Triggering | Waiting | Collecting

  /** Progress of a request handler: load parameters, run the function, share a descriptor result,
      store the result, store code 1, respond. */
  datatype HandlerPc = Loading | Running | SharingResult(next: nat) | StoringResult | StoringCode | Responding

  /** Activations. `passed` are the arguments that the calling code gave, `args` those with descriptors
      replaced; `returned` is what the handled function returned, `result` what the caller gets. */
  datatype Frame =
    | Program
    | EventLoop
    | Client(target: Target, args: seq<Value>, cpc: ClientPc, passed: seq<Value>)
    | Handler(target: Target, params: seq<Value>, result: Value, hpc: HandlerPc, returned: Value)

  /** `blocked` is `sending_is_blocked`. */
  datatype Process = Process(stack: seq<Frame>, errno: int, blocked: bool)

  /** `sems[s]` is the semaphore side `s` waits on and `bufs[s]` the buffer side `s` sends in.
      `fault` records that a check of the original would have printed a warning, ended the process
      or left the event loop. */
  datatype State = State(procs: seq<Process>, sems: seq<nat>, bufs: seq<Buffer>, fault: bool)

  type Side = s: nat | s < 2

  /** `ShareCall` is the call that hands a descriptor to the other side, which returns its number for it;
      `ShareKnown` is an answer that the tables give without one. */
  datatype Action =
    | SetErrno(x: int)
    | Call(target: Target, args: seq<Value>)
    | ShareCall(target: Target, args: seq<Value>)
    | ShareKnown(value: Value)
    | FinishSharing
    | Store
    | Trigger
    | Receive
    | Load
    | Return(value: Value)
    | Respond
    | Collect

  /** What the program and the library can observe. */
  datatype Event =
    | Silent
    | ErrnoSet(side: Side, x: int)
    | Called(side: Side, target: Target, passed: seq<Value>, args: seq<Value>)
    | Entered(side: Side, target: Target, params: seq<Value>)
    | Exited(side: Side, returned: Value, result: Option<Value>)
    | Returned(side: Side, result: Option<Value>)

  predicate Sized(c: State) {
    && |c.procs| == 2 && |c.sems| == 2 && |c.bufs| == 2
    && |c.procs[0].stack| > 0 && |c.procs[1].stack| > 0
  }

  function Top(c: State, s: Side): Frame
    requires Sized(c)
  {
    c.procs[s].stack[|c.procs[s].stack| - 1]
  }

  function Below(c: State, s: Side): seq<Frame>
    requires Sized(c)
  {
    c.procs[s].stack[..|c.procs[s].stack| - 1]
  }

  function WithStack(c: State, s: Side, stack: seq<Frame>): State
    requires Sized(c)
  {
    c.(procs := c.procs[s := c.procs[s].(stack := stack)])
  }

  function Replaced(c: State, s: Side, f: Frame): State
    requires Sized(c)
  {
    WithStack(c, s, Below(c, s) + [f])
  }

  function Pushed(c: State, s: Side, f: Frame): State
    requires Sized(c)
  {
    WithStack(c, s, c.procs[s].stack + [f])
  }

  /** Code of the program or of a handled function is running. */
  predicate InUserCode(f: Frame) {
    f.Program? || (f.Handler? && f.hpc.Running?)
  }

  /** How many descriptors the frame has to share before it goes on. */
  function ShareLimit(sig: Signature, f: Frame): nat {
    match f
    case Client(t, _, _, _) => |sig.fds(t)|
    case Handler(t, _, _, _, _) => if sig.fdResult(t) then 1 else 0
    case _ => 0
  }

  predicate IsSharing(f: Frame) {
    (f.Client? && f.cpc.Sharing?) || (f.Handler? && f.hpc.SharingResult?)
  }

  function ShareNext(f: Frame): nat
    requires IsSharing(f)
  {
    if f.Client? then f.cpc.next else f.hpc.next
  }

  /** The frame once the descriptor it was sharing is known as `v` on the other side. */
  function Shared(sig: Signature, f: Frame, v: Value): Frame
    requires IsSharing(f)
  {
    match f
    case Client(t, args, Sharing(i), _) =>
      var k := if i < |sig.fds(t)| then sig.fds(t)[i] else |args|;
      f.(args := if k < |args| then args[k := v] else args, cpc := Sharing(i + 1))
    case Handler(t, _, _, SharingResult(i), _) =>
      f.(result := if i < ShareLimit(sig, f) then v else f.result, hpc := SharingResult(i + 1))
  }

  function ResultOf(sig: Signature, t: Target, v: Value): Option<Value> {
    if sig.hasResult(t) then Some(v) else None
  }

  /** Written code and callback number of a request. */
  function CodeOf(t: Target): int {
    match t
    case Function(code) => code
    case Callback(_) => 2
  }

  predicate IsWaiting(f: Frame) {
    f.EventLoop? || (f.Client? && f.cpc.Waiting?)
  }

  // ---- the steps -------------------------------------------------------------------------------

  datatype Outcome = Blocked | Step(next: State, event: Event)

  function StoreStep(sig: Signature, c: State, s: Side): Outcome
    requires Sized(c)
  {
    var b := c.bufs[s];
    match Top(c, s)
    case Client(t, args, Storing(i), _) =>
      if i < |args| then
        var b' := b.(data := b.data[i := args[i]]);
        Step(Replaced(c.(bufs := c.bufs[s := b']), s, Top(c, s).(cpc := Storing(i + 1))), Silent)
      else
        Step(Replaced(c, s, Top(c, s).(cpc := StoringTarget)), Silent)
    case Client(t, args, StoringTarget, _) =>
      var b' := if t.Callback? then b.(callback := t.index, code := 2) else b.(code := t.code);
      Step(Replaced(c.(bufs := c.bufs[s := b']), s, Top(c, s).(cpc := Triggering)), Silent)
    case Handler(t, params, v, StoringResult, _) =>
      var b' := if sig.hasResult(t) then b.(data := b.data[0 := v]) else b;
      Step(Replaced(c.(bufs := c.bufs[s := b']), s, Top(c, s).(hpc := StoringCode)), Silent)
    case Handler(t, params, v, StoringCode, _) =>
      Step(Replaced(c.(bufs := c.bufs[s := b.(code := 1)]), s, Top(c, s).(hpc := Responding)), Silent)
    case _ => Blocked
  }

  /** Handing the turn over: `trigger_ipc_call` and the end of the waiting loop's body. */
  function SendTurn(c: State, s: Side): State
    requires Sized(c)
  {
    c.(bufs := c.bufs[s := c.bufs[s].(errno := c.procs[s].errno)],
       sems := c.sems[1 - s := c.sems[1 - s] + 1],
       procs := c.procs[s := c.procs[s].(blocked := true)],
       fault := c.fault || c.procs[s].blocked)
  }

  function ReceiveStep(c: State, s: Side): Outcome
    requires Sized(c)
  {
    if !IsWaiting(Top(c, s)) || c.sems[s] == 0 then Blocked else
    var b := c.bufs[1 - s];
    var d := c.(sems := c.sems[s := c.sems[s] - 1],
                procs := c.procs[s := c.procs[s].(blocked := false, errno := b.errno)],
                fault := c.fault || !c.procs[s].blocked);
    if b.code == 1 then
      match Top(c, s)
      case Client(t, args, _, _) => Step(Replaced(d, s, Top(c, s).(cpc := Collecting)), Silent)
      case _ => Step(d.(fault := true), Silent)
    else if b.code == 2 then
      Step(Pushed(d, s, Handler(Callback(b.callback), [], 0, Loading, 0)), Silent)
    else if b.code > 2 then
      Step(Pushed(d, s, Handler(Function(b.code), [], 0, Loading, 0)), Silent)
    else
      Step(d.(fault := true), Silent)
  }

  function LoadStep(sig: Signature, c: State, s: Side): Outcome
    requires Sized(c)
  {
    match Top(c, s)
    case Handler(t, params, v, Loading, _) =>
      if |params| < sig.arity(t) then
        Step(Replaced(c, s, Top(c, s).(params := params + [Slot(c.bufs[1 - s], |params|)])), Silent)
      else
        Step(Replaced(c, s, Top(c, s).(hpc := Running)), Entered(s, t, params))
    case _ => Blocked
  }

  /** The replacement function returns: its result goes to the user code below it, or completes the
      sharing of a descriptor. */
  function CollectStep(sig: Signature, c: State, s: Side): Outcome
    requires Sized(c)
  {
    match Top(c, s)
    case Client(t, args, Collecting, _) =>
      if Below(c, s) == [] then Blocked else
      var v := Slot(c.bufs[1 - s], 0);
      var d := WithStack(c, s, Below(c, s));
      var f := Top(d, s);
      Step(if IsSharing(f) then Replaced(d, s, Shared(sig, f, v)) else d, Returned(s, ResultOf(sig, t, v)))
    case _ => Blocked
  }

  function FinishSharingStep(sig: Signature, c: State, s: Side): Outcome
    requires Sized(c)
  {
    var f := Top(c, s);
    if !IsSharing(f) || ShareNext(f) < ShareLimit(sig, f) then Blocked else
    match f
    case Client(t, args, _, _) => Step(Replaced(c, s, Top(c, s).(cpc := Storing(0))), Called(s, t, f.passed, args))
    case Handler(t, params, v, _, _) =>
      Step(Replaced(c, s, Top(c, s).(hpc := StoringResult)), Exited(s, f.returned, ResultOf(sig, t, v)))
  }

  /** What side `s` does with action `a`, if it can. */
  function Next(sig: Signature, c: State, s: Side, a: Action): Outcome
    requires Sized(c)
  {
    var f := Top(c, s);
    match a
    case SetErrno(x) =>
      if InUserCode(f) then Step(c.(procs := c.procs[s := c.procs[s].(errno := x)]), ErrnoSet(s, x)) else Blocked
    case Call(t, args) =>
      if InUserCode(f) && |args| == sig.arity(t) && CodeOf(t) >= 2 && (t.Function? ==> t.code > 2)
      then Step(Pushed(c, s, Client(t, args, Sharing(0), args)), Silent) else Blocked
    case ShareCall(t, args) =>
      if && IsSharing(f) && ShareNext(f) < ShareLimit(sig, f)
         && |args| == sig.arity(t) && t.Function? && t.code > 2 && sig.hasResult(t)
      then Step(Pushed(c, s, Client(t, args, Sharing(0), args)), Silent) else Blocked
    case ShareKnown(v) =>
      if IsSharing(f) && ShareNext(f) < ShareLimit(sig, f)
      then Step(Replaced(c, s, Shared(sig, f, v)), Silent) else Blocked
    case FinishSharing => FinishSharingStep(sig, c, s)
    case Store => StoreStep(sig, c, s)
    case Trigger =>
      if f.Client? && f.cpc.Triggering?
      then Step(Replaced(SendTurn(c, s), s, f.(cpc := Waiting)), Silent) else Blocked
    case Receive => ReceiveStep(c, s)
    case Load => LoadStep(sig, c, s)
    case Return(v) =>
      if f.Handler? && f.hpc.Running?
      then Step(Replaced(c, s, f.(result := v, returned := v, hpc := SharingResult(0))), Silent) else Blocked
    case Respond =>
      if f.Handler? && f.hpc.Responding? && |c.procs[s].stack| > 1
      then Step(WithStack(SendTurn(c, s), s, Below(c, s)), Silent) else Blocked
    case Collect => CollectStep(sig, c, s)
  }

  /** After the fork: the program runs, the library waits in its event loop with sending blocked. */
  function Initial(errno: int): State {
    State([Process([Program], errno, false), Process([EventLoop], errno, true)], [0, 0],
          [Buffer(0, 0, 0, map[]), Buffer(0, 0, 0, map[])], false)
  }
}
