/** The descriptor tables of the two processes. Each maps its own descriptors to the other side's;
    a descriptor is passed over a socket when it is first shared, and closing one end closes both. */
module FdTables {

  const NOTSET := -1
  const MAXFD := 256

  /** One process: its table, who shared each entry (0 is this process), and the kernel's view, which
      open file each descriptor denotes. */
  datatype Ends = Ends(table: seq<int>, pids: seq<int>, open: map<int, nat>, pid: nat)

  ghost predicate Sized(a: Ends) {
    |a.table| == MAXFD && |a.pids| == MAXFD && a.pid > 0
  }

  predicate InTable(fd: int) {
    0 <= fd < MAXFD
  }

  /** Descriptor `fd` of `a` and what its table entry says about `b`. */
  ghost predicate Paired(a: Ends, b: Ends, fd: int)
    requires Sized(a) && Sized(b) && InTable(fd)
  {
    var r := a.table[fd];
    r == NOTSET ||
    (&& InTable(r) && b.table[r] == fd
     && fd in a.open && r in b.open && a.open[fd] == b.open[r]
     && (a.pids[fd] == 0 || a.pids[fd] == b.pid))
  }

  /** The tables are mutually inverse partial injections, and matched descriptors are open and denote
      the same file. */
  ghost predicate Matched(a: Ends, b: Ends) {
    && Sized(a) && Sized(b)
    && (forall fd :: InTable(fd) ==> Paired(a, b, fd))
    && (forall fd :: InTable(fd) ==> Paired(b, a, fd))
  }

  /** Right after the fork: the standard descriptors are open and matched to themselves. */
  ghost predicate Initial(a: Ends, b: Ends) {
    && Sized(a) && Sized(b)
    && (forall fd :: InTable(fd) ==>
          a.table[fd] == b.table[fd] == (if fd < 3 then fd else NOTSET) && a.pids[fd] == b.pids[fd] == 0)
    && forall fd :: 0 <= fd < 3 ==> fd in a.open && fd in b.open && a.open[fd] == b.open[fd]
  }

  lemma InitialMatched(a: Ends, b: Ends)
    requires Initial(a, b)
    ensures Matched(a, b)
  {
  }

  // ---- sharing -----------------------------------------------------------------------------------

  /** What the receiver makes of a descriptor that arrived as its own `local`. */
  function Received(b: Ends, local: int, remote: int, pid: int, file: nat): Ends
    requires |b.table| == |b.pids| == MAXFD && InTable(local)
  {
    b.(table := b.table[local := remote], pids := b.pids[local := pid], open := b.open[local := file])
  }

  function Recorded(a: Ends, fd: int, remote: int): Ends
    requires |a.table| == |a.pids| == MAXFD && InTable(fd)
  {
    a.(table := a.table[fd := remote], pids := a.pids[fd := 0])
  }

  /** `mapToOtherSide(fd)`: the descriptor the other side uses, and both processes afterwards. `sent`
      says whether the kernel took the descriptor, `got` which one it gave the receiver. */
  function Share(a: Ends, b: Ends, fd: int, sent: bool, got: int): (int, Ends, Ends)
    requires |a.table| == |a.pids| == |b.table| == |b.pids| == MAXFD && InTable(fd)
    requires sent ==> fd in a.open && InTable(got)
  {
    if a.table[fd] != NOTSET then (a.table[fd], a, b)
    else if !sent then (fd, a, b)
    else (got, Recorded(a, fd, got), Received(b, got, fd, a.pid, a.open[fd]))
  }

  /** The kernel sends only open descriptors and hands out only unused ones. */
  ghost predicate KernelSends(a: Ends, b: Ends, fd: int, sent: bool, got: int) {
    sent ==> fd in a.open && InTable(got) && got !in b.open
  }

  lemma UnusedIsUnset(a: Ends, b: Ends, fd: int)
    requires Matched(a, b) && InTable(fd) && fd !in b.open
    ensures b.table[fd] == NOTSET
    ensures forall d :: InTable(d) ==> a.table[d] != fd
  {
  }

  lemma ShareKeepsMatched(a: Ends, b: Ends, fd: int, sent: bool, got: int)
    requires Matched(a, b) && InTable(fd) && KernelSends(a, b, fd, sent, got)
    ensures var (r, a', b') := Share(a, b, fd, sent, got); Matched(a', b')
  {
    var (r, a', b') := Share(a, b, fd, sent, got);
    if a.table[fd] == NOTSET && sent {
      UnusedIsUnset(a, b, got);
      forall d | InTable(d)
        ensures Paired(a', b', d) && Paired(b', a', d)
      {
        assert Paired(a, b, d) && Paired(b, a, d) && Paired(a, b, fd);
      }
    }
  }

  /** What `mapToOtherSide` is for: unless the kernel refused, the answer denotes the same open file
      on the other side; sharing it again gives the same answer, and sharing the answer back from
      the other side gives the descriptor itself, all without a further message. */
  lemma ShareRoundTrip(a: Ends, b: Ends, fd: int, sent: bool, got: int)
    requires Matched(a, b) && InTable(fd) && KernelSends(a, b, fd, sent, got) && (sent || a.table[fd] != NOTSET)
    ensures var (r, a', b') := Share(a, b, fd, sent, got);
            && InTable(r) && fd in a'.open && r in b'.open && a'.open[fd] == b'.open[r] == a.open[fd]
            && Share(a', b', fd, false, 0) == (r, a', b')
            && Share(b', a', r, false, 0) == (fd, b', a')
  {
  }

  /** The three outcomes: a known descriptor costs nothing; one that the kernel refuses is answered with
      itself and changes nothing; otherwise the answer is what the receiver got, the sender notes no pid
      and the receiver the sender's, and every other descriptor of either side keeps entry, pid and
      file. */
  lemma ShareOutcomes(a: Ends, b: Ends, fd: int, sent: bool, got: int)
    requires Matched(a, b) && InTable(fd) && KernelSends(a, b, fd, sent, got)
    ensures var (r, a', b') := Share(a, b, fd, sent, got);
            if a.table[fd] != NOTSET || !sent
            then a' == a && b' == b && r == if a.table[fd] != NOTSET then a.table[fd] else fd
            else && r == got && a'.table[fd] == got && b'.table[got] == fd
                 && a'.pids[fd] == 0 && b'.pids[got] == a.pid && a'.open == a.open
                 && got in b'.open && b'.open[got] == a.open[fd]
                 && KeepsOthers(a, a', fd) && KeepsOthers(b, b', got)
  {
  }

  /** Every descriptor but `fd` keeps its entry, its pid and its file. */
  ghost predicate KeepsOthers(a: Ends, a': Ends, fd: int) {
    && a'.pid == a.pid && |a'.table| == |a.table| && |a'.pids| == |a.pids|
    && (forall d :: 0 <= d < |a.table| && d != fd ==> a'.table[d] == a.table[d])
    && (forall d :: 0 <= d < |a.pids| && d != fd ==> a'.pids[d] == a.pids[d])
    && (forall d :: d != fd ==> (d in a'.open <==> d in a.open))
    && (forall d :: d != fd && d in a.open && d in a'.open ==> a'.open[d] == a.open[d])
  }

  // ---- closing -----------------------------------------------------------------------------------

  /** The entry of `fd` cleared. */
  function Cleared(a: Ends, fd: int): Ends
    requires |a.table| == MAXFD
  {
    if InTable(fd) then a.(table := a.table[fd := NOTSET]) else a
  }

  /** `internal_close_fd` on the receiving side. */
  function ClosedHere(b: Ends, fd: int): Ends
    requires |b.table| == MAXFD
  {
    Cleared(b, fd).(open := b.open - {fd})
  }

  /** `close(fd)` on side `a`, and how many calls crossed to the other side. */
  function Close(a: Ends, b: Ends, fd: int): (Ends, Ends, nat)
    requires |a.table| == |b.table| == MAXFD && fd < MAXFD
  {
    var closed := a.(open := a.open - {fd});
    if fd >= 0 && a.table[fd] != NOTSET then (Cleared(closed, fd), ClosedHere(b, a.table[fd]), 1)
    else (closed, b, 0)
  }

  /** Whether the receiver complains that someone else should have been asked to close. */
  predicate Complains(b: Ends, fd: int, openedBy: int) {
    fd >= 0 && openedBy > 0 && openedBy != b.pid
  }

  lemma CloseKeepsMatched(a: Ends, b: Ends, fd: int)
    requires Matched(a, b) && fd < MAXFD
    ensures var (a', b', calls) := Close(a, b, fd); Matched(a', b')
  {
    var (a', b', calls) := Close(a, b, fd);
    forall d | InTable(d)
      ensures Paired(a', b', d) && Paired(b', a', d)
    {
      assert Paired(a, b, d) && Paired(b, a, d);
      assert fd >= 0 ==> Paired(a, b, fd) && Paired(b, a, fd);
    }
  }

  /** Closing a shared descriptor closes and unmaps both ends with one call and no echo, nobody
      complains, and every other descriptor of either side keeps its entry and its file. Closing any
      other descriptor does not involve the other side. */
  lemma CloseClosesBothEnds(a: Ends, b: Ends, fd: int)
    requires Matched(a, b) && fd < MAXFD
    ensures var (a', b', calls) := Close(a, b, fd);
            && fd !in a'.open
            && (forall d :: d != fd ==> (d in a'.open <==> d in a.open) && (d in a.open ==> a'.open[d] == a.open[d]))
            && (forall d :: InTable(d) && d != fd ==> a'.table[d] == a.table[d])
            && (fd >= 0 ==> a'.table[fd] == NOTSET)
            && if fd >= 0 && a.table[fd] != NOTSET
               then var r := a.table[fd];
                    && calls == 1 && InTable(r) && r !in b'.open && b'.table[r] == NOTSET
                    && !Complains(b, r, a.pids[fd])
                    && (forall d :: d != r ==>
                          (d in b'.open <==> d in b.open) && (d in b.open ==> b'.open[d] == b.open[d]))
                    && (forall d :: InTable(d) && d != r ==> b'.table[d] == b.table[d])
               else calls == 0 && b' == b
    ensures var (a', b', calls) := Close(a, b, fd); a'.pid == a.pid && b'.pid == b.pid
  {
  }

  // ---- whole runs --------------------------------------------------------------------------------

  datatype Op =
    | ShareFd(fromProgram: bool, fd: int, sent: bool, got: int)
    | CloseFd(fromProgram: bool, fd: int)
    | OpenFd(fromProgram: bool, fd: int, file: nat)

  datatype State = State(program: Ends, library: Ends)

  function Opened(a: Ends, fd: int, file: nat): Ends {
    a.(open := a.open[fd := file])
  }

  lemma OpenKeepsMatched(a: Ends, b: Ends, fd: int, file: nat)
    requires Matched(a, b) && fd !in a.open
    ensures Matched(Opened(a, fd, file), b)
  {
  }

  function Ours(s: State, fromProgram: bool): Ends {
    if fromProgram then s.program else s.library
  }

  function With(fromProgram: bool, ours: Ends, theirs: Ends): State {
    if fromProgram then State(ours, theirs) else State(theirs, ours)
  }

  ghost predicate Legal(s: State, op: Op) {
    var a, b := Ours(s, op.fromProgram), Ours(s, !op.fromProgram);
    Sized(a) && Sized(b) &&
    match op
    case ShareFd(_, fd, sent, got) => InTable(fd) && KernelSends(a, b, fd, sent, got)
    case CloseFd(_, fd) => fd < MAXFD
    case OpenFd(_, fd, _) => fd !in a.open
  }

  ghost function Step(s: State, op: Op): State
    requires Legal(s, op)
  {
    var a, b := Ours(s, op.fromProgram), Ours(s, !op.fromProgram);
    match op
    case ShareFd(side, fd, sent, got) => var (_, a', b') := Share(a, b, fd, sent, got); With(side, a', b')
    case CloseFd(side, fd) => var (a', b', _) := Close(a, b, fd); With(side, a', b')
    case OpenFd(side, fd, file) => With(side, Opened(a, fd, file), b)
  }

  ghost predicate LegalRun(s: State, ops: seq<Op>)
    decreases |ops|
  {
    ops == [] || (Legal(s, ops[0]) && LegalRun(Step(s, ops[0]), ops[1..]))
  }

  ghost function After(s: State, ops: seq<Op>): State
    requires LegalRun(s, ops)
    decreases |ops|
  {
    if ops == [] then s else After(Step(s, ops[0]), ops[1..])
  }

  lemma StepKeepsMatched(s: State, op: Op)
    requires Matched(s.program, s.library) && Legal(s, op)
    ensures var t := Step(s, op); Matched(t.program, t.library)
  {
    var a, b := Ours(s, op.fromProgram), Ours(s, !op.fromProgram);
    match op
    case ShareFd(_, fd, sent, got) => ShareKeepsMatched(a, b, fd, sent, got);
    case CloseFd(_, fd) => CloseKeepsMatched(a, b, fd);
    case OpenFd(_, fd, file) => OpenKeepsMatched(a, b, fd, file);
  }

  /** Each step touches its own side and at most one descriptor of each side: the one named, and on the
      other side the one that is received or closed along. An opened descriptor denotes its file. */
  lemma StepTouches(s: State, op: Op)
    requires Matched(s.program, s.library) && Legal(s, op)
    ensures var t := Step(s, op);
            var (a, b, a', b') := if op.fromProgram then (s.program, s.library, t.program, t.library)
                                  else (s.library, s.program, t.library, t.program);
            && KeepsOthers(a, a', op.fd)
            && (op.OpenFd? ==> b' == b && op.fd in a'.open && a'.open[op.fd] == op.file)
            && (op.ShareFd? ==> a'.open == a.open && KeepsOthers(b, b', op.got))
            && (op.CloseFd? ==> op.fd !in a'.open)
            && (op.CloseFd? && op.fd >= 0 && a.table[op.fd] != NOTSET ==> KeepsOthers(b, b', a.table[op.fd]))
            && (op.CloseFd? && (op.fd < 0 || a.table[op.fd] == NOTSET) ==> b' == b)
  {
  }

  /** Every run of shares, closes and opens from either side leaves the tables matched. */
  lemma {:induction false} RunKeepsMatched(s: State, ops: seq<Op>)
    requires Matched(s.program, s.library) && LegalRun(s, ops)
    ensures var t := After(s, ops); Matched(t.program, t.library)
    decreases |ops|
  {
    if ops != [] {
      StepKeepsMatched(s, ops[0]);
      RunKeepsMatched(Step(s, ops[0]), ops[1..]);
    }
  }

  // ---- the processes -----------------------------------------------------------------------------

  /** One process with its `FileDescriptorMapping`; `open` is the kernel's descriptor table. */
  class Process {
    const pid: nat
    const localToRemoteFd: array<int>
    const localToRemotePid: array<int>
    var open: map<int, nat>

    ghost function View(): Ends
      reads this, localToRemoteFd, localToRemotePid
    {
      Ends(localToRemoteFd[..], localToRemotePid[..], open, pid)
    }

    ghost predicate Shaped() {
      localToRemoteFd.Length == localToRemotePid.Length == MAXFD && localToRemoteFd != localToRemotePid
    }

    ghost predicate Apart(peer: Process) {
      && Shaped() && peer.Shaped() && peer != this
      && {localToRemoteFd, localToRemotePid} !! {peer.localToRemoteFd, peer.localToRemotePid}
    }

    constructor (pid: nat, open: map<int, nat>)
      requires pid > 0
      ensures Shaped() && fresh(localToRemoteFd) && fresh(localToRemotePid) && Sized(View())
      ensures this.pid == pid && this.open == open
      ensures forall fd :: InTable(fd) ==>
                localToRemoteFd[fd] == (if fd < 3 then fd else NOTSET) && localToRemotePid[fd] == 0
    {
      this.pid := pid;
      this.open := open;
      localToRemoteFd := new int[MAXFD](i => NOTSET);
      localToRemotePid := new int[MAXFD](i => 0);
      new;
      localToRemoteFd[0] := 0;
      localToRemoteFd[1] := 1;
      localToRemoteFd[2] := 2;
    }

    /** `fromOtherSide`, the kernel having delivered `file` as `localFd`. */
    method FromOtherSide(remoteFd: int, fromPid: int, localFd: int, file: nat)
      requires Shaped() && InTable(localFd)
      modifies this, localToRemoteFd, localToRemotePid
      ensures View() == Received(old(View()), localFd, remoteFd, fromPid, file)
    {
      open := open[localFd := file];
      localToRemoteFd[localFd] := remoteFd;
      localToRemotePid[localFd] := fromPid;
    }

    method MapToOtherSide(peer: Process, fd: int, sent: bool, got: int) returns (r: int)
      requires Apart(peer) && InTable(fd) && (sent ==> fd in open && InTable(got))
      modifies this, localToRemoteFd, localToRemotePid, peer, peer.localToRemoteFd, peer.localToRemotePid
      ensures (r, View(), peer.View()) == Share(old(View()), old(peer.View()), fd, sent, got)
    {
      if localToRemoteFd[fd] != NOTSET {
        return localToRemoteFd[fd];
      }
      if !sent {
        return fd;
      }
      peer.FromOtherSide(fd, pid, got, open[fd]);
      localToRemoteFd[fd] := got;
      localToRemotePid[fd] := 0;
      return got;
    }

    /** The call to `onCloseLocal`, which clears the entry and asks the other side to close its end
        only if it may propagate. */
    method OnCloseLocal(peer: Process, fd: int, propagate: bool) returns (calls: nat, complaint: bool)
      requires Apart(peer) && fd < MAXFD
      requires propagate && fd >= 0 && localToRemoteFd[fd] != NOTSET ==> InTable(localToRemoteFd[fd])
      modifies this, localToRemoteFd, peer, peer.localToRemoteFd
      ensures View() == Cleared(old(View()), fd)
      ensures if propagate && fd >= 0 && old(localToRemoteFd[fd]) != NOTSET
              then && peer.View() == ClosedHere(old(peer.View()), old(localToRemoteFd[fd])) && calls == 1
                   && complaint == Complains(old(peer.View()), old(localToRemoteFd[fd]), old(localToRemotePid[fd]))
              else peer.View() == old(peer.View()) && calls == 0 && !complaint
      decreases if propagate then 2 else 0
    {
      calls, complaint := 0, false;
      if fd >= 0 && localToRemoteFd[fd] != NOTSET {
        var remoteFd := localToRemoteFd[fd];
        localToRemoteFd[fd] := NOTSET;
        if propagate {
          calls, complaint := peer.InternalCloseFd(this, remoteFd, localToRemotePid[fd]);
          calls := calls + 1;
        }
      }
      assert fd >= 0 ==> localToRemoteFd[..] == old(localToRemoteFd[..])[fd := NOTSET];
    }

    method InternalCloseFd(peer: Process, localFd: int, openedBy: int) returns (calls: nat, complaint: bool)
      requires Apart(peer) && InTable(localFd)
      modifies this, localToRemoteFd, peer, peer.localToRemoteFd
      ensures View() == ClosedHere(old(View()), localFd) && peer.View() == old(peer.View())
      ensures calls == 0 && (complaint <==> openedBy > 0 && openedBy != pid)
      decreases 1
    {
      complaint := localFd >= 0 && openedBy > 0 && openedBy != pid;
      var nested;
      calls, nested := OnCloseLocal(peer, localFd, false);
      open := open - {localFd};
    }

    /** The wrapped `close`. */
    method CloseFile(peer: Process, fd: int) returns (calls: nat, complaint: bool)
      requires Apart(peer) && fd < MAXFD && Matched(View(), peer.View())
      modifies this, localToRemoteFd, peer, peer.localToRemoteFd
      ensures (View(), peer.View(), calls) == Close(old(View()), old(peer.View()), fd)
      ensures !complaint && Matched(View(), peer.View())
    {
      CloseClosesBothEnds(View(), peer.View(), fd);
      CloseKeepsMatched(View(), peer.View(), fd);
      assert fd >= 0 ==> Paired(View(), peer.View(), fd);
      open := open - {fd};
      ghost var table := localToRemoteFd[..];
      calls, complaint := OnCloseLocal(peer, fd, true);
      assert fd >= 0 && table[fd] == NOTSET ==> table[fd := NOTSET] == table;
    }
  }
}
