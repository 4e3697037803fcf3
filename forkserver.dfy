/** The fork server injected into the target (libforksrv/libforksrv.c).

    One process's run is a deterministic function of the replies its blocking
    calls (read, write, fork, waitpid) receive, in order. A run produces a log
    of the calls that completed and ends in an `_exit`, in a call still waiting
    for its reply (the replies ran out), or in a return from the server into
    the target (only the forked child does that).

    `Transition` is one step of the server's control flow, `Serve` a whole run;
    `StartForkserver` is the loop as the source writes it, proved equal to
    `Serve`. `Reached` is the invariant every server history keeps, and
    `ServeSound` proves that every run keeps it. */
module ForkServer {
  import opened Posix

  const FORKSRV_FD: int := 198
  /** Read end of the control channel (195): the go tokens arrive here. */
  const AFLCS_FORKSRV_FD: int := FORKSRV_FD - 3
  /** Write end of the status channel (196). */
  const STATUS_FD: int := AFLCS_FORKSRV_FD + 1
  /** Every transfer on either channel is four bytes. */
  const MSG_SIZE: int := 4

  /** A four-byte message on the status channel. */
  datatype Msg =
    | Hello                       // the all-zero handshake
    | ChildPid(pid: int)
    | Relay(status: WaitStatus)   // a raw wait status, passed on

  datatype WaitOption = WContinued | WUntraced

  /** A call that completed. */
  datatype Event =
    | DeathSignal(sig: int)                                  // prctl(PR_SET_PDEATHSIG, sig)
    | Wrote(fd: int, msg: Msg)                               // a full four-byte write
    | TokenRead(fd: int)                                     // a full four-byte read
    | Forked(pid: int)                                       // fork returned pid (0 in the child)
    | Waited(pid: int, option: WaitOption, status: WaitStatus)
    | Raised(sig: int)
    | Closed(fd: int)

  /** The blocking call the server issues next. */
  datatype Pc =
    | Handshake
    | AwaitToken
    | Spawn
    | SendPid(pid: int)
    | AwaitResume(pid: int)
    | SendFirst(pid: int, status: WaitStatus)
    | AwaitStop(pid: int)
    | SendStop(pid: int, status: WaitStatus)

  datatype End =
    | Exit(code: int)     // _exit(code)
    | Blocked(at: Pc)     // waiting in this call: no reply is left
    | Returned            // returned from the server (the child branch)

  datatype Trace = Trace(log: seq<Event>, end: End)

  datatype Next = Continue(pc: Pc) | Halt(end: End)

  datatype Move = Move(events: seq<Event>, next: Next)

  /** The `_exit` code of the step that fails at `pc`. */
  function FailCode(pc: Pc): int {
    match pc
    case Handshake => -1
    case AwaitToken => 1
    case Spawn => 4
    case SendPid(_) => 5
    case AwaitResume(_) => 6
    case SendFirst(_, _) => 7
    case AwaitStop(_) => 8
    case SendStop(_, _) => 9
  }

  /** What the forked child does after fork returns 0, before it returns. */
  const CHILD_TAIL: seq<Event> :=
    [DeathSignal(SIGCONT), Raised(SIGSTOP), Closed(AFLCS_FORKSRV_FD), Closed(STATUS_FD)]

  /** One step: the call at `pc` receives reply `r`. */
  function Transition(pc: Pc, r: SysReply): Move {
    match pc
    case Handshake =>
      if r.ret != MSG_SIZE then Move([], Halt(Exit(FailCode(pc))))
      else Move([Wrote(STATUS_FD, Hello)], Continue(AwaitToken))
    case AwaitToken =>
      if r.ret != MSG_SIZE then Move([], Halt(Exit(FailCode(pc))))
      else Move([TokenRead(AFLCS_FORKSRV_FD)], Continue(Spawn))
    case Spawn =>
      if r.ret < 0 then Move([], Halt(Exit(FailCode(pc))))
      else if r.ret == 0 then Move([Forked(0)] + CHILD_TAIL, Halt(Returned))
      else Move([Forked(r.ret)], Continue(SendPid(r.ret)))
    case SendPid(p) =>
      if r.ret != MSG_SIZE then Move([], Halt(Exit(FailCode(pc))))
      else Move([Wrote(STATUS_FD, ChildPid(p))], Continue(AwaitResume(p)))
    case AwaitResume(p) =>
      if r.ret < 0 then Move([], Halt(Exit(FailCode(pc))))
      else if r.status.Continued? then Move([Waited(p, WContinued, r.status)], Continue(AwaitStop(p)))
      else Move([Waited(p, WContinued, r.status)], Continue(SendFirst(p, r.status)))
    case SendFirst(p, s) =>
      if r.ret != MSG_SIZE then Move([], Halt(Exit(FailCode(pc))))
      else Move([Wrote(STATUS_FD, Relay(s))], Continue(AwaitToken))
    case AwaitStop(p) =>
      if r.ret < 0 then Move([], Halt(Exit(FailCode(pc))))
      else Move([Waited(p, WUntraced, r.status)], Continue(SendStop(p, r.status)))
    case SendStop(p, s) =>
      if r.ret != MSG_SIZE then Move([], Halt(Exit(FailCode(pc))))
      else if s == Stopped(SIGSTOP) then Move([Wrote(STATUS_FD, Relay(s))], Continue(AwaitStop(p)))
      else Move([Wrote(STATUS_FD, Relay(s))], Continue(AwaitToken))
  }

  function Then(pre: seq<Event>, t: Trace): Trace {
    Trace(pre + t.log, t.end)
  }

  /** The run from `pc` on the replies `rs`. */
  function Run(pc: Pc, rs: seq<SysReply>): Trace
    decreases |rs|
  {
    if rs == [] then Trace([], Blocked(pc))
    else
      var m := Transition(pc, rs[0]);
      match m.next
      case Halt(e) => Trace(m.events, e)
      case Continue(q) => Then(m.events, Run(q, rs[1..]))
  }

  /** A whole run of the server: the parent-death signal is set first, then the
      handshake is written. */
  function Serve(rs: seq<SysReply>): Trace {
    Then([DeathSignal(SIGTERM)], Run(Handshake, rs))
  }

  lemma RunStep(pc: Pc, rs: seq<SysReply>, i: nat)
    requires i < |rs|
    ensures var m := Transition(pc, rs[i]);
            Run(pc, rs[i..]) ==
              match m.next
              case Halt(e) => Trace(m.events, e)
              case Continue(q) => Then(m.events, Run(q, rs[i + 1..]))
  {
    assert rs[i..][1..] == rs[i + 1..];
  }

  lemma ThenThen(a: seq<Event>, b: seq<Event>, t: Trace)
    ensures Then(a, Then(b, t)) == Then(a + b, t)
  {
    assert a + (b + t.log) == (a + b) + t.log;
  }

  // ----- What may follow what -----

  /** The event that may come right after `a`. */
  ghost predicate Follows(a: Event, b: Event) {
    match a
    case DeathSignal(sig) =>
      if sig == SIGTERM then b == Wrote(STATUS_FD, Hello) else b == Raised(SIGSTOP)
    case Wrote(_, m) =>
      (match m
       case Hello => b == TokenRead(AFLCS_FORKSRV_FD)
       case ChildPid(p) => b.Waited? && b.pid == p && b.option == WContinued
       case Relay(_) => b == TokenRead(AFLCS_FORKSRV_FD) || (b.Waited? && b.option == WUntraced))
    case TokenRead(_) => b.Forked? && b.pid >= 0
    case Forked(p) =>
      if p == 0 then b == DeathSignal(SIGCONT) else b == Wrote(STATUS_FD, ChildPid(p))
    case Waited(p, opt, s) =>
      if opt == WContinued && s.Continued? then b.Waited? && b.pid == p && b.option == WUntraced
      else b == Wrote(STATUS_FD, Relay(s))
    case Raised(_) => b == Closed(AFLCS_FORKSRV_FD)
    case Closed(fd) => fd == AFLCS_FORKSRV_FD && b == Closed(STATUS_FD)
  }

  /** After a status is observed and relayed: only a SIGSTOP stop seen by the
      inner (WUNTRACED) wait keeps the server waiting on the same child; every
      other relayed status sends it back to the token read. */
  ghost predicate Settles(a: Event, b: Event, c: Event) {
    a.Waited? && b == Wrote(STATUS_FD, Relay(a.status)) ==>
      if a.option == WUntraced && a.status == Stopped(SIGSTOP)
      then c.Waited? && c.pid == a.pid && c.option == WUntraced
      else c == TokenRead(AFLCS_FORKSRV_FD)
  }

  ghost predicate Ordered(log: seq<Event>) {
    && (forall k :: 0 <= k < |log| - 1 ==> Follows(log[k], log[k + 1]))
    && (forall k :: 0 <= k < |log| - 2 ==> Settles(log[k], log[k + 1], log[k + 2]))
  }

  /** The call a server issues next, recovered from the calls it has completed
      (None once the history is the child's, or empty). */
  function Pending(log: seq<Event>): Option<Pc> {
    if |log| == 0 then None
    else
      match log[|log| - 1]
      case DeathSignal(sig) => if sig == SIGTERM then Some(Handshake) else None
      case Wrote(_, m) =>
        (match m
         case Hello => Some(AwaitToken)
         case ChildPid(p) => Some(AwaitResume(p))
         case Relay(s) =>
           if |log| >= 2 && log[|log| - 2].Waited? && log[|log| - 2].option == WUntraced
              && log[|log| - 2].status == s && s == Stopped(SIGSTOP)
           then Some(AwaitStop(log[|log| - 2].pid))
           else Some(AwaitToken))
      case TokenRead(_) => Some(Spawn)
      case Forked(p) => if p > 0 then Some(SendPid(p)) else None
      case Waited(p, opt, s) =>
        if opt == WUntraced then Some(SendStop(p, s))
        else if s.Continued? then Some(AwaitStop(p))
        else Some(SendFirst(p, s))
      case Raised(_) => None
      case Closed(_) => None
  }

  // ----- Counting -----

  datatype Kind = TokenReads | Forks | PidWrites

  predicate IsKind(e: Event, k: Kind) {
    match k
    case TokenReads => e.TokenRead?
    case Forks => e.Forked? && e.pid > 0
    case PidWrites => e.Wrote? && e.msg.ChildPid?
  }

  function Count(log: seq<Event>, k: Kind): nat {
    if log == [] then 0
    else Count(log[..|log| - 1], k) + (if IsKind(log[|log| - 1], k) then 1 else 0)
  }

  lemma CountSnoc(log: seq<Event>, e: Event, k: Kind)
    ensures Count(log + [e], k) == Count(log, k) + (if IsKind(e, k) then 1 else 0)
  {
    assert (log + [e])[..|log|] == log;
  }

  /** Every history a server process can be in: it set its parent-death
      signal first, its calls came in protocol order, `pc` is the call the
      history predicts, it never took the child branch, and each token read
      is matched by one fork and each fork by one pid write, except for the one
      generation under way. */
  ghost predicate Reached(log: seq<Event>, pc: Pc) {
    && |log| > 0 && log[0] == DeathSignal(SIGTERM)
    && Ordered(log)
    && Pending(log) == Some(pc)
    && (forall k :: 0 <= k < |log| ==> log[k] != Forked(0))
    && Count(log, TokenReads) == Count(log, Forks) + (if pc == Spawn then 1 else 0)
    && Count(log, Forks) == Count(log, PidWrites) + (if pc.SendPid? then 1 else 0)
  }

  /** What a run may end in: blocked in the call its history predicts, exited
      with exactly the code of that call, or returned through the child branch
      right after a fork. */
  ghost predicate Sound(t: Trace) {
    match t.end
    case Blocked(pc) => Reached(t.log, pc)
    case Exit(c) =>
      Pending(t.log).Some? && Reached(t.log, Pending(t.log).value) && c == FailCode(Pending(t.log).value)
    case Returned =>
      && |t.log| >= 5
      && Reached(t.log[..|t.log| - 5], Spawn)
      && t.log[|t.log| - 5..] == [Forked(0)] + CHILD_TAIL
      && Ordered(t.log)
  }

  lemma OrderedSnoc(log: seq<Event>, e: Event)
    requires Ordered(log)
    requires |log| >= 1 ==> Follows(log[|log| - 1], e)
    requires |log| >= 2 ==> Settles(log[|log| - 2], log[|log| - 1], e)
    ensures Ordered(log + [e])
  {
    var l := log + [e];
    forall k | 0 <= k < |l| - 1
      ensures Follows(l[k], l[k + 1])
    {
      if k < |log| - 1 {
        assert l[k] == log[k] && l[k + 1] == log[k + 1];
      }
    }
    forall k | 0 <= k < |l| - 2
      ensures Settles(l[k], l[k + 1], l[k + 2])
    {
      if k < |log| - 2 {
        assert l[k] == log[k] && l[k + 1] == log[k + 1] && l[k + 2] == log[k + 2];
      }
    }
  }

  /** Appending one call that the protocol allows after the history keeps
      every part of `Reached` except the predicted call. */
  lemma ExtendBy(log: seq<Event>, pc: Pc, e: Event, q: Pc)
    requires Reached(log, pc)
    requires Follows(log[|log| - 1], e)
    requires |log| >= 2 ==> Settles(log[|log| - 2], log[|log| - 1], e)
    requires e != Forked(0)
    requires Pending(log + [e]) == Some(q)
    requires Count(log, TokenReads) + (if IsKind(e, TokenReads) then 1 else 0)
               == Count(log, Forks) + (if IsKind(e, Forks) then 1 else 0) + (if q == Spawn then 1 else 0)
    requires Count(log, Forks) + (if IsKind(e, Forks) then 1 else 0)
               == Count(log, PidWrites) + (if IsKind(e, PidWrites) then 1 else 0) + (if q.SendPid? then 1 else 0)
    ensures Reached(log + [e], q)
  {
    OrderedSnoc(log, e);
    CountSnoc(log, e, TokenReads);
    CountSnoc(log, e, Forks);
    CountSnoc(log, e, PidWrites);
    var l := log + [e];
    forall k | 0 <= k < |l|
      ensures l[k] != Forked(0)
    {
      if k < |log| {
        assert l[k] == log[k];
      }
    }
  }

  /** One step from a reachable history leads to a reachable history, or ends
      the run the way `Sound` allows. */
  lemma StepKeeps(pre: seq<Event>, pc: Pc, r: SysReply)
    requires Reached(pre, pc)
    ensures var m := Transition(pc, r);
            match m.next
            case Continue(q) => Reached(pre + m.events, q)
            case Halt(e) =>
              || (e.Exit? && m.events == [] && e.code == FailCode(pc))
              || (e.Returned? && pc == Spawn && m.events == [Forked(0)] + CHILD_TAIL
                  && Ordered(pre + m.events))
  {
    var m := Transition(pc, r);
    match m.next
    case Halt(e) =>
      if e.Returned? {
        var l1 := pre + [Forked(0)];
        var l2 := l1 + [DeathSignal(SIGCONT)];
        var l3 := l2 + [Raised(SIGSTOP)];
        var l4 := l3 + [Closed(AFLCS_FORKSRV_FD)];
        var l5 := l4 + [Closed(STATUS_FD)];
        OrderedSnoc(pre, Forked(0));
        OrderedSnoc(l1, DeathSignal(SIGCONT));
        OrderedSnoc(l2, Raised(SIGSTOP));
        OrderedSnoc(l3, Closed(AFLCS_FORKSRV_FD));
        OrderedSnoc(l4, Closed(STATUS_FD));
        assert l5 == pre + m.events;
      }
    case Continue(q) =>
      var e := m.events[0];
      assert m.events == [e];
      match pc
      case Handshake =>
        ExtendBy(pre, pc, e, q);
      case AwaitToken =>
        ExtendBy(pre, pc, e, q);
      case Spawn =>
        ExtendBy(pre, pc, e, q);
      case SendPid(p) =>
        ExtendBy(pre, pc, e, q);
      case AwaitResume(p) =>
        ExtendBy(pre, pc, e, q);
      case SendFirst(p, s) =>
        ExtendBy(pre, pc, e, q);
      case AwaitStop(p) =>
        ExtendBy(pre, pc, e, q);
      case SendStop(p, s) =>
        ExtendBy(pre, pc, e, q);
  }

  lemma {:induction false} RunSound(pre: seq<Event>, pc: Pc, rs: seq<SysReply>)
    requires Reached(pre, pc)
    ensures Sound(Then(pre, Run(pc, rs)))
    decreases |rs|
  {
    if rs == [] {
      assert pre + [] == pre;
    } else {
      var m := Transition(pc, rs[0]);
      StepKeeps(pre, pc, rs[0]);
      match m.next
      case Halt(e) =>
        if e.Exit? {
          assert pre + m.events == pre;
        } else {
          var l := pre + m.events;
          assert l[..|l| - 5] == pre;
          assert l[|l| - 5..] == m.events;
        }
      case Continue(q) =>
        RunSound(pre + m.events, q, rs[1..]);
        ThenThen(pre, m.events, Run(q, rs[1..]));
    }
  }

  /** Every run of the server is sound: its calls come in protocol order, the
      end is the call its history predicts, and an exit code names exactly the
      call that failed. */
  lemma ServeSound(rs: seq<SysReply>)
    ensures Sound(Serve(rs))
  {
    var start := [DeathSignal(SIGTERM)];
    assert Ordered(start);
    assert start[..|start| - 1] == [];
    assert Count(start, TokenReads) == 0 && Count(start, Forks) == 0 && Count(start, PidWrites) == 0;
    RunSound(start, Handshake, rs);
  }

  /** Whenever the server waits for the next go token, it has written exactly
      one child pid per token consumed and per successful fork; at any other
      point it owes at most the pid of the generation under way. */
  lemma TokensMatchPids(rs: seq<SysReply>)
    ensures var t := Serve(rs);
            t.end == Blocked(AwaitToken) ==>
              Count(t.log, PidWrites) == Count(t.log, Forks) == Count(t.log, TokenReads)
    ensures var t := Serve(rs);
            !t.end.Returned? ==>
              Count(t.log, PidWrites) <= Count(t.log, Forks) <= Count(t.log, TokenReads) <= Count(t.log, PidWrites) + 1
  {
    ServeSound(rs);
  }

  /** The server leaves only through `_exit` or by waiting: a run returns to
      its caller exactly when a fork returned 0 to it, that is, in a forked
      child, which then only changes its death signal, stops itself and closes
      both channel descriptors. */
  lemma OnlyChildReturns(rs: seq<SysReply>)
    ensures var t := Serve(rs);
            t.end == Returned <==> Forked(0) in t.log
    ensures var t := Serve(rs);
            t.end == Returned ==>
              |t.log| >= 5 && t.log[|t.log| - 5..] == [Forked(0)] + CHILD_TAIL
              && Forked(0) !in t.log[..|t.log| - 5]
  {
    ServeSound(rs);
    var t := Serve(rs);
    if t.end == Returned {
      assert t.log[|t.log| - 5] == Forked(0);
      var pre := t.log[..|t.log| - 5];
      assert Reached(pre, Spawn);
      assert forall k :: 0 <= k < |pre| ==> pre[k] != Forked(0);
    }
  }

  /** Every run's calls come in protocol order. */
  lemma ServeOrdered(rs: seq<SysReply>)
    ensures Ordered(Serve(rs).log)
  {
    ServeSound(rs);
    var t := Serve(rs);
    if !t.end.Returned? {
      assert Pending(t.log).Some?;
    }
  }

  /** A child that did not reach the continued state has exactly that status
      relayed once, and the server then reads the next go token without
      waiting on the child again. */
  lemma UnresumedRelayedOnce(rs: seq<SysReply>)
    ensures var log := Serve(rs).log;
            forall k :: 0 <= k < |log| - 1 && log[k].Waited? && log[k].option == WContinued && !log[k].status.Continued? ==>
              log[k + 1] == Wrote(STATUS_FD, Relay(log[k].status))
              && (k + 2 < |log| ==> log[k + 2] == TokenRead(AFLCS_FORKSRV_FD))
  {
    ServeOrdered(rs);
    var log := Serve(rs).log;
    forall k | 0 <= k < |log| - 1 && log[k].Waited? && log[k].option == WContinued && !log[k].status.Continued?
      ensures log[k + 1] == Wrote(STATUS_FD, Relay(log[k].status))
      ensures k + 2 < |log| ==> log[k + 2] == TokenRead(AFLCS_FORKSRV_FD)
    {
      assert Follows(log[k], log[k + 1]);
      if k + 2 < |log| {
        assert Settles(log[k], log[k + 1], log[k + 2]);
      }
    }
  }

  /** In the inner loop every observed status is relayed right away; after a
      SIGSTOP stop the server waits on the same child again, and after any
      other status (an exit, a kill, a stop by another signal) it reads the
      next go token. */
  lemma InnerLoopRelays(rs: seq<SysReply>)
    ensures var log := Serve(rs).log;
            forall k :: 0 <= k < |log| - 1 && log[k].Waited? && log[k].option == WUntraced ==>
              log[k + 1] == Wrote(STATUS_FD, Relay(log[k].status))
              && (k + 2 < |log| ==>
                    if log[k].status == Stopped(SIGSTOP)
                    then log[k + 2].Waited? && log[k + 2].pid == log[k].pid && log[k + 2].option == WUntraced
                    else log[k + 2] == TokenRead(AFLCS_FORKSRV_FD))
  {
    ServeOrdered(rs);
    var log := Serve(rs).log;
    forall k | 0 <= k < |log| - 1 && log[k].Waited? && log[k].option == WUntraced
      ensures log[k + 1] == Wrote(STATUS_FD, Relay(log[k].status))
      ensures k + 2 < |log| ==>
                if log[k].status == Stopped(SIGSTOP)
                then log[k + 2].Waited? && log[k + 2].pid == log[k].pid && log[k + 2].option == WUntraced
                else log[k + 2] == TokenRead(AFLCS_FORKSRV_FD)
    {
      assert Follows(log[k], log[k + 1]);
      if k + 2 < |log| {
        assert Settles(log[k], log[k + 1], log[k + 2]);
      }
    }
  }

  /** The handshake comes first and only once: a short first write exits with
      -1 having done nothing but set the death signal; otherwise the second
      call is the write of the handshake on the status channel, and no later
      call writes it again. */
  lemma HandshakeFirst(rs: seq<SysReply>)
    ensures var t := Serve(rs); |t.log| >= 1 && t.log[0] == DeathSignal(SIGTERM)
    ensures |rs| > 0 && rs[0].ret != MSG_SIZE ==> Serve(rs) == Trace([DeathSignal(SIGTERM)], Exit(-1))
    ensures var t := Serve(rs);
            |rs| > 0 && rs[0].ret == MSG_SIZE ==> |t.log| >= 2 && t.log[1] == Wrote(STATUS_FD, Hello)
    ensures var t := Serve(rs);
            forall k :: 2 <= k < |t.log| ==> !(t.log[k].Wrote? && t.log[k].msg.Hello?)
  {
    ServeOrdered(rs);
    var t := Serve(rs);
    forall k | 2 <= k < |t.log|
      ensures !(t.log[k].Wrote? && t.log[k].msg.Hello?)
    {
      assert t.log[k - 1] != DeathSignal(SIGTERM) by {
        assert Follows(t.log[k - 2], t.log[k - 1]);
      }
      assert Follows(t.log[k - 1], t.log[k]);
    }
  }

  lemma Advance(log: seq<Event>, pc: Pc, rs: seq<SysReply>, i: nat)
    requires i < |rs| && Transition(pc, rs[i]).next.Continue?
    ensures Then(log, Run(pc, rs[i..]))
              == Then(log + Transition(pc, rs[i]).events, Run(Transition(pc, rs[i]).next.pc, rs[i + 1..]))
  {
    RunStep(pc, rs, i);
    var m := Transition(pc, rs[i]);
    ThenThen(log, m.events, Run(m.next.pc, rs[i + 1..]));
  }

  lemma Fail(log: seq<Event>, pc: Pc, rs: seq<SysReply>, i: nat)
    requires i < |rs| && Transition(pc, rs[i]).next.Halt?
    ensures Then(log, Run(pc, rs[i..])) == Trace(log + Transition(pc, rs[i]).events, Transition(pc, rs[i]).next.end)
  {
    RunStep(pc, rs, i);
  }

  lemma Stall(log: seq<Event>, pc: Pc, rs: seq<SysReply>, i: nat)
    requires i == |rs|
    ensures Then(log, Run(pc, rs[i..])) == Trace(log, Blocked(pc))
  {
    assert rs[i..] == [];
    assert log + [] == log;
  }

  /** `__cs_start_forkserver`: the server loop as the source writes it, one
      reply consumed per blocking call. */
  method StartForkserver(replies: seq<SysReply>) returns (log: seq<Event>, end: End)
    ensures Trace(log, end) == Serve(replies)
  {
    log := [DeathSignal(SIGTERM)];
    var i := 0;
    assert replies[i..] == replies;
    if i == |replies| {
      Stall(log, Handshake, replies, i);
      end := Blocked(Handshake);
      return;
    }
    if replies[i].ret != MSG_SIZE {
      Fail(log, Handshake, replies, i);
      end := Exit(-1);
      return;
    }
    Advance(log, Handshake, replies, i);
    log := log + [Wrote(STATUS_FD, Hello)];
    i := i + 1;
    while true
      invariant 0 <= i <= |replies|
      invariant Serve(replies) == Then(log, Run(AwaitToken, replies[i..]))
      decreases |replies| - i
    {
      // Read the go token; a short read means the controller is gone.
      if i == |replies| {
        Stall(log, AwaitToken, replies, i);
        end := Blocked(AwaitToken);
        return;
      }
      if replies[i].ret != MSG_SIZE {
        Fail(log, AwaitToken, replies, i);
        end := Exit(1);
        return;
      }
      Advance(log, AwaitToken, replies, i);
      log := log + [TokenRead(AFLCS_FORKSRV_FD)];
      i := i + 1;

      var stopped;
      i, log, stopped := Generation(replies, i, log);
      if stopped.Some? {
        end := stopped.value;
        return;
      }
    }
  }

  /** One pass of the outer loop after the go token is read: fork, report
      the pid, wait for the child to resume, and relay its statuses. Either
      the server exits, blocks or is the new child (`stopped` is that end of
      the run), or it has consumed replies up to `i'` and reads the next
      token. */
  method Generation(replies: seq<SysReply>, i: nat, log: seq<Event>)
    returns (i': nat, log': seq<Event>, stopped: Option<End>)
    requires i <= |replies|
    ensures i <= i' <= |replies|
    ensures stopped.Some? ==> Then(log, Run(Spawn, replies[i..])) == Trace(log', stopped.value)
    ensures stopped.None? ==> Then(log, Run(Spawn, replies[i..])) == Then(log', Run(AwaitToken, replies[i'..]))
  {
    i', log' := i, log;
    if i' == |replies| {
      Stall(log', Spawn, replies, i');
      return i', log', Some(Blocked(Spawn));
    }
    var childPid := replies[i'].ret;
    if childPid < 0 {
      Fail(log', Spawn, replies, i');
      return i', log', Some(Exit(4));
    }
    if childPid == 0 {
      // The new generation: wait for the tracer, drop both channels and
      // run the target.
      Fail(log', Spawn, replies, i');
      ghost var before := log';
      log' := log' + [Forked(0), DeathSignal(SIGCONT), Raised(SIGSTOP),
                      Closed(AFLCS_FORKSRV_FD), Closed(AFLCS_FORKSRV_FD + 1)];
      assert log' == before + ([Forked(0)] + CHILD_TAIL);
      return i', log', Some(Returned);
    }
    Advance(log', Spawn, replies, i');
    log' := log' + [Forked(childPid)];
    i' := i' + 1;

    if i' == |replies| {
      Stall(log', SendPid(childPid), replies, i');
      return i', log', Some(Blocked(SendPid(childPid)));
    }
    if replies[i'].ret != MSG_SIZE {
      Fail(log', SendPid(childPid), replies, i');
      return i', log', Some(Exit(5));
    }
    Advance(log', SendPid(childPid), replies, i');
    log' := log' + [Wrote(STATUS_FD, ChildPid(childPid))];
    i' := i' + 1;

    // Wait until SIGCONT is signalled.
    if i' == |replies| {
      Stall(log', AwaitResume(childPid), replies, i');
      return i', log', Some(Blocked(AwaitResume(childPid)));
    }
    if replies[i'].ret < 0 {
      Fail(log', AwaitResume(childPid), replies, i');
      return i', log', Some(Exit(6));
    }
    Advance(log', AwaitResume(childPid), replies, i');
    var status := replies[i'].status;
    log' := log' + [Waited(childPid, WContinued, status)];
    i' := i' + 1;
    if !status.Continued? {
      // Relay the status of a child that never resumed, and serve the next
      // token.
      if i' == |replies| {
        Stall(log', SendFirst(childPid, status), replies, i');
        return i', log', Some(Blocked(SendFirst(childPid, status)));
      }
      if replies[i'].ret != MSG_SIZE {
        Fail(log', SendFirst(childPid, status), replies, i');
        return i', log', Some(Exit(7));
      }
      Advance(log', SendFirst(childPid, status), replies, i');
      log' := log' + [Wrote(STATUS_FD, Relay(status))];
      i' := i' + 1;
      return i', log', None;
    }

    i', log', stopped := MonitorChild(childPid, replies, i', log');
  }

  /** The inner loop of `__cs_start_forkserver`: relay every status of a
      resumed child until one is not a SIGSTOP stop. Either the server exits
      or blocks inside the loop (`stopped` is that end of the run), or it
      leaves the loop having consumed replies up to `i'` and goes back to
      reading a token. */
  method MonitorChild(childPid: int, replies: seq<SysReply>, i: nat, log: seq<Event>)
    returns (i': nat, log': seq<Event>, stopped: Option<End>)
    requires i <= |replies|
    ensures i <= i' <= |replies|
    ensures stopped.Some? ==> Then(log, Run(AwaitStop(childPid), replies[i..])) == Trace(log', stopped.value)
    ensures stopped.None? ==>
              Then(log, Run(AwaitStop(childPid), replies[i..])) == Then(log', Run(AwaitToken, replies[i'..]))
  {
    i', log' := i, log;
    while true
      invariant i <= i' <= |replies|
      invariant Then(log, Run(AwaitStop(childPid), replies[i..])) == Then(log', Run(AwaitStop(childPid), replies[i'..]))
      decreases |replies| - i'
    {
      if i' == |replies| {
        Stall(log', AwaitStop(childPid), replies, i');
        return i', log', Some(Blocked(AwaitStop(childPid)));
      }
      if replies[i'].ret < 0 {
        Fail(log', AwaitStop(childPid), replies, i');
        return i', log', Some(Exit(8));
      }
      Advance(log', AwaitStop(childPid), replies, i');
      var status := replies[i'].status;
      log' := log' + [Waited(childPid, WUntraced, status)];
      i' := i' + 1;

      // Relay the status.
      if i' == |replies| {
        Stall(log', SendStop(childPid, status), replies, i');
        return i', log', Some(Blocked(SendStop(childPid, status)));
      }
      if replies[i'].ret != MSG_SIZE {
        Fail(log', SendStop(childPid, status), replies, i');
        return i', log', Some(Exit(9));
      }
      Advance(log', SendStop(childPid, status), replies, i');
      log' := log' + [Wrote(STATUS_FD, Relay(status))];
      i' := i' + 1;
      if !(status.Stopped? && status.sig == SIGSTOP) {
        // The child has exited (or stopped for another reason).
        return i', log', None;
      }
    }
  }

  /** Where the hooked start routine leaves the process. */
  datatype Start =
    | TargetMain              // calls the original __libc_start_main
    | ServerExit(code: int)
    | ServerBlocked(at: Pc)

  /** The `__libc_start_main` hook: fork-server mode when CS_FORKSERVER is
      set, otherwise one self-stop before the target runs. */
  method LibcStartMain(env: Env, replies: seq<SysReply>) returns (log: seq<Event>, start: Start)
    ensures Getenv(env, "CS_FORKSERVER").None? ==> log == [Raised(SIGSTOP)] && start == TargetMain
    ensures Getenv(env, "CS_FORKSERVER").Some? ==>
              var t := Serve(replies);
              && log == t.log
              && (start == TargetMain <==> t.end == Returned)
              && (t.end.Exit? ==> start == ServerExit(t.end.code))
              && (t.end.Blocked? ==> start == ServerBlocked(t.end.at))
    ensures start == TargetMain <==> Getenv(env, "CS_FORKSERVER").None? || Forked(0) in log
  {
    if Getenv(env, "CS_FORKSERVER").Some? {
      var end;
      log, end := StartForkserver(replies);
      OnlyChildReturns(replies);
      match end
      case Returned => start := TargetMain;
      case Exit(code) => start := ServerExit(code);
      case Blocked(pc) => start := ServerBlocked(pc);
    } else {
      log := [Raised(SIGSTOP)];
      start := TargetMain;
    }
  }
}
