/** The controller's tracing state machine: `parent()` in src/cs-trace.c.

    The controller waits on the traced child again and again and, depending
    on each wait status, resumes it with PTRACE_CONT or calls into the
    tracer library. The input is the sequence of values `wstatus` holds after
    each `waitpid` returns, in order. The source ignores waitpid's return
    value, so a failed wait, which leaves `wstatus` as it was, is the previous
    value repeated. The output is the log of calls the controller makes. */
module Tracing {
  import opened Posix

  /** The ptrace event number the first status is compared with. */
  const PTRACE_EVENT_VFORK_DONE: int := 5

  datatype Call =
    | WaitPid(pid: int)                        // a waitpid(pid, &wstatus, 0) that returned
    | PtraceCont(pid: int)                     // ptrace(PTRACE_CONT, pid, NULL, NULL)
    | InitTrace(tracer: int, target: int)      // init_trace(getpid(), pid)
    | StartTrace(target: int, flag: bool)      // start_trace(pid, true)
    | StopTrace(flag: bool)                    // stop_trace(true)
    | FiniTrace                                // fini_trace()
    | SuspendResume                            // trace_suspend_resume_callback()

  datatype Outcome =
    | Finished(status: WaitStatus)   // the loop broke on this exit status
    | Waiting                        // blocked in waitpid: no status is left

  datatype Session = Session(calls: seq<Call>, end: Outcome)

  function Prefix(calls: seq<Call>, s: Session): Session {
    Session(calls + s.calls, s.end)
  }

  /** The calls made on an attach: resume the stopped child, wait for it,
      arm the tracer against it and resume it again. */
  function AttachCalls(self: int, pid: int): seq<Call> {
    [WaitPid(pid), PtraceCont(pid), WaitPid(pid), InitTrace(self, pid), StartTrace(pid, true), PtraceCont(pid)]
  }

  /** The monitoring loop on the statuses `ss`. */
  function Watch(pid: int, ss: seq<WaitStatus>): Session
    decreases |ss|
  {
    if ss == [] then Session([], Waiting)
    else if ss[0].Exited? then Session([WaitPid(pid), StopTrace(true), FiniTrace], Finished(ss[0]))
    else if ss[0] == Stopped(SIGSTOP) then Prefix([WaitPid(pid), SuspendResume], Watch(pid, ss[1..]))
    else Prefix([WaitPid(pid)], Watch(pid, ss[1..]))
  }

  /** Whether the first status starts an attach. */
  predicate AttachesOn(ss: seq<WaitStatus>) {
    |ss| > 0 && ss[0] == Stopped(PTRACE_EVENT_VFORK_DONE)
  }

  /** How many statuses the attach step consumes before the loop. */
  function LoopStart(ss: seq<WaitStatus>): nat {
    if AttachesOn(ss) then 2 else 1
  }

  /** A whole `parent(pid, ...)` run, with `self` for getpid(). */
  function Supervise(self: int, pid: int, ss: seq<WaitStatus>): Session {
    if ss == [] then Session([], Waiting)
    else if AttachesOn(ss) then
      if |ss| == 1 then Session([WaitPid(pid), PtraceCont(pid)], Waiting)
      else Prefix(AttachCalls(self, pid), Watch(pid, ss[2..]))
    else Prefix([WaitPid(pid)], Watch(pid, ss[1..]))
  }

  // ----- Counting -----

  /** How many times `x` occurs in `s`. */
  function Occurrences<T(==)>(s: seq<T>, x: T): nat {
    multiset(s)[x]
  }

  /** Index of the first exited status in `ss`, or |ss| if there is none. */
  function FirstExit(ss: seq<WaitStatus>): (k: nat)
    ensures k <= |ss|
    ensures forall j :: 0 <= j < k ==> !ss[j].Exited?
    ensures k < |ss| ==> ss[k].Exited?
  {
    if ss == [] then 0
    else if ss[0].Exited? then 0
    else 1 + FirstExit(ss[1..])
  }

  /** The monitoring loop ends exactly at the first exited status and reports
      that status; with no exited status it is still waiting. A signaled
      termination therefore never ends it. */
  lemma {:induction false} WatchEnds(pid: int, ss: seq<WaitStatus>)
    ensures Watch(pid, ss).end.Finished? <==> FirstExit(ss) < |ss|
    ensures Watch(pid, ss).end.Finished? ==> Watch(pid, ss).end == Finished(ss[FirstExit(ss)])
    decreases |ss|
  {
    if ss != [] && !ss[0].Exited? {
      WatchEnds(pid, ss[1..]);
    }
  }

  /** One wait per status consumed: up to and including the first exited
      status, or all of them. */
  lemma {:induction false} WatchWaits(pid: int, ss: seq<WaitStatus>)
    ensures Occurrences(Watch(pid, ss).calls, WaitPid(pid))
         == if FirstExit(ss) < |ss| then FirstExit(ss) + 1 else |ss|
    decreases |ss|
  {
    if ss != [] && !ss[0].Exited? {
      var rest := Watch(pid, ss[1..]);
      var head := if ss[0] == Stopped(SIGSTOP) then [WaitPid(pid), SuspendResume] else [WaitPid(pid)];
      WatchWaits(pid, ss[1..]);
      assert Watch(pid, ss).calls == head + rest.calls;
      assert multiset(head + rest.calls) == multiset(head) + multiset(rest.calls);
      assert multiset(head)[WaitPid(pid)] == 1;
    }
  }

  lemma BeforeExitSplit(ss: seq<WaitStatus>)
    requires ss != [] && !ss[0].Exited?
    ensures multiset(ss[..FirstExit(ss)]) == multiset([ss[0]]) + multiset(ss[1..][..FirstExit(ss[1..])])
  {
    var tail := ss[1..];
    var k := FirstExit(tail);
    assert FirstExit(ss) == k + 1;
    assert ss[..k + 1] == [ss[0]] + tail[..k];
  }

  /** One suspend/resume callback per SIGSTOP stop seen before the first
      exited status, and none for any other status. */
  lemma {:induction false} WatchCallbacks(pid: int, ss: seq<WaitStatus>)
    ensures Occurrences(Watch(pid, ss).calls, SuspendResume)
         == Occurrences(ss[..FirstExit(ss)], Stopped(SIGSTOP))
    decreases |ss|
  {
    var k := FirstExit(ss);
    if ss == [] {
    } else if ss[0].Exited? {
      assert ss[..k] == [];
    } else {
      var rest := Watch(pid, ss[1..]);
      WatchCallbacks(pid, ss[1..]);
      BeforeExitSplit(ss);
      if ss[0] == Stopped(SIGSTOP) {
        assert Watch(pid, ss).calls == [WaitPid(pid), SuspendResume] + rest.calls;
        assert multiset(Watch(pid, ss).calls) == multiset([WaitPid(pid), SuspendResume]) + multiset(rest.calls);
      } else {
        assert Watch(pid, ss).calls == [WaitPid(pid)] + rest.calls;
        assert multiset(Watch(pid, ss).calls) == multiset([WaitPid(pid)]) + multiset(rest.calls);
      }
    }
  }

  /** `stop_trace(true)` and `fini_trace()` are each called once if the loop
      ends, and never otherwise. */
  lemma {:induction false} WatchDisarms(pid: int, ss: seq<WaitStatus>)
    ensures Occurrences(Watch(pid, ss).calls, StopTrace(true)) == if Watch(pid, ss).end.Finished? then 1 else 0
    ensures Occurrences(Watch(pid, ss).calls, FiniTrace) == if Watch(pid, ss).end.Finished? then 1 else 0
    decreases |ss|
  {
    if ss != [] && !ss[0].Exited? {
      var rest := Watch(pid, ss[1..]);
      WatchDisarms(pid, ss[1..]);
      var head := if ss[0] == Stopped(SIGSTOP) then [WaitPid(pid), SuspendResume] else [WaitPid(pid)];
      assert Watch(pid, ss).calls == head + rest.calls;
      assert multiset(head + rest.calls) == multiset(head) + multiset(rest.calls);
      assert StopTrace(true) !in head && FiniTrace !in head;
    }
  }

  /** When the loop ends, those two are its last calls, in that order. */
  lemma {:induction false} WatchDisarmsLast(pid: int, ss: seq<WaitStatus>)
    ensures var w := Watch(pid, ss);
            w.end.Finished? ==> |w.calls| >= 3 && w.calls[|w.calls| - 2] == StopTrace(true) && w.calls[|w.calls| - 1] == FiniTrace
    decreases |ss|
  {
    if ss != [] && !ss[0].Exited? {
      WatchDisarmsLast(pid, ss[1..]);
    }
  }

  /** The loop never resumes the child and never arms the tracer. */
  lemma {:induction false} WatchNeverArms(pid: int, ss: seq<WaitStatus>)
    ensures forall c :: c in Watch(pid, ss).calls ==> !c.PtraceCont? && !c.InitTrace? && !c.StartTrace?
    decreases |ss|
  {
    if ss != [] && !ss[0].Exited? {
      WatchNeverArms(pid, ss[1..]);
    }
  }

  /** The attach calls open the run exactly when the first status is a stop
      whose signal equals PTRACE_EVENT_VFORK_DONE and a second status follows. */
  lemma SuperviseAttach(self: int, pid: int, ss: seq<WaitStatus>)
    ensures var s := Supervise(self, pid, ss);
            AttachesOn(ss) && |ss| >= 2 <==> |s.calls| >= 6 && s.calls[..6] == AttachCalls(self, pid)
  {
    var s := Supervise(self, pid, ss);
    if ss != [] && !AttachesOn(ss) && |s.calls| >= 6 {
      var w := Watch(pid, ss[1..]);
      assert s.calls[1] == w.calls[0];
    }
  }

  /** The statuses the monitoring loop sees: those after the attach step. */
  function LoopStatuses(ss: seq<WaitStatus>): seq<WaitStatus> {
    if |ss| >= LoopStart(ss) then ss[LoopStart(ss)..] else []
  }

  /** The calls before the loop: the attach calls, or the first wait. */
  function HeadCalls(self: int, pid: int, ss: seq<WaitStatus>): seq<Call> {
    if AttachesOn(ss) then AttachCalls(self, pid) else [WaitPid(pid)]
  }

  lemma SuperviseSplit(self: int, pid: int, ss: seq<WaitStatus>)
    requires |ss| >= LoopStart(ss)
    ensures Supervise(self, pid, ss).calls == HeadCalls(self, pid, ss) + Watch(pid, LoopStatuses(ss)).calls
    ensures Supervise(self, pid, ss).end == Watch(pid, LoopStatuses(ss)).end
  {
  }

  /** `init_trace` and `start_trace` are each called once, and PTRACE_CONT
      twice, on an attach, and never otherwise. */
  lemma SuperviseArms(self: int, pid: int, ss: seq<WaitStatus>)
    ensures var s := Supervise(self, pid, ss);
            && Occurrences(s.calls, InitTrace(self, pid)) == (if AttachesOn(ss) && |ss| >= 2 then 1 else 0)
            && Occurrences(s.calls, StartTrace(pid, true)) == (if AttachesOn(ss) && |ss| >= 2 then 1 else 0)
            && Occurrences(s.calls, PtraceCont(pid)) == (if !AttachesOn(ss) then 0 else if |ss| >= 2 then 2 else 1)
    ensures !AttachesOn(ss) ==>
              forall c :: c in Supervise(self, pid, ss).calls ==> !c.PtraceCont? && !c.InitTrace? && !c.StartTrace?
  {
    if |ss| >= LoopStart(ss) {
      var head := HeadCalls(self, pid, ss);
      var w := Watch(pid, LoopStatuses(ss));
      SuperviseSplit(self, pid, ss);
      WatchNeverArms(pid, LoopStatuses(ss));
      assert InitTrace(self, pid) !in w.calls;
      assert StartTrace(pid, true) !in w.calls;
      assert PtraceCont(pid) !in w.calls;
      assert multiset(head + w.calls) == multiset(head) + multiset(w.calls);
    } else if ss != [] {
      assert Supervise(self, pid, ss).calls == [WaitPid(pid), PtraceCont(pid)];
    }
  }

  /** A whole run ends only once the loop sees an exited status, and then the
      tracer has been disarmed and finalized exactly once, whether or not it
      was ever armed. */
  lemma SuperviseEnds(self: int, pid: int, ss: seq<WaitStatus>)
    ensures var s := Supervise(self, pid, ss);
            var loop := LoopStatuses(ss);
            && (s.end.Finished? <==> FirstExit(loop) < |loop|)
            && (s.end.Finished? ==> s.end == Finished(loop[FirstExit(loop)]) && s.end.status.Exited?)
            && Occurrences(s.calls, StopTrace(true)) == (if s.end.Finished? then 1 else 0)
            && Occurrences(s.calls, FiniTrace) == (if s.end.Finished? then 1 else 0)
  {
    if |ss| >= LoopStart(ss) {
      var head := HeadCalls(self, pid, ss);
      var w := Watch(pid, LoopStatuses(ss));
      SuperviseSplit(self, pid, ss);
      WatchEnds(pid, LoopStatuses(ss));
      WatchDisarms(pid, LoopStatuses(ss));
      assert multiset(head + w.calls) == multiset(head) + multiset(w.calls);
      assert StopTrace(true) !in head && FiniTrace !in head;
    }
  }

  /** A finished run's last two calls are `stop_trace(true)`, `fini_trace()`. */
  lemma SuperviseDisarmsLast(self: int, pid: int, ss: seq<WaitStatus>)
    ensures var s := Supervise(self, pid, ss);
            s.end.Finished? ==> |s.calls| >= 3 && s.calls[|s.calls| - 2] == StopTrace(true) && s.calls[|s.calls| - 1] == FiniTrace
  {
    if |ss| >= LoopStart(ss) {
      SuperviseSplit(self, pid, ss);
      WatchDisarmsLast(pid, LoopStatuses(ss));
    }
  }

  /** Every SIGSTOP stop the loop sees before the exit produces exactly one
      suspend/resume callback, and nothing else does. */
  lemma SuperviseCallbacks(self: int, pid: int, ss: seq<WaitStatus>)
    ensures Occurrences(Supervise(self, pid, ss).calls, SuspendResume)
         == Occurrences(LoopStatuses(ss)[..FirstExit(LoopStatuses(ss))], Stopped(SIGSTOP))
  {
    if |ss| >= LoopStart(ss) {
      var head := HeadCalls(self, pid, ss);
      var w := Watch(pid, LoopStatuses(ss));
      SuperviseSplit(self, pid, ss);
      WatchCallbacks(pid, LoopStatuses(ss));
      assert multiset(head + w.calls) == multiset(head) + multiset(w.calls);
      assert SuspendResume !in HeadCalls(self, pid, ss);
    }
  }

  lemma PrefixPrefix(a: seq<Call>, b: seq<Call>, s: Session)
    ensures Prefix(a, Prefix(b, s)) == Prefix(a + b, s)
  {
    assert a + (b + s.calls) == (a + b) + s.calls;
  }

  /** The loop's step on the status at index `i`. */
  lemma WatchAt(pid: int, ss: seq<WaitStatus>, i: nat)
    requires i < |ss|
    ensures ss[i].Exited? ==> Watch(pid, ss[i..]) == Session([WaitPid(pid), StopTrace(true), FiniTrace], Finished(ss[i]))
    ensures !ss[i].Exited? ==> Watch(pid, ss[i..]) == Prefix(
              if ss[i] == Stopped(SIGSTOP) then [WaitPid(pid), SuspendResume] else [WaitPid(pid)],
              Watch(pid, ss[i + 1..]))
  {
    assert ss[i..][0] == ss[i];
    assert ss[i..][1..] == ss[i + 1..];
  }

  /** `parent(pid, child_status)`, with `self` for getpid() and `wantStatus`
      for a non-null `child_status`. */
  method Parent(self: int, pid: int, statuses: seq<WaitStatus>, wantStatus: bool)
    returns (calls: seq<Call>, end: Outcome, childStatus: Option<WaitStatus>)
    ensures Session(calls, end) == Supervise(self, pid, statuses)
    ensures end.Finished? ==> end.status.Exited?
    ensures childStatus == if wantStatus && end.Finished? then Some(end.status) else None
  {
    childStatus := None;
    calls := [];
    var i := 0;
    if i == |statuses| {
      end := Waiting;
      return;
    }
    var wstatus := statuses[i];
    i := i + 1;
    calls := calls + [WaitPid(pid)];
    if wstatus.Stopped? && wstatus.sig == PTRACE_EVENT_VFORK_DONE {
      calls := calls + [PtraceCont(pid)];
      if i == |statuses| {
        end := Waiting;
        return;
      }
      wstatus := statuses[i];
      i := i + 1;
      calls := calls + [WaitPid(pid), InitTrace(self, pid), StartTrace(pid, true), PtraceCont(pid)];
    }
    assert i == LoopStart(statuses);
    while true
      invariant LoopStart(statuses) <= i <= |statuses|
      invariant Supervise(self, pid, statuses) == Prefix(calls, Watch(pid, statuses[i..]))
      decreases |statuses| - i
    {
      if i == |statuses| {
        assert calls + [] == calls;
        end := Waiting;
        return;
      }
      wstatus := statuses[i];
      WatchAt(pid, statuses, i);
      if wstatus.Exited? {
        calls := calls + [WaitPid(pid), StopTrace(true), FiniTrace];
        break;
      } else if wstatus.Stopped? && wstatus.sig == SIGSTOP {
        PrefixPrefix(calls, [WaitPid(pid), SuspendResume], Watch(pid, statuses[i + 1..]));
        calls := calls + [WaitPid(pid), SuspendResume];
      } else {
        PrefixPrefix(calls, [WaitPid(pid)], Watch(pid, statuses[i + 1..]));
        calls := calls + [WaitPid(pid)];
      }
      i := i + 1;
    }
    end := Finished(wstatus);
    if wantStatus {
      childStatus := Some(wstatus);
    }
  }
}
