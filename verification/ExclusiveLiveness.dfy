/**
 The exclusive section never gets stuck.  Leaving aside new calls and spurious wake-ups, every step
 decreases a measure, and as long as some thread is inside the protocol some step is enabled; so
 every schedule brings every thread back outside, without any fairness assumption.
 */
module ExclusiveLiveness {
  import opened ExclusiveSection
  import opened ExclusiveSafety

  /** The steps that work off calls already made: no new call, no spurious wake-up. */
  predicate Closing(a: Action) {
    a.Proceed? || a.Visit?
  }

  ghost predicate ClosingStep(s: State, s': State) {
    exists t, a :: Closing(a) && Enabled(s, t, a) && s' == Apply(s, t, a)
  }

  ghost predicate ClosingRun(r: seq<State>) {
    && |r| > 0
    && forall i :: 0 <= i < |r| - 1 ==> ClosingStep(r[i], r[i + 1])
  }

  ghost predicate CanClose(s: State) {
    exists t, a :: Closing(a) && Enabled(s, t, a)
  }

  ghost predicate AllOutside(s: State) {
    forall t :: 0 <= t < |s.cpus| ==> s.cpus[t].pc.Outside?
  }

  // --- Deadlock freedom ---

  lemma UnblockedSteps(s: State, o: Owner, t: CpuId)
    requires InvFor(s, o) && t < |s.cpus| && !s.cpus[t].pc.Outside? && !Asleep(s.cpus[t].pc)
    requires WantsLock(s.cpus[t].pc) ==> s.lock.Free?
    ensures exists a :: Closing(a) && Enabled(s, t, a)
  {
    var pc := s.cpus[t].pc;
    Know(s, o, t);
    if pc.StartScan? && exists c :: c in pc.todo && c < |s.cpus| {
      var c :| c in pc.todo && c < |s.cpus|;
      assert Enabled(s, t, Visit(c));
    } else {
      assert Enabled(s, t, Proceed);
    }
  }

  lemma SleeperHasHelper(s: State, o: Owner, t: CpuId) returns (h: CpuId)
    requires InvFor(s, o) && s.lock.Free? && t < |s.cpus| && Asleep(s.cpus[t].pc)
    ensures h < |s.cpus| && !s.cpus[h].pc.Outside? && !Asleep(s.cpus[h].pc)
  {
    Know(s, o, t);
    assert o.By?;
    Know(s, o, o.id);
    if s.cpus[o.id].pc.StartWaitSleep? && !s.cpus[o.id].pc.ownerWoken {
      assert Awaited(s) != {};
      h :| h in Awaited(s);
      Know(s, o, h);
    } else {
      h := o.id;
    }
  }

  /** While some thread is inside the protocol, some thread can take a closing step. */
  lemma DeadlockFree(s: State)
    requires Inv(s) && !AllOutside(s)
    ensures CanClose(s)
  {
    var o :| InvFor(s, o);
    var t :| 0 <= t < |s.cpus| && !s.cpus[t].pc.Outside?;
    var h := t;
    if s.lock.HeldBy? {
      h := s.lock.holder;
      Know(s, o, h);
    } else if Asleep(s.cpus[t].pc) {
      h := SleeperHasHelper(s, o, t);
    }
    UnblockedSteps(s, o, h);
    var a :| Closing(a) && Enabled(s, h, a);
  }

  // --- Termination of every schedule ---

  /** An upper bound on the closing steps a thread still takes, for n CPUs. */
  function Rank(c: Cpu, n: nat): nat {
    PointRank(c.pc, c.depth, n)
  }

  function PointRank(pc: Pc, depth: nat, n: nat): nat {
    match pc
    case Outside => 0
    case EndUnlock => 1
    case EndSignal => 2 * n + 2
    case EndDecrement => 2 * n + 3
    case EndClearWaiter => 2 * n + 4
    case EndCheckWaiter => 2 * n + 5
    case EndLock => 2 * n + 6
    case EndReadPending => 2 * n + 7
    case Executing => 2 * n + 8
    case ExecUnlock => 2 * n + 9
    case ExecSetRunning => 2 * n + 10
    case ExecIdleSleep(w) => 2 * n + (if w then 13 else 11)
    case ExecIdleTest => 2 * n + 12
    case ExecClearRunning => 2 * n + 13
    case ExecCheckWaiter => 2 * n + 14
    case ExecLock => 2 * n + 15
    case ExecReadPending => 2 * n + 16
    case FinishUnlock => 1
    case FinishBroadcast => 2 * n + 2
    case FinishReset => 2 * n + 3
    case FinishLock => 2 * n + 4
    case Exclusive => 2 * n + 5 + depth
    case StartEnter => 2 * n + 7
    case StartUnlock => 2 * n + 8
    case StartWaitSleep(w) => 2 * n + (if w then 11 else 9)
    case StartWaitTest => 2 * n + 10
    case StartPublish(_) => 2 * n + 11
    case StartScan(todo, _) => 2 * n + 12 + 2 * |todo|
    case StartMark(todo, _, _) => 2 * n + 11 + 2 * |todo|
    case StartClaim => 4 * n + 13
    case StartIdleSleep(w) => 4 * n + (if w then 16 else 14)
    case StartIdleTest => 4 * n + 15
    case StartLock => 4 * n + 16
  }

  function Total(cpus: seq<Cpu>, n: nat): nat {
    if cpus == [] then 0 else Total(cpus[..|cpus| - 1], n) + Rank(cpus[|cpus| - 1], n)
  }

  function Measure(s: State): nat {
    Total(s.cpus, |s.cpus|)
  }

  lemma {:induction false} TotalUpdate(cpus: seq<Cpu>, n: nat, t: CpuId, c: Cpu)
    requires t < |cpus|
    ensures Total(cpus[t := c], n) + Rank(cpus[t], n) == Total(cpus, n) + Rank(c, n)
  {
    var last := |cpus| - 1;
    if t < last {
      TotalUpdate(cpus[..last], n, t, c);
      assert cpus[t := c][..last] == cpus[..last][t := c];
    } else {
      assert cpus[t := c][..last] == cpus[..last];
    }
  }

  lemma {:induction false} TotalGrowsBy(cpus: seq<Cpu>, cpus': seq<Cpu>, n: nat)
    requires |cpus| == |cpus'|
    requires forall i :: 0 <= i < |cpus| ==> Rank(cpus'[i], n) <= Rank(cpus[i], n) + 2
    ensures Total(cpus', n) <= Total(cpus, n) + 2 * |cpus|
  {
    if cpus != [] {
      TotalGrowsBy(cpus[..|cpus| - 1], cpus'[..|cpus| - 1], n);
    }
  }

  lemma {:induction false} IdsBelow(ids: set<CpuId>, n: nat)
    requires forall i :: i in ids ==> i < n
    ensures |ids| <= n
  {
    if n == 0 {
      assert ids == {};
    } else {
      IdsBelow(ids - {n - 1}, n - 1);
      if n - 1 in ids {
        assert ids == (ids - {n - 1}) + {n - 1};
      } else {
        assert ids == ids - {n - 1};
      }
    }
  }

  /** A step that only replaces thread t, by one of smaller rank. */
  lemma OneThreadDecreases(s: State, s': State, t: CpuId, c: Cpu)
    requires t < |s.cpus| && s'.cpus == s.cpus[t := c]
    requires Rank(c, |s.cpus|) < Rank(s.cpus[t], |s.cpus|)
    ensures Measure(s') < Measure(s)
  {
    TotalUpdate(s.cpus, |s.cpus|, t, c);
  }

  lemma ExecDecreases(s: State, t: CpuId)
    requires Enabled(s, t, Proceed) && IsExecPoint(s.cpus[t].pc)
    ensures Measure(StepExec(s, t)) < Measure(s)
  {
    var s' := StepExec(s, t);
    OneThreadDecreases(s, s', t, s'.cpus[t]);
  }

  lemma EndDecreases(s: State, t: CpuId)
    requires Enabled(s, t, Proceed) && IsEndPoint(s.cpus[t].pc) && !s.cpus[t].pc.EndSignal?
    ensures Measure(StepEnd(s, t)) < Measure(s)
  {
    var s' := StepEnd(s, t);
    OneThreadDecreases(s, s', t, s'.cpus[t]);
  }

  lemma SignalDecreases(s: State, t: CpuId)
    requires t < |s.cpus| && s.cpus[t].pc.EndSignal?
    ensures Measure(StepEnd(s, t)) < Measure(s)
  {
    var n := |s.cpus|;
    var woken := if s.pending == 1 then WakeOwner(s.cpus) else s.cpus;
    TotalGrowsBy(s.cpus, woken, n);
    TotalUpdate(woken, n, t, woken[t].(pc := EndUnlock));
  }

  lemma WaitingDecreases(s: State, t: CpuId)
    requires Enabled(s, t, Proceed)
    requires s.cpus[t].pc.StartLock? || s.cpus[t].pc.StartIdleTest? || s.cpus[t].pc.StartIdleSleep?
      || s.cpus[t].pc.StartScan?
    ensures Measure(StepStart(s, t)) < Measure(s)
  {
    var s' := StepStart(s, t);
    OneThreadDecreases(s, s', t, s'.cpus[t]);
  }

  lemma PublishedDecreases(s: State, t: CpuId)
    requires Enabled(s, t, Proceed)
    requires s.cpus[t].pc.StartPublish? || s.cpus[t].pc.StartWaitTest? || s.cpus[t].pc.StartWaitSleep?
      || s.cpus[t].pc.StartUnlock? || s.cpus[t].pc.StartEnter?
    ensures Measure(StepStart(s, t)) < Measure(s)
  {
    var s' := StepStart(s, t);
    OneThreadDecreases(s, s', t, s'.cpus[t]);
  }

  lemma StartDecreases(s: State, t: CpuId)
    requires Enabled(s, t, Proceed) && IsStartPoint(s.cpus[t].pc)
    requires !s.cpus[t].pc.StartMark? && !s.cpus[t].pc.StartClaim?
    ensures Measure(StepStart(s, t)) < Measure(s)
  {
    if s.cpus[t].pc.StartLock? || s.cpus[t].pc.StartIdleTest? || s.cpus[t].pc.StartIdleSleep?
        || s.cpus[t].pc.StartScan? {
      WaitingDecreases(s, t);
    } else {
      PublishedDecreases(s, t);
    }
  }

  lemma ClaimDecreases(s: State, t: CpuId)
    requires t < |s.cpus| && s.cpus[t].pc.StartClaim?
    ensures Measure(StepStart(s, t)) < Measure(s)
  {
    IdsBelow(AllIds(s), |s.cpus|);
    OneThreadDecreases(s, StepStart(s, t), t, s.cpus[t].(pc := StartScan(AllIds(s), 0)));
  }

  /** Being marked as waited for does not change what a thread has left to do. */
  lemma MarkedTotal(cpus: seq<Cpu>, n: nat, v: CpuId)
    requires v < |cpus|
    ensures Total(cpus[v := cpus[v].(hasWaiter := true)], n) == Total(cpus, n)
  {
    TotalUpdate(cpus, n, v, cpus[v].(hasWaiter := true));
  }

  lemma OneLess(todo: set<CpuId>, v: CpuId)
    requires v in todo
    ensures |todo - {v}| == |todo| - 1
  {
  }

  lemma MarkDecreases(s: State, t: CpuId)
    requires Enabled(s, t, Proceed) && s.cpus[t].pc.StartMark? && s.cpus[t].pc.victim in s.cpus[t].pc.todo
    ensures Measure(StepStart(s, t)) < Measure(s)
  {
    var v := s.cpus[t].pc.victim;
    var marked := s.(cpus := s.cpus[v := s.cpus[v].(hasWaiter := true)]);
    MarkedTotal(s.cpus, |s.cpus|, v);
    OneLess(s.cpus[t].pc.todo, v);
    OneThreadDecreases(marked, StepStart(s, t), t,
      marked.cpus[t].(pc := StartScan(s.cpus[t].pc.todo - {v}, s.cpus[t].pc.count + 1)));
  }

  lemma FinishDecreases(s: State, t: CpuId)
    requires t < |s.cpus|
    requires (s.cpus[t].pc.Exclusive? || s.cpus[t].pc.FinishLock? || s.cpus[t].pc.FinishReset?
      || s.cpus[t].pc.FinishUnlock?)
    requires s.cpus[t].pc.Exclusive? ==> s.cpus[t].depth > 0
    ensures Measure(StepFinish(s, t)) < Measure(s)
  {
    var s' := StepFinish(s, t);
    OneThreadDecreases(s, s', t, s'.cpus[t]);
  }

  lemma WokenGrowsBy(cpus: seq<Cpu>, n: nat)
    ensures Total(WakeResume(cpus), n) <= Total(cpus, n) + 2 * |cpus|
  {
    TotalGrowsBy(cpus, WakeResume(cpus), n);
  }

  lemma BroadcastDecreases(s: State, t: CpuId)
    requires t < |s.cpus| && s.cpus[t].pc.FinishBroadcast?
    ensures Measure(StepFinish(s, t)) < Measure(s)
  {
    var n := |s.cpus|;
    var woken := WakeResume(s.cpus);
    WokenGrowsBy(s.cpus, n);
    TotalUpdate(woken, n, t, woken[t].(pc := FinishUnlock));
  }

  lemma VisitDecreases(s: State, t: CpuId, v: CpuId)
    requires Enabled(s, t, Visit(v))
    ensures Measure(Apply(s, t, Visit(v))) < Measure(s)
  {
    var s' := Apply(s, t, Visit(v));
    var todo := s.cpus[t].pc.todo;
    assert |todo - {v}| == |todo| - 1;
    OneThreadDecreases(s, s', t, s'.cpus[t]);
  }

  lemma ClosingDecreases(s: State, t: CpuId, a: Action)
    requires Inv(s) && Closing(a) && Enabled(s, t, a)
    ensures Measure(Apply(s, t, a)) < Measure(s)
  {
    var o :| InvFor(s, o);
    Know(s, o, t);
    var pc := s.cpus[t].pc;
    if a.Visit? {
      VisitDecreases(s, t, a.c);
    } else if IsExecPoint(pc) {
      ExecDecreases(s, t);
    } else if IsEndPoint(pc) {
      if pc.EndSignal? { SignalDecreases(s, t); } else { EndDecreases(s, t); }
    } else if IsStartPoint(pc) {
      if pc.StartMark? { MarkDecreases(s, t); }
      else if pc.StartClaim? { ClaimDecreases(s, t); }
      else { StartDecreases(s, t); }
    } else if pc.FinishBroadcast? {
      BroadcastDecreases(s, t);
    } else {
      FinishDecreases(s, t);
    }
  }

  /** Every closing schedule is finite: it has at most Measure steps. */
  lemma {:induction false} ClosingRunIsBounded(r: seq<State>)
    requires ClosingRun(r) && Inv(r[0])
    ensures Inv(r[|r| - 1])
    ensures |r| - 1 + Measure(r[|r| - 1]) <= Measure(r[0])
  {
    if |r| > 1 {
      var p := r[..|r| - 1];
      assert forall i :: 0 <= i < |p| ==> p[i] == r[i];
      ClosingRunIsBounded(p);
      assert ClosingStep(r[|r| - 2], r[|r| - 1]);
      var t, a :| Closing(a) && Enabled(r[|r| - 2], t, a) && r[|r| - 1] == Apply(r[|r| - 2], t, a);
      StepInv(r[|r| - 2], t, a);
      ClosingDecreases(r[|r| - 2], t, a);
    }
  }

  /**
   From every reachable state, a closing schedule that cannot be extended has brought every call of
   start_exclusive, end_exclusive, cpu_exec_start and cpu_exec_end to its return.
   */
  lemma EveryCallReturns(history: seq<State>, r: seq<State>)
    requires Run(history) && Init(history[0])
    requires ClosingRun(r) && r[0] == history[|history| - 1]
    ensures |r| - 1 <= Measure(r[0])
    ensures AllOutside(r[|r| - 1]) || CanClose(r[|r| - 1])
  {
    RunInv(history);
    ClosingRunIsBounded(r);
    if !AllOutside(r[|r| - 1]) {
      DeadlockFree(r[|r| - 1]);
    }
  }
}
