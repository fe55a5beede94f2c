/**
 What every step of the exclusive-section protocol keeps, and the safety theorems over whole runs:
 mutual exclusion of exclusive sections, exclusion of guest execution, and no lost wake-up.
 */
module ExclusiveSafety {
  import opened ExclusiveSection

  /** The thread between its claim and its reset of `pending_cpus`, if there is one. */
  datatype Owner = Nobody | By(id: CpuId)

  function Awaited(s: State): set<CpuId> {
    set i {:trigger s.cpus[i]} | 0 <= i < |s.cpus| && s.cpus[i].hasWaiter
  }

  ghost predicate HolderAt(s: State, pc: Pc) {
    s.lock.HeldBy? && s.lock.holder < |s.cpus| && s.cpus[s.lock.holder].pc == pc
  }

  /** 1 while the lock holder has cleared its `has_waiter` but not yet decremented the count. */
  ghost function InFlight(s: State): nat {
    if HolderAt(s, EndDecrement) then 1 else 0
  }

  // --- The invariant, one concern at a time ---

  /** What a CPU's own fields promise at each program point. */
  ghost predicate FieldsInv(c: Cpu) {
    && (c.running <==> MarkedRunning(c.pc))
    && (c.depth > 0 <==> c.pc.Exclusive?)
    && (c.hasWaiter ==> MayBeAwaited(c.pc))
    && (c.pc.EndClearWaiter? ==> c.hasWaiter)
  }

  /** What a program point promises about the count, because of a test made under the lock. */
  ghost predicate PointInv(c: Cpu, pending: int) {
    && (c.pc.StartClaim? || c.pc.ExecSetRunning? || c.pc.FinishBroadcast? || c.pc.FinishUnlock? ==> pending == 0)
    && (c.pc.ExecUnlock? && !c.hasWaiter ==> pending == 0)
    && (c.pc.EndDecrement? ==> pending >= 2)
    && (c.pc.EndSignal? ==> pending >= 1)
  }

  /** Nobody sleeps through the wake-up meant for it. */
  ghost predicate SleepInv(s: State, c: Cpu) {
    && ((c.pc.ExecIdleSleep? && !c.pc.execWoken) || (c.pc.StartIdleSleep? && !c.pc.startWoken) ==>
      s.pending != 0 || HolderAt(s, FinishBroadcast))
    && ((c.pc.StartWaitSleep? && !c.pc.ownerWoken) ==> s.pending > 1 || HolderAt(s, EndSignal))
  }

  ghost predicate CpuInv(s: State, o: Owner, t: CpuId)
    requires t < |s.cpus|
  {
    var c := s.cpus[t];
    && (HoldsLock(c.pc) <==> s.lock == HeldBy(t))
    && (Owns(c.pc) <==> o == By(t))
    && FieldsInv(c)
    && PointInv(c, s.pending)
    && SleepInv(s, c)
    && (c.hasWaiter ==> o.By?)
  }

  /** The owner's bookkeeping: whom it has counted, and who may still be executing. */
  ghost predicate OwnerInv(s: State, t: CpuId)
    requires t < |s.cpus|
  {
    var pc := s.cpus[t].pc;
    && (Scanning(pc) || pc.StartPublish? ==> s.pending == 1 && pc.count == |Awaited(s)|)
    && (Scanning(pc) ==> forall c :: 0 <= c < |s.cpus| && s.cpus[c].hasWaiter ==> c !in pc.todo)
    && (Scanning(pc) ==> forall c :: c in pc.todo ==> c < |s.cpus|)
    && (pc.StartMark? ==> pc.victim in pc.todo && pc.victim < |s.cpus| && MayBeAwaited(s.cpus[pc.victim].pc))
    && (forall c :: 0 <= c < |s.cpus| && InExec(s.cpus[c].pc) && !(Scanning(pc) && c in pc.todo) ==>
      s.cpus[c].hasWaiter)
    && (Published(pc) ==> s.pending == 1 + |Awaited(s)| + InFlight(s))
    && (Granted(pc) ==> s.pending == 1)
  }

  ghost predicate InvFor(s: State, o: Owner) {
    && s.pending >= 0
    && (s.pending != 0 <==> o.By?)
    && (s.lock.HeldBy? ==> s.lock.holder < |s.cpus|)
    && (forall t :: 0 <= t < |s.cpus| ==> CpuInv(s, o, t))
    && (o.By? ==> o.id < |s.cpus| && OwnerInv(s, o.id))
  }

  ghost predicate Inv(s: State) {
    exists o :: InvFor(s, o)
  }

  lemma Know(s: State, o: Owner, t: CpuId)
    requires InvFor(s, o) && t < |s.cpus|
    ensures CpuInv(s, o, t)
  {
  }

  lemma InitInv(s: State)
    requires Init(s)
    ensures Inv(s)
  {
    assert InvFor(s, Nobody);
  }

  // --- Counting awaited CPUs ---

  lemma AwaitedSame(s: State, s': State)
    requires |s.cpus| == |s'.cpus|
    requires forall i :: 0 <= i < |s.cpus| ==> s.cpus[i].hasWaiter == s'.cpus[i].hasWaiter
    ensures Awaited(s) == Awaited(s')
  {
  }

  lemma AwaitedGains(s: State, s': State, v: CpuId)
    requires |s.cpus| == |s'.cpus| && v < |s.cpus| && !s.cpus[v].hasWaiter && s'.cpus[v].hasWaiter
    requires forall i :: 0 <= i < |s.cpus| && i != v ==> s.cpus[i].hasWaiter == s'.cpus[i].hasWaiter
    ensures |Awaited(s')| == |Awaited(s)| + 1
  {
    assert Awaited(s') == Awaited(s) + {v};
  }

  // --- Steps of threads other than the owner ---

  predicate Quiet(pc: Pc) {
    !pc.EndDecrement? && !pc.EndSignal? && !pc.FinishBroadcast?
  }

  /** From s to s' only thread t moves; it keeps, takes or gives up the lock; the count stays. */
  ghost predicate OnlyMoves(s: State, t: CpuId, s': State) {
    && t < |s.cpus| && |s'.cpus| == |s.cpus|
    && s'.pending == s.pending
    && (forall u :: 0 <= u < |s.cpus| && u != t ==> s'.cpus[u] == s.cpus[u])
    && s'.cpus[t].hasWaiter == s.cpus[t].hasWaiter
    && FieldsInv(s'.cpus[t])
    && (HoldsLock(s'.cpus[t].pc) <==> s'.lock == HeldBy(t))
    && (s'.lock == s.lock || (s.lock == Free && s'.lock == HeldBy(t)) || (s.lock == HeldBy(t) && s'.lock == Free))
    && Quiet(s.cpus[t].pc) && Quiet(s'.cpus[t].pc)
  }

  /** A step of a thread that does not own the section, seen from its own program points. */
  ghost predicate CanMove(s: State, t: CpuId, s': State) {
    && OnlyMoves(s, t, s')
    && var c, c' := s.cpus[t], s'.cpus[t];
       && !Owns(c.pc) && !Owns(c'.pc)
       && PointInv(c', s.pending)
       && ((c'.pc.ExecIdleSleep? && !c'.pc.execWoken) || (c'.pc.StartIdleSleep? && !c'.pc.startWoken) ==>
         s.pending != 0)
       && (InExec(c'.pc) ==> InExec(c.pc) || c'.hasWaiter || s.pending == 0)
       && (MayBeAwaited(c.pc) ==> MayBeAwaited(c'.pc) || s.pending == 0 || s.lock == HeldBy(t))
  }

  lemma ExecEntryCanMove(s: State, o: Owner, t: CpuId)
    requires Enabled(s, t, Proceed) && CpuInv(s, o, t) && (s.cpus[t].pc.ExecReadPending? || s.cpus[t].pc.ExecLock?)
    ensures CanMove(s, t, StepExec(s, t))
  {
  }

  lemma ExecCheckCanMove(s: State, o: Owner, t: CpuId)
    requires Enabled(s, t, Proceed) && CpuInv(s, o, t)
    requires s.cpus[t].pc.ExecCheckWaiter? || s.cpus[t].pc.ExecClearRunning?
    ensures CanMove(s, t, StepExec(s, t))
  {
  }

  lemma ExecIdleCanMove(s: State, o: Owner, t: CpuId)
    requires Enabled(s, t, Proceed) && CpuInv(s, o, t) && (s.cpus[t].pc.ExecIdleTest? || s.cpus[t].pc.ExecIdleSleep?)
    ensures CanMove(s, t, StepExec(s, t))
  {
  }

  lemma ExecExitCanMove(s: State, o: Owner, t: CpuId)
    requires Enabled(s, t, Proceed) && CpuInv(s, o, t) && (s.cpus[t].pc.ExecSetRunning? || s.cpus[t].pc.ExecUnlock?)
    ensures CanMove(s, t, StepExec(s, t))
  {
  }

  predicate IsEndEntry(pc: Pc) {
    pc.Executing? || pc.EndReadPending? || pc.EndLock?
  }

  lemma EndEntryCanMove(s: State, o: Owner, t: CpuId)
    requires Enabled(s, t, Proceed) && CpuInv(s, o, t) && IsEndEntry(s.cpus[t].pc)
    requires s.pending != 0 <==> o.By?
    ensures CanMove(s, t, StepEnd(s, t))
  {
    if s.cpus[t].pc.Executing? {
      LeaveCanMove(s, o, t);
    } else if s.cpus[t].pc.EndReadPending? {
      ReadPendingCanMove(s, o, t);
    } else {
      EndLockCanMove(s, o, t);
    }
  }

  lemma LeaveCanMove(s: State, o: Owner, t: CpuId)
    requires Enabled(s, t, Proceed) && CpuInv(s, o, t) && s.cpus[t].pc.Executing?
    requires s.pending != 0 <==> o.By?
    ensures CanMove(s, t, StepEnd(s, t))
  {
  }

  lemma ReadPendingCanMove(s: State, o: Owner, t: CpuId)
    requires Enabled(s, t, Proceed) && CpuInv(s, o, t) && s.cpus[t].pc.EndReadPending?
    requires s.pending != 0 <==> o.By?
    ensures CanMove(s, t, StepEnd(s, t))
  {
  }

  lemma EndLockCanMove(s: State, o: Owner, t: CpuId)
    requires Enabled(s, t, Proceed) && CpuInv(s, o, t) && s.cpus[t].pc.EndLock?
    ensures CanMove(s, t, StepEnd(s, t))
  {
  }

  lemma EndExitCanMove(s: State, o: Owner, t: CpuId)
    requires Enabled(s, t, Proceed) && CpuInv(s, o, t) && (s.cpus[t].pc.EndCheckWaiter? || s.cpus[t].pc.EndUnlock?)
    ensures CanMove(s, t, StepEnd(s, t))
  {
  }

  lemma StartCanMove(s: State, o: Owner, t: CpuId)
    requires Enabled(s, t, Proceed) && CpuInv(s, o, t)
    requires s.cpus[t].pc.StartLock? || s.cpus[t].pc.StartIdleTest? || s.cpus[t].pc.StartIdleSleep?
    ensures CanMove(s, t, StepStart(s, t))
  {
  }

  lemma UnlockCanMove(s: State, o: Owner, t: CpuId)
    requires Enabled(s, t, Proceed) && CpuInv(s, o, t) && s.cpus[t].pc.FinishUnlock?
    ensures CanMove(s, t, StepFinish(s, t))
  {
  }

  lemma ChoiceCanMove(s: State, o: Owner, t: CpuId, a: Action)
    requires Enabled(s, t, a) && CpuInv(s, o, t) && !Owns(s.cpus[t].pc) && a != Proceed
    ensures CanMove(s, t, Apply(s, t, a))
  {
  }

  lemma MoveInv(s: State, o: Owner, t: CpuId, s': State)
    requires InvFor(s, o) && CanMove(s, t, s')
    ensures InvFor(s', o)
  {
    Know(s, o, t);
    forall u | 0 <= u < |s'.cpus| ensures CpuInv(s', o, u) {
      Know(s, o, u);
    }
    if o.By? {
      MoveOwnerInv(s, o, t, s');
    }
  }

  lemma MoveOwnerInv(s: State, o: Owner, t: CpuId, s': State)
    requires InvFor(s, o) && CanMove(s, t, s') && o.By?
    ensures OwnerInv(s', o.id)
  {
    AwaitedSame(s, s');
    Know(s, o, t);
    Know(s, o, o.id);
    assert s'.cpus[o.id] == s.cpus[o.id];
  }

  // --- Steps of cpu_exec_end that the owner waits for ---

  lemma ClearWaiterInv(s: State, o: Owner, t: CpuId)
    requires InvFor(s, o) && t < |s.cpus| && s.cpus[t].pc.EndClearWaiter?
    ensures InvFor(StepEnd(s, t), o)
  {
    var s' := StepEnd(s, t);
    Know(s, o, t);
    Know(s, o, o.id);
    AwaitedGains(s', s, t);
    forall u | 0 <= u < |s'.cpus| ensures CpuInv(s', o, u) {
      Know(s, o, u);
    }
  }

  lemma DecrementInv(s: State, o: Owner, t: CpuId)
    requires InvFor(s, o) && t < |s.cpus| && s.cpus[t].pc.EndDecrement?
    ensures InvFor(StepEnd(s, t), o)
  {
    var s' := StepEnd(s, t);
    AwaitedSame(s, s');
    Know(s, o, t);
    Know(s, o, o.id);
    forall u | 0 <= u < |s'.cpus| ensures CpuInv(s', o, u) {
      Know(s, o, u);
    }
  }

  lemma SignalCpu(s: State, o: Owner, t: CpuId, u: CpuId)
    requires t < |s.cpus| && s.cpus[t].pc.EndSignal? && CpuInv(s, o, t)
    requires u < |s.cpus| && CpuInv(s, o, u)
    ensures CpuInv(StepEnd(s, t), o, u)
  {
    var s' := StepEnd(s, t);
    assert s'.cpus[u].pc ==
      (if u == t then EndUnlock else if s.pending == 1 then Woken(s.cpus[u].pc) else s.cpus[u].pc);
  }

  function Woken(pc: Pc): Pc {
    if (pc.StartWaitSleep? && !pc.ownerWoken) then StartWaitSleep(true) else pc
  }

  lemma SignalInv(s: State, o: Owner, t: CpuId)
    requires InvFor(s, o) && t < |s.cpus| && s.cpus[t].pc.EndSignal?
    ensures InvFor(StepEnd(s, t), o)
  {
    var s' := StepEnd(s, t);
    AwaitedSame(s, s');
    Know(s, o, t);
    forall u | 0 <= u < |s'.cpus| ensures CpuInv(s', o, u) {
      Know(s, o, u);
      SignalCpu(s, o, t, u);
    }
    SignalOwnerInv(s, o, t);
  }

  lemma SignalOwnerInv(s: State, o: Owner, t: CpuId)
    requires InvFor(s, o) && t < |s.cpus| && s.cpus[t].pc.EndSignal? && o.By?
    ensures OwnerInv(StepEnd(s, t), o.id)
  {
    var s' := StepEnd(s, t);
    AwaitedSame(s, s');
    Know(s, o, t);
    Know(s, o, o.id);
    assert forall c :: 0 <= c < |s.cpus| ==> InExec(s'.cpus[c].pc) == InExec(s.cpus[c].pc);
  }

  // --- Steps of the owner ---

  lemma ClaimInv(s: State, o: Owner, t: CpuId)
    requires InvFor(s, o) && t < |s.cpus| && s.cpus[t].pc.StartClaim?
    ensures InvFor(StepStart(s, t), By(t))
  {
    var s' := StepStart(s, t);
    Know(s, o, t);
    forall u | 0 <= u < |s'.cpus| ensures CpuInv(s', By(t), u) && !s'.cpus[u].hasWaiter {
      Know(s, o, u);
    }
    assert Awaited(s') == {};
  }

  /** A step of the owner that keeps the count: the other CPUs notice nothing. */
  lemma OwnerMoveInv(s: State, t: CpuId, s': State)
    requires InvFor(s, By(t)) && OnlyMoves(s, t, s') && Owns(s'.cpus[t].pc)
    requires (s'.cpus[t].pc.StartWaitSleep? && !s'.cpus[t].pc.ownerWoken) ==> s.pending > 1
    requires OwnerInv(s', t)
    ensures InvFor(s', By(t))
  {
    Know(s, By(t), t);
    forall u | 0 <= u < |s'.cpus| ensures CpuInv(s', By(t), u) {
      Know(s, By(t), u);
    }
  }

  lemma VisitInv(s: State, t: CpuId, v: CpuId)
    requires InvFor(s, By(t)) && Enabled(s, t, Visit(v))
    ensures InvFor(Apply(s, t, Visit(v)), By(t))
  {
    var s' := Apply(s, t, Visit(v));
    AwaitedSame(s, s');
    Know(s, By(t), t);
    Know(s, By(t), v);
    OwnerMoveInv(s, t, s');
  }

  lemma MarkInv(s: State, t: CpuId)
    requires InvFor(s, By(t)) && Enabled(s, t, Proceed) && s.cpus[t].pc.StartMark?
    ensures InvFor(StepStart(s, t), By(t))
  {
    var s' := StepStart(s, t);
    var v := s.cpus[t].pc.victim;
    Know(s, By(t), t);
    Know(s, By(t), v);
    AwaitedGains(s, s', v);
    forall u | 0 <= u < |s'.cpus| ensures CpuInv(s', By(t), u) {
      Know(s, By(t), u);
    }
  }

  lemma PublishInv(s: State, t: CpuId)
    requires InvFor(s, By(t)) && t < |s.cpus| && s.cpus[t].pc.StartPublish?
    ensures InvFor(StepStart(s, t), By(t))
  {
    var s' := StepStart(s, t);
    Know(s, By(t), t);
    AwaitedSame(s, s');
    forall u | 0 <= u < |s'.cpus| ensures CpuInv(s', By(t), u) {
      Know(s, By(t), u);
    }
  }

  /** The owner's own step between two points after which the count is published. */
  lemma PublishedMoveInv(s: State, t: CpuId, s': State)
    requires InvFor(s, By(t)) && OnlyMoves(s, t, s') && Published(s.cpus[t].pc) && Published(s'.cpus[t].pc)
    requires (s'.cpus[t].pc.StartWaitSleep? && !s'.cpus[t].pc.ownerWoken) ==> s.pending > 1
    requires Granted(s'.cpus[t].pc) ==> s.pending == 1
    ensures InvFor(s', By(t))
  {
    AwaitedSame(s, s');
    Know(s, By(t), t);
    OwnerMoveInv(s, t, s');
  }

  lemma ScanDoneInv(s: State, t: CpuId)
    requires InvFor(s, By(t)) && Enabled(s, t, Proceed) && s.cpus[t].pc.StartScan?
    ensures InvFor(StepStart(s, t), By(t))
  {
    var s' := StepStart(s, t);
    AwaitedSame(s, s');
    Know(s, By(t), t);
    OwnerMoveInv(s, t, s');
  }

  lemma WaitMoves(s: State, t: CpuId)
    requires Enabled(s, t, Proceed) && CpuInv(s, By(t), t)
    requires s.cpus[t].pc.StartWaitTest? || s.cpus[t].pc.StartWaitSleep? || s.cpus[t].pc.StartUnlock?
      || s.cpus[t].pc.StartEnter?
    ensures OnlyMoves(s, t, StepStart(s, t)) && Published(StepStart(s, t).cpus[t].pc)
  {
  }

  lemma WaitInv(s: State, t: CpuId)
    requires InvFor(s, By(t)) && Enabled(s, t, Proceed)
    requires s.cpus[t].pc.StartWaitTest? || s.cpus[t].pc.StartWaitSleep? || s.cpus[t].pc.StartUnlock?
      || s.cpus[t].pc.StartEnter?
    ensures InvFor(StepStart(s, t), By(t))
  {
    Know(s, By(t), t);
    WaitMoves(s, t);
    PublishedMoveInv(s, t, StepStart(s, t));
  }

  lemma LeaveInv(s: State, t: CpuId)
    requires InvFor(s, By(t)) && Enabled(s, t, Proceed)
    requires s.cpus[t].pc.Exclusive? || s.cpus[t].pc.FinishLock?
    ensures InvFor(StepFinish(s, t), By(t))
  {
    Know(s, By(t), t);
    PublishedMoveInv(s, t, StepFinish(s, t));
  }

  lemma OwnerChoiceInv(s: State, t: CpuId, a: Action)
    requires InvFor(s, By(t)) && Enabled(s, t, a) && (a == Nest || a == Spurious) && Owns(s.cpus[t].pc)
    ensures InvFor(Apply(s, t, a), By(t))
  {
    Know(s, By(t), t);
    PublishedMoveInv(s, t, Apply(s, t, a));
  }

  lemma ResetInv(s: State, t: CpuId)
    requires InvFor(s, By(t)) && t < |s.cpus| && s.cpus[t].pc.FinishReset?
    ensures InvFor(StepFinish(s, t), Nobody)
  {
    var s' := StepFinish(s, t);
    Know(s, By(t), t);
    assert Awaited(s) == {};
    forall u | 0 <= u < |s'.cpus| ensures CpuInv(s', Nobody, u) {
      Know(s, By(t), u);
      assert u !in Awaited(s);
    }
  }

  lemma BroadcastCpu(s: State, o: Owner, t: CpuId, u: CpuId)
    requires t < |s.cpus| && s.cpus[t].pc.FinishBroadcast? && CpuInv(s, o, t)
    requires u < |s.cpus| && CpuInv(s, o, u)
    ensures CpuInv(StepFinish(s, t), o, u)
  {
  }

  lemma BroadcastInv(s: State, o: Owner, t: CpuId)
    requires InvFor(s, o) && t < |s.cpus| && s.cpus[t].pc.FinishBroadcast?
    ensures InvFor(StepFinish(s, t), o)
  {
    var s' := StepFinish(s, t);
    Know(s, o, t);
    forall u | 0 <= u < |s'.cpus| ensures CpuInv(s', o, u) {
      Know(s, o, u);
      BroadcastCpu(s, o, t, u);
    }
  }

  // --- Every step, every run ---

  lemma StepInv(s: State, t: CpuId, a: Action)
    requires Inv(s) && Enabled(s, t, a)
    ensures Inv(Apply(s, t, a))
  {
    var o :| InvFor(s, o);
    Know(s, o, t);
    var pc := s.cpus[t].pc;
    match a
    case Visit(c) => VisitInv(s, t, c);
    case Nest => OwnerChoiceInv(s, t, a);
    case Proceed => ProceedInv(s, o, t);
    case _ =>
      if Owns(pc) {
        OwnerChoiceInv(s, t, a);
      } else {
        ChoiceCanMove(s, o, t, a);
        MoveInv(s, o, t, Apply(s, t, a));
      }
  }

  lemma ProceedInv(s: State, o: Owner, t: CpuId)
    requires InvFor(s, o) && Enabled(s, t, Proceed)
    ensures Inv(Apply(s, t, Proceed))
  {
    Know(s, o, t);
    var pc := s.cpus[t].pc;
    if IsExecPoint(pc) {
      if pc.ExecReadPending? || pc.ExecLock? {
        ExecEntryCanMove(s, o, t);
      } else if pc.ExecCheckWaiter? || pc.ExecClearRunning? {
        ExecCheckCanMove(s, o, t);
      } else if pc.ExecIdleTest? || pc.ExecIdleSleep? {
        ExecIdleCanMove(s, o, t);
      } else {
        ExecExitCanMove(s, o, t);
      }
      MoveInv(s, o, t, StepExec(s, t));
    } else if IsEndPoint(pc) {
      ProceedEndInv(s, o, t);
    } else if IsStartPoint(pc) {
      ProceedStartInv(s, o, t);
    } else if pc.FinishReset? {
      ResetInv(s, t);
    } else if pc.FinishBroadcast? {
      BroadcastInv(s, o, t);
    } else if pc.FinishUnlock? {
      UnlockCanMove(s, o, t);
      MoveInv(s, o, t, StepFinish(s, t));
    } else {
      LeaveInv(s, t);
    }
  }

  lemma ProceedEndInv(s: State, o: Owner, t: CpuId)
    requires InvFor(s, o) && Enabled(s, t, Proceed) && IsEndPoint(s.cpus[t].pc)
    ensures Inv(StepEnd(s, t))
  {
    Know(s, o, t);
    var pc := s.cpus[t].pc;
    if pc.EndClearWaiter? {
      ClearWaiterInv(s, o, t);
    } else if pc.EndDecrement? {
      DecrementInv(s, o, t);
    } else if pc.EndSignal? {
      SignalInv(s, o, t);
    } else {
      if IsEndEntry(pc) { EndEntryCanMove(s, o, t); } else { EndExitCanMove(s, o, t); }
      MoveInv(s, o, t, StepEnd(s, t));
    }
  }

  lemma ProceedStartInv(s: State, o: Owner, t: CpuId)
    requires InvFor(s, o) && Enabled(s, t, Proceed) && IsStartPoint(s.cpus[t].pc)
    ensures Inv(StepStart(s, t))
  {
    Know(s, o, t);
    var pc := s.cpus[t].pc;
    if pc.StartLock? || pc.StartIdleTest? || pc.StartIdleSleep? {
      StartCanMove(s, o, t);
      MoveInv(s, o, t, StepStart(s, t));
    } else if pc.StartClaim? {
      ClaimInv(s, o, t);
    } else if pc.StartMark? {
      MarkInv(s, t);
    } else if pc.StartPublish? {
      PublishInv(s, t);
    } else if pc.StartScan? {
      ScanDoneInv(s, t);
    } else {
      WaitInv(s, t);
    }
  }

  lemma {:induction false} RunInv(r: seq<State>)
    requires Run(r) && Init(r[0])
    ensures Inv(r[|r| - 1])
  {
    if |r| == 1 {
      InitInv(r[0]);
    } else {
      var p := r[..|r| - 1];
      assert forall i :: 0 <= i < |p| ==> p[i] == r[i];
      RunInv(p);
      assert Next(r[|r| - 2], r[|r| - 1]);
      var t, a :| Enabled(r[|r| - 2], t, a) && r[|r| - 1] == Apply(r[|r| - 2], t, a);
      StepInv(r[|r| - 2], t, a);
    }
  }

  /**
   Mutual exclusion: in every interleaving of any number of CPUs, at most one thread is in its
   exclusive section, and meanwhile no CPU executes guest code.
   */
  lemma MutualExclusion(r: seq<State>, t: CpuId)
    requires Run(r) && Init(r[0])
    requires t < |r[|r| - 1].cpus| && InExclusive(r[|r| - 1].cpus[t].pc)
    ensures var s := r[|r| - 1];
            forall u :: 0 <= u < |s.cpus| && u != t ==> !InExclusive(s.cpus[u].pc) && !InExec(s.cpus[u].pc)
  {
    RunInv(r);
    var s := r[|r| - 1];
    var o :| InvFor(s, o);
    Know(s, o, t);
    assert Awaited(s) == {};
    forall u | 0 <= u < |s.cpus| && u != t ensures !InExclusive(s.cpus[u].pc) && !InExec(s.cpus[u].pc) {
      Know(s, o, u);
      assert u !in Awaited(s);
    }
  }

  /**
   No wake-up is lost.  Once the count is published it is 1 plus the CPUs still marked, plus the one
   whose decrement is under way; an owner asleep on exclusive_cond has such a CPU or a signal ahead of
   it; and whoever sleeps on exclusive_resume sleeps because the count is non-zero or a broadcast is
   about to happen.
   */
  lemma NoLostWakeup(r: seq<State>, t: CpuId)
    requires Run(r) && Init(r[0]) && t < |r[|r| - 1].cpus|
    ensures var s := r[|r| - 1]; var pc := s.cpus[t].pc;
      && (Published(pc) ==> s.pending == 1 + |Awaited(s)| + InFlight(s))
      && ((pc.StartWaitSleep? && !pc.ownerWoken) ==>
            || HolderAt(s, EndDecrement) || HolderAt(s, EndSignal)
            || exists c :: 0 <= c < |s.cpus| && s.cpus[c].hasWaiter && MayBeAwaited(s.cpus[c].pc))
      && ((pc.ExecIdleSleep? && !pc.execWoken) || (pc.StartIdleSleep? && !pc.startWoken) ==>
        s.pending != 0 || HolderAt(s, FinishBroadcast))
  {
    RunInv(r);
    var s := r[|r| - 1];
    var o :| InvFor(s, o);
    Know(s, o, t);
    if (s.cpus[t].pc.StartWaitSleep? && !s.cpus[t].pc.ownerWoken) && !HolderAt(s, EndDecrement)
        && !HolderAt(s, EndSignal) {
      assert Awaited(s) != {};
      var c :| c in Awaited(s);
      Know(s, o, c);
    }
  }
}
