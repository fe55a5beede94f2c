/**
 The vCPU exclusive section (cpus-common.c) as a step system.

 Every CPU has one thread.  A step performs one access to shared state: one read or write of
 `pending_cpus`, `running` or `has_waiter`, one lock or unlock of `qemu_cpu_list_lock`, or one
 operation on the condition variables `exclusive_cond` and `exclusive_resume`.  Steps of different
 threads interleave without restriction; the `smp_mb()` calls of the source justify reading each
 step as atomic.
 */
module ExclusiveSection {

  type CpuId = nat

  datatype LockState = Free | HeldBy(holder: CpuId)

  /** Where a thread stands.  Each value names the access the thread performs next. */
  datatype Pc =
    | Outside
    // cpu_exec_start, after `running` was set
    | ExecReadPending
    | ExecLock
    | ExecCheckWaiter
    | ExecClearRunning
    | ExecIdleTest
    | ExecIdleSleep(execWoken: bool)
    | ExecSetRunning
    | ExecUnlock
    // between cpu_exec_start and cpu_exec_end
    | Executing
    // cpu_exec_end, after `running` was cleared
    | EndReadPending
    | EndLock
    | EndCheckWaiter
    | EndClearWaiter
    | EndDecrement
    | EndSignal
    | EndUnlock
    // start_exclusive
    | StartLock
    | StartIdleTest
    | StartIdleSleep(startWoken: bool)
    | StartClaim
    | StartScan(todo: set<CpuId>, count: nat)
    | StartMark(todo: set<CpuId>, count: nat, victim: CpuId)
    | StartPublish(count: nat)
    | StartWaitTest
    | StartWaitSleep(ownerWoken: bool)
    | StartUnlock
    | StartEnter
    // between start_exclusive and end_exclusive
    | Exclusive
    // end_exclusive, after exclusive_context_count dropped to 0
    | FinishLock
    | FinishReset
    | FinishBroadcast
    | FinishUnlock

  /** `depth` is exclusive_context_count. */
  datatype Cpu = Cpu(pc: Pc, running: bool, hasWaiter: bool, depth: nat)

  datatype State = State(cpus: seq<Cpu>, pending: int, lock: LockState)

  /** A thread's choice.  Proceed is the only choice wherever the source leaves none. */
  datatype Action =
    | BeginExec          // call cpu_exec_start
    | BeginExclusive     // call start_exclusive
    | Nest               // call start_exclusive from inside an exclusive section
    | Visit(c: CpuId)    // the next CPU that start_exclusive's loop looks at
    | Spurious           // a condition wait returns although nobody signalled
    | Proceed

  ghost predicate Init(s: State) {
    && s.pending == 0
    && s.lock == Free
    && forall t :: 0 <= t < |s.cpus| ==> s.cpus[t] == Cpu(Outside, false, false, 0)
  }

  // --- Classification of program points ---

  predicate HoldsLock(pc: Pc) {
    || pc.ExecCheckWaiter? || pc.ExecClearRunning? || pc.ExecIdleTest? || pc.ExecSetRunning? || pc.ExecUnlock?
    || pc.EndCheckWaiter? || pc.EndClearWaiter? || pc.EndDecrement? || pc.EndSignal? || pc.EndUnlock?
    || pc.StartIdleTest? || pc.StartClaim? || pc.StartScan? || pc.StartMark? || pc.StartPublish?
    || pc.StartWaitTest? || pc.StartUnlock?
    || pc.FinishReset? || pc.FinishBroadcast? || pc.FinishUnlock?
  }

  /** The points at which the thread's next access is to take the lock. */
  predicate WantsLock(pc: Pc) {
    || pc.ExecLock? || pc.EndLock? || pc.StartLock? || pc.FinishLock?
    || (pc.ExecIdleSleep? && pc.execWoken) || (pc.StartIdleSleep? && pc.startWoken)
      || (pc.StartWaitSleep? && pc.ownerWoken)
  }

  predicate Asleep(pc: Pc) {
    (pc.ExecIdleSleep? && !pc.execWoken) || (pc.StartIdleSleep? && !pc.startWoken)
      || (pc.StartWaitSleep? && !pc.ownerWoken)
  }

  /** From the claim `pending_cpus = 1` to the reset `pending_cpus = 0`. */
  predicate Owns(pc: Pc) {
    Scanning(pc) || pc.StartPublish? || Published(pc)
  }

  predicate Scanning(pc: Pc) {
    pc.StartScan? || pc.StartMark?
  }

  /** The owner has stored the number of CPUs it waits for. */
  predicate Published(pc: Pc) {
    pc.StartWaitTest? || pc.StartWaitSleep? || Granted(pc)
  }

  /** The owner has seen the count drop to 1. */
  predicate Granted(pc: Pc) {
    pc.StartUnlock? || InExclusive(pc)
  }

  /** From the return of start_exclusive to the reset of `pending_cpus` in end_exclusive. */
  predicate InExclusive(pc: Pc) {
    pc.StartEnter? || pc.Exclusive? || pc.FinishLock? || pc.FinishReset?
  }

  /** From the end of cpu_exec_start to the clearing of `running` in cpu_exec_end. */
  predicate InExec(pc: Pc) {
    pc.ExecUnlock? || pc.Executing?
  }

  /** The points at which `running` is set. */
  predicate MarkedRunning(pc: Pc) {
    pc.ExecReadPending? || pc.ExecLock? || pc.ExecCheckWaiter? || pc.ExecClearRunning? || InExec(pc)
  }

  /** The points at which `has_waiter` may be set: the CPU still has its decrement ahead. */
  predicate MayBeAwaited(pc: Pc) {
    || pc.ExecReadPending? || pc.ExecLock? || pc.ExecCheckWaiter? || InExec(pc)
    || pc.EndReadPending? || pc.EndLock? || pc.EndCheckWaiter? || pc.EndClearWaiter?
  }

  // --- Steps ---

  predicate Enabled(s: State, t: CpuId, a: Action) {
    && t < |s.cpus|
    && var pc := s.cpus[t].pc;
       match a
       case BeginExec => pc.Outside?
       case BeginExclusive => pc.Outside?
       case Nest => pc.Exclusive?
       case Visit(c) => pc.StartScan? && c in pc.todo && c < |s.cpus|
       case Spurious => Asleep(pc)
       case Proceed =>
         && !pc.Outside? && !Asleep(pc)
         && (WantsLock(pc) ==> s.lock == Free)
         && (pc.StartScan? ==> pc.todo == {})
         && (pc.StartMark? ==> pc.victim < |s.cpus|)
  }

  function Goto(s: State, t: CpuId, pc: Pc): State
    requires t < |s.cpus|
  {
    s.(cpus := s.cpus[t := s.cpus[t].(pc := pc)])
  }

  function Acquire(s: State, t: CpuId, pc: Pc): State
    requires t < |s.cpus|
  {
    Goto(s, t, pc).(lock := HeldBy(t))
  }

  function Release(s: State, t: CpuId, pc: Pc): State
    requires t < |s.cpus|
  {
    Goto(s, t, pc).(lock := Free)
  }

  function SetRunning(s: State, t: CpuId, v: bool, pc: Pc): State
    requires t < |s.cpus|
  {
    s.(cpus := s.cpus[t := s.cpus[t].(pc := pc, running := v)])
  }

  /** pthread_cond_broadcast on exclusive_resume: everyone asleep there becomes runnable. */
  function WakeResume(cpus: seq<Cpu>): seq<Cpu> {
    seq(|cpus|, i requires 0 <= i < |cpus| =>
      if (cpus[i].pc.ExecIdleSleep? && !cpus[i].pc.execWoken) then cpus[i].(pc := ExecIdleSleep(true))
      else if (cpus[i].pc.StartIdleSleep? && !cpus[i].pc.startWoken) then cpus[i].(pc := StartIdleSleep(true))
      else cpus[i])
  }

  /** pthread_cond_signal on exclusive_cond.  At most one thread, the owner, ever sleeps there. */
  function WakeOwner(cpus: seq<Cpu>): seq<Cpu> {
    seq(|cpus|, i requires 0 <= i < |cpus| =>
      if (cpus[i].pc.StartWaitSleep? && !cpus[i].pc.ownerWoken) then cpus[i].(pc := StartWaitSleep(true)) else cpus[i])
  }

  function AllIds(s: State): set<CpuId> {
    set i {:trigger s.cpus[i]} | 0 <= i < |s.cpus|
  }

  function StepExec(s: State, t: CpuId): State
    requires t < |s.cpus|
  {
    match s.cpus[t].pc
    case ExecReadPending => Goto(s, t, if s.pending != 0 then ExecLock else Executing)
    case ExecLock => Acquire(s, t, ExecCheckWaiter)
    case ExecCheckWaiter => Goto(s, t, if s.cpus[t].hasWaiter then ExecUnlock else ExecClearRunning)
    case ExecClearRunning => SetRunning(s, t, false, ExecIdleTest)
    case ExecIdleTest => if s.pending != 0 then Release(s, t, ExecIdleSleep(false)) else Goto(s, t, ExecSetRunning)
    case ExecIdleSleep(_) => Acquire(s, t, ExecIdleTest)
    case ExecSetRunning => SetRunning(s, t, true, ExecUnlock)
    case ExecUnlock => Release(s, t, Executing)
    case _ => s
  }

  function StepEnd(s: State, t: CpuId): State
    requires t < |s.cpus|
  {
    match s.cpus[t].pc
    case Executing => SetRunning(s, t, false, EndReadPending)
    case EndReadPending => Goto(s, t, if s.pending != 0 then EndLock else Outside)
    case EndLock => Acquire(s, t, EndCheckWaiter)
    case EndCheckWaiter => Goto(s, t, if s.cpus[t].hasWaiter then EndClearWaiter else EndUnlock)
    case EndClearWaiter => s.(cpus := s.cpus[t := s.cpus[t].(pc := EndDecrement, hasWaiter := false)])
    case EndDecrement => Goto(s, t, EndSignal).(pending := s.pending - 1)
    case EndSignal =>
      Goto(if s.pending == 1 then s.(cpus := WakeOwner(s.cpus)) else s, t, EndUnlock)
    case EndUnlock => Release(s, t, Outside)
    case _ => s
  }

  function StepStart(s: State, t: CpuId): State
    requires t < |s.cpus|
    requires s.cpus[t].pc.StartMark? ==> s.cpus[t].pc.victim < |s.cpus|
  {
    match s.cpus[t].pc
    case StartLock => Acquire(s, t, StartIdleTest)
    case StartIdleTest => if s.pending != 0 then Release(s, t, StartIdleSleep(false)) else Goto(s, t, StartClaim)
    case StartIdleSleep(_) => Acquire(s, t, StartIdleTest)
    case StartClaim => Goto(s, t, StartScan(AllIds(s), 0)).(pending := 1)
    case StartScan(_, n) => Goto(s, t, StartPublish(n))
    case StartMark(todo, n, v) =>
      Goto(s.(cpus := s.cpus[v := s.cpus[v].(hasWaiter := true)]), t, StartScan(todo - {v}, n + 1))
    case StartPublish(n) => Goto(s, t, StartWaitTest).(pending := n + 1)
    case StartWaitTest => if s.pending > 1 then Release(s, t, StartWaitSleep(false)) else Goto(s, t, StartUnlock)
    case StartWaitSleep(_) => Acquire(s, t, StartWaitTest)
    case StartUnlock => Release(s, t, StartEnter)
    case StartEnter => s.(cpus := s.cpus[t := s.cpus[t].(pc := Exclusive, depth := 1)])
    case _ => s
  }

  function StepFinish(s: State, t: CpuId): State
    requires t < |s.cpus|
  {
    match s.cpus[t].pc
    case Exclusive =>
      var d := if s.cpus[t].depth > 0 then s.cpus[t].depth - 1 else 0;
      s.(cpus := s.cpus[t := s.cpus[t].(pc := if d == 0 then FinishLock else Exclusive, depth := d)])
    case FinishLock => Acquire(s, t, FinishReset)
    case FinishReset => Goto(s, t, FinishBroadcast).(pending := 0)
    case FinishBroadcast => Goto(s.(cpus := WakeResume(s.cpus)), t, FinishUnlock)
    case FinishUnlock => Release(s, t, Outside)
    case _ => s
  }

  predicate IsExecPoint(pc: Pc) {
    || pc.ExecReadPending? || pc.ExecLock? || pc.ExecCheckWaiter? || pc.ExecClearRunning?
    || pc.ExecIdleTest? || pc.ExecIdleSleep? || pc.ExecSetRunning? || pc.ExecUnlock?
  }

  predicate IsEndPoint(pc: Pc) {
    || pc.Executing? || pc.EndReadPending? || pc.EndLock? || pc.EndCheckWaiter?
    || pc.EndClearWaiter? || pc.EndDecrement? || pc.EndSignal? || pc.EndUnlock?
  }

  predicate IsStartPoint(pc: Pc) {
    || pc.StartLock? || pc.StartIdleTest? || pc.StartIdleSleep? || pc.StartClaim? || pc.StartScan? || pc.StartMark?
    || pc.StartPublish? || pc.StartWaitTest? || pc.StartWaitSleep? || pc.StartUnlock? || pc.StartEnter?
  }

  function Apply(s: State, t: CpuId, a: Action): State
    requires Enabled(s, t, a)
  {
    var pc := s.cpus[t].pc;
    match a
    case BeginExec => SetRunning(s, t, true, ExecReadPending)
    case BeginExclusive => Goto(s, t, StartLock)
    case Nest => s.(cpus := s.cpus[t := s.cpus[t].(depth := s.cpus[t].depth + 1)])
    case Visit(c) =>
      if s.cpus[c].running then Goto(s, t, StartMark(pc.todo, pc.count, c))
      else Goto(s, t, StartScan(pc.todo - {c}, pc.count))
    case Spurious =>
      Goto(s, t, if pc.ExecIdleSleep? then ExecIdleSleep(true)
                 else if pc.StartIdleSleep? then StartIdleSleep(true)
                 else StartWaitSleep(true))
    case Proceed =>
      if IsExecPoint(pc) then StepExec(s, t)
      else if IsEndPoint(pc) then StepEnd(s, t)
      else if IsStartPoint(pc) then StepStart(s, t)
      else StepFinish(s, t)
  }

  ghost predicate Next(s: State, s': State) {
    exists t, a :: Enabled(s, t, a) && s' == Apply(s, t, a)
  }

  /** A finite run: any interleaving of any number of steps. */
  ghost predicate Run(r: seq<State>) {
    && |r| > 0
    && forall i :: 0 <= i < |r| - 1 ==> Next(r[i], r[i + 1])
  }
}
