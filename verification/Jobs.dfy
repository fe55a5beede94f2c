/**
 Background jobs and job transactions (job.c, blockjob.c): one transaction and its jobs.

 A single job is a transaction of one, as job_create arranges it.  Every operation that runs without
 yielding is one step.  The loop of a group abort, which polls the event loop while it waits for a
 member, is split there, so that everything else can happen in between.  A result of None means
 that an assertion of the source failed.
 */
module Jobs {
  import opened Options

  datatype Status = Created | Running | Paused | Ready | Standby | Waiting | Pending | Aborting | Concluded | Null

  /** Driver callbacks and the transition to PENDING, as they happened. */
  datatype Event = Pend | Prepare | Commit | Abort | Clean

  const ECANCELED: int := -125

  datatype Job = Job(
    status: Status,
    ret: int,
    cancelled: bool,
    started: bool,        // co != NULL
    deferred: bool,       // deferred_to_main_loop
    exitPending: bool,    // job_exit is scheduled
    pauseCount: int,
    userPaused: bool,
    ioError: bool,        // iostatus is not OK
    drains: nat,          // drained sections of its nodes that are open
    autoFinalize: bool,
    autoDismiss: bool,
    inTxn: bool,          // still on the list of its transaction
    log: seq<Event>)

  /** The jobs in the order of the transaction's list. */
  datatype State = State(jobs: seq<Job>, aborting: bool)

  // --- Single jobs ---

  /** JobSTT */
  predicate Allowed(from: Status, to: Status) {
    || (from.Created? && (to.Running? || to.Aborting? || to.Null?))
    || (from.Running? && (to.Paused? || to.Ready? || to.Waiting? || to.Aborting?))
    || (from.Paused? && to.Running?)
    || (from.Ready? && (to.Standby? || to.Waiting? || to.Aborting?))
    || (from.Standby? && to.Ready?)
    || (from.Waiting? && (to.Pending? || to.Aborting?))
    || (from.Pending? && (to.Aborting? || to.Concluded?))
    || (from.Aborting? && (to.Aborting? || to.Concluded?))
    || (from.Concluded? && to.Null?)
  }

  /**
   The table by its columns: where a status can come from.  There is no way back to an earlier phase, only a pause
   is left for where it was entered from, and every phase but the last can be aborted unless the job is paused.
   */
  lemma WhereFrom(from: Status)
    ensures !Allowed(from, Created)
    ensures Allowed(from, Running) <==> from.Created? || from.Paused?
    ensures Allowed(from, Paused) <==> from.Running?
    ensures Allowed(from, Ready) <==> from.Running? || from.Standby?
    ensures Allowed(from, Standby) <==> from.Ready?
    ensures Allowed(from, Waiting) <==> from.Running? || from.Ready?
    ensures Allowed(from, Pending) <==> from.Waiting?
    ensures Allowed(from, Aborting) <==> !(from.Paused? || from.Standby? || from.Concluded? || from.Null?)
    ensures Allowed(from, Concluded) <==> from.Pending? || from.Aborting?
    ensures Allowed(from, Null) <==> from.Created? || from.Concluded?
  {
  }

  /** job_is_completed */
  predicate IsCompleted(s: Status) {
    s.Waiting? || s.Pending? || s.Aborting? || s.Concluded? || s.Null?
  }

  /** job_state_transition */
  function Transition(b: Job, to: Status): Option<Job> {
    if Allowed(b.status, to) then Some(b.(status := to)) else None
  }

  /** job_update_rc */
  function UpdateRc(b: Job): Option<Job> {
    var c := if b.ret == 0 && b.cancelled then b.(ret := ECANCELED) else b;
    if c.ret != 0 then Transition(c, Aborting) else Some(c)
  }

  /** block_job_iostatus_reset */
  function ResetIoStatus(b: Job): Option<Job> {
    if !b.ioError then Some(b)
    else if b.userPaused && b.pauseCount > 0 then Some(b.(ioError := false))
    else None
  }

  /** job_cancel_async */
  function CancelAsync(b: Job): Option<Job> {
    if !b.userPaused then Some(b.(cancelled := true))
    else
      var c := ResetIoStatus(b);
      if c.None? || b.pauseCount <= 0 then None
      else Some(c.value.(userPaused := false, pauseCount := b.pauseCount - 1, cancelled := true))
  }

  /** job_do_dismiss */
  function DoDismiss(b: Job): Option<Job> {
    Transition(b.(deferred := true, inTxn := false), Null)
  }

  /** job_conclude */
  function Conclude(b: Job): Option<Job> {
    var c := Transition(b, Concluded);
    if c.Some? && (b.autoDismiss || !b.started) then DoDismiss(c.value) else c
  }

  /** job_finalize_single */
  function FinalizeSingle(b: Job): Option<Job> {
    if !IsCompleted(b.status) then None
    else
      var c := UpdateRc(b);
      if c.None? then None
      else Conclude(Called(c.value))
  }

  /** After the last callbacks: commit or abort, then clean; and off the list. */
  function Called(b: Job): Job {
    b.(inTxn := false, log := b.log + [if b.ret == 0 then Commit else Abort, Clean])
  }

  /** job_transition_to_pending */
  function ToPending(b: Job): Option<Job> {
    Transition(b.(log := b.log + [Pend]), Pending)
  }

  /** job_prepare */
  function PrepareOne(b: Job, rc: int): Option<Job> {
    if b.ret == 0 then UpdateRc(b.(ret := rc, log := b.log + [Prepare])) else Some(b)
  }

  /** job_resume, without the wake-up */
  function Resume(b: Job): Option<Job> {
    if b.pauseCount > 0 then Some(b.(pauseCount := b.pauseCount - 1)) else None
  }

  // --- The group ---

  /** job_txn_apply, for an operation that never reports an error. */
  function Everyone(jobs: seq<Job>, f: Job -> Option<Job>): Option<seq<Job>> {
    if exists i :: 0 <= i < |jobs| && jobs[i].inTxn && f(jobs[i]).None? then None
    else Some(seq(|jobs|, (i: int) requires 0 <= i < |jobs| && (jobs[i].inTxn ==> f(jobs[i]).Some?) =>
      if jobs[i].inTxn then f(jobs[i]).value else jobs[i]))
  }

  /** The first loop of job_completed_txn_abort: everyone but the initiator is cancelled. */
  function CancelOthers(jobs: seq<Job>, j: nat): Option<seq<Job>> {
    if exists i :: 0 <= i < |jobs| && i != j && jobs[i].inTxn && CancelAsync(jobs[i]).None? then None
    else Some(seq(|jobs|, (i: int) requires 0 <= i < |jobs|
      && (i != j && jobs[i].inTxn ==> CancelAsync(jobs[i]).Some?) =>
      if i != j && jobs[i].inTxn then CancelAsync(jobs[i]).value else jobs[i]))
  }

  /** The second loop, from the i-th job on, until it has to wait for a member that has not completed. */
  function AbortLoop(jobs: seq<Job>, i: nat): (r: Option<seq<Job>>)
    ensures r.Some? ==> |r.value| == |jobs|
    decreases |jobs| - i
  {
    if i >= |jobs| then Some(jobs)
    else if !jobs[i].inTxn then AbortLoop(jobs, i + 1)
    else if !IsCompleted(jobs[i].status) then (if jobs[i].cancelled then Some(jobs) else None)
    else
      var b := FinalizeSingle(jobs[i]);
      if b.None? then None else AbortLoop(jobs[i := b.value], i + 1)
  }

  /** job_completed_txn_abort */
  function TxnAbort(s: State, j: nat): Option<State> {
    if s.aborting then Some(s)
    else
      var c := CancelOthers(s.jobs, j);
      if c.None? then None
      else
        var r := AbortLoop(c.value, 0);
        if r.None? then None else Some(State(r.value, true))
  }

  /** job_txn_apply of job_prepare from the i-th job on; false when one of them failed. */
  function PrepareFrom(jobs: seq<Job>, i: nat, prep: nat -> int): (r: Option<(seq<Job>, bool)>)
    ensures r.Some? ==> |r.value.0| == |jobs|
    decreases |jobs| - i
  {
    if i >= |jobs| then Some((jobs, true))
    else if !jobs[i].inTxn then PrepareFrom(jobs, i + 1, prep)
    else
      var b := PrepareOne(jobs[i], prep(i));
      if b.None? then None
      else if b.value.ret != 0 then Some((jobs[i := b.value], false))
      else PrepareFrom(jobs[i := b.value], i + 1, prep)
  }

  /** job_do_finalize */
  function DoFinalize(s: State, j: nat, prep: nat -> int): Option<State>
    requires j < |s.jobs|
  {
    var r := PrepareFrom(s.jobs, 0, prep);
    if !s.jobs[j].inTxn || r.None? then None
    else if !r.value.1 then TxnAbort(s.(jobs := r.value.0), j)
    else
      var all := Everyone(r.value.0, FinalizeSingle);
      if all.None? then None else Some(s.(jobs := all.value))
  }

  /** The loop of job_completed_txn_success: whether everyone has completed; their results are asserted to be 0. */
  function CheckFrom(jobs: seq<Job>, i: nat): Option<bool>
    decreases |jobs| - i
  {
    if i >= |jobs| then Some(true)
    else if !jobs[i].inTxn then CheckFrom(jobs, i + 1)
    else if !IsCompleted(jobs[i].status) then Some(false)
    else if jobs[i].ret != 0 then None
    else CheckFrom(jobs, i + 1)
  }

  predicate NobodyWaits(jobs: seq<Job>) {
    forall i :: 0 <= i < |jobs| && jobs[i].inTxn ==> jobs[i].autoFinalize
  }

  /** job_completed_txn_success */
  function TxnSuccess(s: State, j: nat, prep: nat -> int): Option<State>
    requires j < |s.jobs|
  {
    var b := Transition(s.jobs[j], Waiting);
    if b.None? then None
    else
      var s1 := s.(jobs := s.jobs[j := b.value]);
      var all := CheckFrom(s1.jobs, 0);
      if all.None? then None
      else if !all.value then Some(s1)
      else
        var p := Everyone(s1.jobs, ToPending);
        if p.None? then None
        else if NobodyWaits(p.value) then DoFinalize(s1.(jobs := p.value), j, prep)
        else Some(s1.(jobs := p.value))
  }

  /** job_completed */
  function Completed(s: State, j: nat, prep: nat -> int): Option<State>
    requires j < |s.jobs|
  {
    if !s.jobs[j].inTxn || IsCompleted(s.jobs[j].status) then None
    else
      var b := UpdateRc(s.jobs[j]);
      if b.None? then None
      else
        var s1 := s.(jobs := s.jobs[j := b.value]);
        if b.value.ret != 0 then TxnAbort(s1, j) else TxnSuccess(s1, j, prep)
  }

  // --- Steps ---

  /** What can happen to one job. */
  datatype Op =
    | Start
    | PausePoint
    | Unpause
    | BecomeReady
    | Return(rc: int)
    | Exit(prep: nat -> int)
    | Cancel
    | Finalize(prep: nat -> int)
    | Dismiss
    | UserPause
    | UserResume
    | DrainBegin
    | DrainEnd
    | ErrorStop

  datatype Action = On(j: nat, op: Op) | AbortStep

  /** The coroutine is inside the driver's run function and not asleep in a pause point. */
  predicate InRun(b: Job) {
    b.started && !b.deferred && (b.status.Running? || b.status.Ready?)
  }

  /** PAUSE and RESUME rows of JobVerbTable. */
  predicate MayPause(s: Status) {
    s.Created? || s.Running? || s.Paused? || s.Ready? || s.Standby?
  }

  /** CANCEL row of JobVerbTable. */
  predicate MayCancel(s: Status) {
    MayPause(s) || s.Waiting? || s.Pending?
  }

  /** The first member left on the list, which the abort loop waits for, has completed. */
  predicate WaitOver(jobs: seq<Job>) {
    exists i :: 0 <= i < |jobs| && jobs[i].inTxn && IsCompleted(jobs[i].status) && forall k :: 0 <= k < i ==>
      !jobs[k].inTxn
  }

  /** When the event loop, the job's coroutine or a user can do this to a job. */
  predicate OpEnabled(b: Job, op: Op) {
    match op
    case Start => b.status.Created? && !b.started
    case PausePoint => InRun(b)
    case Unpause => b.status.Paused? || b.status.Standby?
    case BecomeReady => InRun(b) && b.status.Running?
    case Return(_) => InRun(b)
    case Exit(_) => b.exitPending
    case Cancel => MayCancel(b.status) || b.status.Concluded? || (b.status.Aborting? && b.started)
    case Finalize(_) => b.status.Pending?
    case Dismiss => b.status.Concluded?
    case UserPause => MayPause(b.status)
    case UserResume => MayPause(b.status)
    case DrainBegin => !b.status.Null?
    case DrainEnd => !b.status.Null? && b.drains > 0
    case ErrorStop => !b.status.Null?
  }

  predicate Enabled(s: State, a: Action) {
    match a
    case On(j, op) => j < |s.jobs| && OpEnabled(s.jobs[j], op)
    case AbortStep => s.aborting && WaitOver(s.jobs)
  }

  function With(s: State, j: nat, b: Option<Job>): Option<State>
    requires j < |s.jobs|
  {
    if b.None? then None else Some(s.(jobs := s.jobs[j := b.value]))
  }

  /** job_pause_point up to its yield, without the driver's callbacks */
  function PauseHere(b: Job): Option<Job> {
    if b.pauseCount > 0 && !b.cancelled then Transition(b, if b.status.Ready? then Standby else Paused) else Some(b)
  }

  /** job_user_resume */
  function UserResumeJob(b: Job): Option<Job> {
    if !b.userPaused || b.pauseCount <= 0 then Some(b)
    else
      var c := ResetIoStatus(b);
      if c.None? then None else Resume(c.value.(userPaused := false))
  }

  /** The action STOP of block_job_error_action */
  function StopOnError(b: Job): Job {
    if b.userPaused then b.(ioError := true)
    else b.(pauseCount := b.pauseCount + 1, userPaused := true, ioError := true)
  }

  /** job_cancel */
  function CancelJob(s: State, j: nat): Option<State>
    requires j < |s.jobs|
  {
    var b := s.jobs[j];
    if b.status.Concluded? then With(s, j, DoDismiss(b))
    else
      var c := CancelAsync(b);
      if c.None? then None
      else
        var s1 := s.(jobs := s.jobs[j := c.value]);
        if !b.started then Completed(s1, j, (i: nat) => 0)
        else if b.deferred then (if b.inTxn then TxnAbort(s1, j) else None)
        else Some(s1)
  }

  /** What an operation that concerns one job only makes of it. */
  function LocalOp(b: Job, op: Op): Option<Job>
    requires OpEnabled(b, op)
  {
    match op
    case Start => Transition(b.(started := true, pauseCount := b.pauseCount - 1), Running)
    case PausePoint => PauseHere(b)
    case Unpause => Transition(b, if b.status.Standby? then Ready else Running)
    case BecomeReady => Transition(b, Ready)
    case Return(rc) => Some(b.(ret := rc, deferred := true, exitPending := true))
    case Dismiss => DoDismiss(b)
    case UserPause => Some(if b.userPaused then b else b.(userPaused := true, pauseCount := b.pauseCount + 1))
    case UserResume => UserResumeJob(b)
    case DrainBegin => Some(b.(pauseCount := b.pauseCount + 1, drains := b.drains + 1))
    case DrainEnd => Resume(b.(drains := b.drains - 1))
    case ErrorStop => Some(StopOnError(b))
    case _ => Some(b)
  }

  /** The state after a step, or None when an assertion fails on the way. */
  function Apply(s: State, a: Action): Option<State>
    requires Enabled(s, a)
  {
    match a
    case AbortStep =>
      var r := AbortLoop(s.jobs, 0);
      if r.None? then None else Some(s.(jobs := r.value))
    case On(j, op) =>
      match op
      case Exit(prep) => Completed(s.(jobs := s.jobs[j := s.jobs[j].(exitPending := false)]), j, prep)
      case Cancel => CancelJob(s, j)
      case Finalize(prep) => DoFinalize(s, j, prep)
      case _ => With(s, j, LocalOp(s.jobs[j], op))
  }

  /** job_create: every job waits to be started. */
  predicate Fresh(b: Job) {
    && b.status.Created? && b.ret == 0 && !b.cancelled && !b.started && !b.deferred && !b.exitPending
    && b.pauseCount == 1 && !b.userPaused && !b.ioError && b.drains == 0 && b.inTxn && b.log == []
  }

  predicate Init(s: State) {
    !s.aborting && forall i :: 0 <= i < |s.jobs| ==> Fresh(s.jobs[i])
  }

  /** The i-th action is enabled and leads from one state to the next. */
  ghost predicate StepAt(states: seq<State>, actions: seq<Action>, i: nat)
    requires i < |actions| && i + 1 < |states|
  {
    Enabled(states[i], actions[i]) && Apply(states[i], actions[i]) == Some(states[i + 1])
  }

  ghost predicate Run(states: seq<State>, actions: seq<Action>) {
    && |states| == |actions| + 1
    && forall i: nat {:trigger StepAt(states, actions, i)} :: i < |actions| ==> StepAt(states, actions, i)
  }
}
