/**
 What holds in every run of a job transaction: no assertion fails, completion is final, every job is
 finalised once, and pauses are counted exactly.
 */
module JobSafety {
  import opened Options
  import opened Jobs

  // --- The invariant ---

  /** The driver's final callbacks: commit or abort, then clean. */
  ghost predicate Finished(log: seq<Event>, last: Event) {
    && |log| >= 2 && log[|log| - 2] == last && log[|log| - 1] == Clean
    && Unfinished(log[..|log| - 2])
  }

  ghost predicate Unfinished(log: seq<Event>) {
    Commit !in log && Abort !in log && Clean !in log
  }

  ghost predicate Committed(b: Job) { Commit in b.log }

  ghost predicate Aborted(b: Job) { Abort in b.log }

  /** Failed or cancelled: such a job cannot commit any more. */
  predicate Doomed(b: Job) { b.ret != 0 || b.cancelled }

  function Bit(x: bool): int { if x then 1 else 0 }

  /** Who holds the job back: not started, the user, open drained sections. */
  predicate PausesCounted(b: Job) {
    b.pauseCount == Bit(!b.started) + Bit(b.userPaused) + b.drains && (b.ioError ==> b.userPaused)
  }

  /** Where the job stands, as its status tells. */
  predicate StatusRight(b: Job) {
    match b.status
    case Created => !b.started && !b.deferred && !b.exitPending && b.inTxn && b.ret == 0
    case Running => b.started && b.inTxn && b.deferred == b.exitPending && (!b.deferred ==> b.ret == 0)
    case Ready => b.started && b.inTxn && b.deferred == b.exitPending && (!b.deferred ==> b.ret == 0)
    case Paused => b.started && b.inTxn && !b.deferred && !b.exitPending && b.ret == 0
    case Standby => b.started && b.inTxn && !b.deferred && !b.exitPending && b.ret == 0
    case Waiting => b.started && b.inTxn && b.deferred && !b.exitPending
    case Pending => b.started && b.inTxn && b.deferred && !b.exitPending
    case Aborting => b.inTxn && !b.exitPending && b.ret != 0 && (b.started ==> b.deferred)
    case Concluded => !b.inTxn && !b.exitPending && b.started && b.deferred
    case Null => !b.inTxn && !b.exitPending
  }

  ghost predicate LogRight(b: Job) {
    if b.inTxn then Unfinished(b.log)
    else if b.ret == 0 then Finished(b.log, Commit) && !b.cancelled
    else Finished(b.log, Abort)
  }

  ghost predicate JobInv(b: Job) {
    StatusRight(b) && LogRight(b) && (!b.status.Null? ==> PausesCounted(b))
  }

  /** A member as it may be while no group abort is under way. */
  predicate Undisturbed(b: Job) {
    !b.status.Aborting? && (b.status.Waiting? || b.status.Pending? ==> !Doomed(b)) && (!b.inTxn ==> !Doomed(b))
  }

  /** A member as it may be while a group abort waits: completed and doomed, or cancelled. */
  predicate Settling(b: Job) {
    b.inTxn ==> !b.status.Pending? && if IsCompleted(b.status) then Doomed(b) else b.cancelled
  }

  ghost predicate Inv(s: State) {
    && (forall i {:trigger JobInv(s.jobs[i])} :: 0 <= i < |s.jobs| ==> JobInv(s.jobs[i]))
    && (!s.aborting ==> Calm(s.jobs))
    && (s.aborting ==> Stormy(s.jobs))
  }

  ghost predicate Calm(jobs: seq<Job>) {
    && (forall i {:trigger Undisturbed(jobs[i])} :: 0 <= i < |jobs| ==> Undisturbed(jobs[i]))
    && (forall i, k :: 0 <= i < |jobs| && 0 <= k < |jobs| && jobs[i].status.Pending? ==> jobs[k].status.Pending?)
    && (forall i, k :: 0 <= i < |jobs| && 0 <= k < |jobs| && !jobs[i].inTxn ==> !jobs[k].inTxn)
  }

  ghost predicate Stormy(jobs: seq<Job>) {
    && (forall i {:trigger Settling(jobs[i])} :: 0 <= i < |jobs| ==> Settling(jobs[i]))
    && (forall i, k :: 0 <= i < |jobs| && 0 <= k < |jobs| && !Doomed(jobs[i]) && !Doomed(jobs[k]) ==> i == k)
  }

  // --- Single jobs ---

  lemma InitInv(s: State)
    requires Init(s)
    ensures Inv(s)
  {
  }

  lemma UpdateRcWorks(b: Job)
    requires b.inTxn && (Doomed(b) ==> Allowed(b.status, Aborting))
    ensures UpdateRc(b) == Some(if Doomed(b) then b.(status := Aborting, ret := FinalRet(b)) else b)
  {
  }

  function FinalRet(b: Job): int {
    if b.ret == 0 && b.cancelled then ECANCELED else b.ret
  }

  lemma CancelAsyncWorks(b: Job)
    requires JobInv(b) && !b.status.Null?
    ensures CancelAsync(b).Some?
    ensures var c := CancelAsync(b).value;
      && c.cancelled && c ==
        b.(cancelled := true, userPaused := c.userPaused, pauseCount := c.pauseCount, ioError := c.ioError)
      && PausesCounted(c) && (b.inTxn ==> JobInv(c))
  {
  }

  lemma FinishedLog(log: seq<Event>, last: Event)
    requires Unfinished(log)
    ensures Finished(log + [last, Clean], last)
  {
    var longer := log + [last, Clean];
    assert longer[..|longer| - 2] == log;
  }

  lemma ConcludeWorks(b: Job)
    requires b.status.Pending? || b.status.Aborting?
    ensures Conclude(b) ==
      Some(if b.autoDismiss || !b.started then b.(status := Null, deferred := true, inTxn := false)
        else b.(status := Concluded))
  {
  }

  /** A finalised job. */
  function Final(b: Job): Job {
    var gone := b.autoDismiss || !b.started;
    b.(status := if gone then Null else Concluded, ret := FinalRet(b), deferred := b.deferred || gone, inTxn := false,
       log := b.log + [if Doomed(b) then Abort else Commit, Clean])
  }

  /** A completed member that is doomed or pending can be finalised: it aborts if doomed and commits if not. */
  lemma FinalizeWorks(b: Job)
    requires b.inTxn && IsCompleted(b.status) && !b.status.Concluded? && !b.status.Null?
    requires Doomed(b) || b.status.Pending?
    ensures FinalizeSingle(b) == Some(Final(b))
  {
    UpdateRcWorks(b);
    ConcludeWorks(Called(UpdateRc(b).value));
  }

  lemma FinalInv(b: Job)
    requires JobInv(b) && b.inTxn && IsCompleted(b.status)
    ensures JobInv(Final(b)) && (Doomed(Final(b)) <==> Doomed(b))
  {
    FinishedLog(b.log, if Doomed(b) then Abort else Commit);
  }

  /** What an operation on one job leaves alone. */
  ghost predicate Kept(b: Job, c: Job) {
    && c.cancelled == b.cancelled && c.inTxn == b.inTxn && c.log == b.log
    && (IsCompleted(b.status) <==> IsCompleted(c.status)) && (b.ret != 0 ==> c.ret == b.ret)
    && (IsCompleted(b.status) ==> c.ret == b.ret && (c.status == b.status || (b.status.Concluded? && c.status.Null?)))
  }

  lemma CoroutineOpWorks(b: Job, op: Op)
    requires JobInv(b) && OpEnabled(b, op) && (op.Start? || op.PausePoint? || op.Unpause? || op.BecomeReady?)
    ensures LocalOp(b, op).Some? && JobInv(LocalOp(b, op).value) && Kept(b, LocalOp(b, op).value)
  {
  }

  lemma ReturnWorks(b: Job, op: Op)
    requires JobInv(b) && OpEnabled(b, op) && (op.Return? || op.Dismiss?)
    ensures LocalOp(b, op).Some? && JobInv(LocalOp(b, op).value) && Kept(b, LocalOp(b, op).value)
  {
  }

  /** The two jobs differ in who holds them back only. */
  predicate OnlyPauses(b: Job, c: Job) {
    c == b.(pauseCount := c.pauseCount, userPaused := c.userPaused, ioError := c.ioError, drains := c.drains)
  }

  /** Counting a pause right keeps the rest. */
  lemma PausesKeep(b: Job, c: Job)
    requires JobInv(b) && OnlyPauses(b, c) && (!b.status.Null? ==> PausesCounted(c))
    ensures JobInv(c) && Kept(b, c)
  {
  }

  /** An operation that pauses or resumes works if the count comes out right. */
  lemma PauseOpWorks(b: Job, op: Op, c: Job)
    requires JobInv(b) && OpEnabled(b, op) && LocalOp(b, op) == Some(c)
    requires OnlyPauses(b, c) && (!b.status.Null? ==> PausesCounted(c))
    ensures LocalOp(b, op).Some? && JobInv(LocalOp(b, op).value) && Kept(b, LocalOp(b, op).value)
  {
    PausesKeep(b, c);
  }

  lemma UserResumeCounts(b: Job)
    requires PausesCounted(b)
    ensures UserResumeJob(b) ==
      Some(if b.userPaused then b.(userPaused := false, ioError := false, pauseCount := b.pauseCount - 1) else b)
  {
  }

  lemma UserOpWorks(b: Job, op: Op)
    requires JobInv(b) && OpEnabled(b, op) && (op.UserPause? || op.UserResume?)
    ensures LocalOp(b, op).Some? && JobInv(LocalOp(b, op).value) && Kept(b, LocalOp(b, op).value)
  {
    if op.UserPause? {
      var c := if b.userPaused then b else b.(userPaused := true, pauseCount := b.pauseCount + 1);
      PauseOpWorks(b, op, c);
    } else {
      UserResumeCounts(b);
      PauseOpWorks(b, op, UserResumeJob(b).value);
    }
  }

  lemma DrainOpWorks(b: Job, op: Op)
    requires JobInv(b) && OpEnabled(b, op) && (op.DrainBegin? || op.DrainEnd?)
    ensures LocalOp(b, op).Some? && JobInv(LocalOp(b, op).value) && Kept(b, LocalOp(b, op).value)
  {
    var step := if op.DrainBegin? then 1 else -1;
    PauseOpWorks(b, op, b.(pauseCount := b.pauseCount + step, drains := b.drains + step));
  }

  lemma ErrorOpWorks(b: Job, op: Op)
    requires JobInv(b) && OpEnabled(b, op) && op.ErrorStop?
    ensures LocalOp(b, op).Some? && JobInv(LocalOp(b, op).value) && Kept(b, LocalOp(b, op).value)
  {
    var count := if b.userPaused then b.pauseCount else b.pauseCount + 1;
    PauseOpWorks(b, op, b.(pauseCount := count, userPaused := true, ioError := true));
  }

  // --- Group operations ---

  ghost predicate AllHere(jobs: seq<Job>) {
    forall i {:trigger JobInv(jobs[i])} {:trigger jobs[i].inTxn} :: 0 <= i < |jobs| ==> JobInv(jobs[i]) && jobs[i].inTxn
  }

  ghost predicate SameCourse(b: Job, c: Job) {
    c.status == b.status && c.ret == b.ret && c.inTxn == b.inTxn && c.log == b.log
  }

  /** What the abort loop can deal with. */
  predicate Abortable(b: Job) {
    b.inTxn ==> if IsCompleted(b.status) then Doomed(b) || b.status.Pending? else b.cancelled
  }

  /** The members from i to k that are left on the list have completed. */
  ghost predicate AllDone(jobs: seq<Job>, i: nat, k: nat) {
    forall m :: i <= m <= k && m < |jobs| && jobs[m].inTxn ==> IsCompleted(jobs[m].status)
  }

  /** The abort loop finalises the members up to the first that has not completed. */
  lemma {:induction false} AbortLoopWorks(jobs: seq<Job>, i: nat)
    requires i <= |jobs|
    requires forall k {:trigger JobInv(jobs[k])} {:trigger Abortable(jobs[k])} :: 0 <= k < |jobs| ==>
      JobInv(jobs[k]) && Abortable(jobs[k])
    ensures AbortLoop(jobs, i).Some?
    ensures var r := AbortLoop(jobs, i).value;
      forall k :: 0 <= k < |jobs| ==>
        r[k] == if i <= k && jobs[k].inTxn && AllDone(jobs, i, k) then Final(jobs[k]) else jobs[k]
    decreases |jobs| - i
  {
    if i < |jobs| {
      assert JobInv(jobs[i]) && Abortable(jobs[i]);
      if !jobs[i].inTxn {
        AbortLoopWorks(jobs, i + 1);
        DoneFrom(jobs, jobs, i);
      } else if IsCompleted(jobs[i].status) {
        FinalizeWorks(jobs[i]);
        FinalInv(jobs[i]);
        var next := jobs[i := Final(jobs[i])];
        forall k | 0 <= k < |next| ensures JobInv(next[k]) && Abortable(next[k]) {
          assert k != i ==> JobInv(jobs[k]) && Abortable(jobs[k]);
        }
        AbortLoopWorks(next, i + 1);
        DoneFrom(jobs, next, i);
      }
    }
  }

  lemma DoneFrom(jobs: seq<Job>, next: seq<Job>, i: nat)
    requires i < |jobs| && |next| == |jobs| && next == jobs[i := next[i]]
    requires jobs[i].inTxn ==> IsCompleted(jobs[i].status)
    ensures forall k: nat :: i < k ==> (AllDone(jobs, i, k) <==> AllDone(next, i + 1, k))
  {
    forall k: nat | i < k ensures AllDone(jobs, i, k) <==> AllDone(next, i + 1, k) {
      assert forall m :: i < m < |jobs| ==> next[m] == jobs[m];
    }
  }

  /** One piece of the abort loop keeps the invariant. */
  lemma AbortLoopInv(jobs: seq<Job>)
    requires forall k {:trigger JobInv(jobs[k])} {:trigger Abortable(jobs[k])} :: 0 <= k < |jobs| ==>
      JobInv(jobs[k]) && Abortable(jobs[k])
    requires forall i, k :: 0 <= i < |jobs| && 0 <= k < |jobs| && !Doomed(jobs[i]) && !Doomed(jobs[k]) ==> i == k
    requires (exists i :: 0 <= i < |jobs| && jobs[i].status.Pending?) ==> AllDone(jobs, 0, |jobs|)
    ensures AbortLoop(jobs, 0).Some? && Inv(State(AbortLoop(jobs, 0).value, true))
    ensures forall k :: 0 <= k < |jobs| ==> (Doomed(AbortLoop(jobs, 0).value[k]) <==> Doomed(jobs[k]))
    ensures AllDone(jobs, 0, |jobs|) ==> forall k :: 0 <= k < |jobs| ==> !AbortLoop(jobs, 0).value[k].inTxn
  {
    AbortLoopWorks(jobs, 0);
    var r := AbortLoop(jobs, 0).value;
    forall k | 0 <= k < |r| ensures JobInv(r[k]) && Settling(r[k]) && (Doomed(r[k]) <==> Doomed(jobs[k])) {
      assert JobInv(jobs[k]) && Abortable(jobs[k]);
      if jobs[k].inTxn && AllDone(jobs, 0, k) {
        FinalInv(jobs[k]);
      }
    }
  }

  lemma CancelOthersWorks(jobs: seq<Job>, j: nat)
    requires AllHere(jobs)
    ensures CancelOthers(jobs, j).Some?
    ensures var c := CancelOthers(jobs, j).value;
      && |c| == |jobs| && AllHere(c)
      && forall k :: 0 <= k < |jobs| ==> if k == j then c[k] == jobs[k] else c[k].cancelled && SameCourse(jobs[k], c[k])
  {
    forall k | 0 <= k < |jobs| ensures jobs[k].inTxn && CancelAsync(jobs[k]).Some? && JobInv(CancelAsync(jobs[k]).value)
        && CancelAsync(jobs[k]).value.cancelled && SameCourse(jobs[k], CancelAsync(jobs[k]).value) {
      assert JobInv(jobs[k]);
      CancelAsyncWorks(jobs[k]);
    }
  }

  /**
   What the start of a group abort comes to: all members are doomed afterwards, except for an
   initiator that was neither failed nor cancelled.
   */
  lemma AbortWorks(s: State, j: nat)
    requires j < |s.jobs| && !s.aborting && AllHere(s.jobs) && Abortable(s.jobs[j])
    requires (exists i :: 0 <= i < |s.jobs| && s.jobs[i].status.Pending?) ==> AllDone(s.jobs, 0, |s.jobs|)
    ensures TxnAbort(s, j).Some?
    ensures var t := TxnAbort(s, j).value;
      && Inv(t) && t.aborting && |t.jobs| == |s.jobs|
      && (forall k :: 0 <= k < |t.jobs| ==> (Doomed(t.jobs[k]) <==> k != j || Doomed(s.jobs[j])))
      && (AllDone(s.jobs, 0, |s.jobs|) ==> forall k :: 0 <= k < |t.jobs| ==> !t.jobs[k].inTxn)
  {
    CancelOthersWorks(s.jobs, j);
    var c := CancelOthers(s.jobs, j).value;
    forall k | 0 <= k < |c| ensures JobInv(c[k]) && Abortable(c[k]) && (k != j ==> Doomed(c[k])) {
      assert JobInv(c[k]);
    }
    AbortLoopInv(c);
  }

  /** Pending, with success so far. */
  predicate Poised(b: Job) {
    b.status.Pending? && b.inTxn && !Doomed(b)
  }

  function Prepared(b: Job, rc: int): Job {
    if rc == 0 then b.(log := b.log + [Prepare]) else b.(ret := rc, status := Aborting, log := b.log + [Prepare])
  }

  lemma PrepareOneWorks(b: Job, rc: int)
    requires JobInv(b) && Poised(b)
    ensures PrepareOne(b, rc) == Some(Prepared(b, rc)) && JobInv(Prepared(b, rc))
  {
    UpdateRcWorks(b.(ret := rc, log := b.log + [Prepare]));
  }

  /** The prepare callbacks of the jobs from i up to k succeed. */
  ghost predicate AllPrepare(i: nat, k: nat, prep: nat -> int) {
    forall m: nat :: i <= m < k ==> prep(m) == 0
  }

  /** The prepare loop calls everyone up to the first failure, and nobody after it. */
  lemma {:induction false} PrepareWorks(jobs: seq<Job>, i: nat, prep: nat -> int)
    requires i <= |jobs| && forall k {:trigger Poised(jobs[k])} {:trigger JobInv(jobs[k])} :: 0 <= k < |jobs| ==>
      JobInv(jobs[k]) && Poised(jobs[k])
    ensures PrepareFrom(jobs, i, prep).Some?
    ensures var r := PrepareFrom(jobs, i, prep).value;
      && |r.0| == |jobs| && (r.1 <==> AllPrepare(i, |jobs|, prep))
      && forall k: nat :: k < |jobs| ==>
           r.0[k] == if i <= k && AllPrepare(i, k, prep) then Prepared(jobs[k], prep(k)) else jobs[k]
    decreases |jobs| - i
  {
    if i < |jobs| {
      PrepareOneWorks(jobs[i], prep(i));
      if prep(i) == 0 {
        PrepareWorks(jobs[i := Prepared(jobs[i], prep(i))], i + 1, prep);
        forall k: nat | i < k ensures AllPrepare(i + 1, k, prep) <==> AllPrepare(i, k, prep) {
        }
      }
    }
  }

  /** The initiator's own prepare is the one that stops the loop. */
  ghost predicate FailsFirst(j: nat, prep: nat -> int) {
    AllPrepare(0, j, prep) && prep(j) != 0
  }

  lemma PreparedAll(jobs: seq<Job>, prep: nat -> int)
    requires forall k {:trigger Poised(jobs[k])} {:trigger JobInv(jobs[k])} :: 0 <= k < |jobs| ==>
      JobInv(jobs[k]) && Poised(jobs[k])
    ensures PrepareFrom(jobs, 0, prep).Some?
    ensures var r := PrepareFrom(jobs, 0, prep).value;
      && |r.0| == |jobs| && AllHere(r.0) && (r.1 <==> AllPrepare(0, |jobs|, prep))
      && forall k: nat {:trigger r.0[k]} :: k < |r.0| ==>
           && Abortable(r.0[k]) && IsCompleted(r.0[k].status)
           && (Doomed(r.0[k]) <==> FailsFirst(k, prep)) && (!Doomed(r.0[k]) ==> Poised(r.0[k]))
  {
    PrepareWorks(jobs, 0, prep);
    var r := PrepareFrom(jobs, 0, prep).value.0;
    forall k: nat | k < |r|
      ensures JobInv(r[k]) && r[k].inTxn && Abortable(r[k]) && IsCompleted(r[k].status)
      ensures (Doomed(r[k]) <==> FailsFirst(k, prep)) && (!Doomed(r[k]) ==> Poised(r[k]))
    {
      assert Poised(jobs[k]);
      PrepareOneWorks(jobs[k], prep(k));
    }
  }

  lemma FinalizeEveryone(jobs: seq<Job>)
    requires forall k {:trigger Poised(jobs[k])} {:trigger JobInv(jobs[k])} :: 0 <= k < |jobs| ==>
      JobInv(jobs[k]) && Poised(jobs[k])
    ensures Everyone(jobs, FinalizeSingle).Some?
    ensures var all := Everyone(jobs, FinalizeSingle).value; |all| == |jobs| && forall k :: 0 <= k < |all| ==>
      all[k] == Final(jobs[k])
    ensures Inv(State(Everyone(jobs, FinalizeSingle).value, false))
  {
    forall k | 0 <= k < |jobs|
      ensures jobs[k].inTxn && FinalizeSingle(jobs[k]) == Some(Final(jobs[k])) && JobInv(Final(jobs[k]))
      ensures !Doomed(Final(jobs[k]))
    {
      assert Poised(jobs[k]);
      FinalizeWorks(jobs[k]);
      FinalInv(jobs[k]);
    }
  }

  /** The members are all pending and nothing has gone wrong: job_do_finalize is called. */
  ghost predicate AllPoised(s: State, j: nat) {
    j < |s.jobs| && !s.aborting && forall k {:trigger Poised(s.jobs[k])} {:trigger JobInv(s.jobs[k])} ::
      0 <= k < |s.jobs| ==> JobInv(s.jobs[k]) && Poised(s.jobs[k])
  }

  /** If every prepare returns 0, every member commits. */
  lemma FinalizeCommits(s: State, j: nat, prep: nat -> int)
    requires AllPoised(s, j) && AllPrepare(0, |s.jobs|, prep)
    ensures DoFinalize(s, j, prep).Some?
    ensures var t := DoFinalize(s, j, prep).value;
      && Inv(t) && !t.aborting && |t.jobs| == |s.jobs|
      && forall k :: 0 <= k < |t.jobs| ==> t.jobs[k].log == s.jobs[k].log + [Prepare] + [Commit, Clean]
  {
    PrepareWorks(s.jobs, 0, prep);
    PreparedAll(s.jobs, prep);
    assert Poised(s.jobs[j]);
    var r := PrepareFrom(s.jobs, 0, prep).value.0;
    forall k: nat | k < |r| ensures JobInv(r[k]) && Poised(r[k]) && r[k].log == s.jobs[k].log + [Prepare] {
      assert AllPrepare(0, k, prep);
      assert !FailsFirst(k, prep);
    }
    FinalizeEveryone(r);
  }

  /** If one of them fails, the group is aborted; the initiator is part of it exactly when it failed first itself. */
  lemma FinalizeAborts(s: State, j: nat, prep: nat -> int)
    requires AllPoised(s, j) && !AllPrepare(0, |s.jobs|, prep)
    ensures DoFinalize(s, j, prep).Some?
    ensures var t := DoFinalize(s, j, prep).value;
      && Inv(t) && t.aborting && |t.jobs| == |s.jobs|
      && (Doomed(t.jobs[j]) <==> FailsFirst(j, prep))
      && forall k :: 0 <= k < |t.jobs| ==> !t.jobs[k].inTxn && (k != j ==> Doomed(t.jobs[k]))
  {
    PreparedAll(s.jobs, prep);
    assert Poised(s.jobs[j]);
    AbortWorks(s.(jobs := PrepareFrom(s.jobs, 0, prep).value.0), j);
  }

  lemma DoFinalizeWorks(s: State, j: nat, prep: nat -> int)
    requires AllPoised(s, j)
    ensures DoFinalize(s, j, prep).Some? && Inv(DoFinalize(s, j, prep).value)
    ensures |DoFinalize(s, j, prep).value.jobs| == |s.jobs|
  {
    if AllPrepare(0, |s.jobs|, prep) { FinalizeCommits(s, j, prep); } else { FinalizeAborts(s, j, prep); }
  }

  lemma {:induction false} CheckWorks(jobs: seq<Job>, i: nat)
    requires i <= |jobs| && forall k :: 0 <= k < |jobs| ==>
      jobs[k].inTxn && (IsCompleted(jobs[k].status) ==> jobs[k].ret == 0)
    ensures CheckFrom(jobs, i) == Some(forall k :: i <= k < |jobs| ==> IsCompleted(jobs[k].status))
    decreases |jobs| - i
  {
    if i < |jobs| && IsCompleted(jobs[i].status) {
      CheckWorks(jobs, i + 1);
    }
  }

  // --- Completion ---

  /** A job in job_completed: its coroutine has ended, or it was cancelled before it started. */
  predicate Finishing(b: Job) {
    && b.inTxn && !b.exitPending
    && if b.started then b.deferred && (b.status.Running? || b.status.Ready?)
       else b.status.Created? && b.cancelled && !b.deferred && b.ret == 0
  }

  ghost predicate FinishingInv(b: Job) {
    Finishing(b) && Unfinished(b.log) && PausesCounted(b)
  }

  lemma CompleteOne(b: Job)
    requires FinishingInv(b)
    ensures Doomed(b) ==> UpdateRc(b) == Some(b.(status := Aborting, ret := FinalRet(b))) && JobInv(UpdateRc(b).value)
    ensures !Doomed(b) ==>
      UpdateRc(b) == Some(b) && Transition(b, Waiting) == Some(b.(status := Waiting)) && JobInv(b.(status := Waiting))
  {
    UpdateRcWorks(b);
  }

  ghost predicate EveryoneCompleted(jobs: seq<Job>) {
    forall k :: 0 <= k < |jobs| ==> IsCompleted(jobs[k].status)
  }

  function Pended(jobs: seq<Job>): seq<Job> {
    seq(|jobs|, (k: int) requires 0 <= k < |jobs| => jobs[k].(status := Pending, log := jobs[k].log + [Pend]))
  }

  /** The group once the job j, now b, has joined those that wait. */
  function Joined(s: State, j: nat, b: Job): State
    requires j < |s.jobs|
  {
    s.(jobs := s.jobs[j := b.(status := Waiting)])
  }

  /** job_completed_txn_success, when nothing has gone wrong: wait, or become pending together and perhaps finalise. */
  lemma SuccessShape(s0: State, b: Job, j: nat, prep: nat -> int)
    requires Inv(s0) && !s0.aborting && j < |s0.jobs| && !IsCompleted(s0.jobs[j].status) && FinishingInv(b)
    requires !Doomed(b)
    ensures var s1, r := Joined(s0, j, b), TxnSuccess(s0.(jobs := s0.jobs[j := b]), j, prep);
      && Inv(s1)
      && (!EveryoneCompleted(s1.jobs) ==> r == Some(s1))
      && (EveryoneCompleted(s1.jobs) ==>
            var p := s1.(jobs := Pended(s1.jobs));
            AllPoised(p, j) && r == if NobodyWaits(p.jobs) then DoFinalize(p, j, prep) else Some(p))
  {
    CompleteOne(b);
    var s1 := Joined(s0, j, b);
    assert (s0.jobs[j := b])[j := b.(status := Waiting)] == s1.jobs;
    assert JobInv(s0.jobs[j]) && s0.jobs[j].inTxn;
    forall k | 0 <= k < |s1.jobs|
      ensures JobInv(s1.jobs[k]) && s1.jobs[k].inTxn && Undisturbed(s1.jobs[k]) && !s1.jobs[k].status.Pending?
    {
      if k != j {
        assert JobInv(s0.jobs[k]) && Undisturbed(s0.jobs[k]);
      }
    }
    CheckWorks(s1.jobs, 0);
    if EveryoneCompleted(s1.jobs) {
      PendEveryone(s1.jobs);
      assert Everyone(s1.jobs, ToPending).value == Pended(s1.jobs);
    }
  }

  lemma PoisedInv(s: State, j: nat)
    requires AllPoised(s, j)
    ensures Inv(s)
  {
    forall k | 0 <= k < |s.jobs|
      ensures JobInv(s.jobs[k]) && Undisturbed(s.jobs[k]) && s.jobs[k].status.Pending? && s.jobs[k].inTxn
    {
      assert Poised(s.jobs[k]);
    }
  }

  lemma SuccessWorks(s0: State, b: Job, j: nat, prep: nat -> int)
    requires Inv(s0) && !s0.aborting && j < |s0.jobs| && !IsCompleted(s0.jobs[j].status) && FinishingInv(b)
    requires !Doomed(b)
    ensures var r := TxnSuccess(s0.(jobs := s0.jobs[j := b]), j, prep);
      r.Some? && Inv(r.value) && |r.value.jobs| == |s0.jobs|
  {
    SuccessShape(s0, b, j, prep);
    var s1 := Joined(s0, j, b);
    if EveryoneCompleted(s1.jobs) {
      var p := s1.(jobs := Pended(s1.jobs));
      PoisedInv(p, j);
      DoFinalizeWorks(p, j, prep);
    }
  }

  lemma PendEveryone(jobs: seq<Job>)
    requires forall k :: 0 <= k < |jobs| ==>
      JobInv(jobs[k]) && jobs[k].inTxn && IsCompleted(jobs[k].status) && Undisturbed(jobs[k])
        && !jobs[k].status.Pending?
    ensures Everyone(jobs, ToPending).Some?
    ensures var p := Everyone(jobs, ToPending).value;
      && |p| == |jobs|
      && forall k :: 0 <= k < |p| ==>
        p[k] == jobs[k].(status := Pending, log := jobs[k].log + [Pend]) && JobInv(p[k]) && Poised(p[k])
  {
    forall k | 0 <= k < |jobs|
      ensures ToPending(jobs[k]) == Some(jobs[k].(status := Pending, log := jobs[k].log + [Pend]))
    {
    }
  }

  /** job_completed */
  lemma CompletedWorks(s0: State, b: Job, j: nat, prep: nat -> int)
    requires Inv(s0) && j < |s0.jobs| && !IsCompleted(s0.jobs[j].status) && FinishingInv(b)
    requires s0.aborting ==> b.cancelled
    ensures var r := Completed(s0.(jobs := s0.jobs[j := b]), j, prep);
      r.Some? && Inv(r.value) && |r.value.jobs| == |s0.jobs|
  {
    CompleteOne(b);
    var s := s0.(jobs := s0.jobs[j := b]);
    if Doomed(b) {
      var c := UpdateRc(b).value;
      assert s.jobs[j := c] == s0.jobs[j := c];
      var s1 := s0.(jobs := s0.jobs[j := c]);
      assert JobInv(s0.jobs[j]) && s0.jobs[j].inTxn;
      if !s0.aborting {
        forall k | 0 <= k < |s1.jobs| ensures JobInv(s1.jobs[k]) && s1.jobs[k].inTxn {
          assert JobInv(s0.jobs[k]);
        }
        AbortWorks(s1, j);
      } else {
        StormyStep(s0, c, j);
      }
    } else {
      assert s.jobs[j := b] == s.jobs;
      SuccessWorks(s0, b, j, prep);
    }
  }

  /** During a group abort a member may change as long as it stays doomed. */
  lemma StormyStep(s: State, c: Job, j: nat)
    requires Inv(s) && s.aborting && j < |s.jobs| && JobInv(c) && Settling(c) && (!Doomed(c) ==> !Doomed(s.jobs[j]))
    ensures Inv(s.(jobs := s.jobs[j := c]))
  {
    var t := s.jobs[j := c];
    forall i, k | 0 <= i < |t| && 0 <= k < |t| && !Doomed(t[i]) && !Doomed(t[k]) ensures i == k {
      assert !Doomed(s.jobs[i]) && !Doomed(s.jobs[k]);
    }
  }

  // --- Every step ---

  lemma LocalOpWorks(b: Job, op: Op)
    requires JobInv(b) && OpEnabled(b, op) && !op.Exit? && !op.Cancel? && !op.Finalize?
    ensures LocalOp(b, op).Some? && JobInv(LocalOp(b, op).value) && Kept(b, LocalOp(b, op).value)
  {
    if op.Return? || op.Dismiss? {
      ReturnWorks(b, op);
    } else if op.UserPause? || op.UserResume? {
      UserOpWorks(b, op);
    } else if op.DrainBegin? || op.DrainEnd? {
      DrainOpWorks(b, op);
    } else if op.ErrorStop? {
      ErrorOpWorks(b, op);
    } else {
      CoroutineOpWorks(b, op);
    }
  }

  lemma LocalStep(s: State, j: nat, c: Job)
    requires Inv(s) && j < |s.jobs| && JobInv(c) && Kept(s.jobs[j], c)
    ensures Inv(s.(jobs := s.jobs[j := c]))
  {
    var b, t := s.jobs[j], s.jobs[j := c];
    assert JobInv(b);
    if s.aborting {
      assert Settling(b);
      if !Doomed(c) {
        assert !Doomed(b);
      }
      StormyStep(s, c, j);
    } else {
      assert Undisturbed(b) && Undisturbed(c);
      forall i | 0 <= i < |t| ensures Undisturbed(t[i]) {
        assert Undisturbed(s.jobs[i]);
      }
    }
  }

  /** The abort loop goes on. */
  lemma AbortStepWorks(s: State)
    requires Inv(s) && s.aborting
    ensures AbortLoop(s.jobs, 0).Some? && Inv(s.(jobs := AbortLoop(s.jobs, 0).value))
    ensures forall k :: 0 <= k < |s.jobs| ==> (Doomed(AbortLoop(s.jobs, 0).value[k]) <==> Doomed(s.jobs[k]))
  {
    forall k | 0 <= k < |s.jobs| ensures JobInv(s.jobs[k]) && Abortable(s.jobs[k]) && !s.jobs[k].status.Pending? {
      assert JobInv(s.jobs[k]) && Settling(s.jobs[k]);
    }
    AbortLoopInv(s.jobs);
  }

  lemma CancelWorks(s: State, j: nat)
    requires Inv(s) && j < |s.jobs| && OpEnabled(s.jobs[j], Cancel)
    ensures CancelJob(s, j).Some? && Inv(CancelJob(s, j).value) && |CancelJob(s, j).value.jobs| == |s.jobs|
  {
    var b := s.jobs[j];
    assert JobInv(b);
    if b.status.Concluded? {
      ReturnWorks(b, Dismiss);
      LocalStep(s, j, DoDismiss(b).value);
    } else {
      CancelAsyncWorks(b);
      var c := CancelAsync(b).value;
      if !b.started {
        CompletedWorks(s, c, j, (i: nat) => 0);
      } else if s.aborting {
        assert Settling(b);
        StormyStep(s, c, j);
      } else {
        CancelCalm(s, j, c);
      }
    }
  }

  lemma CancelCalm(s: State, j: nat, c: Job)
    requires Inv(s) && !s.aborting && j < |s.jobs| && s.jobs[j].started && !s.jobs[j].status.Concluded?
    requires !s.jobs[j].status.Null?
    requires JobInv(c) && c.cancelled && SameCourse(s.jobs[j], c) && c.deferred == s.jobs[j].deferred
    ensures var t := s.(jobs := s.jobs[j := c]);
      if c.deferred then TxnAbort(t, j).Some? && Inv(TxnAbort(t, j).value) && |TxnAbort(t, j).value.jobs| == |s.jobs|
          else Inv(t)
  {
    var t := s.(jobs := s.jobs[j := c]);
    assert JobInv(s.jobs[j]) && Undisturbed(s.jobs[j]);
    forall i | 0 <= i < |t.jobs| ensures JobInv(t.jobs[i]) && t.jobs[i].inTxn && (i != j ==> Undisturbed(t.jobs[i])) {
      assert JobInv(s.jobs[i]) && Undisturbed(s.jobs[i]);
    }
    if c.deferred {
      AbortWorks(t, j);
    } else {
      forall i | 0 <= i < |t.jobs| ensures Undisturbed(t.jobs[i]) {
      }
    }
  }

  lemma FinalizeRequest(s: State, j: nat)
    requires Inv(s) && j < |s.jobs| && s.jobs[j].status.Pending? && !s.aborting
    ensures AllPoised(s, j)
  {
    forall k | 0 <= k < |s.jobs| ensures JobInv(s.jobs[k]) && Poised(s.jobs[k]) {
      assert JobInv(s.jobs[k]) && Undisturbed(s.jobs[k]);
    }
  }
}
