/**
 What a run makes of the operations it consists of (job.c, blockjob.c): the result of a job is the one its run
 function returned, a failed result is never lost and takes the group with it, pauses are exactly those that
 somebody asked for, and a job stops at a pause point exactly when it is held back.
 */
module JobCourses {
  import opened Options
  import opened Jobs
  import opened JobSafety
  import opened JobTheorems
  import opened JobGroups

  // --- What group operations leave alone ---

  /**
   The job keeps its drained sections and its coroutine, and its status unless it completes.  It stays paused by the
   user unless it is cancelled.  A result that is there stays, and a new one is that of a cancellation or the one of
   its prepare, p.
   */
  predicate Spared(b: Job, c: Job, p: int) {
    && c.drains == b.drains && c.started == b.started
    && (c.status == b.status || IsCompleted(c.status)) && (IsCompleted(b.status) ==> IsCompleted(c.status))
    && (c.userPaused == b.userPaused || (!c.userPaused && c.cancelled)) && (b.cancelled ==> c.cancelled)
    && (c.ret == b.ret || (b.ret == 0 && (c.ret == p || (c.ret == ECANCELED && c.cancelled))))
  }

  ghost predicate AllSpared(js: seq<Job>, kt: seq<Job>, prep: nat -> int) {
    |kt| == |js| && forall k: nat {:trigger Spared(js[k], kt[k], prep(k))} :: k < |js| ==> Spared(js[k], kt[k], prep(k))
  }

  lemma SparedTwice(a: Job, b: Job, c: Job, p: int)
    requires Spared(a, b, p) && Spared(b, c, p)
    ensures Spared(a, c, p)
  {
  }

  lemma AllSparedTwice(a: seq<Job>, b: seq<Job>, c: seq<Job>, prep: nat -> int)
    requires AllSpared(a, b, prep) && AllSpared(b, c, prep)
    ensures AllSpared(a, c, prep)
  {
    forall k: nat | k < |a| ensures Spared(a[k], c[k], prep(k)) {
      assert Spared(a[k], b[k], prep(k)) && Spared(b[k], c[k], prep(k));
      SparedTwice(a[k], b[k], c[k], prep(k));
    }
  }

  lemma SparedOne(js: seq<Job>, j: nat, c: Job, prep: nat -> int)
    requires j < |js| && Spared(js[j], c, prep(j))
    ensures AllSpared(js, js[j := c], prep)
  {
    forall k: nat | k < |js| ensures Spared(js[k], js[j := c][k], prep(k)) {
    }
  }

  lemma CancelSpares(b: Job, p: int)
    requires CancelAsync(b).Some?
    ensures Spared(b, CancelAsync(b).value, p)
  {
  }

  lemma TransitionIs(b: Job, to: Status)
    requires Transition(b, to).Some?
    ensures Transition(b, to).value == b.(status := to)
  {
  }

  /** The job with the result of a cancellation, if it has no other. */
  function Rated(b: Job): Job {
    if b.ret == 0 && b.cancelled then b.(ret := ECANCELED) else b
  }

  lemma UpdateIs(b: Job)
    requires UpdateRc(b).Some?
    ensures UpdateRc(b).value == Rated(b).(status := if Rated(b).ret != 0 then Aborting else b.status)
  {
    if Rated(b).ret != 0 {
      TransitionIs(Rated(b), Aborting);
    }
  }

  lemma UpdateSpares(b: Job, p: int)
    requires UpdateRc(b).Some?
    ensures Spared(b, UpdateRc(b).value, p)
  {
    UpdateIs(b);
    RatedSpares(b, UpdateRc(b).value, p);
  }

  lemma RatedSpares(b: Job, c: Job, p: int)
    requires c == Rated(b).(status := if Rated(b).ret != 0 then Aborting else b.status)
    ensures Spared(b, c, p)
  {
    if b.ret == 0 && b.cancelled {
      assert c == b.(ret := ECANCELED, status := Aborting);
    } else if b.ret != 0 {
      assert c == b.(status := Aborting);
    } else {
      assert c == b;
    }
  }

  lemma ConcludeSpares(b: Job, p: int)
    requires Conclude(b).Some?
    ensures Spared(b, Conclude(b).value, p)
  {
    TransitionIs(b, Concluded);
    var c := Transition(b, Concluded).value;
    if b.autoDismiss || !b.started {
      TransitionIs(c.(deferred := true, inTxn := false), Null);
    }
  }

  lemma FinalizeSpares(b: Job, p: int)
    requires FinalizeSingle(b).Some?
    ensures Spared(b, FinalizeSingle(b).value, p)
  {
    UpdateSpares(b, p);
    var c := UpdateRc(b).value;
    ConcludeSpares(Called(c), p);
    SparedTwice(b, c, Called(c), p);
    SparedTwice(b, Called(c), FinalizeSingle(b).value, p);
  }

  lemma PrepareSpares(b: Job, rc: int)
    requires PrepareOne(b, rc).Some?
    ensures Spared(b, PrepareOne(b, rc).value, rc)
  {
    if b.ret == 0 {
      UpdateSpares(b.(ret := rc, log := b.log + [Prepare]), rc);
    }
  }

  lemma {:induction false} LoopSpares(jobs: seq<Job>, i: nat, prep: nat -> int)
    requires AbortLoop(jobs, i).Some?
    ensures AllSpared(jobs, AbortLoop(jobs, i).value, prep)
    decreases |jobs| - i
  {
    if i < |jobs| {
      if !jobs[i].inTxn {
        LoopSpares(jobs, i + 1, prep);
      } else if IsCompleted(jobs[i].status) {
        var b := FinalizeSingle(jobs[i]).value;
        FinalizeSpares(jobs[i], prep(i));
        SparedOne(jobs, i, b, prep);
        LoopSpares(jobs[i := b], i + 1, prep);
        AllSparedTwice(jobs, jobs[i := b], AbortLoop(jobs, i).value, prep);
      }
    }
  }

  lemma {:induction false} PrepareLoopSpares(jobs: seq<Job>, i: nat, prep: nat -> int)
    requires PrepareFrom(jobs, i, prep).Some?
    ensures AllSpared(jobs, PrepareFrom(jobs, i, prep).value.0, prep)
    decreases |jobs| - i
  {
    if i < |jobs| {
      if !jobs[i].inTxn {
        PrepareLoopSpares(jobs, i + 1, prep);
      } else {
        var b := PrepareOne(jobs[i], prep(i)).value;
        PrepareSpares(jobs[i], prep(i));
        SparedOne(jobs, i, b, prep);
        if b.ret == 0 {
          PrepareLoopSpares(jobs[i := b], i + 1, prep);
          AllSparedTwice(jobs, jobs[i := b], PrepareFrom(jobs, i, prep).value.0, prep);
        }
      }
    }
  }

  lemma AbortSpares(s: State, j: nat, prep: nat -> int)
    requires TxnAbort(s, j).Some?
    ensures AllSpared(s.jobs, TxnAbort(s, j).value.jobs, prep)
  {
    if !s.aborting {
      var c := CancelOthers(s.jobs, j).value;
      forall k: nat | k < |s.jobs| ensures Spared(s.jobs[k], c[k], prep(k)) {
        if k != j && s.jobs[k].inTxn {
          CancelSpares(s.jobs[k], prep(k));
        }
      }
      LoopSpares(c, 0, prep);
      AllSparedTwice(s.jobs, c, AbortLoop(c, 0).value, prep);
    }
  }

  lemma DoFinalizeSpares(s: State, j: nat, prep: nat -> int)
    requires j < |s.jobs| && DoFinalize(s, j, prep).Some?
    ensures AllSpared(s.jobs, DoFinalize(s, j, prep).value.jobs, prep)
  {
    var r := PrepareFrom(s.jobs, 0, prep).value;
    PrepareLoopSpares(s.jobs, 0, prep);
    if !r.1 {
      AbortSpares(s.(jobs := r.0), j, prep);
      AllSparedTwice(s.jobs, r.0, TxnAbort(s.(jobs := r.0), j).value.jobs, prep);
    } else {
      var all := Everyone(r.0, FinalizeSingle).value;
      forall k: nat | k < |r.0| ensures Spared(r.0[k], all[k], prep(k)) {
        if r.0[k].inTxn {
          FinalizeSpares(r.0[k], prep(k));
        }
      }
      AllSparedTwice(s.jobs, r.0, all, prep);
    }
  }

  lemma SuccessSpares(s: State, j: nat, prep: nat -> int)
    requires j < |s.jobs| && TxnSuccess(s, j, prep).Some?
    ensures AllSpared(s.jobs, TxnSuccess(s, j, prep).value.jobs, prep)
  {
    var b := Transition(s.jobs[j], Waiting).value;
    var s1 := s.(jobs := s.jobs[j := b]);
    SparedOne(s.jobs, j, b, prep);
    if CheckFrom(s1.jobs, 0).value {
      var p := Everyone(s1.jobs, ToPending).value;
      forall k: nat | k < |p| ensures Spared(s1.jobs[k], p[k], prep(k)) {
      }
      AllSparedTwice(s.jobs, s1.jobs, p, prep);
      if NobodyWaits(p) {
        DoFinalizeSpares(s1.(jobs := p), j, prep);
        AllSparedTwice(s.jobs, p, TxnSuccess(s, j, prep).value.jobs, prep);
      }
    }
  }

  lemma CompletedSpares(s: State, j: nat, prep: nat -> int)
    requires j < |s.jobs| && Completed(s, j, prep).Some?
    ensures AllSpared(s.jobs, Completed(s, j, prep).value.jobs, prep)
  {
    var b := UpdateRc(s.jobs[j]).value;
    var s1 := s.(jobs := s.jobs[j := b]);
    UpdateSpares(s.jobs[j], prep(j));
    SparedOne(s.jobs, j, b, prep);
    if b.ret != 0 {
      AbortSpares(s1, j, prep);
    } else {
      SuccessSpares(s1, j, prep);
    }
    AllSparedTwice(s.jobs, s1.jobs, Completed(s, j, prep).value.jobs, prep);
  }

  lemma CancelJobSpares(s: State, j: nat, prep: nat -> int)
    requires j < |s.jobs| && CancelJob(s, j).Some? && forall i: nat :: prep(i) == 0
    ensures AllSpared(s.jobs, CancelJob(s, j).value.jobs, prep)
  {
    var b := s.jobs[j];
    if b.status.Concluded? {
      SparedOne(s.jobs, j, DoDismiss(b).value, prep);
    } else {
      var c := CancelAsync(b).value;
      var s1 := s.(jobs := s.jobs[j := c]);
      CancelSpares(b, prep(j));
      SparedOne(s.jobs, j, c, prep);
      if !b.started {
        CompletedSpares(s1, j, (i: nat) => 0);
        AllSparedSame(s1.jobs, CancelJob(s, j).value.jobs, (i: nat) => 0, prep);
        AllSparedTwice(s.jobs, s1.jobs, CancelJob(s, j).value.jobs, prep);
      } else if b.deferred {
        AbortSpares(s1, j, prep);
        AllSparedTwice(s.jobs, s1.jobs, CancelJob(s, j).value.jobs, prep);
      }
    }
  }

  lemma AllSparedSame(a: seq<Job>, b: seq<Job>, p: nat -> int, q: nat -> int)
    requires AllSpared(a, b, p) && forall i: nat :: p(i) == q(i)
    ensures AllSpared(a, b, q)
  {
    forall k: nat | k < |a| ensures Spared(a[k], b[k], q(k)) {
      assert Spared(a[k], b[k], p(k)) && p(k) == q(k);
    }
  }

  // --- One step, seen from one job ---

  /** An operation that concerns the job k alone. */
  predicate IsLocal(a: Action, k: nat) {
    a.On? && a.j == k && !a.op.Exit? && !a.op.Cancel? && !a.op.Finalize?
  }

  /** The result that prepare gives to the job k in this step, if it is called. */
  function PrepOf(a: Action, k: nat): int {
    if a.On? && a.op.Exit? then a.op.prep(k) else if a.On? && a.op.Finalize? then a.op.prep(k) else 0
  }

  /** Every step but a local one on the job itself spares it. */
  lemma StepSpares(s: State, a: Action, k: nat)
    requires Enabled(s, a) && Apply(s, a).Some? && k < |s.jobs| && !IsLocal(a, k)
    ensures k < |Apply(s, a).value.jobs| && Spared(s.jobs[k], Apply(s, a).value.jobs[k], PrepOf(a, k))
  {
    var zero := (i: nat) => 0;
    match a
    case AbortStep =>
      LoopSpares(s.jobs, 0, zero);
      assert Spared(s.jobs[k], AbortLoop(s.jobs, 0).value[k], zero(k));
    case On(j, op) =>
      var kt := Apply(s, a).value.jobs;
      if op.Exit? {
        var b := s.jobs[j].(exitPending := false);
        var s0 := s.(jobs := s.jobs[j := b]);
        SparedOne(s.jobs, j, b, op.prep);
        CompletedSpares(s0, j, op.prep);
        AllSparedTwice(s.jobs, s0.jobs, kt, op.prep);
        assert Spared(s.jobs[k], kt[k], op.prep(k));
      } else if op.Cancel? {
        CancelJobSpares(s, j, zero);
        assert Spared(s.jobs[k], kt[k], zero(k));
      } else if op.Finalize? {
        DoFinalizeSpares(s, j, op.prep);
        assert Spared(s.jobs[k], kt[k], op.prep(k));
      }
  }

  /** The job k before and after the i-th step. */
  lemma StepOf(states: seq<State>, actions: seq<Action>, i: nat, k: nat)
    requires Run(states, actions) && Init(states[0]) && i < |actions| && k < |states[0].jobs|
    ensures |states[i].jobs| == |states[i + 1].jobs| == |states[0].jobs| && Inv(states[i]) && JobInv(states[i].jobs[k])
    ensures Enabled(states[i], actions[i])
    ensures IsLocal(actions[i], k) ==> LocalOp(states[i].jobs[k], actions[i].op) == Some(states[i + 1].jobs[k])
    ensures !IsLocal(actions[i], k) ==> Spared(states[i].jobs[k], states[i + 1].jobs[k], PrepOf(actions[i], k))
  {
    EvolvesAt(states, actions, i, k);
    RunInv(states, actions, i);
    assert JobInv(states[i].jobs[k]);
    assert StepAt(states, actions, i);
    if !IsLocal(actions[i], k) {
      StepSpares(states[i], actions[i], k);
    }
  }

  // --- Results ---

  /** A result other than 0 is never changed. */
  lemma {:induction false} ResultStays(states: seq<State>, actions: seq<Action>, i: nat, m: nat, k: nat)
    requires Run(states, actions) && Init(states[0]) && i <= m < |states| && k < |states[0].jobs|
    ensures |states[i].jobs| == |states[m].jobs| == |states[0].jobs|
    ensures states[i].jobs[k].ret != 0 ==> states[m].jobs[k].ret == states[i].jobs[k].ret
    decreases m
  {
    if i < m {
      ResultStays(states, actions, i, m - 1, k);
      StepOf(states, actions, m - 1, k);
      if states[i].jobs[k].ret != 0 {
        KeepsResult(states[m - 1].jobs[k], states[m].jobs[k], actions[m - 1], k);
      }
    } else {
      CourseIsFinal(states, actions, 0, m, k);
      RunInv(states, actions, m);
    }
  }

  /** Of the operations on one job only the return from run sets its result. */
  lemma LocalResult(b: Job, op: Op)
    requires OpEnabled(b, op) && LocalOp(b, op).Some?
    ensures LocalOp(b, op).value.ret == if op.Return? then op.rc else b.ret
  {
  }

  lemma KeepsResult(b: Job, c: Job, a: Action, k: nat)
    requires JobInv(b) && b.ret != 0 && (IsLocal(a, k) ==> OpEnabled(b, a.op) && LocalOp(b, a.op) == Some(c))
    requires !IsLocal(a, k) ==> Spared(b, c, PrepOf(a, k))
    ensures c.ret == b.ret
  {
    if IsLocal(a, k) {
      LocalResult(b, a.op);
    }
  }

  /**
   The result of a job is what its run function returned: a failure is kept for ever and the job never commits;
   success is recorded as 0.
   */
  lemma ReturnDecides(states: seq<State>, actions: seq<Action>, i: nat, m: nat, k: nat, rc: int)
    requires Run(states, actions) && Init(states[0]) && i < |actions| && actions[i] == On(k, Return(rc))
    requires i < m < |states| && k < |states[0].jobs|
    ensures k < |states[i + 1].jobs| && states[i + 1].jobs[k].ret == rc
    ensures k < |states[m].jobs| && (rc != 0 ==> states[m].jobs[k].ret == rc && !Committed(states[m].jobs[k]))
  {
    StepOf(states, actions, i, k);
    ResultStays(states, actions, i + 1, m, k);
    if rc != 0 {
      FailedNeverCommits(states, actions, m, k);
    }
  }

  lemma FailedNeverCommits(states: seq<State>, actions: seq<Action>, m: nat, k: nat)
    requires Run(states, actions) && Init(states[0]) && m < |states| && k < |states[m].jobs|
    requires states[m].jobs[k].ret != 0
    ensures !Committed(states[m].jobs[k])
  {
    RunInv(states, actions, m);
    assert JobInv(states[m].jobs[k]);
  }

  /** A group abort has doomed everyone, or everyone has been finalised in the same step. */
  ghost predicate DoomedOrDone(s: State) {
    s.aborting ==> AllDoomed(s.jobs) || forall k :: 0 <= k < |s.jobs| ==> !s.jobs[k].inTxn
  }

  lemma {:induction false} AbortIsTotal(states: seq<State>, actions: seq<Action>, m: nat)
    requires Run(states, actions) && Init(states[0]) && m < |states|
    ensures DoomedOrDone(states[m])
  {
    if m > 0 {
      AbortIsTotal(states, actions, m - 1);
      RunInv(states, actions, m - 1);
      assert StepAt(states, actions, m - 1);
      EvolveStep(states[m - 1], actions[m - 1]);
      AbortStepTotal(states[m - 1], actions[m - 1], states[m]);
    }
  }

  lemma AbortStepTotal(s: State, a: Action, t: State)
    requires Inv(s) && Enabled(s, a) && Apply(s, a) == Some(t) && DoomedOrDone(s)
    requires AllEvolve(s.jobs, t.jobs, PendsNow(s, a))
    ensures DoomedOrDone(t)
  {
    forall k | 0 <= k < |s.jobs| ensures Evolves(s.jobs[k], t.jobs[k], PendsNow(s, a)) {
    }
    if !s.aborting && t.aborting {
      AbortOutcome(s, a);
      if SparesInitiator(s, a) {
        SparingFinishes(s, a);
      }
    }
  }

  /** An abort that spares its initiator finalises everyone at once. */
  lemma SparingFinishes(s: State, a: Action)
    requires Inv(s) && !s.aborting && Enabled(s, a) && SparesInitiator(s, a) && Apply(s, a).Some?
    ensures forall k :: 0 <= k < |Apply(s, a).value.jobs| ==> !Apply(s, a).value.jobs[k].inTxn
  {
    if a.op.Finalize? {
      PendingIsCalm(s, a.j);
      FinalizeAborts(s, a.j, a.op.prep);
    } else {
      ExitShape(s, a.j, a.op.prep);
      FinalizeAborts(PendedGroup(s, a.j), a.j, a.op.prep);
    }
  }

  /** Once a job whose run failed has been handled by job_exit, its whole group is aborting and doomed. */
  lemma FailureTakesGroup(states: seq<State>, actions: seq<Action>, i: nat, e: nat, k: nat, rc: int, prep: nat -> int)
    requires Run(states, actions) && Init(states[0]) && k < |states[0].jobs| && rc != 0
    requires i < e < |actions| && actions[i] == On(k, Return(rc)) && actions[e] == On(k, Exit(prep))
    ensures states[e + 1].aborting && AllDoomed(states[e + 1].jobs)
  {
    ReturnDecides(states, actions, i, e, k, rc);
    StepOf(states, actions, e, k);
    RunInv(states, actions, e);
    assert StepAt(states, actions, e);
    var s := states[e];
    var b := s.jobs[k].(exitPending := false);
    if !s.aborting {
      FailureDoomsAll(s, b, k, prep);
    } else {
      AbortIsTotal(states, actions, e);
      ExitWhileAborting(s, k, prep);
    }
  }

  lemma ExitWhileAborting(s: State, k: nat, prep: nat -> int)
    requires Inv(s) && s.aborting && DoomedOrDone(s)
    requires Enabled(s, On(k, Exit(prep))) && Apply(s, On(k, Exit(prep))).Some?
    ensures var t := Apply(s, On(k, Exit(prep))).value; t.aborting && AllDoomed(t.jobs)
  {
    assert JobInv(s.jobs[k]) && Settling(s.jobs[k]);
    EvolveStep(s, On(k, Exit(prep)));
    var t := Apply(s, On(k, Exit(prep))).value;
    forall n | 0 <= n < |s.jobs| ensures Evolves(s.jobs[n], t.jobs[n], PendsNow(s, On(k, Exit(prep)))) {
    }
  }

  /** Where a result comes from: the run function, a cancellation, or the job's prepare. */
  ghost predicate Explained(states: seq<State>, actions: seq<Action>, m: nat, k: nat, v: int)
    requires m < |states| && m <= |actions|
  {
    || (k < |states[m].jobs| && states[m].jobs[k].cancelled && v == ECANCELED)
    || exists i: nat :: i < m && (actions[i] == On(k, Return(v)) || PrepOf(actions[i], k) == v)
  }

  /** No failure out of thin air. */
  lemma {:induction false} ResultIsExplained(states: seq<State>, actions: seq<Action>, m: nat, k: nat)
    requires Run(states, actions) && Init(states[0]) && m < |states| && k < |states[0].jobs|
    ensures k < |states[m].jobs|
    ensures states[m].jobs[k].ret != 0 ==> Explained(states, actions, m, k, states[m].jobs[k].ret)
  {
    if m == 0 {
      assert Fresh(states[0].jobs[k]);
    } else {
      ResultIsExplained(states, actions, m - 1, k);
      StepOf(states, actions, m - 1, k);
      var a, b, c := actions[m - 1], states[m - 1].jobs[k], states[m].jobs[k];
      if c.ret != 0 && c.ret != b.ret {
        NewResult(b, c, a, k);
      }
    }
  }

  lemma NewResult(b: Job, c: Job, a: Action, k: nat)
    requires c.ret != b.ret && (IsLocal(a, k) ==> OpEnabled(b, a.op) && LocalOp(b, a.op) == Some(c))
    requires !IsLocal(a, k) ==> Spared(b, c, PrepOf(a, k))
    ensures a == On(k, Return(c.ret)) || PrepOf(a, k) == c.ret || (c.cancelled && c.ret == ECANCELED)
  {
    if IsLocal(a, k) {
      LocalResult(b, a.op);
    }
  }

  // --- Pauses ---

  /** The drained sections that were begun and have not ended, by the steps of the run. */
  ghost function OpenDrains(actions: seq<Action>, k: nat, m: nat): int
    requires m <= |actions|
  {
    if m == 0 then 0
    else
      var a := actions[m - 1];
      var change := if a == On(k, DrainBegin) then 1 else if a == On(k, DrainEnd) then -1 else 0;
      OpenDrains(actions, k, m - 1) + change
  }

  /** The last word of the user, or of an I/O error that is shown to the user, is to pause. */
  ghost predicate AskedToPause(actions: seq<Action>, k: nat, m: nat)
    requires m <= |actions|
  {
    m > 0 &&
    (|| actions[m - 1] == On(k, UserPause) || actions[m - 1] == On(k, ErrorStop)
     || (actions[m - 1] != On(k, UserResume) && AskedToPause(actions, k, m - 1)))
  }

  ghost predicate Happened(actions: seq<Action>, k: nat, op: Op, m: nat)
    requires m <= |actions|
  {
    m > 0 && (actions[m - 1] == On(k, op) || Happened(actions, k, op, m - 1))
  }

  /** What the steps so far say about the job k. */
  ghost predicate Accords(b: Job, actions: seq<Action>, k: nat, m: nat)
    requires m <= |actions|
  {
    && b.drains == OpenDrains(actions, k, m)
    && (!b.cancelled ==> (b.userPaused <==> AskedToPause(actions, k, m)))
    && (b.started <==> Happened(actions, k, Start, m))
    && (!IsCompleted(b.status) ==>
          && (b.status.Created? <==> !b.started)
          && (b.status.Ready? || b.status.Standby? <==> Happened(actions, k, BecomeReady, m)))
  }

  /** Operations that move the job from status to status; the others pause it or let it go on. */
  predicate Moves(op: Op) {
    op.Start? || op.PausePoint? || op.Unpause? || op.BecomeReady? || op.Return? || op.Dismiss?
  }

  lemma MovesPause(b: Job, op: Op, c: Job)
    requires OpEnabled(b, op) && LocalOp(b, op) == Some(c) && Moves(op)
    ensures c.drains == b.drains && c.cancelled == b.cancelled && c.started == (b.started || op.Start?)
    ensures c.userPaused == b.userPaused
  {
    match op
    case Start => TransitionIs(b.(started := true, pauseCount := b.pauseCount - 1), Running);
    case PausePoint =>
      if b.pauseCount > 0 && !b.cancelled {
        TransitionIs(b, if b.status.Ready? then Standby else Paused);
      }
    case Unpause => TransitionIs(b, if b.status.Standby? then Ready else Running);
    case BecomeReady => TransitionIs(b, Ready);
    case Return(rc) => assert c == b.(ret := rc, deferred := true, exitPending := true);
    case Dismiss => TransitionIs(b.(deferred := true, inTxn := false), Null);
  }

  lemma PausesPause(b: Job, op: Op, c: Job)
    requires JobInv(b) && OpEnabled(b, op) && LocalOp(b, op) == Some(c)
    requires !Moves(op) && !op.Exit? && !op.Cancel? && !op.Finalize?
    ensures c.drains == b.drains + (if op.DrainBegin? then 1 else if op.DrainEnd? then -1 else 0)
    ensures c.cancelled == b.cancelled && c.started == b.started && c.status == b.status
    ensures c.userPaused ==
      (if op.UserPause? || op.ErrorStop? then true else if op.UserResume? then false else b.userPaused)
  {
    if op.UserResume? {
      UserResumeCounts(b);
    }
  }

  /** An operation on the job, seen from the fields it may change. */
  lemma LocalPauses(b: Job, op: Op, c: Job)
    requires JobInv(b) && OpEnabled(b, op) && LocalOp(b, op) == Some(c) && !op.Exit? && !op.Cancel? && !op.Finalize?
    ensures c.drains == b.drains + (if op.DrainBegin? then 1 else if op.DrainEnd? then -1 else 0)
    ensures c.cancelled == b.cancelled && c.started == (b.started || op.Start?)
    ensures c.userPaused ==
      (if op.UserPause? || op.ErrorStop? then true else if op.UserResume? then false else b.userPaused)
  {
    if Moves(op) {
      MovesPause(b, op, c);
    } else {
      PausesPause(b, op, c);
    }
  }

  lemma MovesStatus(b: Job, op: Op, c: Job)
    requires JobInv(b) && OpEnabled(b, op) && LocalOp(b, op) == Some(c) && Moves(op)
    ensures IsCompleted(b.status) ==> IsCompleted(c.status)
    ensures !IsCompleted(b.status) ==>
      !IsCompleted(c.status) && (c.status.Created? <==> b.status.Created? && !op.Start?)
    ensures !IsCompleted(b.status) ==>
      (c.status.Ready? || c.status.Standby? <==> b.status.Ready? || b.status.Standby? || op.BecomeReady?)
  {
  }

  lemma LocalStatus(b: Job, op: Op, c: Job)
    requires JobInv(b) && OpEnabled(b, op) && LocalOp(b, op) == Some(c) && !op.Exit? && !op.Cancel? && !op.Finalize?
    ensures IsCompleted(b.status) ==> IsCompleted(c.status)
    ensures !IsCompleted(b.status) ==>
      !IsCompleted(c.status) && (c.status.Created? <==> b.status.Created? && !op.Start?)
    ensures !IsCompleted(b.status) ==>
      (c.status.Ready? || c.status.Standby? <==> b.status.Ready? || b.status.Standby? || op.BecomeReady?)
  {
    if Moves(op) {
      MovesStatus(b, op, c);
    } else {
      PausesPause(b, op, c);
    }
  }

  /**
   In every state of every run, the drained sections of a job are those begun and not ended, it is paused by the
   user exactly when that was the last word, it is started exactly when job_start was called, and it counts as
   ready, paused or not, exactly when it became ready.
   */
  lemma {:induction false} FieldsTellTheRun(states: seq<State>, actions: seq<Action>, m: nat, k: nat)
    requires Run(states, actions) && Init(states[0]) && m < |states| && k < |states[0].jobs|
    ensures k < |states[m].jobs| && Accords(states[m].jobs[k], actions, k, m)
  {
    if m == 0 {
      assert Fresh(states[0].jobs[k]);
    } else {
      FieldsTellTheRun(states, actions, m - 1, k);
      StepOf(states, actions, m - 1, k);
      var a, b, c := actions[m - 1], states[m - 1].jobs[k], states[m].jobs[k];
      if IsLocal(a, k) {
        LocalPauses(b, a.op, c);
        LocalStatus(b, a.op, c);
      }
    }
  }

  /** At a pause point a job stops exactly when a user or a drained section holds it back and it is not cancelled. */
  lemma StopsWhenHeld(states: seq<State>, actions: seq<Action>, i: nat, k: nat)
    requires Run(states, actions) && Init(states[0]) && i < |actions| && k < |states[0].jobs|
    requires actions[i] == On(k, PausePoint)
    ensures k < |states[i].jobs| && k < |states[i + 1].jobs|
    ensures !states[i].jobs[k].cancelled ==>
      (states[i + 1].jobs[k].status.Paused? || states[i + 1].jobs[k].status.Standby? <==>
         AskedToPause(actions, k, i) || OpenDrains(actions, k, i) > 0)
    ensures states[i].jobs[k].cancelled ==> states[i + 1].jobs[k] == states[i].jobs[k]
  {
    StepOf(states, actions, i, k);
    FieldsTellTheRun(states, actions, i, k);
    PauseHereMeans(states[i].jobs[k]);
  }

  lemma PauseHereMeans(b: Job)
    requires JobInv(b) && InRun(b)
    ensures PauseHere(b).Some?
    ensures var c := PauseHere(b).value;
      && (b.cancelled ==> c == b)
      && (!b.cancelled ==> (c.status.Paused? || c.status.Standby? <==> b.userPaused || b.drains > 0))
  {
  }

  /** A job that is let go on is where it was: running, or ready. */
  lemma GoesOnAsBefore(states: seq<State>, actions: seq<Action>, i: nat, k: nat)
    requires Run(states, actions) && Init(states[0]) && i < |actions| && k < |states[0].jobs|
    requires actions[i] == On(k, Unpause)
    ensures k < |states[i + 1].jobs|
    ensures states[i + 1].jobs[k].status == if Happened(actions, k, BecomeReady, i) then Ready else Running
  {
    StepOf(states, actions, i, k);
    FieldsTellTheRun(states, actions, i, k);
  }
}
