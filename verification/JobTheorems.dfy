/**
 The promises of job transactions over whole runs.
 */
module JobTheorems {
  import opened Options
  import opened Jobs
  import opened JobSafety

  // --- Every step is safe ---

  lemma ExitWorks(s: State, j: nat, prep: nat -> int)
    requires Inv(s) && j < |s.jobs| && s.jobs[j].exitPending
    ensures var r := Completed(s.(jobs := s.jobs[j := s.jobs[j].(exitPending := false)]), j, prep);
      r.Some? && Inv(r.value) && |r.value.jobs| == |s.jobs|
  {
    assert JobInv(s.jobs[j]);
    assert s.aborting ==> Settling(s.jobs[j]);
    CompletedWorks(s, s.jobs[j].(exitPending := false), j, prep);
  }

  lemma PendingIsCalm(s: State, j: nat)
    requires Inv(s) && j < |s.jobs| && s.jobs[j].status.Pending?
    ensures !s.aborting && AllPoised(s, j)
  {
    assert JobInv(s.jobs[j]);
    assert s.aborting ==> Settling(s.jobs[j]);
    FinalizeRequest(s, j);
  }

  /** No assertion fails on any step, and the invariant is kept. */
  lemma StepWorks(s: State, a: Action)
    requires Inv(s) && Enabled(s, a)
    ensures Apply(s, a).Some? && Inv(Apply(s, a).value) && |Apply(s, a).value.jobs| == |s.jobs|
  {
    match a
    case AbortStep => AbortStepWorks(s);
    case On(j, op) =>
      if op.Exit? {
        ExitWorks(s, j, op.prep);
      } else if op.Cancel? {
        CancelWorks(s, j);
      } else if op.Finalize? {
        PendingIsCalm(s, j);
        DoFinalizeWorks(s, j, op.prep);
      } else {
        assert JobInv(s.jobs[j]);
        LocalOpWorks(s.jobs[j], op);
        LocalStep(s, j, LocalOp(s.jobs[j], op).value);
      }
  }

  lemma {:induction false} RunInv(states: seq<State>, actions: seq<Action>, i: nat)
    requires Run(states, actions) && i < |states| && Init(states[0])
    ensures Inv(states[i]) && |states[i].jobs| == |states[0].jobs|
  {
    if i == 0 {
      InitInv(states[0]);
    } else {
      RunInv(states, actions, i - 1);
      assert StepAt(states, actions, i - 1);
      StepWorks(states[i - 1], actions[i - 1]);
    }
  }

  /** In no run does an assertion fail, whatever happens next. */
  lemma NoAssertionFails(states: seq<State>, actions: seq<Action>, a: Action)
    requires Run(states, actions) && Init(states[0]) && Enabled(states[|actions|], a)
    ensures Apply(states[|actions|], a).Some?
  {
    RunInv(states, actions, |actions|);
    StepWorks(states[|actions|], a);
  }

  /** In every state of every run: pauses are counted exactly, and an I/O error is shown to the user as a pause. */
  lemma PausesAreCounted(states: seq<State>, actions: seq<Action>, i: nat, k: nat)
    requires Run(states, actions) && Init(states[0]) && i < |states| && k < |states[i].jobs|
    requires !states[i].jobs[k].status.Null?
    ensures var b := states[i].jobs[k];
      b.pauseCount == Bit(!b.started) + Bit(b.userPaused) + b.drains && (b.ioError ==> b.userPaused && b.pauseCount > 0)
  {
    RunInv(states, actions, i);
    assert JobInv(states[i].jobs[k]);
  }

  // --- The course of each job ---

  /**
   Completion is final, callbacks are never undone, nothing is called after the last ones; `pend` tells whether
   the job may become pending.
   */
  ghost predicate Evolves(b: Job, c: Job, pend: bool) {
    && (IsCompleted(b.status) ==> IsCompleted(c.status))
    && b.log <= c.log && (!b.inTxn ==> !c.inTxn && c.log == b.log)
    && (Doomed(b) ==> Doomed(c))
    && (Pend in c.log[|b.log|..] ==> pend)
  }

  ghost predicate AllEvolve(js: seq<Job>, kt: seq<Job>, pend: bool) {
    |kt| == |js| && forall k {:trigger Evolves(js[k], kt[k], pend)} :: 0 <= k < |js| ==> Evolves(js[k], kt[k], pend)
  }

  lemma EvolveTrans(a: seq<Job>, b: seq<Job>, c: seq<Job>, p: bool, q: bool)
    requires AllEvolve(a, b, p) && AllEvolve(b, c, q)
    ensures AllEvolve(a, c, p || q)
  {
    forall k | 0 <= k < |a| ensures Evolves(a[k], c[k], p || q) {
      EvolvesTwice(a[k], b[k], c[k], p, q);
    }
  }

  lemma EvolvesTwice(a: Job, b: Job, c: Job, p: bool, q: bool)
    requires Evolves(a, b, p) && Evolves(b, c, q)
    ensures Evolves(a, c, p || q)
  {
    assert c.log[|a.log|..] == b.log[|a.log|..] + c.log[|b.log|..];
  }

  lemma EvolveOne(js: seq<Job>, j: nat, c: Job)
    requires j < |js| && Evolves(js[j], c, false)
    ensures AllEvolve(js, js[j := c], false)
  {
  }

  lemma EvolveLoop(jobs: seq<Job>)
    requires forall k {:trigger JobInv(jobs[k])} {:trigger Abortable(jobs[k])} :: 0 <= k < |jobs| ==>
      JobInv(jobs[k]) && Abortable(jobs[k])
    ensures AbortLoop(jobs, 0).Some? && AllEvolve(jobs, AbortLoop(jobs, 0).value, false)
  {
    AbortLoopWorks(jobs, 0);
    var r := AbortLoop(jobs, 0).value;
    forall k | 0 <= k < |jobs| ensures Evolves(jobs[k], r[k], false) {
      assert JobInv(jobs[k]);
      if jobs[k].inTxn && AllDone(jobs, 0, k) {
        FinalEvolves(jobs[k]);
      }
    }
  }

  lemma EvolveAbort(s: State, j: nat)
    requires j < |s.jobs| && !s.aborting && AllHere(s.jobs) && Abortable(s.jobs[j])
    ensures TxnAbort(s, j).Some? && AllEvolve(s.jobs, TxnAbort(s, j).value.jobs, false)
  {
    CancelOthersWorks(s.jobs, j);
    var c := CancelOthers(s.jobs, j).value;
    forall k | 0 <= k < |c| ensures JobInv(c[k]) && Abortable(c[k]) && Evolves(s.jobs[k], c[k], false) {
      assert JobInv(c[k]);
    }
    EvolveLoop(c);
    EvolveTrans(s.jobs, c, AbortLoop(c, 0).value, false, false);
  }

  lemma FinalEvolves(b: Job)
    requires JobInv(b) && b.inTxn && IsCompleted(b.status)
    ensures Evolves(b, Final(b), false)
  {
    FinalInv(b);
    assert Final(b).log[|b.log|..] == [if Doomed(b) then Abort else Commit, Clean];
  }

  lemma PreparedEvolves(b: Job, rc: int)
    requires JobInv(b) && Poised(b)
    ensures Evolves(b, Prepared(b, rc), false)
  {
    assert Prepared(b, rc).log[|b.log|..] == [Prepare];
  }

  lemma EvolvePrepare(s: State, j: nat, prep: nat -> int)
    requires AllPoised(s, j)
    ensures PrepareFrom(s.jobs, 0, prep).Some? && AllEvolve(s.jobs, PrepareFrom(s.jobs, 0, prep).value.0, false)
  {
    PrepareWorks(s.jobs, 0, prep);
    var r := PrepareFrom(s.jobs, 0, prep).value.0;
    forall k: nat | k < |r| ensures Evolves(s.jobs[k], r[k], false) {
      assert Poised(s.jobs[k]);
      PreparedEvolves(s.jobs[k], prep(k));
    }
  }

  lemma EvolveCommit(jobs: seq<Job>)
    requires forall k {:trigger Poised(jobs[k])} {:trigger JobInv(jobs[k])} :: 0 <= k < |jobs| ==>
      JobInv(jobs[k]) && Poised(jobs[k])
    ensures Everyone(jobs, FinalizeSingle).Some? && AllEvolve(jobs, Everyone(jobs, FinalizeSingle).value, false)
  {
    FinalizeEveryone(jobs);
    var all := Everyone(jobs, FinalizeSingle).value;
    forall k | 0 <= k < |all| ensures Evolves(jobs[k], all[k], false) {
      assert Poised(jobs[k]);
      FinalEvolves(jobs[k]);
    }
  }

  lemma EvolveFinalize(s: State, j: nat, prep: nat -> int)
    requires AllPoised(s, j)
    ensures DoFinalize(s, j, prep).Some? && AllEvolve(s.jobs, DoFinalize(s, j, prep).value.jobs, false)
  {
    PreparedAll(s.jobs, prep);
    EvolvePrepare(s, j, prep);
    assert Poised(s.jobs[j]);
    var r := PrepareFrom(s.jobs, 0, prep).value;
    if r.1 {
      forall k: nat | k < |r.0| ensures JobInv(r.0[k]) && Poised(r.0[k]) {
        assert JobInv(r.0[k]) && !FailsFirst(k, prep);
      }
      EvolveCommit(r.0);
      EvolveTrans(s.jobs, r.0, Everyone(r.0, FinalizeSingle).value, false, false);
    } else {
      EvolveAbort(s.(jobs := r.0), j);
      EvolveTrans(s.jobs, r.0, TxnAbort(s.(jobs := r.0), j).value.jobs, false, false);
    }
  }

  lemma EvolveSuccess(s: State, b: Job, j: nat, prep: nat -> int)
    requires Inv(s) && !s.aborting && j < |s.jobs| && !IsCompleted(s.jobs[j].status) && FinishingInv(b) && !Doomed(b)
    ensures var r := TxnSuccess(s.(jobs := s.jobs[j := b]), j, prep);
      r.Some? && AllEvolve(s.jobs[j := b], r.value.jobs, EveryoneCompleted(Joined(s, j, b).jobs))
  {
    SuccessShape(s, b, j, prep);
    var s0, s1 := s.jobs[j := b], Joined(s, j, b);
    EvolveOne(s0, j, b.(status := Waiting));
    assert s0[j := b.(status := Waiting)] == s1.jobs;
    if EveryoneCompleted(s1.jobs) {
      var p := s1.(jobs := Pended(s1.jobs));
      forall k | 0 <= k < |s1.jobs| ensures Evolves(s1.jobs[k], p.jobs[k], true) {
        assert Poised(p.jobs[k]);
      }
      EvolveTrans(s0, s1.jobs, p.jobs, false, true);
      EvolveFinalize(p, j, prep);
      EvolveTrans(s0, p.jobs, DoFinalize(p, j, prep).value.jobs, true, false);
    }
  }

  /** The job j, now b, was the last to complete, and all have succeeded. */
  ghost predicate PendsWith(s: State, j: nat, b: Job)
    requires j < |s.jobs|
  {
    !s.aborting && !Doomed(b) && EveryoneCompleted(Joined(s, j, b).jobs)
  }

  ghost predicate PendsNow(s: State, a: Action)
    requires Enabled(s, a)
  {
    a.On? && a.op.Exit? && PendsWith(s, a.j, s.jobs[a.j].(exitPending := false))
  }

  lemma EvolveCompleted(s: State, b: Job, j: nat, prep: nat -> int)
    requires Inv(s) && j < |s.jobs| && !IsCompleted(s.jobs[j].status) && FinishingInv(b) && Evolves(s.jobs[j], b, false)
    requires s.aborting ==> b.cancelled
    ensures var r := Completed(s.(jobs := s.jobs[j := b]), j, prep);
      r.Some? && AllEvolve(s.jobs, r.value.jobs, PendsWith(s, j, b))
  {
    var s0 := s.(jobs := s.jobs[j := b]);
    EvolveOne(s.jobs, j, b);
    CompleteOne(b);
    if Doomed(b) {
      var c := UpdateRc(b).value;
      var s1 := s0.(jobs := s0.jobs[j := c]);
      EvolveOne(s0.jobs, j, c);
      EvolveTrans(s.jobs, s0.jobs, s1.jobs, false, false);
      assert JobInv(s.jobs[j]) && s.jobs[j].inTxn;
      if !s.aborting {
        forall k | 0 <= k < |s1.jobs| ensures JobInv(s1.jobs[k]) && s1.jobs[k].inTxn {
          assert JobInv(s.jobs[k]);
        }
        EvolveAbort(s1, j);
        EvolveTrans(s.jobs, s1.jobs, TxnAbort(s1, j).value.jobs, false, false);
      }
    } else {
      assert s0.jobs[j := b] == s0.jobs;
      EvolveSuccess(s, b, j, prep);
      EvolveTrans(s.jobs, s0.jobs, TxnSuccess(s0, j, prep).value.jobs, false, PendsWith(s, j, b));
    }
  }

  lemma EvolveCancel(s: State, j: nat)
    requires Inv(s) && j < |s.jobs| && OpEnabled(s.jobs[j], Cancel)
    ensures CancelJob(s, j).Some? && AllEvolve(s.jobs, CancelJob(s, j).value.jobs, false)
  {
    var b := s.jobs[j];
    assert JobInv(b);
    CancelWorks(s, j);
    if b.status.Concluded? {
      EvolveOne(s.jobs, j, DoDismiss(b).value);
    } else {
      CancelAsyncWorks(b);
      var c := CancelAsync(b).value;
      EvolveOne(s.jobs, j, c);
      if !b.started {
        EvolveCompleted(s, c, j, (i: nat) => 0);
      } else if b.deferred && !s.aborting {
        var t := s.(jobs := s.jobs[j := c]);
        forall k | 0 <= k < |t.jobs| ensures JobInv(t.jobs[k]) && t.jobs[k].inTxn {
          assert JobInv(s.jobs[k]);
        }
        EvolveAbort(t, j);
        EvolveTrans(s.jobs, t.jobs, TxnAbort(t, j).value.jobs, false, false);
      }
    }
  }

  lemma EvolveStep(s: State, a: Action)
    requires Inv(s) && Enabled(s, a)
    ensures Apply(s, a).Some? && AllEvolve(s.jobs, Apply(s, a).value.jobs, PendsNow(s, a))
  {
    match a
    case AbortStep =>
      forall k | 0 <= k < |s.jobs| ensures JobInv(s.jobs[k]) && Abortable(s.jobs[k]) {
        assert JobInv(s.jobs[k]) && Settling(s.jobs[k]);
      }
      EvolveLoop(s.jobs);
    case On(j, op) =>
      assert JobInv(s.jobs[j]);
      if op.Exit? {
        assert s.aborting ==> Settling(s.jobs[j]);
        EvolveCompleted(s, s.jobs[j].(exitPending := false), j, op.prep);
      } else if op.Cancel? {
        EvolveCancel(s, j);
      } else if op.Finalize? {
        PendingIsCalm(s, j);
        EvolveFinalize(s, j, op.prep);
      } else {
        LocalOpWorks(s.jobs[j], op);
        EvolveOne(s.jobs, j, LocalOp(s.jobs[j], op).value);
      }
  }

  lemma EvolvesAnyway(b: Job, c: Job, p: bool)
    requires Evolves(b, c, p)
    ensures Evolves(b, c, true)
  {
  }

  lemma EvolvesAt(states: seq<State>, actions: seq<Action>, i: nat, k: nat)
    requires Run(states, actions) && Init(states[0]) && i < |actions| && k < |states[0].jobs|
    ensures |states[i].jobs| == |states[0].jobs| == |states[i + 1].jobs|
    ensures Evolves(states[i].jobs[k], states[i + 1].jobs[k], true)
  {
    RunInv(states, actions, i);
    RunInv(states, actions, i + 1);
    assert StepAt(states, actions, i);
    EvolveStep(states[i], actions[i]);
    EvolvesAnyway(states[i].jobs[k], states[i + 1].jobs[k], PendsNow(states[i], actions[i]));
  }

  /** In every run, a completed job stays completed, and what was called is never taken back or called again. */
  lemma {:induction false} CourseIsFinal(states: seq<State>, actions: seq<Action>, i: nat, m: nat, k: nat)
    requires Run(states, actions) && Init(states[0]) && i <= m < |states| && k < |states[0].jobs|
    ensures k < |states[i].jobs| && k < |states[m].jobs| && Evolves(states[i].jobs[k], states[m].jobs[k], true)
    decreases m - i
  {
    if i == m {
      RunInv(states, actions, i);
      EvolvesNot(states[i].jobs[k]);
    } else {
      CourseIsFinal(states, actions, i, m - 1, k);
      EvolvesAt(states, actions, m - 1, k);
      EvolvesTwice(states[i].jobs[k], states[m - 1].jobs[k], states[m].jobs[k], true, true);
    }
  }

  lemma EvolvesNot(b: Job)
    ensures Evolves(b, b, true)
  {
  }

  /** In every state of every run: a job is finalised at most once, by exactly one of commit and abort, then clean. */
  lemma FinalisedOnce(states: seq<State>, actions: seq<Action>, i: nat, k: nat)
    requires Run(states, actions) && Init(states[0]) && i < |states| && k < |states[i].jobs|
    ensures var b := states[i].jobs[k];
      if b.inTxn then Unfinished(b.log)
      else Finished(b.log, Commit) != Finished(b.log, Abort) && (Finished(b.log, Commit) <==> b.ret == 0)
  {
    RunInv(states, actions, i);
    assert JobInv(states[i].jobs[k]);
  }
}
