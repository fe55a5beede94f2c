/**
 The operations of job.c on a transaction, in place and with their loops, against the functions that
 the run theorems are about.
 */
module JobTransaction {
  import opened Options
  import opened Jobs
  import opened JobSafety
  import opened JobTheorems

  /** An operation on one job takes effect there and keeps the invariant. */
  lemma LocalDone(s: State, j: nat, op: Op, c: Job)
    requires Inv(s) && Enabled(s, On(j, op)) && !op.Exit? && !op.Cancel? && !op.Finalize?
    requires LocalOp(s.jobs[j], op) == Some(c)
    ensures var t := s.(jobs := s.jobs[j := c]); Apply(s, On(j, op)) == Some(t) && Inv(t)
  {
    StepWorks(s, On(j, op));
  }

  class JobTxn {
    var jobs: seq<Job>
    var aborting: bool

    ghost function Now(): State
      reads this
    {
      State(jobs, aborting)
    }

    /** job_state_transition; the assertion is the precondition. */
    method StateTransition(j: nat, to: Status)
      requires j < |jobs| && Allowed(jobs[j].status, to)
      modifies this`jobs
      ensures jobs == old(jobs)[j := old(jobs)[j].(status := to)]
    {
      jobs := jobs[j := jobs[j].(status := to)];
    }

    /** job_update_rc */
    method UpdateRc(j: nat)
      requires j < |jobs| && Jobs.UpdateRc(jobs[j]).Some?
      modifies this`jobs
      ensures jobs == old(jobs)[j := Jobs.UpdateRc(old(jobs)[j]).value]
    {
      if jobs[j].ret == 0 && jobs[j].cancelled {
        jobs := jobs[j := jobs[j].(ret := ECANCELED)];
      }
      if jobs[j].ret != 0 {
        StateTransition(j, Aborting);
      }
    }

    /** job_cancel_async */
    method CancelAsync(j: nat)
      requires j < |jobs| && Jobs.CancelAsync(jobs[j]).Some?
      modifies this`jobs
      ensures jobs == old(jobs)[j := Jobs.CancelAsync(old(jobs)[j]).value]
    {
      var b := jobs[j];
      if b.userPaused {
        if b.ioError {
          assert b.userPaused && b.pauseCount > 0;
          b := b.(ioError := false);
        }
        b := b.(userPaused := false);
        assert b.pauseCount > 0;
        b := b.(pauseCount := b.pauseCount - 1);
      }
      jobs := jobs[j := b.(cancelled := true)];
    }

    /** job_do_dismiss */
    method DoDismiss(j: nat)
      requires j < |jobs| && jobs[j].status.Concluded?
      modifies this`jobs
      ensures Jobs.DoDismiss(old(jobs)[j]).Some? && jobs == old(jobs)[j := Jobs.DoDismiss(old(jobs)[j]).value]
    {
      jobs := jobs[j := jobs[j].(deferred := true)];
      jobs := jobs[j := jobs[j].(inTxn := false)];
      StateTransition(j, Null);
    }

    /** job_conclude */
    method Conclude(j: nat)
      requires j < |jobs| && Jobs.Conclude(jobs[j]).Some?
      modifies this`jobs
      ensures jobs == old(jobs)[j := Jobs.Conclude(old(jobs)[j]).value]
    {
      StateTransition(j, Concluded);
      if jobs[j].autoDismiss || !jobs[j].started {
        DoDismiss(j);
      }
    }

    /** job_finalize_single */
    method FinalizeSingle(j: nat)
      requires j < |jobs| && Jobs.FinalizeSingle(jobs[j]).Some?
      modifies this`jobs
      ensures jobs == old(jobs)[j := Jobs.FinalizeSingle(old(jobs)[j]).value]
    {
      assert IsCompleted(jobs[j].status);
      UpdateRc(j);
      jobs := jobs[j := Called(jobs[j])];
      Conclude(j);
    }

    /** The first loop of job_completed_txn_abort. */
    method CancelTheOthers(j: nat)
      requires CancelOthers(jobs, j).Some?
      modifies this`jobs
      ensures CancelOthers(old(jobs), j) == Some(jobs)
    {
      var i := 0;
      ghost var goal := CancelOthers(jobs, j).value;
      while i < |jobs|
        invariant 0 <= i <= |jobs| == |goal| && |goal| == |old(jobs)|
        invariant forall k :: 0 <= k < i ==> jobs[k] == goal[k]
        invariant forall k :: i <= k < |jobs| ==> jobs[k] == old(jobs)[k]
      {
        if i != j && jobs[i].inTxn {
          CancelAsync(i);
        }
        i := i + 1;
      }
      assert jobs == goal;
    }

    /** The second loop of job_completed_txn_abort, until it has to wait. */
    method FinishMembers()
      requires AbortLoop(jobs, 0).Some?
      modifies this`jobs
      ensures AbortLoop(old(jobs), 0) == Some(jobs)
    {
      var i := 0;
      while i < |jobs|
        invariant 0 <= i <= |jobs|
        invariant AbortLoop(jobs, i) == AbortLoop(old(jobs), 0)
      {
        if jobs[i].inTxn {
          if !IsCompleted(jobs[i].status) {
            assert jobs[i].cancelled;
            return;
          }
          FinalizeSingle(i);
        }
        i := i + 1;
      }
    }

    /** job_completed_txn_abort */
    method CompletedTxnAbort(j: nat)
      requires TxnAbort(Now(), j).Some?
      modifies this
      ensures TxnAbort(old(Now()), j) == Some(Now())
    {
      if aborting {
        return;
      }
      aborting := true;
      CancelTheOthers(j);
      FinishMembers();
    }

    /** job_txn_apply of job_prepare */
    method PrepareMembers(prep: nat -> int) returns (ok: bool)
      requires PrepareFrom(jobs, 0, prep).Some?
      modifies this`jobs
      ensures PrepareFrom(old(jobs), 0, prep) == Some((jobs, ok))
    {
      var i := 0;
      while i < |jobs|
        invariant 0 <= i <= |jobs|
        invariant PrepareFrom(jobs, i, prep) == PrepareFrom(old(jobs), 0, prep)
      {
        if jobs[i].inTxn {
          ghost var was := jobs;
          if jobs[i].ret == 0 {
            jobs := jobs[i := jobs[i].(ret := prep(i), log := jobs[i].log + [Prepare])];
            UpdateRc(i);
          }
          assert jobs == was[i := PrepareOne(was[i], prep(i)).value];
          if jobs[i].ret != 0 {
            return false;
          }
        }
        i := i + 1;
      }
      return true;
    }

    /** job_txn_apply of job_finalize_single */
    method FinalizeMembers()
      requires Everyone(jobs, Jobs.FinalizeSingle).Some?
      modifies this`jobs
      ensures Everyone(old(jobs), Jobs.FinalizeSingle) == Some(jobs)
    {
      var i := 0;
      ghost var goal := Everyone(jobs, Jobs.FinalizeSingle).value;
      while i < |jobs|
        invariant 0 <= i <= |jobs| == |goal| && |goal| == |old(jobs)|
        invariant forall k :: 0 <= k < i ==> jobs[k] == goal[k]
        invariant forall k :: i <= k < |jobs| ==> jobs[k] == old(jobs)[k]
      {
        if jobs[i].inTxn {
          FinalizeSingle(i);
        }
        i := i + 1;
      }
      assert jobs == goal;
    }

    /** job_do_finalize */
    method DoFinalize(j: nat, prep: nat -> int)
      requires j < |jobs| && Jobs.DoFinalize(Now(), j, prep).Some?
      modifies this
      ensures Jobs.DoFinalize(old(Now()), j, prep) == Some(Now())
    {
      var ok := PrepareMembers(prep);
      if !ok {
        CompletedTxnAbort(j);
      } else {
        FinalizeMembers();
      }
    }

    /** The loop of job_completed_txn_success that looks for members still running. */
    method AllCompleted() returns (all: bool)
      requires CheckFrom(jobs, 0).Some?
      ensures CheckFrom(jobs, 0) == Some(all)
    {
      var i := 0;
      while i < |jobs|
        invariant 0 <= i <= |jobs| && CheckFrom(jobs, i) == CheckFrom(jobs, 0)
      {
        if jobs[i].inTxn {
          if !IsCompleted(jobs[i].status) {
            return false;
          }
          assert jobs[i].ret == 0;
        }
        i := i + 1;
      }
      return true;
    }

    /** job_txn_apply of job_transition_to_pending */
    method PendMembers()
      requires Everyone(jobs, ToPending).Some?
      modifies this`jobs
      ensures Everyone(old(jobs), ToPending) == Some(jobs)
    {
      var i := 0;
      ghost var goal := Everyone(jobs, ToPending).value;
      while i < |jobs|
        invariant 0 <= i <= |jobs| == |goal| && |goal| == |old(jobs)|
        invariant forall k :: 0 <= k < i ==> jobs[k] == goal[k]
        invariant forall k :: i <= k < |jobs| ==> jobs[k] == old(jobs)[k]
      {
        if jobs[i].inTxn {
          assert ToPending(old(jobs)[i]).Some?;
          jobs := jobs[i := jobs[i].(log := jobs[i].log + [Pend])];
          StateTransition(i, Pending);
        }
        i := i + 1;
      }
      assert jobs == goal;
    }

    /** job_txn_apply of job_needs_finalize */
    method NeedsFinalize() returns (needs: bool)
      ensures needs <==> !NobodyWaits(jobs)
    {
      var i := 0;
      while i < |jobs|
        invariant 0 <= i <= |jobs| && forall k :: 0 <= k < i && jobs[k].inTxn ==> jobs[k].autoFinalize
      {
        if jobs[i].inTxn && !jobs[i].autoFinalize {
          return true;
        }
        i := i + 1;
      }
      return false;
    }

    /** job_completed_txn_success */
    method CompletedTxnSuccess(j: nat, prep: nat -> int)
      requires j < |jobs| && TxnSuccess(Now(), j, prep).Some?
      modifies this
      ensures TxnSuccess(old(Now()), j, prep) == Some(Now())
    {
      StateTransition(j, Waiting);
      var all := AllCompleted();
      if !all {
        return;
      }
      PendMembers();
      var needs := NeedsFinalize();
      if !needs {
        DoFinalize(j, prep);
      }
    }

    /** job_completed */
    method Completed(j: nat, prep: nat -> int)
      requires j < |jobs| && Jobs.Completed(Now(), j, prep).Some?
      modifies this
      ensures Jobs.Completed(old(Now()), j, prep) == Some(Now())
    {
      assert jobs[j].inTxn && !IsCompleted(jobs[j].status);
      UpdateRc(j);
      if jobs[j].ret != 0 {
        CompletedTxnAbort(j);
      } else {
        CompletedTxnSuccess(j, prep);
      }
    }

    /** job_exit */
    method Exit(j: nat, prep: nat -> int)
      requires Inv(Now()) && Enabled(Now(), On(j, Op.Exit(prep)))
      modifies this
      ensures Apply(old(Now()), On(j, Op.Exit(prep))) == Some(Now()) && Inv(Now())
    {
      StepWorks(Now(), On(j, Op.Exit(prep)));
      jobs := jobs[j := jobs[j].(exitPending := false)];
      Completed(j, prep);
    }

    /** job_cancel */
    method Cancel(j: nat)
      requires Inv(Now()) && Enabled(Now(), On(j, Op.Cancel))
      modifies this
      ensures Apply(old(Now()), On(j, Op.Cancel)) == Some(Now()) && Inv(Now())
    {
      StepWorks(Now(), On(j, Op.Cancel));
      if jobs[j].status.Concluded? {
        DoDismiss(j);
        return;
      }
      CancelAsync(j);
      if !jobs[j].started {
        Completed(j, (i: nat) => 0);
      } else if jobs[j].deferred {
        CompletedTxnAbort(j);
      }
    }

    /** job_finalize, for a job that may be finalised */
    method Finalize(j: nat, prep: nat -> int)
      requires Inv(Now()) && Enabled(Now(), On(j, Op.Finalize(prep)))
      modifies this
      ensures Apply(old(Now()), On(j, Op.Finalize(prep))) == Some(Now()) && Inv(Now())
    {
      StepWorks(Now(), On(j, Op.Finalize(prep)));
      DoFinalize(j, prep);
    }

    /** The abort loop goes on when the member it waited for has completed. */
    method ContinueAbort()
      requires Inv(Now()) && Enabled(Now(), AbortStep)
      modifies this
      ensures Apply(old(Now()), AbortStep) == Some(Now()) && Inv(Now())
    {
      StepWorks(Now(), AbortStep);
      FinishMembers();
    }

    // --- Operations on one job ---

    /** job_start */
    method Start(j: nat)
      requires Inv(Now()) && Enabled(Now(), On(j, Op.Start))
      modifies this
      ensures Apply(old(Now()), On(j, Op.Start)) == Some(Now()) && Inv(Now())
    {
      assert JobInv(jobs[j]);
      var b := jobs[j];
      assert !b.started;
      b := b.(started := true);
      b := b.(pauseCount := b.pauseCount - 1);
      assert Allowed(b.status, Running);
      b := b.(status := Running);
      LocalDone(Now(), j, Op.Start, b);
      jobs := jobs[j := b];
    }

    /** job_pause_point, up to where it yields; true if it does */
    method PausePoint(j: nat) returns (stops: bool)
      requires Inv(Now()) && Enabled(Now(), On(j, Op.PausePoint))
      modifies this
      ensures Apply(old(Now()), On(j, Op.PausePoint)) == Some(Now()) && Inv(Now())
      ensures j < |jobs| && (stops <==> jobs[j].status.Paused? || jobs[j].status.Standby?)
    {
      assert jobs[j].started;
      if jobs[j].pauseCount <= 0 || jobs[j].cancelled {
        LocalDone(Now(), j, Op.PausePoint, jobs[j]);
        assert jobs == jobs[j := jobs[j]];
        return false;
      }
      var to := if jobs[j].status.Ready? then Standby else Paused;
      LocalDone(Now(), j, Op.PausePoint, jobs[j].(status := to));
      StateTransition(j, to);
      return true;
    }

    /** job_pause_point, from where it is entered again; `status` is what it saved before it yielded */
    method GoOn(j: nat, status: Status)
      requires Inv(Now()) && Enabled(Now(), On(j, Op.Unpause))
      requires status == if jobs[j].status.Standby? then Ready else Running
      modifies this
      ensures Apply(old(Now()), On(j, Op.Unpause)) == Some(Now()) && Inv(Now())
    {
      StepWorks(Now(), On(j, Op.Unpause));
      StateTransition(j, status);
    }

    /** job_transition_to_ready */
    method TransitionToReady(j: nat)
      requires Inv(Now()) && Enabled(Now(), On(j, Op.BecomeReady))
      modifies this
      ensures Apply(old(Now()), On(j, Op.BecomeReady)) == Some(Now()) && Inv(Now())
    {
      StepWorks(Now(), On(j, Op.BecomeReady));
      StateTransition(j, Ready);
    }

    /** The end of job_co_entry, after run has returned rc */
    method RunReturned(j: nat, rc: int)
      requires Inv(Now()) && Enabled(Now(), On(j, Op.Return(rc)))
      modifies this
      ensures Apply(old(Now()), On(j, Op.Return(rc))) == Some(Now()) && Inv(Now())
    {
      assert JobInv(jobs[j]);
      var b := jobs[j].(ret := rc);
      b := b.(deferred := true);
      b := b.(exitPending := true);
      LocalDone(Now(), j, Op.Return(rc), b);
      jobs := jobs[j := b];
    }

    /** job_dismiss, for a job that may be dismissed */
    method Dismiss(j: nat)
      requires Inv(Now()) && Enabled(Now(), On(j, Op.Dismiss))
      modifies this
      ensures Apply(old(Now()), On(j, Op.Dismiss)) == Some(Now()) && Inv(Now())
    {
      StepWorks(Now(), On(j, Op.Dismiss));
      DoDismiss(j);
    }

    /** job_user_pause, with the count of job_pause */
    method UserPause(j: nat)
      requires Inv(Now()) && Enabled(Now(), On(j, Op.UserPause))
      modifies this
      ensures Apply(old(Now()), On(j, Op.UserPause)) == Some(Now()) && Inv(Now())
    {
      assert JobInv(jobs[j]);
      if jobs[j].userPaused {
        LocalDone(Now(), j, Op.UserPause, jobs[j]);
        assert jobs == jobs[j := jobs[j]];
        return;
      }
      var b := jobs[j].(userPaused := true);
      b := b.(pauseCount := b.pauseCount + 1);
      LocalDone(Now(), j, Op.UserPause, b);
      jobs := jobs[j := b];
    }

    /** job_user_resume, with block_job_user_resume and the count of job_resume */
    method UserResume(j: nat)
      requires Inv(Now()) && Enabled(Now(), On(j, Op.UserResume))
      modifies this
      ensures Apply(old(Now()), On(j, Op.UserResume)) == Some(Now()) && Inv(Now())
    {
      assert JobInv(jobs[j]);
      if !jobs[j].userPaused || jobs[j].pauseCount <= 0 {
        LocalDone(Now(), j, Op.UserResume, jobs[j]);
        assert jobs == jobs[j := jobs[j]];
        return;
      }
      var b := jobs[j];
      if b.ioError {
        assert b.userPaused && b.pauseCount > 0;
        b := b.(ioError := false);
      }
      b := b.(userPaused := false);
      assert b.pauseCount > 0;
      b := b.(pauseCount := b.pauseCount - 1);
      LocalDone(Now(), j, Op.UserResume, b);
      jobs := jobs[j := b];
    }

    /** child_job_drained_begin; the number of open sections is the caller's */
    method DrainedBegin(j: nat)
      requires Inv(Now()) && Enabled(Now(), On(j, Op.DrainBegin))
      modifies this
      ensures Apply(old(Now()), On(j, Op.DrainBegin)) == Some(Now()) && Inv(Now())
    {
      assert JobInv(jobs[j]);
      var b := jobs[j].(pauseCount := jobs[j].pauseCount + 1);
      b := b.(drains := b.drains + 1);
      LocalDone(Now(), j, Op.DrainBegin, b);
      jobs := jobs[j := b];
    }

    /** child_job_drained_end */
    method DrainedEnd(j: nat)
      requires Inv(Now()) && Enabled(Now(), On(j, Op.DrainEnd))
      modifies this
      ensures Apply(old(Now()), On(j, Op.DrainEnd)) == Some(Now()) && Inv(Now())
    {
      assert JobInv(jobs[j]);
      var b := jobs[j];
      assert b.pauseCount > 0;
      b := b.(drains := b.drains - 1, pauseCount := b.pauseCount - 1);
      LocalDone(Now(), j, Op.DrainEnd, b);
      jobs := jobs[j := b];
    }

    /** block_job_error_action, when the action is to stop */
    method StopOnError(j: nat)
      requires Inv(Now()) && Enabled(Now(), On(j, Op.ErrorStop))
      modifies this
      ensures Apply(old(Now()), On(j, Op.ErrorStop)) == Some(Now()) && Inv(Now())
    {
      assert JobInv(jobs[j]);
      var b := jobs[j];
      if !b.userPaused {
        b := b.(pauseCount := b.pauseCount + 1);
        b := b.(userPaused := true);
      }
      b := b.(ioError := true);
      LocalDone(Now(), j, Op.ErrorStop, b);
      jobs := jobs[j := b];
    }
  }
}
