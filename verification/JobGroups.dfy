/**
 All or nothing: what a job transaction promises about the outcomes of its members, when it keeps the
 promise, and a run in which it does not.
 */
module JobGroups {
  import opened Options
  import opened Jobs
  import opened JobSafety
  import opened JobTheorems

  ghost predicate AllDoomed(jobs: seq<Job>) {
    forall k :: 0 <= k < |jobs| ==> Doomed(jobs[k])
  }

  /** Some member committed and another aborted. */
  ghost predicate Mixed(s: State) {
    exists i, k :: 0 <= i < |s.jobs| && 0 <= k < |s.jobs| && Committed(s.jobs[i]) && Aborted(s.jobs[k])
  }

  /**
   A finalisation in which a prepare fails, but not first that of the job it was requested for: the
   group abort leaves this job uncancelled.
   */
  ghost predicate SparesInitiator(s: State, a: Action) {
    && a.On?
    && match a.op
       case Finalize(prep) => !AllPrepare(0, |s.jobs|, prep) && !FailsFirst(a.j, prep)
       case Exit(prep) =>
         && Enabled(s, a) && PendsNow(s, a) && NobodyWaits(s.jobs)
         && !AllPrepare(0, |s.jobs|, prep) && !FailsFirst(a.j, prep)
       case _ => false
  }

  // --- How a group abort begins ---

  /** A member that fails, or is cancelled before it started, takes the whole group with it. */
  lemma FailureDoomsAll(s: State, b: Job, j: nat, prep: nat -> int)
    requires Inv(s) && !s.aborting && j < |s.jobs| && !IsCompleted(s.jobs[j].status) && FinishingInv(b) && Doomed(b)
    ensures var r := Completed(s.(jobs := s.jobs[j := b]), j, prep);
      r.Some? && r.value.aborting && AllDoomed(r.value.jobs)
  {
    CompleteOne(b);
    var c := UpdateRc(b).value;
    var s0 := s.(jobs := s.jobs[j := b]);
    var s1 := s0.(jobs := s0.jobs[j := c]);
    assert JobInv(s.jobs[j]) && s.jobs[j].inTxn;
    forall k | 0 <= k < |s1.jobs| ensures JobInv(s1.jobs[k]) && s1.jobs[k].inTxn && !s1.jobs[k].status.Pending? {
      assert JobInv(s.jobs[k]);
    }
    AbortWorks(s1, j);
  }

  /** Cancelling a member that has finished running takes the whole group with it. */
  lemma LateCancelDoomsAll(s: State, j: nat)
    requires Inv(s) && !s.aborting && j < |s.jobs| && OpEnabled(s.jobs[j], Cancel)
    ensures CancelJob(s, j).Some?
    ensures CancelJob(s, j).value.aborting ==> AllDoomed(CancelJob(s, j).value.jobs)
  {
    CancelWorks(s, j);
    var b := s.jobs[j];
    assert JobInv(b);
    if !b.status.Concluded? {
      CancelAsyncWorks(b);
      var c := CancelAsync(b).value;
      if !b.started {
        FailureDoomsAll(s, c, j, (i: nat) => 0);
      } else if b.deferred {
        var t := s.(jobs := s.jobs[j := c]);
        forall k | 0 <= k < |t.jobs| ensures JobInv(t.jobs[k]) && t.jobs[k].inTxn {
          assert JobInv(s.jobs[k]);
        }
        AbortWorks(t, j);
      }
    }
  }

  /** The outcome of job_do_finalize when some prepare fails: everyone is finalised at once. */
  lemma FinalizeOutcome(s: State, j: nat, prep: nat -> int)
    requires AllPoised(s, j) && !AllPrepare(0, |s.jobs|, prep)
    ensures DoFinalize(s, j, prep).Some?
    ensures var t := DoFinalize(s, j, prep).value;
      && t.aborting
      && if FailsFirst(j, prep) then AllDoomed(t.jobs) else Committed(t.jobs[j]) && Mixed(t)
  {
    FinalizeAborts(s, j, prep);
    var t := DoFinalize(s, j, prep).value;
    if !FailsFirst(j, prep) {
      assert JobInv(t.jobs[j]);
      var m: nat :| 0 <= m < |s.jobs| && prep(m) != 0;
      var f := FirstFailing(|s.jobs|, prep, m);
      assert f != j;
      assert JobInv(t.jobs[f]) && Aborted(t.jobs[f]);
    }
  }

  lemma {:induction false} FirstFailing(n: nat, prep: nat -> int, m: nat) returns (f: nat)
    requires m < n && prep(m) != 0
    ensures f <= m && FailsFirst(f, prep)
  {
    if AllPrepare(0, m, prep) {
      f := m;
    } else {
      var k: nat :| k < m && prep(k) != 0;
      f := FirstFailing(n, prep, k);
    }
  }

  /** A group abort begins: it dooms all members, unless it spares the initiator, and then outcomes are mixed. */
  lemma AbortOutcome(s: State, a: Action)
    requires Inv(s) && Enabled(s, a) && !s.aborting && Apply(s, a).Some? && Apply(s, a).value.aborting
    ensures if SparesInitiator(s, a) then Mixed(Apply(s, a).value) else AllDoomed(Apply(s, a).value.jobs)
  {
    var j := a.j;
    assert JobInv(s.jobs[j]);
    if a.op.Exit? {
      var b := s.jobs[j].(exitPending := false);
      if Doomed(b) {
        FailureDoomsAll(s, b, j, a.op.prep);
      } else {
        ExitOutcome(s, j, a.op.prep);
      }
    } else if a.op.Cancel? {
      LateCancelDoomsAll(s, j);
    } else if a.op.Finalize? {
      PendingIsCalm(s, j);
      if AllPrepare(0, |s.jobs|, a.op.prep) {
        FinalizeCommits(s, j, a.op.prep);
      } else {
        FinalizeOutcome(s, j, a.op.prep);
      }
    }
  }

  /** The group when the last job, j, has completed and everyone is pending. */
  function PendedGroup(s: State, j: nat): State
    requires j < |s.jobs|
  {
    s.(jobs := Pended(Joined(s, j, s.jobs[j].(exitPending := false)).jobs))
  }

  /** What job_exit does for a job that succeeded. */
  lemma ExitShape(s: State, j: nat, prep: nat -> int)
    requires Inv(s) && !s.aborting && j < |s.jobs| && s.jobs[j].exitPending && !Doomed(s.jobs[j])
    ensures var p := PendedGroup(s, j);
      && |p.jobs| == |s.jobs|
      && if !PendsNow(s, On(j, Exit(prep)))
        then Apply(s, On(j, Exit(prep))) == Some(Joined(s, j, s.jobs[j].(exitPending := false)))
         else AllPoised(p, j) && Apply(s, On(j, Exit(prep))) == if NobodyWaits(s.jobs) then DoFinalize(p, j, prep)
           else Some(p)
  {
    var b := s.jobs[j].(exitPending := false);
    assert JobInv(s.jobs[j]);
    SuccessShape(s, b, j, prep);
    CompleteOne(b);
    var s0 := s.(jobs := s.jobs[j := b]);
    assert s0.jobs[j := b] == s0.jobs;
    SameAuto(s, j, b);
  }

  lemma SameAuto(s: State, j: nat, b: Job)
    requires Inv(s) && j < |s.jobs| && b.inTxn == s.jobs[j].inTxn && b.autoFinalize == s.jobs[j].autoFinalize
    ensures NobodyWaits(Pended(Joined(s, j, b).jobs)) <==> NobodyWaits(s.jobs)
  {
    var p := Pended(Joined(s, j, b).jobs);
    assert forall k :: 0 <= k < |s.jobs| ==>
      p[k].autoFinalize == s.jobs[k].autoFinalize && p[k].inTxn == s.jobs[k].inTxn;
  }

  lemma ExitOutcome(s: State, j: nat, prep: nat -> int)
    requires Inv(s) && !s.aborting && j < |s.jobs| && s.jobs[j].exitPending && !Doomed(s.jobs[j])
    requires Apply(s, On(j, Exit(prep))).Some? && Apply(s, On(j, Exit(prep))).value.aborting
    ensures var t := Apply(s, On(j, Exit(prep))).value;
      if SparesInitiator(s, On(j, Exit(prep))) then Mixed(t) else AllDoomed(t.jobs)
  {
    ExitShape(s, j, prep);
    var p := PendedGroup(s, j);
    if AllPrepare(0, |p.jobs|, prep) {
      FinalizeCommits(p, j, prep);
    } else {
      FinalizeOutcome(p, j, prep);
    }
  }

  // --- Whole runs ---

  ghost predicate Uniform(s: State) {
    s.aborting ==> AllDoomed(s.jobs)
  }

  lemma UniformStep(s: State, a: Action)
    requires Inv(s) && Uniform(s) && Enabled(s, a) && !SparesInitiator(s, a)
    ensures Apply(s, a).Some? && Uniform(Apply(s, a).value)
  {
    EvolveStep(s, a);
    var t := Apply(s, a).value;
    if !s.aborting {
      if t.aborting {
        AbortOutcome(s, a);
      }
    } else {
      forall k | 0 <= k < |t.jobs| ensures Doomed(t.jobs[k]) {
        assert Evolves(s.jobs[k], t.jobs[k], PendsNow(s, a));
      }
    }
  }

  lemma UniformIsNotMixed(s: State)
    requires Inv(s) && Uniform(s)
    ensures !Mixed(s)
  {
    forall k | 0 <= k < |s.jobs| ensures if s.aborting then !Committed(s.jobs[k]) else !Aborted(s.jobs[k]) {
      assert JobInv(s.jobs[k]);
      assert !s.aborting ==> Undisturbed(s.jobs[k]);
    }
  }

  /** All or nothing: in a run where no finalisation spares its initiator, outcomes are never mixed. */
  lemma {:induction false} AllOrNothing(states: seq<State>, actions: seq<Action>, i: nat)
    requires Run(states, actions) && Init(states[0]) && i < |states|
    requires forall m :: 0 <= m < i ==> !SparesInitiator(states[m], actions[m])
    ensures Uniform(states[i]) && !Mixed(states[i])
  {
    RunInv(states, actions, i);
    if i > 0 {
      AllOrNothing(states, actions, i - 1);
      RunInv(states, actions, i - 1);
      assert StepAt(states, actions, i - 1);
      UniformStep(states[i - 1], actions[i - 1]);
    }
    UniformIsNotMixed(states[i]);
  }

  /** The condition is exact: a finalisation that spares its initiator always mixes the outcomes. */
  lemma SparingMixes(states: seq<State>, actions: seq<Action>, a: Action)
    requires Run(states, actions) && Init(states[0]) && Enabled(states[|actions|], a)
    requires SparesInitiator(states[|actions|], a)
    ensures Apply(states[|actions|], a).Some? && Mixed(Apply(states[|actions|], a).value)
  {
    var s := states[|actions|];
    RunInv(states, actions, |actions|);
    StepWorks(s, a);
    assert JobInv(s.jobs[a.j]);
    if a.op.Finalize? {
      PendingIsCalm(s, a.j);
      FinalizeOutcome(s, a.j, a.op.prep);
    } else {
      SparingExit(s, a);
    }
  }

  lemma SparingExit(s: State, a: Action)
    requires Inv(s) && Enabled(s, a) && a.On? && a.op.Exit? && SparesInitiator(s, a)
    ensures Apply(s, a).Some? && Mixed(Apply(s, a).value)
  {
    ExitShape(s, a.j, a.op.prep);
    FinalizeOutcome(PendedGroup(s, a.j), a.j, a.op.prep);
  }

  /** Once a group abort has doomed everybody, nobody ever commits, and whoever is finalised aborts. */
  lemma DoomedGroupAborts(states: seq<State>, actions: seq<Action>, i: nat, m: nat, k: nat)
    requires Run(states, actions) && Init(states[0]) && i <= m < |states| && k < |states[0].jobs|
    requires states[i].aborting && AllDoomed(states[i].jobs)
    ensures k < |states[m].jobs| && !Committed(states[m].jobs[k])
    ensures Aborted(states[m].jobs[k]) <==> !states[m].jobs[k].inTxn
  {
    RunInv(states, actions, i);
    RunInv(states, actions, m);
    CourseIsFinal(states, actions, i, m, k);
    assert JobInv(states[m].jobs[k]);
  }

  /** If a finalisation is requested and every prepare returns 0, every member commits. */
  lemma EveryoneCommits(s: State, j: nat, prep: nat -> int, k: nat)
    requires Inv(s) && Enabled(s, On(j, Finalize(prep))) && AllPrepare(0, |s.jobs|, prep) && k < |s.jobs|
    ensures Apply(s, On(j, Finalize(prep))).Some?
    ensures var t := Apply(s, On(j, Finalize(prep))).value;
      k < |t.jobs| && t.jobs[k].log == s.jobs[k].log + [Prepare] + [Commit, Clean] && !t.aborting
  {
    PendingIsCalm(s, j);
    FinalizeCommits(s, j, prep);
  }

  /** The same when the last job completes and nobody asked for manual finalisation. */
  lemma EveryoneCommitsAtOnce(s: State, j: nat, prep: nat -> int, k: nat)
    requires Inv(s) && !s.aborting && Enabled(s, On(j, Exit(prep))) && PendsNow(s, On(j, Exit(prep)))
    requires NobodyWaits(s.jobs)
    requires AllPrepare(0, |s.jobs|, prep) && k < |s.jobs|
    ensures Apply(s, On(j, Exit(prep))).Some?
    ensures var t := Apply(s, On(j, Exit(prep))).value; k < |t.jobs| && Committed(t.jobs[k]) && !t.aborting
  {
    ExitShape(s, j, prep);
    FinalizeCommits(PendedGroup(s, j), j, prep);
  }

  /**
   Becoming pending: a member does so only in the step in which the last member completes, when this
   one and all others have returned 0 and none was cancelled.
   */
  lemma PendingTogether(s: State, a: Action, k: nat)
    requires Inv(s) && Enabled(s, a) && Apply(s, a).Some? && k < |s.jobs| && |Apply(s, a).value.jobs| == |s.jobs|
    requires Pend in Apply(s, a).value.jobs[k].log && Pend !in s.jobs[k].log
    ensures a.On? && a.op.Exit? && !s.aborting && s.jobs[a.j].exitPending
    ensures forall i :: 0 <= i < |s.jobs| ==>
      s.jobs[i].ret == 0 && !s.jobs[i].cancelled && (i != a.j ==> s.jobs[i].status.Waiting?)
  {
    EvolveStep(s, a);
    var b, c := s.jobs[k], Apply(s, a).value.jobs[k];
    assert Evolves(b, c, PendsNow(s, a));
    assert c.log == b.log + c.log[|b.log|..];
    var s1 := Joined(s, a.j, s.jobs[a.j].(exitPending := false));
    assert JobInv(s.jobs[a.j]) && s.jobs[a.j].inTxn;
    forall i | 0 <= i < |s.jobs|
      ensures s.jobs[i].ret == 0 && !s.jobs[i].cancelled && (i != a.j ==> s.jobs[i].status.Waiting?)
    {
      assert JobInv(s.jobs[i]) && Undisturbed(s.jobs[i]);
      if i != a.j {
        assert IsCompleted(s1.jobs[i].status);
      }
    }
  }

  /** While members are pending, all of them are, with success so far. */
  lemma PendingMeansAllSucceeded(states: seq<State>, actions: seq<Action>, i: nat, j: nat, k: nat)
    requires Run(states, actions) && Init(states[0]) && i < |states| && j < |states[i].jobs| && k < |states[i].jobs|
    requires states[i].jobs[j].status.Pending?
    ensures states[i].jobs[k].status.Pending? && states[i].jobs[k].ret == 0 && !states[i].jobs[k].cancelled
  {
    RunInv(states, actions, i);
    PendingIsCalm(states[i], j);
    assert Poised(states[i].jobs[k]);
  }

  // --- A run with mixed outcomes ---

  function NewJob(): Job {
    Job(Created, 0, false, false, false, false, 1, false, false, 0, true, true, true, [])
  }

  function Returned(): Job {
    NewJob().(status := Running, started := true, deferred := true, exitPending := true, pauseCount := 0)
  }

  /** The second job's prepare fails while the first one finalises the group. */
  function SecondFails(): nat -> int {
    (k: nat) => if k == 1 then -5 else 0
  }

  lemma RunLonger(states: seq<State>, actions: seq<Action>, a: Action, t: State)
    requires Run(states, actions) && Enabled(states[|actions|], a) && Apply(states[|actions|], a) == Some(t)
    ensures Run(states + [t], actions + [a])
  {
    var ss, aa := states + [t], actions + [a];
    forall i: nat | i < |aa| ensures StepAt(ss, aa, i) {
      if i < |actions| {
        assert StepAt(states, actions, i);
      }
    }
  }

  /** Both jobs have returned 0, and the exit of the second has come. */
  function LastWaits(): State {
    State([Returned(), Returned().(exitPending := false, status := Waiting)], false)
  }

  lemma LastStepSpares(s: State, prep: nat -> int)
    requires s == LastWaits() && prep == SecondFails()
    ensures Enabled(s, On(0, Exit(prep))) && SparesInitiator(s, On(0, Exit(prep)))
  {
    assert prep(1) != 0 && prep(0) == 0;
    assert !AllPrepare(0, 2, prep);
  }

  /** Two jobs run and return 0; the exit of the first comes last, and the prepare of the second fails. */
  lemma MixedRunExists() returns (states: seq<State>, actions: seq<Action>)
    ensures Run(states, actions) && Init(states[0]) && |states[0].jobs| == 2
    ensures Mixed(states[|actions|])
  {
    states, actions := EarlierSteps();
    var s, a := states[|actions|], On(0, Exit(SecondFails()));
    RunInv(states, actions, |actions|);
    LastStepSpares(s, SecondFails());
    SparingExit(s, a);
    RunLonger(states, actions, a, Apply(s, a).value);
    states, actions := states + [Apply(s, a).value], actions + [a];
  }

  lemma EarlierSteps() returns (states: seq<State>, actions: seq<Action>)
    ensures Run(states, actions) && Init(states[0]) && |states[0].jobs| == 2 && states[|actions|] == LastWaits()
  {
    var n, r, run := NewJob(), Returned(), NewJob().(status := Running, started := true, pauseCount := 0);
    states, actions := [State([n, n], false)], [];
    assert [n, n][0 := run] == [run, n] && [run, n][1 := run] == [run, run];
    assert [run, run][0 := r] == [r, run] && [r, run][1 := r] == [r, r];
    RunLonger(states, actions, On(0, Start), State([run, n], false));
    states, actions := states + [State([run, n], false)], actions + [On(0, Start)];
    RunLonger(states, actions, On(1, Start), State([run, run], false));
    states, actions := states + [State([run, run], false)], actions + [On(1, Start)];
    RunLonger(states, actions, On(0, Return(0)), State([r, run], false));
    states, actions := states + [State([r, run], false)], actions + [On(0, Return(0))];
    RunLonger(states, actions, On(1, Return(0)), State([r, r], false));
    states, actions := states + [State([r, r], false)], actions + [On(1, Return(0))];
    SecondExits();
    RunLonger(states, actions, On(1, Exit(SecondFails())), LastWaits());
    states, actions := states + [LastWaits()], actions + [On(1, Exit(SecondFails()))];
  }

  lemma SecondExits()
    ensures var s := State([Returned(), Returned()], false);
      Enabled(s, On(1, Exit(SecondFails()))) && Apply(s, On(1, Exit(SecondFails()))) == Some(LastWaits())
  {
    var r := Returned();
    var x := r.(exitPending := false);
    assert [r, r][1 := x] == [r, x] && [r, x][1 := x] == [r, x]
      && [r, x][1 := x.(status := Waiting)] == [r, x.(status := Waiting)];
    assert CheckFrom([r, x.(status := Waiting)], 0) == Some(false);
  }

  // --- Cancelling twice ---

  /**
   job_cancel runs into an assertion exactly when the job was never started and is already aborting;
   job_user_cancel refuses such a job beforehand.
   */
  lemma CancelFailsIff(s: State, j: nat)
    requires Inv(s) && j < |s.jobs| && !s.jobs[j].status.Null?
    ensures CancelJob(s, j).None? <==> s.jobs[j].status.Aborting? && !s.jobs[j].started
  {
    assert JobInv(s.jobs[j]);
    if s.jobs[j].status.Aborting? && !s.jobs[j].started {
      CancelAsyncWorks(s.jobs[j]);
    } else {
      CancelWorks(s, j);
    }
  }

  /** Two jobs that were never started: cancelling the second one leaves it aborting, for the first to be waited for. */
  lemma CancelTwiceFails() returns (s: State)
    ensures Apply(State([NewJob(), NewJob()], false), On(1, Cancel)) == Some(s)
    ensures CancelJob(s, 1).None?
  {
    var n, c := NewJob(), NewJob().(cancelled := true);
    var x := c.(ret := ECANCELED, status := Aborting);
    s := State([c, x], true);
    assert [n, n][1 := c] == [n, c] && [n, c][1 := x] == [n, x];
    assert CancelOthers([n, x], 1).value == [c, x];
    assert AbortLoop([c, x], 0) == Some([c, x]);
    assert Completed(State([n, c], false), 1, (i: nat) => 0) == Some(s);
  }
}
