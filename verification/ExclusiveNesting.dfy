/**
 Nested exclusive sections (cpus-common.c), said about the calls that a thread makes: the section that the
 outermost start_exclusive opens stays open until the end_exclusive that matches it.  And the fast paths: while
 nobody calls start_exclusive, nobody waits for anything.
 */
module ExclusiveNesting {
  import opened ExclusiveSection
  import opened ExclusiveSafety

  /** Who takes a step, and which. */
  datatype Move = Move(t: CpuId, a: Action)

  ghost predicate MoveAt(r: seq<State>, moves: seq<Move>, i: nat)
    requires i < |moves| && i + 1 < |r|
  {
    Enabled(r[i], moves[i].t, moves[i].a) && r[i + 1] == Apply(r[i], moves[i].t, moves[i].a)
  }

  /** A run with its steps. */
  ghost predicate Course(r: seq<State>, moves: seq<Move>) {
    |r| == |moves| + 1 && forall i: nat {:trigger MoveAt(r, moves, i)} :: i < |moves| ==> MoveAt(r, moves, i)
  }

  /** Every run has its steps. */
  lemma {:induction false} RunHasCourse(r: seq<State>) returns (moves: seq<Move>)
    requires Run(r)
    ensures Course(r, moves)
  {
    if |r| == 1 {
      moves := [];
    } else {
      var front := r[..|r| - 1];
      var earlier := RunHasCourse(front);
      assert Next(r[|r| - 2], r[|r| - 2 + 1]);
      var t, a :| Enabled(r[|r| - 2], t, a) && r[|r| - 1] == Apply(r[|r| - 2], t, a);
      moves := earlier + [Move(t, a)];
      forall i: nat | i < |moves| ensures MoveAt(r, moves, i) {
        if i < |earlier| {
          assert MoveAt(front, earlier, i);
        }
      }
    }
  }

  // --- Counting calls ---

  /** The step in which the thread t returns from the outermost start_exclusive. */
  ghost predicate Enters(r: seq<State>, moves: seq<Move>, t: CpuId, i: nat) {
    i < |moves| && i < |r| && moves[i] == Move(t, Proceed) && t < |r[i].cpus| && r[i].cpus[t].pc.StartEnter?
  }

  /** Calls of start_exclusive less calls of end_exclusive by t, from the step i in which it entered to step m. */
  ghost function Balance(moves: seq<Move>, t: CpuId, i: nat, m: nat): int
    requires i < m <= |moves|
    decreases m
  {
    if m == i + 1 then 1
    else
      var call := if moves[m - 1] == Move(t, Nest) then 1 else if moves[m - 1] == Move(t, Proceed) then -1 else 0;
      Balance(moves, t, i, m - 1) + call
  }

  /** No matching end_exclusive has been called before step m. */
  ghost predicate OpenUntil(moves: seq<Move>, t: CpuId, i: nat, m: nat)
    requires m <= |moves| + 1
  {
    forall k: nat {:trigger Balance(moves, t, i, k)} :: i < k < m ==> Balance(moves, t, i, k) > 0
  }

  /** The thread t is inside its section before and after, or neither time; its count of calls is the same. */
  ghost predicate LeftAlone(s: State, s': State, t: CpuId) {
    && |s'.cpus| == |s.cpus| && t < |s.cpus|
    && (s'.cpus[t].pc.Exclusive? <==> s.cpus[t].pc.Exclusive?) && s'.cpus[t].depth == s.cpus[t].depth
  }

  lemma ExecLeavesAlone(s: State, u: CpuId, t: CpuId)
    requires Enabled(s, u, Proceed) && IsExecPoint(s.cpus[u].pc) && t < |s.cpus| && t != u
    ensures LeftAlone(s, StepExec(s, u), t)
  {
  }

  lemma EndLeavesAlone(s: State, u: CpuId, t: CpuId)
    requires Enabled(s, u, Proceed) && IsEndPoint(s.cpus[u].pc) && t < |s.cpus| && t != u
    ensures LeftAlone(s, StepEnd(s, u), t)
  {
  }

  lemma StartLeavesAlone(s: State, u: CpuId, t: CpuId)
    requires Enabled(s, u, Proceed) && IsStartPoint(s.cpus[u].pc) && t < |s.cpus| && t != u
    ensures LeftAlone(s, StepStart(s, u), t)
  {
  }

  lemma FinishLeavesAlone(s: State, u: CpuId, t: CpuId)
    requires Enabled(s, u, Proceed) && t < |s.cpus| && t != u
    ensures LeftAlone(s, StepFinish(s, u), t)
  {
  }

  /** Steps of others do not touch a thread's section. */
  lemma OthersLeaveAlone(s: State, u: CpuId, a: Action, t: CpuId)
    requires Enabled(s, u, a) && t < |s.cpus| && t != u
    ensures LeftAlone(s, Apply(s, u, a), t)
  {
    if a.Proceed? {
      var pc := s.cpus[u].pc;
      if IsExecPoint(pc) {
        ExecLeavesAlone(s, u, t);
      } else if IsEndPoint(pc) {
        EndLeavesAlone(s, u, t);
      } else if IsStartPoint(pc) {
        StartLeavesAlone(s, u, t);
      } else {
        FinishLeavesAlone(s, u, t);
      }
    }
  }

  /** What the thread itself can do there: one call deeper, or one call back. */
  lemma OwnCalls(s: State, t: CpuId, a: Action)
    requires Enabled(s, t, a) && s.cpus[t].pc.Exclusive?
    ensures a.Nest? || a.Proceed?
    ensures a.Nest? ==> Apply(s, t, a).cpus[t] == s.cpus[t].(depth := s.cpus[t].depth + 1)
    ensures a.Proceed? && s.cpus[t].depth > 0 ==>
      var d := s.cpus[t].depth - 1;
      Apply(s, t, a).cpus[t] == s.cpus[t].(depth := d, pc := if d == 0 then FinishLock else Exclusive)
  {
  }

  /** The count that the source keeps is the number of calls open, and the section is open while there is one. */
  ghost predicate CountedAt(r: seq<State>, moves: seq<Move>, t: CpuId, i: nat, m: nat)
    requires i < m <= |moves| && m < |r|
  {
    && t < |r[m].cpus|
    && r[m].cpus[t].depth == Balance(moves, t, i, m)
    && r[m].cpus[t].pc == if Balance(moves, t, i, m) > 0 then Exclusive else FinishLock
  }

  /**
   From the return of the outermost start_exclusive on, exclusive_context_count is the number of calls that
   are open, and the thread leaves its section exactly in the call of end_exclusive that matches the first.
   */
  lemma {:induction false} SectionEndsWithMatchingCall(r: seq<State>, moves: seq<Move>, t: CpuId, i: nat, m: nat)
    requires Course(r, moves) && Enters(r, moves, t, i) && i < m <= |moves| && OpenUntil(moves, t, i, m)
    ensures Balance(moves, t, i, m) >= 0 && CountedAt(r, moves, t, i, m)
    decreases m
  {
    assert MoveAt(r, moves, m - 1);
    if m > i + 1 {
      var k := m - 1;
      SectionEndsWithMatchingCall(r, moves, t, i, k);
      assert Balance(moves, t, i, k) > 0;
      if moves[k].t == t {
        OwnCalls(r[k], t, moves[k].a);
      } else {
        OthersLeaveAlone(r[k], moves[k].t, moves[k].a, t);
      }
    }
  }

  /** Meanwhile nobody else is in a section or executes guest code. */
  lemma NestedSectionIsExclusive(r: seq<State>, moves: seq<Move>, t: CpuId, i: nat, m: nat, u: CpuId)
    requires Course(r, moves) && Init(r[0]) && Enters(r, moves, t, i) && i < m <= |moves|
    requires OpenUntil(moves, t, i, m + 1) && u < |r[m].cpus| && u != t
    ensures !InExclusive(r[m].cpus[u].pc) && !InExec(r[m].cpus[u].pc)
  {
    SectionEndsWithMatchingCall(r, moves, t, i, m);
    assert Balance(moves, t, i, m) > 0;
    CoursePrefix(r, moves, m);
    MutualExclusion(r[..m + 1], t);
  }

  lemma CoursePrefix(r: seq<State>, moves: seq<Move>, m: nat)
    requires Course(r, moves) && m < |r|
    ensures Run(r[..m + 1])
  {
    var p := r[..m + 1];
    forall i | 0 <= i < |p| - 1 ensures Next(p[i], p[i + 1]) {
      assert MoveAt(r, moves, i);
    }
  }

  /** A thread is inside only by way of such an entry, with all its calls counted. */
  lemma {:induction false} InsideSinceEntry(r: seq<State>, moves: seq<Move>, t: CpuId, m: nat) returns (i: nat)
    requires Course(r, moves) && Init(r[0]) && m < |r| && t < |r[m].cpus| && r[m].cpus[t].pc.Exclusive?
    ensures i < m && Enters(r, moves, t, i) && OpenUntil(moves, t, i, m + 1) && CountedAt(r, moves, t, i, m)
    decreases m
  {
    var k := m - 1;
    assert MoveAt(r, moves, k);
    SameCpus(r[k], moves[k].t, moves[k].a);
    if r[k].cpus[t].pc.Exclusive? {
      i := InsideSinceEntry(r, moves, t, k);
      SectionEndsWithMatchingCall(r, moves, t, i, m);
    } else {
      OnlyWayIn(r[k], moves[k].t, moves[k].a, t);
      i := k;
    }
  }

  lemma SameCpus(s: State, u: CpuId, a: Action)
    requires Enabled(s, u, a)
    ensures |Apply(s, u, a).cpus| == |s.cpus|
  {
  }

  lemma ExecStaysOut(s: State, t: CpuId)
    requires Enabled(s, t, Proceed) && IsExecPoint(s.cpus[t].pc)
    ensures |StepExec(s, t).cpus| == |s.cpus| && !StepExec(s, t).cpus[t].pc.Exclusive?
  {
  }

  lemma EndStaysOut(s: State, t: CpuId)
    requires Enabled(s, t, Proceed) && IsEndPoint(s.cpus[t].pc)
    ensures |StepEnd(s, t).cpus| == |s.cpus| && !StepEnd(s, t).cpus[t].pc.Exclusive?
  {
  }

  lemma StartGoesIn(s: State, t: CpuId)
    requires Enabled(s, t, Proceed) && IsStartPoint(s.cpus[t].pc)
    ensures |StepStart(s, t).cpus| == |s.cpus|
    ensures StepStart(s, t).cpus[t].pc.Exclusive? <==> s.cpus[t].pc.StartEnter?
    ensures s.cpus[t].pc.StartEnter? ==> StepStart(s, t).cpus[t].depth == 1
  {
  }

  /** The way in is the return from start_exclusive, and then one call is open. */
  lemma OnlyWayIn(s: State, u: CpuId, a: Action, t: CpuId)
    requires Enabled(s, u, a) && t < |s.cpus| && !s.cpus[t].pc.Exclusive?
    requires t < |Apply(s, u, a).cpus| && Apply(s, u, a).cpus[t].pc.Exclusive?
    ensures u == t && a.Proceed? && s.cpus[t].pc.StartEnter? && Apply(s, u, a).cpus[t].depth == 1
  {
    var pc := s.cpus[t].pc;
    if u != t {
      OthersLeaveAlone(s, u, a, t);
    } else if a.Proceed? && IsExecPoint(pc) {
      ExecStaysOut(s, t);
    } else if a.Proceed? && IsEndPoint(pc) {
      EndStaysOut(s, t);
    } else if a.Proceed? && IsStartPoint(pc) {
      StartGoesIn(s, t);
    }
  }

  // --- Fast paths ---

  /** No lock, no waiting: outside, or on the way through the three accesses of an undisturbed execution. */
  predicate Undisturbed(c: Cpu) {
    !c.hasWaiter && (c.pc.Outside? || c.pc.ExecReadPending? || c.pc.Executing? || c.pc.EndReadPending?)
  }

  ghost predicate AllUndisturbed(s: State) {
    s.pending == 0 && s.lock == Free && forall t :: 0 <= t < |s.cpus| ==> Undisturbed(s.cpus[t])
  }

  /** Until the first call of start_exclusive the lock is never taken and nobody waits. */
  lemma {:induction false} NobodyWaitsForNothing(r: seq<State>, moves: seq<Move>, m: nat)
    requires Course(r, moves) && Init(r[0]) && m < |r| && forall i :: 0 <= i < m ==> !moves[i].a.BeginExclusive?
    ensures AllUndisturbed(r[m])
  {
    if m > 0 {
      NobodyWaitsForNothing(r, moves, m - 1);
      assert MoveAt(r, moves, m - 1);
      UndisturbedStep(r[m - 1], moves[m - 1].t, moves[m - 1].a);
    }
  }

  lemma UndisturbedStep(s: State, t: CpuId, a: Action)
    requires AllUndisturbed(s) && Enabled(s, t, a) && !a.BeginExclusive?
    ensures AllUndisturbed(Apply(s, t, a))
  {
    assert Undisturbed(s.cpus[t]);
    var s' := Apply(s, t, a);
    forall u | 0 <= u < |s'.cpus| ensures Undisturbed(s'.cpus[u]) {
      assert Undisturbed(s.cpus[u]);
    }
  }
}
