/**
 What whole runs of the copying coroutines of "qemu-img convert" (qemu-img.c) do: in which order they write,
 and when they copy without reading.
 */
module ConvertCourses {
  import opened SparseDetection
  import opened SparseWrite
  import opened ConvertSource
  import opened ConvertWorkers
  import opened ConvertSafety
  import opened ConvertOrder

  // --- Writes in order ---

  /** The step begins a write. */
  predicate BeginsWrite(s: State, a: Action) {
    a.BeginWrite? && a.i < |s.workers| && s.ret.InProgress?
  }

  /** The worker writes its range, or has done so and has passed the turn on. */
  ghost predicate Past(s: State, q: nat, from: nat, end: nat) {
    s.ret.InProgress? ==>
      || s.wrOffs >= end
      || (s.wrOffs == from && q < |s.workers| && Active(s.workers[q])
          && s.workers[q].sector == from && s.workers[q].sector + s.workers[q].n == end)
  }

  lemma ClaimsApart(cf: Conf, s: State, q: nat, k: nat)
    requires Inv(cf, s) && q < |s.workers| && k < |s.workers| && q != k
    requires Active(s.workers[q]) && Active(s.workers[k])
    ensures s.workers[q].sector != s.workers[k].sector
  {
    assert Disjoint(s, q, k) && WorkerOk(cf, s, q) && WorkerOk(cf, s, k);
  }

  /** Only one worker can have the turn. */
  lemma TurnIsUnique(cf: Conf, s: State, q: nat, k: nat)
    requires Inv(cf, s) && OrderInv(s) && s.ret.InProgress? && q < |s.workers| && k < |s.workers|
    requires Active(s.workers[q]) && s.workers[q].sector == s.wrOffs && HasTurn(s.workers[k])
    ensures q == k
  {
    assert InOrderOk(s, k);
    if q != k {
      ClaimsApart(cf, s, q, k);
    }
  }

  /** With in-order writing there is one writer at a time. */
  lemma OneWriterAtATime(cf: Conf, states: seq<State>, actions: seq<Action>, m: nat, q: nat, k: nat)
    requires Run(cf, states, actions) && Init(cf, states[0]) && cf.inOrder && m < |states|
    requires q < |states[m].workers| && k < |states[m].workers| && states[m].ret.InProgress?
    requires states[m].workers[q].pc.Writing? && states[m].workers[k].pc.Writing?
    ensures q == k
  {
    RunOrder(cf, states, actions, m);
    assert InOrderOk(states[m], q);
    TurnIsUnique(cf, states[m], q, k);
  }

  lemma PastRelease(cf: Conf, s: State, i: nat, q: nat, from: nat, end: nat)
    requires Inv(cf, s) && OrderInv(s) && cf.inOrder && Enabled(cf, s, Release(i)) && Past(s, q, from, end)
    ensures Past(Apply(cf, s, Release(i)), q, from, end)
  {
    if s.ret.InProgress? {
      assert InOrderOk(s, i) && WorkerOk(cf, s, i);
      if s.wrOffs < end {
        TurnIsUnique(cf, s, q, i);
      }
    }
  }

  /** A worker that has not finished keeps its claim, whoever takes a step. */
  lemma ClaimStays(cf: Conf, s: State, a: Action, q: nat)
    requires Inv(cf, s) && Enabled(cf, s, a) && q < |s.workers| && Active(s.workers[q]) && a != Release(q)
    ensures q < |Apply(cf, s, a).workers| && SameClaim(s.workers[q], Apply(cf, s, a).workers[q])
  {
    if q != a.i {
      OthersStep(cf, s, a, q);
    }
  }

  lemma OffsetStays(cf: Conf, s: State, a: Action)
    requires Inv(cf, s) && Enabled(cf, s, a)
    ensures !a.Release? ==> Apply(cf, s, a).wrOffs == s.wrOffs
    ensures Apply(cf, s, a).ret.InProgress? ==> s.ret.InProgress?
  {
    if a.Release? {
      ReleasedShape(cf, s, a.i);
    }
  }

  lemma PastStep(cf: Conf, s: State, a: Action, q: nat, from: nat, end: nat)
    requires Inv(cf, s) && OrderInv(s) && cf.inOrder && Enabled(cf, s, a) && Past(s, q, from, end)
    ensures Past(Apply(cf, s, a), q, from, end)
  {
    OffsetStays(cf, s, a);
    if a.Release? {
      PastRelease(cf, s, a.i, q, from, end);
    } else if q < |s.workers| && Active(s.workers[q]) {
      ClaimStays(cf, s, a, q);
    }
  }

  lemma {:induction false} StaysPast(
      cf: Conf, states: seq<State>, actions: seq<Action>, i: nat, j: nat, q: nat, from: nat, end: nat)
    requires Run(cf, states, actions) && Init(cf, states[0]) && cf.inOrder && i <= j < |states|
    requires Past(states[i], q, from, end)
    ensures Past(states[j], q, from, end)
    decreases j
  {
    if i < j {
      StaysPast(cf, states, actions, i, j - 1, q, from, end);
      RunOrder(cf, states, actions, j - 1);
      assert StepAt(cf, states, actions, j - 1);
      PastStep(cf, states[j - 1], actions[j - 1], q, from, end);
    }
  }

  /**
   With in-order writing, of two writes that begin in a run the earlier one ends before the later one begins, unless
   they are attempts at the same range.
   */
  lemma WritesAscend(cf: Conf, states: seq<State>, actions: seq<Action>, i: nat, j: nat)
    requires Run(cf, states, actions) && Init(cf, states[0]) && cf.inOrder && i < j < |actions|
    requires BeginsWrite(states[i], actions[i]) && BeginsWrite(states[j], actions[j])
    ensures var v, w := states[i].workers[actions[i].i], states[j].workers[actions[j].i];
      v.sector + v.n <= w.sector || (v.sector == w.sector && v.n == w.n && actions[i].i == actions[j].i)
  {
    var q, k := actions[i].i, actions[j].i;
    RunOrder(cf, states, actions, i);
    RunOrder(cf, states, actions, j);
    assert StepAt(cf, states, actions, i) && StepAt(cf, states, actions, j);
    var v := states[i].workers[q];
    assert InOrderOk(states[i], q) && InOrderOk(states[j], k);
    assert Past(states[i], q, v.sector, v.sector + v.n);
    StaysPast(cf, states, actions, i, j, q, v.sector, v.sector + v.n);
    if states[j].wrOffs < v.sector + v.n {
      TurnIsUnique(cf, states[j], q, k);
    }
  }

  lemma WritingFrom(cf: Conf, s: State, a: Action, k: nat)
    requires Inv(cf, s) && Enabled(cf, s, a) && k < |s.workers| && a != BeginWrite(k)
    requires k < |Apply(cf, s, a).workers| && Apply(cf, s, a).workers[k].pc.Writing?
    ensures s.workers[k] == Apply(cf, s, a).workers[k]
  {
    if a.i == k {
      if a.Release? {
        ReleasedShape(cf, s, k);
      }
    } else {
      OthersStep(cf, s, a, k);
    }
  }

  /** A write that is under way began in a step of the run. */
  lemma {:induction false} WriteBegan(cf: Conf, states: seq<State>, actions: seq<Action>, m: nat, k: nat)
    returns (i: nat)
    requires Run(cf, states, actions) && Init(cf, states[0]) && m < |states| && k < |states[m].workers|
    ensures states[m].workers[k].pc.Writing? ==>
      i < m && actions[i] == BeginWrite(k) && k < |states[i].workers| && BeginsWrite(states[i], actions[i])
        && states[m].workers[k] == states[i].workers[k].(pc := Writing)
  {
    i := 0;
    RunWorkers(cf, states, actions, m);
    if m == 0 {
      assert NewWorker(states[0].workers[k]);
    } else {
      RunWorkers(cf, states, actions, m - 1);
      RunInv(cf, states, actions, m - 1);
      assert StepAt(cf, states, actions, m - 1);
      if states[m].workers[k].pc.Writing? {
        if actions[m - 1] == BeginWrite(k) {
          i := m - 1;
        } else {
          WritingFrom(cf, states[m - 1], actions[m - 1], k);
          i := WriteBegan(cf, states, actions, m - 1, k);
        }
      }
    }
  }

  // --- What is claimed and how it is written ---

  /** A claim takes all the sectors of one status, except that zeros which have to be written fit the buffer. */
  lemma ClaimTakesAll(cf: Conf, states: seq<State>, actions: seq<Action>, c: nat)
    requires Run(cf, states, actions) && IsClaim(cf, states, actions, c)
    ensures var n := ClaimEnd(cf, states, actions, c) - ClaimStart(cf, states, actions, c);
      if !cf.sparse && actions[c].status.Zero? && actions[c].n > cf.job.bufSectors then n == cf.job.bufSectors
      else n == actions[c].n
  {
    assert StepAt(cf, states, actions, c);
  }

  /** Without sparse detection zeros become data before they are written. */
  predicate NoZeros(w: Worker) {
    w.pc.Reading? || Loaded(w) ==> !w.status.Zero?
  }

  lemma NoZerosStep(cf: Conf, s: State, a: Action, k: nat)
    requires Inv(cf, s) && Enabled(cf, s, a) && k < |s.workers| && NoZeros(s.workers[k]) && !cf.sparse
    ensures k < |Apply(cf, s, a).workers| && NoZeros(Apply(cf, s, a).workers[k])
  {
    if k != a.i {
      OthersStep(cf, s, a, k);
    } else {
      assert WorkerOk(cf, s, k);
      if a.Release? {
        ReleasedShape(cf, s, k);
      }
    }
  }

  /** Without sparse detection the target is written in full: no write is of zeros that might be left out. */
  lemma {:induction false} FullyWritten(cf: Conf, states: seq<State>, actions: seq<Action>, m: nat, k: nat)
    requires Run(cf, states, actions) && Init(cf, states[0]) && !cf.sparse && m < |states| && k < |states[0].workers|
    ensures k < |states[m].workers| && NoZeros(states[m].workers[k])
  {
    if m == 0 {
      assert NewWorker(states[0].workers[k]);
    } else {
      FullyWritten(cf, states, actions, m - 1, k);
      RunInv(cf, states, actions, m - 1);
      assert StepAt(cf, states, actions, m - 1);
      NoZerosStep(cf, states[m - 1], actions[m - 1], k);
    }
  }

  // --- Failures ---

  /** The status query, a read or a write failed; copy offloading that fails does not count. */
  predicate Fails(a: Action) {
    a.ClaimFails? || a.WriteFails? || (a.ReadEnds? && !a.ok)
  }

  lemma FailsStep(cf: Conf, s: State, a: Action)
    requires Inv(cf, s) && Enabled(cf, s, a)
    ensures Apply(cf, s, a).ret.Failed? <==> s.ret.Failed? || Fails(a)
  {
    if a.Release? {
      ReleasedShape(cf, s, a.i);
    }
  }

  /** A conversion has failed if and only if one of its steps has, and this is never forgotten. */
  lemma {:induction false} FailedIff(cf: Conf, states: seq<State>, actions: seq<Action>, m: nat)
    requires Run(cf, states, actions) && Init(cf, states[0]) && m < |states|
    ensures states[m].ret.Failed? <==> exists i :: 0 <= i < m && Fails(actions[i])
  {
    if m > 0 {
      FailedIff(cf, states, actions, m - 1);
      RunInv(cf, states, actions, m - 1);
      assert StepAt(cf, states, actions, m - 1);
      FailsStep(cf, states[m - 1], actions[m - 1]);
    }
  }

  // --- Copy offloading ---

  lemma CopyRangeStep(cf: Conf, s: State, a: Action)
    requires Enabled(cf, s, a) && |s.disk| == |All(cf)|
    ensures Apply(cf, s, a).copyRange == (s.copyRange && !a.CopyFails?)
  {
  }

  /** Copying without reading is on as long as it has not failed. */
  lemma {:induction false} CopyRangeHistory(cf: Conf, states: seq<State>, actions: seq<Action>, m: nat)
    requires Run(cf, states, actions) && m < |states|
    ensures states[m].copyRange <==> states[0].copyRange && forall i :: 0 <= i < m ==> !actions[i].CopyFails?
  {
    if m > 0 {
      CopyRangeHistory(cf, states, actions, m - 1);
      assert StepAt(cf, states, actions, m - 1);
      CopyRangeStep(cf, states[m - 1], actions[m - 1]);
    }
  }

  /** After a failure, or when it is off, nobody chooses to copy without reading any more. */
  lemma NoCopyAfterFailure(cf: Conf, states: seq<State>, actions: seq<Action>, i: nat, j: nat)
    requires Run(cf, states, actions) && i < j < |actions| && actions[j].Choose?
    requires actions[i].CopyFails? || !states[0].copyRange
    ensures actions[j].i < |states[j + 1].workers| && !states[j + 1].workers[actions[j].i].copy
  {
    CopyRangeHistory(cf, states, actions, j);
    assert StepAt(cf, states, actions, j);
  }

  /** All claims so far were for data. */
  ghost predicate OnlyData(actions: seq<Action>, m: nat)
    requires m <= |actions|
  {
    forall i :: 0 <= i < m && actions[i].Claim? ==> actions[i].status.Data?
  }

  /** Every claim is for data and is to be copied without reading. */
  ghost predicate Offloads(s: State) {
    forall k :: 0 <= k < |s.workers| ==>
      !s.workers[k].pc.Reading? && (Active(s.workers[k]) ==> s.workers[k].status.Data? && s.status.Data?)
  }

  lemma OffloadStep(cf: Conf, s: State, a: Action)
    requires Inv(cf, s) && Enabled(cf, s, a) && Offloads(s) && s.copyRange
    requires a.Claim? ==> a.status.Data?
    ensures Offloads(Apply(cf, s, a))
  {
    var t := Apply(cf, s, a);
    OwnOffload(cf, s, a);
    forall k | 0 <= k < |t.workers| && k != a.i
      ensures !t.workers[k].pc.Reading? && (Active(t.workers[k]) ==> t.workers[k].status.Data? && t.status.Data?)
    {
      OthersStep(cf, s, a, k);
    }
  }

  lemma OwnOffload(cf: Conf, s: State, a: Action)
    requires Inv(cf, s) && Enabled(cf, s, a) && Offloads(s) && s.copyRange
    requires a.Claim? ==> a.status.Data?
    ensures var t := Apply(cf, s, a);
      && |t.workers| == |s.workers| && (t.status == s.status || t.status.Data?)
      && !t.workers[a.i].pc.Reading? && (Active(t.workers[a.i]) ==> t.workers[a.i].status.Data? && t.status.Data?)
  {
    if a.Release? {
      ReleasedShape(cf, s, a.i);
    }
  }

  lemma {:induction false} RunOffloads(cf: Conf, states: seq<State>, actions: seq<Action>, m: nat)
    requires Run(cf, states, actions) && Init(cf, states[0]) && m < |states|
    requires states[m].copyRange && OnlyData(actions, m)
    ensures Offloads(states[m])
  {
    if m == 0 {
      assert forall k :: 0 <= k < |states[0].workers| ==> NewWorker(states[0].workers[k]);
    } else {
      CopyRangeHistory(cf, states, actions, m);
      CopyRangeHistory(cf, states, actions, m - 1);
      RunOffloads(cf, states, actions, m - 1);
      RunInv(cf, states, actions, m - 1);
      assert StepAt(cf, states, actions, m - 1);
      OffloadStep(cf, states[m - 1], actions[m - 1]);
    }
  }

  /** As long as copying without reading works, data is not read. */
  lemma OffloadingReadsNothing(cf: Conf, states: seq<State>, actions: seq<Action>, m: nat)
    requires Run(cf, states, actions) && Init(cf, states[0]) && m < |actions| && states[0].copyRange
    requires OnlyData(actions, m) && forall i :: 0 <= i < m ==> !actions[i].CopyFails?
    ensures !actions[m].ReadEnds?
  {
    CopyRangeHistory(cf, states, actions, m);
    RunOffloads(cf, states, actions, m);
    assert StepAt(cf, states, actions, m);
  }
}
