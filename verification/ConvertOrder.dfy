/**
 In-order conversion: a worker writes only in its turn, none is left behind waiting for it,
 and every run ends.
 */
module ConvertOrder {
  import opened SparseDetection
  import opened SparseWrite
  import opened ConvertSource
  import opened ConvertWorkers
  import opened ConvertSafety

  /** The worker may write or has written. */
  predicate HasTurn(w: Worker) {
    w.pc.Turn? || w.pc.Writing? || w.pc.Finish?
  }

  ghost predicate InOrderOk(s: State, i: nat)
    requires i < |s.workers|
  {
    Active(s.workers[i]) ==>
      s.sectorNum >= s.workers[i].sector >= s.wrOffs && (HasTurn(s.workers[i]) ==> s.workers[i].sector == s.wrOffs)
  }

  ghost predicate Held(ws: seq<Worker>, p: nat) {
    exists i :: 0 <= i < |ws| && Holds(ws[i], p)
  }

  /** The claims tile everything from the write offset on. */
  ghost predicate Tiled(s: State) {
    forall p: nat {:trigger Held(s.workers, p)} :: s.wrOffs <= p < s.sectorNum ==> Held(s.workers, p)
  }

  /** Another worker holds the range that ends where this one begins. */
  ghost predicate HasPredecessor(ws: seq<Worker>, i: nat)
    requires i < |ws|
  {
    exists q :: 0 <= q < |ws| && Active(ws[q]) && ws[q].sector + ws[q].n == ws[i].sector
  }

  ghost predicate ParkedOk(s: State, i: nat)
    requires i < |s.workers|
  {
    s.workers[i].pc.Parked? ==> HasPredecessor(s.workers, i)
  }

  ghost predicate OrderInv(s: State) {
    && (s.ret.InProgress? ==>
          && s.wrOffs <= s.sectorNum && Tiled(s)
          && forall i: nat {:trigger InOrderOk(s, i)} :: i < |s.workers| ==> InOrderOk(s, i))
    && (forall i: nat {:trigger ParkedOk(s, i)} :: i < |s.workers| ==> ParkedOk(s, i))
  }

  lemma InitOrder(cf: Conf, s: State)
    requires Init(cf, s)
    ensures OrderInv(s)
  {
    forall i: nat | i < |s.workers| ensures InOrderOk(s, i) && ParkedOk(s, i) {
      assert NewWorker(s.workers[i]);
    }
  }

  // --- Steps that keep the claims ---

  /** Worker i changes but keeps its claim; it parks or gets its turn only by the rules. */
  ghost predicate QuietChange(s: State, t: State, i: nat) {
    && i < |s.workers| && |t.workers| == |s.workers| && t.workers == s.workers[i := t.workers[i]]
    && t.sectorNum == s.sectorNum && t.wrOffs == s.wrOffs && RetGoes(s.ret, t.ret)
    && SameClaim(s.workers[i], t.workers[i])
    && (t.ret.InProgress? && HasTurn(t.workers[i]) ==> s.workers[i].sector == s.wrOffs)
    && (t.workers[i].pc.Parked? ==> HasPredecessor(s.workers, i))
  }

  lemma PredecessorStays(s: State, t: State, i: nat, k: nat)
    requires QuietChange(s, t, i) && k < |s.workers| && HasPredecessor(s.workers, k)
    ensures HasPredecessor(t.workers, k)
  {
    var q :| 0 <= q < |s.workers| && Active(s.workers[q])
      && s.workers[q].sector + s.workers[q].n == s.workers[k].sector;
    assert Active(t.workers[q]) && t.workers[q].sector + t.workers[q].n == t.workers[k].sector;
  }

  lemma QuietOrder(s: State, t: State, i: nat)
    requires OrderInv(s) && QuietChange(s, t, i)
    ensures OrderInv(t)
  {
    forall k: nat | k < |t.workers| ensures ParkedOk(t, k) {
      assert ParkedOk(s, k);
      if t.workers[k].pc.Parked? {
        PredecessorStays(s, t, i, k);
      }
    }
    if t.ret.InProgress? {
      forall k: nat | k < |t.workers| ensures InOrderOk(t, k) {
        assert InOrderOk(s, k);
      }
      forall p: nat | t.wrOffs <= p < t.sectorNum ensures Held(t.workers, p) {
        assert Held(s.workers, p);
        var q :| 0 <= q < |s.workers| && Holds(s.workers[q], p);
        assert Holds(t.workers[q], p);
      }
    }
  }

  /** A worker that has to wait has a predecessor. */
  lemma WaitingHasPredecessor(cf: Conf, s: State, i: nat)
    requires Inv(cf, s) && OrderInv(s) && i < |s.workers| && s.workers[i].pc.Order? && s.ret.InProgress?
    requires s.wrOffs != s.workers[i].sector
    ensures HasPredecessor(s.workers, i)
  {
    assert WorkerOk(cf, s, i) && InOrderOk(s, i);
    var p: nat := s.workers[i].sector - 1;
    assert Held(s.workers, p);
    var q :| 0 <= q < |s.workers| && Holds(s.workers[q], p);
    assert Disjoint(s, i, q);
  }

  lemma WaitOrder(cf: Conf, s: State, i: nat)
    requires Inv(cf, s) && OrderInv(s) && cf.inOrder && Enabled(cf, s, Wait(i))
    ensures OrderInv(Apply(cf, s, Wait(i)))
  {
    if s.ret.InProgress? && s.wrOffs != s.workers[i].sector {
      WaitingHasPredecessor(cf, s, i);
    }
    QuietOrder(s, Apply(cf, s, Wait(i)), i);
  }

  lemma BeginOrder(cf: Conf, s: State, i: nat)
    requires Inv(cf, s) && OrderInv(s) && Enabled(cf, s, BeginWrite(i))
    ensures OrderInv(Apply(cf, s, BeginWrite(i)))
  {
    assert WorkerOk(cf, s, i);
    if s.ret.InProgress? {
      assert InOrderOk(s, i);
    }
    QuietOrder(s, Apply(cf, s, BeginWrite(i)), i);
  }

  lemma ClaimOrder(cf: Conf, s: State, i: nat, n: nat, status: Status)
    requires Inv(cf, s) && OrderInv(s) && Enabled(cf, s, Claim(i, n, status))
    ensures OrderInv(Apply(cf, s, Claim(i, n, status)))
  {
    var t := Apply(cf, s, Claim(i, n, status));
    forall k: nat | k < |t.workers| ensures ParkedOk(t, k) && InOrderOk(t, k) {
      assert ParkedOk(s, k) && InOrderOk(s, k);
      if t.workers[k].pc.Parked? {
        var q :| 0 <= q < |s.workers| && Active(s.workers[q])
          && s.workers[q].sector + s.workers[q].n == s.workers[k].sector;
        assert t.workers[q] == s.workers[q];
      }
    }
    forall p: nat | t.wrOffs <= p < t.sectorNum ensures Held(t.workers, p) {
      if p < s.sectorNum {
        assert Held(s.workers, p);
        var q :| 0 <= q < |s.workers| && Holds(s.workers[q], p);
        assert Holds(t.workers[q], p);
      } else {
        assert Holds(t.workers[i], p);
      }
    }
  }

  // --- Passing the turn on ---

  /** The turn goes to exactly the worker parked at the end of the released range, if there is one. */
  lemma ReleaseWakes(cf: Conf, s: State, i: nat, k: nat)
    requires Inv(cf, s) && cf.inOrder && i < |s.workers| && s.workers[i].pc.Finish? && k < |s.workers| && k != i
    ensures var t, end := Released(cf, s, i), s.workers[i].sector + s.workers[i].n;
      && t.wrOffs == end && |t.workers| == |s.workers|
      && t.workers[k] == if s.workers[k].pc.Parked? && s.workers[k].sector == end
        then s.workers[k].(pc := Turn, wait := -1) else s.workers[k]
  {
    var w := s.workers[i];
    var end := w.sector + w.n;
    var t := Put(s, i, w.(pc := Top));
    var j := Waiter(t.workers, end, 0);
    assert WorkerOk(cf, s, i) && WorkerOk(cf, s, k);
    if j < |t.workers| {
      assert j != i;
      WaiterIsParked(cf, s, j, end);
      assert WorkerOk(cf, s, j) && Disjoint(s, j, k);
    }
  }

  lemma ReleaseOrder(cf: Conf, s: State, i: nat)
    requires Inv(cf, s) && OrderInv(s) && cf.inOrder && Enabled(cf, s, Release(i))
    ensures OrderInv(Apply(cf, s, Release(i)))
  {
    var t := Released(cf, s, i);
    ReleasedShape(cf, s, i);
    assert WorkerOk(cf, s, i);
    forall k: nat | k < |t.workers| ensures ParkedOk(t, k) {
      ReleaseParked(cf, s, i, k);
    }
    var end := s.workers[i].sector + s.workers[i].n;
    if s.ret.InProgress? {
      assert InOrderOk(s, i);
      forall k: nat | k < |t.workers| ensures t.wrOffs == end && InOrderOk(t, k) {
        ReleaseInOrder(cf, s, i, k);
      }
      forall p: nat | end <= p < t.sectorNum ensures Held(t.workers, p) {
        assert Held(s.workers, p);
        var q :| 0 <= q < |s.workers| && Holds(s.workers[q], p);
        assert Holds(t.workers[q], p);
      }
    }
  }

  lemma ReleaseParked(cf: Conf, s: State, i: nat, k: nat)
    requires Inv(cf, s) && OrderInv(s) && cf.inOrder && i < |s.workers| && s.workers[i].pc.Finish? && k < |s.workers|
    ensures k < |Released(cf, s, i).workers| && ParkedOk(Released(cf, s, i), k)
  {
    var t := Released(cf, s, i);
    ReleasedShape(cf, s, i);
    if t.workers[k].pc.Parked? {
      ReleaseWakes(cf, s, i, k);
      assert ParkedOk(s, k);
      var q: nat :| q < |s.workers| && Active(s.workers[q])
        && s.workers[q].sector + s.workers[q].n == s.workers[k].sector;
      assert Active(t.workers[q]) && t.workers[q].sector + t.workers[q].n == t.workers[k].sector;
    }
  }

  lemma ReleaseInOrder(cf: Conf, s: State, i: nat, k: nat)
    requires Inv(cf, s) && OrderInv(s) && cf.inOrder && i < |s.workers| && s.workers[i].pc.Finish? && k < |s.workers|
    requires s.ret.InProgress?
    ensures var t := Released(cf, s, i);
      k < |t.workers| && t.wrOffs == s.workers[i].sector + s.workers[i].n && InOrderOk(t, k)
  {
    ReleasedShape(cf, s, i);
    assert InOrderOk(s, i) && InOrderOk(s, k) && WorkerOk(cf, s, i) && WorkerOk(cf, s, k) && Disjoint(s, i, k);
    if k != i {
      ReleaseWakes(cf, s, i, k);
    }
  }

  // --- Every run ---

  lemma LeftOrder(s: State, i: nat)
    requires OrderInv(s) && i < |s.workers| && s.workers[i].pc.Top?
    ensures OrderInv(Left(s, i))
  {
    var t := Put(s, i, s.workers[i].(pc := Gone));
    QuietOrder(s, t, i);
    var u := Left(s, i);
    forall k: nat | k < |u.workers| ensures ParkedOk(u, k) {
      assert ParkedOk(t, k);
    }
  }

  lemma FailOrder(s: State)
    requires OrderInv(s)
    ensures OrderInv(s.(ret := Failed))
  {
    forall k: nat | k < |s.workers| ensures ParkedOk(s.(ret := Failed), k) {
      assert ParkedOk(s, k);
    }
  }

  /** The disk is no part of the order. */
  lemma DiskOrder(s: State, disk: seq<Sector>, copyRange: bool)
    requires OrderInv(s)
    ensures OrderInv(s.(disk := disk, copyRange := copyRange))
  {
    var t := s.(disk := disk, copyRange := copyRange);
    forall k: nat | k < |t.workers| ensures ParkedOk(t, k) && (t.ret.InProgress? ==> InOrderOk(t, k)) {
      assert ParkedOk(s, k) && (s.ret.InProgress? ==> InOrderOk(s, k));
    }
  }

  lemma WriteOrder(cf: Conf, s: State, i: nat, w: Worker, ret: Ret)
    requires Inv(cf, s) && OrderInv(s) && i < |s.workers| && s.workers[i].pc.Writing? && RetGoes(s.ret, ret)
    requires w == s.workers[i].(pc := Finish) || w == s.workers[i].(pc := Decide)
    ensures OrderInv(Put(s, i, w).(ret := ret))
  {
    assert s.ret.InProgress? ==> InOrderOk(s, i);
    QuietOrder(s, Put(s, i, w).(ret := ret), i);
  }

  lemma WrittenOrder(cf: Conf, s: State, a: Action)
    requires Inv(cf, s) && OrderInv(s) && cf.inOrder && Enabled(cf, s, a)
    requires a.WriteEnds? || a.WriteFails? || a.CopyFails?
    ensures OrderInv(Apply(cf, s, a))
  {
    var t, i := Apply(cf, s, a), a.i;
    WriteOrder(cf, s, i, t.workers[i], t.ret);
    DiskOrder(Put(s, i, t.workers[i]).(ret := t.ret), t.disk, t.copyRange);
  }

  lemma StepOrder(cf: Conf, s: State, a: Action)
    requires Inv(cf, s) && OrderInv(s) && cf.inOrder && Enabled(cf, s, a)
    ensures OrderInv(Apply(cf, s, a))
  {
    var t := Apply(cf, s, a);
    match a
    case Enter(i) => QuietOrder(s, t, i);
    case Leave(i) => LeftOrder(s, i);
    case Claim(i, n, status) => ClaimOrder(cf, s, i, n, status);
    case ClaimFails(i) => { FailOrder(s); LeftOrder(s.(ret := Failed), i); }
    case Choose(i) => QuietOrder(s, t, i);
    case ReadEnds(i, ok) => QuietOrder(s, t, i);
    case Wait(i) => WaitOrder(cf, s, i);
    case BeginWrite(i) => BeginOrder(cf, s, i);
    case WriteEnds(i) => WrittenOrder(cf, s, a);
    case WriteFails(i, disk) => WrittenOrder(cf, s, a);
    case CopyFails(i, disk) => WrittenOrder(cf, s, a);
    case Release(i) => ReleaseOrder(cf, s, i);
  }

  lemma {:induction false} RunOrder(cf: Conf, states: seq<State>, actions: seq<Action>, i: nat)
    requires Run(cf, states, actions) && Init(cf, states[0]) && cf.inOrder && i < |states|
    ensures Inv(cf, states[i]) && OrderInv(states[i])
  {
    RunInv(cf, states, actions, i);
    if i == 0 {
      InitOrder(cf, states[0]);
    } else {
      RunOrder(cf, states, actions, i - 1);
      assert StepAt(cf, states, actions, i - 1);
      StepOrder(cf, states[i - 1], actions[i - 1]);
    }
  }

  // --- Nobody is left waiting ---

  /** A worker that is neither parked nor gone can take a step. */
  lemma CanMove(cf: Conf, s: State, i: nat) returns (a: Action)
    requires Inv(cf, s) && i < |s.workers| && !s.workers[i].pc.Parked? && !s.workers[i].pc.Gone?
    ensures a.i == i && Enabled(cf, s, a)
  {
    match s.workers[i].pc
    case Unborn => a := Enter(i);
    case Top => a := if s.ret.InProgress? && s.sectorNum < |All(cf)| then ClaimFails(i) else Leave(i);
    case Decide => a := Choose(i);
    case Reading => a := ReadEnds(i, true);
    case Order => a := Wait(i);
    case Turn => a := BeginWrite(i);
    case Writing => a := WriteEnds(i);
    case Finish => a := Release(i);
  }

  /** Behind every parked worker there is one that is not, before it in the order of claims. */
  lemma {:induction false} SomeoneMoves(cf: Conf, s: State, i: nat) returns (q: nat)
    requires Inv(cf, s) && OrderInv(s) && i < |s.workers| && s.workers[i].pc.Parked?
    ensures q < |s.workers| && Active(s.workers[q]) && !s.workers[q].pc.Parked?
    ensures s.workers[q].sector < s.workers[i].sector
    decreases s.workers[i].sector
  {
    assert ParkedOk(s, i);
    q :| 0 <= q < |s.workers| && Active(s.workers[q]) && s.workers[q].sector + s.workers[q].n == s.workers[i].sector;
    assert WorkerOk(cf, s, q);
    if s.workers[q].pc.Parked? {
      q := SomeoneMoves(cf, s, q);
    }
  }

  /** No deadlock: while a worker is parked, also after an error elsewhere, some other worker can take a step. */
  lemma ParkedIsNotStuck(cf: Conf, states: seq<State>, actions: seq<Action>, m: nat, i: nat) returns (a: Action)
    requires Run(cf, states, actions) && Init(cf, states[0]) && cf.inOrder && m < |states|
    requires i < |states[m].workers| && states[m].workers[i].pc.Parked?
    ensures a.i != i && Enabled(cf, states[m], a)
  {
    RunOrder(cf, states, actions, m);
    var q := SomeoneMoves(cf, states[m], i);
    a := CanMove(cf, states[m], q);
  }

  // --- Every run ends ---

  /** How far a worker is from coming back to the top of its loop; offloading may be tried once more. */
  function Rank(copyRange: bool, w: Worker): nat {
    match w.pc
    case Unborn => 3
    case Top => 2
    case Decide => if copyRange then 18 else 9
    case Reading => 8
    case Order => if w.copy then 17 else 7
    case Parked => if w.copy then 16 else 6
    case Turn => if w.copy then 15 else 5
    case Writing => if w.copy then 14 else 4
    case Finish => 3
    case Gone => 0
  }

  function Ranks(copyRange: bool, ws: seq<Worker>): nat {
    if ws == [] then 0 else Rank(copyRange, ws[0]) + Ranks(copyRange, ws[1..])
  }

  ghost function Measure(cf: Conf, s: State): int {
    20 * (|All(cf)| - s.sectorNum) + Ranks(s.copyRange, s.workers)
  }

  lemma {:induction false} RanksUpdate(copyRange: bool, ws: seq<Worker>, i: nat, w: Worker)
    requires i < |ws|
    ensures Ranks(copyRange, ws[i := w]) == Ranks(copyRange, ws) - Rank(copyRange, ws[i]) + Rank(copyRange, w)
    decreases |ws|
  {
    if i > 0 {
      assert ws[i := w][1..] == ws[1..][i - 1 := w];
      RanksUpdate(copyRange, ws[1..], i - 1, w);
    } else {
      assert ws[0 := w][1..] == ws[1..];
    }
  }

  lemma {:induction false} RanksLower(ws: seq<Worker>)
    ensures Ranks(false, ws) <= Ranks(true, ws)
  {
    if ws != [] {
      RanksLower(ws[1..]);
    }
  }

  lemma ReleaseDecreases(cf: Conf, s: State, i: nat)
    requires Inv(cf, s) && i < |s.workers| && s.workers[i].pc.Finish?
    ensures Measure(cf, Released(cf, s, i)) < Measure(cf, s)
  {
    var w := s.workers[i];
    var t := Put(s, i, w.(pc := Top));
    RanksUpdate(s.copyRange, s.workers, i, w.(pc := Top));
    var k := Waiter(t.workers, w.sector + w.n, 0);
    if cf.inOrder && k < |t.workers| {
      assert WorkerOk(cf, s, i);
      assert k != i;
      WaiterIsParked(cf, s, k, w.sector + w.n);
      RanksUpdate(s.copyRange, t.workers, k, t.workers[k].(pc := Turn, wait := -1));
    }
  }

  /** A step of one worker alone. */
  lemma OneDecreases(cf: Conf, s: State, t: State, i: nat)
    requires i < |s.workers| && |t.workers| == |s.workers| && t.workers == s.workers[i := t.workers[i]]
    requires t.copyRange == s.copyRange || !t.copyRange
    requires Rank(t.copyRange, t.workers[i]) < Rank(s.copyRange, s.workers[i]) + 20 * (t.sectorNum - s.sectorNum)
    ensures Measure(cf, t) < Measure(cf, s)
  {
    RanksUpdate(t.copyRange, s.workers, i, t.workers[i]);
    if t.copyRange != s.copyRange {
      RanksRest(s.workers, i);
    }
  }

  /** Giving up offloading raises nobody's rank. */
  lemma {:induction false} RanksRest(ws: seq<Worker>, i: nat)
    requires i < |ws|
    ensures Ranks(false, ws) - Rank(false, ws[i]) <= Ranks(true, ws) - Rank(true, ws[i])
    decreases |ws|
  {
    if i > 0 {
      RanksRest(ws[1..], i - 1);
    } else {
      RanksLower(ws[1..]);
    }
  }

  lemma EasyDecreases(cf: Conf, s: State, a: Action)
    requires Inv(cf, s) && Enabled(cf, s, a) && (a.Enter? || a.Leave? || a.ClaimFails? || a.Choose? || a.ReadEnds?)
    ensures Measure(cf, Apply(cf, s, a)) < Measure(cf, s)
  {
    assert WorkerOk(cf, s, a.i);
    OneDecreases(cf, s, Apply(cf, s, a), a.i);
  }

  lemma WritingDecreases(cf: Conf, s: State, a: Action)
    requires Inv(cf, s) && Enabled(cf, s, a)
    requires a.Wait? || a.BeginWrite? || a.WriteEnds? || a.WriteFails? || a.CopyFails?
    ensures Measure(cf, Apply(cf, s, a)) < Measure(cf, s)
  {
    OneDecreases(cf, s, Apply(cf, s, a), a.i);
  }

  lemma ClaimDecreases(cf: Conf, s: State, a: Action)
    requires Inv(cf, s) && Enabled(cf, s, a) && a.Claim?
    ensures Measure(cf, Apply(cf, s, a)) < Measure(cf, s)
  {
    OneDecreases(cf, s, Apply(cf, s, a), a.i);
  }

  lemma StepDecreases(cf: Conf, s: State, a: Action)
    requires Inv(cf, s) && Enabled(cf, s, a)
    ensures Measure(cf, Apply(cf, s, a)) < Measure(cf, s)
  {
    if a.Release? {
      ReleaseDecreases(cf, s, a.i);
    } else if a.Claim? {
      ClaimDecreases(cf, s, a);
    } else if a.Enter? || a.Leave? || a.ClaimFails? || a.Choose? || a.ReadEnds? {
      EasyDecreases(cf, s, a);
    } else {
      WritingDecreases(cf, s, a);
    }
  }

  lemma MeasureIsNatural(cf: Conf, s: State)
    requires Inv(cf, s)
    ensures Measure(cf, s) >= 0
  {
  }

  /** No run is longer than its first state allows. */
  lemma {:induction false} RunIsBounded(cf: Conf, states: seq<State>, actions: seq<Action>, m: nat)
    requires Run(cf, states, actions) && Init(cf, states[0]) && m < |states|
    ensures m <= Measure(cf, states[0]) - Measure(cf, states[m]) && Measure(cf, states[m]) >= 0
  {
    RunInv(cf, states, actions, m);
    MeasureIsNatural(cf, states[m]);
    if m > 0 {
      RunIsBounded(cf, states, actions, m - 1);
      RunInv(cf, states, actions, m - 1);
      assert StepAt(cf, states, actions, m - 1);
      StepDecreases(cf, states[m - 1], actions[m - 1]);
    }
  }

  /** A run that cannot go on has brought every worker home: whoever was parked has been entered again. */
  lemma EveryoneComesHome(cf: Conf, states: seq<State>, actions: seq<Action>, i: nat)
    requires Run(cf, states, actions) && Init(cf, states[0]) && i < |states[|actions|].workers|
    requires forall a {:trigger Enabled(cf, states[|actions|], a)} :: !Enabled(cf, states[|actions|], a)
    ensures states[|actions|].workers[i].pc.Gone?
  {
    var s := states[|actions|];
    RunInv(cf, states, actions, |actions|);
    assert WorkerOk(cf, s, i);
    if s.workers[i].pc.Parked? {
      var a := ParkedIsNotStuck(cf, states, actions, |actions|, i);
    } else if !s.workers[i].pc.Gone? {
      var a := CanMove(cf, s, i);
    }
  }

  /** If everybody has gone, the outcome has been reported. */
  ghost predicate Reported(s: State) {
    (exists k :: 0 <= k < |s.workers| && s.workers[k].pc.Gone?) && s.ret.InProgress? ==>
      exists k :: 0 <= k < |s.workers| && Running(s.workers[k])
  }

  lemma StepReported(cf: Conf, s: State, a: Action)
    requires Inv(cf, s) && Enabled(cf, s, a)
    ensures Reported(Apply(cf, s, a))
  {
    var t := Apply(cf, s, a);
    if a.Release? {
      ReleasedShape(cf, s, a.i);
    }
    if !a.Leave? && !a.ClaimFails? {
      assert Running(t.workers[a.i]);
    }
  }

  /** A run that cannot go on has ended in success, with the target a copy of the sources, or in failure. */
  lemma ConversionEnds(cf: Conf, states: seq<State>, actions: seq<Action>)
    requires Run(cf, states, actions) && Init(cf, states[0]) && |actions| > 0
    requires forall a {:trigger Enabled(cf, states[|actions|], a)} :: !Enabled(cf, states[|actions|], a)
    ensures states[|actions|].ret.Failed?
      || (states[|actions|].ret.Done? && states[|actions|].disk == Concat(cf.job.src))
  {
    var m := |actions|;
    RunInv(cf, states, actions, m - 1);
    assert StepAt(cf, states, actions, m - 1);
    StepReported(cf, states[m - 1], actions[m - 1]);
    forall i: nat | i < |states[m].workers| ensures states[m].workers[i].pc.Gone? {
      EveryoneComesHome(cf, states, actions, i);
    }
    assert actions[m - 1].i < |states[m].workers| by {
      SameWorkers(cf, states[m - 1], actions[m - 1]);
    }
    assert states[m].workers[actions[m - 1].i].pc.Gone?;
    forall k | 0 <= k < |states[m].workers| ensures !Running(states[m].workers[k]) {
      assert states[m].workers[k].pc.Gone?;
    }
    if states[m].ret.Done? {
      SuccessIsCopy(cf, states, actions, m);
    }
  }

  lemma SameWorkers(cf: Conf, s: State, a: Action)
    requires Inv(cf, s) && Enabled(cf, s, a)
    ensures |Apply(cf, s, a).workers| == |s.workers|
  {
  }
}
