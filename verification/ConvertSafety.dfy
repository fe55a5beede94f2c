/**
 What the copying coroutines keep in every interleaving: claims are disjoint, and every sector is
 copied, pending or untouched.
 */
module ConvertSafety {
  import opened SparseDetection
  import opened SparseWrite
  import opened ConvertSource
  import opened ConvertWorkers

  /** The worker is past its read and before the end of its write. */
  predicate Loaded(w: Worker) {
    w.pc.Order? || w.pc.Parked? || w.pc.Turn? || w.pc.Writing?
  }

  ghost predicate WorkerRight(cf: Conf, sectorNum: nat, ret: Ret, w: Worker) {
    && w.wait == (if w.pc.Parked? then w.sector else -1)
    && (w.pc.Parked? ==> cf.inOrder) && (w.pc.Reading? ==> !w.copy)
    && (Active(w) ==>
          0 < w.n && w.sector + w.n <= sectorNum && StatusSound(cf.job, w.sector, w.n, w.status) && !ret.Done?)
    && (Loaded(w) && !w.copy && w.status.Data? && !ret.Failed? ==>
          w.sector + w.n <= |All(cf)| && w.buf == All(cf)[w.sector..w.sector + w.n])
  }

  ghost predicate WorkerOk(cf: Conf, s: State, i: nat)
    requires i < |s.workers|
  {
    WorkerRight(cf, s.sectorNum, s.ret, s.workers[i])
  }

  /** Two claims do not overlap. */
  ghost predicate Apart(v: Worker, w: Worker) {
    Active(v) && Active(w) ==> v.sector + v.n <= w.sector || w.sector + w.n <= v.sector
  }

  ghost predicate Disjoint(s: State, i: nat, k: nat)
    requires i < |s.workers| && k < |s.workers|
  {
    i != k ==> Apart(s.workers[i], s.workers[k])
  }

  /** Some worker still has to write this sector. */
  ghost predicate ToWrite(ws: seq<Worker>, p: nat) {
    exists i :: 0 <= i < |ws| && Holds(ws[i], p) && !ws[i].pc.Finish?
  }

  /** Unless something failed, a sector is copied, or it shows what it did and is still to be written. */
  ghost predicate SectorOk(cf: Conf, s: State, p: nat)
    requires p < |s.disk| && |s.disk| == |All(cf)| && |cf.job.shown| == |All(cf)|
  {
    && (p >= s.sectorNum ==> s.disk[p] == cf.job.shown[p])
    && (!s.ret.Failed? && p < s.sectorNum ==>
      s.disk[p] == All(cf)[p] || (s.disk[p] == cf.job.shown[p] && ToWrite(s.workers, p)))
  }

  ghost predicate Sizes(cf: Conf, s: State) {
    && ValidConf(cf) && |s.disk| == |All(cf)| && s.sectorNum <= |All(cf)|
    && (s.ret.Done? ==> s.sectorNum == |All(cf)|)
  }

  ghost predicate Inv(cf: Conf, s: State) {
    && Sizes(cf, s)
    && (forall i: nat {:trigger WorkerOk(cf, s, i)} :: i < |s.workers| ==> WorkerOk(cf, s, i))
    && (forall i: nat, k: nat {:trigger Disjoint(s, i, k)} :: i < |s.workers| && k < |s.workers| ==> Disjoint(s, i, k))
    && (forall p: nat {:trigger SectorOk(cf, s, p)} :: p < |s.disk| ==> SectorOk(cf, s, p))
  }

  lemma InitInv(cf: Conf, s: State)
    requires Init(cf, s)
    ensures Inv(cf, s)
  {
    forall i: nat | i < |s.workers| ensures WorkerOk(cf, s, i) {
      assert NewWorker(s.workers[i]);
    }
    forall i: nat, k: nat | i < |s.workers| && k < |s.workers| ensures Disjoint(s, i, k) {
      assert NewWorker(s.workers[i]);
    }
  }

  // --- Steps of one worker that keep its claim ---

  predicate SameClaim(v: Worker, w: Worker) {
    Active(v) == Active(w) && v.sector == w.sector && v.n == w.n
  }

  ghost predicate RetGoes(r: Ret, q: Ret) {
    q == r || q.Failed?
  }

  /** The worker i changes, keeping its claim; the outcome may turn to failure. */
  ghost predicate LocalChange(s: State, t: State, i: nat) {
    && i < |s.workers| && |t.workers| == |s.workers| && t.workers == s.workers[i := t.workers[i]]
    && t.sectorNum == s.sectorNum && t.disk == s.disk && RetGoes(s.ret, t.ret)
    && SameClaim(s.workers[i], t.workers[i])
    && (t.workers[i].pc.Finish? && !t.ret.Failed? ==> s.workers[i].pc.Finish?)
  }

  lemma OthersKept(cf: Conf, s: State, t: State, i: nat, k: nat)
    requires LocalChange(s, t, i) && k < |s.workers| && k != i && WorkerOk(cf, s, k)
    ensures WorkerOk(cf, t, k)
  {
  }

  lemma LocalInv(cf: Conf, s: State, t: State, i: nat)
    requires Inv(cf, s) && LocalChange(s, t, i) && WorkerOk(cf, t, i)
    ensures Inv(cf, t)
  {
    forall k: nat | k < |t.workers| ensures WorkerOk(cf, t, k) {
      if k != i {
        assert WorkerOk(cf, s, k);
        OthersKept(cf, s, t, i, k);
      }
    }
    forall j: nat, k: nat | j < |t.workers| && k < |t.workers| ensures Disjoint(t, j, k) {
      assert Disjoint(s, j, k);
    }
    forall p: nat | p < |t.disk| ensures SectorOk(cf, t, p) {
      assert SectorOk(cf, s, p);
      if !t.ret.Failed? && ToWrite(s.workers, p) {
        StillToWrite(s, t, i, p);
      }
    }
  }

  lemma StillToWrite(s: State, t: State, i: nat, p: nat)
    requires LocalChange(s, t, i) && !t.ret.Failed? && ToWrite(s.workers, p)
    ensures ToWrite(t.workers, p)
  {
    var k :| 0 <= k < |s.workers| && Holds(s.workers[k], p) && !s.workers[k].pc.Finish?;
    assert Holds(t.workers[k], p) && !t.workers[k].pc.Finish?;
  }

  lemma ChooseInv(cf: Conf, s: State, i: nat)
    requires Inv(cf, s) && Enabled(cf, s, Choose(i))
    ensures Inv(cf, Apply(cf, s, Choose(i)))
  {
    assert WorkerOk(cf, s, i);
    var t := Apply(cf, s, Choose(i));
    var w, v := s.workers[i], t.workers[i];
    if !cf.sparse && w.status.Zero? {
      assert v.buf == All(cf)[v.sector..v.sector + v.n];
    }
    LocalInv(cf, s, t, i);
  }

  lemma ReadInv(cf: Conf, s: State, i: nat, ok: bool)
    requires Inv(cf, s) && Enabled(cf, s, ReadEnds(i, ok))
    ensures Inv(cf, Apply(cf, s, ReadEnds(i, ok)))
  {
    assert WorkerOk(cf, s, i);
    LocalInv(cf, s, Apply(cf, s, ReadEnds(i, ok)), i);
  }

  lemma WaitInv(cf: Conf, s: State, i: nat)
    requires Inv(cf, s) && Enabled(cf, s, Wait(i))
    ensures Inv(cf, Apply(cf, s, Wait(i)))
  {
    assert WorkerOk(cf, s, i);
    LocalInv(cf, s, Apply(cf, s, Wait(i)), i);
  }

  lemma BeginInv(cf: Conf, s: State, i: nat)
    requires Inv(cf, s) && Enabled(cf, s, BeginWrite(i))
    ensures Inv(cf, Apply(cf, s, BeginWrite(i)))
  {
    assert WorkerOk(cf, s, i);
    LocalInv(cf, s, Apply(cf, s, BeginWrite(i)), i);
  }

  // --- Coming, going and claiming ---

  lemma EnterInv(cf: Conf, s: State, i: nat)
    requires Inv(cf, s) && Enabled(cf, s, Enter(i))
    ensures Inv(cf, Apply(cf, s, Enter(i)))
  {
    assert WorkerOk(cf, s, i);
    LocalInv(cf, s, Apply(cf, s, Enter(i)), i);
  }

  lemma LeftInv(cf: Conf, s: State, i: nat)
    requires Inv(cf, s) && i < |s.workers| && s.workers[i].pc.Top?
    requires s.ret.InProgress? ==> s.sectorNum == |All(cf)|
    ensures Inv(cf, Left(s, i))
  {
    var t := Put(s, i, s.workers[i].(pc := Gone));
    assert WorkerOk(cf, s, i);
    LocalInv(cf, s, t, i);
    var u := Left(s, i);
    if u != t {
      forall k: nat | k < |u.workers| ensures WorkerOk(cf, u, k) {
        assert WorkerOk(cf, t, k) && !Running(t.workers[k]);
      }
      forall j: nat, k: nat | j < |u.workers| && k < |u.workers| ensures Disjoint(u, j, k) {
        assert Disjoint(t, j, k);
      }
      forall p: nat | p < |u.disk| ensures SectorOk(cf, u, p) {
        assert SectorOk(cf, t, p);
      }
    }
  }

  lemma FailInv(cf: Conf, s: State)
    requires Inv(cf, s)
    ensures Inv(cf, s.(ret := Failed))
  {
    var t := s.(ret := Failed);
    forall k: nat | k < |t.workers| ensures WorkerOk(cf, t, k) {
      assert WorkerOk(cf, s, k);
    }
    forall j: nat, k: nat | j < |t.workers| && k < |t.workers| ensures Disjoint(t, j, k) {
      assert Disjoint(s, j, k);
    }
    forall p: nat | p < |t.disk| ensures SectorOk(cf, t, p) {
      assert SectorOk(cf, s, p);
    }
  }

  lemma ClaimInv(cf: Conf, s: State, i: nat, n: nat, status: Status)
    requires Inv(cf, s) && Enabled(cf, s, Claim(i, n, status))
    ensures Inv(cf, Apply(cf, s, Claim(i, n, status)))
  {
    var t := Apply(cf, s, Claim(i, n, status));
    var m := t.workers[i].n;
    SoundPrefix(cf.job, s.sectorNum, n, m, status);
    assert WorkerOk(cf, s, i);
    forall k: nat | k < |t.workers| ensures WorkerOk(cf, t, k) {
      assert WorkerOk(cf, s, k);
    }
    forall j: nat, k: nat | j < |t.workers| && k < |t.workers| ensures Disjoint(t, j, k) {
      assert Disjoint(s, j, k) && WorkerOk(cf, s, j) && WorkerOk(cf, s, k);
    }
    forall p: nat | p < |t.disk| ensures SectorOk(cf, t, p) {
      assert SectorOk(cf, s, p);
      ClaimedSector(s, t, i, p);
    }
  }

  lemma ClaimedSector(s: State, t: State, i: nat, p: nat)
    requires i < |s.workers| && s.workers[i].pc.Top? && |t.workers| == |s.workers|
    requires t.workers == s.workers[i := t.workers[i]] && t.workers[i].pc.Decide?
    requires t.workers[i].sector == s.sectorNum && t.sectorNum == s.sectorNum + t.workers[i].n
    ensures ToWrite(s.workers, p) ==> ToWrite(t.workers, p)
    ensures s.sectorNum <= p < t.sectorNum ==> ToWrite(t.workers, p)
  {
    if ToWrite(s.workers, p) {
      var k :| 0 <= k < |s.workers| && Holds(s.workers[k], p) && !s.workers[k].pc.Finish?;
      assert Holds(t.workers[k], p);
    }
    if s.sectorNum <= p < t.sectorNum {
      assert Holds(t.workers[i], p);
    }
  }

  // --- Writing ---

  /** The worker i changes, keeping its claim, and the target changes within it only. */
  ghost predicate WriteChange(s: State, t: State, i: nat) {
    && i < |s.workers| && |t.workers| == |s.workers| && t.workers == s.workers[i := t.workers[i]]
    && Active(s.workers[i]) && SameClaim(s.workers[i], t.workers[i])
    && t.sectorNum == s.sectorNum && RetGoes(s.ret, t.ret) && OnlyWithin(s.disk, t.disk, s.workers[i])
  }

  lemma WriteChangeInv(cf: Conf, s: State, t: State, i: nat)
    requires Inv(cf, s) && WriteChange(s, t, i) && WorkerOk(cf, t, i)
    requires !t.ret.Failed? ==> forall p: nat :: Holds(s.workers[i], p) && p < |s.disk| ==> SectorOk(cf, t, p)
    ensures Inv(cf, t)
  {
    assert WorkerOk(cf, s, i);
    forall k: nat | k < |t.workers| ensures WorkerOk(cf, t, k) {
      assert WorkerOk(cf, s, k);
    }
    forall j: nat, k: nat | j < |t.workers| && k < |t.workers| ensures Disjoint(t, j, k) {
      assert Disjoint(s, j, k);
    }
    forall p: nat | p < |t.disk| ensures SectorOk(cf, t, p) {
      assert SectorOk(cf, s, p);
      if !Holds(s.workers[i], p) && ToWrite(s.workers, p) {
        var k :| 0 <= k < |s.workers| && Holds(s.workers[k], p) && !s.workers[k].pc.Finish?;
        assert t.workers[k] == s.workers[k];
      }
    }
  }

  /** What a finished write leaves in its range, when the buffer holds the source. */
  lemma WrittenIsSource(cf: Conf, s: State, w: Worker, p: nat)
    requires Sizes(cf, s) && WorkerRight(cf, s.sectorNum, s.ret, w) && w.pc.Writing? && !s.ret.Failed?
    requires p < |s.disk| && SectorOk(cf, s, p) && w.sector <= p < w.sector + w.n
    ensures Written(cf, s.disk, w)[p] == All(cf)[p]
  {
    if !w.copy && w.status.Data? {
      assert w.buf[p - w.sector] == All(cf)[p];
    }
  }

  lemma WriteEndsInv(cf: Conf, s: State, i: nat)
    requires Inv(cf, s) && Enabled(cf, s, WriteEnds(i))
    ensures Inv(cf, Apply(cf, s, WriteEnds(i)))
  {
    var t := Apply(cf, s, WriteEnds(i));
    assert WorkerOk(cf, s, i);
    if !s.ret.Failed? {
      forall p: nat | Holds(s.workers[i], p) && p < |s.disk| ensures SectorOk(cf, t, p) {
        assert SectorOk(cf, s, p);
        WrittenIsSource(cf, s, s.workers[i], p);
      }
    }
    WriteChangeInv(cf, s, t, i);
  }

  lemma WriteFailsInv(cf: Conf, s: State, i: nat, disk: seq<Sector>)
    requires Inv(cf, s) && Enabled(cf, s, WriteFails(i, disk))
    ensures Inv(cf, Apply(cf, s, WriteFails(i, disk)))
  {
    assert WorkerOk(cf, s, i);
    WriteChangeInv(cf, s, Apply(cf, s, WriteFails(i, disk)), i);
  }

  lemma CopyFailsInv(cf: Conf, s: State, i: nat, disk: seq<Sector>)
    requires Inv(cf, s) && Enabled(cf, s, CopyFails(i, disk))
    ensures Inv(cf, Apply(cf, s, CopyFails(i, disk)))
  {
    var t := Apply(cf, s, CopyFails(i, disk));
    assert WorkerOk(cf, s, i);
    if !s.ret.Failed? {
      forall p: nat | Holds(s.workers[i], p) && p < |s.disk| ensures SectorOk(cf, t, p) {
        assert SectorOk(cf, s, p);
        assert Holds(t.workers[i], p);
      }
    }
    WriteChangeInv(cf, s, t, i);
  }

  // --- Passing the turn on ---

  /** Whoever waits for an offset is parked there. */
  lemma WaiterIsParked(cf: Conf, s: State, k: nat, at: nat)
    requires Inv(cf, s) && k < |s.workers| && s.workers[k].wait == at
    ensures s.workers[k].pc.Parked? && s.workers[k].sector == at && cf.inOrder
  {
    assert WorkerOk(cf, s, k);
  }

  /** After releasing: the worker is at the top, another may have its turn, nobody else changed. */
  lemma ReleasedShape(cf: Conf, s: State, i: nat)
    requires Inv(cf, s) && i < |s.workers| && s.workers[i].pc.Finish?
    ensures var t := Released(cf, s, i);
      && |t.workers| == |s.workers| && t.workers[i] == s.workers[i].(pc := Top)
      && t == s.(workers := t.workers, wrOffs := t.wrOffs)
      && (forall k :: 0 <= k < |s.workers| && k != i ==>
            t.workers[k] == s.workers[k]
              || (s.workers[k].pc.Parked? && t.workers[k] == s.workers[k].(pc := Turn, wait := -1)))
  {
    var w := s.workers[i];
    var t := Put(s, i, w.(pc := Top));
    var k := Waiter(t.workers, w.sector + w.n, 0);
    assert WorkerOk(cf, s, i);
    if cf.inOrder && k < |t.workers| {
      assert k != i;
      WaiterIsParked(cf, s, k, w.sector + w.n);
    }
  }

  lemma ReleaseInv(cf: Conf, s: State, i: nat)
    requires Inv(cf, s) && Enabled(cf, s, Release(i))
    ensures Inv(cf, Apply(cf, s, Release(i)))
  {
    var t := Released(cf, s, i);
    ReleasedShape(cf, s, i);
    assert WorkerOk(cf, s, i);
    forall k: nat | k < |t.workers| ensures WorkerOk(cf, t, k) {
      assert WorkerOk(cf, s, k);
    }
    forall j: nat, k: nat | j < |t.workers| && k < |t.workers| ensures Disjoint(t, j, k) {
      assert Disjoint(s, j, k);
    }
    forall p: nat | p < |t.disk| ensures SectorOk(cf, t, p) {
      assert SectorOk(cf, s, p);
      if ToWrite(s.workers, p) {
        var k :| 0 <= k < |s.workers| && Holds(s.workers[k], p) && !s.workers[k].pc.Finish?;
        assert Holds(t.workers[k], p) && !t.workers[k].pc.Finish?;
      }
    }
  }

  // --- Every run ---

  lemma StepInv(cf: Conf, s: State, a: Action)
    requires Inv(cf, s) && Enabled(cf, s, a)
    ensures Inv(cf, Apply(cf, s, a))
  {
    match a
    case Enter(i) => EnterInv(cf, s, i);
    case Leave(i) => LeftInv(cf, s, i);
    case Claim(i, n, status) => ClaimInv(cf, s, i, n, status);
    case ClaimFails(i) => { FailInv(cf, s); LeftInv(cf, s.(ret := Failed), i); }
    case Choose(i) => ChooseInv(cf, s, i);
    case ReadEnds(i, ok) => ReadInv(cf, s, i, ok);
    case Wait(i) => WaitInv(cf, s, i);
    case BeginWrite(i) => BeginInv(cf, s, i);
    case WriteEnds(i) => WriteEndsInv(cf, s, i);
    case WriteFails(i, disk) => WriteFailsInv(cf, s, i, disk);
    case CopyFails(i, disk) => CopyFailsInv(cf, s, i, disk);
    case Release(i) => ReleaseInv(cf, s, i);
  }

  lemma {:induction false} RunInv(cf: Conf, states: seq<State>, actions: seq<Action>, i: nat)
    requires Run(cf, states, actions) && Init(cf, states[0]) && i < |states|
    ensures Inv(cf, states[i])
  {
    if i == 0 {
      InitInv(cf, states[0]);
    } else {
      RunInv(cf, states, actions, i - 1);
      assert StepAt(cf, states, actions, i - 1);
      StepInv(cf, states[i - 1], actions[i - 1]);
    }
  }

  /** Claims are non-empty, lie within what was claimed, and do not overlap. */
  lemma ClaimsAreDisjoint(cf: Conf, states: seq<State>, actions: seq<Action>, m: nat, i: nat, k: nat)
    requires Run(cf, states, actions) && Init(cf, states[0]) && m < |states|
    requires i < |states[m].workers| && k < |states[m].workers| && i != k && Active(states[m].workers[i])
    requires Active(states[m].workers[k])
    ensures var v, w := states[m].workers[i], states[m].workers[k];
      0 < v.n && v.sector + v.n <= states[m].sectorNum && (v.sector + v.n <= w.sector || w.sector + w.n <= v.sector)
  {
    RunInv(cf, states, actions, m);
    assert WorkerOk(cf, states[m], i) && Disjoint(states[m], i, k);
  }

  /** When the conversion reports success, the target reads as the concatenated sources. */
  lemma SuccessIsCopy(cf: Conf, states: seq<State>, actions: seq<Action>, m: nat)
    requires Run(cf, states, actions) && Init(cf, states[0]) && m < |states| && states[m].ret.Done?
    ensures states[m].disk == Concat(cf.job.src)
  {
    RunInv(cf, states, actions, m);
    var s := states[m];
    forall k: nat | k < |s.workers| ensures !Active(s.workers[k]) {
      assert WorkerOk(cf, s, k);
    }
    forall p: nat | p < |s.disk| ensures s.disk[p] == All(cf)[p] {
      assert SectorOk(cf, s, p) && !ToWrite(s.workers, p);
    }
  }

  // --- Claims over a whole run ---

  /** The range that the claim in step c takes. */
  ghost predicate IsClaim(cf: Conf, states: seq<State>, actions: seq<Action>, c: nat) {
    Run(cf, states, actions) && c < |actions| && actions[c].Claim?
  }

  ghost function ClaimStart(cf: Conf, states: seq<State>, actions: seq<Action>, c: nat): nat
    requires IsClaim(cf, states, actions, c)
  {
    assert StepAt(cf, states, actions, c);
    states[c + 1].workers[actions[c].i].sector
  }

  ghost function ClaimEnd(cf: Conf, states: seq<State>, actions: seq<Action>, c: nat): nat
    requires IsClaim(cf, states, actions, c)
  {
    assert StepAt(cf, states, actions, c);
    states[c + 1].workers[actions[c].i].sector + states[c + 1].workers[actions[c].i].n
  }

  /** Step c claims the sector p. */
  ghost predicate ClaimsSector(cf: Conf, states: seq<State>, actions: seq<Action>, c: nat, p: nat) {
    IsClaim(cf, states, actions, c) && ClaimStart(cf, states, actions, c) <= p < ClaimEnd(cf, states, actions, c)
  }

  /** Only a claim moves the shared position, by the range it takes. */
  lemma PositionStep(cf: Conf, s: State, a: Action)
    requires Enabled(cf, s, a) && |s.disk| == |All(cf)|
    ensures var t := Apply(cf, s, a);
      && |t.workers| == |s.workers|
      && (!a.Claim? ==> t.sectorNum == s.sectorNum)
      && (a.Claim? ==> t.workers[a.i].sector == s.sectorNum && t.sectorNum == s.sectorNum + t.workers[a.i].n)
  {
  }

  lemma ClaimMovesPosition(cf: Conf, states: seq<State>, actions: seq<Action>, c: nat)
    requires Run(cf, states, actions) && c < |actions|
    ensures states[c].sectorNum <= states[c + 1].sectorNum
    ensures !actions[c].Claim? ==> states[c].sectorNum == states[c + 1].sectorNum
    ensures actions[c].Claim? ==>
      && ClaimStart(cf, states, actions, c) == states[c].sectorNum
      && ClaimEnd(cf, states, actions, c) == states[c + 1].sectorNum
  {
    assert StepAt(cf, states, actions, c);
    PositionStep(cf, states[c], actions[c]);
  }

  lemma {:induction false} PositionGrows(cf: Conf, states: seq<State>, actions: seq<Action>, m: nat, k: nat)
    requires Run(cf, states, actions) && m <= k < |states|
    ensures states[m].sectorNum <= states[k].sectorNum
    decreases k
  {
    if m < k {
      PositionGrows(cf, states, actions, m, k - 1);
      ClaimMovesPosition(cf, states, actions, k - 1);
    }
  }

  /** Claims made at any two times: the earlier range ends before the later one begins. */
  lemma ClaimsAscend(cf: Conf, states: seq<State>, actions: seq<Action>, c: nat, d: nat)
    requires IsClaim(cf, states, actions, c) && IsClaim(cf, states, actions, d) && c < d
    ensures ClaimEnd(cf, states, actions, c) <= ClaimStart(cf, states, actions, d)
  {
    ClaimMovesPosition(cf, states, actions, c);
    PositionGrows(cf, states, actions, c + 1, d);
    ClaimMovesPosition(cf, states, actions, d);
  }

  /** A sector before the shared position has been claimed. */
  lemma {:induction false} ClaimedBefore(cf: Conf, states: seq<State>, actions: seq<Action>, m: nat, p: nat)
    requires Run(cf, states, actions) && Init(cf, states[0]) && m < |states| && p < states[m].sectorNum
    ensures exists c: nat :: c < m && ClaimsSector(cf, states, actions, c, p)
  {
    ClaimMovesPosition(cf, states, actions, m - 1);
    if p < states[m - 1].sectorNum {
      ClaimedBefore(cf, states, actions, m - 1, p);
    } else {
      assert ClaimsSector(cf, states, actions, m - 1, p);
    }
  }

  /** When success is reported, every sector has been claimed, exactly once in the whole run. */
  lemma EverySectorClaimedOnce(cf: Conf, states: seq<State>, actions: seq<Action>, m: nat, p: nat)
    requires Run(cf, states, actions) && Init(cf, states[0]) && m < |states| && states[m].ret.Done? && p < |All(cf)|
    ensures exists c: nat :: c < m && ClaimsSector(cf, states, actions, c, p)
    ensures forall c: nat, d: nat ::
      ClaimsSector(cf, states, actions, c, p) && ClaimsSector(cf, states, actions, d, p) ==> c == d
  {
    RunInv(cf, states, actions, m);
    ClaimedBefore(cf, states, actions, m, p);
    forall c: nat, d: nat | ClaimsSector(cf, states, actions, c, p) && ClaimsSector(cf, states, actions, d, p)
      ensures c == d
    {
      if c < d {
        ClaimsAscend(cf, states, actions, c, d);
      } else if d < c {
        ClaimsAscend(cf, states, actions, d, c);
      }
    }
  }

  // --- What reads and writes rely on ---

  /** Data, and zeros that will be written as data, fit into the buffer; only data is read. */
  predicate Buffered(cf: Conf, w: Worker) {
    && (Active(w) && (w.status.Data? || (!cf.sparse && w.status.Zero?)) ==> w.n <= cf.job.bufSectors)
    && (w.pc.Reading? ==> w.status.Data?)
  }

  /** A sector of the target shows the source or what it showed at first. */
  ghost predicate Clean(cf: Conf, disk: seq<Sector>, p: nat) {
    p < |disk| && p < |All(cf)| && p < |cf.job.shown| && (disk[p] == All(cf)[p] || disk[p] == cf.job.shown[p])
  }

  /** A writer has its data, and others have not touched its range, also after a failure elsewhere. */
  ghost predicate Writer(cf: Conf, disk: seq<Sector>, w: Worker) {
    && Buffered(cf, w)
    && (w.pc.Writing? && !w.copy && w.status.Data? ==>
          w.sector + w.n <= |All(cf)| && w.buf == All(cf)[w.sector..w.sector + w.n])
    && (w.pc.Writing? ==> forall p: nat :: w.sector <= p < w.sector + w.n ==> Clean(cf, disk, p))
  }

  /** Steps that touch neither the worker nor its range. */
  lemma WriterKept(cf: Conf, disk: seq<Sector>, after: seq<Sector>, w: Worker, v: Worker)
    requires Writer(cf, disk, w) && (v == w || (!v.pc.Writing? && Buffered(cf, v))) && |after| == |disk|
    requires w.pc.Writing? ==> forall p: nat :: w.sector <= p < w.sector + w.n && p < |disk| ==> after[p] == disk[p]
    ensures Writer(cf, after, v)
  {
    if v.pc.Writing? {
      forall p: nat | v.sector <= p < v.sector + v.n ensures Clean(cf, after, p) {
        assert Clean(cf, disk, p);
      }
    }
  }

  lemma BeginWriter(cf: Conf, s: State, k: nat)
    requires Inv(cf, s) && Enabled(cf, s, BeginWrite(k)) && Writer(cf, s.disk, s.workers[k])
    ensures Writer(cf, s.disk, Apply(cf, s, BeginWrite(k)).workers[k])
  {
    var w := s.workers[k];
    assert WorkerOk(cf, s, k);
    if s.ret.InProgress? {
      forall p: nat | w.sector <= p < w.sector + w.n ensures Clean(cf, s.disk, p) {
        assert SectorOk(cf, s, p);
      }
    }
  }

  /** Another worker's step leaves a worker alone, or at most gives it the turn. */
  lemma OthersStep(cf: Conf, s: State, a: Action, k: nat)
    requires Inv(cf, s) && Enabled(cf, s, a) && k < |s.workers| && k != a.i
    ensures var t, w := Apply(cf, s, a), s.workers[k];
      && |t.workers| == |s.workers|
      && (t.workers[k] == w || (w.pc.Parked? && t.workers[k] == w.(pc := Turn, wait := -1)))
  {
    if a.Release? {
      ReleasedShape(cf, s, a.i);
    }
  }

  lemma OthersDisk(cf: Conf, s: State, a: Action, k: nat, p: nat)
    requires Inv(cf, s) && Enabled(cf, s, a) && k < |s.workers| && k != a.i
    requires s.workers[k].pc.Writing? && Holds(s.workers[k], p) && p < |s.disk|
    ensures |Apply(cf, s, a).disk| == |s.disk| && Apply(cf, s, a).disk[p] == s.disk[p]
  {
    assert Disjoint(s, k, a.i);
  }

  lemma OwnBuffered(cf: Conf, s: State, a: Action)
    requires Inv(cf, s) && Enabled(cf, s, a) && Buffered(cf, s.workers[a.i])
    ensures var t := Apply(cf, s, a); |t.workers| == |s.workers| && Buffered(cf, t.workers[a.i])
    ensures Apply(cf, s, a).workers[a.i].pc.Writing? ==> a.BeginWrite?
  {
    if a.Release? {
      ReleasedShape(cf, s, a.i);
    }
  }

  lemma SameSize(cf: Conf, s: State, a: Action)
    requires Inv(cf, s) && Enabled(cf, s, a)
    ensures |Apply(cf, s, a).disk| == |s.disk|
  {
  }

  lemma WriterStep(cf: Conf, s: State, a: Action, k: nat)
    requires Inv(cf, s) && Enabled(cf, s, a) && k < |s.workers| && Writer(cf, s.disk, s.workers[k])
    ensures var t := Apply(cf, s, a); |t.workers| == |s.workers| && Writer(cf, t.disk, t.workers[k])
  {
    var t := Apply(cf, s, a);
    SameSize(cf, s, a);
    if k == a.i {
      OwnBuffered(cf, s, a);
      if a.BeginWrite? {
        BeginWriter(cf, s, k);
      }
    } else {
      OthersStep(cf, s, a, k);
      if s.workers[k].pc.Writing? {
        var w := s.workers[k];
        forall p: nat | w.sector <= p < w.sector + w.n && p < |s.disk| ensures t.disk[p] == s.disk[p] {
          OthersDisk(cf, s, a, k, p);
        }
      }
      WriterKept(cf, s.disk, t.disk, s.workers[k], t.workers[k]);
    }
  }

  lemma {:induction false} RunWriter(cf: Conf, states: seq<State>, actions: seq<Action>, m: nat, i: nat)
    requires Run(cf, states, actions) && Init(cf, states[0]) && m < |states| && i < |states[0].workers|
    ensures |states[m].workers| == |states[0].workers| && Writer(cf, states[m].disk, states[m].workers[i])
  {
    if m == 0 {
      assert NewWorker(states[0].workers[i]);
    } else {
      RunWriter(cf, states, actions, m - 1, i);
      RunInv(cf, states, actions, m - 1);
      assert StepAt(cf, states, actions, m - 1);
      WriterStep(cf, states[m - 1], actions[m - 1], i);
    }
  }

  /** The assertion of convert_co_read: what is read fits into the buffer. */
  lemma ReadsFit(cf: Conf, states: seq<State>, actions: seq<Action>, m: nat, i: nat)
    requires Run(cf, states, actions) && Init(cf, states[0]) && m < |states| && i < |states[0].workers|
    ensures |states[m].workers| == |states[0].workers|
    ensures states[m].workers[i].pc.Reading? ==>
      states[m].workers[i].status.Data? && states[m].workers[i].n <= cf.job.bufSectors
  {
    RunWriter(cf, states, actions, m, i);
    RunInv(cf, states, actions, m);
    assert WorkerOk(cf, states[m], i);
  }

  /** The options that convert_co_write sees. */
  ghost predicate OptionsOf(cf: Conf, o: Options) {
    && o.targetHasBacking == cf.job.targetHasBacking && o.hasZeroInit == cf.zeroInit
    && (o.minSparse > 0 <==> cf.sparse) && IsPow2(o.alignment)
  }

  /**
   What convert_co_write relies on holds at every moment at which it is under way, also after a failure
   elsewhere, and the step that ends a write leaves what convert_co_write leaves; `mem` is the memory of
   the buffer, which holds the data of the claim.
   */
  lemma WritesAreAllowed(
      cf: Conf, states: seq<State>, actions: seq<Action>, m: nat, i: nat, o: Options, mem: seq<Sector>)
    requires Run(cf, states, actions) && Init(cf, states[0]) && m < |states| && i < |states[m].workers|
    requires states[m].workers[i].pc.Writing? && !states[m].workers[i].copy
    requires OptionsOf(cf, o) && |mem| == cf.job.bufSectors
    requires states[m].workers[i].status.Data? ==> states[m].workers[i].buf <= mem
    ensures var w := states[m].workers[i];
      && WriteAllowed(o, states[m].disk, w.sector, w.n, mem, w.status)
      && |states[m].disk| == |All(cf)|
      && WrittenUpTo(states[m].disk, Written(cf, states[m].disk, w), mem, w.status, w.sector, w.n)
  {
    RunWorkers(cf, states, actions, m);
    RunWriter(cf, states, actions, m, i);
    RunInv(cf, states, actions, m);
    var s, w := states[m], states[m].workers[i];
    assert WorkerOk(cf, s, i);
    forall j: nat | cf.zeroInit && j < w.n ensures ZeroFits(s.disk, w.sector, mem, j, w.status) {
      assert Clean(cf, s.disk, w.sector + j);
      assert w.status.Data? ==> mem[j] == w.buf[j] == All(cf)[w.sector + j];
    }
  }

  lemma {:induction false} RunWorkers(cf: Conf, states: seq<State>, actions: seq<Action>, m: nat)
    requires Run(cf, states, actions) && m < |states|
    ensures |states[m].workers| == |states[0].workers|
  {
    if m > 0 {
      RunWorkers(cf, states, actions, m - 1);
      assert StepAt(cf, states, actions, m - 1);
      PositionStep(cf, states[m - 1], actions[m - 1]);
    }
  }
}
