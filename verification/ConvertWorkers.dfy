/**
 The copying coroutines of "qemu-img convert" (convert_co_do_copy in qemu-img.c).

 Any number of workers claim ranges, read, wait for their turn and write.  What runs between two yield
 points is one step; the reads and writes themselves are steps with an outcome.
 */
module ConvertWorkers {
  import opened SparseDetection
  import opened SparseWrite
  import opened ConvertSource

  datatype Ret = InProgress | Failed | Done

  /** Where a worker stands. */
  datatype Pc = Unborn | Top | Decide | Reading | Order | Parked | Turn | Writing | Finish | Gone

  datatype Worker = Worker(
    pc: Pc,
    sector: nat,
    n: nat,
    status: Status,
    copy: bool,          // use copy offloading
    buf: seq<Sector>,
    wait: int)           // wait_sector_num

  datatype Conf = Conf(job: Job, sparse: bool, inOrder: bool, zeroInit: bool)

  datatype State = State(
    sectorNum: nat,
    status: Status,
    ret: Ret,
    wrOffs: nat,
    copyRange: bool,
    disk: seq<Sector>,
    workers: seq<Worker>)

  ghost function All(cf: Conf): seq<Sector> {
    Concat(cf.job.src)
  }

  ghost predicate ValidConf(cf: Conf) {
    && ValidJob(cf.job)
    && (cf.zeroInit ==> !cf.job.targetHasBacking && forall k :: 0 <= k < |cf.job.shown| ==> cf.job.shown[k] == 0)
  }

  /** The worker holds a claim. */
  predicate Active(w: Worker) {
    w.pc.Decide? || w.pc.Reading? || w.pc.Order? || w.pc.Parked? || w.pc.Turn? || w.pc.Writing? || w.pc.Finish?
  }

  predicate Holds(w: Worker, p: nat) {
    Active(w) && w.sector <= p < w.sector + w.n
  }

  datatype Action =
    | Enter(i: nat)
    | Leave(i: nat)
    | Claim(i: nat, n: nat, status: Status)
    | ClaimFails(i: nat)
    | Choose(i: nat)
    | ReadEnds(i: nat, ok: bool)
    | Wait(i: nat)
    | BeginWrite(i: nat)
    | WriteEnds(i: nat)
    | WriteFails(i: nat, disk: seq<Sector>)
    | CopyFails(i: nat, disk: seq<Sector>)
    | Release(i: nat)

  /** Nothing outside the worker's range changes. */
  ghost predicate OnlyWithin(before: seq<Sector>, after: seq<Sector>, w: Worker) {
    && |after| == |before|
    && forall k :: 0 <= k < |before| && !(w.sector <= k < w.sector + w.n) ==> after[k] == before[k]
  }

  ghost predicate Enabled(cf: Conf, s: State, a: Action) {
    && a.i < |s.workers|
    && var w := s.workers[a.i];
       match a
       case Enter(_) => w.pc.Unborn?
       case Leave(_) => w.pc.Top? && (!s.ret.InProgress? || s.sectorNum >= |All(cf)|)
       case Claim(_, n, status) =>
         && w.pc.Top? && s.ret.InProgress? && s.sectorNum < |All(cf)|
         && 0 < n && StatusSound(cf.job, s.sectorNum, n, status) && (status.Data? ==> n <= cf.job.bufSectors)
       case ClaimFails(_) => w.pc.Top? && s.ret.InProgress? && s.sectorNum < |All(cf)|
       case Choose(_) => w.pc.Decide?
       case ReadEnds(_, _) => w.pc.Reading?
       case Wait(_) => w.pc.Order?
       case BeginWrite(_) => w.pc.Turn?
       case WriteEnds(_) => w.pc.Writing?
       case WriteFails(_, disk) => w.pc.Writing? && !w.copy && OnlyWithin(s.disk, disk, w)
       case CopyFails(_, disk) => w.pc.Writing? && w.copy
         && PartlyCopied(s.disk, disk, All(cf), w.sector, w.sector + w.n)
       case Release(_) => w.pc.Finish?
  }

  function Put(s: State, i: nat, w: Worker): State
    requires i < |s.workers|
  {
    s.(workers := s.workers[i := w])
  }

  predicate Running(w: Worker) {
    !w.pc.Unborn? && !w.pc.Gone?
  }

  /** The end of convert_co_do_copy: the last worker to leave reports success. */
  function Left(s: State, i: nat): State
    requires i < |s.workers|
  {
    var t := Put(s, i, s.workers[i].(pc := Gone));
    if (forall k :: 0 <= k < |t.workers| ==> !Running(t.workers[k])) && s.ret.InProgress? then t.(ret := Done) else t
  }

  function Min(a: nat, b: nat): nat {
    if a < b then a else b
  }

  /** The part of the loop body from the lock to the unlock. */
  function Claimed(cf: Conf, s: State, i: nat, n: nat, status: Status): State
    requires i < |s.workers|
  {
    var m := if !cf.sparse && status.Zero? then Min(n, cf.job.bufSectors) else n;
    Put(s, i, s.workers[i].(pc := Decide, sector := s.sectorNum, n := m, status := status)).(
      sectorNum := s.sectorNum + m, status := status)
  }

  /** The choice at the label `retry`; it looks at the shared status, which others may have changed. */
  function Chosen(cf: Conf, s: State, w: Worker): Worker {
    var copy := s.copyRange && s.status.Data?;
    if w.status.Data? && !copy then w.(pc := Reading, copy := copy)
    else if !cf.sparse && w.status.Zero? then w.(pc := Order, copy := copy, status := Data, buf := seq(w.n, i => 0))
    else w.(pc := Order, copy := copy)
  }

  /** The test of the waiting loop. */
  function Waited(cf: Conf, s: State, w: Worker): Worker {
    if cf.inOrder && s.wrOffs != w.sector && s.ret.InProgress? then w.(pc := Parked, wait := w.sector)
    else w.(pc := Turn, wait := -1)
  }

  /** What a finished write leaves on the target. */
  ghost function Written(cf: Conf, disk: seq<Sector>, w: Worker): seq<Sector>
    requires |disk| == |All(cf)|
  {
    seq(|disk|, (k: int) requires 0 <= k < |disk| && |disk| == |All(cf)| =>
      if !(w.sector <= k < w.sector + w.n) then disk[k]
      else if w.copy then All(cf)[k]
      else Wanted(w.status, if 0 <= k - w.sector < |w.buf| then w.buf[k - w.sector] else 0, disk[k]))
  }

  /** The first worker that waits for this offset. */
  function Waiter(ws: seq<Worker>, at: int, i: nat): (r: nat)
    ensures i <= |ws| ==> i <= r <= |ws|
    ensures r < |ws| ==> ws[r].wait == at && !ws[r].pc.Gone? && !ws[r].pc.Unborn?
    ensures i <= |ws| ==> forall k :: i <= k < r ==> !(ws[k].wait == at && Running(ws[k]))
    decreases |ws| - i
  {
    if i >= |ws| || (ws[i].wait == at && Running(ws[i])) then i else Waiter(ws, at, i + 1)
  }

  /** Passing the turn on: the worker that waits for the end of this range is entered and leaves its loop. */
  function Released(cf: Conf, s: State, i: nat): State
    requires i < |s.workers|
  {
    var w := s.workers[i];
    var t := Put(s, i, w.(pc := Top));
    if !cf.inOrder then t
    else
      var end := w.sector + w.n;
      var k := Waiter(t.workers, end, 0);
      if k < |t.workers| then Put(t, k, t.workers[k].(pc := Turn, wait := -1)).(wrOffs := end) else t.(wrOffs := end)
  }

  ghost function Apply(cf: Conf, s: State, a: Action): State
    requires Enabled(cf, s, a) && |s.disk| == |All(cf)|
  {
    var w := s.workers[a.i];
    match a
    case Enter(i) => Put(s, i, w.(pc := Top))
    case Leave(i) => Left(s, i)
    case Claim(i, n, status) => Claimed(cf, s, i, n, status)
    case ClaimFails(i) => Left(s.(ret := Failed), i)
    case Choose(i) => Put(s, i, Chosen(cf, s, w))
    case ReadEnds(i, ok) =>
      if ok then Put(s, i,
          w.(pc := Order, buf := if w.sector + w.n <= |All(cf)| then All(cf)[w.sector..w.sector + w.n] else []))
      else Put(s, i, w.(pc := Order)).(ret := Failed)
    case Wait(i) => Put(s, i, Waited(cf, s, w))
    case BeginWrite(i) =>
      if s.ret.InProgress? then Put(s, i, w.(pc := Writing))
      else Put(s, i, w.(pc := Finish))
    case WriteEnds(i) => Put(s, i, w.(pc := Finish)).(disk := Written(cf, s.disk, w))
    case WriteFails(i, disk) => Put(s, i, w.(pc := Finish)).(disk := disk, ret := Failed)
    case CopyFails(i, disk) => Put(s, i, w.(pc := Decide)).(disk := disk, copyRange := false)
    case Release(i) => Released(cf, s, i)
  }

  predicate NewWorker(w: Worker) {
    w.pc.Unborn? && w.wait == -1
  }

  ghost predicate Init(cf: Conf, s: State) {
    && ValidConf(cf) && s.sectorNum == 0 && s.ret.InProgress? && s.wrOffs == 0
    && s.disk == cf.job.shown
    && forall i :: 0 <= i < |s.workers| ==> NewWorker(s.workers[i])
  }

  ghost predicate Next(cf: Conf, s: State, a: Action, t: State) {
    Enabled(cf, s, a) && |s.disk| == |All(cf)| && t == Apply(cf, s, a)
  }

  /** The i-th action leads from one state to the next. */
  ghost predicate StepAt(cf: Conf, states: seq<State>, actions: seq<Action>, i: nat)
    requires i < |actions| && i + 1 < |states|
  {
    Next(cf, states[i], actions[i], states[i + 1])
  }

  ghost predicate Run(cf: Conf, states: seq<State>, actions: seq<Action>) {
    && |states| == |actions| + 1
    && forall i: nat {:trigger StepAt(cf, states, actions, i)} :: i < |actions| ==> StepAt(cf, states, actions, i)
  }
}
