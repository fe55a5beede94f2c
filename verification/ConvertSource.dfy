/**
 The source side of "qemu-img convert" (qemu-img.c): several images read as one, and the choice of the
 next range to copy with its block status.
 */
module ConvertSource {
  import opened SparseDetection
  import opened SparseWrite

  const REQUEST_MAX_SECTORS: nat := 0x7fffffff / 512

  // --- Concatenated sources ---

  function Concat(src: seq<seq<Sector>>): seq<Sector> {
    if src == [] then [] else src[0] + Concat(src[1..])
  }

  /** Where the i-th source begins. */
  function PartStart(src: seq<seq<Sector>>, i: nat): nat
    requires i <= |src|
  {
    if i == 0 then 0 else PartStart(src, i - 1) + |src[i - 1]|
  }

  lemma {:induction false} PartStartTail(src: seq<seq<Sector>>, i: nat)
    requires 0 < i <= |src|
    ensures PartStart(src, i) == |src[0]| + PartStart(src[1..], i - 1)
  {
    if i > 1 {
      PartStartTail(src, i - 1);
    }
  }

  /** A source appears unchanged at its place in the whole. */
  lemma {:induction false} PartInConcat(src: seq<seq<Sector>>, i: nat)
    requires i < |src|
    ensures PartStart(src, i) + |src[i]| <= |Concat(src)|
    ensures Concat(src)[PartStart(src, i)..PartStart(src, i) + |src[i]|] == src[i]
    decreases |src|
  {
    if i > 0 {
      PartInConcat(src[1..], i - 1);
      PartStartTail(src, i);
    }
  }

  lemma {:induction false} ConcatSize(src: seq<seq<Sector>>)
    ensures |Concat(src)| == PartStart(src, |src|)
  {
    if src != [] {
      ConcatSize(src[1..]);
      PartStartTail(src, |src|);
    }
  }

  /** convert_select_part */
  method SelectPart(src: seq<seq<Sector>>, sectorNum: nat) returns (cur: nat, offset: nat)
    requires sectorNum < |Concat(src)|
    ensures cur < |src| && offset == PartStart(src, cur) && offset <= sectorNum < offset + |src[cur]|
  {
    ConcatSize(src);
    cur, offset := 0, 0;
    assert src != [];
    while sectorNum - offset >= |src[cur]|
      invariant cur < |src| && offset == PartStart(src, cur) <= sectorNum
      decreases |src| - cur
    {
      offset := offset + |src[cur]|;
      cur := cur + 1;
    }
  }

  // --- convert_co_read and convert_co_copy_range ---

  lemma {:induction false} PartsAscend(src: seq<seq<Sector>>, i: nat, j: nat)
    requires i < j <= |src|
    ensures PartStart(src, i) + |src[i]| <= PartStart(src, j)
    decreases j
  {
    if i + 1 < j {
      PartsAscend(src, i, j - 1);
    }
  }

  /** A sector belongs to one source. */
  lemma OnePart(src: seq<seq<Sector>>, i: nat, j: nat, sector: nat)
    requires i < |src| && j < |src|
    requires PartStart(src, i) <= sector < PartStart(src, i) + |src[i]|
    requires PartStart(src, j) <= sector < PartStart(src, j) + |src[j]|
    ensures i == j
  {
    if i < j {
      PartsAscend(src, i, j);
    } else if j < i {
      PartsAscend(src, j, i);
    }
  }

  class Source {
    const src: seq<seq<Sector>>
    ghost var failed: seq<Request>   // the reads that failed, by their place in the whole

    constructor (src: seq<seq<Sector>>)
      ensures this.src == src && failed == []
    {
      this.src := src;
      failed := [];
    }

    /** blk_co_pread; a failed read leaves anything in its part of the buffer. */
    method Pread(cur: nat, at: nat, n: nat, buf: array<Sector>, to: nat) returns (ok: bool)
      requires cur < |src| && at + n <= |src[cur]| && to + n <= buf.Length
      modifies this, buf
      ensures forall j :: 0 <= j < buf.Length && !(to <= j < to + n) ==> buf[j] == old(buf[j])
      ensures ok ==> forall j :: to <= j < to + n ==> buf[j] == Whole(PartStart(src, cur) + at + (j - to))
      ensures failed == old(failed) + if ok then [] else [Request(PartStart(src, cur) + at, n)]
    {
      PartInConcat(src, cur);
      ok := *;
      ghost var start := PartStart(src, cur);
      for i := 0 to n
        invariant failed == old(failed)
        invariant forall j :: 0 <= j < buf.Length && !(to <= j < to + n) ==> buf[j] == old(buf[j])
        invariant ok ==> forall j :: to <= j < to + i ==> buf[j] == Whole(start + at + (j - to))
      {
        if ok {
          buf[to + i] := src[cur][at + i];
        } else {
          buf[to + i] := *;
        }
        assert src[cur][at + i] == Concat(src)[start..start + |src[cur]|][at + i];
      }
      if !ok {
        failed := failed + [Request(start + at, n)];
      }
    }

    /** The sectors of all sources in a row. */
    ghost function Whole(k: nat): Sector {
      if k < |Concat(src)| then Concat(src)[k] else 0
    }
  }

  /** What is read for a sector: its content, or zero if reading it alone failed and errors are passed over. */
  ghost predicate Got(source: Source, sector: nat, value: Sector, salvage: bool, lost: seq<Request>) {
    value == source.Whole(sector) || (salvage && value == 0 && Request(sector, 1) in lost)
  }

  ghost predicate GotUpTo(
      source: Source, sectorNum: nat, buf: seq<Sector>, done: nat, salvage: bool, lost: seq<Request>)
  {
    done <= |buf| && forall j: nat :: j < done ==> Got(source, sectorNum + j, buf[j], salvage, lost)
  }

  lemma GotMore(source: Source, sectorNum: nat, was: seq<Sector>, buf: seq<Sector>, done: nat, n: nat, salvage: bool,
                lost: seq<Request>, more: seq<Request>)
    requires GotUpTo(source, sectorNum, was, done, salvage, lost) && lost <= more && done + n <= |buf|
    requires |was| == |buf| && forall j :: 0 <= j < done ==> buf[j] == was[j]
    requires forall j: nat :: done <= j < done + n ==> Got(source, sectorNum + j, buf[j], salvage, more)
    ensures GotUpTo(source, sectorNum, buf, done + n, salvage, more)
  {
    forall j: nat | j < done + n ensures Got(source, sectorNum + j, buf[j], salvage, more) {
      if j < done {
        assert Got(source, sectorNum + j, was[j], salvage, lost);
      }
    }
  }

  /** How much the next read takes: the rest of the request or of the source, or one sector after a failure. */
  method ReadSize(source: Source, sector: nat, left: nat, singleUntil: nat) returns (cur: nat, at: nat, n: nat)
    requires sector < |Concat(source.src)| && left > 0
    ensures cur < |source.src| && at < |source.src[cur]| && PartStart(source.src, cur) + at == sector
    ensures 0 < n <= left && at + n <= |source.src[cur]|
    ensures singleUntil > at ==> n == 1
    ensures singleUntil <= at ==> n == left || at + n == |source.src[cur]|
  {
    var offset;
    cur, offset := SelectPart(source.src, sector);
    at := sector - offset;
    n := if left < |source.src[cur]| - at then left else |source.src[cur]| - at;
    if singleUntil > at {
      n := 1;
    }
  }

  /** The sector lies in a source, before the offset up to which sectors are read one by one. */
  ghost predicate OneByOne(source: Source, sector: nat, part: nat, singleUntil: nat) {
    && part < |source.src| && PartStart(source.src, part) <= sector < PartStart(source.src, part) + |source.src[part]|
    && sector - PartStart(source.src, part) < singleUntil
  }

  /**
   convert_co_read: reads across the borders of sources.  With the salvage option it always succeeds, and a sector
   is given up only if reading just this sector failed.
   */
  method ConvertRead(source: Source, salvage: bool, sectorNum: nat, nbSectors: nat, buf: array<Sector>)
    returns (ok: bool)
    requires nbSectors <= buf.Length && sectorNum + nbSectors <= |Concat(source.src)|
    modifies buf, source
    ensures old(source.failed) <= source.failed
    ensures salvage ==> ok
    ensures !salvage ==> (ok <==> source.failed == old(source.failed))
    ensures ok ==>
      GotUpTo(source, sectorNum, buf[..], nbSectors, salvage, source.failed[|old(source.failed)|..])
  {
    ghost var k := |source.failed|;
    var done, singleUntil := 0, 0;
    ghost var part, again := 0, false;
    while done < nbSectors
      invariant 0 <= done <= nbSectors && old(source.failed) <= source.failed
      invariant !salvage ==> source.failed == old(source.failed)
      invariant GotUpTo(source, sectorNum, buf[..], done, salvage, source.failed[k..])
      invariant again ==> OneByOne(source, sectorNum + done, part, singleUntil)
      decreases nbSectors - done, !again
    {
      var cur, at, n := ReadSize(source, sectorNum + done, nbSectors - done, singleUntil);
      if again {
        OnePart(source.src, cur, part, sectorNum + done);
      }
      ghost var was, lost := buf[..], source.failed;
      ok := source.Pread(cur, at, n, buf, done);
      if !ok && !salvage {
        return;
      }
      if !ok && n > 1 {
        singleUntil := at + n;
        part, again := cur, true;
        GotMore(source, sectorNum, was, buf[..], done, 0, salvage, lost[k..], source.failed[k..]);
      } else {
        if !ok {
          buf[done] := 0;
          assert source.failed[k..][|source.failed[k..]| - 1] == Request(sectorNum + done, 1);
        }
        GotMore(source, sectorNum, was, buf[..], done, n, salvage, lost[k..], source.failed[k..]);
        done, again := done + n, false;
      }
    }
    return true;
  }

  /** Within the range, each sector is as before or as in the source. */
  ghost predicate PartlyCopied(before: seq<Sector>, after: seq<Sector>, all: seq<Sector>, from: nat, to: nat) {
    && |after| == |before| && to <= |before| && to <= |all|
    && forall k :: 0 <= k < |before| ==> after[k] == before[k] || (from <= k < to && after[k] == all[k])
  }

  /** blk_co_copy_range: it fails or succeeds; what it copies in part is right. */
  method OffloadCopy(target: Target, all: seq<Sector>, from: nat, n: nat) returns (ok: bool)
    requires from + n <= |target.disk| && from + n <= |all|
    modifies target
    ensures PartlyCopied(old(target.disk), target.disk, all, from, from + n)
    ensures ok ==> forall k :: from <= k < from + n ==> target.disk[k] == all[k]
    ensures target.failures == old(target.failures) + if ok then 0 else 1
  {
    ok := *;
    var i := 0;
    while i < n
      invariant target.failures == old(target.failures)
      invariant 0 <= i <= n && PartlyCopied(old(target.disk), target.disk, all, from, from + n)
      invariant ok ==> forall k :: from <= k < from + i ==> target.disk[k] == all[k]
    {
      var hit := *;
      if ok || hit {
        target.disk := target.disk[from + i := all[from + i]];
      }
      i := i + 1;
    }
    if !ok {
      target.failures := target.failures + 1;
    }
  }

  /** convert_co_copy_range: it fails only if the copying of a part does. */
  method ConvertCopyRange(src: seq<seq<Sector>>, target: Target, sectorNum: nat, nbSectors: nat) returns (ok: bool)
    requires sectorNum + nbSectors <= |Concat(src)| && sectorNum + nbSectors <= |target.disk|
    modifies target
    ensures PartlyCopied(old(target.disk), target.disk, Concat(src), sectorNum, sectorNum + nbSectors)
    ensures ok ==> forall k :: sectorNum <= k < sectorNum + nbSectors ==> target.disk[k] == Concat(src)[k]
    ensures ok <==> target.failures == old(target.failures)
  {
    var done := 0;
    while done < nbSectors
      invariant 0 <= done <= nbSectors && target.failures == old(target.failures)
      invariant PartlyCopied(old(target.disk), target.disk, Concat(src), sectorNum, sectorNum + nbSectors)
      invariant forall k :: sectorNum <= k < sectorNum + done ==> target.disk[k] == Concat(src)[k]
    {
      var cur, offset := SelectPart(src, sectorNum + done);
      var at := sectorNum + done - offset;
      var n := if nbSectors - done < |src[cur]| - at then nbSectors - done else |src[cur]| - at;
      ok := OffloadCopy(target, Concat(src), sectorNum + done, n);
      if !ok {
        return;
      }
      done := done + n;
    }
    return true;
  }

  // --- convert_iteration_sectors ---

  /** What is known of a conversion before it starts; `shown` is what the target shows while it holds no data. */
  datatype Job = Job(
    src: seq<seq<Sector>>,
    shown: seq<Sector>,
    targetHasBacking: bool,
    targetBackingSectors: int,
    compressed: bool,
    clusterSectors: nat,
    bufSectors: nat)

  ghost predicate ValidJob(c: Job) {
    && |c.shown| == |Concat(c.src)| && c.bufSectors > 0
    && (c.compressed ==> c.clusterSectors > 0 && c.bufSectors == c.clusterSectors)
    && (c.targetBackingSectors >= 0 ==> c.targetHasBacking)
    && (c.targetBackingSectors >= 0 ==> forall k :: c.targetBackingSectors <= k < |c.shown| ==> c.shown[k] == 0)
  }

  /** The status tells the truth about n sectors: zeros, or what the target shows through its backing file. */
  ghost predicate StatusSound(c: Job, sector: nat, n: nat, status: Status) {
    && sector + n <= |Concat(c.src)| && |c.shown| == |Concat(c.src)|
    && match status
       case Data => true
       case Zero => forall k :: sector <= k < sector + n ==> Concat(c.src)[k] == 0
       case BackingFile => c.targetHasBacking && forall k :: sector <= k < sector + n ==> Concat(c.src)[k] == c.shown[k]
  }

  lemma SoundPrefix(c: Job, sector: nat, n: nat, m: nat, status: Status)
    requires StatusSound(c, sector, n, status) && m <= n
    ensures StatusSound(c, sector, m, status)
  {
  }

  lemma SoundSuffix(c: Job, sector: nat, n: nat, m: nat, status: Status)
    requires StatusSound(c, sector, n, status) && m <= n
    ensures StatusSound(c, sector + m, n - m, status)
  {
  }

  datatype BlockStatus = BlockZero | BlockData | BlockUnallocated

  /** bdrv_block_status_above: holds for at least one sector and not beyond the end of the source. */
  ghost predicate BlockStatusRight(c: Job, sector: nat, limit: nat, r: BlockStatus, count: nat) {
    && 0 < count <= limit && sector + count <= |Concat(c.src)| && |c.shown| == |Concat(c.src)|
    && (r.BlockZero? ==> forall k :: sector <= k < sector + count ==> Concat(c.src)[k] == 0)
    && (r.BlockUnallocated? && c.targetHasBacking ==> forall k :: sector <= k < sector + count ==>
      Concat(c.src)[k] == c.shown[k])
  }

  /** What a status query gave. */
  datatype Reply = NoReply | Reply(r: BlockStatus, count: nat)

  /** What an answer means for the copy: what lies behind the end of a short backing file is zero there, too. */
  function Meaning(c: Job, sector: nat, r: BlockStatus): Status {
    match r
    case BlockZero => if 0 <= c.targetBackingSectors <= sector then BackingFile else Zero
    case BlockData => Data
    case BlockUnallocated => if c.targetHasBacking then BackingFile else Data
  }

  /**
   A status that was just asked for is what the last answer means.  It ends with the answer or at the last aligned
   offset of the source before.  Without an answer, one sector is taken for data.
   */
  ghost predicate Fresh(c: Job, sector: nat, alignment: nat, a: Reply, status: Status, next: nat)
    requires alignment > 0
  {
    match a
    case NoReply => status.Data? && next == sector + 1
    case Reply(r, count) =>
      && status == Meaning(c, sector, r) && sector < next <= sector + count < next + alignment
      && (next == sector + count || exists i: nat :: i < |c.src| && AlignedIn(c.src, i, sector, next, alignment))
  }

  /** Aligned, seen from the beginning of the source that holds the sector. */
  ghost predicate AlignedIn(src: seq<seq<Sector>>, i: nat, sector: nat, next: nat, alignment: nat)
    requires i < |src| && alignment > 0
  {
    PartStart(src, i) <= sector < PartStart(src, i) + |src[i]| && (next - PartStart(src, i)) % alignment == 0
  }

  /** What limits a request: its largest size, the status, the end of the target's backing file and the buffer. */
  predicate Fits(c: Job, sector: nat, status: Status, next: nat, n: nat) {
    && n <= REQUEST_MAX_SECTORS && sector + n <= next
    && (sector < c.targetBackingSectors ==> sector + n <= c.targetBackingSectors)
    && (status.Data? ==> n <= c.bufSectors)
  }

  lemma CutTail(before: nat, n: nat, a: nat)
    requires a > 0 && n >= (before + n) % a
    ensures (before + (n - (before + n) % a)) % a == 0
  {
    AlignDown(before + n, a);
  }

  class Iteration {
    const c: Job
    var status: Status
    var sectorNextStatus: nat
    ghost var answers: seq<Reply>   // of the status queries so far

    constructor (c: Job)
      ensures this.c == c && sectorNextStatus == 0 && answers == []
    {
      this.c := c;
      status := Data;
      sectorNextStatus := 0;
      answers := [];
    }

    /** The cached status is good up to sectorNextStatus. */
    ghost predicate Valid(sector: nat)
      reads this
    {
      && ValidJob(c)
      && (sectorNextStatus > sector ==>
        sectorNextStatus <= |Concat(c.src)| && StatusSound(c, sector, sectorNextStatus - sector, status))
    }

    /** An answer of bdrv_block_status_above; it may be any true one. */
    method QueryStatus(sector: nat, limit: nat) returns (ok: bool, r: BlockStatus, count: nat)
      requires ValidJob(c) && 0 < limit && sector + limit <= |Concat(c.src)|
      modifies this`answers
      ensures ok ==> BlockStatusRight(c, sector, limit, r, count)
      ensures answers == old(answers) + [if ok then Reply(r, count) else NoReply]
    {
      ok := *;
      count := 1;
      var zero := Concat(c.src)[sector] == 0;
      var same := Concat(c.src)[sector] == c.shown[sector];
      while count < limit
        invariant 0 < count <= limit
        invariant zero ==> forall k :: sector <= k < sector + count ==> Concat(c.src)[k] == 0
        invariant same ==> forall k :: sector <= k < sector + count ==> Concat(c.src)[k] == c.shown[k]
      {
        var stop := *;
        if stop || (zero && Concat(c.src)[sector + count] != 0)
            || (same && Concat(c.src)[sector + count] != c.shown[sector + count]) {
          break;
        }
        count := count + 1;
      }
      var honest := *;
      if zero && honest {
        r := BlockZero;
      } else {
        var hole := *;
        r := if hole && (same || !c.targetHasBacking) then BlockUnallocated else BlockData;
      }
      answers := answers + [if ok then Reply(r, count) else NoReply];
    }

    /** The loop around the query: with the salvage option, shorter ranges are tried, and one sector at last. */
    method AskStatus(sector: nat, limit: nat, salvage: bool) returns (ok: bool, r: BlockStatus, n: nat)
      requires ValidJob(c) && 0 < limit && sector + limit <= |Concat(c.src)|
      modifies this`answers
      ensures ok ==> BlockStatusRight(c, sector, limit, r, n)
      ensures Asked(old(answers), salvage, ok)
      ensures ok ==> var last := answers[|answers| - 1];
        last == Reply(r, n) || (last.NoReply? && r.BlockData? && n == 1)
    {
      var size := limit;
      while true
        invariant 0 < size <= limit && old(answers) <= answers && (!salvage ==> answers == old(answers))
        decreases size
      {
        ok, r, n := QueryStatus(sector, size);
        if ok || !salvage {
          return;
        }
        if size == 1 {
          return true, BlockData, 1;
        }
        size := (size + 3) / 4;
      }
    }

    /** A status was asked for; this can only fail if there was no answer and errors are not passed over. */
    ghost predicate Asked(before: seq<Reply>, salvage: bool, ok: bool)
      reads this
    {
      && before < answers && (salvage ==> ok)
      && (!salvage ==> answers[..|answers| - 1] == before && (ok <==> answers[|answers| - 1].Reply?))
    }

    /** The part of convert_iteration_sectors that asks for a new status; `part` is the source at hand. */
    method Refresh(sector: nat, limit: nat, part: nat, partStart: nat, alignment: nat, postBackingZero: bool,
                   salvage: bool)
      returns (ok: bool, n: nat)
      requires ValidJob(c) && 0 < limit && sector + limit <= |Concat(c.src)| && alignment > 0
      requires part < |c.src| && partStart == PartStart(c.src, part) <= sector < partStart + |c.src[part]|
      requires postBackingZero <==> 0 <= c.targetBackingSectors <= sector
      modifies this
      ensures ok ==> 0 < n <= limit && sectorNextStatus == sector + n && StatusSound(c, sector, n, status)
      ensures !ok ==> status == old(status) && sectorNextStatus == old(sectorNextStatus)
      ensures Asked(old(answers), salvage, ok)
      ensures ok ==> Fresh(c, sector, alignment, answers[|answers| - 1], status, sectorNextStatus)
    {
      var r;
      ok, r, n := AskStatus(sector, limit, salvage);
      if !ok {
        return;
      }
      var tail := (sector - partStart + n) % alignment;
      if n > tail {
        n := n - tail;
        CutTail(sector - partStart, n + tail, alignment);
        assert AlignedIn(c.src, part, sector, sector + n, alignment);
      }
      if r.BlockZero? {
        status := if postBackingZero then BackingFile else Zero;
      } else if r.BlockData? {
        status := Data;
      } else {
        status := if c.targetHasBacking then BackingFile else Data;
      }
      sectorNextStatus := sector + n;
    }

    /** For compressed targets: a whole cluster of data, or whole clusters of the status at hand. */
    method WholeClusters(sector: nat, n: nat) returns (m: nat)
      requires ValidJob(c) && c.compressed && 0 < n && sector + n <= |Concat(c.src)|
      requires StatusSound(c, sector, n, status)
      requires status.Data? ==> n <= c.bufSectors
      modifies this`status
      ensures 0 < m && StatusSound(c, sector, m, status) && (status.Data? ==> m <= c.bufSectors)
      ensures status.Data? || (status == old(status) && m <= n)
      ensures InClusters(sector, old(status), n, m)
    {
      m := n;
      if m < c.clusterSectors {
        var left := |Concat(c.src)| - sector;
        m := if c.clusterSectors < left then c.clusterSectors else left;
        status := Data;
      } else {
        CutTail(0, m, c.clusterSectors);
        m := m - m % c.clusterSectors;
        SoundPrefix(c, sector, n, m, status);
      }
    }

    /**
     From n sectors of one status to whole clusters: as many as there are, or one that is all data.  Only at the
     end of the source a cluster may be cut off.
     */
    ghost predicate InClusters(sector: nat, known: Status, n: nat, m: nat)
      requires ValidJob(c) && c.compressed
      reads this
    {
      && (m % c.clusterSectors == 0 || (m < c.clusterSectors && sector + m == |Concat(c.src)|))
      && (n >= c.clusterSectors ==> status == known && n - c.clusterSectors < m <= n)
      && (n < c.clusterSectors ==> status.Data? && m <= c.clusterSectors)
    }

    /** What is left of a cached status after its first n sectors. */
    lemma StillValid(sector: nat, n: nat, st: Status)
      requires ValidJob(c) && sector < sectorNextStatus <= |Concat(c.src)|
      requires StatusSound(c, sector, sectorNextStatus - sector, st)
      requires status.Data? || (status == st && sector + n <= sectorNextStatus)
      ensures Valid(sector + n)
    {
      if sectorNextStatus > sector + n && !status.Data? {
        SoundSuffix(c, sector, sectorNextStatus - sector, n, st);
        assert sectorNextStatus - sector - n == sectorNextStatus - (sector + n);
      }
    }

    /** A cached status is used as it is; a used-up one is replaced by what the driver answers. */
    twostate predicate Renewed(sector: nat, alignment: nat, salvage: bool, ok: bool, known: Status)
      requires alignment > 0
      reads this
    {
      if old(sectorNextStatus) > sector then
        ok && known == old(status) && sectorNextStatus == old(sectorNextStatus) && answers == old(answers)
      else
        && Asked(old(answers), salvage, ok)
        && (ok ==> Fresh(c, sector, alignment, answers[|answers| - 1], known, sectorNextStatus))
    }

    /** As many sectors as fit, and no more. */
    ghost predicate TakesAll(sector: nat, known: Status, n: nat)
      reads this
    {
      Fits(c, sector, known, sectorNextStatus, n) && !Fits(c, sector, known, sectorNextStatus, n + 1)
    }

    /** The status at the sector, asked for if need be, and how many sectors can be taken at once. */
    method CurrentStatus(sector: nat, alignment: nat, salvage: bool) returns (ok: bool, n: nat)
      requires sector < |Concat(c.src)| && Valid(sector) && alignment > 0
      modifies this
      ensures Renewed(sector, alignment, salvage, ok, status)
      ensures ok ==> sector < sectorNextStatus && Valid(sector) && 0 < n && TakesAll(sector, status, n)
    {
      var total := |Concat(c.src)|;
      var cur, offset := SelectPart(c.src, sector);
      n := if total - sector < REQUEST_MAX_SECTORS then total - sector else REQUEST_MAX_SECTORS;
      var postBackingZero := false;
      if c.targetBackingSectors >= 0 {
        if sector >= c.targetBackingSectors {
          postBackingZero := true;
        } else if sector + n > c.targetBackingSectors {
          n := c.targetBackingSectors - sector;
        }
      }
      ok := true;
      if sectorNextStatus <= sector {
        ok, n := Refresh(sector, n, cur, offset, alignment, postBackingZero, salvage);
        if !ok {
          return;
        }
      }
      if sectorNextStatus - sector < n {
        n := sectorNextStatus - sector;
      }
      if status.Data? && n > c.bufSectors {
        n := c.bufSectors;
      }
    }

    /**
     convert_iteration_sectors; `alignment` is the request alignment of the source.  At least one
     sector, never more than there are, and a true status.  The cached status stays good however far the
     caller goes on.  The driver is asked when the cached status is used up, and the new status is what it answers.
     As many sectors are taken as fit.
     */
    method IterationSectors(sector: nat, alignment: nat, salvage: bool)
      returns (ok: bool, n: nat, ghost known: Status, ghost fit: nat)
      requires sector < |Concat(c.src)| && Valid(sector) && alignment > 0
      modifies this
      ensures ok ==> 0 < n && StatusSound(c, sector, n, status)
      ensures ok ==> forall next: nat :: sector < next <= sector + n ==> Valid(next)
      ensures ok && status.Data? ==> n <= c.bufSectors
      ensures Renewed(sector, alignment, salvage, ok, known)
      ensures ok ==> TakesAll(sector, known, fit)
      ensures ok ==> ValidJob(c)
      ensures ok ==> if c.compressed then InClusters(sector, known, fit, n) else status == known && n == fit
    {
      ok, n := CurrentStatus(sector, alignment, salvage);
      known, fit := status, n;
      if !ok {
        return;
      }
      SoundPrefix(c, sector, sectorNextStatus - sector, n, status);
      if c.compressed {
        n := WholeClusters(sector, n);
      }
      forall next: nat | sector < next <= sector + n ensures Valid(next) {
        StillValid(sector, next - sector, known);
      }
    }
  }
}
