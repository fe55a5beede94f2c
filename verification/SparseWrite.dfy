/**
 Writing to the target in "qemu-img convert" (qemu-img.c).
 */
module SparseWrite {
  import opened SparseDetection

  // --- convert_co_write ---

  datatype Status = Data | Zero | BackingFile

  /** The options of a conversion that decide how data is written. */
  datatype Options = Options(
    minSparse: nat,
    alignment: nat,
    compressed: bool,
    hasZeroInit: bool,
    targetHasBacking: bool)

  /** A write request: from where, and how many sectors. */
  datatype Request = Request(from: nat, n: nat)

  class Target {
    var disk: seq<Sector>
    ghost var requests: seq<Request>   // the write requests so far
    ghost var failures: nat            // how many of them failed

    /** blk_co_pwrite and blk_co_pwrite_zeroes; a failed write leaves anything in its range. */
    method Write(sector: nat, data: seq<Sector>) returns (ok: bool)
      requires sector + |data| <= |disk|
      modifies this
      ensures |disk| == |old(disk)|
      ensures forall k :: 0 <= k < |disk| && !(sector <= k < sector + |data|) ==> disk[k] == old(disk)[k]
      ensures ok ==> disk[sector..sector + |data|] == data
      ensures requests == old(requests) + [Request(sector, |data|)]
      ensures failures == old(failures) + if ok then 0 else 1
    {
      ok := *;
      if ok {
        disk := disk[..sector] + data + disk[sector + |data|..];
      } else {
        for i := 0 to |data|
          invariant |disk| == |old(disk)| && requests == old(requests) && failures == old(failures)
          invariant forall k :: 0 <= k < |disk| && !(sector <= k < sector + |data|) ==> disk[k] == old(disk)[k]
        {
          var garbage: Sector := *;
          disk := disk[sector + i := garbage];
        }
        failures := failures + 1;
      }
      requests := requests + [Request(sector, |data|)];
    }
  }

  /** buffer_is_zero over a range of sectors. */
  method BufferIsZero(buf: array<Sector>, from: nat, to: nat) returns (zero: bool)
    requires from <= to <= buf.Length
    ensures zero <==> AllZero(buf[..], from, to)
  {
    var i := from;
    while i < to
      invariant from <= i <= to && forall k :: from <= k < i ==> buf[k] == 0
    {
      if buf[i] != 0 {
        assert buf[..][i] != 0;
        return false;
      }
      i := i + 1;
    }
    return true;
  }

  /** Sparse detection is on, and sectors can be left out one by one. */
  predicate Sparse(o: Options) {
    o.minSparse > 0 && !o.compressed
  }

  /** A stretch of zeros that begins before `next` ends there. */
  ghost predicate EndsBy(buf: seq<Sector>, at: nat, end: nat, sector: nat, a: nat, next: nat)
    requires end <= |buf| && a > 0
  {
    forall x: nat, y: nat {:trigger ZeroStretch(buf, at, end, sector, a, x, y)} ::
      ZeroStretch(buf, at, end, sector, a, x, y) && x < next ==> y <= next
  }

  /**
   How n sectors are told to be data or a hole.  With sparse detection, data holds the beginning of no long
   enough stretch of zeros, and a stretch that begins in a hole ends in it.
   */
  ghost predicate Decided(o: Options, buf: seq<Sector>, at: nat, end: nat, sector: nat, data: bool, n: nat) {
    && o.alignment > 0 && 0 < n && at + n <= end <= |buf| && (!data ==> AllZero(buf, at, at + n))
    && (o.minSparse == 0 ==> data && n == end - at)
    && (o.minSparse > 0 && o.compressed ==> n == end - at && (data <==> !AllZero(buf, at, end)))
    && (Sparse(o) && data ==> NoneBefore(buf, at, end, sector, o.alignment, o.minSparse, at + n))
    && (Sparse(o) && !data ==> EndsBy(buf, at, end, sector, o.alignment, at + n))
  }

  /** Whether the next sectors have to be written as data, and how many share the answer. */
  method MustWrite(o: Options, buf: array<Sector>, at: nat, end: nat, sector: nat) returns (data: bool, n: nat)
    requires at < end <= buf.Length && IsPow2(o.alignment)
    ensures Decided(o, buf[..], at, end, sector, data, n)
  {
    MaskPow2(sector, o.alignment);
    n := end - at;
    if o.minSparse == 0 {
      return true, n;
    }
    if !o.compressed {
      ghost var run;
      data, n, run := IsAllocatedSectorsMin(buf, at, end, o.minSparse, sector, o.alignment);
      if !data {
        HoleHolds(buf[..], at, end, sector, o.alignment, n, run);
      }
    } else {
      var zero := BufferIsZero(buf, at, end);
      data := !zero;
    }
  }

  lemma HoleHolds(buf: seq<Sector>, at: nat, end: nat, sector: nat, a: nat, n: nat, run: nat)
    requires end <= |buf| && a > 0 && PieceIs(buf, at, end, sector, a, false, n, run)
    ensures EndsBy(buf, at, end, sector, a, at + n)
  {
    forall x: nat, y: nat | ZeroStretch(buf, at, end, sector, a, x, y) && x < at + n ensures y <= at + n {
      ZeroHoldsStretch(buf, at, end, sector, a, n, run, x, y);
    }
  }

  /** What the target must show for a sector: the data, zero, or what its backing file shows. */
  function Wanted(status: Status, buf: Sector, before: Sector): Sector {
    match status
    case Data => buf
    case Zero => 0
    case BackingFile => before
  }

  /** What the buffer holds for a sector; only data is in the buffer. */
  function Held(status: Status, buf: seq<Sector>, i: nat): Sector {
    if status.Data? && i < |buf| then buf[i] else 0
  }

  /** A sector that has to read as zero does. */
  ghost predicate ZeroFits(disk: seq<Sector>, sectorNum: nat, buf: seq<Sector>, i: nat, status: Status)
    requires sectorNum + i < |disk|
  {
    !status.BackingFile? && Held(status, buf, i) == 0 ==> disk[sectorNum + i] == 0
  }

  /** The target reads as zero wherever zero is wanted, as has_zero_init promises of untouched sectors. */
  ghost predicate ReadsZeroWhereNeeded(
      disk: seq<Sector>, sectorNum: nat, buf: seq<Sector>, done: nat, n: nat, status: Status)
    requires sectorNum + done + n <= |disk|
  {
    forall i: nat {:trigger ZeroFits(disk, sectorNum, buf, i, status)} ::
      done <= i < done + n ==> ZeroFits(disk, sectorNum, buf, i, status)
  }

  /** What convert_co_write relies on. */
  ghost predicate WriteAllowed(
      o: Options, disk: seq<Sector>, sectorNum: nat, nbSectors: nat, buf: seq<Sector>, status: Status)
  {
    && IsPow2(o.alignment) && sectorNum + nbSectors <= |disk| && (status.Data? ==> nbSectors <= |buf|)
    && (status.BackingFile? ==> o.targetHasBacking)
    && (o.hasZeroInit ==> !o.targetHasBacking && ReadsZeroWhereNeeded(disk, sectorNum, buf, 0, nbSectors, status))
  }

  /** The first `done` sectors of the range read as wanted, and nothing else has changed. */
  ghost predicate WrittenUpTo(
      before: seq<Sector>, disk: seq<Sector>, buf: seq<Sector>, status: Status, sectorNum: nat, done: nat)
  {
    && |disk| == |before| && sectorNum + done <= |disk|
    && (forall k :: 0 <= k < |before| && !(sectorNum <= k < sectorNum + done) ==> disk[k] == before[k])
    && (forall i :: 0 <= i < done ==>
          disk[sectorNum + i] == Wanted(status, Held(status, buf, i), before[sectorNum + i]))
  }

  /** No request touches the sectors from `from` to `to`. */
  ghost predicate Untouched(requests: seq<Request>, from: nat, to: nat) {
    forall i :: 0 <= i < |requests| ==> requests[i].from + requests[i].n <= from || to <= requests[i].from
  }

  /** Stretches of zeros that are long enough and begin before `done` end there and are not written. */
  ghost predicate LeftOut(o: Options, requests: seq<Request>, buf: seq<Sector>, sectorNum: nat, end: nat, done: nat)
    requires end <= |buf| && o.alignment > 0
  {
    forall x: nat, y: nat {:trigger ZeroStretch(buf, 0, end, sectorNum, o.alignment, x, y)} ::
      ZeroStretch(buf, 0, end, sectorNum, o.alignment, x, y) && y - x >= o.minSparse && x < done ==>
        y <= done && Untouched(requests, sectorNum + x, sectorNum + y)
  }

  /** What has been written of the first `done` sectors: nothing that the target shows anyway. */
  ghost predicate OnlyNeeded(
      o: Options, requests: seq<Request>, buf: seq<Sector>, sectorNum: nat, end: nat, done: nat, status: Status)
  {
    && (status.BackingFile? || (status.Zero? && o.hasZeroInit) ==> requests == [])
    && (forall i :: 0 <= i < |requests| ==>
          sectorNum <= requests[i].from && requests[i].from + requests[i].n <= sectorNum + done)
    && (status.Data? && Sparse(o) && o.hasZeroInit ==>
          end <= |buf| && o.alignment > 0 && LeftOut(o, requests, buf, sectorNum, end, done))
    && (status.Data? && o.minSparse > 0 && o.compressed && o.hasZeroInit && end <= |buf| && AllZero(buf, 0, end) ==>
          requests == [])
  }

  /** One more piece, written or left out. */
  lemma LeftOutMore(o: Options, before: seq<Request>, after: seq<Request>, buf: seq<Sector>, sectorNum: nat, end: nat,
                    done: nat, data: bool, n: nat)
    requires end <= |buf| && o.alignment > 0 && done + n <= end && 0 < n
    requires LeftOut(o, before, buf, sectorNum, end, done)
    requires forall i :: 0 <= i < |before| ==> before[i].from + before[i].n <= sectorNum + done
    requires after == if data then before + [Request(sectorNum + done, n)] else before
    requires data ==> NoneBefore(buf, done, end, sectorNum + done, o.alignment, o.minSparse, done + n)
    requires !data ==> EndsBy(buf, done, end, sectorNum + done, o.alignment, done + n)
    ensures LeftOut(o, after, buf, sectorNum, end, done + n)
  {
    forall x: nat, y: nat |
      ZeroStretch(buf, 0, end, sectorNum, o.alignment, x, y) && y - x >= o.minSparse && x < done + n
      ensures y <= done + n && Untouched(after, sectorNum + x, sectorNum + y)
    {
      if x >= done {
        StretchFrom(buf, 0, end, sectorNum, o.alignment, done, x, y);
      }
    }
  }

  lemma NeededMore(o: Options, before: seq<Request>, after: seq<Request>, buf: seq<Sector>, sectorNum: nat, end: nat,
                   done: nat, status: Status, data: bool, n: nat)
    requires OnlyNeeded(o, before, buf, sectorNum, end, done, status) && done + n <= end && 0 < n
    requires (data ==> status.Data?) && o.alignment > 0
    requires after == if status.BackingFile? || (!data && o.hasZeroInit) then before
                      else before + [Request(sectorNum + done, n)]
    requires status.Data? ==> Decided(o, buf, done, end, sectorNum + done, data, n)
    ensures OnlyNeeded(o, after, buf, sectorNum, end, done + n, status)
  {
    if status.Data? && Sparse(o) && o.hasZeroInit {
      LeftOutMore(o, before, after, buf, sectorNum, end, done, data, n);
    }
  }

  /** What the switch in the loop does with one piece. */
  ghost predicate PieceDone(before: seq<Sector>, after: seq<Sector>, wasAsked: seq<Request>, asked: seq<Request>,
                            sector: nat, data: seq<Sector>, skip: bool)
  {
    && asked == (if skip then wasAsked else wasAsked + [Request(sector, |data|)])
    && if skip then after == before else KeepsBut(before, after, sector, data)
  }

  /** The switch in the loop: nothing for what the backing file shows, data, or zeros unless they are there. */
  method WritePiece(o: Options, target: Target, sector: nat, piece: seq<Sector>, status: Status, data: bool)
    returns (ok: bool)
    requires sector + |piece| <= |target.disk|
    requires (status.BackingFile? ==> o.targetHasBacking) && (o.hasZeroInit ==> !o.targetHasBacking)
    modifies target
    ensures |target.disk| == |old(target.disk)|
    ensures forall k :: 0 <= k < |target.disk| && !(sector <= k < sector + |piece|) ==>
      target.disk[k] == old(target.disk)[k]
    ensures old(target.requests) <= target.requests
    ensures target.failures == old(target.failures) + if ok then 0 else 1
    ensures ok ==> PieceDone(
      old(target.disk), target.disk, old(target.requests), target.requests, sector,
      if data then piece else seq(|piece|, i => 0), status.BackingFile? || (!data && o.hasZeroInit))
  {
    if status.BackingFile? {
      assert o.targetHasBacking;
      return true;
    }
    if data {
      ok := target.Write(sector, piece);
    } else if o.hasZeroInit {
      assert !o.targetHasBacking;
      return true;
    } else {
      ok := target.Write(sector, seq(|piece|, i => 0));
    }
  }

  /** The body of the loop. */
  method ConvertPiece(o: Options, target: Target, sectorNum: nat, nbSectors: nat, buf: array<Sector>, status: Status,
                      done: nat, ghost before: seq<Sector>, ghost k: nat)
    returns (ok: bool, n: nat)
    requires WriteAllowed(o, before, sectorNum, nbSectors, buf[..], status) && done < nbSectors
    requires WrittenUpTo(before, target.disk, buf[..], status, sectorNum, done)
    requires k <= |target.requests| && OnlyNeeded(
      o, target.requests[k..], buf[..], sectorNum, nbSectors, done, status)
    modifies target
    ensures |target.disk| == |before| && forall k :: 0 <= k < |before| && !(sectorNum <= k < sectorNum + nbSectors) ==>
      target.disk[k] == before[k]
    ensures old(target.requests) <= target.requests
    ensures target.failures == old(target.failures) + if ok then 0 else 1
    ensures ok ==> 0 < n <= nbSectors - done
    ensures ok ==> WrittenUpTo(before, target.disk, buf[..], status, sectorNum, done + n)
    ensures ok ==> OnlyNeeded(o, target.requests[k..], buf[..], sectorNum, nbSectors, done + n, status)
  {
    var data := false;
    n := nbSectors - done;
    if status.Data? {
      data, n := MustWrite(o, buf, done, nbSectors, sectorNum + done);
    }
    ghost var cur, was := target.disk, target.requests;
    var piece := if data then buf[done..done + n] else seq(n, i => 0);
    ok := WritePiece(o, target, sectorNum + done, piece, status, data);
    if ok {
      MaskPow2(0, o.alignment);
      WrittenPart(before, cur, target.disk, buf[..], status, sectorNum, done, n, data, o.hasZeroInit);
      NeededMore(o, was[k..], target.requests[k..], buf[..], sectorNum, nbSectors, done, status, data, n);
    }
  }

  /**
   convert_co_write: afterwards the target range reads as wanted, for every mix of options.  It fails only if a
   write fails.  Where the target shows zeros anyway, stretches of zeros between aligned offsets that are long
   enough are not written.
   */
  method ConvertWrite(
      o: Options, target: Target, sectorNum: nat, nbSectors: nat, buf: array<Sector>, status: Status)
    returns (ok: bool)
    requires WriteAllowed(o, target.disk, sectorNum, nbSectors, buf[..], status)
    modifies target
    ensures |target.disk| == |old(target.disk)|
    ensures forall k :: 0 <= k < |target.disk| && !(sectorNum <= k < sectorNum + nbSectors) ==>
      target.disk[k] == old(target.disk)[k]
    ensures ok ==> WrittenUpTo(old(target.disk), target.disk, buf[..], status, sectorNum, nbSectors)
    ensures old(target.requests) <= target.requests && (ok <==> target.failures == old(target.failures))
    ensures ok ==>
      OnlyNeeded(o, target.requests[|old(target.requests)|..], buf[..], sectorNum, nbSectors, nbSectors, status)
  {
    ghost var before, k := target.disk, |target.requests|;
    MaskPow2(0, o.alignment);
    var done := 0;
    while done < nbSectors
      invariant 0 <= done <= nbSectors && WrittenUpTo(before, target.disk, buf[..], status, sectorNum, done)
      invariant target.failures == old(target.failures) && old(target.requests) <= target.requests
      invariant OnlyNeeded(o, target.requests[k..], buf[..], sectorNum, nbSectors, done, status)
    {
      var n;
      ok, n := ConvertPiece(o, target, sectorNum, nbSectors, buf, status, done, before, k);
      if !ok {
        return;
      }
      done := done + n;
    }
    return true;
  }

  /** One piece of the loop. */
  lemma WrittenPart(before: seq<Sector>, cur: seq<Sector>, disk: seq<Sector>, buf: seq<Sector>, status: Status,
                    sectorNum: nat, done: nat, n: nat, data: bool, zeroInit: bool)
    requires |disk| == |cur| && sectorNum + done + n <= |disk| && (status.Data? ==> done + n <= |buf|)
    requires WrittenUpTo(before, cur, buf, status, sectorNum, done)
    requires status.Data? && !data ==> AllZero(buf, done, done + n)
    requires !status.Data? ==> !data
    requires zeroInit ==> ReadsZeroWhereNeeded(before, sectorNum, buf, done, n, status)
    requires
      if status.BackingFile? then disk == cur
      else if data then KeepsBut(cur, disk, sectorNum + done, buf[done..done + n])
      else if zeroInit then disk == cur
      else KeepsBut(cur, disk, sectorNum + done, seq(n, i => 0))
    ensures WrittenUpTo(before, disk, buf, status, sectorNum, done + n)
  {
    forall i: nat | i < done + n
      ensures disk[sectorNum + i] == Wanted(status, Held(status, buf, i), before[sectorNum + i])
    {
      assert zeroInit && done <= i ==> ZeroFits(before, sectorNum, buf, i, status);
      if i < done {
        assert disk[sectorNum + i] == cur[sectorNum + i];
      } else if !status.BackingFile? && (data || !zeroInit) {
        assert disk[sectorNum + i] == disk[sectorNum + done..sectorNum + done + n][i - done];
      }
    }
  }

  ghost predicate KeepsBut(before: seq<Sector>, after: seq<Sector>, sector: nat, data: seq<Sector>) {
    && |after| == |before| && sector + |data| <= |before|
    && (forall k :: 0 <= k < |before| && !(sector <= k < sector + |data|) ==> after[k] == before[k])
    && after[sector..sector + |data|] == data
  }
}
