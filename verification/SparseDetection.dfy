/**
 Sparse detection in "qemu-img convert" (qemu-img.c).

 The content of a sector is one value here, 0 when all its bytes are zero.
 */
module SparseDetection {

  type Sector = nat

  // --- Alignment by masks ---

  function Pow2(k: nat): (r: nat)
    ensures r > 0
  {
    if k == 0 then 1 else 2 * Pow2(k - 1)
  }

  /** The bitwise and of two numbers. */
  function And(a: nat, b: nat): nat {
    if a == 0 || b == 0 then 0 else 2 * And(a / 2, b / 2) + if a % 2 == 1 && b % 2 == 1 then 1 else 0
  }

  /** Masking with a power of two less one is the remainder. */
  lemma {:induction false} MaskIsRemainder(x: nat, k: nat)
    ensures And(x, Pow2(k) - 1) == x % Pow2(k)
    decreases k
  {
    if k == 0 {
      assert x % 1 == 0;
    } else if x == 0 {
      UniqueRemainder(0, Pow2(k), 0, 0);
    } else {
      var p := Pow2(k - 1);
      MaskIsRemainder(x / 2, k - 1);
      HalfRemainder(x, p);
      MaskStep(x, p);
    }
  }

  lemma MaskStep(x: nat, p: nat)
    requires x > 0 && p > 0
    ensures And(x, 2 * p - 1) == 2 * And(x / 2, p - 1) + x % 2
  {
    OddHalf(p);
  }

  lemma OddHalf(p: nat)
    requires p > 0
    ensures (2 * p - 1) / 2 == p - 1 && (2 * p - 1) % 2 == 1
  {
  }

  lemma HalfRemainder(x: nat, p: nat)
    requires p > 0
    ensures x % (2 * p) == 2 * ((x / 2) % p) + x % 2
  {
    var h := x / 2;
    var q, r := h / p, h % p;
    assert h == p * q + r;
    assert x == 2 * h + x % 2;
    assert x == (2 * p) * q + (2 * r + x % 2) by {
      assert 2 * (p * q) == (2 * p) * q;
    }
    UniqueRemainder(x, 2 * p, q, 2 * r + x % 2);
  }

  lemma UniqueRemainder(x: nat, d: nat, q: nat, r: nat)
    requires d > 0 && x == d * q + r && r < d
    ensures x % d == r
  {
    if q < x / d {
      MulStep(d, q, x / d);
    } else if q > x / d {
      MulStep(d, x / d, q);
    }
  }

  lemma {:induction false} MulStep(d: nat, p: nat, q: nat)
    requires p < q
    ensures d * q >= d * p + d
    decreases q
  {
    assert d * q == d * (q - 1) + d;
    if p < q - 1 {
      MulStep(d, p, q - 1);
    }
  }

  ghost predicate IsPow2(a: nat) {
    exists k :: a == Pow2(k)
  }

  lemma MaskPow2(x: nat, a: nat)
    requires IsPow2(a)
    ensures a > 0 && And(x, a - 1) == x % a
  {
    var k :| a == Pow2(k);
    MaskIsRemainder(x, k);
  }

  // --- is_allocated_sectors ---

  ghost predicate AllZero(buf: seq<Sector>, from: nat, to: nat)
    requires to <= |buf|
  {
    forall i :: from <= i < to ==> buf[i] == 0
  }

  /** How far the run of sectors alike in being zero reaches from `at`, within the first `end`. */
  ghost predicate IsRun(buf: seq<Sector>, at: nat, end: nat, i: nat)
    requires end <= |buf|
  {
    && at < at + i <= end
    && (forall k :: at <= k < at + i ==> (buf[k] == 0 <==> buf[at] == 0))
    && (at + i < end ==> (buf[at + i] == 0 <==> buf[at] != 0))
  }

  /**
   What a result means: a zero run is really zero and ends aligned; an allocated one ends aligned or with the
   buffer.
   */
  ghost predicate Detected(buf: seq<Sector>, at: nat, end: nat, sector: nat, alignment: nat, used: bool, n: nat)
    requires end <= |buf| && alignment > 0
  {
    && 0 < n && at + n <= end
    && (!used ==> AllZero(buf, at, at + n) && (sector + n) % alignment == 0)
    && (used && at + n < end ==> (sector + n) % alignment == 0)
  }

  lemma AlignUp(x: nat, a: nat)
    requires a > 0
    ensures (x + (a - x % a)) % a == 0
  {
    var q, r := x / a, x % a;
    assert x == a * q + r;
    assert x + (a - r) == a * (q + 1) + 0 by {
      assert a * (q + 1) == a * q + a;
    }
    UniqueRemainder(x + (a - r), a, q + 1, 0);
  }

  lemma AlignDown(x: nat, a: nat)
    requires a > 0
    ensures x % a <= x && (x - x % a) % a == 0
  {
    var q, r := x / a, x % a;
    assert x == a * q + r;
    assert a * q >= 0;
    UniqueRemainder(x - r, a, q, 0);
  }

  /** Where a run of i sectors ends once it is cut or extended to an aligned offset. */
  lemma EndsAligned(sector: nat, i: nat, a: nat)
    requires a > 0
    ensures var tail := (sector + i) % a;
      && 0 <= tail < a
      && (sector + (i + a - tail)) % a == 0
      && (tail <= i ==> (sector + (i - tail)) % a == 0)
  {
    var tail := (sector + i) % a;
    AlignUp(sector + i, a);
    AlignDown(sector + i, a);
    assert sector + (i + a - tail) == (sector + i) + (a - tail);
    assert tail <= i ==> sector + (i - tail) == (sector + i) - tail;
  }

  /** The run from `at` counts as allocated: it is used, or it does not reach over an aligned offset. */
  ghost predicate CountsAsUsed(buf: seq<Sector>, at: nat, sector: nat, alignment: nat, run: nat)
    requires at < |buf| && alignment > 0
  {
    buf[at] != 0 || run <= (sector + run) % alignment
  }

  /** The result that a run gives: cut back to an aligned offset if zero, extended to one if allocated. */
  ghost predicate PieceIs(
      buf: seq<Sector>, at: nat, end: nat, sector: nat, alignment: nat, used: bool, n: nat, run: nat)
    requires end <= |buf| && alignment > 0
  {
    && IsRun(buf, at, end, run) && at < end && (used <==> CountsAsUsed(buf, at, sector, alignment, run))
    && var tail := (sector + run) % alignment;
       n == if tail == 0 then run
            else if !used then run - tail
            else if run + alignment - tail > end - at then end - at
            else run + alignment - tail
  }

  /**
   is_allocated_sectors on the sectors of the buffer from `at` to `end`.  Zero sectors count as
   allocated exactly when their run does not reach over an aligned offset.
   */
  method IsAllocatedSectors(buf: array<Sector>, at: nat, end: nat, sector: nat, alignment: nat)
    returns (used: bool, n: nat, ghost run: nat)
    requires at <= end <= buf.Length && IsPow2(alignment)
    ensures alignment > 0
    ensures at == end ==> !used && n == 0
    ensures at < end ==> Detected(buf[..], at, end, sector, alignment, used, n)
    ensures at < end ==> PieceIs(buf[..], at, end, sector, alignment, used, n, run)
  {
    MaskPow2(sector, alignment);
    if at == end {
      return false, 0, 0;
    }
    var zero := buf[at] == 0;
    var i := 1;
    while at + i < end
      invariant at < at + i <= end && forall k :: at <= k < at + i ==> (buf[k] == 0 <==> zero)
    {
      if zero != (buf[at + i] == 0) {
        break;
      }
      i := i + 1;
    }
    run := i;
    MaskPow2(sector + i, alignment);
    EndsAligned(sector, i, alignment);
    var tail := And(sector + i, alignment - 1);
    if tail != 0 {
      if zero && i <= tail {
        zero := false;
      }
      if !zero {
        i := i + alignment - tail;
        if i > end - at {
          i := end - at;
        }
      } else {
        i := i - tail;
      }
    }
    return !zero, i, run;
  }

  /** From here on there are `min` zero sectors, or nothing but zero sectors. */
  ghost predicate ZerosFollow(buf: seq<Sector>, from: nat, end: nat, min: nat)
    requires from <= end <= |buf|
  {
    AllZero(buf, from, end) || (from + min <= end && AllZero(buf, from, from + min))
  }

  // --- Stretches of zeros between aligned offsets ---

  lemma NextAligned(b: nat, y: nat, a: nat)
    requires a > 0 && b % a == 0 && y % a == 0 && b < y
    ensures y >= b + a
  {
    var p, q := b / a, y / a;
    assert b == a * p && y == a * q;
    if q <= p {
      if q < p {
        MulStep(a, q, p);
      }
    } else {
      MulStep(a, p, q);
    }
  }

  /** Zero sectors from one aligned offset to another; `sector` is the offset of the sector at `at`. */
  ghost predicate ZeroStretch(buf: seq<Sector>, at: nat, end: nat, sector: nat, alignment: nat, x: nat, y: nat)
    requires end <= |buf| && alignment > 0
  {
    && at <= x < y <= end && AllZero(buf, x, y)
    && (sector + (x - at)) % alignment == 0 && (sector + (y - at)) % alignment == 0
  }

  /** The last aligned offset not after x. */
  function Floor(x: nat, a: nat): nat
    requires a > 0
  {
    x - x % a
  }

  lemma FloorIsAligned(x: nat, a: nat)
    requires a > 0
    ensures Floor(x, a) <= x < Floor(x, a) + a && Floor(x, a) % a == 0
  {
    AlignDown(x, a);
  }

  /** Between the floor of x and the next aligned offset there is no other. */
  lemma NoneBetween(x: nat, a: nat, y: nat)
    requires a > 0 && y % a == 0 && Floor(x, a) < y
    ensures y >= Floor(x, a) + a
  {
    FloorIsAligned(x, a);
    NextAligned(Floor(x, a), y, a);
  }

  /** How a piece ends: before or at the aligned offset after its run. */
  lemma PieceEnd(buf: seq<Sector>, at: nat, end: nat, sector: nat, a: nat, used: bool, n: nat, run: nat)
    requires end <= |buf| && a > 0 && PieceIs(buf, at, end, sector, a, used, n, run)
    ensures used ==> n == run || sector + n <= Floor(sector + run, a) + a
    ensures used && n > run ==> Floor(sector + run, a) < sector + run
    ensures !used ==> sector + n == Floor(sector + run, a) && n <= run
  {
  }

  /** The run ends in the buffer: there, the sector is of the other kind. */
  lemma RunStops(buf: seq<Sector>, at: nat, end: nat, run: nat, x: nat, y: nat)
    requires end <= |buf| && IsRun(buf, at, end, run) && buf[at] == 0 && at <= x <= at + run < y <= end
    ensures !AllZero(buf, x, y)
  {
    assert buf[at + run] != 0;
  }

  /** No stretch begins within a piece that is reported as allocated. */
  lemma UsedHasNoStretch(
      buf: seq<Sector>, at: nat, end: nat, sector: nat, a: nat, n: nat, run: nat, x: nat, y: nat)
    requires end <= |buf| && a > 0 && PieceIs(buf, at, end, sector, a, true, n, run) && at <= x < at + n
    ensures !ZeroStretch(buf, at, end, sector, a, x, y)
  {
    if ZeroStretch(buf, at, end, sector, a, x, y) {
      PieceEnd(buf, at, end, sector, a, true, n, run);
      FloorIsAligned(sector + run, a);
      if buf[at] != 0 {
        assert buf[x] == 0;
        NoneBetween(sector + run, a, sector + (x - at));
      } else {
        ShortRun(buf, at, end, sector, a, n, run, x, y);
      }
    }
  }

  /** The same for zeros that do not reach over an aligned offset. */
  lemma ShortRun(buf: seq<Sector>, at: nat, end: nat, sector: nat, a: nat, n: nat, run: nat, x: nat, y: nat)
    requires end <= |buf| && a > 0 && PieceIs(buf, at, end, sector, a, true, n, run) && buf[at] == 0
    requires at <= x < at + n
    ensures !ZeroStretch(buf, at, end, sector, a, x, y)
  {
    if ZeroStretch(buf, at, end, sector, a, x, y) {
      PieceEnd(buf, at, end, sector, a, true, n, run);
      FloorIsAligned(sector + run, a);
      NoneBetween(sector + run, a, sector + (y - at));
      assert x <= at + run || Floor(sector + run, a) < sector + (x - at);
      if x > at + run {
        NoneBetween(sector + run, a, sector + (x - at));
      } else {
        RunStops(buf, at, end, run, x, y);
      }
    }
  }

  /** A stretch that begins within a piece that is reported as zero ends within it. */
  lemma ZeroHoldsStretch(
      buf: seq<Sector>, at: nat, end: nat, sector: nat, a: nat, n: nat, run: nat, x: nat, y: nat)
    requires end <= |buf| && a > 0 && PieceIs(buf, at, end, sector, a, false, n, run) && at <= x < at + n
    requires ZeroStretch(buf, at, end, sector, a, x, y)
    ensures y <= at + n
  {
    if y > at + n {
      PieceEnd(buf, at, end, sector, a, false, n, run);
      FloorIsAligned(sector + run, a);
      NoneBetween(sector + run, a, sector + (y - at));
      RunStops(buf, at, end, run, x, y);
    }
  }

  /** No stretch of at least `least` sectors begins before `here`. */
  ghost predicate NoneBefore(buf: seq<Sector>, at: nat, end: nat, sector: nat, a: nat, least: nat, here: nat)
    requires end <= |buf| && a > 0
  {
    forall x: nat, y: nat {:trigger ZeroStretch(buf, at, end, sector, a, x, y)} ::
      ZeroStretch(buf, at, end, sector, a, x, y) && x < here ==> y - x < least
  }

  /** Seen from a later piece a stretch is the same stretch. */
  lemma StretchFrom(buf: seq<Sector>, at: nat, end: nat, sector: nat, a: nat, here: nat, x: nat, y: nat)
    requires end <= |buf| && a > 0 && at <= here <= x
    ensures ZeroStretch(buf, at, end, sector, a, x, y) <==> ZeroStretch(buf, here, end, sector + (here - at), a, x, y)
  {
    assert sector + (here - at) + (x - here) == sector + (x - at);
    assert here <= y ==> sector + (here - at) + (y - here) == sector + (y - at);
  }

  /** One more piece that is used, or zero and too short. */
  lemma NoneInPiece(buf: seq<Sector>, at: nat, end: nat, sector: nat, a: nat, least: nat,
                    here: nat, used: bool, n: nat, run: nat)
    requires end <= |buf| && a > 0 && at <= here < end && NoneBefore(buf, at, end, sector, a, least, here)
    requires PieceIs(buf, here, end, sector + (here - at), a, used, n, run) && (used || n < least)
    ensures NoneBefore(buf, at, end, sector, a, least, here + n)
  {
    forall x: nat, y: nat | ZeroStretch(buf, at, end, sector, a, x, y) && x < here + n ensures y - x < least {
      if x >= here {
        StretchFrom(buf, at, end, sector, a, here, x, y);
        if used {
          UsedHasNoStretch(buf, here, end, sector + (here - at), a, n, run, x, y);
        } else {
          ZeroHoldsStretch(buf, here, end, sector + (here - at), a, n, run, x, y);
        }
      }
    }
  }

  /**
   is_allocated_sectors_min.  The answer is that for the first run.  An allocated part ends only before `min`
   zero sectors, or where nothing but zeros follows: a shorter run of zeros between used sectors counts as
   allocated.  And it does end there: no stretch of zeros between aligned offsets, of `min` sectors or of the
   whole length, begins inside it.
   */
  method IsAllocatedSectorsMin(buf: array<Sector>, at: nat, end: nat, min: nat, sector: nat, alignment: nat)
    returns (used: bool, n: nat, ghost run: nat)
    requires at < end <= buf.Length && IsPow2(alignment)
    ensures alignment > 0 && 0 < n && at + n <= end && IsRun(buf[..], at, end, run)
    ensures used <==> CountsAsUsed(buf[..], at, sector, alignment, run)
    ensures !used ==> AllZero(buf[..], at, at + n) && PieceIs(buf[..], at, end, sector, alignment, false, n, run)
    ensures used ==> ZerosFollow(buf[..], at + n, end, min)
    ensures used && at + n < end ==> buf[at + n] == 0 && (sector + n) % alignment == 0
    ensures used ==>
      NoneBefore(buf[..], at, end, sector, alignment, if end - at < min then end - at else min, at + n)
  {
    var least := if end - at < min then end - at else min;
    used, n, run := IsAllocatedSectors(buf, at, end, sector, alignment);
    if !used {
      return;
    }
    NoneInPiece(buf[..], at, end, sector, alignment, least, at, true, n, run);
    var numUsed, here, cur := n, at + n, sector + n;
    while here < end
      invariant at < at + numUsed <= here <= end && cur == sector + (here - at)
      invariant AllZero(buf[..], at + numUsed, here) && (numUsed == here - at || buf[..][at + numUsed] == 0)
      invariant here < end ==> (sector + (here - at)) % alignment == 0
      invariant at + numUsed < end ==> (sector + numUsed) % alignment == 0
      invariant NoneBefore(buf[..], at, end, sector, alignment, least, here)
      decreases end - here
    {
      var again, k, r := IsAllocatedSectors(buf, here, end, cur, alignment);
      assert !again ==> buf[..][here] == 0 && AllZero(buf[..], at + numUsed, here + k);
      if !again && k >= least {
        break;
      }
      NoneInPiece(buf[..], at, end, sector, alignment, least, here, again, k, r);
      here, cur := here + k, cur + k;
      if again {
        numUsed := here - at;
      }
    }
    return true, numUsed, run;
  }
}
