/**
 The copy loop of "qemu-img rebase" in safe mode (qemu-img.c): content is preserved at every moment.

 An image is a layer over a chain of backing layers, each of its own size.  Reads and writes may fail;
 a write that fails may have happened in part, and any write may copy up neighbouring bytes from the
 old backing chain, as images with large clusters do.
 */
module Rebase {

  type Byte = x: int | 0 <= x < 256

  /** What one image file holds; None is an unallocated byte. */
  datatype Cell = Hole | Data(value: Byte)

  type Layer = seq<Cell>

  const SECTOR_SIZE: nat := 512
  const IO_BUF_SIZE: nat := 2 * 1024 * 1024

  // --- Reading through a chain, top first ---

  function Read(chain: seq<Layer>, p: nat): Byte {
    if chain == [] || p >= |chain[0]| then 0
    else if chain[0][p].Data? then chain[0][p].value
    else Read(chain[1..], p)
  }

  function BackingSize(chain: seq<Layer>): nat {
    if chain == [] then 0 else |chain[0]|
  }

  /** A layer above the k-th one decides the byte: it holds it, or it ends before it. */
  predicate DecidedAbove(chain: seq<Layer>, k: nat, p: nat)
    requires k <= |chain|
  {
    exists i :: 0 <= i < k && (p >= |chain[i]| || chain[i][p].Data?)
  }

  /** The prefix-chain shortcut: where no layer above decides, both chains read the same. */
  lemma {:induction false} UndecidedReadsBase(chain: seq<Layer>, k: nat, p: nat)
    requires k <= |chain| && !DecidedAbove(chain, k, p)
    ensures Read(chain, p) == Read(chain[k..], p)
    decreases k
  {
    if k > 0 {
      assert !(p >= |chain[0]| || chain[0][p].Data?);
      forall i | 0 <= i < k - 1 ensures !(p >= |chain[1..][i]| || chain[1..][i][p].Data?) {
        assert chain[1..][i] == chain[i + 1];
      }
      UndecidedReadsBase(chain[1..], k - 1, p);
      assert chain[1..][k - 1..] == chain[k..];
    } else {
      assert chain[0..] == chain;
    }
  }

  /** The first layer that holds the byte or ends before it decides; without one it is zero. */
  lemma FirstLayerDecides(chain: seq<Layer>, k: nat, p: nat)
    requires k <= |chain| && !DecidedAbove(chain, k, p) && (k < |chain| ==> DecidedAbove(chain, k + 1, p))
    ensures Read(chain, p) == if k < |chain| && p < |chain[k]| then chain[k][p].value else 0
  {
    UndecidedReadsBase(chain, k, p);
    if k < |chain| {
      assert chain[k..][0] == chain[k];
      assert p < |chain[k]| ==> chain[k][p].Data?;
    }
  }

  /** The visible content of the image. */
  function View(cow: Layer, backing: seq<Layer>, p: nat): Byte
    requires p < |cow|
  {
    if cow[p].Data? then cow[p].value else Read(backing, p)
  }

  /** Bytes were only ever copied up from the chain. */
  ghost predicate CopiedUp(before: Layer, after: Layer, chain: seq<Layer>) {
    && |after| == |before|
    && forall p :: 0 <= p < |before| ==>
         after[p] == before[p] || (before[p].Hole? && after[p] == Data(Read(chain, p)))
  }

  lemma CopiedUpSame(before: Layer, after: Layer, chain: seq<Layer>, p: nat)
    requires CopiedUp(before, after, chain) && p < |before|
    ensures View(after, chain, p) == View(before, chain, p)
  {
  }

  lemma CopiedUpTrans(a: Layer, b: Layer, c: Layer, chain: seq<Layer>)
    requires CopiedUp(a, b, chain) && CopiedUp(b, c, chain)
    ensures CopiedUp(a, c, chain)
  {
    forall p | 0 <= p < |a| ensures c[p] == a[p] || (a[p].Hole? && c[p] == Data(Read(chain, p))) {
      assert b[p] == a[p] || (a[p].Hole? && b[p] == Data(Read(chain, p)));
    }
  }

  // --- compare_buffers ---

  /** Where the j-th sector of the buffers begins, when their content ends at n. */
  function SectorAt(start: nat, j: nat, n: nat): nat {
    if start + SECTOR_SIZE * j < n then start + SECTOR_SIZE * j else n
  }

  ghost predicate SameBytes(a: seq<Byte>, b: seq<Byte>, from: nat, to: nat)
    requires to <= |a| && to <= |b|
  {
    forall k :: from <= k < to ==> a[k] == b[k]
  }

  ghost predicate SameSector(a: seq<Byte>, b: seq<Byte>, start: nat, n: nat, j: nat)
    requires n <= |a| && n <= |b|
  {
    SameBytes(a, b, SectorAt(start, j, n), SectorAt(start, j + 1, n))
  }

  /** memcmp */
  method Differs(a: array<Byte>, b: array<Byte>, from: nat, to: nat) returns (differ: bool)
    requires from <= to <= a.Length && to <= b.Length
    ensures differ <==> !SameBytes(a[..], b[..], from, to)
  {
    var k := from;
    while k < to
      invariant from <= k <= to && forall i :: from <= i < k ==> a[i] == b[i]
    {
      if a[k] != b[k] {
        assert a[..][k] != b[..][k];
        return true;
      }
      k := k + 1;
    }
    return false;
  }

  /**
   compare_buffers at `start`, where n is the end of the buffers' content: the first `count` sectors
   are all alike in being the same or not in both buffers, and the next one is not.
   */
  method CompareBuffers(a: array<Byte>, b: array<Byte>, start: nat, n: nat)
    returns (differ: bool, end: nat, ghost count: nat)
    requires start < n <= a.Length && n <= b.Length
    ensures count > 0 && start < end <= n && end == SectorAt(start, count, n)
    ensures forall j :: 0 <= j < count ==> (SameSector(a[..], b[..], start, n, j) <==> !differ)
    ensures end < n ==> (SameSector(a[..], b[..], start, n, count) <==> differ)
  {
    count := 1;
    end := SectorAt(start, 1, n);
    differ := Differs(a, b, start, end);
    while end < n
      invariant count > 0 && start < end <= n && end == SectorAt(start, count, n)
      invariant forall j :: 0 <= j < count ==> (SameSector(a[..], b[..], start, n, j) <==> !differ)
    {
      var next := if n - end < SECTOR_SIZE then n else end + SECTOR_SIZE;
      assert next == SectorAt(start, count + 1, n);
      var d := Differs(a, b, end, next);
      if d != differ {
        break;
      }
      end, count := next, count + 1;
    }
  }

  /** Where the sectors do not differ, no byte does. */
  lemma {:induction false} SameSectorsSameBytes(a: seq<Byte>, b: seq<Byte>, start: nat, n: nat, count: nat)
    requires n <= |a| && n <= |b| && start <= n && forall j :: 0 <= j < count ==> SameSector(a, b, start, n, j)
    ensures SameBytes(a, b, start, SectorAt(start, count, n))
  {
    if count > 0 {
      SameSectorsSameBytes(a, b, start, n, count - 1);
      assert SameSector(a, b, start, n, count - 1);
    }
  }

  // --- The copy loop ---

  /** A write from one offset to another, of data or of zeros. */
  datatype Request = Request(from: nat, to: nat, zeroes: bool)

  /**
   In each sector of the request some byte differs between the chains, and the image itself held none of it.  Zeros
   are written as such behind the end of the old backing file.
   */
  ghost predicate Needed(before: Layer, chain: seq<Layer>, newChain: seq<Layer>, r: Request) {
    && r.from < r.to <= |before| && (forall p :: r.from <= p < r.to ==> before[p].Hole?)
    && (r.zeroes <==> r.from >= BackingSize(chain))
    && forall j: nat {:trigger SectorAt(r.from, j, r.to)} :: SectorAt(r.from, j, r.to) < r.to ==>
         DifferentWithin(chain, newChain, SectorAt(r.from, j, r.to), SectorAt(r.from, j + 1, r.to))
  }

  ghost predicate DifferentWithin(chain: seq<Layer>, newChain: seq<Layer>, from: nat, to: nat) {
    exists p :: from <= p < to && Read(chain, p) != Read(newChain, p)
  }

  /** From the k-th request on, only what was needed was written. */
  ghost predicate OnlyNeeded(
      before: Layer, chain: seq<Layer>, newChain: seq<Layer>, asked: seq<Request>, k: nat)
  {
    k <= |asked| && forall i :: k <= i < |asked| ==> Needed(before, chain, newChain, asked[i])
  }

  /** The bytes of `data` are in place. */
  ghost predicate Holds(cow: Layer, offset: nat, data: seq<Byte>)
    requires offset + |data| <= |cow|
  {
    forall i :: 0 <= i < |data| ==> cow[offset + i] == Data(data[i])
  }

  /** What a write may do, in whole or in part. */
  ghost predicate WriteEffect(before: Layer, after: Layer, chain: seq<Layer>, offset: nat, data: seq<Byte>) {
    && |after| == |before|
    && forall p :: 0 <= p < |before| ==>
         || after[p] == before[p]
         || (offset <= p < offset + |data| && after[p] == Data(data[p - offset]))
         || (before[p].Hole? && after[p] == Data(Read(chain, p)))
  }

  /** Writing what is visible anyway copies up, whether or not the write succeeds. */
  lemma WriteCopiesUp(before: Layer, after: Layer, chain: seq<Layer>, offset: nat, data: seq<Byte>)
    requires WriteEffect(before, after, chain, offset, data) && offset + |data| <= |before|
    requires forall p :: offset <= p < offset + |data| ==>
      data[p - offset] == Read(chain, p) && (before[p].Hole? || before[p] == Data(Read(chain, p)))
    ensures CopiedUp(before, after, chain)
  {
  }

  /** A read from one offset to another. */
  datatype Extent = Extent(from: nat, to: nat)

  /** Only bytes are read that the image does not hold and, if it rests on the new chain, that layers between decide. */
  ghost predicate ReadsFit(before: Layer, chain: seq<Layer>, prefix: int, fetched: seq<Extent>, k: nat)
    requires prefix <= |chain|
  {
    k <= |fetched| && forall i :: k <= i < |fetched| ==> ReadFits(before, chain, prefix, fetched[i])
  }

  ghost predicate ReadFits(before: Layer, chain: seq<Layer>, prefix: int, r: Extent)
    requires prefix <= |chain|
  {
    && r.from <= r.to <= |before|
    && forall p: nat {:trigger before[p]} :: r.from <= p < r.to ==>
         before[p].Hole? && (prefix >= 0 ==> DecidedAbove(chain, prefix, p))
  }

  /** At most one byte has changed. */
  ghost predicate OneByte(a: Layer, b: Layer) {
    |a| == |b| && (a == b || exists p {:trigger b[p]} :: 0 <= p < |a| && b == a[p := b[p]])
  }

  /** Since the k-th moment recorded, bytes were only ever copied up from `before`. */
  ghost predicate AlwaysCopiedUp(before: Layer, moments: seq<Layer>, k: nat, chain: seq<Layer>) {
    k <= |moments| && forall i :: k <= i < |moments| ==> CopiedUp(before, moments[i], chain)
  }

  /** The image being rebased, over its old backing chain, with every content it ever had. */
  class Image {
    var cow: Layer
    const backing: seq<Layer>
    ghost var moments: seq<Layer>
    ghost var asked: seq<Request>   // the writes so far
    ghost var fetched: seq<Extent>  // the reads from backing chains so far
    ghost var failures: nat         // how many calls failed
    ghost var blanks: nat           // how often no bytes were reported

    constructor (cow: Layer, backing: seq<Layer>)
      ensures this.cow == cow && this.backing == backing && Valid()
    {
      this.cow := cow;
      this.backing := backing;
      moments := [cow];
    }

    /** Every content was recorded: byte by byte, up to the present one. */
    ghost predicate Valid()
      reads this
    {
      && |moments| > 0 && moments[|moments| - 1] == cow
      && forall i :: 0 < i < |moments| ==> OneByte(moments[i - 1], moments[i])
    }

    /** One byte changes, and the new content is recorded. */
    method Change(p: nat, cell: Cell)
      requires Valid() && p < |cow|
      modifies this`cow, this`moments
      ensures Valid() && cow == old(cow)[p := cell] && moments == old(moments) + [cow]
    {
      ghost var was := cow;
      cow := cow[p := cell];
      assert OneByte(was, cow) by {
        assert cow == was[p := cow[p]];
      }
      moments := moments + [cow];
    }

    /** bdrv_is_allocated: one status for a stretch of at least one byte. */
    method IsAllocated(offset: nat, bytes: nat) returns (ok: bool, held: bool, n: nat)
      requires 0 < bytes && offset + bytes <= |cow|
      modifies this`failures
      ensures failures == old(failures) + if ok then 0 else 1
      ensures ok ==> 0 < n <= bytes && forall p :: offset <= p < offset + n ==> cow[p].Data? == held
    {
      ok := *;
      held := cow[offset].Data?;
      n := 1;
      while n < bytes && cow[offset + n].Data? == held
        invariant 0 < n <= bytes && forall p :: offset <= p < offset + n ==> cow[p].Data? == held
      {
        var stop := *;
        if stop {
          break;
        }
        n := n + 1;
      }
      failures := failures + if ok then 0 else 1;
    }

    /** bdrv_is_allocated_above, for the layers above the k-th of the old chain; it may report no bytes at all. */
    method IsAllocatedAbove(k: nat, offset: nat, bytes: nat) returns (ok: bool, held: bool, n: nat)
      requires 0 < bytes && k <= |backing|
      modifies this`failures, this`blanks
      ensures failures == old(failures) + if ok then 0 else 1
      ensures blanks == old(blanks) + if ok && n == 0 then 1 else 0
      ensures ok ==> 0 <= n <= bytes && forall p :: offset <= p < offset + n ==> DecidedAbove(backing, k, p) == held
    {
      ok := *;
      var none := *;
      failures := failures + if ok then 0 else 1;
      if none {
        held := *;
        blanks := blanks + if ok then 1 else 0;
        return ok, held, 0;
      }
      held := DecidedAbove(backing, k, offset);
      n := 1;
      while n < bytes && DecidedAbove(backing, k, offset + n) == held
        invariant 0 < n <= bytes && forall p :: offset <= p < offset + n ==> DecidedAbove(backing, k, p) == held
      {
        var stop := *;
        if stop {
          break;
        }
        n := n + 1;
      }
    }

    /**
     blk_pwrite and blk_pwrite_zeroes.  A failed write may be done in part.  Unallocated bytes nearby
     may be copied up from the backing chain.
     */
    method Write(offset: nat, data: seq<Byte>, zeroes: bool) returns (ok: bool)
      requires Valid() && offset + |data| <= |cow| && (zeroes ==> forall i :: 0 <= i < |data| ==> data[i] == 0)
      modifies this
      ensures Valid()
      ensures WriteEffect(old(cow), cow, backing, offset, data) && (ok ==> Holds(cow, offset, data))
      ensures failures == old(failures) + if ok then 0 else 1
      ensures blanks == old(blanks) && asked == old(asked) + [Request(offset, offset + |data|, zeroes)]
      ensures fetched == old(fetched)
      ensures old(moments) <= moments
      ensures forall i :: |old(moments)| <= i < |moments| ==> WriteEffect(old(cow), moments[i], backing, offset, data)
    {
      ok := *;
      var p := 0;
      while p < |cow|
        invariant 0 <= p <= |cow| == |old(cow)|
        invariant failures == old(failures) && blanks == old(blanks) && asked == old(asked) && fetched == old(fetched)
        invariant Valid()
        invariant forall q :: p <= q < |cow| ==> cow[q] == old(cow)[q]
        invariant ok ==> forall q :: offset <= q < p && q < offset + |data| ==> cow[q] == Data(data[q - offset])
        invariant WriteEffect(old(cow), cow, backing, offset, data) && old(moments) <= moments
        invariant forall i :: |old(moments)| <= i < |moments| ==>
          WriteEffect(old(cow), moments[i], backing, offset, data)
      {
        var chance := *;
        if offset <= p < offset + |data| && (ok || chance) {
          Change(p, Data(data[p - offset]));
        } else if cow[p].Hole? && chance {
          Change(p, Data(Read(backing, p)));
        }
        p := p + 1;
      }
      failures := failures + if ok then 0 else 1;
      asked := asked + [Request(offset, offset + |data|, zeroes)];
    }

    /** blk_pread from a backing chain into a buffer; nothing is read beyond the end. */
    method PRead(chain: seq<Layer>, offset: nat, buf: array<Byte>, n: nat) returns (ok: bool)
      requires n <= buf.Length && offset + n <= BackingSize(chain)
      modifies buf, this`failures, this`fetched
      ensures fetched == old(fetched) + [Extent(offset, offset + n)]
      ensures failures == old(failures) + if ok then 0 else 1
      ensures ok ==> forall i :: 0 <= i < n ==> buf[i] == Read(chain, offset + i)
    {
      ok := *;
      for i := 0 to n
        invariant failures == old(failures) && fetched == old(fetched)
        invariant forall k :: 0 <= k < i ==> buf[k] == Read(chain, offset + k)
      {
        buf[i] := Read(chain, offset + i);
      }
      failures := failures + if ok then 0 else 1;
      fetched := fetched + [Extent(offset, offset + n)];
    }
  }

  /** memset to zero. */
  method Clear(buf: array<Byte>, n: nat)
    requires n <= buf.Length
    modifies buf
    ensures forall i :: 0 <= i < n ==> buf[i] == 0
  {
    for i := 0 to n
      invariant forall k :: 0 <= k < i ==> buf[k] == 0
    {
      buf[i] := 0;
    }
  }

  /**
   Fill a buffer with the content of a backing chain at `offset`, which may end before or within the
   n bytes wanted; m is how many bytes can be handled, and zero tells that the chain has ended.
   */
  method Fetch(image: Image, chain: seq<Layer>, offset: nat, buf: array<Byte>, n: nat)
    returns (ok: bool, m: nat, zero: bool)
    requires 0 < n <= buf.Length
    modifies buf, image`failures, image`fetched
    ensures image.failures == old(image.failures) + if ok then 0 else 1
    ensures image.fetched == old(image.fetched) + if zero then [] else [Extent(offset, offset + m)]
    ensures 0 < m <= n && (zero <==> offset >= BackingSize(chain)) && (!zero ==> offset + m <= BackingSize(chain))
    ensures m == n || offset + m == BackingSize(chain)
    ensures ok ==> Loaded(buf[..], chain, offset, m)
    ensures ok && zero ==> forall i :: 0 <= i < m ==> buf[i] == 0
  {
    ok, m, zero := true, n, false;
    if offset >= BackingSize(chain) {
      Clear(buf, n);
      zero := true;
    } else {
      if offset + n > BackingSize(chain) {
        m := BackingSize(chain) - offset;
      }
      ok := image.PRead(chain, offset, buf, m);
    }
  }

  /** Through the new chain the bytes before `end` read as they did through the old one. */
  ghost predicate Rebased(before: Layer, after: Layer, chain: seq<Layer>, newChain: seq<Layer>, end: nat)
    requires |after| == |before|
  {
    forall p :: 0 <= p < end && p < |before| ==> View(after, newChain, p) == View(before, chain, p)
  }

  /** Copying up never spoils what has been rebased. */
  lemma RebasedStays(before: Layer, mid: Layer, after: Layer, chain: seq<Layer>, newChain: seq<Layer>, end: nat)
    requires CopiedUp(before, mid, chain) && CopiedUp(mid, after, chain) && Rebased(before, mid, chain, newChain, end)
    ensures |after| == |before| && Rebased(before, after, chain, newChain, end)
  {
    forall p | 0 <= p < end && p < |before| ensures View(after, newChain, p) == View(before, chain, p) {
      assert View(mid, newChain, p) == View(before, chain, p);
      CopiedUpSame(before, mid, chain, p);
    }
  }

  /** A byte is rebased when it is in the image itself, or reads the same through both chains. */
  lemma RebasedFurther(before: Layer, cow: Layer, chain: seq<Layer>, newChain: seq<Layer>, from: nat, to: nat)
    requires CopiedUp(before, cow, chain) && Rebased(before, cow, chain, newChain, from) && to <= |cow|
    requires forall p :: from <= p < to ==> cow[p].Data? || Read(newChain, p) == Read(chain, p)
    ensures Rebased(before, cow, chain, newChain, to)
  {
    forall p | 0 <= p < to ensures View(cow, newChain, p) == View(before, chain, p) {
      CopiedUpSame(before, cow, chain, p);
    }
  }

  /** The first n bytes of the buffer are what the chain shows at `offset`. */
  ghost predicate Loaded(buf: seq<Byte>, chain: seq<Layer>, offset: nat, n: nat) {
    n <= |buf| && forall i: nat {:trigger buf[i]} :: i < n ==> buf[i] == Read(chain, offset + i)
  }

  lemma SameReads(was: seq<Byte>, now: seq<Byte>, chain: seq<Layer>, newChain: seq<Layer>, offset: nat, n: nat,
      from: nat, count: nat)
    requires Loaded(was, chain, offset, n) && Loaded(now, newChain, offset, n) && from <= n
    requires forall j :: 0 <= j < count ==> SameSector(was, now, from, n, j)
    ensures forall p :: offset + from <= p < offset + SectorAt(from, count, n) ==> Read(newChain, p) == Read(chain, p)
  {
    SameSectorsSameBytes(was, now, from, n, count);
    forall p | offset + from <= p < offset + SectorAt(from, count, n) ensures Read(newChain, p) == Read(chain, p) {
      var i: nat := p - offset;
      assert was[i] == now[i] && was[i] == Read(chain, offset + i) && now[i] == Read(newChain, offset + i);
    }
  }

  lemma SectorIsDifferent(was: seq<Byte>, now: seq<Byte>, chain: seq<Layer>, newChain: seq<Layer>, offset: nat,
      n: nat, from: nat, j: nat)
    requires Loaded(was, chain, offset, n) && Loaded(now, newChain, offset, n) && !SameSector(was, now, from, n, j)
    ensures DifferentWithin(chain, newChain, offset + SectorAt(from, j, n), offset + SectorAt(from, j + 1, n))
  {
    var i: nat :| SectorAt(from, j, n) <= i < SectorAt(from, j + 1, n) && was[i] != now[i];
    assert was[i] == Read(chain, offset + i) && now[i] == Read(newChain, offset + i);
  }

  /** A run of sectors that differ is needed. */
  lemma RunIsNeeded(before: Layer, mid: Layer, was: seq<Byte>, now: seq<Byte>, chain: seq<Layer>,
      newChain: seq<Layer>, offset: nat, n: nat, from: nat, count: nat, zero: bool)
    requires zero <==> offset >= BackingSize(chain)
    requires !zero ==> offset + n <= BackingSize(chain)
    requires CopiedUp(before, mid, chain) && offset + n <= |mid| && from < n && count > 0
    requires forall p :: offset <= p < offset + n ==> mid[p].Hole?
    requires Loaded(was, chain, offset, n) && Loaded(now, newChain, offset, n)
    requires forall j :: 0 <= j < count ==> !SameSector(was, now, from, n, j)
    ensures Needed(before, chain, newChain, Request(offset + from, offset + SectorAt(from, count, n), zero))
  {
    var r := Request(offset + from, offset + SectorAt(from, count, n), zero);
    forall j: nat | SectorAt(r.from, j, r.to) < r.to
      ensures DifferentWithin(chain, newChain, SectorAt(r.from, j, r.to), SectorAt(r.from, j + 1, r.to))
    {
      assert j < count;
      SectorIsDifferent(was, now, chain, newChain, offset, n, from, j);
    }
  }

  lemma RunData(buf: seq<Byte>, chain: seq<Layer>, offset: nat, from: nat, to: nat, n: nat, data: seq<Byte>)
    requires Loaded(buf, chain, offset, n) && from < to <= n
    requires |data| == to - from && forall i :: 0 <= i < |data| ==> data[i] == buf[from + i]
    ensures forall i :: 0 <= i < |data| ==> data[i] == Read(chain, offset + from + i)
  {
    forall i | 0 <= i < |data| ensures data[i] == Read(chain, offset + from + i) {
      assert buf[from + i] == Read(chain, offset + (from + i));
    }
  }

  lemma HeldIsData(cow: Layer, offset: nat, data: seq<Byte>)
    requires offset + |data| <= |cow| && Holds(cow, offset, data)
    ensures forall p :: offset <= p < offset + |data| ==> cow[p].Data?
  {
    forall p | offset <= p < offset + |data| ensures cow[p].Data? {
      assert cow[offset + (p - offset)] == Data(data[p - offset]);
    }
  }

  lemma OneMoreNeeded(before: Layer, chain: seq<Layer>, newChain: seq<Layer>, asked: seq<Request>, a: nat, r: Request)
    requires OnlyNeeded(before, chain, newChain, asked, a) && Needed(before, chain, newChain, r)
    ensures OnlyNeeded(before, chain, newChain, asked + [r], a)
  {
  }

  /** One write of the inner loop: a run of sectors that differ. */
  method CopyRun(image: Image, offset: nat, from: nat, to: nat, n: nat, buf: array<Byte>, zero: bool,
                 ghost mid: Layer, ghost before: Layer, ghost k: nat)
    returns (ok: bool)
    requires from < to <= n && Loaded(buf[..], image.backing, offset, n) && offset + n <= |image.cow|
    requires image.Valid() && (zero ==> forall i :: 0 <= i < n ==> buf[i] == 0)
    requires CopiedUp(mid, image.cow, image.backing) && CopiedUp(before, image.cow, image.backing)
    requires forall p :: offset <= p < offset + n ==> mid[p].Hole?
    requires AlwaysCopiedUp(before, image.moments, k, image.backing)
    modifies image
    ensures CopiedUp(mid, image.cow, image.backing) && CopiedUp(old(image.cow), image.cow, image.backing)
    ensures AlwaysCopiedUp(before, image.moments, k, image.backing) && old(image.moments) <= image.moments
    ensures ok ==> forall p :: offset + from <= p < offset + to ==> image.cow[p].Data?
    ensures image.failures == old(image.failures) + (if ok then 0 else 1) && image.blanks == old(image.blanks)
    ensures image.asked == old(image.asked) + [Request(offset + from, offset + to, zero)]
    ensures image.Valid() && image.fetched == old(image.fetched)
  {
    var data := if zero then seq(to - from, i => 0) else buf[from..to];
    RunData(buf[..], image.backing, offset, from, to, n, data);
    ok := WriteBack(image, offset + from, data, zero, mid, before, k);
    if ok {
      HeldIsData(image.cow, offset + from, data);
    }
  }

  /**
   The inner loop: copies the sectors in which the old and the new backing chain differ.  Whatever
   happens, bytes are only copied up.
   */
  method CopyDifferent(image: Image, newChain: seq<Layer>, offset: nat, n: nat, bufOld: array<Byte>,
                       bufNew: array<Byte>, zero: bool, ghost before: Layer, ghost k: nat, ghost a: nat)
    returns (ok: bool)
    requires 0 < n && offset + n <= |image.cow|
    requires Loaded(bufOld[..], image.backing, offset, n) && Loaded(bufNew[..], newChain, offset, n)
    requires image.Valid() && (zero ==> forall i :: 0 <= i < n ==> bufOld[i] == 0)
    requires zero <==> offset >= BackingSize(image.backing)
    requires !zero ==> offset + n <= BackingSize(image.backing)
    requires CopiedUp(before, image.cow, image.backing) && Rebased(before, image.cow, image.backing, newChain, offset)
    requires forall p :: offset <= p < offset + n ==> image.cow[p].Hole?
    requires AlwaysCopiedUp(before, image.moments, k, image.backing)
    requires OnlyNeeded(before, image.backing, newChain, image.asked, a)
    modifies image
    ensures CopiedUp(before, image.cow, image.backing) && AlwaysCopiedUp(before, image.moments, k, image.backing)
    ensures old(image.moments) <= image.moments
    ensures OnlyNeeded(before, image.backing, newChain, image.asked, a)
    ensures image.failures == old(image.failures) + (if ok then 0 else 1) && image.blanks == old(image.blanks)
    ensures image.Valid() && image.fetched == old(image.fetched)
    ensures Rebased(before, image.cow, image.backing, newChain, offset)
    ensures ok ==> Rebased(before, image.cow, image.backing, newChain, offset + n)
  {
    ghost var mid := image.cow;
    var written := 0;
    while written < n
      invariant 0 <= written <= n && CopiedUp(mid, image.cow, image.backing)
      invariant CopiedUp(before, image.cow, image.backing)
      invariant AlwaysCopiedUp(before, image.moments, k, image.backing) && old(image.moments) <= image.moments
      invariant Rebased(before, image.cow, image.backing, newChain, offset + written)
      invariant OnlyNeeded(before, image.backing, newChain, image.asked, a)
      invariant image.failures == old(image.failures) && image.blanks == old(image.blanks)
      invariant image.Valid() && image.fetched == old(image.fetched)
    {
      var differ, end, count := CompareBuffers(bufOld, bufNew, written, n);
      ghost var cow := image.cow;
      if differ {
        RunIsNeeded(before, mid, bufOld[..], bufNew[..], image.backing, newChain, offset, n, written, count, zero);
        OneMoreNeeded(
          before, image.backing, newChain, image.asked, a, Request(offset + written, offset + end, zero));
        ok := CopyRun(image, offset, written, end, n, bufOld, zero, mid, before, k);
        CopiedUpTrans(before, mid, image.cow, image.backing);
        if !ok {
          RebasedStays(before, mid, image.cow, image.backing, newChain, offset);
          return;
        }
        RebasedStays(before, cow, image.cow, image.backing, newChain, offset + written);
      } else {
        SameReads(bufOld[..], bufNew[..], image.backing, newChain, offset, n, written, count);
      }
      RebasedFurther(before, image.cow, image.backing, newChain, offset + written, offset + end);
      written := end;
    }
    return true;
  }

  /** Writing into the image what its old backing chain shows there. */
  method WriteBack(image: Image, offset: nat, data: seq<Byte>, zeroes: bool, ghost before: Layer, ghost first: Layer,
                   ghost k: nat)
    returns (ok: bool)
    requires image.Valid() && (zeroes ==> forall i :: 0 <= i < |data| ==> data[i] == 0)
    requires CopiedUp(before, image.cow, image.backing) && offset + |data| <= |image.cow|
    requires CopiedUp(first, image.cow, image.backing) && AlwaysCopiedUp(first, image.moments, k, image.backing)
    requires forall i :: 0 <= i < |data| ==> data[i] == Read(image.backing, offset + i)
    requires forall p :: offset <= p < offset + |data| ==> before[p].Hole?
    modifies image
    ensures CopiedUp(before, image.cow, image.backing) && CopiedUp(old(image.cow), image.cow, image.backing)
    ensures AlwaysCopiedUp(first, image.moments, k, image.backing) && old(image.moments) <= image.moments
    ensures ok ==> Holds(image.cow, offset, data)
    ensures image.failures == old(image.failures) + (if ok then 0 else 1) && image.blanks == old(image.blanks)
    ensures image.asked == old(image.asked) + [Request(offset, offset + |data|, zeroes)]
    ensures image.Valid() && image.fetched == old(image.fetched)
  {
    ghost var mid, m := image.cow, |image.moments|;
    ok := image.Write(offset, data, zeroes);
    forall p | offset <= p < offset + |data| ensures data[p - offset] == Read(image.backing, p) {
      var i := p - offset;
      assert data[i] == Read(image.backing, offset + i);
    }
    WriteCopiesUp(mid, image.cow, image.backing, offset, data);
    forall i | m <= i < |image.moments| ensures CopiedUp(first, image.moments[i], image.backing) {
      WriteCopiesUp(mid, image.moments[i], image.backing, offset, data);
      CopiedUpTrans(first, mid, image.moments[i], image.backing);
    }
    CopiedUpTrans(before, mid, image.cow, image.backing);
  }

  /**
   How the copy loop goes: it finishes, fails, or comes to an offset for which no bytes are reported.  Then
   a pass changes neither image nor offset, and the loop asks for the same offset again and again.
   */
  datatype Result = Finished | Failed | Stalled(at: nat)

  /** What holds whenever the loop comes to an offset; `start` is the image at the beginning. */
  ghost predicate UpTo(image: Image, start: Start, newChain: seq<Layer>, prefix: int, offset: nat)
    requires prefix <= |image.backing|
    reads image
  {
    && image.Valid() && CopiedUp(start.cow, image.cow, image.backing)
    && Rebased(start.cow, image.cow, image.backing, newChain, offset)
    && AlwaysCopiedUp(start.cow, image.moments, start.moments, image.backing)
    && OnlyNeeded(start.cow, image.backing, newChain, image.asked, start.asked)
    && ReadsFit(start.cow, image.backing, prefix, image.fetched, start.fetched)
  }

  /** The content of the image at the beginning, and how much was recorded by then. */
  datatype Start = Start(cow: Layer, moments: nat, asked: nat, fetched: nat)

  /** Where one status holds and layers decide, reading is in order. */
  lemma ReadMore(before: Layer, cow: Layer, chain: seq<Layer>, prefix: int, fetched: seq<Extent>, k: nat, from: nat,
      to: nat)
    requires prefix <= |chain| && ReadsFit(before, chain, prefix, fetched, k) && CopiedUp(before, cow, chain)
    requires from <= to <= |cow| && forall p :: from <= p < to ==> cow[p].Hole?
    requires prefix >= 0 ==> forall p :: from <= p < to ==> DecidedAbove(chain, prefix, p)
    ensures ReadsFit(before, chain, prefix, fetched + [Extent(from, to)], k)
  {
  }

  /** Reading both chains and copying what differs. */
  method CopyFrom(image: Image, newChain: seq<Layer>, prefix: int, offset: nat, bytes: nat, bufOld: array<Byte>,
                  bufNew: array<Byte>, ghost start: Start)
    returns (ok: bool, n: nat)
    requires prefix <= |image.backing| && UpTo(image, start, newChain, prefix, offset)
    requires bufOld != bufNew && bytes <= bufOld.Length && bytes <= bufNew.Length
    requires 0 < bytes && offset + bytes <= |image.cow|
    requires forall p :: offset <= p < offset + bytes ==> image.cow[p].Hole?
    requires prefix >= 0 ==> forall p :: offset <= p < offset + bytes ==> DecidedAbove(image.backing, prefix, p)
    modifies image, bufOld, bufNew
    ensures |image.cow| == |old(image.cow)| && old(image.moments) <= image.moments
    ensures image.failures == old(image.failures) + (if ok then 0 else 1) && image.blanks == old(image.blanks)
    ensures UpTo(image, start, newChain, prefix, offset) && (ok ==> 0 < n <= bytes)
    ensures ok ==> UpTo(image, start, newChain, prefix, offset + n)
  {
    var zero, newZero;
    ok, n, zero := Fetch(image, image.backing, offset, bufOld, bytes);
    if !zero {
      ReadMore(start.cow, image.cow, image.backing, prefix, old(image.fetched), start.fetched, offset, offset + n);
    }
    if !ok {
      return;
    }
    ghost var fetched := image.fetched;
    ok, n, newZero := Fetch(image, newChain, offset, bufNew, n);
    if !newZero {
      ReadMore(start.cow, image.cow, image.backing, prefix, fetched, start.fetched, offset, offset + n);
    }
    if !ok {
      return;
    }
    ok := CopyDifferent(
      image, newChain, offset, n, bufOld, bufNew, zero, start.cow, start.moments, start.asked);
  }

  /** What one pass of the loop comes to. */
  datatype Pass = Advance(n: nat) | Error | Blank

  /** The body of the copy loop. */
  method CopyPass(image: Image, newChain: seq<Layer>, prefix: int, offset: nat, bytes: nat, bufOld: array<Byte>,
                  bufNew: array<Byte>, ghost start: Start)
    returns (r: Pass)
    requires prefix >= 0 ==> prefix <= |image.backing| && newChain == image.backing[prefix..]
    requires UpTo(image, start, newChain, prefix, offset)
    requires bufOld != bufNew && bytes <= bufOld.Length && bytes <= bufNew.Length
    requires 0 < bytes && offset + bytes <= |image.cow|
    modifies image, bufOld, bufNew
    ensures |image.cow| == |old(image.cow)| && old(image.moments) <= image.moments
    ensures image.failures == old(image.failures) + if r.Error? then 1 else 0
    ensures image.blanks == old(image.blanks) + if r.Blank? then 1 else 0
    ensures r.Advance? ==> 0 < r.n <= bytes && UpTo(image, start, newChain, prefix, offset + r.n)
    ensures UpTo(image, start, newChain, prefix, offset)
    ensures r.Blank? ==> prefix >= 0 && image.cow[offset].Hole?
  {
    var ok, held, n := image.IsAllocated(offset, bytes);
    if !ok {
      return Error;
    }
    if held {
      RebasedFurther(start.cow, image.cow, image.backing, newChain, offset, offset + n);
      return Advance(n);
    }
    if prefix >= 0 {
      var above;
      ok, above, n := image.IsAllocatedAbove(prefix, offset, n);
      if !ok {
        return Error;
      }
      if n == 0 {
        return Blank;
      }
      if !above {
        forall p | offset <= p < offset + n ensures Read(newChain, p) == Read(image.backing, p) {
          UndecidedReadsBase(image.backing, prefix, p);
        }
        RebasedFurther(start.cow, image.cow, image.backing, newChain, offset, offset + n);
        return Advance(n);
      }
    }
    ok, n := CopyFrom(image, newChain, prefix, offset, n, bufOld, bufNew, start);
    return if ok then Advance(n) else Error;
  }

  /** The copy loop of img_rebase; `prefix` is where the new chain starts within the old one, if it does. */
  method CopyLoop(image: Image, newChain: seq<Layer>, prefix: int, ghost start: Start) returns (r: Result)
    requires prefix >= 0 ==> prefix <= |image.backing| && newChain == image.backing[prefix..]
    requires image.Valid() && start == Start(image.cow, |image.moments|, |image.asked|, |image.fetched|)
    modifies image
    ensures old(image.moments) <= image.moments && |image.cow| == |start.cow|
    ensures UpTo(image, start, newChain, prefix,
      match r case Finished => |image.cow| case Failed => 0 case Stalled(at) => at)
    ensures r.Stalled? ==> prefix >= 0 && r.at < |image.cow| && image.cow[r.at].Hole?
    ensures image.failures == old(image.failures) + if r.Failed? then 1 else 0
    ensures image.blanks == old(image.blanks) + if r.Stalled? then 1 else 0
  {
    var bufOld, bufNew := new Byte[IO_BUF_SIZE], new Byte[IO_BUF_SIZE];
    var offset, size := 0, |image.cow|;
    while offset < size
      invariant 0 <= offset <= size == |image.cow| && UpTo(image, start, newChain, prefix, offset)
      invariant old(image.moments) <= image.moments
      invariant image.failures == old(image.failures) && image.blanks == old(image.blanks)
    {
      var n := if size - offset < IO_BUF_SIZE then size - offset else IO_BUF_SIZE;
      var pass := CopyPass(image, newChain, prefix, offset, n, bufOld, bufNew, start);
      if pass.Error? {
        return Failed;
      } else if pass.Blank? {
        return Stalled(offset);
      }
      offset := offset + pass.n;
    }
    return Finished;
  }

  /**
   Safe rebase: at every moment, also when it fails, stalls or is interrupted, the image reads the same
   through the old chain; when it has succeeded it reads the same through the new one.  It fails only when a
   call fails, it stalls only when no bytes are reported, only sectors that differ are ever written, and nothing is
   read that is known to be the same.
   */
  method Rebase(image: Image, newChain: seq<Layer>, prefix: int) returns (r: Result)
    requires image.Valid() && (prefix >= 0 ==> prefix <= |image.backing| && newChain == image.backing[prefix..])
    modifies image
    ensures image.Valid() && |image.cow| == |old(image.cow)| && old(image.moments) <= image.moments
    ensures forall i, p :: |old(image.moments)| <= i < |image.moments| && 0 <= p < |old(image.cow)| ==>
      |image.moments[i]| == |old(image.cow)|
        && View(image.moments[i], image.backing, p) == View(old(image.cow), image.backing, p)
    ensures forall p :: 0 <= p < |image.cow| ==>
      View(image.cow, image.backing, p) == View(old(image.cow), image.backing, p)
    ensures r.Finished? ==> forall p :: 0 <= p < |image.cow| ==>
      View(image.cow, newChain, p) == View(old(image.cow), image.backing, p)
    ensures OnlyNeeded(old(image.cow), image.backing, newChain, image.asked, |old(image.asked)|)
    ensures ReadsFit(old(image.cow), image.backing, prefix, image.fetched, |old(image.fetched)|)
    ensures image.failures == old(image.failures) + if r.Failed? then 1 else 0
    ensures image.blanks == old(image.blanks) + if r.Stalled? then 1 else 0
  {
    ghost var before := image.cow;
    r := CopyLoop(
      image, newChain, prefix, Start(image.cow, |image.moments|, |image.asked|, |image.fetched|));
    forall i, p | |old(image.moments)| <= i < |image.moments| && 0 <= p < |before|
      ensures |image.moments[i]| == |before|
      ensures View(image.moments[i], image.backing, p) == View(before, image.backing, p)
    {
      CopiedUpSame(before, image.moments[i], image.backing, p);
    }
    forall p | 0 <= p < |image.cow| ensures View(image.cow, image.backing, p) == View(before, image.backing, p) {
      CopiedUpSame(before, image.cow, image.backing, p);
    }
  }
}
