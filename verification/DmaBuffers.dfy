/**
 The DMA buffer allocator: buffers of one size order are added per call, from AGP or scatter-gather memory in one
 stretch or from PCI memory segment by segment, and share one numbering and one address range.
 */
module DmaBuffers {
  import opened Outcomes

  const PAGE_SIZE: nat := 4096
  const PAGE_SHIFT: nat := 12
  const MIN_ORDER: nat := 5
  const MAX_ORDER: nat := 22
  const MAX_COUNT: int := 4096
  const INT_LIMIT: int := 0x8000_0000
  const LONG_RANGE: int := 0x1_0000_0000_0000_0000

  /** A buffer's number, its place in the address range and the room it takes there. */
  datatype Buf = Buf(idx: int, offset: int, total: nat, order: nat)

  /** The buffers of one size order. */
  datatype Entry = Entry(bufs: seq<Buf>, segs: nat, bufSize: nat, pageOrder: nat)

  datatype Memory = Agp | ScatterGather | Framebuffer | Pci

  datatype Request = Request(memory: Memory, count: int, size: int, pageAlign: bool)

  // ----- machine arithmetic -----

  /** Conversion to a 32-bit signed int. */
  function Wrap32(x: int): int {
    (x + 0x8000_0000) % 0x1_0000_0000 - 0x8000_0000
  }

  /** Conversion to a 64-bit unsigned long. */
  function Wrap64(x: int): int {
    x % 0x1_0000_0000_0000_0000
  }

  function Pow2(n: nat): (r: nat)
    ensures r >= 1
  {
    if n == 0 then 1 else 2 * Pow2(n - 1)
  }

  lemma {:induction false} Pow2Add(a: nat, b: nat)
    ensures Pow2(a) * Pow2(b) == Pow2(a + b)
  {
    if a > 0 { Pow2Add(a - 1, b); }
  }

  lemma {:induction false} Pow2Grows(a: nat, b: nat)
    requires a <= b
    ensures Pow2(a) <= Pow2(b)
  {
    if a < b { Pow2Grows(a, b - 1); }
  }

  /** The exponent of the smallest power of two that is not less than n. */
  function OrderBase2(n: nat): (r: nat)
    ensures Pow2(r) >= n && (r > 0 ==> Pow2(r - 1) < n)
  {
    if n <= 1 then 0 else 1 + OrderBase2((n + 1) / 2)
  }

  /** The order of a requested size; a negative size reads as a huge unsigned one. */
  function OrderOf(size: int): nat {
    if size < 0 then 64 else OrderBase2(size)
  }

  /** Bytes set aside at a time for buffers of this order: a page or one buffer, whichever is larger. */
  function Chunk(order: nat): nat {
    PAGE_SIZE * Pow2(if order > PAGE_SHIFT then order - PAGE_SHIFT else 0)
  }

  /** Distance from one buffer to the next. */
  function Stride(order: nat, pageAlign: bool): nat {
    if pageAlign && order < PAGE_SHIFT then PAGE_SIZE else Pow2(order)
  }

  lemma PageBits()
    ensures Pow2(12) == 4096 && Pow2(22) == 0x40_0000 && Pow2(10) == 1024
  {
    assert Pow2(3) == 8;
    Pow2Add(3, 3);
    Pow2Add(6, 6);
    Pow2Add(12, 6);
    Pow2Add(18, 3);
    assert Pow2(22) == 2 * Pow2(21);
    assert Pow2(6) == 64 && Pow2(10) == 16 * Pow2(6);
  }

  /** A chunk is as large as a buffer or a page; small buffers fill a page exactly. */
  lemma ChunkSizes(order: nat, pageAlign: bool)
    requires order <= MAX_ORDER
    ensures 1 <= Pow2(order) <= Stride(order, pageAlign) <= Chunk(order) <= 0x40_0000
    ensures order > PAGE_SHIFT ==> Stride(order, pageAlign) == Pow2(order) == Chunk(order)
    ensures order <= PAGE_SHIFT ==> Chunk(order) == PAGE_SIZE && Pow2(order) * Pow2(PAGE_SHIFT - order) == PAGE_SIZE
  {
    PageBits();
    if order > PAGE_SHIFT {
      Pow2Add(PAGE_SHIFT, order - PAGE_SHIFT);
      Pow2Grows(order, MAX_ORDER);
    } else {
      Pow2Add(order, PAGE_SHIFT - order);
      Pow2Grows(order, PAGE_SHIFT);
    }
  }

  /** Buffers follow each other at their size, or, if pages are to be kept apart, at the next multiple of a page. */
  lemma StrideAligned(order: nat, pageAlign: bool)
    requires order <= MAX_ORDER
    ensures !pageAlign ==> Stride(order, pageAlign) == Pow2(order)
    ensures pageAlign ==> Pow2(order) <= Stride(order, pageAlign) < Pow2(order) + PAGE_SIZE
    ensures pageAlign ==> exists pages: nat :: pages * PAGE_SIZE == Stride(order, pageAlign)
  {
    ChunkSizes(order, pageAlign);
    PageBits();
    if order < PAGE_SHIFT {
      assert 1 * PAGE_SIZE == PAGE_SIZE;
    } else {
      Pow2Add(order - PAGE_SHIFT, PAGE_SHIFT);
      assert Pow2(order - PAGE_SHIFT) * PAGE_SIZE == Pow2(order);
    }
  }

  /** Orders in range are those of sizes above 16 bytes and up to 4 MB. */
  lemma SizesAccepted(size: int)
    ensures MIN_ORDER <= OrderOf(size) <= MAX_ORDER <==> 16 < size <= 0x40_0000
  {
    PageBits();
    if size >= 0 {
      OrderAbove(size, 4);
      OrderAbove(size, MAX_ORDER);
      Pow2Add(2, 2);
    }
  }

  lemma OrderAbove(n: nat, k: nat)
    ensures OrderBase2(n) > k <==> n > Pow2(k)
  {
    var r := OrderBase2(n);
    if r <= k { Pow2Grows(r, k); } else { Pow2Grows(k, r - 1); }
  }

  // ----- what a layout promises -----

  /** Buffers numbered from n on, `stride` apart from `base`. */
  ghost predicate Placed(bufs: seq<Buf>, n: int, base: int, stride: nat, order: nat) {
    forall i: nat :: i < |bufs| ==> bufs[i] == Buf(n + i, Wrap64(base + i * stride), stride, order)
  }

  /** The same where the distance from the base is kept in an int. */
  ghost predicate PlacedNarrow(bufs: seq<Buf>, n: int, base: int, stride: nat, order: nat) {
    forall i: nat :: i < |bufs| ==> bufs[i] == Buf(n + i, Wrap64(base + Wrap32(i * stride)), stride, order)
  }

  function Bytes(e: Entry): nat {
    (if e.segs == 0 then |e.bufs| else e.segs) * (PAGE_SIZE * Pow2(e.pageOrder))
  }

  function SumBytes(entries: seq<Entry>): nat {
    if entries == [] then 0 else Bytes(entries[0]) + SumBytes(entries[1..])
  }

  function SumBufs(entries: seq<Entry>): nat {
    if entries == [] then 0 else |entries[0].bufs| + SumBufs(entries[1..])
  }

  lemma {:induction false} SumUpdate(entries: seq<Entry>, o: nat, e: Entry)
    requires o < |entries|
    ensures SumBytes(entries[o := e]) == SumBytes(entries) - Bytes(entries[o]) + Bytes(e)
    ensures SumBufs(entries[o := e]) == SumBufs(entries) - |entries[o].bufs| + |e.bufs|
  {
    if o == 0 {
      assert entries[o := e][1..] == entries[1..];
    } else {
      assert entries[o := e][1..] == entries[1..][o - 1 := e];
      SumUpdate(entries[1..], o - 1, e);
    }
  }

  const ENTRY_LIMIT: nat := 0x4_0000_0000

  lemma {:induction false} SumBound(entries: seq<Entry>)
    requires forall o: nat :: o < |entries| ==> Bytes(entries[o]) <= ENTRY_LIMIT
    ensures SumBytes(entries) <= |entries| * ENTRY_LIMIT
  {
    if entries != [] { SumBound(entries[1..]); }
  }

  /** Each buffer ends before the next one starts. */
  ghost predicate Ordered(bufs: seq<Buf>) {
    forall k: nat, l: nat :: k < l < |bufs| ==> bufs[k].offset + bufs[k].total <= bufs[l].offset
  }

  ghost predicate Numbered(bufs: seq<Buf>) {
    forall k: nat :: k < |bufs| ==> bufs[k].idx == k
  }

  ghost predicate Within(bufs: seq<Buf>, limit: int) {
    forall k: nat :: k < |bufs| ==> 0 <= bufs[k].offset && bufs[k].offset + bufs[k].total <= limit
  }

  /** Orders that have no buffers have no segments, and no order exceeds what its buffers can take. */
  ghost predicate EntriesOk(entries: seq<Entry>) {
    && |entries| == MAX_ORDER + 1
    && (forall o: nat :: o < |entries| ==> Bytes(entries[o]) <= ENTRY_LIMIT)
    && (forall o: nat :: o < |entries| && entries[o].bufs == [] ==> entries[o].segs == 0)
  }

  /** Adding up in an int loses nothing that the last conversion does not lose anyway. */
  lemma WrapAdd(a: int, b: int)
    ensures Wrap32(Wrap32(a) + b) == Wrap32(a + b)
  {
  }

  lemma WrapFits(x: int)
    ensures -INT_LIMIT <= Wrap32(x) < INT_LIMIT
    ensures -INT_LIMIT <= x < INT_LIMIT ==> Wrap32(x) == x
    ensures x >= INT_LIMIT ==> Wrap32(x) <= x - 2 * INT_LIMIT
    ensures 0 <= x < LONG_RANGE ==> Wrap64(x) == x
    ensures -LONG_RANGE <= x < 0 ==> Wrap64(x) == x + LONG_RANGE
  {
  }

  lemma Scaled(a: nat, b: nat, n: nat)
    requires a <= b
    ensures a * n <= b * n
  {
  }

  /** What is known of the whole address range. */
  ghost predicate SoundAt(entries: seq<Entry>, buflist: seq<Buf>, pageCount: int, byteCount: int) {
    && Ordered(buflist) && Within(buflist, byteCount)
    && pageCount * PAGE_SIZE == byteCount && byteCount == SumBytes(entries)
  }

  /** Buffers spaced out from the end of the range keep its order. */
  lemma Extends(buflist: seq<Buf>, bufs: seq<Buf>, n: int, base: int, stride: nat, order: nat, limit: int)
    requires Ordered(buflist) && Within(buflist, base) && Placed(bufs, n, base, stride, order)
    requires 0 <= base && 0 <= |bufs| * stride && base + |bufs| * stride <= limit < LONG_RANGE
    ensures Ordered(buflist + bufs) && Within(buflist + bufs, limit)
  {
    forall i: nat | i < |bufs| ensures base <= bufs[i].offset && bufs[i].offset + bufs[i].total <= limit {
      PlacedAt(bufs, n, base, stride, order, limit, i);
    }
    forall k: nat, l: nat | k < l < |bufs| ensures bufs[k].offset + bufs[k].total <= bufs[l].offset {
      PlacedAt(bufs, n, base, stride, order, limit, k);
      PlacedAt(bufs, n, base, stride, order, limit, l);
      Apart(k, l, stride);
    }
    Joined(buflist, bufs, base, limit);
  }

  lemma Apart(k: nat, l: nat, stride: nat)
    requires k < l
    ensures k * stride + stride <= l * stride
  {
    Scaled(k + 1, l, stride);
    assert (k + 1) * stride == k * stride + stride;
  }

  lemma PlacedAt(bufs: seq<Buf>, n: int, base: int, stride: nat, order: nat, limit: int, i: nat)
    requires Placed(bufs, n, base, stride, order) && 0 <= base && base + |bufs| * stride <= limit < LONG_RANGE && i < |bufs|
    ensures bufs[i].offset == base + i * stride && bufs[i].total == stride && 0 <= i * stride && bufs[i].offset + stride <= limit
  {
    Apart(i, |bufs|, stride);
    WrapFits(base + i * stride);
  }

  /** Two ordered lists, the second from `base` on where the first ends. */
  lemma Joined(buflist: seq<Buf>, bufs: seq<Buf>, base: int, limit: int)
    requires Ordered(buflist) && Within(buflist, base) && Ordered(bufs) && Within(bufs, limit) && base <= limit
    requires forall i: nat :: i < |bufs| ==> base <= bufs[i].offset
    ensures Ordered(buflist + bufs) && Within(buflist + bufs, limit)
  {
    var all, b := buflist + bufs, |buflist|;
    forall k: nat | k < |all| ensures all[k] == if k < b then buflist[k] else bufs[k - b] {}
    forall k: nat, l: nat | k < l < |all| ensures all[k].offset + all[k].total <= all[l].offset {
      if k >= b { assert bufs[k - b].offset + bufs[k - b].total <= bufs[l - b].offset; }
    }
  }

  // ----- AGP and scatter-gather -----

  ghost predicate FitsContiguous(count: nat, order: nat) {
    count * Chunk(order) < INT_LIMIT
  }

  /** Adding buffers in one stretch keeps the range sound exactly when their total fits an int. */
  lemma ContiguousSound(entries: seq<Entry>, buflist: seq<Buf>, pageCount: int, byteCount: int, bufs: seq<Buf>, order: nat, pageAlign: bool, e: Entry)
    requires EntriesOk(entries) && SoundAt(entries, buflist, pageCount, byteCount)
    requires order <= MAX_ORDER && |bufs| <= MAX_COUNT && entries[order].bufs == []
    requires Placed(bufs, |buflist|, byteCount, Stride(order, pageAlign), order)
    requires e.bufs == bufs && e.segs == 0 && PAGE_SIZE * Pow2(e.pageOrder) == Chunk(order)
    ensures var d := Wrap32(|bufs| * Chunk(order));
      SoundAt(entries[order := e], buflist + bufs, pageCount + d / 4096, Wrap64(byteCount + d)) <==> FitsContiguous(|bufs|, order)
  {
    if FitsContiguous(|bufs|, order) {
      ContiguousFits(entries, buflist, pageCount, byteCount, bufs, order, pageAlign, e);
    } else {
      SumBound(entries);
      ContiguousOverflows(buflist, byteCount, bufs, order, pageAlign, pageCount);
    }
  }

  lemma ContiguousFits(entries: seq<Entry>, buflist: seq<Buf>, pageCount: int, byteCount: int, bufs: seq<Buf>, order: nat, pageAlign: bool, e: Entry)
    requires EntriesOk(entries) && SoundAt(entries, buflist, pageCount, byteCount)
    requires order <= MAX_ORDER && |bufs| <= MAX_COUNT && entries[order].bufs == [] && FitsContiguous(|bufs|, order)
    requires Placed(bufs, |buflist|, byteCount, Stride(order, pageAlign), order)
    requires e.bufs == bufs && e.segs == 0 && PAGE_SIZE * Pow2(e.pageOrder) == Chunk(order)
    ensures var d := Wrap32(|bufs| * Chunk(order));
      SoundAt(entries[order := e], buflist + bufs, pageCount + d / 4096, Wrap64(byteCount + d))
  {
    var n, stride, chunk := |bufs|, Stride(order, pageAlign), Chunk(order);
    SumBound(entries);
    SumUpdate(entries, order, e);
    WrapFits(n * chunk);
    ChunkSizes(order, pageAlign);
    Scaled(stride, chunk, n);
    PagesExact(n, order);
    WrapFits(byteCount + n * chunk);
    Extends(buflist, bufs, |buflist|, byteCount, stride, order, byteCount + n * chunk);
  }

  lemma PagesExact(n: nat, order: nat)
    ensures n * Chunk(order) / 4096 * 4096 == n * Chunk(order)
  {
    var m := n * Pow2(if order > PAGE_SHIFT then order - PAGE_SHIFT else 0);
    assert n * Chunk(order) == m * 4096;
  }

  /** More than a page's worth of room can only overflow with buffers larger than a page. */
  lemma LargeBuffers(n: nat, order: nat, pageAlign: bool)
    requires order <= MAX_ORDER && n <= MAX_COUNT && n * Chunk(order) >= INT_LIMIT
    ensures order > PAGE_SHIFT && n * Chunk(order) <= ENTRY_LIMIT && n > 0 && Stride(order, pageAlign) == Chunk(order) == Pow2(order)
  {
    ChunkSizes(order, pageAlign);
    Scaled(n, MAX_COUNT, Chunk(order));
    assert order <= PAGE_SHIFT ==> n * Chunk(order) <= 4096 * 4096;
  }

  /** A total that does not fit an int leaves a byte count that is too small, or one the page count does not match. */
  lemma NarrowTotals(x: int, byteCount: int, pageCount: int)
    requires INT_LIMIT <= x <= ENTRY_LIMIT && 0 <= byteCount <= 23 * ENTRY_LIMIT && pageCount * PAGE_SIZE == byteCount
    ensures var d := Wrap32(x);
      byteCount + x > Wrap64(byteCount + d) || (pageCount + d / 4096) * PAGE_SIZE != Wrap64(byteCount + d)
  {
    var d := Wrap32(x);
    WrapFits(x);
    WrapFits(byteCount + d);
    assert d / 4096 * 4096 <= d;
  }

  lemma ContiguousOverflows(buflist: seq<Buf>, byteCount: int, bufs: seq<Buf>, order: nat, pageAlign: bool, pageCount: int)
    requires order <= MAX_ORDER && |bufs| <= MAX_COUNT && !FitsContiguous(|bufs|, order)
    requires Placed(bufs, |buflist|, byteCount, Stride(order, pageAlign), order)
    requires 0 <= byteCount <= 23 * ENTRY_LIMIT && pageCount * PAGE_SIZE == byteCount
    ensures var d := Wrap32(|bufs| * Chunk(order));
      Within(buflist + bufs, Wrap64(byteCount + d)) ==> (pageCount + d / 4096) * PAGE_SIZE != Wrap64(byteCount + d)
  {
    var n := |bufs|;
    LargeBuffers(n, order, pageAlign);
    NarrowTotals(n * Chunk(order), byteCount, pageCount);
    LastEnds(buflist, bufs, byteCount, Chunk(order), order);
  }

  lemma LastEnds(buflist: seq<Buf>, bufs: seq<Buf>, base: int, stride: nat, order: nat)
    requires bufs != [] && Placed(bufs, |buflist|, base, stride, order) && 0 <= base && base + |bufs| * stride < LONG_RANGE
    ensures forall limit: int :: Within(buflist + bufs, limit) ==> base + |bufs| * stride <= limit
  {
    var n := |bufs|;
    assert (n - 1) * stride + stride == n * stride;
    assert (buflist + bufs)[|buflist| + n - 1] == bufs[n - 1];
    WrapFits(base + (n - 1) * stride);
  }

  // ----- PCI -----

  ghost predicate FitsSegmented(count: nat, order: nat, pageAlign: bool) {
    count == 0 || (count - 1) * Stride(order, pageAlign) < INT_LIMIT
  }

  /** Adding buffers segment by segment keeps the range sound exactly when the last one's distance fits an int. */
  lemma SegmentedSound(entries: seq<Entry>, buflist: seq<Buf>, pageCount: int, byteCount: int, bufs: seq<Buf>, order: nat, pageAlign: bool, e: Entry)
    requires EntriesOk(entries) && SoundAt(entries, buflist, pageCount, byteCount)
    requires order <= MAX_ORDER && |bufs| <= MAX_COUNT && entries[order].bufs == []
    requires PlacedNarrow(bufs, |buflist|, byteCount, Stride(order, pageAlign), order)
    requires e.bufs == bufs && PAGE_SIZE * Pow2(e.pageOrder) == Chunk(order) && e.segs <= |bufs|
    requires |bufs| * Stride(order, pageAlign) <= e.segs * Chunk(order)
    ensures SoundAt(entries[order := e], buflist + bufs, pageCount + e.segs * Pow2(e.pageOrder), Wrap64(byteCount + e.segs * Chunk(order)))
      <==> FitsSegmented(|bufs|, order, pageAlign)
  {
    var n, stride, limit := |bufs|, Stride(order, pageAlign), byteCount + e.segs * Chunk(order);
    SegmentTotals(entries, pageCount, byteCount, order, pageAlign, e);
    if FitsSegmented(n, order, pageAlign) {
      NarrowIsEnough(bufs, |buflist|, byteCount, stride, order);
      Extends(buflist, bufs, |buflist|, byteCount, stride, order, limit);
    } else {
      SegmentedOverflows(buflist, bufs, byteCount, order, pageAlign, limit);
    }
  }

  lemma SegmentTotals(entries: seq<Entry>, pageCount: int, byteCount: int, order: nat, pageAlign: bool, e: Entry)
    requires EntriesOk(entries) && pageCount * PAGE_SIZE == byteCount && byteCount == SumBytes(entries)
    requires order <= MAX_ORDER && |e.bufs| <= MAX_COUNT && entries[order].bufs == []
    requires PAGE_SIZE * Pow2(e.pageOrder) == Chunk(order) && e.segs <= |e.bufs|
    requires |e.bufs| * Stride(order, pageAlign) <= e.segs * Chunk(order)
    ensures var limit := byteCount + e.segs * Chunk(order);
      && 0 <= byteCount <= limit <= 24 * ENTRY_LIMIT && Wrap64(limit) == limit
      && SumBytes(entries[order := e]) == limit && (pageCount + e.segs * Pow2(e.pageOrder)) * PAGE_SIZE == limit
  {
    SumBound(entries);
    SumUpdate(entries, order, e);
    SegmentBytes(e, order, pageAlign);
    PageProduct(pageCount, e.segs, Pow2(e.pageOrder));
    WrapFits(byteCount + Bytes(e));
    assert Bytes(entries[order]) == 0;
  }

  lemma PageProduct(p: int, s: nat, q: nat)
    ensures (p + s * q) * PAGE_SIZE == p * PAGE_SIZE + s * (PAGE_SIZE * q)
  {
  }

  lemma SegmentBytes(e: Entry, order: nat, pageAlign: bool)
    requires order <= MAX_ORDER && |e.bufs| <= MAX_COUNT && e.segs <= |e.bufs|
    requires PAGE_SIZE * Pow2(e.pageOrder) == Chunk(order) && |e.bufs| * Stride(order, pageAlign) <= e.segs * Chunk(order)
    ensures Bytes(e) == e.segs * Chunk(order) <= ENTRY_LIMIT && (e.segs == 0 ==> e.bufs == [])
  {
    ChunkSizes(order, pageAlign);
    Scaled(e.segs, MAX_COUNT, Chunk(order));
    if e.segs == 0 && e.bufs != [] { Scaled(1, |e.bufs|, Stride(order, pageAlign)); }
  }

  lemma NarrowIsEnough(bufs: seq<Buf>, n: int, base: int, stride: nat, order: nat)
    requires PlacedNarrow(bufs, n, base, stride, order) && (bufs == [] || (|bufs| - 1) * stride < INT_LIMIT)
    ensures Placed(bufs, n, base, stride, order)
  {
    forall i: nat | i < |bufs| ensures bufs[i] == Buf(n + i, Wrap64(base + i * stride), stride, order) {
      Scaled(i, |bufs| - 1, stride);
      WrapFits(i * stride);
    }
  }

  /** The buffer whose distance is the first not to fit lands before the ones added with it, or far outside. */
  lemma SegmentedOverflows(buflist: seq<Buf>, bufs: seq<Buf>, base: int, order: nat, pageAlign: bool, limit: int)
    requires order <= MAX_ORDER && |bufs| <= MAX_COUNT && !FitsSegmented(|bufs|, order, pageAlign)
    requires PlacedNarrow(bufs, |buflist|, base, Stride(order, pageAlign), order)
    requires 0 <= base <= limit <= 24 * ENTRY_LIMIT
    ensures !(Ordered(buflist + bufs) && Within(buflist + bufs, limit))
  {
    var n, stride := |bufs|, Stride(order, pageAlign);
    ChunkSizes(order, pageAlign);
    Scaled(n - 1, n, stride);
    Scaled(stride, Chunk(order), n);
    LargeBuffers(n, order, pageAlign);
    var j := HalfRange(order);
    if j >= n { Scaled(n, j, stride); }
    var all, b := buflist + bufs, |buflist|;
    assert all[b] == bufs[0] && all[b + j] == bufs[j];
    WrapFits(base);
    WrapFits(base - INT_LIMIT);
    assert bufs[0].offset == base && bufs[j].offset == Wrap64(base - INT_LIMIT);
  }

  lemma HalfRange(order: nat) returns (j: nat)
    requires order <= MAX_ORDER
    ensures j >= 1 && j * Pow2(order) == INT_LIMIT && Wrap32(j * Pow2(order)) == -INT_LIMIT
  {
    j := Pow2(31 - order);
    Pow2Add(31 - order, order);
    PageBits();
    Pow2Add(10, 10);
    Pow2Add(20, 10);
    assert Pow2(31) == 2 * Pow2(30);
  }
}
