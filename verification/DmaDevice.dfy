/**
 Adding DMA buffers to a device, and the counters that freeze the layout once userspace has seen it.
 */
module DmaDevice {
  import opened Outcomes
  import opened DmaBuffers

  class Dma {
    var entries: seq<Entry>
    var buflist: seq<Buf>
    var bufCount: int
    var segCount: nat
    var pageCount: int
    var byteCount: int
    var bufUse: nat
    var bufAlloc: nat

    /** Counts agree with the lists, and every buffer has its position as its number. */
    ghost predicate Valid()
      reads this
    {
      EntriesOk(entries) && bufCount == |buflist| == SumBufs(entries) && Numbered(buflist)
    }

    /** Besides, the buffers lie one after the other within the byte count. */
    ghost predicate Sound()
      reads this
    {
      Valid() && SoundAt(entries, buflist, pageCount, byteCount)
    }

    constructor ()
      ensures Sound() && buflist == [] && byteCount == 0 && bufUse == 0 && bufAlloc == 0
    {
      entries := seq(MAX_ORDER + 1, _ => Entry([], 0, 0, 0));
      buflist, bufCount, segCount, pageCount, byteCount := [], 0, 0, 0, 0;
      bufUse, bufAlloc := 0, 0;
      new;
      EmptyEntries(entries);
    }

    /** Totals, list and orders' buffers are those of before. */
    twostate predicate Untouched()
      reads this
    {
      && buflist == old(buflist) && bufCount == old(bufCount) && segCount == old(segCount)
      && pageCount == old(pageCount) && byteCount == old(byteCount) && |entries| == |old(entries)|
      && forall o: nat :: o < |entries| ==> entries[o].bufs == old(entries)[o].bufs && entries[o].segs == old(entries)[o].segs
    }

    /** The layout is not frozen, the order is in range and has no buffers yet, and the count is sensible. */
    ghost predicate Admissible(req: Request)
      requires Valid()
      reads this
    {
      var order := OrderOf(req.size);
      MIN_ORDER <= order <= MAX_ORDER && bufUse == 0 && entries[order].bufs == [] && 0 <= req.count <= MAX_COUNT
    }

    /** The new buffers are those of `order`, whose segments are counted, and no other order has changed. */
    twostate predicate Added(order: nat)
      reads this
    {
      && order < |entries| == |old(entries)| && |old(buflist)| <= |buflist|
      && entries[order].bufs == buflist[|old(buflist)|..] && segCount == old(segCount) + entries[order].segs
      && forall o: nat :: o < |entries| && o != order ==> entries[o] == old(entries)[o]
    }

    /** The checks every addition starts with; on success the caller is counted in bufAlloc. */
    method Enter(req: Request) returns (r: Status, order: nat)
      requires Valid()
      modifies this`bufAlloc
      ensures order == OrderOf(req.size) && (r.Ok? <==> Admissible(req))
      ensures r.Ok? ==> bufAlloc == old(bufAlloc) + 1
      ensures r.Failed? ==> bufAlloc == old(bufAlloc)
    {
      order := OrderOf(req.size);
      if order < MIN_ORDER || order > MAX_ORDER { return Failed(EINVAL), order; }
      if bufUse != 0 { return Failed(EBUSY), order; }
      bufAlloc := bufAlloc + 1;
      if entries[order].bufs != [] {
        bufAlloc := bufAlloc - 1;
        return Failed(ENOMEM), order;
      }
      if req.count < 0 || req.count > MAX_COUNT {
        bufAlloc := bufAlloc - 1;
        return Failed(EINVAL), order;
      }
      r := Ok;
    }

    /** The orders' entries without what has been put into the entry of `order` so far. */
    ghost function Blank(order: nat): seq<Entry>
      requires order < |entries|
      reads this
    {
      entries[order := entries[order].(bufs := [], segs := 0)]
    }

    /** Valid but for an entry that is being filled. */
    ghost predicate Filling(order: nat)
      reads this
    {
      order < |entries| && bufAlloc > 0 && EntriesOk(Blank(order)) && bufCount == |buflist| == SumBufs(Blank(order)) && Numbered(buflist)
    }

    /** The entry gets its sizes and is still empty. */
    method Open(order: nat, size: nat, pageOrder: nat)
      requires Valid() && order < |entries| && entries[order].bufs == [] && bufAlloc > 0
      modifies this`entries
      ensures Filling(order) && entries == old(entries)[order := Entry([], 0, size, pageOrder)]
      ensures old(Sound()) ==> SoundAt(Blank(order), buflist, pageCount, byteCount)
    {
      entries := entries[order := entries[order].(bufSize := size, pageOrder := pageOrder)];
      SumUpdate(old(entries), order, entries[order]);
      assert Blank(order) == entries;
    }

    /** Leave with an error: whatever the entry holds is freed, and the order has no buffers again. */
    method CleanUp(order: nat) returns (r: Status)
      requires Filling(order)
      modifies this`entries, this`bufAlloc
      ensures Valid() && entries == old(Blank(order)) && r == Failed(ENOMEM) && bufAlloc == old(bufAlloc) - 1
    {
      if entries[order].segs != 0 { entries := entries[order := entries[order].(segs := 0)]; }
      if entries[order].bufs != [] { entries := entries[order := entries[order].(bufs := [])]; }
      assert entries == old(Blank(order));
      bufAlloc := bufAlloc - 1;
      r := Failed(ENOMEM);
    }

    /** Only the buffers and segments of `order` differ from before. */
    twostate predicate FilledIn(order: nat)
      requires order < |old(entries)|
      reads this
    {
      |entries| == |old(entries)| && entries == old(entries)[order := old(entries)[order].(bufs := entries[order].bufs, segs := entries[order].segs)]
    }

    /** Set up the buffers of one stretch in the order's entry; any allocation may fail. */
    method FillContiguous(count: nat, order: nat, stride: nat) returns (ok: bool, bytes: int)
      requires Filling(order) && entries[order].bufs == [] && entries[order].segs == 0
      modifies this`entries
      ensures FilledIn(order) && Filling(order) && entries[order].segs == 0
      ensures ok ==> |entries[order].bufs| == count && bytes == Wrap32(count * Chunk(order))
      ensures ok ==> Placed(entries[order].bufs, bufCount, byteCount, stride, order)
    {
      var offset := 0;
      bytes := 0;
      while |entries[order].bufs| < count
        invariant |entries| == |old(entries)| && FilledIn(order) && entries[order].segs == 0
        invariant var n := |entries[order].bufs|; n <= count && offset == n * stride && bytes == Wrap32(n * Chunk(order))
        invariant Placed(entries[order].bufs, bufCount, byteCount, stride, order)
      {
        ghost var n := |entries[order].bufs|;
        var buf := Buf(bufCount + |entries[order].bufs|, Wrap64(byteCount + offset), stride, order);
        var memory: bool := *;
        if !memory {
          assert Blank(order) == old(Blank(order));
          return false, bytes;
        }
        offset := offset + stride;
        entries := entries[order := entries[order].(bufs := entries[order].bufs + [buf])];
        WrapAdd(n * Chunk(order), Chunk(order));
        Distribute(n, 1, Chunk(order));
        Distribute(n, 1, stride);
        bytes := Wrap32(bytes + Chunk(order));
      }
      assert Blank(order) == old(Blank(order));
      ok := *;
    }

    /** Add buffers from AGP or scatter-gather memory. */
    method AddContiguous(req: Request) returns (r: Status)
      requires Valid()
      modifies this
      ensures Valid() && bufUse == old(bufUse) && bufAlloc == old(bufAlloc)
      ensures r.Failed? ==> Untouched() && (old(Sound()) ==> Sound())
      ensures r.Ok? ==> old(Admissible(req)) && |buflist| == |old(buflist)| + req.count && buflist[..|old(buflist)|] == old(buflist)
      ensures r.Ok? ==> Placed(buflist[|old(buflist)|..], |old(buflist)|, old(byteCount), Stride(OrderOf(req.size), req.pageAlign), OrderOf(req.size))
      ensures r.Ok? ==> Added(OrderOf(req.size))
      ensures r.Ok? && old(Sound()) ==> (Sound() <==> FitsContiguous(req.count, OrderOf(req.size)))
    {
      var zone: bool := *;
      if !zone { return Failed(EINVAL); }
      var order;
      r, order := Enter(req);
      if r.Failed? { return; }
      Open(order, Pow2(order), if order > PAGE_SHIFT then order - PAGE_SHIFT else 0);
      ghost var blank := Blank(order);
      var ok, bytes := FillContiguous(req.count, order, Stride(order, req.pageAlign));
      assert Blank(order) == blank;
      if ok { FinishContiguous(order, req.pageAlign, bytes); } else { r := CleanUp(order); }
    }

    method FinishContiguous(order: nat, pageAlign: bool, bytes: int)
      requires Filling(order) && order <= MAX_ORDER && |entries[order].bufs| <= MAX_COUNT && entries[order].segs == 0
      requires PAGE_SIZE * Pow2(entries[order].pageOrder) == Chunk(order) && bytes == Wrap32(|entries[order].bufs| * Chunk(order))
      requires Placed(entries[order].bufs, bufCount, byteCount, Stride(order, pageAlign), order)
      modifies this
      ensures Valid() && bufUse == old(bufUse) && bufAlloc == old(bufAlloc) - 1 && buflist == old(buflist) + old(entries)[order].bufs
      ensures entries == old(entries) && segCount == old(segCount) + entries[order].segs
      ensures old(SoundAt(Blank(order), buflist, pageCount, byteCount)) ==> (Sound() <==> FitsContiguous(|old(entries)[order].bufs|, order))
    {
      ghost var e := entries[order];
      if SoundAt(Blank(order), buflist, pageCount, byteCount) {
        ContiguousSound(Blank(order), buflist, pageCount, byteCount, e.bufs, order, pageAlign, e);
      }
      EntryBounded(e, order, pageAlign);
      assert Blank(order)[order := e] == entries;
      Finish(order, bytes / 4096, bytes);
    }

    /** Put the order's new buffers at the end of the list and add to the totals. */
    method Finish(order: nat, pages: int, bytes: int)
      requires Filling(order) && Bytes(entries[order]) <= ENTRY_LIMIT && (entries[order].bufs == [] ==> entries[order].segs == 0)
      requires forall i: nat :: i < |entries[order].bufs| ==> entries[order].bufs[i].idx == bufCount + i
      modifies this
      ensures Valid() && entries == old(entries) && buflist == old(buflist) + entries[order].bufs && segCount == old(segCount) + entries[order].segs
      ensures pageCount == old(pageCount) + pages && byteCount == Wrap64(old(byteCount) + bytes)
      ensures bufUse == old(bufUse) && bufAlloc == old(bufAlloc) - 1
    {
      ghost var e := entries[order];
      SumUpdate(Blank(order), order, e);
      assert Blank(order)[order := e] == entries;
      Append(order);
      pageCount := pageCount + pages;
      byteCount := Wrap64(byteCount + bytes);
      bufAlloc := bufAlloc - 1;
    }

    method Append(order: nat)
      requires order < |entries|
      modifies this`buflist, this`bufCount, this`segCount
      ensures buflist == old(buflist) + entries[order].bufs && bufCount == old(bufCount) + |entries[order].bufs|
      ensures segCount == old(segCount) + entries[order].segs
    {
      var i := 0;
      while i < |entries[order].bufs|
        invariant i <= |entries[order].bufs| && buflist == old(buflist) + entries[order].bufs[..i]
        invariant bufCount == old(bufCount) && segCount == old(segCount)
      {
        buflist := buflist + [entries[order].bufs[i]];
        i := i + 1;
      }
      assert entries[order].bufs[..i] == entries[order].bufs;
      bufCount := bufCount + |entries[order].bufs|;
      segCount := segCount + entries[order].segs;
    }

    /** Set up buffers in the order's entry segment by segment; any allocation may fail. */
    method FillSegmented(count: nat, order: nat, pageAlign: bool) returns (ok: bool)
      requires Filling(order) && order <= MAX_ORDER && count <= MAX_COUNT && entries[order].bufs == [] && entries[order].segs == 0
      modifies this`entries
      ensures FilledIn(order) && Filling(order)
      ensures ok ==> |entries[order].bufs| == count && PlacedNarrow(entries[order].bufs, bufCount, byteCount, Stride(order, pageAlign), order)
      ensures ok ==> entries[order].segs <= count && count * Stride(order, pageAlign) <= entries[order].segs * Chunk(order)
    {
      var bytes := 0;
      while |entries[order].bufs| < count
        invariant |entries| == |old(entries)| && FilledIn(order) && Filling(order)
        invariant |entries[order].bufs| <= count && SegmentsFilled(entries[order], order, pageAlign)
        invariant |entries[order].bufs| < count ==> |entries[order].bufs| * Stride(order, pageAlign) == entries[order].segs * Chunk(order)
        invariant bytes == Wrap32(entries[order].segs * Chunk(order))
        invariant PlacedNarrow(entries[order].bufs, bufCount, byteCount, Stride(order, pageAlign), order)
        decreases count - |entries[order].bufs|
      {
        ghost var segs := entries[order].segs;
        ok := FillSegment(count, order, pageAlign, bytes);
        if !ok { return; }
        WrapAdd(segs * Chunk(order), Chunk(order));
        Distribute(segs, 1, Chunk(order));
        bytes := Wrap32(bytes + Chunk(order));
      }
      ok := *;
    }

    /** Allocate one segment and fill it with as many of the missing buffers as it holds. */
    method FillSegment(count: nat, order: nat, pageAlign: bool, bytes: int) returns (ok: bool)
      requires Filling(order) && order <= MAX_ORDER && |entries[order].bufs| < count <= MAX_COUNT
      requires bytes == Wrap32(entries[order].segs * Chunk(order)) && SegmentsFilled(entries[order], order, pageAlign)
      requires PlacedNarrow(entries[order].bufs, bufCount, byteCount, Stride(order, pageAlign), order)
      requires |entries[order].bufs| * Stride(order, pageAlign) == entries[order].segs * Chunk(order)
      modifies this`entries
      ensures FilledIn(order) && Filling(order)
      ensures ok ==> |old(entries)[order].bufs| < |entries[order].bufs| <= count && entries[order].segs == old(entries)[order].segs + 1
      ensures ok ==> SegmentsFilled(entries[order], order, pageAlign)
      ensures ok ==> PlacedNarrow(entries[order].bufs, bufCount, byteCount, Stride(order, pageAlign), order)
      ensures ok && |entries[order].bufs| < count ==> |entries[order].bufs| * Stride(order, pageAlign) == entries[order].segs * Chunk(order)
    {
      ghost var had, segs := |entries[order].bufs|, entries[order].segs;
      ok := *;
      if !ok { return; }
      entries := entries[order := entries[order].(segs := entries[order].segs + 1)];
      assert Blank(order) == old(Blank(order));
      ok := FillPlaces(count, order, pageAlign, bytes, segs);
      ghost var n := |entries[order].bufs| - had;
      assert Blank(order) == old(Blank(order));
      if ok {
        Distribute(had, n, Stride(order, pageAlign));
        Distribute(segs, 1, Chunk(order));
      }
    }

    /** The buffers of one segment. */
    method FillPlaces(count: nat, order: nat, pageAlign: bool, bytes: int, ghost segs: nat) returns (ok: bool)
      requires order < |entries| && order <= MAX_ORDER && |entries[order].bufs| < count <= MAX_COUNT && bytes == Wrap32(segs * Chunk(order))
      requires PlacedNarrow(entries[order].bufs, bufCount, byteCount, Stride(order, pageAlign), order)
      requires |entries[order].bufs| * Stride(order, pageAlign) == segs * Chunk(order)
      modifies this`entries
      ensures FilledIn(order) && entries[order].segs == old(entries)[order].segs
      ensures ok ==> PlacedNarrow(entries[order].bufs, bufCount, byteCount, Stride(order, pageAlign), order)
      ensures ok ==> |old(entries)[order].bufs| < |entries[order].bufs| <= count
      ensures ok ==> var n := |entries[order].bufs| - |old(entries)[order].bufs|;
        n * Stride(order, pageAlign) <= Chunk(order) && (|entries[order].bufs| < count ==> n * Stride(order, pageAlign) == Chunk(order))
    {
      var size, stride, chunk := Pow2(order), Stride(order, pageAlign), Chunk(order);
      var offset := 0;
      ghost var had, n := |entries[order].bufs|, 0;
      OrderFitted(order, pageAlign);
      while offset + size <= chunk && |entries[order].bufs| < count
        invariant |entries| == |old(entries)| && FilledIn(order) && entries[order].segs == old(entries)[order].segs
        invariant |entries[order].bufs| == had + n <= count && offset == n * stride <= chunk
        invariant PlacedNarrow(entries[order].bufs, bufCount, byteCount, stride, order)
        decreases count - |entries[order].bufs|
      {
        SamePlace(had, n, segs, size, stride, chunk);
        NextFits(n, size, stride, chunk);
        var buf := Buf(bufCount + |entries[order].bufs|, Wrap64(byteCount + bytes + offset), stride, order);
        var memory: bool := *;
        if !memory { return false; }
        PlaceNext(entries[order].bufs, bufCount, byteCount, stride, order, buf);
        entries := entries[order := entries[order].(bufs := entries[order].bufs + [buf])];
        offset := offset + stride;
        n := n + 1;
      }
      if offset + size > chunk { SegmentFull(n, size, stride, chunk); }
      ok := true;
    }

    /** Add buffers from PCI memory. */
    method AddSegmented(req: Request) returns (r: Status)
      requires Valid()
      modifies this
      ensures Valid() && bufUse == old(bufUse) && bufAlloc == old(bufAlloc)
      ensures r.Failed? ==> Untouched() && (old(Sound()) ==> Sound())
      ensures r.Ok? ==> old(Admissible(req)) && |buflist| == |old(buflist)| + req.count && buflist[..|old(buflist)|] == old(buflist)
      ensures r.Ok? ==> PlacedNarrow(buflist[|old(buflist)|..], |old(buflist)|, old(byteCount), Stride(OrderOf(req.size), req.pageAlign), OrderOf(req.size))
      ensures r.Ok? ==> Added(OrderOf(req.size))
      ensures r.Ok? && old(Sound()) ==> (Sound() <==> FitsSegmented(req.count, OrderOf(req.size), req.pageAlign))
    {
      var order;
      r, order := Enter(req);
      if r.Failed? { return; }
      Open(order, Pow2(order), if order > PAGE_SHIFT then order - PAGE_SHIFT else 0);
      ghost var blank := Blank(order);
      var ok := FillSegmented(req.count, order, req.pageAlign);
      assert Blank(order) == blank;
      if ok { FinishSegmented(order, req.pageAlign); } else { r := CleanUp(order); }
    }

    method FinishSegmented(order: nat, pageAlign: bool)
      requires Filling(order) && order <= MAX_ORDER && |entries[order].bufs| <= MAX_COUNT && SegmentsFilled(entries[order], order, pageAlign)
      requires PAGE_SIZE * Pow2(entries[order].pageOrder) == Chunk(order)
      requires PlacedNarrow(entries[order].bufs, bufCount, byteCount, Stride(order, pageAlign), order)
      modifies this
      ensures Valid() && bufUse == old(bufUse) && bufAlloc == old(bufAlloc) - 1 && buflist == old(buflist) + old(entries)[order].bufs
      ensures entries == old(entries) && segCount == old(segCount) + entries[order].segs
      ensures old(SoundAt(Blank(order), buflist, pageCount, byteCount)) ==> (Sound() <==> FitsSegmented(|old(entries)[order].bufs|, order, pageAlign))
    {
      ghost var e := entries[order];
      if SoundAt(Blank(order), buflist, pageCount, byteCount) {
        SegmentedSound(Blank(order), buflist, pageCount, byteCount, e.bufs, order, pageAlign, e);
      }
      SegmentBytes(e, order, pageAlign);
      assert Blank(order)[order := e] == entries;
      Finish(order, entries[order].segs * Pow2(entries[order].pageOrder), entries[order].segs * Chunk(order));
    }

    /** The ioctl: pick the kind of memory. */
    method AddBufs(req: Request) returns (r: Status)
      requires Valid()
      modifies this
      ensures Valid() && bufUse == old(bufUse) && bufAlloc == old(bufAlloc)
      ensures r.Failed? ==> Untouched() && (old(Sound()) ==> Sound())
      ensures r.Ok? ==> req.memory != Framebuffer && old(Admissible(req))
      ensures r.Ok? ==> |buflist| == |old(buflist)| + req.count && buflist[..|old(buflist)|] == old(buflist)
      ensures r.Ok? ==> PlacedFor(req, buflist[|old(buflist)|..], |old(buflist)|, old(byteCount)) && Added(OrderOf(req.size))
      ensures r.Ok? && old(Sound()) ==> (Sound() <==> Fits(req))
    {
      match req.memory
      case Agp => r := AddContiguous(req);
      case ScatterGather => r := AddContiguous(req);
      case Framebuffer => r := Failed(EINVAL);
      case Pci => r := AddSegmented(req);
    }

    /** Any number of additions, successful or not, none of which overflows. */
    method AddAll(reqs: seq<Request>)
      requires Sound() && forall i: nat :: i < |reqs| ==> Fits(reqs[i])
      modifies this
      ensures Sound() && Disjoint(buflist) && |buflist| >= |old(buflist)| && buflist[..|old(buflist)|] == old(buflist)
    {
      var i := 0;
      while i < |reqs|
        invariant i <= |reqs| && Sound() && |buflist| >= |old(buflist)| && buflist[..|old(buflist)|] == old(buflist)
      {
        ghost var was := buflist;
        var r := AddBufs(reqs[i]);
        assert buflist[..|was|] == was;
        assert buflist[..|old(buflist)|] == was[..|old(buflist)|];
        i := i + 1;
      }
      OrderedDisjoint(buflist, byteCount);
    }
  }

  /** Each segment holds a buffer, and together they have room for all. */
  ghost predicate SegmentsFilled(e: Entry, order: nat, pageAlign: bool) {
    e.segs <= |e.bufs| && |e.bufs| * Stride(order, pageAlign) <= e.segs * Chunk(order)
  }

  lemma {:induction false} EmptyEntries(entries: seq<Entry>)
    requires forall o: nat :: o < |entries| ==> entries[o].bufs == [] && entries[o].segs == 0
    ensures SumBytes(entries) == 0 && SumBufs(entries) == 0
  {
    if entries != [] { EmptyEntries(entries[1..]); }
  }

  lemma EntryBounded(e: Entry, order: nat, pageAlign: bool)
    requires order <= MAX_ORDER && |e.bufs| <= MAX_COUNT && e.segs == 0 && PAGE_SIZE * Pow2(e.pageOrder) == Chunk(order)
    ensures Bytes(e) <= ENTRY_LIMIT
  {
    ChunkSizes(order, pageAlign);
    Scaled(|e.bufs|, MAX_COUNT, Chunk(order));
  }

  // ----- filling a segment -----

  /** Either one buffer to a chunk, or the buffers fill a chunk of a page exactly. */
  ghost predicate Fitted(size: nat, stride: nat, chunk: nat) {
    1 <= size <= stride <= chunk && (stride == chunk || (stride == size && stride <= PAGE_SIZE && exists m: nat :: m * stride == chunk))
  }

  lemma OrderFitted(order: nat, pageAlign: bool)
    requires order <= MAX_ORDER
    ensures Fitted(Pow2(order), Stride(order, pageAlign), Chunk(order))
  {
    var size, stride, chunk := Pow2(order), Stride(order, pageAlign), Chunk(order);
    ChunkSizes(order, pageAlign);
    if stride != chunk { FillsPage(size, Pow2(PAGE_SHIFT - order), chunk); }
  }

  lemma FillsPage(size: nat, m: nat, chunk: nat)
    requires size >= 1 && m >= 1 && size * m == chunk == PAGE_SIZE
    ensures Fitted(size, size, chunk)
  {
    Scaled(1, m, size);
    assert m * size == chunk;
  }

  lemma Distribute(a: nat, b: nat, n: nat)
    ensures (a + b) * n == a * n + b * n
  {
  }

  lemma Cancel(a: nat, b: nat, n: nat)
    requires n >= 1 && a * n <= b * n
    ensures a <= b
  {
    if a > b { Distribute(b, a - b, n); }
  }

  lemma PlaceNext(bufs: seq<Buf>, n: int, base: int, stride: nat, order: nat, next: Buf)
    requires PlacedNarrow(bufs, n, base, stride, order)
    requires next == Buf(n + |bufs|, Wrap64(base + Wrap32(|bufs| * stride)), stride, order)
    ensures PlacedNarrow(bufs + [next], n, base, stride, order)
  {
  }

  lemma WrapSum(x: nat, y: nat)
    requires y == 0 || x + y <= 0x100_0000
    ensures Wrap32(x) + y == Wrap32(x + y)
  {
  }

  lemma SmallOrFirst(had: nat, n: nat, size: nat, stride: nat, chunk: nat)
    requires Fitted(size, stride, chunk) && had + n < MAX_COUNT && n * stride + size <= chunk
    ensures n * stride == 0 || (had + n) * stride <= 0x100_0000
  {
    if stride == chunk {
      if n > 0 { Scaled(1, n, stride); }
    } else {
      Scaled(had + n, 4096, stride);
      Scaled(stride, 4096, 4096);
    }
  }

  /** Counting through the segments or straight on leads to the same place. */
  lemma SamePlace(had: nat, n: nat, segs: nat, size: nat, stride: nat, chunk: nat)
    requires Fitted(size, stride, chunk) && had + n < MAX_COUNT && had * stride == segs * chunk && n * stride + size <= chunk
    ensures Wrap32(segs * chunk) + n * stride == Wrap32((had + n) * stride)
  {
    SmallOrFirst(had, n, size, stride, chunk);
    Distribute(had, n, stride);
    WrapSum(had * stride, n * stride);
  }

  /** A buffer that fits leaves its whole stride inside the segment. */
  lemma NextFits(n: nat, size: nat, stride: nat, chunk: nat)
    requires Fitted(size, stride, chunk) && n * stride + size <= chunk
    ensures (n + 1) * stride == n * stride + stride <= chunk
  {
    Distribute(n, 1, stride);
    if stride == chunk && n > 0 { Scaled(1, n, stride); }
  }

  /** A segment that has no room for another buffer is filled to its end. */
  lemma SegmentFull(n: nat, size: nat, stride: nat, chunk: nat)
    requires Fitted(size, stride, chunk) && n * stride <= chunk < n * stride + size
    ensures n > 0 && n * stride == chunk
  {
    var m: nat := if stride == chunk then 1 else var m: nat :| m * stride == chunk; m;
    Cancel(n, m, stride);
    Distribute(n, 1, stride);
    if n < m { Scaled(n + 1, m, stride); }
  }

  /** The new buffers, spaced out from the end of what was there. */
  ghost predicate PlacedFor(req: Request, bufs: seq<Buf>, n: int, base: int) {
    var order := OrderOf(req.size);
    if req.memory == Pci then PlacedNarrow(bufs, n, base, Stride(order, req.pageAlign), order)
    else Placed(bufs, n, base, Stride(order, req.pageAlign), order)
  }

  // ----- what a sound layout means -----

  ghost predicate Fits(req: Request) {
    req.count < 0 || OrderOf(req.size) > MAX_ORDER
    || if req.memory == Pci then FitsSegmented(req.count, OrderOf(req.size), req.pageAlign) else FitsContiguous(req.count, OrderOf(req.size))
  }

  /** The byte ranges of different buffers do not meet. */
  ghost predicate Disjoint(bufs: seq<Buf>) {
    forall k: nat, l: nat, x: int :: k < |bufs| && l < |bufs| && k != l && Covers(bufs[k], x) ==> !Covers(bufs[l], x)
  }

  ghost predicate Covers(b: Buf, x: int) {
    b.offset <= x < b.offset + b.total
  }

  lemma OrderedDisjoint(bufs: seq<Buf>, limit: int)
    requires Ordered(bufs) && Within(bufs, limit)
    ensures Disjoint(bufs)
  {
    forall k: nat, l: nat, x: int | k < |bufs| && l < |bufs| && k != l && Covers(bufs[k], x) ensures !Covers(bufs[l], x) {
      if k < l { assert bufs[k].offset + bufs[k].total <= bufs[l].offset; }
      else { assert bufs[l].offset + bufs[l].total <= bufs[k].offset; }
    }
  }

  /** 512 buffers of 4 MB are the first to exceed an int: they are added, and the totals no longer cover them. */
  lemma OverflowExample()
    ensures FitsContiguous(511, MAX_ORDER) && !FitsContiguous(512, MAX_ORDER)
    ensures FitsSegmented(512, MAX_ORDER, false) && !FitsSegmented(513, MAX_ORDER, false)
  {
    PageBits();
    ChunkSizes(MAX_ORDER, false);
  }
}
