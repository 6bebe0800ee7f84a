/** The small-memory allocator on its in-band headers, each method proved against the partition. */
module SmallMem {
  import opened HighWater
  import opened Bytes
  import opened Lists
  import opened Alignment
  import opened Blocks
  import opened BlockLinks
  import opened BlockLive
  import opened SmallMemModel
  import opened SmallMemLive

  /** The first block's back link names itself, and so does the end marker's forward link. */
  function SmallEnds(e: nat): Ends { Ends(0, e, false) }

  /** Marking a block of a heap free leaves everything ready for joining it with its neighbours. */
  lemma FreeMark(c: Config, items: map<nat, Item>, bs: seq<Block>, e: nat, i: nat)
    requires Heap(c, bs, e) && Linked(items, bs, e, SmallEnds(e)) && i < |bs| && bs[i].used
    ensures LinkedAt(items, bs, e, SmallEnds(e), i)
    ensures var at := bs[i].at; var bs1 := bs[i := Block(at, false)];
            && Linked(items[at := items[at].(used := false)], bs1, e, SmallEnds(e))
            && Tiled(c, bs1, e) && Aligned(c, bs1, e) && CoalescedBut(bs1, i)
            && LowestFree(bs1, e) == if at < LowestFree(bs, e) then at else LowestFree(bs, e)
  {
    TiledAscends(c, bs, e);
    MarkLinks(items, bs, e, SmallEnds(e), i, false);
    FreeMarkSums(c, bs, e, i);
    MarkTiles(c, bs, e, i, false);
    var bs1 := bs[i := Block(bs[i].at, false)];
    forall k | 0 <= k < |bs1| - 1 && k != i && k + 1 != i ensures ApartAt(bs1, k) { assert ApartAt(bs, k); }
  }

  /** Taking any block but the lowest free one leaves `lfree`; taking that one leaves only used blocks below it. */
  lemma TakeLowest(c: Config, bs: seq<Block>, e: nat, i: nat, n: nat)
    requires c.hdr > 0 && Tiled(c, bs, e) && i < |bs| && !bs[i].used
    ensures bs[i].at != LowestFree(bs, e) ==> LowestFree(TakeBlock(c, bs, e, i, n), e) == LowestFree(bs, e)
    ensures bs[i].at == LowestFree(bs, e) ==> forall j :: 0 <= j < i ==> TakeBlock(c, bs, e, i, n)[j].used
  {
    var k := LowestFreeIs(bs, e);
    StartsIncrease(c, bs, e, k, i);
    var bs' := TakeBlock(c, bs, e, i, n);
    if k < i {
      LowestFreeConcat(bs[..i], bs[i..], e);
      LowestFreeConcat(bs'[..i], bs'[i..], e);
      assert bs == bs[..i] + bs[i..] && bs' == bs'[..i] + bs'[i..] && bs'[..i] == bs[..i];
      assert !bs[..i][k].used;
    }
  }

  /** Cutting a free block at `at2` off the used block `i` at `at`: headers and partition are ready for joining it. */
  lemma ShrinkCut(c: Config, items: map<nat, Item>, bs: seq<Block>, e: nat, i: nat, n: nat, at: nat, at2: nat, bs1: seq<Block>)
    requires Heap(c, bs, e) && Linked(items, bs, e, SmallEnds(e)) && i < |bs| && bs[i].used && n % c.align == 0
    requires at == bs[i].at && at2 == at + c.hdr + n && at2 + c.hdr <= NextAt(bs, e, i) && bs1 == CutOff(bs, i, at2)
    ensures at in items && items[at].next == NextAt(bs, e, i) && NextAt(bs, e, i) in items
    ensures Linked(Split(items, at, at2, e, SmallEnds(e)), bs1, e, SmallEnds(e))
    ensures Tiled(c, bs1, e) && Aligned(c, bs1, e) && CoalescedBut(bs1, i + 1) && bs1[0].at == 0
    ensures i + 1 < |bs1| && bs1[i + 1] == Block(at2, false)
  {
    NextLinked(items, bs, e, SmallEnds(e), i);
    TiledAscends(c, bs, e);
    ShrinkReady(c, bs, e, i, n);
    SplitLinks(items, bs, e, SmallEnds(e), i, at2);
  }

  /** The partition after the in-place shrink, and what it does to `used` and `lfree`. */
  lemma ShrinkPlug(c: Config, bs: seq<Block>, e: nat, i: nat, n: nat, at2: nat, bs1: seq<Block>, bs': seq<Block>)
    requires Heap(c, bs, e) && i < |bs| && bs[i].used && n % c.align == 0
    requires at2 == bs[i].at + c.hdr + n && at2 + c.hdr <= NextAt(bs, e, i) && bs1 == CutOff(bs, i, at2) && bs' == Blocks.PlugHoles(bs1, i + 1)
    ensures bs' == ShrinkBlock(c, bs, i, n) && Heap(c, bs', e) && LowestFree(bs', e) == LowestFree(bs1, e)
    ensures LowestFree(bs1, e) == (if at2 < LowestFree(bs, e) then at2 else LowestFree(bs, e))
    ensures UsedSum(bs', e) == UsedSum(bs, e) - (NextAt(bs, e, i) - at2)
  {
    ShrinkBlockHeap(c, bs, e, i, n);
    ShrinkSums(c, bs, e, i, n);
  }

  /** Two headers less than the aligned end, the heap still starts at or behind `start`, and has an aligned size. */
  lemma Region(c: Config, start: nat, end: nat)
    requires ConfigOk(c) && RoundDown(end, c.align) >= start + 2 * c.hdr
    ensures var first, last := RoundUp(start, c.align), RoundDown(end, c.align);
            first + 2 * c.hdr <= last <= end && (last - first - 2 * c.hdr) % c.align == 0
  {
    var first, last := RoundUp(start, c.align), RoundDown(end, c.align);
    RoundUpIs(start, c.align);
    RoundDownIs(end, c.align);
    SubAligned(last, c.hdr, c.align);
    SubAligned(last - c.hdr, c.hdr, c.align);
    var room := last - 2 * c.hdr;
    if room < first {
      SubAligned(first, room, c.align);
      Sparse(first - room, c.align);
    }
    SubAligned(room, first, c.align);
  }

  /** The values `used` passes through when block `i` is resized to `n > 0` bytes: none when nothing changes, and in a
      move first that with both blocks. */
  ghost function Trail(c: Config, bs: seq<Block>, e: nat, i: nat, n: nat, r: Option<nat>, bs': seq<Block>): seq<int>
    requires c.align > 0 && i < |bs|
  {
    var size := NextAt(bs, e, i) - bs[i].at - c.hdr;
    if r == None || size == n then []
    else if n + c.hdr + c.minSize < size then [UsedSum(bs', e)]
    else [UsedSum(SmallMemModel.Alloc(c, bs, e, n).1, e), UsedSum(bs', e)]
  }

  /** What the header at the start of block `i`, or the end marker, says. */
  lemma HeaderAt(items: map<nat, Item>, bs: seq<Block>, e: nat, i: nat, at: nat)
    requires Linked(items, bs, e, SmallEnds(e)) && Ascending(bs, e) && i <= |bs| && at == Start(bs[i..], e)
    ensures at in items && (at == e <==> i == |bs|)
    ensures i < |bs| ==> items[at].used == bs[i].used && items[at].next == Start(bs[i + 1..], e)
  {
    if i < |bs| {
      NextLinked(items, bs, e, SmallEnds(e), i);
      Apart(bs, e, i, |bs|);
    }
  }

  /** The first free block is the lowest free one, and the end marker stands for none. */
  lemma LowestAt(bs: seq<Block>, e: nat, i: nat)
    requires i <= |bs| && (forall j :: 0 <= j < i ==> bs[j].used) && (i < |bs| ==> !bs[i].used)
    ensures LowestFree(bs, e) == Start(bs[i..], e)
  {
    var k := LowestFreeIs(bs, e);
  }

  /** A request of `n` bytes, already rounded, took partition, bytes and history from `bs`, `b0`, `h0` to `bs'`, `b1`, `h1`. */
  ghost predicate Allocated(c: Config, e: nat, n: nat, bs: seq<Block>, b0: seq<bv8>, h0: seq<int>, r: Option<nat>, bs': seq<Block>, b1: seq<bv8>, h1: seq<int>)
  {
    && c.align > 0 && (r, bs') == SmallMemModel.Alloc(c, bs, e, n) && b1 == b0
    && h1 == if r.Some? then h0 + [UsedSum(bs', e)] else h0
  }

  /** The same for a resize of block `i` to `n` bytes, already rounded; kept bytes move with the block. */
  ghost predicate Resized(c: Config, e: nat, i: nat, n: nat, bs: seq<Block>, b0: seq<bv8>, h0: seq<int>, r: Option<nat>, bs': seq<Block>, b1: seq<bv8>, h1: seq<int>)
    requires i < |bs| && bs[i].at + c.hdr <= NextAt(bs, e, i)
  {
    && c.align > 0 && (r, bs') == Resize(c, bs, e, i, n)
    && Carried(bs[i].at + c.hdr, NextAt(bs, e, i) - bs[i].at - c.hdr, n, b0, r, b1)
    && Trailed(c, e, i, n, bs, h0, r, bs', h1)
  }

  /** The `size` bytes at `from`, at most `n` of them, are at the new place. */
  ghost predicate Carried(from: nat, size: nat, n: nat, b0: seq<bv8>, r: Option<nat>, b1: seq<bv8>)
  {
    if r == None then b1 == b0 else Copied(b0, from, b1, r.value, Smaller(size, n))
  }

  ghost predicate Trailed(c: Config, e: nat, i: nat, n: nat, bs: seq<Block>, h0: seq<int>, r: Option<nat>, bs': seq<Block>, h1: seq<int>)
    requires i < |bs|
  {
    c.align > 0 && h1 == if n == 0 then h0 + [UsedSum(bs', e)] else h0 + Trail(c, bs, e, i, n, r, bs')
  }

  lemma TrailMoves(c: Config, e: nat, i: nat, n: nat, bs: seq<Block>, h0: seq<int>, r: Option<nat>, bs': seq<Block>, h1: seq<int>)
    requires c.align > 0 && i < |bs| && n > 0
    requires var size := NextAt(bs, e, i) - bs[i].at - c.hdr; size != n && size <= n + c.hdr + c.minSize
    requires h1 == if r == None then h0 else h0 + [UsedSum(SmallMemModel.Alloc(c, bs, e, n).1, e), UsedSum(bs', e)]
    ensures Trailed(c, e, i, n, bs, h0, r, bs', h1)
  {
    assert h0 + [] == h0;
  }

  /** The block stays where it is, as it is or cut down, and so do its bytes. */
  lemma StaysPut(c: Config, e: nat, i: nat, n: nat, size: nat, bs: seq<Block>, b0: seq<bv8>, h0: seq<int>, r: nat, bs': seq<Block>, h1: seq<int>)
    requires c.align > 0 && i < |bs| && r == bs[i].at + c.hdr && size == NextAt(bs, e, i) - r && r + size <= |b0| && 0 < n <= size && n + c.hdr <= e
    requires size == n || n + c.hdr + c.minSize < size
    requires bs' == if size == n then bs else ShrinkBlock(c, bs, i, n)
    requires h1 == if size == n then h0 else h0 + [UsedSum(bs', e)]
    ensures Resized(c, e, i, n, bs, b0, h0, Some(r), bs', b0, h1)
  {
    CopiedInPlace(b0, r, n);
    assert h0 + [] == h0;
  }

  lemma TooBig(c: Config, e: nat, i: nat, n: nat, bs: seq<Block>, b0: seq<bv8>, h0: seq<int>)
    requires c.align > 0 && i < |bs| && bs[i].at + c.hdr <= NextAt(bs, e, i) && e < n + c.hdr && n > 0
    ensures Resized(c, e, i, n, bs, b0, h0, None, bs, b0, h0)
  {
    assert h0 + [] == h0;
  }

  lemma AllocatedTells(c: Config, e: nat, n: nat, bs: seq<Block>, b0: seq<bv8>, h0: seq<int>, r: Option<nat>, bs': seq<Block>, b1: seq<bv8>, h1: seq<int>)
    requires Heap(c, bs, e) && Allocated(c, e, n, bs, b0, h0, r, bs', b1, h1)
    ensures AllocTells(c, e, n, bs, r, bs')
  {
    AllocAnswers(c, e, n, bs);
  }

  lemma ResizedTells(c: Config, e: nat, i: nat, n: nat, bs: seq<Block>, b0: seq<bv8>, h0: seq<int>, r: Option<nat>, bs': seq<Block>, b1: seq<bv8>, h1: seq<int>)
    requires Heap(c, bs, e) && i < |bs| && bs[i].used && bs[i].at + c.hdr <= NextAt(bs, e, i) && Resized(c, e, i, n, bs, b0, h0, r, bs', b1, h1)
    ensures ResizeTells(c, e, n, bs, bs[i].at, NextAt(bs, e, i), r, bs')
  {
    ResizeAnswers(c, e, i, n, bs);
  }

  class SmallMem {
    const c: Config
    const memSize: nat
    var items: map<nat, Item>
    var lfree: nat
    var used: int
    var max: int
    /** The bytes of the heap area, by offset; headers are in `items`. */
    var bytes: seq<bv8>
    ghost var blocks: seq<Block>
    /** The values `used` has had, the present one last. */
    ghost var history: seq<int>

    ghost function End(): nat { memSize + c.hdr }

    ghost predicate Valid()
      reads this
    {
      Core() && Marked(history, used, max)
    }

    ghost predicate Core()
      reads this
    {
      && Heap(c, blocks, memSize + c.hdr)
      && Linked(items, blocks, memSize + c.hdr, SmallEnds(memSize + c.hdr))
      && lfree == LowestFree(blocks, memSize + c.hdr)
      && used == UsedSum(blocks, memSize + c.hdr)
      && |bytes| == memSize + c.hdr
    }

    function Rounded(n: nat): nat
      requires c.align > 0
    {
      RoundUp(n, c.align)
    }

    /** The user bytes of block `i`. */
    ghost function DataSize(i: nat): nat
      requires i < |blocks|
      reads this
    {
      var n := NextAt(blocks, memSize + c.hdr, i) - blocks[i].at - c.hdr;
      if n < 0 then 0 else n
    }

    lemma DataInside(i: nat, rmem: Option<nat>)
      requires Valid()
      ensures rmem.Some? && i < |blocks| ==> NextAt(blocks, memSize + c.hdr, i) <= |bytes| && blocks[i].at + c.hdr + DataSize(i) == NextAt(blocks, memSize + c.hdr, i)
    {
      if i < |blocks| {
        if i + 1 < |blocks| { LiveDisjoint(c, blocks, memSize + c.hdr, i, i + 1); }
        assert blocks[i].at + c.hdr <= NextAt(blocks, memSize + c.hdr, i);
      }
    }

    /** `rt_smem_init`, given a region that passes its size test. */
    constructor (c: Config, memSize: nat)
      requires ConfigOk(c) && memSize % c.align == 0
      ensures Valid() && this.c == c && this.memSize == memSize
      ensures blocks == [Block(0, false)] && used == 0 && max == 0 && history == [0]
    {
      this.c := c;
      this.memSize := memSize;
      var e := memSize + c.hdr;
      items := map[0 := Item(false, e, 0), e := Item(true, e, e)];
      lfree := 0;
      used := 0;
      max := 0;
      history := [0];
      bytes := seq(e, _ => 0);
      blocks := [Block(0, false)];
      AddAligned(memSize, c.hdr, c.align);
      assert NextAt([Block(0, false)], e, 0) == e;
      TotalOne(Block(0, false), e, true, 0);
    }

    /** `rt_smem_init` of the `size` bytes at `begin`, of which the first `obj` (aligned) hold the heap object: the heap
        fills the rest up to the last aligned address, or there is no room for two headers and nothing is set up. */
    static method Create(c: Config, begin: nat, size: nat, obj: nat) returns (r: SmallMem?)
      requires ConfigOk(c)
      ensures var start, end := RoundUp(begin, c.align) + obj, RoundDown(begin + size, c.align);
              && (r == null <==> end <= 2 * c.hdr || end - 2 * c.hdr < start)
              && (r != null ==> fresh(r) && r.Valid() && r.c == c && r.blocks == [Block(0, false)]
                                && RoundUp(start, c.align) + r.memSize + 2 * c.hdr == end <= begin + size)
    {
      var start := RoundUp(begin, c.align) + obj;
      var first, end := RoundUp(start, c.align), RoundDown(begin + size, c.align);
      if end <= 2 * c.hdr || end - 2 * c.hdr < start {
        return null;
      }
      Region(c, start, begin + size);
      r := new SmallMem(c, end - first - 2 * c.hdr);
    }

    /** `plug_holes` at the free block `i`, which starts at `mem`. */
    method PlugHoles(mem: nat, ghost i: nat)
      requires c.align > 0 && c.hdr > 0 && Tiled(c, blocks, End()) && Aligned(c, blocks, End()) && CoalescedBut(blocks, i)
      requires Linked(items, blocks, End(), SmallEnds(End())) && i < |blocks| && !blocks[i].used && blocks[i].at == mem
      requires blocks[0].at == 0
      modifies `items, `blocks, `lfree
      ensures blocks == Blocks.PlugHoles(old(blocks), i)
      ensures Linked(items, blocks, End(), SmallEnds(End()))
      ensures old(lfree) == LowestFree(old(blocks), End()) ==> lfree == old(lfree)
    {
      ghost var e := memSize + c.hdr;
      ghost var k := LowestFreeIs(blocks, e);
      TiledAscends(c, blocks, e);
      Apart(blocks, e, i, k);
      Apart(blocks, e, i, i + 1);
      NextLinked(items, blocks, e, SmallEnds(e), i);
      var nmem := items[mem].next;
      if mem != nmem && !items[nmem].used && nmem != memSize + c.hdr {
        MergeNextTiles(c, blocks, e, i);
        Join(mem, nmem, i);
      }
      NextLinked(items, blocks, e, SmallEnds(e), i);
      var pmem := items[mem].prev;
      if pmem != mem && !items[pmem].used {
        Join(pmem, mem, i - 1);
      }
    }

    /** One half of `plug_holes`: the block at `p` swallows the one at `q`. */
    method Join(p: nat, q: nat, ghost i: nat)
      requires c.hdr > 0 && Tiled(c, blocks, End()) && Linked(items, blocks, End(), SmallEnds(End()))
      requires i + 1 < |blocks| && p == blocks[i].at && q == blocks[i + 1].at
      modifies `items, `blocks, `lfree
      ensures blocks == Swallow(old(blocks), i) && Linked(items, blocks, End(), SmallEnds(End()))
      ensures lfree == if old(lfree) == q then p else old(lfree)
    {
      TiledAscends(c, blocks, End());
      JoinedLinks(items, blocks, End(), SmallEnds(End()), i);
      if lfree == q { lfree := p; }
      items := Joined(items, p, q);
      blocks := Swallow(blocks, i);
    }

    /** `rt_smem_free` of the used block `i`; a null pointer is ignored. */
    method Free(rmem: Option<nat>, ghost i: nat)
      requires Valid() && (rmem.Some? ==> i < |blocks| && blocks[i].used && rmem.value == blocks[i].at + c.hdr)
      modifies `items, `blocks, `lfree, `used, `history
      ensures Valid()
      ensures blocks == if rmem.Some? then FreeBlock(old(blocks), i) else old(blocks)
      ensures history == if rmem.Some? then old(history) + [used] else old(history)
    {
      if rmem == None { return; }
      ghost var u := used;
      Release(rmem.value - c.hdr, i);
      Logged(history, u, max, used);
      history := history + [used];
    }

    /** The used block `i` at `mem` becomes free and is joined with its neighbours. */
    method Release(mem: nat, ghost i: nat)
      requires Core() && i < |blocks| && blocks[i].used && mem == blocks[i].at
      modifies `items, `blocks, `lfree, `used
      ensures Core() && blocks == FreeBlock(old(blocks), i) && used <= old(used)
    {
      ghost var e := memSize + c.hdr;
      FreeMark(c, items, blocks, e, i);
      FreeBlockHeap(c, blocks, e, i);
      FreeBlockSums(c, blocks, e, i);
      items := items[mem := items[mem].(used := false)];
      blocks := blocks[i := Block(mem, false)];
      if mem < lfree { lfree := mem; }
      used := used - (items[mem].next - mem);
      PlugHoles(mem, i);
    }

    /** The search loop of `rt_smem_alloc` for `size` bytes: the first block that fits. */
    method Search(size: nat) returns (r: Option<nat>, ghost i: nat)
      requires Valid() && size <= memSize
      ensures r.Some? ==> FirstFit(c, blocks, End(), size) == Some(i) && i < |blocks| && r.value == blocks[i].at
      ensures r.None? ==> FirstFit(c, blocks, End(), size).None?
    {
      ghost var e := memSize + c.hdr;
      var ptr := lfree;
      i := LowestFreeIs(blocks, e);
      while ptr <= memSize - size
        invariant i <= |blocks| && ptr == Start(blocks[i..], e)
        invariant forall j :: 0 <= j < i ==> !Fits(c, blocks, e, j, size)
        decreases |blocks| - i
      {
        NextLinked(items, blocks, e, SmallEnds(e), i);
        if !items[ptr].used && items[ptr].next >= ptr + c.hdr + size {
          FirstFitIs(c, blocks, e, i, size);
          return Some(ptr), i;
        }
        ptr := items[ptr].next;
        i := i + 1;
      }
      PastBound(c, blocks, e, i, size);
      r := None;
    }

    /** Moving `lfree` past used blocks to the next free one, or to the end marker. */
    method AdvanceLowest(ghost k: nat)
      requires Linked(items, blocks, End(), SmallEnds(End())) && Ascending(blocks, End())
      requires k <= |blocks| && lfree == Start(blocks[k..], End()) && forall j :: 0 <= j < k ==> blocks[j].used
      modifies `lfree
      ensures lfree == LowestFree(blocks, End())
    {
      ghost var e := memSize + c.hdr;
      ghost var i := k;
      HeaderAt(items, blocks, e, i, lfree);
      while items[lfree].used && lfree != memSize + c.hdr
        invariant k <= i <= |blocks| && lfree == Start(blocks[i..], e) && lfree in items
        invariant lfree == e <==> i == |blocks|
        invariant i < |blocks| ==> items[lfree].used == blocks[i].used
        invariant forall j :: 0 <= j < i ==> blocks[j].used
        decreases |blocks| - i
      {
        HeaderAt(items, blocks, e, i, lfree);
        lfree := items[lfree].next;
        i := i + 1;
        HeaderAt(items, blocks, e, i, lfree);
      }
      LowestAt(blocks, e, i);
    }

    /** `rt_smem_alloc`: exactly first fit. */
    method Alloc(n: nat) returns (r: Option<nat>)
      requires Valid()
      modifies `items, `blocks, `lfree, `used, `max, `history
      ensures Valid()
      ensures (r, blocks) == SmallMemModel.Alloc(c, old(blocks), End(), n)
      ensures history == if r.Some? then old(history) + [used] else old(history)
      ensures r.None? ==> unchanged(`items, `lfree, `used, `max)
    {
      if n == 0 { return None; }
      var size := RoundUp(n, c.align);
      if size < c.minData { size := c.minData; }
      ghost var e := memSize + c.hdr;
      RequestAligned(c, n);
      if size > memSize {
        AllocTooBig(c, blocks, e, n);
        return None;
      }
      var at, i := Search(size);
      if at == None { return None; }
      Take(at.value, size, i);
      r := Some(at.value + c.hdr);
    }

    /** The free block `i` is taken, and the high-water mark kept. */
    method Take(ptr: nat, size: nat, ghost i: nat)
      requires Valid() && i < |blocks| && ptr == blocks[i].at && Fits(c, blocks, End(), i, size) && size % c.align == 0
      modifies `items, `blocks, `lfree, `used, `max, `history
      ensures Valid() && blocks == TakeBlock(c, old(blocks), End(), i, size) && history == old(history) + [used]
    {
      ghost var u, m := used, max;
      Occupy(ptr, size, i);
      Logged(history, u, m, used);
      history := history + [used];
    }

    /** Splitting the free block `i` when the rest is large enough, and marking it used. */
    method Occupy(ptr: nat, size: nat, ghost i: nat)
      requires Core() && i < |blocks| && ptr == blocks[i].at && Fits(c, blocks, End(), i, size) && size % c.align == 0
      modifies `items, `blocks, `lfree, `used, `max
      ensures Core() && blocks == TakeBlock(c, old(blocks), End(), i, size)
      ensures max == if old(max) < used then used else old(max)
    {
      ghost var e := memSize + c.hdr;
      ghost var bs := blocks;
      TakeBlockHeap(c, bs, e, i, size);
      TakeBlockSums(c, bs, e, i, size);
      TakeLowest(c, bs, e, i, size);
      TakeLinks(c, items, bs, e, SmallEnds(e), i, size);
      var next := items[ptr].next;
      if next - (ptr + c.hdr) >= size + c.hdr + c.minData {
        items := Split(items, ptr, ptr + c.hdr + size, memSize + c.hdr, SmallEnds(memSize + c.hdr));
        used := used + (size + c.hdr);
      } else {
        used := used + (next - ptr);
      }
      if max < used { max := used; }
      items := items[ptr := items[ptr].(used := true)];
      blocks := TakeBlock(c, bs, e, i, size);
      if ptr == lfree {
        TiledAscends(c, blocks, e);
        AdvanceLowest(i);
      }
    }

    /** The in-place shrink of `rt_smem_realloc`. */
    method Shrink(ptr: nat, n: nat, ghost i: nat)
      requires Valid() && i < |blocks| && blocks[i].used && ptr == blocks[i].at && n % c.align == 0
      requires blocks[i].at + c.hdr + n + c.hdr <= NextAt(blocks, End(), i)
      modifies `items, `blocks, `lfree, `used, `history
      ensures Valid() && blocks == ShrinkBlock(c, old(blocks), i, n) && history == old(history) + [used]
    {
      ghost var u := used;
      CutDown(ptr, n, i);
      Logged(history, u, max, used);
      history := history + [used];
    }

    /** A free block is cut off the end of block `i` and joined with what follows. */
    method CutDown(ptr: nat, n: nat, ghost i: nat)
      requires Core() && i < |blocks| && blocks[i].used && ptr == blocks[i].at && n % c.align == 0
      requires blocks[i].at + c.hdr + n + c.hdr <= NextAt(blocks, End(), i)
      modifies `items, `blocks, `lfree, `used
      ensures Core() && blocks == ShrinkBlock(c, old(blocks), i, n) && used <= old(used)
    {
      ghost var e := memSize + c.hdr;
      ghost var bs := blocks;
      var ptr2 := ptr + c.hdr + n;
      ShrinkCut(c, items, bs, e, i, n, ptr, ptr2, CutOff(bs, i, ptr2));
      ShrinkPlug(c, bs, e, i, n, ptr2, CutOff(bs, i, ptr2), Blocks.PlugHoles(CutOff(bs, i, ptr2), i + 1));
      var size := items[ptr].next - ptr - c.hdr;
      used := used - (size - n);
      items := Split(items, ptr, ptr2, memSize + c.hdr, SmallEnds(memSize + c.hdr));
      blocks := CutOff(bs, i, ptr2);
      if ptr2 < lfree { lfree := ptr2; }
      PlugHoles(ptr2, i + 1);
    }

    /** The moving path of `rt_smem_realloc`: a new block, the bytes copied, the old block freed. */
    method Move(rmem: nat, n: nat, size: nat, ghost i: nat) returns (r: Option<nat>)
      requires Valid() && i < |blocks| && blocks[i].used && rmem == blocks[i].at + c.hdr && 0 < n <= memSize
      requires n % c.align == 0 && size == DataSize(i) && size != n && size <= n + c.hdr + c.minSize
      modifies this
      ensures Valid()
      ensures (r, blocks) == Moved(c, old(blocks), End(), i, n)
      ensures Carried(rmem, size, n, old(bytes), r, bytes)
      ensures Trailed(c, End(), i, n, old(blocks), old(history), r, blocks, history)
    {
      ghost var e := memSize + c.hdr;
      ghost var bs, h0 := blocks, history;
      DataInside(i, Some(rmem));
      r := Alloc(n);
      if r.Some? {
        MoveTakes(c, bs, e, i, n);
        ghost var want := Request(c, n);
        ghost var u := used;
        CopyAndFree(rmem, r.value, Smaller(size, n), Shifted(c, bs, e, FirstFit(c, bs, e, want).value, want, i));
        TwoMore(h0, u, used);
      }
      TrailMoves(c, e, i, n, bs, h0, r, blocks, history);
    }

    method CopyAndFree(rmem: nat, dst: nat, count: nat, ghost i: nat)
      requires Valid() && i < |blocks| && blocks[i].used && rmem == blocks[i].at + c.hdr
      requires rmem + count <= |bytes| && dst + count <= |bytes|
      modifies this
      ensures Valid() && blocks == FreeBlock(old(blocks), i) && history == old(history) + [used]
      ensures Copied(old(bytes), rmem, bytes, dst, count)
    {
      CopyBytes(dst, rmem, count);
      Free(Some(rmem), i);
    }

    /** `rt_memcpy` inside the heap. */
    method CopyBytes(dst: nat, src: nat, count: nat)
      requires src + count <= |bytes| && dst + count <= |bytes|
      modifies `bytes
      ensures |bytes| == |old(bytes)| && Copied(old(bytes), src, bytes, dst, count)
    {
      bytes := bytes[..dst] + bytes[src..src + count] + bytes[dst + count..];
    }

    /** `rt_smem_realloc` of the used block `i` to `n` bytes, already rounded: kept, cut down in place, or moved. */
    method ResizeBlock(rmem: nat, n: nat, ghost i: nat) returns (r: Option<nat>)
      requires Valid() && i < |blocks| && blocks[i].used && rmem == blocks[i].at + c.hdr && 0 < n <= memSize && n % c.align == 0
      requires rmem <= NextAt(blocks, End(), i)
      modifies this
      ensures Valid() && Resized(c, End(), i, n, old(blocks), old(bytes), old(history), r, blocks, bytes, history)
    {
      var size := SizeOf(rmem - c.hdr, i);
      if size == n || n + c.hdr + c.minSize < size {
        KeepInPlace(rmem, n, size, i);
        r := Some(rmem);
      } else {
        r := Move(rmem, n, size, i);
      }
    }

    method KeepInPlace(rmem: nat, n: nat, size: nat, ghost i: nat)
      requires Valid() && i < |blocks| && blocks[i].used && rmem == blocks[i].at + c.hdr && 0 < n <= memSize && n % c.align == 0
      requires size == NextAt(blocks, End(), i) - rmem && rmem + size <= |bytes| && (size == n || n + c.hdr + c.minSize < size)
      modifies this
      ensures Valid() && Resized(c, End(), i, n, old(blocks), old(bytes), old(history), Some(rmem), blocks, bytes, history)
    {
      ghost var bs, h0 := blocks, history;
      if size != n {
        Shrink(rmem - c.hdr, n, i);
      }
      StaysPut(c, memSize + c.hdr, i, n, size, bs, bytes, h0, rmem, blocks, history);
    }

    /** The data bytes of block `i` at `ptr`. */
    method SizeOf(ptr: nat, ghost i: nat) returns (size: nat)
      requires Valid() && i < |blocks| && ptr == blocks[i].at
      ensures size == DataSize(i) == NextAt(blocks, End(), i) - ptr - c.hdr && ptr + c.hdr + size <= |bytes|
    {
      DataInside(i, Some(ptr + c.hdr));
      NextLinked(items, blocks, memSize + c.hdr, SmallEnds(memSize + c.hdr), i);
      size := items[ptr].next - ptr - c.hdr;
    }

    /** `rt_smem_realloc` of the used block `i`, or of a null pointer; kept bytes move with the block. */
    method Realloc(rmem: Option<nat>, newSize: nat, ghost i: nat) returns (r: Option<nat>)
      requires Valid() && (rmem.Some? ==> i < |blocks| && blocks[i].used && rmem.value == blocks[i].at + c.hdr)
      modifies this
      ensures Valid()
      ensures rmem.None? ==> Allocated(c, End(), Rounded(newSize), old(blocks), old(bytes), old(history), r, blocks, bytes, history)
      ensures rmem.None? ==> AllocTells(c, End(), Rounded(newSize), old(blocks), r, blocks)
      ensures rmem.Some? ==> old(blocks[i].at) + c.hdr <= NextAt(old(blocks), End(), i)
      ensures rmem.Some? ==> Resized(c, End(), i, Rounded(newSize), old(blocks), old(bytes), old(history), r, blocks, bytes, history)
      ensures rmem.Some? ==> ResizeTells(c, End(), Rounded(newSize), old(blocks), old(blocks[i].at), NextAt(old(blocks), End(), i), r, blocks)
    {
      ghost var bs, b0, h0 := blocks, bytes, history;
      var n := RoundUp(newSize, c.align);
      RoundUpIs(newSize, c.align);
      if rmem == None {
        r := ReallocNull(n);
        AllocatedTells(c, memSize + c.hdr, n, bs, b0, h0, r, blocks, bytes, history);
      } else {
        r := ReallocBlock(rmem.value, n, i);
        ResizedTells(c, memSize + c.hdr, i, n, bs, b0, h0, r, blocks, bytes, history);
      }
    }

    method ReallocNull(n: nat) returns (r: Option<nat>)
      requires Valid()
      modifies this
      ensures Valid() && Allocated(c, End(), n, old(blocks), old(bytes), old(history), r, blocks, bytes, history)
    {
      if n > memSize {
        AllocTooBig(c, blocks, memSize + c.hdr, n);
        return None;
      }
      r := Alloc(n);
    }

    method ReallocBlock(rmem: nat, n: nat, ghost i: nat) returns (r: Option<nat>)
      requires Valid() && i < |blocks| && blocks[i].used && rmem == blocks[i].at + c.hdr && n % c.align == 0
      modifies this
      ensures Valid() && old(blocks[i].at) + c.hdr <= NextAt(old(blocks), End(), i)
      ensures Resized(c, End(), i, n, old(blocks), old(bytes), old(history), r, blocks, bytes, history)
    {
      DataInside(i, Some(rmem));
      if n > memSize {
        TooBig(c, memSize + c.hdr, i, n, blocks, bytes, history);
        return None;
      }
      if n == 0 {
        Free(Some(rmem), i);
        return None;
      }
      r := ResizeBlock(rmem, n, i);
    }
  }
}
