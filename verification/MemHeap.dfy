/** The memheap allocator on its block ring and free list, each method proved against the partition. */
module MemHeap {
  import opened Bytes
  import opened Lists
  import opened Alignment
  import opened Blocks
  import opened BlockLinks
  import opened MemHeapModel
  import opened MemHeapKept
  import opened MemHeapLive

  /** The blocks and the tailer form a ring. */
  function Ring(e: nat): Ends { Ends(e, 0, true) }

  function Larger(a: int, b: int): int { if a < b then b else a }

  /** What marking the used block `i` free gives. */
  lemma ReleaseReady(c: Config, items: map<nat, Item>, bs: seq<Block>, e: nat, i: nat, fl: seq<nat>)
    requires Heap(c, bs, e) && Linked(items, bs, e, Ring(e)) && FreeListOk(fl, bs) && i < |bs| && bs[i].used
    ensures Ascending(bs, e) && LinkedAt(items, bs, e, Ring(e), i) && bs[i].at + c.hdr <= NextAt(bs, e, i)
    ensures Heap(c, FreeBlock(bs, i), e)
    ensures var bs1 := bs[i := Block(bs[i].at, false)];
            && FreeBlock(bs, i) == PlugHoles(bs1, i)
            && FreeListBut(fl, bs1, Some(bs[i].at))
            && FreeData(c, bs1, e) == FreeData(c, bs, e) + NextAt(bs, e, i) - bs[i].at - c.hdr
            && bs[i].at in Headers(bs, e) && Headers(bs1, e) == Headers(bs, e)
  {
    TiledAscends(c, bs, e);
    NextLinked(items, bs, e, Ring(e), i);
    MarkListOk(bs, e, i, fl);
    MarkTotal(bs, e, i, false, false, c.hdr);
    MarkHeaders(bs, e, i, false);
    FreeBlockHeap(c, bs, e, i);
    assert bs[i := Block(bs[i].at, false)] == bs[i := bs[i].(used := false)];
    assert bs[i].at + c.hdr <= NextAt(bs, e, i);
  }

  /** A pool that is one free block. */
  lemma FreshPool(c: Config, e: nat, bs: seq<Block>)
    requires ConfigOk(c) && e % c.align == 0 && e >= c.hdr && bs == [Block(0, false)]
    ensures Heap(c, bs, e) && FreeListOk([0], bs) && FreeData(c, bs, e) == e - c.hdr
    ensures Linked(map[0 := Item(false, e, e), e := Item(true, 0, 0)], bs, e, Ring(e)) && Peak(c, e, [bs]) == 2 * c.hdr
  {
    assert NextAt(bs, e, 0) == e;
    TotalOne(Block(0, false), e, false, c.hdr);
    assert IsFree(bs, 0) by { assert bs[0].at == 0; }
  }

  class MemHeap {
    const c: Config
    /** Where the tailer's header starts; the pool ends behind it. */
    const tail: nat
    var items: map<nat, Item>
    var freeList: seq<nat>
    var available: int
    var maxUsed: int
    var bytes: seq<bv8>
    ghost var blocks: seq<Block>
    /** The partitions the heap has been in, the present one last. */
    ghost var history: seq<seq<Block>>

    /** The ring matches the partition. */
    ghost predicate Ringed()
      reads this
    {
      Ascending(blocks, tail) && Linked(items, blocks, tail, Ring(tail))
    }

    ghost predicate Valid()
      reads this
    {
      Core() && history != [] && history[|history| - 1] == blocks && maxUsed == Peak(c, tail, history)
    }

    ghost predicate Core()
      reads this
    {
      && Heap(c, blocks, tail) && c.minData > 0
      && Linked(items, blocks, tail, Ring(tail))
      && FreeListOk(freeList, blocks)
      && available == FreeData(c, blocks, tail)
      && tail + c.hdr - available <= maxUsed
      && |bytes| == tail + c.hdr
    }

    /** `rt_memheap_init` of a pool with room for two headers. */
    constructor (c: Config, size: nat)
      requires ConfigOk(c) && c.minData > 0 && RoundDown(size, c.align) >= 2 * c.hdr
      ensures Valid() && this.c == c && tail == RoundDown(size, c.align) - c.hdr
      ensures blocks == [Block(0, false)] && freeList == [0] && maxUsed == 2 * c.hdr && history == [blocks]
    {
      this.c := c;
      var pool := RoundDown(size, c.align);
      var e := pool - c.hdr;
      RoundDownIs(size, c.align);
      SubAligned(pool, c.hdr, c.align);
      tail := e;
      available := e - c.hdr;
      maxUsed := 2 * c.hdr;
      items := map[0 := Item(false, e, e), e := Item(true, 0, 0)];
      freeList := [0];
      bytes := seq(pool, _ => 0);
      blocks := [Block(0, false)];
      history := [[Block(0, false)]];
      FreshPool(c, e, [Block(0, false)]);
    }

    // ----- header writes -----

    method Put(at: nat, item: Item)
      modifies `items, `bytes
      ensures items == old(items)[at := item] && Kept(old(bytes), bytes, c.hdr, {at})
    {
      items := items[at := item];
      bytes := seq(|bytes|, k requires 0 <= k < |bytes| reads this => if at <= k < at + c.hdr then 0 else bytes[k]);
      forall k | 0 <= k < |bytes| ensures KeptAt(old(bytes), bytes, c.hdr, {at}, 0, 0, k) {
        assert at in {at};
      }
    }

    /** Linking a new free block at `p2` behind the block at `p`. */
    method LinkAfter(p: nat, p2: nat, ghost i: nat)
      requires Ringed() && i < |blocks| && p == blocks[i].at && p < p2 < NextAt(blocks, tail, i)
      modifies `items, `bytes, `blocks
      ensures Ringed() && blocks == CutOff(old(blocks), i, p2)
      ensures Kept(old(bytes), bytes, c.hdr, Headers(old(blocks), tail) + Headers(blocks, tail))
    {
      CutOffHeaders(blocks, tail, i, p2);
      NextLinked(items, blocks, tail, Ring(tail), i);
      SplitLinks(items, blocks, tail, Ring(tail), i, p2);
      SplitAscends(blocks, tail, i, p2);
      ghost var was, b0 := items, bytes;
      var r := items[p].next;
      ghost var hs := Headers(blocks, tail) + Headers(CutOff(blocks, i, p2), tail);
      Put(p2, Item(false, r, p));
      ghost var b1 := bytes;
      Put(r, items[r].(prev := p2));
      ghost var b2 := bytes;
      KeptTwice(b0, b1, b2, c.hdr, {p2}, {r}, hs);
      Put(p, items[p].(next := p2));
      KeptTwice(b0, b2, bytes, c.hdr, hs, {p}, hs);
      blocks := CutOff(blocks, i, p2);
      assert items == Split(was, p, p2, tail, Ring(tail));
    }

    /** Unlinking the block at `q` behind the one at `p` from the ring. */
    method UnlinkAfter(p: nat, q: nat, ghost i: nat)
      requires Ringed() && i + 1 < |blocks| && p == blocks[i].at && q == blocks[i + 1].at
      modifies `items, `bytes, `blocks
      ensures Ringed() && blocks == Swallow(old(blocks), i)
      ensures Kept(old(bytes), bytes, c.hdr, Headers(old(blocks), tail))
    {
      SwallowHeaders(blocks, tail, i);
      NextLinked(items, blocks, tail, Ring(tail), i);
      NextLinked(items, blocks, tail, Ring(tail), i + 1);
      JoinedLinks(items, blocks, tail, Ring(tail), i);
      SwallowAscends(blocks, tail, i);
      ghost var was, b0 := items, bytes;
      var r := items[q].next;
      ghost var hs := Headers(blocks, tail);
      Put(p, items[p].(next := r));
      ghost var b1 := bytes;
      Put(r, items[r].(prev := p));
      KeptTwice(b0, b1, bytes, c.hdr, {p}, {r}, hs);
      items := items - {q};
      blocks := Swallow(blocks, i);
      assert items == Joined(was, p, q);
    }

    method Mark(p: nat, used: bool, ghost i: nat)
      requires Ringed() && i < |blocks| && p == blocks[i].at
      modifies `items, `bytes, `blocks
      ensures Ringed() && blocks == old(blocks)[i := Block(p, used)]
      ensures Kept(old(bytes), bytes, c.hdr, Headers(old(blocks), tail)) && Headers(blocks, tail) == Headers(old(blocks), tail)
    {
      MarkLinks(items, blocks, tail, Ring(tail), i, used);
      MarkHeaders(blocks, tail, i, used);
      MarkAscends(blocks, tail, i, used);
      ghost var b0 := bytes;
      Put(p, items[p].(used := used));
      KeptMore(b0, bytes, c.hdr, {p}, Headers(blocks, tail));
      blocks := blocks[i := Block(p, used)];
    }

    // ----- allocation -----

    /** The walk over the free list: the first listed block of at least `size` bytes. */
    method Search(size: nat) returns (r: Option<nat>, ghost i: nat)
      requires Core() && size > 0
      ensures r.Some? ==> FirstListed(c, blocks, tail, freeList, size, i) && r.value == blocks[i].at
      ensures r.None? ==> forall j :: 0 <= j < |blocks| ==> !Fits(c, blocks, tail, j, size)
    {
      TiledAscends(c, blocks, tail);
      var freeSize := 0;
      var j := 0;
      i := 0;
      while j < |freeList| && freeSize < size
        invariant 0 <= j <= |freeList|
        invariant forall k :: 0 <= k < j ==> TooSmall(c, blocks, tail, size, freeList[k])
        invariant freeSize >= size ==> j < |freeList| && i < |blocks| && freeList[j] == blocks[i].at && Fits(c, blocks, tail, i, size)
        decreases |freeList| - j, size - freeSize
      {
        var p := freeList[j];
        assert IsFree(blocks, p);
        i :| 0 <= i < |blocks| && blocks[i].at == p && !blocks[i].used;
        NextLinked(items, blocks, tail, Ring(tail), i);
        freeSize := items[p].next - p - c.hdr;
        if freeSize < size {
          forall k | 0 <= k < |blocks| && blocks[k].at == p ensures k == i { Apart(blocks, tail, k, i); }
          assert TooSmall(c, blocks, tail, size, p);
          j := j + 1;
        }
      }
      if freeSize >= size {
        return Some(freeList[j]), i;
      }
      NothingFits(c, blocks, tail, freeList, size);
      r := None;
    }

    /** Taking the free block `i` for `size` bytes. */
    method TakeCore(p: nat, size: nat, ghost i: nat)
      requires Core() && i < |blocks| && p == blocks[i].at && Fits(c, blocks, tail, i, size) && size % c.align == 0
      modifies `items, `bytes, `blocks, `freeList, `available, `maxUsed
      ensures Core() && blocks == TakeBlock(c, old(blocks), tail, i, size)
      ensures freeList == TakeList(c, old(blocks), tail, i, size, old(freeList))
      ensures maxUsed == Larger(old(maxUsed), tail + c.hdr - available)
      ensures Kept(old(bytes), bytes, c.hdr, Headers(old(blocks), tail) + Headers(blocks, tail))
    {
      TiledAscends(c, blocks, tail);
      TakeBlockHeap(c, blocks, tail, i, size);
      TakeListOk(c, blocks, tail, i, size, freeList);
      TakeAvailable(c, blocks, tail, i, size);
      NextLinked(items, blocks, tail, Ring(tail), i);
      var freeSize := items[p].next - p - c.hdr;
      if freeSize >= size + c.hdr + c.minData {
        freeList := [p + c.hdr + size] + Without<nat>(freeList, p);
        available := available - size - c.hdr;
      } else {
        available := available - freeSize;
        freeList := Without<nat>(freeList, p);
      }
      if tail + c.hdr - available > maxUsed { maxUsed := tail + c.hdr - available; }
      TakeHeader(p, size, freeSize >= size + c.hdr + c.minData, i);
    }

    /** The heap has reached a new partition. */
    ghost method Record()
      requires Core() && history != [] && maxUsed == Larger(Peak(c, tail, history), tail + c.hdr - available)
      modifies `history
      ensures Valid() && history == old(history) + [blocks]
    {
      PeakMore(c, tail, history, blocks);
      history := history + [blocks];
    }

    method Take(p: nat, size: nat, ghost i: nat)
      requires Valid() && i < |blocks| && p == blocks[i].at && Fits(c, blocks, tail, i, size) && size % c.align == 0
      modifies `items, `bytes, `blocks, `freeList, `available, `maxUsed, `history
      ensures Valid() && blocks == TakeBlock(c, old(blocks), tail, i, size) && history == old(history) + [blocks]
      ensures freeList == TakeList(c, old(blocks), tail, i, size, old(freeList))
      ensures Kept(old(bytes), bytes, c.hdr, Headers(old(blocks), tail) + Headers(blocks, tail))
      ensures OthersKept(c, tail, old(blocks), old(bytes), blocks, bytes, {})
    {
      ghost var bs, b0 := blocks, bytes;
      TakeCore(p, size, i);
      LivesTake(c, bs, tail, i, size, {});
      OthersFromHeaders(c, tail, bs, b0, blocks, bytes, {});
      Record();
    }

    /** The header writes of taking block `i`, split when `split` holds. */
    method TakeHeader(p: nat, size: nat, split: bool, ghost i: nat)
      requires Ringed() && c.hdr > 0 && i < |blocks| && p == blocks[i].at
      requires split == (|TakeBlock(c, blocks, tail, i, size)| > |blocks|)
      modifies `items, `bytes, `blocks
      ensures Ringed() && blocks == TakeBlock(c, old(blocks), tail, i, size)
      ensures Kept(old(bytes), bytes, c.hdr, Headers(old(blocks), tail) + Headers(blocks, tail))
    {
      ghost var bs, b0 := blocks, bytes;
      ghost var hs := Headers(bs, tail) + Headers(TakeBlock(c, bs, tail, i, size), tail);
      if split {
        LinkAfter(p, p + c.hdr + size, i);
      }
      ghost var bs1, b1 := blocks, bytes;
      Mark(p, true, i);
      assert blocks == TakeBlock(c, bs, tail, i, size);
      KeptTwice(b0, b1, bytes, c.hdr, Headers(bs, tail) + Headers(bs1, tail), Headers(bs1, tail), hs);
    }

    /** `rt_memheap_alloc`. */
    method Alloc(n: nat) returns (r: Option<nat>, ghost i: nat)
      requires Valid()
      modifies `items, `bytes, `blocks, `freeList, `available, `maxUsed, `history
      ensures Valid()
      ensures Allocated(c, tail, old(blocks), old(freeList), old(available), Request(c, n), r, i, blocks, freeList)
      ensures r.None? ==> unchanged(`items, `bytes, `blocks, `freeList, `available, `maxUsed, `history)
      ensures r.Some? ==> history == old(history) + [blocks]
      ensures Kept(old(bytes), bytes, c.hdr, Headers(old(blocks), tail) + Headers(blocks, tail))
      ensures OthersKept(c, tail, old(blocks), old(bytes), blocks, bytes, {})
    {
      OthersSelf(c, tail, blocks, bytes, {});
      var size := Request(c, n);
      RequestAligned(c, n);
      if size < available {
        r, i := AllocFit(size);
        return;
      }
      r, i := None, 0;
    }

    /** The first listed block that fits is taken; nothing happens when there is none. */
    method AllocFit(size: nat) returns (r: Option<nat>, ghost i: nat)
      requires Valid() && size % c.align == 0 && size > 0
      modifies `items, `bytes, `blocks, `freeList, `available, `maxUsed, `history
      ensures Valid()
      ensures r.None? ==> unchanged(`items, `bytes, `blocks, `freeList, `available, `maxUsed, `history)
      ensures r.None? ==> forall k :: 0 <= k < |blocks| ==> !Fits(c, blocks, tail, k, size)
      ensures r.Some? ==> FirstListed(c, old(blocks), tail, old(freeList), size, i) && r == Some(old(blocks)[i].at + c.hdr)
      ensures r.Some? ==> blocks == TakeBlock(c, old(blocks), tail, i, size) && freeList == TakeList(c, old(blocks), tail, i, size, old(freeList))
      ensures r.Some? ==> history == old(history) + [blocks]
      ensures Kept(old(bytes), bytes, c.hdr, Headers(old(blocks), tail) + Headers(blocks, tail))
      ensures OthersKept(c, tail, old(blocks), old(bytes), blocks, bytes, {})
    {
      OthersSelf(c, tail, blocks, bytes, {});
      var p;
      p, i := Search(size);
      if p == None { return None, 0; }
      Take(p.value, size, i);
      r := Some(p.value + c.hdr);
    }

    // ----- release -----

    /** The free block at `p` swallows its free successor at `q`, with one header more to give. */
    method Absorb(p: nat, q: nat, ghost i: nat, ghost skip: Option<nat>)
      requires Ringed() && i + 1 < |blocks| && p == blocks[i].at && q == blocks[i + 1].at
      requires !blocks[i].used && !blocks[i + 1].used && FreeListBut(freeList, blocks, skip)
      modifies `items, `bytes, `blocks, `available
      ensures Ringed() && blocks == Swallow(old(blocks), i)
      ensures skip == Some(q) ==> FreeListOk(freeList, blocks)
      ensures skip != Some(q) ==> FreeListBut(Without(freeList, q), blocks, skip)
      ensures available - FreeData(c, blocks, tail) == old(available - FreeData(c, blocks, tail)) && available >= old(available)
      ensures Kept(old(bytes), bytes, c.hdr, Headers(old(blocks), tail)) && Headers(blocks, tail) <= Headers(old(blocks), tail)
    {
      MergeNextTotal(blocks, tail, i, false, c.hdr);
      SwallowListOk(blocks, tail, i, freeList, skip);
      SwallowHeaders(blocks, tail, i);
      available := available + c.hdr;
      UnlinkAfter(p, q, i);
    }

    /** The free block `i` at `h` swallows its successor when that is free too. */
    method MergeRight(h: nat, ghost i: nat, ghost skip: Option<nat>)
      requires Ringed() && i < |blocks| && h == blocks[i].at && !blocks[i].used
      requires FreeListBut(freeList, blocks, skip) && (skip == None || skip == Some(h))
      modifies `items, `bytes, `blocks, `freeList, `available
      ensures Ringed() && blocks == MergeNext(old(blocks), i)
      ensures FreeListBut(freeList, blocks, skip) && freeList == WithoutRight(old(blocks), i, old(freeList))
      ensures available - FreeData(c, blocks, tail) == old(available - FreeData(c, blocks, tail)) && available >= old(available)
      ensures Kept(old(bytes), bytes, c.hdr, Headers(old(blocks), tail))
    {
      NextLinked(items, blocks, tail, Ring(tail), i);
      var q := items[h].next;
      if !items[q].used {
        Apart(blocks, tail, i, i + 1);
        Absorb(h, q, i, skip);
        freeList := Without<nat>(freeList, q);
      }
    }

    /** The free block `i` at `p`, not yet listed, is swallowed by its predecessor when that is free. */
    method MergeLeft(p: nat, ghost i: nat) returns (h: nat, insert: bool, ghost j: nat)
      requires Ringed() && i < |blocks| && p == blocks[i].at && !blocks[i].used
      requires FreeListBut(freeList, blocks, Some(p))
      modifies `items, `bytes, `blocks, `available
      ensures Ringed() && insert == !LeftFree(old(blocks), i)
      ensures insert ==> h == p && j == i && blocks == old(blocks) && FreeListBut(freeList, blocks, Some(p))
      ensures !insert ==> j == i - 1 && h == old(blocks)[j].at && blocks == Swallow(old(blocks), j) && FreeListOk(freeList, blocks)
      ensures available - FreeData(c, blocks, tail) == old(available - FreeData(c, blocks, tail)) && available >= old(available)
      ensures Kept(old(bytes), bytes, c.hdr, Headers(old(blocks), tail)) && Headers(blocks, tail) <= Headers(old(blocks), tail)
    {
      NextLinked(items, blocks, tail, Ring(tail), i);
      var prev := items[p].prev;
      if !items[prev].used {
        Absorb(prev, p, i - 1, Some(p));
        return prev, false, i - 1;
      }
      return p, true, i;
    }

    /** Joining the free block `i` at `p`, not yet listed, with its free neighbours and listing the result. */
    method Coalesce(p: nat, ghost i: nat)
      requires Ringed() && i < |blocks| && p == blocks[i].at && !blocks[i].used
      requires FreeListBut(freeList, blocks, Some(p))
      modifies `items, `bytes, `blocks, `freeList, `available
      ensures Ringed() && blocks == PlugHoles(old(blocks), i)
      ensures FreeListOk(freeList, blocks) && freeList == ReleaseList(old(blocks), i, old(freeList))
      ensures available - FreeData(c, blocks, tail) == old(available - FreeData(c, blocks, tail)) && available >= old(available)
      ensures Kept(old(bytes), bytes, c.hdr, Headers(old(blocks), tail))
    {
      ghost var bs, b0 := blocks, bytes;
      var h, insert, j := MergeLeft(p, i);
      ghost var bs1, b1 := blocks, bytes;
      MergeRight(h, j, if insert then Some(p) else None);
      KeptTwice(b0, b1, bytes, c.hdr, Headers(bs, tail), Headers(bs1, tail), Headers(bs, tail));
      LeftThenRight(bs, i);
      if insert {
        assert blocks[i].at == h && !blocks[i].used;
        PushOk(freeList, blocks, h);
        freeList := [h] + freeList;
      }
    }

    /** `rt_memheap_free` of the used block `i`; a null pointer is ignored. */
    method Free(ptr: Option<nat>, ghost i: nat)
      requires Valid() && (ptr.Some? ==> i < |blocks| && blocks[i].used && ptr.value == blocks[i].at + c.hdr)
      modifies `items, `bytes, `blocks, `freeList, `available, `history
      ensures Valid() && available >= old(available)
      ensures ptr.None? ==> unchanged(`items, `bytes, `blocks, `freeList, `available, `history)
      ensures ptr.Some? ==> blocks == FreeBlock(old(blocks), i) && freeList == ReleaseList(old(blocks), i, old(freeList)) && history == old(history) + [blocks]
      ensures Kept(old(bytes), bytes, c.hdr, Headers(old(blocks), tail))
      ensures ptr.Some? ==> OthersKept(c, tail, old(blocks), old(bytes), blocks, bytes, {ptr.value - c.hdr})
    {
      if ptr == None { return; }
      Release(ptr.value - c.hdr, i);
    }

    /** Marking the used block `i` free and joining it with its free neighbours. */
    method ReleaseCore(p: nat, ghost i: nat)
      requires Core() && i < |blocks| && blocks[i].used && p == blocks[i].at
      modifies `items, `bytes, `blocks, `freeList, `available
      ensures Core() && available >= old(available)
      ensures blocks == FreeBlock(old(blocks), i) && freeList == ReleaseList(old(blocks), i, old(freeList))
      ensures Kept(old(bytes), bytes, c.hdr, Headers(old(blocks), tail))
    {
      ghost var bs, b0 := blocks, bytes;
      ReleaseReady(c, items, bs, tail, i, freeList);
      available := available + (items[p].next - p - c.hdr);
      Mark(p, false, i);
      ghost var b1 := bytes;
      ReleaseListMark(blocks, bs, i, freeList);
      Coalesce(p, i);
      KeptTwice(b0, b1, bytes, c.hdr, Headers(bs, tail), Headers(bs, tail), Headers(bs, tail));
    }

    method Release(p: nat, ghost i: nat)
      requires Valid() && i < |blocks| && blocks[i].used && p == blocks[i].at
      modifies `items, `bytes, `blocks, `freeList, `available, `history
      ensures Valid() && available >= old(available) && history == old(history) + [blocks]
      ensures blocks == FreeBlock(old(blocks), i) && freeList == ReleaseList(old(blocks), i, old(freeList))
      ensures Kept(old(bytes), bytes, c.hdr, Headers(old(blocks), tail))
      ensures OthersKept(c, tail, old(blocks), old(bytes), blocks, bytes, {p})
    {
      ghost var bs, b0 := blocks, bytes;
      ReleaseCore(p, i);
      LivesFree(bs, tail, i);
      KeptMore(b0, bytes, c.hdr, Headers(bs, tail), Headers(bs, tail) + Headers(blocks, tail));
      OthersFromHeaders(c, tail, bs, b0, blocks, bytes, {p});
      Record();
    }

    // ----- resizing -----

    ghost function DataSize(i: nat): int
      requires i < |blocks|
      reads this
    {
      NextAt(blocks, tail, i) - blocks[i].at - c.hdr
    }

    /** The header writes of growing block `i` over its free successor at `next`. */
    method GrowHeader(p: nat, next: nat, n: nat, ghost i: nat)
      requires Ringed() && i + 1 < |blocks| && p == blocks[i].at && next == blocks[i + 1].at && c.hdr > 0
      requires p + c.hdr + n < NextAt(blocks, tail, i + 1)
      modifies `items, `bytes, `blocks
      ensures Ringed() && blocks == GrowBlock(c, old(blocks), i, n)
      ensures Kept(old(bytes), bytes, c.hdr, Headers(old(blocks), tail) + Headers(blocks, tail))
    {
      ghost var bs, b0 := blocks, bytes;
      SwallowHeaders(bs, tail, i);
      GrowIs(c, bs, i, n);
      ghost var o := SwallowAt(bs, tail, i, i);
      UnlinkAfter(p, next, i);
      ghost var bs1, b1 := blocks, bytes;
      LinkAfter(p, p + c.hdr + n, i);
      ghost var hs := Headers(bs, tail) + Headers(blocks, tail);
      KeptTwice(b0, b1, bytes, c.hdr, Headers(bs, tail), Headers(bs1, tail) + Headers(blocks, tail), hs);
    }

    /** The in-place growth of `rt_memheap_realloc`. */
    method GrowCore(p: nat, n: nat, ghost i: nat)
      requires Core() && i < |blocks| && blocks[i].used && p == blocks[i].at && n % c.align == 0
      requires Growable(c, blocks, tail, i, n)
      modifies `items, `bytes, `blocks, `freeList, `available, `maxUsed
      ensures Core() && blocks == GrowBlock(c, old(blocks), i, n)
      ensures freeList == ResizeList(c, old(blocks), i, n, old(freeList))
      ensures maxUsed == Larger(old(maxUsed), tail + c.hdr - available)
      ensures Kept(old(bytes), bytes, c.hdr, Headers(old(blocks), tail) + Headers(blocks, tail))
    {
      TiledAscends(c, blocks, tail);
      NextLinked(items, blocks, tail, Ring(tail), i);
      GrowHeap(c, blocks, tail, i, n);
      GrowTotal(c, blocks, tail, i, n);
      GrowListOk(c, blocks, tail, i, n, freeList);
      var next := items[p].next;
      available := available - (n - (next - p - c.hdr));
      if tail + c.hdr - available > maxUsed { maxUsed := tail + c.hdr - available; }
      freeList := [p + c.hdr + n] + Without<nat>(freeList, next);
      GrowHeader(p, next, n, i);
    }

    method Grow(p: nat, n: nat, ghost i: nat)
      requires Valid() && i < |blocks| && blocks[i].used && p == blocks[i].at && n % c.align == 0
      requires Growable(c, blocks, tail, i, n)
      modifies `items, `bytes, `blocks, `freeList, `available, `maxUsed, `history
      ensures Valid() && blocks == GrowBlock(c, old(blocks), i, n) && history == old(history) + [blocks]
      ensures freeList == ResizeList(c, old(blocks), i, n, old(freeList))
      ensures Kept(old(bytes), bytes, c.hdr, Headers(old(blocks), tail) + Headers(blocks, tail))
      ensures OthersKept(c, tail, old(blocks), old(bytes), blocks, bytes, {p})
    {
      ghost var bs, b0 := blocks, bytes;
      GrowCore(p, n, i);
      LivesGrow(c, bs, tail, i, n);
      OthersFromHeaders(c, tail, bs, b0, blocks, bytes, {p});
      Record();
    }

    /** The header writes of cutting block `i` down to `n` bytes; the rest swallows a free successor. */
    method ShrinkHeader(p: nat, n: nat, rightFree: bool, ghost i: nat)
      requires Ringed() && i < |blocks| && blocks[i].used && p == blocks[i].at && c.hdr > 0
      requires rightFree == RightFree(blocks, i) && p + c.hdr + n < NextAt(blocks, tail, i)
      modifies `items, `bytes, `blocks
      ensures Ringed() && blocks == CutDown(c, old(blocks), i, n)
      ensures Kept(old(bytes), bytes, c.hdr, Headers(old(blocks), tail) + Headers(blocks, tail))
    {
      ghost var bs, b0 := blocks, bytes;
      NextLinked(items, bs, tail, Ring(tail), i);
      var next := items[p].next;
      LinkAfter(p, p + c.hdr + n, i);
      if rightFree {
        var p2 := p + c.hdr + n;
        ghost var b1 := bytes;
        assert blocks[i + 1].at == p2 && blocks[i + 2].at == next;
        UnlinkAfter(p2, next, i + 1);
        CutDownKept(c, b0, b1, bytes, bs, tail, i, n);
      }
    }

    /** The in-place shrink of `rt_memheap_realloc`. */
    method ShrinkCore(p: nat, n: nat, ghost i: nat)
      requires Core() && i < |blocks| && blocks[i].used && p == blocks[i].at && n % c.align == 0
      requires n + c.hdr <= DataSize(i)
      modifies `items, `bytes, `blocks, `freeList, `available
      ensures Core() && blocks == CutDown(c, old(blocks), i, n) && available >= old(available)
      ensures freeList == ResizeList(c, old(blocks), i, n, old(freeList))
      ensures Kept(old(bytes), bytes, c.hdr, Headers(old(blocks), tail) + Headers(blocks, tail))
    {
      TiledAscends(c, blocks, tail);
      NextLinked(items, blocks, tail, Ring(tail), i);
      CutDownHeap(c, blocks, tail, i, n);
      CutDownListOk(c, blocks, tail, i, n, freeList);
      var next := items[p].next;
      var p2 := p + c.hdr + n;
      var end := next;
      var rightFree := !items[next].used;
      if rightFree {
        NextLinked(items, blocks, tail, Ring(tail), i + 1);
        end := items[next].next;
        available := available - (end - next - c.hdr);
        freeList := Without<nat>(freeList, next);
      }
      freeList := [p2] + freeList;
      available := available + (end - p2 - c.hdr);
      ShrinkHeader(p, n, rightFree, i);
    }

    method Shrink(p: nat, n: nat, ghost i: nat)
      requires Valid() && i < |blocks| && blocks[i].used && p == blocks[i].at && n % c.align == 0
      requires n + c.hdr <= DataSize(i)
      modifies `items, `bytes, `blocks, `freeList, `available, `history
      ensures Valid() && blocks == CutDown(c, old(blocks), i, n) && available >= old(available) && history == old(history) + [blocks]
      ensures freeList == ResizeList(c, old(blocks), i, n, old(freeList))
      ensures Kept(old(bytes), bytes, c.hdr, Headers(old(blocks), tail) + Headers(blocks, tail))
      ensures OthersKept(c, tail, old(blocks), old(bytes), blocks, bytes, {p})
    {
      ghost var bs, b0 := blocks, bytes;
      ShrinkCore(p, n, i);
      LivesCutDown(c, bs, tail, i, n);
      OthersFromHeaders(c, tail, bs, b0, blocks, bytes, {p});
      Record();
    }

    /** `rt_memcpy` into the data of block `j`, which starts at `q`. */
    method CopyBytes(q: nat, dst: nat, src: nat, count: nat, ghost j: nat)
      requires Valid() && src + count <= |bytes| && j < |blocks| && q == blocks[j].at && dst == q + c.hdr && dst + count <= NextAt(blocks, tail, j) <= |bytes|
      modifies `bytes
      ensures Valid() && Copied(old(bytes), src, bytes, dst, count)
      ensures OthersKept(c, tail, blocks, old(bytes), blocks, bytes, {q})
    {
      ghost var was := bytes;
      bytes := bytes[..dst] + bytes[src..src + count] + bytes[dst + count..];
      CopyKeeps(c, tail, blocks, was, bytes, src, j, dst, count);
    }

    /** The bytes of the used block `i` at `p` copied into block `j` at `q`, and block `i` freed. */
    method CopyAndRelease(p: nat, q: nat, dst: nat, size: nat, ghost i: nat, ghost j: nat) returns (ghost copied: seq<bv8>)
      requires Valid() && i < |blocks| && blocks[i].used && p == blocks[i].at && p + c.hdr + size <= |bytes|
      requires j < |blocks| && q == blocks[j].at && dst == q + c.hdr && dst + size <= NextAt(blocks, tail, j) <= |bytes|
      modifies `items, `bytes, `blocks, `freeList, `available, `history
      ensures Valid() && blocks == FreeBlock(old(blocks), i) && freeList == ReleaseList(old(blocks), i, old(freeList)) && history == old(history) + [blocks]
      ensures Copied(old(bytes), p + c.hdr, copied, dst, size) && Kept(copied, bytes, c.hdr, Headers(old(blocks), tail))
      ensures OthersKept(c, tail, old(blocks), old(bytes), old(blocks), copied, {q})
      ensures OthersKept(c, tail, old(blocks), copied, blocks, bytes, {p})
    {
      CopyBytes(q, dst, p + c.hdr, size, j);
      copied := bytes;
      Release(p, i);
    }

    /** The moving path of `rt_memheap_realloc`: a new block, the bytes copied, the old block freed. */
    method Move(p: nat, n: nat, size: nat, ghost i: nat) returns (r: Option<nat>, ghost j: nat)
      requires Valid() && i < |blocks| && blocks[i].used && p == blocks[i].at
      requires n == Request(c, n) && size == DataSize(i) && size < n
      modifies `items, `bytes, `blocks, `freeList, `available, `maxUsed, `history
      ensures Valid()
      ensures Moved(c, tail, old(blocks), old(freeList), old(available), i, n, r, j, blocks, freeList)
      ensures r.None? ==> unchanged(`items, `bytes, `blocks, `freeList, `available, `maxUsed, `history)
      ensures r.Some? ==> history == old(history) + [TakeBlock(c, old(blocks), tail, j, n), blocks]
      ensures r.Some? ==> MovedBytes(old(bytes), p + c.hdr, bytes, r.value, size)
      ensures OthersKept(c, tail, old(blocks), old(bytes), blocks, bytes, {p})
    {
      ghost var bs, b0 := blocks, bytes;
      r, j := Alloc(n);
      if r == None {
        OthersSelf(c, tail, bs, b0, {p});
        return;
      }
      ghost var mid := blocks;
      MoveTaken(p, r.value - c.hdr, r.value, n, size, i, j, bs, b0);
      TwoMore(old(history), mid, blocks);
    }

    /** The rest of a move, once block `j` of the partition `bs` was taken. */
    method MoveTaken(p: nat, q: nat, dst: nat, n: nat, size: nat, ghost i: nat, ghost j: nat, ghost bs: seq<Block>, ghost b0: seq<bv8>)
      requires Valid() && Heap(c, bs, tail) && i < |bs| && bs[i].used && p == bs[i].at && size == NextAt(bs, tail, i) - p - c.hdr && size < n
      requires j < |bs| && Fits(c, bs, tail, j, n) && q == bs[j].at && dst == q + c.hdr && blocks == TakeBlock(c, bs, tail, j, n)
      requires Kept(b0, bytes, c.hdr, Headers(bs, tail) + Headers(blocks, tail)) && OthersKept(c, tail, bs, b0, blocks, bytes, {})
      modifies `items, `bytes, `blocks, `freeList, `available, `history
      ensures Valid() && blocks == MovedBlocks(c, bs, tail, i, j, n) && history == old(history) + [blocks]
      ensures freeList == ReleaseList(old(blocks), Shifted(c, bs, tail, j, n, i), old(freeList))
      ensures MovedBytes(b0, p + c.hdr, bytes, dst, size) && OthersKept(c, tail, bs, b0, blocks, bytes, {p})
    {
      ghost var i' := Shifted(c, bs, tail, j, n, i);
      MovePlaces(c, bs, blocks, tail, i, i', j, n, size);
      MoveOver(p, q, dst, size, i, i', j, bs, b0);
    }

    /** After block `j` of the partition `bs` was taken: block `i` is copied there and freed. */
    method MoveOver(p: nat, q: nat, dst: nat, size: nat, ghost i: nat, ghost i': nat, ghost j: nat, ghost bs: seq<Block>, ghost b0: seq<bv8>)
      requires Valid() && Heap(c, bs, tail) && MoveReady(c, bs, blocks, tail, i, i', j, size) && p == bs[i].at && q == bs[j].at && dst == q + c.hdr
      requires Kept(b0, bytes, c.hdr, Headers(bs, tail) + Headers(blocks, tail)) && OthersKept(c, tail, bs, b0, blocks, bytes, {})
      modifies `items, `bytes, `blocks, `freeList, `available, `history
      ensures Valid() && blocks == FreeBlock(old(blocks), i')
      ensures freeList == ReleaseList(old(blocks), i', old(freeList)) && history == old(history) + [blocks]
      ensures MovedBytes(b0, p + c.hdr, bytes, dst, size) && OthersKept(c, tail, bs, b0, blocks, bytes, {p})
    {
      ghost var mid, b1 := blocks, bytes;
      ghost var b2 := CopyAndRelease(p, q, dst, size, i', j);
      MoveDone(c, tail, bs, b0, mid, b1, b2, blocks, bytes, i, i', j, p, q, dst, size);
    }

    /** `rt_memheap_realloc` of the used block `i` to more bytes: in place when the free successor
        leaves enough, or by a move. */
    method Enlarge(p: nat, n: nat, size: nat, ghost i: nat) returns (r: Option<nat>, ghost j: nat)
      requires Valid() && i < |blocks| && blocks[i].used && p == blocks[i].at && n == Request(c, n)
      requires size == DataSize(i) && size < n
      modifies `items, `bytes, `blocks, `freeList, `available, `maxUsed, `history
      ensures Valid()
      ensures Resized(c, tail, old(blocks), old(freeList), old(available), i, n, r, j, blocks, freeList)
      ensures r.None? ==> unchanged(`items, `bytes, `blocks, `freeList, `available, `maxUsed, `history)
      ensures history == old(history) + Trail(c, old(blocks), tail, i, n, j, r, blocks)
      ensures r.Some? ==> MovedBytes(old(bytes), p + c.hdr, bytes, r.value, size)
      ensures OthersKept(c, tail, old(blocks), old(bytes), blocks, bytes, {p})
    {
      RequestAligned(c, n);
      var room := RoomToGrow(p, n, size, i);
      if room {
        GrowInPlace(p, n, size, i);
        return Some(p + c.hdr), 0;
      }
      r, j := Move(p, n, size, i);
    }

    /** Whether the block behind block `i` at `p` is free and large enough. */
    method RoomToGrow(p: nat, n: nat, size: nat, ghost i: nat) returns (room: bool)
      requires Valid() && i < |blocks| && blocks[i].used && p == blocks[i].at && size == DataSize(i)
      ensures room == Growable(c, blocks, tail, i, n)
    {
      NextLinked(items, blocks, tail, Ring(tail), i);
      var next := items[p].next;
      if items[next].used {
        return false;
      }
      NextLinked(items, blocks, tail, Ring(tail), i + 1);
      room := items[next].next - next - c.hdr + size > n + c.minData;
    }

    method GrowInPlace(p: nat, n: nat, size: nat, ghost i: nat)
      requires Valid() && i < |blocks| && blocks[i].used && p == blocks[i].at && n % c.align == 0
      requires size == DataSize(i) && size < n && Growable(c, blocks, tail, i, n)
      modifies `items, `bytes, `blocks, `freeList, `available, `maxUsed, `history
      ensures Valid() && blocks == GrowBlock(c, old(blocks), i, n) && history == old(history) + [blocks]
      ensures freeList == ResizeList(c, old(blocks), i, n, old(freeList))
      ensures MovedBytes(old(bytes), p + c.hdr, bytes, p + c.hdr, size)
      ensures OthersKept(c, tail, old(blocks), old(bytes), blocks, bytes, {p})
    {
      ghost var bs, b0 := blocks, bytes;
      DataInside(c, bs, tail, i);
      Grow(p, n, i);
      GrowBytes(c, b0, bytes, bs, tail, i, n, p + c.hdr, size);
    }

    /** `rt_memheap_realloc` of the used block `i` to `n` bytes, already rounded: kept as it is,
        cut down, grown in place, or moved. */
    method Resize(p: nat, n: nat, ghost i: nat) returns (r: Option<nat>, ghost j: nat)
      requires Valid() && i < |blocks| && blocks[i].used && p == blocks[i].at && n == Request(c, n)
      modifies `items, `bytes, `blocks, `freeList, `available, `maxUsed, `history
      ensures Valid() && old(DataSize(i)) >= 0
      ensures Resized(c, tail, old(blocks), old(freeList), old(available), i, n, r, j, blocks, freeList)
      ensures r.None? ==> unchanged(`items, `bytes, `blocks, `freeList, `available, `maxUsed, `history)
      ensures history == old(history) + Trail(c, old(blocks), tail, i, n, j, r, blocks)
      ensures r.Some? ==> MovedBytes(old(bytes), p + c.hdr, bytes, r.value, Smaller(old(DataSize(i)), n))
      ensures OthersKept(c, tail, old(blocks), old(bytes), blocks, bytes, {p})
    {
      j := 0;
      RequestAligned(c, n);
      var size := SizeOf(p, i);
      if n > size {
        r, j := Enlarge(p, n, size, i);
      } else if n + c.hdr + c.minData >= size {
        OthersSelf(c, tail, blocks, bytes, {p});
        r := Some(p + c.hdr);
      } else {
        ShrinkInPlace(p, n, i);
        r := Some(p + c.hdr);
      }
    }

    method SizeOf(p: nat, ghost i: nat) returns (size: nat)
      requires Valid() && i < |blocks| && p == blocks[i].at
      ensures size == DataSize(i) && p + c.hdr + size <= |bytes|
    {
      NextLinked(items, blocks, tail, Ring(tail), i);
      DataInside(c, blocks, tail, i);
      size := items[p].next - p - c.hdr;
    }

    method ShrinkInPlace(p: nat, n: nat, ghost i: nat)
      requires Valid() && i < |blocks| && blocks[i].used && p == blocks[i].at && n % c.align == 0 && n + c.hdr <= DataSize(i)
      modifies `items, `bytes, `blocks, `freeList, `available, `history
      ensures Valid() && blocks == CutDown(c, old(blocks), i, n) && history == old(history) + [blocks]
      ensures freeList == ResizeList(c, old(blocks), i, n, old(freeList))
      ensures MovedBytes(old(bytes), p + c.hdr, bytes, p + c.hdr, n)
      ensures OthersKept(c, tail, old(blocks), old(bytes), blocks, bytes, {p})
    {
      ghost var bs, b0 := blocks, bytes;
      DataInside(c, bs, tail, i);
      Shrink(p, n, i);
      CutDownBytes(c, b0, bytes, bs, tail, i, n, p + c.hdr);
    }

    /** `rt_memheap_realloc` of the used block `i`, or of a null pointer. */
    method Realloc(ptr: Option<nat>, newSize: nat, ghost i: nat) returns (r: Option<nat>, ghost j: nat)
      requires Valid() && (ptr.Some? ==> i < |blocks| && blocks[i].used && ptr.value == blocks[i].at + c.hdr)
      modifies `items, `bytes, `blocks, `freeList, `available, `maxUsed, `history
      ensures Valid()
      ensures newSize == 0 ==> r == None && maxUsed == old(maxUsed)
      ensures newSize == 0 && ptr.None? ==> unchanged(`items, `bytes, `blocks, `freeList, `available, `history)
      ensures newSize == 0 && ptr.Some? ==> blocks == FreeBlock(old(blocks), i) && freeList == ReleaseList(old(blocks), i, old(freeList)) && history == old(history) + [blocks]
      ensures newSize > 0 && ptr.None? ==>
                && Allocated(c, tail, old(blocks), old(freeList), old(available), Request(c, newSize), r, j, blocks, freeList)
                && history == if r == None then old(history) else old(history) + [blocks]
      ensures newSize > 0 && ptr.None? ==> AllocTells(c, tail, Request(c, newSize), old(blocks), old(freeList), old(available), r, blocks)
      ensures newSize > 0 && ptr.Some? ==> ResizeTells(c, tail, i, Request(c, newSize), old(blocks), old(freeList), old(available), r, blocks)
      ensures newSize > 0 && ptr.Some? ==>
                && Resized(c, tail, old(blocks), old(freeList), old(available), i, Request(c, newSize), r, j, blocks, freeList)
                && history == old(history) + Trail(c, old(blocks), tail, i, Request(c, newSize), j, r, blocks)
      ensures newSize > 0 && ptr.Some? && r.Some? ==>
                && old(DataSize(i)) >= 0
                && MovedBytes(old(bytes), ptr.value, bytes, r.value, Smaller(old(DataSize(i)), Request(c, newSize)))
      ensures OthersKept(c, tail, old(blocks), old(bytes), blocks, bytes, if ptr == None then {} else {ptr.value - c.hdr})
    {
      j := 0;
      OthersSelf(c, tail, blocks, bytes, {});
      if newSize == 0 {
        Free(ptr, i);
        return None, j;
      }
      var n := Request(c, newSize);
      RequestAligned(c, newSize);
      if ptr == None {
        r, j := ReallocNull(n);
        return;
      }
      r, j := ReallocBlock(ptr.value, ptr.value - c.hdr, n, i);
    }

    method ReallocNull(n: nat) returns (r: Option<nat>, ghost j: nat)
      requires Valid() && Request(c, n) == n && n % c.align == 0
      modifies `items, `bytes, `blocks, `freeList, `available, `maxUsed, `history
      ensures Valid() && Allocated(c, tail, old(blocks), old(freeList), old(available), n, r, j, blocks, freeList)
      ensures AllocTells(c, tail, n, old(blocks), old(freeList), old(available), r, blocks)
      ensures history == if r == None then old(history) else old(history) + [blocks]
      ensures OthersKept(c, tail, old(blocks), old(bytes), blocks, bytes, {})
    {
      ghost var bs, fl, av := blocks, freeList, available;
      r, j := Alloc(n);
      AllocAnswers(c, tail, n, bs, fl, av, r, j, blocks, freeList);
    }

    method ResizeTold(p: nat, n: nat, ghost i: nat) returns (r: Option<nat>, ghost j: nat)
      requires Valid() && i < |blocks| && blocks[i].used && p == blocks[i].at && n % c.align == 0 && n == Request(c, n)
      modifies `items, `bytes, `blocks, `freeList, `available, `maxUsed, `history
      ensures Valid() && old(DataSize(i)) >= 0
      ensures Resized(c, tail, old(blocks), old(freeList), old(available), i, n, r, j, blocks, freeList)
      ensures ResizeTells(c, tail, i, n, old(blocks), old(freeList), old(available), r, blocks)
      ensures history == old(history) + Trail(c, old(blocks), tail, i, n, j, r, blocks)
      ensures r.Some? ==> MovedBytes(old(bytes), p + c.hdr, bytes, r.value, Smaller(old(DataSize(i)), n))
      ensures OthersKept(c, tail, old(blocks), old(bytes), blocks, bytes, {p})
    {
      ghost var bs, fl, av := blocks, freeList, available;
      r, j := Resize(p, n, i);
      ResizeAnswers(c, tail, i, n, bs, fl, av, r, j, blocks, freeList);
    }

    method ReallocBlock(ptr: nat, p: nat, n: nat, ghost i: nat) returns (r: Option<nat>, ghost j: nat)
      requires Valid() && i < |blocks| && blocks[i].used && p == blocks[i].at && ptr == p + c.hdr && n % c.align == 0 && n == Request(c, n)
      modifies `items, `bytes, `blocks, `freeList, `available, `maxUsed, `history
      ensures Valid() && old(DataSize(i)) >= 0
      ensures Resized(c, tail, old(blocks), old(freeList), old(available), i, n, r, j, blocks, freeList)
      ensures ResizeTells(c, tail, i, n, old(blocks), old(freeList), old(available), r, blocks)
      ensures history == old(history) + Trail(c, old(blocks), tail, i, n, j, r, blocks)
      ensures r.Some? ==> MovedBytes(old(bytes), ptr, bytes, r.value, Smaller(old(DataSize(i)), n))
      ensures OthersKept(c, tail, old(blocks), old(bytes), blocks, bytes, {p})
    {
      ghost var q := p + c.hdr;
      assert q == ptr;
      r, j := ResizeTold(p, n, i);
    }
  }
}
