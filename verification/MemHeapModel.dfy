/** What a memheap keeps beside its blocks: the free list, the free bytes, and the user bytes. */
module MemHeapModel {
  import opened Bytes
  import opened Lists
  import opened Alignment
  import opened Blocks
  import opened BlockLinks

  /** `available_size`: the data bytes of all free blocks. */
  function FreeData(c: Config, bs: seq<Block>, e: nat): int
  {
    Total(bs, e, false, c.hdr)
  }

  ghost predicate IsFree(bs: seq<Block>, x: nat)
  {
    exists i :: 0 <= i < |bs| && bs[i].at == x && !bs[i].used
  }

  /** The free list holds exactly the free blocks, each once. */
  ghost predicate FreeListOk(fl: seq<nat>, bs: seq<Block>)
  {
    FreeListBut(fl, bs, None)
  }

  /** As `FreeListOk`, but the free block at `skip` is not listed yet. */
  ghost predicate FreeListBut(fl: seq<nat>, bs: seq<Block>, skip: Option<nat>)
  {
    NoDup(fl) && forall x :: x in fl <==> IsFree(bs, x) && skip != Some(x)
  }

  /** No block starting at `x` holds `n` bytes. */
  ghost predicate TooSmall(c: Config, bs: seq<Block>, e: nat, n: nat, x: nat)
  {
    forall i :: 0 <= i < |bs| && bs[i].at == x ==> !Fits(c, bs, e, i, n)
  }

  /** Block `i` is the first on the list that fits `n` bytes. */
  ghost predicate FirstListed(c: Config, bs: seq<Block>, e: nat, fl: seq<nat>, n: nat, i: nat)
  {
    && i < |bs| && Fits(c, bs, e, i, n)
    && exists j :: 0 <= j < |fl| && fl[j] == bs[i].at && forall k :: 0 <= k < j ==> TooSmall(c, bs, e, n, fl[k])
  }

  /** A request of `n` bytes is served: it is below the free bytes, and some free block holds it. */
  ghost predicate CanTake(c: Config, bs: seq<Block>, e: nat, available: int, n: nat)
  {
    n < available && exists j :: 0 <= j < |bs| && Fits(c, bs, e, j, n)
  }

  /** Block `j` is taken for `n` bytes, then block `i` is freed. */
  function MovedBlocks(c: Config, bs: seq<Block>, e: nat, i: nat, j: nat, n: nat): seq<Block>
    requires i < |bs| && j < |bs|
  {
    FreeBlock(TakeBlock(c, bs, e, j, n), Shifted(c, bs, e, j, n, i))
  }

  function MovedList(c: Config, bs: seq<Block>, e: nat, i: nat, j: nat, n: nat, fl: seq<nat>): seq<nat>
    requires i < |bs| && j < |bs|
  {
    ReleaseList(TakeBlock(c, bs, e, j, n), Shifted(c, bs, e, j, n, i), TakeList(c, bs, e, j, n, fl))
  }

  /** What `rt_memheap_alloc` of `n` bytes, already rounded, returns and leaves: the first listed
      block that fits, or nothing when the request cannot be served. */
  ghost predicate Allocated(c: Config, e: nat, bs: seq<Block>, fl: seq<nat>, available: int, n: nat,
                            r: Option<nat>, j: nat, bs': seq<Block>, fl': seq<nat>)
  {
    if CanTake(c, bs, e, available, n)
    then FirstListed(c, bs, e, fl, n, j) && r == Some(bs[j].at + c.hdr)
         && bs' == TakeBlock(c, bs, e, j, n) && fl' == TakeList(c, bs, e, j, n, fl)
    else r == None && bs' == bs && fl' == fl
  }

  /** What `rt_memheap_realloc` of block `i` to `n` bytes, already rounded, returns and leaves: the
      block is kept, cut down, grown in place or moved. */
  ghost predicate Resized(c: Config, e: nat, bs: seq<Block>, fl: seq<nat>, available: int, i: nat, n: nat,
                          r: Option<nat>, j: nat, bs': seq<Block>, fl': seq<nat>)
    requires i < |bs|
  {
    var ptr := bs[i].at + c.hdr;
    var size := NextAt(bs, e, i) - ptr;
    if n <= size <= n + c.hdr + c.minData then r == Some(ptr) && bs' == bs && fl' == fl
    else if n < size then r == Some(ptr) && bs' == CutDown(c, bs, i, n) && fl' == ResizeList(c, bs, i, n, fl)
    else if Growable(c, bs, e, i, n) then r == Some(ptr) && bs' == GrowBlock(c, bs, i, n) && fl' == ResizeList(c, bs, i, n, fl)
    else Moved(c, e, bs, fl, available, i, n, r, j, bs', fl')
  }

  /** The first listed block that fits is taken and block `i` freed, or nothing happens. */
  ghost predicate Moved(c: Config, e: nat, bs: seq<Block>, fl: seq<nat>, available: int, i: nat, n: nat,
                        r: Option<nat>, j: nat, bs': seq<Block>, fl': seq<nat>)
    requires i < |bs|
  {
    if CanTake(c, bs, e, available, n)
    then FirstListed(c, bs, e, fl, n, j) && r == Some(bs[j].at + c.hdr)
         && bs' == MovedBlocks(c, bs, e, i, j, n) && fl' == MovedList(c, bs, e, i, j, n, fl)
    else r == None && bs' == bs && fl' == fl
  }

  /** The free successor of block `i` has room for it to grow to `n` bytes. */
  predicate Growable(c: Config, bs: seq<Block>, e: nat, i: nat, n: nat)
    requires i < |bs|
  {
    RightFree(bs, i) && NextAt(bs, e, i + 1) - bs[i].at - 2 * c.hdr > n + c.minData
  }

  lemma NothingFits(c: Config, bs: seq<Block>, e: nat, fl: seq<nat>, n: nat)
    requires FreeListOk(fl, bs) && forall l :: 0 <= l < |fl| ==> TooSmall(c, bs, e, n, fl[l])
    ensures forall k :: 0 <= k < |bs| ==> !Fits(c, bs, e, k, n)
  {
    forall k | 0 <= k < |bs| ensures !Fits(c, bs, e, k, n) {
      if !bs[k].used {
        assert IsFree(bs, bs[k].at);
        var l :| 0 <= l < |fl| && fl[l] == bs[k].at;
        assert TooSmall(c, bs, e, n, fl[l]);
      }
    }
  }

  // ----- the free list after each operation -----

  predicate LeftFree(bs: seq<Block>, i: nat)
    requires i < |bs|
  {
    i > 0 && !bs[i - 1].used
  }

  predicate RightFree(bs: seq<Block>, i: nat)
    requires i < |bs|
  {
    i + 1 < |bs| && !bs[i + 1].used
  }

  /** Taking block `i`: it leaves the list, and a rest that was split off goes to the front. */
  function TakeList(c: Config, bs: seq<Block>, e: nat, i: nat, n: nat, fl: seq<nat>): seq<nat>
    requires i < |bs|
  {
    var rest := Without(fl, bs[i].at);
    if |TakeBlock(c, bs, e, i, n)| > |bs| then [bs[i].at + c.hdr + n] + rest else rest
  }

  /** The list without the successor of block `i`, when that one is free. */
  function WithoutRight(bs: seq<Block>, i: nat, fl: seq<nat>): seq<nat>
    requires i < |bs|
  {
    if RightFree(bs, i) then Without(fl, bs[i + 1].at) else fl
  }

  /** Freeing block `i`: it goes to the front unless its left neighbour swallows it. */
  function ReleaseList(bs: seq<Block>, i: nat, fl: seq<nat>): seq<nat>
    requires i < |bs|
  {
    if LeftFree(bs, i) then WithoutRight(bs, i, fl) else [bs[i].at] + WithoutRight(bs, i, fl)
  }

  /** Shrinking or growing block `i` in place to `n` bytes: the free block behind it is new. */
  function ResizeList(c: Config, bs: seq<Block>, i: nat, n: nat, fl: seq<nat>): seq<nat>
    requires i < |bs|
  {
    [bs[i].at + c.hdr + n] + WithoutRight(bs, i, fl)
  }

  /** Block `i` grows to `n` data bytes at the cost of its free successor. */
  function GrowBlock(c: Config, bs: seq<Block>, i: nat, n: nat): seq<Block>
    requires i + 1 < |bs|
  {
    bs[i + 1 := Block(bs[i].at + c.hdr + n, false)]
  }

  // ----- which blocks are free -----

  lemma MarkIsFree(bs: seq<Block>, e: nat, i: nat, used: bool, x: nat)
    requires Ascending(bs, e) && i < |bs|
    ensures IsFree(bs[i := Block(bs[i].at, used)], x) <==> if x == bs[i].at then !used else IsFree(bs, x)
  {
    var bs' := bs[i := Block(bs[i].at, used)];
    forall k | 0 <= k < |bs| ensures bs[k].at == bs[i].at <==> k == i { Apart(bs, e, k, i); }
    if x == bs[i].at {
      assert bs'[i].at == x;
    } else {
      if IsFree(bs, x) { var k :| 0 <= k < |bs| && bs[k].at == x && !bs[k].used; assert bs'[k] == bs[k]; }
      if IsFree(bs', x) { var k :| 0 <= k < |bs'| && bs'[k].at == x && !bs'[k].used; assert bs'[k] == bs[k]; }
    }
  }

  lemma SwallowIsFree(bs: seq<Block>, e: nat, i: nat, x: nat)
    requires Ascending(bs, e) && i + 1 < |bs|
    ensures IsFree(Swallow(bs, i), x) <==> IsFree(bs, x) && x != bs[i + 1].at
  {
    var bs' := Swallow(bs, i);
    forall k | 0 <= k < |bs| ensures bs[k].at == bs[i + 1].at <==> k == i + 1 { Apart(bs, e, k, i + 1); }
    if IsFree(bs, x) && x != bs[i + 1].at {
      var k :| 0 <= k < |bs| && bs[k].at == x && !bs[k].used;
      assert bs'[if k <= i then k else k - 1] == bs[k];
    }
    if IsFree(bs', x) {
      var k :| 0 <= k < |bs'| && bs'[k].at == x && !bs'[k].used;
      assert bs'[k] == bs[if k <= i then k else k + 1];
    }
  }

  lemma CutOffIsFree(bs: seq<Block>, i: nat, p: nat, x: nat)
    requires i < |bs|
    ensures IsFree(CutOff(bs, i, p), x) <==> IsFree(bs, x) || x == p
  {
    var bs' := CutOff(bs, i, p);
    assert bs'[i + 1] == Block(p, false);
    if IsFree(bs, x) {
      var k :| 0 <= k < |bs| && bs[k].at == x && !bs[k].used;
      assert bs'[if k <= i then k else k + 1] == bs[k];
    }
    if IsFree(bs', x) {
      var k :| 0 <= k < |bs'| && bs'[k].at == x && !bs'[k].used;
      if k != i + 1 { assert bs'[k] == bs[if k <= i then k else k - 1]; }
    }
  }

  lemma SwallowAscends(bs: seq<Block>, e: nat, i: nat)
    requires Ascending(bs, e) && i + 1 < |bs|
    ensures Ascending(Swallow(bs, i), e)
  {
    var bs' := Swallow(bs, i);
    forall k, l | 0 <= k < l <= |bs'| ensures Before(bs', e, k, l) {
      Apart(bs, e, if k <= i then k else k + 1, if l <= i then l else l + 1);
    }
  }

  /** A start strictly between two neighbours is not a block yet. */
  lemma NotFreeBetween(bs: seq<Block>, e: nat, i: nat, p: nat)
    requires Ascending(bs, e) && i < |bs| && bs[i].at < p < NextAt(bs, e, i)
    ensures !IsFree(bs, p)
  {
    forall k | 0 <= k < |bs| ensures bs[k].at != p { Apart(bs, e, k, i); Apart(bs, e, k, i + 1); }
  }

  // ----- the list stays exact, one header operation at a time -----

  lemma UnlinkOk(fl: seq<nat>, bs: seq<Block>, bs': seq<Block>, y: nat, skip: Option<nat>)
    requires FreeListBut(fl, bs, skip) && forall x :: IsFree(bs', x) <==> IsFree(bs, x) && x != y
    ensures FreeListBut(Without(fl, y), bs', skip)
  {
    WithoutMembers(fl, y);
  }

  lemma PushOk(fl: seq<nat>, bs: seq<Block>, y: nat)
    requires FreeListBut(fl, bs, Some(y)) && IsFree(bs, y)
    ensures FreeListOk([y] + fl, bs)
  {
    NoDupCons(y, fl);
  }

  lemma TakeListOk(c: Config, bs: seq<Block>, e: nat, i: nat, n: nat, fl: seq<nat>)
    requires Ascending(bs, e) && c.hdr > 0 && i < |bs| && !bs[i].used && FreeListOk(fl, bs)
    ensures FreeListOk(TakeList(c, bs, e, i, n, fl), TakeBlock(c, bs, e, i, n))
  {
    var p, p2 := bs[i].at, bs[i].at + c.hdr + n;
    var bs0, bs' := bs[i := Block(p, true)], TakeBlock(c, bs, e, i, n);
    forall x ensures IsFree(bs0, x) <==> IsFree(bs, x) && x != p {
      MarkIsFree(bs, e, i, true, x);
    }
    UnlinkOk(fl, bs, bs0, p, None);
    if |bs'| > |bs| {
      assert bs' == CutOff(bs0, i, p2);
      forall x ensures IsFree(bs', x) <==> IsFree(bs0, x) || x == p2 {
        CutOffIsFree(bs0, i, p2, x);
      }
      NotFreeBetween(bs, e, i, p2);
      PushOk(Without(fl, p), bs', p2);
    }
  }

  lemma TakeAvailable(c: Config, bs: seq<Block>, e: nat, i: nat, n: nat)
    requires i < |bs| && !bs[i].used
    ensures FreeData(c, TakeBlock(c, bs, e, i, n), e) == FreeData(c, bs, e)
              - if |TakeBlock(c, bs, e, i, n)| > |bs| then n + c.hdr else NextAt(bs, e, i) - bs[i].at - c.hdr
  {
    TakeBlockTotal(c, bs, e, i, n, false, c.hdr);
  }

  /** Once block `i` is marked free, everybody free but it is listed. */
  lemma MarkListOk(bs: seq<Block>, e: nat, i: nat, fl: seq<nat>)
    requires Ascending(bs, e) && i < |bs| && bs[i].used && FreeListOk(fl, bs)
    ensures FreeListBut(fl, bs[i := Block(bs[i].at, false)], Some(bs[i].at))
  {
    forall x ensures x in fl <==> IsFree(bs[i := Block(bs[i].at, false)], x) && x != bs[i].at {
      MarkIsFree(bs, e, i, false, x);
      MarkIsFree(bs, e, i, true, x);
      assert bs[i := Block(bs[i].at, true)] == bs;
    }
  }

  /** The mark itself does not change where the block goes. */
  lemma ReleaseListMark(bs': seq<Block>, bs: seq<Block>, i: nat, fl: seq<nat>)
    requires i < |bs| && bs' == bs[i := Block(bs[i].at, false)]
    ensures ReleaseList(bs', i, fl) == ReleaseList(bs, i, fl)
  {
  }

  lemma SwallowListOk(bs: seq<Block>, e: nat, i: nat, fl: seq<nat>, skip: Option<nat>)
    requires Ascending(bs, e) && i + 1 < |bs| && FreeListBut(fl, bs, skip)
    ensures skip == Some(bs[i + 1].at) ==> FreeListOk(fl, Swallow(bs, i))
    ensures skip != Some(bs[i + 1].at) ==> FreeListBut(Without(fl, bs[i + 1].at), Swallow(bs, i), skip)
  {
    forall x ensures IsFree(Swallow(bs, i), x) <==> IsFree(bs, x) && x != bs[i + 1].at {
      SwallowIsFree(bs, e, i, x);
    }
    UnlinkOk(fl, bs, Swallow(bs, i), bs[i + 1].at, skip);
  }

  lemma CutOffListOk(bs: seq<Block>, e: nat, i: nat, p: nat, fl: seq<nat>)
    requires Ascending(bs, e) && i < |bs| && bs[i].at < p < NextAt(bs, e, i) && FreeListOk(fl, bs)
    ensures FreeListBut(fl, CutOff(bs, i, p), Some(p)) && IsFree(CutOff(bs, i, p), p)
  {
    NotFreeBetween(bs, e, i, p);
    forall x ensures IsFree(CutOff(bs, i, p), x) <==> IsFree(bs, x) || x == p {
      CutOffIsFree(bs, i, p, x);
    }
  }

  // ----- user bytes -----

  /** The starts of all headers, the tailer's included. */
  ghost function Headers(bs: seq<Block>, e: nat): set<nat>
  {
    (set i | 0 <= i < |bs| :: bs[i].at) + {e}
  }

  ghost predicate InHeader(hs: set<nat>, hdr: nat, k: nat)
  {
    exists x :: x in hs && x <= k < x + hdr
  }

  /** Only bytes of headers `hs` and of [lo, hi) may have changed. */
  ghost predicate KeptBut(was: seq<bv8>, now: seq<bv8>, hdr: nat, hs: set<nat>, lo: nat, hi: nat)
  {
    |now| == |was| && forall k :: 0 <= k < |was| ==> KeptAt(was, now, hdr, hs, lo, hi, k)
  }

  ghost predicate KeptAt(was: seq<bv8>, now: seq<bv8>, hdr: nat, hs: set<nat>, lo: nat, hi: nat, k: nat)
    requires k < |was| == |now|
  {
    now[k] == was[k] || InHeader(hs, hdr, k) || lo <= k < hi
  }

  /** Only bytes of headers `hs` may have changed. */
  ghost predicate Kept(was: seq<bv8>, now: seq<bv8>, hdr: nat, hs: set<nat>)
  {
    KeptBut(was, now, hdr, hs, 0, 0)
  }

  lemma SwallowHeaders(bs: seq<Block>, e: nat, i: nat)
    requires i + 1 < |bs|
    ensures {bs[i].at, NextAt(bs, e, i + 1)} <= Headers(bs, e) && Headers(Swallow(bs, i), e) <= Headers(bs, e)
  {
    var bs' := Swallow(bs, i);
    forall x | x in Headers(bs', e) ensures x in Headers(bs, e) {
      if x != e {
        var k :| 0 <= k < |bs'| && bs'[k].at == x;
        assert bs[if k <= i then k else k + 1].at == x;
      }
    }
  }

  lemma MarkHeaders(bs: seq<Block>, e: nat, i: nat, used: bool)
    requires i < |bs|
    ensures bs[i].at in Headers(bs, e) && Headers(bs[i := Block(bs[i].at, used)], e) == Headers(bs, e)
  {
    var bs' := bs[i := Block(bs[i].at, used)];
    assert forall k :: 0 <= k < |bs| ==> bs'[k].at == bs[k].at;
  }

  /** A split writes only headers that are there before or after it. */
  lemma CutOffHeaders(bs: seq<Block>, e: nat, i: nat, p: nat)
    requires i < |bs|
    ensures {bs[i].at, p, NextAt(bs, e, i)} <= Headers(bs, e) + Headers(CutOff(bs, i, p), e)
  {
    assert CutOff(bs, i, p)[i + 1].at == p;
  }

  lemma KeptMore(was: seq<bv8>, now: seq<bv8>, hdr: nat, hs: set<nat>, more: set<nat>)
    requires Kept(was, now, hdr, hs) && hs <= more
    ensures Kept(was, now, hdr, more)
  {
    forall k | 0 <= k < |was| ensures KeptAt(was, now, hdr, more, 0, 0, k) {
      assert KeptAt(was, now, hdr, hs, 0, 0, k);
    }
  }

  lemma KeptTwice(a: seq<bv8>, b: seq<bv8>, d: seq<bv8>, hdr: nat, h1: set<nat>, h2: set<nat>, hs: set<nat>)
    requires Kept(a, b, hdr, h1) && Kept(b, d, hdr, h2) && h1 <= hs && h2 <= hs
    ensures Kept(a, d, hdr, hs)
  {
    forall k | 0 <= k < |a| ensures KeptAt(a, d, hdr, hs, 0, 0, k) {
      assert KeptAt(a, b, hdr, h1, 0, 0, k) && KeptAt(b, d, hdr, h2, 0, 0, k);
    }
  }

  /** The user bytes of a block that is there before and after lie outside every header of both
      partitions, so they survive whatever is written to headers. */
  lemma UserBytesKept(c: Config, was: seq<bv8>, now: seq<bv8>, bs: seq<Block>, bs': seq<Block>, e: nat, i: nat, i': nat, n: nat)
    requires c.hdr > 0 && Tiled(c, bs, e) && Tiled(c, bs', e) && i < |bs| && i' < |bs'| && bs[i].at == bs'[i'].at
    requires bs[i].at + c.hdr <= n <= NextAt(bs, e, i) && n <= NextAt(bs', e, i') && n <= |was|
    requires Kept(was, now, c.hdr, Headers(bs, e) + Headers(bs', e))
    ensures now[bs[i].at + c.hdr..n] == was[bs[i].at + c.hdr..n]
  {
    forall k | bs[i].at + c.hdr <= k < n ensures now[k] == was[k] {
      OutsideHeaders(c, bs, e, i, k);
      OutsideHeaders(c, bs', e, i', k);
      assert KeptAt(was, now, c.hdr, Headers(bs, e) + Headers(bs', e), 0, 0, k);
    }
  }

  lemma OutsideHeaders(c: Config, bs: seq<Block>, e: nat, i: nat, k: nat)
    requires c.hdr > 0 && Tiled(c, bs, e) && i < |bs| && bs[i].at + c.hdr <= k < NextAt(bs, e, i)
    ensures !InHeader(Headers(bs, e), c.hdr, k)
  {
    forall x | x in Headers(bs, e) ensures !(x <= k < x + c.hdr) {
      if x == e {
        StartsIncrease(c, bs, e, |bs|, i);
        if i + 1 < |bs| { StartsIncrease(c, bs, e, |bs|, i + 1); }
      } else {
        var j :| 0 <= j < |bs| && bs[j].at == x;
        if j > i { StartsIncrease(c, bs, e, i + 1, j); } else { StartsIncrease(c, bs, e, j, i); }
      }
    }
  }

  ghost predicate MovedAt(was: seq<bv8>, src: nat, now: seq<bv8>, dst: nat, k: nat)
    requires src + k < |was| && dst + k < |now|
  {
    now[dst + k] == was[src + k]
  }

  /** `count` bytes at `src` before are at `dst` now. */
  ghost predicate MovedBytes(was: seq<bv8>, src: nat, now: seq<bv8>, dst: nat, count: nat)
  {
    src + count <= |was| && dst + count <= |now| && forall k :: 0 <= k < count ==> MovedAt(was, src, now, dst, k)
  }

  lemma MovedSlice(was: seq<bv8>, src: nat, now: seq<bv8>, dst: nat, count: nat)
    requires src + count <= |was| && dst + count <= |now|
    ensures MovedBytes(was, src, now, dst, count) <==> now[dst..dst + count] == was[src..src + count]
  {
    var a, b := now[dst..dst + count], was[src..src + count];
    forall k | 0 <= k < count ensures MovedAt(was, src, now, dst, k) <==> a[k] == b[k] {
      assert a[k] == now[dst + k] && b[k] == was[src + k];
    }
    if MovedBytes(was, src, now, dst, count) {
      forall k | 0 <= k < count ensures a[k] == b[k] {
        assert MovedAt(was, src, now, dst, k);
      }
    }
  }

  lemma DataInside(c: Config, bs: seq<Block>, e: nat, i: nat)
    requires Heap(c, bs, e) && i < |bs|
    ensures bs[i].at + c.hdr <= NextAt(bs, e, i) <= e
  {
    assert bs[i].at + c.hdr <= NextAt(bs, e, i);
    if i + 1 < |bs| { LiveDisjoint(c, bs, e, i, i + 1); }
  }

  /** A block cut down in place keeps its start, ends after `n` data bytes, and keeps those. */
  lemma CutDownBytes(c: Config, was: seq<bv8>, now: seq<bv8>, bs: seq<Block>, e: nat, i: nat, n: nat, ptr: nat)
    requires c.hdr > 0 && i < |bs| && Tiled(c, bs, e) && Tiled(c, CutDown(c, bs, i, n), e) && ptr == bs[i].at + c.hdr
    requires ptr + n <= NextAt(bs, e, i) <= |was|
    requires Kept(was, now, c.hdr, Headers(bs, e) + Headers(CutDown(c, bs, i, n), e))
    ensures MovedBytes(was, ptr, now, ptr, n)
  {
    var bs1 := CutOff(bs, i, ptr + n);
    assert bs1[i] == bs[i] && bs1[i + 1].at == ptr + n;
    UserBytesKept(c, was, now, bs, CutDown(c, bs, i, n), e, i, i, ptr + n);
    MovedSlice(was, ptr, now, ptr, n);
  }

  /** A block grown in place keeps its start and all its bytes. */
  lemma GrowBytes(c: Config, was: seq<bv8>, now: seq<bv8>, bs: seq<Block>, e: nat, i: nat, n: nat, ptr: nat, size: nat)
    requires c.hdr > 0 && i + 1 < |bs| && Tiled(c, bs, e) && Tiled(c, GrowBlock(c, bs, i, n), e) && ptr == bs[i].at + c.hdr
    requires ptr + size == NextAt(bs, e, i) <= |was| && size <= n
    requires Kept(was, now, c.hdr, Headers(bs, e) + Headers(GrowBlock(c, bs, i, n), e))
    ensures MovedBytes(was, ptr, now, ptr, size)
  {
    UserBytesKept(c, was, now, bs, GrowBlock(c, bs, i, n), e, i, i, ptr + size);
    MovedSlice(was, ptr, now, ptr, size);
  }

  /** The bytes after a move: `count` bytes are at `dst`, and outside them and the headers of the
      partitions before and in between nothing has changed. */
  ghost predicate MoveKept(c: Config, e: nat, bs: seq<Block>, mid: seq<Block>, was: seq<bv8>, src: nat, now: seq<bv8>, dst: nat, count: nat)
  {
    && MovedBytes(was, src, now, dst, count)
    && KeptBut(was, now, c.hdr, Headers(bs, e) + Headers(mid, e), dst, dst + count)
  }

  /** Both ends of a move lie inside the pool, in blocks of the partition in between. */
  lemma MoveFits(c: Config, bs: seq<Block>, e: nat, i: nat, j: nat, n: nat)
    requires Heap(c, bs, e) && i < |bs| && bs[i].used && j < |bs| && Fits(c, bs, e, j, n)
    ensures var mid, i' := TakeBlock(c, bs, e, j, n), Shifted(c, bs, e, j, n, i);
            && mid[j].at == bs[j].at && bs[j].at + c.hdr + n <= NextAt(mid, e, j)
            && i' < |mid| && mid[i'] == bs[i] && NextAt(mid, e, i') == NextAt(bs, e, i)
            && NextAt(bs, e, i) <= e && NextAt(bs, e, j) <= e && bs[i].at + c.hdr <= NextAt(bs, e, i)
  {
    TakeBlockKeeps(c, bs, e, j, n, i);
    DataInside(c, bs, e, i);
    DataInside(c, bs, e, j);
  }

  /** A move carries `count` user bytes of block `i` into block `j` of the partition in between. */
  lemma MoveBytes(c: Config, b0: seq<bv8>, b1: seq<bv8>, b2: seq<bv8>, b3: seq<bv8>,
                  bs: seq<Block>, mid: seq<Block>, e: nat, i: nat, i': nat, j: nat, src: nat, dst: nat, count: nat)
    requires c.hdr > 0 && Tiled(c, bs, e) && Tiled(c, mid, e) && i < |bs| && i' < |mid| && j < |mid|
    requires mid[i'] == bs[i] && NextAt(mid, e, i') == NextAt(bs, e, i)
    requires src == bs[i].at + c.hdr && src + count <= NextAt(bs, e, i)
    requires dst == mid[j].at + c.hdr && dst + count <= NextAt(mid, e, j)
    requires Kept(b0, b1, c.hdr, Headers(bs, e) + Headers(mid, e)) && Kept(b2, b3, c.hdr, Headers(mid, e))
    requires Copied(b1, src, b2, dst, count)
    ensures MoveKept(c, e, bs, mid, b0, src, b3, dst, count)
  {
    UserBytesKept(c, b0, b1, bs, mid, e, i, i', src + count);
    KeptMore(b2, b3, c.hdr, Headers(mid, e), Headers(mid, e) + Headers(mid, e));
    UserBytesKept(c, b2, b3, mid, mid, e, j, j, dst + count);
    assert b2[dst..dst + count] == b1[src..src + count];
    MovedSlice(b0, src, b3, dst, count);
    var hs := Headers(bs, e) + Headers(mid, e);
    var end := dst + count;
    forall k | 0 <= k < |b0| ensures KeptAt(b0, b3, c.hdr, hs, dst, end, k) {
      assert KeptAt(b0, b1, c.hdr, hs, 0, 0, k) && KeptAt(b2, b3, c.hdr, Headers(mid, e), 0, 0, k);
      assert b2[k] == b1[k] || dst <= k < dst + count;
    }
  }

  // ----- partitions reached in another order -----

  /** Joining to the left first and then to the right gives what `PlugHoles` gives. */
  lemma LeftThenRight(bs: seq<Block>, i: nat)
    requires i < |bs| && !bs[i].used
    ensures PlugHoles(bs, i) == if LeftFree(bs, i) then MergeNext(Swallow(bs, i - 1), i - 1) else MergeNext(bs, i)
  {
    var bs1 := MergeNext(bs, i);
    assert bs1[i] == bs[i] && (i > 0 ==> bs1[i - 1] == bs[i - 1]);
    if LeftFree(bs, i) {
      var bs2 := Swallow(bs, i - 1);
      assert bs2[i - 1] == bs[i - 1] && (i < |bs2| ==> bs2[i] == bs[i + 1]);
      assert RightFree(bs, i) ==> Swallow(bs1, i - 1) == Swallow(bs2, i - 1);
    }
  }

  /** Growing in place is giving up the successor and cutting the rest off again. */
  lemma GrowIs(c: Config, bs: seq<Block>, i: nat, n: nat)
    requires i + 1 < |bs|
    ensures GrowBlock(c, bs, i, n) == CutOff(Swallow(bs, i), i, bs[i].at + c.hdr + n)
  {
  }

  lemma GrowHeap(c: Config, bs: seq<Block>, e: nat, i: nat, n: nat)
    requires Heap(c, bs, e) && i < |bs| && bs[i].used && n % c.align == 0 && Growable(c, bs, e, i, n)
    ensures Heap(c, GrowBlock(c, bs, i, n), e)
  {
    var p := bs[i].at + c.hdr + n;
    var bs' := GrowBlock(c, bs, i, n);
    assert AlignedAt(c, bs, i);
    AddAligned(bs[i].at, c.hdr, c.align);
    AddAligned(bs[i].at + c.hdr, n, c.align);
    forall k | 0 <= k < |bs'| ensures bs'[k].at + c.hdr <= NextAt(bs', e, k) && AlignedAt(c, bs', k) {
      assert AlignedAt(c, bs, k);
      assert NextAt(bs', e, k) == if k == i then p else NextAt(bs, e, k);
    }
    forall k | 0 <= k < |bs'| - 1 ensures ApartAt(bs', k) { assert ApartAt(bs, k); }
  }

  lemma GrowTotal(c: Config, bs: seq<Block>, e: nat, i: nat, n: nat)
    requires i + 1 < |bs| && bs[i].used && !bs[i + 1].used
    ensures FreeData(c, GrowBlock(c, bs, i, n), e) == FreeData(c, bs, e) - (bs[i].at + c.hdr + n - bs[i + 1].at)
  {
    var a, x, y, b := bs[..i], bs[i], bs[i + 1], bs[i + 2..];
    var y' := Block(bs[i].at + c.hdr + n, false);
    assert bs == a + ([x, y] + b) && GrowBlock(c, bs, i, n) == a + ([x, y'] + b);
    TotalReplace(a, [x, y], [x, y'], b, e, false, c.hdr);
    TotalTwo(x, y, Start(b, e), false, c.hdr);
    TotalTwo(x, y', Start(b, e), false, c.hdr);
  }

  lemma GrowListOk(c: Config, bs: seq<Block>, e: nat, i: nat, n: nat, fl: seq<nat>)
    requires Ascending(bs, e) && c.hdr > 0 && i + 1 < |bs| && !bs[i + 1].used && FreeListOk(fl, bs)
    requires bs[i].at + c.hdr + n < NextAt(bs, e, i + 1)
    ensures NextAt(Swallow(bs, i), e, i) == NextAt(bs, e, i + 1)
    ensures FreeListOk(ResizeList(c, bs, i, n, fl), GrowBlock(c, bs, i, n))
  {
    var p, bs1, fl1 := bs[i].at + c.hdr + n, Swallow(bs, i), Without(fl, bs[i + 1].at);
    GrowIs(c, bs, i, n);
    SwallowListOk(bs, e, i, fl, None);
    SwallowAscends(bs, e, i);
    var o := SwallowAt(bs, e, i, i);
    CutOffListOk(bs1, e, i, p, fl1);
    PushOk(fl1, CutOff(bs1, i, p), p);
  }

  /** Block `i` cut down to `n` data bytes, the rest joined with a free successor. */
  function CutDown(c: Config, bs: seq<Block>, i: nat, n: nat): seq<Block>
    requires i < |bs|
  {
    var bs1 := CutOff(bs, i, bs[i].at + c.hdr + n);
    if RightFree(bs, i) then Swallow(bs1, i + 1) else bs1
  }

  lemma CutDownIs(c: Config, bs: seq<Block>, i: nat, n: nat)
    requires i < |bs| && bs[i].used
    ensures CutDown(c, bs, i, n) == ShrinkBlock(c, bs, i, n) == MergeNext(CutOff(bs, i, bs[i].at + c.hdr + n), i + 1)
  {
    var bs1 := CutOff(bs, i, bs[i].at + c.hdr + n);
    var bs2 := MergeNext(bs1, i + 1);
    assert bs2[i] == bs1[i] == bs[i];
    assert MergeNext(bs2, i) == bs2;
    assert i + 2 < |bs1| ==> bs1[i + 2] == bs[i + 1];
  }

  /** The partition and the free bytes after shrinking in place. */
  lemma CutDownHeap(c: Config, bs: seq<Block>, e: nat, i: nat, n: nat)
    requires Heap(c, bs, e) && i < |bs| && bs[i].used && n % c.align == 0
    requires bs[i].at + c.hdr + n + c.hdr <= NextAt(bs, e, i)
    ensures Heap(c, CutDown(c, bs, i, n), e)
    ensures FreeData(c, CutDown(c, bs, i, n), e) == FreeData(c, bs, e) + NextAt(bs, e, i) - (bs[i].at + c.hdr + n)
              - if RightFree(bs, i) then 0 else c.hdr
  {
    var p := bs[i].at + c.hdr + n;
    CutDownIs(c, bs, i, n);
    ShrinkBlockHeap(c, bs, e, i, n);
    CutOffTotal(bs, e, i, p, false, c.hdr);
    MergeNextTotal(CutOff(bs, i, p), e, i + 1, false, c.hdr);
  }

  lemma CutDownListOk(c: Config, bs: seq<Block>, e: nat, i: nat, n: nat, fl: seq<nat>)
    requires Ascending(bs, e) && c.hdr > 0 && i < |bs| && bs[i].used && FreeListOk(fl, bs)
    requires bs[i].at + c.hdr + n < NextAt(bs, e, i)
    ensures FreeListOk(ResizeList(c, bs, i, n, fl), CutDown(c, bs, i, n))
  {
    var p := bs[i].at + c.hdr + n;
    var bs1 := CutOff(bs, i, p);
    CutOffListOk(bs, e, i, p, fl);
    if RightFree(bs, i) {
      SplitAscends(bs, e, i, p);
      assert bs1[i + 1].at == p && bs1[i + 2] == bs[i + 1];
      SwallowListOk(bs1, e, i + 1, fl, Some(p));
      SwallowIsFree(bs1, e, i + 1, p);
      PushOk(Without(fl, bs[i + 1].at), Swallow(bs1, i + 1), p);
    } else {
      PushOk(fl, bs1, p);
    }
  }

  lemma CutDownKept(c: Config, b0: seq<bv8>, b1: seq<bv8>, b2: seq<bv8>, bs: seq<Block>, e: nat, i: nat, n: nat)
    requires i < |bs|
    requires Kept(b0, b1, c.hdr, Headers(bs, e) + Headers(CutOff(bs, i, bs[i].at + c.hdr + n), e))
    requires Kept(b1, b2, c.hdr, Headers(CutOff(bs, i, bs[i].at + c.hdr + n), e))
    ensures Kept(b0, b2, c.hdr, Headers(bs, e) + Headers(CutDown(c, bs, i, n), e))
  {
    var bs1, bs' := CutOff(bs, i, bs[i].at + c.hdr + n), CutDown(c, bs, i, n);
    var hs := Headers(bs, e) + Headers(bs', e);
    forall x | x in Headers(bs1, e) ensures x in hs {
      if x != e {
        var k :| 0 <= k < |bs1| && bs1[k].at == x;
        if k == i + 1 { assert bs'[i + 1] == bs1[i + 1]; } else { assert bs1[k] == bs[if k <= i then k else k - 1]; }
      }
    }
    KeptTwice(b0, b1, b2, c.hdr, Headers(bs, e) + Headers(bs1, e), Headers(bs1, e), hs);
  }

  // ----- the strict bound on requests -----

  /** A free block never holds more than all of them together. */
  lemma FreeDataCovers(c: Config, bs: seq<Block>, e: nat, i: nat)
    requires Tiled(c, bs, e) && i < |bs| && !bs[i].used
    ensures FreeData(c, bs, e) >= NextAt(bs, e, i) - bs[i].at - c.hdr
  {
    var a, x, b := bs[..i], bs[i], bs[i + 1..];
    TiledAround(c, bs, e, i);
    TotalConcat(a, [x] + b, e, false, c.hdr);
    TotalConcat([x], b, e, false, c.hdr);
    TotalOne(x, Start(b, e), false, c.hdr);
    FreeDataNonNegative(c, a, x.at);
    FreeDataNonNegative(c, b, e);
  }

  lemma {:induction false} FreeDataNonNegative(c: Config, bs: seq<Block>, e: nat)
    requires Tiled(c, bs, e)
    ensures FreeData(c, bs, e) >= 0
  {
    if bs != [] {
      TiledAround(c, bs, e, 0);
      FreeDataNonNegative(c, bs[1..], e);
    }
  }

  /** `rt_memheap_alloc` refuses a request that some free block fits if and only if the request
      takes all available bytes; that block is then the only room there is. */
  lemma RefusedFitIff(c: Config, bs: seq<Block>, e: nat, i: nat, n: nat)
    requires Tiled(c, bs, e) && i < |bs| && Fits(c, bs, e, i, n)
    ensures !CanTake(c, bs, e, FreeData(c, bs, e), n) <==> n == FreeData(c, bs, e)
    ensures n == FreeData(c, bs, e) ==> NextAt(bs, e, i) == bs[i].at + c.hdr + n
  {
    FreeDataCovers(c, bs, e, i);
  }

  /** In every fresh pool the request for all of its data bytes fits and is refused. */
  lemma FreshPoolRefuses(c: Config, bs: seq<Block>, e: nat, n: nat)
    requires ConfigOk(c) && bs == [Block(0, false)] && e % c.align == 0 && n == e - c.hdr && n >= c.minData
    ensures Request(c, n) == n && Fits(c, bs, e, 0, n) && !CanTake(c, bs, e, FreeData(c, bs, e), n)
  {
    SubAligned(e, c.hdr, c.align);
    assert NextAt(bs, e, 0) == e;
    TotalOne(Block(0, false), e, false, c.hdr);
  }
}
