/** What requests to a memory pool mean for its users: which blocks are theirs before and after. */
module MemHeapLive {
  import opened Lists
  import opened Alignment
  import opened Blocks
  import opened BlockLive
  import opened MemHeapModel

  /** The first listed block with room for `n` bytes starts at `p`; taken for them, it ends at `q`. */
  ghost predicate FirstAt(c: Config, bs: seq<Block>, e: nat, fl: seq<nat>, n: nat, p: nat, q: nat)
  {
    exists j: nat :: FirstListed(c, bs, e, fl, n, j) && bs[j].at == p && EndsAt(c, p, NextAt(bs, e, j), n, q)
  }

  // ----- allocation -----

  /** A new block with its data at `ptr`, up to `q`, where the first listed fit was; all others stay. */
  ghost predicate NewBlock(c: Config, e: nat, n: nat, bs: seq<Block>, fl: seq<nat>, bs': seq<Block>, ptr: nat, q: nat)
  {
    ptr >= c.hdr && var p := ptr - c.hdr;
    && FirstAt(c, bs, e, fl, n, p, q) && ptr + n <= q
    && Live(bs', e) == Live(bs, e) + {(p, q)} && forall x :: x in Live(bs, e) ==> x.0 != p
  }

  ghost predicate AllocTells(c: Config, e: nat, n: nat, bs: seq<Block>, fl: seq<nat>, available: int, r: Option<nat>, bs': seq<Block>)
  {
    if r.None? then bs' == bs && !CanTake(c, bs, e, available, n)
    else CanTake(c, bs, e, available, n) && exists q :: NewBlock(c, e, n, bs, fl, bs', r.value, q)
  }

  /** One block more, or nothing changed, exactly as the request can be served. */
  lemma AllocAnswers(c: Config, e: nat, n: nat, bs: seq<Block>, fl: seq<nat>, available: int, r: Option<nat>, j: nat, bs': seq<Block>, fl': seq<nat>)
    requires Heap(c, bs, e) && n % c.align == 0 && Allocated(c, e, bs, fl, available, n, r, j, bs', fl')
    ensures AllocTells(c, e, n, bs, fl, available, r, bs')
  {
    if r.Some? {
      TakeLive(c, bs, e, j, n);
      TakeEnds(c, bs, e, j, n);
      TakeBlockHeap(c, bs, e, j, n);
      forall y | y in Live(bs, e) ensures y.0 != bs[j].at { StartsDiffer(c, bs, e, j, y); }
      assert NewBlock(c, e, n, bs, fl, bs', bs[j].at + c.hdr, NextAt(bs', e, j));
    }
  }

  // ----- resizing -----

  /** The block can stay where it is: it has the bytes, or there is enough room behind it. */
  ghost predicate Stays(c: Config, bs: seq<Block>, e: nat, i: nat, n: nat)
    requires i < |bs|
  {
    || n <= NextAt(bs, e, i) - bs[i].at - c.hdr
    || (i + 1 < |bs| && !bs[i + 1].used && NextAt(bs, e, i + 1) - bs[i].at > 2 * c.hdr + n + c.minData)
  }

  /** The used block `i` becomes one with its data at `ptr`, up to `q'`, with room for `n` bytes; all others stay.  In place
      it has exactly the size asked for unless it keeps its own, else it goes to the first listed fit. */
  ghost predicate NewPlace(c: Config, e: nat, i: nat, n: nat, bs: seq<Block>, fl: seq<nat>, bs': seq<Block>, ptr: nat, q': nat)
    requires i < |bs|
  {
    ptr >= c.hdr && var p, q, p' := bs[i].at, NextAt(bs, e, i), ptr - c.hdr;
    && ptr + n <= q' && Replaces(Live(bs, e), Live(bs', e), p, q, p', q')
    && (p' == p <==> Stays(c, bs, e, i, n))
    && (p' == p ==> q' == if n <= q - p - c.hdr <= n + c.hdr + c.minData then q else ptr + n)
    && (p' != p ==> FirstAt(c, bs, e, fl, n, p', q'))
  }

  /** One block for it as before, or nothing changed because it cannot stay and there is no other. */
  ghost predicate ResizeTells(c: Config, e: nat, i: nat, n: nat, bs: seq<Block>, fl: seq<nat>, available: int, r: Option<nat>, bs': seq<Block>)
    requires i < |bs|
  {
    if r.None? then bs' == bs && !Stays(c, bs, e, i, n) && !CanTake(c, bs, e, available, n)
    else exists q' :: NewPlace(c, e, i, n, bs, fl, bs', r.value, q')
  }

  lemma StaysAnswers(c: Config, e: nat, i: nat, n: nat, bs: seq<Block>, fl: seq<nat>, available: int, bs': seq<Block>, ptr: nat, q': nat)
    requires Heap(c, bs, e) && i < |bs| && bs[i].used && Stays(c, bs, e, i, n) && ptr == bs[i].at + c.hdr
    requires q' == if n <= NextAt(bs, e, i) - bs[i].at - c.hdr <= n + c.hdr + c.minData then NextAt(bs, e, i) else ptr + n
    requires Live(bs', e) == Live(bs, e) - {(bs[i].at, NextAt(bs, e, i))} + {(bs[i].at, q')}
    ensures ResizeTells(c, e, i, n, bs, fl, available, Some(ptr), bs')
  {
    StaysReplaces(c, bs, e, i, Live(bs', e), q');
    assert NewPlace(c, e, i, n, bs, fl, bs', ptr, q');
  }

  lemma MoveAnswers(c: Config, e: nat, i: nat, n: nat, bs: seq<Block>, fl: seq<nat>, available: int, j: nat, bs': seq<Block>, ptr: nat, q': nat)
    requires Heap(c, bs, e) && i < |bs| && bs[i].used && !Stays(c, bs, e, i, n) && FirstListed(c, bs, e, fl, n, j) && ptr == bs[j].at + c.hdr
    requires EndsAt(c, bs[j].at, NextAt(bs, e, j), n, q')
    requires Replaces(Live(bs, e), Live(bs', e), bs[i].at, NextAt(bs, e, i), bs[j].at, q')
    ensures ResizeTells(c, e, i, n, bs, fl, available, Some(ptr), bs')
  {
    assert bs[j].at != bs[i].at by {
      LiveIs(bs, e, (bs[i].at, NextAt(bs, e, i)));
      StartsDiffer(c, bs, e, j, (bs[i].at, NextAt(bs, e, i)));
    }
    assert FirstAt(c, bs, e, fl, n, ptr - c.hdr, q');
    assert NewPlace(c, e, i, n, bs, fl, bs', ptr, q');
  }

  /** What a resize answers, from the partitions before and after only. */
  lemma ResizeAnswers(c: Config, e: nat, i: nat, n: nat, bs: seq<Block>, fl: seq<nat>, available: int, r: Option<nat>, j: nat, bs': seq<Block>, fl': seq<nat>)
    requires Heap(c, bs, e) && i < |bs| && bs[i].used && n % c.align == 0 && Resized(c, e, bs, fl, available, i, n, r, j, bs', fl')
    ensures ResizeTells(c, e, i, n, bs, fl, available, r, bs')
  {
    var size := NextAt(bs, e, i) - bs[i].at - c.hdr;
    if n <= size <= n + c.hdr + c.minData {
      LiveIs(bs, e, (bs[i].at, NextAt(bs, e, i)));
      StaysAnswers(c, e, i, n, bs, fl, available, bs', r.value, NextAt(bs, e, i));
    } else if n < size {
      CutDownIs(c, bs, i, n);
      ShrinkLive(c, bs, e, i, n);
      StaysAnswers(c, e, i, n, bs, fl, available, bs', r.value, r.value + n);
    } else if Growable(c, bs, e, i, n) {
      GrowLive(c, bs, e, i, r.value + n);
      StaysAnswers(c, e, i, n, bs, fl, available, bs', r.value, r.value + n);
    } else if r.Some? {
      MoveReplaces(c, bs, e, i, j, n);
      MoveAnswers(c, e, i, n, bs, fl, available, j, bs', r.value, NextAt(TakeBlock(c, bs, e, j, n), e, j));
    }
  }

  // ----- which free block is next -----

  lemma HeadFirst(c: Config, bs: seq<Block>, e: nat, fl: seq<nat>, n: nat, j: nat, k: nat)
    requires fl != [] && k < |bs| && fl[0] == bs[k].at && Fits(c, bs, e, k, n) && FirstListed(c, bs, e, fl, n, j)
    ensures bs[j].at == bs[k].at
  {
    var l :| 0 <= l < |fl| && fl[l] == bs[j].at && forall m :: 0 <= m < l ==> TooSmall(c, bs, e, n, fl[m]);
    assert 0 < l ==> TooSmall(c, bs, e, n, fl[0]);
  }

  /** A block that was just freed, and was not joined to one on its left, is the next to be taken when it is large enough. */
  lemma FreedIsNext(c: Config, bs: seq<Block>, e: nat, fl: seq<nat>, i: nat, n: nat, j: nat)
    requires i < |bs| && bs[i].used && Tiled(c, bs, e) && (i > 0 ==> bs[i - 1].used) && bs[i].at + c.hdr + n <= NextAt(bs, e, i)
    requires FirstListed(c, FreeBlock(bs, i), e, ReleaseList(bs, i, fl), n, j)
    ensures FreeBlock(bs, i)[j].at == bs[i].at
  {
    var bs' := FreeBlock(bs, i);
    assert i < |bs'| && bs'[i] == Block(bs[i].at, false);
    if i + 1 < |bs| && !bs[i + 1].used {
      assert bs[i + 1].at + c.hdr <= NextAt(bs, e, i + 1);
      assert NextAt(bs', e, i) == NextAt(bs, e, i + 1);
    } else {
      assert NextAt(bs', e, i) == NextAt(bs, e, i);
    }
    HeadFirst(c, bs', e, ReleaseList(bs, i, fl), n, j, i);
  }

  /** What was split off a block that was just taken is the next to be taken when it is large enough. */
  lemma RestIsNext(c: Config, bs: seq<Block>, e: nat, fl: seq<nat>, i: nat, want: nat, n: nat, j: nat)
    requires i < |bs| && Fits(c, bs, e, i, want) && NextAt(bs, e, i) >= bs[i].at + c.hdr + want + c.hdr + c.minData
    requires bs[i].at + c.hdr + want + c.hdr + n <= NextAt(bs, e, i)
    requires FirstListed(c, TakeBlock(c, bs, e, i, want), e, TakeList(c, bs, e, i, want, fl), n, j)
    ensures TakeBlock(c, bs, e, i, want)[j].at == bs[i].at + c.hdr + want
  {
    var bs' := TakeBlock(c, bs, e, i, want);
    assert |bs'| == |bs| + 1 && bs'[i + 1] == Block(bs[i].at + c.hdr + want, false) && NextAt(bs', e, i + 1) == NextAt(bs, e, i);
    HeadFirst(c, bs', e, TakeList(c, bs, e, i, want, fl), n, j, i + 1);
  }

  /** What a resize in place leaves free behind the block is the next to be taken when it is large enough. */
  lemma TailIsNext(c: Config, bs: seq<Block>, e: nat, fl: seq<nat>, i: nat, m: nat, bs': seq<Block>, n: nat, j: nat)
    requires i < |bs| && i + 1 < |bs'| && bs'[i + 1] == Block(bs[i].at + c.hdr + m, false) && Fits(c, bs', e, i + 1, n)
    requires FirstListed(c, bs', e, ResizeList(c, bs, i, m, fl), n, j)
    ensures bs'[j].at == bs[i].at + c.hdr + m
  {
    HeadFirst(c, bs', e, ResizeList(c, bs, i, m, fl), n, j, i + 1);
  }
}
