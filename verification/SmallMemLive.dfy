/** What requests to the small-memory heap mean for its users: which blocks are theirs before and after. */
module SmallMemLive {
  import opened Lists
  import opened Alignment
  import opened Blocks
  import opened BlockLive
  import opened SmallMemModel

  ghost predicate NoFit(c: Config, bs: seq<Block>, e: nat, n: nat)
    requires c.align > 0
  {
    forall j :: 0 <= j < |bs| ==> !Fits(c, bs, e, j, Request(c, n))
  }

  /** The lowest free block with room for `n` bytes starts at `p`; taken for them, it ends at `q`. */
  ghost predicate LowestFit(c: Config, bs: seq<Block>, e: nat, n: nat, p: nat, q: nat)
    requires c.align > 0
  {
    exists j :: 0 <= j < |bs| && FitAt(c, bs, e, n, p, q, j)
  }

  ghost predicate FitAt(c: Config, bs: seq<Block>, e: nat, n: nat, p: nat, q: nat, j: nat)
    requires c.align > 0 && j < |bs|
  {
    && bs[j].at == p && Fits(c, bs, e, j, Request(c, n)) && EndsAt(c, p, NextAt(bs, e, j), Request(c, n), q)
    && forall k :: 0 <= k < j ==> !Fits(c, bs, e, k, Request(c, n))
  }

  // ----- allocation -----

  /** A new block with its data at `ptr`, up to `q`, where the lowest fit was, with room for `n` bytes; all others stay. */
  ghost predicate NewBlock(c: Config, e: nat, n: nat, bs: seq<Block>, bs': seq<Block>, ptr: nat, q: nat)
    requires c.align > 0
  {
    ptr >= c.hdr && var p := ptr - c.hdr;
    && LowestFit(c, bs, e, n, p, q) && ptr + n <= q
    && Live(bs', e) == Live(bs, e) + {(p, q)} && (forall x :: x in Live(bs, e) ==> x.0 != p)
    && UsedSum(bs', e) == UsedSum(bs, e) + (q - p)
  }

  /** One block more, or nothing changed and nothing fits. */
  ghost predicate AllocTells(c: Config, e: nat, n: nat, bs: seq<Block>, r: Option<nat>, bs': seq<Block>)
    requires c.align > 0
  {
    if r.None? then bs' == bs && (n == 0 || NoFit(c, bs, e, n))
    else n > 0 && exists q :: NewBlock(c, e, n, bs, bs', r.value, q)
  }

  lemma AllocAnswers(c: Config, e: nat, n: nat, bs: seq<Block>)
    requires Heap(c, bs, e)
    ensures var (r, bs') := Alloc(c, bs, e, n); AllocTells(c, e, n, bs, r, bs')
  {
    var fit, want := FirstFit(c, bs, e, Request(c, n)), Request(c, n);
    RequestAligned(c, n);
    if n > 0 && fit.Some? {
      var j := fit.value;
      var bs' := TakeBlock(c, bs, e, j, want);
      TakeLive(c, bs, e, j, want);
      TakeBlockSums(c, bs, e, j, want);
      TakeEnds(c, bs, e, j, want);
      forall y | y in Live(bs, e) ensures y.0 != bs[j].at { StartsDiffer(c, bs, e, j, y); }
      assert FitAt(c, bs, e, n, bs[j].at, NextAt(bs', e, j), j);
      assert NewBlock(c, e, n, bs, bs', bs[j].at + c.hdr, NextAt(bs', e, j));
    }
  }

  // ----- release -----

  lemma FreeAnswers(c: Config, e: nat, bs: seq<Block>, i: nat)
    requires Heap(c, bs, e) && i < |bs| && bs[i].used
    ensures Live(FreeBlock(bs, i), e) == Live(bs, e) - {(bs[i].at, NextAt(bs, e, i))} && (bs[i].at, NextAt(bs, e, i)) in Live(bs, e)
    ensures UsedSum(FreeBlock(bs, i), e) == UsedSum(bs, e) - (NextAt(bs, e, i) - bs[i].at)
  {
    FreeLive(c, bs, e, i);
    FreeBlockSums(c, bs, e, i);
  }

  // ----- resizing -----

  /** The used block from `p` to `q` becomes one with its data at `ptr`, up to `q'`, with room for `n` bytes; all others stay.  It stays in
      place if its size is right or far too large, and then has exactly the size asked for; else it goes to the lowest fit. */
  ghost predicate NewPlace(c: Config, e: nat, n: nat, bs: seq<Block>, bs': seq<Block>, p: nat, q: nat, ptr: nat, q': nat)
    requires c.align > 0
  {
    ptr >= c.hdr && var p' := ptr - c.hdr;
    && ptr + n <= q' && Replaces(Live(bs, e), Live(bs', e), p, q, p', q')
    && UsedSum(bs', e) == UsedSum(bs, e) + (q' - p') - (q - p)
    && (p' == p <==> q == p + c.hdr + n || n + c.hdr + c.minSize < q - p - c.hdr)
    && (p' == p ==> q' == p + c.hdr + n) && (p' != p ==> LowestFit(c, bs, e, n, p', q'))
  }

  /** With size 0 the block goes; else there is one block for it as before, or nothing changed and nothing fits. */
  ghost predicate ResizeTells(c: Config, e: nat, n: nat, bs: seq<Block>, p: nat, q: nat, r: Option<nat>, bs': seq<Block>)
    requires c.align > 0
  {
    if n == 0 then
      && r == None && (p, q) in Live(bs, e) && Live(bs', e) == Live(bs, e) - {(p, q)}
      && UsedSum(bs', e) == UsedSum(bs, e) - (q - p)
    else if r.None? then bs' == bs && NoFit(c, bs, e, n)
    else exists q' :: NewPlace(c, e, n, bs, bs', p, q, r.value, q')
  }

  lemma PlaceTells(c: Config, e: nat, n: nat, bs: seq<Block>, bs': seq<Block>, p: nat, q: nat, ptr: nat, q': nat)
    requires c.align > 0 && n > 0 && NewPlace(c, e, n, bs, bs', p, q, ptr, q')
    ensures ResizeTells(c, e, n, bs, p, q, Some(ptr), bs')
  {
  }

  /** The block stays in place, with exactly the new size. */
  lemma StaysAnswers(c: Config, e: nat, n: nat, bs: seq<Block>, bs': seq<Block>, p: nat, q: nat, ptr: nat, q': nat)
    requires c.align > 0 && n > 0 && ptr == p + c.hdr && q' == ptr + n && (q == q' || n + c.hdr + c.minSize < q - p - c.hdr)
    requires Replaces(Live(bs, e), Live(bs', e), p, q, p, q') && UsedSum(bs', e) == UsedSum(bs, e) + (q' - p) - (q - p)
    ensures ResizeTells(c, e, n, bs, p, q, Some(ptr), bs')
  {
    PlaceTells(c, e, n, bs, bs', p, q, ptr, q');
  }

  lemma KeptAnswers(c: Config, e: nat, i: nat, n: nat, bs: seq<Block>, q: nat, ptr: nat)
    requires Heap(c, bs, e) && i < |bs| && bs[i].used && q == NextAt(bs, e, i) && ptr == bs[i].at + c.hdr && n > 0 && q == ptr + n
    ensures ResizeTells(c, e, n, bs, bs[i].at, q, Some(ptr), bs)
  {
    LiveIs(bs, e, (bs[i].at, q));
    StaysReplaces(c, bs, e, i, Live(bs, e), q);
    StaysAnswers(c, e, n, bs, bs, bs[i].at, q, ptr, q);
  }

  lemma ShrinkAnswers(c: Config, e: nat, i: nat, n: nat, bs: seq<Block>, q: nat, ptr: nat, bs': seq<Block>, q': nat)
    requires Heap(c, bs, e) && i < |bs| && bs[i].used && q == NextAt(bs, e, i) && ptr == bs[i].at + c.hdr && n > 0
    requires n + c.hdr + c.minSize < q - bs[i].at - c.hdr && bs' == ShrinkBlock(c, bs, i, n) && q' == ptr + n
    ensures ResizeTells(c, e, n, bs, bs[i].at, q, Some(ptr), bs')
  {
    ShrinkLive(c, bs, e, i, n);
    ShrinkSums(c, bs, e, i, n);
    StaysReplaces(c, bs, e, i, Live(bs', e), q');
    StaysAnswers(c, e, n, bs, bs', bs[i].at, q, ptr, q');
  }

  lemma MoveSums(c: Config, e: nat, i: nat, bs: seq<Block>, j: nat, want: nat)
    requires Heap(c, bs, e) && i < |bs| && bs[i].used && j < |bs| && Fits(c, bs, e, j, want) && want % c.align == 0
    ensures var mid, i' := TakeBlock(c, bs, e, j, want), Shifted(c, bs, e, j, want, i);
            && i' < |mid| && j < |mid|
            && UsedSum(FreeBlock(mid, i'), e) == UsedSum(bs, e) + (NextAt(mid, e, j) - bs[j].at) - (NextAt(bs, e, i) - bs[i].at)
  {
    TakeBlockKeeps(c, bs, e, j, want, i);
    TakeBlockHeap(c, bs, e, j, want);
    TakeBlockSums(c, bs, e, j, want);
    FreeBlockSums(c, TakeBlock(c, bs, e, j, want), e, Shifted(c, bs, e, j, want, i));
  }

  /** The old block is replaced by one at the lowest fit, which starts at `p'`. */
  lemma MoveAnswers(c: Config, e: nat, n: nat, bs: seq<Block>, bs': seq<Block>, p: nat, q: nat, ptr: nat, p': nat, q': nat)
    requires c.align > 0 && n > 0 && ptr == p' + c.hdr && p' != p && LowestFit(c, bs, e, n, p', q') && ptr + n <= q'
    requires q != p + c.hdr + n && q - p - c.hdr <= n + c.hdr + c.minSize
    requires Replaces(Live(bs, e), Live(bs', e), p, q, p', q') && UsedSum(bs', e) == UsedSum(bs, e) + (q' - p') - (q - p)
    ensures ResizeTells(c, e, n, bs, p, q, Some(ptr), bs')
  {
    PlaceTells(c, e, n, bs, bs', p, q, ptr, q');
  }

  lemma LowestIs(c: Config, e: nat, n: nat, bs: seq<Block>, j: nat, q': nat)
    requires ConfigOk(c) && FirstFit(c, bs, e, Request(c, n)) == Some(j) && EndsAt(c, bs[j].at, NextAt(bs, e, j), Request(c, n), q')
    ensures LowestFit(c, bs, e, n, bs[j].at, q') && bs[j].at + c.hdr + n <= q'
  {
    RequestAligned(c, n);
    assert FitAt(c, bs, e, n, bs[j].at, q', j);
  }

  lemma OtherStart(c: Config, bs: seq<Block>, e: nat, i: nat, j: nat)
    requires c.hdr > 0 && Tiled(c, bs, e) && i < |bs| && bs[i].used && j < |bs| && !bs[j].used
    ensures bs[j].at != bs[i].at
  {
    LiveIs(bs, e, (bs[i].at, NextAt(bs, e, i)));
    StartsDiffer(c, bs, e, j, (bs[i].at, NextAt(bs, e, i)));
  }

  lemma MovedAnswers(c: Config, e: nat, i: nat, n: nat, bs: seq<Block>, q: nat, r: Option<nat>, bs': seq<Block>)
    requires Heap(c, bs, e) && i < |bs| && bs[i].used && q == NextAt(bs, e, i) && n > 0 && (r, bs') == Moved(c, bs, e, i, n)
    requires q != bs[i].at + c.hdr + n && q - bs[i].at - c.hdr <= n + c.hdr + c.minSize
    ensures ResizeTells(c, e, n, bs, bs[i].at, q, r, bs')
  {
    if r.Some? {
      var want := Request(c, n);
      var j := FirstFit(c, bs, e, want).value;
      var q' := NextAt(TakeBlock(c, bs, e, j, want), e, j);
      RequestAligned(c, n);
      MoveReplaces(c, bs, e, i, j, want);
      MoveSums(c, e, i, bs, j, want);
      LowestIs(c, e, n, bs, j, q');
      OtherStart(c, bs, e, i, j);
      MoveAnswers(c, e, n, bs, bs', bs[i].at, q, r.value, bs[j].at, q');
    }
  }

  lemma TooBigAnswers(c: Config, e: nat, i: nat, n: nat, bs: seq<Block>)
    requires Heap(c, bs, e) && i < |bs| && e < n + c.hdr
    ensures n > 0 && NoFit(c, bs, e, n)
  {
    RequestAligned(c, n);
    StartsIncrease(c, bs, e, |bs|, i);
    PastBound(c, bs, e, 0, Request(c, n));
  }

  /** What a resize answers, from the partitions before and after only. */
  lemma ResizeAnswers(c: Config, e: nat, i: nat, n: nat, bs: seq<Block>)
    requires Heap(c, bs, e) && i < |bs| && bs[i].used
    ensures var (r, bs') := Resize(c, bs, e, i, n); ResizeTells(c, e, n, bs, bs[i].at, NextAt(bs, e, i), r, bs')
  {
    var (r, bs') := Resize(c, bs, e, i, n);
    var q := NextAt(bs, e, i);
    if e < n + c.hdr {
      TooBigAnswers(c, e, i, n, bs);
    } else if n == 0 {
      FreeAnswers(c, e, bs, i);
    } else if q == bs[i].at + c.hdr + n {
      KeptAnswers(c, e, i, n, bs, q, r.value);
    } else if n + c.hdr + c.minSize < q - bs[i].at - c.hdr {
      ShrinkAnswers(c, e, i, n, bs, q, r.value, bs', r.value + n);
    } else {
      MovedAnswers(c, e, i, n, bs, q, r, bs');
    }
  }
}
