/** What the small-memory allocator keeps beside the partition, and what its requests do. */
module SmallMemModel {
  import opened Lists
  import opened Alignment
  import opened Blocks

  function LowestFree(bs: seq<Block>, e: nat): nat
  {
    if bs == [] then e else if !bs[0].used then bs[0].at else LowestFree(bs[1..], e)
  }

  /** The full lengths of the used blocks, headers included. */
  function UsedSum(bs: seq<Block>, e: nat): int
  {
    Total(bs, e, true, 0)
  }

  /** The lowest block that fits a request of `n` bytes. */
  function FirstFit(c: Config, bs: seq<Block>, e: nat, n: nat): (r: Option<nat>)
    ensures r.Some? ==> r.value < |bs| && Fits(c, bs, e, r.value, n)
    ensures r.Some? ==> forall j :: 0 <= j < r.value ==> !Fits(c, bs, e, j, n)
    ensures r.None? ==> forall j :: 0 <= j < |bs| ==> !Fits(c, bs, e, j, n)
  {
    if bs == [] then None
    else if Fits(c, bs, e, 0, n) then Some(0)
    else
      var r := FirstFit(c, bs[1..], e, n);
      assert forall j :: 0 < j < |bs| ==> Fits(c, bs, e, j, n) == Fits(c, bs[1..], e, j - 1, n);
      if r.Some? then Some(r.value + 1) else None
  }

  // ----- lists in pieces -----

  lemma {:induction false} LowestFreeConcat(a: seq<Block>, b: seq<Block>, e: nat)
    ensures LowestFree(a + b, e) == if (exists i :: 0 <= i < |a| && !a[i].used) then LowestFree(a, e) else LowestFree(b, e)
  {
    if a == [] {
      assert a + b == b;
    } else {
      assert (a + b)[1..] == a[1..] + b;
      LowestFreeConcat(a[1..], b, e);
      if exists i :: 0 <= i < |a[1..]| && !a[1..][i].used {
        var i :| 0 <= i < |a[1..]| && !a[1..][i].used;
        assert !a[i + 1].used;
      }
    }
  }

  /** `lfree` as an index: it starts the first free block, or it is the end marker. */
  lemma {:induction false} LowestFreeIs(bs: seq<Block>, e: nat) returns (k: nat)
    ensures k <= |bs| && (forall i :: 0 <= i < k ==> bs[i].used)
    ensures LowestFree(bs, e) == Start(bs[k..], e) && (k < |bs| ==> !bs[k].used)
  {
    if bs == [] || !bs[0].used {
      k := 0;
      assert bs[0..] == bs;
    } else {
      k := LowestFreeIs(bs[1..], e);
      k := k + 1;
      assert bs[k..] == bs[1..][k - 1..];
      assert forall i :: 0 < i < |bs| ==> bs[i] == bs[1..][i - 1];
    }
  }

  lemma MergeNextLowest(bs: seq<Block>, e: nat, i: nat)
    ensures LowestFree(MergeNext(bs, i), e) == LowestFree(bs, e)
  {
    if i + 1 < |bs| && !bs[i].used && !bs[i + 1].used {
      var a, x, y, b := bs[..i], bs[i], bs[i + 1], bs[i + 2..];
      assert bs == a + ([x, y] + b) && MergeNext(bs, i) == a + ([x] + b);
      LowestFreeConcat(a, [x, y] + b, e);
      LowestFreeConcat(a, [x] + b, e);
    }
  }

  /** Joining free neighbours leaves `used` and `lfree` as they are. */
  lemma PlugHolesSums(bs: seq<Block>, e: nat, i: nat)
    ensures UsedSum(PlugHoles(bs, i), e) == UsedSum(bs, e) && LowestFree(PlugHoles(bs, i), e) == LowestFree(bs, e)
  {
    var bs1 := MergeNext(bs, i);
    MergeNextTotal(bs, e, i, true, 0);
    MergeNextLowest(bs, e, i);
    if i > 0 {
      MergeNextTotal(bs1, e, i - 1, true, 0);
      MergeNextLowest(bs1, e, i - 1);
    }
  }

  /** `used` grows by the block's full length, as it is after a split. */
  lemma TakeBlockSums(c: Config, bs: seq<Block>, e: nat, i: nat, n: nat)
    requires i < |bs| && !bs[i].used
    ensures var bs' := TakeBlock(c, bs, e, i, n); UsedSum(bs', e) == UsedSum(bs, e) + NextAt(bs', e, i) - bs[i].at
  {
    TakeBlockTotal(c, bs, e, i, n, true, 0);
  }

  /** Marking a used block free. */
  lemma FreeMarkSums(c: Config, bs: seq<Block>, e: nat, i: nat)
    requires c.hdr > 0 && Tiled(c, bs, e) && i < |bs| && bs[i].used
    ensures var bs1 := bs[i := Block(bs[i].at, false)];
            && UsedSum(bs1, e) == UsedSum(bs, e) - (NextAt(bs, e, i) - bs[i].at)
            && LowestFree(bs1, e) == if bs[i].at < LowestFree(bs, e) then bs[i].at else LowestFree(bs, e)
  {
    MarkTotal(bs, e, i, false, true, 0);
    var a, x, y, b := bs[..i], bs[i], Block(bs[i].at, false), bs[i + 1..];
    assert bs == a + ([x] + b) && bs[i := y] == a + ([y] + b);
    LowestFreeConcat(a, [x] + b, e);
    LowestFreeConcat(a, [y] + b, e);
    assert ([x] + b)[1..] == b;
    var k := LowestFreeIs(bs, e);
    StartsIncrease(c, bs, e, k, i);
  }

  /** What freeing does to `used` and `lfree`. */
  lemma FreeBlockSums(c: Config, bs: seq<Block>, e: nat, i: nat)
    requires c.hdr > 0 && Tiled(c, bs, e) && i < |bs| && bs[i].used
    ensures UsedSum(FreeBlock(bs, i), e) == UsedSum(bs, e) - (NextAt(bs, e, i) - bs[i].at)
    ensures LowestFree(FreeBlock(bs, i), e) == if bs[i].at < LowestFree(bs, e) then bs[i].at else LowestFree(bs, e)
  {
    FreeMarkSums(c, bs, e, i);
    PlugHolesSums(bs[i := Block(bs[i].at, false)], e, i);
    assert bs[i := Block(bs[i].at, false)] == bs[i := bs[i].(used := false)];
  }

  /** What the in-place shrink to `n` bytes does to `used` and `lfree`. */
  lemma ShrinkSums(c: Config, bs: seq<Block>, e: nat, i: nat, n: nat)
    requires Heap(c, bs, e) && i < |bs| && bs[i].used && bs[i].at + c.hdr + n + c.hdr <= NextAt(bs, e, i)
    ensures var at2 := bs[i].at + c.hdr + n; var bs1, bs' := CutOff(bs, i, at2), ShrinkBlock(c, bs, i, n);
            && UsedSum(bs', e) == UsedSum(bs, e) - (NextAt(bs, e, i) - at2)
            && LowestFree(bs', e) == LowestFree(bs1, e)
            && LowestFree(bs1, e) == if at2 < LowestFree(bs, e) then at2 else LowestFree(bs, e)
  {
    var at2 := bs[i].at + c.hdr + n;
    CutOffTotal(bs, e, i, at2, true, 0);
    ShrinkLowest(c, bs, e, i, Block(at2, false));
    PlugHolesSums(CutOff(bs, i, at2), e, i + 1);
  }

  lemma ShrinkLowest(c: Config, bs: seq<Block>, e: nat, i: nat, y: Block)
    requires c.hdr > 0 && Tiled(c, bs, e) && i < |bs| && bs[i].used && !y.used && bs[i].at <= y.at < NextAt(bs, e, i)
    ensures LowestFree(CutOff(bs, i, y.at), e) == if y.at < LowestFree(bs, e) then y.at else LowestFree(bs, e)
  {
    var a, b := bs[..i + 1], bs[i + 1..];
    assert bs == a + b && CutOff(bs, i, y.at) == a + ([y] + b);
    LowestFreeConcat(a, b, e);
    LowestFreeConcat(a, [y] + b, e);
    var k := LowestFreeIs(bs, e);
    assert k > i ==> forall j :: 0 <= j < |a| ==> a[j].used;
    StartsIncrease(c, bs, e, k, i);
    if k > i + 1 {
      StartsIncrease(c, bs, e, k, i + 1);
    }
    assert k < i ==> !a[k].used;
  }

  /** `rt_smem_alloc` on the partition: where the data of the new block starts, and the blocks after. */
  function Alloc(c: Config, bs: seq<Block>, e: nat, n: nat): (Option<nat>, seq<Block>)
    requires c.align > 0
  {
    var fit := FirstFit(c, bs, e, Request(c, n));
    if n == 0 || fit.None? then (None, bs)
    else (Some(bs[fit.value].at + c.hdr), TakeBlock(c, bs, e, fit.value, Request(c, n)))
  }

  /** `rt_smem_realloc` of the used block `i` to `n` bytes, already rounded. */
  function Resize(c: Config, bs: seq<Block>, e: nat, i: nat, n: nat): (Option<nat>, seq<Block>)
    requires c.align > 0 && i < |bs|
  {
    var at := bs[i].at;
    var size := NextAt(bs, e, i) - at - c.hdr;
    if e < n + c.hdr then (None, bs)
    else if n == 0 then (None, FreeBlock(bs, i))
    else if size == n then (Some(at + c.hdr), bs)
    else if n + c.hdr + c.minSize < size then (Some(at + c.hdr), ShrinkBlock(c, bs, i, n))
    else Moved(c, bs, e, i, n)
  }

  /** A new block is taken for `n` bytes, and then block `i` is freed. */
  function Moved(c: Config, bs: seq<Block>, e: nat, i: nat, n: nat): (Option<nat>, seq<Block>)
    requires c.align > 0 && i < |bs|
  {
    var fit := FirstFit(c, bs, e, Request(c, n));
    if fit.None? then (None, bs)
    else
      var j, want := fit.value, Request(c, n);
      (Some(bs[j].at + c.hdr), FreeBlock(TakeBlock(c, bs, e, j, want), Shifted(c, bs, e, j, want, i)))
  }

  /** The block a move takes is another one, has room for `n` bytes, and leaves block `i` as it was. */
  lemma MoveTakes(c: Config, bs: seq<Block>, e: nat, i: nat, n: nat)
    requires Heap(c, bs, e) && i < |bs| && bs[i].used && n > 0 && Alloc(c, bs, e, n).0.Some?
    ensures var j, want := FirstFit(c, bs, e, Request(c, n)).value, Request(c, n);
            var bs', i' := TakeBlock(c, bs, e, j, want), Shifted(c, bs, e, j, want, i);
            && Alloc(c, bs, e, n) == (Some(bs[j].at + c.hdr), bs')
            && i' < |bs'| && bs'[i'] == bs[i] && bs[j].at + c.hdr + n <= e
  {
    var j, want := FirstFit(c, bs, e, Request(c, n)).value, Request(c, n);
    TakeBlockKeeps(c, bs, e, j, want, i);
    RequestAligned(c, n);
    if j + 1 < |bs| { LiveDisjoint(c, bs, e, j, j + 1); }
  }

  /** Nothing at or after block `k` fits once its start is past the search bound. */
  lemma PastBound(c: Config, bs: seq<Block>, e: nat, k: nat, n: nat)
    requires Heap(c, bs, e) && k <= |bs| && Start(bs[k..], e) + n + c.hdr > e
    ensures forall j :: k <= j < |bs| ==> !Fits(c, bs, e, j, n)
  {
    forall j | k <= j < |bs| ensures !Fits(c, bs, e, j, n) {
      StartsIncrease(c, bs, e, k, j);
      StartsIncrease(c, bs, e, |bs|, j);
      if j + 1 < |bs| { StartsIncrease(c, bs, e, |bs|, j + 1); }
    }
  }

  lemma AllocTooBig(c: Config, bs: seq<Block>, e: nat, n: nat)
    requires Heap(c, bs, e) && Request(c, n) + c.hdr > e
    ensures Alloc(c, bs, e, n) == (None, bs)
  {
    PastBound(c, bs, e, 0, Request(c, n));
  }

  lemma FirstFitIs(c: Config, bs: seq<Block>, e: nat, i: nat, n: nat)
    requires i < |bs| && Fits(c, bs, e, i, n) && forall j :: 0 <= j < i ==> !Fits(c, bs, e, j, n)
    ensures FirstFit(c, bs, e, n) == Some(i)
  {
  }

  /** Allocating and then freeing what was returned restores the partition, and with it `lfree` and `used`. */
  lemma AllocFreeRestores(c: Config, bs: seq<Block>, e: nat, n: nat) returns (i: nat)
    requires Heap(c, bs, e) && Alloc(c, bs, e, n).0.Some?
    ensures var bs' := Alloc(c, bs, e, n).1;
            && i < |bs'| && bs'[i].used && Alloc(c, bs, e, n).0 == Some(bs'[i].at + c.hdr)
            && FreeBlock(bs', i) == bs
  {
    i := FirstFit(c, bs, e, Request(c, n)).value;
    AllocThenFree(c, bs, e, i, Request(c, n));
  }
}
