/** A heap as a list of blocks: how taking, freeing and shrinking change the partition. */
module Blocks {
  import opened Alignment

  /** Alignment, header size, least data size, and the slack below which a shrink is not done:
      RT_ALIGN_SIZE, SIZEOF_STRUCT_MEM, MIN_SIZE_ALIGNED and MIN_SIZE in the small-memory heap;
      RT_ALIGN_SIZE, RT_MEMHEAP_SIZE and twice RT_MEMHEAP_MINIALLOC in a memheap. */
  datatype Config = Config(align: nat, hdr: nat, minData: nat, minSize: nat)

  ghost predicate ConfigOk(c: Config)
  {
    c.align > 0 && c.hdr > 0 && c.hdr % c.align == 0 && c.minData % c.align == 0 && c.minSize <= c.minData
  }

  /** A block starts at heap offset `at` with its header and reaches to the next block, or to
      the end marker at `e`. */
  datatype Block = Block(at: nat, used: bool)

  function Start(bs: seq<Block>, e: nat): nat
  {
    if bs == [] then e else bs[0].at
  }

  function NextAt(bs: seq<Block>, e: nat, i: nat): nat
    requires i < |bs|
  {
    if i + 1 < |bs| then bs[i + 1].at else e
  }

  /** The blocks tile [first start, e), each with room for its header. */
  ghost predicate Tiled(c: Config, bs: seq<Block>, e: nat)
  {
    forall i {:trigger NextAt(bs, e, i)} :: 0 <= i < |bs| ==> bs[i].at + c.hdr <= NextAt(bs, e, i)
  }

  ghost predicate Aligned(c: Config, bs: seq<Block>, e: nat)
    requires c.align > 0
  {
    e % c.align == 0 && forall i :: 0 <= i < |bs| ==> AlignedAt(c, bs, i)
  }

  ghost predicate AlignedAt(c: Config, bs: seq<Block>, i: nat)
    requires c.align > 0 && i < |bs|
  {
    bs[i].at % c.align == 0
  }

  ghost predicate Coalesced(bs: seq<Block>)
  {
    forall i :: 0 <= i < |bs| - 1 ==> ApartAt(bs, i)
  }

  /** Of two neighbours one is used. */
  ghost predicate ApartAt(bs: seq<Block>, i: nat)
    requires i + 1 < |bs|
  {
    bs[i].used || bs[i + 1].used
  }

  ghost predicate Heap(c: Config, bs: seq<Block>, e: nat)
  {
    ConfigOk(c) && bs != [] && bs[0].at == 0 && Tiled(c, bs, e) && Aligned(c, bs, e) && Coalesced(bs)
  }

  predicate Fits(c: Config, bs: seq<Block>, e: nat, i: nat, n: nat)
    requires i < |bs|
  {
    !bs[i].used && NextAt(bs, e, i) >= bs[i].at + c.hdr + n
  }

  /** The size `rt_smem_alloc` looks for. */
  function Request(c: Config, n: nat): nat
    requires c.align > 0
  {
    var size := RoundUp(n, c.align);
    if size < c.minData then c.minData else size
  }

  /** Block `i` becomes used, split when a block of at least minData bytes is left over. */
  function TakeBlock(c: Config, bs: seq<Block>, e: nat, i: nat, n: nat): seq<Block>
    requires i < |bs|
  {
    var at := bs[i].at;
    if NextAt(bs, e, i) >= at + c.hdr + n + c.hdr + c.minData
    then bs[..i] + [Block(at, true), Block(at + c.hdr + n, false)] + bs[i + 1..]
    else bs[i := Block(at, true)]
  }

  /** Block `i` swallows its successor. */
  function Swallow(bs: seq<Block>, i: nat): seq<Block>
    requires i + 1 < |bs|
  {
    bs[..i + 1] + bs[i + 2..]
  }

  /** Join blocks `i` and `i + 1` when both are free. */
  function MergeNext(bs: seq<Block>, i: nat): seq<Block>
  {
    if i + 1 < |bs| && !bs[i].used && !bs[i + 1].used then Swallow(bs, i) else bs
  }

  /** `plug_holes` at block `i`: forward, then backward. */
  function PlugHoles(bs: seq<Block>, i: nat): seq<Block>
  {
    var bs1 := MergeNext(bs, i);
    if i > 0 then MergeNext(bs1, i - 1) else bs1
  }

  function FreeBlock(bs: seq<Block>, i: nat): seq<Block>
    requires i < |bs|
  {
    PlugHoles(bs[i := bs[i].(used := false)], i)
  }

  /** A free block starting at `p` is cut off the end of block `i`. */
  function CutOff(bs: seq<Block>, i: nat, p: nat): seq<Block>
    requires i < |bs|
  {
    bs[..i + 1] + [Block(p, false)] + bs[i + 1..]
  }

  /** The in-place shrink of `rt_smem_realloc` to `n` data bytes. */
  function ShrinkBlock(c: Config, bs: seq<Block>, i: nat, n: nat): seq<Block>
    requires i < |bs|
  {
    PlugHoles(CutOff(bs, i, bs[i].at + c.hdr + n), i + 1)
  }

  lemma TiledConcat(c: Config, a: seq<Block>, b: seq<Block>, e: nat)
    ensures Tiled(c, a + b, e) <==> Tiled(c, a, Start(b, e)) && Tiled(c, b, e)
  {
    forall k | 0 <= k < |a| ensures NextAt(a + b, e, k) == NextAt(a, Start(b, e), k) {
      assert (a + b)[k] == a[k];
    }
    forall k | 0 <= k < |b| ensures NextAt(a + b, e, |a| + k) == NextAt(b, e, k) {
      assert (a + b)[|a| + k] == b[k];
    }
    if Tiled(c, a + b, e) {
      forall k | 0 <= k < |b| ensures b[k].at + c.hdr <= NextAt(b, e, k) {
        assert (a + b)[|a| + k] == b[k] && NextAt(a + b, e, |a| + k) == NextAt(b, e, k);
      }
    }
    if Tiled(c, a, Start(b, e)) && Tiled(c, b, e) {
      forall k | 0 <= k < |a + b| ensures (a + b)[k].at + c.hdr <= NextAt(a + b, e, k) {
        if k >= |a| { assert NextAt(a + b, e, k) == NextAt(b, e, k - |a|); }
      }
    }
  }

  /** A list of blocks cut around block `i`. */
  lemma TiledAround(c: Config, bs: seq<Block>, e: nat, i: nat)
    requires i < |bs|
    ensures bs == bs[..i] + ([bs[i]] + bs[i + 1..]) && Start(bs[i + 1..], e) == NextAt(bs, e, i)
    ensures Tiled(c, bs, e) <==>
              && Tiled(c, bs[..i], bs[i].at) && bs[i].at + c.hdr <= NextAt(bs, e, i) && Tiled(c, bs[i + 1..], e)
  {
    var a, x, b := bs[..i], bs[i], bs[i + 1..];
    assert bs == a + ([x] + b);
    TiledConcat(c, a, [x] + b, e);
    TiledConcat(c, [x], b, e);
    assert NextAt([x], Start(b, e), 0) == Start(b, e);
  }

  /** Starts increase with the index. */
  lemma {:induction false} StartsIncrease(c: Config, bs: seq<Block>, e: nat, k: nat, i: nat)
    requires c.hdr > 0 && Tiled(c, bs, e) && k <= |bs| && i < |bs|
    ensures k <= i ==> bs[k].at + (i - k) <= bs[i].at
    ensures k > i ==> bs[i].at + c.hdr <= Start(bs[k..], e)
    decreases if k <= i then i - k else k - i
  {
    if k < i {
      StartsIncrease(c, bs, e, k + 1, i);
      assert NextAt(bs, e, k) == bs[k + 1].at;
    } else if k > i {
      assert NextAt(bs, e, k - 1) == Start(bs[k..], e);
      if k > i + 1 { StartsIncrease(c, bs, e, k - 1, i); }
    }
  }

  /** Every pair of neighbours but those at `i` has a used block in it. */
  ghost predicate CoalescedBut(bs: seq<Block>, i: nat)
  {
    forall k :: 0 <= k < |bs| - 1 && k != i && k + 1 != i ==> ApartAt(bs, k)
  }

  /** Block `k` after a join was block `o` before it. */
  lemma SwallowAt(bs: seq<Block>, e: nat, i: nat, k: nat) returns (o: nat)
    requires i + 1 < |bs| && k + 1 < |bs|
    ensures o == (if k <= i then k else k + 1)
    ensures |Swallow(bs, i)| == |bs| - 1 && Swallow(bs, i)[k] == bs[o]
    ensures NextAt(Swallow(bs, i), e, k) == if k == i then NextAt(bs, e, i + 1) else NextAt(bs, e, o)
  {
    o := if k <= i then k else k + 1;
  }

  lemma MergeNextTiles(c: Config, bs: seq<Block>, e: nat, i: nat)
    requires c.align > 0 && Tiled(c, bs, e) && Aligned(c, bs, e)
    ensures var bs' := MergeNext(bs, i); Tiled(c, bs', e) && Aligned(c, bs', e) && Start(bs', e) == Start(bs, e)
  {
    if i + 1 < |bs| && !bs[i].used && !bs[i + 1].used {
      var bs' := MergeNext(bs, i);
      forall k | 0 <= k < |bs'| ensures bs'[k].at + c.hdr <= NextAt(bs', e, k) && AlignedAt(c, bs', k) {
        var o := SwallowAt(bs, e, i, k);
        assert AlignedAt(c, bs, o);
        assert NextAt(bs, e, i) == bs[i + 1].at;
      }
    }
  }

  lemma PlugHolesHeap(c: Config, bs: seq<Block>, e: nat, i: nat)
    requires c.align > 0 && i < |bs| && Tiled(c, bs, e) && Aligned(c, bs, e) && CoalescedBut(bs, i) && !bs[i].used
    ensures var bs' := PlugHoles(bs, i);
            && Tiled(c, bs', e) && Aligned(c, bs', e) && Coalesced(bs') && bs' != [] && Start(bs', e) == Start(bs, e)
  {
    var bs1 := MergeNext(bs, i);
    MergeNextTiles(c, bs, e, i);
    PlugHolesApart(bs, i);
    if i > 0 {
      MergeNextTiles(c, bs1, e, i - 1);
    }
  }

  lemma PlugHolesApart(bs: seq<Block>, i: nat)
    requires i < |bs| && CoalescedBut(bs, i) && !bs[i].used
    ensures Coalesced(PlugHoles(bs, i))
  {
    var bs1 := MergeNext(bs, i);
    forall k | 0 <= k < |bs1| - 1 && k + 1 != i ensures ApartAt(bs1, k) {
      if |bs1| < |bs| && k > i { assert ApartAt(bs, k + 1); }
      else if |bs1| < |bs| && k == i { assert i + 2 < |bs| ==> ApartAt(bs, i + 1); }
      else if k != i { assert ApartAt(bs, k); }
    }
    if i > 0 {
      var bs2 := MergeNext(bs1, i - 1);
      forall k | 0 <= k < |bs2| - 1 ensures ApartAt(bs2, k) {
        if |bs2| < |bs1| && k >= i - 1 { assert ApartAt(bs1, k + 1); }
        else if k + 1 != i { assert ApartAt(bs1, k); }
      }
    }
  }

  // ----- what each operation keeps -----

  /** A mark moves no block. */
  lemma MarkTiles(c: Config, bs: seq<Block>, e: nat, i: nat, used: bool)
    requires c.align > 0 && Tiled(c, bs, e) && Aligned(c, bs, e) && i < |bs|
    ensures var bs' := bs[i := Block(bs[i].at, used)]; Tiled(c, bs', e) && Aligned(c, bs', e)
  {
    var bs' := bs[i := Block(bs[i].at, used)];
    forall k | 0 <= k < |bs'| ensures bs'[k].at + c.hdr <= NextAt(bs', e, k) {
      assert NextAt(bs, e, k) == NextAt(bs', e, k);
    }
    forall k | 0 <= k < |bs'| ensures AlignedAt(c, bs', k) { assert AlignedAt(c, bs, k); }
  }

  lemma TakeBlockTiles(c: Config, bs: seq<Block>, e: nat, i: nat, n: nat)
    requires c.align > 0 && c.hdr % c.align == 0 && Tiled(c, bs, e) && Aligned(c, bs, e)
    requires i < |bs| && Fits(c, bs, e, i, n) && n % c.align == 0
    ensures Tiled(c, TakeBlock(c, bs, e, i, n), e) && Aligned(c, TakeBlock(c, bs, e, i, n), e)
  {
    var bs' := TakeBlock(c, bs, e, i, n);
    TiledAround(c, bs, e, i);
    TiledAround(c, bs', e, i);
    assert bs'[..i] == bs[..i];
    if |bs'| > |bs| {
      assert AlignedAt(c, bs, i);
      AddAligned(bs[i].at, c.hdr, c.align);
      AddAligned(bs[i].at + c.hdr, n, c.align);
      assert bs'[i + 1..][1..] == bs[i + 1..];
      TiledAround(c, bs'[i + 1..], e, 0);
    } else {
      assert bs'[i + 1..] == bs[i + 1..];
    }
    forall k | 0 <= k < |bs'| ensures AlignedAt(c, bs', k) {
      if k <= i || |bs'| == |bs| { assert AlignedAt(c, bs, k); }
      else if k > i + 1 { assert AlignedAt(c, bs, k - 1); }
    }
  }

  lemma TakeBlockHeap(c: Config, bs: seq<Block>, e: nat, i: nat, n: nat)
    requires Heap(c, bs, e) && i < |bs| && Fits(c, bs, e, i, n) && n % c.align == 0
    ensures Heap(c, TakeBlock(c, bs, e, i, n), e)
  {
    TakeBlockTiles(c, bs, e, i, n);
    var bs' := TakeBlock(c, bs, e, i, n);
    forall k | 0 <= k < |bs'| - 1 ensures ApartAt(bs', k) {
      if k > i && |bs'| > |bs| { assert ApartAt(bs, k - 1); } else if k < |bs| - 1 { assert ApartAt(bs, k); }
    }
  }

  lemma FreeBlockHeap(c: Config, bs: seq<Block>, e: nat, i: nat)
    requires Heap(c, bs, e) && i < |bs| && bs[i].used
    ensures Heap(c, FreeBlock(bs, i), e)
  {
    var bs1 := bs[i := bs[i].(used := false)];
    TiledAround(c, bs, e, i);
    TiledAround(c, bs1, e, i);
    assert bs1[..i] == bs[..i] && bs1[i + 1..] == bs[i + 1..];
    forall k | 0 <= k < |bs1| ensures AlignedAt(c, bs1, k) { assert AlignedAt(c, bs, k); }
    forall k | 0 <= k < |bs1| - 1 && k != i && k + 1 != i ensures ApartAt(bs1, k) { assert ApartAt(bs, k); }
    PlugHolesHeap(c, bs1, e, i);
  }

  /** Allocating a block and freeing it again restores the partition. */
  lemma AllocThenFree(c: Config, bs: seq<Block>, e: nat, i: nat, n: nat)
    requires Heap(c, bs, e) && i < |bs| && Fits(c, bs, e, i, n)
    ensures TakeBlock(c, bs, e, i, n)[i] == Block(bs[i].at, true)
    ensures FreeBlock(TakeBlock(c, bs, e, i, n), i) == bs
  {
    var bs' := TakeBlock(c, bs, e, i, n);
    var free := bs'[i := bs'[i].(used := false)];
    if i > 0 { assert ApartAt(bs, i - 1); }
    if i + 1 < |bs| { assert ApartAt(bs, i); }
    if |bs'| > |bs| {
      assert MergeNext(free, i) == bs;
    } else {
      assert free == bs;
    }
  }

  /** Block `k` after a cut was block `o` before it, unless it is the new one. */
  lemma CutOffAt(bs: seq<Block>, e: nat, i: nat, p: nat, k: nat) returns (o: nat)
    requires i < |bs| && k <= |bs|
    ensures o == (if k <= i then k else k - 1)
    ensures |CutOff(bs, i, p)| == |bs| + 1 && CutOff(bs, i, p)[k] == if k == i + 1 then Block(p, false) else bs[o]
    ensures NextAt(CutOff(bs, i, p), e, k) == if k == i then p else NextAt(bs, e, o)
  {
    o := if k <= i then k else k - 1;
  }

  lemma ShrinkTiles(c: Config, bs: seq<Block>, e: nat, i: nat, n: nat)
    requires Heap(c, bs, e) && i < |bs| && n % c.align == 0
    requires bs[i].at + c.hdr + n + c.hdr <= NextAt(bs, e, i)
    ensures var bs1 := CutOff(bs, i, bs[i].at + c.hdr + n);
            Tiled(c, bs1, e) && Aligned(c, bs1, e)
  {
    var p := bs[i].at + c.hdr + n;
    var bs1 := CutOff(bs, i, p);
    assert AlignedAt(c, bs, i);
    AddAligned(bs[i].at, c.hdr, c.align);
    AddAligned(bs[i].at + c.hdr, n, c.align);
    forall k | 0 <= k < |bs1| ensures bs1[k].at + c.hdr <= NextAt(bs1, e, k) && AlignedAt(c, bs1, k) {
      var o := CutOffAt(bs, e, i, p, k);
      assert AlignedAt(c, bs, o);
    }
  }

  lemma ShrinkBlockHeap(c: Config, bs: seq<Block>, e: nat, i: nat, n: nat)
    requires Heap(c, bs, e) && i < |bs| && bs[i].used && n % c.align == 0
    requires bs[i].at + c.hdr + n + c.hdr <= NextAt(bs, e, i)
    ensures var bs', at2 := ShrinkBlock(c, bs, i, n), bs[i].at + c.hdr + n;
            && Heap(c, bs', e) && |bs'| > i + 1 && bs'[i] == bs[i] && bs'[i + 1] == Block(at2, false)
  {
    ShrinkReady(c, bs, e, i, n);
    var bs1 := CutOff(bs, i, bs[i].at + c.hdr + n);
    PlugHolesHeap(c, bs1, e, i + 1);
    ShrinkKeeps(c, bs, i, n);
  }

  /** The shrunk block stays where it was and now ends after `n` data bytes. */
  lemma ShrinkKeeps(c: Config, bs: seq<Block>, i: nat, n: nat)
    requires i < |bs| && bs[i].used
    ensures var bs' := ShrinkBlock(c, bs, i, n);
            |bs'| > i + 1 && bs'[i] == bs[i] && bs'[i + 1] == Block(bs[i].at + c.hdr + n, false)
  {
    var bs1 := CutOff(bs, i, bs[i].at + c.hdr + n);
    var bs2 := MergeNext(bs1, i + 1);
    assert bs2[i] == bs1[i] == bs[i] && bs2[i + 1] == bs1[i + 1];
    assert MergeNext(bs2, i) == bs2;
  }

  /** A shrunk block's new neighbour is ready to be joined with what follows. */
  lemma ShrinkReady(c: Config, bs: seq<Block>, e: nat, i: nat, n: nat)
    requires Heap(c, bs, e) && i < |bs| && bs[i].used && n % c.align == 0
    requires bs[i].at + c.hdr + n + c.hdr <= NextAt(bs, e, i)
    ensures var at2 := bs[i].at + c.hdr + n; var bs1 := CutOff(bs, i, at2);
            && Tiled(c, bs1, e) && Aligned(c, bs1, e) && CoalescedBut(bs1, i + 1) && bs1[0].at == 0
  {
    ShrinkTiles(c, bs, e, i, n);
    var bs1 := CutOff(bs, i, bs[i].at + c.hdr + n);
    forall k | 0 <= k < |bs1| - 1 && k != i + 1 && k != i ensures ApartAt(bs1, k) {
      if k > i + 1 { assert ApartAt(bs, k - 1); } else { assert ApartAt(bs, k); }
    }
  }

  /** Where block `i` is after block `j` was taken. */
  function Shifted(c: Config, bs: seq<Block>, e: nat, j: nat, n: nat, i: nat): nat
    requires j < |bs|
  {
    if |TakeBlock(c, bs, e, j, n)| > |bs| && i > j then i + 1 else i
  }

  lemma TakeBlockKeeps(c: Config, bs: seq<Block>, e: nat, j: nat, n: nat, i: nat)
    requires i < |bs| && j < |bs| && i != j
    ensures var bs', i' := TakeBlock(c, bs, e, j, n), Shifted(c, bs, e, j, n, i);
            i' < |bs'| && bs'[i'] == bs[i] && NextAt(bs', e, i') == NextAt(bs, e, i)
  {
  }

  lemma RequestAligned(c: Config, n: nat)
    requires ConfigOk(c)
    ensures Request(c, n) % c.align == 0 && Request(c, n) >= n && Request(c, Request(c, n)) == Request(c, n)
    ensures Request(c, n) >= c.minData && (Request(c, n) == c.minData || Request(c, n) < n + c.align)
  {
    RoundUpIs(n, c.align);
  }

  /** Live data areas: inside the heap, past their headers, and pairwise apart. */
  lemma LiveDisjoint(c: Config, bs: seq<Block>, e: nat, i: nat, j: nat)
    requires Heap(c, bs, e) && i < j < |bs|
    ensures bs[i].at + c.hdr <= NextAt(bs, e, i) <= bs[j].at < bs[j].at + c.hdr <= NextAt(bs, e, j) <= e
  {
    StartsIncrease(c, bs, e, i + 1, j);
    if j + 1 < |bs| { StartsIncrease(c, bs, e, |bs|, j + 1); }
  }

  // ----- sums over blocks -----

  /** What a block adds to a sum over the used (or free) blocks that leaves out `h` bytes of each. */
  function Part(x: Block, next: nat, u: bool, h: nat): int
  {
    if x.used == u then next - x.at - h else 0
  }

  /** The lengths of the blocks with used bit `u`, less `h` each. */
  function Total(bs: seq<Block>, e: nat, u: bool, h: nat): int
  {
    if bs == [] then 0 else Part(bs[0], Start(bs[1..], e), u, h) + Total(bs[1..], e, u, h)
  }

  lemma {:induction false} TotalConcat(a: seq<Block>, b: seq<Block>, e: nat, u: bool, h: nat)
    ensures Total(a + b, e, u, h) == Total(a, Start(b, e), u, h) + Total(b, e, u, h)
  {
    if a == [] {
      assert a + b == b;
    } else {
      assert (a + b)[1..] == a[1..] + b;
      TotalConcat(a[1..], b, e, u, h);
    }
  }

  /** Replacing a stretch of blocks by another with the same start changes the sum by their difference. */
  lemma TotalReplace(a: seq<Block>, m: seq<Block>, m': seq<Block>, b: seq<Block>, e: nat, u: bool, h: nat)
    requires m != [] && m' != [] && m[0].at == m'[0].at
    ensures Total(a + (m' + b), e, u, h) - Total(a + (m + b), e, u, h)
         == Total(m', Start(b, e), u, h) - Total(m, Start(b, e), u, h)
  {
    TotalConcat(a, m + b, e, u, h);
    TotalConcat(a, m' + b, e, u, h);
    TotalConcat(m, b, e, u, h);
    TotalConcat(m', b, e, u, h);
  }

  lemma TotalOne(x: Block, e: nat, u: bool, h: nat)
    ensures Total([x], e, u, h) == Part(x, e, u, h)
  {
  }

  lemma TotalTwo(x: Block, y: Block, e: nat, u: bool, h: nat)
    ensures Total([x, y], e, u, h) == Part(x, y.at, u, h) + Part(y, e, u, h)
  {
    assert [x, y] == [x] + [y];
    TotalConcat([x], [y], e, u, h);
  }

  lemma MergeNextTotal(bs: seq<Block>, e: nat, i: nat, u: bool, h: nat)
    ensures Total(MergeNext(bs, i), e, u, h) == Total(bs, e, u, h) + if !u && |MergeNext(bs, i)| < |bs| then h else 0
  {
    if i + 1 < |bs| && !bs[i].used && !bs[i + 1].used {
      var a, x, y, b := bs[..i], bs[i], bs[i + 1], bs[i + 2..];
      assert bs == a + ([x, y] + b) && MergeNext(bs, i) == a + ([x] + b);
      TotalReplace(a, [x, y], [x], b, e, u, h);
      TotalTwo(x, y, Start(b, e), u, h);
      TotalOne(x, Start(b, e), u, h);
    }
  }

  lemma TakeBlockTotal(c: Config, bs: seq<Block>, e: nat, i: nat, n: nat, u: bool, h: nat)
    requires i < |bs| && !bs[i].used
    ensures var bs' := TakeBlock(c, bs, e, i, n);
            Total(bs', e, u, h) == Total(bs, e, u, h) + Part(bs'[i], NextAt(bs', e, i), u, h) - Part(bs[i], NextAt(bs, e, i), u, h)
              + if |bs'| > |bs| then Part(bs'[i + 1], NextAt(bs, e, i), u, h) else 0
  {
    var a, x, b := bs[..i], bs[i], bs[i + 1..];
    var bs' := TakeBlock(c, bs, e, i, n);
    assert bs == a + ([x] + b);
    TotalOne(x, Start(b, e), u, h);
    if |bs'| > |bs| {
      var y, z := bs'[i], bs'[i + 1];
      assert bs' == a + ([y, z] + b);
      TotalReplace(a, [x], [y, z], b, e, u, h);
      TotalTwo(y, z, Start(b, e), u, h);
    } else {
      assert bs' == a + ([bs'[i]] + b);
      TotalReplace(a, [x], [bs'[i]], b, e, u, h);
      TotalOne(bs'[i], Start(b, e), u, h);
    }
  }

  lemma MarkTotal(bs: seq<Block>, e: nat, i: nat, used: bool, u: bool, h: nat)
    requires i < |bs|
    ensures var y := Block(bs[i].at, used);
            Total(bs[i := y], e, u, h) == Total(bs, e, u, h) + Part(y, NextAt(bs, e, i), u, h) - Part(bs[i], NextAt(bs, e, i), u, h)
  {
    var a, x, y, b := bs[..i], bs[i], Block(bs[i].at, used), bs[i + 1..];
    assert bs == a + ([x] + b) && bs[i := y] == a + ([y] + b);
    TotalReplace(a, [x], [y], b, e, u, h);
    TotalOne(x, Start(b, e), u, h);
    TotalOne(y, Start(b, e), u, h);
  }

  lemma CutOffTotal(bs: seq<Block>, e: nat, i: nat, p: nat, u: bool, h: nat)
    requires i < |bs|
    ensures Total(CutOff(bs, i, p), e, u, h)
         == Total(bs, e, u, h) + Part(bs[i], p, u, h) + Part(Block(p, false), NextAt(bs, e, i), u, h)
              - Part(bs[i], NextAt(bs, e, i), u, h)
  {
    var a, x, y, b := bs[..i], bs[i], Block(p, false), bs[i + 1..];
    assert bs == a + ([x] + b) && CutOff(bs, i, p) == a + ([x, y] + b);
    TotalReplace(a, [x], [x, y], b, e, u, h);
    TotalOne(x, Start(b, e), u, h);
    TotalTwo(x, y, Start(b, e), u, h);
  }
}
