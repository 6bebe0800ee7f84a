/** The used blocks of a heap as a set of extents: what taking, freeing and resizing add and take away. */
module BlockLive {
  import opened Blocks

  /** Where each used block starts and ends, headers included. */
  ghost function Live(bs: seq<Block>, e: nat): set<(nat, nat)>
  {
    if bs == [] then {}
    else (if bs[0].used then {(bs[0].at, Start(bs[1..], e))} else {}) + Live(bs[1..], e)
  }

  lemma {:induction false} LiveIs(bs: seq<Block>, e: nat, x: (nat, nat))
    ensures x in Live(bs, e) <==> exists i :: 0 <= i < |bs| && bs[i].used && x == (bs[i].at, NextAt(bs, e, i))
  {
    if bs != [] {
      var rest := bs[1..];
      LiveIs(rest, e, x);
      forall i | 0 <= i < |rest| ensures rest[i] == bs[i + 1] && NextAt(rest, e, i) == NextAt(bs, e, i + 1) { }
      if exists i :: 0 <= i < |bs| && bs[i].used && x == (bs[i].at, NextAt(bs, e, i)) {
        var i :| 0 <= i < |bs| && bs[i].used && x == (bs[i].at, NextAt(bs, e, i));
        if i > 0 { assert rest[i - 1].used && x == (rest[i - 1].at, NextAt(rest, e, i - 1)); }
      }
      if x in Live(rest, e) {
        var i :| 0 <= i < |rest| && rest[i].used && x == (rest[i].at, NextAt(rest, e, i));
        assert bs[i + 1].used && x == (bs[i + 1].at, NextAt(bs, e, i + 1));
      } else if bs[0].used {
        assert NextAt(bs, e, 0) == Start(rest, e);
      }
    }
  }

  lemma {:induction false} LiveConcat(a: seq<Block>, b: seq<Block>, e: nat)
    ensures Live(a + b, e) == Live(a, Start(b, e)) + Live(b, e)
  {
    if a == [] {
      assert a + b == b;
    } else {
      assert (a + b)[1..] == a[1..] + b;
      LiveConcat(a[1..], b, e);
    }
  }

  lemma LiveOne(x: Block, e: nat)
    ensures Live([x], e) == if x.used then {(x.at, e)} else {}
  {
    assert [x][1..] == [];
  }

  /** The blocks `m` between `a` and `b` are replaced by `m'` with the same start. */
  lemma LiveReplace(a: seq<Block>, m: seq<Block>, m': seq<Block>, b: seq<Block>, e: nat)
    requires m != [] && m' != [] && m[0].at == m'[0].at
    ensures Live(a + (m + b), e) == Live(a, m[0].at) + Live(m, Start(b, e)) + Live(b, e)
    ensures Live(a + (m' + b), e) == Live(a, m[0].at) + Live(m', Start(b, e)) + Live(b, e)
  {
    LiveConcat(a, m + b, e);
    LiveConcat(m, b, e);
    LiveConcat(a, m' + b, e);
    LiveConcat(m', b, e);
  }

  lemma LiveTwo(x: Block, y: Block, e: nat)
    ensures Live([x, y], e) == (if x.used then {(x.at, y.at)} else {}) + (if y.used then {(y.at, e)} else {})
  {
    assert [x, y] == [x] + [y];
    LiveConcat([x], [y], e);
    LiveOne(x, y.at);
    LiveOne(y, e);
  }

  /** Two used blocks have different starts. */
  lemma StartsDiffer(c: Config, bs: seq<Block>, e: nat, i: nat, x: (nat, nat))
    requires c.hdr > 0 && Tiled(c, bs, e) && i < |bs| && x in Live(bs, e)
    ensures x.0 == bs[i].at ==> bs[i].used && x.1 == NextAt(bs, e, i)
  {
    LiveIs(bs, e, x);
    var k :| 0 <= k < |bs| && bs[k].used && x == (bs[k].at, NextAt(bs, e, k));
    if k < i { StartsIncrease(c, bs, e, i, k); } else if i < k { StartsIncrease(c, bs, e, k, i); }
  }

  /** Where a block taken for `n` bytes ends, in a free block from `p` to `q`: right behind them if what is left over is a
      block of its own, and at `q` otherwise. */
  ghost predicate EndsAt(c: Config, p: nat, q: nat, n: nat, q': nat)
  {
    && p + c.hdr + n <= q' <= q
    && (q - (p + c.hdr + n) >= c.hdr + c.minData ==> q' == p + c.hdr + n)
    && (q - (p + c.hdr + n) < c.hdr + c.minData ==> q' == q)
  }

  lemma TakeEnds(c: Config, bs: seq<Block>, e: nat, i: nat, n: nat)
    requires i < |bs| && Fits(c, bs, e, i, n)
    ensures i < |TakeBlock(c, bs, e, i, n)| && EndsAt(c, bs[i].at, NextAt(bs, e, i), n, NextAt(TakeBlock(c, bs, e, i, n), e, i))
  {
  }

  /** Block `i` is used from now on, up to where the next block starts. */
  lemma TakeLive(c: Config, bs: seq<Block>, e: nat, i: nat, n: nat)
    requires i < |bs| && !bs[i].used
    ensures var bs' := TakeBlock(c, bs, e, i, n);
            i < |bs'| && Live(bs', e) == Live(bs, e) + {(bs[i].at, NextAt(bs', e, i))}
  {
    var a, x, b, bs' := bs[..i], bs[i], bs[i + 1..], TakeBlock(c, bs, e, i, n);
    assert bs == a + ([x] + b);
    LiveOne(x, Start(b, e));
    if |bs'| > |bs| {
      var y, z := Block(x.at, true), Block(x.at + c.hdr + n, false);
      assert bs' == a + ([y, z] + b);
      LiveReplace(a, [x], [y, z], b, e);
      LiveTwo(y, z, Start(b, e));
    } else {
      var y := Block(x.at, true);
      assert bs' == a + ([y] + b);
      LiveReplace(a, [x], [y], b, e);
      LiveOne(y, Start(b, e));
    }
  }

  lemma MergeLive(bs: seq<Block>, e: nat, i: nat)
    ensures Live(MergeNext(bs, i), e) == Live(bs, e)
  {
    if i + 1 < |bs| && !bs[i].used && !bs[i + 1].used {
      var a, x, y, b := bs[..i], bs[i], bs[i + 1], bs[i + 2..];
      assert bs == a + ([x, y] + b) && MergeNext(bs, i) == a + ([x] + b);
      LiveReplace(a, [x, y], [x], b, e);
      LiveTwo(x, y, Start(b, e));
      LiveOne(x, Start(b, e));
    }
  }

  lemma PlugLive(bs: seq<Block>, e: nat, i: nat)
    ensures Live(PlugHoles(bs, i), e) == Live(bs, e)
  {
    MergeLive(bs, e, i);
    if i > 0 { MergeLive(MergeNext(bs, i), e, i - 1); }
  }

  lemma LiveBelow(c: Config, bs: seq<Block>, e: nat, i: nat)
    requires c.hdr > 0 && Tiled(c, bs, e) && i <= |bs|
    ensures forall x :: x in Live(bs[..i], Start(bs[i..], e)) ==> x.0 < Start(bs[i..], e)
    ensures forall x :: x in Live(bs[i..], e) ==> x.0 >= Start(bs[i..], e)
  {
    var a, b, s := bs[..i], bs[i..], Start(bs[i..], e);
    forall x | x in Live(a, s) ensures x.0 < s {
      LiveIs(a, s, x);
      var k :| 0 <= k < |a| && a[k].used && x == (a[k].at, NextAt(a, s, k));
      StartsIncrease(c, bs, e, i, k);
    }
    forall x | x in Live(b, e) ensures x.0 >= s {
      LiveIs(b, e, x);
      var k :| 0 <= k < |b| && b[k].used && x == (b[k].at, NextAt(b, e, k));
      if k > 0 { StartsIncrease(c, bs, e, i + k, i); }
    }
  }

  /** One used block, in place of which there are the blocks `m`. */
  lemma SwapLive(c: Config, bs: seq<Block>, e: nat, i: nat, m: seq<Block>)
    requires c.hdr > 0 && Tiled(c, bs, e) && i < |bs| && bs[i].used && m != [] && m[0].at == bs[i].at
    ensures Live(bs[..i] + (m + bs[i + 1..]), e) == Live(bs, e) - {(bs[i].at, NextAt(bs, e, i))} + Live(m, NextAt(bs, e, i))
    ensures (bs[i].at, NextAt(bs, e, i)) in Live(bs, e)
  {
    var a, x, b := bs[..i], bs[i], bs[i + 1..];
    assert bs == a + ([x] + b) && Start(b, e) == NextAt(bs, e, i);
    LiveReplace(a, [x], m, b, e);
    LiveOne(x, Start(b, e));
    LiveBelow(c, bs, e, i);
    LiveBelow(c, bs, e, i + 1);
    assert Start(bs[i..], e) == x.at && x.at < NextAt(bs, e, i);
  }

  /** Freeing takes away exactly block `i`. */
  lemma FreeLive(c: Config, bs: seq<Block>, e: nat, i: nat)
    requires c.hdr > 0 && Tiled(c, bs, e) && i < |bs| && bs[i].used
    ensures Live(FreeBlock(bs, i), e) == Live(bs, e) - {(bs[i].at, NextAt(bs, e, i))}
    ensures (bs[i].at, NextAt(bs, e, i)) in Live(bs, e)
  {
    var y := bs[i].(used := false);
    SwapLive(c, bs, e, i, [y]);
    LiveOne(y, NextAt(bs, e, i));
    assert bs[i := y] == bs[..i] + ([y] + bs[i + 1..]);
    PlugLive(bs[i := y], e, i);
  }

  /** Cutting block `i` off at `p` changes only its end. */
  lemma CutLive(c: Config, bs: seq<Block>, e: nat, i: nat, p: nat)
    requires c.hdr > 0 && Tiled(c, bs, e) && i < |bs| && bs[i].used
    ensures Live(CutOff(bs, i, p), e) == Live(bs, e) - {(bs[i].at, NextAt(bs, e, i))} + {(bs[i].at, p)}
    ensures (bs[i].at, NextAt(bs, e, i)) in Live(bs, e)
  {
    var x, y := bs[i], Block(p, false);
    SwapLive(c, bs, e, i, [x, y]);
    LiveTwo(x, y, NextAt(bs, e, i));
    assert CutOff(bs, i, p) == bs[..i] + ([x, y] + bs[i + 1..]);
  }

  lemma ShrinkLive(c: Config, bs: seq<Block>, e: nat, i: nat, n: nat)
    requires c.hdr > 0 && Tiled(c, bs, e) && i < |bs| && bs[i].used
    ensures Live(ShrinkBlock(c, bs, i, n), e) == Live(bs, e) - {(bs[i].at, NextAt(bs, e, i))} + {(bs[i].at, bs[i].at + c.hdr + n)}
    ensures (bs[i].at, NextAt(bs, e, i)) in Live(bs, e)
  {
    var p := bs[i].at + c.hdr + n;
    CutLive(c, bs, e, i, p);
    PlugLive(CutOff(bs, i, p), e, i + 1);
  }

  /** Moving the start of the free block behind block `i` changes only the end of block `i`. */
  lemma GrowLive(c: Config, bs: seq<Block>, e: nat, i: nat, p: nat)
    requires c.hdr > 0 && Tiled(c, bs, e) && i + 1 < |bs| && bs[i].used && !bs[i + 1].used
    ensures Live(bs[i + 1 := Block(p, false)], e) == Live(bs, e) - {(bs[i].at, NextAt(bs, e, i))} + {(bs[i].at, p)}
    ensures (bs[i].at, NextAt(bs, e, i)) in Live(bs, e)
  {
    var a, x, y, z, b := bs[..i], bs[i], bs[i + 1], Block(p, false), bs[i + 2..];
    assert bs == a + ([x, y] + b) && bs[i + 1 := z] == a + ([x, z] + b);
    LiveReplace(a, [x, y], [x, z], b, e);
    LiveTwo(x, y, Start(b, e));
    LiveTwo(x, z, Start(b, e));
    LiveBelow(c, bs, e, i);
    LiveBelow(c, bs, e, i + 2);
    StartsIncrease(c, bs, e, i + 2, i);
  }

  // ----- resizing -----

  /** The used block from `p` to `q` is replaced by one from `p'` to `q'`; there is no other at `p'`, and all others stay. */
  ghost predicate Replaces(live: set<(nat, nat)>, live': set<(nat, nat)>, p: nat, q: nat, p': nat, q': nat)
  {
    && (p, q) in live && live' == live - {(p, q)} + {(p', q')} && |live'| == |live|
    && forall x :: x in live && x != (p, q) ==> x.0 != p'
  }

  lemma ReplacedCount(live: set<(nat, nat)>, live': set<(nat, nat)>, p: nat, q: nat, p': nat, q': nat)
    requires (p, q) in live && live' == live - {(p, q)} + {(p', q')} && forall x :: x in live && x != (p, q) ==> x.0 != p'
    ensures Replaces(live, live', p, q, p', q')
  {
    var rest := live - {(p, q)};
    assert live == rest + {(p, q)} && (p', q') !in rest;
  }

  /** The block at `i` stays where it is, with another end. */
  lemma StaysReplaces(c: Config, bs: seq<Block>, e: nat, i: nat, live': set<(nat, nat)>, q': nat)
    requires c.hdr > 0 && Tiled(c, bs, e) && i < |bs| && bs[i].used
    requires live' == Live(bs, e) - {(bs[i].at, NextAt(bs, e, i))} + {(bs[i].at, q')}
    ensures Replaces(Live(bs, e), live', bs[i].at, NextAt(bs, e, i), bs[i].at, q')
  {
    var x := (bs[i].at, NextAt(bs, e, i));
    LiveIs(bs, e, x);
    forall y | y in Live(bs, e) && y != x ensures y.0 != bs[i].at { StartsDiffer(c, bs, e, i, y); }
    ReplacedCount(Live(bs, e), live', x.0, x.1, bs[i].at, q');
  }

  lemma Swapped(c: Config, bs: seq<Block>, e: nat, i: nat, j: nat, mid: set<(nat, nat)>, live': set<(nat, nat)>, q': nat)
    requires c.hdr > 0 && Tiled(c, bs, e) && i < |bs| && bs[i].used && j < |bs| && !bs[j].used
    requires mid == Live(bs, e) + {(bs[j].at, q')} && live' == mid - {(bs[i].at, NextAt(bs, e, i))}
    ensures Replaces(Live(bs, e), live', bs[i].at, NextAt(bs, e, i), bs[j].at, q')
  {
    var x := (bs[i].at, NextAt(bs, e, i));
    LiveIs(bs, e, x);
    forall y | y in Live(bs, e) ensures y.0 != bs[j].at { StartsDiffer(c, bs, e, j, y); }
    ReplacedCount(Live(bs, e), live', x.0, x.1, bs[j].at, q');
  }

  /** Taking block `j` for `n` bytes and then freeing block `i` moves it. */
  lemma MoveReplaces(c: Config, bs: seq<Block>, e: nat, i: nat, j: nat, n: nat)
    requires Heap(c, bs, e) && i < |bs| && bs[i].used && j < |bs| && Fits(c, bs, e, j, n) && n % c.align == 0
    ensures var mid, i' := TakeBlock(c, bs, e, j, n), Shifted(c, bs, e, j, n, i);
            && j < |mid| && i' < |mid| && EndsAt(c, bs[j].at, NextAt(bs, e, j), n, NextAt(mid, e, j))
            && Replaces(Live(bs, e), Live(FreeBlock(mid, i'), e), bs[i].at, NextAt(bs, e, i), bs[j].at, NextAt(mid, e, j))
  {
    var mid, i' := TakeBlock(c, bs, e, j, n), Shifted(c, bs, e, j, n, i);
    TakeBlockKeeps(c, bs, e, j, n, i);
    TakeBlockHeap(c, bs, e, j, n);
    TakeLive(c, bs, e, j, n);
    TakeEnds(c, bs, e, j, n);
    FreeLive(c, mid, e, i');
    Swapped(c, bs, e, i, j, Live(mid, e), Live(FreeBlock(mid, i'), e), NextAt(mid, e, j));
  }
}
