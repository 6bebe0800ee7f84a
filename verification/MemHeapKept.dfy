/** What a pool heap keeps of the blocks an operation is not about, and its high-water mark. */
module MemHeapKept {
  import opened Bytes
  import HighWater
  import opened Alignment
  import opened Lists
  import opened Blocks
  import opened BlockLinks
  import opened MemHeapModel

  // ----- the high-water mark -----

  /** Bytes of the pool not available in a partition. */
  function InUse(c: Config, bs: seq<Block>, e: nat): int
  {
    e + c.hdr - FreeData(c, bs, e)
  }

  /** The bytes in use in each of the partitions the heap has been in. */
  function Uses(c: Config, e: nat, history: seq<seq<Block>>): seq<int>
  {
    seq(|history|, i requires 0 <= i < |history| => InUse(c, history[i], e))
  }

  /** The most bytes in use in any of them. */
  function Peak(c: Config, e: nat, history: seq<seq<Block>>): int
    requires history != []
  {
    HighWater.Peak(Uses(c, e, history))
  }

  lemma PeakMore(c: Config, e: nat, history: seq<seq<Block>>, bs: seq<Block>)
    requires history != []
    ensures Peak(c, e, history + [bs]) == if Peak(c, e, history) < InUse(c, bs, e) then InUse(c, bs, e) else Peak(c, e, history)
  {
    assert Uses(c, e, history + [bs]) == Uses(c, e, history) + [InUse(c, bs, e)];
    HighWater.PeakMore(Uses(c, e, history), InUse(c, bs, e));
  }

  /** It is reached, and never passed. */
  lemma PeakIs(c: Config, e: nat, history: seq<seq<Block>>)
    requires history != []
    ensures forall i :: 0 <= i < |history| ==> InUse(c, history[i], e) <= Peak(c, e, history)
    ensures exists i :: 0 <= i < |history| && InUse(c, history[i], e) == Peak(c, e, history)
  {
    var us := Uses(c, e, history);
    HighWater.PeakIs(us);
    forall i | 0 <= i < |history| ensures InUse(c, history[i], e) <= Peak(c, e, history) {
      assert us[i] == InUse(c, history[i], e);
    }
    var k :| 0 <= k < |us| && us[k] == HighWater.Peak(us);
    assert InUse(c, history[k], e) == us[k];
  }

  // ----- blocks that live on -----

  ghost predicate SameBlock(bs: seq<Block>, bs': seq<Block>, e: nat, k: nat, k': nat)
  {
    k < |bs| && k' < |bs'| && bs'[k'] == bs[k] && NextAt(bs', e, k') == NextAt(bs, e, k)
  }

  ghost predicate LivesOn(bs: seq<Block>, bs': seq<Block>, e: nat, k: nat)
  {
    exists k' :: SameBlock(bs, bs', e, k, k')
  }

  /** Every used block, those at `skips` aside, is there after with the same extent. */
  ghost predicate Lives(bs: seq<Block>, bs': seq<Block>, e: nat, skips: set<nat>)
  {
    forall k {:trigger LivesOn(bs, bs', e, k)} :: 0 <= k < |bs| && bs[k].used && bs[k].at !in skips ==> LivesOn(bs, bs', e, k)
  }

  lemma LivesTrans(a: seq<Block>, b: seq<Block>, d: seq<Block>, e: nat, skips: set<nat>)
    requires Lives(a, b, e, skips) && Lives(b, d, e, skips)
    ensures Lives(a, d, e, skips)
  {
    forall k | 0 <= k < |a| && a[k].used && a[k].at !in skips ensures LivesOn(a, d, e, k) {
      assert LivesOn(a, b, e, k);
      var k1 :| SameBlock(a, b, e, k, k1);
      assert LivesOn(b, d, e, k1);
      var k2 :| SameBlock(b, d, e, k1, k2);
      assert SameBlock(a, d, e, k, k2);
    }
  }

  lemma LivesTake(c: Config, bs: seq<Block>, e: nat, i: nat, n: nat, skips: set<nat>)
    requires i < |bs| && !bs[i].used
    ensures Lives(bs, TakeBlock(c, bs, e, i, n), e, skips)
  {
    forall k | 0 <= k < |bs| && bs[k].used ensures LivesOn(bs, TakeBlock(c, bs, e, i, n), e, k) {
      TakeBlockKeeps(c, bs, e, i, n, k);
      assert SameBlock(bs, TakeBlock(c, bs, e, i, n), e, k, Shifted(c, bs, e, i, n, k));
    }
  }

  lemma LivesSwallow(bs: seq<Block>, e: nat, i: nat, skips: set<nat>)
    requires i + 1 < |bs| && !bs[i + 1].used && (bs[i].used ==> bs[i].at in skips)
    ensures Lives(bs, Swallow(bs, i), e, skips)
  {
    forall k | 0 <= k < |bs| && bs[k].used && bs[k].at !in skips ensures LivesOn(bs, Swallow(bs, i), e, k) {
      var k' := if k <= i then k else k - 1;
      var o := SwallowAt(bs, e, i, k');
      assert SameBlock(bs, Swallow(bs, i), e, k, k');
    }
  }

  lemma LivesSelf(bs: seq<Block>, e: nat, skips: set<nat>)
    ensures Lives(bs, bs, e, skips)
  {
    forall k | 0 <= k < |bs| ensures LivesOn(bs, bs, e, k) {
      assert SameBlock(bs, bs, e, k, k);
    }
  }

  lemma LivesMerge(bs: seq<Block>, e: nat, i: nat, skips: set<nat>)
    ensures Lives(bs, MergeNext(bs, i), e, skips)
  {
    if i + 1 < |bs| && !bs[i].used && !bs[i + 1].used {
      LivesSwallow(bs, e, i, skips);
    } else {
      LivesSelf(bs, e, skips);
    }
  }

  lemma LivesPlug(bs: seq<Block>, e: nat, i: nat, skips: set<nat>)
    ensures Lives(bs, PlugHoles(bs, i), e, skips)
  {
    LivesMerge(bs, e, i, skips);
    if i > 0 {
      LivesMerge(MergeNext(bs, i), e, i - 1, skips);
      LivesTrans(bs, MergeNext(bs, i), PlugHoles(bs, i), e, skips);
    }
  }

  lemma LivesMark(bs: seq<Block>, e: nat, i: nat, used: bool)
    requires i < |bs|
    ensures Lives(bs, bs[i := bs[i].(used := used)], e, {bs[i].at})
  {
    var bs' := bs[i := bs[i].(used := used)];
    forall k | 0 <= k < |bs| && bs[k].at != bs[i].at ensures LivesOn(bs, bs', e, k) {
      assert SameBlock(bs, bs', e, k, k);
    }
  }

  lemma LivesFree(bs: seq<Block>, e: nat, i: nat)
    requires i < |bs|
    ensures Lives(bs, FreeBlock(bs, i), e, {bs[i].at})
  {
    var bs' := bs[i := bs[i].(used := false)];
    LivesMark(bs, e, i, false);
    LivesPlug(bs', e, i, {bs[i].at});
    LivesTrans(bs, bs', FreeBlock(bs, i), e, {bs[i].at});
  }

  lemma LivesCutOff(bs: seq<Block>, e: nat, i: nat, p: nat)
    requires i < |bs|
    ensures Lives(bs, CutOff(bs, i, p), e, {bs[i].at})
  {
    var bs' := CutOff(bs, i, p);
    forall k | 0 <= k < |bs| && bs[k].at != bs[i].at ensures LivesOn(bs, bs', e, k) {
      var k' := if k <= i then k else k + 1;
      var o := CutOffAt(bs, e, i, p, k');
      assert SameBlock(bs, bs', e, k, k');
    }
  }

  lemma LivesCutDown(c: Config, bs: seq<Block>, e: nat, i: nat, n: nat)
    requires i < |bs|
    ensures Lives(bs, CutDown(c, bs, i, n), e, {bs[i].at})
  {
    var bs1 := CutOff(bs, i, bs[i].at + c.hdr + n);
    LivesCutOff(bs, e, i, bs[i].at + c.hdr + n);
    if RightFree(bs, i) {
      LivesSwallow(bs1, e, i + 1, {bs[i].at});
      LivesTrans(bs, bs1, CutDown(c, bs, i, n), e, {bs[i].at});
    }
  }

  lemma LivesGrow(c: Config, bs: seq<Block>, e: nat, i: nat, n: nat)
    requires i + 1 < |bs| && bs[i].used && !bs[i + 1].used
    ensures Lives(bs, GrowBlock(c, bs, i, n), e, {bs[i].at})
  {
    var at := bs[i].at;
    GrowIs(c, bs, i, n);
    LivesSwallow(bs, e, i, {at});
    LivesCutOff(Swallow(bs, i), e, i, at + c.hdr + n);
    LivesTrans(bs, Swallow(bs, i), GrowBlock(c, bs, i, n), e, {at});
  }

  // ----- and keep their bytes -----

  /** Block `k` is there after, with the same extent and the same user bytes. */
  ghost predicate BlockKept(c: Config, e: nat, bs: seq<Block>, was: seq<bv8>, bs': seq<Block>, now: seq<bv8>, k: nat)
    requires k < |bs|
  {
    && LivesOn(bs, bs', e, k)
    && bs[k].at + c.hdr <= NextAt(bs, e, k) <= |was| == |now|
    && now[bs[k].at + c.hdr..NextAt(bs, e, k)] == was[bs[k].at + c.hdr..NextAt(bs, e, k)]
  }

  ghost predicate OtherKept(c: Config, e: nat, bs: seq<Block>, was: seq<bv8>, bs': seq<Block>, now: seq<bv8>, skips: set<nat>, k: nat)
    requires k < |bs|
  {
    bs[k].used && bs[k].at !in skips ==> BlockKept(c, e, bs, was, bs', now, k)
  }

  /** Every used block but those at `skips` is kept with its user bytes. */
  ghost predicate OthersKept(c: Config, e: nat, bs: seq<Block>, was: seq<bv8>, bs': seq<Block>, now: seq<bv8>, skips: set<nat>)
  {
    forall k :: 0 <= k < |bs| ==> OtherKept(c, e, bs, was, bs', now, skips, k)
  }

  /** Writing only headers of both partitions keeps the user bytes of the blocks that live on. */
  lemma OthersFromHeaders(c: Config, e: nat, bs: seq<Block>, was: seq<bv8>, bs': seq<Block>, now: seq<bv8>, skips: set<nat>)
    requires Heap(c, bs, e) && Tiled(c, bs', e) && c.hdr > 0 && Lives(bs, bs', e, skips) && e <= |was|
    requires Kept(was, now, c.hdr, Headers(bs, e) + Headers(bs', e))
    ensures OthersKept(c, e, bs, was, bs', now, skips)
  {
    forall k | 0 <= k < |bs| ensures OtherKept(c, e, bs, was, bs', now, skips, k) {
      if bs[k].used && bs[k].at !in skips {
        assert LivesOn(bs, bs', e, k);
        var k' :| SameBlock(bs, bs', e, k, k');
        DataInside(c, bs, e, k);
        UserBytesKept(c, was, now, bs, bs', e, k, k', NextAt(bs, e, k));
      }
    }
  }

  lemma OthersTrans(c: Config, e: nat, a: seq<Block>, x: seq<bv8>, b: seq<Block>, y: seq<bv8>, d: seq<Block>, z: seq<bv8>, s1: set<nat>, s2: set<nat>)
    requires OthersKept(c, e, a, x, b, y, s1) && OthersKept(c, e, b, y, d, z, s2)
    ensures OthersKept(c, e, a, x, d, z, s1 + s2)
  {
    forall k | 0 <= k < |a| ensures OtherKept(c, e, a, x, d, z, s1 + s2, k) {
      if a[k].used && a[k].at !in s1 + s2 {
        assert OtherKept(c, e, a, x, b, y, s1, k);
        var k1 :| SameBlock(a, b, e, k, k1);
        assert OtherKept(c, e, b, y, d, z, s2, k1);
        var k2 :| SameBlock(b, d, e, k1, k2);
        assert SameBlock(a, d, e, k, k2);
      }
    }
  }

  lemma OthersSelf(c: Config, e: nat, bs: seq<Block>, was: seq<bv8>, skips: set<nat>)
    requires Heap(c, bs, e) && e <= |was|
    ensures OthersKept(c, e, bs, was, bs, was, skips)
  {
    forall k | 0 <= k < |bs| ensures OtherKept(c, e, bs, was, bs, was, skips, k) {
      assert SameBlock(bs, bs, e, k, k);
      DataInside(c, bs, e, k);
    }
  }

  /** Copying into the data of block `j` changes no other block. */
  lemma CopyKeeps(c: Config, e: nat, bs: seq<Block>, was: seq<bv8>, now: seq<bv8>, src: nat, j: nat, dst: nat, count: nat)
    requires Heap(c, bs, e) && e <= |was| && j < |bs| && dst == bs[j].at + c.hdr && dst + count <= NextAt(bs, e, j) && Copied(was, src, now, dst, count)
    ensures OthersKept(c, e, bs, was, bs, now, {bs[j].at})
  {
    var skips := {bs[j].at};
    forall k | 0 <= k < |bs| ensures OtherKept(c, e, bs, was, bs, now, skips, k) {
      if k != j {
        assert SameBlock(bs, bs, e, k, k);
        DataInside(c, bs, e, k);
        DataInside(c, bs, e, j);
        if k < j { LiveDisjoint(c, bs, e, k, j); } else { LiveDisjoint(c, bs, e, j, k); }
      }
    }
  }

  /** A move keeps all blocks but the one moved: a new block taken at `at`, filled, and the old one freed. */
  lemma MoveKeeps(c: Config, e: nat, bs: seq<Block>, b0: seq<bv8>, mid: seq<Block>, b1: seq<bv8>, b2: seq<bv8>, bs': seq<Block>, b3: seq<bv8>,
                  i: nat, j: nat)
    requires Heap(c, bs, e) && i < |bs| && j < |bs| && !bs[j].used
    requires OthersKept(c, e, bs, b0, mid, b1, {}) && OthersKept(c, e, mid, b1, mid, b2, {bs[j].at}) && OthersKept(c, e, mid, b2, bs', b3, {bs[i].at})
    ensures OthersKept(c, e, bs, b0, bs', b3, {bs[i].at})
  {
    var p, q := bs[i].at, bs[j].at;
    OthersTrans(c, e, bs, b0, mid, b1, mid, b2, {}, {q});
    OthersTrans(c, e, bs, b0, mid, b2, bs', b3, {} + {q}, {p});
    var skips := {p};
    forall k | 0 <= k < |bs| ensures OtherKept(c, e, bs, b0, bs', b3, skips, k) {
      if k < j { StartsIncrease(c, bs, e, k, j); } else { StartsIncrease(c, bs, e, j, k); }
      assert OtherKept(c, e, bs, b0, bs', b3, {} + {q} + {p}, k);
    }
  }

  /** Block `i` of `bs` is block `i'` of `mid`, with `size` data bytes, and there is room for them at block `j` of both. */
  ghost predicate MoveReady(c: Config, bs: seq<Block>, mid: seq<Block>, e: nat, i: nat, i': nat, j: nat, size: nat)
  {
    && SameBlock(bs, mid, e, i, i') && bs[i].used && NextAt(bs, e, i) == bs[i].at + c.hdr + size <= e
    && j < |bs| && !bs[j].used && j < |mid| && mid[j].at == bs[j].at && bs[j].at + c.hdr + size <= NextAt(mid, e, j) <= e
  }

  lemma MovePlaces(c: Config, bs: seq<Block>, mid: seq<Block>, e: nat, i: nat, i': nat, j: nat, n: nat, size: nat)
    requires Heap(c, bs, e) && i < |bs| && bs[i].used && j < |bs| && Fits(c, bs, e, j, n) && size == NextAt(bs, e, i) - bs[i].at - c.hdr < n
    requires Heap(c, mid, e) && mid == TakeBlock(c, bs, e, j, n) && i' == Shifted(c, bs, e, j, n, i)
    ensures MoveReady(c, bs, mid, e, i, i', j, size)
  {
    MoveFits(c, bs, e, i, j, n);
    DataInside(c, mid, e, j);
  }

  /** What a move from the block at `p` to the block at `q` leaves of the bytes: the user bytes at their new
      place, and all other blocks as they were. */
  lemma MoveDone(c: Config, e: nat, bs: seq<Block>, b0: seq<bv8>, mid: seq<Block>, b1: seq<bv8>, b2: seq<bv8>, bs': seq<Block>, b3: seq<bv8>,
                 i: nat, i': nat, j: nat, p: nat, q: nat, dst: nat, size: nat)
    requires c.hdr > 0 && Heap(c, bs, e) && Tiled(c, mid, e) && MoveReady(c, bs, mid, e, i, i', j, size) && p == bs[i].at && q == bs[j].at && dst == q + c.hdr
    requires Kept(b0, b1, c.hdr, Headers(bs, e) + Headers(mid, e)) && Copied(b1, p + c.hdr, b2, dst, size) && Kept(b2, b3, c.hdr, Headers(mid, e))
    requires OthersKept(c, e, bs, b0, mid, b1, {}) && OthersKept(c, e, mid, b1, mid, b2, {q}) && OthersKept(c, e, mid, b2, bs', b3, {p})
    ensures MovedBytes(b0, p + c.hdr, b3, dst, size) && OthersKept(c, e, bs, b0, bs', b3, {p})
  {
    MoveBytes(c, b0, b1, b2, b3, bs, mid, e, i, i', j, p + c.hdr, dst, size);
    MoveKeeps(c, e, bs, b0, mid, b1, b2, bs', b3, i, j);
  }

  lemma TwoMore(history: seq<seq<Block>>, mid: seq<Block>, bs: seq<Block>)
    ensures history + [mid] + [bs] == history + [mid, bs]
  {
  }

  /** The partitions a resize passes through. */
  function Trail(c: Config, bs: seq<Block>, e: nat, i: nat, n: nat, j: nat, r: Option<nat>, bs': seq<Block>): seq<seq<Block>>
    requires i < |bs|
  {
    var size := NextAt(bs, e, i) - bs[i].at - c.hdr;
    if r == None || n <= size <= n + c.hdr + c.minData then []
    else if n < size || Growable(c, bs, e, i, n) then [bs']
    else if j < |bs| then [TakeBlock(c, bs, e, j, n), bs']
    else []
  }
}
