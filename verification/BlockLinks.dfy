/** Blocks linked through their headers: the writes of joining, splitting and marking. */
module BlockLinks {
  import opened Blocks

  /** A block header: whether the block is used, and its two links as heap offsets. */
  datatype Item = Item(used: bool, next: nat, prev: nat)

  /** What lies beyond the blocks: the first block's back link, the end marker's forward link,
      and whether the end marker's back link is kept. */
  datatype Ends = Ends(first: nat, tailNext: nat, tailPrev: bool)

  function PrevAt(bs: seq<Block>, i: nat, z: Ends): nat
    requires i < |bs|
  {
    if i == 0 then z.first else bs[i - 1].at
  }

  /** Forward and back links match the partition. */
  ghost predicate Linked(items: map<nat, Item>, bs: seq<Block>, e: nat, z: Ends)
  {
    && TailLinked(items, bs, e, z)
    && (forall i :: 0 <= i < |bs| ==> LinkedAt(items, bs, e, z, i))
  }

  ghost predicate TailLinked(items: map<nat, Item>, bs: seq<Block>, e: nat, z: Ends)
  {
    && e in items && items[e].used && items[e].next == z.tailNext
    && (z.tailPrev && bs != [] ==> items[e].prev == bs[|bs| - 1].at)
  }

  ghost predicate LinkedAt(items: map<nat, Item>, bs: seq<Block>, e: nat, z: Ends, i: nat)
    requires i < |bs|
  {
    bs[i].at in items && items[bs[i].at] == Item(bs[i].used, NextAt(bs, e, i), PrevAt(bs, i, z))
  }

  lemma NextLinked(items: map<nat, Item>, bs: seq<Block>, e: nat, z: Ends, i: nat)
    requires Linked(items, bs, e, z) && i < |bs|
    ensures LinkedAt(items, bs, e, z, i) && NextAt(bs, e, i) in items
    ensures items[NextAt(bs, e, i)].used == (i + 1 == |bs| || bs[i + 1].used)
    ensures i > 0 ==> LinkedAt(items, bs, e, z, i - 1)
  {
    assert LinkedAt(items, bs, e, z, i);
    if i + 1 < |bs| { assert LinkedAt(items, bs, e, z, i + 1); }
  }

  /** Starts are pairwise different, and different from the end marker. */
  ghost predicate Ascending(bs: seq<Block>, e: nat)
  {
    forall i, j :: 0 <= i < j <= |bs| ==> Before(bs, e, i, j)
  }

  /** Block `i` starts before block `j`, or before the end marker when `j` is past the last block. */
  ghost predicate Before(bs: seq<Block>, e: nat, i: nat, j: nat)
    requires i < |bs| && j <= |bs|
  {
    bs[i].at < if j < |bs| then bs[j].at else e
  }

  /** Different blocks have different starts. */
  lemma Apart(bs: seq<Block>, e: nat, i: nat, j: nat)
    requires Ascending(bs, e) && i < |bs| && j <= |bs|
    ensures i < j ==> bs[i].at < if j < |bs| then bs[j].at else e
    ensures j < i ==> bs[j].at < bs[i].at
    ensures bs[i].at < e
  {
    assert i < j ==> Before(bs, e, i, j);
    assert j < i ==> Before(bs, e, j, i);
    assert Before(bs, e, i, |bs|);
  }

  lemma TiledAscends(c: Config, bs: seq<Block>, e: nat)
    requires c.hdr > 0 && Tiled(c, bs, e)
    ensures Ascending(bs, e)
  {
    forall i, j | 0 <= i < j <= |bs| ensures Before(bs, e, i, j) {
      if j < |bs| { StartsIncrease(c, bs, e, i, j); } else { StartsIncrease(c, bs, e, |bs|, i); }
    }
  }

  /** The header writes of `p` swallowing its successor `q`. */
  function Joined(items: map<nat, Item>, p: nat, q: nat): map<nat, Item>
    requires p in items && q in items && items[q].next in items
  {
    var r := items[q].next;
    var items1 := items[p := items[p].(next := r)];
    items1[r := items1[r].(prev := p)] - {q}
  }

  lemma JoinedLinks(items: map<nat, Item>, bs: seq<Block>, e: nat, z: Ends, i: nat)
    requires Ascending(bs, e) && Linked(items, bs, e, z) && i + 1 < |bs|
    ensures bs[i].at in items && bs[i + 1].at in items && items[bs[i + 1].at].next in items
    ensures Linked(Joined(items, bs[i].at, bs[i + 1].at), Swallow(bs, i), e, z)
  {
    NextLinked(items, bs, e, z, i);
    NextLinked(items, bs, e, z, i + 1);
    var bs', items' := Swallow(bs, i), Joined(items, bs[i].at, bs[i + 1].at);
    forall k | 0 <= k < |bs'| ensures LinkedAt(items', bs', e, z, k) {
      JoinedLinkedAt(items, bs, e, z, i, k);
    }
    Apart(bs, e, i, i + 1);
    Apart(bs, e, i + 1, i + 2);
    if i + 2 < |bs| { Apart(bs, e, i + 2, |bs|); }
  }

  lemma JoinedLinkedAt(items: map<nat, Item>, bs: seq<Block>, e: nat, z: Ends, i: nat, k: nat)
    requires Ascending(bs, e) && Linked(items, bs, e, z) && i + 1 < |bs| && k + 1 < |bs|
    requires LinkedAt(items, bs, e, z, i) && LinkedAt(items, bs, e, z, i + 1) && NextAt(bs, e, i + 1) in items
    ensures k < |Swallow(bs, i)| && LinkedAt(Joined(items, bs[i].at, bs[i + 1].at), Swallow(bs, i), e, z, k)
  {
    var o := SwallowAt(bs, e, i, k);
    var p, q, r := bs[i].at, bs[i + 1].at, NextAt(bs, e, i + 1);
    assert LinkedAt(items, bs, e, z, o);
    Apart(bs, e, i, i + 1);
    Apart(bs, e, i + 1, i + 2);
    Apart(bs, e, o, i);
    Apart(bs, e, o, i + 1);
    Apart(bs, e, o, i + 2);
    assert PrevAt(Swallow(bs, i), k, z) == if k == i + 1 then p else PrevAt(bs, o, z);
    assert (bs[o].at == r <==> k == i + 1) && (bs[o].at == p <==> k == i) && bs[o].at != q && p < q < r;
  }

  /** The header writes of a split: a free header at `p2`, between `p` and its successor; the
      end marker's back link is written only when it is kept. */
  function Split(items: map<nat, Item>, p: nat, p2: nat, e: nat, z: Ends): map<nat, Item>
    requires p in items && items[p].next in items
  {
    var r := items[p].next;
    var items1 := items[p2 := Item(false, r, p)][p := items[p].(next := p2)];
    if (r != e || z.tailPrev) && r in items1 then items1[r := items1[r].(prev := p2)] else items1
  }

  lemma SplitLinks(items: map<nat, Item>, bs: seq<Block>, e: nat, z: Ends, i: nat, p2: nat)
    requires Ascending(bs, e) && Linked(items, bs, e, z) && i < |bs| && bs[i].at < p2 < NextAt(bs, e, i)
    ensures bs[i].at in items && items[bs[i].at].next in items
    ensures Linked(Split(items, bs[i].at, p2, e, z), CutOff(bs, i, p2), e, z)
  {
    NextLinked(items, bs, e, z, i);
    var bs', items' := CutOff(bs, i, p2), Split(items, bs[i].at, p2, e, z);
    forall k | 0 <= k < |bs'| ensures LinkedAt(items', bs', e, z, k) {
      SplitLinkedAt(items, bs, e, z, i, p2, k);
    }
    Apart(bs, e, i, i + 1);
    if i + 1 < |bs| { Apart(bs, e, i + 1, |bs|); }
  }

  lemma SplitLinkedAt(items: map<nat, Item>, bs: seq<Block>, e: nat, z: Ends, i: nat, p2: nat, k: nat)
    requires Ascending(bs, e) && Linked(items, bs, e, z) && i < |bs| && bs[i].at < p2 < NextAt(bs, e, i) && k <= |bs|
    requires LinkedAt(items, bs, e, z, i) && NextAt(bs, e, i) in items
    ensures k < |CutOff(bs, i, p2)| && LinkedAt(Split(items, bs[i].at, p2, e, z), CutOff(bs, i, p2), e, z, k)
  {
    var o := CutOffAt(bs, e, i, p2, k);
    assert LinkedAt(items, bs, e, z, o);
    var r := NextAt(bs, e, i);
    Apart(bs, e, o, i);
    Apart(bs, e, o, i + 1);
    var was := PrevAt(bs, o, z);
    assert PrevAt(CutOff(bs, i, p2), k, z) == if k == i + 1 then bs[i].at else if k == i + 2 then p2 else was;
    assert bs[o].at == r <==> k == i + 2;
    assert bs[o].at != p2;
  }

  lemma SplitAscends(bs: seq<Block>, e: nat, i: nat, p2: nat)
    requires Ascending(bs, e) && i < |bs| && bs[i].at < p2 < NextAt(bs, e, i)
    ensures Ascending(CutOff(bs, i, p2), e)
  {
    var bs' := CutOff(bs, i, p2);
    forall k, l | 0 <= k < l <= |bs'| ensures Before(bs', e, k, l) {
      var o := CutOffAt(bs, e, i, p2, k);
      Apart(bs, e, o, if l <= i then l else l - 1);
      Apart(bs, e, o, i);
      if i + 1 < l { Apart(bs, e, i, l - 1); if i + 1 < |bs| { Apart(bs, e, i + 1, l - 1); } }
    }
  }

  lemma MarkLinks(items: map<nat, Item>, bs: seq<Block>, e: nat, z: Ends, i: nat, used: bool)
    requires Ascending(bs, e) && Linked(items, bs, e, z) && i < |bs|
    ensures LinkedAt(items, bs, e, z, i)
    ensures var at := bs[i].at; Linked(items[at := items[at].(used := used)], bs[i := Block(at, used)], e, z)
  {
    var bs' := bs[i := Block(bs[i].at, used)];
    assert LinkedAt(items, bs, e, z, i);
    var items' := items[bs[i].at := items[bs[i].at].(used := used)];
    forall k | 0 <= k < |bs'| ensures LinkedAt(items', bs', e, z, k) {
      assert LinkedAt(items, bs, e, z, k);
      Apart(bs, e, i, k);
    }
    Apart(bs, e, i, i);
  }

  lemma MarkAscends(bs: seq<Block>, e: nat, i: nat, used: bool)
    requires Ascending(bs, e) && i < |bs|
    ensures Ascending(bs[i := Block(bs[i].at, used)], e)
  {
    var bs' := bs[i := Block(bs[i].at, used)];
    forall k, l | 0 <= k < l <= |bs'| ensures Before(bs', e, k, l) {
      assert Before(bs, e, k, l);
    }
  }

  /** The header writes of taking block `i` for `n` bytes. */
  lemma TakeLinks(c: Config, items: map<nat, Item>, bs: seq<Block>, e: nat, z: Ends, i: nat, n: nat)
    requires c.hdr > 0 && Tiled(c, bs, e) && Linked(items, bs, e, z) && i < |bs|
    ensures LinkedAt(items, bs, e, z, i) && NextAt(bs, e, i) in items
    ensures var p := bs[i].at;
            var split := NextAt(bs, e, i) >= p + c.hdr + n + c.hdr + c.minData;
            var items1 := if split then Split(items, p, p + c.hdr + n, e, z) else items;
            p in items1 && Linked(items1[p := items1[p].(used := true)], TakeBlock(c, bs, e, i, n), e, z)
  {
    var p := bs[i].at;
    TiledAscends(c, bs, e);
    NextLinked(items, bs, e, z, i);
    MarkLinks(items, bs, e, z, i, true);
    if NextAt(bs, e, i) >= p + c.hdr + n + c.hdr + c.minData {
      var p2 := p + c.hdr + n;
      SplitLinks(items, bs, e, z, i, p2);
      SplitAscends(bs, e, i, p2);
      var bs1 := CutOff(bs, i, p2);
      MarkLinks(Split(items, p, p2, e, z), bs1, e, z, i, true);
      assert bs1[i := Block(p, true)] == TakeBlock(c, bs, e, i, n);
    }
  }
}
