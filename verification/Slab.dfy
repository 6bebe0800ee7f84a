/** The slab allocator: pages, zones, chunks and the page table, changed in place. */
module Slab {
  import opened Bytes
  import opened HighWater
  import opened Lists
  import opened Alignment
  import opened SlabPages
  import opened SlabModel
  import opened SlabSteps

  /** Zones in use and whole zones kept back. */
  ghost function Starts(zones: map<nat, Zone>, zoneFree: seq<nat>): set<nat>
  {
    zones.Keys + (set p | p in zoneFree)
  }

  ghost predicate ZonesState(c: Config, zones: map<nat, Zone>, lists: seq<seq<nat>>, zoneFree: seq<nat>, live: seq<Piece>)
  {
    && ZonesOk(c, live, zones) && LiveOk(zones, live) && ArrayOk(zones, lists)
    && NoDup(zoneFree) && forall p :: p in zoneFree ==> p !in zones
  }

  /** The zone after giving a chunk: from its never-used tail first, then from its free chunks. */
  function TakenZone(z: Zone): Zone
  {
    if z.uindex + 1 != z.nmax then z.(nfree := z.nfree - 1, uindex := z.uindex + 1)
    else z.(nfree := z.nfree - 1, free := if z.free == [] then [] else z.free[1..])
  }

  /** A chunk of the first zone listed for index `zi` goes live; a zone that is full leaves its list. */
  lemma ChunkTaken(c: Config, zones: map<nat, Zone>, lists: seq<seq<nat>>, zoneFree: seq<nat>, live: seq<Piece>, zi: nat)
    returns (k: nat)
    requires ZonesState(c, zones, lists, zoneFree, live) && zi < NZONES && lists[zi] != []
    ensures var p := lists[zi][0];
            p in zones && var z := zones[p]; var y := PieceAt(p, z, k);
            && z.index == zi && z.chunk == ChunkOf(zi) && z.nfree > 0 && y !in live
            && (if z.uindex + 1 != z.nmax then k == z.uindex + 1 else z.free != [] && z.free[0] == ChunkAt(z, k))
            && ZonesState(c, zones[p := TakenZone(z)], if z.nfree == 1 then lists[zi := lists[zi][1..]] else lists, zoneFree, live + [y])
  {
    var p := lists[zi][0];
    assert p in lists[zi];
    var z := zones[p];
    assert ZoneAt(c, live, p, z);
    if z.uindex + 1 != z.nmax {
      TakeFresh(c, live, zones, p);
      k := z.uindex + 1;
    } else {
      k := TakeListed(c, live, zones, p);
    }
    assert PieceAt(p, z, k) == PieceAt(p, TakenZone(z), k);
    AddPiece(c, live, zones, p, TakenZone(z), k);
    NoDupTail(lists[zi]);
    var ps := if z.nfree == 1 then lists[zi][1..] else lists[zi];
    ArrayUpdate(zones, lists, p, TakenZone(z), ps);
    assert lists[zi := lists[zi]] == lists;
  }

  lemma StartsKept(zones: map<nat, Zone>, zoneFree: seq<nat>, p: nat, z: Zone)
    requires p in zones
    ensures Starts(zones[p := z], zoneFree) == Starts(zones, zoneFree)
  {
    assert zones[p := z].Keys == zones.Keys;
  }

  /** A chunk of zone `p` goes live: no page changes hands. */
  lemma ChunkAdded(c: Config, rs: seq<Run>, owner: seq<Owner>, usage: seq<Usage>, zones: map<nat, Zone>, zoneFree: seq<nat>,
                   live: seq<Piece>, p: nat, z: Zone, y: Piece)
    requires PagesState(c, rs, owner, usage, Starts(zones, zoneFree), live) && NoDup(live)
    requires p in zones && y !in live && y.Small?
    ensures PagesState(c, rs, owner, usage, Starts(zones[p := z], zoneFree), live + [y])
    ensures Charge(live + [y]) == Charge(live) + y.size
  {
    AddIs(live, y, p);
    SmallChange(c, rs, owner, usage, Starts(zones, zoneFree), live, live + [y]);
    StartsKept(zones, zoneFree, p, z);
  }

  /** A live chunk ends: no page changes hands. */
  lemma ChunkDropped(c: Config, rs: seq<Run>, owner: seq<Owner>, usage: seq<Usage>, zones: map<nat, Zone>, zoneFree: seq<nat>,
                     live: seq<Piece>, p: nat, z: Zone, i: nat)
    requires PagesState(c, rs, owner, usage, Starts(zones, zoneFree), live) && NoDup(live)
    requires p in zones && i < |live| && live[i].Small?
    ensures PagesState(c, rs, owner, usage, Starts(zones[p := z], zoneFree), Drop(live, i))
    ensures Charge(Drop(live, i)) == Charge(live) - live[i].size
  {
    DropIs(live, i, p);
    SmallChange(c, rs, owner, usage, Starts(zones, zoneFree), live, Drop(live, i));
    StartsKept(zones, zoneFree, p, z);
  }

  /** A live chunk has the size of its zone's chunks. */
  lemma ChunkSize(zones: map<nat, Zone>, live: seq<Piece>, i: nat)
    requires LiveOk(zones, live) && i < |live| && live[i].Small?
    ensures live[i].zone in zones && zones[live[i].zone].chunk == live[i].size
  {
    assert live[i] in live && SmallOk(zones, live[i]);
  }

  /** The page table leads from a live address back to its zone, or to its page count. */
  lemma TableFinds(c: Config, rs: seq<Run>, owner: seq<Owner>, usage: seq<Usage>, zones: map<nat, Zone>, zoneFree: seq<nat>,
                   live: seq<Piece>, i: nat)
    requires PagesState(c, rs, owner, usage, Starts(zones, zoneFree), live) && ZonesOk(c, live, zones) && LiveOk(zones, live)
    requires i < |live|
    ensures var q := Addr(live[i]) / PAGE;
            && q < |usage|
            && (live[i].Small? ==> usage[q].kind == TypeSmall && q - usage[q].size == live[i].zone && live[i].zone in zones)
            && (live[i].Large? ==> q == live[i].page && usage[q] == Usage(TypeLarge, live[i].n))
  {
    var x := live[i];
    assert x in live;
    if x.Small? {
      assert SmallOk(zones, x);
      var p: nat := x.zone;
      assert ZoneAt(c, live, p, zones[p]);
      ChunkInside(c, p, zones[p], x.k);
      assert p in Starts(zones, zoneFree) && ZoneMapped(c, p, usage);
      assert p <= x.at / PAGE < p + c.zonePages;
    }
  }

  lemma StartsAdded(zones: map<nat, Zone>, zoneFree: seq<nat>, p: nat, z: Zone)
    ensures Starts(zones[p := z], zoneFree) == Starts(zones, zoneFree) + {p}
  {
    assert zones[p := z].Keys == zones.Keys + {p};
  }

  lemma StartsReused(zones: map<nat, Zone>, zoneFree: seq<nat>)
    requires zoneFree != []
    ensures Starts(zones, zoneFree) == Starts(zones, zoneFree[1..]) + {zoneFree[0]}
  {
    assert forall p :: p in zoneFree <==> p in zoneFree[1..] || p == zoneFree[0];
  }

  /** A zone at new pages `p`, or at pages kept back, gives its first chunk. */
  lemma ZoneAdded(c: Config, zones: map<nat, Zone>, lists: seq<seq<nat>>, zoneFree: seq<nat>, live: seq<Piece>, p: nat, z: Zone)
    requires ZonesState(c, zones, lists, zoneFree, live) && p !in zones && p !in zoneFree
    requires ZoneShape(c, p, z) && z.free == [] && z.uindex == 0 && z.nfree == z.nmax - 1 && z.nmax > 1
    ensures var y := PieceAt(p, z, 0);
            y !in live && ZonesState(c, zones[p := z], lists[z.index := [p] + lists[z.index]], zoneFree, live + [y])
  {
    FirstChunk(c, live, zones, p, z);
    AddPiece(c, live, zones, p, z, 0);
    NoDupCons(p, lists[z.index]);
    ArrayUpdate(zones, lists, p, z, [p] + lists[z.index]);
  }

  /** The zone after taking back the chunk at `a`. */
  function GivenZone(z: Zone, a: nat): Zone
  {
    z.(nfree := z.nfree + 1, free := [a] + z.free)
  }

  /** The chunk comes first on the zone's free list, and nothing else changes. */
  lemma GivenIs(z: Zone, a: nat)
    ensures GivenZone(z, a).free == [a] + z.free && GivenZone(z, a).nfree == z.nfree + 1
    ensures GivenZone(z, a).(free := z.free, nfree := z.nfree) == z
  {
  }

  ghost predicate SameButFree(before: map<nat, Zone>, after: map<nat, Zone>, p: nat)
  {
    && after.Keys == before.Keys && p in before
    && forall q :: q in before ==> after[q].index == before[q].index && (q != p ==> after[q] == before[q])
  }

  lemma OnlyGiven(before: map<nat, Zone>, after: map<nat, Zone>, p: nat, a: nat)
    requires p in before && after == before[p := GivenZone(before[p], a)]
    ensures SameButFree(before, after, p)
  {
  }

  /** Zone `p` is given up just when none of its chunks is live and another zone of its index has a free chunk.  Then it is
      kept back if there is room for it, and otherwise its pages are given back. */
  ghost predicate GivesUp(n: nat, zones: map<nat, Zone>, zones': map<nat, Zone>, kept: seq<nat>, kept': seq<nat>, runs: seq<Run>, runs': seq<Run>, live: seq<Piece>, p: nat)
  {
    && p in zones && (p !in zones' <==> Count(live, p) == 0 && Another(zones, p))
    && (p in zones' ==> kept' == kept && runs' == runs)
    && (p !in zones' && |kept| < 2 ==> kept' == [p] + kept && runs' == runs)
    && (p !in zones' && |kept| >= 2 ==> kept' == kept && runs' == SlabPages.PageFree(runs, p, n))
  }

  ghost predicate Another(zones: map<nat, Zone>, p: nat)
    requires p in zones
  {
    exists q :: q in zones && q != p && zones[q].index == zones[p].index && zones[q].nfree > 0
  }

  /** The test of the source: no chunk is live, and `p` is not alone on its list. */
  lemma RetireTest(c: Config, before: map<nat, Zone>, zones: map<nat, Zone>, lists: seq<seq<nat>>, live: seq<Piece>, p: nat)
    requires ZonesOk(c, live, zones) && ArrayOk(zones, lists) && p in zones && zones[p].nfree > 0 && SameButFree(before, zones, p)
    ensures zones[p].index < |lists|
    ensures zones[p].nfree == zones[p].nmax <==> Count(live, p) == 0
    ensures lists[zones[p].index] != [p] <==> Another(before, p)
  {
    var l := lists[zones[p].index];
    assert ZoneAt(c, live, p, zones[p]);
    assert p in l && NoDup(l);
    if l != [p] {
      OtherThan(l, p);
      var q :| q in l && q != p;
      assert q in before && before[q].index == before[p].index && before[q].nfree > 0;
    }
    if Another(before, p) {
      var q :| q in before && q != p && before[q].index == before[p].index && before[q].nfree > 0;
      assert q in l;
    }
  }

  lemma OtherThan(l: seq<nat>, p: nat)
    requires NoDup(l) && p in l && l != [p]
    ensures exists q :: q in l && q != p
  {
    var q := if l[0] == p then l[1] else l[0];
    assert q in l && q != p;
  }

  /** The `i`-th allocation, a chunk, ends; a zone that was full is listed again. */
  lemma ChunkGiven(c: Config, zones: map<nat, Zone>, lists: seq<seq<nat>>, zoneFree: seq<nat>, live: seq<Piece>, i: nat)
    requires ZonesState(c, zones, lists, zoneFree, live) && i < |live| && live[i].Small?
    ensures var p, a := live[i].zone, live[i].at;
            p in zones && var z := zones[p];
            && z.index < NZONES && z.chunk == live[i].size && z.nfree >= 0
            && ZonesState(c, zones[p := GivenZone(z, a)], if z.nfree == 0 then lists[z.index := [p] + lists[z.index]] else lists,
                          zoneFree, Drop(live, i))
  {
    var y := live[i];
    assert y in live && SmallOk(zones, y);
    var p := y.zone;
    var z := zones[p];
    assert ZoneAt(c, live, p, z);
    GiveBack(c, live, zones, i);
    DropPiece(c, live, zones, i, GivenZone(z, y.at));
    var ps := if z.nfree == 0 then [p] + lists[z.index] else lists[z.index];
    if z.nfree == 0 { NoDupCons(p, lists[z.index]); }
    ArrayUpdate(zones, lists, p, GivenZone(z, y.at), ps);
    assert lists[z.index := lists[z.index]] == lists;
  }

  /** A zone whose chunks are all free leaves its list and is kept back. */
  lemma ZoneRetired(c: Config, zones: map<nat, Zone>, lists: seq<seq<nat>>, zoneFree: seq<nat>, live: seq<Piece>, p: nat)
    requires ZonesState(c, zones, lists, zoneFree, live) && p in zones && zones[p].nfree == zones[p].nmax
    ensures zones[p].index < NZONES
    ensures ZonesState(c, zones - {p}, lists[zones[p].index := Without(lists[zones[p].index], p)], [p] + zoneFree, live)
    ensures Starts(zones - {p}, [p] + zoneFree) == Starts(zones, zoneFree)
  {
    assert ZoneAt(c, live, p, zones[p]);
    ForgetZone(c, live, zones, p);
    ArrayForget(zones, lists, p);
    NoDupCons(p, zoneFree);
    assert (zones - {p}).Keys == zones.Keys - {p};
  }

  ghost predicate SameByte(was: seq<bv8>, now: seq<bv8>, a: nat)
    requires a < |was| == |now|
  {
    now[a] == was[a]
  }

  /** The bytes of an allocation are as they were. */
  ghost predicate PieceKept(was: seq<bv8>, now: seq<bv8>, x: Piece)
  {
    Addr(x) + Size(x) <= |was| == |now| && forall a :: Addr(x) <= a < Addr(x) + Size(x) ==> SameByte(was, now, a)
  }

  /** A copy changes no allocation that lies apart from where it goes. */
  lemma CopyApart(was: seq<bv8>, now: seq<bv8>, src: nat, dst: nat, count: nat, x: Piece, end: nat)
    requires Copied(was, src, now, dst, count) && dst + count <= end && Addr(x) + Size(x) <= |was|
    requires Addr(x) + Size(x) <= dst || end <= Addr(x)
    ensures PieceKept(was, now, x)
  {
    forall a | Addr(x) <= a < Addr(x) + Size(x) ensures SameByte(was, now, a) {
    }
  }

  /** All allocations but the `but`-th keep their bytes. */
  ghost predicate PiecesKept(live: seq<Piece>, was: seq<bv8>, now: seq<bv8>, but: nat)
  {
    forall k :: 0 <= k < |live| && k != but ==> PieceKept(was, now, live[k])
  }

  lemma PiecesButLast(live: seq<Piece>, was: seq<bv8>, now: seq<bv8>)
    requires live != [] && PiecesKept(live, was, now, |live| - 1)
    ensures PiecesKept(live[..|live| - 1], was, now, |live| - 1)
  {
    var rest := live[..|live| - 1];
    forall k | 0 <= k < |rest| ensures PieceKept(was, now, rest[k]) {
      assert rest[k] == live[k];
    }
  }

  /** How many bytes a resize to `size` carries over: all of the smaller allocation. */
  function Carried(x: Piece, size: nat): nat
  {
    var want := if x.Small? then ZoneIndex(size).0 else size;
    if want > Size(x) then Size(x) else want
  }

  /** No byte that both sizes hold is lost. */
  lemma CarriedIs(c: Config, x: Piece, size: nat)
    requires ConfigOk(c) && size > 0
    ensures Smaller(Size(x), size) <= Carried(x, size) <= Size(x)
    ensures Carried(x, size) <= if x.Small? then ZoneIndex(size).0 else size
  {
    RoundedOk(c, size);
  }

  class Slab {
    const c: Config
    var pageList: seq<Run>
    var usage: seq<Usage>
    var zones: map<nat, Zone>
    var zoneArray: seq<seq<nat>>
    var zoneFree: seq<nat>
    var zoneFreeCnt: int
    var used: int
    var max: int
    /** The bytes of the heap, as far as users write them. */
    var bytes: seq<bv8>
    ghost var live: seq<Piece>
    ghost var owner: seq<Owner>
    /** The values `used` has had, the present one last. */
    ghost var history: seq<int>

    ghost predicate Valid()
      reads this
    {
      && ConfigOk(c)
      && PagesState(c, pageList, owner, usage, Starts(zones, zoneFree), live)
      && ZonesState(c, zones, zoneArray, zoneFree, live)
      && zoneFreeCnt == |zoneFree| <= RELEASE_THRESH
      && used == Charge(live) && Marked(history, used, max)
    }

    /** There are bytes for every page. */
    ghost predicate Backed()
      reads this
    {
      |bytes| == |usage| * PAGE
    }

    /** `rt_slab_init` for `npages` pages, with the table of `PagesFor(4 * npages)` pages allocated first. */
    constructor (c: Config, npages: nat)
      requires ConfigOk(c) && npages > 0
      ensures Valid() && Backed() && this.c == c && live == [] && used == 0 && max == 0 && history == [0]
      ensures forall q: nat :: Covers(pageList, q) <==> PagesFor(4 * npages) <= q < npages
    {
      this.c := c;
      pageList := [];
      usage := seq(npages, _ => Usage(TypeFree, 0));
      zones := map[];
      zoneArray := seq(NZONES, _ => []);
      zoneFree := [];
      zoneFreeCnt := 0;
      used := 0;
      max := 0;
      live := [];
      history := [0];
      owner := seq(npages, _ => FreePage);
      bytes := seq(npages * PAGE, _ => 0);
      new;
      PageFree(0, npages);
      assert pageList == [Run(0, npages)] == [Run(0, npages)] + [];
      forall q: nat ensures Covers(pageList, q) <==> q < npages { CoversCons(Run(0, npages), [], q); }
      PagesForOk(4 * npages);
      assert PagesOk(pageList, owner);
      var n := PagesFor(4 * npages);
      ghost var rs := pageList;
      PageAllocTakes(rs, n);
      var table := PageAlloc(n);
      PagesTaken(rs, owner, n, TablePage);
      owner := Assign(owner, 0, n, TablePage);
    }

    /** The zone size for a heap of `limsize` bytes. */
    static method ZoneSize(limsize: nat) returns (size: nat)
      ensures size == 32768 || size == 65536 || size == 131072
      ensures size == 131072 || 2 * size >= limsize / 1024
      ensures size == 32768 || size < limsize / 1024
    {
      size := 32768;
      while size < 131072 && 2 * size < limsize / 1024
        invariant size == 32768 || ((size == 65536 || size == 131072) && size < limsize / 1024)
        decreases 131072 - size
      {
        size := 2 * size;
      }
    }

    // ----- pages -----

    /** `rt_slab_page_alloc`. */
    method PageAlloc(n: nat) returns (r: Option<nat>)
      modifies `pageList
      ensures (r, pageList) == SlabPages.PageAlloc(old(pageList), n)
    {
      if n == 0 { return None; }
      SearchesFromStart(pageList, 0, n);
      var i := 0;
      while i < |pageList|
        invariant 0 <= i <= |pageList| && pageList == old(pageList)
        invariant AllocAt(pageList, n, 0) == AllocAt(pageList, n, i)
      {
        var b := pageList[i];
        if b.len > n {
          pageList := pageList[i := Run(b.start + n, b.len - n)];
          return Some(b.start);
        }
        if b.len == n {
          pageList := pageList[..i] + pageList[i + 1..];
          return Some(b.start);
        }
        i := i + 1;
      }
      r := None;
    }

    /** `rt_slab_page_free`. */
    method PageFree(a: nat, n: nat)
      modifies `pageList
      ensures pageList == SlabPages.PageFree(old(pageList), a, n)
    {
      SearchesFromStart(pageList, a, n);
      var i := 0;
      while i < |pageList|
        invariant 0 <= i <= |pageList| && pageList == old(pageList)
        invariant FreeAt(pageList, a, n, 0) == FreeAt(pageList, a, n, i)
      {
        var b := pageList[i];
        if b.start + b.len == a {
          if i + 1 < |pageList| && a + n == pageList[i + 1].start {
            pageList := pageList[..i] + [Run(b.start, b.len + n + pageList[i + 1].len)] + pageList[i + 2..];
          } else {
            pageList := pageList[i := Run(b.start, b.len + n)];
          }
          return;
        }
        if b.start == a + n {
          pageList := pageList[i := Run(a, b.len + n)];
          return;
        }
        if b.start > a + n { break; }
        i := i + 1;
      }
      pageList := pageList[..i] + [Run(a, n)] + pageList[i..];
    }

    // ----- the page table -----

    /** Entering the pages of the zone at `p` in the table. */
    method MapZone(p: nat)
      requires p + c.zonePages <= |usage|
      modifies `usage
      ensures UsageBut(old(usage), usage, p, c.zonePages) && ZoneMapped(c, p, usage)
    {
      var off := 0;
      while off < c.zonePages
        invariant 0 <= off <= c.zonePages && UsageBut(old(usage), usage, p, c.zonePages)
        invariant forall q :: p <= q < p + off ==> usage[q] == Usage(TypeSmall, q - p)
      {
        usage := usage[p + off := Usage(TypeSmall, off)];
        off := off + 1;
      }
    }

    /** Clearing the table entries of the zone at `p`. */
    method UnmapZone(p: nat)
      requires p + c.zonePages <= |usage|
      modifies `usage
      ensures UsageBut(old(usage), usage, p, c.zonePages)
      ensures forall q :: p <= q < p + c.zonePages ==> usage[q] == Usage(TypeFree, 0)
    {
      var i := 0;
      while i < c.zonePages
        invariant 0 <= i <= c.zonePages && UsageBut(old(usage), usage, p, c.zonePages)
        invariant forall q :: p <= q < p + i ==> usage[q] == Usage(TypeFree, 0)
      {
        usage := usage[p + i := Usage(TypeFree, 0)];
        i := i + 1;
      }
    }

    // ----- allocation -----

    method Charged(size: int)
      requires Marked(history, used, max)
      modifies `used, `max, `history
      ensures used == old(used) + size && history == old(history) + [used] && Marked(history, used, max)
      ensures size <= 0 ==> max == old(max)
    {
      Logged(history, used, max, used + size);
      used := used + size;
      if used > max { max := used; }
      history := history + [used];
    }

    /** Whole pages for a request of `zone_limit` bytes or more. */
    method AllocLarge(size: nat) returns (r: Option<nat>, ghost y: Piece)
      requires Valid() && size > 0
      modifies `pageList, `usage, `zones, `zoneArray, `zoneFree, `zoneFreeCnt, `used, `max, `live, `history, `owner
      ensures |usage| == old(|usage|)
      ensures Valid()
      ensures r.None? ==> unchanged(this) && forall i :: 0 <= i < |pageList| ==> pageList[i].len * PAGE < size
      ensures r.Some? ==> (Some(r.value / PAGE), pageList) == SlabPages.PageAlloc(old(pageList), PagesFor(size))
      ensures r.Some? ==> y == Large(r.value / PAGE, PagesFor(size)) && y !in old(live) && live == old(live) + [y] && Addr(y) == r.value
      ensures r.Some? ==> history == old(history) + [used]
    {
      PagesForOk(size);
      var n := PagesFor(size);
      y := Large(0, n);
      PageAllocTakes(pageList, n);
      ghost var rs := pageList;
      var a := PageAlloc(n);
      if a == None {
        return None, y;
      }
      LargeTaken(c, rs, owner, usage, Starts(zones, zoneFree), live, n);
      y := Large(a.value, n);
      AddIs(live, y, 0);
      AddLarge(c, live, zones, y);
      StoreLarge(usage[a.value := Usage(TypeLarge, n)], n * PAGE, live + [y], Assign(owner, a.value, n, LargePage(a.value)));
      return Some(a.value * PAGE), y;
    }

    /** Storing the changed page table, and the bytes charged for the pages. */
    method StoreLarge(table: seq<Usage>, size: nat, ghost pieces: seq<Piece>, ghost owners: seq<Owner>)
      requires ConfigOk(c) && zoneFreeCnt == |zoneFree| <= RELEASE_THRESH && Marked(history, used, max)
      requires ZonesState(c, zones, zoneArray, zoneFree, pieces) && used + size == Charge(pieces)
      requires PagesState(c, pageList, owners, table, Starts(zones, zoneFree), pieces)
      modifies `usage, `used, `max, `live, `owner, `history
      ensures Valid() && usage == table && live == pieces && history == old(history) + [used]
    {
      usage := table;
      Charged(size);
      live := pieces;
      owner := owners;
    }

    /** Storing changed zones and lists, and the bytes charged (or, when negative, released) for them. */
    method Store(zs: map<nat, Zone>, lists: seq<seq<nat>>, size: int, ghost pieces: seq<Piece>)
      requires ConfigOk(c) && zoneFreeCnt == |zoneFree| <= RELEASE_THRESH && Marked(history, used, max)
      requires ZonesState(c, zs, lists, zoneFree, pieces) && used + size == Charge(pieces)
      requires PagesState(c, pageList, owner, usage, Starts(zs, zoneFree), pieces)
      modifies `zones, `zoneArray, `used, `max, `live, `history
      ensures Valid() && zones == zs && zoneArray == lists && live == pieces && used == old(used) + size
      ensures history == old(history) + [used] && (size <= 0 ==> max == old(max))
    {
      zones := zs;
      zoneArray := lists;
      Charged(size);
      live := pieces;
    }

    /** The chunk at hand in a zone, and the zone without it. */
    method TakeFrom(z: Zone, ghost k: nat) returns (z': Zone, r: nat)
      requires z.nfree > 0
      requires if z.uindex + 1 != z.nmax then k == z.uindex + 1 else z.free != [] && z.free[0] == ChunkAt(z, k)
      ensures z' == TakenZone(z) && r == ChunkAt(z, k)
    {
      z' := z.(nfree := z.nfree - 1);
      if z.uindex + 1 != z.nmax {
        z' := z'.(uindex := z.uindex + 1);
        r := ChunkAt(z, z'.uindex);
      } else {
        r := z.free[0];
        z' := z'.(free := z.free[1..]);
      }
    }

    /** A chunk from the zone `p` at the head of its list. */
    method AllocChunk(p: nat, zi: nat, size: nat) returns (r: nat, ghost y: Piece)
      requires Valid() && zi < NZONES && size == ChunkOf(zi) && zoneArray[zi] != [] && zoneArray[zi][0] == p
      modifies `zones, `zoneArray, `used, `max, `live, `history
      ensures Valid()
      ensures y !in old(live) && live == old(live) + [y] && y.Small? && y.zone == p && Addr(y) == r && Size(y) == size
      ensures history == old(history) + [used]
    {
      ghost var k := ChunkTaken(c, zones, zoneArray, zoneFree, live, zi);
      var z := zones[p];
      y := PieceAt(p, z, k);
      ChunkAdded(c, pageList, owner, usage, zones, zoneFree, live, p, TakenZone(z), y);
      var z';
      z', r := TakeFrom(z, k);
      var lists := zoneArray;
      if z'.nfree == 0 {
        lists := zoneArray[zi := zoneArray[zi][1..]];
      }
      Store(zones[p := z'], lists, z.chunk, live + [y]);
    }

    /** Everything but the pages of a zone that is being set up at `p`. */
    ghost predicate ValidWith(p: nat)
      reads this
    {
      && ConfigOk(c) && p !in zones && p !in zoneFree
      && PagesState(c, pageList, owner, usage, Starts(zones, zoneFree) + {p}, live)
      && ZonesState(c, zones, zoneArray, zoneFree, live)
      && zoneFreeCnt == |zoneFree| <= RELEASE_THRESH
      && used == Charge(live) && Marked(history, used, max)
    }

    /** A zone kept back is used again. */
    method ReuseZone() returns (p: nat)
      requires Valid() && zoneFree != []
      modifies `zoneFree, `zoneFreeCnt
      ensures ValidWith(p) && old(zoneFree) == [p] + zoneFree
    {
      p := zoneFree[0];
      NoDupTail(zoneFree);
      StartsReused(zones, zoneFree);
      zoneFree := zoneFree[1..];
      zoneFreeCnt := zoneFreeCnt - 1;
    }

    /** New pages for a zone, entered in the page table. */
    method NewZone() returns (r: Option<nat>)
      requires Valid()
      modifies `pageList, `usage, `owner
      ensures |usage| == old(|usage|)
      ensures r.Some? ==> ValidWith(r.value)
      ensures (r, pageList) == SlabPages.PageAlloc(old(pageList), c.zonePages)
      ensures r.None? ==> unchanged(this) && forall i :: 0 <= i < |pageList| ==> pageList[i].len < c.zonePages
    {
      PageAllocTakes(pageList, c.zonePages);
      ghost var rs, was := pageList, usage;
      r := PageAlloc(c.zonePages);
      if r == None { return; }
      PagesTaken(rs, owner, c.zonePages, ZonePage(r.value));
      MapZone(r.value);
      ZoneTaken(c, rs, owner, was, usage, Starts(zones, zoneFree), live);
      owner := Assign(owner, r.value, c.zonePages, ZonePage(r.value));
    }

    /** The zone kept back last is used again, and only without one new pages are taken. */
    ghost predicate ZoneFrom(kept: seq<nat>, runs: seq<Run>, kept': seq<nat>, runs': seq<Run>, p: nat)
    {
      if kept != [] then kept == [p] + kept' && runs' == runs
      else kept' == [] && (Some(p), runs') == SlabPages.PageAlloc(runs, c.zonePages)
    }

    method ZonePages() returns (r: Option<nat>)
      requires Valid()
      modifies `pageList, `usage, `owner, `zoneFree, `zoneFreeCnt
      ensures |usage| == old(|usage|)
      ensures r.Some? ==> ValidWith(r.value) && ZoneFrom(old(zoneFree), old(pageList), zoneFree, pageList, r.value)
      ensures r.None? ==> unchanged(this) && zoneFree == [] && forall i :: 0 <= i < |pageList| ==> pageList[i].len < c.zonePages
    {
      if zoneFree != [] {
        var p := ReuseZone();
        return Some(p);
      }
      r := NewZone();
    }

    /** A chunk from a new zone, set up in a zone kept back or in new pages. */
    method AllocZone(zi: nat, size: nat) returns (r: Option<nat>, ghost y: Piece)
      requires Valid() && zi < NZONES && size == ChunkOf(zi) && size > 0 && MaxChunks(c, size) >= 3 && Offset(c, size) >= c.hdr
      requires Offset(c, size) + Times(MaxChunks(c, size), size) <= c.zonePages * PAGE
      modifies `pageList, `usage, `zones, `zoneArray, `zoneFree, `zoneFreeCnt, `used, `max, `live, `history, `owner
      ensures |usage| == old(|usage|)
      ensures Valid()
      ensures r.None? ==> unchanged(this) && zoneFree == [] && forall i :: 0 <= i < |pageList| ==> pageList[i].len < c.zonePages
      ensures r.Some? ==> y !in old(live) && live == old(live) + [y] && y.Small? && Addr(y) == r.value && Size(y) == size
      ensures r.Some? ==> ZoneFrom(old(zoneFree), old(pageList), zoneFree, pageList, y.zone) && y.k == 0
      ensures r.Some? ==> zi < |old(zoneArray)| && zoneArray == old(zoneArray)[zi := [y.zone] + old(zoneArray)[zi]]
      ensures r.Some? ==> history == old(history) + [used]
    {
      y := Large(0, 0);
      var pages := ZonePages();
      if pages == None { return None, y; }
      var p := pages.value;
      var off := Offset(c, size);
      var z := Zone(MaxChunks(c, size) - 1, MaxChunks(c, size), p * PAGE + off, 0, size, zi, []);
      y := PieceAt(p, z, 0);
      ZoneAdded(c, zones, zoneArray, zoneFree, live, p, z);
      AddIs(live, y, p);
      SmallChange(c, pageList, owner, usage, Starts(zones, zoneFree) + {p}, live, live + [y]);
      StartsAdded(zones, zoneFree, p, z);
      Store(zones[p := z], zoneArray[zi := [p] + zoneArray[zi]], size, live + [y]);
      return Some(z.base), y;
    }

    /** `rt_slab_alloc`. */
    method Alloc(size: nat) returns (r: Option<nat>, ghost y: Piece)
      requires Valid()
      modifies `pageList, `usage, `zones, `zoneArray, `zoneFree, `zoneFreeCnt, `used, `max, `live, `history, `owner
      ensures |usage| == old(|usage|)
      ensures Valid()
      ensures r.None? ==> unchanged(this) && (size == 0 || Exhausted(c, pageList, zoneArray, zoneFree, size))
      ensures r.Some? ==> size > 0 && y !in old(live) && live == old(live) + [y] && Addr(y) == r.value
      ensures r.Some? ==> Size(y) >= size && Size(y) == Rounded(c, size) && history == old(history) + [used]
    {
      y := Large(0, 0);
      if size == 0 { return None, y; }
      PagesForOk(size);
      if size >= ZoneLimit(c) {
        r, y := AllocLarge(size);
        return;
      }
      ZoneIndexOk(size);
      MaxChunksOk(c, size);
      var (chunk, zi) := ZoneIndex(size);
      if zoneArray[zi] != [] {
        var a;
        a, y := AllocChunk(zoneArray[zi][0], zi, chunk);
        return Some(a), y;
      }
      r, y := AllocZone(zi, chunk);
    }

    // ----- release -----

    /** The pages of the `i`-th allocation, which starts at `page`, go back to the page list. */
    method FreeLarge(page: nat, ghost i: nat)
      requires Valid() && i < |live| && live[i].Large? && live[i].page == page
      modifies `usage, `used, `pageList, `live, `owner, `history
      ensures |usage| == old(|usage|)
      ensures Valid() && live == Drop(old(live), i) && used == old(used) - Size(old(live)[i])
      ensures history == old(history) + [used] && pageList == SlabPages.PageFree(old(pageList), page, old(live)[i].n)
      ensures page < |old(usage)| && usage == old(usage)[page := old(usage)[page].(size := 0)]
    {
      assert live[i] in live;
      LargeGiven(c, pageList, owner, usage, Starts(zones, zoneFree), live, i);
      DropLarge(c, live, zones, i);
      DropIs(live, i, 0);
      var n := usage[page].size;
      usage := usage[page := usage[page].(size := 0)];
      Logged(history, used, max, used - n * PAGE);
      used := used - n * PAGE;
      history := history + [used];
      PageFree(page, n);
      owner := Assign(owner, page, n, FreePage);
      live := Drop(live, i);
    }

    /** The chunk at `ptr`, the `i`-th allocation, goes back to its zone `p`. */
    method FreeChunk(ptr: nat, p: nat, ghost i: nat)
      requires Valid() && i < |live| && live[i].Small? && live[i].zone == p && live[i].at == ptr
      modifies `zones, `zoneArray, `used, `max, `live, `history
      ensures Valid() && live == Drop(old(live), i) && used == old(used) - Size(old(live)[i]) && max == old(max)
      ensures history == old(history) + [used]
      ensures p in zones && zones[p].nfree > 0
      ensures p in old(zones) && old(zones)[p].index < |old(zoneArray)| && zones == old(zones)[p := GivenZone(old(zones)[p], ptr)]
      ensures var idx := old(zones)[p].index;
              zoneArray == if old(zones)[p].nfree == 0 then old(zoneArray)[idx := [p] + old(zoneArray)[idx]] else old(zoneArray)
    {
      ChunkGiven(c, zones, zoneArray, zoneFree, live, i);
      var z := zones[p];
      ChunkDropped(c, pageList, owner, usage, zones, zoneFree, live, p, GivenZone(z, ptr), i);
      var z' := z.(nfree := z.nfree + 1, free := [ptr] + z.free);
      var lists := zoneArray;
      if z.nfree == 0 {
        lists := zoneArray[z.index := [p] + zoneArray[z.index]];
      }
      assert z' == GivenZone(z, ptr);
      Store(zones[p := z'], lists, -(z.chunk as int), Drop(live, i));
    }

    /** A zone whose chunks are all free is kept back, and a third one kept back gives up its pages. */
    method RetireZone(p: nat)
      requires Valid() && p in zones && zones[p].nfree == zones[p].nmax
      modifies `zones, `zoneArray, `zoneFree, `zoneFreeCnt, `usage, `pageList, `owner
      ensures |usage| == old(|usage|)
      ensures Valid() && zones == old(zones) - {p}
      ensures zoneFree == if |old(zoneFree)| < RELEASE_THRESH then [p] + old(zoneFree) else old(zoneFree)
      ensures pageList == if |old(zoneFree)| < RELEASE_THRESH then old(pageList) else SlabPages.PageFree(old(pageList), p, c.zonePages)
    {
      ZoneRetired(c, zones, zoneArray, zoneFree, live, p);
      var idx := zones[p].index;
      zoneArray := zoneArray[idx := Without<nat>(zoneArray[idx], p)];
      zones := zones - {p};
      zoneFree := [p] + zoneFree;
      zoneFreeCnt := zoneFreeCnt + 1;
      if zoneFreeCnt > RELEASE_THRESH {
        ReleaseZone();
      }
    }

    /** The zone kept back last gives its pages to the page list. */
    method ReleaseZone()
      requires ConfigOk(c) && zoneFree != [] && zoneFreeCnt == |zoneFree| <= RELEASE_THRESH + 1
      requires PagesState(c, pageList, owner, usage, Starts(zones, zoneFree), live)
      requires ZonesState(c, zones, zoneArray, zoneFree, live) && used == Charge(live) && Marked(history, used, max)
      modifies `zoneFree, `zoneFreeCnt, `usage, `pageList, `owner
      ensures |usage| == old(|usage|)
      ensures Valid() && zoneFree == old(zoneFree)[1..] && pageList == SlabPages.PageFree(old(pageList), old(zoneFree)[0], c.zonePages)
      ensures UsageBut(old(usage), usage, old(zoneFree)[0], c.zonePages) && old(zoneFree)[0] + c.zonePages <= |usage|
      ensures forall q :: old(zoneFree)[0] <= q < old(zoneFree)[0] + c.zonePages ==> usage[q] == Usage(TypeFree, 0)
    {
      var p := zoneFree[0];
      ghost var zs, was := Starts(zones, zoneFree), usage;
      StartsReused(zones, zoneFree);
      NoDupTail(zoneFree);
      assert p in zs && Owns(owner, p, c.zonePages, ZonePage(p));
      zoneFree := zoneFree[1..];
      zoneFreeCnt := zoneFreeCnt - 1;
      UnmapZone(p);
      ZoneGiven(c, pageList, owner, was, usage, zs, live, p);
      assert zs - {p} == Starts(zones, zoneFree);
      PageFree(p, c.zonePages);
      owner := Assign(owner, p, c.zonePages, FreePage);
    }

    /** `rt_slab_free` of the `i`-th allocation; a null pointer is ignored. */
    method Free(ptr: Option<nat>, ghost i: nat)
      requires Valid() && (ptr.Some? ==> i < |live| && Addr(live[i]) == ptr.value)
      modifies `pageList, `usage, `zones, `zoneArray, `zoneFree, `zoneFreeCnt, `used, `max, `live, `history, `owner
      ensures |usage| == old(|usage|)
      ensures Valid()
      ensures ptr.None? ==> unchanged(this)
      ensures ptr.Some? ==> live == Drop(old(live), i) && used == old(used) - Size(old(live)[i]) && max == old(max)
      ensures ptr.Some? ==> history == old(history) + [used]
      ensures ptr.Some? && old(live)[i].Small? ==> GivesUp(c.zonePages, old(zones), zones, old(zoneFree), zoneFree, old(pageList), pageList, live, old(live)[i].zone)
      ensures ptr.Some? && old(live)[i].Large? ==>
                zones == old(zones) && zoneFree == old(zoneFree) && pageList == SlabPages.PageFree(old(pageList), old(live)[i].page, old(live)[i].n)
    {
      if ptr == None { return; }
      TableFinds(c, pageList, owner, usage, zones, zoneFree, live, i);
      var page := ptr.value / PAGE;
      if usage[page].kind == TypeLarge {
        FreeLarge(page, i);
        return;
      }
      FreeSmall(ptr.value, page - usage[page].size, i);
    }

    /** The chunk goes back to its zone, and the zone may be given up. */
    method FreeSmall(ptr: nat, p: nat, ghost i: nat)
      requires Valid() && i < |live| && live[i].Small? && live[i].zone == p && live[i].at == ptr
      modifies `pageList, `usage, `zones, `zoneArray, `zoneFree, `zoneFreeCnt, `used, `max, `live, `history, `owner
      ensures |usage| == old(|usage|)
      ensures Valid() && live == Drop(old(live), i) && used == old(used) - Size(old(live)[i]) && max == old(max)
      ensures history == old(history) + [used]
      ensures GivesUp(c.zonePages, old(zones), zones, old(zoneFree), zoneFree, old(pageList), pageList, live, p)
    {
      ghost var before := zones;
      TakeBack(ptr, p, i);
      GiveUp(p, before);
    }

    method TakeBack(ptr: nat, p: nat, ghost i: nat)
      requires Valid() && i < |live| && live[i].Small? && live[i].zone == p && live[i].at == ptr
      modifies `zones, `zoneArray, `used, `max, `live, `history
      ensures Valid() && live == Drop(old(live), i) && used == old(used) - Size(old(live)[i]) && max == old(max)
      ensures history == old(history) + [used]
      ensures p in zones && zones[p].nfree > 0 && SameButFree(old(zones), zones, p)
    {
      ghost var before := zones;
      FreeChunk(ptr, p, i);
      OnlyGiven(before, zones, p, ptr);
    }

    /** Zone `p`, which has just taken a chunk back, is retired if it is not needed. */
    method GiveUp(p: nat, ghost before: map<nat, Zone>)
      requires Valid() && p in zones && zones[p].nfree > 0 && SameButFree(before, zones, p)
      modifies `zones, `zoneArray, `zoneFree, `zoneFreeCnt, `usage, `pageList, `owner
      ensures |usage| == old(|usage|)
      ensures Valid() && GivesUp(c.zonePages, before, zones, old(zoneFree), zoneFree, old(pageList), pageList, live, p)
    {
      RetireTest(c, before, zones, zoneArray, live, p);
      var z := zones[p];
      if z.nfree == z.nmax && zoneArray[z.index] != [p] {
        RetireZone(p);
      }
    }

    // ----- resizing -----

    lemma PiecesSame(pieces: seq<Piece>, now: seq<bv8>)
      requires Valid() && Backed() && pieces == live && now == bytes
      ensures PiecesKept(pieces, now, now, |pieces|)
    {
      forall k | 0 <= k < |pieces| ensures PieceKept(now, now, pieces[k]) {
        PieceInside(pieces[k]);
      }
    }

    lemma PieceInside(x: Piece)
      requires Valid() && Backed() && x in live
      ensures Addr(x) + Size(x) <= |bytes|
    {
      InPages(c, owner, zones, Starts(zones, zoneFree), live, x);
    }

    /** `rt_memcpy` of `count` bytes from allocation `i` to allocation `j`. */
    method CopyPiece(src: nat, dst: nat, count: nat, ghost i: nat, ghost j: nat)
      requires Valid() && Backed() && i < |live| && j < |live| && src == Addr(live[i]) && dst == Addr(live[j])
      requires count <= Size(live[i]) && count <= Size(live[j])
      modifies `bytes
      ensures Valid() && Backed() && Copied(old(bytes), src, bytes, dst, count)
      ensures PiecesKept(live, old(bytes), bytes, j)
    {
      ghost var was := bytes;
      PieceInside(live[i]);
      PieceInside(live[j]);
      bytes := bytes[..dst] + bytes[src..src + count] + bytes[dst + count..];
      CopyKeeps(was, src, dst, count, j);
    }

    lemma CopyKeeps(was: seq<bv8>, src: nat, dst: nat, count: nat, j: nat)
      requires Valid() && Backed() && j < |live| && dst == Addr(live[j]) && count <= Size(live[j]) && Copied(was, src, bytes, dst, count)
      ensures PiecesKept(live, was, bytes, j)
    {
      forall k | 0 <= k < |live| && k != j ensures PieceKept(was, bytes, live[k]) {
        PieceInside(live[k]);
        LiveApart(c, pageList, owner, usage, zones, Starts(zones, zoneFree), live, k, j);
        CopyApart(was, bytes, src, dst, count, live[k], dst + Size(live[j]));
      }
    }

    /** A new allocation, the bytes copied to it, and the old one freed. */
    method Replace(ptr: nat, size: nat, count: nat, ghost i: nat) returns (r: Option<nat>, ghost y: Piece)
      requires Valid() && Backed() && i < |live| && Addr(live[i]) == ptr && 0 < size && count <= size && count <= Size(live[i])
      modifies this
      ensures Valid() && Backed()
      ensures r.None? ==> unchanged(this) && Exhausted(c, pageList, zoneArray, zoneFree, size)
      ensures r.Some? ==> y !in old(live) && live == Drop(old(live) + [y], i) && Addr(y) == r.value && Size(y) == Rounded(c, size)
      ensures r.Some? ==> history == old(history) + [Charge(old(live) + [y]), used]
      ensures r.Some? ==> count <= size <= Size(y) && Copied(old(bytes), ptr, bytes, r.value, count) && PiecesKept(old(live), old(bytes), bytes, |old(live)|)
    {
      r, y := Alloc(size);
      if r.Some? {
        ghost var n, was := |live| - 1, bytes;
        CopyPiece(ptr, r.value, count, i, n);
        PiecesButLast(live, was, bytes);
        ghost var u := used;
        Free(Some(ptr), i);
        TwoMore(old(history), u, used);
      }
    }

    /** `rt_slab_realloc` of the `i`-th allocation, or of a null pointer. */
    method Realloc(ptr: Option<nat>, size: nat, ghost i: nat) returns (r: Option<nat>, ghost y: Piece)
      requires Valid() && Backed() && (ptr.Some? ==> i < |live| && Addr(live[i]) == ptr.value)
      modifies this
      ensures Valid() && Backed()
      ensures PiecesKept(old(live), old(bytes), bytes, |old(live)|)
      ensures ptr.Some? && size > 0 && r.Some? ==> Copied(old(bytes), ptr.value, bytes, r.value, Carried(old(live)[i], size))
      ensures ptr.Some? && size > 0 ==> Smaller(Size(old(live)[i]), size) <= Carried(old(live)[i], size) <= Size(old(live)[i])
      ensures ptr.None? ==> if r.Some? then live == old(live) + [y] && Addr(y) == r.value && Size(y) == Rounded(c, size) && history == old(history) + [used]
                         else unchanged(this) && (size == 0 || Exhausted(c, pageList, zoneArray, zoneFree, size))
      ensures ptr.Some? && size == 0 ==> r == None && live == Drop(old(live), i) && history == old(history) + [used]
      ensures ptr.Some? && size > 0 && SameChunk(old(live)[i], size) ==> r == ptr && unchanged(this)
      ensures ptr.Some? && size > 0 && !SameChunk(old(live)[i], size) ==>
                if r.Some? then y !in old(live) && live == Drop(old(live) + [y], i) && Addr(y) == r.value && Size(y) >= size
                                && history == old(history) + [Charge(old(live) + [y]), used]
                else unchanged(this) && Exhausted(c, pageList, zoneArray, zoneFree, if old(live)[i].Small? then ZoneIndex(size).0 else size)
    {
      y := Large(0, 0);
      PiecesSame(live, bytes);
      if ptr == None {
        r, y := Alloc(size);
        return;
      }
      if size == 0 {
        Free(ptr, i);
        return None, y;
      }
      CarriedIs(c, live[i], size);
      TableFinds(c, pageList, owner, usage, zones, zoneFree, live, i);
      var page := ptr.value / PAGE;
      if usage[page].kind == TypeLarge {
        var osize := usage[page].size * PAGE;
        var count := if size > osize then osize else size;
        assert count == Carried(live[i], size);
        r, y := Replace(ptr.value, size, count, i);
        return;
      }
      r, y := ReallocChunk(ptr.value, page - usage[page].size, size, i);
    }

    /** The chunk at `ptr` of zone `p`, the `i`-th allocation, is kept when the new size rounds to it. */
    method ReallocChunk(ptr: nat, p: nat, size: nat, ghost i: nat) returns (r: Option<nat>, ghost y: Piece)
      requires Valid() && Backed() && i < |live| && live[i].Small? && live[i].zone == p && live[i].at == ptr && size > 0
      modifies this
      ensures Valid() && Backed()
      ensures PiecesKept(old(live), old(bytes), bytes, |old(live)|)
      ensures r.Some? ==> Copied(old(bytes), ptr, bytes, r.value, Carried(old(live)[i], size))
      ensures SameChunk(old(live)[i], size) ==> r == Some(ptr) && unchanged(this)
      ensures !SameChunk(old(live)[i], size) && r.None? ==> unchanged(this) && Exhausted(c, pageList, zoneArray, zoneFree, ZoneIndex(size).0)
      ensures !SameChunk(old(live)[i], size) && r.Some? ==>
                y !in old(live) && live == Drop(old(live) + [y], i) && Addr(y) == r.value && Size(y) >= size
                && history == old(history) + [Charge(old(live) + [y]), used]
    {
      ChunkSize(zones, live, i);
      RoundedOk(c, size);
      r, y := KeepOrReplace(ptr, ZoneIndex(size).0, zones[p].chunk, i);
    }

    /** The `i`-th allocation, of `have` bytes, becomes one of `want` bytes. */
    method KeepOrReplace(ptr: nat, want: nat, have: nat, ghost i: nat) returns (r: Option<nat>, ghost y: Piece)
      requires Valid() && Backed() && i < |live| && Addr(live[i]) == ptr && Size(live[i]) == have && 0 < want
      modifies this
      ensures Valid() && Backed()
      ensures PiecesKept(old(live), old(bytes), bytes, |old(live)|)
      ensures want == have ==> r == Some(ptr) && unchanged(this)
      ensures want != have && r.None? ==> unchanged(this) && Exhausted(c, pageList, zoneArray, zoneFree, want)
      ensures want != have && r.Some? ==> y !in old(live) && live == Drop(old(live) + [y], i) && Addr(y) == r.value && Size(y) == Rounded(c, want) >= want
      ensures want != have && r.Some? ==> history == old(history) + [Charge(old(live) + [y]), used]
      ensures r.Some? ==> Copied(old(bytes), ptr, bytes, r.value, if want > have then have else want)
    {
      y := Large(0, 0);
      PiecesSame(live, bytes);
      PieceInside(live[i]);
      if want == have {
        CopiedInPlace(bytes, ptr, have);
        return Some(ptr), y;
      }
      r, y := Replace(ptr, want, if want > have then have else want, i);
    }
  }
}
