/** What each step of the slab allocator keeps: zones, zone lists, pages and page table. */
module SlabSteps {
  import opened Lists
  import opened Alignment
  import opened AlignedModel
  import opened SlabPages
  import opened SlabModel

  // ----- chunk arithmetic -----

  /** Chunks of one zone lie apart, in order of their numbers. */
  lemma ChunksApart(z: Zone, k: nat, l: nat)
    requires z.chunk > 0 && k < l
    ensures ChunkAt(z, k) + z.chunk <= ChunkAt(z, l)
  {
    TimesApart(k, l, z.chunk);
  }

  lemma ChunkInjective(z: Zone, k: nat, l: nat)
    requires z.chunk > 0 && ChunkAt(z, k) == ChunkAt(z, l)
    ensures k == l
  {
    if k < l { ChunksApart(z, k, l); } else if l < k { ChunksApart(z, l, k); }
  }

  /** A handed-out chunk lies inside its zone, behind the header. */
  lemma ChunkInside(c: Config, p: nat, z: Zone, k: nat)
    requires ZoneShape(c, p, z) && k <= z.uindex
    ensures p * PAGE + c.hdr <= ChunkAt(z, k) && ChunkAt(z, k) + z.chunk <= (p + c.zonePages) * PAGE
  {
    ChunksApart(z, k, z.nmax);
  }

  // ----- one zone -----

  lemma ZoneAtFrame(c: Config, live: seq<Piece>, live': seq<Piece>, p: nat, z: Zone)
    requires ZoneAt(c, live, p, z) && Count(live', p) == Count(live, p)
    requires forall k :: PieceAt(p, z, k) in live <==> PieceAt(p, z, k) in live'
    ensures ZoneAt(c, live', p, z)
  {
    forall a ensures IsFreeChunk(live', p, z, a) <==> IsFreeChunk(live, p, z, a) {
      if IsFreeChunk(live', p, z, a) {
        var k :| 0 <= k <= z.uindex && a == ChunkAt(z, k) && PieceAt(p, z, k) !in live';
        assert PieceAt(p, z, k) !in live;
      }
      if IsFreeChunk(live, p, z, a) {
        var k :| 0 <= k <= z.uindex && a == ChunkAt(z, k) && PieceAt(p, z, k) !in live;
        assert PieceAt(p, z, k) !in live';
      }
    }
  }

  /** A chunk from the never-used tail. */
  lemma TakeFresh(c: Config, live: seq<Piece>, zones: map<nat, Zone>, p: nat)
    requires LiveOk(zones, live) && p in zones && ZoneAt(c, live, p, zones[p]) && zones[p].uindex + 1 != zones[p].nmax
    ensures var z := zones[p]; var y := PieceAt(p, z, z.uindex + 1);
            y !in live && ZoneAt(c, live + [y], p, z.(nfree := z.nfree - 1, uindex := z.uindex + 1))
  {
    var z := zones[p];
    var k := z.uindex + 1;
    var y, z' := PieceAt(p, z, k), z.(nfree := z.nfree - 1, uindex := k);
    assert y in live ==> SmallOk(zones, y);
    AddIs(live, y, p);
    forall a ensures IsFreeChunk(live + [y], p, z', a) <==> IsFreeChunk(live, p, z, a) {
      if IsFreeChunk(live, p, z, a) {
        var l :| 0 <= l <= z.uindex && a == ChunkAt(z, l) && PieceAt(p, z, l) !in live;
        assert a == ChunkAt(z', l) && PieceAt(p, z', l) !in live + [y];
      }
      if IsFreeChunk(live + [y], p, z', a) {
        var l :| 0 <= l <= z'.uindex && a == ChunkAt(z', l) && PieceAt(p, z', l) !in live + [y];
        assert PieceAt(p, z', l) == PieceAt(p, z, l) && l != k;
      }
    }
  }

  /** A chunk from the head of the free chunk list. */
  lemma TakeListed(c: Config, live: seq<Piece>, zones: map<nat, Zone>, p: nat) returns (k: nat)
    requires LiveOk(zones, live) && p in zones && ZoneAt(c, live, p, zones[p])
    requires zones[p].uindex + 1 == zones[p].nmax && zones[p].nfree > 0
    ensures var z := zones[p]; var y := PieceAt(p, z, k);
            && k <= z.uindex && z.free != [] && z.free[0] == ChunkAt(z, k) && y !in live
            && ZoneAt(c, live + [y], p, z.(nfree := z.nfree - 1, free := z.free[1..]))
  {
    var z := zones[p];
    assert z.free[0] in z.free;
    k :| 0 <= k <= z.uindex && z.free[0] == ChunkAt(z, k) && PieceAt(p, z, k) !in live;
    var y, z' := PieceAt(p, z, k), z.(nfree := z.nfree - 1, free := z.free[1..]);
    AddIs(live, y, p);
    NoDupTail(z.free);
    forall a ensures a in z'.free <==> IsFreeChunk(live + [y], p, z', a) {
      TakenChunk(live, p, z, z', k, a);
    }
  }

  /** Taking chunk `k` removes it, and only it, from the free chunks. */
  lemma TakenChunk(live: seq<Piece>, p: nat, z: Zone, z': Zone, k: nat, a: nat)
    requires z.chunk > 0 && z'.base == z.base && z'.chunk == z.chunk && z'.uindex == z.uindex && k <= z.uindex
    ensures IsFreeChunk(live + [PieceAt(p, z, k)], p, z', a) <==> IsFreeChunk(live, p, z, a) && a != ChunkAt(z, k)
  {
    var y := PieceAt(p, z, k);
    if IsFreeChunk(live, p, z, a) && a != ChunkAt(z, k) {
      var l :| 0 <= l <= z.uindex && a == ChunkAt(z, l) && PieceAt(p, z, l) !in live;
      assert a == ChunkAt(z', l) && PieceAt(p, z', l) !in live + [y];
    }
    if IsFreeChunk(live + [y], p, z', a) {
      var l :| 0 <= l <= z'.uindex && a == ChunkAt(z', l) && PieceAt(p, z', l) !in live + [y];
      assert PieceAt(p, z', l) == PieceAt(p, z, l) && l != k;
      assert ChunkAt(z, l) != ChunkAt(z, k) by { if ChunkAt(z, l) == ChunkAt(z, k) { ChunkInjective(z, l, k); } }
    }
  }

  /** A live chunk goes to the head of the free chunk list. */
  lemma GiveBack(c: Config, live: seq<Piece>, zones: map<nat, Zone>, i: nat)
    requires LiveOk(zones, live) && i < |live| && live[i].Small?
    requires live[i].zone in zones && ZoneAt(c, live, live[i].zone, zones[live[i].zone])
    ensures var p := live[i].zone; var z := zones[p];
            ZoneAt(c, Drop(live, i), p, z.(nfree := z.nfree + 1, free := [live[i].at] + z.free))
  {
    var y := live[i];
    var p := y.zone;
    var z := zones[p];
    var z' := z.(nfree := z.nfree + 1, free := [y.at] + z.free);
    var live' := Drop(live, i);
    assert SmallOk(zones, y);
    DropIs(live, i, p);
    assert y.at !in z.free by {
      if IsFreeChunk(live, p, z, y.at) {
        var l :| 0 <= l <= z.uindex && y.at == ChunkAt(z, l) && PieceAt(p, z, l) !in live;
        ChunkInjective(z, l, y.k);
      }
    }
    NoDupCons(y.at, z.free);
    forall a ensures a in z'.free <==> IsFreeChunk(live', p, z', a) {
      if a in z'.free {
        if a == y.at {
          assert a == ChunkAt(z', y.k) && PieceAt(p, z', y.k) == y;
        } else {
          var l :| 0 <= l <= z.uindex && a == ChunkAt(z, l) && PieceAt(p, z, l) !in live;
          assert a == ChunkAt(z', l) && PieceAt(p, z', l) !in live';
        }
      }
      if IsFreeChunk(live', p, z', a) {
        var l :| 0 <= l <= z'.uindex && a == ChunkAt(z', l) && PieceAt(p, z', l) !in live';
        assert PieceAt(p, z', l) == PieceAt(p, z, l);
        assert PieceAt(p, z, l) == y || IsFreeChunk(live, p, z, a);
      }
    }
  }

  /** A new zone hands out its first chunk. */
  lemma FirstChunk(c: Config, live: seq<Piece>, zones: map<nat, Zone>, p: nat, z: Zone)
    requires LiveOk(zones, live) && p !in zones && ZoneShape(c, p, z) && z.free == [] && z.uindex == 0 && z.nfree == z.nmax - 1
    ensures PieceAt(p, z, 0) !in live && ZoneAt(c, live + [PieceAt(p, z, 0)], p, z)
  {
    var y := PieceAt(p, z, 0);
    assert y in live ==> SmallOk(zones, y);
    NoPieces(zones, live, p);
    AddIs(live, y, p);
    forall a ensures !IsFreeChunk(live + [y], p, z, a) {
    }
  }

  lemma {:induction false} NoPieces(zones: map<nat, Zone>, live: seq<Piece>, p: nat)
    requires p !in zones && forall x :: x in live ==> SmallOk(zones, x)
    ensures Count(live, p) == 0
  {
    if live != [] {
      assert live[0] in live;
      assert forall x :: x in live[1..] ==> x in live;
      NoPieces(zones, live[1..], p);
    }
  }

  /** A zone whose chunks are all free has no live chunk. */
  lemma AllFree(c: Config, live: seq<Piece>, p: nat, z: Zone, x: Piece)
    requires ZoneAt(c, live, p, z) && z.nfree == z.nmax && x in live
    ensures !(x.Small? && x.zone == p)
  {
    if x.Small? && x.zone == p { CountZero(live, p, x); }
  }

  // ----- all zones -----

  /** Nothing but pieces of zone `p` distinguishes `live` from `live'`. */
  ghost predicate SameBut(live: seq<Piece>, live': seq<Piece>, p: nat)
  {
    forall x: Piece :: !(x.Small? && x.zone == p) ==> (x in live <==> x in live')
  }

  lemma OtherZones(c: Config, live: seq<Piece>, live': seq<Piece>, zones: map<nat, Zone>, p: nat, z: Zone)
    requires ZonesOk(c, live, zones) && ZoneAt(c, live', p, z) && SameBut(live, live', p)
    requires forall q :: q != p ==> Count(live', q) == Count(live, q)
    ensures ZonesOk(c, live', zones[p := z])
  {
    var zones' := zones[p := z];
    forall q | q in zones' ensures ZoneAt(c, live', q, zones'[q]) {
      if q != p { ZoneAtFrame(c, live, live', q, zones[q]); }
    }
  }

  /** Zone `p` becomes `z`, or is new, and chunk `k` of it goes live. */
  lemma AddPiece(c: Config, live: seq<Piece>, zones: map<nat, Zone>, p: nat, z: Zone, k: nat)
    requires ZonesOk(c, live, zones) && LiveOk(zones, live)
    requires PieceAt(p, z, k) !in live && k <= z.uindex && ZoneAt(c, live + [PieceAt(p, z, k)], p, z)
    requires p in zones ==> z.base == zones[p].base && z.chunk == zones[p].chunk && zones[p].uindex <= z.uindex
    ensures ZonesOk(c, live + [PieceAt(p, z, k)], zones[p := z]) && LiveOk(zones[p := z], live + [PieceAt(p, z, k)])
  {
    var y := PieceAt(p, z, k);
    forall q ensures q != p ==> Count(live + [y], q) == Count(live, q) { AddIs(live, y, q); }
    AddIs(live, y, p);
    OtherZones(c, live, live + [y], zones, p, z);
    forall x | x in live + [y] ensures SmallOk(zones[p := z], x) {
      assert x in live ==> SmallOk(zones, x);
    }
  }

  /** Zone `p` of the `i`-th allocation becomes `z`, and that allocation ends. */
  lemma DropPiece(c: Config, live: seq<Piece>, zones: map<nat, Zone>, i: nat, z: Zone)
    requires ZonesOk(c, live, zones) && LiveOk(zones, live) && i < |live| && live[i].Small? && live[i].zone in zones
    requires var was := zones[live[i].zone]; z.base == was.base && z.chunk == was.chunk && z.uindex == was.uindex
    requires ZoneAt(c, Drop(live, i), live[i].zone, z)
    ensures ZonesOk(c, Drop(live, i), zones[live[i].zone := z]) && LiveOk(zones[live[i].zone := z], Drop(live, i))
  {
    var p, live' := live[i].zone, Drop(live, i);
    forall q ensures q != p ==> Count(live', q) == Count(live, q) { DropIs(live, i, q); }
    DropIs(live, i, p);
    OtherZones(c, live, live', zones, p, z);
    forall x | x in live' ensures SmallOk(zones[p := z], x) {
      assert SmallOk(zones, x);
    }
  }

  lemma AddLarge(c: Config, live: seq<Piece>, zones: map<nat, Zone>, y: Piece)
    requires ZonesOk(c, live, zones) && LiveOk(zones, live) && y.Large? && y !in live
    ensures ZonesOk(c, live + [y], zones) && LiveOk(zones, live + [y])
  {
    AddIs(live, y, 0);
    forall p | p in zones ensures ZoneAt(c, live + [y], p, zones[p]) {
      AddIs(live, y, p);
      ZoneAtFrame(c, live, live + [y], p, zones[p]);
    }
  }

  lemma DropLarge(c: Config, live: seq<Piece>, zones: map<nat, Zone>, i: nat)
    requires ZonesOk(c, live, zones) && LiveOk(zones, live) && i < |live| && live[i].Large?
    ensures ZonesOk(c, Drop(live, i), zones) && LiveOk(zones, Drop(live, i))
  {
    DropIs(live, i, 0);
    forall p | p in zones ensures ZoneAt(c, Drop(live, i), p, zones[p]) {
      DropIs(live, i, p);
      ZoneAtFrame(c, live, Drop(live, i), p, zones[p]);
    }
  }

  /** A zone without live chunks can go. */
  lemma ForgetZone(c: Config, live: seq<Piece>, zones: map<nat, Zone>, p: nat)
    requires ZonesOk(c, live, zones) && LiveOk(zones, live) && p in zones && zones[p].nfree == zones[p].nmax
    ensures ZonesOk(c, live, zones - {p}) && LiveOk(zones - {p}, live)
  {
    forall x | x in live ensures SmallOk(zones - {p}, x) {
      assert SmallOk(zones, x);
      AllFree(c, live, p, zones[p], x);
    }
    forall q | q in zones - {p} ensures ZoneAt(c, live, q, (zones - {p})[q]) {
      assert ZoneAt(c, live, q, zones[q]);
    }
  }

  // ----- zone lists -----

  /** Zone `p` becomes `z`, and the list of its index becomes `ps`. */
  lemma ArrayUpdate(zones: map<nat, Zone>, lists: seq<seq<nat>>, p: nat, z: Zone, ps: seq<nat>)
    requires ArrayOk(zones, lists) && z.index < NZONES && (p in zones ==> zones[p].index == z.index)
    requires NoDup(ps) && forall q :: q in ps <==> (if q == p then z.nfree > 0 else q in lists[z.index])
    ensures ArrayOk(zones[p := z], lists[z.index := ps])
  {
  }

  lemma ArrayForget(zones: map<nat, Zone>, lists: seq<seq<nat>>, p: nat)
    requires ArrayOk(zones, lists) && p in zones && zones[p].index < NZONES
    ensures ArrayOk(zones - {p}, lists[zones[p].index := Without(lists[zones[p].index], p)])
  {
    WithoutMembers(lists[zones[p].index], p);
  }

  // ----- pages -----

  /** Pages of different owners are different pages. */
  lemma OwnersApart(owner: seq<Owner>, a: nat, n: nat, o: Owner, b: nat, m: nat, o': Owner)
    requires Owns(owner, a, n, o) && Owns(owner, b, m, o') && o != o'
    ensures n == 0 || m == 0 || a + n <= b || b + m <= a
  {
    if n > 0 && m > 0 {
      assert owner[a] == o && owner[b] == o';
    }
  }

  lemma OwnsFrame(owner: seq<Owner>, a: nat, n: nat, o: Owner, b: nat, m: nat, o1: Owner, o2: Owner)
    requires Owns(owner, a, n, o) && Owns(owner, b, m, o1) && o != o1
    ensures Owns(Assign(owner, b, m, o2), a, n, o)
  {
    OwnersApart(owner, a, n, o, b, m, o1);
  }

  /** The first `n` pages of the run that `PageAlloc` finds were free, and now belong to `o`. */
  lemma PagesTaken(rs: seq<Run>, owner: seq<Owner>, n: nat, o: Owner)
    requires PagesOk(rs, owner) && PageAlloc(rs, n).0.Some? && o != FreePage
    ensures var (r, rs') := PageAlloc(rs, n);
            n > 0 && Owns(owner, r.value, n, FreePage) && PagesOk(rs', Assign(owner, r.value, n, o))
  {
    PageAllocTakes(rs, n);
    var (r, rs') := PageAlloc(rs, n);
    forall q: nat | r.value <= q < r.value + n ensures q < |owner| && owner[q] == FreePage {
      assert In(Run(r.value, n), q);
    }
    var last := r.value + n - 1;
    assert In(Run(r.value, n), last) && Covers(rs, last);
  }

  lemma PagesGiven(rs: seq<Run>, owner: seq<Owner>, a: nat, n: nat, o: Owner)
    requires PagesOk(rs, owner) && n > 0 && Owns(owner, a, n, o) && o != FreePage
    ensures NoneFree(rs, a, n) && PagesOk(PageFree(rs, a, n), Assign(owner, a, n, FreePage))
  {
    assert NoneFree(rs, a, n);
    PageFreeAdds(rs, a, n);
  }

  lemma ZonesOwnFrame(c: Config, ps: set<nat>, owner: seq<Owner>, b: nat, m: nat, o1: Owner, o2: Owner)
    requires ZonesOwn(c, ps, owner) && Owns(owner, b, m, o1) && forall p :: p in ps ==> o1 != ZonePage(p)
    ensures ZonesOwn(c, ps, Assign(owner, b, m, o2))
  {
    forall p | p in ps ensures Owns(Assign(owner, b, m, o2), p, c.zonePages, ZonePage(p)) {
      OwnsFrame(owner, p, c.zonePages, ZonePage(p), b, m, o1, o2);
    }
  }

  lemma LargeOwnFrame(live: seq<Piece>, owner: seq<Owner>, b: nat, m: nat, o1: Owner, o2: Owner)
    requires LargeOwn(live, owner) && Owns(owner, b, m, o1) && forall x :: x in live && x.Large? ==> o1 != LargePage(x.page)
    ensures LargeOwn(live, Assign(owner, b, m, o2))
  {
    forall x | x in live && x.Large? ensures Owns(Assign(owner, b, m, o2), x.page, x.n, LargePage(x.page)) {
      OwnsFrame(owner, x.page, x.n, LargePage(x.page), b, m, o1, o2);
    }
  }

  // ----- pages and page table together -----

  /** Ownership of pages agrees with the page list, the page table, the zones `zs` and the live allocations. */
  ghost predicate PagesState(c: Config, rs: seq<Run>, owner: seq<Owner>, usage: seq<Usage>, zs: set<nat>, live: seq<Piece>)
  {
    && PagesOk(rs, owner) && ZonesOwn(c, zs, owner) && LargeOwn(live, owner)
    && |usage| == |owner| && ZonesMapped(c, zs, usage) && LargeMapped(live, usage)
  }

  /** The table changes at most on the `m` pages from `b` on. */
  ghost predicate UsageBut(usage: seq<Usage>, usage': seq<Usage>, b: nat, m: nat)
  {
    |usage'| == |usage| && forall q :: 0 <= q < |usage| && !(b <= q < b + m) ==> usage'[q] == usage[q]
  }

  lemma ZonesMappedFrame(c: Config, zs: set<nat>, owner: seq<Owner>, usage: seq<Usage>, usage': seq<Usage>, b: nat, m: nat, o: Owner)
    requires ZonesOwn(c, zs, owner) && ZonesMapped(c, zs, usage) && |usage| == |owner|
    requires Owns(owner, b, m, o) && (forall p :: p in zs ==> o != ZonePage(p)) && UsageBut(usage, usage', b, m)
    ensures ZonesMapped(c, zs, usage')
  {
    forall p | p in zs ensures ZoneMapped(c, p, usage') {
      assert ZoneMapped(c, p, usage) && Owns(owner, p, c.zonePages, ZonePage(p));
      OwnersApart(owner, p, c.zonePages, ZonePage(p), b, m, o);
    }
  }

  lemma LargeMappedFrame(live: seq<Piece>, owner: seq<Owner>, usage: seq<Usage>, usage': seq<Usage>, b: nat, m: nat, o: Owner)
    requires LargeOwn(live, owner) && LargeMapped(live, usage) && |usage| == |owner|
    requires Owns(owner, b, m, o) && (forall x :: x in live && x.Large? ==> o != LargePage(x.page)) && UsageBut(usage, usage', b, m)
    ensures LargeMapped(live, usage')
  {
    forall x | x in live && x.Large? ensures x.page < |usage'| && usage'[x.page] == Usage(TypeLarge, x.n) {
      OwnersApart(owner, x.page, x.n, LargePage(x.page), b, m, o);
    }
  }

  /** Whole pages for a large request. */
  lemma LargeTaken(c: Config, rs: seq<Run>, owner: seq<Owner>, usage: seq<Usage>, zs: set<nat>, live: seq<Piece>, n: nat)
    requires PagesState(c, rs, owner, usage, zs, live) && PageAlloc(rs, n).0.Some?
    ensures var (r, rs') := PageAlloc(rs, n);
            && r.value < |usage| && Large(r.value, n) !in live
            && PagesState(c, rs', Assign(owner, r.value, n, LargePage(r.value)), usage[r.value := Usage(TypeLarge, n)], zs,
                          live + [Large(r.value, n)])
  {
    var (r, rs') := PageAlloc(rs, n);
    var a := r.value;
    PagesTaken(rs, owner, n, LargePage(a));
    assert owner[a] == FreePage;
    var usage' := usage[a := Usage(TypeLarge, n)];
    ZonesOwnFrame(c, zs, owner, a, n, FreePage, LargePage(a));
    LargeOwnFrame(live, owner, a, n, FreePage, LargePage(a));
    ZonesMappedFrame(c, zs, owner, usage, usage', a, n, FreePage);
    LargeMappedFrame(live, owner, usage, usage', a, n, FreePage);
    forall x | x in live && x.Large? ensures x.page != a { assert owner[x.page] == LargePage(x.page); }
  }

  /** A large allocation is freed; its first table entry keeps its type, with size 0. */
  lemma LargeGiven(c: Config, rs: seq<Run>, owner: seq<Owner>, usage: seq<Usage>, zs: set<nat>, live: seq<Piece>, i: nat)
    requires PagesState(c, rs, owner, usage, zs, live) && NoDup(live) && i < |live| && live[i].Large?
    ensures var a, n := live[i].page, live[i].n;
            && a < |usage| && n > 0 && NoneFree(rs, a, n)
            && PagesState(c, PageFree(rs, a, n), Assign(owner, a, n, FreePage), usage[a := Usage(TypeLarge, 0)], zs, Drop(live, i))
  {
    var y := live[i];
    assert y in live;
    var a, n, live' := y.page, y.n, Drop(live, i);
    var usage' := usage[a := Usage(TypeLarge, 0)];
    DropMembers(live, i);
    forall x | x in live' && x.Large? ensures x.page != a { assert x in live; }
    PagesGiven(rs, owner, a, n, LargePage(a));
    ZonesOwnFrame(c, zs, owner, a, n, LargePage(a), FreePage);
    LargeOwnFrame(live', owner, a, n, LargePage(a), FreePage);
    ZonesMappedFrame(c, zs, owner, usage, usage', a, n, LargePage(a));
    LargeMappedFrame(live', owner, usage, usage', a, n, LargePage(a));
  }

  /** Pages for a new zone, entered in the table. */
  lemma ZoneTaken(c: Config, rs: seq<Run>, owner: seq<Owner>, usage: seq<Usage>, usage': seq<Usage>, zs: set<nat>, live: seq<Piece>)
    requires PagesState(c, rs, owner, usage, zs, live) && c.zonePages > 0 && PageAlloc(rs, c.zonePages).0.Some?
    requires var p := PageAlloc(rs, c.zonePages).0.value; UsageBut(usage, usage', p, c.zonePages)
    requires var p := PageAlloc(rs, c.zonePages).0.value; p + c.zonePages <= |usage| ==> ZoneMapped(c, p, usage')
    ensures var (r, rs') := PageAlloc(rs, c.zonePages);
            && r.value + c.zonePages <= |usage| && r.value !in zs
            && PagesState(c, rs', Assign(owner, r.value, c.zonePages, ZonePage(r.value)), usage', zs + {r.value}, live)
  {
    var (r, rs') := PageAlloc(rs, c.zonePages);
    var p, n := r.value, c.zonePages;
    PagesTaken(rs, owner, n, ZonePage(p));
    assert owner[p] == FreePage;
    ZonesOwnFrame(c, zs, owner, p, n, FreePage, ZonePage(p));
    LargeOwnFrame(live, owner, p, n, FreePage, ZonePage(p));
    ZonesMappedFrame(c, zs, owner, usage, usage', p, n, FreePage);
    LargeMappedFrame(live, owner, usage, usage', p, n, FreePage);
    forall q | q in zs ensures q < |owner| && owner[q] == ZonePage(q) { assert Owns(owner, q, n, ZonePage(q)); }
  }

  /** A zone's pages go back to the page list. */
  lemma ZoneGiven(c: Config, rs: seq<Run>, owner: seq<Owner>, usage: seq<Usage>, usage': seq<Usage>, zs: set<nat>, live: seq<Piece>, p: nat)
    requires PagesState(c, rs, owner, usage, zs, live) && c.zonePages > 0 && p in zs && UsageBut(usage, usage', p, c.zonePages)
    ensures NoneFree(rs, p, c.zonePages)
    ensures PagesState(c, PageFree(rs, p, c.zonePages), Assign(owner, p, c.zonePages, FreePage), usage', zs - {p}, live)
  {
    var n := c.zonePages;
    assert Owns(owner, p, n, ZonePage(p));
    PagesGiven(rs, owner, p, n, ZonePage(p));
    ZonesOwnFrame(c, zs - {p}, owner, p, n, ZonePage(p), FreePage);
    LargeOwnFrame(live, owner, p, n, ZonePage(p), FreePage);
    ZonesMappedFrame(c, zs - {p}, owner, usage, usage', p, n, ZonePage(p));
    LargeMappedFrame(live, owner, usage, usage', p, n, ZonePage(p));
  }

  /** Chunks come and go without touching pages. */
  lemma SmallChange(c: Config, rs: seq<Run>, owner: seq<Owner>, usage: seq<Usage>, zs: set<nat>, live: seq<Piece>, live': seq<Piece>)
    requires PagesState(c, rs, owner, usage, zs, live) && forall x :: x in live' && x.Large? ==> x in live
    ensures PagesState(c, rs, owner, usage, zs, live')
  {
  }

  // ----- live allocations -----

  /** Two live allocations share no byte. */
  lemma LiveApart(c: Config, rs: seq<Run>, owner: seq<Owner>, usage: seq<Usage>, zones: map<nat, Zone>, zs: set<nat>,
                  live: seq<Piece>, i: nat, j: nat)
    requires PagesState(c, rs, owner, usage, zs, live) && zones.Keys <= zs && c.zonePages > 0
    requires ZonesOk(c, live, zones) && LiveOk(zones, live) && i < |live| && j < |live| && i != j
    ensures Addr(live[i]) + Size(live[i]) <= Addr(live[j]) || Addr(live[j]) + Size(live[j]) <= Addr(live[i])
  {
    var x, y := live[i], live[j];
    if x.Small? && y.Small? && x.zone == y.zone {
      assert SmallOk(zones, x) && SmallOk(zones, y) && ZoneAt(c, live, x.zone, zones[x.zone]);
      if x.k < y.k { ChunksApart(zones[x.zone], x.k, y.k); } else { ChunksApart(zones[x.zone], y.k, x.k); }
    } else {
      InPages(c, owner, zones, zs, live, x);
      InPages(c, owner, zones, zs, live, y);
      if x.Large? && y.Large? { assert usage[x.page] == Usage(TypeLarge, x.n) && usage[y.page] == Usage(TypeLarge, y.n); }
      OwnersApart(owner, FirstPage(x), PageCount(c, x), PageOwner(x), FirstPage(y), PageCount(c, y), PageOwner(y));
    }
  }

  function FirstPage(x: Piece): nat { if x.Small? then x.zone else x.page }
  function PageCount(c: Config, x: Piece): nat { if x.Small? then c.zonePages else x.n }
  function PageOwner(x: Piece): Owner { if x.Small? then ZonePage(x.zone) else LargePage(x.page) }

  /** A live allocation lies in pages that belong to its zone, behind the zone's header, or to itself. */
  lemma InPages(c: Config, owner: seq<Owner>, zones: map<nat, Zone>, zs: set<nat>, live: seq<Piece>, x: Piece)
    requires ZonesOwn(c, zs, owner) && zones.Keys <= zs && LargeOwn(live, owner) && c.zonePages > 0
    requires ZonesOk(c, live, zones) && LiveOk(zones, live) && x in live
    ensures Owns(owner, FirstPage(x), PageCount(c, x), PageOwner(x)) && PageCount(c, x) > 0
    ensures FirstPage(x) * PAGE + (if x.Small? then c.hdr else 0) <= Addr(x)
    ensures Addr(x) + Size(x) <= (FirstPage(x) + PageCount(c, x)) * PAGE
  {
    if x.Small? {
      assert SmallOk(zones, x) && ZoneAt(c, live, x.zone, zones[x.zone]);
      ChunkInside(c, x.zone, zones[x.zone], x.k);
    }
  }

  /** Chunks of a power of two up to a page are aligned to their size. */
  lemma PowerAligned(c: Config, p: nat, z: Zone, k: nat)
    requires ZoneShape(c, p, z) && IsPower(z.chunk) && z.chunk <= PAGE
    ensures ChunkAt(z, k) % z.chunk == 0
  {
    PowerPage(z.chunk);
    PageMultiple(p, z.chunk);
    OffsetIs(c, z.chunk);
    RoundUpIs(c.hdr, z.chunk);
    AddAligned(p * PAGE, Offset(c, z.chunk), z.chunk);
    TimesIs(k, z.chunk);
    MulMod(k, z.chunk);
    AddAligned(z.base, Times(k, z.chunk), z.chunk);
  }

  lemma PowerPage(n: nat)
    requires IsPower(n) && n <= PAGE
    ensures PAGE % n == 0
  {
    var k: nat :| n == Power(k);
    assert Power(8) == 256;
    assert Power(12) == 16 * Power(8);
    PowerOrder(12, k);
    PowerDivides(12, k);
  }

  lemma PageMultiple(p: nat, n: nat)
    requires n > 0 && PAGE % n == 0
    ensures (p * PAGE) % n == 0
  {
    var m := Multiple(PAGE, n);
    assert p * PAGE == (p * m) * n;
    MulMod(p * m, n);
  }
}
