/** Zones, chunks and the page table of the slab allocator, and what ties them to the live allocations. */
module SlabModel {
  import opened Lists
  import opened Alignment
  import opened AlignedModel
  import opened SlabPages

  const PAGE: nat := 4096
  const NZONES: nat := 72
  const RELEASE_THRESH: nat := 2

  /** Size of the in-band zone header, and pages per zone. */
  datatype Config = Config(hdr: nat, zonePages: nat)

  /** The zone sizes `rt_slab_init` chooses from: 32, 64 or 128 KB. */
  ghost predicate ConfigOk(c: Config)
  {
    0 < c.hdr <= 128 && (c.zonePages == 8 || c.zonePages == 16 || c.zonePages == 32)
  }

  /** `zone_limit`: requests from this size on take whole pages. */
  function ZoneLimit(c: Config): nat
  {
    if c.zonePages * PAGE / 4 > 16384 then 16384 else c.zonePages * PAGE / 4
  }

  lemma ZoneLimitIs(c: Config)
    requires ConfigOk(c)
    ensures ZoneLimit(c) == if c.zonePages == 8 then 8192 else 16384
  {
  }

  // ----- zoneindex -----

  /** The rounding step for a request of `n` bytes, and what is added to the quotient for the index. */
  function Step(n: nat): (nat, int)
  {
    if n < 128 then (8, -1) else if n < 256 then (16, 7) else if n < 512 then (32, 15) else if n < 1024 then (64, 23)
    else if n < 2048 then (128, 31) else if n < 4096 then (256, 39) else if n < 8192 then (512, 47) else (1024, 55)
  }

  /** `zoneindex`: the chunk size a request is rounded to, and the zone index. */
  function ZoneIndex(n: nat): (nat, int)
  {
    if n >= 16384 then (n, 0)
    else
      var chunk := RoundUp(n, Step(n).0);
      (chunk, chunk / Step(n).0 + Step(n).1)
  }

  /** The chunk size of a zone index. */
  function ChunkOf(i: nat): nat
  {
    if i < 16 then 8 * (i + 1) else if i < 24 then 16 * (i - 7) else if i < 32 then 32 * (i - 15)
    else if i < 40 then 64 * (i - 23) else if i < 48 then 128 * (i - 31) else if i < 56 then 256 * (i - 39)
    else if i < 64 then 512 * (i - 47) else 1024 * (i - 55)
  }

  /** A request gets the least chunk of its step that holds it, and the index names that chunk size. */
  lemma ZoneIndexOk(n: nat)
    requires 0 < n < 16384
    ensures var (chunk, i) := ZoneIndex(n);
            && n <= chunk < n + Step(n).0 && chunk % 8 == 0 && chunk % Step(n).0 == 0
            && 0 <= i < NZONES && chunk == ChunkOf(i) && chunk <= 16384
  {
    var s := Step(n).0;
    RoundUpIs(n, s);
  }

  /** From 16 KiB on there is no rounding. */
  lemma ZoneIndexLarge(n: nat)
    requires n >= 16384
    ensures ZoneIndex(n) == (n, 0)
  {
  }

  /** Chunk sizes are rounded to themselves, so rounding twice is rounding once. */
  lemma ZoneIndexTwice(n: nat)
    requires 0 < n < 16384 && ZoneIndex(n).0 < 16384
    ensures ZoneIndex(ZoneIndex(n).0) == ZoneIndex(n)
  {
    ZoneIndexOk(n);
    ZoneIndexOk(ZoneIndex(n).0);
    RoundUpIs(n, Step(n).0);
  }

  // ----- a new zone -----

  /** Where the first chunk of `chunk` bytes lies in a zone, as `rt_slab_alloc` computes it. */
  function Offset(c: Config, chunk: nat): nat
    requires chunk > 0
  {
    if Or(chunk, chunk - 1) + 1 == 2 * chunk then Up(c.hdr, chunk) else Up(c.hdr, 8)
  }

  /** Behind the header, aligned to the chunk when that is a power of two and to 8 otherwise. */
  lemma OffsetIs(c: Config, chunk: nat)
    requires chunk > 0
    ensures Offset(c, chunk) == if IsPower(chunk) then RoundUp(c.hdr, chunk) else RoundUp(c.hdr, 8)
    ensures c.hdr <= Offset(c, chunk) < c.hdr + if IsPower(chunk) then chunk else 8
  {
    PowerTest(chunk);
    RoundUpIs(c.hdr, 8);
    if IsPower(chunk) {
      var k: nat :| chunk == Power(k);
      UpIs(c.hdr, k);
      RoundUpIs(c.hdr, chunk);
    } else {
      assert Power(3) == 8;
      UpIs(c.hdr, 3);
    }
  }

  function MaxChunks(c: Config, chunk: nat): nat
    requires chunk > 0
  {
    if c.zonePages * PAGE < Offset(c, chunk) then 0
    else
      DivBounds(c.zonePages * PAGE - Offset(c, chunk), chunk, 0);
      (c.zonePages * PAGE - Offset(c, chunk)) / chunk
  }

  lemma RoomFor(c: Config, chunk: nat)
    requires ConfigOk(c) && 0 < chunk <= c.zonePages * PAGE / 4
    ensures c.hdr <= Offset(c, chunk) && Offset(c, chunk) + 3 * chunk <= c.zonePages * PAGE
  {
    OffsetIs(c, chunk);
    if IsPower(chunk) && c.hdr <= chunk {
      OneMultiple(c.hdr, chunk);
    }
  }

  /** A zone for a slab-managed request has room for at least three chunks behind its header. */
  lemma MaxChunksOk(c: Config, n: nat)
    requires ConfigOk(c) && 0 < n < ZoneLimit(c)
    ensures var chunk := ZoneIndex(n).0;
            && chunk > 0 && c.hdr <= Offset(c, chunk) && MaxChunks(c, chunk) >= 3
            && Offset(c, chunk) + Times(MaxChunks(c, chunk), chunk) <= c.zonePages * PAGE
  {
    ZoneIndexOk(n);
    ZoneLimitIs(c);
    RoomFor(c, ZoneIndex(n).0);
    MaxChunksFit(c, ZoneIndex(n).0);
  }

  lemma MaxChunksFit(c: Config, chunk: nat)
    requires chunk > 0 && Offset(c, chunk) + 3 * chunk <= c.zonePages * PAGE
    ensures MaxChunks(c, chunk) >= 3 && Offset(c, chunk) + Times(MaxChunks(c, chunk), chunk) <= c.zonePages * PAGE
  {
    Divided(c.zonePages * PAGE, Offset(c, chunk), chunk);
  }

  lemma Divided(zone: nat, off: nat, chunk: nat)
    requires chunk > 0 && off + 3 * chunk <= zone
    ensures (zone - off) / chunk >= 3 && off + Times((zone - off) / chunk, chunk) <= zone
  {
    DivBounds(zone - off, chunk, 3);
    TimesIs((zone - off) / chunk, chunk);
  }

  /** `k` times `n`. */
  function Times(k: nat, n: nat): nat
  {
    if k == 0 then 0 else n + Times(k - 1, n)
  }

  lemma {:induction false} TimesIs(k: nat, n: nat)
    ensures Times(k, n) == k * n
  {
    if k > 0 { TimesIs(k - 1, n); }
  }

  lemma {:induction false} TimesApart(k: nat, l: nat, n: nat)
    requires k < l
    ensures Times(k, n) + n <= Times(l, n)
  {
    if k < l - 1 { TimesApart(k, l - 1, n); }
  }

  lemma OneMultiple(n: nat, a: nat)
    requires 0 < n <= a
    ensures RoundUp(n, a) == a
  {
    if n == a { assert n % a == 0; } else { assert n % a == n; }
  }

  lemma DivBounds(x: nat, d: nat, k: nat)
    requires d > 0 && x >= k * d
    ensures x / d >= k && (x / d) * d <= x
  {
    var t := x / d + 1 - k;
    assert t * d == (x / d + 1) * d - k * d;
    assert (x / d + 1) * d > x;
    FarFromZero(t, d);
  }

  /** The pages of a large request. */
  function PagesFor(size: nat): nat
  {
    RoundUp(size, PAGE) / PAGE
  }

  lemma PagesForOk(size: nat)
    ensures (PagesFor(size) - 1) * PAGE < size <= PagesFor(size) * PAGE
    ensures forall k: nat :: k < PagesFor(size) <==> k * PAGE < size
  {
    RoundUpIs(size, PAGE);
  }

  // ----- zones and chunks -----

  /** The fields of `struct rt_slab_zone`; `free` is its free chunk list, as addresses. */
  datatype Zone = Zone(nfree: int, nmax: nat, base: nat, uindex: nat, chunk: nat, index: nat, free: seq<nat>)

  function ChunkAt(z: Zone, k: nat): nat
  {
    z.base + Times(k, z.chunk)
  }

  /** A live allocation: chunk `k` of the zone at page `zone`, or `n` pages from `page` on. */
  datatype Piece = Small(zone: nat, k: nat, at: nat, size: nat) | Large(page: nat, n: nat)

  function Addr(x: Piece): nat { if x.Small? then x.at else x.page * PAGE }

  /** The bytes an allocation is charged with. */
  function Size(x: Piece): nat { if x.Small? then x.size else x.n * PAGE }

  function PieceAt(p: nat, z: Zone, k: nat): Piece
  {
    Small(p, k, ChunkAt(z, k), z.chunk)
  }

  /** `used`: the bytes of all live allocations. */
  function Charge(live: seq<Piece>): nat
  {
    if live == [] then 0 else Size(live[0]) + Charge(live[1..])
  }

  /** How many live chunks the zone at page `p` has. */
  function Count(live: seq<Piece>, p: nat): nat
  {
    if live == [] then 0 else (if live[0].Small? && live[0].zone == p then 1 else 0) + Count(live[1..], p)
  }

  /** Chunks fill the zone behind its header, and the index names their size. */
  ghost predicate ZoneShape(c: Config, p: nat, z: Zone)
  {
    && z.chunk > 0 && z.index < NZONES && z.chunk == ChunkOf(z.index) && z.uindex < z.nmax
    && c.hdr <= Offset(c, z.chunk) && z.base == p * PAGE + Offset(c, z.chunk) && ChunkAt(z, z.nmax) <= (p + c.zonePages) * PAGE
  }

  /** A chunk that has been handed out before and is not live. */
  ghost predicate IsFreeChunk(live: seq<Piece>, p: nat, z: Zone, a: nat)
  {
    exists k :: 0 <= k <= z.uindex && a == ChunkAt(z, k) && PieceAt(p, z, k) !in live
  }

  ghost predicate ZoneAt(c: Config, live: seq<Piece>, p: nat, z: Zone)
  {
    && ZoneShape(c, p, z)
    && NoDup(z.free) && (forall a :: a in z.free <==> IsFreeChunk(live, p, z, a))
    && z.nfree == |z.free| + (z.nmax - 1 - z.uindex)
    && Count(live, p) == z.nmax - z.nfree
  }

  ghost predicate ZonesOk(c: Config, live: seq<Piece>, zones: map<nat, Zone>)
  {
    forall p :: p in zones ==> ZoneAt(c, live, p, zones[p])
  }

  ghost predicate SmallOk(zones: map<nat, Zone>, x: Piece)
  {
    x.Small? ==> x.zone in zones && x.k <= zones[x.zone].uindex && x == PieceAt(x.zone, zones[x.zone], x.k)
  }

  ghost predicate LiveOk(zones: map<nat, Zone>, live: seq<Piece>)
  {
    NoDup(live) && forall x :: x in live ==> SmallOk(zones, x)
  }

  // ----- pages -----

  /** Who has a page. */
  datatype Owner = FreePage | TablePage | ZonePage(zone: nat) | LargePage(page: nat)

  function Assign(owner: seq<Owner>, a: nat, n: nat, o: Owner): (r: seq<Owner>)
    ensures |r| == |owner| && forall q :: 0 <= q < |r| ==> r[q] == if a <= q < a + n then o else owner[q]
  {
    seq(|owner|, q requires 0 <= q < |owner| => if a <= q < a + n then o else owner[q])
  }

  /** The `n` pages from `a` on belong to `o`. */
  ghost predicate Owns(owner: seq<Owner>, a: nat, n: nat, o: Owner)
  {
    a + n <= |owner| && forall q :: a <= q < a + n ==> owner[q] == o
  }

  /** The page list holds exactly the free pages. */
  ghost predicate PagesOk(rs: seq<Run>, owner: seq<Owner>)
  {
    Canonical(rs) && forall q: nat :: Covers(rs, q) <==> q < |owner| && owner[q] == FreePage
  }

  ghost predicate ZonesOwn(c: Config, ps: set<nat>, owner: seq<Owner>)
  {
    forall p :: p in ps ==> Owns(owner, p, c.zonePages, ZonePage(p))
  }

  ghost predicate LargeOwn(live: seq<Piece>, owner: seq<Owner>)
  {
    forall x :: x in live && x.Large? ==> x.n > 0 && Owns(owner, x.page, x.n, LargePage(x.page))
  }

  /** `struct rt_slab_memusage`. */
  datatype PageType = TypeFree | TypeSmall | TypeLarge
  datatype Usage = Usage(kind: PageType, size: nat)

  /** Every page of the zone at `p` says how far it is from the zone's start. */
  ghost predicate ZoneMapped(c: Config, p: nat, usage: seq<Usage>)
  {
    p + c.zonePages <= |usage| && forall q :: p <= q < p + c.zonePages ==> usage[q] == Usage(TypeSmall, q - p)
  }

  ghost predicate ZonesMapped(c: Config, ps: set<nat>, usage: seq<Usage>)
  {
    forall p :: p in ps ==> ZoneMapped(c, p, usage)
  }

  ghost predicate LargeMapped(live: seq<Piece>, usage: seq<Usage>)
  {
    forall x :: x in live && x.Large? ==> x.page < |usage| && usage[x.page] == Usage(TypeLarge, x.n)
  }

  // ----- zone lists -----

  /** `zone_array[i]` holds exactly the zones of index `i` with free chunks. */
  ghost predicate ArrayOk(zones: map<nat, Zone>, lists: seq<seq<nat>>)
  {
    && |lists| == NZONES
    && (forall i :: 0 <= i < NZONES ==> NoDup(lists[i]))
    && (forall i, p :: 0 <= i < NZONES ==> (p in lists[i] <==> p in zones && zones[p].index == i && zones[p].nfree > 0))
  }

  /** What a request of `size` bytes is charged. */
  function Rounded(c: Config, size: nat): nat
  {
    if size >= ZoneLimit(c) then PagesFor(size) * PAGE else ZoneIndex(size).0
  }

  /** The request fits the chunk it already has. */
  predicate SameChunk(x: Piece, size: nat)
  {
    x.Small? && x.size == ZoneIndex(size).0
  }

  /** A request is charged at least what it asked for, also when it was rounded to a chunk before. */
  lemma RoundedOk(c: Config, size: nat)
    requires ConfigOk(c) && size > 0
    ensures size <= ZoneIndex(size).0 && size <= Rounded(c, size) && ZoneIndex(size).0 <= Rounded(c, ZoneIndex(size).0)
  {
    PagesForOk(size);
    if size < 16384 { ZoneIndexOk(size); }
    var chunk := ZoneIndex(size).0;
    PagesForOk(chunk);
    if chunk < 16384 { ZoneIndexOk(chunk); }
  }

  /** Nothing is left for a request: no run of enough pages, and for a chunk also no listed zone
      and no zone kept back. */
  ghost predicate Exhausted(c: Config, rs: seq<Run>, lists: seq<seq<nat>>, zoneFree: seq<nat>, size: nat)
  {
    if size >= ZoneLimit(c) then forall i :: 0 <= i < |rs| ==> rs[i].len * PAGE < size
    else
      && (0 <= ZoneIndex(size).1 < |lists| ==> lists[ZoneIndex(size).1] == []) && zoneFree == []
      && forall i :: 0 <= i < |rs| ==> rs[i].len < c.zonePages
  }

  // ----- lists of live allocations -----

  lemma {:induction false} CountConcat(a: seq<Piece>, b: seq<Piece>, p: nat)
    ensures Count(a + b, p) == Count(a, p) + Count(b, p)
  {
    if a == [] { assert a + b == b; } else { assert (a + b)[1..] == a[1..] + b; CountConcat(a[1..], b, p); }
  }

  lemma {:induction false} ChargeConcat(a: seq<Piece>, b: seq<Piece>)
    ensures Charge(a + b) == Charge(a) + Charge(b)
  {
    if a == [] { assert a + b == b; } else { assert (a + b)[1..] == a[1..] + b; ChargeConcat(a[1..], b); }
  }

  lemma {:induction false} CountZero(live: seq<Piece>, p: nat, x: Piece)
    requires x in live && x.Small? && x.zone == p
    ensures Count(live, p) > 0
  {
    if live[0] != x { CountZero(live[1..], p, x); }
  }

  /** The list without its `i`-th allocation. */
  function Drop(live: seq<Piece>, i: nat): seq<Piece>
    requires i < |live|
  {
    live[..i] + live[i + 1..]
  }

  lemma DropIs(live: seq<Piece>, i: nat, p: nat)
    requires i < |live| && NoDup(live)
    ensures NoDup(Drop(live, i)) && forall x :: x in Drop(live, i) <==> x in live && x != live[i]
    ensures Charge(live) == Charge(Drop(live, i)) + Size(live[i])
    ensures Count(live, p) == Count(Drop(live, i), p) + if live[i].Small? && live[i].zone == p then 1 else 0
  {
    var a, y, b := live[..i], live[i], live[i + 1..];
    assert live == a + ([y] + b);
    CountConcat(a, [y] + b, p); CountConcat([y], b, p); CountConcat(a, b, p);
    ChargeConcat(a, [y] + b); ChargeConcat([y], b); ChargeConcat(a, b);
    DropMembers(live, i);
  }

  lemma DropMembers(live: seq<Piece>, i: nat)
    requires i < |live| && NoDup(live)
    ensures NoDup(Drop(live, i)) && forall x :: x in Drop(live, i) <==> x in live && x != live[i]
  {
    var d := Drop(live, i);
    assert forall k :: 0 <= k < |d| ==> d[k] == live[if k < i then k else k + 1];
    forall x ensures x in d <==> x in live && x != live[i] {
      if x in live && x != live[i] {
        var k :| 0 <= k < |live| && live[k] == x;
        assert d[if k < i then k else k - 1] == x;
      }
    }
  }

  lemma AddIs(live: seq<Piece>, x: Piece, p: nat)
    requires NoDup(live) && x !in live
    ensures NoDup(live + [x]) && forall y :: y in live + [x] <==> y in live || y == x
    ensures Charge(live + [x]) == Charge(live) + Size(x)
    ensures Count(live + [x], p) == Count(live, p) + if x.Small? && x.zone == p then 1 else 0
  {
    NoDupSnoc(live, x);
    CountConcat(live, [x], p);
    ChargeConcat(live, [x]);
  }
}
