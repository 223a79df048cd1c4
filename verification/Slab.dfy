/**
 The slab allocator (rt-thread/src/slab.c): large requests take runs of pages, small ones a chunk of
 a zone. Zones with room are listed by size class, and a table says of each page what it belongs to.
 Addresses count from the start of the heap, except where alignment in memory is the point.
 */
module Slab {
  import opened Basics
  import opened Bits
  import opened ReadyLists
  import opened SizeClasses
  import opened SlabPages

  // ------------------------------------------------------------------ data

  /** Page size, pages of a zone, the size from which requests are large, the size of a zone header, values of
      `rt_size_t`, and where in memory the heap starts. */
  datatype Config = Config(page: nat, zonePages: nat, limit: nat, header: nat, word: nat, start: nat)

  predicate Good(c: Config) {
    && c.page > 0 && c.zonePages > 0 && 0 < c.header <= 1024 && (c.limit == 8192 || c.limit == 16384)
    && 4 * c.limit <= ZoneSize(c) && c.page <= c.word && c.start % c.page == 0
  }

  function ZoneSize(c: Config): nat {
    c.zonePages * c.page
  }

  datatype Kind = FreePage | SmallPage | LargePage

  datatype Usage = Usage(kind: Kind, size: nat)

  /** The header of a zone; `free` holds the addresses on its list of free chunks. */
  datatype Zone = Zone(nfree: nat, nmax: nat, base: nat, uindex: nat, chunk: nat, index: nat, free: seq<nat>)

  /** `arrays` are the lists of zones with room, by class; `spare` the zones that are wholly free and in no class. */
  datatype State = State(pages: seq<Pages>, usage: seq<Usage>, zones: map<nat, Zone>, arrays: seq<seq<nat>>,
                         spare: seq<nat>, used: int, max: int)

  // ------------------------------------------------------------------ what is allocated

  /** A live allocation: chunk `i` of the zone at page `z`, or `n` pages from page `at` on. */
  datatype Alloc = Chunk(z: nat, i: nat, size: nat) | Large(at: nat, n: nat)

  /** What a page is for. */
  datatype Owner = Nobody | Table | InZone(z: nat) | InRun(at: nat)

  /** The live allocations, and what each page is for. */
  datatype Book = Book(live: seq<Alloc>, big: map<nat, nat>, owner: seq<Owner>)

  function ChunkAt(z: Zone, i: nat): nat {
    z.base + i * z.chunk
  }

  function Size(c: Config, a: Alloc): nat {
    if a.Chunk? then a.size else a.n * c.page
  }

  function Total(c: Config, live: seq<Alloc>): nat {
    if live == [] then 0 else Size(c, live[0]) + Total(c, live[1..])
  }

  // ------------------------------------------------------------------ the invariant

  ghost predicate IsChunk(z: Zone, a: nat) {
    exists i: nat :: i <= z.uindex && a == ChunkAt(z, i)
  }

  /** A zone lies in its pages; chunks up to `uindex` have been handed out at least once, and those on the list are
      free again. */
  ghost predicate ZoneOk(c: Config, zp: nat, z: Zone) {
    && z.index < NZONES && z.chunk == ChunkSize(z.index) && z.chunk > 0
    && z.base == zp * c.page + Offset(c, z.chunk) && c.header <= Offset(c, z.chunk)
    && ChunkAt(z, z.nmax) <= (zp + c.zonePages) * c.page
    && 2 <= z.nmax && z.uindex < z.nmax && z.nfree + z.uindex + 1 == z.nmax + |z.free|
    && Distinct(z.free) && forall a :: a in z.free ==> IsChunk(z, a)
  }

  ghost predicate ZonePages(c: Config, usage: seq<Usage>, owner: seq<Owner>, z: nat)
    requires |usage| == |owner|
  {
    z + c.zonePages <= |owner| && forall p :: z <= p < z + c.zonePages ==>
        owner[p] == InZone(z) && usage[p] == Usage(SmallPage, p - z)
  }

  ghost predicate RunPages(usage: seq<Usage>, owner: seq<Owner>, at: nat, n: nat)
    requires |usage| == |owner|
  {
    n > 0 && at + n <= |owner| && usage[at] == Usage(LargePage, n) && forall p :: at <= p < at + n ==>
        owner[p] == InRun(at)
  }

  /** Each page is free, in the table, in one zone or in one run, and the page table finds zones and runs. */
  ghost predicate Paged(c: Config, s: State, g: Book) {
    && |s.usage| == |g.owner| && Tidy(s.pages, |g.owner|)
    && (forall p :: 0 <= p < |g.owner| ==> (g.owner[p] == Nobody <==> Has(s.pages, p)))
    && (forall z :: z in s.zones ==> ZonePages(c, s.usage, g.owner, z))
    && (forall a :: a in g.big ==> RunPages(s.usage, g.owner, a, g.big[a]))
    && (forall p :: 0 <= p < |g.owner| && g.owner[p].InZone? ==>
        g.owner[p].z in s.zones && g.owner[p].z <= p < g.owner[p].z + c.zonePages)
    && (forall p :: 0 <= p < |g.owner| && g.owner[p].InRun? ==>
        g.owner[p].at in g.big && g.owner[p].at <= p < g.owner[p].at + g.big[g.owner[p].at])
  }

  /** The table keeps its pages, and no other page is the table's. */
  ghost predicate Tabled(owner: seq<Owner>, table: nat) {
    table <= |owner| && forall p :: 0 <= p < |owner| ==> (owner[p] == Table <==> p < table)
  }

  ghost predicate Zoned(c: Config, zones: map<nat, Zone>) {
    forall z :: z in zones ==> ZoneOk(c, z, zones[z])
  }

  ghost predicate Whole(zones: map<nat, Zone>, z: nat) {
    z in zones && zones[z].nfree == zones[z].nmax
  }

  /** A class lists its zones with room, except those set aside. */
  ghost predicate Listed(zones: map<nat, Zone>, arrays: seq<seq<nat>>, spare: seq<nat>) {
    && |arrays| == NZONES && (forall q :: 0 <= q < NZONES ==> Distinct(arrays[q]))
    && (forall q, z {:trigger z in arrays[q]} :: 0 <= q < NZONES && z in arrays[q] ==>
        z in zones && zones[z].index == q && zones[z].nfree > 0 && z !in spare)
    && (forall z :: z in zones && zones[z].nfree > 0 && z !in spare ==>
        zones[z].index < NZONES && z in arrays[zones[z].index])
    && Distinct(spare) && (forall z :: z in spare ==> Whole(zones, z))
  }

  /** At most one wholly free zone stays in a class, and at most two are set aside. */
  ghost predicate Lean(zones: map<nat, Zone>, arrays: seq<seq<nat>>, spare: seq<nat>) {
    && |arrays| == NZONES && |spare| <= 2
    && forall q, a, b {:trigger a in arrays[q], b in arrays[q]} ::
         0 <= q < NZONES && a in arrays[q] && b in arrays[q] && Whole(zones, a) && Whole(zones, b) ==> a == b
  }

  ghost predicate LiveAt(zones: map<nat, Zone>, big: map<nat, nat>, a: Alloc) {
    match a
    case Chunk(z, i, size) => z in zones && i <= zones[z].uindex && size == zones[z].chunk &&
        ChunkAt(zones[z], i) !in zones[z].free
    case Large(at, n) => at in big && big[at] == n
  }

  ghost predicate Alive(zones: map<nat, Zone>, g: Book) {
    && (forall j :: 0 <= j < |g.live| ==> LiveAt(zones, g.big, g.live[j]))
    && (forall j, k :: 0 <= j < k < |g.live| ==> g.live[j] != g.live[k])
  }

  ghost predicate Fine(c: Config, s: State, g: Book) {
    && Paged(c, s, g) && Zoned(c, s.zones) && Listed(s.zones, s.arrays, s.spare) && Lean(s.zones, s.arrays, s.spare)
    && Alive(s.zones, g) && s.used == Total(c, g.live)
  }

  // ------------------------------------------------------------------ what the invariant gives

  function Address(c: Config, zones: map<nat, Zone>, a: Alloc): nat
    requires a.Chunk? ==> a.z in zones
  {
    if a.Chunk? then ChunkAt(zones[a.z], a.i) else a.at * c.page
  }

  lemma Scaled(a: nat, b: nat, d: nat)
    requires a <= b
    ensures a * d <= b * d
  {
    assert b * d == a * d + (b - a) * d;
  }

  lemma ChunksApart(z: Zone, i: nat, j: nat)
    requires i < j
    ensures ChunkAt(z, i) + z.chunk <= ChunkAt(z, j)
  {
    Scaled(i + 1, j, z.chunk);
    assert (i + 1) * z.chunk == i * z.chunk + z.chunk;
  }

  /** The first page of an allocation, and the pages it may lie in. */
  function FirstPage(a: Alloc): nat {
    if a.Chunk? then a.z else a.at
  }

  function PageCount(c: Config, a: Alloc): nat {
    if a.Chunk? then c.zonePages else a.n
  }

  lemma Inside(c: Config, zones: map<nat, Zone>, big: map<nat, nat>, a: Alloc)
    requires Zoned(c, zones) && LiveAt(zones, big, a)
    ensures a.Chunk? ==> a.z in zones
    ensures var f := FirstPage(a);
            && f * c.page <= Address(c, zones, a)
            && Address(c, zones, a) + Size(c, a) <= (f + PageCount(c, a)) * c.page
    ensures a.Chunk? ==> a.z * c.page + c.header <= Address(c, zones, a) && Size(c, a) > 0
  {
    if a.Chunk? {
      ChunkInside(c, a.z, zones[a.z], a.i);
    } else {
      Distribute(a.at, a.n, c.page);
    }
  }

  lemma Distribute(a: nat, b: nat, d: nat)
    ensures a * d + b * d == (a + b) * d
  {
  }

  lemma ChunkInside(c: Config, zp: nat, z: Zone, i: nat)
    requires ZoneOk(c, zp, z) && i <= z.uindex
    ensures zp * c.page + c.header <= ChunkAt(z, i) && ChunkAt(z, i) + z.chunk <= (zp + c.zonePages) * c.page
    ensures z.chunk > 0
  {
    ChunksApart(z, i, z.nmax);
    FirstChunk(z, i);
    hide ChunkAt;
  }

  lemma FirstChunk(z: Zone, i: nat)
    ensures z.base <= ChunkAt(z, i)
  {
  }

  /** Two live allocations share no byte. */
  lemma NoOverlap(c: Config, s: State, g: Book, j: nat, k: nat)
    requires Good(c) && Fine(c, s, g) && j < k < |g.live|
    ensures var a, b := g.live[j], g.live[k];
            && (a.Chunk? ==> a.z in s.zones) && (b.Chunk? ==> b.z in s.zones)
            && (Address(c, s.zones, a) + Size(c, a) <= Address(c, s.zones, b)
                || Address(c, s.zones, b) + Size(c, b) <= Address(c, s.zones, a))
  {
    hide Paged, Zoned, Listed, Lean, Total, Address, Size, LiveAt;
    var a, b := g.live[j], g.live[k];
    assert LiveAt(s.zones, g.big, a) && LiveAt(s.zones, g.big, b) && a != b;
    Inside(c, s.zones, g.big, a);
    Inside(c, s.zones, g.big, b);
    if a.Chunk? && b.Chunk? && a.z == b.z {
      ZoneMates(c, s.zones, g.big, a, b);
    } else {
      PagesApart(c, s, g, a, b);
      hide *;
      if FirstPage(a) + PageCount(c, a) <= FirstPage(b) {
        Scaled(FirstPage(a) + PageCount(c, a), FirstPage(b), c.page);
      } else {
        Scaled(FirstPage(b) + PageCount(c, b), FirstPage(a), c.page);
      }
    }
  }

  lemma ZoneMates(c: Config, zones: map<nat, Zone>, big: map<nat, nat>, a: Alloc, b: Alloc)
    requires LiveAt(zones, big, a) && LiveAt(zones, big, b) && a.Chunk? && b.Chunk? && a.z == b.z && a != b
    ensures Address(c, zones, a) + Size(c, a) <= Address(c, zones, b)
         || Address(c, zones, b) + Size(c, b) <= Address(c, zones, a)
  {
    if a.i < b.i { ChunksApart(zones[a.z], a.i, b.i); } else { ChunksApart(zones[a.z], b.i, a.i); }
    hide ChunkAt;
  }

  // ------------------------------------------------------------------ bytes

  /** No live allocation has a byte between `lo` and `hi`. */
  ghost predicate Clear(c: Config, zones: map<nat, Zone>, live: seq<Alloc>, lo: nat, hi: nat) {
    forall j :: 0 <= j < |live| ==> ClearOf(c, zones, live[j], lo, hi)
  }

  ghost predicate ClearOf(c: Config, zones: map<nat, Zone>, a: Alloc, lo: nat, hi: nat) {
    && (a.Chunk? ==> a.z in zones)
    && (Address(c, zones, a) + Size(c, a) <= lo || hi <= Address(c, zones, a))
  }

  /** The bytes of an allocation are the same in both memories. */
  ghost predicate SameBytes(c: Config, zones: map<nat, Zone>, a: Alloc, before: seq<Byte>, after: seq<Byte>) {
    && (a.Chunk? ==> a.z in zones) && |before| == |after|
    && var x := Address(c, zones, a);
       x + Size(c, a) <= |after| && after[x..x + Size(c, a)] == before[x..x + Size(c, a)]
  }

  ghost predicate Kept(c: Config, zones: map<nat, Zone>, live: seq<Alloc>, before: seq<Byte>, after: seq<Byte>) {
    |before| == |after| && forall j :: 0 <= j < |live| ==> SameBytes(c, zones, live[j], before, after)
  }

  /** All live allocations lie in memory. */
  ghost predicate InMemory(c: Config, zones: map<nat, Zone>, live: seq<Alloc>, n: nat) {
    forall j :: 0 <= j < |live| ==>
      (live[j].Chunk? ==> live[j].z in zones) && Address(c, zones, live[j]) + Size(c, live[j]) <= n
  }

  /** Where a page begins. */
  function PageAt(c: Config, p: nat): nat {
    p * c.page
  }

  /** The memory is that of the pages. */
  predicate Backed(c: Config, bytes: seq<Byte>, owner: seq<Owner>) {
    |bytes| == PageAt(c, |owner|)
  }

  lemma BackedIs(c: Config, bytes: seq<Byte>, owner: seq<Owner>)
    requires Backed(c, bytes, owner)
    ensures |bytes| == PageAt(c, |owner|) == |owner| * c.page
  {
  }

  lemma BackedStill(c: Config, bytes: seq<Byte>, owner: seq<Owner>, bytes': seq<Byte>, owner': seq<Owner>)
    requires Backed(c, bytes, owner) && |bytes'| == |bytes| && |owner'| == |owner|
    ensures Backed(c, bytes', owner')
  {
  }

  lemma LiveInMemory(c: Config, s: State, g: Book)
    requires Paged(c, s, g) && Zoned(c, s.zones) && Alive(s.zones, g)
    ensures InMemory(c, s.zones, g.live, PageAt(c, |g.owner|))
  {
    hide Paged, Zoned, LiveAt, Address, Size;
    forall j | 0 <= j < |g.live|
      ensures g.live[j].Chunk? ==> g.live[j].z in s.zones
      ensures Address(c, s.zones, g.live[j]) + Size(c, g.live[j]) <= PageAt(c, |g.owner|)
    {
      var a := g.live[j];
      Inside(c, s.zones, g.big, a);
      OwnsPages(c, s, g, a);
      Scaled(FirstPage(a) + PageCount(c, a), |g.owner|, c.page);
    }
  }

  lemma KeptSame(c: Config, zones: map<nat, Zone>, live: seq<Alloc>, bytes: seq<Byte>)
    requires InMemory(c, zones, live, |bytes|)
    ensures Kept(c, zones, live, bytes, bytes)
  {
    hide Address, Size;
  }

  lemma KeptTwice(c: Config, zones: map<nat, Zone>, live: seq<Alloc>, a: seq<Byte>, b: seq<Byte>, d: seq<Byte>)
    requires Kept(c, zones, live, a, b) && Kept(c, zones, live, b, d)
    ensures Kept(c, zones, live, a, d)
  {
    hide Address, Size;
    forall j | 0 <= j < |live| ensures SameBytes(c, zones, live[j], a, d) {
      assert SameBytes(c, zones, live[j], a, b) && SameBytes(c, zones, live[j], b, d);
    }
  }

  lemma KeptFewer(c: Config, zones: map<nat, Zone>, live: seq<Alloc>, fewer: seq<Alloc>, a: seq<Byte>, b: seq<Byte>)
    requires Kept(c, zones, live, a, b) && forall k :: 0 <= k < |fewer| ==> fewer[k] in live
    ensures Kept(c, zones, fewer, a, b)
  {
    hide Address, Size, SameBytes;
  }

  /** The same with the zones of another time, if the allocations have stayed where they were. */
  lemma KeptMoved(c: Config, zones: map<nat, Zone>, zones': map<nat, Zone>, live: seq<Alloc>,
                  a: seq<Byte>, b: seq<Byte>)
    requires Kept(c, zones, live, a, b) && StayPut(c, zones, zones', live)
    ensures Kept(c, zones', live, a, b)
  {
    hide ChunkAt, Size;
    forall j | 0 <= j < |live| ensures SameBytes(c, zones', live[j], a, b) {
      assert SameBytes(c, zones, live[j], a, b);
    }
  }

  /** Bytes written where nothing is live. */
  lemma WrittenClear(c: Config, zones: map<nat, Zone>, live: seq<Alloc>, lo: nat, hi: nat, a: seq<Byte>, b: seq<Byte>)
    requires |a| == |b| && lo <= hi <= |a| && a[..lo] == b[..lo] && a[hi..] == b[hi..]
    requires Clear(c, zones, live, lo, hi) && InMemory(c, zones, live, |a|)
    ensures Kept(c, zones, live, a, b)
  {
    hide Address, Size;
    forall j | 0 <= j < |live| ensures SameBytes(c, zones, live[j], a, b) {
      assert ClearOf(c, zones, live[j], lo, hi);
      var x, n := Address(c, zones, live[j]), Size(c, live[j]);
      SlicesAgree(a, b, lo, hi, x, n);
    }
  }

  lemma SlicesAgree(a: seq<Byte>, b: seq<Byte>, lo: nat, hi: nat, x: nat, n: nat)
    requires |a| == |b| && lo <= hi <= |a| && a[..lo] == b[..lo] && a[hi..] == b[hi..]
    requires x + n <= |a| && (x + n <= lo || hi <= x)
    ensures a[x..x + n] == b[x..x + n]
  {
    forall i | x <= i < x + n ensures a[i] == b[i] {
      assert if x + n <= lo then a[i] == a[..lo][i] && b[i] == b[..lo][i]
             else a[i] == a[hi..][i - hi] && b[i] == b[hi..][i - hi];
    }
  }

  /** A page that is free or the table's. */
  lemma PageClear(c: Config, s: State, g: Book, p: nat)
    requires Paged(c, s, g) && Zoned(c, s.zones) && Alive(s.zones, g)
    requires p < |g.owner| && (g.owner[p] == Nobody || g.owner[p] == Table)
    ensures Clear(c, s.zones, g.live, PageAt(c, p), PageAt(c, p + 1))
    ensures PageAt(c, p) <= PageAt(c, p + 1) <= PageAt(c, |g.owner|)
  {
    Scaled(p + 1, |g.owner|, c.page);
    Scaled(p, p + 1, c.page);
    hide Paged, Zoned, LiveAt, Address, Size;
    forall j | 0 <= j < |g.live| ensures ClearOf(c, s.zones, g.live[j], PageAt(c, p), PageAt(c, p + 1)) {
      var a := g.live[j];
      Inside(c, s.zones, g.big, a);
      OwnsPages(c, s, g, a);
      if p < FirstPage(a) {
        Scaled(p + 1, FirstPage(a), c.page);
      } else {
        Scaled(FirstPage(a) + PageCount(c, a), p, c.page);
      }
    }
  }

  /** The header of a zone. */
  lemma HeaderClear(c: Config, s: State, g: Book, zp: nat)
    requires Good(c) && Paged(c, s, g) && Zoned(c, s.zones) && Alive(s.zones, g) && zp in s.zones
    ensures Clear(c, s.zones, g.live, PageAt(c, zp), PageAt(c, zp) + c.header)
    ensures PageAt(c, zp) + c.header <= PageAt(c, |g.owner|)
  {
    ZoneFits(c, s, g, zp);
    hide Paged, Zoned, LiveAt, Address, Size;
    forall j | 0 <= j < |g.live| ensures ClearOf(c, s.zones, g.live[j], PageAt(c, zp), PageAt(c, zp) + c.header) {
      var a := g.live[j];
      Inside(c, s.zones, g.big, a);
      if !(a.Chunk? && a.z == zp) {
        ZoneApart(c, s, g, a, zp);
        hide PageAt;
      }
    }
  }

  lemma ZoneApart(c: Config, s: State, g: Book, a: Alloc, zp: nat)
    requires Good(c) && Paged(c, s, g) && Zoned(c, s.zones) && LiveAt(s.zones, g.big, a) && zp in s.zones
    requires !(a.Chunk? && a.z == zp)
    ensures a.Chunk? ==> a.z in s.zones
    ensures Address(c, s.zones, a) + Size(c, a) <= PageAt(c, zp)
      || PageAt(c, zp + c.zonePages) <= Address(c, s.zones, a)
    ensures PageAt(c, zp) + c.header <= PageAt(c, zp + c.zonePages)
  {
    Inside(c, s.zones, g.big, a);
    OwnsPages(c, s, g, a);
    assert ZonePages(c, s.usage, g.owner, zp);
    Distribute(zp, c.zonePages, c.page);
    hide Paged, Zoned, LiveAt, Address, Size;
    var p, n := FirstPage(a), PageCount(c, a);
    Separate(g.owner, p, n, OwnerOf(a), zp, c.zonePages, InZone(zp));
    if p + n <= zp {
      Scaled(p + n, zp, c.page);
    } else {
      Scaled(zp + c.zonePages, p, c.page);
    }
  }

  /** A chunk on the list of free ones. */
  lemma ChunkClear(c: Config, s: State, g: Book, zp: nat, x: nat)
    requires Good(c) && Paged(c, s, g) && Zoned(c, s.zones) && Alive(s.zones, g) && zp in s.zones
    requires x in s.zones[zp].free
    ensures Clear(c, s.zones, g.live, x, x + s.zones[zp].chunk)
    ensures x + s.zones[zp].chunk <= PageAt(c, |g.owner|)
  {
    assert ZoneOk(c, zp, s.zones[zp]) && ZonePages(c, s.usage, g.owner, zp);
    assert IsChunk(s.zones[zp], x);
    var i: nat :| i <= s.zones[zp].uindex && x == ChunkAt(s.zones[zp], i);
    ChunkInside(c, zp, s.zones[zp], i);
    Scaled(zp + c.zonePages, |g.owner|, c.page);
    hide Paged, Zoned, ChunkAt, ZoneOk, IsChunk;
    forall j | 0 <= j < |g.live| ensures ClearOf(c, s.zones, g.live[j], x, x + s.zones[zp].chunk) {
      var a := g.live[j];
      if a.Chunk? && a.z == zp {
        assert LiveAt(s.zones, g.big, a);
        if a.i < i { ChunksApart(s.zones[zp], a.i, i); } else { ChunksApart(s.zones[zp], i, a.i); }
      } else {
        ZoneApart(c, s, g, a, zp);
      }
    }
  }

  lemma PagesApart(c: Config, s: State, g: Book, a: Alloc, b: Alloc)
    requires c.zonePages > 0 && Paged(c, s, g) && LiveAt(s.zones, g.big, a) && LiveAt(s.zones, g.big, b) && a != b
    requires a.Chunk? && b.Chunk? ==> a.z != b.z
    ensures FirstPage(a) + PageCount(c, a) <= FirstPage(b) || FirstPage(b) + PageCount(c, b) <= FirstPage(a)
  {
    OwnsPages(c, s, g, a);
    OwnsPages(c, s, g, b);
    hide Paged;
    Separate(g.owner, FirstPage(a), PageCount(c, a), OwnerOf(a), FirstPage(b), PageCount(c, b), OwnerOf(b));
  }

  lemma Separate(owner: seq<Owner>, p: nat, n: nat, o: Owner, q: nat, m: nat, o': Owner)
    requires 0 < n && p + n <= |owner| && 0 < m && q + m <= |owner| && o != o'
    requires forall x :: p <= x < p + n ==> owner[x] == o
    requires forall x :: q <= x < q + m ==> owner[x] == o'
    ensures p + n <= q || q + m <= p
  {
    if p <= q < p + n {
      Meet(owner, p, n, o, q, m, o');
    } else if q <= p < q + m {
      Meet(owner, q, m, o', p, n, o);
    }
  }

  lemma Meet(owner: seq<Owner>, p: nat, n: nat, o: Owner, q: nat, m: nat, o': Owner)
    requires p <= q < p + n <= |owner| && 0 < m && q + m <= |owner|
    requires forall x :: p <= x < p + n ==> owner[x] == o
    requires forall x :: q <= x < q + m ==> owner[x] == o'
    ensures o == o'
  {
    assert owner[q] == o;
  }

  function OwnerOf(a: Alloc): Owner {
    if a.Chunk? then InZone(a.z) else InRun(a.at)
  }

  lemma OwnsPages(c: Config, s: State, g: Book, a: Alloc)
    requires Paged(c, s, g) && LiveAt(s.zones, g.big, a)
    ensures FirstPage(a) + PageCount(c, a) <= |g.owner| && (a.Large? ==> a.n > 0)
    ensures forall p :: FirstPage(a) <= p < FirstPage(a) + PageCount(c, a) ==> g.owner[p] == OwnerOf(a)
  {
    if a.Chunk? {
      assert ZonePages(c, s.usage, g.owner, a.z);
    } else {
      assert RunPages(s.usage, g.owner, a.at, g.big[a.at]);
    }
  }

  /** Address `x` is on page `p`. */
  predicate On(c: Config, x: nat, p: nat) {
    p * c.page <= x < (p + 1) * c.page
  }

  /** The page table finds what a live pointer belongs to: a run by its first page, a zone through the page it is on. */
  lemma PointerFound(c: Config, s: State, g: Book, a: Alloc, page: nat)
    requires Good(c) && Paged(c, s, g) && Zoned(c, s.zones) && LiveAt(s.zones, g.big, a)
    requires On(c, Address(c, s.zones, a), page)
    ensures FoundAt(c, s.usage, a, page)
  {
    hide Paged, Zoned, LiveAt, Address, Size, On;
    Inside(c, s.zones, g.big, a);
    if a.Chunk? {
      OnBetween(c, Address(c, s.zones, a), page, a.z, a.z + c.zonePages);
    } else {
      AddressIs(c, s.zones, a);
      OnBetween(c, Address(c, s.zones, a), page, a.at, a.at + 1);
    }
    TableSays(c, s, g, a, page);
  }

  lemma OnBetween(c: Config, x: nat, p: nat, from: nat, to: nat)
    requires On(c, x, p) && from * c.page <= x < to * c.page
    ensures from <= p < to
  {
    if p < from {
      Scaled(p + 1, from, c.page);
    } else if to <= p {
      Scaled(to, p, c.page);
    }
  }

  lemma QuotientOn(c: Config, x: nat)
    requires c.page > 0
    ensures On(c, x, x / c.page)
  {
    var q := x / c.page;
    assert x == q * c.page + x % c.page;
    assert (q + 1) * c.page == q * c.page + c.page;
  }

  lemma AddressIs(c: Config, zones: map<nat, Zone>, a: Alloc)
    requires a.Large?
    ensures Address(c, zones, a) == a.at * c.page && (c.page > 0 ==> a.at * c.page < (a.at + 1) * c.page)
  {
  }

  predicate FoundAt(c: Config, usage: seq<Usage>, a: Alloc, page: nat) {
    && page < |usage|
    && (a.Large? ==> page == a.at && usage[page] == Usage(LargePage, a.n))
    && (a.Chunk? ==> usage[page].kind == SmallPage && page - usage[page].size == a.z)
  }

  lemma TableSays(c: Config, s: State, g: Book, a: Alloc, page: nat)
    requires Paged(c, s, g) && LiveAt(s.zones, g.big, a)
    requires if a.Chunk? then a.z <= page < a.z + c.zonePages else page == a.at
    ensures FoundAt(c, s.usage, a, page)
  {
    if a.Chunk? {
      assert ZonePages(c, s.usage, g.owner, a.z);
    } else {
      assert RunPages(s.usage, g.owner, a.at, g.big[a.at]);
    }
  }

  // ------------------------------------------------------------------ pages changing hands

  function Fill<T>(s: seq<T>, at: nat, n: nat, o: T): (r: seq<T>)
    requires at + n <= |s|
    ensures |r| == |s| && forall p :: 0 <= p < |s| ==> r[p] == if at <= p < at + n then o else s[p]
    decreases n
  {
    if n == 0 then s else Fill(s[at := o], at + 1, n - 1, o)
  }

  function ZoneKey(o: Owner): set<nat> {
    if o.InZone? then {o.z} else {}
  }

  function RunKey(o: Owner): set<nat> {
    if o.InRun? then {o.at} else {}
  }

  /** A range of pages that is free, or all of a zone, or all of a run. */
  ghost predicate Held(c: Config, g: Book, at: nat, n: nat, o: Owner) {
    && n > 0 && at + n <= |g.owner| && (forall p :: at <= p < at + n ==> g.owner[p] == o)
    && (o == Nobody || (o == InZone(at) && n == c.zonePages) || (o == InRun(at) && at in g.big && g.big[at] == n))
  }

  /** Nothing outside the range has changed. */
  ghost predicate SameElse(s: State, g: Book, s': State, g': Book, at: nat, n: nat) {
    && |s'.usage| == |s.usage| && |g'.owner| == |g.owner| && |s.usage| == |g.owner|
    && (forall p :: 0 <= p < |g.owner| && !(at <= p < at + n) ==>
        g'.owner[p] == g.owner[p] && s'.usage[p] == s.usage[p])
    && (forall p: nat :: !(at <= p < at + n) ==> (Has(s'.pages, p) <==> Has(s.pages, p)))
    && (forall a :: a in g.big && a != at ==> a in g'.big && g'.big[a] == g.big[a])
  }

  /** A range of pages goes from one owner to another, and the table, the free list, the zones and the runs with it. */
  lemma Repaged(c: Config, s: State, g: Book, s': State, g': Book, at: nat, n: nat, o: Owner, o': Owner)
    requires c.zonePages > 0 && Paged(c, s, g) && Held(c, g, at, n, o) && Held(c, g', at, n, o')
    requires SameElse(s, g, s', g', at, n) && Tidy(s'.pages, |g.owner|)
    requires forall p :: at <= p < at + n ==> (Has(s'.pages, p) <==> o' == Nobody)
    requires s'.zones.Keys == s.zones.Keys - ZoneKey(o) + ZoneKey(o')
    requires g'.big.Keys == g.big.Keys - RunKey(o) + RunKey(o')
    requires o'.InZone? ==> ZonePages(c, s'.usage, g'.owner, at)
    requires o'.InRun? ==> RunPages(s'.usage, g'.owner, at, n)
    ensures Paged(c, s', g')
  {
    hide SameElse, Held, Has, ZonePages, RunPages, Tidy;
    RepagedOwners(c, s, g, s', g', at, n, o, o');
    forall z | z in s'.zones
      ensures ZonePages(c, s'.usage, g'.owner, z)
    {
      if z in s.zones {
        ZoneElse(c, s, g, s', g', at, n, o, o', z);
      } else {
        KeyIs(c, g', at, n, o');
      }
    }
    forall a | a in g'.big
      ensures RunPages(s'.usage, g'.owner, a, g'.big[a])
    {
      if a in RunKey(o') {
        KeyIs(c, g', at, n, o');
      } else {
        RunElse(c, s, g, s', g', at, n, o, o', a);
      }
    }
  }

  lemma KeyIs(c: Config, g: Book, at: nat, n: nat, o: Owner)
    requires Held(c, g, at, n, o)
    ensures o.InZone? ==> o.z == at && n == c.zonePages
    ensures o.InRun? ==> o.at == at && at in g.big && g.big[at] == n
  {
  }

  /** The owners of single pages. */
  lemma RepagedOwners(c: Config, s: State, g: Book, s': State, g': Book, at: nat, n: nat, o: Owner, o': Owner)
    requires Paged(c, s, g) && Held(c, g, at, n, o) && Held(c, g', at, n, o') && SameElse(s, g, s', g', at, n)
    requires forall p :: at <= p < at + n ==> (Has(s'.pages, p) <==> o' == Nobody)
    requires s'.zones.Keys == s.zones.Keys - ZoneKey(o) + ZoneKey(o')
    requires g'.big.Keys == g.big.Keys - RunKey(o) + RunKey(o')
    ensures |s'.usage| == |g'.owner| == |g.owner|
    ensures forall p :: 0 <= p < |g'.owner| ==> (g'.owner[p] == Nobody <==> Has(s'.pages, p))
    ensures forall p :: 0 <= p < |g'.owner| && g'.owner[p].InZone? ==>
        g'.owner[p].z in s'.zones && g'.owner[p].z <= p < g'.owner[p].z + c.zonePages
    ensures forall p :: 0 <= p < |g'.owner| && g'.owner[p].InRun? ==>
        g'.owner[p].at in g'.big && g'.owner[p].at <= p < g'.owner[p].at + g'.big[g'.owner[p].at]
  {
    hide Has, Tidy, ZonePages, RunPages;
    forall p | 0 <= p < |g'.owner|
      ensures g'.owner[p] == Nobody <==> Has(s'.pages, p)
    {
      if !(at <= p < at + n) {
        assert g'.owner[p] == g.owner[p];
      }
    }
    forall p | 0 <= p < |g'.owner| && g'.owner[p].InZone?
      ensures g'.owner[p].z in s'.zones && g'.owner[p].z <= p < g'.owner[p].z + c.zonePages
    {
      if !(at <= p < at + n) {
        assert g'.owner[p] == g.owner[p];
        KeyIs(c, g, at, n, o);
      }
    }
    forall p | 0 <= p < |g'.owner| && g'.owner[p].InRun?
      ensures g'.owner[p].at in g'.big && g'.owner[p].at <= p < g'.owner[p].at + g'.big[g'.owner[p].at]
    {
      if !(at <= p < at + n) {
        assert g'.owner[p] == g.owner[p];
        OldRun(c, s, g, s', g', at, n, o, o', p);
      }
    }
  }

  lemma OldRun(c: Config, s: State, g: Book, s': State, g': Book, at: nat, n: nat, o: Owner, o': Owner, p: nat)
    requires Paged(c, s, g) && Held(c, g, at, n, o) && SameElse(s, g, s', g', at, n)
    requires p < |g.owner| && !(at <= p < at + n) && g.owner[p].InRun?
    requires g'.big.Keys == g.big.Keys - RunKey(o) + RunKey(o')
    ensures g.owner[p].at in g'.big && g.owner[p].at <= p < g.owner[p].at + g'.big[g.owner[p].at]
  {
    hide Has, Tidy, ZonePages;
    var a := g.owner[p].at;
    assert a in g.big && a <= p < a + g.big[a] && RunPages(s.usage, g.owner, a, g.big[a]);
    if a == at {
      RunWhole(c, s, g, at, n, o);
    }
  }

  lemma RunWhole(c: Config, s: State, g: Book, at: nat, n: nat, o: Owner)
    requires Held(c, g, at, n, o) && |s.usage| == |g.owner| && at in g.big && RunPages(s.usage, g.owner, at, g.big[at])
    ensures o == InRun(at) && n == g.big[at]
  {
    assert g.owner[at] == InRun(at);
  }

  lemma TabledStill(c: Config, g: Book, at: nat, n: nat, o: Owner, o': Owner, table: nat)
    requires Held(c, g, at, n, o) && o' != Table && Tabled(g.owner, table)
    ensures Tabled(Fill(g.owner, at, n, o'), table)
  {
    var owner := Fill(g.owner, at, n, o');
    forall p | 0 <= p < |owner|
      ensures owner[p] == Table <==> p < table
    {
      assert g.owner[p] == Table <==> p < table;
    }
  }

  lemma ZoneElse(c: Config, s: State, g: Book, s': State, g': Book, at: nat, n: nat, o: Owner, o': Owner, z: nat)
    requires Paged(c, s, g) && SameElse(s, g, s', g', at, n) && Held(c, g, at, n, o) && Held(c, g', at, n, o')
    requires z in s.zones && (z in ZoneKey(o) ==> z in ZoneKey(o'))
    requires o'.InZone? ==> ZonePages(c, s'.usage, g'.owner, at)
    ensures ZonePages(c, s'.usage, g'.owner, z)
  {
    hide Has, Tidy, RunPages;
    assert ZonePages(c, s.usage, g.owner, z);
    hide Paged;
    if z !in ZoneKey(o') {
      forall p | z <= p < z + c.zonePages
        ensures g'.owner[p] == InZone(z) && s'.usage[p] == Usage(SmallPage, p - z)
      {
        assert g.owner[p] == InZone(z) && s.usage[p] == Usage(SmallPage, p - z);
      }
    } else {
      KeyIs(c, g', at, n, o');
    }
  }

  lemma RunElse(c: Config, s: State, g: Book, s': State, g': Book, at: nat, n: nat, o: Owner, o': Owner, a: nat)
    requires Paged(c, s, g) && SameElse(s, g, s', g', at, n) && Held(c, g, at, n, o)
    requires a in g.big && a in g'.big && a !in RunKey(o)
    ensures RunPages(s'.usage, g'.owner, a, g'.big[a])
  {
    hide Has, Tidy, ZonePages;
    assert RunPages(s.usage, g.owner, a, g.big[a]);
    hide Paged;
    forall p | a <= p < a + g.big[a]
      ensures g'.owner[p] == InRun(a)
    {
      assert g.owner[p] == InRun(a);
    }
    if a == at {
      RunWhole(c, s, g, at, n, o);
    }
    assert g.owner[a] == InRun(a);
  }

  // ------------------------------------------------------------------ one zone

  /** A chunk never used before if there is one, else the first on the list of free chunks. */
  function TakeFrom(z: Zone): (Zone, nat)
    requires z.nfree > 0 && (z.uindex + 1 == z.nmax ==> z.free != [])
  {
    if z.uindex + 1 != z.nmax then
      (z.(nfree := z.nfree - 1, uindex := z.uindex + 1), ChunkAt(z, z.uindex + 1))
    else
      (z.(nfree := z.nfree - 1, free := z.free[1..]), z.free[0])
  }

  function PutBack(z: Zone, a: nat): Zone {
    z.(nfree := z.nfree + 1, free := [a] + z.free)
  }

  /** The chunk taken has an index, and was not in use. */
  lemma TakeOk(c: Config, zp: nat, z: Zone) returns (i: nat)
    requires ZoneOk(c, zp, z) && z.nfree > 0
    ensures z.uindex + 1 == z.nmax ==> z.free != []
    ensures var (z', a) := TakeFrom(z);
            && ZoneOk(c, zp, z') && i <= z'.uindex && a == ChunkAt(z', i) && a !in z'.free
            && (i <= z.uindex ==> a in z.free)
            && z'.uindex >= z.uindex && z'.base == z.base && z'.chunk == z.chunk && z'.index == z.index &&
                z'.nmax == z.nmax
            && forall x :: x in z'.free ==> x in z.free
  {
    if z.uindex + 1 != z.nmax {
      i := z.uindex + 1;
      TakeFresh(c, zp, z);
    } else {
      assert z.free[0] in z.free;
      i :| i <= z.uindex && z.free[0] == ChunkAt(z, i);
      TakeListed(c, zp, z);
    }
  }

  lemma TakeFresh(c: Config, zp: nat, z: Zone)
    requires ZoneOk(c, zp, z) && z.nfree > 0 && z.uindex + 1 != z.nmax
    ensures var (z', a) := TakeFrom(z); ZoneOk(c, zp, z') && a == ChunkAt(z', z.uindex + 1) && a !in z'.free
  {
    var (z', a) := TakeFrom(z);
    forall x | x in z.free
      ensures IsChunk(z', x) && x != a
    {
      assert IsChunk(z, x);
      var j: nat :| j <= z.uindex && x == ChunkAt(z, j);
      ChunksApart(z, j, z.uindex + 1);
      assert x == ChunkAt(z', j);
    }
    SameChunks(z, z', z.nmax);
    SameChunks(z, z', z.uindex + 1);
    hide ChunkAt, IsChunk;
  }

  lemma SameChunks(z: Zone, z': Zone, i: nat)
    requires z'.base == z.base && z'.chunk == z.chunk
    ensures ChunkAt(z', i) == ChunkAt(z, i)
  {
  }

  lemma TakeListed(c: Config, zp: nat, z: Zone)
    requires ZoneOk(c, zp, z) && z.nfree > 0 && z.uindex + 1 == z.nmax && z.free != []
    ensures var (z', a) := TakeFrom(z); ZoneOk(c, zp, z') && a !in z'.free && forall x :: x in z'.free ==> x in z.free
  {
    var (z', a) := TakeFrom(z);
    SameChunks(z, z', z.nmax);
    forall x | x in z'.free
      ensures x in z.free && IsChunk(z', x) && x != a
    {
      assert x in z.free && IsChunk(z, x);
      var j: nat :| j <= z.uindex && x == ChunkAt(z, j);
      SameChunks(z, z', j);
    }
    hide ChunkAt, IsChunk;
  }

  lemma PutOk(c: Config, zp: nat, z: Zone, i: nat)
    requires ZoneOk(c, zp, z) && i <= z.uindex && ChunkAt(z, i) !in z.free
    ensures ZoneOk(c, zp, PutBack(z, ChunkAt(z, i)))
  {
    var a := ChunkAt(z, i);
    var z' := PutBack(z, a);
    SameChunks(z, z', z.nmax);
    forall x | x in z'.free
      ensures IsChunk(z', x)
    {
      if x in z.free {
        assert IsChunk(z, x);
        var j: nat :| j <= z.uindex && x == ChunkAt(z, j);
        SameChunks(z, z', j);
      } else {
        SameChunks(z, z', i);
      }
    }
    DistinctWith(z.free, a);
    hide ChunkAt, IsChunk;
  }

  /** The addresses of the first `n` chunks. */
  ghost function ChunkSet(z: Zone, n: nat): (r: set<nat>)
    ensures |r| <= n && forall i: nat :: i < n ==> ChunkAt(z, i) in r
  {
    if n == 0 then {} else ChunkSet(z, n - 1) + {ChunkAt(z, n - 1)}
  }

  ghost function Members(s: seq<nat>): set<nat> {
    set x | x in s
  }

  lemma {:induction false} DistinctCount(s: seq<nat>)
    requires Distinct(s)
    ensures |Members(s)| == |s|
  {
    if s != [] {
      var rest := s[1..];
      DistinctCount(rest);
      assert s == [s[0]] + rest;
      assert Members(s) == Members(rest) + {s[0]};
    }
  }

  lemma SubsetFull(a: set<nat>, b: set<nat>)
    requires a <= b && |b| <= |a|
    ensures a == b
  {
    if x :| x in b && x !in a {
      Smaller(a, b - {x});
    }
  }

  lemma {:induction false} Smaller(a: set<nat>, b: set<nat>)
    requires a <= b
    ensures |a| <= |b|
    decreases |a|
  {
    if x :| x in a {
      Smaller(a - {x}, b - {x});
    }
  }

  /** The chunks that are free are no more than those ever used; when they are as many, no chunk is in use. */
  lemma WholeFree(c: Config, zp: nat, z: Zone)
    requires ZoneOk(c, zp, z)
    ensures z.nfree <= z.nmax
    ensures z.nfree == z.nmax ==> forall i: nat :: i <= z.uindex ==> ChunkAt(z, i) in z.free
  {
    var a, b := Members(z.free), ChunkSet(z, z.uindex + 1);
    DistinctCount(z.free);
    forall x | x in a
      ensures x in b
    {
      assert IsChunk(z, x);
    }
    Smaller(a, b);
    if z.nfree == z.nmax {
      SubsetFull(a, b);
      assert forall i: nat :: i < z.uindex + 1 ==> ChunkAt(z, i) in b;
    }
  }

  // ------------------------------------------------------------------ live allocations

  lemma AliveTake(zones: map<nat, Zone>, g: Book, zp: nat, z': Zone, i: nat)
    requires Alive(zones, g) && zp in zones && z'.base == zones[zp].base && z'.chunk == zones[zp].chunk
    requires z'.uindex >= zones[zp].uindex && i <= z'.uindex && ChunkAt(z', i) !in z'.free
    requires forall x :: x in z'.free ==> x in zones[zp].free
    requires i <= zones[zp].uindex ==> ChunkAt(zones[zp], i) in zones[zp].free
    ensures Alive(zones[zp := z'], g.(live := g.live + [Chunk(zp, i, z'.chunk)]))
  {
    var zones', live' := zones[zp := z'], g.live + [Chunk(zp, i, z'.chunk)];
    forall j | 0 <= j < |live'|
      ensures LiveAt(zones', g.big, live'[j]) && (j < |g.live| ==> live'[j] != Chunk(zp, i, z'.chunk))
    {
      if j < |g.live| {
        assert LiveAt(zones, g.big, g.live[j]);
        if live'[j].Chunk? && live'[j].z == zp {
          SameChunks(zones[zp], z', live'[j].i);
        }
      }
    }
  }

  function Dropped(live: seq<Alloc>, j: nat): seq<Alloc>
    requires j < |live|
  {
    live[..j] + live[j + 1..]
  }

  lemma DroppedAt(live: seq<Alloc>, j: nat, k: nat)
    requires j < |live| && k < |live| - 1
    ensures Dropped(live, j)[k] == live[if k < j then k else k + 1]
  {
  }

  lemma {:induction false} TotalJoin(c: Config, a: seq<Alloc>, b: seq<Alloc>)
    ensures Total(c, a + b) == Total(c, a) + Total(c, b)
  {
    if a == [] {
      assert a + b == b;
    } else {
      TotalJoin(c, a[1..], b);
      assert (a + b)[1..] == a[1..] + b;
    }
  }

  lemma TotalMore(c: Config, live: seq<Alloc>, a: Alloc)
    ensures Total(c, live + [a]) == Total(c, live) + Size(c, a)
  {
    TotalJoin(c, live, [a]);
    assert [a][1..] == [];
  }

  lemma TotalLess(c: Config, live: seq<Alloc>, j: nat)
    requires j < |live|
    ensures Total(c, Dropped(live, j)) + Size(c, live[j]) == Total(c, live)
  {
    assert live == (live[..j] + [live[j]]) + live[j + 1..];
    TotalJoin(c, live[..j] + [live[j]], live[j + 1..]);
    TotalMore(c, live[..j], live[j]);
    TotalJoin(c, live[..j], live[j + 1..]);
  }

  lemma AlivePut(c: Config, zones: map<nat, Zone>, g: Book, j: nat)
    requires Zoned(c, zones) && Alive(zones, g) && j < |g.live| && g.live[j].Chunk? && g.live[j].z in zones
    ensures var a := g.live[j];
            Alive(zones[a.z := PutBack(zones[a.z], ChunkAt(zones[a.z], a.i))], g.(live := Dropped(g.live, j)))
  {
    var a, live' := g.live[j], Dropped(g.live, j);
    var z := zones[a.z];
    var z' := PutBack(z, ChunkAt(z, a.i));
    assert LiveAt(zones, g.big, a) && ZoneOk(c, a.z, z);
    forall k | 0 <= k < |live'|
      ensures LiveAt(zones[a.z := z'], g.big, live'[k])
    {
      DroppedAt(g.live, j, k);
      var b := live'[k];
      assert b != a && LiveAt(zones, g.big, b);
      if b.Chunk? && b.z == a.z {
        SameChunks(z, z', b.i);
        OtherChunk(z, a.i, b.i);
      }
    }
    DroppedDiffer(g.live, j);
  }

  lemma OtherChunk(z: Zone, i: nat, k: nat)
    requires i != k && z.chunk > 0
    ensures ChunkAt(z, i) != ChunkAt(z, k)
  {
    if i < k { ChunksApart(z, i, k); } else { ChunksApart(z, k, i); }
  }

  lemma DroppedDiffer(live: seq<Alloc>, j: nat)
    requires j < |live| && forall x, y :: 0 <= x < y < |live| ==> live[x] != live[y]
    ensures forall x, y :: 0 <= x < y < |live| - 1 ==> Dropped(live, j)[x] != Dropped(live, j)[y]
  {
    forall x, y | 0 <= x < y < |live| - 1
      ensures Dropped(live, j)[x] != Dropped(live, j)[y]
    {
      DroppedAt(live, j, x);
      DroppedAt(live, j, y);
    }
  }

  /** No live chunk is in zone `zp`. */
  ghost predicate Deserted(g: Book, zp: nat) {
    forall j :: 0 <= j < |g.live| && g.live[j].Chunk? ==> g.live[j].z != zp
  }

  lemma WholeDeserted(c: Config, zones: map<nat, Zone>, g: Book, zp: nat)
    requires Zoned(c, zones) && Alive(zones, g) && Whole(zones, zp)
    ensures Deserted(g, zp)
  {
    WholeFree(c, zp, zones[zp]);
    forall j | 0 <= j < |g.live| && g.live[j].Chunk?
      ensures g.live[j].z != zp
    {
      assert LiveAt(zones, g.big, g.live[j]);
    }
  }

  lemma AliveNew(zones: map<nat, Zone>, g: Book, zp: nat, z': Zone)
    requires Alive(zones, g) && Deserted(g, zp) && z'.free == []
    ensures Alive(zones[zp := z'], g.(live := g.live + [Chunk(zp, 0, z'.chunk)]))
  {
    forall j | 0 <= j < |g.live|
      ensures LiveAt(zones[zp := z'], g.big, g.live[j])
    {
      assert LiveAt(zones, g.big, g.live[j]);
    }
  }

  lemma AliveDrop(zones: map<nat, Zone>, g: Book, zp: nat)
    requires Alive(zones, g) && Deserted(g, zp)
    ensures Alive(zones - {zp}, g)
  {
    forall j | 0 <= j < |g.live|
      ensures LiveAt(zones - {zp}, g.big, g.live[j])
    {
      assert LiveAt(zones, g.big, g.live[j]);
    }
  }

  lemma AliveRun(zones: map<nat, Zone>, g: Book, at: nat, n: nat, owner: seq<Owner>)
    requires Alive(zones, g) && at !in g.big
    ensures Alive(zones, Book(g.live + [Large(at, n)], g.big[at := n], owner))
  {
    forall j | 0 <= j < |g.live|
      ensures LiveAt(zones, g.big[at := n], g.live[j]) && g.live[j] != Large(at, n)
    {
      assert LiveAt(zones, g.big, g.live[j]);
    }
  }

  lemma AliveUnrun(zones: map<nat, Zone>, g: Book, j: nat, owner: seq<Owner>)
    requires Alive(zones, g) && j < |g.live| && g.live[j].Large?
    ensures Alive(zones, Book(Dropped(g.live, j), g.big - {g.live[j].at}, owner))
  {
    var a, live' := g.live[j], Dropped(g.live, j);
    assert LiveAt(zones, g.big, a);
    forall k | 0 <= k < |live'|
      ensures LiveAt(zones, g.big - {a.at}, live'[k])
    {
      DroppedAt(g.live, j, k);
      assert live'[k] != a && LiveAt(zones, g.big, live'[k]);
    }
    DroppedDiffer(g.live, j);
  }

  // ------------------------------------------------------------------ the lists of zones

  /** The first zone of a class gives a chunk, and leaves the list when it has none left. */
  lemma ListedTake(zones: map<nat, Zone>, arrays: seq<seq<nat>>, spare: seq<nat>, q: nat, z': Zone)
    requires Listed(zones, arrays, spare) && Lean(zones, arrays, spare) && q < NZONES && arrays[q] != []
    requires arrays[q][0] in zones
    requires var z := zones[arrays[q][0]]; z'.nfree + 1 == z.nfree <= z.nmax == z'.nmax && z'.index == z.index
    ensures var zp := arrays[q][0];
            var arrays' := if z'.nfree == 0 then arrays[q := arrays[q][1..]] else arrays;
            Listed(zones[zp := z'], arrays', spare) && Lean(zones[zp := z'], arrays', spare)
  {
    var zp := arrays[q][0];
    assert zp in arrays[q];
    assert arrays[q] == [zp] + arrays[q][1..];
    if z'.nfree == 0 {
      TailMembers(arrays[q]);
    }
  }

  lemma TailMembers(s: seq<nat>)
    requires Distinct(s) && s != []
    ensures Distinct(s[1..]) && forall x :: x in s[1..] <==> x in s && x != s[0]
  {
    assert s == [s[0]] + s[1..];
  }

  /** A zone new to an empty class. */
  lemma ListedNew(zones: map<nat, Zone>, arrays: seq<seq<nat>>, spare: seq<nat>, spare': seq<nat>, q: nat, zp: nat,
      z': Zone)
    requires Listed(zones, arrays, spare) && q < NZONES && arrays[q] == []
    requires z'.index == q && 0 < z'.nfree && (zp in zones ==> zp in spare)
    requires Distinct(spare') && forall x :: x in spare' <==> x in spare && x != zp
    ensures Listed(zones[zp := z'], arrays[q := [zp]], spare')
  {
    var zones', arrays' := zones[zp := z'], arrays[q := [zp]];
    forall p, x {:trigger x in arrays'[p]} | 0 <= p < NZONES && x in arrays'[p]
      ensures x in zones' && zones'[x].index == p && zones'[x].nfree > 0 && x !in spare'
    {
      if p != q {
        assert x in arrays[p];
      }
    }
    forall x | x in zones' && zones'[x].nfree > 0 && x !in spare'
      ensures zones'[x].index < NZONES && x in arrays'[zones'[x].index]
    {
      if x != zp {
        assert x in arrays[zones[x].index];
      }
    }
  }

  lemma LeanNew(zones: map<nat, Zone>, arrays: seq<seq<nat>>, spare: seq<nat>, spare': seq<nat>, q: nat, zp: nat,
      z': Zone)
    requires Lean(zones, arrays, spare) && Listed(zones, arrays, spare) && q < NZONES
    requires (zp in zones ==> zp in spare) && |spare'| <= |spare|
    ensures Lean(zones[zp := z'], arrays[q := [zp]], spare')
  {
    var zones', arrays' := zones[zp := z'], arrays[q := [zp]];
    forall p, a, b {:trigger a in arrays'[p], b in arrays'[p]} |
      0 <= p < NZONES && a in arrays'[p] && b in arrays'[p] && Whole(zones', a) && Whole(zones', b)
      ensures a == b
    {
      if p != q {
        assert a in arrays[p] && b in arrays[p];
      }
    }
  }

  lemma {:induction false} WithoutShorter(s: seq<nat>, t: nat)
    ensures |Without(s, t)| <= |s|
  {
    if s != [] { WithoutShorter(s[1..], t); }
  }

  /** As `Lean`, but zone `zp` may be wholly free beside another. */
  ghost predicate LeanBut(zones: map<nat, Zone>, arrays: seq<seq<nat>>, spare: seq<nat>, zp: nat) {
    && |arrays| == NZONES && |spare| <= 2
    && forall q, a, b {:trigger a in arrays[q], b in arrays[q]} ::
         (0 <= q < NZONES && a in arrays[q] && b in arrays[q] && a != zp && b != zp && Whole(zones, a)
          && Whole(zones, b))
         ==> a == b
  }

  function Relisted(arrays: seq<seq<nat>>, q: nat, zp: nat, full: bool): seq<seq<nat>>
    requires q < |arrays|
  {
    if full then arrays[q := [zp] + arrays[q]] else arrays
  }

  /** A chunk comes back; a zone that had none joins its class again. */
  lemma ListedPut(zones: map<nat, Zone>, arrays: seq<seq<nat>>, spare: seq<nat>, zp: nat, z': Zone)
    requires Listed(zones, arrays, spare) && Lean(zones, arrays, spare) && zp in zones && !Whole(zones, zp)
    requires z'.nfree == zones[zp].nfree + 1 && z'.index == zones[zp].index < NZONES
    ensures var arrays' := Relisted(arrays, z'.index, zp, zones[zp].nfree == 0);
            && |arrays'| == NZONES && zp in arrays'[z'.index]
            && Listed(zones[zp := z'], arrays', spare) && LeanBut(zones[zp := z'], arrays', spare, zp)
  {
    var q := z'.index;
    if zones[zp].nfree == 0 {
      assert zp !in arrays[q];
      DistinctWith(arrays[q], zp);
      PushedMembers(arrays[q], zp);
    }
  }

  lemma PushedMembers(s: seq<nat>, t: nat)
    ensures forall x :: x in [t] + s <==> x == t || x in s
  {
  }

  /** A wholly free zone is set aside. */
  lemma ListedAside(zones: map<nat, Zone>, arrays: seq<seq<nat>>, spare: seq<nat>, q: nat, zp: nat)
    requires Listed(zones, arrays, spare) && LeanBut(zones, arrays, spare, zp)
    requires q < NZONES && zp in arrays[q] && Whole(zones, zp)
    ensures var arrays', spare' := arrays[q := Without(arrays[q], zp)], [zp] + spare;
            && Listed(zones, arrays', spare') && LeanBut(zones, arrays', spare, zp)
            && (|spare'| <= 2 ==> Lean(zones, arrays', spare'))
  {
    WithoutMembers(arrays[q], zp);
    assert zp !in spare;
    DistinctWith(spare, zp);
    PushedMembers(spare, zp);
  }

  /** A zone that is not wholly free, or alone in its class, stays. */
  lemma ListedStays(zones: map<nat, Zone>, arrays: seq<seq<nat>>, spare: seq<nat>, q: nat, zp: nat)
    requires Listed(zones, arrays, spare) && LeanBut(zones, arrays, spare, zp)
    requires q < NZONES && zp in arrays[q] && (!Whole(zones, zp) || |arrays[q]| == 1)
    ensures Lean(zones, arrays, spare)
  {
    assert |arrays[q]| == 1 ==> arrays[q] == [zp];
    forall p, a, b | 0 <= p < NZONES && a in arrays[p] && b in arrays[p] && Whole(zones, a) && Whole(zones, b)
      ensures a == b
    {
      if a == zp || b == zp {
        assert zones[zp].index == q && p == q;
      }
    }
  }

  /** The zone set aside last is given up. */
  lemma ListedRelease(zones: map<nat, Zone>, arrays: seq<seq<nat>>, spare: seq<nat>, zp: nat)
    requires Listed(zones, arrays, [zp] + spare)
    ensures Listed(zones - {zp}, arrays, spare)
  {
    PushedMembers(spare, zp);
    TailMembers([zp] + spare);
    assert ([zp] + spare)[1..] == spare && ([zp] + spare)[0] == zp;
  }

  lemma LeanRelease(zones: map<nat, Zone>, arrays: seq<seq<nat>>, spare: seq<nat>, zp: nat)
    requires LeanBut(zones, arrays, spare, zp)
    ensures Lean(zones - {zp}, arrays, spare)
  {
  }

  lemma {:induction false} WithoutAt(s: seq<nat>, i: nat)
    requires i < |s| && s[i] !in s[..i]
    ensures Without(s, s[i]) == s[..i] + s[i + 1..]
  {
    if i > 0 {
      assert s[0] in s[..i];
      assert s[1..][..i - 1] == s[..i][1..] && s[1..][i..] == s[i + 1..];
      WithoutAt(s[1..], i - 1);
    }
  }

  // ------------------------------------------------------------------ building a zone

  predicate PowerOfTwo(n: nat) {
    n == 1 || (n > 1 && n % 2 == 0 && PowerOfTwo(n / 2))
  }

  /** The test the allocator makes, by setting all bits below the highest. */
  predicate TestsPower(n: nat)
    requires n > 0
  {
    Or(n, n - 1) + 1 == 2 * n
  }

  /** The test finds exactly the powers of two. */
  lemma {:induction false} PowerTest(n: nat)
    requires n > 0
    ensures TestsPower(n) <==> PowerOfTwo(n)
  {
    if n > 1 {
      if n % 2 == 0 {
        assert (n - 1) / 2 == n / 2 - 1 && (n - 1) % 2 == 1;
        PowerTest(n / 2);
      } else {
        assert (n - 1) / 2 == n / 2 && (n - 1) % 2 == 0;
        OrSame(n / 2);
      }
    }
  }

  lemma {:induction false} OrSame(n: nat)
    ensures Or(n, n) == n
  {
    if n > 0 {
      OrSame(n / 2);
    }
  }

  /** Where the chunks begin: past the header, at a multiple of the chunk size if that is a power of two, else of
      eight. */
  function Offset(c: Config, size: nat): nat
    requires size > 0
  {
    if TestsPower(size) then RoundUp(c.header, size) else RoundUp(c.header, 8)
  }

  /** A zone of class `zi` with its first chunk taken. */
  function Built(c: Config, zp: nat, zi: nat, size: nat): Zone
    requires size > 0 && Offset(c, size) + size <= ZoneSize(c)
  {
    SomeRoom(ZoneSize(c) - Offset(c, size), size);
    var nmax := (ZoneSize(c) - Offset(c, size)) / size;
    Zone(nmax - 1, nmax, zp * c.page + Offset(c, size), 0, size, zi, [])
  }

  lemma SomeRoom(room: nat, size: nat)
    requires 0 < size <= room
    ensures 1 <= room / size && room / size * size <= room
  {
    var q := room / size;
    assert room == q * size + room % size;
    assert q == 0 ==> q * size == 0;
  }

  lemma MostFit(room: nat, size: nat)
    requires size > 0
    ensures (room / size + 1) * size > room
  {
    var q := room / size;
    assert room == q * size + room % size;
    assert (q + 1) * size == q * size + size;
  }

  lemma TwoFit(room: nat, size: nat)
    requires 0 < size && 2 * size <= room
    ensures 2 <= room / size
  {
    var q := room / size;
    assert room == q * size + room % size;
    assert q == 0 ==> q * size == 0;
    assert q == 1 ==> q * size == size;
  }

  lemma OffsetIs(c: Config, size: nat)
    requires size >= 8
    ensures c.header <= Offset(c, size) < c.header + size
    ensures !TestsPower(size) ==> Offset(c, size) < c.header + 8
  {
    RoundUpIs(c.header, size);
    RoundUpIs(c.header, 8);
  }

  lemma BuiltOk(c: Config, zp: nat, zi: nat)
    requires Good(c) && zi < NZONES && ChunkSize(zi) <= c.limit
    ensures ChunkSize(zi) >= 8 && Offset(c, ChunkSize(zi)) + ChunkSize(zi) <= ZoneSize(c)
    ensures var z := Built(c, zp, zi, ChunkSize(zi));
            && ZoneOk(c, zp, z) && z.nfree == z.nmax - 1 > 0 && z.uindex == 0
            && z.index == zi && z.free == [] && z.chunk == ChunkSize(zi)
            // not one more chunk would fit, and the chunks begin at the first place behind the header that is aligned
            && ChunkAt(z, z.nmax + 1) > (zp + c.zonePages) * c.page
            && z.base < zp * c.page + c.header + if PowerOfTwo(z.chunk) then z.chunk else 8
  {
    var size := ChunkSize(zi);
    assert size >= 8;
    PowerTest(size);
    hide ChunkSize, Offset, PowerOfTwo, TestsPower;
    OffsetIs(c, size);
    MostFit(ZoneSize(c) - Offset(c, size), size);
    assert 2 * size <= ZoneSize(c) - Offset(c, size);
    var room := ZoneSize(c) - Offset(c, size);
    SomeRoom(room, size);
    TwoFit(room, size);
    Distribute(zp, c.zonePages, c.page);
  }

  /** In a zone of a power-of-two chunk size, the chunks lie at multiples of it in memory exactly if the zone does; in
      the others they lie at multiples of eight if the zone does. */
  lemma ChunkAligned(c: Config, zp: nat, z: Zone, i: nat)
    requires ZoneOk(c, zp, z)
    ensures PowerOfTwo(z.chunk) ==>
              ((c.start + ChunkAt(z, i)) % z.chunk == 0 <==> (c.start + zp * c.page) % z.chunk == 0)
    ensures !PowerOfTwo(z.chunk) ==> ((c.start + ChunkAt(z, i)) % 8 == 0 <==> (c.start + zp * c.page) % 8 == 0)
  {
    PowerTest(z.chunk);
    ChunkFrom(c, zp, z, i);
    hide PowerOfTwo, TestsPower, ChunkAt, ZoneOk, Offset;
    var a := c.start + zp * c.page;
    if PowerOfTwo(z.chunk) {
      MultipleMore(a, (c.header + z.chunk - 1) / z.chunk, i, z.chunk);
    } else {
      EighthMore(a, (c.header + 7) / 8, i, z.chunk);
    }
  }

  lemma ChunkFrom(c: Config, zp: nat, z: Zone, i: nat)
    requires ZoneOk(c, zp, z)
    ensures z.chunk > 0 && z.chunk % 8 == 0
    ensures TestsPower(z.chunk) ==>
              ChunkAt(z, i) == zp * c.page + (c.header + z.chunk - 1) / z.chunk * z.chunk + i * z.chunk
    ensures !TestsPower(z.chunk) ==> ChunkAt(z, i) == zp * c.page + (c.header + 7) / 8 * 8 + i * z.chunk
  {
    EightDivides(z.index);
    hide TestsPower, ChunkSize;
  }

  /** A live chunk whose size is a power of two lies at a multiple of its size in memory exactly if its zone does:
      always if pages do. */
  lemma LiveAligned(c: Config, s: State, g: Book, j: nat)
    requires Good(c) && Fine(c, s, g) && j < |g.live| && g.live[j].Chunk? && PowerOfTwo(g.live[j].size)
    ensures g.live[j].z in s.zones && g.live[j].size > 0
    ensures var a := g.live[j];
            && ((c.start + Address(c, s.zones, a)) % a.size == 0 <==> (c.start + a.z * c.page) % a.size == 0)
            && (c.page % a.size == 0 ==> (c.start + Address(c, s.zones, a)) % a.size == 0)
  {
    hide PowerOfTwo, Paged, Listed, Lean, ZoneOk, ChunkAt;
    var a := g.live[j];
    assert LiveAt(s.zones, g.big, a);
    SizePositive(c, a.z, s.zones[a.z]);
    ChunkAligned(c, a.z, s.zones[a.z], a.i);
    if c.page % a.size == 0 {
      PagesAligned(c.start, c.page, a.z, a.size);
    }
  }

  lemma SizePositive(c: Config, zp: nat, z: Zone)
    requires ZoneOk(c, zp, z)
    ensures z.chunk > 0
  {
  }

  lemma PagesAligned(start: nat, page: nat, z: nat, size: nat)
    requires page > 0 && size > 0 && start % page == 0 && page % size == 0
    ensures (start + z * page) % size == 0
  {
    StartIs(start, page);
    MultiplesOf(page, start / page + z, size);
    Distribute(start / page, z, page);
  }

  lemma StartIs(start: nat, page: nat)
    requires page > 0 && start % page == 0
    ensures start == start / page * page
  {
  }

  lemma MultiplesOf(page: nat, z: nat, g: nat)
    requires g > 0 && page % g == 0
    ensures (z * page) % g == 0
  {
    assert page == page / g * g;
    assert z * page == 0 + z * (page / g) * g;
    ModMore(0, z * (page / g), g);
  }

  /** Chunks of 8192 bytes with pages of 4096, in a heap at 0x20001000: those of a zone that begins at page 2 of it are
      not aligned to their size in memory. */
  lemma MisalignedChunk(i: nat)
    ensures var c := Config(4096, 16, 16384, 64, 0x1_0000_0000, 0x2000_1000);
            && Good(c) && ChunkSize(63) == 8192 && Offset(c, 8192) + 8192 <= ZoneSize(c)
            && ZoneOk(c, 2, Built(c, 2, 63, 8192)) && (c.start + ChunkAt(Built(c, 2, 63, 8192), i)) % 8192 != 0
  {
    var c := Config(4096, 16, 16384, 64, 0x1_0000_0000, 0x2000_1000);
    Power8192();
    hide Offset, Built, PowerOfTwo, ZoneOk;
    BuiltMisaligned(c, 2, 63, i);
  }

  lemma Power8192()
    ensures PowerOfTwo(8192)
  {
    assert PowerOfTwo(64) && PowerOfTwo(512);
    assert PowerOfTwo(4096);
  }

  lemma BuiltMisaligned(c: Config, zp: nat, zi: nat, i: nat)
    requires Good(c) && zi < NZONES && ChunkSize(zi) <= c.limit && PowerOfTwo(ChunkSize(zi))
    requires ChunkSize(zi) > 0 && (c.start + zp * c.page) % ChunkSize(zi) != 0
    ensures var size := ChunkSize(zi);
            && Offset(c, size) + size <= ZoneSize(c)
            && ZoneOk(c, zp, Built(c, zp, zi, size))
            && (c.start + ChunkAt(Built(c, zp, zi, size), i)) % size != 0
  {
    hide Offset, Built, PowerOfTwo, ZoneOk, ChunkSize, ChunkAt;
    BuiltOk(c, zp, zi);
    ChunkAligned(c, zp, Built(c, zp, zi, ChunkSize(zi)), i);
  }

  lemma MultipleMore(a: nat, k: nat, i: nat, g: nat)
    requires g > 0
    ensures (a + k * g + i * g) % g == a % g
  {
    assert k * g + i * g == (k + i) * g;
    ModMore(a, k + i, g);
  }

  lemma EighthMore(a: nat, k: nat, i: nat, size: nat)
    requires size % 8 == 0
    ensures (a + k * 8 + i * size) % 8 == a % 8
  {
    assert i * size == i * (size / 8) * 8;
    ModMore(a, k + i * (size / 8), 8);
  }

  lemma ModMore(a: nat, k: nat, g: nat)
    requires g > 0
    ensures (a + k * g) % g == a % g
  {
    var q, r := a / g, a % g;
    assert a + k * g == (q + k) * g + r;
    RestIs((q + k), r, g);
  }

  lemma RestIs(q: nat, r: nat, g: nat)
    requires r < g
    ensures (q * g + r) % g == r
  {
    var n := q * g + r;
    var k := n / g;
    assert n == k * g + n % g;
    if n % g <= r { Times(k, q, g); } else { Times(q, k, g); }
  }

  lemma EightDivides(zi: nat)
    requires zi < NZONES
    ensures ChunkSize(zi) % 8 == 0
  {
  }

  /** Chunks of small requests are no larger than the limit. */
  lemma ClassLimit(n: nat, limit: nat)
    requires 0 < n < limit && (limit == 8192 || limit == 16384)
    ensures ZoneIndex(n).1 <= limit && n < LARGEST
  {
    hide RoundUp;
    RoundUpIs(n, 8);
    RoundUpIs(n, 16);
    RoundUpIs(n, 32);
    RoundUpIs(n, 64);
    RoundUpIs(n, 128);
    RoundUpIs(n, 256);
    RoundUpIs(n, 512);
    RoundUpIs(n, 1024);
  }

  /** The pages of a large request; rounding up wraps to nothing near the end of the size type. */
  function PagesFor(c: Config, size: nat): nat
    requires Good(c)
  {
    if size + c.page - 1 >= c.word then 0 else (size + c.page - 1) / c.page
  }

  lemma PagesHold(c: Config, size: nat)
    requires Good(c) && PagesFor(c, size) > 0
    ensures size <= PagesFor(c, size) * c.page
  {
    var n := (size + c.page - 1) / c.page;
    assert size + c.page - 1 == n * c.page + (size + c.page - 1) % c.page;
  }

  /** The number of pages a request takes is the least that holds it, and none only if rounding up wraps. */
  lemma PagesLeast(c: Config, size: nat, m: nat)
    requires Good(c) && size > 0
    ensures PagesFor(c, size) == 0 <==> size + c.page - 1 >= c.word
    ensures PagesFor(c, size) > 0 ==>
      (PagesFor(c, size) - 1) * c.page < size && (m >= PagesFor(c, size) <==> m * c.page >= size)
  {
    var n := (size + c.page - 1) / c.page;
    assert size + c.page - 1 == n * c.page + (size + c.page - 1) % c.page;
    assert (n - 1) * c.page == n * c.page - c.page;
    if m >= n {
      Scaled(n, m, c.page);
    } else {
      Scaled(m, n - 1, c.page);
    }
  }

  /** No run of pages is as long as a request needs, in bytes. */
  lemma NoneHolds(c: Config, list: seq<Pages>, size: nat)
    requires Good(c) && size > 0 && PagesFor(c, size) > 0
    ensures FirstBig(list, PagesFor(c, size), 0) == |list| <==>
      forall i :: 0 <= i < |list| ==> list[i].n * c.page < size
  {
    hide PagesFor, Good;
    forall i | 0 <= i < |list|
      ensures list[i].n >= PagesFor(c, size) <==> list[i].n * c.page >= size
    {
      PagesLeast(c, size, list[i].n);
    }
    if FirstBig(list, PagesFor(c, size), 0) < |list| {
      assert list[FirstBig(list, PagesFor(c, size), 0)].n * c.page >= size;
    }
  }

  /** When an allocation fails, without a count of pages: for a large request, rounding its size wraps or no run of
      free pages holds that many bytes. */
  lemma StarvedIs(c: Config, s: State, size: nat)
    requires Good(c) && size > 0 && |s.arrays| == NZONES
    ensures size >= c.limit ==>
      (Starved(c, s, size) <==>
         size + c.page - 1 >= c.word || forall i :: 0 <= i < |s.pages| ==> s.pages[i].n * c.page < size)
    ensures size < c.limit ==>
      (Starved(c, s, size) <==>
         0 <= ZoneIndex(size).0 < NZONES && s.arrays[ZoneIndex(size).0] == [] && s.spare == []
         && forall i :: 0 <= i < |s.pages| ==> s.pages[i].n < c.zonePages)
  {
    hide PagesFor, ZoneIndex;
    if size >= c.limit {
      PagesLeast(c, size, 0);
      if PagesFor(c, size) > 0 { NoneHolds(c, s.pages, size); }
    }
  }

  lemma PagedSame(c: Config, s: State, g: Book, s': State, g': Book)
    requires Paged(c, s, g) && s'.pages == s.pages && s'.usage == s.usage && s'.zones.Keys == s.zones.Keys
    requires g'.big == g.big && g'.owner == g.owner
    ensures Paged(c, s', g')
  {
  }

  lemma ZonedWith(c: Config, zones: map<nat, Zone>, zp: nat, z': Zone)
    requires Zoned(c, zones) && ZoneOk(c, zp, z')
    ensures Zoned(c, zones[zp := z'])
  {
  }

  /** The addresses of some live allocations are the same. */
  ghost predicate StayPut(c: Config, zones: map<nat, Zone>, zones': map<nat, Zone>, live: seq<Alloc>) {
    forall j :: 0 <= j < |live| && live[j].Chunk? ==>
      && live[j].z in zones && live[j].z in zones'
      && ChunkAt(zones'[live[j].z], live[j].i) == ChunkAt(zones[live[j].z], live[j].i)
  }

  // ------------------------------------------------------------------ pages taken and given back

  /** The table entries of a zone: each page says how far it is from the first. */
  function TableZone(usage: seq<Usage>, at: nat, n: nat): (r: seq<Usage>)
    requires at + n <= |usage|
    ensures |r| == |usage| && forall p :: 0 <= p < |usage| ==>
        r[p] == if at <= p < at + n then Usage(SmallPage, p - at) else usage[p]
  {
    if n == 0 then usage else TableZone(usage, at, n - 1)[at + n - 1 := Usage(SmallPage, n - 1)]
  }

  /** What an allocation of `n` pages from run `k` finds. */
  lemma Fetched(c: Config, s: State, g: Book, k: nat, n: nat)
    requires c.zonePages > 0 && Paged(c, s, g) && k < |s.pages| && 0 < n <= s.pages[k].n
    ensures var at := s.pages[k].at;
            && Held(c, g, at, n, Nobody) && at !in g.big && at !in s.zones && at + n <= |g.owner| == |s.usage|
            && Tidy(Cut(s.pages, k, n), |g.owner|)
            && (forall p: nat :: !(at <= p < at + n) ==> (Has(Cut(s.pages, k, n), p) <==> Has(s.pages, p)))
            && (forall p :: at <= p < at + n ==> !Has(Cut(s.pages, k, n), p))
  {
    hide Cut, Tidy;
    CutTakes(s.pages, |g.owner|, k, n);
    var at := s.pages[k].at;
    forall p | at <= p < at + n
      ensures g.owner[p] == Nobody && !Has(Cut(s.pages, k, n), p)
    {
      assert In(p, Pages(at, n));
    }
    hide Has;
    assert g.owner[at] == Nobody;
    if at in g.big {
      RunStart(c, s, g, at);
    } else if at in s.zones {
      ZoneStart(c, s, g, at);
    }
  }

  /** A run starts at a page that it owns. */
  lemma RunStart(c: Config, s: State, g: Book, a: nat)
    requires Paged(c, s, g) && a in g.big
    ensures a < |g.owner| && g.owner[a] == InRun(a)
  {
    assert RunPages(s.usage, g.owner, a, g.big[a]);
  }

  /** A zone starts at a page that it owns. */
  lemma ZoneStart(c: Config, s: State, g: Book, z: nat)
    requires c.zonePages > 0 && Paged(c, s, g) && z in s.zones
    ensures z < |g.owner| && g.owner[z] == InZone(z)
  {
    assert ZonePages(c, s.usage, g.owner, z);
  }

  lemma RunPaged(c: Config, s: State, g: Book, s': State, g': Book, k: nat, n: nat)
    requires c.zonePages > 0 && Paged(c, s, g) && k < |s.pages| && 0 < n <= s.pages[k].n
    requires var at := s.pages[k].at;
             && at + n <= |g.owner| == |s.usage| && s'.pages == Cut(s.pages, k, n) && s'.zones == s.zones
             && s'.usage == s.usage[at := Usage(LargePage, n)]
             && g'.big == g.big[at := n] && g'.owner == Fill(g.owner, at, n, InRun(at))
    ensures Paged(c, s', g')
  {
    hide Paged, Has, Tidy, Cut;
    var at := s.pages[k].at;
    Fetched(c, s, g, k, n);
    Repaged(c, s, g, s', g', at, n, Nobody, InRun(at));
  }

  lemma ZonePaged(c: Config, s: State, g: Book, s': State, g': Book, k: nat)
    requires c.zonePages > 0 && Paged(c, s, g) && k < |s.pages| && c.zonePages <= s.pages[k].n
    requires var at := s.pages[k].at;
             && at + c.zonePages <= |g.owner| == |s.usage| && s'.pages == Cut(s.pages, k, c.zonePages)
             && s'.zones.Keys == s.zones.Keys + {at}
             && s'.usage == TableZone(s.usage, at, c.zonePages)
             && g'.big == g.big && g'.owner == Fill(g.owner, at, c.zonePages, InZone(at))
    ensures Paged(c, s', g')
  {
    hide Paged, Has, Tidy, Cut;
    var at := s.pages[k].at;
    Fetched(c, s, g, k, c.zonePages);
    Repaged(c, s, g, s', g', at, c.zonePages, Nobody, InZone(at));
  }

  /** Pages given back were not free. */
  lemma NotFree(c: Config, s: State, g: Book, at: nat, n: nat, o: Owner)
    requires Paged(c, s, g) && Held(c, g, at, n, o) && o != Nobody
    ensures Outside(s.pages, |g.owner|, Pages(at, n))
  {
    hide Has, Tidy;
    forall p: nat | In(p, Pages(at, n))
      ensures !Has(s.pages, p)
    {
      assert g.owner[p] == o;
    }
  }

  lemma AddsElse(list: seq<Pages>, at: nat, n: nat, t: seq<Pages>)
    requires Adds(list, Pages(at, n), t)
    ensures forall p: nat :: !(at <= p < at + n) ==> (Has(t, p) <==> Has(list, p))
    ensures forall p :: at <= p < at + n ==> Has(t, p)
  {
    hide Has;
    forall p: nat
      ensures !(at <= p < at + n) ==> (Has(t, p) <==> Has(list, p))
      ensures at <= p < at + n ==> Has(t, p)
    {
      assert Has(t, p) <==> Has(list, p) || In(p, Pages(at, n));
    }
  }

  lemma GivenBack(c: Config, s: State, g: Book, s': State, g': Book, at: nat, n: nat, o: Owner)
    requires c.zonePages > 0 && Paged(c, s, g) && Held(c, g, at, n, o) && o != Nobody
    requires Tidy(s'.pages, |g.owner|) && Adds(s.pages, Pages(at, n), s'.pages)
    requires |s'.usage| == |s.usage| == |g.owner| && forall p :: 0 <= p < |s.usage| && !(at <= p < at + n) ==>
        s'.usage[p] == s.usage[p]
    requires s'.zones.Keys == s.zones.Keys - ZoneKey(o)
    requires g'.big == g.big - RunKey(o) && g'.owner == Fill(g.owner, at, n, Nobody)
    ensures Paged(c, s', g')
  {
    hide Paged, Has, Tidy, Adds;
    AddsElse(s.pages, at, n, s'.pages);
    Repaged(c, s, g, s', g', at, n, o, Nobody);
  }

  const NO_ZONE: Zone := Zone(0, 0, 0, 0, 0, 0, [])

  lemma EmptyDistinct()
    ensures Distinct([])
  {
  }

  lemma AliveBook(zones: map<nat, Zone>, g: Book, g': Book)
    requires Alive(zones, g) && g'.live == g.live && g'.big == g.big
    ensures Alive(zones, g')
  {
  }

  lemma ZoneFits(c: Config, s: State, g: Book, zp: nat)
    requires Good(c) && Paged(c, s, g) && zp in s.zones
    ensures PageAt(c, zp) + c.header <= PageAt(c, |g.owner|)
  {
    assert ZonePages(c, s.usage, g.owner, zp);
    Distribute(zp, c.zonePages, c.page);
    Scaled(zp + c.zonePages, |g.owner|, c.page);
  }

  lemma InClass(zones: map<nat, Zone>, arrays: seq<seq<nat>>, spare: seq<nat>, q: nat, z: nat)
    requires Listed(zones, arrays, spare) && q < |arrays| && z in arrays[q]
    ensures z in zones
  {
  }

  lemma TableOwned(owner: seq<Owner>, table: nat, p: nat)
    requires Tabled(owner, table) && p < table
    ensures p < |owner| && owner[p] == Table
  {
  }

  lemma HeadFree(c: Config, s: State, g: Book, i: nat)
    requires Paged(c, s, g) && i < |s.pages|
    ensures s.pages[i].at < |g.owner| && g.owner[s.pages[i].at] == Nobody
  {
    assert In(s.pages[i].at, s.pages[i]);
    assert Has(s.pages, s.pages[i].at);
  }

  // ------------------------------------------------------------------ the allocator

  class Slab {
    const c: Config
    /** How many pages, from the first on, the page table takes. */
    const table: nat
    var pages: seq<Pages>
    var usage: seq<Usage>
    var zones: map<nat, Zone>
    var arrays: seq<seq<nat>>
    var spare: seq<nat>
    var used: int
    var max: int
    /** The memory from the start of the heap. */
    var bytes: seq<Byte>
    ghost var book: Book

    /** `rt_slab_init` once the heap is aligned to pages: the table takes the first `table` of them; its entries say
        nothing yet. */
    constructor (config: Config, total: nat, table: nat, entries: seq<Usage>, memory: seq<Byte>)
      requires Good(config) && 0 < table <= total && |entries| == total && |memory| == total * config.page
      ensures Valid() && c == config && this.table == table && book.live == [] && used == 0 && max == 0
      ensures forall p: nat :: Has(pages, p) <==> table <= p < total
    {
      c := config;
      this.table := table;
      pages := if table < total then [Pages(table, total - table)] else [];
      usage := entries;
      zones, spare, used, max, bytes := map[], [], 0, 0, memory;
      arrays := seq(NZONES, i => []);
      book := Book([], map[], Fill(seq(total, i => Nobody), 0, table, Table));
      new;
      FreshPages(pages, table, total);
    }

    ghost function View(): State
      reads this
    {
      State(pages, usage, zones, arrays, spare, used, max)
    }

    ghost predicate Valid()
      reads this
    {
      Good(c) && Fine(c, View(), book) && Tabled(book.owner, table) && used <= max && Backed(c, bytes, book.owner)
    }

    /** What the writes below need. */
    ghost predicate Mapped()
      reads this
    {
      && Good(c) && Paged(c, View(), book) && Zoned(c, zones) && Alive(zones, book) && Tabled(book.owner, table)
      && Backed(c, bytes, book.owner)
    }

    /** Something is written between two places where nothing is live. */
    method Write(lo: nat, hi: nat)
      requires Mapped() && lo <= hi <= |bytes| && Clear(c, zones, book.live, lo, hi)
      modifies `bytes
      ensures Mapped() && Kept(c, zones, book.live, old(bytes), bytes)
    {
      LiveInMemory(c, View(), book);
      hide Paged, Zoned, Alive, Tabled, Clear, InMemory, Kept, Backed;
      assert |seq(hi - lo, j => 0 as Byte)| == hi - lo;
      var image: seq<Byte> :| |image| == hi - lo;
      ghost var before := bytes;
      bytes := bytes[..lo] + image + bytes[hi..];
      WrittenClear(c, zones, book.live, lo, hi, before, bytes);
      BackedStill(c, before, book.owner, bytes, book.owner);
    }

    /** The header of a zone is written. */
    method WriteHeader(zp: nat)
      requires Mapped() && zp in zones
      modifies `bytes
      ensures Mapped() && Kept(c, zones, book.live, old(bytes), bytes)
    {
      hide Good, Paged, Zoned, Alive, Tabled, Clear, Kept, PageAt;
      HeaderClear(c, View(), book, zp);
      BackedIs(c, bytes, book.owner);
      Write(PageAt(c, zp), PageAt(c, zp) + c.header);
    }

    /** The link of a free chunk is written. */
    method WriteLink(zp: nat, x: nat)
      requires Mapped() && zp in zones && x in zones[zp].free
      modifies `bytes
      ensures Mapped() && Kept(c, zones, book.live, old(bytes), bytes)
    {
      hide Good, Paged, Zoned, Alive, Tabled, Clear, Kept, PageAt;
      ChunkClear(c, View(), book, zp, x);
      BackedIs(c, bytes, book.owner);
      Write(x, x + zones[zp].chunk);
    }

    /** A page that is free or the table's is written. */
    method WritePage(p: nat)
      requires Mapped() && p < |book.owner| && (book.owner[p] == Nobody || book.owner[p] == Table)
      modifies `bytes
      ensures Mapped() && Kept(c, zones, book.live, old(bytes), bytes)
    {
      hide Good, Paged, Zoned, Alive, Tabled, Clear, Kept, PageAt;
      PageClear(c, View(), book, p);
      BackedIs(c, bytes, book.owner);
      Write(PageAt(c, p), PageAt(c, p + 1));
    }

    /** The page table and the nodes at the heads of free runs are written. */
    method WritePages()
      requires Mapped()
      modifies `bytes
      ensures Mapped() && Kept(c, zones, book.live, old(bytes), bytes)
    {
      LiveInMemory(c, View(), book);
      KeptSame(c, zones, book.live, bytes);
      hide Paged, Zoned, Alive, Tabled, InMemory, Kept, Backed;
      for p := 0 to table
        invariant Mapped() && Kept(c, zones, book.live, old(bytes), bytes)
      {
        TableOwned(book.owner, table, p);
        ghost var between := bytes;
        WritePage(p);
        KeptTwice(c, zones, book.live, old(bytes), between, bytes);
      }
      for i := 0 to |pages|
        invariant Mapped() && Kept(c, zones, book.live, old(bytes), bytes)
      {
        HeadFree(c, View(), book, i);
        ghost var between := bytes;
        WritePage(pages[i].at);
        KeptTwice(c, zones, book.live, old(bytes), between, bytes);
      }
    }

    /** `rt_slab_page_alloc`: the first run with `n` pages or more gives them from its start. */
    method PageAlloc(n: nat) returns (r: Option<nat>)
      modifies `pages
      ensures var k := FirstBig(old(pages), n, 0);
              if n == 0 || k == |old(pages)| then r == None && pages == old(pages)
              else r == Some(old(pages)[k].at) && pages == Cut(old(pages), k, n)
    {
      if n == 0 {
        return None;
      }
      for i := 0 to |pages|
        invariant pages == old(pages) && forall j :: 0 <= j < i ==> pages[j].n < n
      {
        var b := pages[i];
        if b.n > n {
          BigIs(pages, n, i);
          pages := pages[i := Pages(b.at + n, b.n - n)];
          return Some(b.at);
        }
        if b.n == n {
          BigIs(pages, n, i);
          pages := pages[..i] + pages[i + 1..];
          return Some(b.at);
        }
      }
      return None;
    }

    /** `rt_slab_page_free`: the pages join the run before, the run behind, or both, or become a run in their place. */
    method PageFree(at: nat, n: nat, ghost total: nat)
      requires Tidy(pages, total) && Outside(pages, total, Pages(at, n))
      modifies `pages
      ensures Tidy(pages, total) && Adds(old(pages), Pages(at, n), pages)
    {
      hide Tidy, Adds, Patched, Has;
      ghost var list, run := pages, Pages(at, n);
      var i := 0;
      while i < |pages|
        invariant i <= |pages| && pages == list && forall j :: 0 <= j < i ==> list[j].at + list[j].n < at
      {
        var b := pages[i];
        Beside(list, total, run, i);
        if b.at + b.n == at {
          if i + 1 < |pages| && b.at + b.n + n == pages[i + 1].at {
            var whole := Pages(b.at, b.n + n + pages[i + 1].n);
            JoinBoth(list, total, i, run);
            pages := pages[..i] + [whole] + pages[i + 2..];
            PatchedIs(list, i, i + 2, whole);
          } else {
            var whole := Pages(b.at, b.n + n);
            JoinBefore(list, total, i, run);
            pages := pages[..i] + [whole] + pages[i + 1..];
            PatchedIs(list, i, i + 1, whole);
          }
          return;
        }
        if b.at == at + n {
          var whole := Pages(at, b.n + n);
          JoinBehind(list, total, i, run);
          pages := pages[..i] + [whole] + pages[i + 1..];
          PatchedIs(list, i, i + 1, whole);
          return;
        }
        if b.at > at + n {
          break;
        }
        i := i + 1;
      }
      JoinNone(list, total, i, run);
      pages := pages[..i] + [Pages(at, n)] + pages[i..];
    }

    /** `rt_slab_alloc` for a size from the limit on. */
    method AllocLarge(size: nat) returns (r: Option<nat>, ghost a: Alloc)
      requires Valid() && size >= c.limit
      modifies this
      ensures Valid() && bytes == old(bytes)
      ensures r == None <==> PagesFor(c, size) == 0 || FirstBig(old(pages), PagesFor(c, size), 0) == |old(pages)|
      ensures r == None ==> View() == old(View()) && book == old(book)
      ensures r != None ==> a.Large? && r == Some(a.at * c.page)
      // the least number of pages that hold the request, from the first run that has them
      ensures r != None ==> (a.n - 1) * c.page < size <= a.n * c.page && used == old(used) + a.n * c.page
      ensures r != None ==>
        exists k :: 0 <= k < |old(pages)| && a.at == old(pages)[k].at && size <= old(pages)[k].n * c.page
                    && forall i :: 0 <= i < k ==> old(pages)[i].n * c.page < size
      ensures r != None ==> max == if used > old(max) then used else old(max)
      ensures r != None ==> book.live == old(book.live) + [a] && StayPut(c, old(zones), zones, old(book.live))
    {
      hide Tabled, Paged, Zoned, Listed, Lean, Alive, Total, Held, Cut, LiveAt;
      ghost var s, g := View(), book;
      var n := PagesFor(c, size);
      a := Large(0, 0);
      var b := PageAlloc(n);
      if b == None {
        return None, a;
      }
      var at := b.value;
      ghost var k := FirstBig(s.pages, n, 0);
      Fetched(c, s, g, k, n);
      usage := usage[at := Usage(LargePage, n)];
      used := used + n * c.page;
      if used > max {
        max := used;
      }
      a := Large(at, n);
      book := Book(g.live + [a], g.big[at := n], Fill(g.owner, at, n, InRun(at)));
      RunPaged(c, s, g, View(), book, k, n);
      TabledStill(c, g, at, n, Nobody, InRun(at), table);
      AliveRun(zones, g, at, n, book.owner);
      TotalMore(c, g.live, a);
      PagesHold(c, size);
      PagesLeast(c, size, 0);
      forall i | 0 <= i <= k ensures s.pages[i].n >= n <==> s.pages[i].n * c.page >= size {
        PagesLeast(c, size, s.pages[i].n);
      }
      Unmoved(c, zones, g);
      return Some(at * c.page), a;
    }

    /** `rt_slab_alloc` from the first zone of a class: a chunk never used before, or the one freed last. */
    method TakeChunk(zi: nat) returns (r: nat, ghost a: Alloc)
      requires Valid() && zi < NZONES && zi < |arrays| && arrays[zi] != []
      modifies this
      ensures Valid() && a.Chunk? && a.size == ChunkSize(zi) && a.z in zones && r == ChunkAt(zones[a.z], a.i)
      ensures a.z == old(arrays)[zi][0] && bytes == old(bytes) && a.z in old(zones)
      ensures var z := old(zones)[a.z];
              && (z.uindex + 1 != z.nmax ==> a.i == z.uindex + 1)
              && (z.uindex + 1 == z.nmax ==> z.free != [] && r == z.free[0] && zones[a.z].free == z.free[1..])
      ensures used == old(used) + a.size && max == if used > old(max) then used else old(max)
      ensures book.live == old(book.live) + [a] && StayPut(c, old(zones), zones, old(book.live))
    {
      hide Backed, Tabled, Paged, Zoned, Listed, Lean, Alive, Total, LiveAt, ZoneOk, ChunkAt, ChunkSize;
      ghost var s, g := View(), book;
      HeadZone(c, zones, arrays, spare, zi);
      var zp := arrays[zi][0];
      var z := zones[zp];
      ghost var i := TakeOk(c, zp, z);
      WholeFree(c, zp, z);
      ghost var z' := TakeFrom(z).0;
      SameChunks(z, z', i);
      ListedTake(zones, arrays, spare, zi, z');
      AliveTake(zones, g, zp, z', i);
      ZonedWith(c, zones, zp, z');
      if z.nfree - 1 == 0 {
        arrays := arrays[zi := arrays[zi][1..]];
      }
      if z.uindex + 1 != z.nmax {
        zones := zones[zp := z.(nfree := z.nfree - 1, uindex := z.uindex + 1)];
        r := ChunkAt(z, z.uindex + 1);
      } else {
        r := z.free[0];
        zones := zones[zp := z.(nfree := z.nfree - 1, free := z.free[1..])];
      }
      used := used + z.chunk;
      if used > max {
        max := used;
      }
      a := Chunk(zp, i, z.chunk);
      book := g.(live := g.live + [a]);
      PagedSame(c, s, g, View(), book);
      TotalMore(c, g.live, a);
      UnmovedBut(c, s.zones, g, zp, z');
    }

    /** A zone to build anew: the one set aside last, else one from fresh pages, entered in the page table. */
    method FetchZone() returns (r: Option<nat>)
      requires Valid()
      modifies `pages, `usage, `spare, `book
      ensures r == None <==> old(spare) == [] && FirstBig(old(pages), c.zonePages, 0) == |old(pages)|
      ensures r == None ==> View() == old(View()) && book == old(book)
      ensures |book.owner| == |old(book.owner)|
      // a zone set aside goes before fresh pages
      ensures old(spare) != [] ==> r == Some(old(spare)[0]) && spare == old(spare)[1..] && pages == old(pages)
      ensures old(spare) == [] ==> spare == []
      ensures r != None ==>
        && Tabled(book.owner, table) && Deserted(book, r.value) && book.live == old(book.live) &&
            book.big == old(book.big)
        && (r.value in zones ==> r.value in old(spare)) && |spare| <= |old(spare)|
        && Distinct(spare) && (forall x :: x in spare <==> x in old(spare) && x != r.value)
        && Paged(c, View().(zones := zones[r.value := NO_ZONE]), book)
    {
      hide Tabled, Paged, Zoned, Listed, Lean, Alive, Total, LiveAt, ZoneOk, Cut, Held, Whole, Distinct, FirstBig;
      ghost var s, g := View(), book;
      if spare != [] {
        SpareZone(c, zones, arrays, spare, g);
        r := Some(spare[0]);
        spare := spare[1..];
        PagedSame(c, s, g, View().(zones := zones[r.value := NO_ZONE]), g);
        return;
      }
      r := PageAlloc(c.zonePages);
      if r == None {
        return;
      }
      var zp := r.value;
      ghost var k := FirstBig(s.pages, c.zonePages, 0);
      Fetched(c, s, g, k, c.zonePages);
      FreshDeserted(c, zones, g, zp);
      EmptyDistinct();
      MarkPages(zp);
      book := g.(owner := Fill(g.owner, zp, c.zonePages, InZone(zp)));
      TabledStill(c, g, zp, c.zonePages, Nobody, InZone(zp), table);
      ZonePaged(c, s, g, View().(zones := zones[zp := NO_ZONE]), book, k);
    }

    /** Enters the pages of a zone in the page table. */
    method MarkPages(zp: nat)
      requires zp + c.zonePages <= |usage|
      modifies `usage
      ensures usage == TableZone(old(usage), zp, c.zonePages)
    {
      for off := 0 to c.zonePages
        invariant |usage| == |old(usage)| && usage == TableZone(old(usage), zp, off)
      {
        usage := usage[zp + off := Usage(SmallPage, off)];
      }
    }

    /** `rt_slab_alloc` when no zone of the class has room. */
    method NewZone(zi: nat) returns (r: Option<nat>, zp: nat, ghost a: Alloc)
      requires Valid() && zi < NZONES && zi < |arrays| && arrays[zi] == [] && ChunkSize(zi) <= c.limit
      modifies this
      ensures Valid() && bytes == old(bytes)
      ensures r == None <==> old(spare) == [] && FirstBig(old(pages), c.zonePages, 0) == |old(pages)|
      ensures r == None ==> View() == old(View()) && book == old(book)
      ensures r != None ==>
        && a.Chunk? && a.size == ChunkSize(zi) && a.z == zp && a.z in zones && r == Some(ChunkAt(zones[a.z], a.i))
        && book.live == old(book.live) + [a] && StayPut(c, old(zones), zones, old(book.live))
      ensures r != None ==> used == old(used) + a.size && max == if used > old(max) then used else old(max)
      ensures r != None ==> if old(spare) != [] then zp == old(spare)[0] && spare == old(spare)[1..] else spare == []
    {
      hide Tabled, Paged, Zoned, Listed, Lean, Alive, Total, LiveAt, ZoneOk, ChunkAt, ChunkSize, Built, Deserted,
          StayPut, FirstBig;
      ghost var s, g := View(), book;
      a, zp := Chunk(0, 0, 0), 0;
      r := FetchZone();
      if r == None {
        return;
      }
      zp := r.value;
      BuiltOk(c, zp, zi);
      var z := Built(c, zp, zi, ChunkSize(zi));
      ListedNew(s.zones, s.arrays, s.spare, spare, zi, zp, z);
      LeanNew(s.zones, s.arrays, s.spare, spare, zi, zp, z);
      AliveBook(s.zones, g, book);
      AliveNew(s.zones, book, zp, z);
      ZonedWith(c, s.zones, zp, z);
      UnmovedNew(c, s.zones, book, zp, z);
      TotalMore(c, g.live, Chunk(zp, 0, z.chunk));
      ghost var mid, b := View().(zones := zones[zp := NO_ZONE]), book;
      zones := zones[zp := z];
      arrays := arrays[zi := [zp]];
      used := used + z.chunk;
      if used > max {
        max := used;
      }
      a := Chunk(zp, 0, z.chunk);
      book := b.(live := b.live + [a]);
      PagedSame(c, mid, b, View(), book);
      r := Some(ChunkAt(z, 0));
    }

    /** `rt_slab_alloc`. */
    method Alloc(size: nat) returns (r: Option<nat>, ghost a: Alloc)
      requires Valid()
      modifies this
      ensures Valid()
      ensures r == None <==> size == 0 || Starved(c, old(View()), size)
      // a large request fails if rounding it wraps or no run of pages holds it,
      // and else takes the least number of pages
      ensures size >= c.limit ==>
        (r == None <==>
          size + c.page - 1 >= c.word || forall i :: 0 <= i < |old(pages)| ==> old(pages)[i].n * c.page < size)
      ensures r != None && size >= c.limit ==> a.Large? && (a.n - 1) * c.page < size <= a.n * c.page
      ensures r != None ==> used == old(used) + Size(c, a) && max == if used > old(max) then used else old(max)
      ensures r == None ==> View() == old(View()) && book == old(book) && bytes == old(bytes)
      ensures r != None ==> Kept(c, zones, old(book.live), old(bytes), bytes)
      ensures r != None ==> Granted(c, old(View()), old(book), View(), book, size, r.value, a)
    {
      hide Backed, Tabled, Paged, Zoned, Listed, Lean, Alive, Total, LiveAt, StayPut, FirstBig, ChunkAt, ZoneIndex,
          ChunkSize, PagesFor, Kept, Built;
      a := Large(0, 0);
      if size == 0 {
        return None, a;
      }
      ArraysSize(zones, arrays, spare);
      StarvedIs(c, View(), size);
      if size >= c.limit {
        r, a := AllocLarge(size);
        if r != None {
          WritePages();
          KeptFewer(c, zones, book.live, old(book.live), old(bytes), bytes);
        }
        return;
      }
      ClassLimit(size, c.limit);
      ClassHolds(size);
      var zi := ZoneIndex(size).0;
      if arrays[zi] != [] {
        var zp := arrays[zi][0];
        var x;
        x, a := TakeChunk(zi);
        WriteHeader(zp);
        KeptFewer(c, zones, book.live, old(book.live), old(bytes), bytes);
        return Some(x), a;
      }
      var zp;
      r, zp, a := NewZone(zi);
      if r != None {
        WritePages();
        ghost var between := bytes;
        WriteHeader(zp);
        KeptTwice(c, zones, book.live, old(bytes), between, bytes);
        KeptFewer(c, zones, book.live, old(book.live), old(bytes), bytes);
      }
    }

    /** The pointer is that of live allocation `j`. */
    ghost predicate PointsTo(x: nat, j: nat)
      reads this
    {
      && j < |book.live| && (book.live[j].Chunk? ==> book.live[j].z in zones)
      && x == Address(c, zones, book.live[j])
    }

    /** `rt_slab_free`. */
    method Free(ptr: Option<nat>, ghost j: nat)
      requires Valid() && (ptr != None ==> PointsTo(ptr.value, j))
      modifies this
      ensures Valid() && max == old(max)
      ensures ptr == None ==> View() == old(View()) && book == old(book) && bytes == old(bytes)
      ensures ptr != None ==> Kept(c, zones, book.live, old(bytes), bytes)
      ensures ptr != None ==> book.live == Dropped(old(book.live), j) && StayPut(c, old(zones), zones, book.live)
    {
      hide Backed, Tabled, Paged, Zoned, Listed, Lean, Alive, Total, LiveAt, StayPut, ChunkAt, Dropped, Kept;
      if ptr == None {
        return;
      }
      ghost var a := book.live[j];
      LiveOne(zones, book, j);
      QuotientOn(c, ptr.value);
      PointerFound(c, View(), book, a, ptr.value / c.page);
      var page := ptr.value / c.page;
      var kup := usage[page];
      if kup.kind == LargePage {
        FreeLarge(page, kup.size, j);
        WritePages();
      } else {
        FreeChunk(page - kup.size, ptr.value, j);
        ghost var between := bytes;
        WritePages();
        KeptTwice(c, zones, book.live, old(bytes), between, bytes);
      }
    }

    /** `rt_slab_free` on a run of pages. */
    method FreeLarge(at: nat, n: nat, ghost j: nat)
      requires Valid() && j < |book.live| && book.live[j] == Large(at, n)
      modifies this
      ensures Valid() && max == old(max) && bytes == old(bytes)
      ensures book.live == Dropped(old(book.live), j) && StayPut(c, old(zones), zones, book.live)
      ensures at < |old(usage)| && usage == old(usage)[at := old(usage)[at].(size := 0)]
    {
      hide Tabled, Paged, Zoned, Listed, Lean, Alive, Total, LiveAt, StayPut, Dropped, Held, Has, Tidy, Adds, Outside;
      ghost var s, g := View(), book;
      LiveOne(zones, g, j);
      RunHeld(c, s, g, g.live[j]);
      NotFree(c, s, g, at, n, InRun(at));
      usage := usage[at := usage[at].(size := 0)];
      used := used - n * c.page;
      PagedTidy(c, s, g);
      PageFree(at, n, |g.owner|);
      book := Book(Dropped(g.live, j), g.big - {at}, Fill(g.owner, at, n, Nobody));
      TotalLess(c, g.live, j);
      AliveUnrun(zones, g, j, book.owner);
      TabledStill(c, g, at, n, InRun(at), Nobody, table);
      GivenBack(c, s, g, View(), book, at, n, InRun(at));
      Unmoved(c, zones, book);
    }

    /** Everything but that zone `zp` may be wholly free beside another of its class. */
    ghost predicate Almost(zp: nat)
      reads this
    {
      && Good(c) && Paged(c, View(), book) && Tabled(book.owner, table)
      && Zoned(c, zones) && Listed(zones, arrays, spare) && LeanBut(zones, arrays, spare, zp)
      && Backed(c, bytes, book.owner)
      && Alive(zones, book) && used == Total(c, book.live) && used <= max
      && zp in zones && zones[zp].index < |arrays| && zp in arrays[zones[zp].index]
    }

    /** `rt_slab_free` on a chunk of zone `zp`. */
    method FreeChunk(zp: nat, x: nat, ghost j: nat)
      requires Valid() && PointsTo(x, j) && book.live[j].Chunk? && book.live[j].z == zp
      modifies this
      ensures Valid() && max == old(max) && Kept(c, zones, book.live, old(bytes), bytes)
      ensures book.live == Dropped(old(book.live), j) && StayPut(c, old(zones), zones, book.live)
      ensures zp in old(zones) && old(zones)[zp].index < |old(arrays)|
      ensures used == old(used) - old(zones)[zp].chunk
      // the chunk is the first on the list of its zone, a zone that had none free the first in its class, and one that
      // is wholly free and not alone there is set aside, or given up if two are already
      ensures var z := old(zones)[zp];
              zp in zones ==> zones[zp] == z.(nfree := z.nfree + 1, free := [x] + z.free)
      ensures var z := old(zones)[zp];
              var list := if z.nfree == 0 then [zp] + old(arrays)[z.index] else old(arrays)[z.index];
              if z.nfree + 1 == z.nmax && |list| > 1 then
                && arrays == old(arrays)[z.index := Without(list, zp)]
                && (|old(spare)| < 2 ==> spare == [zp] + old(spare) && zp in zones && pages == old(pages))
                && (|old(spare)| >= 2 ==> spare == old(spare) && zp !in zones)
              else arrays == old(arrays)[z.index := list] && spare == old(spare) && zp in zones && pages == old(pages)
    {
      hide Backed, Tabled, Paged, Zoned, Listed, Lean, LeanBut, Alive, Total, LiveAt, StayPut, ChunkAt, Dropped,
        ZoneOk, Whole,
          Kept;
      ghost var s, g := View(), book;
      ghost var a := g.live[j];
      LiveChunk(c, zones, g, j);
      ghost var z' := PutBack(zones[zp], x);
      PutOk(c, zp, zones[zp], a.i);
      ListedPut(zones, arrays, spare, zp, z');
      AlivePut(c, zones, g, j);
      ZonedWith(c, zones, zp, z');
      TotalLess(c, g.live, j);
      DroppedStays(c, zones, g, j, zp, z');
      ArraysSize(zones, arrays, spare);
      var z := zones[zp];
      zones := zones[zp := z.(nfree := z.nfree + 1, free := [x] + z.free)];
      used := used - z.chunk;
      if z.nfree == 0 {
        arrays := arrays[z.index := [zp] + arrays[z.index]];
      }
      book := g.(live := Dropped(g.live, j));
      PagedSame(c, s, g, View(), book);
      ghost var before := zones;
      WriteLink(zp, x);
      ghost var linked := bytes;
      WriteHeader(zp);
      KeptTwice(c, zones, book.live, old(bytes), linked, bytes);
      ghost var written := bytes;
      SetAside(zp);
      StayTwice(c, s.zones, before, zones, book.live);
      KeptMoved(c, before, zones, book.live, old(bytes), written);
      KeptTwice(c, zones, book.live, old(bytes), written, bytes);
    }

    /** The end of `rt_slab_free`: a wholly free zone that is not alone in its class is set aside, and given up if
        two are already. */
    method SetAside(zp: nat)
      requires Almost(zp)
      modifies this
      ensures Valid() && max == old(max) && used == old(used) && Kept(c, zones, book.live, old(bytes), bytes)
      ensures book.live == old(book.live) && StayPut(c, old(zones), zones, book.live)
      ensures zp in old(zones) && old(zones)[zp].index < |old(arrays)|
      ensures var q, list := old(zones)[zp].index, old(arrays)[old(zones)[zp].index];
              if old(zones)[zp].nfree == old(zones)[zp].nmax && |list| > 1 then
                && arrays == old(arrays)[q := Without(list, zp)]
                && (|old(spare)| < 2 ==> spare == [zp] + old(spare) && zones == old(zones) && pages == old(pages))
                && (|old(spare)| >= 2 ==> spare == old(spare) && zones == old(zones) - {zp})
              else arrays == old(arrays) && spare == old(spare) && zones == old(zones) && pages == old(pages)
    {
      hide Backed, Tabled, Paged, Zoned, Listed, Lean, LeanBut, Alive, Total, LiveAt, StayPut, ZoneOk, Whole, Without,
        Kept,
          InMemory;
      ghost var s := View();
      LiveInMemory(c, View(), book);
      BackedIs(c, bytes, book.owner);
      KeptSame(c, zones, book.live, bytes);
      Unmoved(c, zones, book);
      var z := zones[zp];
      ArraysSize(zones, arrays, spare);
      var list := arrays[z.index];
      WholeIs(zones, zp);
      if z.nfree == z.nmax && |list| > 1 {
        ListedAside(zones, arrays, spare, z.index, zp);
        var i := Search(list, zp);
        if i > 0 {
          InClass(zones, arrays, spare, z.index, list[i - 1]);
          WriteHeader(list[i - 1]);
        }
        ghost var written := bytes;
        WithoutAt(list, i);
        arrays := arrays[z.index := list[..i] + list[i + 1..]];
        spare := [zp] + spare;
        PagedSame(c, s, book, View(), book);
        if |spare| > 2 {
          ghost var before := zones;
          ReleaseZone();
          KeptMoved(c, before, zones, book.live, old(bytes), written);
        }
      } else {
        ListedStays(zones, arrays, spare, z.index, zp);
      }
    }

    /** Where a zone is in its list. */
    method Search(list: seq<nat>, zp: nat) returns (i: nat)
      requires zp in list
      ensures i < |list| && list[i] == zp && zp !in list[..i]
    {
      i := 0;
      while list[i] != zp
        invariant i < |list| && zp !in list[..i]
        decreases |list| - i
      {
        SearchOn(list, zp, i);
        i := i + 1;
      }
    }

    /** Gives the zone set aside last back to the page allocator. */
    method ReleaseZone()
      requires Good(c) && Paged(c, View(), book) && Zoned(c, zones) && Listed(zones, arrays, spare) &&
          Alive(zones, book)
      requires spare != [] && spare[0] in zones && LeanBut(zones, arrays, spare[1..], spare[0])
      requires used == Total(c, book.live) && used <= max && Tabled(book.owner, table)
      requires Backed(c, bytes, book.owner)
      modifies this
      ensures Valid() && max == old(max) && used == old(used) && bytes == old(bytes)
      ensures book.live == old(book.live) && StayPut(c, old(zones), zones, book.live)
      ensures zones == old(zones) - {old(spare)[0]} && spare == old(spare)[1..] && arrays == old(arrays)
    {
      hide Tabled, Paged, Zoned, Listed, Lean, LeanBut, Alive, Total, LiveAt, StayPut, ZoneOk, Whole, Held, Has,
          Tidy, Adds, Outside;
      ghost var s, g := View(), book;
      var zp := spare[0];
      assert spare == [zp] + spare[1..];
      ListedRelease(zones, arrays, spare[1..], zp);
      LeanRelease(zones, arrays, spare[1..], zp);
      SpareZone(c, zones, arrays, spare, g);
      AliveDrop(zones, g, zp);
      ZonedLess(c, zones, zp);
      ZoneHeld(c, s, g, zp);
      NotFree(c, s, g, zp, c.zonePages, InZone(zp));
      PagedTidy(c, s, g);
      UnmovedLess(c, zones, g, zp);
      spare := spare[1..];
      zones := zones - {zp};
      ClearPages(zp);
      PageFree(zp, c.zonePages, |g.owner|);
      book := g.(owner := Fill(g.owner, zp, c.zonePages, Nobody));
      AliveBook(zones, g, book);
      TabledStill(c, g, zp, c.zonePages, InZone(zp), Nobody, table);
      GivenBack(c, s, g, View(), book, zp, c.zonePages, InZone(zp));
    }

    method ClearPages(zp: nat)
      requires zp + c.zonePages <= |usage|
      modifies `usage
      ensures usage == Fill(old(usage), zp, c.zonePages, Usage(FreePage, 0))
    {
      for i := 0 to c.zonePages
        invariant |usage| == |old(usage)|
        invariant forall p :: 0 <= p < |usage| ==>
            usage[p] == if zp <= p < zp + i then Usage(FreePage, 0) else old(usage)[p]
      {
        usage := usage[zp + i := Usage(FreePage, 0)];
      }
    }

    /** `rt_slab_realloc`. */
    method Realloc(ptr: Option<nat>, size: nat, ghost j: nat) returns (r: Option<nat>, ghost a: Alloc)
      requires Valid() && (ptr != None ==> PointsTo(ptr.value, j))
      modifies this
      ensures Valid()
      ensures ptr == None ==>
        && (r == None <==> size == 0 || Starved(c, old(View()), size))
        && (r == None ==> book == old(book) && bytes == old(bytes))
        && (r != None ==> Granted(c, old(View()), old(book), View(), book, size, r.value, a)
                          && Kept(c, zones, old(book.live), old(bytes), bytes))
      ensures ptr != None && size == 0 ==>
        && r == None && book.live == Dropped(old(book.live), j)
        && Kept(c, zones, book.live, old(bytes), bytes)
      ensures ptr != None && size != 0 ==>
        && j < |old(book.live)|
        && (if SameClass(old(book.live)[j], size) then
              r == ptr && View() == old(View()) && book == old(book) && bytes == old(bytes)
            else if Starved(c, old(View()), Rounded(old(book.live)[j], size)) then
              r == None && View() == old(View()) && book == old(book) && bytes == old(bytes)
            else
              && r != None && size <= Size(c, a) && book.live == Dropped(old(book.live), j) + [a]
              && (a.Chunk? ==> a.z in zones) && r.value == Address(c, zones, a)
              && Kept(c, zones, Dropped(old(book.live), j), old(bytes), bytes)
              && Copied(bytes, r.value, old(bytes), ptr.value,
                        Lesser(Rounded(old(book.live)[j], size), Size(c, old(book.live)[j])))
              // the old allocation is given back after the new one is made: the peak counts both
              && max == if old(used) + Size(c, a) > old(max) then old(used) + Size(c, a) else old(max))
    {
      hide Backed, Tabled, Paged, Zoned, Listed, Lean, Alive, Total, LiveAt, StayPut, ChunkAt, Dropped, ZoneIndex,
        Starved,
          Kept, Copied;
      a := Large(0, 0);
      if ptr == None {
        r, a := Alloc(size);
        return;
      }
      if size == 0 {
        Free(ptr, j);
        return None, a;
      }
      ghost var x := book.live[j];
      LiveOne(zones, book, j);
      QuotientOn(c, ptr.value);
      PointerFound(c, View(), book, x, ptr.value / c.page);
      var kup := usage[ptr.value / c.page];
      if kup.kind == LargePage {
        r, a := Replace(ptr.value, size, kup.size * c.page, j);
        return;
      }
      LiveChunk(c, zones, book, j);
      RoundsUp(size);
      var n, z := ZoneIndex(size).1, zones[ptr.value / c.page - kup.size];
      if z.chunk == n {
        return ptr, a;
      }
      r, a := Replace(ptr.value, n, z.chunk, j);
    }

    /** Allocates anew, copies and frees the old. */
    method Replace(ptr: nat, n: nat, osize: nat, ghost j: nat) returns (r: Option<nat>, ghost a: Alloc)
      requires Valid() && PointsTo(ptr, j) && n > 0 && osize == Size(c, book.live[j])
      modifies this
      ensures Valid() && (r == None <==> Starved(c, old(View()), n)) && j < |old(book.live)|
      ensures r == None ==> View() == old(View()) && book == old(book) && bytes == old(bytes)
      ensures r != None ==>
        && n <= Size(c, a) && book.live == Dropped(old(book.live), j) + [a]
        && (a.Chunk? ==> a.z in zones) && r.value == Address(c, zones, a)
        && Kept(c, zones, Dropped(old(book.live), j), old(bytes), bytes)
        && Copied(bytes, r.value, old(bytes), ptr, Lesser(n, osize))
        && max == if old(used) + Size(c, a) > old(max) then old(used) + Size(c, a) else old(max)
    {
      hide Backed, Tabled, Paged, Zoned, Listed, Lean, Alive, Total, LiveAt, StayPut, ChunkAt, Dropped, ZoneIndex,
        Starved,
          Kept, Copied;
      ghost var s, g, image := View(), book, bytes;
      r, a := Alloc(n);
      if r != None {
        ghost var z1, granted := zones, bytes;
        StillThere(c, s.zones, z1, g.live, j);
        DroppedMore(g.live, a, j);
        KeptOne(c, z1, g.live, j, image, granted);
        var m := if n > osize then osize else n;
        assert ptr + m <= |bytes|;
        Copy(r.value, ptr, m);
        ghost var copied := bytes;
        KeptTwice(c, z1, g.live, image, granted, copied);
        CopiedLater(image, granted, ptr, copied, r.value, m, osize);
        Free(Some(ptr), j);
        LastThere(c, z1, zones, book.live);
        KeptFewer(c, z1, g.live, Dropped(g.live, j), image, copied) by { DroppedIn(g.live, j); }
        StayFewer(c, z1, zones, Dropped(g.live, j), a);
        KeptMoved(c, z1, zones, Dropped(g.live, j), image, copied);
        KeptLast(c, zones, Dropped(g.live, j), a, copied, bytes);
        KeptTwice(c, zones, Dropped(g.live, j), image, copied, bytes);
        CopiedOn(copied, bytes, r.value, Size(c, a), image, ptr, m);
      }
    }

    /** `rt_memcpy` into the allocation made last. */
    method Copy(to: nat, from: nat, m: nat)
      requires Valid() && book.live != [] && from + m <= |bytes|
      requires var a := book.live[|book.live| - 1];
               (a.Chunk? ==> a.z in zones) && to == Address(c, zones, a) && m <= Size(c, a)
      modifies `bytes
      ensures Valid() && |bytes| == |old(bytes)|
      ensures Kept(c, zones, book.live[..|book.live| - 1], old(bytes), bytes) && Copied(bytes, to, old(bytes), from, m)
    {
      hide Good, Paged, Zoned, Alive, Tabled, Clear, InMemory, Kept, Copied, Listed, Lean, Total, Address, Size;
      BackedIs(c, bytes, book.owner);
      hide Backed;
      ghost var before, live := bytes, book.live[..|book.live| - 1];
      LastClear(c, View(), book, m);
      LiveInMemory(c, View(), book);
      LastInMemory(c, zones, book.live, |bytes|);
      bytes := bytes[..to] + bytes[from..from + m] + bytes[to + m..];
      CopiedIs(before, to, from, m, bytes);
      BackedStill(c, before, book.owner, bytes, book.owner);
      WrittenClear(c, zones, live, to, to + m, before, bytes);
    }
  }

  // ------------------------------------------------------------------ what a copy leaves

  function Lesser(a: nat, b: nat): (r: nat)
    ensures r <= a && r <= b && r in {a, b}
  {
    if a > b then b else a
  }

  ghost predicate Copied(after: seq<Byte>, to: nat, before: seq<Byte>, from: nat, m: nat) {
    to + m <= |after| && from + m <= |before| && after[to..to + m] == before[from..from + m]
  }

  /** The bytes of the allocation made last are nobody else's. */
  lemma LastClear(c: Config, s: State, g: Book, m: nat)
    requires Good(c) && Fine(c, s, g) && g.live != [] && m <= Size(c, g.live[|g.live| - 1])
    ensures var a := g.live[|g.live| - 1];
            (a.Chunk? ==> a.z in s.zones)
            && Clear(c, s.zones, g.live[..|g.live| - 1], Address(c, s.zones, a), Address(c, s.zones, a) + m)
  {
    var n := |g.live| - 1;
    var a := g.live[n];
    assert LiveAt(s.zones, g.big, a);
    hide Paged, Zoned, Listed, Lean, Total, Address, Size;
    forall j | 0 <= j < n
      ensures ClearOf(c, s.zones, g.live[..n][j], Address(c, s.zones, a), Address(c, s.zones, a) + m)
    {
      NoOverlap(c, s, g, j, n);
    }
  }

  lemma LastInMemory(c: Config, zones: map<nat, Zone>, live: seq<Alloc>, n: nat)
    requires InMemory(c, zones, live, n) && live != []
    ensures InMemory(c, zones, live[..|live| - 1], n)
    ensures var a := live[|live| - 1]; (a.Chunk? ==> a.z in zones) && Address(c, zones, a) + Size(c, a) <= n
  {
    hide Address, Size;
  }

  lemma CopiedIs(before: seq<Byte>, to: nat, from: nat, m: nat, after: seq<Byte>)
    requires to + m <= |before| && from + m <= |before|
    requires after == before[..to] + before[from..from + m] + before[to + m..]
    ensures |after| == |before| && after[..to] == before[..to] && after[to + m..] == before[to + m..]
    ensures Copied(after, to, before, from, m)
  {
  }

  lemma KeptOne(c: Config, zones: map<nat, Zone>, live: seq<Alloc>, j: nat, a: seq<Byte>, b: seq<Byte>)
    requires Kept(c, zones, live, a, b) && j < |live|
    ensures live[j].Chunk? ==> live[j].z in zones
    ensures Copied(b, Address(c, zones, live[j]), a, Address(c, zones, live[j]), Size(c, live[j]))
  {
    assert SameBytes(c, zones, live[j], a, b);
  }

  lemma CopiedLater(a: seq<Byte>, b: seq<Byte>, from: nat, d: seq<Byte>, to: nat, m: nat, n: nat)
    requires Copied(b, from, a, from, n) && m <= n && Copied(d, to, b, from, m)
    ensures Copied(d, to, a, from, m)
  {
    assert b[from..from + m] == b[from..from + n][..m] && a[from..from + m] == a[from..from + n][..m];
  }

  lemma CopiedOn(b: seq<Byte>, d: seq<Byte>, to: nat, n: nat, a: seq<Byte>, from: nat, m: nat)
    requires Copied(d, to, b, to, n) && m <= n && Copied(b, to, a, from, m)
    ensures Copied(d, to, a, from, m)
  {
    assert d[to..to + m] == d[to..to + n][..m] && b[to..to + m] == b[to..to + n][..m];
  }

  lemma DroppedIn(live: seq<Alloc>, j: nat)
    requires j < |live|
    ensures forall k :: 0 <= k < |Dropped(live, j)| ==> Dropped(live, j)[k] in live
  {
  }

  lemma StayFewer(c: Config, zones: map<nat, Zone>, zones': map<nat, Zone>, live: seq<Alloc>, a: Alloc)
    requires StayPut(c, zones, zones', live + [a])
    ensures StayPut(c, zones, zones', live)
  {
    hide ChunkAt;
    forall j | 0 <= j < |live| && live[j].Chunk?
      ensures live[j].z in zones && live[j].z in zones'
      ensures ChunkAt(zones'[live[j].z], live[j].i) == ChunkAt(zones[live[j].z], live[j].i)
    {
      assert (live + [a])[j] == live[j];
    }
  }

  lemma KeptLast(c: Config, zones: map<nat, Zone>, live: seq<Alloc>, a: Alloc, before: seq<Byte>, after: seq<Byte>)
    requires Kept(c, zones, live + [a], before, after)
    ensures Kept(c, zones, live, before, after) && (a.Chunk? ==> a.z in zones)
    ensures Copied(after, Address(c, zones, a), before, Address(c, zones, a), Size(c, a))
  {
    hide Address, Size;
    assert (live + [a])[|live|] == a && SameBytes(c, zones, (live + [a])[|live|], before, after);
    forall j | 0 <= j < |live| ensures SameBytes(c, zones, live[j], before, after) {
      assert (live + [a])[j] == live[j];
    }
  }

  lemma BigIs(list: seq<Pages>, n: nat, i: nat)
    requires i < |list| && list[i].n >= n && forall j :: 0 <= j < i ==> list[j].n < n
    ensures FirstBig(list, n, 0) == i
  {
  }

  lemma PatchedIs(list: seq<Pages>, k: nat, m: nat, run: Pages)
    requires k <= m <= |list|
    ensures Patched(list, k, m, run) == list[..k] + [run] + list[m..]
  {
  }

  lemma JoinBoth(list: seq<Pages>, total: nat, i: nat, run: Pages)
    requires Tidy(list, total) && i + 1 < |list| && run.n > 0
    requires list[i].at + list[i].n == run.at && run.at + run.n == list[i + 1].at
    ensures var t := Patched(list, i, i + 2, Pages(list[i].at, list[i].n + run.n + list[i + 1].n));
            Tidy(t, total) && Adds(list, run, t)
  {
    hide Patched, Adds;
    var whole := Pages(list[i].at, list[i].n + run.n + list[i + 1].n);
    PatchedTidy(list, total, i, i + 2, whole);
    forall p | In(p, whole) && !In(p, run)
      ensures exists j :: i <= j < i + 2 && In(p, list[j])
    {
      assert In(p, list[i]) || In(p, list[i + 1]);
    }
    PatchedAdds(list, i, i + 2, run, whole);
  }

  lemma JoinBefore(list: seq<Pages>, total: nat, i: nat, run: Pages)
    requires Tidy(list, total) && i < |list| && run.n > 0 && Outside(list, total, run)
    requires list[i].at + list[i].n == run.at && (i + 1 < |list| ==> run.at + run.n != list[i + 1].at)
    ensures var t := Patched(list, i, i + 1, Pages(list[i].at, list[i].n + run.n));
            Tidy(t, total) && Adds(list, run, t)
  {
    hide Patched, Adds;
    var whole := Pages(list[i].at, list[i].n + run.n);
    if i + 1 < |list| { Beside(list, total, run, i + 1); }
    PatchedTidy(list, total, i, i + 1, whole);
    forall p | In(p, whole) && !In(p, run)
      ensures exists j :: i <= j < i + 1 && In(p, list[j])
    {
      assert In(p, list[i]);
    }
    PatchedAdds(list, i, i + 1, run, whole);
  }

  lemma JoinBehind(list: seq<Pages>, total: nat, i: nat, run: Pages)
    requires Tidy(list, total) && i < |list| && run.n > 0 && list[i].at == run.at + run.n
    requires forall j :: 0 <= j < i ==> list[j].at + list[j].n < run.at
    ensures var t := Patched(list, i, i + 1, Pages(run.at, list[i].n + run.n));
            Tidy(t, total) && Adds(list, run, t)
  {
    hide Patched, Adds;
    var whole := Pages(run.at, list[i].n + run.n);
    PatchedTidy(list, total, i, i + 1, whole);
    forall p | In(p, whole) && !In(p, run)
      ensures exists j :: i <= j < i + 1 && In(p, list[j])
    {
      assert In(p, list[i]);
    }
    PatchedAdds(list, i, i + 1, run, whole);
  }

  lemma JoinNone(list: seq<Pages>, total: nat, i: nat, run: Pages)
    requires Tidy(list, total) && i <= |list| && run.n > 0 && run.at + run.n <= total
    requires forall j :: 0 <= j < i ==> list[j].at + list[j].n < run.at
    requires i < |list| ==> run.at + run.n < list[i].at
    ensures var t := list[..i] + [run] + list[i..];
            Tidy(t, total) && Adds(list, run, t)
  {
    hide Adds;
    PatchedTidy(list, total, i, i, run);
    PatchedAdds(list, i, i, run, run);
  }

  lemma HeadZone(c: Config, zones: map<nat, Zone>, arrays: seq<seq<nat>>, spare: seq<nat>, zi: nat)
    requires Zoned(c, zones) && Listed(zones, arrays, spare) && zi < NZONES && zi < |arrays| && arrays[zi] != []
    ensures |arrays| == NZONES
    ensures var zp := arrays[zi][0];
            zp in zones && ZoneOk(c, zp, zones[zp]) && zones[zp].nfree > 0 && zones[zp].index == zi &&
                zones[zp].chunk == ChunkSize(zi)
  {
    hide ChunkSize;
    assert arrays[zi][0] in arrays[zi];
    assert ZoneOk(c, arrays[zi][0], zones[arrays[zi][0]]);
  }

  /** The zone set aside last is not in use. */
  lemma SpareZone(c: Config, zones: map<nat, Zone>, arrays: seq<seq<nat>>, spare: seq<nat>, g: Book)
    requires Zoned(c, zones) && Listed(zones, arrays, spare) && Alive(zones, g) && spare != []
    ensures spare[0] in zones && spare[0] in spare && Deserted(g, spare[0])
    ensures Distinct(spare[1..]) && forall x :: x in spare[1..] <==> x in spare && x != spare[0]
  {
    hide Zoned, Alive, Deserted;
    TailMembers(spare);
    assert spare[0] in spare;
    WholeDeserted(c, zones, g, spare[0]);
  }

  lemma FreshDeserted(c: Config, zones: map<nat, Zone>, g: Book, zp: nat)
    requires Alive(zones, g) && zp !in zones
    ensures Deserted(g, zp)
  {
    forall j | 0 <= j < |g.live| && g.live[j].Chunk?
      ensures g.live[j].z != zp
    {
      assert LiveAt(zones, g.big, g.live[j]);
    }
  }

  lemma Unmoved(c: Config, zones: map<nat, Zone>, g: Book)
    requires Alive(zones, g)
    ensures StayPut(c, zones, zones, g.live)
  {
    forall j | 0 <= j < |g.live| && g.live[j].Chunk?
      ensures g.live[j].z in zones
    {
      assert LiveAt(zones, g.big, g.live[j]);
    }
  }

  lemma UnmovedBut(c: Config, zones: map<nat, Zone>, g: Book, zp: nat, z': Zone)
    requires Alive(zones, g) && zp in zones && z'.base == zones[zp].base && z'.chunk == zones[zp].chunk
    ensures StayPut(c, zones, zones[zp := z'], g.live)
  {
    forall j | 0 <= j < |g.live| && g.live[j].Chunk?
      ensures var a := g.live[j];
              a.z in zones && ChunkAt(zones[zp := z'][a.z], a.i) == ChunkAt(zones[a.z], a.i)
    {
      assert LiveAt(zones, g.big, g.live[j]);
      if g.live[j].z == zp {
        SameChunks(zones[zp], z', g.live[j].i);
      }
    }
  }

  lemma UnmovedNew(c: Config, zones: map<nat, Zone>, g: Book, zp: nat, z': Zone)
    requires Alive(zones, g) && Deserted(g, zp)
    ensures StayPut(c, zones, zones[zp := z'], g.live)
  {
    forall j | 0 <= j < |g.live| && g.live[j].Chunk?
      ensures g.live[j].z in zones && g.live[j].z != zp
    {
      assert LiveAt(zones, g.big, g.live[j]);
    }
  }

  /** When an allocation fails: no run of pages is long enough, and for a small request its class and the zones set
      aside are empty too. */
  ghost predicate Starved(c: Config, s: State, size: nat)
    requires Good(c)
  {
    if size >= c.limit then PagesFor(c, size) == 0 || FirstBig(s.pages, PagesFor(c, size), 0) == |s.pages|
    else
      var zi := ZoneIndex(size).0;
      0 <= zi < |s.arrays| && s.arrays[zi] == [] && s.spare == [] && FirstBig(s.pages, c.zonePages, 0) == |s.pages|
  }

  /** A successful allocation adds one to the live ones, large enough and of the right kind, and moves none. */
  ghost predicate Granted(c: Config, s: State, g: Book, s': State, g': Book, size: nat, x: nat, a: Alloc) {
    && g'.live == g.live + [a] && (a.Chunk? ==> a.z in s'.zones) && x == Address(c, s'.zones, a)
    && size <= Size(c, a) && (a.Large? <==> size >= c.limit) && (a.Chunk? ==> a.size == ZoneIndex(size).1)
    && StayPut(c, s.zones, s'.zones, g.live)
  }

  /** The size a small allocation is asked to take on, and whether its chunks are of that size already. */
  function Rounded(a: Alloc, size: nat): nat {
    if a.Chunk? then ZoneIndex(size).1 else size
  }

  predicate SameClass(a: Alloc, size: nat) {
    a.Chunk? && a.size == ZoneIndex(size).1
  }

  /** A chunk is kept exactly if its class is the one with the least chunks that hold the new size. */
  lemma SameClassIs(a: Alloc, size: nat, q: nat)
    requires a.Chunk? && 0 < size < LARGEST && q < NZONES && a.size == ChunkSize(q)
    ensures SameClass(a, size) <==>
      size <= a.size && forall p: nat :: p < NZONES && ChunkSize(p) < a.size ==> ChunkSize(p) < size
  {
    hide ZoneIndex, ChunkSize;
    ClassHolds(size);
    var z := ZoneIndex(size).0;
    if z < q {
      SizesRise(z, q);
    } else if q < z {
      SizesRise(q, z);
      if size <= a.size { ClassLeast(size, q); }
    } else {
      forall p: nat | p < NZONES && ChunkSize(p) < a.size ensures ChunkSize(p) < size {
        if ChunkSize(p) >= size {
          ClassLeast(size, p);
          if z < p { SizesRise(z, p); }
        }
      }
    }
  }

  lemma RoundsUp(size: nat)
    requires size > 0
    ensures ZoneIndex(size).1 >= size
  {
    hide RoundUp;
    if size < LARGEST {
      ClassHolds(size);
    }
  }

  lemma ArraysSize(zones: map<nat, Zone>, arrays: seq<seq<nat>>, spare: seq<nat>)
    requires Listed(zones, arrays, spare)
    ensures |arrays| == NZONES
  {
  }

  lemma LiveOne(zones: map<nat, Zone>, g: Book, j: nat)
    requires Alive(zones, g) && j < |g.live|
    ensures LiveAt(zones, g.big, g.live[j])
  {
    hide LiveAt;
  }

  lemma RunHeld(c: Config, s: State, g: Book, a: Alloc)
    requires Paged(c, s, g) && LiveAt(s.zones, g.big, a) && a.Large?
    ensures Held(c, g, a.at, a.n, InRun(a.at)) && |s.usage| == |g.owner|
  {
    assert RunPages(s.usage, g.owner, a.at, g.big[a.at]);
  }

  lemma ZoneHeld(c: Config, s: State, g: Book, z: nat)
    requires c.zonePages > 0 && Paged(c, s, g) && z in s.zones
    ensures Held(c, g, z, c.zonePages, InZone(z)) && |s.usage| == |g.owner|
  {
    assert ZonePages(c, s.usage, g.owner, z);
  }

  lemma PagedTidy(c: Config, s: State, g: Book)
    requires Paged(c, s, g)
    ensures Tidy(s.pages, |g.owner|)
  {
  }

  /** A zone with a live chunk is not wholly free. */
  lemma LiveChunk(c: Config, zones: map<nat, Zone>, g: Book, j: nat)
    requires Zoned(c, zones) && Alive(zones, g) && j < |g.live| && g.live[j].Chunk?
    ensures var a := g.live[j];
            && a.z in zones && ZoneOk(c, a.z, zones[a.z]) && !Whole(zones, a.z) && zones[a.z].index < NZONES
            && a.i <= zones[a.z].uindex && a.size == zones[a.z].chunk && ChunkAt(zones[a.z], a.i) !in zones[a.z].free
  {
    var a := g.live[j];
    assert LiveAt(zones, g.big, a) && ZoneOk(c, a.z, zones[a.z]);
    WholeFree(c, a.z, zones[a.z]);
  }

  lemma WholeIs(zones: map<nat, Zone>, zp: nat)
    requires zp in zones
    ensures Whole(zones, zp) <==> zones[zp].nfree == zones[zp].nmax
  {
  }

  lemma SearchOn(list: seq<nat>, x: nat, i: nat)
    requires x in list && i < |list| && x !in list[..i] && list[i] != x
    ensures i + 1 < |list| && x !in list[..i + 1]
  {
    assert list[..i + 1] == list[..i] + [list[i]];
    assert list == list[..i + 1] + list[i + 1..];
  }

  lemma ZonedLess(c: Config, zones: map<nat, Zone>, zp: nat)
    requires Zoned(c, zones)
    ensures Zoned(c, zones - {zp})
  {
  }

  lemma UnmovedLess(c: Config, zones: map<nat, Zone>, g: Book, zp: nat)
    requires Alive(zones, g) && Deserted(g, zp)
    ensures StayPut(c, zones, zones - {zp}, g.live)
  {
    Unmoved(c, zones, g);
  }

  lemma DroppedStays(c: Config, zones: map<nat, Zone>, g: Book, j: nat, zp: nat, z': Zone)
    requires Alive(zones, g) && j < |g.live| && zp in zones && z'.base == zones[zp].base && z'.chunk == zones[zp].chunk
    ensures StayPut(c, zones, zones[zp := z'], Dropped(g.live, j))
  {
    UnmovedBut(c, zones, g, zp, z');
    forall k | 0 <= k < |g.live| - 1
      ensures Dropped(g.live, j)[k] == g.live[if k < j then k else k + 1]
    {
      DroppedAt(g.live, j, k);
    }
  }

  lemma StayTwice(c: Config, z0: map<nat, Zone>, z1: map<nat, Zone>, z2: map<nat, Zone>, live: seq<Alloc>)
    requires StayPut(c, z0, z1, live) && StayPut(c, z1, z2, live)
    ensures StayPut(c, z0, z2, live)
  {
    hide ChunkAt;
  }

  lemma StillThere(c: Config, zones: map<nat, Zone>, zones': map<nat, Zone>, live: seq<Alloc>, j: nat)
    requires StayPut(c, zones, zones', live) && j < |live|
    ensures live[j].Chunk? ==> live[j].z in zones && live[j].z in zones'
    ensures Address(c, zones', live[j]) == Address(c, zones, live[j])
  {
    hide ChunkAt;
  }

  lemma LastThere(c: Config, zones: map<nat, Zone>, zones': map<nat, Zone>, live: seq<Alloc>)
    requires StayPut(c, zones, zones', live) && live != []
    ensures var a := live[|live| - 1];
            && (a.Chunk? ==> a.z in zones && a.z in zones')
            && Address(c, zones', a) == Address(c, zones, a)
  {
    StillThere(c, zones, zones', live, |live| - 1);
  }

  lemma DroppedMore(live: seq<Alloc>, a: Alloc, j: nat)
    requires j < |live|
    ensures Dropped(live + [a], j) == Dropped(live, j) + [a] && (live + [a])[j] == live[j]
  {
  }

  lemma FreshPages(pages: seq<Pages>, table: nat, total: nat)
    requires table <= total && pages == if table < total then [Pages(table, total - table)] else []
    ensures Tidy(pages, total) && forall p: nat :: Has(pages, p) <==> table <= p < total
  {
    forall p: nat
      ensures Has(pages, p) <==> table <= p < total
    {
      if table <= p < total {
        assert In(p, pages[0]);
      }
    }
  }

  const MIN_ZONE: nat := 0x8000
  const MAX_ZONE: nat := 0x2_0000

  /** The loop of `rt_slab_init` that sets the zone size for a heap of `size` bytes, and the limit that goes with it. */
  method ZoneSizeFor(size: nat) returns (zone: nat, limit: nat)
    ensures zone == if size / 1024 <= 2 * MIN_ZONE then MIN_ZONE
                    else if size / 1024 <= 4 * MIN_ZONE then 2 * MIN_ZONE else MAX_ZONE
    ensures (limit == 8192 || limit == 16384) && 4 * limit <= zone
  {
    zone := MIN_ZONE;
    while zone < MAX_ZONE && 2 * zone < size / 1024
      invariant zone == MIN_ZONE || (zone == 2 * MIN_ZONE && 2 * MIN_ZONE < size / 1024)
        || (zone == MAX_ZONE && 4 * MIN_ZONE < size / 1024)
      decreases MAX_ZONE - zone
    {
      zone := 2 * zone;
    }
    limit := zone / 4;
    if limit > LARGEST {
      limit := LARGEST;
    }
  }
}
