/** The zones of the slab allocator (`slab.c`): chunks of one size class are cut from zones, and
    zones and large blocks from the page allocator.  Addresses count from the start of the heap,
    which is the start of page 0. */
module SlabModel {
  import opened Rings
  import opened Words
  import P = PagesModel

  const PAGE: nat := 4096
  /** `sizeof(slab_zone)` on a 32-bit machine */
  const ZONE_HEADER: nat := 36
  const NZONES: nat := 72
  /** `ZONE_RELEASE_THRESH` */
  const RELEASE: nat := 2

  // ----- size classes -----

  datatype Class = Class(index: int, size: nat)

  function RoundUp(n: nat, g: nat): nat
    requires g > 0
  {
    (n + g - 1) / g * g
  }

  /** `zoneindex`: the index of the class, and the size that replaces the request. */
  function ZoneIndex(n: nat): Class {
    if n < 128 then var r := RoundUp(n, 8); Class(r / 8 - 1, r)
    else if n < 256 then var r := RoundUp(n, 16); Class(r / 16 + 7, r)
    else if n < 512 then var r := RoundUp(n, 32); Class(r / 32 + 15, r)
    else if n < 1024 then var r := RoundUp(n, 64); Class(r / 64 + 23, r)
    else if n < 2048 then var r := RoundUp(n, 128); Class(r / 128 + 31, r)
    else if n < 4096 then var r := RoundUp(n, 256); Class(r / 256 + 39, r)
    else if n < 8192 then var r := RoundUp(n, 512); Class(r / 512 + 47, r)
    else if n < 16384 then var r := RoundUp(n, 1024); Class(r / 1024 + 55, r)
    else Class(0, n)
  }

  /** The class sizes; the spacing doubles with each power of two. */
  predicate ClassSize(r: nat) {
    if r <= 128 then r % 8 == 0 else if r <= 256 then r % 16 == 0 else if r <= 512 then r % 32 == 0
    else if r <= 1024 then r % 64 == 0 else if r <= 2048 then r % 128 == 0 else if r <= 4096 then r % 256 == 0
    else if r <= 8192 then r % 512 == 0 else r % 1024 == 0
  }

  /** The index that belongs to a class size. */
  function IndexOfSize(r: nat): int {
    if r <= 128 then r / 8 - 1 else if r <= 256 then r / 16 + 7 else if r <= 512 then r / 32 + 15
    else if r <= 1024 then r / 64 + 23 else if r <= 2048 then r / 128 + 31 else if r <= 4096 then r / 256 + 39
    else if r <= 8192 then r / 512 + 47 else r / 1024 + 55
  }

  lemma RoundedUp(n: nat, g: nat)
    requires g > 0
    ensures n <= RoundUp(n, g) < n + g
  {
    assert (n + g - 1) / g * g == n + g - 1 - (n + g - 1) % g;
  }

  /** A request is rounded up to a class of less than an eighth, or less than eight bytes, more. */
  ghost predicate Fitting(n: nat, c: Class) {
    && n <= c.size <= 16384 && (c.size < n + 8 || 8 * (c.size - n) < n) && (n < 8192 ==> c.size <= 8192)
    && c.index == IndexOfSize(c.size) && ClassSize(c.size)
  }

  lemma ClassFits(n: nat)
    requires 0 < n < 16384
    ensures Fitting(n, ZoneIndex(n))
  {
    hide Fitting;
    if n < 256 { FitsBelow256(n); } else if n < 1024 { FitsBelow1024(n); } else if n < 4096 { FitsBelow4096(n); } else { FitsAbove(n); }
  }

  lemma FitsBelow256(n: nat)
    requires 0 < n < 256
    ensures Fitting(n, ZoneIndex(n))
  {
    hide RoundUp;
    var q := RoundsTo(n, if n < 128 then 8 else 16);
  }

  lemma FitsBelow1024(n: nat)
    requires 256 <= n < 1024
    ensures Fitting(n, ZoneIndex(n))
  {
    hide RoundUp;
    var q := RoundsTo(n, if n < 512 then 32 else 64);
  }

  lemma FitsBelow4096(n: nat)
    requires 1024 <= n < 4096
    ensures Fitting(n, ZoneIndex(n))
  {
    hide RoundUp;
    var q := RoundsTo(n, if n < 2048 then 128 else 256);
  }

  lemma FitsAbove(n: nat)
    requires 4096 <= n < 16384
    ensures Fitting(n, ZoneIndex(n))
  {
    hide RoundUp;
    var q := RoundsTo(n, if n < 8192 then 512 else 1024);
  }

  /** Rounding up below sixteen times the spacing. */
  lemma RoundsTo(n: nat, g: nat) returns (q: nat)
    requires g > 0 && 0 < n < 16 * g
    ensures RoundUp(n, g) == q * g && n <= q * g < n + g && 1 <= q <= 16 && (n >= 8 * g ==> q >= 8)
  {
    RoundedUp(n, g);
    q := (n + g - 1) / g;
    if q > 16 { MulMono(16, q, g); }
    if q < 8 && n >= 8 * g { MulMono(q, 8, g); }
  }

  lemma MulMono(a: nat, b: nat, c: nat)
    requires a < b
    ensures a * c + c <= b * c
  {
    assert b * c == (b - a) * c + a * c;
    assert (b - a) * c >= c by { assert (b - a) * c == (b - a - 1) * c + c; }
  }

  lemma IndexInTable(r: nat)
    requires 0 < r <= 16384 && ClassSize(r)
    ensures 0 <= IndexOfSize(r) < NZONES && r >= 8
  {
  }

  /** Larger classes have larger indices. */
  lemma IndexIncreases(r: nat, s: nat)
    requires 0 < r < s <= 16384 && ClassSize(r) && ClassSize(s)
    ensures IndexOfSize(r) < IndexOfSize(s)
  {
  }

  /** One list holds chunks of one size: two requests have the same index exactly when they have
      the same size. */
  lemma ClassesDiffer(m: nat, n: nat)
    requires 0 < m < 16384 && 0 < n < 16384
    ensures ZoneIndex(m).index == ZoneIndex(n).index <==> ZoneIndex(m).size == ZoneIndex(n).size
  {
    hide ZoneIndex, IndexOfSize, ClassSize;
    ClassFits(m);
    ClassFits(n);
    if ZoneIndex(m).size < ZoneIndex(n).size { IndexIncreases(ZoneIndex(m).size, ZoneIndex(n).size); }
    if ZoneIndex(n).size < ZoneIndex(m).size { IndexIncreases(ZoneIndex(n).size, ZoneIndex(m).size); }
  }

  // ----- a zone -----

  /** `base`: the first chunk; chunks up to number `uindex` have been used; `free`: the list of
      free chunks. */
  datatype Zone = Zone(nfree: nat, nmax: nat, base: nat, uindex: nat, chunk: nat, index: nat, free: seq<nat>)

  function Chunk(zn: Zone, k: nat): nat { zn.base + k * zn.chunk }

  ghost predicate IsChunk(zn: Zone, c: nat) { exists k: nat :: k <= zn.uindex && c == Chunk(zn, k) }

  ghost predicate Live(zn: Zone, c: nat) { IsChunk(zn, c) && c !in zn.free }

  /** A chunk size and its index. */
  ghost predicate OfClass(chunk: nat, index: nat) { 8 <= chunk <= 16384 && ClassSize(chunk) && IndexOfSize(chunk) == index }

  // ----- alignment -----

  predicate PowerOfTwo(n: nat) { n == 1 || (n > 1 && n % 2 == 0 && PowerOfTwo(n / 2)) }

  function Times(q: int, g: nat): int { q * g }

  ghost predicate Multiple(x: int, g: nat) { exists q: int :: x == Times(q, g) }

  lemma MultipleSum(a: int, b: int, g: nat)
    requires Multiple(b, g)
    ensures Multiple(a + b, g) <==> Multiple(a, g)
  {
    var q: int :| b == Times(q, g);
    if r: int :| a == Times(r, g) { assert a + b == Times(r + q, g); }
    if r: int :| a + b == Times(r, g) { assert a == Times(r - q, g); }
  }

  lemma MultipleTimes(q: int, g: nat)
    ensures Multiple(q * g, g)
  {
    assert q * g == Times(q, g);
  }

  lemma MultipleMultiple(x: int, g: nat, f: nat)
    requires Multiple(x, g) && Multiple(g, f)
    ensures Multiple(x, f)
  {
    var q: int :| x == Times(q, g);
    var r: int :| g == Times(r, f);
    assert q * (r * f) == (q * r) * f;
    assert x == Times(q * r, f);
  }

  /** A power of two is a multiple of every smaller one. */
  lemma {:induction false} PowersDivide(n: nat, m: nat)
    requires PowerOfTwo(n) && PowerOfTwo(m) && m <= n
    ensures Multiple(n, m)
  {
    if n == m {
      assert n == Times(1, n);
    } else {
      PowersGap(n, m);
      PowersDivide(n / 2, m);
      var q: int :| n / 2 == Times(q, m);
      assert n == Times(2 * q, m);
    }
  }

  lemma {:induction false} PowersGap(n: nat, m: nat)
    requires PowerOfTwo(n) && PowerOfTwo(m) && m < n
    ensures 2 * m <= n
  {
    if m > 1 { PowersGap(n / 2, m / 2); }
  }

  /** The first chunk of a zone for chunks of a power of two is aligned within the zone. */
  ghost predicate Based(start: nat, zn: Zone) { PowerOfTwo(zn.chunk) ==> Multiple(zn.base - start, zn.chunk) }

  /** With the heap at address `heap`: every chunk of such a zone is aligned exactly when the zone is. */
  lemma ChunkAligned(heap: nat, start: nat, zn: Zone, k: nat)
    requires Based(start, zn) && PowerOfTwo(zn.chunk)
    ensures Multiple(heap + Chunk(zn, k), zn.chunk) <==> Multiple(heap + start, zn.chunk)
  {
    hide PowerOfTwo, Multiple;
    MultipleTimes(k, zn.chunk);
    MultipleSum(heap + start, zn.base - start, zn.chunk);
    MultipleSum(heap + zn.base, k * zn.chunk, zn.chunk);
  }

  /** The chunks lie in the zone past its header; the free count is the chunks never used and the
      free list. */
  ghost predicate ZoneOk(start: nat, size: nat, zn: Zone) {
    && start + ZONE_HEADER <= zn.base && Chunk(zn, zn.nmax) <= start + size
    && zn.uindex < zn.nmax && zn.nmax >= 2 && zn.index < NZONES && OfClass(zn.chunk, zn.index)
    && NoDup(zn.free) && (forall c :: c in zn.free ==> IsChunk(zn, c))
    && zn.nfree == zn.nmax - 1 - zn.uindex + |zn.free| && Based(start, zn)
  }

  /** Chunks of a zone are disjoint, and inside the zone. */
  lemma ChunksApart(zn: Zone, j: nat, k: nat)
    requires j < k
    ensures Chunk(zn, j) + zn.chunk <= Chunk(zn, k)
  {
    MulMono(j, k, zn.chunk);
  }

  lemma ChunkInZone(start: nat, size: nat, zn: Zone, c: nat)
    requires ZoneOk(start, size, zn) && IsChunk(zn, c)
    ensures start + ZONE_HEADER <= c && c + zn.chunk <= start + size
  {
    hide OfClass, NoDup;
    var k: nat :| k <= zn.uindex && c == Chunk(zn, k);
    ChunksApart(zn, k, zn.nmax);
    assert k * zn.chunk >= 0;
  }

  lemma LiveApart(zn: Zone, c: nat, d: nat)
    requires IsChunk(zn, c) && IsChunk(zn, d) && c != d
    ensures c + zn.chunk <= d || d + zn.chunk <= c
  {
    var j: nat :| j <= zn.uindex && c == Chunk(zn, j);
    var k: nat :| k <= zn.uindex && d == Chunk(zn, k);
    if j < k { ChunksApart(zn, j, k); } else { ChunksApart(zn, k, j); }
  }

  /** The hand-out in `rt_malloc`: chunks never used first, then the free list. */
  function Take(zn: Zone): (Zone, nat)
    requires zn.nfree > 0 && (zn.uindex + 1 == zn.nmax ==> zn.free != [])
  {
    if zn.uindex + 1 != zn.nmax then
      (zn.(nfree := zn.nfree - 1, uindex := zn.uindex + 1), Chunk(zn, zn.uindex + 1))
    else
      (zn.(nfree := zn.nfree - 1, free := zn.free[1..]), zn.free[0])
  }

  function Give(zn: Zone, c: nat): Zone { zn.(nfree := zn.nfree + 1, free := [c] + zn.free) }

  /** The free list that is popped is never empty. */
  lemma PopNotEmpty(start: nat, size: nat, zn: Zone)
    requires ZoneOk(start, size, zn) && zn.nfree > 0
    ensures zn.uindex + 1 == zn.nmax ==> zn.free != []
  {
  }

  /** Handing out makes exactly one chunk live that was not. */
  lemma TakeOk(start: nat, size: nat, zn: Zone)
    requires ZoneOk(start, size, zn) && zn.nfree > 0
    ensures zn.uindex + 1 == zn.nmax ==> zn.free != []
    ensures var (r, c) := Take(zn);
      && ZoneOk(start, size, r) && !Live(zn, c)
      && forall d: nat :: Live(r, d) <==> Live(zn, d) || d == c
  {
    var (r, c) := Take(zn);
    if zn.uindex + 1 != zn.nmax {
      forall d: nat ensures IsChunk(r, d) <==> IsChunk(zn, d) || d == c { NextChunk(zn, r, d); }
      if IsChunk(zn, c) {
        var k: nat :| k <= zn.uindex && c == Chunk(zn, k);
        ChunksApart(zn, k, zn.uindex + 1);
      }
    } else {
      assert zn.free == [c] + r.free && c in zn.free && c !in r.free;
      forall d: nat ensures IsChunk(r, d) <==> IsChunk(zn, d) { SameChunk(zn, r, d); }
      assert forall d :: d in r.free ==> d in zn.free;
    }
  }

  lemma NextChunk(zn: Zone, r: Zone, d: nat)
    requires r.base == zn.base && r.chunk == zn.chunk && r.uindex == zn.uindex + 1
    ensures IsChunk(r, d) <==> IsChunk(zn, d) || d == Chunk(zn, zn.uindex + 1)
  {
    if IsChunk(zn, d) { var k: nat :| k <= zn.uindex && d == Chunk(zn, k); assert d == Chunk(r, k); }
    if d == Chunk(zn, zn.uindex + 1) { assert d == Chunk(r, r.uindex); }
    if IsChunk(r, d) { var k: nat :| k <= r.uindex && d == Chunk(r, k); assert d == Chunk(zn, k); }
  }

  lemma SameChunk(zn: Zone, r: Zone, d: nat)
    requires r.base == zn.base && r.chunk == zn.chunk && r.uindex == zn.uindex
    ensures IsChunk(r, d) <==> IsChunk(zn, d)
  {
    if IsChunk(zn, d) { var k: nat :| k <= zn.uindex && d == Chunk(zn, k); assert d == Chunk(r, k); }
    if IsChunk(r, d) { var k: nat :| k <= r.uindex && d == Chunk(r, k); assert d == Chunk(zn, k); }
  }

  /** Giving back makes exactly that chunk free. */
  lemma GiveOk(start: nat, size: nat, zn: Zone, c: nat)
    requires ZoneOk(start, size, zn) && Live(zn, c)
    ensures ZoneOk(start, size, Give(zn, c))
    ensures forall d: nat :: Live(Give(zn, c), d) <==> Live(zn, d) && d != c
  {
    var r := Give(zn, c);
    assert forall x :: x in r.free <==> x == c || x in zn.free;
    forall d: nat ensures IsChunk(r, d) <==> IsChunk(zn, d) { SameChunk(zn, r, d); }
    assert NoDup(r.free);
  }

  // ----- counting -----

  ghost function Elements(s: seq<nat>): set<nat> { set x | x in s }

  lemma {:induction false} NoDupSize(s: seq<nat>)
    requires NoDup(s)
    ensures |Elements(s)| == |s|
  {
    if s != [] {
      NoDupSize(s[1..]);
      assert s == [s[0]] + s[1..];
      assert Elements(s) == {s[0]} + Elements(s[1..]);
    }
  }

  ghost function UsedChunks(zn: Zone): seq<nat> { seq(zn.uindex + 1, k requires 0 <= k => Chunk(zn, k)) }

  lemma UsedChunksAre(zn: Zone)
    requires zn.chunk > 0
    ensures |UsedChunks(zn)| == zn.uindex + 1 && NoDup(UsedChunks(zn)) && forall c: nat :: c in UsedChunks(zn) <==> IsChunk(zn, c)
  {
    var u := UsedChunks(zn);
    forall i, j | 0 <= i < j < |u| ensures u[i] != u[j] { ChunksApart(zn, i, j); }
    forall c: nat ensures c in u <==> IsChunk(zn, c) {
      if IsChunk(zn, c) { var k: nat :| k <= zn.uindex && c == Chunk(zn, k); assert u[k] == c; }
    }
  }

  /** A zone's free count reaches the number of its chunks exactly when none of them is live. */
  lemma FullWhenNoneLive(start: nat, size: nat, zn: Zone)
    requires ZoneOk(start, size, zn)
    ensures zn.nfree <= zn.nmax
    ensures zn.nfree == zn.nmax <==> forall c: nat :: !Live(zn, c)
  {
    hide NoDup, UsedChunks, IsChunk;
    UsedChunksAre(zn);
    var u, f := Elements(UsedChunks(zn)), Elements(zn.free);
    NoDupSize(UsedChunks(zn));
    NoDupSize(zn.free);
    Subset(f, u);
    if u <= f {
      assert u == f;
      forall c: nat ensures !Live(zn, c) { assert IsChunk(zn, c) ==> c in f; }
    } else {
      var c :| c in u && c !in f;
      assert Live(zn, c);
    }
  }

  lemma Subset(a: set<nat>, b: set<nat>)
    requires a <= b
    ensures |a| <= |b| && (|a| == |b| ==> a == b)
  {
    var c := b - a;
    assert b == a + c;
    if |a| == |b| { assert |c| == 0; }
  }

  // ----- a new zone -----

  /** `a | b` */
  function Or(a: nat, b: nat): nat {
    if a == 0 && b == 0 then 0 else (if a % 2 == 1 || b % 2 == 1 then 1 else 0) + 2 * Or(a / 2, b / 2)
  }

  lemma {:induction false} OrSelf(a: nat)
    ensures Or(a, a) == a
  {
    if a > 0 { OrSelf(a / 2); }
  }

  /** `(size | (size - 1)) + 1 == (size << 1)` tests for a power of two. */
  lemma {:induction false} PowerTest(n: nat)
    requires n > 0
    ensures Or(n, n - 1) + 1 == 2 * n <==> PowerOfTwo(n)
  {
    if n % 2 == 1 {
      assert (n - 1) / 2 == n / 2;
      OrSelf(n / 2);
    } else {
      assert (n - 1) / 2 == n / 2 - 1;
      PowerTest(n / 2);
    }
  }

  /** The first chunk of a zone, after its header and aligned to the chunk size if that is a power
      of two. */
  function Offset(chunk: nat): nat
    requires chunk > 0
  {
    if PowerOfTwo(chunk) then RoundUp(ZONE_HEADER, chunk) else RoundUp(ZONE_HEADER, 8)
  }

  function NewZone(start: nat, size: nat, chunk: nat, index: nat): Zone
    requires chunk > 0 && size >= Offset(chunk) + chunk
  {
    var nmax := (size - Offset(chunk)) / chunk;
    OneFits(size - Offset(chunk), chunk);
    Zone(nmax - 1, nmax, start + Offset(chunk), 0, chunk, index, [])
  }

  lemma OneFits(room: nat, chunk: nat)
    requires 0 < chunk <= room
    ensures room / chunk >= 1
  {
  }

  /** A zone at least four chunks large is sound, has one live chunk, its first, and room for
      another; chunks of a size that is a power of two are aligned to it relative to the zone. */
  lemma NewZoneOk(start: nat, size: nat, chunk: nat, index: nat)
    requires OfClass(chunk, index) && 4 * chunk <= size && size >= 256 && index < NZONES
    ensures size >= Offset(chunk) + chunk
    ensures var zn := NewZone(start, size, chunk, index);
      && ZoneOk(start, size, zn) && zn.nfree > 0 && (forall c: nat :: Live(zn, c) <==> c == zn.base)
  {
    hide PowerOfTwo, Multiple;
    MultipleTimes((ZONE_HEADER + chunk - 1) / chunk, chunk);
    RoundedUp(ZONE_HEADER, chunk);
    RoundedUp(ZONE_HEADER, 8);
    var room := size - Offset(chunk);
    var zn := NewZone(start, size, chunk, index);
    AtLeastTwo(room, chunk);
    assert RoundUp(ZONE_HEADER, chunk) == (ZONE_HEADER + chunk - 1) / chunk * chunk;
    forall c: nat ensures IsChunk(zn, c) <==> c == zn.base {
      if c == zn.base { assert c == Chunk(zn, 0); }
    }
  }

  lemma AtLeastTwo(room: nat, chunk: nat)
    requires chunk > 0 && room >= 2 * chunk
    ensures room / chunk >= 2 && room / chunk * chunk <= room
  {
  }

  // ----- the whole allocator -----

  /** What `memusage` says of a page. */
  datatype Usage = Unused | Small(off: nat) | Large(pages: nat)

  /** `zones`: the zones by their first page; `lists`: `zone_array`; `idle`: `zone_free`; `own`: the
      blocks of pages handed out to zones and to large allocations. */
  datatype Slab = Slab(zones: map<nat, Zone>, lists: map<nat, seq<nat>>, idle: seq<nat>,
                       usage: map<nat, Usage>, own: map<nat, nat>, runs: seq<P.Run>)

  ghost predicate ZonesOk(zp: nat, zones: map<nat, Zone>) {
    forall z :: z in zones ==> ZoneOk(z * PAGE, zp * PAGE, zones[z])
  }

  /** A zone is in the list of its index exactly when it has free chunks and is not idle. */
  ghost predicate ListsOk(zones: map<nat, Zone>, lists: map<nat, seq<nat>>, idle: seq<nat>) {
    && (forall i: nat :: i in lists <==> i < NZONES)
    && (forall i: nat :: i in lists ==> NoDup(lists[i]))
    && (forall i: nat, z: nat :: i in lists ==>
         (z in lists[i] <==> z in zones && z !in idle && zones[z].index == i && zones[z].nfree > 0))
  }

  ghost predicate IdleOk(zones: map<nat, Zone>, idle: seq<nat>) {
    NoDup(idle) && forall z :: z in idle ==> z in zones && zones[z].nfree == zones[z].nmax
  }

  /** The pages handed out are not free and not handed out twice. */
  ghost predicate PagesOk(runs: seq<P.Run>, own: map<nat, nat>) {
    && P.Canonical(runs)
    && (forall a :: a in own ==> own[a] > 0 && P.Apart(runs, a, own[a]))
    && (forall a, b :: a in own && b in own && a < b ==> a + own[a] <= b)
  }

  /** The page table leads from every page of a zone to the zone. */
  ghost predicate UsageOk(zp: nat, zones: map<nat, Zone>, usage: map<nat, Usage>, own: map<nat, nat>) {
    && (forall z :: z in zones ==> z in own && own[z] == zp)
    && (forall z, p: nat :: z in zones && z <= p < z + zp ==> p in usage && usage[p] == Small(p - z))
    && (forall a :: a in own && a !in zones ==> a in usage && usage[a] == Large(own[a]))
  }

  ghost predicate Inv(zp: nat, s: Slab) {
    && 8 <= zp
    && ZonesOk(zp, s.zones) && ListsOk(s.zones, s.lists, s.idle) && IdleOk(s.zones, s.idle)
    && PagesOk(s.runs, s.own) && UsageOk(zp, s.zones, s.usage, s.own)
  }

  /** `zone_limit` for zones of `zp` pages */
  function ZoneLimit(zp: nat): nat { if zp * PAGE / 4 > 16384 then 16384 else zp * PAGE / 4 }

  ghost predicate LiveChunk(zones: map<nat, Zone>, c: nat) { exists z :: z in zones && Live(zones[z], c) }

  // ----- the steps -----

  /** A chunk from the first zone of list `i`, which leaves the list with its last free chunk. */
  function HandOut(s: Slab, i: nat): (Slab, nat)
    requires i in s.lists && s.lists[i] != [] && s.lists[i][0] in s.zones
    requires var zn := s.zones[s.lists[i][0]]; zn.nfree > 0 && (zn.uindex + 1 == zn.nmax ==> zn.free != [])
  {
    var z := s.lists[i][0];
    var (zn, c) := Take(s.zones[z]);
    (s.(zones := s.zones[z := zn], lists := if zn.nfree == 0 then s.lists[i := s.lists[i][1..]] else s.lists), c)
  }

  /** Zone `z`, which is in no list, is set up for chunks of a class. */
  function Install(zp: nat, s: Slab, z: nat, chunk: nat, i: nat): (Slab, nat)
    requires i in s.lists && chunk > 0 && zp * PAGE >= Offset(chunk) + chunk
  {
    var zn := NewZone(z * PAGE, zp * PAGE, chunk, i);
    (s.(zones := s.zones[z := zn], lists := s.lists[i := [z] + s.lists[i]]), zn.base)
  }

  /** Chunk `c` goes back to zone `z`, which joins its list if it had no free chunk. */
  function GiveBack(s: Slab, z: nat, c: nat): Slab
    requires z in s.zones && s.zones[z].index in s.lists
  {
    var zn := s.zones[z];
    s.(zones := s.zones[z := Give(zn, c)],
       lists := if zn.nfree == 0 then s.lists[zn.index := [z] + s.lists[zn.index]] else s.lists)
  }

  /** A zone without live chunks that is not the only one in its list becomes idle. */
  predicate Retires(s: Slab, z: nat)
    requires z in s.zones && s.zones[z].index in s.lists
  {
    s.zones[z].nfree == s.zones[z].nmax && |s.lists[s.zones[z].index]| > 1
  }

  function Retire(s: Slab, z: nat): Slab
    requires z in s.zones && s.zones[z].index in s.lists
  {
    var i := s.zones[z].index;
    s.(lists := s.lists[i := Without(s.lists[i], z)], idle := [z] + s.idle)
  }

  // ----- one zone changed -----

  /** A zone replaced by one that is in the same list, or in no list before and after. */
  lemma ZoneReplaced(zp: nat, zones: map<nat, Zone>, z: nat, zn: Zone)
    requires ZonesOk(zp, zones) && ZoneOk(z * PAGE, zp * PAGE, zn)
    ensures ZonesOk(zp, zones[z := zn])
  {
  }

  /** Distinct zones share no page, so their chunks are apart. */
  lemma ZonesApart(zp: nat, s: Slab, y: nat, z: nat)
    requires PagesOk(s.runs, s.own) && UsageOk(zp, s.zones, s.usage, s.own) && y in s.zones && z in s.zones && y != z
    ensures y + zp <= z || z + zp <= y
  {
    assert y in s.own && z in s.own;
  }

  lemma LiveInZone(zp: nat, s: Slab, z: nat, c: nat)
    requires ZonesOk(zp, s.zones) && z in s.zones && IsChunk(s.zones[z], c)
    ensures z * PAGE + ZONE_HEADER <= c && c + s.zones[z].chunk <= (z + zp) * PAGE && s.zones[z].chunk > 0
  {
    ChunkInZone(z * PAGE, zp * PAGE, s.zones[z], c);
  }

  /** A chunk belongs to one zone, and the page table finds it. */
  lemma LookupFindsZone(zp: nat, s: Slab, z: nat, c: nat)
    requires Inv(zp, s) && z in s.zones && IsChunk(s.zones[z], c)
    ensures var page := c / PAGE; z <= page < z + zp && page in s.usage && s.usage[page] == Small(page - z)
    ensures forall y :: y in s.zones && IsChunk(s.zones[y], c) ==> y == z
  {
    hide ListsOk, IdleOk, ZoneOk, IsChunk;
    LiveInZone(zp, s, z, c);
    PageOf(c, z, z + zp);
    forall y | y in s.zones && IsChunk(s.zones[y], c) ensures y == z {
      LiveInZone(zp, s, y, c);
      if y != z { ZonesApart(zp, s, y, z); }
    }
  }

  lemma PageOf(c: nat, lo: nat, hi: nat)
    requires lo * PAGE <= c < hi * PAGE
    ensures lo <= c / PAGE < hi
  {
  }

  /** Replacing zone `z` changes liveness only where the zone itself does. */
  lemma LiveReplaced(zones: map<nat, Zone>, z: nat, zn: Zone, d: nat)
    ensures LiveChunk(zones[z := zn], d) <==> Live(zn, d) || exists y :: y in zones && y != z && Live(zones[y], d)
  {
    var r := zones[z := zn];
    if LiveChunk(r, d) { var y :| y in r && Live(r[y], d); assert y != z ==> y in zones && Live(zones[y], d); }
    if Live(zn, d) { assert z in r && Live(r[z], d); }
    if exists y :: y in zones && y != z && Live(zones[y], d) {
      var y :| y in zones && y != z && Live(zones[y], d);
      assert y in r && Live(r[y], d);
    }
  }

  lemma LiveSplit(zones: map<nat, Zone>, z: nat, d: nat)
    requires z in zones
    ensures LiveChunk(zones, d) <==> Live(zones[z], d) || exists y :: y in zones && y != z && Live(zones[y], d)
  {
    assert zones[z := zones[z]] == zones;
    LiveReplaced(zones, z, zones[z], d);
  }

  // ----- handing out -----

  lemma HandOutReady(zp: nat, s: Slab, i: nat)
    requires Inv(zp, s) && i < NZONES && s.lists[i] != []
    ensures i in s.lists
    ensures var z := s.lists[i][0];
      && z in s.zones && s.zones[z].index == i && s.zones[z].nfree > 0 && z !in s.idle
      && (s.zones[z].uindex + 1 == s.zones[z].nmax ==> s.zones[z].free != [])
  {
    var z := s.lists[i][0];
    assert z in s.lists[i];
    PopNotEmpty(z * PAGE, zp * PAGE, s.zones[z]);
  }

  lemma HandOutLists(s: Slab, i: nat, zn: Zone)
    requires ListsOk(s.zones, s.lists, s.idle) && i < NZONES && s.lists[i] != [] && s.lists[i][0] in s.zones
    requires zn.index == i == s.zones[s.lists[i][0]].index && s.lists[i][0] !in s.idle
    ensures var z := s.lists[i][0]; var lists := if zn.nfree == 0 then s.lists[i := s.lists[i][1..]] else s.lists;
      ListsOk(s.zones[z := zn], lists, s.idle)
  {
    var z, l := s.lists[i][0], s.lists[i];
    assert l == [z] + l[1..] && z in l && z !in l[1..];
    var lists := if zn.nfree == 0 then s.lists[i := l[1..]] else s.lists;
    var r := s.zones[z := zn];
    forall j: nat, y: nat | j in lists
      ensures y in lists[j] <==> y in r && y !in s.idle && r[y].index == j && r[y].nfree > 0
    {
      assert j in s.lists && (y in s.lists[j] <==> y in s.zones && y !in s.idle && s.zones[y].index == j && s.zones[y].nfree > 0);
    }
  }

  lemma UsageSame(zp: nat, zones: map<nat, Zone>, usage: map<nat, Usage>, own: map<nat, nat>, z: nat, zn: Zone)
    requires UsageOk(zp, zones, usage, own) && z in zones
    ensures UsageOk(zp, zones[z := zn], usage, own)
  {
  }

  lemma IdleSame(zones: map<nat, Zone>, idle: seq<nat>, z: nat, zn: Zone)
    requires IdleOk(zones, idle) && z !in idle
    ensures IdleOk(zones[z := zn], idle)
  {
  }

  lemma HandOutKeeps(zp: nat, s: Slab, i: nat)
    requires Inv(zp, s) && i < NZONES && s.lists[i] != []
    ensures (HandOutReady(zp, s, i); Inv(zp, HandOut(s, i).0))
  {
    hide ZoneOk, PagesOk, UsageOk, IdleOk, ListsOk;
    HandOutReady(zp, s, i);
    var z := s.lists[i][0];
    var zn := Take(s.zones[z]).0;
    TakeOk(z * PAGE, zp * PAGE, s.zones[z]);
    HandOutLists(s, i, zn);
    ZoneReplaced(zp, s.zones, z, zn);
    UsageSame(zp, s.zones, s.usage, s.own, z, zn);
    IdleSame(s.zones, s.idle, z, zn);
  }

  /** The chunk handed out was not live; it is now, and nothing else has changed. */
  lemma HandOutLive(zp: nat, s: Slab, i: nat)
    requires Inv(zp, s) && i < NZONES && s.lists[i] != []
    ensures (HandOutReady(zp, s, i); var (r, c) := HandOut(s, i);
      !LiveChunk(s.zones, c) && forall d: nat :: LiveChunk(r.zones, d) <==> LiveChunk(s.zones, d) || d == c)
  {
    HandOutReady(zp, s, i);
    var z := s.lists[i][0];
    var (zn, c) := Take(s.zones[z]);
    OnlyHere(zp, s, z, zn, c);
  }

  /** A zone replaced by one with one more live chunk. */
  lemma OnlyHere(zp: nat, s: Slab, z: nat, zn: Zone, c: nat)
    requires Inv(zp, s) && z in s.zones && s.zones[z].nfree > 0 && (s.zones[z].uindex + 1 == s.zones[z].nmax ==> s.zones[z].free != [])
    requires (zn, c) == Take(s.zones[z])
    ensures !LiveChunk(s.zones, c) && forall d: nat :: LiveChunk(s.zones[z := zn], d) <==> LiveChunk(s.zones, d) || d == c
  {
    hide NoDup, ListsOk, IdleOk;
    TakeOk(z * PAGE, zp * PAGE, s.zones[z]);
    NotElsewhere(zp, s, z, zn, c);
    forall d: nat ensures LiveChunk(s.zones[z := zn], d) <==> LiveChunk(s.zones, d) || d == c {
      LiveReplaced(s.zones, z, zn, d);
      LiveSplit(s.zones, z, d);
    }
    LiveSplit(s.zones, z, c);
  }

  /** A chunk of zone `z` is in no other zone. */
  lemma NotElsewhere(zp: nat, s: Slab, z: nat, zn: Zone, c: nat)
    requires ZonesOk(zp, s.zones) && PagesOk(s.runs, s.own) && UsageOk(zp, s.zones, s.usage, s.own)
    requires z in s.zones && ZoneOk(z * PAGE, zp * PAGE, zn) && IsChunk(zn, c)
    ensures forall y :: y in s.zones && y != z ==> !Live(s.zones[y], c)
  {
    ChunkInZone(z * PAGE, zp * PAGE, zn, c);
    forall y | y in s.zones && y != z ensures !Live(s.zones[y], c) {
      if IsChunk(s.zones[y], c) {
        LiveInZone(zp, s, y, c);
        ZonesApart(zp, s, y, z);
      }
    }
  }

  // ----- setting up a zone -----

  lemma InstallLists(s: Slab, z: nat, i: nat, zn: Zone, idle: seq<nat>)
    requires ListsOk(s.zones, s.lists, s.idle) && i < NZONES && zn.index == i && zn.nfree > 0 && z !in idle
    requires z !in s.zones || z in s.idle
    requires forall y :: y != z ==> (y in idle <==> y in s.idle)
    ensures ListsOk(s.zones[z := zn], s.lists[i := [z] + s.lists[i]], idle)
  {
    var r, lists := s.zones[z := zn], s.lists[i := [z] + s.lists[i]];
    assert z !in s.lists[i];
    assert NoDup([z] + s.lists[i]);
    forall j: nat, y: nat | j in lists
      ensures y in lists[j] <==> y in r && y !in idle && r[y].index == j && r[y].nfree > 0
    {
      assert j in s.lists && (y in s.lists[j] <==> y in s.zones && y !in s.idle && s.zones[y].index == j && s.zones[y].nfree > 0);
    }
  }

  /** The zone size is large enough for every class below the limit. */
  lemma ZoneHolds(zp: nat, chunk: nat)
    requires 8 <= zp && 8 <= chunk <= ZoneLimit(zp)
    ensures 4 * chunk <= zp * PAGE && zp * PAGE >= 256
  {
  }

  /** The zone set up is idle, or its pages have just been handed out. */
  lemma InstallKeeps(zp: nat, s: Slab, z: nat, chunk: nat, i: nat)
    requires 8 <= zp && i < NZONES && OfClass(chunk, i) && chunk <= ZoneLimit(zp)
    requires ZonesOk(zp, s.zones) && ListsOk(s.zones, s.lists, s.idle) && IdleOk(s.zones, s.idle) && z !in s.idle && PagesOk(s.runs, s.own)
    requires z !in s.zones && UsageOk(zp, s.zones[z := NewOf(zp, z, chunk, i)], s.usage, s.own)
    ensures zp * PAGE >= Offset(chunk) + chunk && i in s.lists && Inv(zp, Install(zp, s, z, chunk, i).0)
  {
    hide ZoneOk, PagesOk, UsageOk, IdleOk, ListsOk;
    ZoneHolds(zp, chunk);
    NewZoneOk(z * PAGE, zp * PAGE, chunk, i);
    IndexListed(s, i);
    var zn := NewZone(z * PAGE, zp * PAGE, chunk, i);
    InstallLists(s, z, i, zn, s.idle);
    ZoneReplaced(zp, s.zones, z, zn);
    IdleSame(s.zones, s.idle, z, zn);
  }

  lemma IndexListed(s: Slab, i: nat)
    requires ListsOk(s.zones, s.lists, s.idle) && i < NZONES
    ensures i in s.lists
  {
  }

  ghost function NewOf(zp: nat, z: nat, chunk: nat, i: nat): Zone
    requires 8 <= zp && i < NZONES && OfClass(chunk, i) && chunk <= ZoneLimit(zp)
  {
    ZoneHolds(zp, chunk);
    NewZoneOk(z * PAGE, zp * PAGE, chunk, i);
    NewZone(z * PAGE, zp * PAGE, chunk, i)
  }

  /** A zone that was idle is taken out of the allocator, to be set up again. */
  function TakeIdle(s: Slab): Slab
    requires s.idle != []
  {
    s.(idle := s.idle[1..], zones := s.zones - {s.idle[0]})
  }

  lemma TakeIdleKeeps(zp: nat, s: Slab, zn: Zone)
    requires Inv(zp, s) && s.idle != []
    ensures var z, r := s.idle[0], TakeIdle(s);
      && z in s.zones && z !in r.zones && z !in r.idle
      && ZonesOk(zp, r.zones) && ListsOk(r.zones, r.lists, r.idle) && IdleOk(r.zones, r.idle) && PagesOk(r.runs, r.own)
      && UsageOk(zp, r.zones[z := zn], r.usage, r.own)
      && (forall d: nat :: LiveChunk(r.zones, d) <==> LiveChunk(s.zones, d))
      && (forall y: nat, d: nat :: Stays(s.zones, r.zones, y, d))
  {
    hide PagesOk;
    var z, r := s.idle[0], TakeIdle(s);
    assert z in s.idle && s.idle == [z] + s.idle[1..] && z !in s.idle[1..];
    assert forall i: nat :: i in s.lists ==> z !in s.lists[i];
    FullWhenNoneLive(z * PAGE, zp * PAGE, s.zones[z]);
    assert r.zones[z := zn] == s.zones[z := zn];
    UsageSame(zp, s.zones, s.usage, s.own, z, zn);
    assert ZonesOk(zp, r.zones);
    IdleRest(s.zones, s.idle);
    TakeIdleLists(s);
    forall d: nat ensures LiveChunk(r.zones, d) <==> LiveChunk(s.zones, d) { LiveWithout(s.zones, z, d); }
  }

  lemma TakeIdleLists(s: Slab)
    requires ListsOk(s.zones, s.lists, s.idle) && s.idle != [] && NoDup(s.idle)
    ensures ListsOk(TakeIdle(s).zones, s.lists, TakeIdle(s).idle)
  {
    var z := s.idle[0];
    assert z in s.idle && s.idle == [z] + s.idle[1..] && z !in s.idle[1..];
  }

  lemma IdleRest(zones: map<nat, Zone>, idle: seq<nat>)
    requires IdleOk(zones, idle) && idle != []
    ensures IdleOk(zones - {idle[0]}, idle[1..])
  {
    assert idle == [idle[0]] + idle[1..] && idle[0] !in idle[1..];
  }

  /** A zone without live chunks can go. */
  lemma LiveWithout(zones: map<nat, Zone>, z: nat, d: nat)
    requires z in zones && !Live(zones[z], d)
    ensures LiveChunk(zones - {z}, d) <==> LiveChunk(zones, d)
  {
    var r := zones - {z};
    if LiveChunk(zones, d) { var y :| y in zones && Live(zones[y], d); assert y in r && Live(r[y], d); }
    if LiveChunk(r, d) { var y :| y in r && Live(r[y], d); assert y in zones && Live(zones[y], d); }
  }

  // ----- pages -----

  /** Pages handed out by the page allocator. */
  lemma GrabPages(runs: seq<P.Run>, own: map<nat, nat>, n: nat)
    requires PagesOk(runs, own) && P.Alloc(runs, n).1.At?
    ensures var (r, p) := P.Alloc(runs, n);
      && n > 0 && P.Taken(runs, r, p.page, n) && PagesOk(r, own[p.page := n])
      && (forall a :: a in own ==> a + own[a] <= p.page || p.page + n <= a)
  {
    P.AllocTakes(runs, n);
    var (r, p) := P.Alloc(runs, n);
    hide P.Alloc;
    P.NotFreeApart(r, p.page, n);
    forall a | a in own ensures P.Apart(r, a, own[a]) && (a + own[a] <= p.page || p.page + n <= a) {
      StillApart(runs, r, p.page, n, a, own[a]);
    }
  }

  lemma StillApart(runs: seq<P.Run>, r: seq<P.Run>, page: nat, n: nat, a: nat, m: nat)
    requires P.Canonical(runs) && P.Canonical(r) && P.Taken(runs, r, page, n) && P.Apart(runs, a, m) && m > 0 && n > 0
    ensures P.Apart(r, a, m) && (a + m <= page || page + n <= a)
  {
    forall k: nat | a <= k < a + m ensures !P.IsFree(runs, k) { ApartNotFree(runs, a, m, k); }
    P.NotFreeApart(r, a, m);
    var k := if a > page then a else page;
    assert page <= k < page + n ==> P.IsFree(runs, k);
  }

  lemma ApartNotFree(runs: seq<P.Run>, a: nat, m: nat, k: nat)
    requires P.Apart(runs, a, m) && a <= k < a + m
    ensures !P.IsFree(runs, k)
  {
  }

  /** Pages given back to the page allocator. */
  lemma ReturnPages(runs: seq<P.Run>, own: map<nat, nat>, a: nat)
    requires PagesOk(runs, own) && a in own
    ensures P.Apart(runs, a, own[a]) && own[a] > 0 && PagesOk(P.Free(runs, a, own[a]), own - {a})
  {
    var n := own[a];
    P.FreeAdds(runs, a, n);
    var r := P.Free(runs, a, n);
    hide P.Free;
    forall b | b in own && b != a ensures P.Apart(r, b, own[b]) {
      forall k: nat | b <= k < b + own[b] ensures !P.IsFree(r, k) {
        ApartNotFree(runs, b, own[b], k);
        assert !(a <= k < a + n);
      }
      P.NotFreeApart(r, b, own[b]);
    }
  }

  // ----- giving back -----

  lemma GiveBackLists(s: Slab, z: nat, zn: Zone)
    requires ListsOk(s.zones, s.lists, s.idle) && z in s.zones && z !in s.idle
    requires zn.index == s.zones[z].index < NZONES && zn.nfree == s.zones[z].nfree + 1
    ensures var lists := if s.zones[z].nfree == 0 then s.lists[zn.index := [z] + s.lists[zn.index]] else s.lists;
      zn.index in s.lists && ListsOk(s.zones[z := zn], lists, s.idle) && z in lists[zn.index]
  {
    IndexListed(s, zn.index);
    var i, r := zn.index, s.zones[z := zn];
    var lists := if s.zones[z].nfree == 0 then s.lists[i := [z] + s.lists[i]] else s.lists;
    assert s.zones[z].nfree == 0 ==> z !in s.lists[i];
    assert s.zones[z].nfree == 0 ==> NoDup([z] + s.lists[i]);
    forall j: nat, y: nat | j in lists
      ensures y in lists[j] <==> y in r && y !in s.idle && r[y].index == j && r[y].nfree > 0
    {
      assert j in s.lists && (y in s.lists[j] <==> y in s.zones && y !in s.idle && s.zones[y].index == j && s.zones[y].nfree > 0);
    }
  }

  /** A zone with a live chunk is not idle. */
  lemma NotIdle(zp: nat, s: Slab, z: nat, c: nat)
    requires Inv(zp, s) && z in s.zones && Live(s.zones[z], c)
    ensures z !in s.idle && s.zones[z].index < NZONES && s.zones[z].index in s.lists
  {
    FullWhenNoneLive(z * PAGE, zp * PAGE, s.zones[z]);
    IndexListed(s, s.zones[z].index);
  }

  lemma GiveBackKeeps(zp: nat, s: Slab, z: nat, c: nat)
    requires Inv(zp, s) && z in s.zones && Live(s.zones[z], c)
    ensures s.zones[z].index in s.lists
    ensures var r := GiveBack(s, z, c);
      && Inv(zp, r) && z in r.zones && z !in r.idle && r.zones[z].index in r.lists && z in r.lists[r.zones[z].index]
      && forall d: nat :: LiveChunk(r.zones, d) <==> LiveChunk(s.zones, d) && d != c
  {
    hide ZoneOk, PagesOk, UsageOk, IdleOk, ListsOk, NoDup;
    NotIdle(zp, s, z, c);
    var zn := Give(s.zones[z], c);
    GiveOk(z * PAGE, zp * PAGE, s.zones[z], c);
    GiveBackLists(s, z, zn);
    ZoneReplaced(zp, s.zones, z, zn);
    UsageSame(zp, s.zones, s.usage, s.own, z, zn);
    IdleSame(s.zones, s.idle, z, zn);
    NotElsewhere(zp, s, z, s.zones[z], c);
    forall d: nat ensures LiveChunk(s.zones[z := zn], d) <==> LiveChunk(s.zones, d) && d != c {
      LiveReplaced(s.zones, z, zn, d);
      LiveSplit(s.zones, z, d);
    }
  }

  lemma RetireLists(s: Slab, z: nat)
    requires ListsOk(s.zones, s.lists, s.idle) && z in s.zones && z !in s.idle && s.zones[z].index in s.lists
    ensures ListsOk(s.zones, Retire(s, z).lists, [z] + s.idle)
  {
    var i := s.zones[z].index;
    WithoutKeepsNoDup(s.lists[i], z);
    var lists, idle := Retire(s, z).lists, [z] + s.idle;
    forall j: nat, y: nat | j in lists
      ensures y in lists[j] <==> y in s.zones && y !in idle && s.zones[y].index == j && s.zones[y].nfree > 0
    {
      assert j in s.lists && (y in s.lists[j] <==> y in s.zones && y !in s.idle && s.zones[y].index == j && s.zones[y].nfree > 0);
    }
  }

  lemma RetireKeeps(zp: nat, s: Slab, z: nat)
    requires Inv(zp, s) && z in s.zones && z !in s.idle && s.zones[z].index in s.lists && Retires(s, z)
    ensures Inv(zp, Retire(s, z))
  {
    hide PagesOk, UsageOk, ListsOk, ZonesOk;
    RetireLists(s, z);
    assert NoDup([z] + s.idle);
  }

  /** The page table entries of a new zone. */
  function MarkZone(n: nat, usage: map<nat, Usage>, z: nat): map<nat, Usage> {
    if n == 0 then usage else MarkZone(n - 1, usage, z)[z + n - 1 := Small(n - 1)]
  }

  /** The page table entries of a zone whose pages are given back. */
  function ClearZone(n: nat, usage: map<nat, Usage>, z: nat): map<nat, Usage> {
    if n == 0 then usage else ClearZone(n - 1, usage, z)[z + n - 1 := Unused]
  }

  lemma {:induction false} ZoneMarked(n: nat, usage: map<nat, Usage>, z: nat, p: nat)
    ensures var r := MarkZone(n, usage, z);
      if z <= p < z + n then p in r && r[p] == Small(p - z) else (p in r <==> p in usage) && (p in usage ==> r[p] == usage[p])
  {
    if n > 0 { ZoneMarked(n - 1, usage, z, p); }
  }

  lemma {:induction false} ZoneCleared(n: nat, usage: map<nat, Usage>, z: nat, p: nat)
    ensures var r := ClearZone(n, usage, z);
      if z <= p < z + n then p in r && r[p] == Unused else (p in r <==> p in usage) && (p in usage ==> r[p] == usage[p])
  {
    if n > 0 { ZoneCleared(n - 1, usage, z, p); }
  }

  /** The first idle zone gives its pages back. */
  function Release(zp: nat, s: Slab): Slab
    requires s.idle != [] && s.idle[0] in s.own
  {
    var z := s.idle[0];
    s.(zones := s.zones - {z}, idle := s.idle[1..], usage := ClearZone(zp, s.usage, z),
       own := s.own - {z}, runs := P.Free(s.runs, z, zp))
  }

  lemma OwnersApart(runs: seq<P.Run>, own: map<nat, nat>, a: nat, b: nat)
    requires PagesOk(runs, own) && a in own && b in own && a != b
    ensures !(b <= a < b + own[b])
  {
  }

  lemma ReleaseZonePages(zp: nat, s: Slab, y: nat, p: nat)
    requires UsageOk(zp, s.zones, s.usage, s.own) && PagesOk(s.runs, s.own) && s.idle != [] && s.idle[0] in s.zones
    requires y in s.zones && y != s.idle[0] && y <= p < y + zp
    ensures var u := ClearZone(zp, s.usage, s.idle[0]); p in u && u[p] == Small(p - y)
  {
    hide ClearZone, P.Canonical, P.Apart;
    ZonesApart(zp, s, y, s.idle[0]);
    ZoneCleared(zp, s.usage, s.idle[0], p);
  }

  lemma ReleaseLarge(zp: nat, s: Slab, a: nat)
    requires UsageOk(zp, s.zones, s.usage, s.own) && PagesOk(s.runs, s.own) && s.idle != [] && s.idle[0] in s.zones
    requires a in s.own && a !in s.zones
    ensures var u := ClearZone(zp, s.usage, s.idle[0]); a in u && u[a] == Large(s.own[a])
  {
    hide ClearZone, P.Canonical, P.Apart;
    OwnersApart(s.runs, s.own, a, s.idle[0]);
    ZoneCleared(zp, s.usage, s.idle[0], a);
  }

  lemma ReleaseUsage(zp: nat, s: Slab)
    requires UsageOk(zp, s.zones, s.usage, s.own) && PagesOk(s.runs, s.own) && s.idle != [] && s.idle[0] in s.zones
    ensures s.idle[0] in s.own && UsageOk(zp, s.zones - {s.idle[0]}, ClearZone(zp, s.usage, s.idle[0]), s.own - {s.idle[0]})
  {
    hide ClearZone, PagesOk;
    var z, u := s.idle[0], ClearZone(zp, s.usage, s.idle[0]);
    var zones, own := s.zones - {z}, s.own - {z};
    forall y, p: nat | y in zones && y <= p < y + zp ensures p in u && u[p] == Small(p - y) { ReleaseZonePages(zp, s, y, p); }
    forall a | a in own && a !in zones ensures a in u && u[a] == Large(own[a]) { ReleaseLarge(zp, s, a); }
  }

  lemma ReleaseKeeps(zp: nat, s: Slab)
    requires Inv(zp, s) && s.idle != []
    ensures s.idle[0] in s.own && Inv(zp, Release(zp, s))
    ensures forall d: nat :: LiveChunk(Release(zp, s).zones, d) <==> LiveChunk(s.zones, d)
  {
    hide ZoneOk, NoDup;
    var z := s.idle[0];
    FirstIdle(zp, s);
    ReleaseUsage(zp, s);
    ReturnPages(s.runs, s.own, z);
    IdleRest(s.zones, s.idle);
    TakeIdleLists(s);
    hide PagesOk, UsageOk, ListsOk, IdleOk;
    forall d: nat ensures LiveChunk(s.zones - {z}, d) <==> LiveChunk(s.zones, d) { LiveWithout(s.zones, z, d); }
  }

  lemma FirstIdle(zp: nat, s: Slab)
    requires Inv(zp, s) && s.idle != []
    ensures var z := s.idle[0]; z in s.zones && z in s.own && s.own[z] == zp && forall c: nat :: !Live(s.zones[z], c)
  {
    var z := s.idle[0];
    assert z in s.idle;
    FullWhenNoneLive(z * PAGE, zp * PAGE, s.zones[z]);
  }

  // ----- rt_malloc and rt_free -----

  datatype Pointer = Null | At(addr: nat)

  /** The size of a large allocation in pages, rounded up in a machine word. */
  function PagesFor(size: nat): nat { (size + PAGE - 1) % WORD / PAGE }

  /** A block of whole pages. */
  function MallocLarge(s: Slab, size: nat): (Slab, Pointer) {
    var n := PagesFor(size);
    var (runs, p) := P.Alloc(s.runs, n);
    if p.Null? then (s, Null)
    else (s.(runs := runs, own := s.own[p.page := n], usage := s.usage[p.page := Large(n)]), At(p.page * PAGE))
  }

  /** A chunk of a zone with free chunks, or of an idle zone, or of a new one. */
  ghost function MallocSmall(zp: nat, s: Slab, c: Class): (Slab, Pointer)
    requires Inv(zp, s) && 0 <= c.index < NZONES && OfClass(c.size, c.index) && c.size <= ZoneLimit(zp)
  {
    IndexListed(s, c.index);
    ZoneHolds(zp, c.size);
    NewZoneOk(0, zp * PAGE, c.size, c.index);
    if s.lists[c.index] != [] then
      HandOutReady(zp, s, c.index);
      var (r, chunk) := HandOut(s, c.index);
      (r, At(chunk))
    else if s.idle != [] then
      var (r, chunk) := Install(zp, TakeIdle(s), s.idle[0], c.size, c.index);
      (r, At(chunk))
    else
      var (runs, p) := P.Alloc(s.runs, zp);
      if p.Null? then (s, Null)
      else
        var z := p.page;
        var (r, chunk) := Install(zp, s.(runs := runs, own := s.own[z := zp], usage := MarkZone(zp, s.usage, z)), z, c.size, c.index);
        (r, At(chunk))
  }

  /** `rt_malloc` */
  ghost function Malloc(zp: nat, s: Slab, size: nat): (Slab, Pointer)
    requires Inv(zp, s)
  {
    if size == 0 then (s, Null)
    else if size >= ZoneLimit(zp) then MallocLarge(s, size)
    else
      RequestClass(zp, size);
      MallocSmall(zp, s, ZoneIndex(size))
  }

  lemma RequestClass(zp: nat, size: nat)
    requires 8 <= zp && 0 < size < ZoneLimit(zp)
    ensures var c := ZoneIndex(size);
      0 <= c.index < NZONES && OfClass(c.size, c.index) && size <= c.size <= ZoneLimit(zp)
  {
    ClassFits(size);
    hide ZoneIndex;
    IndexInTable(ZoneIndex(size).size);
  }

  // ----- what allocation gives -----

  /** A live chunk stays live, in its zone and of its size. */
  ghost predicate Stays(before: map<nat, Zone>, after: map<nat, Zone>, z: nat, d: nat) {
    z in before && Live(before[z], d) ==> z in after && Live(after[z], d) && after[z].chunk == before[z].chunk
  }

  /** A new small chunk of `size` bytes, which was not live. */
  ghost predicate NewChunk(before: map<nat, Zone>, after: map<nat, Zone>, c: nat, size: nat) {
    && !LiveChunk(before, c) && (forall d: nat :: LiveChunk(after, d) <==> LiveChunk(before, d) || d == c)
    && (exists z :: z in after && Live(after[z], c) && after[z].chunk == size)
    && (forall z: nat, d: nat :: Stays(before, after, z, d))
  }

  /** A large block: whole pages that are not a zone. */
  ghost predicate IsLarge(s: Slab, a: nat) { a in s.own && a !in s.zones }

  ghost predicate SameLarge(s: Slab, r: Slab) {
    forall a: nat :: (IsLarge(r, a) <==> IsLarge(s, a)) && (IsLarge(s, a) ==> r.own[a] == s.own[a])
  }

  ghost predicate Held(own: map<nat, nat>, x: nat) { exists a :: a in own && a <= x < a + own[a] }

  /** No page is lost and none is gained: the free pages and the pages handed out are together the
      same. */
  ghost predicate PagesKept(s: Slab, r: Slab) {
    forall x: nat :: P.IsFree(r.runs, x) || Held(r.own, x) <==> P.IsFree(s.runs, x) || Held(s.own, x)
  }

  lemma GrabKeepsPages(s: Slab, r: Slab, page: nat, n: nat)
    requires P.Taken(s.runs, r.runs, page, n) && page !in s.own && r.own == s.own[page := n]
    ensures PagesKept(s, r)
  {
    hide P.IsFree;
    forall x: nat ensures Held(r.own, x) <==> Held(s.own, x) || page <= x < page + n {
      if Held(s.own, x) { var a :| a in s.own && a <= x < a + s.own[a]; assert a in r.own; }
      if page <= x < page + n { assert page in r.own; }
    }
  }

  lemma SizeOfIndex(a: nat, b: nat, index: nat)
    requires OfClass(a, index) && OfClass(b, index)
    ensures a == b
  {
    hide IndexOfSize, ClassSize;
    if a < b { IndexIncreases(a, b); }
    if b < a { IndexIncreases(b, a); }
  }

  lemma HandOutNew(zp: nat, s: Slab, i: nat, size: nat)
    requires Inv(zp, s) && i < NZONES && s.lists[i] != [] && OfClass(size, i)
    ensures (HandOutReady(zp, s, i); var (r, c) := HandOut(s, i); Inv(zp, r) && NewChunk(s.zones, r.zones, c, size))
  {
    hide PagesOk, UsageOk, IdleOk, ListsOk;
    HandOutReady(zp, s, i);
    HandOutKeeps(zp, s, i);
    HandOutLive(zp, s, i);
    var z := s.lists[i][0];
    TakeOk(z * PAGE, zp * PAGE, s.zones[z]);
    SizeOfIndex(size, s.zones[z].chunk, i);
    var (r, c) := HandOut(s, i);
    assert z in r.zones && Live(r.zones[z], c);
    forall y: nat, d: nat ensures Stays(s.zones, r.zones, y, d) { assert Live(s.zones[z], d) ==> Live(r.zones[z], d); }
  }

  /** Setting up a zone on pages that no other zone uses. */
  lemma InstallNew(zp: nat, s: Slab, z: nat, chunk: nat, i: nat)
    requires 8 <= zp && i < NZONES && OfClass(chunk, i) && chunk <= ZoneLimit(zp)
    requires ZonesOk(zp, s.zones) && ListsOk(s.zones, s.lists, s.idle) && IdleOk(s.zones, s.idle) && z !in s.idle && PagesOk(s.runs, s.own)
    requires z !in s.zones && UsageOk(zp, s.zones[z := NewOf(zp, z, chunk, i)], s.usage, s.own)
    ensures zp * PAGE >= Offset(chunk) + chunk && i in s.lists
    ensures var (r, c) := Install(zp, s, z, chunk, i); Inv(zp, r) && NewChunk(s.zones, r.zones, c, chunk)
  {
    hide PagesOk, UsageOk, IdleOk, ListsOk, ZoneOk, Live;
    InstallKeeps(zp, s, z, chunk, i);
    ZoneHolds(zp, chunk);
    NewZoneOk(z * PAGE, zp * PAGE, chunk, i);
    var (r, c) := Install(zp, s, z, chunk, i);
    var zn := NewZone(z * PAGE, zp * PAGE, chunk, i);
    assert z in r.zones && Live(r.zones[z], c);
    forall d: nat ensures LiveChunk(r.zones, d) <==> LiveChunk(s.zones, d) || d == c {
      LiveReplaced(s.zones, z, zn, d);
      LiveElsewhere(s.zones, z, d);
    }
    LiveIsChunk(zn, c);
    NotElsewhere(zp, r, z, zn, c);
    LiveElsewhere(s.zones, z, c);
    OthersSame(s.zones, r.zones, z, c);
  }

  lemma LiveIsChunk(zn: Zone, c: nat)
    requires Live(zn, c)
    ensures IsChunk(zn, c)
  {
  }

  lemma LiveElsewhere(zones: map<nat, Zone>, z: nat, d: nat)
    requires z !in zones
    ensures LiveChunk(zones, d) <==> exists y :: y in zones && y != z && Live(zones[y], d)
  {
  }

  lemma OthersSame(zones: map<nat, Zone>, r: map<nat, Zone>, z: nat, c: nat)
    requires z !in zones && z in r && r == zones[z := r[z]] && forall y :: y in r && y != z ==> !Live(r[y], c)
    ensures !LiveChunk(zones, c)
  {
    forall y | y in zones ensures !Live(zones[y], c) { assert y in r && r[y] == zones[y]; }
  }

  /** The pages of a zone that has just been allocated. */
  lemma GrabbedUsage(zp: nat, s: Slab, z: nat, zn: Zone)
    requires UsageOk(zp, s.zones, s.usage, s.own) && zp > 0 && forall a :: a in s.own ==> s.own[a] > 0 && (a + s.own[a] <= z || z + zp <= a)
    ensures z !in s.zones && UsageOk(zp, s.zones[z := zn], MarkZone(zp, s.usage, z), s.own[z := zp])
  {
    hide MarkZone;
    var u, own, zones := MarkZone(zp, s.usage, z), s.own[z := zp], s.zones[z := zn];
    assert z in s.zones ==> z in s.own;
    forall y, p: nat | y in zones && y <= p < y + zp ensures p in u && u[p] == Small(p - y) {
      if y != z { assert y in s.own; }
      ZoneMarked(zp, s.usage, z, p);
    }
    forall a | a in own && a !in zones ensures a in u && u[a] == Large(own[a]) {
      assert a in s.own;
      ZoneMarked(zp, s.usage, z, a);
    }
  }

  lemma OwnPositive(runs: seq<P.Run>, own: map<nat, nat>)
    requires PagesOk(runs, own)
    ensures forall a :: a in own ==> own[a] > 0
  {
  }

  /** Taking whole pages for a large allocation. */
  lemma LargeUsage(zp: nat, s: Slab, page: nat, n: nat)
    requires UsageOk(zp, s.zones, s.usage, s.own) && n > 0
    requires forall a :: a in s.own ==> s.own[a] > 0 && (a + s.own[a] <= page || page + n <= a)
    ensures page !in s.own && UsageOk(zp, s.zones, s.usage[page := Large(n)], s.own[page := n])
  {
    assert forall z :: z in s.zones ==> z in s.own;
  }

  /** `rt_malloc`: nothing changes, or a chunk that was not live becomes live, of the size of the
      request's class, or a block of as few whole pages as hold the request is handed out. */
  ghost predicate Allocated(zp: nat, s: Slab, r: Slab, to: Pointer, size: nat) {
    match to
    case Null => r == s
    case At(addr) =>
      && PagesKept(s, r)
      && if size < ZoneLimit(zp) then NewChunk(s.zones, r.zones, addr, ZoneIndex(size).size) && SameLarge(s, r)
         else addr % PAGE == 0 && r.zones == s.zones && addr / PAGE !in s.own && r.own == s.own[addr / PAGE := PagesFor(size)]
  }

  lemma MallocKeeps(zp: nat, s: Slab, size: nat)
    requires Inv(zp, s)
    ensures var (r, to) := Malloc(zp, s, size); Inv(zp, r) && Allocated(zp, s, r, to, size)
  {
    hide ZonesOk, ListsOk, IdleOk, PagesOk, UsageOk, NewChunk, ZoneIndex;
    if size == 0 {
    } else if size >= ZoneLimit(zp) {
      LargeKeeps(zp, s, size);
    } else {
      RequestClass(zp, size);
      SmallKeeps(zp, s, size);
    }
  }

  lemma LargeKeeps(zp: nat, s: Slab, size: nat)
    requires Inv(zp, s) && size > 0 && size >= ZoneLimit(zp)
    ensures var (r, to) := Malloc(zp, s, size); Inv(zp, r) && Allocated(zp, s, r, to, size)
  {
    hide ZonesOk, ListsOk, IdleOk, PagesOk, UsageOk;
    var n := PagesFor(size);
    var (runs, p) := P.Alloc(s.runs, n);
    if p.At? {
      GrabPages(s.runs, s.own, n);
      OwnPositive(s.runs, s.own);
      LargeUsage(zp, s, p.page, n);
      WholePages(p.page);
      GrabKeepsPages(s, Malloc(zp, s, size).0, p.page, n);
    }
  }

  lemma WholePages(page: nat)
    ensures page * PAGE % PAGE == 0 && page * PAGE / PAGE == page
  {
  }

  lemma SmallKeeps(zp: nat, s: Slab, size: nat)
    requires Inv(zp, s) && 0 < size < ZoneLimit(zp)
    ensures var (r, to) := Malloc(zp, s, size); Inv(zp, r) && Allocated(zp, s, r, to, size)
  {
    hide ZonesOk, ListsOk, IdleOk, PagesOk, UsageOk, NewChunk, ZoneIndex, Live, LiveChunk;
    var c := ZoneIndex(size);
    RequestClass(zp, size);
    IndexListed(s, c.index);
    if s.lists[c.index] != [] {
      HandOutReady(zp, s, c.index);
      HandOutNew(zp, s, c.index, c.size);
    } else if s.idle != [] {
      ReuseKeeps(zp, s, size, c);
    } else {
      FreshKeeps(zp, s, size, c);
    }
  }

  lemma SameLive(a: map<nat, Zone>, s: map<nat, Zone>, b: map<nat, Zone>, c: nat, size: nat)
    requires NewChunk(a, b, c, size) && forall d: nat :: LiveChunk(a, d) <==> LiveChunk(s, d)
    requires forall z: nat, d: nat :: Stays(s, a, z, d)
    ensures NewChunk(s, b, c, size)
  {
    forall z: nat, d: nat ensures Stays(s, b, z, d) { assert Stays(s, a, z, d) && Stays(a, b, z, d); }
  }

  lemma ReuseKeeps(zp: nat, s: Slab, size: nat, c: Class)
    requires Inv(zp, s) && s.idle != [] && c.index >= 0 && OfClass(c.size, c.index) && c.index < NZONES && size <= c.size <= ZoneLimit(zp)
    ensures zp * PAGE >= Offset(c.size) + c.size && c.index in TakeIdle(s).lists
    ensures var (r, chunk) := Install(zp, TakeIdle(s), s.idle[0], c.size, c.index);
      Inv(zp, r) && NewChunk(s.zones, r.zones, chunk, c.size) && SameLarge(s, r) && PagesKept(s, r)
  {
    hide ZonesOk, ListsOk, IdleOk, PagesOk, UsageOk, NewChunk, Live, LiveChunk;
    var z, t := s.idle[0], TakeIdle(s);
    TakeIdleKeeps(zp, s, NewOf(zp, z, c.size, c.index));
    InstallNew(zp, t, z, c.size, c.index);
    var (r, chunk) := Install(zp, t, z, c.size, c.index);
    SameLive(t.zones, s.zones, r.zones, chunk, c.size);
  }

  lemma FreshKeeps(zp: nat, s: Slab, size: nat, c: Class)
    requires Inv(zp, s) && s.idle == [] && c.index >= 0 && OfClass(c.size, c.index) && c.index < NZONES && size <= c.size <= ZoneLimit(zp)
    ensures zp * PAGE >= Offset(c.size) + c.size && c.index in s.lists
    ensures var (runs, p) := P.Alloc(s.runs, zp);
      p.At? ==> var (r, chunk) := Install(zp, s.(runs := runs, own := s.own[p.page := zp], usage := MarkZone(zp, s.usage, p.page)), p.page, c.size, c.index);
        Inv(zp, r) && NewChunk(s.zones, r.zones, chunk, c.size) && SameLarge(s, r) && PagesKept(s, r)
  {
    hide ZonesOk, ListsOk, IdleOk, PagesOk, UsageOk, NewChunk, Live, LiveChunk, PagesKept, SameLarge, MarkZone, P.Taken, NewZone, Offset, P.Alloc;
    var (runs, p) := P.Alloc(s.runs, zp);
    IndexListed(s, c.index);
    ZoneHolds(zp, c.size);
    NewZoneOk(0, zp * PAGE, c.size, c.index);
    if p.At? {
      var z := p.page;
      GrabPages(s.runs, s.own, zp);
      OwnPositive(s.runs, s.own);
      var t := s.(runs := runs, own := s.own[z := zp], usage := MarkZone(zp, s.usage, z));
      GrabbedUsage(zp, s, z, NewOf(zp, z, c.size, c.index));
      InstallNew(zp, t, z, c.size, c.index);
      var (r, chunk) := Install(zp, t, z, c.size, c.index);
      NotOwnedYet(zp, s, z);
      GrabKeepsPages(s, r, z, zp);
      FreshLarge(s, r, z, zp);
    }
  }

  lemma FreshLarge(s: Slab, r: Slab, z: nat, zp: nat)
    requires z !in s.own && r.own == s.own[z := zp] && r.zones.Keys == s.zones.Keys + {z}
    ensures SameLarge(s, r)
  {
  }

  lemma NotOwnedYet(zp: nat, s: Slab, z: nat)
    requires zp > 0 && forall a :: a in s.own ==> s.own[a] > 0 && (a + s.own[a] <= z || z + zp <= a)
    ensures z !in s.own
  {
  }

  // ----- rt_free -----

  /** A chunk goes back to its zone, which may become idle, and an idle zone too many goes back to the
      page allocator. */
  ghost function FreeSmall(zp: nat, s: Slab, z: nat, c: nat): Slab
    requires Inv(zp, s) && z in s.zones && Live(s.zones[z], c)
  {
    GiveBackKeeps(zp, s, z, c);
    var t := GiveBack(s, z, c);
    if Retires(t, z) then
      RetireKeeps(zp, t, z);
      var u := Retire(t, z);
      if |u.idle| > RELEASE then
        ReleaseKeeps(zp, u);
        Release(zp, u)
      else u
    else t
  }

  function FreeLarge(s: Slab, page: nat, n: nat): Slab {
    s.(runs := P.Free(s.runs, page, n), own := s.own - {page}, usage := s.usage[page := Large(0)])
  }

  ghost predicate LargeAt(s: Slab, addr: nat) { addr % PAGE == 0 && IsLarge(s, addr / PAGE) }

  /** The pointers that `rt_malloc` has returned and that have not been given back. */
  ghost predicate Freeable(s: Slab, addr: nat) { LiveChunk(s.zones, addr) || LargeAt(s, addr) }

  /** The page table says which kind of block a pointer is, and where its zone is. */
  lemma LookupKind(zp: nat, s: Slab, addr: nat)
    requires Inv(zp, s) && Freeable(s, addr)
    ensures addr / PAGE in s.usage
    ensures match s.usage[addr / PAGE]
      case Unused => false
      case Small(off) => off <= addr / PAGE && addr / PAGE - off in s.zones && Live(s.zones[addr / PAGE - off], addr) && !LargeAt(s, addr)
      case Large(n) => LargeAt(s, addr) && n == s.own[addr / PAGE] && !LiveChunk(s.zones, addr)
  {
    hide ListsOk, IdleOk, ZonesOk, PagesOk, IsChunk;
    if z :| z in s.zones && Live(s.zones[z], addr) {
      LookupFindsZone(zp, s, z, addr);
      InsideOwner(zp, s, z, addr / PAGE);
    } else {
      assert LargeAt(s, addr);
    }
  }

  /** No other block of pages starts inside a zone. */
  lemma InsideOwner(zp: nat, s: Slab, z: nat, page: nat)
    requires PagesOk(s.runs, s.own) && UsageOk(zp, s.zones, s.usage, s.own) && z in s.zones && z <= page < z + zp
    ensures !IsLarge(s, page)
  {
    if page in s.own && page != z { OwnersApart(s.runs, s.own, page, z); }
  }

  ghost function Free(zp: nat, s: Slab, addr: nat): Slab
    requires Inv(zp, s) && Freeable(s, addr)
  {
    hide Inv, Live, LiveChunk, FreeSmall;
    LookupKind(zp, s, addr);
    match s.usage[addr / PAGE]
    case Large(n) => FreeLarge(s, addr / PAGE, n)
    case Small(off) => FreeSmall(zp, s, addr / PAGE - off, addr)
    case Unused => s
  }

  // ----- when a zone is given up -----

  /** The chunk is the last live one of its zone. */
  ghost predicate LastLive(zn: Zone, c: nat) { forall d: nat :: Live(zn, d) ==> d == c }

  /** There is another zone of this index that one can allocate from. */
  ghost predicate HasOther(s: Slab, z: nat)
    requires z in s.zones
  {
    exists y :: y in s.zones && y != z && y !in s.idle && s.zones[y].index == s.zones[z].index && s.zones[y].nfree > 0
  }

  lemma RetiresWhen(zp: nat, s: Slab, z: nat, c: nat)
    requires Inv(zp, s) && z in s.zones && Live(s.zones[z], c) && s.zones[z].index in s.lists
    ensures var t := GiveBack(s, z, c);
      && z in t.zones && t.zones[z].index in t.lists && (Retires(t, z) <==> LastLive(s.zones[z], c) && HasOther(s, z))
      && t.idle == s.idle && t.runs == s.runs && t.own == s.own && t.zones.Keys == s.zones.Keys
  {
    hide PagesOk, UsageOk, IdleOk, ListsOk, NoDup, ZoneOk, Live, HasOther;
    GiveBackKeeps(zp, s, z, c);
    var t := GiveBack(s, z, c);
    ZoneIsOk(zp, s, z);
    ZoneIsOk(zp, t, z);
    GiveOk(z * PAGE, zp * PAGE, s.zones[z], c);
    FullWhenNoneLive(z * PAGE, zp * PAGE, t.zones[z]);
    if LastLive(s.zones[z], c) {
      forall d: nat ensures !Live(t.zones[z], d) { }
    }
    OtherListed(zp, s, t, z, c);
  }

  lemma ZoneIsOk(zp: nat, s: Slab, z: nat)
    requires Inv(zp, s) && z in s.zones
    ensures ZoneOk(z * PAGE, zp * PAGE, s.zones[z])
  {
    hide PagesOk, UsageOk, IdleOk, ListsOk, NoDup, ZoneOk;
  }

  lemma OtherListed(zp: nat, s: Slab, t: Slab, z: nat, c: nat)
    requires Inv(zp, s) && Inv(zp, t) && z in s.zones && s.zones[z].index in s.lists && t == GiveBack(s, z, c) && z !in t.idle
    requires z in t.zones && t.zones[z].index in t.lists && z in t.lists[t.zones[z].index]
    ensures |t.lists[t.zones[z].index]| > 1 <==> HasOther(s, z)
  {
    hide ZonesOk, PagesOk, UsageOk, IdleOk;
    var i := t.zones[z].index;
    var l := t.lists[i];
    if |l| > 1 {
      var y := if l[0] == z then l[1] else l[0];
      assert y in l && y != z;
      assert y in t.zones && y !in t.idle && t.zones[y].index == i && t.zones[y].nfree > 0;
      assert s.zones[y] == t.zones[y];
    }
    if HasOther(s, z) {
      var y :| y in s.zones && y != z && y !in s.idle && s.zones[y].index == s.zones[z].index && s.zones[y].nfree > 0;
      assert t.zones[y] == s.zones[y];
      assert y in l && z in l;
    }
  }

  /** A zone is given up exactly when its last live chunk is given back and there is another to allocate
      from; it then becomes idle, or if two are idle already, its pages are free again. */
  lemma GivesUp(zp: nat, s: Slab, z: nat, c: nat)
    requires Inv(zp, s) && z in s.zones && Live(s.zones[z], c)
    ensures var r := FreeSmall(zp, s, z, c);
      if LastLive(s.zones[z], c) && HasOther(s, z) then
        if |s.idle| < RELEASE then r.idle == [z] + s.idle && r.zones.Keys == s.zones.Keys && r.runs == s.runs
        else r.idle == s.idle && r.zones.Keys == s.zones.Keys - {z} && r.runs == P.Free(s.runs, z, zp)
      else r.idle == s.idle && r.zones.Keys == s.zones.Keys && r.runs == s.runs
  {
    hide Inv, Live, LastLive, HasOther, GiveBack, P.Free;
    GiveBackKeeps(zp, s, z, c);
    RetiresWhen(zp, s, z, c);
    var t := GiveBack(s, z, c);
    if Retires(t, z) {
      RetireKeeps(zp, t, z);
      assert ([z] + t.idle)[1..] == t.idle;
      if |Retire(t, z).idle| > RELEASE { ReleaseKeeps(zp, Retire(t, z)); }
    }
  }

  /** `rt_free`: exactly the block given back is gone. */
  ghost predicate Freed(s: Slab, r: Slab, addr: nat) {
    && PagesKept(s, r)
    && (forall d: nat :: LiveChunk(r.zones, d) <==> LiveChunk(s.zones, d) && d != addr)
    && (forall z: nat, d: nat :: d != addr ==> Stays(s.zones, r.zones, z, d))
    && (forall a: nat :: (IsLarge(r, a) <==> IsLarge(s, a) && a * PAGE != addr) && (IsLarge(r, a) ==> r.own[a] == s.own[a]))
  }

  lemma ReturnKeepsPages(s: Slab, r: Slab, a: nat)
    requires PagesOk(s.runs, s.own) && a in s.own && r.own == s.own - {a} && r.runs == P.Free(s.runs, a, s.own[a])
    ensures PagesKept(s, r)
  {
    assert P.Apart(s.runs, a, s.own[a]) && s.own[a] > 0;
    P.FreeAdds(s.runs, a, s.own[a]);
    hide P.IsFree, P.Free, PagesOk;
    forall x: nat ensures Held(s.own, x) <==> Held(r.own, x) || a <= x < a + s.own[a] {
      if Held(r.own, x) { var b :| b in r.own && b <= x < b + r.own[b]; assert b in s.own; }
      if Held(s.own, x) { var b :| b in s.own && b <= x < b + s.own[b]; assert b != a ==> b in r.own; }
    }
  }

  lemma FreeLargeKeeps(zp: nat, s: Slab, page: nat)
    requires Inv(zp, s) && IsLarge(s, page)
    ensures var r := FreeLarge(s, page, s.own[page]); Inv(zp, r) && Freed(s, r, page * PAGE)
  {
    hide ZonesOk, ListsOk, IdleOk, PagesKept, P.Free, Live, LiveChunk;
    var r := FreeLarge(s, page, s.own[page]);
    ReturnPages(s.runs, s.own, page);
    ReturnKeepsPages(s, r, page);
    FreeLargeUsage(zp, s, page);
    NotChunk(zp, s, page);
    assert forall a: nat :: a * PAGE == page * PAGE ==> a == page;
  }

  lemma FreeLargeUsage(zp: nat, s: Slab, page: nat)
    requires UsageOk(zp, s.zones, s.usage, s.own) && PagesOk(s.runs, s.own) && IsLarge(s, page)
    ensures UsageOk(zp, s.zones, s.usage[page := Large(0)], s.own - {page})
  {
    hide PagesOk;
    var u := s.usage[page := Large(0)];
    forall z, p: nat | z in s.zones && z <= p < z + zp ensures p in u && u[p] == Small(p - z) { InsideOwner(zp, s, z, p); }
  }

  /** A live chunk does not start where a block of whole pages does. */
  lemma NotChunk(zp: nat, s: Slab, page: nat)
    requires Inv(zp, s) && IsLarge(s, page)
    ensures !LiveChunk(s.zones, page * PAGE)
  {
    hide ListsOk, IdleOk, ZonesOk, PagesOk, UsageOk, IsChunk;
    if z :| z in s.zones && Live(s.zones[z], page * PAGE) {
      LookupFindsZone(zp, s, z, page * PAGE);
      WholePages(page);
      InsideOwner(zp, s, z, page);
    }
  }

  lemma GiveBackStays(zp: nat, s: Slab, z: nat, c: nat, y: nat, d: nat)
    requires Inv(zp, s) && z in s.zones && Live(s.zones[z], c) && s.zones[z].index in s.lists && d != c
    ensures Stays(s.zones, GiveBack(s, z, c).zones, y, d)
  {
    hide ListsOk, IdleOk, PagesOk, UsageOk, ZoneOk;
    GiveOk(z * PAGE, zp * PAGE, s.zones[z], c);
  }

  lemma ReleaseStays(zp: nat, s: Slab, y: nat, d: nat)
    requires Inv(zp, s) && s.idle != [] && s.idle[0] in s.own
    ensures Stays(s.zones, Release(zp, s).zones, y, d)
  {
    FirstIdle(zp, s);
  }

  /** Releasing takes a zone and the block it is on. */
  lemma ReleasePages(zp: nat, s: Slab)
    requires Inv(zp, s) && s.idle != [] && s.idle[0] in s.own
    ensures var r := Release(zp, s); PagesKept(s, r) && forall a: nat :: (IsLarge(r, a) <==> IsLarge(s, a)) && (IsLarge(s, a) ==> r.own[a] == s.own[a])
  {
    hide ZonesOk, ListsOk, PagesOk, PagesKept, P.Free, ClearZone;
    FirstIdle(zp, s);
    ReturnKeepsPages(s, Release(zp, s), s.idle[0]);
  }

  lemma FreeSmallKeeps(zp: nat, s: Slab, z: nat, c: nat)
    requires Inv(zp, s) && z in s.zones && Live(s.zones[z], c)
    ensures var r := FreeSmall(zp, s, z, c);
      && Inv(zp, r) && PagesKept(s, r) && SameLarge(s, r)
      && (forall d: nat :: LiveChunk(r.zones, d) <==> LiveChunk(s.zones, d) && d != c)
      && (forall y: nat, d: nat :: d != c ==> Stays(s.zones, r.zones, y, d))
  {
    hide Inv, LiveChunk, Live, PagesKept, PagesOk;
    GiveBackKeeps(zp, s, z, c);
    var t, r := GiveBack(s, z, c), FreeSmall(zp, s, z, c);
    GiveBackPages(s, z, c);
    forall y: nat, d: nat | d != c ensures Stays(s.zones, t.zones, y, d) { GiveBackStays(zp, s, z, c, y, d); }
    if Retires(t, z) {
      RetireKeeps(zp, t, z);
      var u := Retire(t, z);
      KeptSame(s, t, u);
      if |u.idle| > RELEASE {
        ReleaseKeeps(zp, u);
        ReleasePages(zp, u);
        forall y: nat, d: nat | d != c ensures Stays(s.zones, r.zones, y, d) {
          ReleaseStays(zp, u, y, d);
          assert Stays(s.zones, t.zones, y, d);
        }
        KeptAgain(s, u, r);
      }
    }
  }

  lemma GiveBackPages(s: Slab, z: nat, c: nat)
    requires z in s.zones && s.zones[z].index in s.lists
    ensures var t := GiveBack(s, z, c); PagesKept(s, t) && SameLarge(s, t) && t.runs == s.runs && t.own == s.own && t.zones.Keys == s.zones.Keys
  {
  }

  lemma KeptSame(s: Slab, t: Slab, u: Slab)
    requires PagesKept(s, t) && u.runs == t.runs && u.own == t.own
    ensures PagesKept(s, u)
  {
  }

  lemma KeptAgain(s: Slab, u: Slab, r: Slab)
    requires u.runs == s.runs && u.own == s.own && PagesKept(u, r)
    ensures PagesKept(s, r)
  {
  }

  /** `rt_free` keeps the invariant, and exactly the block given back is gone. */
  lemma FreeKeeps(zp: nat, s: Slab, addr: nat)
    requires Inv(zp, s) && Freeable(s, addr)
    ensures Inv(zp, Free(zp, s, addr)) && Freed(s, Free(zp, s, addr), addr)
  {
    hide Inv, LiveChunk, Live, PagesKept, FreeSmall, FreeLarge;
    LookupKind(zp, s, addr);
    match s.usage[addr / PAGE] {
      case Large(n) => FreeLargeKeeps(zp, s, addr / PAGE);
      case Small(off) =>
        FreeSmallKeeps(zp, s, addr / PAGE - off, addr);
        NotLargeThere(s, addr);
      case Unused => assert false;
    }
  }

  lemma NotLargeThere(s: Slab, addr: nat)
    requires !LargeAt(s, addr)
    ensures forall a: nat :: IsLarge(s, a) ==> a * PAGE != addr
  {
    forall a: nat | IsLarge(s, a) ensures a * PAGE != addr { WholePages(a); }
  }

  // ----- what a caller sees -----

  /** `addr` is a block of `m` bytes that has been handed out. */
  ghost predicate Block(s: Slab, addr: nat, m: nat) {
    || (exists z :: z in s.zones && Live(s.zones[z], addr) && s.zones[z].chunk == m)
    || (LargeAt(s, addr) && m == s.own[addr / PAGE] * PAGE)
  }

  /** Two blocks never share a byte, and a block has one size. */
  lemma BlocksApart(zp: nat, s: Slab, a: nat, m: nat, b: nat, n: nat)
    requires Inv(zp, s) && Block(s, a, m) && Block(s, b, n)
    ensures if a == b then m == n else a + m <= b || b + n <= a
  {
    hide ListsOk, IdleOk, ZonesOk, PagesOk, UsageOk, IsChunk, Live;
    if y :| y in s.zones && Live(s.zones[y], a) && s.zones[y].chunk == m {
      if z :| z in s.zones && Live(s.zones[z], b) && s.zones[z].chunk == n {
        ChunksOfZonesApart(zp, s, y, a, z, b);
      } else {
        ChunkApartFromPages(zp, s, y, a, b / PAGE);
      }
    } else if z :| z in s.zones && Live(s.zones[z], b) && s.zones[z].chunk == n {
      ChunkApartFromPages(zp, s, z, b, a / PAGE);
    } else {
      WholeAddr(a);
      WholeAddr(b);
      if a != b { PagesApart(s, a / PAGE, b / PAGE); }
    }
  }

  lemma ChunksOfZonesApart(zp: nat, s: Slab, y: nat, a: nat, z: nat, b: nat)
    requires Inv(zp, s) && y in s.zones && z in s.zones && Live(s.zones[y], a) && Live(s.zones[z], b)
    ensures if a == b then y == z else a + s.zones[y].chunk <= b || b + s.zones[z].chunk <= a
  {
    hide ListsOk, IdleOk, ZonesOk, PagesOk, UsageOk, IsChunk;
    LiveInZone(zp, s, y, a);
    LiveInZone(zp, s, z, b);
    if y == z {
      if a != b { LiveApart(s.zones[y], a, b); }
    } else {
      ZonesApart(zp, s, y, z);
    }
  }

  lemma ChunkApartFromPages(zp: nat, s: Slab, z: nat, c: nat, page: nat)
    requires Inv(zp, s) && z in s.zones && Live(s.zones[z], c) && IsLarge(s, page)
    ensures c + s.zones[z].chunk <= page * PAGE || (page + s.own[page]) * PAGE <= c
    ensures c != page * PAGE
  {
    hide ListsOk, IdleOk, ZonesOk, IsChunk;
    LiveInZone(zp, s, z, c);
  }

  lemma WholeAddr(a: nat)
    ensures a % PAGE == 0 ==> a / PAGE * PAGE == a
  {
  }

  lemma PagesApart(s: Slab, p: nat, q: nat)
    requires PagesOk(s.runs, s.own) && p in s.own && q in s.own && p != q
    ensures (p + s.own[p]) * PAGE <= q * PAGE || (q + s.own[q]) * PAGE <= p * PAGE
  {
  }

  /** A request that is served gets a new block, of the size of its class or of as few whole pages as hold
      it; the other blocks stay as they are. */
  lemma MallocGives(zp: nat, s: Slab, size: nat) returns (m: nat)
    requires Inv(zp, s) && size < WORD && Malloc(zp, s, size).1.At?
    ensures var (r, to) := Malloc(zp, s, size);
      && size <= m && (if size < ZoneLimit(zp) then m == ZoneIndex(size).size else m % PAGE == 0 && m < size + PAGE)
      && (forall k: nat :: !Block(s, to.addr, k))
      && forall a: nat, k: nat :: Block(r, a, k) <==> Block(s, a, k) || (a == to.addr && k == m)
  {
    hide Inv, Malloc, PagesKept, Block, LargeAt;
    var (r, to) := Malloc(zp, s, size);
    MallocKeeps(zp, s, size);
    ZoneLimitPositive(zp, s);
    if size < ZoneLimit(zp) {
      MallocNotZero(zp, s, size);
      RequestClass(zp, size);
      m := SmallBlocks(zp, s, r, to.addr, ZoneIndex(size).size);
    } else {
      MallocNotZero(zp, s, size);
      PagesCover(size);
      m := PagesFor(size) * PAGE;
      LargeBlocks(zp, s, r, to.addr, PagesFor(size));
    }
  }

  lemma ZoneLimitPositive(zp: nat, s: Slab)
    requires Inv(zp, s)
    ensures ZoneLimit(zp) >= 8192
  {
  }

  lemma MallocNotZero(zp: nat, s: Slab, size: nat)
    requires Inv(zp, s) && Malloc(zp, s, size).1.At?
    ensures size > 0 && zp >= 8 && (size >= ZoneLimit(zp) ==> PagesFor(size) > 0)
  {
  }

  /** Rounding up wraps to no page at all when the size is within a page of the word. */
  lemma PagesCover(size: nat)
    requires size < WORD
    ensures PagesFor(size) > 0 ==> size <= PagesFor(size) * PAGE < size + PAGE && PagesFor(size) * PAGE % PAGE == 0
  {
  }

  lemma SmallBlocks(zp: nat, s: Slab, r: Slab, c: nat, size: nat) returns (m: nat)
    requires Inv(zp, s) && Inv(zp, r) && NewChunk(s.zones, r.zones, c, size) && SameLarge(s, r)
    ensures m == size && (forall k: nat :: !Block(s, c, k))
    ensures forall a: nat, k: nat :: Block(r, a, k) <==> Block(s, a, k) || (a == c && k == m)
  {
    hide Inv, Live;
    var z :| z in r.zones && Live(r.zones[z], c) && r.zones[z].chunk == size;
    m := r.zones[z].chunk;
    assert Block(r, c, m);
    LargeNotLive(zp, r, c);
    forall a: nat, k: nat ensures Block(r, a, k) <==> Block(s, a, k) || (a == c && k == m) {
      BlockStays(s, r, a, k);
      if Block(r, a, k) && a == c { BlocksApart(zp, r, a, k, c, m); }
      if Block(r, a, k) && a != c { BlockWas(zp, s, r, a, k, c); }
    }
  }

  lemma LargeNotLive(zp: nat, r: Slab, c: nat)
    requires Inv(zp, r) && LiveChunk(r.zones, c)
    ensures !LargeAt(r, c)
  {
    hide Inv, Live;
    if LargeAt(r, c) { NotChunk(zp, r, c / PAGE); }
  }

  lemma BlockStays(s: Slab, r: Slab, a: nat, k: nat)
    requires (forall z: nat :: Stays(s.zones, r.zones, z, a)) && SameLarge(s, r)
    ensures Block(s, a, k) ==> Block(r, a, k)
  {
    hide Live;
    if z :| z in s.zones && Live(s.zones[z], a) && s.zones[z].chunk == k { assert Stays(s.zones, r.zones, z, a); }
  }

  /** A block that is not the new one was there, and had its size. */
  lemma BlockWas(zp: nat, s: Slab, r: Slab, a: nat, k: nat, c: nat)
    requires Inv(zp, r) && Block(r, a, k) && a != c && SameLarge(s, r) && (forall z: nat :: Stays(s.zones, r.zones, z, a))
    requires LiveChunk(r.zones, a) ==> LiveChunk(s.zones, a)
    ensures Block(s, a, k)
  {
    hide Inv, Live;
    if y :| y in r.zones && Live(r.zones[y], a) && r.zones[y].chunk == k {
      assert LiveChunk(s.zones, a);
      var z :| z in s.zones && Live(s.zones[z], a);
      assert Stays(s.zones, r.zones, z, a);
      BlocksApart(zp, r, a, k, a, r.zones[z].chunk);
    }
  }

  lemma LargeBlocks(zp: nat, s: Slab, r: Slab, addr: nat, n: nat)
    requires Inv(zp, s) && Inv(zp, r) && addr % PAGE == 0 && r.zones == s.zones && addr / PAGE !in s.own && r.own == s.own[addr / PAGE := n]
    ensures (forall k: nat :: !Block(s, addr, k))
    ensures forall a: nat, k: nat :: Block(r, a, k) <==> Block(s, a, k) || (a == addr && k == n * PAGE)
  {
    hide ZonesOk, ListsOk, IdleOk, PagesOk, Live;
    assert IsLarge(r, addr / PAGE);
    NotChunk(zp, r, addr / PAGE);
  }

  /** Giving a block back takes exactly that block away. */
  lemma FreeTakes(zp: nat, s: Slab, addr: nat)
    requires Inv(zp, s) && Freeable(s, addr)
    ensures forall a: nat, k: nat :: Block(Free(zp, s, addr), a, k) <==> Block(s, a, k) && a != addr
  {
    hide Inv, Free, PagesKept, Live;
    FreeKeeps(zp, s, addr);
    var r := Free(zp, s, addr);
    forall a: nat, k: nat ensures Block(r, a, k) <==> Block(s, a, k) && a != addr {
      if a == addr {
        FreedGone(s, r, addr, k);
      } else {
        FreedStays(s, r, addr, a, k);
        if Block(r, a, k) { FreedWas(zp, s, r, addr, a, k); }
      }
    }
  }

  lemma FreedGone(s: Slab, r: Slab, addr: nat, k: nat)
    requires Freed(s, r, addr)
    ensures !Block(r, addr, k)
  {
    hide Live, PagesKept, Stays;
    WholeAddr(addr);
    assert !LiveChunk(r.zones, addr);
    assert forall z :: z in r.zones ==> !Live(r.zones[z], addr);
  }

  lemma FreedStays(s: Slab, r: Slab, addr: nat, a: nat, k: nat)
    requires Freed(s, r, addr) && a != addr
    ensures Block(s, a, k) ==> Block(r, a, k)
  {
    hide Live, PagesKept;
    if z :| z in s.zones && Live(s.zones[z], a) && s.zones[z].chunk == k { assert Stays(s.zones, r.zones, z, a); }
    WholeAddr(a);
  }

  lemma FreedWas(zp: nat, s: Slab, r: Slab, addr: nat, a: nat, k: nat)
    requires Inv(zp, r) && Freed(s, r, addr) && a != addr && Block(r, a, k)
    ensures Block(s, a, k)
  {
    hide Inv, Live, PagesKept;
    if y :| y in r.zones && Live(r.zones[y], a) && r.zones[y].chunk == k {
      assert LiveChunk(r.zones, a);
      assert LiveChunk(s.zones, a);
      var z :| z in s.zones && Live(s.zones[z], a);
      assert Stays(s.zones, r.zones, z, a);
      BlocksApart(zp, r, a, k, a, r.zones[z].chunk);
    }
  }

  /** `rt_malloc` fails exactly for no bytes, or when there is no zone with a free chunk and no idle
      zone, and too few consecutive free pages. */
  lemma MallocFails(zp: nat, s: Slab, size: nat)
    requires Inv(zp, s)
    ensures Malloc(zp, s, size).1.Null? <==>
      || size == 0
      || (if size >= ZoneLimit(zp) then PagesFor(size) == 0 || forall x: nat :: !P.Consecutive(s.runs, x, PagesFor(size))
          else !(exists z :: z in s.zones && z !in s.idle && s.zones[z].index == ZoneIndex(size).index && s.zones[z].nfree > 0)
               && s.idle == [] && forall x: nat :: !P.Consecutive(s.runs, x, zp))
  {
    hide ZonesOk, IdleOk, PagesOk, UsageOk, P.Consecutive, ZoneIndex, PagesFor, P.Canonical;
    RunsCanonical(s);
    P.AllocFails(s.runs, zp);
    if size > 0 && size >= ZoneLimit(zp) {
      if PagesFor(size) > 0 { P.AllocFails(s.runs, PagesFor(size)); }
    } else if size > 0 {
      RequestClass(zp, size);
      ListEmpty(s, ZoneIndex(size).index);
    }
  }

  lemma RunsCanonical(s: Slab)
    requires PagesOk(s.runs, s.own)
    ensures P.Canonical(s.runs)
  {
  }

  lemma ListEmpty(s: Slab, i: nat)
    requires ListsOk(s.zones, s.lists, s.idle) && i < NZONES
    ensures i in s.lists && (s.lists[i] == [] <==> !(exists z :: z in s.zones && z !in s.idle && s.zones[z].index == i && s.zones[z].nfree > 0))
  {
    IndexListed(s, i);
    if s.lists[i] != [] {
      var z := s.lists[i][0];
      assert z in s.lists[i];
      assert z in s.zones && z !in s.idle && s.zones[z].index == i && s.zones[z].nfree > 0;
    } else {
      assert forall z: nat :: z !in s.lists[i];
    }
  }

  // ----- alignment of what is returned -----

  /** The start of the first run that is long enough. */
  ghost function FirstFit(l: seq<P.Run>, n: nat): nat
    requires exists i :: 0 <= i < |l| && l[i].pages >= n
  {
    if l[0].pages >= n then l[0].start else (FitsFurther(l, n); FirstFit(l[1..], n))
  }

  lemma FitsFurther(l: seq<P.Run>, n: nat)
    requires (exists i :: 0 <= i < |l| && l[i].pages >= n) && l[0].pages < n
    ensures exists i :: 0 <= i < |l[1..]| && l[1..][i].pages >= n
  {
    var i :| 0 <= i < |l| && l[i].pages >= n;
    assert l[1..][i - 1] == l[i];
  }

  lemma {:induction false} FirstFitIs(l: seq<P.Run>, n: nat)
    requires P.Alloc(l, n).1.At?
    ensures (exists i :: 0 <= i < |l| && l[i].pages >= n) && P.Alloc(l, n).1.page == FirstFit(l, n)
  {
    if l[0].pages < n {
      FirstFitIs(l[1..], n);
      var i :| 0 <= i < |l[1..]| && l[1..][i].pages >= n;
      assert l[i + 1].pages >= n;
    }
  }

  /** The page at which the block to be returned, or its zone, begins: known before the call. */
  ghost function Home(zp: nat, s: Slab, size: nat): nat
    requires Inv(zp, s) && size > 0 && Malloc(zp, s, size).1.At?
  {
    if size >= ZoneLimit(zp) then
      FirstFitIs(s.runs, PagesFor(size));
      FirstFit(s.runs, PagesFor(size))
    else
      RequestClass(zp, size);
      var i := ZoneIndex(size).index;
      IndexListed(s, i);
      if s.lists[i] != [] then s.lists[i][0]
      else if s.idle != [] then s.idle[0]
      else
        SmallFromPages(zp, s, size);
        FirstFitIs(s.runs, zp);
        FirstFit(s.runs, zp)
  }

  lemma SmallFromPages(zp: nat, s: Slab, size: nat)
    requires Inv(zp, s) && 0 < size < ZoneLimit(zp) && Malloc(zp, s, size).1.At?
    ensures var i := ZoneIndex(size).index; i >= 0 && i in s.lists && (s.lists[i] == [] && s.idle == [] ==> P.Alloc(s.runs, zp).1.At?)
  {
    hide ZonesOk, ListsOk, IdleOk, PagesOk, UsageOk, ZoneIndex, P.Alloc, Offset;
    RequestClass(zp, size);
    IndexListed(s, ZoneIndex(size).index);
  }

  /** A request of a power of two is not rounded up, but to eight. */
  lemma PowerClass(n: nat)
    requires 0 < n < 16384 && PowerOfTwo(n)
    ensures ZoneIndex(n).size == if n < 8 then 8 else n
  {
    hide PowerOfTwo;
    if n < 8 {
      assert RoundUp(n, 8) == 8;
    } else {
      var g := if n < 128 then 8 else if n < 256 then 16 else if n < 512 then 32 else if n < 1024 then 64 else if n < 2048 then 128
               else if n < 4096 then 256 else if n < 8192 then 512 else 1024;
      SpacingIsPower(g);
      PowersDivide(n, g);
      RoundsToItself(n, g);
    }
  }

  lemma SpacingIsPower(g: nat)
    requires g in {8, 16, 32, 64, 128, 256, 512, 1024}
    ensures PowerOfTwo(g)
  {
    EightIsPower();
    if g > 8 { HalfPower(g); }
    if g > 16 { HalfPower(g / 2); }
    if g > 32 { HalfPower(g / 4); }
    if g > 64 { HalfPower(g / 8); }
    if g > 128 { HalfPower(g / 16); }
    if g > 256 { HalfPower(g / 32); }
    if g > 512 { HalfPower(g / 64); }
  }

  lemma EightIsPower()
    ensures PowerOfTwo(8)
  {
    assert PowerOfTwo(1) && PowerOfTwo(2) && PowerOfTwo(4);
  }

  lemma HalfPower(g: nat)
    requires g > 1 && g % 2 == 0
    ensures PowerOfTwo(g / 2) ==> PowerOfTwo(g)
  {
  }

  lemma RoundsToItself(n: nat, g: nat)
    requires g > 0 && Multiple(n, g)
    ensures RoundUp(n, g) == n
  {
    var q: int :| n == Times(q, g);
    RoundedUp(n, g);
    var r := (n + g - 1) / g;
    if r > q { Exceeds(q, r, g); }
    if r < q { Exceeds(r, q, g); }
  }

  lemma Exceeds(q: int, r: int, g: nat)
    requires q < r
    ensures q * g + g <= r * g
  {
    assert r * g == q * g + (r - q) * g && (r - q) * g >= g by { assert (r - q) * g == (r - q - 1) * g + g && (r - q - 1) * g >= 0; }
  }

  /** With the heap at address `heap`, the start of a page: what `rt_malloc` returns for a power of two is
      aligned to it exactly when the request is at most a page or its home is aligned. */
  lemma ReturnsAligned(zp: nat, s: Slab, size: nat, heap: nat)
    requires Inv(zp, s) && 0 < size < WORD && PowerOfTwo(size) && Malloc(zp, s, size).1.At? && Multiple(heap, PAGE)
    ensures Multiple(heap + Malloc(zp, s, size).1.addr, size) <==> size <= PAGE || Multiple(heap + Home(zp, s, size) * PAGE, size)
  {
    hide Inv, PowerOfTwo, Multiple, Malloc, Home;
    ZoneLimitPositive(zp, s);
    if size >= ZoneLimit(zp) {
      LargeHome(zp, s, size);
    } else {
      SmallHome(zp, s, size, heap);
      PowerClass(size);
      var z, c := Home(zp, s, size), Malloc(zp, s, size).1.addr;
      var chunk := ZoneIndex(size).size;
      MultipleTimes(z, PAGE);
      MultipleSum(heap, z * PAGE, PAGE);
      assert Multiple(heap + z * PAGE, PAGE) <==> Multiple(heap, PAGE);
      PageIsPower();
      EightIsPower();
      if size <= PAGE {
        PowersDivide(PAGE, chunk);
        MultipleMultiple(heap + z * PAGE, PAGE, chunk);
        PowersDivide(chunk, size);
        MultipleMultiple(heap + c, chunk, size);
      }
    }
  }

  lemma PageIsPower()
    ensures PowerOfTwo(PAGE)
  {
    hide PowerOfTwo;
    SpacingIsPower(1024);
    HalfPower(2048);
    HalfPower(4096);
  }

  lemma LargeHome(zp: nat, s: Slab, size: nat)
    requires Inv(zp, s) && size >= ZoneLimit(zp) && size > PAGE && Malloc(zp, s, size).1.At?
    ensures Malloc(zp, s, size).1.addr == Home(zp, s, size) * PAGE
  {
    hide Inv, P.Alloc, FirstFit;
    FirstFitIs(s.runs, PagesFor(size));
  }

  /** The chunk returned for a small request is aligned exactly when its zone is. */
  lemma SmallHome(zp: nat, s: Slab, size: nat, heap: nat)
    requires Inv(zp, s) && 0 < size < ZoneLimit(zp) && PowerOfTwo(size) && Malloc(zp, s, size).1.At?
    ensures Multiple(heap + Malloc(zp, s, size).1.addr, ZoneIndex(size).size) <==> Multiple(heap + Home(zp, s, size) * PAGE, ZoneIndex(size).size)
  {
    hide ZonesOk, ListsOk, IdleOk, PagesOk, UsageOk, ZoneIndex, P.Alloc, FirstFit, Offset, OfClass, Multiple, PowerOfTwo, Chunk;
    RequestClass(zp, size);
    PowerClass(size);
    EightIsPower();
    var c := ZoneIndex(size);
    IndexListed(s, c.index);
    ZoneHolds(zp, c.size);
    NewZoneOk(0, zp * PAGE, c.size, c.index);
    var zn, z := NewOf(zp, 0, c.size, c.index), Home(zp, s, size);
    var k := 0;
    if s.lists[c.index] != [] {
      HandOutReady(zp, s, c.index);
      k := TakenChunk(zp, s, c.index, c.size);
      zn := s.zones[z];
    } else {
      if s.idle == [] {
        SmallFromPages(zp, s, size);
        FirstFitIs(s.runs, zp);
      }
      NewZoneOk(z * PAGE, zp * PAGE, c.size, c.index);
      zn := NewZone(z * PAGE, zp * PAGE, c.size, c.index);
      FirstChunk(zn);
    }
    ChunkAligned(heap, z * PAGE, zn, k);
  }

  lemma FirstChunk(zn: Zone)
    ensures Chunk(zn, 0) == zn.base
  {
  }

  lemma TakenChunk(zp: nat, s: Slab, i: nat, size: nat) returns (k: nat)
    requires Inv(zp, s) && i < NZONES && s.lists[i] != [] && OfClass(size, i)
    ensures (HandOutReady(zp, s, i); var zn := s.zones[s.lists[i][0]];
      zn.chunk == size && Based(s.lists[i][0] * PAGE, zn) && HandOut(s, i).1 == Chunk(zn, k))
  {
    hide PagesOk, UsageOk, IdleOk, ListsOk, NoDup, ClassSize, IndexOfSize, Chunk, Multiple, PowerOfTwo;
    HandOutReady(zp, s, i);
    var zn := s.zones[s.lists[i][0]];
    SizeOfIndex(size, zn.chunk, i);
    if zn.uindex + 1 != zn.nmax {
      k := zn.uindex + 1;
    } else {
      assert zn.free[0] in zn.free;
      k :| k <= zn.uindex && zn.free[0] == Chunk(zn, k);
    }
  }

  /** Above a page this can fail: in a heap of 17000 pages the page table takes 17, and the first block
      of 8192 bytes lies at an odd page. */
  lemma ReturnsUnaligned(heap: nat)
    requires Multiple(heap, 8192)
    ensures PowerOfTwo(8192) && Inv(16, Initial(17000, 17))
    ensures Malloc(16, Initial(17000, 17), 8192).1.At? && Home(16, Initial(17000, 17), 8192) == 17
    ensures !Multiple(heap + Malloc(16, Initial(17000, 17), 8192).1.addr, 8192)
  {
    hide Inv, PowerOfTwo, Multiple, P.Alloc, FirstFit;
    var s := Initial(17000, 17);
    InitialOk(16, 17000, 17);
    PageIsPower();
    HalfPower(8192);
    PowerClass(8192);
    RequestClass(16, 8192);
    FreshHome(s);
    ReturnsAligned(16, s, 8192, heap) by { PageMultiple(heap); }
    OddPage(heap);
  }

  lemma PageMultiple(heap: nat)
    requires Multiple(heap, 8192)
    ensures Multiple(heap, PAGE)
  {
    assert 8192 == Times(2, PAGE);
    MultipleMultiple(heap, 8192, PAGE);
  }

  lemma OddPage(heap: nat)
    requires Multiple(heap, 8192)
    ensures !Multiple(heap + 17 * PAGE, 8192)
  {
    MultipleSum(17 * PAGE, heap, 8192);
    forall q: int ensures 17 * PAGE != Times(q, 8192) { }
  }

  lemma FreshHome(s: Slab)
    requires s == Initial(17000, 17) && Inv(16, s)
    ensures Malloc(16, s, 8192).1.At? && Home(16, s, 8192) == 17
  {
    hide Inv, PowerOfTwo;
    RequestClass(16, 8192);
    assert P.Alloc(s.runs, 16).1 == P.At(17);
    ZoneHolds(16, ZoneIndex(8192).size);
    NewZoneOk(0, 16 * PAGE, ZoneIndex(8192).size, ZoneIndex(8192).index);
    FirstFitIs(s.runs, 16);
  }

  // ----- runs -----

  datatype Op = Get(size: nat) | Put(addr: nat)

  ghost function Step(zp: nat, s: Slab, op: Op): Slab
    requires Inv(zp, s)
  {
    match op
    case Get(size) => Malloc(zp, s, size).0
    case Put(addr) => if Freeable(s, addr) then Free(zp, s, addr) else s
  }

  lemma StepKeeps(zp: nat, s: Slab, op: Op)
    requires Inv(zp, s)
    ensures Inv(zp, Step(zp, s, op)) && PagesKept(s, Step(zp, s, op))
  {
    hide Inv, Malloc, Free, Freeable;
    match op {
      case Get(size) => MallocKeeps(zp, s, size);
      case Put(addr) => if Freeable(s, addr) { FreeKeeps(zp, s, addr); }
    }
  }

  ghost function After(zp: nat, s: Slab, ops: seq<Op>): (r: Slab)
    requires Inv(zp, s)
    ensures Inv(zp, r) && PagesKept(s, r)
    decreases |ops|
  {
    if ops == [] then s
    else
      StepKeeps(zp, s, ops[0]);
      After(zp, Step(zp, s, ops[0]), ops[1..])
  }

  /** `rt_system_heap_init`: the page table takes the first pages of the heap. */
  ghost function Initial(npages: nat, table: nat): Slab
    requires table <= npages
  {
    Slab(map[], EmptyLists(NZONES), [], map[], map[], if table < npages then [P.Run(table, npages - table)] else [])
  }

  function EmptyLists(n: nat): (r: map<nat, seq<nat>>)
    ensures forall i: nat :: (i in r <==> i < n) && (i in r ==> r[i] == [])
  {
    if n == 0 then map[] else EmptyLists(n - 1)[n - 1 := []]
  }

  lemma InitialOk(zp: nat, npages: nat, table: nat)
    requires 8 <= zp && table <= npages
    ensures Inv(zp, Initial(npages, table))
  {
  }

  lemma StepIdle(zp: nat, s: Slab, op: Op)
    requires Inv(zp, s) && |s.idle| <= RELEASE
    ensures |Step(zp, s, op).idle| <= RELEASE
  {
    hide Inv, Live, LiveChunk, FreeSmall, FreeLarge, ZoneIndex, P.Alloc, P.Free, LastLive, HasOther, NewZone;
    match op {
      case Get(size) => if 0 < size < ZoneLimit(zp) { SmallIdle(zp, s, size); }
      case Put(addr) =>
        if Freeable(s, addr) {
          LookupKind(zp, s, addr);
          if s.usage[addr / PAGE].Small? {
            GivesUp(zp, s, addr / PAGE - s.usage[addr / PAGE].off, addr);
          } else {
            LargeIdle(s, addr / PAGE, s.usage[addr / PAGE].pages);
          }
        }
    }
  }

  lemma SmallIdle(zp: nat, s: Slab, size: nat)
    requires Inv(zp, s) && 0 < size < ZoneLimit(zp)
    ensures |Malloc(zp, s, size).0.idle| <= |s.idle|
  {
    hide Inv, ZoneIndex, P.Alloc, NewZone, Take, MarkZone;
    MallocIsSmall(zp, s, size);
  }

  lemma MallocIsSmall(zp: nat, s: Slab, size: nat)
    requires Inv(zp, s) && 0 < size < ZoneLimit(zp)
    ensures 8 <= zp && 0 <= ZoneIndex(size).index < NZONES && OfClass(ZoneIndex(size).size, ZoneIndex(size).index) && ZoneIndex(size).size <= ZoneLimit(zp)
    ensures Malloc(zp, s, size) == MallocSmall(zp, s, ZoneIndex(size))
  {
    hide ZoneIndex, MallocSmall;
    RequestClass(zp, size);
  }

  lemma LargeIdle(s: Slab, page: nat, n: nat)
    ensures FreeLarge(s, page, n).idle == s.idle
  {
  }

  /** In every run no more than two zones are kept idle. */
  lemma {:induction false} FewIdle(zp: nat, s: Slab, ops: seq<Op>)
    requires Inv(zp, s) && |s.idle| <= RELEASE
    ensures |After(zp, s, ops).idle| <= RELEASE
    decreases |ops|
  {
    hide Inv, Step;
    if ops != [] {
      StepKeeps(zp, s, ops[0]);
      StepIdle(zp, s, ops[0]);
      FewIdle(zp, Step(zp, s, ops[0]), ops[1..]);
    }
  }

  /** In every run of allocations and releases, in any order, the blocks handed out are apart from
      each other and from the free pages, and no page is lost. */
  lemma RunsAreSafe(zp: nat, npages: nat, table: nat, ops: seq<Op>, a: nat, m: nat, b: nat, n: nat)
    requires 8 <= zp && table <= npages
    ensures Inv(zp, Initial(npages, table))
    ensures var s := After(zp, Initial(npages, table), ops);
      && (Block(s, a, m) && Block(s, b, n) ==> if a == b then m == n else a + m <= b || b + n <= a)
      && (forall x: nat :: table <= x < npages <==> P.IsFree(s.runs, x) || Held(s.own, x))
      && (forall x: nat :: P.IsFree(s.runs, x) ==> !Held(s.own, x))
  {
    hide Inv, After, Block, P.IsFree, Held;
    InitialOk(zp, npages, table);
    var s := After(zp, Initial(npages, table), ops);
    if Block(s, a, m) && Block(s, b, n) { BlocksApart(zp, s, a, m, b, n); }
    InitialPages(npages, table);
    FreeNotHeld(zp, s);
  }

  lemma InitialPages(npages: nat, table: nat)
    requires table <= npages
    ensures var s := Initial(npages, table); forall x: nat :: table <= x < npages <==> P.IsFree(s.runs, x) || Held(s.own, x)
  {
    var s := Initial(npages, table);
    forall x: nat ensures table <= x < npages <==> P.IsFree(s.runs, x) {
      if table <= x < npages { assert s.runs[0].start <= x < P.End(s.runs[0]); }
    }
  }

  lemma FreeNotHeld(zp: nat, s: Slab)
    requires Inv(zp, s)
    ensures forall x: nat :: P.IsFree(s.runs, x) ==> !Held(s.own, x)
  {
    hide ZonesOk, ListsOk, IdleOk, UsageOk;
    forall x: nat | Held(s.own, x) ensures !P.IsFree(s.runs, x) {
      var a :| a in s.own && a <= x < a + s.own[a];
      ApartNotFree(s.runs, a, s.own[a], x);
    }
  }
}

module Slabs {
  import opened Rings
  import opened Words
  import opened SlabModel
  import P = PagesModel
  import Pages

  /** `sizeof(struct memusage)` */
  const USAGE_SIZE: nat := 4

  /** The table with an entry for each page, in pages. */
  function TablePages(npages: nat): nat { RoundUp(npages * USAGE_SIZE, PAGE) / PAGE }

  lemma TableFits(npages: nat)
    requires npages > 0
    ensures 0 < TablePages(npages) <= npages && TablePages(npages) * PAGE >= npages * USAGE_SIZE
    ensures P.Alloc([P.Run(0, npages)], TablePages(npages)) == (Initial(npages, TablePages(npages)).runs, P.At(0))
  {
    RoundedUp(npages * USAGE_SIZE, PAGE);
    var l, n := [P.Run(0, npages)], TablePages(npages);
    assert l[1..] == [] && l[0].pages == npages && [P.Run(n, npages - n)] + l[1..] == [P.Run(n, npages - n)];
    FirstPages(l, n);
  }

  lemma FirstPages(l: seq<P.Run>, n: nat)
    requires l != [] && 0 < n <= l[0].pages
    ensures P.Alloc(l, n) == ((if n < l[0].pages then [P.Run(l[0].start + n, l[0].pages - n)] + l[1..] else l[1..]), P.At(l[0].start))
  {
  }

  /** `RT_ALIGN(begin, RT_MM_PAGE_SIZE)` in a machine word, and `RT_ALIGN_DOWN` */
  function PageUp(begin: nat): nat { (begin + PAGE - 1) % WORD / PAGE * PAGE }

  function PageDown(end: nat): nat { end / PAGE * PAGE }

  /** The whole pages between two addresses. */
  function PagesBetween(begin: nat, end: nat): int { PageDown(end) / PAGE - PageUp(begin) / PAGE }

  lemma PagesBetweenIs(begin: nat, end: nat)
    requires begin < WORD && end < WORD
    ensures PagesBetween(begin, end) * PAGE == PageDown(end) - PageUp(begin) && PageUp(begin) % PAGE == 0
    ensures begin + PAGE - 1 < WORD ==> begin <= PageUp(begin) < begin + PAGE
    ensures PageDown(end) <= end < PageDown(end) + PAGE
  {
  }

  /** `*pz = z->z_next`: cutting the zone out where the search has found it. */
  lemma CutOut(l: seq<nat>, i: nat)
    requires NoDup(l) && i < |l|
    ensures l[..i] + l[i + 1..] == Without(l, l[i])
  {
    WithoutAt(l, i);
  }

  class SlabHeap {
    var zones: map<nat, Zone>
    var zoneArray: map<nat, seq<nat>>
    var zoneFree: seq<nat>
    var zoneFreeCnt: nat
    var memusage: map<nat, Usage>
    const heapStart: nat
    const zonePageCnt: nat
    const zoneLimit: nat
    const pages: Pages.PageList
    ghost var own: map<nat, nat>

    ghost function View(): Slab
      reads this, pages
    {
      Slab(zones, zoneArray, zoneFree, memusage, own, pages.runs)
    }

    ghost predicate Valid()
      reads this, pages
    {
      pages.Valid() && zoneLimit == ZoneLimit(zonePageCnt) && zoneFreeCnt == |zoneFree| && Inv(zonePageCnt, View())
    }

    /** `rt_system_heap_init`, which refuses bounds with no whole page between them.  The zone size is the
        smallest of the three that is at least a 2048th of the heap, or the largest. */
    constructor (begin: nat, end: nat)
      requires begin < WORD && end < WORD && PageUp(begin) < PageDown(end)
      ensures Valid() && heapStart == PageUp(begin)
      ensures var n := PagesBetween(begin, end); n > 0 && View() == Initial(n, TablePages(n))
      ensures var size := PageDown(end) - PageUp(begin);
        && zonePageCnt in {8, 16, 32}
        && (zonePageCnt < 32 ==> 2 * zonePageCnt * PAGE >= size / 1024)
        && (zonePageCnt > 8 ==> zonePageCnt * PAGE < size / 1024)
    {
      PagesBetweenIs(begin, end);
      heapStart := PageUp(begin);
      var heapEnd := PageDown(end);
      var limsize := heapEnd - PageUp(begin);
      var npages: nat := limsize / PAGE;
      assert npages == PagesBetween(begin, end) && limsize == npages * PAGE;
      var zoneSize := 32 * 1024;
      while zoneSize < 128 * 1024 && zoneSize * 2 < limsize / 1024
        invariant zoneSize in {32 * 1024, 64 * 1024, 128 * 1024}
        invariant zoneSize > 32 * 1024 ==> zoneSize < limsize / 1024
        decreases 128 * 1024 - zoneSize
      {
        zoneSize := zoneSize * 2;
      }
      zonePageCnt := zoneSize / PAGE;
      zoneLimit := if zoneSize / 4 > 16 * 1024 then 16 * 1024 else zoneSize / 4;
      var list := new Pages.PageList(0, npages);
      pages, zones, zoneArray, zoneFree, zoneFreeCnt, memusage, own := list, map[], EmptyLists(NZONES), [], 0, map[], map[];
      new;
      TableFits(npages);
      InitialOk(zonePageCnt, npages, TablePages(npages));
      var table := pages.Alloc(TablePages(npages));
    }

    /** `rt_malloc` */
    method Malloc(size: nat) returns (to: Pointer)
      requires Valid() && size < WORD
      modifies this, pages
      ensures Valid() && (View(), to) == SlabModel.Malloc(zonePageCnt, old(View()), size)
    {
      hide Inv, ZoneIndex, SlabModel.MallocSmall, SlabModel.MallocLarge;
      MallocKeeps(zonePageCnt, View(), size);
      if size == 0 { return Null; }
      if size >= zoneLimit {
        to := MallocLarge(size);
      } else {
        LimitKnown();
        RequestClass(zonePageCnt, size);
        to := MallocSmall(ZoneIndex(size));
      }
    }

    lemma LimitKnown()
      requires Valid()
      ensures 8 <= zonePageCnt
    {
    }

    method MallocLarge(size: nat) returns (to: Pointer)
      requires Valid()
      modifies this, pages
      ensures pages.Valid() && zoneFreeCnt == |zoneFree| && (View(), to) == SlabModel.MallocLarge(old(View()), size)
    {
      hide Inv, P.Alloc;
      FailedSame(pages.runs, PagesFor(size));
      var rounded := (size + PAGE - 1) % WORD / PAGE * PAGE;
      WholePages(PagesFor(size));
      var p := pages.Alloc(rounded / PAGE);
      if p.Null? { return Null; }
      memusage := memusage[p.page := Large(rounded / PAGE)];
      own := own[p.page := rounded / PAGE];
      to := At(p.page * PAGE);
    }

    method MallocSmall(c: Class) returns (to: Pointer)
      requires Valid() && 0 <= c.index < NZONES && OfClass(c.size, c.index) && c.size <= ZoneLimit(zonePageCnt)
      modifies this, pages
      ensures pages.Valid() && zoneFreeCnt == |zoneFree| && (View(), to) == SlabModel.MallocSmall(zonePageCnt, old(View()), c)
    {
      hide ZonesOk, ListsOk, IdleOk, PagesOk, UsageOk, Offset, Install, MarkZone, P.Alloc, ClassSize, IndexOfSize;
      ghost var s := View();
      IndexListed(s, c.index);
      ZoneHolds(zonePageCnt, c.size);
      NewZoneOk(0, zonePageCnt * PAGE, c.size, c.index);
      if zoneArray[c.index] != [] {
        HandOutReady(zonePageCnt, s, c.index);
        to := TakeChunk(c.index, c.size);
      } else if zoneFree != [] {
        var z := zoneFree[0];
        zoneFree := zoneFree[1..];
        zoneFreeCnt := zoneFreeCnt - 1;
        zones := zones - {z};
        to := SetUpZone(z, c);
      } else {
        FailedSame(s.runs, zonePageCnt);
        var p := pages.Alloc(zonePageCnt);
        if p.Null? { return Null; }
        own := own[p.page := zonePageCnt];
        MarkPages(p.page);
        to := SetUpZone(p.page, c);
      }
    }

    lemma FailedSame(runs: seq<P.Run>, n: nat)
      requires P.Canonical(runs)
      ensures P.Alloc(runs, n).1.Null? ==> P.Alloc(runs, n).0 == runs
    {
      P.AllocTakes(runs, n);
    }

    /** A chunk of the first zone of a list: one never used, or the first of the free list. */
    method TakeChunk(i: nat, size: nat) returns (to: Pointer)
      requires Valid() && i < NZONES && zoneArray[i] != [] && OfClass(size, i)
      modifies `zones, `zoneArray
      ensures (HandOutReady(zonePageCnt, old(View()), i); var (r, c) := HandOut(old(View()), i); View() == r && to == At(c))
    {
      hide PagesOk, UsageOk, IdleOk, OfClass, NoDup;
      HandOutReady(zonePageCnt, View(), i);
      var z := zoneArray[i][0];
      var zn := zones[z];
      SizeOfIndex(size, zn.chunk, i);
      zn := zn.(nfree := zn.nfree - 1);
      if zn.nfree == 0 { zoneArray := zoneArray[i := zoneArray[i][1..]]; }
      if zn.uindex + 1 != zn.nmax {
        zn := zn.(uindex := zn.uindex + 1);
        to := At(zn.base + zn.uindex * size);
      } else {
        to := At(zn.free[0]);
        zn := zn.(free := zn.free[1..]);
      }
      zones := zones[z := zn];
    }

    /** The page table entries of a zone. */
    method MarkPages(z: nat)
      modifies `memusage
      ensures memusage == MarkZone(zonePageCnt, old(memusage), z)
    {
      var off := 0;
      while off < zonePageCnt
        invariant off <= zonePageCnt && memusage == MarkZone(off, old(memusage), z)
      {
        memusage := memusage[z + off := Small(off)];
        off := off + 1;
      }
    }

    method ClearPages(z: nat)
      modifies `memusage
      ensures memusage == ClearZone(zonePageCnt, old(memusage), z)
    {
      var i := 0;
      while i < zonePageCnt
        invariant i <= zonePageCnt && memusage == ClearZone(i, old(memusage), z)
      {
        memusage := memusage[z + i := Unused];
        i := i + 1;
      }
    }

    /** A zone for chunks of a class, its first chunk handed out. */
    method SetUpZone(z: nat, c: Class) returns (to: Pointer)
      requires c.index >= 0 && c.index in zoneArray && c.size > 0 && zonePageCnt * PAGE >= Offset(c.size) + c.size
      modifies `zones, `zoneArray
      ensures (View(), to) == (Install(zonePageCnt, old(View()), z, c.size, c.index).0, At(Install(zonePageCnt, old(View()), z, c.size, c.index).1))
    {
      PowerTest(c.size);
      var off;
      if Or(c.size, c.size - 1) + 1 == 2 * c.size { off := RoundUp(ZONE_HEADER, c.size); } else { off := RoundUp(ZONE_HEADER, 8); }
      var nmax := (zonePageCnt * PAGE - off) / c.size;
      OneFits(zonePageCnt * PAGE - off, c.size);
      zones := zones[z := Zone(nmax - 1, nmax, z * PAGE + off, 0, c.size, c.index, [])];
      zoneArray := zoneArray[c.index := [z] + zoneArray[c.index]];
      to := At(z * PAGE + off);
    }

    /** `rt_free` of what `rt_malloc` has returned */
    method Free(ptr: Pointer)
      requires Valid() && (ptr.At? ==> Freeable(View(), ptr.addr))
      modifies this, pages
      ensures Valid() && View() == if ptr.Null? then old(View()) else SlabModel.Free(zonePageCnt, old(View()), ptr.addr)
    {
      hide Inv, FreeSmall, Live, LiveChunk, P.Free, Freed;
      if ptr.Null? { return; }
      LookupKind(zonePageCnt, View(), ptr.addr);
      FreeKeeps(zonePageCnt, View(), ptr.addr);
      var page := ptr.addr / PAGE;
      var kup := memusage[page];
      if kup.Large? {
        OwnedApart(View(), page);
        memusage := memusage[page := Large(0)];
        pages.Free(page, kup.pages);
        own := own - {page};
      } else {
        FreeChunk(page - kup.off, ptr.addr);
      }
    }

    lemma OwnedApart(s: Slab, a: nat)
      requires Inv(zonePageCnt, s) && a in s.own
      ensures P.Apart(s.runs, a, s.own[a]) && s.own[a] > 0
    {
    }

    method FreeChunk(z: nat, c: nat)
      requires Valid() && z in zones && Live(zones[z], c)
      modifies this, pages
      ensures pages.Valid() && zoneFreeCnt == |zoneFree| && View() == FreeSmall(zonePageCnt, old(View()), z, c)
    {
      hide Inv, P.Free, Live, LiveChunk, ClearZone, MarkZone, Stays, P.Canonical, Pages.Linked;
      ghost var s := View();
      GiveBackKeeps(zonePageCnt, s, z, c);
      var zn := zones[z].(free := [c] + zones[z].free);
      if zn.nfree == 0 { zoneArray := zoneArray[zn.index := [z] + zoneArray[zn.index]]; }
      zn := zn.(nfree := zn.nfree + 1);
      zones := zones[z := zn];
      ghost var t := GiveBack(s, z, c);
      assert View() == t;
      var l := zoneArray[zn.index];
      ListNotOnly(t, z);
      if zn.nfree == zn.nmax && (l[|l| - 1] != z || l[0] != z) {
        RetireKeeps(zonePageCnt, t, z);
        RemoveZone(zn.index, z);
        zoneFree := [z] + zoneFree;
        zoneFreeCnt := zoneFreeCnt + 1;
        ghost var u := Retire(t, z);
        if zoneFreeCnt > RELEASE {
          ReleaseZone();
        }
      }
    }

    /** The first idle zone goes back to the page allocator. */
    method ReleaseZone()
      requires Inv(zonePageCnt, View()) && pages.Valid() && zoneFreeCnt == |zoneFree| && zoneFree != []
      modifies this, pages
      ensures pages.Valid() && zoneFreeCnt == |zoneFree| && old(zoneFree[0] in own)
      ensures View() == Release(zonePageCnt, old(View()))
    {
      hide Inv, P.Free, Live, ClearZone, P.Canonical, Pages.Linked;
      var z := zoneFree[0];
      FirstIdle(zonePageCnt, View());
      OwnedApart(View(), z);
      zoneFree := zoneFree[1..];
      zoneFreeCnt := zoneFreeCnt - 1;
      zones := zones - {z};
      ClearPages(z);
      pages.Free(z, zonePageCnt);
      own := own - {z};
    }

    /** A zone is the only one of its list exactly when it has no next and is the first. */
    lemma ListNotOnly(t: Slab, z: nat)
      requires Inv(zonePageCnt, t) && z in t.zones && t.zones[z].index in t.lists && z in t.lists[t.zones[z].index]
      ensures var l := t.lists[t.zones[z].index]; NoDup(l) && l != [] && (l[|l| - 1] != z || l[0] != z <==> |l| > 1)
    {
      hide ZonesOk, IdleOk, PagesOk, UsageOk;
    }

    /** Searching a list for a zone and taking it out. */
    method RemoveZone(i: nat, z: nat)
      requires i in zoneArray && z in zoneArray[i] && NoDup(zoneArray[i])
      modifies `zoneArray
      ensures zoneArray == old(zoneArray)[i := Without(old(zoneArray)[i], z)]
    {
      var l, k := zoneArray[i], 0;
      while l[k] != z
        invariant 0 <= k < |l| && z !in l[..k]
        decreases |l| - k
      {
        k := k + 1;
      }
      CutOut(l, k);
      zoneArray := zoneArray[i := l[..k] + l[k + 1..]];
    }
  }
}
