/** The memory heap of `memheap.c`: a circular list of blocks that tile the pool, and a free list
    threaded through the unused ones. */
module MemHeapModel {
  import opened Rings
  import opened Words

  /** `RT_MEMHEAP_SIZE`, the size of a block header on a 32-bit machine, and
      `RT_MEMHEAP_MINIALLOC`. */
  const HEADER: nat := 24
  const MINIALLOC: nat := 12

  /** A block at address `addr` with `len` bytes after its header. */
  datatype Block = Block(addr: nat, len: nat, used: bool)

  /** The blocks in address order, without the used block of length 0 that ends the pool; `free`:
      the addresses in the free list. */
  datatype Heap = Heap(blocks: seq<Block>, free: seq<nat>, available: int, maxUsed: int)

  datatype Pool = Pool(start: nat, size: nat)

  function Tail(p: Pool): int { p.start + p.size - HEADER }

  function End(b: Block): nat { b.addr + HEADER + b.len }

  // ----- the heap invariant -----

  /** The blocks tile the pool up to the tail block; lengths are multiples of four, and no block in
      use is smaller than the minimum. */
  ghost predicate Tiled(p: Pool, l: seq<Block>) {
    && |l| > 0 && l[0].addr == p.start && End(l[|l| - 1]) == Tail(p)
    && (forall i :: 0 <= i < |l| - 1 ==> End(l[i]) == l[i + 1].addr)
    && (forall i :: 0 <= i < |l| ==> Sane(l[i]))
  }

  predicate Sane(b: Block) { b.len % ALIGN == 0 && (b.used ==> b.len >= MINIALLOC) }

  ghost predicate NoFreePair(l: seq<Block>) {
    forall i :: 0 <= i < |l| - 1 ==> l[i].used || l[i + 1].used
  }

  function FreeSum(l: seq<Block>): nat {
    if l == [] then 0 else (if l[0].used then 0 else l[0].len) + FreeSum(l[1..])
  }

  ghost predicate HasFree(l: seq<Block>, x: nat) { exists i :: 0 <= i < |l| && l[i].addr == x && !l[i].used }

  ghost predicate Listed(l: seq<Block>, free: seq<nat>) {
    NoDup(free) && forall x :: x in free <==> HasFree(l, x)
  }

  ghost predicate Inv(p: Pool, h: Heap) {
    && 0 < p.start && p.start + p.size <= WORD
    && Tiled(p, h.blocks) && NoFreePair(h.blocks) && Listed(h.blocks, h.free)
    && h.available == FreeSum(h.blocks)
    && p.size - h.available <= h.maxUsed <= p.size
  }

  /** Blocks are in address order, so their headers and payloads are disjoint. */
  lemma {:induction false} Ordered(p: Pool, l: seq<Block>, i: nat, j: nat)
    requires Tiled(p, l) && i < j < |l|
    ensures End(l[i]) <= l[j].addr
    decreases j - i
  {
    assert End(l[j - 1]) == l[j].addr;
    if i < j - 1 { Ordered(p, l, i, j - 1); }
  }

  lemma {:induction false} InPool(p: Pool, l: seq<Block>, i: nat)
    requires Tiled(p, l) && i < |l|
    ensures p.start <= l[i].addr && End(l[i]) <= Tail(p) && (l[i].addr - p.start) % ALIGN == 0
    decreases i
  {
    if i > 0 {
      assert End(l[i - 1]) == l[i].addr;
      InPool(p, l, i - 1);
    }
    if i < |l| - 1 { Ordered(p, l, i, |l| - 1); }
  }

  /** The block with address `x`, or `|l|`. */
  function Index(l: seq<Block>, x: nat): (i: nat)
    ensures i <= |l| && (i < |l| ==> l[i].addr == x)
    ensures i == |l| ==> forall k :: 0 <= k < |l| ==> l[k].addr != x
  {
    if l == [] || l[0].addr == x then 0 else 1 + Index(l[1..], x)
  }

  lemma IndexIs(p: Pool, l: seq<Block>, i: nat)
    requires Tiled(p, l) && i < |l|
    ensures Index(l, l[i].addr) == i
  {
    var k := Index(l, l[i].addr);
    if k < i { Ordered(p, l, k, i); }
    if i < k < |l| { Ordered(p, l, i, k); }
  }

  // ----- the operations -----

  /** The size a request is rounded to. */
  function Request(size: nat): nat { var n := AlignUp(size); if n < MINIALLOC then MINIALLOC else n }

  /** First fit in the free list from position `k` on. */
  function Find(h: Heap, n: nat, k: nat): (r: nat)
    requires k <= |h.free|
    ensures k <= r <= |h.free|
    decreases |h.free| - k
  {
    if k == |h.free| || Fits(h.blocks, h.free[k], n) then k else Find(h, n, k + 1)
  }

  predicate Fits(l: seq<Block>, x: nat, n: nat) { var i := Index(l, x); i < |l| && l[i].len >= n }

  function Max(a: int, b: int): int { if a > b then a else b }

  /** Block `i` is handed out whole, or split when what is left is worth it. */
  function Use(p: Pool, h: Heap, k: nat, i: nat, n: nat): Heap
    requires k < |h.free| && i < |h.blocks| && h.blocks[i].len >= n
  {
    var b := h.blocks[i];
    var rest := h.free[..k] + h.free[k + 1..];
    if b.len >= n + HEADER + MINIALLOC then
      var cut := Block(b.addr + HEADER + n, b.len - n - HEADER, false);
      var available := h.available - n - HEADER;
      Heap(h.blocks[..i] + [Block(b.addr, n, true), cut] + h.blocks[i + 1..], [cut.addr] + rest,
           available, Max(h.maxUsed, p.size - available))
    else
      var available := h.available - b.len;
      Heap(h.blocks[..i] + [b.(used := true)] + h.blocks[i + 1..], rest, available, Max(h.maxUsed, p.size - available))
  }

  datatype Pointer = Null | At(addr: nat)

  function Alloc(p: Pool, h: Heap, size: nat): (Heap, Pointer) {
    var n := Request(size);
    if n >= h.available then (h, Null)
    else
      var k := Find(h, n, 0);
      if k == |h.free| then (h, Null)
      else
        var i := Index(h.blocks, h.free[k]);
        if i < |h.blocks| && h.blocks[i].len >= n then (Use(p, h, k, i, n), At(h.free[k] + HEADER)) else (h, Null)
  }

  predicate LeftFree(l: seq<Block>, i: nat)
    requires i < |l|
  {
    i > 0 && !l[i - 1].used
  }

  predicate RightFree(l: seq<Block>, i: nat)
    requires i < |l|
  {
    i + 1 < |l| && !l[i + 1].used
  }

  /** The blocks from `Lo` up to `Hi` are merged when block `i` is freed. */
  function Lo(l: seq<Block>, i: nat): (r: nat)
    requires i < |l|
    ensures r <= i
  {
    if LeftFree(l, i) then i - 1 else i
  }

  function Hi(l: seq<Block>, i: nat): (r: nat)
    requires i < |l|
    ensures i < r <= |l|
  {
    if RightFree(l, i) then i + 2 else i + 1
  }

  function Merged(l: seq<Block>, i: nat): Block
    requires i < |l|
  {
    Block(l[Lo(l, i)].addr,
          l[i].len + (if LeftFree(l, i) then l[i - 1].len + HEADER else 0) + (if RightFree(l, i) then l[i + 1].len + HEADER else 0),
          false)
  }

  /** Block `i` is freed and merged with free neighbours. */
  function Free(h: Heap, i: nat): Heap
    requires i < |h.blocks|
  {
    var l := h.blocks;
    var free := if RightFree(l, i) then Without(h.free, l[i + 1].addr) else h.free;
    Heap(l[..Lo(l, i)] + [Merged(l, i)] + l[Hi(l, i)..], if LeftFree(l, i) then free else [l[i].addr] + free,
         h.available + l[i].len + (if LeftFree(l, i) then HEADER else 0) + (if RightFree(l, i) then HEADER else 0), h.maxUsed)
  }

  // ----- what the operations keep -----

  lemma {:induction false} FreeSumConcat(a: seq<Block>, b: seq<Block>)
    ensures FreeSum(a + b) == FreeSum(a) + FreeSum(b)
  {
    if a == [] {
      assert a + b == b;
    } else {
      assert (a + b)[1..] == a[1..] + b;
      FreeSumConcat(a[1..], b);
    }
  }

  /** Replacing the blocks `lo..hi` by others that cover the same bytes. */
  ghost predicate Covers(l: seq<Block>, lo: nat, hi: nat, seg: seq<Block>)
    requires lo < hi <= |l|
  {
    && |seg| > 0 && seg[0].addr == l[lo].addr && End(seg[|seg| - 1]) == End(l[hi - 1])
    && (forall i :: 0 <= i < |seg| - 1 ==> End(seg[i]) == seg[i + 1].addr)
    && (forall i :: 0 <= i < |seg| ==> Sane(seg[i]))
  }

  lemma SpliceTiles(p: Pool, l: seq<Block>, lo: nat, hi: nat, seg: seq<Block>)
    requires Tiled(p, l) && lo < hi <= |l| && Covers(l, lo, hi, seg)
    ensures Tiled(p, l[..lo] + seg + l[hi..])
  {
    var r, m := l[..lo] + seg + l[hi..], lo + |seg|;
    forall i | 0 <= i < |r| - 1 ensures End(r[i]) == r[i + 1].addr {
      if i < lo {
        assert End(l[i]) == l[i + 1].addr;
      } else if i < m - 1 {
        assert End(seg[i - lo]) == seg[i - lo + 1].addr;
      } else {
        var j := i - m + hi;
        assert End(l[j]) == l[j + 1].addr;
      }
    }
  }

  lemma SpliceSum(l: seq<Block>, lo: nat, hi: nat, seg: seq<Block>)
    requires lo <= hi <= |l|
    ensures FreeSum(l[..lo] + seg + l[hi..]) - FreeSum(seg) == FreeSum(l) - FreeSum(l[lo..hi])
  {
    FreeSumConcat(l[..lo], seg);
    FreeSumConcat(l[..lo] + seg, l[hi..]);
    FreeSumConcat(l[..lo], l[lo..hi]);
    FreeSumConcat(l[..lo] + l[lo..hi], l[hi..]);
    assert l == l[..lo] + l[lo..hi] + l[hi..];
  }

  lemma HasFreeSplice(l: seq<Block>, lo: nat, hi: nat, seg: seq<Block>, x: nat)
    requires lo <= hi <= |l|
    ensures HasFree(l[..lo] + seg + l[hi..], x) <==> HasFree(l[..lo], x) || HasFree(seg, x) || HasFree(l[hi..], x)
    ensures HasFree(l, x) <==> HasFree(l[..lo], x) || HasFree(l[lo..hi], x) || HasFree(l[hi..], x)
  {
    HasFreeConcat(l[..lo], seg, x);
    HasFreeConcat(l[..lo] + seg, l[hi..], x);
    HasFreeConcat(l[..lo], l[lo..hi], x);
    HasFreeConcat(l[..lo] + l[lo..hi], l[hi..], x);
    assert l == l[..lo] + l[lo..hi] + l[hi..];
  }

  lemma HasFreeConcat(a: seq<Block>, b: seq<Block>, x: nat)
    ensures HasFree(a + b, x) <==> HasFree(a, x) || HasFree(b, x)
  {
    var c := a + b;
    if HasFree(a, x) { var i :| 0 <= i < |a| && a[i].addr == x && !a[i].used; assert c[i] == a[i]; }
    if HasFree(b, x) { var i :| 0 <= i < |b| && b[i].addr == x && !b[i].used; assert c[|a| + i] == b[i]; }
    if HasFree(c, x) {
      var i :| 0 <= i < |c| && c[i].addr == x && !c[i].used;
      assert if i < |a| then c[i] == a[i] else c[i] == b[i - |a|];
    }
  }

  lemma SplicePairs(l: seq<Block>, lo: nat, hi: nat, seg: seq<Block>)
    requires lo < hi <= |l| && |seg| > 0 && NoFreePair(l) && NoFreePair(seg)
    requires lo > 0 ==> l[lo - 1].used || seg[0].used
    requires hi < |l| ==> seg[|seg| - 1].used || l[hi].used
    ensures NoFreePair(l[..lo] + seg + l[hi..])
  {
    var r, m := l[..lo] + seg + l[hi..], lo + |seg|;
    forall i | 0 <= i < |r| - 1 ensures r[i].used || r[i + 1].used {
      if i < lo - 1 {
        assert l[i].used || l[i + 1].used;
      } else if lo <= i < m - 1 {
        assert seg[i - lo].used || seg[i - lo + 1].used;
      } else if i >= m {
        var j := i - m + hi;
        assert l[j].used || l[j + 1].used;
      }
    }
  }

  lemma OutsideRange(p: Pool, l: seq<Block>, lo: nat, hi: nat, x: nat)
    requires Tiled(p, l) && lo < hi <= |l|
    ensures HasFree(l[..lo], x) ==> x < l[lo].addr
    ensures HasFree(l[hi..], x) ==> x >= End(l[hi - 1])
    ensures HasFree(l[lo..hi], x) ==> l[lo].addr <= x < End(l[hi - 1])
  {
    hide Tiled;
    if HasFree(l[..lo], x) {
      var k :| 0 <= k < |l[..lo]| && l[..lo][k].addr == x && !l[..lo][k].used;
      Ordered(p, l, k, lo);
    }
    if HasFree(l[hi..], x) {
      var k :| 0 <= k < |l[hi..]| && l[hi..][k].addr == x && !l[hi..][k].used;
      Ordered(p, l, hi - 1, hi + k);
    }
    if HasFree(l[lo..hi], x) {
      var k :| 0 <= k < |l[lo..hi]| && l[lo..hi][k].addr == x && !l[lo..hi][k].used;
      if k > 0 { Ordered(p, l, lo, lo + k); }
      if lo + k < hi - 1 { Ordered(p, l, lo + k, hi - 1); }
    }
  }

  lemma SpliceListed(p: Pool, l: seq<Block>, lo: nat, hi: nat, seg: seq<Block>, free: seq<nat>, free': seq<nat>)
    requires Tiled(p, l) && lo < hi <= |l| && Listed(l, free) && NoDup(free')
    requires forall x :: x in free' <==> (x in free && !HasFree(l[lo..hi], x)) || HasFree(seg, x)
    ensures Listed(l[..lo] + seg + l[hi..], free')
  {
    hide NoDup, Tiled;
    var r := l[..lo] + seg + l[hi..];
    forall x ensures x in free' <==> HasFree(r, x) {
      HasFreeSplice(l, lo, hi, seg, x);
      OutsideRange(p, l, lo, hi, x);
    }
  }

  /** All of the invariant for one splice. */
  lemma SpliceKeeps(p: Pool, h: Heap, lo: nat, hi: nat, seg: seq<Block>, free: seq<nat>, available: int)
    requires Inv(p, h) && lo < hi <= |h.blocks| && Covers(h.blocks, lo, hi, seg) && NoFreePair(seg)
    requires lo > 0 ==> h.blocks[lo - 1].used || seg[0].used
    requires hi < |h.blocks| ==> seg[|seg| - 1].used || h.blocks[hi].used
    requires NoDup(free) && forall x :: x in free <==> (x in h.free && !HasFree(h.blocks[lo..hi], x)) || HasFree(seg, x)
    requires available == h.available + FreeSum(seg) - FreeSum(h.blocks[lo..hi])
    ensures var r := Heap(h.blocks[..lo] + seg + h.blocks[hi..], free, available, Max(h.maxUsed, p.size - available)); Inv(p, r)
  {
    hide NoDup;
    SpliceTiles(p, h.blocks, lo, hi, seg);
    SplicePairs(h.blocks, lo, hi, seg);
    SpliceListed(p, h.blocks, lo, hi, seg, h.free, free);
    SpliceSum(h.blocks, lo, hi, seg);
  }

  lemma OneFree(b: Block, x: nat)
    ensures HasFree([b], x) <==> !b.used && x == b.addr
    ensures FreeSum([b]) == if b.used then 0 else b.len
  {
    if !b.used && x == b.addr { assert [b][0].addr == x; }
  }

  lemma TwoFree(a: Block, b: Block, x: nat)
    ensures HasFree([a, b], x) <==> (!a.used && x == a.addr) || (!b.used && x == b.addr)
    ensures FreeSum([a, b]) == (if a.used then 0 else a.len) + if b.used then 0 else b.len
  {
    assert [a, b] == [a] + [b];
    HasFreeConcat([a], [b], x);
    FreeSumConcat([a], [b]);
    OneFree(a, x);
    OneFree(b, x);
  }

  /** No block has an address strictly inside another. */
  lemma InsideNotFree(p: Pool, h: Heap, i: nat, x: nat)
    requires Inv(p, h) && i < |h.blocks| && h.blocks[i].addr < x < End(h.blocks[i])
    ensures x !in h.free
  {
    if x in h.free {
      var k :| 0 <= k < |h.blocks| && h.blocks[k].addr == x && !h.blocks[k].used;
      if k < i { Ordered(p, h.blocks, k, i); }
      if i < k { Ordered(p, h.blocks, i, k); }
    }
  }

  /** What the search of the free list gives. */
  lemma FreeBlock(p: Pool, h: Heap, k: nat)
    requires Inv(p, h) && k < |h.free|
    ensures var i := Index(h.blocks, h.free[k]); i < |h.blocks| && h.blocks[i].addr == h.free[k] && !h.blocks[i].used
  {
    var x := h.free[k];
    assert HasFree(h.blocks, x);
    var j :| 0 <= j < |h.blocks| && h.blocks[j].addr == x && !h.blocks[j].used;
    IndexIs(p, h.blocks, j);
  }

  /** A free list from which entry `k` is taken. */
  lemma Taken(free: seq<nat>, k: nat)
    requires NoDup(free) && k < |free|
    ensures var r := free[..k] + free[k + 1..]; NoDup(r) && forall x :: x in r <==> x in free && x != free[k]
  {
    WithoutAt(free, k);
    WithoutKeepsNoDup(free, free[k]);
  }

  lemma UseKeeps(p: Pool, h: Heap, k: nat, n: nat)
    requires Inv(p, h) && k < |h.free| && Fits(h.blocks, h.free[k], n) && n % ALIGN == 0 && n >= MINIALLOC
    ensures Inv(p, Use(p, h, k, Index(h.blocks, h.free[k]), n))
  {
    var i := Index(h.blocks, h.free[k]);
    FreeBlock(p, h, k);
    Taken(h.free, k);
    var b, rest := h.blocks[i], h.free[..k] + h.free[k + 1..];
    assert h.blocks[i..i + 1] == [b];
    if b.len >= n + HEADER + MINIALLOC {
      SplitKeeps(p, h, k, i, n);
    } else {
      hide NoDup;
      var u := b.(used := true);
      forall x ensures HasFree([b], x) <==> x == b.addr { OneFree(b, x); }
      forall x ensures !HasFree([u], x) { OneFree(u, x); }
      OneFree(b, 0);
      OneFree(u, 0);
      SpliceKeeps(p, h, i, i + 1, [u], rest, h.available - b.len);
    }
  }

  lemma SplitKeeps(p: Pool, h: Heap, k: nat, i: nat, n: nat)
    requires Inv(p, h) && k < |h.free| && i < |h.blocks| && h.blocks[i].addr == h.free[k] && !h.blocks[i].used
    requires n % ALIGN == 0 && n >= MINIALLOC
    requires h.blocks[i].len >= n + HEADER + MINIALLOC
    ensures Inv(p, Use(p, h, k, i, n))
  {
    hide NoDup, HasFree, FreeSum, Listed, Index;
    var b, rest := h.blocks[i], h.free[..k] + h.free[k + 1..];
    var a, cut := Block(b.addr, n, true), Block(b.addr + HEADER + n, b.len - n - HEADER, false);
    FreeDistinct(p, h);
    Taken(h.free, k);
    InsideNotFree(p, h, i, cut.addr);
    FrontNoDup(cut.addr, rest);
    assert h.blocks[i..i + 1] == [b];
    forall x ensures HasFree([b], x) <==> x == b.addr { OneFree(b, x); }
    forall x ensures HasFree([a, cut], x) <==> x == cut.addr { TwoFree(a, cut, x); }
    OneFree(b, 0);
    TwoFree(a, cut, 0);
    assert i + 1 < |h.blocks| ==> h.blocks[i].used || h.blocks[i + 1].used;
    SpliceKeeps(p, h, i, i + 1, [a, cut], [cut.addr] + rest, h.available - n - HEADER);
  }

  lemma FrontNoDup(x: nat, s: seq<nat>)
    requires NoDup(s) && x !in s
    ensures NoDup([x] + s) && forall y :: y in [x] + s <==> y == x || y in s
  {
  }

  /** A used block is not in the free list. */
  lemma UsedNotFree(p: Pool, h: Heap, i: nat)
    requires Inv(p, h) && i < |h.blocks| && h.blocks[i].used
    ensures h.blocks[i].addr !in h.free
  {
    if h.blocks[i].addr in h.free {
      var k :| 0 <= k < |h.blocks| && h.blocks[k].addr == h.blocks[i].addr && !h.blocks[k].used;
      if k < i { Ordered(p, h.blocks, k, i); }
      if i < k { Ordered(p, h.blocks, i, k); }
    }
  }

  lemma UnusedListed(p: Pool, h: Heap, i: nat)
    requires Inv(p, h) && i < |h.blocks| && !h.blocks[i].used
    ensures h.blocks[i].addr in h.free
  {
    assert HasFree(h.blocks, h.blocks[i].addr);
  }

  lemma FreeDistinct(p: Pool, h: Heap)
    requires Inv(p, h)
    ensures NoDup(h.free)
  {
  }

  lemma WithoutOne(free: seq<nat>, x: nat)
    requires NoDup(free)
    ensures NoDup(Without(free, x)) && forall y :: y in Without(free, x) <==> y in free && y != x
  {
    WithoutKeepsNoDup(free, x);
  }

  /** The blocks that a merge replaces. */
  lemma Replaced(l: seq<Block>, i: nat)
    requires i < |l| && l[i].used
    ensures var mid := l[Lo(l, i)..Hi(l, i)];
      && FreeSum(mid) == (if LeftFree(l, i) then l[i - 1].len else 0) + (if RightFree(l, i) then l[i + 1].len else 0)
      && forall x :: HasFree(mid, x) <==> (LeftFree(l, i) && x == l[i - 1].addr) || (RightFree(l, i) && x == l[i + 1].addr)
  {
    hide HasFree, FreeSum;
    var mid := l[Lo(l, i)..Hi(l, i)];
    if LeftFree(l, i) && RightFree(l, i) {
      assert mid == [l[i - 1], l[i]] + [l[i + 1]];
      FreeSumConcat([l[i - 1], l[i]], [l[i + 1]]);
      TwoFree(l[i - 1], l[i], 0);
      OneFree(l[i + 1], 0);
      forall x ensures HasFree(mid, x) <==> x == l[i - 1].addr || x == l[i + 1].addr {
        HasFreeConcat([l[i - 1], l[i]], [l[i + 1]], x);
        TwoFree(l[i - 1], l[i], x);
        OneFree(l[i + 1], x);
      }
    } else if LeftFree(l, i) {
      assert mid == [l[i - 1], l[i]];
      forall x ensures HasFree(mid, x) <==> x == l[i - 1].addr { TwoFree(l[i - 1], l[i], x); }
      TwoFree(l[i - 1], l[i], 0);
    } else if RightFree(l, i) {
      assert mid == [l[i], l[i + 1]];
      forall x ensures HasFree(mid, x) <==> x == l[i + 1].addr { TwoFree(l[i], l[i + 1], x); }
      TwoFree(l[i], l[i + 1], 0);
    } else {
      assert mid == [l[i]];
      forall x ensures !HasFree(mid, x) { OneFree(l[i], x); }
      OneFree(l[i], 0);
    }
  }

  lemma AlignedSum(a: nat, b: nat)
    requires a % ALIGN == 0 && b % ALIGN == 0
    ensures (a + b) % ALIGN == 0 && (a + b + HEADER) % ALIGN == 0
  {
  }

  lemma MergedAligned(l: seq<Block>, i: nat)
    requires i < |l| && forall k :: 0 <= k < |l| ==> Sane(l[k])
    ensures Merged(l, i).len % ALIGN == 0
  {
    var a := l[i].len + if LeftFree(l, i) then l[i - 1].len + HEADER else 0;
    if LeftFree(l, i) { AlignedSum(l[i].len, l[i - 1].len); }
    assert a % ALIGN == 0;
    if RightFree(l, i) { AlignedSum(a, l[i + 1].len); }
  }

  lemma MergedCovers(p: Pool, h: Heap, i: nat)
    requires Inv(p, h) && i < |h.blocks|
    ensures Covers(h.blocks, Lo(h.blocks, i), Hi(h.blocks, i), [Merged(h.blocks, i)])
    ensures Lo(h.blocks, i) > 0 ==> h.blocks[Lo(h.blocks, i) - 1].used
    ensures Hi(h.blocks, i) < |h.blocks| ==> h.blocks[Hi(h.blocks, i)].used
  {
    hide Listed, FreeSum, HasFree, ALIGN;
    var l := h.blocks;
    if i > 0 { assert End(l[i - 1]) == l[i].addr; }
    if i + 1 < |l| { assert End(l[i]) == l[i + 1].addr; }
    if i > 1 { assert l[i - 2].used || l[i - 1].used; }
    if i + 2 < |l| { assert l[i + 1].used || l[i + 2].used; }
    MergedAligned(l, i);
  }

  lemma FreedList(p: Pool, h: Heap, i: nat)
    requires Inv(p, h) && i < |h.blocks| && h.blocks[i].used
    ensures var f, mid := Free(h, i).free, h.blocks[Lo(h.blocks, i)..Hi(h.blocks, i)];
      NoDup(f) && forall x :: x in f <==> (x in h.free && !HasFree(mid, x)) || HasFree([Merged(h.blocks, i)], x)
  {
    hide NoDup, HasFree, FreeSum, Without, Listed, Index;
    var l := h.blocks;
    FreeDistinct(p, h);
    UsedNotFree(p, h, i);
    Replaced(l, i);
    forall x ensures HasFree([Merged(l, i)], x) <==> x == Merged(l, i).addr { OneFree(Merged(l, i), x); }
    if LeftFree(l, i) { UnusedListed(p, h, i - 1); DifferentBlocks(p, l, i - 1, i); }
    if RightFree(l, i) { WithoutOne(h.free, l[i + 1].addr); DifferentBlocks(p, l, i, i + 1); }
    if LeftFree(l, i) && RightFree(l, i) { DifferentBlocks(p, l, i - 1, i + 1); }
    FrontNoDup(l[i].addr, if RightFree(l, i) then Without(h.free, l[i + 1].addr) else h.free);
  }

  lemma DifferentBlocks(p: Pool, l: seq<Block>, i: nat, j: nat)
    requires Tiled(p, l) && i < j < |l|
    ensures l[i].addr < l[j].addr
  {
    Ordered(p, l, i, j);
  }

  /** Freeing, in all four cases of merging. */
  lemma FreeKeeps(p: Pool, h: Heap, i: nat)
    requires Inv(p, h) && i < |h.blocks| && h.blocks[i].used
    ensures Inv(p, Free(h, i))
  {
    MergedCovers(p, h, i);
    FreedList(p, h, i);
    Replaced(h.blocks, i);
    hide NoDup, HasFree, FreeSum, Without, Listed, Index, Tiled, NoFreePair, Covers;
    OneFree(Merged(h.blocks, i), 0);
    var r := Free(h, i);
    OneBlock(Merged(h.blocks, i));
    SpliceKeeps(p, h, Lo(h.blocks, i), Hi(h.blocks, i), [Merged(h.blocks, i)], r.free, r.available);
    assert r.maxUsed == Max(h.maxUsed, p.size - r.available);
  }

  lemma OneBlock(b: Block)
    ensures NoFreePair([b])
  {
  }

  // ----- resizing -----

  /** The test of `rt_memheap_realloc` for using the free block that follows, in 32-bit words. */
  predicate GrowTest(len: nat, next: nat, n: nat) { len + next > (n + MINIALLOC) % WORD }

  /** Block `i` takes bytes from the free block after it; addresses are 32-bit words. */
  function Grow(p: Pool, h: Heap, i: nat, n: nat): Heap
    requires i + 1 < |h.blocks|
  {
    var l := h.blocks;
    var cut := Block((l[i].addr + HEADER + n) % WORD, (l[i].len + l[i + 1].len + WORD - n) % WORD, false);
    var available := h.available - (n - l[i].len);
    Heap(l[..i] + [l[i].(len := n), cut] + l[i + 2..], [cut.addr] + Without(h.free, l[i + 1].addr),
         available, Max(h.maxUsed, p.size - available))
  }

  /** Block `i` is cut, and what is cut off is merged with a free block after it. */
  function Shrink(h: Heap, i: nat, n: nat): Heap
    requires i < |h.blocks| && h.blocks[i].len >= n + HEADER
  {
    var l, cut := h.blocks, CutOff(h.blocks, i, n);
    Heap(l[..i] + [l[i].(len := n), cut] + l[Hi(l, i)..],
         [cut.addr] + if RightFree(l, i) then Without(h.free, l[i + 1].addr) else h.free,
         h.available - (if RightFree(l, i) then l[i + 1].len else 0) + cut.len, h.maxUsed)
  }

  /** `rt_memheap_realloc` of used block `i` to `size > 0` bytes. */
  function Realloc(p: Pool, h: Heap, i: nat, size: nat): (Heap, Pointer)
    requires i < |h.blocks|
  {
    var n, b := Request(size), h.blocks[i];
    if n > b.len then
      if i + 1 < |h.blocks| && !h.blocks[i + 1].used && GrowTest(b.len, h.blocks[i + 1].len, n)
      then (Grow(p, h, i, n), At(b.addr + HEADER))
      else
        var (h1, to) := Alloc(p, h, n);
        if to.Null? then (h1, Null)
        else
          var j := Index(h1.blocks, b.addr);
          (if j < |h1.blocks| then Free(h1, j) else h1, to)
    else if n + HEADER + MINIALLOC >= b.len then (h, At(b.addr + HEADER))
    else (Shrink(h, i, n), At(b.addr + HEADER))
  }

  /** Growing in place keeps the heap exactly when the request is not within twelve bytes of the
      end of the 32-bit range, where the sum in the test wraps round. */
  lemma GrowKeeps(p: Pool, h: Heap, i: nat, n: nat)
    requires Inv(p, h) && i + 1 < |h.blocks| && h.blocks[i].used && !h.blocks[i + 1].used
    requires n >= MINIALLOC && h.blocks[i].len < n < WORD && n % ALIGN == 0 && GrowTest(h.blocks[i].len, h.blocks[i + 1].len, n)
    ensures Inv(p, Grow(p, h, i, n)) <==> n + MINIALLOC < WORD
  {
    InPool(p, h.blocks, i);
    InPool(p, h.blocks, i + 1);
    assert End(h.blocks[i]) == h.blocks[i + 1].addr;
    if n + MINIALLOC < WORD {
      GrowFits(p, h, i, n);
    } else {
      var r := Grow(p, h, i, n);
      assert r.blocks[i] == h.blocks[i].(len := n) && r.blocks[i + 1].addr < WORD;
      assert End(r.blocks[i]) != r.blocks[i + 1].addr;
    }
  }

  /** A block and, if it is free, the one after it. */
  lemma AfterOnly(l: seq<Block>, i: nat)
    requires i < |l| && l[i].used
    ensures var mid := l[i..Hi(l, i)];
      && FreeSum(mid) == (if RightFree(l, i) then l[i + 1].len else 0)
      && forall x :: HasFree(mid, x) <==> RightFree(l, i) && x == l[i + 1].addr
  {
    hide HasFree, FreeSum;
    if RightFree(l, i) {
      var mid := l[i..i + 2];
      assert mid == [l[i], l[i + 1]];
      TwoFree(l[i], l[i + 1], 0);
      forall x ensures HasFree(mid, x) <==> x == l[i + 1].addr { TwoFree(l[i], l[i + 1], x); }
    } else {
      assert l[i..i + 1] == [l[i]];
      OneFree(l[i], 0);
      forall x ensures !HasFree([l[i]], x) { OneFree(l[i], x); }
    }
  }

  lemma SmallMod(x: nat)
    requires x < WORD
    ensures x % WORD == x && (x + WORD) % WORD == x
  {
  }

  /** Without wrap-round, growing moves the border between the two blocks. */
  lemma GrowIs(p: Pool, h: Heap, i: nat, n: nat)
    requires Inv(p, h) && i + 1 < |h.blocks|
    requires h.blocks[i].len < n && h.blocks[i].len + h.blocks[i + 1].len > n + MINIALLOC
    ensures var l := h.blocks; var cut := Block(l[i].addr + HEADER + n, l[i].len + l[i + 1].len - n, false);
      && cut.addr + HEADER <= Tail(p) && l[i + 1].addr < cut.addr < End(l[i + 1]) && End(cut) == End(l[i + 1])
      && Grow(p, h, i, n) == Heap(l[..i] + [l[i].(len := n), cut] + l[i + 2..], [cut.addr] + Without(h.free, l[i + 1].addr),
           h.available - (n - l[i].len), Max(h.maxUsed, p.size - (h.available - (n - l[i].len))))
  {
    hide Listed, NoFreePair, FreeSum;
    var l := h.blocks;
    InPool(p, l, i + 1);
    assert End(l[i]) == l[i + 1].addr;
    SmallMod(l[i].addr + HEADER + n);
    SmallMod(l[i].len + l[i + 1].len - n);
  }

  lemma AlignedDifference(a: nat, b: nat)
    requires a % ALIGN == 0 && b % ALIGN == 0 && b <= a
    ensures (a - b) % ALIGN == 0
  {
  }

  lemma GrowCovers(p: Pool, h: Heap, i: nat, n: nat)
    requires Inv(p, h) && i + 1 < |h.blocks| && n % ALIGN == 0 && n >= MINIALLOC
    requires h.blocks[i].len < n && h.blocks[i].len + h.blocks[i + 1].len > n + MINIALLOC
    ensures var l := h.blocks;
      Covers(l, i, i + 2, [l[i].(len := n), Block(l[i].addr + HEADER + n, l[i].len + l[i + 1].len - n, false)])
  {
    hide Listed, FreeSum, HasFree, NoFreePair;
    var l := h.blocks;
    AlignedSum(l[i].len, l[i + 1].len);
    AlignedDifference(l[i].len + l[i + 1].len, n);
    assert End(l[i]) == l[i + 1].addr;
  }

  lemma GrowList(p: Pool, h: Heap, i: nat, a: Block, cut: Block)
    requires Inv(p, h) && i + 1 < |h.blocks| && h.blocks[i].used && !h.blocks[i + 1].used
    requires a.used && !cut.used && h.blocks[i + 1].addr < cut.addr < End(h.blocks[i + 1])
    ensures var f, mid := [cut.addr] + Without(h.free, h.blocks[i + 1].addr), h.blocks[i..i + 2];
      && NoDup(f) && (forall x :: x in f <==> (x in h.free && !HasFree(mid, x)) || HasFree([a, cut], x))
      && FreeSum(mid) == h.blocks[i + 1].len && FreeSum([a, cut]) == cut.len
  {
    hide NoDup, HasFree, FreeSum, Without, Listed, Index, Tiled, NoFreePair;
    FreeDistinct(p, h);
    WithoutOne(h.free, h.blocks[i + 1].addr);
    InsideNotFree(p, h, i + 1, cut.addr);
    FrontNoDup(cut.addr, Without(h.free, h.blocks[i + 1].addr));
    AfterOnly(h.blocks, i);
    forall x ensures HasFree([a, cut], x) <==> x == cut.addr { TwoFree(a, cut, x); }
    TwoFree(a, cut, 0);
  }

  lemma GrowFits(p: Pool, h: Heap, i: nat, n: nat)
    requires Inv(p, h) && i + 1 < |h.blocks| && h.blocks[i].used && !h.blocks[i + 1].used
    requires n >= MINIALLOC && h.blocks[i].len < n && n % ALIGN == 0 && h.blocks[i].len + h.blocks[i + 1].len > n + MINIALLOC
    ensures Inv(p, Grow(p, h, i, n))
  {
    hide NoDup, HasFree, FreeSum, Without, Listed, Index, Grow, Covers, Tiled, ALIGN;
    GrowIs(p, h, i, n);
    GrowCovers(p, h, i, n);
    var l := h.blocks;
    var a, cut := l[i].(len := n), Block(l[i].addr + HEADER + n, l[i].len + l[i + 1].len - n, false);
    GrowList(p, h, i, a, cut);
    if i + 2 < |l| { assert l[i + 1].used || l[i + 2].used; }
    SpliceKeeps(p, h, i, i + 2, [a, cut], [cut.addr] + Without(h.free, l[i + 1].addr), h.available - (n - l[i].len));
  }

  /** What `Shrink` cuts off. */
  function CutOff(l: seq<Block>, i: nat, n: nat): Block
    requires i < |l| && l[i].len >= n + HEADER
  {
    Block(l[i].addr + HEADER + n, l[i].len - n - HEADER + if RightFree(l, i) then HEADER + l[i + 1].len else 0, false)
  }

  lemma ShrinkCovers(p: Pool, h: Heap, i: nat, n: nat)
    requires Inv(p, h) && i < |h.blocks| && n % ALIGN == 0 && n >= MINIALLOC && n + HEADER <= h.blocks[i].len
    ensures Covers(h.blocks, i, Hi(h.blocks, i), [h.blocks[i].(len := n), CutOff(h.blocks, i, n)])
    ensures Hi(h.blocks, i) < |h.blocks| ==> h.blocks[Hi(h.blocks, i)].used
  {
    hide Listed, FreeSum, HasFree;
    var l := h.blocks;
    AlignedDifference(l[i].len, n);
    if i + 1 < |l| {
      assert End(l[i]) == l[i + 1].addr;
      AlignedSum(l[i].len - n, l[i + 1].len);
    }
    if i + 2 < |l| { assert l[i + 1].used || l[i + 2].used; }
  }

  lemma ShrinkList(p: Pool, h: Heap, i: nat, n: nat)
    requires Inv(p, h) && i < |h.blocks| && h.blocks[i].used && n + HEADER < h.blocks[i].len
    ensures var f, mid, seg := Shrink(h, i, n).free, h.blocks[i..Hi(h.blocks, i)], [h.blocks[i].(len := n), CutOff(h.blocks, i, n)];
      && NoDup(f) && (forall x :: x in f <==> (x in h.free && !HasFree(mid, x)) || HasFree(seg, x))
      && FreeSum(mid) == (if RightFree(h.blocks, i) then h.blocks[i + 1].len else 0) && FreeSum(seg) == CutOff(h.blocks, i, n).len
  {
    hide NoDup, HasFree, FreeSum, Without, Listed, Index, Tiled, NoFreePair;
    var l := h.blocks;
    var a, cut := l[i].(len := n), CutOff(l, i, n);
    FreeDistinct(p, h);
    if RightFree(l, i) { WithoutOne(h.free, l[i + 1].addr); }
    InsideNotFree(p, h, i, cut.addr);
    FrontNoDup(cut.addr, if RightFree(l, i) then Without(h.free, l[i + 1].addr) else h.free);
    AfterOnly(l, i);
    forall x ensures HasFree([a, cut], x) <==> x == cut.addr { TwoFree(a, cut, x); }
    TwoFree(a, cut, 0);
  }

  lemma ShrinkKeeps(p: Pool, h: Heap, i: nat, n: nat)
    requires Inv(p, h) && i < |h.blocks| && h.blocks[i].used && n % ALIGN == 0 && MINIALLOC <= n && n + HEADER + MINIALLOC < h.blocks[i].len
    ensures Inv(p, Shrink(h, i, n))
  {
    ShrinkCovers(p, h, i, n);
    ShrinkList(p, h, i, n);
    hide NoDup, HasFree, FreeSum, Without, Listed, Index, Covers, Tiled, ALIGN;
    var r := Shrink(h, i, n);
    SpliceKeeps(p, h, i, Hi(h.blocks, i), [h.blocks[i].(len := n), CutOff(h.blocks, i, n)], r.free, r.available);
    assert r.maxUsed == Max(h.maxUsed, p.size - r.available);
  }

  // ----- what a caller gets -----

  /** The blocks in use. */
  ghost function Live(l: seq<Block>): set<Block> { set b | b in l && b.used }

  lemma SpliceLive(p: Pool, l: seq<Block>, lo: nat, hi: nat, seg: seq<Block>)
    requires Tiled(p, l) && lo < hi <= |l|
    ensures Live(l[..lo] + seg + l[hi..]) == Live(l) - Live(l[lo..hi]) + Live(seg)
    ensures Live(l[lo..hi]) <= Live(l)
  {
    hide Tiled;
    assert l == l[..lo] + l[lo..hi] + l[hi..];
    forall a, b | a in l[lo..hi] && (b in l[..lo] || b in l[hi..]) ensures a != b {
      var j :| 0 <= j < |l[lo..hi]| && l[lo..hi][j] == a;
      if b in l[..lo] {
        var k :| 0 <= k < |l[..lo]| && l[..lo][k] == b;
        Ordered(p, l, k, lo + j);
      } else {
        var k :| 0 <= k < |l[hi..]| && l[hi..][k] == b;
        Ordered(p, l, lo + j, hi + k);
      }
    }
  }

  /** The bytes of a live block belong to no other block. */
  lemma LiveDisjoint(p: Pool, h: Heap, a: Block, b: Block)
    requires Inv(p, h) && a in h.blocks && b in h.blocks && a != b
    ensures End(a) <= b.addr || End(b) <= a.addr
    ensures p.start <= a.addr && End(a) <= Tail(p) && (a.addr - p.start) % ALIGN == 0
  {
    var i :| 0 <= i < |h.blocks| && h.blocks[i] == a;
    var j :| 0 <= j < |h.blocks| && h.blocks[j] == b;
    if i < j { Ordered(p, h.blocks, i, j); } else { Ordered(p, h.blocks, j, i); }
    InPool(p, h.blocks, i);
  }

  lemma {:induction false} FindFirst(h: Heap, n: nat, k: nat)
    requires k <= |h.free|
    ensures var r := Find(h, n, k);
      && (r < |h.free| ==> Fits(h.blocks, h.free[r], n))
      && forall j :: k <= j < r ==> !Fits(h.blocks, h.free[j], n)
    decreases |h.free| - k
  {
    if k < |h.free| && !Fits(h.blocks, h.free[k], n) { FindFirst(h, n, k + 1); }
  }

  lemma {:induction false} FreeSumAtLeast(l: seq<Block>, i: nat)
    requires i < |l| && !l[i].used
    ensures l[i].len <= FreeSum(l)
  {
    if i > 0 { FreeSumAtLeast(l[1..], i - 1); }
  }

  ghost predicate NoneFits(l: seq<Block>, n: nat) { forall i :: 0 <= i < |l| && !l[i].used ==> l[i].len < n }

  /** Allocation fails exactly when no free block is large enough, or when what is asked for is
      all there is. */
  lemma AllocFails(p: Pool, h: Heap, size: nat)
    requires Inv(p, h)
    ensures Alloc(p, h, size).1.Null? <==> NoneFits(h.blocks, Request(size)) || Request(size) == h.available
  {
    hide NoDup, Tiled, NoFreePair;
    var n, l := Request(size), h.blocks;
    if n >= h.available {
      forall i | 0 <= i < |l| && !l[i].used ensures l[i].len <= h.available { FreeSumAtLeast(l, i); }
    } else {
      FindFirst(h, n, 0);
      var k := Find(h, n, 0);
      if k < |h.free| {
        var i := Index(l, h.free[k]);
        FreeBlock(p, h, k);
        assert l[i].len >= n && !l[i].used;
      } else {
        forall i | 0 <= i < |l| && !l[i].used ensures l[i].len < n { FreeUnfit(p, h, i, n); }
      }
    }
  }

  lemma FreeUnfit(p: Pool, h: Heap, i: nat, n: nat)
    requires Inv(p, h) && i < |h.blocks| && !h.blocks[i].used
    requires forall j :: 0 <= j < |h.free| ==> !Fits(h.blocks, h.free[j], n)
    ensures h.blocks[i].len < n
  {
    UnusedListed(p, h, i);
    IndexIs(p, h.blocks, i);
    var j :| 0 <= j < |h.free| && h.free[j] == h.blocks[i].addr;
    assert !Fits(h.blocks, h.free[j], n);
  }

  /** At least `n` bytes, and no more than a smallest block and its header beyond that. */
  predicate About(len: nat, n: nat) { n <= len <= n + HEADER + MINIALLOC }

  /** A new live block, of about the requested length, in what was free; nothing else that is live
      changes. */
  ghost predicate Gained(l: seq<Block>, r: seq<Block>, to: nat, n: nat) {
    exists b: Block :: b.used && b.addr + HEADER == to && About(b.len, n) && b !in Live(l) && Live(r) == Live(l) + {b}
  }

  lemma UseGains(p: Pool, h: Heap, k: nat, n: nat)
    requires Inv(p, h) && k < |h.free| && Fits(h.blocks, h.free[k], n)
    ensures var i := Index(h.blocks, h.free[k]);
      Gained(h.blocks, Use(p, h, k, i, n).blocks, h.free[k] + HEADER, n)
  {
    hide NoDup, NoFreePair, FreeSum;
    var l, i := h.blocks, Index(h.blocks, h.free[k]);
    FreeBlock(p, h, k);
    assert l[i..i + 1] == [l[i]];
    var b := l[i];
    if b.len >= n + HEADER + MINIALLOC {
      var a, cut := Block(b.addr, n, true), Block(b.addr + HEADER + n, b.len - n - HEADER, false);
      SpliceLive(p, l, i, i + 1, [a, cut]);
      NotLive(p, h, i, a);
      assert Live([a, cut]) == {a};
    } else {
      var a := b.(used := true);
      SpliceLive(p, l, i, i + 1, [a]);
      NotLive(p, h, i, a);
      assert Live([a]) == {a};
    }
  }

  lemma NotLive(p: Pool, h: Heap, i: nat, a: Block)
    requires Inv(p, h) && i < |h.blocks| && !h.blocks[i].used && a.addr == h.blocks[i].addr && a.used
    ensures a !in Live(h.blocks) && Live([h.blocks[i]]) == {}
  {
    if a in Live(h.blocks) {
      var k :| 0 <= k < |h.blocks| && h.blocks[k] == a;
      if k < i { Ordered(p, h.blocks, k, i); }
      if i < k { Ordered(p, h.blocks, i, k); }
    }
  }

  lemma RequestAligned(size: nat)
    ensures Request(size) % ALIGN == 0 && MINIALLOC <= Request(size) < WORD
  {
  }

  /** `rt_memheap_alloc` keeps the heap and hands out what was free. */
  lemma AllocKeeps(p: Pool, h: Heap, size: nat)
    requires Inv(p, h)
    ensures var (r, to) := Alloc(p, h, size);
      && Inv(p, r)
      && if to.Null? then r == h else Gained(h.blocks, r.blocks, to.addr, Request(size))
  {
    hide Tiled, NoFreePair, Listed, Gained;
    var n := Request(size);
    RequestAligned(size);
    FindFirst(h, n, 0);
    var k := Find(h, n, 0);
    if n < h.available && k < |h.free| {
      UseKeeps(p, h, k, n);
      UseGains(p, h, k, n);
    }
  }

  /** A block is at least as long as was asked for, except that a request in the last three bytes
      of the 32-bit range is rounded to 0, and served with twelve bytes. */
  lemma RequestCovers(size: nat)
    requires size < WORD
    ensures Request(size) >= size <==> size + ALIGN - 1 < WORD
  {
    AlignUpIs(size);
  }

  /** Freeing takes exactly the block that is freed from the live ones. */
  lemma FreeReturns(p: Pool, h: Heap, i: nat)
    requires Inv(p, h) && i < |h.blocks| && h.blocks[i].used
    ensures Live(Free(h, i).blocks) == Live(h.blocks) - {h.blocks[i]}
  {
    var l := h.blocks;
    SpliceLive(p, l, Lo(l, i), Hi(l, i), [Merged(l, i)]);
    var mid := l[Lo(l, i)..Hi(l, i)];
    assert mid[i - Lo(l, i)] == l[i];
    assert forall b :: b in Live(mid) <==> b == l[i];
    assert Live(mid) == {l[i]};
    assert Live([Merged(l, i)]) == {};
  }

  // ----- realloc -----

  /** The requests that wrap round in the test for growing. */
  predicate Wraps(size: nat) { Request(size) + MINIALLOC >= WORD }

  lemma WrapsWhen(size: nat)
    requires size < WORD
    ensures Wraps(size) <==> 0xFFFF_FFF1 <= size <= 0xFFFF_FFFC
  {
    AlignUpIs(size);
  }

  /** The block that a live pointer belongs to. */
  lemma LiveIndex(p: Pool, h: Heap, b: Block)
    requires Inv(p, h) && b in Live(h.blocks)
    ensures var j := Index(h.blocks, b.addr); j < |h.blocks| && h.blocks[j] == b
  {
    var j :| 0 <= j < |h.blocks| && h.blocks[j] == b;
    IndexIs(p, h.blocks, j);
  }

  /** The block is replaced by one at `to` of about `n` bytes. */
  ghost predicate Resized(l: seq<Block>, r: seq<Block>, was: Block, to: nat, n: nat) {
    exists b: Block :: b.used && b.addr + HEADER == to && About(b.len, n) && Live(r) == Live(l) - {was} + {b}
  }

  /** Reallocation keeps the heap exactly when the size is not one that wraps, or no free block
      follows. */
  lemma ReallocKeeps(p: Pool, h: Heap, i: nat, size: nat)
    requires Inv(p, h) && i < |h.blocks| && h.blocks[i].used && 0 < size < WORD
    ensures Inv(p, Realloc(p, h, i, size).0) <==> !(Wraps(size) && RightFree(h.blocks, i))
  {
    hide Tiled, NoFreePair, Listed, Alloc, Grow, Shrink, AlignUp;
    var n, b := Request(size), h.blocks[i];
    RequestAligned(size);
    BlockInPool(p, h, i);
    if n > b.len {
      if RightFree(h.blocks, i) && GrowTest(b.len, h.blocks[i + 1].len, n) {
        GrowKeeps(p, h, i, n);
      } else {
        MoveKeeps(p, h, i, n);
      }
    } else if n + HEADER + MINIALLOC < b.len {
      ShrinkKeeps(p, h, i, n);
    }
  }

  lemma BlockInPool(p: Pool, h: Heap, i: nat)
    requires Inv(p, h) && i < |h.blocks|
    ensures h.blocks[i].len + 2 * HEADER <= WORD && (h.blocks[i].used ==> h.blocks[i].len >= MINIALLOC)
    ensures i + 1 < |h.blocks| ==> h.blocks[i].len + h.blocks[i + 1].len + 3 * HEADER <= WORD
  {
    InPool(p, h.blocks, i);
    if i + 1 < |h.blocks| {
      InPool(p, h.blocks, i + 1);
      assert End(h.blocks[i]) == h.blocks[i + 1].addr;
    }
  }

  /** Allocating a new block and then freeing the old one. */
  lemma MoveKeeps(p: Pool, h: Heap, i: nat, n: nat)
    requires Inv(p, h) && i < |h.blocks| && h.blocks[i].used
    ensures var (h1, to) := Alloc(p, h, n); var j := Index(h1.blocks, h.blocks[i].addr);
      && Inv(p, h1)
      && (to.At? ==> j < |h1.blocks| && h1.blocks[j] == h.blocks[i] && Inv(p, Free(h1, j))
                     && Resized(h.blocks, Free(h1, j).blocks, h.blocks[i], to.addr, Request(n)))
  {
    hide Tiled, NoFreePair, Listed, Alloc, Free;
    var (h1, to) := Alloc(p, h, n);
    AllocKeeps(p, h, n);
    if to.At? {
      var b := h.blocks[i];
      var c: Block :| c.used && c.addr + HEADER == to.addr && About(c.len, Request(n)) && c !in Live(h.blocks) && Live(h1.blocks) == Live(h.blocks) + {c};
      assert b in Live(h.blocks);
      LiveIndex(p, h1, b);
      var j := Index(h1.blocks, b.addr);
      FreeKeeps(p, h1, j);
      FreeReturns(p, h1, j);
      assert Live(Free(h1, j).blocks) == Live(h.blocks) - {b} + {c};
    }
  }

  lemma GrowReturns(p: Pool, h: Heap, i: nat, n: nat)
    requires Inv(p, h) && i + 1 < |h.blocks| && h.blocks[i].used && !h.blocks[i + 1].used
    requires h.blocks[i].len < n && h.blocks[i].len + h.blocks[i + 1].len > n + MINIALLOC
    ensures Resized(h.blocks, Grow(p, h, i, n).blocks, h.blocks[i], h.blocks[i].addr + HEADER, n)
  {
    GrowIs(p, h, i, n);
    hide Grow, NoFreePair, Listed;
    var l := h.blocks;
    var a, cut := l[i].(len := n), Block(l[i].addr + HEADER + n, l[i].len + l[i + 1].len - n, false);
    SpliceLive(p, l, i, i + 2, [a, cut]);
    assert l[i..i + 2] == [l[i], l[i + 1]];
    assert Live([a, cut]) == {a} && Live([l[i], l[i + 1]]) == {l[i]};
  }

  lemma ShrinkReturns(p: Pool, h: Heap, i: nat, n: nat)
    requires Inv(p, h) && i < |h.blocks| && h.blocks[i].used && n + HEADER <= h.blocks[i].len
    ensures Resized(h.blocks, Shrink(h, i, n).blocks, h.blocks[i], h.blocks[i].addr + HEADER, n)
  {
    hide NoFreePair, Listed;
    var l := h.blocks;
    var a, cut := l[i].(len := n), CutOff(l, i, n);
    SpliceLive(p, l, i, Hi(l, i), [a, cut]);
    assert RightFree(l, i) ==> l[i..Hi(l, i)] == [l[i], l[i + 1]];
    assert Live([a, cut]) == {a} && Live(l[i..Hi(l, i)]) == {l[i]};
  }

  /** What a caller of `rt_memheap_realloc` gets: the block moved or resized in place, or nothing
      changed at all. */
  lemma ReallocReturns(p: Pool, h: Heap, i: nat, size: nat)
    requires Inv(p, h) && i < |h.blocks| && h.blocks[i].used && 0 < size < WORD && !(Wraps(size) && RightFree(h.blocks, i))
    ensures var (r, to) := Realloc(p, h, i, size);
      if to.Null? then r == h else Resized(h.blocks, r.blocks, h.blocks[i], to.addr, Request(size))
  {
    hide Tiled, NoFreePair, Listed, Alloc, Grow, Shrink, Free, AlignUp, Resized;
    var n, b := Request(size), h.blocks[i];
    RequestAligned(size);
    BlockInPool(p, h, i);
    if n > b.len {
      if RightFree(h.blocks, i) && GrowTest(b.len, h.blocks[i + 1].len, n) {
        SmallMod(n + MINIALLOC);
        GrowReturns(p, h, i, n);
      } else {
        MoveKeeps(p, h, i, n);
        AllocKeeps(p, h, n);
        RequestAgain(n);
      }
    } else if n + HEADER + MINIALLOC < b.len {
      ShrinkReturns(p, h, i, n);
    } else {
      SameSize(h, i, n);
    }
  }

  /** It fails exactly when the block has to grow, a free block after it does not suffice, and no other is
      large enough or all that is free would be taken; a block that does not have to grow stays where it
      is. */
  lemma ReallocFails(p: Pool, h: Heap, i: nat, size: nat)
    requires Inv(p, h) && i < |h.blocks| && h.blocks[i].used && 0 < size < WORD && !(Wraps(size) && RightFree(h.blocks, i))
    ensures var n, l := Request(size), h.blocks;
      Realloc(p, h, i, size).1.Null? <==>
        && n > l[i].len && !(RightFree(l, i) && l[i].len + l[i + 1].len > n + MINIALLOC)
        && (NoneFits(l, n) || n == h.available)
    ensures Request(size) <= h.blocks[i].len ==> Realloc(p, h, i, size).1 == At(h.blocks[i].addr + HEADER)
  {
    hide Inv, Alloc, Grow, Shrink, Free, AlignUp, NoneFits;
    var n := Request(size);
    RequestAligned(size);
    RequestAgain(n);
    AllocFails(p, h, n);
    if RightFree(h.blocks, i) { SmallMod(n + MINIALLOC); }
  }

  lemma RequestAgain(n: nat)
    requires n % ALIGN == 0 && MINIALLOC <= n < WORD
    ensures Request(n) == n
  {
    AlignUpIs(n);
  }

  lemma SameSize(h: Heap, i: nat, n: nat)
    requires i < |h.blocks| && h.blocks[i].used && About(h.blocks[i].len, n)
    ensures Resized(h.blocks, h.blocks, h.blocks[i], h.blocks[i].addr + HEADER, n)
  {
    assert Live(h.blocks) == Live(h.blocks) - {h.blocks[i]} + {h.blocks[i]};
  }

  /** A request that wraps: sixteen free bytes follow, four gigabytes are asked for, and the header
      of the next block lands inside the header of this one. */
  lemma ReallocWraps()
    ensures var p := Pool(0x1000, 100);
      var h := Heap([Block(0x1000, 12, true), Block(0x1024, 16, false)], [0x1024], 16, 84);
      && Inv(p, h) && !Inv(p, Realloc(p, h, 0, 0xFFFF_FFF4).0)
  {
    var p := Pool(0x1000, 100);
    var l := [Block(0x1000, 12, true), Block(0x1024, 16, false)];
    var h := Heap(l, [0x1024], 16, 84);
    assert HasFree(l, 0x1024) by { assert l[1].addr == 0x1024; }
    assert FreeSum(l) == FreeSum(l[1..]) && FreeSum(l[1..]) == 16 + FreeSum(l[1..][1..]);
    assert Inv(p, h);
    ReallocKeeps(p, h, 0, 0xFFFF_FFF4);
    WrapsWhen(0xFFFF_FFF4);
  }

  // ----- whole histories -----

  datatype Op = Malloc(size: nat) | Release(ptr: nat) | Resize(ptr: nat, size: nat)

  predicate LivePointer(l: seq<Block>, ptr: nat) {
    ptr >= HEADER && Index(l, ptr - HEADER) < |l| && l[Index(l, ptr - HEADER)].used
  }

  /** Pointers are live ones, and sizes are words that do not wrap. */
  predicate Enabled(h: Heap, o: Op) {
    match o
    case Malloc(_) => true
    case Release(ptr) => LivePointer(h.blocks, ptr)
    case Resize(ptr, size) => LivePointer(h.blocks, ptr) && 0 < size < WORD && !Wraps(size)
  }

  function Step(p: Pool, h: Heap, o: Op): Heap
    requires Enabled(h, o)
  {
    match o
    case Malloc(size) => Alloc(p, h, size).0
    case Release(ptr) => Free(h, Index(h.blocks, ptr - HEADER))
    case Resize(ptr, size) => Realloc(p, h, Index(h.blocks, ptr - HEADER), size).0
  }

  predicate CanRun(p: Pool, h: Heap, run: seq<Op>)
    decreases |run|
  {
    run == [] || (Enabled(h, run[0]) && CanRun(p, Step(p, h, run[0]), run[1..]))
  }

  function Exec(p: Pool, h: Heap, run: seq<Op>): Heap
    requires CanRun(p, h, run)
    decreases |run|
  {
    if run == [] then h else Exec(p, Step(p, h, run[0]), run[1..])
  }

  /** `rt_memheap_init`; the sizes are words. */
  function Init(p: Pool): Heap {
    var rest := (p.size + WORD - 2 * HEADER) % WORD;
    Heap([Block(p.start, rest, false)], [p.start], rest, 2 * HEADER)
  }

  /** The first heap is sound exactly when its pool holds the two headers that are written into it; the
      function does not refuse a smaller one. */
  lemma InitOk(p: Pool)
    requires 0 < p.start && p.start + p.size <= WORD && p.size % ALIGN == 0
    ensures Inv(p, Init(p)) <==> p.size >= 2 * HEADER
  {
    var b := Init(p).blocks[0];
    OneFree(b, 0);
    if p.size >= 2 * HEADER {
      assert b.len == p.size - 2 * HEADER;
      AlignedDifference(p.size, 2 * HEADER);
      forall x ensures HasFree([b], x) <==> x == b.addr { OneFree(b, x); }
    } else {
      assert End(b) == Tail(p) + WORD;
    }
  }

  /** `max_used_size` is the most that has been in use: a call that moves a block has both in use for a
      while. */
  lemma PeakIs(p: Pool, h: Heap, i: nat, size: nat)
    requires Inv(p, h)
    ensures var r := Alloc(p, h, size).0; r.maxUsed == Max(h.maxUsed, p.size - r.available)
    ensures i < |h.blocks| ==> Free(h, i).maxUsed == h.maxUsed && Free(h, i).available >= h.available + h.blocks[i].len
    ensures i < |h.blocks| && h.blocks[i].used && size > 0 ==>
      var (r, to) := Realloc(p, h, i, size);
      r.maxUsed == if to.Null? || to.addr == h.blocks[i].addr + HEADER then Max(h.maxUsed, p.size - r.available)
                   else Max(h.maxUsed, p.size - Alloc(p, h, Request(size)).0.available)
  {
    hide Tiled, NoFreePair, Listed, FreeSum, Alloc, Request, Free;
    AllocPeak(p, h, size);
    AllocPeak(p, h, Request(size));
    FreePeak(h, i);
    if i < |h.blocks| && h.blocks[i].used && size > 0 {
      var n, b := Request(size), h.blocks[i];
      var (h1, to) := Alloc(p, h, n);
      MoveKeeps(p, h, i, n);
      AllocKeeps(p, h, n);
      if to.At? {
        FreePeak(h1, Index(h1.blocks, b.addr));
        NewAddress(p, h, i, h1, to.addr, Request(n));
      }
      if n <= b.len && n + HEADER + MINIALLOC < b.len { ShrinkPeak(h, i, n); }
    }
  }

  lemma ShrinkPeak(h: Heap, i: nat, n: nat)
    requires i < |h.blocks| && n + HEADER <= h.blocks[i].len
    ensures Shrink(h, i, n).maxUsed == h.maxUsed && Shrink(h, i, n).available >= h.available
  {
  }

  lemma AllocPeak(p: Pool, h: Heap, size: nat)
    requires Inv(p, h)
    ensures var r := Alloc(p, h, size).0; r.maxUsed == Max(h.maxUsed, p.size - r.available)
  {
    hide Tiled, NoFreePair, Listed, FreeSum, Request, Index, Find;
  }

  lemma FreePeak(h: Heap, i: nat)
    ensures i < |h.blocks| ==> Free(h, i).maxUsed == h.maxUsed && Free(h, i).available >= h.available + h.blocks[i].len
  {
  }

  lemma NewAddress(p: Pool, h: Heap, i: nat, h1: Heap, to: nat, n: nat)
    requires Inv(p, h) && Inv(p, h1) && i < |h.blocks| && h.blocks[i].used && Gained(h.blocks, h1.blocks, to, n)
    ensures to != h.blocks[i].addr + HEADER
  {
    hide NoFreePair, Listed, FreeSum, Tiled;
    var b: Block :| b.used && b.addr + HEADER == to && About(b.len, n) && b !in Live(h.blocks) && Live(h1.blocks) == Live(h.blocks) + {b};
    assert h.blocks[i] in Live(h.blocks);
    LiveIndex(p, h1, b);
    LiveIndex(p, h1, h.blocks[i]);
  }

  lemma {:induction false} RunKeeps(p: Pool, h: Heap, run: seq<Op>)
    requires Inv(p, h) && CanRun(p, h, run)
    ensures Inv(p, Exec(p, h, run))
    decreases |run|
  {
    hide Inv, Alloc, Free, Realloc, Index;
    if run != [] {
      match run[0] {
        case Malloc(size) => AllocKeeps(p, h, size);
        case Release(ptr) => FreeKeeps(p, h, Index(h.blocks, ptr - HEADER));
        case Resize(ptr, size) => ReallocKeeps(p, h, Index(h.blocks, ptr - HEADER), size);
      }
      RunKeeps(p, Step(p, h, run[0]), run[1..]);
    }
  }

  /** After any history of allocations, releases and resizings: the heap adds up, and a live block shares
      no byte with any other block or its header, nor with the tail. */
  lemma HeapStaysSound(p: Pool, run: seq<Op>, a: Block, b: Block)
    requires 0 < p.start && p.start + p.size <= WORD && p.size >= 2 * HEADER && p.size % ALIGN == 0
    requires CanRun(p, Init(p), run)
    ensures var h := Exec(p, Init(p), run);
      && h.available + LiveSum(h.blocks) + HEADER * (|h.blocks| + 1) == p.size
      && NoFreePair(h.blocks)
      && (a in Live(h.blocks) && b in h.blocks && a != b ==>
           (End(a) <= b.addr || End(b) <= a.addr) && p.start <= a.addr && End(a) <= Tail(p))
  {
    InitOk(p);
    RunKeeps(p, Init(p), run);
    var h := Exec(p, Init(p), run);
    Conservation(p, h);
    if a in Live(h.blocks) && b in h.blocks && a != b { LiveDisjoint(p, h, a, b); }
  }

  // ----- conservation -----

  function LiveSum(l: seq<Block>): nat {
    if l == [] then 0 else (if l[0].used then l[0].len else 0) + LiveSum(l[1..])
  }

  lemma {:induction false} TilesAddUp(l: seq<Block>)
    requires |l| > 0 && forall i :: 0 <= i < |l| - 1 ==> End(l[i]) == l[i + 1].addr
    ensures l[0].addr + FreeSum(l) + LiveSum(l) + HEADER * |l| == End(l[|l| - 1])
  {
    if |l| > 1 {
      assert End(l[0]) == l[1].addr;
      TilesAddUp(l[1..]);
    } else {
      assert l == [l[0]];
      assert FreeSum(l[1..]) == 0 && LiveSum(l[1..]) == 0;
    }
  }

  /** Free bytes, live bytes and headers, with that of the tail block, make up the pool. */
  lemma Conservation(p: Pool, h: Heap)
    requires Inv(p, h)
    ensures h.available + LiveSum(h.blocks) + HEADER * (|h.blocks| + 1) == p.size
  {
    TilesAddUp(h.blocks);
  }
}

module MemHeaps {
  import opened Rings
  import opened Words
  import opened MemHeapModel

  /** The addresses in the circular block list, the tail block last. */
  ghost function Ring(p: Pool, l: seq<Block>): seq<int> {
    seq(|l|, i requires 0 <= i < |l| => l[i].addr) + [Tail(p)]
  }

  ghost predicate UsedOk(p: Pool, l: seq<Block>, used: map<int, bool>) {
    && (forall i :: 0 <= i < |l| ==> l[i].addr in used && used[l[i].addr] == l[i].used)
    && Tail(p) in used && used[Tail(p)]
  }

  lemma RingDistinct(p: Pool, l: seq<Block>)
    requires Tiled(p, l)
    ensures NoDup(Ring(p, l))
  {
    forall i, j | 0 <= i < j < |l| + 1 ensures Ring(p, l)[i] != Ring(p, l)[j] {
      InPool(p, l, i);
      if j < |l| { Ordered(p, l, i, j); }
    }
  }

  /** The neighbours of block `i` in the ring. */
  lemma Neighbours(p: Pool, l: seq<Block>, next: map<int, int>, prev: map<int, int>, i: nat)
    requires Tiled(p, l) && IsRing(next, prev, Ring(p, l)) && i < |l|
    ensures var x := l[i].addr;
      && x in next && next[x] == End(l[i]) && next[x] == (if i + 1 < |l| then l[i + 1].addr else Tail(p)) && next[x] in next
      && x in prev && prev[x] == (if i > 0 then l[i - 1].addr else Tail(p)) && prev[x] in next && next[x] in prev
  {
    var r := Ring(p, l);
    assert r[i] == l[i].addr;
    assert Link(next, prev, r[i], r[Succ(i, |r|)]);
    assert Link(next, prev, r[Succ(i, |r|)], r[Succ(Succ(i, |r|), |r|)]);
    var j := if i > 0 then i - 1 else |l|;
    assert Succ(j, |r|) == i && Link(next, prev, r[j], r[Succ(j, |r|)]);
  }

  lemma RingAfterSplit(p: Pool, l: seq<Block>, i: nat, a: Block, cut: Block)
    requires i < |l| && a.addr == l[i].addr
    ensures Ring(p, l[..i] + [a, cut] + l[i + 1..]) == Ring(p, l)[..i + 1] + [cut.addr] + Ring(p, l)[i + 1..]
  {
  }

  lemma RingAfterRename(p: Pool, l: seq<Block>, i: nat, a: Block)
    requires i < |l| && a.addr == l[i].addr
    ensures Ring(p, l[..i] + [a] + l[i + 1..]) == Ring(p, l)
  {
  }

  lemma RingAfterMerge(p: Pool, l: seq<Block>, i: nat, a: Block)
    requires i + 1 < |l| && a.addr == l[i].addr
    ensures Ring(p, l[..i] + [a] + l[i + 2..]) == Ring(p, l)[..i + 1] + Ring(p, l)[i + 2..]
  {
  }

  /** An address strictly inside a block is no block's, and not the tail's. */
  lemma InsideNotInRing(p: Pool, l: seq<Block>, i: nat, x: int)
    requires Tiled(p, l) && i < |l| && l[i].addr < x < End(l[i])
    ensures x !in Ring(p, l) && p.start < x < p.start + p.size
  {
    InPool(p, l, i);
    forall k | 0 <= k < |l| ensures l[k].addr != x {
      if k < i { Ordered(p, l, k, i); }
      if i < k { Ordered(p, l, i, k); }
    }
  }

  /** The used bits after block `i` has become a used block and one that is cut off. */
  lemma UsedAfterSplit(p: Pool, l: seq<Block>, used: map<int, bool>, i: nat, a: Block, cut: Block)
    requires Tiled(p, l) && UsedOk(p, l, used) && i < |l| && a.addr == l[i].addr && l[i].addr < cut.addr < End(l[i])
    ensures UsedOk(p, l[..i] + [a, cut] + l[i + 1..], used[cut.addr := cut.used][a.addr := a.used])
  {
    InsideNotInRing(p, l, i, cut.addr);
    RingDistinct(p, l);
    var r, ring := l[..i] + [a, cut] + l[i + 1..], Ring(p, l);
    forall k | 0 <= k < |r| ensures r[k].addr in used[cut.addr := cut.used][a.addr := a.used]
                                    && used[cut.addr := cut.used][a.addr := a.used][r[k].addr] == r[k].used {
      if k < i || k > i + 1 {
        var j := if k < i then k else k - 1;
        assert r[k] == l[j] && ring[j] == l[j].addr && ring[i] == a.addr;
      }
    }
    assert ring[|l|] == Tail(p) && ring[i] == a.addr;
  }

  lemma UsedAfterChange(p: Pool, l: seq<Block>, used: map<int, bool>, i: nat, a: Block)
    requires Tiled(p, l) && UsedOk(p, l, used) && i < |l| && a.addr == l[i].addr
    ensures UsedOk(p, l[..i] + [a] + l[i + 1..], used[a.addr := a.used])
  {
    RingDistinct(p, l);
    var r, ring := l[..i] + [a] + l[i + 1..], Ring(p, l);
    forall k | 0 <= k < |r| ensures r[k].addr in used[a.addr := a.used] && used[a.addr := a.used][r[k].addr] == r[k].used {
      assert r[k].addr == l[k].addr && ring[k] == l[k].addr && ring[i] == a.addr;
    }
    assert ring[|l|] == Tail(p) && ring[i] == a.addr;
  }

  lemma UsedAfterMerge(p: Pool, l: seq<Block>, used: map<int, bool>, lo: nat, hi: nat, m: Block)
    requires UsedOk(p, l, used) && lo < hi <= |l| && m.addr == l[lo].addr && m.used == l[lo].used
    ensures UsedOk(p, l[..lo] + [m] + l[hi..], used)
  {
    var r := l[..lo] + [m] + l[hi..];
    forall k | 0 <= k < |r| ensures r[k].addr in used && used[r[k].addr] == r[k].used {
      assert r[k] == if k < lo then l[k] else if k == lo then m else l[k - lo - 1 + hi];
    }
  }

  lemma SpliceOne(p: Pool, l: seq<Block>, lo: nat, hi: nat, m: Block)
    requires Tiled(p, l) && lo < hi <= |l| && m.addr == l[lo].addr && End(m) == End(l[hi - 1]) && Sane(m)
    ensures Tiled(p, l[..lo] + [m] + l[hi..])
  {
    SpliceTiles(p, l, lo, hi, [m]);
  }

  lemma SaneMerge(a: Block, b: Block)
    requires Sane(a) && Sane(b)
    ensures Sane(Block(a.addr, a.len + HEADER + b.len, false))
  {
    AlignedSum(a.len, b.len);
  }

  /** The byte at address `a` of a pool with contents `m`. */
  ghost function Byte(p: Pool, m: seq<nat>, a: int): nat {
    if p.start <= a < p.start + |m| then m[a - p.start] else 0
  }

  /** Reallocation keeps the bytes of the block, as many as fit, and changes no byte outside the
      new block. */
  ghost predicate KeepsBytes(p: Pool, m: seq<nat>, r: seq<nat>, b: Block, n: nat, to: Pointer) {
    && |r| == |m|
    && (forall a :: !(to.At? && to.addr <= a < to.addr + n) ==> Byte(p, r, a) == Byte(p, m, a))
    && (to.At? ==> forall a :: to.addr <= a < to.addr + n && a < to.addr + b.len ==> Byte(p, r, a) == Byte(p, m, a - to.addr + b.addr + HEADER))
  }

  lemma SameBytes(p: Pool, m: seq<nat>, b: Block, n: nat)
    ensures KeepsBytes(p, m, m, b, n, Null) && KeepsBytes(p, m, m, b, n, At(b.addr + HEADER))
  {
  }

  lemma FreeInRing(p: Pool, l: seq<Block>, x: nat)
    ensures HasFree(l, x) ==> x in Ring(p, l)
  {
    if HasFree(l, x) {
      var k :| 0 <= k < |l| && l[k].addr == x && !l[k].used;
      assert Ring(p, l)[k] == x;
    }
  }

  lemma UsedAfterBorder(p: Pool, l: seq<Block>, used: map<int, bool>, i: nat, a: Block, cut: Block)
    requires Tiled(p, l) && UsedOk(p, l, used) && i + 1 < |l| && a.addr == l[i].addr && a.used == l[i].used && !cut.used
    requires l[i + 1].addr < cut.addr < End(l[i + 1])
    ensures UsedOk(p, l[..i] + [a, cut] + l[i + 2..], used[cut.addr := false])
  {
    InsideNotInRing(p, l, i + 1, cut.addr);
    var r, ring := l[..i] + [a, cut] + l[i + 2..], Ring(p, l);
    forall k | 0 <= k < |r| ensures r[k].addr in used[cut.addr := false] && used[cut.addr := false][r[k].addr] == r[k].used {
      if k != i + 1 { assert r[k].addr == l[k].addr == ring[k] && r[k].used == l[k].used; }
    }
    assert ring[|l|] == Tail(p);
  }

  ghost function Cut(l: seq<Block>, i: nat, n: nat): seq<Block>
    requires i < |l| && n + HEADER <= l[i].len
  {
    l[..i] + [l[i].(len := n), Block(l[i].addr + HEADER + n, l[i].len - n - HEADER, false)] + l[i + 1..]
  }

  /** Cutting, and merging what is cut off with a free block after it, gives the blocks of the
      model. */
  lemma CutSteps(l: seq<Block>, i: nat, n: nat)
    requires i < |l| && n + HEADER <= l[i].len
    ensures var c := Cut(l, i, n);
      && |c| == |l| + 1 && c[i + 1].addr == l[i].addr + HEADER + n && !c[i + 1].used
      && (RightFree(c, i + 1) <==> RightFree(l, i))
      && (RightFree(l, i) ==> i + 1 < |l| && c[i + 2] == l[i + 1])
      && (if RightFree(l, i) then Joined(c, i + 1) else c) == l[..i] + [l[i].(len := n), CutOff(l, i, n)] + l[Hi(l, i)..]
      && CutOff(l, i, n).addr == l[i].addr + HEADER + n
  {
    hide Joined;
    var c := Cut(l, i, n);
    if RightFree(l, i) {
      JoinedIs(c, i + 1);
      var r := l[..i] + [l[i].(len := n), CutOff(l, i, n)] + l[i + 2..];
      assert forall k :: 0 <= k < |r| ==> Joined(c, i + 1)[k] == r[k];
    }
  }

  ghost function Marked(l: seq<Block>, i: nat): seq<Block>
    requires i < |l|
  {
    l[..i] + [l[i].(used := false)] + l[i + 1..]
  }

  ghost function Joined(l: seq<Block>, j: nat): seq<Block>
    requires j + 1 < |l|
  {
    l[..j] + [Block(l[j].addr, l[j].len + HEADER + l[j + 1].len, false)] + l[j + 2..]
  }

  /** The blocks after marking and, if the previous block is free, merging with it. */
  ghost function LeftDone(l: seq<Block>, i: nat): (r: seq<Block>)
    requires i < |l|
    ensures Lo(l, i) < |r| && |r| >= |l| - i
  {
    if LeftFree(l, i) then Joined(Marked(l, i), i - 1) else Marked(l, i)
  }

  lemma MarkedIs(l: seq<Block>, i: nat)
    requires i < |l|
    ensures |Marked(l, i)| == |l| && Marked(l, i)[i] == l[i].(used := false)
    ensures forall k :: 0 <= k < |l| && k != i ==> Marked(l, i)[k] == l[k]
  {
  }

  lemma JoinedIs(l: seq<Block>, j: nat)
    requires j + 1 < |l|
    ensures |Joined(l, j)| == |l| - 1 && Joined(l, j)[j] == Block(l[j].addr, l[j].len + HEADER + l[j + 1].len, false)
    ensures forall k {:trigger Joined(l, j)[k]} :: 0 <= k < |l| - 1 && k != j ==> Joined(l, j)[k] == if k < j then l[k] else l[k + 1]
  {
  }

  /** The blocks after marking and, if the previous block is free, merging with it. */
  lemma LeftSteps(l: seq<Block>, i: nat)
    requires i < |l| && l[i].used
    ensures var l1, l2, j := Marked(l, i), LeftDone(l, i), Lo(l, i);
      && i < |l1| && l1[i].addr == l[i].addr && (LeftFree(l1, i) <==> LeftFree(l, i)) && (LeftFree(l, i) ==> l1[j] == l[j])
      && l2[j].addr == l[j].addr && !l2[j].used && (RightFree(l2, j) <==> RightFree(l, i))
      && (RightFree(l, i) ==> j + 1 < |l2| && l2[j + 1] == l[i + 1])
      && l2 == l[..j] + [l2[j]] + l[i + 1..]
      && l2[j].len == l[i].len + if LeftFree(l, i) then l[i - 1].len + HEADER else 0
  {
    hide Marked, Joined;
    MarkedIs(l, i);
    if LeftFree(l, i) { JoinedIs(Marked(l, i), i - 1); }
  }

  /** The steps of a release give the blocks of the model. */
  lemma RightSteps(l: seq<Block>, i: nat)
    requires i < |l| && l[i].used
    ensures var l2, j := LeftDone(l, i), Lo(l, i);
      && (RightFree(l, i) ==> j + 1 < |l2|)
      && (if RightFree(l, i) then Joined(l2, j) else l2) == l[..j] + [Merged(l, i)] + l[Hi(l, i)..]
      && Merged(l, i).addr == l[j].addr
  {
    hide LeftDone, Marked, Joined;
    LeftSteps(l, i);
    var l2, j := LeftDone(l, i), Lo(l, i);
    if RightFree(l, i) {
      JoinedIs(l2, j);
      var r := l[..j] + [Merged(l, i)] + l[i + 2..];
      assert forall k :: 0 <= k < |r| ==> Joined(l2, j)[k] == r[k];
    } else {
      assert l2[j] == Merged(l, i);
    }
  }

  class MemHeap {
    const pool: Pool
    /** The address of the free list header, outside the pool. */
    const header: int
    var next: map<int, int>
    var prev: map<int, int>
    var nextFree: map<int, int>
    var prevFree: map<int, int>
    /** The used bit of the magic word. */
    var used: map<int, bool>
    var available: int
    var maxUsed: int
    ghost var blocks: seq<Block>
    ghost var free: seq<nat>

    ghost function View(): Heap
      reads this
    {
      Heap(blocks, free, available, maxUsed)
    }

    ghost predicate Linked()
      reads `next, `prev, `nextFree, `prevFree, `used, `blocks, `free
    {
      && IsRing(next, prev, Ring(pool, blocks))
      && IsRing(nextFree, prevFree, [header] + free)
      && UsedOk(pool, blocks, used)
      && (header < pool.start || header >= pool.start + pool.size)
    }

    ghost predicate Valid()
      reads this
    {
      Inv(pool, View()) && Linked()
    }

    /** `rt_memheap_init` */
    constructor (start: nat, size: nat, header: int)
      requires 0 < start && start + size <= WORD
      requires header < start || header >= start + size
      ensures pool == Pool(start, AlignDown(size)) && View() == Init(pool)
      ensures Valid() <==> AlignDown(size) >= 2 * HEADER
    {
      var p := Pool(start, AlignDown(size));
      pool, this.header := p, header;
      var rest := (p.size + WORD - 2 * HEADER) % WORD;
      available, maxUsed := rest, (p.size + WORD - rest) % WORD;
      var item, tail := start, (start + rest + HEADER) % WORD;
      next := map[item := tail, tail := item];
      prev := map[item := tail, tail := item];
      nextFree := map[header := item, item := header];
      prevFree := map[item := header, header := item];
      used := map[item := false, tail := true];
      blocks, free := [Block(start, rest, false)], [start];
      new;
      InitOk(pool);
    }

    /** `new` is linked in after block `at` of the block list. */
    method LinkBlock(at: int, n: int, ghost s: seq<int>, ghost i: nat)
      requires IsRing(next, prev, s) && i < |s| && s[i] == at && n !in s
      modifies this`next, this`prev
      ensures IsRing(next, prev, s[..i + 1] + [n] + s[i + 1..])
    {
      InsertAfterIsRing(next, prev, s, i, n);
      ghost var next', prev' := next[n := next[at]][at := n], prev[next[at] := n][n := at];
      prev := prev[n := at];
      next := next[n := next[at]];
      prev := prev[next[at] := n];
      next := next[at := n];
      assert next == next' && prev == prev';
    }

    /** Block `n` is taken out of the block list; its own links stay as they are. */
    method UnlinkBlock(n: int, ghost s: seq<int>, ghost i: nat)
      requires IsRing(next, prev, s) && i < |s| && s[i] == n && |s| > 1
      modifies this`next, this`prev
      ensures IsRing(next, prev, s[..i] + s[i + 1..])
    {
      CutIsRing(next, prev, s, i);
      var before, after := prev[n], next[n];
      next := next[before := after];
      prev := prev[after := before];
    }

    /** Block `x` leaves the free list. */
    method UnlinkFree(x: int, ghost k: nat)
      requires IsRing(nextFree, prevFree, [header] + free) && k < |free| && free[k] == x
      modifies this`nextFree, this`prevFree, this`free
      ensures IsRing(nextFree, prevFree, [header] + free) && free == old(free)[..k] + old(free)[k + 1..]
    {
      ghost var s := [header] + free;
      CutIsRing(nextFree, prevFree, s, k + 1);
      var before, after := prevFree[x], nextFree[x];
      prevFree := prevFree[after := before];
      nextFree := nextFree[before := after];
      free := free[..k] + free[k + 1..];
      assert s[..k + 1] + s[k + 2..] == [header] + free;
    }

    /** The links of a block that is not in the free list are cleared. */
    method ClearFree(x: int)
      requires IsRing(nextFree, prevFree, [header] + free) && x != header && x !in free
      modifies this`nextFree, this`prevFree
      ensures IsRing(nextFree, prevFree, [header] + free)
    {
      RingFrame(nextFree, prevFree, nextFree[x := 0], prevFree[x := 0], [header] + free, [x]);
      nextFree := nextFree[x := 0];
      prevFree := prevFree[x := 0];
    }

    /** Block `x` becomes the first of the free list. */
    method PushFree(x: nat)
      requires IsRing(nextFree, prevFree, [header] + free) && x != header && x !in free
      modifies this`nextFree, this`prevFree, this`free
      ensures IsRing(nextFree, prevFree, [header] + free) && free == [x] + old(free)
    {
      ghost var s := [header] + free;
      InsertAfterIsRing(nextFree, prevFree, s, 0, x);
      ghost var next', prev' := nextFree[x := nextFree[header]][header := x], prevFree[nextFree[header] := x][x := header];
      nextFree := nextFree[x := nextFree[header]];
      prevFree := prevFree[x := header];
      prevFree := prevFree[nextFree[header] := x];
      nextFree := nextFree[header := x];
      assert nextFree == next' && prevFree == prev';
      free := [x] + free;
      assert s[..1] + [x as int] + s[1..] == [header] + free;
    }

    /** `rt_memheap_alloc` */
    method Alloc(size: nat) returns (ptr: Pointer)
      requires Valid()
      modifies this
      ensures Valid() && (View(), ptr) == MemHeapModel.Alloc(pool, old(View()), size)
    {
      hide Inv, Linked;
      AllocKeeps(pool, View(), size);
      RequestAligned(size);
      var n := AlignUp(size);
      if n < MINIALLOC {
        n := MINIALLOC;
      }
      if n < available {
        var item, freeSize, k := Search(n);
        if freeSize >= n {
          Take(item, freeSize, n, k);
          return At(item + HEADER);
        }
      }
      return Null;
    }

    /** First fit in the free list. */
    method Search(n: nat) returns (item: int, freeSize: int, ghost k: nat)
      requires Valid() && n > 0
      ensures k == Find(View(), n, 0) && (freeSize >= n <==> k < |free|)
      ensures k < |free| ==> var i := Index(blocks, free[k]);
        item == free[k] && i < |blocks| && freeSize == blocks[i].len
    {
      ghost var h, ring := View(), [header] + free;
      freeSize := 0;
      k := 0;
      assert Link(nextFree, prevFree, ring[0], ring[Succ(0, |ring|)]);
      item := nextFree[header];
      while item != header && freeSize < n
        invariant k <= |free| && item == (if k == |free| then header else free[k])
        invariant Find(h, n, 0) == Find(h, n, k)
        invariant freeSize >= n ==> k < |free| && Index(blocks, free[k]) < |blocks| && freeSize == blocks[Index(blocks, free[k])].len
        decreases |free| - k, n - freeSize
      {
        FreeBlock(pool, h, k);
        ghost var i := Index(blocks, free[k]);
        Neighbours(pool, blocks, next, prev, i);
        freeSize := next[item] - item - HEADER;
        if freeSize < n {
          assert ring[k + 1] == item;
          assert Link(nextFree, prevFree, ring[k + 1], ring[Succ(k + 1, |ring|)]);
          item := nextFree[item];
          k := k + 1;
        }
      }
    }

    /** The block found is split or handed out whole. */
    method Take(item: nat, freeSize: nat, n: nat, ghost k: nat)
      requires Valid() && k < |free| && free[k] == item
      requires var i := Index(blocks, item); i < |blocks| && freeSize == blocks[i].len >= n
      modifies this
      ensures Linked() && View() == Use(pool, old(View()), k, Index(old(blocks), item), n)
    {
      hide Inv, NoDup, Tiled;
      ghost var i := Index(blocks, item);
      if freeSize >= n + HEADER + MINIALLOC {
        SplitBlock(item, freeSize, n, k, i);
      } else {
        WholeBlock(item, freeSize, k, i);
      }
      if pool.size - available > maxUsed {
        maxUsed := pool.size - available;
      }
    }

    method SplitBlock(item: nat, freeSize: nat, n: nat, ghost k: nat, ghost i: nat)
      requires Valid() && k < |free| && free[k] == item && i < |blocks| && blocks[i].addr == item
      requires freeSize == blocks[i].len >= n + HEADER + MINIALLOC
      modifies this
      ensures Linked() && maxUsed == old(maxUsed) && available == old(available) - n - HEADER
      ensures var a, cut := Block(item, n, true), Block(item + HEADER + n, freeSize - n - HEADER, false);
        && blocks == old(blocks)[..i] + [a, cut] + old(blocks)[i + 1..]
        && free == [cut.addr] + (old(free)[..k] + old(free)[k + 1..])
    {
      hide NoFreePair, FreeSum, NoDup;
      var newItem := item + n + HEADER;
      ghost var a, cut := Block(item, n, true), Block(newItem, freeSize - n - HEADER, false);
      ghost var l := blocks;
      InsideNotInRing(pool, l, i, newItem);
      InsideNotFree(pool, View(), i, newItem);
      InPool(pool, l, i);
      FreeDistinct(pool, View());
      Taken(free, k);
      UsedAfterSplit(pool, l, used, i, a, cut);
      RingAfterSplit(pool, l, i, a, cut);
      hide Inv, Tiled, UsedOk, IsRing, Ring;
      used := used[newItem := false];
      LinkBlock(item, newItem, Ring(pool, l), i);
      UnlinkFree(item, k);
      ClearFree(item);
      PushFree(newItem);
      available := available - n - HEADER;
      used := used[item := true];
      blocks := l[..i] + [a, cut] + l[i + 1..];
    }

    method WholeBlock(item: nat, freeSize: nat, ghost k: nat, ghost i: nat)
      requires Valid() && k < |free| && free[k] == item && i < |blocks| && blocks[i].addr == item && freeSize == blocks[i].len
      modifies this
      ensures Linked() && maxUsed == old(maxUsed) && available == old(available) - freeSize
      ensures blocks == old(blocks)[..i] + [old(blocks)[i].(used := true)] + old(blocks)[i + 1..]
      ensures free == old(free)[..k] + old(free)[k + 1..]
    {
      hide NoFreePair, FreeSum, NoDup;
      ghost var l, a := blocks, blocks[i].(used := true);
      InPool(pool, l, i);
      FreeDistinct(pool, View());
      Taken(free, k);
      UsedAfterChange(pool, l, used, i, a);
      RingAfterRename(pool, l, i, a);
      hide Inv, Tiled, UsedOk, IsRing, Ring;
      available := available - freeSize;
      UnlinkFree(item, k);
      ClearFree(item);
      used := used[item := true];
      blocks := l[..i] + [a] + l[i + 1..];
    }

    /** The links and the used bits, while the heap is between two states. */
    ghost predicate Threaded()
      reads `next, `prev, `nextFree, `prevFree, `used, `blocks, `free
    {
      Tiled(pool, blocks) && Linked()
    }

    /** `rt_memheap_free`; that a pointer is one to a block in use is what the function asserts. */
    method Free(ptr: Pointer)
      requires Valid() && (ptr.At? ==> LivePointer(blocks, ptr.addr))
      modifies this
      ensures Valid()
      ensures View() == if ptr.Null? then old(View()) else MemHeapModel.Free(old(View()), Index(old(blocks), ptr.addr - HEADER))
    {
      hide Linked, Inv;
      if ptr.Null? {
        return;
      }
      var item: nat := ptr.addr - HEADER;
      ghost var h, i := View(), Index(blocks, item);
      FreeKeeps(pool, h, i);
      StepsReady(i);
      FreeBlockAt(item, i);
    }

    method FreeBlockAt(item0: nat, ghost i: nat)
      requires Threaded() && i < |blocks| && blocks[i].addr == item0 && blocks[i].used && NoDup(free) && item0 !in free
      requires LeftFree(blocks, i) ==> End(blocks[i - 1]) == blocks[i].addr
      requires RightFree(blocks, i) ==> End(blocks[i]) == blocks[i + 1].addr && blocks[i + 1].addr in free
      modifies this
      ensures Threaded() && View() == MemHeapModel.Free(old(View()), i)
    {
      hide Linked, Tiled, NoDup, Marked, Joined, RightFree, LeftFree, Merged, Without;
      var item := item0;
      LeftSteps(blocks, i);
      RightSteps(blocks, i);
      NotFirst(blocks, i);
      MarkUnused(item, i);
      ghost var j := i;
      var insert := true;
      var left := PreviousUnused(item, i);
      if left {
        item := MergeLeft(item, i);
        insert := false;
        j := i - 1;
      }
      var right := NextUnused(item, j);
      if right {
        available := available + HEADER;
        JoinRight(item, j);
      }
      if insert {
        PushBlock(item, j);
      }
    }

    lemma NotFirst(l: seq<Block>, i: nat)
      requires i < |l|
      ensures LeftFree(l, i) ==> i > 0 && !l[i - 1].used
      ensures RightFree(l, i) ==> i + 1 < |l|
    {
    }

    lemma StepsReady(i: nat)
      requires Valid() && i < |blocks| && blocks[i].used
      ensures Threaded() && NoDup(free) && blocks[i].addr !in free
      ensures LeftFree(blocks, i) ==> End(blocks[i - 1]) == blocks[i].addr
      ensures RightFree(blocks, i) ==> End(blocks[i]) == blocks[i + 1].addr && blocks[i + 1].addr in free
    {
      UsedNotFree(pool, View(), i);
      if LeftFree(blocks, i) { assert End(blocks[i - 1]) == blocks[i].addr; }
      if RightFree(blocks, i) { UnusedListed(pool, View(), i + 1); }
    }

    method MarkUnused(item: nat, ghost i: nat)
      requires Threaded() && i < |blocks| && blocks[i].addr == item
      modifies this`used, this`available, this`blocks
      ensures Threaded() && blocks == Marked(old(blocks), i)
      ensures available == old(available) + old(blocks)[i].len
    {
      ghost var l, b := blocks, blocks[i].(used := false);
      UsedAfterChange(pool, l, used, i, b);
      RingAfterRename(pool, l, i, b);
      SpliceOne(pool, l, i, i + 1, b);
      Neighbours(pool, l, next, prev, i);
      hide Tiled, UsedOk, IsRing, Ring;
      used := used[item := false];
      available := available + (next[item] - item - HEADER);
      blocks := l[..i] + [b] + l[i + 1..];
    }

    method PreviousUnused(item: nat, ghost i: nat) returns (b: bool)
      requires Threaded() && i < |blocks| && blocks[i].addr == item
      ensures b <==> LeftFree(blocks, i)
    {
      Neighbours(pool, blocks, next, prev, i);
      b := !used[prev[item]];
    }

    method NextUnused(item: nat, ghost i: nat) returns (b: bool)
      requires Threaded() && i < |blocks| && blocks[i].addr == item
      ensures b <==> RightFree(blocks, i)
    {
      Neighbours(pool, blocks, next, prev, i);
      b := !used[next[item]];
    }

    method MergeLeft(item: nat, ghost i: nat) returns (left: nat)
      requires Threaded() && 0 < i < |blocks| && blocks[i].addr == item && !blocks[i - 1].used
      modifies this`next, this`prev, this`available, this`blocks
      ensures Threaded() && left == old(blocks)[i - 1].addr && available == old(available) + HEADER
      ensures blocks == Joined(old(blocks), i - 1)
    {
      ghost var l := blocks;
      ghost var m := Block(l[i - 1].addr, l[i - 1].len + HEADER + l[i].len, false);
      SaneMerge(l[i - 1], l[i]);
      assert End(l[i - 1]) == l[i].addr;
      SpliceOne(pool, l, i - 1, i + 1, m);
      UsedAfterMerge(pool, l, used, i - 1, i + 1, m);
      RingAfterMerge(pool, l, i - 1, m);
      Neighbours(pool, l, next, prev, i);
      hide Tiled, UsedOk, IsRing;
      available := available + HEADER;
      left := prev[item];
      UnlinkBlock(item, Ring(pool, l), i);
      blocks := l[..i - 1] + [m] + l[i + 1..];
    }

    method JoinRight(item: nat, ghost i: nat)
      requires Threaded() && i + 1 < |blocks| && blocks[i].addr == item && !blocks[i].used
      requires NoDup(free) && blocks[i + 1].addr in free
      modifies this`next, this`prev, this`nextFree, this`prevFree, this`blocks, this`free
      ensures Threaded() && free == Without(old(free), old(blocks)[i + 1].addr)
      ensures forall x :: x in free ==> x in old(free)
      ensures blocks == Joined(old(blocks), i)
    {
      ghost var l := blocks;
      ghost var m := Block(l[i].addr, l[i].len + HEADER + l[i + 1].len, false);
      MergeReady(l, i, m);
      ghost var k := IndexOf(free, l[i + 1].addr);
      WithoutAt(free, k);
      hide Tiled, UsedOk, IsRing, NoDup;
      var right := next[item];
      UnlinkBlock(right, Ring(pool, l), i + 1);
      UnlinkFree(right, k);
      blocks := l[..i] + [m] + l[i + 2..];
    }

    lemma MergeReady(l: seq<Block>, i: nat, m: Block)
      requires Threaded() && l == blocks && i + 1 < |l| && l[i].used == m.used && Sane(l[i]) && Sane(l[i + 1])
      requires m == Block(l[i].addr, l[i].len + HEADER + l[i + 1].len, false)
      ensures Tiled(pool, l[..i] + [m] + l[i + 2..]) && UsedOk(pool, l[..i] + [m] + l[i + 2..], used)
      ensures Ring(pool, l[..i] + [m] + l[i + 2..]) == Ring(pool, l)[..i + 1] + Ring(pool, l)[i + 2..]
      ensures l[i].addr in next && next[l[i].addr] == l[i + 1].addr && Ring(pool, l)[i + 1] == l[i + 1].addr
    {
      SaneMerge(l[i], l[i + 1]);
      assert End(l[i]) == l[i + 1].addr;
      SpliceOne(pool, l, i, i + 2, m);
      UsedAfterMerge(pool, l, used, i, i + 2, m);
      RingAfterMerge(pool, l, i, m);
      Neighbours(pool, l, next, prev, i);
    }

    method PushBlock(item: nat, ghost i: nat)
      requires Threaded() && i < |blocks| && blocks[i].addr == item && item !in free
      modifies this`nextFree, this`prevFree, this`free
      ensures Threaded() && free == [item] + old(free)
    {
      InPool(pool, blocks, i);
      PushFree(item);
    }

    /** `rt_memheap_realloc`.  The bytes of the pool are in `mem`, the one at address `a` with index
        `a - pool.start`.  No free block may follow when the size is one that wraps. */
    method Realloc(ptr: Pointer, size: nat, mem: array<nat>) returns (to: Pointer)
      requires Valid() && size < WORD && mem.Length == pool.size
      requires ptr.At? ==> LivePointer(blocks, ptr.addr) && !(Wraps(size) && RightFree(blocks, Index(blocks, ptr.addr - HEADER)))
      modifies this, mem
      ensures Valid()
      ensures size == 0 ==> to.Null? && mem[..] == old(mem[..])
      ensures size == 0 ==> (View() == if ptr.Null? then old(View()) else MemHeapModel.Free(old(View()), Index(old(blocks), ptr.addr - HEADER)))
      ensures size != 0 && ptr.Null? ==> (View(), to) == MemHeapModel.Alloc(pool, old(View()), Request(size)) && mem[..] == old(mem[..])
      ensures size != 0 && ptr.At? ==>
        var i := Index(old(blocks), ptr.addr - HEADER);
        && (View(), to) == MemHeapModel.Realloc(pool, old(View()), i, size)
        && KeepsBytes(pool, old(mem[..]), mem[..], old(blocks)[i], Request(size), to)
    {
      hide Inv, Linked;
      if size == 0 {
        Free(ptr);
        return Null;
      }
      var n := AlignUp(size);
      if n < MINIALLOC {
        n := MINIALLOC;
      }
      if ptr.Null? {
        to := Alloc(n);
        return;
      }
      var item: nat := ptr.addr - HEADER;
      ghost var h, i := View(), Index(blocks, item);
      ReallocKeeps(pool, h, i, size);
      RequestAligned(size);
      LiveLength(i);
      var oldSize := next[item] - item - HEADER;
      if n > oldSize {
        var grown := GrowInPlace(item, oldSize, n, i);
        if grown {
          return ptr;
        }
        to := Move(item, oldSize, n, i, mem);
      } else {
        if n + HEADER + MINIALLOC < oldSize {
          ShrinkInPlace(item, n, i);
        }
        to := ptr;
      }
    }

    lemma LiveLength(i: nat)
      requires Valid() && i < |blocks|
      ensures Threaded() && blocks[i].addr in next && next[blocks[i].addr] == End(blocks[i])
    {
      Neighbours(pool, blocks, next, prev, i);
    }

    /** The free block that follows is made smaller, when it is large enough. */
    method GrowInPlace(item: nat, oldSize: nat, n: nat, ghost i: nat) returns (grown: bool)
      requires Valid() && i < |blocks| && blocks[i].addr == item && blocks[i].used && oldSize == blocks[i].len < n < WORD
      requires RightFree(blocks, i) ==> n + MINIALLOC < WORD
      modifies this
      ensures grown <==> RightFree(old(blocks), i) && GrowTest(oldSize, old(blocks)[i + 1].len, n)
      ensures Linked() && View() == if grown then Grow(pool, old(View()), i, n) else old(View())
    {
      hide Inv, UsedOk, IsRing, Ring;
      LiveLength(i);
      var nextUnused := NextUnused(item, i);
      if nextUnused {
        LiveLength(i + 1);
        NextBlock(i);
        var nextItem := next[item];
        var nextSize := next[nextItem] - nextItem - HEADER;
        if nextSize + oldSize > (n + MINIALLOC) % WORD {
          SmallMod(n + MINIALLOC);
          GrowIs(pool, View(), i, n);
          available := available - (n - oldSize);
          if pool.size - available > maxUsed {
            maxUsed := pool.size - available;
          }
          MoveBorder(item, nextItem, n, i);
          return true;
        }
      }
      return false;
    }

    lemma NextBlock(i: nat)
      requires Valid() && i + 1 < |blocks|
      ensures End(blocks[i]) == blocks[i + 1].addr && Listed(blocks, free)
    {
    }

    method MoveBorder(item: nat, nextItem: nat, n: nat, ghost i: nat)
      requires Threaded() && Listed(blocks, free) && i + 1 < |blocks| && blocks[i].addr == item && blocks[i].used
      requires blocks[i + 1].addr == nextItem && !blocks[i + 1].used && blocks[i].len < n <= blocks[i].len + blocks[i + 1].len
      requires nextItem < item + HEADER + n < End(blocks[i + 1])
      modifies this`next, this`prev, this`nextFree, this`prevFree, this`used, this`blocks, this`free
      ensures Linked() && free == [item + HEADER + n] + Without(old(free), nextItem)
      ensures var l := old(blocks);
        var cut := Block(item + HEADER + n, l[i].len + l[i + 1].len - n, false);
        blocks == l[..i] + [l[i].(len := n), cut] + l[i + 2..]
    {
      ghost var l := blocks;
      ghost var a, cut := l[i].(len := n), Block(item + HEADER + n, l[i].len + l[i + 1].len - n, false);
      BorderReady(l, i, a, cut);
      ghost var k := IndexOf(free, nextItem);
      WithoutAt(free, k);
      UnlinkFree(nextItem, k);
      UnlinkBlock(nextItem, Ring(pool, l), i + 1);
      var newItem := item + HEADER + n;
      used := used[newItem := false];
      LinkBlock(item, newItem, Ring(pool, l)[..i + 1] + Ring(pool, l)[i + 2..], i);
      PushFree(newItem);
      blocks := l[..i] + [a, cut] + l[i + 2..];
    }

    lemma BorderReady(l: seq<Block>, i: nat, a: Block, cut: Block)
      requires Threaded() && l == blocks && Listed(l, free) && i + 1 < |l| && !l[i + 1].used && !cut.used
      requires a.addr == l[i].addr && a.used == l[i].used && l[i + 1].addr < cut.addr < End(l[i + 1])
      ensures NoDup(free) && l[i + 1].addr in free && cut.addr !in free && cut.addr != header
      ensures Ring(pool, l)[i] == l[i].addr && Ring(pool, l)[i + 1] == l[i + 1].addr && cut.addr !in Ring(pool, l)
      ensures var cutOut := Ring(pool, l)[..i + 1] + Ring(pool, l)[i + 2..];
        && cut.addr !in cutOut
        && Ring(pool, l[..i] + [a, cut] + l[i + 2..]) == cutOut[..i + 1] + [cut.addr] + cutOut[i + 1..]
      ensures UsedOk(pool, l[..i] + [a, cut] + l[i + 2..], used[cut.addr := false])
    {
      assert HasFree(l, l[i + 1].addr);
      InsideNotInRing(pool, l, i + 1, cut.addr);
      FreeInRing(pool, l, cut.addr);
      InPool(pool, l, i + 1);
      UsedAfterBorder(pool, l, used, i, a, cut);
    }

    /** A new block is allocated, the bytes are copied, and the old block is freed. */
    method Move(item: nat, oldSize: nat, n: nat, ghost i: nat, mem: array<nat>) returns (to: Pointer)
      requires Valid() && i < |blocks| && blocks[i].addr == item && blocks[i].used && oldSize == blocks[i].len < n < WORD
      requires n % ALIGN == 0 && n >= MINIALLOC && mem.Length == pool.size
      modifies this, mem
      ensures Valid()
      ensures var (h1, p) := MemHeapModel.Alloc(pool, old(View()), n);
        var j := Index(h1.blocks, item);
        && to == p && View() == (if p.Null? then h1 else if j < |h1.blocks| then MemHeapModel.Free(h1, j) else h1)
      ensures KeepsBytes(pool, old(mem[..]), mem[..], old(blocks)[i], n, to)
    {
      hide Inv, Linked, KeepsBytes, Gained, Resized, MemHeapModel.Alloc, MemHeapModel.Free, LivePointer, AlignUp;
      ghost var h, b := View(), blocks[i];
      SameBytes(pool, mem[..], b, n);
      MoveKeeps(pool, h, i, n);
      AllocKeeps(pool, h, n);
      BlockInPool(pool, h, i);
      to := Alloc(n);
      if to.At? {
        MovedApart(h, View(), b, to.addr, n);
        CopyBytes(to.addr, item + HEADER, oldSize, mem, b, n);
        Free(At(item + HEADER));
      }
    }

    /** The new block and the old one share no byte. */
    lemma MovedApart(h: Heap, h1: Heap, b: Block, to: nat, n: nat)
      requires Inv(pool, h) && Inv(pool, h1) && b in h.blocks && b.used && Gained(h.blocks, h1.blocks, to, Request(n))
      requires b.len < n < WORD && n % ALIGN == 0 && n >= MINIALLOC
      ensures to + n <= b.addr || b.addr + HEADER + b.len <= to - HEADER
      ensures pool.start <= to && to + n <= pool.start + pool.size && pool.start <= b.addr && End(b) <= pool.start + pool.size
      ensures LivePointer(h1.blocks, b.addr + HEADER)
    {
      var c: Block :| c.used && c.addr + HEADER == to && c.len >= Request(n) && c !in Live(h.blocks) && Live(h1.blocks) == Live(h.blocks) + {c};
      assert b in Live(h.blocks) && b in Live(h1.blocks) && c in Live(h1.blocks);
      LiveDisjoint(pool, h1, b, c);
      LiveDisjoint(pool, h1, c, b);
      LiveIndex(pool, h1, b);
      RequestAgain(n);
    }

    /** `rt_memcpy` between two ranges that do not overlap */
    method CopyBytes(to: nat, from: nat, count: nat, mem: array<nat>, ghost b: Block, ghost n: nat)
      requires from == b.addr + HEADER && count == b.len <= n
      requires mem.Length == pool.size && pool.start <= to && pool.start <= from
      requires to + count <= pool.start + pool.size && from + count <= pool.start + pool.size
      requires to + count <= from || from + count <= to
      modifies mem
      ensures KeepsBytes(pool, old(mem[..]), mem[..], b, n, At(to))
    {
      for k := 0 to count
        invariant forall x :: 0 <= x < mem.Length ==>
          mem[x] == if to <= x + pool.start < to + k then old(mem[x + from - to]) else old(mem[x])
      {
        mem[to - pool.start + k] := mem[from - pool.start + k];
      }
    }

    /** What is left over at the end of the block becomes free. */
    method ShrinkInPlace(item: nat, n: nat, ghost i: nat)
      requires Valid() && i < |blocks| && blocks[i].addr == item && blocks[i].used
      requires n % ALIGN == 0 && n >= MINIALLOC && n + HEADER + MINIALLOC < blocks[i].len
      modifies this
      ensures Linked() && View() == Shrink(old(View()), i, n)
    {
      hide Inv, Linked, Tiled, CutOff, Joined, RightFree;
      var newItem := item + n + HEADER;
      ghost var l := blocks;
      CutSteps(l, i, n);
      CutReady(i, n);
      CutBlock(item, newItem, n, i);
      var right := NextUnused(newItem, i + 1);
      if right {
        LiveLengthAt(i + 2);
        var nextItem := NextItem(newItem, i + 1);
        available := available - (next[nextItem] - nextItem - HEADER);
        JoinRight(newItem, i + 1);
      }
      PushBlock(newItem, i + 1);
      LiveLengthAt(i + 1);
      available := available + (next[newItem] - newItem - HEADER);
    }

    lemma LiveLengthAt(i: nat)
      requires Threaded() && i < |blocks|
      ensures blocks[i].addr in next && next[blocks[i].addr] == End(blocks[i])
    {
      Neighbours(pool, blocks, next, prev, i);
    }

    method NextItem(item: nat, ghost i: nat) returns (n: nat)
      requires Threaded() && i + 1 < |blocks| && blocks[i].addr == item
      ensures n == blocks[i + 1].addr
    {
      Neighbours(pool, blocks, next, prev, i);
      n := next[item];
    }

    lemma CutReady(i: nat, n: nat)
      requires Valid() && i < |blocks| && blocks[i].used && n % ALIGN == 0 && n >= MINIALLOC && n + HEADER < blocks[i].len
      ensures Threaded() && NoDup(free) && blocks[i].addr + HEADER + n !in free
      ensures RightFree(blocks, i) ==> i + 1 < |blocks| && blocks[i + 1].addr in free && blocks[i + 1].addr != blocks[i].addr + HEADER + n
    {
      InsideNotFree(pool, View(), i, blocks[i].addr + HEADER + n);
      if RightFree(blocks, i) {
        UnusedListed(pool, View(), i + 1);
        DifferentBlocks(pool, blocks, i, i + 1);
      }
    }

    /** The new header is written and linked in after the block. */
    method CutBlock(item: nat, newItem: nat, n: nat, ghost i: nat)
      requires Threaded() && i < |blocks| && blocks[i].addr == item && blocks[i].used && newItem == item + n + HEADER
      requires n % ALIGN == 0 && n >= MINIALLOC && n + HEADER < blocks[i].len
      modifies this`next, this`prev, this`used, this`blocks
      ensures Threaded() && blocks == Cut(old(blocks), i, n)
    {
      ghost var l := blocks;
      ghost var a, c := l[i].(len := n), Block(newItem, l[i].len - n - HEADER, false);
      AlignedDifference(l[i].len, n);
      SpliceTiles(pool, l, i, i + 1, [a, c]);
      UsedAfterSplit(pool, l, used, i, a, c);
      assert used[newItem := false][item := true] == used[newItem := false];
      RingAfterSplit(pool, l, i, a, c);
      InsideNotInRing(pool, l, i, newItem);
      hide Tiled, UsedOk, IsRing;
      used := used[newItem := false];
      LinkBlock(item, newItem, Ring(pool, l), i);
      blocks := l[..i] + [a, c] + l[i + 1..];
    }
  }
}
