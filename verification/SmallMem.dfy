/** The small memory allocator of `mem.c`: a chain of blocks in address order, searched first-fit
    from a hint to the lowest free block. */
module SmallMemModel {
  import opened Words

  /** The size of a block header on a 32-bit machine, and `MIN_SIZE_ALIGNED`. */
  const HEADER: nat := 12
  const MIN_SIZE: nat := 12

  datatype Node = Node(off: nat, used: bool)

  /** The chain of blocks by offset, without the block that ends the heap. */
  datatype Heap = Heap(nodes: seq<Node>, lfree: nat, usedMem: int, maxMem: int)

  datatype Pointer = Null | At(off: nat)

  /** `size`: `mem_size_aligned`; the offset of `heap_end`. */
  function End(size: nat): nat { size + HEADER }

  function NextOff(size: nat, l: seq<Node>, i: nat): nat
    requires i < |l|
  {
    if i + 1 < |l| then l[i + 1].off else End(size)
  }

  /** The bytes of block `i` after its header. */
  function Room(size: nat, l: seq<Node>, i: nat): int
    requires i < |l|
  {
    NextOff(size, l, i) - l[i].off - HEADER
  }

  // ----- the invariant -----

  /** No block is empty, but the one block of an empty heap. */
  predicate RoomOk(size: nat, room: int) { room >= 0 && (size > 0 ==> room > 0) }

  /** The blocks tile the heap. */
  ghost predicate Tiled(size: nat, l: seq<Node>) {
    && |l| > 0 && l[0].off == 0
    && (forall i :: 0 <= i < |l| ==> RoomOk(size, Room(size, l, i)) && l[i].off % ALIGN == 0)
  }

  ghost predicate NoFreePair(l: seq<Node>) {
    forall i :: 0 <= i < |l| - 1 ==> l[i].used || l[i + 1].used
  }

  function UsedSum(size: nat, l: seq<Node>): int {
    if l == [] then 0 else (if l[0].used then Room(size, l, 0) + HEADER else 0) + UsedSum(size, l[1..])
  }

  ghost predicate FreeAt(l: seq<Node>, off: nat) { exists i :: 0 <= i < |l| && l[i].off == off && !l[i].used }

  /** The heap; one too small for a block stays as it was set up. */
  ghost predicate Inv(size: nat, h: Heap) {
    && size < WORD - 2 * HEADER && size % ALIGN == 0
    && (size < MIN_SIZE ==> |h.nodes| == 1 && !h.nodes[0].used && h.lfree == 0)
    && Tiled(size, h.nodes) && NoFreePair(h.nodes)
    && (h.lfree == End(size) || FreeAt(h.nodes, h.lfree))
    && h.usedMem == UsedSum(size, h.nodes) <= h.maxMem
  }

  /** No block below the hint is free. */
  ghost predicate Low(h: Heap) {
    forall i :: 0 <= i < |h.nodes| && !h.nodes[i].used ==> h.nodes[i].off >= h.lfree
  }

  lemma {:induction false} Ordered(size: nat, l: seq<Node>, i: nat, j: nat)
    requires Tiled(size, l) && i < j < |l|
    ensures NextOff(size, l, i) <= l[j].off && l[i].off + HEADER <= l[j].off
    decreases j - i
  {
    assert Room(size, l, i) >= 0;
    if i + 1 < j {
      assert Room(size, l, i + 1) >= 0;
      Ordered(size, l, i + 1, j);
    }
  }

  lemma InHeap(size: nat, l: seq<Node>, i: nat)
    requires Tiled(size, l) && i < |l|
    ensures l[i].off + HEADER <= NextOff(size, l, i) <= End(size)
  {
    assert Room(size, l, |l| - 1) >= 0;
    if i + 1 < |l| - 1 { Ordered(size, l, i + 1, |l| - 1); }
    if i < |l| - 1 { Ordered(size, l, i, |l| - 1); }
  }

  function Index(l: seq<Node>, off: nat): (i: nat)
    ensures i <= |l| && (i < |l| ==> l[i].off == off)
    ensures i == |l| ==> forall k :: 0 <= k < |l| ==> l[k].off != off
  {
    if l == [] || l[0].off == off then 0 else 1 + Index(l[1..], off)
  }

  lemma IndexIs(size: nat, l: seq<Node>, i: nat)
    requires Tiled(size, l) && i < |l|
    ensures Index(l, l[i].off) == i
  {
    var k := Index(l, l[i].off);
    if k < i { Ordered(size, l, k, i); }
    if i < k < |l| { Ordered(size, l, i, k); }
  }

  // ----- the operations -----

  function Max(a: int, b: int): int { if a > b then a else b }

  predicate Fits(size: nat, l: seq<Node>, i: nat, n: nat)
    requires i < |l|
  {
    !l[i].used && Room(size, l, i) >= n
  }

  /** The search from block `i` on; it ends at the first block that starts too near the end. */
  function Search(size: nat, l: seq<Node>, i: nat, n: nat): (r: nat)
    requires i <= |l|
    ensures i <= r <= |l|
    ensures r < |l| ==> Fits(size, l, r, n) && l[r].off < size - n
    decreases |l| - i
  {
    if i == |l| || l[i].off >= size - n then |l|
    else if Fits(size, l, i, n) then i
    else Search(size, l, i + 1, n)
  }

  /** The lowest free block from block `i` on, or the end. */
  function FirstFree(size: nat, l: seq<Node>, i: nat): nat
    requires i <= |l|
    decreases |l| - i
  {
    if i == |l| then End(size) else if !l[i].used then l[i].off else FirstFree(size, l, i + 1)
  }

  predicate Splits(size: nat, l: seq<Node>, i: nat, n: nat)
    requires i < |l|
  {
    Room(size, l, i) >= n + HEADER + MIN_SIZE
  }

  function TakenNodes(size: nat, l: seq<Node>, i: nat, n: nat): (r: seq<Node>)
    requires i < |l|
    ensures |r| >= |l|
  {
    if Splits(size, l, i, n) then l[..i] + [l[i].(used := true), Node(l[i].off + HEADER + n, false)] + l[i + 1..]
    else l[i := l[i].(used := true)]
  }

  function Take(size: nat, h: Heap, i: nat, n: nat): Heap
    requires i < |h.nodes|
  {
    var l := TakenNodes(size, h.nodes, i, n);
    var usedMem := h.usedMem + if Splits(size, h.nodes, i, n) then n + HEADER else Room(size, h.nodes, i) + HEADER;
    Heap(l, if h.nodes[i].off == h.lfree then FirstFree(size, l, i) else h.lfree, usedMem, Max(h.maxMem, usedMem))
  }

  function Malloc(size: nat, h: Heap, request: nat): (Heap, Pointer) {
    var s := AlignUp(request);
    if request == 0 || s > size then (h, Null)
    else
      var n := if s < MIN_SIZE then MIN_SIZE else s;
      var i := Search(size, h.nodes, Index(h.nodes, h.lfree), n);
      if i == |h.nodes| then (h, Null) else (Take(size, h, i, n), At(h.nodes[i].off + HEADER))
  }

  /** `plug_holes` forward and backward, on free block `i`. */
  function PlugForward(h: Heap, i: nat): Heap
    requires i < |h.nodes|
  {
    if i + 1 < |h.nodes| && !h.nodes[i + 1].used
    then h.(nodes := h.nodes[..i + 1] + h.nodes[i + 2..], lfree := if h.lfree == h.nodes[i + 1].off then h.nodes[i].off else h.lfree)
    else h
  }

  function PlugBackward(h: Heap, i: nat): Heap
    requires i < |h.nodes|
  {
    if i > 0 && !h.nodes[i - 1].used
    then h.(nodes := h.nodes[..i] + h.nodes[i + 1..], lfree := if h.lfree == h.nodes[i].off then h.nodes[i - 1].off else h.lfree)
    else h
  }

  function Plug(h: Heap, i: nat): Heap
    requires i < |h.nodes|
  {
    PlugBackward(PlugForward(h, i), i)
  }

  /** Block `i` marked unused. */
  function Unmark(size: nat, h: Heap, i: nat): Heap
    requires i < |h.nodes|
  {
    var off := h.nodes[i].off;
    h.(nodes := h.nodes[i := Node(off, false)], lfree := if off < h.lfree then off else h.lfree,
       usedMem := h.usedMem - (Room(size, h.nodes, i) + HEADER))
  }

  function Free(size: nat, h: Heap, i: nat): Heap
    requires i < |h.nodes|
  {
    Plug(Unmark(size, h, i), i)
  }

  predicate Shrinks(size: nat, l: seq<Node>, i: nat, n: nat)
    requires i < |l|
  {
    n + HEADER + MIN_SIZE < Room(size, l, i)
  }

  /** Block `i` cut down to `n` bytes; the hint is not lowered. */
  function Cut(size: nat, h: Heap, i: nat, n: nat): Heap
    requires i < |h.nodes|
  {
    h.(nodes := h.nodes[..i + 1] + [Node(h.nodes[i].off + HEADER + n, false)] + h.nodes[i + 1..],
       usedMem := h.usedMem - (Room(size, h.nodes, i) - n))
  }

  /** `rt_realloc` of used block `i` */
  function Realloc(size: nat, h: Heap, i: nat, request: nat): (Heap, Pointer)
    requires i < |h.nodes|
  {
    var n, off := AlignUp(request), h.nodes[i].off;
    if n > size then (h, Null)
    else if n == 0 then (Free(size, h, i), Null)
    else if Room(size, h.nodes, i) == n then (h, At(off + HEADER))
    else if Shrinks(size, h.nodes, i, n) then (Plug(Cut(size, h, i, n), i + 1), At(off + HEADER))
    else
      var (h1, to) := Malloc(size, h, n);
      var j := Index(h1.nodes, off);
      if to.Null? || j == |h1.nodes| then (h1, to) else (Free(size, h1, j), to)
  }

  // ----- inserting and removing a block -----

  lemma CutAligned(size: nat, l: seq<Node>, i: nat, n: nat)
    requires Tiled(size, l) && i < |l| && n % ALIGN == 0
    ensures (l[i].off + HEADER + n) % ALIGN == 0
  {
    hide Room, RoomOk;
    AlignedSum(l[i].off, n);
  }

  lemma AlignedSum(a: nat, n: nat)
    requires a % ALIGN == 0 && n % ALIGN == 0
    ensures (a + HEADER + n) % ALIGN == 0
  {
    FourTimes(a + HEADER + n, a / 4 + 3 + n / 4);
  }

  lemma FourTimes(x: nat, k: nat)
    requires x == 4 * k
    ensures x % ALIGN == 0
  {
  }

  lemma InsertTiles(size: nat, l: seq<Node>, i: nat, u: bool, off: nat)
    requires Tiled(size, l) && i < |l| && l[i].off + HEADER < off && off + HEADER < NextOff(size, l, i) && off % ALIGN == 0
    ensures var r := l[..i] + [Node(l[i].off, u), Node(off, false)] + l[i + 1..]; Tiled(size, r)
  {
    var r := l[..i] + [Node(l[i].off, u), Node(off, false)] + l[i + 1..];
    forall k | 0 <= k < |r| ensures RoomOk(size, Room(size, r, k)) && r[k].off % ALIGN == 0 {
      if k < i {
        assert Room(size, l, k) >= 0 && r[k] == l[k];
      } else if k > i + 1 {
        assert Room(size, l, k - 1) >= 0 && r[k] == l[k - 1];
      } else {
        assert Room(size, l, i) >= 0;
      }
    }
  }

  lemma MarkTiles(size: nat, l: seq<Node>, i: nat, u: bool)
    requires Tiled(size, l) && i < |l|
    ensures Tiled(size, l[i := Node(l[i].off, u)])
  {
    var r := l[i := Node(l[i].off, u)];
    forall k | 0 <= k < |r| ensures RoomOk(size, Room(size, r, k)) && r[k].off % ALIGN == 0 { assert Room(size, l, k) >= 0; }
  }

  lemma RemoveTiles(size: nat, l: seq<Node>, i: nat)
    requires Tiled(size, l) && 0 < i < |l|
    ensures Tiled(size, l[..i] + l[i + 1..])
    ensures Room(size, l[..i] + l[i + 1..], i - 1) == Room(size, l, i - 1) + HEADER + Room(size, l, i)
  {
    var r := l[..i] + l[i + 1..];
    forall k | 0 <= k < |r| ensures RoomOk(size, Room(size, r, k)) && r[k].off % ALIGN == 0 {
      assert Room(size, l, i - 1) >= 0 && Room(size, l, i) >= 0;
      if k < i - 1 {
        assert Room(size, l, k) >= 0 && r[k] == l[k];
      } else if k >= i {
        assert Room(size, l, k + 1) >= 0 && r[k] == l[k + 1];
      }
    }
  }

  /** The sum over a chain, cut at a block. */
  lemma {:induction false} SumConcat(size: nat, a: seq<Node>, b: seq<Node>, c: seq<Node>)
    requires |b| > 0 && |c| > 0 && b[0].off == c[0].off
    ensures UsedSum(size, a + b) - UsedSum(size, b) == UsedSum(size, a + c) - UsedSum(size, c)
  {
    if a != [] {
      assert (a + b)[1..] == a[1..] + b && (a + c)[1..] == a[1..] + c;
      SumConcat(size, a[1..], b, c);
      assert Room(size, a + b, 0) == Room(size, a + c, 0);
    } else {
      assert a + b == b && a + c == c;
    }
  }

  lemma InsertSum(size: nat, l: seq<Node>, i: nat, u: bool, off: nat)
    requires i < |l|
    ensures var r := l[..i] + [Node(l[i].off, u), Node(off, false)] + l[i + 1..];
      UsedSum(size, r) == UsedSum(size, l) - (if l[i].used then Room(size, l, i) + HEADER else 0) + if u then off - l[i].off else 0
  {
    var b, c := l[i..], [Node(l[i].off, u), Node(off, false)] + l[i + 1..];
    SumConcat(size, l[..i], b, c);
    assert l[..i] + b == l && l[..i] + c == l[..i] + [Node(l[i].off, u), Node(off, false)] + l[i + 1..];
    assert b[1..] == l[i + 1..] && c[1..][1..] == l[i + 1..];
    assert Room(size, b, 0) == Room(size, l, i);
    assert UsedSum(size, c) == (if u then off - l[i].off else 0) + UsedSum(size, c[1..]);
  }

  lemma MarkSum(size: nat, l: seq<Node>, i: nat, u: bool)
    requires i < |l|
    ensures UsedSum(size, l[i := Node(l[i].off, u)])
         == UsedSum(size, l) + (if u then Room(size, l, i) + HEADER else 0) - if l[i].used then Room(size, l, i) + HEADER else 0
  {
    var b, c := l[i..], [Node(l[i].off, u)] + l[i + 1..];
    SumConcat(size, l[..i], b, c);
    assert l[..i] + b == l && l[..i] + c == l[i := Node(l[i].off, u)];
    assert b[1..] == l[i + 1..] && c[1..] == l[i + 1..];
    assert Room(size, b, 0) == Room(size, l, i) == Room(size, c, 0);
  }

  /** Taking out a free block whose predecessor is free. */
  lemma RemoveSum(size: nat, l: seq<Node>, i: nat)
    requires 0 < i < |l| && !l[i - 1].used && !l[i].used
    ensures UsedSum(size, l[..i] + l[i + 1..]) == UsedSum(size, l)
  {
    var b, c := l[i - 1..], [l[i - 1]] + l[i + 1..];
    SumConcat(size, l[..i - 1], b, c);
    assert l[..i - 1] + b == l && l[..i - 1] + c == l[..i] + l[i + 1..];
    assert b[1..] == l[i..] && b[1..][1..] == l[i + 1..] && c[1..] == l[i + 1..];
    assert UsedSum(size, b) == UsedSum(size, b[1..]) == UsedSum(size, b[1..][1..]);
  }

  // ----- what the operations keep -----

  lemma {:induction false} FirstFreeIs(size: nat, l: seq<Node>, i: nat)
    requires Tiled(size, l) && i <= |l|
    ensures var f := FirstFree(size, l, i);
      && (f == End(size) || FreeAt(l, f))
      && (forall k :: i <= k < |l| && !l[k].used ==> l[k].off >= f)
      && (forall k :: 0 <= k < i ==> l[k].off < f)
    decreases |l| - i
  {
    if i < |l| && l[i].used { FirstFreeIs(size, l, i + 1); }
    forall k | i < k < |l| ensures l[k].off > l[i].off { Ordered(size, l, i, k); }
    forall k | 0 <= k < i ensures l[k].off < FirstFree(size, l, i) {
      InHeap(size, l, k);
      if i < |l| { Ordered(size, l, k, i); }
    }
  }

  lemma TakenTiles(size: nat, l: seq<Node>, i: nat, n: nat)
    requires Tiled(size, l) && i < |l| && !l[i].used && n > 0 && n % ALIGN == 0
    ensures Tiled(size, TakenNodes(size, l, i, n))
    ensures UsedSum(size, TakenNodes(size, l, i, n))
         == UsedSum(size, l) + if Splits(size, l, i, n) then n + HEADER else Room(size, l, i) + HEADER
  {
    hide Tiled, UsedSum;
    CutAligned(size, l, i, n);
    if Splits(size, l, i, n) {
      InsertTiles(size, l, i, true, l[i].off + HEADER + n);
      InsertSum(size, l, i, true, l[i].off + HEADER + n);
    } else {
      MarkTiles(size, l, i, true);
      MarkSum(size, l, i, true);
    }
  }

  lemma TakenPairs(size: nat, l: seq<Node>, i: nat, n: nat)
    requires NoFreePair(l) && i < |l| && !l[i].used
    ensures NoFreePair(TakenNodes(size, l, i, n))
  {
    var r := TakenNodes(size, l, i, n);
    forall k | 0 <= k < |r| - 1 ensures r[k].used || r[k + 1].used {
      if k + 1 < i { assert l[k].used || l[k + 1].used; }
      if i + 1 < |l| { assert l[i].used || l[i + 1].used; }
      if Splits(size, l, i, n) {
        if k > i + 1 { assert r[k] == l[k - 1] && (l[k - 1].used || l[k].used); }
      } else {
        if k > i { assert l[k].used || l[k + 1].used; }
      }
    }
  }

  lemma TakenIs(size: nat, l: seq<Node>, i: nat, n: nat)
    requires i < |l|
    ensures var r := TakenNodes(size, l, i, n);
      && r[i] == Node(l[i].off, true)
      && (Splits(size, l, i, n) ==> |r| == |l| + 1 && r[i + 1] == Node(l[i].off + HEADER + n, false))
      && (!Splits(size, l, i, n) ==> |r| == |l|)
      && (forall k {:trigger r[k]} :: 0 <= k < i ==> r[k] == l[k])
      && (forall k {:trigger r[k]} :: i + (|r| - |l|) < k < |r| ==> r[k] == l[k - (|r| - |l|)])
  {
    hide Splits;
    var r := TakenNodes(size, l, i, n);
    if Splits(size, l, i, n) { assert |r| == |l| + 1 && r[i + 1] == Node(l[i].off + HEADER + n, false); }
  }

  /** Which blocks are free afterwards. */
  lemma TakenFree(size: nat, l: seq<Node>, i: nat, n: nat, off: nat)
    requires Tiled(size, l) && i < |l| && !l[i].used
    ensures FreeAt(l, off) && off != l[i].off ==> FreeAt(TakenNodes(size, l, i, n), off)
    ensures FreeAt(TakenNodes(size, l, i, n), off) ==> off > l[i].off || FreeAt(l, off)
  {
    hide TakenNodes, Splits, Tiled;
    TakenIs(size, l, i, n);
    var r := TakenNodes(size, l, i, n);
    if FreeAt(l, off) && off != l[i].off {
      var k :| 0 <= k < |l| && l[k].off == off && !l[k].used;
      assert r[if k > i then k + (|r| - |l|) else k] == l[k];
    }
    if FreeAt(r, off) {
      var k :| 0 <= k < |r| && r[k].off == off && !r[k].used;
      if k < i {
        assert l[k] == r[k];
      } else if k > i + (|r| - |l|) {
        assert l[k - (|r| - |l|)] == r[k];
      }
    }
  }

  lemma TakeKeeps(size: nat, h: Heap, i: nat, n: nat)
    requires Inv(size, h) && i < |h.nodes| && Fits(size, h.nodes, i, n) && n >= MIN_SIZE && n % ALIGN == 0 && h.lfree <= h.nodes[i].off
    ensures Inv(size, Take(size, h, i, n))
    ensures Low(h) ==> Low(Take(size, h, i, n))
  {
    hide NoFreePair, FreeAt, UsedSum, Splits;
    var l, r, t := h.nodes, TakenNodes(size, h.nodes, i, n), Take(size, h, i, n);
    TakenTiles(size, l, i, n);
    TakenPairs(size, l, i, n);
    TakenFree(size, l, i, n, h.lfree);
    FirstFreeIs(size, r, i);
    EndApart(size, l, i);
    InHeap(size, l, i);
    if Low(h) {
      forall k | 0 <= k < |r| && !r[k].used ensures r[k].off >= t.lfree { TakenLow(size, h, i, n, k); }
    }
  }

  lemma EndApart(size: nat, l: seq<Node>, i: nat)
    requires Tiled(size, l) && i < |l|
    ensures l[i].off < End(size)
  {
    InHeap(size, l, i);
  }

  lemma TakenLow(size: nat, h: Heap, i: nat, n: nat, k: nat)
    requires Inv(size, h) && Low(h) && i < |h.nodes| && !h.nodes[i].used && n > 0 && n % ALIGN == 0 && h.lfree <= h.nodes[i].off
    requires var r := TakenNodes(size, h.nodes, i, n); k < |r| && !r[k].used
    ensures TakenNodes(size, h.nodes, i, n)[k].off >= Take(size, h, i, n).lfree
  {
    hide TakenNodes, Splits, UsedSum, FreeAt, NoFreePair, FirstFree, Tiled, Room;
    var l, r := h.nodes, TakenNodes(size, h.nodes, i, n);
    TakenTiles(size, l, i, n);
    TakenIs(size, l, i, n);
    if h.lfree == l[i].off {
      FirstFreeIs(size, r, i);
      if k < i {
        assert r[k] == l[k];
        Ordered(size, l, k, i);
      }
    } else if k < i {
      assert r[k] == l[k];
    } else if k > i + (|r| - |l|) {
      assert r[k] == l[k - (|r| - |l|)];
    }
  }

  /** The search starts at the hint. */
  lemma {:induction false} SearchIs(size: nat, l: seq<Node>, i: nat, n: nat)
    requires Tiled(size, l) && i <= |l|
    ensures var r := Search(size, l, i, n);
      forall k :: i <= k < r ==> !(Fits(size, l, k, n) && l[k].off < size - n)
    decreases |l| - i
  {
    if i < |l| {
      if l[i].off >= size - n {
        forall k | i < k < |l| ensures l[k].off >= size - n { Ordered(size, l, i, k); }
      } else if !Fits(size, l, i, n) {
        SearchIs(size, l, i + 1, n);
      }
    }
  }

  lemma HintIndex(size: nat, h: Heap)
    requires Inv(size, h)
    ensures var i := Index(h.nodes, h.lfree);
      && (i < |h.nodes| <==> h.lfree != End(size))
      && (forall k :: 0 <= k < |h.nodes| ==> (k >= i <==> h.nodes[k].off >= h.lfree))
  {
    var l, i := h.nodes, Index(h.nodes, h.lfree);
    forall k | 0 <= k < |l| ensures k >= i <==> l[k].off >= h.lfree {
      EndApart(size, l, k);
      if i < |l| {
        if k < i { Ordered(size, l, k, i); }
        if i < k { Ordered(size, l, i, k); }
      }
    }
    if i < |l| { EndApart(size, l, i); }
  }

  lemma RequestAligned(request: nat)
    ensures AlignUp(request) % ALIGN == 0
  {
  }

  lemma MallocKeeps(size: nat, h: Heap, request: nat)
    requires Inv(size, h)
    ensures var (r, to) := Malloc(size, h, request);
      && Inv(size, r) && (Low(h) ==> Low(r)) && (to.Null? ==> r == h)
  {
    hide Inv, Low, Take;
    var s := AlignUp(request);
    RequestAligned(request);
    HintIndex(size, h);
    var n := if s < MIN_SIZE then MIN_SIZE else s;
    var i := Search(size, h.nodes, Index(h.nodes, h.lfree), n);
    if i < |h.nodes| { TakeKeeps(size, h, i, n); }
  }

  /** With no free block below the hint, allocation fails exactly when nothing is asked for, more
      than the heap is asked for, or no free block is both large enough and starts below the heap
      size less the request. */
  lemma MallocFails(size: nat, h: Heap, request: nat)
    requires Inv(size, h) && Low(h)
    ensures var s := AlignUp(request); var n := if s < MIN_SIZE then MIN_SIZE else s;
      Malloc(size, h, request).1.Null? <==>
        request == 0 || s > size || forall k :: 0 <= k < |h.nodes| ==> !(Fits(size, h.nodes, k, n) && h.nodes[k].off < size - n)
  {
    var s, l := AlignUp(request), h.nodes;
    var n := if s < MIN_SIZE then MIN_SIZE else s;
    HintIndex(size, h);
    SearchIs(size, l, Index(l, h.lfree), n);
  }

  /** A block is at least as long as was asked for, except for the last three requests below the
      end of the 32-bit range. */
  lemma MallocCovers(size: nat, h: Heap, request: nat)
    requires Inv(size, h) && 0 < request < WORD && Malloc(size, h, request).1.At?
    ensures var (r, to) := Malloc(size, h, request); var i := Index(r.nodes, to.off - HEADER);
      && to.off >= HEADER && i < |r.nodes| && r.nodes[i].used
      && (Room(size, r.nodes, i) >= request <==> request + ALIGN - 1 < WORD)
  {
    var s := AlignUp(request);
    AlignUpIs(request);
    var n := if s < MIN_SIZE then MIN_SIZE else s;
    HintIndex(size, h);
    var i := Search(size, h.nodes, Index(h.nodes, h.lfree), n);
    TakenTiles(size, h.nodes, i, n);
    IndexIs(size, TakenNodes(size, h.nodes, i, n), i);
    InHeap(size, TakenNodes(size, h.nodes, i, n), i);
  }

  // ----- does the search end? -----

  /** Unsigned subtraction, as in the bound of the search. */
  function Minus(a: nat, b: nat): nat { (a - b) % WORD }

  datatype Found = Hit(i: nat) | Missed | Searching

  /** At most `n` rounds of the loop of `rt_malloc` from block `i` on, for `room` bytes.  Block `|l|` is the
      one that ends the heap, which is used and links to itself. */
  function Loop(size: nat, l: seq<Node>, i: nat, room: nat, n: nat): Found
    requires i <= |l|
    decreases n
  {
    if (if i < |l| then l[i].off else End(size)) >= Minus(size, room) then Missed
    else if i < |l| && Fits(size, l, i, room) then Hit(i)
    else if n == 0 then Searching
    else Loop(size, l, if i < |l| then i + 1 else i, room, n - 1)
  }

  /** The length that is searched for */
  function Wanted(request: nat): nat { if AlignUp(request) < MIN_SIZE then MIN_SIZE else AlignUp(request) }

  /** `rt_malloc` returns: it does not search, or its search ends. */
  ghost predicate Ends(size: nat, h: Heap, request: nat)
    requires Index(h.nodes, h.lfree) <= |h.nodes|
  {
    request == 0 || AlignUp(request) > size || exists n: nat :: !Loop(size, h.nodes, Index(h.nodes, h.lfree), Wanted(request), n).Searching?
  }

  /** The search wraps past the end of a heap that is smaller than a smallest block. */
  predicate Spins(size: nat, request: nat) { request != 0 && AlignUp(request) <= size < MIN_SIZE }

  /** Where there is room for a smallest block the loop is the search of the model. */
  lemma {:induction false} LoopIsSearch(size: nat, l: seq<Node>, i: nat, room: nat, n: nat)
    requires Tiled(size, l) && i <= |l| && room <= size < WORD && n >= |l| - i
    ensures Loop(size, l, i, room, n) == var k := Search(size, l, i, room); if k < |l| then Hit(k) else Missed
    decreases |l| - i
  {
    hide Tiled, Room;
    assert Minus(size, room) == size - room;
    if i < |l| && l[i].off < size - room && !Fits(size, l, i, room) { LoopIsSearch(size, l, i + 1, room, n - 1); }
  }

  lemma {:induction false} EndSpins(size: nat, l: seq<Node>, n: nat)
    requires size < MIN_SIZE
    ensures Loop(size, l, |l|, MIN_SIZE, n) == Searching
    decreases n
  {
    assert Minus(size, MIN_SIZE) == WORD + size - MIN_SIZE;
    if n > 0 { EndSpins(size, l, n - 1); }
  }

  /** `rt_malloc` returns if and only if nothing is asked for, too much is, or the heap has room for a
      smallest block. */
  lemma MallocEnds(size: nat, h: Heap, request: nat)
    requires Inv(size, h)
    ensures Ends(size, h, request) <==> !Spins(size, request)
  {
    hide UsedSum, NoFreePair, FreeAt, AlignUp;
    HintIndex(size, h);
    var k, room := Index(h.nodes, h.lfree), Wanted(request);
    if Spins(size, request) {
      assert h.nodes[0].off == 0 && k == 0 && room == MIN_SIZE;
      assert Minus(size, MIN_SIZE) == WORD + size - MIN_SIZE;
      forall n: nat ensures Loop(size, h.nodes, k, room, n) == Searching {
        if n > 0 { EndSpins(size, h.nodes, n - 1); }
      }
    } else if request != 0 && AlignUp(request) <= size {
      LoopIsSearch(size, h.nodes, k, room, |h.nodes|);
    }
  }

  /** What the search finds, when there is one that ends, is what the model says. */
  lemma MallocSearches(size: nat, h: Heap, request: nat)
    requires Inv(size, h) && !Spins(size, request) && request != 0 && AlignUp(request) <= size
    ensures var f := Loop(size, h.nodes, Index(h.nodes, h.lfree), Wanted(request), |h.nodes|);
      && !f.Searching? && (f.Missed? <==> Malloc(size, h, request).1.Null?)
      && (f.Hit? ==> f.i < |h.nodes| && Malloc(size, h, request).1 == At(h.nodes[f.i].off + HEADER))
  {
    hide UsedSum, NoFreePair, FreeAt, AlignUp, Take;
    HintIndex(size, h);
    LoopIsSearch(size, h.nodes, Index(h.nodes, h.lfree), Wanted(request), |h.nodes|);
  }

  /** A heap of eight bytes is accepted, and the first request for four does not return. */
  lemma TinyHeapSpins(n: nat)
    ensures Inv(8, Init(8)) && Spins(8, 4) && Loop(8, Init(8).nodes, 0, Wanted(4), n) == Searching
  {
    InitOk(8);
    assert AlignUp(4) == 4 && Minus(8, 12) == WORD - 4;
    if n > 0 { EndSpins(8, Init(8).nodes, n - 1); }
  }

  // ----- freeing -----

  /** The pairs that plugging holes has still to look at. */
  ghost predicate PairsOutside(l: seq<Node>, lo: int, hi: int) {
    forall k :: 0 <= k < |l| - 1 && !(lo <= k < hi) ==> l[k].used || l[k + 1].used
  }

  ghost predicate Loose(size: nat, h: Heap, lo: int, hi: int) {
    && MIN_SIZE <= size < WORD - 2 * HEADER && size % ALIGN == 0
    && Tiled(size, h.nodes) && PairsOutside(h.nodes, lo, hi)
    && (h.lfree == End(size) || FreeAt(h.nodes, h.lfree))
    && h.usedMem == UsedSum(size, h.nodes) <= h.maxMem
  }

  lemma RemovedFree(l: seq<Node>, i: nat, off: nat)
    requires 0 < i < |l|
    ensures FreeAt(l, off) && off != l[i].off ==> FreeAt(l[..i] + l[i + 1..], off)
  {
    if FreeAt(l, off) && off != l[i].off {
      var k :| 0 <= k < |l| && l[k].off == off && !l[k].used;
      var r := l[..i] + l[i + 1..];
      assert r[if k < i then k else k - 1] == l[k];
    }
  }

  lemma AtFree(l: seq<Node>, i: nat)
    requires i < |l| && !l[i].used
    ensures FreeAt(l, l[i].off)
  {
  }

  lemma RemovedPairs(l: seq<Node>, i: nat, lo: int)
    requires 0 < i < |l| && !l[i - 1].used && !l[i].used && PairsOutside(l, lo, i) && lo <= i - 1
    ensures PairsOutside(l[..i] + l[i + 1..], lo, i - 1)
  {
    var r := l[..i] + l[i + 1..];
    forall k | 0 <= k < |r| - 1 && !(lo <= k < i - 1) ensures r[k].used || r[k + 1].used {
      if k < i - 1 {
        assert l[k].used || l[k + 1].used;
      } else {
        assert r[k + 1] == l[k + 2] && (l[k + 1].used || l[k + 2].used);
      }
    }
  }

  lemma ForwardKeeps(size: nat, h: Heap, i: nat)
    requires i < |h.nodes| && !h.nodes[i].used && Loose(size, h, i - 1, i + 1)
    ensures var r := PlugForward(h, i);
      i < |r.nodes| && r.nodes[i] == h.nodes[i] && (i > 0 ==> r.nodes[i - 1] == h.nodes[i - 1]) && Loose(size, r, i - 1, i)
  {
    hide UsedSum, FreeAt, Tiled;
    var l := h.nodes;
    if i + 1 < |l| && !l[i + 1].used {
      RemoveTiles(size, l, i + 1);
      RemoveSum(size, l, i + 1);
      RemovedFree(l, i + 1, h.lfree);
      AtFree(l, i);
      Ordered(size, l, i, i + 1);
      RemovedFree(l, i + 1, l[i].off);
      RemovedPairs(l, i + 1, i - 1);
      var r := l[..i + 1] + l[i + 2..];
      assert r[i] == l[i];
    } else {
      assert PairsOutside(l, i - 1, i);
    }
  }

  lemma BackwardKeeps(size: nat, h: Heap, i: nat)
    requires i < |h.nodes| && !h.nodes[i].used && Loose(size, h, i - 1, i)
    ensures Inv(size, PlugBackward(h, i))
  {
    hide UsedSum, FreeAt, Tiled;
    var l := h.nodes;
    if i > 0 && !l[i - 1].used {
      RemoveTiles(size, l, i);
      RemoveSum(size, l, i);
      RemovedFree(l, i, h.lfree);
      AtFree(l, i - 1);
      Ordered(size, l, i - 1, i);
      RemovedFree(l, i, l[i - 1].off);
      RemovedPairs(l, i, i - 1);
      var r := l[..i] + l[i + 1..];
      assert r[i - 1] == l[i - 1];
      assert NoFreePair(r);
    } else {
      assert NoFreePair(l);
    }
  }

  /** Plugging holes around a free block that may have free neighbours. */
  lemma PlugKeeps(size: nat, h: Heap, i: nat)
    requires i < |h.nodes| && !h.nodes[i].used && Loose(size, h, i - 1, i + 1)
    ensures Inv(size, Plug(h, i))
  {
    hide PlugForward, PlugBackward, Loose, Inv;
    ForwardKeeps(size, h, i);
    BackwardKeeps(size, PlugForward(h, i), i);
  }

  lemma LowWithout(h: Heap, r: Heap, i: nat)
    requires Low(h) && i < |h.nodes| && r.nodes == h.nodes[..i] + h.nodes[i + 1..] && r.lfree == h.lfree
    ensures Low(r)
  {
    forall k | 0 <= k < |r.nodes| && !r.nodes[k].used ensures r.nodes[k].off >= r.lfree {
      assert r.nodes[k] == h.nodes[if k < i then k else k + 1];
    }
  }

  lemma PlugLow(size: nat, h: Heap, i: nat)
    requires i < |h.nodes| && !h.nodes[i].used && Loose(size, h, i - 1, i + 1) && Low(h)
    ensures Low(Plug(h, i))
  {
    hide PairsOutside, UsedSum, FreeAt, Tiled;
    ForwardKeeps(size, h, i);
    var f := PlugForward(h, i);
    if i + 1 < |h.nodes| && !h.nodes[i + 1].used {
      Ordered(size, h.nodes, i, i + 1);
      LowWithout(h, f, i + 1);
    }
    if i > 0 && !f.nodes[i - 1].used {
      Ordered(size, f.nodes, i - 1, i);
      LowWithout(f, PlugBackward(f, i), i);
    }
  }

  lemma UnmarkedFree(size: nat, h: Heap, i: nat)
    requires Inv(size, h) && i < |h.nodes| && h.nodes[i].used
    ensures var r := Unmark(size, h, i); FreeAt(r.nodes, r.lfree)
  {
    hide UsedSum, Tiled, NoFreePair;
    var l, r := h.nodes, Unmark(size, h, i);
    assert r.nodes[i] == Node(l[i].off, false);
    EndApart(size, l, i);
    SameOffset(size, h, i);
    if h.lfree < l[i].off {
      var k :| 0 <= k < |l| && l[k].off == h.lfree && !l[k].used;
      assert r.nodes[k] == l[k];
    }
  }

  lemma UnmarkLoose(size: nat, h: Heap, i: nat)
    requires Inv(size, h) && i < |h.nodes| && h.nodes[i].used
    ensures Loose(size, Unmark(size, h, i), i - 1, i + 1) && (Low(h) ==> Low(Unmark(size, h, i)))
  {
    hide UsedSum, Tiled, FreeAt;
    var l, r := h.nodes, Unmark(size, h, i);
    MarkTiles(size, l, i, false);
    MarkSum(size, l, i, false);
    UnmarkedFree(size, h, i);
    InHeap(size, l, i);
    forall k | 0 <= k < |l| - 1 && !(i - 1 <= k < i + 1) ensures r.nodes[k].used || r.nodes[k + 1].used {
      assert l[k].used || l[k + 1].used;
    }
  }

  lemma SameOffset(size: nat, h: Heap, i: nat)
    requires Inv(size, h) && i < |h.nodes| && h.nodes[i].used
    ensures h.lfree != h.nodes[i].off
  {
    EndApart(size, h.nodes, i);
    if FreeAt(h.nodes, h.lfree) {
      var k :| 0 <= k < |h.nodes| && h.nodes[k].off == h.lfree && !h.nodes[k].used;
      if k < i { Ordered(size, h.nodes, k, i); }
      if i < k { Ordered(size, h.nodes, i, k); }
    }
  }

  lemma FreeKeeps(size: nat, h: Heap, i: nat)
    requires Inv(size, h) && i < |h.nodes| && h.nodes[i].used
    ensures Inv(size, Free(size, h, i)) && (Low(h) ==> Low(Free(size, h, i)))
  {
    hide Inv, Loose, Low, Plug;
    var u := Unmark(size, h, i);
    UnmarkLoose(size, h, i);
    PlugKeeps(size, u, i);
    if Low(h) { PlugLow(size, u, i); }
  }

  // ----- freeing undoes allocating -----

  /** A block that is freed right after it was allocated: the chain, the hint and the used bytes
      are what they were. */
  lemma FreeUndoesMalloc(size: nat, h: Heap, request: nat)
    requires Inv(size, h) && Malloc(size, h, request).1.At?
    ensures var (m, to) := Malloc(size, h, request); var i := Index(m.nodes, to.off - HEADER);
      && to.off >= HEADER && i < |m.nodes| && m.nodes[i].used
      && var r := Free(size, m, i);
      r.nodes == h.nodes && r.lfree == h.lfree && r.usedMem == h.usedMem
  {
    hide Inv, Low, Plug, Take;
    var s := AlignUp(request);
    RequestAligned(request);
    HintIndex(size, h);
    var n := if s < MIN_SIZE then MIN_SIZE else s;
    var i := Search(size, h.nodes, Index(h.nodes, h.lfree), n);
    TakenIndex(size, h, i, n);
    TakeUndone(size, h, i, n);
  }

  lemma TakenIndex(size: nat, h: Heap, i: nat, n: nat)
    requires Inv(size, h) && i < |h.nodes| && !h.nodes[i].used && n > 0 && n % ALIGN == 0
    ensures var r := Take(size, h, i, n).nodes; i < |r| && Index(r, h.nodes[i].off) == i && r[i].used
  {
    TakenTiles(size, h.nodes, i, n);
    IndexIs(size, TakenNodes(size, h.nodes, i, n), i);
  }

  lemma TakeUndone(size: nat, h: Heap, i: nat, n: nat)
    requires Inv(size, h) && i < |h.nodes| && Fits(size, h.nodes, i, n) && n > 0 && n % ALIGN == 0 && h.lfree <= h.nodes[i].off
    ensures var r := Free(size, Take(size, h, i, n), i); r.nodes == h.nodes && r.lfree == h.lfree && r.usedMem == h.usedMem
  {
    hide Inv, Room, TakenNodes, FirstFree, Splits;
    var l, t := h.nodes, Take(size, h, i, n);
    TakenIs(size, l, i, n);
    HintBeyond(size, h, i, n);
    UsedAround(size, h, i);
    TakenRoom(size, l, i, n);
    var u := Unmark(size, t, i);
    assert u.lfree == h.lfree;
    if |t.nodes| > |l| {
      assert u.nodes[..i + 1] + u.nodes[i + 2..] == l;
    } else {
      assert u.nodes == l;
    }
  }

  lemma UsedAround(size: nat, h: Heap, i: nat)
    requires Inv(size, h) && i < |h.nodes| && !h.nodes[i].used
    ensures i > 0 ==> h.nodes[i - 1].used
    ensures i + 1 < |h.nodes| ==> h.nodes[i + 1].used
  {
    if i > 0 { PairUsed(h.nodes, i - 1); }
  }

  lemma PairUsed(l: seq<Node>, k: nat)
    requires NoFreePair(l) && k + 1 < |l|
    ensures l[k].used || l[k + 1].used
  {
  }

  lemma TakenRoom(size: nat, l: seq<Node>, i: nat, n: nat)
    requires i < |l|
    ensures var r := TakenNodes(size, l, i, n);
      Room(size, r, i) == if Splits(size, l, i, n) then n else Room(size, l, i)
  {
  }

  /** The hint moves past the block that is taken. */
  lemma HintBeyond(size: nat, h: Heap, i: nat, n: nat)
    requires Inv(size, h) && i < |h.nodes| && !h.nodes[i].used && n > 0 && n % ALIGN == 0 && h.lfree <= h.nodes[i].off
    ensures var t := Take(size, h, i, n);
      if h.lfree == h.nodes[i].off then t.lfree > h.nodes[i].off else t.lfree == h.lfree
  {
    hide UsedSum, FreeAt, Splits;
    var r := TakenNodes(size, h.nodes, i, n);
    TakenTiles(size, h.nodes, i, n);
    TakenIs(size, h.nodes, i, n);
    FirstFreeIs(size, r, i + 1);
  }

  // ----- realloc -----

  lemma InsertedFree(l: seq<Node>, i: nat, off: nat, x: nat)
    requires i < |l|
    ensures FreeAt(l, x) ==> FreeAt(l[..i + 1] + [Node(off, false)] + l[i + 1..], x)
  {
    var r := l[..i + 1] + [Node(off, false)] + l[i + 1..];
    if FreeAt(l, x) {
      var k :| 0 <= k < |l| && l[k].off == x && !l[k].used;
      assert r[if k <= i then k else k + 1] == l[k];
    }
  }

  lemma CutIs(size: nat, h: Heap, i: nat, n: nat)
    requires i < |h.nodes| && h.nodes[i].used
    ensures Cut(size, h, i, n).nodes == h.nodes[..i] + [Node(h.nodes[i].off, true), Node(h.nodes[i].off + HEADER + n, false)] + h.nodes[i + 1..]
  {
  }

  /** Cutting a block in use leaves a free block that may have a free one after it. */
  lemma CutLoose(size: nat, h: Heap, i: nat, n: nat)
    requires Inv(size, h) && i < |h.nodes| && h.nodes[i].used && n > 0 && n % ALIGN == 0 && n + HEADER < Room(size, h.nodes, i)
    ensures Loose(size, Cut(size, h, i, n), i, i + 2)
  {
    hide UsedSum, FreeAt, NoFreePair, Tiled;
    var l, off := h.nodes, h.nodes[i].off + HEADER + n;
    CutAligned(size, l, i, n);
    CutIs(size, h, i, n);
    InsertTiles(size, l, i, true, off);
    InsertSum(size, l, i, true, off);
    InsertedFree(l, i, off, h.lfree);
    CutPairs(l, i, off);
  }

  lemma CutPairs(l: seq<Node>, i: nat, off: nat)
    requires NoFreePair(l) && i < |l|
    ensures PairsOutside(l[..i + 1] + [Node(off, false)] + l[i + 1..], i, i + 2)
  {
    var r := l[..i + 1] + [Node(off, false)] + l[i + 1..];
    forall k | 0 <= k < |r| - 1 && !(i <= k < i + 2) ensures r[k].used || r[k + 1].used {
      PairUsed(l, if k < i then k else k - 1);
    }
  }

  predicate ShrinksInPlace(size: nat, l: seq<Node>, i: nat, request: nat)
    requires i < |l|
  {
    var n := AlignUp(request); 0 < n <= size && Room(size, l, i) != n && Shrinks(size, l, i, n)
  }

  /** `rt_realloc` keeps the heap on all its paths. */
  lemma ReallocKeeps(size: nat, h: Heap, i: nat, request: nat)
    requires Inv(size, h) && i < |h.nodes| && h.nodes[i].used
    ensures Inv(size, Realloc(size, h, i, request).0)
    ensures !ShrinksInPlace(size, h.nodes, i, request) && Low(h) ==> Low(Realloc(size, h, i, request).0)
  {
    hide Inv, Low, Plug, Free, Malloc, Cut, Loose;
    var n := AlignUp(request);
    RequestAligned(request);
    FreeKeeps(size, h, i);
    if ShrinksInPlace(size, h.nodes, i, request) {
      CutLoose(size, h, i, n);
      CutMarks(size, h, i, n);
      PlugKeeps(size, Cut(size, h, i, n), i + 1);
    } else {
      var (h1, to) := Malloc(size, h, n);
      MallocKeeps(size, h, n);
      if to.At? {
        StillUsed(size, h, i, n);
        FreeKeeps(size, h1, Index(h1.nodes, h.nodes[i].off));
      }
    }
  }

  lemma CutMarks(size: nat, h: Heap, i: nat, n: nat)
    requires i < |h.nodes|
    ensures var r := Cut(size, h, i, n).nodes; |r| == |h.nodes| + 1 && r[i + 1] == Node(h.nodes[i].off + HEADER + n, false)
  {
  }

  lemma TakenKeepsUsed(size: nat, l: seq<Node>, k: nat, n: nat, i: nat)
    requires k < |l| && i < |l| && l[i].used && !l[k].used && Tiled(size, l) && Tiled(size, TakenNodes(size, l, k, n))
    ensures var r := TakenNodes(size, l, k, n); var j := Index(r, l[i].off);
      j < |r| && r[j] == l[i] && Room(size, r, j) == Room(size, l, i)
  {
    hide TakenNodes, Tiled, Splits;
    TakenIs(size, l, k, n);
    var r := TakenNodes(size, l, k, n);
    var j := if i > k then i + (|r| - |l|) else i;
    assert r[j] == l[i];
    IndexIs(size, r, j);
    if i + 1 < |l| {
      assert j + 1 < |r| && r[j + 1].off == l[i + 1].off;
    }
  }

  /** Allocating leaves the blocks in use as they are. */
  lemma StillUsed(size: nat, h: Heap, i: nat, request: nat)
    requires Inv(size, h) && i < |h.nodes| && h.nodes[i].used && Malloc(size, h, request).1.At?
    ensures var l := Malloc(size, h, request).0.nodes; var j := Index(l, h.nodes[i].off);
      j < |l| && l[j] == h.nodes[i] && Room(size, l, j) == Room(size, h.nodes, i)
  {
    hide NoFreePair, UsedSum, FreeAt, Low, Splits, TakenNodes, Room;
    var s := AlignUp(request);
    RequestAligned(request);
    HintIndex(size, h);
    var n := if s < MIN_SIZE then MIN_SIZE else s;
    var k := Search(size, h.nodes, Index(h.nodes, h.lfree), n);
    TakenTiles(size, h.nodes, k, n);
    TakenKeepsUsed(size, h.nodes, k, n, i);
  }

  // ----- the blocks in use -----

  /** A block of `room` bytes at `off` is in use. */
  ghost predicate Block(size: nat, l: seq<Node>, off: int, room: int) {
    exists i :: 0 <= i < |l| && l[i].used && l[i].off + HEADER == off && Room(size, l, i) == room
  }

  lemma BlockIs(size: nat, l: seq<Node>, i: nat, off: int, room: int)
    requires Tiled(size, l) && i < |l| && l[i].off + HEADER == off
    ensures Block(size, l, off, room) <==> l[i].used && room == Room(size, l, i)
  {
    hide Tiled, Room;
    if Block(size, l, off, room) {
      var k :| 0 <= k < |l| && l[k].used && l[k].off + HEADER == off && Room(size, l, k) == room;
      if k < i { Ordered(size, l, k, i); }
      if i < k { Ordered(size, l, i, k); }
    }
  }

  /** The blocks of the two chains are the same but for the one at `off`. */
  ghost predicate OthersSame(size: nat, l: seq<Node>, r: seq<Node>, off: int) {
    forall x: int, room: int :: x != off ==> (Block(size, r, x, room) <==> Block(size, l, x, room))
  }

  lemma InsertBlocks(size: nat, l: seq<Node>, i: nat, u: bool, off: nat)
    requires i < |l|
    ensures OthersSame(size, l, l[..i] + [Node(l[i].off, u), Node(off, false)] + l[i + 1..], l[i].off + HEADER)
  {
    hide Room;
    var r := l[..i] + [Node(l[i].off, u), Node(off, false)] + l[i + 1..];
    forall k | 0 <= k < |l| && k != i ensures r[if k < i then k else k + 1] == l[k] && Room(size, r, if k < i then k else k + 1) == Room(size, l, k) {
      InsertRoom(size, l, i, u, off, k);
    }
    forall x: int, room: int | x != l[i].off + HEADER ensures Block(size, r, x, room) <==> Block(size, l, x, room) {
      if Block(size, l, x, room) {
        var k :| 0 <= k < |l| && l[k].used && l[k].off + HEADER == x && Room(size, l, k) == room;
        assert r[if k < i then k else k + 1] == l[k];
      }
      if Block(size, r, x, room) {
        var k :| 0 <= k < |r| && r[k].used && r[k].off + HEADER == x && Room(size, r, k) == room;
        assert k != i + 1 && k != i;
        assert r[k] == l[if k < i then k else k - 1];
      }
    }
  }

  lemma InsertRoom(size: nat, l: seq<Node>, i: nat, u: bool, off: nat, k: nat)
    requires i < |l| && k < |l| && k != i
    ensures var r := l[..i] + [Node(l[i].off, u), Node(off, false)] + l[i + 1..]; var j := if k < i then k else k + 1;
      r[j] == l[k] && Room(size, r, j) == Room(size, l, k)
  {
  }

  lemma MarkBlocks(size: nat, l: seq<Node>, i: nat, u: bool)
    requires i < |l|
    ensures OthersSame(size, l, l[i := Node(l[i].off, u)], l[i].off + HEADER)
  {
    var r := l[i := Node(l[i].off, u)];
    forall x: int, room: int | x != l[i].off + HEADER ensures Block(size, r, x, room) <==> Block(size, l, x, room) {
      if Block(size, l, x, room) {
        var k :| 0 <= k < |l| && l[k].used && l[k].off + HEADER == x && Room(size, l, k) == room;
        assert r[k] == l[k] && Room(size, r, k) == room;
      }
      if Block(size, r, x, room) {
        var k :| 0 <= k < |r| && r[k].used && r[k].off + HEADER == x && Room(size, r, k) == room;
        assert r[k] == l[k] && Room(size, l, k) == room;
      }
    }
  }

  /** Merging a free block into the free one before it changes no block in use. */
  lemma RemoveBlocks(size: nat, l: seq<Node>, i: nat, x: int, room: int)
    requires 0 < i < |l| && !l[i - 1].used && !l[i].used
    ensures Block(size, l[..i] + l[i + 1..], x, room) <==> Block(size, l, x, room)
  {
    var r := l[..i] + l[i + 1..];
    if Block(size, l, x, room) {
      var k :| 0 <= k < |l| && l[k].used && l[k].off + HEADER == x && Room(size, l, k) == room;
      var j := if k < i then k else k - 1;
      assert r[j] == l[k] && Room(size, r, j) == room;
    }
    if Block(size, r, x, room) {
      var k :| 0 <= k < |r| && r[k].used && r[k].off + HEADER == x && Room(size, r, k) == room;
      var j := if k < i then k else k + 1;
      assert l[j] == r[k] && Room(size, l, j) == room;
    }
  }

  lemma PlugBlocks(size: nat, h: Heap, i: nat, x: int, room: int)
    requires i < |h.nodes| && !h.nodes[i].used
    ensures Block(size, Plug(h, i).nodes, x, room) <==> Block(size, h.nodes, x, room)
  {
    hide Block;
    var l, f := h.nodes, PlugForward(h, i);
    if i + 1 < |l| && !l[i + 1].used {
      RemoveBlocks(size, l, i + 1, x, room);
      assert f.nodes[i] == l[i] && (i > 0 ==> f.nodes[i - 1] == l[i - 1]);
    }
    if i > 0 && !f.nodes[i - 1].used { RemoveBlocks(size, f.nodes, i, x, room); }
  }

  /** An allocation takes one block into use, which was not before, with at least the bytes asked for after
      rounding and less than a smallest block more; it is the lowest one large enough that the search may
      take, and all others stay as they are. */
  lemma MallocGives(size: nat, h: Heap, request: nat)
    requires Inv(size, h) && Malloc(size, h, request).1.At?
    ensures var (r, to) := Malloc(size, h, request);
      && (exists room :: Block(size, r.nodes, to.off, room) && Wanted(request) <= room < Wanted(request) + HEADER + MIN_SIZE)
      && (forall room: int :: !Block(size, h.nodes, to.off, room)) && OthersSame(size, h.nodes, r.nodes, to.off)
      && (Low(h) ==> forall k :: 0 <= k < |h.nodes| && Fits(size, h.nodes, k, Wanted(request)) && h.nodes[k].off < size - Wanted(request) ==>
                        h.nodes[k].off + HEADER >= to.off)
  {
    hide Inv, AlignUp, Block, OthersSame, FirstFree, TakenNodes, Splits;
    RequestAligned(request);
    StartOfSearch(size, h);
    var n := Wanted(request);
    var i := Search(size, h.nodes, Index(h.nodes, h.lfree), n);
    TakeGives(size, h.nodes, i, n);
    if Low(h) { LowestFit(size, h, n); }
  }

  lemma LowestFit(size: nat, h: Heap, n: nat)
    requires Inv(size, h) && Low(h) && Index(h.nodes, h.lfree) <= |h.nodes|
    ensures var i := Search(size, h.nodes, Index(h.nodes, h.lfree), n);
      i < |h.nodes| ==> forall k :: 0 <= k < |h.nodes| && Fits(size, h.nodes, k, n) && h.nodes[k].off < size - n ==> h.nodes[k].off >= h.nodes[i].off
  {
    hide UsedSum, NoFreePair, FreeAt, Tiled, Room;
    var l := h.nodes;
    var i := Search(size, l, Index(l, h.lfree), n);
    HintIndex(size, h);
    SearchIs(size, l, Index(l, h.lfree), n);
    if i < |l| {
      forall k | 0 <= k < |l| && Fits(size, l, k, n) && l[k].off < size - n ensures l[k].off >= l[i].off { if i < k { Ordered(size, l, i, k); } }
    }
  }

  lemma StartOfSearch(size: nat, h: Heap)
    requires Inv(size, h)
    ensures Index(h.nodes, h.lfree) <= |h.nodes| && Tiled(size, h.nodes)
  {
  }

  lemma TakeGives(size: nat, l: seq<Node>, i: nat, n: nat)
    requires Tiled(size, l) && i < |l| && Fits(size, l, i, n) && n > 0 && n % ALIGN == 0
    ensures var r, off := TakenNodes(size, l, i, n), l[i].off + HEADER;
      && (exists room :: Block(size, r, off, room) && n <= room < n + HEADER + MIN_SIZE)
      && (forall room: int :: !Block(size, l, off, room)) && OthersSame(size, l, r, off)
  {
    hide Tiled, OthersSame, Block;
    var r, off := TakenNodes(size, l, i, n), l[i].off + HEADER;
    TakenTiles(size, l, i, n);
    TakenIs(size, l, i, n);
    TakenRoom(size, l, i, n);
    BlockIs(size, r, i, off, Room(size, r, i));
    forall room: int ensures !Block(size, l, off, room) { BlockIs(size, l, i, off, room); }
    if Splits(size, l, i, n) {
      InsertBlocks(size, l, i, true, l[i].off + HEADER + n);
    } else {
      MarkBlocks(size, l, i, true);
      assert l[i := l[i].(used := true)] == l[i := Node(l[i].off, true)];
    }
  }

  /** A release takes exactly the block out of use. */
  lemma FreeTakes(size: nat, h: Heap, i: nat)
    requires Inv(size, h) && i < |h.nodes| && h.nodes[i].used
    ensures var r, off := Free(size, h, i), h.nodes[i].off + HEADER;
      OthersSame(size, h.nodes, r.nodes, off) && forall room: int :: !Block(size, r.nodes, off, room)
  {
    hide Inv, Block, Plug, Tiled;
    var l, u, off := h.nodes, Unmark(size, h, i), h.nodes[i].off + HEADER;
    StartOfSearch(size, h);
    MarkTiles(size, l, i, false);
    MarkBlocks(size, l, i, false);
    forall x: int, room: int ensures Block(size, Plug(u, i).nodes, x, room) <==> Block(size, u.nodes, x, room) { PlugBlocks(size, u, i, x, room); }
    forall room: int ensures !Block(size, u.nodes, off, room) { BlockIs(size, u.nodes, i, off, room); }
  }

  /** Shrinking in place leaves the block with exactly the bytes asked for. */
  lemma CutGives(size: nat, h: Heap, i: nat, n: nat)
    requires Inv(size, h) && i < |h.nodes| && h.nodes[i].used && n > 0 && n % ALIGN == 0 && Shrinks(size, h.nodes, i, n)
    ensures var r, off := Plug(Cut(size, h, i, n), i + 1), h.nodes[i].off + HEADER;
      OthersSame(size, h.nodes, r.nodes, off) && Block(size, r.nodes, off, n)
  {
    hide Inv, Block, Plug, Tiled;
    var l, c, off := h.nodes, Cut(size, h, i, n), h.nodes[i].off + HEADER;
    CutIs(size, h, i, n);
    CutTiles(size, h, i, n);
    InsertBlocks(size, l, i, true, off + n);
    assert c.nodes[i] == Node(l[i].off, true) && c.nodes[i + 1] == Node(off + n, false);
    BlockIs(size, c.nodes, i, off, n);
    forall x: int, room: int ensures Block(size, Plug(c, i + 1).nodes, x, room) <==> Block(size, c.nodes, x, room) { PlugBlocks(size, c, i + 1, x, room); }
  }

  lemma CutTiles(size: nat, h: Heap, i: nat, n: nat)
    requires Inv(size, h) && i < |h.nodes| && h.nodes[i].used && n > 0 && n % ALIGN == 0 && Shrinks(size, h.nodes, i, n)
    ensures Tiled(size, Cut(size, h, i, n).nodes)
  {
    CutLoose(size, h, i, n);
  }

  /** A block that is to be resized goes to a new place when it is neither of that size nor larger by more
      than a smallest block. */
  predicate Moves(size: nat, l: seq<Node>, i: nat, n: nat)
    requires i < |l|
  {
    Room(size, l, i) != n && Room(size, l, i) <= n + HEADER + MIN_SIZE
  }

  /** No block of at least `n` bytes, and of the least size, is free below the limit of the search. */
  ghost predicate NoRoomFor(size: nat, l: seq<Node>, n: nat) {
    var m := if n < MIN_SIZE then MIN_SIZE else n;
    forall k :: 0 <= k < |l| ==> !(Fits(size, l, k, m) && l[k].off < size - m)
  }

  lemma OthersSameIs(size: nat, l: seq<Node>, r: seq<Node>, off: int)
    ensures OthersSame(size, l, l, off)
    ensures OthersSame(size, l, r, off) ==> forall x: int, room: int :: x != off ==> (Block(size, r, x, room) <==> Block(size, l, x, room))
  {
    hide Block;
  }

  lemma MallocNull(size: nat, h: Heap, n: nat)
    requires Inv(size, h) && 0 < n <= size && AlignUp(n) == n
    ensures var (r, to) := Malloc(size, h, n); (to.Null? ==> r == h) && (Low(h) ==> (to.Null? <==> NoRoomFor(size, h.nodes, n)))
  {
    hide Inv, Low, Fits, AlignUp, Take;
    MallocKeeps(size, h, n);
    if Low(h) { MallocFails(size, h, n); }
  }

  /** At least `n` bytes, but less than a smallest block more than that and the least size */
  predicate About(room: int, n: nat) { n <= room < (if n < MIN_SIZE then MIN_SIZE else n) + HEADER + MIN_SIZE }

  /** A block at `off` is no more, there is one at `to` instead, of about `n` bytes, where there was none,
      and all others are as they were. */
  ghost predicate Moved(size: nat, l: seq<Node>, r: seq<Node>, off: int, to: int, n: nat) {
    && (exists room :: Block(size, r, to, room) && About(room, n))
    && (forall room: int :: !Block(size, l, to, room)) && (forall room: int :: !Block(size, r, off, room))
    && forall x: int, room: int :: x != off && x != to ==> (Block(size, r, x, room) <==> Block(size, l, x, room))
  }

  /** The block at `off` has been given `n` bytes where it is, and all others are as they were. */
  ghost predicate Resized(size: nat, l: seq<Node>, r: seq<Node>, off: int, n: nat) {
    Block(size, r, off, n) && OthersSame(size, l, r, off)
  }

  /** The block at `off` is no more, and all others are as they were. */
  ghost predicate Gone(size: nat, l: seq<Node>, r: seq<Node>, off: int) {
    OthersSame(size, l, r, off) && forall room: int :: !Block(size, r, off, room)
  }

  lemma MovedBlock(size: nat, h: Heap, i: nat, n: nat)
    requires Inv(size, h) && i < |h.nodes| && h.nodes[i].used && 0 < n <= size && AlignUp(n) == n
    ensures var (h1, to) := Malloc(size, h, n); var j, off := Index(h1.nodes, h.nodes[i].off), h.nodes[i].off + HEADER;
      to.At? ==> j < |h1.nodes| && to.off != off && Moved(size, h.nodes, Free(size, h1, j).nodes, off, to.off, n)
  {
    hide Inv, Low, Block, Plug, Free, Malloc, AlignUp, Index, OthersSame;
    var (h1, to) := Malloc(size, h, n);
    var j, off := Index(h1.nodes, h.nodes[i].off), h.nodes[i].off + HEADER;
    if to.At? {
      StartOfSearch(size, h);
      MallocKeeps(size, h, n);
      MallocGives(size, h, n);
      StillUsed(size, h, i, n);
      FreeTakes(size, h1, j);
      BlockIs(size, h.nodes, i, off, Room(size, h.nodes, i));
      var r := Free(size, h1, j);
      OthersSameIs(size, h.nodes, h1.nodes, to.off);
      OthersSameIs(size, h1.nodes, r.nodes, off);
    }
  }

  lemma RoundedAgain(request: nat)
    ensures AlignUp(AlignUp(request)) == AlignUp(request)
  {
    AlignUpIs(AlignUp(request));
  }

  /** What `rt_realloc` does to the block and to all others.  It returns null exactly when more than the heap
      is asked for, or when the block has to move and nothing is free that is large enough; a size that
      is rounded to 0 releases the block. */
  lemma ReallocReturns(size: nat, h: Heap, i: nat, request: nat)
    requires Inv(size, h) && i < |h.nodes| && h.nodes[i].used
    ensures var (r, to) := Realloc(size, h, i, request); var n, off := AlignUp(request), h.nodes[i].off + HEADER;
      && (to.At? ==> n > 0 && if to.off == off then Resized(size, h.nodes, r.nodes, off, n) else Moved(size, h.nodes, r.nodes, off, to.off, n))
      && (n == 0 ==> to.Null? && Gone(size, h.nodes, r.nodes, off))
      && (n > 0 && to.Null? ==> r == h)
      && (Low(h) && n > 0 ==> (to.Null? <==> n > size || (Moves(size, h.nodes, i, n) && NoRoomFor(size, h.nodes, n))))
  {
    hide Inv, Low, Block, Plug, Cut, Free, Malloc, AlignUp, OthersSame, NoRoomFor, Moved;
    var n, l, off := AlignUp(request), h.nodes, h.nodes[i].off + HEADER;
    RequestAligned(request);
    StartOfSearch(size, h);
    if n <= size && n > 0 {
      if Moves(size, l, i, n) {
        RoundedAgain(request);
        MallocNull(size, h, n);
        MovedBlock(size, h, i, n);
      } else if Room(size, l, i) == n {
        BlockIs(size, l, i, off, n);
        OthersSameIs(size, l, l, off);
      } else {
        CutMarks(size, h, i, n);
        CutGives(size, h, i, n);
      }
    } else if n <= size {
      FreeTakes(size, h, i);
    }
  }

  /** After shrinking a block in place, the hint is still below every free block exactly when the
      block lies above the hint or a free block follows it. */
  lemma ShrinkLow(size: nat, h: Heap, i: nat, request: nat)
    requires Inv(size, h) && Low(h) && i < |h.nodes| && h.nodes[i].used && ShrinksInPlace(size, h.nodes, i, request)
    ensures Low(Realloc(size, h, i, request).0) <==>
      h.lfree < h.nodes[i].off || (i + 1 < |h.nodes| && !h.nodes[i + 1].used)
  {
    hide UsedSum, Tiled, NoFreePair, FreeAt;
    var n, l := AlignUp(request), h.nodes;
    var c := Cut(size, h, i, n);
    RequestAligned(request);
    SameOffset(size, h, i);
    CutLoose(size, h, i, n);
    CutMarks(size, h, i, n);
    HintAbove(size, h, i);
    if h.lfree < l[i].off {
      CutLow(size, h, i, n);
      PlugLow(size, c, i + 1);
    } else if i + 1 < |l| && !l[i + 1].used {
      var f := PlugForward(c, i + 1);
      assert c.nodes[i + 2] == l[i + 1] && c.nodes[i] == l[i] && f.nodes[i] == l[i];
      assert f == PlugBackward(f, i + 1);
      forall k | 0 <= k < |f.nodes| && !f.nodes[k].used ensures f.nodes[k].off >= f.lfree {
        assert k != i + 1 ==> f.nodes[k] == l[k];
      }
    } else {
      var r := Plug(c, i + 1);
      assert c.nodes[i] == l[i] && (i + 1 < |l| ==> c.nodes[i + 2] == l[i + 1]);
      assert r == c && !r.nodes[i + 1].used && r.nodes[i + 1].off < r.lfree;
    }
  }

  lemma CutLow(size: nat, h: Heap, i: nat, n: nat)
    requires Low(h) && i < |h.nodes| && h.lfree < h.nodes[i].off
    ensures Low(Cut(size, h, i, n))
  {
    var l, r := h.nodes, Cut(size, h, i, n);
    forall k | 0 <= k < |r.nodes| && !r.nodes[k].used ensures r.nodes[k].off >= r.lfree {
      if k != i + 1 { assert r.nodes[k] == l[if k <= i then k else k - 1]; }
    }
  }

  /** A hint above a block in use is at the next block or beyond. */
  lemma HintAbove(size: nat, h: Heap, i: nat)
    requires Inv(size, h) && i < |h.nodes| && h.nodes[i].used && Low(h)
    ensures h.lfree > h.nodes[i].off ==> h.lfree >= NextOff(size, h.nodes, i)
    ensures h.lfree > h.nodes[i].off && i + 1 < |h.nodes| && !h.nodes[i + 1].used ==> h.lfree == h.nodes[i + 1].off
  {
    hide UsedSum, NoFreePair;
    HintIndex(size, h);
    InHeap(size, h.nodes, i);
    var k := Index(h.nodes, h.lfree);
    if k < |h.nodes| && i + 1 < k { Ordered(size, h.nodes, i + 1, k); }
  }

  /** A heap with two blocks in use and a little free block at the end. */
  function Example(): Heap { Heap([Node(0, true), Node(52, true), Node(96, false)], 96, 96, 96) }

  lemma ExampleOk()
    ensures Inv(100, Example()) && Low(Example())
  {
    var l := Example().nodes;
    assert l[2].off == 96;
    assert UsedSum(100, l) == 52 + UsedSum(100, l[1..]);
    assert UsedSum(100, l[1..]) == 44 + UsedSum(100, l[1..][1..]);
    assert UsedSum(100, l[1..][1..]) == UsedSum(100, l[1..][1..][1..]);
  }

  /** The hint can end up above a free block: the first block is shrunk while the next is in use,
      and then the sixteen bytes that were cut off are not found. */
  lemma ShrinkHidesBlock()
    ensures var r := Realloc(100, Example(), 0, 12).0;
      Inv(100, r) && FreeAt(r.nodes, 24) && Room(100, r.nodes, 1) == 16 && Malloc(100, r, 16).1.Null?
  {
    ExampleOk();
    hide Inv, Low, UsedSum;
    ReallocKeeps(100, Example(), 0, 12);
    var l := Example().nodes;
    var r := Realloc(100, Example(), 0, 12).0;
    assert r.nodes == [Node(0, true), Node(24, false), Node(52, true), Node(96, false)];
    assert r.nodes[1].off == 24;
    HintIndex(100, r);
    assert r.nodes[3].off == r.lfree;
  }

  // ----- whole histories -----

  datatype Op = Allocate(request: nat) | Release(off: nat) | Resize(off: nat, request: nat)

  predicate Live(l: seq<Node>, off: nat) {
    off >= HEADER && Index(l, off - HEADER) < |l| && l[Index(l, off - HEADER)].used
  }

  predicate Enabled(h: Heap, o: Op) {
    match o
    case Allocate(_) => true
    case Release(off) => Live(h.nodes, off)
    case Resize(off, _) => Live(h.nodes, off)
  }

  function Step(size: nat, h: Heap, o: Op): Heap
    requires Enabled(h, o)
  {
    match o
    case Allocate(request) => Malloc(size, h, request).0
    case Release(off) => Free(size, h, Index(h.nodes, off - HEADER))
    case Resize(off, request) => Realloc(size, h, Index(h.nodes, off - HEADER), request).0
  }

  predicate CanRun(size: nat, h: Heap, run: seq<Op>)
    decreases |run|
  {
    run == [] || (
      && Enabled(h, run[0]) && (run[0].Allocate? ==> !Spins(size, run[0].request))
      && CanRun(size, Step(size, h, run[0]), run[1..]))
  }

  function Exec(size: nat, h: Heap, run: seq<Op>): Heap
    requires CanRun(size, h, run)
    decreases |run|
  {
    if run == [] then h else Exec(size, Step(size, h, run[0]), run[1..])
  }

  predicate NoResize(run: seq<Op>) { forall o :: o in run ==> !o.Resize? }

  function Init(size: nat): Heap { Heap([Node(0, false)], 0, 0, 0) }

  lemma InitOk(size: nat)
    requires size < WORD - 2 * HEADER && size % ALIGN == 0
    ensures Inv(size, Init(size)) && Low(Init(size))
  {
    assert Init(size).nodes[0].off == 0;
  }

  lemma FreeCounts(size: nat, h: Heap, i: nat)
    requires i < |h.nodes|
    ensures var r := Free(size, h, i); r.maxMem == h.maxMem && r.usedMem == h.usedMem - (Room(size, h.nodes, i) + HEADER)
  {
    hide Room;
  }

  /** `max_mem` is the most that has been in use: a call that moves a block has both in use for a while. */
  lemma PeakIs(size: nat, h: Heap, o: Op)
    requires Inv(size, h) && Enabled(h, o)
    ensures var r := Step(size, h, o);
      && (!o.Resize? ==> r.maxMem == Max(h.maxMem, r.usedMem))
      && (o.Resize? ==>
           var i := Index(h.nodes, o.off - HEADER); var n := AlignUp(o.request);
           r.maxMem == Max(h.maxMem, if 0 < n <= size && Moves(size, h.nodes, i, n) && r != h
                                     then r.usedMem + Room(size, h.nodes, i) + HEADER else r.usedMem))
  {
    hide Tiled, NoFreePair, FreeAt, UsedSum, AlignUp, Free, Room, TakenNodes, FirstFree, Plug, Index;
    match o
    case Allocate(_) =>
    case Release(off) =>
      FreeCounts(size, h, Index(h.nodes, off - HEADER));
      RoomNotNegative(size, h, Index(h.nodes, off - HEADER));
    case Resize(off, request) => ResizePeak(size, h, Index(h.nodes, off - HEADER), request);
  }

  lemma RoomNotNegative(size: nat, h: Heap, i: nat)
    requires Inv(size, h) && i < |h.nodes|
    ensures Room(size, h.nodes, i) >= 0
  {
    hide UsedSum, NoFreePair, FreeAt;
    assert Room(size, h.nodes, i) >= 0;
  }

  lemma ResizePeak(size: nat, h: Heap, i: nat, request: nat)
    requires Inv(size, h) && i < |h.nodes| && h.nodes[i].used
    ensures var r := Realloc(size, h, i, request).0; var n := AlignUp(request);
      r.maxMem == Max(h.maxMem, if 0 < n <= size && Moves(size, h.nodes, i, n) && r != h
                                then r.usedMem + Room(size, h.nodes, i) + HEADER else r.usedMem)
  {
    hide Tiled, NoFreePair, FreeAt, UsedSum, AlignUp, Room, Free, Malloc, Index;
    var n := AlignUp(request);
    RoomNotNegative(size, h, i);
    FreeCounts(size, h, i);
    if 0 < n <= size && Moves(size, h.nodes, i, n) {
      RoundedAgain(request);
      var (h1, to) := Malloc(size, h, n);
      MallocCounts(size, h, n);
      MallocKeeps(size, h, n);
      if to.At? {
        StillUsed(size, h, i, n);
        FreeCounts(size, h1, Index(h1.nodes, h.nodes[i].off));
        MovedBlock(size, h, i, n);
        OldBlock(size, h, i);
      }
    }
  }

  lemma OldBlock(size: nat, h: Heap, i: nat)
    requires Inv(size, h) && i < |h.nodes| && h.nodes[i].used
    ensures Block(size, h.nodes, h.nodes[i].off + HEADER, Room(size, h.nodes, i))
  {
    hide Room, UsedSum;
  }

  lemma MallocCounts(size: nat, h: Heap, request: nat)
    requires Inv(size, h)
    ensures var (r, to) := Malloc(size, h, request); r.maxMem == Max(h.maxMem, r.usedMem)
  {
    hide Tiled, NoFreePair, FreeAt, UsedSum, AlignUp, Room, TakenNodes, FirstFree, Index;
  }

  /** Every history keeps the heap; one of allocations and releases only also keeps the hint below
      every free block. */
  lemma {:induction false} RunKeeps(size: nat, h: Heap, run: seq<Op>)
    requires Inv(size, h) && CanRun(size, h, run)
    ensures Inv(size, Exec(size, h, run))
    ensures Low(h) && NoResize(run) ==> Low(Exec(size, h, run))
    decreases |run|
  {
    hide Inv, Low, Malloc, Free, Realloc, Index;
    if run != [] {
      match run[0] {
        case Allocate(request) => MallocKeeps(size, h, request);
        case Release(off) => FreeKeeps(size, h, Index(h.nodes, off - HEADER));
        case Resize(off, request) => ReallocKeeps(size, h, Index(h.nodes, off - HEADER), request);
      }
      RunKeeps(size, Step(size, h, run[0]), run[1..]);
    }
  }

  /** After any history the bytes of a block lie in the heap and contain no header, be it of a block or of
      the end, and no byte of another block. */
  lemma BlocksApart(size: nat, run: seq<Op>, i: nat, j: nat)
    requires size < WORD - 2 * HEADER && size % ALIGN == 0 && CanRun(size, Init(size), run)
    requires i < |Exec(size, Init(size), run).nodes| && j < |Exec(size, Init(size), run).nodes| && i != j
    ensures var l := Exec(size, Init(size), run).nodes; var a, b := l[i].off + HEADER, l[i].off + HEADER + Room(size, l, i);
      && a <= b <= End(size) && a % ALIGN == 0
      && (b <= l[j].off || l[j].off + HEADER + Room(size, l, j) + HEADER <= a)
  {
    hide Room, Tiled;
    InitOk(size);
    RunKeeps(size, Init(size), run);
    var l := Exec(size, Init(size), run).nodes;
    RoomIs(size, l, i);
    RoomIs(size, l, j);
    if i < j { Ordered(size, l, i, j); } else { Ordered(size, l, j, i); }
  }

  lemma RoomIs(size: nat, l: seq<Node>, i: nat)
    requires Tiled(size, l) && i < |l|
    ensures 0 <= Room(size, l, i) == NextOff(size, l, i) - l[i].off - HEADER
    ensures NextOff(size, l, i) <= End(size) && (l[i].off + HEADER) % ALIGN == 0
  {
    InHeap(size, l, i);
    AlignedSum(l[i].off, 0);
  }

  /** After any history of allocations and releases, allocation fails only if no free block that
      starts strictly below the heap size less the request is large enough. */
  lemma HistoryFindsBlocks(size: nat, run: seq<Op>, request: nat)
    requires size < WORD - 2 * HEADER && size % ALIGN == 0 && CanRun(size, Init(size), run) && NoResize(run) && !Spins(size, request)
    ensures var h := Exec(size, Init(size), run);
      var s := AlignUp(request); var n := if s < MIN_SIZE then MIN_SIZE else s;
      Malloc(size, h, request).1.Null? && request > 0 && s <= size ==>
        forall k :: 0 <= k < |h.nodes| && h.nodes[k].off < size - n ==> !Fits(size, h.nodes, k, n)
  {
    InitOk(size);
    RunKeeps(size, Init(size), run);
    MallocFails(size, Exec(size, Init(size), run), request);
  }
}

module SmallMems {
  import opened Words
  import opened SmallMemModel

  /** The header words spell out the chain.  `prev` leads back, except that nothing is said of the
      `prev` of the block that ends the heap. */
  ghost predicate Chained(size: nat, l: seq<Node>, next: map<nat, nat>, prev: map<nat, nat>, used: map<nat, bool>) {
    && (forall i :: 0 <= i < |l| ==> HeaderOk(size, l, i, next, prev, used))
    && End(size) in next && next[End(size)] == End(size) && End(size) in prev && End(size) in used && used[End(size)]
  }

  ghost predicate HeaderOk(size: nat, l: seq<Node>, i: nat, next: map<nat, nat>, prev: map<nat, nat>, used: map<nat, bool>)
    requires i < |l|
  {
    var x := l[i].off;
    && x in next && next[x] == NextOff(size, l, i)
    && x in prev && prev[x] == (if i > 0 then l[i - 1].off else 0)
    && x in used && used[x] == l[i].used
  }

  /** A new free block after block `i`: its header is written, and the links around it. */
  lemma InsertChained(size: nat, l: seq<Node>, i: nat, off: nat,
                      next: map<nat, nat>, prev: map<nat, nat>, used: map<nat, bool>, prev': map<nat, nat>)
    requires Tiled(size, l) && Chained(size, l, next, prev, used) && i < |l|
    requires l[i].off + HEADER <= off && off + HEADER <= NextOff(size, l, i)
    requires prev' == if i + 1 < |l| then prev[off := l[i].off][l[i + 1].off := off] else prev[off := l[i].off]
    ensures Chained(size, l[..i + 1] + [Node(off, false)] + l[i + 1..],
                    next[off := NextOff(size, l, i)][l[i].off := off], prev', used[off := false])
  {
    var r := l[..i + 1] + [Node(off, false)] + l[i + 1..];
    var next', used' := next[off := NextOff(size, l, i)][l[i].off := off], used[off := false];
    forall k | 0 <= k < |r| ensures HeaderOk(size, r, k, next', prev', used') {
      InsertedHeader(size, l, i, off, next, prev, used, prev', k);
    }
    Separate(size, l, i, i, off);
    if i + 1 < |l| { Separate(size, l, i + 1, i + 1, off); }
    InHeap(size, l, i);
  }

  lemma InsertedHeader(size: nat, l: seq<Node>, i: nat, off: nat,
                       next: map<nat, nat>, prev: map<nat, nat>, used: map<nat, bool>, prev': map<nat, nat>, k: nat)
    requires Tiled(size, l) && Chained(size, l, next, prev, used) && i < |l| && k < |l| + 1
    requires l[i].off + HEADER <= off && off + HEADER <= NextOff(size, l, i)
    requires prev' == if i + 1 < |l| then prev[off := l[i].off][l[i + 1].off := off] else prev[off := l[i].off]
    ensures HeaderOk(size, l[..i + 1] + [Node(off, false)] + l[i + 1..], k,
                     next[off := NextOff(size, l, i)][l[i].off := off], prev', used[off := false])
  {
    hide Tiled;
    var r := l[..i + 1] + [Node(off, false)] + l[i + 1..];
    var j := if k <= i then k else k - 1;
    assert HeaderOk(size, l, j, next, prev, used);
    Separate(size, l, i, j, off);
    if i + 1 < |l| {
      Separate(size, l, i + 1, j, off);
      Separate(size, l, i, i + 1, off);
    }
    if k == i + 1 {
      assert r[k] == Node(off, false) && r[i] == l[i];
    } else {
      assert r[k] == l[j];
    }
  }

  /** Distinct blocks have distinct offsets, and a new offset inside a block is no block's. */
  lemma Separate(size: nat, l: seq<Node>, i: nat, j: nat, off: nat)
    requires Tiled(size, l) && i < |l| && j < |l|
    ensures (l[i].off == l[j].off <==> i == j) && l[j].off < End(size)
    ensures l[i].off < off < NextOff(size, l, i) ==> off != l[j].off
  {
    if i < j { Ordered(size, l, i, j); }
    if j < i { Ordered(size, l, j, i); }
    InHeap(size, l, j);
    InHeap(size, l, i);
  }

  /** Block `i` leaves the chain: the block before it is linked to the one after it. */
  lemma RemoveChained(size: nat, l: seq<Node>, i: nat, next: map<nat, nat>, prev: map<nat, nat>, used: map<nat, bool>)
    requires Tiled(size, l) && Chained(size, l, next, prev, used) && 0 < i < |l|
    ensures Chained(size, l[..i] + l[i + 1..], next[l[i - 1].off := NextOff(size, l, i)],
                    prev[NextOff(size, l, i) := l[i - 1].off], used)
  {
    var r := l[..i] + l[i + 1..];
    var next', prev' := next[l[i - 1].off := NextOff(size, l, i)], prev[NextOff(size, l, i) := l[i - 1].off];
    forall k | 0 <= k < |r| ensures HeaderOk(size, r, k, next', prev', used) {
      RemovedHeader(size, l, i, next, prev, used, k);
    }
    InHeap(size, l, i - 1);
  }

  lemma RemovedHeader(size: nat, l: seq<Node>, i: nat, next: map<nat, nat>, prev: map<nat, nat>, used: map<nat, bool>, k: nat)
    requires Tiled(size, l) && Chained(size, l, next, prev, used) && 0 < i < |l| && k < |l| - 1
    ensures HeaderOk(size, l[..i] + l[i + 1..], k, next[l[i - 1].off := NextOff(size, l, i)],
                     prev[NextOff(size, l, i) := l[i - 1].off], used)
  {
    hide Tiled;
    var r, j := l[..i] + l[i + 1..], if k < i then k else k + 1;
    assert r[k] == l[j] && HeaderOk(size, l, j, next, prev, used);
    Separate(size, l, i - 1, j, 0);
    if i + 1 < |l| { Separate(size, l, i + 1, j, 0); }
  }

  lemma MarkChained(size: nat, l: seq<Node>, i: nat, u: bool, next: map<nat, nat>, prev: map<nat, nat>, used: map<nat, bool>)
    requires Tiled(size, l) && Chained(size, l, next, prev, used) && i < |l|
    ensures Chained(size, l[i := Node(l[i].off, u)], next, prev, used[l[i].off := u])
  {
    var r, used' := l[i := Node(l[i].off, u)], used[l[i].off := u];
    forall k | 0 <= k < |r| ensures HeaderOk(size, r, k, next, prev, used') {
      assert HeaderOk(size, l, k, next, prev, used);
      Separate(size, l, i, k, 0);
    }
    InHeap(size, l, i);
  }

  ghost function Byte(m: seq<nat>, a: int): nat { if 0 <= a < |m| then m[a] else 0 }

  /** The first bytes of the old block, as many as fit, are in the new one, and no byte outside the
      new block changes. */
  ghost predicate KeepsBytes(m: seq<nat>, r: seq<nat>, from: nat, room: int, n: nat, to: Pointer) {
    && |r| == |m|
    && (forall a :: !(to.At? && to.off <= a < to.off + n) ==> Byte(r, a) == Byte(m, a))
    && (to.At? ==> forall a :: to.off <= a < to.off + n && a < to.off + room ==> Byte(r, a) == Byte(m, a - to.off + from))
  }

  lemma SameBytes(m: seq<nat>, p: Pointer, room: int, n: nat)
    ensures KeepsBytes(m, m, if p.At? then p.off else 0, room, n, Null)
    ensures p.At? ==> KeepsBytes(m, m, p.off, room, n, p)
    ensures forall from: nat, x: int :: KeepsBytes(m, m, from, x, n, Null)
  {
  }

  /** Rounding a request twice is rounding it once. */
  lemma ReallocAgain(size: nat, h: Heap, i: nat, request: nat, n: nat)
    requires i < |h.nodes| && n == AlignUp(request) && AlignUp(n) == n
    ensures SmallMemModel.Realloc(size, h, i, request) == SmallMemModel.Realloc(size, h, i, n)
  {
    hide AlignUp, Room, Plug, Cut;
  }

  lemma SplitsIs(size: nat, l: seq<Node>, i: nat, n: nat)
    requires i < |l|
    ensures Splits(size, l, i, n) <==> NextOff(size, l, i) - l[i].off >= n + 2 * HEADER + MIN_SIZE
  {
  }

  lemma RoomAt(size: nat, l: seq<Node>, i: nat)
    requires i < |l|
    ensures Room(size, l, i) + HEADER == NextOff(size, l, i) - l[i].off
  {
  }

  lemma FirstFreeStep(size: nat, l: seq<Node>, k: nat)
    requires k <= |l|
    ensures FirstFree(size, l, k) == if k == |l| then End(size) else if l[k].used then FirstFree(size, l, k + 1) else l[k].off
  {
  }

  /** The offset of block `i`, or the end. */
  ghost function OffAt(size: nat, l: seq<Node>, i: nat): nat
    requires i <= |l|
  {
    if i < |l| then l[i].off else End(size)
  }

  /** `mem_size_aligned` of a memory region, when `rt_system_heap_init` accepts it. */
  function HeapSize(begin: nat, end: nat): int { AlignDown(end) - AlignUp(begin) - 2 * HEADER }

  class SmallMem {
    const size: nat
    var next: map<nat, nat>
    var prev: map<nat, nat>
    var used: map<nat, bool>
    var lfree: nat
    var usedMem: int
    var maxMem: int
    ghost var nodes: seq<Node>

    ghost function View(): Heap
      reads this
    {
      Heap(nodes, lfree, usedMem, maxMem)
    }

    ghost predicate Linked()
      reads `next, `prev, `used, `nodes
    {
      Tiled(size, nodes) && Chained(size, nodes, next, prev, used)
    }

    ghost predicate Valid()
      reads this
    {
      Inv(size, View()) && Linked()
    }

    /** `rt_system_heap_init` on a region that it accepts */
    constructor (begin: nat, end: nat)
      requires begin + ALIGN <= end < WORD && AlignDown(end) > 2 * HEADER && HeapSize(begin, end) >= 0
      ensures Valid() && size == HeapSize(begin, end) && View() == Init(size)
    {
      var s := HeapSize(begin, end);
      size := s;
      next := map[0 := s + HEADER, s + HEADER := s + HEADER];
      prev := map[0 := 0, s + HEADER := s + HEADER];
      used := map[0 := false, s + HEADER := true];
      lfree, usedMem, maxMem := 0, 0, 0;
      nodes := [Node(0, false)];
      new;
      SizeAligned(begin, end);
      InitOk(size);
    }

    lemma SizeAligned(begin: nat, end: nat)
      requires begin + ALIGN <= end < WORD && HeapSize(begin, end) >= 0
      ensures HeapSize(begin, end) % ALIGN == 0 && HeapSize(begin, end) < WORD - 2 * HEADER
    {
      hide AlignUp;
      AlignUpIs(begin);
      MultipleOfFour(end / ALIGN - AlignUp(begin) / ALIGN - 2 * HEADER / ALIGN);
    }

    lemma MultipleOfFour(k: int)
      ensures 4 * k % 4 == 0
    {
    }

    /** `rt_malloc`, when it returns */
    method Malloc(request: nat) returns (ptr: Pointer)
      requires Valid() && request < WORD && !Spins(size, request)
      modifies this
      ensures Valid() && (View(), ptr) == SmallMemModel.Malloc(size, old(View()), request)
    {
      hide Inv, Linked, Low, AlignUp;
      MallocKeeps(size, View(), request);
      RequestAligned(request);
      if request == 0 {
        return Null;
      }
      var n := AlignUp(request);
      if n > size {
        return Null;
      }
      if n < MIN_SIZE {
        n := MIN_SIZE;
      }
      var mem, found, i := FindFit(n);
      if found {
        TakeBlock(mem, n, i);
        return At(mem + HEADER);
      }
      return Null;
    }

    /** The search of `rt_malloc`. */
    method FindFit(n: nat) returns (mem: nat, found: bool, ghost i: nat)
      requires Valid() && n <= size
      ensures i == Search(size, nodes, Index(nodes, lfree), n) && (found <==> i < |nodes|)
      ensures found ==> mem == nodes[i].off && lfree <= mem
    {
      hide UsedSum, NoFreePair, FreeAt;
      HintIndex(size, View());
      ghost var k := Index(nodes, lfree);
      i := Search(size, nodes, k, n);
      mem := lfree;
      found := false;
      while mem < size - n
        invariant k <= |nodes| && mem == OffAt(size, nodes, k)
        invariant i == Search(size, nodes, k, n) && lfree <= mem
        decreases |nodes| - k
      {
        assert HeaderOk(size, nodes, k, next, prev, used);
        InHeap(size, nodes, k);
        if !used[mem] && next[mem] - (mem + HEADER) >= n {
          found := true;
          break;
        }
        mem := next[mem];
        k := k + 1;
      }
    }

    /** The block is taken, whole or in part, and the hint moves on if it was at the block. */
    method TakeBlock(mem: nat, n: nat, ghost i: nat)
      requires Valid() && i < |nodes| && nodes[i].off == mem && Fits(size, nodes, i, n) && n >= MIN_SIZE && n % ALIGN == 0
      modifies this
      ensures Linked() && View() == Take(size, old(View()), i, n)
    {
      hide Inv, Tiled, Chained, FirstFree;
      RoomIs(i);
      if next[mem] - (mem + HEADER) >= n + HEADER + MIN_SIZE {
        SplitBlock(mem, n, i);
        usedMem := usedMem + (n + HEADER);
      } else {
        UseBlock(mem, i);
        usedMem := usedMem + (next[mem] - mem);
      }
      if maxMem < usedMem {
        maxMem := usedMem;
      }
      if mem == lfree {
        AdvanceHint(i);
      }
    }

    lemma RoomIs(i: nat)
      requires Linked() && i < |nodes|
      ensures nodes[i].off in next && next[nodes[i].off] == NextOff(size, nodes, i) && nodes[i].off in prev
      ensures nodes[i].off in used && used[nodes[i].off] == nodes[i].used
      ensures prev[nodes[i].off] == if i > 0 then nodes[i - 1].off else 0
      ensures Room(size, nodes, i) >= 0
    {
      assert HeaderOk(size, nodes, i, next, prev, used);
    }

    method SplitBlock(mem: nat, n: nat, ghost i: nat)
      requires Linked() && i < |nodes| && nodes[i].off == mem && !nodes[i].used && n > 0 && n % ALIGN == 0 && Splits(size, nodes, i, n)
      modifies this`next, this`prev, this`used, this`nodes
      ensures Linked() && nodes == TakenNodes(size, old(nodes), i, n)
      ensures mem in next
    {
      hide Tiled, Chained, Room;
      ghost var l := nodes;
      var off := mem + HEADER + n;
      CutAligned(size, l, i, n);
      RoomAt(size, l, i);
      SplitsIs(size, l, i, n);
      InsertNode(mem, off, i);
      ghost var m := nodes;
      assert m[i] == Node(mem, false);
      MarkTiles(size, m, i, true);
      MarkChained(size, m, i, true, next, prev, used);
      used := used[mem := true];
      nodes := m[i := Node(mem, true)];
      assert nodes == TakenNodes(size, l, i, n);
      RoomIs(i);
    }

    /** The header of a free block at `off` is written, and linked in after block `i`. */
    method InsertNode(mem: nat, off: nat, ghost i: nat)
      requires Linked() && i < |nodes| && nodes[i].off == mem
      requires mem + HEADER < off && off + HEADER < NextOff(size, nodes, i) && off % ALIGN == 0
      modifies this`next, this`prev, this`used, this`nodes
      ensures Linked() && nodes == old(nodes)[..i + 1] + [Node(off, false)] + old(nodes)[i + 1..]
    {
      hide Tiled, Chained, Room;
      ghost var l := nodes;
      InsertTiles(size, l, i, l[i].used, off);
      assert l[..i + 1] + [Node(off, false)] + l[i + 1..] == l[..i] + [Node(l[i].off, l[i].used), Node(off, false)] + l[i + 1..];
      RoomIs(i);
      EndOnlyLast(i);
      ghost var prev' := if i + 1 < |l| then prev[off := mem][l[i + 1].off := off] else prev[off := mem];
      InsertChained(size, l, i, off, next, prev, used, prev');
      used := used[off := false];
      next := next[off := next[mem]];
      prev := prev[off := mem];
      next := next[mem := off];
      if next[off] != size + HEADER {
        prev := prev[next[off] := off];
      }
      nodes := l[..i + 1] + [Node(off, false)] + l[i + 1..];
    }

    lemma EndOnlyLast(i: nat)
      requires Linked() && i < |nodes|
      ensures NextOff(size, nodes, i) == End(size) <==> i + 1 == |nodes|
    {
      if i + 1 < |nodes| { EndApart(size, nodes, i + 1); }
    }

    method UseBlock(mem: nat, ghost i: nat)
      requires Linked() && i < |nodes| && nodes[i].off == mem
      modifies this`used, this`nodes
      ensures Linked() && nodes == old(nodes)[i := Node(mem, true)] && mem in next && next[mem] == NextOff(size, old(nodes), i)
    {
      MarkTiles(size, nodes, i, true);
      MarkChained(size, nodes, i, true, next, prev, used);
      RoomIs(i);
      used := used[mem := true];
      nodes := nodes[i := Node(mem, true)];
    }

    /** The hint moves to the next free block. */
    method AdvanceHint(ghost i: nat)
      requires Linked() && i < |nodes| && nodes[i].off == lfree
      modifies this`lfree
      ensures lfree == FirstFree(size, nodes, i)
    {
      hide FirstFree, Tiled, Chained;
      ghost var k := i;
      RoomIs(k);
      while used[lfree] && lfree != size + HEADER
        invariant k <= |nodes| && lfree == OffAt(size, nodes, k)
        invariant lfree in used && (k < |nodes| ==> used[lfree] == nodes[k].used)
        invariant FirstFree(size, nodes, i) == FirstFree(size, nodes, k)
        decreases |nodes| - k
      {
        RoomIs(k);
        FirstFreeStep(size, nodes, k);
        lfree := next[lfree];
        k := k + 1;
        if k < |nodes| { RoomIs(k); } else { EndUsed(); }
      }
      FirstFreeStep(size, nodes, k);
      if k < |nodes| { EndApart(size, nodes, k); }
    }

    lemma EndUsed()
      requires Linked()
      ensures End(size) in used
    {
    }

    /** `rt_free`; that a pointer is one to a block in use is what the function asserts. */
    method Free(ptr: Pointer)
      requires Valid() && (ptr.At? ==> Live(nodes, ptr.off))
      modifies this
      ensures Valid()
      ensures View() == if ptr.Null? then old(View()) else SmallMemModel.Free(size, old(View()), Index(old(nodes), ptr.off - HEADER))
    {
      hide Inv, Linked, Low, Index;
      if ptr.Null? {
        return;
      }
      var mem: nat := ptr.off - HEADER;
      ghost var h, i := View(), Index(nodes, mem);
      FreeKeeps(size, h, i);
      UnmarkLoose(size, h, i);
      LinkedNow();
      UnmarkBlock(mem, i);
      PlugHoles(mem, i);
    }

    lemma LinkedNow()
      requires Valid()
      ensures Linked()
    {
    }

    method UnmarkBlock(mem: nat, ghost i: nat)
      requires Linked() && i < |nodes| && nodes[i].off == mem
      modifies this
      ensures Linked() && View() == Unmark(size, old(View()), i)
    {
      hide Tiled, Chained, Room;
      RoomIs(i);
      MarkTiles(size, nodes, i, false);
      MarkChained(size, nodes, i, false, next, prev, used);
      used := used[mem := false];
      if mem < lfree {
        lfree := mem;
      }
      usedMem := usedMem - (next[mem] - mem);
      RoomAt(size, nodes, i);
      nodes := nodes[i := Node(mem, false)];
    }

    /** `plug_holes` */
    method PlugHoles(mem: nat, ghost i: nat)
      requires Linked() && i < |nodes| && nodes[i].off == mem && !nodes[i].used
      modifies this`next, this`prev, this`lfree, this`nodes
      ensures Linked() && View() == Plug(old(View()), i)
    {
      hide Tiled, Chained, Room;
      ghost var h := View();
      RoomIs(i);
      var nmem := next[mem];
      NextIs(i);
      if mem != nmem && !used[nmem] && nmem != size + HEADER {
        if lfree == nmem {
          lfree := mem;
        }
        RoomIs(i + 1);
        RemoveNode(mem, nmem, i + 1);
      }
      assert View() == PlugForward(h, i) && nodes[i] == h.nodes[i];
      RoomIs(i);
      var pmem := prev[mem];
      PreviousIs(i);
      if pmem != mem && !used[pmem] {
        if lfree == mem {
          lfree := pmem;
        }
        RoomIs(i - 1);
        RemoveNode(pmem, mem, i);
      }
    }

    lemma NextIs(i: nat)
      requires Linked() && i < |nodes|
      ensures var x := NextOff(size, nodes, i);
        && x in used && x != nodes[i].off
        && (if i + 1 < |nodes| then x != End(size) && used[x] == nodes[i + 1].used else x == End(size) && used[x])
    {
      InHeap(size, nodes, i);
      if i + 1 < |nodes| {
        RoomIs(i + 1);
        EndApart(size, nodes, i + 1);
      }
    }

    lemma PreviousIs(i: nat)
      requires Linked() && i < |nodes|
      ensures nodes[i].off in prev
      ensures var x := prev[nodes[i].off];
        && x in used && (x != nodes[i].off <==> i > 0) && (i > 0 ==> x == nodes[i - 1].off && used[x] == nodes[i - 1].used)
    {
      RoomIs(i);
      if i > 0 {
        RoomIs(i - 1);
        Ordered(size, nodes, i - 1, i);
      }
    }

    /** Block `i` is merged into the free block before it. */
    method RemoveNode(before: nat, mem: nat, ghost i: nat)
      requires Linked() && 0 < i < |nodes| && nodes[i].off == mem && nodes[i - 1].off == before
      modifies this`next, this`prev, this`nodes
      ensures Linked() && nodes == old(nodes)[..i] + old(nodes)[i + 1..]
    {
      hide Tiled, Chained, Room;
      RoomIs(i);
      RoomIs(i - 1);
      RemoveTiles(size, nodes, i);
      RemoveChained(size, nodes, i, next, prev, used);
      Separate(size, nodes, i - 1, i, 0);
      next := next[before := next[mem]];
      prev := prev[next[mem] := before];
      nodes := nodes[..i] + nodes[i + 1..];
    }

    /** `rt_realloc`; `mem` holds the bytes of the heap by offset.  Offsets are words, so a pointer outside
        the heap, below it or above, has an offset beyond its end; it is handed back, unless too much is
        asked for.  Giving back such a pointer is what `rt_free` asserts not to happen. */
    method Realloc(ptr: Pointer, request: nat, mem: array<nat>) returns (to: Pointer)
      requires Valid() && request < WORD && mem.Length == size + 2 * HEADER
      requires ptr.At? ==> Live(nodes, ptr.off) || (ptr.off >= End(size) && AlignUp(request) > 0)
      requires ptr.Null? ==> !Spins(size, AlignUp(request))
      modifies this, mem
      ensures Valid()
      ensures ptr.Null? ==> (View(), to) == SmallMemModel.Malloc(size, old(View()), AlignUp(request)) && mem[..] == old(mem[..])
      ensures ptr.At? && ptr.off >= End(size) ==>
        View() == old(View()) && mem[..] == old(mem[..]) && to == if AlignUp(request) > size then Null else ptr
      ensures ptr.At? && ptr.off < End(size) ==>
        var i := Index(old(nodes), ptr.off - HEADER);
        && ptr.off >= HEADER && i < |old(nodes)| && (View(), to) == SmallMemModel.Realloc(size, old(View()), i, request)
        && KeepsBytes(old(mem[..]), mem[..], ptr.off, Room(size, old(nodes), i), AlignUp(request), to)
    {
      hide Inv, Linked, Low, Index, KeepsBytes, AlignUp, Room, SmallMemModel.Free, Plug, Cut;
      var n := AlignUp(request);
      RequestWord(request);
      if ptr.At? && Live(nodes, ptr.off) { LiveInside(ptr.off); }
      if n > size {
        SameBytes(mem[..], ptr, 0, n);
        TooLarge(n);
        return Null;
      }
      if n == 0 {
        SameBytes(mem[..], ptr, 0, n);
        Free(ptr);
        return Null;
      }
      if ptr.Null? {
        to := Malloc(n);
        return;
      }
      if ptr.off >= size + HEADER {
        return ptr;
      }
      ghost var i := Index(nodes, ptr.off - HEADER);
      to := Resize(ptr.off - HEADER, n, i, mem);
      ReallocAgain(size, old(View()), i, request, n);
    }

    lemma LiveInside(off: nat)
      requires Valid() && Live(nodes, off)
      ensures HEADER <= off < End(size)
    {
      var i := Index(nodes, off - HEADER);
      InHeap(size, nodes, i);
      RoomAt(size, nodes, i);
    }

    lemma RequestWord(request: nat)
      ensures AlignUp(request) < WORD && AlignUp(request) % ALIGN == 0 && AlignUp(AlignUp(request)) == AlignUp(request)
    {
      AlignUpIs(AlignUp(request));
    }

    lemma TooLarge(n: nat)
      requires n > size && n == AlignUp(n)
      ensures SmallMemModel.Malloc(size, View(), n) == (View(), Null)
    {
    }

    method Resize(mem: nat, n: nat, ghost i: nat, bytes: array<nat>) returns (to: Pointer)
      requires Valid() && i < |nodes| && nodes[i].off == mem && nodes[i].used && 0 < n <= size && n == AlignUp(n)
      requires bytes.Length == size + 2 * HEADER
      modifies this, bytes
      ensures Valid()
      ensures (View(), to) == SmallMemModel.Realloc(size, old(View()), i, n)
      ensures KeepsBytes(old(bytes[..]), bytes[..], mem + HEADER, Room(size, old(nodes), i), n, to)
    {
      hide Inv, Linked, Low, Index, KeepsBytes, AlignUp, Plug, Cut, SmallMemModel.Malloc, SmallMemModel.Free;
      ghost var h := View();
      LinkedNow();
      RoomIs(i);
      RoomAt(size, nodes, i);
      ReallocKeeps(size, h, i, n);
      SameBytes(bytes[..], At(mem + HEADER), Room(size, nodes, i), n);
      var room := next[mem] - mem - HEADER;
      if room == n {
        return At(mem + HEADER);
      }
      if n + HEADER + MIN_SIZE < room {
        AlignedIs(n);
        CutBlock(mem, n, i);
        PlugHoles(mem + HEADER + n, i + 1);
        return At(mem + HEADER);
      }
      to := Move(mem, room, n, i, bytes);
    }

    lemma AlignedIs(n: nat)
      requires n == AlignUp(n)
      ensures n % ALIGN == 0
    {
    }

    method CutBlock(mem: nat, n: nat, ghost i: nat)
      requires Linked() && i < |nodes| && nodes[i].off == mem && n > 0 && n % ALIGN == 0 && n + HEADER + MIN_SIZE < Room(size, nodes, i)
      modifies this
      ensures Linked() && View() == Cut(size, old(View()), i, n)
      ensures i + 1 < |nodes| && nodes[i + 1] == Node(mem + HEADER + n, false)
    {
      hide Chained, Tiled, Room;
      RoomIs(i);
      RoomAt(size, nodes, i);
      CutAligned(size, nodes, i, n);
      usedMem := usedMem - (next[mem] - mem - HEADER - n);
      InsertNode(mem, mem + HEADER + n, i);
    }

    /** A new block is allocated, the bytes are copied, and the old block is freed. */
    method Move(mem: nat, room: nat, n: nat, ghost i: nat, bytes: array<nat>) returns (to: Pointer)
      requires Valid() && i < |nodes| && nodes[i].off == mem && nodes[i].used && 0 < n <= size && n == AlignUp(n)
      requires room == Room(size, nodes, i) && bytes.Length == size + 2 * HEADER
      modifies this, bytes
      ensures Valid()
      ensures var (h1, p) := SmallMemModel.Malloc(size, old(View()), n); var j := Index(h1.nodes, mem);
        && to == p && View() == (if p.Null? || j == |h1.nodes| then h1 else SmallMemModel.Free(size, h1, j))
      ensures KeepsBytes(old(bytes[..]), bytes[..], mem + HEADER, room, n, to)
    {
      hide Inv, Linked, Low, Index, KeepsBytes, AlignUp, Room, SmallMemModel.Malloc, SmallMemModel.Free;
      ghost var h := View();
      SameBytes(bytes[..], Null, room, n);
      SizeInWord();
      UsedRoom(i);
      to := Malloc(n);
      if to.At? {
        StillUsed(size, h, i, n);
        MallocApart(h, i, n);
        CopyBytes(to.off, mem + HEADER, if room < n then room else n, bytes, room, n);
        Free(At(mem + HEADER));
      }
    }

    lemma SizeInWord()
      requires Valid()
      ensures size + 2 * HEADER < WORD
    {
    }

    /** A heap with a used block is large enough for its search to end. */
    lemma UsedRoom(i: nat)
      requires Valid() && i < |nodes| && nodes[i].used
      ensures size >= MIN_SIZE
    {
    }

    /** The new block and an old one share no byte. */
    lemma MallocApart(h: Heap, i: nat, n: nat)
      requires Inv(size, h) && i < |h.nodes| && h.nodes[i].used && n == AlignUp(n) && SmallMemModel.Malloc(size, h, n).1.At?
      ensures var to := SmallMemModel.Malloc(size, h, n).1.off; var from := h.nodes[i].off + HEADER;
        && (to + n + HEADER <= from || from + Room(size, h.nodes, i) + HEADER <= to)
        && to + n <= size + HEADER && from + Room(size, h.nodes, i) <= size + HEADER && Room(size, h.nodes, i) >= 0
      ensures Live(SmallMemModel.Malloc(size, h, n).0.nodes, h.nodes[i].off + HEADER)
    {
      hide NoFreePair, UsedSum, FreeAt, Tiled, Room, AlignUp, Index, Splits, TakenNodes;
      StillUsed(size, h, i, n);
      HintIndex(size, h);
      var m := if n < MIN_SIZE then MIN_SIZE else n;
      var k := Search(size, h.nodes, Index(h.nodes, h.lfree), m);
      if k < i { Ordered(size, h.nodes, k, i); } else { Ordered(size, h.nodes, i, k); }
      InHeap(size, h.nodes, i);
      InHeap(size, h.nodes, k);
      RoomAt(size, h.nodes, i);
      RoomAt(size, h.nodes, k);
    }

    /** `rt_memcpy` between two ranges that do not overlap */
    method CopyBytes(to: nat, from: nat, count: nat, bytes: array<nat>, ghost room: nat, ghost n: nat)
      requires count == (if room < n then room else n) && to + count <= bytes.Length && from + count <= bytes.Length
      requires to + count <= from || from + count <= to
      modifies bytes
      ensures KeepsBytes(old(bytes[..]), bytes[..], from, room, n, At(to))
    {
      for k := 0 to count
        invariant forall x :: 0 <= x < bytes.Length ==> bytes[x] == if to <= x < to + k then old(bytes[x + from - to]) else old(bytes[x])
      {
        bytes[to + k] := bytes[from + k];
      }
    }
  }
}
