/** The page allocator under the slab allocator (`slab.c`): a list of runs of free pages in
    address order.  Pages are numbered. */
module PagesModel {

  datatype Run = Run(start: nat, pages: nat)

  function End(r: Run): nat { r.start + r.pages }

  /** Sorted, disjoint and maximally merged runs. */
  ghost predicate Canonical(l: seq<Run>) {
    && (forall i :: 0 <= i < |l| ==> l[i].pages > 0)
    && (forall i :: 0 <= i < |l| - 1 ==> End(l[i]) < l[i + 1].start)
  }

  /** Page `x` is free. */
  ghost predicate IsFree(l: seq<Run>, x: nat) { exists i :: 0 <= i < |l| && l[i].start <= x < End(l[i]) }

  datatype Pointer = Null | At(page: nat)

  // ----- rt_page_alloc -----

  /** First fit; pages are taken from the front of a run. */
  function Alloc(l: seq<Run>, n: nat): (seq<Run>, Pointer) {
    if n == 0 || l == [] then (l, Null)
    else if l[0].pages > n then ([Run(l[0].start + n, l[0].pages - n)] + l[1..], At(l[0].start))
    else if l[0].pages == n then (l[1..], At(l[0].start))
    else
      var (rest, p) := Alloc(l[1..], n);
      ([l[0]] + rest, p)
  }

  // ----- rt_page_free -----

  function Free(l: seq<Run>, x: nat, n: nat): seq<Run> {
    if l == [] then [Run(x, n)]
    else if End(l[0]) == x then
      if |l| > 1 && x + n == l[1].start then [Run(l[0].start, l[0].pages + n + l[1].pages)] + l[2..]
      else [Run(l[0].start, l[0].pages + n)] + l[1..]
    else if l[0].start == x + n then [Run(x, n + l[0].pages)] + l[1..]
    else if l[0].start > x + n then [Run(x, n)] + l
    else [l[0]] + Free(l[1..], x, n)
  }

  /** The pages `x..x + n` are not free. */
  ghost predicate Apart(l: seq<Run>, x: nat, n: nat) {
    forall i :: 0 <= i < |l| ==> End(l[i]) <= x || x + n <= l[i].start
  }

  // ----- the list is the canonical form of the free pages -----

  lemma {:induction false} Ordered(l: seq<Run>, i: nat, j: nat)
    requires Canonical(l) && i < j < |l|
    ensures End(l[i]) < l[j].start
    decreases j - i
  {
    if i + 1 < j {
      Ordered(l, i, j - 1);
      assert End(l[j - 1]) < l[j].start && l[j - 1].pages > 0;
    }
  }

  lemma TailCanonical(l: seq<Run>)
    requires Canonical(l) && l != []
    ensures Canonical(l[1..]) && forall x: nat :: IsFree(l[1..], x) ==> x > End(l[0])
  {
    forall x: nat | IsFree(l[1..], x) ensures x > End(l[0]) {
      var i :| 0 <= i < |l[1..]| && l[1..][i].start <= x < End(l[1..][i]);
      Ordered(l, 0, i + 1);
    }
  }

  lemma FreeCons(r: Run, l: seq<Run>, x: nat)
    ensures IsFree([r] + l, x) <==> r.start <= x < End(r) || IsFree(l, x)
  {
    var s := [r] + l;
    if r.start <= x < End(r) { assert s[0] == r; }
    if IsFree(l, x) {
      var i :| 0 <= i < |l| && l[i].start <= x < End(l[i]);
      assert s[i + 1] == l[i];
    }
    if IsFree(s, x) {
      var i :| 0 <= i < |s| && s[i].start <= x < End(s[i]);
      if i > 0 { assert l[i - 1] == s[i]; }
    }
  }

  lemma ConsCanonical(r: Run, l: seq<Run>)
    requires Canonical(l) && r.pages > 0 && (l != [] ==> End(r) < l[0].start)
    ensures Canonical([r] + l)
  {
  }

  /** The list is determined by the set of free pages. */
  lemma {:induction false} Unique(a: seq<Run>, b: seq<Run>)
    requires Canonical(a) && Canonical(b) && forall x: nat :: IsFree(a, x) <==> IsFree(b, x)
    ensures a == b
    decreases |a|
  {
    if a == [] || b == [] {
      EmptyBoth(a, b);
    } else {
      SameFirst(a, b);
      TailCanonical(a);
      TailCanonical(b);
      forall x: nat ensures IsFree(a[1..], x) <==> IsFree(b[1..], x) {
        FreeCons(a[0], a[1..], x);
        FreeCons(b[0], b[1..], x);
        assert a == [a[0]] + a[1..] && b == [b[0]] + b[1..];
      }
      Unique(a[1..], b[1..]);
      assert a == [a[0]] + a[1..] && b == [b[0]] + b[1..];
    }
  }

  lemma EmptyBoth(a: seq<Run>, b: seq<Run>)
    requires Canonical(a) && Canonical(b) && (a == [] || b == []) && forall x: nat :: IsFree(a, x) <==> IsFree(b, x)
    ensures a == b
  {
    if a != [] { FirstFree(a); }
    if b != [] { FirstFree(b); }
  }

  lemma SameFirst(a: seq<Run>, b: seq<Run>)
    requires Canonical(a) && Canonical(b) && a != [] && b != [] && forall x: nat :: IsFree(a, x) <==> IsFree(b, x)
    ensures a[0] == b[0]
  {
    FirstFree(a);
    FirstFree(b);
    assert a[0].start == b[0].start;
    NextNotFree(a);
    NextNotFree(b);
    assert IsFree(a, End(b[0])) <==> IsFree(b, End(b[0]));
    assert IsFree(a, End(a[0])) <==> IsFree(b, End(a[0]));
    InFirst(a, End(b[0]));
    InFirst(b, End(a[0]));
  }

  lemma InFirst(l: seq<Run>, x: nat)
    requires l != []
    ensures l[0].start <= x < End(l[0]) ==> IsFree(l, x)
  {
  }

  lemma FirstFree(l: seq<Run>)
    requires Canonical(l) && l != []
    ensures IsFree(l, l[0].start) && forall x: nat :: IsFree(l, x) ==> x >= l[0].start
  {
    assert l[0].start <= l[0].start < End(l[0]);
    forall x: nat | IsFree(l, x) ensures x >= l[0].start {
      var i :| 0 <= i < |l| && l[i].start <= x < End(l[i]);
      if i > 0 { Ordered(l, 0, i); }
    }
  }

  lemma NextNotFree(l: seq<Run>)
    requires Canonical(l) && l != []
    ensures !IsFree(l, End(l[0]))
  {
    if IsFree(l, End(l[0])) {
      var i :| 0 <= i < |l| && l[i].start <= End(l[0]) < End(l[i]);
      if i > 0 { Ordered(l, 0, i); }
    }
  }

  // ----- what the operations do to the free pages -----

  /** The pages `page..page + n` were free in `l`, and are what is missing in `r`. */
  ghost predicate Taken(l: seq<Run>, r: seq<Run>, page: nat, n: nat) {
    && (forall x: nat :: IsFree(r, x) <==> IsFree(l, x) && !(page <= x < page + n))
    && (forall x: nat :: page <= x < page + n ==> IsFree(l, x))
  }

  lemma TakeFirst(l: seq<Run>, n: nat)
    requires Canonical(l) && l != [] && 0 < n < l[0].pages
    ensures var c := Run(l[0].start + n, l[0].pages - n); Canonical([c] + l[1..]) && Taken(l, [c] + l[1..], l[0].start, n)
  {
    hide IsFree;
    var c := Run(l[0].start + n, l[0].pages - n);
    TailCanonical(l);
    ConsCanonical(c, l[1..]);
    assert l == [l[0]] + l[1..];
    forall x: nat ensures IsFree(l, x) <==> l[0].start <= x < End(l[0]) || IsFree(l[1..], x) { FreeCons(l[0], l[1..], x); }
    forall x: nat ensures IsFree([c] + l[1..], x) <==> c.start <= x < End(c) || IsFree(l[1..], x) { FreeCons(c, l[1..], x); }
  }

  lemma TakeWhole(l: seq<Run>)
    requires Canonical(l) && l != []
    ensures Canonical(l[1..]) && Taken(l, l[1..], l[0].start, l[0].pages)
  {
    hide IsFree;
    TailCanonical(l);
    assert l == [l[0]] + l[1..];
    forall x: nat ensures IsFree(l, x) <==> l[0].start <= x < End(l[0]) || IsFree(l[1..], x) { FreeCons(l[0], l[1..], x); }
  }

  lemma TakeLater(l: seq<Run>, rest: seq<Run>, page: nat, n: nat)
    requires Canonical(l) && l != [] && Canonical(rest) && Taken(l[1..], rest, page, n)
    requires rest != [] ==> |l| > 1 && rest[0].start >= l[1].start
    ensures Canonical([l[0]] + rest) && Taken(l, [l[0]] + rest, page, n)
  {
    hide IsFree;
    TailCanonical(l);
    ConsCanonical(l[0], rest);
    var r := [l[0]] + rest;
    assert l == [l[0]] + l[1..];
    forall x: nat
      ensures IsFree(r, x) <==> IsFree(l, x) && !(page <= x < page + n)
      ensures page <= x < page + n ==> IsFree(l, x)
    {
      FreeCons(l[0], l[1..], x);
      FreeCons(l[0], rest, x);
      assert page <= x < page + n ==> IsFree(l[1..], x);
    }
  }

  /** Allocation keeps the canonical form, takes exactly the pages it returns, and they were free. */
  lemma {:induction false} AllocTakes(l: seq<Run>, n: nat)
    requires Canonical(l)
    ensures var (r, p) := Alloc(l, n);
      && Canonical(r) && (if p.Null? then r == l else n > 0 && Taken(l, r, p.page, n))
      && (r != [] ==> l != [] && r[0].start >= l[0].start)
  {
    hide Taken;
    if n > 0 && l != [] {
      TailCanonical(l);
      if l[0].pages > n {
        TakeFirst(l, n);
      } else if l[0].pages == n {
        TakeWhole(l);
        if |l| > 1 { Ordered(l, 0, 1); }
      } else {
        AllocTakes(l[1..], n);
        var (rest, p) := Alloc(l[1..], n);
        if p.At? { TakeLater(l, rest, p.page, n); }
      }
    }
  }

  ghost predicate Consecutive(l: seq<Run>, x: nat, n: nat) { forall k: nat :: x <= k < x + n ==> IsFree(l, k) }

  /** Allocation fails exactly when no `n` consecutive pages are free. */
  lemma {:induction false} AllocFails(l: seq<Run>, n: nat)
    requires Canonical(l) && n > 0
    ensures Alloc(l, n).1.Null? <==> forall x: nat :: !Consecutive(l, x, n)
  {
    AllocTakes(l, n);
    var (r, p) := Alloc(l, n);
    if p.At? {
      assert Consecutive(l, p.page, n);
    } else {
      TooShort(l, n);
      forall x: nat ensures !Consecutive(l, x, n) {
        OneRun(l, x, n);
        var y: nat :| x <= y < x + n && !IsFree(l, y);
      }
    }
  }

  lemma {:induction false} TooShort(l: seq<Run>, n: nat)
    requires n > 0 && Alloc(l, n).1.Null?
    ensures forall i :: 0 <= i < |l| ==> l[i].pages < n
  {
    if l != [] {
      TooShort(l[1..], n);
      assert forall i :: 0 < i < |l| ==> l[i] == l[1..][i - 1];
    }
  }

  /** Consecutive free pages lie in one run. */
  lemma OneRun(l: seq<Run>, x: nat, n: nat)
    requires Canonical(l) && n > 0 && forall i :: 0 <= i < |l| ==> l[i].pages < n
    ensures exists y: nat :: x <= y < x + n && !IsFree(l, y)
  {
    if IsFree(l, x) {
      var i :| 0 <= i < |l| && l[i].start <= x < End(l[i]);
      RunEnds(l, i);
    }
  }

  lemma RunEnds(l: seq<Run>, i: nat)
    requires Canonical(l) && i < |l|
    ensures !IsFree(l, End(l[i]))
  {
    if IsFree(l, End(l[i])) {
      var j :| 0 <= j < |l| && l[j].start <= End(l[i]) < End(l[j]);
      if j < i { Ordered(l, j, i); }
      if i < j { Ordered(l, i, j); }
    }
  }

  /** Freeing keeps the canonical form and adds exactly the pages that are freed. */
  lemma {:induction false} FreeAdds(l: seq<Run>, x: nat, n: nat)
    requires Canonical(l) && Apart(l, x, n) && n > 0
    ensures var r := Free(l, x, n);
      && Canonical(r) && r != [] && (r[0].start == x || (l != [] && r[0].start == l[0].start))
      && (forall k: nat :: IsFree(r, k) <==> IsFree(l, k) || x <= k < x + n)
  {
    hide IsFree;
    var r := Free(l, x, n);
    if l == [] {
      assert r == [Run(x, n)] + l;
      forall k: nat ensures IsFree(r, k) <==> IsFree(l, k) || x <= k < x + n { FreeCons(Run(x, n), l, k); }
    } else {
      TailCanonical(l);
      assert l == [l[0]] + l[1..];
      forall k: nat ensures IsFree(l, k) <==> l[0].start <= k < End(l[0]) || IsFree(l[1..], k) { FreeCons(l[0], l[1..], k); }
      if End(l[0]) == x {
        FreeAfter(l, x, n);
      } else if l[0].start == x + n {
        var c := Run(x, n + l[0].pages);
        ConsCanonical(c, l[1..]);
        forall k: nat ensures IsFree(r, k) <==> c.start <= k < End(c) || IsFree(l[1..], k) { FreeCons(c, l[1..], k); }
      } else if l[0].start > x + n {
        var c := Run(x, n);
        ConsCanonical(c, l);
        forall k: nat ensures IsFree(r, k) <==> c.start <= k < End(c) || IsFree(l, k) { FreeCons(c, l, k); }
      } else {
        FreeAdds(l[1..], x, n);
        var rest := Free(l[1..], x, n);
        ConsCanonical(l[0], rest);
        forall k: nat ensures IsFree(r, k) <==> l[0].start <= k < End(l[0]) || IsFree(rest, k) { FreeCons(l[0], rest, k); }
      }
    }
  }

  /** Freeing right after the first run. */
  lemma FreeAfter(l: seq<Run>, x: nat, n: nat)
    requires Canonical(l) && Apart(l, x, n) && n > 0 && l != [] && End(l[0]) == x
    ensures var r := Free(l, x, n);
      && Canonical(r) && (forall k: nat :: IsFree(r, k) <==> IsFree(l, k) || x <= k < x + n)
  {
    hide IsFree;
    var r := Free(l, x, n);
    TailCanonical(l);
    assert l == [l[0]] + l[1..];
    forall k: nat ensures IsFree(l, k) <==> l[0].start <= k < End(l[0]) || IsFree(l[1..], k) { FreeCons(l[0], l[1..], k); }
    if |l| > 1 && x + n == l[1].start {
      TailCanonical(l[1..]);
      assert l[1..] == [l[1]] + l[2..] && l[1..][1..] == l[2..];
      var c := Run(l[0].start, l[0].pages + n + l[1].pages);
      ConsCanonical(c, l[2..]);
      forall k: nat ensures IsFree(l[1..], k) <==> l[1].start <= k < End(l[1]) || IsFree(l[2..], k) { FreeCons(l[1], l[2..], k); }
      forall k: nat ensures IsFree(r, k) <==> c.start <= k < End(c) || IsFree(l[2..], k) { FreeCons(c, l[2..], k); }
    } else {
      var c := Run(l[0].start, l[0].pages + n);
      ConsCanonical(c, l[1..]);
      forall k: nat ensures IsFree(r, k) <==> c.start <= k < End(c) || IsFree(l[1..], k) { FreeCons(c, l[1..], k); }
    }
  }

  /** Freeing what was just allocated restores the very same list. */
  lemma FreeUndoesAlloc(l: seq<Run>, n: nat)
    requires Canonical(l) && Alloc(l, n).1.At?
    ensures var (r, p) := Alloc(l, n); Apart(r, p.page, n) && Free(r, p.page, n) == l
  {
    AllocTakes(l, n);
    var (r, p) := Alloc(l, n);
    NotFreeApart(r, p.page, n);
    FreeAdds(r, p.page, n);
    Unique(Free(r, p.page, n), l);
  }

  lemma NotFreeApart(l: seq<Run>, x: nat, n: nat)
    requires Canonical(l) && n > 0 && forall k: nat :: x <= k < x + n ==> !IsFree(l, k)
    ensures Apart(l, x, n)
  {
    forall i | 0 <= i < |l| ensures End(l[i]) <= x || x + n <= l[i].start {
      InRun(l, i, if l[i].start > x then l[i].start else x);
    }
  }

  lemma InRun(l: seq<Run>, i: nat, k: nat)
    requires i < |l|
    ensures l[i].start <= k < End(l[i]) ==> IsFree(l, k)
  {
  }
}

module Pages {
  import opened PagesModel

  const NULL: int := -1

  ghost function First(l: seq<Run>): int { if l == [] then NULL else l[0].start }

  /** The links and counts in the heads of the free runs. */
  ghost predicate Linked(l: seq<Run>, next: map<nat, int>, count: map<nat, nat>) {
    forall i :: 0 <= i < |l| ==> HeadOk(l, i, next, count)
  }

  ghost predicate HeadOk(l: seq<Run>, i: nat, next: map<nat, int>, count: map<nat, nat>)
    requires i < |l|
  {
    var x := l[i].start;
    x in next && next[x] == First(l[i + 1..]) && x in count && count[x] == l[i].pages
  }

  /** `a` before the loop's position, `l` from it on. */
  lemma {:induction false} AllocPast(a: seq<Run>, l: seq<Run>, n: nat)
    requires n > 0 && forall i :: 0 <= i < |a| ==> a[i].pages < n
    ensures Alloc(a + l, n) == (a + Alloc(l, n).0, Alloc(l, n).1)
    decreases |a|
  {
    if a == [] {
      assert a + l == l && a + Alloc(l, n).0 == Alloc(l, n).0;
    } else {
      AllocPast(a[1..], l, n);
      assert (a + l)[1..] == a[1..] + l;
      assert [a[0]] + (a[1..] + Alloc(l, n).0) == a + Alloc(l, n).0;
    }
  }

  /** What a search that has come to position `i` will find. */
  lemma AllocAt(l: seq<Run>, i: nat, n: nat)
    requires n > 0 && i <= |l| && forall k :: 0 <= k < i ==> l[k].pages < n
    ensures i == |l| ==> Alloc(l, n) == (l, Null)
    ensures i < |l| && l[i].pages > n ==>
      Alloc(l, n) == (l[..i] + ([Run(l[i].start + n, l[i].pages - n)] + l[i + 1..]), At(l[i].start))
    ensures i < |l| && l[i].pages == n ==> Alloc(l, n) == (l[..i] + l[i + 1..], At(l[i].start))
  {
    AllocPast(l[..i], l[i..], n);
    assert l == l[..i] + l[i..];
    if i < |l| { assert l[i..][0] == l[i] && l[i..][1..] == l[i + 1..]; }
  }

  /** Run `i` takes in the freed pages after it and, when it is adjacent, the next run. */
  ghost function Extended(l: seq<Run>, i: nat, x: nat, n: nat): seq<Run>
    requires i < |l|
  {
    if i + 1 < |l| && x + n == l[i + 1].start
    then l[..i] + ([Run(l[i].start, l[i].pages + n + l[i + 1].pages)] + l[i + 2..])
    else l[..i] + ([Run(l[i].start, l[i].pages + n)] + l[i + 1..])
  }

  lemma FreeAt(l: seq<Run>, i: nat, x: nat, n: nat)
    requires i <= |l| && forall k :: 0 <= k < i ==> End(l[k]) != x && l[k].start < x + n
    ensures i == |l| ==> Free(l, x, n) == l[..i] + ([Run(x, n)] + l[i..])
    ensures i < |l| && End(l[i]) == x ==> Free(l, x, n) == Extended(l, i, x, n)
    ensures i < |l| && End(l[i]) != x && l[i].start == x + n ==> Free(l, x, n) == l[..i] + ([Run(x, n + l[i].pages)] + l[i + 1..])
    ensures i < |l| && End(l[i]) != x && l[i].start > x + n ==> Free(l, x, n) == l[..i] + ([Run(x, n)] + l[i..])
  {
    FreePast(l[..i], l[i..], x, n);
    assert l == l[..i] + l[i..];
    if i < |l| { assert l[i..][0] == l[i] && l[i..][1..] == l[i + 1..] && (i + 1 < |l| ==> l[i..][1] == l[i + 1] && l[i..][2..] == l[i + 2..]); }
  }

  /** Run `i` becomes `c` with the same start, and the runs up to `j` go. */
  lemma ReplaceHead(l: seq<Run>, i: nat, j: nat, c: Run, next: map<nat, int>, count: map<nat, nat>)
    requires Canonical(l) && Linked(l, next, count) && i < j <= |l| && c.start == l[i].start
    ensures Linked(l[..i] + ([c] + l[j..]), next[c.start := First(l[j..])], count[c.start := c.pages])
  {
    var r, next', count' := l[..i] + ([c] + l[j..]), next[c.start := First(l[j..])], count[c.start := c.pages];
    SameTail(l, j, r, i + 1, next, count);
    forall k | 0 <= k < |r| ensures HeadOk(r, k, next', count') {
      if k < i {
        assert HeadOk(l, k, next, count) && r[k + 1..][0] == r[k + 1] && l[k + 1..][0] == l[k + 1];
        Distinct(l, k, i);
      } else if k == i {
        assert r[i + 1..] == l[j..];
      } else {
        assert HeadOk(r, k, next, count);
      }
    }
  }

  lemma FreshOutside(l: seq<Run>, x: nat, n: nat, next: map<nat, int>, count: map<nat, nat>, to: int, m: nat)
    requires Canonical(l) && Linked(l, next, count) && Apart(l, x, n) && n > 0
    ensures Linked(l, next[x := to], count[x := m]) && forall k :: 0 <= k < |l| ==> l[k].start != x
  {
    forall k | 0 <= k < |l| ensures l[k].start != x && HeadOk(l, k, next[x := to], count[x := m]) {
      assert HeadOk(l, k, next, count) && l[k].pages > 0;
    }
  }

  /** The heads of a common tail. */
  lemma SameTail(l: seq<Run>, j: nat, r: seq<Run>, i: nat, next: map<nat, int>, count: map<nat, nat>)
    requires Canonical(l) && Linked(l, next, count) && j <= |l| && i <= |r| && r[i..] == l[j..]
    ensures forall k :: i <= k < |r| ==> HeadOk(r, k, next, count)
    ensures forall k, m :: i <= k < |r| && 0 <= m < j ==> r[k].start != l[m].start
  {
    forall k | i <= k < |r| ensures HeadOk(r, k, next, count) {
      assert r[i..][k - i] == r[k] && l[j..][k - i] == l[j + k - i];
      assert r[k + 1..] == r[i..][k - i + 1..] == l[j + k - i + 1..];
      assert HeadOk(l, j + k - i, next, count);
    }
    forall k, m | i <= k < |r| && 0 <= m < j ensures r[k].start != l[m].start {
      assert r[i..][k - i] == r[k] && l[j..][k - i] == l[j + k - i];
      Distinct(l, j + k - i, m);
    }
  }

  /** A head written inside a run disturbs no other. */
  lemma FreshHead(l: seq<Run>, i: nat, m: nat, next: map<nat, int>, count: map<nat, nat>, to: int, n: nat)
    requires Canonical(l) && Linked(l, next, count) && i < |l| && l[i].start < m <= End(l[i])
    ensures Linked(l, next[m := to], count[m := n]) && forall k :: 0 <= k < |l| ==> l[k].start != m
  {
    forall k | 0 <= k < |l| ensures l[k].start != m && HeadOk(l, k, next[m := to], count[m := n]) {
      assert HeadOk(l, k, next, count);
      if k < i { Ordered(l, k, i); }
      if i < k { Ordered(l, i, k); }
    }
  }

  lemma {:induction false} FreePast(a: seq<Run>, l: seq<Run>, x: nat, n: nat)
    requires forall i :: 0 <= i < |a| ==> End(a[i]) != x && a[i].start < x + n
    ensures Free(a + l, x, n) == a + Free(l, x, n)
    decreases |a|
  {
    if a == [] {
      assert a + l == l && a + Free(l, x, n) == Free(l, x, n);
    } else {
      FreePast(a[1..], l, x, n);
      assert (a + l)[1..] == a[1..] + l;
      assert [a[0]] + (a[1..] + Free(l, x, n)) == a + Free(l, x, n);
    }
  }

  lemma Distinct(l: seq<Run>, i: nat, j: nat)
    requires Canonical(l) && i < |l| && j < |l|
    ensures l[i].start == l[j].start <==> i == j
  {
    if i < j { Ordered(l, i, j); }
    if j < i { Ordered(l, j, i); }
  }

  /** A new list that agrees with the old one before position `i`, and is right from there on. */
  lemma RelinkedFrom(l: seq<Run>, r: seq<Run>, i: nat, next: map<nat, int>, count: map<nat, nat>,
                     next': map<nat, int>, count': map<nat, nat>)
    requires i <= |l| && i <= |r| && l[..i] == r[..i] && Linked(l, next, count)
    requires forall k :: 0 <= k < i - 1 ==> SameHead(l[k].start, next, count, next', count')
    requires i > 0 ==> var x := l[i - 1].start; x in next' && next'[x] == First(r[i..]) && x in count' && count'[x] == l[i - 1].pages
    requires forall k :: i <= k < |r| ==> HeadOk(r, k, next', count')
    ensures Linked(r, next', count')
  {
    forall k | 0 <= k < |r| ensures HeadOk(r, k, next', count') {
      if k < i {
        assert r[k] == r[..i][k] == l[k];
        assert HeadOk(l, k, next, count);
        if k < i - 1 {
          assert l[k + 1..][0] == l[k + 1] == l[..i][k + 1] == r[k + 1];
        }
      }
    }
  }

  ghost predicate SameHead(x: nat, next: map<nat, int>, count: map<nat, nat>, next': map<nat, int>, count': map<nat, nat>) {
    (x in next ==> x in next' && next'[x] == next[x]) && (x in count ==> x in count' && count'[x] == count[x])
  }

  class PageList {
    var list: int
    var next: map<nat, int>
    var count: map<nat, nat>
    ghost var runs: seq<Run>

    ghost predicate Valid()
      reads this
    {
      Canonical(runs) && list == First(runs) && Linked(runs, next, count)
    }

    /** `rt_page_init` */
    constructor (first: nat, pages: nat)
      requires pages > 0
      ensures Valid() && runs == [Run(first, pages)]
    {
      list, next, count, runs := NULL, map[], map[], [];
      new;
      Free(first, pages);
    }

    /** An assignment through the pointer of the loop: to the list head, or to the link of the run
        before position `i`. */
    method SetLink(before: int, to: int, ghost i: nat, ghost r: seq<Run>)
      requires i <= |runs| && i <= |r| && Canonical(runs) && Linked(runs, next, count) && runs[..i] == r[..i]
      requires before == (if i == 0 then NULL else runs[i - 1].start) && to == First(r[i..]) && list == First(runs)
      requires forall k :: i <= k < |r| ==> HeadOk(r, k, next, count) && (i > 0 ==> r[k].start != runs[i - 1].start)
      modifies this`list, this`next
      ensures list == First(r) && Linked(r, next, count)
    {
      ghost var l, next0, count0 := runs, next, count;
      if before == NULL {
        list := to;
        assert r[0..] == r;
      } else {
        assert HeadOk(l, i - 1, next0, count0);
        next := next[before := to];
        assert r[0] == r[..i][0] == l[..i][0] == l[0];
      }
      forall k | 0 <= k < i - 1 ensures SameHead(l[k].start, next0, count0, next, count0) { Distinct(l, k, i - 1); }
      forall k | i <= k < |r| ensures HeadOk(r, k, next, count0) { assert HeadOk(r, k, next0, count0); }
      RelinkedFrom(l, r, i, next0, count0, next, count0);
    }

    lemma HeadIs(i: nat)
      requires Linked(runs, next, count) && i < |runs|
      ensures HeadOk(runs, i, next, count)
    {
    }

    /** `rt_page_alloc` */
    method Alloc(n: nat) returns (p: Pointer)
      requires Valid()
      modifies this
      ensures Valid() && (runs, p) == PagesModel.Alloc(old(runs), n)
    {
      hide Canonical, PagesModel.Alloc, Taken;
      AllocTakes(runs, n);
      if n == 0 {
        NoPages(runs);
        return Null;
      }
      var before, b := NULL, list;
      ghost var i := 0;
      assert runs[0..] == runs;
      while b != NULL
        invariant Valid() && runs == old(runs) && i <= |runs| && b == First(runs[i..])
        invariant before == if i == 0 then NULL else runs[i - 1].start
        invariant forall k :: 0 <= k < i ==> runs[k].pages < n
        decreases |runs| - i
      {
        assert HeadOk(runs, i, next, count);
        AllocAt(runs, i, n);
        if count[b] > n {
          SplitRun(before, b, n, i);
          return At(b);
        }
        if count[b] == n {
          DropRun(before, b, i);
          return At(b);
        }
        before := b;
        b := next[b];
        i := i + 1;
      }
      AllocAt(runs, i, n);
      return Null;
    }

    lemma NoPages(l: seq<Run>)
      ensures PagesModel.Alloc(l, 0) == (l, Null)
    {
    }

    method SplitRun(before: int, b: nat, n: nat, ghost i: nat)
      requires Valid() && i < |runs| && b == runs[i].start && 0 < n < runs[i].pages
      requires before == if i == 0 then NULL else runs[i - 1].start
      requires Canonical(runs[..i] + ([Run(b + n, runs[i].pages - n)] + runs[i + 1..]))
      modifies this
      ensures Valid() && runs == old(runs)[..i] + ([Run(b + n, old(runs)[i].pages - n)] + old(runs)[i + 1..])
    {
      ghost var l := runs;
      ghost var r := l[..i] + ([Run(b + n, l[i].pages - n)] + l[i + 1..]);
      hide Canonical, Linked;
      HeadIs(i);
      FreshHead(l, i, b + n, next, count, next[b], count[b] - n);
      var m := b + n;
      next := next[m := next[b]];
      count := count[m := count[b] - n];
      assert r[i + 1..] == l[i + 1..] && r[..i] == l[..i];
      SameTail(l, i + 1, r, i + 1, next, count);
      assert HeadOk(r, i, next, count);
      SetLink(before, m, i, r);
      runs := r;
    }

    method DropRun(before: int, b: nat, ghost i: nat)
      requires Valid() && i < |runs| && b == runs[i].start
      requires before == if i == 0 then NULL else runs[i - 1].start
      requires Canonical(runs[..i] + runs[i + 1..])
      modifies this
      ensures Valid() && runs == old(runs)[..i] + old(runs)[i + 1..]
    {
      ghost var l := runs;
      ghost var r := l[..i] + l[i + 1..];
      HeadIs(i);
      assert r[i..] == l[i + 1..] && r[..i] == l[..i];
      SameTail(l, i + 1, r, i, next, count);
      SetLink(before, next[b], i, r);
      runs := r;
    }

    /** `rt_page_free`; that the pages are not free is what the function asserts. */
    method Free(x: nat, n: nat)
      requires Valid() && n > 0 && Apart(runs, x, n)
      modifies this
      ensures Valid() && runs == PagesModel.Free(old(runs), x, n)
    {
      hide Canonical, Linked, PagesModel.Free, Apart, IsFree;
      FreeAdds(runs, x, n);
      var before, b := NULL, list;
      ghost var i := 0;
      assert runs[0..] == runs;
      while b != NULL
        invariant Valid() && Apart(runs, x, n) && runs == old(runs) && i <= |runs| && b == First(runs[i..])
        invariant before == if i == 0 then NULL else runs[i - 1].start
        invariant forall k :: 0 <= k < i ==> End(runs[k]) != x && runs[k].start < x + n
        decreases |runs| - i
      {
        HeadIs(i);
        FreeAt(runs, i, x, n);
        if b + count[b] == x {
          Extend(b, x, n, i);
          return;
        }
        if b == x + n {
          TakeOver(before, b, x, n, i);
          return;
        }
        if b > x + n {
          break;
        }
        before := b;
        b := next[b];
        i := i + 1;
      }
      FreeAt(runs, i, x, n);
      InsertRun(before, b, x, n, i);
    }

    /** Run `i` ends where the freed pages begin; the next run may begin where they end. */
    method Extend(b: nat, x: nat, n: nat, ghost i: nat)
      requires Valid() && i < |runs| && b == runs[i].start && End(runs[i]) == x
      requires Canonical(Extended(runs, i, x, n))
      modifies this
      ensures Valid() && runs == Extended(old(runs), i, x, n)
    {
      hide Canonical, Linked;
      ghost var l := runs;
      HeadIs(i);
      if i + 1 < |l| {
        HeadIs(i + 1);
        Distinct(l, i, i + 1);
      }
      count := count[b := count[b] + n];
      if b + count[b] == next[b] {
        var c: nat := next[b];
        ReplaceHead(l, i, i + 2, Run(b, l[i].pages + n + l[i + 1].pages), next, old(count));
        count := count[b := count[b] + count[c]];
        next := next[b := next[c]];
        assert count == old(count)[b := l[i].pages + n + l[i + 1].pages];
      } else {
        ReplaceHead(l, i, i + 1, Run(b, l[i].pages + n), next, old(count));
        assert next == next[b := next[b]];
      }
      runs := Extended(l, i, x, n);
      assert |runs| > 0 && runs[0].start == l[0].start;
    }

    /** The freed pages end where the run begins, and it starts with them. */
    method TakeOver(before: int, b: nat, x: nat, n: nat, ghost i: nat)
      requires Valid() && i < |runs| && b == runs[i].start == x + n && n > 0 && Apart(runs, x, n)
      requires before == if i == 0 then NULL else runs[i - 1].start
      requires Canonical(runs[..i] + ([Run(x, n + runs[i].pages)] + runs[i + 1..]))
      modifies this
      ensures Valid() && runs == old(runs)[..i] + ([Run(x, n + old(runs)[i].pages)] + old(runs)[i + 1..])
    {
      hide Canonical, Linked, Apart;
      ghost var l := runs;
      ghost var r := l[..i] + ([Run(x, n + l[i].pages)] + l[i + 1..]);
      HeadIs(i);
      FreshOutside(l, x, n, next, count, next[b], count[b] + n);
      count := count[x := count[b] + n];
      next := next[x := next[b]];
      assert r[i + 1..] == l[i + 1..] && r[..i] == l[..i];
      SameTail(l, i + 1, r, i + 1, next, count);
      assert HeadOk(r, i, next, count);
      SetLink(before, x, i, r);
      runs := r;
    }

    /** The freed pages become a run of their own. */
    method InsertRun(before: int, b: int, x: nat, n: nat, ghost i: nat)
      requires Valid() && i <= |runs| && b == First(runs[i..]) && n > 0 && Apart(runs, x, n)
      requires before == if i == 0 then NULL else runs[i - 1].start
      requires Canonical(runs[..i] + ([Run(x, n)] + runs[i..]))
      modifies this
      ensures Valid() && runs == old(runs)[..i] + ([Run(x, n)] + old(runs)[i..])
    {
      hide Canonical, Linked, Apart;
      ghost var l := runs;
      ghost var r := l[..i] + ([Run(x, n)] + l[i..]);
      FreshOutside(l, x, n, next, count, b, n);
      count := count[x := n];
      next := next[x := b];
      assert r[i + 1..] == l[i..] && r[..i] == l[..i];
      SameTail(l, i, r, i + 1, next, count);
      assert HeadOk(r, i, next, count);
      SetLink(before, x, i, r);
      runs := r;
    }
  }
}
