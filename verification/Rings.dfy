/** The intrusive circular doubly linked list of `rtservice.h`, on which the ready lists,
    the wait lists, the timer rows and the block lists of the allocators rest.

    The `next` and `prev` words of all nodes are two maps from nodes to nodes.  A ring is a
    sequence of distinct nodes in which each node's `next` is its successor and each
    successor's `prev` leads back. */
module Rings {

  function Succ(i: nat, n: nat): nat { if i + 1 == n then 0 else i + 1 }

  ghost predicate NoDup<N>(s: seq<N>) {
    forall i, j :: 0 <= i < j < |s| ==> s[i] != s[j]
  }

  ghost predicate Link<N>(next: map<N, N>, prev: map<N, N>, a: N, b: N) {
    a in next && next[a] == b && b in prev && prev[b] == a
  }

  ghost predicate IsRing<N>(next: map<N, N>, prev: map<N, N>, s: seq<N>) {
    && NoDup(s)
    && forall i :: 0 <= i < |s| ==> Link(next, prev, s[i], s[Succ(i, |s|)])
  }

  function Without<N(==, !new)>(s: seq<N>, x: N): (r: seq<N>)
    ensures x !in r
    ensures forall y :: y in r <==> y in s && y != x
    ensures x !in s ==> r == s
  {
    if s == [] then []
    else if s[0] == x then Without(s[1..], x)
    else [s[0]] + Without(s[1..], x)
  }

  function IndexOf<N(==)>(s: seq<N>, x: N): (i: nat)
    requires x in s
    ensures i < |s| && s[i] == x && x !in s[..i]
  {
    if s[0] == x then 0 else 1 + IndexOf(s[1..], x)
  }

  /** In a list without repetitions, taking out `s[i]` is cutting at `i`. */
  lemma {:induction false} WithoutAt<N(!new)>(s: seq<N>, i: nat)
    requires NoDup(s) && i < |s|
    ensures Without(s, s[i]) == s[..i] + s[i + 1..]
  {
    if i == 0 {
      assert s[0] !in s[1..];
    } else {
      WithoutAt(s[1..], i - 1);
      assert s[..i] == [s[0]] + s[1..][..i - 1];
      assert s[1..][i..] == s[i + 1..];
    }
  }

  lemma WithoutIndex<N(!new)>(s: seq<N>, i: nat)
    requires NoDup(s) && i < |s|
    ensures var r := Without(s, s[i]);
      |r| == |s| - 1 && forall j {:trigger r[j]} :: 0 <= j < |r| ==> r[j] == if j < i then s[j] else s[j + 1]
  {
    WithoutAt(s, i);
  }

  lemma {:induction false} WithoutKeepsNoDup<N(!new)>(s: seq<N>, x: N)
    requires NoDup(s)
    ensures NoDup(Without(s, x))
  {
    if x in s {
      WithoutAt(s, IndexOf(s, x));
    }
  }

  /** The links of a ring after `rt_list_insert_after(s[i], n)`. */
  lemma InsertAfterIsRing<N>(next: map<N, N>, prev: map<N, N>, s: seq<N>, i: nat, n: N)
    requires IsRing(next, prev, s) && i < |s| && n !in s
    ensures Link(next, prev, s[i], s[Succ(i, |s|)])
    ensures IsRing(next[n := next[s[i]]][s[i] := n], prev[next[s[i]] := n][n := s[i]],
                   s[..i + 1] + [n] + s[i + 1..])
  {
    var a, b := s[i], s[Succ(i, |s|)];
    assert Link(next, prev, a, b);
    var r := s[..i + 1] + [n] + s[i + 1..];
    var next', prev' := next[n := b][a := n], prev[b := n][n := a];
    forall k | 0 <= k < |r|
      ensures Link(next', prev', r[k], r[Succ(k, |r|)])
    {
      if k == i {
      } else if k == i + 1 {
        assert r[Succ(k, |r|)] == b;
      } else {
        var j := if k < i then k else k - 1;
        assert r[k] == s[j] && r[Succ(k, |r|)] == s[Succ(j, |s|)];
        assert Link(next, prev, s[j], s[Succ(j, |s|)]);
        assert s[Succ(j, |s|)] != b && s[j] != a;
      }
    }
  }

  /** The links of a ring after `rt_list_remove(s[i])`: the node leaves the ring and is left as
      a ring of its own; a node that was alone is not changed. */
  lemma RemoveIsRing<N>(next: map<N, N>, prev: map<N, N>, s: seq<N>, i: nat)
    requires IsRing(next, prev, s) && i < |s|
    ensures var p := if i == 0 then |s| - 1 else i - 1;
            Link(next, prev, s[p], s[i]) && Link(next, prev, s[i], s[Succ(i, |s|)])
    ensures
      var n := s[i];
      var next', prev' := next[prev[n] := next[n]][n := n], prev[next[n] := prev[n]][n := n];
      && IsRing(next', prev', [n])
      && IsRing(next', prev', s[..i] + s[i + 1..])
      && (|s| == 1 ==> next' == next && prev' == prev)
  {
    var n := s[i];
    var p := if i == 0 then |s| - 1 else i - 1;
    var a, b := s[p], s[Succ(i, |s|)];
    assert Succ(p, |s|) == i;
    assert Link(next, prev, a, n) && Link(next, prev, n, b);
    var next', prev' := next[a := b][n := n], prev[b := a][n := n];
    var r := s[..i] + s[i + 1..];
    forall k | 0 <= k < |r|
      ensures Link(next', prev', r[k], r[Succ(k, |r|)])
    {
      var j := if k < i then k else k + 1;
      assert r[k] == s[j];
      if j == p {
        assert r[Succ(k, |r|)] == b;
      } else {
        assert r[Succ(k, |r|)] == s[Succ(j, |s|)];
        assert Link(next, prev, s[j], s[Succ(j, |s|)]);
        assert s[Succ(j, |s|)] != n && s[Succ(j, |s|)] != b && s[j] != a;
      }
    }
  }

  /** The links of a ring from which `s[i]` is cut without touching its own links. */
  lemma CutIsRing<N(!new)>(next: map<N, N>, prev: map<N, N>, s: seq<N>, i: nat)
    requires IsRing(next, prev, s) && i < |s| && |s| > 1
    ensures s[i] in next && s[i] in prev && next[s[i]] in prev && prev[s[i]] in next
    ensures var n := s[i]; IsRing(next[prev[n] := next[n]], prev[next[n] := prev[n]], s[..i] + s[i + 1..])
  {
    RemoveIsRing(next, prev, s, i);
    var n, r := s[i], s[..i] + s[i + 1..];
    var next1, prev1 := next[prev[n] := next[n]], prev[next[n] := prev[n]];
    assert forall x :: x in r ==> x != n;
    RingFrame(next1[n := n], prev1[n := n], next1, prev1, r, [n]);
  }

  /** Rings are separate: links changed only at nodes outside a ring leave it alone. */
  lemma RingFrame<N(!new)>(next: map<N, N>, prev: map<N, N>, next': map<N, N>, prev': map<N, N>, s: seq<N>, t: seq<N>)
    requires IsRing(next, prev, s)
    requires SameOutside(next, next', t) && SameOutside(prev, prev', t)
    requires forall x :: x in s ==> x !in t
    ensures IsRing(next', prev', s)
  {
    forall i | 0 <= i < |s|
      ensures Link(next', prev', s[i], s[Succ(i, |s|)])
    {
      assert Link(next, prev, s[i], s[Succ(i, |s|)]);
    }
  }

  /** `m'` agrees with `m` on every node that is not in `s`. */
  ghost predicate SameOutside<N(!new)>(m: map<N, N>, m': map<N, N>, s: seq<N>) {
    forall x :: x in m && x !in s ==> x in m' && m'[x] == m[x]
  }

  /** The link words of a family of list nodes, changed in place.  The ghost arguments name the
      ring that a call works on and the position of the node in it. */
  class ListNodes<N(==, !new)> {
    var next: map<N, N>
    var prev: map<N, N>

    constructor ()
      ensures next == map[] && prev == map[]
    {
      next, prev := map[], map[];
    }

    method Init(l: N)
      modifies this
      ensures IsRing(next, prev, [l])
      ensures SameOutside(old(next), next, [l]) && SameOutside(old(prev), prev, [l])
    {
      prev := prev[l := l];
      next := next[l := prev[l]];
    }

    method InsertAfter(l: N, n: N, ghost s: seq<N>, ghost i: nat)
      requires IsRing(next, prev, s) && i < |s| && s[i] == l && n !in s
      modifies this
      ensures IsRing(next, prev, s[..i + 1] + [n] + s[i + 1..])
      ensures SameOutside(old(next), next, s + [n]) && SameOutside(old(prev), prev, s + [n])
    {
      InsertAfterIsRing(next, prev, s, i, n);
      prev := prev[next[l] := n];
      next := next[n := next[l]];
      next := next[l := n];
      prev := prev[n := l];
    }

    /** Inserting before the head of a ring is appending to its end. */
    method InsertBefore(l: N, n: N, ghost s: seq<N>, ghost i: nat)
      requires IsRing(next, prev, s) && i < |s| && s[i] == l && n !in s
      modifies this
      ensures i == 0 ==> IsRing(next, prev, s + [n])
      ensures i > 0 ==> IsRing(next, prev, s[..i] + [n] + s[i..])
      ensures SameOutside(old(next), next, s + [n]) && SameOutside(old(prev), prev, s + [n])
    {
      ghost var p := if i == 0 then |s| - 1 else i - 1;
      assert Succ(p, |s|) == i;
      InsertAfterIsRing(next, prev, s, p, n);
      ghost var next', prev' := next[n := l][s[p] := n], prev[l := n][n := s[p]];
      next := next[prev[l] := n];
      prev := prev[n := prev[l]];
      prev := prev[l := n];
      next := next[n := l];
      assert next == next' && prev == prev';
      assert i == 0 ==> s[..p + 1] + [n] + s[p + 1..] == s + [n];
    }

    method Remove(n: N, ghost s: seq<N>, ghost i: nat)
      requires IsRing(next, prev, s) && i < |s| && s[i] == n
      modifies this
      ensures IsRing(next, prev, [n]) && IsRing(next, prev, s[..i] + s[i + 1..])
      ensures |s| == 1 ==> next == old(next) && prev == old(prev)
      ensures SameOutside(old(next), next, s) && SameOutside(old(prev), prev, s)
    {
      RemoveIsRing(next, prev, s, i);
      ghost var next', prev' := next[prev[n] := next[n]][n := n], prev[next[n] := prev[n]][n := n];
      prev := prev[next[n] := prev[n]];
      next := next[prev[n] := next[n]];
      prev := prev[n := n];
      next := next[n := prev[n]];
      assert next == next' && prev == prev';
    }

    method IsEmpty(l: N, ghost s: seq<N>) returns (b: bool)
      requires IsRing(next, prev, s) && |s| > 0 && s[0] == l
      ensures b <==> |s| == 1
    {
      assert Link(next, prev, s[0], s[Succ(0, |s|)]);
      b := next[l] == l;
    }
  }
}
