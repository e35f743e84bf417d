/** The skip list of `timer.c`: each timer is linked into the bottom row and perhaps into some rows
    above it. */
module TimerRows {
  import opened Rings
  import opened Words
  import opened TimerModel

  /** The node of a row head, or of a timer in a row. */
  datatype Node = Head(lvl: nat) | Row(t: Id, lvl: nat)

  /** The node after `n` in its array: the same timer, or the head, one row down. */
  function Below(n: Node): Node { n.(lvl := n.lvl + 1) }

  function Nodes(row: seq<Id>, lvl: nat): (r: seq<Node>)
    ensures |r| == |row| + 1 && r[0] == Head(lvl) && forall i {:trigger r[i]} :: 0 < i < |r| ==> r[i] == Row(row[i - 1], lvl)
  {
    seq(|row| + 1, i requires 0 <= i <= |row| => if i == 0 then Head(lvl) else Row(row[i - 1], lvl))
  }

  /** A row is a ring with its head; a timer that is not in it is a ring of its own. */
  ghost predicate LevelOk(next: map<Node, Node>, prev: map<Node, Node>, row: seq<Id>, lvl: nat, ids: set<Id>) {
    && NoDup(row) && IsRing(next, prev, Nodes(row, lvl))
    && forall t :: t in ids && t !in row ==> IsRing(next, prev, [Row(t, lvl)])
  }

  /** `x` comes before `y` in `b`. */
  ghost predicate Before(b: seq<Id>, x: Id, y: Id) { exists i, j :: 0 <= i < j < |b| && b[i] == x && b[j] == y }

  /** `a` is a subsequence of `b`, for lists without repetitions. */
  ghost predicate SubList(a: seq<Id>, b: seq<Id>) {
    && (forall x :: x in a ==> x in b)
    && (forall i, j :: 0 <= i < j < |a| ==> Before(b, a[i], a[j]))
  }

  /** Each row is a subsequence of the row below it. */
  ghost predicate RowsOk(rows: seq<seq<Id>>) {
    && rows != []
    && (forall l :: 0 <= l < |rows| ==> NoDup(rows[l]))
    && (forall l :: 0 < l < |rows| ==> SubList(rows[l - 1], rows[l]))
  }

  function Bottom(rows: seq<seq<Id>>): seq<Id>
    requires rows != []
  {
    rows[|rows| - 1]
  }

  // ----- subsequences -----

  lemma SubSorted(clock: nat, table: map<Id, Timer>, a: seq<Id>, b: seq<Id>)
    requires SubList(a, b) && Known(table, b) && Sorted(clock, table, b)
    ensures Known(table, a) && Sorted(clock, table, a)
  {
    hide Due;
    forall i, j | 0 <= i < j < |a| ensures Due(clock, table[a[i]].timeout) <= Due(clock, table[a[j]].timeout) {
      assert Before(b, a[i], a[j]);
      var k, m :| 0 <= k < m < |b| && b[k] == a[i] && b[m] == a[j];
    }
  }

  /** Every row is sorted, because the bottom row is. */
  lemma {:induction false} RowSorted(clock: nat, table: map<Id, Timer>, rows: seq<seq<Id>>, l: nat)
    requires RowsOk(rows) && l < |rows| && Known(table, Bottom(rows)) && Sorted(clock, table, Bottom(rows))
    ensures Known(table, rows[l]) && Sorted(clock, table, rows[l]) && forall t :: t in rows[l] ==> t in Bottom(rows)
    decreases |rows| - l
  {
    hide Sorted, NoDup, Before;
    if l + 1 < |rows| {
      RowSorted(clock, table, rows, l + 1);
      assert SubList(rows[l + 1 - 1], rows[l + 1]);
      SubSorted(clock, table, rows[l], rows[l + 1]);
    }
  }

  lemma BeforeWithout(b: seq<Id>, x: Id, y: Id, t: Id)
    requires NoDup(b) && Before(b, x, y) && x != t && y != t
    ensures Before(Without(b, t), x, y)
  {
    if t in b {
      var k := IndexOf(b, t);
      WithoutIndex(b, k);
      var r := Without(b, t);
      var i, j :| 0 <= i < j < |b| && b[i] == x && b[j] == y;
      var i', j' := if i < k then i else i - 1, if j < k then j else j - 1;
      assert r[i'] == x && r[j'] == y;
    }
  }

  lemma SubWithout(a: seq<Id>, b: seq<Id>, t: Id)
    requires NoDup(a) && NoDup(b) && SubList(a, b)
    ensures SubList(Without(a, t), Without(b, t))
  {
    hide Before;
    var r, q := Without(a, t), Without(b, t);
    if t in a { WithoutIndex(a, IndexOf(a, t)); }
    forall i, j | 0 <= i < j < |r| ensures Before(q, r[i], r[j]) {
      assert r[i] in r && r[j] in r;
      var k := if t in a then IndexOf(a, t) else |a|;
      var i', j' := if i < k then i else i + 1, if j < k then j else j + 1;
      assert a[i'] == r[i] && a[j'] == r[j] && Before(b, a[i'], a[j']);
      BeforeWithout(b, r[i], r[j], t);
    }
  }

  lemma InsertedAt(l: seq<Id>, k: nat, t: Id)
    requires k <= |l|
    ensures var r := InsertAt(l, k, t);
      && |r| == |l| + 1 && r[k] == t
      && (forall j {:trigger r[j]} :: 0 <= j < |r| ==> r[j] == if j < k then l[j] else if j == k then t else l[j - 1])
  {
  }

  lemma BeforeInsert(b: seq<Id>, m: nat, t: Id, x: Id, y: Id)
    requires m <= |b| && Before(b, x, y)
    ensures Before(InsertAt(b, m, t), x, y)
  {
    hide InsertAt;
    InsertedAt(b, m, t);
    var r := InsertAt(b, m, t);
    var i, j :| 0 <= i < j < |b| && b[i] == x && b[j] == y;
    var i', j' := if i < m then i else i + 1, if j < m then j else j + 1;
    assert r[i'] == x && r[j'] == y;
  }

  /** A timer put into the lower row only. */
  lemma SubInsertBelow(a: seq<Id>, b: seq<Id>, m: nat, t: Id)
    requires SubList(a, b) && m <= |b| && NoDup(b) && t !in b
    ensures SubList(a, InsertAt(b, m, t))
  {
    hide InsertAt, Before;
    InsertNoDup(b, m, t);
    forall i, j | 0 <= i < j < |a| ensures Before(InsertAt(b, m, t), a[i], a[j]) { BeforeInsert(b, m, t, a[i], a[j]); }
  }

  /** A timer put into both rows, each time between the timers that fire no later and those that fire
      later. */
  lemma SubInsertBoth(clock: nat, table: map<Id, Timer>, a: seq<Id>, k: nat, b: seq<Id>, m: nat, t: Id, x: nat)
    requires SubList(a, b) && NoDup(b) && t !in b && Known(table, a) && Known(table, b)
    requires Splits(clock, table, a, k, x) && Splits(clock, table, b, m, x)
    ensures SubList(InsertAt(a, k, t), InsertAt(b, m, t))
  {
    hide InsertAt, Before, Due;
    InsertedAt(a, k, t);
    InsertNoDup(b, m, t);
    var r, q := InsertAt(a, k, t), InsertAt(b, m, t);
    forall i, j | 0 <= i < j < |r| ensures Before(q, r[i], r[j]) {
      if j == k {
        BeforeNew(clock, table, a[i], b, m, t, x);
      } else if i == k {
        AfterNew(clock, table, a[j - 1], b, m, t, x);
      } else {
        var i', j' := if i < k then i else i - 1, if j < k then j else j - 1;
        assert Before(b, a[i'], a[j']);
        BeforeInsert(b, m, t, a[i'], a[j']);
      }
    }
  }

  lemma BeforeNew(clock: nat, table: map<Id, Timer>, u: Id, b: seq<Id>, m: nat, t: Id, x: nat)
    requires Known(table, b) && Splits(clock, table, b, m, x) && u in b && Due(clock, table[u].timeout) <= Due(clock, x)
    ensures Before(InsertAt(b, m, t), u, t)
  {
    hide InsertAt, Due;
    InsertedAt(b, m, t);
    var i :| 0 <= i < |b| && b[i] == u;
    assert i < m;
    assert InsertAt(b, m, t)[i] == u && InsertAt(b, m, t)[m] == t;
  }

  lemma AfterNew(clock: nat, table: map<Id, Timer>, u: Id, b: seq<Id>, m: nat, t: Id, x: nat)
    requires Known(table, b) && Splits(clock, table, b, m, x) && u in b && Due(clock, table[u].timeout) > Due(clock, x)
    ensures Before(InsertAt(b, m, t), t, u)
  {
    hide InsertAt, Due;
    InsertedAt(b, m, t);
    var i :| 0 <= i < |b| && b[i] == u;
    assert i >= m;
    assert InsertAt(b, m, t)[i + 1] == u && InsertAt(b, m, t)[m] == t;
  }

  /** There is one place. */
  lemma SplitsOnce(clock: nat, table: map<Id, Timer>, l: seq<Id>, k: nat, m: nat, x: nat)
    requires Known(table, l) && Splits(clock, table, l, k, x) && Splits(clock, table, l, m, x)
    ensures k == m
  {
    hide Due;
    assert k < |l| ==> Due(clock, table[l[k]].timeout) > Due(clock, x);
    assert m < |l| ==> Due(clock, table[l[m]].timeout) > Due(clock, x);
  }

  /** The search goes down at the last timer passed: all timers up to it fire no later. */
  lemma GoDown(clock: nat, table: map<Id, Timer>, a: seq<Id>, k: nat, b: seq<Id>, x: nat) returns (m: nat)
    requires SubList(a, b) && NoDup(b) && Known(table, a) && Known(table, b) && Sorted(clock, table, b) && Splits(clock, table, a, k, x)
    ensures m <= |b| && (k == 0 <==> m == 0) && (k > 0 ==> a[k - 1] == b[m - 1])
    ensures forall j :: 0 <= j < m ==> Due(clock, table[b[j]].timeout) <= Due(clock, x)
  {
    hide Due, Before;
    if k == 0 {
      m := 0;
    } else {
      assert a[k - 1] in b;
      var i :| 0 <= i < |b| && b[i] == a[k - 1];
      m := i + 1;
    }
  }

  // ----- links -----

  /** The links of a row. */
  lemma NodeLinks(next: map<Node, Node>, prev: map<Node, Node>, row: seq<Id>, lvl: nat, k: nat)
    requires IsRing(next, prev, Nodes(row, lvl)) && k <= |row|
    ensures var n := Nodes(row, lvl)[k];
      && n in next && next[n] == (if k == |row| then Head(lvl) else Row(row[k], lvl))
      && Head(lvl) in prev && (prev[Head(lvl)] == n <==> k == |row|)
  {
    hide Nodes;
    var s := Nodes(row, lvl);
    assert Link(next, prev, s[k], s[Succ(k, |s|)]);
    assert Link(next, prev, s[|row|], s[Succ(|row|, |s|)]);
  }

  lemma NodesInsert(row: seq<Id>, lvl: nat, k: nat, t: Id)
    requires k <= |row|
    ensures Nodes(row, lvl)[..k + 1] + [Row(t, lvl)] + Nodes(row, lvl)[k + 1..] == Nodes(InsertAt(row, k, t), lvl)
  {
    InsertedAt(row, k, t);
  }

  lemma NodesCut(row: seq<Id>, lvl: nat, k: nat)
    requires NoDup(row) && k < |row|
    ensures Nodes(row, lvl)[..k + 1] + Nodes(row, lvl)[k + 2..] == Nodes(Without(row, row[k]), lvl)
  {
    hide NoDup, Nodes, Without;
    WithoutIndex(row, k);
    var s, r := Nodes(row, lvl), Without(row, row[k]);
    var a, b := s[..k + 1] + s[k + 2..], Nodes(r, lvl);
    forall i | 0 <= i < |b| ensures a[i] == b[i] {
      if i > 0 { assert b[i] == Row(r[i - 1], lvl); }
      assert a[i] == if i < k + 1 then s[i] else s[i + 1];
    }
  }

  /** A row is left alone by changes of links in other rows. */
  lemma LevelFrame(next: map<Node, Node>, prev: map<Node, Node>, next': map<Node, Node>, prev': map<Node, Node>,
                   row: seq<Id>, lvl: nat, ids: set<Id>, s: seq<Node>)
    requires LevelOk(next, prev, row, lvl, ids) && SameOutside(next, next', s) && SameOutside(prev, prev', s)
    requires forall n :: n in s ==> n.lvl != lvl
    ensures LevelOk(next', prev', row, lvl, ids)
  {
    hide IsRing, SameOutside, Nodes;
    assert forall n :: n in Nodes(row, lvl) ==> n.lvl == lvl;
    RingFrame(next, prev, next', prev', Nodes(row, lvl), s);
    forall t | t in ids && t !in row ensures IsRing(next', prev', [Row(t, lvl)]) {
      RingFrame(next, prev, next', prev', [Row(t, lvl)], s);
    }
  }

  /** Timers that are not in the row are left alone by changes of links in it. */
  lemma LoneFrame(next: map<Node, Node>, prev: map<Node, Node>, next': map<Node, Node>, prev': map<Node, Node>,
                  row: seq<Id>, lvl: nat, ids: set<Id>, t: Id, s: seq<Node>)
    requires forall u :: u in ids && u !in row ==> IsRing(next, prev, [Row(u, lvl)])
    requires SameOutside(next, next', s) && SameOutside(prev, prev', s)
    requires forall n :: n in s ==> n in Nodes(row, lvl) || n == Row(t, lvl)
    ensures forall u :: u in ids && u !in row && u != t ==> IsRing(next', prev', [Row(u, lvl)])
  {
    hide IsRing, SameOutside, Nodes;
    forall u | u in ids && u !in row && u != t ensures IsRing(next', prev', [Row(u, lvl)]) {
      assert Row(u, lvl) !in Nodes(row, lvl);
      RingFrame(next, prev, next', prev', [Row(u, lvl)], s);
    }
  }
}

module Timers {
  import opened Rings
  import opened Words
  import opened TimerModel
  import opened TimerRows

  /** The rows a timer is linked into: one, and one more for each pair of zero bits at the end of the
      counter (`RT_TIMER_SKIP_LIST_MASK` is 3), as far as there are rows. */
  function Height(n: nat, levels: nat): (h: nat)
    requires levels > 0
    ensures 1 <= h <= levels
  {
    if levels == 1 || n % 4 != 0 then 1 else 1 + Height(n / 4, levels - 1)
  }

  /** The rows with a timer put into the lowest `h` of them. */
  ghost predicate PutIn(rows: seq<seq<Id>>, pos: seq<nat>, t: Id, h: nat, r: seq<seq<Id>>)
    requires |pos| == |rows| && forall l :: 0 <= l < |rows| ==> pos[l] <= |rows[l]|
  {
    |r| == |rows| && forall l {:trigger r[l]} :: 0 <= l < |rows| ==> r[l] == if l >= |rows| - h then InsertAt(rows[l], pos[l], t) else rows[l]
  }

  /** `t` is in no row, and each place is between the timers that fire no later than `x` and those
      that fire later. */
  ghost predicate Places(clock: nat, table: map<Id, Timer>, rows: seq<seq<Id>>, pos: seq<nat>, x: nat) {
    |pos| == |rows| && forall l {:trigger rows[l]} {:trigger pos[l]} :: 0 <= l < |rows| ==>
      Known(table, rows[l]) && pos[l] <= |rows[l]| && Splits(clock, table, rows[l], pos[l], x)
  }

  /** The rows stay subsequences of each other. */
  lemma PutInKeepsRows(clock: nat, table: map<Id, Timer>, rows: seq<seq<Id>>, pos: seq<nat>, x: nat, t: Id, h: nat, r: seq<seq<Id>>)
    requires RowsOk(rows) && Places(clock, table, rows, pos, x) && PutIn(rows, pos, t, h, r) && 0 < h <= |rows|
    requires forall l :: 0 <= l < |rows| ==> t !in rows[l]
    ensures RowsOk(r) && Bottom(r) == InsertAt(Bottom(rows), pos[|rows| - 1], t)
  {
    hide NoDup, InsertAt, Splits, SubList, Due;
    forall l | 0 <= l < |r| ensures NoDup(r[l]) { InsertNoDup(rows[l], pos[l], t); }
    forall l | 0 < l < |r| ensures SubList(r[l - 1], r[l]) {
      assert SubList(rows[l - 1], rows[l]) && NoDup(rows[l]);
      assert r[l - 1] == if l - 1 >= |rows| - h then InsertAt(rows[l - 1], pos[l - 1], t) else rows[l - 1];
      if l - 1 >= |rows| - h {
        SubInsertBoth(clock, table, rows[l - 1], pos[l - 1], rows[l], pos[l], t, x);
      } else {
        SubInsertBelow(rows[l - 1], rows[l], pos[l], t);
      }
    }
  }

  /** The rows without a timer. */
  ghost predicate TakenOut(rows: seq<seq<Id>>, t: Id, r: seq<seq<Id>>) {
    |r| == |rows| && forall l {:trigger r[l]} :: 0 <= l < |rows| ==> r[l] == Without(rows[l], t)
  }

  lemma TakenOutKeepsRows(rows: seq<seq<Id>>, t: Id, r: seq<seq<Id>>)
    requires RowsOk(rows) && TakenOut(rows, t, r)
    ensures RowsOk(r) && Bottom(r) == Without(Bottom(rows), t) && forall l :: 0 <= l < |r| ==> t !in r[l]
  {
    hide NoDup, SubList;
    forall l | 0 <= l < |r| ensures NoDup(r[l]) { WithoutKeepsNoDup(rows[l], t); }
    forall l | 0 < l < |r| ensures SubList(r[l - 1], r[l]) {
      assert SubList(rows[l - 1], rows[l]) && NoDup(rows[l - 1]) && NoDup(rows[l]);
      assert r[l - 1] == Without(rows[l - 1], t);
      SubWithout(rows[l - 1], rows[l], t);
    }
  }

  /** The place found in the bottom row is the place of the plain list. */
  lemma StartIs(clock: nat, s: Timers, t: Id, x: nat, k: nat)
    requires Inv(clock, s) && t in s.table && s.table[t].period < HALF && x == (s.now + s.table[t].period) % WORD
    requires var table, l := s.table[t := s.table[t].(timeout := x, active := false)], Without(s.list, t);
      Known(table, l) && Splits(clock, table, l, k, x)
    ensures Known(s.table, s.list) && k <= |Without(s.list, t)|
    ensures Start(s, t) == Timers(s.now, s.table[t := s.table[t].(timeout := x, active := true)], InsertAt(Without(s.list, t), k, t))
    ensures Inv(clock, Start(s, t))
  {
    hide Inv, InsertAt, Due, Start;
    LinkedKnown(clock, s);
    StartKeeps(clock, clock - 1, s, t);
    StartTable(s, t);
    var r, l := Start(s, t), Without(s.list, t);
    SplitsUnseen(clock, s.table[t := s.table[t].(timeout := x, active := false)], l, k, x, t, r.table[t]);
    var m: nat :| m <= |l| && Splits(clock, r.table, l, m, r.table[t].timeout) && r.list == InsertAt(l, m, t);
    SplitsOnce(clock, r.table, l, k, m, r.table[t].timeout);
  }

  class TimerLists {
    const levels: nat
    const links: ListNodes<Node>
    var tick: nat
    var randomNr: nat
    var timers: map<Id, Timer>
    ghost var rows: seq<seq<Id>>
    ghost var clock: nat

    ghost function View(): Timers
      requires rows != []
      reads this
    {
      Timers(tick, timers, Bottom(rows))
    }

    ghost predicate RowsLinked()
      reads `rows, `timers, links
    {
      |rows| == levels && forall l: nat {:trigger rows[l]} :: l < levels ==> LevelOk(links.next, links.prev, rows[l], l, timers.Keys)
    }

    ghost predicate Valid()
      reads this, links
    {
      levels > 0 && RowsLinked() && RowsOk(rows) && Inv(clock, View())
    }

    /** `rt_system_timer_init` */
    constructor (levels: nat)
      requires levels > 0
      ensures Valid() && View() == Timers(0, map[], []) && clock == 0 && fresh(links) && this.levels == levels
    {
      this.levels := levels;
      var nodes := new ListNodes<Node>();
      links, tick, randomNr, timers, rows, clock := nodes, 0, 0, map[], seq(levels, _ => []), 0;
      new;
      var i := 0;
      while i < levels
        invariant i <= levels && forall l: nat :: l < i ==> IsRing(links.next, links.prev, [Head(l)])
        modifies links
      {
        ghost var next, prev := links.next, links.prev;
        links.Init(Head(i));
        forall l: nat | l < i ensures IsRing(links.next, links.prev, [Head(l)]) {
          RingFrame(next, prev, links.next, links.prev, [Head(l)], [Head(i)]);
        }
        i := i + 1;
      }
      forall l: nat | l < levels ensures LevelOk(links.next, links.prev, rows[l], l, timers.Keys) {
        assert Nodes([], l) == [Head(l)];
      }
    }

    /** The links of a row after a change of nodes of that row. */
    lemma RelinkedRow(next: map<Node, Node>, prev: map<Node, Node>, l: nat, row: seq<Id>, s: seq<Node>, was: seq<seq<Id>>)
      requires |was| == levels && l < levels && forall k: nat :: k < levels ==> LevelOk(next, prev, was[k], k, timers.Keys)
      requires rows == was[l := row] && LevelOk(links.next, links.prev, row, l, timers.Keys)
      requires SameOutside(next, links.next, s) && SameOutside(prev, links.prev, s) && forall n :: n in s ==> n.lvl == l
      ensures RowsLinked()
    {
      hide LevelOk, SameOutside;
      forall k: nat | k < levels ensures LevelOk(links.next, links.prev, rows[k], k, timers.Keys) {
        if k != l { LevelFrame(next, prev, links.next, links.prev, was[k], k, timers.Keys, s); }
      }
    }

    /** `rt_list_remove` of the node of a timer in one row */
    method RemoveFrom(t: Id, l: nat)
      requires t in timers && l < levels && RowsLinked()
      modifies links, `rows
      ensures RowsLinked() && rows == old(rows)[l := Without(old(rows)[l], t)]
    {
      hide IsRing, NoDup, SameOutside, Nodes;
      ghost var row, was, next, prev := rows[l], rows, links.next, links.prev;
      ghost var cut := Without(row, t);
      WithoutKeepsNoDup(row, t);
      ghost var s := if t in row then Nodes(row, l) else [Row(t, l)];
      ghost var k := if t in row then IndexOf(row, t) + 1 else 0;
      links.Remove(Row(t, l), s, k);
      if t in row { NodesCut(row, l, k - 1); }
      LoneFrame(next, prev, links.next, links.prev, row, l, timers.Keys, t, s);
      rows := rows[l := cut];
      RelinkedRow(next, prev, l, cut, s, was);
    }

    /** `_rt_timer_remove` */
    method Remove(t: Id)
      requires t in timers && RowsLinked()
      modifies links, `rows
      ensures RowsLinked() && TakenOut(old(rows), t, rows)
    {
      hide LevelOk;
      var i := 0;
      while i < levels
        invariant i <= levels && RowsLinked() && |rows| == |old(rows)|
        invariant forall l {:trigger rows[l]} :: 0 <= l < levels ==> rows[l] == if l < i then Without(old(rows)[l], t) else old(rows)[l]
      {
        RemoveFrom(t, i);
        i := i + 1;
      }
    }

    /** `rt_list_insert_after` of the node of a timer in one row */
    method InsertInto(t: Id, l: nat, at: Node, ghost k: nat)
      requires t in timers && l < levels && RowsLinked() && t !in rows[l] && k <= |rows[l]| && at == Nodes(rows[l], l)[k]
      modifies links, `rows
      ensures RowsLinked() && rows == old(rows)[l := InsertAt(old(rows)[l], k, t)]
    {
      hide IsRing, NoDup, SameOutside, Nodes, InsertAt;
      ghost var row, was, next, prev := rows[l], rows, links.next, links.prev;
      InsertNoDup(row, k, t);
      NodesInsert(row, l, k, t);
      ghost var s := Nodes(row, l);
      links.InsertAfter(at, Row(t, l), s, k);
      LoneFrame(next, prev, links.next, links.prev, row, l, timers.Keys, t, s + [Row(t, l)]);
      rows := rows[l := InsertAt(row, k, t)];
      RelinkedRow(next, prev, l, rows[l], s + [Row(t, l)], was);
    }

    /** What the search needs of the rows, none of which has the timer that is started. */
    ghost predicate Searchable(x: nat)
      reads this, links
    {
      && levels > 0 && RowsLinked() && RowsOk(rows) && TableOk(timers) && Known(timers, Bottom(rows))
      && Window(clock, clock - 1, timers, Bottom(rows)) && Sorted(clock, timers, Bottom(rows)) && Near(clock, x)
    }

    lemma RowFacts(x: nat, l: nat)
      requires Searchable(x) && l < levels
      ensures Known(timers, rows[l]) && Window(clock, clock - 1, timers, rows[l]) && Sorted(clock, timers, rows[l])
      ensures NoDup(rows[l]) && IsRing(links.next, links.prev, Nodes(rows[l], l))
    {
      hide Due, IsRing, NoDup, Nodes, Sorted;
      RowSorted(clock, timers, rows, l);
    }

    /** The search in one row, from a node up to which all timers fire no later. */
    method FindPlace(x: nat, l: nat, from: Node, ghost m: nat) returns (at: Node, ghost k: nat)
      requires Searchable(x) && l < levels && m <= |rows[l]| && from == Nodes(rows[l], l)[m] && Known(timers, rows[l])
      requires forall j :: 0 <= j < m ==> Due(clock, timers[rows[l][j]].timeout) <= Due(clock, x)
      ensures k <= |rows[l]| && at == Nodes(rows[l], l)[k] && Splits(clock, timers, rows[l], k, x)
    {
      hide Due, IsRing, NoDup, Nodes, RowsLinked, RowsOk, Later;
      RowsAre(x);
      RowFacts(x, l);
      at, k := from, m;
      ghost var row := rows[l];
      NodeLinks(links.next, links.prev, row, l, k);
      while at != links.prev[Head(l)]
        invariant k <= |row| && at == Nodes(row, l)[k] && at in links.next && Head(l) in links.prev
        invariant links.next[at] == (if k == |row| then Head(l) else Row(row[k], l)) && (links.prev[Head(l)] == at <==> k == |row|)
        invariant forall j :: 0 <= j < k ==> Due(clock, timers[row[j]].timeout) <= Due(clock, x)
        decreases |row| - k
      {
        var p := links.next[at];
        assert p.t in row;
        LaterIs(clock, timers[p.t].timeout, x);
        NodeLinks(links.next, links.prev, row, l, k + 1);
        if Minus(timers[p.t].timeout, x) == 0 {
          SameTime(timers[p.t].timeout, x);
        } else if Minus(timers[p.t].timeout, x) < HALF {
          LaterTime(timers[p.t].timeout, x);
          SortedFrom(clock, timers, row, k, x);
          break;
        } else {
          NotLaterTime(timers[p.t].timeout, x);
        }
        at := p;
        k := k + 1;
      }
    }

    lemma SameTime(a: nat, b: nat)
      ensures Minus(a, b) == 0 ==> !Later(a, b)
    {
    }

    lemma LaterTime(a: nat, b: nat)
      ensures Minus(a, b) != 0 && Minus(a, b) < HALF ==> Later(a, b)
    {
    }

    lemma NotLaterTime(a: nat, b: nat)
      ensures Minus(a, b) >= HALF ==> !Later(a, b)
    {
    }

    static lemma SortedFrom(clock: nat, table: map<Id, Timer>, row: seq<Id>, k: nat, x: nat)
      requires Known(table, row) && Sorted(clock, table, row) && k < |row| && Due(clock, table[row[k]].timeout) > Due(clock, x)
      ensures forall j :: k <= j < |row| ==> Due(clock, table[row[j]].timeout) > Due(clock, x)
    {
      hide Due;
    }

    /** The search of `rt_timer_start`, row by row from the top. */
    method FindPlaces(x: nat) returns (rowHead: seq<Node>, ghost pos: seq<nat>)
      requires Searchable(x)
      ensures |rowHead| == levels && Places(clock, timers, rows, pos, x)
      ensures forall l {:trigger rowHead[l]} :: 0 <= l < levels ==> rowHead[l] == Nodes(rows[l], l)[pos[l]]
    {
      hide Due, IsRing, NoDup, Nodes, RowsLinked, Splits, SubList, Sorted, Window;
      RowsAre(x);
      rowHead, pos := [], [];
      var from := Head(0);
      ghost var m: nat := 0;
      RowFacts(x, 0);
      var lvl := 0;
      while lvl < levels
        invariant lvl <= levels && |rowHead| == |pos| == lvl
        invariant forall l {:trigger rows[l]} {:trigger pos[l]} :: 0 <= l < lvl ==> Known(timers, rows[l]) && pos[l] <= |rows[l]| && Splits(clock, timers, rows[l], pos[l], x)
        invariant forall l {:trigger rowHead[l]} :: 0 <= l < lvl ==> rowHead[l] == Nodes(rows[l], l)[pos[l]]
        invariant lvl < levels ==> Known(timers, rows[lvl]) && m <= |rows[lvl]| && from == Nodes(rows[lvl], lvl)[m]
        invariant lvl < levels ==> forall j :: 0 <= j < m ==> Due(clock, timers[rows[lvl][j]].timeout) <= Due(clock, x)
      {
        var at;
        ghost var k;
        at, k := FindPlace(x, lvl, from, m);
        rowHead, pos := rowHead + [at], pos + [k];
        if lvl + 1 < levels {
          m := Descend(x, lvl, k);
          from := Below(at);
        }
        lvl := lvl + 1;
      }
    }

    lemma RowsAre(x: nat)
      requires Searchable(x)
      ensures |rows| == levels > 0
    {
    }

    lemma Descend(x: nat, l: nat, k: nat) returns (m: nat)
      requires Searchable(x) && l + 1 < levels && Known(timers, rows[l]) && Splits(clock, timers, rows[l], k, x)
      ensures Known(timers, rows[l + 1]) && m <= |rows[l + 1]| && k <= |rows[l]| && Nodes(rows[l + 1], l + 1)[m] == Below(Nodes(rows[l], l)[k])
      ensures var b := rows[l + 1]; forall j :: 0 <= j < m ==> Due(clock, timers[b[j]].timeout) <= Due(clock, x)
    {
      hide Due, IsRing, NoDup, SubList, Sorted;
      RowFacts(x, l + 1);
      assert SubList(rows[l + 1 - 1], rows[l + 1]);
      m := GoDown(clock, timers, rows[l], k, rows[l + 1], x);
    }

    /** Linking the timer into the bottom row and, as the counter says, into rows above it. */
    method InsertRows(t: Id, rowHead: seq<Node>, ghost pos: seq<nat>)
      requires levels > 0 && t in timers && RowsLinked() && |rowHead| == |pos| == levels
      requires forall l {:trigger rows[l]} :: 0 <= l < levels ==> t !in rows[l] && pos[l] <= |rows[l]| && rowHead[l] == Nodes(rows[l], l)[pos[l]]
      modifies links, `rows
      ensures RowsLinked() && PutIn(old(rows), pos, t, Height(randomNr, levels), rows)
    {
      hide LevelOk, Nodes, InsertAt;
      ghost var was := rows;
      var tst := randomNr;
      InsertInto(t, levels - 1, rowHead[levels - 1], pos[levels - 1]);
      var rowLvl := 2;
      while rowLvl <= levels
        invariant 2 <= rowLvl <= levels + 1 && RowsLinked() && |rows| == levels
        invariant forall l {:trigger rows[l]} :: 0 <= l < levels ==> rows[l] == if l > levels - rowLvl then InsertAt(was[l], pos[l], t) else was[l]
        invariant Height(randomNr, levels) == rowLvl - 2 + Height(tst, levels - (rowLvl - 2))
      {
        if tst % 4 != 0 { break; }
        assert rows[levels - rowLvl] == was[levels - rowLvl];
        InsertInto(t, levels - rowLvl, rowHead[levels - rowLvl], pos[levels - rowLvl]);
        tst := tst / 4;
        rowLvl := rowLvl + 1;
      }
    }

    /** The second half of `rt_timer_start`: the timer, which is in no row, is linked in. */
    method LinkIn(t: Id, x: nat) returns (ghost k: nat)
      requires Searchable(x) && t in timers && forall l :: 0 <= l < |rows| ==> t !in rows[l]
      modifies links, `rows, `randomNr
      ensures RowsLinked() && RowsOk(rows) && randomNr == (old(randomNr) + 1) % WORD
      ensures forall l: nat {:trigger rows[l]} :: l < levels ==> (t in rows[l] <==> l >= levels - Height(randomNr, levels))
      ensures old(Known(timers, Bottom(rows))) && k <= |old(Bottom(rows))| && Bottom(rows) == InsertAt(old(Bottom(rows)), k, t)
      ensures Splits(clock, timers, old(Bottom(rows)), k, x)
    {
      hide LevelOk, Due, InsertAt, Splits, Nodes, SubList, NoDup, Window, Sorted;
      ghost var cut := rows;
      var rowHead;
      ghost var pos;
      rowHead, pos := FindPlaces(x);
      randomNr := (randomNr + 1) % WORD;
      InsertRows(t, rowHead, pos);
      PutInKeepsRows(clock, timers, cut, pos, x, t, Height(randomNr, levels), rows);
      PutInWhere(cut, pos, t, Height(randomNr, levels));
      k := pos[levels - 1];
      assert cut[levels - 1] == Bottom(cut);
    }

    /** The first half of `rt_timer_start`: the timer is unlinked and gets its new timeout. */
    method Prepare(t: Id) returns (x: nat)
      requires Valid() && t in timers && timers[t].period < HALF
      modifies this`rows, this`timers, links
      ensures Searchable(x) && Bottom(rows) == Without(old(View()).list, t) && (forall l :: 0 <= l < |rows| ==> t !in rows[l])
      ensures x == (tick + old(timers)[t].period) % WORD && timers == old(timers)[t := old(timers)[t].(timeout := x, active := false)]
    {
      hide LevelOk, Inv, Due, RowsOk, Searchable;
      ghost var s := View();
      Remove(t);
      TakenOutKeepsRows(old(rows), t, rows);
      timers := timers[t := timers[t].(active := false)];
      x := (tick + timers[t].period) % WORD;
      timers := timers[t := timers[t].(timeout := x)];
      assert timers.Keys == s.table.Keys;
      StartSearchable(s, t, x);
    }

    /** `rt_timer_start`; that the period is below half of the range is what the function asserts. */
    method Start(t: Id)
      requires Valid() && t in timers && timers[t].period < HALF
      modifies this, links
      ensures Valid() && View() == TimerModel.Start(old(View()), t) && clock == old(clock) && tick == old(tick)
      ensures randomNr == (old(randomNr) + 1) % WORD
      ensures forall l: nat {:trigger rows[l]} :: l < levels ==> (t in rows[l] <==> l >= levels - Height(randomNr, levels))
    {
      hide RowsLinked, Inv, Splits, RowsOk, Searchable, Height, TimerModel.Start, InsertAt;
      Levels();
      ghost var s := View();
      var x := Prepare(t);
      ghost var k := LinkIn(t, x);
      StartIs(clock, s, t, x, k);
      SetActive(t, true);
      Started(s, t, x, k);
    }

    lemma Levels()
      requires Valid()
      ensures rows != [] && levels > 0
    {
    }

    lemma Started(s: Timers, t: Id, x: nat, k: nat)
      requires levels > 0 && RowsLinked() && RowsOk(rows) && t in s.table && tick == s.now && k <= |Without(s.list, t)|
      requires timers == s.table[t := s.table[t].(timeout := x, active := false)][t := s.table[t].(timeout := x, active := true)]
      requires Bottom(rows) == InsertAt(Without(s.list, t), k, t) && Known(s.table, s.list) && Inv(clock, TimerModel.Start(s, t))
      requires TimerModel.Start(s, t) == Timers(s.now, s.table[t := s.table[t].(timeout := x, active := true)], InsertAt(Without(s.list, t), k, t))
      ensures Valid() && View() == TimerModel.Start(s, t)
    {
      hide RowsLinked, Inv, TimerModel.Start, InsertAt;
      assert View() == TimerModel.Start(s, t);
    }

    method SetActive(t: Id, active: bool)
      requires RowsLinked() && t in timers
      modifies `timers
      ensures RowsLinked() && timers == old(timers)[t := old(timers)[t].(active := active)]
    {
      hide LevelOk;
      ghost var ids := timers.Keys;
      timers := timers[t := timers[t].(active := active)];
      assert timers.Keys == ids;
    }

    lemma PutInWhere(cut: seq<seq<Id>>, pos: seq<nat>, t: Id, h: nat)
      requires |cut| == |pos| == levels && (forall l :: 0 <= l < |cut| ==> pos[l] <= |cut[l]| && t !in cut[l]) && PutIn(cut, pos, t, h, rows)
      ensures forall l: nat {:trigger rows[l]} :: l < levels ==> (t in rows[l] <==> l >= levels - h)
    {
    }

    lemma StartSearchable(s: Timers, t: Id, x: nat)
      requires Inv(clock, s) && t in s.table && s.table[t].period < HALF
      requires levels > 0 && RowsLinked() && RowsOk(rows) && Bottom(rows) == Without(s.list, t)
      requires x == (s.now + s.table[t].period) % WORD && timers == s.table[t := s.table[t].(timeout := x, active := false)]
      ensures Searchable(x) && Known(s.table, s.list)
    {
      hide Due, Sorted, NoDup;
      StartDue(clock, s.table[t].period);
      WithoutSorted(clock, s.table, s.list, t);
      EntryUnseen(clock, clock - 1, s.table, Without(s.list, t), t, timers[t]);
    }

    /** `rt_timer_init` of a timer that is not known yet */
    method InitTimer(t: Id, period: nat, periodic: bool)
      requires Valid() && t !in timers && period < WORD
      modifies this`timers, links
      ensures Valid() && View() == old(View()).(table := old(timers)[t := Timer(period, 0, periodic, false)])
    {
      hide IsRing, SameOutside, NoDup, Nodes, Due, SubList, Sorted;
      ghost var s := View();
      NotLinked(s, t);
      var i := 0;
      while i < levels
        invariant i <= levels && RowsLinked()
        invariant forall l: nat :: l < i ==> IsRing(links.next, links.prev, [Row(t, l)])
        modifies links
      {
        ghost var next, prev := links.next, links.prev;
        links.Init(Row(t, i));
        forall l: nat | l < i ensures IsRing(links.next, links.prev, [Row(t, l)]) {
          RingFrame(next, prev, links.next, links.prev, [Row(t, l)], [Row(t, i)]);
        }
        forall l: nat | l < levels ensures LevelOk(links.next, links.prev, rows[l], l, timers.Keys) {
          OtherLevel(next, prev, l, [Row(t, i)]);
        }
        i := i + 1;
      }
      timers := timers[t := Timer(period, 0, periodic, false)];
      TableGrows(s, t, timers[t]);
    }

    /** A timer that is not known is in no row. */
    lemma NotLinked(s: Timers, t: Id)
      requires Valid() && s == View() && t !in timers
      ensures forall l: nat :: l < levels ==> t !in rows[l]
    {
      hide Sorted, Due;
      forall l: nat | l < levels ensures t !in rows[l] { RowSorted(clock, timers, rows, l); }
    }

    lemma OtherLevel(next: map<Node, Node>, prev: map<Node, Node>, l: nat, s: seq<Node>)
      requires |rows| == levels && l < levels && LevelOk(next, prev, rows[l], l, timers.Keys)
      requires SameOutside(next, links.next, s) && SameOutside(prev, links.prev, s)
      requires forall n :: n in s ==> n !in Nodes(rows[l], l) && n.Row? && n.t !in timers
      ensures LevelOk(links.next, links.prev, rows[l], l, timers.Keys)
    {
      hide IsRing, SameOutside, NoDup, Nodes;
      RingFrame(next, prev, links.next, links.prev, Nodes(rows[l], l), s);
      forall u | u in timers.Keys && u !in rows[l] ensures IsRing(links.next, links.prev, [Row(u, l)]) {
        RingFrame(next, prev, links.next, links.prev, [Row(u, l)], s);
      }
    }

    lemma TableGrows(s: Timers, t: Id, entry: Timer)
      requires Inv(clock, s) && t !in s.table && entry.period < WORD && entry.timeout < WORD
      ensures Inv(clock, s.(table := s.table[t := entry]))
    {
      hide Due;
    }

    lemma NowValid(r: Timers)
      requires levels > 0 && RowsLinked() && RowsOk(rows) && Inv(clock, r) && r == Timers(tick, timers, Bottom(rows))
      ensures Valid() && View() == r
    {
      hide RowsLinked, Inv;
    }

    /** `rt_timer_stop` */
    method Stop(t: Id) returns (ok: bool)
      requires Valid() && t in timers
      modifies this, links
      ensures Valid() && (View(), ok) == TimerModel.Stop(old(View()), t) && clock == old(clock)
    {
      hide RowsLinked, Inv, RowsOk;
      Levels();
      if !timers[t].active { return false; }
      ghost var s := View();
      Unlink(t);
      SetActive(t, false);
      StopKeeps(clock, s, t);
      NowValid(TimerModel.Stop(s, t).0);
      ok := true;
    }

    /** Unlinking alone, as before the function of a timer runs. */
    method Unlink(t: Id)
      requires Valid() && t in timers
      modifies this`rows, links
      ensures Valid() && View() == old(View()).(list := Without(old(View()).list, t))
    {
      hide RowsLinked, Inv;
      ghost var s := View();
      LinkedKnown(clock, s);
      Remove(t);
      TakenOutKeepsRows(old(rows), t, rows);
      UnlinkKeeps(clock, clock - 1, s, t);
      NowValid(s.(list := Without(s.list, t)));
    }

    /** What the function of a timer, or a thread, does: an operation within the premises. */
    method Do(op: Op)
      requires Valid()
      modifies this, links
      ensures Valid() && Known(old(View()).table, old(View()).list) && View() == TimerModel.Do(old(View()), op) && clock == old(clock)
    {
      hide RowsLinked, Inv, RowsOk, TimerModel.Start;
      Levels();
      ghost var s := View();
      LinkedKnown(clock, s);
      DoKeeps(clock, clock - 1, s, op);
      if op.t !in timers { return; }
      EntriesOk(clock, s, op.t);
      match op {
        case DoStart(t) => if timers[t].period < HALF { Start(t); }
        case DoStop(t) => var ok := Stop(t);
        case SetTime(t, p) => if p < WORD { SetEntry(t, timers[t].(period := p)); }
        case SetPeriodic(t, b) => SetEntry(t, timers[t].(periodic := b));
      }
    }

    /** `rt_timer_control` */
    method SetEntry(t: Id, entry: Timer)
      requires Valid() && t in timers && entry.timeout == timers[t].timeout && entry.period < WORD
      modifies this`timers
      ensures Valid() && View() == old(View()).(table := old(timers)[t := entry])
    {
      hide LevelOk, Inv, SubList, NoDup, Window;
      LinkedKnown(clock, View());
      EntryKeeps(clock, clock - 1, View(), t, entry);
      ghost var ids := timers.Keys;
      timers := timers[t := entry];
      assert timers.Keys == ids;
    }

    /** `rt_list_isempty` of the bottom row */
    method NoTimers() returns (empty: bool)
      requires Valid()
      ensures empty <==> View().list == []
    {
      hide NoDup, SubList, Inv, IsRing;
      BottomLinked();
      empty := links.IsEmpty(Head(levels - 1), Nodes(Bottom(rows), levels - 1));
    }

    lemma BottomLinked()
      requires Valid()
      ensures levels > 0 && rows != [] && IsRing(links.next, links.prev, Nodes(Bottom(rows), levels - 1)) && Known(timers, Bottom(rows))
    {
      hide NoDup, SubList, IsRing;
      assert rows[levels - 1] == Bottom(rows);
    }

    /** The first timer of the bottom row */
    method FirstTimer() returns (t: Id)
      requires Valid() && View().list != []
      ensures t == View().list[0] && t in timers
    {
      hide RowsLinked, RowsOk, Inv, IsRing;
      BottomLinked();
      NodeLinks(links.next, links.prev, Bottom(rows), levels - 1, 0);
      t := links.next[Head(levels - 1)].t;
    }

    /** One round of `rt_timer_check`: the first timer is unlinked, its function runs, and it is started
        again if it is periodic and still active. */
    method FireFirst(t: Id, ops: seq<Op>)
      requires Valid() && View().list != [] && t == View().list[0] && t in timers
      requires Known(View().table, View().list) && CanFire(View(), ops)
      modifies this, links
      ensures Valid() && clock == old(clock) && View() == Fire(old(View()), ops)
    {
      hide RowsLinked, RowsOk, Inv, TimerModel.Start, TimerModel.Do;
      Levels();
      ghost var s := View();
      Unlink(t);
      Levels();
      ghost var u := View();
      LinkedKnown(clock, u);
      var i := 0;
      assert ops[0..] == ops;
      while i < |ops|
        invariant i <= |ops| && Valid() && rows != [] && clock == old(clock)
        invariant Known(View().table, View().list) && DoAll(View(), ops[i..]) == DoAll(u, ops)
      {
        assert ops[i..][0] == ops[i] && ops[i..][1..] == ops[i + 1..];
        Do(ops[i]);
        Levels();
        LinkedKnown(clock, View());
        i := i + 1;
      }
      assert View() == CallBack(s, ops);
      Finish(t);
    }

    method Finish(t: Id)
      requires Valid() && t in timers && CanFinish(View(), t)
      modifies this, links
      ensures Valid() && Known(old(View()).table, old(View()).list) && View() == TimerModel.Finish(old(View()), t) && clock == old(clock)
    {
      hide LevelOk, SubList, NoDup, Inv, TimerModel.Start;
      ghost var s := View();
      LinkedKnown(clock, s);
      EntriesOk(clock, s, t);
      EntryKeeps(clock, clock - 1, s, t, s.table[t].(active := false));
      var again := timers[t].periodic && timers[t].active;
      SetActive(t, false);
      if again { Start(t); }
    }

    /** `rt_timer_check`; the script says what the functions of the timers that fire do, and the loop ends
        after at most `n` rounds. */
    method Check(script: seq<seq<Op>>, ghost n: nat) returns (fired: seq<Id>)
      requires Valid() && Known(View().table, View().list) && Rounds(View(), script, n).done
      modifies this, links
      ensures Valid() && clock == old(clock) && Ends(old(View()), script) && (View(), fired) == TimerModel.Check(old(View()), script)
    {
      hide RowsLinked, RowsOk, Inv, Fire, CanFire, Due, DueTimers;
      Levels();
      ghost var s, left := View(), n;
      CheckIs(s, script, n);
      var rest := script;
      fired := [];
      PrefixedNothing(Rounds(s, script, n));
      var empty := NoTimers();
      while !empty
        invariant Valid() && rows != [] && clock == old(clock) && (empty <==> View().list == [])
        invariant Known(View().table, View().list) && Rounds(s, script, n) == Prefixed(fired, Rounds(View(), rest, left))
        decreases left
      {
        ghost var v := View();
        var t := FirstTimer();
        if Minus(tick, timers[t].timeout) < HALF {
          PrefixedTwice(fired, [t], Rounds(Fire(v, FirstOps(rest)), RestOps(rest), left - 1));
          FireFirst(t, FirstOps(rest));
          Levels();
          left := left - 1;
          fired := fired + [t];
          rest := RestOps(rest);
          empty := NoTimers();
          LinkedKnown(clock, View());
        } else {
          break;
        }
      }
      assert fired + [] == fired;
    }

    static lemma PrefixedNothing(c: Checked)
      ensures Prefixed([], c) == c
    {
      assert [] + c.fired == c.fired;
    }

    static lemma PrefixedTwice(a: seq<Id>, b: seq<Id>, c: Checked)
      ensures Prefixed(a, Prefixed(b, c)) == Prefixed(a + b, c)
    {
      assert a + (b + c.fired) == a + b + c.fired;
    }

    static ghost function Prefixed(a: seq<Id>, c: Checked): Checked { c.(fired := a + c.fired) }

    /** The timers' part of `rt_tick_increase` */
    method TickIncrease(script: seq<seq<Op>>) returns (fired: seq<Id>)
      requires Valid() && AtRest(clock, View()) && Known(View().table, View().list) && Ends(NextNow(View()), script)
      modifies this, links
      ensures Valid() && clock == old(clock) + 1 && (View(), fired) == TickOf(old(View()), script)
      ensures AtRest(clock, View())
    {
      hide RowsLinked, RowsOk, Inv, TimerModel.Check, Rounds, Window;
      Levels();
      ghost var s := View();
      NextTick(clock, s);
      TickRests(clock, s, script);
      ghost var n: nat :| Rounds(NextNow(s), script, n).done;
      tick := (tick + 1) % WORD;
      clock := clock + 1;
      NowValid(NextNow(s));
      fired := Check(script, n);
      Levels();
      assert (View(), fired) == TickOf(s, script);
    }
  }
}
