/** The scheduler as it runs: ready lists and wait lists are rings of linked nodes, the ready
    levels are kept in a bitmap, and every call is proved against the step machine. */
module Scheduling {
  import opened Rings
  import opened Bits
  import opened KernelModel
  import opened Words

  datatype Node = HeadNode(h: Head) | ThreadNode(t: Tid)

  /** The ring of list `h`: its head, then its threads. */
  ghost function Ring(h: Head, l: seq<Tid>): seq<Node> {
    [HeadNode(h)] + seq(|l|, i requires 0 <= i < |l| => ThreadNode(l[i]))
  }

  ghost predicate Loose(lists: Lists, t: Tid) { forall h :: h in lists ==> t !in lists[h] }

  /** Lists without repetitions that share no thread. */
  ghost predicate Separate(lists: Lists) {
    && (forall h :: h in lists ==> NoDup(lists[h]))
    && (forall h, k, t :: h in lists && k in lists && t in lists[h] && t in lists[k] ==> h == k)
  }

  /** The link words spell out the lists, and a thread in no list is linked to itself. */
  ghost predicate Linked(next: map<Node, Node>, prev: map<Node, Node>, lists: Lists, dom: set<Tid>) {
    && (forall h :: h in lists ==> IsRing(next, prev, Ring(h, lists[h])))
    && (forall t :: t in dom && Loose(lists, t) ==> IsRing(next, prev, [ThreadNode(t)]))
  }

  lemma RingHas(h: Head, l: seq<Tid>, x: Node)
    ensures x in Ring(h, l) <==> x == HeadNode(h) || (x.ThreadNode? && x.t in l)
  {
    if x.ThreadNode? && x.t in l {
      var i :| 0 <= i < |l| && l[i] == x.t;
      assert Ring(h, l)[i + 1] == x;
    }
  }

  lemma RingsApart(lists: Lists, h: Head, k: Head, x: Node)
    requires Separate(lists) && h in lists && k in lists && h != k
    ensures !(x in Ring(h, lists[h]) && x in Ring(k, lists[k]))
  {
    RingHas(h, lists[h], x);
    RingHas(k, lists[k], x);
  }

  /** After the node of `t` has been taken out of the ring of `h`. */
  lemma UnlinkLinked(next: map<Node, Node>, prev: map<Node, Node>, next': map<Node, Node>, prev': map<Node, Node>,
                     lists: Lists, dom: set<Tid>, t: Tid, h: Head)
    requires Separate(lists) && Linked(next, prev, lists, dom) && h in lists && t in lists[h]
    requires IsRing(next', prev', [ThreadNode(t)]) && IsRing(next', prev', Ring(h, Without(lists[h], t)))
    requires SameOutside(next, next', Ring(h, lists[h])) && SameOutside(prev, prev', Ring(h, lists[h]))
    ensures Linked(next', prev', Unlink(lists, t), dom)
  {
    forall k | k in lists ensures IsRing(next', prev', Ring(k, Without(lists[k], t))) {
      if k != h {
        forall x | x in Ring(k, lists[k]) ensures x !in Ring(h, lists[h]) { RingsApart(lists, h, k, x); }
        RingFrame(next, prev, next', prev', Ring(k, lists[k]), Ring(h, lists[h]));
        assert t !in lists[k];
      }
    }
    forall u | u in dom && Loose(Unlink(lists, t), u) ensures IsRing(next', prev', [ThreadNode(u)]) {
      if u != t {
        assert Loose(lists, u) by {
          forall k | k in lists ensures u !in lists[k] { assert u !in Unlink(lists, t)[k]; }
        }
        RingHas(h, lists[h], ThreadNode(u));
        RingFrame(next, prev, next', prev', [ThreadNode(u)], Ring(h, lists[h]));
      }
    }
  }

  /** After the node of a loose thread has been put into the ring of `h`. */
  lemma InsertLinked(next: map<Node, Node>, prev: map<Node, Node>, next': map<Node, Node>, prev': map<Node, Node>,
                     lists: Lists, dom: set<Tid>, t: Tid, h: Head, i: nat)
    requires Separate(lists) && Linked(next, prev, lists, dom) && h in lists && i <= |lists[h]| && Loose(lists, t)
    requires IsRing(next', prev', Ring(h, InsertAt(lists, h, i, t)[h]))
    requires SameOutside(next, next', Ring(h, lists[h]) + [ThreadNode(t)]) && SameOutside(prev, prev', Ring(h, lists[h]) + [ThreadNode(t)])
    ensures Linked(next', prev', InsertAt(lists, h, i, t), dom)
  {
    var lists' := InsertAt(lists, h, i, t);
    var out := Ring(h, lists[h]) + [ThreadNode(t)];
    forall k | k in lists' ensures IsRing(next', prev', Ring(k, lists'[k])) {
      if k != h {
        forall x | x in Ring(k, lists[k]) ensures x !in out { RingsApart(lists, h, k, x); RingHas(k, lists[k], x); }
        RingFrame(next, prev, next', prev', Ring(k, lists[k]), out);
      }
    }
    forall u | u in dom && Loose(lists', u) ensures IsRing(next', prev', [ThreadNode(u)]) {
      assert t in lists'[h];
      assert Loose(lists, u) by {
        forall k | k in lists ensures u !in lists[k] { assert u !in lists'[k]; }
      }
      RingHas(h, lists[h], ThreadNode(u));
      RingFrame(next, prev, next', prev', [ThreadNode(u)], out);
    }
  }

  lemma RingInsert(h: Head, l: seq<Tid>, i: nat, t: Tid)
    requires i <= |l|
    ensures Ring(h, l[..i] + [t] + l[i..]) == Ring(h, l)[..i + 1] + [ThreadNode(t)] + Ring(h, l)[i + 1..]
  {
  }

  lemma RingAppend(h: Head, l: seq<Tid>, t: Tid)
    ensures l[..|l|] + [t] + l[|l|..] == l + [t]
    ensures Ring(h, l + [t]) == Ring(h, l) + [ThreadNode(t)]
  {
  }

  lemma RingCut(h: Head, l: seq<Tid>, i: nat)
    requires i < |l|
    ensures Ring(h, l[..i] + l[i + 1..]) == Ring(h, l)[..i + 1] + Ring(h, l)[i + 2..]
  {
  }

  lemma HeadLinked(next: map<Node, Node>, prev: map<Node, Node>, next': map<Node, Node>, prev': map<Node, Node>,
                   lists: Lists, dom: set<Tid>, h: Head)
    requires Linked(next, prev, lists, dom) && h !in lists
    requires IsRing(next', prev', [HeadNode(h)]) && SameOutside(next, next', [HeadNode(h)]) && SameOutside(prev, prev', [HeadNode(h)])
    ensures Linked(next', prev', lists[h := []], dom)
  {
    assert Ring(h, []) == [HeadNode(h)];
    forall k | k in lists ensures IsRing(next', prev', Ring(k, lists[k])) {
      RingHas(k, lists[k], HeadNode(h));
      RingFrame(next, prev, next', prev', Ring(k, lists[k]), [HeadNode(h)]);
    }
    forall u | u in dom && Loose(lists[h := []], u) ensures IsRing(next', prev', [ThreadNode(u)]) {
      assert Loose(lists, u) by {
        forall k | k in lists ensures u !in lists[k] { assert u !in lists[h := []][k]; }
      }
      RingFrame(next, prev, next', prev', [ThreadNode(u)], [HeadNode(h)]);
    }
  }

  lemma ThreadLinked(next: map<Node, Node>, prev: map<Node, Node>, next': map<Node, Node>, prev': map<Node, Node>,
                     lists: Lists, dom: set<Tid>, t: Tid)
    requires Linked(next, prev, lists, dom) && Loose(lists, t)
    requires IsRing(next', prev', [ThreadNode(t)]) && SameOutside(next, next', [ThreadNode(t)]) && SameOutside(prev, prev', [ThreadNode(t)])
    ensures Linked(next', prev', lists, dom + {t})
  {
    forall k | k in lists ensures IsRing(next', prev', Ring(k, lists[k])) {
      RingHas(k, lists[k], ThreadNode(t));
      RingFrame(next, prev, next', prev', Ring(k, lists[k]), [ThreadNode(t)]);
    }
    forall u | u in dom && u != t && Loose(lists, u) ensures IsRing(next', prev', [ThreadNode(u)]) {
      RingFrame(next, prev, next', prev', [ThreadNode(u)], [ThreadNode(t)]);
    }
  }

  /** What `rt_list_remove` on the node of `t` does to the lists, `t` being at position `i` of the
      ring of `h` or in no list at all. */
  lemma UnlinkedLinked(next: map<Node, Node>, prev: map<Node, Node>, next': map<Node, Node>, prev': map<Node, Node>,
                       lists: Lists, dom: set<Tid>, t: Tid, h: Head, i: nat)
    requires Separate(lists) && Linked(next, prev, lists, dom)
    requires IsRing(next', prev', [ThreadNode(t)])
    requires if Loose(lists, t) then next' == next && prev' == prev
             else h in lists && t in lists[h] && i == IndexOf(lists[h], t) + 1
                  && IsRing(next', prev', Ring(h, lists[h])[..i] + Ring(h, lists[h])[i + 1..])
                  && SameOutside(next, next', Ring(h, lists[h])) && SameOutside(prev, prev', Ring(h, lists[h]))
    ensures Separate(Unlink(lists, t)) && Loose(Unlink(lists, t), t)
    ensures Linked(next', prev', Unlink(lists, t), dom)
  {
    forall k | k in lists ensures NoDup(Without(lists[k], t)) { WithoutKeepsNoDup(lists[k], t); }
    if Loose(lists, t) {
      assert Unlink(lists, t) == lists;
    } else {
      RingCut(h, lists[h], i - 1);
      WithoutAt(lists[h], i - 1);
      UnlinkLinked(next, prev, next', prev', lists, dom, t, h);
    }
  }

  ghost predicate Known(s: State) {
    forall h, t :: h in s.lists && t in s.lists[h] ==> t in s.threads
  }

  /** Exactly the levels whose ready list is not empty are marked. */
  ghost predicate MarksMatch(s: State, marks: set<nat>)
    requires WellFormed(s)
  {
    forall p: nat :: p in marks <==> p < s.levels && s.lists[ReadyList(p)] != []
  }

  /** The representation of a state, which also holds while a thread is between two lists. */
  ghost predicate Shape(s: State, next: map<Node, Node>, prev: map<Node, Node>, marks: set<nat>) {
    && WellFormed(s)
    && Separate(s.lists)
    && Known(s)
    && Linked(next, prev, s.lists, s.threads.Keys)
    && MarksMatch(s, marks)
  }

  /** The ready mark that `rt_schedule_remove_thread` leaves. */
  lemma RemoveMarks(s: State, marks: set<nat>, t: Tid)
    requires WellFormed(s) && t in s.threads && MarksMatch(s, marks)
    requires forall p: nat :: p < s.levels && t in s.lists[ReadyList(p)] ==> p == s.threads[t].prio
    ensures var r, p := RemoveThread(s, t), s.threads[t].prio;
      WellFormed(r) && MarksMatch(r, if r.lists[ReadyList(p)] == [] then marks - {p} else marks)
  {
    var r := RemoveThread(s, t);
    forall k: nat | k < s.levels && k != s.threads[t].prio
      ensures r.lists[ReadyList(k)] == s.lists[ReadyList(k)]
    {
      assert t !in s.lists[ReadyList(k)];
    }
  }

  lemma RemoveShape(s: State, next: map<Node, Node>, prev: map<Node, Node>, next': map<Node, Node>, prev': map<Node, Node>,
                    marks: set<nat>, t: Tid)
    requires Shape(s, next, prev, marks) && t in s.threads
    requires forall p: nat :: p < s.levels && t in s.lists[ReadyList(p)] ==> p == s.threads[t].prio
    requires Separate(Unlink(s.lists, t)) && Linked(next', prev', Unlink(s.lists, t), s.threads.Keys)
    ensures var r, p := RemoveThread(s, t), s.threads[t].prio;
      Shape(r, next', prev', if r.lists[ReadyList(p)] == [] then marks - {p} else marks)
  {
    RemoveMarks(s, marks, t);
    var r := RemoveThread(s, t);
    assert forall h, u :: h in r.lists && u in r.lists[h] ==> u in s.lists[h];
    assert Known(r);
  }

  /** Putting a loose thread into list `h` at position `i` marks the level of a ready list. */
  lemma InsertMarks(s: State, marks: set<nat>, t: Tid, h: Head, i: nat)
    requires WellFormed(s) && MarksMatch(s, marks) && h in s.lists && i <= |s.lists[h]|
    ensures var r := s.(lists := InsertAt(s.lists, h, i, t));
      WellFormed(r) && MarksMatch(r, if h.ReadyList? then marks + {h.p} else marks)
  {
  }

  lemma InsertShape(s: State, next: map<Node, Node>, prev: map<Node, Node>, next': map<Node, Node>, prev': map<Node, Node>,
                    marks: set<nat>, t: Tid, h: Head, i: nat)
    requires Shape(s, next, prev, marks) && t in s.threads && h in s.lists && i <= |s.lists[h]|
    requires var l := InsertAt(s.lists, h, i, t); Separate(l) && Linked(next', prev', l, s.threads.Keys)
    ensures Shape(s.(lists := InsertAt(s.lists, h, i, t)), next', prev', if h.ReadyList? then marks + {h.p} else marks)
  {
    InsertMarks(s, marks, t, h, i);
    var r := s.(lists := InsertAt(s.lists, h, i, t));
    assert Known(r);
  }

  lemma InsertSeparate(lists: Lists, h: Head, i: nat, t: Tid)
    requires Separate(lists) && h in lists && i <= |lists[h]| && Loose(lists, t)
    ensures Separate(InsertAt(lists, h, i, t))
  {
    var l := lists[h][..i] + [t] + lists[h][i..];
    assert forall x :: x in l <==> x == t || x in lists[h];
    assert NoDup(l);
  }

  lemma RecordShape(s: State, next: map<Node, Node>, prev: map<Node, Node>, marks: set<nat>, t: Tid, th: Thread)
    requires Shape(s, next, prev, marks) && t in s.threads && th.prio < s.levels && th.initPrio < s.levels
    ensures Shape(SetThread(s, t, th), next, prev, marks)
  {
    var r := SetThread(s, t, th);
    assert r.threads.Keys == s.threads.Keys;
    assert WellFormed(r) && Known(r) && MarksMatch(r, marks);
  }

  lemma FirstMarked(s: State, marks: set<nat>, p: nat)
    requires WellFormed(s) && MarksMatch(s, marks) && p in marks && forall k :: k in marks ==> p <= k
    ensures FirstLevel(s, 0) == p && s.lists[ReadyList(p)] != []
  {
    var f := FirstLevel(s, 0);
    if f < s.levels { assert f in marks; }
  }

  lemma NoneMarked(s: State, marks: set<nat>)
    requires WellFormed(s) && MarksMatch(s, marks) && marks == {}
    ensures FirstLevel(s, 0) == s.levels
  {
    var f := FirstLevel(s, 0);
    assert f < s.levels ==> f in marks;
  }

  lemma CurrentNotListed(s: State)
    requires Inv(s) && s.threads[s.current].stat == Running
    ensures Loose(s.lists, s.current) && Unlink(s.lists, s.current) == s.lists
    ensures s.threads[s.current := s.threads[s.current].(stat := Running)] == s.threads
  {
  }

  lemma SwitchReady(s: State, to: Tid)
    requires Inv(s) && to in s.threads && s.threads[to].stat == Ready
    ensures to != s.current && WellFormed(s.(current := to))
    ensures s.threads[s.current].stat == Running ==> Loose(s.lists, s.current)
    ensures var s1 := s.(current := to);
      var s2 := if s.threads[s.current].stat == Running then KernelModel.InsertThread(s1, s.current) else s1;
      forall p: nat :: p < s2.levels && to in s2.lists[ReadyList(p)] ==> p == s2.threads[to].prio
  {
  }

  /** A thread in a ready list has the priority of that list. */
  lemma ListedAtPrio(s: State, t: Tid)
    requires Inv(s) && t in s.threads
    ensures forall p: nat :: p < s.levels && t in s.lists[ReadyList(p)] ==> p == s.threads[t].prio
    ensures Loose(Unlink(s.lists, t), t)
  {
  }

  lemma TimeoutOrder(s: State, t: Tid)
    requires WellFormed(s) && t in s.threads
    ensures SetThread(RemoveThread(SetThread(s, t, s.threads[t].(error := Timeout)), t), t, s.threads[t].(error := Timeout, armed := false))
         == SetThread(RemoveThread(s, t), t, s.threads[t].(error := Timeout, armed := false))
  {
    Overwrite(s.threads, t, s.threads[t].(error := Timeout), s.threads[t].(error := Timeout, armed := false));
  }

  lemma StartupReady(s: State, t: Tid)
    requires Inv(s) && t in s.threads && s.threads[t].stat == Init
    ensures var th := s.threads[t]; Inv(SetThread(s, t, th.(prio := th.initPrio, stat := Suspended)))
  {
  }

  lemma CloseLoose(s: State, t: Tid)
    requires Inv(s) && t in s.threads
    ensures s.threads[t].stat == Init ==> Loose(s.lists, t)
    ensures s.threads[t].prio < s.levels && s.threads[t].initPrio < s.levels
  {
  }

  lemma CreateShape(s: State, next: map<Node, Node>, prev: map<Node, Node>, next': map<Node, Node>, prev': map<Node, Node>,
                    marks: set<nat>, t: Tid, th: Thread)
    requires Shape(s, next, prev, marks) && t !in s.threads && th.prio < s.levels && th.initPrio < s.levels
    requires IsRing(next', prev', [ThreadNode(t)]) && SameOutside(next, next', [ThreadNode(t)]) && SameOutside(prev, prev', [ThreadNode(t)])
    ensures Shape(SetThread(s, t, th), next', prev', marks)
  {
    ThreadLinked(next, prev, next', prev', s.lists, s.threads.Keys, t);
    var r := SetThread(s, t, th);
    assert r.threads.Keys == s.threads.Keys + {t};
    assert WellFormed(r) && Known(r) && MarksMatch(r, marks);
  }

  /** The insertion point of the priority order is unique. */
  lemma {:induction false} PositionIs(s: State, l: seq<Tid>, p: nat, k: nat)
    requires forall t :: t in l ==> t in s.threads
    requires k <= |l| && (forall j :: 0 <= j < k ==> s.threads[l[j]].prio <= p) && (k < |l| ==> p < s.threads[l[k]].prio)
    ensures Position(s, l, p, Prio) == k
  {
    if k > 0 { PositionIs(s, l[1..], p, k - 1); }
  }

  lemma {:induction false} PositionSame(s: State, r: State, l: seq<Tid>, p: nat, flag: Flag)
    requires forall t :: t in l ==> t in s.threads && t in r.threads && r.threads[t].prio == s.threads[t].prio
    ensures Position(s, l, p, flag) == Position(r, l, p, flag)
  {
    if l != [] { PositionSame(s, r, l[1..], p, flag); }
  }

  lemma BlockReady(s: State, q: nat)
    requires Inv(s) && s.threads[s.current].stat == Running && WaitList(q) in s.lists
    ensures Loose(s.lists, s.current) && Unlink(s.lists, s.current) == s.lists
    ensures forall t :: t in s.lists[WaitList(q)] ==> t in s.threads && t != s.current
  {
  }

  lemma LockShape(s: State, next: map<Node, Node>, prev: map<Node, Node>, marks: set<nat>, lock: nat)
    requires Shape(s, next, prev, marks)
    ensures Shape(s.(lock := lock), next, prev, marks)
  {
    var r := s.(lock := lock);
    assert WellFormed(r) && Known(r) && MarksMatch(r, marks);
  }

  lemma QueueShape(s: State, next: map<Node, Node>, prev: map<Node, Node>, next': map<Node, Node>, prev': map<Node, Node>,
                   marks: set<nat>, h: Head)
    requires Shape(s, next, prev, marks) && h.WaitList? && h !in s.lists
    requires IsRing(next', prev', [HeadNode(h)]) && SameOutside(next, next', [HeadNode(h)]) && SameOutside(prev, prev', [HeadNode(h)])
    ensures Shape(s.(lists := s.lists[h := []]), next', prev', marks)
  {
    var r := s.(lists := s.lists[h := []]);
    HeadLinked(next, prev, next', prev', s.lists, s.threads.Keys, h);
    assert WellFormed(r) && Known(r) && MarksMatch(r, marks) && Separate(r.lists);
  }

  lemma BootShape(levels: nat, prio: nat, tick: nat, next: map<Node, Node>, prev: map<Node, Node>)
    requires prio < levels && Linked(next, prev, ReadyLists(levels)[Defunct := []], {0})
    ensures Shape(Boot(levels, prio, tick), next, prev, {})
  {
  }

  class Scheduler {
    const levels: nat
    const bitmap: ReadyBitmap
    const nodes: ListNodes<Node>
    var threads: map<Tid, Thread>
    var current: Tid
    var lockNest: nat
    ghost var lists: Lists

    ghost function View(): State
      reads this
    {
      State(levels, threads, lists, current, lockNest)
    }

    ghost predicate Shaped()
      reads this, bitmap, nodes
    {
      bitmap.Valid() && bitmap.levels >= levels && Shape(View(), nodes.next, nodes.prev, bitmap.marks)
    }

    ghost predicate Valid()
      reads this, bitmap, nodes
    {
      Shaped() && Inv(View())
    }

    /** The state in which `rt_system_scheduler_start` leaves the machine, one thread running. */
    constructor (levels: nat, wide: bool, prio: nat, tick: nat)
      requires prio < levels <= if wide then 256 else 32
      ensures Valid() && fresh(bitmap) && fresh(nodes)
      ensures View() == Boot(levels, prio, tick)
    {
      this.levels := levels;
      var b := new ReadyBitmap(wide);
      var n := new ListNodes<Node>();
      bitmap, nodes := b, n;
      threads := map[0 := Thread(Running, prio, prio, Ok, tick, tick, false)];
      current, lockNest, lists := 0, 0, map[];
      new;
      InitReadyLists();
      InitLastNodes();
      BootShape(levels, prio, tick, nodes.next, nodes.prev);
      AlwaysPlaced(levels, prio, tick, [], 0);
    }

    method InitReadyLists()
      requires lists == map[]
      modifies nodes, this`lists
      ensures lists == ReadyLists(levels)
      ensures Linked(nodes.next, nodes.prev, lists, {})
    {
      for p := 0 to levels
        invariant lists == ReadyLists(p)
        invariant Linked(nodes.next, nodes.prev, lists, {})
      {
        ghost var next, prev := nodes.next, nodes.prev;
        nodes.Init(HeadNode(ReadyList(p)));
        HeadLinked(next, prev, nodes.next, nodes.prev, lists, {}, ReadyList(p));
        lists := lists[ReadyList(p) := []];
      }
    }

    method InitLastNodes()
      requires Linked(nodes.next, nodes.prev, lists, {}) && Defunct !in lists && Loose(lists, 0)
      modifies nodes, this`lists
      ensures lists == old(lists)[Defunct := []]
      ensures Linked(nodes.next, nodes.prev, lists, {0})
    {
      ghost var next, prev := nodes.next, nodes.prev;
      nodes.Init(HeadNode(Defunct));
      HeadLinked(next, prev, nodes.next, nodes.prev, lists, {}, Defunct);
      lists := lists[Defunct := []];
      next, prev := nodes.next, nodes.prev;
      nodes.Init(ThreadNode(0));
      ThreadLinked(next, prev, nodes.next, nodes.prev, lists, {}, 0);
      assert {} + {0} == {0};
    }

    /** `rt_list_remove` on the node of a thread: whichever list it is in, it leaves it. */
    method UnlinkNode(t: Tid)
      requires Separate(lists) && Linked(nodes.next, nodes.prev, lists, threads.Keys) && t in threads
      modifies this`lists, nodes
      ensures lists == Unlink(old(lists), t)
      ensures Separate(lists) && Linked(nodes.next, nodes.prev, lists, threads.Keys)
    {
      ghost var loose, h := Loose(lists, t), Defunct;
      if !loose { h :| h in lists && t in lists[h]; }
      ghost var ring := if loose then [ThreadNode(t)] else Ring(h, lists[h]);
      ghost var i := if loose then 0 else IndexOf(lists[h], t) + 1;
      nodes.Remove(ThreadNode(t), ring, i);
      UnlinkedLinked(old(nodes.next), old(nodes.prev), nodes.next, nodes.prev, lists, threads.Keys, t, h, i);
      lists := Unlink(lists, t);
    }

    /** `rt_schedule_remove_thread` */
    method RemoveThread(t: Tid)
      requires Shaped() && t in threads
      requires forall p: nat :: p < levels && t in lists[ReadyList(p)] ==> p == threads[t].prio
      modifies this`lists, bitmap, nodes
      ensures Shaped() && View() == KernelModel.RemoveThread(old(View()), t)
    {
      var p := threads[t].prio;
      UnlinkNode(t);
      RemoveShape(old(View()), old(nodes.next), old(nodes.prev), nodes.next, nodes.prev, bitmap.marks, t);
      var empty := nodes.IsEmpty(HeadNode(ReadyList(p)), Ring(ReadyList(p), lists[ReadyList(p)]));
      if empty {
        bitmap.Unmark(p);
      }
    }

    method SetRecord(t: Tid, th: Thread)
      requires Shaped() && t in threads && th.prio < levels && th.initPrio < levels
      modifies this`threads
      ensures Shaped() && View() == SetThread(old(View()), t, th)
    {
      RecordShape(View(), nodes.next, nodes.prev, bitmap.marks, t, th);
      threads := threads[t := th];
    }

    /** `rt_list_insert_before` of the node of a loose thread before `at`: the head of a list, or
        the `i`-th of its threads. */
    method LinkNode(at: Node, t: Tid, ghost h: Head, ghost i: nat)
      requires Separate(lists) && Linked(nodes.next, nodes.prev, lists, threads.Keys)
      requires h in lists && i <= |lists[h]| && Loose(lists, t)
      requires at == if i == |lists[h]| then HeadNode(h) else ThreadNode(lists[h][i])
      modifies this`lists, nodes
      ensures lists == InsertAt(old(lists), h, i, t)
      ensures Separate(lists) && Linked(nodes.next, nodes.prev, lists, threads.Keys)
    {
      ghost var l := lists[h];
      RingHas(h, l, ThreadNode(t));
      nodes.InsertBefore(at, ThreadNode(t), Ring(h, l), if i == |l| then 0 else i + 1);
      RingInsert(h, l, i, t);
      RingAppend(h, l, t);
      InsertLinked(old(nodes.next), old(nodes.prev), nodes.next, nodes.prev, lists, threads.Keys, t, h, i);
      InsertSeparate(lists, h, i, t);
      lists := InsertAt(lists, h, i, t);
    }

    /** `rt_schedule_insert_thread` */
    method InsertThread(t: Tid)
      requires Shaped() && t in threads && Loose(lists, t)
      modifies this`threads, this`lists, bitmap, nodes
      ensures Shaped() && View() == KernelModel.InsertThread(old(View()), t)
    {
      hide Inv, NoDup;
      if t == current {
        SetRecord(t, threads[t].(stat := Running));
      } else {
        SetRecord(t, threads[t].(stat := Ready));
        var p := threads[t].prio;
        ghost var s, next, prev := View(), nodes.next, nodes.prev;
        LinkNode(HeadNode(ReadyList(p)), t, ReadyList(p), |lists[ReadyList(p)]|);
        InsertShape(s, next, prev, nodes.next, nodes.prev, bitmap.marks, t, ReadyList(p), |s.lists[ReadyList(p)]|);
        bitmap.Mark(p);
      }
    }

    /** The first thread of a list that is not empty. */
    method First(h: Head) returns (t: Tid)
      requires Shaped() && h in lists && lists[h] != []
      ensures t == lists[h][0]
    {
      assert IsRing(nodes.next, nodes.prev, Ring(h, lists[h]));
      assert Link(nodes.next, nodes.prev, Ring(h, lists[h])[0], Ring(h, lists[h])[Succ(0, |lists[h]| + 1)]);
      t := nodes.next[HeadNode(h)].t;
    }

    /** `rt_schedule` */
    method Schedule()
      requires Valid()
      modifies this, bitmap, nodes
      ensures Valid() && View() == KernelModel.Schedule(old(View()))
    {
      ScheduleKeeps(View());
      bitmap.EmptyIffZero();
      if lockNest == 0 {
        if bitmap.group != 0 {
          var needInsert := false;
          var p := bitmap.First();
          FirstMarked(View(), bitmap.marks, p);
          var to := First(ReadyList(p));
          assert to in lists[ReadyList(p)];
          if threads[current].stat == Running {
            if threads[current].prio < p {
              to := current;
            } else {
              needInsert := true;
            }
          }
          if to != current {
            Switch(to, needInsert);
          } else {
            CurrentNotListed(View());
            RemoveThread(current);
            SetRecord(current, threads[current].(stat := Running));
          }
        } else {
          NoneMarked(View(), bitmap.marks);
        }
      }
    }

    method Switch(to: Tid, needInsert: bool)
      requires Valid() && to in threads && threads[to].stat == Ready
      requires needInsert <==> threads[current].stat == Running
      modifies this, bitmap, nodes
      ensures Valid() && View() == SwitchTo(old(View()), to)
    {
      SwitchKeeps(View(), to);
      SwitchReady(View(), to);
      var from := current;
      current := to;
      assert Shape(View(), nodes.next, nodes.prev, bitmap.marks);
      if needInsert {
        InsertThread(from);
      }
      RemoveThread(to);
      SetRecord(to, threads[to].(stat := Running));
    }

    // ----- thread.c -----

    /** `rt_thread_suspend` */
    method Suspend(t: Tid) returns (done: bool)
      requires Valid() && t in threads
      modifies this`threads, this`lists, bitmap, nodes
      ensures Valid() && View() == KernelModel.Suspend(old(View()), t)
      ensures done <==> old(threads)[t].stat in {Ready, Running}
    {
      StepKeeps(View(), DoSuspend(t));
      done := threads[t].stat == Ready || threads[t].stat == Running;
      if done {
        ListedAtPrio(View(), t);
        RemoveThread(t);
        SetRecord(t, threads[t].(stat := Suspended, armed := false));
      }
    }

    /** `rt_thread_resume` */
    method Resume(t: Tid) returns (done: bool)
      requires Valid() && t in threads
      modifies this`threads, this`lists, bitmap, nodes
      ensures Valid() && View() == KernelModel.Resume(old(View()), t)
      ensures done <==> old(threads)[t].stat == Suspended
    {
      ResumeKeeps(View(), t);
      done := threads[t].stat == Suspended;
      if done {
        ListedAtPrio(View(), t);
        RemoveThread(t);
        SetRecord(t, threads[t].(armed := false));
        InsertThread(t);
      }
    }

    /** `rt_thread_timeout`; that the thread is suspended is what the function asserts. */
    method TimeoutThread(t: Tid)
      requires Valid() && t in threads && threads[t].stat == Suspended
      modifies this, bitmap, nodes
      ensures Valid() && (ResumeKeeps(old(View()), t); View() == KernelModel.Schedule(Expire(old(View()), t)))
    {
      ResumeKeeps(View(), t);
      ListedAtPrio(View(), t);
      SetRecord(t, threads[t].(error := Timeout));
      RemoveThread(t);
      SetRecord(t, threads[t].(armed := false));
      InsertThread(t);
      TimeoutOrder(old(View()), t);
      Schedule();
    }

    method CreateThread(t: Tid, prio: nat, tick: nat)
      requires Valid() && t !in threads && prio < levels
      modifies this`threads, nodes
      ensures Valid() && View() == Create(old(View()), t, prio, tick)
    {
      StepKeeps(View(), DoCreate(t, prio, tick));
      ghost var s, next, prev := View(), nodes.next, nodes.prev;
      nodes.Init(ThreadNode(t));
      threads := threads[t := Thread(Init, prio, prio, Ok, tick, tick, false)];
      CreateShape(s, next, prev, nodes.next, nodes.prev, bitmap.marks, t, threads[t]);
    }

    /** `rt_thread_startup`, up to its call of the scheduler */
    method Startup(t: Tid)
      requires Valid() && t in threads && threads[t].stat == Init
      modifies this`threads, this`lists, bitmap, nodes
      ensures Valid() && View() == KernelModel.Startup(old(View()), t)
    {
      var th := threads[t];
      StartupReady(View(), t);
      SetRecord(t, th.(prio := th.initPrio, stat := Suspended));
      var done := Resume(t);
    }

    /** `rt_thread_control` with `RT_THREAD_CTRL_CHANGE_PRIORITY` */
    method ChangePriority(t: Tid, p: nat)
      requires Valid() && t in threads && p < levels
      modifies this`threads, this`lists, bitmap, nodes
      ensures Valid() && View() == KernelModel.ChangePriority(old(View()), t, p)
    {
      ChangePriorityKeeps(View(), t, p);
      if threads[t].stat == Ready {
        ListedAtPrio(View(), t);
        RemoveThread(t);
        SetRecord(t, threads[t].(prio := p));
        InsertThread(t);
      } else {
        SetRecord(t, threads[t].(prio := p));
      }
    }

    /** `rt_thread_exit` and `rt_thread_delete`, up to the call of the scheduler */
    method Close(t: Tid, defunct: bool)
      requires Valid() && t in threads
      modifies this`threads, this`lists, bitmap, nodes
      ensures Valid() && View() == KernelModel.Close(old(View()), t, defunct)
    {
      hide Shape, Inv, NoDup, Without;
      CloseKeeps(View(), t, defunct);
      ListedAtPrio(View(), t);
      CloseLoose(View(), t);
      if threads[t].stat != Init {
        RemoveThread(t);
      }
      SetRecord(t, threads[t].(stat := Closed, armed := false));
      if defunct {
        LinkDefunct(t);
      }
    }

    /** `rt_list_insert_after` of the defunct list head */
    method LinkDefunct(t: Tid)
      requires Shaped() && t in threads && Loose(lists, t)
      modifies this`lists, nodes
      ensures Shaped() && lists == InsertAt(old(lists), Defunct, 0, t)
    {
      ghost var s, next, prev, l := View(), nodes.next, nodes.prev, lists[Defunct];
      RingHas(Defunct, l, ThreadNode(t));
      nodes.InsertAfter(HeadNode(Defunct), ThreadNode(t), Ring(Defunct, l), 0);
      RingInsert(Defunct, l, 0, t);
      InsertLinked(next, prev, nodes.next, nodes.prev, lists, threads.Keys, t, Defunct, 0);
      InsertSeparate(lists, Defunct, 0, t);
      InsertShape(s, next, prev, nodes.next, nodes.prev, bitmap.marks, t, Defunct, 0);
      lists := InsertAt(lists, Defunct, 0, t);
    }

    /** The node after the head of a list: its first thread, or the head again. */
    method FirstNode(h: Head) returns (n: Node)
      requires Linked(nodes.next, nodes.prev, lists, threads.Keys) && h in lists
      ensures n == if lists[h] == [] then HeadNode(h) else ThreadNode(lists[h][0])
    {
      ghost var r := Ring(h, lists[h]);
      assert IsRing(nodes.next, nodes.prev, r);
      assert Link(nodes.next, nodes.prev, r[0], r[Succ(0, |r|)]);
      n := nodes.next[HeadNode(h)];
    }

    /** The node after that of thread number `i` of a list. */
    method NextNode(n: Node, ghost h: Head, ghost i: nat) returns (m: Node)
      requires Linked(nodes.next, nodes.prev, lists, threads.Keys) && h in lists && i < |lists[h]| && n == ThreadNode(lists[h][i])
      ensures m == if i + 1 == |lists[h]| then HeadNode(h) else ThreadNode(lists[h][i + 1])
    {
      ghost var r := Ring(h, lists[h]);
      assert IsRing(nodes.next, nodes.prev, r);
      assert r[i + 1] == n && Link(nodes.next, nodes.prev, r[i + 1], r[Succ(i + 1, |r|)]);
      m := nodes.next[n];
    }

    /** `rt_thread_sleep`, up to its call of the scheduler */
    method Sleep()
      requires Valid() && threads[current].stat == Running
      modifies this`threads, this`lists, bitmap, nodes
      ensures Valid() && View() == Step(old(View()), DoSleep)
    {
      SleepKeeps(View());
      var done := Suspend(current);
      SetRecord(current, threads[current].(armed := true));
    }

    /** An assignment to the `error` field of a thread. */
    method AssignError(t: Tid, e: Err)
      requires Valid() && t in threads
      modifies this`threads
      ensures Valid() && View() == SetThread(old(View()), t, old(threads)[t].(error := e))
    {
      RecordKeeps(View(), t, threads[t].(error := e));
      SetRecord(t, threads[t].(error := e));
    }

    // ----- ipc.c: wait lists -----

    /** `rt_ipc_object_init` */
    method NewQueue(q: nat)
      requires Valid() && WaitList(q) !in lists
      modifies this`lists, nodes
      ensures Valid() && View() == Step(old(View()), KernelModel.NewQueue(q))
    {
      StepKeeps(View(), KernelModel.NewQueue(q));
      ghost var s, next, prev := View(), nodes.next, nodes.prev;
      nodes.Init(HeadNode(WaitList(q)));
      QueueShape(s, next, prev, nodes.next, nodes.prev, bitmap.marks, WaitList(q));
      lists := lists[WaitList(q) := []];
    }

    /** The error cleared, then `rt_ipc_list_suspend` on the running thread, then its timer
        started when the waiting time is positive. */
    method Block(q: nat, flag: Flag, timed: bool)
      requires Valid() && threads[current].stat == Running && WaitList(q) in lists
      modifies this`threads, this`lists, bitmap, nodes
      ensures Valid() && View() == KernelModel.Block(old(View()), q, flag, timed)
    {
      ghost var s := View();
      BlockKeeps(s, q, flag, timed);
      BlockReady(s, q);
      ListedAtPrio(s, current);
      var t := current;
      RemoveThread(t);
      SetRecord(t, threads[t].(stat := Suspended, error := Ok, armed := timed));
      PositionSame(s, View(), lists[WaitList(q)], threads[t].prio, flag);
      LinkWaiter(q, flag, t);
    }

    method LinkWaiter(q: nat, flag: Flag, t: Tid)
      requires Shaped() && t in threads && Loose(lists, t) && WaitList(q) in lists
      modifies this`lists, nodes
      ensures Shaped()
      ensures lists == InsertAt(old(lists), WaitList(q), Position(old(View()), old(lists)[WaitList(q)], threads[t].prio, flag), t)
    {
      ghost var s, next, prev, l := View(), nodes.next, nodes.prev, lists[WaitList(q)];
      var n := HeadNode(WaitList(q));
      ghost var k := |l|;
      if flag == Prio {
        n, k := FindPlace(q, threads[t].prio);
        PositionIs(s, l, threads[t].prio, k);
      }
      LinkNode(n, t, WaitList(q), k);
      InsertShape(s, next, prev, nodes.next, nodes.prev, bitmap.marks, t, WaitList(q), k);
    }

    /** The search for a place in a wait list ordered by priority. */
    method FindPlace(q: nat, p: nat) returns (n: Node, ghost k: nat)
      requires Shaped() && WaitList(q) in lists
      ensures k <= |lists[WaitList(q)]|
      ensures n == if k == |lists[WaitList(q)]| then HeadNode(WaitList(q)) else ThreadNode(lists[WaitList(q)][k])
      ensures forall j :: 0 <= j < k ==> lists[WaitList(q)][j] in threads && threads[lists[WaitList(q)][j]].prio <= p
      ensures k < |lists[WaitList(q)]| ==> lists[WaitList(q)][k] in threads && p < threads[lists[WaitList(q)][k]].prio
    {
      ghost var h := WaitList(q);
      ghost var l := lists[h];
      n := FirstNode(WaitList(q));
      k := 0;
      while n != HeadNode(WaitList(q))
        invariant k <= |l| && n == if k == |l| then HeadNode(h) else ThreadNode(l[k])
        invariant forall j :: 0 <= j < k ==> l[j] in threads && threads[l[j]].prio <= p
        decreases |l| - k
      {
        assert l[k] in l;
        if p < threads[n.t].prio {
          break;
        }
        n := NextNode(n, h, k);
        k := k + 1;
      }
    }

    /** `rt_ipc_list_resume` */
    method Wake(q: nat) returns (t: Tid)
      requires Valid() && WaitList(q) in lists && lists[WaitList(q)] != []
      modifies this`threads, this`lists, bitmap, nodes
      ensures Valid() && View() == KernelModel.Wake(old(View()), q) && t == old(lists)[WaitList(q)][0]
    {
      var n := FirstNode(WaitList(q));
      t := n.t;
      assert t in lists[WaitList(q)];
      var done := Resume(t);
    }

    // ----- clock.c and the scheduler lock -----

    /** The time-slice half of `rt_tick_increase` */
    method TickSlice()
      requires Valid()
      modifies this, bitmap, nodes
      ensures Valid() && View() == Tick(old(View()))
    {
      hide Placed, Linked, MarksMatch, Known, Separate;
      var me := threads[current];
      TickKeeps(View());
      var left := if me.remaining == 0 then WORD - 1 else me.remaining - 1;
      SetRecord(current, me.(remaining := left));
      if left == 0 {
        Overwrite(old(threads), current, me.(remaining := left), me.(remaining := me.initTick));
        RecordKeeps(old(View()), current, me.(remaining := me.initTick));
        SetRecord(current, me.(remaining := me.initTick));
        Schedule();
      }
    }

    method EnterCritical()
      requires Valid()
      modifies this`lockNest
      ensures Valid() && View() == Step(old(View()), KernelModel.EnterCritical)
    {
      LockKeeps(View(), lockNest + 1);
      LockShape(View(), nodes.next, nodes.prev, bitmap.marks, lockNest + 1);
      lockNest := lockNest + 1;
    }

    method ExitCritical()
      requires Valid()
      modifies this, bitmap, nodes
      ensures Valid() && View() == Step(old(View()), KernelModel.ExitCritical)
    {
      if lockNest <= 1 {
        LockShape(View(), nodes.next, nodes.prev, bitmap.marks, 0);
        LockKeeps(View(), 0);
        lockNest := 0;
        Schedule();
      } else {
        LockShape(View(), nodes.next, nodes.prev, bitmap.marks, lockNest - 1);
        LockKeeps(View(), lockNest - 1);
        lockNest := lockNest - 1;
      }
    }
  }
}
