/** `rt_ipc_object`: the list of threads waiting on an object, and what becomes of them.

    A blocking call is two regions of code with a rescheduling between them.  A thread inside
    such a call is either still in the wait list, or it has left the list (it was resumed, or
    its timer fired) and has not run on yet; what it will find in its `error` is then fixed. */
module IpcModel {
  import opened Rings
  import opened KernelModel
  import opened Words

  /** `woken`: the threads that have left the list but not the call, with their error. */
  datatype Waits = Waits(waiters: seq<Tid>, woken: map<Tid, Err>)

  ghost predicate Sound(w: Waits) {
    NoDup(w.waiters) && forall t :: t in w.waiters ==> t !in w.woken
  }

  predicate Inside(w: Waits, t: Tid) { t in w.waiters || t in w.woken }

  function Enqueue(w: Waits, t: Tid, i: nat): Waits
    requires i <= |w.waiters|
  {
    w.(waiters := w.waiters[..i] + [t] + w.waiters[i..])
  }

  function WakeFirst(w: Waits): Waits
    requires w.waiters != []
  {
    Waits(w.waiters[1..], w.woken[w.waiters[0] := Ok])
  }

  function FailFirst(w: Waits): Waits
    requires w.waiters != []
  {
    Waits(w.waiters[1..], w.woken[w.waiters[0] := Error])
  }

  /** Thread `i` of the list leaves it with success. */
  function WakeAt(w: Waits, i: nat): Waits
    requires i < |w.waiters|
  {
    Waits(w.waiters[..i] + w.waiters[i + 1..], w.woken[w.waiters[i] := Ok])
  }

  lemma WakeAtKeeps(w: Waits, i: nat)
    requires Sound(w) && i < |w.waiters|
    ensures Sound(WakeAt(w, i)) && w.waiters[i] !in WakeAt(w, i).waiters
    ensures forall t :: t in WakeAt(w, i).waiters ==> t in w.waiters
  {
    WithoutAt(w.waiters, i);
    WithoutKeepsNoDup(w.waiters, w.waiters[i]);
  }

  /** All waiters leave with an error. */
  function WakeAll(w: Waits): Waits {
    Waits([], w.woken + map t | t in w.waiters :: Error)
  }

  lemma NoneToWake(w: Waits)
    requires w.waiters == []
    ensures WakeAll(w) == w
  {
    assert WakeAll(w).woken == w.woken;
  }

  lemma FailFirstOfAll(w: Waits)
    requires w.waiters != []
    ensures WakeAll(FailFirst(w)) == WakeAll(w)
  {
    var a, b := WakeAll(FailFirst(w)).woken, WakeAll(w).woken;
    assert forall t :: t in w.waiters <==> t == w.waiters[0] || t in w.waiters[1..];
    assert a.Keys == b.Keys;
    assert forall t :: t in a ==> a[t] == b[t];
  }

  function Expire(w: Waits, t: Tid): Waits {
    Waits(Without(w.waiters, t), w.woken[t := Timeout])
  }

  function Leave(w: Waits, t: Tid): Waits {
    w.(woken := w.woken - {t})
  }

  lemma WaitsKeep(w: Waits, t: Tid, i: nat)
    requires Sound(w)
    ensures !Inside(w, t) && i <= |w.waiters| ==> Sound(Enqueue(w, t, i))
    ensures w.waiters != [] ==> Sound(WakeFirst(w))
    ensures Sound(WakeAll(w)) && Sound(Expire(w, t)) && Sound(Leave(w, t))
  {
    if !Inside(w, t) && i <= |w.waiters| { EnqueueKeeps(w, t, i); }
    if w.waiters != [] { assert forall x :: x in w.waiters[1..] ==> x in w.waiters; }
    WithoutKeepsNoDup(w.waiters, t);
  }

  lemma EnqueueKeeps(w: Waits, t: Tid, i: nat)
    requires Sound(w) && !Inside(w, t) && i <= |w.waiters|
    ensures Sound(Enqueue(w, t, i))
  {
    var l := w.waiters[..i] + [t] + w.waiters[i..];
    assert forall x :: x in l <==> x == t || x in w.waiters;
    assert NoDup(l);
  }

  // ----- wake-ups -----

  function WakeAny(w: Waits): Waits { if w.waiters != [] then WakeFirst(w) else w }

  /** Thread `t` has joined the waiters, somewhere among them; nothing else has changed. */
  ghost predicate Joins(w: Waits, r: Waits, t: Tid) {
    r.woken == w.woken && exists i :: 0 <= i <= |w.waiters| && r.waiters == w.waiters[..i] + [t] + w.waiters[i..]
  }

  /** The first waiter, if there is one, has left the list with success; nothing else has changed. */
  ghost predicate FirstResumed(w: Waits, r: Waits) {
    if w.waiters == [] then r == w
    else
      var t := w.waiters[0];
      && w.waiters == [t] + r.waiters && (forall x :: x in r.woken <==> x == t || x in w.woken)
      && r.woken[t] == Ok && forall x :: x in w.woken && x != t ==> r.woken[x] == w.woken[x]
  }

  /** All waiters have left the list with an error; nothing else has changed. */
  ghost predicate AllFailed(w: Waits, r: Waits) {
    && r.waiters == [] && (forall x :: x in r.woken <==> x in w.waiters || x in w.woken)
    && (forall x :: x in w.waiters ==> r.woken[x] == Error)
    && forall x :: x in w.woken && x !in w.waiters ==> r.woken[x] == w.woken[x]
  }

  lemma WaitsAre(w: Waits, t: Tid, i: nat)
    ensures i <= |w.waiters| ==> Joins(w, Enqueue(w, t, i), t) && forall x :: x in Enqueue(w, t, i).waiters <==> x == t || x in w.waiters
    ensures FirstResumed(w, WakeAny(w)) && AllFailed(w, WakeAll(w))
  {
    if w.waiters != [] { assert w.waiters == [w.waiters[0]] + w.waiters[1..]; }
  }

  /** The threads that have been resumed with success and have not run on. */
  function Resumed(w: Waits): set<Tid> { set t | t in w.woken && w.woken[t] == Ok }

  /** Nobody sleeps while there is more on offer than resumed threads to take it. */
  ghost predicate Attended(w: Waits, offer: int) { w.waiters != [] ==> offer <= |Resumed(w)| }

  lemma ResumedAfterWake(w: Waits)
    requires Sound(w) && w.waiters != []
    ensures |Resumed(WakeFirst(w))| == |Resumed(w)| + 1
  {
    var t := w.waiters[0];
    assert t in w.waiters;
    assert Resumed(WakeFirst(w)) == Resumed(w) + {t};
  }

  lemma ResumedAfterLeave(w: Waits, t: Tid)
    requires t in w.woken
    ensures |Resumed(Leave(w, t))| == if w.woken[t] == Ok then |Resumed(w)| - 1 else |Resumed(w)|
  {
    assert Resumed(Leave(w, t)) == Resumed(w) - {t};
  }

  lemma ResumedAfterExpire(w: Waits, t: Tid)
    requires Sound(w) && t in w.waiters
    ensures Resumed(Expire(w, t)) == Resumed(w)
  {
  }

  /** One more on offer: the first waiter is resumed for it. */
  lemma WakeAttends(w: Waits, offer: int)
    requires Sound(w) && Attended(w, offer)
    ensures Sound(WakeAny(w)) && Attended(WakeAny(w), offer + 1)
  {
    if w.waiters != [] {
      WaitsKeep(w, 0, 0);
      ResumedAfterWake(w);
    }
  }

  // ----- the waiting time of a call that blocks again -----

  /** What is left of a waiting time of `timeout` ticks that began at tick `start`: signed and
      unsigned 32-bit arithmetic of the C code. */
  function TimeLeft(timeout: int, start: nat, now: nat): int {
    if timeout <= 0 then timeout
    else
      var left := (timeout - (now - start)) % WORD;
      if left >= WORD / 2 then 0 else left
  }

  /** As long as less than half the range of the clock has passed, waiting time only runs down,
      tick by tick, and stops at zero. */
  lemma TimeRunsDown(timeout: int, start: nat, passed: nat)
    requires 0 < timeout < WORD / 2 && start < WORD && passed <= WORD / 2
    ensures TimeLeft(timeout, start, (start + passed) % WORD) == if passed >= timeout then 0 else timeout - passed
  {
    var now := (start + passed) % WORD;
    assert now == start + passed || now == start + passed - WORD;
    assert (timeout - (now - start)) % WORD == (timeout - passed) % WORD;
  }

  // ----- the waiters of a queue in a kernel state -----

  ghost predicate WaitsOk(s: State, q: nat, inside: set<Tid>) {
    && Inv(s) && Blocked(s, q, inside)
    && (forall t :: t in inside ==> (s.threads[t].stat == Suspended <==> t in s.lists[WaitList(q)]))
    && (forall t :: t in s.lists[WaitList(q)] ==> s.threads[t].error == Ok)
  }

  ghost function WaitsOf(s: State, q: nat, inside: set<Tid>): Waits
    requires WaitsOk(s, q, inside)
  {
    Waits(s.lists[WaitList(q)], map t | t in inside && t !in s.lists[WaitList(q)] :: s.threads[t].error)
  }

  /** Steps elsewhere do not touch the waiters, and a timer of a thread inside the call can
      only fire while the thread is in the wait list. */
  lemma ForeignWaits(s: State, a: Action, q: nat, inside: set<Tid>)
    requires WaitsOk(s, q, inside) && Enabled(s, a)
    ensures Foreign(s, a, q, inside) ==> WaitsOk(Step(s, a), q, inside) && WaitsOf(Step(s, a), q, inside) == WaitsOf(s, q, inside)
    ensures a.TimerFires? && a.t in inside ==> a.t in s.lists[WaitList(q)]
  {
    hide Placed, Step;
    if Foreign(s, a, q, inside) {
      StepKeeps(s, a);
      StepForeign(s, a, q, inside);
      UnmovedWaits(s, Step(s, a), q, inside);
    }
  }

  lemma UnmovedWaits(s: State, r: State, q: nat, inside: set<Tid>)
    requires WaitsOk(s, q, inside) && Inv(r) && Unmoved(s, r, q, inside)
    ensures WaitsOk(r, q, inside) && WaitsOf(r, q, inside) == WaitsOf(s, q, inside)
  {
    hide Inv;
  }

  lemma BlockIs(s: State, q: nat, flag: Flag, timed: bool)
    requires Inv(s) && Enabled(s, DoBlock(q, flag, timed))
    ensures var t, l := s.current, s.lists[WaitList(q)];
      var i := Position(s, l, s.threads[t].prio, flag);
      && i <= |l| && t !in l
      && Block(s, q, flag, timed) == s.(threads := s.threads[t := s.threads[t].(stat := Suspended, error := Ok, armed := timed)],
                                        lists := s.lists[WaitList(q) := l[..i] + [t] + l[i..]])
  {
    BlockKeeps(s, q, flag, timed);
  }

  lemma JoinWaits(s: State, r: State, q: nat, inside: set<Tid>, t: Tid, i: nat)
    requires WaitsOk(s, q, inside) && Inv(r) && t !in inside && t !in s.lists[WaitList(q)] && i <= |s.lists[WaitList(q)]|
    requires t in r.threads && r.threads[t].stat == Suspended && r.threads[t].error == Ok && r.threads == s.threads[t := r.threads[t]]
    requires WaitList(q) in r.lists && r.lists[WaitList(q)] == s.lists[WaitList(q)][..i] + [t] + s.lists[WaitList(q)][i..]
    ensures WaitsOk(r, q, inside + {t}) && WaitsOf(r, q, inside + {t}) == Enqueue(WaitsOf(s, q, inside), t, i)
  {
    hide Inv;
    var l := s.lists[WaitList(q)];
    assert forall x :: x in r.lists[WaitList(q)] <==> x == t || x in l;
  }

  lemma BlockWaits(s: State, q: nat, flag: Flag, timed: bool, inside: set<Tid>)
    requires WaitsOk(s, q, inside) && Enabled(s, DoBlock(q, flag, timed)) && s.current !in inside
    ensures var r := Block(s, q, flag, timed);
      var i := Position(s, s.lists[WaitList(q)], s.threads[s.current].prio, flag);
      && WaitsOk(r, q, inside + {s.current})
      && i <= |s.lists[WaitList(q)]|
      && WaitsOf(r, q, inside + {s.current}) == Enqueue(WaitsOf(s, q, inside), s.current, i)
  {
    hide Placed, Block, WaitsOf, Position;
    BlockKeeps(s, q, flag, timed);
    BlockIs(s, q, flag, timed);
    JoinWaits(s, Block(s, q, flag, timed), q, inside, s.current, Position(s, s.lists[WaitList(q)], s.threads[s.current].prio, flag));
  }

  /** Waking thread `t` of the list, in the form shared by resuming and timing out. */
  lemma UnblockWaits(s: State, t: Tid, th: Thread, q: nat, inside: set<Tid>)
    requires WaitsOk(s, q, inside) && t in s.lists[WaitList(q)]
    requires th.prio < s.levels && th.initPrio < s.levels
    requires Inv(InsertThread(SetThread(RemoveThread(s, t), t, th), t))
    ensures var r := InsertThread(SetThread(RemoveThread(s, t), t, th), t);
      && WaitsOk(r, q, inside)
      && WaitsOf(r, q, inside) == Waits(Without(s.lists[WaitList(q)], t), WaitsOf(s, q, inside).woken[t := th.error])
  {
    hide Placed;
    var r := InsertThread(SetThread(RemoveThread(s, t), t, th), t);
    assert r.lists[WaitList(q)] == Without(s.lists[WaitList(q)], t);
  }

  lemma WakeWaits(s: State, q: nat, inside: set<Tid>)
    requires WaitsOk(s, q, inside) && s.lists[WaitList(q)] != []
    ensures WaitsOk(Wake(s, q), q, inside) && WaitsOf(Wake(s, q), q, inside) == WakeFirst(WaitsOf(s, q, inside))
  {
    var l := s.lists[WaitList(q)];
    assert l[0] in l;
    WakeKeeps(s, q);
    UnblockWaits(s, l[0], s.threads[l[0]].(armed := false), q, inside);
    WithoutAt(l, 0);
    assert l[..0] + l[1..] == l[1..];
  }

  /** `rt_thread_resume` on any thread of the list. */
  lemma ResumeWaits(s: State, i: nat, q: nat, inside: set<Tid>)
    requires WaitsOk(s, q, inside) && i < |s.lists[WaitList(q)]|
    ensures var t := s.lists[WaitList(q)][i];
      && t in s.threads
      && WaitsOk(Resume(s, t), q, inside) && WaitsOf(Resume(s, t), q, inside) == WakeAt(WaitsOf(s, q, inside), i)
  {
    var l := s.lists[WaitList(q)];
    var t := l[i];
    assert t in l;
    ResumeKeeps(s, t);
    UnblockWaits(s, t, s.threads[t].(armed := false), q, inside);
    WithoutAt(l, i);
  }

  lemma ExpireWaits(s: State, t: Tid, q: nat, inside: set<Tid>)
    requires WaitsOk(s, q, inside) && t in s.lists[WaitList(q)]
    ensures Inv(KernelModel.Expire(s, t))
    ensures var r := Schedule(KernelModel.Expire(s, t));
      WaitsOk(r, q, inside) && WaitsOf(r, q, inside) == Expire(WaitsOf(s, q, inside), t)
  {
    ResumeKeeps(s, t);
    var r := KernelModel.Expire(s, t);
    UnblockWaits(s, t, s.threads[t].(error := Timeout, armed := false), q, inside);
    ForeignWaits(r, DoSchedule, q, inside);
  }

  lemma FailForeign(s: State, t: Tid, q: nat, inside: set<Tid>)
    requires WaitsOk(s, q, inside) && t in s.threads && t !in inside
    ensures var s1 := SetThread(s, t, s.threads[t].(error := Error));
      && Inv(s1) && var r := Resume(s1, t);
      WaitsOk(r, q, inside) && WaitsOf(r, q, inside) == WaitsOf(s, q, inside)
  {
    hide Placed, InsertThread, RemoveThread;
    var th := s.threads[t].(error := Error);
    RecordKeeps(s, t, th);
    UnlinkForeign(s, t, th, q, inside);
    UnmovedWaits(s, SetThread(s, t, th), q, inside);
    ForeignWaits(SetThread(s, t, th), DoResume(t), q, inside);
  }

  /** A timer that fires for a waiter of another list. */
  lemma ExpireForeign(s: State, t: Tid, q: nat, inside: set<Tid>)
    requires WaitsOk(s, q, inside) && t in s.threads && s.threads[t].stat == Suspended && t !in inside
    ensures Inv(KernelModel.Expire(s, t))
    ensures var r := Schedule(KernelModel.Expire(s, t)); WaitsOk(r, q, inside) && WaitsOf(r, q, inside) == WaitsOf(s, q, inside)
  {
    hide Placed, InsertThread, RemoveThread, Schedule;
    ResumeKeeps(s, t);
    var r := KernelModel.Expire(s, t);
    ResumeForeign(s, t, s.threads[t].(error := Timeout, armed := false), q, inside);
    UnmovedWaits(s, r, q, inside);
    ForeignWaits(r, DoSchedule, q, inside);
  }

  /** One round of `rt_ipc_list_resume_all`: the first waiter is woken with an error. */
  lemma FailWaits(s: State, q: nat, inside: set<Tid>)
    requires WaitsOk(s, q, inside) && s.lists[WaitList(q)] != []
    ensures var w, t := WaitsOf(s, q, inside), s.lists[WaitList(q)][0];
      && t in s.threads && s.threads[t].stat == Suspended
      && var s1 := SetThread(s, t, s.threads[t].(error := Error));
      && Inv(s1)
      && var r := Resume(s1, t);
      WaitsOk(r, q, inside) && WaitsOf(r, q, inside) == FailFirst(w)
  {
    var l := s.lists[WaitList(q)];
    var t := l[0];
    assert t in l;
    var th := s.threads[t].(error := Error);
    RecordKeeps(s, t, th);
    ResumeKeeps(SetThread(s, t, th), t);
    Overwrite(s.threads, t, th, th.(armed := false));
    UnblockWaits(s, t, th.(armed := false), q, inside);
    WithoutAt(l, 0);
    assert l[..0] + l[1..] == l[1..];
  }

  lemma LeaveWaits(s: State, q: nat, inside: set<Tid>)
    requires WaitsOk(s, q, inside) && s.current in inside && s.threads[s.current].stat == Running
    ensures WaitsOk(s, q, inside - {s.current})
    ensures s.current in WaitsOf(s, q, inside).woken && WaitsOf(s, q, inside).woken[s.current] == s.threads[s.current].error
    ensures WaitsOf(s, q, inside - {s.current}) == Leave(WaitsOf(s, q, inside), s.current)
  {
  }
}

module Ipc {
  import opened Rings
  import opened KernelModel
  import opened IpcModel
  import opened Scheduling

  class IpcObject {
    const sched: Scheduler
    const q: nat
    const flag: Flag
    /** The threads inside a blocking call on this object. */
    ghost var inside: set<Tid>

    ghost predicate Valid()
      reads this, sched, sched.bitmap, sched.nodes
    {
      sched.Valid() && WaitsOk(sched.View(), q, inside)
    }

    ghost function View(): Waits
      requires Valid()
      reads this, sched, sched.bitmap, sched.nodes
    {
      WaitsOf(sched.View(), q, inside)
    }

    /** The place in the wait list of the running thread. */
    ghost function Place(): nat
      requires Valid()
      reads this, sched, sched.bitmap, sched.nodes
    {
      var s := sched.View();
      Position(s, s.lists[WaitList(q)], s.threads[s.current].prio, flag)
    }

    /** What the code may rely on when a running thread calls in. */
    lemma Caller()
      requires Valid() && sched.current !in inside
      ensures sched.current in sched.threads && !Inside(View(), sched.current)
      ensures Place() <= |View().waiters|
    {
    }

    lemma PlaceInList()
      requires Valid()
      ensures Place() <= |View().waiters|
    {
    }

    constructor (sched: Scheduler, q: nat, flag: Flag)
      requires sched.Valid() && WaitList(q) !in sched.lists
      modifies sched`lists, sched.nodes
      ensures Valid() && this.sched == sched && this.q == q && this.flag == flag
      ensures View() == Waits([], map[]) && inside == {}
      ensures sched.View() == Step(old(sched.View()), NewQueue(q))
    {
      this.sched, this.q, this.flag, inside := sched, q, flag, {};
      new;
      sched.NewQueue(q);
    }

    /** `rt_ipc_list_suspend` of the running thread, with its error cleared and its timer set. */
    method Suspend(timed: bool)
      requires Valid() && sched.threads[sched.current].stat == Running && sched.current !in inside
      modifies this, sched`threads, sched`lists, sched.bitmap, sched.nodes
      ensures Valid() && sched.View() == Block(old(sched.View()), q, flag, timed)
      ensures View() == Enqueue(old(View()), sched.current, old(Place()))
      ensures inside == old(inside) + {sched.current}
    {
      BlockWaits(sched.View(), q, flag, timed, inside);
      sched.Block(q, flag, timed);
      inside := inside + {sched.current};
    }

    /** An assignment to the error of the running thread, outside a call on this object. */
    method AssignError(e: Err)
      requires Valid() && sched.current !in inside
      modifies sched`threads
      ensures Valid() && View() == old(View()) && Place() == old(Place())
      ensures sched.threads == old(sched.threads)[sched.current := old(sched.threads)[sched.current].(error := e)]
    {
      hide Placed, Linked, Separate, MarksMatch, Known;
      ghost var s := sched.View();
      ForeignWaits(s, SetError(e), q, inside);
      sched.AssignError(sched.current, e);
      PositionSame(s, sched.View(), s.lists[WaitList(q)], s.threads[s.current].prio, flag);
    }

    method HasWaiters() returns (b: bool)
      requires Valid()
      ensures b <==> View().waiters != []
    {
      var n := sched.FirstNode(WaitList(q));
      b := n != HeadNode(WaitList(q));
    }

    /** `rt_ipc_list_resume` */
    method ResumeFirst() returns (t: Tid)
      requires Valid() && View().waiters != []
      modifies sched`threads, sched`lists, sched.bitmap, sched.nodes
      ensures Valid() && sched.View() == Wake(old(sched.View()), q)
      ensures t == old(View()).waiters[0] && View() == WakeFirst(old(View()))
    {
      WakeWaits(sched.View(), q, inside);
      t := sched.Wake(q);
    }

    /** The first waiter is resumed if there is one. */
    method ResumeAny() returns (some: bool)
      requires Valid()
      modifies sched`threads, sched`lists, sched.bitmap, sched.nodes
      ensures Valid() && View() == WakeAny(old(View()))
      ensures some <==> old(View()).waiters != []
    {
      hide WaitsOf, WaitsOk, Shape;
      some := HasWaiters();
      if some {
        var t := ResumeFirst();
      }
    }

    /** `rt_thread_resume` on waiter `t`, which is number `i` of the list. */
    method ResumeThread(t: Tid, ghost i: nat)
      requires Valid() && i < |View().waiters| && View().waiters[i] == t
      modifies sched`threads, sched`lists, sched.bitmap, sched.nodes
      ensures Valid() && View() == WakeAt(old(View()), i)
      ensures sched.threads.Keys == old(sched.threads.Keys) && sched.current == old(sched.current)
    {
      hide Placed, Linked, Separate, MarksMatch, Known;
      ResumeWaits(sched.View(), i, q, inside);
      var done := sched.Resume(t);
    }

    /** The node of waiter number `i`, or the head of the list after the last. */
    method NodeAfter(n: Node, ghost i: nat) returns (m: Node)
      requires Valid() && i < |View().waiters| && n == ThreadNode(View().waiters[i])
      ensures m == if i + 1 == |View().waiters| then HeadNode(WaitList(q)) else ThreadNode(View().waiters[i + 1])
    {
      m := sched.NextNode(n, WaitList(q), i);
    }

    method FirstWaiter() returns (n: Node)
      requires Valid()
      ensures n == if View().waiters == [] then HeadNode(WaitList(q)) else ThreadNode(View().waiters[0])
    {
      n := sched.FirstNode(WaitList(q));
    }

    /** `rt_thread_timeout` on a waiter, called from the clock interrupt */
    method Timeout(t: Tid)
      requires Valid() && t in View().waiters
      modifies sched, sched.bitmap, sched.nodes
      ensures Valid() && View() == IpcModel.Expire(old(View()), t)
      ensures (ResumeKeeps(old(sched.View()), t); sched.View() == Schedule(KernelModel.Expire(old(sched.View()), t)))
    {
      ExpireWaits(sched.View(), t, q, inside);
      sched.TimeoutThread(t);
    }

    /** The running thread goes on after the rescheduling in its blocking call. */
    method Resumed() returns (err: Err)
      requires Valid() && sched.threads[sched.current].stat == Running && sched.current in inside
      modifies this
      ensures Valid()
      ensures sched.current in old(View()).woken && err == old(View()).woken[sched.current]
      ensures View() == Leave(old(View()), sched.current) && inside == old(inside) - {sched.current}
      ensures Place() == old(Place())
    {
      LeaveWaits(sched.View(), q, inside);
      err := sched.threads[sched.current].error;
      inside := inside - {sched.current};
    }

    method FailOne()
      requires Valid() && View().waiters != []
      modifies sched`threads, sched`lists, sched.bitmap, sched.nodes
      ensures Valid() && View() == FailFirst(old(View()))
      ensures var s, t := old(sched.View()), old(View()).waiters[0];
        t in s.threads && Inv(s) && Inv(SetThread(s, t, s.threads[t].(error := Error)))
        && sched.View() == Resume(SetThread(s, t, s.threads[t].(error := Error)), t)
    {
      hide Placed, Linked, Separate, MarksMatch, Known;
      ghost var s := sched.View();
      FailWaits(s, q, inside);
      var n := sched.FirstNode(WaitList(q));
      sched.AssignError(n.t, Error);
      var done := sched.Resume(n.t);
    }

    /** `rt_ipc_list_resume_all` */
    method ResumeAll()
      requires Valid()
      modifies sched`threads, sched`lists, sched.bitmap, sched.nodes
      ensures Valid() && View() == WakeAll(old(View()))
    {
      ghost var goal := WakeAll(View());
      var more := HasWaiters();
      while more
        invariant Valid() && (more <==> View().waiters != [])
        invariant WakeAll(View()) == goal
        decreases |View().waiters|
      {
        FailFirstOfAll(View());
        FailOne();
        more := HasWaiters();
      }
      NoneToWake(View());
    }
  }

  /** Two lists of one object, as a mailbox has: no thread is inside a call on both. */
  ghost predicate Beside(a: IpcObject, b: IpcObject)
    reads a, b, a.sched, a.sched.bitmap, a.sched.nodes
  {
    a != b && a.sched == b.sched && a.q != b.q && a.inside !! b.inside && a.Valid() && b.Valid()
  }

  /** Blocking on one list leaves the other alone. */
  method SuspendBeside(a: IpcObject, ghost b: IpcObject, timed: bool)
    requires Beside(a, b) && a.sched.threads[a.sched.current].stat == Running && a.sched.current !in a.inside + b.inside
    modifies a, a.sched`threads, a.sched`lists, a.sched.bitmap, a.sched.nodes
    ensures Beside(a, b) && b.View() == old(b.View())
    ensures a.View() == Enqueue(old(a.View()), a.sched.current, old(a.Place()))
    ensures a.inside == old(a.inside) + {a.sched.current}
  {
    hide Placed, Shape, Position, Block, WaitsOf;
    ForeignWaits(a.sched.View(), DoBlock(a.q, a.flag, timed), b.q, b.inside);
    a.Suspend(timed);
  }

  method ResumeFirstBeside(a: IpcObject, ghost b: IpcObject)
    requires Beside(a, b) && a.View().waiters != []
    modifies a.sched`threads, a.sched`lists, a.sched.bitmap, a.sched.nodes
    ensures Beside(a, b) && b.View() == old(b.View())
    ensures a.View() == WakeFirst(old(a.View()))
  {
    hide Placed, Shape;
    ForeignWaits(a.sched.View(), DoWake(a.q), b.q, b.inside);
    var t := a.ResumeFirst();
  }

  method TimeoutBeside(a: IpcObject, ghost b: IpcObject, t: Tid)
    requires Beside(a, b) && t in a.View().waiters
    modifies a.sched, a.sched.bitmap, a.sched.nodes
    ensures Beside(a, b) && b.View() == old(b.View())
    ensures a.View() == IpcModel.Expire(old(a.View()), t)
  {
    ExpireForeign(a.sched.View(), t, b.q, b.inside);
    a.Timeout(t);
  }

  method AssignErrorBeside(a: IpcObject, ghost b: IpcObject, e: Err)
    requires Beside(a, b) && a.sched.current !in a.inside + b.inside
    modifies a.sched`threads
    ensures Beside(a, b) && a.View() == old(a.View()) && b.View() == old(b.View())
    ensures a.Place() == old(a.Place())
    ensures a.sched.threads == old(a.sched.threads)[a.sched.current := old(a.sched.threads)[a.sched.current].(error := e)]
  {
    ForeignWaits(a.sched.View(), SetError(e), b.q, b.inside);
    a.AssignError(e);
  }

  method FailOneBeside(a: IpcObject, ghost b: IpcObject)
    requires Beside(a, b) && a.View().waiters != []
    modifies a.sched`threads, a.sched`lists, a.sched.bitmap, a.sched.nodes
    ensures Beside(a, b) && b.View() == old(b.View())
    ensures a.View() == FailFirst(old(a.View()))
  {
    FailForeign(a.sched.View(), a.View().waiters[0], b.q, b.inside);
    a.FailOne();
  }

  /** `rt_ipc_list_resume_all` on one of two lists */
  method ResumeAllBeside(a: IpcObject, ghost b: IpcObject)
    requires Beside(a, b)
    modifies a.sched`threads, a.sched`lists, a.sched.bitmap, a.sched.nodes
    ensures Beside(a, b) && b.View() == old(b.View())
    ensures a.View() == WakeAll(old(a.View()))
  {
    hide WaitsOf, WaitsOk, Shape, WakeAll;
    ghost var goal := WakeAll(a.View());
    var more := a.HasWaiters();
    while more
      invariant Beside(a, b) && b.View() == old(b.View()) && (more <==> a.View().waiters != [])
      invariant WakeAll(a.View()) == goal
      decreases |a.View().waiters|
    {
      FailFirstOfAll(a.View());
      FailOneBeside(a, b);
      more := a.HasWaiters();
    }
    NoneToWake(a.View());
  }

  method NewBeside(a: IpcObject, q: nat, flag: Flag) returns (b: IpcObject)
    requires a.Valid() && a.inside == {} && WaitList(q) !in a.sched.lists
    modifies a.sched`lists, a.sched.nodes
    ensures fresh(b) && Beside(a, b) && a.View() == old(a.View()) && b.View() == Waits([], map[]) && b.q == q && b.flag == flag
  {
    ForeignWaits(a.sched.View(), NewQueue(q), a.q, a.inside);
    b := new IpcObject(a.sched, q, flag);
  }
}
