/** The producer and the consumer of `04_thread_sync_sem`: a bounded buffer on three semaphores.
    The two threads interleave freely between the regions of the semaphore calls and the single
    accesses to the shared data. */
module BoundedBuffer {
  import opened KernelModel
  import opened IpcModel
  import S = SemaphoreModel

  /** Where a thread is in its loop: taking a slot, taking the lock (each maybe inside the call),
      accessing the array, advancing its index, releasing the lock, signalling the other side,
      ending its round. */
  datatype Place = TakeSlot | InSlot | TakeLock | InLock | Access | Advance | Unlock | Signal | NextRound | Stop

  datatype Who = Producer | Consumer

  function Id(who: Who): Tid { if who == Producer then 0 else 1 }

  /** `setAt` and `getAt` are the indices `set` and `get` of the program; `seen` is what the consumer has read. */
  datatype Buffer = Buffer(slots: seq<nat>, setAt: nat, getAt: nat, cnt: nat, seen: seq<nat>,
                           p: Place, c: Place, empty: S.Sem, full: S.Sem, lock: S.Sem)

  function At(b: Buffer, who: Who): Place { if who == Producer then b.p else b.c }

  function Go(b: Buffer, who: Who, to: Place): Buffer { if who == Producer then b.(p := to) else b.(c := to) }

  function SlotSem(b: Buffer, who: Who): S.Sem { if who == Producer then b.empty else b.full }

  function SetSlotSem(b: Buffer, who: Who, m: S.Sem): Buffer { if who == Producer then b.(empty := m) else b.(full := m) }

  function Other(who: Who): Who { if who == Producer then Consumer else Producer }

  /** `rt_sem_take(…, RT_WAITING_FOREVER)`, first region. */
  function Take(m: S.Sem, t: Tid): (S.Sem, S.Outcome) { S.Take(m, t, true, |m.w.waiters|) }

  /** A thread can move unless it has finished or waits in a semaphore's list. */
  predicate CanMove(b: Buffer, who: Who) {
    match At(b, who)
    case Stop => false
    case InSlot => Id(who) in SlotSem(b, who).w.woken
    case InLock => Id(who) in b.lock.w.woken
    case _ => true
  }

  /** One move of the producer or the consumer; both stop after `count` items. */
  function Move(b: Buffer, who: Who, count: nat): Buffer
    requires CanMove(b, who) && |b.slots| > 0
  {
    var t := Id(who);
    match At(b, who)
    case TakeSlot =>
      var (m, out) := Take(SlotSem(b, who), t);
      Go(SetSlotSem(b, who, m), who, if out.Blocked? then InSlot else TakeLock)
    case InSlot =>
      var m := SlotSem(b, who);
      Go(SetSlotSem(b, who, m.(w := Leave(m.w, t))), who, TakeLock)
    case TakeLock =>
      var (m, out) := Take(b.lock, t);
      Go(b.(lock := m), who, if out.Blocked? then InLock else Access)
    case InLock => Go(b.(lock := b.lock.(w := Leave(b.lock.w, t))), who, Access)
    case Access =>
      if who == Producer then b.(slots := b.slots[b.setAt % |b.slots| := b.cnt + 1], p := Advance)
      else b.(seen := b.seen + [b.slots[b.getAt % |b.slots|]], c := Advance)
    case Advance => if who == Producer then b.(setAt := b.setAt + 1, p := Unlock) else b.(getAt := b.getAt + 1, c := Unlock)
    case Unlock => Go(b.(lock := S.Release(b.lock)), who, Signal)
    case Signal => Go(SetSlotSem(b, Other(who), S.Release(SlotSem(b, Other(who)))), who, NextRound)
    case NextRound =>
      if who == Producer then b.(cnt := b.cnt + 1, p := if b.cnt + 1 < count then TakeSlot else Stop)
      else b.(c := if b.getAt == count then Stop else TakeSlot)
  }

  // ----- the invariant -----

  function Flag(b: bool): nat { if b then 1 else 0 }

  /** A unit of the slot semaphore has been taken, or handed over, and not been used yet. */
  function Pending(at: Place, m: S.Sem, t: Tid): nat {
    Flag(at in {TakeLock, InLock, Access, Advance} || (at == InSlot && t in m.w.woken))
  }

  function Holds(at: Place, m: S.Sem, t: Tid): nat {
    Flag(at in {Access, Advance, Unlock} || (at == InLock && t in m.w.woken))
  }

  /** Only `who` can be inside the take of its slot semaphore, and it succeeds. */
  ghost predicate SlotOk(m: S.Sem, at: Place, t: Tid) {
    && S.Inv(m) && (at == InSlot <==> Inside(m.w, t))
    && (forall x :: x in m.w.waiters ==> x == t)
    && (forall x :: x in m.w.woken ==> x == t && m.w.woken[x] == Ok)
  }

  ghost predicate LockOk(m: S.Sem, p: Place, c: Place) {
    && S.Inv(m) && m.value + Holds(p, m, 0) + Holds(c, m, 1) == 1
    && (p == InLock <==> Inside(m.w, 0)) && (c == InLock <==> Inside(m.w, 1))
    && (forall x :: x in m.w.waiters ==> x <= 1)
    && (forall x :: x in m.w.woken ==> x <= 1 && m.w.woken[x] == Ok)
  }

  /** Every unit is accounted for. */
  ghost predicate Counts(b: Buffer, count: nat) {
    && b.setAt == b.cnt + Flag(b.p in {Unlock, Signal, NextRound})
    && b.full.value + b.getAt + Pending(b.c, b.full, 1) == b.cnt + Flag(b.p == NextRound)
    && b.empty.value + b.setAt + Pending(b.p, b.empty, 0) + Flag(b.c in {Unlock, Signal}) == |b.slots| + b.getAt
    && (if b.p == Stop then b.cnt == count else b.cnt < count)
    && (if b.c == Stop then b.getAt == count else if b.c in {Unlock, Signal, NextRound} then b.getAt <= count else b.getAt < count)
  }

  /** Item `k` is the number `k + 1`; the items between the two indices are in the array. */
  ghost predicate Data(b: Buffer) {
    && |b.slots| > 0
    && (forall k :: b.getAt <= k < b.setAt + Flag(b.p == Advance) ==> b.slots[k % |b.slots|] == k + 1)
    && |b.seen| == b.getAt + Flag(b.c == Advance)
    && (forall k :: 0 <= k < |b.seen| ==> b.seen[k] == k + 1)
  }

  ghost predicate Inv(b: Buffer, count: nat) {
    && SlotOk(b.empty, b.p, 0) && SlotOk(b.full, b.c, 1) && LockOk(b.lock, b.p, b.c)
    && Counts(b, count) && Data(b) && 0 < |b.slots| < S.VALUES
  }

  /** The buffer as `main` sets it up. */
  function Start(slots: seq<nat>): Buffer {
    var idle := Waits([], map[]);
    Buffer(slots, 0, 0, 0, [], TakeSlot, TakeSlot, S.Sem(|slots|, idle), S.Sem(0, idle), S.Sem(1, idle))
  }

  lemma TakeSlotOk(m: S.Sem, t: Tid)
    requires SlotOk(m, TakeSlot, t)
    ensures var (r, out) := Take(m, t);
      && SlotOk(r, if out.Blocked? then InSlot else TakeLock, t)
      && (out.Blocked? ==> m.value == 0 && r.value == 0 && t !in r.w.woken) && (!out.Blocked? ==> r.value == m.value - 1)
  {
    S.StepKeeps(m, S.TakeBy(t, true, |m.w.waiters|));
    var e := Enqueue(m.w, t, |m.w.waiters|);
    assert forall x :: x in e.waiters <==> x == t || x in m.w.waiters;
  }

  lemma LeaveSlotOk(m: S.Sem, t: Tid)
    requires SlotOk(m, InSlot, t) && t in m.w.woken
    ensures SlotOk(m.(w := Leave(m.w, t)), TakeLock, t)
  {
    S.StepKeeps(m, S.Returns(t));
  }

  /** Signalling: a waiter gets the unit at once. */
  lemma SignalOk(m: S.Sem, at: Place, t: Tid)
    requires SlotOk(m, at, t) && m.value + 1 < S.VALUES
    ensures var r := S.Release(m);
      SlotOk(r, at, t) && r.value + Pending(at, r, t) == m.value + Pending(at, m, t) + 1
  {
    S.StepKeeps(m, S.Give);
    if m.w.waiters != [] {
      var w := m.w.waiters;
      assert w[0] in w;
      assert forall x :: x in w <==> x == w[0] || x in w[1..];
      assert t in w && t !in m.w.woken;
      assert w[0] == t;
    }
  }

  lemma TakeLockOk(b: Buffer, who: Who)
    requires LockOk(b.lock, b.p, b.c) && At(b, who) == TakeLock
    ensures var (m, out) := Take(b.lock, Id(who)); var r := Go(b.(lock := m), who, if out.Blocked? then InLock else Access);
      LockOk(r.lock, r.p, r.c)
  {
    var m, t := b.lock, Id(who);
    S.StepKeeps(m, S.TakeBy(t, true, |m.w.waiters|));
    var e := Enqueue(m.w, t, |m.w.waiters|);
    assert forall x :: x in e.waiters <==> x == t || x in m.w.waiters;
  }

  lemma LeaveLockOk(b: Buffer, who: Who)
    requires LockOk(b.lock, b.p, b.c) && At(b, who) == InLock && Id(who) in b.lock.w.woken
    ensures var r := Go(b.(lock := b.lock.(w := Leave(b.lock.w, Id(who)))), who, Access); LockOk(r.lock, r.p, r.c)
  {
    S.StepKeeps(b.lock, S.Returns(Id(who)));
  }

  lemma ReleaseLockOk(b: Buffer, who: Who)
    requires LockOk(b.lock, b.p, b.c) && At(b, who) == Unlock
    ensures var r := Go(b.(lock := S.Release(b.lock)), who, Signal); LockOk(r.lock, r.p, r.c)
  {
    var m := b.lock;
    S.StepKeeps(m, S.Give);
    if m.w.waiters != [] {
      var w := m.w.waiters;
      assert w[0] in w;
      assert forall x :: x in w <==> x == w[0] || x in w[1..];
      assert w[0] == Id(Other(who));
    }
  }

  /** Two items less than a buffer apart are in different slots. */
  lemma SlotsDiffer(j: nat, k: nat, n: nat)
    requires j < k < j + n
    ensures j % n != k % n
  {
    if j % n == k % n {
      var a, b := j / n, k / n;
      assert k - j == (b - a) * n;
      Multiple(b - a, n);
    }
  }

  lemma Multiple(q: int, n: nat)
    ensures q >= 1 ==> q * n >= n
    ensures q <= 0 ==> q * n <= 0
  {
  }

  lemma WriteKeeps(b: Buffer, count: nat)
    requires Inv(b, count) && b.p == Access
    ensures Data(Move(b, Producer, count))
  {
    hide SlotOk, LockOk;
    var n, r := |b.slots|, Move(b, Producer, count);
    forall k | b.getAt <= k < b.setAt + 1 ensures r.slots[k % n] == k + 1 {
      if k < b.setAt { SlotsDiffer(k, b.setAt, n); }
    }
  }

  lemma DataKeeps(b: Buffer, who: Who, count: nat)
    requires Inv(b, count) && CanMove(b, who)
    ensures Data(Move(b, who, count))
  {
    if who == Producer && b.p == Access { WriteKeeps(b, count); }
  }

  lemma CountsKeep(b: Buffer, who: Who, count: nat)
    requires Inv(b, count) && CanMove(b, who)
    ensures Counts(Move(b, who, count), count)
  {
    hide LockOk, Data;
    match At(b, who)
    case TakeSlot => TakeSlotOk(SlotSem(b, who), Id(who));
    case InSlot => LeaveSlotOk(SlotSem(b, who), Id(who));
    case Signal => SignalOk(SlotSem(b, Other(who)), At(b, Other(who)), Id(Other(who)));
    case _ =>
  }

  lemma SlotsKeep(b: Buffer, who: Who, count: nat)
    requires Inv(b, count) && CanMove(b, who)
    ensures var r := Move(b, who, count); SlotOk(r.empty, r.p, 0) && SlotOk(r.full, r.c, 1)
  {
    hide LockOk, Data;
    match At(b, who)
    case TakeSlot => TakeSlotOk(SlotSem(b, who), Id(who));
    case InSlot => LeaveSlotOk(SlotSem(b, who), Id(who));
    case Signal => SignalOk(SlotSem(b, Other(who)), At(b, Other(who)), Id(Other(who)));
    case _ =>
  }

  lemma LockKeeps(b: Buffer, who: Who, count: nat)
    requires Inv(b, count) && CanMove(b, who)
    ensures var r := Move(b, who, count); LockOk(r.lock, r.p, r.c)
  {
    hide SlotOk, Data, Counts;
    match At(b, who)
    case TakeLock => TakeLockOk(b, who);
    case InLock => LeaveLockOk(b, who);
    case Unlock => ReleaseLockOk(b, who);
    case _ =>
  }

  lemma MoveKeeps(b: Buffer, who: Who, count: nat)
    requires Inv(b, count) && CanMove(b, who)
    ensures Inv(Move(b, who, count), count) && |Move(b, who, count).slots| == |b.slots|
  {
    DataKeeps(b, who, count);
    CountsKeep(b, who, count);
    SlotsKeep(b, who, count);
    LockKeeps(b, who, count);
    hide SlotOk, LockOk, Counts, Data;
  }

  // ----- whole runs -----

  ghost predicate CanRun(b: Buffer, run: seq<Who>, count: nat)
    requires |b.slots| > 0
    decreases |run|
  {
    run == [] || (CanMove(b, run[0]) && |Move(b, run[0], count).slots| > 0 && CanRun(Move(b, run[0], count), run[1..], count))
  }

  ghost function Exec(b: Buffer, run: seq<Who>, count: nat): Buffer
    requires |b.slots| > 0 && CanRun(b, run, count)
    decreases |run|
  {
    if run == [] then b else Exec(Move(b, run[0], count), run[1..], count)
  }

  lemma {:induction false} RunKeeps(b: Buffer, run: seq<Who>, count: nat)
    requires Inv(b, count) && CanRun(b, run, count)
    ensures Inv(Exec(b, run, count), count) && |Exec(b, run, count).slots| == |b.slots|
    decreases |run|
  {
    if run != [] {
      MoveKeeps(b, run[0], count);
      RunKeeps(Move(b, run[0], count), run[1..], count);
    }
  }

  lemma StartOk(slots: seq<nat>, count: nat)
    requires 0 < |slots| < S.VALUES && count > 0
    ensures Inv(Start(slots), count)
  {
  }

  /** In every reachable state: the i-th read got item i, the producer writes only into a slot
      whose item has been read, the consumer reads only a slot that has been written and not
      yet read, and the two are never in the critical section together. */
  lemma Delivers(slots: seq<nat>, run: seq<Who>, count: nat)
    requires 0 < |slots| < S.VALUES && count > 0 && CanRun(Start(slots), run, count)
    ensures var b := Exec(Start(slots), run, count);
      && (forall k :: 0 <= k < |b.seen| ==> b.seen[k] == k + 1)
      && (b.p == Access ==> b.setAt - b.getAt < |slots|)
      && (b.c == Access ==> b.getAt < b.setAt)
      && !(b.p in {Access, Advance, Unlock} && b.c in {Access, Advance, Unlock})
  {
    hide Move, CanMove;
    StartOk(slots, count);
    RunKeeps(Start(slots), run, count);
  }

  // ----- no deadlock, and an end -----

  /** Someone can move until both have stopped. */
  lemma NoDeadlock(b: Buffer, count: nat)
    requires Inv(b, count) && !CanMove(b, Producer) && !CanMove(b, Consumer)
    ensures b.p == Stop && b.c == Stop && b.getAt == count
  {
    assert b.p == InSlot ==> b.empty.value == 0;
    assert b.c == InSlot ==> b.full.value == 0;
    assert b.p == InLock ==> b.lock.value == 0;
    assert b.c == InLock ==> b.lock.value == 0;
  }

  function Rank(at: Place): nat {
    match at
    case TakeSlot => 0 case InSlot => 1 case TakeLock => 2 case InLock => 3 case Access => 4
    case Advance => 5 case Unlock => 6 case Signal => 7 case NextRound => 8 case Stop => 0
  }

  /** The moves made so far, waits counted in. */
  function Work(b: Buffer): int {
    9 * b.cnt + Rank(b.p) + 9 * (b.getAt - Flag(b.c in {Unlock, Signal, NextRound})) + Rank(b.c)
  }

  lemma MoveWorks(b: Buffer, who: Who, count: nat)
    requires Inv(b, count) && CanMove(b, who)
    ensures Work(Move(b, who, count)) > Work(b) && Work(b) <= 18 * count
  {
    hide SlotOk, LockOk, Data;
  }

  lemma {:induction false} RunWorks(b: Buffer, run: seq<Who>, count: nat)
    requires Inv(b, count) && CanRun(b, run, count)
    ensures |run| <= 18 * count - Work(b)
    decreases |run|
  {
    hide SlotOk, LockOk, Data;
    if run != [] {
      MoveWorks(b, run[0], count);
      MoveKeeps(b, run[0], count);
      RunWorks(Move(b, run[0], count), run[1..], count);
    }
  }

  /** Every run ends, after at most 18 moves an item, and when it cannot go on both threads have
      stopped and the consumer has read all items in order. */
  lemma EveryRunDeliversAll(slots: seq<nat>, run: seq<Who>, count: nat)
    requires 0 < |slots| < S.VALUES && count > 0 && CanRun(Start(slots), run, count)
    ensures |run| <= 18 * count
    ensures var b := Exec(Start(slots), run, count);
      !CanMove(b, Producer) && !CanMove(b, Consumer) ==>
        b.p == Stop && b.c == Stop && |b.seen| == count && forall k :: 0 <= k < count ==> b.seen[k] == k + 1
  {
    hide SlotOk, LockOk, Move, CanMove;
    StartOk(slots, count);
    RunWorks(Start(slots), run, count);
    RunKeeps(Start(slots), run, count);
    var b := Exec(Start(slots), run, count);
    if !CanMove(b, Producer) && !CanMove(b, Consumer) {
      NoDeadlock(b, count);
    }
  }
}
