/** The recursive mutex with priority inheritance (`ipc.c`). */
module MutexModel {
  import opened Rings
  import opened KernelModel
  import opened IpcModel

  datatype Owner = Nobody | Owned(t: Tid)

  /** `prio` holds the current priority of every thread; a smaller number is more urgent. */
  datatype Mutex = Mutex(value: nat, owner: Owner, orig: nat, hold: nat, w: Waits, prio: map<Tid, nat>)

  datatype Outcome = Done(err: Err) | Blocked

  const HOLDS: nat := 256

  /** `rt_mutex_take`, first region; `i` is the place in the wait list. */
  function Take(m: Mutex, t: Tid, wait: bool, i: nat): (Mutex, Outcome)
    requires i <= |m.w.waiters| && t in m.prio
  {
    if m.owner == Owned(t) then (m.(hold := (m.hold + 1) % HOLDS), Done(Ok))
    else if m.value > 0 then
      (m.(value := m.value - 1, owner := Owned(t), orig := m.prio[t], hold := (m.hold + 1) % HOLDS), Done(Ok))
    else if !wait then (m, Done(Timeout))
    else
      var boost := m.owner.Owned? && m.owner.t in m.prio && m.prio[t] < m.prio[m.owner.t];
      (m.(prio := if boost then m.prio[m.owner.t := m.prio[t]] else m.prio, w := Enqueue(m.w, t, i)), Outcome.Blocked)
  }

  /** `rt_mutex_release` */
  function Release(m: Mutex, t: Tid): (Mutex, Err)
    requires t in m.prio && forall x :: x in m.w.waiters ==> x in m.prio
  {
    if m.owner != Owned(t) then (m, Error)
    else
      var hold := (m.hold + HOLDS - 1) % HOLDS;
      if hold != 0 then (m.(hold := hold), Ok)
      else
        var prio := m.prio[t := m.orig];
        if m.w.waiters != [] then
          var next := m.w.waiters[0];
          (Mutex(m.value, Owned(next), prio[next], 1, WakeFirst(m.w), prio), Ok)
        else
          (Mutex(m.value + 1, Nobody, 0xff, 0, m.w, prio), Ok)
  }

  datatype Action =
    | TakeBy(t: Tid, wait: bool, i: nat)
    | ReleaseBy(t: Tid)
    | TimesOut(t: Tid)
    | Returns(t: Tid)

  /** A call is made by a thread that is not inside a take.  The 8-bit count of nested takes does
      not overflow. */
  predicate Enabled(m: Mutex, a: Action) {
    && (forall x :: x in m.w.waiters ==> x in m.prio)
    && match a
       case TakeBy(t, _, i) => t in m.prio && !Inside(m.w, t) && i <= |m.w.waiters| && !(m.owner == Owned(t) && m.hold == HOLDS - 1)
       case ReleaseBy(t) => t in m.prio && !Inside(m.w, t)
       case TimesOut(t) => t in m.w.waiters
       case Returns(t) => t in m.w.woken
  }

  function Step(m: Mutex, a: Action): Mutex
    requires Enabled(m, a)
  {
    match a
    case TakeBy(t, wait, i) => Take(m, t, wait, i).0
    case ReleaseBy(t) => Release(m, t).0
    case TimesOut(t) => m.(w := IpcModel.Expire(m.w, t))
    case Returns(t) => m.(w := Leave(m.w, t))
  }

  // ----- ownership -----

  /** The mutex is free, with value 1, hold 0 and no owner, or it has one owner that holds it at
      least once; only then is anyone waiting.  A thread that left the wait list with success
      is the owner. */
  ghost predicate Inv(m: Mutex) {
    && Sound(m.w) && (forall x :: x in m.w.waiters ==> x in m.prio)
    && (m.owner == Nobody ==> m.value == 1 && m.hold == 0 && m.w.waiters == [])
    && (m.owner != Nobody ==> m.value == 0 && 1 <= m.hold < HOLDS && m.owner.t in m.prio && m.owner.t !in m.w.waiters)
    && (forall t :: t in m.w.woken ==> (m.w.woken[t] == Ok <==> m.owner == Owned(t)))
    && (m.owner != Nobody && m.owner.t in m.w.woken ==> m.hold == 1)
  }

  lemma TakeKeeps(m: Mutex, t: Tid, wait: bool, i: nat)
    requires Inv(m) && Enabled(m, TakeBy(t, wait, i))
    ensures Inv(Take(m, t, wait, i).0)
  {
    WaitsKeep(m.w, t, i);
    var e := Enqueue(m.w, t, i);
    assert forall x :: x in e.waiters <==> x == t || x in m.w.waiters;
  }

  lemma ReleaseKeeps(m: Mutex, t: Tid)
    requires Inv(m) && Enabled(m, ReleaseBy(t))
    ensures Inv(Release(m, t).0)
  {
    WaitsKeep(m.w, t, 0);
    if m.w.waiters != [] {
      assert forall x :: x in m.w.waiters[1..] ==> x in m.w.waiters;
      assert m.w.waiters[0] in m.w.waiters && m.w.waiters[0] !in m.w.waiters[1..];
    }
  }

  lemma StepKeeps(m: Mutex, a: Action)
    requires Inv(m) && Enabled(m, a)
    ensures Inv(Step(m, a))
  {
    match a
    case TakeBy(t, wait, i) => TakeKeeps(m, t, wait, i);
    case ReleaseBy(t) => ReleaseKeeps(m, t);
    case TimesOut(t) => WaitsKeep(m.w, t, 0);
    case Returns(t) => WaitsKeep(m.w, t, 0);
  }

  // ----- what the calls answer -----

  lemma HoldIs(m: Mutex)
    requires Inv(m)
    ensures m.owner == Nobody ==> m.value == 1 && m.hold == 0 && m.w.waiters == []
    ensures m.owner != Nobody ==> m.value == 0 && 1 <= m.hold < HOLDS && (m.hold + HOLDS - 1) % HOLDS == m.hold - 1
    ensures m.hold < HOLDS - 1 ==> (m.hold + 1) % HOLDS == m.hold + 1
  {
  }

  /** A take succeeds at once exactly when the mutex is free or the caller's own, times out exactly when it
      is another's and the caller does not wait, and joins the waiters otherwise. */
  lemma TakeAnswers(m: Mutex, t: Tid, wait: bool, i: nat)
    requires Inv(m) && Enabled(m, TakeBy(t, wait, i))
    ensures var (r, out) := Take(m, t, wait, i); var others := m.owner != Nobody && m.owner != Owned(t);
      && (out == Done(Ok) <==> !others) && (out == Done(Timeout) <==> others && !wait) && (out.Blocked? <==> others && wait)
      && (out == Done(Ok) ==> r.owner == Owned(t) && r.hold == (if m.owner == Owned(t) then m.hold else 0) + 1)
      && (out != Done(Ok) ==> r.owner == m.owner && r.hold == m.hold)
      && (out.Blocked? <==> t in r.w.waiters)
      && (if out.Blocked? then Joins(m.w, r.w, t) else r.w == m.w)
  {
    hide Joins, FirstResumed, AllFailed, Inv, Enqueue;
    HoldIs(m);
    WaitsAre(m.w, t, i);
  }

  /** A release succeeds exactly for the owner; its last one passes the mutex to the first waiter, or frees
      it when there is none. */
  lemma ReleaseAnswers(m: Mutex, t: Tid)
    requires Inv(m) && Enabled(m, ReleaseBy(t))
    ensures var (r, err) := Release(m, t); var last := m.owner == Owned(t) && m.hold == 1;
      && (err == Ok <==> m.owner == Owned(t)) && (err != Ok ==> r == m && err == Error)
      && (err == Ok && !last ==> r.owner == m.owner && r.hold == m.hold - 1 && r.w == m.w)
      && (last && m.w.waiters == [] ==> r.owner == Nobody && r.w == m.w)
      && (last && m.w.waiters != [] ==>
           && r.owner == Owned(m.w.waiters[0]) && r.hold == 1 && FirstResumed(m.w, r.w))
  {
    hide Joins, FirstResumed, AllFailed, Inv, WakeFirst;
    HoldIs(m);
    WaitsAre(m.w, 0, 0);
    assert m.w.waiters != [] ==> WakeAny(m.w) == WakeFirst(m.w);
  }

  // ----- priority inheritance -----

  /** The place `rt_ipc_list_suspend` chooses in a list ordered by priority. */
  ghost predicate PrioPlace(m: Mutex, t: Tid, i: nat) {
    && i <= |m.w.waiters| && t in m.prio
    && (forall k :: 0 <= k < i ==> m.w.waiters[k] in m.prio && m.prio[m.w.waiters[k]] <= m.prio[t])
    && (i < |m.w.waiters| ==> m.w.waiters[i] in m.prio && m.prio[t] < m.prio[m.w.waiters[i]])
  }

  ghost predicate Sorted(m: Mutex)
    requires forall x :: x in m.w.waiters ==> x in m.prio
  {
    forall i, j :: 0 <= i < j < |m.w.waiters| ==> m.prio[m.w.waiters[i]] <= m.prio[m.w.waiters[j]]
  }

  /** `base`: the priorities without inheritance.  Only the owner runs above its own, and it runs
      at least as urgently as every waiter. */
  ghost predicate Inherits(m: Mutex, base: map<Tid, nat>) {
    && Inv(m) && m.prio.Keys == base.Keys && Sorted(m)
    && (forall t :: t in base && m.owner != Owned(t) ==> m.prio[t] == base[t])
    && (m.owner != Nobody ==>
         && m.orig == base[m.owner.t] && m.prio[m.owner.t] <= base[m.owner.t]
         && forall x :: x in m.w.waiters ==> m.prio[m.owner.t] <= m.prio[x])
  }

  lemma SortedJoin(prio: map<Tid, nat>, l: seq<Tid>, t: Tid, i: nat)
    requires i <= |l| && t in prio && (forall x :: x in l ==> x in prio)
    requires forall a, b :: 0 <= a < b < |l| ==> prio[l[a]] <= prio[l[b]]
    requires (forall k :: 0 <= k < i ==> prio[l[k]] <= prio[t]) && (i < |l| ==> prio[t] < prio[l[i]])
    ensures var r := l[..i] + [t] + l[i..];
      (forall x :: x in r <==> x == t || x in l)
      && forall a, b :: 0 <= a < b < |r| ==> prio[r[a]] <= prio[r[b]]
  {
    var r := l[..i] + [t] + l[i..];
    assert forall x :: x in r <==> x == t || x in l;
    forall a, b | 0 <= a < b < |r| ensures prio[r[a]] <= prio[r[b]] {
      if a == i && i < |l| { assert prio[l[i]] <= prio[l[b - 1]]; }
    }
  }

  lemma TakeInherits(m: Mutex, base: map<Tid, nat>, t: Tid, wait: bool, i: nat)
    requires Inherits(m, base) && Enabled(m, TakeBy(t, wait, i)) && PrioPlace(m, t, i)
    ensures Inherits(Take(m, t, wait, i).0, base)
  {
    hide NoDup, Sound, Sorted;
    TakeKeeps(m, t, wait, i);
    var r := Take(m, t, wait, i).0;
    if m.owner != Owned(t) && m.value == 0 && wait {
      TakeSorted(m, t, i);
      assert forall x :: x in r.w.waiters ==> x == t || x in m.w.waiters;
    } else {
      SortedIs(m);
      SamePrioSorted(m, r, m.w.waiters);
    }
  }

  lemma SortedIs(m: Mutex)
    requires (forall x :: x in m.w.waiters ==> x in m.prio) && Sorted(m)
    ensures forall i, j :: 0 <= i < j < |m.w.waiters| ==> m.prio[m.w.waiters[i]] <= m.prio[m.w.waiters[j]]
  {
  }

  /** A thread that waits joins the list in the order of priorities, which the boost does not change. */
  lemma TakeSorted(m: Mutex, t: Tid, i: nat)
    requires Inv(m) && (forall x :: x in m.w.waiters ==> x in m.prio) && Sorted(m)
    requires Enabled(m, TakeBy(t, true, i)) && PrioPlace(m, t, i) && m.owner != Owned(t) && m.value == 0
    ensures var r := Take(m, t, true, i).0;
      && (forall x :: x in r.w.waiters <==> x == t || x in m.w.waiters) && (forall x :: x in r.w.waiters ==> x in r.prio) && Sorted(r)
  {
    hide NoDup;
    SortedJoin(m.prio, m.w.waiters, t, i);
    var r, e := Take(m, t, true, i).0, Enqueue(m.w, t, i).waiters;
    assert m.owner.t !in e;
    SamePrioSorted(m, r, e);
  }

  lemma SamePrioSorted(m: Mutex, r: Mutex, e: seq<Tid>)
    requires r.w.waiters == e && (forall x :: x in e ==> x in m.prio && x in r.prio && r.prio[x] == m.prio[x])
    requires forall a, b :: 0 <= a < b < |e| ==> m.prio[e[a]] <= m.prio[e[b]]
    ensures Sorted(r)
  {
  }

  lemma ReleaseInherits(m: Mutex, base: map<Tid, nat>, t: Tid)
    requires Inherits(m, base) && Enabled(m, ReleaseBy(t))
    ensures Inherits(Release(m, t).0, base)
  {
    ReleaseKeeps(m, t);
    if m.w.waiters != [] {
      hide NoDup, Sound;
      assert forall x :: x in m.w.waiters[1..] ==> x in m.w.waiters;
      assert m.w.waiters[0] in m.w.waiters;
    }
  }

  lemma SortedCut(prio: map<Tid, nat>, l: seq<Tid>, k: nat, r: seq<Tid>)
    requires k < |l| && |r| == |l| - 1 && (forall x :: x in l ==> x in prio)
    requires forall j {:trigger r[j]} :: 0 <= j < |r| ==> r[j] == if j < k then l[j] else l[j + 1]
    requires forall i, j :: 0 <= i < j < |l| ==> prio[l[i]] <= prio[l[j]]
    ensures forall i, j :: 0 <= i < j < |r| ==> r[i] in prio && r[j] in prio && prio[r[i]] <= prio[r[j]]
  {
    forall i, j | 0 <= i < j < |r| ensures r[i] in prio && r[j] in prio && prio[r[i]] <= prio[r[j]] {
      var a, b := if i < k then i else i + 1, if j < k then j else j + 1;
      assert prio[l[a]] <= prio[l[b]];
    }
  }

  lemma SortedWithout(m: Mutex, t: Tid)
    requires Inv(m) && Sorted(m) && t in m.w.waiters
    ensures Inv(Step(m, TimesOut(t))) && Sorted(Step(m, TimesOut(t)))
  {
    hide NoDup;
    StepKeeps(m, TimesOut(t));
    var l := m.w.waiters;
    WithoutIndex(l, IndexOf(l, t));
    SortedCut(m.prio, l, IndexOf(l, t), Without(l, t));
  }

  lemma LeaveInherits(m: Mutex, base: map<Tid, nat>, t: Tid)
    requires Inherits(m, base)
    ensures t in m.w.waiters ==> Inherits(Step(m, TimesOut(t)), base)
    ensures t in m.w.woken ==> Inherits(Step(m, Returns(t)), base)
  {
    if t in m.w.waiters { SortedWithout(m, t); }
    if t in m.w.woken { StepKeeps(m, Returns(t)); }
  }

  // ----- whole runs -----

  predicate CanRun(m: Mutex, run: seq<Action>)
    decreases |run|
  {
    run == [] || (Enabled(m, run[0]) && CanRun(Step(m, run[0]), run[1..]))
  }

  function Exec(m: Mutex, run: seq<Action>): Mutex
    requires CanRun(m, run)
    decreases |run|
  {
    if run == [] then m else Exec(Step(m, run[0]), run[1..])
  }

  /** Every blocking take of the run joins the wait list in priority order. */
  ghost predicate ByPriority(m: Mutex, run: seq<Action>)
    requires CanRun(m, run)
    decreases |run|
  {
    run == [] || ((run[0].TakeBy? ==> PrioPlace(m, run[0].t, run[0].i)) && ByPriority(Step(m, run[0]), run[1..]))
  }

  function Free(prio: map<Tid, nat>): Mutex { Mutex(1, Nobody, 0xff, 0, Waits([], map[]), prio) }

  lemma {:induction false} RunInherits(m: Mutex, base: map<Tid, nat>, run: seq<Action>)
    requires Inherits(m, base) && CanRun(m, run) && ByPriority(m, run)
    ensures Inherits(Exec(m, run), base)
    decreases |run|
  {
    if run != [] {
      match run[0]
      case TakeBy(t, wait, i) =>
        TakeInherits(m, base, t, wait, i);
        RunInherits(Step(m, run[0]), base, run[1..]);
      case ReleaseBy(t) =>
        ReleaseInherits(m, base, t);
        RunInherits(Step(m, run[0]), base, run[1..]);
      case TimesOut(t) =>
        LeaveInherits(m, base, t);
        RunInherits(Step(m, run[0]), base, run[1..]);
      case Returns(t) =>
        LeaveInherits(m, base, t);
        RunInherits(Step(m, run[0]), base, run[1..]);
    }
  }

  /** In every run of takes, nested takes, releases, hand-offs and time-outs on a mutex with
      priority-ordered waiting: the owner is never less urgent than a waiter, and every thread
      that does not own the mutex has the priority it had before its take. */
  lemma PriorityInheritance(prio: map<Tid, nat>, run: seq<Action>, t: Tid)
    requires CanRun(Free(prio), run) && ByPriority(Free(prio), run) && t in prio
    ensures var m := Exec(Free(prio), run);
      && m.prio.Keys == prio.Keys
      && (m.owner != Nobody ==> forall x :: x in m.w.waiters ==> m.owner.t in m.prio && x in m.prio && m.prio[m.owner.t] <= m.prio[x])
      && (m.owner != Owned(t) ==> m.prio[t] == prio[t])
  {
    RunInherits(Free(prio), prio, run);
  }

  /** The owner is at least as urgent as every waiter. */
  ghost predicate Urgent(m: Mutex) {
    m.owner != Nobody ==> m.owner.t in m.prio && forall x :: x in m.w.waiters ==> x in m.prio && m.prio[m.owner.t] <= m.prio[x]
  }

  /** The last release of the owner passes over a waiter that is more urgent than the first one. */
  ghost predicate PassesOver(m: Mutex, a: Action) {
    && a.ReleaseBy? && m.owner == Owned(a.t) && m.hold == 1
    && exists x :: x in m.w.waiters && x in m.prio && m.w.waiters[0] in m.prio && m.prio[x] < m.prio[m.w.waiters[0]]
  }

  /** Whatever the order of waiting: a step keeps the owner ahead of its waiters exactly when it is not
      a hand-off past a more urgent waiter. */
  lemma StepUrgent(m: Mutex, a: Action)
    requires Inv(m) && Urgent(m) && Enabled(m, a)
    ensures Urgent(Step(m, a)) <==> !PassesOver(m, a)
  {
    match a
    case TakeBy(t, wait, i) => TakeUrgent(m, t, wait, i);
    case ReleaseBy(t) => ReleaseUrgent(m, t);
    case TimesOut(t) =>
    case Returns(t) =>
  }

  lemma TakeUrgent(m: Mutex, t: Tid, wait: bool, i: nat)
    requires Inv(m) && Urgent(m) && Enabled(m, TakeBy(t, wait, i))
    ensures Urgent(Take(m, t, wait, i).0)
  {
    var e := Enqueue(m.w, t, i);
    assert forall x :: x in e.waiters <==> x == t || x in m.w.waiters;
  }

  lemma ReleaseUrgent(m: Mutex, t: Tid)
    requires Inv(m) && Urgent(m) && Enabled(m, ReleaseBy(t))
    ensures Urgent(Release(m, t).0) <==> !PassesOver(m, ReleaseBy(t))
  {
    if m.owner == Owned(t) && m.hold == 1 && m.w.waiters != [] {
      var l, r := m.w.waiters, Release(m, t).0;
      assert l == [l[0]] + l[1..] && l[0] in l;
      assert forall x :: x in l ==> r.prio[x] == m.prio[x];
    }
  }

  /** In every state of the run, the first and the last included, the owner is ahead of its waiters. */
  ghost predicate AlwaysUrgent(m: Mutex, run: seq<Action>)
    requires CanRun(m, run)
    decreases |run|
  {
    Urgent(m) && (run == [] || AlwaysUrgent(Step(m, run[0]), run[1..]))
  }

  ghost predicate EverPassesOver(m: Mutex, run: seq<Action>)
    requires CanRun(m, run)
    decreases |run|
  {
    run != [] && (PassesOver(m, run[0]) || EverPassesOver(Step(m, run[0]), run[1..]))
  }

  /** Over a whole run, with waiters in any order, the owner is always ahead of its waiters exactly when
      no hand-off passes over a more urgent waiter. */
  lemma {:induction false} UrgentRuns(m: Mutex, run: seq<Action>)
    requires Inv(m) && Urgent(m) && CanRun(m, run)
    ensures AlwaysUrgent(m, run) <==> !EverPassesOver(m, run)
    decreases |run|
  {
    hide Inv, Urgent, PassesOver;
    if run != [] {
      StepKeeps(m, run[0]);
      StepUrgent(m, run[0]);
      if Urgent(Step(m, run[0])) { UrgentRuns(Step(m, run[0]), run[1..]); } else { NotAlways(Step(m, run[0]), run[1..]); }
    }
  }

  lemma NotAlways(m: Mutex, run: seq<Action>)
    requires CanRun(m, run) && !Urgent(m)
    ensures !AlwaysUrgent(m, run)
  {
  }

  // ----- the priority after the last release -----

  /** Only the owner has another priority than its own, and the mutex remembers its own. */
  ghost predicate Remembers(m: Mutex, base: map<Tid, nat>) {
    && m.prio.Keys == base.Keys
    && (forall t :: t in base && m.owner != Owned(t) ==> m.prio[t] == base[t])
    && (m.owner != Nobody ==> m.owner.t in base && m.orig == base[m.owner.t] && m.prio[m.owner.t] <= base[m.owner.t])
  }

  lemma StepRemembers(m: Mutex, base: map<Tid, nat>, a: Action)
    requires Inv(m) && Remembers(m, base) && Enabled(m, a)
    ensures Remembers(Step(m, a), base)
  {
    hide NoDup, Sound;
  }

  /** Whatever the order of waiting, a thread that does not own the mutex has the priority it had before
      its take, and inheriting only ever made an owner more urgent. */
  lemma {:induction false} PriorityRestored(m: Mutex, base: map<Tid, nat>, run: seq<Action>)
    requires Inv(m) && Remembers(m, base) && CanRun(m, run)
    ensures Inv(Exec(m, run)) && Remembers(Exec(m, run), base)
    decreases |run|
  {
    hide Inv, Remembers;
    if run != [] {
      StepKeeps(m, run[0]);
      StepRemembers(m, base, run[0]);
      PriorityRestored(Step(m, run[0]), base, run[1..]);
    }
  }

  // ----- whose priority the owner has -----

  /** The step makes its thread wait for the mutex. */
  ghost predicate Blocks(m: Mutex, a: Action)
    requires Enabled(m, a)
  {
    a.TakeBy? && a.t !in m.w.waiters && a.t in Step(m, a).w.waiters
  }

  function Min(a: nat, b: nat): nat { if a < b then a else b }

  /** A priority changes in two ways only: the last release of the owner restores what the mutex has
      remembered, and when a thread begins to wait the owner gets the more urgent of its own priority
      and the waiter's. */
  lemma StepPriority(m: Mutex, a: Action, t: Tid)
    requires Inv(m) && Enabled(m, a) && t in m.prio
    ensures var r := Step(m, a);
      t in r.prio && r.prio[t] ==
        if a == ReleaseBy(t) && m.owner == Owned(t) && m.hold == 1 then m.orig
        else if Blocks(m, a) && m.owner == Owned(t) then Min(m.prio[t], m.prio[a.t])
        else m.prio[t]
  {
    hide NoDup;
    match a
    case TakeBy(x, wait, i) => TakeAnswers(m, x, wait, i);
    case ReleaseBy(_) =>
    case TimesOut(_) =>
    case Returns(_) =>
  }

  /** The threads that have begun to wait since the mutex last changed hands. */
  ghost function Blockers(m: Mutex, seen: set<Tid>, run: seq<Action>): set<Tid>
    requires CanRun(m, run)
    decreases |run|
  {
    if run == [] then seen else Blockers(Step(m, run[0]), SeenAfter(m, seen, run[0]), run[1..])
  }

  ghost function SeenAfter(m: Mutex, seen: set<Tid>, a: Action): set<Tid>
    requires Enabled(m, a)
  {
    if Step(m, a).owner != m.owner then {} else if Blocks(m, a) then seen + {a.t} else seen
  }

  /** The owner's priority is the most urgent of its own and those of `seen`. */
  ghost predicate MostUrgent(m: Mutex, base: map<Tid, nat>, seen: set<Tid>) {
    m.owner != Nobody ==>
      && m.owner.t in m.prio && m.owner.t in base && m.prio[m.owner.t] <= base[m.owner.t]
      && (forall u :: u in seen ==> u in base && m.prio[m.owner.t] <= base[u])
      && (m.prio[m.owner.t] == base[m.owner.t] || exists u :: u in seen && u in base && m.prio[m.owner.t] == base[u])
  }

  lemma StepMostUrgent(m: Mutex, base: map<Tid, nat>, seen: set<Tid>, a: Action)
    requires Inv(m) && Remembers(m, base) && Enabled(m, a) && MostUrgent(m, base, seen)
    ensures MostUrgent(Step(m, a), base, SeenAfter(m, seen, a))
  {
    hide NoDup, Step;
    StepKeeps(m, a);
    StepRemembers(m, base, a);
    OwnerSteps(m, a);
    var r := Step(m, a);
    if r.owner != Nobody {
      var o := r.owner.t;
      if m.owner == r.owner {
        StepPriority(m, a, o);
        if Blocks(m, a) { assert a.t != o && m.prio[a.t] == base[a.t]; }
      } else {
        StepPriority(m, a, o);
        assert m.prio[o] == base[o];
      }
    }
  }

  /** The mutex changes hands by a take of a free one and by a last release. */
  lemma OwnerSteps(m: Mutex, a: Action)
    requires Inv(m) && Enabled(m, a)
    ensures var r := Step(m, a);
      r.owner != m.owner ==> !Blocks(m, a) && (if a.TakeBy? then m.owner == Nobody && r.owner == Owned(a.t) else a.ReleaseBy? && m.owner == Owned(a.t))
    ensures Blocks(m, a) ==> m.owner != Nobody && a.t != m.owner.t && a.t in m.prio
    ensures m.owner != Nobody && a == ReleaseBy(m.owner.t) && m.hold == 1 ==> Step(m, a).owner != m.owner
  {
    hide NoDup;
    match a
    case TakeBy(x, wait, i) => TakeAnswers(m, x, wait, i);
    case ReleaseBy(x) =>
      ReleaseAnswers(m, x);
      if m.w.waiters != [] { assert m.w.waiters[0] in m.w.waiters; }
    case TimesOut(_) =>
    case Returns(_) =>
  }

  /** In every run, with waiters in any order: the owner's priority is exactly the most urgent of its own
      and those of the threads that have begun to wait since it got the mutex, and every other thread
      has its own. */
  lemma {:induction false} InheritsExactly(m: Mutex, base: map<Tid, nat>, seen: set<Tid>, run: seq<Action>)
    requires Inv(m) && Remembers(m, base) && MostUrgent(m, base, seen) && CanRun(m, run)
    ensures var r := Exec(m, run);
      && MostUrgent(r, base, Blockers(m, seen, run))
      && forall t :: t in base && r.owner != Owned(t) ==> t in r.prio && r.prio[t] == base[t]
    decreases |run|
  {
    hide Inv, Step, MostUrgent, SeenAfter;
    if run != [] {
      StepKeeps(m, run[0]);
      StepRemembers(m, base, run[0]);
      StepMostUrgent(m, base, seen, run[0]);
      InheritsExactly(Step(m, run[0]), base, SeenAfter(m, seen, run[0]), run[1..]);
    }
  }

  /** First-in-first-out waiting does not keep the owner ahead of its waiters: after a hand-off
      the new owner runs with its own priority while a more urgent thread waits. */
  lemma FifoInverts()
    ensures var m := Free(map[1 := 10, 2 := 9, 3 := 5]);
      var run := [TakeBy(1, true, 0), TakeBy(2, true, 0), TakeBy(3, true, 1), ReleaseBy(1)];
      CanRun(m, run) &&
      var r := Exec(m, run);
      r.owner == Owned(2) && r.w.waiters == [3] && 2 in r.prio && 3 in r.prio && r.prio[3] < r.prio[2]
  {
    var m0 := Free(map[1 := 10, 2 := 9, 3 := 5]);
    var m1 := Step(m0, TakeBy(1, true, 0));
    var m2 := Step(m1, TakeBy(2, true, 0));
    assert m2.w.waiters == [2] && m2.prio == map[1 := 9, 2 := 9, 3 := 5];
    var m3 := Step(m2, TakeBy(3, true, 1));
    assert m3.w.waiters == [2, 3] && m3.prio == map[1 := 5, 2 := 9, 3 := 5];
    var m4 := Step(m3, ReleaseBy(1));
    assert m4.w.waiters == [3] && m4.owner == Owned(2);
    var run := [TakeBy(1, true, 0), TakeBy(2, true, 0), TakeBy(3, true, 1), ReleaseBy(1)];
    assert run[1..] == [TakeBy(2, true, 0), TakeBy(3, true, 1), ReleaseBy(1)];
    assert run[1..][1..] == [TakeBy(3, true, 1), ReleaseBy(1)];
    assert run[1..][1..][1..] == [ReleaseBy(1)];
    assert CanRun(m4, []) && Exec(m4, []) == m4;
    assert CanRun(m3, [ReleaseBy(1)]) && Exec(m3, [ReleaseBy(1)]) == m4;
    assert CanRun(m2, run[1..][1..]) && Exec(m2, run[1..][1..]) == m4;
  }

  /** The count of nested takes has 8 bits: at 255 one more take by the owner makes it 0. */
  lemma HoldOverflows(m: Mutex, t: Tid, wait: bool, i: nat)
    requires Inv(m) && t in m.prio && !Inside(m.w, t) && i <= |m.w.waiters|
    ensures Inv(Take(m, t, wait, i).0) <==> !(m.owner == Owned(t) && m.hold == HOLDS - 1)
  {
    if !(m.owner == Owned(t) && m.hold == HOLDS - 1) { TakeKeeps(m, t, wait, i); }
  }

  // ----- mutual exclusion -----

  /** The takes of `t` that a run grants, at once or by hand-off, and its successful releases. */
  function Holds(m: Mutex, run: seq<Action>, t: Tid): int
    requires CanRun(m, run)
    decreases |run|
  {
    if run == [] then 0
    else StepHolds(m, run[0], t) + Holds(Step(m, run[0]), run[1..], t)
  }

  function StepHolds(m: Mutex, a: Action, t: Tid): int
    requires Enabled(m, a)
  {
    match a
    case TakeBy(x, wait, i) => if x == t && Take(m, x, wait, i).1 == Done(Ok) then 1 else 0
    case ReleaseBy(x) =>
      (if x == t && Release(m, x).1 == Ok then -1 else 0)
      + (if Release(m, x).0.w.waiters != m.w.waiters && m.w.waiters[0] == t then 1 else 0)
    case _ => 0
  }

  function HoldOf(m: Mutex, t: Tid): int { if m.owner == Owned(t) then m.hold else 0 }

  /** What a thread holds is exactly its granted takes less its releases. */
  lemma {:induction false} HoldsBalance(m: Mutex, run: seq<Action>, t: Tid)
    requires Inv(m) && CanRun(m, run)
    ensures Inv(Exec(m, run)) && HoldOf(Exec(m, run), t) == HoldOf(m, t) + Holds(m, run, t)
    decreases |run|
  {
    if run != [] {
      StepKeeps(m, run[0]);
      StepBalance(m, run[0], t);
      HoldsBalance(Step(m, run[0]), run[1..], t);
    }
  }

  lemma StepBalance(m: Mutex, a: Action, t: Tid)
    requires Inv(m) && Enabled(m, a)
    ensures HoldOf(Step(m, a), t) == HoldOf(m, t) + StepHolds(m, a, t)
  {
    if a.ReleaseBy? && m.w.waiters != [] {
      assert m.w.waiters[1..] != m.w.waiters;
      assert m.w.waiters[0] in m.w.waiters;
    }
  }

  /** At no point of any run have two threads takes granted that they have not released. */
  lemma MutualExclusion(prio: map<Tid, nat>, run: seq<Action>, t: Tid, u: Tid)
    requires CanRun(Free(prio), run)
    requires Holds(Free(prio), run, t) > 0 && Holds(Free(prio), run, u) > 0
    ensures t == u && Exec(Free(prio), run).owner == Owned(t)
  {
    HoldsBalance(Free(prio), run, t);
    HoldsBalance(Free(prio), run, u);
  }
}

module Mutexes {
  import opened Rings
  import opened KernelModel
  import opened IpcModel
  import opened Scheduling
  import opened Ipc
  import M = MutexModel

  /** The current priorities of all threads. */
  ghost function Prios(s: State): (r: map<Tid, nat>)
    ensures r.Keys == s.threads.Keys
  { map t | t in s.threads :: s.threads[t].prio }

  /** Boosting or unboosting a thread that is not in the wait list leaves the waiters alone. */
  lemma BoostWaits(s: State, t: Tid, p: nat, q: nat, inside: set<Tid>)
    requires WaitsOk(s, q, inside) && t in s.threads && t !in s.lists[WaitList(q)] && p < s.levels
    ensures var r := KernelModel.ChangePriority(s, t, p);
      && r.current == s.current && r.levels == s.levels && (t != s.current ==> r.threads[s.current] == s.threads[s.current])
      && Inv(r) && WaitList(q) in r.lists && r.lists[WaitList(q)] == s.lists[WaitList(q)]
      && WaitsOk(r, q, inside)
  {
    ChangePriorityKeeps(s, t, p);
    var r := KernelModel.ChangePriority(s, t, p);
    assert r.lists[WaitList(q)] == s.lists[WaitList(q)];
    assert Blocked(r, q, inside);
  }

  lemma BoostView(s: State, t: Tid, p: nat, q: nat, inside: set<Tid>)
    requires WaitsOk(s, q, inside) && t in s.threads && p < s.levels
    requires WaitsOk(KernelModel.ChangePriority(s, t, p), q, inside)
    requires KernelModel.ChangePriority(s, t, p).lists[WaitList(q)] == s.lists[WaitList(q)]
    ensures WaitsOf(KernelModel.ChangePriority(s, t, p), q, inside) == WaitsOf(s, q, inside)
    ensures Prios(KernelModel.ChangePriority(s, t, p)) == Prios(s)[t := p]
  {
    hide Placed;
  }

  /** The place in the wait list depends on the priorities of the waiters and of the taker. */
  lemma BoostPlace(s: State, t: Tid, p: nat, q: nat, flag: Flag, inside: set<Tid>)
    requires WaitsOk(s, q, inside) && t in s.threads && t !in s.lists[WaitList(q)] && p < s.levels && t != s.current
    ensures var r, l := KernelModel.ChangePriority(s, t, p), s.lists[WaitList(q)];
      (forall x :: x in l ==> x in r.threads)
      && s.current in r.threads
      && Position(r, l, r.threads[s.current].prio, flag) == Position(s, l, s.threads[s.current].prio, flag)
  {
    var r := KernelModel.ChangePriority(s, t, p);
    PositionSame(s, r, s.lists[WaitList(q)], s.threads[s.current].prio, flag);
  }

  /** The owner `o` inherits the priority of a more urgent taker, which then waits. */
  ghost function Boosted(s: State, o: Tid): (r: State)
    requires Inv(s) && o in s.threads
    ensures Inv(r) && r.current == s.current && r.lists.Keys == s.lists.Keys
    ensures o != s.current ==> r.threads[s.current] == s.threads[s.current]
  {
    var p := s.threads[s.current].prio;
    if p < s.threads[o].prio then (ChangePriorityKeeps(s, o, p); KernelModel.ChangePriority(s, o, p)) else s
  }

  /** Inheritance changes one priority and no list. */
  lemma BoostedSame(s: State, o: Tid, q: nat, flag: Flag, inside: set<Tid>)
    requires WaitsOk(s, q, inside) && o in s.threads && o != s.current && o !in s.lists[WaitList(q)]
    ensures var r, t, l := Boosted(s, o), s.current, s.lists[WaitList(q)];
      && WaitsOk(r, q, inside) && WaitsOf(r, q, inside) == WaitsOf(s, q, inside) && r.lists[WaitList(q)] == l
      && (forall x :: x in l ==> x in s.threads && x in r.threads)
      && Position(r, l, r.threads[t].prio, flag) == Position(s, l, s.threads[t].prio, flag)
      && t in Prios(s) && o in Prios(s) && Prios(s)[t] == s.threads[t].prio && Prios(s)[o] == s.threads[o].prio
      && Prios(r) == if s.threads[t].prio < s.threads[o].prio then Prios(s)[o := s.threads[t].prio] else Prios(s)
  {
    hide Placed, WaitsOf, Position, KernelModel.ChangePriority;
    var p := s.threads[s.current].prio;
    ListedKnown(s, q);
    if p < s.threads[o].prio {
      BoostWaits(s, o, p, q, inside);
      BoostView(s, o, p, q, inside);
      BoostPlace(s, o, p, q, flag, inside);
    }
  }

  lemma ListedKnown(s: State, q: nat)
    requires Inv(s) && WaitList(q) in s.lists
    ensures forall x :: x in s.lists[WaitList(q)] ==> x in s.threads
  {
  }

  lemma BoostedBlock(s: State, o: Tid, q: nat, flag: Flag, timed: bool, inside: set<Tid>)
    requires WaitsOk(s, q, inside) && o in s.threads && o != s.current && o !in s.lists[WaitList(q)]
    requires s.threads[s.current].stat == Running && s.current !in inside
    ensures var r, t, l := Block(Boosted(s, o), q, flag, timed), s.current, s.lists[WaitList(q)];
      var i := Position(s, l, s.threads[t].prio, flag);
      && WaitsOk(Boosted(s, o), q, inside)
      && WaitsOk(r, q, inside + {t}) && i <= |l| && WaitsOf(r, q, inside + {t}) == Enqueue(WaitsOf(s, q, inside), t, i)
      && Prios(s)[t] == s.threads[t].prio && Prios(s)[o] == s.threads[o].prio
      && Prios(r) == if s.threads[t].prio < s.threads[o].prio then Prios(s)[o := s.threads[t].prio] else Prios(s)
  {
    hide Placed, WaitsOf, Position, Block, Boosted, NoDup, Prios;
    BoostedSame(s, o, q, flag, inside);
    BlockWaits(Boosted(s, o), q, flag, timed, inside);
    BlockPrios(Boosted(s, o), q, flag, timed);
  }

  /** The last release gives the owner its own priority back. */
  ghost function Unboosted(s: State, t: Tid, p: nat): (r: State)
    requires Inv(s) && t in s.threads && p < s.levels
    ensures Inv(r) && r.levels == s.levels
  {
    if p != s.threads[t].prio then (ChangePriorityKeeps(s, t, p); KernelModel.ChangePriority(s, t, p)) else s
  }

  lemma UnboostedView(s: State, t: Tid, p: nat, q: nat, inside: set<Tid>)
    requires WaitsOk(s, q, inside) && t in s.threads && p < s.levels && t !in s.lists[WaitList(q)]
    ensures var r := Unboosted(s, t, p);
      WaitsOk(r, q, inside) && WaitsOf(r, q, inside) == WaitsOf(s, q, inside) && Prios(r) == Prios(s)[t := p]
  {
    if p != s.threads[t].prio {
      BoostWaits(s, t, p, q, inside);
      BoostView(s, t, p, q, inside);
    } else {
      assert Prios(s)[t := p] == Prios(s);
    }
  }

  lemma BlockPrios(s: State, q: nat, flag: Flag, timed: bool)
    requires Inv(s) && Enabled(s, DoBlock(q, flag, timed))
    ensures Prios(Block(s, q, flag, timed)) == Prios(s)
  {
  }

  lemma WakePrios(s: State, q: nat)
    requires Inv(s) && Enabled(s, DoWake(q))
    ensures Prios(Wake(s, q)) == Prios(s)
    ensures var t := s.lists[WaitList(q)][0]; t in s.threads && s.threads[t].prio < s.levels
  {
    assert s.lists[WaitList(q)][0] in s.lists[WaitList(q)];
  }

  lemma ErrorPrios(s: State, e: Err, q: nat, inside: set<Tid>)
    requires WaitsOk(s, q, inside) && s.current !in inside
    ensures var r := SetThread(s, s.current, s.threads[s.current].(error := e));
      WaitsOk(r, q, inside) && WaitsOf(r, q, inside) == WaitsOf(s, q, inside) && Prios(r) == Prios(s)
      && r.lists == s.lists
  {
    ForeignWaits(s, SetError(e), q, inside);
  }

  /** Steps of the kernel elsewhere that change no priority do not touch the mutex. */
  lemma ForeignMutex(s: State, a: Action, q: nat, inside: set<Tid>)
    requires WaitsOk(s, q, inside) && Enabled(s, a) && Foreign(s, a, q, inside)
    requires !a.DoChangePriority? && !a.DoCreate? && !a.DoStartup?
    ensures WaitsOk(Step(s, a), q, inside) && WaitsOf(Step(s, a), q, inside) == WaitsOf(s, q, inside)
    ensures Prios(Step(s, a)) == Prios(s)
  {
    ForeignWaits(s, a, q, inside);
    KeepsPrios(s, a);
  }

  /** No step elsewhere of a run changes a priority. */
  ghost predicate Elsewhere(s: State, run: seq<KernelModel.Action>, q: nat, inside: set<Tid>)
    requires Inv(s)
    decreases |run|
  {
    run == [] || (
      && Enabled(s, run[0]) && Foreign(s, run[0], q, inside)
      && !run[0].DoChangePriority? && !run[0].DoCreate? && !run[0].DoStartup?
      && (KernelModel.StepKeeps(s, run[0]); Elsewhere(Step(s, run[0]), run[1..], q, inside)))
  }

  /** Whatever the kernel does elsewhere between two calls, the mutex finds its waiters, their errors
      and all priorities as it left them. */
  lemma {:induction false} ForeignRun(s: State, run: seq<KernelModel.Action>, q: nat, inside: set<Tid>)
    requires WaitsOk(s, q, inside) && Elsewhere(s, run, q, inside)
    ensures CanRun(s, run)
    ensures var r := Exec(s, run); WaitsOk(r, q, inside) && WaitsOf(r, q, inside) == WaitsOf(s, q, inside) && Prios(r) == Prios(s)
    decreases |run|
  {
    hide Foreign, WaitsOf, Prios, Blocked, Step, Enabled;
    if run != [] {
      ForeignMutex(s, run[0], q, inside);
      ForeignRun(Step(s, run[0]), run[1..], q, inside);
    }
  }

  lemma ClosePrios(s: State, t: Tid, defunct: bool)
    requires Inv(s) && t in s.threads
    ensures Prios(Close(s, t, defunct)) == Prios(s)
  {
  }

  lemma SuspendPrios(s: State, t: Tid)
    requires Inv(s) && t in s.threads
    ensures Prios(KernelModel.Suspend(s, t)) == Prios(s)
  {
    hide Placed;
  }

  lemma ResumePrios(s: State, t: Tid)
    requires Inv(s) && t in s.threads
    ensures Prios(KernelModel.Resume(s, t)) == Prios(s)
  {
    hide Placed;
  }

  lemma ExpiredPrios(s: State, t: Tid)
    requires Inv(s) && t in s.threads
    ensures Prios(KernelModel.Expire(s, t)) == Prios(s)
  {
    hide Placed;
  }

  lemma SleepPrios(s: State)
    requires Inv(s) && Enabled(s, DoSleep)
    ensures Prios(Step(s, DoSleep)) == Prios(s)
  {
  }

  lemma KeepsPrios(s: State, a: Action)
    requires Inv(s) && Enabled(s, a) && !a.DoChangePriority? && !a.DoCreate? && !a.DoStartup?
    ensures Prios(Step(s, a)) == Prios(s)
  {
    match a
    case DoSchedule => SchedulePrios(s);
    case DoBlock(q, flag, timed) => BlockPrios(s, q, flag, timed);
    case DoWake(q) => WakePrios(s, q);
    case DoTick => SlicePrios(s);
    case DoClose(t, defunct) => ClosePrios(s, t, defunct);
    case DoSuspend(t) => SuspendPrios(s, t);
    case DoResume(t) => ResumePrios(s, t);
    case TimerFires(t) => ExpiredPrios(s, t);
    case DoSleep => SleepPrios(s);
    case ExitCritical => if s.lock <= 1 { LockKeeps(s, 0); SchedulePrios(s.(lock := 0)); }
    case _ =>
  }

  lemma SlicePrios(s: State)
    requires Inv(s)
    ensures Prios(Tick(s)) == Prios(s)
  {
    var me := s.threads[s.current];
    RecordKeeps(s, s.current, me.(remaining := me.initTick));
    SchedulePrios(SetThread(s, s.current, me.(remaining := me.initTick)));
  }

  lemma SchedulePrios(s: State)
    requires Inv(s)
    ensures Prios(Schedule(s)) == Prios(s)
  {
    var p := FirstLevel(s, 0);
    if p < s.levels { assert s.lists[ReadyList(p)][0] in s.lists[ReadyList(p)]; }
  }

  lemma ExpirePrios(s: State, t: Tid, q: nat, inside: set<Tid>)
    requires WaitsOk(s, q, inside) && t in s.lists[WaitList(q)]
    ensures Inv(KernelModel.Expire(s, t)) && Prios(Schedule(KernelModel.Expire(s, t))) == Prios(s)
  {
    ResumeKeeps(s, t);
    ExpiredPrios(s, t);
    SchedulePrios(KernelModel.Expire(s, t));
  }

  /** What the code may rely on when a running thread calls in. */
  lemma Caller(s: State, q: nat, flag: Flag, inside: set<Tid>)
    requires WaitsOk(s, q, inside) && s.current !in inside
    ensures s.current in s.threads && s.current in Prios(s) && !Inside(WaitsOf(s, q, inside), s.current)
    ensures s.current !in s.lists[WaitList(q)] && s.threads[s.current].prio == Prios(s)[s.current] < s.levels
    ensures (forall t :: t in s.lists[WaitList(q)] ==> t in s.threads)
            && Position(s, s.lists[WaitList(q)], s.threads[s.current].prio, flag) <= |s.lists[WaitList(q)]|
  {
  }

  class Mutex {
    const ipc: IpcObject
    var value: nat
    var owner: M.Owner
    var originalPriority: nat
    var hold: nat

    ghost predicate Valid()
      reads this, ipc, ipc.sched, ipc.sched.bitmap, ipc.sched.nodes
    {
      && ipc.Valid() && M.Inv(View())
      && (owner != M.Nobody ==> originalPriority < ipc.sched.levels)
    }

    ghost function View(): M.Mutex
      requires ipc.Valid()
      reads this, ipc, ipc.sched, ipc.sched.bitmap, ipc.sched.nodes
    {
      M.Mutex(value, owner, originalPriority, hold, ipc.View(), Prios(ipc.sched.View()))
    }

    /** `rt_mutex_init` */
    constructor (sched: Scheduler, q: nat, flag: Flag)
      requires sched.Valid() && WaitList(q) !in sched.lists
      modifies sched`lists, sched.nodes
      ensures Valid() && fresh(ipc) && ipc.sched == sched && ipc.q == q && ipc.flag == flag
      ensures View() == M.Free(Prios(old(sched.View())))
    {
      ipc := new IpcObject(sched, q, flag);
      value, owner, originalPriority, hold := 1, M.Nobody, 0xff, 0;
    }

    method AssignError(e: Err)
      requires ipc.Valid() && ipc.sched.current !in ipc.inside
      modifies ipc.sched`threads
      ensures ipc.Valid() && ipc.View() == old(ipc.View()) && Prios(ipc.sched.View()) == old(Prios(ipc.sched.View()))
      ensures ipc.Place() == old(ipc.Place())
      ensures ipc.sched.threads == old(ipc.sched.threads)[ipc.sched.current := old(ipc.sched.threads)[ipc.sched.current].(error := e)]
    {
      ghost var s := ipc.sched.View();
      ErrorPrios(s, e, ipc.q, ipc.inside);
      ipc.sched.AssignError(ipc.sched.current, e);
      PositionSame(s, ipc.sched.View(), s.lists[WaitList(ipc.q)], s.threads[s.current].prio, ipc.flag);
    }

    /** `rt_mutex_take` up to the rescheduling */
    method Take(time: int) returns (out: M.Outcome)
      requires Valid() && ipc.sched.threads[ipc.sched.current].stat == Running && ipc.sched.current !in ipc.inside
      modifies this, ipc, ipc.sched`threads, ipc.sched`lists, ipc.sched.bitmap, ipc.sched.nodes
      ensures ipc.Valid() && (View(), out) == M.Take(old(View()), ipc.sched.current, time != 0, old(ipc.Place()))
      ensures Valid() <==> !(old(owner) == M.Owned(ipc.sched.current) && old(hold) == M.HOLDS - 1)
    {
      hide Prios, Inv, Blocked, Shape, Sound;
      ghost var m, i := View(), ipc.Place();
      var t := ipc.sched.current;
      Caller(ipc.sched.View(), ipc.q, ipc.flag, ipc.inside);
      TakeOk(m, t, time != 0, i);
      AssignError(Ok);
      if owner == M.Owned(t) {
        hold := (hold + 1) % M.HOLDS;
        out := M.Done(Ok);
      } else if value > 0 {
        value := value - 1;
        owner := M.Owned(t);
        originalPriority := ipc.sched.threads[t].prio;
        hold := (hold + 1) % M.HOLDS;
        out := M.Done(Ok);
      } else if time == 0 {
        AssignError(Timeout);
        out := M.Done(Timeout);
      } else {
        BoostAndWait(time > 0);
        out := M.Blocked;
      }
    }

    lemma TakeOk(m: M.Mutex, t: Tid, wait: bool, i: nat)
      requires M.Inv(m) && t in m.prio && !Inside(m.w, t) && i <= |m.w.waiters|
      ensures M.Inv(M.Take(m, t, wait, i).0) <==> !(m.owner == M.Owned(t) && m.hold == M.HOLDS - 1)
      ensures m.owner != M.Owned(t) && m.value == 0 ==> m.owner.Owned? && m.owner.t in m.prio && m.owner.t !in m.w.waiters
    {
      M.HoldOverflows(m, t, wait, i);
    }

    /** The owner inherits the priority of a more urgent taker, which then waits. */
    method BoostAndWait(timed: bool)
      requires ipc.Valid() && owner.Owned? && owner.t != ipc.sched.current && owner.t in ipc.sched.threads && owner.t !in ipc.sched.lists[WaitList(ipc.q)]
      requires ipc.sched.threads[ipc.sched.current].stat == Running && ipc.sched.current !in ipc.inside
      modifies ipc, ipc.sched`threads, ipc.sched`lists, ipc.sched.bitmap, ipc.sched.nodes
      ensures ipc.Valid() && ipc.View() == Enqueue(old(ipc.View()), ipc.sched.current, old(ipc.Place()))
      ensures var prio := old(Prios(ipc.sched.View()));
        Prios(ipc.sched.View()) == if prio[ipc.sched.current] < prio[owner.t] then prio[owner.t := prio[ipc.sched.current]] else prio
    {
      hide Inv, Shape, WaitsOf, Prios, WaitsOk;
      var t, o := ipc.sched.current, owner.t;
      ghost var s := ipc.sched.View();
      Caller(s, ipc.q, ipc.flag, ipc.inside);
      var p := ipc.sched.threads[t].prio;
      BoostedBlock(s, o, ipc.q, ipc.flag, timed, ipc.inside);
      if p < ipc.sched.threads[o].prio {
        ipc.sched.ChangePriority(o, p);
      }
      ipc.Suspend(timed);
    }

    /** `rt_mutex_take` after the rescheduling */
    method TakeReturns() returns (err: Err)
      requires Valid() && ipc.sched.threads[ipc.sched.current].stat == Running && ipc.sched.current in ipc.inside
      modifies ipc
      ensures Valid() && ipc.sched.current in old(View()).w.woken && err == old(View()).w.woken[ipc.sched.current]
      ensures View() == old(View()).(w := Leave(old(View()).w, ipc.sched.current))
      ensures err == Ok <==> owner == M.Owned(ipc.sched.current)
    {
      ghost var m := View();
      err := ipc.Resumed();
      M.StepKeeps(m, M.Returns(ipc.sched.current));
    }

    /** The timer of a waiter fires. */
    method TimeoutWaiter(t: Tid)
      requires Valid() && t in View().w.waiters
      modifies ipc.sched, ipc.sched.bitmap, ipc.sched.nodes
      ensures Valid() && View() == old(View()).(w := IpcModel.Expire(old(View()).w, t))
    {
      hide Prios, Inv, Blocked, Shape;
      M.StepKeeps(View(), M.TimesOut(t));
      ExpirePrios(ipc.sched.View(), t, ipc.q, ipc.inside);
      ipc.Timeout(t);
    }

    /** `rt_mutex_release` up to the rescheduling, which it asks for by its result */
    method Release() returns (err: Err, needSchedule: bool)
      requires Valid() && ipc.sched.threads[ipc.sched.current].stat == Running && ipc.sched.current !in ipc.inside
      modifies this, ipc.sched`threads, ipc.sched`lists, ipc.sched.bitmap, ipc.sched.nodes
      ensures Valid() && (View(), err) == M.Release(old(View()), ipc.sched.current)
      ensures needSchedule <==> old(owner) == M.Owned(ipc.sched.current) && old(hold) == 1 && old(View()).w.waiters != []
    {
      hide Inv, Blocked, Shape, Sound, NoDup, WakeFirst;
      ghost var m := View();
      var t := ipc.sched.current;
      Caller(ipc.sched.View(), ipc.q, ipc.flag, ipc.inside);
      ReleaseOk(View(), t);
      needSchedule := false;
      if owner != M.Owned(t) {
        AssignError(Error);
        err := Error;
      } else {
        err := Ok;
        hold := (hold + M.HOLDS - 1) % M.HOLDS;
        if hold == 0 {
          needSchedule := LastRelease(t, m);
        }
      }
    }

    /** The owner's hold has come to 0: it gets its own priority back, and the mutex is handed over or
        freed. */
    method LastRelease(t: Tid, ghost m: M.Mutex) returns (needSchedule: bool)
      requires ipc.Valid() && View() == m.(hold := 0) && M.Inv(m) && m.hold == 1 && m.owner == M.Owned(t)
      requires t in ipc.sched.threads && t !in ipc.View().waiters && originalPriority < ipc.sched.levels && t in m.prio
      modifies this, ipc.sched`threads, ipc.sched`lists, ipc.sched.bitmap, ipc.sched.nodes
      ensures ipc.Valid() && View() == M.Release(m, t).0 && (owner != M.Nobody ==> originalPriority < ipc.sched.levels)
      ensures needSchedule <==> m.w.waiters != []
    {
      hide Inv, Blocked, Shape, Sound, NoDup, WakeFirst, WaitsOf;
      Unboost(t);
      needSchedule := ipc.HasWaiters();
      HandOff(needSchedule);
    }

    lemma ReleaseOk(m: M.Mutex, t: Tid)
      requires M.Inv(m) && t in m.prio && !Inside(m.w, t)
      ensures M.Inv(M.Release(m, t).0)
    {
      M.ReleaseKeeps(m, t);
    }

    method Unboost(t: Tid)
      requires ipc.Valid() && t in ipc.sched.threads && t !in ipc.View().waiters && originalPriority < ipc.sched.levels
      modifies ipc.sched`threads, ipc.sched`lists, ipc.sched.bitmap, ipc.sched.nodes
      ensures ipc.Valid() && ipc.View() == old(ipc.View()) && Prios(ipc.sched.View()) == old(Prios(ipc.sched.View()))[t := originalPriority]
    {
      UnboostedView(ipc.sched.View(), t, originalPriority, ipc.q, ipc.inside);
      if originalPriority != ipc.sched.threads[t].prio {
        ipc.sched.ChangePriority(t, originalPriority);
      }
    }

    /** The last release passes the mutex to the first waiter, or frees it. */
    method HandOff(waiting: bool)
      requires ipc.Valid() && (waiting <==> ipc.View().waiters != []) && hold == 0
      modifies this, ipc.sched`threads, ipc.sched`lists, ipc.sched.bitmap, ipc.sched.nodes
      ensures ipc.Valid() && Prios(ipc.sched.View()) == old(Prios(ipc.sched.View()))
      ensures waiting ==>
        var next := old(ipc.View()).waiters[0];
        && ipc.View() == WakeFirst(old(ipc.View())) && next in old(ipc.sched.threads)
        && value == old(value) && owner == M.Owned(next) && hold == 1
        && originalPriority == old(ipc.sched.threads)[next].prio && originalPriority < ipc.sched.levels
      ensures !waiting ==>
        ipc.View() == old(ipc.View()) && value == old(value) + 1 && owner == M.Nobody && originalPriority == 0xff && hold == 0
    {
      hide Prios, Inv, Linked, MarksMatch, Separate, Known, NoDup, Wake, Placed, WellFormed;
      if waiting {
        WakePrios(ipc.sched.View(), ipc.q);
        var n := ipc.sched.FirstNode(WaitList(ipc.q));
        owner := M.Owned(n.t);
        originalPriority := ipc.sched.threads[n.t].prio;
        hold := 1;
        var t := ipc.ResumeFirst();
      } else {
        value := value + 1;
        owner := M.Nobody;
        originalPriority := 0xff;
      }
    }
  }
}
