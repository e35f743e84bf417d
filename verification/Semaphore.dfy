/** Semaphores (`ipc.c`): units are handed directly to a waiter, and none is lost or made. */
module SemaphoreModel {
  import opened Rings
  import opened KernelModel
  import opened IpcModel

  datatype Sem = Sem(value: nat, w: Waits)

  datatype Outcome = Done(err: Err) | Blocked

  const VALUES: nat := 0x1_0000

  /** `rt_sem_take`, first region; `i` is the place in the wait list. */
  function Take(m: Sem, t: Tid, wait: bool, i: nat): (Sem, Outcome)
    requires i <= |m.w.waiters|
  {
    if m.value > 0 then (m.(value := m.value - 1), Done(Ok))
    else if !wait then (m, Done(Timeout))
    else (m.(w := Enqueue(m.w, t, i)), Outcome.Blocked)
  }

  /** `rt_sem_release`; the value is a 16-bit counter. */
  function Release(m: Sem): Sem {
    if m.w.waiters != [] then m.(w := WakeFirst(m.w)) else m.(value := (m.value + 1) % VALUES)
  }

  function Reset(m: Sem, value: nat): Sem { Sem(value % VALUES, WakeAll(m.w)) }

  datatype Action =
    | TakeBy(t: Tid, wait: bool, i: nat)
    | Give
    | TimesOut(t: Tid)
    | Returns(t: Tid)

  predicate Enabled(m: Sem, a: Action) {
    match a
    case TakeBy(t, _, i) => !Inside(m.w, t) && i <= |m.w.waiters|
    case Give => true
    case TimesOut(t) => t in m.w.waiters
    case Returns(t) => t in m.w.woken
  }

  function Step(m: Sem, a: Action): Sem
    requires Enabled(m, a)
  {
    match a
    case TakeBy(t, wait, i) => Take(m, t, wait, i).0
    case Give => Release(m)
    case TimesOut(t) => m.(w := IpcModel.Expire(m.w, t))
    case Returns(t) => m.(w := Leave(m.w, t))
  }

  /** Nobody waits while there are units. */
  ghost predicate Inv(m: Sem) {
    m.value < VALUES && Sound(m.w) && (m.value > 0 ==> m.w.waiters == [])
  }

  lemma StepKeeps(m: Sem, a: Action)
    requires Inv(m) && Enabled(m, a)
    ensures Inv(Step(m, a))
  {
    match a
    case TakeBy(t, _, i) => WaitsKeep(m.w, t, i);
    case Give => WaitsKeep(m.w, 0, 0);
    case TimesOut(t) => WaitsKeep(m.w, t, 0);
    case Returns(t) => WaitsKeep(m.w, t, 0);
  }

  // ----- what the calls answer -----

  /** A take is answered at once with success exactly when there is a unit, with a time-out exactly when
      there is none and the caller does not wait, and joins the waiters otherwise. */
  lemma TakeAnswers(m: Sem, t: Tid, wait: bool, i: nat)
    requires Inv(m) && Enabled(m, TakeBy(t, wait, i))
    ensures var (r, out) := Take(m, t, wait, i);
      && (out == Done(Ok) <==> m.value > 0) && (out == Done(Timeout) <==> m.value == 0 && !wait)
      && (out.Blocked? <==> m.value == 0 && wait)
      && (out.Blocked? <==> t in r.w.waiters)
      && (if out.Blocked? then Joins(m.w, r.w, t) else r.w == m.w)
      && r.value == m.value - if out == Done(Ok) then 1 else 0
  {
    WaitsAre(m.w, t, i);
    var e := Enqueue(m.w, t, i);
    assert forall x :: x in e.waiters <==> x == t || x in m.w.waiters;
  }

  /** A release resumes the first waiter, or else counts, which fails to in a full counter only; a reset
      fails every waiter and sets the value. */
  lemma ReleaseAnswers(m: Sem, value: nat)
    requires Inv(m)
    ensures var r := Release(m);
      && FirstResumed(m.w, r.w)
      && (m.w.waiters != [] ==> r.value == m.value) && (m.w.waiters == [] ==> (r.value == m.value + 1 <==> m.value < VALUES - 1))
    ensures value < VALUES ==> Inv(Reset(m, value)) && Reset(m, value).value == value && AllFailed(m.w, Reset(m, value).w)
  {
    WaitsKeep(m.w, 0, 0);
    WaitsAre(m.w, 0, 0);
  }

  // ----- conservation over runs -----

  predicate CanRun(m: Sem, run: seq<Action>)
    decreases |run|
  {
    run == [] || (Enabled(m, run[0]) && CanRun(Step(m, run[0]), run[1..]))
  }

  function Exec(m: Sem, run: seq<Action>): Sem
    requires CanRun(m, run)
    decreases |run|
  {
    if run == [] then m else Exec(Step(m, run[0]), run[1..])
  }

  /** A release finds the counter full with nobody waiting. */
  predicate Overflows(m: Sem, a: Action) { a.Give? && m.w.waiters == [] && m.value == VALUES - 1 }

  predicate NeverFull(m: Sem, run: seq<Action>)
    requires CanRun(m, run)
    decreases |run|
  {
    run == [] || (!Overflows(m, run[0]) && NeverFull(Step(m, run[0]), run[1..]))
  }

  function Releases(run: seq<Action>): nat {
    if run == [] then 0 else (if run[0].Give? then 1 else 0) + Releases(run[1..])
  }

  /** The thread has left the wait list in this step, with success. */
  ghost predicate HandedTo(m: Sem, a: Action, t: Tid)
    requires Enabled(m, a)
  {
    t in m.w.waiters && t !in Step(m, a).w.waiters && t in Step(m, a).w.woken && Step(m, a).w.woken[t] == Ok
  }

  /** Units given out by a step: to a take that is answered with success, or to a blocked one. */
  ghost function Granted(m: Sem, a: Action): nat
    requires Enabled(m, a)
  {
    if (a.TakeBy? && Take(m, a.t, a.wait, a.i).1 == Done(Ok)) || exists t :: HandedTo(m, a, t) then 1 else 0
  }

  ghost function Grants(m: Sem, run: seq<Action>): nat
    requires CanRun(m, run)
    decreases |run|
  {
    if run == [] then 0 else Granted(m, run[0]) + Grants(Step(m, run[0]), run[1..])
  }

  /** A unit is handed over only by a release, and to the first waiter. */
  lemma HandOver(m: Sem, a: Action, t: Tid)
    requires Inv(m) && Enabled(m, a)
    ensures HandedTo(m, a, t) <==> a.Give? && m.w.waiters != [] && t == m.w.waiters[0]
  {
    match a
    case TakeBy(x, wait, i) => WaitingStay(m, x, wait, i);
    case Give =>
      if m.w.waiters != [] {
        assert m.w.waiters[0] in m.w.waiters;
        assert forall x :: x in m.w.waiters <==> x == m.w.waiters[0] || x in m.w.waiters[1..];
      }
    case TimesOut(_) =>
    case Returns(_) =>
  }

  lemma WaitingStay(m: Sem, t: Tid, wait: bool, i: nat)
    requires Inv(m) && Enabled(m, TakeBy(t, wait, i))
    ensures forall x :: x in m.w.waiters ==> x in Take(m, t, wait, i).0.w.waiters
  {
    assert forall x :: x in Enqueue(m.w, t, i).waiters <==> x == t || x in m.w.waiters;
  }

  lemma GrantedIs(m: Sem, a: Action)
    requires Inv(m) && Enabled(m, a)
    ensures Granted(m, a) == if (a.TakeBy? && m.value > 0) || (a.Give? && m.w.waiters != []) then 1 else 0
  {
    hide Step, Take, HandedTo;
    if a.TakeBy? { TakeAnswers(m, a.t, a.wait, a.i); }
    if a.Give? && m.w.waiters != [] { HandOver(m, a, m.w.waiters[0]); }
    forall t ensures HandedTo(m, a, t) ==> a.Give? && m.w.waiters != [] { HandOver(m, a, t); }
  }

  /** One step conserves units exactly when it does not overflow the counter. */
  lemma StepConserves(m: Sem, a: Action)
    requires Inv(m) && Enabled(m, a)
    ensures Step(m, a).value + Granted(m, a) == m.value + (if a.Give? then 1 else 0) <==> !Overflows(m, a)
  {
    hide Granted;
    GrantedIs(m, a);
  }

  /** Initial value plus releases equals value plus the takes that were answered with success and the
      blocked ones that were handed a unit, in every run, and value and waiters exclude each other. */
  lemma {:induction false} Conservation(m: Sem, run: seq<Action>)
    requires Inv(m) && CanRun(m, run) && NeverFull(m, run)
    ensures var r := Exec(m, run);
      Inv(r) && m.value + Releases(run) == r.value + Grants(m, run)
    decreases |run|
  {
    hide Step, Granted, Inv;
    if run != [] {
      StepKeeps(m, run[0]);
      StepConserves(m, run[0]);
      Conservation(Step(m, run[0]), run[1..]);
    }
  }

  /** The takes that have told their callers they have a unit: at once, or on their return. */
  function Told(m: Sem, a: Action): nat
    requires Enabled(m, a)
  {
    match a
    case TakeBy(t, wait, i) => if Take(m, t, wait, i).1 == Done(Ok) then 1 else 0
    case Returns(t) => if m.w.woken[t] == Ok then 1 else 0
    case _ => 0
  }

  function AllTold(m: Sem, run: seq<Action>): nat
    requires CanRun(m, run)
    decreases |run|
  {
    if run == [] then 0 else Told(m, run[0]) + AllTold(Step(m, run[0]), run[1..])
  }

  /** The same seen by the callers: initial value plus releases equals value, plus the takes that have
      returned with success, plus the resumed threads that have not run on yet. */
  lemma {:induction false} CallersConserve(m: Sem, run: seq<Action>)
    requires Inv(m) && CanRun(m, run) && NeverFull(m, run)
    ensures var r := Exec(m, run);
      m.value + |Resumed(m.w)| + Releases(run) == r.value + |Resumed(r.w)| + AllTold(m, run)
    decreases |run|
  {
    hide Step, Told, Inv, Resumed;
    if run != [] {
      StepKeeps(m, run[0]);
      StepTells(m, run[0]);
      CallersConserve(Step(m, run[0]), run[1..]);
    }
  }

  lemma StepTells(m: Sem, a: Action)
    requires Inv(m) && Enabled(m, a) && !Overflows(m, a)
    ensures var r := Step(m, a); m.value + |Resumed(m.w)| + (if a.Give? then 1 else 0) == r.value + |Resumed(r.w)| + Told(m, a)
  {
    var r := Step(m, a);
    match a
    case TakeBy(t, wait, i) =>
      TakeAnswers(m, t, wait, i);
      assert Resumed(r.w) == Resumed(m.w);
    case Give => if m.w.waiters != [] { ResumedAfterWake(m.w); }
    case TimesOut(t) => assert Resumed(r.w) == Resumed(m.w);
    case Returns(t) =>
      assert Resumed(r.w) == Resumed(m.w) - {t};
      assert t in Resumed(m.w) <==> m.w.woken[t] == Ok;
  }

  /** A release that overflows loses all units: from 65535 the counter goes to 0. */
  lemma OverflowLoses()
    ensures var m := Sem(65535, Waits([], map[])); Inv(m) && Release(m).value == 0
  {
  }

  // ----- each blocked take ends once -----

  /** What happened to thread `t` along a run: takes that blocked, hand-offs, time-outs, and
      returns with success and without. */
  datatype Tally = Tally(blocked: nat, handed: nat, expired: nat, okReturns: nat, badReturns: nat)

  function Count(m: Sem, run: seq<Action>, t: Tid): Tally
    requires CanRun(m, run)
    decreases |run|
  {
    if run == [] then Tally(0, 0, 0, 0, 0)
    else
      var c := Count(Step(m, run[0]), run[1..], t);
      match run[0]
      case TakeBy(x, wait, i) => if x == t && Take(m, x, wait, i).1.Blocked? then c.(blocked := c.blocked + 1) else c
      case Give => if m.w.waiters != [] && m.w.waiters[0] == t then c.(handed := c.handed + 1) else c
      case TimesOut(x) => if x == t then c.(expired := c.expired + 1) else c
      case Returns(x) =>
        if x != t then c
        else if m.w.woken[t] == Ok then c.(okReturns := c.okReturns + 1) else c.(badReturns := c.badReturns + 1)
  }

  function Flag(b: bool): nat { if b then 1 else 0 }

  /** Every take that blocked is still waiting or was ended by exactly one of a hand-off and a
      time-out; it returns success after the one and an error after the other. */
  lemma TakesEndOnce(m: Sem, run: seq<Action>, t: Tid)
    requires Inv(m) && CanRun(m, run) && !Inside(m.w, t)
    ensures var r, c := Exec(m, run), Count(m, run, t);
      && c.blocked == c.handed + c.expired + Flag(t in r.w.waiters)
      && c.handed == c.okReturns + Flag(t in r.w.woken && r.w.woken[t] == Ok)
      && c.expired == c.badReturns + Flag(t in r.w.woken && r.w.woken[t] != Ok)
  {
    TakesBalance(m, run, t);
  }

  /** The same for a thread that may be inside a take at the start. */
  lemma {:induction false} TakesBalance(m: Sem, run: seq<Action>, t: Tid)
    requires Inv(m) && CanRun(m, run)
    ensures var r, c := Exec(m, run), Count(m, run, t);
      && Flag(t in m.w.waiters) + c.blocked == c.handed + c.expired + Flag(t in r.w.waiters)
      && Flag(t in m.w.woken && m.w.woken[t] == Ok) + c.handed == c.okReturns + Flag(t in r.w.woken && r.w.woken[t] == Ok)
      && Flag(t in m.w.woken && m.w.woken[t] != Ok) + c.expired == c.badReturns + Flag(t in r.w.woken && r.w.woken[t] != Ok)
    decreases |run|
  {
    if run != [] {
      StepKeeps(m, run[0]);
      StepBalance(m, run[0], t);
      TakesBalance(Step(m, run[0]), run[1..], t);
    }
  }

  lemma StepBalance(m: Sem, a: Action, t: Tid)
    requires Inv(m) && Enabled(m, a)
    ensures var r, c := Step(m, a), Count(m, [a], t);
      && Flag(t in m.w.waiters) + c.blocked == c.handed + c.expired + Flag(t in r.w.waiters)
      && Flag(t in m.w.woken && m.w.woken[t] == Ok) + c.handed == c.okReturns + Flag(t in r.w.woken && r.w.woken[t] == Ok)
      && Flag(t in m.w.woken && m.w.woken[t] != Ok) + c.expired == c.badReturns + Flag(t in r.w.woken && r.w.woken[t] != Ok)
  {
    match a
    case TakeBy(x, wait, i) =>
      if m.value == 0 && wait { assert forall y :: y in Enqueue(m.w, x, i).waiters <==> y == x || y in m.w.waiters; }
    case Give =>
      if m.w.waiters != [] { assert forall y :: y in m.w.waiters <==> y == m.w.waiters[0] || y in m.w.waiters[1..]; }
    case _ =>
  }
}

module Semaphores {
  import opened Rings
  import opened KernelModel
  import opened IpcModel
  import opened Scheduling
  import opened Ipc
  import M = SemaphoreModel

  class Semaphore {
    const ipc: IpcObject
    var value: nat

    ghost predicate Valid()
      reads this, ipc, ipc.sched, ipc.sched.bitmap, ipc.sched.nodes
    {
      ipc.Valid() && M.Inv(View())
    }

    ghost function View(): M.Sem
      requires ipc.Valid()
      reads this, ipc, ipc.sched, ipc.sched.bitmap, ipc.sched.nodes
    {
      M.Sem(value, ipc.View())
    }

    /** `rt_sem_init` */
    constructor (sched: Scheduler, q: nat, value: nat, flag: Flag)
      requires sched.Valid() && WaitList(q) !in sched.lists && value < M.VALUES
      modifies sched`lists, sched.nodes
      ensures Valid() && fresh(ipc) && ipc.sched == sched && ipc.q == q && ipc.flag == flag
      ensures View() == M.Sem(value, Waits([], map[]))
    {
      ipc := new IpcObject(sched, q, flag);
      this.value := value;
    }

    /** `rt_sem_take` up to the rescheduling */
    method Take(time: int) returns (out: M.Outcome)
      requires Valid() && ipc.sched.threads[ipc.sched.current].stat == Running && ipc.sched.current !in ipc.inside
      modifies this, ipc, ipc.sched`threads, ipc.sched`lists, ipc.sched.bitmap, ipc.sched.nodes
      ensures Valid() && (View(), out) == M.Take(old(View()), ipc.sched.current, time != 0, old(ipc.Place()))
      ensures ipc.sched.View() == if out.Blocked? then Block(old(ipc.sched.View()), ipc.q, ipc.flag, time > 0) else old(ipc.sched.View())
    {
      ghost var m, t, i := View(), ipc.sched.current, ipc.Place();
      TakeKeeps(m, t, time != 0, i);
      if value > 0 {
        value := value - 1;
        out := M.Done(Ok);
      } else if time == 0 {
        out := M.Done(Err.Timeout);
      } else {
        ipc.Suspend(time > 0);
        out := M.Blocked;
      }
    }

    lemma TakeKeeps(m: M.Sem, t: Tid, wait: bool, i: nat)
      requires M.Inv(m) && i <= |m.w.waiters| && !Inside(m.w, t)
      ensures M.Inv(M.Take(m, t, wait, i).0)
    {
      M.StepKeeps(m, M.TakeBy(t, wait, i));
    }

    /** `rt_sem_take` after the rescheduling */
    method TakeReturns() returns (err: Err)
      requires Valid() && ipc.sched.threads[ipc.sched.current].stat == Running && ipc.sched.current in ipc.inside
      modifies ipc
      ensures Valid() && ipc.sched.current in old(View()).w.woken && err == old(View()).w.woken[ipc.sched.current]
      ensures View() == M.Step(old(View()), M.Returns(ipc.sched.current))
    {
      ghost var m := View();
      err := ipc.Resumed();
      M.StepKeeps(m, M.Returns(ipc.sched.current));
    }

    /** `rt_sem_release` up to the rescheduling, which it asks for by its result */
    method Release() returns (needSchedule: bool)
      requires Valid()
      modifies this, ipc.sched`threads, ipc.sched`lists, ipc.sched.bitmap, ipc.sched.nodes
      ensures Valid() && View() == M.Release(old(View()))
      ensures needSchedule <==> old(View()).w.waiters != []
      ensures ipc.sched.View() == if needSchedule then Wake(old(ipc.sched.View()), ipc.q) else old(ipc.sched.View())
    {
      M.StepKeeps(View(), M.Give);
      needSchedule := ipc.HasWaiters();
      if needSchedule {
        var t := ipc.ResumeFirst();
      } else {
        value := (value + 1) % M.VALUES;
      }
    }

    /** The timer of a waiter fires. */
    method Timeout(t: Tid)
      requires Valid() && t in View().w.waiters
      modifies ipc.sched, ipc.sched.bitmap, ipc.sched.nodes
      ensures Valid() && View() == M.Step(old(View()), M.TimesOut(t))
    {
      M.StepKeeps(View(), M.TimesOut(t));
      ipc.Timeout(t);
    }

    /** `rt_sem_control` with `RT_IPC_CMD_RESET`, up to the rescheduling */
    method Reset(newValue: nat)
      requires Valid()
      modifies this, ipc.sched`threads, ipc.sched`lists, ipc.sched.bitmap, ipc.sched.nodes
      ensures Valid() && View() == M.Reset(old(View()), newValue)
    {
      hide WaitsOf, Inv, Shape, Blocked;
      WaitsKeep(ipc.View(), 0, 0);
      ipc.ResumeAll();
      value := newValue % M.VALUES;
    }
  }
}
