/** Threads together with their timers: a call that waits for a number of ticks is ended by its timer
    in exactly that tick.  The kernel steps are those of `KernelModel`, the timers those of
    `TimerModel`. */
module TimedWaits {
  import K = KernelModel
  import T = TimerModel

  /** `clock` counts the ticks.  The timer of a thread has the number of the thread; the other timers
      of the table are those of timeout functions. */
  datatype Joint = Joint(clock: nat, k: K.State, timers: T.Timers)

  /** `ticks`: the waiting time of a call that starts the thread's timer.  `Clock` is a whole
      `rt_tick_increase`. */
  datatype Event = Kernel(a: K.Action, ticks: nat) | User(op: T.Op) | Clock(script: seq<seq<T.Op>>)

  // ----- what an action does to threads and to timers -----

  /** The thread whose error, suspension or timer an action changes. */
  ghost predicate Touches(k: K.State, a: K.Action, t: nat)
    requires K.Inv(k) && K.Enabled(k, a)
  {
    match a
    case TimerFires(x) => t == x
    case DoCreate(x, _, _) => t == x
    case DoStartup(x) => t == x
    case DoSuspend(x) => t == x
    case DoResume(x) => t == x
    case DoClose(x, _) => t == x
    case DoWake(q) => t == k.lists[K.WaitList(q)][0]
    case DoSleep => t == k.current
    case DoBlock(_, _, _) => t == k.current
    case SetError(_) => t == k.current
    case _ => false
  }

  /** What the action does with timers: resuming, suspending and deleting a thread stop its timer, and a
      call that waits sets and starts it. */
  ghost function OpsOf(k: K.State, a: K.Action, ticks: nat): seq<T.Op>
    requires K.Inv(k) && K.Enabled(k, a)
  {
    match a
    case DoStartup(t) => [T.DoStop(t)]
    case DoSuspend(t) => if k.threads[t].stat in {K.Ready, K.Running} then [T.DoStop(t)] else []
    case DoResume(t) => if k.threads[t].stat == K.Suspended then [T.DoStop(t)] else []
    case DoClose(t, _) => [T.DoStop(t)]
    case DoWake(q) => [T.DoStop(k.lists[K.WaitList(q)][0])]
    case DoSleep => WaitOps(k.current, ticks)
    case DoBlock(_, _, timed) => if timed then WaitOps(k.current, ticks) else [T.DoStop(k.current)]
    case _ => []
  }

  function WaitOps(t: nat, ticks: nat): seq<T.Op> { [T.DoStop(t), T.SetTime(t, ticks), T.DoStart(t)] }

  // ----- the joint machine -----

  /** The timer is linked exactly while the thread's record says so. */
  ghost predicate Coupled(j: Joint, t: nat)
    requires t in j.k.threads
  {
    && t in j.timers.table && !j.timers.table[t].periodic
    && (j.k.threads[t].armed <==> t in j.timers.list) && (t in j.timers.list ==> j.timers.table[t].active)
  }

  ghost predicate Inv(j: Joint) {
    && K.Inv(j.k) && T.AtRest(j.clock, j.timers) && T.Known(j.timers.table, j.timers.list)
    && forall t :: t in j.k.threads ==> Coupled(j, t)
  }

  /** A thread that is created has a timer that has been initialised; other timers do as they please, but
      each check ends; a waiting time is below half of the range. */
  ghost predicate Enabled(j: Joint, e: Event)
    requires Inv(j)
  {
    match e
    case Kernel(a, n) =>
      && K.Enabled(j.k, a) && !a.TimerFires? && !a.DoTick? && n < T.HALF
      && (a.DoCreate? ==> a.t in j.timers.table && !j.timers.table[a.t].periodic && a.t !in j.timers.list)
      && (a.DoBlock? && a.timed ==> n > 0)
    case User(op) => op.t !in j.k.threads
    case Clock(script) => T.Ends(T.NextNow(j.timers), script) && forall t :: t in j.k.threads ==> T.ScriptAlone(script, t)
  }

  /** The timer of a thread runs `rt_thread_timeout`, which calls the scheduler. */
  ghost function Expiries(threads: set<nat>, fired: seq<nat>): seq<K.Action> {
    if fired == [] then []
    else (if fired[0] in threads then [K.TimerFires(fired[0]), K.DoSchedule] else []) + Expiries(threads, fired[1..])
  }

  ghost function Actions(j: Joint, e: Event): seq<K.Action>
    requires Inv(j) && Enabled(j, e)
  {
    match e
    case Kernel(a, _) => [a]
    case User(_) => []
    case Clock(script) => [K.DoTick] + Expiries(j.k.threads.Keys, T.TickOf(j.timers, script).1)
  }

  ghost function TimersAfter(j: Joint, e: Event): T.Timers
    requires Inv(j) && Enabled(j, e)
  {
    match e
    case Kernel(a, n) => T.DoAll(j.timers, OpsOf(j.k, a, n))
    case User(op) => T.Do(j.timers, op)
    case Clock(script) => T.TickOf(j.timers, script).0
  }

  ghost function Step(j: Joint, e: Event): Joint
    requires Inv(j) && Enabled(j, e)
  {
    ActionsRun(j, e);
    Joint(j.clock + if e.Clock? then 1 else 0, K.Exec(j.k, Actions(j, e)), TimersAfter(j, e))
  }

  // ----- the kernel's side -----

  ghost predicate Same(a: K.Thread, b: K.Thread) {
    && a.armed == b.armed && a.error == b.error && (a.stat == K.Suspended <==> b.stat == K.Suspended)
    && (a.stat in {K.Ready, K.Running} <==> b.stat in {K.Ready, K.Running})
  }

  ghost predicate AllSame(k: K.State, r: K.State) {
    r.threads.Keys == k.threads.Keys && forall t :: t in k.threads ==> Same(k.threads[t], r.threads[t])
  }

  lemma ScheduleSame(k: K.State)
    requires K.Inv(k)
    ensures AllSame(k, K.Schedule(k))
  {
    var p := K.FirstLevel(k, 0);
    if p < k.levels {
      var to := k.lists[K.ReadyList(p)][0];
      assert to in k.lists[K.ReadyList(p)];
    }
  }

  /** An action leaves alone the threads that it does not touch. */
  lemma Untouched(k: K.State, a: K.Action, t: nat)
    requires K.Inv(k) && K.Enabled(k, a) && t in k.threads && !Touches(k, a, t)
    ensures t in K.Step(k, a).threads && Same(k.threads[t], K.Step(k, a).threads[t])
  {
    hide K.Schedule, K.Placed, K.Position, K.Unlink, K.InsertAt;
    match a
    case DoSchedule => ScheduleSame(k);
    case DoTick => TickSame(k);
    case ExitCritical => if k.lock <= 1 { ScheduleSame(k.(lock := 0)); }
    case DoChangePriority(x, p) => if x == t { PrioritySame(k, x, p); }
    case _ =>
  }

  lemma PrioritySame(k: K.State, x: nat, p: nat)
    requires K.Inv(k) && x in k.threads && p < k.levels
    ensures x in K.ChangePriority(k, x, p).threads && Same(k.threads[x], K.ChangePriority(k, x, p).threads[x])
  {
    hide K.Placed, K.Unlink, K.InsertAt;
  }

  lemma TickSame(k: K.State)
    requires K.Inv(k)
    ensures AllSame(k, K.Tick(k))
  {
    hide K.Schedule, K.Placed;
    var me := k.threads[k.current];
    K.RecordKeeps(k, k.current, me.(remaining := me.initTick));
    ScheduleSame(K.SetThread(k, k.current, me.(remaining := me.initTick)));
  }

  /** Suspending a thread that is not runnable, resuming one that is not suspended, and setting an error. */
  ghost predicate KeepsTimer(k: K.State, a: K.Action, t: nat)
    requires t in k.threads
  {
    match a
    case SetError(_) => true
    case DoSuspend(_) => k.threads[t].stat !in {K.Ready, K.Running}
    case DoResume(_) => k.threads[t].stat != K.Suspended
    case _ => false
  }

  /** Whether a touched thread's timer runs afterwards. */
  lemma Touched(k: K.State, a: K.Action, t: nat)
    requires K.Inv(k) && K.Enabled(k, a) && Touches(k, a, t) && !a.TimerFires?
    ensures var r := K.Step(k, a).threads;
      t in r && (r[t].armed <==> a.DoSleep? || (a.DoBlock? && a.timed) || (t in k.threads && KeepsTimer(k, a, t) && k.threads[t].armed))
  {
    hide K.Placed, K.Position;
    if a.DoWake? { FirstWaiter(k, a.q); }
  }

  lemma FirstWaiter(k: K.State, q: nat)
    requires K.Inv(k) && K.Enabled(k, K.DoWake(q))
    ensures var t := k.lists[K.WaitList(q)][0]; t in k.threads && k.threads[t].stat == K.Suspended
  {
    var t := k.lists[K.WaitList(q)][0];
    assert t in k.lists[K.WaitList(q)];
  }

  lemma ThreadsAfter(k: K.State, a: K.Action)
    requires K.Inv(k) && K.Enabled(k, a)
    ensures K.Step(k, a).threads.Keys == k.threads.Keys + if a.DoCreate? then {a.t} else {}
  {
    hide K.Schedule, K.Placed, K.Position;
    match a
    case DoSchedule => ScheduleSame(k);
    case DoTick => TickSame(k);
    case ExitCritical => if k.lock <= 1 { ScheduleSame(k.(lock := 0)); }
    case DoWake(q) => FirstWaiter(k, q);
    case _ =>
  }

  /** No thread's timer fires twice, and those that fire are running. */
  ghost predicate Firable(k: K.State, fired: seq<nat>) {
    forall t :: t in k.threads ==> multiset(fired)[t] <= 1 && (t in fired ==> k.threads[t].armed)
  }

  ghost predicate TimedOut(a: K.Thread) { a.error == K.Timeout && a.stat in {K.Ready, K.Running} && !a.armed }

  /** The threads whose timers have fired are ready with a time-out, all others are as they were. */
  ghost predicate Expired(k: K.State, r: K.State, fired: seq<nat>) {
    && r.threads.Keys == k.threads.Keys
    && forall t :: t in k.threads ==> if t in fired then TimedOut(r.threads[t]) else Same(k.threads[t], r.threads[t])
  }

  lemma FireOne(k: K.State, x: nat)
    requires K.Inv(k) && x in k.threads && k.threads[x].armed
    ensures K.Enabled(k, K.TimerFires(x)) && K.Inv(K.Step(k, K.TimerFires(x)))
    ensures var r := K.Schedule(K.Step(k, K.TimerFires(x))); K.Inv(r) && Expired(k, r, [x])
  {
    hide K.Schedule, K.Placed;
    K.StepKeeps(k, K.TimerFires(x));
    var k1 := K.Step(k, K.TimerFires(x));
    K.ScheduleKeeps(k1);
    ScheduleSame(k1);
    forall t | t in k.threads && t != x ensures Same(k.threads[t], k1.threads[t]) { Untouched(k, K.TimerFires(x), t); }
  }

  /** `rt_thread_timeout` always finds its thread suspended, as it asserts. */
  lemma {:induction false} ExpiriesRun(k: K.State, fired: seq<nat>)
    requires K.Inv(k) && Firable(k, fired)
    ensures var acts := Expiries(k.threads.Keys, fired); K.CanRun(k, acts) && Expired(k, K.Exec(k, acts), fired)
    decreases |fired|
  {
    hide K.Inv, K.Step, K.Schedule, K.Enabled, Expired, Firable;
    if fired == [] {
      NoneExpired(k);
    } else {
      var x, rest := fired[0], fired[1..];
      assert fired == [x] + rest;
      if x in k.threads {
        FirstArmed(k, x, rest);
        FireOne(k, x);
        var k1 := K.Step(k, K.TimerFires(x));
        var k2 := K.Schedule(k1);
        FirableRest(k, k2, x, rest);
        ExpiriesRun(k2, rest);
        TwoActions(k, x, Expiries(k.threads.Keys, rest));
        ExpiredRest(k, k2, K.Exec(k2, Expiries(k.threads.Keys, rest)), x, rest);
      } else {
        OthersFire(k, x, rest);
        ExpiriesRun(k, rest);
        assert Expiries(k.threads.Keys, fired) == [] + Expiries(k.threads.Keys, rest) == Expiries(k.threads.Keys, rest);
        OthersExpire(k, K.Exec(k, Expiries(k.threads.Keys, rest)), x, rest);
      }
    }
  }

  lemma FirstArmed(k: K.State, x: nat, rest: seq<nat>)
    requires Firable(k, [x] + rest) && x in k.threads
    ensures k.threads[x].armed
  {
  }

  lemma NoneExpired(k: K.State)
    ensures Expired(k, k, [])
  {
  }

  lemma OthersFire(k: K.State, x: nat, rest: seq<nat>)
    requires Firable(k, [x] + rest) && x !in k.threads
    ensures Firable(k, rest)
  {
    assert multiset([x] + rest) == multiset{x} + multiset(rest);
  }

  lemma OthersExpire(k: K.State, r: K.State, x: nat, rest: seq<nat>)
    requires Expired(k, r, rest) && x !in k.threads
    ensures Expired(k, r, [x] + rest)
  {
  }

  lemma TwoActions(k: K.State, x: nat, rest: seq<K.Action>)
    requires K.Inv(k) && K.Enabled(k, K.TimerFires(x)) && K.Inv(K.Step(k, K.TimerFires(x)))
    requires var k2 := K.Schedule(K.Step(k, K.TimerFires(x))); K.Inv(k2) && K.CanRun(k2, rest)
    ensures var acts := [K.TimerFires(x), K.DoSchedule] + rest;
      K.CanRun(k, acts) && K.Exec(k, acts) == K.Exec(K.Schedule(K.Step(k, K.TimerFires(x))), rest)
  {
    hide K.Inv, K.Schedule;
    var acts := [K.TimerFires(x), K.DoSchedule] + rest;
    assert acts[1..] == [K.DoSchedule] + rest && acts[1..][1..] == rest;
    var k1 := K.Step(k, K.TimerFires(x));
    assert K.Enabled(k1, K.DoSchedule) && K.Step(k1, K.DoSchedule) == K.Schedule(k1);
    assert K.CanRun(k1, acts[1..]);
  }

  lemma FirableRest(k: K.State, k2: K.State, x: nat, rest: seq<nat>)
    requires Firable(k, [x] + rest) && Expired(k, k2, [x]) && x in k.threads
    ensures Firable(k2, rest) && x !in rest && k2.threads.Keys == k.threads.Keys
  {
    assert multiset([x] + rest) == multiset{x} + multiset(rest);
    assert multiset([x] + rest)[x] == 1 + multiset(rest)[x];
    forall t | t in k2.threads ensures multiset(rest)[t] <= 1 && (t in rest ==> k2.threads[t].armed) {
      assert t in rest ==> t in [x] + rest;
      if t == x { assert multiset(rest)[x] == 0; }
    }
  }

  lemma ExpiredRest(k: K.State, k2: K.State, r: K.State, x: nat, rest: seq<nat>)
    requires Expired(k, k2, [x]) && Expired(k2, r, rest) && x !in rest
    ensures Expired(k, r, [x] + rest)
  {
  }

  // ----- the timers' side -----

  ghost function PlanOf(clock: nat, s: T.Timers, t: nat): T.Plan
    requires t in s.table
  {
    if t in s.list then T.At(T.Due(clock, s.table[t].timeout)) else T.Never
  }

  lemma CoupledPlan(j: Joint, t: nat)
    requires Inv(j) && t in j.k.threads
    ensures t in j.timers.table && !j.timers.table[t].periodic
    ensures T.Inv(j.clock, j.timers)
    ensures T.Planned(j.clock, j.timers, t, j.timers.table[t], PlanOf(j.clock, j.timers, t))
    ensures j.k.threads[t].armed <==> PlanOf(j.clock, j.timers, t).At?
  {
    hide T.Inv, T.Due;
    T.RestKnown(j.clock, j.timers);
    assert Coupled(j, t);
  }

  /** The timers that fire in a tick are those that are due in it. */
  lemma TickFires(j: Joint, script: seq<seq<T.Op>>, t: nat)
    requires Inv(j) && Enabled(j, Clock(script)) && t in j.k.threads
    ensures var (r, fired) := T.TickOf(j.timers, script); var plan := PlanOf(j.clock, j.timers, t);
      && multiset(fired)[t] == (if plan.At? && plan.due <= j.clock + 1 then 1 else 0)
      && T.Planned(j.clock + 1, r, t, j.timers.table[t], if t in fired then T.Never else plan)
  {
    hide T.Inv, T.Due, T.TickOf, T.Planned, T.ScriptAlone;
    CoupledPlan(j, t);
    var next := T.TickAlone(j.clock, j.timers, script, t, j.timers.table[t], PlanOf(j.clock, j.timers, t));
    var fired: seq<nat> := T.TickOf(j.timers, script).1;
    assert t in fired <==> multiset(fired)[t] > 0;
  }

  lemma ClockFirable(j: Joint, script: seq<seq<T.Op>>)
    requires Inv(j) && Enabled(j, Clock(script))
    ensures Firable(j.k, T.TickOf(j.timers, script).1)
  {
    hide T.Inv, T.AtRest, T.Due, T.TickOf, T.Planned, T.ScriptAlone, Coupled;
    var fired: seq<nat> := T.TickOf(j.timers, script).1;
    forall t | t in j.k.threads ensures multiset(fired)[t] <= 1 && (t in fired ==> j.k.threads[t].armed) {
      TickFires(j, script, t);
      CoupledPlan(j, t);
      assert t in fired <==> multiset(fired)[t] > 0;
    }
  }

  /** What the timers bring about can always happen. */
  lemma ActionsRun(j: Joint, e: Event)
    requires Inv(j) && Enabled(j, e)
    ensures K.CanRun(j.k, Actions(j, e))
    ensures e.Clock? ==> Expired(j.k, K.Exec(j.k, Actions(j, e)), T.TickOf(j.timers, e.script).1)
    ensures e.Kernel? ==> K.Exec(j.k, Actions(j, e)) == K.Step(j.k, e.a)
    ensures e.User? ==> K.Exec(j.k, Actions(j, e)) == j.k
  {
    hide K.Inv, T.AtRest, T.TickOf, Coupled, K.Step, Expired, Firable;
    match e
    case Kernel(a, _) =>
      K.StepKeeps(j.k, a);
      assert [a][1..] == [];
    case User(_) =>
    case Clock(script) =>
      var fired: seq<nat> := T.TickOf(j.timers, script).1;
      ClockFirable(j, script);
      K.StepKeeps(j.k, K.DoTick);
      var k1 := K.Step(j.k, K.DoTick);
      TickFirst(j.k, fired);
      ExpiriesRun(k1, fired);
      var rest := Expiries(j.k.threads.Keys, fired);
      assert ([K.DoTick] + rest)[1..] == rest;
      ExpiredAfterTick(j.k, k1, K.Exec(k1, rest), fired);
  }

  lemma TickFirst(k: K.State, fired: seq<nat>)
    requires K.Inv(k) && Firable(k, fired)
    ensures K.Enabled(k, K.DoTick) && AllSame(k, K.Step(k, K.DoTick)) && Firable(K.Step(k, K.DoTick), fired)
    ensures K.Step(k, K.DoTick).threads.Keys == k.threads.Keys
  {
    hide K.Inv, K.Tick;
    TickSame(k);
  }

  lemma ExpiredAfterTick(k: K.State, k1: K.State, r: K.State, fired: seq<nat>)
    requires AllSame(k, k1) && Expired(k1, r, fired)
    ensures Expired(k, r, fired)
  {
  }

  // ----- what every event keeps -----

  lemma PlanCoupled(j: Joint, t: nat, entry: T.Timer, plan: T.Plan)
    requires t in j.k.threads && T.Planned(j.clock, j.timers, t, entry, plan) && !entry.periodic
    requires j.k.threads[t].armed <==> plan.At?
    ensures Coupled(j, t)
  {
  }

  lemma {:induction false} OpsRest(clock: nat, s: T.Timers, ops: seq<T.Op>)
    requires T.AtRest(clock, s) && T.Known(s.table, s.list)
    ensures T.AtRest(clock, T.DoAll(s, ops))
    decreases |ops|
  {
    hide T.AtRest, T.Do;
    if ops != [] {
      T.RestDo(clock, s, ops[0]);
      OpsRest(clock, T.Do(s, ops[0]), ops[1..]);
    }
  }

  lemma OneOp(s: T.Timers, op: T.Op)
    requires T.Known(s.table, s.list)
    ensures T.DoAll(s, [op]) == T.Do(s, op)
  {
    hide T.Do;
    assert [op][1..] == [];
  }

  lemma ThreeOps(s: T.Timers, a: T.Op, b: T.Op, c: T.Op)
    requires T.Known(s.table, s.list)
    ensures T.DoAll(s, [a, b, c]) == T.Do(T.Do(T.Do(s, a), b), c)
  {
    hide T.Do;
    assert [a, b, c][1..] == [b, c] && [b, c][1..] == [c] && [c][1..] == [];
    assert T.DoAll(T.Do(s, a), [b, c]) == T.DoAll(T.Do(T.Do(s, a), b), [c]);
  }

  /** A thread's timer that is stopped. */
  lemma StopTimer(clock: nat, s: T.Timers, t: nat)
    requires T.AtRest(clock, s) && T.Known(s.table, s.list) && t in s.table && (t in s.list ==> s.table[t].active)
    ensures var r := T.Do(s, T.DoStop(t)); t in r.table && t !in r.list && r.table[t].period == s.table[t].period
                                           && r.table[t].periodic == s.table[t].periodic
  {
  }

  /** A thread's timer that is set and started. */
  lemma WaitTimer(clock: nat, s: T.Timers, t: nat, n: nat)
    requires T.AtRest(clock, s) && T.Known(s.table, s.list) && t in s.table && !s.table[t].periodic && (t in s.list ==> s.table[t].active)
    requires n < T.HALF
    ensures var r := T.DoAll(s, WaitOps(t, n));
      T.Planned(clock, r, t, s.table[t].(period := n), T.At(clock + n))
  {
    hide T.AtRest, T.Inv, T.Due, T.Start;
    ThreeOps(s, T.DoStop(t), T.SetTime(t, n), T.DoStart(t));
    StopTimer(clock, s, t);
    T.RestDo(clock, s, T.DoStop(t));
    var s1 := T.Do(s, T.DoStop(t));
    T.RestDo(clock, s1, T.SetTime(t, n));
    var s2 := T.Do(s1, T.SetTime(t, n));
    assert s2.table[t].period == n && !s2.table[t].periodic;
    T.StartPlanned(clock, s2, t);
    assert T.Do(s2, T.DoStart(t)) == T.Start(s2, t);
  }

  /** Whether the operations of an action stop the thread's timer, set and start it, or do nothing. */
  lemma TouchedOps(k: K.State, a: K.Action, n: nat, t: nat)
    requires K.Inv(k) && K.Enabled(k, a) && Touches(k, a, t) && !a.TimerFires?
    ensures OpsOf(k, a, n) ==
      if a.DoCreate? || (t in k.threads && KeepsTimer(k, a, t)) then []
      else if a.DoSleep? || (a.DoBlock? && a.timed) then WaitOps(t, n)
      else [T.DoStop(t)]
    ensures !a.DoCreate? ==> t in k.threads
  {
    hide K.Placed;
    if a.DoWake? { FirstWaiter(k, a.q); }
  }

  /** The operations of an action concern the timer of the thread that it touches. */
  lemma OpsElsewhere(k: K.State, a: K.Action, n: nat, t: nat)
    requires K.Inv(k) && K.Enabled(k, a) && !Touches(k, a, t)
    ensures T.OpsAlone(OpsOf(k, a, n), t)
  {
    hide K.Placed;
  }

  lemma TouchedCoupled(j: Joint, a: K.Action, n: nat, t: nat)
    requires Inv(j) && Enabled(j, Kernel(a, n)) && Touches(j.k, a, t)
    ensures t in Step(j, Kernel(a, n)).k.threads && Coupled(Step(j, Kernel(a, n)), t)
  {
    hide K.Inv, K.Step, K.Enabled, T.AtRest, T.Do, OpsOf, Actions, T.Planned, T.Due;
    ActionsRun(j, Kernel(a, n));
    TouchedOps(j.k, a, n, t);
    Touched(j.k, a, t);
    if !a.DoCreate? {
      assert Coupled(j, t);
      if a.DoSleep? || (a.DoBlock? && a.timed) {
        WaitTimer(j.clock, j.timers, t, n);
        PlanCoupled(Step(j, Kernel(a, n)), t, j.timers.table[t].(period := n), T.At(j.clock + n));
      } else if !KeepsTimer(j.k, a, t) {
        StopTimer(j.clock, j.timers, t);
        OneOp(j.timers, T.DoStop(t));
      }
    }
  }

  lemma UntouchedCoupled(j: Joint, a: K.Action, n: nat, t: nat)
    requires Inv(j) && Enabled(j, Kernel(a, n)) && t in j.k.threads && !Touches(j.k, a, t)
    ensures var r := Step(j, Kernel(a, n)); t in r.k.threads && Coupled(r, t) && Same(j.k.threads[t], r.k.threads[t])
    ensures var r := Step(j, Kernel(a, n));
      T.Planned(j.clock, r.timers, t, j.timers.table[t], PlanOf(j.clock, j.timers, t))
  {
    hide K.Inv, K.Step, K.Enabled, T.AtRest, T.Inv, T.DoAll, Touches, OpsOf, Actions, Coupled, T.Planned, T.Due, T.OpsAlone;
    ActionsRun(j, Kernel(a, n));
    Untouched(j.k, a, t);
    CoupledPlan(j, t);
    OpsElsewhere(j.k, a, n, t);
    T.AllAlone(j.clock, j.timers, OpsOf(j.k, a, n), t, j.timers.table[t], PlanOf(j.clock, j.timers, t));
    PlanCoupled(Step(j, Kernel(a, n)), t, j.timers.table[t], PlanOf(j.clock, j.timers, t));
  }

  lemma UserCoupled(j: Joint, op: T.Op, t: nat)
    requires Inv(j) && Enabled(j, User(op)) && t in j.k.threads
    ensures var r := Step(j, User(op)); r.k == j.k && Coupled(r, t)
    ensures T.Planned(j.clock, Step(j, User(op)).timers, t, j.timers.table[t], PlanOf(j.clock, j.timers, t))
  {
    hide K.Inv, T.AtRest, T.Inv, T.Do, Coupled, T.Planned, T.Due;
    CoupledPlan(j, t);
    T.DoAlone(j.clock, j.timers, op, t, j.timers.table[t], PlanOf(j.clock, j.timers, t));
    PlanCoupled(Step(j, User(op)), t, j.timers.table[t], PlanOf(j.clock, j.timers, t));
  }

  lemma ClockCoupled(j: Joint, script: seq<seq<T.Op>>, t: nat)
    requires Inv(j) && Enabled(j, Clock(script)) && t in j.k.threads
    ensures var r := Step(j, Clock(script)); t in r.k.threads && Coupled(r, t)
    ensures var r := Step(j, Clock(script)); var plan := PlanOf(j.clock, j.timers, t);
      if plan.At? && plan.due <= j.clock + 1 then TimedOut(r.k.threads[t])
      else Same(j.k.threads[t], r.k.threads[t]) && T.Planned(j.clock + 1, r.timers, t, j.timers.table[t], plan)
  {
    hide K.Inv, K.Exec, T.AtRest, T.TickOf, T.ScriptAlone, Actions, Coupled, T.Planned, T.Due, PlanOf;
    var e, fired: seq<nat> := Clock(script), T.TickOf(j.timers, script).1;
    ActionsRun(j, e);
    TickFires(j, script, t);
    CoupledPlan(j, t);
    var plan := PlanOf(j.clock, j.timers, t);
    assert t in fired <==> multiset(fired)[t] > 0;
    PlanCoupled(Step(j, e), t, j.timers.table[t], if t in fired then T.Never else plan);
  }

  lemma TimersRest(j: Joint, e: Event)
    requires Inv(j) && Enabled(j, e)
    ensures var r := Step(j, e); T.AtRest(r.clock, r.timers) && T.Known(r.timers.table, r.timers.list)
  {
    hide K.Inv, K.Exec, T.AtRest, T.Do, T.TickOf, T.ScriptAlone, Coupled, OpsOf, Actions;
    match e
    case Kernel(a, n) => OpsRest(j.clock, j.timers, OpsOf(j.k, a, n));
    case User(op) => T.RestDo(j.clock, j.timers, op);
    case Clock(script) => T.TickRests(j.clock, j.timers, script);
  }

  /** Every event of the joint machine keeps threads and timers in step. */
  lemma StepKeeps(j: Joint, e: Event)
    requires Inv(j) && Enabled(j, e)
    ensures Inv(Step(j, e))
  {
    hide K.Inv, K.Step, K.Enabled, T.AtRest, Coupled, Actions, TimersAfter, Touches, T.Planned, PlanOf, Same, TimedOut;
    TimersRest(j, e);
    ActionsRun(j, e);
    var r := Step(j, e);
    forall t | t in r.k.threads ensures Coupled(r, t) {
      match e
      case Kernel(a, n) =>
        ThreadsAfter(j.k, a);
        if Touches(j.k, a, t) { TouchedCoupled(j, a, n, t); } else { NotCreated(j.k, a, t); UntouchedCoupled(j, a, n, t); }
      case User(op) => UserCoupled(j, op, t);
      case Clock(script) => ClockCoupled(j, script, t);
    }
  }

  lemma NotCreated(k: K.State, a: K.Action, t: nat)
    requires K.Inv(k) && K.Enabled(k, a) && !Touches(k, a, t) && t in K.Step(k, a).threads
    ensures t in k.threads
  {
    hide K.Placed, K.Step;
    ThreadsAfter(k, a);
  }

  // ----- whole runs -----

  ghost predicate CanRun(j: Joint, run: seq<Event>)
    requires Inv(j)
    decreases |run|
  {
    run == [] || (Enabled(j, run[0]) && (StepKeeps(j, run[0]); CanRun(Step(j, run[0]), run[1..])))
  }

  ghost function Exec(j: Joint, run: seq<Event>): (r: Joint)
    requires Inv(j) && CanRun(j, run)
    ensures Inv(r)
    decreases |run|
  {
    if run == [] then j else (StepKeeps(j, run[0]); Exec(Step(j, run[0]), run[1..]))
  }

  function Ticks(run: seq<Event>): nat {
    if run == [] then 0 else (if run[0].Clock? then 1 else 0) + Ticks(run[1..])
  }

  /** From boot on, in every run: a thread's timer is linked exactly while the thread waits on it. */
  lemma AlwaysCoupled(levels: nat, prio: nat, tick: nat, table: map<nat, T.Timer>, run: seq<Event>)
    requires prio < levels && T.TableOk(table) && 0 in table && !table[0].periodic
    ensures var j := Joint(0, K.Boot(levels, prio, tick), T.Timers(0, table, []));
      Inv(j) && (CanRun(j, run) ==> forall t :: t in Exec(j, run).k.threads ==> Coupled(Exec(j, run), t))
  {
    hide K.Boot, Coupled;
    K.AlwaysPlaced(levels, prio, tick, [], 0);
    BootCoupled(levels, prio, tick, table);
  }

  lemma BootCoupled(levels: nat, prio: nat, tick: nat, table: map<nat, T.Timer>)
    requires 0 in table && !table[0].periodic
    ensures var j := Joint(0, K.Boot(levels, prio, tick), T.Timers(0, table, [])); forall t :: t in j.k.threads ==> Coupled(j, t)
  {
  }

  /** Thread `x` sleeps until tick `due`. */
  ghost predicate Waits(j: Joint, x: nat, err: K.Err, due: int) {
    && x in j.k.threads && j.k.threads[x].stat == K.Suspended && j.k.threads[x].armed && j.k.threads[x].error == err
    && x in j.timers.table && x in j.timers.list && T.Due(j.clock, j.timers.table[x].timeout) == due
  }

  /** Nobody resumes, suspends or deletes the thread. */
  ghost predicate LeavesAlone(j: Joint, e: Event, x: nat)
    requires Inv(j) && Enabled(j, e)
  {
    e.Kernel? ==> !Touches(j.k, e.a, x)
  }

  ghost predicate Undisturbed(j: Joint, run: seq<Event>, x: nat)
    requires Inv(j) && CanRun(j, run)
    decreases |run|
  {
    run == [] || (LeavesAlone(j, run[0], x) && (StepKeeps(j, run[0]); Undisturbed(Step(j, run[0]), run[1..], x)))
  }

  /** One event of a wait that is left alone. */
  lemma StepWaits(j: Joint, e: Event, x: nat, err: K.Err, due: int)
    requires Inv(j) && Enabled(j, e) && LeavesAlone(j, e, x) && Waits(j, x, err, due)
    ensures var r := Step(j, e);
      if e.Clock? && due <= j.clock + 1 then x in r.k.threads && TimedOut(r.k.threads[x]) else Waits(r, x, err, due)
  {
    hide Inv, Coupled, Enabled, Touches, Actions, TimersAfter, T.Due, K.Step, K.Exec;
    match e
    case Kernel(a, n) => UntouchedCoupled(j, a, n, x);
    case User(op) => UserCoupled(j, op, x);
    case Clock(script) => ClockCoupled(j, script, x);
  }

  lemma {:induction false} WaitsOn(j: Joint, run: seq<Event>, x: nat, err: K.Err, due: int)
    requires Inv(j) && CanRun(j, run) && Undisturbed(j, run, x) && Waits(j, x, err, due)
    requires Ticks(run) == 0 || j.clock + Ticks(run) < due
    ensures Waits(Exec(j, run), x, err, due) && Exec(j, run).clock == j.clock + Ticks(run)
    decreases |run|
  {
    hide Inv, Enabled, Waits, LeavesAlone, Step;
    if run != [] {
      StepKeeps(j, run[0]);
      StepWaits(j, run[0], x, err, due);
      StepClock(j, run[0]);
      WaitsOn(Step(j, run[0]), run[1..], x, err, due);
    }
  }

  lemma StepClock(j: Joint, e: Event)
    requires Inv(j) && Enabled(j, e)
    ensures Step(j, e).clock == j.clock + if e.Clock? then 1 else 0
  {
  }

  /** The call begins to wait. */
  lemma BeginsToWait(j: Joint, a: K.Action, n: nat)
    requires Inv(j) && Enabled(j, Kernel(a, n)) && (a.DoSleep? || (a.DoBlock? && a.timed))
    ensures var x := j.k.current;
      Waits(Step(j, Kernel(a, n)), x, if a.DoBlock? then K.Ok else j.k.threads[x].error, j.clock + n)
  {
    hide Coupled, T.AtRest, T.Due, Actions, K.Placed, K.Position;
    var x := j.k.current;
    ActionsRun(j, Kernel(a, n));
    assert x in j.k.threads && Coupled(j, x);
    CoupledIs(j, x);
    WaitTimer(j.clock, j.timers, x, n);
  }

  lemma CoupledIs(j: Joint, t: nat)
    requires t in j.k.threads && Coupled(j, t)
    ensures t in j.timers.table && !j.timers.table[t].periodic && (t in j.timers.list ==> j.timers.table[t].active)
  {
  }

  /** The tick, from now on, in which a wait for `n` ticks ends. */
  function EndTick(n: nat): nat { if n == 0 then 1 else n }

  /** A thread that sleeps, or blocks with a waiting time of `n` ticks, and is not woken or deleted before,
      is suspended until the tick before the `n`-th, and in the `n`-th tick its timer makes it ready with
      a time-out; nothing ends the wait earlier or later, whatever other threads, other timers and the
      scheduler do, and across the wrap of the tick.  A sleep of 0 ticks ends in the next tick. */
  lemma TimesOutInItsTick(j: Joint, a: K.Action, n: nat, run: seq<Event>, script: seq<seq<T.Op>>)
    requires Inv(j) && Enabled(j, Kernel(a, n)) && (a.DoSleep? || (a.DoBlock? && a.timed))
    requires Inv(Step(j, Kernel(a, n))) && CanRun(Step(j, Kernel(a, n)), run)
    requires Undisturbed(Step(j, Kernel(a, n)), run, j.k.current) && Ticks(run) < EndTick(n)
    ensures var r, x := Exec(Step(j, Kernel(a, n)), run), j.k.current;
      && x in r.k.threads && r.k.threads[x].stat == K.Suspended && (a.DoBlock? ==> r.k.threads[x].error == K.Ok)
      && (Enabled(r, Clock(script)) && Ticks(run) + 1 == EndTick(n) ==>
           x in Step(r, Clock(script)).k.threads && TimedOut(Step(r, Clock(script)).k.threads[x]))
  {
    hide Inv, Enabled, Step, TimedOut, T.Due, K.Inv;
    var x, j1 := j.k.current, Step(j, Kernel(a, n));
    StepClock(j, Kernel(a, n));
    BeginsToWait(j, a, n);
    var err := if a.DoBlock? then K.Ok else CurrentError(j);
    WaitsOn(j1, run, x, err, j.clock + n);
    var r := Exec(j1, run);
    if Enabled(r, Clock(script)) && Ticks(run) + 1 == EndTick(n) { StepWaits(r, Clock(script), x, err, j.clock + n); }
  }

  ghost function CurrentError(j: Joint): K.Err
    requires Inv(j)
  {
    j.k.threads[j.k.current].error
  }
}
