/** The scheduler and the thread life cycle (`scheduler.c`, `thread.c`, `clock.c`) as a step
    machine on one processor.  A region between disabling and enabling interrupts is one
    step; a blocking call is split at `rt_schedule`. */
module KernelModel {
  import opened Rings
  import opened Words

  type Tid = nat

  datatype Stat = Init | Ready | Suspended | Running | Closed
  datatype Err = Ok | Timeout | Error
  datatype Flag = Fifo | Prio

  /** `armed`: the thread's own timer is in the timer list. */
  datatype Thread = Thread(stat: Stat, initPrio: nat, prio: nat, error: Err, initTick: nat, remaining: nat, armed: bool)

  /** The list heads a thread's `tlist` node can be linked to. */
  datatype Head = ReadyList(p: nat) | WaitList(q: nat) | Defunct

  type Lists = map<Head, seq<Tid>>

  datatype State = State(levels: nat, threads: map<Tid, Thread>, lists: Lists, current: Tid, lock: nat)

  // ----- list primitives -----

  /** `rt_list_remove(&t->tlist)`: whichever list `t` is in, it leaves it. */
  function Unlink(lists: Lists, t: Tid): Lists {
    map h | h in lists :: Without(lists[h], t)
  }

  function InsertAt(lists: Lists, h: Head, i: nat, t: Tid): Lists
    requires h in lists && i <= |lists[h]|
  {
    lists[h := lists[h][..i] + [t] + lists[h][i..]]
  }

  function SetThread(s: State, t: Tid, th: Thread): State {
    s.(threads := s.threads[t := th])
  }

  // ----- scheduler.c -----

  ghost predicate WellFormed(s: State) {
    && (forall p: nat :: ReadyList(p) in s.lists <==> p < s.levels)
    && Defunct in s.lists
    && s.current in s.threads
    && (forall t :: t in s.threads ==> s.threads[t].prio < s.levels && s.threads[t].initPrio < s.levels)
  }

  ghost function InsertThread(s: State, t: Tid): State
    requires WellFormed(s) && t in s.threads
  {
    var th := s.threads[t];
    if t == s.current then SetThread(s, t, th.(stat := Running))
    else
      var h := ReadyList(th.prio);
      SetThread(s, t, th.(stat := Ready)).(lists := InsertAt(s.lists, h, |s.lists[h]|, t))
  }

  ghost function RemoveThread(s: State, t: Tid): State {
    s.(lists := Unlink(s.lists, t))
  }

  /** The first level from `p` on whose ready list is not empty, or `levels`. */
  ghost function FirstLevel(s: State, p: nat): (r: nat)
    requires WellFormed(s) && p <= s.levels
    ensures p <= r <= s.levels
    ensures r < s.levels ==> s.lists[ReadyList(r)] != []
    ensures forall k: nat :: p <= k < r ==> s.lists[ReadyList(k)] == []
    decreases s.levels - p
  {
    if p == s.levels || s.lists[ReadyList(p)] != [] then p else FirstLevel(s, p + 1)
  }

  ghost function SwitchTo(s: State, to: Tid): State
    requires WellFormed(s) && to in s.threads
  {
    var from := s.current;
    var s1 := s.(current := to);
    var s2 := if s.threads[from].stat == Running then InsertThread(s1, from) else s1;
    var s3 := RemoveThread(s2, to);
    SetThread(s3, to, s3.threads[to].(stat := Running))
  }

  ghost function Schedule(s: State): State
    requires Inv(s)
  {
    var p := FirstLevel(s, 0);
    var me := s.threads[s.current];
    if s.lock != 0 || p == s.levels || (me.stat == Running && me.prio < p) then s
    else SwitchTo(s, s.lists[ReadyList(p)][0])
  }

  // ----- the placement invariant -----

  ghost predicate Fits(th: Thread, h: Head) {
    match h
    case ReadyList(p) => th.stat == Ready && th.prio == p
    case WaitList(_) => th.stat == Suspended
    case Defunct => th.stat == Closed
  }

  ghost predicate Placed(threads: map<Tid, Thread>, lists: Lists) {
    && (forall h :: h in lists ==> NoDup(lists[h]))
    && (forall h, t :: h in lists && t in lists[h] ==> t in threads && Fits(threads[t], h))
    && (forall h, k, t :: h in lists && k in lists && t in lists[h] && t in lists[k] ==> h == k)
    && (forall t :: t in threads && threads[t].stat == Ready ==>
         ReadyList(threads[t].prio) in lists && t in lists[ReadyList(threads[t].prio)])
  }

  ghost predicate Core(s: State) {
    && WellFormed(s)
    && Placed(s.threads, s.lists)
    && (forall t :: t in s.threads && s.threads[t].stat == Running ==> t == s.current)
    && (forall t :: t in s.threads && s.threads[t].armed ==> s.threads[t].stat == Suspended)
  }

  ghost predicate Inv(s: State) {
    Core(s) && s.threads[s.current].stat in {Running, Suspended, Closed}
  }

  /** Every thread is in exactly one place, and its `stat` says which. */
  lemma OnePlace(s: State, t: Tid)
    requires Inv(s) && t in s.threads
    ensures match s.threads[t].stat
      case Running => t == s.current && forall h :: h in s.lists ==> t !in s.lists[h]
      case Ready => forall h :: h in s.lists && t in s.lists[h] <==> h == ReadyList(s.threads[t].prio)
      case Suspended => (forall h :: h in s.lists && t in s.lists[h] ==> h.WaitList?)
                        && (forall h, k :: h in s.lists && k in s.lists && t in s.lists[h] && t in s.lists[k] ==> h == k)
      case Closed => forall h :: h in s.lists && t in s.lists[h] ==> h == Defunct
      case Init => forall h :: h in s.lists ==> t !in s.lists[h]
  {
  }

  /** A thread taken out of its list, given a new record, and put nowhere. */
  lemma UnplaceKeeps(threads: map<Tid, Thread>, lists: Lists, t: Tid, th: Thread)
    requires Placed(threads, lists) && t in threads && th.stat != Ready
    ensures Placed(threads[t := th], Unlink(lists, t))
  {
    forall h | h in lists ensures NoDup(Without(lists[h], t)) { WithoutKeepsNoDup(lists[h], t); }
  }

  /** A thread in no list, put into list `h` at any position with a record that fits it. */
  lemma PlaceKeeps(threads: map<Tid, Thread>, lists: Lists, t: Tid, th: Thread, h: Head, i: nat)
    requires Placed(threads, lists) && t in threads && forall k :: k in lists ==> t !in lists[k]
    requires h in lists && i <= |lists[h]| && Fits(th, h)
    ensures Placed(threads[t := th], InsertAt(lists, h, i, t))
  {
    var l := lists[h][..i] + [t] + lists[h][i..];
    assert forall x :: x in l <==> x == t || x in lists[h];
    assert NoDup(l);
  }

  // ----- thread.c -----

  /** `rt_thread_suspend`: refused unless the thread is ready or running. */
  ghost function Suspend(s: State, t: Tid): State
    requires t in s.threads
  {
    var th := s.threads[t];
    if th.stat !in {Ready, Running} then s
    else SetThread(RemoveThread(s, t), t, th.(stat := Suspended, armed := false))
  }

  /** `rt_thread_resume`: refused unless the thread is suspended. */
  ghost function Resume(s: State, t: Tid): State
    requires WellFormed(s) && t in s.threads
  {
    var th := s.threads[t];
    if th.stat != Suspended then s
    else InsertThread(SetThread(RemoveThread(s, t), t, th.(armed := false)), t)
  }

  /** `rt_thread_timeout`, the callback of a thread timer, up to its call of the scheduler. */
  ghost function Expire(s: State, t: Tid): State
    requires WellFormed(s) && t in s.threads
  {
    InsertThread(SetThread(RemoveThread(s, t), t, s.threads[t].(error := Timeout, armed := false)), t)
  }

  ghost function Create(s: State, t: Tid, prio: nat, tick: nat): State {
    SetThread(s, t, Thread(Init, prio, prio, Ok, tick, tick, false))
  }

  ghost function Startup(s: State, t: Tid): State
    requires WellFormed(s) && t in s.threads
  {
    var th := s.threads[t];
    Resume(SetThread(s, t, th.(prio := th.initPrio, stat := Suspended)), t)
  }

  /** `rt_thread_control` with `RT_THREAD_CTRL_CHANGE_PRIORITY`: a ready thread changes lists. */
  ghost function ChangePriority(s: State, t: Tid, p: nat): State
    requires WellFormed(s) && t in s.threads && p < s.levels
  {
    var th := s.threads[t];
    if th.stat == Ready
    then InsertThread(SetThread(RemoveThread(s, t), t, th.(prio := p)), t)
    else SetThread(s, t, th.(prio := p))
  }

  /** `rt_thread_exit` and `rt_thread_delete`: a started thread leaves its list, its timer is
      detached, and it goes to the front of the defunct list unless it is a static object
      without a cleanup function. */
  ghost function Close(s: State, t: Tid, defunct: bool): State
    requires Defunct in s.lists && t in s.threads
  {
    var th := s.threads[t];
    var s1 := if th.stat != Init then RemoveThread(s, t) else s;
    var s2 := SetThread(s1, t, th.(stat := Closed, armed := false));
    if defunct then s2.(lists := InsertAt(s2.lists, Defunct, 0, t)) else s2
  }

  // ----- ipc.c: the wait lists -----

  /** Where `rt_ipc_list_suspend` puts a thread of priority `p`: FIFO at the end, PRIO before
      the first thread with a greater priority number. */
  ghost function Position(s: State, l: seq<Tid>, p: nat, flag: Flag): (i: nat)
    requires forall t :: t in l ==> t in s.threads
    ensures i <= |l|
    ensures flag == Prio ==> (forall k :: 0 <= k < i ==> s.threads[l[k]].prio <= p)
                             && (i < |l| ==> p < s.threads[l[i]].prio)
    ensures flag == Fifo ==> i == |l|
  {
    if flag == Fifo then |l|
    else if l == [] || p < s.threads[l[0]].prio then 0
    else 1 + Position(s, l[1..], p, flag)
  }

  /** `rt_ipc_list_suspend` on the running thread, its error cleared and its timer started when
      the waiting time is positive. */
  ghost function Block(s: State, q: nat, flag: Flag, timed: bool): State
    requires Inv(s) && WaitList(q) in s.lists
  {
    var t := s.current;
    var th := s.threads[t];
    var s1 := SetThread(RemoveThread(s, t), t, th.(stat := Suspended, error := Ok, armed := timed));
    var i := Position(s, s.lists[WaitList(q)], th.prio, flag);
    if i <= |s1.lists[WaitList(q)]| then s1.(lists := InsertAt(s1.lists, WaitList(q), i, t)) else s1
  }

  /** `rt_ipc_list_resume`: the first waiter. */
  ghost function Wake(s: State, q: nat): State
    requires Inv(s) && WaitList(q) in s.lists && s.lists[WaitList(q)] != []
  {
    Resume(s, s.lists[WaitList(q)][0])
  }

  // ----- clock.c -----

  /** The time-slice half of `rt_tick_increase`; the slice counter is an unsigned word. */
  ghost function Tick(s: State): State
    requires Inv(s)
  {
    var me := s.threads[s.current];
    var left := if me.remaining == 0 then WORD - 1 else me.remaining - 1;
    if left > 0 then SetThread(s, s.current, me.(remaining := left))
    else Schedule(SetThread(s, s.current, me.(remaining := me.initTick)))
  }

  // ----- every step -----

  datatype Action =
    | DoSchedule
    | DoTick
    | TimerFires(t: Tid)
    | DoCreate(t: Tid, p: nat, tick: nat)
    | DoStartup(t: Tid)
    | DoSuspend(t: Tid)
    | DoResume(t: Tid)
    | DoSleep
    | DoChangePriority(t: Tid, p: nat)
    | DoBlock(q: nat, flag: Flag, timed: bool)
    | DoWake(q: nat)
    | DoClose(t: Tid, defunct: bool)
    | SetError(e: Err)
    | NewQueue(q: nat)
    | EnterCritical
    | ExitCritical

  /** What the code demands of its callers.  A thread timer fires only while it is linked; a
      call that blocks is made by a running thread. */
  ghost predicate Enabled(s: State, a: Action)
    requires Inv(s)
  {
    match a
    case DoSchedule => true
    case DoTick => true
    case TimerFires(t) => t in s.threads && s.threads[t].armed
    case DoCreate(t, p, _) => t !in s.threads && p < s.levels
    case DoStartup(t) => t in s.threads && s.threads[t].stat == Init
    case DoSuspend(t) => t in s.threads
    case DoResume(t) => t in s.threads
    case DoSleep => s.threads[s.current].stat == Running
    case DoChangePriority(t, p) => t in s.threads && p < s.levels
    case DoBlock(q, _, _) => s.threads[s.current].stat == Running && WaitList(q) in s.lists
    case DoWake(q) => WaitList(q) in s.lists && s.lists[WaitList(q)] != []
    case DoClose(t, _) => t in s.threads
    case SetError(_) => true
    case NewQueue(q) => WaitList(q) !in s.lists
    case EnterCritical => true
    case ExitCritical => true
  }

  ghost function Step(s: State, a: Action): State
    requires Inv(s) && Enabled(s, a)
  {
    match a
    case DoSchedule => Schedule(s)
    case DoTick => Tick(s)
    case TimerFires(t) => Expire(s, t)
    case DoCreate(t, p, tick) => Create(s, t, p, tick)
    case DoStartup(t) => Startup(s, t)
    case DoSuspend(t) => Suspend(s, t)
    case DoResume(t) => Resume(s, t)
    case DoSleep =>
      var s1 := Suspend(s, s.current);
      SetThread(s1, s.current, s1.threads[s.current].(armed := true))
    case DoChangePriority(t, p) => ChangePriority(s, t, p)
    case DoBlock(q, flag, timed) => Block(s, q, flag, timed)
    case DoWake(q) => Wake(s, q)
    case DoClose(t, defunct) => Close(s, t, defunct)
    case SetError(e) => SetThread(s, s.current, s.threads[s.current].(error := e))
    case NewQueue(q) => s.(lists := s.lists[WaitList(q) := []])
    case EnterCritical => s.(lock := s.lock + 1)
    case ExitCritical =>
      if s.lock <= 1 then Schedule(s.(lock := 0)) else s.(lock := s.lock - 1)
  }

  // ----- what every step keeps -----

  lemma Overwrite(m: map<Tid, Thread>, t: Tid, a: Thread, b: Thread)
    ensures m[t := a][t := b] == m[t := b]
  {
  }

  lemma PutBackKeeps(s: State, to: Tid)
    requires Inv(s) && s.threads[s.current].stat == Running && to in s.threads && to != s.current
    ensures Core(InsertThread(s.(current := to), s.current))
    ensures InsertThread(s.(current := to), s.current).threads[s.current].stat == Ready
  {
    var th := s.threads[s.current].(stat := Ready);
    var h := ReadyList(th.prio);
    PlaceKeeps(s.threads, s.lists, s.current, th, h, |s.lists[h]|);
  }

  lemma TakeUpKeeps(s: State)
    requires Core(s) && forall t :: t in s.threads ==> s.threads[t].stat != Running
    requires s.threads[s.current].stat == Ready
    ensures Inv(SetThread(RemoveThread(s, s.current), s.current, s.threads[s.current].(stat := Running)))
  {
    UnplaceKeeps(s.threads, s.lists, s.current, s.threads[s.current].(stat := Running));
  }

  lemma SwitchKeeps(s: State, to: Tid)
    requires Inv(s) && to in s.threads && s.threads[to].stat == Ready
    ensures Inv(SwitchTo(s, to))
  {
    var s1 := s.(current := to);
    if s.threads[s.current].stat == Running {
      PutBackKeeps(s, to);
      TakeUpKeeps(InsertThread(s1, s.current));
    } else {
      TakeUpKeeps(s1);
    }
  }

  lemma ScheduleKeeps(s: State)
    requires Inv(s)
    ensures Inv(Schedule(s))
  {
    var p := FirstLevel(s, 0);
    if p < s.levels {
      var to := s.lists[ReadyList(p)][0];
      assert to in s.lists[ReadyList(p)];
      SwitchKeeps(s, to);
    }
  }

  /** Suspending a thread, in the form all callers use it. */
  lemma SuspendKeeps(s: State, t: Tid, th: Thread)
    requires Inv(s) && t in s.threads
    requires th.stat == Suspended && th.prio < s.levels && th.initPrio < s.levels
    ensures Inv(SetThread(RemoveThread(s, t), t, th))
    ensures forall h :: h in s.lists ==> t !in Unlink(s.lists, t)[h]
  {
    UnplaceKeeps(s.threads, s.lists, t, th);
  }

  /** A suspended thread in no list is made runnable. */
  lemma InsertKeeps(s: State, t: Tid)
    requires Inv(s) && t in s.threads && s.threads[t].stat == Suspended && !s.threads[t].armed
    requires forall h :: h in s.lists ==> t !in s.lists[h]
    ensures Inv(InsertThread(s, t))
  {
    if t != s.current {
      var th := s.threads[t].(stat := Ready);
      var h := ReadyList(th.prio);
      PlaceKeeps(s.threads, s.lists, t, th, h, |s.lists[h]|);
    }
  }

  lemma ResumeKeeps(s: State, t: Tid)
    requires Inv(s) && t in s.threads
    ensures Inv(Resume(s, t))
    ensures s.threads[t].stat == Suspended ==> Inv(Expire(s, t))
  {
    var th := s.threads[t];
    if th.stat == Suspended {
      SuspendKeeps(s, t, th.(armed := false));
      InsertKeeps(SetThread(RemoveThread(s, t), t, th.(armed := false)), t);
      SuspendKeeps(s, t, th.(error := Timeout, armed := false));
      InsertKeeps(SetThread(RemoveThread(s, t), t, th.(error := Timeout, armed := false)), t);
    }
  }

  lemma RequeueKeeps(s: State, t: Tid, p: nat)
    requires Inv(s) && t in s.threads && p < s.levels && s.threads[t].stat == Ready
    ensures Inv(ChangePriority(s, t, p))
  {
    var th := s.threads[t].(prio := p, stat := Suspended);
    SuspendKeeps(s, t, th);
    var s1 := SetThread(RemoveThread(s, t), t, th);
    InsertKeeps(s1, t);
    Overwrite(s.threads, t, th, th.(stat := Ready));
    Overwrite(s.threads, t, s.threads[t].(prio := p), th.(stat := Ready));
  }

  lemma ChangePriorityKeeps(s: State, t: Tid, p: nat)
    requires Inv(s) && t in s.threads && p < s.levels
    ensures Inv(ChangePriority(s, t, p))
  {
    if s.threads[t].stat == Ready { RequeueKeeps(s, t, p); }
  }

  /** A record may change freely in its error, its slice counters and its base priority. */
  lemma RecordKeeps(s: State, t: Tid, th: Thread)
    requires Inv(s) && t in s.threads && th.initPrio < s.levels
    requires var o := s.threads[t]; th.stat == o.stat && th.prio == o.prio && th.armed == o.armed
    ensures Inv(SetThread(s, t, th))
  {
  }

  lemma RunningUnlisted(s: State)
    requires Inv(s) && s.threads[s.current].stat == Running
    ensures Unlink(s.lists, s.current) == s.lists && forall h :: h in s.lists ==> s.current !in s.lists[h]
    ensures forall h, t :: h in s.lists && t in s.lists[h] ==> t in s.threads
  {
  }

  lemma BlockKeeps(s: State, q: nat, flag: Flag, timed: bool)
    requires Inv(s) && Enabled(s, DoBlock(q, flag, timed))
    ensures Inv(Block(s, q, flag, timed))
    ensures Unlink(s.lists, s.current) == s.lists
  {
    hide Position, Placed, Unlink, NoDup;
    var t := s.current;
    RunningUnlisted(s);
    var th := s.threads[t].(stat := Suspended, error := Ok, armed := timed);
    SuspendKeeps(s, t, th);
    PlaceKeeps(s.threads[t := th], s.lists, t, th, WaitList(q), Position(s, s.lists[WaitList(q)], th.prio, flag));
    Overwrite(s.threads, t, th, th);
  }

  /** A thread that is taken out of its list is in none; one that has not been started was in none. */
  lemma UnlinkLoose(s: State, t: Tid)
    requires Inv(s) && t in s.threads
    ensures Unlink(s.lists, t).Keys == s.lists.Keys && forall h :: h in s.lists ==> t !in Unlink(s.lists, t)[h]
    ensures s.threads[t].stat == Init ==> Unlink(s.lists, t) == s.lists
  {
  }

  lemma CloseKeeps(s: State, t: Tid, defunct: bool)
    requires Inv(s) && t in s.threads
    ensures Inv(Close(s, t, defunct))
  {
    hide Placed, Unlink;
    var th := s.threads[t].(stat := Closed, armed := false);
    UnplaceKeeps(s.threads, s.lists, t, th);
    UnlinkLoose(s, t);
    var s2 := SetThread(RemoveThread(s, t), t, th);
    if defunct {
      PlaceKeeps(s2.threads, s2.lists, t, th, Defunct, 0);
      Overwrite(s.threads, t, th, th);
    }
  }

  lemma TickKeeps(s: State)
    requires Inv(s)
    ensures Inv(Tick(s))
  {
    var me := s.threads[s.current];
    var left := if me.remaining == 0 then WORD - 1 else me.remaining - 1;
    RecordKeeps(s, s.current, me.(remaining := left));
    RecordKeeps(s, s.current, me.(remaining := me.initTick));
    ScheduleKeeps(SetThread(s, s.current, me.(remaining := me.initTick)));
  }

  lemma StartupKeeps(s: State, t: Tid)
    requires Inv(s) && Enabled(s, DoStartup(t))
    ensures Inv(Startup(s, t))
  {
    var th := s.threads[t];
    ResumeKeeps(SetThread(s, t, th.(prio := th.initPrio, stat := Suspended)), t);
  }

  lemma WakeKeeps(s: State, q: nat)
    requires Inv(s) && Enabled(s, DoWake(q))
    ensures Inv(Wake(s, q))
  {
    var t := s.lists[WaitList(q)][0];
    assert t in s.lists[WaitList(q)];
    ResumeKeeps(s, t);
  }

  lemma SleepKeeps(s: State)
    requires Inv(s) && Enabled(s, DoSleep)
    ensures Inv(Step(s, DoSleep))
  {
    var th := s.threads[s.current].(stat := Suspended, armed := true);
    SuspendKeeps(s, s.current, th);
    Overwrite(s.threads, s.current, th.(armed := false), th);
  }

  lemma LockKeeps(s: State, lock: nat)
    requires Inv(s)
    ensures Inv(s.(lock := lock))
  {
  }

  /** Every step of the scheduler, the thread calls, the wait lists and the clock keeps every
      thread in the one place its `stat` names. */
  lemma StepKeeps(s: State, a: Action)
    requires Inv(s) && Enabled(s, a)
    ensures Inv(Step(s, a))
  {
    match a
    case DoSchedule => ScheduleKeeps(s);
    case DoTick => TickKeeps(s);
    case TimerFires(t) => ResumeKeeps(s, t);
    case DoStartup(t) => StartupKeeps(s, t);
    case DoSuspend(t) =>
      if s.threads[t].stat in {Ready, Running} { SuspendKeeps(s, t, s.threads[t].(stat := Suspended, armed := false)); }
    case DoResume(t) => ResumeKeeps(s, t);
    case DoSleep => SleepKeeps(s);
    case DoChangePriority(t, p) => ChangePriorityKeeps(s, t, p);
    case DoBlock(q, flag, timed) => BlockKeeps(s, q, flag, timed);
    case DoWake(q) => WakeKeeps(s, q);
    case DoClose(t, defunct) => CloseKeeps(s, t, defunct);
    case SetError(e) => RecordKeeps(s, s.current, s.threads[s.current].(error := e));
    case ExitCritical => if s.lock <= 1 { ScheduleKeeps(s.(lock := 0)); }
    case _ =>
  }

  // ----- whole runs -----

  ghost predicate CanRun(s: State, run: seq<Action>)
    requires Inv(s)
    decreases |run|
  {
    run == [] || (Enabled(s, run[0]) && (StepKeeps(s, run[0]); CanRun(Step(s, run[0]), run[1..])))
  }

  ghost function Exec(s: State, run: seq<Action>): (r: State)
    requires Inv(s) && CanRun(s, run)
    ensures Inv(r)
    decreases |run|
  {
    if run == [] then s else (StepKeeps(s, run[0]); Exec(Step(s, run[0]), run[1..]))
  }

  ghost function ReadyLists(levels: nat): Lists { map p: nat | p < levels :: ReadyList(p) := [] }

  /** The state `rt_system_scheduler_start` leaves: one running thread, all lists empty. */
  ghost function Boot(levels: nat, prio: nat, tick: nat): State {
    State(levels,
          map[0 := Thread(Running, prio, prio, Ok, tick, tick, false)],
          ReadyLists(levels)[Defunct := []],
          0, 0)
  }

  /** From boot on, whatever the interleaving of the steps: every thread is in one place, and a
      thread timer that fires finds its thread suspended, as `rt_thread_timeout` asserts. */
  lemma AlwaysPlaced(levels: nat, prio: nat, tick: nat, run: seq<Action>, t: Tid)
    requires prio < levels
    ensures Inv(Boot(levels, prio, tick))
    ensures CanRun(Boot(levels, prio, tick), run) ==>
      var s := Exec(Boot(levels, prio, tick), run);
      Inv(s) && (Enabled(s, TimerFires(t)) ==> s.threads[t].stat == Suspended)
  {
  }

  /** After a scheduling decision with the scheduler unlocked, if anything can run, the current
      thread runs and no ready thread has a smaller priority number; and a running thread gives
      way to a ready thread of its own level. */
  lemma ScheduleIsBest(s: State, t: Tid)
    requires Inv(s) && s.lock == 0
    requires s.threads[s.current].stat == Running || exists x :: x in s.threads && s.threads[x].stat == Ready
    requires t in s.threads
    ensures var r := Schedule(s);
      && r.current in r.threads && r.threads[r.current].stat == Running
      && (t in r.threads && r.threads[t].stat == Ready ==> r.threads[r.current].prio <= r.threads[t].prio)
      && (t != s.current && s.threads[t].stat == Ready && s.threads[t].prio <= s.threads[s.current].prio ==> r.current != s.current)
  {
    var p := FirstLevel(s, 0);
    var me := s.threads[s.current];
    forall x | x in s.threads && s.threads[x].stat == Ready
      ensures p < s.levels && p <= s.threads[x].prio
    {
      assert x in s.lists[ReadyList(s.threads[x].prio)];
    }
    if p < s.levels {
      var to := s.lists[ReadyList(p)][0];
      assert to in s.lists[ReadyList(p)];
    }
  }

  // ----- the life cycle -----

  /** Nothing but thread `t` changes or moves; its record becomes `th`. */
  ghost predicate Becomes(s: State, r: State, t: Tid, th: Thread) {
    && r.levels == s.levels && r.current == s.current && r.lock == s.lock && r.lists.Keys == s.lists.Keys
    && r.threads == s.threads[t := th] && forall h :: h in s.lists ==> Without(r.lists[h], t) == Without(s.lists[h], t)
  }

  ghost predicate Nowhere(r: State, t: Tid) { forall h :: h in r.lists ==> t !in r.lists[h] }

  /** `t` is the last of list `h`, behind all that were there. */
  ghost predicate LastIn(s: State, r: State, t: Tid, h: Head) {
    h in s.lists && h in r.lists && r.lists[h] == Without(s.lists[h], t) + [t]
  }

  /** A thread that is made runnable: the current one runs on, another waits its turn at its priority. */
  ghost predicate Runnable(s: State, r: State, t: Tid, th: Thread) {
    if t == s.current then Becomes(s, r, t, th.(stat := Running)) && Nowhere(r, t)
    else Becomes(s, r, t, th.(stat := Ready)) && LastIn(s, r, t, ReadyList(th.prio))
  }

  lemma UnlinkMoves(s: State, t: Tid, th: Thread)
    ensures Becomes(s, SetThread(RemoveThread(s, t), t, th), t, th) && Nowhere(SetThread(RemoveThread(s, t), t, th), t)
  {
  }

  lemma InsertMoves(s: State, t: Tid, th: Thread)
    requires WellFormed(s) && t in s.threads && th.prio < s.levels && th.initPrio < s.levels
    ensures Runnable(s, InsertThread(SetThread(RemoveThread(s, t), t, th), t), t, th)
  {
    var u := SetThread(RemoveThread(s, t), t, th);
    UnlinkMoves(s, t, th);
    if t != s.current {
      var h := ReadyList(th.prio);
      var l := u.lists[h];
      assert l[..|l|] == l && l[|l|..] == [] && l + [t] + [] == l + [t];
      LastGone(l, t);
    }
  }

  lemma {:induction false} LastGone(l: seq<Tid>, t: Tid)
    requires t !in l
    ensures Without(l + [t], t) == l
  {
    if l == [] {
      assert l + [t] == [t] && [t][1..] == [];
    } else {
      assert (l + [t])[1..] == l[1..] + [t];
      LastGone(l[1..], t);
    }
  }

  /** `rt_thread_startup`: the thread gets the priority it was created with and waits its turn there. */
  lemma StartupMoves(s: State, t: Tid)
    requires Inv(s) && Enabled(s, DoStartup(t))
    ensures var th := s.threads[t];
      t != s.current && Runnable(s, Startup(s, t), t, th.(prio := th.initPrio, armed := false))
  {
    hide Placed, Unlink, Runnable;
    var th := s.threads[t];
    var up := th.(prio := th.initPrio, stat := Suspended, armed := false);
    Overwrite(s.threads, t, th.(prio := th.initPrio, stat := Suspended), up);
    InsertMoves(s, t, up);
    RunnableStat(s, Startup(s, t), t, up, th.(prio := th.initPrio, armed := false));
  }

  /** A thread that is created and then started waits its turn at the priority it was created with, with a
      full slice. */
  lemma CreatedStarts(s: State, t: Tid, p: nat, tick: nat)
    requires Inv(s) && Enabled(s, DoCreate(t, p, tick))
    ensures var c := Create(s, t, p, tick);
      && c.lists == s.lists && Nowhere(c, t) && Inv(c) && Enabled(c, DoStartup(t))
      && var r := Startup(c, t);
      && t in r.threads && r.threads[t] == Thread(Ready, p, p, Ok, tick, tick, false) && LastIn(s, r, t, ReadyList(p))
      && forall x :: x in s.threads ==> x in r.threads && r.threads[x] == s.threads[x]
  {
    hide Placed, Startup, Unlink;
    NewNowhere(s, t);
    StepKeeps(s, DoCreate(t, p, tick));
    StartupMoves(Create(s, t, p, tick), t);
  }

  lemma NewNowhere(s: State, t: Tid)
    requires Inv(s) && t !in s.threads
    ensures Nowhere(s, t) && t != s.current
  {
  }

  lemma RunnableStat(s: State, r: State, t: Tid, a: Thread, b: Thread)
    requires Runnable(s, r, t, a) && a.(stat := b.stat) == b
    ensures Runnable(s, r, t, b)
  {
  }

  /** `rt_thread_resume` and `rt_thread_timeout` make a suspended thread runnable and stop its timer; a
      thread in another state is not resumed. */
  lemma ResumeMoves(s: State, t: Tid)
    requires Inv(s) && t in s.threads
    ensures var th := s.threads[t];
      && (if th.stat == Suspended then Runnable(s, Resume(s, t), t, th.(armed := false)) else Resume(s, t) == s)
      && (th.stat == Suspended ==> Runnable(s, Expire(s, t), t, th.(error := Timeout, armed := false)))
  {
    hide Placed, Unlink, Runnable;
    var th := s.threads[t];
    if th.stat == Suspended {
      InsertMoves(s, t, th.(armed := false));
      InsertMoves(s, t, th.(error := Timeout, armed := false));
    }
  }

  /** The first waiter is the one that is woken. */
  lemma WakeMoves(s: State, q: nat)
    requires Inv(s) && Enabled(s, DoWake(q))
    ensures var t := s.lists[WaitList(q)][0];
      t in s.threads && Runnable(s, Wake(s, q), t, s.threads[t].(armed := false)) && Wake(s, q).lists[WaitList(q)] == s.lists[WaitList(q)][1..]
  {
    hide Placed, Runnable;
    WaiterSuspended(s, q);
    var l := s.lists[WaitList(q)];
    ResumeMoves(s, l[0]);
    WaitListDistinct(s, q);
    WithoutAt(l, 0);
    assert l[..0] + l[1..] == l[1..];
  }

  lemma WaitListDistinct(s: State, q: nat)
    requires Inv(s) && WaitList(q) in s.lists
    ensures NoDup(s.lists[WaitList(q)])
  {
  }

  /** `rt_thread_suspend` takes a ready or running thread out of its list; `rt_thread_sleep` the current
      one, and starts its timer. */
  lemma SuspendMoves(s: State, t: Tid)
    requires Inv(s) && t in s.threads
    ensures var th := s.threads[t];
      if th.stat in {Ready, Running} then Becomes(s, Suspend(s, t), t, th.(stat := Suspended, armed := false)) && Nowhere(Suspend(s, t), t)
      else Suspend(s, t) == s
    ensures Enabled(s, DoSleep) && t == s.current ==>
      Becomes(s, Step(s, DoSleep), t, s.threads[t].(stat := Suspended, armed := true)) && Nowhere(Step(s, DoSleep), t)
  {
    hide Placed, Unlink, Becomes, Nowhere;
    var th := s.threads[t];
    UnlinkMoves(s, t, th.(stat := Suspended, armed := false));
    UnlinkMoves(s, t, th.(stat := Suspended, armed := true));
    Overwrite(s.threads, t, th.(stat := Suspended, armed := false), th.(stat := Suspended, armed := true));
  }

  /** A call that blocks puts the caller into the wait list: at the end, or with waiting by priority behind
      all that are as urgent and before the first that is less. */
  lemma BlockMoves(s: State, q: nat, flag: Flag, timed: bool)
    requires Inv(s) && Enabled(s, DoBlock(q, flag, timed))
    ensures var r, t, l := Block(s, q, flag, timed), s.current, s.lists[WaitList(q)]; var th := s.threads[t];
      && r.threads == s.threads[t := th.(stat := Suspended, error := Ok, armed := timed)]
      && r.levels == s.levels && r.current == s.current && r.lock == s.lock && r.lists.Keys == s.lists.Keys
      && (forall h :: h in s.lists && h != WaitList(q) ==> r.lists[h] == s.lists[h])
      && (forall x :: x in l ==> x in s.threads)
      && exists i :: 0 <= i <= |l| && r.lists[WaitList(q)] == l[..i] + [t] + l[i..]
                     && (if flag == Fifo then i == |l|
                         else (forall k :: 0 <= k < i ==> s.threads[l[k]].prio <= th.prio) && (i < |l| ==> th.prio < s.threads[l[i]].prio))
  {
    hide Placed, Unlink, NoDup;
    RunningUnlisted(s);
    var l := s.lists[WaitList(q)];
    var i := Position(s, l, s.threads[s.current].prio, flag);
    assert Block(s, q, flag, timed).lists[WaitList(q)] == l[..i] + [s.current] + l[i..];
  }

  lemma FrontMoves(s: State, u: State, t: Tid, th: Thread, h: Head)
    requires Becomes(s, u, t, th) && Nowhere(u, t) && h in s.lists
    ensures var r := u.(lists := InsertAt(u.lists, h, 0, t)); Becomes(s, r, t, th) && r.lists[h] == [t] + Without(s.lists[h], t)
  {
    var l := u.lists[h];
    assert l[..0] + [t] + l[0..] == [t] + l;
    assert ([t] + l)[1..] == l && Without(l, t) == l;
  }

  /** `rt_thread_exit`, `rt_thread_delete` and `rt_thread_detach`: closed for good, and where the idle thread
      will find it if there is something to clean up. */
  lemma CloseMoves(s: State, t: Tid, defunct: bool)
    requires Inv(s) && Enabled(s, DoClose(t, defunct))
    ensures var r := Close(s, t, defunct);
      && Becomes(s, r, t, s.threads[t].(stat := Closed, armed := false))
      && (if defunct then r.lists[Defunct] == [t] + Without(s.lists[Defunct], t) else Nowhere(r, t))
  {
    hide Placed, Unlink, Becomes, Nowhere, InsertAt;
    var th := s.threads[t].(stat := Closed, armed := false);
    UnlinkLoose(s, t);
    UnlinkMoves(s, t, th);
    var u := SetThread(RemoveThread(s, t), t, th);
    assert s.threads[t].stat == Init ==> RemoveThread(s, t) == s;
    FrontMoves(s, u, t, th, Defunct);
  }

  /** A ready thread whose priority is changed waits its turn at the new one; others just have it. */
  lemma ChangePriorityMoves(s: State, t: Tid, p: nat)
    requires Inv(s) && Enabled(s, DoChangePriority(t, p))
    ensures var r, th := ChangePriority(s, t, p), s.threads[t].(prio := p);
      && Becomes(s, r, t, th)
      && (if th.stat == Ready then LastIn(s, r, t, ReadyList(p)) else r.lists == s.lists)
  {
    hide Placed, Unlink, LastIn;
    var th := s.threads[t].(prio := p);
    if th.stat == Ready { InsertMoves(s, t, th); }
  }

  /** The scheduler stays with the current thread when it is locked, when nothing is ready, or when the
      current thread runs and is more urgent than all that are ready. */
  ghost predicate Stays(s: State)
    requires WellFormed(s)
  {
    || s.lock != 0
    || (forall x :: x in s.threads && s.threads[x].stat == Ready ==>
         s.threads[s.current].stat == Running && s.threads[s.current].prio < s.threads[x].prio)
  }

  lemma StaysWhen(s: State)
    requires Inv(s)
    ensures Stays(s) <==> Schedule(s) == s
  {
    var p := FirstLevel(s, 0);
    forall x | x in s.threads && s.threads[x].stat == Ready ensures s.threads[x].prio < s.levels && s.lists[ReadyList(s.threads[x].prio)] != [] {
      assert x in s.lists[ReadyList(s.threads[x].prio)];
    }
    if p < s.levels {
      var to := s.lists[ReadyList(p)][0];
      assert to in s.lists[ReadyList(p)];
      assert to in s.threads && s.threads[to].stat == Ready && s.threads[to].prio == p;
      assert to != s.current && SwitchTo(s, to).current == to;
    }
  }

  /** Otherwise it switches to the first thread of the most urgent ready list; the one before, if it still
      runs, waits its turn behind the others of its priority; no other thread changes. */
  lemma SwitchMoves(s: State) returns (p: nat)
    requires Inv(s) && !Stays(s)
    ensures p < s.levels && s.lists[ReadyList(p)] != [] && forall k: nat :: k < p ==> s.lists[ReadyList(k)] == []
    ensures var r, t, to := Schedule(s), s.current, s.lists[ReadyList(p)][0];
      && r.current == to && to in s.threads && to != t && r.lock == s.lock && r.levels == s.levels
      && r.threads == s.threads[t := s.threads[t].(stat := if s.threads[t].stat == Running then Ready else s.threads[t].stat)]
                               [to := s.threads[to].(stat := Running)]
      && r.lists.Keys == s.lists.Keys
      && forall h :: h in s.lists ==>
           r.lists[h] == if s.threads[t].stat == Running && h == ReadyList(s.threads[t].prio) then Without(s.lists[h], to) + [t]
                         else Without(s.lists[h], to)
  {
    StaysWhen(s);
    p := FirstLevel(s, 0);
    var t, to := s.current, s.lists[ReadyList(p)][0];
    assert to in s.lists[ReadyList(p)];
    if s.threads[t].stat == Running {
      var h := ReadyList(s.threads[t].prio);
      var l := s.lists[h];
      assert l[..|l|] == l && l[|l|..] == [] && l + [t] + [] == l + [t];
      LastOf(l, t, to);
    }
  }

  /** Between `rt_enter_critical` and the matching `rt_exit_critical`, however nested, no step switches. */
  lemma LockedStep(s: State, a: Action)
    requires Inv(s) && Enabled(s, a) && s.lock > 0 && !(a.ExitCritical? && s.lock == 1)
    ensures var r := Step(s, a);
      r.current == s.current && r.lock == s.lock + if a.EnterCritical? then 1 else if a.ExitCritical? then -1 else 0
  {
    hide Placed, Position;
  }

  ghost function Depth(run: seq<Action>): int {
    if run == [] then 0 else (if run[0].EnterCritical? then 1 else if run[0].ExitCritical? then -1 else 0) + Depth(run[1..])
  }

  lemma {:induction false} LockedRun(s: State, run: seq<Action>)
    requires Inv(s) && CanRun(s, run) && forall k :: 0 <= k <= |run| ==> s.lock + Depth(run[..k]) > 0
    ensures Exec(s, run).current == s.current && Exec(s, run).lock == s.lock + Depth(run)
    decreases |run|
  {
    hide Inv, Enabled, Step;
    assert run[..0] == [] && Depth(run[..0]) == 0;
    if run != [] {
      assert run[..1] == [run[0]] && [run[0]][1..] == [] && s.lock + Depth(run[..1]) > 0;
      StepKeeps(s, run[0]);
      LockedStep(s, run[0]);
      forall k | 0 <= k <= |run[1..]| ensures Step(s, run[0]).lock + Depth(run[1..][..k]) > 0 {
        assert run[..k + 1][1..] == run[1..][..k] && run[..k + 1][0] == run[0];
        assert s.lock + Depth(run[..k + 1]) > 0;
      }
      LockedRun(Step(s, run[0]), run[1..]);
    }
  }

  // ----- round robin -----

  /** The ticks left to the threads before `t` in a list. */
  ghost function TicksBefore(threads: map<Tid, Thread>, l: seq<Tid>, t: Tid): nat {
    if l == [] || l[0] == t then 0
    else (if l[0] in threads then threads[l[0]].remaining else 0) + TicksBefore(threads, l[1..], t)
  }

  lemma {:induction false} BeforeAppend(threads: map<Tid, Thread>, l: seq<Tid>, tail: seq<Tid>, t: Tid)
    requires t in l
    ensures TicksBefore(threads, l + tail, t) == TicksBefore(threads, l, t)
  {
    assert (l + tail)[0] == l[0];
    if l[0] != t {
      assert (l + tail)[1..] == l[1..] + tail;
      BeforeAppend(threads, l[1..], tail, t);
    }
  }

  lemma {:induction false} BeforeWithout(threads: map<Tid, Thread>, threads': map<Tid, Thread>, l: seq<Tid>, x: Tid, t: Tid)
    requires x != t
    requires forall y :: y in l && y != x ==> y in threads && y in threads' && threads'[y].remaining == threads[y].remaining
    ensures TicksBefore(threads', Without(l, x), t) <= TicksBefore(threads, l, t)
  {
    if l != [] && l[0] != t {
      BeforeWithout(threads, threads', l[1..], x, t);
      if l[0] != x {
        assert Without(l, x)[1..] == Without(l[1..], x);
      }
    }
  }

  lemma {:induction false} BeforeSame(threads: map<Tid, Thread>, threads': map<Tid, Thread>, l: seq<Tid>, t: Tid)
    requires forall y :: y in l ==> y in threads && y in threads' && threads'[y].remaining == threads[y].remaining
    ensures TicksBefore(threads', l, t) == TicksBefore(threads, l, t)
  {
    if l != [] { BeforeSame(threads, threads', l[1..], t); }
  }

  /** `t` waits its turn at a level above which nothing is ready, every time slice is positive,
      and the scheduler is unlocked. */
  ghost predicate Waiting(s: State, t: Tid) {
    && Inv(s) && s.lock == 0 && t != s.current
    && t in s.threads && s.threads[t].stat == Ready
    && (s.threads[s.current].stat == Running ==> s.threads[t].prio <= s.threads[s.current].prio)
    && (forall x :: x in s.threads && s.threads[x].stat == Ready ==> s.threads[t].prio <= s.threads[x].prio)
    && (forall x :: x in s.threads ==> s.threads[x].initTick > 0 && s.threads[x].remaining > 0)
  }

  ghost function Queue(s: State, t: Tid): seq<Tid>
    requires WellFormed(s) && t in s.threads
  {
    s.lists[ReadyList(s.threads[t].prio)]
  }

  /** The ticks left to the current thread and to those ahead of `t` in its ready list. */
  ghost function TicksAhead(s: State, t: Tid): nat
    requires WellFormed(s) && t in s.threads
  {
    s.threads[s.current].remaining + TicksBefore(s.threads, Queue(s, t), t)
  }

  lemma TopLevel(s: State, t: Tid)
    requires Waiting(s, t)
    ensures t in Queue(s, t) && FirstLevel(s, 0) == s.threads[t].prio
  {
    var p, f := s.threads[t].prio, FirstLevel(s, 0);
    assert t in s.lists[ReadyList(p)];
    if f > p { assert false; }
    var x := s.lists[ReadyList(f)][0];
    assert x in s.lists[ReadyList(f)];
    assert x in s.threads && Fits(s.threads[x], ReadyList(f));
    assert s.threads[t].prio <= s.threads[x].prio;
  }

  /** When the scheduler switches, the first of the list of `t` gets the processor. */
  lemma SwitchedQueue(s: State, t: Tid)
    requires Waiting(s, t)
    ensures var l, r := Queue(s, t), Schedule(s);
      && l != [] && r.current == l[0] && l[0] in s.threads
      && r.threads[l[0]] == s.threads[l[0]].(stat := Running)
      && r == SwitchTo(s, l[0])
  {
    TopLevel(s, t);
    assert Queue(s, t)[0] in Queue(s, t);
  }

  lemma SwitchedTail(s: State, t: Tid)
    requires Waiting(s, t) && Queue(s, t) != [] && Queue(s, t)[0] != t
    ensures var l := Queue(s, t);
      l[0] in s.threads && exists tail :: SwitchTo(s, l[0]).lists[ReadyList(s.threads[t].prio)] == l[1..] + tail
  {
    var h := ReadyList(s.threads[t].prio);
    var l := s.lists[h];
    var to, from := l[0], s.current;
    assert to in l;
    var r := SwitchTo(s, to);
    var moved := s.threads[from].stat == Running && ReadyList(s.threads[from].prio) == h;
    var tail := if moved then [from] else [];
    assert (l + tail)[1..] == l[1..] + tail && to !in l[1..] + tail;
    if !moved { assert l + tail == l; }
    assert r.lists[h] == Without(l + tail, to);
    assert r.lists[h] == l[1..] + tail;
  }

  lemma SwitchRecords(s: State, to: Tid)
    requires Inv(s) && to in s.threads
    ensures var r := SwitchTo(s, to).threads;
      r.Keys == s.threads.Keys && forall x :: x in r ==> r[x].remaining == s.threads[x].remaining && r[x].initTick == s.threads[x].initTick
  {
  }

  lemma StillWaiting(s: State, t: Tid)
    requires Waiting(s, t) && Queue(s, t) != [] && Queue(s, t)[0] != t
    requires Queue(s, t)[0] in s.threads && s.threads[Queue(s, t)[0]].prio == s.threads[t].prio && Inv(SwitchTo(s, Queue(s, t)[0]))
    ensures Waiting(SwitchTo(s, Queue(s, t)[0]), t)
  {
    hide NoDup, Placed, Unlink;
  }

  lemma SwitchTicks(s: State, t: Tid)
    requires Waiting(s, t)
    ensures var r := Schedule(s);
      r.current == t || (Waiting(r, t) && TicksAhead(r, t) + s.threads[s.current].remaining == TicksAhead(s, t))
  {
    SwitchedQueue(s, t);
    ScheduleKeeps(s);
    var l, r := Queue(s, t), Schedule(s);
    if l[0] != t {
      assert l[0] in l;
      StillWaiting(s, t);
      SwitchedTail(s, t);
      var tail :| r.lists[ReadyList(s.threads[t].prio)] == l[1..] + tail;
      TopLevel(s, t);
      SwitchRecords(s, l[0]);
      assert forall y :: y in l[1..] ==> y in l && y in s.threads;
      BeforeAppend(r.threads, l[1..], tail, t);
      BeforeSame(s.threads, r.threads, l[1..], t);
    }
  }

  /** Steps that neither touch `t` nor lock the scheduler; a new thread has a positive slice. */
  ghost predicate LeavesAlone(a: Action, t: Tid) {
    match a
    case DoSchedule => true
    case DoTick => true
    case TimerFires(x) => x != t
    case DoCreate(x, _, tick) => tick > 0
    case DoStartup(x) => x != t
    case DoSuspend(x) => x != t
    case DoResume(x) => x != t
    case DoSleep => true
    case DoChangePriority(x, _) => x != t
    case DoBlock(_, _, _) => true
    case DoWake(_) => true
    case DoClose(x, _) => x != t
    case SetError(_) => true
    case NewQueue(_) => true
    case EnterCritical => false
    case ExitCritical => true
  }

  /** No thread of a smaller priority number has become ready or running. */
  ghost predicate NothingAbove(s: State, p: nat)
    requires Inv(s)
  {
    forall x :: x in s.threads && s.threads[x].stat in {Ready, Running} ==> p <= s.threads[x].prio
  }

  /** Either `t` got the processor, or it waits on with at least `n` ticks fewer ahead of it. */
  ghost predicate Nearer(s: State, r: State, t: Tid, n: nat)
    requires Waiting(s, t) && Inv(r)
  {
    r.current == t || (Waiting(r, t) && TicksAhead(r, t) + n <= TicksAhead(s, t))
  }

  lemma ListTicks(threads: map<Tid, Thread>, threads': map<Tid, Thread>, l: seq<Tid>, x: Tid, tail: seq<Tid>, t: Tid)
    requires t in l && x != t
    requires forall y :: y in l ==> y in threads && y in threads' && threads'[y].remaining == threads[y].remaining
    ensures TicksBefore(threads', Without(l, x) + tail, t) <= TicksBefore(threads, l, t)
  {
    BeforeAppend(threads', Without(l, x), tail, t);
    BeforeWithout(threads, threads', l, x, t);
  }

  lemma WaitsOn(s: State, r: State, t: Tid)
    requires Waiting(s, t) && Inv(r) && t in r.threads && r.threads[t] == s.threads[t]
    requires s.current == r.current && r.lock == 0 && NothingAbove(r, s.threads[t].prio)
    requires forall y :: y in r.threads ==> r.threads[y].initTick > 0 && r.threads[y].remaining > 0
    ensures Waiting(r, t)
  {
  }

  /** A step that does not switch: `x` may leave the list of `t`, others may join at its end. */
  lemma MovedTicks(s: State, r: State, t: Tid, x: Tid, tail: seq<Tid>)
    requires Waiting(s, t) && WellFormed(r) && t != x && t in r.threads && r.threads[t] == s.threads[t]
    requires s.current == r.current
    requires Queue(r, t) == Without(Queue(s, t), x) + tail
    requires forall y :: y in s.threads ==> y in r.threads && r.threads[y].remaining == s.threads[y].remaining
    ensures TicksAhead(r, t) <= TicksAhead(s, t)
  {
    TopLevel(s, t);
    assert forall y :: y in Queue(s, t) ==> y in s.threads;
    ListTicks(s.threads, r.threads, Queue(s, t), x, tail, t);
  }

  /** A thread `x` that is not ready joins a ready list, or runs on if it is the current one. */
  lemma JoinTicks(s: State, x: Tid, th: Thread, t: Tid)
    requires Waiting(s, t) && x in s.threads && x != t && th.prio < s.levels && th.initPrio < s.levels
    requires th.remaining == s.threads[x].remaining && th.initTick == s.threads[x].initTick
    requires var r := InsertThread(SetThread(RemoveThread(s, x), x, th), x);
      Inv(r) && NothingAbove(r, s.threads[t].prio)
    ensures Nearer(s, InsertThread(SetThread(RemoveThread(s, x), x, th), x), t, 0)
  {
    var tail := JoinedQueue(s, x, th, t);
    JoinedRecords(s, x, th);
    ChangeTicks(s, InsertThread(SetThread(RemoveThread(s, x), x, th), x), x, tail, t);
  }

  lemma JoinedRecords(s: State, x: Tid, th: Thread)
    requires Inv(s) && x in s.threads && th.prio < s.levels && th.initPrio < s.levels
    requires th.remaining == s.threads[x].remaining && th.initTick == s.threads[x].initTick
    ensures var r := InsertThread(SetThread(RemoveThread(s, x), x, th), x);
      r.current == s.current && r.lock == s.lock && SameSlices(s, r) && forall y :: y in s.threads && y != x ==> r.threads[y] == s.threads[y]
  {
  }

  lemma JoinedQueue(s: State, x: Tid, th: Thread, t: Tid) returns (tail: seq<Tid>)
    requires Inv(s) && x in s.threads && t in s.threads && x != t && th.prio < s.levels && th.initPrio < s.levels
    ensures var r := InsertThread(SetThread(RemoveThread(s, x), x, th), x);
      r.lists[ReadyList(s.threads[t].prio)] == Without(Queue(s, t), x) + tail
  {
    tail := if x != s.current && th.prio == s.threads[t].prio then [x] else [];
    var l := Without(Queue(s, t), x);
    assert l[..|l|] == l && l[|l|..] == [];
    assert l + [] == l;
  }

  /** The same threads with the same slice counters. */
  ghost predicate SameSlices(s: State, r: State) {
    s.threads.Keys == r.threads.Keys
    && forall y :: y in s.threads ==> r.threads[y].remaining == s.threads[y].remaining && r.threads[y].initTick == s.threads[y].initTick
  }

  lemma ChangeTicks(s: State, r: State, x: Tid, tail: seq<Tid>, t: Tid)
    requires Waiting(s, t) && Inv(r) && x != t && s.current == r.current && r.lock == 0
    requires NothingAbove(r, s.threads[t].prio)
    requires SameSlices(s, r) && r.threads[t] == s.threads[t]
    requires r.lists[ReadyList(s.threads[t].prio)] == Without(Queue(s, t), x) + tail
    ensures Nearer(s, r, t, 0)
  {
    WaitsOn(s, r, t);
    MovedTicks(s, r, t, x, tail);
  }

  /** `x` leaves whatever list it is in. */
  lemma LeaveTicks(s: State, r: State, x: Tid, t: Tid)
    requires Waiting(s, t) && Inv(r) && x != t && s.current == r.current && r.lock == 0
    requires NothingAbove(r, s.threads[t].prio)
    requires SameSlices(s, r) && r.threads[t] == s.threads[t]
    requires r.lists[ReadyList(s.threads[t].prio)] == Without(Queue(s, t), x)
    ensures Nearer(s, r, t, 0)
  {
    assert Queue(r, t) == Without(Queue(s, t), x) + [];
    ChangeTicks(s, r, x, [], t);
  }

  lemma SleepTicks(s: State, t: Tid)
    requires Waiting(s, t) && Enabled(s, DoSleep)
    requires Inv(Step(s, DoSleep)) && NothingAbove(Step(s, DoSleep), s.threads[t].prio)
    ensures Nearer(s, Step(s, DoSleep), t, 0)
  {
    LeaveTicks(s, Step(s, DoSleep), s.current, t);
  }

  lemma BlockTicks(s: State, q: nat, flag: Flag, timed: bool, t: Tid)
    requires Waiting(s, t) && Enabled(s, DoBlock(q, flag, timed))
    requires Inv(Block(s, q, flag, timed)) && NothingAbove(Block(s, q, flag, timed), s.threads[t].prio)
    ensures Nearer(s, Block(s, q, flag, timed), t, 0)
  {
    LeaveTicks(s, Block(s, q, flag, timed), s.current, t);
  }

  lemma SuspendTicks(s: State, x: Tid, t: Tid)
    requires Waiting(s, t) && x in s.threads && x != t
    requires Inv(Suspend(s, x)) && NothingAbove(Suspend(s, x), s.threads[t].prio)
    ensures Nearer(s, Suspend(s, x), t, 0)
  {
    if s.threads[x].stat in {Ready, Running} { LeaveTicks(s, Suspend(s, x), x, t); }
  }

  lemma ClosedQueue(s: State, x: Tid, defunct: bool, p: nat)
    requires Inv(s) && x in s.threads && p < s.levels
    ensures var r := Close(s, x, defunct);
      ReadyList(p) in r.lists && r.lists[ReadyList(p)] == Without(s.lists[ReadyList(p)], x)
  {
    if s.threads[x].stat == Init { assert x !in s.lists[ReadyList(p)]; }
  }

  lemma ClosedRecords(s: State, x: Tid, defunct: bool, t: Tid)
    requires Inv(s) && x in s.threads && t in s.threads && x != t
    ensures var r := Close(s, x, defunct); SameSlices(s, r) && r.threads[t] == s.threads[t]
  {
  }

  lemma CloseTicks(s: State, x: Tid, defunct: bool, t: Tid)
    requires Waiting(s, t) && x in s.threads && x != t
    requires Inv(Close(s, x, defunct)) && NothingAbove(Close(s, x, defunct), s.threads[t].prio)
    ensures Nearer(s, Close(s, x, defunct), t, 0)
  {
    ClosedQueue(s, x, defunct, s.threads[t].prio);
    ClosedRecords(s, x, defunct, t);
    LeaveTicks(s, Close(s, x, defunct), x, t);
  }

  /** Creating a thread or a wait list, setting an error, and changing the priority of a thread that is not
      ready move no thread. */
  lemma RecordTicks(s: State, a: Action, t: Tid)
    requires Waiting(s, t) && Enabled(s, a) && LeavesAlone(a, t)
    requires a.DoCreate? || a.SetError? || a.NewQueue? || (a.DoChangePriority? && s.threads[a.t].stat != Ready)
    requires Inv(Step(s, a)) && NothingAbove(Step(s, a), s.threads[t].prio)
    ensures Nearer(s, Step(s, a), t, 0)
  {
    var r := Step(s, a);
    assert s.current !in Queue(s, t);
    WaitsOn(s, r, t);
    assert Queue(r, t) == Without(Queue(s, t), s.current) + [];
    MovedTicks(s, r, t, s.current, []);
  }

  /** A ready thread whose priority changes goes to the end of another list, or of its own. */
  lemma PriorityTicks(s: State, x: Tid, p: nat, t: Tid)
    requires Waiting(s, t) && Enabled(s, DoChangePriority(x, p)) && x != t
    requires Inv(ChangePriority(s, x, p)) && NothingAbove(ChangePriority(s, x, p), s.threads[t].prio)
    ensures Nearer(s, ChangePriority(s, x, p), t, 0)
  {
    if s.threads[x].stat == Ready {
      JoinTicks(s, x, s.threads[x].(prio := p), t);
    } else {
      RecordTicks(s, DoChangePriority(x, p), t);
    }
  }

  lemma ResumedTicks(s: State, a: Action, t: Tid)
    requires Waiting(s, t) && Enabled(s, a) && LeavesAlone(a, t) && (a.TimerFires? || a.DoResume? || a.DoStartup?)
    requires Inv(Step(s, a)) && NothingAbove(Step(s, a), s.threads[t].prio)
    ensures Nearer(s, Step(s, a), t, 0)
  {
    var th := s.threads[a.t];
    match a
    case TimerFires(x) => JoinTicks(s, x, th.(error := Timeout, armed := false), t);
    case DoResume(x) => if th.stat == Suspended { JoinTicks(s, x, th.(armed := false), t); }
    case DoStartup(x) =>
      var up := th.(prio := th.initPrio, stat := Suspended);
      Overwrite(s.threads, x, up, up.(armed := false));
      JoinTicks(s, x, up.(armed := false), t);
  }

  lemma WokenTicks(s: State, q: nat, t: Tid)
    requires Waiting(s, t) && Enabled(s, DoWake(q))
    requires Inv(Wake(s, q)) && NothingAbove(Wake(s, q), s.threads[t].prio)
    ensures Nearer(s, Wake(s, q), t, 0)
  {
    var x := s.lists[WaitList(q)][0];
    assert x in s.lists[WaitList(q)];
    JoinTicks(s, x, s.threads[x].(armed := false), t);
  }

  lemma SlicedTicks(s: State, left: nat, t: Tid)
    requires Waiting(s, t) && left > 0
    ensures var r := SetThread(s, s.current, s.threads[s.current].(remaining := left));
      Waiting(r, t) && TicksAhead(r, t) <= TicksAhead(s, t) - s.threads[s.current].remaining + left
  {
    var r := SetThread(s, s.current, s.threads[s.current].(remaining := left));
    RecordKeeps(s, s.current, r.threads[s.current]);
    assert s.current !in Queue(s, t);
    BeforeWithout(s.threads, r.threads, Queue(s, t), s.current, t);
  }

  lemma TickTicks(s: State, t: Tid)
    requires Waiting(s, t) && Inv(Tick(s))
    ensures Nearer(s, Tick(s), t, 1)
  {
    var me := s.threads[s.current];
    if me.remaining > 1 {
      SlicedTicks(s, me.remaining - 1, t);
    } else {
      SlicedTicks(s, me.initTick, t);
      SwitchTicks(SetThread(s, s.current, me.(remaining := me.initTick)), t);
    }
  }

  /** Any step that leaves `t` alone and keeps the levels above free either gives `t` the
      processor or does not add to the ticks ahead of it; a tick takes one away. */
  lemma RoundRobinStep(s: State, a: Action, t: Tid)
    requires Waiting(s, t) && Enabled(s, a) && LeavesAlone(a, t)
    requires Inv(Step(s, a)) && NothingAbove(Step(s, a), s.threads[t].prio)
    ensures Nearer(s, Step(s, a), t, if a.DoTick? then 1 else 0)
  {
    match a
    case DoSchedule => SwitchTicks(s, t);
    case DoTick => TickTicks(s, t);
    case TimerFires(_) => ResumedTicks(s, a, t);
    case DoResume(_) => ResumedTicks(s, a, t);
    case DoStartup(_) => ResumedTicks(s, a, t);
    case DoWake(q) => WokenTicks(s, q, t);
    case DoSuspend(x) => SuspendTicks(s, x, t);
    case DoClose(x, defunct) => CloseTicks(s, x, defunct, t);
    case DoSleep => SleepTicks(s, t);
    case DoBlock(q, flag, timed) => BlockTicks(s, q, flag, timed, t);
    case DoChangePriority(x, p) => PriorityTicks(s, x, p, t);
    case DoCreate(_, _, _) => RecordTicks(s, a, t);
    case SetError(_) => RecordTicks(s, a, t);
    case NewQueue(_) => RecordTicks(s, a, t);
    case ExitCritical => SwitchTicks(s, t);
  }

  ghost function Ticks(run: seq<Action>): nat {
    if run == [] then 0 else (if run[0].DoTick? then 1 else 0) + Ticks(run[1..])
  }

  /** Somewhere in the run the processor goes to `t`. */
  ghost predicate Gets(s: State, run: seq<Action>, t: Tid)
    requires Inv(s) && CanRun(s, run)
    decreases |run|
  {
    s.current == t || (run != [] && (StepKeeps(s, run[0]); Gets(Step(s, run[0]), run[1..], t)))
  }

  /** Along the run nobody touches `t` and no thread above its level becomes runnable. */
  ghost predicate Undisturbed(s: State, run: seq<Action>, t: Tid, p: nat)
    requires Inv(s) && CanRun(s, run)
    decreases |run|
  {
    run == [] || (LeavesAlone(run[0], t) && (StepKeeps(s, run[0]); NothingAbove(Step(s, run[0]), p)
                                             && Undisturbed(Step(s, run[0]), run[1..], t, p)))
  }

  /** Round robin is bounded: a run with as many ticks as are left to the current thread and to
      those ahead of `t` gives `t` the processor. */
  lemma {:induction false} RoundRobinBound(s: State, run: seq<Action>, t: Tid)
    requires Waiting(s, t) && CanRun(s, run) && Undisturbed(s, run, t, s.threads[t].prio)
    requires Ticks(run) >= TicksAhead(s, t)
    ensures Gets(s, run, t)
    decreases |run|
  {
    if run != [] {
      StepKeeps(s, run[0]);
      RoundRobinStep(s, run[0], t);
      var r := Step(s, run[0]);
      if r.current != t {
        SamePriority(s, run[0], t);
        RoundRobinBound(r, run[1..], t);
      }
    }
  }

  lemma SamePriority(s: State, a: Action, t: Tid)
    requires Waiting(s, t) && Enabled(s, a) && LeavesAlone(a, t)
    ensures var r := Step(s, a); t in r.threads && r.threads[t].prio == s.threads[t].prio
  {
    hide TicksAhead, Position, NothingAbove, Placed;
  }

  // ----- the time slice -----

  /** No ready thread is as urgent as the current one. */
  ghost predicate NoRival(s: State)
    requires WellFormed(s)
  {
    forall x :: x in s.threads && s.threads[x].stat == Ready ==> s.threads[s.current].prio < s.threads[x].prio
  }

  /** The step does not make the current thread block, sleep, stop or change its priority, and calls the
      scheduler only while no ready thread is as urgent. */
  ghost predicate Quiet(s: State, a: Action)
    requires Inv(s)
  {
    match a
    case DoSchedule => NoRival(s)
    case ExitCritical => s.lock > 1 || NoRival(s)
    case DoSuspend(x) => x != s.current
    case DoSleep => false
    case DoChangePriority(x, _) => x != s.current
    case DoBlock(_, _, _) => false
    case DoClose(x, _) => x != s.current
    case _ => true
  }

  /** The current thread runs with so many ticks left. */
  ghost predicate RunsOn(s: State, t: Tid, left: nat, full: nat) {
    t == s.current && t in s.threads && s.threads[t].stat == Running && s.threads[t].remaining == left && s.threads[t].initTick == full
  }

  lemma NoRivalStays(s: State)
    requires Inv(s) && NoRival(s) && s.threads[s.current].stat == Running
    ensures Schedule(s) == s
  {
    var p := FirstLevel(s, 0);
    if p < s.levels {
      var to := s.lists[ReadyList(p)][0];
      assert to in s.lists[ReadyList(p)];
    }
  }

  lemma QuietStep(s: State, a: Action, t: Tid, left: nat, full: nat)
    requires Inv(s) && Enabled(s, a) && Quiet(s, a) && RunsOn(s, t, left, full) && (a.DoTick? ==> left > 1)
    ensures RunsOn(Step(s, a), t, if a.DoTick? then left - 1 else left, full)
  {
    hide Schedule, Placed, Position, Unlink, InsertAt, NoRival;
    match a
    case DoSchedule => NoRivalStays(s);
    case ExitCritical => if s.lock <= 1 { NoRivalUnlocked(s); }
    case DoWake(q) => WaiterSuspended(s, q);
    case _ =>
  }

  lemma NoRivalUnlocked(s: State)
    requires Inv(s) && NoRival(s) && s.threads[s.current].stat == Running
    ensures Inv(s.(lock := 0)) && Schedule(s.(lock := 0)) == s.(lock := 0)
  {
    LockKeeps(s, 0);
    NoRivalStays(s.(lock := 0));
  }

  lemma WaiterSuspended(s: State, q: nat)
    requires Inv(s) && Enabled(s, DoWake(q))
    ensures var x := s.lists[WaitList(q)][0]; x in s.threads && s.threads[x].stat == Suspended
  {
    var x := s.lists[WaitList(q)][0];
    assert x in s.lists[WaitList(q)];
  }

  ghost predicate AllQuiet(s: State, run: seq<Action>)
    requires Inv(s) && CanRun(s, run)
    decreases |run|
  {
    run == [] || (Quiet(s, run[0]) && (StepKeeps(s, run[0]); AllQuiet(Step(s, run[0]), run[1..])))
  }

  /** A thread keeps the processor for its slice: after a quiet run of fewer ticks than it had left it still
      runs, with as many ticks less. */
  lemma {:induction false} SliceKept(s: State, run: seq<Action>, t: Tid, left: nat, full: nat)
    requires Inv(s) && CanRun(s, run) && AllQuiet(s, run) && RunsOn(s, t, left, full) && Ticks(run) < left
    ensures RunsOn(Exec(s, run), t, left - Ticks(run), full)
    decreases |run|
  {
    hide Inv, Enabled, Quiet, RunsOn, Step;
    if run != [] {
      StepKeeps(s, run[0]);
      QuietStep(s, run[0], t, left, full);
      SliceKept(Step(s, run[0]), run[1..], t, if run[0].DoTick? then left - 1 else left, full);
    }
  }

  /** In the tick that uses up the slice, the thread gives way if and only if the scheduler is unlocked and
      a thread at least as urgent is ready; it then is the last of its ready list.  Either way its slice
      is full again. */
  lemma SliceEnds(s: State, t: Tid, full: nat)
    requires Inv(s) && RunsOn(s, t, 1, full)
    ensures var r := Tick(s);
      && t in r.threads && r.threads[t].remaining == r.threads[t].initTick == full && r.threads[t].prio == s.threads[t].prio
      && (r.current != t <==> s.lock == 0 && !NoRival(s))
      && (r.current == t ==> r.threads[t].stat == Running)
      && (r.current != t ==>
           && r.threads[t].stat == Ready && var h := ReadyList(s.threads[t].prio);
           h in r.lists && r.lists[h] != [] && r.lists[h][|r.lists[h]| - 1] == t)
  {
    hide Schedule, Placed;
    var me := s.threads[t];
    var s1 := SetThread(s, t, me.(remaining := me.initTick));
    RecordKeeps(s, t, me.(remaining := me.initTick));
    SameRivals(s, s1, t);
    if s.lock != 0 {
      LockedStays(s1);
    } else if NoRival(s1) {
      NoRivalStays(s1);
    } else {
      GivesWay(s1);
    }
  }

  lemma SameRivals(s: State, r: State, t: Tid)
    requires WellFormed(s) && WellFormed(r) && s.current == r.current == t && s.threads[t].stat == r.threads[t].stat == Running
    requires s.threads[t].prio == r.threads[t].prio && s.threads.Keys == r.threads.Keys
    requires forall x :: x in s.threads && x != t ==> r.threads[x] == s.threads[x]
    ensures NoRival(s) <==> NoRival(r)
  {
    forall x | x in s.threads && s.threads[x].stat == Ready ensures r.threads[x] == s.threads[x] { assert x != t; }
    if NoRival(r) {
      forall x | x in s.threads && s.threads[x].stat == Ready ensures s.threads[t].prio < s.threads[x].prio { assert r.threads[x] == s.threads[x]; }
    }
  }

  lemma LockedStays(s: State)
    requires Inv(s) && s.lock != 0
    ensures Schedule(s) == s
  {
  }

  lemma GivesWay(s: State)
    requires Inv(s) && s.lock == 0 && s.threads[s.current].stat == Running && !NoRival(s)
    ensures var r, t := Schedule(s), s.current; var h := ReadyList(s.threads[t].prio);
      && r.current != t && t in r.threads && r.threads[t] == s.threads[t].(stat := Ready)
      && h in r.lists && r.lists[h] != [] && r.lists[h][|r.lists[h]| - 1] == t
  {
    var t, p := s.current, FirstLevel(s, 0);
    var x :| x in s.threads && s.threads[x].stat == Ready && s.threads[x].prio <= s.threads[t].prio;
    assert x in s.lists[ReadyList(s.threads[x].prio)];
    var to := s.lists[ReadyList(p)][0];
    assert to in s.lists[ReadyList(p)];
    var h := ReadyList(s.threads[t].prio);
    LastStays(s.lists[h], t, to);
  }

  lemma LastStays(l: seq<Tid>, t: Tid, x: Tid)
    requires t != x
    ensures var r := Without(l[..|l|] + [t] + l[|l|..], x); r != [] && r[|r| - 1] == t
    decreases |l|
  {
    assert l[..|l|] == l && l[|l|..] == [] && l + [t] + [] == l + [t];
    LastOf(l, t, x);
  }

  lemma {:induction false} LastOf(l: seq<Tid>, t: Tid, x: Tid)
    requires t != x
    ensures Without(l + [t], x) == Without(l, x) + [t]
  {
    if l == [] {
      assert l + [t] == [t] && [t][1..] == [];
    } else {
      assert (l + [t])[1..] == l[1..] + [t];
      LastOf(l[1..], t, x);
    }
  }

  /** A whole slice: after a quiet run up to its last tick, that tick ends it. */
  lemma WholeSlice(s: State, run: seq<Action>, t: Tid, left: nat, full: nat)
    requires Inv(s) && CanRun(s, run) && AllQuiet(s, run) && RunsOn(s, t, left, full) && Ticks(run) + 1 == left
    ensures var e := Exec(s, run); var r := Tick(e);
      && RunsOn(e, t, 1, full) && t in r.threads && r.threads[t].remaining == full
      && (r.current != t <==> e.lock == 0 && !NoRival(e))
  {
    hide Tick, Quiet;
    SliceKept(s, run, t, left, full);
    SliceEnds(Exec(s, run), t, full);
  }

  // ----- what a step does to a wait list it does not name -----

  /** A step that neither names queue `q` nor a thread blocked in a call on it. */
  ghost predicate Foreign(s: State, a: Action, q: nat, inside: set<Tid>) {
    match a
    case TimerFires(t) => t !in inside
    case DoStartup(t) => t !in inside
    case DoSuspend(t) => t !in inside
    case DoResume(t) => t !in inside
    case DoSleep => s.current !in inside
    case DoChangePriority(t, _) => t !in inside
    case DoBlock(k, _, _) => k != q && s.current !in inside
    case DoWake(k) => k != q && WaitList(k) in s.lists && s.lists[WaitList(k)] != [] && s.lists[WaitList(k)][0] !in inside
    case DoClose(t, _) => t !in inside
    case SetError(_) => s.current !in inside
    case _ => true
  }

  /** The part of a state that a call blocked on queue `q` depends on. */
  ghost predicate Unmoved(s: State, r: State, q: nat, inside: set<Tid>) {
    && WaitList(q) in s.lists && WaitList(q) in r.lists && r.lists[WaitList(q)] == s.lists[WaitList(q)]
    && forall t :: t in inside ==> t in s.threads && t in r.threads && SameWait(s.threads[t], r.threads[t])
  }

  ghost predicate SameWait(a: Thread, b: Thread) {
    a.error == b.error && a.prio == b.prio && a.initPrio == b.initPrio && (a.stat == Suspended <==> b.stat == Suspended)
  }

  ghost predicate Blocked(s: State, q: nat, inside: set<Tid>)
    requires Inv(s)
  {
    && WaitList(q) in s.lists
    && (forall t :: t in s.lists[WaitList(q)] ==> t in inside)
    && (forall t :: t in inside ==> t in s.threads)
  }

  lemma ScheduleForeign(s: State, q: nat, inside: set<Tid>)
    requires Inv(s) && Blocked(s, q, inside)
    ensures Unmoved(s, Schedule(s), q, inside)
  {
    hide Schedule, Stays, Placed, Without;
    if Stays(s) {
      StaysWhen(s);
    } else {
      var p := SwitchMoves(s);
      var to := s.lists[ReadyList(p)][0];
      ReadyNotWaiting(s, p, q);
      SwitchedForeign(s, Schedule(s), to, q, inside);
    }
  }

  lemma ReadyNotWaiting(s: State, p: nat, q: nat)
    requires Inv(s) && p < s.levels && s.lists[ReadyList(p)] != [] && WaitList(q) in s.lists
    ensures var to := s.lists[ReadyList(p)][0]; to in s.threads && s.threads[to].stat == Ready && Without(s.lists[WaitList(q)], to) == s.lists[WaitList(q)]
  {
    var to := s.lists[ReadyList(p)][0];
    assert to in s.lists[ReadyList(p)];
  }

  lemma SwitchedForeign(s: State, r: State, to: Tid, q: nat, inside: set<Tid>)
    requires s.current in s.threads && to in s.threads && s.threads[to].stat == Ready && s.current != to
    requires WaitList(q) in s.lists && WaitList(q) in r.lists && r.lists[WaitList(q)] == s.lists[WaitList(q)]
    requires var t := s.current;
      r.threads == s.threads[t := s.threads[t].(stat := if s.threads[t].stat == Running then Ready else s.threads[t].stat)]
                            [to := s.threads[to].(stat := Running)]
    requires forall t :: t in inside ==> t in s.threads
    ensures Unmoved(s, r, q, inside)
  {
  }

  lemma UnlinkForeign(s: State, t: Tid, th: Thread, q: nat, inside: set<Tid>)
    requires Inv(s) && Blocked(s, q, inside) && t !in inside
    ensures Unmoved(s, SetThread(RemoveThread(s, t), t, th), q, inside)
    ensures Unmoved(s, SetThread(s, t, th), q, inside)
  {
    assert t !in s.lists[WaitList(q)];
  }

  lemma InsertForeign(s: State, r: State, t: Tid, q: nat, inside: set<Tid>)
    requires Unmoved(s, r, q, inside) && WellFormed(r) && t in r.threads && t !in inside
    ensures Unmoved(s, InsertThread(r, t), q, inside)
  {
  }

  lemma ResumeForeign(s: State, t: Tid, th: Thread, q: nat, inside: set<Tid>)
    requires Inv(s) && Blocked(s, q, inside) && t !in inside && t in s.threads
    requires th.prio < s.levels && th.initPrio < s.levels
    ensures Unmoved(s, InsertThread(SetThread(RemoveThread(s, t), t, th), t), q, inside)
  {
    UnlinkForeign(s, t, th, q, inside);
    InsertForeign(s, SetThread(RemoveThread(s, t), t, th), t, q, inside);
  }

  lemma TickForeign(s: State, q: nat, inside: set<Tid>)
    requires Inv(s) && Blocked(s, q, inside)
    ensures Unmoved(s, Tick(s), q, inside)
  {
    var me := s.threads[s.current];
    RecordKeeps(s, s.current, me.(remaining := me.initTick));
    ScheduleForeign(SetThread(s, s.current, me.(remaining := me.initTick)), q, inside);
  }

  lemma BlockForeign(s: State, k: nat, flag: Flag, timed: bool, q: nat, inside: set<Tid>)
    requires Inv(s) && Blocked(s, q, inside) && Enabled(s, DoBlock(k, flag, timed)) && k != q && s.current !in inside
    ensures Unmoved(s, Block(s, k, flag, timed), q, inside)
  {
    UnlinkForeign(s, s.current, s.threads[s.current].(stat := Suspended, error := Ok, armed := timed), q, inside);
  }

  lemma CloseForeign(s: State, t: Tid, defunct: bool, q: nat, inside: set<Tid>)
    requires Inv(s) && Blocked(s, q, inside) && t in s.threads && t !in inside
    ensures Unmoved(s, Close(s, t, defunct), q, inside)
  {
    UnlinkForeign(s, t, s.threads[t].(stat := Closed, armed := false), q, inside);
  }

  lemma StartupForeign(s: State, t: Tid, q: nat, inside: set<Tid>)
    requires Inv(s) && Blocked(s, q, inside) && Enabled(s, DoStartup(t)) && t !in inside
    ensures Unmoved(s, Startup(s, t), q, inside)
  {
    var th := s.threads[t];
    var up := th.(prio := th.initPrio, stat := Suspended);
    Overwrite(s.threads, t, up, up.(armed := false));
    ResumeForeign(s, t, up.(armed := false), q, inside);
  }

  lemma PriorityForeign(s: State, t: Tid, p: nat, q: nat, inside: set<Tid>)
    requires Inv(s) && Blocked(s, q, inside) && Enabled(s, DoChangePriority(t, p)) && t !in inside
    ensures Unmoved(s, ChangePriority(s, t, p), q, inside)
  {
    var th := s.threads[t].(prio := p);
    if th.stat == Ready { ResumeForeign(s, t, th, q, inside); } else { UnlinkForeign(s, t, th, q, inside); }
  }

  /** A step elsewhere leaves the wait list of `q` alone, and the errors, the priorities and the
      suspension of the threads blocked on it. */
  lemma StepForeign(s: State, a: Action, q: nat, inside: set<Tid>)
    requires Inv(s) && Enabled(s, a) && Blocked(s, q, inside) && Foreign(s, a, q, inside)
    ensures Unmoved(s, Step(s, a), q, inside)
  {
    match a
    case DoSchedule => ScheduleForeign(s, q, inside);
    case DoTick => TickForeign(s, q, inside);
    case TimerFires(t) => ResumeForeign(s, t, s.threads[t].(error := Timeout, armed := false), q, inside);
    case DoStartup(t) => StartupForeign(s, t, q, inside);
    case DoSuspend(t) => UnlinkForeign(s, t, s.threads[t].(stat := Suspended, armed := false), q, inside);
    case DoResume(t) => ResumeForeign(s, t, s.threads[t].(armed := false), q, inside);
    case DoSleep => SleepForeign(s, q, inside);
    case DoChangePriority(t, p) => PriorityForeign(s, t, p, q, inside);
    case DoBlock(k, flag, timed) => BlockForeign(s, k, flag, timed, q, inside);
    case DoWake(k) =>
      var t := s.lists[WaitList(k)][0];
      assert t in s.lists[WaitList(k)];
      ResumeForeign(s, t, s.threads[t].(armed := false), q, inside);
    case DoClose(t, defunct) => CloseForeign(s, t, defunct, q, inside);
    case SetError(e) => UnlinkForeign(s, s.current, s.threads[s.current].(error := e), q, inside);
    case ExitCritical => if s.lock <= 1 { LockKeeps(s, 0); ScheduleForeign(s.(lock := 0), q, inside); }
    case _ =>
  }

  lemma SleepForeign(s: State, q: nat, inside: set<Tid>)
    requires Inv(s) && Enabled(s, DoSleep) && Blocked(s, q, inside) && s.current !in inside
    ensures Unmoved(s, Step(s, DoSleep), q, inside)
  {
    UnlinkForeign(s, s.current, s.threads[s.current].(stat := Suspended, armed := true), q, inside);
    Overwrite(s.threads, s.current, s.threads[s.current].(stat := Suspended, armed := false), s.threads[s.current].(stat := Suspended, armed := true));
  }
}
