/** The hard timers of `timer.c`.  This module is the plain form: one list of timers, in the order
    in which they fire.  Ticks are 32-bit words that wrap; `clock` counts the same ticks without
    wrapping. */
module TimerModel {
  import opened Rings
  import opened Words

  type Id = nat

  /** `RT_TICK_MAX / 2` */
  const HALF: nat := 0x7fff_ffff

  datatype Timer = Timer(period: nat, timeout: nat, periodic: bool, active: bool)

  /** `now` is the tick, `list` the linked timers. */
  datatype Timers = Timers(now: nat, table: map<Id, Timer>, list: seq<Id>)

  /** Unsigned subtraction of ticks */
  function Minus(a: nat, b: nat): nat { (a - b) % WORD }

  /** The test that ends the search: `a` is behind `b`, by less than half of the range. */
  predicate Later(a: nat, b: nat) { Minus(a, b) != 0 && Minus(a, b) < HALF }

  predicate IsDue(now: nat, timeout: nat) { Minus(now, timeout) < HALF }

  /** The place of a timer that fires at `x`: before the first that fires later. */
  function Position(table: map<Id, Timer>, l: seq<Id>, x: nat): (k: nat)
    requires forall t :: t in l ==> t in table
    ensures k <= |l|
  {
    if l == [] || Later(table[l[0]].timeout, x) then 0 else 1 + Position(table, l[1..], x)
  }

  function InsertAt(l: seq<Id>, k: nat, t: Id): seq<Id>
    requires k <= |l|
  {
    l[..k] + [t] + l[k..]
  }

  /** `rt_timer_start` */
  function Start(s: Timers, t: Id): Timers
    requires t in s.table && forall u :: u in s.list ==> u in s.table
  {
    var x := (s.now + s.table[t].period) % WORD;
    var l := Without(s.list, t);
    s.(table := s.table[t := s.table[t].(timeout := x, active := true)], list := InsertAt(l, Position(s.table, l, x), t))
  }

  /** `rt_timer_stop`, and whether it succeeds */
  function Stop(s: Timers, t: Id): (Timers, bool)
    requires t in s.table
  {
    if !s.table[t].active then (s, false)
    else (s.(table := s.table[t := s.table[t].(active := false)], list := Without(s.list, t)), true)
  }

  // ----- time without wrapping -----

  /** The tick, counted without wrapping, that is nearest to `clock` and wraps to `timeout`. */
  function Due(clock: nat, timeout: nat): int {
    var d := (timeout - clock) % WORD;
    clock + if d < WORD / 2 then d else d - WORD
  }

  lemma DueUnique(clock: nat, timeout: nat, d: int)
    requires d % WORD == timeout && clock - WORD / 2 <= d < clock + WORD / 2
    ensures Due(clock, timeout) == d
  {
  }

  /** The wrapping comparison is the comparison of the true times when these are at most half of the
      range apart. */
  lemma LaterIs(clock: nat, a: nat, b: nat)
    requires a < WORD && b < WORD && 0 - HALF <= Due(clock, a) - Due(clock, b) <= HALF - 1
    ensures Later(a, b) <==> Due(clock, a) > Due(clock, b)
  {
  }

  lemma IsDueIs(clock: nat, timeout: nat)
    requires timeout < WORD && clock - 1 <= Due(clock, timeout) <= clock + HALF - 1
    ensures IsDue(clock % WORD, timeout) <==> Due(clock, timeout) <= clock
  {
  }

  lemma DueTick(clock: nat, timeout: nat)
    requires timeout < WORD && clock <= Due(clock, timeout) <= clock + HALF - 1
    ensures Due(clock + 1, timeout) == Due(clock, timeout)
  {
  }

  // ----- the invariant -----

  ghost predicate TableOk(table: map<Id, Timer>) {
    forall t :: t in table ==> table[t].period < WORD && table[t].timeout < WORD
  }

  ghost predicate Known(table: map<Id, Timer>, l: seq<Id>) { forall t :: t in l ==> t in table }

  /** The linked timers fire within half of the range from `lo` on. */
  ghost predicate Window(clock: nat, lo: int, table: map<Id, Timer>, l: seq<Id>)
    requires Known(table, l)
  {
    forall t :: t in l ==> lo <= Due(clock, table[t].timeout) <= clock + HALF - 1
  }

  ghost predicate Sorted(clock: nat, table: map<Id, Timer>, l: seq<Id>)
    requires Known(table, l)
  {
    forall i, j :: 0 <= i < j < |l| ==> Due(clock, table[l[i]].timeout) <= Due(clock, table[l[j]].timeout)
  }

  /** A timer may be one tick late in the check that will find it. */
  ghost predicate Inv(clock: nat, s: Timers) {
    && s.now == clock % WORD && TableOk(s.table) && NoDup(s.list) && Known(s.table, s.list)
    && Window(clock, clock - 1, s.table, s.list) && Sorted(clock, s.table, s.list)
  }

  /** Between two checks no timer is late. */
  ghost predicate AtRest(clock: nat, s: Timers) { Inv(clock, s) && Window(clock, clock, s.table, s.list) }

  // ----- inserting -----

  /** The timers before the place fire no later, those behind it fire later. */
  ghost predicate Splits(clock: nat, table: map<Id, Timer>, l: seq<Id>, k: nat, x: nat)
    requires Known(table, l)
  {
    && k <= |l|
    && (forall j :: 0 <= j < k ==> Due(clock, table[l[j]].timeout) <= Due(clock, x))
    && (forall j :: k <= j < |l| ==> Due(clock, table[l[j]].timeout) > Due(clock, x))
  }

  ghost predicate Near(clock: nat, x: nat) { x < WORD && clock <= Due(clock, x) <= clock + HALF - 1 }

  lemma {:induction false} PositionSplits(clock: nat, table: map<Id, Timer>, l: seq<Id>, x: nat)
    requires TableOk(table) && Known(table, l) && Window(clock, clock - 1, table, l) && Sorted(clock, table, l) && Near(clock, x)
    ensures Splits(clock, table, l, Position(table, l, x), x)
  {
    hide Later, Due;
    if l != [] {
      assert l[0] in l;
      LaterIs(clock, table[l[0]].timeout, x);
      if !Later(table[l[0]].timeout, x) {
        PositionSplits(clock, table, l[1..], x);
        SplitsCons(clock, table, l, Position(table, l[1..], x), x);
      }
    }
  }

  lemma SplitsCons(clock: nat, table: map<Id, Timer>, l: seq<Id>, k: nat, x: nat)
    requires Known(table, l) && l != [] && Splits(clock, table, l[1..], k, x) && Due(clock, table[l[0]].timeout) <= Due(clock, x)
    ensures Splits(clock, table, l, k + 1, x)
  {
    hide Due;
    forall j | 0 <= j < k + 1 ensures Due(clock, table[l[j]].timeout) <= Due(clock, x) { assert j > 0 ==> l[j] == l[1..][j - 1]; }
    forall j | k + 1 <= j < |l| ensures Due(clock, table[l[j]].timeout) > Due(clock, x) { assert l[j] == l[1..][j - 1]; }
  }

  /** A list sorted by the new table, with the timer put in at its place. */
  lemma InsertSorted(clock: nat, table: map<Id, Timer>, l: seq<Id>, k: nat, t: Id)
    requires Known(table, l) && Sorted(clock, table, l) && t in table && Splits(clock, table, l, k, table[t].timeout)
    ensures Known(table, InsertAt(l, k, t)) && Sorted(clock, table, InsertAt(l, k, t))
  {
    hide Due;
    var r := InsertAt(l, k, t);
    assert forall j {:trigger r[j]} :: 0 <= j < |r| ==> r[j] == if j < k then l[j] else if j == k then t else l[j - 1];
  }

  lemma InsertNoDup(l: seq<Id>, k: nat, t: Id)
    requires NoDup(l) && t !in l && k <= |l|
    ensures NoDup(InsertAt(l, k, t)) && forall u :: u in InsertAt(l, k, t) <==> u in l || u == t
  {
    var r := InsertAt(l, k, t);
    assert forall j {:trigger r[j]} :: 0 <= j < |r| ==> r[j] == if j < k then l[j] else if j == k then t else l[j - 1];
    forall u | u in l ensures u in r { var i :| 0 <= i < |l| && l[i] == u; assert r[if i < k then i else i + 1] == u; }
  }

  /** Taking a timer out keeps the order of the others. */
  lemma WithoutSorted(clock: nat, table: map<Id, Timer>, l: seq<Id>, t: Id)
    requires NoDup(l) && Known(table, l) && Sorted(clock, table, l)
    ensures var r := Without(l, t); NoDup(r) && Known(table, r) && Sorted(clock, table, r)
  {
    hide Due;
    WithoutKeepsNoDup(l, t);
    if t in l { WithoutIndex(l, IndexOf(l, t)); }
  }

  /** The order of a list that does not have `t` does not depend on the entry of `t`. */
  lemma EntryUnseen(clock: nat, lo: int, table: map<Id, Timer>, l: seq<Id>, t: Id, entry: Timer)
    requires Known(table, l) && t !in l && Sorted(clock, table, l) && Window(clock, lo, table, l)
    ensures Known(table[t := entry], l) && Sorted(clock, table[t := entry], l) && Window(clock, lo, table[t := entry], l)
  {
    hide Due;
  }

  lemma StartDue(clock: nat, period: nat)
    requires period < HALF
    ensures Near(clock, (clock % WORD + period) % WORD) && Due(clock, (clock % WORD + period) % WORD) == clock + period
  {
  }

  /** Starting a timer puts it behind all that fire no later, so timers that fire at the same time
      keep the order in which they were started. */
  lemma StartKeeps(clock: nat, lo: int, s: Timers, t: Id)
    requires Inv(clock, s) && t in s.table && s.table[t].period < HALF && clock - 1 <= lo <= clock && Window(clock, lo, s.table, s.list)
    ensures var r := Start(s, t); Inv(clock, r) && Window(clock, lo, r.table, r.list)
    ensures var r := Start(s, t); Due(clock, r.table[t].timeout) == clock + s.table[t].period
    ensures var r := Start(s, t); forall u :: u in r.list <==> u in s.list || u == t
    ensures var r, l := Start(s, t), Without(s.list, t);
      exists k :: Splits(clock, r.table, l, k, r.table[t].timeout) && r.list == InsertAt(l, k, t)
  {
    hide Due, Later, Splits, Sorted, InsertAt, NoDup;
    var r, l := Start(s, t), Without(s.list, t);
    var x := r.table[t].timeout;
    StartDue(clock, s.table[t].period);
    WithoutSorted(clock, s.table, s.list, t);
    var k := Position(s.table, l, x);
    PositionSplits(clock, s.table, l, x);
    EntryUnseen(clock, lo, s.table, l, t, r.table[t]);
    SplitsUnseen(clock, s.table, l, k, x, t, r.table[t]);
    InsertSorted(clock, r.table, l, k, t);
    InsertNoDup(l, k, t);
    assert Splits(clock, r.table, l, k, x) && r.list == InsertAt(l, k, t);
  }

  lemma SplitsUnseen(clock: nat, table: map<Id, Timer>, l: seq<Id>, k: nat, x: nat, t: Id, entry: Timer)
    requires Known(table, l) && t !in l && Splits(clock, table, l, k, x)
    ensures Known(table[t := entry], l) && Splits(clock, table[t := entry], l, k, x)
  {
    hide Due;
  }

  lemma UnlinkKeeps(clock: nat, lo: int, s: Timers, t: Id)
    requires Inv(clock, s) && Window(clock, lo, s.table, s.list)
    ensures var r := s.(list := Without(s.list, t)); Inv(clock, r) && Window(clock, lo, r.table, r.list)
  {
    hide Due, Sorted, NoDup;
    WithoutSorted(clock, s.table, s.list, t);
  }

  /** A change of an entry that leaves the timeout alone. */
  lemma EntryKeeps(clock: nat, lo: int, s: Timers, t: Id, entry: Timer)
    requires Inv(clock, s) && Window(clock, lo, s.table, s.list) && t in s.table
    requires entry.timeout == s.table[t].timeout && entry.period < WORD
    ensures var r := s.(table := s.table[t := entry]); Inv(clock, r) && Window(clock, lo, r.table, r.list)
  {
    hide Due;
  }

  // ----- operations -----

  /** What threads and timeout functions do with timers. */
  datatype Op = DoStart(t: Id) | DoStop(t: Id) | SetTime(t: Id, period: nat) | SetPeriodic(t: Id, periodic: bool)

  /** Periods are 32-bit words, and a timer that is started has one below half of the range, as the
      function asserts. */
  predicate Fits(s: Timers, op: Op) {
    && op.t in s.table
    && match op
       case DoStart(t) => s.table[t].period < HALF
       case DoStop(t) => true
       case SetTime(t, p) => p < WORD
       case SetPeriodic(t, b) => true
  }

  /** An operation outside the premises is not part of a run. */
  function Do(s: Timers, op: Op): (r: Timers)
    requires forall u :: u in s.list ==> u in s.table
    ensures forall u :: u in r.list ==> u in r.table
    ensures r.table.Keys == s.table.Keys && r.now == s.now
  {
    if !Fits(s, op) then s
    else
      match op
      case DoStart(t) => Start(s, t)
      case DoStop(t) => Stop(s, t).0
      case SetTime(t, p) => s.(table := s.table[t := s.table[t].(period := p)])
      case SetPeriodic(t, b) => s.(table := s.table[t := s.table[t].(periodic := b)])
  }

  lemma DoKeeps(clock: nat, lo: int, s: Timers, op: Op)
    requires Inv(clock, s) && Window(clock, lo, s.table, s.list) && clock - 1 <= lo <= clock
    ensures var r := Do(s, op); Inv(clock, r) && Window(clock, lo, r.table, r.list)
  {
    hide Inv, Window, Start;
    if Fits(s, op) {
      EntriesOk(clock, s, op.t);
      match op {
        case DoStart(t) => StartKeeps(clock, lo, s, t);
        case DoStop(t) =>
          EntryKeeps(clock, lo, s, t, s.table[t].(active := false));
          UnlinkKeeps(clock, lo, s.(table := s.table[t := s.table[t].(active := false)]), t);
        case SetTime(t, p) => EntryKeeps(clock, lo, s, t, s.table[t].(period := p));
        case SetPeriodic(t, b) => EntryKeeps(clock, lo, s, t, s.table[t].(periodic := b));
      }
    }
  }

  lemma EntriesOk(clock: nat, s: Timers, t: Id)
    requires Inv(clock, s) && t in s.table
    ensures s.table[t].period < WORD && s.table[t].timeout < WORD
  {
  }

  lemma LinkedKnown(clock: nat, s: Timers)
    requires Inv(clock, s)
    ensures Known(s.table, s.list) && Window(clock, clock - 1, s.table, s.list)
  {
  }

  ghost function DoAll(s: Timers, ops: seq<Op>): (r: Timers)
    requires Known(s.table, s.list)
    ensures Known(r.table, r.list) && r.table.Keys == s.table.Keys && r.now == s.now
    decreases ops
  {
    if ops == [] then s else DoAll(Do(s, ops[0]), ops[1..])
  }

  lemma {:induction false} AllKeeps(clock: nat, s: Timers, ops: seq<Op>)
    requires Inv(clock, s)
    ensures Known(s.table, s.list) && Inv(clock, DoAll(s, ops))
    decreases ops
  {
    hide Inv, Do;
    LinkedKnown(clock, s);
    if ops != [] {
      DoKeeps(clock, clock - 1, s, ops[0]);
      AllKeeps(clock, Do(s, ops[0]), ops[1..]);
    }
  }

  // ----- rt_timer_check -----

  /** After its function has run, a periodic timer that is still active is started again; any other
      is marked inactive. */
  function Finish(s: Timers, t: Id): (r: Timers)
    requires t in s.table && forall u :: u in s.list ==> u in s.table
    ensures forall u :: u in r.list ==> u in r.table
    ensures r.table.Keys == s.table.Keys && r.now == s.now
  {
    var off := s.(table := s.table[t := s.table[t].(active := false)]);
    if s.table[t].periodic && s.table[t].active then Start(off, t) else off
  }

  /** What is asserted when the timer is started again */
  predicate CanFinish(s: Timers, t: Id)
    requires t in s.table
  {
    s.table[t].periodic && s.table[t].active ==> s.table[t].period < HALF
  }

  /** The first timer is unlinked and its function runs. */
  ghost function CallBack(s: Timers, ops: seq<Op>): (r: Timers)
    requires Known(s.table, s.list) && s.list != []
    ensures Known(r.table, r.list) && s.list[0] in r.table && r.now == s.now
  {
    DoAll(s.(list := Without(s.list, s.list[0])), ops)
  }

  ghost predicate CanFire(s: Timers, ops: seq<Op>)
    requires Known(s.table, s.list) && s.list != []
  {
    CanFinish(CallBack(s, ops), s.list[0])
  }

  ghost function Fire(s: Timers, ops: seq<Op>): (r: Timers)
    requires Known(s.table, s.list) && s.list != []
    ensures Known(r.table, r.list) && r.now == s.now
  {
    Finish(CallBack(s, ops), s.list[0])
  }

  lemma FinishKeeps(clock: nat, s: Timers, t: Id)
    requires Inv(clock, s) && t in s.table && CanFinish(s, t)
    ensures Known(s.table, s.list) && Inv(clock, Finish(s, t))
  {
    hide Inv, Start;
    EntriesOk(clock, s, t);
    LinkedKnown(clock, s);
    var off := s.(table := s.table[t := s.table[t].(active := false)]);
    EntryKeeps(clock, clock - 1, s, t, s.table[t].(active := false));
    if s.table[t].periodic && s.table[t].active { StartKeeps(clock, clock - 1, off, t); }
  }

  lemma CallBackKeeps(clock: nat, s: Timers, ops: seq<Op>)
    requires Inv(clock, s) && s.list != []
    ensures Known(s.table, s.list) && Inv(clock, CallBack(s, ops))
  {
    hide Inv, DoAll;
    LinkedKnown(clock, s);
    UnlinkKeeps(clock, clock - 1, s, s.list[0]);
    AllKeeps(clock, s.(list := Without(s.list, s.list[0])), ops);
  }

  lemma FireKeeps(clock: nat, s: Timers, ops: seq<Op>)
    requires Inv(clock, s) && s.list != [] && Known(s.table, s.list) && CanFire(s, ops)
    ensures Inv(clock, Fire(s, ops))
  {
    hide Inv, CallBack, Finish;
    CallBackKeeps(clock, s, ops);
    FinishKeeps(clock, CallBack(s, ops), s.list[0]);
  }

  lemma StopKeeps(clock: nat, s: Timers, t: Id)
    requires Inv(clock, s) && t in s.table
    ensures Inv(clock, Stop(s, t).0)
  {
    hide Inv;
    LinkedKnown(clock, s);
    EntriesOk(clock, s, t);
    EntryKeeps(clock, clock - 1, s, t, s.table[t].(active := false));
    UnlinkKeeps(clock, clock - 1, s.(table := s.table[t := s.table[t].(active := false)]), t);
  }

  ghost function DueTimers(clock: nat, s: Timers): set<Id>
    requires Known(s.table, s.list)
  {
    set t | t in s.list && Due(clock, s.table[t].timeout) <= clock
  }

  ghost predicate HeadDue(s: Timers)
    requires Known(s.table, s.list)
  {
    s.list != [] && IsDue(s.now, s.table[s.list[0]].timeout)
  }

  function FirstOps(script: seq<seq<Op>>): seq<Op> { if script == [] then [] else script[0] }

  function RestOps(script: seq<seq<Op>>): seq<seq<Op>> { if script == [] then [] else script[1..] }

  /** `fired`: the timers whose functions have run; `done`: the loop has ended. */
  datatype Checked = Checked(s: Timers, fired: seq<Id>, done: bool)

  /** At most `n` rounds of the loop of `rt_timer_check`.  `script` says what the functions do, one after
      the other; when it is used up they do nothing.  An assertion that fails ends the rounds, but not
      the loop. */
  ghost function Rounds(s: Timers, script: seq<seq<Op>>, n: nat): (c: Checked)
    requires Known(s.table, s.list)
    ensures Known(c.s.table, c.s.list) && |c.fired| <= n
    decreases n
  {
    if !HeadDue(s) then Checked(s, [], true)
    else if n == 0 || !CanFire(s, FirstOps(script)) then Checked(s, [], false)
    else
      var c := Rounds(Fire(s, FirstOps(script)), RestOps(script), n - 1);
      c.(fired := [s.list[0]] + c.fired)
  }

  /** The loop ends. */
  ghost predicate Ends(s: Timers, script: seq<seq<Op>>)
    requires Known(s.table, s.list)
  {
    exists n: nat :: Rounds(s, script, n).done
  }

  /** `rt_timer_check`, when its loop ends */
  ghost function Check(s: Timers, script: seq<seq<Op>>): (Timers, seq<Id>)
    requires Known(s.table, s.list) && Ends(s, script)
  {
    var n: nat :| Rounds(s, script, n).done;
    (Rounds(s, script, n).s, Rounds(s, script, n).fired)
  }

  lemma {:induction false} MoreRounds(s: Timers, script: seq<seq<Op>>, m: nat, n: nat)
    requires Known(s.table, s.list) && Rounds(s, script, m).done && m <= n
    ensures Rounds(s, script, n) == Rounds(s, script, m)
    decreases m
  {
    hide Fire, CanFire, IsDue;
    if HeadDue(s) { MoreRounds(Fire(s, FirstOps(script)), RestOps(script), m - 1, n - 1); }
  }

  /** Any number of rounds in which the loop ends gives its result. */
  lemma CheckIs(s: Timers, script: seq<seq<Op>>, n: nat)
    requires Known(s.table, s.list) && Rounds(s, script, n).done
    ensures Ends(s, script) && Check(s, script) == (Rounds(s, script, n).s, Rounds(s, script, n).fired)
  {
    hide Rounds;
    var m: nat :| Rounds(s, script, m).done && Check(s, script) == (Rounds(s, script, m).s, Rounds(s, script, m).fired);
    if m <= n { MoreRounds(s, script, m, n); } else { MoreRounds(s, script, n, m); }
  }

  /** The test of the first timer decides whether any timer is due. */
  lemma HeadDecides(clock: nat, s: Timers)
    requires Inv(clock, s)
    ensures Known(s.table, s.list)
    ensures HeadDue(s) <==> s.list != [] && s.list[0] in DueTimers(clock, s)
    ensures !HeadDue(s) ==> AtRest(clock, s) && forall t :: t in s.list ==> Due(clock, s.table[t].timeout) > clock
  {
    hide Due, IsDue;
    if s.list != [] {
      assert s.list[0] in s.list;
      IsDueIs(clock, s.table[s.list[0]].timeout);
      if !HeadDue(s) {
        forall t | t in s.list ensures Due(clock, s.table[t].timeout) > clock {
          var i :| 0 <= i < |s.list| && s.list[i] == t;
          assert i > 0 ==> Due(clock, s.table[s.list[0]].timeout) <= Due(clock, s.table[s.list[i]].timeout);
        }
      }
    }
  }

  /** The rounds keep the invariant, and when the loop has ended no timer is due. */
  lemma {:induction false} RoundsKeep(clock: nat, s: Timers, script: seq<seq<Op>>, n: nat)
    requires Inv(clock, s)
    ensures Known(s.table, s.list)
    ensures var c := Rounds(s, script, n);
      Inv(clock, c.s) && (c.done ==> AtRest(clock, c.s) && forall t :: t in c.s.list ==> Due(clock, c.s.table[t].timeout) > clock)
    decreases n
  {
    hide Inv, Due, Fire, CanFire, IsDue, DueTimers;
    LinkedKnown(clock, s);
    HeadDecides(clock, s);
    if HeadDue(s) && n > 0 && CanFire(s, FirstOps(script)) {
      FireKeeps(clock, s, FirstOps(script));
      RoundsKeep(clock, Fire(s, FirstOps(script)), RestOps(script), n - 1);
    }
  }

  /** After a check no timer is due. */
  lemma CheckRests(clock: nat, s: Timers, script: seq<seq<Op>>)
    requires Inv(clock, s) && Known(s.table, s.list) && Ends(s, script)
    ensures var r := Check(s, script).0; AtRest(clock, r) && forall t :: t in r.list ==> Due(clock, r.table[t].timeout) > clock
  {
    hide Inv, Due, Rounds;
    var n: nat :| Rounds(s, script, n).done;
    CheckIs(s, script, n);
    RoundsKeep(clock, s, script, n);
  }

  // ----- termination -----

  /** Every period is positive and below half of the range, and stays so. */
  ghost predicate Positive(s: Timers) { forall t :: t in s.table ==> 0 < s.table[t].period < HALF }

  ghost predicate OpsPositive(ops: seq<Op>) { forall i :: 0 <= i < |ops| && ops[i].SetTime? ==> 0 < ops[i].period < HALF }

  ghost predicate ScriptPositive(script: seq<seq<Op>>) { forall i :: 0 <= i < |script| ==> OpsPositive(script[i]) }

  lemma StartTable(s: Timers, t: Id)
    requires t in s.table && Known(s.table, s.list)
    ensures var r := Start(s, t); r.now == s.now && r.table == s.table[t := s.table[t].(timeout := (s.now + s.table[t].period) % WORD, active := true)]
  {
  }

  lemma StartDues(clock: nat, s: Timers, t: Id)
    requires Inv(clock, s) && t in s.table && 0 < s.table[t].period < HALF
    ensures Known(s.table, s.list) && Inv(clock, Start(s, t)) && Known(Start(s, t).table, Start(s, t).list)
    ensures DueTimers(clock, Start(s, t)) <= DueTimers(clock, s) && t !in DueTimers(clock, Start(s, t))
  {
    hide Due, Inv, Start, Position, Window;
    LinkedKnown(clock, s);
    StartKeeps(clock, clock - 1, s, t);
    LinkedKnown(clock, Start(s, t));
    StartTable(s, t);
  }

  lemma DoDues(clock: nat, s: Timers, op: Op)
    requires Inv(clock, s) && Positive(s) && OpsPositive([op])
    ensures Known(s.table, s.list) && Inv(clock, Do(s, op)) && Positive(Do(s, op)) && DueTimers(clock, Do(s, op)) <= DueTimers(clock, s)
  {
    hide Due, Inv, Window, Start;
    LinkedKnown(clock, s);
    DoKeeps(clock, clock - 1, s, op);
    assert [op][0] == op;
    if op.DoStart? && Fits(s, op) {
      StartDues(clock, s, op.t);
      StartTable(s, op.t);
    }
  }

  lemma {:induction false} AllDues(clock: nat, s: Timers, ops: seq<Op>)
    requires Inv(clock, s) && Positive(s) && OpsPositive(ops)
    ensures Known(s.table, s.list)
    ensures var r := DoAll(s, ops); Inv(clock, r) && Positive(r) && DueTimers(clock, r) <= DueTimers(clock, s)
    decreases ops
  {
    hide Inv, DueTimers, Positive, Do;
    LinkedKnown(clock, s);
    if ops != [] {
      assert ops == [ops[0]] + ops[1..];
      DoDues(clock, s, ops[0]);
      AllDues(clock, Do(s, ops[0]), ops[1..]);
    }
  }

  lemma FinishDues(clock: nat, s: Timers, t: Id)
    requires Inv(clock, s) && t in s.table && Known(s.table, s.list) && t !in DueTimers(clock, s) && Positive(s)
    ensures CanFinish(s, t) && Inv(clock, Finish(s, t)) && Positive(Finish(s, t))
    ensures DueTimers(clock, Finish(s, t)) <= DueTimers(clock, s)
  {
    hide Due, Inv, Window, Start;
    LinkedKnown(clock, s);
    EntriesOk(clock, s, t);
    FinishKeeps(clock, s, t);
    var off := s.(table := s.table[t := s.table[t].(active := false)]);
    EntryKeeps(clock, clock - 1, s, t, s.table[t].(active := false));
    if s.table[t].periodic && s.table[t].active {
      StartDues(clock, off, t);
      StartTable(off, t);
    }
  }

  lemma UnlinkDues(clock: nat, s: Timers)
    requires Inv(clock, s) && s.list != []
    ensures Known(s.table, s.list)
    ensures var u := s.(list := Without(s.list, s.list[0])); Inv(clock, u) && DueTimers(clock, u) == DueTimers(clock, s) - {s.list[0]}
  {
    hide Due, Inv, Window;
    LinkedKnown(clock, s);
    UnlinkKeeps(clock, clock - 1, s, s.list[0]);
  }

  /** With positive periods every round leaves fewer timers due, whatever the functions do. */
  lemma FireShrinks(clock: nat, s: Timers, ops: seq<Op>)
    requires Inv(clock, s) && Known(s.table, s.list) && HeadDue(s) && Positive(s) && OpsPositive(ops)
    ensures CanFire(s, ops)
    ensures var r := Fire(s, ops); Inv(clock, r) && Positive(r) && DueTimers(clock, r) < DueTimers(clock, s)
  {
    hide DueTimers, Due, IsDue, Inv, Positive, Finish, CanFinish, DoAll;
    HeadDecides(clock, s);
    UnlinkDues(clock, s);
    var u := s.(list := Without(s.list, s.list[0]));
    UnlinkPositive(s, u);
    AllDues(clock, u, ops);
    FinishDues(clock, CallBack(s, ops), s.list[0]);
    assert s.list[0] in DueTimers(clock, s);
  }

  lemma UnlinkPositive(s: Timers, u: Timers)
    requires Positive(s) && u.table == s.table
    ensures Positive(u)
  {
  }

  /** With positive periods a check runs at most as many functions as there are timers due at its start,
      whatever these functions start, stop or set, and as many rounds are enough. */
  lemma {:induction false} CheckTerminates(clock: nat, s: Timers, script: seq<seq<Op>>, n: nat)
    requires Inv(clock, s) && Positive(s) && ScriptPositive(script)
    ensures Known(s.table, s.list)
    ensures var c := Rounds(s, script, n);
      |c.fired| <= |DueTimers(clock, s)| && (n >= |DueTimers(clock, s)| ==> c.done) && Positive(c.s)
    decreases n
  {
    hide DueTimers, Due, IsDue, Fire, CanFire, Inv, Positive, OpsPositive;
    LinkedKnown(clock, s);
    if HeadDue(s) {
      ScriptPositiveOn(script);
      FireShrinks(clock, s, FirstOps(script));
      var r := Fire(s, FirstOps(script));
      Smaller(DueTimers(clock, r), DueTimers(clock, s));
      if n > 0 { CheckTerminates(clock, r, RestOps(script), n - 1); }
    }
  }

  lemma ScriptPositiveOn(script: seq<seq<Op>>)
    requires ScriptPositive(script)
    ensures OpsPositive(FirstOps(script)) && ScriptPositive(RestOps(script))
  {
  }

  lemma Smaller(a: set<Id>, b: set<Id>)
    requires a < b
    ensures |a| < |b|
  {
    var c := b - a;
    assert b == a + c && c != {};
  }

  /** Every function does nothing but start timer `t`. */
  function Restarts(t: Id, n: nat): seq<seq<Op>> { seq(n, _ => [DoStart(t)]) }

  ghost predicate HalfRange(s: Timers) { forall t :: t in s.table ==> s.table[t].period < HALF }

  /** A round in which the function starts a timer of period 0 leaves that timer due. */
  lemma RestartDue(clock: nat, s: Timers, t: Id)
    requires Inv(clock, s) && Known(s.table, s.list) && HeadDue(s) && HalfRange(s) && t in s.table && s.table[t].period == 0
    ensures CanFire(s, [DoStart(t)])
    ensures var r := Fire(s, [DoStart(t)]); Inv(clock, r) && HeadDue(r) && HalfRange(r) && t in r.table && r.table[t].period == 0
  {
    hide Inv, Due, Start, IsDue;
    var h := s.list[0];
    var u := s.(list := Without(s.list, h));
    LinkedKnown(clock, s);
    UnlinkKeeps(clock, clock - 1, s, h);
    assert [DoStart(t)][1..] == [];
    var c := CallBack(s, [DoStart(t)]);
    assert c == Start(u, t) by { assert DoAll(u, [DoStart(t)]) == DoAll(Do(u, DoStart(t)), []); }
    StartKeeps(clock, clock - 1, u, t);
    StartTable(u, t);
    StillDue(clock, c, h, t);
    HeadDecides(clock, Fire(s, [DoStart(t)]));
  }

  /** Finishing a round leaves a due timer of period 0 that was linked due. */
  lemma StillDue(clock: nat, c: Timers, h: Id, t: Id)
    requires Inv(clock, c) && Known(c.table, c.list) && h in c.table && CanFinish(c, h) && t in c.list
    requires Due(clock, c.table[t].timeout) == clock && c.table[t].period == 0
    ensures var r := Finish(c, h); Inv(clock, r) && Known(r.table, r.list) && t in r.list && t in DueTimers(clock, r)
    ensures var r := Finish(c, h); forall u :: u in c.table ==> r.table[u].period == c.table[u].period && r.table[u].periodic == c.table[u].periodic
  {
    hide Inv, Due, Start;
    LinkedKnown(clock, c);
    FinishKeeps(clock, c, h);
    EntriesOk(clock, c, h);
    var off := c.(table := c.table[h := c.table[h].(active := false)]);
    EntryKeeps(clock, clock - 1, c, h, c.table[h].(active := false));
    if c.table[h].periodic && c.table[h].active {
      StartKeeps(clock, clock - 1, off, h);
      StartTable(off, h);
    }
  }

  lemma {:induction false} ZeroPeriodSpins(clock: nat, s: Timers, t: Id, n: nat)
    requires Inv(clock, s) && Known(s.table, s.list) && HeadDue(s) && HalfRange(s) && t in s.table && s.table[t].period == 0
    ensures |Rounds(s, Restarts(t, n), n).fired| == n
    decreases n
  {
    hide Inv, Fire, CanFire, IsDue, HalfRange;
    if n > 0 {
      assert Restarts(t, n)[0] == [DoStart(t)] && Restarts(t, n)[1..] == Restarts(t, n - 1);
      RestartDue(clock, s, t);
      ZeroPeriodSpins(clock, Fire(s, [DoStart(t)]), t, n - 1);
    }
  }

  /** There is a bound on the functions that a check runs, whatever they do short of setting a period
      to 0. */
  ghost predicate Bounded(s: Timers)
    requires Known(s.table, s.list)
  {
    exists b: nat :: RunsAtMost(s, b)
  }

  ghost predicate RunsAtMost(s: Timers, b: nat)
    requires Known(s.table, s.list)
  {
    forall script, n: nat :: ScriptPositive(script) ==> |Rounds(s, script, n).fired| <= b
  }

  /** When a timer is due, the check has such a bound exactly when no timer has period 0. */
  lemma CheckBounded(clock: nat, s: Timers)
    requires Inv(clock, s) && Known(s.table, s.list) && HeadDue(s) && HalfRange(s)
    ensures Bounded(s) <==> forall t :: t in s.table ==> s.table[t].period > 0
  {
    hide Inv, Rounds, HeadDue, ScriptPositive;
    if t :| t in s.table && s.table[t].period == 0 {
      forall b: nat ensures !RunsAtMost(s, b) {
        ZeroPeriodSpins(clock, s, t, b + 1);
        RestartsPositive(t, b + 1);
      }
    } else {
      var b := |DueTimers(clock, s)|;
      forall script, n: nat | ScriptPositive(script) ensures |Rounds(s, script, n).fired| <= b { CheckTerminates(clock, s, script, n); }
      assert RunsAtMost(s, b);
    }
  }

  lemma RestartsPositive(t: Id, n: nat)
    ensures ScriptPositive(Restarts(t, n))
  {
  }

  // ----- the active flag -----

  /** The flag says which timers are linked. */
  ghost predicate FlagsOk(s: Timers) { forall t :: t in s.table ==> (s.table[t].active <==> t in s.list) }

  /** The flags of all timers but the one whose function runs. */
  ghost predicate OtherFlagsOk(s: Timers, t: Id) {
    && (forall u :: u in s.table && u != t ==> (s.table[u].active <==> u in s.list))
    && (t in s.table && t in s.list ==> s.table[t].active)
  }

  lemma DoFlags(clock: nat, s: Timers, op: Op, t: Id)
    requires Inv(clock, s) && OtherFlagsOk(s, t)
    ensures Known(s.table, s.list) && OtherFlagsOk(Do(s, op), t)
  {
    hide Inv, Start;
    LinkedKnown(clock, s);
    if Fits(s, op) && op.DoStart? {
      StartKeeps(clock, clock - 1, s, op.t);
      StartTable(s, op.t);
    }
  }

  lemma {:induction false} AllFlags(clock: nat, s: Timers, ops: seq<Op>, t: Id)
    requires Inv(clock, s) && OtherFlagsOk(s, t)
    ensures Known(s.table, s.list) && OtherFlagsOk(DoAll(s, ops), t)
    decreases ops
  {
    hide Inv, Do, OtherFlagsOk;
    LinkedKnown(clock, s);
    if ops != [] {
      DoKeeps(clock, clock - 1, s, ops[0]);
      DoFlags(clock, s, ops[0], t);
      AllFlags(clock, Do(s, ops[0]), ops[1..], t);
    }
  }

  /** Outside the check the flag of every timer says whether it is linked. */
  lemma DoKeepsFlags(clock: nat, s: Timers, op: Op)
    requires Inv(clock, s) && FlagsOk(s)
    ensures Known(s.table, s.list) && FlagsOk(Do(s, op))
  {
    hide Inv, Start;
    LinkedKnown(clock, s);
    if Fits(s, op) && op.DoStart? {
      StartKeeps(clock, clock - 1, s, op.t);
      StartTable(s, op.t);
    }
  }

  /** The function of the timer that fires leaves it started although it is not periodic. */
  ghost predicate LeavesStarted(s: Timers, ops: seq<Op>)
    requires Known(s.table, s.list) && s.list != []
  {
    var c := CallBack(s, ops); s.list[0] in c.list && !c.table[s.list[0]].periodic
  }

  /** After a timer has fired the flags are right, except when it is not periodic and its function has
      left it started: it is then linked, but marked inactive. */
  lemma FireKeepsFlags(clock: nat, s: Timers, ops: seq<Op>)
    requires Inv(clock, s) && Known(s.table, s.list) && s.list != [] && FlagsOk(s) && CanFire(s, ops)
    ensures FlagsOk(Fire(s, ops)) <==> !LeavesStarted(s, ops)
  {
    hide Inv, Start, DoAll;
    var t := s.list[0];
    LinkedKnown(clock, s);
    var u := s.(list := Without(s.list, t));
    UnlinkKeeps(clock, clock - 1, s, t);
    AllFlags(clock, u, ops, t);
    var c := CallBack(s, ops);
    CallBackKeeps(clock, s, ops);
    LinkedKnown(clock, c);
    EntriesOk(clock, c, t);
    var off := c.(table := c.table[t := c.table[t].(active := false)]);
    EntryKeeps(clock, clock - 1, c, t, c.table[t].(active := false));
    if c.table[t].periodic && c.table[t].active {
      StartKeeps(clock, clock - 1, off, t);
      StartTable(off, t);
    }
    assert t in off.table && !off.table[t].active;
  }

  /** Such a timer cannot be stopped any more: `rt_timer_stop` reports an error and leaves it linked. */
  lemma RestartedCannotStop(period: nat, now: nat)
    requires 0 < period < HALF && now < WORD
    ensures var s := Timers(now, map[0 := Timer(period, now, false, true)], [0]);
      && AtRest(now, s) && FlagsOk(s)
      && var r := Fire(s, [DoStart(0)]); r.list == [0] && Stop(r, 0) == (r, false)
  {
    var s := Timers(now, map[0 := Timer(period, now, false, true)], [0]);
    assert s.list[0] == 0 && Without(s.list, 0) == [];
    assert Due(now, now) == now by { DueUnique(now, now, now); }
    var u := s.(list := []);
    assert Without(u.list, 0) == [] && InsertAt([], 0, 0) == [0];
    assert DoAll(u, [DoStart(0)]) == Do(u, DoStart(0)) by { assert [DoStart(0)][1..] == []; }
  }

  /** In all states of the rounds the flags are right. */
  ghost predicate FlagsInRounds(s: Timers, script: seq<seq<Op>>, n: nat)
    requires Known(s.table, s.list)
    decreases n
  {
    FlagsOk(s) && (HeadDue(s) && n > 0 && CanFire(s, FirstOps(script)) ==>
      FlagsInRounds(Fire(s, FirstOps(script)), RestOps(script), n - 1))
  }

  /** Some function leaves its one-shot timer started. */
  ghost predicate SomeLeavesStarted(s: Timers, script: seq<seq<Op>>, n: nat)
    requires Known(s.table, s.list)
    decreases n
  {
    HeadDue(s) && n > 0 && CanFire(s, FirstOps(script))
    && (LeavesStarted(s, FirstOps(script)) || SomeLeavesStarted(Fire(s, FirstOps(script)), RestOps(script), n - 1))
  }

  lemma {:induction false} RoundsKeepFlags(clock: nat, s: Timers, script: seq<seq<Op>>, n: nat)
    requires Inv(clock, s) && FlagsOk(s)
    ensures Known(s.table, s.list)
    ensures FlagsInRounds(s, script, n) <==> !SomeLeavesStarted(s, script, n)
    ensures FlagsInRounds(s, script, n) ==> FlagsOk(Rounds(s, script, n).s)
    decreases n
  {
    hide Inv, Fire, CanFire, IsDue, FlagsOk, LeavesStarted;
    LinkedKnown(clock, s);
    if HeadDue(s) && n > 0 && CanFire(s, FirstOps(script)) {
      FireKeeps(clock, s, FirstOps(script));
      FireKeepsFlags(clock, s, FirstOps(script));
      var r := Fire(s, FirstOps(script));
      if FlagsOk(r) { RoundsKeepFlags(clock, r, RestOps(script), n - 1); } else { NotInRounds(r, RestOps(script), n - 1); }
    }
  }

  lemma NotInRounds(s: Timers, script: seq<seq<Op>>, n: nat)
    requires Known(s.table, s.list) && !FlagsOk(s)
    ensures !FlagsInRounds(s, script, n)
  {
  }

  // ----- whole runs -----

  /** A call of a thread, or a tick; during a tick the functions of the timers that fire do what the
      script says. */
  datatype Event = Call(op: Op) | Tick(script: seq<seq<Op>>)

  function NextNow(s: Timers): Timers { s.(now := (s.now + 1) % WORD) }

  lemma NextTick(clock: nat, s: Timers)
    requires AtRest(clock, s)
    ensures Known(s.table, s.list) && Inv(clock + 1, NextNow(s))
    ensures forall t :: t in s.list ==> Due(clock + 1, s.table[t].timeout) == Due(clock, s.table[t].timeout)
  {
    hide Due;
    forall t | t in s.list ensures Due(clock + 1, s.table[t].timeout) == Due(clock, s.table[t].timeout) {
      DueTick(clock, s.table[t].timeout);
    }
  }

  /** The timers' part of `rt_tick_increase`, when the check ends */
  ghost function TickOf(s: Timers, script: seq<seq<Op>>): (r: (Timers, seq<Id>))
    requires Known(s.table, s.list) && Ends(NextNow(s), script)
    ensures Known(r.0.table, r.0.list)
  {
    Check(NextNow(s), script)
  }

  lemma TickRests(clock: nat, s: Timers, script: seq<seq<Op>>)
    requires AtRest(clock, s) && Known(s.table, s.list) && Ends(NextNow(s), script)
    ensures AtRest(clock + 1, TickOf(s, script).0)
  {
    hide Inv, Due, Check, Ends;
    NextTick(clock, s);
    CheckRests(clock + 1, NextNow(s), script);
  }

  /** All checks of the run end. */
  ghost predicate RunEnds(s: Timers, events: seq<Event>)
    requires Known(s.table, s.list)
    decreases |events|
  {
    events == [] ||
    match events[0]
    case Call(op) => RunEnds(Do(s, op), events[1..])
    case Tick(script) => Ends(NextNow(s), script) && RunEnds(TickOf(s, script).0, events[1..])
  }

  /** The timers after a run, and what has fired in each tick. */
  datatype Trace = Trace(s: Timers, log: seq<seq<Id>>)

  ghost function Run(s: Timers, events: seq<Event>): (r: Trace)
    requires Known(s.table, s.list) && RunEnds(s, events)
    decreases |events|
  {
    if events == [] then Trace(s, [])
    else
      match events[0]
      case Call(op) => Run(Do(s, op), events[1..])
      case Tick(script) =>
        var (u, fired) := TickOf(s, script);
        var r := Run(u, events[1..]);
        r.(log := [fired] + r.log)
  }

  function Ticks(events: seq<Event>): nat {
    if events == [] then 0 else (if events[0].Tick? then 1 else 0) + Ticks(events[1..])
  }

  /** The log has an entry for each tick, and between the checks no timer is late. */
  lemma {:induction false} RunRests(clock: nat, s: Timers, events: seq<Event>)
    requires AtRest(clock, s) && Known(s.table, s.list) && RunEnds(s, events)
    ensures var r := Run(s, events); |r.log| == Ticks(events) && AtRest(clock + Ticks(events), r.s)
    decreases |events|
  {
    hide AtRest, Inv, Do, TickOf, Ends;
    if events != [] {
      match events[0] {
        case Call(op) =>
          RestDo(clock, s, op);
          RunRests(clock, Do(s, op), events[1..]);
        case Tick(script) =>
          TickRests(clock, s, script);
          RunRests(clock + 1, TickOf(s, script).0, events[1..]);
      }
    }
  }

  lemma RestKnown(clock: nat, s: Timers)
    requires AtRest(clock, s)
    ensures Known(s.table, s.list) && Inv(clock, s)
  {
  }

  lemma RestDo(clock: nat, s: Timers, op: Op)
    requires AtRest(clock, s)
    ensures Known(s.table, s.list) && AtRest(clock, Do(s, op))
  {
    hide Inv, Do;
    LinkedKnown(clock, s);
    DoKeeps(clock, clock, s, op);
  }

  ghost predicate EventsPositive(events: seq<Event>) {
    forall i :: 0 <= i < |events| ==> match events[i] case Call(op) => OpsPositive([op]) case Tick(script) => ScriptPositive(script)
  }

  /** With positive periods all checks of every run end. */
  lemma {:induction false} PositiveRunsEnd(clock: nat, s: Timers, events: seq<Event>)
    requires AtRest(clock, s) && Positive(s) && EventsPositive(events)
    ensures Known(s.table, s.list) && RunEnds(s, events)
    decreases |events|
  {
    hide Inv, Do, Positive, OpsPositive, ScriptPositive, Rounds, DueTimers, Window;
    RestKnown(clock, s);
    if events != [] {
      assert forall i :: 0 <= i < |events[1..]| ==> events[1..][i] == events[i + 1];
      match events[0] {
        case Call(op) =>
          RestDo(clock, s, op);
          DoDues(clock, s, op);
          PositiveRunsEnd(clock, Do(s, op), events[1..]);
        case Tick(script) =>
          TickPositive(clock, s, script);
          TickRests(clock, s, script);
          PositiveRunsEnd(clock + 1, TickOf(s, script).0, events[1..]);
      }
    }
  }

  lemma TickPositive(clock: nat, s: Timers, script: seq<seq<Op>>)
    requires AtRest(clock, s) && Known(s.table, s.list) && Positive(s) && ScriptPositive(script)
    ensures Ends(NextNow(s), script) && Positive(TickOf(s, script).0)
  {
    hide Inv, Due, ScriptPositive, Rounds, DueTimers;
    NextTick(clock, s);
    var u := NextNow(s);
    assert Positive(u);
    var n := |DueTimers(clock + 1, u)|;
    CheckTerminates(clock + 1, u, script, n);
    CheckIs(u, script, n);
  }

  // ----- the flags in whole runs -----

  ghost function FuelOf(s: Timers, script: seq<seq<Op>>): (n: nat)
    requires Known(s.table, s.list) && Ends(s, script)
    ensures Rounds(s, script, n).done
  {
    var n: nat :| Rounds(s, script, n).done; n
  }

  /** In all states of the run, between the calls and between the rounds of the checks, the flags are
      right. */
  ghost predicate AlwaysFlagged(s: Timers, events: seq<Event>)
    requires Known(s.table, s.list) && RunEnds(s, events)
    decreases |events|
  {
    FlagsOk(s) && (events == [] ||
      match events[0]
      case Call(op) => AlwaysFlagged(Do(s, op), events[1..])
      case Tick(script) =>
        FlagsInRounds(NextNow(s), script, FuelOf(NextNow(s), script)) && AlwaysFlagged(TickOf(s, script).0, events[1..]))
  }

  /** In some check of the run a function leaves its one-shot timer started. */
  ghost predicate EverLeftStarted(s: Timers, events: seq<Event>)
    requires Known(s.table, s.list) && RunEnds(s, events)
    decreases |events|
  {
    events != [] &&
    match events[0]
    case Call(op) => EverLeftStarted(Do(s, op), events[1..])
    case Tick(script) =>
      SomeLeavesStarted(NextNow(s), script, FuelOf(NextNow(s), script)) || EverLeftStarted(TickOf(s, script).0, events[1..])
  }

  /** Over whole runs the active flag always says which timers are linked, exactly when no function ever
      leaves its one-shot timer started. */
  lemma {:induction false} FlaggedRuns(clock: nat, s: Timers, events: seq<Event>)
    requires AtRest(clock, s) && Known(s.table, s.list) && RunEnds(s, events) && FlagsOk(s)
    ensures AlwaysFlagged(s, events) <==> !EverLeftStarted(s, events)
    decreases |events|
  {
    hide Inv, Due, Do, Window, FlagsOk, FlagsInRounds, SomeLeavesStarted, Ends, Rounds, Check;
    if events != [] {
      match events[0] {
        case Call(op) =>
          RestDo(clock, s, op);
          DoKeepsFlags(clock, s, op);
          FlaggedRuns(clock, Do(s, op), events[1..]);
        case Tick(script) =>
          NextTick(clock, s);
          NowFlags(s);
          var u, n := NextNow(s), FuelOf(NextNow(s), script);
          RoundsKeepFlags(clock + 1, u, script, n);
          CheckIs(u, script, n);
          TickRests(clock, s, script);
          if FlagsInRounds(u, script, n) { FlaggedRuns(clock + 1, TickOf(s, script).0, events[1..]); }
      }
    }
  }

  lemma NowFlags(s: Timers)
    requires FlagsOk(s)
    ensures FlagsOk(NextNow(s))
  {
  }

  // ----- a timer left alone -----

  ghost predicate OpsAlone(ops: seq<Op>, t: Id) { forall i :: 0 <= i < |ops| ==> ops[i].t != t }

  ghost predicate ScriptAlone(script: seq<seq<Op>>, t: Id) { forall i :: 0 <= i < |script| ==> OpsAlone(script[i], t) }

  /** No thread and no timeout function starts, stops or sets the timer. */
  ghost predicate Alone(events: seq<Event>, t: Id) {
    forall i :: 0 <= i < |events| ==> match events[i] case Call(op) => op.t != t case Tick(script) => ScriptAlone(script, t)
  }

  /** When a timer will fire next, if it will. */
  datatype Plan = Never | At(due: int)

  ghost predicate Planned(clock: nat, s: Timers, t: Id, entry: Timer, plan: Plan) {
    && t in s.table && s.table[t].period == entry.period && s.table[t].periodic == entry.periodic
    && match plan
       case Never => t !in s.list
       case At(d) => t in s.list && s.table[t].active && Due(clock, s.table[t].timeout) == d
  }

  lemma DoAlone(clock: nat, s: Timers, op: Op, t: Id, entry: Timer, plan: Plan)
    requires Inv(clock, s) && Planned(clock, s, t, entry, plan) && op.t != t
    ensures Known(s.table, s.list) && Planned(clock, Do(s, op), t, entry, plan)
  {
    hide Inv, Start, Due;
    LinkedKnown(clock, s);
    if Fits(s, op) && op.DoStart? {
      StartKeeps(clock, clock - 1, s, op.t);
      StartTable(s, op.t);
    }
  }

  lemma {:induction false} AllAlone(clock: nat, s: Timers, ops: seq<Op>, t: Id, entry: Timer, plan: Plan)
    requires Inv(clock, s) && Planned(clock, s, t, entry, plan) && OpsAlone(ops, t)
    ensures Known(s.table, s.list) && Planned(clock, DoAll(s, ops), t, entry, plan)
    ensures t in DoAll(s, ops).table && DoAll(s, ops).table[t].active == s.table[t].active
    decreases ops
  {
    hide Inv, Do, Planned;
    LinkedKnown(clock, s);
    EntryPlanned(clock, s, t, entry, plan);
    if ops != [] {
      DoKeeps(clock, clock - 1, s, ops[0]);
      DoAlone(clock, s, ops[0], t, entry, plan);
      EntryAlone(s, ops[0], t);
      AllAlone(clock, Do(s, ops[0]), ops[1..], t, entry, plan);
    }
  }

  lemma EntryPlanned(clock: nat, s: Timers, t: Id, entry: Timer, plan: Plan)
    requires Planned(clock, s, t, entry, plan)
    ensures t in s.table
  {
  }

  lemma EntryAlone(s: Timers, op: Op, t: Id)
    requires t in s.table && Known(s.table, s.list) && op.t != t
    ensures t in Do(s, op).table && Do(s, op).table[t] == s.table[t]
  {
    hide Start;
    if Fits(s, op) && op.DoStart? { StartTable(s, op.t); }
  }

  /** The plan after the timer has fired. */
  function Again(clock: nat, entry: Timer): Plan { if entry.periodic then At(clock + entry.period) else Never }

  lemma FireOther(clock: nat, s: Timers, ops: seq<Op>, t: Id, entry: Timer, plan: Plan)
    requires Inv(clock, s) && Known(s.table, s.list) && s.list != [] && CanFire(s, ops)
    requires s.list[0] != t && Planned(clock, s, t, entry, plan) && OpsAlone(ops, t)
    ensures Planned(clock, Fire(s, ops), t, entry, plan)
  {
    hide Inv, Start, Due, DoAll, Finish, CanFinish;
    var h := s.list[0];
    LinkedKnown(clock, s);
    UnlinkKeeps(clock, clock - 1, s, h);
    var u := s.(list := Without(s.list, h));
    AllAlone(clock, u, ops, t, entry, plan);
    CallBackKeeps(clock, s, ops);
    FinishPlanned(clock, CallBack(s, ops), h, t, entry, plan);
  }

  lemma FinishPlanned(clock: nat, c: Timers, h: Id, t: Id, entry: Timer, plan: Plan)
    requires Inv(clock, c) && h in c.table && h != t && Planned(clock, c, t, entry, plan) && CanFinish(c, h)
    ensures Known(c.table, c.list) && Planned(clock, Finish(c, h), t, entry, plan)
  {
    hide Inv, Start, Due;
    LinkedKnown(clock, c);
    EntriesOk(clock, c, h);
    var off := c.(table := c.table[h := c.table[h].(active := false)]);
    EntryKeeps(clock, clock - 1, c, h, c.table[h].(active := false));
    if c.table[h].periodic && c.table[h].active {
      StartKeeps(clock, clock - 1, off, h);
      StartTable(off, h);
    }
  }

  lemma FireSelf(clock: nat, s: Timers, ops: seq<Op>, entry: Timer, plan: Plan)
    requires Inv(clock, s) && Known(s.table, s.list) && s.list != [] && CanFire(s, ops)
    requires Planned(clock, s, s.list[0], entry, plan) && OpsAlone(ops, s.list[0])
    ensures Planned(clock, Fire(s, ops), s.list[0], entry, Again(clock, entry))
  {
    hide Inv, Start, Due, DoAll;
    var t := s.list[0];
    LinkedKnown(clock, s);
    assert t in s.list;
    UnlinkKeeps(clock, clock - 1, s, t);
    var u := s.(list := Without(s.list, t));
    AllAlone(clock, u, ops, t, entry, Never);
    var c := CallBack(s, ops);
    CallBackKeeps(clock, s, ops);
    FinishSelf(clock, c, t, entry);
  }

  /** What becomes of a timer that is active and linked no more. */
  lemma FinishSelf(clock: nat, c: Timers, t: Id, entry: Timer)
    requires Inv(clock, c) && Planned(clock, c, t, entry, Never) && c.table[t].active && CanFinish(c, t)
    ensures Known(c.table, c.list) && Planned(clock, Finish(c, t), t, entry, Again(clock, entry))
  {
    hide Inv, Start, Due;
    LinkedKnown(clock, c);
    EntriesOk(clock, c, t);
    var off := c.(table := c.table[t := c.table[t].(active := false)]);
    EntryKeeps(clock, clock - 1, c, t, c.table[t].(active := false));
    if c.table[t].periodic {
      StartKeeps(clock, clock - 1, off, t);
      StartTable(off, t);
    }
  }

  lemma RestAlone(script: seq<seq<Op>>, t: Id)
    requires ScriptAlone(script, t)
    ensures OpsAlone(FirstOps(script), t) && ScriptAlone(RestOps(script), t)
  {
  }

  lemma HeadDueAt(clock: nat, s: Timers)
    requires Inv(clock, s) && Known(s.table, s.list) && HeadDue(s)
    ensures s.list[0] in s.list && Due(clock, s.table[s.list[0]].timeout) <= clock
  {
    HeadDecides(clock, s);
  }

  /** A timer left alone fires in a check exactly when it is due, and then once. */
  lemma {:induction false} RoundsAlone(clock: nat, s: Timers, script: seq<seq<Op>>, n: nat, t: Id, entry: Timer, plan: Plan)
    requires Inv(clock, s) && ScriptAlone(script, t) && Planned(clock, s, t, entry, plan) && (plan.At? && entry.periodic ==> entry.period > 0)
    requires Known(s.table, s.list) && Rounds(s, script, n).done
    ensures var c := Rounds(s, script, n);
      if plan.At? && plan.due <= clock then multiset(c.fired)[t] == 1 && Planned(clock, c.s, t, entry, Again(clock, entry))
      else multiset(c.fired)[t] == 0 && Planned(clock, c.s, t, entry, plan)
    decreases n
  {
    hide Inv, Due, Fire, CanFire, IsDue, DueTimers, ScriptAlone, OpsAlone;
    HeadDecides(clock, s);
    if HeadDue(s) {
      var ops, rest := FirstOps(script), RestOps(script);
      RestAlone(script, t);
      FireKeeps(clock, s, ops);
      var u := Fire(s, ops);
      var fired := Rounds(u, rest, n - 1).fired;
      if s.list[0] == t {
        HeadDueAt(clock, s);
        FireSelf(clock, s, ops, entry, plan);
        RoundsAlone(clock, u, rest, n - 1, t, entry, Again(clock, entry));
      } else {
        FireOther(clock, s, ops, t, entry, plan);
        RoundsAlone(clock, u, rest, n - 1, t, entry, plan);
      }
      assert multiset([s.list[0]] + fired) == multiset{s.list[0]} + multiset(fired);
    }
  }

  /** A periodic timer of period 0 that is due and left alone keeps the loop from ending, whatever the
      functions do to the other timers. */
  lemma {:induction false} PeriodicZeroSpins(clock: nat, s: Timers, script: seq<seq<Op>>, n: nat, t: Id, entry: Timer, due: int)
    requires Inv(clock, s) && ScriptAlone(script, t) && Planned(clock, s, t, entry, At(due)) && due <= clock
    requires entry.periodic && entry.period == 0
    ensures Known(s.table, s.list) && !Rounds(s, script, n).done
    decreases n
  {
    hide Inv, Due, Fire, CanFire, IsDue, ScriptAlone, OpsAlone;
    HeadDecides(clock, s);
    if HeadDue(s) && n > 0 && CanFire(s, FirstOps(script)) {
      var ops := FirstOps(script);
      RestAlone(script, t);
      FireKeeps(clock, s, ops);
      if s.list[0] == t {
        FireSelf(clock, s, ops, entry, At(due));
        PeriodicZeroSpins(clock, Fire(s, ops), RestOps(script), n - 1, t, entry, clock);
      } else {
        FireOther(clock, s, ops, t, entry, At(due));
        PeriodicZeroSpins(clock, Fire(s, ops), RestOps(script), n - 1, t, entry, due);
      }
    }
  }

  /** The next check that will find the timer: the one of the tick that it is due at, or the next one
      if it is due already. */
  function FirstCheck(clock: nat, due: int): int { if due > clock then due else clock + 1 }

  /** Whether a timer first found by the check of tick `first` fires in that of tick `c`. */
  predicate FiresIn(entry: Timer, first: int, c: int)
    requires entry.periodic ==> entry.period > 0
  {
    if entry.periodic then c >= first && (c - first) % entry.period == 0 else c == first
  }

  lemma OnePeriodOn(x: int, p: nat)
    requires p > 0 && x > 0
    ensures x % p == 0 <==> x >= p && (x - p) % p == 0
  {
    if x < p { SmallMod(x, p); } else { ModBack(x, p); }
  }

  lemma SmallMod(x: nat, p: nat)
    requires 0 < x < p
    ensures x % p == x
  {
  }

  lemma ModBack(x: nat, p: nat)
    requires 0 < p <= x
    ensures (x - p) % p == x % p
  {
    var q, r := x / p, x % p;
    assert x == q * p + r;
    assert x - p == (q - 1) * p + r by { assert (q - 1) * p == q * p - p; }
    DivisionUnique(x - p, p, q - 1, r);
  }

  lemma DivisionUnique(x: int, p: nat, q: int, r: nat)
    requires p > 0 && r < p && x == q * p + r
    ensures x % p == r
  {
    var q', r' := x / p, x % p;
    assert x == q' * p + r';
    assert (q' - q) * p == r - r' && (q - q') * p == r' - r;
    if q' > q { MulPositive(q' - q, p); }
    if q' < q { MulPositive(q - q', p); }
  }

  lemma MulPositive(k: nat, p: nat)
    requires k > 0
    ensures k * p >= p
  {
    assert k * p == (k - 1) * p + p;
  }

  /** How often a timer fires in each tick of a run in which it is left alone. */
  ghost predicate FiresAsPlanned(entry: Timer, plan: Plan, clock: nat, t: Id, log: seq<seq<Id>>)
    requires entry.periodic ==> entry.period > 0
  {
    forall j: nat :: j < |log| ==>
      multiset(log[j])[t] == if plan.At? && FiresIn(entry, FirstCheck(clock, plan.due), clock + 1 + j) then 1 else 0
  }

  lemma {:induction false} RunAlone(clock: nat, s: Timers, events: seq<Event>, t: Id, entry: Timer, plan: Plan)
    requires AtRest(clock, s) && Alone(events, t) && Planned(clock, s, t, entry, plan) && (entry.periodic ==> entry.period > 0)
    requires Known(s.table, s.list) && RunEnds(s, events)
    ensures FiresAsPlanned(entry, plan, clock, t, Run(s, events).log)
    decreases |events|, 0
  {
    hide AtRest, Inv, Due, ScriptAlone, Planned, FiresIn, FirstCheck, Do, TickOf, FiresAsPlanned, Ends;
    if events == [] {
      NothingFired(entry, plan, clock, t);
    } else {
      RestOfEvents(events, t);
      match events[0] {
        case Call(op) => CallAlone(clock, s, op, events[1..], t, entry, plan);
        case Tick(script) =>
          var (u, fired) := TickOf(s, script);
          TickRests(clock, s, script);
          var next := TickAlone(clock, s, script, t, entry, plan);
          RunAlone(clock + 1, u, events[1..], t, entry, next);
          LogCons(clock, entry, plan, next, t, fired, Run(u, events[1..]).log);
      }
    }
  }

  lemma NothingFired(entry: Timer, plan: Plan, clock: nat, t: Id)
    requires entry.periodic ==> entry.period > 0
    ensures FiresAsPlanned(entry, plan, clock, t, [])
  {
  }

  lemma RestOfEvents(events: seq<Event>, t: Id)
    requires Alone(events, t) && events != []
    ensures Alone(events[1..], t)
    ensures match events[0] case Call(op) => op.t != t case Tick(script) => ScriptAlone(script, t)
  {
  }

  lemma CallAlone(clock: nat, s: Timers, op: Op, rest: seq<Event>, t: Id, entry: Timer, plan: Plan)
    requires AtRest(clock, s) && Alone(rest, t) && op.t != t && Planned(clock, s, t, entry, plan) && (entry.periodic ==> entry.period > 0)
    requires Known(s.table, s.list) && RunEnds(Do(s, op), rest)
    ensures FiresAsPlanned(entry, plan, clock, t, Run(Do(s, op), rest).log)
    decreases |rest|, 1
  {
    hide Inv, Due, Planned, Do, FiresAsPlanned, Run, RunEnds;
    RestDo(clock, s, op);
    DoAlone(clock, s, op, t, entry, plan);
    RunAlone(clock, Do(s, op), rest, t, entry, plan);
  }

  /** The plan after one tick. */
  lemma TickAlone(clock: nat, s: Timers, script: seq<seq<Op>>, t: Id, entry: Timer, plan: Plan) returns (next: Plan)
    requires AtRest(clock, s) && ScriptAlone(script, t) && Planned(clock, s, t, entry, plan) && (plan.At? && entry.periodic ==> entry.period > 0)
    requires Known(s.table, s.list) && Ends(NextNow(s), script)
    ensures var (r, fired) := TickOf(s, script);
      && Planned(clock + 1, r, t, entry, next)
      && if plan.At? && plan.due <= clock + 1 then multiset(fired)[t] == 1 && next == Again(clock + 1, entry)
         else multiset(fired)[t] == 0 && next == plan
  {
    hide Inv, Due, ScriptAlone, Check, Rounds;
    NextTick(clock, s);
    next := if plan.At? && plan.due <= clock + 1 then Again(clock + 1, entry) else plan;
    var n: nat :| Rounds(NextNow(s), script, n).done;
    CheckIs(NextNow(s), script, n);
    RoundsAlone(clock + 1, NextNow(s), script, n, t, entry, plan);
  }

  lemma LogCons(clock: nat, entry: Timer, plan: Plan, next: Plan, t: Id, fired: seq<Id>, rest: seq<seq<Id>>)
    requires entry.periodic ==> entry.period > 0
    requires if plan.At? && plan.due <= clock + 1 then multiset(fired)[t] == 1 && next == Again(clock + 1, entry)
             else multiset(fired)[t] == 0 && next == plan
    requires FiresAsPlanned(entry, next, clock + 1, t, rest)
    ensures FiresAsPlanned(entry, plan, clock, t, [fired] + rest)
  {
    hide FiresIn;
    var log := [fired] + rest;
    forall j: nat | j < |log|
      ensures multiset(log[j])[t] == if plan.At? && FiresIn(entry, FirstCheck(clock, plan.due), clock + 1 + j) then 1 else 0
    {
      if plan.At? { FiresStep(clock, entry, plan.due, j); }
      if j > 0 { assert log[j] == rest[j - 1]; }
    }
  }

  lemma FiresStep(clock: nat, entry: Timer, due: int, j: nat)
    requires entry.periodic ==> entry.period > 0
    ensures j == 0 ==> (FiresIn(entry, FirstCheck(clock, due), clock + 1) <==> due <= clock + 1)
    ensures j > 0 && due > clock + 1 ==> (FiresIn(entry, FirstCheck(clock, due), clock + 1 + j) <==> FiresIn(entry, FirstCheck(clock + 1, due), clock + 1 + j))
    ensures j > 0 && due <= clock + 1 && entry.periodic ==>
      (FiresIn(entry, FirstCheck(clock, due), clock + 1 + j) <==> FiresIn(entry, FirstCheck(clock + 1, clock + 1 + entry.period), clock + 1 + j))
    ensures j > 0 && due <= clock + 1 && !entry.periodic ==> !FiresIn(entry, FirstCheck(clock, due), clock + 1 + j)
  {
    if j > 0 && entry.periodic && due <= clock + 1 { OnePeriodOn(j, entry.period); }
    if entry.periodic { ZeroMod(entry.period); }
  }

  lemma ZeroMod(p: nat)
    requires p > 0
    ensures 0 % p == 0
  {
  }

  /** Whether a timer is to fire in the tick that is the `n`th after its start. */
  predicate OnTime(entry: Timer, n: nat) {
    if entry.periodic then entry.period > 0 && n % entry.period == 0
    else n == entry.period || (entry.period == 0 && n == 1)
  }

  /** A timer that is started and then left alone fires exactly `period` ticks later, a periodic one
      again every `period` ticks, never early and never twice in a tick, whatever else happens and
      across the wrap of the tick; only a one-shot timer of period 0 is one tick late.  The log has an
      entry for each tick. */
  lemma FiresOnTime(clock: nat, s: Timers, t: Id, events: seq<Event>)
    requires AtRest(clock, s) && t in s.table && s.table[t].period < HALF && Alone(events, t)
    requires Known(s.table, s.list) && RunEnds(Start(s, t), events)
    ensures var log := Run(Start(s, t), events).log;
      && |log| == Ticks(events)
      && forall j: nat :: j < |log| ==> multiset(log[j])[t] == if OnTime(s.table[t], j + 1) then 1 else 0
  {
    hide Start, FiresIn, OnTime, AtRest, Run, Alone, FirstCheck, Planned, RunEnds;
    var entry := s.table[t];
    StartPlanned(clock, s, t);
    var r := Start(s, t);
    RunRests(clock, r, events);
    if entry.periodic && entry.period == 0 {
      ZeroNeverTicks(clock, r, events, t, entry);
    } else {
      RunAlone(clock, r, events, t, entry, At(clock + entry.period));
      var log := Run(r, events).log;
      forall j: nat | j < |log| ensures multiset(log[j])[t] == if OnTime(s.table[t], j + 1) then 1 else 0 {
        FiresAfter(clock, entry, j + 1);
      }
    }
  }

  /** `rt_timer_control` followed by a start: left alone, the timer fires with the period and in the way that
      were set. */
  lemma SetThenFires(clock: nat, s: Timers, t: Id, p: nat, periodic: bool, events: seq<Event>)
    requires AtRest(clock, s) && t in s.table && 0 < p < HALF && Alone(events, t) && Known(s.table, s.list)
    ensures var r := Do(Do(Do(s, SetTime(t, p)), SetPeriodic(t, periodic)), DoStart(t));
      RunEnds(r, events) ==>
        var log := Run(r, events).log;
        |log| == Ticks(events)
        && forall j: nat :: j < |log| ==> multiset(log[j])[t] == if (if periodic then (j + 1) % p == 0 else j + 1 == p) then 1 else 0
  {
    hide AtRest, Run, RunEnds;
    RestDo(clock, s, SetTime(t, p));
    var s1 := Do(s, SetTime(t, p));
    RestDo(clock, s1, SetPeriodic(t, periodic));
    var s2 := Do(s1, SetPeriodic(t, periodic));
    assert s2.table[t].period == p && s2.table[t].periodic == periodic;
    assert Do(s2, DoStart(t)) == Start(s2, t);
    if RunEnds(Start(s2, t), events) { FiresOnTime(clock, s2, t, events); }
  }

  /** A timer that is not linked and left alone never fires. */
  lemma {:induction false} NeverFires(clock: nat, s: Timers, t: Id, events: seq<Event>)
    requires AtRest(clock, s) && Known(s.table, s.list) && RunEnds(s, events) && Alone(events, t) && t in s.table && t !in s.list
    ensures forall j: nat :: j < |Run(s, events).log| ==> t !in Run(s, events).log[j]
    decreases |events|
  {
    hide AtRest, Inv, Due, Do, TickOf, Ends, ScriptAlone;
    if events != [] {
      RestKnown(clock, s);
      RestOfEvents(events, t);
      match events[0] {
        case Call(op) =>
          RestDo(clock, s, op);
          DoAlone(clock, s, op, t, s.table[t], Never);
          NeverFires(clock, Do(s, op), t, events[1..]);
        case Tick(script) =>
          var (u, fired) := TickOf(s, script);
          TickRests(clock, s, script);
          var next := TickAlone(clock, s, script, t, s.table[t], Never);
          assert t in fired <==> multiset(fired)[t] > 0;
          NeverFires(clock + 1, u, t, events[1..]);
          assert Run(s, events).log == [fired] + Run(u, events[1..]).log;
      }
    }
  }

  /** A timer is stopped with success exactly when it is active; it is then neither active nor linked, and
      left alone it never fires.  The others are not touched. */
  lemma StoppedNeverFires(clock: nat, s: Timers, t: Id, events: seq<Event>)
    requires AtRest(clock, s) && t in s.table && Alone(events, t) && FlagsOk(s)
    requires Known(s.table, s.list) && Known(Stop(s, t).0.table, Stop(s, t).0.list) && RunEnds(Stop(s, t).0, events)
    ensures var (r, ok) := Stop(s, t);
      && (ok <==> s.table[t].active) && t in r.table && t !in r.list && !r.table[t].active
      && r.list == Without(s.list, t) && (forall u :: u in s.table && u != t ==> u in r.table && r.table[u] == s.table[u])
      && forall j: nat :: j < |Run(r, events).log| ==> t !in Run(r, events).log[j]
  {
    hide AtRest, Run;
    RestDo(clock, s, DoStop(t));
    assert Do(s, DoStop(t)) == Stop(s, t).0;
    NeverFires(clock, Stop(s, t).0, t, events);
  }

  /** No tick gets past a periodic timer of period 0. */
  lemma {:induction false} ZeroNeverTicks(clock: nat, s: Timers, events: seq<Event>, t: Id, entry: Timer)
    requires AtRest(clock, s) && Known(s.table, s.list) && RunEnds(s, events) && Alone(events, t)
    requires Planned(clock, s, t, entry, At(clock)) && entry.periodic && entry.period == 0
    ensures Ticks(events) == 0
    decreases |events|
  {
    hide Inv, Due, Do, Planned, Rounds, Window, ScriptAlone;
    if events != [] {
      RestOfEvents(events, t);
      RestKnown(clock, s);
      match events[0] {
        case Call(op) =>
          RestDo(clock, s, op);
          DoAlone(clock, s, op, t, entry, At(clock));
          ZeroNeverTicks(clock, Do(s, op), events[1..], t, entry);
        case Tick(script) =>
          NextTick(clock, s);
          LaterPlanned(clock, s, t, entry);
          forall n: nat ensures !Rounds(NextNow(s), script, n).done {
            PeriodicZeroSpins(clock + 1, NextNow(s), script, n, t, entry, clock);
          }
      }
    }
  }

  lemma LaterPlanned(clock: nat, s: Timers, t: Id, entry: Timer)
    requires AtRest(clock, s) && Planned(clock, s, t, entry, At(clock))
    ensures Planned(clock + 1, NextNow(s), t, entry, At(clock))
  {
    hide Due;
    NextTick(clock, s);
  }

  lemma StartPlanned(clock: nat, s: Timers, t: Id)
    requires AtRest(clock, s) && t in s.table && s.table[t].period < HALF
    ensures Known(s.table, s.list) && AtRest(clock, Start(s, t)) && Known(Start(s, t).table, Start(s, t).list)
    ensures Planned(clock, Start(s, t), t, s.table[t], At(clock + s.table[t].period))
  {
    hide Due, Start, Inv;
    LinkedKnown(clock, s);
    StartKeeps(clock, clock, s, t);
    LinkedKnown(clock, Start(s, t));
    StartTable(s, t);
  }

  lemma FiresAfter(clock: nat, entry: Timer, n: nat)
    requires n > 0 && (entry.periodic ==> entry.period > 0)
    ensures FiresIn(entry, FirstCheck(clock, clock + entry.period), clock + n) <==> OnTime(entry, n)
  {
    if entry.periodic { OnePeriodOn(n, entry.period); }
  }

  // ----- the order of firing -----

  /** The due timers at the head of a list. */
  ghost function DuePrefix(clock: nat, table: map<Id, Timer>, l: seq<Id>): seq<Id>
    requires Known(table, l)
  {
    if l == [] || Due(clock, table[l[0]].timeout) > clock then [] else [l[0]] + DuePrefix(clock, table, l[1..])
  }

  lemma {:induction false} PrefixInsert(clock: nat, table: map<Id, Timer>, l: seq<Id>, k: nat, t: Id)
    requires Known(table, l) && t in table && Due(clock, table[t].timeout) > clock && Splits(clock, table, l, k, table[t].timeout)
    ensures Known(table, InsertAt(l, k, t)) && DuePrefix(clock, table, InsertAt(l, k, t)) == DuePrefix(clock, table, l)
    decreases l
  {
    hide Due;
    var r := InsertAt(l, k, t);
    if k > 0 {
      assert r == [l[0]] + InsertAt(l[1..], k - 1, t) && r[1..] == InsertAt(l[1..], k - 1, t);
      SplitsTail(clock, table, l, k, table[t].timeout);
      PrefixInsert(clock, table, l[1..], k - 1, t);
    } else {
      assert r == [t] + l;
    }
  }

  lemma SplitsTail(clock: nat, table: map<Id, Timer>, l: seq<Id>, k: nat, x: nat)
    requires Known(table, l) && Splits(clock, table, l, k, x) && k > 0
    ensures Splits(clock, table, l[1..], k - 1, x)
  {
    hide Due;
    var r := l[1..];
    assert forall j {:trigger r[j]} :: 0 <= j < |r| ==> r[j] == l[j + 1];
  }

  lemma {:induction false} PrefixUnseen(clock: nat, table: map<Id, Timer>, l: seq<Id>, t: Id, entry: Timer)
    requires Known(table, l) && t !in l
    ensures DuePrefix(clock, table[t := entry], l) == DuePrefix(clock, table, l)
  {
    hide Due;
    if l != [] { PrefixUnseen(clock, table, l[1..], t, entry); }
  }

  lemma QuietFire(clock: nat, s: Timers)
    requires Inv(clock, s) && Known(s.table, s.list) && HeadDue(s) && CanFire(s, [])
    requires s.table[s.list[0]].periodic ==> s.table[s.list[0]].period > 0
    ensures var r := Fire(s, []); DuePrefix(clock, r.table, r.list) == DuePrefix(clock, s.table, s.list[1..])
    ensures var r := Fire(s, []); forall u :: u in s.table ==> r.table[u].period == s.table[u].period && r.table[u].periodic == s.table[u].periodic
  {
    hide Inv, Due, Start, IsDue, InsertAt, DuePrefix;
    var t := s.list[0];
    LinkedKnown(clock, s);
    ListDistinct(clock, s);
    WithoutFirst(s.list);
    UnlinkKeeps(clock, clock - 1, s, t);
    EntriesOk(clock, s, t);
    var l, entry := s.list[1..], s.table[t].(active := false);
    PrefixUnseen(clock, s.table, l, t, entry);
    var off := s.(list := l, table := s.table[t := entry]);
    EntryKeeps(clock, clock - 1, s.(list := l), t, entry);
    if s.table[t].periodic && s.table[t].active {
      StartKeeps(clock, clock - 1, off, t);
      StartTable(off, t);
      var r := Start(off, t);
      assert Without(l, t) == l;
      var k :| Splits(clock, r.table, l, k, r.table[t].timeout) && r.list == InsertAt(l, k, t);
      PrefixInsert(clock, r.table, l, k, t);
      PrefixUnseen(clock, off.table, l, t, r.table[t]);
    }
  }

  lemma ListDistinct(clock: nat, s: Timers)
    requires Inv(clock, s)
    ensures NoDup(s.list)
  {
  }

  lemma WithoutFirst(l: seq<Id>)
    requires NoDup(l) && l != []
    ensures Without(l, l[0]) == l[1..] && l[0] !in l[1..]
  {
    WithoutAt(l, 0);
  }

  /** Periodic timers have positive periods below half of the range. */
  ghost predicate Periodics(s: Timers) { forall t :: t in s.table && s.table[t].periodic ==> 0 < s.table[t].period < HALF }

  /** Timers fire in the order of the list: those due earlier first, and those due at the same tick in
      the order in which they were started. */
  lemma {:induction false} FiresInOrder(clock: nat, s: Timers)
    requires Inv(clock, s) && Periodics(s)
    ensures Known(s.table, s.list)
    ensures var l := DuePrefix(clock, s.table, s.list); Rounds(s, [], |l|).done && Rounds(s, [], |l|).fired == l
    decreases |DuePrefix(clock, s.table, s.list)|
  {
    hide Inv, Due, IsDue, DueTimers, Finish;
    LinkedKnown(clock, s);
    HeadDecides(clock, s);
    if HeadDue(s) {
      HeadDueAt(clock, s);
      FireKeeps(clock, s, []);
      QuietFire(clock, s);
      FiresInOrder(clock, Fire(s, []));
    }
  }

  // ----- a start that is interrupted -----

  /** The second half of `rt_timer_start`, with a timeout that was computed before: the first half has
      unlinked the timer. */
  function LinkAt(s: Timers, t: Id, x: nat): (r: Timers)
    requires t in s.table && forall u :: u in s.list ==> u in s.table
    ensures forall u :: u in r.list <==> u in s.list || u == t
    ensures forall u :: u in r.list ==> u in r.table
  {
    s.(table := s.table[t := s.table[t].(timeout := x, active := true)], list := InsertAt(s.list, Position(s.table, s.list, x), t))
  }

  /** Without an interruption the two halves are the whole. */
  lemma StartLinks(s: Timers, t: Id)
    requires t in s.table && t !in s.list && forall u :: u in s.list ==> u in s.table
    ensures Start(s, t) == LinkAt(s, t, (s.now + s.table[t].period) % WORD)
  {
  }

  lemma LinkKeeps(clock: nat, s: Timers, t: Id, x: nat)
    requires AtRest(clock, s) && t in s.table && t !in s.list && Near(clock, x)
    ensures Known(s.table, s.list) && AtRest(clock, LinkAt(s, t, x))
  {
    hide Due, Later, Splits, Sorted, InsertAt, NoDup;
    var r, l := LinkAt(s, t, x), s.list;
    var k := Position(s.table, l, x);
    PositionSplits(clock, s.table, l, x);
    EntryUnseen(clock, clock, s.table, l, t, r.table[t]);
    SplitsUnseen(clock, s.table, l, k, x, t, r.table[t]);
    InsertSorted(clock, r.table, l, k, t);
    InsertNoDup(l, k, t);
  }

  // A timeout that has passed before the timer is linked.

  /** Timer `t` is late: it is the first of the list, and the others are as between two checks. */
  ghost predicate LateFirst(clock: nat, s: Timers, t: Id, late: nat) {
    && 0 < late < HALF - 1 && t in s.table && s.table[t].active && s.table[t].timeout < WORD
    && Due(clock, s.table[t].timeout) == clock - late
    && s.list != [] && s.list[0] == t && t !in s.list[1..] && AtRest(clock, s.(list := s.list[1..]))
  }

  /** The first timer of the list is less than half of the range behind the timeout `x`. */
  ghost predicate WithinHalf(clock: nat, s: Timers, x: nat)
    requires Known(s.table, s.list)
  {
    s.list == [] || Due(clock, s.table[s.list[0]].timeout) - Due(clock, x) < HALF
  }

  lemma PassedLater(clock: nat, a: nat, x: nat, late: nat)
    requires a < WORD && x < WORD && clock <= Due(clock, a) <= clock + HALF - 1 && Due(clock, x) == clock - late && 0 < late < HALF - 1
    ensures Later(a, x) <==> Due(clock, a) - Due(clock, x) < HALF
  {
  }

  /** The search passes over all timers that are half of the range behind or more. */
  lemma {:induction false} FarEnd(clock: nat, table: map<Id, Timer>, l: seq<Id>, x: nat, late: nat)
    requires TableOk(table) && Known(table, l) && Window(clock, clock, table, l) && x < WORD && Due(clock, x) == clock - late && 0 < late < HALF - 1
    requires forall u :: u in l ==> Due(clock, table[u].timeout) - Due(clock, x) >= HALF
    ensures Position(table, l, x) == |l|
  {
    hide Due, Later;
    if l != [] {
      assert l[0] in l;
      PassedLater(clock, table[l[0]].timeout, x, late);
      FarEnd(clock, table, l[1..], x, late);
    }
  }

  /** A timer that is linked late becomes the first exactly when the first one is less than half of the
      range behind it; otherwise it becomes the last. */
  lemma LinkLate(clock: nat, s: Timers, t: Id, x: nat, late: nat)
    requires AtRest(clock, s) && t in s.table && t !in s.list && x < WORD && Due(clock, x) == clock - late && 0 < late < HALF - 1
    ensures Known(s.table, s.list)
    ensures WithinHalf(clock, s, x) ==> LateFirst(clock, LinkAt(s, t, x), t, late)
    ensures !WithinHalf(clock, s, x) ==> LinkAt(s, t, x).list == s.list + [t]
  {
    hide Due, Later, Sorted, NoDup;
    RestKnown(clock, s);
    var r := LinkAt(s, t, x);
    EntryUnseen(clock, clock, s.table, s.list, t, r.table[t]);
    EntriesOk(clock, s, t);
    if s.list != [] {
      assert s.list[0] in s.list;
      PassedLater(clock, s.table[s.list[0]].timeout, x, late);
    }
    if WithinHalf(clock, s, x) {
      assert r.list == [t] + s.list && r.list[1..] == s.list;
    } else {
      FarAll(clock, s, x);
      FarEnd(clock, s.table, s.list, x, late);
      assert r.list == s.list + [t];
    }
  }

  lemma FarAll(clock: nat, s: Timers, x: nat)
    requires AtRest(clock, s) && Known(s.table, s.list) && !WithinHalf(clock, s, x)
    ensures forall u :: u in s.list ==> Due(clock, s.table[u].timeout) - Due(clock, x) >= HALF
  {
    hide Due;
    forall u | u in s.list ensures Due(clock, s.table[u].timeout) - Due(clock, x) >= HALF {
      var i :| 0 <= i < |s.list| && s.list[i] == u;
      assert i > 0 ==> Due(clock, s.table[s.list[0]].timeout) <= Due(clock, s.table[s.list[i]].timeout);
    }
  }

  /** The late timer is due in the next check, and firing it leaves the timers as after any firing. */
  lemma LateFires(clock: nat, s: Timers, t: Id, late: nat, ops: seq<Op>, entry: Timer)
    requires LateFirst(clock, s, t, late) && OpsAlone(ops, t) && entry.period == s.table[t].period && entry.periodic == s.table[t].periodic
    ensures Known(s.table, s.list) && HeadDue(NextNow(s))
    ensures CanFire(NextNow(s), ops) ==>
      Inv(clock + 1, Fire(NextNow(s), ops)) && Planned(clock + 1, Fire(NextNow(s), ops), t, entry, Again(clock + 1, entry))
  {
    hide Due, DoAll, Inv, Finish, CanFinish, Window;
    var v, rest := NextNow(s), s.(list := s.list[1..]);
    RestKnown(clock, rest);
    assert s.list == [t] + s.list[1..];
    PassedDue(clock, rest, t, s.table[t].timeout, late);
    NextTick(clock, rest);
    WithoutHead(s.list);
    assert v.(list := Without(v.list, t)) == NextNow(rest);
    var u := NextNow(rest);
    AllAlone(clock + 1, u, ops, t, entry, Never);
    AllKeeps(clock + 1, u, ops);
    if CanFire(v, ops) {
      FinishKeeps(clock + 1, CallBack(v, ops), t);
      FinishSelf(clock + 1, CallBack(v, ops), t, entry);
    }
  }

  lemma WithoutHead(l: seq<Id>)
    requires l != [] && l[0] !in l[1..]
    ensures Without(l, l[0]) == l[1..]
  {
  }

  lemma PassedDue(clock: nat, rest: Timers, t: Id, x: nat, late: nat)
    requires AtRest(clock, rest) && x < WORD && Due(clock, x) == clock - late && 0 < late < HALF - 1
    ensures IsDue((rest.now + 1) % WORD, x)
  {
    hide Due, AtRest;
    RestNow(clock, rest);
    DueBack(clock, x, late);
    assert Minus((rest.now + 1) % WORD, x) == (late + 1) % WORD;
  }

  /** A start of another timer that would fire more than half of the range behind the late one. */
  predicate Overtakes(s: Timers, op: Op, late: nat) {
    op.DoStart? && Fits(s, op) && s.table[op.t].period + late > WORD - HALF
  }

  /** A call about another timer keeps the late timer first exactly when it does not overtake it. */
  lemma LateCall(clock: nat, s: Timers, t: Id, late: nat, op: Op)
    requires LateFirst(clock, s, t, late) && op.t != t
    ensures Known(s.table, s.list) && (LateFirst(clock, Do(s, op), t, late) <==> !Overtakes(s, op, late))
    ensures var r := Do(s, op); t in r.table && r.table[t] == s.table[t]
  {
    hide Due, Later, Inv, Start, Window;
    var rest := s.(list := s.list[1..]);
    RestKnown(clock, rest);
    assert s.list == [t] + s.list[1..];
    EntryAlone(s, op, t);
    RestDo(clock, rest, op);
    if Fits(s, op) {
      match op {
        case DoStart(u) =>
          LateStart(clock, s, t, late, u);
          StartKeeps(clock, clock, rest, u);
          assert ([t] + Start(rest, u).list)[1..] == Start(rest, u).list;
          assert Do(rest, op) == Start(rest, u);
        case DoStop(u) => WithoutTail(s.list, u);
        case SetTime(u, p) =>
        case SetPeriodic(u, b) =>
      }
    }
  }

  lemma WithoutTail(l: seq<Id>, u: Id)
    requires l != [] && l[0] != u
    ensures Without(l, u) == [l[0]] + Without(l[1..], u)
  {
  }

  lemma LateStart(clock: nat, s: Timers, t: Id, late: nat, u: Id)
    requires LateFirst(clock, s, t, late) && u != t && u in s.table && s.table[u].period < HALF && Known(s.table, s.list)
    ensures var rest := s.(list := s.list[1..]);
      if s.table[u].period + late > WORD - HALF then Start(s, u).list != [] && Start(s, u).list[0] == u
      else Start(s, u) == Start(rest, u).(list := [t] + Start(rest, u).list)
  {
    hide LateFirst, Later, Position, InsertAt;
    OvertakesIs(clock, s, t, late, s.table[u].period);
    LateHead(clock, s, t, late);
    StartBehind(s, u);
  }

  /** Starting a timer when the first of the list is another: the search starts at that one. */
  lemma StartBehind(s: Timers, u: Id)
    requires s.list != [] && Known(s.table, s.list) && u != s.list[0] && u in s.table
    ensures var t, rest, y := s.list[0], s.(list := s.list[1..]), (s.now + s.table[u].period) % WORD;
      if Later(s.table[t].timeout, y) then Start(s, u).list != [] && Start(s, u).list[0] == u
      else Start(s, u) == Start(rest, u).(list := [t] + Start(rest, u).list)
  {
    hide Later, Without;
    var t, rest, y := s.list[0], s.(list := s.list[1..]), (s.now + s.table[u].period) % WORD;
    WithoutTail(s.list, u);
    var l := Without(rest.list, u);
    assert ([t] + l)[1..] == l;
    if !Later(s.table[t].timeout, y) { InsertBehind(l, Position(s.table, l, y), t, u); }
  }

  lemma InsertBehind(l: seq<Id>, k: nat, t: Id, u: Id)
    requires k <= |l|
    ensures InsertAt([t] + l, k + 1, u) == [t] + InsertAt(l, k, u)
  {
  }

  lemma OvertakesIs(clock: nat, s: Timers, t: Id, late: nat, period: nat)
    requires LateFirst(clock, s, t, late) && period < HALF
    ensures Later(s.table[t].timeout, (s.now + period) % WORD) <==> period + late > WORD - HALF
  {
    NowIs(clock, s);
    LateDistance(clock, s.table[t].timeout, late, period);
  }

  lemma NowIs(clock: nat, s: Timers)
    requires s.list != [] && AtRest(clock, s.(list := s.list[1..]))
    ensures s.now == clock % WORD
  {
  }

  lemma LateDistance(clock: nat, x: nat, late: nat, period: nat)
    requires x < WORD && Due(clock, x) == clock - late && 0 < late < HALF - 1 && period < HALF
    ensures Later(x, (clock % WORD + period) % WORD) <==> period + late > WORD - HALF
  {
    hide Due;
    var y := (clock % WORD + period) % WORD;
    DueBack(clock, x, late);
    assert y == (clock + period) % WORD;
    assert Minus(x, y) == (0 - late - period) % WORD;
  }

  lemma DueBack(clock: nat, x: nat, late: nat)
    requires x < WORD && Due(clock, x) == clock - late
    ensures x == (clock - late) % WORD
  {
  }

  /** Before the next tick nothing overtakes the late timer. */
  ghost predicate NoneOvertakes(s: Timers, events: seq<Event>, late: nat)
    requires Known(s.table, s.list)
    decreases |events|
  {
    events == [] || events[0].Tick? || (!Overtakes(s, events[0].op, late) && NoneOvertakes(Do(s, events[0].op), events[1..], late))
  }

  /** Whether a timer first found in tick `first` fires in tick `k`. */
  predicate FiresFrom(entry: Timer, first: nat, k: nat) {
    if entry.periodic then entry.period > 0 && FiresIn(entry, first, k) else k == first
  }

  ghost predicate LogFrom(entry: Timer, first: nat, at: nat, t: Id, log: seq<seq<Id>>) {
    forall j: nat :: j < |log| ==> multiset(log[j])[t] == if FiresFrom(entry, first, at + 1 + j) then 1 else 0
  }

  /** A late timer fires in the next tick, and from then on as if started in that tick. */
  lemma {:induction false} LateRuns(clock: nat, s: Timers, t: Id, late: nat, events: seq<Event>)
    requires LateFirst(clock, s, t, late) && Alone(events, t) && Known(s.table, s.list) && RunEnds(s, events) && NoneOvertakes(s, events, late)
    ensures LogFrom(s.table[t], clock + 1, clock, t, Run(s, events).log)
    decreases |events|
  {
    hide LateFirst, Inv, Due, Do, Overtakes, FiresIn, Ends, Rounds, Check, ScriptAlone;
    if events != [] {
      RestOfEvents(events, t);
      LateKnown(clock, s, t, late);
      match events[0] {
        case Call(op) =>
          LateCall(clock, s, t, late, op);
          LateRuns(clock, Do(s, op), t, late, events[1..]);
          SameEntry(s.table[t], Do(s, op).table[t], clock, t, Run(Do(s, op), events[1..]).log);
        case Tick(script) => LateTick(clock, s, t, late, script, events[1..]);
      }
    }
  }

  lemma LateKnown(clock: nat, s: Timers, t: Id, late: nat)
    requires LateFirst(clock, s, t, late)
    ensures t in s.table
  {
  }

  lemma SameEntry(a: Timer, b: Timer, clock: nat, t: Id, log: seq<seq<Id>>)
    requires LogFrom(b, clock + 1, clock, t, log) && a == b
    ensures LogFrom(a, clock + 1, clock, t, log)
  {
  }

  lemma LateTick(clock: nat, s: Timers, t: Id, late: nat, script: seq<seq<Op>>, rest: seq<Event>)
    requires LateFirst(clock, s, t, late) && ScriptAlone(script, t) && Alone(rest, t) && t in s.table
    requires Known(s.table, s.list) && Ends(NextNow(s), script) && RunEnds(TickOf(s, script).0, rest)
    ensures var (u, fired) := TickOf(s, script); LogFrom(s.table[t], clock + 1, clock, t, [fired] + Run(u, rest).log)
  {
    hide LateFirst, Inv, Due, Do, Fire, CanFire, FiresIn, Run, RunEnds, Check, Alone, Planned, ScriptAlone, LogFrom, IsDue;
    var entry, v := s.table[t], NextNow(s);
    var n: nat :| Rounds(v, script, n).done;
    CheckIs(v, script, n);
    RestAlone(script, t);
    var ops, more := FirstOps(script), RestOps(script);
    LateFires(clock, s, t, late, ops, entry);
    LateHead(clock, s, t, late);
    LateRest(clock, Fire(v, ops), more, n - 1, t, entry, rest);
  }

  /** The rest of the check and of the run, after the late timer has fired. */
  lemma LateRest(clock: nat, f: Timers, more: seq<seq<Op>>, n: nat, t: Id, entry: Timer, rest: seq<Event>)
    requires Inv(clock + 1, f) && Planned(clock + 1, f, t, entry, Again(clock + 1, entry)) && ScriptAlone(more, t) && Alone(rest, t)
    requires Known(f.table, f.list) && Rounds(f, more, n).done && RunEnds(Rounds(f, more, n).s, rest)
    ensures var c := Rounds(f, more, n); LogFrom(entry, clock + 1, clock, t, [[t] + c.fired] + Run(c.s, rest).log)
  {
    hide Inv, Due, Rounds, FiresIn, Run, RunEnds, Alone, Planned, ScriptAlone, LogFrom, FiresAsPlanned;
    if entry.periodic && entry.period == 0 {
      PeriodicZeroSpins(clock + 1, f, more, n, t, entry, clock + 1);
    } else {
      RoundsAlone(clock + 1, f, more, n, t, entry, Again(clock + 1, entry));
      RoundsKeep(clock + 1, f, more, n);
      var c := Rounds(f, more, n);
      assert multiset([t] + c.fired) == multiset{t} + multiset(c.fired);
      AgainLater(clock + 1, entry);
      RunAlone(clock + 1, c.s, rest, t, entry, Again(clock + 1, entry));
      LateLog(clock, entry, t, [t] + c.fired, Run(c.s, rest).log);
    }
  }

  lemma AgainLater(clock: nat, entry: Timer)
    requires entry.periodic ==> entry.period > 0
    ensures Again(clock, entry).At? ==> Again(clock, entry).due > clock
  {
  }

  lemma LateHead(clock: nat, s: Timers, t: Id, late: nat)
    requires LateFirst(clock, s, t, late)
    ensures s.list != [] && s.list[0] == t
  {
  }

  lemma LateLog(clock: nat, entry: Timer, t: Id, fired: seq<Id>, rest: seq<seq<Id>>)
    requires entry.periodic ==> entry.period > 0
    requires multiset(fired)[t] == 1 && FiresAsPlanned(entry, Again(clock + 1, entry), clock + 1, t, rest)
    ensures LogFrom(entry, clock + 1, clock, t, [fired] + rest)
  {
    hide FiresIn;
    var log := [fired] + rest;
    forall j: nat | j < |log| ensures multiset(log[j])[t] == if FiresFrom(entry, clock + 1, clock + 1 + j) then 1 else 0 {
      FiresStep(clock, entry, clock, j);
      if j > 0 { assert log[j] == rest[j - 1]; }
      LateStep(clock, entry, j);
    }
  }

  lemma LateStep(clock: nat, entry: Timer, j: nat)
    requires entry.periodic ==> entry.period > 0
    ensures FiresFrom(entry, clock + 1, clock + 1 + j) <==> FiresIn(entry, FirstCheck(clock, clock), clock + 1 + j)
  {
  }

  /** The tick, counted from the first half of the start, in which a timer is found whose start was
      interrupted by `n` ticks. */
  function FirstFound(period: nat, n: nat): nat { if n < period then period else n + 1 }

  /** The late timer gets to the front, and stays there until the next tick. */
  ghost predicate StaysFirst(clock: nat, s: Timers, t: Id, x: nat, late: nat, events: seq<Event>)
    requires Known(s.table, s.list) && t in s.table
  {
    WithinHalf(clock, s, x) && NoneOvertakes(LinkAt(s, t, x), events, late)
  }

  /** A start that `n` ticks interrupt between its two halves: the timer still fires `period` ticks after
      the first half if and only if fewer than `period` ticks came in between, and in the tick after
      the second half if not, a periodic one again every period from then on.  A timer that is linked
      late must get to the front for that. */
  lemma InterruptedStart(clock: nat, n: nat, s: Timers, t: Id, x: nat, events: seq<Event>)
    requires AtRest(clock + n, s) && t in s.table && t !in s.list && s.table[t].period < HALF && n < s.table[t].period + HALF - 1
    requires x == (clock % WORD + s.table[t].period) % WORD
    requires Known(s.table, s.list) && Alone(events, t) && RunEnds(LinkAt(s, t, x), events)
    requires n > s.table[t].period ==> StaysFirst(clock + n, s, t, x, n - s.table[t].period, events)
    ensures n == 0 ==> LinkAt(s, t, x) == Start(s, t)
    ensures LogFrom(s.table[t], FirstFound(s.table[t].period, n), n, t, Run(LinkAt(s, t, x), events).log)
  {
    hide Due, Near, Inv, Window, Run, RunEnds, Alone, LinkAt, FirstCheck, FiresIn, Planned, NoneOvertakes, WithinHalf, LateFirst, Start, LogFrom;
    var entry := s.table[t];
    RestKnown(clock + n, s);
    RestNow(clock + n, s);
    StartLinks(s, t);
    LateDue(clock, n, entry.period);
    if n > entry.period {
      LinkLate(clock + n, s, t, x, n - entry.period);
      LateRuns(clock + n, LinkAt(s, t, x), t, n - entry.period, events);
      LinkEntry(s, t, x);
      ShiftLog(clock, n, entry, LinkAt(s, t, x).table[t], t, Run(LinkAt(s, t, x), events).log);
    } else {
      LinkKeeps(clock + n, s, t, x);
      LinkPlanned(clock + n, s, t, x);
      if entry.periodic && entry.period == 0 {
        ZeroNeverTicks(clock + n, LinkAt(s, t, x), events, t, entry);
        RunRests(clock + n, LinkAt(s, t, x), events);
        EmptyLog(entry, FirstFound(entry.period, n), n, t, Run(LinkAt(s, t, x), events).log);
      } else {
        RunAlone(clock + n, LinkAt(s, t, x), events, t, entry, At(clock + entry.period));
        FoundLog(clock, n, entry, t, Run(LinkAt(s, t, x), events).log);
      }
    }
  }

  lemma RestNow(clock: nat, s: Timers)
    requires AtRest(clock, s)
    ensures s.now == clock % WORD
  {
  }

  lemma LinkEntry(s: Timers, t: Id, x: nat)
    requires t in s.table && Known(s.table, s.list)
    ensures var r := LinkAt(s, t, x); t in r.table && r.table[t] == s.table[t].(timeout := x, active := true)
  {
  }

  lemma EmptyLog(entry: Timer, first: nat, at: nat, t: Id, log: seq<seq<Id>>)
    requires |log| == 0
    ensures LogFrom(entry, first, at, t, log)
  {
  }

  lemma ShiftLog(clock: nat, n: nat, entry: Timer, linked: Timer, t: Id, log: seq<seq<Id>>)
    requires LogFrom(linked, clock + n + 1, clock + n, t, log) && linked.period == entry.period < n && linked.periodic == entry.periodic
    ensures LogFrom(entry, FirstFound(entry.period, n), n, t, log)
  {
    forall j: nat | j < |log| ensures multiset(log[j])[t] == if FiresFrom(entry, n + 1, n + 1 + j) then 1 else 0 {
      assert FiresFrom(linked, clock + n + 1, clock + n + 1 + j) <==> FiresFrom(entry, n + 1, n + 1 + j);
    }
  }

  lemma FoundLog(clock: nat, n: nat, entry: Timer, t: Id, log: seq<seq<Id>>)
    requires (entry.periodic ==> entry.period > 0) && n <= entry.period
    requires FiresAsPlanned(entry, At(clock + entry.period), clock + n, t, log)
    ensures LogFrom(entry, FirstFound(entry.period, n), n, t, log)
  {
    forall j: nat | j < |log| ensures multiset(log[j])[t] == if FiresFrom(entry, FirstFound(entry.period, n), n + 1 + j) then 1 else 0 {
      FoundStep(clock, n, entry, j);
    }
  }

  lemma FoundStep(clock: nat, n: nat, entry: Timer, j: nat)
    requires (entry.periodic ==> entry.period > 0) && n <= entry.period
    ensures FiresFrom(entry, FirstFound(entry.period, n), n + 1 + j) <==> FiresIn(entry, FirstCheck(clock + n, clock + entry.period), clock + n + 1 + j)
  {
  }

  lemma LateDue(clock: nat, n: nat, period: nat)
    requires period < HALF && n < period + HALF - 1
    ensures var x := (clock % WORD + period) % WORD; x < WORD && Due(clock + n, x) == clock + period && (n <= period ==> Near(clock + n, x))
  {
    var x := (clock % WORD + period) % WORD;
    assert (clock + period) % WORD == x;
    DueUnique(clock + n, x, clock + period);
  }

  lemma LinkPlanned(clock: nat, s: Timers, t: Id, x: nat)
    requires t in s.table && Known(s.table, s.list)
    ensures Planned(clock, LinkAt(s, t, x), t, s.table[t], At(Due(clock, x)))
  {
    hide Due;
  }

  /** A timer that is linked late fires in the very next tick if and only if the first timer of the list is
      less than half of the range behind its timeout; otherwise nothing fires in that tick. */
  lemma LateInTime(clock: nat, s: Timers, t: Id, x: nat, late: nat, script: seq<seq<Op>>)
    requires AtRest(clock, s) && t in s.table && t !in s.list && x < WORD && Due(clock, x) == clock - late && 0 < late < HALF - 1
    requires Known(s.table, s.list) && ScriptAlone(script, t) && Ends(NextNow(LinkAt(s, t, x)), script)
    ensures t in TickOf(LinkAt(s, t, x), script).1 <==> WithinHalf(clock, s, x)
    ensures !WithinHalf(clock, s, x) ==> TickOf(LinkAt(s, t, x), script).1 == []
  {
    hide Due, Inv, Window, LinkAt, Fire, CanFire, Check, LateFirst, ScriptAlone;
    var r := LinkAt(s, t, x);
    LinkLate(clock, s, t, x, late);
    var n: nat :| Rounds(NextNow(r), script, n).done;
    CheckIs(NextNow(r), script, n);
    if WithinHalf(clock, s, x) {
      RestAlone(script, t);
      LinkEntry(s, t, x);
      LateFires(clock, r, t, late, FirstOps(script), r.table[t]);
      LateHead(clock, r, t, late);
    } else {
      LinkEntry(s, t, x);
      FarNotDue(clock, s, r, t, x, late);
    }
  }

  lemma FarNotDue(clock: nat, s: Timers, r: Timers, t: Id, x: nat, late: nat)
    requires AtRest(clock, s) && Known(s.table, s.list) && !WithinHalf(clock, s, x) && Due(clock, x) == clock - late && 0 < late < HALF - 1
    requires t in s.table && t !in s.list && r == LinkAt(s, t, x) && r.list == s.list + [t]
    ensures Known(r.table, r.list) && !HeadDue(NextNow(r))
  {
    hide Due, IsDue, Sorted, NoDup;
    var h := s.list[0];
    assert h in s.list && r.list[0] == h && h != t;
    NextTick(clock, s);
    IsDueIs(clock + 1, s.table[h].timeout);
  }
}
