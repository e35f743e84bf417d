/** Mailboxes (`ipc.c`): a ring buffer of words with receivers waiting on one list and senders
    on another. */
module MailboxModel {
  import opened Rings
  import opened KernelModel
  import opened IpcModel

  /** `receivers` is the list of the IPC object, `senders` the mailbox's own. */
  datatype Mailbox = Mailbox(pool: seq<nat>, entry: nat, inOffset: nat, outOffset: nat, receivers: Waits, senders: Waits)

  datatype SendOutcome = Sent | Full | SenderBlocked | SendFailed(err: Err)
  datatype RecvOutcome = Received(value: nat) | Empty | ReceiverBlocked | RecvFailed(err: Err)

  /** An offset after an increment. */
  function Next(offset: nat, size: nat): nat { if offset + 1 >= size then 0 else offset + 1 }

  predicate Sized(m: Mailbox) {
    && m.entry <= |m.pool| && (|m.pool| == 0 || (m.inOffset < |m.pool| && m.outOffset < |m.pool|))
  }

  /** One round of the loop in `rt_mb_send_wait`: the mailbox is full, or the value is stored. */
  function Send(m: Mailbox, t: Tid, value: nat, wait: bool, i: nat): (Mailbox, SendOutcome)
    requires Sized(m) && i <= |m.senders.waiters|
  {
    if m.entry == |m.pool| then
      if wait then (m.(senders := Enqueue(m.senders, t, i)), SenderBlocked) else (m, Full)
    else
      (m.(pool := m.pool[m.inOffset := value], inOffset := Next(m.inOffset, |m.pool|), entry := m.entry + 1,
          receivers := WakeAny(m.receivers)), Sent)
  }

  /** A sender goes on after the rescheduling. */
  function SendAgain(m: Mailbox, t: Tid, value: nat, wait: bool, i: nat): (Mailbox, SendOutcome)
    requires Sized(m) && t in m.senders.woken && i <= |m.senders.waiters|
  {
    var left := m.(senders := Leave(m.senders, t));
    if m.senders.woken[t] != Ok then (left, SendFailed(m.senders.woken[t])) else Send(left, t, value, wait, i)
  }

  /** One round of the loop in `rt_mb_recv`. */
  function Recv(m: Mailbox, t: Tid, wait: bool, i: nat): (Mailbox, RecvOutcome)
    requires Sized(m) && i <= |m.receivers.waiters|
  {
    if m.entry == 0 then
      if wait then (m.(receivers := Enqueue(m.receivers, t, i)), ReceiverBlocked) else (m, Empty)
    else
      (m.(outOffset := Next(m.outOffset, |m.pool|), entry := m.entry - 1, senders := WakeAny(m.senders)), Received(m.pool[m.outOffset]))
  }

  function RecvAgain(m: Mailbox, t: Tid, wait: bool, i: nat): (Mailbox, RecvOutcome)
    requires Sized(m) && t in m.receivers.woken && i <= |m.receivers.waiters|
  {
    var left := m.(receivers := Leave(m.receivers, t));
    if m.receivers.woken[t] != Ok then (left, RecvFailed(m.receivers.woken[t])) else Recv(left, t, wait, i)
  }

  function Reset(m: Mailbox): Mailbox {
    Mailbox(m.pool, 0, 0, 0, WakeAll(m.receivers), WakeAll(m.senders))
  }

  // ----- the ring buffer -----

  /** Slot `k` after `offset`. */
  function At(offset: nat, k: nat, size: nat): int { if offset + k < size then offset + k else offset + k - size }

  ghost predicate RingOk(m: Mailbox) { Sized(m) && m.inOffset == At(m.outOffset, m.entry, |m.pool|) }

  /** The stored values, oldest first. */
  ghost function Contents(m: Mailbox): seq<nat>
    requires RingOk(m)
  {
    seq(m.entry, k requires 0 <= k < m.entry => m.pool[At(m.outOffset, k, |m.pool|)])
  }

  lemma OffsetsAgree(m: Mailbox)
    requires RingOk(m) && |m.pool| > 0
    ensures m.inOffset == (m.outOffset + m.entry) % |m.pool|
  {
    WrapsOnce(m.outOffset + m.entry, |m.pool|);
  }

  lemma AtLeastTwice(q: nat, n: nat)
    ensures q >= 2 ==> q * n >= 2 * n
  {
  }

  lemma WrapsOnce(x: nat, n: nat)
    requires 0 < n && x < 2 * n
    ensures x % n == if x < n then x else x - n
  {
    var q := x / n;
    assert x == q * n + x % n;
    AtLeastTwice(q, n);
    if q == 0 { assert x == x % n; }
    if q == 1 { assert x == n + x % n; }
  }

  /** Storing appends, and fetching takes the oldest. */
  lemma SendAppends(m: Mailbox, t: Tid, value: nat, wait: bool, i: nat)
    requires RingOk(m) && i <= |m.senders.waiters|
    ensures var (r, out) := Send(m, t, value, wait, i);
      RingOk(r) && Contents(r) == if out == Sent then Contents(m) + [value] else Contents(m)
  {
    var (r, out) := Send(m, t, value, wait, i);
    if out == Sent {
      assert Contents(r) == Contents(m) + [value];
    }
  }

  lemma RecvTakesOldest(m: Mailbox, t: Tid, wait: bool, i: nat)
    requires RingOk(m) && i <= |m.receivers.waiters|
    ensures var (r, out) := Recv(m, t, wait, i);
      RingOk(r) && Contents(m) == if out.Received? then [out.value] + Contents(r) else Contents(r)
  {
    var (r, out) := Recv(m, t, wait, i);
    if out.Received? {
      var c := Contents(r);
      assert forall k :: 0 <= k < |c| ==> c[k] == Contents(m)[k + 1];
      assert Contents(m) == [out.value] + c;
    }
  }

  // ----- what the calls answer -----

  /** A value is stored exactly when there is room: it goes behind the others, and the first waiting receiver
      is resumed.  Otherwise the call fails, or its thread joins the waiting senders. */
  lemma SendAnswers(m: Mailbox, t: Tid, value: nat, wait: bool, i: nat)
    requires RingOk(m) && i <= |m.senders.waiters|
    ensures var (r, out) := Send(m, t, value, wait, i); var full := |Contents(m)| == |m.pool|;
      && RingOk(r) && |r.pool| == |m.pool|
      && (out == Sent <==> !full) && (out == Full <==> full && !wait) && (out == SenderBlocked <==> full && wait)
      && Contents(r) == (if full then Contents(m) else Contents(m) + [value])
      && (if full then r.receivers == m.receivers else FirstResumed(m.receivers, r.receivers))
      && (if full && wait then Joins(m.senders, r.senders, t) else r.senders == m.senders)
  {
    hide Contents;
    ContentsLength(m);
    SendAppends(m, t, value, wait, i);
    WaitsAre(m.receivers, t, 0);
    WaitsAre(m.senders, t, i);
  }

  /** The oldest value is taken exactly when there is one, and the first waiting sender is resumed. */
  lemma RecvAnswers(m: Mailbox, t: Tid, wait: bool, i: nat)
    requires RingOk(m) && i <= |m.receivers.waiters|
    ensures var (r, out) := Recv(m, t, wait, i); var none := Contents(m) == [];
      && RingOk(r) && |r.pool| == |m.pool|
      && (out.Received? <==> !none) && (out == Empty <==> none && !wait) && (out == ReceiverBlocked <==> none && wait)
      && (if none then Contents(r) == [] else Contents(m) == [out.value] + Contents(r))
      && (if none then r.senders == m.senders else FirstResumed(m.senders, r.senders))
      && (if none && wait then Joins(m.receivers, r.receivers, t) else r.receivers == m.receivers)
  {
    hide Contents;
    ContentsLength(m);
    RecvTakesOldest(m, t, wait, i);
    ContentsLength(Recv(m, t, wait, i).0);
    WaitsAre(m.senders, t, 0);
    WaitsAre(m.receivers, t, i);
  }

  lemma ContentsLength(m: Mailbox)
    requires RingOk(m)
    ensures |Contents(m)| == m.entry
  {
  }

  /** A thread that goes on after the rescheduling gives up with the error it was resumed with, or tries
      again as if it called anew. */
  lemma GoesOn(m: Mailbox, t: Tid, value: nat, wait: bool, i: nat)
    requires RingOk(m)
    ensures t in m.senders.woken && i <= |m.senders.waiters| ==>
      var err := m.senders.woken[t]; var left := m.(senders := Leave(m.senders, t));
      t !in left.senders.woken && SendAgain(m, t, value, wait, i) == if err == Ok then Send(left, t, value, wait, i) else (left, SendFailed(err))
    ensures t in m.receivers.woken && i <= |m.receivers.waiters| ==>
      var err := m.receivers.woken[t]; var left := m.(receivers := Leave(m.receivers, t));
      t !in left.receivers.woken && RecvAgain(m, t, wait, i) == if err == Ok then Recv(left, t, wait, i) else (left, RecvFailed(err))
  {
  }

  /** A reset empties the mailbox and fails all who wait. */
  lemma ResetAnswers(m: Mailbox)
    requires RingOk(m)
    ensures var r := Reset(m);
      RingOk(r) && Contents(r) == [] && |r.pool| == |m.pool| && AllFailed(m.receivers, r.receivers) && AllFailed(m.senders, r.senders)
  {
    WaitsAre(m.receivers, 0, 0);
    WaitsAre(m.senders, 0, 0);
  }

  // ----- no lost wake-up -----

  ghost predicate Inv(m: Mailbox) {
    && RingOk(m) && Sound(m.receivers) && Sound(m.senders)
    && Attended(m.receivers, m.entry) && Attended(m.senders, |m.pool| - m.entry)
  }

  lemma SendKeeps(m: Mailbox, t: Tid, value: nat, wait: bool, i: nat)
    requires RingOk(m) && Sound(m.receivers) && Sound(m.senders) && Attended(m.receivers, m.entry)
    requires m.entry < |m.pool| ==> Attended(m.senders, |m.pool| - m.entry - 1)
    requires i <= |m.senders.waiters| && !Inside(m.senders, t)
    ensures Inv(Send(m, t, value, wait, i).0)
  {
    SendAppends(m, t, value, wait, i);
    if m.entry < |m.pool| { WakeAttends(m.receivers, m.entry); } else { EnqueueKeeps(m.senders, t, i); }
  }

  lemma RecvKeeps(m: Mailbox, t: Tid, wait: bool, i: nat)
    requires RingOk(m) && Sound(m.receivers) && Sound(m.senders) && Attended(m.senders, |m.pool| - m.entry)
    requires m.entry > 0 ==> Attended(m.receivers, m.entry - 1)
    requires i <= |m.receivers.waiters| && !Inside(m.receivers, t)
    ensures Inv(Recv(m, t, wait, i).0)
  {
    RecvTakesOldest(m, t, wait, i);
    if m.entry > 0 { WakeAttends(m.senders, |m.pool| - m.entry); } else { EnqueueKeeps(m.receivers, t, i); }
  }

  lemma SendAgainKeeps(m: Mailbox, t: Tid, value: nat, wait: bool, i: nat)
    requires Inv(m) && t in m.senders.woken && i <= |m.senders.waiters|
    ensures Inv(SendAgain(m, t, value, wait, i).0)
  {
    hide NoDup;
    WaitsKeep(m.senders, t, 0);
    ResumedAfterLeave(m.senders, t);
    if m.senders.woken[t] == Ok { SendKeeps(m.(senders := Leave(m.senders, t)), t, value, wait, i); }
  }

  lemma RecvAgainKeeps(m: Mailbox, t: Tid, wait: bool, i: nat)
    requires Inv(m) && t in m.receivers.woken && i <= |m.receivers.waiters|
    ensures Inv(RecvAgain(m, t, wait, i).0)
  {
    hide NoDup;
    WaitsKeep(m.receivers, t, 0);
    ResumedAfterLeave(m.receivers, t);
    if m.receivers.woken[t] == Ok { RecvKeeps(m.(receivers := Leave(m.receivers, t)), t, wait, i); }
  }

  datatype Action =
    | SendBy(t: Tid, value: nat, wait: bool, i: nat)
    | SenderGoesOn(t: Tid, value: nat, wait: bool, i: nat)
    | RecvBy(t: Tid, wait: bool, i: nat)
    | ReceiverGoesOn(t: Tid, wait: bool, i: nat)
    | SenderTimesOut(t: Tid)
    | ReceiverTimesOut(t: Tid)
    | ResetAll

  predicate Enabled(m: Mailbox, a: Action) {
    match a
    case SendBy(t, _, _, i) => !Inside(m.senders, t) && i <= |m.senders.waiters|
    case SenderGoesOn(t, _, _, i) => t in m.senders.woken && i <= |m.senders.waiters|
    case RecvBy(t, _, i) => !Inside(m.receivers, t) && i <= |m.receivers.waiters|
    case ReceiverGoesOn(t, _, i) => t in m.receivers.woken && i <= |m.receivers.waiters|
    case SenderTimesOut(t) => t in m.senders.waiters
    case ReceiverTimesOut(t) => t in m.receivers.waiters
    case ResetAll => true
  }

  /** `out`: the value a step stores or fetches, if any. */
  datatype Moved = Nothing | Stored(value: nat) | Fetched(value: nat)

  function Step(m: Mailbox, a: Action): (Mailbox, Moved)
    requires Sized(m) && Enabled(m, a)
  {
    match a
    case SendBy(t, value, wait, i) =>
      var (r, out) := Send(m, t, value, wait, i);
      (r, if out == Sent then Stored(value) else Nothing)
    case SenderGoesOn(t, value, wait, i) =>
      var (r, out) := SendAgain(m, t, value, wait, i);
      (r, if out == Sent then Stored(value) else Nothing)
    case RecvBy(t, wait, i) =>
      var (r, out) := Recv(m, t, wait, i);
      (r, if out.Received? then Fetched(out.value) else Nothing)
    case ReceiverGoesOn(t, wait, i) =>
      var (r, out) := RecvAgain(m, t, wait, i);
      (r, if out.Received? then Fetched(out.value) else Nothing)
    case SenderTimesOut(t) => (m.(senders := IpcModel.Expire(m.senders, t)), Nothing)
    case ReceiverTimesOut(t) => (m.(receivers := IpcModel.Expire(m.receivers, t)), Nothing)
    case ResetAll => (Reset(m), Nothing)
  }

  lemma ExpireKeeps(m: Mailbox, t: Tid)
    requires Inv(m)
    ensures t in m.senders.waiters ==> Inv(m.(senders := IpcModel.Expire(m.senders, t)))
    ensures t in m.receivers.waiters ==> Inv(m.(receivers := IpcModel.Expire(m.receivers, t)))
  {
    WaitsKeep(m.senders, t, 0);
    WaitsKeep(m.receivers, t, 0);
    if t in m.senders.waiters { ResumedAfterExpire(m.senders, t); }
    if t in m.receivers.waiters { ResumedAfterExpire(m.receivers, t); }
  }

  lemma StepKeeps(m: Mailbox, a: Action)
    requires Inv(m) && Enabled(m, a)
    ensures Inv(Step(m, a).0)
  {
    match a
    case SendBy(t, value, wait, i) => SendKeeps(m, t, value, wait, i);
    case SenderGoesOn(t, value, wait, i) => SendAgainKeeps(m, t, value, wait, i);
    case RecvBy(t, wait, i) => RecvKeeps(m, t, wait, i);
    case ReceiverGoesOn(t, wait, i) => RecvAgainKeeps(m, t, wait, i);
    case SenderTimesOut(t) => ExpireKeeps(m, t);
    case ReceiverTimesOut(t) => ExpireKeeps(m, t);
    case ResetAll =>
      WaitsKeep(m.senders, 0, 0);
      WaitsKeep(m.receivers, 0, 0);
  }

  // ----- whole runs -----

  ghost predicate CanRun(m: Mailbox, run: seq<Action>)
    requires Inv(m)
    decreases |run|
  {
    run == [] || (Enabled(m, run[0]) && (StepKeeps(m, run[0]); CanRun(Step(m, run[0]).0, run[1..])))
  }

  ghost function Exec(m: Mailbox, run: seq<Action>): (r: Mailbox)
    requires Inv(m) && CanRun(m, run)
    ensures Inv(r) && |r.pool| == |m.pool|
    decreases |run|
  {
    if run == [] then m else (StepKeeps(m, run[0]); Exec(Step(m, run[0]).0, run[1..]))
  }

  ghost function StoredIn(m: Mailbox, run: seq<Action>): seq<nat>
    requires Inv(m) && CanRun(m, run)
    decreases |run|
  {
    if run == [] then []
    else
      var (r, moved) := Step(m, run[0]);
      (if moved.Stored? then [moved.value] else []) + (StepKeeps(m, run[0]); StoredIn(r, run[1..]))
  }

  /** The values that leave the mailbox: fetched, or thrown away by a reset. */
  ghost function LeftIn(m: Mailbox, run: seq<Action>): seq<nat>
    requires Inv(m) && CanRun(m, run)
    decreases |run|
  {
    if run == [] then []
    else
      var (r, moved) := Step(m, run[0]);
      (if moved.Fetched? then [moved.value] else if run[0].ResetAll? then Contents(m) else [])
      + (StepKeeps(m, run[0]); LeftIn(r, run[1..]))
  }

  /** Values come out in the order in which they were stored, each once. */
  lemma {:induction false} FirstInFirstOut(m: Mailbox, run: seq<Action>)
    requires Inv(m) && CanRun(m, run)
    ensures Contents(m) + StoredIn(m, run) == LeftIn(m, run) + Contents(Exec(m, run))
    decreases |run|
  {
    hide Step, Attended, Sound, Contents;
    if run != [] {
      var (r, moved) := Step(m, run[0]);
      StepKeeps(m, run[0]);
      StepMoves(m, run[0]);
      FirstInFirstOut(r, run[1..]);
      var s := if moved.Stored? then [moved.value] else [];
      var l := if moved.Fetched? then [moved.value] else if run[0].ResetAll? then Contents(m) else [];
      Chain(Contents(m), s, StoredIn(r, run[1..]), l, LeftIn(r, run[1..]), Contents(r), Contents(Exec(m, run)));
    }
  }

  lemma Chain<T>(c: seq<T>, s: seq<T>, ss: seq<T>, l: seq<T>, ls: seq<T>, d: seq<T>, e: seq<T>)
    requires c + s == l + d && d + ss == ls + e
    ensures c + (s + ss) == (l + ls) + e
  {
    calc {
      c + (s + ss);
      (c + s) + ss;
      l + (d + ss);
      (l + ls) + e;
    }
  }

  lemma StepMoves(m: Mailbox, a: Action)
    requires Inv(m) && Enabled(m, a) && Inv(Step(m, a).0)
    ensures var (r, moved) := Step(m, a);
      Contents(m) + (if moved.Stored? then [moved.value] else [])
      == (if moved.Fetched? then [moved.value] else if a.ResetAll? then Contents(m) else []) + Contents(r)
  {
    match a
    case SendBy(t, value, wait, i) => SendAppends(m, t, value, wait, i);
    case SenderGoesOn(t, value, wait, i) => SendAppends(m.(senders := Leave(m.senders, t)), t, value, wait, i);
    case RecvBy(t, wait, i) => RecvTakesOldest(m, t, wait, i);
    case ReceiverGoesOn(t, wait, i) => RecvTakesOldest(m.(receivers := Leave(m.receivers, t)), t, wait, i);
    case _ =>
  }

  ghost function Fresh(pool: seq<nat>): Mailbox { Mailbox(pool, 0, 0, 0, Waits([], map[]), Waits([], map[])) }

  /** No wake-up is lost, on either side: in every reachable state, receivers in the wait list
      mean that the stored values are no more than the receivers already resumed for them, and
      senders in the wait list mean the same of the free slots.  Once everyone resumed has run
      on, receivers wait only for an empty mailbox and senders only for a full one. */
  lemma NoLostWakeup(pool: seq<nat>, run: seq<Action>)
    requires CanRun(Fresh(pool), run)
    ensures var m := Exec(Fresh(pool), run);
      && (m.receivers.waiters != [] ==> m.entry <= |Resumed(m.receivers)|)
      && (m.senders.waiters != [] ==> |pool| - m.entry <= |Resumed(m.senders)|)
      && (Resumed(m.receivers) == {} && m.receivers.waiters != [] ==> m.entry == 0)
      && (Resumed(m.senders) == {} && m.senders.waiters != [] ==> m.entry == |pool|)
      && (|pool| > 0 ==> m.inOffset == (m.outOffset + m.entry) % |pool|)
  {
    var m := Exec(Fresh(pool), run);
    if |pool| > 0 { OffsetsAgree(m); }
  }
}

module Mailboxes {
  import opened Rings
  import opened KernelModel
  import opened IpcModel
  import opened Scheduling
  import opened Ipc
  import M = MailboxModel

  const SIZES: nat := 0x1_0000

  class Mailbox {
    const receivers: IpcObject
    const senders: IpcObject
    const pool: array<nat>
    const size: nat
    var entry: nat
    var inOffset: nat
    var outOffset: nat

    ghost predicate Valid()
      reads this, pool, receivers, senders, receivers.sched, receivers.sched.bitmap, receivers.sched.nodes
    {
      Allocated() && M.Inv(View())
    }

    ghost predicate Allocated()
      reads this, pool, receivers, senders, receivers.sched, receivers.sched.bitmap, receivers.sched.nodes
    {
      Beside(receivers, senders) && size <= pool.Length
    }

    ghost function View(): M.Mailbox
      requires Allocated()
      reads this, pool, receivers, senders, receivers.sched, receivers.sched.bitmap, receivers.sched.nodes
    {
      M.Mailbox(pool[..size], entry, inOffset, outOffset, receivers.View(), senders.View())
    }

    ghost predicate CalledByRunning()
      requires Valid()
      reads this, pool, receivers, senders, receivers.sched, receivers.sched.bitmap, receivers.sched.nodes
    {
      var sched := receivers.sched;
      sched.threads[sched.current].stat == Running && sched.current !in receivers.inside + senders.inside
    }

    /** `rt_mb_init`; what is kept of the size is a 16-bit word. */
    constructor (sched: Scheduler, q: nat, sendQ: nat, pool: array<nat>, size: nat, flag: Flag)
      requires sched.Valid() && WaitList(q) !in sched.lists && WaitList(sendQ) !in sched.lists && q != sendQ
      requires size <= pool.Length
      modifies sched`lists, sched.nodes
      ensures Valid() && fresh(receivers) && fresh(senders) && receivers.sched == sched && this.pool == pool
      ensures View() == M.Fresh(pool[..size % SIZES])
    {
      hide WaitsOf, WaitsOk, Shape, Inv;
      var r := new IpcObject(sched, q, flag);
      var s := NewBeside(r, sendQ, flag);
      receivers, senders := r, s;
      this.pool, this.size := pool, size % SIZES;
      entry, inOffset, outOffset := 0, 0, 0;
    }

    /** One round of the loop of `rt_mb_send_wait`, up to a rescheduling. */
    method SendRound(value: nat, time: int) returns (out: M.SendOutcome)
      requires Allocated() && M.Sized(View())
      requires receivers.sched.threads[receivers.sched.current].stat == Running
      requires receivers.sched.current !in receivers.inside + senders.inside
      modifies this, pool, senders, receivers.sched`threads, receivers.sched`lists, receivers.sched.bitmap, receivers.sched.nodes
      ensures Allocated()
      ensures old(senders.Place()) <= |old(View()).senders.waiters|
      ensures (View(), out) == M.Send(old(View()), receivers.sched.current, value, time != 0, old(senders.Place()))
    {
      hide WaitsOf, WaitsOk, Shape;
      senders.Caller();
      if entry == size {
        AssignErrorBeside(senders, receivers, Ok);
        if time == 0 {
          return M.Full;
        }
        SuspendBeside(senders, receivers, time > 0);
        return M.SenderBlocked;
      }
      pool[inOffset] := value;
      inOffset := inOffset + 1;
      if inOffset >= size {
        inOffset := 0;
      }
      entry := entry + 1;
      var some := receivers.HasWaiters();
      if some {
        ResumeFirstBeside(receivers, senders);
      }
      return M.Sent;
    }

    /** One round of the loop of `rt_mb_recv`, up to a rescheduling. */
    method RecvRound(time: int) returns (out: M.RecvOutcome)
      requires Allocated() && M.Sized(View())
      requires receivers.sched.threads[receivers.sched.current].stat == Running
      requires receivers.sched.current !in receivers.inside + senders.inside
      modifies this, receivers, receivers.sched`threads, receivers.sched`lists, receivers.sched.bitmap, receivers.sched.nodes
      ensures Allocated()
      ensures old(receivers.Place()) <= |old(View()).receivers.waiters|
      ensures (View(), out) == M.Recv(old(View()), receivers.sched.current, time != 0, old(receivers.Place()))
    {
      hide WaitsOf, WaitsOk, Shape;
      receivers.Caller();
      if entry == 0 {
        AssignErrorBeside(receivers, senders, Ok);
        if time == 0 {
          AssignErrorBeside(receivers, senders, Timeout);
          return M.Empty;
        }
        SuspendBeside(receivers, senders, time > 0);
        return M.ReceiverBlocked;
      }
      var value := pool[outOffset];
      outOffset := outOffset + 1;
      if outOffset >= size {
        outOffset := 0;
      }
      entry := entry - 1;
      var some := senders.HasWaiters();
      if some {
        ResumeFirstBeside(senders, receivers);
      }
      return M.Received(value);
    }

    /** `rt_mb_send_wait` up to a rescheduling */
    method Send(value: nat, time: int) returns (out: M.SendOutcome)
      requires Valid() && CalledByRunning()
      modifies this, pool, senders, receivers.sched`threads, receivers.sched`lists, receivers.sched.bitmap, receivers.sched.nodes
      ensures Valid() && old(senders.Place()) <= |old(View()).senders.waiters|
      ensures (View(), out) == M.Send(old(View()), receivers.sched.current, value, time != 0, old(senders.Place()))
    {
      hide WaitsOf, WaitsOk, Shape;
      ghost var m, t, i := View(), receivers.sched.current, senders.Place();
      senders.Caller();
      M.StepKeeps(m, M.SendBy(t, value, time != 0, i));
      if entry == size && time == 0 {
        return M.Full;
      }
      out := SendRound(value, time);
    }

    /** `rt_mb_send_wait` after a rescheduling; the waiting time has been measured from tick
        `start` to tick `now`. */
    method SendGoesOn(value: nat, time: int, start: nat, now: nat) returns (out: M.SendOutcome)
      requires Valid() && receivers.sched.threads[receivers.sched.current].stat == Running
      requires receivers.sched.current in senders.inside
      modifies this, pool, senders, receivers.sched`threads, receivers.sched`lists, receivers.sched.bitmap, receivers.sched.nodes
      ensures Valid()
      ensures receivers.sched.current in old(View()).senders.woken && old(senders.Place()) <= |old(View()).senders.waiters|
      ensures (View(), out) == M.SendAgain(old(View()), receivers.sched.current, value, TimeLeft(time, start, now) != 0, old(senders.Place()))
    {
      hide WaitsOf, WaitsOk, Shape, TimeLeft;
      ghost var m, t, i := View(), receivers.sched.current, senders.Place();
      senders.PlaceInList();
      var err := senders.Resumed();
      M.StepKeeps(m, M.SenderGoesOn(t, value, TimeLeft(time, start, now) != 0, i));
      if err != Ok {
        return M.SendFailed(err);
      }
      out := SendRound(value, TimeLeft(time, start, now));
    }

    /** `rt_mb_recv` up to a rescheduling */
    method Recv(time: int) returns (out: M.RecvOutcome)
      requires Valid() && CalledByRunning()
      modifies this, receivers, receivers.sched`threads, receivers.sched`lists, receivers.sched.bitmap, receivers.sched.nodes
      ensures Valid() && old(receivers.Place()) <= |old(View()).receivers.waiters|
      ensures (View(), out) == M.Recv(old(View()), receivers.sched.current, time != 0, old(receivers.Place()))
    {
      hide WaitsOf, WaitsOk, Shape;
      ghost var m, t, i := View(), receivers.sched.current, receivers.Place();
      receivers.Caller();
      M.StepKeeps(m, M.RecvBy(t, time != 0, i));
      if entry == 0 && time == 0 {
        return M.Empty;
      }
      out := RecvRound(time);
    }

    /** `rt_mb_recv` after a rescheduling */
    method RecvGoesOn(time: int, start: nat, now: nat) returns (out: M.RecvOutcome)
      requires Valid() && receivers.sched.threads[receivers.sched.current].stat == Running
      requires receivers.sched.current in receivers.inside
      modifies this, receivers, receivers.sched`threads, receivers.sched`lists, receivers.sched.bitmap, receivers.sched.nodes
      ensures Valid()
      ensures receivers.sched.current in old(View()).receivers.woken && old(receivers.Place()) <= |old(View()).receivers.waiters|
      ensures (View(), out) == M.RecvAgain(old(View()), receivers.sched.current, TimeLeft(time, start, now) != 0, old(receivers.Place()))
    {
      hide WaitsOf, WaitsOk, Shape, TimeLeft;
      ghost var m, t, i := View(), receivers.sched.current, receivers.Place();
      receivers.PlaceInList();
      var err := receivers.Resumed();
      M.StepKeeps(m, M.ReceiverGoesOn(t, TimeLeft(time, start, now) != 0, i));
      if err != Ok {
        return M.RecvFailed(err);
      }
      out := RecvRound(TimeLeft(time, start, now));
    }

    /** The timer of a waiting sender or receiver fires. */
    method SenderTimeout(t: Tid)
      requires Valid() && t in View().senders.waiters
      modifies receivers.sched, receivers.sched.bitmap, receivers.sched.nodes
      ensures Valid() && View() == old(View()).(senders := IpcModel.Expire(old(View()).senders, t))
    {
      hide WaitsOf, WaitsOk, Shape;
      M.ExpireKeeps(View(), t);
      TimeoutBeside(senders, receivers, t);
    }

    method ReceiverTimeout(t: Tid)
      requires Valid() && t in View().receivers.waiters
      modifies receivers.sched, receivers.sched.bitmap, receivers.sched.nodes
      ensures Valid() && View() == old(View()).(receivers := IpcModel.Expire(old(View()).receivers, t))
    {
      hide WaitsOf, WaitsOk, Shape;
      M.ExpireKeeps(View(), t);
      TimeoutBeside(receivers, senders, t);
    }

    /** `rt_mb_control` with `RT_IPC_CMD_RESET`, up to the rescheduling */
    method Reset()
      requires Valid()
      modifies this, receivers.sched`threads, receivers.sched`lists, receivers.sched.bitmap, receivers.sched.nodes
      ensures Valid() && View() == M.Reset(old(View()))
    {
      hide WaitsOf, WaitsOk, Shape;
      M.StepKeeps(View(), M.ResetAll);
      ResumeAllBeside(receivers, senders);
      ResumeAllBeside(senders, receivers);
      entry, inOffset, outOffset := 0, 0, 0;
    }
  }
}
