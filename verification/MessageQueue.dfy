/** Message queues (`ipc.c`).  A message is copied into its slot, and out of it, outside the
    critical sections, so a slot is owned by a sender or a receiver for a while. */
module MessageQueueModel {
  import opened Rings
  import opened KernelModel
  import opened IpcModel

  type Slot = nat
  type Bytes = seq<nat>

  /** One call of a send or receive function. */
  type Call = nat

  /** What a call does with the slot it holds: a sender has taken a free slot, or has copied its
      message there; a receiver has taken the first message of the queue. */
  datatype Holding =
    | Filling(slot: Slot, msg: Bytes, urgent: bool)
    | Filled(slot: Slot, msg: Bytes, urgent: bool)
    | Emptying(slot: Slot, msg: Bytes)

  /** `mail`: the messages of the queue, as they were sent. */
  datatype Queue = Queue(msgSize: nat, data: seq<Bytes>, free: seq<Slot>, queue: seq<Slot>, mail: seq<Bytes>,
                         held: map<Call, Holding>, w: Waits)

  datatype SendOutcome = Reserved(slot: Slot) | Full | TooLong
  datatype RecvOutcome = Fetched(slot: Slot) | Empty | Blocked | Failed(err: Err)

  // ----- the regions of the functions -----

  /** `rt_mq_send` and `rt_mq_urgent`, first region */
  function Reserve(m: Queue, c: Call, msg: Bytes, urgent: bool): (Queue, SendOutcome) {
    if |msg| > m.msgSize then (m, TooLong)
    else if m.free == [] then (m, Full)
    else (m.(free := m.free[1..], held := m.held[c := Filling(m.free[0], msg, urgent)]), Reserved(m.free[0]))
  }

  /** The copying between the regions: the message is written over the start of the slot. */
  function Copy(m: Queue, c: Call): Queue
    requires CanCopy(m, c)
  {
    var h := m.held[c];
    m.(data := m.data[h.slot := h.msg + m.data[h.slot][|h.msg|..]], held := m.held[c := Filled(h.slot, h.msg, h.urgent)])
  }

  predicate CanCopy(m: Queue, c: Call) {
    c in m.held && m.held[c].Filling? && m.held[c].slot < |m.data| && |m.held[c].msg| <= |m.data[m.held[c].slot]|
  }

  /** The second region: an urgent message goes to the front. */
  function LinkUp(m: Queue, c: Call): Queue
    requires c in m.held && m.held[c].Filled?
  {
    var h := m.held[c];
    m.(queue := if h.urgent then [h.slot] + m.queue else m.queue + [h.slot],
       mail := if h.urgent then [h.msg] + m.mail else m.mail + [h.msg],
       held := m.held - {c}, w := WakeAny(m.w))
  }

  /** One round of the loop in `rt_mq_recv`. */
  function Fetch(m: Queue, c: Call, t: Tid, wait: bool, i: nat): (Queue, RecvOutcome)
    requires i <= |m.w.waiters| && |m.mail| == |m.queue|
  {
    if m.queue == [] then
      if wait then (m.(w := Enqueue(m.w, t, i)), Blocked) else (m, Empty)
    else
      (m.(queue := m.queue[1..], mail := m.mail[1..], held := m.held[c := Emptying(m.queue[0], m.mail[0])]), Fetched(m.queue[0]))
  }

  function FetchAgain(m: Queue, c: Call, t: Tid, wait: bool, i: nat): (Queue, RecvOutcome)
    requires t in m.w.woken && i <= |m.w.waiters| && |m.mail| == |m.queue|
  {
    var left := m.(w := Leave(m.w, t));
    if m.w.woken[t] != Ok then (left, Failed(m.w.woken[t])) else Fetch(left, c, t, wait, i)
  }

  /** What a receiver with a buffer of `size` bytes reads. */
  function ReadOut(m: Queue, slot: Slot, size: nat): Bytes
    requires slot < |m.data| && |m.data[slot]| == m.msgSize
  {
    m.data[slot][..if size > m.msgSize then m.msgSize else size]
  }

  /** The last region of `rt_mq_recv`. */
  function GiveBack(m: Queue, c: Call): Queue
    requires c in m.held
  {
    m.(free := [m.held[c].slot] + m.free, held := m.held - {c})
  }

  function Reverse<T(!new)>(s: seq<T>): (r: seq<T>)
    ensures |r| == |s| && forall x :: x in r <==> x in s
  {
    if s == [] then [] else
      assert s == [s[0]] + s[1..];
      Reverse(s[1..]) + [s[0]]
  }

  /** `rt_mq_control` with `RT_IPC_CMD_RESET`: the queued slots are freed one by one. */
  function Reset(m: Queue): Queue {
    m.(free := Reverse(m.queue) + m.free, queue := [], mail := [], w := WakeAll(m.w))
  }

  // ----- every slot has one owner -----

  ghost predicate Holds(held: map<Call, Holding>, x: Slot) { exists c :: c in held && held[c].slot == x }

  /** Each of the `n` slots is free, queued, or held by one call. */
  ghost predicate Owned(free: seq<Slot>, queue: seq<Slot>, held: map<Call, Holding>, n: nat) {
    && NoDup(free) && NoDup(queue)
    && (forall x :: x in free ==> x < n && x !in queue)
    && (forall x :: x in queue ==> x < n)
    && (forall c :: c in held ==> held[c].slot < n && held[c].slot !in free && held[c].slot !in queue)
    && (forall c, d :: c in held && d in held && c != d ==> held[c].slot != held[d].slot)
    && (forall x :: 0 <= x < n ==> x in free || x in queue || Holds(held, x))
  }

  ghost predicate MailOk(m: Queue) {
    && |m.mail| == |m.queue|
    && (forall x :: 0 <= x < |m.data| ==> |m.data[x]| == m.msgSize)
    && (forall k :: 0 <= k < |m.queue| ==> m.queue[k] < |m.data| && m.mail[k] <= m.data[m.queue[k]])
  }

  ghost predicate HeldOk(m: Queue, h: Holding) {
    && h.slot < |m.data| && |h.msg| <= m.msgSize && (!h.Filling? ==> h.msg <= m.data[h.slot])
  }

  ghost predicate HoldingsOk(m: Queue) { forall c :: c in m.held ==> HeldOk(m, m.held[c]) }

  ghost predicate Inv(m: Queue) {
    && Owned(m.free, m.queue, m.held, |m.data|)
    && MailOk(m) && HoldingsOk(m)
    && Sound(m.w) && Attended(m.w, |m.queue|)
  }

  lemma TakeFreeKeeps(free: seq<Slot>, queue: seq<Slot>, held: map<Call, Holding>, n: nat, c: Call, h: Holding)
    requires Owned(free, queue, held, n) && free != [] && c !in held && h.slot == free[0]
    ensures Owned(free[1..], queue, held[c := h], n)
  {
    FirstTaken(free);
    forall x | 0 <= x < n ensures x in free[1..] || x in queue || Holds(held[c := h], x) { HoldsMore(held, c, h, x); }
  }

  lemma FirstTaken(l: seq<Slot>)
    requires NoDup(l) && l != []
    ensures NoDup(l[1..]) && l[0] in l && l[0] !in l[1..] && forall x :: x in l <==> x == l[0] || x in l[1..]
  {
    assert l == [l[0]] + l[1..];
  }

  lemma HoldsMore(held: map<Call, Holding>, c: Call, h: Holding, x: Slot)
    requires c !in held
    ensures Holds(held[c := h], x) <==> x == h.slot || Holds(held, x)
  {
    var r := held[c := h];
    if x == h.slot { assert c in r && r[c].slot == x; }
    if Holds(held, x) { var d :| d in held && held[d].slot == x; assert d in r && r[d].slot == x; }
    if Holds(r, x) { var d :| d in r && r[d].slot == x; assert d != c ==> d in held && held[d].slot == x; }
  }

  lemma TakeQueueKeeps(free: seq<Slot>, queue: seq<Slot>, held: map<Call, Holding>, n: nat, c: Call, h: Holding)
    requires Owned(free, queue, held, n) && queue != [] && c !in held && h.slot == queue[0]
    ensures Owned(free, queue[1..], held[c := h], n)
  {
    FirstTaken(queue);
    forall x | 0 <= x < n ensures x in free || x in queue[1..] || Holds(held[c := h], x) { HoldsMore(held, c, h, x); }
  }

  lemma StillHolds(held: map<Call, Holding>, c: Call, x: Slot)
    requires c in held && held[c].slot != x
    ensures Holds(held - {c}, x) <==> Holds(held, x)
  {
    if Holds(held, x) { var d :| d in held && held[d].slot == x; assert d in held - {c}; }
  }

  /** A held slot goes into the free list or into the queue. */
  lemma LetGoKeeps(free: seq<Slot>, queue: seq<Slot>, held: map<Call, Holding>, n: nat, c: Call)
    requires Owned(free, queue, held, n) && c in held
    ensures var x := held[c].slot;
      && Owned([x] + free, queue, held - {c}, n)
      && Owned(free, [x] + queue, held - {c}, n)
      && Owned(free, queue + [x], held - {c}, n)
  {
    var s := held[c].slot;
    forall x | 0 <= x < n && x != s ensures Holds(held - {c}, x) <==> Holds(held, x) { StillHolds(held, c, x); }
    assert forall x :: x in queue + [s] <==> x == s || x in queue;
    assert NoDup([s] + free) && NoDup([s] + queue) && NoDup(queue + [s]);
  }

  lemma SameHolders(free: seq<Slot>, queue: seq<Slot>, held: map<Call, Holding>, n: nat, c: Call, h: Holding)
    requires Owned(free, queue, held, n) && c in held && h.slot == held[c].slot
    ensures Owned(free, queue, held[c := h], n)
  {
    forall x | 0 <= x < n && Holds(held, x) ensures Holds(held[c := h], x) {
      var d :| d in held && held[d].slot == x;
      assert held[c := h][d].slot == x;
    }
  }

  lemma {:induction false} ReverseNoDup<T(!new)>(s: seq<T>)
    requires NoDup(s)
    ensures NoDup(Reverse(s))
  {
    if s != [] {
      ReverseNoDup(s[1..]);
      assert s[0] !in Reverse(s[1..]);
    }
  }

  lemma JoinNoDup<T(!new)>(a: seq<T>, b: seq<T>)
    requires NoDup(a) && NoDup(b) && forall x :: x in a ==> x !in b
    ensures NoDup(a + b)
  {
    forall i, j | 0 <= i < j < |a + b| ensures (a + b)[i] != (a + b)[j] {
      if i < |a| <= j { assert a[i] in a && b[j - |a|] in b; }
    }
  }

  lemma FlushKeeps(free: seq<Slot>, queue: seq<Slot>, held: map<Call, Holding>, n: nat)
    requires Owned(free, queue, held, n)
    ensures Owned(Reverse(queue) + free, [], held, n)
  {
    ReverseNoDup(queue);
    var f := Reverse(queue) + free;
    assert forall x :: x in f <==> x in queue || x in free;
    JoinNoDup(Reverse(queue), free);
  }

  function Fresh(msgSize: nat, data: seq<Bytes>, free: seq<Slot>): Queue {
    Queue(msgSize, data, free, [], [], map[], Waits([], map[]))
  }

  lemma FreshInv(msgSize: nat, data: seq<Bytes>, free: seq<Slot>)
    requires Owned(free, [], map[], |data|) && forall x :: 0 <= x < |data| ==> |data[x]| == msgSize
    ensures Inv(Fresh(msgSize, data, free))
  {
  }

  // ----- what every region keeps -----

  lemma SameHoldings(m: Queue, r: Queue)
    requires HoldingsOk(m) && r.data == m.data && r.msgSize == m.msgSize
    requires forall c :: c in r.held ==> c in m.held && r.held[c] == m.held[c]
    ensures HoldingsOk(r)
  {
    forall c | c in r.held ensures HeldOk(r, r.held[c]) { assert HeldOk(m, m.held[c]); }
  }

  lemma ReserveKeeps(m: Queue, c: Call, msg: Bytes, urgent: bool)
    requires Inv(m) && c !in m.held
    ensures Inv(Reserve(m, c, msg, urgent).0)
  {
    if |msg| <= m.msgSize && m.free != [] {
      TakeFreeKeeps(m.free, m.queue, m.held, |m.data|, c, Holding.Filling(m.free[0], msg, urgent));
      hide Owned;
      assert m.free[0] in m.free;
    }
  }

  lemma CopyKeeps(m: Queue, c: Call)
    requires Inv(m) && c in m.held && m.held[c].Filling?
    ensures CanCopy(m, c) && Inv(Copy(m, c))
  {
    var h := m.held[c];
    assert HeldOk(m, h);
    SameHolders(m.free, m.queue, m.held, |m.data|, c, Filled(h.slot, h.msg, h.urgent));
    var r := Copy(m, c);
    assert forall x :: 0 <= x < |m.data| && x != h.slot ==> r.data[x] == m.data[x];
    assert forall k :: 0 <= k < |m.queue| ==> m.queue[k] in m.queue;
    assert MailOk(r);
    forall d | d in r.held ensures HeldOk(r, r.held[d]) {
      if d != c { assert HeldOk(m, m.held[d]); }
    }
  }

  lemma LinkUpMail(m: Queue, c: Call)
    requires MailOk(m) && c in m.held && m.held[c].Filled? && HeldOk(m, m.held[c])
    ensures MailOk(LinkUp(m, c))
  {
  }

  lemma LinkUpKeeps(m: Queue, c: Call)
    requires Inv(m) && c in m.held && m.held[c].Filled?
    ensures Inv(LinkUp(m, c))
  {
    hide NoDup, HeldOk, MailOk;
    assert HeldOk(m, m.held[c]);
    LinkUpMail(m, c);
    LetGoKeeps(m.free, m.queue, m.held, |m.data|, c);
    WakeAttends(m.w, |m.queue|);
    SameHoldings(m, LinkUp(m, c));
  }

  lemma FetchKeeps(m: Queue, c: Call, t: Tid, wait: bool, i: nat)
    requires Owned(m.free, m.queue, m.held, |m.data|) && MailOk(m) && HoldingsOk(m)
    requires Sound(m.w) && (m.queue != [] ==> Attended(m.w, |m.queue| - 1))
    requires c !in m.held && i <= |m.w.waiters| && !Inside(m.w, t)
    ensures Inv(Fetch(m, c, t, wait, i).0)
  {
    if m.queue != [] {
      TakeQueueKeeps(m.free, m.queue, m.held, |m.data|, c, Emptying(m.queue[0], m.mail[0]));
      hide Owned, Sound;
      var r := Fetch(m, c, t, wait, i).0;
      assert MailOk(r);
      forall d | d in r.held ensures HeldOk(r, r.held[d]) {
        if d != c { assert HeldOk(m, m.held[d]); }
      }
    } else {
      EnqueueKeeps(m.w, t, i);
    }
  }

  lemma FetchAgainKeeps(m: Queue, c: Call, t: Tid, wait: bool, i: nat)
    requires Inv(m) && c !in m.held && t in m.w.woken && i <= |m.w.waiters|
    ensures Inv(FetchAgain(m, c, t, wait, i).0)
  {
    hide Owned, NoDup, HeldOk;
    WaitsKeep(m.w, t, 0);
    ResumedAfterLeave(m.w, t);
    SameHoldings(m, m.(w := Leave(m.w, t)));
    if m.w.woken[t] == Ok { FetchKeeps(m.(w := Leave(m.w, t)), c, t, wait, i); }
  }

  lemma GiveBackKeeps(m: Queue, c: Call)
    requires Inv(m) && c in m.held
    ensures Inv(GiveBack(m, c))
  {
    LetGoKeeps(m.free, m.queue, m.held, |m.data|, c);
    hide Owned, Sound;
    SameHoldings(m, GiveBack(m, c));
  }

  lemma ResetKeeps(m: Queue)
    requires Inv(m)
    ensures Inv(Reset(m))
  {
    FlushKeeps(m.free, m.queue, m.held, |m.data|);
    WaitsKeep(m.w, 0, 0);
    hide Owned, Sound;
    SameHoldings(m, Reset(m));
  }

  lemma ExpireKeeps(m: Queue, t: Tid)
    requires Inv(m) && t in m.w.waiters
    ensures Inv(m.(w := IpcModel.Expire(m.w, t)))
  {
    hide Owned, NoDup;
    WaitsKeep(m.w, t, 0);
    ResumedAfterExpire(m.w, t);
    SameHoldings(m, m.(w := IpcModel.Expire(m.w, t)));
  }

  // ----- what the calls answer -----

  /** A message is accepted exactly when it is not longer than the message size and a slot is neither queued
      nor held; the call then holds such a slot. */
  lemma ReserveAnswers(m: Queue, c: Call, msg: Bytes, urgent: bool)
    requires Inv(m) && c !in m.held
    ensures var (r, out) := Reserve(m, c, msg, urgent); var full := forall x :: 0 <= x < |m.data| ==> x in m.queue || Holds(m.held, x);
      && (out == TooLong <==> |msg| > m.msgSize) && (out == Full <==> |msg| <= m.msgSize && full)
      && (out.Reserved? <==> |msg| <= m.msgSize && !full)
      && (if out.Reserved? then
            && out.slot < |m.data| && out.slot !in m.queue && !Holds(m.held, out.slot) && out.slot !in r.free
            && r.held == m.held[c := Holding.Filling(out.slot, msg, urgent)]
            && r.data == m.data && r.queue == m.queue && r.mail == m.mail && r.w == m.w
          else r == m)
  {
    if m.free != [] {
      assert m.free[0] in m.free;
      assert m.free == [m.free[0]] + m.free[1..];
    }
  }

  /** Linking a message in puts it behind the others, an urgent one in front, and resumes the first waiting
      receiver. */
  lemma LinkAnswers(m: Queue, c: Call)
    requires Inv(m) && c in m.held && m.held[c].Filled?
    ensures var r, h := LinkUp(m, c), m.held[c];
      && r.mail == (if h.urgent then [h.msg] + m.mail else m.mail + [h.msg])
      && r.queue == (if h.urgent then [h.slot] + m.queue else m.queue + [h.slot])
      && c !in r.held && FirstResumed(m.w, r.w) && r.free == m.free && r.data == m.data
  {
    WaitsAre(m.w, 0, 0);
  }

  /** The first message is taken exactly when there is one; otherwise the call fails, or its thread joins
      the waiters. */
  lemma FetchAnswers(m: Queue, c: Call, t: Tid, wait: bool, i: nat)
    requires Inv(m) && c !in m.held && i <= |m.w.waiters|
    ensures |m.mail| == |m.queue|
    ensures var (r, out) := Fetch(m, c, t, wait, i);
      && (out.Fetched? <==> m.queue != []) && (out == Empty <==> m.queue == [] && !wait) && (out == Blocked <==> m.queue == [] && wait)
      && (if out.Fetched? then
            && m.queue == [out.slot] + r.queue && m.mail == [m.mail[0]] + r.mail && r.w == m.w
            && r.held == m.held[c := Emptying(out.slot, m.mail[0])]
          else r.queue == m.queue && r.mail == m.mail && r.held == m.held && if wait then Joins(m.w, r.w, t) else r.w == m.w)
      && r.free == m.free && r.data == m.data
  {
    WaitsAre(m.w, t, i);
    if m.queue != [] { assert m.queue == [m.queue[0]] + m.queue[1..] && m.mail == [m.mail[0]] + m.mail[1..]; }
  }

  /** The end of a receive makes exactly its slot free; a reset frees all queued slots and fails all who
      wait. */
  lemma SlotsFreed(m: Queue, c: Call)
    requires Inv(m)
    ensures c in m.held ==>
      var r := GiveBack(m, c);
      && (forall x :: x in r.free <==> x in m.free || x == m.held[c].slot) && c !in r.held
      && r.queue == m.queue && r.mail == m.mail && r.data == m.data && r.w == m.w
    ensures var r := Reset(m);
      && (forall x :: x in r.free <==> x in m.free || x in m.queue) && r.queue == [] && r.mail == []
      && r.held == m.held && AllFailed(m.w, r.w)
  {
    WaitsAre(m.w, 0, 0);
  }

  // ----- whole runs -----

  datatype Action =
    | ReserveIn(c: Call, msg: Bytes, urgent: bool)
    | CopyIn(c: Call)
    | LinkIn(c: Call)
    | FetchIn(c: Call, t: Tid, wait: bool, i: nat)
    | ReceiverGoesOn(c: Call, t: Tid, wait: bool, i: nat)
    | GiveBackIn(c: Call)
    | TimesOut(t: Tid)
    | ResetAll

  predicate Enabled(m: Queue, a: Action) {
    match a
    case ReserveIn(c, _, _) => c !in m.held
    case CopyIn(c) => c in m.held && m.held[c].Filling?
    case LinkIn(c) => c in m.held && m.held[c].Filled?
    case FetchIn(c, t, _, i) => c !in m.held && !Inside(m.w, t) && i <= |m.w.waiters|
    case ReceiverGoesOn(c, t, _, i) => c !in m.held && t in m.w.woken && i <= |m.w.waiters|
    case GiveBackIn(c) => c in m.held && m.held[c].Emptying?
    case TimesOut(t) => t in m.w.waiters
    case ResetAll => true
  }

  ghost function Step(m: Queue, a: Action): Queue
    requires Inv(m) && Enabled(m, a)
  {
    match a
    case ReserveIn(c, msg, urgent) => Reserve(m, c, msg, urgent).0
    case CopyIn(c) => (CopyKeeps(m, c); Copy(m, c))
    case LinkIn(c) => LinkUp(m, c)
    case FetchIn(c, t, wait, i) => Fetch(m, c, t, wait, i).0
    case ReceiverGoesOn(c, t, wait, i) => FetchAgain(m, c, t, wait, i).0
    case GiveBackIn(c) => GiveBack(m, c)
    case TimesOut(t) => m.(w := IpcModel.Expire(m.w, t))
    case ResetAll => Reset(m)
  }

  lemma StepKeeps(m: Queue, a: Action)
    requires Inv(m) && Enabled(m, a)
    ensures Inv(Step(m, a))
  {
    hide Owned, Sound, HeldOk;
    match a
    case ReserveIn(c, msg, urgent) => ReserveKeeps(m, c, msg, urgent);
    case CopyIn(c) => CopyKeeps(m, c);
    case LinkIn(c) => LinkUpKeeps(m, c);
    case FetchIn(c, t, wait, i) => FetchKeeps(m, c, t, wait, i);
    case ReceiverGoesOn(c, t, wait, i) => FetchAgainKeeps(m, c, t, wait, i);
    case GiveBackIn(c) => GiveBackKeeps(m, c);
    case TimesOut(t) => ExpireKeeps(m, t);
    case ResetAll => ResetKeeps(m);
  }

  ghost predicate CanRun(m: Queue, run: seq<Action>)
    requires Inv(m)
    decreases |run|
  {
    run == [] || (Enabled(m, run[0]) && (StepKeeps(m, run[0]); CanRun(Step(m, run[0]), run[1..])))
  }

  ghost function Exec(m: Queue, run: seq<Action>): (r: Queue)
    requires Inv(m) && CanRun(m, run)
    ensures Inv(r) && |r.data| == |m.data| && r.msgSize == m.msgSize
    decreases |run|
  {
    if run == [] then m else (StepKeeps(m, run[0]); StepSizes(m, run[0]); Exec(Step(m, run[0]), run[1..]))
  }

  lemma StepSizes(m: Queue, a: Action)
    requires Inv(m) && Enabled(m, a)
    ensures |Step(m, a).data| == |m.data| && Step(m, a).msgSize == m.msgSize
  {
    hide Owned, Sound, MailOk, Attended;
    if a.CopyIn? { CopyKeeps(m, a.c); }
  }

  /** Every slot has exactly one owner and one place there, in every reachable state, however the
      regions of the calls interleave; and receivers in the wait list mean that the queue is no
      longer than the receivers already resumed for it. */
  lemma OneOwner(m: Queue, run: seq<Action>, x: Slot)
    requires Inv(m) && CanRun(m, run) && x < |m.data|
    ensures var r := Exec(m, run);
      && ((x in r.free && x !in r.queue && !Holds(r.held, x))
          || (x !in r.free && x in r.queue && !Holds(r.held, x))
          || (x !in r.free && x !in r.queue && Holds(r.held, x)))
      && (forall i, j :: 0 <= i < j < |r.free| ==> !(r.free[i] == x == r.free[j]))
      && (forall i, j :: 0 <= i < j < |r.queue| ==> !(r.queue[i] == x == r.queue[j]))
      && (forall c, d :: c in r.held && d in r.held && c != d ==> !(r.held[c].slot == x == r.held[d].slot))
      && (r.w.waiters != [] ==> |r.queue| <= |Resumed(r.w)|)
  {
    hide MailOk, HoldingsOk, Sound;
  }

  // ----- what is delivered -----

  /** A queue of messages, and nothing else. */
  datatype Event = Put(msg: Bytes, urgent: bool) | Take(slot: Bytes) | Flush | Other

  ghost function EventOf(m: Queue, a: Action): Event
    requires Inv(m) && Enabled(m, a)
  {
    match a
    case LinkIn(c) => Put(m.held[c].msg, m.held[c].urgent)
    case FetchIn(c, t, wait, i) => if m.queue == [] then Other else Take(m.data[m.queue[0]])
    case ReceiverGoesOn(c, t, wait, i) => if m.queue == [] || m.w.woken[t] != Ok then Other else Take(m.data[m.queue[0]])
    case ResetAll => Flush
    case _ => Other
  }

  ghost function Events(m: Queue, run: seq<Action>): seq<Event>
    requires Inv(m) && CanRun(m, run)
    decreases |run|
  {
    if run == [] then [] else [EventOf(m, run[0])] + (StepKeeps(m, run[0]); Events(Step(m, run[0]), run[1..]))
  }

  /** The events are those of a queue that holds `mail` at first and `last` at the end: messages
      are put at the end, urgent ones in front, and what is taken is a slot that starts with the
      first message. */
  ghost predicate Follows(mail: seq<Bytes>, events: seq<Event>, last: seq<Bytes>)
    decreases |events|
  {
    if events == [] then mail == last
    else match events[0]
      case Put(msg, urgent) => Follows(if urgent then [msg] + mail else mail + [msg], events[1..], last)
      case Take(slot) => mail != [] && mail[0] <= slot && Follows(mail[1..], events[1..], last)
      case Flush => Follows([], events[1..], last)
      case Other => Follows(mail, events[1..], last)
  }

  lemma {:induction false} Delivers(m: Queue, run: seq<Action>)
    requires Inv(m) && CanRun(m, run)
    ensures Follows(m.mail, Events(m, run), Exec(m, run).mail)
    decreases |run|
  {
    hide Owned, Sound, Attended, HoldingsOk;
    if run != [] {
      StepKeeps(m, run[0]);
      Delivers(Step(m, run[0]), run[1..]);
      assert Events(m, run)[1..] == Events(Step(m, run[0]), run[1..]);
    }
  }

  /** A slot that a call holds is left alone by all steps of others, so what a receiver reads,
      whenever it reads, starts with the message that was sent. */
  lemma OthersLeaveAlone(m: Queue, a: Action, c: Call)
    requires Inv(m) && Enabled(m, a) && c in m.held
    requires (a.CopyIn? || a.LinkIn? || a.GiveBackIn?) ==> a.c != c
    ensures var r := Step(m, a);
      && c in r.held && r.held[c] == m.held[c]
      && m.held[c].slot < |m.data| == |r.data| && r.data[m.held[c].slot] == m.data[m.held[c].slot]
  {
    hide Sound, Attended, NoDup;
    assert HeldOk(m, m.held[c]);
    StepSizes(m, a);
    if a.CopyIn? { CopyKeeps(m, a.c); }
  }

  lemma ReadsWhatWasSent(m: Queue, c: Call, size: nat)
    requires Inv(m) && c in m.held && m.held[c].Emptying?
    ensures var h := m.held[c];
      && h.slot < |m.data| && |m.data[h.slot]| == m.msgSize
      && var n, got := if size < |h.msg| then size else |h.msg|, ReadOut(m, h.slot, size);
      |got| == (if size < m.msgSize then size else m.msgSize) && n <= |got| && got[..n] == h.msg[..n]
  {
    hide Owned, Sound, Attended;
    assert HeldOk(m, m.held[c]);
  }
}

module MessageQueues {
  import opened Rings
  import opened Words
  import opened KernelModel
  import opened IpcModel
  import opened Scheduling
  import opened Ipc
  import M = MessageQueueModel

  const NULL: int := -1

  // ----- chains of slots -----

  ghost function After(s: seq<nat>, k: nat): int { if k + 1 < |s| then s[k + 1] else NULL }

  /** `next` leads from `start` through the slots of `s` to the null pointer. */
  ghost predicate Chain(next: seq<int>, start: int, s: seq<nat>) {
    && (forall k :: 0 <= k < |s| ==> s[k] < |next|)
    && start == (if s == [] then NULL else s[0])
    && (forall k :: 0 <= k < |s| ==> next[s[k]] == After(s, k))
  }

  lemma ChainFrame(next: seq<int>, start: int, s: seq<nat>, x: nat, y: int)
    requires Chain(next, start, s) && x !in s && x < |next|
    ensures Chain(next[x := y], start, s)
  {
    forall k | 0 <= k < |s| ensures s[k] != x { assert s[k] in s; }
  }

  lemma NoChain(next: seq<int>)
    ensures Chain(next, NULL, [])
  {
  }

  lemma ChainPush(next: seq<int>, start: int, s: seq<nat>, x: nat)
    requires Chain(next, start, s) && x !in s && x < |next|
    ensures Chain(next[x := start], x, [x] + s)
  {
    var r, next' := [x] + s, next[x := start];
    forall k | 0 <= k < |r| ensures next'[r[k]] == After(r, k) {
      if k > 0 { assert s[k - 1] in s && next[s[k - 1]] == After(s, k - 1); }
    }
  }

  lemma ChainPop(next: seq<int>, start: int, s: seq<nat>)
    requires Chain(next, start, s) && s != []
    ensures start == s[0] && s[0] < |next| && Chain(next, next[s[0]], s[1..])
  {
    var r := s[1..];
    assert next[s[0]] == After(s, 0);
    forall k | 0 <= k < |r| ensures next[r[k]] == After(r, k) { assert next[s[k + 1]] == After(s, k + 1); }
  }

  lemma ChainAppend(next: seq<int>, start: int, s: seq<nat>, x: nat)
    requires Chain(next, start, s) && NoDup(s) && x !in s && x < |next| && next[x] == NULL
    ensures s == [] ==> Chain(next, x, s + [x])
    ensures s != [] ==> Chain(next[s[|s| - 1] := x], start, s + [x])
  {
    if s != [] {
      var r, next' := s + [x], next[s[|s| - 1] := x];
      forall k | 0 <= k < |r| ensures next'[r[k]] == After(r, k) {
        if k < |s| { assert s[k] in s && next[s[k]] == After(s, k); }
      }
    }
  }

  ghost function Last(s: seq<nat>): int { if s == [] then NULL else s[|s| - 1] }

  class MessageQueue {
    const ipc: IpcObject
    const msgSize: nat
    const data: array<M.Bytes>
    const next: array<int>
    var head: int
    var tail: int
    var free: int
    var entry: nat
    ghost var freeSlots: seq<M.Slot>
    ghost var slots: seq<M.Slot>
    ghost var mail: seq<M.Bytes>
    ghost var held: map<M.Call, M.Holding>

    ghost predicate Valid()
      reads this, data, next, ipc, ipc.sched, ipc.sched.bitmap, ipc.sched.nodes
    {
      ipc.Valid() && M.Inv(View()) && Linked()
    }

    ghost predicate Linked()
      reads this, data, next
    {
      && data.Length == next.Length
      && Lists() && entry == |slots|
      && (forall c :: c in held && held[c].Filled? && !held[c].urgent ==> held[c].slot < next.Length && next[held[c].slot] == NULL)
    }

    ghost function View(): M.Queue
      requires ipc.Valid()
      reads this, data, next, ipc, ipc.sched, ipc.sched.bitmap, ipc.sched.nodes
    {
      M.Queue(msgSize, data[..], freeSlots, slots, mail, held, ipc.View())
    }

    /** `rt_mq_init`; the two sizes are kept in 16 bits, and a slot starts with a pointer. */
    constructor (sched: Scheduler, q: nat, msgSize: nat, poolSize: nat, flag: Flag)
      requires sched.Valid() && WaitList(q) !in sched.lists
      modifies sched`lists, sched.nodes
      ensures Valid() && fresh(ipc) && fresh(data) && fresh(next) && ipc.sched == sched && ipc.q == q
      ensures this.msgSize == AlignUp(msgSize) % 0x1_0000
      ensures View() == M.Fresh(this.msgSize, data[..], freeSlots)
      ensures data.Length == poolSize / (this.msgSize + 4) % 0x1_0000
    {
      hide WaitsOf, WaitsOk, Shape, Inv, M.Inv, M.Owned, Chain, Placed, NoDup;
      ipc := new IpcObject(sched, q, flag);
      var size := AlignUp(msgSize) % 0x1_0000;
      var count := poolSize / (size + 4) % 0x1_0000;
      this.msgSize := size;
      data := new M.Bytes[count](_ => seq(size, _ => 0));
      next := new int[count];
      head, tail, free, entry := NULL, NULL, NULL, 0;
      freeSlots, slots, mail, held := [], [], [], map[];
      new;
      LinkFree();
      NoChain(next[..]);
      M.FreshInv(size, data[..], freeSlots);
    }

    /** The loop of `rt_mq_init`. */
    method LinkFree()
      requires free == NULL && freeSlots == [] && held == map[] && slots == []
      modifies next, this`free, this`freeSlots
      ensures Chain(next[..], free, freeSlots) && M.Owned(freeSlots, [], map[], next.Length)
    {
      hide Chain;
      NoChain(next[..]);
      for k := 0 to next.Length
        invariant Chain(next[..], free, freeSlots) && NoDup(freeSlots)
        invariant forall x :: x in freeSlots <==> 0 <= x < k
      {
        ChainPush(next[..], free, freeSlots, k);
        next[k] := free;
        free := k;
        freeSlots := [k] + freeSlots;
      }
    }

    /** The first region of `rt_mq_send` and `rt_mq_urgent`. */
    method Reserve(ghost c: M.Call, msg: M.Bytes, urgent: bool) returns (out: M.SendOutcome)
      requires Valid() && c !in held
      modifies this`free, this`freeSlots, this`held
      ensures Valid() && (View(), out) == M.Reserve(old(View()), c, msg, urgent)
    {
      hide WaitsOf, WaitsOk, Shape, M.Inv, Chain;
      M.ReserveKeeps(View(), c, msg, urgent);
      if |msg| > msgSize {
        return M.TooLong;
      }
      NullIfEmpty(free, freeSlots);
      if free == NULL {
        return M.Full;
      }
      ChainPop(next[..], free, freeSlots);
      var slot: nat := free;
      free := next[slot];
      freeSlots := freeSlots[1..];
      held := held[c := M.Filling(slot, msg, urgent)];
      out := M.Reserved(slot);
    }

    lemma NullIfEmpty(start: int, s: seq<nat>)
      requires Chain(next[..], start, s)
      ensures start == NULL <==> s == []
    {
    }

    /** Between the regions: the pointer of an ordinary message is cleared, and the message is
        copied. */
    method Fill(ghost c: M.Call, slot: nat, msg: M.Bytes, urgent: bool)
      requires Valid() && c in held && held[c] == M.Filling(slot, msg, urgent)
      modifies next, data, this`held
      ensures Valid() && M.CanCopy(old(View()), c) && View() == M.Copy(old(View()), c)
    {
      hide WaitsOf, WaitsOk, Shape, M.Inv, Chain;
      M.CopyKeeps(View(), c);
      HeldApart(View(), c);
      if !urgent {
        ChainFrame(next[..], free, freeSlots, slot, NULL);
        ChainFrame(next[..], head, slots, slot, NULL);
        next[slot] := NULL;
      }
      data[slot] := msg + data[slot][|msg|..];
      held := held[c := M.Filled(slot, msg, urgent)];
    }

    /** A slot that is held is in no list and held once. */
    lemma HeldApart(m: M.Queue, c: M.Call)
      requires M.Inv(m) && c in m.held
      ensures m.held[c].slot < |m.data| && m.held[c].slot !in m.free && m.held[c].slot !in m.queue
      ensures forall d :: d in m.held ==> m.held[d].slot !in m.queue && (d != c ==> m.held[d].slot != m.held[c].slot)
      ensures NoDup(m.queue) && |m.mail| == |m.queue| && forall x :: x in m.queue ==> x !in m.free
    {
    }

    /** The second region: the message is linked in, and a receiver is resumed. */
    method Link(ghost c: M.Call, slot: nat, urgent: bool) returns (needSchedule: bool)
      requires Valid() && c in held && held[c].Filled? && held[c].slot == slot && held[c].urgent == urgent
      modifies this, next, ipc.sched`threads, ipc.sched`lists, ipc.sched.bitmap, ipc.sched.nodes
      ensures Valid() && View() == M.LinkUp(old(View()), c)
      ensures needSchedule <==> old(View()).w.waiters != []
    {
      hide WaitsOf, WaitsOk, Inv, Shape, M.Inv, Chain, WakeAny;
      ghost var m := View();
      M.LinkUpKeeps(m, c);
      HeldApart(m, c);
      LinkSlot(c, slot, urgent);
      mail := if urgent then [held[c].msg] + mail else mail + [held[c].msg];
      held := held - {c};
      entry := entry + 1;
      assert Linked();
      needSchedule := ipc.ResumeAny();
      assert View() == M.LinkUp(m, c);
    }

    method LinkSlot(ghost c: M.Call, slot: nat, urgent: bool)
      requires Linked() && NoDup(slots) && slot < next.Length && slot !in slots && slot !in freeSlots
      requires (!urgent ==> next[slot] == NULL) && c in held && held[c].slot == slot
      requires forall x :: x in slots ==> x !in freeSlots
      requires forall d :: d in held ==> held[d].slot !in slots && (d != c ==> held[d].slot != slot)
      modifies next, this`head, this`tail, this`slots
      ensures data.Length == next.Length && Lists() && |slots| == entry + 1
      ensures slots == if urgent then [slot] + old(slots) else old(slots) + [slot]
      ensures forall d :: d in held && d != c && held[d].Filled? && !held[d].urgent ==> held[d].slot < next.Length && next[held[d].slot] == NULL
    {
      hide Chain, NoDup;
      if urgent {
        LinkFront(slot);
      } else {
        LinkBack(slot);
      }
    }

    method LinkBack(slot: nat)
      requires Lists() && NoDup(slots) && slot < next.Length && slot !in slots && slot !in freeSlots && next[slot] == NULL
      requires forall x :: x in slots ==> x !in freeSlots
      modifies next, this`head, this`tail, this`slots
      ensures Lists() && slots == old(slots) + [slot]
      ensures forall x :: 0 <= x < next.Length && x !in old(slots) ==> next[x] == old(next[x])
    {
      ChainAppend(next[..], head, slots, slot);
      if tail != NULL {
        assert tail in slots && slots[|slots| - 1] < next.Length;
        ChainFrame(next[..], free, freeSlots, tail, slot);
        next[tail] := slot;
      }
      tail := slot;
      if head == NULL {
        head := slot;
      }
      slots := slots + [slot];
    }

    method LinkFront(slot: nat)
      requires Lists() && slot < next.Length && slot !in slots && slot !in freeSlots
      modifies next, this`head, this`tail, this`slots
      ensures Lists() && slots == [slot] + old(slots)
      ensures forall x :: 0 <= x < next.Length && x != slot ==> next[x] == old(next[x])
    {
      ChainPush(next[..], head, slots, slot);
      ChainFrame(next[..], free, freeSlots, slot, head);
      next[slot] := head;
      head := slot;
      if tail == NULL {
        tail := slot;
      }
      slots := [slot] + slots;
    }

    ghost predicate Lists()
      reads this, next
    {
      Chain(next[..], free, freeSlots) && Chain(next[..], head, slots) && tail == Last(slots)
    }

    /** One round of the loop of `rt_mq_recv`, and the fetching of a message. */
    method FetchRound(ghost c: M.Call, time: int) returns (out: M.RecvOutcome)
      requires ipc.Valid() && Linked() && |mail| == |slots|
      requires ipc.sched.threads[ipc.sched.current].stat == Running && ipc.sched.current !in ipc.inside && c !in held
      modifies this, ipc, ipc.sched`threads, ipc.sched`lists, ipc.sched.bitmap, ipc.sched.nodes
      ensures ipc.Valid() && Linked() && old(ipc.Place()) <= |old(View()).w.waiters|
      ensures (View(), out) == M.Fetch(old(View()), c, ipc.sched.current, time != 0, old(ipc.Place()))
    {
      hide WaitsOf, WaitsOk, Inv, Shape, Chain;
      ghost var m := View();
      ipc.Caller();
      if entry == 0 {
        ipc.AssignError(Ok);
        if time == 0 {
          ipc.AssignError(Timeout);
          return M.Empty;
        }
        ipc.Suspend(time > 0);
        return M.Blocked;
      }
      var slot := Unlink();
      held := held[c := M.Emptying(slot, mail[0])];
      mail := mail[1..];
      entry := entry - 1;
      assert View() == M.Fetch(m, c, ipc.sched.current, time != 0, 0).0;
      out := M.Fetched(slot);
    }

    /** The first slot of the queue is taken out of it. */
    method Unlink() returns (slot: nat)
      requires Lists() && slots != []
      modifies this`head, this`tail, this`slots
      ensures Lists() && slots == old(slots)[1..] && slot == old(slots)[0]
    {
      ChainPop(next[..], head, slots);
      OnlyLast(slots);
      slot := head;
      head := next[slot];
      if tail == slot {
        tail := NULL;
      }
      slots := slots[1..];
    }

    lemma OnlyLast(s: seq<nat>)
      requires Chain(next[..], head, s) && s != []
      ensures s[0] == s[|s| - 1] <==> |s| == 1
    {
      var n := next[..];
      assert n[s[0]] == After(s, 0) && n[s[|s| - 1]] == After(s, |s| - 1);
    }

    /** `rt_mq_recv` up to a rescheduling */
    method Fetch(ghost c: M.Call, time: int) returns (out: M.RecvOutcome)
      requires Valid() && ipc.sched.threads[ipc.sched.current].stat == Running && ipc.sched.current !in ipc.inside && c !in held
      modifies this, ipc, ipc.sched`threads, ipc.sched`lists, ipc.sched.bitmap, ipc.sched.nodes
      ensures Valid() && old(ipc.Place()) <= |old(View()).w.waiters|
      ensures (View(), out) == M.Fetch(old(View()), c, ipc.sched.current, time != 0, old(ipc.Place()))
    {
      hide WaitsOf, WaitsOk, Inv, Shape, Chain, M.Owned, M.HoldingsOk;
      ipc.Caller();
      M.StepKeeps(View(), M.FetchIn(c, ipc.sched.current, time != 0, ipc.Place()));
      if entry == 0 && time == 0 {
        return M.Empty;
      }
      out := FetchRound(c, time);
    }

    /** `rt_mq_recv` after a rescheduling */
    method FetchGoesOn(ghost c: M.Call, time: int, start: nat, now: nat) returns (out: M.RecvOutcome)
      requires Valid() && ipc.sched.threads[ipc.sched.current].stat == Running && ipc.sched.current in ipc.inside && c !in held
      modifies this, ipc, ipc.sched`threads, ipc.sched`lists, ipc.sched.bitmap, ipc.sched.nodes
      ensures Valid()
      ensures ipc.sched.current in old(View()).w.woken && old(ipc.Place()) <= |old(View()).w.waiters|
      ensures (View(), out) == M.FetchAgain(old(View()), c, ipc.sched.current, TimeLeft(time, start, now) != 0, old(ipc.Place()))
    {
      hide WaitsOf, WaitsOk, Inv, Shape, Chain, M.Owned, M.HoldingsOk, TimeLeft;
      ghost var m, t, i := View(), ipc.sched.current, ipc.Place();
      ipc.PlaceInList();
      var err := ipc.Resumed();
      M.StepKeeps(m, M.ReceiverGoesOn(c, t, TimeLeft(time, start, now) != 0, i));
      if err != Ok {
        return M.Failed(err);
      }
      out := FetchRound(c, TimeLeft(time, start, now));
    }

    /** Between the regions: a receiver copies from the slot it holds. */
    method Read(ghost c: M.Call, slot: nat, size: nat) returns (bytes: M.Bytes)
      requires Valid() && c in held && held[c].Emptying? && held[c].slot == slot
      ensures slot < data.Length && |data[slot]| == msgSize && bytes == M.ReadOut(View(), slot, size)
    {
      M.ReadsWhatWasSent(View(), c, size);
      bytes := data[slot][..if size > msgSize then msgSize else size];
    }

    /** The last region of `rt_mq_recv`. */
    method GiveBack(ghost c: M.Call, slot: nat)
      requires Valid() && c in held && held[c].Emptying? && held[c].slot == slot
      modifies next, this`free, this`freeSlots, this`held
      ensures Valid() && View() == M.GiveBack(old(View()), c)
    {
      hide WaitsOf, WaitsOk, Inv, Shape, M.Inv, Chain;
      M.GiveBackKeeps(View(), c);
      HeldApart(View(), c);
      PushFree(slot);
      held := held - {c};
    }

    method PushFree(slot: nat)
      requires Lists() && slot < next.Length && slot !in slots && slot !in freeSlots
      modifies next, this`free, this`freeSlots
      ensures Lists() && freeSlots == [slot] + old(freeSlots)
      ensures forall x :: 0 <= x < next.Length && x != slot ==> next[x] == old(next[x])
    {
      ChainPush(next[..], free, freeSlots, slot);
      ChainFrame(next[..], head, slots, slot, free);
      next[slot] := free;
      free := slot;
      freeSlots := [slot] + freeSlots;
    }

    /** The timer of a waiting receiver fires. */
    method TimeoutReceiver(t: Tid)
      requires Valid() && t in View().w.waiters
      modifies ipc.sched, ipc.sched.bitmap, ipc.sched.nodes
      ensures Valid() && View() == old(View()).(w := IpcModel.Expire(old(View()).w, t))
    {
      hide WaitsOf, WaitsOk, Inv, Shape, M.Inv, Chain;
      M.ExpireKeeps(View(), t);
      ipc.Timeout(t);
    }

    /** `rt_mq_control` with `RT_IPC_CMD_RESET`, up to the rescheduling */
    method Reset()
      requires Valid()
      modifies this, next, ipc.sched`threads, ipc.sched`lists, ipc.sched.bitmap, ipc.sched.nodes
      ensures Valid() && View() == M.Reset(old(View()))
    {
      hide WaitsOf, WaitsOk, Inv, Shape, M.Inv, Chain, WakeAll;
      ghost var m := View();
      M.ResetKeeps(m);
      SlotsApart(m);
      ipc.ResumeAll();
      FreeAll();
      mail := [];
      entry := 0;
      assert View() == M.Reset(m);
    }

    lemma SlotsApart(m: M.Queue)
      requires M.Inv(m)
      ensures NoDup(m.queue) && forall x :: x in m.queue ==> x < |m.data| && x !in m.free
      ensures forall c :: c in m.held ==> m.held[c].slot !in m.queue
    {
    }

    /** The loop of the reset. */
    method FreeAll()
      requires Lists() && NoDup(slots) && forall x :: x in slots ==> x < next.Length && x !in freeSlots
      modifies next, this`free, this`head, this`tail, this`freeSlots, this`slots
      ensures Lists() && slots == [] && freeSlots == M.Reverse(old(slots)) + old(freeSlots)
      ensures forall x :: 0 <= x < next.Length && x !in old(slots) ==> next[x] == old(next[x])
    {
      ghost var goal, all := M.Reverse(slots) + freeSlots, slots;
      hide Chain, M.Reverse;
      NullIfEmpty(head, slots);
      while head != NULL
        invariant Lists() && NoDup(slots) && forall x :: x in slots ==> x < next.Length && x !in freeSlots && x in all
        invariant M.Reverse(slots) + freeSlots == goal
        invariant head == NULL <==> slots == []
        invariant forall x :: 0 <= x < next.Length && x !in all ==> next[x] == old(next[x])
        decreases |slots|
      {
        ReverseStep(slots, freeSlots);
        assert slots[0] in slots;
        var slot := Unlink();
        PushFree(slot);
        NullIfEmpty(head, slots);
      }
      assert M.Reverse(slots) == [];
    }

    lemma ReverseStep(s: seq<nat>, f: seq<nat>)
      requires s != [] && NoDup(s)
      ensures M.Reverse(s) + f == M.Reverse(s[1..]) + ([s[0]] + f)
      ensures s[0] !in s[1..] && forall x :: x in s[1..] ==> x in s
    {
      FirstApart(s);
      hide NoDup;
    }

    lemma FirstApart(s: seq<nat>)
      requires s != [] && NoDup(s)
      ensures s[0] !in s[1..]
    {
    }
  }
}
