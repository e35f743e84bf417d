/** Events (`ipc.c`): a word of flags, and threads waiting for some or all of a set of them.
    A word is the set of its one bits. */
module EventModel {
  import opened Rings
  import opened KernelModel
  import opened IpcModel

  type Bits = set<nat>

  /** `RT_EVENT_FLAG_AND`, `RT_EVENT_FLAG_OR`, `RT_EVENT_FLAG_CLEAR` */
  datatype Option = Option(andAll: bool, orAny: bool, clear: bool)

  /** `event_set` and `event_info` of a thread. */
  datatype Want = Want(bits: Bits, option: Option)

  datatype Event = Event(bits: Bits, wants: map<Tid, Want>, w: Waits)

  datatype Outcome = Done(err: Err, recved: Bits) | Blocked

  /** The test of both functions; AND is looked at first. */
  predicate Satisfied(bits: Bits, want: Want) {
    if want.option.andAll then want.bits * bits == want.bits
    else want.option.orAny && want.bits * bits != {}
  }

  // ----- rt_event_recv -----

  /** The part of `rt_event_recv` that does not wait: the flags that remain. */
  function Taken(bits: Bits, want: Want): Bits {
    if want.option.clear then bits - want.bits else bits
  }

  function Recv(e: Event, t: Tid, want: Want, wait: bool, i: nat): (Event, Outcome)
    requires i <= |e.w.waiters|
  {
    if want.bits == {} then (e, Done(Error, {}))
    else if Satisfied(e.bits, want) then (e.(bits := Taken(e.bits, want)), Done(Ok, e.bits * want.bits))
    else if !wait then (e, Done(Timeout, {}))
    else (e.(wants := e.wants[t := want], w := Enqueue(e.w, t, i)), Outcome.Blocked)
  }

  /** What a receiver asks for: all flags of the set, or one of them; AND is looked at first. */
  ghost predicate Met(bits: Bits, want: Want) {
    if want.option.andAll then forall x :: x in want.bits ==> x in bits
    else want.option.orAny && exists x :: x in want.bits && x in bits
  }

  lemma SatisfiedMeans(bits: Bits, want: Want)
    ensures Satisfied(bits, want) <==> Met(bits, want)
  {
    if want.option.andAll {
      if Met(bits, want) { assert want.bits * bits == want.bits; }
      if Satisfied(bits, want) { assert forall x :: x in want.bits ==> x in want.bits * bits; }
    } else {
      if x :| x in want.bits && x in bits { assert x in want.bits * bits; }
    }
  }

  /** `got` is what of the wanted flags is set; `left` are the flags afterwards: a receiver that asks for
      it clears what it wanted, and nobody sets any. */
  ghost predicate Receives(bits: Bits, want: Want, got: Bits, left: Bits) {
    && (forall x :: x in got <==> x in want.bits && x in bits)
    && (forall x :: x in left <==> x in bits && !(want.option.clear && x in want.bits))
  }

  /** A receive of flags is answered at once with success exactly when it gets what it asks for, and with
      exactly those of the wanted flags that are set; otherwise nothing changes but that a caller that
      waits joins the waiters.  A receive of no flags is an error. */
  lemma RecvAnswers(e: Event, t: Tid, want: Want, wait: bool, i: nat)
    requires Sound(e.w) && !Inside(e.w, t) && i <= |e.w.waiters|
    ensures var (r, out) := Recv(e, t, want, wait, i); var success := out.Done? && out.err == Ok;
      && (success <==> want.bits != {} && Met(e.bits, want))
      && (success ==> Receives(e.bits, want, out.recved, r.bits) && r.w == e.w && r.wants == e.wants)
      && (out == Done(Error, {}) <==> want.bits == {})
      && (out == Done(Timeout, {}) <==> want.bits != {} && !Met(e.bits, want) && !wait)
      && (out.Blocked? <==> want.bits != {} && !Met(e.bits, want) && wait)
      && (out.Blocked? <==> t in r.w.waiters)
      && (out.Blocked? ==> t in r.wants && r.wants[t] == want && forall x :: x in e.wants && x != t ==> x in r.wants && r.wants[x] == e.wants[x])
      && (!success ==> r.bits == e.bits)
      && (out.Done? ==> r.w == e.w && r.wants == e.wants)
      && (out.Blocked? ==> Joins(e.w, r.w, t))
  {
    WaitsAre(e.w, t, i);
    SatisfiedMeans(e.bits, want);
    var q := Enqueue(e.w, t, i);
    assert forall x :: x in q.waiters <==> x == t || x in e.w.waiters;
  }

  // ----- rt_event_send -----

  /** The waiter's `event_set` once it is served: what an OR receiver got. */
  function Got(bits: Bits, want: Want): Want {
    if want.option.andAll then want else want.(bits := want.bits * bits)
  }

  function Grant(e: Event, i: nat): Event
    requires i < |e.w.waiters| && e.w.waiters[i] in e.wants
  {
    var t := e.w.waiters[i];
    var got := Got(e.bits, e.wants[t]);
    Event(if got.option.clear then e.bits - got.bits else e.bits, e.wants[t := got], WakeAt(e.w, i))
  }

  ghost predicate Known(e: Event) { forall k :: 0 <= k < |e.w.waiters| ==> e.w.waiters[k] in e.wants }

  /** The walk through the wait list, from waiter `i` on. */
  function Serve(e: Event, i: nat): Event
    requires Known(e) && i <= |e.w.waiters|
    decreases |e.w.waiters| - i
  {
    if i == |e.w.waiters| then e
    else if Satisfied(e.bits, e.wants[e.w.waiters[i]]) then (GrantKnown(e, i); Serve(Grant(e, i), i))
    else Serve(e, i + 1)
  }

  lemma GrantKnown(e: Event, i: nat)
    requires Known(e) && i < |e.w.waiters|
    ensures Known(Grant(e, i))
  {
  }

  lemma ServeStep(e: Event, i: nat)
    requires Known(e) && i < |e.w.waiters|
    ensures var t := e.w.waiters[i];
      if Satisfied(e.bits, e.wants[t]) then Known(Grant(e, i)) && Serve(e, i) == Serve(Grant(e, i), i)
      else Serve(e, i) == Serve(e, i + 1)
    ensures var want := e.wants[e.w.waiters[i]]; want.option.andAll ==> e.wants[e.w.waiters[i] := want] == e.wants
  {
    GrantKnown(e, i);
  }

  lemma ServeDone(e: Event)
    requires Known(e)
    ensures Serve(e, |e.w.waiters|) == e
  {
  }

  function Send(e: Event, bits: Bits): (Event, Err)
    requires Known(e)
  {
    if bits == {} then (e, Error) else (Serve(e.(bits := e.bits + bits), 0), Ok)
  }

  function Reset(e: Event): Event { e.(bits := {}, w := WakeAll(e.w)) }

  // ----- no satisfied thread waits -----

  ghost predicate Waiting(e: Event, t: Tid) {
    t in e.wants && e.wants[t].bits != {} && (e.wants[t].option.andAll || e.wants[t].option.orAny)
  }

  ghost predicate AllWaiting(e: Event) { forall k :: 0 <= k < |e.w.waiters| ==> Waiting(e, e.w.waiters[k]) }

  /** A thread that has left the list but not the call still has its `event_set`. */
  ghost predicate Remembered(e: Event) { forall t :: t in e.w.woken ==> t in e.wants }

  /** The first `i` waiters are not satisfied: the state in the middle of the walk. */
  ghost predicate Swept(e: Event, i: nat) {
    && Sound(e.w) && i <= |e.w.waiters| && AllWaiting(e) && Remembered(e)
    && (forall k :: 0 <= k < i ==> e.w.waiters[k] in e.wants && !Satisfied(e.bits, e.wants[e.w.waiters[k]]))
  }

  ghost predicate Inv(e: Event) { Swept(e, |e.w.waiters|) }

  /** Taking flags away satisfies nobody. */
  lemma FewerBits(bits: Bits, fewer: Bits, want: Want)
    requires fewer <= bits && !Satisfied(bits, want)
    ensures !Satisfied(fewer, want)
  {
    if want.option.andAll {
      var x :| x in want.bits && x !in bits;
      assert x !in want.bits * fewer;
    } else {
      assert want.bits * fewer <= want.bits * bits;
    }
  }

  lemma GrantSweeps(e: Event, i: nat)
    requires Swept(e, i) && i < |e.w.waiters|
    ensures Swept(Grant(e, i), i)
  {
    hide Satisfied;
    var r := Grant(e, i);
    WakeAtKeeps(e.w, i);
    assert AllWaiting(r);
    forall k | 0 <= k < i ensures r.w.waiters[k] in r.wants && !Satisfied(r.bits, r.wants[r.w.waiters[k]]) {
      assert r.w.waiters[k] == e.w.waiters[k] && r.w.waiters[k] in r.w.waiters;
      FewerBits(e.bits, r.bits, e.wants[e.w.waiters[k]]);
    }
  }

  lemma {:induction false} ServeSweeps(e: Event, i: nat)
    requires Swept(e, i)
    ensures Inv(Serve(e, i))
    decreases |e.w.waiters| - i
  {
    if i < |e.w.waiters| {
      if Satisfied(e.bits, e.wants[e.w.waiters[i]]) {
        GrantSweeps(e, i);
        ServeSweeps(Grant(e, i), i);
      } else {
        ServeSweeps(e, i + 1);
      }
    }
  }

  datatype Action =
    | RecvBy(t: Tid, want: Want, wait: bool, i: nat)
    | SendBits(bits: Bits)
    | TimesOut(t: Tid)
    | Returns(t: Tid)
    | ResetAll

  /** A receiver asks for AND or OR. */
  ghost predicate Enabled(e: Event, a: Action) {
    match a
    case RecvBy(t, want, _, i) => !Inside(e.w, t) && i <= |e.w.waiters| && (want.option.andAll || want.option.orAny)
    case TimesOut(t) => t in e.w.waiters
    case Returns(t) => t in e.w.woken
    case _ => true
  }

  ghost function Step(e: Event, a: Action): Event
    requires Inv(e) && Enabled(e, a)
  {
    match a
    case RecvBy(t, want, wait, i) => Recv(e, t, want, wait, i).0
    case SendBits(bits) => Send(e, bits).0
    case TimesOut(t) => e.(w := IpcModel.Expire(e.w, t))
    case Returns(t) => e.(w := Leave(e.w, t))
    case ResetAll => Reset(e)
  }

  lemma FewerWaiters(e: Event, r: Event)
    requires Inv(e) && Sound(r.w) && r.bits == e.bits && r.wants == e.wants && forall t :: t in r.w.waiters ==> t in e.w.waiters
    requires forall t :: t in r.w.woken ==> Inside(e.w, t)
    ensures Inv(r)
  {
    hide Satisfied;
    forall t | t in r.w.woken ensures t in r.wants {
      if t in e.w.waiters {
        var k :| 0 <= k < |e.w.waiters| && e.w.waiters[k] == t;
        assert Waiting(e, e.w.waiters[k]);
      }
    }
    forall k | 0 <= k < |r.w.waiters| ensures Waiting(r, r.w.waiters[k]) && !Satisfied(r.bits, r.wants[r.w.waiters[k]]) {
      assert r.w.waiters[k] in e.w.waiters;
    }
  }

  lemma RecvKeeps(e: Event, t: Tid, want: Want, wait: bool, i: nat)
    requires Inv(e) && Enabled(e, RecvBy(t, want, wait, i))
    ensures Inv(Recv(e, t, want, wait, i).0)
  {
    var r := Recv(e, t, want, wait, i).0;
    if want.bits == {} {
    } else if Satisfied(e.bits, want) {
      forall x | x in e.w.waiters ensures x in r.wants && !Satisfied(r.bits, r.wants[x]) { FewerBits(e.bits, r.bits, e.wants[x]); }
    } else if wait {
      hide Satisfied;
      EnqueueKeeps(e.w, t, i);
      assert forall x :: x in r.w.waiters <==> x == t || x in e.w.waiters;
    }
  }

  lemma SendKeeps(e: Event, bits: Bits)
    requires Inv(e)
    ensures Inv(Send(e, bits).0)
  {
    if bits != {} { ServeSweeps(e.(bits := e.bits + bits), 0); }
  }

  lemma StepKeeps(e: Event, a: Action)
    requires Inv(e) && Enabled(e, a)
    ensures Inv(Step(e, a))
  {
    match a
    case RecvBy(t, want, wait, i) => RecvKeeps(e, t, want, wait, i);
    case SendBits(bits) => SendKeeps(e, bits);
    case TimesOut(t) =>
      WaitsKeep(e.w, t, 0);
      FewerWaiters(e, Step(e, a));
    case Returns(t) =>
      WaitsKeep(e.w, t, 0);
      FewerWaiters(e, Step(e, a));
    case ResetAll =>
      WaitsKeep(e.w, 0, 0);
      FewerWaiters(e.(bits := {}), Step(e, a));
  }

  ghost predicate CanRun(e: Event, run: seq<Action>)
    requires Inv(e)
    decreases |run|
  {
    run == [] || (Enabled(e, run[0]) && (StepKeeps(e, run[0]); CanRun(Step(e, run[0]), run[1..])))
  }

  ghost function Exec(e: Event, run: seq<Action>): Event
    requires Inv(e) && CanRun(e, run)
    decreases |run|
  {
    if run == [] then e else (StepKeeps(e, run[0]); Exec(Step(e, run[0]), run[1..]))
  }

  /** After every run, no thread in the wait list has its condition satisfied by the flags. */
  lemma {:induction false} NobodyWaitsInVain(e: Event, run: seq<Action>, t: Tid)
    requires Inv(e) && CanRun(e, run)
    ensures var r := Exec(e, run);
      t in r.w.waiters ==>
        && t in r.wants && r.wants[t].bits != {}
        && (r.wants[t].option.andAll ==> exists x :: x in r.wants[t].bits && x !in r.bits)
        && (!r.wants[t].option.andAll ==> forall x :: x in r.wants[t].bits ==> x !in r.bits)
    decreases |run|
  {
    if run != [] {
      StepKeeps(e, run[0]);
      NobodyWaitsInVain(Step(e, run[0]), run[1..], t);
    } else if t in e.w.waiters {
      var want := e.wants[t];
      if want.option.andAll {
        assert want.bits * e.bits != want.bits;
      } else {
        forall x | x in want.bits ensures x !in e.bits { assert x in want.bits * e.bits ==> x in {}; }
      }
    }
  }

  // ----- sending is replaying receives -----

  /** What happens when the waiters, in queue order, each try a receive that does not wait. */
  datatype Replayed = Replayed(bits: Bits, got: map<Tid, Bits>, left: seq<Tid>)

  ghost function Replay(bits: Bits, wants: map<Tid, Want>, l: seq<Tid>): Replayed
    requires forall t :: t in l ==> t in wants
  {
    if l == [] then Replayed(bits, map[], [])
    else
      var (e, out) := Recv(Event(bits, map[], Waits([], map[])), l[0], wants[l[0]], false, 0);
      var rest := Replay(e.bits, wants, l[1..]);
      if out == Done(Ok, out.recved) then rest.(got := rest.got[l[0] := out.recved])
      else rest.(left := [l[0]] + rest.left)
  }

  function Oks(got: map<Tid, Bits>): map<Tid, Err> { map t | t in got :: Ok }

  lemma TakenGranted(bits: Bits, want: Want)
    requires Satisfied(bits, want)
    ensures Got(bits, want).bits == bits * want.bits
    ensures (if want.option.clear then bits - Got(bits, want).bits else bits) == Taken(bits, want)
  {
  }

  /** The wait list after the walk, what each thread resumed by it has received, and the flags
      that remain. */
  ghost predicate Agrees(e: Event, i: nat, r: Event, p: Replayed)
    requires i <= |e.w.waiters|
  {
    && r.bits == p.bits
    && r.w.waiters == e.w.waiters[..i] + p.left
    && r.w.woken == e.w.woken + Oks(p.got)
    && (forall t :: t in p.got ==> t in e.w.waiters[i..] && t in r.wants && r.wants[t].bits == p.got[t])
    && (forall t :: t in e.wants && t !in p.got ==> t in r.wants && r.wants[t] == e.wants[t])
  }

  /** Walking the list from waiter `i` on replays the receives of the rest of the list. */
  lemma {:induction false} ServeReplays(e: Event, i: nat)
    requires Sound(e.w) && i <= |e.w.waiters| && AllWaiting(e)
    ensures Agrees(e, i, Serve(e, i), Replay(e.bits, e.wants, e.w.waiters[i..]))
    decreases |e.w.waiters| - i
  {
    var l := e.w.waiters;
    if i < |l| {
      assert l[i..][1..] == l[i + 1..];
      if Satisfied(e.bits, e.wants[l[i]]) {
        GrantReplays(e, i);
      } else {
        ServeReplays(e, i + 1);
        SkipAgrees(e, i, Serve(e, i + 1), Replay(e.bits, e.wants, l[i + 1..]));
      }
    }
  }

  /** `rt_event_send` with receivers waiting does what the receivers would have done had they, in
      queue order, called `rt_event_recv` without waiting after the flags were set. */
  lemma SendReplaysReceives(e: Event, bits: Bits)
    requires Inv(e) && bits != {}
    ensures var start := e.(bits := e.bits + bits);
      Agrees(start, 0, Send(e, bits).0, Replay(start.bits, e.wants, e.w.waiters))
  {
    ServeReplays(e.(bits := e.bits + bits), 0);
    assert e.w.waiters[0..] == e.w.waiters;
  }

  lemma SkipAgrees(e: Event, i: nat, r: Event, p: Replayed)
    requires i < |e.w.waiters| && Agrees(e, i + 1, r, p)
    ensures Agrees(e, i, r, p.(left := [e.w.waiters[i]] + p.left))
  {
    var l := e.w.waiters;
    assert l[..i + 1] == l[..i] + [l[i]];
    assert l[i..] == [l[i]] + l[i + 1..];
  }

  lemma GrantReplays(e: Event, i: nat)
    requires Sound(e.w) && i < |e.w.waiters| && AllWaiting(e)
    requires Satisfied(e.bits, e.wants[e.w.waiters[i]])
    ensures Agrees(e, i, Serve(e, i), Replay(e.bits, e.wants, e.w.waiters[i..]))
    decreases |e.w.waiters| - i, 0
  {
    var l, t := e.w.waiters, e.w.waiters[i];
    TakenGranted(e.bits, e.wants[t]);
    var g := Grant(e, i);
    WakeAtKeeps(e.w, i);
    assert AllWaiting(g);
    ServeReplays(g, i);
    assert g.w.waiters[i..] == l[i + 1..];
    assert l[i..][0] == t && l[i..][1..] == l[i + 1..];
    SameReplay(g.bits, g.wants, e.wants, l[i + 1..]);
    GrantAgrees(e, i, Serve(g, i), Replay(g.bits, g.wants, l[i + 1..]));
  }

  lemma GrantAgrees(e: Event, i: nat, r: Event, p: Replayed)
    requires Sound(e.w) && i < |e.w.waiters| && AllWaiting(e) && Agrees(Grant(e, i), i, r, p)
    ensures Agrees(e, i, r, p.(got := p.got[e.w.waiters[i] := Got(e.bits, e.wants[e.w.waiters[i]]).bits]))
  {
    hide Satisfied, NoDup, Got;
    var l, t, g := e.w.waiters, e.w.waiters[i], Grant(e, i);
    WakeAtKeeps(e.w, i);
    assert g.w.waiters[i..] == l[i + 1..] && l[i..] == [t] + l[i + 1..];
    assert t !in g.w.waiters[i..];
    WokenAlso(e.w.woken, t, p.got, Got(e.bits, e.wants[t]).bits);
  }

  lemma WokenAlso(woken: map<Tid, Err>, t: Tid, got: map<Tid, Bits>, x: Bits)
    ensures woken[t := Ok] + Oks(got) == woken + Oks(got[t := x])
  {
  }

  lemma {:induction false} SameReplay(bits: Bits, a: map<Tid, Want>, b: map<Tid, Want>, l: seq<Tid>)
    requires forall t :: t in l ==> t in a && t in b && a[t] == b[t]
    ensures Replay(bits, a, l) == Replay(bits, b, l)
  {
    if l != [] {
      var (e, out) := Recv(Event(bits, map[], Waits([], map[])), l[0], a[l[0]], false, 0);
      SameReplay(e.bits, a, b, l[1..]);
    }
  }

  // ----- what a send does to each waiter -----

  /** The flags before waiter `k` of the list is looked at, and after the last one. */
  ghost function Before(bits: Bits, wants: map<Tid, Want>, l: seq<Tid>): (r: seq<Bits>)
    requires forall t :: t in l ==> t in wants
    ensures |r| == |l| + 1 && r[0] == bits
  {
    if l == [] then [bits]
    else [bits] + Before(Recv(Event(bits, map[], Waits([], map[])), l[0], wants[l[0]], false, 0).0.bits, wants, l[1..])
  }

  /** One waiter: it is served exactly when the flags left by those before it have what it asks for, and
      it gets those and clears them if it asks for that; else the flags stay. */
  ghost predicate Turn(bits: Bits, left: Bits, want: Want, t: Tid, got: map<Tid, Bits>) {
    && (t in got <==> Met(bits, want))
    && (if t in got then Receives(bits, want, got[t], left) else left == bits)
  }

  lemma OneTurn(bits: Bits, want: Want, t: Tid)
    requires want.bits != {}
    ensures var (e, out) := Recv(Event(bits, map[], Waits([], map[])), t, want, false, 0);
      && (out == Done(Ok, out.recved) <==> Met(bits, want))
      && (if out == Done(Ok, out.recved) then Receives(bits, want, out.recved, e.bits) else e.bits == bits)
  {
    RecvAnswers(Event(bits, map[], Waits([], map[])), t, want, false, 0);
  }

  lemma {:induction false} ReplayTurns(bits: Bits, wants: map<Tid, Want>, l: seq<Tid>, k: nat)
    requires NoDup(l) && (forall t :: t in l ==> t in wants && wants[t].bits != {}) && k < |l|
    ensures var p, b := Replay(bits, wants, l), Before(bits, wants, l);
      Turn(b[k], b[k + 1], wants[l[k]], l[k], p.got) && b[|l|] == p.bits
  {
    hide Met, Receives, Recv;
    var (e, out) := Recv(Event(bits, map[], Waits([], map[])), l[0], wants[l[0]], false, 0);
    OneTurn(bits, wants[l[0]], l[0]);
    var rest, b := Replay(e.bits, wants, l[1..]), Before(e.bits, wants, l[1..]);
    GotFromList(e.bits, wants, l[1..]);
    assert forall x :: x in l[1..] ==> x in l;
    assert Before(bits, wants, l) == [bits] + b;
    if k > 0 { ReplayTurns(e.bits, wants, l[1..], k - 1); }
    if |l| > 1 { ReplayTurns(e.bits, wants, l[1..], 0); } else { assert b == [e.bits]; }
  }

  lemma {:induction false} GotFromList(bits: Bits, wants: map<Tid, Want>, l: seq<Tid>)
    requires forall t :: t in l ==> t in wants
    ensures forall t :: t in Replay(bits, wants, l).got ==> t in l
    decreases |l|
  {
    hide Recv;
    if l != [] {
      var (e, out) := Recv(Event(bits, map[], Waits([], map[])), l[0], wants[l[0]], false, 0);
      GotFromList(e.bits, wants, l[1..]);
    }
  }

  /** The waiters that are not served, in their order. */
  ghost function NotServed(l: seq<Tid>, got: map<Tid, Bits>): seq<Tid> {
    if l == [] then [] else (if l[0] in got then [] else [l[0]]) + NotServed(l[1..], got)
  }

  lemma {:induction false} ReplayLeft(bits: Bits, wants: map<Tid, Want>, l: seq<Tid>, got: map<Tid, Bits>)
    requires NoDup(l) && (forall t :: t in l ==> t in wants)
    requires forall t :: t in l ==> (t in got <==> t in Replay(bits, wants, l).got)
    ensures Replay(bits, wants, l).left == NotServed(l, got)
    decreases |l|
  {
    hide Recv;
    if l != [] {
      var (e, out) := Recv(Event(bits, map[], Waits([], map[])), l[0], wants[l[0]], false, 0);
      GotFromList(e.bits, wants, l[1..]);
      assert forall x :: x in l[1..] ==> x in l && x != l[0];
      ReplayLeft(e.bits, wants, l[1..], got);
    }
  }

  /** `rt_event_send`, waiter by waiter: there are flags `b[k]` in front of each turn, the first with the
      new flags set, and a map from the threads served to what each got, so that every waiter has its
      turn, exactly those served are resumed with success and have got that, and the others wait on in
      their order with their condition. */
  ghost predicate ServedInTurn(e: Event, bits: Bits, r: Event, b: seq<Bits>, got: map<Tid, Bits>) {
    var l := e.w.waiters;
    && |b| == |l| + 1 && (forall x :: x in b[0] <==> x in e.bits || x in bits) && r.bits == b[|l|]
    && (forall k :: 0 <= k < |l| ==> l[k] in e.wants && Turn(b[k], b[k + 1], e.wants[l[k]], l[k], got))
    && r.w.waiters == NotServed(l, got)
    && (forall t :: t in got ==> t in l && t in r.w.woken && r.w.woken[t] == Ok && t in r.wants && r.wants[t].bits == got[t])
    && (forall t :: t !in got ==> (t in r.w.woken <==> t in e.w.woken) && (t in e.w.woken ==> r.w.woken[t] == e.w.woken[t]))
    && (forall t :: t !in got && t in e.wants ==> t in r.wants && r.wants[t] == e.wants[t])
  }

  lemma SendServes(e: Event, bits: Bits) returns (b: seq<Bits>, got: map<Tid, Bits>)
    requires Inv(e)
    ensures bits == {} ==> Send(e, bits) == (e, Error)
    ensures bits != {} ==> Send(e, bits).1 == Ok && ServedInTurn(e, bits, Send(e, bits).0, b, got)
  {
    hide Satisfied, Replay, Before, Turn, Serve;
    b, got := [], map[];
    if bits != {} {
      var l, start := e.w.waiters, e.bits + bits;
      WaitersWant(e);
      var p := Replay(start, e.wants, l);
      b, got := Before(start, e.wants, l), p.got;
      SendReplaysReceives(e, bits);
      if l == [] { NobodyServed(start, e.wants); }
      forall k | 0 <= k < |l| ensures l[k] in e.wants && Turn(b[k], b[k + 1], e.wants[l[k]], l[k], got) { ReplayTurns(start, e.wants, l, k); }
      if l != [] { ReplayTurns(start, e.wants, l, 0); }
      ReplayLeft(start, e.wants, l, got);
      AgreesServed(e, bits, Send(e, bits).0, p, b);
    }
  }

  lemma WaitersWant(e: Event)
    requires Inv(e)
    ensures NoDup(e.w.waiters) && forall t :: t in e.w.waiters ==> t in e.wants && e.wants[t].bits != {}
  {
    forall t | t in e.w.waiters ensures t in e.wants && e.wants[t].bits != {} {
      var k :| 0 <= k < |e.w.waiters| && e.w.waiters[k] == t;
      assert Waiting(e, e.w.waiters[k]);
    }
  }

  lemma NobodyServed(bits: Bits, wants: map<Tid, Want>)
    ensures Replay(bits, wants, []) == Replayed(bits, map[], []) && Before(bits, wants, []) == [bits]
  {
  }

  lemma AgreesServed(e: Event, bits: Bits, r: Event, p: Replayed, b: seq<Bits>)
    requires Agrees(e.(bits := e.bits + bits), 0, r, p)
    requires |b| == |e.w.waiters| + 1 && b[0] == e.bits + bits && b[|e.w.waiters|] == p.bits && p.left == NotServed(e.w.waiters, p.got)
    requires forall k :: 0 <= k < |e.w.waiters| ==>
      e.w.waiters[k] in e.wants && Turn(b[k], b[k + 1], e.wants[e.w.waiters[k]], e.w.waiters[k], p.got)
    ensures ServedInTurn(e, bits, r, b, p.got)
  {
    hide Turn, NotServed;
    assert e.w.waiters[0..] == e.w.waiters && e.w.waiters[..0] == [];
  }

  /** A flag is consumed once: what a clearing receiver gets, no later one gets, and it does not
      remain set. */
  lemma {:induction false} ConsumedOnce(bits: Bits, wants: map<Tid, Want>, l: seq<Tid>, a: nat, b: nat)
    requires NoDup(l) && (forall t :: t in l ==> t in wants) && a < b < |l|
    ensures var p := Replay(bits, wants, l);
      && (l[a] in p.got ==> p.got[l[a]] <= wants[l[a]].bits * bits)
      && (l[a] in p.got && wants[l[a]].option.clear ==> p.got[l[a]] !! p.bits)
      && (l[a] in p.got && wants[l[a]].option.clear && l[b] in p.got ==> p.got[l[a]] !! p.got[l[b]])
  {
    var (e, out) := Recv(Event(bits, map[], Waits([], map[])), l[0], wants[l[0]], false, 0);
    GotWithin(e.bits, wants, l[1..]);
    if a > 0 {
      ConsumedOnce(e.bits, wants, l[1..], a - 1, b - 1);
    } else {
      assert l[b] == l[1..][b - 1];
    }
  }

  lemma {:induction false} GotWithin(bits: Bits, wants: map<Tid, Want>, l: seq<Tid>)
    requires forall t :: t in l ==> t in wants
    ensures var p := Replay(bits, wants, l);
      p.bits <= bits && forall t :: t in p.got ==> t in l && p.got[t] <= bits
  {
    if l != [] {
      var (e, out) := Recv(Event(bits, map[], Waits([], map[])), l[0], wants[l[0]], false, 0);
      GotWithin(e.bits, wants, l[1..]);
    }
  }
}

module Events {
  import opened Rings
  import opened KernelModel
  import opened IpcModel
  import opened Scheduling
  import opened Ipc
  import M = EventModel

  class Event {
    const ipc: IpcObject
    var bits: M.Bits
    /** `event_set` and `event_info` of the threads that have waited here. */
    var wants: map<Tid, M.Want>

    ghost predicate Valid()
      reads this, ipc, ipc.sched, ipc.sched.bitmap, ipc.sched.nodes
    {
      ipc.Valid() && M.Inv(View())
    }

    ghost function View(): M.Event
      requires ipc.Valid()
      reads this, ipc, ipc.sched, ipc.sched.bitmap, ipc.sched.nodes
    {
      M.Event(bits, wants, ipc.View())
    }

    /** `rt_event_init` */
    constructor (sched: Scheduler, q: nat, flag: Flag)
      requires sched.Valid() && WaitList(q) !in sched.lists
      modifies sched`lists, sched.nodes
      ensures Valid() && fresh(ipc) && ipc.sched == sched && ipc.q == q && ipc.flag == flag
      ensures View() == M.Event({}, map[], Waits([], map[]))
    {
      ipc := new IpcObject(sched, q, flag);
      bits, wants := {}, map[];
    }

    /** `rt_event_recv` up to the rescheduling; that AND or OR is asked for is what the function
        asserts. */
    method Recv(want: M.Want, time: int) returns (out: M.Outcome)
      requires Valid() && ipc.sched.threads[ipc.sched.current].stat == Running && ipc.sched.current !in ipc.inside
      requires want.option.andAll || want.option.orAny
      modifies this, ipc, ipc.sched`threads, ipc.sched`lists, ipc.sched.bitmap, ipc.sched.nodes
      ensures ipc.Valid() && (View(), out) == M.Recv(old(View()), ipc.sched.current, want, time != 0, old(ipc.Place()))
      ensures Valid()
    {
      hide WaitsOf, Inv, Blocked, Shape, M.Inv;
      if want.bits == {} {
        return M.Done(Error, {});
      }
      ghost var e, i := View(), ipc.Place();
      var t := ipc.sched.current;
      ipc.Caller();
      M.RecvKeeps(e, t, want, time != 0, i);
      ipc.AssignError(Ok);
      var status := false;
      if want.option.andAll {
        status := bits * want.bits == want.bits;
      } else if want.option.orAny {
        status := bits * want.bits != {};
      }
      if status {
        out := M.Done(Ok, bits * want.bits);
        if want.option.clear {
          bits := bits - want.bits;
        }
      } else if time == 0 {
        ipc.AssignError(Timeout);
        out := M.Done(Timeout, {});
      } else {
        wants := wants[t := want];
        ipc.Suspend(time > 0);
        out := M.Blocked;
      }
    }

    /** `rt_event_recv` after the rescheduling */
    method RecvReturns() returns (err: Err, recved: M.Bits)
      requires Valid() && ipc.sched.threads[ipc.sched.current].stat == Running && ipc.sched.current in ipc.inside
      modifies ipc
      ensures Valid() && View() == old(View()).(w := Leave(old(View()).w, ipc.sched.current))
      ensures ipc.sched.current in old(View()).w.woken && err == old(View()).w.woken[ipc.sched.current]
      ensures err == Ok ==> recved == wants[ipc.sched.current].bits
    {
      hide WaitsOf, Inv, Blocked, Shape;
      ghost var e := View();
      err := ipc.Resumed();
      M.StepKeeps(e, M.Returns(ipc.sched.current));
      recved := {};
      if err == Ok {
        recved := wants[ipc.sched.current].bits;
      }
    }

    /** The timer of a waiter fires. */
    method TimeoutWaiter(t: Tid)
      requires Valid() && t in View().w.waiters
      modifies ipc.sched, ipc.sched.bitmap, ipc.sched.nodes
      ensures Valid() && View() == old(View()).(w := IpcModel.Expire(old(View()).w, t))
    {
      hide WaitsOf, Inv, Blocked, Shape;
      M.StepKeeps(View(), M.TimesOut(t));
      ipc.Timeout(t);
    }

    /** `rt_event_send` up to the rescheduling, which it asks for by its result */
    method Send(bits: M.Bits) returns (err: Err, needSchedule: bool)
      requires Valid()
      modifies this, ipc.sched`threads, ipc.sched`lists, ipc.sched.bitmap, ipc.sched.nodes
      ensures Valid() && (View(), err) == M.Send(old(View()), bits)
      ensures needSchedule <==> View().w.waiters != old(View()).w.waiters
    {
      hide WaitsOf, Inv, Blocked, Shape;
      if bits == {} {
        return Error, false;
      }
      M.SendKeeps(View(), bits);
      this.bits := this.bits + bits;
      needSchedule := ServeWaiters();
      err := Ok;
    }

    method ServeWaiters() returns (some: bool)
      requires ipc.Valid() && M.Known(View())
      modifies this, ipc.sched`threads, ipc.sched`lists, ipc.sched.bitmap, ipc.sched.nodes
      ensures ipc.Valid() && View() == M.Serve(old(View()), 0)
      ensures some <==> View().w.waiters != old(View()).w.waiters
    {
      hide WaitsOf, Inv, Blocked, Shape, M.Serve;
      ghost var goal, i, first := M.Serve(View(), 0), 0, View().w.waiters;
      some := false;
      var n := ipc.FirstWaiter();
      while n != HeadNode(WaitList(ipc.q))
        invariant ipc.Valid() && M.Known(View()) && i <= |View().w.waiters|
        invariant n == if i == |View().w.waiters| then HeadNode(WaitList(ipc.q)) else ThreadNode(View().w.waiters[i])
        invariant goal == M.Serve(View(), i)
        invariant |View().w.waiters| <= |first| && (!some ==> View().w.waiters == first) && (some ==> |View().w.waiters| < |first|)
        decreases |View().w.waiters| - i
      {
        ghost var e := View();
        M.ServeStep(e, i);
        var t := n.t;
        var want := wants[t];
        var status := false;
        if want.option.andAll {
          status := want.bits * bits == want.bits;
        } else if want.option.orAny && want.bits * bits != {} {
          wants := wants[t := want.(bits := want.bits * bits)];
          status := true;
        }
        n := ipc.NodeAfter(n, i);
        if status {
          if want.option.clear {
            bits := bits - wants[t].bits;
          }
          ipc.ResumeThread(t, i);
          some := true;
          assert View() == M.Grant(e, i);
        } else {
          i := i + 1;
        }
      }
      M.ServeDone(View());
    }

    /** `rt_event_control` with `RT_IPC_CMD_RESET`, up to the rescheduling */
    method Reset()
      requires Valid()
      modifies this, ipc.sched`threads, ipc.sched`lists, ipc.sched.bitmap, ipc.sched.nodes
      ensures Valid() && View() == M.Reset(old(View()))
    {
      hide WaitsOf, Inv, Shape, Blocked;
      M.StepKeeps(View(), M.ResetAll);
      ipc.ResumeAll();
      bits := {};
    }
  }
}
