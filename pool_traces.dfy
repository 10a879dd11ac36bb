/** Properties of the pool over whole sequences of operations
    (src/client_pool.c, lines 105-153).

    The first half follows the wait queue alone, with the readiness answers
    given per request. The second half closes the loop with the clients:
    a client is busy from the moment it is handed to a caller until it
    notifies its release, and the readiness check answers "not busy". */
module PoolTraces {
  import opened ClientPool
  import opened Regrouping

  /** A call into the pool: an acquire (with what the readiness check
      answers for each client at that moment) or a release notification. */
  datatype Event = Acquire(waiter: Waiter, ready: seq<bool>) | Release(slot: nat)

  function Step(maxQueue: nat, queue: seq<Waiter>, e: Event): Effect
  {
    match e
    case Acquire(w, ready) => AfterAcquire(queue, maxQueue, ready, w)
    case Release(slot) => AfterRelease(queue, slot)
  }

  /** The waiter an event appends to the queue, if any. */
  function Joined(maxQueue: nat, queue: seq<Waiter>, e: Event): seq<Waiter>
  {
    if e.Acquire? && |queue| < maxQueue && FirstReady(e.ready).None? then [e.waiter] else []
  }

  /** The waiter an event takes off the queue and serves, if any. */
  function Left(maxQueue: nat, queue: seq<Waiter>, e: Event): seq<Waiter>
  {
    if e.Release? then Waiters(Step(maxQueue, queue, e).handoffs) else []
  }

  /** The wait queue after the events `t`. */
  function Run(maxQueue: nat, queue: seq<Waiter>, t: seq<Event>): seq<Waiter>
    decreases |t|
  {
    if t == [] then queue else Run(maxQueue, Step(maxQueue, queue, t[0]).queue, t[1..])
  }

  /** Every waiter the events `t` put at the tail of the queue, in order. */
  function Enqueued(maxQueue: nat, queue: seq<Waiter>, t: seq<Event>): seq<Waiter>
    decreases |t|
  {
    if t == [] then []
    else Joined(maxQueue, queue, t[0]) + Enqueued(maxQueue, Step(maxQueue, queue, t[0]).queue, t[1..])
  }

  /** Every waiter that a release notification served during `t`, in order. */
  function Dequeued(maxQueue: nat, queue: seq<Waiter>, t: seq<Event>): seq<Waiter>
    decreases |t|
  {
    if t == [] then []
    else Left(maxQueue, queue, t[0]) + Dequeued(maxQueue, Step(maxQueue, queue, t[0]).queue, t[1..])
  }

  /** One event moves waiters only at the two ends of the queue. */
  lemma StepIsFifo(maxQueue: nat, queue: seq<Waiter>, e: Event)
    ensures queue + Joined(maxQueue, queue, e) == Left(maxQueue, queue, e) + Step(maxQueue, queue, e).queue
  {
  }

  /** The queue discipline is FIFO: the waiters served on release are, in
      order, the oldest of those present or queued since, and the queue
      holds exactly the rest; no waiter is dropped or served twice, and
      which client released does not matter. */
  lemma {:induction false} RunIsFifo(maxQueue: nat, queue: seq<Waiter>, t: seq<Event>)
    ensures queue + Enqueued(maxQueue, queue, t) == Dequeued(maxQueue, queue, t) + Run(maxQueue, queue, t)
    decreases |t|
  {
    if t != [] {
      var next := Step(maxQueue, queue, t[0]).queue;
      RunIsFifo(maxQueue, next, t[1..]);
      StepIsFifo(maxQueue, queue, t[0]);
      Regroup(queue, Joined(maxQueue, queue, t[0]), Left(maxQueue, queue, t[0]), next,
              Enqueued(maxQueue, next, t[1..]), Dequeued(maxQueue, next, t[1..]), Run(maxQueue, next, t[1..]));
    }
  }

  /** Admission control keeps the queue within its bound on every run:
      overflow is refused, never made room for by eviction. */
  lemma {:induction false} RunKeepsBound(maxQueue: nat, queue: seq<Waiter>, t: seq<Event>)
    requires |queue| <= maxQueue
    ensures |Run(maxQueue, queue, t)| <= maxQueue
    decreases |t|
  {
    if t != [] {
      RunKeepsBound(maxQueue, Step(maxQueue, queue, t[0]).queue, t[1..]);
    }
  }

  // ---------------------------------------------------------------------
  // The pool together with its clients' busy/idle states.

  /** The wait queue and, per client, whether it is serving a request. */
  datatype System = System(queue: seq<Waiter>, busy: seq<bool>)

  /** A caller asks for a client, or the client in `slot` finishes its request. */
  datatype SysEvent = Request(waiter: Waiter) | Finish(slot: nat)

  /** What the readiness check answers when it reflects the clients' state. */
  function Idle(busy: seq<bool>): (idle: seq<bool>)
    ensures |idle| == |busy|
    ensures forall i :: 0 <= i < |busy| ==> idle[i] == !busy[i]
  {
    seq(|busy|, i requires 0 <= i < |busy| => !busy[i])
  }

  /** A client notifies its release only when it was serving a request. */
  ghost predicate Enabled(s: System, e: SysEvent)
  {
    e.Finish? ==> e.slot < |s.busy| && s.busy[e.slot]
  }

  /** The outcome of one event: the pool's answer, the new state, the callbacks run. */
  datatype SysEffect = SysEffect(accepted: bool, next: System, handoffs: seq<Handoff>)

  /** A client handed to a caller becomes busy; a released client that is
      handed straight to the oldest waiter stays busy, otherwise it is idle. */
  function SysStep(maxQueue: nat, s: System, e: SysEvent): (r: SysEffect)
    ensures |r.next.busy| == |s.busy|
  {
    match e
    case Request(w) =>
      var eff := AfterAcquire(s.queue, maxQueue, Idle(s.busy), w);
      var busy := if eff.handoffs == [] then s.busy else s.busy[eff.handoffs[0].slot := true];
      SysEffect(eff.accepted, System(eff.queue, busy), eff.handoffs)
    case Finish(slot) =>
      var eff := AfterRelease(s.queue, slot);
      var busy := if eff.handoffs == [] && slot < |s.busy| then s.busy[slot := false] else s.busy;
      SysEffect(true, System(eff.queue, busy), eff.handoffs)
  }

  /** The pool's invariant with respect to its clients: the queue is within
      its bound, and a request waits only while every client is busy. */
  ghost predicate Inv(maxQueue: nat, s: System)
  {
    |s.queue| <= maxQueue &&
    (s.queue != [] ==> forall i :: 0 <= i < |s.busy| ==> s.busy[i])
  }

  ghost predicate EnabledRun(maxQueue: nat, s: System, t: seq<SysEvent>)
    decreases |t|
  {
    t == [] || (Enabled(s, t[0]) && EnabledRun(maxQueue, SysStep(maxQueue, s, t[0]).next, t[1..]))
  }

  function SysRun(maxQueue: nat, s: System, t: seq<SysEvent>): System
    decreases |t|
  {
    if t == [] then s else SysRun(maxQueue, SysStep(maxQueue, s, t[0]).next, t[1..])
  }

  /** Every callback the events `t` run, in order. */
  function SysHandoffs(maxQueue: nat, s: System, t: seq<SysEvent>): seq<Handoff>
    decreases |t|
  {
    if t == [] then []
    else SysStep(maxQueue, s, t[0]).handoffs + SysHandoffs(maxQueue, SysStep(maxQueue, s, t[0]).next, t[1..])
  }

  /** No double dispatch: every client handed over was idle, or is the one
      that just finished and goes straight to the oldest waiter; either way
      it is busy afterwards. */
  lemma NoDoubleDispatch(maxQueue: nat, s: System, e: SysEvent)
    requires Enabled(s, e)
    ensures var r := SysStep(maxQueue, s, e);
      forall h :: h in r.handoffs ==>
        h.slot < |s.busy| && r.next.busy[h.slot] &&
        ((e.Request? && !s.busy[h.slot]) || e == Finish(h.slot))
  {
  }

  lemma StepKeepsInv(maxQueue: nat, s: System, e: SysEvent)
    requires Inv(maxQueue, s) && Enabled(s, e)
    ensures Inv(maxQueue, SysStep(maxQueue, s, e).next)
  {
    var r := SysStep(maxQueue, s, e);
    if e.Finish? && s.queue != [] {
      assert r.next.busy == s.busy;
    }
  }

  /** The invariant holds after any run of well-behaved clients. */
  lemma {:induction false} RunKeepsInv(maxQueue: nat, s: System, t: seq<SysEvent>)
    requires Inv(maxQueue, s) && EnabledRun(maxQueue, s, t)
    ensures Inv(maxQueue, SysRun(maxQueue, s, t))
    ensures |SysRun(maxQueue, s, t).busy| == |s.busy|
    decreases |t|
  {
    if t != [] {
      StepKeepsInv(maxQueue, s, t[0]);
      RunKeepsInv(maxQueue, SysStep(maxQueue, s, t[0]).next, t[1..]);
    }
  }

  /** While some client is idle, a request is served at once, by the first
      idle client, provided the queue bound is not zero. */
  lemma IdleClientServesAtOnce(maxQueue: nat, s: System, w: Waiter, i: nat)
    requires Inv(maxQueue, s) && 0 < maxQueue
    requires i < |s.busy| && !s.busy[i]
    ensures var r := SysStep(maxQueue, s, Request(w));
      r.accepted && r.next.queue == s.queue && |r.handoffs| == 1 &&
      IsFirstReady(Idle(s.busy), r.handoffs[0].slot) && r.handoffs[0].slot <= i
  {
    assert !NoneReady(Idle(s.busy)) by { assert Idle(s.busy)[i]; }
  }

  /** With a queue bound of zero every request is refused, even when a
      client is idle: the admission check comes before the scan. */
  lemma ZeroBoundRefusesAll(s: System, w: Waiter)
    ensures var r := SysStep(0, s, Request(w));
      !r.accepted && r.next == s && r.handoffs == []
  {
  }

  /** Two clients, a queue bound of one: two requests are served by the two
      clients, the third waits, the fourth is refused, and the first client's
      release serves the third with that client. */
  lemma TwoClientScenario(a: Waiter, b: Waiter, c: Waiter, d: Waiter)
    ensures var s0 := System([], [false, false]);
      var r1 := SysStep(1, s0, Request(a));
      var r2 := SysStep(1, r1.next, Request(b));
      var r3 := SysStep(1, r2.next, Request(c));
      var r4 := SysStep(1, r3.next, Request(d));
      var r5 := SysStep(1, r4.next, Finish(0));
      r1.accepted && r1.handoffs == [Handoff(a, 0)] &&
      r2.accepted && r2.handoffs == [Handoff(b, 1)] &&
      r3.accepted && r3.handoffs == [] && r3.next.queue == [c] &&
      !r4.accepted && r4.handoffs == [] &&
      r5.handoffs == [Handoff(c, 0)] && r5.next == System([], [true, true])
  {
    var s0 := System([], [false, false]);
    assert FirstReady(Idle(s0.busy)) == Some(0);
    var r1 := SysStep(1, s0, Request(a));
    assert r1.next.busy == [true, false];
    assert FirstReady(Idle(r1.next.busy)) == Some(1);
    var r2 := SysStep(1, r1.next, Request(b));
    assert r2.next.busy == [true, true];
    assert FirstReady(Idle(r2.next.busy)) == None;
  }
}
