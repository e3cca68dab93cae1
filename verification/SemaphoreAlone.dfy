/** A semaphore call that nobody interrupts, made while its count is off the limit, succeeds. */
module SemaphoreAlone {

  import opened Common
  import SoftLock
  import W = WaitQueue
  import opened Semaphore

  /** One step of the access on top, waking the first task if any. */
  function OneGo(q: W.Queue): Option<W.Queue>
  {
    if W.Enabled(q, W.Go(0)) then Some(W.Apply(q, W.Go(0))) else None
  }

  function Gos(q: W.Queue, n: nat): Option<W.Queue>
    decreases n
  {
    if n == 0 then Some(q)
    else
      match OneGo(q)
      case None => None
      case Some(q') => Gos(q', n - 1)
  }

  // ---------- One access to a queue ----------

  function OnTop(q: W.Queue, phase: SoftLock.Phase, op: W.Op, stage: W.Stage, passes: nat): SoftLock.Ctx<W.Job>
  {
    SoftLock.Ctx(phase, op.Waiting?, W.Job(op, stage, 0), passes, q.lock.arrivals, q.lock.arrivals)
  }

  /** The queue with one access open. */
  function Open(q: W.Queue, locked: bool, c: SoftLock.Ctx<W.Job>): W.Queue
  {
    q.(lock := q.lock.(locked := locked, stack := [c]))
  }

  predicate AtRest(q: W.Queue) { q.lock.stack == [] && !q.lock.locked && !q.lock.pending }

  lemma Begins(q: W.Queue, op: W.Op)
    requires AtRest(q) && W.Enabled(q, W.Arrive(op))
    ensures (var a := W.Apply(q, W.Arrive(op));
             OneGo(a) == Some(Open(q.(passed := a.passed), true, OnTop(q, SoftLock.Full, op, W.Begin, 0))))
  {
    var a := W.Apply(q, W.Arrive(op));
    assert a.lock.stack == [OnTop(q, SoftLock.Enter, op, W.Begin, 0)];
    assert W.Apply(a, W.Go(0)).lock.stack == [OnTop(q, SoftLock.Full, op, W.Begin, 0)];
  }

  /** Once its operation is done, an access ends in four steps. */
  lemma Ends(q: W.Queue, op: W.Op)
    requires AtRest(q)
    ensures Gos(Open(q, true, OnTop(q, SoftLock.Full, op, W.Finished, 0)), 4) == Some(q)
  {
    var q1 := Open(q, true, OnTop(q, SoftLock.Full, op, W.Finished, 0));
    var q2 := Open(q, true, OnTop(q, SoftLock.Check, op, W.Finished, 0));
    var q3 := Open(q, true, OnTop(q, SoftLock.Release, op, W.Finished, 1));
    var q4 := Open(q, false, OnTop(q, SoftLock.Recheck, op, W.Finished, 1));
    assert OneGo(q1) == Some(q2) by { assert W.Apply(q1, W.Go(0)).lock == q2.lock; }
    assert OneGo(q2) == Some(q3) by { assert W.Apply(q2, W.Go(0)).lock == q3.lock; }
    assert OneGo(q3) == Some(q4) by { assert W.Apply(q3, W.Go(0)).lock == q4.lock; }
    assert OneGo(q4) == Some(q) by { assert W.Apply(q4, W.Go(0)).lock == q.lock; }
    hide OneGo;
    assert Gos(q4, 1) == Some(q) by { assert Gos(q, 0) == Some(q); }
    assert Gos(q3, 2) == Gos(q4, 1);
    assert Gos(q2, 3) == Gos(q3, 2);
  }

  /** A waiting task that finds its condition satisfied leaves the queue as it was, and may leave. */
  lemma WaitsAlone(q: W.Queue, t: nat)
    requires AtRest(q) && q.avail > 0 && !q.grabs && t !in q.queue
    ensures Gos(W.Apply(q, W.Arrive(W.Waiting(t))), 6) == Some(q.(passed := q.passed + {t}))
  {
    var a, op := W.Apply(q, W.Arrive(W.Waiting(t))), W.Waiting(t);
    Begins(q, op);
    var q1 := Open(q.(passed := q.passed - {t}), true, OnTop(q, SoftLock.Full, op, W.Begin, 0));
    var q2 := Open(q.(passed := q.passed + {t}), true, OnTop(q, SoftLock.Full, op, W.Finished, 0));
    assert OneGo(q1) == Some(q2) by { assert q.passed - {t} + {t} == q.passed + {t}; assert W.Apply(q1, W.Go(0)).lock == q2.lock; }
    Ends(q.(passed := q.passed + {t}), op);
    hide OneGo, W.Apply;
    assert Gos(q1, 5) == Gos(q2, 4);
  }

  /** The queue after a notification. */
  function Told(q: W.Queue, t: nat): W.Queue
  {
    var q' := q.(owing := q.owing - {t});
    if q.queue == [] then q' else W.Wake(q', 0)
  }

  lemma NotifiesAlone(q: W.Queue, t: nat)
    requires AtRest(q)
    ensures Gos(W.Apply(q, W.Arrive(W.Notifying(t))), 6) == Some(Told(q, t))
  {
    var a, op := W.Apply(q, W.Arrive(W.Notifying(t))), W.Notifying(t);
    Begins(q, op);
    var q1, told := Open(q, true, OnTop(q, SoftLock.Full, op, W.Begin, 0)), Told(q, t);
    var q2 := Open(told, true, OnTop(q, SoftLock.Full, op, W.Finished, 0));
    assert OneGo(q1) == Some(q2) by { assert W.Apply(q1, W.Go(0)).lock == q2.lock; }
    Ends(told, op);
    hide OneGo, W.Apply, Told;
    assert Gos(q1, 5) == Gos(q2, 4);
  }

  // ---------- Within the semaphore ----------

  function On(own: Kind, a: W.Action): Action { if own == Down then OnInc(a) else OnDec(a) }

  function OnGos(own: Kind, n: nat): seq<Action> { seq(n, _ => On(own, W.Go(0))) }

  /** The steps of an access, taken in a run of the semaphore. */
  lemma {:induction false} GosLift(max: nat, count: nat, schedule: seq<Action>, own: Kind, n: nat)
    requires Run(max, count, schedule).Some? && Gos(Own(Run(max, count, schedule).value, own), n).Some?
    ensures (var s := Run(max, count, schedule).value;
             Run(max, count, schedule + OnGos(own, n)) == Some(WithQueues(s, own, Gos(Own(s, own), n).value, Other(s, own))))
    decreases n
  {
    hide Run, W.Apply, W.Enabled, Sound;
    var s := Run(max, count, schedule).value;
    if n == 0 {
      assert schedule + OnGos(own, 0) == schedule;
    } else {
      RunExtends(max, count, schedule, On(own, W.Go(0)));
      GosLift(max, count, schedule + [On(own, W.Go(0))], own, n - 1);
      assert schedule + [On(own, W.Go(0))] + OnGos(own, n - 1) == schedule + OnGos(own, n);
    }
  }

  /** A whole access. */
  lemma AccessLifts(max: nat, count: nat, schedule: seq<Action>, own: Kind, op: W.Op)
    requires Run(max, count, schedule).Some? && Enabled(Run(max, count, schedule).value, On(own, W.Arrive(op)))
    requires W.Enabled(Own(Run(max, count, schedule).value, own), W.Arrive(op))
    requires Gos(W.Apply(Own(Run(max, count, schedule).value, own), W.Arrive(op)), 6).Some?
    ensures (var s := Run(max, count, schedule).value;
             Run(max, count, schedule + ([On(own, W.Arrive(op))] + OnGos(own, 6)))
             == Some(WithQueues(s, own, Gos(W.Apply(Own(s, own), W.Arrive(op)), 6).value, Other(s, own))))
  {
    hide Run, W.Apply, W.Enabled, Gos, Sound;
    RunExtends(max, count, schedule, On(own, W.Arrive(op)));
    GosLift(max, count, schedule + [On(own, W.Arrive(op))], own, 6);
    assert schedule + [On(own, W.Arrive(op))] + OnGos(own, 6) == schedule + ([On(own, W.Arrive(op))] + OnGos(own, 6));
  }

  function Opposite(kind: Kind): Kind { if kind == Down then Up else Down }

  /** The actions of one call: its wait if it may block, its try, and its notification. */
  function Alone(t: nat, kind: Kind, blocking: bool): seq<Action>
  {
    [Call(t, kind, blocking)]
    + (if blocking then [On(kind, W.Arrive(W.Waiting(t)))] + OnGos(kind, 6) + [Proceed(t)] else [])
    + [Read(t), Exchange(t)]
    + ([On(Opposite(kind), W.Arrive(W.Notifying(t)))] + OnGos(Opposite(kind), 6)) + [Semaphore.Told(t)]
  }

  /** The semaphore between calls of `t`, with no access to its queues open. */
  ghost predicate Free(s: Sem, t: nat)
  {
    Sound(s) && PcOf(s, t) == Idle && s.inc.lock.stack == [] && s.dec.lock.stack == []
  }

  lemma QueuesAtRest(s: Sem, t: nat)
    requires Free(s, t)
    ensures AtRest(s.inc) && AtRest(s.dec)
    ensures t !in s.inc.queue && t !in s.dec.queue && t !in s.inc.owing && t !in s.dec.owing && t !in s.inc.passed && t !in s.dec.passed
    ensures !s.inc.grabs && !s.dec.grabs
  {
    assert SoftLock.Inv(s.inc.lock) && SoftLock.Inv(s.dec.lock);
  }

  lemma UnitFree(s: Sem, kind: Kind)
    requires Sound(s) && CanGo(s, kind)
    ensures Own(s, kind).avail > 0 && !Own(s, kind).grabs
  {
  }

  lemma MayArrive(s: Sem, t: nat, kind: Kind)
    requires AtRest(Own(s, kind)) && t !in Own(s, kind).queue
    ensures PcOf(s, t) == Await(kind) ==> Enabled(s, On(kind, W.Arrive(W.Waiting(t)))) && W.Enabled(Own(s, kind), W.Arrive(W.Waiting(t)))
    ensures PcOf(s, t) == Tell(Opposite(kind)) ==> Enabled(s, On(kind, W.Arrive(W.Notifying(t)))) && W.Enabled(Own(s, kind), W.Arrive(W.Notifying(t)))
  {
  }

  /** Having passed, the wait is over. */
  lemma Leaves(s: Sem, t: nat, kind: Kind, q: W.Queue)
    requires PcOf(s, t) == Await(kind) && Own(s, kind) == q && AtRest(q) && t !in q.queue && t !in q.passed
    ensures (var s' := WithQueues(s, kind, q.(passed := q.passed + {t}), Other(s, kind)); Enabled(s', Proceed(t)) && DoProceed(s', t, kind) == Goto(s, t, Load(kind, true)))
  {
    assert q.passed + {t} - {t} == q.passed;
  }

  /** The wait of a blocking call. */
  lemma WaitPart(max: nat, count: nat, schedule: seq<Action>, t: nat, kind: Kind)
    requires Run(max, count, schedule).Some?
    requires (var s := Run(max, count, schedule).value; Sound(s) && PcOf(s, t) == Await(kind) && CanGo(s, kind) && AtRest(Own(s, kind)) && t !in Own(s, kind).queue && t !in Own(s, kind).passed)
    ensures (var s := Run(max, count, schedule).value;
             Run(max, count, schedule + ([On(kind, W.Arrive(W.Waiting(t)))] + OnGos(kind, 6) + [Proceed(t)])) == Some(Goto(s, t, Load(kind, true))))
  {
    var s := Run(max, count, schedule).value;
    var q := Own(s, kind);
    UnitFree(s, kind);
    MayArrive(s, t, kind);
    Leaves(s, t, kind, q);
    hide Run, Gos, OnGos, Sound, W.Apply, W.Enabled, Enabled, AtRest, WithQueues, Own, Other, On, DoProceed;
    WaitsAlone(q, t);
    AccessLifts(max, count, schedule, kind, W.Waiting(t));
    var mid := schedule + ([On(kind, W.Arrive(W.Waiting(t)))] + OnGos(kind, 6));
    RunExtends(max, count, mid, Proceed(t));
    KindOf(Run(max, count, mid).value, s, t, kind, q);
    assert mid + [Proceed(t)] == schedule + ([On(kind, W.Arrive(W.Waiting(t)))] + OnGos(kind, 6) + [Proceed(t)]);
  }

  lemma KindOf(s': Sem, s: Sem, t: nat, kind: Kind, q: W.Queue)
    requires PcOf(s, t) == Await(kind) && s' == WithQueues(s, kind, q.(passed := q.passed + {t}), Other(s, kind))
    ensures PcOf(s', t) == Await(kind)
  {
  }

  /** The try. */
  lemma Tries(max: nat, count: nat, schedule: seq<Action>, t: nat, kind: Kind, blocking: bool)
    requires Run(max, count, schedule).Some?
    requires (var s := Run(max, count, schedule).value; Sound(s) && PcOf(s, t) == Load(kind, blocking) && s.count != Limit(s, kind))
    ensures (var s := Run(max, count, schedule).value;
             Run(max, count, schedule + [Read(t)] + [Exchange(t)]) == Some(DoExchange(Goto(s, t, Swap(kind, blocking, s.count)), t, kind, blocking, s.count)))
  {
    hide Run, Sound, DoExchange;
    RunExtends(max, count, schedule, Read(t));
    RunExtends(max, count, schedule + [Read(t)], Exchange(t));
  }

  /** The notification. */
  lemma TellPart(max: nat, count: nat, schedule: seq<Action>, t: nat, kind: Kind)
    requires Run(max, count, schedule).Some?
    requires (var s := Run(max, count, schedule).value; PcOf(s, t) == Tell(kind) && AtRest(Other(s, kind)))
    ensures (var schedule' := schedule + ([On(Opposite(kind), W.Arrive(W.Notifying(t)))] + OnGos(Opposite(kind), 6)) + [Semaphore.Told(t)];
             Run(max, count, schedule').Some? && Returns(Run(max, count, schedule).value, Run(max, count, schedule').value, t))
  {
    hide Run, Gos, OnGos, Sound, W.Apply, W.Enabled, AtRest, WithQueues, Own, Other, On, Enabled, Opposite, Told;
    var s, other := Run(max, count, schedule).value, Opposite(kind);
    TellReady(s, t, kind);
    ToldEnabled(s, t, kind);
    AccessLifts(max, count, schedule, other, W.Notifying(t));
    var told := schedule + ([On(other, W.Arrive(W.Notifying(t)))] + OnGos(other, 6));
    RunExtends(max, count, told, Semaphore.Told(t));
  }

  lemma TellReady(s: Sem, t: nat, kind: Kind)
    requires PcOf(s, t) == Tell(kind) && AtRest(Other(s, kind))
    ensures (var other := Opposite(kind);
             && Enabled(s, On(other, W.Arrive(W.Notifying(t)))) && W.Enabled(Own(s, other), W.Arrive(W.Notifying(t)))
             && Gos(W.Apply(Own(s, other), W.Arrive(W.Notifying(t))), 6) == Some(Told(Own(s, other), t)))
  {
    hide Gos, Told;
    NotifiesAlone(Other(s, kind), t);
  }

  predicate Returns(s: Sem, s': Sem, t: nat)
  {
    PcOf(s', t) == Returned(true) && s'.count == s.count && s'.ups == s.ups && s'.downs == s.downs
  }

  lemma ToldEnabled(s: Sem, t: nat, kind: Kind)
    requires PcOf(s, t) == Tell(kind) && AtRest(Other(s, kind))
    ensures (var s' := WithQueues(s, Opposite(kind), Told(Own(s, Opposite(kind)), t), Other(s, Opposite(kind)));
             Enabled(s', Semaphore.Told(t)) && Returns(s, Goto(s', t, Returned(true)), t))
  {
  }

  /** The try and the notification. */
  lemma TryPart(max: nat, count: nat, schedule: seq<Action>, t: nat, kind: Kind, blocking: bool)
    requires Run(max, count, schedule).Some?
    requires (var s := Run(max, count, schedule).value;
              Sound(s) && PcOf(s, t) == Load(kind, blocking) && s.count != Limit(s, kind) && AtRest(Other(s, kind)))
    ensures (var schedule' := schedule + [Read(t), Exchange(t)] + ([On(Opposite(kind), W.Arrive(W.Notifying(t)))] + OnGos(Opposite(kind), 6)) + [Semaphore.Told(t)];
             Run(max, count, schedule').Some? && Succeeds(Run(max, count, schedule).value, Run(max, count, schedule').value, t, kind))
  {
    hide Run, W.Inv, Gos, OnGos, Sound;
    Tries(max, count, schedule, t, kind, blocking);
    var tried := schedule + [Read(t)] + [Exchange(t)];
    TellPart(max, count, tried, t, kind);
    assert tried == schedule + [Read(t), Exchange(t)];
  }

  /** The call has returned with success, and the count has moved by one. */
  predicate Succeeds(s: Sem, s': Sem, t: nat, kind: Kind)
  {
    PcOf(s', t) == Returned(true) && if kind == Down then s'.count == s.count - 1 && s'.downs == s.downs + 1 else s'.count == s.count + 1 && s'.ups == s.ups + 1
  }

  /**
   After any run, a call of a caller that is in none, made while no access to the queues is open and not interrupted, succeeds if
   the count is off its limit; for `up` below the maximum, for `try_up` anywhere but at it.
   */
  lemma SucceedsAlone(max: nat, count: nat, schedule: seq<Action>, t: nat, kind: Kind, blocking: bool)
    requires Run(max, count, schedule).Some? && Free(Run(max, count, schedule).value, t)
    requires (var s := Run(max, count, schedule).value; if blocking then CanGo(s, kind) else s.count != Limit(s, kind))
    ensures Run(max, count, schedule + Alone(t, kind, blocking)).Some?
    ensures Succeeds(Run(max, count, schedule).value, Run(max, count, schedule + Alone(t, kind, blocking)).value, t, kind)
  {
    hide Run, W.Inv, Gos, OnGos, Sound;
    var s := Run(max, count, schedule).value;
    QueuesAtRest(s, t);
    RunExtends(max, count, schedule, Call(t, kind, blocking));
    var called := schedule + [Call(t, kind, blocking)];
    RunKeepsInv(max, count, called);
    var wait := [On(kind, W.Arrive(W.Waiting(t)))] + OnGos(kind, 6) + [Proceed(t)];
    var tell := [On(Opposite(kind), W.Arrive(W.Notifying(t)))] + OnGos(Opposite(kind), 6);
    if blocking {
      WaitPart(max, count, called, t, kind);
      RunKeepsInv(max, count, called + wait);
      TryPart(max, count, called + wait, t, kind, true);
      assert called + wait + [Read(t), Exchange(t)] + tell + [Semaphore.Told(t)] == schedule + Alone(t, kind, true);
    } else {
      TryPart(max, count, called, t, kind, false);
      assert called + [Read(t), Exchange(t)] + tell + [Semaphore.Told(t)] == schedule + Alone(t, kind, false);
    }
  }
}
