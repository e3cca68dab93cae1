/**
 The mutex: a spin lock that protects the data, a slot for the owning task, and a wait queue
 whose condition is to take the spin lock. Each step is one atomic operation of `try_lock`,
 `lock` or the guard's drop.
 */
module Mutex {

  import opened Common
  import SoftLock
  import W = WaitQueue

  /** Where a caller is. Interrupt handlers (`isr`) never record themselves as owner and never wait. */
  datatype Pc =
    | Idle
    | Fast(isr: bool, blocking: bool) // about to try the spin lock
    | Inherit                         // about to donate its priority
    | Await                           // inside wait_until
    | Grabbed(isr: bool)              // has the spin lock, owner not recorded yet
    | Holding(isr: bool)              // has the guard
    | Dropping(isr: bool)             // owner cleared, spin lock not released yet
    | Tell                            // released, about to notify

  datatype Mtx = Mtx(locked: bool, owner: Option<nat>, queue: W.Queue, pcs: map<nat, Pc>)

  function Init(): Mtx { Mtx(false, None, W.Init(1, true), map[]) }

  function PcOf(m: Mtx, t: nat): Pc
  {
    if t in m.pcs then m.pcs[t] else Idle
  }

  function Goto(m: Mtx, t: nat, pc: Pc): Mtx
  {
    m.(pcs := m.pcs[t := pc])
  }

  datatype Action =
    | Call(t: nat, isr: bool, blocking: bool)
    | TryFast(t: nat)
    | Donate(t: nat)
    | SetOwner(t: nat)
    | ClearOwner(t: nat)
    | Release(t: nat)
    | Told(t: nat)
    | OnQueue(inner: W.Action)

  predicate Enabled(m: Mtx, a: Action)
  {
    match a
    case Call(t, isr, blocking) => PcOf(m, t) == Idle && !(isr && blocking)
    case TryFast(t) => PcOf(m, t).Fast?
    case Donate(t) => PcOf(m, t).Inherit?
    case SetOwner(t) => PcOf(m, t).Grabbed?
    case ClearOwner(t) => PcOf(m, t).Holding? && !W.HasAccess(m.queue, W.Waiting(t))
    case Release(t) => PcOf(m, t).Dropping?
    case Told(t) => PcOf(m, t).Tell? && t !in m.queue.owing && !W.HasAccess(m.queue, W.Notifying(t))
    case OnQueue(inner) =>
      W.Enabled(m.queue, inner) &&
      match inner
      case Gain(_) => false
      case Take(_) => false
      case Arrive(op) => if op.Waiting? then PcOf(m, op.task).Await? else PcOf(m, op.agent).Tell?
      case Go(_) => true
  }

  /** A step inside the wait queue; a waiting task whose condition succeeds has taken the spin lock. */
  function QueueStep(m: Mtx, inner: W.Action): Mtx
    requires W.Enabled(m.queue, inner)
  {
    var m' := m.(queue := W.Apply(m.queue, inner));
    if inner.Go? && W.Succeeds(m.queue) then
      Goto(m'.(locked := true), SoftLock.Top(m.queue.lock).job.op.task, Grabbed(false))
    else m'
  }

  function Apply(m: Mtx, a: Action): Mtx
    requires Enabled(m, a)
  {
    match a
    case Call(t, isr, blocking) => Goto(m, t, Fast(isr, blocking))
    case TryFast(t) =>
      var Fast(isr, blocking) := PcOf(m, t);
      if !m.locked then
        Goto(m.(locked := true, queue := m.queue.(avail := 0, woken := m.queue.woken - {t})), t, Grabbed(isr))
      else Goto(m, t, if blocking then Inherit else Idle)
    case Donate(t) => Goto(m, t, Await)
    case SetOwner(t) =>
      Goto(if PcOf(m, t).isr then m else m.(owner := Some(t)), t, Holding(PcOf(m, t).isr))
    case ClearOwner(t) => Goto(m.(owner := None), t, Dropping(PcOf(m, t).isr))
    case Release(t) =>
      Goto(m.(locked := false, queue := m.queue.(avail := m.queue.avail + 1, owing := m.queue.owing + {t})), t, Tell)
    case Told(t) => Goto(m, t, Idle)
    case OnQueue(inner) => QueueStep(m, inner)
  }

  // ---------- The invariant ----------

  predicate HasLock(pc: Pc)
  {
    pc.Grabbed? || pc.Holding? || pc.Dropping?
  }

  /** The spin lock is taken exactly when one caller has it, and the owner slot names a task exactly while it has its guard. */
  ghost predicate LockOk(locked: bool, owner: Option<nat>, pcs: map<nat, Pc>)
  {
    && (forall t :: t in pcs && HasLock(pcs[t]) ==> locked)
    && (locked ==> exists t :: t in pcs && HasLock(pcs[t]))
    && (forall t, u :: t in pcs && u in pcs && HasLock(pcs[t]) && HasLock(pcs[u]) ==> t == u)
    && (forall t :: owner == Some(t) <==> t in pcs && pcs[t] == Holding(false))
  }

  ghost predicate WaitersOk(pcs: map<nat, Pc>, q: W.Queue)
  {
    && (forall t :: t in q.queue || t in q.woken || W.Undecided(q.lock.stack, t) ==> t in pcs && pcs[t] == Await)
    && (forall t :: t in q.owing ==> t in pcs && pcs[t] == Tell)
  }

  ghost predicate Inv(m: Mtx)
  {
    && W.Inv(m.queue) && m.queue.grabs && m.queue.avail == (if m.locked then 0 else 1)
    && LockOk(m.locked, m.owner, m.pcs) && WaitersOk(m.pcs, m.queue)
  }

  /** A caller that is not waiting and owes nothing may move on without touching the queue. */
  lemma WaitersMove(pcs: map<nat, Pc>, q: W.Queue, t: nat, pc: Pc)
    requires WaitersOk(pcs, q) && (t in pcs ==> !pcs[t].Await? && !pcs[t].Tell?)
    ensures WaitersOk(pcs[t := pc], q)
  {
  }

  lemma WaitersArrive(pcs: map<nat, Pc>, q: W.Queue, op: W.Op)
    requires WaitersOk(pcs, q) && W.Enabled(q, W.Arrive(op))
    requires op.Waiting? ==> op.task in pcs && pcs[op.task] == Await
    ensures WaitersOk(pcs, W.Apply(q, W.Arrive(op)))
  {
    var q' := W.Apply(q, W.Arrive(op));
    forall t | W.Undecided(q'.lock.stack, t) ensures t in pcs && pcs[t] == Await {
      var i :| 0 <= i < |q'.lock.stack| && q'.lock.stack[i].job.op == W.Waiting(t) && q'.lock.stack[i].job.stage != W.Finished;
      if i < |q.lock.stack| { assert q.lock.stack[i].job.op == W.Waiting(t); assert W.Undecided(q.lock.stack, t); }
    }
  }

  lemma GoKeeps(m: Mtx, pick: nat)
    requires Inv(m) && W.Enabled(m.queue, W.Go(pick))
    ensures Inv(QueueStep(m, W.Go(pick)))
  {
    hide W.Inv, W.Step;
    var q := m.queue;
    W.ApplyInv(q, W.Go(pick));
    W.GrabFrame(q, pick);
    W.StepFrame(q, pick);
    var q' := W.Step(q, pick);
    assert W.Apply(q, W.Go(pick)) == q';
    if W.Succeeds(q) {
      var t := SoftLock.Top(q.lock).job.op.task;
      assert t in m.pcs && m.pcs[t] == Await && !m.locked;
      GrabLock(m.pcs, m.owner, t, false);
    }
  }

  /** Taking a free spin lock makes the caller its one holder. */
  lemma GrabLock(pcs: map<nat, Pc>, owner: Option<nat>, t: nat, isr: bool)
    requires LockOk(false, owner, pcs)
    ensures LockOk(true, owner, pcs[t := Grabbed(isr)])
  {
    var pcs' := pcs[t := Grabbed(isr)];
    assert t in pcs' && HasLock(pcs'[t]);
  }

  lemma LockMoves(locked: bool, owner: Option<nat>, pcs: map<nat, Pc>, t: nat, pc: Pc)
    requires LockOk(locked, owner, pcs) && !HasLock(pc) && (t in pcs ==> !HasLock(pcs[t]))
    ensures LockOk(locked, owner, pcs[t := pc])
  {
    var pcs' := pcs[t := pc];
    if locked {
      var u :| u in pcs && HasLock(pcs[u]);
      assert u in pcs' && HasLock(pcs'[u]);
    }
  }

  /** The holder moves from one stage of holding to the next. */
  lemma HolderMoves(owner: Option<nat>, pcs: map<nat, Pc>, t: nat, pc: Pc)
    requires LockOk(true, owner, pcs) && t in pcs && HasLock(pcs[t]) && HasLock(pc)
    ensures LockOk(true, if pc == Holding(false) then Some(t) else None, pcs[t := pc])
  {
    var pcs' := pcs[t := pc];
    assert t in pcs' && HasLock(pcs'[t]);
  }

  lemma HolderLeaves(owner: Option<nat>, pcs: map<nat, Pc>, t: nat)
    requires LockOk(true, owner, pcs) && t in pcs && pcs[t].Dropping?
    ensures LockOk(false, owner, pcs[t := Tell])
  {
  }

  /** Every action keeps the invariant. */
  lemma ApplyKeeps(m: Mtx, a: Action)
    requires Inv(m) && Enabled(m, a)
    ensures Inv(Apply(m, a))
  {
    hide W.Inv, LockOk, WaitersOk;
    match a {
      case Call(t, isr, blocking) =>
        LockMoves(m.locked, m.owner, m.pcs, t, Fast(isr, blocking));
        WaitersMove(m.pcs, m.queue, t, Fast(isr, blocking));
      case TryFast(t) => TryKeeps(m, t);
      case Donate(t) =>
        LockMoves(m.locked, m.owner, m.pcs, t, Await);
        WaitersMove(m.pcs, m.queue, t, Await);
      case SetOwner(t) => OwnerKeeps(m, t);
      case ClearOwner(t) => OwnerKeeps(m, t);
      case Release(t) => ReleaseKeeps(m, t);
      case Told(t) => ToldKeeps(m, t);
      case OnQueue(inner) =>
        if inner.Go? { GoKeeps(m, inner.pick); }
        else { ArriveKeeps(m, inner.op); }
    }
  }

  lemma ArriveKeeps(m: Mtx, op: W.Op)
    requires Inv(m) && Enabled(m, OnQueue(W.Arrive(op)))
    ensures Inv(Apply(m, OnQueue(W.Arrive(op))))
  {
    hide W.Inv, LockOk, WaitersOk;
    W.ApplyInv(m.queue, W.Arrive(op));
    WaitersArrive(m.pcs, m.queue, op);
  }

  lemma TryKeeps(m: Mtx, t: nat)
    requires Inv(m) && Enabled(m, TryFast(t))
    ensures Inv(Apply(m, TryFast(t)))
  {
    hide W.Inv, LockOk;
    var Fast(isr, blocking) := PcOf(m, t);
    if !m.locked {
      W.ApplyInv(m.queue, W.Take(t));
      GrabLock(m.pcs, m.owner, t, isr);
      assert Apply(m, TryFast(t)).queue == W.Apply(m.queue, W.Take(t));
    } else {
      LockMoves(m.locked, m.owner, m.pcs, t, if blocking then Inherit else Idle);
    }
  }

  lemma OwnerKeeps(m: Mtx, t: nat)
    requires Inv(m) && (PcOf(m, t).Grabbed? || PcOf(m, t).Holding?)
    ensures PcOf(m, t).Grabbed? ==> Inv(Apply(m, SetOwner(t)))
    ensures PcOf(m, t).Holding? && !W.HasAccess(m.queue, W.Waiting(t)) ==> Inv(Apply(m, ClearOwner(t)))
  {
    hide W.Inv;
    var pc := if PcOf(m, t).Grabbed? then Holding(PcOf(m, t).isr) else Dropping(PcOf(m, t).isr);
    assert m.locked;
    HolderMoves(m.owner, m.pcs, t, pc);
    WaitersMove(m.pcs, m.queue, t, pc);
    if PcOf(m, t).Grabbed? { NoOwnerUnlessHolding(m, t); }
    hide LockOk, WaitersOk;
  }

  /** While the lock's holder is not a task with its guard, the owner slot is empty. */
  lemma NoOwnerUnlessHolding(m: Mtx, t: nat)
    requires LockOk(m.locked, m.owner, m.pcs) && t in m.pcs && HasLock(m.pcs[t]) && m.pcs[t] != Holding(false)
    ensures m.owner == None
  {
    assert forall u :: m.owner == Some(u) ==> u in m.pcs && m.pcs[u] == Holding(false);
  }

  lemma ReleaseKeeps(m: Mtx, t: nat)
    requires Inv(m) && Enabled(m, Release(t))
    ensures Inv(Apply(m, Release(t)))
  {
    hide W.Inv;
    assert m.locked && t !in m.queue.owing;
    W.ApplyInv(m.queue, W.Gain(t));
    HolderLeaves(m.owner, m.pcs, t);
    hide LockOk;
    assert Apply(m, Release(t)).queue == W.Apply(m.queue, W.Gain(t));
  }

  lemma ToldKeeps(m: Mtx, t: nat)
    requires Inv(m) && Enabled(m, Told(t))
    ensures Inv(Apply(m, Told(t)))
  {
    hide W.Inv, LockOk;
    LockMoves(m.locked, m.owner, m.pcs, t, Idle);
  }

  // ---------- Whole runs ----------

  /** The state that a schedule leads to; none when an action is not possible. */
  function Run(schedule: seq<Action>): Option<Mtx>
  {
    if schedule == [] then Some(Init())
    else
      var before := Run(schedule[..|schedule| - 1]);
      var last := schedule[|schedule| - 1];
      if before.Some? && Enabled(before.value, last) then Some(Apply(before.value, last)) else None
  }

  lemma {:induction false} RunKeepsInv(schedule: seq<Action>)
    requires Run(schedule).Some?
    ensures Inv(Run(schedule).value)
  {
    if schedule == [] {
      W.RunKeepsInv(1, true, []);
      hide W.Inv;
    } else {
      RunKeepsInv(schedule[..|schedule| - 1]);
      ApplyKeeps(Run(schedule[..|schedule| - 1]).value, schedule[|schedule| - 1]);
    }
  }

  /** At most one guard exists. */
  lemma GuardIsUnique(schedule: seq<Action>, t: nat, u: nat)
    requires Run(schedule).Some? && PcOf(Run(schedule).value, t).Holding? && PcOf(Run(schedule).value, u).Holding?
    ensures t == u && Run(schedule).value.locked
  {
    RunKeepsInv(schedule);
    hide W.Inv;
  }

  /** `t` tries the spin lock, in `try_lock` itself or as the condition of its wait. */
  predicate Attempts(m: Mtx, a: Action, t: nat)
  {
    match a
    case TryFast(u) => u == t
    case OnQueue(inner) =>
      inner.Go? && m.queue.lock.stack != [] && var c := SoftLock.Top(m.queue.lock);
      c.phase == SoftLock.Full && c.job.op == W.Waiting(t) && c.job.stage == W.Begin
    case _ => false
  }

  /** Where a failed attempt leaves its caller: back outside, donating its priority, or still in its wait. */
  function Failed(m: Mtx, a: Action, t: nat): Pc
  {
    if !a.TryFast? then Await else if PcOf(m, t).Fast? && PcOf(m, t).blocking then Inherit else Idle
  }

  /**
   In every run, an attempt takes the spin lock if and only if nobody has it at that moment: a refused `try_lock` was made while
   someone had the lock, and one made while nobody had it succeeds.
   */
  lemma AttemptSucceedsIff(schedule: seq<Action>, a: Action, t: nat)
    requires Run(schedule).Some? && Enabled(Run(schedule).value, a) && Attempts(Run(schedule).value, a, t)
    ensures (var m, m' := Run(schedule).value, Apply(Run(schedule).value, a);
             && (HasLock(PcOf(m', t)) <==> forall u :: !HasLock(PcOf(m, u)))
             && (if HasLock(PcOf(m', t)) then PcOf(m', t).Grabbed? && m'.locked else PcOf(m', t) == Failed(m, a, t)))
  {
    RunKeepsInv(schedule);
    var m := Run(schedule).value;
    FreeIff(m);
    if !a.TryFast? { AttemptsUndecided(m, t); }
    hide W.Inv, LockOk, WaitersOk, W.Step;
  }

  lemma FreeIff(m: Mtx)
    requires Inv(m)
    ensures m.locked <==> exists u :: HasLock(PcOf(m, u))
  {
    hide W.Inv, WaitersOk;
    if m.locked {
      var u :| u in m.pcs && HasLock(m.pcs[u]);
      assert HasLock(PcOf(m, u));
    }
  }

  lemma AttemptsUndecided(m: Mtx, t: nat)
    requires Inv(m) && m.queue.lock.stack != []
    requires (var c := SoftLock.Top(m.queue.lock); c.phase == SoftLock.Full && c.job.op == W.Waiting(t) && c.job.stage == W.Begin)
    ensures PcOf(m, t) == Await
  {
    var stack := m.queue.lock.stack;
    assert stack[|stack| - 1].job.op == W.Waiting(t) && stack[|stack| - 1].job.stage != W.Finished;
    assert W.Undecided(stack, t);
    hide W.Inv, LockOk;
  }

  lemma RunExtends(schedule: seq<Action>, a: Action)
    requires Run(schedule).Some? && Enabled(Run(schedule).value, a)
    ensures Run(schedule + [a]) == Some(Apply(Run(schedule).value, a))
  {
    assert (schedule + [a])[..|schedule|] == schedule;
  }

  /** After any run, a caller that is in no call and not interrupted gets the guard if nobody has the lock. */
  lemma LocksAlone(schedule: seq<Action>, t: nat, isr: bool, blocking: bool)
    requires Run(schedule).Some? && PcOf(Run(schedule).value, t) == Idle && !(isr && blocking)
    requires forall u :: !HasLock(PcOf(Run(schedule).value, u))
    ensures (var schedule' := schedule + [Call(t, isr, blocking)] + [TryFast(t)] + [SetOwner(t)];
             && Run(schedule').Some? && PcOf(Run(schedule').value, t) == Holding(isr)
             && (isr || Run(schedule').value.owner == Some(t)))
  {
    hide Run, W.Inv, LockOk, WaitersOk;
    RunKeepsInv(schedule);
    FreeIff(Run(schedule).value);
    RunExtends(schedule, Call(t, isr, blocking));
    RunExtends(schedule + [Call(t, isr, blocking)], TryFast(t));
    RunExtends(schedule + [Call(t, isr, blocking)] + [TryFast(t)], SetOwner(t));
  }

  /** What the wait queue goes through is a run of its own, so that what holds of those holds of it. */
  lemma {:induction false} QueueRuns(schedule: seq<Action>) returns (inner: seq<W.Action>)
    requires Run(schedule).Some?
    ensures W.Run(1, true, inner) == Some(Run(schedule).value.queue)
  {
    if schedule == [] {
      inner := [];
    } else {
      var before, last := schedule[..|schedule| - 1], schedule[|schedule| - 1];
      hide Apply, Enabled, Inv, W.Run;
      RunKeepsInv(before);
      inner := QueueRuns(before);
      inner := QueueNext(Run(before).value, last, inner);
    }
  }

  lemma QueueNext(m: Mtx, a: Action, inner: seq<W.Action>) returns (inner': seq<W.Action>)
    requires Inv(m) && Enabled(m, a) && W.Run(1, true, inner) == Some(m.queue)
    ensures W.Run(1, true, inner') == Some(Apply(m, a).queue)
  {
    QueueMoves(m, a);
    hide W.Run, Inv, W.Apply, W.Enabled;
    inner' := inner;
    match a
    case OnQueue(act) => inner' := QueueExtends(inner, act);
    case TryFast(t) => if !m.locked { inner' := QueueExtends(inner, W.Take(t)); }
    case Release(t) => inner' := QueueExtends(inner, W.Gain(t));
    case _ =>
  }

  /** Taking and releasing the spin lock are a take and a gain. */
  lemma QueueMoves(m: Mtx, a: Action)
    requires Inv(m) && Enabled(m, a)
    ensures a.TryFast? && !m.locked ==> W.Enabled(m.queue, W.Take(a.t)) && Apply(m, a).queue == W.Apply(m.queue, W.Take(a.t))
    ensures a.Release? ==> W.Enabled(m.queue, W.Gain(a.t)) && Apply(m, a).queue == W.Apply(m.queue, W.Gain(a.t))
  {
    hide W.Inv;
  }

  lemma QueueExtends(inner: seq<W.Action>, a: W.Action) returns (inner': seq<W.Action>)
    requires W.Run(1, true, inner).Some? && W.Enabled(W.Run(1, true, inner).value, a)
    ensures W.Run(1, true, inner') == Some(W.Apply(W.Run(1, true, inner).value, a))
  {
    inner' := inner + [a];
    assert inner'[..|inner|] == inner;
  }

  /** A task is recorded as owner exactly while it has its guard, and then the spin lock is taken. */
  lemma OwnerHoldsGuard(schedule: seq<Action>, t: nat)
    requires Run(schedule).Some?
    ensures Run(schedule).value.owner == Some(t) <==> PcOf(Run(schedule).value, t) == Holding(false)
    ensures Run(schedule).value.owner == Some(t) ==> Run(schedule).value.locked
  {
    RunKeepsInv(schedule);
    hide W.Inv;
  }

  /** Some caller has the spin lock and is not a task with its guard. */
  ghost predicate Unrecorded(pcs: map<nat, Pc>)
  {
    exists t :: t in pcs && HasLock(pcs[t]) && pcs[t] != Holding(false)
  }

  /** The mutex is locked without an owner exactly while its one holder is an interrupt handler, or has not recorded itself yet, or is dropping its guard. */
  lemma OwnerlessWindow(schedule: seq<Action>)
    requires Run(schedule).Some?
    ensures Run(schedule).value.locked && Run(schedule).value.owner == None <==> Unrecorded(Run(schedule).value.pcs)
  {
    RunKeepsInv(schedule);
    hide W.Inv;
    var m := Run(schedule).value;
    forall t | t in m.pcs && HasLock(m.pcs[t]) && m.pcs[t] != Holding(false) ensures m.locked && m.owner == None {
      NoOwnerUnlessHolding(m, t);
    }
    if m.locked && m.owner == None {
      var t :| t in m.pcs && HasLock(m.pcs[t]);
      assert m.pcs[t] != Holding(false);
    }
  }

  /**
   No lost unlock: while a task is queued, the mutex is locked, or someone is between releasing
   and notifying, or a notification is pended, or a woken waiter has yet to try.
   */
  lemma NoLostUnlock(schedule: seq<Action>)
    requires Run(schedule).Some? && Run(schedule).value.queue.queue != []
    ensures var m := Run(schedule).value;
      || m.locked
      || (exists t :: t in m.pcs && m.pcs[t] == Tell && t in m.queue.owing)
      || m.queue.cnt > 0 || W.Left(m.queue.lock.stack) > 0
      || (exists t :: t in m.pcs && m.pcs[t] == Await && t in m.queue.woken)
  {
    RunKeepsInv(schedule);
    var m := Run(schedule).value;
    assert W.NoneLost(m.queue);
    if m.queue.owing != {} {
      var t :| t in m.queue.owing;
      assert t in m.pcs && m.pcs[t] == Tell;
    }
    if m.queue.woken != {} {
      var t :| t in m.queue.woken;
      assert t in m.pcs && m.pcs[t] == Await;
    }
  }

  /** Every caller is outside, has the guard, or is blocked on the queue, and no access to the queue is open. */
  ghost predicate Settled(m: Mtx)
  {
    m.queue.lock.stack == [] && forall t {:trigger m.pcs[t]} :: t in m.pcs ==>
      m.pcs[t] == Idle || m.pcs[t].Holding? || (m.pcs[t] == Await && t in m.queue.queue)
  }

  /** Once everything has settled, tasks are blocked only on a mutex whose guard someone holds. */
  lemma SettledMeansHeld(schedule: seq<Action>)
    requires Run(schedule).Some? && Settled(Run(schedule).value) && Run(schedule).value.queue.queue != []
    ensures exists t :: PcOf(Run(schedule).value, t).Holding?
  {
    RunKeepsInv(schedule);
    var m := Run(schedule).value;
    assert SoftLock.Inv(m.queue.lock);
    assert forall t :: t in m.queue.woken ==> t in m.queue.queue;
    assert m.queue.woken == {};
    assert forall t :: t in m.queue.owing ==> PcOf(m, t) == Tell;
    assert m.queue.owing == {};
    assert m.locked;
    var t :| t in m.pcs && HasLock(m.pcs[t]);
    assert PcOf(m, t).Holding?;
  }
}
