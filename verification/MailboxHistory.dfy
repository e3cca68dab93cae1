/**
 Overlapping waits on one mailbox: exactly when a waiting task is lost, and exactly when the result of a wait disagrees with
 what was delivered to it. A history is kept beside the mailbox's own runs and changes nothing in them.
 */
module MailboxHistory {

  import opened Common
  import SoftLock
  import opened Mailbox

  /** The `number`th wait of a task. */
  datatype WaitId = WaitId(task: nat, number: nat)

  /**
   For each task's last wait, `beside` are the other tasks that had yet to clear up after a wait with timeout when it began, and
   `passed` those that have cleared up while it was blocked without a notification. `begun` counts each task's waits, `last` is
   the last wait to block with timeout, and `delivered` are the waits that were handed a notification. `ended` has the tasks whose
   last wait blocked with timeout and is over, each with the last wait that had blocked with timeout when it cleared up.
   */
  datatype History = History(beside: map<nat, set<nat>>, passed: map<nat, set<nat>>, begun: map<nat, nat>, last: Option<WaitId>,
                             delivered: set<WaitId>, ended: map<nat, Option<WaitId>>)

  function Fresh(): History { History(map[], map[], map[], None, {}, map[]) }

  function Number(h: History, t: nat): nat { if t in h.begun then h.begun[t] else 0 }

  /** The wait that the task is in, or was in last. */
  function Current(h: History, t: nat): WaitId { WaitId(t, Number(h, t)) }

  /** There is such a wait, and it has been handed a notification. */
  predicate Notified(h: History, w: Option<WaitId>) { w.Some? && w.value in h.delivered }

  /** The task has yet to clear up after a wait with timeout. */
  predicate IsUncleared(pc: Pc) { pc == Blocked(true) || pc == Ready(true) || pc == Leaving }

  /** The task has blocked, and its wait goes on. */
  predicate Waits(pc: Pc) { IsUncleared(pc) || pc == Blocked(false) }

  function Uncleared(m: Mailbox): set<nat>
  {
    set t | t in m.pcs && IsUncleared(m.pcs[t])
  }

  predicate Recorded(m: Mailbox, t: nat) { !m.waiter.NoTask? && m.waiter.task == t }

  function Passed(m: Mailbox, passed: map<nat, set<nat>>, u: nat): map<nat, set<nat>>
  {
    map t | t in passed :: if t != u && t !in m.handed && Waits(PcOf(m, t)) then passed[t] + {u} else passed[t]
  }

  /** What an operation under full access adds to the history. */
  function NoteOp(m: Mailbox, h: History, op: Op): History
  {
    match op
    case Wait(t, timed) =>
      if !m.waiter.NoTask? then h
      else if m.count > 0 then h.(delivered := h.delivered + {Current(h, t)})
      else if timed then h.(last := Some(Current(h, t)))
      else h
    case Clear(u) => h.(passed := Passed(m, h.passed, u), ended := h.ended[u := h.last])
    case Notify => NoteDelivery(m, h)
  }

  function NoteDelivery(m: Mailbox, h: History): History
  {
    if m.waiter.NoTask? then h else h.(delivered := h.delivered + {Current(h, m.waiter.task)})
  }

  /** What the beginning of a wait adds. */
  function NoteBegin(m: Mailbox, h: History, t: nat): History
  {
    h.(beside := h.beside[t := Uncleared(m) - {t}], passed := h.passed[t := {}], begun := h.begun[t := Number(h, t) + 1], ended := h.ended - {t})
  }

  /** What an action adds to the history. */
  function Note(m: Mailbox, h: History, a: Action): History
    requires Enabled(m, a)
  {
    match a
    case StartWait(t, _) => NoteBegin(m, h, t)
    case Go =>
      var c := SoftLock.Top(m.lock);
      if c.phase == SoftLock.Full && !c.job.done then NoteOp(m, h, c.job.op)
      else if c.phase == SoftLock.Running && c.job.run.Taking? then NoteDelivery(m, h)
      else h
    case _ => h
  }

  /** The history of a run. */
  function Noted(schedule: seq<Action>): History
    requires Run(schedule).Some?
  {
    if schedule == [] then Fresh()
    else Note(Run(schedule[..|schedule| - 1]).value, Noted(schedule[..|schedule| - 1]), schedule[|schedule| - 1])
  }

  // ---------- The invariant ----------

  /** Every other task that has yet to clear up was there when the wait of `t` began. */
  ghost predicate Seen(m: Mailbox, h: History, t: nat)
  {
    t in h.beside && forall u {:trigger PcOf(m, u)} :: u != t && IsUncleared(PcOf(m, u)) ==> u in h.beside[t]
  }

  /** The first access of the wait of `t` is open, at the bottom. */
  predicate AtBottom(m: Mailbox, t: nat)
  {
    m.lock.stack != [] && m.lock.stack[0].job.op.Wait? && m.lock.stack[0].job.op.task == t && !m.lock.stack[0].job.done
  }

  ghost predicate WaitOk(m: Mailbox, h: History, t: nat)
  {
    && t in h.beside && t in h.passed
    && (Recorded(m, t) ==> t !in m.handed && Seen(m, h, t))
    && (Recorded(m, t) || t in m.handed ==> h.passed[t] == {})
    && (!Recorded(m, t) && t !in m.handed ==> h.beside[t] * h.passed[t] != {})
  }

  /** A wait that is over, or lost: it cannot be handed a notification any more. */
  ghost predicate Spent(m: Mailbox, h: History, w: Option<WaitId>)
  {
    w.Some? ==> w.value.number <= Number(h, w.value.task)
                && (w.value == Current(h, w.value.task) ==> !Recorded(m, w.value.task) && !PcOf(m, w.value.task).Entering?)
  }

  /** Where the task is agrees with who is recorded, notified, beside it and passed by it. */
  ghost predicate PlaceOk(m: Mailbox, h: History, t: nat)
  {
    match PcOf(m, t)
    case Out => true
    case Entering(_) => t in h.passed && h.passed[t] == {} && t !in m.handed && Seen(m, h, t) && AtBottom(m, t)
    case Ready(false) => t in m.handed
    case Done(ok) => t in h.ended || (ok && t in m.handed)
    case pc => WaitOk(m, h, t)
  }

  /** So does the record of its wait. */
  ghost predicate RecordOk(m: Mailbox, h: History, t: nat)
  {
    && (t in m.handed <==> Current(h, t) in h.delivered)
    && match PcOf(m, t)
       case Out => true
       case Entering(_) => t !in h.ended && h.last != Some(Current(h, t))
       case Ready(false) => t !in h.ended
       case Done(ok) => t in h.ended ==> ok == Notified(h, h.ended[t]) && Spent(m, h, h.ended[t])
       case pc => t !in h.ended && if IsUncleared(pc) then Recorded(m, t) ==> h.last == Some(Current(h, t)) else h.last != Some(Current(h, t))
  }

  ghost predicate TaskOk(m: Mailbox, h: History, t: nat) { PlaceOk(m, h, t) && RecordOk(m, h, t) }

  /** Waits are numbered in the order in which they begin. */
  ghost predicate NumbersOk(h: History)
  {
    && (h.last.Some? ==> h.last.value.number <= Number(h, h.last.value.task))
    && forall w {:trigger w in h.delivered} :: w in h.delivered ==> w.number <= Number(h, w.task)
  }

  /** The flag tells whether the last wait that blocked with timeout was handed a notification. */
  ghost predicate AllOk(m: Mailbox, h: History)
  {
    (m.flag <==> Notified(h, h.last)) && NumbersOk(h) && forall t {:trigger TaskOk(m, h, t)} :: TaskOk(m, h, t)
  }

  // ---------- Operations ----------

  /** Delivering to the waiting task. */
  lemma DeliverKeeps(m: Mailbox, m': Mailbox, h: History, t: nat)
    requires AllOk(m, h) && !m.waiter.NoTask? && WaiterOk(m)
    requires m'.pcs == Deliver(m).pcs && m'.waiter == NoTask && m'.handed == Deliver(m).handed && m'.flag == Deliver(m).flag && m'.lock.stack != []
    requires AtBottom(m, t) ==> AtBottom(m', t)
    ensures TaskOk(m', NoteDelivery(m, h), t)
  {
    hide AllOk, TaskOk, Deliver, NoteDelivery;
    var w := m.waiter.task;
    TaskOf(m, h, w);
    TaskOf(m, h, t);
    if t == w { DelivereeOk(m, m', h); } else { BesideDeliveree(m, m', h, t); }
  }

  lemma DelivereeOk(m: Mailbox, m': Mailbox, h: History)
    requires !m.waiter.NoTask? && TaskOk(m, h, m.waiter.task) && WaiterOk(m)
    requires m'.pcs == Deliver(m).pcs && m'.waiter == NoTask && m'.handed == Deliver(m).handed
    ensures TaskOk(m', NoteDelivery(m, h), m.waiter.task)
  {
  }

  lemma BesideDeliveree(m: Mailbox, m': Mailbox, h: History, t: nat)
    requires !m.waiter.NoTask? && TaskOk(m, h, t) && WaiterOk(m) && t != m.waiter.task
    requires m'.pcs == Deliver(m).pcs && m'.waiter == NoTask && m'.handed == Deliver(m).handed && m'.lock.stack != []
    requires AtBottom(m, t) ==> AtBottom(m', t)
    ensures TaskOk(m', NoteDelivery(m, h), t)
  {
    PlaceBesideDeliveree(m, m', h, t);
    RecordBesideDeliveree(m, m', h, t);
  }

  lemma PlaceBesideDeliveree(m: Mailbox, m': Mailbox, h: History, t: nat)
    requires !m.waiter.NoTask? && PlaceOk(m, h, t) && WaiterOk(m) && t != m.waiter.task
    requires m'.pcs == Deliver(m).pcs && m'.waiter == NoTask && m'.handed == Deliver(m).handed && m'.lock.stack != []
    requires AtBottom(m, t) ==> AtBottom(m', t)
    ensures PlaceOk(m', NoteDelivery(m, h), t)
  {
    hide AtBottom, Seen;
    assert PcOf(m', t) == PcOf(m, t);
    if Seen(m, h, t) {
      assert forall u {:trigger PcOf(m', u)} :: IsUncleared(PcOf(m', u)) ==> IsUncleared(PcOf(m, u));
      SeenStays(m, m', h, NoteDelivery(m, h), t);
    }
  }

  lemma SeenStays(m: Mailbox, m': Mailbox, h: History, h': History, t: nat)
    requires Seen(m, h, t) && (t in h.beside ==> t in h'.beside && h'.beside[t] == h.beside[t])
    requires forall u {:trigger PcOf(m', u)} :: IsUncleared(PcOf(m', u)) ==> IsUncleared(PcOf(m, u))
    ensures Seen(m', h', t)
  {
  }

  lemma RecordBesideDeliveree(m: Mailbox, m': Mailbox, h: History, t: nat)
    requires !m.waiter.NoTask? && RecordOk(m, h, t) && WaiterOk(m) && t != m.waiter.task
    requires m'.pcs == Deliver(m).pcs && m'.waiter == NoTask && m'.handed == Deliver(m).handed
    ensures RecordOk(m', NoteDelivery(m, h), t)
  {
    assert PcOf(m', t) == PcOf(m, t);
  }

  /** A wait begins to block, or finds a notification, or is refused. */
  lemma WaitOpKeeps(m: Mailbox, h: History, u: nat, timed: bool, t: nat)
    requires AllOk(m, h) && PcOf(m, u) == Entering(timed) && (PcOf(m, t).Entering? ==> t == u)
    ensures TaskOk(FullOp(m, Wait(u, timed)), NoteOp(m, h, Wait(u, timed)), t)
  {
    hide AllOk, TaskOk, FullOp, NoteOp;
    TaskOf(m, h, u);
    TaskOf(m, h, t);
    if !m.waiter.NoTask? {
      RefusedKeeps(m, h, u, timed, t);
    } else if m.count > 0 {
      TakenKeeps(m, h, u, timed, t);
    } else {
      BlockKeeps(m, h, u, timed, t);
    }
  }

  lemma RefusedKeeps(m: Mailbox, h: History, u: nat, timed: bool, t: nat)
    requires TaskOk(m, h, u) && TaskOk(m, h, t) && !m.waiter.NoTask? && PcOf(m, u) == Entering(timed)
    requires PcOf(m, t).Entering? ==> t == u
    ensures TaskOk(FullOp(m, Wait(u, timed)), NoteOp(m, h, Wait(u, timed)), t)
  {
    var m' := FullOp(m, Wait(u, timed));
    assert forall x {:trigger PcOf(m', x)} :: IsUncleared(PcOf(m', x)) ==> IsUncleared(PcOf(m, x));
  }

  lemma TakenKeeps(m: Mailbox, h: History, u: nat, timed: bool, t: nat)
    requires TaskOk(m, h, u) && TaskOk(m, h, t) && m.waiter.NoTask? && m.count > 0 && PcOf(m, u) == Entering(timed)
    requires PcOf(m, t).Entering? ==> t == u
    ensures TaskOk(FullOp(m, Wait(u, timed)), NoteOp(m, h, Wait(u, timed)), t)
  {
    var m' := FullOp(m, Wait(u, timed));
    assert forall x {:trigger PcOf(m', x)} :: IsUncleared(PcOf(m', x)) ==> IsUncleared(PcOf(m, x));
  }

  lemma BlockKeeps(m: Mailbox, h: History, u: nat, timed: bool, t: nat)
    requires PcOf(m, u) == Entering(timed) && (PcOf(m, t).Entering? ==> t == u)
    requires TaskOk(m, h, u) && TaskOk(m, h, t) && m.waiter.NoTask? && m.count == 0
    ensures TaskOk(FullOp(m, Wait(u, timed)), NoteOp(m, h, Wait(u, timed)), t)
  {
    var m' := FullOp(m, Wait(u, timed));
    assert forall x {:trigger PcOf(m', x)} :: x != u ==> PcOf(m', x) == PcOf(m, x);
  }

  /** A task clears up, and with that throws out whoever is recorded. */
  lemma ClearOpKeeps(m: Mailbox, h: History, u: nat, t: nat)
    requires AllOk(m, h) && PcOf(m, u) == Leaving && !PcOf(m, t).Entering?
    ensures TaskOk(FullOp(m, Clear(u)), NoteOp(m, h, Clear(u)), t)
  {
    assert TaskOk(m, h, u) && TaskOk(m, h, t);
    if t == u {
      LastIsSpent(m, h, u);
    } else {
      ClearedBeside(m, h, u, t);
    }
  }

  /** Once a task has cleared up, the last wait that blocked with timeout is over or lost. */
  lemma LastIsSpent(m: Mailbox, h: History, u: nat)
    requires AllOk(m, h) && PcOf(m, u) == Leaving
    ensures Spent(FullOp(m, Clear(u)), NoteOp(m, h, Clear(u)), h.last) && (m.flag <==> Notified(h, h.last))
  {
    if h.last.Some? { assert TaskOk(m, h, h.last.value.task); }
  }

  lemma ClearedBeside(m: Mailbox, h: History, u: nat, t: nat)
    requires TaskOk(m, h, t) && t != u && PcOf(m, u) == Leaving && !PcOf(m, t).Entering?
    ensures TaskOk(FullOp(m, Clear(u)), NoteOp(m, h, Clear(u)), t)
  {
    PassedBy(m, h, u, t);
    hide PlaceOk;
  }

  /** A waiting task is passed by one that clears up. */
  lemma PassedBy(m: Mailbox, h: History, u: nat, t: nat)
    requires PlaceOk(m, h, t) && t != u && PcOf(m, u) == Leaving && !PcOf(m, t).Entering?
    ensures PlaceOk(FullOp(m, Clear(u)), NoteOp(m, h, Clear(u)), t)
  {
    if Recorded(m, t) && Waits(PcOf(m, t)) {
      assert Seen(m, h, t) && u in h.beside[t];
      assert u in h.beside[t] * Passed(m, h.passed, u)[t];
    }
    if !Recorded(m, t) && Waits(PcOf(m, t)) && t !in m.handed {
      var x :| x in h.beside[t] * h.passed[t];
      assert x in h.beside[t] * Passed(m, h.passed, u)[t];
    }
  }

  // ---------- Every action ----------

  /** An operation under full access. */
  lemma FullOpKeeps(m: Mailbox, h: History, t: nat)
    requires Inv(m) && AllOk(m, h) && m.lock.stack != [] && SoftLock.Top(m.lock).phase == SoftLock.Full && !SoftLock.Top(m.lock).job.done
    ensures TaskOk(Step(m), Note(m, h, Go), t)
  {
    hide SoftLock.Inv, Carried, Covered, SoftLock.Clean, SoftLock.Advance, AllOk, TaskOk;
    var below, c := Unstack(m);
    var m1 := m.(lock := SoftLock.Work(m.lock, c.job.(done := true)));
    assert m1.lock.stack == below + [c.(job := c.job.(done := true))];
    if PcOf(m, t).Entering? { EnteringAtBottom(m, h, t); }
    var op := c.job.op;
    OpKeepsLock(m1, m, op);
    match op
    case Notify => NotifyKeeps(m, m1, h, below, c, t);
    case Wait(u, timed) =>
      WaitOpKeeps(m, h, u, timed, t);
      OtherLock(FullOp(m, op), Step(m), NoteOp(m, h, op), t);
    case Clear(u) =>
      ClearOpKeeps(m, h, u, t);
      OtherLock(FullOp(m, op), Step(m), NoteOp(m, h, op), t);
  }

  lemma EnteringAtBottom(m: Mailbox, h: History, t: nat)
    requires AllOk(m, h) && PcOf(m, t).Entering?
    ensures AtBottom(m, t)
  {
    assert TaskOk(m, h, t);
  }

  /** A task that is not entering does not depend on the lock. */
  lemma OtherLock(m: Mailbox, m': Mailbox, h: History, t: nat)
    requires TaskOk(m, h, t) && m' == m.(lock := m'.lock) && !PcOf(m, t).Entering?
    ensures TaskOk(m', h, t)
  {
    assert forall u {:trigger PcOf(m', u)} :: PcOf(m', u) == PcOf(m, u);
  }

  /** A notifier with full access. */
  lemma NotifyKeeps(m: Mailbox, m1: Mailbox, h: History, below: seq<SoftLock.Ctx<Job>>, c: SoftLock.Ctx<Job>, t: nat)
    requires AllOk(m, h) && WaiterOk(m) && m.lock.stack == below + [c] && c.job.op == Notify
    requires m1 == m.(lock := m1.lock) && m1.lock.stack == below + [c.(job := c.job.(done := true))]
    ensures TaskOk(FullOp(m1, Notify), NoteDelivery(m, h), t)
  {
    assert AtBottom(m, t) ==> AtBottom(m1, t) by { if below != [] { assert m.lock.stack[0] == below[0] == m1.lock.stack[0]; } }
    var m' := FullOp(m1, Notify);
    hide AllOk, TaskOk, WaiterOk, AtBottom;
    if m.waiter.NoTask? {
      TaskOf(m, h, t);
      QuietKeeps(m, m', h, t);
    } else {
      DeliverKeeps(m, m', h, t);
    }
  }

  /** What does not concern the waiting tasks. */
  lemma QuietKeeps(m: Mailbox, m': Mailbox, h: History, t: nat)
    requires TaskOk(m, h, t) && m'.pcs == m.pcs && m'.waiter == m.waiter && m'.handed == m.handed && m'.flag == m.flag
    requires AtBottom(m, t) ==> AtBottom(m', t)
    ensures TaskOk(m', h, t)
  {
    assert forall u {:trigger PcOf(m', u)} :: PcOf(m', u) == PcOf(m, u);
  }

  /** The remaining steps of the access on top. */
  lemma GoKeeps(m: Mailbox, h: History, t: nat)
    requires Inv(m) && AllOk(m, h) && m.lock.stack != []
    requires !(SoftLock.Top(m.lock).phase == SoftLock.Full && !SoftLock.Top(m.lock).job.done)
    ensures TaskOk(Step(m), Note(m, h, Go), t)
  {
    hide SoftLock.Inv, Carried, Covered, SoftLock.Clean, SoftLock.Advance, FullOp, AllOk, TaskOk, Deliver;
    var below, c := Unstack(m);
    var m' := Step(m);
    BottomStays(m, below, c, t);
    TaskOf(m, h, t);
    if c.phase == SoftLock.Running && c.job.run.Taking? && !m.waiter.NoTask? {
      DeliverStep(m, m');
      DeliverKeeps(m, m', h, t);
    } else {
      QuietKeeps(m, m', h, t);
    }
  }

  lemma TaskOf(m: Mailbox, h: History, t: nat)
    requires AllOk(m, h)
    ensures TaskOk(m, h, t)
  {
  }

  lemma DeliverStep(m: Mailbox, m': Mailbox)
    requires m.lock.stack != [] && m' == Step(m) && !m.waiter.NoTask?
    requires SoftLock.Top(m.lock).phase == SoftLock.Running && SoftLock.Top(m.lock).job.run.Taking?
    ensures m'.pcs == Deliver(m).pcs && m'.waiter == NoTask && m'.handed == Deliver(m).handed && m'.flag == Deliver(m).flag && m'.lock.stack != []
  {
  }

  /** The access at the bottom stays there until its operation is done. */
  lemma BottomStays(m: Mailbox, below: seq<SoftLock.Ctx<Job>>, c: SoftLock.Ctx<Job>, t: nat)
    requires m.lock.stack == below + [c] && JobOk(m, c) && c == SoftLock.Top(m.lock)
    requires c.must ==> c.phase != SoftLock.PendOp && c.phase != SoftLock.PendDone
    requires !(c.phase == SoftLock.Full && !c.job.done)
    ensures AtBottom(m, t) ==> AtBottom(Step(m), t)
  {
    hide SoftLock.Advance, FullOp, Deliver, Subtract;
    SoftLock.AdvanceOnTop(m.lock, below, c);
    var m' := Step(m);
    DeliverKeepsLock(m);
    if below != [] { assert m.lock.stack[0] == below[0]; }
  }

  lemma DeliverKeepsLock(m: Mailbox)
    ensures forall x: Mailbox :: x.waiter == m.waiter && !x.waiter.NoTask? ==> Deliver(Subtract(x)).lock == x.lock
  {
  }

  /** Every action keeps the history right. */
  lemma ActionKeepsOk(m: Mailbox, h: History, a: Action)
    requires Inv(m) && AllOk(m, h) && Enabled(m, a)
    ensures AllOk(Apply(m, a), Note(m, h, a))
  {
    var m', h' := Apply(m, a), Note(m, h, a);
    FlagsAgree(m, h, a);
    forall t ensures TaskOk(m', h', t) {
      if a.Go? {
        if SoftLock.Top(m.lock).phase == SoftLock.Full && !SoftLock.Top(m.lock).job.done { FullOpKeeps(m, h, t); } else { GoKeeps(m, h, t); }
      } else {
        CallKeeps(m, h, a, t);
      }
    }
  }

  lemma FlagsAgree(m: Mailbox, h: History, a: Action)
    requires Inv(m) && AllOk(m, h) && Enabled(m, a)
    ensures (Apply(m, a).flag <==> Notified(Note(m, h, a), Note(m, h, a).last)) && NumbersOk(Note(m, h, a))
  {
    hide SoftLock.Inv, SoftLock.Advance, FullOp, NoteOp, NoteDelivery, Deliver, Covered, Carried, TaskOk, WaiterOk, AllOk;
    match a
    case StartWait(u, timed) => BeginAgrees(m, h, u);
    case Go =>
      var c := SoftLock.Top(m.lock);
      var m1 := m.(lock := SoftLock.Work(m.lock, c.job.(done := true)));
      OpKeepsLock(m1, m, c.job.op);
      if c.phase == SoftLock.Full && !c.job.done {
        var below, c' := Unstack(m);
        OpAgrees(m, h, c.job.op);
      } else if c.phase == SoftLock.Running && c.job.run.Taking? && !m.waiter.NoTask? {
        DeliverStep(m, Step(m));
        DeliverAgrees(m, h);
      } else {
        AllAgree(m, h);
        if m.waiter.NoTask? { NothingDelivered(m, h); }
      }
    case _ => AllAgree(m, h);
  }

  lemma AllAgree(m: Mailbox, h: History)
    requires AllOk(m, h)
    ensures (m.flag <==> Notified(h, h.last)) && NumbersOk(h)
  {
  }

  lemma NothingDelivered(m: Mailbox, h: History)
    requires m.waiter.NoTask?
    ensures NoteDelivery(m, h) == h
  {
  }

  lemma BeginAgrees(m: Mailbox, h: History, u: nat)
    requires AllOk(m, h)
    ensures (m.flag <==> Notified(NoteBegin(m, h, u), NoteBegin(m, h, u).last)) && NumbersOk(NoteBegin(m, h, u))
  {
  }

  lemma OpAgrees(m: Mailbox, h: History, op: Op)
    requires AllOk(m, h) && WaiterOk(m) && (op.Wait? ==> PcOf(m, op.task).Entering?)
    ensures (FullOp(m, op).flag <==> Notified(NoteOp(m, h, op), NoteOp(m, h, op).last)) && NumbersOk(NoteOp(m, h, op))
  {
    match op
    case Notify => if !m.waiter.NoTask? { DeliverAgrees(m, h); }
    case Wait(u, timed) => assert TaskOk(m, h, u);
    case Clear(u) =>
  }

  lemma DeliverAgrees(m: Mailbox, h: History)
    requires AllOk(m, h) && WaiterOk(m) && !m.waiter.NoTask?
    ensures (Deliver(m).flag <==> Notified(NoteDelivery(m, h), NoteDelivery(m, h).last)) && NumbersOk(NoteDelivery(m, h))
  {
    assert TaskOk(m, h, m.waiter.task);
  }

  /** A call, a waking or a return. */
  lemma CallKeeps(m: Mailbox, h: History, a: Action, t: nat)
    requires Inv(m) && AllOk(m, h) && Enabled(m, a) && !a.Go?
    ensures TaskOk(Apply(m, a), Note(m, h, a), t)
  {
    hide SoftLock.Inv, Carried, Covered, SoftLock.Clean, Step, TaskOk, AllOk, JobOk;
    TaskOf(m, h, t);
    var m' := Apply(m, a);
    match a
    case StartWait(u, timed) =>
      AllAgree(m, h);
      StartWaitKeeps(m, h, u, timed, t);
    case StartNotify =>
      assert AtBottom(m, t) ==> AtBottom(m', t);
      QuietKeeps(m, m', h, t);
    case Wake(u) => MoveKeeps(m, m', h, u, t);
    case StartClear(u) => MoveKeeps(m, m', h, u, t);
    case Return(u) => MoveKeeps(m, m', h, u, t);
  }

  /** A task moves on from a place in which it waits no more, or goes on to clear up. */
  lemma MoveKeeps(m: Mailbox, m': Mailbox, h: History, u: nat, t: nat)
    requires TaskOk(m, h, t) && m'.waiter == m.waiter && m'.handed == m.handed && m'.flag == m.flag
    requires (PcOf(m, u) == Blocked(true) && m'.pcs == m.pcs[u := Ready(true)] && m'.lock == m.lock)
      || (PcOf(m, u) == Ready(true) && m'.pcs == m.pcs[u := Leaving] && m.lock.stack == [])
      || (PcOf(m, u) == Ready(false) && m'.pcs == m.pcs[u := Done(true)] && m'.lock == m.lock)
    ensures TaskOk(m', h, t)
  {
    assert forall x {:trigger PcOf(m', x)} :: IsUncleared(PcOf(m', x)) ==> IsUncleared(PcOf(m, x));
  }

  /** A task begins to wait. */
  lemma StartWaitKeeps(m: Mailbox, h: History, u: nat, timed: bool, t: nat)
    requires TaskOk(m, h, t) && NumbersOk(h) && WaiterOk(m) && Enabled(m, StartWait(u, timed))
    ensures TaskOk(Apply(m, StartWait(u, timed)), Note(m, h, StartWait(u, timed)), t)
  {
    var m' := Apply(m, StartWait(u, timed));
    assert m'.lock.stack[0].job == Job(Wait(u, timed), false, NoRun);
    hide TaskOk, WaiterOk;
    NoLongerWaits(m, u);
    EntersKeeps(m, m', h, u, timed, t);
  }

  lemma NoLongerWaits(m: Mailbox, u: nat)
    requires WaiterOk(m) && !Inside(PcOf(m, u))
    ensures !Recorded(m, u)
  {
  }

  lemma EntersKeeps(m: Mailbox, m': Mailbox, h: History, u: nat, timed: bool, t: nat)
    requires TaskOk(m, h, t) && NumbersOk(h) && !Recorded(m, u) && m.lock.stack == [] && AtBottom(m', u)
    requires m'.pcs == m.pcs[u := Entering(timed)] && m'.handed == m.handed - {u} && m'.waiter == m.waiter && m'.flag == m.flag
    ensures TaskOk(m', NoteBegin(m, h, u), t)
  {
    hide TaskOk;
    if t == u { EntererOk(m, m', h, u, timed); } else { BesideEnterer(m, m', h, u, timed, t); }
  }

  lemma EntererOk(m: Mailbox, m': Mailbox, h: History, u: nat, timed: bool)
    requires NumbersOk(h) && AtBottom(m', u)
    requires m'.pcs == m.pcs[u := Entering(timed)] && m'.handed == m.handed - {u}
    ensures TaskOk(m', NoteBegin(m, h, u), u)
  {
    assert forall x {:trigger PcOf(m', x)} :: IsUncleared(PcOf(m', x)) ==> IsUncleared(PcOf(m, x)) && x != u && x in m.pcs;
    assert Current(h, u).number < Current(NoteBegin(m, h, u), u).number;
  }

  lemma BesideEnterer(m: Mailbox, m': Mailbox, h: History, u: nat, timed: bool, t: nat)
    requires TaskOk(m, h, t) && t != u && m.lock.stack == []
    requires m'.pcs == m.pcs[u := Entering(timed)] && m'.handed == m.handed - {u} && m'.waiter == m.waiter && m'.flag == m.flag
    ensures TaskOk(m', NoteBegin(m, h, u), t)
  {
    PlaceBesideEnterer(m, m', h, u, timed, t);
    hide PlaceOk, Spent;
    if t in h.ended && Spent(m, h, h.ended[t]) { SpentAtBegin(m, m', h, u, timed, h.ended[t]); }
  }

  lemma PlaceBesideEnterer(m: Mailbox, m': Mailbox, h: History, u: nat, timed: bool, t: nat)
    requires PlaceOk(m, h, t) && t != u && m.lock.stack == []
    requires m'.pcs == m.pcs[u := Entering(timed)] && m'.handed == m.handed - {u} && m'.waiter == m.waiter
    ensures PlaceOk(m', NoteBegin(m, h, u), t)
  {
    hide Seen;
    assert PcOf(m', t) == PcOf(m, t);
    if Seen(m, h, t) {
      assert forall x {:trigger PcOf(m', x)} :: IsUncleared(PcOf(m', x)) ==> IsUncleared(PcOf(m, x));
      SeenStays(m, m', h, NoteBegin(m, h, u), t);
    }
  }

  lemma SpentAtBegin(m: Mailbox, m': Mailbox, h: History, u: nat, timed: bool, w: Option<WaitId>)
    requires Spent(m, h, w) && m'.pcs == m.pcs[u := Entering(timed)] && m'.waiter == m.waiter
    ensures Spent(m', NoteBegin(m, h, u), w)
  {
  }

  lemma {:induction false} RunKeepsOk(schedule: seq<Action>)
    requires Run(schedule).Some?
    ensures AllOk(Run(schedule).value, Noted(schedule))
  {
    if schedule == [] {
      forall t ensures TaskOk(Init(), Fresh(), t) {}
    } else {
      hide Inv, AllOk, Note;
      RunKeepsOk(schedule[..|schedule| - 1]);
      RunKeepsInv(schedule[..|schedule| - 1]);
      ActionKeepsOk(Run(schedule[..|schedule| - 1]).value, Noted(schedule[..|schedule| - 1]), schedule[|schedule| - 1]);
    }
  }

  // ---------- The exact conditions ----------

  /** A blocked task is neither recorded nor notified. */
  predicate Lost(m: Mailbox, t: nat)
  {
    Waits(PcOf(m, t)) && !Recorded(m, t) && t !in m.handed
  }

  /**
   A waiting task is lost if and only if a task that had yet to clear up when its wait began has cleared up since, before a
   notification came.
   */
  lemma LostIff(schedule: seq<Action>, t: nat)
    requires Run(schedule).Some? && Waits(PcOf(Run(schedule).value, t))
    ensures t in Noted(schedule).beside && t in Noted(schedule).passed
    ensures Lost(Run(schedule).value, t) <==> Noted(schedule).beside[t] * Noted(schedule).passed[t] != {}
  {
    RunKeepsOk(schedule);
    TaskOf(Run(schedule).value, Noted(schedule), t);
  }

  /** A wait that began when no other task had yet to clear up is never lost. */
  lemma NeverLostAlone(schedule: seq<Action>, t: nat)
    requires Run(schedule).Some? && Waits(PcOf(Run(schedule).value, t))
    requires t in Noted(schedule).beside ==> Noted(schedule).beside[t] == {}
    ensures !Lost(Run(schedule).value, t)
  {
    LostIff(schedule, t);
  }

  /**
   What a wait returns: true if it did not have to block with timeout, and then it was notified; otherwise whether the last wait
   that had blocked with timeout when it cleared up, its own or another's, was ever notified.
   */
  lemma ResultIs(schedule: seq<Action>, t: nat)
    requires Run(schedule).Some? && PcOf(Run(schedule).value, t).Done?
    ensures (var m, h := Run(schedule).value, Noted(schedule);
             && (t in m.handed <==> Current(h, t) in h.delivered)
             && (if t in h.ended then PcOf(m, t).ok <==> Notified(h, h.ended[t]) else PcOf(m, t).ok && Current(h, t) in h.delivered))
  {
    RunKeepsOk(schedule);
    TaskOf(Run(schedule).value, Noted(schedule), t);
  }

  /**
   The result of a wait disagrees with whether a notification was delivered to it if and only if it had to block with timeout,
   another wait was the last to have blocked with timeout when it cleared up, and exactly one of the two was ever notified.
   */
  lemma ResultWrongIff(schedule: seq<Action>, t: nat)
    requires Run(schedule).Some? && PcOf(Run(schedule).value, t).Done?
    ensures (var m, h := Run(schedule).value, Noted(schedule);
             PcOf(m, t).ok != (Current(h, t) in h.delivered)
             <==> t in h.ended && h.ended[t] != Some(Current(h, t)) && Notified(h, h.ended[t]) != Notified(h, Some(Current(h, t))))
  {
    ResultIs(schedule, t);
  }
}
