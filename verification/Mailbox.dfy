/**
 The mailbox: counted notifications for one waiting task, with an optional timeout. Notifiers that
 preempt a holder add to `pendingCount`; run_pended_op moves what they added over to `count`.
 */
module Mailbox {

  import opened Common
  import opened SoftLock

  datatype Op =
    | Wait(task: nat, timed: bool) // the first access of `wait` and `wait_until_timeout`
    | Clear(task: nat)             // the second access of `wait_until_timeout`
    | Notify

  /** Where run_pended_op is: it has taken `k` from pendingCount, or is about to look at the waiting task. */
  datatype RunStage = NoRun | Adding(k: nat) | Taking

  datatype Job = Job(op: Op, done: bool, run: RunStage)

  datatype Waiter = NoTask | WithTimeout(task: nat) | WithoutTimeout(task: nat)

  /** Where a task is. */
  datatype Pc =
    | Out
    | Entering(timed: bool)
    | Blocked(timed: bool)
    | Ready(timed: bool)
    | Leaving
    | Done(ok: bool)

  /**
   `flag` is task_notified. The rest is bookkeeping: notifications made (`issued`) and handed to a
   wait (`delivered`), the tasks whose current wait was handed one, whether a task has called wait
   while another was still inside, and whether a counter was decremented at zero.
   */
  datatype Mailbox = Mailbox(lock: State<Job>, count: nat, pendingCount: nat, waiter: Waiter, flag: bool, pcs: map<nat, Pc>,
                             issued: nat, delivered: nat, handed: set<nat>, clash: bool, underflow: bool)

  function Init(): Mailbox
  {
    Mailbox(SoftLock.Init(), 0, 0, NoTask, false, map[], 0, 0, {}, false, false)
  }

  function PcOf(m: Mailbox, t: nat): Pc
  {
    if t in m.pcs then m.pcs[t] else Out
  }

  predicate Inside(pc: Pc)
  {
    !pc.Out? && !pc.Done?
  }

  function Goto(m: Mailbox, t: nat, pc: Pc): Mailbox
  {
    m.(pcs := m.pcs[t := pc])
  }

  /** Hand a notification to the waiting task. */
  function Deliver(m: Mailbox): Mailbox
    requires !m.waiter.NoTask?
  {
    var t := m.waiter.task;
    var m' := m.(waiter := NoTask, delivered := m.delivered + 1, handed := m.handed + {t});
    if m.waiter.WithTimeout? then m'.(flag := true) else Goto(m', t, Ready(false))
  }

  /** Subtract one from the count. */
  function Subtract(m: Mailbox): Mailbox
  {
    if m.count == 0 then m.(underflow := true) else m.(count := m.count - 1)
  }

  /** The operation under full access. */
  function FullOp(m: Mailbox, op: Op): Mailbox
  {
    match op
    case Wait(t, timed) =>
      if !m.waiter.NoTask? then Goto(m, t, Out) // the assertion fails
      else if m.count > 0 then
        Goto(Subtract(m).(delivered := m.delivered + 1, handed := m.handed + {t}), t, Done(true))
      else
        Goto(m.(waiter := if timed then WithTimeout(t) else WithoutTimeout(t), flag := if timed then false else m.flag), t, Blocked(timed))
    case Clear(t) => Goto(m.(waiter := NoTask), t, Done(m.flag))
    case Notify =>
      var m' := m.(issued := m.issued + 1);
      if m.waiter.NoTask? then m'.(count := m.count + 1) else Deliver(m')
  }

  /** The next atomic step of the access on top. */
  function Step(m: Mailbox): Mailbox
    requires m.lock.stack != []
  {
    var c := Top(m.lock);
    if c.phase == Full && !c.job.done then
      FullOp(m.(lock := Work(m.lock, c.job.(done := true))), c.job.op)
    else if c.phase == PendOp then
      m.(lock := Advance(m.lock), pendingCount := m.pendingCount + 1, issued := m.issued + 1)
    else if c.phase == RunStart then
      m.(lock := Work(Advance(m.lock), c.job.(run := Adding(m.pendingCount))), pendingCount := 0)
    else if c.phase == Running && c.job.run.Adding? then
      m.(lock := Work(m.lock, c.job.(run := Taking)), count := m.count + c.job.run.k)
    else if c.phase == Running && c.job.run.Taking? then
      var m' := m.(lock := Work(m.lock, c.job.(run := NoRun)));
      if m.waiter.NoTask? then m' else Deliver(Subtract(m'))
    else
      m.(lock := Advance(m.lock))
  }

  datatype Action =
    | StartWait(t: nat, timed: bool)
    | StartNotify
    | Wake(t: nat)       // taken off the sleep queue, by a notifier or because its time has come
    | StartClear(t: nat)
    | Return(t: nat)
    | Go

  /** A task makes its calls while no access is open: the scheduler is not suspended then. */
  predicate Enabled(m: Mailbox, a: Action)
  {
    match a
    case StartWait(t, _) => !Inside(PcOf(m, t)) && m.lock.stack == []
    case StartNotify => true
    case Wake(t) => PcOf(m, t) == Blocked(true)
    case StartClear(t) => PcOf(m, t) == Ready(true) && m.lock.stack == []
    case Return(t) => PcOf(m, t) == Ready(false)
    case Go => m.lock.stack != []
  }

  function Apply(m: Mailbox, a: Action): Mailbox
    requires Enabled(m, a)
  {
    match a
    case StartWait(t, timed) =>
      Goto(m.(lock := Arrive(m.lock, true, Job(Wait(t, timed), false, NoRun)), handed := m.handed - {t},
              clash := m.clash || exists u :: u in m.pcs && Inside(m.pcs[u])), t, Entering(timed))
    case StartNotify => m.(lock := Arrive(m.lock, false, Job(Notify, false, NoRun)))
    case Wake(t) => Goto(m, t, Ready(true))
    case StartClear(t) => Goto(m.(lock := Arrive(m.lock, true, Job(Clear(t), false, NoRun))), t, Leaving)
    case Return(t) => Goto(m, t, Done(true))
    case Go => Step(m)
  }

  // ---------- Conservation ----------

  /** Notifications that run_pended_op has taken from pendingCount and not yet added to count. */
  function Carried(stack: seq<Ctx<Job>>): nat
  {
    if stack == [] then 0
    else Carried(stack[..|stack| - 1]) + (var run := stack[|stack| - 1].job.run; if run.Adding? then run.k else 0)
  }

  ghost predicate JobOk(m: Mailbox, c: Ctx<Job>)
  {
    && (c.must <==> !c.job.op.Notify?)
    && (!c.job.run.NoRun? ==> c.phase == Running)
    && (c.phase == Enter || c.phase == PendOp || c.phase == PendDone ==> !c.job.done)
    && (!c.job.done ==> c.phase == Enter || c.phase == Full || c.phase == PendOp || c.phase == PendDone)
    && (!c.job.done && c.job.op.Wait? ==> PcOf(m, c.job.op.task) == Entering(c.job.op.timed))
    && (!c.job.done && c.job.op.Clear? ==> PcOf(m, c.job.op.task) == Leaving)
  }

  /** The context at `i` is inside run_pended_op, between its swap and its look at the waiting task. */
  ghost predicate Active(stack: seq<Ctx<Job>>, i: int)
  {
    0 <= i < |stack| && !stack[i].job.run.NoRun?
  }

  /** If it is, it has something to hand out. */
  ghost predicate Supplied(m: Mailbox, i: int)
  {
    0 <= i < |m.lock.stack| && match m.lock.stack[i].job.run
      case NoRun => true
      case Adding(k) => k > 0
      case Taking => m.count > 0
  }

  /** A task waits, or may be about to. */
  predicate Armed(m: Mailbox)
  {
    !m.waiter.NoTask? || (m.lock.stack != [] && m.lock.stack[0].must && m.lock.stack[0].phase == Full)
  }

  /** Whatever brings run_pended_op to the waiting task also brings it a notification. */
  ghost predicate Covered(m: Mailbox)
  {
    && (forall i {:trigger Supplied(m, i)} :: 0 <= i < |m.lock.stack| ==> Supplied(m, i))
    && (Clean(m.lock) || exists i :: Active(m.lock.stack, i))
  }

  /** The waiting task is where it should be. */
  ghost predicate WaiterOk(m: Mailbox)
  {
    match m.waiter
    case NoTask => true
    case WithoutTimeout(t) => PcOf(m, t) == Blocked(false)
    case WithTimeout(t) => PcOf(m, t) == Blocked(true) || PcOf(m, t) == Ready(true) || PcOf(m, t) == Leaving
  }

  ghost predicate Inv(m: Mailbox)
  {
    && SoftLock.Inv(m.lock) && m.pendingCount == m.lock.unserved
    && (forall i {:trigger m.lock.stack[i]} :: 0 <= i < |m.lock.stack| ==> JobOk(m, m.lock.stack[i]))
    && WaiterOk(m)
    && m.issued == m.count + m.pendingCount + Carried(m.lock.stack) + m.delivered
    && (Armed(m) ==> Covered(m))
    && (!m.waiter.NoTask? && m.count > 0 ==> exists i :: Active(m.lock.stack, i))
    && !m.underflow
  }

  // ---------- Steps ----------

  lemma CarriedOnTop(below: seq<Ctx<Job>>, c: Ctx<Job>)
    ensures Carried(below + [c]) == Carried(below) + (if c.job.run.Adding? then c.job.run.k else 0)
  {
    assert (below + [c])[..|below|] == below;
  }

  /** The contexts below the top one, and the top one. */
  lemma Unstack(m: Mailbox) returns (below: seq<Ctx<Job>>, c: Ctx<Job>)
    requires Inv(m) && m.lock.stack != []
    ensures m.lock.stack == below + [c] && c == Top(m.lock) && |below| == |m.lock.stack| - 1 && JobOk(m, c)
    ensures Carried(m.lock.stack) == Carried(below) + (if c.job.run.Adding? then c.job.run.k else 0)
    ensures HoldsLock(c.phase) ==> forall i :: !Active(below, i)
    ensures c.must ==> below == [] && c.phase != PendOp && c.phase != PendDone && (c.phase == Enter ==> !m.lock.locked)
  {
    below, c := m.lock.stack[..|m.lock.stack| - 1], Top(m.lock);
    assert m.lock.stack == below + [c];
    assert m.lock.stack[|below|] == c;
    CarriedOnTop(below, c);
    if HoldsLock(c.phase) {
      TopHolds(m.lock);
      forall i ensures !Active(below, i) {
        if 0 <= i < |below| { assert m.lock.stack[i] == below[i] && JobOk(m, m.lock.stack[i]); }
      }
    }
    if c.must { MustFacts(m.lock); }
  }

  /** Job facts survive as long as no task with an open access moves. */
  lemma JobsKeep(m: Mailbox, m': Mailbox, below: seq<Ctx<Job>>, c': Ctx<Job>)
    requires Inv(m) && |below| <= |m.lock.stack| && m.lock.stack[..|below|] == below
    requires m'.lock.stack == below + [c'] && JobOk(m', c')
    requires forall t :: (PcOf(m, t).Entering? || PcOf(m, t).Leaving?) && PcOf(m', t) != PcOf(m, t) ==> below == []
    ensures forall i {:trigger m'.lock.stack[i]} :: 0 <= i < |m'.lock.stack| ==> JobOk(m', m'.lock.stack[i])
  {
    forall i {:trigger m'.lock.stack[i]} | 0 <= i < |m'.lock.stack| ensures JobOk(m', m'.lock.stack[i]) {
      if i < |below| { assert m.lock.stack[i] == below[i] && JobOk(m, m.lock.stack[i]); }
    }
  }

  /** The operation under full access. */
  lemma FullKeeps(m: Mailbox)
    requires Inv(m) && m.lock.stack != [] && Top(m.lock).phase == Full && !Top(m.lock).job.done
    ensures Inv(Step(m))
  {
    hide SoftLock.Inv, Carried, Covered, Clean;
    var below, c := Unstack(m);
    var m' := Step(m);
    var c' := c.(job := c.job.(done := true));
    assert m'.lock == Work(m.lock, c'.job) && m'.lock.stack == below + [c'];
    ApplyKeeps(m.lock, DoWork(c'.job));
    CarriedOnTop(below, c');
    JobsKeep(m, m', below, c');
    FullCovers(m, below, c);
  }

  lemma FullCovers(m: Mailbox, below: seq<Ctx<Job>>, c: Ctx<Job>)
    requires Inv(m) && m.lock.stack == below + [c] && c.phase == Full && !c.job.done && JobOk(m, c)
    requires (forall i :: !Active(below, i)) && (c.must ==> below == [])
    ensures Armed(Step(m)) ==> Covered(Step(m))
    ensures !Step(m).waiter.NoTask? ==> Step(m).count == 0
  {
    hide SoftLock.Inv;
    var m' := Step(m);
    assert forall i :: Active(m.lock.stack, i) ==> i == |below| || Active(below, i);
    assert m.lock.stack[|below|] == c;
    assert forall i :: 0 <= i < |m.lock.stack| ==> m'.lock.stack[i].phase == m.lock.stack[i].phase && m'.lock.stack[i].job.run == m.lock.stack[i].job.run;
    if Armed(m') {
      assert Armed(m);
      assert Clean(m.lock);
      forall i | 0 <= i < |m'.lock.stack| ensures Supplied(m', i) {
        assert !Active(m.lock.stack, i);
      }
    }
  }

  /** A pend-only notifier counts its notification. */
  lemma PendKeeps(m: Mailbox)
    requires Inv(m) && m.lock.stack != [] && Top(m.lock).phase == PendOp
    ensures Inv(Step(m))
  {
    hide SoftLock.Inv, Advance, Carried, Clean, FullOp;
    var below, c := Unstack(m);
    var m' := Step(m);
    AdvanceOnTop(m.lock, below, c);
    var c' := c.(phase := PendDone);
    ApplyKeeps(m.lock, DoAdvance);
    CarriedOnTop(below, c');
    JobsKeep(m, m', below, c');
    SameRuns(m, m', below, c, c');
    if Armed(m') && Clean(m.lock) { CleanKeeps(m.lock); }
  }

  /** When the top context's run stage stays and the count does not shrink, what is active and supplied stays so. */
  lemma SameRuns(m: Mailbox, m': Mailbox, below: seq<Ctx<Job>>, c: Ctx<Job>, c': Ctx<Job>)
    requires m.lock.stack == below + [c] && m'.lock.stack == below + [c'] && c'.job.run == c.job.run && m'.count >= m.count
    ensures forall i :: Active(m'.lock.stack, i) <==> Active(m.lock.stack, i)
    ensures (exists i :: Active(m.lock.stack, i)) ==> exists i :: Active(m'.lock.stack, i)
    ensures forall i :: Supplied(m, i) ==> Supplied(m', i)
  {
    assert forall i :: 0 <= i < |m.lock.stack| ==> m'.lock.stack[i].job.run == m.lock.stack[i].job.run;
    if i :| Active(m.lock.stack, i) { assert Active(m'.lock.stack, i); }
  }

  /** run_pended_op takes what is pended. */
  lemma RunStartKeeps(m: Mailbox)
    requires Inv(m) && m.lock.stack != [] && Top(m.lock).phase == RunStart
    ensures Inv(Step(m))
  {
    hide SoftLock.Inv, Advance, Carried, FullOp;
    var below, c := Unstack(m);
    var m' := Step(m);
    AdvanceOnTop(m.lock, below, c);
    var c' := c.(phase := Running, job := c.job.(run := Adding(m.pendingCount)));
    assert m'.lock.stack == below + [c'];
    ApplyKeeps(m.lock, DoAdvance);
    ApplyKeeps(Advance(m.lock), DoWork(c'.job));
    CarriedOnTop(below, c');
    JobsKeep(m, m', below, c');
    assert Active(m'.lock.stack, |below|);
    assert m.lock.stack[|below|] == c;
    assert forall i :: Active(m.lock.stack, i) ==> i == |below| || Active(below, i);
    if Armed(m') {
      assert Armed(m);
      assert m.pendingCount > 0;
      forall i | 0 <= i < |m'.lock.stack| ensures Supplied(m', i) {
        if i < |below| { assert !Active(below, i); }
      }
    }
  }

  /** run_pended_op adds it to the count. */
  lemma AddKeeps(m: Mailbox)
    requires Inv(m) && m.lock.stack != [] && Top(m.lock).phase == Running && Top(m.lock).job.run.Adding?
    ensures Inv(Step(m))
  {
    hide SoftLock.Inv, Advance;
    var below, c := Unstack(m);
    var m' := Step(m);
    var c' := c.(job := c.job.(run := Taking));
    assert m'.lock.stack == below + [c'];
    ApplyKeeps(m.lock, DoWork(c'.job));
    CarriedOnTop(below, c');
    JobsKeep(m, m', below, c');
    assert Active(m'.lock.stack, |below|);
    if Armed(m') {
      assert Armed(m) && Supplied(m, |below|);
      forall i | 0 <= i < |m'.lock.stack| ensures Supplied(m', i) {
        if i < |below| { assert !Active(below, i); }
      }
    }
  }

  lemma SuppliedTop(m: Mailbox, below: seq<Ctx<Job>>, c: Ctx<Job>)
    requires Inv(m) && m.lock.stack == below + [c] && c.job.run.Taking? && !m.waiter.NoTask?
    ensures m.count > 0
  {
    assert Armed(m) && Supplied(m, |below|);
  }

  /** While run_pended_op runs, no waiting task holds the lock. */
  lemma NotArmedInRun(m: Mailbox, m': Mailbox, below: seq<Ctx<Job>>, c: Ctx<Job>, c': Ctx<Job>)
    requires SoftLock.Inv(m.lock) && m.lock.stack == below + [c] && c.phase == Running
    requires m'.lock.stack == below + [c'] && c'.phase == Running && m'.waiter.NoTask?
    ensures !Armed(m')
  {
    TopHolds(m.lock);
    if below != [] { assert m.lock.stack[0] == below[0]; }
  }

  /** run_pended_op hands one notification to the waiting task, if there is one. */
  lemma TakeKeeps(m: Mailbox)
    requires Inv(m) && m.lock.stack != [] && Top(m.lock).phase == Running && Top(m.lock).job.run.Taking?
    ensures Inv(Step(m))
  {
    hide SoftLock.Inv, Advance, Carried, Clean, FullOp, Supplied, Armed, Covered;
    var below, c := Unstack(m);
    var m' := Step(m);
    var c' := c.(job := c.job.(run := NoRun));
    assert m'.lock.stack == below + [c'];
    ApplyKeeps(m.lock, DoWork(c'.job));
    CarriedOnTop(below, c');
    JobsKeep(m, m', below, c');
    assert m.lock.stack[|below|] == c;
    if !m.waiter.NoTask? { SuppliedTop(m, below, c); }
    NotArmedInRun(m, m', below, c, c');
  }

  /** The remaining steps belong to the lock alone. */
  lemma LockStepKeeps(m: Mailbox)
    requires Inv(m) && m.lock.stack != []
    requires var c := Top(m.lock); c.phase != PendOp && c.phase != RunStart && (c.phase == Running ==> c.job.run.NoRun?) && (c.phase == Full ==> c.job.done)
    ensures Inv(Step(m))
  {
    hide SoftLock.Inv, Advance, Carried, Covered, Clean, Armed, FullOp;
    var below, c := Unstack(m);
    var m' := Step(m);
    AdvanceOnTop(m.lock, below, c);
    ApplyKeeps(m.lock, DoAdvance);
    if m'.lock.stack == below {
      forall i {:trigger m'.lock.stack[i]} | 0 <= i < |m'.lock.stack| ensures JobOk(m', m'.lock.stack[i]) {
        assert m.lock.stack[i] == below[i] && JobOk(m, m.lock.stack[i]);
      }
    } else {
      var c' := NextCtx(m.lock, c);
      CarriedOnTop(below, c');
      JobsKeep(m, m', below, c');
    }
    LockStepCovers(m, below, c);
  }

  lemma LockStepCovers(m: Mailbox, below: seq<Ctx<Job>>, c: Ctx<Job>)
    requires Inv(m) && m.lock.stack == below + [c] && c == Top(m.lock) && JobOk(m, c)
    requires c.phase != PendOp && c.phase != RunStart && (c.phase == Running ==> c.job.run.NoRun?) && (c.phase == Full ==> c.job.done)
    requires c.must ==> below == []
    ensures Armed(Step(m)) ==> Covered(Step(m))
    ensures (exists i :: Active(m.lock.stack, i)) ==> exists i :: Active(Step(m).lock.stack, i)
  {
    hide SoftLock.Inv, Advance;
    var m' := Step(m);
    AdvanceOnTop(m.lock, below, c);
    assert m.lock.stack[|below|] == c;
    assert c.job.run.NoRun?;
    forall i | Active(m.lock.stack, i) ensures Active(m'.lock.stack, i) {
      assert i < |below| && m.lock.stack[i] == below[i];
    }
    if i :| Active(m.lock.stack, i) { assert Active(m'.lock.stack, i); }
    forall i | Supplied(m, i) && i < |m'.lock.stack| ensures Supplied(m', i) {}
    if Armed(m') {
      if Armed(m) {
        if Clean(m.lock) { CleanKeeps(m.lock); }
      } else {
        assert below == [] && c.phase == Enter;
        AloneIsClean(m.lock);
        CleanKeeps(m.lock);
      }
    }
  }

  // ---------- Arrivals and the tasks' own steps ----------

  lemma ArriveKeepsInv(m: Mailbox, m': Mailbox, op: Op)
    requires Inv(m) && (!op.Notify? ==> m.lock.stack == [])
    requires m' == m.(lock := Arrive(m.lock, !op.Notify?, Job(op, false, NoRun)), pcs := m'.pcs, handed := m'.handed, clash := m'.clash)
    requires op.Wait? ==> PcOf(m', op.task) == Entering(op.timed)
    requires op.Clear? ==> PcOf(m', op.task) == Leaving
    requires m.lock.stack != [] ==> m'.pcs == m.pcs
    requires WaiterOk(m')
    ensures Inv(m')
  {
    hide SoftLock.Inv, Carried, Clean, Advance;
    var job := Job(op, false, NoRun);
    ApplyKeeps(m.lock, DoArrive(!op.Notify?, job));
    var c := Ctx(Enter, !op.Notify?, job, 0, m.lock.arrivals, m.lock.arrivals);
    assert m'.lock.stack == m.lock.stack + [c];
    CarriedOnTop(m.lock.stack, c);
    forall i {:trigger m'.lock.stack[i]} | 0 <= i < |m'.lock.stack| ensures JobOk(m', m'.lock.stack[i]) {
      if i < |m.lock.stack| { assert JobOk(m, m.lock.stack[i]); }
    }
    if i :| Active(m.lock.stack, i) { assert Active(m'.lock.stack, i); }
    if Armed(m') {
      assert Armed(m);
      if Clean(m.lock) { CleanArrives(m.lock, !op.Notify?, job); }
      forall i | 0 <= i < |m'.lock.stack| ensures Supplied(m', i) {
        if i < |m.lock.stack| { assert Supplied(m, i); }
      }
    }
  }

  /** A task without an open access moves. */
  lemma TaskKeeps(m: Mailbox, t: nat, pc: Pc)
    requires Inv(m) && !PcOf(m, t).Entering? && PcOf(m, t) != Leaving && WaiterOk(Goto(m, t, pc))
    ensures Inv(Goto(m, t, pc))
  {
    hide SoftLock.Inv;
    var m' := Goto(m, t, pc);
    forall i {:trigger m'.lock.stack[i]} | 0 <= i < |m'.lock.stack| ensures JobOk(m', m'.lock.stack[i]) {
      assert JobOk(m, m.lock.stack[i]);
    }
    forall i | Supplied(m, i) ensures Supplied(m', i) {}
  }

  /** Every action keeps the invariant. */
  lemma ActionKeeps(m: Mailbox, a: Action)
    requires Inv(m) && Enabled(m, a)
    ensures Inv(Apply(m, a))
  {
    match a {
      case StartWait(t, timed) => ArriveKeepsInv(m, Apply(m, a), Wait(t, timed));
      case StartNotify => ArriveKeepsInv(m, Apply(m, a), Notify);
      case StartClear(t) => ArriveKeepsInv(m, Apply(m, a), Clear(t));
      case Wake(t) => TaskKeeps(m, t, Ready(true));
      case Return(t) => TaskKeeps(m, t, Done(true));
      case Go =>
        var c := Top(m.lock);
        if c.phase == Full && !c.job.done { FullKeeps(m); }
        else if c.phase == PendOp { PendKeeps(m); }
        else if c.phase == RunStart { RunStartKeeps(m); }
        else if c.phase == Running && c.job.run.Adding? { AddKeeps(m); }
        else if c.phase == Running && c.job.run.Taking? { TakeKeeps(m); }
        else { LockStepKeeps(m); }
    }
  }

  // ---------- Whole runs ----------

  /** The state that a schedule leads to; none when an action is not possible. */
  function Run(schedule: seq<Action>): Option<Mailbox>
  {
    if schedule == [] then Some(Init())
    else
      var before := Run(schedule[..|schedule| - 1]);
      var last := schedule[|schedule| - 1];
      if before.Some? && Enabled(before.value, last) then Some(Apply(before.value, last)) else None
  }

  lemma {:induction false} RunKeepsInv(schedule: seq<Action>)
    requires Run(schedule).Some?
    ensures Inv(Run(schedule).value)
  {
    if schedule == [] {
      assert InvAt(SoftLock.Init<Job>(), -1);
    } else {
      hide Inv;
      RunKeepsInv(schedule[..|schedule| - 1]);
      ActionKeeps(Run(schedule[..|schedule| - 1]).value, schedule[|schedule| - 1]);
    }
  }

  /**
   In every run, notifications issued are in the counter, pended, on their way from the one to the
   other, or delivered to a wait; and no counter is decremented at zero.
   */
  lemma Conservation(schedule: seq<Action>)
    requires Run(schedule).Some?
    ensures var m := Run(schedule).value; m.issued == m.count + m.pendingCount + Carried(m.lock.stack) + m.delivered
    ensures !Run(schedule).value.underflow
  {
    RunKeepsInv(schedule);
  }

  /** While no access is open, nothing is pended, and a task waits only if the counter is zero. */
  lemma NoNotificationIgnored(schedule: seq<Action>)
    requires Run(schedule).Some? && Run(schedule).value.lock.stack == []
    ensures var m := Run(schedule).value;
      m.issued == m.count + m.delivered && m.pendingCount == 0 && (!m.waiter.NoTask? ==> m.count == 0)
  {
    RunKeepsInv(schedule);
  }

  // ---------- What a wait returns ----------

  /** The place of one task, as long as waits never overlap. */
  ghost predicate ResultOk(m: Mailbox, t: nat)
  {
    match PcOf(m, t)
    case Out => true
    case Entering(_) => m.waiter.NoTask? && t !in m.handed
    case Blocked(timed) => if timed then TimedOk(m, t) else m.waiter == WithoutTimeout(t) && t !in m.handed
    case Ready(timed) => if timed then TimedOk(m, t) else t in m.handed
    case Leaving => TimedOk(m, t)
    case Done(ok) => ok <==> t in m.handed
  }

  ghost predicate TimedOk(m: Mailbox, t: nat)
  {
    (m.flag <==> t in m.handed) && (t !in m.handed <==> m.waiter == WithTimeout(t))
  }

  ghost predicate IsInside(m: Mailbox, t: nat)
  {
    Inside(PcOf(m, t))
  }

  ghost predicate ResultsOk(m: Mailbox)
  {
    !m.clash ==>
      && (forall t {:trigger ResultOk(m, t)} :: ResultOk(m, t))
      && (forall t, u {:trigger IsInside(m, t), IsInside(m, u)} :: IsInside(m, t) && IsInside(m, u) ==> t == u)
  }

  lemma FullOpResults(m: Mailbox, op: Op, t: nat)
    requires ResultsOk(m) && !m.clash && WaiterOk(m)
    requires op.Wait? ==> PcOf(m, op.task) == Entering(op.timed)
    requires op.Clear? ==> PcOf(m, op.task) == Leaving
    ensures ResultOk(FullOp(m, op), t)
  {
    assert ResultOk(m, t);
    if op.Wait? || op.Clear? { assert ResultOk(m, op.task) && IsInside(m, op.task); }
    assert Inside(PcOf(m, t)) ==> IsInside(m, t);
    if !m.waiter.NoTask? { assert ResultOk(m, m.waiter.task) && IsInside(m, m.waiter.task); }
  }

  lemma NobodyInside(m: Mailbox)
    ensures (exists u :: IsInside(m, u)) ==> exists u :: u in m.pcs && Inside(m.pcs[u])
  {
    if u :| IsInside(m, u) { assert u in m.pcs && Inside(m.pcs[u]); }
  }

  /** Only a task that calls wait comes to be inside. */
  lemma InsideSteps(m: Mailbox, a: Action, t: nat)
    requires Inv(m) && Enabled(m, a) && !Apply(m, a).clash && IsInside(Apply(m, a), t)
    ensures IsInside(m, t) || (a.StartWait? && a.t == t)
    ensures a.StartWait? ==> forall u :: !IsInside(m, u)
  {
    hide SoftLock.Inv, Advance, Armed, Covered, Carried, Clean, Step;
    if a.StartWait? { NobodyInside(m); }
    if a.Go? { GoInside(m, t); }
  }

  lemma GoInside(m: Mailbox, t: nat)
    requires Inv(m) && m.lock.stack != [] && IsInside(Step(m), t)
    ensures IsInside(m, t)
  {
    hide SoftLock.Inv, Advance, Armed, Covered, Carried, Clean;
    assert JobOk(m, m.lock.stack[|m.lock.stack| - 1]);
  }

  lemma ResultsKeep(m: Mailbox, a: Action)
    requires Inv(m) && ResultsOk(m) && Enabled(m, a)
    ensures ResultsOk(Apply(m, a))
  {
    hide SoftLock.Inv, Advance, Armed, Covered, Carried;
    var m' := Apply(m, a);
    if !m'.clash {
      forall t, u {:trigger IsInside(m', t), IsInside(m', u)} | IsInside(m', t) && IsInside(m', u) ensures t == u {
        InsideSteps(m, a, t);
        InsideSteps(m, a, u);
      }
      if a.Go? && Top(m.lock).phase == Full && !Top(m.lock).job.done {
        assert JobOk(m, m.lock.stack[|m.lock.stack| - 1]);
        var m1 := m.(lock := Work(m.lock, Top(m.lock).job.(done := true)));
        forall t ensures ResultOk(m1, t) && IsInside(m1, t) == IsInside(m, t) { assert ResultOk(m, t); }
        forall t ensures ResultOk(m', t) { FullOpResults(m1, Top(m.lock).job.op, t); }
      } else {
        forall t ensures ResultOk(m', t) { OtherResults(m, a, t); }
      }
    }
  }

  lemma OtherResults(m: Mailbox, a: Action, t: nat)
    requires Inv(m) && ResultsOk(m) && Enabled(m, a) && !Apply(m, a).clash
    requires a.Go? ==> !(Top(m.lock).phase == Full && !Top(m.lock).job.done)
    ensures ResultOk(Apply(m, a), t)
  {
    hide SoftLock.Inv, Advance, Armed, Covered, Carried, FullOp;
    assert ResultOk(m, t) && (Inside(PcOf(m, t)) ==> IsInside(m, t));
    if !m.waiter.NoTask? { assert ResultOk(m, m.waiter.task) && IsInside(m, m.waiter.task) && m.waiter.task in m.pcs; }
  }

  lemma {:induction false} RunKeepsResults(schedule: seq<Action>)
    requires Run(schedule).Some?
    ensures ResultsOk(Run(schedule).value)
  {
    if schedule == [] {
      forall t ensures ResultOk(Init(), t) {}
    } else {
      hide Inv, ResultsOk;
      RunKeepsResults(schedule[..|schedule| - 1]);
      RunKeepsInv(schedule[..|schedule| - 1]);
      ResultsKeep(Run(schedule[..|schedule| - 1]).value, schedule[|schedule| - 1]);
    }
  }

  /**
   As long as no task calls wait while another is inside one, a wait returns true exactly when a
   notification was delivered to it, and a wait without timeout always returns with one.
   */
  lemma ResultTellsDelivery(schedule: seq<Action>, t: nat)
    requires Run(schedule).Some? && !Run(schedule).value.clash && PcOf(Run(schedule).value, t).Done?
    ensures PcOf(Run(schedule).value, t).ok <==> t in Run(schedule).value.handed
  {
    RunKeepsResults(schedule);
    assert ResultOk(Run(schedule).value, t);
  }

  // ---------- Two tasks in one mailbox ----------

  lemma RunExtends(schedule: seq<Action>, a: Action) returns (schedule': seq<Action>)
    requires Run(schedule).Some? && Enabled(Run(schedule).value, a)
    ensures Run(schedule') == Some(Apply(Run(schedule).value, a))
  {
    schedule' := schedule + [a];
    assert schedule'[..|schedule|] == schedule;
  }

  /** The operation that a call begins. */
  function OpOf(start: Action): Option<Op>
  {
    match start
    case StartNotify => Some(Notify)
    case StartWait(t, timed) => Some(Wait(t, timed))
    case StartClear(t) => Some(Clear(t))
    case _ => None
  }

  /** A step of the lock alone, with one access open and nothing pended. */
  lemma LoneStep(m: Mailbox, c: Ctx<Job>)
    requires m.lock.stack == [c] && !m.lock.pending && !c.must == c.job.op.Notify?
    requires (c.phase == Enter && !m.lock.locked) || (c.phase == Full && c.job.done) || c.phase == Check || c.phase == Release || c.phase == Recheck
    ensures Step(m) == m.(lock := Advance(m.lock)) && !Advance(m.lock).pending
    ensures Advance(m.lock).stack == if c.phase == Recheck then [] else [NextCtx(m.lock, c)]
  {
    assert m.lock.stack == [] + [c];
    AdvanceOnTop(m.lock, [], c);
  }

  /** An access that nobody preempts does its operation and leaves no access open. */
  lemma Solo(schedule: seq<Action>, start: Action, op: Op) returns (schedule': seq<Action>)
    requires Run(schedule).Some? && Run(schedule).value.lock.stack == [] && Enabled(Run(schedule).value, start)
    requires OpOf(start) == Some(op)
    ensures Run(schedule').Some? && Run(schedule').value.lock.stack == []
    ensures Run(schedule').value == FullOp(Apply(Run(schedule).value, start), op).(lock := Run(schedule').value.lock)
  {
    hide SoftLock.Inv, FullOp, Run, Step, Advance;
    var m := Run(schedule).value;
    Quiet(schedule);
    schedule' := RunExtends(schedule, start);
    var m1 := Apply(m, start);
    var c := Top(m1.lock);
    assert m1.lock.stack == [c];
    schedule' := SoloTail(schedule', c, op);
  }

  lemma SoloTail(schedule: seq<Action>, entered: Ctx<Job>, op: Op) returns (schedule': seq<Action>)
    requires Run(schedule).Some? && Run(schedule).value.lock.stack == [entered]
    requires !Run(schedule).value.lock.locked && !Run(schedule).value.lock.pending
    requires entered.phase == Enter && entered.job.op == op && !entered.job.done && !entered.must == op.Notify?
    ensures Run(schedule').Some? && Run(schedule').value.lock.stack == []
    ensures Run(schedule').value == FullOp(Run(schedule).value, op).(lock := Run(schedule').value.lock)
  {
    hide SoftLock.Inv, FullOp, Run, Step, Advance;
    var m1, c := Run(schedule).value, entered;
    schedule' := RunExtends(schedule, Go);
    LoneStep(m1, c);
    c := c.(phase := Full);
    schedule' := RunExtends(schedule', Go);
    LoneOp(Step(m1), m1, c, op);
    c := c.(job := c.job.(done := true));
    schedule' := Finish(schedule', c);
  }

  lemma Quiet(schedule: seq<Action>)
    requires Run(schedule).Some? && Run(schedule).value.lock.stack == []
    ensures !Run(schedule).value.lock.locked && !Run(schedule).value.lock.pending
  {
    RunKeepsInv(schedule);
  }

  lemma LoneOp(m: Mailbox, m1: Mailbox, c: Ctx<Job>, op: Op)
    requires m == m1.(lock := m.lock) && m.lock.stack == [c] && c.phase == Full && !c.job.done && c.job.op == op
    ensures Step(m) == FullOp(m1, op).(lock := Step(m).lock)
    ensures Step(m).lock.stack == [c.(job := c.job.(done := true))] && Step(m).lock.pending == m.lock.pending
  {
    hide FullOp;
    var m' := m.(lock := Work(m.lock, c.job.(done := true)));
    OpKeepsLock(m', m1, op);
  }

  /** From the end of its operation, a lone access runs to its end. */
  lemma Finish(schedule: seq<Action>, entered: Ctx<Job>) returns (schedule': seq<Action>)
    requires Run(schedule).Some? && Run(schedule).value.lock.stack == [entered] && !Run(schedule).value.lock.pending
    requires entered.phase == Full && entered.job.done && !entered.must == entered.job.op.Notify?
    ensures Run(schedule').Some? && Run(schedule').value.lock.stack == []
    ensures Run(schedule').value == Run(schedule).value.(lock := Run(schedule').value.lock)
  {
    hide SoftLock.Inv, FullOp, Run, Step, Advance;
    var c := entered;
    schedule' := schedule;
    for i := 0 to 3
      invariant Run(schedule').Some? && Run(schedule').value.lock.stack == [c] && !Run(schedule').value.lock.pending
      invariant Run(schedule').value == Run(schedule).value.(lock := Run(schedule').value.lock)
      invariant c.job == entered.job && c.must == entered.must
      invariant c.phase == if i == 0 then Full else if i == 1 then Check else if i == 2 then Release else Recheck
    {
      LoneStep(Run(schedule').value, c);
      c := NextCtx(Run(schedule').value.lock, c);
      schedule' := RunExtends(schedule', Go);
    }
    LoneStep(Run(schedule').value, c);
    schedule' := RunExtends(schedule', Go);
  }

  /** An operation neither reads nor writes the lock. */
  lemma OpKeepsLock(m: Mailbox, m': Mailbox, op: Op)
    requires m == m'.(lock := m.lock)
    ensures FullOp(m, op) == FullOp(m', op).(lock := m.lock)
  {
    hide Deliver, Subtract;
    if op.Notify? && !m.waiter.NoTask? { DeliverKeepsLock(m.(issued := m.issued + 1), m'.(issued := m'.issued + 1)); }
    SubtractKeepsLock(m, m');
  }

  lemma DeliverKeepsLock(m: Mailbox, m': Mailbox)
    requires m == m'.(lock := m.lock) && !m.waiter.NoTask?
    ensures Deliver(m) == Deliver(m').(lock := m.lock)
  {
  }

  lemma SubtractKeepsLock(m: Mailbox, m': Mailbox)
    requires m == m'.(lock := m.lock)
    ensures Subtract(m) == Subtract(m').(lock := m.lock)
  {
  }

  /**
   The assertion against a second waiter is not enough: between being notified and clearing up, a
   task with timeout leaves the slot empty. A second task that waits then is thrown out by the
   first one's clearing and stays blocked while a later notification is only counted; if it waits
   with a timeout, the first task, too, is told that it was not notified.
   */
  lemma SecondWaiterIsLost(timed: bool) returns (schedule: seq<Action>)
    ensures Run(schedule).Some? && Run(schedule).value.lock.stack == []
    ensures PcOf(Run(schedule).value, 2) == Blocked(timed) && Run(schedule).value.waiter == NoTask && Run(schedule).value.count == 1
    ensures 1 in Run(schedule).value.handed && PcOf(Run(schedule).value, 1) == Done(!timed)
  {
    hide Run, SoftLock.Inv;
    assert Run([]) == Some(Init()) by { FreshRun(); }
    var s1 := Solo([], StartWait(1, true), Wait(1, true));
    var s2 := Solo(s1, StartNotify, Notify);
    var s3 := RunExtends(s2, Wake(1));
    var s4 := Solo(s3, StartWait(2, timed), Wait(2, timed));
    var s5 := Solo(s4, StartClear(1), Clear(1));
    schedule := Solo(s5, StartNotify, Notify);
  }

  lemma FreshRun()
    ensures Run([]) == Some(Init())
  {
  }
}
