/**
 How a wait on a wait queue ends. A record is kept beside the queue's own runs, from the condition as it is when the task looks at
 it and from the notifications that take the task off the queue, and changes nothing in them.
 */
module WaitOutcome {

  import opened Common
  import SoftLock
  import opened WaitQueue

  /** A task that has never waited, has yet to look at its condition, or has found it satisfied or not and perhaps been notified since. */
  datatype Look = Never | NotYet | Found | Missed(notified: bool)

  /** Task `t` looks at its condition. */
  predicate Looks(q: Queue, a: Action, t: nat)
  {
    a.Go? && q.lock.stack != [] && var c := SoftLock.Top(q.lock);
    c.phase == SoftLock.Full && c.job.op == Waiting(t) && c.job.stage == Begin
  }

  /** A notification, made or counted, takes `t` off the queue. */
  predicate Notifies(q: Queue, a: Action, t: nat)
  {
    a.Go? && q.lock.stack != [] && a.pick < |q.queue| && q.queue[a.pick] == t && var c := SoftLock.Top(q.lock);
    (c.phase == SoftLock.Full && c.job.op.Notifying? && c.job.stage == Begin) || (c.phase == SoftLock.Running && c.job.left > 0)
  }

  function Next(q: Queue, a: Action, t: nat, look: Look): Look
  {
    if a == Arrive(Waiting(t)) then NotYet
    else if Looks(q, a, t) then (if q.avail > 0 then Found else Missed(false))
    else if Notifies(q, a, t) && look.Missed? then Missed(true)
    else look
  }

  /** The record of a run. */
  function Noted(avail: nat, grabs: bool, schedule: seq<Action>, t: nat): Look
    requires Run(avail, grabs, schedule).Some?
  {
    if schedule == [] then Never
    else
      var before := schedule[..|schedule| - 1];
      Next(Run(avail, grabs, before).value, schedule[|schedule| - 1], t, Noted(avail, grabs, before, t))
  }

  /** The access at the bottom is that of `t`, at this stage. */
  predicate AtBottom(stack: seq<SoftLock.Ctx<Job>>, t: nat, stage: Stage)
  {
    stack != [] && stack[0].job.op == Waiting(t) && stack[0].job.stage == stage
  }

  /** The record agrees with the queue. */
  ghost predicate LookOk(q: Queue, t: nat, look: Look)
  {
    && (look == NotYet <==> AtBottom(q.lock.stack, t, Begin))
    && (look == Missed(false) <==> t in q.queue || AtBottom(q.lock.stack, t, Parking))
    && (look == Found <==> t in q.passed)
  }

  /** Whoever waits does so alone, at the bottom. */
  lemma WaiterAlone(q: Queue)
    requires Inv(q) && q.lock.stack != []
    ensures (var c := SoftLock.Top(q.lock); c.job.op.Waiting? && c.phase == SoftLock.Full ==> q.lock.stack == [c])
    ensures (var c := SoftLock.Top(q.lock); c.job.op.Waiting? ==> c.phase != SoftLock.PendOp && c.phase != SoftLock.PendDone)
    ensures JobOk(q, SoftLock.Top(q.lock))
  {
    var c := SoftLock.Top(q.lock);
    assert JobOk(q, q.lock.stack[|q.lock.stack| - 1]);
    if c.must { SoftLock.MustFacts(q.lock); }
  }

  /** The step of a waiting task. */
  lemma WaitLook(q: Queue, pick: nat, t: nat, look: Look)
    requires Inv(q) && LookOk(q, t, look) && Enabled(q, Go(pick))
    requires (var c := SoftLock.Top(q.lock); c.phase == SoftLock.Full && c.job.stage != Finished && c.job.op.Waiting?)
    ensures LookOk(FullStep(q, pick), t, Next(q, Go(pick), t, look))
  {
    hide SoftLock.Inv, NoneLost, Distinct;
    WaiterAlone(q);
  }

  /** A task is taken off the queue. */
  lemma WakeLook(q: Queue, q': Queue, pick: nat, t: nat, look: Look)
    requires Inv(q) && LookOk(q, t, look) && pick < |q.queue|
    requires q'.queue == q.queue[..pick] + q.queue[pick + 1..] && q'.passed == q.passed && SameBottom(q.lock.stack, q'.lock.stack, t)
    ensures LookOk(q', t, if q.queue[pick] == t && look.Missed? then Missed(true) else look)
  {
    hide SoftLock.Inv, NoneLost;
    Removed(q.queue, pick);
    if AtBottom(q.lock.stack, t, Parking) { assert JobOk(q, q.lock.stack[0]); }
    hide Distinct;
  }

  /** Whether and how `t` waits at the bottom does not change. */
  ghost predicate SameBottom(stack: seq<SoftLock.Ctx<Job>>, stack': seq<SoftLock.Ctx<Job>>, t: nat)
  {
    && (AtBottom(stack', t, Begin) <==> AtBottom(stack, t, Begin))
    && (AtBottom(stack', t, Parking) <==> AtBottom(stack, t, Parking))
  }

  lemma QuietLook(q: Queue, q': Queue, t: nat, look: Look)
    requires LookOk(q, t, look) && q'.queue == q.queue && q'.passed == q.passed && SameBottom(q.lock.stack, q'.lock.stack, t)
    ensures LookOk(q', t, look)
  {
  }

  /** The top context keeps its operation and stage, or goes away having finished. */
  lemma BottomStays(stack: seq<SoftLock.Ctx<Job>>, stack': seq<SoftLock.Ctx<Job>>, below: seq<SoftLock.Ctx<Job>>, c: SoftLock.Ctx<Job>,
                    c': SoftLock.Ctx<Job>, t: nat)
    requires stack == below + [c] && (stack' == below + [c'] || (stack' == below && (c.job.op.Waiting? ==> c.job.stage == Finished)))
    requires c'.job.op == c.job.op && (c'.job.stage == c.job.stage || c.job.op.Notifying?)
    ensures SameBottom(stack, stack', t)
  {
    if below != [] { assert stack[0] == below[0] == stack'[0]; }
  }

  /** A step that is not one of the operation under full access. */
  lemma LockStepLook(q: Queue, pick: nat, t: nat, look: Look)
    requires Inv(q) && LookOk(q, t, look) && Enabled(q, Go(pick))
    requires (var c := SoftLock.Top(q.lock); !(c.phase == SoftLock.Full && c.job.stage != Finished))
    ensures LookOk(Step(q, pick), t, Next(q, Go(pick), t, look))
  {
    hide SoftLock.Inv, SoftLock.Advance, NoneLost, Distinct, FullStep, LookOk, SameBottom, JobOk;
    var below, c := Unstack(q.lock);
    WaiterAlone(q);
    var q' := Step(q, pick);
    var c' := LockStep(q, pick, below, c);
    BottomStays(q.lock.stack, q'.lock.stack, below, c, c', t);
    if c.phase == SoftLock.Running && c.job.left > 0 && q.queue != [] {
      WakeLook(q, q', pick, t, look);
    } else {
      QuietLook(q, q', t, look);
    }
  }

  /** What such a step leaves on the stack. */
  lemma LockStep(q: Queue, pick: nat, below: seq<SoftLock.Ctx<Job>>, c: SoftLock.Ctx<Job>) returns (c': SoftLock.Ctx<Job>)
    requires q.lock.stack == below + [c] && Enabled(q, Go(pick)) && JobOk(q, c) && !(c.phase == SoftLock.Full && c.job.stage != Finished)
    requires c.job.op.Waiting? ==> c.phase != SoftLock.PendOp && c.phase != SoftLock.PendDone
    ensures c'.job.op == c.job.op && c'.job.stage == c.job.stage
    ensures Step(q, pick).lock.stack == below + [c'] || (Step(q, pick).lock.stack == below && (c.job.op.Waiting? ==> c.job.stage == Finished))
  {
    hide SoftLock.Advance, FullStep, Left;
    SoftLock.AdvanceOnTop(q.lock, below, c);
    c' := SoftLock.NextCtx(q.lock, c);
    if c.phase == SoftLock.RunStart {
      c' := c.(phase := SoftLock.Running, job := c.job.(left := q.cnt));
      assert SoftLock.Work(SoftLock.Advance(q.lock), c'.job).stack == below + [c'];
    } else if c.phase == SoftLock.Running && c.job.left > 0 && q.queue != [] {
      c' := c.(job := c.job.(left := c.job.left - 1));
      assert SoftLock.Work(q.lock, c'.job).stack == below + [c'];
    } else if c.phase == SoftLock.Running {
      var done := c.(job := c.job.(left := 0));
      assert SoftLock.Work(q.lock, done.job).stack == below + [done];
      SoftLock.AdvanceOnTop(SoftLock.Work(q.lock, done.job), below, done);
      c' := done.(phase := SoftLock.Release);
    }
  }

  /** A notifier with full access. */
  lemma NotifyLook(q: Queue, pick: nat, t: nat, look: Look)
    requires Inv(q) && LookOk(q, t, look) && Enabled(q, Go(pick))
    requires (var c := SoftLock.Top(q.lock); c.phase == SoftLock.Full && c.job.stage != Finished && c.job.op.Notifying?)
    ensures LookOk(FullStep(q, pick), t, Next(q, Go(pick), t, look))
  {
    hide SoftLock.Inv, NoneLost, Distinct, LookOk, SameBottom;
    var below, c := Unstack(q.lock);
    WaiterAlone(q);
    var q' := FullStep(q, pick);
    var c' := SoftLock.Top(q'.lock);
    assert q'.lock.stack == below + [c'];
    BottomStays(q.lock.stack, q'.lock.stack, below, c, c', t);
    if q.queue == [] { QuietLook(q, q', t, look); } else { WakeLook(q, q', pick, t, look); }
  }

  /** Every action keeps the record right. */
  lemma LookKeeps(q: Queue, a: Action, t: nat, look: Look)
    requires Inv(q) && LookOk(q, t, look) && Enabled(q, a)
    ensures LookOk(Apply(q, a), t, Next(q, a, t, look))
  {
    hide SoftLock.Inv, NoneLost, Distinct, FullStep;
    match a
    case Go(pick) =>
      var c := SoftLock.Top(q.lock);
      if c.phase == SoftLock.Full && c.job.stage != Finished {
        if c.job.op.Waiting? { WaitLook(q, pick, t, look); } else { NotifyLook(q, pick, t, look); }
      } else {
        LockStepLook(q, pick, t, look);
      }
    case _ =>
  }

  lemma {:induction false} RunLooks(avail: nat, grabs: bool, schedule: seq<Action>, t: nat)
    requires Run(avail, grabs, schedule).Some?
    ensures LookOk(Run(avail, grabs, schedule).value, t, Noted(avail, grabs, schedule, t))
  {
    if schedule != [] {
      hide Inv, LookOk, Apply, Enabled;
      RunLooks(avail, grabs, schedule[..|schedule| - 1], t);
      RunKeepsInv(avail, grabs, schedule[..|schedule| - 1]);
      LookKeeps(Run(avail, grabs, schedule[..|schedule| - 1]).value, schedule[|schedule| - 1], t, Noted(avail, grabs, schedule[..|schedule| - 1], t));
    }
  }

  // ---------- How a wait ends ----------

  /**
   In every run, when no access of `t` is open: it has looked at its condition in its last wait, if there was one. If a unit was
   free then, it is not queued; if none was, it is queued until a notification takes it off, and not after that.
   */
  lemma WaitEnds(avail: nat, grabs: bool, schedule: seq<Action>, t: nat)
    requires Run(avail, grabs, schedule).Some? && !HasAccess(Run(avail, grabs, schedule).value, Waiting(t))
    ensures (var q := Run(avail, grabs, schedule).value;
             match Noted(avail, grabs, schedule, t)
             case Never => t !in q.queue && t !in q.passed
             case NotYet => false
             case Found => t !in q.queue && t in q.passed
             case Missed(notified) => (t in q.queue <==> !notified) && t !in q.passed)
  {
    RunLooks(avail, grabs, schedule, t);
    var q := Run(avail, grabs, schedule).value;
    if q.lock.stack != [] { assert q.lock.stack[0].job.op != Waiting(t); }
  }

  /** Only tasks that have begun a wait are on record. */
  lemma {:induction false} NeverWaited(avail: nat, grabs: bool, schedule: seq<Action>, t: nat)
    requires Run(avail, grabs, schedule).Some?
    ensures Noted(avail, grabs, schedule, t) == Never <==> Arrive(Waiting(t)) !in schedule
  {
    if schedule != [] {
      hide Apply, Enabled;
      var before, last := schedule[..|schedule| - 1], schedule[|schedule| - 1];
      NeverWaited(avail, grabs, before, t);
      assert schedule == before + [last];
      if Looks(Run(avail, grabs, before).value, last, t) {
        RunLooks(avail, grabs, before, t);
        RunKeepsInv(avail, grabs, before);
        LooksWaited(Run(avail, grabs, before).value, last, t, Noted(avail, grabs, before, t));
      }
    }
  }

  lemma LooksWaited(q: Queue, a: Action, t: nat, look: Look)
    requires Inv(q) && LookOk(q, t, look) && Looks(q, a, t)
    ensures look == NotYet
  {
    WaiterAlone(q);
  }
}
