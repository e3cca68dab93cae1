/** Tasks that become ready while the ready list is held go through the insert buffer; they come out in the order in which they went in. */
module InsertOrder {

  import opened Common
  import SoftLock
  import L = TaskList
  import opened Scheduler

  type Stack = seq<SoftLock.Ctx<Job>>

  /** A pend-only `accept_task` puts its task into the buffer. */
  predicate Buffers(s: Sched, a: Action)
  {
    a.Go? && s.lock.stack != [] && SoftLock.Top(s.lock).phase == SoftLock.PendOp && SoftLock.Top(s.lock).job.op.Insert?
  }

  /** The task that the holder took from the buffer is linked. */
  predicate Links(s: Sched, a: Action)
  {
    a.Go? && s.lock.stack != [] && SoftLock.Top(s.lock).phase == SoftLock.Running && SoftLock.Top(s.lock).job.drained.Some?
  }

  /** All tasks that went into the buffer. */
  function Buffered(g: Config, ready: seq<nat>, schedule: seq<Action>): seq<nat>
  {
    if schedule == [] || Run(g, ready, schedule[..|schedule| - 1]).None? then []
    else
      var s := Run(g, ready, schedule[..|schedule| - 1]).value;
      Buffered(g, ready, schedule[..|schedule| - 1])
      + (if Buffers(s, schedule[|schedule| - 1]) then [SoftLock.Top(s.lock).job.op.t] else [])
  }

  /** All tasks that were linked from it. */
  function Linked(g: Config, ready: seq<nat>, schedule: seq<Action>): seq<nat>
  {
    if schedule == [] || Run(g, ready, schedule[..|schedule| - 1]).None? then []
    else
      var s := Run(g, ready, schedule[..|schedule| - 1]).value;
      Linked(g, ready, schedule[..|schedule| - 1])
      + (if Links(s, schedule[|schedule| - 1]) then [SoftLock.Top(s.lock).job.drained.value] else [])
  }

  /** The task that is between the buffer and the ready list. */
  function InHand(stack: Stack): seq<nat>
  {
    if stack == [] then [] else InHand(stack[..|stack| - 1]) + Drained(stack[|stack| - 1].job)
  }

  function Drained(job: Job): seq<nat>
  {
    if job.drained.Some? then [job.drained.value] else []
  }

  lemma InHandOnTop(below: Stack, c: SoftLock.Ctx<Job>)
    ensures InHand(below + [c]) == InHand(below) + Drained(c.job)
  {
    assert (below + [c])[..|below|] == below;
  }

  lemma {:induction false} NoneInHand(stack: Stack)
    requires forall i {:trigger stack[i]} :: 0 <= i < |stack| ==> stack[i].job.drained == None
    ensures InHand(stack) == []
  {
    if stack != [] { NoneInHand(stack[..|stack| - 1]); }
  }

  /** While the top access holds the lock, no access below it has taken a task. */
  lemma BelowHasNone(g: Config, s: Sched, below: Stack, c: SoftLock.Ctx<Job>)
    requires Inv(g, s) && s.lock.stack == below + [c] && c == SoftLock.Top(s.lock) && SoftLock.HoldsLock(c.phase)
    ensures InHand(below) == []
  {
    hide SoftLock.Inv, AllPlaced, CurrentOk, IdleOk;
    SoftLock.TopHolds(s.lock);
    forall i {:trigger below[i]} | 0 <= i < |below| ensures below[i].job.drained == None {
      assert s.lock.stack[i] == below[i] && JobOk(s.lock.stack[i]);
    }
    NoneInHand(below);
  }

  /** What goes into the buffer and out of it in one action. */
  ghost predicate Passes(s: Sched, a: Action, s': Sched)
  {
    InHand(s.lock.stack) + s.buffer + (if Buffers(s, a) then [SoftLock.Top(s.lock).job.op.t] else [])
    == (if Links(s, a) then [SoftLock.Top(s.lock).job.drained.value] else []) + InHand(s'.lock.stack) + s'.buffer
  }

  lemma OpPasses(g: Config, s: Sched, below: Stack, c: SoftLock.Ctx<Job>)
    requires s.lock.stack == below + [c] && c == SoftLock.Top(s.lock) && c.phase == SoftLock.Full && !OpDone(c.job.op)
    ensures Passes(s, Go, OpStep(g, s, c.job))
  {
    hide OpStep;
    var s' := OpStep(g, s, c.job);
    var job' := OpFrame(g, s, c.job);
    var c' := c.(job := job');
    if s'.lock != s.lock { assert s'.lock.stack == below + [c']; }
    InHandOnTop(below, c);
    InHandOnTop(below, c');
  }

  lemma OpFrame(g: Config, s: Sched, job: Job) returns (job': Job)
    requires s.lock.stack != []
    ensures OpStep(g, s, job).buffer == s.buffer && job'.drained == job.drained
    ensures OpStep(g, s, job).lock == s.lock || OpStep(g, s, job).lock == SoftLock.Work(s.lock, job')
  {
    hide Compare, LinkReady, Requeue, Choose, Switch, SoftLock.Work;
    if job.op.Insert? { job' := InsertFrame(g, s, job); } else { job' := PickFrame(g, s, job); }
  }

  lemma InsertFrame(g: Config, s: Sched, job: Job) returns (job': Job)
    requires s.lock.stack != [] && job.op.Insert?
    ensures job'.drained == job.drained && Kept(s, OpStep(g, s, job), job')
  {
    hide Outranks, SoftLock.Work;
    job' := job.(op := Insert(job.op.t, if job.op.stage == Carrying then Flagged else Inserted));
  }

  lemma PickFrame(g: Config, s: Sched, job: Job) returns (job': Job)
    requires s.lock.stack != [] && job.op.Pick?
    ensures job'.drained == job.drained && Kept(s, OpStep(g, s, job), job')
  {
    hide Requeue, Choose, Switch, Kept;
    match job.op.choice
    case Begin => RequeueFrame(s, job); job' := job.(op := Pick(Requeued));
    case Requeued => job' := ChooseFrame(g, s, job);
    case Chosen(next) => SwitchFrame(s, job, next); job' := job.(op := Pick(Switched));
    case _ => ClearFrame(s, job); job' := job.(op := Pick(Finished));
  }

  lemma RequeueFrame(s: Sched, job: Job)
    requires s.lock.stack != []
    ensures Kept(s, Requeue(s, job), job.(op := Pick(Requeued)))
  {
    hide SoftLock.Work, SetState;
    StateFrame();
  }

  lemma ChooseFrame(g: Config, s: Sched, job: Job) returns (job': Job)
    requires s.lock.stack != []
    ensures job'.drained == job.drained && Kept(s, Choose(g, s, job), job')
  {
    hide SoftLock.Work, SetState, Best, L.Without;
    StateFrame();
    job' := if s.ready == [] then job else job.(op := Pick(Chosen(s.ready[Best(g, s.ready)])));
  }

  lemma SwitchFrame(s: Sched, job: Job, next: nat)
    requires s.lock.stack != []
    ensures Kept(s, Switch(s, job, next), job.(op := Pick(Switched)))
  {
    hide SoftLock.Work;
  }

  lemma ClearFrame(s: Sched, job: Job)
    requires s.lock.stack != []
    ensures Kept(s, ClearRequest(s, job), job.(op := Pick(Finished)))
  {
    hide SoftLock.Work;
  }

  lemma StateFrame()
    ensures forall s, t, st {:trigger SetState(s, t, st)} :: SetState(s, t, st).buffer == s.buffer && SetState(s, t, st).lock == s.lock
  {
  }

  ghost predicate Kept(s: Sched, s': Sched, job: Job)
    requires s.lock.stack != []
  {
    s'.buffer == s.buffer && (s'.lock == s.lock || s'.lock == SoftLock.Work(s.lock, job))
  }

  lemma PendPasses(g: Config, s: Sched, below: Stack, c: SoftLock.Ctx<Job>)
    requires Inv(g, s) && s.lock.stack == below + [c] && c == SoftLock.Top(s.lock) && c.phase == SoftLock.PendOp && c.job.op.Insert? && JobOk(c)
    ensures Passes(s, Go, PendInsert(g, s, c.job))
  {
    hide SoftLock.Inv, AllPlaced, IdleOk, SoftLock.Advance;
    var c' := PendLock(s.lock, below, c, c.job.(op := Insert(c.job.op.t, Inserted)));
    BufferHasRoom(g, s, below, c, c.job.op.t);
    InHandOnTop(below, c);
    InHandOnTop(below, c');
  }

  lemma LinkPasses(g: Config, s: Sched, below: Stack, c: SoftLock.Ctx<Job>)
    requires Inv(g, s) && s.lock.stack == below + [c] && c == SoftLock.Top(s.lock) && c.phase == SoftLock.Running && c.job.drained.Some?
    ensures Passes(s, Go, LinkDrained(g, s, c.job))
  {
    hide Inv, Outranks, StateOf, SetState;
    var c' := c.(job := c.job.(drained := None));
    assert LinkDrained(g, s, c.job).lock.stack == below + [c'] by { hide *; LinkFrame(g, s, below, c); }
    assert LinkDrained(g, s, c.job).buffer == s.buffer by { hide *; LinkFrame(g, s, below, c); }
    BelowHasNone(g, s, below, c);
    hide LinkDrained;
    InHandOnTop(below, c);
    InHandOnTop(below, c');
    hide InHand;
  }

  lemma LinkFrame(g: Config, s: Sched, below: Stack, c: SoftLock.Ctx<Job>)
    requires s.lock.stack == below + [c] && c == SoftLock.Top(s.lock) && c.job.drained.Some?
    ensures LinkDrained(g, s, c.job).lock.stack == below + [c.(job := c.job.(drained := None))]
    ensures LinkDrained(g, s, c.job).buffer == s.buffer
  {
    hide Outranks;
  }

  lemma DrainPasses(g: Config, s: Sched, below: Stack, c: SoftLock.Ctx<Job>)
    requires Inv(g, s) && s.lock.stack == below + [c] && c == SoftLock.Top(s.lock) && c.phase == SoftLock.Running
    requires c.job.drained == None && s.buffer != []
    ensures Passes(s, Go, Drain(s, c.job))
  {
    hide Inv;
    var c' := c.(job := c.job.(drained := Some(s.buffer[0])));
    assert Drain(s, c.job).lock.stack == below + [c'];
    BelowHasNone(g, s, below, c);
    InHandOnTop(below, c);
    InHandOnTop(below, c');
    hide InHand;
  }

  lemma LockPasses(s: Sched, below: Stack, c: SoftLock.Ctx<Job>)
    requires s.lock.stack == below + [c] && c == SoftLock.Top(s.lock) && JobOk(c)
    requires !Buffers(s, Go) && !Links(s, Go)
    ensures Passes(s, Go, s.(lock := SoftLock.Advance(s.lock)))
  {
    LockInHand(s.lock, below, c);
    hide InHand, SoftLock.Advance;
  }

  /** An access that leaves has nothing in hand. */
  lemma LockInHand(l: SoftLock.State<Job>, below: Stack, c: SoftLock.Ctx<Job>)
    requires l.stack == below + [c] && JobOk(c)
    ensures InHand(SoftLock.Advance(l).stack) == InHand(l.stack)
  {
    hide SoftLock.Advance;
    SoftLock.AdvanceOnTop(l, below, c);
    var next := SoftLock.NextCtx(l, c);
    assert next.job == c.job;
    assert SoftLock.Advance(l).stack == below ==> c.job.drained == None;
    hide SoftLock.NextCtx, InHand, JobOk;
    InHandOnTop(below, c);
    InHandOnTop(below, next);
  }

  lemma StepPasses(g: Config, s: Sched)
    requires Inv(g, s) && s.lock.stack != []
    ensures Passes(s, Go, Step(g, s))
  {
    hide Inv, OpStep, PendInsert, Drain, LinkDrained, Passes, JobOk;
    OpenInv(g, s);
    var below, c := Unstack(g, s);
    if c.phase == SoftLock.Full && !OpDone(c.job.op) { OpPasses(g, s, below, c); }
    else if c.phase == SoftLock.PendOp && c.job.op.Insert? { PendPasses(g, s, below, c); }
    else if c.phase == SoftLock.Running && c.job.drained.Some? { LinkPasses(g, s, below, c); }
    else if c.phase == SoftLock.Running && s.buffer != [] { DrainPasses(g, s, below, c); }
    else { LockPasses(s, below, c); }
  }

  lemma ActionPasses(g: Config, s: Sched, a: Action)
    requires Inv(g, s) && Enabled(g, s, a)
    ensures Passes(s, a, Apply(g, s, a))
  {
    hide Inv, Apply, Passes;
    if a.Go? {
      StepPasses(g, s);
      assert Apply(g, s, Go) == Step(g, s) by { hide *; GoIsStep(g, s); }
    } else {
      Untouched(g, s, a);
      SamePasses(s, a, Apply(g, s, a));
    }
  }

  lemma GoIsStep(g: Config, s: Sched)
    requires Enabled(g, s, Go)
    ensures s.lock.stack != [] && Apply(g, s, Go) == Step(g, s)
  {
    hide Step;
  }

  lemma SamePasses(s: Sched, a: Action, s': Sched)
    requires !a.Go? && InHand(s'.lock.stack) == InHand(s.lock.stack) && s'.buffer == s.buffer
    ensures Passes(s, a, s')
  {
    hide InHand;
  }

  /** Arrivals bring nothing from the buffer. */
  lemma Untouched(g: Config, s: Sched, a: Action)
    requires Enabled(g, s, a) && !a.Go?
    ensures InHand(Apply(g, s, a).lock.stack) == InHand(s.lock.stack) && Apply(g, s, a).buffer == s.buffer
  {
    hide InHand;
    if a.Accept? {
      InHandOnTop(s.lock.stack, SoftLock.Ctx(SoftLock.Enter, false, Job(Insert(a.t, Carrying), None), 0, s.lock.arrivals, s.lock.arrivals));
    } else if a.PendSV? {
      InHandOnTop(s.lock.stack, SoftLock.Ctx(SoftLock.Enter, true, Job(Pick(Begin), None), 0, s.lock.arrivals, s.lock.arrivals));
    } else {
      SameLock(g, s, a);
    }
  }

  lemma SameLock(g: Config, s: Sched, a: Action)
    requires Enabled(g, s, a) && !a.Go? && !a.Accept? && !a.PendSV?
    ensures Apply(g, s, a).lock == s.lock && Apply(g, s, a).buffer == s.buffer
  {
    hide SetState, Step, Enabled, SoftLock.Arrive;
    StateFrame();
  }

  /**
   In every run, the tasks that went into the insert buffer are those linked from it, then the one the holder is about to link, then
   those still in the buffer, in this order: none is lost, doubled or overtaken.
   */
  lemma {:induction false} LinkedInOrder(g: Config, ready: seq<nat>, schedule: seq<Action>)
    requires CanStart(g, ready) && Run(g, ready, schedule).Some?
    ensures (var s := Run(g, ready, schedule).value;
             Buffered(g, ready, schedule) == Linked(g, ready, schedule) + InHand(s.lock.stack) + s.buffer)
  {
    hide Inv, CanStart, Apply, Enabled, InHand;
    if schedule == [] {
      NothingInHand(g, ready);
    } else {
      var before, last := schedule[..|schedule| - 1], schedule[|schedule| - 1];
      LinkedInOrder(g, ready, before);
      RunKeepsInv(g, ready, before);
      var s := Run(g, ready, before).value;
      var s' := Run(g, ready, schedule).value;
      ActionPasses(g, s, last);
      Joined(Buffered(g, ready, before), Linked(g, ready, before), InHand(s.lock.stack), s.buffer,
             if Buffers(s, last) then [SoftLock.Top(s.lock).job.op.t] else [],
             if Links(s, last) then [SoftLock.Top(s.lock).job.drained.value] else [], InHand(s'.lock.stack), s'.buffer);
    }
  }

  lemma Joined(all: seq<nat>, linked: seq<nat>, hand: seq<nat>, buffer: seq<nat>, x: seq<nat>, y: seq<nat>, hand': seq<nat>, buffer': seq<nat>)
    requires all == linked + hand + buffer && hand + buffer + x == y + hand' + buffer'
    ensures all + x == linked + y + hand' + buffer'
  {
    assert all + x == linked + (hand + buffer + x);
    assert linked + (y + hand' + buffer') == linked + y + hand' + buffer';
  }

  lemma NothingInHand(g: Config, ready: seq<nat>)
    ensures InHand(Start(g, ready).lock.stack) == [] && Start(g, ready).buffer == []
  {
  }
}
