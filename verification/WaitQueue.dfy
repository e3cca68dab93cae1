/**
 Wait queues under the soft lock. Tasks that wait evaluate their condition and enqueue
 themselves while they hold full access; notifiers dequeue a task or, when they preempted a
 holder, count a notification that the holder serves later.

 The condition is the availability of a resource unit: `avail` units are free. A gain makes a
 unit free and obliges its agent to notify once; a take uses a unit up.
 */
module WaitQueue {

  import opened Common
  import opened SoftLock

  datatype Op = Waiting(task: nat) | Notifying(agent: nat)

  /** How far the operation under full access is. */
  datatype Stage = Begin | Parking | Finished

  /** `left` counts the notifications that run_pended_op has still to serve. */
  datatype Job = Job(op: Op, stage: Stage, left: nat)

  /**
   `queue` are the blocked tasks, `cnt` the pended notifications, `woken` the tasks taken off the
   queue that have neither obtained a unit nor queued again, `owing` the agents that have gained
   a unit and not yet notified. When `grabs` is set, a satisfied condition takes the unit at once.
   `passed` are the tasks that have found their condition satisfied in their last wait.
   */
  datatype Queue = Queue(lock: State<Job>, queue: seq<nat>, cnt: nat, avail: nat, woken: set<nat>, owing: set<nat>, grabs: bool, passed: set<nat>)

  function Init(avail: nat, grabs: bool): Queue
  {
    Queue(SoftLock.Init(), [], 0, avail, {}, {}, grabs, {})
  }

  /** An access with this operation is open. */
  predicate HasAccess(q: Queue, op: Op)
  {
    exists i {:trigger q.lock.stack[i]} :: 0 <= i < |q.lock.stack| && q.lock.stack[i].job.op == op
  }

  /** Take the task at `pick` off the queue. */
  function Wake(q: Queue, pick: nat): Queue
    requires pick < |q.queue|
  {
    q.(queue := q.queue[..pick] + q.queue[pick + 1..], woken := q.woken + {q.queue[pick]})
  }

  /** The operation of the holder takes its next step. */
  function FullStep(q: Queue, pick: nat): Queue
    requires q.lock.stack != [] && (q.queue != [] ==> pick < |q.queue|)
  {
    var job := Top(q.lock).job;
    match job.op
    case Waiting(t) =>
      if job.stage == Begin then
        if q.avail > 0 then
          q.(lock := Work(q.lock, job.(stage := Finished)),
             avail := if q.grabs then q.avail - 1 else q.avail, passed := q.passed + {t},
             woken := if q.grabs then q.woken - {t} else q.woken)
        else q.(lock := Work(q.lock, job.(stage := Parking)), woken := q.woken - {t})
      else q.(lock := Work(q.lock, job.(stage := Finished)), queue := q.queue + [t])
    case Notifying(a) =>
      var q' := q.(lock := Work(q.lock, job.(stage := Finished)), owing := q.owing - {a});
      if q.queue == [] then q' else Wake(q', pick)
  }

  /** The next atomic step of the access on top. */
  function Step(q: Queue, pick: nat): Queue
    requires q.lock.stack != [] && (q.queue != [] ==> pick < |q.queue|)
  {
    var c := Top(q.lock);
    if c.phase == Full && c.job.stage != Finished then FullStep(q, pick)
    else if c.phase == PendOp && c.job.op.Notifying? then
      q.(lock := Advance(q.lock), cnt := q.cnt + 1, owing := q.owing - {c.job.op.agent})
    else if c.phase == RunStart then
      q.(lock := Work(Advance(q.lock), c.job.(left := q.cnt)), cnt := 0)
    else if c.phase == Running && c.job.left > 0 && q.queue != [] then
      Wake(q.(lock := Work(q.lock, c.job.(left := c.job.left - 1))), pick)
    else if c.phase == Running then
      q.(lock := Advance(Work(q.lock, c.job.(left := 0))))
    else
      q.(lock := Advance(q.lock))
  }

  datatype Action =
    | Gain(agent: nat)
    | Take(task: nat)
    | Arrive(op: Op)
    | Go(pick: nat)

  /** A waiting task is running, so it is on no queue and, not being an interrupt, preempts no access. */
  predicate Enabled(q: Queue, a: Action)
  {
    match a
    case Gain(a) => a !in q.owing
    case Take(_) => q.avail > 0
    case Arrive(op) => op.Waiting? ==> q.lock.stack == [] && op.task !in q.queue
    case Go(pick) => q.lock.stack != [] && (q.queue != [] ==> pick < |q.queue|)
  }

  function Apply(q: Queue, a: Action): Queue
    requires Enabled(q, a)
  {
    match a
    case Gain(a) => q.(avail := q.avail + 1, owing := q.owing + {a})
    case Take(t) => q.(avail := q.avail - 1, woken := q.woken - {t})
    case Arrive(op) =>
      q.(lock := SoftLock.Arrive(q.lock, op.Waiting?, Job(op, Begin, 0)), passed := if op.Waiting? then q.passed - {op.task} else q.passed)
    case Go(pick) => Step(q, pick)
  }

  // ---------- The invariant ----------

  /** Notifications that the holder has still to serve. */
  function Left(stack: seq<Ctx<Job>>): nat
  {
    if stack == [] then 0 else Left(stack[..|stack| - 1]) + stack[|stack| - 1].job.left
  }

  /** A task has found its condition false and is about to queue. */
  predicate IsParking(stack: seq<Ctx<Job>>)
  {
    stack != [] && stack[0].job.stage == Parking
  }

  ghost predicate JobOk(q: Queue, c: Ctx<Job>)
  {
    && (c.must <==> c.job.op.Waiting?)
    && (c.job.left > 0 ==> c.phase == Running)
    && (c.phase == Enter || c.phase == PendOp || c.phase == PendDone ==> c.job.stage == Begin)
    && (c.job.stage == Parking ==> c.phase == Full && c.job.op.Waiting? && c.job.op.task !in q.woken)
    && (c.job.stage != Finished && c.job.op.Waiting? ==> c.job.op.task !in q.queue)
    && (c.job.stage != Finished ==> c.phase == Enter || c.phase == Full || c.phase == PendOp || c.phase == PendDone)
  }

  ghost predicate Distinct(s: seq<nat>)
  {
    forall i, j :: 0 <= i < j < |s| ==> s[i] != s[j]
  }

  /** No free unit goes unnoticed while a task waits for one. */
  ghost predicate NoneLost(q: Queue)
  {
    q.queue != [] || IsParking(q.lock.stack) ==> q.avail <= |q.woken| + q.cnt + Left(q.lock.stack) + |q.owing|
  }

  ghost predicate Inv(q: Queue)
  {
    && SoftLock.Inv(q.lock)
    && q.cnt == q.lock.unserved
    && Distinct(q.queue) && (forall t :: t in q.queue ==> t !in q.woken)
    && (forall i {:trigger q.lock.stack[i]} :: 0 <= i < |q.lock.stack| ==> JobOk(q, q.lock.stack[i]))
    && NoneLost(q)
  }

  // ---------- The stack ----------

  lemma LeftOnTop(below: seq<Ctx<Job>>, c: Ctx<Job>)
    ensures Left(below + [c]) == Left(below) + c.job.left
  {
    assert (below + [c])[..|below|] == below;
  }

  /** The contexts below the top one, and the top one. */
  lemma Unstack(s: State<Job>) returns (below: seq<Ctx<Job>>, c: Ctx<Job>)
    requires s.stack != []
    ensures s.stack == below + [c] && c == Top(s) && |below| == |s.stack| - 1
    ensures Left(s.stack) == Left(below) + c.job.left
    ensures IsParking(s.stack) == if below == [] then c.job.stage == Parking else IsParking(below)
  {
    below, c := s.stack[..|s.stack| - 1], Top(s);
    assert s.stack == below + [c];
    LeftOnTop(below, c);
  }

  /** Parking tasks hold the lock at the bottom, so nothing parks below another holder. */
  lemma NoParkingBelow(q: Queue, below: seq<Ctx<Job>>, c: Ctx<Job>)
    requires Inv(q) && q.lock.stack == below + [c] && HoldsLock(c.phase)
    ensures !IsParking(below)
  {
    TopHolds(q.lock);
    if below != [] {
      assert q.lock.stack[0] == below[0];
      assert JobOk(q, q.lock.stack[0]);
    }
  }

  // ---------- Steps ----------

  lemma Removed(s: seq<nat>, k: nat)
    requires Distinct(s) && k < |s|
    ensures Distinct(s[..k] + s[k + 1..])
    ensures forall x :: x in s[..k] + s[k + 1..] <==> x in s && x != s[k]
  {
    var r := s[..k] + s[k + 1..];
    forall x | x in s && x != s[k] ensures x in r {
      var j :| 0 <= j < |s| && s[j] == x;
      assert r[if j < k then j else j - 1] == x;
    }
  }

  lemma Appended(s: seq<nat>, x: nat)
    requires Distinct(s) && x !in s
    ensures Distinct(s + [x])
  {
  }

  /** The contexts below keep their job facts when tasks leave the queue and nothing parks there. */
  lemma BelowJobs(q: Queue, q': Queue, below: seq<Ctx<Job>>, c: Ctx<Job>, c': Ctx<Job>)
    requires Inv(q) && q.lock.stack == below + [c] && q'.lock.stack == below + [c']
    requires JobOk(q', c')
    requires forall t :: t in q'.queue ==> t in q.queue
    requires q'.woken <= q.woken || HoldsLock(c.phase)
    ensures forall i {:trigger q'.lock.stack[i]} :: 0 <= i < |q'.lock.stack| ==> JobOk(q', q'.lock.stack[i])
  {
    forall i {:trigger q'.lock.stack[i]} | 0 <= i < |q'.lock.stack| ensures JobOk(q', q'.lock.stack[i]) {
      if i < |below| {
        assert q.lock.stack[i] == below[i] && JobOk(q, q.lock.stack[i]);
        if HoldsLock(c.phase) { TopHolds(q.lock); }
      }
    }
  }

  /** A notifier with full access wakes one task. */
  lemma NotifyKeeps(q: Queue, pick: nat)
    requires Inv(q) && q.lock.stack != [] && (q.queue != [] ==> pick < |q.queue|)
    requires Top(q.lock).phase == Full && Top(q.lock).job.stage == Begin && Top(q.lock).job.op.Notifying?
    ensures Inv(FullStep(q, pick))
  {
    hide SoftLock.Inv, Left, Distinct;
    var below, c := Unstack(q.lock);
    var q' := FullStep(q, pick);
    var c' := Top(q'.lock);
    assert JobOk(q, q.lock.stack[|below|]);
    assert q'.lock.stack == below + [c'];
    LeftOnTop(below, c');
    NoParkingBelow(q, below, c);
    ApplyKeeps(q.lock, DoWork(c'.job));
    if q.queue != [] { Removed(q.queue, pick); }
    BelowJobs(q, q', below, c, c');
  }

  /** A waiting task looks at its condition, or queues. */
  lemma WaitKeeps(q: Queue, pick: nat)
    requires Inv(q) && q.lock.stack != [] && (q.queue != [] ==> pick < |q.queue|)
    requires Top(q.lock).phase == Full && Top(q.lock).job.stage != Finished && Top(q.lock).job.op.Waiting?
    ensures Inv(FullStep(q, pick))
  {
    hide SoftLock.Inv, Left, Distinct;
    var below, c := Unstack(q.lock);
    var q' := FullStep(q, pick);
    assert JobOk(q, q.lock.stack[|below|]);
    MustFacts(q.lock);
    ApplyKeeps(q.lock, DoWork(Top(q'.lock).job));
    WaitingStep(q, pick, c);
  }

  /** The step of a waiting task: nobody else has an access open. */
  lemma WaitingStep(q: Queue, pick: nat, c: Ctx<Job>)
    requires Inv(q) && q.lock.stack == [c] && (q.queue != [] ==> pick < |q.queue|)
    requires c.phase == Full && c.job.stage != Finished && c.job.op.Waiting? && JobOk(q, c)
    ensures |FullStep(q, pick).lock.stack| == 1 && JobOk(FullStep(q, pick), FullStep(q, pick).lock.stack[0])
    ensures NoneLost(FullStep(q, pick)) && Distinct(FullStep(q, pick).queue)
    ensures forall t :: t in FullStep(q, pick).queue ==> t !in FullStep(q, pick).woken
  {
    hide SoftLock.Inv, Left, Distinct;
    var q' := FullStep(q, pick);
    Appended(q.queue, c.job.op.task);
    LeftOnTop([], c);
    LeftOnTop([], Top(q'.lock));
    assert q'.lock.stack == [] + [Top(q'.lock)];
    assert q.lock.stack == [] + [c];
  }

  /** A pend-only notifier counts its notification. */
  lemma PendKeeps(q: Queue, pick: nat)
    requires Inv(q) && q.lock.stack != [] && (q.queue != [] ==> pick < |q.queue|)
    requires Top(q.lock).phase == PendOp
    ensures Inv(Step(q, pick))
  {
    hide SoftLock.Inv, Advance, Left, Distinct;
    var below, c := Unstack(q.lock);
    assert JobOk(q, q.lock.stack[|below|]);
    if c.must { MustFacts(q.lock); }
    var q' := Step(q, pick);
    AdvanceOnTop(q.lock, below, c);
    var c' := NextCtx(q.lock, c);
    LeftOnTop(below, c');
    ApplyKeeps(q.lock, DoAdvance);
    BelowJobs(q, q', below, c, c');
  }

  /** run_pended_op takes over the counted notifications. */
  lemma RunStartKeeps(q: Queue, pick: nat)
    requires Inv(q) && q.lock.stack != [] && (q.queue != [] ==> pick < |q.queue|)
    requires Top(q.lock).phase == RunStart
    ensures Inv(Step(q, pick))
  {
    hide SoftLock.Inv, Advance, Left, Distinct;
    var below, c := Unstack(q.lock);
    assert JobOk(q, q.lock.stack[|below|]);
    var q' := Step(q, pick);
    AdvanceOnTop(q.lock, below, c);
    var c' := c.(phase := Running, job := c.job.(left := q.cnt));
    assert q'.lock.stack == below + [c'];
    LeftOnTop(below, c');
    ApplyKeeps(q.lock, DoAdvance);
    ApplyKeeps(Advance(q.lock), DoWork(c'.job));
    BelowJobs(q, q', below, c, c');
  }

  /** run_pended_op wakes one task. */
  lemma RunPopKeeps(q: Queue, pick: nat)
    requires Inv(q) && q.lock.stack != [] && q.queue != [] && pick < |q.queue|
    requires Top(q.lock).phase == Running && Top(q.lock).job.left > 0
    ensures Inv(Step(q, pick))
  {
    hide SoftLock.Inv, Left, Distinct;
    var below, c := Unstack(q.lock);
    assert JobOk(q, q.lock.stack[|below|]);
    var q' := Step(q, pick);
    var c' := Top(q'.lock);
    assert q'.lock.stack == below + [c'];
    LeftOnTop(below, c');
    NoParkingBelow(q, below, c);
    ApplyKeeps(q.lock, DoWork(c'.job));
    Removed(q.queue, pick);
    BelowJobs(q, q', below, c, c');
  }

  /** run_pended_op ends when all notifications are served or no task is left. */
  lemma RunEndKeeps(q: Queue, pick: nat)
    requires Inv(q) && q.lock.stack != [] && (q.queue != [] ==> pick < |q.queue|)
    requires Top(q.lock).phase == Running && (Top(q.lock).job.left == 0 || q.queue == [])
    ensures Inv(Step(q, pick))
  {
    hide SoftLock.Inv, Advance, Left, Distinct;
    var below, c := Unstack(q.lock);
    assert JobOk(q, q.lock.stack[|below|]);
    var q' := Step(q, pick);
    var done := c.(job := c.job.(left := 0));
    assert Work(q.lock, done.job).stack == below + [done];
    AdvanceOnTop(Work(q.lock, done.job), below, done);
    var c' := done.(phase := Release);
    LeftOnTop(below, c');
    NoParkingBelow(q, below, c);
    ApplyKeeps(q.lock, DoWork(done.job));
    ApplyKeeps(Work(q.lock, done.job), DoAdvance);
    BelowJobs(q, q', below, c, c');
  }

  /** The remaining steps belong to the lock alone. */
  lemma LockStepKeeps(q: Queue, pick: nat)
    requires Inv(q) && q.lock.stack != [] && (q.queue != [] ==> pick < |q.queue|)
    requires var c := Top(q.lock); c.phase != PendOp && c.phase != RunStart && c.phase != Running && !(c.phase == Full && c.job.stage != Finished)
    ensures Inv(Step(q, pick))
  {
    hide SoftLock.Inv, Advance, Left, Distinct;
    var below, c := Unstack(q.lock);
    assert JobOk(q, q.lock.stack[|below|]);
    if c.must { MustFacts(q.lock); }
    var q' := Step(q, pick);
    AdvanceOnTop(q.lock, below, c);
    ApplyKeeps(q.lock, DoAdvance);
    if q'.lock.stack == below {
      forall i {:trigger q'.lock.stack[i]} | 0 <= i < |q'.lock.stack| ensures JobOk(q', q'.lock.stack[i]) {
        assert q.lock.stack[i] == below[i] && JobOk(q, q.lock.stack[i]);
      }
    } else {
      var c' := NextCtx(q.lock, c);
      LeftOnTop(below, c');
      BelowJobs(q, q', below, c, c');
    }
  }

  lemma ArriveInv(q: Queue, op: Op)
    requires Inv(q) && Enabled(q, Action.Arrive(op))
    ensures Inv(Apply(q, Action.Arrive(op)))
  {
    hide SoftLock.Inv, Left, Distinct;
    var q' := Apply(q, Action.Arrive(op));
    ApplyKeeps(q.lock, DoArrive(op.Waiting?, Job(op, Begin, 0)));
    var c := Ctx(Phase.Enter, op.Waiting?, Job(op, Begin, 0), 0, q.lock.arrivals, q.lock.arrivals);
    LeftOnTop(q.lock.stack, c);
    forall i {:trigger q'.lock.stack[i]} | 0 <= i < |q'.lock.stack| ensures JobOk(q', q'.lock.stack[i]) {
      if i < |q.lock.stack| { assert JobOk(q, q.lock.stack[i]); }
    }
  }

  /** Every action keeps the invariant. */
  lemma ApplyInv(q: Queue, a: Action)
    requires Inv(q) && Enabled(q, a)
    ensures Inv(Apply(q, a))
  {
    match a {
      case Gain(_) => SameAccesses(q, Apply(q, a));
      case Take(_) => SameAccesses(q, Apply(q, a));
      case Arrive(op) => ArriveInv(q, op);
      case Go(pick) =>
        var c := Top(q.lock);
        assert JobOk(q, q.lock.stack[|q.lock.stack| - 1]);
        if c.phase == Full && c.job.stage != Finished {
          if c.job.op.Waiting? { WaitKeeps(q, pick); } else { NotifyKeeps(q, pick); }
        } else if c.phase == PendOp { PendKeeps(q, pick); }
        else if c.phase == RunStart { RunStartKeeps(q, pick); }
        else if c.phase == Running && c.job.left > 0 && q.queue != [] { RunPopKeeps(q, pick); }
        else if c.phase == Running { RunEndKeeps(q, pick); }
        else { LockStepKeeps(q, pick); }
    }
  }

  /** The queue does not depend on who has passed. */
  lemma PassedInv(q: Queue, passed: set<nat>)
    requires Inv(q)
    ensures Inv(q.(passed := passed))
  {
    var q' := q.(passed := passed);
    forall i {:trigger q'.lock.stack[i]} | 0 <= i < |q'.lock.stack| ensures JobOk(q', q'.lock.stack[i]) {
      assert JobOk(q, q.lock.stack[i]);
    }
  }

  /** A notification that no free unit goes with, and a woken task that gives up waiting while none is free. */
  lemma UnitlessInv(q: Queue, agent: nat, task: nat)
    requires Inv(q)
    ensures Inv(q.(owing := q.owing + {agent}))
    ensures q.avail == 0 ==> Inv(q.(woken := q.woken - {task}))
  {
    assert agent in q.owing ==> q.owing + {agent} == q.owing;
    SameAccesses(q, q.(owing := q.owing + {agent}));
    SameAccesses(q, q.(woken := q.woken - {task}));
  }

  /** Gains and takes leave all accesses as they are. */
  lemma SameAccesses(q: Queue, q': Queue)
    requires Inv(q) && q'.lock == q.lock && q'.queue == q.queue && q'.woken <= q.woken
    ensures forall i {:trigger q'.lock.stack[i]} :: 0 <= i < |q'.lock.stack| ==> JobOk(q', q'.lock.stack[i])
  {
    forall i {:trigger q'.lock.stack[i]} | 0 <= i < |q'.lock.stack| ensures JobOk(q', q'.lock.stack[i]) {
      assert JobOk(q, q.lock.stack[i]);
    }
  }

  // ---------- What a step may touch ----------

  /** Some open access is that of waiting task `t`. */
  ghost predicate WaitsOpenly(stack: seq<Ctx<Job>>, t: nat)
  {
    exists i {:trigger stack[i]} :: 0 <= i < |stack| && stack[i].job.op == Waiting(t)
  }

  lemma FullShape(q: Queue, pick: nat, below: seq<Ctx<Job>>, c: Ctx<Job>) returns (c': Ctx<Job>)
    requires q.lock.stack == below + [c] && (q.queue != [] ==> pick < |q.queue|)
    ensures c'.job.op == c.job.op && FullStep(q, pick).lock.stack == below + [c']
  {
    c' := Top(FullStep(q, pick).lock);
  }

  /** What a step leaves on the stack. */
  lemma StepShape(q: Queue, pick: nat, below: seq<Ctx<Job>>, c: Ctx<Job>) returns (c': Ctx<Job>)
    requires q.lock.stack == below + [c] && (q.queue != [] ==> pick < |q.queue|)
    ensures c'.job.op == c.job.op && (c.job.stage == Finished ==> c'.job.stage == Finished)
    ensures Step(q, pick).lock.stack == below || Step(q, pick).lock.stack == below + [c']
  {
    hide Advance, Left, FullStep;
    AdvanceOnTop(q.lock, below, c);
    c' := NextCtx(q.lock, c);
    if c.phase == Full && c.job.stage != Finished {
      c' := FullShape(q, pick, below, c);
    } else if c.phase == RunStart {
      c' := c.(phase := Running, job := c.job.(left := q.cnt));
      assert Work(Advance(q.lock), c'.job).stack == below + [c'];
    } else if c.phase == Running && c.job.left > 0 && q.queue != [] {
      c' := c.(job := c.job.(left := c.job.left - 1));
      assert Work(q.lock, c'.job).stack == below + [c'];
    } else if c.phase == Running {
      var done := c.(job := c.job.(left := 0));
      assert Work(q.lock, done.job).stack == below + [done];
      AdvanceOnTop(Work(q.lock, done.job), below, done);
      c' := done.(phase := Release);
    }
  }

  /** A step keeps every open operation's identity. */
  lemma StepOps(q: Queue, pick: nat)
    requires q.lock.stack != [] && (q.queue != [] ==> pick < |q.queue|)
    ensures |Step(q, pick).lock.stack| <= |q.lock.stack|
    ensures forall i {:trigger Step(q, pick).lock.stack[i]} :: 0 <= i < |Step(q, pick).lock.stack| ==>
      Step(q, pick).lock.stack[i].job.op == q.lock.stack[i].job.op
  {
    hide Step;
    var below, c := Unstack(q.lock);
    var c' := StepShape(q, pick, below, c);
    assert q.lock.stack[|below|] == c;
    forall i | 0 <= i < |below| ensures q.lock.stack[i] == below[i] {}
  }

  /** An access step wakes queued tasks, queues tasks that have an access open, and settles debts. */
  lemma StepFrame(q: Queue, pick: nat)
    requires q.lock.stack != [] && (q.queue != [] ==> pick < |q.queue|)
    ensures var q' := Step(q, pick);
      && (forall t :: t in q'.queue ==> t in q.queue || WaitsOpenly(q.lock.stack, t))
      && (forall t :: t in q'.woken ==> t in q.woken || t in q.queue)
      && (forall t :: t in q'.passed ==> t in q.passed || (q.avail > 0 && WaitsOpenly(q.lock.stack, t)))
      && q'.owing <= q.owing && q'.grabs == q.grabs && (!q.grabs ==> q'.avail == q.avail)
  {
    hide Advance;
    var job := Top(q.lock).job;
    if job.op.Waiting? { assert WaitsOpenly(q.lock.stack, job.op.task) by { assert q.lock.stack[|q.lock.stack| - 1].job.op == job.op; } }
  }

  /** Waiting task `t` has an access open that has neither succeeded nor queued it. */
  ghost predicate Undecided(stack: seq<Ctx<Job>>, t: nat)
  {
    exists i {:trigger stack[i]} :: 0 <= i < |stack| && stack[i].job.op == Waiting(t) && stack[i].job.stage != Finished
  }

  /** The holder is a waiting task whose condition is about to succeed. */
  predicate Succeeds(q: Queue)
  {
    q.lock.stack != [] && q.avail > 0 && var c := Top(q.lock); c.phase == Full && c.job.stage == Begin && c.job.op.Waiting?
  }

  /** On a grabbing queue, too, only undecided tasks queue; a success decides the task and takes the unit. */
  lemma GrabFrame(q: Queue, pick: nat)
    requires q.lock.stack != [] && (q.queue != [] ==> pick < |q.queue|) && q.grabs
    requires Inv(q)
    ensures forall t :: t in Step(q, pick).queue ==> t in q.queue || Undecided(q.lock.stack, t)
    ensures forall t :: Undecided(Step(q, pick).lock.stack, t) ==> Undecided(q.lock.stack, t)
    ensures Step(q, pick).grabs && Step(q, pick).avail == if Succeeds(q) then q.avail - 1 else q.avail
    ensures Succeeds(q) ==> Undecided(q.lock.stack, Top(q.lock).job.op.task)
    ensures Succeeds(q) ==> var q', t := Step(q, pick), Top(q.lock).job.op.task;
      !Undecided(q'.lock.stack, t) && t !in q'.woken && t !in q'.queue
  {
    hide Advance, Left, SoftLock.Inv;
    var below, c := Unstack(q.lock);
    assert q.lock.stack[|below|] == c && JobOk(q, q.lock.stack[|below|]);
    if c.job.op.Waiting? && c.job.stage != Finished { assert Undecided(q.lock.stack, c.job.op.task); }
    var c' := StepShape(q, pick, below, c);
    var stack' := Step(q, pick).lock.stack;
    forall t | Undecided(stack', t) ensures Undecided(q.lock.stack, t) {
      var i :| 0 <= i < |stack'| && stack'[i].job.op == Waiting(t) && stack'[i].job.stage != Finished;
      assert q.lock.stack[i].job.op == Waiting(t) && q.lock.stack[i].job.stage != Finished;
    }
    if Succeeds(q) {
      MustFacts(q.lock);
      assert below == [];
    }
  }

  // ---------- Whole runs ----------

  /** The state that a schedule leads to from a fresh queue; none when an action is not possible. */
  function Run(avail: nat, grabs: bool, schedule: seq<Action>): Option<Queue>
  {
    if schedule == [] then Some(Init(avail, grabs))
    else
      var before := Run(avail, grabs, schedule[..|schedule| - 1]);
      var last := schedule[|schedule| - 1];
      if before.Some? && Enabled(before.value, last) then Some(Apply(before.value, last)) else None
  }

  lemma {:induction false} RunKeepsInv(avail: nat, grabs: bool, schedule: seq<Action>)
    requires Run(avail, grabs, schedule).Some?
    ensures Inv(Run(avail, grabs, schedule).value)
  {
    if schedule == [] {
      assert InvAt(SoftLock.Init<Job>(), -1);
    } else {
      RunKeepsInv(avail, grabs, schedule[..|schedule| - 1]);
      ApplyInv(Run(avail, grabs, schedule[..|schedule| - 1]).value, schedule[|schedule| - 1]);
    }
  }

  /**
   No lost wake-up: in every run, as long as a task is queued, each free unit is matched by a
   woken task that has yet to retry, a pended notification, or a notification about to be made.
   */
  lemma NoLostWakeup(avail: nat, grabs: bool, schedule: seq<Action>)
    requires Run(avail, grabs, schedule).Some?
    ensures var q := Run(avail, grabs, schedule).value;
      q.queue != [] ==> q.avail <= |q.woken| + q.cnt + Left(q.lock.stack) + |q.owing|
  {
    RunKeepsInv(avail, grabs, schedule);
  }

  /** Once everything has settled, a task is queued only if no unit is free. */
  lemma SettledMeansUnavailable(avail: nat, grabs: bool, schedule: seq<Action>)
    requires Run(avail, grabs, schedule).Some?
    requires var q := Run(avail, grabs, schedule).value; q.lock.stack == [] && q.woken == {} && q.owing == {}
    ensures var q := Run(avail, grabs, schedule).value; q.cnt == 0 && (q.queue != [] ==> q.avail == 0)
  {
    RunKeepsInv(avail, grabs, schedule);
    var q := Run(avail, grabs, schedule).value;
    assert SoftLock.Inv(q.lock);
  }
}
