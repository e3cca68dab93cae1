/**
 Where a task that does not run is kept: the scheduler's machine, with its parked tasks told apart by wait queue, sleep queue and
 mailbox. A mailbox that a task waits in with timeout only refers to the task, which is kept in the sleep queue.
 */
module Containers {

  import opened Common
  import SoftLock
  import L = TaskList
  import opened Scheduler

  datatype Slot = Empty | WithTimeout(t: nat) | WithoutTimeout(t: nat)

  datatype Kernel = Kernel(s: Sched, queues: seq<seq<nat>>, sleepers: seq<nat>, boxes: seq<Slot>)

  datatype Move =
    | Other(a: Action)          // all that neither parks nor unparks a task
    | Queue(q: nat, t: nat)     // a task blocks in a wait queue
    | Dequeue(q: nat, i: nat)   // a notifier takes one out
    | FallAsleep(t: nat, i: nat)
    | WakeUp(i: nat)            // the clock or a notifier takes a sleeper out
    | WaitInBox(b: nat, t: nat) // a task waits in a mailbox without timeout
    | TakeFromBox(b: nat)       // a notifier takes it out
    | ReferBox(b: nat, t: nat)  // a task is about to sleep with a reference in a mailbox
    | ClearBox(b: nat)          // a notifier, or the task after its sleep, clears the reference

  /** A mailbox refers to the task: its wait with timeout goes on. */
  predicate Referred(k: Kernel, t: nat)
  {
    exists b :: 0 <= b < |k.boxes| && k.boxes[b] == WithTimeout(t)
  }

  /** What the scheduler sees of a move. */
  function Seen(k: Kernel, m: Move): Option<Action>
  {
    match m
    case Other(a) => Some(a)
    case Queue(_, t) => Some(Park(t))
    case Dequeue(q, i) => if q < |k.queues| && i < |k.queues[q]| then Some(Unpark(k.queues[q][i])) else None
    case FallAsleep(t, _) => Some(Park(t))
    case WakeUp(i) => if i < |k.sleepers| then Some(Unpark(k.sleepers[i])) else None
    case WaitInBox(_, t) => Some(Park(t))
    case TakeFromBox(b) => if b < |k.boxes| && k.boxes[b].WithoutTimeout? then Some(Unpark(k.boxes[b].t)) else None
    case _ => None
  }

  /** A task in a wait with timeout calls nothing else that blocks before it has cleared the reference. */
  predicate Possible(g: Config, k: Kernel, m: Move)
  {
    && (Seen(k, m).Some? ==> Enabled(g, k.s, Seen(k, m).value))
    && match m
       case Other(a) => !a.Park? && !a.Unpark?
       case Queue(q, t) => q < |k.queues| && !Referred(k, t)
       case Dequeue(q, i) => q < |k.queues| && i < |k.queues[q]|
       case FallAsleep(t, i) => i <= |k.sleepers|
       case WakeUp(i) => i < |k.sleepers|
       case WaitInBox(b, t) => b < |k.boxes| && k.boxes[b] == Empty && !Referred(k, t)
       case TakeFromBox(b) => b < |k.boxes| && k.boxes[b].WithoutTimeout?
       case ReferBox(b, t) => b < |k.boxes| && k.boxes[b] == Empty && t in k.s.hands && !Referred(k, t)
       case ClearBox(b) => b < |k.boxes| && k.boxes[b].WithTimeout?
  }

  function Do(g: Config, k: Kernel, m: Move): Kernel
    requires Possible(g, k, m)
  {
    var k' := if Seen(k, m).Some? then k.(s := Apply(g, k.s, Seen(k, m).value)) else k;
    match m
    case Other(_) => k'
    case Queue(q, t) => k'.(queues := k.queues[q := k.queues[q] + [t]])
    case Dequeue(q, i) => k'.(queues := k.queues[q := L.Without(k.queues[q], i)])
    case FallAsleep(t, i) => k'.(sleepers := L.Inserted(k.sleepers, i, t))
    case WakeUp(i) => k'.(sleepers := L.Without(k.sleepers, i))
    case WaitInBox(b, t) => k'.(boxes := k.boxes[b := WithoutTimeout(t)])
    case ReferBox(b, t) => k'.(boxes := k.boxes[b := WithTimeout(t)])
    case TakeFromBox(b) => k'.(boxes := k.boxes[b := Empty])
    case ClearBox(b) => k'.(boxes := k.boxes[b := Empty])
  }

  function NoQueues(n: nat): seq<seq<nat>> { seq(n, _ => []) }

  function NoBoxes(n: nat): seq<Slot> { seq(n, _ => Empty) }

  /** Empty containers. */
  function Start(g: Config, ready: seq<nat>, queues: nat, boxes: nat): Kernel
  {
    Kernel(Scheduler.Start(g, ready), NoQueues(queues), [], NoBoxes(boxes))
  }

  function RunAll(g: Config, ready: seq<nat>, queues: nat, boxes: nat, moves: seq<Move>): Option<Kernel>
  {
    if moves == [] then Some(Start(g, ready, queues, boxes))
    else
      var before := RunAll(g, ready, queues, boxes, moves[..|moves| - 1]);
      var last := moves[|moves| - 1];
      if before.Some? && Possible(g, before.value, last) then Some(Do(g, before.value, last)) else None
  }

  // ---------- Counting ----------

  function Times(tasks: seq<nat>, t: nat): nat { multiset(tasks)[t] }

  function InQueues(queues: seq<seq<nat>>, t: nat): nat
  {
    if queues == [] then 0 else InQueues(queues[..|queues| - 1], t) + Times(queues[|queues| - 1], t)
  }

  function InBoxes(boxes: seq<Slot>, t: nat): nat
  {
    if boxes == [] then 0 else InBoxes(boxes[..|boxes| - 1], t) + (if boxes[|boxes| - 1] == WithoutTimeout(t) then 1 else 0)
  }

  /** The number of wait queues, places in the sleep queue and mailboxes that keep the task. */
  function Kept(k: Kernel, t: nat): nat
  {
    InQueues(k.queues, t) + Times(k.sleepers, t) + InBoxes(k.boxes, t)
  }

  lemma {:induction false} QueueChanges(queues: seq<seq<nat>>, q: nat, tasks: seq<nat>, t: nat)
    requires q < |queues|
    ensures InQueues(queues[q := tasks], t) == InQueues(queues, t) - Times(queues[q], t) + Times(tasks, t)
    ensures InQueues(queues, t) >= Times(queues[q], t)
    decreases |queues|
  {
    var n := |queues| - 1;
    if q == n {
      assert queues[q := tasks][..n] == queues[..n];
    } else {
      assert queues[q := tasks][..n] == queues[..n][q := tasks];
      QueueChanges(queues[..n], q, tasks, t);
    }
  }

  lemma {:induction false} BoxChanges(boxes: seq<Slot>, b: nat, slot: Slot, t: nat)
    requires b < |boxes|
    ensures InBoxes(boxes[b := slot], t) == InBoxes(boxes, t) - (if boxes[b] == WithoutTimeout(t) then 1 else 0) + (if slot == WithoutTimeout(t) then 1 else 0)
    ensures InBoxes(boxes, t) >= if boxes[b] == WithoutTimeout(t) then 1 else 0
    decreases |boxes|
  {
    var n := |boxes| - 1;
    if b == n {
      assert boxes[b := slot][..n] == boxes[..n];
    } else {
      assert boxes[b := slot][..n] == boxes[..n][b := slot];
      BoxChanges(boxes[..n], b, slot, t);
    }
  }

  lemma WithoutTimes(tasks: seq<nat>, i: nat, t: nat)
    requires i < |tasks|
    ensures Times(tasks, t) == Times(L.Without(tasks, i), t) + (if tasks[i] == t then 1 else 0)
  {
    WithoutCount(tasks, i);
  }

  lemma InsertedTimes(tasks: seq<nat>, i: nat, u: nat, t: nat)
    requires i <= |tasks|
    ensures Times(L.Inserted(tasks, i, u), t) == Times(tasks, t) + (if u == t then 1 else 0)
  {
    assert tasks == tasks[..i] + tasks[i..];
    assert multiset(tasks[..i] + [u] + tasks[i..]) == multiset(tasks[..i] + tasks[i..]) + multiset{u};
  }

  lemma {:induction false} EmptyQueues(n: nat, t: nat)
    ensures InQueues(NoQueues(n), t) == 0
  {
    if n > 0 {
      EmptyQueues(n - 1, t);
      assert NoQueues(n)[..n - 1] == NoQueues(n - 1);
    }
  }

  lemma {:induction false} EmptyBoxes(n: nat, t: nat)
    ensures InBoxes(NoBoxes(n), t) == 0
  {
    if n > 0 {
      EmptyBoxes(n - 1, t);
      assert NoBoxes(n)[..n - 1] == NoBoxes(n - 1);
    }
  }

  // ---------- The invariant ----------

  /** What the scheduler takes for parked is what the containers keep. */
  ghost predicate KeptOk(k: Kernel, t: nat)
  {
    k.s.parked[t] == Kept(k, t)
  }

  /** A task that a mailbox refers to is in no wait queue and waits in no other mailbox. */
  ghost predicate ReferenceOk(k: Kernel, t: nat)
  {
    Referred(k, t) ==> InQueues(k.queues, t) == 0 && InBoxes(k.boxes, t) == 0
  }

  ghost predicate KernelInv(g: Config, k: Kernel)
  {
    && Inv(g, k.s) && Order(g, k.s)
    && (forall t {:trigger KeptOk(k, t)} :: KeptOk(k, t)) && (forall t {:trigger ReferenceOk(k, t)} :: ReferenceOk(k, t))
  }

  /** Each move parks in the container what it parks in the scheduler. */
  lemma MoveKept(g: Config, k: Kernel, m: Move, t: nat)
    requires Possible(g, k, m) && KeptOk(k, t)
    ensures KeptOk(Do(g, k, m), t)
  {
    hide Times, InQueues, InBoxes, Step;
    if m.WaitInBox? || m.ReferBox? || m.TakeFromBox? || m.ClearBox? {
      BoxMoveKept(g, k, m, t);
    } else {
      QueueMoveKept(g, k, m, t);
    }
  }

  lemma QueueMoveKept(g: Config, k: Kernel, m: Move, t: nat)
    requires Possible(g, k, m) && KeptOk(k, t) && (m.Other? || m.Queue? || m.Dequeue? || m.FallAsleep? || m.WakeUp?)
    ensures KeptOk(Do(g, k, m), t)
  {
    hide Times, InQueues, InBoxes, Step;
    match m
    case Other(a) =>
      OtherParked(g, k.s, a);
    case Queue(q, u) =>
      QueueChanges(k.queues, q, k.queues[q] + [u], t);
      TimesAppend(k.queues[q], u, t);
    case Dequeue(q, i) =>
      QueueChanges(k.queues, q, L.Without(k.queues[q], i), t);
      WithoutTimes(k.queues[q], i, t);
    case FallAsleep(u, i) =>
      SleepMoveKept(g, k, m, t);
    case WakeUp(i) =>
      SleepMoveKept(g, k, m, t);
  }

  lemma SleepMoveKept(g: Config, k: Kernel, m: Move, t: nat)
    requires Possible(g, k, m) && KeptOk(k, t) && (m.FallAsleep? || m.WakeUp?)
    ensures KeptOk(Do(g, k, m), t)
  {
    hide Times, InQueues, InBoxes, Step;
    match m
    case FallAsleep(u, i) =>
      InsertedTimes(k.sleepers, i, u, t);
    case WakeUp(i) =>
      WithoutTimes(k.sleepers, i, t);
  }

  lemma BoxMoveKept(g: Config, k: Kernel, m: Move, t: nat)
    requires Possible(g, k, m) && KeptOk(k, t) && (m.WaitInBox? || m.ReferBox? || m.TakeFromBox? || m.ClearBox?)
    ensures KeptOk(Do(g, k, m), t)
  {
    hide Times, InQueues, InBoxes, Step;
    match m
    case WaitInBox(b, u) =>
      BoxChanges(k.boxes, b, WithoutTimeout(u), t);
    case ReferBox(b, u) =>
      BoxChanges(k.boxes, b, WithTimeout(u), t);
    case TakeFromBox(b) =>
      BoxChanges(k.boxes, b, Empty, t);
    case ClearBox(b) =>
      BoxChanges(k.boxes, b, Empty, t);
  }

  lemma TimesAppend(tasks: seq<nat>, u: nat, t: nat)
    ensures Times(tasks + [u], t) == Times(tasks, t) + (if u == t then 1 else 0)
  {
  }

  lemma OtherParked(g: Config, s: Sched, a: Action)
    requires Enabled(g, s, a) && !a.Park? && !a.Unpark?
    ensures Apply(g, s, a).parked == s.parked
  {
    hide Step;
    if a.Go? { StepParked(g, s); }
  }

  lemma StepParked(g: Config, s: Sched)
    requires s.lock.stack != []
    ensures Step(g, s).parked == s.parked
  {
    hide SoftLock.Advance, OpStep, Outranks;
    var c := SoftLock.Top(s.lock);
    if c.phase == SoftLock.Full && !OpDone(c.job.op) { OpParked(g, s, c.job); }
  }

  lemma OpParked(g: Config, s: Sched, job: Job)
    requires s.lock.stack != []
    ensures OpStep(g, s, job).parked == s.parked
  {
    hide Best, Outranks, L.Without, SoftLock.Work, StateOf, Choose, Switch;
    if job.op.Pick? && job.op.choice == Requeued { ChooseParked(g, s, job); }
    if job.op.Pick? && job.op.choice.Chosen? { SwitchParked(s, job, job.op.choice.next); }
  }

  lemma ChooseParked(g: Config, s: Sched, job: Job)
    requires s.lock.stack != []
    ensures Choose(g, s, job).parked == s.parked
  {
    hide Best, L.Without, SoftLock.Work;
  }

  lemma SwitchParked(s: Sched, job: Job, next: nat)
    requires s.lock.stack != []
    ensures Switch(s, job, next).parked == s.parked
  {
    hide SoftLock.Work, StateOf;
  }

  /** A move brings no task that a mailbox refers to into a wait queue or another mailbox. */
  lemma MoveReferences(g: Config, k: Kernel, m: Move, t: nat)
    requires Possible(g, k, m) && KernelInv(g, k)
    ensures ReferenceOk(Do(g, k, m), t)
  {
    hide Times, InQueues, InBoxes, Step, Inv, Order;
    assert ReferenceOk(k, t) && KeptOk(k, t);
    var k' := Do(g, k, m);
    match m
    case Other(a) =>
    case Queue(q, u) =>
      QueueChanges(k.queues, q, k.queues[q] + [u], t);
      TimesAppend(k.queues[q], u, t);
    case Dequeue(q, i) =>
      QueueChanges(k.queues, q, L.Without(k.queues[q], i), t);
      WithoutTimes(k.queues[q], i, t);
    case FallAsleep(u, i) =>
    case WakeUp(i) =>
    case WaitInBox(b, u) =>
      SlotTaken(k, b, WithoutTimeout(u), t);
      BoxChanges(k.boxes, b, WithoutTimeout(u), t);
    case ReferBox(b, u) =>
      SlotTaken(k, b, WithTimeout(u), t);
      BoxChanges(k.boxes, b, WithTimeout(u), t);
      if t == u { InHandsOnly(g, k.s, u); }
    case TakeFromBox(b) =>
      SlotTaken(k, b, Empty, t);
      BoxChanges(k.boxes, b, Empty, t);
    case ClearBox(b) =>
      SlotTaken(k, b, Empty, t);
      BoxChanges(k.boxes, b, Empty, t);
  }

  /** Filling a slot adds no reference but its own. */
  lemma SlotTaken(k: Kernel, b: nat, slot: Slot, t: nat)
    requires b < |k.boxes|
    ensures Referred(k.(boxes := k.boxes[b := slot]), t) ==> Referred(k, t) || slot == WithTimeout(t)
  {
    var k' := k.(boxes := k.boxes[b := slot]);
    if Referred(k', t) {
      var x :| 0 <= x < |k'.boxes| && k'.boxes[x] == WithTimeout(t);
      assert x != b ==> k.boxes[x] == WithTimeout(t);
    }
  }

  /** A task on its way is kept nowhere. */
  lemma InHandsOnly(g: Config, s: Sched, t: nat)
    requires Inv(g, s) && t in s.hands
    ensures s.parked[t] == 0 && t !in s.ready
  {
    hide SoftLock.Inv, Carried;
    assert Placed(s, t);
  }

  lemma MoveKeeps(g: Config, k: Kernel, m: Move)
    requires KernelInv(g, k) && Possible(g, k, m)
    ensures KernelInv(g, Do(g, k, m))
  {
    hide Inv, Order, Apply, Enabled, Kept, Do;
    var k' := Do(g, k, m);
    if Seen(k, m).Some? {
      ActionKeeps(g, k.s, Seen(k, m).value);
      ActionOrder(g, k.s, Seen(k, m).value);
    }
    SchedulerMoves(g, k, m);
    forall t ensures KeptOk(k', t) && ReferenceOk(k', t) {
      assert KeptOk(k, t);
      MoveKept(g, k, m, t);
      MoveReferences(g, k, m, t);
    }
  }

  lemma SchedulerMoves(g: Config, k: Kernel, m: Move)
    requires Possible(g, k, m)
    ensures Do(g, k, m).s == if Seen(k, m).Some? then Apply(g, k.s, Seen(k, m).value) else k.s
  {
    hide Apply;
  }

  lemma {:induction false} RunKeepsKernel(g: Config, ready: seq<nat>, queues: nat, boxes: nat, moves: seq<Move>)
    requires CanStart(g, ready) && RunAll(g, ready, queues, boxes, moves).Some?
    ensures KernelInv(g, RunAll(g, ready, queues, boxes, moves).value)
  {
    hide Inv, Order, CanStart, Do, Possible, KernelInv;
    if moves == [] {
      StartKernel(g, ready, queues, boxes);
    } else {
      RunKeepsKernel(g, ready, queues, boxes, moves[..|moves| - 1]);
      MoveKeeps(g, RunAll(g, ready, queues, boxes, moves[..|moves| - 1]).value, moves[|moves| - 1]);
    }
  }

  lemma StartKernel(g: Config, ready: seq<nat>, queues: nat, boxes: nat)
    requires CanStart(g, ready)
    ensures KernelInv(g, Start(g, ready, queues, boxes))
  {
    hide Inv, Order, CanStart;
    var k := Start(g, ready, queues, boxes);
    StartInv(g, ready);
    forall t ensures KeptOk(k, t) && ReferenceOk(k, t) {
      EmptyQueues(queues, t);
      EmptyBoxes(boxes, t);
    }
  }

  // ---------- One place for each task ----------

  /**
   In every run each live task that has not ended is in exactly one of these: running, the ready list, the insert buffer, one
   place of one wait queue, one place of the sleep queue, one mailbox, one access of the scheduler, or on its way; and no other
   task is in any.
   */
  lemma OnePlaceEach(g: Config, ready: seq<nat>, queues: nat, boxes: nat, moves: seq<Move>, t: nat)
    requires CanStart(g, ready) && RunAll(g, ready, queues, boxes, moves).Some?
    ensures (var k := RunAll(g, ready, queues, boxes, moves).value;
             (if k.s.owns && k.s.cur == t then 1 else 0) + Times(k.s.ready, t) + Times(k.s.buffer, t)
             + InQueues(k.queues, t) + Times(k.sleepers, t) + InBoxes(k.boxes, t) + Carried(k.s.lock.stack, t) + k.s.hands[t]
             == if t in k.s.live && StateOf(k.s, t) != Destructing then 1 else 0)
  {
    hide CanStart, InQueues, InBoxes, Carried, SoftLock.Inv, Order;
    RunKeepsKernel(g, ready, queues, boxes, moves);
    var k := RunAll(g, ready, queues, boxes, moves).value;
    assert KeptOk(k, t) && Placed(k.s, t);
  }

  /** A task that a mailbox refers to, in a wait with timeout, is kept in the sleep queue or nowhere. */
  lemma ReferredIsAsleep(g: Config, ready: seq<nat>, queues: nat, boxes: nat, moves: seq<Move>, t: nat)
    requires CanStart(g, ready) && RunAll(g, ready, queues, boxes, moves).Some? && Referred(RunAll(g, ready, queues, boxes, moves).value, t)
    ensures (var k := RunAll(g, ready, queues, boxes, moves).value; Kept(k, t) == Times(k.sleepers, t) <= 1)
  {
    hide CanStart, InQueues, InBoxes, Carried, SoftLock.Inv, Order;
    RunKeepsKernel(g, ready, queues, boxes, moves);
    var k := RunAll(g, ready, queues, boxes, moves).value;
    assert KeptOk(k, t) && ReferenceOk(k, t) && Placed(k.s, t);
  }

  /** A task is in one of the lists that share its link. */
  predicate Linked(k: Kernel, t: nat)
  {
    t in k.s.ready || InQueues(k.queues, t) > 0 || t in k.sleepers
  }

  /** No insertion into a list meets a task that is already linked: not into a wait queue, not into the sleep queue, */
  lemma ParkingUnlinked(g: Config, ready: seq<nat>, queues: nat, boxes: nat, moves: seq<Move>, m: Move)
    requires CanStart(g, ready) && RunAll(g, ready, queues, boxes, moves).Some?
    requires Possible(g, RunAll(g, ready, queues, boxes, moves).value, m) && (m.Queue? || m.FallAsleep?)
    ensures !Linked(RunAll(g, ready, queues, boxes, moves).value, m.t)
  {
    hide CanStart, InQueues, InBoxes, Inv, Order;
    RunKeepsKernel(g, ready, queues, boxes, moves);
    var k := RunAll(g, ready, queues, boxes, moves).value;
    InHandsOnly(g, k.s, m.t);
    assert KeptOk(k, m.t);
  }

  /** and not into the ready list. */
  lemma ReadyUnlinked(g: Config, ready: seq<nat>, queues: nat, boxes: nat, moves: seq<Move>, m: Move, t: nat)
    requires CanStart(g, ready) && RunAll(g, ready, queues, boxes, moves).Some?
    requires Possible(g, RunAll(g, ready, queues, boxes, moves).value, m)
    requires (var k := RunAll(g, ready, queues, boxes, moves).value; Do(g, k, m).s.ready == k.s.ready + [t])
    ensures !Linked(RunAll(g, ready, queues, boxes, moves).value, t)
  {
    hide CanStart, InQueues, InBoxes, Carried, SoftLock.Inv, Order, Do, Possible;
    RunKeepsKernel(g, ready, queues, boxes, moves);
    var k := RunAll(g, ready, queues, boxes, moves).value;
    var k' := Do(g, k, m);
    MoveKeeps(g, k, m);
    ReadyMoves(g, k, m);
    assert KeptOk(k, t) && KeptOk(k', t) && Placed(k'.s, t);
    assert Times(k'.s.ready, t) == Times(k.s.ready, t) + 1;
  }

  /** What changes the ready list changes no other container. */
  lemma ReadyMoves(g: Config, k: Kernel, m: Move)
    requires Possible(g, k, m) && Do(g, k, m).s.ready != k.s.ready
    ensures Do(g, k, m) == k.(s := Do(g, k, m).s)
  {
    hide Step;
  }
}
