/**
 The scheduler: the ready queue under its soft lock, the insert buffer for those that preempt a
 holder, the current task, and the requests for a context switch.
 */
module Scheduler {

  import opened Common
  import opened SoftLock
  import L = TaskList

  /** `prio` gives each task its priority; smaller numbers come first. */
  datatype Config = Config(max: nat, idle: nat, preempt: bool, prio: nat -> nat)

  datatype TaskState = Initializing | Blocked | Ready | Running | Destructing

  /** How far `accept_task` is with its task, and `pick_next` with its choice. */
  datatype Op =
    | Insert(t: nat, stage: InsertStage)
    | Pick(choice: PickStage)

  datatype InsertStage = Carrying | Flagged | Inserted
  datatype PickStage = Begin | Requeued | Chosen(next: nat) | Switched | Finished

  /** `drained` is the task that run_pended_op has taken from the buffer and not yet linked. */
  datatype Job = Job(op: Op, drained: Option<nat>)

  /**
   `parked` are the tasks in wait queues, in the sleep queue and in mailboxes; `hands` those that a
   piece of code has taken out of one place and not yet put into another. `owns` says that the
   reference to the current task is the one place of that task. `resuming` counts the calls of
   `resume` between their decrement and their check. `died` records a failure that must not occur.
   */
  datatype Sched = Sched(lock: State<Job>, ready: seq<nat>, buffer: seq<nat>, parked: multiset<nat>, hands: multiset<nat>,
                         cur: nat, owns: bool, states: map<nat, TaskState>, live: set<nat>, exist: nat,
                         suspend: nat, resuming: nat, pendingSwitch: bool, pendsv: bool, picked: bool, died: bool)

  function Elements(tasks: seq<nat>): set<nat>
  {
    set t | t in tasks
  }

  /** The scheduler starts with the idle task running and some tasks already accepted. */
  function Start(g: Config, ready: seq<nat>): Sched
  {
    Sched(SoftLock.Init(), ready, [], multiset{}, multiset{}, g.idle, true,
          (map t | t in ready :: Ready)[g.idle := TaskState.Running], Elements(ready) + {g.idle}, |ready| + 1,
          0, 0, false, false, false, false)
  }

  function StateOf(s: Sched, t: nat): TaskState
  {
    if t in s.states then s.states[t] else Initializing
  }

  function SetState(s: Sched, t: nat, st: TaskState): Sched
  {
    s.(states := s.states[t := st])
  }

  predicate Outranks(g: Config, t: nat, other: nat)
  {
    g.prio(t) < g.prio(other)
  }

  /** Request a context switch if `t` should preempt the current task. */
  function Flag(g: Config, s: Sched, t: nat): Sched
  {
    if g.preempt && Outranks(g, t, s.cur) then s.(pendingSwitch := true) else s
  }

  function Prios(g: Config, tasks: seq<nat>): (p: seq<nat>)
    ensures |p| == |tasks| && forall i {:trigger p[i]} :: 0 <= i < |tasks| ==> p[i] == g.prio(tasks[i])
  {
    seq(|tasks|, i requires 0 <= i < |tasks| => g.prio(tasks[i]))
  }

  /** The position of the first task of highest priority. */
  function Best(g: Config, tasks: seq<nat>): (k: nat)
    requires tasks != []
    ensures k < |tasks|
    ensures forall i :: 0 <= i < |tasks| ==> g.prio(tasks[k]) <= g.prio(tasks[i])
    ensures forall i :: 0 <= i < k ==> g.prio(tasks[k]) < g.prio(tasks[i])
  {
    var p := Prios(g, tasks);
    var k := L.FirstBest(p);
    assert p[k] == g.prio(tasks[k]) && forall i :: 0 <= i < |tasks| ==> p[i] == g.prio(tasks[i]);
    k
  }

  function WithJob(s: Sched, job: Job): Sched
    requires s.lock.stack != []
  {
    s.(lock := Work(s.lock, job))
  }

  /** `accept_task` with full access: compare with the current task, */
  function Compare(g: Config, s: Sched, job: Job): Sched
    requires s.lock.stack != [] && job.op.Insert?
  {
    Flag(g, WithJob(s, job.(op := Insert(job.op.t, Flagged))), job.op.t)
  }

  /** then link the task. */
  function LinkReady(s: Sched, job: Job): Sched
    requires s.lock.stack != [] && job.op.Insert?
  {
    SetState(WithJob(s, job.(op := Insert(job.op.t, Inserted))).(ready := s.ready + [job.op.t]), job.op.t, Ready)
  }

  /** `pick_next`: requeue the current task if it is running, */
  function Requeue(s: Sched, job: Job): Sched
    requires s.lock.stack != []
  {
    var s' := WithJob(s, job.(op := Pick(Requeued)));
    if StateOf(s, s.cur) == TaskState.Running then SetState(s'.(ready := s.ready + [s.cur], owns := false), s.cur, Ready)
    else if StateOf(s, s.cur) == Initializing then s'.(died := true)
    else s'
  }

  /** choose the first task of highest priority, */
  function Choose(g: Config, s: Sched, job: Job): Sched
    requires s.lock.stack != []
  {
    if s.ready == [] then s.(died := true)
    else
      var k := Best(g, s.ready);
      SetState(WithJob(s, job.(op := Pick(Chosen(s.ready[k])))).(ready := L.Without(s.ready, k)), s.ready[k], TaskState.Running)
  }

  /** make it current, which drops a task that has ended, */
  function Switch(s: Sched, job: Job, next: nat): Sched
    requires s.lock.stack != []
  {
    var s' := WithJob(s, job.(op := Pick(Switched))).(cur := next, owns := true);
    if StateOf(s, s.cur) == Destructing then s'.(live := s.live - {s.cur}, exist := if s.exist > 0 then s.exist - 1 else 0)
    else s'
  }

  /** and clear the request. */
  function ClearRequest(s: Sched, job: Job): Sched
    requires s.lock.stack != []
  {
    WithJob(s, job.(op := Pick(Finished))).(pendingSwitch := false, picked := true)
  }

  function OpStep(g: Config, s: Sched, job: Job): Sched
    requires s.lock.stack != []
  {
    match job.op
    case Insert(_, stage) => if stage == Carrying then Compare(g, s, job) else LinkReady(s, job)
    case Pick(choice) =>
      match choice
      case Begin => Requeue(s, job)
      case Requeued => Choose(g, s, job)
      case Chosen(next) => Switch(s, job, next)
      case _ => ClearRequest(s, job)
  }

  predicate OpDone(op: Op)
  {
    (op.Insert? && op.stage == Inserted) || (op.Pick? && op.choice == Finished)
  }

  /** A pend-only `accept_task` puts its task into the buffer. */
  function PendInsert(g: Config, s: Sched, job: Job): Sched
    requires s.lock.stack != [] && job.op.Insert?
  {
    var s' := s.(lock := Advance(Work(s.lock, job.(op := Insert(job.op.t, Inserted)))));
    if |s.buffer| < g.max then s'.(buffer := s.buffer + [job.op.t]) else s'.(died := true)
  }

  /** run_pended_op takes a task from the buffer, */
  function Drain(s: Sched, job: Job): Sched
    requires s.lock.stack != [] && s.buffer != []
  {
    WithJob(s, job.(drained := Some(s.buffer[0]))).(buffer := s.buffer[1..])
  }

  /** compares it with the current task and links it. */
  function LinkDrained(g: Config, s: Sched, job: Job): Sched
    requires s.lock.stack != [] && job.drained.Some?
  {
    var t := job.drained.value;
    SetState(Flag(g, WithJob(s, job.(drained := None)), t).(ready := s.ready + [t]), t, Ready)
  }

  /** The next atomic step of the access on top. */
  function Step(g: Config, s: Sched): Sched
    requires s.lock.stack != []
  {
    var c := Top(s.lock);
    if c.phase == Full && !OpDone(c.job.op) then OpStep(g, s, c.job)
    else if c.phase == PendOp && c.job.op.Insert? then PendInsert(g, s, c.job)
    else if c.phase == Phase.Running && c.job.drained.Some? then LinkDrained(g, s, c.job)
    else if c.phase == Phase.Running && s.buffer != [] then Drain(s, c.job)
    else s.(lock := Advance(s.lock))
  }

  datatype Action =
    | Create(t: nat)       // a new task under the quota
    | BeginBlock           // the current task marks itself blocked
    | Park(t: nat)         // and is put into a container
    | Unpark(t: nat)       // a notifier or the clock takes it out
    | Destruct             // the current task ends
    | Yield
    | Suspend
    | FetchSub
    | CheckResume
    | Accept(t: nat)       // accept_task
    | PendSV               // pick_next
    | Go

  /** The idle task never blocks and never ends. Every open access holds one suspension. */
  predicate Enabled(g: Config, s: Sched, a: Action)
  {
    match a
    case Create(t) => t !in s.live && s.exist < g.max
    case BeginBlock => s.owns && s.cur != g.idle && s.lock.stack == []
    case Park(t) => t in s.hands
    case Unpark(t) => t in s.parked
    case Destruct => s.owns && s.cur != g.idle && s.lock.stack == []
    case Yield => s.lock.stack == []
    case Suspend => true
    case FetchSub => s.suspend > |s.lock.stack|
    case CheckResume => s.resuming > 0
    case Accept(t) => t in s.hands && s.suspend > |s.lock.stack|
    case PendSV => s.pendsv && s.suspend == 0 && s.lock.stack == []
    case Go => s.lock.stack != []
  }

  function Apply(g: Config, s: Sched, a: Action): Sched
    requires Enabled(g, s, a)
  {
    match a
    case Create(t) => SetState(s.(live := s.live + {t}, exist := s.exist + 1, hands := s.hands + multiset{t}), t, Initializing)
    case BeginBlock => SetState(s.(owns := false, hands := s.hands + multiset{s.cur}), s.cur, Blocked)
    case Park(t) => s.(hands := s.hands - multiset{t}, parked := s.parked + multiset{t})
    case Unpark(t) => s.(parked := s.parked - multiset{t}, hands := s.hands + multiset{t})
    case Destruct => SetState(s.(owns := false, pendsv := true), s.cur, Destructing)
    case Yield => s.(pendsv := true)
    case Suspend => s.(suspend := s.suspend + 1)
    case FetchSub => s.(suspend := s.suspend - 1, resuming := s.resuming + 1)
    case CheckResume => s.(resuming := s.resuming - 1, pendsv := s.pendsv || (s.suspend == 0 && s.pendingSwitch))
    case Accept(t) => s.(hands := s.hands - multiset{t}, lock := Arrive(s.lock, false, Job(Insert(t, Carrying), None)))
    case PendSV => s.(pendsv := false, suspend := 1, lock := Arrive(s.lock, true, Job(Pick(Begin), None)))
    case Go => Step(g, s)
  }

  // ---------- Who holds which task ----------

  /** Whether one access holds task `t`. */
  function Carries(job: Job, t: nat): nat
  {
    (if (job.op.Insert? && job.op.t == t && job.op.stage != Inserted) || job.op == Pick(Chosen(t)) then 1 else 0)
    + (if job.drained == Some(t) then 1 else 0)
  }

  function Carried(stack: seq<Ctx<Job>>, t: nat): nat
  {
    if stack == [] then 0 else Carried(stack[..|stack| - 1], t) + Carries(stack[|stack| - 1].job, t)
  }

  /** The number of places that hold task `t`. */
  ghost function Places(s: Sched, t: nat): nat
  {
    multiset(s.ready)[t] + multiset(s.buffer)[t] + s.parked[t] + s.hands[t] + Carried(s.lock.stack, t)
    + (if s.owns && s.cur == t then 1 else 0)
  }

  ghost predicate JobOk(c: Ctx<Job>)
  {
    && (c.must <==> c.job.op.Pick?)
    && (c.job.drained.Some? ==> c.phase == Phase.Running)
    && (c.phase == Enter || c.phase == PendOp ==> c.job.op == Pick(Begin) || (c.job.op.Insert? && c.job.op.stage == Carrying))
    && (!OpDone(c.job.op) ==> c.phase == Enter || c.phase == Full || c.phase == PendOp)
  }

  /** `pick_next` is past requeueing and has not switched yet. */
  predicate Choosing(s: Sched)
  {
    s.lock.stack != [] && (s.lock.stack[0].job.op == Pick(Requeued) || (s.lock.stack[0].job.op.Pick? && s.lock.stack[0].job.op.choice.Chosen?))
  }

  /** Each live task that is not about to be dropped is in exactly one place, every other one in none. */
  ghost predicate Placed(s: Sched, t: nat)
  {
    Places(s, t) == if t in s.live && StateOf(s, t) != Destructing then 1 else 0
  }

  ghost predicate AllPlaced(s: Sched)
  {
    forall t {:trigger Placed(s, t)} :: Placed(s, t)
  }

  /** The current task, the task just chosen, and the quota. */
  ghost predicate CurrentOk(g: Config, s: Sched)
  {
    && g.idle in s.live && s.cur in s.live && s.exist == |s.live| <= g.max
    && (s.owns ==> !Choosing(s))
    && (!Choosing(s) ==> (s.owns <==> StateOf(s, s.cur) == TaskState.Running))
    && StateOf(s, s.cur) != Initializing
    && (s.lock.stack != [] && s.lock.stack[0].job.op.Pick? && s.lock.stack[0].job.op.choice.Chosen? ==>
        StateOf(s, s.lock.stack[0].job.op.choice.next) == TaskState.Running)
  }

  /** The idle task is current, ready, or just chosen. */
  ghost predicate IdleOk(g: Config, s: Sched)
  {
    && StateOf(s, g.idle) != Destructing && g.idle !in s.parked && g.idle !in s.hands && g.idle !in s.buffer
    && (forall i {:trigger s.lock.stack[i]} :: 0 <= i < |s.lock.stack| ==>
        s.lock.stack[i].job.drained != Some(g.idle) && (s.lock.stack[i].job.op.Insert? ==> s.lock.stack[i].job.op.t != g.idle))
  }

  ghost predicate Jobs(s: Sched)
  {
    forall i {:trigger s.lock.stack[i]} :: 0 <= i < |s.lock.stack| ==> JobOk(s.lock.stack[i])
  }

  ghost predicate Inv(g: Config, s: Sched)
  {
    SoftLock.Inv(s.lock) && Jobs(s) && AllPlaced(s) && CurrentOk(g, s) && IdleOk(g, s) && !s.died
  }

  // ---------- Counting ----------

  lemma CarriedOnTop(below: seq<Ctx<Job>>, c: Ctx<Job>, t: nat)
    ensures Carried(below + [c], t) == Carried(below, t) + Carries(c.job, t)
  {
    assert (below + [c])[..|below|] == below;
  }

  /** The contexts below the top one, and the top one. */
  lemma Unstack(g: Config, s: Sched) returns (below: seq<Ctx<Job>>, c: Ctx<Job>)
    requires SoftLock.Inv(s.lock) && Jobs(s) && s.lock.stack != []
    ensures s.lock.stack == below + [c] && c == Top(s.lock) && |below| == |s.lock.stack| - 1 && JobOk(c)
    ensures c.must ==> below == [] && c.phase != PendOp && c.phase != PendDone && (c.phase == Enter ==> !s.lock.locked)
    ensures HoldsLock(c.phase) ==> forall i :: 0 <= i < |below| ==> below[i].phase == Enter || Rechecks(below[i].phase)
    ensures HoldsLock(c.phase) && c.job.op.Insert? ==> !Choosing(s)
  {
    below, c := s.lock.stack[..|s.lock.stack| - 1], Top(s.lock);
    assert s.lock.stack == below + [c];
    assert s.lock.stack[|below|] == c;
    if c.must { MustFacts(s.lock); }
    if HoldsLock(c.phase) {
      TopHolds(s.lock);
      assert forall i :: 0 <= i < |below| ==> s.lock.stack[i] == below[i];
      assert JobOk(s.lock.stack[0]);
    }
  }

  lemma WithoutCount(tasks: seq<nat>, k: nat)
    requires k < |tasks|
    ensures multiset(tasks) == multiset(L.Without(tasks, k)) + multiset{tasks[k]}
  {
    assert tasks == tasks[..k] + [tasks[k]] + tasks[k + 1..];
  }

  /** Tasks in one list that are all live and in one place each are no more than the live tasks. */
  lemma {:induction false} DistinctFits(tasks: seq<nat>, live: set<nat>)
    requires forall t :: multiset(tasks)[t] <= if t in live then 1 else 0
    ensures |tasks| <= |live|
    decreases |tasks|
  {
    if tasks != [] {
      var x := tasks[0];
      assert tasks == [x] + tasks[1..];
      assert multiset(tasks) == multiset{x} + multiset(tasks[1..]);
      assert x in live by { assert multiset(tasks)[x] >= 1; }
      forall t ensures multiset(tasks[1..])[t] <= if t in live - {x} then 1 else 0 {
        assert multiset(tasks)[t] == multiset{x}[t] + multiset(tasks[1..])[t];
      }
      DistinctFits(tasks[1..], live - {x});
    }
  }

  // ---------- Steps of the task that owns the CPU, and of notifiers ----------

  lemma CreateKeeps(g: Config, s: Sched, t: nat)
    requires Inv(g, s) && Enabled(g, s, Create(t))
    ensures AllPlaced(Apply(g, s, Create(t))) && CurrentOk(g, Apply(g, s, Create(t))) && IdleOk(g, Apply(g, s, Create(t)))
  {
    hide SoftLock.Inv, Carried, JobOk;
    var s' := Apply(g, s, Create(t));
    assert Placed(s, t);
    forall u ensures Placed(s', u) { assert Placed(s, u); }
    ChosenIsLive(g, s);
  }

  /** The task just chosen is live. */
  lemma ChosenIsLive(g: Config, s: Sched)
    requires AllPlaced(s)
    ensures s.lock.stack != [] && s.lock.stack[0].job.op.Pick? && s.lock.stack[0].job.op.choice.Chosen? ==>
      s.lock.stack[0].job.op.choice.next in s.live
  {
    if s.lock.stack != [] && s.lock.stack[0].job.op.Pick? && s.lock.stack[0].job.op.choice.Chosen? {
      var next := s.lock.stack[0].job.op.choice.next;
      assert Placed(s, next);
      CarriedAtLeast(s.lock.stack, 0, next);
    }
  }

  lemma {:induction false} CarriedAtLeast(stack: seq<Ctx<Job>>, i: nat, t: nat)
    requires i < |stack|
    ensures Carried(stack, t) >= Carries(stack[i].job, t)
  {
    if i < |stack| - 1 { CarriedAtLeast(stack[..|stack| - 1], i, t); }
  }

  /** The current task leaves the CPU: it blocks or ends. */
  lemma LeaveKeeps(g: Config, s: Sched, a: Action)
    requires Inv(g, s) && Enabled(g, s, a) && (a.BeginBlock? || a.Destruct?)
    ensures AllPlaced(Apply(g, s, a)) && CurrentOk(g, Apply(g, s, a)) && IdleOk(g, Apply(g, s, a))
  {
    hide SoftLock.Inv, Carried, JobOk;
    var s' := Apply(g, s, a);
    assert Placed(s, s.cur);
    forall t ensures Placed(s', t) { assert Placed(s, t); }
  }

  lemma MovePlaced(g: Config, s: Sched, a: Action, u: nat)
    requires Enabled(g, s, a) && (a.Park? || a.Unpark?) && Placed(s, u)
    ensures Placed(Apply(g, s, a), u)
  {
    hide Carried;
    var s' := Apply(g, s, a);
    assert s'.parked[u] + s'.hands[u] == s.parked[u] + s.hands[u];
  }

  lemma MoveKeeps(g: Config, s: Sched, a: Action)
    requires Inv(g, s) && Enabled(g, s, a) && (a.Park? || a.Unpark?)
    ensures AllPlaced(Apply(g, s, a)) && CurrentOk(g, Apply(g, s, a)) && IdleOk(g, Apply(g, s, a))
  {
    hide SoftLock.Inv, Places, Placed, JobOk;
    var s' := Apply(g, s, a);
    forall t ensures Placed(s', t) { assert Placed(s, t); MovePlaced(g, s, a, t); }
  }

  /** Suspending and resuming move no task. */
  lemma CountersKeep(g: Config, s: Sched, a: Action)
    requires Inv(g, s) && Enabled(g, s, a) && (a.Yield? || a.Suspend? || a.FetchSub? || a.CheckResume?)
    ensures AllPlaced(Apply(g, s, a)) && CurrentOk(g, Apply(g, s, a)) && IdleOk(g, Apply(g, s, a))
  {
    hide SoftLock.Inv, Places, JobOk;
    var s' := Apply(g, s, a);
    forall t ensures Placed(s', t) { assert Placed(s, t) && Places(s', t) == Places(s, t) by { SamePlaces(s, s', t); } }
  }

  lemma SamePlaces(s: Sched, s': Sched, t: nat)
    requires s' == s.(suspend := s'.suspend, resuming := s'.resuming, pendsv := s'.pendsv, pendingSwitch := s'.pendingSwitch, picked := s'.picked)
    ensures Places(s', t) == Places(s, t)
  {
  }

  // ---------- Arrivals ----------

  lemma AcceptPlaced(g: Config, s: Sched, t: nat, u: nat)
    requires Enabled(g, s, Accept(t)) && Placed(s, u)
    ensures Placed(Apply(g, s, Accept(t)), u)
  {
    hide Carried;
    var s' := Apply(g, s, Accept(t));
    CarriedOnTop(s.lock.stack, s'.lock.stack[|s.lock.stack|], u);
    assert s'.hands[u] == s.hands[u] - (if u == t then 1 else 0);
  }

  lemma AcceptKeeps(g: Config, s: Sched, t: nat)
    requires Inv(g, s) && Enabled(g, s, Accept(t))
    ensures Inv(g, Apply(g, s, Accept(t)))
  {
    hide SoftLock.Inv, Places, Placed;
    var s' := Apply(g, s, Accept(t));
    var job := Job(Insert(t, Carrying), None);
    ApplyKeeps(s.lock, DoArrive(false, job));
    var c := Ctx(Enter, false, job, 0, s.lock.arrivals, s.lock.arrivals);
    assert s'.lock.stack == s.lock.stack + [c];
    forall i {:trigger s'.lock.stack[i]} | 0 <= i < |s'.lock.stack|
      ensures JobOk(s'.lock.stack[i])
      ensures s'.lock.stack[i].job.drained != Some(g.idle) && (s'.lock.stack[i].job.op.Insert? ==> s'.lock.stack[i].job.op.t != g.idle)
    {
      if i < |s.lock.stack| { assert s'.lock.stack[i] == s.lock.stack[i]; }
    }
    forall u ensures Placed(s', u) { assert Placed(s, u); AcceptPlaced(g, s, t, u); }
    if s.lock.stack != [] { assert s'.lock.stack[0] == s.lock.stack[0]; }
  }

  lemma PendSVKeeps(g: Config, s: Sched)
    requires Inv(g, s) && Enabled(g, s, PendSV)
    ensures Inv(g, Apply(g, s, PendSV))
  {
    hide SoftLock.Inv, Carried;
    var s' := Apply(g, s, PendSV);
    var job := Job(Pick(Begin), None);
    ApplyKeeps(s.lock, DoArrive(true, job));
    var c := Ctx(Enter, true, job, 0, s.lock.arrivals, s.lock.arrivals);
    assert s'.lock.stack == s.lock.stack + [c];
    forall u ensures Placed(s', u) {
      assert Placed(s, u);
      CarriedOnTop(s.lock.stack, c, u);
    }
  }

  // ---------- Steps of an access ----------

  /** The jobs below stay in order when the top one does. */
  lemma JobsKeep(s: Sched, s': Sched, below: seq<Ctx<Job>>, c': Ctx<Job>)
    requires Jobs(s) && |below| <= |s.lock.stack| && s.lock.stack[..|below|] == below
    requires s'.lock.stack == below + [c'] && JobOk(c')
    ensures Jobs(s')
  {
    forall i {:trigger s'.lock.stack[i]} | 0 <= i < |s'.lock.stack| ensures JobOk(s'.lock.stack[i]) {
      if i < |below| { assert s.lock.stack[i] == below[i] && JobOk(s.lock.stack[i]); }
    }
  }

  /** The idle task stays where it may be. */
  lemma IdleKeeps(g: Config, s: Sched, s': Sched, below: seq<Ctx<Job>>, c: Ctx<Job>, c': Ctx<Job>)
    requires IdleOk(g, s) && s.lock.stack == below + [c] && s'.lock.stack == below + [c']
    requires c'.job.drained != Some(g.idle) && (c'.job.op.Insert? ==> c'.job.op.t != g.idle)
    requires StateOf(s', g.idle) != Destructing && s'.parked == s.parked && s'.hands == s.hands && g.idle !in s'.buffer
    ensures IdleOk(g, s')
  {
    forall i {:trigger s'.lock.stack[i]} | 0 <= i < |s'.lock.stack|
      ensures s'.lock.stack[i].job.drained != Some(g.idle) && (s'.lock.stack[i].job.op.Insert? ==> s'.lock.stack[i].job.op.t != g.idle)
    {
      if i < |below| { assert s'.lock.stack[i] == s.lock.stack[i]; }
    }
  }

  /** A task that an access links was in no other place; in particular it is not the current task running. */
  lemma LinkedOnce(g: Config, s: Sched, below: seq<Ctx<Job>>, c: Ctx<Job>, t: nat)
    requires AllPlaced(s) && s.lock.stack == below + [c] && Carries(c.job, t) >= 1
    ensures t in s.live && StateOf(s, t) != Destructing && !(s.owns && s.cur == t) && Carries(c.job, t) == 1 && Carried(below, t) == 0
    ensures t !in s.ready && t !in s.buffer && t !in s.parked && t !in s.hands
  {
    CarriedOnTop(below, c, t);
    assert Placed(s, t);
  }

  /** The number of places of `u` when the ready list, the buffer and the top access change. */
  lemma TopPlaces(s: Sched, below: seq<Ctx<Job>>, c: Ctx<Job>, u: nat)
    requires s.lock.stack == below + [c]
    ensures Places(s, u) == multiset(s.ready)[u] + multiset(s.buffer)[u] + s.parked[u] + s.hands[u]
      + Carried(below, u) + Carries(c.job, u) + (if s.owns && s.cur == u then 1 else 0)
  {
    CarriedOnTop(below, c, u);
  }

  lemma AppendCount(tasks: seq<nat>, t: nat, u: nat)
    ensures multiset(tasks + [t])[u] == multiset(tasks)[u] + (if u == t then 1 else 0)
  {
  }

  /** The access hands its task `t` to the ready list. */
  lemma LinkPlaced(s: Sched, s': Sched, below: seq<Ctx<Job>>, c: Ctx<Job>, c': Ctx<Job>, t: nat, u: nat)
    requires s.lock.stack == below + [c] && s'.lock.stack == below + [c'] && Placed(s, u)
    requires s'.ready == s.ready + [t] && s'.buffer == s.buffer && s'.parked == s.parked && s'.hands == s.hands
    requires s'.cur == s.cur && s'.owns == s.owns && s'.live == s.live
    requires Carries(c.job, u) == Carries(c'.job, u) + (if u == t then 1 else 0)
    requires StateOf(s', u) == Destructing <==> StateOf(s, u) == Destructing
    ensures Placed(s', u)
  {
    hide Carried, Carries, StateOf;
    TopPlaces(s, below, c, u);
    TopPlaces(s', below, c', u);
    AppendCount(s.ready, t, u);
    hide Places;
  }

  /** Only the job of the top access changes, and not in what it carries. */
  lemma SamePlaced(s: Sched, s': Sched, below: seq<Ctx<Job>>, c: Ctx<Job>, c': Ctx<Job>, u: nat)
    requires s.lock.stack == below + [c] && s'.lock.stack == below + [c'] && Placed(s, u)
    requires s'.ready == s.ready && s'.buffer == s.buffer && s'.parked == s.parked && s'.hands == s.hands
    requires s'.cur == s.cur && s'.owns == s.owns && s'.live == s.live && s'.states == s.states
    requires Carries(c.job, u) == Carries(c'.job, u)
    ensures Placed(s', u)
  {
    hide Carried, Carries, StateOf;
    TopPlaces(s, below, c, u);
    TopPlaces(s', below, c', u);
    assert StateOf(s', u) == StateOf(s, u) by { SameState(s, s', u); }
    hide Places;
  }

  lemma SameState(s: Sched, s': Sched, u: nat)
    requires s'.states == s.states
    ensures StateOf(s', u) == StateOf(s, u)
  {
  }

  // ---------- accept_task ----------

  /** The lock's part of an operation's step. */
  lemma WorkKeepsLock(s: Sched, s': Sched, below: seq<Ctx<Job>>, c: Ctx<Job>, job: Job) returns (c': Ctx<Job>)
    requires SoftLock.Inv(s.lock) && Jobs(s) && s.lock.stack == below + [c] && c == Top(s.lock) && (c.phase == Full || c.phase == Phase.Running)
    requires s'.lock == Work(s.lock, job) && JobOk(c.(job := job))
    ensures c' == c.(job := job) && s'.lock.stack == below + [c'] && SoftLock.Inv(s'.lock) && Jobs(s')
  {
    hide SoftLock.Inv, JobOk;
    c' := c.(job := job);
    assert s'.lock.stack == below + [c'];
    ApplyKeeps(s.lock, DoWork(job));
    JobsKeep(s, s', below, c');
  }

  lemma CompareKeeps(g: Config, s: Sched, below: seq<Ctx<Job>>, c: Ctx<Job>)
    requires Inv(g, s) && s.lock.stack == below + [c] && c == Top(s.lock) && c.phase == Full && JobOk(c)
    requires c.job.op.Insert? && c.job.op.stage == Carrying
    ensures Inv(g, Compare(g, s, c.job))
  {
    hide SoftLock.Inv, Places, Placed, Outranks, Jobs, Carries;
    var s' := Compare(g, s, c.job);
    var c' := WorkKeepsLock(s, s', below, c, c.job.(op := Insert(c.job.op.t, Flagged)));
    assert s.lock.stack[|below|] == c;
    IdleKeeps(g, s, s', below, c, c');
    if below != [] { assert s'.lock.stack[0] == s.lock.stack[0]; }
    forall u ensures Placed(s', u) {
      assert Placed(s, u);
      assert Carries(c'.job, u) == Carries(c.job, u) by { SameCarry(c.job, c'.job, u); }
      SamePlaced(s, s', below, c, c', u);
    }
  }

  /** The stages of accept_task before linking carry the same task; the stages of pick_next around choosing carry none. */
  lemma SameCarry(job: Job, job': Job, u: nat)
    requires job.drained == job'.drained
    requires (job.op.Insert? && job'.op.Insert? && job.op.t == job'.op.t && job.op.stage != Inserted && job'.op.stage != Inserted)
      || (job.op.Pick? && job'.op.Pick? && !job.op.choice.Chosen? && !job'.op.choice.Chosen?)
    ensures Carries(job, u) == Carries(job', u)
  {
  }

  lemma LinkReadyKeeps(g: Config, s: Sched, below: seq<Ctx<Job>>, c: Ctx<Job>)
    requires Inv(g, s) && s.lock.stack == below + [c] && c == Top(s.lock) && c.phase == Full && JobOk(c)
    requires c.job.op.Insert? && c.job.op.stage == Flagged && !Choosing(s)
    ensures Inv(g, LinkReady(s, c.job))
  {
    hide SoftLock.Inv, Places, Placed, Jobs;
    var s' := LinkReady(s, c.job);
    var t := c.job.op.t;
    var c' := WorkKeepsLock(s, s', below, c, c.job.(op := Insert(t, Inserted)));
    assert s.lock.stack[|below|] == c;
    LinkedOnce(g, s, below, c, t);
    IdleKeeps(g, s, s', below, c, c');
    if below != [] { assert s'.lock.stack[0] == s.lock.stack[0]; }
    forall u ensures Placed(s', u) {
      assert Placed(s, u);
      LinkPlaced(s, s', below, c, c', t, u);
    }
  }

  // ---------- pick_next ----------

  /** Where the idle task is when `pick_next` is about to choose. */
  lemma IdleIsReady(g: Config, s: Sched, c: Ctx<Job>)
    requires AllPlaced(s) && CurrentOk(g, s) && IdleOk(g, s) && s.lock.stack == [c] && c.job.op == Pick(Requeued) && c.job.drained == None
    ensures s.ready != []
  {
    assert Placed(s, g.idle);
    assert s.lock.stack == [] + [c];
    CarriedOnTop([], c, g.idle);
    assert multiset(s.ready)[g.idle] == 1;
  }

  lemma ReadyIsLive(s: Sched, k: nat)
    requires AllPlaced(s) && k < |s.ready|
    ensures s.ready[k] in s.live && StateOf(s, s.ready[k]) != Destructing
  {
    assert Placed(s, s.ready[k]);
    assert multiset(s.ready)[s.ready[k]] >= 1;
  }

  /** The running current task goes back to the ready list. */
  lemma RequeuePlaced(s: Sched, s': Sched, c: Ctx<Job>, c': Ctx<Job>, u: nat)
    requires s.lock.stack == [c] && s'.lock.stack == [c'] && Placed(s, u) && s.owns && !s'.owns
    requires s'.ready == s.ready + [s.cur] && s'.buffer == s.buffer && s'.parked == s.parked && s'.hands == s.hands && s'.live == s.live
    requires Carries(c.job, u) == Carries(c'.job, u)
    requires StateOf(s', u) == Destructing <==> StateOf(s, u) == Destructing
    ensures Placed(s', u)
  {
    hide Carried, Carries, StateOf;
    assert s.lock.stack == [] + [c] && s'.lock.stack == [] + [c'];
    TopPlaces(s, [], c, u);
    TopPlaces(s', [], c', u);
    AppendCount(s.ready, s.cur, u);
    hide Places;
  }

  lemma RequeueKeeps(g: Config, s: Sched, c: Ctx<Job>)
    requires Inv(g, s) && s.lock.stack == [c] && c.phase == Full && JobOk(c) && c.job == Job(Pick(Begin), None)
    ensures Inv(g, Requeue(s, c.job))
  {
    hide SoftLock.Inv, Places, Placed, Jobs;
    var s' := Requeue(s, c.job);
    assert s.lock.stack == [] + [c];
    var c' := WorkKeepsLock(s, s', [], c, Job(Pick(Requeued), None));
    IdleKeeps(g, s, s', [], c, c');
    forall u ensures Placed(s', u) {
      assert Placed(s, u);
      SameCarry(c.job, c'.job, u);
      if s.owns { RequeuePlaced(s, s', c, c', u); } else { SamePlaced(s, s', [], c, c', u); }
    }
  }

  /** The chosen task moves from the ready list to `pick_next`. */
  lemma ChoosePlaced(s: Sched, s': Sched, c: Ctx<Job>, c': Ctx<Job>, k: nat, u: nat)
    requires s.lock.stack == [c] && s'.lock.stack == [c'] && Placed(s, u) && k < |s.ready|
    requires s'.ready == L.Without(s.ready, k) && s'.buffer == s.buffer && s'.parked == s.parked && s'.hands == s.hands
    requires s'.live == s.live && s'.cur == s.cur && s'.owns == s.owns
    requires Carries(c'.job, u) == Carries(c.job, u) + (if u == s.ready[k] then 1 else 0)
    requires StateOf(s', u) == Destructing <==> StateOf(s, u) == Destructing
    ensures Placed(s', u)
  {
    hide Carried, Carries, StateOf;
    assert s.lock.stack == [] + [c] && s'.lock.stack == [] + [c'];
    TopPlaces(s, [], c, u);
    TopPlaces(s', [], c', u);
    WithoutCount(s.ready, k);
    assert multiset(s.ready)[u] == multiset(s'.ready)[u] + multiset{s.ready[k]}[u];
    hide Places;
  }

  lemma ChooseKeeps(g: Config, s: Sched, c: Ctx<Job>)
    requires Inv(g, s) && s.lock.stack == [c] && c.phase == Full && JobOk(c) && c.job == Job(Pick(Requeued), None)
    ensures s.ready != [] && Inv(g, Choose(g, s, c.job))
  {
    hide SoftLock.Inv, Places, Placed, Jobs, Best;
    IdleIsReady(g, s, c);
    var k := Best(g, s.ready);
    ReadyIsLive(s, k);
    var s' := Choose(g, s, c.job);
    assert s.lock.stack == [] + [c];
    var c' := WorkKeepsLock(s, s', [], c, Job(Pick(Chosen(s.ready[k])), None));
    IdleKeeps(g, s, s', [], c, c');
    forall u ensures Placed(s', u) {
      assert Placed(s, u);
      ChoosePlaced(s, s', c, c', k, u);
    }
  }

  /** The chosen task becomes current; a task that has ended is dropped. */
  lemma SwitchPlaced(s: Sched, s': Sched, c: Ctx<Job>, c': Ctx<Job>, next: nat, u: nat)
    requires s.lock.stack == [c] && s'.lock.stack == [c'] && Placed(s, u) && !s.owns && s'.owns && s'.cur == next
    requires s'.ready == s.ready && s'.buffer == s.buffer && s'.parked == s.parked && s'.hands == s.hands && s'.states == s.states
    requires s'.live == s.live || (s'.live == s.live - {s.cur} && StateOf(s, s.cur) == Destructing)
    requires Carries(c.job, u) == Carries(c'.job, u) + (if u == next then 1 else 0)
    ensures Placed(s', u)
  {
    hide Carried, Carries, StateOf;
    assert s.lock.stack == [] + [c] && s'.lock.stack == [] + [c'];
    TopPlaces(s, [], c, u);
    TopPlaces(s', [], c', u);
    SameState(s, s', u);
    hide Places;
  }

  lemma SwitchKeeps(g: Config, s: Sched, c: Ctx<Job>)
    requires Inv(g, s) && s.lock.stack == [c] && c.phase == Full && JobOk(c) && c.job.op.Pick? && c.job.op.choice.Chosen? && c.job.drained == None
    ensures Inv(g, Switch(s, c.job, c.job.op.choice.next))
  {
    hide SoftLock.Inv, Places, Placed, Jobs;
    var next := c.job.op.choice.next;
    var s' := Switch(s, c.job, next);
    assert s.lock.stack == [] + [c];
    LinkedOnce(g, s, [], c, next);
    var c' := WorkKeepsLock(s, s', [], c, Job(Pick(Switched), None));
    IdleKeeps(g, s, s', [], c, c');
    SameState(s, s', next);
    forall u ensures Placed(s', u) {
      assert Placed(s, u);
      SwitchPlaced(s, s', c, c', next, u);
    }
  }

  lemma ClearKeeps(g: Config, s: Sched, c: Ctx<Job>)
    requires Inv(g, s) && s.lock.stack == [c] && c.phase == Full && JobOk(c) && c.job == Job(Pick(Switched), None)
    ensures Inv(g, ClearRequest(s, c.job))
  {
    hide SoftLock.Inv, Places, Placed, Jobs;
    var s' := ClearRequest(s, c.job);
    assert s.lock.stack == [] + [c];
    var c' := WorkKeepsLock(s, s', [], c, Job(Pick(Finished), None));
    IdleKeeps(g, s, s', [], c, c');
    forall u ensures Placed(s', u) {
      assert Placed(s, u);
      SameCarry(c.job, c'.job, u);
      SamePlaced(s, s', [], c, c', u);
    }
  }

  /** Each step of an operation under full access. */
  lemma OpKeeps(g: Config, s: Sched)
    requires Inv(g, s) && s.lock.stack != [] && Top(s.lock).phase == Full && !OpDone(Top(s.lock).job.op)
    ensures Inv(g, OpStep(g, s, Top(s.lock).job))
  {
    hide Inv, Compare, LinkReady, Requeue, Choose, Switch, ClearRequest;
    OpenInv(g, s);
    var below, c := Unstack(g, s);
    match c.job.op {
      case Insert(_, stage) => if stage == Carrying { CompareKeeps(g, s, below, c); } else { LinkReadyKeeps(g, s, below, c); }
      case Pick(choice) =>
        assert s.lock.stack == [c] && c.job == Job(Pick(choice), None);
        match choice {
          case Begin => RequeueKeeps(g, s, c);
          case Requeued => ChooseKeeps(g, s, c);
          case Chosen(_) => SwitchKeeps(g, s, c);
          case Switched => ClearKeeps(g, s, c);
        }
    }
  }

  lemma OpenInv(g: Config, s: Sched)
    requires Inv(g, s)
    ensures SoftLock.Inv(s.lock) && Jobs(s)
  {
  }

  // ---------- The insert buffer ----------

  /** There is room in the buffer for one more live task. */
  lemma BufferHasRoom(g: Config, s: Sched, below: seq<Ctx<Job>>, c: Ctx<Job>, t: nat)
    requires AllPlaced(s) && CurrentOk(g, s) && s.lock.stack == below + [c] && Carries(c.job, t) >= 1
    ensures |s.buffer| < g.max
  {
    hide Placed, Places;
    LinkedOnce(g, s, below, c, t);
    forall u ensures multiset(s.buffer + [t])[u] <= if u in s.live then 1 else 0 {
      assert Placed(s, u);
      BufferedOnce(s, u);
      AppendCount(s.buffer, t, u);
    }
    DistinctFits(s.buffer + [t], s.live);
  }

  lemma BufferedOnce(s: Sched, u: nat)
    requires Placed(s, u)
    ensures multiset(s.buffer)[u] <= if u in s.live then 1 else 0
  {
  }

  lemma PendPlaced(s: Sched, s': Sched, below: seq<Ctx<Job>>, c: Ctx<Job>, c': Ctx<Job>, t: nat, u: nat)
    requires s.lock.stack == below + [c] && s'.lock.stack == below + [c'] && Placed(s, u)
    requires s' == s.(lock := s'.lock, buffer := s.buffer + [t])
    requires Carries(c.job, u) == Carries(c'.job, u) + (if u == t then 1 else 0)
    ensures Placed(s', u)
  {
    hide Carried, Carries, StateOf;
    TopPlaces(s, below, c, u);
    TopPlaces(s', below, c', u);
    AppendCount(s.buffer, t, u);
    SameState(s, s', u);
    hide Places;
  }

  lemma PendPlacedAll(s: Sched, s': Sched, below: seq<Ctx<Job>>, c: Ctx<Job>, c': Ctx<Job>, t: nat)
    requires s.lock.stack == below + [c] && s'.lock.stack == below + [c'] && AllPlaced(s)
    requires s' == s.(lock := s'.lock, buffer := s.buffer + [t])
    requires c.job.op == Insert(t, Carrying) && c'.job == c.job.(op := Insert(t, Inserted))
    ensures AllPlaced(s')
  {
    hide Placed;
    forall u ensures Placed(s', u) {
      assert Placed(s, u);
      PendPlaced(s, s', below, c, c', t, u);
    }
  }

  lemma PendLock(l: State<Job>, below: seq<Ctx<Job>>, c: Ctx<Job>, job: Job) returns (c': Ctx<Job>)
    requires SoftLock.Inv(l) && l.stack == below + [c] && c == Top(l) && c.phase == PendOp
    ensures c' == c.(job := job, phase := PendDone)
    ensures SoftLock.Inv(Advance(Work(l, job))) && Advance(Work(l, job)).stack == below + [c']
  {
    var done := c.(job := job);
    assert Work(l, job).stack == below + [done];
    SoftLock.WorkIsInv(l, job);
    AdvanceOnTop(Work(l, job), below, done);
    ApplyKeeps(Work(l, job), DoAdvance);
    c' := done.(phase := PendDone);
  }

  lemma PendInsertKeeps(g: Config, s: Sched, below: seq<Ctx<Job>>, c: Ctx<Job>)
    requires Inv(g, s) && s.lock.stack == below + [c] && c == Top(s.lock) && c.phase == PendOp && JobOk(c) && c.job.op.Insert?
    ensures Inv(g, PendInsert(g, s, c.job))
  {
    hide SoftLock.Inv, Places, Placed, Jobs, Advance, AllPlaced;
    var s' := PendInsert(g, s, c.job);
    var t := c.job.op.t;
    var c' := PendLock(s.lock, below, c, c.job.(op := Insert(t, Inserted)));
    JobsKeep(s, s', below, c');
    BufferHasRoom(g, s, below, c, t);
    assert s.lock.stack[|below|] == c;
    IdleKeeps(g, s, s', below, c, c');
    if below != [] { assert s'.lock.stack[0] == s.lock.stack[0]; }
    PendPlacedAll(s, s', below, c, c', t);
  }

  lemma DrainPlaced(s: Sched, s': Sched, below: seq<Ctx<Job>>, c: Ctx<Job>, c': Ctx<Job>, u: nat)
    requires s.lock.stack == below + [c] && s'.lock.stack == below + [c'] && Placed(s, u) && s.buffer != []
    requires s' == s.(lock := s'.lock, buffer := s.buffer[1..])
    requires Carries(c'.job, u) == Carries(c.job, u) + (if u == s.buffer[0] then 1 else 0)
    ensures Placed(s', u)
  {
    hide Carried, Carries, StateOf;
    TopPlaces(s, below, c, u);
    TopPlaces(s', below, c', u);
    assert s.buffer == [s.buffer[0]] + s.buffer[1..];
    assert multiset(s.buffer)[u] == multiset([s.buffer[0]])[u] + multiset(s.buffer[1..])[u];
    SameState(s, s', u);
    hide Places;
  }

  lemma DrainKeeps(g: Config, s: Sched, below: seq<Ctx<Job>>, c: Ctx<Job>)
    requires Inv(g, s) && s.lock.stack == below + [c] && c == Top(s.lock) && c.phase == Phase.Running && JobOk(c)
    requires c.job.drained == None && s.buffer != []
    ensures Inv(g, Drain(s, c.job))
  {
    hide SoftLock.Inv, Places, Placed, Jobs;
    var s' := Drain(s, c.job);
    assert s.buffer[0] in s.buffer && forall x :: x in s.buffer[1..] ==> x in s.buffer;
    var c' := WorkKeepsLock(s, s', below, c, c.job.(drained := Some(s.buffer[0])));
    assert s.lock.stack[|below|] == c;
    IdleKeeps(g, s, s', below, c, c');
    if below != [] { assert s'.lock.stack[0] == s.lock.stack[0]; }
    forall u ensures Placed(s', u) {
      assert Placed(s, u);
      DrainPlaced(s, s', below, c, c', u);
    }
  }

  lemma LinkDrainedKeeps(g: Config, s: Sched, below: seq<Ctx<Job>>, c: Ctx<Job>)
    requires Inv(g, s) && s.lock.stack == below + [c] && c == Top(s.lock) && c.phase == Phase.Running && JobOk(c)
    requires c.job.drained.Some? && !Choosing(s)
    ensures Inv(g, LinkDrained(g, s, c.job))
  {
    hide SoftLock.Inv, Places, Placed, Jobs, Outranks, AllPlaced, Carried, Work;
    var s' := LinkDrained(g, s, c.job);
    var t := c.job.drained.value;
    var c' := WorkKeepsLock(s, s', below, c, c.job.(drained := None));
    assert s.lock.stack[|below|] == c;
    LinkedOnce(g, s, below, c, t);
    IdleKeeps(g, s, s', below, c, c');
    if below != [] { assert s'.lock.stack[0] == s.lock.stack[0]; }
    DrainedPlacedAll(s, s', below, c, c', t);
  }

  lemma DrainedPlacedAll(s: Sched, s': Sched, below: seq<Ctx<Job>>, c: Ctx<Job>, c': Ctx<Job>, t: nat)
    requires s.lock.stack == below + [c] && s'.lock.stack == below + [c'] && AllPlaced(s)
    requires s'.ready == s.ready + [t] && s'.buffer == s.buffer && s'.parked == s.parked && s'.hands == s.hands
    requires s'.cur == s.cur && s'.owns == s.owns && s'.live == s.live
    requires c.job.drained == Some(t) && c'.job == c.job.(drained := None)
    requires forall u {:trigger StateOf(s', u)} :: StateOf(s', u) == Destructing <==> StateOf(s, u) == Destructing
    ensures AllPlaced(s')
  {
    hide Placed, StateOf;
    forall u ensures Placed(s', u) {
      assert Placed(s, u) && (StateOf(s', u) == Destructing <==> StateOf(s, u) == Destructing);
      LinkPlaced(s, s', below, c, c', t, u);
    }
  }

  // ---------- The remaining steps belong to the lock alone ----------

  lemma LockStepPlaced(s: Sched, s': Sched, below: seq<Ctx<Job>>, c: Ctx<Job>, u: nat)
    requires s.lock.stack == below + [c] && Placed(s, u) && s' == s.(lock := s'.lock)
    requires (s'.lock.stack == below && Carries(c.job, u) == 0) || (exists c' :: s'.lock.stack == below + [c'] && c'.job == c.job)
    ensures Placed(s', u)
  {
    hide Carried, Carries, StateOf;
    TopPlaces(s, below, c, u);
    SameState(s, s', u);
    if s'.lock.stack != below {
      var c' :| s'.lock.stack == below + [c'] && c'.job == c.job;
      TopPlaces(s', below, c', u);
      hide Places;
    }
  }

  lemma LockStepKeeps(g: Config, s: Sched, below: seq<Ctx<Job>>, c: Ctx<Job>)
    requires Inv(g, s) && s.lock.stack == below + [c] && c == Top(s.lock) && JobOk(c)
    requires c.phase != PendOp && (c.phase == Full ==> OpDone(c.job.op)) && (c.phase == Phase.Running ==> c.job.drained == None)
    requires c.must ==> below == [] && c.phase != PendDone && (c.phase == Enter ==> !s.lock.locked)
    ensures Inv(g, s.(lock := Advance(s.lock)))
  {
    hide SoftLock.Inv, Places, Placed, Jobs, Advance;
    var s' := s.(lock := Advance(s.lock));
    AdvanceOnTop(s.lock, below, c);
    ApplyKeeps(s.lock, DoAdvance);
    assert s.lock.stack[|below|] == c;
    if s'.lock.stack == below {
      LeavingKeeps(g, s, s', below, c);
    } else {
      var c' := NextCtx(s.lock, c);
      JobsKeep(s, s', below, c');
      IdleKeeps(g, s, s', below, c, c');
      if below != [] { assert s'.lock.stack[0] == s.lock.stack[0]; }
    }
    forall u ensures Placed(s', u) {
      assert Placed(s, u);
      if s'.lock.stack == below { NothingCarried(c.job, u); } else { assert s'.lock.stack == below + [NextCtx(s.lock, c)]; }
      LockStepPlaced(s, s', below, c, u);
    }
  }

  lemma NothingCarried(job: Job, u: nat)
    requires OpDone(job.op) && job.drained == None
    ensures Carries(job, u) == 0
  {
  }

  lemma LeavingKeeps(g: Config, s: Sched, s': Sched, below: seq<Ctx<Job>>, c: Ctx<Job>)
    requires Jobs(s) && IdleOk(g, s) && CurrentOk(g, s) && s.lock.stack == below + [c] && s' == s.(lock := s'.lock) && s'.lock.stack == below
    requires OpDone(c.job.op)
    ensures Jobs(s') && IdleOk(g, s') && CurrentOk(g, s')
  {
    forall i {:trigger s'.lock.stack[i]} | 0 <= i < |s'.lock.stack|
      ensures JobOk(s'.lock.stack[i])
      ensures s'.lock.stack[i].job.drained != Some(g.idle) && (s'.lock.stack[i].job.op.Insert? ==> s'.lock.stack[i].job.op.t != g.idle)
    {
      assert s'.lock.stack[i] == s.lock.stack[i];
    }
    if below != [] { assert s'.lock.stack[0] == s.lock.stack[0]; }
  }

  /** Every action keeps the invariant. */
  lemma StepKeeps(g: Config, s: Sched)
    requires Inv(g, s) && s.lock.stack != []
    ensures Inv(g, Step(g, s))
  {
    hide Inv, OpStep, PendInsert, Drain, LinkDrained;
    OpenInv(g, s);
    var below, c := Unstack(g, s);
    if c.phase == Full && !OpDone(c.job.op) { OpKeeps(g, s); }
    else if c.phase == PendOp { PendInsertKeeps(g, s, below, c); }
    else if c.phase == Phase.Running && c.job.drained.Some? { NotChoosingInRun(s, below, c); LinkDrainedKeeps(g, s, below, c); }
    else if c.phase == Phase.Running && s.buffer != [] { DrainKeeps(g, s, below, c); }
    else { LockStepKeeps(g, s, below, c); }
  }

  lemma NotChoosingInRun(s: Sched, below: seq<Ctx<Job>>, c: Ctx<Job>)
    requires SoftLock.Inv(s.lock) && Jobs(s) && s.lock.stack == below + [c] && c == Top(s.lock) && c.phase == Phase.Running
    ensures !Choosing(s)
  {
    TopHolds(s.lock);
    assert s.lock.stack[|below|] == c && JobOk(s.lock.stack[|below|]) && JobOk(s.lock.stack[0]);
  }

  lemma ActionKeeps(g: Config, s: Sched, a: Action)
    requires Inv(g, s) && Enabled(g, s, a)
    ensures Inv(g, Apply(g, s, a))
  {
    hide SoftLock.Inv, AllPlaced, CurrentOk, IdleOk, Step;
    match a {
      case Create(t) => CreateKeeps(g, s, t);
      case BeginBlock => LeaveKeeps(g, s, a);
      case Destruct => LeaveKeeps(g, s, a);
      case Park(_) => MoveKeeps(g, s, a);
      case Unpark(_) => MoveKeeps(g, s, a);
      case Accept(t) => AcceptKeeps(g, s, t);
      case PendSV => PendSVKeeps(g, s);
      case Go => StepKeeps(g, s);
      case _ => CountersKeep(g, s, a);
    }
  }

  // ---------- Scheduling order ----------

  /** No task in the ready list should preempt the current one. */
  ghost predicate NoneOutranks(g: Config, s: Sched)
  {
    forall t {:trigger t in s.ready} :: t in s.ready ==> !Outranks(g, t, s.cur)
  }

  /** Preemption is on, the first choice has been made, and the current task is running. */
  predicate Preemptible(g: Config, s: Sched)
  {
    g.preempt && s.picked && s.owns
  }

  /** A ready task that should preempt the running one has a switch requested for it. */
  ghost predicate Requested(g: Config, s: Sched)
  {
    Preemptible(g, s) && !s.pendingSwitch ==> NoneOutranks(g, s)
  }

  /** So has a task that has been compared and is about to be linked; and what `pick_next` has chosen is the best. */
  ghost predicate StageOk(g: Config, s: Sched, op: Op)
  {
    match op
    case Insert(t, stage) => stage == Flagged && Preemptible(g, s) && !s.pendingSwitch ==> !Outranks(g, t, s.cur)
    case Pick(choice) =>
      && (choice.Chosen? ==> forall t {:trigger t in s.ready} :: t in s.ready ==> !Outranks(g, t, choice.next))
      && (choice == Switched ==> NoneOutranks(g, s))
  }

  ghost predicate RunsAt(stack: seq<Ctx<Job>>, i: int)
  {
    0 <= i < |stack| && stack[i].phase == Phase.Running
  }

  ghost predicate Order(g: Config, s: Sched)
  {
    && Requested(g, s)
    && (forall i {:trigger s.lock.stack[i]} :: 0 <= i < |s.lock.stack| ==> StageOk(g, s, s.lock.stack[i].job.op))
    && (s.buffer != [] ==> s.lock.unserved > 0 || exists i :: RunsAt(s.lock.stack, i))
    && s.suspend >= |s.lock.stack|
    && (s.pendingSwitch ==> s.suspend > 0 || s.resuming > 0 || s.pendsv)
  }

  /** Order of the accesses below: no stage of theirs looks at what the top one changes. */
  lemma StagesKeep(g: Config, s: Sched, s': Sched, below: seq<Ctx<Job>>, c: Ctx<Job>, c': Ctx<Job>)
    requires Order(g, s) && Jobs(s) && s.lock.stack == below + [c] && s'.lock.stack == below + [c'] && StageOk(g, s', c'.job.op)
    requires (s'.ready == s.ready && s'.cur == s.cur && s'.owns == s.owns && s'.picked == s.picked && s'.pendingSwitch == s.pendingSwitch)
      || forall i :: 0 <= i < |below| ==> below[i].phase == Enter || Rechecks(below[i].phase)
    ensures forall i {:trigger s'.lock.stack[i]} :: 0 <= i < |s'.lock.stack| ==> StageOk(g, s', s'.lock.stack[i].job.op)
  {
    forall i {:trigger s'.lock.stack[i]} | 0 <= i < |s'.lock.stack| ensures StageOk(g, s', s'.lock.stack[i].job.op) {
      if i < |below| { assert s.lock.stack[i] == below[i] && JobOk(s.lock.stack[i]) && StageOk(g, s, s.lock.stack[i].job.op); }
    }
  }

  /** A holder's step that only writes its job, the ready list, the current task and the request. */
  ghost predicate Worked(s: Sched, s': Sched, job: Job)
    requires s.lock.stack != []
  {
    s'.lock == Work(s.lock, job) && s'.suspend == s.suspend && (s'.buffer != [] ==> s.buffer != [])
  }

  /** It keeps the order when it keeps the request right for the ready list and for its own stage. */
  lemma HolderOrder(g: Config, s: Sched, s': Sched, below: seq<Ctx<Job>>, c: Ctx<Job>, job: Job)
    requires Jobs(s) && Order(g, s) && s.lock.stack == below + [c] && Worked(s, s', job)
    requires forall i :: 0 <= i < |below| ==> below[i].phase == Enter || Rechecks(below[i].phase)
    requires Requested(g, s') && StageOk(g, s', job.op)
    ensures Order(g, s')
  {
    hide Requested, StageOk;
    var c' := c.(job := job);
    assert s'.lock.stack == below + [c'];
    StagesKeep(g, s, s', below, c, c');
    RunsStay(s.lock.stack, s'.lock.stack, below, c, c');
  }

  lemma CompareOrder(g: Config, s: Sched, job: Job)
    requires s.lock.stack != [] && job.op.Insert? && Requested(g, s)
    ensures var s' := Compare(g, s, job);
      Requested(g, s') && StageOk(g, s', Insert(job.op.t, Flagged)) && Worked(s, s', job.(op := Insert(job.op.t, Flagged)))
  {
  }

  lemma LinkOrder(g: Config, s: Sched, job: Job)
    requires s.lock.stack != [] && job.op.Insert? && job.op.stage == Flagged && Requested(g, s) && StageOk(g, s, job.op)
    ensures var s' := LinkReady(s, job);
      Requested(g, s') && StageOk(g, s', Insert(job.op.t, Inserted)) && Worked(s, s', job.(op := Insert(job.op.t, Inserted)))
  {
    hide Outranks;
  }

  lemma RequeueOrder(g: Config, s: Sched, job: Job)
    requires s.lock.stack != [] && Requested(g, s) && (s.owns ==> StateOf(s, s.cur) == TaskState.Running)
    ensures var s' := Requeue(s, job); Requested(g, s') && StageOk(g, s', Pick(Requeued)) && Worked(s, s', job.(op := Pick(Requeued)))
  {
    hide Outranks;
  }

  lemma ChooseOrder(g: Config, s: Sched, job: Job)
    requires s.lock.stack != [] && s.ready != [] && !s.owns
    ensures var s', op := Choose(g, s, job), Pick(Chosen(s.ready[Best(g, s.ready)]));
      Requested(g, s') && StageOk(g, s', op) && Worked(s, s', job.(op := op))
  {
    var k := Best(g, s.ready);
    WithoutMembers(s.ready, k);
  }

  lemma SwitchOrder(g: Config, s: Sched, job: Job, next: nat)
    requires s.lock.stack != [] && StageOk(g, s, Pick(Chosen(next)))
    ensures var s' := Switch(s, job, next); Requested(g, s') && StageOk(g, s', Pick(Switched)) && Worked(s, s', job.(op := Pick(Switched)))
  {
    hide Outranks;
  }

  lemma ClearOrder(g: Config, s: Sched, job: Job)
    requires s.lock.stack != [] && StageOk(g, s, Pick(Switched))
    ensures var s' := ClearRequest(s, job); Requested(g, s') && StageOk(g, s', Pick(Finished)) && Worked(s, s', job.(op := Pick(Finished)))
  {
    hide Outranks;
  }

  /** An operation under full access. */
  lemma OpOrder(g: Config, s: Sched)
    requires Inv(g, s) && Order(g, s) && s.lock.stack != [] && Top(s.lock).phase == Full && !OpDone(Top(s.lock).job.op)
    ensures Order(g, OpStep(g, s, Top(s.lock).job))
  {
    hide SoftLock.Inv, AllPlaced, IdleOk, StageOk, Requested, Best, Outranks, Compare, LinkReady, Requeue, Choose, Switch, ClearRequest, Worked, Work;
    var below, c := Unstack(g, s);
    assert s.lock.stack[|below|] == c && StageOk(g, s, c.job.op);
    var s' := OpStep(g, s, c.job);
    match c.job.op {
      case Insert(t, stage) =>
        if stage == Carrying {
          CompareOrder(g, s, c.job);
          HolderOrder(g, s, s', below, c, c.job.(op := Insert(t, Flagged)));
        } else {
          LinkOrder(g, s, c.job);
          HolderOrder(g, s, s', below, c, c.job.(op := Insert(t, Inserted)));
        }
      case Pick(choice) => PickOrder(g, s, below, c, choice);
    }
  }

  lemma PickOrder(g: Config, s: Sched, below: seq<Ctx<Job>>, c: Ctx<Job>, choice: PickStage)
    requires Inv(g, s) && Order(g, s) && s.lock.stack == below + [c] && c == Top(s.lock) && below == [] && c.phase == Full && JobOk(c)
    requires c.job == Job(Pick(choice), None) && choice != Finished && StageOk(g, s, c.job.op)
    ensures Order(g, OpStep(g, s, c.job))
  {
    hide SoftLock.Inv, AllPlaced, IdleOk, StageOk, Requested, Best, Outranks, Compare, LinkReady, Requeue, Choose, Switch, ClearRequest, Worked, Work;
    var s' := OpStep(g, s, c.job);
    assert s.lock.stack == [c];
    match choice {
      case Begin => RequeueOrder(g, s, c.job); HolderOrder(g, s, s', below, c, c.job.(op := Pick(Requeued)));
      case Requeued =>
        ChooseKeeps(g, s, c);
        ChooseOrder(g, s, c.job);
        HolderOrder(g, s, s', below, c, c.job.(op := Pick(Chosen(s.ready[Best(g, s.ready)]))));
      case Chosen(next) => SwitchOrder(g, s, c.job, next); HolderOrder(g, s, s', below, c, c.job.(op := Pick(Switched)));
      case Switched => ClearOrder(g, s, c.job); HolderOrder(g, s, s', below, c, c.job.(op := Pick(Finished)));
    }
  }

  lemma WithoutMembers(tasks: seq<nat>, k: nat)
    requires k < |tasks|
    ensures forall t :: t in L.Without(tasks, k) ==> t in tasks
  {
  }

  lemma RunsStay(stack: seq<Ctx<Job>>, stack': seq<Ctx<Job>>, below: seq<Ctx<Job>>, c: Ctx<Job>, c': Ctx<Job>)
    requires stack == below + [c] && stack' == below + [c'] && (c.phase == Phase.Running ==> c'.phase == Phase.Running)
    ensures (exists i :: RunsAt(stack, i)) ==> exists i :: RunsAt(stack', i)
  {
    if i :| RunsAt(stack, i) { assert RunsAt(stack', i); }
  }

  lemma PendOrder(g: Config, s: Sched)
    requires Inv(g, s) && Order(g, s) && s.lock.stack != [] && Top(s.lock).phase == PendOp && Top(s.lock).job.op.Insert?
    ensures Order(g, PendInsert(g, s, Top(s.lock).job))
  {
    hide SoftLock.Inv, AllPlaced, CurrentOk, IdleOk, Advance, StageOk;
    var below, c := Unstack(g, s);
    var t := c.job.op.t;
    var done := c.(job := c.job.(op := Insert(t, Inserted)));
    assert Work(s.lock, done.job).stack == below + [done];
    AdvanceOnTop(Work(s.lock, done.job), below, done);
    var s' := PendInsert(g, s, c.job);
    assert StageOk(g, s', Insert(t, Inserted)) by { InsertedStage(g, s', t); }
    StagesKeep(g, s, s', below, c, done.(phase := PendDone));
  }

  lemma InsertedStage(g: Config, s: Sched, t: nat)
    ensures StageOk(g, s, Insert(t, Inserted)) && StageOk(g, s, Insert(t, Carrying))
  {
  }

  lemma LinkDrainedOrder(g: Config, s: Sched, job: Job)
    requires s.lock.stack != [] && job.drained.Some? && Requested(g, s) && OpDone(job.op)
    ensures var s' := LinkDrained(g, s, job); Requested(g, s') && StageOk(g, s', job.op) && Worked(s, s', job.(drained := None))
  {
  }

  lemma DrainOrder(g: Config, s: Sched, job: Job)
    requires s.lock.stack != [] && s.buffer != [] && Requested(g, s) && StageOk(g, s, job.op)
    ensures var s' := Drain(s, job); Requested(g, s') && StageOk(g, s', job.op) && Worked(s, s', job.(drained := Some(s.buffer[0])))
  {
    hide Outranks;
  }

  /** run_pended_op. */
  lemma RunOrder(g: Config, s: Sched)
    requires Inv(g, s) && Order(g, s) && s.lock.stack != [] && Top(s.lock).phase == Phase.Running
    ensures Top(s.lock).job.drained.Some? ==> Order(g, LinkDrained(g, s, Top(s.lock).job))
    ensures s.buffer != [] ==> Order(g, Drain(s, Top(s.lock).job))
  {
    hide SoftLock.Inv, AllPlaced, CurrentOk, IdleOk, StageOk, Requested, Outranks, Worked, Work, LinkDrained, Drain;
    var below, c := Unstack(g, s);
    assert s.lock.stack[|below|] == c && StageOk(g, s, c.job.op);
    if c.job.drained.Some? {
      LinkDrainedOrder(g, s, c.job);
      HolderOrder(g, s, LinkDrained(g, s, c.job), below, c, c.job.(drained := None));
    }
    if s.buffer != [] {
      DrainOrder(g, s, c.job);
      HolderOrder(g, s, Drain(s, c.job), below, c, c.job.(drained := Some(s.buffer[0])));
    }
  }

  lemma LockStepOrder(g: Config, s: Sched)
    requires Inv(g, s) && Order(g, s) && s.lock.stack != []
    requires var c := Top(s.lock); (c.phase == PendOp ==> !c.job.op.Insert?) && (c.phase == Phase.Running ==> s.buffer == [])
    ensures Order(g, s.(lock := Advance(s.lock)))
  {
    hide SoftLock.Inv, AllPlaced, CurrentOk, IdleOk, Advance, StageOk;
    var below, c := Unstack(g, s);
    AdvanceOnTop(s.lock, below, c);
    var s' := s.(lock := Advance(s.lock));
    assert s.lock.stack[|below|] == c && StageOk(g, s, c.job.op);
    SameStage(g, s, s', c.job.op);
    if s'.lock.stack == below {
      forall i {:trigger s'.lock.stack[i]} | 0 <= i < |s'.lock.stack| ensures StageOk(g, s', s'.lock.stack[i].job.op) {
        assert s.lock.stack[i] == below[i] && StageOk(g, s, s.lock.stack[i].job.op);
        SameStage(g, s, s', s.lock.stack[i].job.op);
      }
      if i :| RunsAt(s.lock.stack, i) { assert i < |below| && RunsAt(s'.lock.stack, i); }
    } else {
      var c' := NextCtx(s.lock, c);
      StagesKeep(g, s, s', below, c, c');
      if c.phase == RunStart { assert RunsAt(s'.lock.stack, |below|); }
      if c.phase != Phase.Running { RunsStay(s.lock.stack, s'.lock.stack, below, c, c'); }
    }
  }

  lemma SameStage(g: Config, s: Sched, s': Sched, op: Op)
    requires StageOk(g, s, op) && s'.ready == s.ready && s'.cur == s.cur && s'.picked == s.picked && s'.pendingSwitch == s.pendingSwitch
    requires s'.owns == s.owns || !s'.owns
    ensures StageOk(g, s', op)
  {
  }

  lemma ArriveOrder(g: Config, s: Sched, a: Action)
    requires Order(g, s) && Enabled(g, s, a) && (a.Accept? || a.PendSV?)
    ensures Order(g, Apply(g, s, a))
  {
    hide StageOk;
    var s' := Apply(g, s, a);
    forall i {:trigger s'.lock.stack[i]} | 0 <= i < |s'.lock.stack| ensures StageOk(g, s', s'.lock.stack[i].job.op) {
      if i < |s.lock.stack| {
        assert s'.lock.stack[i] == s.lock.stack[i];
        SameStage(g, s, s', s.lock.stack[i].job.op);
      } else {
        NewStage(g, s', s'.lock.stack[i].job.op);
      }
    }
    if i :| RunsAt(s.lock.stack, i) { assert RunsAt(s'.lock.stack, i); }
  }

  lemma NewStage(g: Config, s: Sched, op: Op)
    requires (op.Insert? && op.stage == Carrying) || op == Pick(Begin)
    ensures StageOk(g, s, op)
  {
  }

  lemma OutsideOrder(g: Config, s: Sched, a: Action)
    requires Order(g, s) && Enabled(g, s, a) && !a.Go? && !a.Accept? && !a.PendSV?
    ensures Order(g, Apply(g, s, a))
  {
    hide StageOk;
    var s' := Apply(g, s, a);
    forall i {:trigger s'.lock.stack[i]} | 0 <= i < |s'.lock.stack| ensures StageOk(g, s', s'.lock.stack[i].job.op) {
      SameStage(g, s, s', s.lock.stack[i].job.op);
    }
  }

  lemma ActionOrder(g: Config, s: Sched, a: Action)
    requires Inv(g, s) && Order(g, s) && Enabled(g, s, a)
    ensures Order(g, Apply(g, s, a))
  {
    hide Inv, Order;
    if a.Go? {
      var c := Top(s.lock);
      if c.phase == Full && !OpDone(c.job.op) { OpOrder(g, s); }
      else if c.phase == PendOp && c.job.op.Insert? { PendOrder(g, s); }
      else if c.phase == Phase.Running && (c.job.drained.Some? || s.buffer != []) { RunOrder(g, s); }
      else { LockStepOrder(g, s); }
    } else if a.Accept? || a.PendSV? {
      ArriveOrder(g, s, a);
    } else {
      OutsideOrder(g, s, a);
    }
  }

  // ---------- Whole runs ----------

  /** The tasks accepted before the start: distinct, without the idle task, within the quota. */
  ghost predicate CanStart(g: Config, ready: seq<nat>)
  {
    g.idle !in ready && L.AllDifferent(ready) && |ready| < g.max
  }

  /** The state that a schedule leads to; none when an action is not possible. */
  function Run(g: Config, ready: seq<nat>, schedule: seq<Action>): Option<Sched>
  {
    if schedule == [] then Some(Start(g, ready))
    else
      var before := Run(g, ready, schedule[..|schedule| - 1]);
      var last := schedule[|schedule| - 1];
      if before.Some? && Enabled(g, before.value, last) then Some(Apply(g, before.value, last)) else None
  }

  lemma {:induction false} DistinctCount(tasks: seq<nat>, t: nat)
    requires L.AllDifferent(tasks)
    ensures multiset(tasks)[t] == if t in tasks then 1 else 0
  {
    if tasks != [] {
      assert tasks == [tasks[0]] + tasks[1..];
      DistinctCount(tasks[1..], t);
      assert multiset(tasks)[t] == multiset([tasks[0]])[t] + multiset(tasks[1..])[t];
    }
  }

  lemma {:induction false} DistinctSize(tasks: seq<nat>)
    requires L.AllDifferent(tasks)
    ensures |Elements(tasks)| == |tasks|
  {
    if tasks != [] {
      DistinctSize(tasks[1..]);
      assert tasks[0] !in tasks[1..];
      assert Elements(tasks) == Elements(tasks[1..]) + {tasks[0]};
    } else {
      assert Elements(tasks) == {};
    }
  }

  lemma StartInv(g: Config, ready: seq<nat>)
    requires CanStart(g, ready)
    ensures Inv(g, Start(g, ready)) && Order(g, Start(g, ready))
  {
    hide L.AllDifferent;
    var s := Start(g, ready);
    assert InvAt(s.lock, -1);
    DistinctSize(ready);
    assert g.idle !in Elements(ready);
    assert |s.live| == |ready| + 1;
    forall t ensures Placed(s, t) {
      DistinctCount(ready, t);
    }
  }

  lemma {:induction false} RunKeepsInv(g: Config, ready: seq<nat>, schedule: seq<Action>)
    requires CanStart(g, ready) && Run(g, ready, schedule).Some?
    ensures Inv(g, Run(g, ready, schedule).value) && Order(g, Run(g, ready, schedule).value)
  {
    hide Inv, Order, CanStart;
    if schedule == [] {
      StartInv(g, ready);
    } else {
      RunKeepsInv(g, ready, schedule[..|schedule| - 1]);
      ActionKeeps(g, Run(g, ready, schedule[..|schedule| - 1]).value, schedule[|schedule| - 1]);
      ActionOrder(g, Run(g, ready, schedule[..|schedule| - 1]).value, schedule[|schedule| - 1]);
    }
  }

  /** In every run each live task that has not ended is in exactly one place, and no other task is in any. */
  lemma OnePlaceEach(g: Config, ready: seq<nat>, schedule: seq<Action>, t: nat)
    requires CanStart(g, ready) && Run(g, ready, schedule).Some?
    ensures var s := Run(g, ready, schedule).value; Places(s, t) == if t in s.live && StateOf(s, t) != Destructing then 1 else 0
  {
    RunKeepsInv(g, ready, schedule);
    assert Placed(Run(g, ready, schedule).value, t);
  }

  /** The insert buffer never overflows, `pick_next` never finds an empty list, and the quota counts the live tasks. */
  lemma NeverDies(g: Config, ready: seq<nat>, schedule: seq<Action>)
    requires CanStart(g, ready) && Run(g, ready, schedule).Some?
    ensures var s := Run(g, ready, schedule).value; !s.died && s.exist == |s.live| <= g.max
  {
    RunKeepsInv(g, ready, schedule);
  }

  /** A new task is accepted exactly while fewer than the maximum are alive. */
  lemma AcceptedIff(g: Config, ready: seq<nat>, schedule: seq<Action>, t: nat)
    requires CanStart(g, ready) && Run(g, ready, schedule).Some? && t !in Run(g, ready, schedule).value.live
    ensures Run(g, ready, schedule + [Create(t)]).Some? <==> |Run(g, ready, schedule).value.live| < g.max
  {
    hide Inv, Order, CanStart, Apply;
    NeverDies(g, ready, schedule);
    assert (schedule + [Create(t)])[..|schedule|] == schedule;
  }

  /** What `pick_next` chooses is the first task of highest priority among the ready ones, the current one included if it was running. */
  lemma PickChoosesFirstBest(g: Config, ready: seq<nat>, schedule: seq<Action>)
    requires CanStart(g, ready) && Run(g, ready, schedule).Some?
    requires var s := Run(g, ready, schedule).value; s.lock.stack != [] && Top(s.lock).phase == Full && Top(s.lock).job.op == Pick(Requeued)
    ensures var s := Run(g, ready, schedule).value; var s' := Step(g, s);
      exists k :: 0 <= k < |s.ready| && Top(s'.lock).job.op == Pick(Chosen(s.ready[k])) && s'.ready == L.Without(s.ready, k)
        && (forall i :: 0 <= i < |s.ready| ==> g.prio(s.ready[k]) <= g.prio(s.ready[i]))
        && (forall i :: 0 <= i < k ==> g.prio(s.ready[k]) < g.prio(s.ready[i]))
    ensures !Run(g, ready, schedule).value.owns
  {
    RunKeepsInv(g, ready, schedule);
    var s := Run(g, ready, schedule).value;
    hide SoftLock.Inv, AllPlaced, Order;
    OpenInv(g, s);
    var below, c := Unstack(g, s);
    assert s.lock.stack == [c] && c.job == Job(Pick(Requeued), None);
    ChooseKeeps(g, s, c);
    var k := Best(g, s.ready);
  }

  /** A switch once requested is not forgotten: while the request stands, someone has yet to resume the scheduler or the switch is pending. */
  lemma RequestIsRemembered(g: Config, ready: seq<nat>, schedule: seq<Action>)
    requires CanStart(g, ready) && Run(g, ready, schedule).Some? && Run(g, ready, schedule).value.pendingSwitch
    ensures var s := Run(g, ready, schedule).value; s.suspend > 0 || s.resuming > 0 || s.pendsv
  {
    RunKeepsInv(g, ready, schedule);
  }

  /** By this action a task that is to preempt the current one is accepted, or taken over from the buffer. */
  predicate Preempts(g: Config, s: Sched, a: Action, t: nat)
  {
    a.Go? && s.lock.stack != [] && g.preempt && Outranks(g, t, s.cur) && var c := Top(s.lock);
    (c.phase == Full && c.job.op == Insert(t, Carrying)) || (c.phase == Phase.Running && c.job.drained == Some(t))
  }

  /** `pick_next` comes to its end. */
  predicate Picks(s: Sched, a: Action)
  {
    a.Go? && s.lock.stack != [] && Top(s.lock).phase == Full && Top(s.lock).job.op == Pick(Switched)
  }

  /** Action `k` of the schedule was of that kind, the request has stood ever since, and no choice was completed meanwhile. */
  ghost predicate RequestedAt(g: Config, ready: seq<nat>, schedule: seq<Action>, k: int, t: nat)
  {
    && 0 <= k < |schedule| && Run(g, ready, schedule[..k]).Some? && Preempts(g, Run(g, ready, schedule[..k]).value, schedule[k], t)
    && forall j {:trigger Run(g, ready, schedule[..j])} :: k < j <= |schedule| ==>
      && Run(g, ready, schedule[..j]).Some? && Run(g, ready, schedule[..j]).value.pendingSwitch
      && (j < |schedule| ==> !Picks(Run(g, ready, schedule[..j]).value, schedule[j]))
  }

  /** A switch is requested only for a task that outranked the current one when it became ready. */
  lemma {:induction false} RequestHasCause(g: Config, ready: seq<nat>, schedule: seq<Action>) returns (k: nat, t: nat)
    requires Run(g, ready, schedule).Some? && Run(g, ready, schedule).value.pendingSwitch
    ensures RequestedAt(g, ready, schedule, k, t)
  {
    hide Apply, Enabled, Preempts, Picks;
    if schedule == [] {
      NothingRequested(g, ready);
    } else {
      var before, last := schedule[..|schedule| - 1], schedule[|schedule| - 1];
      var s := Run(g, ready, before).value;
      PickClears(g, s, last);
      if s.pendingSwitch {
        k, t := RequestHasCause(g, ready, before);
      } else {
        k := |before|;
        t := Preempting(g, s, last);
      }
      assert schedule[..|schedule|] == schedule && before[..|before|] == before;
      assert forall j :: 0 <= j <= |before| ==> schedule[..j] == before[..j];
    }
  }

  lemma PickClears(g: Config, s: Sched, a: Action)
    requires Enabled(g, s, a)
    ensures Picks(s, a) ==> !Apply(g, s, a).pendingSwitch
  {
    hide Compare, LinkReady, Requeue, Choose, Switch, PendInsert, Drain, LinkDrained, Work, Arrive, StateOf;
  }

  /** The actions that pend the exception: a yield, the end of a task, or the last resume while a switch is requested. */
  predicate Pends(s: Sched, a: Action)
  {
    a.Yield? || a.Destruct? || (a.CheckResume? && s.suspend == 0 && s.pendingSwitch)
  }

  /** The exception is pended only if one of these has happened since it was last taken. */
  lemma {:induction false} PendedHasCause(g: Config, ready: seq<nat>, schedule: seq<Action>) returns (k: nat)
    requires Run(g, ready, schedule).Some? && Run(g, ready, schedule).value.pendsv
    ensures k < |schedule| && Run(g, ready, schedule[..k]).Some? && Pends(Run(g, ready, schedule[..k]).value, schedule[k])
    ensures forall j :: k < j < |schedule| ==> !schedule[j].PendSV?
  {
    hide Apply, Enabled, Pends;
    if schedule == [] {
      NothingRequested(g, ready);
    } else {
      var before, last := schedule[..|schedule| - 1], schedule[|schedule| - 1];
      var s := Run(g, ready, before).value;
      PendedBy(g, s, last);
      if Pends(s, last) {
        k := |before|;
      } else {
        k := PendedHasCause(g, ready, before);
        assert schedule[..k] == before[..k];
      }
    }
  }

  lemma PendedBy(g: Config, s: Sched, a: Action)
    requires Enabled(g, s, a)
    ensures Apply(g, s, a).pendsv <==> Pends(s, a) || (s.pendsv && !a.PendSV?)
  {
    hide OpStep, LinkDrained, PendInsert, Drain, Advance, Arrive, Outranks;
    if a.Go? { StepPends(g, s); }
  }

  lemma StepPends(g: Config, s: Sched)
    requires s.lock.stack != []
    ensures Step(g, s).pendsv == s.pendsv
  {
    hide Advance, Work, Outranks, OpStep;
    var job := Top(s.lock).job;
    if Top(s.lock).phase == Full && !OpDone(job.op) { OpPends(g, s, job); }
  }

  lemma OpPends(g: Config, s: Sched, job: Job)
    requires s.lock.stack != []
    ensures OpStep(g, s, job).pendsv == s.pendsv
  {
    hide Compare, LinkReady, Requeue, Choose, Switch, Work;
    PartPends(g, s, job);
  }

  lemma PartPends(g: Config, s: Sched, job: Job)
    requires s.lock.stack != []
    ensures job.op.Insert? ==> LinkReady(s, job).pendsv == Compare(g, s, job).pendsv == s.pendsv
    ensures Requeue(s, job).pendsv == Choose(g, s, job).pendsv == s.pendsv && forall next :: Switch(s, job, next).pendsv == s.pendsv
  {
    hide Best, L.Without, Outranks, Work, StateOf;
  }

  lemma NothingRequested(g: Config, ready: seq<nat>)
    ensures Run(g, ready, []).Some? && !Run(g, ready, []).value.pendingSwitch && !Run(g, ready, []).value.pendsv
  {
  }

  lemma Preempting(g: Config, s: Sched, a: Action) returns (t: nat)
    requires Enabled(g, s, a) && !s.pendingSwitch && Apply(g, s, a).pendingSwitch
    ensures Preempts(g, s, a, t)
  {
    hide OpStep, LinkDrained, PendInsert, Drain, Advance, Arrive, Outranks;
    t := 0;
    if a.Go? {
      var c := Top(s.lock);
      OpRequests(g, s, c.job);
      BufferRequests(g, s, c.job);
      t := if c.phase == Full then c.job.op.t else c.job.drained.value;
    }
  }

  lemma OpRequests(g: Config, s: Sched, job: Job)
    requires s.lock.stack != [] && !s.pendingSwitch
    ensures OpStep(g, s, job).pendingSwitch ==> job.op.Insert? && job.op.stage == Carrying && g.preempt && Outranks(g, job.op.t, s.cur)
  {
    hide Work, Best, Outranks, Requeue, Choose, Switch;
    PickRequests(g, s, job);
  }

  lemma PickRequests(g: Config, s: Sched, job: Job)
    requires s.lock.stack != [] && !s.pendingSwitch
    ensures !Requeue(s, job).pendingSwitch && !Choose(g, s, job).pendingSwitch && forall next :: !Switch(s, job, next).pendingSwitch
  {
    hide Work, Best;
  }

  lemma BufferRequests(g: Config, s: Sched, job: Job)
    requires s.lock.stack != [] && !s.pendingSwitch
    ensures job.op.Insert? ==> !PendInsert(g, s, job).pendingSwitch
    ensures s.buffer != [] ==> !Drain(s, job).pendingSwitch
    ensures job.drained.Some? && LinkDrained(g, s, job).pendingSwitch ==> g.preempt && Outranks(g, job.drained.value, s.cur)
  {
    hide Work, Advance;
  }

  /**
   With preemption on and after the first choice: once the scheduler is not suspended, no resumption
   is under way and no switch is pending, nothing waits in the insert buffer and no ready task
   outranks the running one.
   */
  lemma RunningTaskIsBest(g: Config, ready: seq<nat>, schedule: seq<Action>)
    requires CanStart(g, ready) && Run(g, ready, schedule).Some? && g.preempt
    requires var s := Run(g, ready, schedule).value; s.picked && s.suspend == 0 && s.resuming == 0 && !s.pendsv
    ensures var s := Run(g, ready, schedule).value; s.buffer == [] && !s.pendingSwitch
    ensures var s := Run(g, ready, schedule).value; s.owns ==> forall t :: t in s.ready ==> g.prio(s.cur) <= g.prio(t)
  {
    RunKeepsInv(g, ready, schedule);
    var s := Run(g, ready, schedule).value;
    assert s.lock.stack == [];
    assert forall i :: !RunsAt(s.lock.stack, i);
    assert SoftLock.Inv(s.lock);
    assert forall t :: t in s.ready ==> (Outranks(g, t, s.cur) <==> g.prio(t) < g.prio(s.cur));
  }

  // ---------- Fairness among equals ----------

  /** The number of tasks of priority `p` before position `k`. */
  function EqualsBefore(g: Config, tasks: seq<nat>, k: nat, p: nat): nat
    requires k <= |tasks|
  {
    if k == 0 then 0 else EqualsBefore(g, tasks, k - 1, p) + (if g.prio(tasks[k - 1]) == p then 1 else 0)
  }

  /** The task that `pick_next` chooses by this action, if it does. */
  function ChoiceOf(g: Config, s: Sched, a: Action): Option<nat>
  {
    if a.Go? && s.lock.stack != [] && Top(s.lock).phase == Full && Top(s.lock).job.op == Pick(Requeued) && s.ready != []
    then Some(s.ready[Best(g, s.ready)]) else None
  }

  /** All choices of `pick_next` in the part `post` of a run. */
  function Choices(g: Config, ready: seq<nat>, pre: seq<Action>, post: seq<Action>): seq<nat>
    decreases |post|
  {
    if post == [] then []
    else
      var rest, last := post[..|post| - 1], post[|post| - 1];
      var s := Run(g, ready, pre + rest);
      Choices(g, ready, pre, rest) + (if s.None? then [] else match ChoiceOf(g, s.value, last) case None => [] case Some(t) => [t])
  }

  lemma {:induction false} EqualsPrefix(g: Config, s: seq<nat>, s': seq<nat>, k: nat, p: nat)
    requires k <= |s| && k <= |s'| && s[..k] == s'[..k]
    ensures EqualsBefore(g, s, k, p) == EqualsBefore(g, s', k, p)
  {
    if k > 0 {
      assert s[k - 1] == s[..k][k - 1] == s'[..k][k - 1] == s'[k - 1];
      assert s[..k - 1] == s[..k][..k - 1] && s'[..k - 1] == s'[..k][..k - 1];
      EqualsPrefix(g, s, s', k - 1, p);
    }
  }

  lemma {:induction false} NoEqualsBefore(g: Config, s: seq<nat>, k: nat, p: nat)
    requires k <= |s| && forall i :: 0 <= i < k ==> p < g.prio(s[i])
    ensures EqualsBefore(g, s, k, p) == 0
  {
    if k > 0 { NoEqualsBefore(g, s, k - 1, p); }
  }

  /** Taking out the first task of priority `p` brings every later one forward by one. */
  lemma {:induction false} EqualsWithout(g: Config, s: seq<nat>, k: nat, j: nat, p: nat)
    requires k < j <= |s| && g.prio(s[k]) == p
    ensures EqualsBefore(g, L.Without(s, k), j - 1, p) == EqualsBefore(g, s, j, p) - 1
  {
    var r := L.Without(s, k);
    if j == k + 1 {
      EqualsPrefix(g, s, r, k, p);
    } else {
      EqualsWithout(g, s, k, j - 1, p);
      assert r[j - 2] == s[j - 1];
    }
  }

  lemma {:induction false} SomeEqualBefore(g: Config, s: seq<nat>, k: nat, j: nat, p: nat)
    requires k < j <= |s| && g.prio(s[k]) == p
    ensures EqualsBefore(g, s, j, p) >= 1
  {
    if j > k + 1 { SomeEqualBefore(g, s, k, j - 1, p); }
  }

  /** The ready list changes by a choice, which takes its first best out, or by a task that joins at the back. */
  lemma ReadySteps(g: Config, s: Sched, a: Action)
    requires Enabled(g, s, a)
    ensures ChoiceOf(g, s, a).Some? ==> s.ready != [] && Apply(g, s, a).ready == L.Without(s.ready, Best(g, s.ready))
    ensures ChoiceOf(g, s, a).None? ==> Apply(g, s, a).ready == s.ready || exists t :: Apply(g, s, a).ready == s.ready + [t]
  {
    hide Best, Advance, L.Without, Outranks, Step;
    if a.Go? { GoReadySteps(g, s); }
  }

  lemma GoReadySteps(g: Config, s: Sched)
    requires s.lock.stack != []
    ensures ChoiceOf(g, s, Go).Some? ==> Step(g, s).ready == L.Without(s.ready, Best(g, s.ready))
    ensures ChoiceOf(g, s, Go).None? ==> Step(g, s).ready == s.ready || exists t :: Step(g, s).ready == s.ready + [t]
  {
    hide Best, Advance, L.Without, Outranks, OpStep;
    var c, s' := Top(s.lock), Step(g, s);
    if c.phase == Full && !OpDone(c.job.op) {
      OpReadySteps(g, s, c.job);
    } else if !(c.phase == PendOp && c.job.op.Insert?) && c.phase == Phase.Running && c.job.drained.Some? {
      assert s'.ready == s.ready + [c.job.drained.value];
    }
  }

  lemma OpReadySteps(g: Config, s: Sched, job: Job)
    requires s.lock.stack != [] && !OpDone(job.op)
    ensures (var s' := OpStep(g, s, job);
             if job.op == Pick(Requeued) && s.ready != [] then s'.ready == L.Without(s.ready, Best(g, s.ready))
             else s'.ready == s.ready || exists t :: s'.ready == s.ready + [t])
  {
    hide Best, L.Without, Outranks, LinkReady, Requeue, Choose, Switch, Compare;
    PartReadySteps(g, s, job);
    if job.op.Insert? && job.op.stage != Carrying { assert OpStep(g, s, job).ready == s.ready + [job.op.t]; }
    if job.op == Pick(Begin) && StateOf(s, s.cur) == TaskState.Running { assert OpStep(g, s, job).ready == s.ready + [s.cur]; }
  }

  /** The ready list after each part of an operation. */
  lemma PartReadySteps(g: Config, s: Sched, job: Job)
    requires s.lock.stack != []
    ensures job.op.Insert? ==> LinkReady(s, job).ready == s.ready + [job.op.t] && Compare(g, s, job).ready == s.ready
    ensures Requeue(s, job).ready == if StateOf(s, s.cur) == TaskState.Running then s.ready + [s.cur] else s.ready
    ensures Choose(g, s, job).ready == if s.ready == [] then [] else L.Without(s.ready, Best(g, s.ready))
    ensures forall next :: Switch(s, job, next).ready == s.ready
  {
    hide Best, L.Without, Outranks, Work;
  }

  /** Nothing of higher priority than `p` is ready. */
  ghost predicate NoneHigher(g: Config, tasks: seq<nat>, p: nat)
  {
    forall i :: 0 <= i < |tasks| ==> p <= g.prio(tasks[i])
  }

  /** If the action is a choice, nothing of higher priority than `t` is ready. */
  ghost predicate Unrivalled(g: Config, s: Option<Sched>, a: Action, t: nat)
  {
    s.Some? && ChoiceOf(g, s.value, a).Some? ==> NoneHigher(g, s.value.ready, g.prio(t))
  }

  /** Task `t` is ready with `n` equals ahead. */
  ghost predicate InTurn(g: Config, tasks: seq<nat>, t: nat, n: int)
  {
    exists j :: 0 <= j < |tasks| && tasks[j] == t && EqualsBefore(g, tasks, j, g.prio(t)) == n
  }

  /** A choice takes the task itself, or one equal from ahead of it. */
  lemma TurnChosen(g: Config, tasks: seq<nat>, t: nat, n: int)
    requires InTurn(g, tasks, t, n) && NoneHigher(g, tasks, g.prio(t))
    ensures tasks != [] && (if n == 0 then tasks[Best(g, tasks)] == t else InTurn(g, L.Without(tasks, Best(g, tasks)), t, n - 1))
  {
    var p := g.prio(t);
    var j :| 0 <= j < |tasks| && tasks[j] == t && EqualsBefore(g, tasks, j, p) == n;
    var k := Best(g, tasks);
    assert g.prio(tasks[k]) == p && k <= j;
    if k == j {
      NoEqualsBefore(g, tasks, j, p);
    } else {
      SomeEqualBefore(g, tasks, k, j, p);
      EqualsWithout(g, tasks, k, j, p);
      assert L.Without(tasks, k)[j - 1] == t;
    }
  }

  lemma TurnJoined(g: Config, tasks: seq<nat>, u: nat, t: nat, n: int)
    requires InTurn(g, tasks, t, n)
    ensures InTurn(g, tasks + [u], t, n)
  {
    var j :| 0 <= j < |tasks| && tasks[j] == t && EqualsBefore(g, tasks, j, g.prio(t)) == n;
    EqualsPrefix(g, tasks, tasks + [u], j, g.prio(t));
    assert (tasks + [u])[j] == t;
  }

  /** So it is whenever a choice is made in the part `post` of a run. */
  ghost predicate UnrivalledIn(g: Config, ready: seq<nat>, pre: seq<Action>, post: seq<Action>, t: nat)
  {
    forall k :: 0 <= k < |post| ==> Unrivalled(g, Run(g, ready, pre + post[..k]), post[k], t)
  }

  lemma UnrivalledBefore(g: Config, ready: seq<nat>, pre: seq<Action>, post: seq<Action>, t: nat)
    requires UnrivalledIn(g, ready, pre, post, t) && post != []
    ensures UnrivalledIn(g, ready, pre, post[..|post| - 1], t)
    ensures Unrivalled(g, Run(g, ready, pre + post[..|post| - 1]), post[|post| - 1], t)
  {
    hide Unrivalled, Run;
    var rest := post[..|post| - 1];
    forall k | 0 <= k < |rest| ensures Unrivalled(g, Run(g, ready, pre + rest[..k]), rest[k], t) {
      assert rest[..k] == post[..k];
    }
  }

  lemma RunLast(g: Config, ready: seq<nat>, pre: seq<Action>, post: seq<Action>)
    requires post != [] && Run(g, ready, pre + post).Some?
    ensures (var s := Run(g, ready, pre + post[..|post| - 1]);
             s.Some? && Enabled(g, s.value, post[|post| - 1]) && Run(g, ready, pre + post).value == Apply(g, s.value, post[|post| - 1]))
  {
    hide Apply, Enabled;
    assert (pre + post)[..|pre + post| - 1] == pre + post[..|post| - 1];
  }

  /**
   In every run, a ready task with n equals ahead is the (n + 1)-st one chosen from then on, as long as nothing of higher
   priority is ready when a choice is made; until then it stays ready.
   */
  lemma {:induction false} PickedInTurn(g: Config, ready: seq<nat>, pre: seq<Action>, post: seq<Action>, t: nat, n: nat)
    requires Run(g, ready, pre).Some? && Run(g, ready, pre + post).Some? && InTurn(g, Run(g, ready, pre).value.ready, t, n)
    requires UnrivalledIn(g, ready, pre, post, t)
    ensures var picks := Choices(g, ready, pre, post);
      if n < |picks| then picks[n] == t else InTurn(g, Run(g, ready, pre + post).value.ready, t, n - |picks|)
    decreases |post|
  {
    hide InTurn, Apply, Enabled, ChoiceOf, Unrivalled, UnrivalledIn, Run;
    if post == [] {
      assert pre + post == pre;
    } else {
      var rest, last := post[..|post| - 1], post[|post| - 1];
      UnrivalledBefore(g, ready, pre, post, t);
      RunLast(g, ready, pre, post);
      PickedInTurn(g, ready, pre, rest, t, n);
      var s, picks := Run(g, ready, pre + rest).value, Choices(g, ready, pre, rest);
      if |picks| <= n { OneTurn(g, s, last, t, n - |picks|); }
    }
  }

  lemma OneTurn(g: Config, s: Sched, a: Action, t: nat, n: nat)
    requires Enabled(g, s, a) && InTurn(g, s.ready, t, n) && Unrivalled(g, Some(s), a, t)
    ensures match ChoiceOf(g, s, a)
            case None => InTurn(g, Apply(g, s, a).ready, t, n)
            case Some(u) => if n == 0 then u == t else InTurn(g, Apply(g, s, a).ready, t, n - 1)
  {
    hide InTurn, NoneHigher, Apply, Enabled;
    ReadySteps(g, s, a);
    var s' := Apply(g, s, a);
    if ChoiceOf(g, s, a).Some? {
      TurnChosen(g, s.ready, t, n);
    } else if s'.ready != s.ready {
      var u :| s'.ready == s.ready + [u];
      TurnJoined(g, s.ready, u, t, n);
    }
  }
}
