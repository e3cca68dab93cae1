/** What the state word of a task says about where the task is. */
module TaskStates {

  import opened Common
  import SoftLock
  import L = TaskList
  import opened Scheduler

  /** `pick_next` has chosen the task and not yet made it current. */
  predicate Picked(s: Sched, t: nat)
  {
    s.lock.stack != [] && s.lock.stack[0].job.op == Pick(Chosen(t))
  }

  /** A task is marked ready exactly while it is in the ready list, and running exactly while it is current or just chosen. */
  ghost predicate Tells(s: Sched, t: nat)
  {
    && (StateOf(s, t) == Ready <==> t in s.ready)
    && (StateOf(s, t) == TaskState.Running <==> (s.owns && t == s.cur) || Picked(s, t))
  }

  ghost predicate AllTell(s: Sched)
  {
    forall t {:trigger Tells(s, t)} :: Tells(s, t)
  }

  /** Where a task is that is in no list, not current and not chosen. */
  predicate Elsewhere(s: Sched, t: nat)
  {
    t !in s.ready && !(s.owns && t == s.cur) && !Picked(s, t)
  }

  /** Nothing that a state tells of has changed. */
  lemma SameTell(s: Sched, s': Sched)
    requires AllTell(s) && s'.ready == s.ready && s'.cur == s.cur && s'.owns == s.owns && s'.states == s.states
    requires forall t {:trigger Picked(s', t)} :: Picked(s', t) <==> Picked(s, t)
    ensures AllTell(s')
  {
    hide Picked;
    forall t ensures Tells(s', t) {
      assert Tells(s, t);
      SameState(s, s', t);
    }
  }

  /** The top access keeps its choice, if it has made one. */
  lemma SamePick(s: Sched, s': Sched, below: seq<SoftLock.Ctx<Job>>, c: SoftLock.Ctx<Job>, c': SoftLock.Ctx<Job>)
    requires s.lock.stack == below + [c] && s'.lock.stack == below + [c']
    requires c'.job.op == c.job.op || !((c.job.op.Pick? && c.job.op.choice.Chosen?) || (c'.job.op.Pick? && c'.job.op.choice.Chosen?))
    ensures forall t {:trigger Picked(s', t)} :: Picked(s', t) <==> Picked(s, t)
  {
    if below != [] { assert s'.lock.stack[0] == s.lock.stack[0]; }
  }

  // ---------- Tasks that come and go ----------

  /** A task in one's hands, held by an access, or not alive is neither ready, current nor chosen. */
  lemma HeldElsewhere(g: Config, s: Sched, t: nat)
    requires Inv(g, s) && (t in s.hands || t !in s.live)
    ensures Elsewhere(s, t)
  {
    hide SoftLock.Inv, Jobs, IdleOk;
    assert Placed(s, t);
    if Picked(s, t) { CarriedAtLeast(s.lock.stack, 0, t); }
    assert t in s.ready ==> multiset(s.ready)[t] >= 1;
  }

  lemma CreateTells(g: Config, s: Sched, t: nat)
    requires Inv(g, s) && AllTell(s) && Enabled(g, s, Create(t))
    ensures AllTell(Apply(g, s, Create(t)))
  {
    hide Inv;
    var s' := Apply(g, s, Create(t));
    HeldElsewhere(g, s, t);
    forall u ensures Tells(s', u) { assert Tells(s, u); }
  }

  lemma LeaveTells(g: Config, s: Sched, a: Action)
    requires Inv(g, s) && AllTell(s) && Enabled(g, s, a) && (a.BeginBlock? || a.Destruct?)
    ensures AllTell(Apply(g, s, a))
  {
    hide SoftLock.Inv, Jobs, IdleOk, CurrentOk;
    var s' := Apply(g, s, a);
    assert Placed(s, s.cur);
    assert s.cur in s.ready ==> multiset(s.ready)[s.cur] >= 1;
    forall u ensures Tells(s', u) { assert Tells(s, u); }
  }

  lemma ArriveTells(g: Config, s: Sched, a: Action)
    requires Inv(g, s) && AllTell(s) && Enabled(g, s, a) && (a.Accept? || a.PendSV?)
    ensures AllTell(Apply(g, s, a))
  {
    hide Inv, Tells;
    var s' := Apply(g, s, a);
    if s.lock.stack != [] { assert s'.lock.stack[0] == s.lock.stack[0]; }
    SameTell(s, s');
  }

  // ---------- Steps of an access ----------

  /** A task is linked. */
  lemma LinkTells(g: Config, s: Sched, s': Sched, below: seq<SoftLock.Ctx<Job>>, c: SoftLock.Ctx<Job>, c': SoftLock.Ctx<Job>, t: nat)
    requires Inv(g, s) && AllTell(s) && s.lock.stack == below + [c] && Carries(c.job, t) >= 1
    requires s'.lock.stack == below + [c'] && s'.ready == s.ready + [t] && s'.cur == s.cur && s'.owns == s.owns
    requires s'.states == s.states[t := Ready] && (forall u {:trigger Picked(s', u)} :: Picked(s', u) <==> Picked(s, u)) && !Picked(s, t)
    ensures AllTell(s')
  {
    hide SoftLock.Inv, Jobs, IdleOk, CurrentOk, Picked, Carries, Placed;
    LinkedOnce(g, s, below, c, t);
    forall u ensures Tells(s', u) { assert Tells(s, u); }
  }

  lemma CompareTells(g: Config, s: Sched, below: seq<SoftLock.Ctx<Job>>, c: SoftLock.Ctx<Job>)
    requires AllTell(s) && s.lock.stack == below + [c] && c == SoftLock.Top(s.lock) && c.job.op.Insert?
    ensures AllTell(Compare(g, s, c.job))
  {
    hide AllTell, Outranks;
    var s' := Compare(g, s, c.job);
    var c' := c.(job := c.job.(op := Insert(c.job.op.t, Flagged)));
    assert s'.lock.stack == below + [c'];
    SamePick(s, s', below, c, c');
    SameTell(s, s');
  }

  /** `accept_task` leaves the choice of `pick_next` alone; there is none while it holds the lock. */
  lemma LinkReadyTells(g: Config, s: Sched, below: seq<SoftLock.Ctx<Job>>, c: SoftLock.Ctx<Job>)
    requires Inv(g, s) && AllTell(s) && s.lock.stack == below + [c] && c == SoftLock.Top(s.lock) && !Choosing(s)
    requires c.job.op.Insert? && c.job.op.stage != Inserted
    ensures AllTell(LinkReady(s, c.job))
  {
    hide Inv, AllTell;
    var s' := LinkReady(s, c.job);
    var t := c.job.op.t;
    var c' := c.(job := c.job.(op := Insert(t, Inserted)));
    assert s'.lock.stack == below + [c'];
    SamePick(s, s', below, c, c');
    LinkTells(g, s, s', below, c, c', t);
  }

  lemma RequeueTells(g: Config, s: Sched, c: SoftLock.Ctx<Job>)
    requires Inv(g, s) && AllTell(s) && s.lock.stack == [c] && c.job.op == Pick(Begin)
    ensures AllTell(Requeue(s, c.job))
  {
    hide SoftLock.Inv, Jobs, IdleOk;
    var s' := Requeue(s, c.job);
    assert Placed(s, s.cur);
    assert s.cur in s.ready ==> multiset(s.ready)[s.cur] >= 1;
    forall u ensures Tells(s', u) { assert Tells(s, u); }
  }

  lemma ChooseTells(g: Config, s: Sched, c: SoftLock.Ctx<Job>)
    requires Inv(g, s) && AllTell(s) && s.lock.stack == [c] && c.job.op == Pick(Requeued) && s.ready != []
    ensures AllTell(Choose(g, s, c.job))
  {
    hide SoftLock.Inv, Jobs, IdleOk, CurrentOk, Best;
    var s' := Choose(g, s, c.job);
    var k := Best(g, s.ready);
    var t := s.ready[k];
    assert Placed(s, t);
    WithoutMembers(s.ready, k);
    forall u ensures Tells(s', u) { assert Tells(s, u); }
  }

  lemma WithoutMembers(tasks: seq<nat>, k: nat)
    requires k < |tasks| && multiset(tasks)[tasks[k]] <= 1
    ensures forall u :: u in L.Without(tasks, k) <==> u in tasks && u != tasks[k]
  {
    WithoutCount(tasks, k);
    forall u ensures u in L.Without(tasks, k) <==> u in tasks && u != tasks[k] {
      assert multiset(tasks)[u] == multiset(L.Without(tasks, k))[u] + multiset{tasks[k]}[u];
      assert u in tasks <==> multiset(tasks)[u] >= 1;
    }
  }

  lemma SwitchTells(g: Config, s: Sched, c: SoftLock.Ctx<Job>, next: nat)
    requires Inv(g, s) && AllTell(s) && s.lock.stack == [c] && c.job.op == Pick(Chosen(next))
    ensures AllTell(Switch(s, c.job, next))
  {
    hide SoftLock.Inv, Jobs, IdleOk, Placed;
    var s' := Switch(s, c.job, next);
    assert !s.owns && Picked(s, next);
    forall u ensures Tells(s', u) { assert Tells(s, u); }
  }

  lemma OpTells(g: Config, s: Sched)
    requires Inv(g, s) && AllTell(s) && s.lock.stack != [] && SoftLock.Top(s.lock).phase == SoftLock.Full && !OpDone(SoftLock.Top(s.lock).job.op)
    ensures AllTell(OpStep(g, s, SoftLock.Top(s.lock).job))
  {
    hide Inv, AllTell, Compare, LinkReady, Requeue, Choose, Switch;
    OpenInv(g, s);
    var below, c := Unstack(g, s);
    if c.job.op.Insert? {
      if c.job.op.stage == Carrying { CompareTells(g, s, below, c); } else { LinkReadyTells(g, s, below, c); }
    } else {
      assert s.lock.stack == [c];
      match c.job.op.choice {
        case Begin => RequeueTells(g, s, c);
        case Requeued =>
          ReadyThen(g, s, c);
          ChooseTells(g, s, c);
        case Chosen(next) => SwitchTells(g, s, c, next);
        case Switched =>
          var s' := ClearRequest(s, c.job);
          assert s.lock.stack == [] + [c] && s'.lock.stack == [] + [c.(job := c.job.(op := Pick(Finished)))];
          SamePick(s, s', [], c, c.(job := c.job.(op := Pick(Finished))));
          SameTell(s, s');
      }
    }
  }

  lemma ReadyThen(g: Config, s: Sched, c: SoftLock.Ctx<Job>)
    requires Inv(g, s) && s.lock.stack == [c] && c.phase == SoftLock.Full && c.job.op == Pick(Requeued)
    ensures s.ready != []
  {
    hide SoftLock.Inv, AllPlaced, CurrentOk, IdleOk;
    assert JobOk(s.lock.stack[0]);
    IdleIsReady(g, s, c);
  }

  lemma PendTells(g: Config, s: Sched, below: seq<SoftLock.Ctx<Job>>, c: SoftLock.Ctx<Job>)
    requires Inv(g, s) && AllTell(s) && s.lock.stack == below + [c] && c == SoftLock.Top(s.lock) && JobOk(c)
    requires c.phase == SoftLock.PendOp && c.job.op.Insert?
    ensures AllTell(PendInsert(g, s, c.job))
  {
    hide Inv, AllTell, SoftLock.Advance, SoftLock.Inv;
    OpenInv(g, s);
    var c' := PendLock(s.lock, below, c, c.job.(op := Insert(c.job.op.t, Inserted)));
    PendHasRoom(g, s, below, c);
    var s' := PendInsert(g, s, c.job);
    SamePick(s, s', below, c, c');
    SameTell(s, s');
  }

  lemma LinkDrainedTells(g: Config, s: Sched, below: seq<SoftLock.Ctx<Job>>, c: SoftLock.Ctx<Job>)
    requires Inv(g, s) && AllTell(s) && s.lock.stack == below + [c] && c == SoftLock.Top(s.lock)
    requires c.phase == SoftLock.Running && c.job.drained.Some?
    ensures AllTell(LinkDrained(g, s, c.job))
  {
    hide Inv, AllTell, Outranks;
    OpenInv(g, s);
    var s' := LinkDrained(g, s, c.job);
    var t := c.job.drained.value;
    var c' := c.(job := c.job.(drained := None));
    assert s'.lock.stack == below + [c'];
    SamePick(s, s', below, c, c');
    RunsNoPick(s, below, c);
    LinkTells(g, s, s', below, c, c', t);
  }

  lemma DrainTells(s: Sched, below: seq<SoftLock.Ctx<Job>>, c: SoftLock.Ctx<Job>)
    requires AllTell(s) && s.lock.stack == below + [c] && c == SoftLock.Top(s.lock) && s.buffer != []
    ensures AllTell(Drain(s, c.job))
  {
    hide AllTell;
    var s' := Drain(s, c.job);
    var c' := c.(job := c.job.(drained := Some(s.buffer[0])));
    assert s'.lock.stack == below + [c'];
    SamePick(s, s', below, c, c');
    SameTell(s, s');
  }

  lemma LockTells(s: Sched, below: seq<SoftLock.Ctx<Job>>, c: SoftLock.Ctx<Job>)
    requires AllTell(s) && s.lock.stack == below + [c] && JobOk(c)
    ensures AllTell(s.(lock := SoftLock.Advance(s.lock)))
  {
    hide AllTell, SoftLock.Advance;
    var s' := s.(lock := SoftLock.Advance(s.lock));
    SoftLock.AdvanceOnTop(s.lock, below, c);
    if s'.lock.stack == below {
      GonePick(s, s', below, c);
    } else {
      SamePick(s, s', below, c, SoftLock.NextCtx(s.lock, c));
    }
    SameTell(s, s');
  }

  /** The insert buffer, and the steps of the lock. */
  lemma RestTells(g: Config, s: Sched)
    requires Inv(g, s) && AllTell(s) && s.lock.stack != [] && !(SoftLock.Top(s.lock).phase == SoftLock.Full && !OpDone(SoftLock.Top(s.lock).job.op))
    ensures AllTell(Step(g, s))
  {
    hide Inv, AllTell, OpStep, PendInsert, Drain, LinkDrained, JobOk;
    OpenInv(g, s);
    var below, c := Unstack(g, s);
    if c.phase == SoftLock.PendOp && c.job.op.Insert? { PendTells(g, s, below, c); }
    else if c.phase == SoftLock.Running && c.job.drained.Some? { LinkDrainedTells(g, s, below, c); }
    else if c.phase == SoftLock.Running && s.buffer != [] { DrainTells(s, below, c); }
    else { LockTells(s, below, c); }
  }

  lemma RunsNoPick(s: Sched, below: seq<SoftLock.Ctx<Job>>, c: SoftLock.Ctx<Job>)
    requires SoftLock.Inv(s.lock) && Jobs(s) && s.lock.stack == below + [c] && c == SoftLock.Top(s.lock) && c.phase == SoftLock.Running
    ensures forall t :: !Picked(s, t)
  {
    NotChoosingInRun(s, below, c);
  }

  lemma PendHasRoom(g: Config, s: Sched, below: seq<SoftLock.Ctx<Job>>, c: SoftLock.Ctx<Job>)
    requires Inv(g, s) && s.lock.stack == below + [c] && c.phase == SoftLock.PendOp && c.job.op.Insert? && JobOk(c)
    ensures |s.buffer| < g.max
  {
    BufferHasRoom(g, s, below, c, c.job.op.t);
  }

  /** An access that leaves has no choice to keep. */
  lemma GonePick(s: Sched, s': Sched, below: seq<SoftLock.Ctx<Job>>, c: SoftLock.Ctx<Job>)
    requires s.lock.stack == below + [c] && s'.lock.stack == below && JobOk(c) && c.phase != SoftLock.Full && c.phase != SoftLock.Enter && c.phase != SoftLock.PendOp
    ensures forall t {:trigger Picked(s', t)} :: Picked(s', t) <==> Picked(s, t)
  {
    if below != [] { assert s'.lock.stack[0] == s.lock.stack[0]; }
  }

  lemma ActionTells(g: Config, s: Sched, a: Action)
    requires Inv(g, s) && AllTell(s) && Enabled(g, s, a)
    ensures AllTell(Apply(g, s, a))
  {
    hide Inv, AllTell, Step;
    match a {
      case Create(t) => CreateTells(g, s, t);
      case BeginBlock => LeaveTells(g, s, a);
      case Destruct => LeaveTells(g, s, a);
      case Accept(_) => ArriveTells(g, s, a);
      case PendSV => ArriveTells(g, s, a);
      case Go =>
        if SoftLock.Top(s.lock).phase == SoftLock.Full && !OpDone(SoftLock.Top(s.lock).job.op) {
          OpTells(g, s);
          assert Step(g, s) == OpStep(g, s, SoftLock.Top(s.lock).job) by { StepIsOp(g, s); }
        } else {
          RestTells(g, s);
        }
      case _ =>
        assert forall t :: Picked(Apply(g, s, a), t) <==> Picked(s, t);
        SameTell(s, Apply(g, s, a));
    }
  }

  lemma StepIsOp(g: Config, s: Sched)
    requires s.lock.stack != [] && SoftLock.Top(s.lock).phase == SoftLock.Full && !OpDone(SoftLock.Top(s.lock).job.op)
    ensures Step(g, s) == OpStep(g, s, SoftLock.Top(s.lock).job)
  {
  }

  lemma StartTells(g: Config, ready: seq<nat>)
    requires CanStart(g, ready)
    ensures AllTell(Start(g, ready))
  {
  }

  lemma {:induction false} RunTells(g: Config, ready: seq<nat>, schedule: seq<Action>)
    requires CanStart(g, ready) && Run(g, ready, schedule).Some?
    ensures AllTell(Run(g, ready, schedule).value)
  {
    hide Inv, AllTell, CanStart, Order, Start;
    if schedule == [] {
      StartTells(g, ready);
    } else {
      var before := schedule[..|schedule| - 1];
      RunTells(g, ready, before);
      RunKeepsInv(g, ready, before);
      ActionTells(g, Run(g, ready, before).value, schedule[|schedule| - 1]);
    }
  }

  /**
   In every run the state word of a task tells its place: ready tasks are those in the ready list, running is the current task or the
   one just chosen, and a live task in any other state is in the insert buffer, in a container, in hands, or with an access.
   */
  lemma StateTellsPlace(g: Config, ready: seq<nat>, schedule: seq<Action>, t: nat)
    requires CanStart(g, ready) && Run(g, ready, schedule).Some?
    ensures (var s := Run(g, ready, schedule).value;
             && (StateOf(s, t) == Ready <==> t in s.ready)
             && (StateOf(s, t) == TaskState.Running <==> (s.owns && t == s.cur) || Picked(s, t))
             && (t in s.live && (StateOf(s, t) == Blocked || StateOf(s, t) == Initializing)
                 ==> multiset(s.buffer)[t] + s.parked[t] + s.hands[t] + Carried(s.lock.stack, t) == 1))
  {
    hide Inv, CanStart, Carried, Run;
    RunTells(g, ready, schedule);
    OnePlaceEach(g, ready, schedule, t);
    var s := Run(g, ready, schedule).value;
    assert Tells(s, t);
  }
}
