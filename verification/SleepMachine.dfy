/**
 The sleep queue under its soft lock. The tick handler, and whoever wakes a sleeper early, may preempt a holder of the queue at
 every atomic operation, also in the middle of waking; what they ask for is then left to the holder. Ticks are true ticks, which
 do not wrap around; `TaskList.InsertSortedIff` and `SleepQueue.ExpiryRightIff` say when the wrapped ones agree with them.
 */
module SleepMachine {

  import opened Common
  import opened SoftLock
  import T = TaskList

  datatype Op = Add(task: nat, wake: int) | Remove(task: nat) | Tick

  datatype Job = Job(op: Op, done: bool)

  /** A sleeper; `late` if its time had come, by the last waking's tick, when it was queued. */
  datatype Entry = Entry(task: nat, wake: int, late: bool)

  /**
   How far the holder is with waking: about to read the tick, at the front of the queue, at the delete buffer, about to clear
   the request. `run` tells run_pended_op from the tick handler itself.
   */
  datatype Stage = NoWake | Read | Scan(run: bool) | Drain(run: bool) | Clear

  /**
   `flag` is time_to_wakeup. The rest is bookkeeping: the tick of the last handler call that took effect, the tick that the last
   waking read, whether a call has been erased since, and all tasks queued and handed to the scheduler so far.
   */
  datatype Sleep = Sleep(lock: State<Job>, entries: seq<Entry>, buffer: seq<nat>, flag: bool, now: int, stage: Stage,
                         asked: int, lastRead: int, erased: bool, added: multiset<nat>, accepted: multiset<nat>)

  function Init(now: int): Sleep
  {
    Sleep(SoftLock.Init(), [], [], false, now, NoWake, now, now, false, multiset{}, multiset{})
  }

  function Wakes(entries: seq<Entry>): (w: seq<int>)
    ensures |w| == |entries| && forall i {:trigger w[i]} {:trigger entries[i]} :: 0 <= i < |w| ==> w[i] == entries[i].wake
  {
    seq(|entries|, i requires 0 <= i < |entries| => entries[i].wake)
  }

  function Names(entries: seq<Entry>): (n: seq<nat>)
    ensures |n| == |entries| && forall i {:trigger n[i]} :: 0 <= i < |n| ==> n[i] == entries[i].task
  {
    seq(|entries|, i requires 0 <= i < |entries| => entries[i].task)
  }

  function Tasks(entries: seq<Entry>): multiset<nat> { multiset(Names(entries)) }

  function Insert(entries: seq<Entry>, e: Entry): seq<Entry>
  {
    var k := T.NotLater(Wakes(entries), e.wake);
    entries[..k] + [e] + entries[k..]
  }

  /** The position of the first entry of `task`, or the length. */
  function Find(entries: seq<Entry>, task: nat): (k: nat)
    ensures k <= |entries| && (k < |entries| ==> entries[k].task == task) && forall i :: 0 <= i < k ==> entries[i].task != task
  {
    if entries == [] || entries[0].task == task then 0 else 1 + Find(entries[1..], task)
  }

  /** Take the entry at `k` out and hand its task to the scheduler. */
  function Accept(m: Sleep, k: nat): Sleep
    requires k < |m.entries|
  {
    m.(entries := m.entries[..k] + m.entries[k + 1..], accepted := m.accepted + multiset{m.entries[k].task})
  }

  function TakeOut(m: Sleep, task: nat): Sleep
  {
    var k := Find(m.entries, task);
    if k < |m.entries| then Accept(m, k) else m
  }

  /** The next step of waking. */
  function WakeStep(m: Sleep): Sleep
    requires m.stage.Read? || m.stage.Scan? || m.stage.Drain?
  {
    match m.stage
    case Read => m.(stage := Scan(true), lastRead := m.now, erased := false)
    case Scan(run) =>
      if m.entries != [] && m.entries[0].wake <= m.lastRead then Accept(m, 0) else m.(stage := Drain(run))
    case Drain(run) =>
      if m.buffer != [] then TakeOut(m.(buffer := m.buffer[1..]), m.buffer[0])
      else m.(stage := if run then Clear else NoWake)
  }

  /** Between reading the tick in run_pended_op and clearing the request. */
  predicate InWindow(stage: Stage)
  {
    stage == Scan(true) || stage == Drain(true) || stage == Clear
  }

  /** The next atomic step of the access on top. */
  function Step(m: Sleep): Sleep
    requires m.lock.stack != []
  {
    var c := Top(m.lock);
    if c.phase == Full && !c.job.done then
      match c.job.op
      case Add(t, wake) =>
        m.(lock := Work(m.lock, c.job.(done := true)), entries := Insert(m.entries, Entry(t, wake, wake <= m.lastRead)),
           added := m.added + multiset{t})
      case Remove(t) => TakeOut(m.(lock := Work(m.lock, c.job.(done := true))), t)
      case Tick =>
        if m.stage == NoWake then m.(stage := Scan(false), lastRead := m.now, asked := m.now, erased := false)
        else if m.stage == Drain(false) && m.buffer == [] then WakeStep(m).(lock := Work(m.lock, c.job.(done := true)))
        else if m.stage == Scan(false) || m.stage == Drain(false) then WakeStep(m)
        else m
    else if c.phase == PendOp then
      var m' := m.(lock := Advance(m.lock));
      match c.job.op
      case Remove(t) => m'.(buffer := m.buffer + [t])
      case _ => m'.(flag := true, asked := m.now, erased := m.erased || (InWindow(m.stage) && m.now > m.lastRead))
    else if c.phase == RunStart then
      m.(lock := Advance(m.lock), stage := if m.flag then Read else NoWake)
    else if c.phase == Running && m.stage == Clear then
      m.(flag := false, stage := NoWake)
    else if c.phase == Running && m.stage != NoWake then
      WakeStep(m)
    else
      m.(lock := Advance(m.lock))
  }

  datatype Action = NextTick | StartTick | StartRemove(t: nat) | StartAdd(t: nat, wake: int) | Go

  /** Sleepers are queued by tasks, with the scheduler suspended; everything else may happen at any time. */
  predicate Enabled(m: Sleep, a: Action)
  {
    match a
    case StartAdd(_, _) => m.lock.stack == []
    case Go => m.lock.stack != []
    case _ => true
  }

  function Apply(m: Sleep, a: Action): Sleep
    requires Enabled(m, a)
  {
    match a
    case NextTick => m.(now := m.now + 1)
    case StartTick => m.(lock := Arrive(m.lock, false, Job(Tick, false)))
    case StartRemove(t) => m.(lock := Arrive(m.lock, false, Job(Remove(t), false)))
    case StartAdd(t, wake) => m.(lock := Arrive(m.lock, true, Job(Add(t, wake), false)))
    case Go => Step(m)
  }

  /** The state that a schedule leads to; none when an action is not possible. */
  function Run(now: int, schedule: seq<Action>): Option<Sleep>
  {
    if schedule == [] then Some(Init(now))
    else
      var before := Run(now, schedule[..|schedule| - 1]);
      var last := schedule[|schedule| - 1];
      if before.Some? && Enabled(before.value, last) then Some(Apply(before.value, last)) else None
  }

  // ---------- The invariant ----------

  ghost predicate JobOk(c: Ctx<Job>)
  {
    && (c.must <==> c.job.op.Add?)
    && (c.phase == Enter || c.phase == PendOp || c.phase == PendDone ==> !c.job.done)
    && (!c.job.done ==> c.phase == Enter || c.phase == Full || c.phase == PendOp || c.phase == PendDone)
  }

  /** The context at `i` is the one that wakes. */
  ghost predicate WakesAt(m: Sleep, i: int)
  {
    0 <= i < |m.lock.stack| &&
    match m.stage
    case NoWake => false
    case Scan(false) => m.lock.stack[i].phase == Full && m.lock.stack[i].job == Job(Tick, false)
    case Drain(false) => m.lock.stack[i].phase == Full && m.lock.stack[i].job == Job(Tick, false)
    case _ => m.lock.stack[i].phase == Running
  }

  ghost predicate Jobs(m: Sleep)
  {
    forall i {:trigger m.lock.stack[i]} :: 0 <= i < |m.lock.stack| ==> JobOk(m.lock.stack[i])
  }

  /** Requests for waking are honoured, or on record as erased. */
  ghost predicate AskedOk(m: Sleep)
  {
    && m.lastRead <= m.now && m.asked <= m.now
    && (m.flag ==> m.lock.unserved > 0 || m.stage == Read || InWindow(m.stage))
    && (m.asked > m.lastRead && !m.erased ==> m.flag && (m.lock.unserved > 0 || m.stage == Read))
    && (m.erased ==> m.asked > m.lastRead) && (InWindow(m.stage) && m.asked > m.lastRead ==> m.erased)
  }

  /** The queue is in order, and everything due by the last waking has gone unless it came late. */
  ghost predicate EntriesOk(m: Sleep)
  {
    && T.Sorted(Wakes(m.entries))
    && (forall i {:trigger m.entries[i]} :: 0 <= i < |m.entries| ==> EntryOk(m, m.entries[i]))
  }

  predicate EntryOk(m: Sleep, e: Entry)
  {
    (e.late ==> e.wake <= m.lastRead) && (e.wake <= m.lastRead && !e.late ==> m.stage.Scan?)
  }

  ghost predicate Inv(m: Sleep)
  {
    && SoftLock.Inv(m.lock) && Jobs(m) && (m.stage != NoWake ==> exists i :: WakesAt(m, i))
    && AskedOk(m) && EntriesOk(m) && m.added == Tasks(m.entries) + m.accepted
  }

  // ---------- The queue ----------

  lemma NamesConcat(a: seq<Entry>, b: seq<Entry>)
    ensures Names(a + b) == Names(a) + Names(b)
  {
  }

  /** The tasks of the entries with and without the one between `a` and `b`. */
  lemma TasksAround(a: seq<Entry>, e: Entry, b: seq<Entry>)
    ensures Tasks(a + [e] + b) == Tasks(a + b) + multiset{e.task}
  {
    NamesConcat(a + [e], b);
    NamesConcat(a, [e]);
    NamesConcat(a, b);
    assert Names([e]) == [e.task];
    hide Names;
    assert multiset(Names(a) + [e.task] + Names(b)) == multiset(Names(a) + Names(b)) + multiset{e.task};
  }

  /** Taking one entry out keeps order, and moves its task to those accepted. */
  lemma AcceptKeeps(m: Sleep, k: nat)
    requires k < |m.entries| && EntriesOk(m)
    ensures EntriesOk(Accept(m, k))
    ensures Tasks(Accept(m, k).entries) + Accept(m, k).accepted == Tasks(m.entries) + m.accepted
  {
    AcceptOrder(m, k);
    hide Tasks, EntriesOk;
    var a, e, b := m.entries[..k], m.entries[k], m.entries[k + 1..];
    assert m.entries == a + [e] + b;
    TasksAround(a, e, b);
  }

  lemma AcceptOrder(m: Sleep, k: nat)
    requires k < |m.entries| && EntriesOk(m)
    ensures EntriesOk(Accept(m, k))
  {
    var m' := Accept(m, k);
    assert forall i {:trigger m'.entries[i]} :: 0 <= i < |m'.entries| ==> m'.entries[i] == m.entries[if i < k then i else i + 1];
    forall i, j | 0 <= i < j < |m'.entries| ensures Wakes(m'.entries)[i] <= Wakes(m'.entries)[j] {
      assert Wakes(m.entries)[if i < k then i else i + 1] <= Wakes(m.entries)[if j < k then j else j + 1];
    }
  }

  lemma TakeOutKeeps(m: Sleep, task: nat)
    requires EntriesOk(m)
    ensures EntriesOk(TakeOut(m, task))
    ensures Tasks(TakeOut(m, task).entries) + TakeOut(m, task).accepted == Tasks(m.entries) + m.accepted
  {
    hide EntriesOk;
    var k := Find(m.entries, task);
    if k < |m.entries| { AcceptKeeps(m, k); }
  }

  /** A new sleeper finds its place. */
  lemma InsertKeeps(m: Sleep, m': Sleep, e: Entry)
    requires EntriesOk(m) && m'.entries == Insert(m.entries, e) && m'.lastRead == m.lastRead && m'.stage == m.stage
    requires e.late <==> e.wake <= m.lastRead
    ensures EntriesOk(m') && Tasks(m'.entries) == Tasks(m.entries) + multiset{e.task}
  {
    InsertOrder(m, m', e);
    hide Tasks, EntriesOk, T.NotLater;
    var k := T.NotLater(Wakes(m.entries), e.wake);
    var a, b := m.entries[..k], m.entries[k..];
    assert m.entries == a + b;
    TasksAround(a, e, b);
  }

  lemma InsertOrder(m: Sleep, m': Sleep, e: Entry)
    requires EntriesOk(m) && m'.entries == Insert(m.entries, e) && m'.lastRead == m.lastRead && m'.stage == m.stage
    requires e.late <==> e.wake <= m.lastRead
    ensures EntriesOk(m')
  {
    hide T.NotLater;
    var k := T.NotLater(Wakes(m.entries), e.wake);
    assert forall i {:trigger m'.entries[i]} :: 0 <= i < |m'.entries| ==> m'.entries[i] == if i == k then e else m.entries[if i < k then i else i - 1];
    forall i, j | 0 <= i < j < |m'.entries| ensures Wakes(m'.entries)[i] <= Wakes(m'.entries)[j] {
      if i != k && j != k { assert Wakes(m.entries)[if i < k then i else i - 1] <= Wakes(m.entries)[if j < k then j else j - 1]; }
      if i == k { assert Wakes(m.entries)[k] <= Wakes(m.entries)[j - 1]; }
    }
  }

  /** When the entry at the front is not due, none is. */
  lemma ScanEnds(m: Sleep, m': Sleep)
    requires EntriesOk(m) && (m.entries != [] ==> m.entries[0].wake > m.lastRead)
    requires m'.entries == m.entries && m'.lastRead == m.lastRead
    ensures EntriesOk(m')
  {
    forall i {:trigger m'.entries[i]} | 0 <= i < |m'.entries| ensures EntryOk(m', m'.entries[i]) {
      assert Wakes(m.entries)[0] <= Wakes(m.entries)[i];
    }
  }

  // ---------- Steps ----------

  /** The contexts below the top one, and the top one. */
  lemma Unstack(m: Sleep) returns (below: seq<Ctx<Job>>, c: Ctx<Job>)
    requires Inv(m) && m.lock.stack != []
    ensures m.lock.stack == below + [c] && c == Top(m.lock) && |below| == |m.lock.stack| - 1 && JobOk(c)
    ensures HoldsLock(c.phase) ==> forall i :: WakesAt(m, i) ==> i == |below|
    ensures c.must ==> below == [] && c.phase != PendOp && c.phase != PendDone
  {
    below, c := m.lock.stack[..|m.lock.stack| - 1], Top(m.lock);
    assert m.lock.stack == below + [c];
    assert m.lock.stack[|below|] == c;
    if HoldsLock(c.phase) {
      TopHolds(m.lock);
    }
    if c.must { MustFacts(m.lock); }
  }

  lemma JobsKeep(m: Sleep, m': Sleep, below: seq<Ctx<Job>>, c': Ctx<Job>)
    requires Jobs(m) && |below| <= |m.lock.stack| && m.lock.stack[..|below|] == below
    requires m'.lock.stack == below + [c'] && JobOk(c')
    ensures Jobs(m')
  {
    forall i {:trigger m'.lock.stack[i]} | 0 <= i < |m'.lock.stack| ensures JobOk(m'.lock.stack[i]) {
      if i < |below| { assert m.lock.stack[i] == below[i]; }
    }
  }

  lemma WakesStays(m: Sleep, m': Sleep, below: seq<Ctx<Job>>)
    requires m.stage != NoWake ==> exists i :: WakesAt(m, i)
    requires m'.stage == m.stage && |below| <= |m.lock.stack| && |below| <= |m'.lock.stack|
    requires m.lock.stack[..|below|] == below && m'.lock.stack[..|below|] == below
    requires forall i :: WakesAt(m, i) ==> i < |below|
    ensures m'.stage != NoWake ==> exists i :: WakesAt(m', i)
  {
    if m.stage != NoWake {
      var i :| WakesAt(m, i);
      assert m.lock.stack[i] == below[i] == m'.lock.stack[i];
      assert WakesAt(m', i);
    }
  }

  /** A task is queued, or taken out, under full access. */
  lemma FullKeeps(m: Sleep)
    requires Inv(m) && m.lock.stack != [] && Top(m.lock).phase == Full && !Top(m.lock).job.done && !Top(m.lock).job.op.Tick?
    ensures Inv(Step(m))
  {
    hide SoftLock.Inv, EntriesOk, Tasks, Advance, Insert, TakeOut;
    var below, c := Unstack(m);
    var m' := Step(m);
    var c' := c.(job := c.job.(done := true));
    assert m.stage == NoWake by { assert !WakesAt(m, |below|); }
    var m1 := m.(lock := Work(m.lock, c'.job));
    assert m1.lock.stack == below + [c'];
    ApplyKeeps(m.lock, DoWork(c'.job));
    match c.job.op
    case Add(t, wake) =>
      InsertKeeps(m, m', Entry(t, wake, wake <= m.lastRead));
      JobsKeep(m, m', below, c');
    case Remove(t) =>
      EntriesSame(m, m1);
      TakeOutKeeps(m1, t);
      TakeOutFrame(m1, t);
      JobsKeep(m, m', below, c');
  }

  lemma EntriesSame(m: Sleep, m': Sleep)
    requires EntriesOk(m) && m'.entries == m.entries && m'.lastRead == m.lastRead && m'.stage == m.stage
    ensures EntriesOk(m')
  {
  }

  lemma TakeOutFrame(m: Sleep, t: nat)
    ensures TakeOut(m, t) == m.(entries := TakeOut(m, t).entries, accepted := TakeOut(m, t).accepted)
  {
  }

  /** A step of waking. */
  lemma WakeParts(m: Sleep)
    requires AskedOk(m) && EntriesOk(m) && (m.stage.Read? || m.stage.Scan? || m.stage.Drain?)
    ensures AskedOk(WakeStep(m)) && EntriesOk(WakeStep(m))
    ensures Tasks(WakeStep(m).entries) + WakeStep(m).accepted == Tasks(m.entries) + m.accepted
    ensures WakeStep(m).lock == m.lock && WakeStep(m).added == m.added
  {
    hide Tasks, TakeOut;
    match m.stage
    case Read =>
    case Scan(run) =>
      if m.entries != [] && m.entries[0].wake <= m.lastRead { AcceptKeeps(m, 0); } else { ScanEnds(m, WakeStep(m)); }
    case Drain(run) =>
      if m.buffer != [] {
        var m1 := m.(buffer := m.buffer[1..]);
        EntriesSame(m, m1);
        TakeOutKeeps(m1, m.buffer[0]);
        TakeOutFrame(m1, m.buffer[0]);
      } else {
        assert forall i {:trigger m.entries[i]} :: 0 <= i < |m.entries| ==> EntryOk(WakeStep(m), m.entries[i]);
      }
  }

  /** A tick handler with full access wakes by itself. */
  lemma TickKeeps(m: Sleep)
    requires Inv(m) && m.lock.stack != [] && Top(m.lock).phase == Full && Top(m.lock).job == Job(Tick, false)
    ensures Inv(Step(m))
  {
    hide SoftLock.Inv, EntriesOk, AskedOk, Tasks, WakeStep;
    var below, c := Unstack(m);
    var m' := Step(m);
    if m.stage == NoWake {
      TickBegins(m);
      assert WakesAt(m', |below|);
    } else {
      var i :| WakesAt(m, i);
      assert m.stage == Scan(false) || m.stage == Drain(false);
      WakeParts(m);
      if m.stage == Drain(false) && m.buffer == [] {
        var c' := c.(job := c.job.(done := true));
        assert m'.lock.stack == below + [c'];
        ApplyKeeps(m.lock, DoWork(c'.job));
        JobsKeep(m, m', below, c');
        WakeEnds(m, m');
      } else {
        WakeGoesOn(m);
        assert WakesAt(m', |below|);
      }
    }
  }

  lemma TickBegins(m: Sleep)
    requires AskedOk(m) && EntriesOk(m) && m.stage == NoWake
    ensures (var m' := m.(stage := Scan(false), lastRead := m.now, asked := m.now, erased := false); AskedOk(m') && EntriesOk(m'))
  {
  }

  /** The parts that do not mention the stack carry over to another one with as many operations unserved. */
  lemma WakeEnds(m: Sleep, m': Sleep)
    requires m.stage == Drain(false) && m.buffer == []
    requires AskedOk(WakeStep(m)) && EntriesOk(WakeStep(m))
    requires m' == WakeStep(m).(lock := m'.lock) && m'.lock.unserved == m.lock.unserved
    ensures AskedOk(m') && EntriesOk(m') && m'.stage == NoWake
  {
  }

  lemma WakeGoesOn(m: Sleep)
    requires m.stage == Read || m.stage.Scan? || (m.stage.Drain? && (m.buffer != [] || m.stage.run))
    ensures WakeStep(m).stage == if m.stage == Read then Scan(true)
      else if m.stage.Scan? then (if m.entries != [] && m.entries[0].wake <= m.lastRead then m.stage else Drain(m.stage.run))
      else if m.buffer != [] then m.stage else Clear
  {
  }

  /** What the holder's parts need when only the lock, the flag and the request change. */
  lemma OtherParts(m: Sleep, m': Sleep)
    requires EntriesOk(m) && !m.stage.Scan? && !m.stage.Drain? && !m'.stage.Scan? && !m'.stage.Drain?
    requires m'.entries == m.entries && m'.lastRead == m.lastRead
    ensures EntriesOk(m')
  {
  }

  /** A pend-only access leaves its request. */
  lemma PendKeeps(m: Sleep)
    requires Inv(m) && m.lock.stack != [] && Top(m.lock).phase == PendOp
    ensures Inv(Step(m))
  {
    hide SoftLock.Inv, EntriesOk, Tasks, Advance, InWindow;
    var below, c := Unstack(m);
    var m' := Step(m);
    AdvanceOnTop(m.lock, below, c);
    ApplyKeeps(m.lock, DoAdvance);
    JobsKeep(m, m', below, c.(phase := PendDone));
    EntriesSame(m, m');
    assert m.lock.stack[|below|] == c;
    WakesStays(m, m', below);
  }

  /** run_pended_op looks at the request. */
  lemma RunStartKeeps(m: Sleep)
    requires Inv(m) && m.lock.stack != [] && Top(m.lock).phase == RunStart
    ensures Inv(Step(m))
  {
    hide SoftLock.Inv, EntriesOk, Tasks, Advance;
    var below, c := Unstack(m);
    var m' := Step(m);
    AdvanceOnTop(m.lock, below, c);
    ApplyKeeps(m.lock, DoAdvance);
    JobsKeep(m, m', below, c.(phase := Running));
    assert m.stage == NoWake by { assert !WakesAt(m, |below|); }
    OtherParts(m, m');
    assert m.flag ==> WakesAt(m', |below|);
  }

  /** run_pended_op clears the request. */
  lemma ClearKeeps(m: Sleep)
    requires Inv(m) && m.lock.stack != [] && Top(m.lock).phase == Running && m.stage == Clear
    ensures Inv(Step(m))
  {
    hide SoftLock.Inv, EntriesOk, Tasks;
    OtherParts(m, Step(m));
  }

  /** run_pended_op wakes. */
  lemma RunWakeKeeps(m: Sleep)
    requires Inv(m) && m.lock.stack != [] && Top(m.lock).phase == Running && m.stage != Clear && m.stage != NoWake
    ensures Inv(Step(m))
  {
    hide SoftLock.Inv, EntriesOk, AskedOk, Tasks, WakeStep;
    var below, c := Unstack(m);
    var i :| WakesAt(m, i);
    assert m.stage == Read || m.stage == Scan(true) || m.stage == Drain(true);
    WakeParts(m);
    WakeGoesOn(m);
    assert WakesAt(Step(m), |below|);
  }

  /** The remaining steps belong to the lock alone. */
  lemma LockStepKeeps(m: Sleep)
    requires Inv(m) && m.lock.stack != []
    requires (var c := Top(m.lock); c.phase != PendOp && c.phase != RunStart && (c.phase == Running ==> m.stage == NoWake) && (c.phase == Full ==> c.job.done))
    ensures Inv(Step(m))
  {
    hide SoftLock.Inv, EntriesOk, Tasks, Advance, InWindow;
    var below, c := Unstack(m);
    var m' := Step(m);
    AdvanceOnTop(m.lock, below, c);
    ApplyKeeps(m.lock, DoAdvance);
    EntriesSame(m, m');
    assert m.lock.stack[|below|] == c;
    if m'.lock.stack == below {
      forall i {:trigger m'.lock.stack[i]} | 0 <= i < |m'.lock.stack| ensures JobOk(m'.lock.stack[i]) {
        assert m.lock.stack[i] == below[i];
      }
    } else {
      JobsKeep(m, m', below, NextCtx(m.lock, c));
    }
    WakesStays(m, m', below);
  }

  /** Every action keeps the invariant. */
  lemma ActionKeeps(m: Sleep, a: Action)
    requires Inv(m) && Enabled(m, a)
    ensures Inv(Apply(m, a))
  {
    hide SoftLock.Inv, Tasks, Step;
    match a
    case NextTick =>
      var m' := Apply(m, a);
      WakesStays(m, m', m.lock.stack);
      EntriesSame(m, m');
    case StartTick => ArriveKeepsInv(m, Tick);
    case StartRemove(t) => ArriveKeepsInv(m, Remove(t));
    case StartAdd(t, wake) => ArriveKeepsInv(m, Add(t, wake));
    case Go =>
      var c := Top(m.lock);
      if c.phase == Full && !c.job.done {
        if c.job.op.Tick? { TickKeeps(m); } else { FullKeeps(m); }
      } else if c.phase == PendOp { PendKeeps(m); }
      else if c.phase == RunStart { RunStartKeeps(m); }
      else if c.phase == Running && m.stage == Clear { ClearKeeps(m); }
      else if c.phase == Running && m.stage != NoWake { RunWakeKeeps(m); }
      else { LockStepKeeps(m); }
  }

  lemma ArriveKeepsInv(m: Sleep, op: Op)
    requires Inv(m) && (op.Add? ==> m.lock.stack == [])
    ensures Inv(m.(lock := Arrive(m.lock, op.Add?, Job(op, false))))
  {
    hide SoftLock.Inv, Tasks, EntriesOk, InWindow;
    var m' := m.(lock := Arrive(m.lock, op.Add?, Job(op, false)));
    ApplyKeeps(m.lock, DoArrive(op.Add?, Job(op, false)));
    var below := m.lock.stack;
    JobsKeep(m, m', below, m'.lock.stack[|below|]);
    EntriesSame(m, m');
    WakesStays(m, m', below);
  }

  lemma {:induction false} RunKeepsInv(now: int, schedule: seq<Action>)
    requires Run(now, schedule).Some?
    ensures Inv(Run(now, schedule).value)
  {
    hide Apply, Enabled;
    if schedule == [] {
      assert SoftLock.InvAt(Init(now).lock, -1);
    } else {
      RunKeepsInv(now, schedule[..|schedule| - 1]);
      ActionKeeps(Run(now, schedule[..|schedule| - 1]).value, schedule[|schedule| - 1]);
    }
  }

  // ---------- What holds in every run ----------

  /** Every sleeper is in the queue or has been handed to the scheduler, exactly once. */
  lemma NoneLost(now: int, schedule: seq<Action>)
    requires Run(now, schedule).Some?
    ensures (var m := Run(now, schedule).value; m.added == Tasks(m.entries) + m.accepted && T.Sorted(Wakes(m.entries)))
  {
    RunKeepsInv(now, schedule);
  }

  /** The tasks whose removal has been put off since waking last came to its end, in order. */
  function PutOff(now: int, schedule: seq<Action>): seq<nat>
    requires Run(now, schedule).Some?
  {
    if schedule == [] then []
    else
      var before := PutOff(now, schedule[..|schedule| - 1]);
      PutOffNext(Run(now, schedule[..|schedule| - 1]).value, schedule[|schedule| - 1], before)
  }

  function PutOffNext(m: Sleep, a: Action, before: seq<nat>): seq<nat>
    requires Enabled(m, a)
  {
    if a.Go? && Top(m.lock).phase == PendOp && Top(m.lock).job.op.Remove? then before + [Top(m.lock).job.op.task]
    else if m.stage.Drain? && !Apply(m, a).stage.Drain? then []
    else before
  }

  /** The buffer holds the last of the removals put off; all of them while nobody is at it. */
  ghost predicate Buffered(m: Sleep, put: seq<nat>)
  {
    |m.buffer| <= |put| && m.buffer == put[|put| - |m.buffer|..] && (!m.stage.Drain? ==> m.buffer == put)
  }

  lemma BufferedStep(m: Sleep, a: Action, put: seq<nat>)
    requires Inv(m) && Enabled(m, a) && Buffered(m, put)
    ensures Buffered(Apply(m, a), PutOffNext(m, a, put))
  {
    hide SoftLock.Inv, AskedOk, EntriesOk, Tasks, Insert, TakeOut, Accept, InWindow, Buffered, Advance, Arrive, Work, WakeStep;
    if a.Go? {
      var below, c := Unstack(m);
      if c.phase == RunStart { assert m.stage == NoWake by { assert !WakesAt(m, |below|); } }
      GoBuffers(m, put);
    } else {
      SameBuffer(m, Apply(m, a), put);
    }
  }

  lemma SameBuffer(m: Sleep, m': Sleep, put: seq<nat>)
    requires Buffered(m, put) && m'.buffer == m.buffer && (m.stage.Drain? <==> m'.stage.Drain?)
    ensures Buffered(m', put)
  {
  }

  lemma GoBuffers(m: Sleep, put: seq<nat>)
    requires Buffered(m, put) && m.lock.stack != [] && (Top(m.lock).phase == RunStart ==> m.stage == NoWake)
    ensures Buffered(Step(m), PutOffNext(m, Go, put))
  {
    hide Buffered, Step, WakeStep, PutOffNext, SamePlace;
    var m', c := Step(m), Top(m.lock);
    PutOffAt(m, put);
    StepBuffers(m);
    if c.phase == PendOp {
      PendBuffers(m, m', put);
    } else if (m.stage.Read? || m.stage.Scan? || m.stage.Drain?) && SamePlace(m', WakeStep(m)) {
      SameStage(m', WakeStep(m));
      WakeBuffers(m, put);
      CarryBuffers(WakeStep(m), m', if m.stage.Drain? && !WakeStep(m).stage.Drain? then [] else put);
    } else {
      SameBuffer(m, m', put);
    }
  }

  /** What is put off after a step. */
  lemma PutOffAt(m: Sleep, put: seq<nat>)
    requires m.lock.stack != []
    ensures PutOffNext(m, Go, put) ==
      (var c := Top(m.lock);
       if c.phase == PendOp && c.job.op.Remove? then put + [c.job.op.task] else if m.stage.Drain? && !Step(m).stage.Drain? then [] else put)
  {
    hide Step;
  }

  lemma SameStage(m: Sleep, m': Sleep)
    requires SamePlace(m, m')
    ensures m'.stage == m.stage
  {
  }

  predicate SamePlace(m: Sleep, m': Sleep) { m'.buffer == m.buffer && m'.stage == m.stage }

  lemma CarryBuffers(m: Sleep, m': Sleep, put: seq<nat>)
    requires Buffered(m, put) && SamePlace(m', m)
    ensures Buffered(m', put)
  {
  }

  lemma PendBuffers(m: Sleep, m': Sleep, put: seq<nat>)
    requires Buffered(m, put) && m'.stage == m.stage && m.lock.stack != []
    requires m'.buffer == if Top(m.lock).job.op.Remove? then m.buffer + [Top(m.lock).job.op.task] else m.buffer
    ensures Buffered(m', if Top(m.lock).job.op.Remove? then put + [Top(m.lock).job.op.task] else put)
  {
  }

  /** A step of waking, a request left, or neither buffer nor stage of removing moves. */
  lemma StepBuffers(m: Sleep)
    requires m.lock.stack != [] && (Top(m.lock).phase == RunStart ==> m.stage == NoWake)
    ensures (var m', c := Step(m), Top(m.lock);
             if c.phase == PendOp then m'.stage == m.stage && m'.buffer == if c.job.op.Remove? then m.buffer + [c.job.op.task] else m.buffer
             else ((m.stage.Read? || m.stage.Scan? || m.stage.Drain?) && SamePlace(m', WakeStep(m)))
                  || (m'.buffer == m.buffer && (m.stage.Drain? <==> m'.stage.Drain?)))
  {
    hide Insert, InWindow, Advance, Work, WakeStep, TakeOut;
    TakeOutFrames();
  }

  lemma TakeOutFrames()
    ensures forall m: Sleep, t {:trigger TakeOut(m, t)} :: TakeOut(m, t).buffer == m.buffer && TakeOut(m, t).stage == m.stage
  {
  }

  lemma WakeBuffers(m: Sleep, put: seq<nat>)
    requires Buffered(m, put) && (m.stage.Read? || m.stage.Scan? || m.stage.Drain?)
    ensures Buffered(WakeStep(m), if m.stage.Drain? && !WakeStep(m).stage.Drain? then [] else put)
  {
    hide TakeOut;
    TakeOutFrames();
  }

  lemma NothingBuffered(now: int)
    ensures Buffered(Init(now), [])
  {
  }

  lemma {:induction false} RunBuffers(now: int, schedule: seq<Action>)
    requires Run(now, schedule).Some?
    ensures Buffered(Run(now, schedule).value, PutOff(now, schedule))
  {
    hide Apply, Enabled, Inv, Buffered, PutOffNext;
    if schedule == [] {
      NothingBuffered(now);
    } else {
      RunBuffers(now, schedule[..|schedule| - 1]);
      RunKeepsInv(now, schedule[..|schedule| - 1]);
      BufferedStep(Run(now, schedule[..|schedule| - 1]).value, schedule[|schedule| - 1], PutOff(now, schedule[..|schedule| - 1]));
    }
  }

  /**
   While no access is open, the last handler call is behind what waking last read exactly if it has been erased; the buffer holds
   the removals put off since waking last came to its end, in order; and of the sleepers queued in time, those due by the last
   handler call are left only if it has been erased, and only if their time came after what waking last read.
   */
  lemma AtRest(now: int, schedule: seq<Action>)
    requires Run(now, schedule).Some? && Run(now, schedule).value.lock.stack == []
    ensures (var m := Run(now, schedule).value;
             && !m.flag && (m.asked > m.lastRead <==> m.erased) && m.buffer == PutOff(now, schedule)
             && forall e :: e in m.entries && !e.late ==> (e.wake <= m.asked <==> m.erased && m.lastRead < e.wake <= m.asked))
  {
    RunKeepsInv(now, schedule);
    RunBuffers(now, schedule);
    var m := Run(now, schedule).value;
    assert m.stage == NoWake;
    assert forall i {:trigger m.entries[i]} :: 0 <= i < |m.entries| ==> EntryOk(m, m.entries[i]);
  }

  // ---------- The next waking with full access ----------

  lemma RunExtends(now: int, schedule: seq<Action>, a: Action) returns (schedule': seq<Action>)
    requires Run(now, schedule).Some? && Enabled(Run(now, schedule).value, a)
    ensures Run(now, schedule') == Some(Apply(Run(now, schedule).value, a))
    ensures schedule' == schedule + [a]
  {
    schedule' := schedule + [a];
    assert schedule'[..|schedule|] == schedule;
  }

  /** Steps of whoever is on top. */
  function Steps(n: nat): seq<Action> { seq(n, _ => Go) }

  /** The sleepers whose time is after `now`. */
  function Later(entries: seq<Entry>, now: int): seq<Entry>
  {
    if entries == [] then []
    else if entries[0].wake > now then [entries[0]] + Later(entries[1..], now)
    else Later(entries[1..], now)
  }

  /** What is left when the first entry of each of the tasks is taken out. */
  function Without(entries: seq<Entry>, tasks: seq<nat>): seq<Entry>
  {
    if tasks == [] then entries
    else
      var k := Find(entries, tasks[0]);
      Without(if k < |entries| then entries[..k] + entries[k + 1..] else entries, tasks[1..])
  }

  /** What the waking in progress will leave. */
  function Leftover(m: Sleep): seq<Entry>
  {
    Without(if m.stage.Scan? then Later(m.entries, m.lastRead) else m.entries, m.buffer)
  }

  /** A handler, alone, in the middle of its own waking; at the buffer it has left only what is still ahead. */
  ghost predicate Waking(m: Sleep, c: Ctx<Job>)
  {
    && m.lock.stack == [c] && c.phase == Full && c.job == Job(Tick, false) && !m.lock.pending
    && m.asked == m.lastRead == m.now && (m.stage == Scan(false) || (m.stage == Drain(false) && AllAhead(m)))
  }

  ghost predicate AllAhead(m: Sleep)
  {
    forall i {:trigger m.entries[i]} :: 0 <= i < |m.entries| ==> m.entries[i].wake > m.lastRead
  }

  /** A handler that nobody preempts wakes to the end. */
  lemma {:induction false} WakesUp(now: int, schedule: seq<Action>, c: Ctx<Job>) returns (schedule': seq<Action>, n: nat)
    requires Run(now, schedule).Some? && Waking(Run(now, schedule).value, c)
    ensures Run(now, schedule').Some? && schedule' == schedule + Steps(n)
    ensures (var m, m' := Run(now, schedule).value, Run(now, schedule').value;
             m' == m.(lock := Work(m.lock, Job(Tick, true)), stage := NoWake, buffer := [], entries := Leftover(m), accepted := m'.accepted))
    ensures AllAhead(Run(now, schedule').value)
    decreases Ahead(Run(now, schedule).value)
  {
    hide Run, Accept, EntriesOk, Leftover;
    var m := Run(now, schedule).value;
    assert Top(m.lock) == c;
    RunKeepsInv(now, schedule);
    var next := RunExtends(now, schedule, Go);
    WakingGoesOn(m, c);
    if !(m.stage == Drain(false) && m.buffer == []) {
      schedule', n := WakesUp(now, next, c);
      n := n + 1;
    } else {
      schedule', n := next, 1;
    }
  }

  /** What is left to do for a handler that wakes. */
  function Ahead(m: Sleep): nat { |m.entries| + |m.buffer| + (if m.stage.Scan? then 1 else 0) }

  /** The same handler, waking, one step on. */
  ghost predicate GoneOn(m: Sleep, m': Sleep, c: Ctx<Job>)
  {
    && Waking(m', c) && m' == m.(stage := m'.stage, entries := m'.entries, buffer := m'.buffer, accepted := m'.accepted)
    && Leftover(m') == Leftover(m) && Ahead(m') < Ahead(m)
  }

  lemma WakingGoesOn(m: Sleep, c: Ctx<Job>)
    requires Waking(m, c) && Inv(m)
    ensures if m.stage == Drain(false) && m.buffer == []
            then Step(m) == m.(lock := Work(m.lock, Job(Tick, true)), stage := NoWake) && Leftover(m) == m.entries && AllAhead(Step(m))
            else GoneOn(m, Step(m), c)
  {
    hide SoftLock.Inv, Jobs, AskedOk, EntriesOk, TakeOut, AllAhead, GoneOn, Without, Accept;
    if m.stage == Drain(false) && m.buffer == [] {
      SameAhead(m, Step(m));
      WithoutNone(m.entries);
    } else {
      assert Step(m) == WakeStep(m);
      if m.stage.Scan? { ScanGoesOn(m, c); } else { DrainGoesOn(m, c); }
    }
  }

  lemma WithoutNone(entries: seq<Entry>)
    ensures Without(entries, []) == entries
  {
  }

  lemma ScanGoesOn(m: Sleep, c: Ctx<Job>)
    requires Waking(m, c) && EntriesOk(m) && m.stage == Scan(false)
    ensures GoneOn(m, WakeStep(m), c)
  {
    hide EntriesOk, AllAhead, Without;
    if m.entries == [] || m.entries[0].wake > m.lastRead {
      FrontIsFirst(m);
      SameAhead(m, WakeStep(m));
      AheadAreLater(m);
    } else {
      assert WakeStep(m).entries == m.entries[1..];
    }
  }

  lemma DrainGoesOn(m: Sleep, c: Ctx<Job>)
    requires Waking(m, c) && m.stage == Drain(false) && m.buffer != []
    ensures GoneOn(m, WakeStep(m), c)
  {
    hide AllAhead, TakeOut;
    var m1 := m.(buffer := m.buffer[1..]);
    SameAhead(m, m1);
    TakeOutAhead(m1, m.buffer[0]);
    TakeOutFrame(m1, m.buffer[0]);
    TakeOutLeaves(m1, m.buffer[0]);
  }

  lemma TakeOutLeaves(m: Sleep, t: nat)
    ensures Without(TakeOut(m, t).entries, m.buffer) == Without(m.entries, [t] + m.buffer)
  {
    assert ([t] + m.buffer)[1..] == m.buffer;
  }

  lemma AheadAreLater(m: Sleep)
    requires AllAhead(m)
    ensures Later(m.entries, m.lastRead) == m.entries
  {
    AllLater(m.entries, m.lastRead);
  }

  lemma {:induction false} AllLater(entries: seq<Entry>, now: int)
    requires forall i {:trigger entries[i]} :: 0 <= i < |entries| ==> entries[i].wake > now
    ensures Later(entries, now) == entries
  {
    if entries != [] { AllLater(entries[1..], now); }
  }

  lemma FrontIsFirst(m: Sleep)
    requires EntriesOk(m) && (m.entries != [] ==> m.entries[0].wake > m.lastRead)
    ensures AllAhead(m)
  {
    assert forall i {:trigger m.entries[i]} :: 0 < i < |m.entries| ==> Wakes(m.entries)[0] <= Wakes(m.entries)[i];
  }

  lemma SameAhead(m: Sleep, m': Sleep)
    requires AllAhead(m) && m'.entries == m.entries && m'.lastRead == m.lastRead
    ensures AllAhead(m')
  {
  }

  lemma TakeOutAhead(m: Sleep, t: nat)
    requires AllAhead(m)
    ensures AllAhead(TakeOut(m, t)) && |TakeOut(m, t).entries| <= |m.entries|
  {
    hide Find;
    var m', k := TakeOut(m, t), Find(m.entries, t);
    assert forall i {:trigger m'.entries[i]} :: 0 <= i < |m'.entries| ==> m'.entries[i] == m.entries[if i < k then i else i + 1];
  }

  /** From the end of its operation, an access that nobody preempts runs to its end. */
  lemma Finish(now: int, schedule: seq<Action>, c: Ctx<Job>) returns (schedule': seq<Action>)
    requires Run(now, schedule).Some? && Run(now, schedule).value.lock.stack == [c] && !Run(now, schedule).value.lock.pending
    requires c.phase == Full && c.job.done && Run(now, schedule).value.stage == NoWake
    ensures Run(now, schedule').Some? && Run(now, schedule').value.lock.stack == []
    ensures Run(now, schedule').value == Run(now, schedule).value.(lock := Run(now, schedule').value.lock)
    ensures Run(now, schedule').value.lock == Run(now, schedule).value.lock.(locked := false, stack := [])
    ensures schedule' == schedule + Steps(4)
  {
    hide Run;
    var l := Run(now, schedule).value.lock;
    schedule' := RunExtends(now, schedule, Go);
    assert Run(now, schedule').value == Run(now, schedule).value.(lock := l.(stack := [c.(phase := Check)]));
    schedule' := RunExtends(now, schedule', Go);
    var d := c.(phase := Release, passes := c.passes + 1, mark := l.arrivals);
    assert Run(now, schedule').value == Run(now, schedule).value.(lock := l.(stack := [d]));
    schedule' := Leave(now, schedule', d);
  }

  /** Releasing the lock and finding no flag ends an access. */
  lemma Leave(now: int, schedule: seq<Action>, d: Ctx<Job>) returns (schedule': seq<Action>)
    requires Run(now, schedule).Some? && Run(now, schedule).value.lock.stack == [d] && d.phase == Release && !Run(now, schedule).value.lock.pending
    ensures Run(now, schedule').Some? && schedule' == schedule + Steps(2)
    ensures (var m := Run(now, schedule).value; Run(now, schedule').value == m.(lock := m.lock.(locked := false, stack := [])))
  {
    hide Run;
    schedule' := RunExtends(now, schedule, Go);
    schedule' := RunExtends(now, schedule', Go);
  }

  /**
   Whatever has been left, the next handler call with full access clears it: of the sleepers there remain exactly those still ahead
   whose removal was not put off.
   */
  lemma NextWakingClears(now: int, schedule: seq<Action>) returns (schedule': seq<Action>, n: nat)
    requires Run(now, schedule).Some? && Run(now, schedule).value.lock.stack == []
    ensures schedule' == schedule + [StartTick] + Steps(n)
    ensures Run(now, schedule').Some? && Run(now, schedule').value.lock.stack == []
    ensures (var m, m' := Run(now, schedule).value, Run(now, schedule').value;
             && m'.now == m.now == m'.asked == m'.lastRead && !m'.erased && !m'.flag && m'.added == m.added
             && m'.buffer == [] && m'.entries == Without(Later(m.entries, m.now), m.buffer) && AllAhead(m'))
  {
    hide Run, SoftLock.Inv, Accept, Without;
    RunKeepsInv(now, schedule);
    var m := Run(now, schedule).value;
    RestIsFree(m.lock);
    var c := Ctx(Full, false, Job(Tick, false), 0, m.lock.arrivals, m.lock.arrivals);
    schedule' := BeginTick(now, schedule, c);
    LeftoverOf(m, Run(now, schedule').value);
    schedule', n := WakesUp(now, schedule', c);
    schedule' := Finish(now, schedule', c.(job := Job(Tick, true)));
    n := n + 6;
    AtRest(now, schedule');
  }

  lemma LeftoverOf(m: Sleep, m': Sleep)
    requires m'.stage == Scan(false) && m'.entries == m.entries && m'.buffer == m.buffer
    ensures Leftover(m') == Without(Later(m.entries, m'.lastRead), m.buffer)
  {
  }

  /** The handler gets the lock and reads the tick. */
  lemma BeginTick(now: int, schedule: seq<Action>, c: Ctx<Job>) returns (schedule': seq<Action>)
    requires Run(now, schedule).Some? && Run(now, schedule).value.lock.stack == [] && Run(now, schedule).value.stage == NoWake
    requires (var l := Run(now, schedule).value.lock; !l.locked && c == Ctx(Full, false, Job(Tick, false), 0, l.arrivals, l.arrivals))
    ensures schedule' == schedule + [StartTick] + Steps(2)
    ensures Run(now, schedule').Some?
    ensures (var m := Run(now, schedule).value;
             Run(now, schedule').value == m.(lock := m.lock.(locked := true, stack := [c]), stage := Scan(false), lastRead := m.now, asked := m.now, erased := false))
  {
    hide Run;
    schedule' := RunExtends(now, schedule, StartTick);
    schedule' := RunExtends(now, schedule', Go);
    var m := Run(now, schedule).value;
    assert Run(now, schedule').value == m.(lock := m.lock.(locked := true, stack := [c]));
    schedule' := RunExtends(now, schedule', Go);
  }

  lemma RestIsFree(l: State<Job>)
    requires SoftLock.Inv(l) && l.stack == []
    ensures !l.locked && !l.pending
  {
  }

  // ---------- A call that is erased ----------

  /** The clock ticks, and its handler preempts the one holder. */
  lemma TickOver(now: int, schedule: seq<Action>, c: Ctx<Job>) returns (schedule': seq<Action>)
    requires Run(now, schedule).Some? && Run(now, schedule).value.lock.stack == [c] && Run(now, schedule).value.lock.locked
    ensures Run(now, schedule').Some?
    ensures (var m, l := Run(now, schedule).value, Run(now, schedule).value.lock;
             Run(now, schedule').value == m.(lock := l.(pending := true, unserved := l.unserved + 1, arrivals := l.arrivals + 1), now := m.now + 1,
               flag := true, asked := m.now + 1, erased := m.erased || (InWindow(m.stage) && m.now + 1 > m.lastRead)))
  {
    hide Run, InWindow;
    var l := Run(now, schedule).value.lock;
    var t := Ctx(Enter, false, Job(Tick, false), 0, l.arrivals, l.arrivals);
    schedule' := RunExtends(now, schedule, NextTick);
    schedule' := RunExtends(now, schedule', StartTick);
    assert Run(now, schedule').value.lock == l.(stack := [c, t]);
    schedule' := RunExtends(now, schedule', Go);
    assert Run(now, schedule').value.lock == l.(stack := [c, t.(phase := PendOp)]);
    schedule' := LeaveRequest(now, schedule', c, t.(phase := PendOp));
  }

  /** The handler leaves its request. */
  lemma LeaveRequest(now: int, schedule: seq<Action>, c: Ctx<Job>, t: Ctx<Job>) returns (schedule': seq<Action>)
    requires Run(now, schedule).Some? && Run(now, schedule).value.lock.stack == [c, t] && t.phase == PendOp && t.job.op == Tick
    ensures Run(now, schedule').Some?
    ensures (var m, l := Run(now, schedule).value, Run(now, schedule).value.lock;
             Run(now, schedule').value == m.(lock := l.(stack := [c], pending := true, unserved := l.unserved + 1, arrivals := l.arrivals + 1),
               flag := true, asked := m.now, erased := m.erased || (InWindow(m.stage) && m.now > m.lastRead)))
  {
    hide Run, InWindow;
    var l := Run(now, schedule).value.lock;
    schedule' := RunExtends(now, schedule, Go);
    assert Run(now, schedule').value.lock == l.(stack := [c, t.(phase := PendDone)], unserved := l.unserved + 1);
    schedule' := RunExtends(now, schedule', Go);
    assert Run(now, schedule').value.lock.stack == [c];
  }

  /** A task begins to queue a sleeper. */
  lemma BeginAdd(now: int, schedule: seq<Action>, t: nat, wake: int) returns (schedule': seq<Action>)
    requires Run(now, schedule).Some? && Run(now, schedule).value.lock.stack == [] && !Run(now, schedule).value.lock.locked
    ensures Run(now, schedule').Some?
    ensures (var m := Run(now, schedule).value;
             Run(now, schedule').value == m.(lock := m.lock.(locked := true, stack := [Ctx(Full, true, Job(Add(t, wake), false), 0, m.lock.arrivals, m.lock.arrivals)])))
  {
    hide Run;
    schedule' := RunExtends(now, schedule, StartAdd(t, wake));
    schedule' := RunExtends(now, schedule', Go);
  }

  /** The holder queues it. */
  lemma DoAdd(now: int, schedule: seq<Action>, c: Ctx<Job>) returns (schedule': seq<Action>)
    requires Run(now, schedule).Some? && Run(now, schedule).value.lock.stack == [c]
    requires c.phase == Full && !c.job.done && c.job.op.Add?
    ensures Run(now, schedule').Some?
    ensures (var m := Run(now, schedule).value;
             Run(now, schedule').value == m.(lock := Work(m.lock, Job(c.job.op, true)),
               entries := Insert(m.entries, Entry(c.job.op.task, c.job.op.wake, c.job.op.wake <= m.lastRead)), added := m.added + multiset{c.job.op.task}))
  {
    hide Run, Insert;
    schedule' := RunExtends(now, schedule, Go);
  }

  /** The holder finds the request and reads the tick. */
  lemma ToWindow(now: int, schedule: seq<Action>, c: Ctx<Job>) returns (schedule': seq<Action>)
    requires Run(now, schedule).Some? && Run(now, schedule).value.lock.stack == [c]
    requires c.phase == Full && c.job.done && Run(now, schedule).value.stage == NoWake
    requires Run(now, schedule).value.lock.pending && Run(now, schedule).value.flag
    ensures Run(now, schedule').Some?
    ensures (var m, l := Run(now, schedule).value, Run(now, schedule).value.lock;
             Run(now, schedule').value == m.(lock := l.(pending := false, unserved := 0, stack := [c.(phase := Running, passes := c.passes + 1, mark := l.arrivals)]),
               stage := Scan(true), lastRead := m.now, erased := false))
  {
    hide Run;
    var l := Run(now, schedule).value.lock;
    schedule' := RunExtends(now, schedule, Go);
    schedule' := RunExtends(now, schedule', Go);
    var d := c.(phase := RunStart, passes := c.passes + 1, mark := l.arrivals);
    assert Run(now, schedule').value == Run(now, schedule).value.(lock := l.(pending := false, stack := [d]));
    schedule' := ReadTick(now, schedule', d);
  }

  lemma ReadTick(now: int, schedule: seq<Action>, d: Ctx<Job>) returns (schedule': seq<Action>)
    requires Run(now, schedule).Some? && Run(now, schedule).value.lock.stack == [d] && d.phase == RunStart && Run(now, schedule).value.flag
    ensures Run(now, schedule').Some?
    ensures (var m := Run(now, schedule).value;
             Run(now, schedule').value == m.(lock := m.lock.(unserved := 0, stack := [d.(phase := Running)]), stage := Scan(true), lastRead := m.now, erased := false))
  {
    hide Run;
    schedule' := RunExtends(now, schedule, Go);
    schedule' := RunExtends(now, schedule', Go);
  }

  /** With nothing due and nothing to remove, the holder clears the request. */
  lemma ThroughWindow(now: int, schedule: seq<Action>, c: Ctx<Job>) returns (schedule': seq<Action>)
    requires Run(now, schedule).Some? && Run(now, schedule).value.lock.stack == [c] && c.phase == Running
    requires (var m := Run(now, schedule).value; m.stage == Scan(true) && m.buffer == [] && m.entries != [] && m.entries[0].wake > m.lastRead)
    ensures Run(now, schedule').Some?
    ensures Run(now, schedule').value == Run(now, schedule).value.(stage := NoWake, flag := false)
  {
    hide Run;
    schedule' := RunExtends(now, schedule, Go);
    schedule' := RunExtends(now, schedule', Go);
    schedule' := RunExtends(now, schedule', Go);
  }

  /** A pass that finds the flag of the lock but no request leaves everything as it is. */
  lemma IdlePass(now: int, schedule: seq<Action>, c: Ctx<Job>) returns (schedule': seq<Action>, c': Ctx<Job>)
    requires Run(now, schedule).Some? && Run(now, schedule).value.lock.stack == [c] && c.phase == Running && c.job.done
    requires (var m := Run(now, schedule).value; m.stage == NoWake && !m.flag && m.lock.pending && m.lock.locked)
    ensures Run(now, schedule').Some? && c'.phase == Running && c'.job == c.job
    ensures (var m, m' := Run(now, schedule).value, Run(now, schedule').value;
             m' == m.(lock := m.lock.(pending := false, unserved := 0, stack := [c'])))
  {
    hide Run;
    schedule' := ToRelock(now, schedule, c);
    schedule' := RunExtends(now, schedule', Go);
    schedule' := RunExtends(now, schedule', Go);
    schedule' := RunExtends(now, schedule', Go);
    c' := c.(passes := c.passes + 1, mark := Run(now, schedule).value.lock.arrivals);
  }

  lemma ToRelock(now: int, schedule: seq<Action>, c: Ctx<Job>) returns (schedule': seq<Action>)
    requires Run(now, schedule).Some? && Run(now, schedule).value.lock.stack == [c] && c.phase == Running && c.job.done
    requires (var m := Run(now, schedule).value; m.stage == NoWake && m.lock.pending)
    ensures Run(now, schedule').Some?
    ensures (var m := Run(now, schedule).value; Run(now, schedule').value == m.(lock := m.lock.(locked := false, stack := [c.(phase := Relock)])))
  {
    hide Run;
    schedule' := RunExtends(now, schedule, Go);
    schedule' := RunExtends(now, schedule', Go);
    schedule' := RunExtends(now, schedule', Go);
  }

  lemma LeavePass(now: int, schedule: seq<Action>, c: Ctx<Job>) returns (schedule': seq<Action>)
    requires Run(now, schedule).Some? && Run(now, schedule).value.lock.stack == [c] && c.phase == Running && c.job.done
    requires (var m := Run(now, schedule).value; m.stage == NoWake && !m.lock.pending)
    ensures Run(now, schedule').Some?
    ensures (var m := Run(now, schedule).value; Run(now, schedule').value == m.(lock := m.lock.(locked := false, stack := [])))
  {
    hide Run;
    schedule' := RunExtends(now, schedule, Go);
    schedule' := Leave(now, schedule', c.(phase := Release));
  }

  /** A handler call that preempts run_pended_op between reading the tick and clearing the request leaves a sleeper behind that it should have woken. */
  lemma CallIsErased(now: int) returns (schedule: seq<Action>)
    ensures Run(now, schedule).Some? && Run(now, schedule).value.lock.stack == []
    ensures (var m := Run(now, schedule).value; m.erased && m.now == now + 2 == m.asked && m.entries != [] && m.entries[0] == Entry(1, now + 2, false))
  {
    hide Run, Insert;
    var first := Entry(1, now + 2, false);
    schedule := [];
    assert Run(now, []) == Some(Init(now)) by { FreshRun(now); }
    schedule := BeginAdd(now, schedule, 1, now + 2);
    var c := Ctx(Full, true, Job(Add(1, now + 2), false), 0, 0, 0);
    schedule := DoAdd(now, schedule, c);
    InsertFirst(first);
    assert Run(now, schedule).value.entries == [first];
    schedule := Finish(now, schedule, c.(job := c.job.(done := true)));
    var second := Entry(2, now + 9, false);
    schedule := BeginAdd(now, schedule, 2, now + 9);
    c := Ctx(Full, true, Job(Add(2, now + 9), false), 0, 0, 0);
    schedule := TickOver(now, schedule, c);
    schedule := DoAdd(now, schedule, c);
    InsertSecond(first, second);
    c := c.(job := c.job.(done := true));
    schedule := ToWindow(now, schedule, c);
    c := c.(phase := Running, passes := 1, mark := 1);
    schedule := TickOver(now, schedule, c);
    schedule := ThroughWindow(now, schedule, c);
    schedule, c := IdlePass(now, schedule, c);
    schedule := LeavePass(now, schedule, c);
  }

  lemma FreshRun(now: int)
    ensures Run(now, []) == Some(Init(now))
  {
  }

  lemma InsertFirst(e: Entry)
    ensures Insert([], e) == [e]
  {
  }

  lemma InsertSecond(e: Entry, f: Entry)
    requires e.wake < f.wake
    ensures Insert([e], f) == [e, f]
  {
    assert T.NotLater(Wakes([e]), f.wake) == 1;
  }
}
