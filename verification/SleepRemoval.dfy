/** Taking a sleeper out before its time: who asks for it can rely on it. */
module SleepRemoval {

  import opened Common
  import SoftLock
  import T = TaskList
  import opened SleepMachine

  /** An access that has yet to queue the task. */
  predicate Adds(c: SoftLock.Ctx<Job>, t: nat)
  {
    c.job.op.Add? && c.job.op.task == t && !c.job.done
  }

  ghost predicate NoneAdds(stack: seq<SoftLock.Ctx<Job>>, t: nat)
  {
    forall i {:trigger stack[i]} :: 0 <= i < |stack| ==> !Adds(stack[i], t)
  }

  /** How often the task is queued. */
  function Queued(m: Sleep, t: nat): nat { Tasks(m.entries)[t] }

  /** The task is out of the queue; or, where `put` allows it, its removal is put off and will take out its one entry. */
  ghost predicate Out(m: Sleep, t: nat, put: bool)
  {
    && NoneAdds(m.lock.stack, t) && Queued(m, t) <= 1
    && (Queued(m, t) > 0 ==> put && t in m.buffer)
  }

  /** A removal is about to take effect, with full access or by way of the delete buffer. */
  predicate Removing(m: Sleep, t: nat)
  {
    m.lock.stack != [] &&
    var c := SoftLock.Top(m.lock);
    c.job.op == Remove(t) && ((c.phase == SoftLock.Full && !c.job.done) || c.phase == SoftLock.PendOp)
  }

  /** The access on top has to leave its operation to the holder. */
  predicate PutsOff(m: Sleep)
  {
    m.lock.stack != [] && SoftLock.Top(m.lock).phase == SoftLock.PendOp
  }

  // ---------- What a step does to the queue ----------

  lemma AcceptCount(m: Sleep, k: nat, t: nat)
    requires k < |m.entries|
    ensures Queued(Accept(m, k), t) == Queued(m, t) - (if m.entries[k].task == t then 1 else 0)
  {
    hide Tasks;
    var a, e, b := m.entries[..k], m.entries[k], m.entries[k + 1..];
    assert m.entries == a + [e] + b;
    TasksAround(a, e, b);
  }

  lemma TakeOutCount(m: Sleep, task: nat, t: nat)
    ensures Queued(TakeOut(m, task), t) == Queued(m, t) - (if task == t && Queued(m, t) > 0 then 1 else 0)
    ensures TakeOut(m, task).lock == m.lock && TakeOut(m, task).buffer == m.buffer
  {
    var k := Find(m.entries, task);
    if k < |m.entries| {
      AcceptCount(m, k, t);
    } else if task == t {
      assert t !in Names(m.entries);
    }
  }

  lemma InsertCount(entries: seq<Entry>, e: Entry, t: nat)
    ensures Tasks(Insert(entries, e))[t] == Tasks(entries)[t] + (if e.task == t then 1 else 0)
  {
    hide Tasks, T.NotLater;
    var k := T.NotLater(Wakes(entries), e.wake);
    assert entries == entries[..k] + entries[k..];
    TasksAround(entries[..k], e, entries[k..]);
  }

  lemma WakeStepOut(m: Sleep, t: nat, put: bool)
    requires Out(m, t, put) && (m.stage.Read? || m.stage.Scan? || m.stage.Drain?)
    ensures Out(WakeStep(m), t, put) && WakeStep(m).lock == m.lock
  {
    hide TakeOut, Accept, Tasks, NoneAdds;
    if m.stage.Scan? && m.entries != [] {
      AcceptCount(m, 0, t);
      AcceptFrame(m, 0);
    } else if m.stage.Drain? && m.buffer != [] {
      var m1 := m.(buffer := m.buffer[1..]);
      TakeOutCount(m1, m.buffer[0], t);
      assert m.buffer == [m.buffer[0]] + m.buffer[1..];
    }
  }

  lemma AcceptFrame(m: Sleep, k: nat)
    requires k < |m.entries|
    ensures Accept(m, k).lock == m.lock && Accept(m, k).buffer == m.buffer
  {
  }

  // ---------- Steps of an access ----------

  /** A removal takes effect. */
  lemma RemovesNow(m: Sleep, t: nat)
    requires Inv(m) && Removing(m, t) && Queued(m, t) <= 1 && NoneAdds(m.lock.stack, t)
    ensures Out(Step(m), t, PutsOff(m))
  {
    hide Inv, TakeOut, Tasks, SoftLock.Advance;
    var below, c := Unstack(m);
    if c.phase == SoftLock.Full {
      var c' := c.(job := c.job.(done := true));
      var m1 := m.(lock := SoftLock.Work(m.lock, c'.job));
      assert m1.lock.stack == below + [c'];
      StackAdds(m.lock.stack, below, c, c', t);
      TakeOutCount(m1, t, t);
    } else {
      SoftLock.AdvanceOnTop(m.lock, below, c);
      StackAdds(m.lock.stack, below, c, SoftLock.NextCtx(m.lock, c), t);
    }
  }

  /** The top access goes on, or leaves. */
  lemma StackAdds(stack: seq<SoftLock.Ctx<Job>>, below: seq<SoftLock.Ctx<Job>>, c: SoftLock.Ctx<Job>, c': SoftLock.Ctx<Job>, t: nat)
    requires stack == below + [c] && NoneAdds(stack, t) && c'.job.op == c.job.op && (c.job.done ==> c'.job.done)
    ensures NoneAdds(below, t) && NoneAdds(below + [c'], t)
  {
    var s' := below + [c'];
    assert forall i {:trigger below[i]} :: 0 <= i < |below| ==> below[i] == stack[i];
    assert stack[|below|] == c;
    assert forall i {:trigger s'[i]} :: 0 <= i < |s'| ==> s'[i] == if i < |below| then stack[i] else c';
  }

  /** The operation with full access. */
  lemma FullOut(m: Sleep, t: nat, put: bool)
    requires Inv(m) && m.lock.stack != [] && Out(m, t, put) && SoftLock.Top(m.lock).phase == SoftLock.Full && !SoftLock.Top(m.lock).job.done
    ensures Out(Step(m), t, put)
  {
    hide Inv, TakeOut, Insert, Tasks, WakeStep;
    var below, c := Unstack(m);
    assert m.lock.stack[|below|] == c;
    var c' := c.(job := c.job.(done := true));
    var m1 := m.(lock := SoftLock.Work(m.lock, c'.job));
    assert m1.lock.stack == below + [c'];
    StackAdds(m.lock.stack, below, c, c', t);
    match c.job.op
    case Add(u, wake) => InsertCount(m.entries, Entry(u, wake, wake <= m.lastRead), t);
    case Remove(u) => TakeOutCount(m1, u, t);
    case Tick => if m.stage.Scan? || m.stage.Drain? { WakeStepOut(m, t, put); }
  }

  /** All other steps. */
  lemma RestOut(m: Sleep, t: nat, put: bool)
    requires Inv(m) && m.lock.stack != [] && Out(m, t, put) && (SoftLock.Top(m.lock).phase == SoftLock.Full ==> SoftLock.Top(m.lock).job.done)
    ensures Out(Step(m), t, put)
  {
    hide Inv, Tasks, WakeStep, SoftLock.Advance;
    var below, c := Unstack(m);
    SoftLock.AdvanceOnTop(m.lock, below, c);
    StackAdds(m.lock.stack, below, c, SoftLock.NextCtx(m.lock, c), t);
    if c.phase == SoftLock.Running && (m.stage.Read? || m.stage.Scan? || m.stage.Drain?) { WakeStepOut(m, t, put); }
  }

  lemma ActionOut(m: Sleep, a: Action, t: nat, put: bool)
    requires Inv(m) && Enabled(m, a) && Out(m, t, put) && !(a.StartAdd? && a.t == t)
    ensures Out(Apply(m, a), t, put)
  {
    hide Inv, Tasks, Step;
    if a.Go? {
      if SoftLock.Top(m.lock).phase == SoftLock.Full && !SoftLock.Top(m.lock).job.done { FullOut(m, t, put); } else { RestOut(m, t, put); }
    }
  }

  /**
   Once a removal has taken effect, and until the task goes to sleep anew, it is out of the queue for good; if the removal had to be
   put off, it is out or its removal still stands in the delete buffer.
   */
  lemma {:induction false} RemovedStaysOut(now: int, schedule: seq<Action>, rest: seq<Action>, t: nat)
    requires Run(now, schedule).Some? && Run(now, schedule + [Go] + rest).Some?
    requires (var m := Run(now, schedule).value; Removing(m, t) && Queued(m, t) <= 1 && NoneAdds(m.lock.stack, t))
    requires forall i :: 0 <= i < |rest| && rest[i].StartAdd? ==> rest[i].t != t
    ensures Out(Run(now, schedule + [Go] + rest).value, t, PutsOff(Run(now, schedule).value))
    decreases |rest|
  {
    hide Inv, Out, Removing, Queued, Step, NoneAdds;
    if rest == [] {
      var m := Run(now, schedule).value;
      assert schedule + [Go] + rest == schedule + [Go] && (schedule + [Go])[..|schedule|] == schedule;
      RunKeepsInv(now, schedule);
      RemovesNow(m, t);
    } else {
      var k := |rest| - 1;
      var all, before := schedule + [Go] + rest, schedule + [Go] + rest[..k];
      assert all[..|all| - 1] == before && all[|all| - 1] == rest[k];
      RemovedStaysOut(now, schedule, rest[..k], t);
      RunKeepsInv(now, before);
      ActionOut(Run(now, before).value, rest[k], t, PutsOff(Run(now, schedule).value));
    }
  }
}
