/**
 The soft lock as a step machine. Contexts that preempt each other form a stack: only the top
 one takes steps, and a new context may arrive on top at any time. One step is one atomic
 operation of `AccessGuard`, or one step of the code that runs under the access.
 */
module SoftLock {

  import opened Common

  datatype Phase =
    | Enter     // about to try to lock
    | Full      // running the operation with full access
    | Check     // about to swap the pending flag
    | RunStart  // found it set, about to begin run_pended_op
    | Running   // inside run_pended_op
    | Release   // about to clear the locked flag
    | Recheck   // about to read the pending flag again
    | Relock    // found it set, about to lock again
    | PendOp    // pend-only, about to pend the operation
    | PendDone  // about to set the pending flag

  /**
   One access in progress. `must` marks an access that spins instead of accepting pend-only
   access. `passes` counts its swaps of the pending flag, `base` and `mark` are the number of
   pend-only accesses finished when it arrived and at its last swap.
   */
  datatype Ctx<J> = Ctx(phase: Phase, must: bool, job: J, passes: nat, base: nat, mark: nat)

  /**
   `unserved` counts operations pended since the last start of run_pended_op, `arrivals` the
   pend-only accesses finished so far.
   */
  datatype State<J> = State(locked: bool, pending: bool, unserved: nat, arrivals: nat, stack: seq<Ctx<J>>)

  function Init<J>(): State<J> { State(false, false, 0, 0, []) }

  function Top<J>(s: State<J>): Ctx<J>
    requires s.stack != []
  {
    s.stack[|s.stack| - 1]
  }

  /** Replace the top context. */
  function Put<J>(s: State<J>, c: Ctx<J>): State<J>
    requires s.stack != []
  {
    s.(stack := s.stack[|s.stack| - 1 := c])
  }

  function Goto<J>(s: State<J>, phase: Phase): State<J>
    requires s.stack != []
  {
    Put(s, Top(s).(phase := phase))
  }

  /** The top context is done. */
  function Pop<J>(s: State<J>): State<J>
    requires s.stack != []
  {
    s.(stack := s.stack[..|s.stack| - 1])
  }

  /** A context arrives; one that must get full access runs in a task, so it preempts no access. */
  function Arrive<J>(s: State<J>, must: bool, job: J): State<J>
  {
    s.(stack := s.stack + [Ctx(Enter, must, job, 0, s.arrivals, s.arrivals)])
  }

  /** The next atomic step of the top context. */
  function Advance<J>(s: State<J>): State<J>
    requires s.stack != []
  {
    var c := Top(s);
    match c.phase
    case Enter =>
      if !s.locked then Goto(s.(locked := true), Full)
      else if c.must then s // spins
      else Goto(s, PendOp)
    case Full => Goto(s, Check)
    case Check =>
      Put(s.(pending := false),
          c.(phase := if s.pending then RunStart else Release, passes := c.passes + 1, mark := s.arrivals))
    case RunStart => Goto(s.(unserved := 0), Running)
    case Running => Goto(s, Release)
    case Release => Goto(s.(locked := false), Recheck)
    case Recheck => if s.pending then Goto(s, Relock) else Pop(s)
    case Relock => if !s.locked then Goto(s.(locked := true), Check) else s // spins
    case PendOp => Goto(s.(unserved := s.unserved + 1), PendDone)
    case PendDone => Pop(s.(pending := true, arrivals := s.arrivals + 1))
  }

  /** The top context after its step, if it stays. */
  function NextCtx<J>(s: State<J>, c: Ctx<J>): Ctx<J>
  {
    match c.phase
    case Enter => if !s.locked then c.(phase := Full) else if c.must then c else c.(phase := PendOp)
    case Full => c.(phase := Check)
    case Check => c.(phase := if s.pending then RunStart else Release, passes := c.passes + 1, mark := s.arrivals)
    case RunStart => c.(phase := Running)
    case Running => c.(phase := Release)
    case Release => c.(phase := Recheck)
    case Recheck => c.(phase := Relock)
    case Relock => if !s.locked then c.(phase := Check) else c
    case PendOp => c.(phase := PendDone)
    case PendDone => c
  }

  /** A step changes the top context, or takes it away, and leaves the ones below alone. */
  lemma AdvanceOnTop<J>(s: State<J>, below: seq<Ctx<J>>, c: Ctx<J>)
    requires s.stack == below + [c]
    ensures Top(s) == c
    ensures Advance(s).stack == if c.phase == PendDone || (c.phase == Recheck && !s.pending) then below else below + [NextCtx(s, c)]
    ensures Advance(s).unserved == if c.phase == RunStart then 0 else if c.phase == PendOp then s.unserved + 1 else s.unserved
  {
    assert s.stack[..|s.stack| - 1] == below;
  }

  /** The code under full access, or the body of run_pended_op, takes a step of its own. */
  function Work<J>(s: State<J>, job: J): State<J>
    requires s.stack != []
  {
    Put(s, Top(s).(job := job))
  }

  datatype Action<J> = DoArrive(must: bool, job: J) | DoAdvance | DoWork(job: J)

  predicate Enabled<J>(s: State<J>, a: Action<J>)
  {
    match a
    case DoArrive(must, _) => must ==> s.stack == []
    case DoAdvance => s.stack != []
    case DoWork(_) => s.stack != [] && (Top(s).phase == Full || Top(s).phase == Running)
  }

  function Apply<J>(s: State<J>, a: Action<J>): State<J>
    requires Enabled(s, a)
  {
    match a
    case DoArrive(must, job) => Arrive(s, must, job)
    case DoAdvance => Advance(s)
    case DoWork(job) => Work(s, job)
  }

  /** The state that a schedule of actions leads to; none when one of them is not possible. */
  function Run<J>(schedule: seq<Action<J>>): Option<State<J>>
  {
    if schedule == [] then Some(Init())
    else
      var before := Run(schedule[..|schedule| - 1]);
      var last := schedule[|schedule| - 1];
      if before.Some? && Enabled(before.value, last) then Some(Apply(before.value, last)) else None
  }

  // ---------- The invariant ----------

  predicate HoldsLock(phase: Phase)
  {
    phase == Full || phase == Check || phase == RunStart || phase == Running || phase == Release
  }

  /** Phases in which a context waits to look at the pending flag once more. */
  predicate Rechecks(phase: Phase)
  {
    phase == Recheck || phase == Relock
  }

  /** The counters of one context. */
  ghost predicate CtxOk<J>(s: State<J>, c: Ctx<J>)
  {
    && c.base <= c.mark <= s.arrivals
    && (c.passes == 0 ==> c.mark == c.base)
    && (c.passes > 0 ==> c.passes <= 1 + c.mark - c.base)
    && (c.phase == Enter || c.phase == Full || c.phase == PendOp || c.phase == PendDone ==> c.passes == 0)
    && (c.phase == RunStart || c.phase == Running || c.phase == Release || Rechecks(c.phase) ==> c.passes > 0)
    && ((c.phase == Check && c.passes > 0) || c.phase == Relock ==> c.mark < s.arrivals)
    && ((c.phase == RunStart || c.phase == Running || c.phase == Release || c.phase == Recheck) && s.pending ==> c.mark < s.arrivals)
  }

  /** What the context at `i` may be doing when the holder stands at `p`; -1 means that there is no holder. */
  ghost predicate PlaceOk<J>(s: State<J>, p: int, i: int)
  {
    && 0 <= i < |s.stack| && CtxOk(s, s.stack[i]) && (s.stack[i].must ==> i == 0)
    && (i == p ==> HoldsLock(s.stack[i].phase))
    && (p < 0 || i < p ==> s.stack[i].phase == Enter || Rechecks(s.stack[i].phase))
    && (0 <= p < i ==> s.stack[i].phase == Enter || s.stack[i].phase == PendOp || s.stack[i].phase == PendDone)
  }

  /** The context at `i` will look at the pending flag. */
  ghost predicate Reader<J>(s: State<J>, i: int)
  {
    0 <= i < |s.stack| && Rechecks(s.stack[i].phase)
  }

  /** The context at `i` has pended its operation and will flag it. */
  ghost predicate Flagger<J>(s: State<J>, i: int)
  {
    0 <= i < |s.stack| && s.stack[i].phase == PendDone
  }

  ghost predicate InvAt<J>(s: State<J>, p: int)
  {
    && -1 <= p < |s.stack| && (s.locked <==> p >= 0)
    && (forall i {:trigger PlaceOk(s, p, i)} :: 0 <= i < |s.stack| ==> PlaceOk(s, p, i))
    && (s.pending ==> p >= 0 || exists i :: Reader(s, i))
    && (s.unserved > 0 ==> s.pending || (p >= 0 && s.stack[p].phase == RunStart) || exists i :: Flagger(s, i))
  }

  ghost predicate Inv<J>(s: State<J>)
  {
    exists p :: InvAt(s, p)
  }

  lemma ArriveKeeps<J>(s: State<J>, p: int, must: bool, job: J)
    requires InvAt(s, p) && (must ==> s.stack == [])
    ensures InvAt(Arrive(s, must, job), p)
  {
    var s' := Arrive(s, must, job);
    forall i | 0 <= i < |s'.stack| ensures PlaceOk(s', p, i) {
      if i < |s.stack| { assert PlaceOk(s, p, i); }
    }
    if i :| Reader(s, i) { assert Reader(s', i); }
    if i :| Flagger(s, i) { assert Flagger(s', i); }
  }

  lemma WorkKeeps<J>(s: State<J>, p: int, job: J)
    requires InvAt(s, p) && s.stack != []
    ensures InvAt(Work(s, job), p)
  {
    var s' := Work(s, job);
    forall i | 0 <= i < |s'.stack| ensures PlaceOk(s', p, i) {
      assert PlaceOk(s, p, i);
    }
    if i :| Reader(s, i) { assert Reader(s', i); }
    if i :| Flagger(s, i) { assert Flagger(s', i); }
  }

  /** Where the holder stands after a step of the top context. */
  function HolderAfter<J>(s: State<J>, p: int): int
    requires s.stack != []
  {
    var c := Top(s);
    if (c.phase == Enter || c.phase == Relock) && !s.locked then |s.stack| - 1
    else if c.phase == Release then -1
    else p
  }

  /** A step of the top context leaves the contexts below in order. */
  lemma AdvanceBelow<J>(s: State<J>, p: int, i: nat)
    requires InvAt(s, p) && i < |s.stack| - 1
    ensures PlaceOk(Advance(s), HolderAfter(s, p), i)
  {
    assert PlaceOk(s, p, i) && PlaceOk(s, p, |s.stack| - 1);
    assert Advance(s).stack[i] == s.stack[i];
  }

  /** The counters of the top context stay in order. */
  lemma AdvanceCounters<J>(s: State<J>, p: int)
    requires InvAt(s, p) && s.stack != [] && |Advance(s).stack| == |s.stack|
    ensures CtxOk(Advance(s), Top(Advance(s)))
  {
    assert PlaceOk(s, p, |s.stack| - 1);
  }

  lemma AdvanceTop<J>(s: State<J>, p: int)
    requires InvAt(s, p) && s.stack != [] && |Advance(s).stack| == |s.stack|
    ensures PlaceOk(Advance(s), HolderAfter(s, p), |s.stack| - 1)
  {
    hide CtxOk;
    AdvanceCounters(s, p);
    assert PlaceOk(s, p, |s.stack| - 1);
  }

  lemma AdvanceReader<J>(s: State<J>, p: int)
    requires InvAt(s, p) && s.stack != [] && Advance(s).pending && HolderAfter(s, p) < 0
    ensures exists i :: Reader(Advance(s), i)
  {
    var n := |s.stack| - 1;
    assert PlaceOk(s, p, n);
    assert Reader(Advance(s), n);
  }

  lemma AdvanceFlagger<J>(s: State<J>, p: int)
    requires InvAt(s, p) && s.stack != []
    requires var s', p' := Advance(s), HolderAfter(s, p);
      s'.unserved > 0 && !s'.pending && (p' < 0 || p' >= |s'.stack| || s'.stack[p'].phase != RunStart)
    ensures exists i :: Flagger(Advance(s), i)
  {
    var n := |s.stack| - 1;
    assert PlaceOk(s, p, n);
    if Top(s).phase == PendOp {
      assert Flagger(Advance(s), n);
    } else if i :| Flagger(s, i) {
      assert PlaceOk(s, p, i);
      assert Flagger(Advance(s), i);
    }
  }

  lemma AdvanceKeeps<J>(s: State<J>, p: int)
    requires InvAt(s, p) && s.stack != []
    ensures InvAt(Advance(s), HolderAfter(s, p))
  {
    var s', p' := Advance(s), HolderAfter(s, p);
    assert PlaceOk(s, p, |s.stack| - 1);
    forall i | 0 <= i < |s'.stack| ensures PlaceOk(s', p', i) {
      if i < |s.stack| - 1 { AdvanceBelow(s, p, i); } else { AdvanceTop(s, p); }
    }
    if s'.pending && p' < 0 { AdvanceReader(s, p); }
    if s'.unserved > 0 && !s'.pending && (p' < 0 || s'.stack[p'].phase != RunStart) { AdvanceFlagger(s, p); }
  }

  /** Every step keeps the invariant. */
  lemma ApplyKeeps<J>(s: State<J>, a: Action<J>)
    requires Inv(s) && Enabled(s, a)
    ensures Inv(Apply(s, a))
  {
    var p :| InvAt(s, p);
    match a {
      case DoArrive(must, job) => ArriveKeeps(s, p, must, job);
      case DoAdvance => AdvanceKeeps(s, p);
      case DoWork(job) => WorkKeeps(s, p, job);
    }
  }

  lemma {:induction false} RunKeepsInv<J>(schedule: seq<Action<J>>)
    requires Run(schedule).Some?
    ensures Inv(Run(schedule).value)
  {
    if schedule == [] {
      assert InvAt(Run(schedule).value, -1);
    } else {
      RunKeepsInv(schedule[..|schedule| - 1]);
      ApplyKeeps(Run(schedule[..|schedule| - 1]).value, schedule[|schedule| - 1]);
    }
  }

  // ---------- What the lock guarantees in every run ----------

  /** At most one access is between locking and releasing, so at most one has full access. */
  lemma FullAccessIsExclusive<J>(schedule: seq<Action<J>>, i: nat, j: nat)
    requires Run(schedule).Some? && i < |Run(schedule).value.stack| && j < |Run(schedule).value.stack|
    requires HoldsLock(Run(schedule).value.stack[i].phase) && HoldsLock(Run(schedule).value.stack[j].phase)
    ensures i == j && Run(schedule).value.locked
  {
    RunKeepsInv(schedule);
    var s := Run(schedule).value;
    var p :| InvAt(s, p);
    assert PlaceOk(s, p, i) && PlaceOk(s, p, j);
  }

  /** The second compare-exchange never fails: a context about to lock again finds the lock free. */
  lemma RelockNeverFails<J>(schedule: seq<Action<J>>)
    requires Run(schedule).Some? && Run(schedule).value.stack != [] && Top(Run(schedule).value).phase == Relock
    ensures !Run(schedule).value.locked
  {
    RunKeepsInv(schedule);
    var s := Run(schedule).value;
    var p :| InvAt(s, p);
    assert PlaceOk(s, p, |s.stack| - 1);
  }

  /** An access that must be full gets it: it never finds the lock taken. */
  lemma MustNeverSpins<J>(schedule: seq<Action<J>>)
    requires Run(schedule).Some? && Run(schedule).value.stack != []
    requires Top(Run(schedule).value).phase == Enter && Top(Run(schedule).value).must
    ensures !Run(schedule).value.locked
  {
    RunKeepsInv(schedule);
    var s := Run(schedule).value;
    var p :| InvAt(s, p);
    assert PlaceOk(s, p, |s.stack| - 1);
    assert p >= 0 ==> PlaceOk(s, p, p);
  }

  /** When no access is active, the lock is free, nothing is flagged, and every pended operation has been served. */
  lemma NothingLeftBehind<J>(schedule: seq<Action<J>>)
    requires Run(schedule).Some? && Run(schedule).value.stack == []
    ensures var s := Run(schedule).value; !s.locked && !s.pending && s.unserved == 0
  {
    RunKeepsInv(schedule);
  }

  /** The context at `i` holds the lock or is about to look at the pending flag. */
  ghost predicate Watcher<J>(s: State<J>, i: int)
  {
    0 <= i < |s.stack| && (HoldsLock(s.stack[i].phase) || Rechecks(s.stack[i].phase))
  }

  /** An unserved operation always has someone who has yet to look at the pending flag. */
  lemma UnservedIsWatched<J>(schedule: seq<Action<J>>)
    requires Run(schedule).Some? && Run(schedule).value.unserved > 0
    ensures exists i :: Watcher(Run(schedule).value, i)
  {
    RunKeepsInv(schedule);
    var s := Run(schedule).value;
    var p :| InvAt(s, p);
    if p >= 0 {
      assert PlaceOk(s, p, p) && Watcher(s, p);
    } else {
      assert forall i :: Flagger(s, i) ==> PlaceOk(s, p, i);
      var i :| Reader(s, i);
      assert Watcher(s, i);
    }
  }

  /** The drop loop makes at most one pass more than the pend-only accesses that finished since it arrived. */
  lemma PassesBounded<J>(schedule: seq<Action<J>>, i: nat)
    requires Run(schedule).Some? && i < |Run(schedule).value.stack|
    ensures var s := Run(schedule).value; s.stack[i].passes <= 1 + (s.arrivals - s.stack[i].base)
  {
    RunKeepsInv(schedule);
    var s := Run(schedule).value;
    var p :| InvAt(s, p);
    assert PlaceOk(s, p, i);
  }

  // ---------- For the lock's clients ----------

  /** While the top context holds the lock, the others are outside. */
  lemma TopHolds<J>(s: State<J>)
    requires Inv(s) && s.stack != [] && HoldsLock(Top(s).phase)
    ensures forall i {:trigger s.stack[i]} :: 0 <= i < |s.stack| - 1 ==> s.stack[i].phase == Enter || Rechecks(s.stack[i].phase)
  {
    var p :| InvAt(s, p);
    assert PlaceOk(s, p, |s.stack| - 1);
    forall i {:trigger s.stack[i]} | 0 <= i < |s.stack| - 1 ensures s.stack[i].phase == Enter || Rechecks(s.stack[i].phase) {
      assert PlaceOk(s, p, i);
    }
  }

  /** Accesses that must be full stand at the bottom, and never find the lock taken. */
  lemma MustFacts<J>(s: State<J>)
    requires Inv(s) && s.stack != [] && Top(s).must
    ensures |s.stack| == 1 && Top(s).phase != PendOp && Top(s).phase != PendDone && (Top(s).phase == Enter ==> !s.locked)
  {
    var p :| InvAt(s, p);
    assert PlaceOk(s, p, |s.stack| - 1);
  }

  /** A flag that is set, or about to be looked after or set, stands for an operation that no run_pended_op has served. */
  ghost predicate Clean<J>(s: State<J>)
  {
    && (s.pending ==> s.unserved > 0)
    && (forall i {:trigger s.stack[i]} :: 0 <= i < |s.stack| && (s.stack[i].phase == PendDone || s.stack[i].phase == RunStart) ==> s.unserved > 0)
  }

  /** Only the start of run_pended_op can end this. */
  lemma CleanKeeps<J>(s: State<J>)
    requires Clean(s) && s.stack != [] && Top(s).phase != RunStart
    ensures Clean(Advance(s))
  {
    var below := s.stack[..|s.stack| - 1];
    AdvanceOnTop(s, below, Top(s));
    var s' := Advance(s);
    forall i {:trigger s'.stack[i]} | 0 <= i < |s'.stack| && (s'.stack[i].phase == PendDone || s'.stack[i].phase == RunStart)
      ensures s'.unserved > 0
    {
      if i < |below| { assert s'.stack[i] == s.stack[i]; }
    }
  }

  lemma CleanArrives<J>(s: State<J>, must: bool, job: J)
    requires Clean(s)
    ensures Clean(Arrive(s, must, job))
  {
    var s' := Arrive(s, must, job);
    forall i {:trigger s'.stack[i]} | 0 <= i < |s'.stack| && (s'.stack[i].phase == PendDone || s'.stack[i].phase == RunStart)
      ensures s'.unserved > 0
    {
      assert s'.stack[i] == s.stack[i];
    }
  }

  /** A context that arrives alone finds nothing flagged and nothing unserved. */
  lemma AloneIsClean<J>(s: State<J>)
    requires Inv(s) && |s.stack| == 1 && s.stack[0].phase == Enter
    ensures !s.pending && s.unserved == 0 && Clean(s) && !s.locked
  {
    var p :| InvAt(s, p);
    assert PlaceOk(s, p, 0);
    assert forall i :: Reader(s, i) ==> i == 0;
    assert forall i :: Flagger(s, i) ==> i == 0;
  }

  /** The job of the top context never matters to the lock. */
  lemma WorkIsInv<J>(s: State<J>, job: J)
    requires Inv(s) && s.stack != []
    ensures Inv(Work(s, job))
  {
    var p :| InvAt(s, p);
    WorkKeeps(s, p, job);
  }
}
