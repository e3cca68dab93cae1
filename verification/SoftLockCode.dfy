/**
 The soft lock's own code, run under every possible nesting of preemptions. Each atomic
 operation is one step of the machine in SoftLock; before each of them any number of further
 accesses may preempt and run to completion.
 */
module SoftLockCode {

  import opened Common
  import opened SoftLock

  /** An access and, for each of its atomic operations in turn, the accesses that preempt it just before. */
  datatype Access = Access(must: bool, gaps: seq<Gap>)
  datatype Gap = Gap(accesses: seq<Access>)

  /** No access that insists on full access preempts another one. */
  predicate WellNested(a: Access)
  {
    forall g :: g in a.gaps ==> forall b :: b in g.accesses ==> !b.must && WellNested(b)
  }

  class Lock {
    var pending: bool
    var locked: bool

    /** The machine state that the fields reflect, and how it was reached. */
    ghost var machine: State<()>
    ghost var schedule: seq<Action<()>>

    ghost predicate Valid()
      reads this
    {
      && Run(schedule) == Some(machine)
      && machine.locked == locked && machine.pending == pending
    }

    constructor ()
      ensures Valid() && machine == Init()
    {
      pending, locked, machine, schedule := false, false, Init(), [];
    }

    /** Record one machine step. */
    ghost method Record(a: Action<()>)
      requires Run(schedule) == Some(machine) && Enabled(machine, a)
      modifies `machine, `schedule
      ensures Run(schedule) == Some(machine) && machine == Apply(old(machine), a)
      ensures Inv(machine)
    {
      assert (schedule + [a])[..|schedule|] == schedule;
      schedule := schedule + [a];
      machine := Apply(machine, a);
      RunKeepsInv(schedule);
    }

    /** The atomic operation of the context `c` on top of `below`. */
    ghost method Tick(below: seq<Ctx<()>>, c: Ctx<()>)
      requires Run(schedule) == Some(machine) && machine.stack == below + [c]
      modifies `machine, `schedule
      ensures Run(schedule) == Some(machine)
      ensures machine.stack == if c.phase == PendDone || (c.phase == Recheck && !old(machine.pending)) then below else below + [NextCtx(old(machine), c)]
      ensures machine.locked == if c.phase == Release then false else if c.phase == Enter || c.phase == Relock then true else old(machine.locked)
      ensures machine.pending == if c.phase == Check then false else if c.phase == PendDone then true else old(machine.pending)
      ensures machine.arrivals == old(machine.arrivals) + (if c.phase == PendDone then 1 else 0)
    {
      hide Run, Inv;
      AdvanceOnTop(machine, below, c);
      Record(DoAdvance);
    }

    /** The preemptions before atomic operation `k` of `a`. */
    method Preempt(a: Access, k: nat)
      requires Valid() && WellNested(a) && machine.stack != []
      modifies this
      ensures Valid() && machine.stack == old(machine.stack) && machine.locked == old(machine.locked)
      ensures machine.arrivals >= old(machine.arrivals)
      ensures k >= |a.gaps| ==> machine == old(machine)
      decreases a, 0
    {
      if k >= |a.gaps| {
        return;
      }
      assert a.gaps[k] in a.gaps;
      var accesses := a.gaps[k].accesses;
      for i := 0 to |accesses|
        invariant Valid() && machine.stack == old(machine.stack) && machine.locked == old(machine.locked)
        invariant machine.arrivals >= old(machine.arrivals)
      {
        assert accesses[i] in a.gaps[k].accesses;
        var full, passes := WithAccess(accesses[i]);
      }
    }

    /**
     Lock or fall back to pend-only access, run the operation, and drop the guard. The result
     says which access was granted and how often the pending flag was swapped.
     */
    method WithAccess(a: Access) returns (full: bool, passes: nat)
      requires Valid() && WellNested(a) && (a.must ==> machine.stack == [])
      modifies this
      ensures Valid() && machine.stack == old(machine.stack) && locked == old(locked)
      ensures a.must ==> full
      ensures full ==> !old(locked) && !pending
      ensures passes <= 1 + (machine.arrivals - old(machine.arrivals)) && (full <==> passes > 0)
      ensures machine.arrivals >= old(machine.arrivals)
      ensures machine.stack == [] ==> !locked && !pending && machine.unserved == 0
      decreases a, 3
    {
      hide Run, Inv, Advance, NextCtx;
      ghost var below := machine.stack;
      Record(DoArrive(a.must, ()));
      ghost var c := Ctx(Enter, a.must, (), 0, machine.arrivals, machine.arrivals);
      Preempt(a, 0);
      EntryFacts(schedule, machine, below, c);
      full := !locked; // compare-exchange: a set flag stays set
      locked := true;
      Tick(below, c);
      if full {
        passes := DropFull(a, below, c.(phase := Full));
      } else {
        passes := 0;
        DropPendOnly(a, below, c.(phase := PendOp));
      }
      if machine.stack == [] { NothingLeftBehind(schedule); }
    }

    /** Pend the operation and flag it. */
    method DropPendOnly(a: Access, ghost below: seq<Ctx<()>>, ghost c: Ctx<()>)
      requires Valid() && WellNested(a) && machine.stack == below + [c] && c.phase == PendOp
      modifies this
      ensures Valid() && machine.stack == below && locked == old(locked)
      ensures machine.arrivals > old(machine.arrivals)
      decreases a, 1
    {
      hide Run, Inv, Advance;
      Preempt(a, 1);
      Tick(below, c);
      Preempt(a, 2);
      pending := true;
      Tick(below, c.(phase := PendDone));
    }

    /** Run the operation with full access, then look for pended operations until none is left. */
    method DropFull(a: Access, ghost below: seq<Ctx<()>>, ghost entered: Ctx<()>) returns (passes: nat)
      requires Valid() && WellNested(a) && machine.stack == below + [entered]
      requires entered.phase == Full && entered.passes == 0
      modifies this
      ensures Valid() && machine.stack == below && !locked && !pending
      ensures 1 <= passes <= 1 + (machine.arrivals - entered.base)
      ensures machine.arrivals >= old(machine.arrivals)
      decreases a, 2
    {
      hide Run, Inv, Advance;
      Preempt(a, 1);
      Tick(below, entered); // the operation
      ghost var c := entered.(phase := Check);
      var k := 2;
      passes := 0;
      while true
        invariant Valid() && machine.stack == below + [c]
        invariant c.phase == Check && c.base == entered.base && c.passes == passes
        invariant machine.arrivals >= old(machine.arrivals)
        decreases |a.gaps| - k
      {
        c := ServeAndRelease(a, k, below, c);
        passes := passes + 1;
        Preempt(a, k + 4);
        if !pending {
          AtRecheck(schedule, machine, below, c);
          Tick(below, c);
          return;
        }
        Tick(below, c);
        c := c.(phase := Relock);
        Preempt(a, k + 5);
        AtRelock(schedule, machine, below, c);
        assert !locked;
        locked := true;
        Tick(below, c);
        c := c.(phase := Check);
        k := k + 6;
      }
    }

    /** One pass: clear the flag, run what is pended, and release the lock. */
    method ServeAndRelease(a: Access, k: nat, ghost below: seq<Ctx<()>>, ghost entered: Ctx<()>) returns (ghost c: Ctx<()>)
      requires Valid() && WellNested(a) && machine.stack == below + [entered] && entered.phase == Check
      modifies this
      ensures Valid() && machine.stack == below + [c] && !locked
      ensures c.phase == Recheck && c.base == entered.base && c.passes == entered.passes + 1
      ensures machine.arrivals >= old(machine.arrivals)
      ensures k >= |a.gaps| ==> !pending
      decreases a, 1
    {
      hide Run, Inv, Advance;
      Preempt(a, k);
      var prevPending := pending;
      pending := false;
      c := NextCtx(machine, entered);
      Tick(below, entered);
      if prevPending {
        Preempt(a, k + 1);
        Tick(below, c); // run_pended_op begins
        c := c.(phase := Running);
        Preempt(a, k + 2);
        Tick(below, c);
        c := c.(phase := Release);
      }
      Preempt(a, k + 3);
      locked := false;
      Tick(below, c);
      c := c.(phase := Recheck);
    }
  }

  lemma EntryFacts(schedule: seq<Action<()>>, s: State<()>, below: seq<Ctx<()>>, c: Ctx<()>)
    requires Run(schedule) == Some(s) && s.stack == below + [c] && c.phase == Enter
    ensures NextCtx(s, c) == if !s.locked then c.(phase := Full) else if c.must then c else c.(phase := PendOp)
    ensures c.must ==> !s.locked
  {
    assert Top(s) == c;
    if c.must { MustNeverSpins(schedule); }
  }

  lemma AtRelock(schedule: seq<Action<()>>, s: State<()>, below: seq<Ctx<()>>, c: Ctx<()>)
    requires Run(schedule) == Some(s) && s.stack == below + [c] && c.phase == Relock
    ensures !s.locked
  {
    assert Top(s) == c;
    RelockNeverFails(schedule);
  }

  /** The pass count of the context that is about to leave. */
  lemma AtRecheck(schedule: seq<Action<()>>, s: State<()>, below: seq<Ctx<()>>, c: Ctx<()>)
    requires Run(schedule) == Some(s) && s.stack == below + [c] && c.phase == Recheck
    ensures c.passes <= 1 + (s.arrivals - c.base) && !s.locked
  {
    PassesBounded(schedule, |below|);
    RunKeepsInv(schedule);
    var p :| InvAt(s, p);
    assert s.stack[|below|] == c && PlaceOk(s, p, |below|);
  }
}
