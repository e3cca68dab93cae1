/**
 The suspension counter, the request for a switch and the pended exception, one atomic step at a time. Interrupt handlers preempt
 the task, the switch and each other at any point; the switch itself has the lowest priority, and checks that the scheduler is not
 suspended.
 */
module PendSwitch {

  import opened Common

  datatype Kind = Thread | Isr | Switch

  /**
   `Check`: the switch is about to look at the counter. `Reading`: `resume` has given one suspension back and is about to read
   the counter. `Zero`: the counter was read as zero; `sure` tells a yield from `resume`, which also looks at the request.
   */
  datatype Phase = Check | Work | Reading | Zero(sure: bool)

  /** `held` are the suspensions that the context has made and not given back. */
  datatype Ctx = Ctx(kind: Kind, held: nat, phase: Phase)

  /**
   `count` is SUSPEND_CNT, `request` PENDING_CTXT_SWITCH, `pendsv` the pended exception. `rash` records that a switch was asked for
   without a look at the counter while the task held a suspension, `died` that a switch met a positive counter.
   */
  datatype Machine = Machine(stack: seq<Ctx>, count: nat, request: bool, pendsv: bool, rash: bool, died: bool)

  function Init(): Machine { Machine([Ctx(Thread, 0, Work)], 0, false, false, false, false) }

  datatype Action =
    | Interrupt
    | TakePendSV
    | Look           // the check of `pick_next`
    | Suspend
    | FetchSub       // `resume` decrements,
    | Load           // reads the counter,
    | Set            // and pends the exception
    | Ask            // `yield_current` reads the counter
    | Yield          // a switch is asked for without reading it
    | Request(on: bool)
    | Return(next: Phase) // the next task goes on where it was

  function Top(m: Machine): Ctx
    requires m.stack != []
  {
    m.stack[|m.stack| - 1]
  }

  function Put(m: Machine, c: Ctx): Machine
    requires m.stack != []
  {
    m.(stack := m.stack[..|m.stack| - 1] + [c])
  }

  /** A pended switch is taken before the task does anything; handlers, and the switch, go first. */
  predicate Works(m: Machine)
    requires m.stack != []
  {
    (|m.stack| > 1 || !m.pendsv) && Top(m).phase == Work
  }

  predicate Enabled(m: Machine, a: Action)
  {
    !m.died && m.stack != [] &&
    match a
    case Interrupt => true
    case TakePendSV => m.pendsv && |m.stack| == 1
    case Look => Top(m).phase == Check
    case FetchSub => Works(m) && Top(m).held > 0 && m.count > 0
    case Load => (|m.stack| > 1 || !m.pendsv) && Top(m).phase == Reading
    case Set => (|m.stack| > 1 || !m.pendsv) && Top(m).phase.Zero?
    case Return(next) => Works(m) && |m.stack| > 1 && Top(m).held == 0 && next != Check
    case _ => Works(m)
  }

  function Apply(m: Machine, a: Action): Machine
    requires Enabled(m, a)
  {
    var c := Top(m);
    match a
    case Interrupt => m.(stack := m.stack + [Ctx(Isr, 0, Work)])
    case TakePendSV => m.(stack := m.stack + [Ctx(Switch, 0, Check)], pendsv := false)
    case Look => Put(m, c.(phase := Work)).(died := m.count > 0)
    case Suspend => Put(m, c.(held := c.held + 1)).(count := m.count + 1)
    case FetchSub => Put(m, c.(held := c.held - 1, phase := Reading)).(count := m.count - 1)
    case Load => Put(m, c.(phase := if m.count == 0 then Zero(false) else Work))
    case Set => Put(m, c.(phase := Work)).(pendsv := m.pendsv || c.phase.sure || m.request)
    case Ask => Put(m, c.(phase := if m.count == 0 then Zero(true) else Work))
    case Yield => m.(pendsv := true, rash := m.rash || m.stack[0].held > 0)
    case Request(on) => m.(request := on)
    case Return(next) =>
      if c.kind == Switch then m.(stack := [Ctx(Thread, 0, next)] + m.stack[1..|m.stack| - 1])
      else m.(stack := m.stack[..|m.stack| - 1])
  }

  /** The state that a schedule leads to; none when an action is not possible. */
  function Run(schedule: seq<Action>): Option<Machine>
  {
    if schedule == [] then Some(Init())
    else
      var before := Run(schedule[..|schedule| - 1]);
      var last := schedule[|schedule| - 1];
      if before.Some? && Enabled(before.value, last) then Some(Apply(before.value, last)) else None
  }

  // ---------- The invariant ----------

  function Held(stack: seq<Ctx>): nat
  {
    if stack == [] then 0 else Held(stack[..|stack| - 1]) + stack[|stack| - 1].held
  }

  /** Nothing at `i` or below is suspended. */
  ghost predicate ClearTo(stack: seq<Ctx>, i: int)
  {
    forall j {:trigger stack[j]} :: 0 <= j <= i && j < |stack| ==> stack[j].held == 0
  }

  /** A switch that has yet to look at the counter. */
  predicate Looking(m: Machine)
  {
    |m.stack| > 1 && m.stack[1].phase == Check
  }

  ghost predicate CtxOk(m: Machine, i: int)
    requires 0 <= i < |m.stack|
  {
    && (m.stack[i].kind == Thread <==> i == 0) && (m.stack[i].kind == Switch ==> i == 1)
    && (m.stack[i].phase.Zero? ==> ClearTo(m.stack, i))
    && (m.stack[i].phase == Check ==> m.stack[i].kind == Switch && m.stack[i].held == 0)
    && (m.stack[i].kind == Switch && m.stack[i].phase != Check && !m.died ==> m.stack[0].held == 0)
  }

  /** A switch ahead means that the task holds no suspension, unless one was asked for rashly; and then it will die. */
  ghost predicate AheadOk(m: Machine)
    requires m.stack != []
  {
    && (!m.rash ==> !m.died && (m.pendsv || Looking(m) ==> m.stack[0].held == 0))
    && (m.rash ==> m.died || ((m.pendsv || Looking(m)) && m.stack[0].held > 0))
  }

  ghost predicate Inv(m: Machine)
  {
    && m.stack != [] && m.count == Held(m.stack) && AheadOk(m)
    && forall i :: 0 <= i < |m.stack| ==> CtxOk(m, i)
  }

  lemma HeldOnTop(below: seq<Ctx>, c: Ctx)
    ensures Held(below + [c]) == Held(below) + c.held
  {
    assert (below + [c])[..|below|] == below;
  }

  lemma HeldByTwo(stack: seq<Ctx>)
    requires |stack| == 2
    ensures Held(stack) == stack[0].held + stack[1].held
  {
    assert stack == [] + [stack[0]] + [stack[1]];
    HeldOnTop([] + [stack[0]], stack[1]);
    HeldOnTop([], stack[0]);
  }

  /** The sum counts each context. */
  lemma {:induction false} HeldAtLeast(stack: seq<Ctx>, i: nat)
    requires i < |stack|
    ensures stack[i].held <= Held(stack)
  {
    if i < |stack| - 1 { HeldAtLeast(stack[..|stack| - 1], i); }
  }

  /** A counter of zero means that nobody holds a suspension. */
  lemma ZeroIsClear(stack: seq<Ctx>)
    requires Held(stack) == 0
    ensures ClearTo(stack, |stack| - 1)
  {
    forall j {:trigger stack[j]} | 0 <= j < |stack| ensures stack[j].held == 0 { HeldAtLeast(stack, j); }
  }

  /** What is known of a context below the top does not depend on the top. */
  lemma BelowKeeps(m: Machine, m': Machine, i: int)
    requires 0 <= i < |m.stack| && i < |m'.stack| && CtxOk(m, i) && (m.died ==> m'.died)
    requires forall j {:trigger m'.stack[j]} :: 0 <= j <= i ==> m'.stack[j] == m.stack[j]
    ensures CtxOk(m', i)
  {
  }

  /** A step that replaces the context on top. */
  lemma TopKeeps(m: Machine, m': Machine, c: Ctx)
    requires Inv(m) && !m.died && m'.stack == m.stack[..|m.stack| - 1] + [c] && c.kind == Top(m).kind
    requires m'.count == m.count - Top(m).held + c.held && AheadOk(m')
    requires c.phase.Zero? ==> ClearTo(m'.stack, |m.stack| - 1)
    requires c.phase == Check ==> c == Top(m)
    requires c.kind == Switch && c.phase != Check && !m'.died ==> m.stack[0].held == 0
    ensures Inv(m')
  {
    var below := m.stack[..|m.stack| - 1];
    assert m.stack == below + [Top(m)];
    HeldOnTop(below, c);
    HeldOnTop(below, Top(m));
    hide Held, AheadOk, CtxOk, ClearTo;
    forall i | 0 <= i < |m'.stack| ensures CtxOk(m', i) {
      assert CtxOk(m, i);
      if i < |below| { BelowKeeps(m, m', i); } else { TopOk(m, m', c); }
    }
  }

  lemma TopOk(m: Machine, m': Machine, c: Ctx)
    requires m.stack != [] && CtxOk(m, |m.stack| - 1) && m'.stack == m.stack[..|m.stack| - 1] + [c] && c.kind == Top(m).kind
    requires c.phase.Zero? ==> ClearTo(m'.stack, |m.stack| - 1)
    requires c.phase == Check ==> c == Top(m)
    requires c.kind == Switch && c.phase != Check && !m'.died ==> m.stack[0].held == 0
    ensures CtxOk(m', |m.stack| - 1)
  {
    assert c.kind == Switch ==> m'.stack[0] == m.stack[0];
  }

  lemma FirstAndTop(m: Machine)
    requires Inv(m)
    ensures CtxOk(m, 0) && CtxOk(m, |m.stack| - 1)
  {
  }

  /** Every action keeps the invariant. */
  lemma ActionKeeps(m: Machine, a: Action)
    requires Inv(m) && Enabled(m, a)
    ensures Inv(Apply(m, a))
  {
    hide Inv, Held;
    FirstAndTop(m);
    match a
    case Interrupt => PushKeeps(m, Apply(m, a), Ctx(Isr, 0, Work));
    case TakePendSV => PushKeeps(m, Apply(m, a), Ctx(Switch, 0, Check));
    case Look => LookKeeps(m);
    case Set => SetKeeps(m);
    case Return(next) => ReturnKeeps(m, next);
    case Load => ReadKeeps(m, Apply(m, a), false);
    case Ask => ReadKeeps(m, Apply(m, a), true);
    case Suspend => CountKeeps(m, Apply(m, a));
    case FetchSub => CountKeeps(m, Apply(m, a));
    case Yield => SameStack(m, Apply(m, a));
    case Request(on) => SameStack(m, Apply(m, a));
  }

  lemma SameStack(m: Machine, m': Machine)
    requires Inv(m) && Works(m) && !m.died && m' == m.(pendsv := m'.pendsv, rash := m'.rash, request := m'.request)
    requires (m'.pendsv == m.pendsv && m'.rash == m.rash) || (m'.pendsv && m'.rash == (m.rash || m.stack[0].held > 0))
    ensures Inv(m')
  {
    forall i | 0 <= i < |m'.stack| ensures CtxOk(m', i) { assert CtxOk(m, i); }
  }

  lemma LookKeeps(m: Machine)
    requires Inv(m) && Enabled(m, Look)
    ensures Inv(Apply(m, Look))
  {
    hide Held;
    FirstAndTop(m);
    var m' := Apply(m, Look);
    HeldByTwo(m.stack);
    TopKeeps(m, m', Top(m).(phase := Work));
  }

  lemma SetKeeps(m: Machine)
    requires Inv(m) && Enabled(m, Set)
    ensures Inv(Apply(m, Set))
  {
    hide Held;
    FirstAndTop(m);
    assert m.stack[0].held == 0;
    TopKeeps(m, Apply(m, Set), Top(m).(phase := Work));
  }

  /** Reading the counter: a count of zero means that nobody holds a suspension. */
  lemma ReadKeeps(m: Machine, m': Machine, sure: bool)
    requires Inv(m) && !m.died && Top(m).phase != Check && (|m.stack| > 1 || !m.pendsv)
    requires m' == Put(m, Top(m).(phase := if m.count == 0 then Zero(sure) else Work))
    ensures Inv(m')
  {
    hide Held;
    FirstAndTop(m);
    if m.count == 0 {
      ZeroIsClear(m.stack);
      assert forall j {:trigger m'.stack[j]} :: 0 <= j < |m.stack| ==> m'.stack[j].held == m.stack[j].held;
    }
    TopKeeps(m, m', m'.stack[|m.stack| - 1]);
  }

  lemma CountKeeps(m: Machine, m': Machine)
    requires Inv(m) && !m.died && Works(m)
    requires m' == Apply(m, Suspend) || (Enabled(m, FetchSub) && m' == Apply(m, FetchSub))
    ensures Inv(m')
  {
    hide Held;
    FirstAndTop(m);
    TopKeeps(m, m', m'.stack[|m.stack| - 1]);
  }

  /** A new context. */
  lemma PushKeeps(m: Machine, m': Machine, c: Ctx)
    requires Inv(m) && !m.died && m' == m.(stack := m.stack + [c], pendsv := m'.pendsv)
    requires c == Ctx(Isr, 0, Work) || (c == Ctx(Switch, 0, Check) && |m.stack| == 1)
    requires m'.pendsv == (m.pendsv && c.kind != Switch) && (c.kind == Switch ==> m.pendsv)
    ensures Inv(m')
  {
    HeldOnTop(m.stack, c);
    hide Held;
    assert m'.stack[0] == m.stack[0];
    assert Looking(m') == (c.kind == Switch || Looking(m));
    forall i | 0 <= i < |m'.stack| ensures CtxOk(m', i) {
      if i < |m.stack| {
        assert CtxOk(m, i);
        BelowKeeps(m, m', i);
      }
    }
  }

  /** The context on top has finished; the switch goes back to another task. */
  lemma ReturnKeeps(m: Machine, next: Phase)
    requires Inv(m) && Enabled(m, Return(next))
    ensures Inv(Apply(m, Return(next)))
  {
    FirstAndTop(m);
    if Top(m).kind == Switch { SwitchReturns(m, next); } else { HandlerReturns(m, next); }
  }

  lemma SwitchReturns(m: Machine, next: Phase)
    requires Inv(m) && Enabled(m, Return(next)) && Top(m).kind == Switch && CtxOk(m, |m.stack| - 1)
    ensures Inv(Apply(m, Return(next)))
  {
    hide Held;
    var m' := Apply(m, Return(next));
    HeldByTwo(m.stack);
    assert m'.stack == [Ctx(Thread, 0, next)];
    HeldByOne(m'.stack);
    assert m.stack[0].held == 0;
  }

  lemma HeldByOne(stack: seq<Ctx>)
    requires |stack| == 1
    ensures Held(stack) == stack[0].held
  {
    assert stack[..|stack| - 1] == [];
  }

  lemma HandlerReturns(m: Machine, next: Phase)
    requires Inv(m) && Enabled(m, Return(next)) && Top(m).kind != Switch
    ensures Inv(Apply(m, Return(next)))
  {
    var m', below := Apply(m, Return(next)), m.stack[..|m.stack| - 1];
    assert m.stack == below + [Top(m)];
    HeldOnTop(below, Top(m));
    hide Held;
    assert Looking(m') == Looking(m);
    forall i | 0 <= i < |m'.stack| ensures CtxOk(m', i) {
      assert CtxOk(m, i);
      BelowKeeps(m, m', i);
    }
  }

  lemma {:induction false} RunKeepsInv(schedule: seq<Action>)
    requires Run(schedule).Some?
    ensures Inv(Run(schedule).value)
  {
    if schedule != [] {
      hide Apply, Enabled;
      RunKeepsInv(schedule[..|schedule| - 1]);
      ActionKeeps(Run(schedule[..|schedule| - 1]).value, schedule[|schedule| - 1]);
    } else {
      StartsRight();
    }
  }

  lemma StartsRight()
    ensures Inv(Init())
  {
    HeldOnTop([], Init().stack[0]);
    assert [] + [Init().stack[0]] == Init().stack;
  }

  // ---------- What holds in every run ----------

  /**
   The switch is never taken while the scheduler is suspended, provided that whoever asks for one without reading the counter does
   so while the task holds no suspension. Between the last decrement and the pending of the exception, handlers may have suspended
   and resumed any number of times.
   */
  lemma NeverTakenWhileSuspended(schedule: seq<Action>)
    requires Run(schedule).Some? && !Run(schedule).value.rash
    ensures (var m := Run(schedule).value; !m.died && (m.pendsv && |m.stack| == 1 ==> m.count == 0))
  {
    RunKeepsInv(schedule);
    var m := Run(schedule).value;
    if |m.stack| == 1 { HeldOnTop([], m.stack[0]); assert [] + [m.stack[0]] == m.stack; }
  }

  /** Once no switch is pended and none has yet to look at the counter, one has died exactly if one was asked for rashly. */
  lemma DiesIff(schedule: seq<Action>)
    requires Run(schedule).Some? && !Run(schedule).value.pendsv && !Looking(Run(schedule).value)
    ensures Run(schedule).value.died <==> Run(schedule).value.rash
  {
    RunKeepsInv(schedule);
  }

  lemma RunExtends(schedule: seq<Action>, a: Action)
    requires Run(schedule).Some? && Enabled(Run(schedule).value, a)
    ensures Run(schedule + [a]) == Some(Apply(Run(schedule).value, a))
  {
    assert (schedule + [a])[..|schedule|] == schedule;
  }

  /** One does die when a task that holds a suspension asks for a switch without looking. */
  lemma RashYieldDies()
    ensures (var s := [Suspend] + [Yield] + [TakePendSV] + [Look]; Run(s).Some? && Run(s).value.died)
  {
    hide Run;
    assert Run([]) == Some(Init()) by { NothingRun(); }
    assert [] + [Suspend] == [Suspend];
    RunExtends([], Suspend);
    RunExtends([Suspend], Yield);
    RunExtends([Suspend] + [Yield], TakePendSV);
    RunExtends([Suspend] + [Yield] + [TakePendSV], Look);
  }

  lemma NothingRun()
    ensures Run([]) == Some(Init())
  {
  }
}
