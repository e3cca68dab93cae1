/** A switch that was asked for is not forgotten, and none is pended that was not asked for. */
module PendProgress {

  import opened Common
  import opened PendSwitch

  /** The context will pend the exception unless somebody else has to: it has asked, or it sees to a standing request. */
  predicate Pursues(m: Machine, i: int)
  {
    && 0 <= i < |m.stack| && (i == 0 && |m.stack| > 1 ==> m.stack[1].kind != Switch)
    && var c := m.stack[i];
       c.phase == Zero(true) || (m.request && (c.held > 0 || c.phase == Reading || c.phase.Zero?))
  }

  ghost predicate Pursued(m: Machine)
  {
    m.pendsv || exists i :: Pursues(m, i)
  }

  /** Somebody holds a suspension when the counter is positive. */
  lemma {:induction false} SomeoneHolds(stack: seq<Ctx>) returns (j: nat)
    requires Held(stack) > 0
    ensures j < |stack| && stack[j].held > 0
  {
    j := |stack| - 1;
    if stack[j].held == 0 { j := SomeoneHolds(stack[..|stack| - 1]); }
  }

  /** Contexts below the top are where they were. */
  lemma SamePursuer(m: Machine, m': Machine, i: int)
    requires Pursues(m, i) && i < |m'.stack| && m'.stack[i] == m.stack[i] && (m.request ==> m'.request)
    requires i == 0 && |m'.stack| > 1 ==> m'.stack[1].kind != Switch
    ensures Pursues(m', i)
  {
  }

  /** `resume` reads a positive counter: whoever holds a suspension will read it later. */
  lemma LoadPursued(m: Machine, i: int)
    requires Inv(m) && Enabled(m, Load) && !m.rash && Pursues(m, i)
    ensures Pursued(Apply(m, Load))
  {
    hide Held;
    var m', n := Apply(m, Load), |m.stack| - 1;
    assert forall j :: 0 <= j < n ==> m'.stack[j] == m.stack[j];
    assert |m.stack| > 1 ==> CtxOk(m, 1) && m'.stack[1].kind == m.stack[1].kind;
    if i < n {
      SamePursuer(m, m', i);
    } else if m.count == 0 {
      assert Pursues(m', n);
    } else {
      var j := SomeoneHolds(m.stack);
      assert m'.stack[j].held > 0;
      assert Pursues(m', j);
    }
  }

  /** A context that asks while it holds a suspension still holds it. */
  lemma AskPursued(m: Machine, i: int)
    requires Inv(m) && Enabled(m, Ask) && Pursues(m, i)
    ensures Pursued(Apply(m, Ask))
  {
    hide Held;
    HeldAtLeast(m.stack, i);
    assert CtxOk(m, |m.stack| - 1);
    assert Pursues(Apply(m, Ask), i);
  }

  lemma ReturnPursued(m: Machine, next: Phase, i: int)
    requires Inv(m) && Enabled(m, Return(next)) && Pursues(m, i)
    ensures Pursued(Apply(m, Return(next)))
  {
    hide Held;
    assert CtxOk(m, |m.stack| - 1);
    var m' := Apply(m, Return(next));
    SamePursuer(m, m', i);
  }

  /** Counting suspensions, and arrivals of handlers. */
  lemma CountPursued(m: Machine, a: Action, i: int)
    requires Inv(m) && Enabled(m, a) && (a.Suspend? || a.FetchSub? || a.Interrupt? || a.Look?) && Pursues(m, i)
    ensures Pursued(Apply(m, a))
  {
    hide Held;
    var m', n := Apply(m, a), |m.stack| - 1;
    assert CtxOk(m, n);
    assert forall j :: 0 <= j < n ==> m'.stack[j] == m.stack[j];
    assert |m.stack| > 1 ==> m'.stack[1].kind == m.stack[1].kind;
    if i < n { SamePursuer(m, m', i); } else { assert Pursues(m', n); }
  }

  /** Until the exception is taken or the request withdrawn, somebody pursues it. */
  lemma ActionPursued(m: Machine, a: Action)
    requires Inv(m) && Enabled(m, a) && !m.rash && Pursued(m) && a != TakePendSV && a != Request(false)
    ensures Pursued(Apply(m, a))
  {
    hide Held, Inv;
    if !m.pendsv && !Apply(m, a).pendsv {
      var i :| Pursues(m, i);
      match a
      case Load => LoadPursued(m, i);
      case Ask => AskPursued(m, i);
      case Return(next) => ReturnPursued(m, next, i);
      case Request(on) => SamePursuer(m, Apply(m, a), i);
      case Set =>
        assert Apply(m, a).stack[..|m.stack| - 1] == m.stack[..|m.stack| - 1];
        SetPursued(m, i);
      case _ => CountPursued(m, a, i);
    } else {
      StaysPended(m, a);
    }
  }

  lemma SetPursued(m: Machine, i: int)
    requires Enabled(m, Set) && Pursues(m, i)
    ensures Pursued(Apply(m, Set))
  {
    var m' := Apply(m, Set);
    assert forall j :: 0 <= j < |m.stack| - 1 ==> m'.stack[j] == m.stack[j];
    assert |m.stack| > 1 ==> m'.stack[1].kind == m.stack[1].kind;
    if i < |m.stack| - 1 { SamePursuer(m, m', i); }
  }

  lemma StaysPended(m: Machine, a: Action)
    requires Enabled(m, a) && a != TakePendSV
    ensures m.pendsv ==> Apply(m, a).pendsv
  {
  }

  /** A switch is asked for: a request while suspended, or a yield that finds the scheduler not suspended. */
  predicate Asks(m: Machine, a: Action)
    requires Enabled(m, a)
  {
    (a == Request(true) && Top(m).held > 0) || (a == Ask && m.count == 0)
  }

  lemma AsksPursued(m: Machine, a: Action)
    requires Inv(m) && Enabled(m, a) && Asks(m, a)
    ensures Pursued(Apply(m, a))
  {
    hide Held;
    var n := |m.stack| - 1;
    assert CtxOk(m, n);
    assert CtxOk(m, 0);
    if n == 0 { assert Pursues(Apply(m, a), 0); } else { assert Pursues(Apply(m, a), n); }
  }

  lemma RashStays(m: Machine, a: Action)
    requires Enabled(m, a)
    ensures m.rash ==> Apply(m, a).rash
  {
  }

  /**
   However handlers interleave: from when a switch was asked for until it is taken or withdrawn, the exception is pended, or some
   context is about to pend it; so once nothing is suspended and nobody is in `resume` or a yield, it is pended.
   */
  lemma {:induction false} NotForgotten(schedule: seq<Action>, a: Action, rest: seq<Action>)
    requires Run(schedule).Some? && Enabled(Run(schedule).value, a) && Asks(Run(schedule).value, a)
    requires Run(schedule + [a] + rest).Some? && !Run(schedule + [a] + rest).value.rash
    requires forall j :: 0 <= j < |rest| ==> rest[j] != TakePendSV && rest[j] != Request(false)
    ensures (var m := Run(schedule + [a] + rest).value;
             && Pursued(m)
             && (m.count == 0 && (forall i :: 0 <= i < |m.stack| ==> m.stack[i].phase == Work) ==> m.pendsv))
    decreases |rest|
  {
    hide Inv, Enabled, Asks, Pursues, Apply;
    var all := schedule + [a] + rest;
    if rest == [] {
      assert all == schedule + [a] && all[..|schedule|] == schedule;
      RunKeepsInv(schedule);
      AsksPursued(Run(schedule).value, a);
    } else {
      var k := |rest| - 1;
      var before := schedule + [a] + rest[..k];
      assert all[..|all| - 1] == before && all[|all| - 1] == rest[k];
      var m := Run(before).value;
      RashStays(m, rest[k]);
      NotForgotten(schedule, a, rest[..k]);
      RunKeepsInv(before);
      ActionPursued(m, rest[k]);
    }
    RunKeepsInv(all);
    var m := Run(all).value;
    if m.count == 0 && forall i :: 0 <= i < |m.stack| ==> m.stack[i].phase == Work { QuietIsPended(m); }
  }

  lemma QuietIsPended(m: Machine)
    requires Inv(m) && Pursued(m) && m.count == 0 && forall i :: 0 <= i < |m.stack| ==> m.stack[i].phase == Work
    ensures m.pendsv
  {
    hide Held;
    ZeroIsClear(m.stack);
  }

  /** What pends the exception: a yield, or the end of `resume` or of a yield that has seen the counter at zero. */
  predicate Pends(m: Machine, a: Action)
  {
    m.stack != [] && (a == Yield || (a == Set && (m.request || Top(m).phase == Zero(true))))
  }

  /** The exception is pended only if one of these has happened since it was last taken. */
  lemma {:induction false} PendedHasCause(schedule: seq<Action>) returns (k: nat)
    requires Run(schedule).Some? && Run(schedule).value.pendsv
    ensures k < |schedule| && Run(schedule[..k]).Some? && Pends(Run(schedule[..k]).value, schedule[k])
    ensures forall j :: k < j < |schedule| ==> schedule[j] != TakePendSV
  {
    hide Apply, Enabled, Pends;
    if schedule == [] {
      NothingRun();
    } else {
      var before, last := schedule[..|schedule| - 1], schedule[|schedule| - 1];
      PendedBy(Run(before).value, last);
      if Pends(Run(before).value, last) {
        k := |before|;
      } else {
        k := PendedHasCause(before);
        assert schedule[..k] == before[..k];
      }
    }
  }

  lemma PendedBy(m: Machine, a: Action)
    requires Enabled(m, a)
    ensures Apply(m, a).pendsv <==> Pends(m, a) || (m.pendsv && a != TakePendSV)
  {
  }
}
