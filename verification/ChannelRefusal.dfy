/** When a call comes back empty-handed: only `try_push` and `try_pop` do, and only if there was no slot or no element for them. */
module ChannelRefusal {

  import opened Common
  import W = WaitQueue
  import S = Semaphore
  import opened Channel
  import H = ChannelHistory

  /** `t` calls. */
  predicate Calls<T>(a: Action<T>, t: nat)
  {
    (a.Push? || a.Pop?) && a.t == t
  }

  /** The last call of `t`. */
  function CallOf<T>(schedule: seq<Action<T>>, t: nat): Option<Action<T>>
  {
    if schedule == [] then None
    else if Calls(H.Last(schedule), t) then Some(H.Last(schedule))
    else CallOf(H.Init(schedule), t)
  }

  /** Whether a call may block; other actions are no calls. */
  function CallKind<T>(a: Action<T>): Option<bool>
  {
    if a.Push? || a.Pop? then Some(a.blocking) else None
  }

  /** No empty slot is free for a push, or no element for a pop. */
  predicate Exhausted<T>(c: Chan<T>, call: Option<Action<T>>)
  {
    && (call.Some? && call.value.Push? ==> c.empty.count == 0)
    && (call.Some? && call.value.Pop? ==> c.occupied.count == 0)
    && call.Some?
  }

  /** Before action `k` of the schedule, and after the last call of `t`, nothing was to be had for that call. */
  ghost predicate ExhaustedAt<T>(n: nat, schedule: seq<Action<T>>, t: nat, k: nat)
  {
    && k < |schedule| && Run(n, schedule[..k]).Some? && CallOf(schedule[..k], t) == CallOf(schedule, t) && CallOf(schedule, t).Some?
    && (forall j :: k <= j < |schedule| ==> !Calls(schedule[j], t))
    && Exhausted(Run(n, schedule[..k]).value, CallOf(schedule, t))
  }

  /** Where `t` is, and what it returned, given its last call and whether that call found nothing to be had. */
  ghost predicate Fine<T>(c: Chan<T>, call: Option<Action<T>>, found: bool, t: nat)
  {
    && (match StageOf(c, t)
        case Pushing(v, blocking) => call == Some(Push(t, v, blocking)) && (S.PcOf(c.empty, t) == S.Returned(false) ==> !blocking && found)
        case Popping(blocking) => call == Some(Pop(t, blocking)) && (S.PcOf(c.occupied, t) == S.Returned(false) ==> !blocking && found)
        case _ => true)
    && (t in c.results ==> ReturnFine(c.results[t], call, found, t))
  }

  predicate ReturnFine<T>(r: Result<T>, call: Option<Action<T>>, found: bool, t: nat)
  {
    && (r.Rejected? ==> call.Some? && call.value.Push? && call.value.t == t && !call.value.blocking && found)
    && (r.Nothing? ==> call == Some(Pop(t, false)) && found)
  }

  // ---------- Actions ----------

  lemma EmptyFine<T>(c: Chan<T>, a: S.Action, call: Option<Action<T>>, found: bool, t: nat)
    requires Inv(c) && Enabled(c, Action<T>.OnEmpty(a)) && S.SwapsInRange(c.empty) && Fine(c, call, found, t)
    ensures Fine(EmptyStep(c, a), call, found || Exhausted(c, call), t)
  {
    hide Inv, S.SwapsInRange, S.Apply, W.Apply, ReturnFine;
    MoreFound(c, call, found, found || Exhausted(c, call), t);
    SemStep(c.empty, a);
    if Agent(a) == Some(t) && StageOf(c, t).Pushing? {
      InCallOf(c, t);
      SemCallStep(c.empty, a, S.Down, StageOf(c, t).blocking);
    }
  }

  lemma OccupiedFine<T>(c: Chan<T>, a: S.Action, call: Option<Action<T>>, found: bool, t: nat)
    requires Inv(c) && Enabled(c, Action<T>.OnOccupied(a)) && S.SwapsInRange(c.occupied) && Fine(c, call, found, t)
    ensures Fine(OccupiedStep(c, a), call, found || Exhausted(c, call), t)
  {
    hide Inv, S.SwapsInRange, S.Apply, W.Apply, ReturnFine;
    MoreFound(c, call, found, found || Exhausted(c, call), t);
    SemStep(c.occupied, a);
    if Agent(a) == Some(t) && StageOf(c, t).Popping? {
      InCallOf(c, t);
      SemCallStep(c.occupied, a, S.Down, StageOf(c, t).blocking);
    }
  }

  lemma InCallOf<T>(c: Chan<T>, t: nat)
    requires Inv(c)
    ensures StageOf(c, t).Pushing? ==> InCall(S.PcOf(c.empty, t), S.Down, StageOf(c, t).blocking)
    ensures StageOf(c, t).Popping? ==> InCall(S.PcOf(c.occupied, t), S.Down, StageOf(c, t).blocking)
  {
    hide S.Inv, Balanced;
    assert PlaceOk(c, t);
  }

  lemma ReturnIsFine<T>(c: Chan<T>, call: Option<Action<T>>, found: bool, t: nat)
    requires Inv(c) && Enabled(c, Action<T>.Return(t)) && Fine(c, call, found, t)
    ensures Fine(DoReturn(c, t), call, found, t)
  {
    hide Inv;
  }

  lemma MoveFine<T>(c: Chan<T>, call: Option<Action<T>>, found: bool, t: nat)
    requires Fine(c, call, found, t)
    ensures StageOf(c, t).Putting? ==> Fine(DoEnqueue(c, t), call, found, t)
    ensures StageOf(c, t).Getting? ==> Fine(DoDequeue(c, t), call, found, t)
  {
    hide ReturnFine;
  }

  /** A caller other than the one that acts keeps its place in the semaphores. */
  lemma OthersPlace<T>(c: Chan<T>, a: Action<T>, t: nat)
    requires Enabled(c, a) && !a.OnEmpty? && !a.OnOccupied? && a.t != t && S.SwapsInRange(c.empty) && S.SwapsInRange(c.occupied)
    ensures S.PcOf(Apply(c, a).empty, t) == S.PcOf(c.empty, t) && S.PcOf(Apply(c, a).occupied, t) == S.PcOf(c.occupied, t)
  {
    hide S.SwapsInRange, DoReturn;
    if a.Return? { ReturnFrameAt(c, a.t, t); }
  }

  lemma ReturnFrameAt<T>(c: Chan<T>, u: nat, t: nat)
    requires Enabled(c, Action<T>.Return(u)) && u != t
    ensures S.PcOf(DoReturn(c, u).empty, t) == S.PcOf(c.empty, t) && S.PcOf(DoReturn(c, u).occupied, t) == S.PcOf(c.occupied, t)
  {
  }

  lemma OtherFine<T>(c: Chan<T>, a: Action<T>, call: Option<Action<T>>, found: bool, t: nat)
    requires Enabled(c, a) && !a.OnEmpty? && !a.OnOccupied? && a.t != t && S.SwapsInRange(c.empty) && S.SwapsInRange(c.occupied)
    requires Fine(c, call, found, t)
    ensures Fine(Apply(c, a), call, found, t)
  {
    hide Apply, S.SwapsInRange, Enabled, ReturnFine;
    H.OthersFrame(c, a, t);
    OthersPlace(c, a, t);
  }

  /** A call begins. */
  lemma CallIsFine<T>(c: Chan<T>, a: Action<T>, t: nat)
    requires Enabled(c, a) && Calls(a, t) && S.SwapsInRange(c.empty) && S.SwapsInRange(c.occupied)
    ensures Fine(Apply(c, a), Some(a), false, t)
  {
    hide S.SwapsInRange;
  }

  lemma MoreFound<T>(c: Chan<T>, call: Option<Action<T>>, found: bool, more: bool, t: nat)
    requires Fine(c, call, found, t) && (found ==> more)
    ensures Fine(c, call, more, t)
  {
  }

  lemma ActionFine<T>(c: Chan<T>, a: Action<T>, call: Option<Action<T>>, found: bool, t: nat)
    requires Inv(c) && Enabled(c, a) && S.SwapsInRange(c.empty) && S.SwapsInRange(c.occupied) && Fine(c, call, found, t)
    ensures if Calls(a, t) then Fine(Apply(c, a), Some(a), false, t) else Fine(Apply(c, a), call, found || Exhausted(c, call), t)
  {
    hide Inv, S.SwapsInRange, Fine, Exhausted;
    var more := found || Exhausted(c, call);
    MoreFound(c, call, found, more, t);
    if Calls(a, t) {
      CallIsFine(c, a, t);
    } else {
      match a
      case OnEmpty(inner) => EmptyFine(c, inner, call, found, t);
      case OnOccupied(inner) => OccupiedFine(c, inner, call, found, t);
      case Return(u) => if u == t { ReturnIsFine(c, call, more, t); } else { OtherFine(c, a, call, more, t); }
      case Enqueue(u) => if u == t { MoveFine(c, call, more, t); } else { OtherFine(c, a, call, more, t); }
      case Dequeue(u) => if u == t { MoveFine(c, call, more, t); } else { OtherFine(c, a, call, more, t); }
      case _ => OtherFine(c, a, call, more, t);
    }
  }

  // ---------- Runs ----------

  lemma FoundStays<T>(n: nat, schedule: seq<Action<T>>, t: nat, k: nat)
    requires schedule != [] && !Calls(H.Last(schedule), t) && ExhaustedAt(n, H.Init(schedule), t, k)
    ensures ExhaustedAt(n, schedule, t, k)
  {
    hide Run, Exhausted;
    assert schedule[..k] == H.Init(schedule)[..k];
  }

  lemma FoundNow<T>(n: nat, schedule: seq<Action<T>>, t: nat)
    requires schedule != [] && !Calls(H.Last(schedule), t) && Run(n, H.Init(schedule)).Some?
    requires Exhausted(Run(n, H.Init(schedule)).value, CallOf(H.Init(schedule), t))
    ensures ExhaustedAt(n, schedule, t, |schedule| - 1)
  {
    hide Run;
    assert schedule[..|schedule| - 1] == H.Init(schedule);
  }

  lemma {:induction false} RunFine<T>(n: nat, schedule: seq<Action<T>>, t: nat)
    requires Run(n, schedule).Some?
    ensures Fine(Run(n, schedule).value, CallOf(schedule, t), exists k :: ExhaustedAt(n, schedule, t, k), t)
  {
    hide Inv, Apply, Enabled, S.SwapsInRange, ExhaustedAt, Exhausted, Init;
    if schedule == [] {
      StartFine<T>(n, None, exists k :: ExhaustedAt(n, schedule, t, k), t);
    } else {
      var before, last := H.Init(schedule), H.Last(schedule);
      RunFine(n, before, t);
      RunKeepsInv(n, before);
      var c, call := Run(n, before).value, CallOf(before, t);
      var found := exists k :: ExhaustedAt(n, before, t, k);
      ActionFine(c, last, call, found, t);
      if Calls(last, t) {
        MoreFound(Apply(c, last), Some(last), false, exists k :: ExhaustedAt(n, schedule, t, k), t);
      } else {
        if found {
          var k :| ExhaustedAt(n, before, t, k);
          FoundStays(n, schedule, t, k);
        } else if Exhausted(c, call) {
          FoundNow(n, schedule, t);
        }
        MoreFound(Apply(c, last), call, found || Exhausted(c, call), exists k :: ExhaustedAt(n, schedule, t, k), t);
      }
    }
  }

  lemma StartFine<T>(n: nat, call: Option<Action<T>>, found: bool, t: nat)
    ensures Fine(Init<T>(n), call, found, t)
  {
  }

  /**
   `push` and `pop` never come back empty-handed. A `try_push` that gives its element back did so after a moment, during the call,
   at which every slot was taken or promised; a `try_pop` that returns nothing, at which every element was promised to another.
   */
  lemma RefusedOnlyIf<T>(n: nat, schedule: seq<Action<T>>, t: nat) returns (k: nat)
    requires Run(n, schedule).Some? && t in Run(n, schedule).value.results
    requires (var r := Run(n, schedule).value.results[t]; r.Rejected? || r.Nothing?)
    ensures ExhaustedAt(n, schedule, t, k) && CallKind(CallOf(schedule, t).value) == Some(false)
    ensures (var c, r := Run(n, schedule[..k]).value, Run(n, schedule).value.results[t];
             && (r.Rejected? ==> CallOf(schedule, t).value.Push? && |c.buffer| + |c.slots| + |c.freed| == n)
             && (r.Nothing? ==> CallOf(schedule, t).value.Pop? && |c.buffer| == |c.claims| + |c.filled|))
  {
    hide Run, StageOf;
    RunFine(n, schedule, t);
    k :| ExhaustedAt(n, schedule, t, k);
    SlotsBalance(n, schedule[..k]);
  }
}
