/**
 The counting semaphore, one compare-exchange at a time. `down` and `try_down_allow_isr` take a
 unit, `up` and `try_up_allow_isr` give one back. Tasks that find the count at zero wait on
 `inc`, tasks that find it at its maximum wait on `dec`.
 */
module Semaphore {

  import opened Common
  import SoftLock
  import W = WaitQueue

  datatype Kind = Down | Up

  /** Where a caller is. `blocking` tells `down` and `up` from their `try_` forms, which never wait. */
  datatype Pc =
    | Idle
    | Await(kind: Kind)                           // inside wait_until
    | Load(kind: Kind, blocking: bool)            // about to read the count
    | Swap(kind: Kind, blocking: bool, cur: nat)  // about to compare-exchange
    | Tell(kind: Kind)                            // about to notify the other side
    | Returned(ok: bool)

  /** `ups` and `downs` count the successful operations. */
  datatype Sem = Sem(count: nat, max: nat, inc: W.Queue, dec: W.Queue, pcs: map<nat, Pc>, ups: nat, downs: nat)

  /** How far the count is below its maximum. */
  function Below(max: nat, count: nat): nat { if count < max then max - count else 0 }

  /** Nothing keeps the initial count from being above the maximum. */
  function Init(max: nat, count: nat): Sem
  {
    Sem(count, max, W.Init(count, false), W.Init(Below(max, count), false), map[], 0, 0)
  }

  function PcOf(s: Sem, t: nat): Pc
  {
    if t in s.pcs then s.pcs[t] else Idle
  }

  function Goto(s: Sem, t: nat, pc: Pc): Sem
  {
    s.(pcs := s.pcs[t := pc])
  }

  /** The queue that callers of the given kind wait on. */
  function Own(s: Sem, kind: Kind): W.Queue { if kind == Down then s.inc else s.dec }

  /** The queue whose tasks a success of the given kind can help. */
  function Other(s: Sem, kind: Kind): W.Queue { if kind == Down then s.dec else s.inc }

  function WithQueues(s: Sem, kind: Kind, own: W.Queue, other: W.Queue): Sem
  {
    if kind == Down then s.(inc := own, dec := other) else s.(dec := own, inc := other)
  }

  /** The count at which an operation cannot proceed. */
  function Limit(s: Sem, kind: Kind): nat { if kind == Down then 0 else s.max }

  datatype Action =
    | Call(t: nat, kind: Kind, blocking: bool)
    | Proceed(t: nat)
    | Read(t: nat)
    | Exchange(t: nat)
    | Told(t: nat)
    | Collect(t: nat)
    | OnInc(inner: W.Action)
    | OnDec(inner: W.Action)

  /** Wait queue actions that callers perform: waiters open waiting accesses, successful callers notifying ones. */
  predicate Allowed(s: Sem, own: Kind, a: W.Action)
  {
    match a
    case Gain(_) => false
    case Take(_) => false
    case Arrive(op) =>
      if op.Waiting? then PcOf(s, op.task) == Await(own)
      else PcOf(s, op.agent).Tell? && PcOf(s, op.agent).kind != own
    case Go(_) => true
  }

  /** `wait_until` returns: its access has ended having found the condition satisfied. */
  predicate MayLeave(q: W.Queue, t: nat)
  {
    t in q.passed && t !in q.queue && !W.HasAccess(q, W.Waiting(t))
  }

  predicate Enabled(s: Sem, a: Action)
  {
    match a
    case Call(t, _, _) => PcOf(s, t) == Idle
    case Proceed(t) => PcOf(s, t).Await? && MayLeave(Own(s, PcOf(s, t).kind), t)
    case Read(t) => PcOf(s, t).Load?
    case Exchange(t) => PcOf(s, t).Swap?
    case Told(t) => PcOf(s, t).Tell? && t !in Other(s, PcOf(s, t).kind).owing && !W.HasAccess(Other(s, PcOf(s, t).kind), W.Notifying(t))
    case Collect(t) => PcOf(s, t).Returned?
    case OnInc(inner) => Allowed(s, Down, inner) && W.Enabled(s.inc, inner)
    case OnDec(inner) => Allowed(s, Up, inner) && W.Enabled(s.dec, inner)
  }

  /** The wait is over. */
  function DoProceed(s: Sem, t: nat, kind: Kind): Sem
  {
    var own := Own(s, kind);
    Goto(WithQueues(s, kind, own.(passed := own.passed - {t}), Other(s, kind)), t, Load(kind, true))
  }

  /** Read the count: give up or wait when it is at the limit, otherwise try to change it. */
  function DoRead(s: Sem, t: nat, kind: Kind, blocking: bool): Sem
  {
    if s.count == Limit(s, kind) then Goto(s, t, if blocking then Await(kind) else Returned(false))
    else Goto(s, t, Swap(kind, blocking, s.count))
  }

  /** The compare-exchange: on success the count moves by one and the other side must be told. */
  function DoExchange(s: Sem, t: nat, kind: Kind, blocking: bool, cur: nat): Sem
    requires kind == Down ==> cur > 0
  {
    if s.count != cur then Goto(s, t, if blocking then Await(kind) else Load(kind, false))
    else
      var own := Own(s, kind);
      var other := Other(s, kind);
      var s' := WithQueues(s, kind,
                           own.(avail := if own.avail > 0 then own.avail - 1 else 0, woken := own.woken - {t}),
                           other.(avail := if kind == Up || cur <= s.max then other.avail + 1 else other.avail, owing := other.owing + {t}));
      Goto(if kind == Down then s'.(count := cur - 1, downs := s.downs + 1) else s'.(count := cur + 1, ups := s.ups + 1), t, Tell(kind))
  }

  function Apply(s: Sem, a: Action): Sem
    requires Enabled(s, a) && SwapsInRange(s)
  {
    match a
    case Call(t, kind, blocking) => Goto(s, t, if blocking then Await(kind) else Load(kind, false))
    case Proceed(t) => DoProceed(s, t, PcOf(s, t).kind)
    case Read(t) => DoRead(s, t, PcOf(s, t).kind, PcOf(s, t).blocking)
    case Exchange(t) => DoExchange(s, t, PcOf(s, t).kind, PcOf(s, t).blocking, PcOf(s, t).cur)
    case Told(t) => Goto(s, t, Returned(true))
    case Collect(t) => Goto(s, t, Idle)
    case OnInc(inner) => s.(inc := W.Apply(s.inc, inner))
    case OnDec(inner) => s.(dec := W.Apply(s.dec, inner))
  }

  // ---------- The invariant ----------

  /** A caller about to compare-exchange has read a count that is not at its limit. */
  ghost predicate SwapsInRange(s: Sem)
  {
    forall t {:trigger s.pcs[t]} :: t in s.pcs && s.pcs[t].Swap? ==>
      s.pcs[t].cur != Limit(s, s.pcs[t].kind)
  }

  /** `t` is inside a blocking call of the given kind that has not succeeded yet. */
  predicate Trying(pcs: map<nat, Pc>, t: nat, kind: Kind)
  {
    t in pcs && match pcs[t]
      case Await(k) => k == kind
      case Load(k, blocking) => k == kind && blocking
      case Swap(k, blocking, _) => k == kind && blocking
      case _ => false
  }

  /** Queued callers and those with an access open are waiting; woken callers have not succeeded yet. */
  ghost predicate WaitersOk(pcs: map<nat, Pc>, q: W.Queue, kind: Kind)
  {
    && (forall t :: t in q.woken ==> Trying(pcs, t, kind))
    && (forall t :: t in q.queue || t in q.passed ==> t in pcs && pcs[t] == Await(kind))
    && (forall t :: W.WaitsOpenly(q.lock.stack, t) ==> t in pcs && pcs[t] == Await(kind))
  }

  /** Whoever owes a notification is about to make it. */
  ghost predicate DebtorsOk(pcs: map<nat, Pc>, owing: set<nat>, kind: Kind)
  {
    forall t :: t in owing ==> t in pcs && pcs[t] == Tell(kind)
  }

  ghost predicate CallersOk(s: Sem)
  {
    && WaitersOk(s.pcs, s.inc, Down) && DebtorsOk(s.pcs, s.dec.owing, Down)
    && WaitersOk(s.pcs, s.dec, Up) && DebtorsOk(s.pcs, s.inc.owing, Up)
  }

  /** What holds whether or not the count has begun above its maximum. */
  ghost predicate Sound(s: Sem)
  {
    && SwapsInRange(s)
    && W.Inv(s.inc) && s.inc.avail == s.count && !s.inc.grabs
    && W.Inv(s.dec) && s.dec.avail == Below(s.max, s.count) && !s.dec.grabs
    && CallersOk(s)
  }

  ghost predicate Inv(s: Sem)
  {
    Sound(s) && s.count <= s.max
  }

  /** An action inside a queue keeps its callers where they were. */
  lemma WaitersStep(pcs: map<nat, Pc>, q: W.Queue, kind: Kind, pick: nat)
    requires WaitersOk(pcs, q, kind) && W.Enabled(q, W.Go(pick))
    ensures WaitersOk(pcs, W.Apply(q, W.Go(pick)), kind)
  {
    hide W.Step;
    W.StepFrame(q, pick);
    W.StepOps(q, pick);
    var q' := W.Step(q, pick);
    forall t | W.WaitsOpenly(q'.lock.stack, t) ensures W.WaitsOpenly(q.lock.stack, t) {
      var i :| 0 <= i < |q'.lock.stack| && q'.lock.stack[i].job.op == W.Waiting(t);
      assert q.lock.stack[i].job.op == W.Waiting(t);
    }
  }

  lemma WaitersArrive(pcs: map<nat, Pc>, q: W.Queue, kind: Kind, op: W.Op)
    requires WaitersOk(pcs, q, kind) && W.Enabled(q, W.Arrive(op))
    requires op.Waiting? ==> op.task in pcs && pcs[op.task] == Await(kind)
    ensures WaitersOk(pcs, W.Apply(q, W.Arrive(op)), kind)
  {
    var q' := W.Apply(q, W.Arrive(op));
    forall t | W.WaitsOpenly(q'.lock.stack, t) ensures t in pcs && pcs[t] == Await(kind) {
      var i :| 0 <= i < |q'.lock.stack| && q'.lock.stack[i].job.op == W.Waiting(t);
      if i < |q.lock.stack| { assert q.lock.stack[i].job.op == W.Waiting(t); assert W.WaitsOpenly(q.lock.stack, t); }
    }
  }

  lemma InnerKeeps(s: Sem, own: Kind, a: W.Action)
    requires Sound(s) && Allowed(s, own, a) && W.Enabled(Own(s, own), a)
    ensures Sound(WithQueues(s, own, W.Apply(Own(s, own), a), Other(s, own)))
  {
    var q := Own(s, own);
    W.ApplyInv(q, a);
    hide W.Inv, W.Apply, WaitersOk, SwapsInRange;
    match a {
      case Go(pick) => WaitersStep(s.pcs, q, own, pick); GoFrame(q, pick);
      case Arrive(op) => WaitersArrive(s.pcs, q, own, op); ArriveFrame(q, op);
    }
  }

  lemma GoFrame(q: W.Queue, pick: nat)
    requires W.Enabled(q, W.Go(pick)) && !q.grabs
    ensures var q' := W.Apply(q, W.Go(pick)); q'.owing <= q.owing && q'.avail == q.avail && !q'.grabs
  {
    W.StepFrame(q, pick);
  }

  lemma ArriveFrame(q: W.Queue, op: W.Op)
    requires W.Enabled(q, W.Arrive(op))
    ensures var q' := W.Apply(q, W.Arrive(op)); q'.owing == q.owing && q'.avail == q.avail && q'.grabs == q.grabs
  {
  }

  /** A caller that neither waits nor owes anything may move on. */
  lemma Moves(s: Sem, t: nat, pc: Pc)
    requires CallersOk(s) && (t in s.pcs ==> !s.pcs[t].Await? && !s.pcs[t].Tell?)
    requires pc == Idle || pc.Returned? ==> !Trying(s.pcs, t, Down) && !Trying(s.pcs, t, Up)
    requires (pc.Load? || pc.Swap? || pc.Await?) && t in s.pcs && (s.pcs[t].Load? || s.pcs[t].Swap?) ==>
      pc.kind == s.pcs[t].kind && (Trying(s.pcs, t, pc.kind) ==> Trying(s.pcs[t := pc], t, pc.kind))
    requires !pc.Tell?
    ensures CallersOk(Goto(s, t, pc))
  {
  }

  lemma SuccessCallers(s: Sem, t: nat, kind: Kind, blocking: bool, cur: nat)
    requires CallersOk(s) && t in s.pcs && s.pcs[t] == Swap(kind, blocking, cur)
    requires kind == Down ==> cur > 0
    ensures CallersOk(DoExchange(s, t, kind, blocking, cur))
  {
    var s' := DoExchange(s, t, kind, blocking, cur);
    if s.count != cur { Moves(s, t, if blocking then Await(kind) else Load(kind, false)); }
  }

  /**
   A success takes a unit from one side, gives one to the other, and leaves the caller owing a notification. Above the maximum
   there is no unit to give up or to gain on the side of `up`.
   */
  lemma SuccessKeeps(s: Sem, t: nat, kind: Kind, blocking: bool, cur: nat)
    requires Sound(s) && t in s.pcs && s.pcs[t] == Swap(kind, blocking, cur) && s.count == cur && cur != Limit(s, kind)
    ensures Sound(DoExchange(s, t, kind, blocking, cur))
    ensures s.count <= s.max ==> DoExchange(s, t, kind, blocking, cur).count <= s.max
  {
    hide W.Inv, CallersOk;
    var s' := DoExchange(s, t, kind, blocking, cur);
    SuccessCallers(s, t, kind, blocking, cur);
    assert t !in Other(s, kind).owing by { NotOwing(s, t, kind); }
    W.UnitlessInv(s.dec, t, t);
    if kind == Up && cur > s.max {
      assert s'.dec == s.dec.(woken := s.dec.woken - {t});
    } else {
      W.ApplyInv(Own(s, kind), W.Take(t));
      assert Own(s', kind) == W.Apply(Own(s, kind), W.Take(t));
    }
    if kind == Down && cur > s.max {
      assert s'.dec == s.dec.(owing := s.dec.owing + {t});
    } else {
      W.ApplyInv(Other(s, kind), W.Gain(t));
      assert Other(s', kind) == W.Apply(Other(s, kind), W.Gain(t));
    }
  }

  lemma NotOwing(s: Sem, t: nat, kind: Kind)
    requires CallersOk(s) && t in s.pcs && s.pcs[t].Swap?
    ensures t !in Other(s, kind).owing
  {
  }

  lemma ExchangeIs(s: Sem, t: nat, kind: Kind, blocking: bool, cur: nat)
    requires Sound(s) && PcOf(s, t) == Swap(kind, blocking, cur)
    ensures t in s.pcs && s.pcs[t] == Swap(kind, blocking, cur) && cur != Limit(s, kind)
    ensures Apply(s, Exchange(t)) == DoExchange(s, t, kind, blocking, cur)
  {
    hide W.Inv, CallersOk, DoExchange, W.Apply;
  }

  lemma FailureKeeps(s: Sem, t: nat, kind: Kind, blocking: bool, cur: nat)
    requires Sound(s) && t in s.pcs && s.pcs[t] == Swap(kind, blocking, cur) && s.count != cur && cur != Limit(s, kind)
    ensures Sound(DoExchange(s, t, kind, blocking, cur)) && DoExchange(s, t, kind, blocking, cur).count == s.count
  {
    hide W.Inv, CallersOk;
    SuccessCallers(s, t, kind, blocking, cur);
  }

  lemma ExchangeKeeps(s: Sem, t: nat)
    requires Sound(s) && PcOf(s, t).Swap?
    ensures Sound(Apply(s, Exchange(t))) && (s.count <= s.max ==> Apply(s, Exchange(t)).count <= s.max)
  {
    var Swap(kind, blocking, cur) := PcOf(s, t);
    ExchangeIs(s, t, kind, blocking, cur);
    hide Sound, DoExchange, Apply;
    if s.count == cur {
      SuccessKeeps(s, t, kind, blocking, cur);
    } else {
      FailureKeeps(s, t, kind, blocking, cur);
    }
  }

  lemma ProceedKeeps(s: Sem, t: nat)
    requires Sound(s) && Enabled(s, Proceed(t))
    ensures Sound(Apply(s, Proceed(t)))
  {
    hide W.Inv, W.Apply, DoRead, DoExchange;
    var kind := PcOf(s, t).kind;
    W.PassedInv(Own(s, kind), Own(s, kind).passed - {t});
    assert !W.WaitsOpenly(Own(s, kind).lock.stack, t);
  }

  /** Every action keeps the invariant, and a count that is not above the maximum. */
  lemma SoundKeeps(s: Sem, a: Action)
    requires Sound(s) && Enabled(s, a)
    ensures Sound(Apply(s, a)) && (s.count <= s.max ==> Apply(s, a).count <= s.max)
  {
    hide W.Inv, WaitersOk, DebtorsOk;
    match a {
      case Exchange(t) => ExchangeKeeps(s, t);
      case OnInc(inner) => InnerKeeps(s, Down, inner);
      case OnDec(inner) => InnerKeeps(s, Up, inner);
      case Proceed(t) => ProceedKeeps(s, t);
      case Call(t, kind, blocking) => Moves(s, t, if blocking then Await(kind) else Load(kind, false));
      case Read(t) => Moves(s, t, PcOf(Apply(s, a), t));
      case Collect(t) => Moves(s, t, Idle);
      case Told(t) => ToldKeeps(s, t);
    }
  }

  lemma ToldKeeps(s: Sem, t: nat)
    requires Sound(s) && Enabled(s, Told(t))
    ensures Sound(Apply(s, Told(t)))
  {
    hide W.Inv;
  }

  lemma ApplyKeeps(s: Sem, a: Action)
    requires Inv(s) && Enabled(s, a)
    ensures Inv(Apply(s, a))
  {
    SoundKeeps(s, a);
    hide Sound, Apply, Enabled;
    KeepsMax(s, a);
  }

  lemma KeepsMax(s: Sem, a: Action)
    requires Enabled(s, a) && SwapsInRange(s)
    ensures Apply(s, a).max == s.max
  {
  }

  // ---------- Whole runs ----------

  /** The state that a schedule leads to; none when an action is not possible. */
  ghost function Run(max: nat, count: nat, schedule: seq<Action>): (r: Option<Sem>)
  {
    if schedule == [] then Some(Init(max, count))
    else
      var before := Run(max, count, schedule[..|schedule| - 1]);
      var last := schedule[|schedule| - 1];
      if before.Some? && SwapsInRange(before.value) && Enabled(before.value, last) then Some(Apply(before.value, last))
      else None
  }

  lemma InitInv(max: nat, count: nat)
    ensures Sound(Init(max, count)) && (count <= max ==> Inv(Init(max, count)))
  {
    W.RunKeepsInv(count, false, []);
    W.RunKeepsInv(Below(max, count), false, []);
  }

  lemma {:induction false} RunKeepsInv(max: nat, count: nat, schedule: seq<Action>)
    requires Run(max, count, schedule).Some?
    ensures var s := Run(max, count, schedule).value; Sound(s) && s.max == max && s.count + s.downs == count + s.ups
  {
    hide Sound;
    if schedule == [] {
      InitInv(max, count);
    } else {
      RunKeepsInv(max, count, schedule[..|schedule| - 1]);
      SoundKeeps(Run(max, count, schedule[..|schedule| - 1]).value, schedule[|schedule| - 1]);
    }
  }

  /** Whatever is enabled after a run can be appended to it. */
  lemma RunExtends(max: nat, count: nat, schedule: seq<Action>, a: Action)
    requires Run(max, count, schedule).Some? && Enabled(Run(max, count, schedule).value, a)
    ensures SwapsInRange(Run(max, count, schedule).value)
    ensures Run(max, count, schedule + [a]) == Some(Apply(Run(max, count, schedule).value, a))
  {
    RunKeepsInv(max, count, schedule);
    assert (schedule + [a])[..|schedule|] == schedule;
  }

  /** The count has been above its maximum all along. */
  ghost predicate AlwaysAbove(max: nat, count: nat, schedule: seq<Action>)
  {
    forall k :: 0 <= k <= |schedule| && Run(max, count, schedule[..k]).Some? ==> Run(max, count, schedule[..k]).value.count > max
  }

  /** Once the count is not above its maximum, it never is again. */
  lemma {:induction false} AboveFromTheStart(max: nat, count: nat, schedule: seq<Action>)
    requires Run(max, count, schedule).Some? && Run(max, count, schedule).value.count > max
    ensures AlwaysAbove(max, count, schedule)
  {
    hide Apply, Enabled, Sound;
    assert schedule[..|schedule|] == schedule;
    if schedule != [] {
      var before := schedule[..|schedule| - 1];
      RunKeepsInv(max, count, before);
      SoundKeeps(Run(max, count, before).value, schedule[|schedule| - 1]);
      AboveFromTheStart(max, count, before);
      forall k | 0 <= k < |schedule| ensures schedule[..k] == before[..k] {}
    }
  }

  /**
   In every run the count equals the initial count plus successful ups minus successful downs. It stays between 0 and its maximum,
   unless it has been above the maximum from the start.
   */
  lemma CountIsLedger(max: nat, count: nat, schedule: seq<Action>)
    requires Run(max, count, schedule).Some?
    ensures var s := Run(max, count, schedule).value; s.count == count + s.ups - s.downs && (s.count <= max || AlwaysAbove(max, count, schedule))
    ensures count <= max ==> Run(max, count, schedule).value.count <= max
  {
    RunKeepsInv(max, count, schedule);
    if Run(max, count, schedule).value.count > max {
      AboveFromTheStart(max, count, schedule);
      assert schedule[..0] == [];
    }
  }

  // ---------- What a call has to wait for ----------

  /** The condition of `wait_until`. */
  predicate CanGo(s: Sem, kind: Kind) { if kind == Down then s.count > 0 else s.count < s.max }

  /** After `k` actions of the schedule the condition held, and `t` has been in its wait ever since. */
  ghost predicate SawRoomAt(max: nat, count: nat, schedule: seq<Action>, t: nat, kind: Kind, k: int)
  {
    && 0 <= k <= |schedule| && Run(max, count, schedule[..k]).Some? && CanGo(Run(max, count, schedule[..k]).value, kind)
    && forall j {:trigger Run(max, count, schedule[..j])} :: k <= j <= |schedule| ==>
      Run(max, count, schedule[..j]).Some? && PcOf(Run(max, count, schedule[..j]).value, t) == Await(kind)
  }

  /** Whoever has found its condition satisfied is still waiting, and the condition did hold in its wait. */
  lemma {:induction false} PassedSawRoom(max: nat, count: nat, schedule: seq<Action>, t: nat, kind: Kind) returns (k: nat)
    requires Run(max, count, schedule).Some? && t in Own(Run(max, count, schedule).value, kind).passed
    ensures SawRoomAt(max, count, schedule, t, kind, k)
  {
    hide Sound, Apply, Enabled, SwapsInRange;
    if schedule == [] {
      NonePassed(max, count, t, kind);
    } else {
      var before, last := schedule[..|schedule| - 1], schedule[|schedule| - 1];
      RunKeepsInv(max, count, before);
      RunKeepsInv(max, count, schedule);
      StillWaits(Run(max, count, schedule).value, t, kind);
      var b := Run(max, count, before).value;
      if t in Own(b, kind).passed {
        k := PassedSawRoom(max, count, before, t, kind);
      } else {
        PassesNow(b, last, t, kind);
        k := |before|;
      }
      SawRoomLater(max, count, schedule, t, kind, k);
    }
  }

  lemma NonePassed(max: nat, count: nat, t: nat, kind: Kind)
    ensures Run(max, count, []).Some? && t !in Own(Run(max, count, []).value, kind).passed
  {
  }

  lemma StillWaits(s: Sem, t: nat, kind: Kind)
    requires Sound(s) && t in Own(s, kind).passed
    ensures PcOf(s, t) == Await(kind)
  {
  }

  /** Looking at the condition while it holds is the only way to pass. */
  lemma PassesNow(s: Sem, a: Action, t: nat, kind: Kind)
    requires Sound(s) && Enabled(s, a) && t !in Own(s, kind).passed && t in Own(Apply(s, a), kind).passed
    ensures PcOf(s, t) == Await(kind) && CanGo(s, kind)
  {
    hide W.Inv, W.Step;
    match a
    case OnInc(inner) => if inner.Go? { W.StepFrame(s.inc, inner.pick); }
    case OnDec(inner) => if inner.Go? { W.StepFrame(s.dec, inner.pick); }
    case _ =>
  }

  /** One action more. */
  lemma SawRoomLater(max: nat, count: nat, schedule: seq<Action>, t: nat, kind: Kind, k: nat)
    requires schedule != [] && Run(max, count, schedule).Some? && PcOf(Run(max, count, schedule).value, t) == Await(kind)
    requires (var before := schedule[..|schedule| - 1];
              SawRoomAt(max, count, before, t, kind, k)
              || (k == |before| && Run(max, count, before).Some? && CanGo(Run(max, count, before).value, kind)
                  && PcOf(Run(max, count, before).value, t) == Await(kind)))
    ensures SawRoomAt(max, count, schedule, t, kind, k)
  {
    hide Run, CanGo;
    var before := schedule[..|schedule| - 1];
    assert schedule[..|schedule|] == schedule;
    forall j | 0 <= j <= |before| ensures schedule[..j] == before[..j] {}
    assert before[..|before|] == before;
  }

  /**
   A blocking call goes on to try only if, at some moment of the wait that it is in, the count was off its limit: above 0 for
   `down`, below the maximum for `up`.
   */
  lemma ProceedsOnlyAfterRoom(max: nat, count: nat, schedule: seq<Action>, t: nat)
    requires Run(max, count, schedule).Some? && Enabled(Run(max, count, schedule).value, Proceed(t))
    ensures exists k :: SawRoomAt(max, count, schedule, t, PcOf(Run(max, count, schedule).value, t).kind, k)
  {
    hide Run, Sound;
    var k := PassedSawRoom(max, count, schedule, t, PcOf(Run(max, count, schedule).value, t).kind);
  }

  /** What may still bring a free unit to the tasks of a queue. */
  ghost function OnTheWay(q: W.Queue): nat
  {
    |q.woken| + q.cnt + W.Left(q.lock.stack) + |q.owing|
  }

  /**
   No lost wake-up, either way: while a task waits for an increment, every unit counted is matched
   by a woken task that has not succeeded or queued again, a pended notification, or an `up`
   between its compare-exchange and its notify; while one waits for a decrement, every unit
   missing from the maximum is matched likewise. The initial count may be anything.
   */
  lemma NoLostWakeup(max: nat, count: nat, schedule: seq<Action>)
    requires Run(max, count, schedule).Some?
    ensures var s := Run(max, count, schedule).value; s.inc.queue != [] ==> s.count <= OnTheWay(s.inc)
    ensures var s := Run(max, count, schedule).value; s.dec.queue != [] ==> max - s.count <= OnTheWay(s.dec)
  {
    RunKeepsInv(max, count, schedule);
    var s := Run(max, count, schedule).value;
    assert W.NoneLost(s.inc) && W.NoneLost(s.dec);
  }

  /** Every caller is outside or blocked on its queue, and no access to a queue is open. */
  ghost predicate Settled(s: Sem)
  {
    && s.inc.lock.stack == [] && s.dec.lock.stack == []
    && forall t {:trigger s.pcs[t]} :: t in s.pcs ==>
      s.pcs[t] == Idle || s.pcs[t].Returned? || (s.pcs[t].Await? && t in Own(s, s.pcs[t].kind).queue)
  }

  /** Once everything has settled, tasks are blocked in `down` only at count 0 and in `up` only at the maximum or above it. */
  lemma SettledMeansAtLimit(max: nat, count: nat, schedule: seq<Action>)
    requires Run(max, count, schedule).Some? && Settled(Run(max, count, schedule).value)
    ensures var s := Run(max, count, schedule).value; (s.inc.queue != [] ==> s.count == 0) && (s.dec.queue != [] ==> s.count >= max)
    ensures var s := Run(max, count, schedule).value; s.dec.queue != [] && count <= max ==> s.count == max
  {
    RunKeepsInv(max, count, schedule);
    SettledSound(Run(max, count, schedule).value);
    CountIsLedger(max, count, schedule);
  }

  lemma SettledSound(s: Sem)
    requires Sound(s) && Settled(s)
    ensures (s.inc.queue != [] ==> s.count == 0) && (s.dec.queue != [] ==> s.count >= s.max)
  {
    QueueQuiet(s, Down);
    QueueQuiet(s, Up);
  }

  lemma SettledAtLimit(s: Sem)
    requires Inv(s) && Settled(s)
    ensures (s.inc.queue != [] ==> s.count == 0) && (s.dec.queue != [] ==> s.count == s.max)
  {
    SettledSound(s);
  }

  /** In a settled state nothing is on its way to either queue. */
  lemma QueueQuiet(s: Sem, kind: Kind)
    requires Sound(s) && Settled(s)
    ensures var q := Own(s, kind); q.woken == {} && q.owing == {} && q.cnt == 0 && (q.queue != [] ==> q.avail == 0)
  {
    var q := Own(s, kind);
    assert SoftLock.Inv(q.lock);
    assert forall t :: t in q.woken ==> t in q.queue;
    assert q.woken == {};
    assert forall t :: t in q.owing ==> t in s.pcs && s.pcs[t].Tell?;
    assert q.owing == {};
  }
}
