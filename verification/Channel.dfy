/**
 The bounded channel: a ring buffer and two semaphores that count its empty and its occupied
 slots. Callers interleave at every atomic operation of the semaphores.
 */
module Channel {

  import opened Common
  import SoftLock
  import W = WaitQueue
  import S = Semaphore

  /** Where a caller of `push`, `pop` or one of their `try_` forms is. */
  datatype Stage<T> =
    | Idle
    | Pushing(v: T, blocking: bool) // taking an empty slot
    | Putting(v: T, blocking: bool) // about to enqueue
    | Posting(blocking: bool)       // announcing an occupied slot
    | Popping(blocking: bool)       // taking an occupied slot
    | Getting(blocking: bool)       // about to dequeue
    | Returning(v: T, blocking: bool) // announcing an empty slot

  /** What a call returned; `Rejected` gives the element back. */
  datatype Result<T> = Pushed | Rejected(v: T) | Nothing | Got(v: T)

  /**
   `slots`, `filled`, `claims` and `freed` are the callers between two counters: with a slot and
   not yet enqueued, enqueued and not yet announced, with a claim and not yet dequeued, dequeued
   and not yet announced. `sent` and `received` are all elements enqueued and dequeued so far,
   `results` what the last calls of the callers outside have returned.
   `died` records that an operation that must succeed has failed.
   */
  datatype Chan<T> = Chan(n: nat, empty: S.Sem, occupied: S.Sem, buffer: seq<T>, stages: map<nat, Stage<T>>,
                          slots: set<nat>, filled: set<nat>, claims: set<nat>, freed: set<nat>,
                          sent: seq<T>, received: seq<T>, results: map<nat, Result<T>>, died: bool)

  function Init<T>(n: nat): Chan<T>
  {
    Chan(n, S.Init(n, n), S.Init(n, 0), [], map[], {}, {}, {}, {}, [], [], map[], false)
  }

  function StageOf<T>(c: Chan<T>, t: nat): Stage<T>
  {
    if t in c.stages then c.stages[t] else Idle
  }

  function Goto<T>(c: Chan<T>, t: nat, stage: Stage<T>): Chan<T>
  {
    c.(stages := c.stages[t := stage])
  }

  datatype Action<T> =
    | Push(t: nat, v: T, blocking: bool)
    | Pop(t: nat, blocking: bool)
    | OnEmpty(inner: S.Action)
    | OnOccupied(inner: S.Action)
    | Return(t: nat)
    | Enqueue(t: nat)
    | Dequeue(t: nat)

  /** Steps inside a semaphore call; the calls themselves are made by the channel. */
  predicate Inside(a: S.Action)
  {
    !a.Call? && !a.Collect?
  }

  predicate Enabled<T>(c: Chan<T>, a: Action<T>)
  {
    match a
    case Push(t, _, _) => StageOf(c, t).Idle?
    case Pop(t, _) => StageOf(c, t).Idle?
    case OnEmpty(inner) => Inside(inner) && S.Enabled(c.empty, inner)
    case OnOccupied(inner) => Inside(inner) && S.Enabled(c.occupied, inner)
    case Return(t) =>
      var st := StageOf(c, t);
      if st.Pushing? || st.Returning? then S.PcOf(c.empty, t).Returned?
      else (st.Posting? || st.Popping?) && S.PcOf(c.occupied, t).Returned?
    case Enqueue(t) => StageOf(c, t).Putting?
    case Dequeue(t) => StageOf(c, t).Getting?
  }

  /** A semaphore call begins. */
  function Called(s: S.Sem, t: nat, kind: S.Kind, blocking: bool): S.Sem
  {
    S.Goto(s, t, if blocking then S.Await(kind) else S.Load(kind, false))
  }

  /** The whole call returns. */
  function Leave<T>(c: Chan<T>, t: nat, result: Result<T>): Chan<T>
  {
    Goto(c.(results := c.results[t := result]), t, Idle)
  }

  /** The call that `t` made on a semaphore has returned. */
  function DoReturn<T>(c: Chan<T>, t: nat): Chan<T>
    requires Enabled(c, Return(t))
  {
    var st := StageOf(c, t);
    match st
    case Pushing(v, blocking) =>
      var c' := c.(empty := S.Goto(c.empty, t, S.Idle));
      if S.PcOf(c.empty, t).ok then Goto(c', t, Putting(v, blocking)) else Leave(c', t, Rejected(v))
    case Popping(blocking) =>
      var c' := c.(occupied := S.Goto(c.occupied, t, S.Idle));
      if S.PcOf(c.occupied, t).ok then Goto(c', t, Getting(blocking)) else Leave(c', t, Nothing)
    case Posting(_) =>
      Leave(c.(occupied := S.Goto(c.occupied, t, S.Idle), died := c.died || !S.PcOf(c.occupied, t).ok), t, Pushed)
    case Returning(v, _) =>
      Leave(c.(empty := S.Goto(c.empty, t, S.Idle), died := c.died || !S.PcOf(c.empty, t).ok), t, Got(v))
  }

  function DoEnqueue<T>(c: Chan<T>, t: nat): Chan<T>
    requires StageOf(c, t).Putting?
  {
    var Putting(v, blocking) := StageOf(c, t);
    if |c.buffer| == c.n then c.(died := true)
    else
      Goto(c.(buffer := c.buffer + [v], sent := c.sent + [v], slots := c.slots - {t}, filled := c.filled + {t},
              occupied := Called(c.occupied, t, S.Up, blocking)), t, Posting(blocking))
  }

  function DoDequeue<T>(c: Chan<T>, t: nat): Chan<T>
    requires StageOf(c, t).Getting?
  {
    var Getting(blocking) := StageOf(c, t);
    if c.buffer == [] then c.(died := true)
    else
      Goto(c.(buffer := c.buffer[1..], received := c.received + [c.buffer[0]], claims := c.claims - {t}, freed := c.freed + {t},
              empty := Called(c.empty, t, S.Up, blocking)), t, Returning(c.buffer[0], blocking))
  }

  /** A step on the semaphore of empty slots; a success gives its caller a slot or announces a freed one. */
  function EmptyStep<T>(c: Chan<T>, a: S.Action): Chan<T>
    requires S.SwapsInRange(c.empty) && S.Enabled(c.empty, a)
  {
    var c' := c.(empty := S.Apply(c.empty, a));
    if a.Exchange? && S.PcOf(c'.empty, a.t).Tell? then
      if S.PcOf(c'.empty, a.t).kind == S.Down then c'.(slots := c.slots + {a.t}) else c'.(freed := c.freed - {a.t})
    else c'
  }

  /** A step on the semaphore of occupied slots; a success gives its caller a claim or announces a filled slot. */
  function OccupiedStep<T>(c: Chan<T>, a: S.Action): Chan<T>
    requires S.SwapsInRange(c.occupied) && S.Enabled(c.occupied, a)
  {
    var c' := c.(occupied := S.Apply(c.occupied, a));
    if a.Exchange? && S.PcOf(c'.occupied, a.t).Tell? then
      if S.PcOf(c'.occupied, a.t).kind == S.Down then c'.(claims := c.claims + {a.t}) else c'.(filled := c.filled - {a.t})
    else c'
  }

  function Apply<T>(c: Chan<T>, a: Action<T>): Chan<T>
    requires Enabled(c, a) && S.SwapsInRange(c.empty) && S.SwapsInRange(c.occupied)
  {
    match a
    case Push(t, v, blocking) => Goto(c.(empty := Called(c.empty, t, S.Down, blocking), results := c.results - {t}), t, Pushing(v, blocking))
    case Pop(t, blocking) => Goto(c.(occupied := Called(c.occupied, t, S.Down, blocking), results := c.results - {t}), t, Popping(blocking))
    case OnEmpty(inner) => EmptyStep(c, inner)
    case OnOccupied(inner) => OccupiedStep(c, inner)
    case Return(t) => DoReturn(c, t)
    case Enqueue(t) => DoEnqueue(c, t)
    case Dequeue(t) => DoDequeue(c, t)
  }

  // ---------- The invariant ----------

  /** `pc` is a stage of a call of the given kind. */
  predicate InCall(pc: S.Pc, kind: S.Kind, blocking: bool)
  {
    match pc
    case Idle => false
    case Await(k) => k == kind && blocking
    case Load(k, b) => k == kind && b == blocking
    case Swap(k, b, _) => k == kind && b == blocking
    case Tell(k) => k == kind
    case Returned(ok) => true
  }

  /** The call has changed the count. */
  predicate Succeeded(pc: S.Pc)
  {
    pc.Tell? || pc == S.Returned(true)
  }

  /** One caller: which calls it is in, and between which counters it stands. */
  ghost predicate CallerOk(st: Stage, e: S.Pc, o: S.Pc, slot: bool, fill: bool, claim: bool, free: bool)
  {
    && (if st.Pushing? then InCall(e, S.Down, st.blocking) else if st.Returning? then InCall(e, S.Up, st.blocking) && e != S.Returned(false) else e.Idle?)
    && (if st.Popping? then InCall(o, S.Down, st.blocking) else if st.Posting? then InCall(o, S.Up, st.blocking) && o != S.Returned(false) else o.Idle?)
    && (slot <==> st.Putting? || (st.Pushing? && Succeeded(e)))
    && (fill <==> st.Posting? && !Succeeded(o))
    && (claim <==> st.Getting? || (st.Popping? && Succeeded(o)))
    && (free <==> st.Returning? && !Succeeded(e))
  }

  ghost predicate PlaceOk<T>(c: Chan<T>, t: nat)
  {
    CallerOk(StageOf(c, t), S.PcOf(c.empty, t), S.PcOf(c.occupied, t), t in c.slots, t in c.filled, t in c.claims, t in c.freed)
  }

  ghost predicate CallersOk<T>(c: Chan<T>)
  {
    forall t {:trigger PlaceOk(c, t)} :: PlaceOk(c, t)
  }

  /** Every slot is accounted for, twice. */
  ghost predicate Balanced<T>(c: Chan<T>)
  {
    && c.empty.count + |c.buffer| + |c.slots| + |c.freed| == c.n
    && c.occupied.count + |c.claims| + |c.filled| == |c.buffer|
  }

  ghost predicate Inv<T>(c: Chan<T>)
  {
    && S.Inv(c.empty) && S.Inv(c.occupied) && c.empty.max == c.n && c.occupied.max == c.n
    && CallersOk(c) && Balanced(c)
    && c.sent == c.received + c.buffer && !c.died
  }

  /** The caller that a semaphore action belongs to. */
  function Agent(a: S.Action): Option<nat>
  {
    match a
    case OnInc(_) => None
    case OnDec(_) => None
    case Call(t, _, _) => Some(t)
    case Proceed(t) => Some(t)
    case Read(t) => Some(t)
    case Exchange(t) => Some(t)
    case Told(t) => Some(t)
    case Collect(t) => Some(t)
  }

  /** Only its own caller's position changes, and the count only when it succeeds. */
  lemma SemStep(s: S.Sem, a: S.Action)
    requires S.SwapsInRange(s) && S.Enabled(s, a) && Inside(a)
    ensures var s' := S.Apply(s, a); forall u: nat :: Agent(a) != Some(u) ==> S.PcOf(s', u) == S.PcOf(s, u)
    ensures !(a.Exchange? && S.PcOf(S.Apply(s, a), a.t).Tell?) ==> S.Apply(s, a).count == s.count
    ensures S.Apply(s, a).max == s.max
  {
  }

  /** How a call moves on. */
  lemma SemCallStep(s: S.Sem, a: S.Action, kind: S.Kind, blocking: bool)
    requires S.SwapsInRange(s) && S.Enabled(s, a) && Inside(a) && Agent(a).Some?
    requires InCall(S.PcOf(s, Agent(a).value), kind, blocking)
    ensures var t, s' := Agent(a).value, S.Apply(s, a); var pc, pc' := S.PcOf(s, t), S.PcOf(s', t);
      && InCall(pc', kind, blocking)
      && (Succeeded(pc) ==> Succeeded(pc'))
      && (!Succeeded(pc) && Succeeded(pc') ==> a.Exchange? && pc'.Tell?)
      && (a.Exchange? && pc'.Tell? ==> !Succeeded(pc) && pc' == S.Tell(kind) && s'.count + (if kind == S.Down then 1 else 0) == s.count + (if kind == S.Up then 1 else 0))
      && (pc' == S.Returned(false) ==> pc == S.Returned(false) || (a.Read? && !blocking && s.count == S.Limit(s, kind)))
  {
  }

  /** Steps inside the wait queues change no counter. */
  lemma QuietBalance<T>(c: Chan<T>, a: S.Action)
    requires Balanced(c) && S.SwapsInRange(c.empty) && S.SwapsInRange(c.occupied) && Agent(a).None?
    ensures S.Enabled(c.empty, a) ==> Balanced(EmptyStep(c, a))
    ensures S.Enabled(c.occupied, a) ==> Balanced(OccupiedStep(c, a))
  {
    hide S.SwapsInRange, W.Apply;
  }

  lemma EmptyKeeps<T>(c: Chan<T>, a: S.Action)
    requires Inv(c) && S.Enabled(c.empty, a) && Inside(a)
    ensures Inv(EmptyStep(c, a))
  {
    hide S.Inv, S.Apply, S.Enabled, CallerOk, Balanced, S.SwapsInRange;
    InRange(c);
    S.ApplyKeeps(c.empty, a);
    SemStep(c.empty, a);
    var c' := EmptyStep(c, a);
    if Agent(a).Some? {
      var t := Agent(a).value;
      EmptyCaller(c, a, t);
      forall u | u != t ensures PlaceOk(c', u) {
        assert PlaceOk(c, u) && StageOf(c, u) == StageOf(c', u);
      }
    } else {
      QuietBalance(c, a);
      forall u ensures PlaceOk(c', u) {
        assert PlaceOk(c, u) && StageOf(c, u) == StageOf(c', u);
      }
    }
  }

  /** The caller itself, and the balance. */
  lemma EmptyCaller<T>(c: Chan<T>, a: S.Action, t: nat)
    requires Inv(c) && S.Enabled(c.empty, a) && Inside(a) && Agent(a) == Some(t)
    ensures var c' := EmptyStep(c, a); PlaceOk(c', t) && Balanced(c')
  {
    hide S.Inv, S.Apply, S.SwapsInRange, Balanced;
    InRange(c);
    var st, pc := StageOf(c, t), S.PcOf(c.empty, t);
    assert PlaceOk(c, t);
    SemStep(c.empty, a);
    assert !pc.Idle?;
    SemCallStep(c.empty, a, if st.Pushing? then S.Down else S.Up, st.blocking);
    if t in c.freed { RoomToReturn(c, t); }
    EmptyBalance(c, a, t);
  }

  /** A consumer that has yet to return its slot finds the count below its maximum. */
  lemma RoomToReturn<T>(c: Chan<T>, t: nat)
    requires Balanced(c) && t in c.freed
    ensures c.empty.count < c.n
  {
    assert |c.freed| >= 1;
  }

  lemma EmptyBalance<T>(c: Chan<T>, a: S.Action, t: nat)
    requires Balanced(c) && PlaceOk(c, t) && S.SwapsInRange(c.empty) && S.Enabled(c.empty, a) && Inside(a) && Agent(a) == Some(t)
    ensures Balanced(EmptyStep(c, a))
  {
    hide S.Apply, S.SwapsInRange, S.Enabled;
    var st := StageOf(c, t);
    SemStep(c.empty, a);
    assert !S.PcOf(c.empty, t).Idle? by { hide *; ActsInside(c.empty, a, t); }
    SemCallStep(c.empty, a, if st.Pushing? then S.Down else S.Up, st.blocking);
  }

  /** Only a caller that is in a call takes steps. */
  lemma ActsInside(s: S.Sem, a: S.Action, t: nat)
    requires S.Enabled(s, a) && Inside(a) && Agent(a) == Some(t)
    ensures !S.PcOf(s, t).Idle?
  {
  }

  lemma OccupiedKeeps<T>(c: Chan<T>, a: S.Action)
    requires Inv(c) && S.Enabled(c.occupied, a) && Inside(a)
    ensures Inv(OccupiedStep(c, a))
  {
    hide S.Inv, S.Apply, S.Enabled, CallerOk, Balanced, S.SwapsInRange;
    InRange(c);
    S.ApplyKeeps(c.occupied, a);
    SemStep(c.occupied, a);
    var c' := OccupiedStep(c, a);
    if Agent(a).Some? {
      var t := Agent(a).value;
      OccupiedCaller(c, a, t);
      forall u | u != t ensures PlaceOk(c', u) {
        assert PlaceOk(c, u) && StageOf(c, u) == StageOf(c', u);
      }
    } else {
      QuietBalance(c, a);
      forall u ensures PlaceOk(c', u) {
        assert PlaceOk(c, u) && StageOf(c, u) == StageOf(c', u);
      }
    }
  }

  lemma OccupiedCaller<T>(c: Chan<T>, a: S.Action, t: nat)
    requires Inv(c) && S.Enabled(c.occupied, a) && Inside(a) && Agent(a) == Some(t)
    ensures var c' := OccupiedStep(c, a);
      && PlaceOk(c', t)
      && Balanced(c')
  {
    hide S.Inv, S.Apply, S.SwapsInRange;
    InRange(c);
    var st, pc := StageOf(c, t), S.PcOf(c.occupied, t);
    assert PlaceOk(c, t);
    SemStep(c.occupied, a);
    assert !pc.Idle?;
    SemCallStep(c.occupied, a, if st.Popping? then S.Down else S.Up, st.blocking);
    assert st.Posting? && t in c.filled ==> |c.filled| >= 1;
  }

  lemma ReturnOthers<T>(c: Chan<T>, t: nat, u: nat)
    requires Enabled(c, Return(t)) && PlaceOk(c, u) && u != t
    ensures PlaceOk(DoReturn(c, t), u)
  {
    ReturnFrame(c, t, u);
    hide CallerOk, DoReturn;
  }

  /** Another caller's return. */
  lemma ReturnFrame<T>(c: Chan<T>, t: nat, u: nat)
    requires Enabled(c, Return(t)) && u != t
    ensures (var c' := DoReturn(c, t);
             && StageOf(c', u) == StageOf(c, u) && S.PcOf(c'.empty, u) == S.PcOf(c.empty, u) && S.PcOf(c'.occupied, u) == S.PcOf(c.occupied, u)
             && c'.slots == c.slots && c'.filled == c.filled && c'.claims == c.claims && c'.freed == c.freed)
  {
  }

  lemma MoveOthers<T>(c: Chan<T>, t: nat, u: nat)
    requires PlaceOk(c, u) && u != t
    ensures StageOf(c, t).Putting? ==> PlaceOk(DoEnqueue(c, t), u)
    ensures StageOf(c, t).Getting? ==> PlaceOk(DoDequeue(c, t), u)
  {
    hide CallerOk;
  }

  /** The channel's own steps leave all other callers where they are. */
  lemma OwnOthers<T>(c: Chan<T>, a: Action<T>, t: nat, u: nat)
    requires Inv(c) && Enabled(c, a) && !a.OnEmpty? && !a.OnOccupied? && a.t == t && u != t
    requires S.SwapsInRange(c.empty) && S.SwapsInRange(c.occupied)
    ensures PlaceOk(Apply(c, a), u)
  {
    hide S.Inv, CallerOk, S.SwapsInRange, DoEnqueue, DoDequeue, DoReturn;
    assert PlaceOk(c, u);
    match a {
      case Enqueue(_) => MoveOthers(c, t, u);
      case Dequeue(_) => MoveOthers(c, t, u);
      case Return(_) => ReturnOthers(c, t, u);
      case Push(_, _, _) =>
      case Pop(_, _) =>
    }
  }

  lemma ReturnPlace<T>(c: Chan<T>, t: nat)
    requires Enabled(c, Return(t)) && PlaceOk(c, t)
    ensures PlaceOk(DoReturn(c, t), t)
  {
  }

  lemma MovePlace<T>(c: Chan<T>, t: nat)
    requires PlaceOk(c, t)
    ensures StageOf(c, t).Putting? && |c.buffer| < c.n ==> PlaceOk(DoEnqueue(c, t), t)
    ensures StageOf(c, t).Getting? && c.buffer != [] ==> PlaceOk(DoDequeue(c, t), t)
  {
  }

  /** They move their own caller on. */
  lemma OwnPlace<T>(c: Chan<T>, a: Action<T>, t: nat)
    requires Inv(c) && Enabled(c, a) && !a.OnEmpty? && !a.OnOccupied? && a.t == t
    requires S.SwapsInRange(c.empty) && S.SwapsInRange(c.occupied)
    ensures PlaceOk(Apply(c, a), t)
  {
    hide S.Inv, S.SwapsInRange, DoEnqueue, DoDequeue, DoReturn;
    assert PlaceOk(c, t);
    OwnBalance(c, a, t);
    match a {
      case Enqueue(_) => MovePlace(c, t);
      case Dequeue(_) => MovePlace(c, t);
      case Return(_) => ReturnPlace(c, t);
      case Push(_, _, _) =>
      case Pop(_, _) =>
    }
  }

  /** A caller with a slot finds room. */
  lemma EnqueueBalance<T>(c: Chan<T>, t: nat)
    requires Balanced(c) && PlaceOk(c, t) && StageOf(c, t).Putting? && c.sent == c.received + c.buffer
    ensures |c.buffer| < c.n && Balanced(DoEnqueue(c, t)) && DoEnqueue(c, t).died == c.died
    ensures DoEnqueue(c, t).sent == DoEnqueue(c, t).received + DoEnqueue(c, t).buffer
  {
    hide S.SwapsInRange;
    assert t in c.slots && t !in c.filled;
    assert |c.slots - {t}| == |c.slots| - 1 && |c.filled + {t}| == |c.filled| + 1;
    assert c.received + c.buffer + [StageOf(c, t).v] == c.received + (c.buffer + [StageOf(c, t).v]);
  }

  /** A caller with a claim finds an element. */
  lemma DequeueBalance<T>(c: Chan<T>, t: nat)
    requires Balanced(c) && PlaceOk(c, t) && StageOf(c, t).Getting? && c.sent == c.received + c.buffer
    ensures c.buffer != [] && Balanced(DoDequeue(c, t)) && DoDequeue(c, t).died == c.died
    ensures DoDequeue(c, t).sent == DoDequeue(c, t).received + DoDequeue(c, t).buffer
  {
    assert t in c.claims && t !in c.freed;
    assert |c.claims - {t}| == |c.claims| - 1 && |c.freed + {t}| == |c.freed| + 1;
    assert c.received + c.buffer == c.received + [c.buffer[0]] + c.buffer[1..];
  }

  /** Announcing never fails. */
  lemma ReturnBalance<T>(c: Chan<T>, t: nat)
    requires Balanced(c) && PlaceOk(c, t) && Enabled(c, Return(t)) && c.sent == c.received + c.buffer
    ensures Balanced(DoReturn(c, t)) && DoReturn(c, t).died == c.died
    ensures DoReturn(c, t).sent == DoReturn(c, t).received + DoReturn(c, t).buffer
  {
  }

  lemma OwnBalance<T>(c: Chan<T>, a: Action<T>, t: nat)
    requires Inv(c) && Enabled(c, a) && !a.OnEmpty? && !a.OnOccupied? && a.t == t
    requires S.SwapsInRange(c.empty) && S.SwapsInRange(c.occupied)
    ensures var c' := Apply(c, a); Balanced(c') && c'.sent == c'.received + c'.buffer && !c'.died && c'.n == c.n
    ensures a.Enqueue? ==> |c.buffer| < c.n
    ensures a.Dequeue? ==> c.buffer != []
  {
    hide S.Inv, CallerOk, S.SwapsInRange, DoEnqueue, DoDequeue, DoReturn;
    assert PlaceOk(c, t);
    match a {
      case Enqueue(_) => EnqueueBalance(c, t); SameCapacity(c, a);
      case Dequeue(_) => DequeueBalance(c, t); SameCapacity(c, a);
      case Return(_) => ReturnBalance(c, t); SameCapacity(c, a);
      case _ =>
    }
  }

  lemma OwnStepKeeps<T>(c: Chan<T>, a: Action<T>, t: nat)
    requires Inv(c) && Enabled(c, a) && !a.OnEmpty? && !a.OnOccupied? && a.t == t
    ensures Inv(Apply(c, a))
  {
    hide S.Inv, PlaceOk, Apply, Balanced, S.SwapsInRange;
    InRange(c);
    OwnSemaphores(c, a, t);
    OwnBalance(c, a, t);
    var c' := Apply(c, a);
    forall u ensures PlaceOk(c', u) {
      if u == t { OwnPlace(c, a, t); } else { OwnOthers(c, a, t, u); }
    }
  }

  lemma InRange<T>(c: Chan<T>)
    requires Inv(c)
    ensures S.SwapsInRange(c.empty) && S.SwapsInRange(c.occupied)
  {
  }

  lemma SameCapacity<T>(c: Chan<T>, a: Action<T>)
    requires Enabled(c, a) && S.SwapsInRange(c.empty) && S.SwapsInRange(c.occupied)
    ensures Apply(c, a).n == c.n
  {
    hide S.SwapsInRange;
  }

  lemma OwnSemaphores<T>(c: Chan<T>, a: Action<T>, t: nat)
    requires Inv(c) && Enabled(c, a) && !a.OnEmpty? && !a.OnOccupied? && a.t == t
    requires S.SwapsInRange(c.empty) && S.SwapsInRange(c.occupied)
    ensures S.Inv(Apply(c, a).empty) && S.Inv(Apply(c, a).occupied)
    ensures Apply(c, a).empty.max == c.n && Apply(c, a).occupied.max == c.n
  {
    hide S.Inv, S.SwapsInRange;
    var st := StageOf(c, t);
    assert PlaceOk(c, t);
    match a {
      case Push(_, _, blocking) => S.ApplyKeeps(c.empty, S.Call(t, S.Down, blocking));
      case Pop(_, blocking) => S.ApplyKeeps(c.occupied, S.Call(t, S.Down, blocking));
      case Enqueue(_) => S.ApplyKeeps(c.occupied, S.Call(t, S.Up, st.blocking));
      case Dequeue(_) => S.ApplyKeeps(c.empty, S.Call(t, S.Up, st.blocking));
      case Return(_) => if st.Pushing? || st.Returning? { S.ApplyKeeps(c.empty, S.Collect(t)); } else { S.ApplyKeeps(c.occupied, S.Collect(t)); }
    }
  }

  lemma ApplyKeeps<T>(c: Chan<T>, a: Action<T>)
    requires Inv(c) && Enabled(c, a)
    ensures Inv(Apply(c, a))
  {
    match a {
      case OnEmpty(inner) => EmptyKeeps(c, inner);
      case OnOccupied(inner) => OccupiedKeeps(c, inner);
      case _ => OwnStepKeeps(c, a, a.t);
    }
  }

  // ---------- Whole runs ----------

  /** The state that a schedule leads to; none when an action is not possible. */
  ghost function Run<T>(n: nat, schedule: seq<Action<T>>): Option<Chan<T>>
  {
    if schedule == [] then Some(Init(n))
    else
      var before := Run(n, schedule[..|schedule| - 1]);
      var last := schedule[|schedule| - 1];
      if before.Some? && S.SwapsInRange(before.value.empty) && S.SwapsInRange(before.value.occupied) && Enabled(before.value, last)
      then Some(Apply(before.value, last)) else None
  }

  lemma InitInv<T>(n: nat)
    ensures Inv(Init<T>(n))
  {
    S.InitInv(n, n);
    S.InitInv(n, 0);
    hide S.Inv;
    forall t ensures PlaceOk(Init<T>(n), t) {}
  }

  lemma {:induction false} RunKeepsInv<T>(n: nat, schedule: seq<Action<T>>)
    requires Run(n, schedule).Some?
    ensures Inv(Run(n, schedule).value) && Run(n, schedule).value.n == n
  {
    hide Inv, S.SwapsInRange;
    if schedule == [] {
      InitInv<T>(n);
    } else {
      RunKeepsInv(n, schedule[..|schedule| - 1]);
      ApplyKeeps(Run(n, schedule[..|schedule| - 1]).value, schedule[|schedule| - 1]);
      SameCapacity(Run(n, schedule[..|schedule| - 1]).value, schedule[|schedule| - 1]);
    }
  }

  /** The two counters and the callers between them always account for every slot and every element. */
  lemma SlotsBalance<T>(n: nat, schedule: seq<Action<T>>)
    requires Run(n, schedule).Some?
    ensures var c := Run(n, schedule).value;
      && c.empty.count + |c.buffer| + |c.slots| + |c.freed| == n
      && c.occupied.count + |c.claims| + |c.filled| == |c.buffer|
  {
    RunKeepsInv(n, schedule);
  }

  /** No operation that must succeed ever fails. */
  lemma NeverDies<T>(n: nat, schedule: seq<Action<T>>)
    requires Run(n, schedule).Some?
    ensures !Run(n, schedule).value.died
  {
    RunKeepsInv(n, schedule);
  }

  /** Elements leave in the order in which they entered, each exactly once; what has not left is in the buffer. */
  lemma FirstInFirstOut<T>(n: nat, schedule: seq<Action<T>>)
    requires Run(n, schedule).Some?
    ensures var c := Run(n, schedule).value; c.sent == c.received + c.buffer && |c.buffer| <= n
  {
    RunKeepsInv(n, schedule);
  }

  /** Every caller is outside or blocked inside a semaphore. */
  ghost predicate Settled<T>(c: Chan<T>)
  {
    && c.empty.inc.lock.stack == [] && c.empty.dec.lock.stack == []
    && c.occupied.inc.lock.stack == [] && c.occupied.dec.lock.stack == []
    && forall t {:trigger StageOf(c, t)} :: Blocked(c.empty, t) || Blocked(c.occupied, t) || StageOf(c, t).Idle?
  }

  /** `t` is blocked on one of the semaphore's queues. */
  ghost predicate Blocked(s: S.Sem, t: nat)
  {
    S.PcOf(s, t).Await? && t in S.Own(s, S.PcOf(s, t).kind).queue
  }

  /** Whoever has yet to announce is blocked on the queue of those that wait for a decrement. */
  lemma AnnouncersBlocked<T>(c: Chan<T>)
    requires CallersOk(c) && Settled(c)
    ensures c.freed != {} ==> c.empty.dec.queue != []
    ensures c.filled != {} ==> c.occupied.dec.queue != []
  {
    if c.freed != {} {
      var t :| t in c.freed;
      assert PlaceOk(c, t) && (StageOf(c, t).Idle? || Blocked(c.empty, t) || Blocked(c.occupied, t));
    }
    if c.filled != {} {
      var t :| t in c.filled;
      assert PlaceOk(c, t) && (StageOf(c, t).Idle? || Blocked(c.empty, t) || Blocked(c.occupied, t));
    }
  }

  lemma SettledSemaphores<T>(c: Chan<T>)
    requires Inv(c) && Settled(c)
    ensures S.Settled(c.empty) && S.Settled(c.occupied)
    ensures c.slots == {} && c.claims == {}
    ensures c.freed != {} ==> c.empty.dec.queue != []
    ensures c.filled != {} ==> c.occupied.dec.queue != []
  {
    hide S.Inv;
    AnnouncersBlocked(c);
    forall t ensures PlaceOk(c, t) && (StageOf(c, t).Idle? || Blocked(c.empty, t) || Blocked(c.occupied, t)) {}
    assert forall t :: t in c.slots ==> PlaceOk(c, t);
    assert forall t :: t in c.claims ==> PlaceOk(c, t);
    forall t {:trigger c.empty.pcs[t]} | t in c.empty.pcs
      ensures S.PcOf(c.empty, t) == S.Idle || Blocked(c.empty, t)
    {
      assert PlaceOk(c, t);
    }
    forall t {:trigger c.occupied.pcs[t]} | t in c.occupied.pcs
      ensures S.PcOf(c.occupied, t) == S.Idle || Blocked(c.occupied, t)
    {
      assert PlaceOk(c, t);
    }
  }

  /**
   Once everything has settled, a producer is blocked only when the buffer is full and a consumer
   only when it is empty, and nobody is blocked while announcing.
   */
  lemma SettledMeansFullOrEmpty<T>(n: nat, schedule: seq<Action<T>>)
    requires Run(n, schedule).Some? && Settled(Run(n, schedule).value)
    ensures var c := Run(n, schedule).value;
      && (c.empty.inc.queue != [] ==> |c.buffer| == n)
      && (c.occupied.inc.queue != [] ==> c.buffer == [])
      && c.freed == {} && c.filled == {}
  {
    RunKeepsInv(n, schedule);
    var c := Run(n, schedule).value;
    SettledSemaphores(c);
    S.SettledAtLimit(c.empty);
    S.SettledAtLimit(c.occupied);
    hide S.Inv;
    assert c.freed != {} ==> |c.freed| >= 1;
    assert c.filled != {} ==> |c.filled| >= 1;
  }
}
