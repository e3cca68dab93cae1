/**
 What travels through the channel: the elements sent are the arguments of the pushes, and each pop returns the one that was due.
 The record is read off the schedule alone.
 */
module ChannelHistory {

  import opened Common
  import S = Semaphore
  import opened Channel

  /** The last call of a caller has had no effect on the buffer, has put its element in, or has taken the `k`th of all. */
  datatype Effect = NoEffect | Put | Took(k: nat)

  function Last<A>(s: seq<A>): A
    requires s != []
  {
    s[|s| - 1]
  }

  function Init<A>(s: seq<A>): seq<A>
    requires s != []
  {
    s[..|s| - 1]
  }

  /** The argument of the last push of `t`. */
  function Argument<T>(schedule: seq<Action<T>>, t: nat): Option<T>
  {
    if schedule == [] then None
    else if Last(schedule).Push? && Last(schedule).t == t then Some(Last(schedule).v)
    else Argument(Init(schedule), t)
  }

  /** The arguments of the pushes that were enqueued, in that order. */
  function Sent<T>(schedule: seq<Action<T>>): seq<Option<T>>
  {
    if schedule == [] then []
    else if Last(schedule).Enqueue? then Sent(Init(schedule)) + [Argument(Init(schedule), Last(schedule).t)]
    else Sent(Init(schedule))
  }

  /** How many elements have been dequeued. */
  function Taken<T>(schedule: seq<Action<T>>): nat
  {
    if schedule == [] then 0 else Taken(Init(schedule)) + if Last(schedule).Dequeue? then 1 else 0
  }

  /** What the last call of `t` has done to the buffer. */
  function EffectOf<T>(schedule: seq<Action<T>>, t: nat): Effect
  {
    if schedule == [] then NoEffect
    else
      match Last(schedule)
      case Push(u, _, _) => if u == t then NoEffect else EffectOf(Init(schedule), t)
      case Pop(u, _) => if u == t then NoEffect else EffectOf(Init(schedule), t)
      case Enqueue(u) => if u == t then Put else EffectOf(Init(schedule), t)
      case Dequeue(u) => if u == t then Took(Taken(Init(schedule))) else EffectOf(Init(schedule), t)
      case _ => EffectOf(Init(schedule), t)
  }

  /** The element is the argument of the last push. */
  predicate IsArgument<T(==)>(v: T, arg: Option<T>) { arg == Some(v) }

  /** The element is the one that this effect took. */
  predicate IsTaken<T(==)>(v: T, e: Effect, received: seq<T>) { e.Took? && e.k < |received| && received[e.k] == v }

  /** What a caller carries and what it returned agree with its arguments and effects. */
  ghost predicate CallerOk<T>(c: Chan<T>, arg: Option<T>, e: Effect, t: nat)
  {
    && (t in c.results ==> StageOf(c, t).Idle? && ReturnOk(c.results[t], arg, e, c.received))
    && match StageOf(c, t)
       case Idle => true
       case Pushing(v, _) => IsArgument(v, arg) && e == NoEffect
       case Putting(v, _) => IsArgument(v, arg) && e == NoEffect
       case Posting(_) => e == Put
       case Popping(_) => e == NoEffect
       case Getting(_) => e == NoEffect
       case Returning(v, _) => IsTaken(v, e, c.received)
  }

  ghost predicate ReturnOk<T>(r: Result<T>, arg: Option<T>, e: Effect, received: seq<T>)
  {
    match r
    case Pushed => e == Put
    case Rejected(v) => IsArgument(v, arg) && e == NoEffect
    case Nothing => e == NoEffect
    case Got(v) => IsTaken(v, e, received)
  }

  ghost predicate SentOk<T>(c: Chan<T>, sent: seq<Option<T>>, taken: nat)
  {
    && |c.sent| == |sent| && |c.received| == taken
    && forall i {:trigger sent[i]} :: 0 <= i < |sent| ==> sent[i] == Some(c.sent[i])
  }

  // ---------- Actions ----------

  /** Steps of the semaphores. */
  lemma InnerKeeps<T>(c: Chan<T>, a: Action<T>, arg: Option<T>, e: Effect, t: nat)
    requires CallerOk(c, arg, e, t) && (a.OnEmpty? || a.OnOccupied?) && Enabled(c, a) && S.SwapsInRange(c.empty) && S.SwapsInRange(c.occupied)
    ensures CallerOk(Apply(c, a), arg, e, t)
    ensures Apply(c, a).sent == c.sent && Apply(c, a).received == c.received
  {
    hide S.SwapsInRange, S.Apply, S.Enabled, ReturnOk;
    var c' := Apply(c, a);
    assert c'.stages == c.stages && c'.results == c.results && c'.received == c.received;
  }

  /** A caller other than the one that acts. */
  lemma OtherKeeps<T>(c: Chan<T>, c': Chan<T>, arg: Option<T>, e: Effect, t: nat)
    requires CallerOk(c, arg, e, t) && Same(c, c', t)
    requires c.received <= c'.received
    ensures CallerOk(c', arg, e, t)
  {
  }

  lemma SelfReturns<T>(c: Chan<T>, arg: Option<T>, e: Effect, t: nat)
    requires Enabled(c, Action<T>.Return(t)) && CallerOk(c, arg, e, t)
    ensures CallerOk(DoReturn(c, t), arg, e, t)
  {
    hide IsArgument, IsTaken;
  }

  lemma SelfEnqueues<T>(c: Chan<T>, arg: Option<T>, e: Effect, t: nat)
    requires StageOf(c, t).Putting? && |c.buffer| < c.n && CallerOk(c, arg, e, t)
    ensures CallerOk(DoEnqueue(c, t), arg, Put, t)
    ensures IsArgument(StageOf(c, t).v, arg)
  {
  }

  lemma SelfDequeues<T>(c: Chan<T>, arg: Option<T>, e: Effect, t: nat)
    requires StageOf(c, t).Getting? && c.buffer != [] && CallerOk(c, arg, e, t)
    ensures CallerOk(DoDequeue(c, t), arg, Took(|c.received|), t)
  {
  }

  /** The caller that acts. */
  lemma SelfKeeps<T>(c: Chan<T>, a: Action<T>, arg: Option<T>, e: Effect, taken: nat)
    requires Inv(c) && Enabled(c, a) && !a.OnEmpty? && !a.OnOccupied? && CallerOk(c, arg, e, a.t) && |c.received| == taken
    requires S.SwapsInRange(c.empty) && S.SwapsInRange(c.occupied)
    ensures CallerOk(Apply(c, a), if a.Push? then Some(a.v) else arg,
                     if a.Push? || a.Pop? then NoEffect else if a.Enqueue? then Put else if a.Dequeue? then Took(taken) else e, a.t)
  {
    OwnBalance(c, a, a.t);
    hide Inv, S.SwapsInRange, DoReturn, DoEnqueue, DoDequeue;
    match a
    case Return(t) => SelfReturns(c, arg, e, t);
    case Enqueue(t) => SelfEnqueues(c, arg, e, t);
    case Dequeue(t) => SelfDequeues(c, arg, e, t);
    case _ =>
  }

  /** Nothing is known to change for `t`. */
  ghost predicate Same<T>(c: Chan<T>, c': Chan<T>, t: nat)
  {
    StageOf(c', t) == StageOf(c, t) && (t in c'.results <==> t in c.results) && (t in c.results ==> c'.results[t] == c.results[t])
  }

  lemma ReturnSame<T>(c: Chan<T>, u: nat, t: nat)
    requires Enabled(c, Action<T>.Return(u)) && u != t
    ensures Same(c, DoReturn(c, u), t)
  {
  }

  lemma MoveSame<T>(c: Chan<T>, u: nat, t: nat)
    requires u != t
    ensures StageOf(c, u).Putting? ==> Same(c, DoEnqueue(c, u), t)
    ensures StageOf(c, u).Getting? ==> Same(c, DoDequeue(c, u), t)
  {
  }

  lemma OthersFrame<T>(c: Chan<T>, a: Action<T>, t: nat)
    requires Enabled(c, a) && !a.OnEmpty? && !a.OnOccupied? && a.t != t
    requires S.SwapsInRange(c.empty) && S.SwapsInRange(c.occupied)
    ensures Same(c, Apply(c, a), t)
  {
    hide S.SwapsInRange, DoReturn, DoEnqueue, DoDequeue;
    match a
    case Return(u) => ReturnSame(c, u, t);
    case Enqueue(u) => MoveSame(c, u, t);
    case Dequeue(u) => MoveSame(c, u, t);
    case _ =>
  }

  lemma EnqueueSent<T>(c: Chan<T>, sent: seq<Option<T>>, taken: nat, arg: Option<T>, t: nat)
    requires StageOf(c, t).Putting? && |c.buffer| < c.n && SentOk(c, sent, taken) && IsArgument(StageOf(c, t).v, arg)
    ensures SentOk(DoEnqueue(c, t), sent + [arg], taken) && DoEnqueue(c, t).received == c.received
  {
  }

  lemma DequeueSent<T>(c: Chan<T>, sent: seq<Option<T>>, taken: nat, t: nat)
    requires StageOf(c, t).Getting? && c.buffer != [] && SentOk(c, sent, taken)
    ensures SentOk(DoDequeue(c, t), sent, taken + 1) && c.received <= DoDequeue(c, t).received
  {
  }

  lemma ReturnSent<T>(c: Chan<T>, t: nat)
    requires Enabled(c, Action<T>.Return(t))
    ensures DoReturn(c, t).sent == c.sent && DoReturn(c, t).received == c.received
  {
  }

  /** The elements sent and received. */
  lemma SentKeeps<T>(c: Chan<T>, a: Action<T>, sent: seq<Option<T>>, taken: nat, arg: Option<T>, e: Effect)
    requires Inv(c) && Enabled(c, a) && !a.OnEmpty? && !a.OnOccupied? && SentOk(c, sent, taken) && CallerOk(c, arg, e, a.t)
    requires S.SwapsInRange(c.empty) && S.SwapsInRange(c.occupied)
    ensures SentOk(Apply(c, a), if a.Enqueue? then sent + [arg] else sent, if a.Dequeue? then taken + 1 else taken)
    ensures c.received <= Apply(c, a).received
  {
    OwnBalance(c, a, a.t);
    hide Inv, S.SwapsInRange, DoReturn, DoEnqueue, DoDequeue;
    match a
    case Return(t) => ReturnSent(c, t);
    case Enqueue(t) =>
      SelfEnqueues(c, arg, e, t);
      EnqueueSent(c, sent, taken, arg, t);
    case Dequeue(t) => DequeueSent(c, sent, taken, t);
    case _ =>
  }

  /** Every action keeps the record right. */
  lemma ActionKeeps<T>(c: Chan<T>, a: Action<T>, schedule: seq<Action<T>>, t: nat)
    requires Inv(c) && Enabled(c, a) && S.SwapsInRange(c.empty) && S.SwapsInRange(c.occupied)
    requires SentOk(c, Sent(schedule), Taken(schedule)) && forall u {:trigger CallerOk(c, Argument(schedule, u), EffectOf(schedule, u), u)} ::
      CallerOk(c, Argument(schedule, u), EffectOf(schedule, u), u)
    ensures SentOk(Apply(c, a), Sent(schedule + [a]), Taken(schedule + [a]))
    ensures CallerOk(Apply(c, a), Argument(schedule + [a], t), EffectOf(schedule + [a], t), t)
  {
    hide Inv, Apply, Enabled, S.SwapsInRange, CallerOk, SentOk, Same;
    var next := schedule + [a];
    assert Init(next) == schedule && Last(next) == a;
    var arg, e := Argument(schedule, t), EffectOf(schedule, t);
    assert CallerOk(c, arg, e, t);
    if a.OnEmpty? || a.OnOccupied? {
      InnerKeeps(c, a, arg, e, t);
      SentStays(c, Apply(c, a), Sent(schedule), Taken(schedule));
    } else {
      assert CallerOk(c, Argument(schedule, a.t), EffectOf(schedule, a.t), a.t);
      SentKeeps(c, a, Sent(schedule), Taken(schedule), Argument(schedule, a.t), EffectOf(schedule, a.t));
      if t == a.t {
        TakenIs(c, Sent(schedule), Taken(schedule));
        SelfKeeps(c, a, arg, e, Taken(schedule));
      } else {
        OthersFrame(c, a, t);
        OtherKeeps(c, Apply(c, a), arg, e, t);
      }
    }
  }

  lemma SentStays<T>(c: Chan<T>, c': Chan<T>, sent: seq<Option<T>>, taken: nat)
    requires SentOk(c, sent, taken) && c'.sent == c.sent && c'.received == c.received
    ensures SentOk(c', sent, taken)
  {
  }

  lemma TakenIs<T>(c: Chan<T>, sent: seq<Option<T>>, taken: nat)
    requires SentOk(c, sent, taken)
    ensures |c.received| == taken
  {
  }

  lemma {:induction false} RunKeeps<T>(n: nat, schedule: seq<Action<T>>)
    requires Run(n, schedule).Some?
    ensures SentOk(Run(n, schedule).value, Sent(schedule), Taken(schedule))
    ensures forall t :: CallerOk(Run(n, schedule).value, Argument(schedule, t), EffectOf(schedule, t), t)
  {
    hide Inv, Apply, Enabled, S.SwapsInRange;
    if schedule != [] {
      hide CallerOk, SentOk;
      var before, last := Init(schedule), Last(schedule);
      assert schedule == before + [last];
      RunKeeps(n, before);
      RunKeepsInv(n, before);
      var c := Run(n, before).value;
      ActionKeeps(c, last, before, 0);
      forall t ensures CallerOk(Apply(c, last), Argument(schedule, t), EffectOf(schedule, t), t) { ActionKeeps(c, last, before, t); }
    }
  }

  // ---------- What holds in every run ----------

  /**
   The elements received, followed by those in the buffer, are the arguments of the pushes that were enqueued, in the order in which
   they were; and as many have been received as dequeues were made.
   */
  lemma DeliversWhatWasPushed<T>(n: nat, schedule: seq<Action<T>>)
    requires Run(n, schedule).Some?
    ensures (var c := Run(n, schedule).value;
             && |c.received| == Taken(schedule) && |c.received + c.buffer| == |Sent(schedule)|
             && forall i :: 0 <= i < |Sent(schedule)| ==> Sent(schedule)[i] == Some((c.received + c.buffer)[i]))
  {
    RunKeeps(n, schedule);
    FirstInFirstOut(n, schedule);
  }

  /**
   What the last call of `t` returned: a push reports success exactly if its element was put in, and gives back its argument
   otherwise; a pop that made the `k`th dequeue of all returns the argument of the push that made the `k`th enqueue, and one that
   returns nothing made none.
   */
  lemma ReturnsWhatItTook<T>(n: nat, schedule: seq<Action<T>>, t: nat)
    requires Run(n, schedule).Some? && t in Run(n, schedule).value.results
    ensures (var e := EffectOf(schedule, t);
             match Run(n, schedule).value.results[t]
             case Pushed => e == Put
             case Rejected(v) => e == NoEffect && Argument(schedule, t) == Some(v)
             case Nothing => e == NoEffect
             case Got(v) => e.Took? && e.k < |Sent(schedule)| && Sent(schedule)[e.k] == Some(v))
  {
    RunKeeps(n, schedule);
    DeliversWhatWasPushed(n, schedule);
    assert CallerOk(Run(n, schedule).value, Argument(schedule, t), EffectOf(schedule, t), t);
  }
}
