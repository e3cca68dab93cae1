/** Sleeping tasks, ordered by a wake-up tick that wraps around. */
module SleepQueue {

  import opened Common
  import opened TaskList

  const I32_MAX := 0x7FFF_FFFF

  // ---------- Which entries have expired ----------

  /** The number of entries at the front of the list that compare as not later than the current tick. */
  function ExpiredFront(ticks: seq<u32>, cur: u32): (k: nat)
    ensures k <= |ticks|
  {
    if ticks == [] || TickCmp(ticks[0], cur) == Greater then 0 else 1 + ExpiredFront(ticks[1..], cur)
  }

  /** In a window, these are exactly the entries whose true tick has come. */
  lemma {:induction false} ExpiryIsExact(wakes: seq<int>, ticks: seq<u32>, now: int)
    requires |ticks| == |wakes| && (forall i {:trigger ticks[i]} :: 0 <= i < |wakes| ==> ticks[i] == Wrap(wakes[i]))
    requires Sorted(wakes) && Window(wakes, now)
    ensures var k := ExpiredFront(ticks, Wrap(now));
      && (forall i :: 0 <= i < k ==> wakes[i] <= now)
      && (forall i :: k <= i < |wakes| ==> now < wakes[i])
  {
    if wakes != [] {
      assert ticks[0] == Wrap(wakes[0]) && -0x8000_0000 < wakes[0] - now < 0x8000_0000;
      TickCmpRightIff(wakes[0], now);
      if wakes[0] <= now {
        assert forall i :: 0 <= i < |wakes| - 1 ==> ticks[1..][i] == Wrap(wakes[1..][i]);
        ExpiryIsExact(wakes[1..], ticks[1..], now);
        assert forall i :: 1 <= i < |wakes| ==> wakes[i] == wakes[1..][i - 1];
      }
    }
  }

  /** A sleep of `ms` from now counts as not yet over exactly when it is neither zero nor 2^31 or longer. */
  lemma SleepCountsIff(now: int, ms: u32)
    ensures TickCmp(Wrap(now + ms), Wrap(now)) == Greater <==> 0 < ms < 0x8000_0000
  {
    TickCmpRightIff(now + ms, now);
  }

  /** A new sleeper fits the window of the present ones as long as its sleep and the lateness of the latest stale entry stay below 2^31 together. */
  lemma SleeperFitsWindow(wakes: seq<int>, now: int, late: nat, ms: nat)
    requires forall i :: 0 <= i < |wakes| ==> now - late <= wakes[i] < now + 0x8000_0000
    requires late + ms < 0x8000_0000
    ensures Window(wakes, now + ms)
  {
  }

  /** The earliest entry is at most 2^31 overdue, and the first one ahead less than 2^31 ahead. */
  predicate Expirable(wakes: seq<int>, now: int)
  {
    && (wakes != [] ==> now - wakes[0] <= 0x8000_0000)
    && (NotLater(wakes, now) < |wakes| ==> wakes[NotLater(wakes, now)] - now < 0x8000_0000)
  }

  lemma GreaterIff(w: int, now: int)
    requires -0x1_0000_0000 < w - now < 0x1_0000_0000
    ensures TickCmp(Wrap(w), Wrap(now)) == Greater <==> now < w < now + 0x8000_0000 || w < now - 0x8000_0000
  {
    WrapDifference(w, now);
  }

  /** The expired front is the entries whose true tick has come exactly when the list is expirable at that tick. */
  lemma {:induction false} ExpiryRightIff(wakes: seq<int>, ticks: seq<u32>, now: int)
    requires Sorted(wakes) && Near(wakes, ticks, now)
    ensures ExpiredFront(ticks, Wrap(now)) == NotLater(wakes, now) <==> Expirable(wakes, now)
    ensures (wakes != [] ==> now - wakes[0] <= 0x8000_0000) ==> ExpiredFront(ticks, Wrap(now)) >= NotLater(wakes, now)
  {
    hide TickCmp, Wrap;
    if wakes != [] {
      assert ticks[0] == Wrap(wakes[0]);
      GreaterIff(wakes[0], now);
      if now - wakes[0] <= 0x8000_0000 && !(now < wakes[0] < now + 0x8000_0000) {
        assert wakes[1..] != [] ==> wakes[1..][0] == wakes[1] >= wakes[0];
        ExpiryRightIff(wakes[1..], ticks[1..], now);
      }
    }
  }

  /** With an entry `late` ticks overdue in the queue, a sleep of `ms` is put in its place exactly when the two stay below 2^31 together. */
  lemma StaleMisplacesIff(now: int, late: nat, ms: nat)
    requires late + ms < 0x1_0000_0000
    ensures Sorted(Inserted([now - late], FirstLater([Wrap(now - late)], Wrap(now + ms)), now + ms)) <==> late + ms < 0x8000_0000
  {
    InsertSortedIff([now - late], [Wrap(now - late)], now + ms);
    assert NotLater([now - late][1..], now + ms) == 0;
  }

  /** One stale entry is enough to misplace the longest sleep that `sleep_ms` accepts: it is queued in front. */
  lemma LongestSleepMisplaced(now: int)
    ensures Inserted([now - 1], FirstLater([Wrap(now - 1)], Wrap(now + I32_MAX)), now + I32_MAX) == [now + I32_MAX, now - 1]
  {
    WrapDifference(now + I32_MAX, now - 1);
  }

  // ---------- Removing tasks one by one ----------

  /** The list without any of the tasks in `gone`. */
  ghost function Minus(s: seq<Task>, gone: seq<Task>): (r: seq<Task>)
    ensures forall x :: x in r ==> x in s
    decreases gone
  {
    if gone == [] then s else Minus(MinusOne(s, gone[0]), gone[1..])
  }

  /** The tasks of `gone` that are in the list, in the order of `gone`. */
  ghost function Taken(s: seq<Task>, gone: seq<Task>): seq<Task>
    decreases gone
  {
    if gone == [] then []
    else (if gone[0] in s then [gone[0]] else []) + Taken(MinusOne(s, gone[0]), gone[1..])
  }

  lemma MinusOneMembers(s: seq<Task>, t: Task)
    requires AllDifferent(s)
    ensures AllDifferent(MinusOne(s, t)) && forall x :: x in MinusOne(s, t) <==> x in s && x != t
  {
    if t in s {
      var k :| 0 <= k < |s| && s[k] == t;
      MinusOneAt(s, k);
      WithoutKeeps(s, k);
      forall x | x in s && x != t ensures x in Without(s, k) {
        var i :| 0 <= i < |s| && s[i] == x;
        assert Without(s, k)[if i < k then i else i - 1] == x;
      }
    } else {
      MinusOneAbsent(s, t);
    }
  }

  /** What is left is what was there and is not gone. */
  lemma {:induction false} MinusMembers(s: seq<Task>, gone: seq<Task>)
    requires AllDifferent(s)
    ensures forall x :: x in Minus(s, gone) <==> x in s && x !in gone
    decreases gone
  {
    if gone != [] {
      MinusOneMembers(s, gone[0]);
      MinusMembers(MinusOne(s, gone[0]), gone[1..]);
      assert forall x :: x in gone <==> x == gone[0] || x in gone[1..];
    }
  }

  lemma SameTicks(tasks: seq<Task>, ticks: seq<u32>, wakes: seq<int>)
    requires |ticks| == |tasks| == |wakes|
    requires forall i {:trigger ticks[i]} :: 0 <= i < |tasks| ==> ticks[i] == tasks[i].wakeTick
    requires forall i {:trigger wakes[i]} :: 0 <= i < |tasks| ==> wakes[i] == tasks[i].wake
    ensures Ticks(tasks) == ticks && Wakes(tasks) == wakes
  {
  }

  lemma InsertedWakes(was: seq<Task>, k: nat, task: Task, wakes: seq<int>)
    requires k <= |was| && |wakes| == |was| && forall i {:trigger wakes[i]} :: 0 <= i < |was| ==> wakes[i] == was[i].wake
    ensures Wakes(Inserted(was, k, task)) == Inserted(wakes, k, task.wake)
  {
  }

  lemma SuffixWakes(was: seq<Task>, wakes: seq<int>, k: nat)
    requires k <= |was| && |wakes| == |was| && forall i {:trigger wakes[i]} :: 0 <= i < |was| ==> wakes[i] == was[i].wake
    ensures Wakes(was[k..]) == wakes[k..]
    ensures Sorted(wakes) ==> Sorted(wakes[k..])
  {
  }

  class SleepQueue {
    const list: TaskList
    var deleteBuffer: seq<Task>
    var timeToWakeup: bool
    var ticks: u32
    /** The true tick. */
    ghost var now: int
    /** All tasks handed to the scheduler so far. */
    var accepted: seq<Task>

    ghost predicate Valid()
      reads this, list, list.tasks
    {
      && list.Valid() && ticks == Wrap(now)
      && forall t {:trigger t in list.tasks} :: t in list.tasks ==> t.wakeTick == Wrap(t.wake)
    }

    /** The sleepers stand in the order of their true wake-up ticks. */
    ghost predicate InOrder()
      reads this, list, list.tasks
    {
      Sorted(Wakes(list.tasks))
    }

    constructor ()
      ensures Valid() && InOrder() && fresh(list) && list.tasks == [] && deleteBuffer == [] && !timeToWakeup && accepted == []
    {
      list := new TaskList();
      deleteBuffer, timeToWakeup, ticks, now, accepted := [], false, 0, 0, [];
    }

    method AdvanceTick()
      requires Valid()
      modifies `ticks, `now
      ensures Valid() && now == old(now) + 1
    {
      WrapDifference(now + 1, 0);
      assert Wrap(Wrap(now) + 1) == Wrap(now + 1) by { WrapDifference(now, -1); }
      ticks := Wrap(ticks + 1);
      now := now + 1;
    }

    /** Queue a task that is to wake at true tick `wake`, at position `k`. Ties stay in order of arrival. */
    method AddTask(task: Task, wakeAtTick: u32, ghost wake: int) returns (ghost k: nat)
      requires Valid() && !task.linked && wakeAtTick == Wrap(wake)
      modifies list, task`wakeTick, task`wake, task`linked
      ensures Valid() && task.wake == wake && task.linked
      ensures k <= |old(list.tasks)| && list.tasks == Inserted(old(list.tasks), k, task)
      ensures old(InOrder() && Window(Wakes(list.tasks), wake)) ==> InOrder() && SortedPlace(old(Wakes(list.tasks)), k, wake)
      ensures old(InOrder() && Near(Wakes(list.tasks), Ticks(list.tasks), wake)) ==> (InOrder() <==> Insertable(old(Wakes(list.tasks)), wake))
    {
      hide Near, Insertable, Sorted, Window, FirstLater, TickCmp;
      ghost var was, wakes, ticks := list.tasks, Wakes(list.tasks), Ticks(list.tasks);
      k := FirstLater(ticks, wakeAtTick);
      forall i {:trigger ticks[i]} | 0 <= i < |was| ensures ticks[i] == Wrap(wakes[i]) { assert was[i] in list.tasks; }
      assert task !in was;
      task.wakeTick := wakeAtTick;
      task.wake := wake;
      SameTicks(was, ticks, wakes);
      list.PushBackTickSorted(task);
      InsertedKeeps(was, k, task);
      InsertedWakes(was, k, task, wakes);
      if Sorted(wakes) && Window(wakes, wake) {
        FirstLaterIsSortedPlace(wakes, ticks, wake);
        InsertKeepsSorted(wakes, wake, k);
      }
      if Sorted(wakes) && Near(wakes, ticks, wake) { InsertSortedIff(wakes, ticks, wake); }
    }

    /** The front part of waking: all entries up to the first one that is still ahead. */
    method WakeFront()
      requires Valid()
      modifies `accepted, list, list.tasks`linked
      ensures Valid() && (old(InOrder()) ==> InOrder())
      ensures var k := ExpiredFront(old(Ticks(list.tasks)), ticks);
        list.tasks == old(list.tasks)[k..] && accepted == old(accepted) + old(list.tasks)[..k]
    {
      hide TickCmp, Wrap, Sorted, AllDifferent;
      ghost var was, allTicks, wakes := list.tasks, Ticks(list.tasks), Wakes(list.tasks);
      ghost var k := 0;
      while list.tasks != [] && TickCmp(list.tasks[0].wakeTick, ticks) != Greater
        invariant 0 <= k <= |was| && list.tasks == was[k..] && accepted == old(accepted) + was[..k]
        invariant list.Valid() && forall t {:trigger t in was} :: t in was ==> t.wakeTick == Wrap(t.wake)
        invariant ExpiredFront(allTicks, ticks) == k + ExpiredFront(allTicks[k..], ticks)
        decreases |list.tasks|
      {
        assert allTicks[k..][0] == list.tasks[0].wakeTick;
        assert allTicks[k..][1..] == allTicks[k + 1..];
        assert was[k..][1..] == was[k + 1..];
        var task := list.RemoveFront();
        accepted := accepted + [task];
        k := k + 1;
      }
      assert forall t :: t in was[k..] ==> t in was;
      assert list.tasks != [] ==> allTicks[k..][0] == list.tasks[0].wakeTick;
      SuffixWakes(was, wakes, k);
    }

    /** The rear part of waking: whatever is left of the tasks in the delete buffer. */
    method DrainDeleteBuffer()
      requires Valid()
      modifies `accepted, `deleteBuffer, list, deleteBuffer`linked
      ensures Valid() && deleteBuffer == []
      ensures list.tasks == Minus(old(list.tasks), old(deleteBuffer))
      ensures accepted == old(accepted) + Taken(old(list.tasks), old(deleteBuffer))
    {
      hide TickCmp, Wrap, AllDifferent;
      while deleteBuffer != []
        invariant Valid() && forall t :: t in deleteBuffer ==> t in old(deleteBuffer)
        invariant Minus(list.tasks, deleteBuffer) == Minus(old(list.tasks), old(deleteBuffer))
        invariant accepted + Taken(list.tasks, deleteBuffer) == old(accepted) + Taken(old(list.tasks), old(deleteBuffer))
        decreases |deleteBuffer|
      {
        var task := deleteBuffer[0];
        assert task in old(deleteBuffer);
        deleteBuffer := deleteBuffer[1..];
        var found := list.RemoveTask(task);
        if found {
          accepted := accepted + [task];
        }
      }
    }

    /** Wake all entries that are due, and take out those whose removal was put off. */
    method WakeExpired()
      requires Valid()
      modifies `accepted, `deleteBuffer, list, list.tasks`linked, deleteBuffer`linked
      ensures Valid() && deleteBuffer == []
      ensures var k := ExpiredFront(old(Ticks(list.tasks)), ticks);
        && list.tasks == Minus(old(list.tasks)[k..], old(deleteBuffer))
        && accepted == old(accepted) + old(list.tasks)[..k] + Taken(old(list.tasks)[k..], old(deleteBuffer))
      ensures old(InOrder() && Window(Wakes(list.tasks), now)) ==>
        forall t :: t in list.tasks <==> t in old(list.tasks) && now < t.wake && t !in old(deleteBuffer)
    {
      hide TickCmp, Wrap, Sorted, Window, ExpiredFront, AllDifferent;
      ghost var was, wakes, allTicks := list.tasks, Wakes(list.tasks), Ticks(list.tasks);
      forall i {:trigger allTicks[i]} | 0 <= i < |was| ensures allTicks[i] == Wrap(wakes[i]) { assert was[i] in list.tasks; }
      ghost var k := ExpiredFront(allTicks, ticks);
      WakeFront();
      assert AllDifferent(list.tasks);
      MinusMembers(list.tasks, deleteBuffer);
      if Sorted(wakes) && Window(wakes, now) {
        ExpiryIsExact(wakes, allTicks, now);
        LateOnes(was, wakes, k, now);
      }
      DrainDeleteBuffer();
    }

    /** The tick handler: wake, or leave it to the holder of the queue. */
    method WakeSleepingTasks(full: bool)
      requires Valid()
      modifies `accepted, `deleteBuffer, `timeToWakeup, list, list.tasks`linked, deleteBuffer`linked
      ensures Valid() && timeToWakeup == (old(timeToWakeup) || !full)
      ensures !full ==> list.tasks == old(list.tasks) && accepted == old(accepted) && deleteBuffer == old(deleteBuffer)
      ensures full ==> deleteBuffer == [] && (var k := ExpiredFront(old(Ticks(list.tasks)), ticks);
        && list.tasks == Minus(old(list.tasks)[k..], old(deleteBuffer))
        && accepted == old(accepted) + old(list.tasks)[..k] + Taken(old(list.tasks)[k..], old(deleteBuffer)))
    {
      if full {
        WakeExpired();
      } else {
        timeToWakeup := true;
      }
    }

    /** Take a task out before its time, or leave that to the next waking. */
    method RemoveTaskAllowIsr(task: Task, full: bool)
      requires Valid()
      modifies `accepted, `deleteBuffer, list, task`linked
      ensures Valid()
      ensures full ==> deleteBuffer == old(deleteBuffer) && list.tasks == MinusOne(old(list.tasks), task)
      ensures full ==> accepted == old(accepted) + (if task in old(list.tasks) then [task] else [])
      ensures !full ==> deleteBuffer == old(deleteBuffer) + [task] && list.tasks == old(list.tasks) && accepted == old(accepted)
    {
      if full {
        var found := list.RemoveTask(task);
        if found {
          accepted := accepted + [task];
        }
      } else {
        deleteBuffer := deleteBuffer + [task];
      }
    }

    /** What the holder does for pend-only accesses: put-off removals wait until a tick has asked for waking. */
    method RunPendedOp()
      requires Valid()
      modifies `accepted, `deleteBuffer, `timeToWakeup, list, list.tasks`linked, deleteBuffer`linked
      ensures Valid() && !timeToWakeup
      ensures !old(timeToWakeup) ==> list.tasks == old(list.tasks) && deleteBuffer == old(deleteBuffer) && accepted == old(accepted)
      ensures old(timeToWakeup) ==> deleteBuffer == [] && (var k := ExpiredFront(old(Ticks(list.tasks)), ticks);
        && list.tasks == Minus(old(list.tasks)[k..], old(deleteBuffer))
        && accepted == old(accepted) + old(list.tasks)[..k] + Taken(old(list.tasks)[k..], old(deleteBuffer)))
    {
      if timeToWakeup {
        WakeExpired();
        timeToWakeup := false;
      }
    }

    /** `n` ticks go by. */
    method LetPass(n: nat)
      requires Valid()
      modifies `ticks, `now
      ensures Valid() && now == old(now) + n
    {
      for i := 0 to n
        invariant Valid() && now == old(now) + i
      {
        AdvanceTick();
      }
    }

    /** Put a running task to sleep for `ms`; `lag` ticks go by between the two readings of the tick. */
    method SleepUnchecked(task: Task, ms: u32, lag: nat) returns (asleep: bool)
      requires Valid() && !task.linked && ms <= I32_MAX && lag < 0x8000_0000
      modifies this, list, task`wakeTick, task`wake, task`linked
      ensures Valid() && now == old(now) + lag && (asleep <==> lag < ms)
      ensures asleep ==> task.wake == old(now) + ms && exists k :: 0 <= k <= |old(list.tasks)| && list.tasks == Inserted(old(list.tasks), k, task)
      ensures !asleep ==> list.tasks == old(list.tasks) && task.linked == old(task.linked)
    {
      hide TickCmp, Wrap;
      asleep := false;
      var wakeAtTick := WrapPlus(ticks, ms);
      ghost var wake := now + ms;
      WrapSum(now, ms);
      LetPass(lag);
      TickCmpRightIff(now, wake);
      if TickCmp(ticks, wakeAtTick) == Less {
        ghost var k := AddTask(task, wakeAtTick, wake);
        asleep := true;
      }
    }

    /** The same, but refuse what the tick comparison cannot tell apart. */
    method SleepMs(task: Task, ms: u32, lag: nat) returns (ok: bool, asleep: bool)
      requires Valid() && !task.linked && lag < 0x8000_0000
      modifies this, list, task`wakeTick, task`wake, task`linked
      ensures Valid() && (ok <==> ms <= I32_MAX) && (asleep <==> lag < ms <= I32_MAX)
      ensures asleep ==> task.wake == old(now) + ms && exists k :: 0 <= k <= |old(list.tasks)| && list.tasks == Inserted(old(list.tasks), k, task)
      ensures !asleep ==> list.tasks == old(list.tasks) && task.linked == old(task.linked)
    {
      ok, asleep := true, false;
      if ms > I32_MAX {
        ok := false;
        return;
      }
      asleep := SleepUnchecked(task, ms, lag);
    }
  }

  function WrapPlus(tick: u32, n: int): u32
  {
    var t: int := tick;
    Wrap(t + n)
  }

  lemma WrapSum(now: int, ms: int)
    ensures Wrap(Wrap(now) + ms) == Wrap(now + ms)
  {
    var q := now / 0x1_0000_0000;
    assert Wrap(now) + ms == now + ms + (-q) * 0x1_0000_0000;
    WrapShift(now + ms, -q);
  }

  /** The entries behind the expired front are those still ahead. */
  lemma LateOnes(was: seq<Task>, wakes: seq<int>, k: nat, now: int)
    requires k <= |was| == |wakes| && forall i {:trigger wakes[i]} :: 0 <= i < |was| ==> wakes[i] == was[i].wake
    requires (forall i :: 0 <= i < k ==> wakes[i] <= now) && (forall i :: k <= i < |wakes| ==> now < wakes[i])
    ensures forall t :: t in was[k..] <==> t in was && now < t.wake
  {
    forall t | t in was && now < t.wake ensures t in was[k..] {
      var i :| 0 <= i < |was| && was[i] == t;
      assert wakes[i] == t.wake;
      assert was[k..][i - k] == t;
    }
    forall t | t in was[k..] ensures now < t.wake {
      var i :| 0 <= i < |was| - k && was[k..][i] == t;
      assert wakes[k + i] == t.wake;
    }
  }

  // ---------- The interval barrier ----------

  /** Lets a task proceed once every `intervalMs`. */
  class IntervalBarrier {
    const intervalMs: u32
    var nextTickToWake: u32
    /** The true tick of the next release. */
    ghost var next: int

    ghost predicate Valid()
      reads this
    {
      intervalMs <= I32_MAX && nextTickToWake == Wrap(next)
    }

    constructor (intervalMs: u32, ticks: u32, ghost now: int)
      requires intervalMs <= I32_MAX && ticks == Wrap(now)
      ensures Valid() && this.intervalMs == intervalMs && next == now + intervalMs
    {
      this.intervalMs := intervalMs;
      nextTickToWake := Wrap(ticks + intervalMs);
      next := now + intervalMs;
      WrapSum(now, intervalMs);
    }

    /**
     Sleep until the release, if it is still ahead. `gap` ticks go by between this reading of the tick and the sleep's own, and
     delay the release; `lag` as in the sleep.
     */
    method Wait(queue: SleepQueue, task: Task, gap: nat, lag: nat) returns (asleep: bool)
      requires Valid() && queue.Valid() && !task.linked && -0x8000_0000 < queue.now - next < 0x8000_0000 && lag < 0x8000_0000
      modifies this, queue, queue.list, task`wakeTick, task`wake, task`linked
      ensures Valid() && queue.Valid() && next == old(next) + intervalMs
      ensures asleep <==> old(queue.now) + lag < old(next)
      ensures asleep ==> task.wake == old(next) + gap
      ensures asleep ==> exists k :: 0 <= k <= |old(queue.list.tasks)| && queue.list.tasks == Inserted(old(queue.list.tasks), k, task)
      ensures !asleep ==> queue.list.tasks == old(queue.list.tasks) && task.linked == old(task.linked)
    {
      hide TickCmp, Wrap, SleepQueue.InOrder;
      ghost var from, due := queue.now, next;
      TickCmpRightIff(from, due);
      asleep := false;
      var release := nextTickToWake;
      if TickCmp(queue.ticks, release) == Less {
        var msToSleep := WrapPlus(release, 0 - queue.ticks);
        WrapDifference(due, from);
        assert msToSleep == due - from by { SmallWrap(due - from); }
        queue.LetPass(gap);
        asleep := queue.SleepUnchecked(task, msToSleep, lag);
      }
      WrapSum(due, intervalMs);
      nextTickToWake := WrapPlus(nextTickToWake, intervalMs);
      next := next + intervalMs;
    }
  }

  lemma SmallWrap(x: int)
    requires 0 <= x < 0x1_0000_0000
    ensures Wrap(x) == x
  {
  }
}
