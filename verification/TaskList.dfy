/**
 Lists of tasks. The intrusive linked list is a sequence of task objects, each of which knows
 whether it is linked; cursors are indices.
 */
module TaskList {

  import opened Common

  const TWO_31 := 0x8000_0000

  /** `wake` is the true tick that `wakeTick` stands for: ticks that never wrap around. */
  class Task {
    var priority: nat
    var wakeTick: u32
    ghost var wake: int
    var linked: bool

    constructor (priority: nat)
      ensures this.priority == priority && !linked
    {
      this.priority, wakeTick, wake, linked := priority, 0, 0, false;
    }
  }

  // ---------- Ticks ----------

  datatype Order = Less | Equal | Greater

  /** The low 32 bits of a true tick. */
  function Wrap(tick: int): u32 { tick % 0x1_0000_0000 }

  /** Compare two wrapped ticks by the sign of their 32-bit difference. */
  function TickCmp(lhs: u32, rhs: u32): Order
  {
    var diff := Wrap(lhs - rhs);
    if diff >= 0x8000_0000 then Less else if diff == 0 then Equal else Greater
  }

  function TrueCmp(lhs: int, rhs: int): Order
  {
    if lhs < rhs then Less else if lhs == rhs then Equal else Greater
  }

  /** Of two ticks less than 2^32 apart, the comparison is right exactly when the difference is a 32-bit signed number. */
  lemma TickCmpRightIff(a: int, b: int)
    requires -0x1_0000_0000 < a - b < 0x1_0000_0000
    ensures TickCmp(Wrap(a), Wrap(b)) == TrueCmp(a, b) <==> -0x8000_0000 <= a - b < 0x8000_0000
  {
    WrapDifference(a, b);
  }

  lemma WrapDifference(a: int, b: int)
    ensures Wrap(Wrap(a) - Wrap(b)) == Wrap(a - b)
  {
    var qa, qb := a / 0x1_0000_0000, b / 0x1_0000_0000;
    assert Wrap(a) - Wrap(b) == (a - b) - (qa - qb) * 0x1_0000_0000;
    WrapShift(a - b, qb - qa);
  }

  lemma {:induction false} WrapShift(x: int, k: int)
    ensures Wrap(x + k * 0x1_0000_0000) == Wrap(x)
    decreases if k < 0 then -k else k
  {
    if k > 0 { WrapShift(x, k - 1); } else if k < 0 { WrapShift(x, k + 1); }
  }

  // ---------- Specifications of the three operations ----------

  /** Where a tick belongs in a list of ticks: before the first one that it is less than. */
  function FirstLater(ticks: seq<u32>, t: u32): (k: nat)
    ensures k <= |ticks|
  {
    if ticks == [] || TickCmp(t, ticks[0]) == Less then 0 else 1 + FirstLater(ticks[1..], t)
  }

  /** The position of the first smallest number, which is the highest priority. */
  function FirstBest(prios: seq<nat>): (k: nat)
    requires prios != []
    ensures k < |prios|
    ensures forall i :: 0 <= i < |prios| ==> prios[k] <= prios[i]
    ensures forall i :: 0 <= i < k ==> prios[k] < prios[i]
  {
    if |prios| == 1 then 0
    else
      var k := FirstBest(prios[..|prios| - 1]);
      if prios[|prios| - 1] < prios[k] then |prios| - 1 else k
  }

  lemma FirstBestOne(prios: seq<nat>)
    requires prios != []
    ensures FirstBest(prios[..1]) == 0
  {
  }

  lemma FirstBestNext(prios: seq<nat>, n: nat)
    requires 0 < n < |prios|
    ensures FirstBest(prios[..n + 1]) == if prios[n] < prios[FirstBest(prios[..n])] then n else FirstBest(prios[..n])
  {
    assert prios[..n + 1][..n] == prios[..n];
  }

  /** `s` without the element at `k`. */
  function Without<T>(s: seq<T>, k: nat): seq<T>
    requires k < |s|
  {
    s[..k] + s[k + 1..]
  }

  ghost predicate AllDifferent<T>(s: seq<T>)
  {
    forall i, j :: 0 <= i < j < |s| ==> s[i] != s[j]
  }

  lemma WithoutKeeps<T>(s: seq<T>, k: nat)
    requires k < |s| && AllDifferent(s)
    ensures AllDifferent(Without(s, k))
    ensures forall x :: x in Without(s, k) ==> x in s && x != s[k]
  {
    forall x | x in Without(s, k) ensures x in s && x != s[k] {
      var i :| 0 <= i < |s| - 1 && Without(s, k)[i] == x;
      assert x == s[if i < k then i else i + 1];
    }
  }

  /** The list without task `t`. */
  ghost function MinusOne(s: seq<Task>, t: Task): (r: seq<Task>)
    ensures forall x :: x in r ==> x in s
  {
    if s == [] then [] else if s[0] == t then s[1..] else [s[0]] + MinusOne(s[1..], t)
  }

  lemma {:induction false} MinusOneAt(s: seq<Task>, k: nat)
    requires k < |s| && forall i :: 0 <= i < k ==> s[i] != s[k]
    ensures MinusOne(s, s[k]) == Without(s, k)
  {
    if k > 0 {
      MinusOneAt(s[1..], k - 1);
      assert Without(s, k) == [s[0]] + Without(s[1..], k - 1);
    } else {
      assert Without(s, 0) == s[1..];
    }
  }

  lemma {:induction false} MinusOneAbsent(s: seq<Task>, t: Task)
    requires t !in s
    ensures MinusOne(s, t) == s
  {
    if s != [] {
      assert t !in s[1..];
      MinusOneAbsent(s[1..], t);
    }
  }

  /** `s` with `x` inserted before position `k`. */
  function Inserted<T>(s: seq<T>, k: nat, x: T): seq<T>
    requires k <= |s|
  {
    s[..k] + [x] + s[k..]
  }

  lemma InsertedKeeps<T>(s: seq<T>, k: nat, x: T)
    requires k <= |s| && x !in s && AllDifferent(s)
    ensures AllDifferent(Inserted(s, k, x))
    ensures forall y :: y in Inserted(s, k, x) ==> y in s || y == x
  {
  }

  ghost function Ticks(tasks: seq<Task>): (ticks: seq<u32>)
    reads tasks`wakeTick
    ensures |ticks| == |tasks| && forall i {:trigger ticks[i]} :: 0 <= i < |tasks| ==> ticks[i] == tasks[i].wakeTick
  {
    if tasks == [] then [] else [tasks[0].wakeTick] + Ticks(tasks[1..])
  }

  ghost function Priorities(tasks: seq<Task>): (prios: seq<nat>)
    reads tasks`priority
    ensures |prios| == |tasks| && forall i {:trigger prios[i]} :: 0 <= i < |tasks| ==> prios[i] == tasks[i].priority
  {
    if tasks == [] then [] else [tasks[0].priority] + Priorities(tasks[1..])
  }

  ghost function Wakes(tasks: seq<Task>): (wakes: seq<int>)
    reads tasks`wake
    ensures |wakes| == |tasks| && forall i {:trigger wakes[i]} :: 0 <= i < |tasks| ==> wakes[i] == tasks[i].wake
  {
    if tasks == [] then [] else [tasks[0].wake] + Wakes(tasks[1..])
  }

  class TaskList {
    var tasks: seq<Task>

    constructor ()
      ensures tasks == [] && Valid()
    {
      tasks := [];
    }

    /** Exactly the linked tasks are in a list, each in one place. */
    ghost predicate Valid()
      reads this, tasks
    {
      && (forall t {:trigger t in tasks} :: t in tasks ==> t.linked)
      && AllDifferent(tasks)
    }

    /** Take `task` out if it is in the list. */
    method RemoveTask(task: Task) returns (found: bool)
      requires Valid()
      modifies this, task`linked
      ensures Valid()
      ensures found <==> task in old(tasks)
      ensures tasks == MinusOne(old(tasks), task) && task.linked == (old(task.linked) && !found)
    {
      var cursor := 0;
      while cursor < |tasks|
        invariant 0 <= cursor <= |tasks|
        invariant task !in tasks[..cursor]
        invariant Valid() && tasks == old(tasks) && task.linked == old(task.linked)
      {
        if tasks[cursor] == task {
          WithoutKeeps(tasks, cursor);
          MinusOneAt(tasks, cursor);
          tasks := Without(tasks, cursor);
          task.linked := false;
          return true;
        }
        cursor := cursor + 1;
      }
      MinusOneAbsent(tasks, task);
      return false;
    }

    /** Take the first task out. */
    method RemoveFront() returns (task: Task)
      requires Valid() && tasks != []
      modifies this, tasks`linked
      ensures Valid() && task == old(tasks)[0] && tasks == old(tasks)[1..]
      ensures !task.linked && forall t {:trigger t.linked} :: t in old(tasks) && t != task ==> t.linked
    {
      task := tasks[0];
      WithoutKeeps(tasks, 0);
      assert Without(tasks, 0) == tasks[1..];
      tasks := tasks[1..];
      task.linked := false;
    }

    /** Insert a task before the first one with a later wake-up tick. */
    method PushBackTickSorted(newTask: Task)
      requires Valid() && !newTask.linked
      modifies this, newTask`linked
      ensures Valid() && newTask.linked
      ensures var k := FirstLater(old(Ticks(tasks)), newTask.wakeTick); tasks == Inserted(old(tasks), k, newTask)
    {
      hide AllDifferent, TickCmp;
      ghost var ticks := Ticks(tasks);
      var cursor := 0;
      while cursor < |tasks|
        invariant 0 <= cursor <= |tasks|
        invariant Valid() && tasks == old(tasks) && newTask.linked == old(newTask.linked)
        invariant FirstLater(ticks, newTask.wakeTick) == cursor + FirstLater(ticks[cursor..], newTask.wakeTick)
      {
        assert ticks[cursor..][0] == tasks[cursor].wakeTick;
        if TickCmp(newTask.wakeTick, tasks[cursor].wakeTick) == Less {
          break;
        }
        assert ticks[cursor..][1..] == ticks[cursor + 1..];
        cursor := cursor + 1;
      }
      assert newTask !in tasks;
      InsertedKeeps(tasks, cursor, newTask);
      tasks := Inserted(tasks, cursor, newTask);
      newTask.linked := true;
    }

    /** Append a task. */
    method PushBack(newTask: Task)
      requires Valid() && !newTask.linked
      modifies this, newTask`linked
      ensures Valid() && newTask.linked && tasks == old(tasks) + [newTask]
    {
      assert newTask !in tasks;
      InsertedKeeps(tasks, |tasks|, newTask);
      assert Inserted(tasks, |tasks|, newTask) == tasks + [newTask];
      tasks := tasks + [newTask];
      newTask.linked := true;
    }

    /** Take out the first task of highest priority. */
    method PopHighestPriority() returns (best: Task?)
      requires Valid()
      modifies this, tasks`linked
      ensures Valid()
      ensures best == null <==> old(tasks) == []
      ensures best == null ==> tasks == old(tasks)
      ensures best != null ==> var k := FirstBest(old(Priorities(tasks)));
        best == old(tasks)[k] && tasks == Without(old(tasks), k) && !best.linked
      ensures forall t :: t in old(tasks) && t != best ==> t.linked
    {
      hide AllDifferent, Without, FirstBest;
      if tasks == [] {
        return null;
      }
      ghost var prios := Priorities(tasks);
      var maxPrio := tasks[0].priority;
      var maxPos := 0;
      var curPos := 1;
      FirstBestOne(prios);
      while curPos < |tasks|
        invariant 1 <= curPos <= |tasks|
        invariant tasks == old(tasks) && Valid() && prios == Priorities(tasks)
        invariant maxPos == FirstBest(prios[..curPos]) && maxPrio == prios[maxPos]
      {
        FirstBestNext(prios, curPos);
        if tasks[curPos].priority < maxPrio {
          maxPos, maxPrio := curPos, tasks[curPos].priority;
        }
        curPos := curPos + 1;
      }
      assert prios[..curPos] == prios;
      var cursor := 0;
      for i := 0 to maxPos
        invariant cursor == i && tasks == old(tasks)
        invariant forall t :: t in tasks ==> t.linked == old(t.linked)
      {
        cursor := cursor + 1;
      }
      best := tasks[cursor];
      WithoutKeeps(tasks, cursor);
      tasks := Without(tasks, cursor);
      best.linked := false;
    }
  }

  // ---------- Lists sorted by true tick ----------

  ghost predicate Sorted(wakes: seq<int>)
  {
    forall i, j :: 0 <= i < j < |wakes| ==> wakes[i] <= wakes[j]
  }

  /** All ticks in question lie in a window narrower than 2^31. */
  ghost predicate Window(wakes: seq<int>, t: int)
  {
    forall i {:trigger wakes[i]} :: 0 <= i < |wakes| ==> -0x8000_0000 < wakes[i] - t < 0x8000_0000
  }

  /** Position `k` is after all ticks that are not later than `t` and before all later ones. */
  ghost predicate SortedPlace(wakes: seq<int>, k: nat, t: int)
  {
    && k <= |wakes|
    && (forall i :: 0 <= i < k ==> wakes[i] <= t)
    && (forall i :: k <= i < |wakes| ==> t < wakes[i])
  }

  /** In a window, the wrapped ticks lead to the place where the true tick belongs: after all ticks that are not later. */
  lemma {:induction false} FirstLaterIsSortedPlace(wakes: seq<int>, ticks: seq<u32>, t: int)
    requires |ticks| == |wakes| && (forall i {:trigger ticks[i]} :: 0 <= i < |wakes| ==> ticks[i] == Wrap(wakes[i]))
    requires Sorted(wakes) && Window(wakes, t)
    ensures SortedPlace(wakes, FirstLater(ticks, Wrap(t)), t)
  {
    if wakes != [] {
      assert ticks[0] == Wrap(wakes[0]) && -0x8000_0000 < wakes[0] - t < 0x8000_0000;
      TickCmpRightIff(t, wakes[0]);
      if t >= wakes[0] {
        assert forall i :: 0 <= i < |wakes| - 1 ==> ticks[1..][i] == Wrap(wakes[1..][i]);
        FirstLaterIsSortedPlace(wakes[1..], ticks[1..], t);
        assert forall i :: 1 <= i < |wakes| ==> wakes[i] == wakes[1..][i - 1];
      }
    }
  }

  /** Inserting there keeps the list sorted. */
  lemma InsertKeepsSorted(wakes: seq<int>, t: int, k: nat)
    requires Sorted(wakes) && SortedPlace(wakes, k, t)
    ensures Sorted(Inserted(wakes, k, t))
  {
  }

  // ---------- When insertion and expiry are right ----------

  /** The number of entries at the front that are not later than `t`. */
  function NotLater(wakes: seq<int>, t: int): (n: nat)
    ensures n <= |wakes| && (forall i :: 0 <= i < n ==> wakes[i] <= t) && (n < |wakes| ==> t < wakes[n])
  {
    if wakes == [] || t < wakes[0] then 0 else 1 + NotLater(wakes[1..], t)
  }

  /** `ticks` are the wrapped `wakes`, all less than 2^32 from `t`. */
  ghost predicate Near(wakes: seq<int>, ticks: seq<u32>, t: int)
  {
    |ticks| == |wakes| && forall i {:trigger ticks[i]} {:trigger wakes[i]} :: 0 <= i < |wakes| ==> ticks[i] == Wrap(wakes[i]) && -0x1_0000_0000 < wakes[i] - t < 0x1_0000_0000
  }

  /** The earliest entry is less than 2^31 before `t`, and the first one after it at most 2^31 after it. */
  predicate Insertable(wakes: seq<int>, t: int)
  {
    && (wakes != [] ==> t - wakes[0] < 0x8000_0000)
    && (NotLater(wakes, t) < |wakes| ==> wakes[NotLater(wakes, t)] - t <= 0x8000_0000)
  }

  lemma LessIff(t: int, e: int)
    requires -0x1_0000_0000 < e - t < 0x1_0000_0000
    ensures TickCmp(Wrap(t), Wrap(e)) == Less <==> t < e <= t + 0x8000_0000 || e <= t - 0x8000_0000
  {
    WrapDifference(t, e);
  }

  /** Without an entry that is 2^31 late, the search stops at the right place, or runs to the end. */
  lemma {:induction false} FirstLaterIs(wakes: seq<int>, ticks: seq<u32>, t: int)
    requires Sorted(wakes) && Near(wakes, ticks, t) && (wakes != [] ==> t - wakes[0] < 0x8000_0000)
    ensures FirstLater(ticks, Wrap(t)) == if Insertable(wakes, t) then NotLater(wakes, t) else |wakes|
  {
    hide TickCmp, Wrap;
    if wakes != [] {
      assert ticks[0] == Wrap(wakes[0]);
      LessIff(t, wakes[0]);
      if !(t < wakes[0] <= t + 0x8000_0000) {
        assert wakes[1..] != [] ==> wakes[1..][0] == wakes[1] >= wakes[0];
        FirstLaterIs(wakes[1..], ticks[1..], t);
        if t < wakes[0] {
          assert wakes[1..] != [] ==> NotLater(wakes[1..], t) == 0;
        }
      }
    }
  }

  /** Insertion keeps the order by true tick exactly when the list is insertable at that tick. */
  lemma InsertSortedIff(wakes: seq<int>, ticks: seq<u32>, t: int)
    requires Sorted(wakes) && Near(wakes, ticks, t)
    ensures Sorted(Inserted(wakes, FirstLater(ticks, Wrap(t)), t)) <==> Insertable(wakes, t)
  {
    hide TickCmp, Wrap, FirstLater, NotLater, Inserted, Sorted, Insertable;
    if wakes != [] && t - wakes[0] >= 0x8000_0000 {
      assert ticks[0] == Wrap(wakes[0]);
      LessIff(t, wakes[0]);
      FirstIsLater(ticks, Wrap(t));
      FrontUnsorted(wakes, t);
    } else {
      FirstLaterIs(wakes, ticks, t);
      PlacedSortedIff(wakes, t);
    }
  }

  lemma FirstIsLater(ticks: seq<u32>, wake: u32)
    requires ticks != [] && TickCmp(wake, ticks[0]) == Less
    ensures FirstLater(ticks, wake) == 0
  {
  }

  lemma FrontUnsorted(wakes: seq<int>, t: int)
    requires wakes != [] && t - wakes[0] >= 0x8000_0000
    ensures !Sorted(Inserted(wakes, 0, t)) && !Insertable(wakes, t)
  {
    var list := Inserted(wakes, 0, t);
    assert list[0] == t && list[1] == wakes[0];
  }

  /** Behind those that are not later, or at the end. */
  lemma PlacedSortedIff(wakes: seq<int>, t: int)
    requires Sorted(wakes) && (wakes != [] ==> t - wakes[0] < 0x8000_0000)
    ensures Sorted(Inserted(wakes, if Insertable(wakes, t) then NotLater(wakes, t) else |wakes|, t)) <==> Insertable(wakes, t)
  {
    hide NotLater;
    var n := NotLater(wakes, t);
    if Insertable(wakes, t) {
      assert forall i :: n <= i < |wakes| ==> t < wakes[i];
    } else {
      var list := Inserted(wakes, |wakes|, t);
      assert list[n] == wakes[n] && list[|wakes|] == t;
    }
  }
}
