/** Function prologues, and that unwinding a frame brings back what its prologue saved. */
module Prologue {

  import opened Common
  import Bits
  import opened UnwindStream
  import opened UnwindInstruction
  import opened UnwindEncoding
  import opened UnwindStep

  function Mask(save: Save): (m: seq<bool>)
    requires SaveOk(save) && (save.PushList? || save.PushRange?)
    ensures |m| == 16 && forall i :: 0 <= i < 16 && m[i] ==> 4 <= i <= 11 || i == 14
  {
    if save.PushList? then save.mask else ShortMask(save.n, save.lr)
  }

  /** How far a save moves the stack pointer. */
  function Depth(save: Save): nat
    requires SaveOk(save)
  {
    match save
    case Sub(bytes) => bytes
    case Vfp(_, count) => 8 * count
    case _ => 4 * Count(Mask(save), 0)
  }

  ghost predicate AllOk(saves: seq<Save>)
  {
    forall i :: 0 <= i < |saves| ==> SaveOk(saves[i])
  }

  function Init(saves: seq<Save>): seq<Save>
    requires saves != []
  {
    saves[..|saves| - 1]
  }

  function Last(saves: seq<Save>): Save
    requires saves != []
  {
    saves[|saves| - 1]
  }

  function Depths(saves: seq<Save>): nat
    requires AllOk(saves)
  {
    if saves == [] then 0 else Depths(Init(saves)) + Depth(Last(saves))
  }

  // ---------- Running a prologue ----------

  function Put(m: Mem, at: int, value: u32): Mem
  {
    x => if x == at then value else m(x)
  }

  /** Registers from number `i` on, the lowest at the lowest address. */
  function PushRegs(mask: seq<bool>, i: nat, c: Regs, m: Mem, at: int): Mem
    requires |mask| == 16 && i <= 16 && Wide(c) && forall j :: 0 <= j < 16 && mask[j] ==> Slot(j).Some?
    decreases 16 - i
  {
    if i == 16 then m
    else if mask[i] then PushRegs(mask, i + 1, c, Put(m, at, c.gp[Slot(i).value]), at + 4)
    else PushRegs(mask, i + 1, c, m, at)
  }

  function PushDoubles(start: nat, count: nat, c: Regs, m: Mem, at: int): Mem
    requires Wide(c) && 8 <= start && start + count <= 16
    decreases count
  {
    if count == 0 then m
    else PushDoubles(start + 1, count - 1, c, Put(Put(m, at, Low(c.dp[start - 8])), at + 4, High(c.dp[start - 8])), at + 8)
  }

  function Low(d: u64): u32
  {
    var x: int := d;
    x % 0x1_0000_0000
  }

  function High(d: u64): u32
  {
    var x: int := d;
    x / 0x1_0000_0000
  }

  /** Memory after a save that moves the stack pointer down to `at`. */
  function Push(save: Save, c: Regs, m: Mem, at: int): Mem
    requires SaveOk(save) && Wide(c)
  {
    match save
    case Sub(_) => m
    case Vfp(start, count) => PushDoubles(start, count, c, m, at)
    case _ => PushRegs(Mask(save), 0, c, m, at)
  }

  function MemAfter(saves: seq<Save>, c: Regs, m: Mem): Mem
    requires AllOk(saves) && Wide(c)
  {
    if saves == [] then m else Push(Last(saves), c, MemAfter(Init(saves), c, m), c.gp[SP] - Depths(saves))
  }

  // ---------- What memory holds then ----------

  ghost predicate HoldsRegs(mask: seq<bool>, i: nat, c: Regs, m: Mem, at: int)
    requires |mask| == 16 && i <= 16 && Wide(c) && forall j :: 0 <= j < 16 && mask[j] ==> Slot(j).Some?
    decreases 16 - i
  {
    i == 16 || if mask[i] then m(at) == c.gp[Slot(i).value] && HoldsRegs(mask, i + 1, c, m, at + 4) else HoldsRegs(mask, i + 1, c, m, at)
  }

  ghost predicate HoldsDoubles(start: nat, count: nat, c: Regs, m: Mem, at: int)
    requires Wide(c) && 8 <= start && start + count <= 16
    decreases count
  {
    count == 0 || (m(at) == Low(c.dp[start - 8]) && m(at + 4) == High(c.dp[start - 8]) && HoldsDoubles(start + 1, count - 1, c, m, at + 8))
  }

  ghost predicate Holds(save: Save, c: Regs, m: Mem, at: int)
    requires SaveOk(save) && Wide(c)
  {
    match save
    case Sub(_) => true
    case Vfp(start, count) => HoldsDoubles(start, count, c, m, at)
    case _ => HoldsRegs(Mask(save), 0, c, m, at)
  }

  ghost predicate AllHold(saves: seq<Save>, c: Regs, m: Mem)
    requires AllOk(saves) && Wide(c)
  {
    saves == [] || (Holds(Last(saves), c, m, c.gp[SP] - Depths(saves)) && AllHold(Init(saves), c, m))
  }

  ghost predicate Agree(m: Mem, m': Mem, from: int, to: int)
  {
    forall x {:trigger m'(x)} :: from <= x < to ==> m'(x) == m(x)
  }

  lemma {:induction false} RegsFrame(mask: seq<bool>, i: nat, c: Regs, m: Mem, m': Mem, at: int)
    requires |mask| == 16 && i <= 16 && Wide(c) && forall j :: 0 <= j < 16 && mask[j] ==> Slot(j).Some?
    requires HoldsRegs(mask, i, c, m, at) && Agree(m, m', at, at + 4 * Count(mask, i))
    ensures HoldsRegs(mask, i, c, m', at)
    decreases 16 - i
  {
    if i < 16 { RegsFrame(mask, i + 1, c, m, m', if mask[i] then at + 4 else at); }
  }

  lemma {:induction false} DoublesFrame(start: nat, count: nat, c: Regs, m: Mem, m': Mem, at: int)
    requires Wide(c) && 8 <= start && start + count <= 16
    requires HoldsDoubles(start, count, c, m, at) && Agree(m, m', at, at + 8 * count)
    ensures HoldsDoubles(start, count, c, m', at)
    decreases count
  {
    if count > 0 { DoublesFrame(start + 1, count - 1, c, m, m', at + 8); }
  }

  lemma HoldsFrame(save: Save, c: Regs, m: Mem, m': Mem, at: int)
    requires SaveOk(save) && Wide(c) && Holds(save, c, m, at) && Agree(m, m', at, at + Depth(save))
    ensures Holds(save, c, m', at)
  {
    hide HoldsRegs, HoldsDoubles, Agree;
    match save
    case Sub(_) =>
    case Vfp(start, count) =>
      DoublesFrame(start, count, c, m, m', at);
    case PushList(_) =>
      RegsFrame(Mask(save), 0, c, m, m', at);
    case PushRange(_, _) =>
      RegsFrame(Mask(save), 0, c, m, m', at);
  }

  /** What the frame holds, it holds as long as nobody writes to it. */
  lemma {:induction false} AllHoldFrame(saves: seq<Save>, c: Regs, m: Mem, m': Mem)
    requires AllOk(saves) && Wide(c) && AllHold(saves, c, m) && Agree(m, m', c.gp[SP] - Depths(saves), c.gp[SP])
    ensures AllHold(saves, c, m')
  {
    hide Holds, Depth, SaveOk;
    if saves != [] {
      HoldsFrame(Last(saves), c, m, m', c.gp[SP] - Depths(saves));
      AllHoldFrame(Init(saves), c, m, m');
    }
  }

  lemma {:induction false} PushRegsHolds(mask: seq<bool>, i: nat, c: Regs, m: Mem, at: int)
    requires |mask| == 16 && i <= 16 && Wide(c) && forall j :: 0 <= j < 16 && mask[j] ==> Slot(j).Some?
    ensures (var m' := PushRegs(mask, i, c, m, at);
             HoldsRegs(mask, i, c, m', at) && forall x :: x < at || at + 4 * Count(mask, i) <= x ==> m'(x) == m(x))
    decreases 16 - i
  {
    if i < 16 {
      if mask[i] { PushRegsHolds(mask, i + 1, c, Put(m, at, c.gp[Slot(i).value]), at + 4); } else { PushRegsHolds(mask, i + 1, c, m, at); }
    }
  }

  lemma {:induction false} PushDoublesHolds(start: nat, count: nat, c: Regs, m: Mem, at: int)
    requires Wide(c) && 8 <= start && start + count <= 16
    ensures (var m' := PushDoubles(start, count, c, m, at);
             HoldsDoubles(start, count, c, m', at) && forall x :: x < at || at + 8 * count <= x ==> m'(x) == m(x))
    decreases count
  {
    if count > 0 {
      PushDoublesHolds(start + 1, count - 1, c, Put(Put(m, at, Low(c.dp[start - 8])), at + 4, High(c.dp[start - 8])), at + 8);
    }
  }

  lemma PushHolds(save: Save, c: Regs, m: Mem, at: int)
    requires SaveOk(save) && Wide(c)
    ensures (var m' := Push(save, c, m, at);
             Holds(save, c, m', at) && forall x :: x < at || at + Depth(save) <= x ==> m'(x) == m(x))
  {
    match save
    case Sub(_) =>
    case Vfp(start, count) => PushDoublesHolds(start, count, c, m, at);
    case _ => PushRegsHolds(Mask(save), 0, c, m, at);
  }

  /** A prologue leaves in its frame all that it saves. */
  lemma {:induction false} PrologueHolds(saves: seq<Save>, c: Regs, m: Mem)
    requires AllOk(saves) && Wide(c)
    ensures AllHold(saves, c, MemAfter(saves, c, m))
  {
    hide Holds, Depth, SaveOk, Push;
    if saves != [] {
      var init := Init(saves);
      var m1 := MemAfter(init, c, m);
      PrologueHolds(init, c, m);
      PushHolds(Last(saves), c, m1, c.gp[SP] - Depths(saves));
      AllHoldFrame(init, c, m1, MemAfter(saves, c, m));
    }
  }

  // ---------- Unwinding ----------

  /** Whether a save covers the register at `slot`. */
  ghost predicate Saves(save: Save, slot: nat)
    requires SaveOk(save) && slot < 12
  {
    (save.PushList? || save.PushRange?) && Mask(save)[RegAt(slot)]
  }

  ghost predicate SavesDouble(save: Save, k: nat)
  {
    save.Vfp? && save.start <= k + 8 < save.start + save.count
  }

  ghost predicate SomeSaves(saves: seq<Save>, slot: nat)
    requires AllOk(saves) && slot < 12
  {
    exists i :: 0 <= i < |saves| && Saves(saves[i], slot)
  }

  ghost predicate SomeSavesDouble(saves: seq<Save>, k: nat)
  {
    exists i :: 0 <= i < |saves| && SavesDouble(saves[i], k)
  }

  /** In the body, registers that are not saved are the caller's `c`, and the stack pointer is where the prologue left it. */
  ghost predicate InBody(saves: seq<Save>, c: Regs, r: Regs)
    requires AllOk(saves)
  {
    && Wide(c) && Wide(r) && r.gp[SP] == c.gp[SP] - Depths(saves)
    && (forall k {:trigger r.gp[k]} :: (1 <= k <= 8 || k == LR) && !SomeSaves(saves, k) ==> r.gp[k] == c.gp[k])
    && (forall k {:trigger r.dp[k]} :: 0 <= k < 8 && !SomeSavesDouble(saves, k) ==> r.dp[k] == c.dp[k])
  }

  /** All that a callee has to preserve, and the return address, are the caller's. */
  ghost predicate Restored(c: Regs, r: Regs)
  {
    Wide(c) && Wide(r) && r.dp == c.dp && forall k {:trigger r.gp[k]} :: 1 <= k <= LR ==> r.gp[k] == c.gp[k]
  }

  /** Popping brings back each register of the mask, and moves behind them. */
  lemma {:induction false} PopRestores(mask: seq<bool>, i: nat, c: Regs, r: Regs, sp: u32, m: Mem)
    requires |mask| == 16 && i <= 16 && Wide(c) && Wide(r) && forall j :: 0 <= j < 16 && mask[j] ==> 4 <= j <= 11 || j == 14
    requires HoldsRegs(mask, i, c, m, sp) && sp + 4 * Count(mask, i) < 0x1_0000_0000
    ensures PopRegs(mask, i, r, sp, m).Popped?
    ensures (var p := PopRegs(mask, i, r, sp, m);
             p.sp == sp + 4 * Count(mask, i)
             && forall k :: 0 <= k < 12 ==> p.regs.gp[k] == if RegAt(k) >= i && mask[RegAt(k)] then c.gp[k] else r.gp[k])
    decreases 16 - i
  {
    if i < 16 {
      if mask[i] {
        assert Plus(sp, 4) == sp + 4;
        hide Plus;
        PopRestores(mask, i + 1, c, r.(gp := r.gp[Slot(i).value := m(sp)]), Plus(sp, 4), m);
      } else {
        PopRestores(mask, i + 1, c, r, sp, m);
      }
    }
  }

  lemma DoubleWhole(d: u64)
    ensures Double(Low(d), High(d)) == d
  {
  }

  lemma {:induction false} PopDoublesRestores(start: nat, count: nat, c: Regs, r: Regs, m: Mem)
    requires Wide(c) && Wide(r) && 8 <= start && start + count <= 16
    requires HoldsDoubles(start, count, c, m, r.gp[SP]) && r.gp[SP] + 8 * count < 0x1_0000_0000
    ensures PopDoubles(start, count, r, m).Done?
    ensures (var r' := PopDoubles(start, count, r, m).regs;
             r'.gp == r.gp[SP := r.gp[SP] + 8 * count]
             && forall k :: 0 <= k < 8 ==> r'.dp[k] == if start <= k + 8 < start + count then c.dp[k] else r.dp[k])
    decreases count
  {
    hide Low, High, Double;
    if count > 0 {
      DoubleWhole(c.dp[start - 8]);
      var sp := r.gp[SP];
      assert Plus(sp, 8) == sp + 8 && DoubleAt(sp, m) == c.dp[start - 8];
      var r1 := WithSp(r, Plus(sp, 8)).(dp := r.dp[start - 8 := DoubleAt(sp, m)]);
      assert r1.gp == r.gp[SP := sp + 8] && r1.dp == r.dp[start - 8 := c.dp[start - 8]];
      hide Plus, DoubleAt, WithSp;
      PopDoublesRestores(start + 1, count - 1, c, r1, m);
      assert PopDoubles(start, count, r, m) == PopDoubles(start + 1, count - 1, r1, m);
    }
  }

  lemma UndoMasks(saves: seq<Save>)
    requires AllOk(saves)
    ensures MasksOk(UndoAll(saves))
  {
    if saves != [] {
      UndoMasks(Init(saves));
      assert MasksOk(Undo(Last(saves)));
      var a, b := Undo(Last(saves)), UndoAll(Init(saves));
      forall i | 0 <= i < |a + b| ensures MaskOk((a + b)[i]) {
        assert (a + b)[i] == if i < |a| then a[i] else b[i - |a|];
      }
    }
  }

  /** Undoing one save. */
  ghost predicate Undone(save: Save, c: Regs, r: Regs, r': Regs)
    requires SaveOk(save) && Wide(c) && Wide(r) && Wide(r')
  {
    && r'.gp[SP] == r.gp[SP] + Depth(save) && r'.gp[PC] == r.gp[PC]
    && (forall k {:trigger r'.gp[k]} :: 1 <= k <= 8 || k == LR ==> r'.gp[k] == if Saves(save, k) then c.gp[k] else r.gp[k])
    && (forall k {:trigger r'.dp[k]} :: 0 <= k < 8 ==> r'.dp[k] == if SavesDouble(save, k) then c.dp[k] else r.dp[k])
  }

  lemma UndoOneRegs(save: Save, c: Regs, r: Regs, m: Mem)
    requires SaveOk(save) && (save.PushList? || save.PushRange?) && Wide(c) && Wide(r) && Holds(save, c, m, r.gp[SP])
    requires r.gp[SP] + Depth(save) < 0x1_0000_0000
    ensures Apply(RegPop(Mask(save)), r, m).Done? && Undone(save, c, r, Apply(RegPop(Mask(save)), r, m).regs)
  {
    hide PopRegs, HoldsRegs, SaveOk, ShortMask, Plus;
    var mask := Mask(save);
    PopRestores(mask, 0, c, r, r.gp[SP], m);
    assert !MeetsThirteen(mask);
  }

  lemma RunOne(instr: Instr, r: Regs, m: Mem)
    requires Wide(r) && MaskOk(instr)
    ensures MasksOk([instr]) && Run([instr], r, m) == Apply(instr, r, m)
  {
    hide Apply;
    assert [instr][1..] == [];
  }

  lemma UndoOne(save: Save, c: Regs, r: Regs, m: Mem)
    requires SaveOk(save) && Wide(c) && Wide(r) && Holds(save, c, m, r.gp[SP]) && r.gp[SP] + Depth(save) < 0x1_0000_0000
    ensures MasksOk(Undo(save)) && Run(Undo(save), r, m).Done? && Undone(save, c, r, Run(Undo(save), r, m).regs)
  {
    hide Run, PopDoubles, PopRegs, HoldsRegs, HoldsDoubles, Plus, Apply, MasksOk;
    match save
    case PushList(mask) =>
      UndoOneRegs(save, c, r, m);
      RunOne(RegPop(mask), r, m);
    case PushRange(n, lr) =>
      UndoOneRegs(save, c, r, m);
      RunOne(RegPop(ShortMask(n, lr)), r, m);
    case Vfp(start, count) =>
      UndoOneVfp(start, count, c, r, m);
    case Sub(bytes) =>
      UndoOneSub(bytes, c, r, m);
  }

  lemma UndoOneVfp(start: nat, count: nat, c: Regs, r: Regs, m: Mem)
    requires SaveOk(Vfp(start, count)) && Wide(c) && Wide(r) && Holds(Vfp(start, count), c, m, r.gp[SP]) && r.gp[SP] + 8 * count < 0x1_0000_0000
    ensures MasksOk([VfpPop(start, count)]) && Run([VfpPop(start, count)], r, m).Done?
    ensures Undone(Vfp(start, count), c, r, Run([VfpPop(start, count)], r, m).regs)
  {
    hide Run, PopDoubles, HoldsDoubles, Plus, MasksOk;
    PopDoublesRestores(start, count, c, r, m);
    RunOne(VfpPop(start, count), r, m);
  }

  lemma UndoOneSub(bytes: nat, c: Regs, r: Regs, m: Mem)
    requires SaveOk(Sub(bytes)) && Wide(c) && Wide(r) && r.gp[SP] + bytes < 0x1_0000_0000
    ensures MasksOk(Undo(Sub(bytes))) && Run(Undo(Sub(bytes)), r, m) == Done(WithSp(r, r.gp[SP] + bytes))
  {
    hide Run, MasksOk;
    if 0x100 < bytes <= 0x200 {
      var r1 := WithSp(r, r.gp[SP] + 0x100);
      RunOne(DataPop(0x100), r, m);
      RunOne(DataPop(bytes - 0x100), r1, m);
      RunConcat([DataPop(0x100)], [DataPop(bytes - 0x100)], r, m);
      assert [DataPop(0x100)] + [DataPop(bytes - 0x100)] == Undo(Sub(bytes));
      assert WithSp(r1, r.gp[SP] + bytes).gp == WithSp(r, r.gp[SP] + bytes).gp;
    } else {
      RunOne(DataPop(bytes), r, m);
    }
  }

  /** Undoing the last save leaves the registers as in the body of a function that has only the others. */
  lemma BodyBefore(saves: seq<Save>, c: Regs, r: Regs, r': Regs)
    requires AllOk(saves) && saves != [] && InBody(saves, c, r) && Wide(r') && Undone(Last(saves), c, r, r')
    ensures InBody(Init(saves), c, r')
  {
    hide Saves, SavesDouble, SaveOk, Depth;
    var init := Init(saves);
    forall k | (1 <= k <= 8 || k == LR) && !SomeSaves(init, k) ensures r'.gp[k] == c.gp[k] {
      if SomeSaves(saves, k) { LastSaves(saves, k); }
    }
    forall k | 0 <= k < 8 && !SomeSavesDouble(init, k) ensures r'.dp[k] == c.dp[k] {
      if SomeSavesDouble(saves, k) { LastSavesDouble(saves, k); }
    }
  }

  lemma LastSaves(saves: seq<Save>, k: nat)
    requires AllOk(saves) && saves != [] && k < 12 && SomeSaves(saves, k)
    ensures SomeSaves(Init(saves), k) || Saves(Last(saves), k)
  {
    var i :| 0 <= i < |saves| && Saves(saves[i], k);
    if i < |saves| - 1 { assert Saves(Init(saves)[i], k); }
  }

  lemma LastSavesDouble(saves: seq<Save>, k: nat)
    requires saves != [] && SomeSavesDouble(saves, k)
    ensures SomeSavesDouble(Init(saves), k) || SavesDouble(Last(saves), k)
  {
    var i :| 0 <= i < |saves| && SavesDouble(saves[i], k);
    if i < |saves| - 1 { assert SavesDouble(Init(saves)[i], k); }
  }

  /** Interpreting what undoes a prologue brings back the caller's registers and stack pointer. */
  lemma {:induction false} UnwindRestores(saves: seq<Save>, c: Regs, r: Regs, m: Mem)
    requires AllOk(saves) && InBody(saves, c, r) && AllHold(saves, c, m)
    ensures MasksOk(UndoAll(saves)) && Run(UndoAll(saves), r, m).Done?
    ensures Restored(c, Run(UndoAll(saves), r, m).regs) && Run(UndoAll(saves), r, m).regs.gp[PC] == r.gp[PC]
  {
    hide Holds, Undo, Depth, Saves, SavesDouble, SaveOk;
    UndoMasks(saves);
    if saves != [] {
      var last, init := Last(saves), Init(saves);
      UndoOne(last, c, r, m);
      var r' := Run(Undo(last), r, m).regs;
      BodyBefore(saves, c, r, r');
      UndoMasks(init);
      UnwindRestores(init, c, r', m);
      RunConcat(Undo(last), UndoAll(init), r, m);
    }
  }
}
