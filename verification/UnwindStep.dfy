/** What unwind instructions do to the registers. */
module UnwindStep {

  import opened Common
  import opened UnwindStream
  import opened UnwindInstruction

  type u64 = x: int | 0 <= x < 0x1_0000_0000_0000_0000

  /** Memory, read a word at a time. */
  type Mem = int -> u32

  /** The values of r0, r4 to r11, sp, lr and pc, and of d8 to d15. */
  datatype Regs = Regs(gp: seq<u32>, dp: seq<u64>)

  const SP := 9
  const LR := 10
  const PC := 11

  ghost predicate Wide(r: Regs) { |r.gp| == 12 && |r.dp| == 8 }

  /** Where register `reg` is kept, if it is. */
  function Slot(reg: nat): (r: Option<nat>)
    ensures r.Some? ==> r.value < 12
  {
    if reg == 0 then Some(0)
    else if 4 <= reg <= 11 then Some(reg - 3)
    else if 13 <= reg <= 15 then Some(reg - 4)
    else None
  }

  /** The register that is kept at `slot`. */
  function RegAt(slot: nat): (r: nat)
    requires slot < 12
    ensures r < 16 && Slot(r) == Some(slot)
  {
    if slot == 0 then 0 else if slot <= 8 then slot + 3 else slot + 4
  }

  function Double(low: u32, high: u32): u64
  {
    var l: int, h: int := low, high;
    h * 0x1_0000_0000 + l
  }

  /** The double at an address. */
  function DoubleAt(at: u32, m: Mem): u64
  {
    var a: int := at;
    Double(m(a), m(a + 4))
  }

  /** `Bad` is an error that the step reports, `Dies` one that stops the system. */
  datatype Outcome = Done(regs: Regs) | Bad | Dies

  datatype Popped = Popped(regs: Regs, sp: u32) | NoRegister

  function PopRegs(mask: seq<bool>, i: nat, r: Regs, sp: u32, m: Mem): (p: Popped)
    requires |mask| == 16 && i <= 16 && Wide(r)
    ensures p.Popped? ==> Wide(p.regs) && p.regs.dp == r.dp
    decreases 16 - i
  {
    if i == 16 then Popped(r, sp)
    else if !mask[i] then PopRegs(mask, i + 1, r, sp, m)
    else
      match Slot(i)
      case None => NoRegister
      case Some(k) => PopRegs(mask, i + 1, r.(gp := r.gp[k := m(sp)]), Plus(sp, 4), m)
  }

  /** Whether the mask and the number of sp, 13, have a digit in common. */
  predicate MeetsThirteen(mask: seq<bool>)
    requires |mask| == 16
  {
    mask[0] || mask[2] || mask[3]
  }

  function WithSp(r: Regs, sp: u32): (r': Regs)
    requires Wide(r)
    ensures Wide(r') && r'.dp == r.dp
  {
    r.(gp := r.gp[SP := sp])
  }

  function PopDoubles(start: nat, count: nat, r: Regs, m: Mem): (o: Outcome)
    requires Wide(r)
    ensures !o.Bad? && (o.Done? ==> Wide(o.regs))
    decreases count
  {
    if count == 0 then Done(r)
    else if !(8 <= start <= 15) then Dies
    else
      var sp := r.gp[SP];
      PopDoubles(start + 1, count - 1, WithSp(r, Plus(sp, 8)).(dp := r.dp[start - 8 := DoubleAt(sp, m)]), m)
  }

  /** One instruction. */
  function Apply(instr: Instr, r: Regs, m: Mem): (o: Outcome)
    requires Wide(r) && (instr.RegPop? ==> |instr.mask| == 16)
    ensures o.Done? ==> Wide(o.regs)
  {
    match instr
    case Finish => Done(r)
    case DataPush(size) => Done(WithSp(r, Plus(r.gp[SP], 0 - size)))
    case DataPop(size) => Done(WithSp(r, Plus(r.gp[SP], size)))
    case RegPop(mask) =>
      (match PopRegs(mask, 0, r, r.gp[SP], m)
       case NoRegister => Dies
       case Popped(r', sp) => Done(if MeetsThirteen(mask) then r' else WithSp(r', sp)))
    case RegToSp(reg) => if Slot(reg).None? then Dies else Done(WithSp(r, r.gp[Slot(reg).value]))
    case VfpPop(start, count) => PopDoubles(start, count, r, m)
    case _ => Bad
  }

  ghost predicate MasksOk(instrs: seq<Instr>)
  {
    forall i :: 0 <= i < |instrs| ==> MaskOk(instrs[i])
  }

  predicate MaskOk(instr: Instr)
  {
    instr.RegPop? ==> |instr.mask| == 16
  }

  function Run(instrs: seq<Instr>, r: Regs, m: Mem): (o: Outcome)
    requires Wide(r) && MasksOk(instrs)
    ensures o.Done? ==> Wide(o.regs)
  {
    if instrs == [] then Done(r)
    else
      assert MaskOk(instrs[0]);
      match Apply(instrs[0], r, m)
      case Done(r') => assert MasksOk(instrs[1..]) by { SubMasks(instrs); } Run(instrs[1..], r', m)
      case o => o
  }

  lemma SubMasks(instrs: seq<Instr>)
    requires MasksOk(instrs) && instrs != []
    ensures MasksOk(instrs[1..])
  {
    forall i | 0 <= i < |instrs[1..]| ensures MaskOk(instrs[1..][i]) {
      assert instrs[1..][i] == instrs[i + 1];
    }
  }

  /** The instructions `rest` after an outcome. */
  function Then(o: Outcome, rest: seq<Instr>, m: Mem): Outcome
    requires MasksOk(rest) && (o.Done? ==> Wide(o.regs))
  {
    if o.Done? then Run(rest, o.regs, m) else o
  }

  /** Sequences of instructions run one after the other. */
  lemma {:induction false} RunConcat(a: seq<Instr>, b: seq<Instr>, r: Regs, m: Mem)
    requires Wide(r) && MasksOk(a) && MasksOk(b)
    ensures MasksOk(a + b)
    ensures Run(a + b, r, m) == Then(Run(a, r, m), b, m)
  {
    hide Apply;
    assert forall i :: 0 <= i < |a + b| ==> (a + b)[i] == if i < |a| then a[i] else b[i - |a|];
    if a == [] {
      assert a + b == b;
    } else {
      SubMasks(a);
      assert MaskOk(a[0]) && (a + b)[0] == a[0] && (a + b)[1..] == a[1..] + b;
      if Apply(a[0], r, m).Done? { RunConcat(a[1..], b, Apply(a[0], r, m).regs, m); }
    }
  }

  // ---------- Popping sp ----------

  /** What the ABI asks of popping a set of registers: sp moves behind them unless it is one of them. */
  function PopAsDefined(mask: seq<bool>, r: Regs, m: Mem): (o: Outcome)
    requires |mask| == 16 && Wide(r)
  {
    match PopRegs(mask, 0, r, r.gp[SP], m)
    case NoRegister => Dies
    case Popped(r', sp) => Done(if mask[13] then r' else WithSp(r', sp))
  }

  /** The number of registers from `i` on. */
  function Count(mask: seq<bool>, i: nat): (n: nat)
    requires |mask| == 16 && i <= 16
    ensures n <= 16 - i
    decreases 16 - i
  {
    if i == 16 then 0 else (if mask[i] then 1 else 0) + Count(mask, i + 1)
  }

  lemma PlusPlus(x: u32, a: int, b: int)
    ensures Plus(Plus(x, a), b) == Plus(x, a + b)
    ensures Plus(x, 0) == x
  {
    var y: int := x;
    var q := (y + a) / 0x1_0000_0000;
    assert y + a + b == q * 0x1_0000_0000 + ((y + a) % 0x1_0000_0000 + b);
  }

  /** Where popping ends, and that it leaves other registers alone. */
  lemma {:induction false} PopMoves(mask: seq<bool>, i: nat, r: Regs, sp: u32, m: Mem)
    requires |mask| == 16 && i <= 16 && Wide(r) && PopRegs(mask, i, r, sp, m).Popped?
    ensures PopRegs(mask, i, r, sp, m).sp == Plus(sp, 4 * Count(mask, i))
    ensures forall k :: 0 <= k < 12 && !(RegAt(k) >= i && mask[RegAt(k)]) ==> PopRegs(mask, i, r, sp, m).regs.gp[k] == r.gp[k]
    decreases 16 - i
  {
    hide Plus;
    PlusPlus(sp, 0, 0);
    if i < 16 {
      if !mask[i] {
        PopMoves(mask, i + 1, r, sp, m);
      } else {
        PlusPlus(sp, 4, 4 * Count(mask, i + 1));
        PopMoves(mask, i + 1, r.(gp := r.gp[Slot(i).value := m(sp)]), Plus(sp, 4), m);
      }
    }
  }

  /** It needs every register of the mask to be one that is kept. */
  lemma {:induction false} PopDiesIff(mask: seq<bool>, i: nat, r: Regs, sp: u32, m: Mem)
    requires |mask| == 16 && i <= 16 && Wide(r)
    ensures PopRegs(mask, i, r, sp, m).NoRegister? <==> exists j :: i <= j < 16 && mask[j] && Slot(j).None?
    decreases 16 - i
  {
    hide Plus;
    if i < 16 && !mask[i] {
      PopDiesIff(mask, i + 1, r, sp, m);
    } else if i < 16 && Slot(i).Some? {
      PopDiesIff(mask, i + 1, r.(gp := r.gp[Slot(i).value := m(sp)]), Plus(sp, 4), m);
    }
  }

  /** The address from which sp itself is popped. */
  function SpFrom(mask: seq<bool>, sp: u32): u32
    requires |mask| == 16
  {
    Plus(sp, 4 * (Count(mask, 0) - Count(mask, 13)))
  }

  /** A popped register comes from its place in the order. */
  lemma {:induction false} PopsAt(mask: seq<bool>, i: nat, j: nat, r: Regs, sp: u32, m: Mem)
    requires |mask| == 16 && i <= j < 16 && Wide(r) && mask[j] && Slot(j).Some? && PopRegs(mask, i, r, sp, m).Popped?
    ensures PopRegs(mask, i, r, sp, m).regs.gp[Slot(j).value] == m(Plus(sp, 4 * (Count(mask, i) - Count(mask, j))))
    decreases j - i
  {
    if i == j {
      PopsNow(mask, j, r, sp, m);
    } else {
      PopFirst(mask, i, r, sp, m);
      PlusPlus(sp, 4, 4 * (Count(mask, i + 1) - Count(mask, j)));
      assert 4 * (Count(mask, i) - Count(mask, j)) == (if mask[i] then 4 else 0) + 4 * (Count(mask, i + 1) - Count(mask, j));
      hide PopRegs, Plus, Count;
      if mask[i] {
        PopsAt(mask, i + 1, j, r.(gp := r.gp[Slot(i).value := m(sp)]), Plus(sp, 4), m);
      } else {
        PopsAt(mask, i + 1, j, r, sp, m);
      }
    }
  }

  lemma PopFirst(mask: seq<bool>, i: nat, r: Regs, sp: u32, m: Mem)
    requires |mask| == 16 && i < 16 && Wide(r) && PopRegs(mask, i, r, sp, m).Popped?
    ensures mask[i] ==> Slot(i).Some? && PopRegs(mask, i, r, sp, m) == PopRegs(mask, i + 1, r.(gp := r.gp[Slot(i).value := m(sp)]), Plus(sp, 4), m)
    ensures !mask[i] ==> PopRegs(mask, i, r, sp, m) == PopRegs(mask, i + 1, r, sp, m)
  {
    hide Plus;
  }

  lemma PopsNow(mask: seq<bool>, j: nat, r: Regs, sp: u32, m: Mem)
    requires |mask| == 16 && j < 16 && Wide(r) && mask[j] && Slot(j).Some? && PopRegs(mask, j, r, sp, m).Popped?
    ensures PopRegs(mask, j, r, sp, m).regs.gp[Slot(j).value] == m(Plus(sp, 0))
  {
    PopFirst(mask, j, r, sp, m);
    PlusPlus(sp, 0, 0);
    assert RegAt(Slot(j).value) == j;
    hide PopRegs, Plus;
    PopMoves(mask, j + 1, r.(gp := r.gp[Slot(j).value := m(sp)]), Plus(sp, 4), m);
  }

  /**
   Popping does what the ABI asks exactly if the mask names sp just when it meets 13 in binary, or
   sp is popped and happens to hold the address behind the popped words.
   */
  lemma PopRightIff(mask: seq<bool>, r: Regs, m: Mem)
    requires |mask| == 16 && Wide(r) && Apply(RegPop(mask), r, m).Done?
    ensures Apply(RegPop(mask), r, m) == PopAsDefined(mask, r, m)
            <==> mask[13] == MeetsThirteen(mask) || (mask[13] && m(SpFrom(mask, r.gp[SP])) == Plus(r.gp[SP], 4 * Count(mask, 0)))
  {
    hide Plus;
    var p := PopRegs(mask, 0, r, r.gp[SP], m);
    PopMoves(mask, 0, r, r.gp[SP], m);
    assert RegAt(SP) == 13;
    if mask[13] {
      PopsAt(mask, 0, 13, r, r.gp[SP], m);
      assert Slot(13) == Some(SP);
      assert MeetsThirteen(mask) || p.regs.gp[SP] == m(SpFrom(mask, r.gp[SP]));
      assert WithSp(p.regs, p.sp) == p.regs <==> p.regs.gp[SP] == p.sp;
    } else if MeetsThirteen(mask) {
      assert p.regs.gp[SP] == r.gp[SP];
      assert 0 < Count(mask, 0) <= 16 by { SomeCount(mask); }
      PlusDiffers(r.gp[SP], 4 * Count(mask, 0));
      assert WithSp(p.regs, p.sp).gp[SP] == p.sp;
    }
  }

  lemma SomeCount(mask: seq<bool>)
    requires |mask| == 16 && MeetsThirteen(mask)
    ensures Count(mask, 0) > 0
  {
    assert Count(mask, 2) >= (if mask[2] then 1 else 0) + (if mask[3] then 1 else 0) by { assert Count(mask, 3) >= if mask[3] then 1 else 0; }
    assert Count(mask, 0) == (if mask[0] then 1 else 0) + Count(mask, 1);
  }

  lemma PlusDiffers(x: u32, n: int)
    requires 0 < n <= 64
    ensures Plus(x, n) != x
  {
  }

  /** All that section 10.3 can express with r4 and above is popped right except for sp; r0 alone never is. */
  lemma WhichMasks(mask: seq<bool>, r: Regs, m: Mem)
    requires |mask| == 16 && Wide(r) && Apply(RegPop(mask), r, m).Done?
    ensures (forall i :: 0 <= i < 4 || i == 13 ==> !mask[i]) ==> Apply(RegPop(mask), r, m) == PopAsDefined(mask, r, m)
    ensures mask[0] && !mask[13] ==> Apply(RegPop(mask), r, m) != PopAsDefined(mask, r, m)
  {
    PopRightIff(mask, r, m);
  }

  /** The one-byte pops of d8 to d[8 + n] are not understood; the two-byte form is. */
  lemma ShortVfpRefused(s: seq<u8>, pos: nat, n: nat, r: Regs, m: Mem)
    requires Wide(r) && pos < |s| && n < 8 && (s[pos] == 0xd0 + n || s[pos] == 0xb8 + n)
    ensures Decode(s, pos) == One(Unimplemented, pos + 1) && Apply(Unimplemented, r, m) == Bad
  {
  }

  /** "Finish" does not end the interpretation: what follows it is interpreted. */
  lemma FinishGoesOn(rest: seq<Instr>, r: Regs, m: Mem)
    requires Wide(r) && MasksOk(rest)
    ensures MasksOk([Finish] + rest) && Run([Finish] + rest, r, m) == Run(rest, r, m)
  {
    assert MasksOk([Finish]) && [Finish][1..] == [];
    RunConcat([Finish], rest, r, m);
    assert Run([Finish], r, m) == Done(r);
  }

  // ---------- Departures from the standard ----------

  /** The instruction at `pos` is complete and of a kind that is interpreted. */
  predicate Understood(s: seq<u8>, pos: nat)
    requires pos < |s|
  {
    var op := s[pos];
    if op < 0x80 then true
    else if op < 0x90 then pos + 1 < |s| && !(op == 0x80 && s[pos + 1] == 0)
    else if op < 0xa0 then op != 0x9d && op != 0x9f
    else if op <= 0xb0 then true
    else if op == 0xb1 then pos + 1 < |s| && 0 < s[pos + 1] < 16
    else if op == 0xb2 then exists k :: pos < k < |s| && s[k] < 128
    else (op == 0xc8 || op == 0xc9) && pos + 1 < |s|
  }

  /** A uleb128 number is complete exactly if one of the bytes ends it. */
  lemma {:induction false} UlebCompleteIff(s: seq<u8>, pos: nat, acc: seq<bool>, shift: nat)
    requires pos <= |s| && |acc| == 32
    ensures Uleb(s, pos, acc, shift).Some? <==> exists k :: pos <= k < |s| && s[k] < 128
    decreases |s| - pos
  {
    hide Added;
    if pos < |s| && s[pos] >= 128 { UlebCompleteIff(s, pos + 1, Added(acc, s[pos], shift), shift + 7); }
  }

  /** The step ends with an error at an instruction exactly if that is not understood. */
  lemma EndsWithErrorIff(s: seq<u8>, pos: nat, r: Regs, m: Mem)
    requires Wide(r) && pos < |s|
    ensures (var d := Decode(s, pos); d.CutOff? || (d.One? && MaskOk(d.instr) && Apply(d.instr, r, m) == Bad)) <==> !Understood(s, pos)
  {
    hide LongMask, ShortMask, LowMask, BigSize, PopRegs, PopDoubles;
    if s[pos] == 0xb2 { UlebCompleteIff(s, pos + 1, Clear(32), 0); }
  }

  /** The instructions before the first "finish". */
  function UpToFinish(instrs: seq<Instr>): (p: seq<Instr>)
    ensures |p| <= |instrs| && instrs[..|p|] == p && (|p| < |instrs| ==> instrs[|p|] == Finish)
  {
    if instrs == [] || instrs[0] == Finish then [] else [instrs[0]] + UpToFinish(instrs[1..])
  }

  /** From given registers, going on behind "finish" does what stopping there would do exactly if what follows leaves the registers as they are. */
  lemma FinishHarmlessAt(instrs: seq<Instr>, r: Regs, m: Mem)
    requires Wide(r) && MasksOk(instrs)
    ensures MasksOk(UpToFinish(instrs)) && MasksOk(instrs[|UpToFinish(instrs)|..])
    ensures (var stopped, rest := Run(UpToFinish(instrs), r, m), instrs[|UpToFinish(instrs)|..];
             Run(instrs, r, m) == stopped <==> (stopped.Done? ==> Run(rest, stopped.regs, m) == stopped))
  {
    hide Run;
    var p := UpToFinish(instrs);
    var rest := instrs[|p|..];
    assert instrs == p + rest;
    forall i | 0 <= i < |p| ensures MaskOk(p[i]) { assert p[i] == instrs[i]; }
    forall i | 0 <= i < |rest| ensures MaskOk(rest[i]) { assert rest[i] == instrs[|p| + i]; }
    RunConcat(p, rest, r, m);
  }

  /** It does when only more of the same follows, as in the padding of a table entry. */
  lemma {:induction false} FinishesHarmless(rest: seq<Instr>, r: Regs, m: Mem)
    requires Wide(r) && forall i :: 0 <= i < |rest| ==> rest[i] == Finish
    ensures MasksOk(rest) && Run(rest, r, m) == Done(r)
  {
    assert MasksOk(rest);
    if rest != [] { FinishesHarmless(rest[1..], r, m); }
  }

  // ---------- What may follow a "finish" ----------

  /** The instruction moves sp by a fixed distance and does nothing else. A popped sp counts, because the code overwrites it with the distance. */
  predicate Neutral(instr: Instr)
    requires MaskOk(instr)
  {
    match instr
    case Finish => true
    case DataPop(_) => true
    case DataPush(_) => true
    case RegPop(mask) => forall i :: 0 <= i < 16 && i != 13 ==> !mask[i]
    case RegToSp(reg) => reg == 13
    case VfpPop(_, count) => count == 0
    case _ => false
  }

  /** How far it moves sp. */
  function Shift(instr: Instr): int
    requires MaskOk(instr)
  {
    match instr
    case DataPop(size) => size
    case DataPush(size) => 0 - size
    case RegPop(mask) => if mask[13] then 4 else 0
    case _ => 0
  }

  ghost predicate AllNeutral(instrs: seq<Instr>)
    requires MasksOk(instrs)
  {
    forall i :: 0 <= i < |instrs| ==> Neutral(instrs[i])
  }

  function TotalShift(instrs: seq<Instr>): int
    requires MasksOk(instrs)
  {
    if instrs == [] then 0
    else
      assert MaskOk(instrs[0]);
      assert MasksOk(instrs[1..]) by { SubMasks(instrs); }
      Shift(instrs[0]) + TotalShift(instrs[1..])
  }

  lemma NeutralMoves(instr: Instr, r: Regs, m: Mem)
    requires Wide(r) && MaskOk(instr) && Neutral(instr)
    ensures Apply(instr, r, m) == Done(WithSp(r, Plus(r.gp[SP], Shift(instr))))
  {
    PlusPlus(r.gp[SP], 0, 0);
    if instr.RegPop? { NeutralPops(instr.mask, 0, r, m); }
    assert WithSp(r, r.gp[SP]) == r;
    assert Slot(13) == Some(SP);
  }

  lemma {:induction false} NeutralPops(mask: seq<bool>, i: nat, r: Regs, m: Mem)
    requires |mask| == 16 && i <= 16 && Wide(r) && forall j :: 0 <= j < 16 && j != 13 ==> !mask[j]
    ensures (var p := PopRegs(mask, i, r, r.gp[SP], m);
             if mask[13] && i <= 13 then p == Popped(WithSp(r, m(r.gp[SP])), Plus(r.gp[SP], 4)) else p == Popped(r, r.gp[SP]))
    decreases 16 - i
  {
    hide Plus;
    if i < 16 && !mask[i] {
      NeutralPops(mask, i + 1, r, m);
    } else if i < 16 {
      NothingPops(mask, 14, WithSp(r, m(r.gp[SP])), Plus(r.gp[SP], 4), m);
    }
  }

  lemma {:induction false} NothingPops(mask: seq<bool>, i: nat, r: Regs, sp: u32, m: Mem)
    requires |mask| == 16 && i <= 16 && Wide(r) && forall j :: i <= j < 16 ==> !mask[j]
    ensures PopRegs(mask, i, r, sp, m) == Popped(r, sp)
    decreases 16 - i
  {
    if i < 16 { NothingPops(mask, i + 1, r, sp, m); }
  }

  lemma {:induction false} NeutralRuns(instrs: seq<Instr>, r: Regs, m: Mem)
    requires Wide(r) && MasksOk(instrs) && AllNeutral(instrs)
    ensures Run(instrs, r, m) == Done(WithSp(r, Plus(r.gp[SP], TotalShift(instrs))))
  {
    hide Apply, Neutral, Shift, Plus;
    if instrs == [] {
      PlusPlus(r.gp[SP], 0, 0);
      assert WithSp(r, r.gp[SP]) == r;
    } else {
      SubMasks(instrs);
      assert Neutral(instrs[0]);
      NeutralMoves(instrs[0], r, m);
      var r' := WithSp(r, Plus(r.gp[SP], Shift(instrs[0])));
      forall i | 0 <= i < |instrs[1..]| ensures Neutral(instrs[1..][i]) { assert instrs[1..][i] == instrs[i + 1]; }
      NeutralRuns(instrs[1..], r', m);
      PlusPlus(r.gp[SP], Shift(instrs[0]), TotalShift(instrs[1..]));
      assert WithSp(r', Plus(r'.gp[SP], TotalShift(instrs[1..]))) == WithSp(r, Plus(r'.gp[SP], TotalShift(instrs[1..])));
    }
  }

  /** Memory in which each word is 1, and registers that are all 0 except for sp. */
  function Ones(): Mem { _ => 1 }

  function Zeros(sp: u32): (r: Regs)
    ensures Wide(r)
  {
    Regs(seq(12, i => if i == SP then sp else 0), seq(8, _ => 0))
  }

  /** Some register other than sp is not 0. */
  ghost predicate Marked(r: Regs)
    requires Wide(r)
  {
    (exists k {:trigger r.gp[k]} :: 0 <= k < 12 && k != SP && r.gp[k] != 0) || exists k {:trigger r.dp[k]} :: 0 <= k < 8 && r.dp[k] != 0
  }

  /** Popped registers hold 1, the others what they held before. */
  lemma {:induction false} PopsOnes(mask: seq<bool>, i: nat, r: Regs, sp: u32)
    requires |mask| == 16 && i <= 16 && Wide(r) && PopRegs(mask, i, r, sp, Ones()).Popped?
    ensures (var r' := PopRegs(mask, i, r, sp, Ones()).regs;
             forall k {:trigger r'.gp[k]} :: 0 <= k < 12 ==> r'.gp[k] == if RegAt(k) >= i && mask[RegAt(k)] then 1 else r.gp[k])
    decreases 16 - i
  {
    hide Plus;
    if i < 16 {
      if mask[i] { PopsOnes(mask, i + 1, r.(gp := r.gp[Slot(i).value := 1]), Plus(sp, 4)); } else { PopsOnes(mask, i + 1, r, sp); }
    }
  }

  /** Popped doubles are not 0, the others and the registers other than sp are as before. */
  lemma {:induction false} PopsOnesDouble(start: nat, count: nat, r: Regs)
    requires Wide(r) && PopDoubles(start, count, r, Ones()).Done?
    ensures (var r' := PopDoubles(start, count, r, Ones()).regs;
             && (forall k {:trigger r'.gp[k]} :: 0 <= k < 12 && k != SP ==> r'.gp[k] == r.gp[k])
             && (forall k {:trigger r'.dp[k]} :: 0 <= k < 8 ==> if start <= k + 8 < start + count then r'.dp[k] != 0 else r'.dp[k] == r.dp[k])
             && (count > 0 ==> 8 <= start <= 15))
    decreases count
  {
    hide Plus;
    if count > 0 {
      assert DoubleAt(r.gp[SP], Ones()) != 0;
      PopsOnesDouble(start + 1, count - 1, WithSp(r, Plus(r.gp[SP], 8)).(dp := r.dp[start - 8 := DoubleAt(r.gp[SP], Ones())]));
    }
  }

  lemma MarkCarries(r: Regs, r': Regs)
    requires Wide(r) && Wide(r') && Marked(r)
    requires forall k {:trigger r'.gp[k]} :: 0 <= k < 12 && k != SP && r.gp[k] != 0 ==> r'.gp[k] != 0
    requires forall k {:trigger r'.dp[k]} :: 0 <= k < 8 && r.dp[k] != 0 ==> r'.dp[k] != 0
    ensures Marked(r')
  {
    if k :| 0 <= k < 12 && k != SP && r.gp[k] != 0 {
      assert r'.gp[k] != 0;
    } else {
      var k :| 0 <= k < 8 && r.dp[k] != 0;
      assert r'.dp[k] != 0;
    }
  }

  /** A mark stays, and what pops any other register than sp makes one. */
  lemma MarkStays(instr: Instr, r: Regs)
    requires Wide(r) && MaskOk(instr) && Apply(instr, r, Ones()).Done?
    requires Marked(r) || (!Neutral(instr) && !instr.RegToSp?)
    ensures Marked(Apply(instr, r, Ones()).regs)
  {
    var r' := Apply(instr, r, Ones()).regs;
    match instr
    case RegPop(mask) => MarkedByPop(mask, r);
    case VfpPop(start, count) => MarkedByDoubles(start, count, r);
    case _ =>
      hide Plus, Marked;
      MarkCarries(r, r');
  }

  lemma MarkedByPop(mask: seq<bool>, r: Regs)
    requires Wide(r) && |mask| == 16 && Apply(RegPop(mask), r, Ones()).Done?
    requires Marked(r) || !Neutral(RegPop(mask))
    ensures Marked(Apply(RegPop(mask), r, Ones()).regs)
  {
    hide PopRegs, Plus;
    var r' := Apply(RegPop(mask), r, Ones()).regs;
    PopsOnes(mask, 0, r, r.gp[SP]);
    PopDiesIff(mask, 0, r, r.gp[SP], Ones());
    if !Neutral(RegPop(mask)) {
      var i :| 0 <= i < 16 && i != 13 && mask[i];
      assert Slot(i).Some?;
      assert r'.gp[Slot(i).value] == 1;
    } else {
      MarkCarries(r, r');
    }
  }

  lemma MarkedByDoubles(start: nat, count: nat, r: Regs)
    requires Wide(r) && PopDoubles(start, count, r, Ones()).Done? && (Marked(r) || count > 0)
    ensures Marked(PopDoubles(start, count, r, Ones()).regs)
  {
    hide PopDoubles;
    var r' := PopDoubles(start, count, r, Ones()).regs;
    PopsOnesDouble(start, count, r);
    if count > 0 { assert r'.dp[start - 8] != 0; } else { MarkCarries(r, r'); }
  }

  lemma {:induction false} MarkStaysForRun(instrs: seq<Instr>, r: Regs)
    requires Wide(r) && MasksOk(instrs) && Marked(r) && Run(instrs, r, Ones()).Done?
    ensures Marked(Run(instrs, r, Ones()).regs)
  {
    hide Apply, Marked;
    if instrs != [] {
      SubMasks(instrs);
      assert MaskOk(instrs[0]);
      MarkStays(instrs[0], r);
      MarkStaysForRun(instrs[1..], Apply(instrs[0], r, Ones()).regs);
    }
  }

  /** An instruction that is not neutral shows: for one of two values of sp, the registers do not come back as they were. */
  lemma HarmShows(before: seq<Instr>, instr: Instr, after: seq<Instr>) returns (r: Regs)
    requires MasksOk(before) && AllNeutral(before) && MaskOk(instr) && !Neutral(instr) && MasksOk(after)
    ensures Wide(r) && MasksOk(before + ([instr] + after)) && Run(before + ([instr] + after), r, Ones()) != Done(r)
  {
    hide Run, Plus, Apply, Marked;
    var a := RunsTo(before, instr, after, Zeros(0));
    r := Zeros(0);
    if instr.RegToSp? {
      var b := RunsTo(before, instr, after, Zeros(1));
      CopyForgets(instr, a, b);
      assert Zeros(0).gp[SP] != Zeros(1).gp[SP];
      if Run(before + ([instr] + after), r, Ones()) == Done(r) { r := Zeros(1); }
    } else if Apply(instr, a, Ones()).Done? {
      MarkStays(instr, a);
      var o := Run(after, Apply(instr, a, Ones()).regs, Ones());
      if o.Done? {
        MarkStaysForRun(after, Apply(instr, a, Ones()).regs);
        NotMarked(0);
      }
    }
  }

  lemma NotMarked(sp: u32)
    ensures !Marked(Zeros(sp))
  {
  }

  /** Behind neutral instructions, the instruction finds all registers 0 except for sp. */
  lemma RunsTo(before: seq<Instr>, instr: Instr, after: seq<Instr>, r: Regs) returns (a: Regs)
    requires MasksOk(before) && AllNeutral(before) && MaskOk(instr) && MasksOk(after) && Wide(r)
    ensures Wide(a) && a == WithSp(r, a.gp[SP])
    ensures MasksOk(before + ([instr] + after))
    ensures Run(before + ([instr] + after), r, Ones()) == Then(Apply(instr, a, Ones()), after, Ones())
  {
    hide Apply, Neutral, Plus;
    a := WithSp(r, Plus(r.gp[SP], TotalShift(before)));
    NeutralRuns(before, r, Ones());
    var next := [instr] + after;
    forall i | 0 <= i < |next| ensures MaskOk(next[i]) { if i > 0 { assert next[i] == after[i - 1]; } }
    RunConcat(before, next, r, Ones());
    assert next[0] == instr && next[1..] == after;
  }

  /** Copying another register to sp forgets what sp was. */
  lemma CopyForgets(instr: Instr, a: Regs, b: Regs)
    requires instr.RegToSp? && !Neutral(instr) && Wide(a) && Wide(b)
    requires a == WithSp(Zeros(0), a.gp[SP]) && b == WithSp(Zeros(1), b.gp[SP])
    ensures Apply(instr, a, Ones()) == Apply(instr, b, Ones())
  {
    if Slot(instr.reg).Some? {
      assert Slot(instr.reg).value != SP;
      assert WithSp(a, 0) == WithSp(b, 0);
    }
  }

  /**
   Instructions leave all registers as they are, whatever the registers and the memory, exactly if all they do is to move sp, by
   distances that add up to zero.
   */
  lemma ChangesNothingIff(rest: seq<Instr>)
    requires MasksOk(rest)
    ensures (forall r, m {:trigger Run(rest, r, m)} :: Wide(r) ==> Run(rest, r, m) == Done(r))
            <==> AllNeutral(rest) && TotalShift(rest) % 0x1_0000_0000 == 0
  {
    hide Run, Neutral, TotalShift, Plus;
    if AllNeutral(rest) {
      var d := TotalShift(rest);
      forall r, m {:trigger Run(rest, r, m)} | Wide(r) ensures Run(rest, r, m) == Done(WithSp(r, Plus(r.gp[SP], d))) {
        NeutralRuns(rest, r, m);
      }
      if d % 0x1_0000_0000 == 0 {
        forall r, m {:trigger Run(rest, r, m)} | Wide(r) ensures Run(rest, r, m) == Done(r) { MovesNothing(r, d); }
      } else {
        MovesZero(d);
        assert Run(rest, Zeros(0), Ones()) != Done(Zeros(0));
      }
    } else {
      var n := FirstHarm(rest);
      var after := rest[n + 1..];
      assert rest == rest[..n] + ([rest[n]] + after);
      forall i | 0 <= i < |after| ensures MaskOk(after[i]) { assert after[i] == rest[n + 1 + i]; }
      var r := HarmShows(rest[..n], rest[n], after);
    }
  }

  lemma {:induction false} FirstHarm(rest: seq<Instr>) returns (n: nat)
    requires MasksOk(rest) && !AllNeutral(rest)
    ensures n < |rest| && MasksOk(rest[..n]) && AllNeutral(rest[..n]) && !Neutral(rest[n])
  {
    hide Neutral;
    n := 0;
    while Neutral(rest[n])
      invariant n < |rest| && forall i :: 0 <= i < n ==> Neutral(rest[i])
      decreases |rest| - n
    {
      n := n + 1;
    }
  }

  lemma MovesNothing(r: Regs, d: int)
    requires Wide(r) && d % 0x1_0000_0000 == 0
    ensures WithSp(r, Plus(r.gp[SP], d)) == r
  {
    var sp: int := r.gp[SP];
    assert sp + d == sp + 0x1_0000_0000 * (d / 0x1_0000_0000);
    assert Plus(r.gp[SP], d) == r.gp[SP];
  }

  lemma MovesZero(d: int)
    requires d % 0x1_0000_0000 != 0
    ensures WithSp(Zeros(0), Plus(Zeros(0).gp[SP], d)) != Zeros(0)
  {
    assert WithSp(Zeros(0), Plus(Zeros(0).gp[SP], d)).gp[SP] == Plus(0, d);
  }

  /** Going on behind a "finish" with `rest` does what stopping there would do. */
  ghost predicate Harmless(p: seq<Instr>, rest: seq<Instr>, r: Regs, m: Mem)
    requires MasksOk(p) && MasksOk(rest) && Wide(r)
  {
    MasksOk(p + ([Finish] + rest)) && Run(p + ([Finish] + rest), r, m) == Run(p, r, m)
  }

  /** It does, whatever comes before and whatever the registers and the memory, exactly under that condition. */
  lemma FinishHarmlessIff(rest: seq<Instr>)
    requires MasksOk(rest)
    ensures (forall p, r, m {:trigger Harmless(p, rest, r, m)} :: MasksOk(p) && Wide(r) ==> Harmless(p, rest, r, m))
            <==> AllNeutral(rest) && TotalShift(rest) % 0x1_0000_0000 == 0
  {
    hide Run, AllNeutral, TotalShift;
    ChangesNothingIff(rest);
    if AllNeutral(rest) && TotalShift(rest) % 0x1_0000_0000 == 0 {
      forall p, r, m {:trigger Harmless(p, rest, r, m)} | MasksOk(p) && Wide(r) ensures Harmless(p, rest, r, m) {
        FinishBetween(p, rest, r, m);
        if Run(p, r, m).Done? { assert Run(rest, Run(p, r, m).regs, m) == Run(p, r, m); }
      }
    } else {
      var r, m :| Wide(r) && Run(rest, r, m) != Done(r);
      FinishBetween([], rest, r, m);
      NoneRun(r, m);
      assert !Harmless([], rest, r, m);
    }
  }

  lemma NoneRun(r: Regs, m: Mem)
    requires Wide(r)
    ensures Run([], r, m) == Done(r)
  {
  }

  lemma FinishBetween(p: seq<Instr>, rest: seq<Instr>, r: Regs, m: Mem)
    requires MasksOk(p) && MasksOk(rest) && Wide(r)
    ensures MasksOk(p + ([Finish] + rest)) && Run(p + ([Finish] + rest), r, m) == Then(Run(p, r, m), rest, m)
  {
    hide Run;
    assert MasksOk([Finish] + rest) by { FinishGoesOn(rest, r, m); }
    RunConcat(p, [Finish] + rest, r, m);
    if Run(p, r, m).Done? { FinishGoesOn(rest, Run(p, r, m).regs, m); }
  }

  /** Behind one particular prefix more may be harmless: copying the same register to sp twice does what copying it once does. */
  lemma SecondCopyHarmless(r: Regs, m: Mem)
    requires Wide(r)
    ensures (var copy: Instr := RegToSp(7); Harmless([copy], [copy], r, m) && !Neutral(copy))
  {
    var copy: Instr := RegToSp(7);
    hide Run;
    RunsOne(copy, r, m);
    var r' := WithSp(r, r.gp[4]);
    assert Slot(7) == Some(4) && Apply(copy, r, m) == Done(r');
    RunsOne(copy, r', m);
    assert WithSp(r', r'.gp[4]) == r';
    FinishBetween([copy], [copy], r, m);
  }

  lemma RunsOne(instr: Instr, r: Regs, m: Mem)
    requires Wide(r) && MaskOk(instr)
    ensures Run([instr], r, m) == Apply(instr, r, m)
  {
    assert [instr][1..] == [];
  }
}
