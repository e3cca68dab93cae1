/** What each opcode that is interpreted does to the registers, read off its bytes. */
module UnwindMeaning {

  import opened Common
  import Bits
  import opened UnwindStream
  import opened UnwindInstruction
  import opened UnwindStep
  import opened Unwinder
  import SegmentedStack

  /** Binary digit `i` of `x`. */
  predicate Digit(x: nat, i: nat) { x / Bits.Pow2(i) % 2 == 1 }

  predicate Pops(op: u8) { 0x80 <= op < 0x90 || 0xa0 <= op < 0xb0 || op == 0xb1 }

  /** Register `j` is popped by the opcode `op`, followed by the byte `low`. */
  predicate Names(op: u8, low: u8, j: nat)
    requires Pops(op)
  {
    if op < 0x90 then (4 <= j < 12 && Digit(low, j - 4)) || (12 <= j < 16 && Digit(op - 0x80, j - 12))
    else if op < 0xb0 then 4 <= j <= 4 + op % 8 || (op >= 0xa8 && j == 14)
    else j < 4 && Digit(low, j)
  }

  /** The mask is that of the registers named. */
  ghost predicate AllNamed(mask: seq<bool>, op: u8, low: u8)
    requires |mask| == 16 && Pops(op)
  {
    forall j :: 0 <= j < 16 ==> (mask[j] <==> Names(op, low, j))
  }

  lemma {:induction false} OfDigit(x: nat, n: nat, i: nat)
    requires i < n
    ensures Bits.Of(x, n)[i] <==> Digit(x, i)
  {
    if i > 0 {
      OfDigit(x / 2, n - 1, i - 1);
      Halved(x, Bits.Pow2(i - 1));
    }
  }

  lemma Halved(x: nat, d: nat)
    requires d > 0
    ensures x / 2 / d == x / (2 * d)
  {
    var q, rest := Division(x, 2 * d);
    Twice(q, d);
    HalfOf(x, q * d, rest);
    Quotient(x / 2, d, q, rest / 2);
  }

  lemma Division(x: nat, d: nat) returns (q: nat, rest: nat)
    requires d > 0
    ensures q == x / d && rest < d && x == q * d + rest
  {
    q, rest := x / d, x % d;
  }

  lemma HalfOf(x: nat, y: nat, rest: nat)
    requires x == 2 * y + rest
    ensures x / 2 == y + rest / 2
  {
  }

  lemma Twice(q: nat, d: nat)
    ensures q * (2 * d) == 2 * (q * d)
  {
  }

  lemma Quotient(x: nat, d: nat, q: nat, rest: nat)
    requires d > 0 && rest < d && x == q * d + rest
    ensures x / d == q
  {
    var p := x / d;
    Differences(p, q, d);
    if p > q { AtLeast(p - q, d); }
    if p < q { AtLeast(q - p, d); }
  }

  lemma Differences(p: nat, q: nat, d: nat)
    ensures (p - q) * d == p * d - q * d && (q - p) * d == q * d - p * d
  {
  }

  lemma AtLeast(k: nat, d: nat)
    requires k > 0
    ensures k * d >= d
  {
  }

  /** The opcodes that pop registers are decoded to the registers that they name. */
  lemma PopsNamed(s: seq<u8>, pos: nat) returns (mask: seq<bool>)
    requires pos < |s| && Understood(s, pos) && Pops(s[pos])
    ensures |mask| == 16 && Decode(s, pos) == One(RegPop(mask), if s[pos] < 0x90 || s[pos] == 0xb1 then pos + 2 else pos + 1)
    ensures AllNamed(mask, s[pos], if pos + 1 < |s| then s[pos + 1] else 0)
  {
    hide Bits.Of, Digit;
    mask := Decode(s, pos).instr.mask;
    var op, low := s[pos], if pos + 1 < |s| then s[pos + 1] else 0;
    forall j | 0 <= j < 16 ensures mask[j] <==> Names(op, low, j) {
      if op < 0x90 {
        if 4 <= j < 12 { OfDigit(low, 8, j - 4); } else if 12 <= j { OfDigit(op - 0x80, 4, j - 12); }
      } else if op == 0xb1 && j < 4 {
        OfDigit(low, 4, j);
      }
    }
  }

  /** How many registers below `j` the mask has. */
  function Before(mask: seq<bool>, j: nat): int
    requires |mask| == 16 && j <= 16
  {
    Count(mask, 0) - Count(mask, j)
  }

  /** Popped registers hold the words from sp up, in order; sp moves behind them unless the mask meets 13. */
  ghost predicate PopEffect(mask: seq<bool>, r: Regs, m: Mem, o: Outcome)
    requires |mask| == 16 && Wide(r) && (o.Done? ==> Wide(o.regs))
  {
    if exists j :: 0 <= j < 16 && mask[j] && Slot(j).None? then o == Dies
    else
      && o.Done? && o.regs.dp == r.dp
      && (forall k {:trigger o.regs.gp[k]} :: 0 <= k < 12 && k != SP ==>
            o.regs.gp[k] == if mask[RegAt(k)] then m(Plus(r.gp[SP], 4 * Before(mask, RegAt(k)))) else r.gp[k])
      && o.regs.gp[SP] == if !MeetsThirteen(mask) then Plus(r.gp[SP], 4 * Before(mask, 16))
                          else if mask[13] then m(Plus(r.gp[SP], 4 * Before(mask, 13))) else r.gp[SP]
  }

  lemma PopMeaning(mask: seq<bool>, r: Regs, m: Mem)
    requires |mask| == 16 && Wide(r)
    ensures PopEffect(mask, r, m, Apply(RegPop(mask), r, m))
  {
    hide PopRegs, Plus, Count, MeetsThirteen;
    PopDiesIff(mask, 0, r, r.gp[SP], m);
    assert Count(mask, 16) == 0 by { NoneBehind(mask); }
    assert RegAt(SP) == 13;
    var p := PopRegs(mask, 0, r, r.gp[SP], m);
    if p.Popped? {
      PopMoves(mask, 0, r, r.gp[SP], m);
      forall k | 0 <= k < 12 && mask[RegAt(k)] ensures p.regs.gp[k] == m(Plus(r.gp[SP], 4 * Before(mask, RegAt(k)))) {
        PopsAt(mask, 0, RegAt(k), r, r.gp[SP], m);
      }
    }
  }

  lemma NoneBehind(mask: seq<bool>)
    requires |mask| == 16
    ensures Count(mask, 16) == 0
  {
  }

  /** Popped doubles are those from sp up, in order, and sp moves behind them; others than d8 to d15 cannot be popped. */
  ghost predicate DoublesEffect(start: nat, count: nat, r: Regs, m: Mem, o: Outcome)
    requires Wide(r) && (o.Done? ==> Wide(o.regs))
  {
    if !(8 <= start && start + count <= 16) then o == Dies
    else
      && o.Done? && o.regs.gp == r.gp[SP := Plus(r.gp[SP], 8 * count)]
      && forall k {:trigger o.regs.dp[k]} :: 0 <= k < 8 ==>
        o.regs.dp[k] == if start <= k + 8 < start + count then DoubleAt(Plus(r.gp[SP], 8 * (k + 8 - start)), m) else r.dp[k]
  }

  lemma {:induction false} DoublesMeaning(start: nat, count: nat, r: Regs, m: Mem)
    requires Wide(r) && count > 0
    ensures DoublesEffect(start, count, r, m, PopDoubles(start, count, r, m))
    decreases count
  {
    hide Plus, DoubleAt, DoublesEffect;
    if 8 <= start <= 15 {
      var sp := r.gp[SP];
      var r1 := WithSp(r, Plus(sp, 8)).(dp := r.dp[start - 8 := DoubleAt(sp, m)]);
      if count == 1 {
        assert PopDoubles(start, 1, r, m) == Done(r1);
        OneDouble(start, r, m, r1);
      } else {
        DoublesMeaning(start + 1, count - 1, r1, m);
        NextDouble(start, count, r, m, r1, PopDoubles(start + 1, count - 1, r1, m));
      }
    } else {
      OtherDoubles(start, count, r, m);
    }
  }

  lemma OtherDoubles(start: nat, count: nat, r: Regs, m: Mem)
    requires Wide(r) && count > 0 && !(8 <= start <= 15)
    ensures DoublesEffect(start, count, r, m, Dies)
  {
  }

  lemma OneDouble(start: nat, r: Regs, m: Mem, r1: Regs)
    requires Wide(r) && 8 <= start <= 15 && r1 == WithSp(r, Plus(r.gp[SP], 8)).(dp := r.dp[start - 8 := DoubleAt(r.gp[SP], m)])
    ensures DoublesEffect(start, 1, r, m, Done(r1))
  {
    PlusPlus(r.gp[SP], 0, 0);
  }

  lemma NextDouble(start: nat, count: nat, r: Regs, m: Mem, r1: Regs, o: Outcome)
    requires Wide(r) && 8 <= start <= 15 && count > 1 && r1 == WithSp(r, Plus(r.gp[SP], 8)).(dp := r.dp[start - 8 := DoubleAt(r.gp[SP], m)])
    requires (o.Done? ==> Wide(o.regs)) && DoublesEffect(start + 1, count - 1, r1, m, o)
    ensures DoublesEffect(start, count, r, m, o)
  {
    hide Plus, DoubleAt;
    var sp := r.gp[SP];
    if o.Done? {
      PlusPlus(sp, 8, 8 * (count - 1));
      PlusPlus(sp, 0, 0);
      forall k {:trigger o.regs.dp[k]} | 0 <= k < 8
        ensures o.regs.dp[k] == if start <= k + 8 < start + count then DoubleAt(Plus(sp, 8 * (k + 8 - start)), m) else r.dp[k]
      {
        PlusPlus(sp, 8, 8 * (k + 8 - (start + 1)));
        assert o.regs.dp[k] == o.regs.dp[k];
      }
    }
  }

  /** What the instruction at `pos` does, and how many bytes it takes. A uleb128 number is `UnwindEncoding.UlebReadsBack`. */
  ghost predicate Meant(s: seq<u8>, pos: nat, r: Regs, m: Mem, o: Outcome, next: nat)
    requires pos < |s| && s[pos] != 0xb2 && Understood(s, pos) && Wide(r) && (o.Done? ==> Wide(o.regs))
  {
    var op: int, sp := s[pos], r.gp[SP];
    if op < 0x40 then o == Done(WithSp(r, Plus(sp, 4 * (op + 1)))) && next == pos + 1
    else if op < 0x80 then o == Done(WithSp(r, Plus(sp, 0 - 4 * (op - 0x3f)))) && next == pos + 1
    else if Pops(op) then
      && next == (if op < 0x90 || op == 0xb1 then pos + 2 else pos + 1)
      && exists mask: seq<bool> :: |mask| == 16 && PopEffect(mask, r, m, o) && AllNamed(mask, op, if pos + 1 < |s| then s[pos + 1] else 0)
    else if op < 0xa0 then
      && next == pos + 1
      && o == if op == 0x90 then Done(WithSp(r, r.gp[0]))
              else if 0x94 <= op <= 0x9b then Done(WithSp(r, r.gp[op - 0x93]))
              else if op == 0x9e then Done(WithSp(r, r.gp[LR]))
              else Dies
    else if op == 0xb0 then o == Done(r) && next == pos + 1
    else next == pos + 2 && DoublesEffect(s[pos + 1] / 16 + (if op == 0xc8 then 16 else 0), s[pos + 1] % 16 + 1, r, m, o)
  }

  /** Decoding and interpreting an opcode does what it means. */
  lemma OpcodeMeaning(s: seq<u8>, pos: nat, r: Regs, m: Mem)
    requires pos < |s| && s[pos] != 0xb2 && Understood(s, pos) && Wide(r)
    ensures Decode(s, pos).One? && MaskOk(Decode(s, pos).instr)
    ensures Meant(s, pos, r, m, Apply(Decode(s, pos).instr, r, m), Decode(s, pos).next)
  {
    hide PopEffect, DoublesEffect, AllNamed, Plus, PopRegs, PopDoubles, LongMask, ShortMask, LowMask;
    var op := s[pos];
    if Pops(op) {
      var mask := PopsNamed(s, pos);
      PopMeaning(mask, r, m);
    } else if op >= 0xc8 {
      DoublesMeaning(s[pos + 1] / 16 + (if op == 0xc8 then 16 else 0), s[pos + 1] % 16 + 1, r, m);
    }
  }

  // ---------- Returning by a popped pc ----------

  /** The byte behind the opcode. */
  function Low(s: seq<u8>, pos: nat): u8 { if pos + 1 < |s| then s[pos + 1] else 0 }

  /** How many registers below `j` the opcode names. */
  function HowMany(op: u8, low: u8, j: nat): nat
    requires Pops(op)
  {
    if j == 0 then 0 else HowMany(op, low, j - 1) + if Names(op, low, j - 1) then 1 else 0
  }

  lemma {:induction false} BeforeIs(mask: seq<bool>, op: u8, low: u8, j: nat)
    requires |mask| == 16 && Pops(op) && AllNamed(mask, op, low) && j <= 16
    ensures Before(mask, j) == HowMany(op, low, j)
  {
    hide Names;
    if j > 0 { BeforeIs(mask, op, low, j - 1); }
  }

  /**
   An opcode that pops pc decides where to go on: at the word popped for it, whatever lr holds, with sp behind all the words; unless
   that word marks the end of the stack or a boundary of stacklets.
   */
  lemma PoppedPcWins(s: seq<u8>, pos: nat, p: Position, m: Mem)
    requires pos < |s| && Understood(s, pos) && 0x80 <= s[pos] < 0x90 && Wide(p.regs)
    requires (var op, low := s[pos], Low(s, pos); Names(op, low, 15) && !Names(op, low, 13) && !Names(op, low, 12))
    ensures (var op, low, sp := s[pos], Low(s, pos), p.regs.gp[SP];
             var o, back := Apply(Decode(s, pos).instr, WithPc(p.regs, UNDEFINED), m), m(Plus(sp, 4 * HowMany(op, low, 15)));
             && o.Done?
             && (back != UNDEFINED && back != 0 && back != SegmentedStack.LESS_STACK ==>
                   Resume(p.(regs := o.regs), m) == p.(regs := WithPc(o.regs, Plus(back, -2)))
                   && Resume(p.(regs := o.regs), m).regs.gp[SP] == Plus(sp, 4 * HowMany(op, low, 16))))
  {
    hide PopRegs, Plus, Names, Apply, SwitchStacklet;
    var op, low := s[pos], Low(s, pos);
    var mask := PopsNamed(s, pos);
    var r := WithPc(p.regs, UNDEFINED);
    PopMeaning(mask, r, m);
    BeforeIs(mask, op, low, 15);
    BeforeIs(mask, op, low, 16);
    HighOnly(op, low);
    NoSlots(mask);
    assert RegAt(PC) == 15;
  }

  lemma HighOnly(op: u8, low: u8)
    requires 0x80 <= op < 0x90
    ensures forall j: nat :: j < 4 ==> !Names(op, low, j)
  {
  }

  lemma NoSlots(mask: seq<bool>)
    requires |mask| == 16 && !mask[0] && !mask[1] && !mask[2] && !mask[3] && !mask[12]
    ensures forall j :: 0 <= j < 16 && mask[j] ==> Slot(j).Some?
    ensures !MeetsThirteen(mask)
  {
  }
}
