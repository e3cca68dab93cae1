/** The unwinder's state, as it is updated in place. */
module UnwindState {

  import opened Common
  import opened UnwindStream
  import opened UnwindInstruction
  import opened UnwindEncoding
  import opened UnwindTable
  import opened UnwindStep
  import opened Prologue
  import opened Unwinder
  import SegmentedStack

  datatype Status = Fine | Failed | Died

  /** The lookup of `pc` yields `ability`. */
  ghost predicate Looked(pc: u32, exidx: seq<u8>, base: u32, extab: seq<u8>, extabBase: u32, ability: Ability)
  {
    |exidx| % 8 == 0 && exists i :: Brackets(exidx, base, pc, i) && AbilityAt(exidx, base, i, extab, extabBase) == UnwindTable.Ok(ability)
  }

  /** No lookup of `pc` can succeed. */
  ghost predicate Unlisted(pc: u32, exidx: seq<u8>, base: u32, extab: seq<u8>, extabBase: u32)
  {
    || |exidx| % 8 != 0 || exidx == [] || pc < FuncAddr(exidx, base, 0)
    || exists i :: Brackets(exidx, base, pc, i) && !AbilityAt(exidx, base, i, extab, extabBase).Ok?
  }

  predicate Readable(a: Ability)
  {
    a.CanUnwind? ==> |a.instrs.bytes| % 4 == 0 && a.instrs.pos <= |a.instrs.bytes|
  }

  class State {
    const gp: array<u32>
    const dp: array<u64>
    var ability: Ability
    var boundary: u32
    var cumulated: u32
    var freed: seq<u32>

    ghost predicate Valid()
      reads this
    {
      gp.Length == 12 && dp.Length == 8 && (gp as object) != dp && Readable(ability)
    }

    ghost function Now(): (r: Regs)
      reads this, gp, dp
      requires gp.Length == 12 && dp.Length == 8
      ensures Wide(r)
    {
      Regs(gp[..], dp[..])
    }

    ghost function Place(): (p: Position)
      reads this, gp, dp
      requires gp.Length == 12 && dp.Length == 8
      ensures Wide(p.regs)
    {
      Position(Now(), boundary, cumulated, freed)
    }

    constructor (boundary: u32, cumulated: u32)
      ensures Valid() && fresh(gp) && fresh(dp) && this.boundary == boundary && this.cumulated == cumulated && ability == CantUnwind
    {
      gp := new u32[12](_ => 0);
      dp := new u64[8](_ => 0);
      ability := CantUnwind;
      this.boundary, this.cumulated, freed := boundary, cumulated, [];
    }

    /** Find how to unwind the function of `pc`. */
    method GetForPc(pc: u32, exidx: seq<u8>, base: u32, extab: seq<u8>, extabBase: u32) returns (s: Status)
      requires Valid()
      modifies this`ability
      ensures Valid()
      ensures s == Fine ==> Looked(pc, exidx, base, extab, extabBase, ability)
      ensures s != Fine ==> ability == old(ability) && Unlisted(pc, exidx, base, extab, extabBase)
    {
      hide FuncAddr, AbilityAt;
      var found := Search(pc, exidx, base);
      if !found.Ok? {
        return Failed;
      }
      var a := AbilityAt(exidx, base, found.value, extab, extabBase);
      match a
      case Ok(able) =>
        ability := able;
        s := Fine;
      case Err =>
        s := Failed;
      case Panic =>
        s := Died;
    }

    method PopRegisters(mask: seq<bool>, m: Mem) returns (s: Status)
      requires Valid() && |mask| == 16
      modifies gp
      ensures match Apply(RegPop(mask), old(Now()), m)
              case Done(r) => s == Fine && Now() == r
              case _ => s == Died
    {
      hide Plus;
      ghost var r0 := Now();
      var tmp := gp[SP];
      for i := 0 to 16
        invariant PopRegs(mask, 0, r0, r0.gp[SP], m) == PopRegs(mask, i, Now(), tmp, m)
      {
        if mask[i] {
          match Slot(i)
          case None =>
            return Died;
          case Some(k) =>
            ghost var r := Now();
            gp[k] := m(tmp);
            assert Now() == r.(gp := r.gp[k := m(tmp)]);
            tmp := Plus(tmp, 4);
        }
      }
      if !(mask[0] || mask[2] || mask[3]) {
        ghost var r := Now();
        gp[SP] := tmp;
        assert Now() == WithSp(r, tmp);
      }
      s := Fine;
    }

    method PopVfp(start: nat, count: nat, m: Mem) returns (s: Status)
      requires Valid()
      modifies gp, dp
      ensures match PopDoubles(start, count, old(Now()), m)
              case Done(r) => s == Fine && Now() == r
              case _ => s == Died
    {
      hide Plus, DoubleAt;
      ghost var r0 := Now();
      for i := 0 to count
        invariant PopDoubles(start, count, r0, m) == PopDoubles(start + i, count - i, Now(), m)
      {
        if !(8 <= start + i <= 15) {
          return Died;
        }
        ghost var r := Now();
        var sp := gp[SP];
        dp[start + i - 8] := DoubleAt(sp, m);
        gp[SP] := Plus(sp, 8);
        assert Now() == WithSp(r, Plus(sp, 8)).(dp := r.dp[start + i - 8 := DoubleAt(sp, m)]);
      }
      s := Fine;
    }

    method SetSp(sp: u32)
      requires Valid()
      modifies gp
      ensures Now() == WithSp(old(Now()), sp)
    {
      ghost var r := Now();
      gp[SP] := sp;
      assert gp[..] == r.gp[SP := sp];
    }

    method SetPc(pc: u32)
      requires Valid()
      modifies gp
      ensures Now() == WithPc(old(Now()), pc)
    {
      ghost var r := Now();
      gp[PC] := pc;
      assert gp[..] == r.gp[PC := pc];
    }

    method ApplyInstruction(instr: Instr, m: Mem) returns (s: Status)
      requires Valid() && MaskOk(instr)
      modifies gp, dp
      ensures match Apply(instr, old(Now()), m)
              case Done(r) => s == Fine && Now() == r
              case Bad => s == Failed
              case Dies => s == Died
    {
      hide Plus, PopRegs, PopDoubles;
      s := Fine;
      match instr
      case Finish =>
      case DataPush(size) =>
        SetSp(Plus(gp[SP], 0 - size));
      case DataPop(size) =>
        SetSp(Plus(gp[SP], size));
      case RegPop(mask) =>
        s := PopRegisters(mask, m);
      case RegToSp(reg) =>
        if Slot(reg).None? {
          return Died;
        }
        SetSp(gp[Slot(reg).value]);
      case VfpPop(start, count) =>
        s := PopVfp(start, count, m);
      case _ =>
        s := Failed;
    }

    /** Apply the rest of the stream. */
    method ApplyAll(iter: ByteIter, m: Mem) returns (s: Status)
      requires Valid() && iter.Valid() && (iter as object) !in {this, gp, dp}
      modifies gp, dp, iter
      ensures iter.Valid()
      ensures MasksOk(All(iter.Stream(), old(iter.pos)))
      ensures match Run(All(iter.Stream(), old(iter.pos)), old(Now()), m)
              case Done(r) => s == Fine && Now() == r && iter.pos == |iter.bytes|
              case Bad => s == Failed
              case Dies => s == Died
    {
      hide Decode, Apply, Swapped;
      ghost var str, r0, from := iter.Stream(), Now(), iter.pos;
      AllMasks(str, from);
      var more := true;
      while more
        invariant iter.Valid() && iter.Stream() == str
        invariant MasksOk(All(str, iter.pos)) && Run(All(str, from), r0, m) == Run(All(str, iter.pos), Now(), m)
        invariant !more ==> iter.pos == |iter.bytes|
        decreases more, |iter.bytes| - iter.pos
      {
        ghost var at := iter.pos;
        var d := StepIter(iter);
        match d
        case End =>
          more := false;
        case CutOff =>
          RunOne(Error, Now(), m);
          assert All(str, at) == [Error];
          assert Apply(Error, Now(), m) == Bad by { BadApplies(Error, Now(), m); }
          return Failed;
        case One(instr, next) =>
          ghost var r := Now();
          DecodedMask(str, at);
          AllMasks(str, next);
          RunHead(instr, All(str, next), r, m);
          s := ApplyInstruction(instr, m);
          if s != Fine {
            return;
          }
      }
      s := Fine;
    }

    /** Step to the caller of the current function. */
    method Step(m: Mem, exidx: seq<u8>, base: u32, extab: seq<u8>, extabBase: u32) returns (s: Status)
      requires Valid()
      modifies this, gp, dp
      ensures Valid()
      ensures old(gp[PC]) == 0 || old(ability).CantUnwind? ==> s == Failed && Place() == old(Place()) && ability == old(ability)
      ensures old(gp[PC]) != 0 && old(ability).CanUnwind? ==> Stepped(old(Place()), old(ability).instrs, Place(), s, m)
      ensures old(gp[PC]) != 0 && s == Fine && gp[PC] != 0 ==> Looked(gp[PC], exidx, base, extab, extabBase, ability)
    {
      hide Resume, Swapped, Run, Looked, All;
      if gp[PC] == 0 {
        return Failed;
      }
      if ability.CantUnwind? {
        return Failed;
      }
      ghost var p := Place();
      var iter := new ByteIter(ability.instrs.bytes);
      iter.pos := ability.instrs.pos;
      SetPc(UNDEFINED);
      s := ApplyAll(iter, m);
      ability := ability.(instrs := Instructions(iter.bytes, iter.pos));
      if s != Fine {
        return;
      }
      Return(m);
      if gp[PC] != 0 {
        s := GetForPc(gp[PC], exidx, base, extab, extabBase);
      }
    }

    /** Resume in the caller, perhaps on the stacklet before. */
    method Return(m: Mem)
      requires Valid()
      modifies this`boundary, this`cumulated, this`freed, gp
      ensures Place() == Resume(old(Place()), m)
    {
      hide Plus, Load, SegmentedStack.Padded;
      if gp[PC] == UNDEFINED {
        SetPc(gp[LR]);
      }
      if gp[PC] == 0 {
        return;
      }
      if gp[PC] == SegmentedStack.LESS_STACK {
        var meta := Plus(boundary, -128);
        var prevSp := Load(m, meta, 4);
        SetPc(Plus(Load(m, prevSp, 20), -2));
        var size := if SegmentedStack.Padded(Load(m, prevSp, 28)) then 108 else 104;
        SetSp(Plus(prevSp, size));
        boundary := Load(m, meta, 0);
        cumulated := Plus(cumulated, 0 - Load(m, meta, 12));
        freed := freed + [meta];
      } else {
        SetPc(Plus(gp[PC], -2));
      }
    }
  }

  /** What one step makes of a position, if the instructions run to their end. */
  ghost predicate Stepped(p: Position, instrs: Instructions, p': Position, s: Status, m: Mem)
    requires Wide(p.regs) && |instrs.bytes| % 4 == 0 && instrs.pos <= |instrs.bytes|
  {
    var all := All(Swapped(instrs.bytes), instrs.pos);
    MasksOk(all) &&
    match Run(all, WithPc(p.regs, UNDEFINED), m)
    case Done(regs) => p' == Resume(p.(regs := regs), m) && (p'.regs.gp[PC] == 0 ==> s == Fine)
    case Bad => s == Failed
    case Dies => s == Died
  }

  lemma BadApplies(instr: Instr, r: Regs, m: Mem)
    requires Wide(r) && MaskOk(instr) && instr.Error?
    ensures Apply(instr, r, m) == Bad
  {
  }

  lemma RunHead(instr: Instr, rest: seq<Instr>, r: Regs, m: Mem)
    requires Wide(r) && MaskOk(instr) && MasksOk(rest)
    ensures MasksOk([instr] + rest)
    ensures Run([instr] + rest, r, m) == Then(Apply(instr, r, m), rest, m)
  {
    hide Apply;
    RunOne(instr, r, m);
    RunConcat([instr], rest, r, m);
  }
}
