/** The unwinder: from one stack frame to the one that called it. */
module Unwinder {

  import opened Common
  import opened UnwindStream
  import opened UnwindInstruction
  import opened UnwindEncoding
  import opened UnwindTable
  import opened UnwindStep
  import opened Prologue
  import SegmentedStack

  // ---------- A frame, from its table entry to its caller ----------

  /** All that is read from a stream is in the interpreter's form. */
  lemma {:induction false} AllMasks(s: seq<u8>, pos: nat)
    requires pos <= |s|
    ensures MasksOk(All(s, pos))
    decreases |s| - pos
  {
    hide Decode;
    match Decode(s, pos)
    case End =>
    case CutOff =>
    case One(instr, next) =>
      DecodedMask(s, pos);
      AllMasks(s, next);
      var a, b := [instr], All(s, next);
      assert forall i :: 0 <= i < |a + b| ==> (a + b)[i] == if i == 0 then instr else b[i - 1];
  }

  lemma DecodedMask(s: seq<u8>, pos: nat)
    requires pos <= |s| && Decode(s, pos).One?
    ensures MaskOk(Decode(s, pos).instr)
  {
  }

  /** Padding changes nothing. */
  lemma {:induction false} PaddingRuns(s: seq<u8>, pos: nat, r: Regs, m: Mem)
    requires pos <= |s| && Wide(r) && forall k :: pos <= k < |s| ==> s[k] == 0xb0
    ensures MasksOk(All(s, pos)) && Run(All(s, pos), r, m) == Done(r)
    decreases |s| - pos
  {
    AllMasks(s, pos);
    if pos < |s| {
      PaddingRuns(s, pos + 1, r, m);
      assert Decode(s, pos) == One(Finish, pos + 1);
      RunOne(Finish, r, m);
      RunConcat([Finish], All(s, pos + 1), r, m);
    }
  }

  /**
   How the body finds its frame: `BySp` if sp stays where the saves left it; `ByReg` if the prologue has set a frame register to
   sp + `offset`, so that sp may move.
   */
  datatype Setup = BySp | ByReg(reg: nat, offset: nat)

  predicate SetupOk(setup: Setup)
  {
    setup.ByReg? ==> 4 <= setup.reg <= 11 && setup.offset <= 0x100 && setup.offset % 4 == 0
  }

  /** The bytes that bring sp back to where the saves left it. */
  function SetupCode(setup: Setup): seq<u8>
    requires SetupOk(setup)
  {
    match setup
    case BySp => []
    case ByReg(reg, offset) => if offset == 0 then [0x90 + reg] else [0x90 + reg, 0x40 + offset / 4 - 1]
  }

  /** The bytes that undo a prologue. */
  function Code(setup: Setup, saves: seq<Save>): seq<u8>
    requires SetupOk(setup) && AllOk(saves)
  {
    SetupCode(setup) + EncodeAll(saves)
  }

  /** The registers with sp where the saves left it, as the body finds its frame. */
  function AtFrame(setup: Setup, r: Regs): (r': Regs)
    requires SetupOk(setup) && Wide(r)
    ensures Wide(r')
  {
    if setup.BySp? then r else WithSp(r, Plus(r.gp[setup.reg - 3], 0 - setup.offset))
  }

  /** From `pos` on the stream encodes what undoes a prologue, and padding. */
  ghost predicate Describes(s: seq<u8>, pos: nat, setup: Setup, saves: seq<Save>)
    requires SetupOk(setup) && AllOk(saves)
  {
    UnwindEncoding.At(s, pos, Code(setup, saves)) && forall k :: pos + |Code(setup, saves)| <= k < |s| ==> s[k] == 0xb0
  }

  /** Interpreting the bytes for the frame register leads to the frame. */
  lemma SetupRuns(s: seq<u8>, pos: nat, setup: Setup, r: Regs, m: Mem)
    requires SetupOk(setup) && Wide(r) && UnwindEncoding.At(s, pos, SetupCode(setup))
    ensures MasksOk(All(s, pos)) && MasksOk(All(s, pos + |SetupCode(setup)|))
    ensures Run(All(s, pos), r, m) == Run(All(s, pos + |SetupCode(setup)|), AtFrame(setup, r), m)
  {
    hide Plus, Run, Decode;
    var code := SetupCode(setup);
    AllMasks(s, pos);
    AllMasks(s, pos + |code|);
    if setup.ByReg? {
      assert s[pos] == code[0] by { assert s[pos..pos + |code|][0] == s[pos]; }
      DecodesCopy(s, pos, setup.reg);
      var r1 := WithSp(r, r.gp[setup.reg - 3]);
      AllMasks(s, pos + 1);
      RunsFirst(RegToSp(setup.reg), s, pos, r, m);
      assert Slot(setup.reg) == Some(setup.reg - 3);
      if setup.offset == 0 {
        PlusPlus(r.gp[setup.reg - 3], 0, 0);
      } else {
        assert s[pos + 1] == code[1] by { assert s[pos..pos + |code|][1] == s[pos + 1]; }
        DecodesPush(s, pos + 1, setup.offset);
        RunsFirst(DataPush(setup.offset), s, pos + 1, r1, m);
        assert WithSp(r1, Plus(r1.gp[SP], 0 - setup.offset)) == AtFrame(setup, r);
      }
    }
  }

  lemma DecodesCopy(s: seq<u8>, pos: nat, reg: nat)
    requires pos < |s| && 4 <= reg <= 11 && s[pos] == 0x90 + reg
    ensures Decode(s, pos) == One(RegToSp(reg), pos + 1)
  {
  }

  lemma DecodesPush(s: seq<u8>, pos: nat, n: nat)
    requires pos < |s| && 4 <= n <= 0x100 && n % 4 == 0 && s[pos] == 0x40 + n / 4 - 1
    ensures Decode(s, pos) == One(DataPush(n), pos + 1)
  {
  }

  /** Interpreting one instruction of a stream, and then the rest. */
  lemma RunsFirst(instr: Instr, s: seq<u8>, pos: nat, r: Regs, m: Mem)
    requires pos < |s| && Decode(s, pos).One? && Decode(s, pos).instr == instr && Wide(r) && MaskOk(instr)
    ensures MasksOk(All(s, pos)) && MasksOk(All(s, Decode(s, pos).next))
    ensures Run(All(s, pos), r, m) == Then(Apply(instr, r, m), All(s, Decode(s, pos).next), m)
  {
    hide Decode, Apply, Run;
    var next := Decode(s, pos).next;
    AllMasks(s, pos);
    AllMasks(s, next);
    RunOne(instr, r, m);
    RunConcat([instr], All(s, next), r, m);
  }

  /** Such a stream, interpreted in the body, restores the caller's registers. */
  lemma DescribedUnwinds(s: seq<u8>, pos: nat, setup: Setup, saves: seq<Save>, c: Regs, r: Regs, m: Mem)
    requires SetupOk(setup) && AllOk(saves) && Describes(s, pos, setup, saves)
    requires Wide(r) && InBody(saves, c, AtFrame(setup, r)) && AllHold(saves, c, m)
    ensures Unwound(s, pos, c, r, m)
  {
    hide EncodeAll, UndoAll, AllHold, Restored, All, Run, SaveOk, SomeSaves, SomeSavesDouble, Depths, SetupCode, Plus;
    var first, last := SetupCode(setup), EncodeAll(saves);
    var mid, end := pos + |first|, pos + |first| + |last|;
    assert s[pos..mid] == s[pos..end][..|first|] == first;
    assert s[mid..end] == s[pos..end][|first|..] == last;
    SetupRuns(s, pos, setup, r, m);
    var r1 := AtFrame(setup, r);
    AllReadBack(s, mid, saves);
    UnwindRestores(saves, c, r1, m);
    AllMasks(s, end);
    RunConcat(UndoAll(saves), All(s, end), r1, m);
    PaddingRuns(s, end, Run(UndoAll(saves), r1, m).regs, m);
  }

  /** A table entry, whatever its form and its surroundings, describes the prologue that it was written for. */
  lemma EntryDescribes(setup: Setup, saves: seq<Save>, form: Form, before: seq<u8>, after: seq<u8>, base: u32)
    requires SetupOk(setup) && AllOk(saves) && Fits(form, Code(setup, saves)) && |before| % 4 == 0
    ensures (var e := EntryAt(before + WriteEntry(form, Code(setup, saves)) + after, base, |before|);
             e.Ok? && Describes(Swapped(e.value.instrs.bytes), e.value.instrs.pos, setup, saves))
  {
    hide EntryAt, WriteEntry, Swapped, Header, Code, SaveOk;
    var code := Code(setup, saves);
    EntryReadsBack(form, code, before, after, base);
    var head := Header(form, code);
    var s := Pad(head + code);
    assert s[|head|..|head| + |code|] == code by { assert s[..|head + code|] == head + code; assert s[..|head + code|][|head|..] == code; }
  }

  /**
   The encoding of a prologue, in any form of table entry and whatever surrounds it, read back and interpreted in the body of
   its function, restores all callee-saved registers, the stack pointer and the return address of the caller; also where the
   body has moved its stack pointer freely and finds its frame by a frame register.
   */
  lemma FrameUnwinds(setup: Setup, saves: seq<Save>, form: Form, before: seq<u8>, after: seq<u8>, base: u32, c: Regs, r: Regs, m0: Mem, m: Mem)
    requires SetupOk(setup) && AllOk(saves) && Fits(form, Code(setup, saves)) && |before| % 4 == 0
    requires Wide(r) && InBody(saves, c, AtFrame(setup, r)) && Agree(MemAfter(saves, c, m0), m, AtFrame(setup, r).gp[SP], c.gp[SP])
    ensures (var e := EntryAt(before + WriteEntry(form, Code(setup, saves)) + after, base, |before|);
             e.Ok? && Unwound(Swapped(e.value.instrs.bytes), e.value.instrs.pos, c, r, m))
  {
    hide EntryAt, WriteEntry, Swapped, Code, AllHold, MemAfter, SaveOk, Describes, Unwound, Depths, SomeSaves, SomeSavesDouble, AtFrame;
    EntryDescribes(setup, saves, form, before, after, base);
    var e := EntryAt(before + WriteEntry(form, Code(setup, saves)) + after, base, |before|);
    PrologueHolds(saves, c, m0);
    AllHoldFrame(saves, c, MemAfter(saves, c, m0), m);
    DescribedUnwinds(Swapped(e.value.instrs.bytes), e.value.instrs.pos, setup, saves, c, r, m);
  }

  /** Interpreting the stream leaves the caller's registers, and pc as it was. */
  ghost predicate Unwound(s: seq<u8>, pos: nat, c: Regs, r: Regs, m: Mem)
    requires Wide(r)
  {
    && pos <= |s| && MasksOk(All(s, pos)) && Run(All(s, pos), r, m).Done?
    && Restored(c, Run(All(s, pos), r, m).regs) && Run(All(s, pos), r, m).regs.gp[PC] == r.gp[PC]
  }

  /**
   From bytes, for a function that set register `reg` to its sp + `n` at the end of its saves: the copy to sp, the subtraction and
   what undoes the saves restore the caller's registers.
   */
  lemma FramePointer(saves: seq<Save>, reg: nat, n: nat, c: Regs, r: Regs, m0: Mem, m: Mem)
    requires AllOk(saves) && 4 <= reg <= 11 && 4 <= n <= 0x100 && n % 4 == 0 && Wide(r)
    requires n <= r.gp[reg - 3] && InBody(saves, c, WithSp(r, r.gp[reg - 3] - n))
    requires Agree(MemAfter(saves, c, m0), m, r.gp[reg - 3] - n, c.gp[SP])
    ensures Unwound([0x90 + reg, 0x40 + n / 4 - 1] + EncodeAll(saves), 0, c, r, m)
  {
    hide EncodeAll, AllHold, MemAfter, SaveOk, Unwound, Depths, SomeSaves, SomeSavesDouble;
    var setup := ByReg(reg, n);
    var s := Code(setup, saves);
    assert AtFrame(setup, r) == WithSp(r, r.gp[reg - 3] - n);
    PrologueHolds(saves, c, m0);
    AllHoldFrame(saves, c, MemAfter(saves, c, m0), m);
    assert s[0..|s|] == s;
    DescribedUnwinds(s, 0, setup, saves, c, r, m);
  }

  // ---------- Resuming in the caller ----------

  /** What an undefined pc is marked with. */
  const UNDEFINED: u32 := 0xFFFF_FFFF

  /** The unwinder between two frames: registers, stacklet boundary, stack usage in bytes, and the stacklets freed. */
  datatype Position = Position(regs: Regs, boundary: u32, cumulated: u32, freed: seq<u32>)

  function WithPc(r: Regs, pc: u32): (r': Regs)
    requires Wide(r)
    ensures Wide(r')
  {
    r.(gp := r.gp[PC := pc])
  }

  function ReturnAddress(r: Regs): u32
    requires Wide(r)
  {
    if r.gp[PC] == UNDEFINED then r.gp[LR] else r.gp[PC]
  }

  function Load(m: Mem, at: u32, offset: nat): u32
  {
    var a: int := at;
    m(a + offset)
  }

  /** Back to the stacklet before the one with this boundary. */
  function SwitchStacklet(p: Position, m: Mem): Position
    requires Wide(p.regs)
  {
    var meta := Plus(p.boundary, -128);
    var prevSp := Load(m, meta, 4);
    var size := if SegmentedStack.Padded(Load(m, prevSp, 28)) then 108 else 104;
    var regs := WithPc(p.regs, Plus(Load(m, prevSp, 20), -2));
    Position(WithSp(regs, Plus(prevSp, size)), Load(m, meta, 0), Plus(p.cumulated, 0 - Load(m, meta, 12)), p.freed + [meta])
  }

  /** From the restored registers to the call in the caller. */
  function Resume(p: Position, m: Mem): (p': Position)
    requires Wide(p.regs)
    ensures Wide(p'.regs)
  {
    var pc := ReturnAddress(p.regs);
    if pc == 0 then p.(regs := WithPc(p.regs, 0))
    else if pc == SegmentedStack.LESS_STACK then SwitchStacklet(p, m)
    else p.(regs := WithPc(p.regs, Plus(pc, -2)))
  }

  /** Stepping out of a function that called with no stacklet in between leads to the call in its caller, with the caller's registers. */
  lemma StepReachesCaller(saves: seq<Save>, s: seq<u8>, pos: nat, c: Regs, r: Regs, m: Mem, p: Position)
    requires AllOk(saves) && InBody(saves, c, r) && Unwound(s, pos, c, WithPc(r, UNDEFINED), m)
    requires p.regs == Run(All(s, pos), WithPc(r, UNDEFINED), m).regs && c.gp[LR] != 0 && c.gp[LR] != SegmentedStack.LESS_STACK
    ensures Restored(c, Resume(p, m).regs) && Resume(p, m).regs.gp[PC] == Plus(c.gp[LR], -2)
    ensures Resume(p, m).boundary == p.boundary && Resume(p, m).cumulated == p.cumulated && Resume(p, m).freed == p.freed
  {
    hide Run, All, SomeSaves, SomeSavesDouble, Depths, Plus;
    var back := p.regs;
    assert back.gp[PC] == UNDEFINED && back.gp[LR] == c.gp[LR];
    assert ReturnAddress(back) == c.gp[LR];
    var after := WithPc(back, Plus(c.gp[LR], -2));
    assert Resume(p, m) == p.(regs := after);
    assert forall k {:trigger after.gp[k]} :: 1 <= k <= LR ==> after.gp[k] == back.gp[k];
  }

  /** Stepping over a stacklet is the switch that agrees with a normal return, in bytes instead of words. */
  lemma SwitchInBytes(p: Position, m: Mem, w: SegmentedStack.Mem, bound: nat)
    requires Wide(p.regs) && SegmentedStack.OVERHEAD <= bound <= |w| < 0x3FFF_0000 && p.boundary == 4 * bound
    requires w[bound - 32] < 0x4000_0000 && m(4 * bound - 128) == 4 * w[bound - 32] && m(4 * bound - 116) == w[bound - 29]
    requires (var sp := w[bound - 31];
              && sp + SegmentedStack.TRAP_FRAME <= |w| && m(4 * bound - 124) == 4 * sp
              && m(4 * sp + 20) == w[sp + SegmentedStack.LR] && m(4 * sp + 28) == w[sp + SegmentedStack.XPSR])
    ensures (var u, b := SegmentedStack.UnwinderSwitch(w, bound, p.cumulated), SwitchStacklet(p, m);
             && b.boundary == 4 * u.bound && b.regs.gp[SP] == 4 * u.sp && b.regs.gp[PC] == u.pc
             && b.freed == p.freed + [4 * u.freed] && b.cumulated == u.cumulated % 0x1_0000_0000)
  {
    hide SegmentedStack.Padded;
    var x: int, sp: int := p.boundary, w[bound - 31];
    var meta := Plus(p.boundary, -128);
    assert meta == x - 128;
    assert Load(m, meta, 4) == 4 * sp;
  }

  // ---------- Whole call stacks ----------

  /** Where the table lookup says that the instructions for a program counter are. */
  datatype Found = Found(s: seq<u8>, pos: nat)

  type Table = u32 -> Found

  /** One step of the unwinder, if it does not fail. */
  ghost function StepOnce(p: Position, table: Table, m: Mem): (p': Option<Position>)
    requires Wide(p.regs)
    ensures p'.Some? ==> Wide(p'.value.regs)
  {
    var f := table(p.regs.gp[PC]);
    if p.regs.gp[PC] == 0 || f.pos > |f.s| then None
    else
      AllMasks(f.s, f.pos);
      match Run(All(f.s, f.pos), WithPc(p.regs, UNDEFINED), m)
      case Done(regs) => Some(Resume(p.(regs := regs), m))
      case _ => None
  }

  ghost function Steps(p: Position, n: nat, table: Table, m: Mem): Option<Position>
    requires Wide(p.regs)
    decreases n
  {
    if n == 0 then Some(p)
    else
      match StepOnce(p, table, m)
      case None => None
      case Some(p') => Steps(p', n - 1, table, m)
  }

  /** A function in progress: its prologue, how it finds its frame, and the registers it was entered with. */
  datatype Frame = Frame(setup: Setup, saves: seq<Save>, entry: Regs)

  /** Returning from the function that was entered with these registers, rather than unwinding it. */
  function Returned(p: Position, entry: Regs, m: Mem): (p': Position)
    requires Wide(entry)
    ensures Wide(p'.regs)
  {
    Resume(p.(regs := WithPc(entry, UNDEFINED)), m)
  }

  /** `p` is in the innermost of these functions, each of which was called by the next, on the same stacklet or on another. */
  ghost predicate InCalls(frames: seq<Frame>, p: Position, table: Table, m: Mem)
    requires Wide(p.regs)
  {
    frames == [] ||
    var f := frames[0];
    var found := table(p.regs.gp[PC]);
    && p.regs.gp[PC] != 0
    && SetupOk(f.setup) && AllOk(f.saves) && InBody(f.saves, f.entry, AtFrame(f.setup, p.regs)) && AllHold(f.saves, f.entry, m)
    && Describes(found.s, found.pos, f.setup, f.saves)
    && InCalls(frames[1..], Returned(p, f.entry, m), table, m)
  }

  /** Returning from all of them. */
  ghost function AllReturned(frames: seq<Frame>, p: Position, table: Table, m: Mem): (p': Position)
    requires Wide(p.regs) && InCalls(frames, p, table, m)
    ensures Wide(p'.regs)
  {
    if frames == [] then p else AllReturned(frames[1..], Returned(p, frames[0].entry, m), table, m)
  }

  /** Two positions that differ in r0 at most. */
  ghost predicate Alike(p: Position, q: Position)
  {
    && Wide(p.regs) && Wide(q.regs) && p.regs.dp == q.regs.dp && p.(regs := q.regs) == q
    && forall k {:trigger p.regs.gp[k]} {:trigger q.regs.gp[k]} :: 1 <= k < 12 ==> p.regs.gp[k] == q.regs.gp[k]
  }

  lemma ResumeAlike(p: Position, q: Position, m: Mem)
    requires Alike(p, q)
    ensures Alike(Resume(p, m), Resume(q, m))
  {
    hide Plus, Load, SegmentedStack.Padded;
  }

  /** Whether registers are those of a body does not depend on r0 and pc. */
  lemma BodyAlike(f: Frame, r: Regs, r': Regs)
    requires Wide(r) && Wide(r') && r'.dp == r.dp && forall k {:trigger r'.gp[k]} :: 1 <= k <= LR ==> r'.gp[k] == r.gp[k]
    requires SetupOk(f.setup) && AllOk(f.saves) && InBody(f.saves, f.entry, AtFrame(f.setup, r))
    ensures InBody(f.saves, f.entry, AtFrame(f.setup, r'))
  {
    hide SaveOk, SomeSaves, SomeSavesDouble, Depths, Plus;
    var b, b' := AtFrame(f.setup, r), AtFrame(f.setup, r');
    assert forall k {:trigger b'.gp[k]} :: 1 <= k <= LR ==> b'.gp[k] == b.gp[k];
  }

  lemma InCallsAlike(frames: seq<Frame>, p: Position, q: Position, table: Table, m: Mem)
    requires Alike(p, q) && InCalls(frames, p, table, m)
    ensures InCalls(frames, q, table, m)
    ensures frames != [] ==> AllReturned(frames, q, table, m) == AllReturned(frames, p, table, m)
  {
    hide Resume, AllHold, Describes, SaveOk, SomeSaves, SomeSavesDouble, Depths, Plus;
    if frames != [] {
      assert p.regs.gp[PC] == q.regs.gp[PC] && p.regs.gp[SP] == q.regs.gp[SP];
      var entry := WithPc(frames[0].entry, UNDEFINED);
      assert p.(regs := entry) == q.(regs := entry);
      BodyAlike(frames[0], p.regs, q.regs);
    }
  }

  /** One step is a return. */
  lemma StepReturns(f: Frame, p: Position, table: Table, m: Mem)
    requires Wide(p.regs) && InCalls([f], p, table, m)
    ensures StepOnce(p, table, m).Some? && Alike(StepOnce(p, table, m).value, Returned(p, f.entry, m))
  {
    hide AllHold, Describes, SaveOk, SomeSaves, SomeSavesDouble, Depths, Resume, Run, All;
    var found, r := table(p.regs.gp[PC]), WithPc(p.regs, UNDEFINED);
    BodyAlike(f, p.regs, r);
    DescribedUnwinds(found.s, found.pos, f.setup, f.saves, f.entry, r, m);
    AllMasks(found.s, found.pos);
    var back := Run(All(found.s, found.pos), r, m).regs;
    assert back.gp[PC] == UNDEFINED == WithPc(f.entry, UNDEFINED).gp[PC];
    ResumeAlike(p.(regs := back), p.(regs := WithPc(f.entry, UNDEFINED)), m);
  }

  /** Unwinding a call stack of any depth, over any number of stacklets, leads where returning from all its functions would lead. */
  lemma {:induction false} UnwindsCallStack(frames: seq<Frame>, p: Position, table: Table, m: Mem)
    requires Wide(p.regs) && InCalls(frames, p, table, m)
    ensures Steps(p, |frames|, table, m).Some? && Alike(Steps(p, |frames|, table, m).value, AllReturned(frames, p, table, m))
    decreases |frames|
  {
    hide AllHold, Describes, SaveOk, SomeSaves, SomeSavesDouble, Depths, Resume, StepOnce;
    if frames != [] {
      var f, rest := frames[0], frames[1..];
      assert InCalls([f], p, table, m) by { assert [f][1..] == []; }
      StepReturns(f, p, table, m);
      var next, ideal := StepOnce(p, table, m).value, Returned(p, f.entry, m);
      AlikeBack(next, ideal);
      InCallsAlike(rest, ideal, next, table, m);
      UnwindsCallStack(rest, next, table, m);
    }
  }

  lemma AlikeBack(p: Position, q: Position)
    requires Alike(p, q)
    ensures Alike(q, p)
  {
  }
}
