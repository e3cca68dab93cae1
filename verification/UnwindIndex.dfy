/** From a program counter to the instructions of its function, by the bytes of the index and of the table. */
module UnwindIndex {

  import opened Common
  import opened UnwindStream
  import opened UnwindEncoding
  import opened UnwindTable
  import opened UnwindStep
  import opened Prologue
  import opened Unwinder
  import opened UnwindState

  // ---------- Writing an index ----------

  /** A word as it is stored, low byte first. */
  function WordBytes(w: u32): (r: seq<u8>)
    ensures |r| == 4
  {
    var x: int := w;
    [x % 0x100, x / 0x100 % 0x100, x / 0x1_0000 % 0x100, x / 0x100_0000]
  }

  /** A stored word is read back. */
  lemma WordReadsBack(w: u32)
    ensures LittleEndian(WordBytes(w)) == w
  {
    var x: int := w;
    assert x == x % 0x100 + 0x100 * (x / 0x100);
    assert x / 0x100 == x / 0x100 % 0x100 + 0x100 * (x / 0x1_0000);
  }

  /** What fits into one word behind its first byte. */
  type Few = s: seq<u8> | |s| <= 3

  /** No unwinding; instructions in the index itself; or an entry at an offset in the table. */
  datatype How = Cannot | Here(code: Few) | There(offset: nat)

  datatype Line = Line(func: u32, how: How)

  /** Whether a pointer at `self` can reach the target. */
  predicate Reaches(self: u32, target: u32)
  {
    !(0x4000_0000 <= Distance(self, target) < 0xC000_0000)
  }

  /** A line that can be written at address `self`. */
  predicate LineOk(line: Line, self: u32, extab: seq<u8>, extabBase: u32)
  {
    var b: int := extabBase;
    && self % 4 == 0 && Reaches(self, line.func)
    && (line.how.There? ==>
          && line.how.offset < |extab| && b + line.how.offset < 0x1_0000_0000 && (b + line.how.offset) % 4 == 0
          && Reaches(UnwindTable.At(self, 4), b + line.how.offset))
  }

  function WriteLine(line: Line, self: u32, extab: seq<u8>, extabBase: u32): (r: seq<u8>)
    requires LineOk(line, self, extab, extabBase)
    ensures |r| == 8
  {
    WordBytes(MakePrel31(line.func, self)) +
    match line.how
    case Cannot => WordBytes(1)
    case Here(code) => HereBytes(code)
    case There(offset) => var b: int := extabBase; WordBytes(MakePrel31(b + offset, UnwindTable.At(self, 4)))
  }

  function HereBytes(code: Few): (r: seq<u8>)
    ensures |r| == 4
  {
    WriteEntry(Short, code)
  }

  /** The index at address `base` consists of these lines. */
  ghost predicate Written(exidx: seq<u8>, base: u32, lines: seq<Line>, extab: seq<u8>, extabBase: u32)
  {
    && |exidx| == 8 * |lines|
    && forall i :: 0 <= i < |lines| ==> LineWritten(exidx, base, lines, i, extab, extabBase)
  }

  ghost predicate LineWritten(exidx: seq<u8>, base: u32, lines: seq<Line>, i: nat, extab: seq<u8>, extabBase: u32)
    requires |exidx| == 8 * |lines| && i < |lines|
  {
    var self := UnwindTable.At(base, 8 * i);
    LineOk(lines[i], self, extab, extabBase) && exidx[8 * i..8 * i + 8] == WriteLine(lines[i], self, extab, extabBase)
  }

  /** What a line says. */
  function Said(line: Line, extab: seq<u8>, extabBase: u32): Result<Ability>
  {
    match line.how
    case Cannot => UnwindTable.Ok(CantUnwind)
    case Here(code) => UnwindTable.Ok(CanUnwind(line.func, Compact(0), Instructions(HereBytes(code), 1), None))
    case There(offset) =>
      match EntryAt(extab, extabBase, offset)
      case Ok(e) => UnwindTable.Ok(CanUnwind(line.func, e.personality, e.instrs, Some(e.lsda)))
      case Err => Err
      case Panic => Panic
  }

  // ---------- Reading it back ----------

  lemma HereReadsBack(code: Few)
    ensures Swapped(HereBytes(code)) == Pad([0x80] + code)
    ensures HereBytes(code)[3] == 0x80
  {
    var s := Pad([0x80] + code);
    SwapTwice(s);
    assert HereBytes(code) == Swapped(s);
    FirstBytes(s);
    assert s[0] == ([0x80] + code)[0];
  }

  /** A word is negative as a whole by its last byte, which also holds the index of the personality. */
  lemma HighByte(word: seq<u8>)
    requires |word| == 4
    ensures MsbSet(LittleEndian(word)) <==> word[3] >= 0x80
    ensures LittleEndian(word) / 0x100_0000 == word[3]
  {
  }

  lemma ContentBack(line: Line, self: u32, extab: seq<u8>, extabBase: u32)
    requires LineOk(line, self, extab, extabBase)
    ensures (var c := ContentOf(WriteLine(line, self, extab, extabBase)[4..], UnwindTable.At(self, 4));
             match line.how
             case Cannot => c == Never
             case Here(code) => c == Inline(Compact(0), Instructions(HereBytes(code), 1))
             case There(offset) => var b: int := extabBase; c == InTable(b + offset))
  {
    hide LittleEndian, WordBytes, Prel31, MakePrel31, HereBytes, WriteEntry;
    var word := WriteLine(line, self, extab, extabBase)[4..];
    match line.how
    case Cannot =>
      WordReadsBack(1);
    case Here(code) =>
      HereReadsBack(code);
      HighByte(word);
    case There(offset) =>
      var b: int := extabBase;
      var at := UnwindTable.At(self, 4);
      var raw := MakePrel31(b + offset, at);
      WordReadsBack(raw);
      assert Prel31(raw, at) == b + offset by { Prel31ReachesIff(b + offset, at); }
      NotOne(b + offset, at);
  }

  lemma NotOne(target: u32, self: u32)
    requires target % 4 == 0 && self % 4 == 0
    ensures MakePrel31(target, self) != 1
  {
  }

  lemma AtAt(base: u32, i: nat)
    ensures UnwindTable.At(base, 8 * i + 4) == UnwindTable.At(UnwindTable.At(base, 8 * i), 4)
  {
  }

  /** The bytes of an index are read back to its lines. */
  lemma LineReadsBack(exidx: seq<u8>, base: u32, lines: seq<Line>, i: nat, extab: seq<u8>, extabBase: u32)
    requires |exidx| == 8 * |lines| && i < |lines| && LineWritten(exidx, base, lines, i, extab, extabBase)
    ensures FuncAddr(exidx, base, i) == lines[i].func
    ensures AbilityAt(exidx, base, i, extab, extabBase) == Said(lines[i], extab, extabBase)
  {
    hide LittleEndian, WordBytes, Prel31, HereBytes, ContentOf, UnwindTable.At, EntryAt, MakePrel31, LineOk;
    var line, self := lines[i], UnwindTable.At(base, 8 * i);
    var written := WriteLine(line, self, extab, extabBase);
    assert exidx[8 * i..8 * i + 4] == exidx[8 * i..8 * i + 8][..4] == WordBytes(MakePrel31(line.func, self));
    assert exidx[8 * i + 4..8 * i + 8] == exidx[8 * i..8 * i + 8][4..] == written[4..];
    WordReadsBack(MakePrel31(line.func, self));
    assert Prel31(MakePrel31(line.func, self), self) == line.func by { Prel31ReachesIff(line.func, self); ReachesSelf(line, self, extab, extabBase); }
    AtAt(base, i);
    ContentBack(line, self, extab, extabBase);
    OffsetFits(line, self, extab, extabBase);
  }

  lemma ReachesSelf(line: Line, self: u32, extab: seq<u8>, extabBase: u32)
    requires LineOk(line, self, extab, extabBase)
    ensures Reaches(self, line.func)
  {
  }

  lemma OffsetFits(line: Line, self: u32, extab: seq<u8>, extabBase: u32)
    requires LineOk(line, self, extab, extabBase)
    ensures line.how.There? ==> line.how.offset < |extab| && (var b: int := extabBase; b + line.how.offset < 0x1_0000_0000)
  {
  }

  /** The functions are listed by rising address. */
  ghost predicate Rising(lines: seq<Line>)
  {
    forall i, j :: 0 <= i < j < |lines| ==> lines[i].func <= lines[j].func
  }

  /** `i` is the line of the function that holds `pc`. */
  ghost predicate Holds(lines: seq<Line>, pc: u32, i: nat)
  {
    i < |lines| && lines[i].func <= pc && forall j :: i < j < |lines| ==> pc < lines[j].func
  }

  /** Looking a program counter up in the bytes finds just what the line of its function says. */
  lemma LookupIs(exidx: seq<u8>, base: u32, lines: seq<Line>, pc: u32, i: nat, extab: seq<u8>, extabBase: u32, ability: Ability)
    requires Written(exidx, base, lines, extab, extabBase) && Rising(lines) && Holds(lines, pc, i)
    ensures Looked(pc, exidx, base, extab, extabBase, ability) <==> Said(lines[i], extab, extabBase) == UnwindTable.Ok(ability)
    ensures Unlisted(pc, exidx, base, extab, extabBase) <==> !Said(lines[i], extab, extabBase).Ok?
  {
    hide FuncAddr, AbilityAt, LineOk, WriteLine, LineWritten, EntryAt, HereBytes, Said;
    forall k: nat | k < |lines|
      ensures FuncAddr(exidx, base, k) == lines[k].func && AbilityAt(exidx, base, k, extab, extabBase) == Said(lines[k], extab, extabBase)
    {
      LineReadsBack(exidx, base, lines, k, extab, extabBase);
    }
    assert Brackets(exidx, base, pc, i);
    forall k: nat | Brackets(exidx, base, pc, k) ensures k == i {
      BracketsIsLast(exidx, base, pc, k);
    }
  }

  /** Line `i` is for a function with this prologue: its instructions are in the index, or in the table in any form of entry. */
  ghost predicate Lists(line: Line, setup: Setup, saves: seq<Save>, extab: seq<u8>)
    requires SetupOk(setup) && AllOk(saves)
  {
    match line.how
    case Cannot => false
    case Here(code) => code == Code(setup, saves)
    case There(offset) => offset % 4 == 0 && exists form, after :: EntryStands(extab, offset, form, setup, saves, after)
  }

  ghost predicate EntryStands(extab: seq<u8>, offset: nat, form: Form, setup: Setup, saves: seq<Save>, after: seq<u8>)
    requires SetupOk(setup) && AllOk(saves)
  {
    Fits(form, Code(setup, saves)) && offset <= |extab| && extab == extab[..offset] + WriteEntry(form, Code(setup, saves)) + after
  }

  /**
   From the bytes of index and table, looking up a program counter in a function with any prologue succeeds, with instructions
   that describe this prologue.
   */
  lemma LookupDescribes(exidx: seq<u8>, base: u32, lines: seq<Line>, pc: u32, i: nat, extab: seq<u8>, extabBase: u32,
                        setup: Setup, saves: seq<Save>, ability: Ability)
    requires Written(exidx, base, lines, extab, extabBase) && Rising(lines) && Holds(lines, pc, i)
    requires SetupOk(setup) && AllOk(saves) && Lists(lines[i], setup, saves, extab)
    ensures !Unlisted(pc, exidx, base, extab, extabBase)
    ensures Looked(pc, exidx, base, extab, extabBase, ability)
            ==> ability.CanUnwind? && ability.func == lines[i].func && |ability.instrs.bytes| % 4 == 0
                && Describes(Swapped(ability.instrs.bytes), ability.instrs.pos, setup, saves)
  {
    hide EntryAt, HereBytes, Written, Swapped, Describes, Looked, Unlisted, WriteEntry, Code, SaveOk;
    LookupIs(exidx, base, lines, pc, i, extab, extabBase, ability);
    match lines[i].how
    case Here(code) =>
      HereDescribes(setup, saves);
    case There(offset) =>
      var form, after :| EntryStands(extab, offset, form, setup, saves, after);
      EntryDescribes(setup, saves, form, extab[..offset], after, extabBase);
  }

  lemma HereDescribes(setup: Setup, saves: seq<Save>)
    requires SetupOk(setup) && AllOk(saves) && |Code(setup, saves)| <= 3
    ensures Describes(Swapped(HereBytes(Code(setup, saves))), 1, setup, saves)
  {
    hide Code, SaveOk, Swapped, HereBytes;
    var code := Code(setup, saves);
    HereReadsBack(code);
    var s := Pad([0x80] + code);
    assert s[1..1 + |code|] == code by { assert s[..|[0x80] + code|] == [0x80] + code; assert s[..1 + |code|][1..] == code; }
  }

  /** The table that unwinding goes by, as it is read from the bytes. */
  ghost function Reading(exidx: seq<u8>, base: u32, extab: seq<u8>, extabBase: u32): Table
  {
    (pc: u32) => ReadAt(pc, exidx, base, extab, extabBase)
  }

  ghost function ReadAt(pc: u32, exidx: seq<u8>, base: u32, extab: seq<u8>, extabBase: u32): Found
  {
    if exists a :: Instructed(pc, exidx, base, extab, extabBase, a) then
      var a :| Instructed(pc, exidx, base, extab, extabBase, a);
      Found(Swapped(a.instrs.bytes), a.instrs.pos)
    else Found([], 1)
  }

  ghost predicate Instructed(pc: u32, exidx: seq<u8>, base: u32, extab: seq<u8>, extabBase: u32, a: Ability)
  {
    Looked(pc, exidx, base, extab, extabBase, a) && a.CanUnwind? && |a.instrs.bytes| % 4 == 0
  }

  /** A call stack in which every function in progress has its line in the index. */
  ghost predicate AllListed(frames: seq<Frame>, p: Position, lines: seq<Line>, extab: seq<u8>, m: Mem)
    requires Wide(p.regs)
  {
    frames == [] ||
    var f := frames[0];
    && p.regs.gp[PC] != 0
    && SetupOk(f.setup) && AllOk(f.saves) && InBody(f.saves, f.entry, AtFrame(f.setup, p.regs)) && AllHold(f.saves, f.entry, m)
    && (exists i: nat :: Holds(lines, p.regs.gp[PC], i) && Lists(lines[i], f.setup, f.saves, extab))
    && AllListed(frames[1..], Returned(p, f.entry, m), lines, extab, m)
  }

  lemma {:induction false} ListedInCalls(frames: seq<Frame>, p: Position, exidx: seq<u8>, base: u32, lines: seq<Line>,
                                         extab: seq<u8>, extabBase: u32, m: Mem)
    requires Written(exidx, base, lines, extab, extabBase) && Rising(lines)
    requires Wide(p.regs) && AllListed(frames, p, lines, extab, m)
    ensures InCalls(frames, p, Reading(exidx, base, extab, extabBase), m)
    decreases |frames|
  {
    hide AllHold, Describes, SaveOk, SomeSaves, SomeSavesDouble, Depths, Plus, Written, Lists, Looked, Unlisted, Returned, AtFrame, Swapped;
    if frames != [] {
      var f := frames[0];
      var pc := p.regs.gp[PC];
      var i: nat :| Holds(lines, pc, i) && Lists(lines[i], f.setup, f.saves, extab);
      ReadDescribes(exidx, base, lines, pc, i, extab, extabBase, f.setup, f.saves);
      ListedInCalls(frames[1..], Returned(p, f.entry, m), exidx, base, lines, extab, extabBase, m);
    }
  }

  lemma ReadDescribes(exidx: seq<u8>, base: u32, lines: seq<Line>, pc: u32, i: nat, extab: seq<u8>, extabBase: u32,
                      setup: Setup, saves: seq<Save>)
    requires Written(exidx, base, lines, extab, extabBase) && Rising(lines) && Holds(lines, pc, i)
    requires SetupOk(setup) && AllOk(saves) && Lists(lines[i], setup, saves, extab)
    ensures (var found := ReadAt(pc, exidx, base, extab, extabBase); Describes(found.s, found.pos, setup, saves))
  {
    hide Written, Swapped, Describes, Looked, Unlisted, Lists, SaveOk, Said;
    LookupIs(exidx, base, lines, pc, i, extab, extabBase, CantUnwind);
    LookupDescribes(exidx, base, lines, pc, i, extab, extabBase, setup, saves, CantUnwind);
    forall a ensures Looked(pc, exidx, base, extab, extabBase, a)
        ==> a.CanUnwind? && |a.instrs.bytes| % 4 == 0 && Describes(Swapped(a.instrs.bytes), a.instrs.pos, setup, saves) {
      LookupDescribes(exidx, base, lines, pc, i, extab, extabBase, setup, saves, a);
    }
    var said := Said(lines[i], extab, extabBase);
    LookupIs(exidx, base, lines, pc, i, extab, extabBase, said.value);
    assert Instructed(pc, exidx, base, extab, extabBase, said.value);
  }

  /**
   From the bytes of index and table alone: unwinding a call stack of any depth, over any number of stacklets, leads where
   returning from all its functions would lead.
   */
  lemma UnwindsFromBytes(frames: seq<Frame>, p: Position, exidx: seq<u8>, base: u32, lines: seq<Line>,
                         extab: seq<u8>, extabBase: u32, m: Mem)
    requires Written(exidx, base, lines, extab, extabBase) && Rising(lines)
    requires Wide(p.regs) && AllListed(frames, p, lines, extab, m)
    ensures (var table := Reading(exidx, base, extab, extabBase);
             && InCalls(frames, p, table, m) && Steps(p, |frames|, table, m).Some?
             && Alike(Steps(p, |frames|, table, m).value, AllReturned(frames, p, table, m)))
  {
    ListedInCalls(frames, p, exidx, base, lines, extab, extabBase, m);
    UnwindsCallStack(frames, p, Reading(exidx, base, extab, extabBase), m);
  }
}
