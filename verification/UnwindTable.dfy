/**
 The exception index and the exception table (sections 6 and 7 of the Exception Handling ABI for the Arm Architecture):
 finding the entry for a program counter, and the unwind instructions of an entry.
 */
module UnwindTable {

  import opened Common
  import opened UnwindStream

  /** `Panic` is an access out of bounds. */
  datatype Result<T> = Ok(value: T) | Err | Panic

  function LittleEndian(b: seq<u8>): (r: u32)
    requires |b| == 4
  {
    Word(b[0], b[1], b[2], b[3])
  }

  function Word(b0: u8, b1: u8, b2: u8, b3: u8): u32
  {
    var x0: int, x1: int, x2: int, x3: int := b0, b1, b2, b3;
    x0 + 0x100 * x1 + 0x1_0000 * x2 + 0x100_0000 * x3
  }

  /** Each stored word is read from its high byte to its low one. */
  lemma HighByteFirst(bytes: seq<u8>, k: nat)
    requires |bytes| % 4 == 0 && 4 * k < |bytes|
    ensures (var s, n: int := Swapped(bytes), LittleEndian(bytes[4 * k..4 * k + 4]);
             s[4 * k] == n / 0x100_0000 && s[4 * k + 1] == n / 0x1_0000 % 0x100 && s[4 * k + 2] == n / 0x100 % 0x100 && s[4 * k + 3] == n % 0x100)
  {
    forall i | 4 * k <= i < 4 * k + 4 ensures Swapped(bytes)[i] == bytes[4 * k + 3 - i % 4] {
      assert i / 4 == k;
    }
    var w := bytes[4 * k..4 * k + 4];
    Digits(w[0], w[1], w[2], w[3]);
  }

  lemma Digits(b0: u8, b1: u8, b2: u8, b3: u8)
    ensures (var n: int := Word(b0, b1, b2, b3);
             n / 0x100_0000 == b3 && n / 0x1_0000 % 0x100 == b2 && n / 0x100 % 0x100 == b1 && n % 0x100 == b0)
  {
    var x0: int, x1: int, x2: int, x3: int := b0, b1, b2, b3;
    var n: int := Word(b0, b1, b2, b3);
    Parts(n, 0x100_0000, x3, x0 + 0x100 * x1 + 0x1_0000 * x2);
    Parts(n, 0x1_0000, x2 + 0x100 * x3, x0 + 0x100 * x1);
    Parts(n, 0x100, x1 + 0x100 * x2 + 0x1_0000 * x3, x0);
    Parts(x2 + 0x100 * x3, 0x100, x3, x2);
    Parts(x1 + 0x100 * x2 + 0x1_0000 * x3, 0x100, x2 + 0x100 * x3, x1);
  }

  lemma Parts(n: int, d: int, high: int, low: int)
    requires d > 0 && n == d * high + low && 0 <= low < d
    ensures n / d == high && n % d == low
  {
    var q := n / d;
    assert d * (q - high) == low - n % d by { assert d * (q - high) == d * q - d * high; }
    assert d * (high - q) == -(d * (q - high));
    if q > high { AtLeast(d, q - high); }
    if q < high { AtLeast(d, high - q); }
  }

  lemma AtLeast(d: int, k: int)
    requires d > 0 && k > 0
    ensures d * k >= d
  {
  }

  // ---------- Self-relative pointers ----------

  /** The signed value of the low 31 bits. */
  function Offset(raw: u32): (r: int)
    ensures -0x4000_0000 <= r < 0x4000_0000
  {
    var low: int := raw % 0x8000_0000;
    if low < 0x4000_0000 then low else low - 0x8000_0000
  }

  function Prel31(raw: u32, self: u32): u32
  {
    var a: int := self;
    (a + Offset(raw)) % 0x1_0000_0000
  }

  predicate MsbSet(raw: u32) { raw >= 0x8000_0000 }

  /** The pointer at `self` to `target`, with bit 31 clear. */
  function MakePrel31(target: u32, self: u32): (r: u32)
    ensures !MsbSet(r)
  {
    var t: int, a: int := target, self;
    (t - a) % 0x8000_0000
  }

  /** How far up `to` is from `from`, in an address space that wraps around. */
  function Distance(from: u32, to: u32): u32
  {
    var t: int, a: int := to, from;
    (t - a) % 0x1_0000_0000
  }

  /** A pointer reaches a target exactly if it is less than 2^30 bytes up or at most 2^30 bytes down. */
  lemma Prel31ReachesIff(target: u32, self: u32)
    ensures Prel31(MakePrel31(target, self), self) == target <==> !(0x4000_0000 <= Distance(self, target) < 0xC000_0000)
  {
    var t: int, a: int := target, self;
    var d := (t - a) % 0x8000_0000;
    assert Offset(MakePrel31(target, self)) == if d < 0x4000_0000 then d else d - 0x8000_0000;
  }

  // ---------- Index entries ----------

  /** The address of the function that entry `i` describes; the index is at address `base`. */
  function FuncAddr(exidx: seq<u8>, base: u32, i: nat): u32
    requires 8 * i + 4 <= |exidx|
  {
    Prel31(LittleEndian(exidx[8 * i..8 * i + 4]), At(base, 8 * i))
  }

  function At(base: u32, offset: nat): u32
  {
    var b: int := base;
    (b + offset) % 0x1_0000_0000
  }

  ghost predicate Sorted(exidx: seq<u8>, base: u32)
    requires |exidx| % 8 == 0
  {
    forall i, j :: 0 <= i < j < |exidx| / 8 ==> FuncAddr(exidx, base, i) <= FuncAddr(exidx, base, j)
  }

  /** Entry `i` starts at or before `pc`, and the one after it does not. */
  ghost predicate Brackets(exidx: seq<u8>, base: u32, pc: u32, i: nat)
    requires |exidx| % 8 == 0
  {
    i < |exidx| / 8 && FuncAddr(exidx, base, i) <= pc && (i + 1 < |exidx| / 8 ==> pc < FuncAddr(exidx, base, i + 1))
  }

  /** In a sorted index only the last entry at or before `pc` brackets it. */
  lemma BracketsIsLast(exidx: seq<u8>, base: u32, pc: u32, i: nat)
    requires |exidx| % 8 == 0 && Sorted(exidx, base) && i < |exidx| / 8
    ensures Brackets(exidx, base, pc, i)
            <==> FuncAddr(exidx, base, i) <= pc && forall j :: i < j < |exidx| / 8 ==> pc < FuncAddr(exidx, base, j)
  {
    hide Prel31, LittleEndian, FuncAddr;
    if Brackets(exidx, base, pc, i) {
      forall j | i < j < |exidx| / 8 ensures pc < FuncAddr(exidx, base, j) {
        assert i + 1 < j ==> FuncAddr(exidx, base, i + 1) <= FuncAddr(exidx, base, j);
      }
    }
  }

  /** The entry for `pc`; it is found exactly if the index is well formed and `pc` does not precede it. */
  method Search(pc: u32, exidx: seq<u8>, base: u32) returns (r: Result<nat>)
    ensures r.Ok? ==> |exidx| % 8 == 0 && Brackets(exidx, base, pc, r.value)
    ensures r.Ok? <==> |exidx| % 8 == 0 && |exidx| > 0 && FuncAddr(exidx, base, 0) <= pc
    ensures r.Ok? || r.Err?
    ensures r.Ok? && Sorted(exidx, base) ==> forall j :: r.value < j < |exidx| / 8 ==> pc < FuncAddr(exidx, base, j)
  {
    hide Prel31, LittleEndian, FuncAddr;
    if |exidx| % 8 != 0 {
      return Err;
    }
    if |exidx| == 0 {
      return Err;
    }
    var first, last := 0, |exidx| - 8;
    if pc < FuncAddr(exidx, base, first / 8) {
      return Err;
    }
    if pc >= FuncAddr(exidx, base, last / 8) {
      return Ok(last / 8);
    }
    while first < last - 8
      invariant first % 8 == 0 && last % 8 == 0 && 0 <= first && first + 8 <= last <= |exidx| - 8
      invariant FuncAddr(exidx, base, first / 8) <= pc < FuncAddr(exidx, base, last / 8)
      decreases last - first
    {
      var mid := first + ((last - first) / 8 + 1) / 2 * 8;
      if pc < FuncAddr(exidx, base, mid / 8) {
        last := mid;
      } else {
        first := mid;
      }
    }
    r := Ok(first / 8);
    if Sorted(exidx, base) { BracketsIsLast(exidx, base, pc, first / 8); }
  }

  /** The instruction bytes, and where in them to start reading. */
  datatype Instructions = Instructions(bytes: seq<u8>, pos: nat)

  datatype Personality = Compact(selector: nat) | Generic(address: u32)

  datatype Content = InTable(addr: u32) | Inline(personality: Personality, instrs: Instructions) | Never

  /** The second word of an index entry. */
  function ContentOf(word: seq<u8>, self: u32): Content
    requires |word| == 4
  {
    var raw := LittleEndian(word);
    if raw == 1 then Never
    else if MsbSet(raw) then Inline(Compact(raw / 0x100_0000 % 16), Instructions(word, 1))
    else InTable(Prel31(raw, self))
  }

  /** An entry of the exception table: personality, instructions, and where the language-specific data starts. */
  datatype Entry = Entry(personality: Personality, instrs: Instructions, lsda: nat)

  /** The entry at `offset` of the table at address `base`. */
  function EntryAt(extab: seq<u8>, base: u32, offset: nat): (r: Result<Entry>)
    ensures r.Ok? ==> |r.value.instrs.bytes| % 4 == 0 && 0 < r.value.instrs.pos <= |r.value.instrs.bytes| && r.value.lsda <= |extab|
    ensures r.Ok? ==> |r.value.instrs.bytes| <= r.value.lsda - offset && r.value.instrs.bytes == extab[r.value.lsda - |r.value.instrs.bytes|..r.value.lsda]
  {
    if offset % 4 != 0 then Err
    else if offset + 4 > |extab| then Panic
    else if extab[offset + 3] >= 0x80 then
      var selector := extab[offset + 3] % 16;
      if selector == 1 || selector == 2 then
        var extra: int := extab[offset + 2];
        var end := offset + 4 + 4 * extra;
        if end > |extab| then Panic else Ok(Entry(Compact(selector), Instructions(extab[offset..end], 2), end))
      else if selector == 0 then Ok(Entry(Compact(0), Instructions(extab[offset..offset + 4], 1), offset + 4))
      else Err
    else if offset + 8 > |extab| then Panic
    else
      var personality := Generic(Prel31(LittleEndian(extab[offset..offset + 4]), At(base, offset)));
      var extra: int := extab[offset + 7];
      var end := offset + 8 + 4 * extra;
      if end > |extab| then Panic else Ok(Entry(personality, Instructions(extab[offset + 4..end], 1), end))
  }

  /** How a frame can be unwound. */
  datatype Ability = CantUnwind | CanUnwind(func: u32, personality: Personality, instrs: Instructions, lsda: Option<nat>)

  /** What entry `i` of the index says. */
  function AbilityAt(exidx: seq<u8>, base: u32, i: nat, extab: seq<u8>, extabBase: u32): (r: Result<Ability>)
    requires 8 * i + 8 <= |exidx|
    ensures r.Ok? && r.value.CanUnwind? ==> |r.value.instrs.bytes| % 4 == 0 && 0 < r.value.instrs.pos <= |r.value.instrs.bytes|
  {
    var func := FuncAddr(exidx, base, i);
    if MsbSet(LittleEndian(exidx[8 * i..8 * i + 4])) then Err
    else
      match ContentOf(exidx[8 * i + 4..8 * i + 8], At(base, 8 * i + 4))
      case Never => Ok(CantUnwind)
      case Inline(personality, instrs) => Ok(CanUnwind(func, personality, instrs, None))
      case InTable(addr) =>
        if extab == [] || addr < extabBase then Panic
        else
          match EntryAt(extab, extabBase, addr - extabBase)
          case Ok(e) => Ok(CanUnwind(func, e.personality, e.instrs, Some(e.lsda)))
          case Err => Err
          case Panic => Panic
  }

  // ---------- Writing entries ----------

  /** `s` with "finish" instructions up to a multiple of four. */
  function Pad(s: seq<u8>): (r: seq<u8>)
    ensures |r| % 4 == 0 && |s| <= |r| < |s| + 4 && r[..|s|] == s
    ensures forall k :: |s| <= k < |r| ==> r[k] == 0xb0
  {
    s + seq((4 - |s| % 4) % 4, _ => 0xb0)
  }

  /** The ways to store instructions. */
  datatype Form = Short | Long(selector: nat) | WithPersonality(word: seq<u8>)

  /** The number of additional words. */
  function Extra(form: Form, instrs: seq<u8>): nat
  {
    match form
    case Short => 0
    case Long(_) => (|instrs| + 1) / 4
    case WithPersonality(_) => |instrs| / 4
  }

  /** Whether the instructions fit. */
  predicate Fits(form: Form, instrs: seq<u8>)
  {
    match form
    case Short => |instrs| <= 3
    case Long(selector) => (selector == 1 || selector == 2) && Extra(form, instrs) <= 255
    case WithPersonality(word) => |word| == 4 && word[3] < 0x80 && Extra(form, instrs) <= 255
  }

  /** The bytes before the instructions, in reading order. */
  function Header(form: Form, instrs: seq<u8>): (r: seq<u8>)
    requires Fits(form, instrs)
    ensures |r| == if form.Long? then 2 else 1
  {
    match form
    case Short => [0x80]
    case Long(selector) => [0x80 + selector, Extra(form, instrs)]
    case WithPersonality(_) => [Extra(form, instrs)]
  }

  function WriteEntry(form: Form, instrs: seq<u8>): seq<u8>
    requires Fits(form, instrs)
  {
    (if form.WithPersonality? then form.word else []) + Swapped(Pad(Header(form, instrs) + instrs))
  }

  /** Whatever surrounds an entry, it is parsed to the instructions it was written for, and the data behind it. */
  lemma EntryReadsBack(form: Form, instrs: seq<u8>, before: seq<u8>, after: seq<u8>, base: u32)
    requires Fits(form, instrs) && |before| % 4 == 0
    ensures (var r := EntryAt(before + WriteEntry(form, instrs) + after, base, |before|);
             && r.Ok? && Swapped(r.value.instrs.bytes) == Pad(Header(form, instrs) + instrs)
             && r.value.instrs.pos == |Header(form, instrs)| && r.value.lsda == |before| + |WriteEntry(form, instrs)|)
  {
    hide Swapped;
    var stream := Pad(Header(form, instrs) + instrs);
    var stored, entry := Swapped(stream), WriteEntry(form, instrs);
    var extab := before + entry + after;
    StreamLength(form, instrs);
    SwapTwice(stream);
    FirstBytes(stream);
    assert extab[|before|..|before| + |entry|] == entry;
    if form.WithPersonality? {
      assert extab[|before| + 3] == form.word[3] && extab[|before| + 7] == stored[3];
      assert extab[|before| + 4..|before| + |entry|] == stored;
    } else {
      assert extab[|before| + 3] == stored[3] && extab[|before| + 2] == stored[2];
      assert entry == stored;
    }
  }

  lemma StreamLength(form: Form, instrs: seq<u8>)
    requires Fits(form, instrs)
    ensures |Pad(Header(form, instrs) + instrs)| == 4 + 4 * Extra(form, instrs)
    ensures Pad(Header(form, instrs) + instrs)[..|Header(form, instrs)|] == Header(form, instrs)
  {
    var h := Header(form, instrs);
    assert (h + instrs)[..|h|] == h;
    assert Pad(h + instrs)[..|h + instrs|][..|h|] == h;
  }

  lemma FirstBytes(stream: seq<u8>)
    requires |stream| % 4 == 0 && |stream| > 0
    ensures Swapped(stream)[3] == stream[0] && Swapped(stream)[2] == stream[1]
  {
  }
}
