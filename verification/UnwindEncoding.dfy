/** How an assembler encodes what a prologue did to the stack, and that the decoder reads it back. */
module UnwindEncoding {

  import opened Common
  import Bits
  import opened UnwindStream
  import opened UnwindInstruction

  /** One instruction of a prologue; `PushRange` pushes r4 to r[4 + n], perhaps with lr, and has a shorter encoding. */
  datatype Save = PushList(mask: seq<bool>) | PushRange(n: nat, lr: bool) | Sub(bytes: nat) | Vfp(start: nat, count: nat)

  /** Registers r4 to r11 and lr, a stack adjustment in words, or d8 to d15. */
  ghost predicate SaveOk(save: Save)
  {
    match save
    case PushList(mask) => |mask| == 16 && (exists i :: 4 <= i < 16 && mask[i]) && forall i :: 0 <= i < 16 && mask[i] ==> 4 <= i <= 11 || i == 14
    case PushRange(n, _) => n < 8
    case Sub(bytes) => 4 <= bytes < 0x1_0000_0000 && bytes % 4 == 0
    case Vfp(start, count) => 8 <= start && 1 <= count && start + count <= 16
  }

  function EncodeUleb(n: nat): (r: seq<u8>)
    ensures |r| > 0
  {
    if n < 128 then [n] else [n % 128 + 128] + EncodeUleb(n / 128)
  }

  /** The bytes that undo a save. */
  function Encode(save: Save): (r: seq<u8>)
    requires SaveOk(save)
  {
    match save
    case PushList(mask) => Halves(mask); [0x80 + Bits.Number(mask[12..16]), Bits.Number(mask[4..12])]
    case PushRange(n, lr) => [(if lr then 0xa8 else 0xa0) + n]
    case Sub(bytes) =>
      if bytes <= 0x100 then [bytes / 4 - 1]
      else if bytes <= 0x200 then [0x3f, bytes / 4 - 65]
      else [0xb2] + EncodeUleb((bytes - 0x204) / 4)
    case Vfp(start, count) => [0xc9, start * 16 + count - 1]
  }

  lemma Halves(mask: seq<bool>)
    requires |mask| == 16
    ensures Bits.Number(mask[12..16]) < 16 && Bits.Number(mask[4..12]) < 256
  {
    Bits.NumberFits(mask[12..16]);
    Bits.NumberFits(mask[4..12]);
    assert Bits.Pow2(4) == 16 && Bits.Pow2(8) == 256;
  }

  /** The instructions that undo a save. */
  function Undo(save: Save): seq<Instr>
    requires SaveOk(save)
  {
    match save
    case PushList(mask) => [RegPop(mask)]
    case PushRange(n, lr) => [RegPop(ShortMask(n, lr))]
    case Sub(bytes) => if 0x100 < bytes <= 0x200 then [DataPop(0x100), DataPop(bytes - 0x100)] else [DataPop(bytes)]
    case Vfp(start, count) => [VfpPop(start, count)]
  }

  /** A prologue is undone from its end. */
  function EncodeAll(saves: seq<Save>): seq<u8>
    requires forall i :: 0 <= i < |saves| ==> SaveOk(saves[i])
  {
    if saves == [] then [] else Encode(saves[|saves| - 1]) + EncodeAll(saves[..|saves| - 1])
  }

  function UndoAll(saves: seq<Save>): seq<Instr>
    requires forall i :: 0 <= i < |saves| ==> SaveOk(saves[i])
  {
    if saves == [] then [] else Undo(saves[|saves| - 1]) + UndoAll(saves[..|saves| - 1])
  }

  /** The instructions from `pos` on, with an error where the stream ends within one. */
  function All(s: seq<u8>, pos: nat): seq<Instr>
    requires pos <= |s|
    decreases |s| - pos
  {
    match Decode(s, pos)
    case End => []
    case CutOff => [Error]
    case One(instr, next) => [instr] + All(s, next)
  }

  ghost predicate At(s: seq<u8>, pos: nat, part: seq<u8>)
  {
    pos + |part| <= |s| && s[pos..pos + |part|] == part
  }

  // ---------- Reading back ----------

  /** A uleb128 number that fits into what is left of the 32 digits is read back. */
  lemma {:induction false} UlebReadsBack(s: seq<u8>, pos: nat, n: nat, acc: seq<bool>, shift: nat)
    requires At(s, pos, EncodeUleb(n)) && |acc| == 32 && shift <= 31 && n < Bits.Pow2(32 - shift)
    requires forall i :: shift <= i < 32 ==> !acc[i]
    ensures Uleb(s, pos, acc, shift) == Some((acc[..shift] + Bits.Of(n, 32 - shift), pos + |EncodeUleb(n)|))
    decreases n
  {
    hide Bits.Of, Bits.Pow2;
    var enc := EncodeUleb(n);
    assert s[pos] == enc[0] by { assert s[pos..pos + |enc|][0] == s[pos]; }
    if n < 128 {
      LastDigits(n, acc, shift);
    } else {
      Room(n, 32 - shift);
      NextDigits(n % 128, acc, shift);
      var acc' := Added(acc, s[pos], shift);
      assert enc[1..] == EncodeUleb(n / 128);
      assert s[pos + 1..pos + |enc|] == s[pos..pos + |enc|][1..];
      UlebReadsBack(s, pos + 1, n / 128, acc', shift + 7);
      Bits.Sevens(n, 25 - shift);
      assert acc[..shift] + Bits.Of(n, 32 - shift) == acc'[..shift + 7] + Bits.Of(n / 128, 25 - shift);
    }
  }

  lemma Room(n: nat, k: nat)
    requires 128 <= n < Bits.Pow2(k)
    ensures k > 7 && n / 128 < Bits.Pow2(k - 7)
  {
    if k <= 7 {
      assert Bits.Pow2(7) == 128;
      Grows(k, 7);
      assert false;
    }
    var j := k - 7;
    assert Bits.Pow2(j + 7) == 2 * Bits.Pow2(j + 6) == 4 * Bits.Pow2(j + 5) == 8 * Bits.Pow2(j + 4) == 16 * Bits.Pow2(j + 3);
    assert Bits.Pow2(j + 3) == 2 * Bits.Pow2(j + 2) == 4 * Bits.Pow2(j + 1) == 8 * Bits.Pow2(j);
  }

  lemma {:induction false} Grows(a: nat, b: nat)
    requires a <= b
    ensures Bits.Pow2(a) <= Bits.Pow2(b)
  {
    if a < b { Grows(a, b - 1); }
  }

  /** Seven more digits, from a byte that more bytes follow. */
  lemma NextDigits(x: nat, acc: seq<bool>, shift: nat)
    requires x < 128 && |acc| == 32 && shift + 7 <= 32 && forall i :: shift <= i < 32 ==> !acc[i]
    ensures Added(acc, x + 128, shift) == acc[..shift] + Bits.Of(x, 7) + Clear(25 - shift)
  {
    hide Bits.Of;
    assert Bits.Pow2(7) == 128;
    Bits.AddHigh(x, 1, 7);
  }

  lemma LastDigits(n: nat, acc: seq<bool>, shift: nat)
    requires n < 128 && |acc| == 32 && shift <= 31 && n < Bits.Pow2(32 - shift) && forall i :: shift <= i < 32 ==> !acc[i]
    ensures Added(acc, n, shift) == acc[..shift] + Bits.Of(n, 32 - shift)
  {
    hide Bits.Of, Bits.Pow2;
    var k := 32 - shift;
    if k >= 7 {
      Bits.Sevens(n, k - 7);
      Bits.OfZero(k - 7);
    } else {
      Bits.Split(n, k, 7 - k);
      assert Bits.Of(n, 7)[..k] == Bits.Of(n, k);
    }
  }

  lemma RegsReadBack(mask: seq<bool>)
    requires SaveOk(PushList(mask))
    ensures LongMask(Bits.Number(mask[12..16]), (Halves(mask); Bits.Number(mask[4..12]))) == mask
    ensures Bits.Number(mask[12..16]) != 0 || Bits.Number(mask[4..12]) != 0
  {
    Bits.OfNumber(mask[12..16]);
    Bits.OfNumber(mask[4..12]);
    Bits.SomeDigit(mask[12..16]);
    Bits.SomeDigit(mask[4..12]);
    var i :| 4 <= i < 16 && mask[i];
    assert if i < 12 then mask[4..12][i - 4] else mask[12..16][i - 12];
    assert mask == Clear(4) + mask[4..12] + mask[12..16];
  }

  lemma Pow2Of30()
    ensures Bits.Pow2(30) == 0x4000_0000 && Bits.Pow2(32) == 0x1_0000_0000
  {
    assert Bits.Pow2(10) == 1024;
    assert Bits.Pow2(20) == 1024 * 1024 by { assert Bits.Pow2(15) == 32 * Bits.Pow2(10); assert Bits.Pow2(20) == 32 * Bits.Pow2(15); }
    assert Bits.Pow2(30) == 1024 * 1024 * 1024 by { assert Bits.Pow2(25) == 32 * Bits.Pow2(20); assert Bits.Pow2(30) == 32 * Bits.Pow2(25); }
    assert Bits.Pow2(32) == 2 * Bits.Pow2(31) == 4 * Bits.Pow2(30);
  }

  lemma BigReadsBack(s: seq<u8>, pos: nat, bytes: nat)
    requires 0x200 < bytes < 0x1_0000_0000 && bytes % 4 == 0 && At(s, pos, EncodeUleb((bytes - 0x204) / 4))
    ensures (var u := Uleb(s, pos, Clear(32), 0); u.Some? && u.value.1 == pos + |EncodeUleb((bytes - 0x204) / 4)| && BigSize(u.value.0) == bytes)
  {
    hide Uleb, EncodeUleb, Bits.Of, Bits.Number, Bits.Pow2;
    var n := (bytes - 0x204) / 4;
    Pow2Of30();
    UlebReadsBack(s, pos, n, Clear(32), 0);
    assert Clear(32)[..0] + Bits.Of(n, 32) == Bits.Of(n, 32);
    Bits.NumberOf(n, 32);
  }

  /** The instructions for a save are read back from its encoding. */
  lemma ReadsBack(s: seq<u8>, pos: nat, save: Save)
    requires SaveOk(save) && At(s, pos, Encode(save))
    ensures All(s, pos) == Undo(save) + All(s, pos + |Encode(save)|)
  {
    hide Uleb, EncodeUleb, LongMask, ShortMask, Bits.Of, Bits.Number, BigSize;
    var enc := Encode(save);
    var part := s[pos..pos + |enc|];
    assert s[pos] == part[0] && (|enc| > 1 ==> s[pos + 1] == part[1]);
    match save
    case PushList(mask) =>
      RegsReadBack(mask);
      Halves(mask);
      assert Decode(s, pos) == One(RegPop(mask), pos + 2);
    case PushRange(n, lr) =>
    case Sub(bytes) =>
      if bytes <= 0x100 {
      } else if bytes <= 0x200 {
        assert Decode(s, pos) == One(DataPop(0x100), pos + 1);
        assert Decode(s, pos + 1) == One(DataPop(bytes - 0x100), pos + 2);
      } else {
        assert s[pos + 1..pos + |enc|] == s[pos..pos + |enc|][1..] == EncodeUleb((bytes - 0x204) / 4);
        BigReadsBack(s, pos + 1, bytes);
      }
    case Vfp(start, count) =>
  }

  /** The instructions for a prologue are read back from its encoding. */
  lemma {:induction false} AllReadBack(s: seq<u8>, pos: nat, saves: seq<Save>)
    requires forall i :: 0 <= i < |saves| ==> SaveOk(saves[i])
    requires At(s, pos, EncodeAll(saves))
    ensures All(s, pos) == UndoAll(saves) + All(s, pos + |EncodeAll(saves)|)
    decreases |saves|
  {
    hide SaveOk, Encode, Undo, All;
    if saves != [] {
      var last, rest := saves[|saves| - 1], saves[..|saves| - 1];
      var enc, all := Encode(last), EncodeAll(saves);
      assert s[pos..pos + |enc|] == s[pos..pos + |all|][..|enc|] == enc;
      assert s[pos + |enc|..pos + |all|] == s[pos..pos + |all|][|enc|..] == EncodeAll(rest);
      ReadsBack(s, pos, last);
      AllReadBack(s, pos + |enc|, rest);
    }
  }
}
