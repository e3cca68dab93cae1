/** Unwind instructions (section 10.3 of the Exception Handling ABI for the Arm Architecture) and their decoding. */
module UnwindInstruction {

  import opened Common
  import Bits
  import opened UnwindStream

  /** An instruction; a register mask has 16 digits, one for each register. */
  datatype Instr =
    | DataPop(size: u32)
    | DataPush(size: u32)
    | RegPop(mask: seq<bool>)
    | RegToSp(reg: nat)
    | VfpPop(start: nat, count: nat)
    | Finish
    | Refused
    | Reserved
    | Unimplemented
    | Error

  /** The end of the stream, an instruction with the position behind it, or a stream that ends within one. */
  datatype Decoded = End | One(instr: Instr, next: nat) | CutOff

  function Clear(n: nat): (r: seq<bool>)
    ensures |r| == n
    ensures forall i :: 0 <= i < n ==> !r[i]
  {
    seq(n, _ => false)
  }

  /** The mask of r4 to r15 in the two-byte instruction with high digits `high` and second byte `low`. */
  function LongMask(high: nat, low: u8): (m: seq<bool>)
    ensures |m| == 16
  {
    Clear(4) + Bits.Of(low, 8) + Bits.Of(high, 4)
  }

  /** The mask of r4 to r[4 + n], perhaps with lr. */
  function ShortMask(n: nat, lr: bool): (m: seq<bool>)
    ensures |m| == 16
  {
    seq(16, i => 4 <= i <= 4 + n || (lr && i == 14))
  }

  function LowMask(low: nat): (m: seq<bool>)
    ensures |m| == 16
  {
    Bits.Of(low, 4) + Clear(12)
  }

  /** 32 digits, to which seven digits of `byte` have been added at `shift` (modulo 32). */
  function Added(acc: seq<bool>, byte: u8, shift: nat): (r: seq<bool>)
    requires |acc| == 32
    ensures |r| == 32
  {
    var s, b := shift % 32, Bits.Of(byte, 7);
    seq(32, i requires 0 <= i < 32 => acc[i] || (s <= i < s + 7 && b[i - s]))
  }

  /** The digits and the position behind a uleb128 number whose first digits are in `acc`. */
  function Uleb(s: seq<u8>, pos: nat, acc: seq<bool>, shift: nat): (r: Option<(seq<bool>, nat)>)
    requires pos <= |s| && |acc| == 32
    ensures r.Some? ==> |r.value.0| == 32 && pos < r.value.1 <= |s|
    decreases |s| - pos
  {
    if pos == |s| then None
    else
      var acc' := Added(acc, s[pos], shift);
      if s[pos] < 128 then Some((acc', pos + 1)) else Uleb(s, pos + 1, acc', shift + 7)
  }

  /** The instruction that an opcode stands for without further bytes. */
  function SingleByte(op: u8): Instr
  {
    if op < 0x40 then DataPop(op * 4 + 4)
    else if op < 0x80 then DataPush((op - 0x40) * 4 + 4)
    else if 0x90 <= op < 0xa0 then (if op == 0x9d || op == 0x9f then Reserved else RegToSp(op - 0x90))
    else if 0xa0 <= op < 0xb0 then RegPop(ShortMask(op % 8, op >= 0xa8))
    else if op == 0xb0 then Finish
    else Unimplemented
  }

  predicate HasOperand(op: u8) { 0x80 <= op < 0x90 || op == 0xb1 || op == 0xc8 || op == 0xc9 }

  /** The instruction of an opcode and one operand byte. */
  function TwoBytes(op: u8, low: u8): Instr
    requires HasOperand(op)
  {
    if op < 0x90 then (if op == 0x80 && low == 0 then Refused else RegPop(LongMask(op - 0x80, low)))
    else if op == 0xb1 then (if low == 0 || low >= 16 then Reserved else RegPop(LowMask(low)))
    else VfpPop(low / 16 + (if op == 0xc8 then 16 else 0), low % 16 + 1)
  }

  /** The instruction at `pos`; it takes at least one byte, and never one too many. */
  function Decode(s: seq<u8>, pos: nat): (r: Decoded)
    requires pos <= |s|
    ensures r.One? ==> pos < r.next <= |s|
    ensures r == End <==> pos == |s|
  {
    if pos == |s| then End
    else if s[pos] == 0xb2 then
      (match Uleb(s, pos + 1, Clear(32), 0)
       case None => CutOff
       case Some((acc, next)) => One(DataPop(BigSize(acc)), next))
    else if HasOperand(s[pos]) then
      (if pos + 1 == |s| then CutOff else One(TwoBytes(s[pos], s[pos + 1]), pos + 2))
    else One(SingleByte(s[pos]), pos + 1)
  }

  /** 0x204 plus four times the number. */
  function BigSize(acc: seq<bool>): u32
  {
    (Bits.Number(acc) * 4 + 0x204) % 0x1_0000_0000
  }

  // ---------- The code ----------

  /** The next instruction of the iterator. */
  method StepIter(iter: ByteIter) returns (r: Decoded)
    requires iter.Valid()
    modifies iter
    ensures iter.Valid()
    ensures r == Decode(iter.Stream(), old(iter.pos))
    ensures iter.pos == if r.One? then r.next else |iter.bytes|
  {
    ghost var s := iter.Stream();
    var first := iter.Next();
    if first.None? {
      return End;
    }
    var op: int := first.value;
    if op / 64 == 0 {
      return One(DataPop(op % 64 * 4 + 4), iter.pos);
    } else if op / 64 == 1 {
      return One(DataPush(op % 64 * 4 + 4), iter.pos);
    } else if op / 16 == 8 {
      var op2 := iter.Next();
      if op2.None? {
        return CutOff;
      }
      if op == 0x80 && op2.value == 0 {
        return One(Refused, iter.pos);
      } else {
        var mask := LongMask(op % 16, op2.value);
        if mask == Clear(16) {
          LongMaskSet(op % 16, op2.value);
          assert false;
        }
        return One(RegPop(mask), iter.pos);
      }
    } else if op / 16 == 9 {
      if op == 0x9d || op == 0x9f {
        return One(Reserved, iter.pos);
      }
      return One(RegToSp(op % 16), iter.pos);
    } else if op / 16 == 10 {
      return One(RegPop(ShortMask(op % 8, op / 8 % 2 == 1)), iter.pos);
    } else if op == 0xb0 {
      return One(Finish, iter.pos);
    } else if op == 0xb1 {
      var op2 := iter.Next();
      if op2.None? {
        return CutOff;
      }
      if op2.value == 0 || op2.value / 16 != 0 {
        return One(Reserved, iter.pos);
      }
      return One(RegPop(LowMask(op2.value % 16)), iter.pos);
    } else if op == 0xb2 {
      var offset, shift := Clear(32), 0;
      var more := true;
      while more
        invariant iter.Valid() && |offset| == 32
        invariant iter.pos > old(iter.pos)
        invariant more ==> Uleb(s, old(iter.pos) + 1, Clear(32), 0) == Uleb(s, iter.pos, offset, shift)
        invariant !more ==> Uleb(s, old(iter.pos) + 1, Clear(32), 0) == Some((offset, iter.pos))
        decreases more, |s| - iter.pos
      {
        var byte := iter.Next();
        if byte.None? {
          return CutOff;
        }
        offset := Added(offset, byte.value, shift);
        shift := shift + 7;
        more := byte.value / 128 != 0;
      }
      return One(DataPop(BigSize(offset)), iter.pos);
    } else if op == 0xc8 {
      var op2 := iter.Next();
      if op2.None? {
        return CutOff;
      }
      return One(VfpPop(op2.value / 16 + 16, op2.value % 16 + 1), iter.pos);
    } else if op == 0xc9 {
      var op2 := iter.Next();
      if op2.None? {
        return CutOff;
      }
      return One(VfpPop(op2.value / 16, op2.value % 16 + 1), iter.pos);
    } else {
      return One(Unimplemented, iter.pos);
    }
  }

  /** The branch for an empty long mask cannot be taken. */
  lemma LongMaskSet(high: nat, low: u8)
    requires high < 16 && (high != 0 || low != 0)
    ensures LongMask(high, low) != Clear(16)
  {
    var m := LongMask(high, low);
    if m == Clear(16) {
      assert Bits.Of(low, 8) == m[4..12] == Clear(8) && Bits.Of(high, 4) == m[12..16] == Clear(4);
      assert Bits.Pow2(8) == 256 && Bits.Pow2(4) == 16;
      Bits.NumberOf(low, 8);
      Bits.NumberOf(high, 4);
      Bits.SomeDigit(Clear(8));
      Bits.SomeDigit(Clear(4));
    }
  }
}
