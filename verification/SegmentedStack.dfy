/**
 Segmented stacks: a chain of stacklets in RAM. Memory is a sequence of words, and addresses are
 word indices. A stacklet is [metadata | reserve for a trap frame | usable space]; its boundary is
 where the usable space begins.
 */
module SegmentedStack {

  import opened Common
  import opened CallSignature

  type Mem = seq<u32>

  // ---------- Layout, in words ----------

  const META := 4      // prev_stklet_bound, prev_sp, extend_cnt, count_size
  const TRAP_FRAME := 26
  const PADDING := 1
  const R12 := 1
  const OVERHEAD := META + TRAP_FRAME + PADDING + R12

  // Positions of the general registers in a trap frame.
  const LR := 5
  const PC := 6
  const XPSR := 7

  /** Bit 9 of xPSR: the trap frame is followed by a padding word. */
  predicate Padded(xpsr: u32) { xpsr / 512 % 2 == 1 }

  /** Bit 9 is cleared, and the other bits stay. */
  function ClearPadded(xpsr: u32): (r: u32)
    ensures !Padded(r) && r / 1024 == xpsr / 1024 && r % 512 == xpsr % 512
  {
    if Padded(xpsr) then xpsr - 512 else xpsr
  }

  /** The words that popping a trap frame releases. */
  function FrameWords(xpsr: u32): (r: nat)
    ensures TRAP_FRAME <= r <= TRAP_FRAME + PADDING
  {
    TRAP_FRAME + (if Padded(xpsr) then PADDING else 0)
  }

  /** `m` with the words from `at` on replaced by `s`. */
  function Splice(m: Mem, at: nat, s: seq<u32>): (r: Mem)
    requires at + |s| <= |m|
    ensures |r| == |m|
    ensures forall i {:trigger r[i]} :: 0 <= i < |m| ==> r[i] == if at <= i < at + |s| then s[i - at] else m[i]
  {
    m[..at] + s + m[at + |s|..]
  }

  // ---------- The chain ----------

  /**
   A stacklet in use: its memory chunk, what its metadata says of the stacklet before it, and the
   return address and xPSR in the trap frame that was left there. `frame` is where the stack
   pointer of the suspended function stood.
   */
  datatype Link = Link(base: nat, words: nat, prevBound: nat, prevSp: nat, count: u32, lr: u32, xpsr: u32)

  function Bound(l: Link): nat { l.base + OVERHEAD }

  function End(l: Link): nat { l.base + l.words }

  predicate Apart(a: Link, b: Link)
  {
    End(a) <= b.base || End(b) <= a.base
  }

  /** The metadata of `l` is in memory. */
  ghost predicate MetaOk(m: Mem, l: Link)
  {
    && OVERHEAD <= l.words && End(l) <= |m|
    && m[l.base] == l.prevBound && m[l.base + 1] == l.prevSp && m[l.base + 3] == l.count
  }

  /** `hi` was chained onto `lo`, and the trap frame that its metadata points to is in `lo` above the metadata there. */
  ghost predicate Chained(m: Mem, lo: Link, hi: Link)
  {
    && hi.prevBound == Bound(lo)
    && lo.base + META <= hi.prevSp && hi.prevSp + FrameWords(hi.xpsr) <= End(lo) <= |m|
    && m[hi.prevSp + LR] == hi.lr && m[hi.prevSp + XPSR] == hi.xpsr
  }

  ghost predicate ChainOk(m: Mem, chain: seq<Link>)
  {
    && chain != []
    && (forall i {:trigger chain[i]} :: 0 <= i < |chain| ==> MetaOk(m, chain[i]))
    && (forall i {:trigger Chained(m, chain[i - 1], chain[i])} :: 0 < i < |chain| ==> Chained(m, chain[i - 1], chain[i]))
    && (forall i, j {:trigger Apart(chain[i], chain[j])} :: 0 <= i < j < |chain| ==> Apart(chain[i], chain[j]))
  }

  function Last(chain: seq<Link>): Link
    requires chain != []
  {
    chain[|chain| - 1]
  }

  function Init(chain: seq<Link>): seq<Link>
    requires chain != []
  {
    chain[..|chain| - 1]
  }

  /** The sum of count_size along the chain. */
  function Counted(chain: seq<Link>): nat
  {
    if chain == [] then 0 else Counted(Init(chain)) + Last(chain).count
  }

  /** A return address, as it enters the signature. */
  function Key(lr: u32): bv32 { lr as bv32 }

  /** The signature of the chain of allocation sites, from signature `sig` of the first stacklet on. */
  function Signature(sig: bv32, chain: seq<Link>): bv32
  {
    if |chain| <= 1 then sig else Extended(Signature(sig, Init(chain)), Key(Last(chain).lr))
  }

  /** Words that the chain relies on. */
  ghost predicate Relied(chain: seq<Link>, k: nat)
  {
    exists i {:trigger chain[i]} :: 0 <= i < |chain| && ReliedBy(chain[i], i, k)
  }

  ghost predicate ReliedBy(l: Link, i: nat, k: nat)
  {
    k == l.base || k == l.base + 1 || k == l.base + 3 || (i > 0 && (k == l.prevSp + LR || k == l.prevSp + XPSR))
  }

  /** The chain survives all writes to other words. */
  lemma ChainFrame(m: Mem, m': Mem, chain: seq<Link>)
    requires ChainOk(m, chain) && |m'| == |m|
    requires forall k {:trigger m'[k]} :: 0 <= k < |m| && Relied(chain, k) ==> m'[k] == m[k]
    ensures ChainOk(m', chain)
  {
    forall i {:trigger chain[i]} | 0 <= i < |chain| ensures MetaOk(m', chain[i]) && (i > 0 ==> Chained(m', chain[i - 1], chain[i])) {
      var l := chain[i];
      assert MetaOk(m, l);
      assert ReliedBy(l, i, l.base) && ReliedBy(l, i, l.base + 1) && ReliedBy(l, i, l.base + 3);
      if i > 0 {
        assert Chained(m, chain[i - 1], chain[i]) && MetaOk(m, chain[i - 1]);
        assert ReliedBy(l, i, l.prevSp + LR) && ReliedBy(l, i, l.prevSp + XPSR);
      }
    }
  }

  /** What the chain relies on lies in the metadata of the last stacklet, or in an earlier stacklet. */
  lemma ReliedWhere(m: Mem, chain: seq<Link>, k: nat)
    requires ChainOk(m, chain) && Relied(chain, k)
    ensures Last(chain).base <= k < Last(chain).base + META || (exists i :: 0 <= i < |chain| - 1 && chain[i].base <= k < End(chain[i]))
  {
    var i :| 0 <= i < |chain| && ReliedBy(chain[i], i, k);
    assert MetaOk(m, chain[i]);
    if i > 0 { assert Chained(m, chain[i - 1], chain[i]) && MetaOk(m, chain[i - 1]); }
  }

  /** Words of the last stacklet above its metadata are not relied on. */
  lemma LastIsFree(m: Mem, chain: seq<Link>, k: nat)
    requires ChainOk(m, chain) && Last(chain).base + META <= k < End(Last(chain))
    ensures !Relied(chain, k)
  {
    assert forall i :: 0 <= i < |chain| - 1 ==> Apart(chain[i], chain[|chain| - 1]);
    if Relied(chain, k) { ReliedWhere(m, chain, k); }
  }

  /** A shorter chain relies on less. */
  lemma InitOk(m: Mem, chain: seq<Link>)
    requires ChainOk(m, chain) && |chain| >= 2
    ensures ChainOk(m, Init(chain))
  {
    var c := Init(chain);
    forall i {:trigger c[i]} | 0 <= i < |c| ensures MetaOk(m, c[i]) && (i > 0 ==> Chained(m, c[i - 1], c[i])) {
      assert c[i] == chain[i] && MetaOk(m, chain[i]);
      if i > 0 { assert Chained(m, chain[i - 1], chain[i]); }
    }
    forall i, j {:trigger Apart(c[i], c[j])} | 0 <= i < j < |c| ensures Apart(c[i], c[j]) {
      assert Apart(chain[i], chain[j]);
    }
  }

  // ---------- Extending ----------

  /** Where the service call that releases a stacklet is entered. */
  const LESS_STACK: u32 := 0x0800_0101

  /** What `more_stack` needs of the suspended function's trap frame at `sp`, its `arg` words of arguments, and the new chunk. */
  ghost predicate CanExtend(m: Mem, chain: seq<Link>, sp: nat, base: nat, words: nat, arg: nat)
  {
    && chain != [] && MetaOk(m, Last(chain))
    && Last(chain).base + META <= sp && sp + TRAP_FRAME <= |m| && sp + FrameWords(m[sp + XPSR]) + arg <= End(Last(chain))
    && OVERHEAD + arg <= words && base + words <= |m| && |m| < 0x4000_0000
    && (forall i {:trigger chain[i]} :: 0 <= i < |chain| ==> End(chain[i]) <= base || base + words <= chain[i].base)
  }

  /** The link that `more_stack` adds. */
  function NewLink(m: Mem, bound: nat, sp: nat, base: nat, words: nat, count: u32): Link
    requires sp + TRAP_FRAME <= |m|
  {
    Link(base, words, bound, sp, count, m[sp + LR], m[sp + XPSR])
  }

  /** The trap frame that resumes the function body, behind the two constants, and brings it back through the release. */
  function BodyFrame(tf: seq<u32>): (r: seq<u32>)
    requires |tf| == TRAP_FRAME
    ensures |r| == TRAP_FRAME && r[LR] == LESS_STACK && !Padded(r[XPSR])
  {
    tf[XPSR := ClearPadded(tf[XPSR])][PC := Plus(tf[PC], 4)][LR := LESS_STACK]
  }

  /** All that `more_stack` writes. */
  function MoreMem(m: Mem, bound: nat, sp: nat, base: nat, words: nat, arg: nat, count: u32): (r: Mem)
    requires OVERHEAD <= bound && bound <= |m| && sp + TRAP_FRAME <= |m| && sp + FrameWords(m[sp + XPSR]) + arg <= |m|
    requires OVERHEAD + arg <= words && base + words <= |m| < 0x4000_0000
    ensures |r| == |m|
  {
    var m1 := m[bound - OVERHEAD + 2 := Plus(m[bound - OVERHEAD + 2], 1)];
    var m2 := Splice(m1, base, [bound, sp, 0, count]);
    var args := sp + FrameWords(m[sp + XPSR]);
    var m3 := Splice(m2, base + words - arg, m2[args..args + arg]);
    Splice(m3, base + words - arg - TRAP_FRAME, BodyFrame(m3[sp..sp + TRAP_FRAME]))
  }

  /** Extending writes the counter of the current stacklet and the new chunk, nothing else. */
  lemma MoreWrites(m: Mem, chain: seq<Link>, sp: nat, base: nat, words: nat, arg: nat, count: u32)
    requires ChainOk(m, chain) && CanExtend(m, chain, sp, base, words, arg)
    ensures var m' := MoreMem(m, Bound(Last(chain)), sp, base, words, arg, count);
      && (forall k {:trigger m'[k]} :: 0 <= k < |m| && k != Last(chain).base + 2 && !(base <= k < base + words) ==> m'[k] == m[k])
      && m'[base] == Bound(Last(chain)) && m'[base + 1] == sp && m'[base + 2] == 0 && m'[base + 3] == count
  {
    assert MetaOk(m, Last(chain));
  }

  /** The function body starts with its arguments at the stack pointer and the registers it was called with. */
  lemma BodyResumes(m: Mem, chain: seq<Link>, sp: nat, base: nat, words: nat, arg: nat, count: u32)
    requires ChainOk(m, chain) && CanExtend(m, chain, sp, base, words, arg)
    ensures var m' := MoreMem(m, Bound(Last(chain)), sp, base, words, arg, count);
      var tf := base + words - arg - TRAP_FRAME; var args := sp + FrameWords(m[sp + XPSR]);
      && m'[tf..tf + TRAP_FRAME] == BodyFrame(m[sp..sp + TRAP_FRAME])
      && m'[base + words - arg..base + words] == m[args..args + arg]
  {
    hide Padded, BodyFrame, Plus, Splice, FrameWords;
    var bound := Bound(Last(chain));
    assert MetaOk(m, Last(chain));
    var args := sp + FrameWords(m[sp + XPSR]);
    var m1 := m[bound - OVERHEAD + 2 := Plus(m[bound - OVERHEAD + 2], 1)];
    var m2 := Splice(m1, base, [bound, sp, 0, count]);
    assert forall k {:trigger m2[k]} :: sp <= k < args + arg ==> m2[k] == m[k];
    SameSlice(m, m2, args, arg);
    var m3 := Splice(m2, base + words - arg, m2[args..args + arg]);
    SameSlice(m, m3, sp, TRAP_FRAME);
    Spliced(m2, base + words - arg, m2[args..args + arg]);
    var frame := BodyFrame(m3[sp..sp + TRAP_FRAME]);
    Spliced(m3, base + words - arg - TRAP_FRAME, frame);
    SameSlice(m3, Splice(m3, base + words - arg - TRAP_FRAME, frame), base + words - arg, arg);
  }

  lemma SameSlice(m: Mem, m': Mem, at: nat, n: nat)
    requires at + n <= |m| && |m'| == |m| && forall k {:trigger m'[k]} :: at <= k < at + n ==> m'[k] == m[k]
    ensures m'[at..at + n] == m[at..at + n]
  {
  }

  lemma Spliced(m: Mem, at: nat, s: seq<u32>)
    requires at + |s| <= |m|
    ensures Splice(m, at, s)[at..at + |s|] == s
  {
  }

  /** Extending adds one link to a well-formed chain. */
  lemma MoreKeepsChain(m: Mem, chain: seq<Link>, sp: nat, base: nat, words: nat, arg: nat, count: u32)
    requires ChainOk(m, chain) && CanExtend(m, chain, sp, base, words, arg)
    ensures ChainOk(MoreMem(m, Bound(Last(chain)), sp, base, words, arg, count),
                    chain + [NewLink(m, Bound(Last(chain)), sp, base, words, count)])
  {
    hide MoreMem;
    var lo := Last(chain);
    var hi := NewLink(m, Bound(lo), sp, base, words, count);
    var m' := MoreMem(m, Bound(lo), sp, base, words, arg, count);
    var chain' := chain + [hi];
    assert MetaOk(m, lo);
    MoreWrites(m, chain, sp, base, words, arg, count);
    forall k {:trigger m'[k]} | 0 <= k < |m| && Relied(chain, k) ensures m'[k] == m[k] {
      ReliedInside(m, chain, k);
      CounterIsFree(m, chain);
    }
    ChainFrame(m, m', chain);
    forall i {:trigger chain'[i]} | 0 <= i < |chain'| ensures MetaOk(m', chain'[i]) && (i > 0 ==> Chained(m', chain'[i - 1], chain'[i])) {
      if i < |chain| {
        assert MetaOk(m', chain[i]);
        if i > 0 { assert Chained(m', chain[i - 1], chain[i]); }
      }
    }
    forall i, j {:trigger Apart(chain'[i], chain'[j])} | 0 <= i < j < |chain'| ensures Apart(chain'[i], chain'[j]) {
      if j < |chain| { assert Apart(chain[i], chain[j]); } else { assert chain'[i] == chain[i]; }
    }
  }

  /** What the chain relies on lies inside its chunks. */
  lemma ReliedInside(m: Mem, chain: seq<Link>, k: nat)
    requires ChainOk(m, chain) && Relied(chain, k)
    ensures exists i {:trigger chain[i]} :: 0 <= i < |chain| && chain[i].base <= k < End(chain[i])
  {
    ReliedWhere(m, chain, k);
    assert MetaOk(m, chain[|chain| - 1]);
  }

  /** The extension counter of the last stacklet is not relied on. */
  lemma CounterIsFree(m: Mem, chain: seq<Link>)
    requires ChainOk(m, chain)
    ensures !Relied(chain, Last(chain).base + 2)
  {
    var k := Last(chain).base + 2;
    var n := |chain| - 1;
    forall i | 0 <= i < |chain| ensures !ReliedBy(chain[i], i, k) {
      assert MetaOk(m, chain[i]) && MetaOk(m, chain[n]);
      if i < n { assert Apart(chain[i], chain[n]); }
      if i > 0 {
        assert Chained(m, chain[i - 1], chain[i]) && MetaOk(m, chain[i - 1]);
        assert i - 1 < n && Apart(chain[i - 1], chain[n]);
      }
    }
  }

  // ---------- Releasing ----------

  /** All that `less_stack` writes: the returned registers and the resumption address, into the trap frame it goes back to. */
  function LessMem(m: Mem, prevSp: nat, ret: seq<u32>): (r: Mem)
    requires prevSp + TRAP_FRAME <= |m| && |ret| == 4
    ensures |r| == |m|
    ensures forall k {:trigger r[k]} :: 0 <= k < |m| && !(prevSp <= k < prevSp + 4) && k != prevSp + PC ==> r[k] == m[k]
    ensures r[prevSp..prevSp + 4] == ret && r[prevSp + PC] == m[prevSp + LR]
  {
    Splice(m, prevSp, ret)[prevSp + PC := m[prevSp + LR]]
  }

  /** Releasing leaves the chain without its last link. */
  lemma LessKeepsChain(m: Mem, chain: seq<Link>, ret: seq<u32>)
    requires ChainOk(m, chain) && |chain| >= 2 && |ret| == 4
    ensures Last(chain).prevSp + TRAP_FRAME <= |m|
    ensures ChainOk(LessMem(m, Last(chain).prevSp, ret), Init(chain))
  {
    hide LessMem;
    var n := |chain| - 1;
    assert Chained(m, chain[n - 1], chain[n]);
    InitOk(m, chain);
    var c := Init(chain);
    var m' := LessMem(m, Last(chain).prevSp, ret);
    forall k {:trigger m'[k]} | 0 <= k < |m| && Relied(c, k) ensures m'[k] == m[k] {
      if Last(c).base + META <= k < End(Last(c)) { LastIsFree(m, c, k); }
    }
    ChainFrame(m, m', c);
  }

  /** What a normal return brings back: boundary, stack pointer after popping the trap frame, and where it resumes. */
  datatype Resumed = Resumed(bound: nat, sp: nat, pc: u32, freed: nat, cumulated: int)

  /** `less_stack` and the exception return after it, as read from memory. */
  function NormalReturn(m: Mem, bound: nat, cumulated: int, ret: seq<u32>): Resumed
    requires OVERHEAD <= bound <= |m| && |ret| == 4 && m[bound - OVERHEAD + 1] + TRAP_FRAME <= |m|
  {
    var meta := bound - OVERHEAD;
    var prevSp := m[meta + 1];
    var m' := LessMem(m, prevSp, ret);
    Resumed(m[meta], prevSp + FrameWords(m'[prevSp + XPSR]), m'[prevSp + PC], meta, cumulated - m[meta + 3])
  }

  /** The unwinder's switch to the previous stacklet. */
  function UnwinderSwitch(m: Mem, bound: nat, cumulated: int): Resumed
    requires OVERHEAD <= bound <= |m| && m[bound - OVERHEAD + 1] + TRAP_FRAME <= |m|
  {
    var meta := bound - OVERHEAD;
    var prevSp := m[meta + 1];
    Resumed(m[meta], prevSp + FrameWords(m[prevSp + XPSR]), Plus(m[prevSp + LR], -2), meta, cumulated - m[meta + 3])
  }

  /** They agree on everything but the program counter, which the unwinder moves back into the call instruction. */
  lemma SwitchAgrees(m: Mem, chain: seq<Link>, cumulated: int, ret: seq<u32>)
    requires ChainOk(m, chain) && |chain| >= 2 && |ret| == 4
    ensures Bound(Last(chain)) <= |m| && Last(chain).prevSp + TRAP_FRAME <= |m| && m[Last(chain).base + 1] == Last(chain).prevSp
    ensures var n, u := NormalReturn(m, Bound(Last(chain)), cumulated, ret), UnwinderSwitch(m, Bound(Last(chain)), cumulated);
      && n == u.(pc := n.pc) && u.pc == Plus(n.pc, -2)
      && n == Resumed(Bound(chain[|chain| - 2]), Last(chain).prevSp + FrameWords(Last(chain).xpsr), Last(chain).lr, Last(chain).base,
                      cumulated - Last(chain).count)
  {
    var k := |chain| - 1;
    assert MetaOk(m, chain[k]) && Chained(m, chain[k - 1], chain[k]);
  }

  /** `n` normal returns, with what each of them hands back, and where the last one resumes. */
  ghost function Returns(m: Mem, chain: seq<Link>, cumulated: int, rets: seq<seq<u32>>): (r: seq<Resumed>)
    requires ChainOk(m, chain) && |rets| < |chain| && forall k :: 0 <= k < |rets| ==> |rets[k]| == 4
    decreases |rets|
  {
    if rets == [] then []
    else
      SwitchAgrees(m, chain, cumulated, rets[0]);
      LessKeepsChain(m, chain, rets[0]);
      var one := NormalReturn(m, Bound(Last(chain)), cumulated, rets[0]);
      [one] + Returns(LessMem(m, Last(chain).prevSp, rets[0]), Init(chain), one.cumulated, rets[1..])
  }

  /** `n` switches of the unwinder, each from the boundary that the one before it left. */
  ghost function Switches(m: Mem, bound: nat, cumulated: int, n: nat): seq<Resumed>
    decreases n
  {
    if n == 0 || !(OVERHEAD <= bound <= |m|) || m[bound - OVERHEAD + 1] + TRAP_FRAME > |m| then []
    else
      var one := UnwinderSwitch(m, bound, cumulated);
      [one] + Switches(m, one.bound, one.cumulated, n - 1)
  }

  /** `u` is `r` as the unwinder sees it. */
  ghost predicate Follows(r: seq<Resumed>, u: seq<Resumed>)
  {
    |r| == |u| && forall k {:trigger r[k]} {:trigger u[k]} :: 0 <= k < |r| ==> r[k] == u[k].(pc := r[k].pc) && u[k].pc == Plus(r[k].pc, -2)
  }

  lemma Shifted(one: Resumed, two: Resumed, r: seq<Resumed>, u: seq<Resumed>)
    requires Follows(r, u) && one == two.(pc := one.pc) && two.pc == Plus(one.pc, -2)
    ensures Follows([one] + r, [two] + u)
  {
  }

  /** Unwinding any number of stacklets visits the same boundaries and stack pointers, frees the same chunks and gives back the same sizes as returning through them. */
  lemma {:induction false} UnwinderFollowsReturns(m: Mem, m0: Mem, chain: seq<Link>, cumulated: int, rets: seq<seq<u32>>)
    requires ChainOk(m, chain) && ChainOk(m0, chain) && |rets| < |chain| && forall k :: 0 <= k < |rets| ==> |rets[k]| == 4
    ensures Follows(Returns(m, chain, cumulated, rets), Switches(m0, Bound(Last(chain)), cumulated, |rets|))
    ensures |Returns(m, chain, cumulated, rets)| == |rets|
    decreases |rets|
  {
    hide LessMem, UnwinderSwitch, NormalReturn, ChainOk, Plus, Padded;
    if rets != [] {
      SwitchAgrees(m, chain, cumulated, rets[0]);
      SwitchAgrees(m0, chain, cumulated, rets[0]);
      LessKeepsChain(m, chain, rets[0]);
      InitOk(m0, chain);
      var bound := Bound(Last(chain));
      var one, two := NormalReturn(m, bound, cumulated, rets[0]), UnwinderSwitch(m0, bound, cumulated);
      var m' := LessMem(m, Last(chain).prevSp, rets[0]);
      UnwinderFollowsReturns(m', m0, Init(chain), one.cumulated, rets[1..]);
      var r', u' := Returns(m', Init(chain), one.cumulated, rets[1..]), Switches(m0, Bound(Last(Init(chain))), one.cumulated, |rets| - 1);
      assert Returns(m, chain, cumulated, rets) == [one] + r';
      assert Switches(m0, bound, cumulated, |rets|) == [two] + u';
      Shifted(one, two, r', u');
    }
  }
}
