/**
 Segmented stacks as the service calls run them: exceptions push and pop trap frames, `MoreStack` and `LessStack` rewrite
 them in RAM, and a tree of function calls runs through the two.
 */
module SegmentedStackCode {

  import opened Common
  import opened CallSignature
  import opened SegmentedStack
  import HotSplit

  /** Why the stack is extended. */
  datatype Reason = Normal | Drop | Unwind

  /**
   How a call ends: with a return, diverted to forced unwinding, without memory for a stacklet, or in a stacklet that is
   too small for its function; and the call, itself or a nested one, by which it came to that.
   */
  datatype Outcome = Done | Diverted(site: Func) | NoMemory(site: Func) | TooSmall(site: Func)

  /** How `more_stack` ends. */
  datatype Growth = Grown | Refusal | Exhausted

  /** A chunk that the heap has handed out. */
  datatype Chunk = Chunk(base: nat, words: nat)

  /**
   A function call: the sizes in words of its frame and stack arguments, where the heap would put a stacklet for it, what
   its body does, and the four registers it returns.
   */
  datatype Func = Func(frame: nat, arg: nat, reason: Reason, base: nat, ops: seq<Op>, ret: seq<u32>)

  /** A body writes to its own frame, and calls with the registers that the callee finds. */
  datatype Op = Write(offset: nat, value: u32) | Invoke(regs: seq<u32>, callee: Func)

  predicate WellFormed(f: Func)
  {
    f.frame < 0x1_0000 && f.arg < 0x1_0000 && |f.ret| == 4 && forall i :: 0 <= i < |f.ops| ==> OpOk(f.ops[i], f.frame)
  }

  /** Function `g` is called in the body of `f`, directly or not. */
  ghost predicate Within(g: Func, f: Func)
  {
    exists i :: 0 <= i < |f.ops| && CalledBy(g, f.ops[i])
  }

  ghost predicate CalledBy(g: Func, op: Op)
  {
    op.Invoke? && (op.callee == g || Within(g, op.callee))
  }

  /** Frames of `room` words hold the call of `f` together with all that it leads to. */
  ghost predicate AllFit(f: Func, room: int)
  {
    f.frame <= room && forall i :: 0 <= i < |f.ops| ==> OpFits(f.ops[i], room - f.frame)
  }

  ghost predicate OpFits(op: Op, room: int)
  {
    op.Invoke? ==> AllFit(op.callee, room)
  }

  lemma {:induction false} WithinSmaller(g: Func, f: Func)
    requires Within(g, f)
    ensures g < f && g != f
  {
    var i :| 0 <= i < |f.ops| && CalledBy(g, f.ops[i]);
    var callee := f.ops[i].callee;
    assert callee < f.ops[i] < f;
    if callee != g { WithinSmaller(g, callee); }
  }

  predicate OpOk(op: Op, frame: nat)
  {
    match op
    case Write(offset, _) => offset < frame
    case Invoke(regs, callee) => |regs| == TRAP_FRAME && callee.arg <= frame && WellFormed(callee)
  }

  /** The entry of forced unwinding. */
  const DIVERTED_UNWIND: u32 := 0x0800_0201

  /** xPSR as it is stacked. */
  function SetPadded(xpsr: u32, padded: bool): (r: u32)
    ensures Padded(r) == padded && r / 1024 == xpsr / 1024 && r % 512 == xpsr % 512
  {
    if padded && !Padded(xpsr) then SetBit(xpsr) else if padded then xpsr else ClearPadded(xpsr)
  }

  function SetBit(xpsr: u32): (r: u32)
    requires !Padded(xpsr)
    ensures Padded(r) && r / 1024 == xpsr / 1024 && r % 512 == xpsr % 512
  {
    var x: int := xpsr;
    x + 512
  }

  // ---------- Words that calls keep ----------

  ghost predicate InEarlier(chain: seq<Link>, k: nat)
  {
    exists i {:trigger chain[i]} :: 0 <= i < |chain| - 1 && chain[i].base <= k < End(chain[i])
  }

  /** A word that nothing below stack pointer `sp` of the last stacklet may change. */
  ghost predicate Safe(chain: seq<Link>, sp: nat, k: nat)
    requires chain != []
  {
    || InEarlier(chain, k)
    || (Last(chain).base <= k < Last(chain).base + META && k != Last(chain).base + 2)
    || sp <= k < End(Last(chain))
  }

  ghost predicate Kept(m: Mem, m': Mem, chain: seq<Link>, sp: nat)
    requires chain != []
  {
    |m'| == |m| && forall k {:trigger m'[k]} :: 0 <= k < |m| && Safe(chain, sp, k) ==> m'[k] == m[k]
  }

  /** Writes between the metadata and the stack pointer disturb nothing. */
  lemma FreeWrites(m: Mem, m': Mem, chain: seq<Link>, sp: nat)
    requires ChainOk(m, chain) && |m'| == |m| && sp <= End(Last(chain))
    requires forall k {:trigger m'[k]} :: 0 <= k < |m| && !(Last(chain).base + META <= k < sp) ==> m'[k] == m[k]
    ensures ChainOk(m', chain) && Kept(m, m', chain, sp)
  {
    hide MetaOk, Chained, Relied;
    forall k {:trigger m'[k]} | 0 <= k < |m| && Relied(chain, k) ensures m'[k] == m[k] {
      if Last(chain).base + META <= k < sp { LastIsFree(m, chain, k); }
    }
    ChainFrame(m, m', chain);
    forall k {:trigger m'[k]} | 0 <= k < |m| && Safe(chain, sp, k) ensures m'[k] == m[k] {
      if InEarlier(chain, k) {
        var i :| 0 <= i < |chain| - 1 && chain[i].base <= k < End(chain[i]);
        assert Apart(chain[i], chain[|chain| - 1]);
      }
    }
  }

  /** Extending keeps what the caller relies on. */
  lemma MoreKeeps(m: Mem, chain: seq<Link>, sp: nat, base: nat, words: nat, arg: nat, count: u32)
    requires ChainOk(m, chain) && CanExtend(m, chain, sp, base, words, arg)
    ensures Kept(m, MoreMem(m, Bound(Last(chain)), sp, base, words, arg, count), chain, sp)
  {
    var m' := MoreMem(m, Bound(Last(chain)), sp, base, words, arg, count);
    assert MetaOk(m, Last(chain));
    MoreWrites(m, chain, sp, base, words, arg, count);
    hide MoreMem;
    var n := |chain| - 1;
    forall k {:trigger m'[k]} | 0 <= k < |m| && Safe(chain, sp, k) ensures m'[k] == m[k] {
      assert k != chain[n].base + 2 by {
        if InEarlier(chain, k) {
          var i :| 0 <= i < n && chain[i].base <= k < End(chain[i]);
          assert Apart(chain[i], chain[n]);
        }
      }
      assert End(chain[n]) <= base || base + words <= chain[n].base;
      assert MetaOk(m, chain[n]);
    }
  }

  /** What a callee in a new stacklet keeps covers all of the stacklet before it. */
  lemma KeptBelow(m: Mem, m': Mem, chain: seq<Link>, link: Link, sp: nat, k: nat)
    requires chain != [] && Kept(m, m', chain + [link], sp) && k < |m|
    requires InEarlier(chain, k) || Last(chain).base <= k < End(Last(chain))
    ensures m'[k] == m[k]
  {
    var c := chain + [link];
    if InEarlier(chain, k) {
      var i :| 0 <= i < |chain| - 1 && chain[i].base <= k < End(chain[i]);
      assert c[i] == chain[i];
    } else {
      assert c[|chain| - 1] == Last(chain);
    }
    assert InEarlier(c, k);
  }

  lemma KeptFrom(m: Mem, m': Mem, chain: seq<Link>, link: Link, low: nat, sp: nat)
    requires chain != [] && Kept(m, m', chain + [link], low)
    requires OVERHEAD <= Last(chain).words && Last(chain).base <= sp
    ensures Kept(m, m', chain, sp)
  {
    forall k {:trigger m'[k]} | 0 <= k < |m| && Safe(chain, sp, k) ensures m'[k] == m[k] {
      if InEarlier(chain, k) || Last(chain).base <= k < End(Last(chain)) {
        KeptBelow(m, m', chain, link, low, k);
      }
    }
  }

  lemma KeptTrans(m: Mem, m': Mem, m'': Mem, chain: seq<Link>, low: nat, sp: nat)
    requires chain != [] && low <= sp && Kept(m, m', chain, sp) && Kept(m', m'', chain, low)
    ensures Kept(m, m'', chain, sp)
  {
    hide InEarlier;
  }

  lemma KeptSelf(m: Mem, chain: seq<Link>, sp: nat)
    requires chain != []
    ensures Kept(m, m, chain, sp)
  {
  }

  lemma KeptBy(m: Mem, m': Mem, chain: seq<Link>, low: nat, sp: nat)
    requires chain != [] && low <= sp && Kept(m, m', chain, low)
    ensures Kept(m, m', chain, sp)
  {
    hide InEarlier;
  }

  lemma Snoc(sig: bv32, chain: seq<Link>, link: Link)
    requires chain != []
    ensures Init(chain + [link]) == chain && Last(chain + [link]) == link
    ensures Counted(chain + [link]) == Counted(chain) + link.count
    ensures Signature(sig, chain + [link]) == Extended(Signature(sig, chain), Key(link.lr))
  {
    hide Extended, Key;
    assert Init(chain + [link]) == chain;
  }

  lemma Unsnoc(sig: bv32, chain: seq<Link>)
    requires |chain| >= 2
    ensures Counted(Init(chain)) == Counted(chain) - Last(chain).count
    ensures Signature(sig, Init(chain)) == Shrunk(Signature(sig, chain), Key(Last(chain).lr))
  {
    hide Extended, Shrunk, Key;
    RoundTrip(Signature(sig, Init(chain)), Key(Last(chain).lr));
  }

  /** 32-bit sizes add up and cancel. */
  lemma PlusMod(total: int, count: u32)
    ensures Plus(Wrap(total), count) == Wrap(total + count)
    ensures Minus(Wrap(total), count) == Wrap(total - count)
  {
    var n: int := count;
    Shift(total, n);
    Shift(total, 0 - n);
  }

  lemma Shift(total: int, n: int)
    ensures (total % 0x1_0000_0000 + n) % 0x1_0000_0000 == (total + n) % 0x1_0000_0000
  {
    var q := total / 0x1_0000_0000;
    assert total + n == q * 0x1_0000_0000 + (total % 0x1_0000_0000 + n);
  }

  function Wrap(total: int): u32 { total % 0x1_0000_0000 }

  function Minus(x: u32, n: u32): u32
  {
    var y: int, k: int := x, n;
    (y - k) % 0x1_0000_0000
  }

  /** The words to allocate for a frame of `size` bytes. */
  function StackletWords(size: u32, arg: nat, addition: nat): (r: nat)
    ensures OVERHEAD + arg <= r
  {
    size / 4 + arg + OVERHEAD + addition
  }

  /** The heap has handed out the chunks of the chain. */
  ghost predicate Backed(chunks: seq<Chunk>, chain: seq<Link>)
  {
    |chunks| == |chain| && forall i {:trigger chunks[i]} :: 0 <= i < |chain| ==> chunks[i] == Chunk(chain[i].base, chain[i].words)
  }

  /** The signature and the stack usage are those of the chain. */
  ghost predicate Accounts(sig0: bv32, chain: seq<Link>, signature: bv32, cumulated: u32)
  {
    signature == Signature(sig0, chain) && cumulated == Wrap(Counted(chain))
  }

  // ---------- The code ----------

  /** A task with a segmented stack. */
  class Task {
    const ram: array<u32>
    const cache: HotSplit.Cache
    const addition: nat          // words added to each stacklet
    const limited: bool
    const limit: u32             // stack limit in bytes, if limited
    var cpu: seq<u32>            // the registers that a trap frame holds
    var sp: nat
    var bound: nat
    var signature: bv32
    var cumulated: u32
    var unwinding: bool
    var nestedDrops: nat
    var unwindPending: bool
    var chunks: seq<Chunk>       // what the heap handed out
    ghost const sig0: bv32       // signature of the first stacklet
    ghost var chain: seq<Link>

    ghost predicate Footprint()
      reads this
    {
      && (ram as object) !in {cache, cache.causes, cache.adds} && (cache.causes as object) != cache.adds
    }

    ghost predicate Valid()
      reads this, ram, cache, cache.causes, cache.adds
    {
      && Footprint() && cache.Valid()
      && |cpu| == TRAP_FRAME && ram.Length < 0x4000_0000
      && ChainOk(ram[..], chain) && bound == Bound(Last(chain)) && Last(chain).base + META <= sp <= End(Last(chain))
      && Backed(chunks, chain)
    }

    /** The accounts are those of the chain. */
    ghost predicate Accounted()
      reads this
    {
      Accounts(sig0, chain, signature, cumulated)
    }

    /** A new task, on an initial stacklet with cleared metadata. */
    constructor (size: nat, base: nat, words: nat, cacheSize: nat, threshold: u32, addition: nat, limited: bool, limit: u32)
      requires OVERHEAD <= words && base + words <= size < 0x4000_0000 && 0 < cacheSize
      ensures Valid() && Accounted() && sp == base + words && bound == base + OVERHEAD && |chain| == 1 && chunks == [Chunk(base, words)]
      ensures fresh(ram) && fresh(cache) && fresh(cache.causes) && fresh(cache.adds)
    {
      var c := new HotSplit.Cache(cacheSize, threshold);
      cache := c;
      ram := new u32[size](_ => 0);
      this.addition, this.limited, this.limit := addition, limited, limit;
      cpu := seq(TRAP_FRAME, _ => 0);
      sp, bound := base + words, base + OVERHEAD;
      signature, sig0, cumulated := 0, 0, 0;
      unwinding, nestedDrops, unwindPending := false, 0, false;
      chunks, chain := [Chunk(base, words)], [Link(base, words, 0, 0, 0, 0, 0)];
      new;
      assert MetaOk(ram[..], chain[0]);
    }

    /** Stacked registers `regs`, at stack pointer `at` (in words). */
    static function Stacked(regs: seq<u32>, at: nat): (r: seq<u32>)
      requires |regs| == TRAP_FRAME
      ensures |r| == TRAP_FRAME && Padded(r[XPSR]) == (at % 2 == 1)
    {
      regs[XPSR := SetPadded(regs[XPSR], at % 2 == 1)]
    }

    method Store(at: nat, s: seq<u32>)
      requires at + |s| <= ram.Length
      modifies ram
      ensures ram[..] == Splice(old(ram[..]), at, s)
    {
      var i := 0;
      while i < |s|
        invariant 0 <= i <= |s|
        invariant forall k :: 0 <= k < ram.Length ==> ram[k] == if at <= k < at + i then s[k - at] else old(ram[k])
      {
        ram[at + i] := s[i];
        i := i + 1;
      }
    }

    /** The processor stacks the registers on entry to an exception, on an eight-byte boundary. */
    method EnterException(regs: seq<u32>)
      requires Valid() && |regs| == TRAP_FRAME && Last(chain).base + META + TRAP_FRAME + PADDING <= sp
      modifies this`sp, ram
      ensures Valid() && sp + FrameWords(Stacked(regs, old(sp))[XPSR]) == old(sp)
      ensures ram[..] == Splice(old(ram[..]), sp, Stacked(regs, old(sp)))
      ensures Kept(old(ram[..]), ram[..], chain, old(sp))
    {
      hide ChainOk, Padded, SetPadded, Kept;
      var frame := Stacked(regs, sp);
      ghost var from, was := sp, ram[..];
      sp := sp - FrameWords(frame[XPSR]);
      LastFits(was, chain);
      Store(sp, frame);
      FreeWrites(was, ram[..], chain, from);
    }

    static lemma LastFits(m: Mem, chain: seq<Link>)
      requires ChainOk(m, chain)
      ensures chain != [] && MetaOk(m, Last(chain))
    {
    }

    /** The exception return unstacks the registers. */
    method ExitException()
      requires Valid() && sp + TRAP_FRAME <= ram.Length && sp + FrameWords(ram[sp + XPSR]) <= End(Last(chain))
      modifies this`sp, this`cpu
      ensures Valid()
      ensures sp == old(sp) + FrameWords(ram[old(sp) + XPSR])
      ensures cpu == ram[old(sp)..old(sp) + TRAP_FRAME][XPSR := ClearPadded(ram[old(sp) + XPSR])]
      ensures cpu[..4] == ram[old(sp)..old(sp) + 4] && cpu[LR] == ram[old(sp) + LR] && cpu[PC] == ram[old(sp) + PC]
    {
      hide ChainOk, Padded, ClearPadded;
      cpu := ram[sp..sp + TRAP_FRAME][XPSR := ClearPadded(ram[sp + XPSR])];
      sp := sp + FrameWords(ram[sp + XPSR]);
    }

    /** Whether extending is refused in favour of unwinding the task. */
    predicate Refused(reason: Reason)
      reads this
    {
      limited && cumulated > limit && reason == Normal && !unwinding && nestedDrops == 0
    }

    /** Whether unwinding is left pending until the drop handlers are done. */
    predicate Postponed(reason: Reason)
      reads this
    {
      limited && cumulated > limit && reason != Unwind && !unwinding && (reason == Drop || nestedDrops > 0)
    }

    method CheckLimit(reason: Reason) returns (abort: bool)
      modifies this`unwindPending
      ensures abort == Refused(reason) && unwindPending == (old(unwindPending) || old(Postponed(reason)))
    {
      abort := false;
      if limited && cumulated > limit {
        if reason == Unwind || unwinding {
        } else if reason == Drop || nestedDrops > 0 {
          unwindPending := true;
        } else if reason == Normal {
          abort := !unwinding;
        }
      }
    }

    /** Extension counter, signature, cache and stack usage; the size in bytes to allocate for the frame. */
    method Account(frame: nat) returns (size: u32)
      requires Valid() && frame < 0x1_0000 && sp + TRAP_FRAME <= ram.Length
      modifies this`signature, this`cumulated, ram, cache, cache.causes, cache.adds
      ensures cache.Valid()
      ensures signature == Extended(old(signature), Key(old(ram[sp + LR]))) && cumulated == Plus(old(cumulated), size)
      ensures size == HotSplit.Adjusted(4 * frame, old(cache.causes[..]), old(cache.adds[..]), signature)
      ensures bound - OVERHEAD + 2 < ram.Length
      ensures var was := old(ram[..]); ram[..] == was[bound - OVERHEAD + 2 := Plus(was[bound - OVERHEAD + 2], 1)]
    {
      hide Extended, Key, Plus, HotSplit.Adjusted, HotSplit.Counted;
      assert MetaOk(ram[..], Last(chain));
      var prevSig := signature;
      signature := Extended(prevSig, Key(ram[sp + LR]));
      size := cache.Adjust(4 * frame, signature);
      ram[bound - OVERHEAD + 2] := Plus(ram[bound - OVERHEAD + 2], 1);
      ghost var m := ram[..];
      cache.Count(ram[bound - OVERHEAD + 2], prevSig);
      assert ram[..] == m;
      cumulated := Plus(cumulated, size);
    }

    /** Whether the heap can hand out the chunk. */
    method Alloc(base: nat, words: nat) returns (ok: bool)
      modifies this`chunks
      ensures ok == HasRoom(old(chunks), base, words, ram.Length)
      ensures chunks == if ok then old(chunks) + [Chunk(base, words)] else old(chunks)
    {
      ok := HasRoom(chunks, base, words, ram.Length);
      if ok { chunks := chunks + [Chunk(base, words)]; }
    }

    /** Metadata and arguments of a new stacklet. */
    method FillArguments(base: nat, words: nat, from: nat, arg: nat, size: u32)
      requires ram.Length < 0x4000_0000 && OVERHEAD + arg <= words && base + words <= ram.Length
      requires bound <= ram.Length && sp <= ram.Length && from + arg <= ram.Length
      modifies ram
      ensures (var m2 := Splice(old(ram[..]), base, [bound, sp, 0, size]);
               ram[..] == Splice(m2, base + words - arg, m2[from..from + arg]))
    {
      hide Splice;
      Store(base, [bound, sp, 0, size]);
      Store(base + words - arg, ram[from..from + arg]);
    }

    /** Metadata, arguments and trap frame of a new stacklet; the counter of the current one was `m`'s before. */
    method FillStacklet(ghost m: Mem, base: nat, words: nat, arg: nat, size: u32)
      requires |m| == ram.Length < 0x4000_0000 && OVERHEAD <= bound <= ram.Length && bound - OVERHEAD + META <= sp
      requires sp + TRAP_FRAME <= |m| && sp + FrameWords(m[sp + XPSR]) + arg <= |m| && OVERHEAD + arg <= words && base + words <= |m|
      requires ram[..] == m[bound - OVERHEAD + 2 := Plus(m[bound - OVERHEAD + 2], 1)]
      modifies ram
      ensures ram[..] == MoreMem(m, bound, sp, base, words, arg, size)
    {
      hide Plus, Splice, BodyFrame, FrameWords;
      assert ram[sp + XPSR] == m[sp + XPSR];
      FillArguments(base, words, sp + FrameWords(ram[sp + XPSR]), arg, size);
      Store(base + words - arg - TRAP_FRAME, BodyFrame(ram[sp..sp + TRAP_FRAME]));
    }

    /** Continue the suspended function, of `frame` words and `arg` words of arguments, in a new stacklet. */
    method MoreStack(frame: nat, arg: nat, reason: Reason, base: nat) returns (r: Growth, size: u32)
      requires Valid() && frame < 0x1_0000 && arg < 0x1_0000
      requires sp + TRAP_FRAME <= ram.Length && sp + FrameWords(ram[sp + XPSR]) + arg <= End(Last(chain))
      modifies this, ram, cache, cache.causes, cache.adds
      ensures cpu == old(cpu) && unwinding == old(unwinding) && nestedDrops == old(nestedDrops)
      ensures unwindPending == (old(unwindPending) || Postponed(reason))
      ensures signature == Extended(old(signature), Key(old(ram[sp + LR]))) && cumulated == Plus(old(cumulated), size)
      ensures size == HotSplit.Adjusted(4 * frame, old(cache.causes[..]), old(cache.adds[..]), signature)
      ensures r == Refusal <==> Refused(reason)
      ensures r == Refusal ==> Valid() && chain == old(chain) && sp == old(sp) && bound == old(bound) && ram[sp + PC] == DIVERTED_UNWIND
      ensures r == Grown <==> !Refused(reason) && HasRoom(old(chunks), base, StackletWords(size, arg, addition), ram.Length)
      ensures r == Exhausted ==> chunks == old(chunks)
      ensures r == Grown ==> Valid()
      ensures r == Grown ==> CanExtend(old(ram[..]), old(chain), old(sp), base, StackletWords(size, arg, addition), arg)
      ensures r == Grown ==> chain == old(chain) + [NewLink(old(ram[..]), old(bound), old(sp), base, StackletWords(size, arg, addition), size)]
      ensures r == Grown ==> sp == End(Last(chain)) - arg - TRAP_FRAME
      ensures r == Grown ==> ram[..] == MoreMem(old(ram[..]), old(bound), old(sp), base, StackletWords(size, arg, addition), arg, size)
      ensures r == Grown && old(Accounted()) ==> Accounted()
    {
      hide Extended, Key, Plus, HotSplit.Adjusted, HotSplit.CacheOk, ChainOk, MoreMem, Padded, Accounts, CanExtend, Backed, MetaOk, Kept, HasRoom;
      ghost var m := ram[..];
      LastFits(m, chain);
      CounterWrite(m, chain, Plus(m[bound - OVERHEAD + 2], 1));
      size := Account(frame);
      var abort := CheckLimit(reason);
      if abort {
        Divert();
        return Refusal, size;
      }
      var ok := TryExtend(m, base, StackletWords(size, arg, addition), arg, size);
      r := if ok then Grown else Exhausted;
      if old(Accounted()) && ok {
        AccountsMore(sig0, old(chain), Last(chain), old(signature), old(cumulated));
      }
    }

    /** Let the exception return go to forced unwinding. */
    method Divert()
      requires Valid() && sp + TRAP_FRAME <= End(Last(chain))
      modifies ram
      ensures Valid() && ram[sp + PC] == DIVERTED_UNWIND
    {
      hide ChainOk;
      LastFits(ram[..], chain);
      ghost var before := ram[..];
      ram[sp + PC] := DIVERTED_UNWIND;
      FreeWrites(before, ram[..], chain, sp + TRAP_FRAME);
    }

    /** Allocate a stacklet, fill it and switch to it, if there is memory. */
    method TryExtend(ghost m: Mem, base: nat, words: nat, arg: nat, size: u32) returns (ok: bool)
      requires Valid() && ChainOk(m, chain) && |m| == ram.Length && OVERHEAD + arg <= words && sp + TRAP_FRAME <= ram.Length
      requires ram[..] == m[bound - OVERHEAD + 2 := Plus(m[bound - OVERHEAD + 2], 1)]
      requires sp + FrameWords(m[sp + XPSR]) + arg <= End(Last(chain))
      modifies this`sp, this`bound, this`chain, this`chunks, ram
      ensures ok <==> HasRoom(old(chunks), base, words, ram.Length)
      ensures !ok ==> chunks == old(chunks)
      ensures ok ==> Valid() && CanExtend(m, old(chain), old(sp), base, words, arg)
      ensures ok ==> ram[..] == MoreMem(m, old(bound), old(sp), base, words, arg, size)
      ensures ok ==> chain == old(chain) + [NewLink(m, old(bound), old(sp), base, words, size)]
      ensures ok ==> sp == base + words - arg - TRAP_FRAME
    {
      hide ChainOk, MoreMem, Padded, Plus;
      LastFits(m, chain);
      ghost var was := chunks;
      ok := Alloc(base, words);
      if ok {
        AwayOk(was, m, chain, base, words);
        CanNow(m, chain, sp, base, words, arg);
        Extend(m, base, words, arg, size);
      }
    }

    /** Fill the new stacklet and switch to it. */
    method Extend(ghost m: Mem, base: nat, words: nat, arg: nat, size: u32)
      requires ChainOk(m, chain) && CanExtend(m, chain, sp, base, words, arg) && bound == Bound(Last(chain)) && |m| == ram.Length
      requires ram[..] == m[bound - OVERHEAD + 2 := Plus(m[bound - OVERHEAD + 2], 1)]
      modifies this`sp, this`bound, this`chain, ram
      ensures ram[..] == MoreMem(m, old(bound), old(sp), base, words, arg, size)
      ensures chain == old(chain) + [NewLink(m, old(bound), old(sp), base, words, size)] && ChainOk(ram[..], chain)
      ensures sp == base + words - arg - TRAP_FRAME && bound == base + OVERHEAD
    {
      hide Plus, ChainOk, MoreMem, Padded;
      FillStacklet(m, base, words, arg, size);
      MoreKeepsChain(m, chain, sp, base, words, arg, size);
      ghost var newLink := NewLink(m, bound, sp, base, words, size);
      chain := chain + [newLink];
      sp := base + words - arg - TRAP_FRAME;
      bound := base + OVERHEAD;
    }

    /** Bring the returned registers back to the function that called into the current stacklet, and free the stacklet. */
    method LessStack()
      requires Valid() && |chain| >= 2 && sp + TRAP_FRAME <= ram.Length
      modifies this, ram
      ensures Valid() && cpu == old(cpu)
      ensures chain == Init(old(chain)) && sp == old(Last(chain).prevSp) && sp + TRAP_FRAME <= ram.Length
      ensures sp + FrameWords(ram[sp + XPSR]) <= End(Last(chain)) && ram[sp + XPSR] == old(Last(chain).xpsr)
      ensures ram[..] == LessMem(old(ram[..]), sp, old(ram[sp..sp + 4]))
      ensures ram[sp + PC] == old(Last(chain).lr) && ram[sp..sp + 4] == old(ram[sp..sp + 4])
      ensures old(Accounted()) ==> Accounted()
      ensures old(chunks) == chunks + [Chunk(old(Last(chain).base), old(Last(chain).words))]
    {
      hide Extended, Shrunk, Key, ChainOk, LessMem, Padded, FrameWords, Accounts, Minus, Backed;
      ghost var m, c := ram[..], chain;
      ReturnFits(m, c);
      LessFacts(m, c, ram[sp..sp + 4]);
      LessKeepsChain(m, c, ram[sp..sp + 4]);
      var meta, prevSp := bound - OVERHEAD, ram[bound - OVERHEAD + 1];
      HandBack(prevSp);
      bound := ram[meta];
      sp := prevSp;
      signature := Shrunk(signature, Key(ram[prevSp + LR]));
      cumulated := Minus(cumulated, ram[meta + 3]);
      BackedInit(chunks, chain);
      chunks := chunks[..|chunks| - 1];
      chain := Init(chain);
      if old(Accounted()) {
        AccountsLess(sig0, c, old(signature), old(cumulated));
      }
    }

    // ---------- What a call will come to ----------

    /** The frame fits on the current stacklet. */
    predicate Fits(f: Func)
      reads this
    {
      bound + f.frame <= sp
    }

    /** The size in bytes that extending for the call would ask for. */
    ghost function SizeFor(regs: seq<u32>, f: Func): u32
      reads this, cache, cache.causes, cache.adds
      requires cache.Valid() && f.frame < 0x1_0000 && |regs| == TRAP_FRAME
    {
      HotSplit.Adjusted(4 * f.frame, cache.causes[..], cache.adds[..], Extended(signature, Key(regs[LR])))
    }

    /** Extending would be refused. */
    ghost predicate Over(regs: seq<u32>, f: Func)
      reads this, cache, cache.causes, cache.adds
      requires cache.Valid() && f.frame < 0x1_0000 && |regs| == TRAP_FRAME
    {
      limited && Plus(cumulated, SizeFor(regs, f)) > limit && f.reason == Normal && !unwinding && nestedDrops == 0
    }

    /** The heap would have a stacklet. */
    ghost predicate Room(regs: seq<u32>, f: Func)
      reads this, cache, cache.causes, cache.adds
      requires cache.Valid() && f.frame < 0x1_0000 && |regs| == TRAP_FRAME
    {
      HasRoom(chunks, f.base, StackletWords(SizeFor(regs, f), f.arg, addition), ram.Length)
    }

    /** The stacklet would be too small for the frame. */
    ghost predicate Short(regs: seq<u32>, f: Func)
      reads this, cache, cache.causes, cache.adds
      requires cache.Valid() && f.frame < 0x1_0000 && |regs| == TRAP_FRAME
    {
      SizeFor(regs, f) / 4 + addition < f.frame
    }

    /** It would only be because the site has an entry with factor 0, which unless a factor has overflowed is an empty one, or because the product overflows. */
    lemma ShortOnlyBy(regs: seq<u32>, f: Func)
      requires cache.Valid() && f.frame < 0x1_0000 && |regs| == TRAP_FRAME && Short(regs, f)
      ensures (var sig := Extended(signature, Key(regs[LR]));
               var i := HotSplit.FirstHit(cache.causes[..], sig);
               i < cache.adds.Length && ((cache.adds[i] == 0 && (sig == 0 || cache.wrapped)) || 4 * f.frame * cache.adds[i] >= 0x1_0000_0000))
    {
      hide Extended, Key, HotSplit.FirstHit, HotSplit.Adjusted;
      var sig := Extended(signature, Key(regs[LR]));
      HotSplit.LessOnlyBy(4 * f.frame, cache.causes[..], cache.adds[..], sig);
    }

    /** How the call of `f` ends: by itself exactly in the case that the outcome names, and otherwise only by a call in its body. */
    static ghost predicate EndsRightly(f: Func, r: Outcome, fits: bool, over: bool, room: bool, short: bool)
    {
      && (r == Diverted(f) <==> !fits && over)
      && (r == NoMemory(f) <==> !fits && !over && !room)
      && (r == TooSmall(f) <==> !fits && !over && room && short)
      && (r != Done ==> r.site == f || Within(r.site, f))
    }

    /** The state that an outcome leaves shows the cause that it names: over the limit and free to unwind, no room in the heap, a stacklet smaller than the frame. */
    ghost predicate Caused(r: Outcome)
      reads this
    {
      match r
      case Done => true
      case Diverted(g) => Refused(g.reason)
      case NoMemory(g) => exists size: u32 :: !HasRoom(chunks, g.base, StackletWords(size, g.arg, addition), ram.Length)
      case TooSmall(g) => sp < bound + g.frame
    }

    /**
     A call with registers `regs`, on the current stacklet if the callee's frame fits and on a new one if not. If it returns,
     it leaves the stack, its accounts and all that the caller relies on as they were, and resumes at the return address with
     the returned registers. If it does not, it is for the cause that the outcome names, in this call or in a nested one.
     It always does if the frames of all nested calls fit on the current stacklet.
     */
    method Call(regs: seq<u32>, f: Func) returns (r: Outcome)
      requires Valid() && Accounted() && WellFormed(f) && |regs| == TRAP_FRAME && bound <= sp && sp + f.arg <= End(Last(chain))
      modifies this, ram, cache, cache.causes, cache.adds
      ensures EndsRightly(f, r, old(Fits(f)), old(Over(regs, f)), old(Room(regs, f)), old(Short(regs, f)))
      ensures Caused(r) && (old(AllFit(f, sp - bound)) ==> r == Done)
      ensures r == Done || r.Diverted? ==> Valid()
      ensures r.Diverted? ==> old(chain) <= chain
      ensures r == Done ==> Accounted() && Same(old(chain), old(chunks), old(sp), old(bound))
      ensures r == Done ==> signature == old(signature) && cumulated == old(cumulated)
      ensures r == Done ==> cpu[..4] == f.ret && cpu[PC] == regs[LR]
      ensures r == Done ==> Kept(old(ram[..]), ram[..], chain, sp)
      decreases f, 2
    {
      hide ChainOk, Backed, Kept, Within, StackletWords, HasRoom, HotSplit.Adjusted, HotSplit.CacheOk, Extended, Key, Plus;
      cpu := regs;
      if bound + f.frame <= sp {
        r := RunBody(f);
        if r != Done { WithinSmaller(r.site, f); }
      } else {
        r := CallAcross(regs, f);
      }
    }

    ghost predicate Same(chain: seq<Link>, chunks: seq<Chunk>, sp: nat, bound: nat)
      reads this
    {
      this.chain == chain && this.chunks == chunks && this.sp == sp && this.bound == bound
    }

    /** The call by way of `MoreStack` and `LessStack`. */
    method CallAcross(regs: seq<u32>, f: Func) returns (r: Outcome)
      requires Valid() && Accounted() && WellFormed(f) && |regs| == TRAP_FRAME && bound <= sp && sp + f.arg <= End(Last(chain)) && !Fits(f)
      modifies this, ram, cache, cache.causes, cache.adds
      ensures EndsRightly(f, r, old(Fits(f)), old(Over(regs, f)), old(Room(regs, f)), old(Short(regs, f)))
      ensures Caused(r)
      ensures r == Done || r.Diverted? ==> Valid()
      ensures r.Diverted? ==> old(chain) <= chain
      ensures r == Done ==> Accounted() && Same(old(chain), old(chunks), old(sp), old(bound))
      ensures r == Done ==> signature == old(signature) && cumulated == old(cumulated)
      ensures r == Done ==> cpu[..4] == f.ret && cpu[PC] == regs[LR]
      ensures r == Done ==> Kept(old(ram[..]), ram[..], chain, sp)
      decreases f, 1
    {
      hide ChainOk, Backed, Kept, Accounts, FrameWords, Over, Room, Short, SizeFor, Within;
      ghost var c, from := chain, sp;
      ghost var m0 := ram[..];
      LastFits(m0, c);
      var g := SwitchUp(regs, f);
      if g == Refusal {
        return Diverted(f);
      }
      if g == Exhausted {
        return NoMemory(f);
      }
      if sp < bound + f.frame {
        return TooSmall(f);
      }
      ghost var m2, link, low := ram[..], Last(chain), sp;
      assert chain == c + [link];
      r := RunBody(f);
      if r != Done {
        WithinSmaller(r.site, f);
        assert r.Diverted? ==> c <= chain;
        return;
      }
      assert cpu[PC] == LESS_STACK;
      ghost var m3 := ram[..];
      LastFits(m3, chain);
      KeptFrom(m2, m3, c, link, low, from);
      SwitchDown();
      KeptTrans(m0, m2, m3, c, from, from);
      KeptTrans(m0, m3, ram[..], c, from, from);
      BackedOnce(old(chunks), chunks, c);
      AccountsOnce(sig0, c, old(signature), old(cumulated), signature, cumulated);
    }

    /** The frame resumes a function behind the two constants at its start, with all other registers as it was called with. */
    static ghost predicate Arrives(frame: seq<u32>, regs: seq<u32>)
      requires |frame| == |regs| == TRAP_FRAME
    {
      && frame[PC] == Plus(regs[PC], 4) && ClearPadded(frame[XPSR]) == ClearPadded(regs[XPSR])
      && forall k {:trigger frame[k]} :: 0 <= k < TRAP_FRAME && k != LR && k != PC && k != XPSR ==> frame[k] == regs[k]
    }

    static lemma StackedArrives(regs: seq<u32>, from: nat)
      requires |regs| == TRAP_FRAME
      ensures Arrives(BodyFrame(Stacked(regs, from)), regs)
    {
      hide SetPadded, Padded;
      ClearSet(regs[XPSR], from % 2 == 1);
      ClearTwice(Stacked(regs, from)[XPSR]);
    }

    static lemma ClearTwice(xpsr: u32)
      ensures ClearPadded(ClearPadded(xpsr)) == ClearPadded(xpsr)
    {
    }

    /** Memory `m2`, after `m`, keeps what the caller relies on, and has at `at` what a body with registers `regs` starts with. */
    static ghost predicate Landed(m: Mem, m2: Mem, chain: seq<Link>, from: nat, regs: seq<u32>, at: nat, arg: nat)
      requires chain != [] && |regs| == TRAP_FRAME
    {
      && Kept(m, m2, chain, from) && at + TRAP_FRAME + arg <= |m2| && from + arg <= |m|
      && m2[at + LR] == LESS_STACK && FrameWords(m2[at + XPSR]) == TRAP_FRAME && Arrives(m2[at..at + TRAP_FRAME], regs)
      && m2[at..at + 4] == regs[..4] && m2[at + TRAP_FRAME..at + TRAP_FRAME + arg] == m[from..from + arg]
    }

    /** From a callee's prologue to the exception return on a new stacklet. */
    method LeaveFor(regs: seq<u32>, f: Func) returns (r: Growth)
      requires Valid() && Accounted() && WellFormed(f) && |regs| == TRAP_FRAME && bound <= sp && sp + f.arg <= End(Last(chain))
      modifies this, ram, cache, cache.causes, cache.adds
      ensures r == Refusal <==> old(Over(regs, f))
      ensures r == Grown <==> old(!Over(regs, f) && Room(regs, f))
      ensures r != Exhausted ==> Valid()
      ensures r == Refusal ==> old(chain) == chain
      ensures r == Refusal ==> Refused(f.reason)
      ensures r == Exhausted ==> Caused(NoMemory(f))
      ensures r == Grown ==> Accounted() && |chain| == |old(chain)| + 1 && Init(chain) == old(chain)
      ensures r == Grown ==> Last(chain).lr == regs[LR] && Last(chain).prevSp + FrameWords(Last(chain).xpsr) == old(sp)
      ensures r == Grown ==> sp + TRAP_FRAME + f.arg == End(Last(chain)) <= ram.Length && Last(chain).base + OVERHEAD <= sp + TRAP_FRAME
      ensures r == Grown ==> (sp + TRAP_FRAME < bound + f.frame <==> old(Short(regs, f)))
      ensures r == Grown ==> Landed(old(ram[..]), ram[..], old(chain), old(sp), regs, sp, f.arg)
    {
      hide ChainOk, Backed, Kept, MoreMem, LessMem, Extended, Key, Plus, HotSplit.Adjusted, Padded, FrameWords, CanExtend, Splice, Accounts, Stacked, HotSplit.CacheOk, HasRoom, Counted, Signature, Landed;
      ghost var c, from := chain, sp;
      ghost var m0 := ram[..];
      LastFits(m0, c);
      EnterException(regs);
      ghost var low := sp;
      EnteredFrame(m0, low, regs, from);
      var size;
      assert f.frame < 0x1_0000 && f.arg < 0x1_0000;
      hide WellFormed;
      r, size := MoreStack(f.frame, f.arg, f.reason, f.base);
      if r == Grown {
        ghost var words, m2 := StackletWords(size, f.arg, addition), ram[..];
        UpFacts(m0, c, from, regs, low, f.base, words, f.arg, size);
        LastFits(m2, chain);
        assert sp == f.base + words - f.arg - TRAP_FRAME && Last(chain).base == f.base && End(Last(chain)) == f.base + words;
      }
    }

    /** From a callee's prologue to its body on a new stacklet. */
    method SwitchUp(regs: seq<u32>, f: Func) returns (r: Growth)
      requires Valid() && Accounted() && WellFormed(f) && |regs| == TRAP_FRAME && bound <= sp && sp + f.arg <= End(Last(chain))
      modifies this, ram, cache, cache.causes, cache.adds
      ensures r == Refusal <==> old(Over(regs, f))
      ensures r == Grown <==> old(!Over(regs, f) && Room(regs, f))
      ensures r != Exhausted ==> Valid()
      ensures r == Refusal ==> old(chain) == chain
      ensures r == Refusal ==> Refused(f.reason)
      ensures r == Exhausted ==> Caused(NoMemory(f))
      ensures r == Grown ==> Accounted() && |chain| == |old(chain)| + 1 && Init(chain) == old(chain)
      ensures r == Grown ==> Last(chain).lr == regs[LR] && Last(chain).prevSp + FrameWords(Last(chain).xpsr) == old(sp)
      ensures r == Grown ==> |cpu| == TRAP_FRAME && Arrives(cpu, regs)
      ensures r == Grown ==> cpu[..4] == regs[..4] && cpu[LR] == LESS_STACK && sp + f.arg == End(Last(chain)) <= ram.Length
      ensures r == Grown ==> Last(chain).base + OVERHEAD <= sp
      ensures r == Grown ==> (sp < bound + f.frame <==> old(Short(regs, f)))
      ensures r == Grown ==> ram[..][sp..sp + f.arg] == old(ram[..][sp..sp + f.arg])
      ensures r == Grown ==> Kept(old(ram[..]), ram[..], old(chain), old(sp))
    {
      hide ChainOk, Backed, Kept, Padded, FrameWords, Accounts, Counted, Signature, Over, Room, Short, SizeFor;
      r := LeaveFor(regs, f);
      if r == Grown {
        ghost var m2 := ram[..];
        assert ram[sp + LR] == m2[sp + LR] && ram[sp + XPSR] == m2[sp + XPSR] && ram[sp..sp + 4] == m2[sp..sp + 4];
        ghost var frame := ram[sp..sp + TRAP_FRAME];
        assert Arrives(frame, regs) by { assert frame == m2[sp..sp + TRAP_FRAME]; }
        ExitException();
        ClearTwice(frame[XPSR]);
        assert Arrives(cpu, regs);
      }
    }

    /** From the end of a body, by way of `LessStack`, to behind the call. */
    method SwitchDown()
      requires Valid() && Accounted() && |chain| >= 2 && Last(chain).base + META + TRAP_FRAME + PADDING <= sp
      modifies this, ram
      ensures Valid() && Accounted() && chain == Init(old(chain))
      ensures sp == old(Last(chain).prevSp) + FrameWords(old(Last(chain).xpsr))
      ensures cpu[..4] == old(cpu[..4]) && cpu[PC] == old(Last(chain).lr)
      ensures Kept(old(ram[..]), ram[..], chain, sp)
    {
      hide ChainOk, Backed, Kept, MoreMem, LessMem, Extended, Key, Plus, HotSplit.Adjusted, Padded, FrameWords, CanExtend, Splice, Accounts, Stacked, StackletWords, Counted, Signature;
      ghost var c, from, regs := chain, sp, cpu;
      ghost var m := ram[..];
      LastFits(m, c);
      EnterException(cpu);
      DownFacts(m, c, from, regs, sp);
      LessStack();
      ExitException();
    }

    /** What memory holds after `EnterException` and `MoreStack`. */
    static lemma UpFacts(m: Mem, chain: seq<Link>, from: nat, regs: seq<u32>, low: nat, base: nat, words: nat, arg: nat, size: u32)
      requires |regs| == TRAP_FRAME && low + FrameWords(Stacked(regs, from)[XPSR]) == from && from + arg <= |m|
      requires (var m1 := Splice(m, low, Stacked(regs, from));
                ChainOk(m1, chain) && Kept(m, m1, chain, from) && CanExtend(m1, chain, low, base, words, arg))
      ensures (var m2 := MoreMem(Splice(m, low, Stacked(regs, from)), Bound(Last(chain)), low, base, words, arg, size);
               Landed(m, m2, chain, from, regs, base + words - arg - TRAP_FRAME, arg))
    {
      hide Kept, MoreMem, Padded, FrameWords, Splice, Stacked, ChainOk, Arrives, BodyFrame;
      var m1 := Splice(m, low, Stacked(regs, from));
      EnteredFrame(m, low, regs, from);
      EnteredArgs(m, low, regs, from, arg);
      Spliced(m, low, Stacked(regs, from));
      StackedArrives(regs, from);
      NewFrame(m1, chain, low, base, words, arg, size);
      MoreKeeps(m1, chain, low, base, words, arg, size);
      KeptBy(m1, MoreMem(m1, Bound(Last(chain)), low, base, words, arg, size), chain, low, from);
      KeptTrans(m, m1, MoreMem(m1, Bound(Last(chain)), low, base, words, arg, size), chain, from, from);
    }

    /** What memory holds after `EnterException` and `LessStack`. */
    static lemma DownFacts(m: Mem, chain: seq<Link>, from: nat, regs: seq<u32>, at: nat)
      requires |regs| == TRAP_FRAME && at + TRAP_FRAME <= |m| && |chain| >= 2
      requires (var m1 := Splice(m, at, Stacked(regs, from)); ChainOk(m1, chain) && Kept(m, m1, chain, from))
      ensures (var m1 := Splice(m, at, Stacked(regs, from));
               && m1[at..at + 4] == regs[..4] && Last(chain).prevSp + TRAP_FRAME <= |m1|
               && Kept(m, LessMem(m1, Last(chain).prevSp, m1[at..at + 4]), Init(chain), Last(chain).prevSp + FrameWords(Last(chain).xpsr)))
    {
      hide Kept, LessMem, Padded, FrameWords, Splice, Stacked, ChainOk;
      var m1 := Splice(m, at, Stacked(regs, from));
      EnteredFrame(m, at, regs, from);
      ReturnFits(m1, chain);
      LessKept(m, m1, chain, from, m1[at..at + 4]);
    }

    /** The frame that `EnterException` leaves at `at`. */
    static lemma EnteredFrame(m: Mem, at: nat, regs: seq<u32>, from: nat)
      requires |regs| == TRAP_FRAME && at + TRAP_FRAME <= |m|
      ensures (var m', s := Splice(m, at, Stacked(regs, from)), Stacked(regs, from);
               m'[at + LR] == regs[LR] && m'[at + XPSR] == s[XPSR] && m'[at..at + 4] == regs[..4])
    {
      hide SetPadded;
      Spliced(m, at, Stacked(regs, from));
    }

    /** Unstacking gives back the registers and the stack pointer from before the exception, without the mark for padding. */
    static lemma ExitUndoesEntry(m: Mem, regs: seq<u32>, from: nat)
      requires |regs| == TRAP_FRAME && FrameWords(Stacked(regs, from)[XPSR]) <= from <= |m|
      ensures (var at := from - FrameWords(Stacked(regs, from)[XPSR]);
               var m' := Splice(m, at, Stacked(regs, from));
               && at + FrameWords(m'[at + XPSR]) == from && at % 2 == 0
               && m'[at..at + TRAP_FRAME][XPSR := ClearPadded(m'[at + XPSR])] == regs[XPSR := ClearPadded(regs[XPSR])])
    {
      hide Splice;
      var at := from - FrameWords(Stacked(regs, from)[XPSR]);
      EnteredFrame(m, at, regs, from);
      Spliced(m, at, Stacked(regs, from));
      ClearSet(regs[XPSR], from % 2 == 1);
    }

    static lemma ClearSet(xpsr: u32, padded: bool)
      ensures ClearPadded(SetPadded(xpsr, padded)) == ClearPadded(xpsr)
    {
    }

    /** It leaves the words above it alone. */
    static lemma EnteredArgs(m: Mem, at: nat, regs: seq<u32>, from: nat, arg: nat)
      requires |regs| == TRAP_FRAME && at + TRAP_FRAME <= from && from + arg <= |m|
      ensures Splice(m, at, Stacked(regs, from))[from..from + arg] == m[from..from + arg]
    {
      hide SetPadded;
      SameSlice(m, Splice(m, at, Stacked(regs, from)), from, arg);
    }

    /** The frame that `MoreStack` leaves on the new stacklet. */
    static lemma NewFrame(m: Mem, chain: seq<Link>, sp: nat, base: nat, words: nat, arg: nat, size: u32)
      requires ChainOk(m, chain) && CanExtend(m, chain, sp, base, words, arg)
      ensures (var m', at := MoreMem(m, Bound(Last(chain)), sp, base, words, arg, size), base + words - arg - TRAP_FRAME;
               m'[at + LR] == LESS_STACK && FrameWords(m'[at + XPSR]) == TRAP_FRAME && m'[at..at + 4] == m[sp..sp + 4]
               && m'[at..at + TRAP_FRAME] == BodyFrame(m[sp..sp + TRAP_FRAME])
               && m'[base + words - arg..base + words] == m[sp + FrameWords(m[sp + XPSR])..sp + FrameWords(m[sp + XPSR]) + arg])
      ensures base + words <= |m|
    {
      hide MoreMem;
      BodyResumes(m, chain, sp, base, words, arg, size);
      var m', at := MoreMem(m, Bound(Last(chain)), sp, base, words, arg, size), base + words - arg - TRAP_FRAME;
      assert m'[at..at + TRAP_FRAME][LR] == m'[at + LR] && m'[at..at + TRAP_FRAME][XPSR] == m'[at + XPSR];
      assert m'[at..at + 4] == m'[at..at + TRAP_FRAME][..4] && m[sp..sp + 4] == m[sp..sp + TRAP_FRAME][..4];
    }

    /** The body of `f`, on the current stacklet. */
    method RunBody(f: Func) returns (r: Outcome)
      requires Valid() && Accounted() && WellFormed(f) && Fits(f)
      modifies this, ram, cache, cache.causes, cache.adds
      ensures r == Done || Within(r.site, f)
      ensures Caused(r) && (old(AllFit(f, sp - bound)) ==> r == Done)
      ensures r == Done || r.Diverted? ==> Valid()
      ensures r.Diverted? ==> old(chain) <= chain
      ensures r == Done ==> Accounted() && Same(old(chain), old(chunks), old(sp), old(bound))
      ensures r == Done ==> signature == old(signature) && cumulated == old(cumulated)
      ensures r == Done ==> cpu[..4] == f.ret && cpu[PC] == old(cpu[LR])
      ensures r == Done ==> Kept(old(ram[..]), ram[..], chain, sp)
      decreases f, 0
    {
      hide ChainOk, Backed, Kept, Accounts, Over, Room, Short, SizeFor;
      var lr, from := cpu[LR], sp;
      LastFits(ram[..], chain);
      sp := sp - f.frame;
      KeptSelf(ram[..], chain, from);
      for i := 0 to |f.ops|
        invariant Valid() && Accounted() && Same(old(chain), old(chunks), from - f.frame, old(bound))
        invariant signature == old(signature) && cumulated == old(cumulated)
        invariant Kept(old(ram[..]), ram[..], chain, from)
      {
        assert OpOk(f.ops[i], f.frame);
        assert old(AllFit(f, sp - bound)) ==> OpFits(f.ops[i], sp - bound);
        ghost var m := ram[..];
        match f.ops[i]
        case Write(offset, value) =>
          LastFits(m, chain);
          ram[sp + offset] := value;
          FreeWrites(m, ram[..], chain, from);
          KeptTrans(old(ram[..]), m, ram[..], chain, from, from);
        case Invoke(regs, callee) =>
          r := Call(regs, callee);
          if r != Done {
            assert CalledBy(r.site, f.ops[i]);
            return;
          }
          KeptTrans(old(ram[..]), m, ram[..], chain, sp, from);
      }
      sp := from;
      cpu := (f.ret + cpu[4..])[PC := lr];
      r := Done;
    }

    /** Put the returned registers into the trap frame at `prevSp`, and resume at its return address. */
    method HandBack(prevSp: nat)
      requires sp + TRAP_FRAME <= ram.Length && prevSp + TRAP_FRAME <= ram.Length
      modifies ram
      ensures ram[..] == LessMem(old(ram[..]), prevSp, old(ram[sp..sp + 4]))
    {
      ghost var m := ram[..];
      Store(prevSp, ram[sp..sp + 4]);
      ram[prevSp + PC] := ram[prevSp + LR];
      assert ram[..] == LessMem(m, prevSp, m[sp..sp + 4]);
    }
  }

  lemma AccountsMore(sig0: bv32, chain: seq<Link>, link: Link, sig: bv32, cumulated: u32)
    requires chain != [] && Accounts(sig0, chain, sig, cumulated)
    ensures Accounts(sig0, chain + [link], Extended(sig, Key(link.lr)), Plus(cumulated, link.count))
  {
    hide Extended, Key, Plus, Wrap, Counted, Signature;
    Snoc(sig0, chain, link);
    PlusMod(Counted(chain), link.count);
  }

  /** A diverted call leaves no stacklet but stays in the accounts: they are right after it exactly if it asked for nothing and returns to the one address that leaves the signature alone. */
  lemma DivertedOwes(sig0: bv32, chain: seq<Link>, sig: bv32, cumulated: u32, size: u32, lr: u32)
    requires Accounts(sig0, chain, sig, cumulated)
    ensures Accounts(sig0, chain, Extended(sig, Key(lr)), Plus(cumulated, size)) <==> size == 0 && Key(lr) == Xor(Rotated(sig), sig)
  {
    KeepsIff(sig, Key(lr));
    hide Extended, Key, Signature, Counted, Wrap;
  }

  lemma AccountsLess(sig0: bv32, chain: seq<Link>, sig: bv32, cumulated: u32)
    requires |chain| >= 2 && Accounts(sig0, chain, sig, cumulated)
    ensures Accounts(sig0, Init(chain), Shrunk(sig, Key(Last(chain).lr)), Minus(cumulated, Last(chain).count))
  {
    hide Shrunk, Key, Minus, Wrap, Counted, Signature;
    Unsnoc(sig0, chain);
    PlusMod(Counted(chain), Last(chain).count);
  }

  lemma BackedOnce(chunks: seq<Chunk>, chunks': seq<Chunk>, chain: seq<Link>)
    requires Backed(chunks, chain) && Backed(chunks', chain)
    ensures chunks' == chunks
  {
  }

  lemma AccountsOnce(sig0: bv32, chain: seq<Link>, sig: bv32, cumulated: u32, sig': bv32, cumulated': u32)
    requires Accounts(sig0, chain, sig, cumulated) && Accounts(sig0, chain, sig', cumulated')
    ensures sig' == sig && cumulated' == cumulated
  {
  }

  /** Coming back keeps what the caller relies on. */
  lemma LessKept(m: Mem, m': Mem, chain: seq<Link>, low: nat, ret: seq<u32>)
    requires ChainOk(m', chain) && |chain| >= 2 && Kept(m, m', chain, low) && |ret| == 4 && Last(chain).prevSp + TRAP_FRAME <= |m'|
    ensures Kept(m, LessMem(m', Last(chain).prevSp, ret), Init(chain), Last(chain).prevSp + FrameWords(Last(chain).xpsr))
  {
    hide Kept, ChainOk, LessMem, Padded, FrameWords;
    var c, link := Init(chain), Last(chain);
    var sp := link.prevSp + FrameWords(link.xpsr);
    ReturnFits(m', chain);
    InitOk(m', chain);
    FreeWrites(m', LessMem(m', link.prevSp, ret), c, sp);
    Task.LastFits(m', c);
    assert chain == c + [link];
    KeptFrom(m, m', c, link, low, sp);
    KeptTrans(m, m', LessMem(m', link.prevSp, ret), c, sp, sp);
  }

  lemma BackedInit(chunks: seq<Chunk>, chain: seq<Link>)
    requires Backed(chunks, chain) && chain != []
    ensures |chunks| == |chain| && Backed(chunks[..|chunks| - 1], Init(chain))
    ensures chunks == chunks[..|chunks| - 1] + [Chunk(Last(chain).base, Last(chain).words)]
  {
  }

  /** Where the last stacklet returns to. */
  lemma ReturnFits(m: Mem, chain: seq<Link>)
    requires ChainOk(m, chain) && |chain| >= 2
    ensures Last(chain).base + OVERHEAD <= End(Last(chain)) <= |m|
    ensures m[Last(chain).base] == Bound(Last(Init(chain))) && m[Last(chain).base + 1] == Last(chain).prevSp
    ensures Last(Init(chain)).base + META <= Last(chain).prevSp && Last(chain).prevSp + TRAP_FRAME <= |m|
    ensures Last(chain).prevSp + FrameWords(Last(chain).xpsr) <= End(Last(Init(chain))) <= |m|
  {
    var n := |chain| - 1;
    assert Chained(m, chain[n - 1], chain[n]) && MetaOk(m, chain[n]);
  }

  /** What is in the trap frame once the registers have been handed back. */
  lemma LessFacts(m: Mem, chain: seq<Link>, ret: seq<u32>)
    requires ChainOk(m, chain) && |chain| >= 2 && |ret| == 4
    requires Last(chain).prevSp + TRAP_FRAME <= |m| && Last(chain).base + META <= |m|
    ensures var m', l := LessMem(m, Last(chain).prevSp, ret), Last(chain);
      && m'[l.base] == m[l.base] && m'[l.base + 3] == l.count
      && m'[l.prevSp + LR] == l.lr && m'[l.prevSp + PC] == l.lr && m'[l.prevSp + XPSR] == l.xpsr && m'[l.prevSp..l.prevSp + 4] == ret
  {
    hide Padded;
    var n := |chain| - 1;
    assert Chained(m, chain[n - 1], chain[n]) && MetaOk(m, chain[n]) && Apart(chain[n - 1], chain[n]);
  }

  lemma CanNow(m: Mem, chain: seq<Link>, sp: nat, base: nat, words: nat, arg: nat)
    requires chain != [] && MetaOk(m, Last(chain)) && Last(chain).base + META <= sp && sp + TRAP_FRAME <= |m| < 0x4000_0000
    requires sp + FrameWords(m[sp + XPSR]) + arg <= End(Last(chain)) && OVERHEAD + arg <= words && base + words <= |m|
    requires forall i {:trigger chain[i]} :: 0 <= i < |chain| ==> End(chain[i]) <= base || base + words <= chain[i].base
    ensures CanExtend(m, chain, sp, base, words, arg)
  {
  }

  /** What the heap keeps apart lies outside the chain. */
  lemma AwayOk(chunks: seq<Chunk>, m: Mem, chain: seq<Link>, base: nat, words: nat)
    requires Backed(chunks, chain)
    requires forall i :: 0 <= i < |chain| ==> AwayFrom(chunks[i], base, words)
    ensures forall i {:trigger chain[i]} :: 0 <= i < |chain| ==> End(chain[i]) <= base || base + words <= chain[i].base
  {
    forall i {:trigger chain[i]} | 0 <= i < |chain| ensures End(chain[i]) <= base || base + words <= chain[i].base {
      assert AwayFrom(chunks[i], base, words);
    }
  }

  /** The chain does not rely on the extension counter. */
  lemma CounterWrite(m: Mem, chain: seq<Link>, x: u32)
    requires ChainOk(m, chain) && MetaOk(m, Last(chain))
    ensures ChainOk(m[Last(chain).base + 2 := x], chain)
  {
    CounterIsFree(m, chain);
    ChainFrame(m, m[Last(chain).base + 2 := x], chain);
  }

  /** The chunk lies in memory and meets none of those in use. */
  predicate HasRoom(chunks: seq<Chunk>, base: nat, words: nat, size: nat)
  {
    base + words <= size && forall i :: 0 <= i < |chunks| ==> AwayFrom(chunks[i], base, words)
  }

  predicate AwayFrom(c: Chunk, base: nat, words: nat)
  {
    c.base + c.words <= base || base + words <= c.base
  }
}
