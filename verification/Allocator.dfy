/** The allocator itself: RAM is an array of words that every operation updates in place. */
module Allocator {

  import opened Common
  import opened BoundaryTags
  import opened FreeLists
  import opened HeapLayout
  import opened HeapRelease
  import opened HeapAcquire
  import opened HeapInit
  import opened HeapProperties

  const HDR_SIZE: u32 := 4
  const FREE_CHUNK_MIN_SIZE: u32 := 12

  /** Round a payload size up to a chunk size: header, at least 16 bytes, a multiple of 8. */
  function RoundedSize(size: nat): (n: nat)
    ensures n % 8 == 0 && n >= 16 && n >= size + HDR_SIZE
    ensures n == 16 || n < size + HDR_SIZE + 8
  {
    var s := if size + HDR_SIZE < 16 then 16 else size + HDR_SIZE;
    (s + 7) / 8 * 8
  }

  /** The byte address of the payload of the chunk at position `h`. */
  function PayloadAddr(h: nat): nat { LINK_OFFSET + 4 * h + 4 }

  /** The first list that the search looks at. */
  function FitIndex(size: u32): nat
  {
    if ListIndex(size) + 1 < 5 then ListIndex(size) + 1 else 5
  }

  // ---------- First fit ----------

  /** The first chunk of `l` with at least `size` bytes, or 0. */
  ghost function FirstIn(w: Words, l: seq<nat>, size: nat): nat
  {
    if l == [] then 0
    else if l[0] < |w| && ChunkSize(w[l[0]]) >= size then l[0]
    else FirstIn(w, l[1..], size)
  }

  /** The first fit over the lists from `k` on. */
  ghost function FirstFit(w: Words, sent: nat, start: nat, cls: map<nat, nat>, rank: map<nat, nat>, size: nat, k: nat): nat
    requires Linked(w, sent, start, cls, rank)
    decreases LIST_COUNT - k
  {
    if k >= LIST_COUNT then 0
    else
      var h := FirstIn(w, FreeList(w, sent, start, cls, rank, k), size);
      if h != 0 then h else FirstFit(w, sent, start, cls, rank, size, k + 1)
  }

  lemma {:induction false} FirstInFinds(w: Words, l: seq<nat>, size: nat)
    requires forall x :: x in l ==> 0 < x < |w|
    ensures var h := FirstIn(w, l, size);
      && (h != 0 ==> h in l && ChunkSize(w[h]) >= size)
      && (h == 0 ==> forall x :: x in l ==> ChunkSize(w[x]) < size)
  {
    if l != [] {
      assert l[0] in l;
      assert forall x :: x in l[1..] ==> x in l;
      FirstInFinds(w, l[1..], size);
      forall x | x in l && FirstIn(w, l, size) == 0 ensures ChunkSize(w[x]) < size {
        assert x == l[0] || x in l[1..];
      }
    }
  }

  /** The search succeeds exactly when a list from `k` on holds a chunk large enough, and then finds one. */
  lemma {:induction false} FirstFitComplete(w: Words, sent: nat, start: nat, cls: map<nat, nat>, rank: map<nat, nat>, size: nat, k: nat)
    requires Linked(w, sent, start, cls, rank)
    ensures var h := FirstFit(w, sent, start, cls, rank, size, k);
      && (h != 0 ==> h in cls && start <= h < |w| && cls[h] >= k && ChunkSize(w[h]) >= size)
      && (h == 0 ==> forall x :: x in cls && start <= x < |w| && cls[x] >= k ==> ChunkSize(w[x]) < size)
    decreases LIST_COUNT - k
  {
    if k >= LIST_COUNT {
      forall x | x in cls ensures cls[x] < LIST_COUNT { assert NodeOk(w, cls, x); }
    } else {
      ListIsItsClass(w, sent, start, cls, rank, k);
      var l := FreeList(w, sent, start, cls, rank, k);
      forall x | x in l ensures 0 < x < |w| { assert NodeOk(w, cls, x); }
      FirstInFinds(w, l, size);
      FirstFitComplete(w, sent, start, cls, rank, size, k + 1);
    }
  }

  /** Where `n` links lead from node `x`, as RAM has them. */
  function Hop(w: Words, x: nat, n: nat): nat
    decreases n
  {
    if n == 0 then x else if x + 1 < |w| then Hop(w, Next(w, x), n - 1) else 0
  }

  /** The chunk at `h` has `size` bytes and is the one that `i + 1` links lead to from sentinel `k`; the chunks passed on the way do not have them. */
  ghost predicate FirstOfList(w: Words, sent: nat, start: nat, size: nat, h: nat, k: nat, i: nat)
  {
    && start <= h < |w| && ChunkSize(w[h]) >= size && Hop(w, Sentinel(sent, k), i + 1) == h
    && forall j :: 1 <= j <= i ==> var x := Hop(w, Sentinel(sent, k), j); start <= x < |w| && ChunkSize(w[x]) < size
  }

  /** It is the first in the order of the search: no free chunk in a list from the fitting index up to before list `k` has `size` bytes, either. */
  ghost predicate FirstFound(w: Words, sent: nat, start: nat, guard: nat, size: u32, h: nat)
    requires guard < |w|
  {
    exists k, i {:trigger FirstOfList(w, sent, start, size, h, k, i)} ::
      && FitIndex(size) <= k < LIST_COUNT && 0 <= i && FirstOfList(w, sent, start, size, h, k, i)
      && forall x {:trigger x in Walk(w, guard, start)} ::
        x in Walk(w, guard, start) && x < |w| && !SelfAlloc(w[x]) && FitIndex(size) <= ListIndex(ChunkSize(w[x])) < k ==> ChunkSize(w[x]) < size
  }

  lemma {:induction false} ChainHops(w: Words, sent: nat, start: nat, cls: map<nat, nat>, rank: map<nat, nat>, x: nat, i: nat)
    requires Linked(w, sent, start, cls, rank) && x in cls && i < |Chain(w, sent, start, cls, rank, x)|
    ensures Chain(w, sent, start, cls, rank, x)[i] == Hop(w, x, i)
    decreases i
  {
    assert NodeOk(w, cls, x) && RankOk(w, start, cls, rank, x);
    if i > 0 { ChainHops(w, sent, start, cls, rank, Next(w, x), i - 1); }
  }

  ghost predicate Small(w: Words, x: nat, size: nat) { x < |w| && ChunkSize(w[x]) < size }

  /** The place of the first fit in a list. */
  lemma {:induction false} FirstInAt(w: Words, l: seq<nat>, size: nat) returns (i: nat)
    requires forall x :: x in l ==> 0 < x < |w|
    ensures FirstIn(w, l, size) != 0 ==> i < |l| && l[i] == FirstIn(w, l, size) && forall j :: 0 <= j < i ==> Small(w, l[j], size)
  {
    i := 0;
    if l != [] {
      assert l[0] in l;
      if Small(w, l[0], size) {
        assert forall x :: x in l[1..] ==> x in l;
        var n := FirstInAt(w, l[1..], size);
        i := n + 1;
        forall j | 0 <= j < i && FirstIn(w, l, size) != 0 ensures Small(w, l[j], size) {
          if j > 0 { assert l[1..][j - 1] == l[j]; }
        }
      }
    }
  }

  /** The first fit is the first of its list, and no list before that one has a fit. */
  lemma {:induction false} FirstFitAt(w: Words, sent: nat, start: nat, cls: map<nat, nat>, rank: map<nat, nat>, size: nat, from: nat) returns (k: nat, i: nat)
    requires Linked(w, sent, start, cls, rank) && FirstFit(w, sent, start, cls, rank, size, from) != 0
    ensures from <= k < LIST_COUNT && FirstOfList(w, sent, start, size, FirstFit(w, sent, start, cls, rank, size, from), k, i)
    ensures forall x :: x in cls && start <= x < |w| && from <= cls[x] < k ==> ChunkSize(w[x]) < size
    decreases LIST_COUNT - from
  {
    ListIsItsClass(w, sent, start, cls, rank, from);
    var l := FreeList(w, sent, start, cls, rank, from);
    forall x | x in l ensures 0 < x < |w| { assert NodeOk(w, cls, x); }
    FirstInFinds(w, l, size);
    if FirstIn(w, l, size) != 0 {
      k := from;
      i := FirstInAt(w, l, size);
      FirstOfListAt(w, sent, start, cls, rank, size, k, i);
    } else {
      k, i := FirstFitAt(w, sent, start, cls, rank, size, from + 1);
    }
  }

  lemma FirstOfListAt(w: Words, sent: nat, start: nat, cls: map<nat, nat>, rank: map<nat, nat>, size: nat, k: nat, i: nat)
    requires Linked(w, sent, start, cls, rank) && k < LIST_COUNT && i < |FreeList(w, sent, start, cls, rank, k)|
    requires (var l := FreeList(w, sent, start, cls, rank, k);
              (forall x :: x in l ==> start <= x < |w|) && !Small(w, l[i], size) && forall j :: 0 <= j < i ==> Small(w, l[j], size))
    ensures FirstOfList(w, sent, start, size, FreeList(w, sent, start, cls, rank, k)[i], k, i)
  {
    hide Linked, Chain;
    var s, l := Sentinel(sent, k), FreeList(w, sent, start, cls, rank, k);
    forall j | 0 <= j <= i ensures Hop(w, s, j + 1) == l[j] { ListHops(w, sent, start, cls, rank, k, j); }
    forall j | 1 <= j <= i ensures start <= Hop(w, s, j) && Small(w, Hop(w, s, j), size) {
      ListHops(w, sent, start, cls, rank, k, j - 1);
      assert l[j - 1] in l && Small(w, l[j - 1], size);
    }
    assert l[i] in l;
  }

  lemma ListHops(w: Words, sent: nat, start: nat, cls: map<nat, nat>, rank: map<nat, nat>, k: nat, j: nat)
    requires Linked(w, sent, start, cls, rank) && k < LIST_COUNT && j < |FreeList(w, sent, start, cls, rank, k)|
    ensures Hop(w, Sentinel(sent, k), j + 1) == FreeList(w, sent, start, cls, rank, k)[j]
  {
    var s := Sentinel(sent, k);
    assert NodeOk(w, cls, s);
    ChainHops(w, sent, start, cls, rank, Next(w, s), j);
  }

  /**
   The search skips the request's own size class: on a fresh heap whose one chunk is of the same
   class as the request, the request fails even when the chunk is large enough.
   */
  lemma OwnClassSkipped(w: Words, sent: nat, start: nat, guard: nat, rounded: u32) returns (cls: map<nat, nat>, rank: map<nat, nat>)
    requires Room(w, sent, start, guard) && start + 4 <= guard
    requires rounded <= 4 * (guard - start) && ListIndex(rounded) == ListIndex(4 * (guard - start)) < 5
    ensures var w' := InitWords(w, sent, start, guard);
      && HeapInv(w', sent, start, guard, {start}, cls, rank)
      && !SelfAlloc(w'[start]) && ChunkSize(w'[start]) >= rounded
      && FirstFit(w', sent, start, cls, rank, rounded, FitIndex(rounded)) == 0
  {
    hide ListIndex, InitWords, SelfAlloc, ChunkSize, Next, Prev;
    cls, rank := InitEstablishes(w, sent, start, guard);
    FirstFitComplete(InitWords(w, sent, start, guard), sent, start, cls, rank, rounded, FitIndex(rounded));
  }

  /** Every size class below the last one has a request that a heap could serve and the search does not. */
  lemma EveryClassSkipped(k: nat) returns (w: Words, guard: nat, cls: map<nat, nat>, rank: map<nat, nat>, rounded: u32)
    requires k < 5
    ensures ListIndex(rounded) == k && rounded % 8 == 0 && 16 <= rounded
    ensures HeapInv(w, 0, 13, guard, {13}, cls, rank) && !SelfAlloc(w[13]) && ChunkSize(w[13]) == rounded
    ensures FirstFit(w, 0, 13, cls, rank, rounded, FitIndex(rounded)) == 0
  {
    hide ListIndex, InitWords, SelfAlloc, ChunkSize, Span, Next, Prev, HeapInv, FirstFit;
    rounded := if k == 0 then 16 else if k == 1 then 32 else if k == 2 then 64 else if k == 3 then 128 else 256;
    ListIndexIsSizeClass(rounded);
    guard := 13 + rounded / 4;
    var blank: Words := seq(guard + 1, _ => 0);
    cls, rank := OwnClassSkipped(blank, 0, 13, guard, rounded);
    w := InitWords(blank, 0, 13, guard);
    FirstSize(blank, 0, 13, guard);
  }

  /** The first chunk spans the whole heap. */
  lemma FirstSize(w: Words, sent: nat, start: nat, guard: nat)
    requires Room(w, sent, start, guard) && start + 4 <= guard
    ensures start < |InitWords(w, sent, start, guard)| && ChunkSize(InitWords(w, sent, start, guard)[start]) == 4 * (guard - start)
  {
    var cls, rank := InitEstablishes(w, sent, start, guard);
  }

  function Larger(a: nat, b: nat): nat { if a < b then b else a }

  class Heap {
    /** RAM from the link offset up. */
    const ram: array<u32>
    /** Where the six sentinels stand. */
    const sent: nat
    /** The first header. */
    const start: nat
    /** The guard header at the end. */
    const guard: nat

    /** The one cached chunk; 0 when there is none. */
    var cached: nat
    var curAllocSize: nat
    var maxAllocSize: nat
    var highWaterMark: nat
    var highWaterMarkJustUpdated: bool

    /** All headers, the list and rank of every list node, and the chunks that clients hold. */
    ghost var headers: set<nat>
    ghost var cls: map<nat, nat>
    ghost var rank: map<nat, nat>
    ghost var live: set<nat>

    ghost predicate Inv()
      reads this, ram
    {
      HeapInv(ram[..], sent, start, guard, headers, cls, rank)
    }

    /** Exactly the live chunks and the cached chunk are flagged allocated, and they are what the counters count. */
    ghost predicate Valid()
      reads this, ram
    {
      && Inv()
      && Owned(ram[..], headers, live, cached)
      && curAllocSize == 4 * AllocWords(ram[..], start, guard, headers, start) <= maxAllocSize
      && BelowMark(ram[..], headers, highWaterMark)
    }

    /** Set up the heap between the end of the data section and the end of `mem`, as one free chunk. */
    constructor (mem: array<u32>, sentinels: nat, dataEnd: u32)
      requires mem.Length <= 0x1_0000 && mem.Length % 2 == 0
      requires LINK_OFFSET + 4 * (sentinels + 2 * LIST_COUNT) <= dataEnd
      requires HeapStart(dataEnd).Some? && HeapStart(dataEnd).value + 20 <= LINK_OFFSET + 4 * mem.Length
      modifies mem
      ensures Valid() && ram == mem && sent == sentinels && guard == mem.Length - 1
      ensures LINK_OFFSET + 4 * start == HeapStart(dataEnd).value
      ensures live == {} && cached == 0 && headers == {start} && curAllocSize == 0
      ensures mem[..] == InitWords(old(mem[..]), sentinels, start, guard)
    {
      hide HeapStart, InitWords, HeapInv;
      StartPosition(dataEnd);
      ram, sent, start, guard := mem, sentinels, (HeapStart(dataEnd).value - LINK_OFFSET) / 4, mem.Length - 1;
      cached, curAllocSize, maxAllocSize, highWaterMark, highWaterMarkJustUpdated := 0, 0, 0, 0, false;
      live, headers := {}, {(HeapStart(dataEnd).value - LINK_OFFSET) / 4};
      cls, rank := map[], map[];
      new;
      Init();
    }

    /** Empty the lists, write the first chunk and the guard, and link the chunk. */
    method Init()
      requires Room(ram[..], sent, start, guard) && start + 4 <= guard
      modifies ram, `cls, `rank
      ensures ram[..] == InitWords(old(ram[..]), sent, start, guard)
      ensures HeapInv(ram[..], sent, start, guard, {start}, cls, rank)
      ensures AllocWords(ram[..], start, guard, {start}, start) == 0 && !SelfAlloc(ram[start])
    {
      hide HeapInv, Link, SelfAlloc, ListIndex, EmptyLists, FirstChunk, AllocWords;
      ghost var w := ram[..];
      ghost var cls0, rank0 := InitEstablishes(w, sent, start, guard);
      Unlisted(w, sent, start, guard);
      ClearLists();
      WriteFirstChunk();
      LinkChunk(FirstSentinel(sent, start, guard), start);
      cls, rank := cls0, rank0;
    }

    /** Let every sentinel link to itself. */
    method ClearLists()
      requires sent + 2 * LIST_COUNT < ram.Length <= 0x1_0000
      modifies ram
      ensures ram[..] == EmptyLists(old(ram[..]), sent, LIST_COUNT)
    {
      hide EmptyList, Next, Prev;
      var idx := 0;
      while idx <= 5
        invariant idx <= 6
        invariant ram[..] == EmptyLists(old(ram[..]), sent, idx)
      {
        ClearList(idx);
        idx := idx + 1;
      }
    }

    /** Link one sentinel to itself. */
    method ClearList(idx: nat)
      requires idx < LIST_COUNT && sent + 2 * LIST_COUNT < ram.Length <= 0x1_0000
      modifies ram
      ensures ram[..] == EmptyList(old(ram[..]), sent, idx)
    {
      ghost var w := ram[..];
      var hdr := Sentinel(sent, idx);
      ram[hdr + 1] := PosToLink(hdr) * 0x1_0000 + ram[hdr + 1] % 0x1_0000;
      assert ram[..] == SetNext(w, hdr, hdr);
      ram[hdr + 1] := ram[hdr + 1] / 0x1_0000 * 0x1_0000 + PosToLink(hdr);
    }

    /** Tag everything between start and guard as one free chunk and raise the guard. */
    method WriteFirstChunk()
      requires start + 4 <= guard && guard + 1 == ram.Length <= 0x1_0000 && (guard - start) % 2 == 0
      modifies ram
      ensures ram[..] == FirstChunk(old(ram[..]), start, guard)
    {
      hide Span, SelfAlloc, LeftAlloc, ListIndex;
      SetFreeChunkHdrFtr(start, 4 * (guard - start));
      ram[start] := SetLeft(ram[start]);
      HeaderUnique(ram[start], Header(guard - start, false, true));
      ram[guard] := 0;
      ram[guard] := WithSize(ram[guard], 0);
      ram[guard] := SetSelf(ram[guard]);
      ram[guard] := ClearLeft(ram[guard]);
      HeaderUnique(ram[guard], Header(0, true, false));
    }

    lemma HeapIsLinked()
      requires Inv()
      ensures Linked(ram[..], sent, start, cls, rank)
    {
    }

    /** Headers stand at odd positions inside RAM. */
    lemma HeaderBounds()
      requires Inv()
      ensures ram.Length <= 0x1_0000 && 0 < start
      ensures forall h {:trigger h in headers} :: h in headers ==> start <= h < ram.Length && h % 2 == 1 && h + Span(ram[h]) < ram.Length
    {
    }

    lemma GuardInside()
      requires Inv()
      ensures guard < ram.Length
    {
    }

    lemma GuardBelow()
      requires Valid()
      ensures guard < ram.Length
    {
    }

    lemma LiveBounds()
      requires Valid()
      ensures forall h {:trigger h in live} :: h in live ==> h in headers && 0 < h && 4 <= Span(ram[h]) && h + Span(ram[h]) < ram.Length
    {
      forall h {:trigger h in live} | h in live ensures h in headers && 0 < h && 4 <= Span(ram[h]) && h + Span(ram[h]) < ram.Length {
        assert h in headers;
      }
    }

    lemma IncludedInTotal(h: nat)
      requires Inv() && h in headers && SelfAlloc(ram[h])
      ensures 4 * Span(ram[h]) <= 4 * AllocWords(ram[..], start, guard, headers, start)
    {
      AllocWordsInclude(ram[..], start, guard, headers, start, h);
    }

    // ---------- List primitives ----------

    method UnlinkChunk(hdr: nat)
      requires CanUnlink(ram[..], hdr)
      modifies ram
      ensures ram[..] == Unlink(old(ram[..]), hdr)
    {
      var prev, next := ram[hdr + 1] % 0x1_0000, ram[hdr + 1] / 0x1_0000;
      ram[prev + 1] := PosToLink(next) * 0x1_0000 + ram[prev + 1] % 0x1_0000;
      ram[next + 1] := ram[next + 1] / 0x1_0000 * 0x1_0000 + PosToLink(prev);
    }

    method LinkChunk(prev: nat, hdr: nat)
      requires prev + 1 < ram.Length && Next(ram[..], prev) + 1 < ram.Length && hdr + 1 < ram.Length
      modifies ram
      ensures ram[..] == Link(old(ram[..]), prev, hdr)
    {
      ghost var w := ram[..];
      var next := ram[prev + 1] / 0x1_0000;
      ram[prev + 1] := PosToLink(hdr) * 0x1_0000 + ram[prev + 1] % 0x1_0000;
      ghost var w1 := SetNext(w, prev, hdr);
      assert ram[..] == w1;
      ram[next + 1] := ram[next + 1] / 0x1_0000 * 0x1_0000 + PosToLink(hdr);
      ghost var w2 := SetPrev(w1, next, hdr);
      assert ram[..] == w2;
      ram[hdr + 1] := PosToLink(next) * 0x1_0000 + ram[hdr + 1] % 0x1_0000;
      assert ram[..] == SetNext(w2, hdr, next);
      ram[hdr + 1] := ram[hdr + 1] / 0x1_0000 * 0x1_0000 + PosToLink(prev);
    }

    // ---------- Searching ----------

    /** The payload is that of the first fit. */
    ghost predicate Searched(w: Words, rounded: u32, payload: nat)
    {
      guard < |w| && exists h :: payload == PayloadAddr(h) && FirstFound(w, sent, start, guard, rounded, h)
    }

    lemma SearchedAt(w: Words, rounded: u32, hdr: nat)
      requires guard < |w| && FirstFound(w, sent, start, guard, rounded, hdr)
      ensures Searched(w, rounded, PayloadAddr(hdr))
    {
      hide FirstFound;
      assert PayloadAddr(hdr) == PayloadAddr(hdr);
    }

    /** What the search finds is the first fit that RAM has in its order. */
    lemma FirstFitIsFound(rounded: u32)
      requires Inv() && FirstFit(ram[..], sent, start, cls, rank, rounded, FitIndex(rounded)) != 0
      ensures Searched(ram[..], rounded, PayloadAddr(FirstFit(ram[..], sent, start, cls, rank, rounded, FitIndex(rounded))))
    {
      GuardInside();
      hide FirstFit, FirstOfList, FitIndex, ListIndex, ChunkSize, SelfAlloc, Span, Linked;
      var w := ram[..];
      var k, i := FirstFitAt(w, sent, start, cls, rank, rounded, FitIndex(rounded));
      WalkFindsHeaders(w, start, guard, headers, start);
      forall x {:trigger x in Walk(w, guard, start)} |
        x in Walk(w, guard, start) && x < |w| && !SelfAlloc(w[x]) && FitIndex(rounded) <= ListIndex(ChunkSize(w[x])) < k
        ensures ChunkSize(w[x]) < rounded
      {
        assert x in headers && RightTag(w, x);
      }
      assert FirstOfList(w, sent, start, rounded, FirstFit(w, sent, start, cls, rank, rounded, FitIndex(rounded)), k, i);
      SearchedAt(w, rounded, FirstFit(w, sent, start, cls, rank, rounded, FitIndex(rounded)));
    }

    /** Walk the lists from the fitting index up and return the first chunk large enough, or 0. */
    method SearchFirstFit(size: u32) returns (hdr: nat)
      requires Inv()
      ensures hdr == FirstFit(ram[..], sent, start, cls, rank, size, FitIndex(size))
      ensures hdr != 0 ==> Searched(ram[..], size, PayloadAddr(hdr))
    {
      hide HeapInv, Searched;
      ghost var w := ram[..];
      HeapIsLinked();
      var idx := FitIndex(size);
      while idx <= 5
        invariant FirstFit(w, sent, start, cls, rank, size, FitIndex(size)) == FirstFit(w, sent, start, cls, rank, size, idx)
      {
        var end := Sentinel(sent, idx);
        assert NodeOk(w, cls, end) && RankOk(w, start, cls, rank, Next(w, end));
        var cur := ram[end + 1] / 0x1_0000;
        ghost var first := cur;
        while cur != end
          invariant cur in cls && cur in rank && cls[cur] == idx
          invariant FirstIn(w, Chain(w, sent, start, cls, rank, first), size) == FirstIn(w, Chain(w, sent, start, cls, rank, cur), size)
          decreases if cur in rank then rank[cur] else 0
        {
          assert NodeOk(w, cls, cur) && RankOk(w, start, cls, rank, cur);
          if ChunkSize(ram[cur]) >= size {
            assert Chain(w, sent, start, cls, rank, cur)[0] == cur;
            FirstFitIsFound(size);
            return cur;
          }
          cur := ram[cur + 1] / 0x1_0000;
        }
        idx := idx + 1;
      }
      return 0;
    }

    // ---------- Freeing ----------

    /** The run around `hdr` is off the lists and its header, which is returned, spans it. */
    twostate predicate RunMerged(hdr: nat, m: nat)
      reads this, ram
    {
      && 0 < hdr < ram.Length && hdr + Span(old(ram[hdr])) < ram.Length
      && m == RunStart(old(ram[..]), hdr)
      && Merged(old(ram[..]), ram[..], sent, start, guard, headers, old(cls), cls, rank, m, RunEnd(old(ram[..]), hdr))
    }

    method UnlinkAndMergeRight(hdr: nat) returns (m: nat)
      requires Inv() && hdr in headers && SelfAlloc(ram[hdr])
      requires LeftAlloc(ram[hdr]) && !SelfAlloc(ram[hdr + Span(ram[hdr])])
      modifies ram, `cls
      ensures RunMerged(hdr, m)
    {
      hide HeapInv, Linked, Undisturbed, Merged, Outside, Unlink, CanUnlink, RunEnd, ChunkSize, Span, SelfAlloc, LeftAlloc, WithSize;
      HeaderBounds();
      ghost var w := ram[..];
      MergeFacts(w, sent, start, guard, headers, cls, rank, hdr);
      var right := hdr + Span(ram[hdr]);
      UnlinkFirst(w, sent, start, guard, headers, cls, rank, right);
      UnlinkChunk(right);
      ghost var w1 := ram[..];
      ghost var before := cls;
      cls := cls - {right};
      assert cls == before - {} - {right};
      var total := ChunkSize(ram[hdr]) + ChunkSize(ram[right]);
      MergeCompletes(w, w1, sent, start, guard, headers, before, cls, rank, hdr, hdr, total);
      ram[hdr] := WithSize(ram[hdr], total);
      return hdr;
    }

    method UnlinkAndMergeLeft(hdr: nat) returns (m: nat)
      requires Inv() && hdr in headers && SelfAlloc(ram[hdr])
      requires !LeftAlloc(ram[hdr]) && SelfAlloc(ram[hdr + Span(ram[hdr])])
      modifies ram, `cls
      ensures RunMerged(hdr, m)
    {
      hide HeapInv, Linked, Undisturbed, Merged, Outside, Unlink, CanUnlink, RunEnd, ChunkSize, Span, SelfAlloc, LeftAlloc, WithSize;
      HeaderBounds();
      ghost var w := ram[..];
      MergeFacts(w, sent, start, guard, headers, cls, rank, hdr);
      var left := hdr - Span(ram[hdr - 1]);
      UnlinkFirst(w, sent, start, guard, headers, cls, rank, left);
      UnlinkChunk(left);
      ghost var w1 := ram[..];
      ghost var before := cls;
      cls := cls - {left};
      assert cls == before - {left} - {};
      var total := ChunkSize(ram[hdr]) + ChunkSize(ram[left]);
      MergeCompletes(w, w1, sent, start, guard, headers, before, cls, rank, hdr, left, total);
      ram[left] := WithSize(ram[left], total);
      return left;
    }

    method UnlinkAndMergeNeighbor(hdr: nat) returns (m: nat)
      requires Inv() && hdr in headers && SelfAlloc(ram[hdr])
      requires !LeftAlloc(ram[hdr]) && !SelfAlloc(ram[hdr + Span(ram[hdr])])
      modifies ram, `cls
      ensures RunMerged(hdr, m)
    {
      hide HeapInv, Merged, Unlink, CanUnlink, RunStart, RunEnd, ChunkSize, Span, WithSize, SelfAlloc, LeftAlloc;
      HeaderBounds();
      ghost var l, r, w1, w2, sum := MergeBoth(ram[..], sent, start, guard, headers, cls, rank, hdr);
      var left := hdr - Span(ram[hdr - 1]);
      var right := hdr + Span(ram[hdr]);
      UnlinkChunk(left);
      assert ram[..] == w1;
      UnlinkChunk(right);
      assert ram[..] == w2;
      cls := cls - {left} - {right};
      var total := ChunkSize(ram[hdr]) + ChunkSize(ram[left]) + ChunkSize(ram[right]);
      ram[left] := WithSize(ram[left], total);
      return left;
    }

    method MergeNeighborIfPossible(hdr: nat) returns (m: nat)
      requires Inv() && hdr in headers && SelfAlloc(ram[hdr])
      modifies ram, `cls
      ensures RunMerged(hdr, m)
    {
      RunFacts(ram[..], start, guard, headers, hdr);
      var leftFree := !LeftAlloc(ram[hdr]);
      var rightFree := !SelfAlloc(ram[hdr + Span(ram[hdr])]);
      if leftFree && rightFree {
        m := UnlinkAndMergeNeighbor(hdr);
      } else if leftFree {
        m := UnlinkAndMergeLeft(hdr);
      } else if rightFree {
        m := UnlinkAndMergeRight(hdr);
      } else {
        NoNeighbourMerged(ram[..], sent, start, guard, headers, cls, rank, hdr);
        m := hdr;
      }
    }

    /** Write the header and footer of the free run at `m` and tell its right neighbour. */
    method TagRun(m: nat)
      requires m < ram.Length && 4 <= Span(ram[m]) && m + Span(ram[m]) < ram.Length
      modifies ram
      ensures ram[..] == TagFree(old(ram[..]), m)
    {
      ram[m] := ClearSelf(ram[m]);
      ram[m + Span(ram[m]) - 1] := ChunkSize(ram[m]);
      ram[m] := SetLeft(ram[m]);
      var right := m + Span(ram[m]);
      ram[right] := ClearLeft(ram[right]);
    }

    /** Turn the allocated chunk at `hdr` and its free neighbours into one free chunk on its list. */
    method ReleaseChunk(hdr: nat)
      requires Inv() && hdr in headers && SelfAlloc(ram[hdr])
      modifies ram, `headers, `cls, `rank
      ensures Inv() && hdr < ram.Length
      ensures ReleasedOnly(old(ram[..]), ram[..], old(headers), headers, hdr)
      ensures AllocWords(ram[..], start, guard, headers, start) == old(AllocWords(ram[..], start, guard, headers, start)) - Span(old(ram[hdr]))
    {
      ghost var w := ram[..];
      RunFacts(w, start, guard, headers, hdr);
      ghost var before := cls;
      var m := MergeNeighborIfPossible(hdr);
      ghost var w1 := ram[..];
      ghost var e := RunEnd(w, hdr);
      assert Merged(w, w1, sent, start, guard, headers, before, cls, rank, m, e);
      ReleaseStages(w, w1, sent, start, guard, headers, before, cls, rank, hdr, m, e);
      TagRun(m);
      ghost var w2 := ram[..];
      var idx := ListIndex(ChunkSize(ram[m]));
      LinkChunk(Sentinel(sent, idx), m);
      headers := Coalesced(headers, m, e);
      rank := rank[m := FreshRank(w2, rank, Sentinel(sent, idx))];
      cls := cls[m := idx];
    }

    /** Cache the chunk, or, when another one is cached, take its place and release that one. */
    method Free(payload: nat)
      requires Valid()
      requires exists h :: h in live && payload == PayloadAddr(h)
      modifies this, ram
      ensures Valid()
      ensures exists h :: h in old(live) && payload == PayloadAddr(h) && live == old(live) - {h} && cached == h
      ensures PayloadsKept(old(ram[..]), ram[..], live)
      ensures old(cached) == 0 ==> ram[..] == old(ram[..]) && headers == old(headers) && curAllocSize == old(curAllocSize)
      ensures old(cached) != 0 ==> curAllocSize == old(curAllocSize) - ChunkSize(old(ram[cached]))
      ensures highWaterMark == old(highWaterMark) && maxAllocSize == old(maxAllocSize) && highWaterMarkJustUpdated == old(highWaterMarkJustUpdated)
    {
      hide HeapInv, ReleasedOnly, AllocWords;
      HeaderBounds();
      var hdr := (payload - HDR_SIZE - LINK_OFFSET) / 4;
      assert hdr in live && payload == PayloadAddr(hdr);
      live := live - {hdr};
      if cached == 0 {
        cached := hdr;
        return;
      }
      var released := cached;
      cached := hdr;
      IncludedInTotal(released);
      curAllocSize := curAllocSize - ChunkSize(ram[released]);
      ReleaseChunk(released);
      HeaderBounds();
      ReleasedOwned(old(ram[..]), ram[..], old(headers), headers, old(live), released, hdr);
    }

    // ---------- Allocating ----------

    /** Write the header and footer of a free chunk of `size` bytes. */
    method SetFreeChunkHdrFtr(hdr: nat, size: u32)
      requires size % 8 == 0 && 8 <= size && hdr + size / 4 <= ram.Length
      modifies ram
      ensures ram[..] == old(ram[..])[hdr := Header(size / 4, false, false)][hdr + size / 4 - 1 := Header(size / 4, false, false)]
    {
      ram[hdr] := 0;
      ram[hdr] := WithSize(ram[hdr], size);
      ram[hdr + Span(ram[hdr]) - 1] := size;
      ram[hdr] := ClearSelf(ram[hdr]);
      HeaderComplete(ram[hdr]);
      HeaderComplete(size);
    }

    /** Put the part of the free, unlinked chunk at `hdr` beyond `size` bytes back on a list if it can be a chunk. */
    method ReturnExcessToFreeList(hdr: nat, size: nat)
      requires hdr < ram.Length <= 0x1_0000 && size % 8 == 0 && 16 <= size <= ChunkSize(ram[hdr])
      requires Span(ram[hdr]) % 2 == 0
      requires size + 16 <= ChunkSize(ram[hdr]) ==> Splittable(ram[..], sent, hdr, size / 4)
      modifies ram
      ensures ram[..] == if old(ChunkSize(ram[hdr])) < size + 16 then old(ram[..]) else ExcessReturned(old(ram[..]), sent, hdr, size / 4)
    {
      hide Link, Next, Prev, WithSize, Header, ListIndex, Span, ChunkSize, FirstFit, SelfAlloc, LeftAlloc, RoundedSize, TagRest;
      var total := ChunkSize(ram[hdr]);
      if total < size + FREE_CHUNK_MIN_SIZE {
        return;
      }
      RestWritten(ram[..], sent, hdr, size);
      var rightSize := total - size;
      var right := hdr + size / 4;
      SetFreeChunkHdrFtr(right, rightSize);
      LinkChunk(Sentinel(sent, ListIndex(rightSize)), right);
      ram[hdr] := WithSize(ram[hdr], size);
    }

    /** Set the three flags of a freshly allocated chunk. */
    method TagAllocated(hdr: nat)
      requires hdr < ram.Length && 0 < Span(ram[hdr]) && hdr + Span(ram[hdr]) < ram.Length
      modifies ram
      ensures ram[..] == TagTaken(old(ram[..]), hdr)
    {
      ram[hdr] := SetSelf(ram[hdr]);
      ram[hdr] := SetLeft(ram[hdr]);
      var right := hdr + Span(ram[hdr]);
      ram[right] := SetLeft(ram[right]);
    }

    /** Return what `size` bytes of the chunk at `hdr` leave over, and set the flags. */
    method CarveChunk(hdr: nat, size: nat)
      requires size % 8 == 0 && Carvable(ram[..], sent, hdr, size / 4)
      modifies ram
      ensures ram[..] == Carved(old(ram[..]), sent, hdr, size / 4)
    {
      hide Splittable, ExcessReturned;
      ReturnExcessToFreeList(hdr, size);
      TagAllocated(hdr);
    }

    lemma WordsInSize(size: nat)
      requires size % 8 == 0 && 16 <= size
      ensures 4 <= size / 4 && size / 4 % 2 == 0 && 4 * (size / 4) == size
    {
    }

    /** Allocate the free chunk at `hdr`. */
    method AcquireChunk(hdr: nat, size: nat)
      requires Inv() && hdr in cls && start <= hdr < ram.Length
      requires size % 8 == 0 && 16 <= size <= ChunkSize(ram[hdr])
      modifies ram, `headers, `cls, `rank
      ensures Inv() && hdr in headers
      ensures ChunkSize(ram[hdr]) == if old(ChunkSize(ram[hdr])) == size + 8 then size + 8 else size
      ensures AcquiredOnly(old(ram[..]), ram[..], old(headers), headers, hdr)
      ensures AllocWords(ram[..], start, guard, headers, start) == old(AllocWords(ram[..], start, guard, headers, start)) + Span(ram[hdr])
    {
      hide HeapInv, AcquiredOnly, Undisturbed, Linked, Tiled, AllocWords, Carved, Splittable, Unlink;
      DetachFree(ram[..], sent, start, guard, headers, cls, rank, hdr);
      ChunkBounds(ram[..], sent, start, guard, headers, cls, rank, hdr);
      ghost var w := ram[..];
      HeaderBounds();
      WordsInSize(size);
      assert size / 4 <= Span(w[hdr]);
      UnlinkChunk(hdr);
      ghost var headers', cls', rank', n := CarveAcquires(w, ram[..], sent, start, guard, headers, cls, rank, hdr, size / 4);
      CarveChunk(hdr, size);
      headers, cls, rank := headers', cls', rank';
    }

    /** A client stores `v` in word `i` of the chunk that it holds. */
    method Store(h: nat, i: nat, v: u32)
      requires Valid() && h in live && 0 < i < Span(ram[h])
      modifies ram
      ensures Valid() && h + i < ram.Length && ram[..] == old(ram[..])[h + i := v]
      ensures Span(ram[h]) == old(Span(ram[h]))
      ensures PayloadsKept(old(ram[..]), ram[..], live - {h})
    {
      hide HeapInv, AllocWords, Span, SelfAlloc, FirstFit;
      HeaderBounds();
      PayloadWrite(ram[..], sent, start, guard, headers, cls, rank, h, h + i, v);
      ram[h + i] := v;
    }

    // ---------- What clients can rely on ----------

    /** Payloads in use are 8-byte aligned, inside the heap and pairwise disjoint. */
    lemma PayloadSafety(a: nat, b: nat, byte: nat)
      requires Valid() && a in live && b in live && a != b
      requires PayloadAddr(a) <= byte < PayloadAddr(a) + ChunkSize(ram[a]) - HDR_SIZE
      ensures PayloadAddr(a) % 8 == 0
      ensures LINK_OFFSET + 4 * start < byte < LINK_OFFSET + 4 * guard
      ensures !(PayloadAddr(b) - HDR_SIZE <= byte < PayloadAddr(b) + ChunkSize(ram[b]) - HDR_SIZE)
    {
      hide Tagged, Linked, Coupled, AllocWords, BelowMark, SelfAlloc;
      HeaderBounds();
      PayloadsDisjoint(ram[..], start, guard, headers, a, b, (byte - LINK_OFFSET) / 4);
    }

    /** The counter and the free chunks always add up to the initial free chunk. */
    lemma Conservation()
      requires Valid()
      ensures curAllocSize + 4 * FreeWords(ram[..], start, guard, headers, start) == 4 * (guard - start)
    {
      WordsConserved(ram[..], start, guard, headers, start);
    }

    /** When the search fails, every free chunk is smaller than twice the rounded size. */
    lemma FailureBound(rounded: u32)
      requires Valid() && 16 <= rounded && SearchFails(rounded)
      ensures forall h {:trigger h in headers} :: h in headers && !SelfAlloc(ram[h]) ==> ChunkSize(ram[h]) < 2 * rounded
    {
      forall h {:trigger h in headers} | h in headers && !SelfAlloc(ram[h]) ensures ChunkSize(ram[h]) < 2 * rounded {
        if ChunkSize(ram[h]) >= 2 * rounded { DoubleSizeIsSearched(ChunkSize(ram[h]), rounded); }
      }
    }

    /** The search fails exactly when every free chunk that would fit is of the request's own class, and that is not the last one. */
    lemma FailsIff(rounded: u32)
      requires Valid() && 16 <= rounded
      ensures SearchFails(rounded) <==> forall h {:trigger h in headers} :: h in headers && Fits(h, rounded) ==> IsMissed(h, rounded)
    {
      forall h {:trigger h in headers} | h in headers && Fits(h, rounded)
        ensures ListIndex(ChunkSize(ram[h])) >= FitIndex(rounded) <==> !IsMissed(h, rounded)
      {
        LargerIsNoLower(ChunkSize(ram[h]), rounded);
      }
    }

    /** The chunk at `h` is free and has at least `rounded` bytes. */
    ghost predicate Fits(h: nat, rounded: nat)
      reads this, ram
    {
      h < ram.Length && !SelfAlloc(ram[h]) && ChunkSize(ram[h]) >= rounded
    }

    /** The chunk at `h` is of the same class as the request, below the last one. */
    ghost predicate IsMissed(h: nat, rounded: u32)
      reads this, ram
      requires h < ram.Length
    {
      ListIndex(ChunkSize(ram[h])) == ListIndex(rounded) < 5
    }

    /** From 512 bytes on the search is complete: it fails exactly when no free chunk fits. */
    lemma FailsIffLarge(rounded: u32)
      requires Valid() && 512 <= rounded
      ensures SearchFails(rounded) <==> forall h {:trigger h in headers} :: h in headers ==> !Fits(h, rounded)
    {
      FailsIff(rounded);
      ListIndexIsSizeClass(rounded);
    }

    /** A failing search misses a chunk that would fit exactly when there is one in the request's own class, below the last. */
    lemma MissesIff(rounded: u32)
      requires Valid() && 16 <= rounded && SearchFails(rounded)
      ensures (exists h :: h in headers && Fits(h, rounded))
              <==> ListIndex(rounded) < 5 && exists h :: h in headers && Fits(h, rounded) && ListIndex(ChunkSize(ram[h])) == ListIndex(rounded)
    {
      FailsIff(rounded);
    }

    /** After every client has freed its chunks, only the cached chunk is allocated and at most two free chunks remain. */
    lemma AtRest()
      requires Valid() && live == {}
      ensures forall h {:trigger h in headers} :: h in headers && SelfAlloc(ram[h]) ==> h == cached
      ensures |FreeChunks(ram[..], headers)| <= 2
      ensures cached == 0 ==> headers == {start} && curAllocSize == 0
      ensures cached != 0 ==> curAllocSize == ChunkSize(ram[cached])
    {
      RestingChunks(ram[..], start, guard, headers, cached);
      RestingTotal(ram[..], start, guard, headers, cached, start);
    }

    /** Following sizes from the first header finds exactly the headers. */
    lemma HeadersFromRam()
      requires Valid()
      ensures forall h :: h in headers <==> h in Walk(ram[..], guard, start)
    {
      WalkFindsHeaders(ram[..], start, guard, headers, start);
    }

    /** The cached chunk satisfies a request of `rounded` bytes. */
    ghost predicate CacheServes(rounded: nat)
      reads this, ram
    {
      cached != 0 && cached < ram.Length && rounded <= ChunkSize(ram[cached]) <= rounded + 512
    }

    /** No free chunk in a list from the fitting index up has `rounded` bytes. */
    ghost predicate SearchFails(rounded: nat)
      requires rounded < 0x1_0000_0000
      reads this, ram
    {
      forall h {:trigger h in headers} :: h in headers && h < ram.Length && !SelfAlloc(ram[h]) && ListIndex(ChunkSize(ram[h])) >= FitIndex(rounded)
        ==> ChunkSize(ram[h]) < rounded
    }

    /** Count a fresh allocation and move the high water mark. */
    method RecordAllocation(hdr: nat)
      requires hdr < ram.Length
      modifies `curAllocSize, `maxAllocSize, `highWaterMark, `highWaterMarkJustUpdated
      ensures curAllocSize == old(curAllocSize) + ChunkSize(ram[hdr]) && maxAllocSize == Larger(old(maxAllocSize), curAllocSize)
      ensures highWaterMark == Larger(old(highWaterMark), LINK_OFFSET + 4 * (hdr + Span(ram[hdr])))
      ensures highWaterMarkJustUpdated == (old(highWaterMarkJustUpdated) || highWaterMark > old(highWaterMark))
    {
      var right := hdr + Span(ram[hdr]);
      if LINK_OFFSET + 4 * right > highWaterMark {
        highWaterMark := LINK_OFFSET + 4 * right;
        highWaterMarkJustUpdated := true;
      }
      curAllocSize := curAllocSize + ChunkSize(ram[hdr]);
      if curAllocSize >= maxAllocSize {
        maxAllocSize := curAllocSize;
      }
    }

    lemma SearchOutcome(rounded: u32)
      requires Inv()
      ensures var h := FirstFit(ram[..], sent, start, cls, rank, rounded, FitIndex(rounded));
        && (h == 0 <==> SearchFails(rounded))
        && (h != 0 ==> h in cls && start <= h < ram.Length && h in headers && !SelfAlloc(ram[h]) && ChunkSize(ram[h]) >= rounded)
    {
      var w := ram[..];
      FirstFitComplete(w, sent, start, cls, rank, rounded, FitIndex(rounded));
      forall h | h in headers && !SelfAlloc(w[h]) ensures h in cls && cls[h] == ListIndex(ChunkSize(w[h])) && start <= h {
        assert RightTag(w, h);
      }
    }

    /** Take the first fit for `rounded` bytes off the lists, if there is one, and count it. */
    method AllocateFromLists(rounded: u32) returns (hdr: nat)
      requires Valid() && rounded % 8 == 0 && 16 <= rounded
      modifies this, ram
      ensures Valid() && cached == old(cached)
      ensures hdr == 0 <==> old(SearchFails(rounded))
      ensures hdr == 0 ==> live == old(live) && ram[..] == old(ram[..]) && headers == old(headers)
      ensures hdr == old(FirstFit(ram[..], sent, start, cls, rank, rounded, FitIndex(rounded)))
      ensures hdr != 0 ==> Searched(old(ram[..]), rounded, PayloadAddr(hdr))
      ensures hdr != 0 ==> hdr in headers && hdr !in old(live) && live == old(live) + {hdr}
      ensures hdr != 0 ==> rounded <= ChunkSize(ram[hdr]) <= rounded + 8
      ensures curAllocSize == old(curAllocSize) + (if hdr == 0 then 0 else ChunkSize(ram[hdr]))
      ensures maxAllocSize == Larger(old(maxAllocSize), curAllocSize)
      ensures highWaterMarkJustUpdated == (old(highWaterMarkJustUpdated) || highWaterMark > old(highWaterMark))
      ensures highWaterMark == if hdr == 0 then old(highWaterMark) else Larger(old(highWaterMark), LINK_OFFSET + 4 * (hdr + Span(ram[hdr])))
      ensures PayloadsKept(old(ram[..]), ram[..], old(live))
    {
      hide HeapInv, SearchFails, FirstFit, FirstFound, Searched, AllocWords, AcquiredOnly;
      HeaderBounds();
      SearchOutcome(rounded);
      hdr := SearchFirstFit(rounded);
      if hdr == 0 {
        return;
      }
      AcquireChunk(hdr, rounded);
      HeaderBounds();
      AcquiredOwned(old(ram[..]), ram[..], old(headers), headers, live, cached, hdr);
      live := live + {hdr};
      RecordAllocation(hdr);
    }

    /**
     Allocate a payload of at least `size` bytes and return its address, or 0. The cached chunk is
     reused when it is large enough and wastes at most 512 bytes; otherwise the lists are searched.
     */
    method Malloc(size: u32) returns (payload: nat)
      requires Valid()
      requires size + HDR_SIZE + 7 < 0x1_0000_0000
      modifies this, ram
      ensures Valid()
      ensures payload == 0 ==> live == old(live) && cached == old(cached) && ram[..] == old(ram[..]) && headers == old(headers)
      ensures payload == 0 <==> size == 0 || (!old(CacheServes(RoundedSize(size))) && old(SearchFails(RoundedSize(size))))
      ensures payload != 0 ==> (exists h ::
        && h in headers && h !in old(live) && live == old(live) + {h}
        && payload == PayloadAddr(h) && payload % 8 == 0
        && RoundedSize(size) <= ChunkSize(ram[h]) <= RoundedSize(size) + (if old(CacheServes(RoundedSize(size))) then 512 else 8))
      ensures size != 0 && old(CacheServes(RoundedSize(size))) ==>
        payload == PayloadAddr(old(cached)) && cached == 0 && ram[..] == old(ram[..]) && headers == old(headers)
      ensures !old(CacheServes(RoundedSize(size))) ==> cached == old(cached)
      ensures maxAllocSize == Larger(old(maxAllocSize), curAllocSize)
      ensures highWaterMarkJustUpdated == (old(highWaterMarkJustUpdated) || highWaterMark > old(highWaterMark))
      ensures payload == 0 || old(CacheServes(RoundedSize(size))) ==> curAllocSize == old(curAllocSize) && highWaterMark == old(highWaterMark)
      ensures !old(CacheServes(RoundedSize(size))) && payload != 0 ==> (exists h ::
        && h in headers && payload == PayloadAddr(h) && curAllocSize == old(curAllocSize) + ChunkSize(ram[h])
        && highWaterMark == Larger(old(highWaterMark), LINK_OFFSET + 4 * (h + Span(ram[h]))))
      ensures !old(CacheServes(RoundedSize(size))) && payload != 0 ==> Searched(old(ram[..]), RoundedSize(size), payload)
      ensures PayloadsKept(old(ram[..]), ram[..], old(live))
    {
      hide HeapInv, SearchFails, AllocWords, RoundedSize, Span, ChunkSize, SelfAlloc, FirstFit, Searched;
      HeaderBounds();
      if size == 0 {
        return 0;
      }
      var rounded: u32 := RoundedSize(size);
      if cached != 0 && ChunkSize(ram[cached]) >= rounded && ChunkSize(ram[cached]) - rounded <= 512 {
        payload := PayloadAddr(cached);
        live := live + {cached};
        cached := 0;
        return;
      }
      var hdr := AllocateFromLists(rounded);
      if hdr == 0 {
        return 0;
      }
      HeaderBounds();
      return PayloadAddr(hdr);
    }
  }
}
