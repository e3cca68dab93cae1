/** Facts about `mcu_heap_init`: which data ends it accepts and what the first heap looks like. */
module HeapInit {

  import opened Common
  import opened BoundaryTags
  import opened FreeLists
  import opened HeapLayout

  const GUARD_SIZE := 4

  /** The heap start for a data section ending at byte address `dataEnd`; none when rounding leaves the address space. */
  function HeapStart(dataEnd: u32): (s: Option<u32>)
    ensures s.Some? ==> dataEnd <= s.value < dataEnd + 8 && s.value % 8 == 4
    ensures s.None? <==> dataEnd > 0xFFFF_FFFC
  {
    if dataEnd + 3 >= 0x1_0000_0000 then None
    else
      var e := (dataEnd + 3) / 4 * 4;
      if e % 8 == 0 then Some(e + 4) else Some(e) // a multiple of 8 below 2^32 leaves room for 4 more
  }

  /** The allocator starts up exactly on these memories; on all others it halts. */
  predicate Accepted(dataEnd: u32, ramEnd: u32)
  {
    var s := HeapStart(dataEnd);
    s.Some? && s.value <= ramEnd && ramEnd - s.value >= 12
  }

  /** The smallest accepted buffer is 12 bytes, the next one 20: there is nothing in between. */
  lemma AcceptedSizes(dataEnd: u32, ramEnd: u32)
    requires Accepted(dataEnd, ramEnd) && ramEnd % 8 == 0
    ensures var n := ramEnd - HeapStart(dataEnd).value - GUARD_SIZE; n % 8 == 0 && (n == 8 || n >= 16)
  {
  }

  /** The heap starts at an odd word position. */
  lemma StartPosition(dataEnd: u32)
    requires HeapStart(dataEnd).Some? && LINK_OFFSET <= dataEnd
    ensures var p := (HeapStart(dataEnd).value - LINK_OFFSET) / 4; p % 2 == 1 && LINK_OFFSET + 4 * p == HeapStart(dataEnd).value
  {
  }

  // ---------- The memory after initialization ----------

  /** Make list `k` empty. */
  function EmptyList(w: Words, sent: nat, k: nat): (w': Words)
    requires Sentinel(sent, k) + 1 < |w| <= 0x1_0000
    ensures |w'| == |w| && Next(w', Sentinel(sent, k)) == Prev(w', Sentinel(sent, k)) == Sentinel(sent, k)
    ensures forall i :: 0 <= i < |w| && i != Sentinel(sent, k) + 1 ==> w'[i] == w[i]
  {
    var p := Sentinel(sent, k);
    SetPrev(SetNext(w, p, p), p, p)
  }

  /** Make the lists from 0 up to `k` empty. */
  function EmptyLists(w: Words, sent: nat, k: nat): (w': Words)
    requires sent + 2 * LIST_COUNT < |w| <= 0x1_0000 && k <= LIST_COUNT
    ensures |w'| == |w|
    ensures forall j {:trigger Sentinel(sent, j)} :: 0 <= j < k ==>
      Next(w', Sentinel(sent, j)) == Sentinel(sent, j) && Prev(w', Sentinel(sent, j)) == Sentinel(sent, j)
  {
    if k == 0 then w else EmptyList(EmptyLists(w, sent, k - 1), sent, k - 1)
  }

  /** One free chunk from `start` to the guard. */
  function FirstChunk(w: Words, start: nat, guard: nat): (w': Words)
    requires start + 2 <= guard < |w| <= 0x1_0000
    ensures |w'| == |w|
  {
    w[start := Header(guard - start, false, true)][guard - 1 := Header(guard - start, false, false)][guard := Header(0, true, false)]
  }

  /** The list that the first chunk goes on. */
  function FirstSentinel(sent: nat, start: nat, guard: nat): nat
    requires start <= guard <= 0x1_0000
  {
    Sentinel(sent, ListIndex(4 * (guard - start)))
  }

  ghost predicate Room(w: Words, sent: nat, start: nat, guard: nat)
  {
    && sent + 2 * LIST_COUNT <= start && start + 2 <= guard && guard + 1 == |w| <= 0x1_0000
    && start % 2 == 1 && guard % 2 == 1
  }

  /** All that `mcu_heap_init` writes. */
  ghost function InitWords(w: Words, sent: nat, start: nat, guard: nat): (w': Words)
    requires Room(w, sent, start, guard)
    ensures |w'| == |w|
  {
    Unlisted(w, sent, start, guard);
    Link(FirstChunk(EmptyLists(w, sent, LIST_COUNT), start, guard), FirstSentinel(sent, start, guard), start)
  }

  /** Before the chunk is linked, every sentinel still leads to itself. */
  lemma Unlisted(w: Words, sent: nat, start: nat, guard: nat)
    requires Room(w, sent, start, guard)
    ensures var w1 := FirstChunk(EmptyLists(w, sent, LIST_COUNT), start, guard);
      forall k {:trigger Sentinel(sent, k)} :: 0 <= k < LIST_COUNT ==>
        && Sentinel(sent, k) + 1 < start
        && Next(w1, Sentinel(sent, k)) == Sentinel(sent, k) && Prev(w1, Sentinel(sent, k)) == Sentinel(sent, k)
  {
    var w0 := EmptyLists(w, sent, LIST_COUNT);
    var w1 := FirstChunk(w0, start, guard);
    forall k {:trigger Sentinel(sent, k)} | 0 <= k < LIST_COUNT ensures w1[Sentinel(sent, k) + 1] == w0[Sentinel(sent, k) + 1] {}
  }

  ghost function SentinelCls(sent: nat): map<nat, nat>
  {
    map[sent := 0, sent + 2 := 1, sent + 4 := 2, sent + 6 := 3, sent + 8 := 4, sent + 10 := 5]
  }

  ghost function SentinelRank(sent: nat): map<nat, nat>
  {
    map[sent := 0, sent + 2 := 0, sent + 4 := 0, sent + 6 := 0, sent + 8 := 0, sent + 10 := 0]
  }

  /** Six empty lists are well formed. */
  lemma EmptyListsLinked(w: Words, sent: nat, start: nat)
    requires |w| <= 0x1_0000 && sent + 2 * LIST_COUNT <= start < |w|
    requires forall k {:trigger Sentinel(sent, k)} :: 0 <= k < LIST_COUNT ==>
      Next(w, Sentinel(sent, k)) == Sentinel(sent, k) && Prev(w, Sentinel(sent, k)) == Sentinel(sent, k)
    ensures Linked(w, sent, start, SentinelCls(sent), SentinelRank(sent))
  {
    hide Next, Prev;
    var cls := SentinelCls(sent);
    forall x | x in cls
      ensures exists k :: 0 <= k < LIST_COUNT && x == Sentinel(sent, k)
      ensures NodeOk(w, cls, x) && RankOk(w, start, cls, SentinelRank(sent), x)
    {
      assert x == Sentinel(sent, cls[x]);
    }
  }

  /** One big chunk is a tiled and tagged heap. */
  lemma FirstChunkTags(w: Words, start: nat, guard: nat)
    requires start + 4 <= guard && guard + 1 == |w| <= 0x1_0000 && start % 2 == 1 && guard % 2 == 1
    requires w[start] == Header(guard - start, false, true) && w[guard - 1] == Header(guard - start, false, false)
    requires w[guard] == Header(0, true, false)
    ensures Tiled(w, start, guard, {start}) && Tagged(w, start, guard, {start})
    ensures AllocWords(w, start, guard, {start}, start) == 0
  {
    assert EndsAtHeader(w, guard, {start}, start);
    assert RightTag(w, start) && LeftTag(w, {start}, start);
    assert AllocWords(w, start, guard, {start}, guard) == 0;
  }

  /** With at least 16 bytes for the first chunk, initialization leaves a well-formed heap with nothing allocated. */
  lemma InitEstablishes(w: Words, sent: nat, start: nat, guard: nat) returns (cls: map<nat, nat>, rank: map<nat, nat>)
    requires Room(w, sent, start, guard) && start + 4 <= guard
    ensures var w' := InitWords(w, sent, start, guard);
      && HeapInv(w', sent, start, guard, {start}, cls, rank)
      && AllocWords(w', start, guard, {start}, start) == 0
      && Span(w'[start]) == guard - start && !SelfAlloc(w'[start])
      && cls == SentinelCls(sent)[start := ListIndex(4 * (guard - start))]
  {
    hide Link, EmptyLists, Next, Prev, ListIndex, Tiled, Tagged, Linked, SelfAlloc, Span;
    Unlisted(w, sent, start, guard);
    var w1 := FirstChunk(EmptyLists(w, sent, LIST_COUNT), start, guard);
    var k := ListIndex(4 * (guard - start));
    EmptyListsLinked(w1, sent, start);
    assert k < LIST_COUNT && start !in SentinelCls(sent);
    LinkKeepsLinked(w1, sent, start, SentinelCls(sent), SentinelRank(sent), k, start);
    cls, rank := SentinelCls(sent)[start := k], SentinelRank(sent)[start := FreshRank(w1, SentinelRank(sent), Sentinel(sent, k))];
    LinkFrame(w1, SentinelCls(sent), Sentinel(sent, k), start);
    FirstChunkTags(InitWords(w, sent, start, guard), start, guard);
  }

  /** With the 8-byte first chunk that a 12-byte buffer yields, the links overwrite the footer. */
  lemma SmallestBufferBreaks(w: Words, sent: nat, start: nat, guard: nat)
    requires Room(w, sent, start, guard) && start + 2 == guard
    ensures !RightTag(InitWords(w, sent, start, guard), start)
  {
    hide Link, EmptyLists, Linked;
    Unlisted(w, sent, start, guard);
    var w1 := FirstChunk(EmptyLists(w, sent, LIST_COUNT), start, guard);
    EmptyListsLinked(w1, sent, start);
    var p := FirstSentinel(sent, start, guard);
    assert NodeOk(w1, SentinelCls(sent), p) by { assert p == Sentinel(sent, ListIndex(8)); }
    LinkFrame(w1, SentinelCls(sent), p, start);
    var w' := InitWords(w, sent, start, guard);
    assert Next(w', start) == p && Prev(w', start) == p;
    assert w'[start] == Header(2, false, true);
  }

  /** Some list map and header set make the first heap well formed exactly when the buffer holds at least 20 bytes; the code accepts 12. */
  lemma InitSoundIff(w: Words, sent: nat, start: nat, guard: nat)
    requires Room(w, sent, start, guard)
    ensures (exists H, cls, rank :: HeapInv(InitWords(w, sent, start, guard), sent, start, guard, H, cls, rank))
      <==> 4 * (guard - start) + GUARD_SIZE >= 20
  {
    hide InitWords;
    if start + 2 == guard {
      SmallestBufferBreaks(w, sent, start, guard);
    } else {
      var cls, rank := InitEstablishes(w, sent, start, guard);
    }
  }
}
