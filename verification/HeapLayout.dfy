/**
 The whole-heap invariant: the tags tile the heap, and the free lists hold exactly the free
 chunks, each in the list of its size. Also the frame and accounting facts that every allocator
 operation needs.
 */
module HeapLayout {

  import opened BoundaryTags
  import opened FreeLists

  /** The lists hold exactly the free chunks, by size class. */
  ghost predicate Coupled(w: Words, start: nat, H: set<nat>, cls: map<nat, nat>)
  {
    && (forall h {:trigger h in H} :: h in H && h < |w| ==> (h in cls <==> !SelfAlloc(w[h])))
    && (forall h {:trigger h in H} :: h in H && h in cls && h < |w| ==> cls[h] == ListIndex(4 * Span(w[h])))
    && (forall x {:trigger x in cls} :: x in cls && start <= x ==> x in H)
  }

  ghost predicate HeapInv(w: Words, sent: nat, start: nat, guard: nat, H: set<nat>, cls: map<nat, nat>, rank: map<nat, nat>)
  {
    && Tiled(w, start, guard, H)
    && Tagged(w, start, guard, H)
    && Linked(w, sent, start, cls, rank)
    && Coupled(w, start, H, cls)
  }

  /** The allocated chunks are exactly those that clients hold and the cached one. */
  ghost predicate Owned(w: Words, H: set<nat>, live: set<nat>, cached: nat)
  {
    && live <= H && (cached != 0 ==> cached in H) && cached !in live
    && (forall h {:trigger h in H} :: h in H ==> h < |w| && (SelfAlloc(w[h]) <==> h in live || h == cached))
  }

  /** No allocated chunk ends beyond the byte address `mark`. */
  ghost predicate BelowMark(w: Words, H: set<nat>, mark: nat)
  {
    forall h {:trigger h in H} :: h in H && h < |w| && SelfAlloc(w[h]) ==> LINK_OFFSET + 4 * (h + Span(w[h])) <= mark
  }

  // ---------- Frames ----------

  /** Every header is the same in both memories. */
  ghost predicate SameHeaders(w: Words, w': Words, H: set<nat>)
  {
    |w'| == |w| && forall h {:trigger h in H} :: h in H ==> h < |w| && w'[h] == w[h]
  }

  /** No payload word of the chunk at `h` differs. */
  ghost predicate SamePayload(w: Words, w': Words, h: nat)
  {
    h < |w| == |w'| && forall i :: h < i < h + Span(w[h]) && i < |w| ==> w'[i] == w[i]
  }

  /** The chunks in `kept` keep their size and every payload word. */
  ghost predicate PayloadsKept(w: Words, w': Words, kept: set<nat>)
  {
    |w'| == |w| && forall h {:trigger h in kept} :: h in kept ==> h < |w| && Span(w'[h]) == Span(w[h]) && SamePayload(w, w', h)
  }

  /** `w'` keeps the guard, every tag and the payload of every allocated chunk outside the region [a, b). */
  ghost predicate Undisturbed(w: Words, w': Words, guard: nat, H: set<nat>, a: nat, b: nat)
  {
    && |w'| == |w| && guard < |w|
    && w'[guard] == w[guard]
    && (forall h {:trigger SameTag(w, w', h)} :: h in H && !(a <= h < b) ==> SameTag(w, w', h))
    && (forall h {:trigger SamePayload(w, w', h)} :: h in H && !(a <= h < b) && h < |w| && SelfAlloc(w[h]) ==> SamePayload(w, w', h))
  }

  /** The link word of a list node is no header, no footer and no payload word of another chunk. */
  lemma LinkWordApart(w: Words, links: Words, sent: nat, start: nat, guard: nat, H: set<nat>, cls: map<nat, nat>, rank: map<nat, nat>, y: nat, h: nat)
    requires Tiled(w, start, guard, H) && Linked(links, sent, start, cls, rank)
    requires y in cls && (start <= y ==> y in H) && h in H
    ensures y + 1 != h && y + 1 != guard && y + 1 != h + Span(w[h]) - 1
    ensures y != h ==> y + 1 < h || h + Span(w[h]) <= y + 1
  {
    if y < start {
      assert exists k :: 0 <= k < LIST_COUNT && y == Sentinel(sent, k);
    }
  }

  /** Unlinking writes link words only. */
  lemma UnlinkUndisturbed(w: Words, sent: nat, start: nat, guard: nat, H: set<nat>, cls: map<nat, nat>, rank: map<nat, nat>, x: nat)
    requires Tiled(w, start, guard, H) && Linked(w, sent, start, cls, rank)
    requires forall y {:trigger y in cls} :: y in cls && start <= y ==> y in H && y < |w| && !SelfAlloc(w[y])
    requires x in cls && start <= x
    ensures NodeOk(w, cls, x) && Undisturbed(w, Unlink(w, x), guard, H, 0, 0)
    ensures SameHeaders(w, Unlink(w, x), H)
  {
    hide Span, SelfAlloc, LeftAlloc, Unlink, Prev, Next;
    assert NodeOk(w, cls, x);
    UnlinkFrame(w, cls, x);
    var w' := Unlink(w, x);
    forall h | h in H ensures SameTag(w, w', h) && (SelfAlloc(w[h]) ==> SamePayload(w, w', h)) {
      LinkWordApart(w, w, sent, start, guard, H, cls, rank, Prev(w, x), h);
      LinkWordApart(w, w, sent, start, guard, H, cls, rank, Next(w, x), h);
    }
    LinkWordApart(w, w, sent, start, guard, H, cls, rank, Prev(w, x), start);
    LinkWordApart(w, w, sent, start, guard, H, cls, rank, Next(w, x), start);
  }

  /** Linking writes link words only. */
  lemma LinkUndisturbed(w: Words, sent: nat, start: nat, guard: nat, H: set<nat>, cls: map<nat, nat>, rank: map<nat, nat>, k: nat, x: nat)
    requires Tiled(w, start, guard, H) && Linked(w, sent, start, cls, rank)
    requires forall y {:trigger y in cls} :: y in cls && start <= y ==> y in H && y < |w| && !SelfAlloc(w[y])
    requires k < LIST_COUNT && x in H && x !in cls && !SelfAlloc(w[x])
    ensures NodeOk(w, cls, Sentinel(sent, k)) && Undisturbed(w, Link(w, Sentinel(sent, k), x), guard, H, 0, 0)
    ensures SameHeaders(w, Link(w, Sentinel(sent, k), x), H)
  {
    hide Span, SelfAlloc, LeftAlloc, Link, Prev, Next;
    var p := Sentinel(sent, k);
    assert NodeOk(w, cls, p);
    LinkFrame(w, cls, p, x);
    var w' := Link(w, p, x);
    forall h | h in H ensures SameTag(w, w', h) && (SelfAlloc(w[h]) ==> SamePayload(w, w', h)) {
      LinkWordApart(w, w, sent, start, guard, H, cls, rank, p, h);
      LinkWordApart(w, w, sent, start, guard, H, cls, rank, Next(w, p), h);
    }
    LinkWordApart(w, w, sent, start, guard, H, cls, rank, p, start);
    LinkWordApart(w, w, sent, start, guard, H, cls, rank, Next(w, p), start);
  }

  // ---------- Accounting ----------

  /** Words in allocated chunks from the chunk at `h` to the guard. */
  ghost function AllocWords(w: Words, start: nat, guard: nat, H: set<nat>, h: nat): nat
    requires Tiled(w, start, guard, H) && (h in H || h == guard)
    decreases guard - h
  {
    if h == guard then 0
    else
      assert EndsAtHeader(w, guard, H, h);
      (if SelfAlloc(w[h]) then Span(w[h]) else 0) + AllocWords(w, start, guard, H, h + Span(w[h]))
  }

  /** Words in free chunks from the chunk at `h` to the guard. */
  ghost function FreeWords(w: Words, start: nat, guard: nat, H: set<nat>, h: nat): nat
    requires Tiled(w, start, guard, H) && (h in H || h == guard)
    decreases guard - h
  {
    if h == guard then 0
    else
      assert EndsAtHeader(w, guard, H, h);
      (if SelfAlloc(w[h]) then 0 else Span(w[h])) + FreeWords(w, start, guard, H, h + Span(w[h]))
  }

  /** An allocated chunk is part of the total. */
  lemma {:induction false} AllocWordsInclude(w: Words, start: nat, guard: nat, H: set<nat>, a: nat, h: nat)
    requires Tiled(w, start, guard, H) && a in H && h in H && a <= h && SelfAlloc(w[h])
    ensures Span(w[h]) <= AllocWords(w, start, guard, H, a)
    decreases guard - a
  {
    if a < h {
      assert EndsAtHeader(w, guard, H, a);
      AllocWordsInclude(w, start, guard, H, a + Span(w[a]), h);
    }
  }

  /** No word is lost: allocated and free words add up to the heap. */
  lemma {:induction false} WordsConserved(w: Words, start: nat, guard: nat, H: set<nat>, h: nat)
    requires Tiled(w, start, guard, H) && (h in H || h == guard)
    ensures AllocWords(w, start, guard, H, h) + FreeWords(w, start, guard, H, h) == guard - h
    decreases guard - h
  {
    if h != guard {
      assert EndsAtHeader(w, guard, H, h);
      WordsConserved(w, start, guard, H, h + Span(w[h]));
    }
  }

  /** The chunks in [a, b) are the same in both heaps. */
  ghost predicate SameChunks(w: Words, w': Words, H: set<nat>, H': set<nat>, a: nat, b: nat)
  {
    && |w| == |w'|
    && (forall h {:trigger h in H} {:trigger h in H'} :: a <= h < b ==> (h in H <==> h in H'))
    && (forall h {:trigger w'[h]} :: a <= h < b && h in H && h < |w| ==>
        Span(w'[h]) == Span(w[h]) && SelfAlloc(w'[h]) == SelfAlloc(w[h]))
  }

  /** Equal chunks in [a, b) contribute equally. */
  lemma {:induction false} AllocWordsBetween(w: Words, w': Words, start: nat, guard: nat, H: set<nat>, H': set<nat>, a: nat, b: nat)
    requires Tiled(w, start, guard, H) && Tiled(w', start, guard, H')
    requires a <= b && SameChunks(w, w', H, H', a, b)
    requires (a in H || a == guard) && (b in H || b == guard) && (a in H' || a == guard) && (b in H' || b == guard)
    ensures AllocWords(w', start, guard, H', a) - AllocWords(w', start, guard, H', b)
      == AllocWords(w, start, guard, H, a) - AllocWords(w, start, guard, H, b)
    decreases b - a
  {
    if a < b {
      assert a in H && (b in H ==> a + Span(w[a]) <= b);
      assert Span(w'[a]) == Span(w[a]);
      assert EndsAtHeader(w, guard, H, a) && EndsAtHeader(w', guard, H', a);
      AllocWordsBetween(w, w', start, guard, H, H', a + Span(w[a]), b);
    }
  }

  /** When only the chunks inside [m, e) changed, the totals differ by what changed there. */
  lemma AllocWordsChange(w: Words, w': Words, start: nat, guard: nat, H: set<nat>, H': set<nat>, m: nat, e: nat)
    requires Tiled(w, start, guard, H) && Tiled(w', start, guard, H')
    requires m in H && m in H' && m <= e && (e == guard || (e in H && e in H'))
    requires SameChunks(w, w', H, H', start, m) && SameChunks(w, w', H, H', e, guard)
    ensures AllocWords(w', start, guard, H', start) - AllocWords(w, start, guard, H, start)
      == (AllocWords(w', start, guard, H', m) - AllocWords(w', start, guard, H', e))
       - (AllocWords(w, start, guard, H, m) - AllocWords(w, start, guard, H, e))
  {
    AllocWordsBetween(w, w', start, guard, H, H', start, m);
    AllocWordsBetween(w, w', start, guard, H, H', e, guard);
  }
}
