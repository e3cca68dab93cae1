/** Facts about allocating from a free chunk: taking it whole or splitting off the excess. */
module HeapAcquire {

  import opened BoundaryTags
  import opened FreeLists
  import opened HeapLayout
  import opened HeapRelease

  // ---------- Taking the chunk off its list ----------

  lemma DetachFree(w: Words, sent: nat, start: nat, guard: nat, H: set<nat>, cls: map<nat, nat>, rank: map<nat, nat>, x: nat)
    requires HeapInv(w, sent, start, guard, H, cls, rank)
    requires x in cls && start <= x
    ensures x in H && CanUnlink(w, x) && !SelfAlloc(w[x]) && LeftAlloc(w[x])
    ensures var w1 := Unlink(w, x);
      && Linked(w1, sent, start, cls - {x}, rank) && Undisturbed(w, w1, guard, H, 0, 0)
      && SameHeaders(w, w1, H)
  {
    UnlinkKeepsLinked(w, sent, start, cls, rank, x);
    UnlinkUndisturbed(w, sent, start, guard, H, cls, rank, x);
    FreeChunkStandsAlone(w, start, guard, H, x);
  }

  // ---------- The whole chunk ----------

  /** The three flags that `mcu_malloc` sets when nothing is split off. */
  function TagTaken(w: Words, x: nat): Words
    requires x < |w| && 0 < Span(w[x]) && x + Span(w[x]) < |w|
  {
    var e := x + Span(w[x]);
    w[x := SetLeft(SetSelf(w[x]))][e := SetLeft(w[e])]
  }

  lemma TakeTags(w: Words, w1: Words, start: nat, guard: nat, H: set<nat>, x: nat)
    requires Tiled(w, start, guard, H) && Tagged(w, start, guard, H)
    requires x in H && !SelfAlloc(w[x]) && Undisturbed(w, w1, guard, H, 0, 0)
    requires SameHeaders(w, w1, H)
    ensures TakeStep(w, TagTaken(w1, x), start, guard, H, x)
    ensures forall h {:trigger SamePayload(w, TagTaken(w1, x), h)} :: h in H && SelfAlloc(w[h]) ==> SamePayload(w, TagTaken(w1, x), h)
  {
    hide Span, SelfAlloc, LeftAlloc;
    var w2 := TagTaken(w1, x);
    var e := x + Span(w[x]);
    assert w1[x] == w[x];
    assert EndsAtHeader(w, guard, H, x);
    assert w1[e] == w[e] by { if e in H { assert SameTag(w, w1, e); } }
    forall h | h in H && h != x && h != e ensures SameTag(w, w2, h) {
      assert SameTag(w, w1, h);
    }
    forall h | h in H && SelfAlloc(w[h]) ensures SamePayload(w, w2, h) {
      assert SamePayload(w, w1, h);
    }
  }

  /** Taking a chunk whole keeps the heap invariant. */
  lemma TakeCompletes(w: Words, w1: Words, sent: nat, start: nat, guard: nat, H: set<nat>, cls: map<nat, nat>, rank: map<nat, nat>, x: nat)
    requires HeapInv(w, sent, start, guard, H, cls, rank)
    requires x in cls && start <= x && x in H && !SelfAlloc(w[x]) && x + 1 < |w|
    requires Undisturbed(w, w1, guard, H, 0, 0) && Linked(w1, sent, start, cls - {x}, rank)
    requires SameHeaders(w, w1, H)
    ensures HeapInv(TagTaken(w1, x), sent, start, guard, H, cls - {x}, rank)
    ensures TakeStep(w, TagTaken(w1, x), start, guard, H, x)
    ensures forall h {:trigger SamePayload(w, TagTaken(w1, x), h)} :: h in H && SelfAlloc(w[h]) ==> SamePayload(w, TagTaken(w1, x), h)
  {
    var w2 := TagTaken(w1, x);
    TakeTags(w, w1, start, guard, H, x);
    TakeKeepsTags(w, w2, start, guard, H, x);
    forall y | y in cls - {x} && y + 1 < |w1| ensures w2[y + 1] == w1[y + 1] {
      LinkWordApart(w, w1, sent, start, guard, H, cls - {x}, rank, y, x);
    }
    LinksOnly(w1, w2, sent, start, cls - {x}, rank);
    TakeCouples(w, w2, start, guard, H, cls, x);
  }

  lemma TakeCouples(w: Words, w': Words, start: nat, guard: nat, H: set<nat>, cls: map<nat, nat>, x: nat)
    requires Tiled(w, start, guard, H) && Tagged(w, start, guard, H) && Coupled(w, start, H, cls)
    requires TakeStep(w, w', start, guard, H, x)
    ensures Coupled(w', start, H, cls - {x})
  {
    assert RightTag(w, x);
    forall h | h in H
      ensures h in cls - {x} <==> !SelfAlloc(w'[h])
      ensures h in cls - {x} ==> (cls - {x})[h] == ListIndex(4 * Span(w'[h]))
    {
      TakeHeader(w, w', start, guard, H, x, h);
    }
  }

  lemma TakeAccounting(w: Words, w': Words, start: nat, guard: nat, H: set<nat>, x: nat)
    requires Tiled(w, start, guard, H) && Tagged(w, start, guard, H)
    requires TakeStep(w, w', start, guard, H, x) && Tiled(w', start, guard, H)
    ensures AllocWords(w', start, guard, H, start) == AllocWords(w, start, guard, H, start) + Span(w[x])
  {
    var e := x + Span(w[x]);
    assert RightTag(w, x);
    forall h | h in H ensures Span(w'[h]) == Span(w[h]) && (h != x ==> SelfAlloc(w'[h]) == SelfAlloc(w[h])) {
      TakeHeader(w, w', start, guard, H, x, h);
    }
    TakeHeader(w, w', start, guard, H, x, x);
    assert EndsAtHeader(w, guard, H, x) && EndsAtHeader(w', guard, H, x);
    AllocWordsChange(w, w', start, guard, H, H, x, e);
  }

  // ---------- Splitting ----------

  /** The header and footer of the excess beyond `n` words. */
  function TagRest(w: Words, x: nat, n: nat): (w': Words)
    requires x < |w| && n < Span(w[x]) && x + Span(w[x]) <= |w| && |w| <= 0x1_0000
    ensures |w'| == |w|
  {
    var rest := Span(w[x]) - n;
    w[x + n := Header(rest, false, false)][x + Span(w[x]) - 1 := Header(rest, false, false)]
  }

  /** The size of the chunk kept, its two flags, and the left flag of the excess. */
  function TagKept(w: Words, x: nat, n: nat): Words
    requires x + n < |w| && 0 < n && |w| <= 0x1_0000
  {
    w[x := SetLeft(SetSelf(WithSize(w[x], 4 * n)))][x + n := SetLeft(w[x + n])]
  }

  /** `w3` agrees with `w2` on everything but link words: the tags of the two parts of `x`, and all other tags and payloads. */
  ghost predicate LinksAside(w: Words, w2: Words, w3: Words, guard: nat, H: set<nat>, x: nat, n: nat)
  {
    && |w| == |w2| == |w3| && guard < |w| && x + n < |w| && 0 < x + Span(w[x]) <= |w|
    && w3[x] == w2[x] && w3[x + n] == w2[x + n] && w3[x + Span(w[x]) - 1] == w2[x + Span(w[x]) - 1] && w3[guard] == w2[guard]
    && (forall h {:trigger KeptAside(w, w2, w3, h)} :: h in H && h != x ==> KeptAside(w, w2, w3, h))
  }

  ghost predicate KeptAside(w: Words, w2: Words, w3: Words, h: nat)
  {
    && |w| == |w2| == |w3| && h < |w| && 0 < h + Span(w[h]) <= |w|
    && w3[h] == w2[h]
    && (!SelfAlloc(w[h]) ==> w3[h + Span(w[h]) - 1] == w2[h + Span(w[h]) - 1])
    && (SelfAlloc(w[h]) ==> forall i :: h < i < h + Span(w[h]) ==> w3[i] == w2[i])
  }

  /** Word `i` is neither header nor footer of the chunk at `h`, nor payload when that chunk is allocated. */
  ghost predicate Aside(w: Words, h: nat, i: nat)
  {
    && h < |w| && i != h && i != h + Span(w[h]) - 1
    && (SelfAlloc(w[h]) ==> i < h || h + Span(w[h]) <= i)
  }

  /** Linking the excess writes only link words of nodes and of the excess itself. */
  lemma LinkRest(w: Words, w2: Words, sent: nat, start: nat, guard: nat, H: set<nat>, cls1: map<nat, nat>, rank: map<nat, nat>, x: nat, n: nat, k: nat)
    requires Tiled(w, start, guard, H) && x in H && |w2| == |w|
    requires Linked(w2, sent, start, cls1, rank) && x !in cls1 && k < LIST_COUNT
    requires forall y {:trigger y in cls1} :: y in cls1 && start <= y ==> y in H && !SelfAlloc(w[y])
    requires 4 <= n && n % 2 == 0 && n + 4 <= Span(w[x])
    ensures NodeOk(w2, cls1, Sentinel(sent, k)) && x + n + 1 < |w|
    ensures LinksAside(w, w2, Link(w2, Sentinel(sent, k), x + n), guard, H, x, n)
  {
    hide Span, SelfAlloc, LeftAlloc, Link, Prev, Next;
    var p, r := Sentinel(sent, k), x + n;
    assert NodeOk(w2, cls1, p);
    var q := Next(w2, p);
    assert r !in H && r !in cls1;
    LinkFrame(w2, cls1, p, r);
    RestFrame(w, w2, Link(w2, p, r), sent, start, guard, H, cls1, rank, p, q, x, n);
  }

  lemma RestFrame(w: Words, w2: Words, w3: Words, sent: nat, start: nat, guard: nat, H: set<nat>, cls1: map<nat, nat>, rank: map<nat, nat>,
                  p: nat, q: nat, x: nat, n: nat)
    requires Tiled(w, start, guard, H) && x in H && |w3| == |w2| == |w|
    requires Linked(w2, sent, start, cls1, rank) && x !in cls1
    requires forall y {:trigger y in cls1} :: y in cls1 && start <= y ==> y in H && !SelfAlloc(w[y])
    requires 4 <= n && n % 2 == 0 && n + 4 <= Span(w[x]) && p in cls1 && q in cls1
    requires forall i :: 0 <= i < |w| && i != p + 1 && i != q + 1 && i != x + n + 1 ==> w3[i] == w2[i]
    ensures LinksAside(w, w2, w3, guard, H, x, n)
  {
    LinkWordApart(w, w2, sent, start, guard, H, cls1, rank, p, x);
    LinkWordApart(w, w2, sent, start, guard, H, cls1, rank, q, x);
    forall h | h in H && h != x ensures KeptAside(w, w2, w3, h) {
      LinkWordApart(w, w2, sent, start, guard, H, cls1, rank, p, h);
      LinkWordApart(w, w2, sent, start, guard, H, cls1, rank, q, h);
      RestKeeps(w, w2, w3, start, guard, H, p, q, x, n, h);
    }
  }

  lemma RestKeeps(w: Words, w2: Words, w3: Words, start: nat, guard: nat, H: set<nat>, p: nat, q: nat, x: nat, n: nat, h: nat)
    requires Tiled(w, start, guard, H) && |w| == |w2| == |w3| && x in H && h in H && h != x && 4 <= n && n + 4 <= Span(w[x])
    requires forall i :: 0 <= i < |w| && i != p + 1 && i != q + 1 && i != x + n + 1 ==> w3[i] == w2[i]
    requires Aside(w, h, p + 1) && Aside(w, h, q + 1)
    ensures KeptAside(w, w2, w3, h)
  {
    assert x + n + 1 < h || h + Span(w[h]) <= x + n + 1;
  }

  /** All stages of a split together tag the two parts and disturb no other chunk. */
  lemma SplitTags(w: Words, w1: Words, w3: Words, start: nat, guard: nat, H: set<nat>, x: nat, n: nat)
    requires Tiled(w, start, guard, H) && |w| <= 0x1_0000 && |w3| == |w|
    requires x in H && !SelfAlloc(w[x]) && LeftAlloc(w[x]) && Undisturbed(w, w1, guard, H, 0, 0) && w1[x] == w[x]
    requires 4 <= n && n % 2 == 0 && n + 4 <= Span(w[x])
    requires LinksAside(w, TagRest(w1, x, n), w3, guard, H, x, n)
    ensures SplitStep(w, TagKept(w3, x, n), start, guard, H, x, n)
    ensures forall h {:trigger SamePayload(w, TagKept(w3, x, n), h)} :: h in H && SelfAlloc(w[h]) ==> SamePayload(w, TagKept(w3, x, n), h)
  {
    var w2 := TagRest(w1, x, n);
    var w4 := TagKept(w3, x, n);
    HeaderComplete(w4[x]);
    HeaderComplete(w4[x + n]);
    forall h | h in H && h != x ensures SameTag(w, w4, h) {
      assert SameTag(w, w1, h);
      assert KeptAside(w, w2, w3, h);
    }
    forall h | h in H && SelfAlloc(w[h]) ensures SamePayload(w, w4, h) {
      assert SamePayload(w, w1, h);
      assert KeptAside(w, w2, w3, h);
    }
  }

  lemma SplitCouples(w: Words, w': Words, start: nat, guard: nat, H: set<nat>, cls: map<nat, nat>, x: nat, n: nat)
    requires Tiled(w, start, guard, H) && Coupled(w, start, H, cls) && start <= x
    requires SplitStep(w, w', start, guard, H, x, n)
    ensures Coupled(w', start, H + {x + n}, (cls - {x})[x + n := ListIndex(4 * (Span(w[x]) - n))])
  {
    var H' := H + {x + n};
    var cls' := (cls - {x})[x + n := ListIndex(4 * (Span(w[x]) - n))];
    forall h | h in H'
      ensures h in cls' <==> !SelfAlloc(w'[h])
      ensures h in cls' ==> cls'[h] == ListIndex(4 * Span(w'[h]))
    {
      SplitHeader(w, w', start, guard, H, x, n, h);
    }
  }

  lemma SplitAccounting(w: Words, w': Words, start: nat, guard: nat, H: set<nat>, x: nat, n: nat)
    requires Tiled(w, start, guard, H)
    requires SplitStep(w, w', start, guard, H, x, n) && Tiled(w', start, guard, H + {x + n})
    ensures AllocWords(w', start, guard, H + {x + n}, start) == AllocWords(w, start, guard, H, start) + n
  {
    hide Span, SelfAlloc, LeftAlloc;
    var e := x + Span(w[x]);
    var H' := H + {x + n};
    SplitHeader(w, w', start, guard, H, x, n, x);
    SplitHeader(w, w', start, guard, H, x, n, x + n);
    assert EndsAtHeader(w, guard, H, x);
    assert AllocWords(w', start, guard, H', x) == n + AllocWords(w', start, guard, H', e) by {
      assert EndsAtHeader(w', guard, H', x) && EndsAtHeader(w', guard, H', x + n);
      assert AllocWords(w', start, guard, H', x + n) == AllocWords(w', start, guard, H', e);
    }
    forall h {:trigger w'[h]} | h in H && h != x
      ensures Span(w'[h]) == Span(w[h]) && SelfAlloc(w'[h]) == SelfAlloc(w[h])
    {
      SplitHeader(w, w', start, guard, H, x, n, h);
    }
    AllocWordsChange(w, w', start, guard, H, H', x, e);
  }

  // ---------- The stages put together ----------

  /** What allocating the chunk at `x` means for the others. */
  ghost predicate AcquiredOnly(w: Words, w': Words, H: set<nat>, H': set<nat>, x: nat)
  {
    && |w| == |w'| && x in H' && (x in H && x < |w| ==> !SelfAlloc(w[x]))
    && (forall h {:trigger h in H'} :: h in H' && h < |w| ==> (SelfAlloc(w'[h]) <==> h == x || (h in H && SelfAlloc(w[h]))))
    && (forall h {:trigger h in H} :: h in H && h < |w| && SelfAlloc(w[h]) ==> h in H' && Span(w'[h]) == Span(w[h]) && SamePayload(w, w', h))
  }

  /** Allocating adds the chunk to the clients' and disturbs none of those held before. */
  lemma AcquiredOwned(w: Words, w': Words, H: set<nat>, H': set<nat>, live: set<nat>, cached: nat, x: nat)
    requires AcquiredOnly(w, w', H, H', x) && Owned(w, H, live, cached)
    requires 0 !in H' && forall h {:trigger h in H'} :: h in H' ==> h < |w|
    ensures x !in live && Owned(w', H', live + {x}, cached)
    ensures PayloadsKept(w, w', live)
    ensures forall mark :: BelowMark(w, H, mark) && LINK_OFFSET + 4 * (x + Span(w'[x])) <= mark ==> BelowMark(w', H', mark)
  {
    forall h | h in live ensures h in H' && h < |w| && Span(w'[h]) == Span(w[h]) && SamePayload(w, w', h) {
      assert h in H;
    }
  }

  /** `w'` is a well-formed heap in which the chunk at `x`, now `n` words long, has been allocated and nothing else changed. */
  ghost predicate Acquired(w: Words, w': Words, sent: nat, start: nat, guard: nat, H: set<nat>, H': set<nat>,
                           cls': map<nat, nat>, rank': map<nat, nat>, x: nat, n: nat)
    requires Tiled(w, start, guard, H)
  {
    && HeapInv(w', sent, start, guard, H', cls', rank') && x in H' && x < |w'|
    && AcquiredOnly(w, w', H, H', x) && Span(w'[x]) == n
    && AllocWords(w', start, guard, H', start) == AllocWords(w, start, guard, H, start) + n
  }

  lemma TakeAfterUnlink(w: Words, w1: Words, sent: nat, start: nat, guard: nat, H: set<nat>, cls: map<nat, nat>, rank: map<nat, nat>, x: nat)
    requires HeapInv(w, sent, start, guard, H, cls, rank)
    requires x in cls && start <= x && x in H && !SelfAlloc(w[x]) && x + 1 < |w| == |w1| && x + Span(w[x]) < |w|
    requires Undisturbed(w, w1, guard, H, 0, 0) && Linked(w1, sent, start, cls - {x}, rank)
    requires SameHeaders(w, w1, H)
    ensures Span(w1[x]) == Span(w[x])
    ensures Acquired(w, TagTaken(w1, x), sent, start, guard, H, H, cls - {x}, rank, x, Span(w[x]))
  {
    assert w1[x] == w[x];
    TakeCompletes(w, w1, sent, start, guard, H, cls, rank, x);
    var w2 := TagTaken(w1, x);
    assert RightTag(w, x);
    forall h {:trigger h in H} | h in H ensures Span(w2[h]) == Span(w[h]) && SelfAlloc(w2[h]) == (h == x || SelfAlloc(w[h])) {
      TakeHeader(w, w2, start, guard, H, x, h);
    }
    forall h {:trigger h in H} | h in H && SelfAlloc(w[h]) ensures SamePayload(w, w2, h) {}
    TakeAccounting(w, w2, start, guard, H, x);
  }

  /** The bounds needed to put the excess beyond `n` words back. */
  ghost predicate Splittable(w: Words, sent: nat, x: nat, n: nat)
  {
    && x < |w| <= 0x1_0000 && 0 < n < Span(w[x]) && x + Span(w[x]) <= |w| && x + n + 1 < |w|
    && var p := Sentinel(sent, ListIndex(4 * (Span(w[x]) - n)));
    p + 1 < |w| && Next(TagRest(w, x, n), p) + 1 < |w|
  }

  /** The two words that make the excess a free chunk. */
  lemma RestWritten(w: Words, sent: nat, x: nat, size: nat)
    requires Splittable(w, sent, x, size / 4) && size % 8 == 0 && size + 16 <= ChunkSize(w[x]) && Span(w[x]) % 2 == 0
    ensures var rest := ChunkSize(w[x]) - size; var right := x + size / 4;
      && rest % 8 == 0 && 16 <= rest && right < |w| && rest / 4 >= 4 && right + rest / 4 <= |w|
      && w[right := Header(rest / 4, false, false)][right + rest / 4 - 1 := Header(rest / 4, false, false)] == TagRest(w, x, size / 4)
      && rest == 4 * (Span(w[x]) - size / 4)
  {
  }

  /** The memory once the excess beyond `n` words is back on a list. */
  function ExcessReturned(w: Words, sent: nat, x: nat, n: nat): (w': Words)
    requires Splittable(w, sent, x, n)
    ensures |w'| == |w| && Span(w'[x]) == n
  {
    var w3 := Link(TagRest(w, x, n), Sentinel(sent, ListIndex(4 * (Span(w[x]) - n))), x + n);
    w3[x := WithSize(w3[x], 4 * n)]
  }

  /** The list map and ranks after the split. */
  ghost function SplitCls(w: Words, cls: map<nat, nat>, x: nat, n: nat): map<nat, nat>
    requires x < |w| && n <= Span(w[x])  && 4 * Span(w[x]) < 0x1_0000_0000
  {
    (cls - {x})[x + n := ListIndex(4 * (Span(w[x]) - n))]
  }

  ghost function SplitRank(w: Words, sent: nat, rank: map<nat, nat>, x: nat, n: nat): map<nat, nat>
    requires Splittable(w, sent, x, n)
  {
    rank[x + n := FreshRank(TagRest(w, x, n), rank, Sentinel(sent, ListIndex(4 * (Span(w[x]) - n))))]
  }

  lemma SplitLinks(w: Words, w1: Words, sent: nat, start: nat, guard: nat, H: set<nat>, cls: map<nat, nat>, rank: map<nat, nat>, x: nat, n: nat)
    requires HeapInv(w, sent, start, guard, H, cls, rank)
    requires x in cls && start <= x && x in H && !SelfAlloc(w[x]) && |w1| == |w| && w1[x] == w[x]
    requires Undisturbed(w, w1, guard, H, 0, 0) && Linked(w1, sent, start, cls - {x}, rank)
    requires 4 <= n && n % 2 == 0 && n + 4 <= Span(w[x])
    ensures var w2 := TagRest(w1, x, n); var k := ListIndex(4 * (Span(w[x]) - n)); var p := Sentinel(sent, k);
      && NodeOk(w2, cls - {x}, p) && x + n + 1 < |w|
      && LinksAside(w, w2, Link(w2, p, x + n), guard, H, x, n)
      && Linked(Link(w2, p, x + n), sent, start, (cls - {x})[x + n := k], rank[x + n := FreshRank(w2, rank, p)])
  {
    hide Span, SelfAlloc, LeftAlloc, Link, Prev, Next, TagRest;
    var w2 := TagRest(w1, x, n);
    RestLinks(w, w1, sent, start, guard, H, cls - {x}, rank, x, n);
    var k := ListIndex(4 * (Span(w[x]) - n));
    LinkRest(w, w2, sent, start, guard, H, cls - {x}, rank, x, n, k);
    assert x + n !in H;
    LinkKeepsLinked(w2, sent, start, cls - {x}, rank, k, x + n);
  }

  /** The tags of the excess touch no link word. */
  lemma RestLinks(w: Words, w1: Words, sent: nat, start: nat, guard: nat, H: set<nat>, cls1: map<nat, nat>, rank: map<nat, nat>, x: nat, n: nat)
    requires Tiled(w, start, guard, H) && |w1| == |w| <= 0x1_0000
    requires x in H && x !in cls1 && w1[x] == w[x] && Linked(w1, sent, start, cls1, rank)
    requires forall y {:trigger y in cls1} :: y in cls1 && start <= y ==> y in H
    requires 4 <= n && n % 2 == 0 && n + 4 <= Span(w[x])
    ensures Linked(TagRest(w1, x, n), sent, start, cls1, rank)
  {
    var w2 := TagRest(w1, x, n);
    forall y | y in cls1 && y + 1 < |w1| ensures w2[y + 1] == w1[y + 1] {
      LinkWordApart(w, w1, sent, start, guard, H, cls1, rank, y, x);
    }
    LinksOnly(w1, w2, sent, start, cls1, rank);
  }

  /** The final flags touch no link word. */
  lemma KeptLinks(w: Words, w3: Words, sent: nat, start: nat, guard: nat, H: set<nat>, cls': map<nat, nat>, rank': map<nat, nat>, x: nat, n: nat)
    requires Tiled(w, start, guard, H) && |w3| == |w| && |w| <= 0x1_0000
    requires x in H && 4 <= n && n % 2 == 0 && n + 4 <= Span(w[x])
    requires Linked(w3, sent, start, cls', rank')
    requires forall y {:trigger y in cls'} :: y in cls' && start <= y ==> y == x + n || (y in H && y != x)
    ensures Linked(TagKept(w3, x, n), sent, start, cls', rank')
  {
    var w4 := TagKept(w3, x, n);
    forall y | y in cls' && y + 1 < |w3| ensures w4[y + 1] == w3[y + 1] {
      if y != x + n { LinkWordApart(w, w3, sent, start, guard, H, cls', rank', y, x); }
    }
    LinksOnly(w3, w4, sent, start, cls', rank');
  }

  lemma SplitAfterUnlink(w: Words, w1: Words, sent: nat, start: nat, guard: nat, H: set<nat>, cls: map<nat, nat>, rank: map<nat, nat>, x: nat, n: nat)
    requires HeapInv(w, sent, start, guard, H, cls, rank)
    requires x in cls && start <= x && x in H && !SelfAlloc(w[x]) && LeftAlloc(w[x]) && |w1| == |w| <= 0x1_0000 && w1[x] == w[x]
    requires Undisturbed(w, w1, guard, H, 0, 0) && Linked(w1, sent, start, cls - {x}, rank)
    requires 4 <= n && n % 2 == 0 && n + 4 <= Span(w[x])
    ensures Splittable(w1, sent, x, n)
    ensures Acquired(w, TagTaken(ExcessReturned(w1, sent, x, n), x), sent, start, guard, H, H + {x + n}, SplitCls(w, cls, x, n), SplitRank(w1, sent, rank, x, n), x, n)
  {
    hide HeapInv, Acquired, Linked, Undisturbed, Link, TagRest, Span, SelfAlloc, LeftAlloc;
    SplitLinks(w, w1, sent, start, guard, H, cls, rank, x, n);
    var w3 := Link(TagRest(w1, x, n), Sentinel(sent, ListIndex(4 * (Span(w[x]) - n))), x + n);
    SplitDone(w, w1, w3, sent, start, guard, H, cls, rank, SplitRank(w1, sent, rank, x, n), x, n);
    KeptIsTaken(w3, x, n);
  }

  /** The flags set after a split are the flags set on a chunk taken whole. */
  lemma KeptIsTaken(w: Words, x: nat, n: nat)
    requires x + n < |w| <= 0x1_0000 && 0 < n
    ensures Span(WithSize(w[x], 4 * n)) == n
    ensures TagKept(w, x, n) == TagTaken(w[x := WithSize(w[x], 4 * n)], x)
  {
  }

  lemma SplitDone(w: Words, w1: Words, w3: Words, sent: nat, start: nat, guard: nat, H: set<nat>, cls: map<nat, nat>, rank: map<nat, nat>, rank': map<nat, nat>, x: nat, n: nat)
    requires HeapInv(w, sent, start, guard, H, cls, rank) && start <= x
    requires |w| <= 0x1_0000 && |w3| == |w|
    requires x in H && !SelfAlloc(w[x]) && LeftAlloc(w[x]) && Undisturbed(w, w1, guard, H, 0, 0) && w1[x] == w[x]
    requires 4 <= n && n % 2 == 0 && n + 4 <= Span(w[x])
    requires LinksAside(w, TagRest(w1, x, n), w3, guard, H, x, n)
    requires Linked(w3, sent, start, SplitCls(w, cls, x, n), rank')
    ensures Acquired(w, TagKept(w3, x, n), sent, start, guard, H, H + {x + n}, SplitCls(w, cls, x, n), rank', x, n)
  {
    KeptLinks(w, w3, sent, start, guard, H, SplitCls(w, cls, x, n), rank', x, n);
    SplitTags(w, w1, w3, start, guard, H, x, n);
    var w4 := TagKept(w3, x, n);
    SplitKeepsTags(w, w4, start, guard, H, x, n);
    SplitCouples(w, w4, start, guard, H, cls, x, n);
    SplitOnly(w, w4, start, guard, H, x, n);
    SplitAccounting(w, w4, start, guard, H, x, n);
  }

  lemma SplitOnly(w: Words, w': Words, start: nat, guard: nat, H: set<nat>, x: nat, n: nat)
    requires Tiled(w, start, guard, H) && SplitStep(w, w', start, guard, H, x, n)
    requires forall h {:trigger SamePayload(w, w', h)} :: h in H && SelfAlloc(w[h]) ==> SamePayload(w, w', h)
    ensures AcquiredOnly(w, w', H, H + {x + n}, x) && Span(w'[x]) == n
  {
    var H' := H + {x + n};
    forall h {:trigger h in H'} | h in H'
      ensures SelfAlloc(w'[h]) <==> h == x || (h in H && SelfAlloc(w[h]))
      ensures h in H && h != x ==> Span(w'[h]) == Span(w[h])
    {
      SplitHeader(w, w', start, guard, H, x, n, h);
    }
    forall h {:trigger h in H} | h in H && SelfAlloc(w[h]) ensures h in H' && SamePayload(w, w', h) {}
  }

  /** The bounds that the writes of an allocation of `n` words rely on, once the chunk is unlinked. */
  ghost predicate Carvable(w: Words, sent: nat, x: nat, n: nat)
  {
    && x + 1 < |w| <= 0x1_0000
    && n % 2 == 0 && 4 <= n <= Span(w[x]) && Span(w[x]) % 2 == 0 && x + Span(w[x]) < |w|
    && (n + 4 <= Span(w[x]) ==> Splittable(w, sent, x, n))
  }

  /** The memory after returning the excess and setting the flags. */
  ghost function Carved(w: Words, sent: nat, x: nat, n: nat): Words
    requires Carvable(w, sent, x, n)
  {
    if n + 4 <= Span(w[x]) then TagTaken(ExcessReturned(w, sent, x, n), x) else TagTaken(w, x)
  }

  /** Carving any unlinked chunk that is large enough keeps the heap well formed and allocates just that chunk. */
  lemma CarveAcquires(w: Words, w1: Words, sent: nat, start: nat, guard: nat, H: set<nat>, cls: map<nat, nat>, rank: map<nat, nat>, x: nat, n: nat)
    returns (H': set<nat>, cls': map<nat, nat>, rank': map<nat, nat>, got: nat)
    requires HeapInv(w, sent, start, guard, H, cls, rank)
    requires x in cls && start <= x && x in H && !SelfAlloc(w[x]) && LeftAlloc(w[x]) && x + 1 < |w| == |w1| <= 0x1_0000 && x + Span(w[x]) < |w|
    requires Undisturbed(w, w1, guard, H, 0, 0) && Linked(w1, sent, start, cls - {x}, rank)
    requires SameHeaders(w, w1, H)
    requires n % 2 == 0 && 4 <= n <= Span(w[x]) && Span(w[x]) % 2 == 0
    ensures Carvable(w1, sent, x, n) && got == if n + 4 <= Span(w[x]) then n else Span(w[x])
    ensures Acquired(w, Carved(w1, sent, x, n), sent, start, guard, H, H', cls', rank', x, got)
  {
    hide HeapInv, Acquired, Linked, Undisturbed, Span, SelfAlloc, LeftAlloc, TagTaken, ExcessReturned;
    assert w1[x] == w[x];
    if n + 4 <= Span(w[x]) {
      SplitAfterUnlink(w, w1, sent, start, guard, H, cls, rank, x, n);
      got, H', cls', rank' := n, H + {x + n}, SplitCls(w, cls, x, n), SplitRank(w1, sent, rank, x, n);
    } else {
      TakeAfterUnlink(w, w1, sent, start, guard, H, cls, rank, x);
      got, H', cls', rank' := Span(w[x]), H, cls - {x}, rank;
    }
  }

  /** A linked chunk lies inside the heap. */
  lemma ChunkBounds(w: Words, sent: nat, start: nat, guard: nat, H: set<nat>, cls: map<nat, nat>, rank: map<nat, nat>, x: nat)
    requires HeapInv(w, sent, start, guard, H, cls, rank) && x in cls && start <= x
    ensures x in H && x + Span(w[x]) < |w| && 4 <= Span(w[x]) && Span(w[x]) % 2 == 0 && !SelfAlloc(w[x])
  {
  }
}
