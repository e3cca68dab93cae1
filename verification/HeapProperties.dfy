/** What the heap invariant means for the allocator's clients. */
module HeapProperties {

  import opened Common
  import opened BoundaryTags
  import opened FreeLists
  import opened HeapLayout
  import opened HeapRelease

  // ---------- The headers are what a walk over RAM finds ----------

  /** The headers met by jumping from chunk to chunk, from `a` up to the guard. */
  ghost function Walk(w: Words, guard: nat, a: nat): seq<nat>
    requires guard < |w|
    decreases guard - a
  {
    if a >= guard || Span(w[a]) == 0 then [] else [a] + Walk(w, guard, a + Span(w[a]))
  }

  /** The header set is no free choice: RAM alone determines it. */
  lemma {:induction false} WalkFindsHeaders(w: Words, start: nat, guard: nat, H: set<nat>, a: nat)
    requires Tiled(w, start, guard, H) && (a in H || a == guard)
    ensures forall h {:trigger h in H} {:trigger h in Walk(w, guard, a)} :: h in Walk(w, guard, a) <==> h in H && a <= h
    decreases guard - a
  {
    if a < guard {
      assert EndsAtHeader(w, guard, H, a);
      WalkFindsHeaders(w, start, guard, H, a + Span(w[a]));
    }
  }

  // ---------- What a failed search means ----------

  /** A chunk of at least twice the rounded size is in a list that the search visits. */
  lemma DoubleSizeIsSearched(size: u32, rounded: u32)
    requires 16 <= rounded && 2 * rounded <= size
    ensures ListIndex(size) >= if ListIndex(rounded) + 1 < 5 then ListIndex(rounded) + 1 else 5
  {
    ListIndexIsSizeClass(size);
    ListIndexIsSizeClass(rounded);
  }

  /** A larger chunk is in no lower class. */
  lemma LargerIsNoLower(size: u32, rounded: u32)
    requires rounded <= size
    ensures ListIndex(rounded) <= ListIndex(size) <= 5
  {
    ListIndexIsSizeClass(size);
    ListIndexIsSizeClass(rounded);
  }

  // ---------- Payloads ----------

  /** A client that writes to its own payload breaks nothing. */
  lemma PayloadWrite(w: Words, sent: nat, start: nat, guard: nat, H: set<nat>, cls: map<nat, nat>, rank: map<nat, nat>, h: nat, i: nat, v: u32)
    requires HeapInv(w, sent, start, guard, H, cls, rank)
    requires h in H && h < |w| && SelfAlloc(w[h]) && h < i < h + Span(w[h])
    ensures i < guard < |w| && HeapInv(w[i := v], sent, start, guard, H, cls, rank)
    ensures AllocWords(w[i := v], start, guard, H, start) == AllocWords(w, start, guard, H, start)
    ensures SameHeaders(w, w[i := v], H)
    ensures forall x {:trigger SamePayload(w, w[i := v], x)} :: x in H && x != h ==> SamePayload(w, w[i := v], x)
  {
    hide Span, SelfAlloc, LeftAlloc, Next, Prev, ListIndex;
    var w' := w[i := v];
    forall x | x in H ensures SameTag(w, w', x) && (SelfAlloc(w[x]) && x != h ==> SamePayload(w, w', x)) {
      assert x + Span(w[x]) <= guard;
      assert x < h ==> x + Span(w[x]) <= h;
      assert h < x ==> h + Span(w[h]) <= x;
    }
    TagsSurvive(w, w', start, guard, H);
    forall y | y in cls && y + 1 < |w| ensures w'[y + 1] == w[y + 1] {
      LinkWordApart(w, w, sent, start, guard, H, cls, rank, y, h);
    }
    LinksOnly(w, w', sent, start, cls, rank);
    AllocWordsBetween(w, w', start, guard, H, H, start, guard);
  }

  /** Two allocated payloads do not overlap, and no payload leaves the heap. */
  lemma PayloadsDisjoint(w: Words, start: nat, guard: nat, H: set<nat>, a: nat, b: nat, i: nat)
    requires Tiled(w, start, guard, H) && a in H && b in H && a != b
    requires a < i < a + Span(w[a])
    ensures start < i < guard && !(b <= i < b + Span(w[b]))
  {
    assert a < b || b < a;
  }

  // ---------- The heap at rest ----------

  ghost function FreeChunks(w: Words, H: set<nat>): set<nat>
  {
    set h | h in H && h < |w| && !SelfAlloc(w[h])
  }

  lemma AtMostTwo(s: set<nat>, a: nat, b: nat)
    requires s <= {a, b}
    ensures |s| <= 2
  {
    assert |s - {a}| <= 1 by {
      if b in s - {a} { assert s - {a} == {b}; } else { assert s - {a} == {}; }
    }
    if a in s { assert s == (s - {a}) + {a}; } else { assert s == s - {a}; }
  }

  lemma LastChunk(w: Words, start: nat, guard: nat, H: set<nat>, x: nat)
    requires Tiled(w, start, guard, H) && x in H && x + Span(w[x]) == guard
    ensures forall h {:trigger h in H} :: h in H ==> h == x || h + Span(w[h]) <= x
  {
  }

  /** With everything freed, only the cached chunk and what lies on either side of it remain. */
  lemma RestingChunks(w: Words, start: nat, guard: nat, H: set<nat>, cached: nat)
    requires Tiled(w, start, guard, H) && Tagged(w, start, guard, H) && Owned(w, H, {}, cached)
    ensures cached !in H ==> H == {start}
    ensures cached in H ==> H <= {start, cached, cached + Span(w[cached])}
    ensures |FreeChunks(w, H)| <= 2 && (cached !in H ==> |FreeChunks(w, H)| <= 1)
  {
    hide Span, SelfAlloc, LeftAlloc;
    assert EndsAtHeader(w, guard, H, start);
    var second := start + Span(w[start]);
    if second in H {
      if start != cached { FreeChunkStandsAlone(w, start, guard, H, start); }
      assert cached in H;
      assert EndsAtHeader(w, guard, H, cached);
      var third := cached + Span(w[cached]);
      if third in H {
        assert EndsAtHeader(w, guard, H, third);
        FreeChunkStandsAlone(w, start, guard, H, third);
        LastChunk(w, start, guard, H, third);
      }
    }
    if cached in H {
      AtMostTwo(FreeChunks(w, H), start, cached + Span(w[cached]));
    } else {
      assert FreeChunks(w, H) <= {start};
      assert FreeChunks(w, H) == {} || FreeChunks(w, H) == {start};
    }
  }

  /** With everything freed, the allocated words are those of the cached chunk. */
  lemma {:induction false} RestingTotal(w: Words, start: nat, guard: nat, H: set<nat>, cached: nat, a: nat)
    requires Tiled(w, start, guard, H) && Owned(w, H, {}, cached) && (a in H || a == guard)
    ensures AllocWords(w, start, guard, H, a) == if cached in H && a <= cached then Span(w[cached]) else 0
    decreases guard - a
  {
    if a != guard {
      assert EndsAtHeader(w, guard, H, a);
      RestingTotal(w, start, guard, H, cached, a + Span(w[a]));
    }
  }
}
