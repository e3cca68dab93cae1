/**
 Header words, footers and the tiling of the heap by chunks.

 RAM is a sequence of 32-bit words. A pointer is modelled by the index of the word it points
 to: position p stands for byte address `LINK_OFFSET + 4 * p`. Sizes stored in headers and
 footers stay in bytes, as in the source.
 */
module BoundaryTags {

  import opened Common

  const LINK_OFFSET := 0x2000_0000

  type Words = seq<u32>

  // ---------- Header words: 30 bits of size, self-allocated flag, left-allocated flag ----------

  /** The chunk size in words. */
  function Span(v: nat): (n: nat)
    ensures 4 * n <= v < 4 * n + 4
  {
    v / 4
  }

  /** The chunk size in bytes. */
  function ChunkSize(v: nat): (size: nat)
    ensures size == 4 * Span(v)
  {
    v - v % 4
  }

  /** Bit 1 of the header. */
  predicate SelfAlloc(v: nat) { v % 4 >= 2 }

  /** Bit 0 of the header. */
  predicate LeftAlloc(v: nat) { v % 4 == 1 || v % 4 == 3 }

  /** A header of `n` words with the given flags. */
  function Header(n: nat, self: bool, left: bool): (v: nat)
    ensures Span(v) == n && SelfAlloc(v) == self && LeftAlloc(v) == left
  {
    4 * n + (if self then 2 else 0) + (if left then 1 else 0)
  }

  /** A header is nothing but its size and its two flags. */
  lemma HeaderComplete(v: nat)
    ensures v == Header(Span(v), SelfAlloc(v), LeftAlloc(v))
  {
  }

  lemma HeaderUnique(u: nat, v: nat)
    requires Span(u) == Span(v) && SelfAlloc(u) == SelfAlloc(v) && LeftAlloc(u) == LeftAlloc(v)
    ensures u == v
  {
  }

  /** Replace the size and keep both flags. */
  function WithSize(v: u32, size: u32): (r: u32)
    ensures Span(r) == Span(size) && SelfAlloc(r) == SelfAlloc(v) && LeftAlloc(r) == LeftAlloc(v)
  {
    size - size % 4 + v % 4
  }

  function SetSelf(v: u32): (r: u32)
    ensures Span(r) == Span(v) && SelfAlloc(r) && LeftAlloc(r) == LeftAlloc(v)
  {
    if SelfAlloc(v) then v else v + 2
  }

  function ClearSelf(v: u32): (r: u32)
    ensures Span(r) == Span(v) && !SelfAlloc(r) && LeftAlloc(r) == LeftAlloc(v)
  {
    if SelfAlloc(v) then v - 2 else v
  }

  function SetLeft(v: u32): (r: u32)
    ensures Span(r) == Span(v) && SelfAlloc(r) == SelfAlloc(v) && LeftAlloc(r)
  {
    if LeftAlloc(v) then v else v + 1
  }

  function ClearLeft(v: u32): (r: u32)
    ensures Span(r) == Span(v) && SelfAlloc(r) == SelfAlloc(v) && !LeftAlloc(r)
  {
    if LeftAlloc(v) then v - 1 else v
  }

  // ---------- The tiling ----------

  /** The chunk at `h` ends at the guard or at the next header. */
  ghost predicate EndsAtHeader(w: Words, guard: nat, H: set<nat>, h: nat)
  {
    h < |w| && (h + Span(w[h]) == guard || h + Span(w[h]) in H)
  }

  /**
   `H` is the set of header positions. The chunks start at `start`, each ends where the next
   begins, no chunk overlaps another, and the last one ends at the guard word. Headers stand
   at odd positions, so payloads are 8-byte aligned.
   */
  ghost predicate Tiled(w: Words, start: nat, guard: nat, H: set<nat>)
  {
    && start < guard < |w| && guard % 2 == 1
    && start in H
    && (forall h {:trigger h in H} :: h in H ==>
        start <= h < guard && h % 2 == 1 && 4 <= Span(w[h]) && Span(w[h]) % 2 == 0 && h + Span(w[h]) <= guard)
    && (forall h {:trigger EndsAtHeader(w, guard, H, h)} :: h in H ==> EndsAtHeader(w, guard, H, h))
    && (forall a, b {:trigger a in H, b in H} :: a in H && b in H && a < b ==> a + Span(w[a]) <= b)
  }

  /**
   The left flag of the right neighbour equals the self flag of the chunk at `h`. A free chunk
   repeats its size in its footer and has an allocated right neighbour.
   */
  ghost predicate RightTag(w: Words, h: nat)
  {
    && h < |w| && 0 < h + Span(w[h]) < |w|
    && LeftAlloc(w[h + Span(w[h])]) == SelfAlloc(w[h])
    && (!SelfAlloc(w[h]) ==> w[h + Span(w[h]) - 1] == Header(Span(w[h]), false, false) && SelfAlloc(w[h + Span(w[h])]))
  }

  /** `l` is a free chunk ending at `h`. */
  ghost predicate FreeLeftNeighbour(w: Words, H: set<nat>, l: int, h: nat)
  {
    l in H && 0 <= l < |w| && !SelfAlloc(w[l]) && l + Span(w[l]) == h
  }

  /** A chunk whose left flag is clear finds its free left neighbour through the footer. */
  ghost predicate LeftTag(w: Words, H: set<nat>, h: nat)
  {
    0 < h < |w| && (!LeftAlloc(w[h]) ==> FreeLeftNeighbour(w, H, h - Span(w[h - 1]), h))
  }

  /** The flags and footers of a tiled heap. */
  ghost predicate Tagged(w: Words, start: nat, guard: nat, H: set<nat>)
  {
    && start < |w| && guard < |w|
    && LeftAlloc(w[start]) && SelfAlloc(w[guard])
    && (forall h {:trigger RightTag(w, h)} :: h in H ==> RightTag(w, h))
    && (forall h {:trigger LeftTag(w, H, h)} :: h in H ==> LeftTag(w, H, h))
  }

  /** Header `h` and, when the chunk is free, its footer are the same in both memories. */
  ghost predicate SameTag(w: Words, w': Words, h: nat)
  {
    && h < |w| == |w'| && 0 < h + Span(w[h]) <= |w|
    && w'[h] == w[h]
    && (!SelfAlloc(w[h]) ==> w'[h + Span(w[h]) - 1] == w[h + Span(w[h]) - 1])
  }

  /** No two free chunks are adjacent: both neighbours of a free chunk are allocated. */
  lemma FreeChunkStandsAlone(w: Words, start: nat, guard: nat, H: set<nat>, x: nat)
    requires Tiled(w, start, guard, H) && Tagged(w, start, guard, H)
    requires x in H && !SelfAlloc(w[x])
    ensures LeftAlloc(w[x]) && SelfAlloc(w[x + Span(w[x])])
    ensures forall l :: l in H && l + Span(w[l]) == x ==> SelfAlloc(w[l])
  {
    assert RightTag(w, x) && LeftTag(w, H, x);
    var l := x - Span(w[x - 1]);
    if l >= 0 && l in H { assert RightTag(w, l); }
    assert !LeftAlloc(w[x]) ==> FreeLeftNeighbour(w, H, l, x);
    forall l | l in H && l + Span(w[l]) == x ensures SelfAlloc(w[l]) { assert RightTag(w, l); }
  }

  // ---------- Freeing ----------

  /** The headers left once [m, e) has become one chunk. */
  ghost function Coalesced(H: set<nat>, m: nat, e: nat): set<nat>
  {
    set h | h in H && (h <= m || e <= h)
  }

  /** [m, e) is a run of chunks with allocated outer neighbours; `w'` tags it as one free chunk and keeps the other tags. */
  ghost predicate CoalesceStep(w: Words, w': Words, start: nat, guard: nat, H: set<nat>, m: nat, e: nat)
  {
    && |w'| == |w| && m in H && m + 4 <= e && (e - m) % 2 == 0 && e < |w| && (e == guard || e in H)
    && LeftAlloc(w[m]) && SelfAlloc(w[e])
    && w'[m] == Header(e - m, false, true) && w'[e - 1] == Header(e - m, false, false) && w'[e] == ClearLeft(w[e])
    && (forall h {:trigger SameTag(w, w', h)} :: h in H && (h < m || e < h) ==> SameTag(w, w', h))
    && guard < |w| && (e < guard ==> w'[guard] == w[guard])
  }

  /** Coalescing a run of chunks keeps the tiling and all tags. */
  lemma CoalesceKeepsTags(w: Words, w': Words, start: nat, guard: nat, H: set<nat>, m: nat, e: nat)
    requires Tiled(w, start, guard, H) && Tagged(w, start, guard, H)
    requires CoalesceStep(w, w', start, guard, H, m, e)
    ensures Tiled(w', start, guard, Coalesced(H, m, e))
    ensures Tagged(w', start, guard, Coalesced(H, m, e))
  {
    var H' := Coalesced(H, m, e);
    CoalesceTiles(w, w', start, guard, H, m, e);
    forall h | h in H' ensures RightTag(w', h) {
      CoalesceRightTag(w, w', start, guard, H, m, e, h);
    }
    forall h | h in H' ensures LeftTag(w', H', h) {
      CoalesceLeftTag(w, w', start, guard, H, m, e, h);
    }
    if e < guard { assert guard !in H; }
    if start < m { assert SameTag(w, w', start); }
  }

  lemma CoalesceHeader(w: Words, w': Words, start: nat, guard: nat, H: set<nat>, m: nat, e: nat, h: nat)
    requires Tiled(w, start, guard, H)
    requires CoalesceStep(w, w', start, guard, H, m, e)
    requires h in Coalesced(H, m, e)
    ensures Span(w'[h]) == (if h == m then e - m else Span(w[h]))
    ensures SelfAlloc(w'[h]) == (h != m && SelfAlloc(w[h]))
    ensures LeftAlloc(w'[h]) == (h != e && LeftAlloc(w[h]))
    ensures h != m && h != e ==> SameTag(w, w', h)
  {
    if h < m || h > e { assert SameTag(w, w', h); }
  }

  lemma CoalesceTiles(w: Words, w': Words, start: nat, guard: nat, H: set<nat>, m: nat, e: nat)
    requires Tiled(w, start, guard, H)
    requires CoalesceStep(w, w', start, guard, H, m, e)
    ensures Tiled(w', start, guard, Coalesced(H, m, e))
  {
    var H' := Coalesced(H, m, e);
    forall h | h in H'
      ensures Span(w'[h]) == (if h == m then e - m else Span(w[h]))
      ensures EndsAtHeader(w', guard, H', h)
    {
      CoalesceHeader(w, w', start, guard, H, m, e, h);
      assert EndsAtHeader(w, guard, H, h);
    }
  }

  lemma CoalesceRightTag(w: Words, w': Words, start: nat, guard: nat, H: set<nat>, m: nat, e: nat, h: nat)
    requires Tiled(w, start, guard, H) && Tagged(w, start, guard, H)
    requires CoalesceStep(w, w', start, guard, H, m, e)
    requires h in Coalesced(H, m, e)
    ensures RightTag(w', h)
  {
    CoalesceHeader(w, w', start, guard, H, m, e, h);
    if h != m {
      var r := h + Span(w[h]);
      assert EndsAtHeader(w, guard, H, h) && RightTag(w, h);
      if r < guard && r != e { CoalesceHeader(w, w', start, guard, H, m, e, r); }
    }
  }

  lemma CoalesceLeftTag(w: Words, w': Words, start: nat, guard: nat, H: set<nat>, m: nat, e: nat, h: nat)
    requires Tiled(w, start, guard, H) && Tagged(w, start, guard, H)
    requires CoalesceStep(w, w', start, guard, H, m, e)
    requires h in Coalesced(H, m, e)
    ensures LeftTag(w', Coalesced(H, m, e), h)
  {
    assert LeftTag(w, H, h);
    CoalesceHeader(w, w', start, guard, H, m, e, h);
    if h == e {
      CoalesceHeader(w, w', start, guard, H, m, e, m);
    } else if !LeftAlloc(w[h]) {
      var l := h - Span(w[h - 1]);
      assert FreeLeftNeighbour(w, H, l, h);
      assert RightTag(w, l);
      assert l < m || l > e;
      CoalesceHeader(w, w', start, guard, H, m, e, l);
    }
  }

  // ---------- Allocating ----------

  /** `w'` marks the whole free chunk at `x` allocated and keeps the other tags. */
  ghost predicate TakeStep(w: Words, w': Words, start: nat, guard: nat, H: set<nat>, x: nat)
  {
    && |w'| == |w| && x in H && x < |w| && guard < |w| && x + Span(w[x]) < |w|
    && !SelfAlloc(w[x])
    && w'[x] == SetLeft(SetSelf(w[x]))
    && w'[x + Span(w[x])] == SetLeft(w[x + Span(w[x])])
    && (forall h {:trigger SameTag(w, w', h)} :: h in H && h != x && h != x + Span(w[x]) ==> SameTag(w, w', h))
    && (x + Span(w[x]) < guard ==> w'[guard] == w[guard])
  }

  /** `w'` allocates the first `n` words of the free chunk at `x`, tags the rest as a free chunk and keeps the other tags. */
  ghost predicate SplitStep(w: Words, w': Words, start: nat, guard: nat, H: set<nat>, x: nat, n: nat)
  {
    && |w'| == |w| && x in H && x < |w| && guard < |w| && x + Span(w[x]) < |w|
    && !SelfAlloc(w[x])
    && 4 <= n && n % 2 == 0 && n + 4 <= Span(w[x])
    && w'[x] == Header(n, true, true)
    && w'[x + n] == Header(Span(w[x]) - n, false, true)
    && w'[x + Span(w[x]) - 1] == Header(Span(w[x]) - n, false, false)
    && (forall h {:trigger SameTag(w, w', h)} :: h in H && h != x ==> SameTag(w, w', h))
    && w'[guard] == w[guard]
  }

  lemma TakeHeader(w: Words, w': Words, start: nat, guard: nat, H: set<nat>, x: nat, h: nat)
    requires Tiled(w, start, guard, H) && TakeStep(w, w', start, guard, H, x)
    requires SelfAlloc(w[x + Span(w[x])])
    requires h in H
    ensures Span(w'[h]) == Span(w[h])
    ensures SelfAlloc(w'[h]) == (h == x || SelfAlloc(w[h]))
    ensures LeftAlloc(w'[h]) == (h == x || h == x + Span(w[x]) || LeftAlloc(w[h]))
    ensures h != x && !SelfAlloc(w[h]) ==> SameTag(w, w', h)
  {
    if h != x && h != x + Span(w[x]) { assert SameTag(w, w', h); }
  }

  lemma TakeTiles(w: Words, w': Words, start: nat, guard: nat, H: set<nat>, x: nat)
    requires Tiled(w, start, guard, H) && TakeStep(w, w', start, guard, H, x)
    requires SelfAlloc(w[x + Span(w[x])])
    ensures Tiled(w', start, guard, H)
  {
    forall h | h in H
      ensures Span(w'[h]) == Span(w[h]) && EndsAtHeader(w', guard, H, h)
    {
      TakeHeader(w, w', start, guard, H, x, h);
      assert EndsAtHeader(w, guard, H, h);
    }
  }

  lemma TakeRightTag(w: Words, w': Words, start: nat, guard: nat, H: set<nat>, x: nat, h: nat)
    requires Tiled(w, start, guard, H) && Tagged(w, start, guard, H)
    requires TakeStep(w, w', start, guard, H, x) && SelfAlloc(w[x + Span(w[x])])
    requires h in H
    ensures RightTag(w', h)
  {
    TakeHeader(w, w', start, guard, H, x, h);
    assert EndsAtHeader(w, guard, H, h) && RightTag(w, h);
    var r := h + Span(w[h]);
    if h != x {
      assert r != x + Span(w[x]);
      if r < guard { TakeHeader(w, w', start, guard, H, x, r); }
    }
  }

  lemma TakeLeftTag(w: Words, w': Words, start: nat, guard: nat, H: set<nat>, x: nat, h: nat)
    requires Tiled(w, start, guard, H) && Tagged(w, start, guard, H)
    requires TakeStep(w, w', start, guard, H, x) && SelfAlloc(w[x + Span(w[x])])
    requires h in H
    ensures LeftTag(w', H, h)
  {
    TakeHeader(w, w', start, guard, H, x, h);
    assert LeftTag(w, H, h);
    if !LeftAlloc(w[h]) && h != x && h != x + Span(w[x]) {
      var l := h - Span(w[h - 1]);
      assert FreeLeftNeighbour(w, H, l, h) && RightTag(w, l);
      TakeHeader(w, w', start, guard, H, x, l);
    }
  }

  lemma TakeKeepsTags(w: Words, w': Words, start: nat, guard: nat, H: set<nat>, x: nat)
    requires Tiled(w, start, guard, H) && Tagged(w, start, guard, H)
    requires TakeStep(w, w', start, guard, H, x)
    ensures Tiled(w', start, guard, H)
    ensures Tagged(w', start, guard, H)
  {
    assert RightTag(w, x);
    TakeTiles(w, w', start, guard, H, x);
    forall h | h in H ensures RightTag(w', h) { TakeRightTag(w, w', start, guard, H, x, h); }
    forall h | h in H ensures LeftTag(w', H, h) { TakeLeftTag(w, w', start, guard, H, x, h); }
    TakeHeader(w, w', start, guard, H, x, start);
    assert EndsAtHeader(w, guard, H, x);
  }

  lemma SplitHeader(w: Words, w': Words, start: nat, guard: nat, H: set<nat>, x: nat, n: nat, h: nat)
    requires Tiled(w, start, guard, H)
    requires SplitStep(w, w', start, guard, H, x, n)
    requires h in H + {x + n}
    ensures h == x + n <==> h !in H
    ensures Span(w'[h]) == if h == x then n else if h == x + n then Span(w[x]) - n else Span(w[h])
    ensures SelfAlloc(w'[h]) == (h == x || (h != x + n && SelfAlloc(w[h])))
    ensures LeftAlloc(w'[h]) == (h == x || h == x + n || LeftAlloc(w[h]))
    ensures h != x && h != x + n ==> SameTag(w, w', h)
  {
    assert x + n !in H;
    if h == x {
    } else if h == x + n {
    } else {
      assert SameTag(w, w', h);
    }
  }

  lemma SplitKeepsTags(w: Words, w': Words, start: nat, guard: nat, H: set<nat>, x: nat, n: nat)
    requires Tiled(w, start, guard, H) && Tagged(w, start, guard, H)
    requires SplitStep(w, w', start, guard, H, x, n)
    ensures Tiled(w', start, guard, H + {x + n})
    ensures Tagged(w', start, guard, H + {x + n})
  {
    var H' := H + {x + n};
    SplitTiles(w, w', start, guard, H, x, n);
    forall h | h in H' ensures RightTag(w', h) {
      SplitRightTag(w, w', start, guard, H, x, n, h);
    }
    forall h | h in H' ensures LeftTag(w', H', h) {
      SplitLeftTag(w, w', start, guard, H, x, n, h);
    }
    SplitHeader(w, w', start, guard, H, x, n, start);
  }

  lemma SplitTiles(w: Words, w': Words, start: nat, guard: nat, H: set<nat>, x: nat, n: nat)
    requires Tiled(w, start, guard, H)
    requires SplitStep(w, w', start, guard, H, x, n)
    ensures Tiled(w', start, guard, H + {x + n})
  {
    hide Span, SelfAlloc, LeftAlloc, SplitStep, EndsAtHeader;
    var H' := H + {x + n};
    SplitLength(w, w', start, guard, H, x, n);
    forall h {:trigger h in H'} | h in H'
      ensures start <= h < guard && h % 2 == 1
      ensures 4 <= Span(w'[h]) && Span(w'[h]) % 2 == 0 && h + Span(w'[h]) <= guard
    {
      SplitPlace(w, w', start, guard, H, x, n, h);
    }
    forall h | h in H' ensures EndsAtHeader(w', guard, H', h) {
      SplitEnds(w, w', start, guard, H, x, n, h);
    }
    forall a, b {:trigger a in H', b in H'} | a in H' && b in H' && a < b ensures a + Span(w'[a]) <= b {
      SplitApart(w, w', start, guard, H, x, n, a, b);
    }
  }

  lemma SplitLength(w: Words, w': Words, start: nat, guard: nat, H: set<nat>, x: nat, n: nat)
    requires Tiled(w, start, guard, H) && SplitStep(w, w', start, guard, H, x, n)
    ensures |w'| == |w|
  {
  }

  lemma SplitPlace(w: Words, w': Words, start: nat, guard: nat, H: set<nat>, x: nat, n: nat, h: nat)
    requires Tiled(w, start, guard, H)
    requires SplitStep(w, w', start, guard, H, x, n)
    requires h in H + {x + n}
    ensures start <= h < guard <= |w'| && h % 2 == 1
    ensures 4 <= Span(w'[h]) && Span(w'[h]) % 2 == 0 && h + Span(w'[h]) <= guard
  {
    hide Span, SelfAlloc, LeftAlloc, EndsAtHeader, SameTag;
    SplitHeader(w, w', start, guard, H, x, n, h);
    assert x in H;
  }

  lemma SplitEnds(w: Words, w': Words, start: nat, guard: nat, H: set<nat>, x: nat, n: nat, h: nat)
    requires Tiled(w, start, guard, H)
    requires SplitStep(w, w', start, guard, H, x, n)
    requires h in H + {x + n}
    ensures EndsAtHeader(w', guard, H + {x + n}, h)
  {
    assert EndsAtHeader(w, guard, H, if h == x + n then x else h);
    SplitHeader(w, w', start, guard, H, x, n, h);
  }

  lemma SplitApart(w: Words, w': Words, start: nat, guard: nat, H: set<nat>, x: nat, n: nat, a: nat, b: nat)
    requires Tiled(w, start, guard, H)
    requires SplitStep(w, w', start, guard, H, x, n)
    requires a in H + {x + n} && b in H + {x + n} && a < b
    ensures |w'| == |w| && a < |w| && a + Span(w'[a]) <= b
  {
    SplitHeader(w, w', start, guard, H, x, n, a);
    assert a in H ==> a + Span(w[a]) <= guard;
    assert b in H ==> b < guard;
    if b == x + n && a < x { assert a in H && x in H; }
  }

  lemma SplitRightTag(w: Words, w': Words, start: nat, guard: nat, H: set<nat>, x: nat, n: nat, h: nat)
    requires Tiled(w, start, guard, H) && Tagged(w, start, guard, H)
    requires SplitStep(w, w', start, guard, H, x, n)
    requires h in H + {x + n}
    ensures RightTag(w', h)
  {
    SplitHeader(w, w', start, guard, H, x, n, h);
    SplitHeader(w, w', start, guard, H, x, n, x + n);
    assert EndsAtHeader(w, guard, H, x) && RightTag(w, x);
    if h == x + n {
      var e := x + Span(w[x]);
      if e < guard { SplitHeader(w, w', start, guard, H, x, n, e); }
    } else if h != x {
      var r := h + Span(w[h]);
      assert EndsAtHeader(w, guard, H, h) && RightTag(w, h);
      if r < guard { SplitHeader(w, w', start, guard, H, x, n, r); }
    }
  }

  lemma SplitLeftTag(w: Words, w': Words, start: nat, guard: nat, H: set<nat>, x: nat, n: nat, h: nat)
    requires Tiled(w, start, guard, H) && Tagged(w, start, guard, H)
    requires SplitStep(w, w', start, guard, H, x, n)
    requires h in H + {x + n}
    ensures LeftTag(w', H + {x + n}, h)
  {
    SplitHeader(w, w', start, guard, H, x, n, h);
    if h != x && h != x + n && !LeftAlloc(w[h]) {
      var l := h - Span(w[h - 1]);
      assert LeftTag(w, H, h);
      assert FreeLeftNeighbour(w, H, l, h) && RightTag(w, l);
      SplitHeader(w, w', start, guard, H, x, n, l);
      SplitHeader(w, w', start, guard, H, x, n, x + n);
    }
  }
}
