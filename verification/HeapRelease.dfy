/** Facts about freeing a chunk: the run it coalesces with, and each stage of the operation. */
module HeapRelease {

  import opened Common
  import opened BoundaryTags
  import opened FreeLists
  import opened HeapLayout

  /** Where the free run that will contain the allocated chunk at `h` begins. */
  ghost function RunStart(w: Words, h: nat): int
    requires 0 < h < |w|
  {
    if LeftAlloc(w[h]) then h else h - Span(w[h - 1])
  }

  /** Where that run ends. */
  ghost function RunEnd(w: Words, h: nat): nat
    requires h < |w| && h + Span(w[h]) < |w|
  {
    var r := h + Span(w[h]);
    if SelfAlloc(w[r]) then r else r + Span(w[r])
  }

  /** The nodes outside [m, e). */
  ghost function Outside(cls: map<nat, nat>, m: nat, e: nat): map<nat, nat>
  {
    map x | x in cls && !(m <= x < e) :: cls[x]
  }

  lemma RunLeft(w: Words, start: nat, guard: nat, H: set<nat>, h: nat)
    requires Tiled(w, start, guard, H) && Tagged(w, start, guard, H)
    requires h in H
    ensures 0 < h < |w|
    ensures var m := RunStart(w, h);
      && m in H && 0 <= m <= h && LeftAlloc(w[m])
      && (m < h ==> !SelfAlloc(w[m]) && m + Span(w[m]) == h)
  {
    assert LeftTag(w, H, h);
    if !LeftAlloc(w[h]) {
      var m := h - Span(w[h - 1]);
      assert FreeLeftNeighbour(w, H, m, h);
      FreeChunkStandsAlone(w, start, guard, H, m);
    }
  }

  lemma RunRight(w: Words, start: nat, guard: nat, H: set<nat>, h: nat)
    requires Tiled(w, start, guard, H) && Tagged(w, start, guard, H)
    requires h in H
    ensures h + Span(w[h]) < |w|
    ensures var r, e := h + Span(w[h]), RunEnd(w, h);
      && h + 4 <= r <= e <= guard && (e == guard || e in H) && SelfAlloc(w[e])
      && (r < e ==> r in H && !SelfAlloc(w[r]) && r + Span(w[r]) == e)
  {
    var r := h + Span(w[h]);
    assert EndsAtHeader(w, guard, H, h);
    if !SelfAlloc(w[r]) {
      assert r in H;
      assert RightTag(w, r) && EndsAtHeader(w, guard, H, r);
    }
  }

  /** The run around an allocated chunk has allocated neighbours and holds no other allocated chunk. */
  lemma RunFacts(w: Words, start: nat, guard: nat, H: set<nat>, h: nat)
    requires Tiled(w, start, guard, H) && Tagged(w, start, guard, H)
    requires h in H
    ensures 0 < h < |w| && h + Span(w[h]) < |w| && RunEnd(w, h) < |w|
    ensures var m, r, e := RunStart(w, h), h + Span(w[h]), RunEnd(w, h);
      && m in H && m <= h < r <= e && m + 4 <= e && (e - m) % 2 == 0 && (e == guard || e in H)
      && LeftAlloc(w[m]) && SelfAlloc(w[e])
      && (m < h ==> m + Span(w[m]) == h && !SelfAlloc(w[m]))
      && (r < e ==> r in H && r + Span(w[r]) == e && !SelfAlloc(w[r]))
  {
    hide Span, SelfAlloc, LeftAlloc, RunStart, RunEnd, Tagged;
    RunLeft(w, start, guard, H, h);
    RunRight(w, start, guard, H, h);
  }

  /** The run [m, e) has been taken off the lists and its first header spans it. */
  ghost predicate Merged(w: Words, w': Words, sent: nat, start: nat, guard: nat, H: set<nat>,
                         cls: map<nat, nat>, cls': map<nat, nat>, rank: map<nat, nat>, m: nat, e: nat)
  {
    && m in H && m < |w| && m <= e && Undisturbed(w, w', guard, H, m, e)
    && cls' == Outside(cls, m, e) && Linked(w', sent, start, cls', rank)
    && Span(w'[m]) == e - m && LeftAlloc(w'[m]) == LeftAlloc(w[m])
  }

  /** The run holds no list node but the free neighbours of its allocated chunk. */
  lemma OutsideRun(w: Words, start: nat, guard: nat, H: set<nat>, cls: map<nat, nat>, h: nat)
    requires Tiled(w, start, guard, H) && Tagged(w, start, guard, H) && Coupled(w, start, H, cls)
    requires h in H && SelfAlloc(w[h])
    ensures 0 < h < |w| && h + Span(w[h]) < |w|
    ensures var m, r, e := RunStart(w, h), h + Span(w[h]), RunEnd(w, h);
      m >= 0 && Outside(cls, m, e) == cls - (if m < h then {m} else {}) - (if r < e then {r} else {})
  {
    hide Span, SelfAlloc, LeftAlloc, RunStart, RunEnd, Tagged;
    RunFacts(w, start, guard, H, h);
    var m, r, e := RunStart(w, h), h + Span(w[h]), RunEnd(w, h);
    forall x | x in cls && m <= x < e ensures x == m < h || x == r < e {
      assert start <= x && x in H;
    }
    assert m < h ==> m in cls;
    assert r < e ==> r in cls;
  }

  /** All that merging needs to know about the run around the allocated chunk at `h`. */
  lemma MergeFacts(w: Words, sent: nat, start: nat, guard: nat, H: set<nat>, cls: map<nat, nat>, rank: map<nat, nat>, h: nat)
    requires HeapInv(w, sent, start, guard, H, cls, rank)
    requires h in H && SelfAlloc(w[h])
    ensures start <= h && 0 < h < |w| && h + Span(w[h]) < |w| && RunEnd(w, h) < |w|
    ensures var m, r, e := RunStart(w, h), h + Span(w[h]), RunEnd(w, h);
      && start <= m && m in H && m <= h < r <= e && m + 4 <= e
      && (m < h <==> !LeftAlloc(w[h])) && (r < e <==> !SelfAlloc(w[r]))
      && (m < h ==> m + Span(w[m]) == h && !SelfAlloc(w[m]) && m in cls)
      && (r < e ==> r in H && r + Span(w[r]) == e && !SelfAlloc(w[r]) && r in cls)
      && Outside(cls, m, e) == cls - (if m < h then {m} else {}) - (if r < e then {r} else {})
  {
    RunFacts(w, start, guard, H, h);
    OutsideRun(w, start, guard, H, cls, h);
    assert LeftTag(w, H, h);
    assert EndsAtHeader(w, guard, H, h);
  }

  /** With both neighbours allocated there is nothing to merge. */
  lemma NoNeighbourMerged(w: Words, sent: nat, start: nat, guard: nat, H: set<nat>, cls: map<nat, nat>, rank: map<nat, nat>, h: nat)
    requires HeapInv(w, sent, start, guard, H, cls, rank)
    requires h in H && SelfAlloc(w[h]) && LeftAlloc(w[h]) && h + Span(w[h]) < |w| && SelfAlloc(w[h + Span(w[h])])
    ensures Merged(w, w, sent, start, guard, H, cls, cls, rank, h, h + Span(w[h]))
  {
    OutsideRun(w, start, guard, H, cls, h);
    forall x | x in H ensures SameTag(w, w, x) { assert x + Span(w[x]) <= guard; }
  }

  /** Unlinking a free neighbour. */
  lemma UnlinkFirst(w: Words, sent: nat, start: nat, guard: nat, H: set<nat>, cls: map<nat, nat>, rank: map<nat, nat>, x: nat)
    requires HeapInv(w, sent, start, guard, H, cls, rank)
    requires x in H && !SelfAlloc(w[x])
    ensures CanUnlink(w, x)
    ensures var w1 := Unlink(w, x);
      && Linked(w1, sent, start, cls - {x}, rank) && Undisturbed(w, w1, guard, H, 0, 0)
      && SameHeaders(w, w1, H)
  {
    UnlinkKeepsLinked(w, sent, start, cls, rank, x);
    UnlinkUndisturbed(w, sent, start, guard, H, cls, rank, x);
  }

  /** The second of two unlinkings. */
  lemma UnlinkSecond(w: Words, w1: Words, sent: nat, start: nat, guard: nat, H: set<nat>, cls: map<nat, nat>, rank: map<nat, nat>, l: nat, r: nat)
    requires HeapInv(w, sent, start, guard, H, cls, rank)
    requires Linked(w1, sent, start, cls - {l}, rank) && Undisturbed(w, w1, guard, H, 0, 0)
    requires SameHeaders(w, w1, H)
    requires r in cls - {l} && start <= r
    ensures CanUnlink(w1, r)
    ensures var w2 := Unlink(w1, r);
      && Linked(w2, sent, start, cls - {l} - {r}, rank) && Undisturbed(w, w2, guard, H, 0, 0)
      && SameHeaders(w, w2, H)
  {
    SameHeadersTile(w, w1, start, guard, H);
    UnlinkKeepsLinked(w1, sent, start, cls - {l}, rank, r);
    UnlinkUndisturbed(w1, sent, start, guard, H, cls - {l}, rank, r);
    UndisturbedTwice(w, w1, Unlink(w1, r), guard, H);
  }

  /** Writing the header of a chunk inside the run disturbs nothing else. */
  lemma ResizeMerged(w: Words, w1: Words, sent: nat, start: nat, guard: nat, H: set<nat>,
                     cls: map<nat, nat>, cls1: map<nat, nat>, rank: map<nat, nat>, m: nat, e: nat, v: u32)
    requires HeapInv(w, sent, start, guard, H, cls, rank) && Linked(w1, sent, start, cls1, rank)
    requires m in H && m < e && m < |w| && Undisturbed(w, w1, guard, H, 0, 0) && w1[m] == w[m]
    requires cls1 == Outside(cls, m, e)
    requires Span(v) == e - m && LeftAlloc(v) == LeftAlloc(w[m])
    ensures Merged(w, w1[m := v], sent, start, guard, H, cls, cls1, rank, m, e)
  {
    var w' := w1[m := v];
    forall h | h in H && h != m ensures SameTag(w, w', h) && (SelfAlloc(w[h]) ==> SamePayload(w, w', h)) {
      assert SameTag(w, w1, h) && (SelfAlloc(w[h]) ==> SamePayload(w, w1, h));
    }
    forall x | x in cls1 && x + 1 < |w1| ensures w'[x + 1] == w1[x + 1] {
      if start <= x { assert x in H; }
    }
    LinksOnly(w1, w', sent, start, cls1, rank);
  }

  /** Once the free neighbours are off their lists, resizing the first header of the run completes the merge. */
  lemma MergeCompletes(w: Words, w1: Words, sent: nat, start: nat, guard: nat, H: set<nat>,
                       cls: map<nat, nat>, cls1: map<nat, nat>, rank: map<nat, nat>, h: nat, m: nat, total: nat)
    requires HeapInv(w, sent, start, guard, H, cls, rank) && Linked(w1, sent, start, cls1, rank)
    requires h in H && 0 < h < |w| && SelfAlloc(w[h]) && h + Span(w[h]) < |w| && m == RunStart(w, h) && m < |w|
    requires Undisturbed(w, w1, guard, H, 0, 0) && w1[m] == w[m]
    requires cls1 == cls - (if LeftAlloc(w[h]) then {} else {m}) - (if SelfAlloc(w[h + Span(w[h])]) then {} else {h + Span(w[h])})
    requires total == ChunkSize(w[h]) + (if LeftAlloc(w[h]) then 0 else ChunkSize(w[m]))
      + (if SelfAlloc(w[h + Span(w[h])]) then 0 else ChunkSize(w[h + Span(w[h])]))
    ensures total < 0x1_0000_0000
    ensures Merged(w, w1[m := WithSize(w1[m], total)], sent, start, guard, H, cls, cls1, rank, m, RunEnd(w, h))
  {
    MergeFacts(w, sent, start, guard, H, cls, rank, h);
    ResizeMerged(w, w1, sent, start, guard, H, cls, cls1, rank, m, RunEnd(w, h), WithSize(w1[m], total));
  }

  /** The whole merge when both neighbours are free. */
  lemma MergeBoth(w: Words, sent: nat, start: nat, guard: nat, H: set<nat>, cls: map<nat, nat>, rank: map<nat, nat>, h: nat)
    returns (l: nat, r: nat, w1: Words, w2: Words, total: nat)
    requires HeapInv(w, sent, start, guard, H, cls, rank)
    requires h in H && SelfAlloc(w[h]) && !LeftAlloc(w[h]) && h + Span(w[h]) < |w| && !SelfAlloc(w[h + Span(w[h])])
    ensures 0 < h < |w| == |w1| == |w2| && RunEnd(w, h) < |w|
    ensures l == RunStart(w, h) == h - Span(w[h - 1]) && r == h + Span(w[h]) && l < |w| && r < |w|
    ensures CanUnlink(w, l) && w1 == Unlink(w, l) && CanUnlink(w1, r) && w2 == Unlink(w1, r)
    ensures w2[h] == w[h] && w2[l] == w[l] && w2[r] == w[r]
    ensures total == ChunkSize(w[h]) + ChunkSize(w[l]) + ChunkSize(w[r]) < 0x1_0000_0000
    ensures Merged(w, w2[l := WithSize(w[l], total)], sent, start, guard, H, cls, cls - {l} - {r}, rank, l, RunEnd(w, h))
  {
    MergeFacts(w, sent, start, guard, H, cls, rank, h);
    l, r := RunStart(w, h), h + Span(w[h]);
    UnlinkFirst(w, sent, start, guard, H, cls, rank, l);
    w1 := Unlink(w, l);
    UnlinkSecond(w, w1, sent, start, guard, H, cls, rank, l, r);
    w2 := Unlink(w1, r);
    total := ChunkSize(w[h]) + ChunkSize(w[l]) + ChunkSize(w[r]);
    hide HeapInv, Linked, Undisturbed, Merged, Unlink, CanUnlink, RunEnd;
    MergeCompletes(w, w2, sent, start, guard, H, cls, cls - {l} - {r}, rank, h, l, total);
  }

  lemma UndisturbedTwice(w: Words, w1: Words, w2: Words, guard: nat, H: set<nat>)
    requires Undisturbed(w, w1, guard, H, 0, 0) && Undisturbed(w1, w2, guard, H, 0, 0)
    requires SameHeaders(w, w1, H)
    ensures Undisturbed(w, w2, guard, H, 0, 0)
  {
    forall h | h in H ensures SameTag(w, w2, h) && (SelfAlloc(w[h]) ==> SamePayload(w, w2, h)) {
      assert SameTag(w, w1, h) && SameTag(w1, w2, h);
      if SelfAlloc(w[h]) { assert SamePayload(w, w1, h) && SamePayload(w1, w2, h); }
    }
  }

  // ---------- After merging: tag the run as one free chunk, then link it ----------

  /** The header, footer and right-neighbour flag that `mcu_free` writes once the run is merged. */
  function TagFree(w: Words, m: nat): (w': Words)
    requires m < |w| && 2 <= Span(w[m]) && m + Span(w[m]) < |w|
    ensures |w'| == |w|
  {
    var e := m + Span(w[m]);
    w[m := SetLeft(ClearSelf(w[m]))][e - 1 := ChunkSize(ClearSelf(w[m]))][e := ClearLeft(w[e])]
  }

  lemma TagFreeWords(w: Words, m: nat)
    requires m < |w| && 2 <= Span(w[m]) && m + Span(w[m]) < |w| && LeftAlloc(w[m])
    ensures var e, w' := m + Span(w[m]), TagFree(w, m);
      && w'[m] == Header(Span(w[m]), false, true) && w'[e - 1] == Header(Span(w[m]), false, false) && w'[e] == ClearLeft(w[e])
      && forall i :: 0 <= i < |w| && i != m && i != e - 1 && i != e ==> w'[i] == w[i]
  {
    HeaderComplete(SetLeft(ClearSelf(w[m])));
    HeaderComplete(ChunkSize(ClearSelf(w[m])));
  }

  lemma TagFreeCoalesces(w: Words, w1: Words, sent: nat, start: nat, guard: nat, H: set<nat>,
                         cls: map<nat, nat>, cls1: map<nat, nat>, rank: map<nat, nat>, m: nat, e: nat)
    requires HeapInv(w, sent, start, guard, H, cls, rank)
    requires Merged(w, w1, sent, start, guard, H, cls, cls1, rank, m, e)
    requires m + 4 <= e && (e - m) % 2 == 0 && (e == guard || e in H) && LeftAlloc(w[m]) && SelfAlloc(w[e])
    ensures CoalesceStep(w, TagFree(w1, m), start, guard, H, m, e)
    ensures Linked(TagFree(w1, m), sent, start, cls1, rank)
    ensures forall h {:trigger SamePayload(w, TagFree(w1, m), h)} :: h in H && (h < m || e <= h) && SelfAlloc(w[h]) ==> SamePayload(w, TagFree(w1, m), h)
  {
    hide Span, SelfAlloc, LeftAlloc, TagFree;
    var w2 := TagFree(w1, m);
    if e in H { assert SameTag(w, w1, e); }
    TagFreeWords(w1, m);
    forall h | h in H && (h < m || e < h) ensures SameTag(w, w2, h) {
      assert SameTag(w, w1, h);
    }
    forall h | h in H && (h < m || e <= h) && SelfAlloc(w[h]) ensures SamePayload(w, w2, h) {
      assert SamePayload(w, w1, h);
    }
    forall x | x in cls1 && x + 1 < |w1| ensures w2[x + 1] == w1[x + 1] {
      if start <= x { assert x in H; }
    }
    LinksOnly(w1, w2, sent, start, cls1, rank);
  }

  /** Linking the coalesced chunk completes the heap invariant. */
  lemma LinkCompletes(w: Words, w2: Words, sent: nat, start: nat, guard: nat, H: set<nat>,
                      cls: map<nat, nat>, cls1: map<nat, nat>, rank: map<nat, nat>, m: nat, e: nat)
    requires HeapInv(w, sent, start, guard, H, cls, rank)
    requires CoalesceStep(w, w2, start, guard, H, m, e)
    requires cls1 == Outside(cls, m, e) && Linked(w2, sent, start, cls1, rank)
    ensures var k := ListIndex(4 * (e - m)); var p := Sentinel(sent, k);
      && k < LIST_COUNT && NodeOk(w2, cls1, p) && m + 1 < |w2|
      && HeapInv(Link(w2, p, m), sent, start, guard, Coalesced(H, m, e), cls1[m := k], rank[m := FreshRank(w2, rank, p)])
      && Undisturbed(w2, Link(w2, p, m), guard, Coalesced(H, m, e), 0, 0)
      && SameHeaders(w2, Link(w2, p, m), Coalesced(H, m, e))
  {
    var H' := Coalesced(H, m, e);
    var k := ListIndex(4 * (e - m));
    CoalesceKeepsTags(w, w2, start, guard, H, m, e);
    forall y | y in cls1 && start <= y ensures y in H' && y < |w2| && !SelfAlloc(w2[y]) {
      CoalesceHeader(w, w2, start, guard, H, m, e, y);
    }
    LinkKeepsLinked(w2, sent, start, cls1, rank, k, m);
    LinkUndisturbed(w2, sent, start, guard, H', cls1, rank, k, m);
    var w3 := Link(w2, Sentinel(sent, k), m);
    TagsSurvive(w2, w3, start, guard, H');
    LinkCouples(w, w2, w3, sent, start, guard, H, cls, cls1, rank, m, e);
  }

  lemma LinkCouples(w: Words, w2: Words, w3: Words, sent: nat, start: nat, guard: nat, H: set<nat>,
                    cls: map<nat, nat>, cls1: map<nat, nat>, rank: map<nat, nat>, m: nat, e: nat)
    requires Tiled(w, start, guard, H) && Coupled(w, start, H, cls)
    requires CoalesceStep(w, w2, start, guard, H, m, e)
    requires cls1 == Outside(cls, m, e) && |w3| == |w2|
    requires SameHeaders(w2, w3, Coalesced(H, m, e))
    ensures Coupled(w3, start, Coalesced(H, m, e), cls1[m := ListIndex(4 * (e - m))])
  {
    var H' := Coalesced(H, m, e);
    var cls' := cls1[m := ListIndex(4 * (e - m))];
    forall h | h in H'
      ensures h in cls' <==> !SelfAlloc(w3[h])
      ensures h in cls' ==> cls'[h] == ListIndex(4 * Span(w3[h]))
    {
      CoalesceHeader(w, w2, start, guard, H, m, e, h);
    }
  }

  /** Unchanged tags of all chunks and of the guard keep the tags of the chunk at `h` right. */
  lemma TagSurvives(w: Words, w': Words, start: nat, guard: nat, H: set<nat>, h: nat)
    requires Tiled(w, start, guard, H) && Tagged(w, start, guard, H) && h in H
    requires |w'| == |w| && guard < |w| && w'[guard] == w[guard]
    requires forall x {:trigger SameTag(w, w', x)} :: x in H ==> SameTag(w, w', x)
    ensures w'[h] == w[h] && RightTag(w', h) && LeftTag(w', H, h)
  {
    assert SameTag(w, w', h) && EndsAtHeader(w, guard, H, h);
    assert RightTag(w, h) && LeftTag(w, H, h);
    var r := h + Span(w[h]);
    assert w'[r] == w[r] by { if r in H { assert SameTag(w, w', r); } }
    if !LeftAlloc(w[h]) {
      var l := h - Span(w[h - 1]);
      assert FreeLeftNeighbour(w, H, l, h) && SameTag(w, w', l);
    }
  }

  lemma SameHeadersTile(w: Words, w': Words, start: nat, guard: nat, H: set<nat>)
    requires Tiled(w, start, guard, H) && |w'| == |w|
    requires SameHeaders(w, w', H)
    ensures Tiled(w', start, guard, H)
  {
    forall h | h in H ensures EndsAtHeader(w', guard, H, h) {
      assert EndsAtHeader(w, guard, H, h);
    }
  }

  /** A step that changes no tag keeps tiling and tags. */
  lemma TagsSurvive(w: Words, w': Words, start: nat, guard: nat, H: set<nat>)
    requires Tiled(w, start, guard, H) && Tagged(w, start, guard, H)
    requires |w'| == |w| && guard < |w| && w'[guard] == w[guard]
    requires forall h {:trigger SameTag(w, w', h)} :: h in H ==> SameTag(w, w', h)
    ensures Tiled(w', start, guard, H) && Tagged(w', start, guard, H)
    ensures SameHeaders(w, w', H)
  {
    forall h {:trigger h in H} | h in H ensures h < |w| && w'[h] == w[h] {
      assert SameTag(w, w', h);
    }
    SameHeadersTile(w, w', start, guard, H);
    forall h | h in H ensures RightTag(w', h) && LeftTag(w', H, h) {
      TagSurvives(w, w', start, guard, H, h);
    }
  }

  /** The run holds the words of its one allocated chunk. */
  lemma RunTotal(w: Words, start: nat, guard: nat, H: set<nat>, h: nat, m: nat, e: nat)
    requires Tiled(w, start, guard, H) && Tagged(w, start, guard, H)
    requires h in H && 0 < h < |w| && h + Span(w[h]) < |w| && SelfAlloc(w[h]) && m == RunStart(w, h) && e == RunEnd(w, h)
    ensures m in H && m <= e && (e == guard || e in H)
    ensures AllocWords(w, start, guard, H, m) - AllocWords(w, start, guard, H, e) == Span(w[h])
  {
    hide Span, SelfAlloc, LeftAlloc;
    RunFacts(w, start, guard, H, h);
    hide Tagged;
    var r := h + Span(w[h]);
    assert EndsAtHeader(w, guard, H, h);
    assert AllocWords(w, start, guard, H, h) == Span(w[h]) + AllocWords(w, start, guard, H, r);
    if m < h { assert AllocWords(w, start, guard, H, m) == AllocWords(w, start, guard, H, h); }
    if r < e { assert AllocWords(w, start, guard, H, r) == AllocWords(w, start, guard, H, e); }
  }

  /** Freeing takes the size of exactly one chunk off the allocated total. */
  lemma ReleaseAccounting(w: Words, w': Words, start: nat, guard: nat, H: set<nat>, h: nat, m: nat, e: nat)
    requires Tiled(w, start, guard, H) && Tagged(w, start, guard, H)
    requires h in H && 0 < h < |w| && h + Span(w[h]) < |w| && SelfAlloc(w[h]) && m == RunStart(w, h) && e == RunEnd(w, h)
    requires Tiled(w', start, guard, Coalesced(H, m, e)) && |w'| == |w| && m in H
    requires !SelfAlloc(w'[m]) && Span(w'[m]) == e - m
    requires SameChunks(w, w', H, Coalesced(H, m, e), start, m) && SameChunks(w, w', H, Coalesced(H, m, e), e, guard)
    ensures AllocWords(w', start, guard, Coalesced(H, m, e), start) == AllocWords(w, start, guard, H, start) - Span(w[h])
  {
    hide Span, SelfAlloc, LeftAlloc;
    RunTotal(w, start, guard, H, h, m, e);
    var H' := Coalesced(H, m, e);
    assert AllocWords(w', start, guard, H', m) == AllocWords(w', start, guard, H', e) by {
      assert EndsAtHeader(w', guard, H', m);
    }
    AllocWordsChange(w, w', start, guard, H, H', m, e);
  }

  /** What freeing the chunk at `h` means for the others: `w3` is the memory after linking. */
  ghost predicate ReleasedOnly(w: Words, w3: Words, H: set<nat>, H': set<nat>, h: nat)
  {
    && |w| == |w3|
    && (forall x {:trigger x in H'} :: x in H' && x < |w| ==> (SelfAlloc(w3[x]) <==> x in H && x != h && SelfAlloc(w[x])))
    && (forall x {:trigger x in H} :: x in H && x < |w| && x != h && SelfAlloc(w[x]) ==> x in H' && Span(w3[x]) == Span(w[x]) && SamePayload(w, w3, x))
  }

  /** Releasing the cached chunk leaves the clients' chunks as they were; `hdr` is cached next. */
  lemma ReleasedOwned(w: Words, w3: Words, H: set<nat>, H': set<nat>, live: set<nat>, released: nat, hdr: nat)
    requires ReleasedOnly(w, w3, H, H', released) && Owned(w, H, live, released) && hdr in live
    requires 0 !in H && 0 !in H' && forall h {:trigger h in H'} :: h in H' ==> h < |w|
    ensures Owned(w3, H', live - {hdr}, hdr)
    ensures PayloadsKept(w, w3, live)
    ensures forall mark :: BelowMark(w, H, mark) ==> BelowMark(w3, H', mark)
  {
    forall h | h in live ensures h in H' && h < |w| && Span(w3[h]) == Span(w[h]) && SamePayload(w, w3, h) {
      assert h in H;
    }
  }

  lemma ReleaseEffect(w: Words, w2: Words, w3: Words, start: nat, guard: nat, H: set<nat>, h: nat, m: nat, e: nat)
    requires Tiled(w, start, guard, H) && Tagged(w, start, guard, H)
    requires h in H && 0 < h < |w| && h + Span(w[h]) < |w| && SelfAlloc(w[h]) && m == RunStart(w, h) && e == RunEnd(w, h)
    requires CoalesceStep(w, w2, start, guard, H, m, e) && Tiled(w3, start, guard, Coalesced(H, m, e))
    requires forall x {:trigger SamePayload(w, w2, x)} :: x in H && (x < m || e <= x) && SelfAlloc(w[x]) ==> SamePayload(w, w2, x)
    requires Undisturbed(w2, w3, guard, Coalesced(H, m, e), 0, 0)
    requires SameHeaders(w2, w3, Coalesced(H, m, e))
    ensures ReleasedOnly(w, w3, H, Coalesced(H, m, e), h)
    ensures AllocWords(w3, start, guard, Coalesced(H, m, e), start) == AllocWords(w, start, guard, H, start) - Span(w[h])
  {
    var H' := Coalesced(H, m, e);
    RunFacts(w, start, guard, H, h);
    forall x | x in H' ensures SelfAlloc(w3[x]) == (x in H && x != h && SelfAlloc(w[x])) && (x != m ==> Span(w3[x]) == Span(w[x])) {
      CoalesceHeader(w, w2, start, guard, H, m, e, x);
    }
    forall x | x in H && x != h && SelfAlloc(w[x]) ensures x in H' && SamePayload(w, w3, x) {
      ReleaseSparesPayload(w, w2, w3, start, guard, H, h, m, e, x);
    }
    CoalesceHeader(w, w2, start, guard, H, m, e, m);
    ReleaseAccounting(w, w3, start, guard, H, h, m, e);
  }

  lemma ReleaseSparesPayload(w: Words, w2: Words, w3: Words, start: nat, guard: nat, H: set<nat>, h: nat, m: nat, e: nat, x: nat)
    requires Tiled(w, start, guard, H) && Tagged(w, start, guard, H)
    requires h in H && 0 < h < |w| && h + Span(w[h]) < |w| && m == RunStart(w, h) && e == RunEnd(w, h)
    requires x in H && x != h && SelfAlloc(w[x])
    requires CoalesceStep(w, w2, start, guard, H, m, e)
    requires x < m || e <= x ==> SamePayload(w, w2, x)
    requires Undisturbed(w2, w3, guard, Coalesced(H, m, e), 0, 0)
    ensures x in Coalesced(H, m, e) && SamePayload(w, w3, x)
  {
    RunFacts(w, start, guard, H, h);
    assert x < m || e <= x;
    CoalesceHeader(w, w2, start, guard, H, m, e, x);
    assert SamePayload(w2, w3, x);
  }

  /** The two stages after merging, put together. */
  lemma ReleaseStages(w: Words, w1: Words, sent: nat, start: nat, guard: nat, H: set<nat>,
                      cls: map<nat, nat>, cls1: map<nat, nat>, rank: map<nat, nat>, h: nat, m: nat, e: nat)
    requires HeapInv(w, sent, start, guard, H, cls, rank)
    requires h in H && 0 < h < |w| && h + Span(w[h]) < |w| && SelfAlloc(w[h]) && m == RunStart(w, h) && e == RunEnd(w, h)
    requires Merged(w, w1, sent, start, guard, H, cls, cls1, rank, m, e)
    ensures m < |w1| && 4 <= Span(w1[m]) && m + Span(w1[m]) < |w1|
    ensures var w2 := TagFree(w1, m);
      && Span(w2[m]) == Span(w1[m])
      && var k := ListIndex(ChunkSize(w2[m])); var p := Sentinel(sent, k);
      && NodeOk(w2, cls1, p) && m + 1 < |w2|
      && var w3 := Link(w2, p, m);
      && HeapInv(w3, sent, start, guard, Coalesced(H, m, e), cls1[m := k], rank[m := FreshRank(w2, rank, p)])
      && ReleasedOnly(w, w3, H, Coalesced(H, m, e), h)
      && AllocWords(w3, start, guard, Coalesced(H, m, e), start) == AllocWords(w, start, guard, H, start) - Span(w[h])
  {
    RunFacts(w, start, guard, H, h);
    TagFreeCoalesces(w, w1, sent, start, guard, H, cls, cls1, rank, m, e);
    var w2 := TagFree(w1, m);
    assert w2[m] == Header(e - m, false, true);
    assert ChunkSize(w2[m]) == 4 * (e - m);
    LinkCompletes(w, w2, sent, start, guard, H, cls, cls1, rank, m, e);
    ReleaseEffect(w, w2, Link(w2, Sentinel(sent, ListIndex(4 * (e - m))), m), start, guard, H, h, m, e);
  }
}
