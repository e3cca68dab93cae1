/**
 Whole runs of a client: any sequence of allocations, releases, writes and reads against the
 allocator behaves as against an ideal memory of separate objects.
 */
module HeapClient {

  import opened Common
  import opened BoundaryTags
  import opened HeapLayout
  import opened HeapProperties
  import opened FreeLists
  import opened Allocator

  /** What a client may ask for. Held objects are named by their place in the client's table. */
  datatype Op = Alloc(size: u32) | Release(which: nat) | Put(which: nat, i: nat, v: u32) | Get(which: nat, i: nat)

  /** What the client observed. Objects are named by their header position. */
  datatype Event =
    | Refused
    | Got(h: nat, words: seq<u32>)
    | Gone(h: nat)
    | Wrote(h: nat, i: nat, v: u32)
    | Read(h: nat, i: nat, v: u32)

  /** The ideal memory: each object in use with its words. */
  type Ideal = map<nat, seq<u32>>

  function WithWord(words: seq<u32>, i: nat, v: u32): seq<u32>
    requires i < |words|
  {
    words[i := v]
  }

  /** What an event does to the ideal memory. */
  function Apply(m: Ideal, e: Event): Ideal
  {
    match e
    case Got(h, words) => m[h := words]
    case Gone(h) => m - {h}
    case Wrote(h, i, v) => if h in m && i < |m[h]| then m[h := WithWord(m[h], i, v)] else m
    case _ => m
  }

  /** An event that the ideal memory allows: fresh objects are new, reads return what is stored. */
  predicate Allowed(m: Ideal, e: Event)
  {
    match e
    case Refused => true
    case Got(h, words) => h !in m
    case Gone(h) => h in m
    case Wrote(h, i, v) => h in m && i < |m[h]|
    case Read(h, i, v) => h in m && i < |m[h]| && m[h][i] == v
  }

  function Replay(t: seq<Event>): Ideal
  {
    if t == [] then map[] else Apply(Replay(t[..|t| - 1]), t[|t| - 1])
  }

  /** Every event of the trace is allowed after those before it. */
  predicate Faithful(t: seq<Event>)
  {
    t == [] || (Faithful(t[..|t| - 1]) && Allowed(Replay(t[..|t| - 1]), t[|t| - 1]))
  }

  // ---------- What a request is answered with ----------

  /** RAM and the cached chunk, which is all that the outcome of an allocation depends on. */
  datatype HeapState = HeapState(ram: Words, cached: nat)

  /** The cached chunk serves a request of `rounded` bytes. */
  ghost predicate CacheFits(s: HeapState, rounded: u32)
  {
    s.cached != 0 && s.cached < |s.ram| && rounded <= ChunkSize(s.ram[s.cached]) <= rounded + 512
  }

  /** A search for `rounded` bytes would stop at the chunk at `h`. */
  ghost predicate Serves(w: Words, h: nat, rounded: u32)
  {
    h < |w| && !SelfAlloc(w[h]) && ListIndex(ChunkSize(w[h])) >= FitIndex(rounded) && ChunkSize(w[h]) >= rounded
  }

  /** Neither the cached chunk nor a free chunk in a list from the fitting index up serves `size` bytes. */
  ghost predicate MustRefuse(s: HeapState, start: nat, guard: nat, size: u32)
    requires guard < |s.ram| && size + HDR_SIZE + 7 < 0x1_0000_0000
  {
    var rounded: u32 := RoundedSize(size);
    size == 0 ||
    (&& !CacheFits(s, rounded)
     && forall h {:trigger h in Walk(s.ram, guard, start)} :: h in Walk(s.ram, guard, start) ==> !Serves(s.ram, h, rounded))
  }

  /** The answer to a request of a client whose table names `table`, over the ideal memory `m`. */
  predicate Answers(op: Op, e: Event, table: seq<nat>, m: Ideal)
  {
    match op
    case Alloc(size) => e.Refused? || (e.Got? && 4 * |e.words| >= size)
    case Release(which) => e == if which < |table| then Gone(table[which]) else Refused
    case Put(which, i, v) =>
      e == if which < |table| && table[which] in m && i < |m[table[which]]| then Wrote(table[which], i, v) else Refused
    case Get(which, i) =>
      e == if which < |table| && table[which] in m && i < |m[table[which]]| then Read(table[which], i, m[table[which]][i]) else Refused
  }

  /** The table after an answer. */
  function Entered(op: Op, e: Event, table: seq<nat>): seq<nat>
  {
    if e.Got? then table + [e.h]
    else if op.Release? && op.which < |table| then table[..op.which] + table[op.which + 1..]
    else table
  }

  /** The client's table after a run. */
  function Table(ops: seq<Op>, t: seq<Event>): seq<nat>
    requires |t| <= |ops|
  {
    if t == [] then [] else Entered(ops[|t| - 1], t[|t| - 1], Table(ops, t[..|t| - 1]))
  }

  /** Event `k` of the trace is the answer to request `k`. */
  ghost predicate Answered(ops: seq<Op>, t: seq<Event>, k: nat)
    requires k < |t| <= |ops|
  {
    Answers(ops[k], t[k], Table(ops, t[..k]), Replay(t[..k]))
  }

  /** An allocation is refused exactly when the heap at that moment cannot serve it. */
  ghost predicate RefusedRightly(op: Op, e: Event, s: HeapState, start: nat, guard: nat)
  {
    op.Alloc? ==> guard < |s.ram| && op.size + HDR_SIZE + 7 < 0x1_0000_0000 && (e.Refused? <==> MustRefuse(s, start, guard, op.size))
  }

  /** A well-formed heap whose allocated chunks are the objects of `m`, with their words as payloads, and the cached chunk. */
  ghost predicate Sound(s: HeapState, sent: nat, start: nat, guard: nat, m: Ideal)
  {
    && Mirrors(s.ram, m.Keys, m)
    && exists H, cls, rank :: HeapInv(s.ram, sent, start, guard, H, cls, rank) && Owned(s.ram, H, m.Keys, s.cached)
  }

  /** How an answer moves the heap, when the objects `live` are in use. */
  ghost predicate Moved(op: Op, e: Event, s: HeapState, s': HeapState, live: set<nat>, sent: nat, start: nat, guard: nat)
  {
    match e
    case Refused => s' == s
    case Read(h, i, v) => s' == s
    case Wrote(h, i, v) => h + 1 + i < |s.ram| && s' == s.(ram := s.ram[h + 1 + i := v])
    case Gone(h) => s'.cached == h && (s.cached == 0 ==> s'.ram == s.ram) && PayloadsKept(s.ram, s'.ram, live - {h})
    case Got(h, words) =>
      && op.Alloc? && op.size + HDR_SIZE + 7 < 0x1_0000_0000
      && if CacheFits(s, RoundedSize(op.size)) then h == s.cached && s' == s.(cached := 0)
         else s'.cached == s.cached && PayloadsKept(s.ram, s'.ram, live)
              && guard < |s.ram| && FirstFound(s.ram, sent, start, guard, RoundedSize(op.size), h)
  }

  /** Event `k` is the right answer to request `k` for the table, the ideal memory and the heap before it, and moves the heap as it should. */
  ghost predicate StepRight(ops: seq<Op>, t: seq<Event>, states: seq<HeapState>, sent: nat, start: nat, guard: nat, k: nat)
    requires k < |t| <= |ops| && k + 1 < |states|
  {
    && Answered(ops, t, k)
    && RefusedRightly(ops[k], t[k], states[k], start, guard)
    && Moved(ops[k], t[k], states[k], states[k + 1], Replay(t[..k]).Keys, sent, start, guard)
  }

  /**
   A run so far: before each request and at the end the heap is well formed and holds the ideal memory of its moment, and every
   request got its right answer.
   */
  ghost predicate RunRight(ops: seq<Op>, t: seq<Event>, states: seq<HeapState>, sent: nat, start: nat, guard: nat)
    requires |t| <= |ops|
  {
    && |states| == |t| + 1
    && (forall k :: 0 <= k <= |t| ==> Sound(states[k], sent, start, guard, Replay(t[..k])))
    && (forall k :: 0 <= k < |t| ==> StepRight(ops, t, states, sent, start, guard, k))
  }

  lemma StepStaysRight(ops: seq<Op>, t: seq<Event>, e: Event, states: seq<HeapState>, s: HeapState, sent: nat, start: nat, guard: nat, k: nat)
    requires k < |t| < |ops| && |states| == |t| + 1 && StepRight(ops, t, states, sent, start, guard, k)
    ensures StepRight(ops, t + [e], states + [s], sent, start, guard, k)
  {
    hide RefusedRightly, Moved, Answers;
    assert (t + [e])[..k] == t[..k];
  }

  /** The next answer. */
  lemma RunRightOne(ops: seq<Op>, t: seq<Event>, e: Event, states: seq<HeapState>, s: HeapState, sent: nat, start: nat, guard: nat)
    requires |t| < |ops| && RunRight(ops, t, states, sent, start, guard)
    requires Answers(ops[|t|], e, Table(ops, t), Replay(t)) && RefusedRightly(ops[|t|], e, states[|t|], start, guard)
    requires Moved(ops[|t|], e, states[|t|], s, Replay(t).Keys, sent, start, guard) && Sound(s, sent, start, guard, Replay(t + [e]))
    ensures RunRight(ops, t + [e], states + [s], sent, start, guard)
  {
    hide RefusedRightly, Moved, Answers, Sound;
    forall k | 0 <= k <= |t| + 1 ensures Sound((states + [s])[k], sent, start, guard, Replay((t + [e])[..k])) {
      if k <= |t| { assert (t + [e])[..k] == t[..k]; } else { assert (t + [e])[..k] == t + [e]; }
    }
    hide Replay;
    forall k | 0 <= k <= |t| ensures StepRight(ops, t + [e], states + [s], sent, start, guard, k) {
      if k < |t| { StepStaysRight(ops, t, e, states, s, sent, start, guard, k); } else { assert (t + [e])[..k] == t; }
    }
  }

  lemma RunRightNone(ops: seq<Op>, s: HeapState, sent: nat, start: nat, guard: nat)
    requires Sound(s, sent, start, guard, map[])
    ensures RunRight(ops, [], [s], sent, start, guard)
  {
  }

  lemma TableOne(ops: seq<Op>, t: seq<Event>, e: Event)
    requires |t| < |ops|
    ensures Table(ops, t + [e]) == Entered(ops[|t|], e, Table(ops, t))
  {
    assert (t + [e])[..|t|] == t;
  }

  lemma ReplayOne(t: seq<Event>, e: Event)
    ensures Replay(t + [e]) == Apply(Replay(t), e)
    ensures Faithful(t + [e]) <==> Faithful(t) && Allowed(Replay(t), e)
  {
    assert (t + [e])[..|t|] == t;
  }

  /** The payload of the chunk at `h`. */
  ghost function Payload(w: Words, h: nat): seq<u32>
    requires h < |w| && 1 <= Span(w[h]) && h + Span(w[h]) <= |w|
  {
    w[h + 1..h + Span(w[h])]
  }

  /** The live chunks and their payloads are the ideal memory. */
  ghost predicate Mirrors(w: Words, live: set<nat>, m: Ideal)
  {
    && m.Keys == live
    && forall h {:trigger h in live} :: h in live ==>
      h < |w| && 1 <= Span(w[h]) && h + Span(w[h]) <= |w| && m[h] == Payload(w, h)
  }

  lemma Mirrored(w: Words, live: set<nat>, m: Ideal, h: nat)
    requires Mirrors(w, live, m) && h in live
    ensures h in m && h < |w| && 1 <= Span(w[h]) && h + Span(w[h]) <= |w| && m[h] == Payload(w, h)
  {
  }

  /** Untouched payloads keep mirroring. */
  lemma StillMirrors(w: Words, w': Words, live: set<nat>, kept: set<nat>, m: Ideal)
    requires Mirrors(w, live, m) && kept <= live && PayloadsKept(w, w', kept)
    ensures Mirrors(w', kept, map h | h in kept :: m[h])
  {
    forall h | h in kept
      ensures h < |w'| && 1 <= Span(w'[h]) && h + Span(w'[h]) <= |w'| && m[h] == Payload(w', h)
    {
      assert h in live && SamePayload(w, w', h);
    }
  }

  lemma MirrorsGot(w: Words, w': Words, live: set<nat>, m: Ideal, h: nat)
    requires Mirrors(w, live, m) && PayloadsKept(w, w', live) && h !in live
    requires h < |w'| && 1 <= Span(w'[h]) && h + Span(w'[h]) <= |w'|
    ensures h !in m && Mirrors(w', live + {h}, m[h := Payload(w', h)])
  {
    StillMirrors(w, w', live, live, m);
    forall x {:trigger x in live + {h}} | x in live + {h}
      ensures x < |w'| && 1 <= Span(w'[x]) && x + Span(w'[x]) <= |w'| && m[h := Payload(w', h)][x] == Payload(w', x)
    {
      assert x == h || x in live;
    }
  }

  lemma MirrorsGone(w: Words, w': Words, live: set<nat>, m: Ideal, h: nat)
    requires Mirrors(w, live, m) && PayloadsKept(w, w', live - {h}) && h in live
    ensures h in m && Mirrors(w', live - {h}, m - {h})
  {
    StillMirrors(w, w', live, live - {h}, m);
    var m' := map x | x in live - {h} :: m[x];
    assert forall x :: x in m' <==> x in m - {h};
    assert m' == m - {h};
  }

  lemma MirrorsWrote(w: Words, w': Words, live: set<nat>, m: Ideal, h: nat, i: nat, v: u32)
    requires Mirrors(w, live, m) && PayloadsKept(w, w', live - {h}) && h in live
    requires h < |w| && i + 1 < Span(w[h]) && h + 1 + i < |w| && w' == w[h + 1 + i := v]
    ensures h in m && i < |m[h]| && Mirrors(w', live, m[h := WithWord(m[h], i, v)])
  {
    StillMirrors(w, w', live, live - {h}, m);
    Mirrored(w, live, m, h);
    assert Payload(w', h) == WithWord(m[h], i, v);
    forall x {:trigger x in live} | x in live
      ensures x < |w'| && 1 <= Span(w'[x]) && x + Span(w'[x]) <= |w'| && m[h := WithWord(m[h], i, v)][x] == Payload(w', x)
    {
      assert x == h || x in live - {h};
    }
  }

  /** The client's table `held` lists the payload addresses of `objects`, which are the live chunks, each once. */
  ghost predicate Holds(held: seq<nat>, objects: seq<nat>, live: set<nat>)
  {
    && |held| == |objects|
    && (forall k {:trigger objects[k]} {:trigger held[k]} :: 0 <= k < |objects| ==> objects[k] in live && held[k] == PayloadAddr(objects[k]))
    && (forall h {:trigger h in live} :: h in live ==> h in objects)
    && (forall j, k :: 0 <= j < k < |objects| ==> objects[j] != objects[k])
  }

  /** The header position of a payload address. */
  function HeaderOf(payload: nat): (h: nat)
    requires payload >= LINK_OFFSET + 4
    ensures payload % 4 == 0 ==> PayloadAddr(h) == payload
  {
    (payload - 4 - LINK_OFFSET) / 4
  }

  lemma Held(held: seq<nat>, objects: seq<nat>, live: set<nat>, k: nat)
    requires Holds(held, objects, live) && k < |held|
    ensures k < |objects| && objects[k] in live && held[k] == PayloadAddr(objects[k]) && HeaderOf(held[k]) == objects[k]
  {
  }

  lemma Remember(held: seq<nat>, objects: seq<nat>, live: set<nat>, h: nat)
    requires Holds(held, objects, live) && h !in live
    ensures Holds(held + [PayloadAddr(h)], objects + [h], live + {h})
  {
    var objects' := objects + [h];
    forall x {:trigger x in live + {h}} | x in live + {h} ensures x in objects' {
      if x == h { assert objects'[|objects|] == h; }
    }
  }

  lemma Forget(held: seq<nat>, objects: seq<nat>, live: set<nat>, k: nat)
    requires Holds(held, objects, live) && k < |held|
    ensures Holds(held[..k] + held[k + 1..], objects[..k] + objects[k + 1..], live - {objects[k]})
  {
    var rest := objects[..k] + objects[k + 1..];
    forall x {:trigger x in live - {objects[k]}} | x in live - {objects[k]} ensures x in rest {
      assert x in live;
      var j :| 0 <= j < |objects| && objects[j] == x;
      assert rest[if j < k then j else j - 1] == x;
    }
  }

  class Client {
    const heap: Heap
    var held: seq<nat>
    ghost var objects: seq<nat>
    ghost var ideal: Ideal

    constructor (heap: Heap)
      requires heap.Valid() && heap.live == {}
      ensures this.heap == heap && Valid() && ideal == map[]
    {
      this.heap, held, objects, ideal := heap, [], [], map[];
    }

    ghost predicate Valid()
      reads this, heap, heap.ram
    {
      heap.Valid() && Holds(held, objects, heap.live) && Mirrors(heap.ram[..], heap.live, ideal)
    }

    /** The heap as it is. */
    ghost function Now(): HeapState
      reads heap, heap.ram
    {
      HeapState(heap.ram[..], heap.cached)
    }

    /** The heap as it is holds the ideal memory. */
    lemma NowSound()
      requires Valid()
      ensures Sound(Now(), heap.sent, heap.start, heap.guard, ideal)
    {
      hide HeapInv, Owned, Mirrors, Holds;
      assert HeapInv(Now().ram, heap.sent, heap.start, heap.guard, heap.headers, heap.cls, heap.rank) && Owned(Now().ram, heap.headers, heap.live, heap.cached);
      assert ideal.Keys == heap.live by { KeysLive(); }
    }

    lemma KeysLive()
      requires Mirrors(heap.ram[..], heap.live, ideal)
      ensures ideal.Keys == heap.live
    {
    }

    /** The conditions for a refusal can be read off RAM. */
    lemma RefusalFromRam(size: u32)
      requires heap.Valid() && size + HDR_SIZE + 7 < 0x1_0000_0000
      ensures heap.guard < heap.ram.Length
      ensures MustRefuse(Now(), heap.start, heap.guard, size)
              <==> size == 0 || (!heap.CacheServes(RoundedSize(size)) && heap.SearchFails(RoundedSize(size)))
    {
      hide HeapInv, Owned, AllocWords, BelowMark, RoundedSize, Span, ChunkSize, SelfAlloc, ListIndex, FitIndex;
      heap.HeadersFromRam();
      heap.GuardBelow();
    }

    /** Enter the freshly allocated chunk at `h` into the table. */
    method Adopt(h: nat, ghost before: Words) returns (words: seq<u32>)
      requires heap.Valid() && h in heap.live && |before| == heap.ram.Length
      requires Holds(held, objects, heap.live - {h}) && Mirrors(before, heap.live - {h}, ideal)
      requires PayloadsKept(before, heap.ram[..], heap.live - {h})
      modifies this
      ensures Valid() && h !in old(ideal) && ideal == old(ideal)[h := words]
      ensures objects == old(objects) + [h] && |words| + 1 == Span(heap.ram[h])
    {
      hide Heap.Valid, PayloadsKept, Mirrors, Holds;
      heap.LiveBounds();
      Remember(held, objects, heap.live - {h}, h);
      MirrorsGot(before, heap.ram[..], heap.live - {h}, ideal, h);
      assert heap.live - {h} + {h} == heap.live;
      words := heap.ram[h + 1..h + Span(heap.ram[h])];
      assert words == Payload(heap.ram[..], h);
      held, objects, ideal := held + [PayloadAddr(h)], objects + [h], ideal[h := words];
    }

    /** Call `mcu_malloc`. */
    method Fetch(size: u32) returns (payload: nat)
      requires heap.Valid() && size + HDR_SIZE + 7 < 0x1_0000_0000
      modifies heap, heap.ram
      ensures heap.Valid() && PayloadsKept(old(heap.ram[..]), heap.ram[..], old(heap.live))
      ensures old(heap.guard < heap.ram.Length && (MustRefuse(Now(), heap.start, heap.guard, size))) <==> payload == 0
      ensures payload == 0 ==> heap.live == old(heap.live) && Now() == old(Now())
      ensures payload != 0 ==> Served(heap.ram[..], heap.live, old(heap.live), payload, size)
      ensures payload != 0 ==>
        if old(CacheFits(Now(), RoundedSize(size))) then HeaderOf(payload) == old(heap.cached) && Now() == old(Now().(cached := 0))
        else heap.cached == old(heap.cached) && Found(old(heap.ram[..]), HeaderOf(payload), size)
    {
      hide Heap.Valid, Heap.SearchFails, PayloadsKept, RoundedSize, MustRefuse, ChunkSize, Span, SelfAlloc, ListIndex, FitIndex, Owned;
      RefusalFromRam(size);
      payload := heap.Malloc(size);
      if payload != 0 {
        heap.LiveBounds();
        ghost var h :| h in heap.headers && h !in old(heap.live) && heap.live == old(heap.live) + {h} && payload == PayloadAddr(h)
          && RoundedSize(size) <= ChunkSize(heap.ram[h]);
        assert HeaderOf(payload) == h && heap.live - {h} == old(heap.live);
        if !old(CacheFits(Now(), RoundedSize(size))) { FoundAt(old(heap.ram[..]), payload, size); }
      }
    }

    /** The chunk at `h` is the first fit for `size` bytes. */
    ghost predicate Found(w: Words, h: nat, size: u32)
      requires size + HDR_SIZE + 7 < 0x1_0000_0000
    {
      heap.guard < |w| && FirstFound(w, heap.sent, heap.start, heap.guard, RoundedSize(size), h)
    }

    lemma FoundAt(w: Words, payload: nat, size: u32)
      requires size + HDR_SIZE + 7 < 0x1_0000_0000 && heap.Searched(w, RoundedSize(size), payload) && payload >= LINK_OFFSET + 4
      ensures Found(w, HeaderOf(payload), size)
    {
      hide FirstFound, RoundedSize;
    }

    /** The chunk with this payload is the one new one, and holds `size` bytes. */
    ghost predicate Served(w: Words, live: set<nat>, was: set<nat>, payload: nat, size: u32)
    {
      payload >= LINK_OFFSET + 4 &&
      var h := HeaderOf(payload);
      h in live && live - {h} == was && h < |w| && RoundedSize(size) <= ChunkSize(w[h])
    }

    method DoAlloc(size: u32) returns (e: Event)
      requires Valid() && size + HDR_SIZE + 7 < 0x1_0000_0000
      modifies this, heap, heap.ram
      ensures Valid() && Allowed(old(ideal), e) && ideal == Apply(old(ideal), e)
      ensures Answers(Alloc(size), e, old(objects), old(ideal)) && objects == Entered(Alloc(size), e, old(objects))
      ensures RefusedRightly(Alloc(size), e, old(Now()), heap.start, heap.guard)
      ensures Moved(Alloc(size), e, old(Now()), Now(), old(heap.live), heap.sent, heap.start, heap.guard)
    {
      hide Heap.Valid, PayloadsKept, Mirrors, Holds, Span, MustRefuse;
      heap.GuardBelow();
      var payload := Fetch(size);
      if payload == 0 {
        return Refused;
      }
      var words := Adopt(HeaderOf(payload), old(heap.ram[..]));
      e := Got(HeaderOf(payload), words);
    }

    method DoRelease(which: nat) returns (e: Event)
      requires Valid() && which < |held|
      modifies this, heap, heap.ram
      ensures Valid() && Allowed(old(ideal), e) && ideal == Apply(old(ideal), e)
      ensures Answers(Release(which), e, old(objects), old(ideal)) && objects == Entered(Release(which), e, old(objects))
      ensures Moved(Release(which), e, old(Now()), Now(), old(heap.live), heap.sent, heap.start, heap.guard)
    {
      hide Heap.Valid, PayloadsKept, Mirrors, Holds;
      Held(held, objects, heap.live, which);
      var payload := held[which];
      Forget(held, objects, heap.live, which);
      heap.Free(payload);
      held, objects := held[..which] + held[which + 1..], objects[..which] + objects[which + 1..];
      e := Gone(HeaderOf(payload));
      MirrorsGone(old(heap.ram[..]), heap.ram[..], old(heap.live), ideal, e.h);
      ideal := ideal - {e.h};
    }

    method DoPut(which: nat, i: nat, v: u32) returns (e: Event)
      requires Valid() && which < |held|
      modifies this, heap, heap.ram
      ensures Valid() && Allowed(old(ideal), e) && ideal == Apply(old(ideal), e)
      ensures Answers(Put(which, i, v), e, objects, old(ideal)) && objects == old(objects) && held == old(held)
      ensures Moved(Put(which, i, v), e, old(Now()), Now(), old(heap.live), heap.sent, heap.start, heap.guard)
    {
      hide Heap.Valid, PayloadsKept, Mirrors, Holds, Span, CacheFits, RoundedSize;
      heap.LiveBounds();
      Held(held, objects, heap.live, which);
      Mirrored(heap.ram[..], heap.live, ideal, objects[which]);
      var h := HeaderOf(held[which]);
      if i + 1 >= Span(heap.ram[h]) {
        return Refused;
      }
      heap.Store(h, i + 1, v);
      e := Wrote(h, i, v);
      MirrorsWrote(old(heap.ram[..]), heap.ram[..], heap.live, ideal, h, i, v);
      ideal := ideal[h := WithWord(ideal[h], i, v)];
    }

    method DoGet(which: nat, i: nat) returns (e: Event)
      requires Valid() && which < |held|
      ensures Allowed(ideal, e) && ideal == Apply(ideal, e) && Answers(Get(which, i), e, objects, ideal)
      ensures Moved(Get(which, i), e, Now(), Now(), heap.live, heap.sent, heap.start, heap.guard)
    {
      hide Heap.Valid, PayloadsKept, Mirrors, Holds;
      heap.LiveBounds();
      Held(held, objects, heap.live, which);
      Mirrored(heap.ram[..], heap.live, ideal, objects[which]);
      var h := HeaderOf(held[which]);
      if i + 1 >= Span(heap.ram[h]) {
        return Refused;
      }
      e := Read(h, i, heap.ram[h + 1 + i]);
    }

    /** The answer to one request. */
    method Do(op: Op) returns (e: Event)
      requires Valid() && (op.Alloc? ==> op.size + HDR_SIZE + 7 < 0x1_0000_0000)
      modifies this, heap, heap.ram
      ensures Valid() && Allowed(old(ideal), e) && ideal == Apply(old(ideal), e)
      ensures Answers(op, e, old(objects), old(ideal)) && objects == Entered(op, e, old(objects))
      ensures RefusedRightly(op, e, old(Now()), heap.start, heap.guard)
      ensures Moved(op, e, old(Now()), Now(), old(ideal).Keys, heap.sent, heap.start, heap.guard)
    {
      hide Heap.Valid, MustRefuse, PayloadsKept;
      KeysLive();
      hide Mirrors;
      e := Refused;
      match op {
        case Alloc(size) => e := DoAlloc(size);
        case Release(which) => if which < |held| { e := DoRelease(which); }
        case Put(which, i, v) => if which < |held| { e := DoPut(which, i, v); }
        case Get(which, i) => if which < |held| { e := DoGet(which, i); }
      }
    }

    /**
     Any run from the empty heap is a run of the ideal memory, in which each request gets its answer. `states` is the heap
     before each request and at the end: each is well formed and holds the ideal memory of its moment, and each follows from
     the one before by the answer given.
     */
    method Run(ops: seq<Op>) returns (trace: seq<Event>, ghost states: seq<HeapState>)
      requires Valid() && ideal == map[]
      requires forall op :: op in ops && op.Alloc? ==> op.size + HDR_SIZE + 7 < 0x1_0000_0000
      modifies this, heap, heap.ram
      ensures Valid() && |trace| == |ops| && Faithful(trace) && Replay(trace) == ideal
      ensures RunRight(ops, trace, states, heap.sent, heap.start, heap.guard)
      ensures states[0] == old(Now()) && states[|ops|] == Now()
    {
      hide Heap.Valid, Mirrors, Holds, MustRefuse, Answers, Allowed, Entered, RefusedRightly, Moved, RunRight;
      trace, states := [], [Now()];
      EmptyTable();
      NowSound();
      RunRightNone(ops, Now(), heap.sent, heap.start, heap.guard);
      for k := 0 to |ops|
        invariant Valid() && |trace| == k && |states| == k + 1
        invariant Faithful(trace) && Replay(trace) == ideal && Table(ops, trace) == objects
        invariant states[0] == old(Now()) && states[k] == Now()
        invariant RunRight(ops, trace, states, heap.sent, heap.start, heap.guard)
      {
        assert ops[k] in ops;
        var e := Do(ops[k]);
        ReplayOne(trace, e);
        TableOne(ops, trace, e);
        NowSound();
        RunRightOne(ops, trace, e, states, Now(), heap.sent, heap.start, heap.guard);
        trace, states := trace + [e], states + [Now()];
      }
    }

    lemma EmptyTable()
      requires Valid() && ideal == map[]
      ensures objects == []
    {
      hide Heap.Valid;
      if objects != [] { Held(held, objects, heap.live, 0); }
    }
  }
}
