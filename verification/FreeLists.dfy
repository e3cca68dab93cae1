/**
 The six circular doubly linked lists of free chunks.

 The word after a header holds two 16-bit links, `prev` in the low half and `next` in the high
 half. A link is the distance of its target from the link offset in words, cut to 16 bits.
 The sentinels stand below the heap, two words each.
 */
module FreeLists {

  import opened Common
  import Bits
  import opened BoundaryTags

  const LIST_COUNT := 6

  // ---------- Links ----------

  function PosToLink(p: nat): nat { p % 0x1_0000 }

  function Prev(w: Words, p: nat): (link: nat)
    requires p + 1 < |w|
    ensures link < 0x1_0000
  {
    w[p + 1] % 0x1_0000
  }

  function Next(w: Words, p: nat): (link: nat)
    requires p + 1 < |w|
    ensures link < 0x1_0000
    ensures w[p + 1] == link * 0x1_0000 + Prev(w, p)
  {
    w[p + 1] / 0x1_0000
  }

  function SetPrev(w: Words, p: nat, target: nat): (w': Words)
    requires p + 1 < |w|
    ensures |w'| == |w| && Next(w', p) == Next(w, p)
    ensures target < 0x1_0000 ==> Prev(w', p) == target
  {
    w[p + 1 := Next(w, p) * 0x1_0000 + PosToLink(target)]
  }

  function SetNext(w: Words, p: nat, target: nat): (w': Words)
    requires p + 1 < |w|
    ensures |w'| == |w| && Prev(w', p) == Prev(w, p)
    ensures target < 0x1_0000 ==> Next(w', p) == target
  {
    w[p + 1 := PosToLink(target) * 0x1_0000 + Prev(w, p)]
  }

  /** The links of `x` lead to link words. */
  ghost predicate CanUnlink(w: Words, x: nat)
  {
    x + 1 < |w| && Next(w, x) + 1 < |w| && Prev(w, x) + 1 < |w|
  }

  /** Take the chunk at `x` out of its list. */
  ghost function Unlink(w: Words, x: nat): Words
    requires CanUnlink(w, x)
  {
    SetPrev(SetNext(w, Prev(w, x), Next(w, x)), Next(w, x), Prev(w, x))
  }

  /** Put the chunk at `h` right after `p`. */
  function Link(w: Words, p: nat, h: nat): Words
    requires p + 1 < |w| && Next(w, p) + 1 < |w| && h + 1 < |w|
  {
    var n := Next(w, p);
    SetPrev(SetNext(SetPrev(SetNext(w, p, h), n, h), h, n), h, p)
  }

  // ---------- Size classes ----------

  function LeadingZeros(x: u32): nat
  {
    if x == 0 then 32 else LeadingZerosFrom(x, 31)
  }

  function LeadingZerosFrom(x: nat, bit: nat): nat
  {
    if x <= 1 || bit == 0 then bit else LeadingZerosFrom(x / 2, bit - 1)
  }

  /** 27 minus the leading zeros, saturating at 0, and at most 5. */
  function ListIndex(size: u32): (k: nat)
    ensures k < LIST_COUNT
  {
    var z := LeadingZeros(size);
    var i := if z <= 27 then 27 - z else 0;
    if i < 5 then i else 5
  }

  /** The table of size ranges that the allocator documents for its lists. */
  function SizeClass(size: u32): nat
  {
    if size < 32 then 0 else if size < 64 then 1 else if size < 128 then 2
    else if size < 256 then 3 else if size < 512 then 4 else 5
  }

  lemma {:induction false} LeadingZerosBounds(x: nat, bit: nat)
    requires 0 < x < Bits.Pow2(bit + 1)
    ensures LeadingZerosFrom(x, bit) <= bit
    ensures Bits.Pow2(bit - LeadingZerosFrom(x, bit)) <= x < Bits.Pow2(bit - LeadingZerosFrom(x, bit) + 1)
  {
    assert Bits.Pow2(0) == 1 && Bits.Pow2(1) == 2;
    if x > 1 && bit > 0 {
      LeadingZerosBounds(x / 2, bit - 1);
    }
  }

  lemma {:induction false} Pow2Monotone(a: nat, b: nat)
    requires a <= b
    ensures Bits.Pow2(a) <= Bits.Pow2(b)
  {
    if a < b { Pow2Monotone(a, b - 1); }
  }

  lemma Pow2Values()
    ensures Bits.Pow2(4) == 16 && Bits.Pow2(5) == 32 && Bits.Pow2(6) == 64 && Bits.Pow2(7) == 128 && Bits.Pow2(8) == 256
    ensures Bits.Pow2(9) == 512 && Bits.Pow2(32) == 0x1_0000_0000
  {
    assert Bits.Pow2(4) == 16;
    assert Bits.Pow2(8) == 256;
    assert Bits.Pow2(16) == 0x1_0000 by { assert Bits.Pow2(12) == 4096; }
    assert Bits.Pow2(24) == 0x100_0000 by { assert Bits.Pow2(20) == 0x10_0000; }
    assert Bits.Pow2(32) == 0x1_0000_0000 by { assert Bits.Pow2(28) == 0x1000_0000; }
  }

  /** The bit trick computes the documented table for every size. */
  lemma ListIndexIsSizeClass(size: u32)
    ensures ListIndex(size) == SizeClass(size)
  {
    if size > 0 {
      Pow2Values();
      LeadingZerosBounds(size, 31);
      var k := 31 - LeadingZeros(size);
      if k >= 9 { Pow2Monotone(9, k); }
      else { Pow2Monotone(k + 1, 9); }
      if k <= 4 { Pow2Monotone(k + 1, 5); }
    }
  }

  // ---------- Well-formed lists ----------

  /** The sentinel of list `k`, when the sentinels start at position `sent`. */
  function Sentinel(sent: nat, k: nat): nat { sent + 2 * k }

  /** The neighbours of node `x` are nodes of the same list and link back to it. */
  ghost predicate NodeOk(w: Words, cls: map<nat, nat>, x: nat)
  {
    && x in cls && x + 1 < |w| && cls[x] < LIST_COUNT
    && Next(w, x) in cls && cls[Next(w, x)] == cls[x] && Next(w, x) + 1 < |w| && Prev(w, Next(w, x)) == x
    && Prev(w, x) in cls && cls[Prev(w, x)] == cls[x] && Prev(w, x) + 1 < |w| && Next(w, Prev(w, x)) == x
  }

  /** Ranks fall along `next` until the sentinel, so following `next` always comes back to it. */
  ghost predicate RankOk(w: Words, start: nat, cls: map<nat, nat>, rank: map<nat, nat>, x: nat)
  {
    && x in rank && x + 1 < |w|
    && (x < start ==> rank[x] == 0)
    && (start <= x ==> 0 < rank[x] && Next(w, x) in rank && rank[Next(w, x)] < rank[x])
  }

  /**
   `cls` maps every node (sentinel or linked chunk) to its list. The nodes below `start` are
   the sentinels.
   */
  ghost predicate Linked(w: Words, sent: nat, start: nat, cls: map<nat, nat>, rank: map<nat, nat>)
  {
    && |w| <= 0x1_0000 && sent + 2 * LIST_COUNT <= start
    && (forall k :: 0 <= k < LIST_COUNT ==> Sentinel(sent, k) in cls && cls[Sentinel(sent, k)] == k)
    && (forall x {:trigger x in cls} :: x in cls && x < start ==> exists k :: 0 <= k < LIST_COUNT && x == Sentinel(sent, k))
    && (forall x {:trigger NodeOk(w, cls, x)} :: x in cls ==> NodeOk(w, cls, x))
    && (forall x {:trigger RankOk(w, start, cls, rank, x)} :: x in cls ==> RankOk(w, start, cls, rank, x))
  }

  lemma UnlinkFrame(w: Words, cls: map<nat, nat>, x: nat)
    requires |w| <= 0x1_0000 && NodeOk(w, cls, x)
    ensures var p, n := Prev(w, x), Next(w, x); var w' := Unlink(w, x);
      && |w'| == |w|
      && Next(w', p) == n && Prev(w', n) == p
      && (p != n ==> Prev(w', p) == Prev(w, p) && Next(w', n) == Next(w, n))
      && (forall i :: 0 <= i < |w| && i != p + 1 && i != n + 1 ==> w'[i] == w[i])
  {
  }

  lemma UnlinkNode(w: Words, start: nat, cls: map<nat, nat>, rank: map<nat, nat>, x: nat, y: nat)
    requires |w| <= 0x1_0000 && start <= x
    requires NodeOk(w, cls, x) && NodeOk(w, cls, y) && y != x
    requires NodeOk(w, cls, Prev(w, x)) && NodeOk(w, cls, Next(w, x))
    requires RankOk(w, start, cls, rank, x) && RankOk(w, start, cls, rank, y)
    requires RankOk(w, start, cls, rank, Next(w, x)) && RankOk(w, start, cls, rank, Prev(w, x))
    ensures NodeOk(Unlink(w, x), cls - {x}, y)
    ensures RankOk(Unlink(w, x), start, cls - {x}, rank, y)
  {
    UnlinkFrame(w, cls, x);
    var p, n := Prev(w, x), Next(w, x);
    assert n != x && p != x;
  }

  /** Taking a chunk out leaves well-formed lists over the other nodes. */
  lemma UnlinkKeepsLinked(w: Words, sent: nat, start: nat, cls: map<nat, nat>, rank: map<nat, nat>, x: nat)
    requires Linked(w, sent, start, cls, rank)
    requires x in cls && start <= x
    ensures NodeOk(w, cls, x) && Linked(Unlink(w, x), sent, start, cls - {x}, rank)
  {
    hide Prev, Next, Unlink;
    assert NodeOk(w, cls, x);
    var w', cls' := Unlink(w, x), cls - {x};
    UnlinkFrame(w, cls, x);
    forall y | y in cls' ensures NodeOk(w', cls', y) && RankOk(w', start, cls', rank, y) {
      assert NodeOk(w, cls, y) && NodeOk(w, cls, Prev(w, x)) && NodeOk(w, cls, Next(w, x));
      assert RankOk(w, start, cls, rank, x) && RankOk(w, start, cls, rank, y);
      assert RankOk(w, start, cls, rank, Next(w, x)) && RankOk(w, start, cls, rank, Prev(w, x));
      UnlinkNode(w, start, cls, rank, x, y);
    }
  }

  lemma LinkFrame(w: Words, cls: map<nat, nat>, p: nat, h: nat)
    requires |w| <= 0x1_0000 && NodeOk(w, cls, p) && h !in cls && h + 1 < |w|
    ensures var n := Next(w, p); var w' := Link(w, p, h);
      && |w'| == |w|
      && Next(w', p) == h && Prev(w', n) == h && Next(w', h) == n && Prev(w', h) == p
      && (p != n ==> Prev(w', p) == Prev(w, p) && Next(w', n) == Next(w, n))
      && (forall i :: 0 <= i < |w| && i != p + 1 && i != n + 1 && i != h + 1 ==> w'[i] == w[i])
  {
  }

  lemma LinkNode(w: Words, start: nat, cls: map<nat, nat>, rank: map<nat, nat>, p: nat, h: nat, r: nat, y: nat)
    requires |w| <= 0x1_0000 && p < start <= h && h + 1 < |w| && h !in cls
    requires NodeOk(w, cls, p) && NodeOk(w, cls, Next(w, p)) && NodeOk(w, cls, y)
    requires RankOk(w, start, cls, rank, p) && RankOk(w, start, cls, rank, Next(w, p)) && RankOk(w, start, cls, rank, y)
    ensures NodeOk(Link(w, p, h), cls[h := cls[p]], y) && RankOk(Link(w, p, h), start, cls[h := cls[p]], rank[h := r], y)
  {
    hide Link, Next, Prev;
    LinkFrame(w, cls, p, h);
    var n, w' := Next(w, p), Link(w, p, h);
    forall z | (z == y || z == Next(w, y) || z == Prev(w, y)) && z != p && z != n ensures Next(w', z) == Next(w, z) && Prev(w', z) == Prev(w, z) {
      SameWordLinks(w, w', z);
    }
  }

  lemma SameWordLinks(w: Words, w': Words, y: nat)
    requires y + 1 < |w| == |w'| && w'[y + 1] == w[y + 1]
    ensures Next(w', y) == Next(w, y) && Prev(w', y) == Prev(w, y)
  {
  }

  /** The chunk that is linked in. */
  lemma LinkedNode(w: Words, start: nat, cls: map<nat, nat>, rank: map<nat, nat>, p: nat, h: nat, r: nat)
    requires |w| <= 0x1_0000 && p < start <= h && h + 1 < |w| && h !in cls
    requires NodeOk(w, cls, p) && NodeOk(w, cls, Next(w, p))
    requires RankOk(w, start, cls, rank, Next(w, p)) && rank[Next(w, p)] < r
    ensures NodeOk(Link(w, p, h), cls[h := cls[p]], h) && RankOk(Link(w, p, h), start, cls[h := cls[p]], rank[h := r], h)
  {
    hide Link, Next, Prev;
    LinkFrame(w, cls, p, h);
  }

  /** A rank above that of every node of the list that starts at sentinel `p`. */
  ghost function FreshRank(w: Words, rank: map<nat, nat>, p: nat): nat
    requires p + 1 < |w|
  {
    if Next(w, p) in rank then rank[Next(w, p)] + 1 else 1
  }

  /** Putting a chunk right after a sentinel adds it to that list and to no other. */
  lemma LinkKeepsLinked(w: Words, sent: nat, start: nat, cls: map<nat, nat>, rank: map<nat, nat>, k: nat, h: nat)
    requires Linked(w, sent, start, cls, rank)
    requires k < LIST_COUNT && start <= h && h + 1 < |w| && h !in cls
    ensures var p := Sentinel(sent, k);
      NodeOk(w, cls, p) && Linked(Link(w, p, h), sent, start, cls[h := k], rank[h := FreshRank(w, rank, p)])
  {
    hide Prev, Next, Link;
    var p := Sentinel(sent, k);
    var r := FreshRank(w, rank, p);
    assert NodeOk(w, cls, p) && NodeOk(w, cls, Next(w, p));
    var w', cls', rank' := Link(w, p, h), cls[h := k], rank[h := r];
    LinkFrame(w, cls, p, h);
    forall y | y in cls' ensures NodeOk(w', cls', y) && RankOk(w', start, cls', rank', y) {
      assert RankOk(w, start, cls, rank, p) && RankOk(w, start, cls, rank, Next(w, p));
      if y == h {
        LinkedNode(w, start, cls, rank, p, h, r);
      } else {
        assert NodeOk(w, cls, y) && RankOk(w, start, cls, rank, y);
        LinkNode(w, start, cls, rank, p, h, r, y);
      }
    }
  }

  /** Words that hold no link may change freely. */
  lemma LinksOnly(w: Words, w': Words, sent: nat, start: nat, cls: map<nat, nat>, rank: map<nat, nat>)
    requires Linked(w, sent, start, cls, rank) && |w'| == |w|
    requires forall x {:trigger x in cls} :: x in cls && x + 1 < |w| ==> w'[x + 1] == w[x + 1]
    ensures Linked(w', sent, start, cls, rank)
  {
    forall x | x in cls ensures NodeOk(w', cls, x) && RankOk(w', start, cls, rank, x) {
      assert NodeOk(w, cls, x) && RankOk(w, start, cls, rank, x);
    }
  }

  // ---------- What a list contains ----------

  /** The chunks met by following `next` from node `x` up to the sentinel. */
  ghost function Chain(w: Words, sent: nat, start: nat, cls: map<nat, nat>, rank: map<nat, nat>, x: nat): seq<nat>
    requires Linked(w, sent, start, cls, rank) && x in cls
    decreases if x in rank then rank[x] else 0
  {
    assert NodeOk(w, cls, x) && RankOk(w, start, cls, rank, x);
    assert RankOk(w, start, cls, rank, Next(w, x));
    if x < start then [] else [x] + Chain(w, sent, start, cls, rank, Next(w, x))
  }

  /** The chunks of list `k` in search order. */
  ghost function FreeList(w: Words, sent: nat, start: nat, cls: map<nat, nat>, rank: map<nat, nat>, k: nat): seq<nat>
    requires Linked(w, sent, start, cls, rank) && k < LIST_COUNT
  {
    assert NodeOk(w, cls, Sentinel(sent, k));
    Chain(w, sent, start, cls, rank, Next(w, Sentinel(sent, k)))
  }

  lemma {:induction false} ChainSound(w: Words, sent: nat, start: nat, cls: map<nat, nat>, rank: map<nat, nat>, x: nat)
    requires Linked(w, sent, start, cls, rank) && x in cls && x in rank
    ensures forall y :: y in Chain(w, sent, start, cls, rank, x) ==>
      y in cls && start <= y && cls[y] == cls[x] && y in rank && rank[y] <= rank[x]
    ensures forall i, j :: 0 <= i < j < |Chain(w, sent, start, cls, rank, x)| ==>
      Chain(w, sent, start, cls, rank, x)[i] != Chain(w, sent, start, cls, rank, x)[j]
    decreases rank[x]
  {
    if start <= x {
      assert NodeOk(w, cls, x) && RankOk(w, start, cls, rank, x);
      ChainSound(w, sent, start, cls, rank, Next(w, x));
    }
  }

  lemma {:induction false} ChainClosed(w: Words, sent: nat, start: nat, cls: map<nat, nat>, rank: map<nat, nat>, x: nat, y: nat)
    requires Linked(w, sent, start, cls, rank) && x in cls && x in rank
    requires y in Chain(w, sent, start, cls, rank, x) && y + 1 < |w| && start <= Next(w, y)
    ensures Next(w, y) in Chain(w, sent, start, cls, rank, x)
    decreases rank[x]
  {
    assert NodeOk(w, cls, x) && RankOk(w, start, cls, rank, x);
    if x == y {
      assert NodeOk(w, cls, Next(w, x));
    } else {
      ChainClosed(w, sent, start, cls, rank, Next(w, x), y);
    }
  }

  /** The nodes whose rank exceeds `r`. */
  ghost function Above(cls: map<nat, nat>, rank: map<nat, nat>, r: nat): set<nat>
  {
    set y | y in cls && y in rank && rank[y] > r
  }

  lemma {:induction false} ListReaches(w: Words, sent: nat, start: nat, cls: map<nat, nat>, rank: map<nat, nat>, x: nat)
    requires Linked(w, sent, start, cls, rank) && x in cls && start <= x && x in rank && cls[x] < LIST_COUNT
    ensures x in FreeList(w, sent, start, cls, rank, cls[x])
    decreases Above(cls, rank, rank[x])
  {
    var p := Prev(w, x);
    assert NodeOk(w, cls, x) && NodeOk(w, cls, p) && RankOk(w, start, cls, rank, p);
    var s := Sentinel(sent, cls[x]);
    assert NodeOk(w, cls, s);
    if p < start {
      assert p == s;
    } else {
      assert p in Above(cls, rank, rank[x]) && p !in Above(cls, rank, rank[p]);
      ListReaches(w, sent, start, cls, rank, p);
      assert RankOk(w, start, cls, rank, Next(w, s));
      ChainClosed(w, sent, start, cls, rank, Next(w, s), p);
    }
  }

  /** List `k` holds exactly the chunks of class `k`, each once. */
  lemma ListIsItsClass(w: Words, sent: nat, start: nat, cls: map<nat, nat>, rank: map<nat, nat>, k: nat)
    requires Linked(w, sent, start, cls, rank) && k < LIST_COUNT
    ensures forall x :: x in FreeList(w, sent, start, cls, rank, k) <==> x in cls && start <= x && cls[x] == k
    ensures var l := FreeList(w, sent, start, cls, rank, k); forall i, j :: 0 <= i < j < |l| ==> l[i] != l[j]
  {
    var s := Sentinel(sent, k);
    assert NodeOk(w, cls, s) && RankOk(w, start, cls, rank, Next(w, s));
    ChainSound(w, sent, start, cls, rank, Next(w, s));
    forall x | x in cls && start <= x && cls[x] == k ensures x in FreeList(w, sent, start, cls, rank, k) {
      assert RankOk(w, start, cls, rank, x);
      ListReaches(w, sent, start, cls, rank, x);
    }
  }
}
