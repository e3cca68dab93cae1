/** The order of the free lists: a chunk is linked in at the front, and leaves without disturbing the rest. */
module FreeListOrder {

  import opened Common
  import opened BoundaryTags
  import opened FreeLists

  /** `s` without the value `x`. */
  function Without(s: seq<nat>, x: nat): seq<nat>
  {
    if s == [] then [] else if s[0] == x then Without(s[1..], x) else [s[0]] + Without(s[1..], x)
  }

  lemma {:induction false} WithoutAbsent(s: seq<nat>, x: nat)
    requires x !in s
    ensures Without(s, x) == s
  {
    if s != [] { WithoutAbsent(s[1..], x); }
  }

  /** All chunks have kept their next links. */
  ghost predicate SameLinks(w: Words, w': Words, start: nat, cls: map<nat, nat>, cls': map<nat, nat>)
  {
    |w'| == |w| && forall y {:trigger y in cls} :: y in cls && start <= y ==> y in cls' && y + 1 < |w| && Next(w', y) == Next(w, y)
  }

  /** A chain does not depend on links outside of it. */
  lemma {:induction false} ChainSame(w: Words, w': Words, sent: nat, start: nat, cls: map<nat, nat>, rank: map<nat, nat>,
                                     cls': map<nat, nat>, rank': map<nat, nat>, x: nat)
    requires Linked(w, sent, start, cls, rank) && Linked(w', sent, start, cls', rank') && x in cls && x in cls'
    requires SameLinks(w, w', start, cls, cls')
    ensures Chain(w', sent, start, cls', rank', x) == Chain(w, sent, start, cls, rank, x)
    decreases if x in rank then rank[x] else 0
  {
    hide Next, Prev;
    if start <= x {
      assert NodeOk(w, cls, x) && RankOk(w, start, cls, rank, x) && NodeOk(w', cls', x) && RankOk(w', start, cls', rank', x);
      var n := Next(w, x);
      assert x in cls && n == Next(w', x) && n in cls && n in cls';
      hide SameLinks, Linked;
      assert RankOk(w, start, cls, rank, n) && RankOk(w', start, cls', rank', n);
      ChainSame(w, w', sent, start, cls, rank, cls', rank', n);
    }
  }

  /** A chunk that is linked in comes first in its list; no other list changes. */
  lemma LinkedFirst(w: Words, sent: nat, start: nat, cls: map<nat, nat>, rank: map<nat, nat>, k: nat, h: nat, j: nat)
    requires Linked(w, sent, start, cls, rank)
    requires k < LIST_COUNT && j < LIST_COUNT && start <= h && h + 1 < |w| && h !in cls
    ensures Sentinel(sent, k) + 1 < |w| && Next(w, Sentinel(sent, k)) + 1 < |w|
    ensures (var w', cls', rank' := Link(w, Sentinel(sent, k), h), cls[h := k], rank[h := FreshRank(w, rank, Sentinel(sent, k))];
             && Linked(w', sent, start, cls', rank')
             && FreeList(w', sent, start, cls', rank', j)
                == (if j == k then [h] else []) + FreeList(w, sent, start, cls, rank, j))
  {
    hide Next, Prev, Link;
    LinkKeepsLinked(w, sent, start, cls, rank, k, h);
    var p, s := Sentinel(sent, k), Sentinel(sent, j);
    var w', cls', rank' := Link(w, p, h), cls[h := k], rank[h := FreshRank(w, rank, p)];
    LinkFrame(w, cls, p, h);
    assert NodeOk(w, cls, p) && NodeOk(w, cls, s);
    forall y | y in cls && (start <= y || y != p) ensures y in cls' && y + 1 < |w| && Next(w', y) == Next(w, y) {
      assert NodeOk(w, cls, y);
      SameNext(w, w', y, p, h);
    }
    assert s != p ==> Next(w', s) == Next(w, s);
    ChainSame(w, w', sent, start, cls, rank, cls', rank', Next(w, s));
    if j == k {
      assert Chain(w', sent, start, cls', rank', h) == [h] + Chain(w', sent, start, cls', rank', Next(w', h));
    }
  }

  /** Linking changes the next links of two nodes alone. */
  lemma SameNext(w: Words, w': Words, y: nat, p: nat, h: nat)
    requires p + 1 < |w| && Next(w, p) + 1 < |w| && h + 1 < |w| && |w'| == |w| && y + 1 < |w| && y != p && y != h
    requires Next(w, p) != p ==> Next(w', Next(w, p)) == Next(w, Next(w, p))
    requires forall i :: 0 <= i < |w| && i != p + 1 && i != Next(w, p) + 1 && i != h + 1 ==> w'[i] == w[i]
    ensures Next(w', y) == Next(w, y)
  {
  }

  /** The chain after a chunk has left. */
  lemma {:induction false} ChainWithout(w: Words, w': Words, sent: nat, start: nat, cls: map<nat, nat>, rank: map<nat, nat>, x: nat, y: nat)
    requires Linked(w, sent, start, cls, rank) && x in cls && start <= x && y in cls && y != x && |w'| == |w|
    requires Linked(w', sent, start, cls - {x}, rank) && NodeOk(w, cls, x)
    requires forall z {:trigger NodeOk(w, cls, z)} :: z in cls && z != x && NodeOk(w, cls, z) ==> Next(w', z) == if Next(w, z) == x then Next(w, x) else Next(w, z)
    ensures Chain(w', sent, start, cls - {x}, rank, y) == Without(Chain(w, sent, start, cls, rank, y), x)
    decreases if y in rank then rank[y] else 0
  {
    hide Next, Prev;
    if start <= y {
      var cls' := cls - {x};
      assert NodeOk(w, cls, y) && RankOk(w, start, cls, rank, y) && NodeOk(w', cls', y) && RankOk(w', start, cls', rank, y);
      var n := Next(w, y);
      assert NodeOk(w, cls, n) && RankOk(w, start, cls, rank, n);
      if n == x {
        var z := Next(w, x);
        assert NodeOk(w, cls, z) && RankOk(w, start, cls, rank, z);
        assert z != x;
        ChainWithout(w, w', sent, start, cls, rank, x, z);
        var rest := Chain(w, sent, start, cls, rank, z);
        assert Chain(w, sent, start, cls, rank, y) == [y] + ([x] + rest);
        assert Without([x] + rest, x) == Without(rest, x);
      } else {
        ChainWithout(w, w', sent, start, cls, rank, x, n);
      }
    }
  }

  /** Taking a chunk out leaves every list as it was without the chunk. */
  lemma UnlinkedFrom(w: Words, sent: nat, start: nat, cls: map<nat, nat>, rank: map<nat, nat>, x: nat, j: nat)
    requires Linked(w, sent, start, cls, rank) && x in cls && start <= x && j < LIST_COUNT
    ensures NodeOk(w, cls, x) && Linked(Unlink(w, x), sent, start, cls - {x}, rank)
    ensures FreeList(Unlink(w, x), sent, start, cls - {x}, rank, j) == Without(FreeList(w, sent, start, cls, rank, j), x)
  {
    hide Next, Prev, Unlink;
    UnlinkKeepsLinked(w, sent, start, cls, rank, x);
    UnlinkFrame(w, cls, x);
    var w', s := Unlink(w, x), Sentinel(sent, j);
    forall z {:trigger NodeOk(w, cls, z)} | z in cls && z != x && NodeOk(w, cls, z)
      ensures Next(w', z) == if Next(w, z) == x then Next(w, x) else Next(w, z)
    {
      NextAfter(w, w', cls, x, z);
    }
    assert NodeOk(w, cls, s);
    var n := Next(w, s);
    if n == x {
      var z := Next(w, x);
      assert NodeOk(w, cls, z) && RankOk(w, start, cls, rank, x);
      assert z != x;
      ChainWithout(w, w', sent, start, cls, rank, x, z);
      var rest := Chain(w, sent, start, cls, rank, z);
      assert FreeList(w, sent, start, cls, rank, j) == [x] + rest;
      assert Without([x] + rest, x) == Without(rest, x);
    } else {
      ChainWithout(w, w', sent, start, cls, rank, x, n);
    }
  }

  lemma NextAfter(w: Words, w': Words, cls: map<nat, nat>, x: nat, z: nat)
    requires NodeOk(w, cls, x) && NodeOk(w, cls, z) && z != x && |w'| == |w|
    requires (var p, n := Prev(w, x), Next(w, x);
              && Next(w', p) == n && (p != n ==> Next(w', n) == Next(w, n))
              && (forall i :: 0 <= i < |w| && i != p + 1 && i != n + 1 ==> w'[i] == w[i]))
    ensures Next(w', z) == if Next(w, z) == x then Next(w, x) else Next(w, z)
  {
  }
}
