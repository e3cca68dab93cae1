/** The cache of allocation sites whose stacklets are enlarged, so that a hot call does not extend the stack over and over. */
module HotSplit {

  import opened Common

  /** The first entry for a signature; the length of the cache if there is none. */
  function FirstHit(causes: seq<bv32>, sig: bv32): (i: nat)
    ensures i <= |causes| && (i < |causes| ==> causes[i] == sig)
    ensures forall k :: 0 <= k < i ==> causes[k] != sig
  {
    if causes == [] || causes[0] == sig then 0 else 1 + FirstHit(causes[1..], sig)
  }

  lemma FirstHitIs(causes: seq<bv32>, sig: bv32, i: nat)
    requires i <= |causes| && (i < |causes| ==> causes[i] == sig) && forall k :: 0 <= k < i ==> causes[k] != sig
    ensures FirstHit(causes, sig) == i
  {
  }

  /** The frame size in bytes that is allocated for a site: a multiple of the requested one if the site is in the cache. */
  function Adjusted(frame: u32, causes: seq<bv32>, adds: seq<u32>, sig: bv32): u32
    requires |adds| == |causes|
  {
    var i := FirstHit(causes, sig);
    if i < |causes| then Product(frame, adds[i]) else frame
  }

  function Product(a: u32, b: u32): u32
  {
    var x: int, y: int := a, b;
    x * y % 0x1_0000_0000
  }

  /** Entries enlarge at least twofold, except for signature 0, which empty entries also carry, with factor 0. */
  ghost predicate CacheOk(causes: seq<bv32>, adds: seq<u32>)
  {
    |adds| == |causes| && forall i {:trigger adds[i]} :: 0 <= i < |adds| ==> adds[i] >= 2 || causes[i] == 0
  }

  /** The signature is that of an empty entry, which comes first. */
  predicate HitsEmpty(causes: seq<bv32>, adds: seq<u32>, sig: bv32)
    requires |adds| == |causes|
  {
    var i := FirstHit(causes, sig);
    i < |causes| && adds[i] == 0
  }

  /** Barring overflow, a site gets at least what it asked for exactly when its signature does not hit an empty entry, which only signature 0 can. */
  lemma RoomIff(frame: u32, causes: seq<bv32>, adds: seq<u32>, sig: bv32)
    requires CacheOk(causes, adds) && 0 < frame
    requires var i := FirstHit(causes, sig); i < |causes| ==> frame * adds[i] < 0x1_0000_0000
    ensures Adjusted(frame, causes, adds, sig) >= frame <==> !HitsEmpty(causes, adds, sig)
    ensures HitsEmpty(causes, adds, sig) ==> sig == 0
  {
    var i := FirstHit(causes, sig);
    if i < |causes| {
      if adds[i] >= 1 { Grows(frame, adds[i]); } else { assert Product(frame, 0) == 0; }
    }
  }

  /** A site gets less than it asked for only from an entry with factor 0, or because the product overflows. */
  lemma LessOnlyBy(frame: u32, causes: seq<bv32>, adds: seq<u32>, sig: bv32)
    requires |adds| == |causes| && Adjusted(frame, causes, adds, sig) < frame
    ensures (var i := FirstHit(causes, sig); i < |causes| && (adds[i] == 0 || frame * adds[i] >= 0x1_0000_0000))
  {
    var i := FirstHit(causes, sig);
    if i < |causes| && adds[i] >= 1 { Grows(frame, adds[i]); }
  }

  lemma Grows(frame: int, add: int)
    requires frame > 0 && add >= 1
    ensures frame * add >= frame
  {
    assert frame * add == frame + frame * (add - 1);
    if add > 1 { Positive(frame, add - 1); }
  }

  lemma Positive(a: int, b: int)
    requires a > 0 && b > 0
    ensures a * b > 0
  {
  }

  /** A factor, raised by one. */
  function Next(add: u32): (r: u32)
    ensures add != 0xFFFF_FFFF ==> r > add
    ensures add == 0xFFFF_FFFF ==> r == 0
  {
    var x: int := add;
    (x + 1) % 0x1_0000_0000
  }

  /** The cache, and the entry to evict next, after hot-splitting has been detected at signature `sig`. */
  ghost function Counted(causes: seq<bv32>, adds: seq<u32>, next: nat, sig: bv32): (seq<bv32>, seq<u32>, nat)
    requires |adds| == |causes| && next < |causes|
  {
    var i := FirstHit(causes, sig);
    if i < |causes| then (causes, adds[i := Next(adds[i])], next)
    else (causes[next := sig], adds[next := 2], if next + 1 == |causes| then 0 else next + 1)
  }

  /** Detecting hot-splitting at a site raises the factor of that site, and changes no other but the one evicted. */
  lemma CountedRaises(causes: seq<bv32>, adds: seq<u32>, next: nat, sig: bv32, other: bv32, frame: u32)
    requires |adds| == |causes| && next < |causes|
    ensures CountedWell(causes, adds, sig, Counted(causes, adds, next, sig))
    ensures other != sig && FirstHit(causes, other) != next ==>
      CountedSame(frame, causes, adds, other, Counted(causes, adds, next, sig))
  {
    hide Product, FirstHit;
    var (c, a, n) := Counted(causes, adds, next, sig);
    if FirstHit(causes, sig) == |causes| {
      assert c[next] == sig && forall k :: 0 <= k < |c| && k != next ==> c[k] == causes[k];
      FirstHitIs(c, sig, next);
    }
    if other != sig && FirstHit(causes, other) != next {
      FirstHitIs(c, other, FirstHit(causes, other));
    }
  }

  /** Each detection at a site gives it one frame more from then on, whether the site was in the cache or not. */
  lemma OneFrameMore(frame: u32, causes: seq<bv32>, adds: seq<u32>, next: nat, sig: bv32)
    requires |adds| == |causes| && next < |causes|
    ensures (var now := Counted(causes, adds, next, sig);
             && |now.1| == |now.0|
             && Adjusted(frame, now.0, now.1, sig) == Sum(Adjusted(frame, causes, adds, sig), frame))
  {
    hide FirstHit, Product, Next, Sum;
    CountedRaises(causes, adds, next, sig, sig, frame);
    var was := FirstHit(causes, sig);
    if was < |causes| {
      OneMore(frame, adds[was]);
    } else {
      OneMore(frame, 1);
      Times1(frame);
    }
  }

  lemma Times1(frame: u32)
    ensures Product(frame, 1) == frame && Next(1) == 2
  {
  }

  lemma OneMore(frame: u32, add: u32)
    ensures Product(frame, Next(add)) == Sum(Product(frame, add), frame)
  {
    var f: int, x: int := frame, add;
    ModPlus(f * x, f);
    Distribute(f, x);
    if x + 1 == 0x1_0000_0000 { Multiple(f); }
  }

  lemma Distribute(f: int, x: int)
    ensures f * (x + 1) == f * x + f
  {
  }

  lemma Multiple(f: int)
    ensures f * 0x1_0000_0000 % 0x1_0000_0000 == 0 && f * 0 == 0
  {
  }

  function Sum(a: u32, b: u32): u32
  {
    var x: int, y: int := a, b;
    (x + y) % 0x1_0000_0000
  }

  lemma ModPlus(a: int, b: int)
    ensures (a % 0x1_0000_0000 + b) % 0x1_0000_0000 == (a + b) % 0x1_0000_0000
  {
    assert a + b == a / 0x1_0000_0000 * 0x1_0000_0000 + (a % 0x1_0000_0000 + b);
  }

  // ---------- Runs of detections ----------

  datatype State = State(causes: seq<bv32>, adds: seq<u32>, next: nat)

  predicate StateOk(s: State)
  {
    |s.adds| == |s.causes| && s.next < |s.causes|
  }

  ghost function Detected(s: State, sig: bv32): (s': State)
    requires StateOk(s)
    ensures StateOk(s') && |s'.causes| == |s.causes|
  {
    var (c, a, n) := Counted(s.causes, s.adds, s.next, sig);
    State(c, a, n)
  }

  ghost function AllDetected(s: State, sigs: seq<bv32>): (s': State)
    requires StateOk(s)
    ensures StateOk(s') && |s'.causes| == |s.causes|
    decreases |sigs|
  {
    if sigs == [] then s else AllDetected(Detected(s, sigs[0]), sigs[1..])
  }

  /** How many evictions come before that of entry `i`. */
  function Turns(s: State, i: nat): nat
    requires StateOk(s) && i < |s.causes|
  {
    if s.next <= i then i - s.next else |s.causes| - s.next + i
  }

  /** An entry stays for as many detections as there are entries to evict before it. */
  lemma {:induction false} StaysFor(s: State, sigs: seq<bv32>, i: nat)
    requires StateOk(s) && i < |s.causes| && |sigs| <= Turns(s, i)
    ensures AllDetected(s, sigs).causes[i] == s.causes[i]
    decreases |sigs|
  {
    if sigs != [] {
      var s' := Detected(s, sigs[0]);
      assert s'.causes[i] == s.causes[i] && Turns(s', i) >= Turns(s, i) - 1;
      StaysFor(s', sigs[1..], i);
    }
  }

  /** A site that enters the cache is enlarged throughout as many further detections as there are other entries, whatever they are. */
  lemma NewSiteStays(s: State, sig: bv32, sigs: seq<bv32>)
    requires StateOk(s) && FirstHit(s.causes, sig) == |s.causes| && |sigs| < |s.causes|
    ensures (var s' := AllDetected(Detected(s, sig), sigs); FirstHit(s'.causes, sig) < |s'.causes|)
  {
    hide FirstHit;
    var s1 := Detected(s, sig);
    StaysFor(s1, sigs, s.next);
    var s' := AllDetected(s1, sigs);
    assert s'.causes[s.next] == sig;
  }

  /** The factor of the site cannot be raised any more. */
  predicate Overflows(causes: seq<bv32>, adds: seq<u32>, sig: bv32)
    requires |adds| == |causes|
  {
    var i := FirstHit(causes, sig);
    i < |causes| && adds[i] == 0xFFFF_FFFF
  }

  /** Unless its factor overflows, entries still enlarge at least twofold. */
  lemma CountedKeepsOk(causes: seq<bv32>, adds: seq<u32>, next: nat, sig: bv32)
    requires CacheOk(causes, adds) && next < |causes| && !Overflows(causes, adds, sig)
    ensures CacheOk(Counted(causes, adds, next, sig).0, Counted(causes, adds, next, sig).1)
  {
    hide FirstHit, Next;
  }

  /** The new cache raises the factor of `sig` by one, or sets it to two. */
  ghost predicate CountedWell(causes: seq<bv32>, adds: seq<u32>, sig: bv32, now: (seq<bv32>, seq<u32>, nat))
    requires |adds| == |causes|
  {
    var (c, a, n) := now;
    var was, i := FirstHit(causes, sig), FirstHit(c, sig);
    |a| == |c| && n < |c| && i < |c| && a[i] == if was < |causes| then Next(adds[was]) else 2
  }

  /** The new cache gives signature `other` what the old one did. */
  ghost predicate CountedSame(frame: u32, causes: seq<bv32>, adds: seq<u32>, other: bv32, now: (seq<bv32>, seq<u32>, nat))
    requires |adds| == |causes|
  {
    |now.1| == |now.0| && Adjusted(frame, now.0, now.1, other) == Adjusted(frame, causes, adds, other)
  }

  lemma AtEnd(n: nat, length: nat)
    requires 0 < n <= length
    ensures n % length == 0 <==> n == length
  {
  }

  lemma CountedHit(causes: seq<bv32>, adds: seq<u32>, next: nat, sig: bv32, i: nat)
    requires |adds| == |causes| && next < |causes| && i < |causes| && FirstHit(causes, sig) == i
    ensures Counted(causes, adds, next, sig) == (causes, adds[i := Next(adds[i])], next)
    ensures Overflows(causes, adds, sig) <==> adds[i] == 0xFFFF_FFFF
  {
  }

  lemma CountedMiss(causes: seq<bv32>, adds: seq<u32>, next: nat, sig: bv32)
    requires |adds| == |causes| && next < |causes| && FirstHit(causes, sig) == |causes|
    ensures Counted(causes, adds, next, sig) == (causes[next := sig], adds[next := 2], if next + 1 == |causes| then 0 else next + 1)
    ensures !Overflows(causes, adds, sig)
  {
  }

  class Cache {
    const causes: array<bv32>
    const adds: array<u32>
    const threshold: u32
    var next: nat
    /** Whether a factor has overflowed. */
    ghost var wrapped: bool

    ghost predicate Valid()
      reads this, causes, adds
    {
      (causes as object) != (adds as object) && causes.Length == adds.Length > 0 && next < causes.Length
      && (wrapped || CacheOk(causes[..], adds[..]))
    }

    constructor (size: nat, threshold: u32)
      requires size > 0
      ensures Valid() && fresh(causes) && fresh(adds) && !wrapped && CacheOk(causes[..], adds[..])
    {
      causes := new bv32[size](_ => 0);
      adds := new u32[size](_ => 0);
      this.threshold := threshold;
      next, wrapped := 0, false;
    }

    /** The allocation size for a site, from its new signature. */
    method Adjust(frame: u32, sig: bv32) returns (adjusted: u32)
      requires Valid()
      ensures adjusted == Adjusted(frame, causes[..], adds[..], sig)
    {
      adjusted := frame;
      var i := 0;
      while i < causes.Length
        invariant 0 <= i <= causes.Length && adjusted == frame
        invariant FirstHit(causes[..], sig) == i + FirstHit(causes[i..], sig)
      {
        assert causes[i..][0] == causes[i] && causes[i..][1..] == causes[i + 1..];
        if sig == causes[i] {
          adjusted := Product(frame, adds[i]);
          break;
        }
        i := i + 1;
      }
    }

    /** Count one more extension from the current stacklet; at the threshold, enlarge the site that allocated it. */
    method Count(extendCnt: u32, prevSig: bv32)
      requires Valid()
      modifies this, causes, adds
      ensures Valid()
      ensures extendCnt != threshold ==> causes[..] == old(causes[..]) && adds[..] == old(adds[..]) && next == old(next)
      ensures extendCnt == threshold ==> Counted(old(causes[..]), old(adds[..]), old(next), prevSig) == (causes[..], adds[..], next)
      ensures wrapped == old(wrapped || (extendCnt == threshold && Overflows(causes[..], adds[..], prevSig)))
    {
      hide FirstHit, Product, CacheOk, Next, Counted, Overflows;
      if extendCnt != threshold {
        return;
      }
      var i := 0;
      while i < causes.Length
        invariant 0 <= i <= causes.Length
        invariant causes[..] == old(causes[..]) && adds[..] == old(adds[..]) && next == old(next) && wrapped == old(wrapped)
        invariant forall k :: 0 <= k < i ==> causes[k] != prevSig
      {
        if causes[i] == prevSig {
          FirstHitIs(causes[..], prevSig, i);
          ghost var was := adds[..];
          CountedHit(causes[..], was, next, prevSig, i);
          wrapped := wrapped || adds[i] == 0xFFFF_FFFF;
          if !wrapped { CountedKeepsOk(causes[..], was, next, prevSig); }
          adds[i] := Next(adds[i]);
          assert causes[..] == old(causes[..]);
          assert adds[..] == was[i := Next(was[i])];
          return;
        }
        i := i + 1;
      }
      Evict(prevSig);
    }

    /** The site takes the place of the entry to evict next. */
    method Evict(sig: bv32)
      requires Valid() && forall k :: 0 <= k < causes.Length ==> causes[k] != sig
      modifies `next, causes, adds
      ensures Valid() && wrapped == old(wrapped) && !Overflows(old(causes[..]), old(adds[..]), sig)
      ensures Counted(old(causes[..]), old(adds[..]), old(next), sig) == (causes[..], adds[..], next)
    {
      hide FirstHit, CacheOk, Counted, Overflows;
      ghost var c, a := causes[..], adds[..];
      FirstHitIs(c, sig, |c|);
      CountedMiss(c, a, next, sig);
      if !wrapped { CountedKeepsOk(c, a, next, sig); }
      causes[next] := sig;
      adds[next] := 2;
      assert causes[..] == c[next := sig] && adds[..] == a[next := 2];
      next := next + 1;
      AtEnd(next, causes.Length);
      if next % causes.Length == 0 {
        next := 0;
      }
    }
  }
}
