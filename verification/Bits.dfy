/** Numbers and their binary digits, least significant first. */
module Bits {

  function Pow2(n: nat): (r: nat)
    ensures r > 0
  {
    if n == 0 then 1 else 2 * Pow2(n - 1)
  }

  /** The lowest `n` digits of `x`. */
  function Of(x: nat, n: nat): (r: seq<bool>)
    ensures |r| == n
  {
    if n == 0 then [] else [x % 2 == 1] + Of(x / 2, n - 1)
  }

  function Number(b: seq<bool>): nat
  {
    if b == [] then 0 else (if b[0] then 1 else 0) + 2 * Number(b[1..])
  }

  lemma {:induction false} NumberFits(b: seq<bool>)
    ensures Number(b) < Pow2(|b|)
  {
    if b != [] { NumberFits(b[1..]); }
  }

  /** The digits of a number that digits make. */
  lemma {:induction false} OfNumber(b: seq<bool>)
    ensures Of(Number(b), |b|) == b
  {
    if b != [] {
      OfNumber(b[1..]);
      assert Number(b) / 2 == Number(b[1..]);
    }
  }

  /** The number that the digits of a number make. */
  lemma {:induction false} NumberOf(x: nat, n: nat)
    requires x < Pow2(n)
    ensures Number(Of(x, n)) == x
  {
    if n > 0 {
      NumberOf(x / 2, n - 1);
      assert Of(x, n)[1..] == Of(x / 2, n - 1);
    }
  }

  /** All digits of zero are clear. */
  lemma {:induction false} OfZero(n: nat)
    ensures forall i :: 0 <= i < n ==> !Of(0, n)[i]
  {
    if n > 0 { OfZero(n - 1); }
  }

  /** Some digit of a number that fits is set unless the number is zero. */
  lemma {:induction false} SomeDigit(b: seq<bool>)
    ensures Number(b) == 0 <==> forall i :: 0 <= i < |b| ==> !b[i]
  {
    if b != [] {
      SomeDigit(b[1..]);
      if b[0] {
        assert Number(b) > 0;
      } else {
        assert forall i :: 1 <= i < |b| ==> b[i] == b[1..][i - 1];
        assert (forall i :: 0 <= i < |b| ==> !b[i]) ==> forall i :: 0 <= i < |b[1..]| ==> !b[1..][i] by {
          assert forall i :: 0 <= i < |b| - 1 ==> b[1..][i] == b[i + 1];
        }
      }
    }
  }

  /** What is left of a number without its lowest `n` digits. */
  function High(x: nat, n: nat): nat
  {
    if n == 0 then x else High(x / 2, n - 1)
  }

  /** The low digits come first. */
  lemma {:induction false} Split(x: nat, low: nat, high: nat)
    ensures Of(x, low + high) == Of(x, low) + Of(High(x, low), high)
  {
    if low > 0 { Split(x / 2, low - 1, high); }
  }

  /** The low digits do not depend on the high ones. */
  lemma {:induction false} AddHigh(x: nat, k: nat, n: nat)
    ensures Pow2(n) * k >= 0 && Of(x + Pow2(n) * k, n) == Of(x, n)
  {
    if n > 0 {
      var y := Pow2(n - 1) * k;
      AddHigh(x / 2, k, n - 1);
      assert Pow2(n) * k == 2 * y;
      assert (x + 2 * y) / 2 == x / 2 + y && (x + 2 * y) % 2 == x % 2;
    }
  }

  /** Seven digits at a time. */
  lemma Sevens(x: nat, n: nat)
    ensures Of(x, 7 + n) == Of(x % 128, 7) + Of(x / 128, n)
  {
    Split(x, 7, n);
    assert High(x, 7) == x / 128 by { assert x / 2 / 2 / 2 / 2 / 2 / 2 / 2 == x / 128; High7(x); }
    assert Pow2(7) == 128;
    AddHigh(x % 128, x / 128, 7);
  }

  lemma High7(x: nat)
    ensures High(x, 7) == x / 2 / 2 / 2 / 2 / 2 / 2 / 2
  {
    var x1 := x / 2;
    var x2 := x1 / 2;
    var x3 := x2 / 2;
    var x4 := x3 / 2;
    var x5 := x4 / 2;
    assert High(x, 7) == High(x1, 6);
    assert High(x1, 6) == High(x2, 5);
    assert High(x2, 5) == High(x3, 4);
    assert High(x3, 4) == High(x4, 3);
    assert High(x4, 3) == High(x5, 2);
    assert High(x5, 2) == High(x5 / 2, 1);
  }
}
