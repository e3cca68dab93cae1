/** The hash that stands for the chain of stacklet allocation sites. */
module CallSignature {

  function Rotated(sig: bv32): bv32 { sig.RotateRight(1) }

  function Xor(x: bv32, y: bv32): bv32 { x ^ y }

  /** The signature after the function that returns to `lr` has extended the stack. */
  function Extended(sig: bv32, lr: bv32): bv32 { Xor(Rotated(sig), lr) }

  /** The signature after that function has returned. */
  function Shrunk(sig: bv32, lr: bv32): bv32 { Xor(sig, lr).RotateLeft(1) }

  lemma RotateBack(x: bv32)
    ensures Rotated(x).RotateLeft(1) == x
  {
  }

  lemma XorBack(x: bv32, y: bv32)
    ensures Xor(Xor(x, y), y) == x && Xor(x, Xor(x, y)) == y
  {
  }

  /** Releasing a stacklet undoes what extending did to the signature. */
  lemma RoundTrip(sig: bv32, lr: bv32)
    ensures Shrunk(Extended(sig, lr), lr) == sig
  {
    hide Rotated, Xor;
    XorBack(Rotated(sig), lr);
    RotateBack(sig);
  }

  /** Extending leaves a signature alone for exactly one return address. */
  lemma KeepsIff(sig: bv32, lr: bv32)
    ensures Extended(sig, lr) == sig <==> lr == Xor(Rotated(sig), sig)
  {
    hide Rotated, Xor;
    XorBack(Rotated(sig), lr);
    XorBack(Rotated(sig), sig);
  }

  /** The lowest bit moves to the top, and all others one down. */
  lemma RotatedBits(x: bv32)
    ensures Rotated(x) & 0x7fff_ffff == x >> 1
    ensures Rotated(x) >> 31 == x & 1
  {
  }

  lemma RotatedXor(x: bv32, y: bv32)
    ensures Rotated(Xor(x, y)) == Xor(Rotated(x), Rotated(y))
  {
  }

  lemma RotatedSame(x: bv32)
    ensures Rotated(x) == x <==> x == 0 || x == 0xffff_ffff
  {
  }

  lemma XorBasics(x: bv32, y: bv32, z: bv32)
    ensures Xor(x, 0) == x && Xor(x, x) == 0 && Xor(x, 0xffff_ffff) == !x && Xor(!x, x) == 0xffff_ffff
    ensures Xor(x, y) == Xor(y, x) && Xor(Xor(x, y), z) == Xor(Xor(x, z), y)
  {
  }

  lemma XorSame(x: bv32, y: bv32, u: bv32, v: bv32)
    ensures Xor(x, v) == Xor(y, u) <==> Xor(x, y) == Xor(u, v)
  {
    hide Xor;
    XorBasics(x, y, v);
    XorBasics(y, u, y);
    XorBasics(u, y, y);
    XorBack(u, y);
    XorBack(u, v);
    XorBack(Xor(x, y), v);
    XorBack(Xor(x, v), y);
  }

  lemma XorExtremes(a: bv32, b: bv32)
    ensures Xor(a, b) == 0 <==> a == b
    ensures Xor(a, b) == 0xffff_ffff <==> a == !b
  {
    hide Xor;
    XorBack(a, b);
    XorBasics(a, b, b);
    XorBasics(b, a, a);
  }

  lemma XorSwap(s: bv32, x: bv32, y: bv32)
    ensures Xor(Xor(s, x), y) == Xor(s, Xor(x, y))
  {
  }

  lemma XorCancel(s: bv32, x: bv32, y: bv32)
    ensures Xor(s, x) == Xor(s, y) <==> x == y
  {
    hide Xor;
    XorBack(s, x);
    XorBack(s, y);
  }

  /** The order of two sites is told by the signature, unless their addresses are the same or each other's complement. */
  lemma OrderTold(sig: bv32, a: bv32, b: bv32)
    ensures Extended(Extended(sig, a), b) == Extended(Extended(sig, b), a) <==> a == b || a == !b
  {
    hide Rotated, Xor;
    var s := Rotated(Rotated(sig));
    RotatedXor(Rotated(sig), a);
    RotatedXor(Rotated(sig), b);
    XorSwap(s, Rotated(a), b);
    XorSwap(s, Rotated(b), a);
    XorCancel(s, Xor(Rotated(a), b), Xor(Rotated(b), a));
    XorSame(Rotated(a), Rotated(b), a, b);
    RotatedXor(a, b);
    RotatedSame(Xor(a, b));
    XorExtremes(a, b);
  }
}
