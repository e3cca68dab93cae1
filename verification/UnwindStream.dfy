/** Unwind instructions are stored in words, and read from the high byte of each word to the low one. */
module UnwindStream {

  import opened Common

  type u8 = x: int | 0 <= x < 256
  /** The bytes in the order in which they are read; also the order in which to store them. */
  function Swapped(bytes: seq<u8>): (r: seq<u8>)
    requires |bytes| % 4 == 0
    ensures |r| == |bytes|
  {
    seq(|bytes|, i requires 0 <= i < |bytes| => bytes[i / 4 * 4 + 3 - i % 4])
  }

  /** What is stored in this order is read back as it was. */
  lemma SwapTwice(bytes: seq<u8>)
    requires |bytes| % 4 == 0
    ensures Swapped(Swapped(bytes)) == bytes
  {
    var s := Swapped(bytes);
    forall i | 0 <= i < |bytes| ensures Swapped(s)[i] == bytes[i] {
      var j := i / 4 * 4 + 3 - i % 4;
      assert j / 4 == i / 4 && j % 4 == 3 - i % 4;
      assert s[j] == bytes[j / 4 * 4 + 3 - j % 4];
    }
  }

  /** The iterator over the bytes. */
  class ByteIter {
    const bytes: seq<u8>
    var pos: nat

    ghost predicate Valid()
      reads this
    {
      |bytes| % 4 == 0 && pos <= |bytes|
    }

    /** All that it yields from the start. */
    ghost function Stream(): (s: seq<u8>)
      reads this
      requires Valid()
      ensures |s| == |bytes|
    {
      Swapped(bytes)
    }

    constructor (bytes: seq<u8>)
      requires |bytes| % 4 == 0
      ensures Valid() && pos == 0 && this.bytes == bytes
    {
      this.bytes := bytes;
      pos := 0;
    }

    method Next() returns (r: Option<u8>)
      requires Valid()
      modifies this
      ensures Valid()
      ensures r == if old(pos) < |bytes| then Some(Stream()[old(pos)]) else None
      ensures pos == if old(pos) < |bytes| then old(pos) + 1 else old(pos)
    {
      if pos >= |bytes| {
        return None;
      }
      var wordPos := pos / 4;
      var bytePos := 3 - pos % 4;
      pos := pos + 1;
      return Some(bytes[wordPos * 4 + bytePos]);
    }
  }
}
