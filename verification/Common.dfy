/** What the modules share: machine words and optional values. */
module Common {

  type u32 = x: int | 0 <= x < 0x1_0000_0000

  datatype Option<T> = None | Some(value: T)

  /** 32-bit addition. */
  function Plus(x: u32, n: int): u32
  {
    var y: int := x;
    (y + n) % 0x1_0000_0000
  }
}
