/** Types shared by all parts of the model. */
module Prelude {
  type Byte = b: int | 0 <= b < 256

  datatype Option<+T> = None | Some(value: T)

  /** Conversion of an int to unsigned char: the value in range that differs from
      it by a multiple of 256. */
  function ToByte(c: int): (b: Byte)
    ensures 0 <= c < 256 ==> b == c
    ensures (c - b) % 256 == 0
  {
    c % 256
  }

  function Min(a: int, b: int): int {
    if a <= b then a else b
  }

  function Max(a: int, b: int): int {
    if a <= b then b else a
  }

  function Last<T>(s: seq<T>): T
    requires s != []
  {
    s[|s| - 1]
  }

  function Front<T>(s: seq<T>): seq<T>
    requires s != []
  {
    s[..|s| - 1]
  }
}
