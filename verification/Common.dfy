/** Machine integers and the result types shared by every layer. */
module Common {

  type byte = b: int | 0 <= b < 0x100
  type u16 = x: int | 0 <= x < 0x1_0000
  type u32 = x: int | 0 <= x < 0x1_0000_0000

  /** A string is its UTF-8 bytes; validity is a separate predicate (module Utf8). */
  type Str = seq<byte>

  datatype Option<+T> = None | Some(value: T)

  datatype Result<+T, +E> = Ok(value: T) | Err(error: E) {
    predicate IsFailure() {
      Err?
    }

    function PropagateFailure<U>(): Result<U, E>
      requires Err?
    {
      Err(error)
    }

    function Extract(): T
      requires Ok?
    {
      value
    }
  }

  /** The `as u32` cast of a length: a length below 2^32 is kept. */
  function Cast32(x: nat): (y: u32)
    ensures x < 0x1_0000_0000 ==> y == x
  {
    x % 0x1_0000_0000
  }

  /** Big-endian 16-bit integers: `u16::from_be_bytes` and `u16::to_be_bytes`. */
  function FromBe(hi: byte, lo: byte): u16 {
    hi * 0x100 + lo
  }

  function ToBe(x: u16): seq<byte> {
    [x / 0x100, x % 0x100]
  }

  lemma BeRoundTrip(x: u16, hi: byte, lo: byte)
    ensures FromBe(ToBe(x)[0], ToBe(x)[1]) == x
    ensures ToBe(FromBe(hi, lo)) == [hi, lo]
  {
  }
}
