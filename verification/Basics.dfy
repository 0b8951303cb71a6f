/** Bytes, parameter codes and results shared by every component. */
module Basics {

  type byte = b: int | 0 <= b < 256
  type Bytes = seq<byte>

  /** A 16-bit parameter code: page in the high byte, address in the low byte. */
  type Code = c: int | 0 <= c < 0x10000

  type Word = n: int | 0 <= n < 0x10000

  /** One parameter with its value bytes, as listed in a data section. */
  datatype Entry = Entry(code: Code, value: Bytes)

  datatype Option<+T> = None | Some(value: T)

  /** The client's error kinds. `Crash` stands for an index past the end of a buffer. */
  datatype Error =
    | Connection
    | Checksum
    | Protocol
    | Value
    | UnsupportedParams(codes: seq<Code>)
    | Crash

  datatype Result<+T> = Ok(value: T) | Err(error: Error) {
    predicate IsFailure() { Err? }
    function PropagateFailure<U>(): Result<U>
      requires Err?
    {
      Err(error)
    }
    function Extract(): T
      requires Ok?
    {
      value
    }
  }

  function Page(c: Code): byte { c / 256 }

  function Addr(c: Code): byte { c % 256 }

  function CodeAt(page: byte, addr: byte): Code { page * 256 + addr }

  /** The suffix that starts at index `i`, empty when `i` has run past the end. */
  function From(s: Bytes, i: nat): Bytes {
    if i <= |s| then s[i..] else []
  }

  /** Little-endian value of a byte string. */
  function FromBytes(s: Bytes): nat {
    if s == [] then 0 else s[0] + 256 * FromBytes(s[1..])
  }

  /** The low `size` bytes of `n`, least significant first. */
  function ToBytes(n: nat, size: nat): (s: Bytes)
    ensures |s| == size
    decreases size
  {
    if size == 0 then []
    else
      var low: byte := n % 256;
      [low] + ToBytes(n / 256, size - 1)
  }

  function Pow256(size: nat): (p: nat)
    ensures p > 0
  {
    if size == 0 then 1 else 256 * Pow256(size - 1)
  }

  function Max(a: int, b: int): int { if a >= b then a else b }

  function Min(a: int, b: int): int { if a <= b then a else b }
}
