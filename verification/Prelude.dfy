/** Shared value types: optional results, bytes, and unsigned machine integers. */
module Prelude {

  datatype Option<+T> = None | Some(value: T)

  /** An octet on the wire. */
  type byte = x: int | 0 <= x < 256

  const COLON: byte := 58

  const U16_MAX := 0xFFFF
  const U32_MAX := 0xFFFF_FFFF

  /** A TCP port (`u16`). */
  type Port = x: int | 0 <= x <= 0xFFFF

  function Min(a: int, b: int): (r: int)
  {
    if a <= b then a else b
  }

  /** Concatenation is associative. */
  lemma Regroup<T>(a: seq<T>, b: seq<T>, c: seq<T>)
    ensures a + (b + c) == (a + b) + c
  {
  }

  /** A concatenation is cut back into its two parts. */
  lemma CutBack<T>(a: seq<T>, b: seq<T>)
    ensures (a + b)[..|a|] == a && (a + b)[|a|..] == b
  {
  }
}
