/** Types shared by the components. */
module Basics {
  datatype Option<+T> = None | Some(value: T)

  /** uint8_t. */
  type byte = x: int | 0 <= x < 256

  /** The first `n` elements, or all when there are fewer. */
  function Cut<T>(s: seq<T>, n: nat): (r: seq<T>)
    ensures r <= s
  {
    if n <= |s| then s[..n] else s
  }

  lemma Regroup<T>(x: seq<T>, y: seq<T>, z: seq<T>)
    ensures x + (y + z) == (x + y) + z
  {
  }
}
