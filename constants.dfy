/**
 * `getRandom`: pick the element at `r % list.length`, where `r` is one 32-bit
 * word drawn by `crypto.getRandomValues` (here a parameter).
 */
module Constants {
  import opened Wrappers

  /** An element of a `Uint32Array`. */
  type U32 = x: int | 0 <= x < 0x1_0000_0000

  /**
   * `list[r % list.length]`. On an empty list the index is `NaN` and the lookup
   * yields `undefined`, here `None`.
   */
  function GetRandom<T>(list: seq<T>, r: U32): (x: Option<T>)
    ensures x.Some? <==> |list| > 0
    ensures x.Some? ==> x.value in list
  {
    if |list| == 0 then None else Some(list[r % |list|])
  }

  /** The computed index `r % len` lies in `[0, len)` and is the one drawn. */
  lemma GetRandomIndex<T>(list: seq<T>, r: U32)
    requires |list| > 0
    ensures 0 <= r % |list| < |list|
    ensures GetRandom(list, r) == Some(list[r % |list|])
  {
  }

  /** A one-element list always yields its only element, whatever was drawn. */
  lemma GetRandomSingleton<T>(x: T, r: U32)
    ensures GetRandom([x], r) == Some(x)
  {
  }

  /** Every element can be drawn: the draw equal to its index picks it. */
  lemma GetRandomReachesEvery<T>(list: seq<T>, i: nat)
    requires i < |list|
    ensures i < 0x1_0000_0000 ==> GetRandom(list, i) == Some(list[i])
  {
  }
}
