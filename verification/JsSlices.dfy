/** JavaScript's `slice` on strings and arrays, for bounds that are not negative. */
module JsSlices {
  /** `s.slice(-n)`: for n = 0 that is all of `s`. */
  function SliceLast<T>(s: seq<T>, n: nat): seq<T> {
    if n == 0 || |s| <= n then s else s[|s| - n..]
  }

  /** `s.slice(0, n)` */
  function SliceFirst<T>(s: seq<T>, n: nat): seq<T> {
    if |s| <= n then s else s[..n]
  }
}
