/** The two JavaScript built-ins the core leans on: an absent value
    (`undefined` returned by `Map.get` and `Array.find`) and the index
    arithmetic of `Array.prototype.slice` / `String.prototype.slice`. */
module Builtins {

  datatype Option<+T> = None | Some(value: T)

  /** How `slice` turns one of its arguments into a position: a negative
      index counts back from the end, and the result is clamped to [0, len]. */
  function RelativeIndex(i: int, len: nat): (k: nat)
    ensures k <= len
  {
    if i < 0 then (if len + i < 0 then 0 else len + i)
    else if i > len then len
    else i
  }

  /** `s.slice(start, end)`: the run between the two relative positions,
      empty when they cross. */
  function Slice<T>(s: seq<T>, start: int, end: int): (r: seq<T>)
    ensures RelativeIndex(start, |s|) + |r| <= |s|
    ensures r == s[RelativeIndex(start, |s|)..RelativeIndex(start, |s|) + |r|]
    ensures |r| == if RelativeIndex(start, |s|) < RelativeIndex(end, |s|)
                   then RelativeIndex(end, |s|) - RelativeIndex(start, |s|) else 0
  {
    var from := RelativeIndex(start, |s|);
    var to := RelativeIndex(end, |s|);
    if from < to then s[from..to] else []
  }

  /** `s.slice(0, n)` is a prefix of s: the first n elements for n >= 0,
      and all but the last -n elements for n < 0. */
  lemma SlicePrefix<T>(s: seq<T>, n: int)
    ensures Slice(s, 0, n) == s[..RelativeIndex(n, |s|)]
    ensures n >= 0 ==> |Slice(s, 0, n)| == if n < |s| then n else |s|
    ensures n < 0 ==> |Slice(s, 0, n)| == if |s| + n < 0 then 0 else |s| + n
  {
  }
}
