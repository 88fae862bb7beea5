/**
 Values that may be missing, and the ends of sequences.
 */
module Options {

  datatype Option<+T> = None | Some(value: T)

  /** The first n elements of s, or all of it. */
  function Take<T>(s: seq<T>, n: nat): seq<T>
  {
    if |s| <= n then s else s[..n]
  }

  /** The last n elements of s, or all of it. */
  function TakeLast<T>(s: seq<T>, n: nat): (r: seq<T>)
    ensures |r| <= n
  {
    if |s| <= n then s else s[|s| - n..]
  }

  /** Both have n elements, or as many as there are. */
  lemma EndsExactly<T>(s: seq<T>, n: nat)
    ensures |Take(s, n)| == (if |s| < n then |s| else n) && Take(s, n) <= s
    ensures |TakeLast(s, n)| == |Take(s, n)| && TakeLast(s, n) == s[|s| - |TakeLast(s, n)|..]
  {
  }
}
