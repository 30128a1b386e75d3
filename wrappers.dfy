/** Option and Result: a value that may be missing, and an outcome that may be an error. */
module Wrappers {

  /** A value that may be absent: a missing dictionary key, a missing HTML element,
      or a request that raised. */
  datatype Option<+T> = None | Some(value: T) {
    function GetOr(default: T): T {
      match this
      case Some(v) => v
      case None => default
    }
  }

  /** The outcome of a call that may raise. */
  datatype Result<+T, +E> = Ok(value: T) | Err(error: E)
}

/** Python's prefix slice `s[:n]`, including its meaning for a negative `n`. */
module Seqs {

  /** `s[:n]`: the first `n` elements when `n >= 0`, all but the last `-n` when `n < 0`. */
  function SliceTo<T>(s: seq<T>, n: int): (r: seq<T>)
    ensures |r| <= |s|
    ensures 0 <= n ==> |r| == if n < |s| then n else |s|
    ensures n < 0 ==> |r| == if |s| + n < 0 then 0 else |s| + n
    ensures r == s[..|r|]
  {
    if 0 <= n then
      (if n < |s| then s[..n] else s)
    else
      (if |s| + n < 0 then [] else s[..|s| + n])
  }

  /** A slice with a stop at least as long as the sequence is the identity. */
  lemma SliceToAll<T>(s: seq<T>, n: int)
    requires |s| <= n
    ensures SliceTo(s, n) == s
  {
  }

  /** Slicing a concatenation at a stop no longer than the left part only sees the left part. */
  lemma SliceToAppend<T>(a: seq<T>, b: seq<T>, n: int)
    requires 0 <= n
    ensures SliceTo(a + b, n) == if n <= |a| then SliceTo(a, n) else a + SliceTo(b, n - |a|)
  {
    if n <= |a| {
      assert (a + b)[..n] == a[..n];
    } else if n < |a| + |b| {
      assert (a + b)[..n] == a + b[..n - |a|];
    }
  }

  /** An account `done + whole` whose `whole` starts with `step` is `done + step` followed by
      the rest of `whole`. */
  lemma Regroup<T>(done: seq<T>, step: seq<T>, rest: seq<T>, whole: seq<T>)
    requires whole == step + rest
    ensures done + whole == (done + step) + rest
  {
  }
}
