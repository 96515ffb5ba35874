/** Optional values and operations that may raise. */
module Wrappers {
  datatype Option<+T> = None | Some(value: T)

  datatype Result<+T, +E> = Ok(value: T) | Err(error: E)
}

/** Facts about slices and concatenations, over any element type. */
module Slices {
  lemma Associative<T>(a: seq<T>, b: seq<T>, c: seq<T>)
    ensures a + b + c == a + (b + c)
  {
  }

  lemma TakeOfTake<T>(s: seq<T>, k: nat, n: nat)
    requires k <= n <= |s|
    ensures s[..n][..k] == s[..k]
  {
  }

  lemma TakeOfAppend<T>(a: seq<T>, b: seq<T>, n: nat)
    requires |a| <= n <= |a| + |b|
    ensures (a + b)[..n] == a + b[..n - |a|]
  {
  }

  lemma UpdateInMiddle<T>(front: seq<T>, x: T, tail: seq<T>, y: T)
    ensures (front + [x] + tail)[|front| := y] == front + [y] + tail
  {
  }

  lemma TakeFromHead<T>(s: seq<T>, k: nat)
    requires k < |s|
    ensures s[..k + 1] == [s[0]] + s[1..][..k]
  {
  }

  lemma WholeFromHead<T>(s: seq<T>)
    requires s != []
    ensures s == [s[0]] + s[1..] && s[1..][..|s| - 1] == s[1..]
  {
  }
}
