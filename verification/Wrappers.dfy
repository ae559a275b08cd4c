/** Shared by the other modules. */
module Wrappers {
  datatype Option<T> = None | Some(value: T)

  function Min(a: int, b: int): int {
    if a < b then a else b
  }

  function Max(a: int, b: int): int {
    if a < b then b else a
  }

  lemma Assoc<T>(a: seq<T>, b: seq<T>, c: seq<T>)
    ensures (a + b) + c == a + (b + c)
  {
  }

  lemma Front<T>(a: seq<T>, b: seq<T>)
    ensures (a + b)[..|a|] == a
    ensures (a + b)[|a|..] == b
  {
  }

  lemma TakeDrop<T>(a: seq<T>, n: nat)
    requires n <= |a|
    ensures a[..n] + a[n..] == a
  {
  }

  /** A multiple of `n` is 0 or at least as far from 0 as `n`. */
  lemma {:induction false} AtLeast(a: int, n: nat)
    ensures a == 0 || a * n >= n || a * n <= 0 - n
    decreases if a > 0 then a else -a
  {
    if a > 1 { AtLeast(a - 1, n); } else if a < -1 { AtLeast(a + 1, n); }
  }
}
