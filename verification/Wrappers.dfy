/** Shared small types. */
module Wrappers {
  datatype Option<T> = None | Some(value: T)

  /** Concatenation is associative; called where a proof has to see it. */
  lemma Regroup<T>(a: seq<T>, b: seq<T>, c: seq<T>)
    ensures a + b + c == a + (b + c)
  {
  }

  /** A prefix of a concatenation. */
  lemma Prefix<T>(a: seq<T>, b: seq<T>, n: nat)
    requires n <= |a + b|
    ensures (a + b)[..n] == if n <= |a| then a[..n] else a + b[..n - |a|]
  {
  }
}
