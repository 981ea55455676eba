/** Vocabulary shared by every layer of the stack. */
module Bytes {
  newtype byte = x: int | 0 <= x < 256

  type bytes = seq<byte>

  datatype Option<+T> = None | Some(value: T)

  /** `s` is a prefix of `t`, but not all of it. */
  predicate StrictPrefix(s: bytes, t: bytes) {
    |s| < |t| && s == t[..|s|]
  }

  lemma Associative<T>(a: seq<T>, b: seq<T>, c: seq<T>)
    ensures a + b + c == a + (b + c)
  {
  }
}
