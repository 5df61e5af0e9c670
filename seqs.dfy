/** Facts about sequence concatenation shared by the list operations. */
module Seqs {
  lemma AppendAssoc<T>(a: seq<T>, b: seq<T>, c: seq<T>)
    ensures a + (b + c) == a + b + c
  {
  }

  /** A non-empty sequence with an element appended, split at its head. */
  lemma ConsAppend<T>(s: seq<T>, x: T)
    requires s != []
    ensures s == [s[0]] + s[1..]
    ensures s + [x] == [s[0]] + (s[1..] + [x])
  {
  }
}
