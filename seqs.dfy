/** Facts about sequence concatenation shared by the list-building code. */
module Seqs {

  lemma ConcatAssoc<T>(a: seq<T>, b: seq<T>, c: seq<T>)
    ensures (a + b) + c == a + (b + c)
  {
  }

  /** A non-empty sequence is its first element followed by the rest. */
  lemma SplitFirst<T>(s: seq<T>)
    requires s != []
    ensures s == [s[0]] + s[1..]
  {
  }
}
