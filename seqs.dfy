/**
 * Facts about sequence concatenation, stated apart from any model so that
 * proofs about long lists of model values can appeal to them in a small
 * context.
 */
module Seqs {
  lemma AppendAssoc<T>(a: seq<T>, b: seq<T>, c: seq<T>)
    ensures (a + b) + c == a + (b + c)
  {
  }

  lemma ConsTail<T>(s: seq<T>)
    requires s != []
    ensures [s[0]] + s[1..] == s
  {
  }

  lemma ConsSnoc<T>(m: seq<T>, y: T)
    requires m != []
    ensures m + [y] == [m[0]] + (m[1..] + [y])
  {
  }
}
