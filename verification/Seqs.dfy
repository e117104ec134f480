// Sequence identities, kept apart so that proofs about long concatenations
// can cite them one at a time.

module Seqs {

  lemma EmptyLeft<T>(s: seq<T>)
    ensures [] + s == s
  {
  }

  lemma EmptyRight<T>(s: seq<T>)
    ensures s + [] == s
  {
  }

  lemma SplitLast<T>(s: seq<T>)
    requires s != []
    ensures s[..|s| - 1] + [s[|s| - 1]] == s
  {
  }

  lemma Assoc<T>(a: seq<T>, b: seq<T>, c: seq<T>)
    ensures (a + b) + c == a + (b + c)
  {
  }

  // Moving the first element over does not disturb the rest but one.
  lemma ShiftInit<T>(a: seq<T>, s: seq<T>)
    requires |s| > 1
    ensures (a + [s[0]]) + s[1..][..|s[1..]| - 1] == a + s[..|s| - 1]
    ensures s[1..][|s[1..]| - 1] == s[|s| - 1]
  {
  }
}
