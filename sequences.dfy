/** Small facts about sequence concatenation that the proofs use in many
    places; each is kept in a lemma of its own so that the solver meets it
    in a small context. */
module Sequences {

  lemma Associate<T>(a: seq<T>, b: seq<T>, c: seq<T>)
    ensures a + b + c == a + (b + c)
  {
  }

  lemma EmptyPlus<T>(s: seq<T>)
    ensures [] + s == s
  {
  }

  lemma AppendInitLast<T>(a: seq<T>, s: seq<T>)
    requires s != []
    ensures a + s[..|s| - 1] + [s[|s| - 1]] == a + s
  {
  }

  /** Dropping the last element of `a + b` drops the last element of `b`. */
  lemma SnocSplit<T>(a: seq<T>, b: seq<T>)
    requires b != []
    ensures (a + b)[..|a + b| - 1] == a + b[..|b| - 1]
    ensures (a + b)[|a + b| - 1] == b[|b| - 1]
  {
  }
}
