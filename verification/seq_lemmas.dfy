/** Small facts about sequences that the proofs of several modules lean on. */
module SeqLemmas {
  /** Concatenation regroups freely. */
  lemma AppendAssoc<T>(a: seq<T>, b: seq<T>, c: seq<T>)
    ensures a + (b + c) == (a + b) + c
  {
  }
}
