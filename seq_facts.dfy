/**
 * Small facts about sequences that several modules lean on. Stating them
 * once, as lemmas, keeps each caller's proof from reasoning about the
 * sequence axioms in its own, larger context.
 */
module SeqFacts {
  /** A prefix one longer is the shorter prefix and the next element. */
  lemma PrefixSnoc<T>(s: seq<T>, i: nat)
    requires i < |s|
    ensures s[..i + 1] == s[..i] + [s[i]]
  {
  }

  /** Concatenation is associative. */
  lemma AppendAssoc<T>(a: seq<T>, b: seq<T>, c: seq<T>)
    ensures a + b + c == a + (b + c)
  {
  }
}
