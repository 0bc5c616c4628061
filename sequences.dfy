/** A fact about sequences that the write loops and the search loop both need. */
module Sequences {

  /** Appending is associative; the loops that keep appending state it for one step at a time. */
  lemma AppendAssoc<T>(a: seq<T>, b: seq<T>, c: seq<T>)
    ensures (a + b) + c == a + (b + c)
  {
  }
}
