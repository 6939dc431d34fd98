/**
 Facts about appending, to be used one at a time.
 */
module Sequences {
  lemma Regrouped<T>(a: seq<T>, b: seq<T>, c: seq<T>)
    ensures a + b + c == a + (b + c)
  {}

  lemma NothingAdded<T>(a: seq<T>)
    ensures a + [] == a
  {}
}
