// Sets read in some order, as Go reads the keys of a map.
module Listings {

  // xs names every member of s once.
  ghost predicate Enumerates<T>(xs: seq<T>, s: set<T>) {
    && (forall x :: x in xs ==> x in s)
    && (forall x :: x in s ==> x in xs)
    && forall i, j :: 0 <= i < j < |xs| ==> xs[i] != xs[j]
  }

  function Names(xs: seq<string>): set<string> {
    set x | x in xs
  }

  lemma EnumeratedNames(xs: seq<string>, s: set<string>)
    requires Enumerates(xs, s)
    ensures Names(xs) == s
  {}
}
