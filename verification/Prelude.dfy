/** Small shared vocabulary: optional values, error returns, and sequences without repetition. */
module Prelude {

  datatype Option<+T> = None | Some(value: T)

  datatype Result<+T, +E> = Ok(value: T) | Err(error: E)

  ghost predicate Distinct<T(!new)>(s: seq<T>) {
    forall i, j :: 0 <= i < j < |s| ==> s[i] != s[j]
  }

  /** The different elements of s, each where it first appears: the keys of a dictionary filled from s. */
  function FirstOccurrences<T(==)>(s: seq<T>): seq<T> {
    if s == [] then []
    else
      var kept := FirstOccurrences(s[..|s| - 1]);
      if s[|s| - 1] in kept then kept else kept + [s[|s| - 1]]
  }

  lemma FirstOccurrencesSnoc<T>(s: seq<T>, x: T)
    ensures FirstOccurrences(s + [x]) == if x in FirstOccurrences(s) then FirstOccurrences(s)
      else FirstOccurrences(s) + [x]
  {
    assert (s + [x])[..|s|] == s;
  }

  lemma {:induction false} FirstOccurrencesKeepsElements<T(!new)>(s: seq<T>)
    ensures Distinct(FirstOccurrences(s))
    ensures forall x :: x in FirstOccurrences(s) <==> x in s
  {
    if s != [] {
      var init, last := s[..|s| - 1], s[|s| - 1];
      FirstOccurrencesKeepsElements(init);
      assert s == init + [last];
    }
  }

  ghost function Elements<T>(s: seq<T>): set<T> {
    set x | x in s
  }

  /** The members of a set in some order: what iterating over it yields. */
  method Enumerate<T(==)>(s: set<T>) returns (q: seq<T>)
    ensures Elements(q) == s && |q| == |s|
  {
    q := [];
    var rest := s;
    while rest != {}
      invariant rest <= s && Elements(q) == s - rest && |q| + |rest| == |s|
      decreases |rest|
    {
      var x :| x in rest;
      assert Elements(q + [x]) == Elements(q) + {x};
      q, rest := q + [x], rest - {x};
    }
  }
}
