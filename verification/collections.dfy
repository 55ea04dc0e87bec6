/** Small facts about lists used as logs of events: their elements,
    whether an element repeats, and where a permuted entry came from. */
module Collections {

  /** The elements of a list. */
  function Elems<T>(s: seq<T>): set<T>
  {
    set x | x in s
  }

  /** No element appears twice. */
  predicate Distinct<T(==)>(s: seq<T>) {
    forall i, j :: 0 <= i < j < |s| ==> s[i] != s[j]
  }

  /** Two lists without repeats and without a common element concatenate
      into a list without repeats. */
  lemma DistinctAppend<T>(a: seq<T>, b: seq<T>)
    requires Distinct(a) && Distinct(b)
    requires forall x :: x in a ==> x !in b
    ensures Distinct(a + b)
  {
    forall i, j | 0 <= i < j < |a + b|
      ensures (a + b)[i] != (a + b)[j]
    {
      if j >= |a| && i < |a| {
        assert (a + b)[i] in a;
        assert (a + b)[j] == b[j - |a|];
      }
    }
  }

  /** The head of a non-empty list is one of its elements. */
  lemma HeadIsElement<T>(s: seq<T>)
    ensures |s| > 0 ==> s[0] in s
  {
  }

  /** An entry of a permutation of `b` sits at some index of `b`. */
  lemma PermutedIndex<T>(a: seq<T>, b: seq<T>, j: nat) returns (i: nat)
    requires multiset(a) == multiset(b) && j < |a|
    ensures i < |b| && b[i] == a[j]
  {
    assert a[j] in multiset(b);
    i :| i < |b| && b[i] == a[j];
  }

  lemma ElemsAppend<T>(a: seq<T>, b: seq<T>)
    ensures Elems(a + b) == Elems(a) + Elems(b)
  {
  }
}
