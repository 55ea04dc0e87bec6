/** Sums, prefix sums, scaling and sorting of `seq<real>`, the list operations
    (`sum()`, `map { it * k }`, `sorted()`) the dial and timer code rely on. */
module RealSeqs {

  /** Kotlin `List<Float>.sum()`, in exact arithmetic. */
  function Sum(s: seq<real>): real
  {
    if |s| == 0 then 0.0 else s[0] + Sum(s[1..])
  }

  /** The sum of the first `i` entries: where entry `i` starts on a cumulative axis. */
  function Prefix(s: seq<real>, i: nat): real
    requires i <= |s|
  {
    Sum(s[..i])
  }

  /** Every entry is non-negative. */
  predicate AllNonNeg(s: seq<real>) {
    forall i :: 0 <= i < |s| ==> 0.0 <= s[i]
  }

  /** Kotlin `map { it * k }`. */
  function Scale(s: seq<real>, k: real): (r: seq<real>)
    ensures |r| == |s|
    ensures forall i :: 0 <= i < |s| ==> r[i] == s[i] * k
  {
    seq(|s|, i requires 0 <= i < |s| => s[i] * k)
  }

  /** Entries are in ascending order. */
  predicate Ascending(s: seq<real>) {
    forall i, j :: 0 <= i < j < |s| ==> s[i] <= s[j]
  }

  lemma {:induction false} SumAppend(a: seq<real>, b: seq<real>)
    ensures Sum(a + b) == Sum(a) + Sum(b)
    decreases |a|
  {
    if |a| == 0 {
      assert a + b == b;
    } else {
      assert (a + b)[1..] == a[1..] + b;
      SumAppend(a[1..], b);
    }
  }

  /** Extending a prefix by one entry adds that entry. */
  lemma PrefixStep(s: seq<real>, i: nat)
    requires i < |s|
    ensures Prefix(s, i + 1) == Prefix(s, i) + s[i]
  {
    assert s[..i + 1] == s[..i] + [s[i]];
    SumAppend(s[..i], [s[i]]);
  }

  /** The prefix of a tail, shifted back onto the whole list. */
  lemma PrefixOfTail(s: seq<real>, i: nat)
    requires 0 < |s| && i < |s|
    ensures s[0] + Prefix(s[1..], i) == Prefix(s, i + 1)
  {
    assert s[..i + 1] == [s[0]] + s[1..][..i];
    SumAppend([s[0]], s[1..][..i]);
  }

  lemma {:induction false} SumNonNeg(s: seq<real>)
    requires AllNonNeg(s)
    ensures 0.0 <= Sum(s)
    decreases |s|
  {
    if |s| > 0 {
      SumNonNeg(s[1..]);
    }
  }

  /** With non-negative entries, prefix sums never decrease. */
  lemma {:induction false} PrefixMonotone(s: seq<real>, i: nat, j: nat)
    requires AllNonNeg(s)
    requires i <= j <= |s|
    ensures Prefix(s, i) <= Prefix(s, j)
    decreases j - i
  {
    if i < j {
      PrefixMonotone(s, i, j - 1);
      PrefixStep(s, j - 1);
    }
  }

  /** With non-negative entries, every prefix sum is at most the total. */
  lemma PrefixAtMostSum(s: seq<real>, i: nat)
    requires AllNonNeg(s)
    requires i <= |s|
    ensures 0.0 <= Prefix(s, i) <= Sum(s)
  {
    PrefixMonotone(s, 0, i);
    PrefixMonotone(s, i, |s|);
    assert s[..|s|] == s;
    assert s[..0] == [];
  }

  lemma {:induction false} SumScale(s: seq<real>, k: real)
    ensures Sum(Scale(s, k)) == Sum(s) * k
    decreases |s|
  {
    if |s| > 0 {
      var a, b := Scale(s, k)[1..], Scale(s[1..], k);
      assert |a| == |b|;
      forall i | 0 <= i < |a|
        ensures a[i] == b[i]
      {
        assert a[i] == Scale(s, k)[i + 1] == s[i + 1] * k;
      }
      assert a == b;
      SumScale(s[1..], k);
    }
  }

  /** Scaling commutes with taking prefix sums. */
  lemma PrefixScale(s: seq<real>, k: real, i: nat)
    requires i <= |s|
    ensures Prefix(Scale(s, k), i) == Prefix(s, i) * k
  {
    var a, b := Scale(s, k)[..i], Scale(s[..i], k);
    forall j | 0 <= j < i
      ensures a[j] == b[j]
    {
      assert a[j] == Scale(s, k)[j] == s[j] * k;
    }
    assert a == b;
    SumScale(s[..i], k);
  }

  /** Putting a lower bound in front of an ascending list keeps it ascending. */
  lemma ConsAscending(h: real, t: seq<real>)
    requires Ascending(t)
    requires forall j :: 0 <= j < |t| ==> h <= t[j]
    ensures Ascending([h] + t)
  {
    var r := [h] + t;
    forall i, j | 0 <= i < j < |r|
      ensures r[i] <= r[j]
    {
      assert r[j] == t[j - 1];
      if i > 0 {
        assert r[i] == t[i - 1];
      }
    }
  }

  /** Inserting `x` into an ascending list. */
  function Insert(x: real, s: seq<real>): (r: seq<real>)
    requires Ascending(s)
    ensures Ascending(r)
    ensures multiset(r) == multiset(s) + multiset{x}
    ensures |r| == |s| + 1
  {
    if |s| == 0 then [x]
    else if x <= s[0] then
      ConsAscending(x, s);
      [x] + s
    else
      var tail := s[1..];
      assert s == [s[0]] + tail;
      var t := Insert(x, tail);
      forall j | 0 <= j < |t|
        ensures s[0] <= t[j]
      {
        assert t[j] in multiset(t);
        if t[j] != x {
          assert t[j] in multiset(tail);
          var k :| 0 <= k < |tail| && tail[k] == t[j];
          assert s[k + 1] == t[j];
        }
      }
      ConsAscending(s[0], t);
      [s[0]] + t
  }

  /** Kotlin `sorted()` on a list of floats: the ascending permutation. */
  function Sorted(s: seq<real>): (r: seq<real>)
    ensures Ascending(r)
    ensures multiset(r) == multiset(s)
    ensures |r| == |s|
  {
    if |s| == 0 then []
    else
      assert s == [s[0]] + s[1..];
      Insert(s[0], Sorted(s[1..]))
  }

  /** Every entry of the sorted list is an entry of the original. */
  lemma SortedMembers(s: seq<real>)
    ensures forall i :: 0 <= i < |Sorted(s)| ==> Sorted(s)[i] in s
  {
    var r := Sorted(s);
    forall i | 0 <= i < |r|
      ensures r[i] in s
    {
      assert r[i] in multiset(r);
    }
  }
}
