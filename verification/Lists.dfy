/** Lists without repetition, their sums, and how a set that only grows tracks them. */
module Lists {
  predicate Distinct<T(==)>(s: seq<T>) {
    forall i, j :: 0 <= i < j < |s| ==> s[i] != s[j]
  }

  function Elements<T>(s: seq<T>): set<T> {
    set x | x in s
  }

  lemma DistinctSnoc<T>(s: seq<T>, x: T)
    ensures Distinct(s + [x]) <==> Distinct(s) && x !in s
    ensures Elements(s + [x]) == Elements(s) + {x}
  {
    var t := s + [x];
    if Distinct(t) {
      forall i, j | 0 <= i < j < |s|
        ensures s[i] != s[j]
      {
        assert s[i] == t[i] && s[j] == t[j];
      }
      forall i | 0 <= i < |s|
        ensures s[i] != x
      {
        assert t[i] == s[i] && t[|s|] == x;
      }
    }
  }

  lemma DistinctPrefix<T>(s: seq<T>, t: seq<T>)
    requires Distinct(s + t)
    ensures Distinct(s)
  {
    forall i, j | 0 <= i < j < |s|
      ensures s[i] != s[j]
    {
      assert (s + t)[i] == s[i] && (s + t)[j] == s[j];
    }
  }

  /** No repetition, counted: each value occurs at most once. */
  lemma {:induction false} DistinctCounts<T>(s: seq<T>)
    ensures Distinct(s) <==> forall x :: multiset(s)[x] <= 1
  {
    if s != [] {
      var n := |s| - 1;
      var before := s[..n];
      assert s == before + [s[n]];
      DistinctSnoc(before, s[n]);
      DistinctCounts(before);
      CountSnoc(before, s[n]);
    }
  }

  lemma CountSnoc<T>(s: seq<T>, x: T)
    ensures (forall y :: multiset(s + [x])[y] <= 1) <==> (forall y :: multiset(s)[y] <= 1) && x !in s
  {
    assert multiset(s + [x]) == multiset(s) + multiset{x};
    if forall y :: multiset(s + [x])[y] <= 1 {
      forall y
        ensures multiset(s)[y] <= 1
      {
        assert multiset(s + [x])[y] <= 1;
      }
      assert multiset(s + [x])[x] <= 1;
    }
  }

  /**
   Lists that together hold the same values as `a` and `b` repeat nothing
   exactly when neither `a` nor `b` does and they share nothing.
   */
  lemma DistinctUnion<T>(whole: seq<T>, a: seq<T>, b: seq<T>)
    requires multiset(whole) == multiset(a) + multiset(b)
    ensures Distinct(whole) <==> Distinct(a) && Distinct(b) && forall x :: x in a ==> x !in b
  {
    DistinctCounts(whole);
    DistinctCounts(a);
    DistinctCounts(b);
    if Distinct(whole) {
      forall x
        ensures multiset(a)[x] <= 1 && multiset(b)[x] <= 1 && (x in a ==> x !in b)
      {
        assert multiset(whole)[x] <= 1;
      }
    }
    if Distinct(a) && Distinct(b) && forall x :: x in a ==> x !in b {
      forall x
        ensures multiset(whole)[x] <= 1
      {
        assert x in multiset(a) <==> x in a;
        assert multiset(a)[x] <= 1 && multiset(b)[x] <= 1;
      }
    }
  }

  function Sum(s: seq<int>): int {
    if s == [] then 0 else Sum(s[..|s| - 1]) + s[|s| - 1]
  }

  /** The least number of a list, or zero for none. */
  function Least(s: seq<nat>): (m: nat)
    ensures s != [] ==> m in s && forall i :: 0 <= i < |s| ==> m <= s[i]
  {
    if s == [] then 0
    else if |s| == 1 then s[0]
    else
      var m, last := Least(s[..|s| - 1]), s[|s| - 1];
      assert s == s[..|s| - 1] + [last];
      if m <= last then m else last
  }

  /** The greatest number of a list, or zero for none. */
  function Greatest(s: seq<nat>): (m: nat)
    ensures s != [] ==> m in s && forall i :: 0 <= i < |s| ==> s[i] <= m
  {
    if s == [] then 0
    else if |s| == 1 then s[0]
    else
      var m, last := Greatest(s[..|s| - 1]), s[|s| - 1];
      assert s == s[..|s| - 1] + [last];
      if last <= m then m else last
  }

  lemma SumSnoc(s: seq<int>, x: int)
    ensures Sum(s + [x]) == Sum(s) + x
  {
    assert (s + [x])[..|s|] == s;
  }

  lemma {:induction false} SumMonotone(s: seq<int>, t: seq<int>)
    requires |s| == |t| && forall i :: 0 <= i < |s| ==> 0 <= s[i] <= t[i]
    ensures 0 <= Sum(s) <= Sum(t)
  {
    if s != [] {
      SumMonotone(s[..|s| - 1], t[..|t| - 1]);
    }
  }
}
