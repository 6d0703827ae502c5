/** Sorting by a text key, as a built-in stable sort does, and why a sorted list is unique. */
module Sorting {
  /** Character-by-character order on text; a proper prefix comes first. */
  predicate AtMost(s: string, t: string) {
    s == "" || (t != "" && (s[0] < t[0] || (s[0] == t[0] && AtMost(s[1..], t[1..]))))
  }

  lemma {:induction false} AtMostTotal(s: string, t: string)
    ensures AtMost(s, t) || AtMost(t, s)
  {
    if s != "" && t != "" && s[0] == t[0] {
      AtMostTotal(s[1..], t[1..]);
    }
  }

  lemma {:induction false} AtMostAntisymmetric(s: string, t: string)
    requires AtMost(s, t) && AtMost(t, s)
    ensures s == t
  {
    if s != "" && t != "" {
      AtMostAntisymmetric(s[1..], t[1..]);
      assert s == [s[0]] + s[1..] && t == [t[0]] + t[1..];
    }
  }

  lemma {:induction false} AtMostTransitive(s: string, t: string, u: string)
    requires AtMost(s, t) && AtMost(t, u)
    ensures AtMost(s, u)
  {
    if s != "" && t != "" && u != "" && s[0] == t[0] == u[0] {
      AtMostTransitive(s[1..], t[1..], u[1..]);
    }
  }

  ghost predicate Sorted<T(!new)>(s: seq<T>, key: T -> string) {
    forall i, j :: 0 <= i < j < |s| ==> AtMost(key(s[i]), key(s[j]))
  }

  function Insert<T>(s: seq<T>, x: T, key: T -> string): seq<T> {
    if s == [] then [x]
    else if AtMost(key(s[|s| - 1]), key(x)) then s + [x]
    else Insert(s[..|s| - 1], x, key) + [s[|s| - 1]]
  }

  function Sort<T>(s: seq<T>, key: T -> string): seq<T> {
    if s == [] then [] else Insert(Sort(s[..|s| - 1], key), s[|s| - 1], key)
  }

  lemma DropLast<T>(s: seq<T>)
    requires s != []
    ensures multiset(s) == multiset(s[..|s| - 1]) + multiset{s[|s| - 1]}
    ensures multiset(s[..|s| - 1]) == multiset(s) - multiset{s[|s| - 1]}
  {
    assert s == s[..|s| - 1] + [s[|s| - 1]];
  }

  lemma {:induction false} InsertHolds<T>(s: seq<T>, x: T, key: T -> string)
    ensures multiset(Insert(s, x, key)) == multiset(s) + multiset{x}
  {
    if s != [] {
      DropLast(s);
      InsertHolds(s[..|s| - 1], x, key);
    }
  }

  lemma {:induction false} SortHolds<T>(s: seq<T>, key: T -> string)
    ensures multiset(Sort(s, key)) == multiset(s)
  {
    if s != [] {
      DropLast(s);
      SortHolds(s[..|s| - 1], key);
      InsertHolds(Sort(s[..|s| - 1], key), s[|s| - 1], key);
    }
  }

  lemma SortedSnoc<T(!new)>(s: seq<T>, x: T, key: T -> string)
    requires Sorted(s, key) && forall y :: y in multiset(s) ==> AtMost(key(y), key(x))
    ensures Sorted(s + [x], key)
  {
    var t := s + [x];
    forall i, j | 0 <= i < j < |t|
      ensures AtMost(key(t[i]), key(t[j]))
    {
      assert i < |s| && t[i] == s[i] && s[i] in multiset(s);
    }
  }

  lemma {:induction false} InsertSorts<T(!new)>(s: seq<T>, x: T, key: T -> string)
    requires Sorted(s, key)
    ensures Sorted(Insert(s, x, key), key)
  {
    if s != [] {
      var last := s[|s| - 1];
      if AtMost(key(last), key(x)) {
        forall y | y in multiset(s)
          ensures AtMost(key(y), key(x))
        {
          BelowLast(s, y, key);
          AtMostTransitive(key(y), key(last), key(x));
        }
        SortedSnoc(s, x, key);
      } else {
        var before := s[..|s| - 1];
        InsertSorts(before, x, key);
        InsertHolds(before, x, key);
        AtMostTotal(key(last), key(x));
        forall y | y in multiset(Insert(before, x, key))
          ensures AtMost(key(y), key(last))
        {
          if y != x {
            assert y in multiset(before);
            BelowLast(s, y, key);
          }
        }
        SortedSnoc(Insert(before, x, key), last, key);
      }
    }
  }

  lemma BelowLast<T(!new)>(s: seq<T>, y: T, key: T -> string)
    requires s != [] && Sorted(s, key) && y in s
    ensures AtMost(key(y), key(s[|s| - 1]))
  {
    var i :| 0 <= i < |s| && s[i] == y;
    AtMostTotal(key(y), key(y));
  }

  lemma {:induction false} SortSorts<T(!new)>(s: seq<T>, key: T -> string)
    ensures Sorted(Sort(s, key), key)
  {
    if s != [] {
      SortSorts(s[..|s| - 1], key);
      InsertSorts(Sort(s[..|s| - 1], key), s[|s| - 1], key);
    }
  }

  /** Equal keys mean equal elements. */
  ghost predicate Keyed<T(!new)>(s: seq<T>, key: T -> string) {
    forall x, y :: x in s && y in s && key(x) == key(y) ==> x == y
  }

  lemma SameLast<T(!new)>(s: seq<T>, t: seq<T>, key: T -> string)
    requires Sorted(s, key) && Sorted(t, key) && multiset(s) == multiset(t) && Keyed(s, key) && s != [] && t != []
    ensures s[|s| - 1] == t[|t| - 1]
  {
    var x, y := s[|s| - 1], t[|t| - 1];
    assert x in multiset(t) && y in multiset(s);
    BelowLast(t, x, key);
    BelowLast(s, y, key);
    AtMostAntisymmetric(key(x), key(y));
  }

  lemma KeyedPrefix<T(!new)>(s: seq<T>, key: T -> string)
    requires s != [] && Keyed(s, key)
    ensures Keyed(s[..|s| - 1], key)
  {
  }

  /** Where equal keys mean equal elements, a sorted list is fixed by what it holds. */
  lemma SortedPrefix<T(!new)>(s: seq<T>, key: T -> string)
    requires Sorted(s, key) && s != []
    ensures Sorted(s[..|s| - 1], key)
  {
    hide AtMost;
  }

  lemma {:induction false} SortedUnique<T(!new)>(s: seq<T>, t: seq<T>, key: T -> string)
    requires Sorted(s, key) && Sorted(t, key) && multiset(s) == multiset(t) && Keyed(s, key)
    ensures s == t
    decreases |s|
  {
    hide Sorted, Keyed;
    assert |s| == |multiset(s)| == |multiset(t)| == |t|;
    if s != [] {
      SameLast(s, t, key);
      DropLast(s);
      DropLast(t);
      KeyedPrefix(s, key);
      SortedPrefix(s, key);
      SortedPrefix(t, key);
      SortedUnique(s[..|s| - 1], t[..|t| - 1], key);
      assert s == s[..|s| - 1] + [s[|s| - 1]];
    }
  }

  /** Sorting a sorted list changes nothing, whatever order it arrives in. */
  lemma SortIsUnique<T(!new)>(s: seq<T>, t: seq<T>, key: T -> string)
    requires Sorted(t, key) && multiset(s) == multiset(t) && Keyed(t, key)
    ensures Sort(s, key) == t
  {
    SortSorts(s, key);
    SortHolds(s, key);
    SortedUnique(t, Sort(s, key), key);
  }
}
