/**
 Stable sorting by a lexicographic key. A key tuple of integers that ends in a string is written as one
 sequence of integers: as long as all keys have the same number of integers before the string, comparing
 these sequences is comparing the tuples.
 */
module Sorting {

  predicate LexLe(a: seq<int>, b: seq<int>) {
    a == [] || (b != [] && (a[0] < b[0] || (a[0] == b[0] && LexLe(a[1..], b[1..]))))
  }

  lemma {:induction false} LexTotal(a: seq<int>, b: seq<int>)
    ensures LexLe(a, b) || LexLe(b, a)
    ensures LexLe(a, a)
  {
    if a != [] {
      LexTotal(a[1..], if b == [] then [] else b[1..]);
    }
  }

  lemma {:induction false} LexTransitive(a: seq<int>, b: seq<int>, c: seq<int>)
    requires LexLe(a, b) && LexLe(b, c)
    ensures LexLe(a, c)
  {
    if a != [] && a[0] == b[0] == c[0] {
      LexTransitive(a[1..], b[1..], c[1..]);
    }
  }

  lemma {:induction false} LexAntisymmetric(a: seq<int>, b: seq<int>)
    requires LexLe(a, b) && LexLe(b, a)
    ensures a == b
  {
    if a != [] {
      LexAntisymmetric(a[1..], b[1..]);
      assert a == [a[0]] + a[1..] && b == [b[0]] + b[1..];
    }
  }

  function Codes(s: string): seq<int> {
    seq(|s|, i requires 0 <= i < |s| => s[i] as int)
  }

  /** Keys with equally many integers before the string agree only when their strings do. */
  lemma KeyEndsInName(a: seq<int>, x: string, b: seq<int>, y: string)
    requires |a| == |b| && a + Codes(x) == b + Codes(y)
    ensures x == y
  {
    var u, v := a + Codes(x), b + Codes(y);
    assert |x| == |y|;
    forall i | 0 <= i < |x| ensures x[i] == y[i] {
      assert u[|a| + i] == Codes(x)[i] && v[|b| + i] == Codes(y)[i];
    }
  }

  predicate Sorted<T>(key: T -> seq<int>, s: seq<T>) {
    forall i, j :: 0 <= i < j < |s| ==> LexLe(key(s[i]), key(s[j]))
  }

  function Insert<T>(key: T -> seq<int>, x: T, s: seq<T>): seq<T> {
    if s == [] || LexLe(key(x), key(s[0])) then [x] + s else [s[0]] + Insert(key, x, s[1..])
  }

  /** The elements of `s` by ascending key; elements of equal keys keep their order. */
  function SortBy<T>(key: T -> seq<int>, s: seq<T>): seq<T> {
    if s == [] then [] else Insert(key, s[0], SortBy(key, s[1..]))
  }

  lemma {:induction false} InsertSorts<T>(key: T -> seq<int>, x: T, s: seq<T>)
    requires Sorted(key, s)
    ensures Sorted(key, Insert(key, x, s))
    ensures multiset(Insert(key, x, s)) == multiset(s) + multiset{x}
  {
    if s == [] || LexLe(key(x), key(s[0])) {
      forall y | y in s ensures LexLe(key(x), key(y)) {
        LexTotal(key(s[0]), key(s[0]));
        LexTransitive(key(x), key(s[0]), key(y));
      }
      SortedCons(key, x, s);
    } else {
      LexTotal(key(x), key(s[0]));
      InsertSorts(key, x, s[1..]);
      assert s == [s[0]] + s[1..];
      var rest := Insert(key, x, s[1..]);
      forall y | y in rest ensures LexLe(key(s[0]), key(y)) {
        assert y in multiset(rest);
      }
      SortedCons(key, s[0], rest);
    }
  }

  lemma SortedCons<T>(key: T -> seq<int>, x: T, s: seq<T>)
    requires Sorted(key, s) && forall y :: y in s ==> LexLe(key(x), key(y))
    ensures Sorted(key, [x] + s)
  {
  }

  lemma {:induction false} SortBySorts<T>(key: T -> seq<int>, s: seq<T>)
    ensures Sorted(key, SortBy(key, s))
    ensures multiset(SortBy(key, s)) == multiset(s)
  {
    if s != [] {
      SortBySorts(key, s[1..]);
      InsertSorts(key, s[0], SortBy(key, s[1..]));
      assert s == [s[0]] + s[1..];
    }
  }

  /** Elements of `s` with equal keys are equal. */
  ghost predicate KeyIdentifies<T(!new)>(key: T -> seq<int>, s: seq<T>) {
    forall x, y :: x in s && y in s && key(x) == key(y) ==> x == y
  }

  lemma {:induction false} SortedIsUnique<T(!new)>(key: T -> seq<int>, s: seq<T>, t: seq<T>)
    requires Sorted(key, s) && Sorted(key, t) && multiset(s) == multiset(t) && KeyIdentifies(key, s)
    ensures s == t
  {
    if s == [] {
      assert |multiset(t)| == 0;
    } else {
      assert t != [] by { assert s[0] in multiset(t); }
      SameFirst(key, s, t);
      assert s == [s[0]] + s[1..] && t == [t[0]] + t[1..];
      assert multiset(s[1..]) == multiset(s) - multiset{s[0]};
      assert multiset(t[1..]) == multiset(t) - multiset{t[0]};
      SortedIsUnique(key, s[1..], t[1..]);
    }
  }

  lemma SameFirst<T(!new)>(key: T -> seq<int>, s: seq<T>, t: seq<T>)
    requires Sorted(key, s) && Sorted(key, t) && multiset(s) == multiset(t) && KeyIdentifies(key, s)
    requires s != [] && t != []
    ensures s[0] == t[0]
  {
    LexTotal(key(s[0]), key(t[0]));
    assert t[0] in multiset(s) && s[0] in multiset(t);
    var i :| 0 <= i < |s| && s[i] == t[0];
    var j :| 0 <= j < |t| && t[j] == s[0];
    assert LexLe(key(s[0]), key(t[0]));
    assert LexLe(key(t[0]), key(s[0]));
    LexAntisymmetric(key(s[0]), key(t[0]));
  }

  /** Sorting forgets the order of its input when keys identify elements. */
  lemma SortIsCanonical<T(!new)>(key: T -> seq<int>, s: seq<T>, t: seq<T>)
    requires multiset(s) == multiset(t) && KeyIdentifies(key, s)
    ensures SortBy(key, s) == SortBy(key, t)
  {
    SortBySorts(key, s);
    SortBySorts(key, t);
    assert forall x :: x in SortBy(key, s) ==> x in multiset(s);
    SortedIsUnique(key, SortBy(key, s), SortBy(key, t));
  }
}
