/** Options, filtered sequences, order-preserving subsequences, repeats and set sizes, shared by every model below. */
module Prelude {

  datatype Option<+T> = None | Some(value: T) {
    function GetOr(default: T): T {
      if Some? then value else default
    }
  }

  /** The elements of `s` that satisfy `keep`, in their order. */
  function Filter<T>(keep: T -> bool, s: seq<T>): (r: seq<T>)
    ensures |r| <= |s|
    ensures forall x :: x in r ==> x in s && keep(x)
    ensures forall x :: x in s && keep(x) ==> x in r
  {
    if s == [] then []
    else if keep(s[0]) then [s[0]] + Filter(keep, s[1..])
    else Filter(keep, s[1..])
  }

  lemma {:induction false} FilterConcat<T>(keep: T -> bool, a: seq<T>, b: seq<T>)
    ensures Filter(keep, a + b) == Filter(keep, a) + Filter(keep, b)
  {
    if a == [] {
      assert a + b == b;
    } else {
      assert (a + b)[1..] == a[1..] + b;
      FilterConcat(keep, a[1..], b);
    }
  }

  lemma FilterOne<T>(keep: T -> bool, x: T)
    ensures Filter(keep, [x]) == if keep(x) then [x] else []
  {
  }

  lemma FilterParts<T>(keep: T -> bool, a: seq<T>, x: T, b: seq<T>)
    ensures Filter(keep, a + [x] + b) == Filter(keep, a) + Filter(keep, [x]) + Filter(keep, b)
  {
    FilterConcat(keep, a + [x], b);
    FilterConcat(keep, a, [x]);
  }

  lemma SplitAt<T>(s: seq<T>, i: nat)
    requires i < |s|
    ensures s == s[..i] + [s[i]] + s[i + 1..]
  {
  }

  /** Filtering around the element at `i`. */
  lemma FilterAt<T>(keep: T -> bool, s: seq<T>, i: nat)
    requires i < |s|
    ensures Filter(keep, s) == Filter(keep, s[..i]) + (if keep(s[i]) then [s[i]] else []) + Filter(keep, s[i + 1..])
  {
    SplitAt(s, i);
    FilterParts(keep, s[..i], s[i], s[i + 1..]);
    FilterOne(keep, s[i]);
  }

  lemma {:induction false} FilterAll<T>(keep: T -> bool, s: seq<T>)
    requires forall x :: x in s ==> keep(x)
    ensures Filter(keep, s) == s
  {
    if s != [] {
      FilterAll(keep, s[1..]);
    }
  }

  lemma {:induction false} FilterNone<T>(keep: T -> bool, s: seq<T>)
    requires forall x :: x in s ==> !keep(x)
    ensures Filter(keep, s) == []
  {
    if s != [] {
      FilterNone(keep, s[1..]);
    }
  }

  /** Filtering by the stronger of two tests is the same as filtering by both. */
  lemma {:induction false} FilterStronger<T>(weak: T -> bool, strong: T -> bool, s: seq<T>)
    requires forall x :: x in s && strong(x) ==> weak(x)
    ensures Filter(strong, Filter(weak, s)) == Filter(strong, s)
  {
    if s != [] {
      FilterStronger(weak, strong, s[1..]);
      var rest := Filter(weak, s[1..]);
      if weak(s[0]) {
        assert ([s[0]] + rest)[1..] == rest;
      }
    }
  }

  /** Two tests that agree on `s` select the same elements. */
  lemma {:induction false} FilterAgree<T>(p: T -> bool, q: T -> bool, s: seq<T>)
    requires forall x :: x in s ==> p(x) == q(x)
    ensures Filter(p, s) == Filter(q, s)
  {
    if s != [] {
      FilterAgree(p, q, s[1..]);
    }
  }

  lemma {:induction false} FilterMultiset<T>(keep: T -> bool, s: seq<T>, x: T)
    ensures multiset(Filter(keep, s))[x] == if keep(x) then multiset(s)[x] else 0
  {
    if s != [] {
      FilterMultiset(keep, s[1..], x);
      assert s == [s[0]] + s[1..];
    }
  }

  /** `a` can be obtained from `b` by dropping elements, without reordering. */
  ghost predicate Subsequence<T>(a: seq<T>, b: seq<T>) {
    a == [] || (b != [] && ((a[0] == b[0] && Subsequence(a[1..], b[1..])) || Subsequence(a, b[1..])))
  }

  lemma {:induction false} SubsequenceLength<T>(a: seq<T>, b: seq<T>)
    requires Subsequence(a, b)
    ensures |a| <= |b|
    ensures forall x :: x in a ==> x in b
  {
    if a != [] {
      if a[0] == b[0] && Subsequence(a[1..], b[1..]) {
        SubsequenceLength(a[1..], b[1..]);
        assert a == [a[0]] + a[1..];
      } else {
        SubsequenceLength(a, b[1..]);
      }
    }
  }

  lemma {:induction false} SubsequenceDropHead<T>(a: seq<T>, b: seq<T>)
    requires a != [] && Subsequence(a, b)
    ensures Subsequence(a[1..], b) && Subsequence(a[1..], b[1..])
  {
    if !(a[0] == b[0] && Subsequence(a[1..], b[1..])) {
      SubsequenceDropHead(a, b[1..]);
    }
  }

  lemma {:induction false} SubsequenceAppend<T>(a: seq<T>, b: seq<T>, x: T)
    requires Subsequence(a, b)
    ensures Subsequence(a + [x], b + [x]) && Subsequence(a, b + [x])
  {
    if b == [] {
      assert a == [] && (b + [x])[1..] == [] && (a + [x])[1..] == [];
    } else {
      assert (b + [x])[1..] == b[1..] + [x];
      if a == [] {
        SubsequenceAppend([], b[1..], x);
      } else if a[0] == b[0] && Subsequence(a[1..], b[1..]) {
        assert (a + [x])[1..] == a[1..] + [x];
        SubsequenceAppend(a[1..], b[1..], x);
      } else {
        SubsequenceAppend(a, b[1..], x);
      }
    }
  }

  /** Filtering keeps the subsequence relation, and never widens the difference in length. */
  lemma {:induction false} SubsequenceFilter<T>(keep: T -> bool, a: seq<T>, b: seq<T>)
    requires Subsequence(a, b)
    ensures Subsequence(Filter(keep, a), Filter(keep, b))
    ensures |Filter(keep, b)| - |Filter(keep, a)| <= |b| - |a|
  {
    if b != [] {
      var fb := Filter(keep, b[1..]);
      if a != [] && a[0] == b[0] && Subsequence(a[1..], b[1..]) {
        SubsequenceFilter(keep, a[1..], b[1..]);
        var fa := Filter(keep, a[1..]);
        assert ([a[0]] + fa)[1..] == fa && ([b[0]] + fb)[1..] == fb;
      } else {
        SubsequenceFilter(keep, a, b[1..]);
        assert ([b[0]] + fb)[1..] == fb;
      }
    }
  }

  lemma {:induction false} SubsetSize<T>(a: set<T>, b: set<T>)
    requires a <= b
    ensures |a| <= |b|
  {
    if a != {} {
      var x :| x in a;
      SubsetSize(a - {x}, b - {x});
    }
  }

  ghost predicate NoRepeats<T>(s: seq<T>) {
    forall i, j :: 0 <= i < j < |s| ==> s[i] != s[j]
  }

  lemma {:induction false} NoRepeatsCount<T>(s: seq<T>, x: T)
    requires NoRepeats(s)
    ensures multiset(s)[x] == if x in s then 1 else 0
  {
    if s != [] {
      var n := |s| - 1;
      NoRepeatsCount(s[..n], x);
      assert s == s[..n] + [s[n]];
    }
  }

  lemma {:induction false} FilterNoRepeats<T>(keep: T -> bool, s: seq<T>)
    requires NoRepeats(s)
    ensures NoRepeats(Filter(keep, s))
  {
    if s != [] {
      var rest := Filter(keep, s[1..]);
      FilterNoRepeats(keep, s[1..]);
      assert s[0] !in s[1..];
      assert forall i :: 0 <= i < |rest| ==> rest[i] in s[1..];
    }
  }

  function Members<T>(s: seq<T>): set<T> {
    set x | x in s
  }

  /** A sequence without repeats has as many elements as members. */
  lemma {:induction false} NoRepeatsSize<T>(s: seq<T>)
    requires NoRepeats(s)
    ensures |Members(s)| == |s|
  {
    if s != [] {
      var n := |s| - 1;
      NoRepeatsSize(s[..n]);
      assert s == s[..n] + [s[n]] && s[n] !in s[..n];
      assert Members(s) == Members(s[..n]) + {s[n]};
    }
  }
}
