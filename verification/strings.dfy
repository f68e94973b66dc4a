/** Strings as `seq<char>`: the lexicographic order JavaScript's default
    `Array.prototype.sort` uses on string arrays, insertion sort under it, and
    `Array.prototype.join`. */
module Strings {

  /** `a` sorts before or equal to `b`: character-by-character comparison, a proper
      prefix sorting first. */
  predicate Le(a: string, b: string)
  {
    |a| == 0 || (|b| > 0 && (a[0] < b[0] || (a[0] == b[0] && Le(a[1..], b[1..]))))
  }

  lemma {:induction false} LeAntisymmetric(a: string, b: string)
    requires Le(a, b) && Le(b, a)
    ensures a == b
  {
    if |a| > 0 {
      assert a[0] == b[0];
      LeAntisymmetric(a[1..], b[1..]);
      assert a == [a[0]] + a[1..];
      assert b == [b[0]] + b[1..];
    }
  }

  lemma {:induction false} LeTransitive(a: string, b: string, c: string)
    requires Le(a, b) && Le(b, c)
    ensures Le(a, c)
  {
    if |a| > 0 && a[0] == b[0] && b[0] == c[0] {
      LeTransitive(a[1..], b[1..], c[1..]);
    }
  }

  lemma {:induction false} LeTotal(a: string, b: string)
    ensures Le(a, b) || Le(b, a)
  {
    if |a| > 0 && |b| > 0 && a[0] == b[0] {
      LeTotal(a[1..], b[1..]);
    }
  }

  /** Ascending under `Le`. */
  predicate Sorted(s: seq<string>)
  {
    forall i, j :: 0 <= i < j < |s| ==> Le(s[i], s[j])
  }

  /** The head of a sorted sequence is below every later element. */
  lemma SortedHeadBound(s: seq<string>)
    requires Sorted(s) && |s| > 0
    ensures forall e :: e in s[1..] ==> Le(s[0], e)
  {
    forall e | e in s[1..]
      ensures Le(s[0], e)
    {
      var m :| 0 <= m < |s[1..]| && s[1..][m] == e;
      assert s[m + 1] == e;
    }
  }

  /** A string below every element of a sorted sequence can go in front of it. */
  lemma ConsSorted(x: string, s: seq<string>)
    requires Sorted(s)
    requires forall k :: 0 <= k < |s| ==> Le(x, s[k])
    ensures Sorted([x] + s)
  {
    var r := [x] + s;
    forall i, j | 0 <= i < j < |r|
      ensures Le(r[i], r[j])
    {
      if i == 0 {
        assert r[j] == s[j - 1];
      } else {
        assert r[i] == s[i - 1] && r[j] == s[j - 1];
      }
    }
  }

  /** A string below the head of a sorted sequence is below all of it. */
  lemma BelowHeadBelowAll(x: string, s: seq<string>)
    requires Sorted(s) && |s| > 0 && Le(x, s[0])
    ensures forall k :: 0 <= k < |s| ==> Le(x, s[k])
  {
    forall k | 0 < k < |s|
      ensures Le(x, s[k])
    {
      LeTransitive(x, s[0], s[k]);
    }
  }

  /** A lower bound of `x` and of all of `s` bounds every element of a permutation of both. */
  lemma BoundAfterInsert(lo: string, x: string, s: seq<string>, t: seq<string>)
    requires multiset(t) == multiset(s) + multiset{x}
    requires Le(lo, x) && forall e :: e in s ==> Le(lo, e)
    ensures forall k :: 0 <= k < |t| ==> Le(lo, t[k])
  {
    forall k | 0 <= k < |t|
      ensures Le(lo, t[k])
    {
      assert t[k] in multiset(t);
    }
  }

  /** Inserts `x` into a sorted sequence, keeping it sorted. */
  function Insert(x: string, s: seq<string>): (r: seq<string>)
    requires Sorted(s)
    ensures Sorted(r)
    ensures multiset(r) == multiset(s) + multiset{x}
    decreases |s|
  {
    if |s| == 0 then
      [x]
    else if Le(x, s[0]) then
      BelowHeadBelowAll(x, s);
      ConsSorted(x, s);
      [x] + s
    else
      var t := Insert(x, s[1..]);
      assert s == [s[0]] + s[1..];
      SortedHeadBound(s);
      LeTotal(x, s[0]);
      BoundAfterInsert(s[0], x, s[1..], t);
      ConsSorted(s[0], t);
      [s[0]] + t
  }

  /** `Array.prototype.sort()` on an array of strings, as a pure function:
      the result is ascending and a permutation of the input. */
  function Sort(xs: seq<string>): (r: seq<string>)
    ensures Sorted(r)
    ensures multiset(r) == multiset(xs)
    ensures |r| == |xs|
  {
    if |xs| == 0 then
      []
    else
      assert xs == [xs[0]] + xs[1..];
      var r := Insert(xs[0], Sort(xs[1..]));
      assert |r| == |multiset(r)|;
      r
  }

  /** Two sorted sequences with the same elements start with the same one. */
  lemma SameHead(a: seq<string>, b: seq<string>)
    requires Sorted(a) && Sorted(b) && |a| > 0
    requires multiset(a) == multiset(b)
    ensures |b| > 0 && a[0] == b[0]
  {
    assert a[0] in multiset(b);
    assert b[0] in multiset(a);
    assert a == [a[0]] + a[1..];
    assert b == [b[0]] + b[1..];
    SortedHeadBound(a);
    SortedHeadBound(b);
    if a[0] != b[0] {
      assert a[0] in b[1..];
      assert b[0] in a[1..];
      LeAntisymmetric(a[0], b[0]);
    }
  }

  /** A sorted sequence is determined by its multiset of elements. */
  lemma {:induction false} SortedUnique(a: seq<string>, b: seq<string>)
    requires Sorted(a) && Sorted(b)
    requires multiset(a) == multiset(b)
    ensures a == b
  {
    if |a| == 0 {
      assert |multiset(b)| == 0;
    } else {
      SameHead(a, b);
      assert a == [a[0]] + a[1..];
      assert b == [b[0]] + b[1..];
      calc {
        multiset(a[1..]);
        multiset(a) - multiset{a[0]};
        multiset(b) - multiset{b[0]};
        multiset(b[1..]);
      }
      SortedUnique(a[1..], b[1..]);
    }
  }

  /** Sorting depends only on the multiset of the input: any permutation sorts the same. */
  lemma {:induction false} SortPermutationInvariant(xs: seq<string>, ys: seq<string>)
    requires multiset(xs) == multiset(ys)
    ensures Sort(xs) == Sort(ys)
  {
    SortedUnique(Sort(xs), Sort(ys));
  }

  /** Sorting an already sorted array leaves it as it is, so sorting twice is sorting once. */
  lemma SortOfSorted(xs: seq<string>)
    requires Sorted(xs)
    ensures Sort(xs) == xs
  {
    SortedUnique(Sort(xs), xs);
  }

  /** `xs.join(sep)`. */
  function Join(xs: seq<string>, sep: string): string
  {
    if |xs| == 0 then ""
    else if |xs| == 1 then xs[0]
    else xs[0] + sep + Join(xs[1..], sep)
  }

  /** Splitting at the first separator: when neither head contains `c`, equal
      strings `a c r1` and `b c r2` have equal heads and equal rests. */
  lemma SplitAtSeparator(a: string, b: string, c: char, r1: string, r2: string)
    requires c !in a && c !in b
    requires a + [c] + r1 == b + [c] + r2
    ensures a == b && r1 == r2
  {
    var s := a + [c] + r1;
    assert s[|a|] == c && s[|b|] == c;
    assert forall k :: 0 <= k < |a| ==> s[k] != c;
    assert forall k :: 0 <= k < |b| ==> s[k] != c;
    assert |a| == |b|;
    assert a == s[..|a|] && b == s[..|b|];
    assert r1 == s[|a| + 1..] && r2 == s[|b| + 1..];
  }

  /** Labels that `Join` can keep apart when joined by `c`: non-empty and free of `c`. */
  predicate SeparableBy(xs: seq<string>, c: char)
  {
    forall i :: 0 <= i < |xs| ==> xs[i] != "" && c !in xs[i]
  }

  /** How many labels a joined string holds shows in the string itself: none
      gives the empty string, and only two or more put the separator in it. */
  lemma JoinShape(xs: seq<string>, c: char)
    requires SeparableBy(xs, c)
    ensures |xs| == 0 <==> Join(xs, [c]) == ""
    ensures |xs| > 1 <==> c in Join(xs, [c])
  {
    if |xs| > 1 {
      assert Join(xs, [c])[|xs[0]|] == c;
    }
  }

  /** Joining by a one-character separator is injective on separable labels. */
  lemma {:induction false} JoinInjective(xs: seq<string>, ys: seq<string>, c: char)
    requires SeparableBy(xs, c) && SeparableBy(ys, c)
    requires Join(xs, [c]) == Join(ys, [c])
    ensures xs == ys
  {
    JoinShape(xs, c);
    JoinShape(ys, c);
    if |xs| > 1 {
      SplitAtSeparator(xs[0], ys[0], c, Join(xs[1..], [c]), Join(ys[1..], [c]));
      JoinInjective(xs[1..], ys[1..], c);
      assert xs == [xs[0]] + xs[1..];
      assert ys == [ys[0]] + ys[1..];
    }
  }
}
