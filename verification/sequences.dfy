/** Sequence helpers the table operations are built from: removing duplicates
    while keeping first occurrences, a stable insertion sort under a total
    preorder, and the code-point lexicographic order Python uses on strings. */
module Sequences {

  /** No element occurs twice. */
  ghost predicate Distinct<T>(s: seq<T>)
  {
    forall i, j :: 0 <= i < j < |s| ==> s[i] != s[j]
  }

  /** No two elements share a key. */
  ghost predicate DistinctBy<T, K>(s: seq<T>, key: T -> K)
  {
    forall i, j :: 0 <= i < j < |s| ==> key(s[i]) != key(s[j])
  }

  /** Keeps the first occurrence of every element, in the order of those
      first occurrences. */
  function Dedup<T(==,!new)>(s: seq<T>): (r: seq<T>)
    ensures Distinct(r)
    ensures forall x :: x in r <==> x in s
    ensures |r| <= |s|
    ensures forall i, j :: 0 <= i < j < |r| ==> IndexOf(s, r[i]) < IndexOf(s, r[j])
  {
    if |s| == 0 then []
    else
      var init := s[..|s| - 1];
      var prefix := Dedup(init);
      var last := s[|s| - 1];
      assert s == init + [last];
      IndexOfAppend(init, last);
      if last in prefix then prefix else prefix + [last]
  }

  /** The first position of x in s. */
  function IndexOf<T(==)>(s: seq<T>, x: T): (p: nat)
    requires x in s
    ensures p < |s| && s[p] == x
    ensures forall k :: 0 <= k < p ==> s[k] != x
  {
    if s[0] == x then 0 else 1 + IndexOf(s[1..], x)
  }

  /** Appending an element moves no first occurrence; a new element's first
      occurrence is its appended position. */
  lemma {:induction false} IndexOfAppend<T>(p: seq<T>, y: T)
    ensures forall x :: x in p ==> IndexOf(p + [y], x) == IndexOf(p, x)
    ensures y !in p ==> IndexOf(p + [y], y) == |p|
  {
    if |p| > 0 {
      IndexOfAppend(p[1..], y);
      assert (p + [y])[1..] == p[1..] + [y];
    }
  }

  /** `leq` relates every two elements one way or the other. */
  ghost predicate Total<T(!new)>(leq: (T, T) -> bool)
  {
    forall a, b :: leq(a, b) || leq(b, a)
  }

  /** Every element is `leq` its successor. */
  ghost predicate SortedBy<T>(s: seq<T>, leq: (T, T) -> bool)
  {
    forall i :: 0 < i < |s| ==> leq(s[i - 1], s[i])
  }

  /** Inserts `x` before the first element it is `leq` to. */
  function Insert<T>(x: T, s: seq<T>, leq: (T, T) -> bool): (r: seq<T>)
    ensures multiset(r) == multiset(s) + multiset{x}
  {
    if |s| == 0 then [x]
    else if leq(x, s[0]) then [x] + s
    else
      assert s == [s[0]] + s[1..];
      [s[0]] + Insert(x, s[1..], leq)
  }

  /** Insertion sort; elements that are `leq` each other keep their relative order. */
  function SortBy<T>(s: seq<T>, leq: (T, T) -> bool): (r: seq<T>)
    ensures multiset(r) == multiset(s)
  {
    if |s| == 0 then []
    else
      assert s == [s[0]] + s[1..];
      Insert(s[0], SortBy(s[1..], leq), leq)
  }

  lemma {:induction false} InsertSorted<T(!new)>(x: T, s: seq<T>, leq: (T, T) -> bool)
    requires Total(leq) && SortedBy(s, leq)
    ensures SortedBy(Insert(x, s, leq), leq)
    ensures |s| > 0 ==> Insert(x, s, leq)[0] == x || Insert(x, s, leq)[0] == s[0]
  {
    if |s| > 0 && !leq(x, s[0]) {
      InsertSorted(x, s[1..], leq);
      assert leq(s[0], x);
    }
  }

  lemma {:induction false} SortBySorted<T(!new)>(s: seq<T>, leq: (T, T) -> bool)
    requires Total(leq)
    ensures SortedBy(SortBy(s, leq), leq)
  {
    if |s| > 0 {
      SortBySorted(s[1..], leq);
      InsertSorted(s[0], SortBy(s[1..], leq), leq);
    }
  }

  lemma {:induction false} InsertDistinctBy<T, K>(x: T, s: seq<T>, leq: (T, T) -> bool, key: T -> K)
    requires DistinctBy(s, key)
    requires forall y :: y in s ==> key(y) != key(x)
    ensures DistinctBy(Insert(x, s, leq), key)
  {
    if |s| > 0 && !leq(x, s[0]) {
      var r := Insert(x, s[1..], leq);
      InsertDistinctBy(x, s[1..], leq, key);
      forall y | y in r ensures key(y) != key(s[0]) {
        assert y in multiset(r);
      }
      assert DistinctBy([s[0]] + r, key) by {
        forall i, j | 0 <= i < j < |[s[0]] + r| ensures key(([s[0]] + r)[i]) != key(([s[0]] + r)[j]) {
          if i == 0 {
            assert ([s[0]] + r)[j] in r;
          }
        }
      }
    }
  }

  /** Sorting keeps distinct keys distinct. */
  lemma {:induction false} SortByDistinctBy<T, K>(s: seq<T>, leq: (T, T) -> bool, key: T -> K)
    requires DistinctBy(s, key)
    ensures DistinctBy(SortBy(s, leq), key)
  {
    if |s| > 0 {
      var r := SortBy(s[1..], leq);
      SortByDistinctBy(s[1..], leq, key);
      forall y | y in r ensures key(y) != key(s[0]) {
        assert y in multiset(s[1..]);
      }
      InsertDistinctBy(s[0], r, leq, key);
    }
  }

  /** Sorting distinct strings into ascending order keeps exactly the same
      strings and none twice; each string is strictly below its successor. */
  lemma SortStrings(s: seq<string>)
    requires Distinct(s)
    ensures var r := SortBy(s, StrLeq);
      Distinct(r) && SortedBy(r, StrLeq) && forall x :: x in r <==> x in s
    ensures var r := SortBy(s, StrLeq);
      forall i :: 0 < i < |r| ==> !StrLeq(r[i], r[i - 1])
  {
    var r := SortBy(s, StrLeq);
    StrLeqIsTotal();
    SortBySorted(s, StrLeq);
    var id := (x: string) => x;
    assert DistinctBy(s, id);
    SortByDistinctBy(s, StrLeq, id);
    forall x ensures x in r <==> x in s {
      assert x in r <==> x in multiset(r);
      assert x in s <==> x in multiset(s);
    }
    forall i | 0 < i < |r| ensures !StrLeq(r[i], r[i - 1]) {
      if StrLeq(r[i], r[i - 1]) {
        StrLeqAntisymmetric(r[i - 1], r[i]);
      }
    }
  }

  /** A duplicate-free sequence has as many elements as its set. */
  lemma {:induction false} DistinctCardinality<T>(a: seq<T>)
    requires Distinct(a)
    ensures |set x | x in a| == |a|
  {
    if |a| > 0 {
      var prefix := a[..|a| - 1];
      var last := a[|a| - 1];
      assert a == prefix + [last];
      assert Distinct(prefix) by {
        forall i, j | 0 <= i < j < |prefix| ensures prefix[i] != prefix[j] {
          assert prefix[i] == a[i] && prefix[j] == a[j];
        }
      }
      DistinctCardinality(prefix);
      assert last !in prefix;
      assert (set x | x in a) == (set x | x in prefix) + {last};
    }
  }

  /** Two duplicate-free sequences with the same elements have the same length. */
  lemma DistinctSameElements<T>(a: seq<T>, b: seq<T>)
    requires Distinct(a) && Distinct(b)
    requires forall x :: x in a <==> x in b
    ensures |a| == |b|
  {
    DistinctCardinality(a);
    DistinctCardinality(b);
    assert (set x | x in a) == (set x | x in b);
  }

  /** Python's `<=` on str: lexicographic by code point, a proper prefix first. */
  predicate StrLeq(a: string, b: string)
    decreases |a|
  {
    |a| == 0 || (|b| > 0 && (a[0] < b[0] || (a[0] == b[0] && StrLeq(a[1..], b[1..]))))
  }

  lemma {:induction false} StrLeqTotal(a: string, b: string)
    ensures StrLeq(a, b) || StrLeq(b, a)
    decreases |a|
  {
    if |a| > 0 && |b| > 0 && a[0] == b[0] {
      StrLeqTotal(a[1..], b[1..]);
    }
  }

  /** Two strings each at most the other are equal. */
  lemma {:induction false} StrLeqAntisymmetric(a: string, b: string)
    requires StrLeq(a, b) && StrLeq(b, a)
    ensures a == b
    decreases |a|
  {
    if |a| > 0 {
      StrLeqAntisymmetric(a[1..], b[1..]);
      assert a == [a[0]] + a[1..] && b == [b[0]] + b[1..];
    }
  }

  lemma StrLeqIsTotal()
    ensures Total(StrLeq)
  {
    forall a: string, b: string ensures StrLeq(a, b) || StrLeq(b, a) {
      StrLeqTotal(a, b);
    }
  }
}
