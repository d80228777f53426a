/** The collection operations the containers build their listings with:
    Array#sort on strings (String#<=>, a lexicographic comparison of
    character codes) and Array#uniq (first occurrences, in order). */
module Lex {
  import opened Results
  import opened Bytes

  /** a <=> b is not 1: a is a prefix of b, or the first differing
      character of a has the smaller code. */
  predicate Le(a: string, b: string)
  {
    a == [] || (b != [] && (a[0] < b[0] || (a[0] == b[0] && Le(a[1..], b[1..]))))
  }

  lemma {:induction false} LeTotal(a: string, b: string)
    ensures Le(a, b) || Le(b, a)
  {
    if a != [] && b != [] && a[0] == b[0] {
      LeTotal(a[1..], b[1..]);
    }
  }

  lemma {:induction false} LeTrans(a: string, b: string, c: string)
    requires Le(a, b) && Le(b, c)
    ensures Le(a, c)
  {
    if a != [] && b != [] && c != [] && a[0] == b[0] && b[0] == c[0] {
      LeTrans(a[1..], b[1..], c[1..]);
    }
  }

  /** Two strings that compare both ways are equal: the order is a total
      order, so the sorted listing is unique. */
  lemma {:induction false} LeAntisymmetric(a: string, b: string)
    requires Le(a, b) && Le(b, a)
    ensures a == b
  {
    if a != [] && b != [] {
      LeAntisymmetric(a[1..], b[1..]);
      assert a == [a[0]] + a[1..] && b == [b[0]] + b[1..];
    }
  }

  predicate Sorted(xs: seq<string>)
  {
    forall i, j | 0 <= i < j < |xs| :: Le(xs[i], xs[j])
  }

  lemma {:induction false} LeRefl(a: string)
    ensures Le(a, a)
  {
    if a != [] {
      LeRefl(a[1..]);
    }
  }

  /** A string not above the head of a sorted list can go in front. */
  lemma InsertFront(x: string, xs: seq<string>)
    requires Sorted(xs) && xs != [] && Le(x, xs[0])
    ensures Sorted([x] + xs)
  {
    forall i, j | 0 <= i < j < |xs| + 1
      ensures Le(([x] + xs)[i], ([x] + xs)[j])
    {
      if i == 0 && j > 1 {
        LeTrans(x, xs[0], xs[j - 1]);
      }
    }
  }

  /** The head of a sorted list stays in front of the rest with one
      string not below it inserted. */
  lemma InsertBehind(x: string, xs: seq<string>, tail: seq<string>)
    requires Sorted(xs) && xs != [] && Le(xs[0], x) && Sorted(tail)
    requires forall y | y in tail :: y == x || y in xs[1..]
    ensures Sorted([xs[0]] + tail)
  {
    forall j | 0 <= j < |tail|
      ensures Le(xs[0], tail[j])
    {
      assert tail[j] in tail;
      if tail[j] != x {
        var k :| 0 <= k < |xs[1..]| && xs[1..][k] == tail[j];
        assert xs[k + 1] == tail[j];
      }
    }
  }

  /** x placed before the first element it does not exceed. */
  function Insert(x: string, xs: seq<string>): (r: seq<string>)
    requires Sorted(xs)
    ensures Sorted(r)
    ensures multiset(r) == multiset(xs) + multiset{x}
    ensures forall y | y in r :: y == x || y in xs
  {
    if xs == [] then [x]
    else if Le(x, xs[0]) then
      InsertFront(x, xs);
      [x] + xs
    else
      LeTotal(x, xs[0]);
      assert xs == [xs[0]] + xs[1..];
      var tail := Insert(x, xs[1..]);
      InsertBehind(x, xs, tail);
      [xs[0]] + tail
  }

  /** Array#sort: the same strings, each as often, in ascending order. */
  function Sort(xs: seq<string>): (r: seq<string>)
    ensures Sorted(r)
    ensures multiset(r) == multiset(xs)
  {
    if xs == [] then []
    else
      assert xs == xs[..|xs| - 1] + [xs[|xs| - 1]];
      Insert(xs[|xs| - 1], Sort(xs[..|xs| - 1]))
  }

  /** The head of a sorted list is not above any of its elements. */
  lemma HeadLeast(a: seq<string>, k: nat)
    requires Sorted(a) && k < |a|
    ensures Le(a[0], a[k])
  {
    if k == 0 {
      LeRefl(a[0]);
    }
  }

  lemma SortedTail(a: seq<string>)
    requires Sorted(a) && a != []
    ensures Sorted(a[1..])
  {
    forall i, j | 0 <= i < j < |a| - 1
      ensures Le(a[1..][i], a[1..][j])
    {
      assert a[1..][i] == a[i + 1] && a[1..][j] == a[j + 1];
    }
  }

  /** Two sorted listings of the same strings start with the same one. */
  lemma HeadsEqual(a: seq<string>, b: seq<string>)
    requires Sorted(a) && Sorted(b) && multiset(a) == multiset(b) && a != []
    ensures b != [] && a[0] == b[0]
  {
    assert a[0] in multiset(b);
    assert b[0] in multiset(a);
    var i :| 0 <= i < |b| && b[i] == a[0];
    var j :| 0 <= j < |a| && a[j] == b[0];
    HeadLeast(b, i);
    HeadLeast(a, j);
    LeAntisymmetric(a[0], b[0]);
  }

  lemma TailMultiset(a: seq<string>)
    requires a != []
    ensures multiset(a[1..]) == multiset(a) - multiset{a[0]}
  {
    assert a == [a[0]] + a[1..];
  }

  /** Two sorted listings of the same strings are the same listing. */
  lemma {:induction false} SortedUnique(a: seq<string>, b: seq<string>)
    requires Sorted(a) && Sorted(b) && multiset(a) == multiset(b)
    ensures a == b
    decreases |a|
  {
    if a != [] {
      HeadsEqual(a, b);
      TailMultiset(a);
      TailMultiset(b);
      SortedTail(a);
      SortedTail(b);
      hide Le, Sorted;
      SortedUnique(a[1..], b[1..]);
      assert a == [a[0]] + a[1..] && b == [b[0]] + b[1..];
    }
  }

  predicate Distinct<T(==)>(xs: seq<T>)
  {
    forall i, j | 0 <= i < j < |xs| :: xs[i] != xs[j]
  }

  /** An element of a distinct sequence occurs at one position only. */
  lemma DistinctAt<T>(xs: seq<T>, j: nat)
    requires Distinct(xs) && j < |xs|
    ensures forall i | 0 <= i < |xs| && i != j :: xs[i] != xs[j]
  {
  }

  /** Array#uniq: the first occurrence of every element, in the order of
      first occurrence. */
  function Uniq(xs: seq<string>): (r: seq<string>)
    ensures Distinct(r)
    ensures forall x :: x in r <==> x in xs
  {
    if xs == [] then []
    else
      var front := Uniq(xs[..|xs| - 1]);
      var x := xs[|xs| - 1];
      assert xs == xs[..|xs| - 1] + [x];
      if x in front then front else front + [x]
  }

  /** The first position of x in xs + ys is its first position in xs when
      it occurs there. */
  lemma IndexOfPrefix(xs: seq<string>, ys: seq<string>, x: string)
    requires x in xs
    ensures IndexOf(xs + ys, x) == IndexOf(xs, x)
  {
    var k := IndexOf(xs, x).value;
    assert (xs + ys)[k] == x;
    IndexOfAt(xs + ys, k);
  }

  /** uniq keeps first-appearance order: of two elements of the result,
      the earlier one occurs first in the input. */
  lemma {:induction false} UniqOrder(xs: seq<string>)
    ensures forall i, j | 0 <= i < j < |Uniq(xs)| ::
      IndexOf(xs, Uniq(xs)[i]).value < IndexOf(xs, Uniq(xs)[j]).value
  {
    if xs != [] {
      var front := xs[..|xs| - 1];
      var x := xs[|xs| - 1];
      var u := Uniq(front);
      UniqOrder(front);
      assert xs == front + [x];
      forall y | y in u
        ensures IndexOf(xs, y) == IndexOf(front, y)
      {
        IndexOfPrefix(front, [x], y);
      }
      if x !in u {
        assert x !in front;
        assert IndexOf(xs, x).value == |front| by {
          IndexOfAt(xs, |front|);
        }
        assert Uniq(xs) == u + [x];
      } else {
        assert Uniq(xs) == u;
      }
    }
  }
}
