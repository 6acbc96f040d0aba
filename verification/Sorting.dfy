/** Distinct numbers in increasing order: `[...new Set(xs)].sort((a, b) => a - b)`. */
module Sorting {

  ghost predicate Increasing(s: seq<int>) {
    forall i, j :: 0 <= i < j < |s| ==> s[i] < s[j]
  }

  function Insert(s: seq<int>, x: int): seq<int> {
    if s == [] || x < s[0] then [x] + s
    else if x == s[0] then s
    else [s[0]] + Insert(s[1..], x)
  }

  function SortUnique(pages: seq<int>): seq<int> {
    if pages == [] then [] else Insert(SortUnique(pages[1..]), pages[0])
  }

  lemma {:induction false} InsertSorted(s: seq<int>, x: int)
    requires Increasing(s)
    ensures Increasing(Insert(s, x))
    ensures forall y :: y in Insert(s, x) <==> y == x || y in s
  {
    if s == [] {
    } else if x < s[0] {
      PutBefore(x, s);
    } else if x > s[0] {
      assert forall y :: y in s[1..] ==> s[0] < y;
      InsertSorted(s[1..], x);
      assert Insert(s[1..], x)[0] in Insert(s[1..], x);
      PutBefore(s[0], Insert(s[1..], x));
      assert forall y :: y in s <==> y == s[0] || y in s[1..];
    }
  }

  lemma PutBefore(x: int, s: seq<int>)
    requires Increasing(s) && (s == [] || x < s[0])
    ensures Increasing([x] + s)
    ensures forall y :: y in [x] + s <==> y == x || y in s
  {
  }

  lemma {:induction false} SortUniqueSorted(pages: seq<int>)
    ensures Increasing(SortUnique(pages))
    ensures forall y :: y in SortUnique(pages) <==> y in pages
  {
    if pages != [] {
      SortUniqueSorted(pages[1..]);
      InsertSorted(SortUnique(pages[1..]), pages[0]);
    }
  }

  lemma {:induction false} IncreasingIsUnique(a: seq<int>, b: seq<int>)
    requires Increasing(a) && Increasing(b)
    requires forall x :: x in a <==> x in b
    ensures a == b
    decreases |a|
  {
    if b != [] {
      assert b[0] in b;
    }
    if a != [] {
      assert a[0] in a && a[0] in b;
      FirstIsLeast(a, b[0]);
      FirstIsLeast(b, a[0]);
      forall x ensures x in a[1..] <==> x in b[1..] {
        RestHasOthers(a, x);
        RestHasOthers(b, x);
      }
      IncreasingIsUnique(a[1..], b[1..]);
      assert a == [a[0]] + a[1..] && b == [b[0]] + b[1..];
    }
  }

  lemma FirstIsLeast(a: seq<int>, x: int)
    requires Increasing(a) && x in a
    ensures a[0] <= x
  {
  }

  lemma RestHasOthers(a: seq<int>, x: int)
    requires Increasing(a) && a != []
    ensures x in a[1..] <==> x in a && x != a[0]
  {
    assert a == [a[0]] + a[1..];
  }
}
