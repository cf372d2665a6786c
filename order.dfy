/** Go's ordering of strings (`<` compares UTF-8 bytes, which orders strings
    by code points) and the in-place sort `sort.Slice` performs with it. */
module StringOrder {

  /** `a <= b` in Go: lexicographic comparison of code points. */
  predicate Below(a: string, b: string)
    decreases |a|
  {
    |a| == 0 || (|b| > 0 && (a[0] < b[0] || (a[0] == b[0] && Below(a[1..], b[1..]))))
  }

  lemma {:induction false} BelowTotal(a: string, b: string)
    ensures Below(a, b) || Below(b, a)
    decreases |a|
  {
    if |a| > 0 && |b| > 0 && a[0] == b[0] {
      BelowTotal(a[1..], b[1..]);
    }
  }

  lemma {:induction false} BelowAntisymmetric(a: string, b: string)
    requires Below(a, b) && Below(b, a)
    ensures a == b
    decreases |a|
  {
    if |a| > 0 {
      BelowAntisymmetric(a[1..], b[1..]);
      assert a == [a[0]] + a[1..] && b == [b[0]] + b[1..];
    }
  }

  lemma {:induction false} BelowTransitive(a: string, b: string, c: string)
    requires Below(a, b) && Below(b, c)
    ensures Below(a, c)
    decreases |a|
  {
    if |a| > 0 && a[0] == b[0] && b[0] == c[0] {
      BelowTransitive(a[1..], b[1..], c[1..]);
    }
  }

  /** Every element is at most its successor. */
  predicate Sorted(s: seq<string>) {
    forall i :: 0 < i < |s| ==> Below(s[i - 1], s[i])
  }

  /** The first element of a sorted sequence is at most every element. */
  lemma {:induction false} SortedHeadLeast(s: seq<string>, j: nat)
    requires Sorted(s) && j < |s|
    ensures Below(s[0], s[j])
  {
    if j == 0 {
      BelowTotal(s[0], s[0]);
    } else {
      SortedHeadLeast(s, j - 1);
      BelowTransitive(s[0], s[j - 1], s[j]);
    }
  }

  /** Two sorted sequences with the same elements are the same sequence: the
      result of sorting does not depend on the order the elements came in. */
  lemma {:induction false} SortedUnique(a: seq<string>, b: seq<string>)
    requires Sorted(a) && Sorted(b) && multiset(a) == multiset(b)
    ensures a == b
    decreases |a|
  {
    if |a| > 0 {
      assert |b| == |a| by { assert |multiset(a)| == |multiset(b)|; }
      var i := IndexOfElement(b, a[0]);
      var j := IndexOfElement(a, b[0]);
      SortedHeadLeast(a, j);
      SortedHeadLeast(b, i);
      BelowAntisymmetric(a[0], b[0]);
      MultisetTail(a);
      MultisetTail(b);
      SortedUnique(a[1..], b[1..]);
      assert a == [a[0]] + a[1..] && b == [b[0]] + b[1..];
    }
  }

  /** A position where an element of the multiset of `s` sits in `s`. */
  lemma IndexOfElement(s: seq<string>, x: string) returns (i: nat)
    requires x in multiset(s)
    ensures i < |s| && s[i] == x
  {
    i :| 0 <= i < |s| && s[i] == x;
  }

  lemma MultisetTail(s: seq<string>)
    requires |s| > 0
    ensures multiset(s[1..]) == multiset(s) - multiset{s[0]}
  {
    assert s == [s[0]] + s[1..];
  }

  /** Inserts `x` in front of the first element it is at most. */
  function Insert(x: string, s: seq<string>): (r: seq<string>)
    ensures multiset(r) == multiset(s) + multiset{x}
    ensures |r| > 0 && (r[0] == x || (|s| > 0 && r[0] == s[0]))
  {
    if |s| == 0 || Below(x, s[0]) then [x] + s
    else
      assert s == [s[0]] + s[1..];
      [s[0]] + Insert(x, s[1..])
  }

  lemma {:induction false} InsertSorted(x: string, s: seq<string>)
    requires Sorted(s)
    ensures Sorted(Insert(x, s))
  {
    if |s| > 0 && !Below(x, s[0]) {
      InsertSorted(x, s[1..]);
      BelowTotal(x, s[0]);
      var r := Insert(x, s);
      assert r == [s[0]] + Insert(x, s[1..]);
      assert |s| > 1 ==> Below(s[0], s[1]);
    }
  }

  /** Every multiset of strings has a sorted arrangement. */
  lemma {:induction false} SortedExists(m: multiset<string>)
    ensures exists s :: Sorted(s) && multiset(s) == m
    decreases |m|
  {
    if |m| == 0 {
      var e: seq<string> := [];
      assert Sorted(e) && multiset(e) == m;
    } else {
      var x :| x in m;
      var rest := m - multiset{x};
      assert |rest| < |m| by { assert m == rest + multiset{x}; }
      SortedExists(rest);
      var s :| Sorted(s) && multiset(s) == rest;
      InsertSorted(x, s);
      assert multiset(Insert(x, s)) == m;
    }
  }

  /** `sort.Slice(a, less)` with Go's string `<`, in place: the array ends
      sorted and holds the same strings. */
  method SortStrings(a: array<string>)
    modifies a
    ensures Sorted(a[..])
    ensures multiset(a[..]) == old(multiset(a[..]))
  {
    if a.Length == 0 {
      return;
    }
    var i := 1;
    while i < a.Length
      invariant 1 <= i <= a.Length
      invariant forall k :: 0 < k < i ==> Below(a[k - 1], a[k])
      invariant multiset(a[..]) == old(multiset(a[..]))
    {
      InsertLeft(a, i);
      i := i + 1;
    }
  }

  /** One insertion-sort pass: moves `a[i]` left past every larger string, so
      that `a[..i + 1]` becomes sorted when `a[..i]` was. */
  method InsertLeft(a: array<string>, i: nat)
    requires 0 < i < a.Length
    requires forall k :: 0 < k < i ==> Below(a[k - 1], a[k])
    modifies a
    ensures forall k :: 0 < k <= i ==> Below(a[k - 1], a[k])
    ensures multiset(a[..]) == old(multiset(a[..]))
  {
    var j := i;
    while j > 0 && !Below(a[j - 1], a[j])
      invariant 0 <= j <= i
      invariant forall k :: 0 < k <= i && k != j ==> Below(a[k - 1], a[k])
      invariant 0 < j < i ==> Below(a[j - 1], a[j + 1])
      invariant multiset(a[..]) == old(multiset(a[..]))
    {
      BelowTotal(a[j - 1], a[j]);
      SwapAdjacent(a, j);
      j := j - 1;
    }
  }

  /** Exchanges `a[j - 1]` and `a[j]`. */
  method SwapAdjacent(a: array<string>, j: nat)
    requires 0 < j < a.Length
    modifies a
    ensures a[j - 1] == old(a[j]) && a[j] == old(a[j - 1])
    ensures forall k :: 0 <= k < a.Length && k != j - 1 && k != j ==> a[k] == old(a[k])
    ensures multiset(a[..]) == old(multiset(a[..]))
  {
    a[j - 1], a[j] := a[j], a[j - 1];
  }
}
