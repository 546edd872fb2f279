/**
 * `Array.prototype.sort` with a comparator `(a, b) => key(a) - key(b)`, as
 * ECMAScript 2019 requires it to behave: a stable sort.  Any stable sort of a
 * sequence gives the same result, so the result is specified by insertion
 * sort; `SortInPlace` is that sort done in place on an array.
 */
module StableSort {

  /** Non-decreasing by key. */
  predicate SortedBy<T>(s: seq<T>, key: T -> int) {
    forall i, j :: 0 <= i < j < |s| ==> key(s[i]) <= key(s[j])
  }

  /** `x` placed after every element of `t` whose key is at most its own, scanning from the right. */
  function InsertAfter<T>(t: seq<T>, x: T, key: T -> int): (r: seq<T>)
    ensures |r| == |t| + 1
  {
    if |t| == 0 then [x]
    else if key(t[|t| - 1]) <= key(x) then t + [x]
    else
      assert t == t[..|t| - 1] + [t[|t| - 1]];
      InsertAfter(t[..|t| - 1], x, key) + [t[|t| - 1]]
  }

  /** The stable sort of `s` by `key`: each element inserted, in order, into the sorted prefix. */
  function Sort<T>(s: seq<T>, key: T -> int): (r: seq<T>)
    ensures |r| == |s|
  {
    if |s| == 0 then []
    else
      assert s == s[..|s| - 1] + [s[|s| - 1]];
      InsertAfter(Sort(s[..|s| - 1], key), s[|s| - 1], key)
  }

  /** Inserting adds `x` and loses nothing. */
  lemma {:induction false} InsertAfterPermutes<T>(t: seq<T>, x: T, key: T -> int)
    ensures multiset(InsertAfter(t, x, key)) == multiset(t) + multiset{x}
    decreases |t|
  {
    if |t| > 0 && key(t[|t| - 1]) > key(x) {
      var t', last := t[..|t| - 1], t[|t| - 1];
      InsertAfterPermutes(t', x, key);
      assert t == t' + [last];
    }
  }

  /** The sort is a permutation. */
  lemma {:induction false} SortPermutes<T>(s: seq<T>, key: T -> int)
    ensures multiset(Sort(s, key)) == multiset(s)
  {
    if |s| > 0 {
      var s', last := s[..|s| - 1], s[|s| - 1];
      SortPermutes(s', key);
      InsertAfterPermutes(Sort(s', key), last, key);
      assert s == s' + [last];
    }
  }

  lemma {:induction false} InsertAfterSorted<T>(t: seq<T>, x: T, key: T -> int)
    requires SortedBy(t, key)
    ensures SortedBy(InsertAfter(t, x, key), key)
    decreases |t|
  {
    if |t| > 0 && key(t[|t| - 1]) > key(x) {
      var t', last := t[..|t| - 1], t[|t| - 1];
      InsertAfterSorted(t', x, key);
      var r' := InsertAfter(t', x, key);
      InsertAfterPermutes(t', x, key);
      forall y | y in r'
        ensures key(y) <= key(last)
      {
        assert y in multiset(r');
        if y != x {
          assert y in multiset(t');
          var k :| 0 <= k < |t'| && t'[k] == y;
          assert t[k] == y;
        }
      }
      assert InsertAfter(t, x, key) == r' + [last];
    }
  }

  /** The sort orders by key. */
  lemma {:induction false} SortSorted<T>(s: seq<T>, key: T -> int)
    ensures SortedBy(Sort(s, key), key)
  {
    if |s| > 0 {
      SortSorted(s[..|s| - 1], key);
      InsertAfterSorted(Sort(s[..|s| - 1], key), s[|s| - 1], key);
    }
  }

  /** The elements with key `k`, in order. */
  function Filter<T>(s: seq<T>, key: T -> int, k: int): seq<T> {
    if |s| == 0 then []
    else Filter(s[..|s| - 1], key, k) + (if key(s[|s| - 1]) == k then [s[|s| - 1]] else [])
  }

  lemma {:induction false} FilterConcat<T>(a: seq<T>, b: seq<T>, key: T -> int, k: int)
    ensures Filter(a + b, key, k) == Filter(a, key, k) + Filter(b, key, k)
    decreases |b|
  {
    if |b| == 0 {
      assert a + b == a;
    } else {
      assert (a + b)[..|a + b| - 1] == a + b[..|b| - 1];
      FilterConcat(a, b[..|b| - 1], key, k);
    }
  }

  /** Inserting `x` keeps the order among every key's elements, with `x` last among its own. */
  lemma {:induction false} FilterInsertAfter<T>(t: seq<T>, x: T, key: T -> int, k: int)
    ensures Filter(InsertAfter(t, x, key), key, k) == Filter(t, key, k) + (if key(x) == k then [x] else [])
    decreases |t|
  {
    if |t| == 0 {
      assert Filter([x], key, k) == Filter([], key, k) + (if key(x) == k then [x] else []);
    } else if key(t[|t| - 1]) <= key(x) {
      FilterConcat(t, [x], key, k);
      assert Filter([x], key, k) == Filter([], key, k) + (if key(x) == k then [x] else []);
    } else {
      var t', last := t[..|t| - 1], t[|t| - 1];
      FilterInsertAfter(t', x, key, k);
      var r' := InsertAfter(t', x, key);
      assert (r' + [last])[..|r' + [last]| - 1] == r';
    }
  }

  /** Stability: for every key, the sort keeps the elements with that key in their original order. */
  lemma {:induction false} SortStable<T>(s: seq<T>, key: T -> int, k: int)
    ensures Filter(Sort(s, key), key, k) == Filter(s, key, k)
  {
    if |s| > 0 {
      SortStable(s[..|s| - 1], key, k);
      FilterInsertAfter(Sort(s[..|s| - 1], key), s[|s| - 1], key, k);
    }
  }

  /** The position of the first element with the smallest key. */
  function EarliestMinIndex<T>(s: seq<T>, key: T -> int): (i: nat)
    requires |s| > 0
    ensures i < |s|
    ensures forall j :: 0 <= j < |s| ==> key(s[i]) <= key(s[j])
    ensures forall j :: 0 <= j < i ==> key(s[i]) < key(s[j])
  {
    if |s| == 1 then 0
    else
      var i := EarliestMinIndex(s[..|s| - 1], key);
      assert forall j :: 0 <= j < |s| - 1 ==> s[..|s| - 1][j] == s[j];
      if key(s[|s| - 1]) < key(s[i]) then |s| - 1 else i
  }

  lemma FilterEmpty<T>(s: seq<T>, key: T -> int, k: int)
    requires forall j :: 0 <= j < |s| ==> key(s[j]) != k
    ensures Filter(s, key, k) == []
  {
  }

  lemma FilterOne<T>(x: T, key: T -> int, k: int)
    requires key(x) == k
    ensures Filter([x], key, k) == [x]
  {
    assert [x][..0] == [];
  }

  /** The first element with key `k` heads the elements with key `k`. */
  lemma FilterHead<T>(s: seq<T>, i: int, key: T -> int)
    requires 0 <= i < |s|
    requires forall j :: 0 <= j < i ==> key(s[j]) != key(s[i])
    ensures |Filter(s, key, key(s[i]))| > 0 && Filter(s, key, key(s[i]))[0] == s[i]
  {
    var k := key(s[i]);
    assert s == s[..i] + [s[i]] + s[i + 1..];
    FilterConcat(s[..i] + [s[i]], s[i + 1..], key, k);
    FilterConcat(s[..i], [s[i]], key, k);
    FilterEmpty(s[..i], key, k);
    FilterOne(s[i], key, k);
  }

  /** The first element after sorting has the smallest key. */
  lemma SortHeadKey<T>(s: seq<T>, key: T -> int)
    requires |s| > 0
    ensures key(Sort(s, key)[0]) == key(s[EarliestMinIndex(s, key)])
  {
    var r, i := Sort(s, key), EarliestMinIndex(s, key);
    SortSorted(s, key);
    SortPermutes(s, key);
    assert r[0] in multiset(r);
    assert r[0] in multiset(s);
    var q :| 0 <= q < |s| && s[q] == r[0];
    assert s[i] in multiset(s);
    assert s[i] in multiset(r);
    var p :| 0 <= p < |r| && r[p] == s[i];
  }

  /** The sort puts first the earliest of the elements with the smallest key. */
  lemma SortHead<T>(s: seq<T>, key: T -> int)
    requires |s| > 0
    ensures Sort(s, key)[0] == s[EarliestMinIndex(s, key)]
  {
    var r, i := Sort(s, key), EarliestMinIndex(s, key);
    SortHeadKey(s, key);
    SortStable(s, key, key(s[i]));
    FilterHead(s, i, key);
    FilterHead(r, 0, key);
  }

  /** `array.sort((a, b) => key(a) - key(b))`: insertion sort in place. */
  method SortInPlace<T>(a: array<T>, key: T -> int)
    modifies a
    ensures a[..] == Sort(old(a[..]), key)
  {
    ghost var s := a[..];
    var i := 0;
    while i < a.Length
      invariant 0 <= i <= a.Length
      invariant a[..i] == Sort(s[..i], key)
      invariant a[i..] == s[i..]
    {
      ghost var before := a[..];
      InsertLast(a, i, key);
      SortStep(s, before, a[..], i, key);
      i := i + 1;
    }
    assert a[..] == a[..a.Length] && s == s[..a.Length];
  }

  /** Inserting the next element into the sorted prefix sorts one element more. */
  lemma SortStep<T>(s: seq<T>, before: seq<T>, after: seq<T>, i: int, key: T -> int)
    requires 0 <= i < |s| == |before| == |after|
    requires before[..i] == Sort(s[..i], key) && before[i..] == s[i..]
    requires after[..i + 1] == InsertAfter(before[..i], before[i], key) && after[i + 1..] == before[i + 1..]
    ensures after[..i + 1] == Sort(s[..i + 1], key) && after[i + 1..] == s[i + 1..]
  {
    assert s[..i + 1][..i] == s[..i];
    assert before[i] == before[i..][0] == s[i..][0] == s[i];
    assert before[i + 1..] == before[i..][1..];
    assert s[i + 1..] == s[i..][1..];
  }

  /** One pass of insertion sort: `a[i]` moved left past every larger key of the prefix `a[..i]`. */
  method InsertLast<T>(a: array<T>, i: int, key: T -> int)
    requires 0 <= i < a.Length
    modifies a
    ensures a[..i + 1] == InsertAfter(old(a[..i]), old(a[i]), key)
    ensures a[i + 1..] == old(a[i + 1..])
  {
    var x := a[i];
    ghost var t := a[..i];
    ghost var rest := a[i + 1..];
    var j := i;
    assert t[..j] == t && t[j..] == [] && t + [] == t;
    while j > 0 && key(a[j - 1]) > key(x)
      invariant 0 <= j <= i
      invariant forall k :: 0 <= k < j ==> a[k] == t[k]
      invariant forall k :: j < k <= i ==> a[k] == t[k - 1]
      invariant a[i + 1..] == rest
      invariant InsertAfter(t, x, key) == InsertAfter(t[..j], x, key) + t[j..]
    {
      ShiftStep(t, j, x, key);
      var y := a[j - 1];
      assert y == t[j - 1];
      a[j] := y;
      assert forall k :: j <= k <= i ==> a[k] == t[k - 1];
      j := j - 1;
    }
    assert a[..j] == t[..j];
    InsertStop(t, j, x, key);
    a[j] := x;
    Assemble(a[..i + 1], t, j, x);
  }

  /** A sequence that agrees with `t` before `j`, holds `x` at `j` and `t` shifted by one after it. */
  lemma Assemble<T>(s: seq<T>, t: seq<T>, j: int, x: T)
    requires 0 <= j <= |t| && |s| == |t| + 1
    requires forall k :: 0 <= k < j ==> s[k] == t[k]
    requires s[j] == x
    requires forall k :: j < k < |s| ==> s[k] == t[k - 1]
    ensures s == t[..j] + [x] + t[j..]
  {
    var r := t[..j] + [x] + t[j..];
    assert |r| == |s|;
    forall k | 0 <= k < |s|
      ensures s[k] == r[k]
    {
      if k < j {
        assert r[k] == t[k];
      } else if k > j {
        assert r[k] == t[j..][k - j - 1];
      }
    }
  }

  lemma ShiftStep<T>(t: seq<T>, j: int, x: T, key: T -> int)
    requires 0 < j <= |t| && key(t[j - 1]) > key(x)
    requires InsertAfter(t, x, key) == InsertAfter(t[..j], x, key) + t[j..]
    ensures InsertAfter(t, x, key) == InsertAfter(t[..j - 1], x, key) + t[j - 1..]
  {
    var u := t[..j];
    InsertBeforeLast(u, x, key);
    assert u[..|u| - 1] == t[..j - 1] && u[|u| - 1] == t[j - 1];
    AppendShift(InsertAfter(t, x, key), InsertAfter(u, x, key), InsertAfter(t[..j - 1], x, key), t, j);
  }

  lemma AppendShift<T>(whole: seq<T>, a: seq<T>, b: seq<T>, t: seq<T>, j: int)
    requires 0 < j <= |t|
    requires whole == a + t[j..] && a == b + [t[j - 1]]
    ensures whole == b + t[j - 1..]
  {
    assert t[j - 1..] == [t[j - 1]] + t[j..];
  }

  lemma InsertBeforeLast<T>(u: seq<T>, x: T, key: T -> int)
    requires |u| > 0 && key(u[|u| - 1]) > key(x)
    ensures InsertAfter(u, x, key) == InsertAfter(u[..|u| - 1], x, key) + [u[|u| - 1]]
  {
  }

  lemma InsertStop<T>(t: seq<T>, j: int, x: T, key: T -> int)
    requires 0 <= j <= |t| && (j == 0 || key(t[j - 1]) <= key(x))
    ensures InsertAfter(t[..j], x, key) == t[..j] + [x]
  {
  }
}
