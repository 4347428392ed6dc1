/**
  `Array.prototype.sort` with the comparators the core passes to it, all of the
  form `(a, b) => key(b) - key(a)` (descending by a numeric key), followed by
  `slice(0, n)`.

  ECMA-262 has required the sort to be stable since ECMAScript 2019. When a key
  is NaN, SortCompare reads the comparator's NaN result as +0 ("equal"), the
  comparator is then no longer consistent and the order is left to the
  implementation; the model fixes one such order by inserting each element,
  in original order, ahead of every element it does not compare below.
*/
module Sorting {
  import opened Numbers
  import opened Seqs

  /** Inserts `x` into `s`, behind exactly the leading elements whose key is greater. */
  function Insert<T>(x: T, s: seq<T>, key: T -> JsNumber): seq<T> {
    if s == [] || !Greater(key(s[0]), key(x)) then [x] + s
    else [s[0]] + Insert(x, s[1..], key)
  }

  /** Inserting adds `x` and loses nothing. */
  lemma {:induction false} InsertPermutes<T>(x: T, s: seq<T>, key: T -> JsNumber)
    ensures multiset(Insert(x, s, key)) == multiset(s) + multiset{x}
  {
    if s != [] && Greater(key(s[0]), key(x)) {
      InsertPermutes(x, s[1..], key);
      assert s == [s[0]] + s[1..];
    }
  }

  /** `s.sort((a, b) => key(b) - key(a))`, as a value. */
  function SortDesc<T>(s: seq<T>, key: T -> JsNumber): (r: seq<T>)
    ensures multiset(r) == multiset(s)
    ensures |r| == |s|
  {
    if s == [] then []
    else
      assert s == [s[0]] + s[1..];
      InsertPermutes(s[0], SortDesc(s[1..], key), key);
      Insert(s[0], SortDesc(s[1..], key), key)
  }

  /** `s.slice(0, n)`. */
  function Take<T>(s: seq<T>, n: nat): (r: seq<T>)
    ensures |r| == if |s| < n then |s| else n
    ensures r <= s
  {
    if |s| <= n then s else s[..n]
  }

  predicate AllFinite<T>(s: seq<T>, key: T -> JsNumber) {
    forall i :: 0 <= i < |s| ==> key(s[i]).Finite?
  }

  /** Keys that are all numbers stay so in any selection of the elements. */
  lemma AllFiniteSub<T>(sub: seq<T>, s: seq<T>, key: T -> JsNumber)
    requires multiset(sub) <= multiset(s) && AllFinite(s, key)
    ensures AllFinite(sub, key)
  {
    forall i | 0 <= i < |sub|
      ensures key(sub[i]).Finite?
    {
      assert sub[i] in multiset(s);
      var k :| 0 <= k < |s| && s[k] == sub[i];
    }
  }

  /** No element has a greater key than one before it. */
  predicate Descending<T>(s: seq<T>, key: T -> JsNumber) {
    forall i, j :: 0 <= i < j < |s| ==> !Greater(key(s[j]), key(s[i]))
  }

  lemma {:induction false} InsertDescending<T>(x: T, s: seq<T>, key: T -> JsNumber)
    requires AllFinite(s, key) && key(x).Finite?
    requires Descending(s, key)
    ensures Descending(Insert(x, s, key), key)
  {
    var r := Insert(x, s, key);
    if s == [] || !Greater(key(s[0]), key(x)) {
      forall j | 1 <= j < |r|
        ensures !Greater(key(r[j]), key(r[0]))
      {
        assert r[j] == s[j - 1];
      }
    } else {
      var rest := Insert(x, s[1..], key);
      assert AllFinite(s[1..], key);
      InsertDescending(x, s[1..], key);
      InsertPermutes(x, s[1..], key);
      forall j | 0 <= j < |rest|
        ensures !Greater(key(rest[j]), key(s[0]))
      {
        assert rest[j] in multiset(rest);
        assert rest[j] in multiset(s[1..]) || rest[j] == x;
        if rest[j] != x {
          var k :| 0 <= k < |s[1..]| && s[1..][k] == rest[j];
          assert s[k + 1] == rest[j];
        }
      }
      assert r == [s[0]] + rest;
    }
  }

  /** With every key a number, the sort orders by key, greatest first. */
  lemma {:induction false} SortDescDescending<T>(s: seq<T>, key: T -> JsNumber)
    requires AllFinite(s, key)
    ensures Descending(SortDesc(s, key), key)
  {
    if s != [] {
      var tail := SortDesc(s[1..], key);
      assert AllFinite(s[1..], key);
      SortDescDescending(s[1..], key);
      forall i | 0 <= i < |tail|
        ensures key(tail[i]).Finite?
      {
        assert tail[i] in multiset(s[1..]);
        var k :| 0 <= k < |s[1..]| && s[1..][k] == tail[i];
      }
      InsertDescending(s[0], tail, key);
    }
  }

  /**
    Inserting keeps the elements of each key value in their order: `x` lands
    ahead of every element with its own key.
  */
  lemma {:induction false} InsertKeepsKeyClass<T>(x: T, s: seq<T>, key: T -> JsNumber, v: JsNumber)
    ensures Filter(Insert(x, s, key), HasKey(key, v))
         == (if key(x) == v then [x] else []) + Filter(s, HasKey(key, v))
  {
    var p := HasKey(key, v);
    HasKeyApply(key, v, x);
    if s == [] || !Greater(key(s[0]), key(x)) {
      FilterCons(x, s, p);
    } else {
      var rest := Insert(x, s[1..], key);
      var xs := if key(x) == v then [x] else [];
      InsertKeepsKeyClass(x, s[1..], key, v);
      HasKeyApply(key, v, s[0]);
      ConsPast(s[0], rest, s[1..], xs, p);
      assert s == [s[0]] + s[1..];
    }
  }

  /** Putting `y` in front of both sides of a filter equation, when `y` may overtake `xs`. */
  lemma ConsPast<T>(y: T, a: seq<T>, b: seq<T>, xs: seq<T>, p: T -> bool)
    requires Filter(a, p) == xs + Filter(b, p)
    requires p(y) ==> xs == []
    ensures Filter([y] + a, p) == xs + Filter([y] + b, p)
  {
    FilterCons(y, a, p);
    FilterCons(y, b, p);
    var fa, fb := Filter(a, p), Filter(b, p);
    if p(y) {
      assert xs + fb == fb;
    } else {
      assert [] + fa == fa && [] + fb == fb;
    }
  }

  /**
    Stability: for every key value, the elements with that key keep their
    original relative order (the sort only moves elements past elements with
    a different key).
  */
  lemma {:induction false} SortDescStable<T>(s: seq<T>, key: T -> JsNumber, v: JsNumber)
    ensures Filter(SortDesc(s, key), HasKey(key, v)) == Filter(s, HasKey(key, v))
  {
    if s != [] {
      SortDescStable(s[1..], key, v);
      InsertKeepsKeyClass(s[0], SortDesc(s[1..], key), key, v);
      HasKeyApply(key, v, s[0]);
      FilterCons(s[0], s[1..], HasKey(key, v));
      assert s == [s[0]] + s[1..];
    }
  }

  /**
    The first `n` of the sorted list: min(n, |s|) elements drawn from `s`;
    when every key is a number, the ones with the greatest keys (nothing left
    out has a greater key than anything kept), greatest key first; and within
    each key value the earliest elements of `s` in their original order.
  */
  lemma TopOfSorted<T>(s: seq<T>, key: T -> JsNumber, n: nat)
    ensures |Take(SortDesc(s, key), n)| <= n
    ensures |Take(SortDesc(s, key), n)| == if |s| < n then |s| else n
    ensures multiset(Take(SortDesc(s, key), n)) <= multiset(s)
    ensures AllFinite(s, key) ==> NoneLeftAbove(Take(SortDesc(s, key), n), s, key)
    ensures AllFinite(s, key) ==> Descending(Take(SortDesc(s, key), n), key)
    ensures forall v :: Filter(Take(SortDesc(s, key), n), HasKey(key, v)) <= Filter(s, HasKey(key, v))
  {
    var sorted := SortDesc(s, key);
    var top := Take(sorted, n);
    assert sorted == top + sorted[|top|..];
    assert multiset(sorted) == multiset(top) + multiset(sorted[|top|..]);
    if AllFinite(s, key) {
      SortDescDescending(s, key);
      TopIsLargest(s, key, n);
    }
    forall v
      ensures Filter(top, HasKey(key, v)) <= Filter(s, HasKey(key, v))
    {
      FilterPrefix(sorted, |top|, HasKey(key, v));
      assert sorted[..|top|] == top;
      SortDescStable(s, key, v);
    }
  }

  /** No element of `s` left out of `top` has a greater key than an element kept in it. */
  ghost predicate NoneLeftAbove<T>(top: seq<T>, s: seq<T>, key: T -> JsNumber) {
    forall x, y :: x in multiset(s) - multiset(top) && y in top ==> !Greater(key(x), key(y))
  }

  /** With every key a number, the first `n` of the sorted list are the ones with the greatest keys. */
  lemma TopIsLargest<T>(s: seq<T>, key: T -> JsNumber, n: nat)
    requires AllFinite(s, key)
    ensures NoneLeftAbove(Take(SortDesc(s, key), n), s, key)
  {
    var sorted := SortDesc(s, key);
    var top := Take(sorted, n);
    var rest := sorted[|top|..];
    assert sorted == top + rest;
    assert multiset(s) - multiset(top) == multiset(rest);
    SortDescDescending(s, key);
    forall x, y | x in multiset(s) - multiset(top) && y in top
      ensures !Greater(key(x), key(y))
    {
      assert x in rest;
      var j :| 0 <= j < |rest| && rest[j] == x;
      var i :| 0 <= i < |top| && top[i] == y;
      assert sorted[i] == y && sorted[|top| + j] == x;
    }
  }

  /**
    Where `Insert` puts `x`: behind the first `m` elements when exactly those
    compare above it.
  */
  lemma {:induction false} InsertAt<T>(x: T, s: seq<T>, key: T -> JsNumber, m: nat)
    requires m <= |s|
    requires forall k :: 0 <= k < m ==> Greater(key(s[k]), key(x))
    requires m < |s| ==> !Greater(key(s[m]), key(x))
    ensures Insert(x, s, key) == s[..m] + [x] + s[m..]
  {
    if m == 0 {
      assert s[..0] == [] && s[0..] == s;
    } else {
      var t := s[1..];
      InsertAt(x, t, key, m - 1);
      calc {
        Insert(x, s, key);
        [s[0]] + Insert(x, t, key);
        [s[0]] + (t[..m - 1] + [x] + t[m - 1..]);
        { assert t[..m - 1] == s[1..m] && t[m - 1..] == s[m..]; }
        [s[0]] + (s[1..m] + [x] + s[m..]);
        { ConsSpliced(s[0], s[1..m], x, s[m..]); }
        ([s[0]] + s[1..m]) + [x] + s[m..];
        { assert [s[0]] + s[1..m] == s[..m]; }
        s[..m] + [x] + s[m..];
      }
    }
  }

  /**
    `a.sort((x, y) => key(y) - key(x))` on the array itself: an insertion
    sort that takes the elements from the last to the first and moves each
    one up past the elements that compare above it.
  */
  method SortDescInPlace<T>(a: array<T>, key: T -> JsNumber)
    modifies a
    ensures a[..] == SortDesc(old(a[..]), key)
  {
    ghost var orig := a[..];
    var i := a.Length;
    while i > 0
      invariant 0 <= i <= a.Length
      invariant a[..i] == orig[..i]
      invariant a[i..] == SortDesc(orig[i..], key)
    {
      i := i - 1;
      ghost var s := a[i + 1..];
      SortDescStep(orig, i, s, key);
      assert a[i] == orig[i] && a[..i] == orig[..i] by {
        assert a[..i + 1][i] == orig[..i + 1][i];
        assert a[..i + 1][..i] == orig[..i + 1][..i];
      }
      InsertInPlace(a, i, key);
    }
    assert a[0..] == a[..] && orig[0..] == orig;
  }

  /**
    One pass of the insertion sort: `a[i]` moves up past the leading elements
    of `a[i + 1..]` whose key is greater, which shift down by one.
  */
  method InsertInPlace<T>(a: array<T>, i: nat, key: T -> JsNumber)
    requires i < a.Length
    modifies a
    ensures a[..i] == old(a[..i])
    ensures a[i..] == Insert(old(a[i]), old(a[i + 1..]), key)
  {
    var x := a[i];
    ghost var s := a[i + 1..];
    ghost var before := a[..i];
    var j := i;
    while j + 1 < a.Length && Greater(key(a[j + 1]), key(x))
      invariant i <= j < a.Length
      invariant forall k :: 0 <= k < i ==> a[k] == before[k]
      invariant forall k :: i <= k < j ==> a[k] == s[k - i]
      invariant forall k :: j < k < a.Length ==> a[k] == s[k - i - 1]
      invariant forall k :: 0 <= k < j - i ==> Greater(key(s[k]), key(x))
      decreases a.Length - j
    {
      a[j] := a[j + 1];
      j := j + 1;
    }
    a[j] := x;
    InsertFinish(a[..], before, s, x, key, i, j);
    assert a[..i] == a[..][..i] && a[i..] == a[..][i..];
  }

  /** The array after the last shift and the final write: prefix untouched, `x` inserted into the rest. */
  lemma InsertFinish<T>(r: seq<T>, before: seq<T>, s: seq<T>, x: T, key: T -> JsNumber, i: nat, j: nat)
    requires |before| == i && |r| == i + 1 + |s| && i <= j < |r| && r[j] == x
    requires forall k :: 0 <= k < i ==> r[k] == before[k]
    requires forall k :: i <= k < j ==> r[k] == s[k - i]
    requires forall k :: j < k < |r| ==> r[k] == s[k - i - 1]
    requires forall k :: 0 <= k < j - i ==> Greater(key(s[k]), key(x))
    requires j + 1 < |r| ==> !Greater(key(s[j - i]), key(x))
    ensures r[..i] == before
    ensures r[i..] == Insert(x, s, key)
  {
    InsertAt(x, s, key, j - i);
    SuffixSpliced(r, s, x, i, j);
    assert r[..i] == before;
  }

  lemma SuffixSpliced<T>(r: seq<T>, s: seq<T>, x: T, i: nat, j: nat)
    requires |r| == i + 1 + |s| && i <= j < |r| && r[j] == x
    requires forall k :: i <= k < j ==> r[k] == s[k - i]
    requires forall k :: j < k < |r| ==> r[k] == s[k - i - 1]
    ensures r[i..] == s[..j - i] + [x] + s[j - i..]
  {
    var t := r[i..];
    assert forall k :: 0 <= k < j - i ==> t[k] == r[k + i];
    assert forall k :: j - i < k < |t| ==> t[k] == r[k + i];
    Spliced(t, s, x, j - i);
  }

  lemma ConsSpliced<T>(y: T, a: seq<T>, x: T, b: seq<T>)
    ensures [y] + (a + [x] + b) == ([y] + a) + [x] + b
  {
  }

  /** A sequence that agrees with `s` around position `m` and holds `x` there is `s` with `x` spliced in at `m`. */
  lemma Spliced<T>(r: seq<T>, s: seq<T>, x: T, m: nat)
    requires |r| == |s| + 1 && m <= |s| && r[m] == x
    requires forall k :: 0 <= k < m ==> r[k] == s[k]
    requires forall k :: m < k < |r| ==> r[k] == s[k - 1]
    ensures r == s[..m] + [x] + s[m..]
  {
  }

  /** One step of the sort from the back: the sorted suffix from `i` is the sorted suffix from `i + 1` with `s[i]` inserted. */
  lemma SortDescStep<T>(orig: seq<T>, i: nat, sorted: seq<T>, key: T -> JsNumber)
    requires i < |orig| && sorted == SortDesc(orig[i + 1..], key)
    ensures SortDesc(orig[i..], key) == Insert(orig[i], sorted, key)
  {
    assert orig[i..][1..] == orig[i + 1..];
  }
}
