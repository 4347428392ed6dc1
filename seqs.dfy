/** Sequence combinators mirroring the JavaScript array methods the core uses. */
module Seqs {
  import opened Numbers

  /** `s.filter(p)`: the elements satisfying `p`, in their original order. */
  function Filter<T>(s: seq<T>, p: T -> bool): seq<T> {
    if s == [] then [] else (if p(s[0]) then [s[0]] else []) + Filter(s[1..], p)
  }

  /** The filter holds exactly the elements of `s` that satisfy `p`. */
  lemma FilterMembers<T>(s: seq<T>, p: T -> bool)
    ensures |Filter(s, p)| <= |s|
    ensures forall x :: x in Filter(s, p) <==> x in s && p(x)
  {
    if s != [] {
      FilterMembers(s[1..], p);
      assert s == [s[0]] + s[1..];
    }
  }

  lemma FilterAppend<T>(a: seq<T>, b: seq<T>, p: T -> bool)
    ensures Filter(a + b, p) == Filter(a, p) + Filter(b, p)
  {
    if a == [] {
      assert a + b == b;
    } else {
      assert (a + b)[1..] == a[1..] + b;
      FilterAppend(a[1..], b, p);
    }
  }

  lemma FilterCons<T>(x: T, s: seq<T>, p: T -> bool)
    ensures Filter([x] + s, p) == (if p(x) then [x] else []) + Filter(s, p)
  {
    assert ([x] + s)[1..] == s;
  }

  lemma HasKeyApply<T, K>(key: T -> K, k: K, x: T)
    ensures HasKey(key, k)(x) == (key(x) == k)
  {
  }

  /** Filtering a one-more-element prefix, as a left-to-right loop sees it. */
  lemma FilterSnoc<T>(s: seq<T>, i: nat, p: T -> bool)
    requires i < |s|
    ensures Filter(s[..i + 1], p) == Filter(s[..i], p) + (if p(s[i]) then [s[i]] else [])
  {
    assert s[..i + 1] == s[..i] + [s[i]];
    FilterAppend(s[..i], [s[i]], p);
    assert Filter([s[i]], p) == (if p(s[i]) then [s[i]] else []) + Filter([], p);
  }

  lemma FilterAll<T>(s: seq<T>, p: T -> bool)
    requires forall x :: x in s ==> p(x)
    ensures Filter(s, p) == s
  {
    if s != [] {
      FilterAll(s[1..], p);
    }
  }

  lemma FilterNone<T>(s: seq<T>, p: T -> bool)
    requires forall x :: x in s ==> !p(x)
    ensures Filter(s, p) == []
  {
    if s != [] {
      FilterNone(s[1..], p);
      assert s[0] in s;
    }
  }

  lemma FilterCommute<T>(s: seq<T>, p: T -> bool, q: T -> bool)
    ensures Filter(Filter(s, p), q) == Filter(Filter(s, q), p)
  {
    if s != [] {
      var h := [s[0]];
      assert s == h + s[1..];
      FilterAppend(h, s[1..], p);
      FilterAppend(h, s[1..], q);
      FilterAppend(Filter(h, p), Filter(s[1..], p), q);
      FilterAppend(Filter(h, q), Filter(s[1..], q), p);
      FilterCommute(s[1..], p, q);
    }
  }

  /** The filter of a prefix is a prefix of the filter. */
  lemma FilterPrefix<T>(s: seq<T>, n: nat, p: T -> bool)
    requires n <= |s|
    ensures Filter(s[..n], p) <= Filter(s, p)
  {
    assert s == s[..n] + s[n..];
    FilterAppend(s[..n], s[n..], p);
  }

  /** The predicate "the key of `t` is `k`". */
  function HasKey<T, K(==)>(key: T -> K, k: K): T -> bool {
    t => key(t) == k
  }

  /** The predicate "the key of `t` is one of `ks`". */
  function KeyIn<T, K(==)>(key: T -> K, ks: seq<K>): T -> bool {
    t => key(t) in ks
  }

  lemma KeyInApply<T, K>(key: T -> K, ks: seq<K>, x: T)
    ensures KeyIn(key, ks)(x) == (key(x) in ks)
  {
  }

  predicate Distinct<K(==)>(ks: seq<K>) {
    forall i, j :: 0 <= i < j < |ks| ==> ks[i] != ks[j]
  }

  /** `s.reduce((acc, x) => acc + w(x), 0)`: a left fold from 0. */
  function SumBy<T>(s: seq<T>, w: T -> JsNumber): JsNumber {
    if s == [] then Finite(0) else Plus(SumBy(s[..|s| - 1], w), w(s[|s| - 1]))
  }

  lemma SumByAppend<T>(a: seq<T>, b: seq<T>, w: T -> JsNumber)
    ensures SumBy(a + b, w) == Plus(SumBy(a, w), SumBy(b, w))
  {
    if b == [] {
      assert a + b == a;
    } else {
      assert (a + b)[..|a + b| - 1] == a + b[..|b| - 1];
      SumByAppend(a, b[..|b| - 1], w);
    }
  }

  lemma SumBySingle<T>(x: T, w: T -> JsNumber)
    ensures SumBy([x], w) == w(x)
  {
    assert [x][..0] == [];
  }

  /** A sum is a number exactly when every summand is. */
  lemma SumByFinite<T>(s: seq<T>, w: T -> JsNumber)
    ensures SumBy(s, w).Finite? <==> forall x :: x in s ==> w(x).Finite?
  {
    if s != [] {
      var init := s[..|s| - 1];
      SumByFinite(init, w);
      assert s == init + [s[|s| - 1]];
      forall x | x in s
        ensures x in init || x == s[|s| - 1]
      {
      }
    }
  }

  lemma SumBySnoc<T>(a: seq<T>, x: T, w: T -> JsNumber)
    ensures SumBy(a + [x], w) == Plus(SumBy(a, w), w(x))
  {
    assert (a + [x])[..|a|] == a;
  }

  /** Filtering a nonempty sequence, split at its last element. */
  lemma FilterLast<T>(s: seq<T>, p: T -> bool)
    requires s != []
    ensures Filter(s, p) == Filter(s[..|s| - 1], p) + (if p(s[|s| - 1]) then [s[|s| - 1]] else [])
  {
    FilterSnoc(s, |s| - 1, p);
    assert s[..|s|] == s;
  }

  /** Summing a list with an optional extra element at its end. */
  lemma SumByMaybeSnoc<T>(a: seq<T>, x: T, b: bool, w: T -> JsNumber)
    ensures SumBy(a + (if b then [x] else []), w) == if b then Plus(SumBy(a, w), w(x)) else SumBy(a, w)
  {
    if b {
      SumBySnoc(a, x, w);
    } else {
      assert a + [] == a;
    }
  }

  lemma KeyInSnocCases<T, K>(key: T -> K, ks: seq<K>, k: K, x: T)
    requires k !in ks
    ensures KeyIn(key, ks + [k])(x) == (KeyIn(key, ks)(x) || HasKey(key, k)(x))
    ensures !(KeyIn(key, ks)(x) && HasKey(key, k)(x))
  {
  }

  /** Adding `x` to exactly the one of two partial sums its side belongs to. */
  lemma PlusToOneSide(a: JsNumber, b: JsNumber, c: JsNumber, x: JsNumber, r: bool, p: bool, q: bool)
    requires a == Plus(b, c)
    requires r == (p || q) && !(p && q)
    ensures (if r then Plus(a, x) else a) == Plus(if p then Plus(b, x) else b, if q then Plus(c, x) else c)
  {
  }

  /** Summing over the keys `ks + [k]` splits into the keys `ks` and the key `k`. */
  lemma {:induction false} KeyInSnocSum<T, K>(s: seq<T>, key: T -> K, ks: seq<K>, k: K, w: T -> JsNumber)
    requires k !in ks
    ensures SumBy(Filter(s, KeyIn(key, ks + [k])), w)
         == Plus(SumBy(Filter(s, KeyIn(key, ks)), w), SumBy(Filter(s, HasKey(key, k)), w))
  {
    if s != [] {
      var init, x := s[..|s| - 1], s[|s| - 1];
      var r, p, q := KeyIn(key, ks + [k]), KeyIn(key, ks), HasKey(key, k);
      KeyInSnocSum(init, key, ks, k, w);
      FilterLast(s, r);
      FilterLast(s, p);
      FilterLast(s, q);
      SumByMaybeSnoc(Filter(init, r), x, r(x), w);
      SumByMaybeSnoc(Filter(init, p), x, p(x), w);
      SumByMaybeSnoc(Filter(init, q), x, q(x), w);
      KeyInSnocCases(key, ks, k, x);
      PlusToOneSide(SumBy(Filter(init, r), w), SumBy(Filter(init, p), w), SumBy(Filter(init, q), w), w(x), r(x), p(x), q(x));
    }
  }

  /** The group sums over the keys `ks`, added up in order. */
  function GroupSums<T, K(==)>(s: seq<T>, key: T -> K, ks: seq<K>, w: T -> JsNumber): JsNumber {
    if ks == [] then Finite(0)
    else Plus(GroupSums(s, key, ks[..|ks| - 1], w), SumBy(Filter(s, HasKey(key, ks[|ks| - 1])), w))
  }

  /**
    Conservation: adding up the per-key sums over distinct keys gives the sum
    over every element whose key is one of them.
  */
  lemma {:induction false} GroupSumsPartition<T, K>(s: seq<T>, key: T -> K, ks: seq<K>, w: T -> JsNumber)
    requires Distinct(ks)
    ensures GroupSums(s, key, ks, w) == SumBy(Filter(s, KeyIn(key, ks)), w)
  {
    if ks == [] {
      FilterNone(s, KeyIn(key, ks));
    } else {
      var init, k := ks[..|ks| - 1], ks[|ks| - 1];
      assert Distinct(init);
      GroupSumsPartition(s, key, init, w);
      assert ks == init + [k];
      assert k !in init;
      KeyInSnocSum(s, key, init, k, w);
    }
  }

  /**
    Adding up a list of group records whose values are the per-key sums, one
    record per key in `ks`, gives the group sums over `ks`.
  */
  lemma {:induction false} SumOverGroups<T, K, G>(gs: seq<G>, v: G -> JsNumber, s: seq<T>, key: T -> K, ks: seq<K>, w: T -> JsNumber)
    requires |gs| == |ks|
    requires forall i :: 0 <= i < |gs| ==> v(gs[i]) == SumBy(Filter(s, HasKey(key, ks[i])), w)
    ensures SumBy(gs, v) == GroupSums(s, key, ks, w)
  {
    if gs != [] {
      SumOverGroups(gs[..|gs| - 1], v, s, key, ks[..|ks| - 1], w);
    }
  }
}
