/** Python's `sorted(..., key=...)`, `sorted(set(...))` and the
    order-preserving de-duplication the bot writes as a loop. */
module Sorting {
  import opened Text

  predicate SortedBy<T>(s: seq<T>, key: T -> string) {
    forall i, j :: 0 <= i < j < |s| ==> StrLe(key(s[i]), key(s[j]))
  }

  predicate StrictlySorted(s: seq<string>) {
    forall i, j :: 0 <= i < j < |s| ==> StrLt(s[i], s[j])
  }

  predicate Distinct<T(==)>(s: seq<T>) {
    forall i, j :: 0 <= i < j < |s| ==> s[i] != s[j]
  }

  /** Inserts `x` before the first element whose key is not smaller, which
      keeps equal keys in their original order. */
  function InsertBy<T>(x: T, s: seq<T>, key: T -> string): (r: seq<T>)
    requires SortedBy(s, key)
    ensures SortedBy(r, key)
    ensures multiset(r) == multiset(s) + multiset{x}
    ensures |r| == |s| + 1
  {
    if s == [] || StrLe(key(x), key(s[0])) then
      forall j | 0 < j < |s| ensures StrLe(key(x), key(s[j])) {
        StrLeTransitive(key(x), key(s[0]), key(s[j]));
      }
      SortedCons(x, s, key);
      [x] + s
    else
      StrLeTotal(key(x), key(s[0]));
      var rest := InsertBy(x, s[1..], key);
      assert s == [s[0]] + s[1..];
      InsertedBound(x, s, rest, key);
      SortedCons(s[0], rest, key);
      [s[0]] + rest
  }

  /** Each element of `rest`, which holds the tail of `s` and `x`, has a key
      no smaller than that of the head of `s`. */
  lemma InsertedBound<T>(x: T, s: seq<T>, rest: seq<T>, key: T -> string)
    requires SortedBy(s, key) && s != [] && StrLe(key(s[0]), key(x))
    requires multiset(rest) == multiset(s[1..]) + multiset{x}
    ensures forall j :: 0 <= j < |rest| ==> StrLe(key(s[0]), key(rest[j]))
  {
    forall j | 0 <= j < |rest| ensures StrLe(key(s[0]), key(rest[j])) {
      assert rest[j] in multiset(rest);
      if rest[j] != x {
        assert rest[j] in multiset(s[1..]);
        var k :| 1 <= k < |s| && s[k] == rest[j];
      }
    }
  }

  lemma SortedCons<T>(y: T, s: seq<T>, key: T -> string)
    requires SortedBy(s, key)
    requires forall j :: 0 <= j < |s| ==> StrLe(key(y), key(s[j]))
    ensures SortedBy([y] + s, key)
  {
    var r := [y] + s;
    forall i, j | 0 <= i < j < |r| ensures StrLe(key(r[i]), key(r[j])) {
      assert r[j] == s[j - 1];
      if i > 0 {
        assert r[i] == s[i - 1];
      }
    }
  }

  /** A stable insertion sort: the model of `sorted(s, key=key)`. */
  function SortBy<T>(s: seq<T>, key: T -> string): (r: seq<T>)
    ensures SortedBy(r, key)
    ensures multiset(r) == multiset(s)
    ensures |r| == |s|
  {
    if s == [] then [] else
      assert s == [s[0]] + s[1..];
      InsertBy(s[0], SortBy(s[1..], key), key)
  }

  /** `sorted(s)` for strings. */
  function SortStrings(s: seq<string>): (r: seq<string>)
    ensures SortedBy(r, x => x)
    ensures multiset(r) == multiset(s)
  {
    SortBy(s, x => x)
  }

  /** Order-preserving de-duplication: each element once, where it first
      occurs. */
  function Dedup<T(==)>(s: seq<T>): (r: seq<T>)
    ensures Distinct(r)
    ensures forall x :: x in r ==> x in s
    ensures forall x :: x in s ==> x in r
  {
    if s == [] then []
    else
      var d := Dedup(s[..|s| - 1]);
      assert s == s[..|s| - 1] + [s[|s| - 1]];
      if s[|s| - 1] in d then d else d + [s[|s| - 1]]
  }

  /** Index of the first occurrence of `x` in `s`. */
  function FirstIndex<T(==)>(s: seq<T>, x: T): (i: nat)
    requires x in s
    ensures i < |s| && s[i] == x && x !in s[..i]
  {
    if s[0] == x then 0 else
      assert s == [s[0]] + s[1..];
      1 + FirstIndex(s[1..], x)
  }

  lemma FirstIndexSnoc<T>(s: seq<T>, x: T, y: T)
    requires y in s
    ensures FirstIndex(s + [x], y) == FirstIndex(s, y)
  {
    var t := s + [x];
    var i := FirstIndex(s, y);
    var j := FirstIndex(t, y);
    assert forall k :: 0 <= k < i ==> s[k] != y by {
      forall k | 0 <= k < i ensures s[k] != y { assert s[k] == s[..i][k]; }
    }
    assert forall k :: 0 <= k < j ==> t[k] != y by {
      forall k | 0 <= k < j ensures t[k] != y { assert t[k] == t[..j][k]; }
    }
    assert forall k :: 0 <= k < |s| ==> t[k] == s[k];
  }

  /** `Dedup` keeps the elements in the order of their first occurrence. */
  lemma {:induction false} DedupFirstOccurrenceOrder<T>(s: seq<T>)
    ensures forall i, j :: 0 <= i < j < |Dedup(s)| ==>
              FirstIndex(s, Dedup(s)[i]) < FirstIndex(s, Dedup(s)[j])
  {
    if s != [] {
      var p := s[..|s| - 1];
      var x := s[|s| - 1];
      assert s == p + [x];
      DedupFirstOccurrenceOrder(p);
      var d := Dedup(p);
      forall y | y in d ensures FirstIndex(s, y) == FirstIndex(p, y) {
        FirstIndexSnoc(p, x, y);
      }
      if x !in d {
        assert x !in p;
        assert FirstIndex(s, x) == |p|;
        forall i | 0 <= i < |d| ensures FirstIndex(s, d[i]) < |p| {
          assert d[i] in p;
          FirstIndexSnoc(p, x, d[i]);
        }
      }
    }
  }

  /** `sorted(set(s))`: the distinct elements of `s` in increasing order. */
  function SortedUnique(s: seq<string>): (r: seq<string>)
    ensures StrictlySorted(r)
    ensures forall x :: x in r <==> x in s
  {
    var d := Dedup(s);
    var r := SortStrings(d);
    forall x ensures x in r <==> x in d {
      assert x in r <==> x in multiset(r);
    }
    forall i, j | 0 <= i < j < |r| ensures StrLt(r[i], r[j]) {
      DistinctPermutation(d, r, i, j);
      assert StrLe(r[i], r[j]);
    }
    r
  }

  lemma DistinctPermutation(d: seq<string>, r: seq<string>, i: int, j: int)
    requires Distinct(d) && multiset(r) == multiset(d)
    requires 0 <= i < j < |r|
    ensures r[i] != r[j]
  {
    if r[i] == r[j] {
      assert multiset(r)[r[i]] >= 2 by {
        assert r == r[..j] + [r[j]] + r[j + 1..];
        assert r[..j][i] == r[i];
        assert multiset(r[..j])[r[i]] >= 1;
      }
      DistinctCountAtMostOne(d, r[i]);
    }
  }

  lemma {:induction false} DistinctCountAtMostOne<T>(d: seq<T>, x: T)
    requires Distinct(d)
    ensures multiset(d)[x] <= 1
  {
    if d != [] {
      assert d == [d[0]] + d[1..];
      DistinctCountAtMostOne(d[1..], x);
      if d[0] == x {
        assert x !in d[1..];
      }
    }
  }

  /** A strictly sorted list is determined by its elements: this is why
      `sorted(set(...))` gives the same list however the set was built. */
  lemma {:induction false} StrictlySortedUnique(a: seq<string>, b: seq<string>)
    requires StrictlySorted(a) && StrictlySorted(b)
    requires forall x :: x in a <==> x in b
    ensures a == b
  {
    assert |b| > 0 ==> b[0] in b;
    if a == [] {
    } else {
      assert a[0] in b && b != [];
      assert b[0] in a;
      var i :| 0 <= i < |b| && b[i] == a[0];
      var j :| 0 <= j < |a| && a[j] == b[0];
      if a[0] != b[0] {
        assert i > 0 && j > 0;
        StrLtAsymmetric(b[0], b[i]);
      }
      assert a == [a[0]] + a[1..] && b == [b[0]] + b[1..];
      StrLtIrreflexive(a[0]);
      forall x | x in a[1..] ensures x in b[1..] {
        var k :| 1 <= k < |a| && a[k] == x;
        assert StrLt(a[0], a[k]);
        assert x in a;
        assert x in b;
        var m :| 0 <= m < |b| && b[m] == x;
        assert m != 0;
        assert b[1..][m - 1] == x;
      }
      forall x | x in b[1..] ensures x in a[1..] {
        var k :| 1 <= k < |b| && b[k] == x;
        assert StrLt(b[0], b[k]);
        assert x in b;
        assert x in a;
        var m :| 0 <= m < |a| && a[m] == x;
        assert m != 0;
        assert a[1..][m - 1] == x;
      }
      StrictlySortedUnique(a[1..], b[1..]);
      assert a == [a[0]] + a[1..] && b == [b[0]] + b[1..];
    }
  }

  /** The elements of `s` satisfying `p`, in order. */
  function Filter<T>(s: seq<T>, p: T -> bool): (r: seq<T>)
    ensures |r| <= |s|
  {
    if s == [] then []
    else Filter(s[..|s| - 1], p) + (if p(s[|s| - 1]) then [s[|s| - 1]] else [])
  }

  /** An element is kept exactly when it occurs and satisfies `p`. */
  lemma {:induction false} FilterMembers<T>(s: seq<T>, p: T -> bool)
    ensures forall x :: x in Filter(s, p) <==> x in s && p(x)
  {
    if s != [] {
      var init := s[..|s| - 1];
      FilterMembers(init, p);
      assert s == init + [s[|s| - 1]];
    }
  }

  lemma {:induction false} FilterConcat<T>(a: seq<T>, b: seq<T>, p: T -> bool)
    ensures Filter(a + b, p) == Filter(a, p) + Filter(b, p)
    decreases |b|
  {
    if b == [] {
      assert a + b == a;
    } else {
      var ab, init, last := a + b, b[..|b| - 1], b[|b| - 1];
      var tail := if p(last) then [last] else [];
      assert ab[..|ab| - 1] == a + init && ab[|ab| - 1] == last;
      assert Filter(ab, p) == Filter(a + init, p) + tail;
      FilterConcat(a, init, p);
      assert Filter(b, p) == Filter(init, p) + tail;
      assert Filter(ab, p) == Filter(a, p) + (Filter(init, p) + tail);
    }
  }

  lemma {:induction false} FilterEmptyIff<T>(s: seq<T>, p: T -> bool)
    ensures Filter(s, p) == [] <==> forall x :: x in s ==> !p(x)
  {
    if s != [] {
      var init := s[..|s| - 1];
      FilterEmptyIff(init, p);
      assert s == init + [s[|s| - 1]];
    }
  }

  /** Sorting keeps exactly the same elements. */
  lemma SortByMembers<T>(s: seq<T>, key: T -> string)
    ensures forall x :: x in SortBy(s, key) <==> x in s
  {
    var r := SortBy(s, key);
    forall x ensures x in r <==> x in s {
      assert x in r <==> x in multiset(r);
      assert x in s <==> x in multiset(s);
    }
  }

  lemma {:induction false} FilterCons<T>(x: T, s: seq<T>, p: T -> bool)
    ensures Filter([x] + s, p) == (if p(x) then [x] else []) + Filter(s, p)
  {
    var t := [x] + s;
    if s == [] {
      assert t[..|t| - 1] == [];
    } else {
      var init := s[..|s| - 1];
      assert t[..|t| - 1] == [x] + init && t[|t| - 1] == s[|s| - 1];
      FilterCons(x, init, p);
    }
  }

  /** Inserting `x` puts it before every element of the same key that is
      already there. */
  lemma {:induction false} InsertByStable<T>(x: T, s: seq<T>, key: T -> string, k: string, p: T -> bool)
    requires SortedBy(s, key)
    requires forall y {:trigger p(y)} :: p(y) <==> key(y) == k
    ensures Filter(InsertBy(x, s, key), p) == (if p(x) then [x] else []) + Filter(s, p)
  {
    if s == [] || StrLe(key(x), key(s[0])) {
      InsertByUnfold(x, s, key);
      FilterCons(x, s, p);
    } else {
      InsertByUnfold(x, s, key);
      var rest := InsertBy(x, s[1..], key);
      var h := s[0];
      assert p(x) && p(h) ==> key(x) == key(h);
      InsertByStable(x, s[1..], key, k, p);
      InsertStep(x, s[0], s[1..], rest, p);
      assert s == [s[0]] + s[1..];
    }
  }

  lemma InsertStep<T>(x: T, h: T, t: seq<T>, rest: seq<T>, p: T -> bool)
    requires !(p(x) && p(h))
    requires Filter(rest, p) == (if p(x) then [x] else []) + Filter(t, p)
    ensures Filter([h] + rest, p) == (if p(x) then [x] else []) + Filter([h] + t, p)
  {
    FilterCons(h, rest, p);
    FilterCons(h, t, p);
    if p(x) {
      assert Filter([h] + rest, p) == Filter(rest, p);
      assert Filter([h] + t, p) == Filter(t, p);
    } else {
      assert Filter(rest, p) == Filter(t, p);
    }
  }

  lemma InsertByUnfold<T>(x: T, s: seq<T>, key: T -> string)
    requires SortedBy(s, key)
    ensures s == [] || StrLe(key(x), key(s[0])) ==> InsertBy(x, s, key) == [x] + s
    ensures s != [] && !StrLe(key(x), key(s[0])) ==> SortedBy(s[1..], key) && InsertBy(x, s, key) == [s[0]] + InsertBy(x, s[1..], key)
  {
  }

  /** `SortBy` is stable: the elements of any one key come out in the order
      they went in. */
  lemma {:induction false} SortByStable<T>(s: seq<T>, key: T -> string, k: string, p: T -> bool)
    requires forall y {:trigger p(y)} :: p(y) <==> key(y) == k
    ensures Filter(SortBy(s, key), p) == Filter(s, p)
  {
    if s != [] {
      assert s == [s[0]] + s[1..];
      SortByStable(s[1..], key, k, p);
      InsertByStable(s[0], SortBy(s[1..], key), key, k, p);
      FilterCons(s[0], s[1..], p);
    }
  }
}
