/**
 * `Array.prototype.sort`: a stable sort driven by a comparator. A JavaScript
 * comparator `cmp` is read here as the relation `le(a, b) == (cmp(a, b) <= 0)`
 * ("`a` may stay before `b`"). For a consistent comparator every stable sort
 * produces the same order, so a stable insertion sort stands for the engine's.
 */
module Sorting {

  /** `le` is a total preorder: every pair is comparable and it is transitive. */
  ghost predicate TotalPreorder<T(!new)>(le: (T, T) -> bool) {
    && (forall a, b :: le(a, b) || le(b, a))
    && (forall a, b, c :: le(a, b) && le(b, c) ==> le(a, c))
  }

  /** Two elements that `le` ranks equal are the same element. */
  ghost predicate Antisymmetric<T(!new)>(le: (T, T) -> bool) {
    forall a, b :: le(a, b) && le(b, a) ==> a == b
  }

  ghost predicate Sorted<T>(s: seq<T>, le: (T, T) -> bool) {
    forall i, j :: 0 <= i < j < |s| ==> le(s[i], s[j])
  }

  /** Puts `x` before the first element it may precede; equal elements already there stay after it. */
  function Insert<T>(x: T, s: seq<T>, le: (T, T) -> bool): (r: seq<T>)
    ensures multiset(r) == multiset(s) + multiset{x}
    ensures |r| == |s| + 1
  {
    if s == [] then [x]
    else if le(x, s[0]) then [x] + s
    else
      assert s == [s[0]] + s[1..];
      [s[0]] + Insert(x, s[1..], le)
  }

  /** The stable sort of `s` under `le`. */
  function SortBy<T>(s: seq<T>, le: (T, T) -> bool): (r: seq<T>)
    ensures multiset(r) == multiset(s)
    ensures |r| == |s|
  {
    if s == [] then []
    else
      assert s == [s[0]] + s[1..];
      Insert(s[0], SortBy(s[1..], le), le)
  }

  lemma {:induction false} InsertSorted<T(!new)>(x: T, s: seq<T>, le: (T, T) -> bool)
    requires TotalPreorder(le)
    requires Sorted(s, le)
    ensures Sorted(Insert(x, s, le), le)
  {
    if s != [] && !le(x, s[0]) {
      InsertSorted(x, s[1..], le);
      var r := Insert(x, s[1..], le);
      forall k | 0 <= k < |r| ensures le(s[0], r[k]) {
        assert r[k] in multiset(r);
        assert r[k] in multiset(s[1..]) + multiset{x};
        if r[k] == x {
          assert le(s[0], x);
        } else {
          assert r[k] in s[1..];
        }
      }
    }
  }

  /** The result of `SortBy` is ordered by `le` whenever `le` is a total preorder. */
  lemma {:induction false} SortBySorted<T(!new)>(s: seq<T>, le: (T, T) -> bool)
    requires TotalPreorder(le)
    ensures Sorted(SortBy(s, le), le)
  {
    if s != [] {
      SortBySorted(s[1..], le);
      InsertSorted(s[0], SortBy(s[1..], le), le);
    }
  }

  /** Inserting under two orders that agree on the values involved gives the same list. */
  lemma {:induction false} InsertAgrees<T>(x: T, s: seq<T>, le: (T, T) -> bool, le': (T, T) -> bool)
    requires forall b :: b in s ==> le(x, b) == le'(x, b)
    ensures Insert(x, s, le) == Insert(x, s, le')
  {
    if s != [] && !le(x, s[0]) {
      InsertAgrees(x, s[1..], le, le');
    }
  }

  /** Sorting under two orders that agree on the values of `s` gives the same list. */
  lemma {:induction false} SortByAgrees<T>(s: seq<T>, le: (T, T) -> bool, le': (T, T) -> bool)
    requires forall a, b :: a in s && b in s ==> le(a, b) == le'(a, b)
    ensures SortBy(s, le) == SortBy(s, le')
  {
    if s != [] {
      SortByAgrees(s[1..], le, le');
      var t := SortBy(s[1..], le);
      forall b | b in t ensures le(s[0], b) == le'(s[0], b) {
        assert b in multiset(s[1..]);
      }
      InsertAgrees(s[0], t, le, le');
    }
  }

  /** When `le` ranks every pair of values of `s` as ties, the stable sort leaves `s` as it is. */
  lemma {:induction false} SortByKeepsTies<T>(s: seq<T>, le: (T, T) -> bool)
    requires forall a, b :: a in s && b in s ==> le(a, b)
    ensures SortBy(s, le) == s
  {
    if s != [] {
      SortByKeepsTies(s[1..], le);
      assert s[1..] != [] ==> s[1] in s;
      assert s == [s[0]] + s[1..];
    }
  }

  lemma MultisetTail<T>(s: seq<T>)
    requires s != []
    ensures multiset(s[1..]) == multiset(s) - multiset{s[0]}
  {
    assert s == [s[0]] + s[1..];
  }

  lemma SortedTail<T>(s: seq<T>, le: (T, T) -> bool)
    requires s != [] && Sorted(s, le)
    ensures Sorted(s[1..], le)
  {
    forall i, j | 0 <= i < j < |s| - 1 ensures le(s[1..][i], s[1..][j]) {
      assert s[1..][i] == s[i + 1] && s[1..][j] == s[j + 1];
    }
  }

  /** Two sorted arrangements of the same elements start with the same element. */
  lemma SortedHeads<T(!new)>(a: seq<T>, b: seq<T>, le: (T, T) -> bool)
    requires Antisymmetric(le)
    requires Sorted(a, le) && Sorted(b, le)
    requires a != [] && b != [] && multiset(a) == multiset(b)
    ensures a[0] == b[0]
  {
    assert a[0] in multiset(b) && b[0] in multiset(a);
    var i :| 0 <= i < |b| && b[i] == a[0];
    var j :| 0 <= j < |a| && a[j] == b[0];
    if i > 0 && j > 0 {
      assert le(b[0], b[i]) && le(a[0], a[j]);
    }
  }

  /** When `le` is antisymmetric, a sorted permutation is unique: it depends only on the multiset. */
  lemma {:induction false} SortedUnique<T(!new)>(a: seq<T>, b: seq<T>, le: (T, T) -> bool)
    requires Antisymmetric(le)
    requires Sorted(a, le) && Sorted(b, le)
    requires multiset(a) == multiset(b)
    ensures a == b
    decreases |a|
  {
    assert |a| == |multiset(a)| == |multiset(b)| == |b|;
    if a != [] {
      SortedHeads(a, b, le);
      MultisetTail(a);
      MultisetTail(b);
      SortedTail(a, le);
      SortedTail(b, le);
      SortedUnique(a[1..], b[1..], le);
      assert a == [a[0]] + a[1..] && b == [b[0]] + b[1..];
    }
  }

  /**
   * JavaScript's default `sort()` order on strings: lexicographic by code unit
   * (a proper prefix comes first).
   */
  predicate LexLe(a: string, b: string) {
    a == [] || (b != [] && (a[0] < b[0] || (a[0] == b[0] && LexLe(a[1..], b[1..]))))
  }

  lemma {:induction false} LexTotal(a: string, b: string)
    ensures LexLe(a, b) || LexLe(b, a)
  {
    if a != [] && b != [] && a[0] == b[0] {
      LexTotal(a[1..], b[1..]);
    }
  }

  lemma {:induction false} LexTransitive(a: string, b: string, c: string)
    requires LexLe(a, b) && LexLe(b, c)
    ensures LexLe(a, c)
  {
    if a != [] && a[0] == b[0] && b[0] == c[0] {
      LexTransitive(a[1..], b[1..], c[1..]);
    }
  }

  lemma {:induction false} LexAntisymmetric(a: string, b: string)
    requires LexLe(a, b) && LexLe(b, a)
    ensures a == b
  {
    if a != [] {
      LexAntisymmetric(a[1..], b[1..]);
      assert a == [a[0]] + a[1..] && b == [b[0]] + b[1..];
    }
  }

  /** The default string order is a total order. */
  lemma LexIsTotalOrder()
    ensures TotalPreorder(LexLe) && Antisymmetric(LexLe)
  {
    forall a, b ensures LexLe(a, b) || LexLe(b, a) { LexTotal(a, b); }
    forall a, b, c | LexLe(a, b) && LexLe(b, c) ensures LexLe(a, c) { LexTransitive(a, b, c); }
    forall a, b | LexLe(a, b) && LexLe(b, a) ensures a == b { LexAntisymmetric(a, b); }
  }

  /** `ids.slice().sort()`: strings in default order. */
  function SortStrings(s: seq<string>): (r: seq<string>)
    ensures multiset(r) == multiset(s) && |r| == |s|
    ensures Sorted(r, LexLe)
  {
    LexIsTotalOrder();
    SortBySorted(s, LexLe);
    SortBy(s, LexLe)
  }

  /** Sorting the same strings in any arrangement gives the same array. */
  lemma SortStringsCanonical(a: seq<string>, b: seq<string>)
    requires multiset(a) == multiset(b)
    ensures SortStrings(a) == SortStrings(b)
  {
    LexIsTotalOrder();
    SortedUnique(SortStrings(a), SortStrings(b), LexLe);
  }
}
