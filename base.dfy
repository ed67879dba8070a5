/** Small shared vocabulary: optional values and duplicate-free sequences. */
module Base {

  /** A JavaScript value that may be `null`/`undefined`. */
  datatype Option<+T> = None | Some(value: T) {
    function GetOr(default: T): T {
      match this
      case Some(v) => v
      case None => default
    }
  }

  /** No value occurs twice in `s`. */
  ghost predicate NoDup<T>(s: seq<T>) {
    forall i, j :: 0 <= i < j < |s| ==> s[i] != s[j]
  }

  /** `xs.filter(x => x !== v)`: every occurrence of `v` removed, order kept. */
  function Without<T(==,!new)>(xs: seq<T>, v: T): (r: seq<T>)
    ensures v !in r
    ensures forall x :: x in r <==> x in xs && x != v
    ensures |r| <= |xs|
  {
    if xs == [] then []
    else if xs[0] == v then Without(xs[1..], v)
    else [xs[0]] + Without(xs[1..], v)
  }

  /** Removing a value keeps a duplicate-free sequence duplicate-free. */
  lemma {:induction false} WithoutNoDup<T(!new)>(xs: seq<T>, v: T)
    requires NoDup(xs)
    ensures NoDup(Without(xs, v))
  {
    if xs != [] {
      WithoutNoDup(xs[1..], v);
      assert xs[0] !in xs[1..] by {
        forall k | 0 <= k < |xs[1..]| ensures xs[1..][k] != xs[0] {
          assert xs[1..][k] == xs[k + 1];
        }
      }
    }
  }

  /** Filtering out a value after appending it is filtering it out of the original list. */
  lemma {:induction false} WithoutAppended<T(!new)>(xs: seq<T>, v: T)
    ensures Without(xs + [v], v) == Without(xs, v)
  {
    if xs == [] {
      assert [v][1..] == [];
    } else {
      assert (xs + [v])[1..] == xs[1..] + [v];
      WithoutAppended(xs[1..], v);
    }
  }

  /** Filtering out a value the list does not hold changes nothing. */
  lemma {:induction false} WithoutAbsent<T(!new)>(xs: seq<T>, v: T)
    requires v !in xs
    ensures Without(xs, v) == xs
  {
    if xs != [] {
      assert xs[0] in xs;
      assert forall x :: x in xs[1..] ==> x in xs;
      WithoutAbsent(xs[1..], v);
    }
  }

  /** In a duplicate-free sequence every value occurs at most once. */
  lemma {:induction false} NoDupCount<T>(s: seq<T>, x: T)
    requires NoDup(s)
    ensures multiset(s)[x] <= 1
  {
    if s != [] {
      assert s == [s[0]] + s[1..];
      NoDupCount(s[1..], x);
      if s[0] == x {
        forall k | 0 <= k < |s[1..]| ensures s[1..][k] != x {
          assert s[1..][k] == s[k + 1];
        }
        assert x !in multiset(s[1..]);
      }
    }
  }

  /** Two positions holding the same value count twice. */
  lemma TwoCopies<T>(s: seq<T>, i: int, j: int)
    requires 0 <= i < j < |s|
    ensures s[i] == s[j] ==> multiset(s)[s[i]] >= 2
  {
    assert s == s[..j] + s[j..];
    assert s[i] == s[..j][i];
    assert s[j] == s[j..][0];
  }

  /** Rearranging a duplicate-free sequence keeps it duplicate-free. */
  lemma NoDupPermuted<T>(a: seq<T>, b: seq<T>)
    requires multiset(a) == multiset(b) && NoDup(a)
    ensures NoDup(b)
  {
    forall i, j | 0 <= i < j < |b| ensures b[i] != b[j] {
      TwoCopies(b, i, j);
      NoDupCount(a, b[i]);
    }
  }

  /** `s.indexOf(x)`: the first position of `x`, or -1. */
  function IndexIn<T(==)>(s: seq<T>, x: T): (r: int)
    ensures -1 <= r < |s|
    ensures r == -1 <==> x !in s
    ensures r >= 0 ==> s[r] == x && x !in s[..r]
  {
    if s == [] then -1
    else if s[0] == x then 0
    else
      var r := IndexIn(s[1..], x);
      assert r >= 0 ==> s[..r + 1] == [s[0]] + s[1..][..r];
      if r == -1 then -1 else r + 1
  }

  /** `s.slice(0, end)`: a negative `end` counts from the back. */
  function SliceTo<T>(s: seq<T>, end: int): (r: seq<T>)
    ensures r <= s
    ensures |r| == if end < 0 then Max(0, |s| + end) else Min(end, |s|)
  {
    if end < 0 then (if |s| + end >= 0 then s[..|s| + end] else [])
    else if end <= |s| then s[..end] else s
  }

  /** `slice(0, -1)` drops the last element. */
  lemma SliceDropsLast<T>(s: seq<T>)
    requires s != []
    ensures SliceTo(s, -1) == s[..|s| - 1]
  {
    var r := SliceTo(s, -1);
    assert |r| == |s| - 1;
    assert r <= s;
  }

  function Max(a: int, b: int): int { if a < b then b else a }

  function Min(a: int, b: int): int { if a < b then a else b }
}
