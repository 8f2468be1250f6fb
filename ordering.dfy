/**
 * Stable sorting by an integer key.
 *
 * The store sorts with `Array.prototype.sort` and a comparator. Since ECMAScript 2019
 * that sort is stable, and for a comparator that orders by a key (negative when the
 * first key is smaller, zero when the keys are equal) its result is the one stable
 * sorted permutation of the input. `SortBy` computes it by insertion; the comparators
 * themselves are related to their keys in the TaskContext module.
 */
module Ordering {
  import opened Seqs

  /** Strict lexicographic order on integer sequences (a proper prefix comes first). */
  predicate LexLess(a: seq<int>, b: seq<int>)
    decreases |a|
  {
    if |a| == 0 then |b| > 0
    else if |b| == 0 then false
    else a[0] < b[0] || (a[0] == b[0] && LexLess(a[1..], b[1..]))
  }

  lemma {:induction false} LexIrreflexive(a: seq<int>)
    ensures !LexLess(a, a)
  {
    if |a| > 0 {
      LexIrreflexive(a[1..]);
    }
  }

  lemma {:induction false} LexAsymmetric(a: seq<int>, b: seq<int>)
    requires LexLess(a, b)
    ensures !LexLess(b, a)
  {
    if |a| > 0 && |b| > 0 && a[0] == b[0] {
      LexAsymmetric(a[1..], b[1..]);
    }
  }

  lemma {:induction false} LexTransitive(a: seq<int>, b: seq<int>, c: seq<int>)
    requires LexLess(a, b) && LexLess(b, c)
    ensures LexLess(a, c)
  {
    if |a| > 0 && a[0] == b[0] && b[0] == c[0] {
      LexTransitive(a[1..], b[1..], c[1..]);
    }
  }

  /** Any two distinct keys are ordered one way or the other. */
  lemma {:induction false} LexTotal(a: seq<int>, b: seq<int>)
    requires a != b
    ensures LexLess(a, b) || LexLess(b, a)
  {
    if |a| > 0 && |b| > 0 && a[0] == b[0] {
      assert a == [a[0]] + a[1..] && b == [b[0]] + b[1..];
      LexTotal(a[1..], b[1..]);
    }
  }

  /** "Not after" is transitive: the property a sort by insertion relies on. */
  lemma NotLessTransitive(a: seq<int>, b: seq<int>, c: seq<int>)
    requires !LexLess(b, a) && !LexLess(c, b)
    ensures !LexLess(c, a)
  {
    if a != b { LexTotal(a, b); }
    if b != c { LexTotal(b, c); }
    if a != b && b != c { LexTransitive(a, b, c); }
    if LexLess(a, c) { LexAsymmetric(a, c); } else { LexIrreflexive(a); }
  }

  /** No element of `s` has a smaller key than an element before it. */
  predicate SortedBy<T>(s: seq<T>, key: T -> seq<int>) {
    forall i, j :: 0 <= i < j < |s| ==> !LexLess(key(s[j]), key(s[i]))
  }

  /**
   * Inserts `x` before the first element of `s` whose key is not smaller than
   * its own; into a sorted `s` that is after every smaller key and before all others.
   */
  function Insert<T(==)>(x: T, s: seq<T>, key: T -> seq<int>): (r: seq<T>)
    ensures |r| == |s| + 1
    ensures multiset(r) == multiset(s) + multiset{x}
    ensures SortedBy(s, key) ==> SortedBy(r, key)
  {
    if s == [] then [x]
    else if LexLess(key(s[0]), key(x)) then
      var rest := Insert(x, s[1..], key);
      assert s == [s[0]] + s[1..];
      InsertSortedCons(x, s, rest, key);
      [s[0]] + rest
    else
      InsertSortedFront(x, s, key);
      [x] + s
  }

  lemma InsertSortedCons<T>(x: T, s: seq<T>, rest: seq<T>, key: T -> seq<int>)
    requires s != [] && LexLess(key(s[0]), key(x))
    requires multiset(rest) == multiset(s[1..]) + multiset{x}
    requires SortedBy(s, key) ==> SortedBy(rest, key)
    ensures SortedBy(s, key) ==> SortedBy([s[0]] + rest, key)
  {
    if SortedBy(s, key) {
      var r := [s[0]] + rest;
      forall i, j | 0 <= i < j < |r|
        ensures !LexLess(key(r[j]), key(r[i]))
      {
        if i == 0 {
          var y := rest[j - 1];
          assert y in multiset(rest);
          if y == x {
            LexAsymmetric(key(s[0]), key(x));
          } else {
            assert y in multiset(s[1..]);
            var k :| 0 <= k < |s[1..]| && s[1..][k] == y;
            assert s[k + 1] == y;
          }
        }
      }
    }
  }

  lemma InsertSortedFront<T>(x: T, s: seq<T>, key: T -> seq<int>)
    requires s != [] && !LexLess(key(s[0]), key(x))
    ensures SortedBy(s, key) ==> SortedBy([x] + s, key)
  {
    if SortedBy(s, key) {
      var r := [x] + s;
      forall i, j | 0 <= i < j < |r|
        ensures !LexLess(key(r[j]), key(r[i]))
      {
        if i == 0 && j > 1 {
          NotLessTransitive(key(x), key(s[0]), key(s[j - 1]));
        }
      }
    }
  }

  /** The stable sort of `s` by `key`: a permutation of `s` in key order. */
  function SortBy<T(==)>(s: seq<T>, key: T -> seq<int>): (r: seq<T>)
    ensures |r| == |s|
    ensures multiset(r) == multiset(s)
    ensures SortedBy(r, key)
  {
    if s == [] then []
    else
      assert s == [s[0]] + s[1..];
      Insert(s[0], SortBy(s[1..], key), key)
  }

  /** Selects the elements whose key is `k`. */
  function HasKey<T>(key: T -> seq<int>, k: seq<int>): T -> bool {
    x => key(x) == k
  }

  /** Inserting `x` only adds `x`, in front, to the elements that share its key. */
  lemma {:induction false} InsertStable<T(!new)>(x: T, s: seq<T>, key: T -> seq<int>, k: seq<int>)
    ensures Filter(Insert(x, s, key), HasKey(key, k)) ==
            if key(x) == k then [x] + Filter(s, HasKey(key, k)) else Filter(s, HasKey(key, k))
  {
    var p := HasKey(key, k);
    if s != [] {
      assert s == [s[0]] + s[1..];
      if LexLess(key(s[0]), key(x)) {
        InsertStable(x, s[1..], key, k);
        if key(s[0]) == k {
          LexIrreflexive(k);
        }
        assert Insert(x, s, key) == [s[0]] + Insert(x, s[1..], key);
        assert Filter(Insert(x, s, key), p) ==
               (if p(s[0]) then [s[0]] else []) + Filter(Insert(x, s[1..], key), p);
      }
    }
  }

  /**
   * Stability: elements with equal keys come out of the sort in the order they
   * went in.
   */
  lemma {:induction false} SortByStable<T(!new)>(s: seq<T>, key: T -> seq<int>, k: seq<int>)
    ensures Filter(SortBy(s, key), HasKey(key, k)) == Filter(s, HasKey(key, k))
  {
    if s != [] {
      assert s == [s[0]] + s[1..];
      SortByStable(s[1..], key, k);
      InsertStable(s[0], SortBy(s[1..], key), key, k);
    }
  }
}
