/**
 * The array operations the pages chain together: `filter`, a stable
 * descending `sort` on a numeric key, de-duplication through a `Set`, and
 * the `new Set(xs).size !== xs.length` duplicate test.
 */
module Seqs {

  /** `s.filter(f)`: the elements satisfying `f`, in their original order. */
  function Filter<T>(s: seq<T>, f: T -> bool): (r: seq<T>)
    ensures |r| <= |s|
    ensures forall i :: 0 <= i < |r| ==> f(r[i]) && r[i] in s
  {
    if s == [] then []
    else if f(s[0]) then [s[0]] + Filter(s[1..], f)
    else Filter(s[1..], f)
  }

  /** Filter keeps every occurrence of the elements it selects and no other element. */
  lemma {:induction false} FilterMultiset<T>(s: seq<T>, f: T -> bool, x: T)
    ensures multiset(Filter(s, f))[x] == if f(x) then multiset(s)[x] else 0
  {
    if s != [] {
      FilterMultiset(s[1..], f, x);
      assert s == [s[0]] + s[1..];
    }
  }

  /** An element satisfying `f` is in the filtered list exactly when it is in the list. */
  lemma FilterMember<T>(s: seq<T>, f: T -> bool, x: T)
    ensures x in Filter(s, f) <==> x in s && f(x)
  {
    FilterMultiset(s, f, x);
    assert x in Filter(s, f) <==> multiset(Filter(s, f))[x] > 0;
  }

  /** Filtering by `f` and by its negation splits the list: the two parts together are a permutation of it. */
  lemma {:induction false} FilterSplit<T>(s: seq<T>, f: T -> bool, g: T -> bool)
    requires forall x :: g(x) == !f(x)
    ensures multiset(Filter(s, f)) + multiset(Filter(s, g)) == multiset(s)
    ensures |Filter(s, f)| + |Filter(s, g)| == |s|
  {
    if s != [] {
      FilterSplit(s[1..], f, g);
      assert s == [s[0]] + s[1..];
    }
  }

  /** The list is ordered by `key`, largest first. */
  ghost predicate SortedDesc<T>(s: seq<T>, key: T -> real)
  {
    forall i, j :: 0 <= i < j < |s| ==> key(s[i]) >= key(s[j])
  }

  /** Inserts `x` into a list sorted by `key` (largest first), after the elements with a larger key and before the rest. */
  function Insert<T>(x: T, s: seq<T>, key: T -> real): (r: seq<T>)
    requires SortedDesc(s, key)
    ensures SortedDesc(r, key)
    ensures multiset(r) == multiset(s) + multiset{x}
    ensures |r| == |s| + 1
  {
    if s == [] then [x]
    else if key(s[0]) > key(x) then
      var tail := Insert(x, s[1..], key);
      assert s == [s[0]] + s[1..];
      HeadBoundsTail(s[0], s[1..], x, tail, key);
      ConsSorted(s[0], tail, key);
      [s[0]] + tail
    else
      ConsSorted(x, s, key);
      [x] + s
  }

  /** A head whose key bounds every key of a sorted tail keeps the list sorted. */
  lemma ConsSorted<T>(h: T, t: seq<T>, key: T -> real)
    requires SortedDesc(t, key)
    requires t != [] ==> key(t[0]) <= key(h)
    requires forall k :: 0 <= k < |t| ==> key(t[k]) <= key(h)
    ensures SortedDesc([h] + t, key)
  {
    var r := [h] + t;
    forall i, j | 0 <= i < j < |r| ensures key(r[i]) >= key(r[j]) {
      if i == 0 {
        assert r[j] == t[j - 1];
      } else {
        assert r[i] == t[i - 1] && r[j] == t[j - 1];
      }
    }
  }

  /** An element whose key bounds those of `s` and of `x` also bounds every element of a permutation of them. */
  lemma HeadBoundsTail<T>(h: T, s: seq<T>, x: T, t: seq<T>, key: T -> real)
    requires forall k :: 0 <= k < |s| ==> key(s[k]) <= key(h)
    requires key(x) <= key(h) && multiset(t) == multiset(s) + multiset{x}
    ensures forall k :: 0 <= k < |t| ==> key(t[k]) <= key(h)
  {
    forall k | 0 <= k < |t| ensures key(t[k]) <= key(h) {
      assert t[k] in multiset(t);
      if t[k] != x {
        assert t[k] in multiset(s);
        var j :| 0 <= j < |s| && s[j] == t[k];
      }
    }
  }

  /**
   * `[...s].sort((a, b) => key(b) - key(a))`: a stable insertion sort,
   * largest key first, that leaves `s` itself alone.
   */
  function SortDesc<T>(s: seq<T>, key: T -> real): (r: seq<T>)
    ensures SortedDesc(r, key)
    ensures multiset(r) == multiset(s)
    ensures |r| == |s|
  {
    if s == [] then []
    else
      assert s == [s[0]] + s[1..];
      Insert(s[0], SortDesc(s[1..], key), key)
  }

  /** `Array.from(new Set(s))`: the elements of `s`, each once. */
  function Dedup<T(==)>(s: seq<T>): (r: seq<T>)
    ensures forall i :: 0 <= i < |s| ==> s[i] in r
    ensures forall i :: 0 <= i < |r| ==> r[i] in s
    ensures Distinct(r)
  {
    if s == [] then []
    else
      var prefix := Dedup(s[..|s| - 1]);
      assert s == s[..|s| - 1] + [s[|s| - 1]];
      if s[|s| - 1] in prefix then prefix else prefix + [s[|s| - 1]]
  }

  ghost predicate Distinct<T>(s: seq<T>)
  {
    forall i, j :: 0 <= i < j < |s| ==> s[i] != s[j]
  }

  /** `new Set(s)`: the set of the elements of `s`. */
  function Elements<T(==)>(s: seq<T>): set<T>
  {
    if s == [] then {} else {s[0]} + Elements(s[1..])
  }

  /** `new Set(s).size === s.length` holds exactly when no element of `s` repeats. */
  lemma {:induction false} SetSizeDistinct<T>(s: seq<T>)
    ensures |Elements(s)| <= |s|
    ensures |Elements(s)| == |s| <==> Distinct(s)
    ensures forall x :: x in Elements(s) <==> x in s
  {
    if s != [] {
      SetSizeDistinct(s[1..]);
      var rest := Elements(s[1..]);
      if s[0] in rest {
        assert Elements(s) == rest;
        var j :| 0 <= j < |s[1..]| && s[1..][j] == s[0];
        assert s[0] == s[j + 1];
        assert !Distinct(s);
      } else {
        assert |Elements(s)| == |rest| + 1;
        if Distinct(s[1..]) {
          forall i, j | 0 <= i < j < |s| ensures s[i] != s[j] {
            if i == 0 {
              assert s[j] in s[1..];
            } else {
              assert s[1..][i - 1] != s[1..][j - 1];
            }
          }
        } else {
          var i, j :| 0 <= i < j < |s[1..]| && s[1..][i] == s[1..][j];
          assert s[i + 1] == s[j + 1];
        }
      }
    }
  }
}
