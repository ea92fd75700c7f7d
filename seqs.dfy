/**
 * Sequence operations that the document-store queries of the model are built from:
 * filtering (a `find` with a filter), a stable sort by an integer key (`.sort`),
 * the first match (`findOne`) and a sum (`$sum`).
 */
module Seqs {
  import opened Basics

  /** The elements of `s` that satisfy `p`, in their original order. */
  function Filter<T>(s: seq<T>, p: T -> bool): (r: seq<T>)
    ensures |r| <= |s|
  {
    if s == [] then []
    else (if p(s[0]) then [s[0]] else []) + Filter(s[1..], p)
  }

  /** One step of `Filter`, for a sequence written as a head and a tail. */
  lemma FilterCons<T>(h: T, t: seq<T>, p: T -> bool)
    ensures Filter([h] + t, p) == (if p(h) then [h] else []) + Filter(t, p)
  {
    var s := [h] + t;
    assert s != [] && s[0] == h && s[1..] == t;
  }

  lemma {:induction false} FilterAppend<T>(a: seq<T>, b: seq<T>, p: T -> bool)
    ensures Filter(a + b, p) == Filter(a, p) + Filter(b, p)
  {
    if a == [] {
      assert a + b == b;
    } else {
      var h, ab := a[0], a + b;
      assert ab != [] && ab[0] == h && ab[1..] == a[1..] + b;
      var fh := if p(h) then [h] else [];
      assert Filter(ab, p) == fh + Filter(a[1..] + b, p);
      assert Filter(a, p) == fh + Filter(a[1..], p);
      FilterAppend(a[1..], b, p);
      assert fh + (Filter(a[1..], p) + Filter(b, p)) == (fh + Filter(a[1..], p)) + Filter(b, p);
    }
  }

  /** What `Filter` keeps: exactly the elements that pass. */
  lemma {:induction false} FilterMembers<T>(s: seq<T>, p: T -> bool)
    ensures forall i :: 0 <= i < |Filter(s, p)| ==> p(Filter(s, p)[i]) && Filter(s, p)[i] in s
    ensures forall i :: 0 <= i < |s| && p(s[i]) ==> s[i] in Filter(s, p)
  {
    if s != [] {
      var h, t := s[0], s[1..];
      FilterMembers(t, p);
      assert s == [h] + t;
      FilterCons(h, t, p);
      forall i | 0 <= i < |s| && p(s[i]) ensures s[i] in Filter(s, p) {
        if i > 0 {
          assert s[i] == t[i - 1];
        }
      }
    }
  }

  /** `Filter` comes back empty exactly when nothing passes. */
  lemma FilterEmpty<T>(s: seq<T>, p: T -> bool)
    ensures Filter(s, p) == [] <==> forall i :: 0 <= i < |s| ==> !p(s[i])
  {
    FilterMembers(s, p);
    if Filter(s, p) != [] {
      assert p(Filter(s, p)[0]) && Filter(s, p)[0] in s;
    }
  }

  /** `Filter` keeps every passing element as often as it occurs, and no other. */
  lemma {:induction false} FilterMultiset<T>(s: seq<T>, p: T -> bool)
    ensures forall x :: multiset(Filter(s, p))[x] == if p(x) then multiset(s)[x] else 0
  {
    if s != [] {
      var h, t := s[0], s[1..];
      FilterMultiset(t, p);
      assert s == [h] + t;
      FilterCons(h, t, p);
      var fh := if p(h) then [h] else [];
      assert multiset(Filter(s, p)) == multiset(fh) + multiset(Filter(t, p));
      assert multiset(s) == multiset{h} + multiset(t);
    }
  }

  /** A filter that every element passes changes nothing. */
  lemma {:induction false} FilterAll<T>(s: seq<T>, p: T -> bool)
    requires forall i :: 0 <= i < |s| ==> p(s[i])
    ensures Filter(s, p) == s
  {
    if s != [] {
      var h, t := s[0], s[1..];
      assert s == [h] + t;
      FilterAll(t, p);
      FilterCons(h, t, p);
    }
  }

  /** `s` is in non-decreasing order of `key`. */
  ghost predicate SortedBy<T>(s: seq<T>, key: T -> int) {
    forall i, j :: 0 <= i < j < |s| ==> key(s[i]) <= key(s[j])
  }

  /** Inserts `x` before the first element whose key is not smaller, so equal keys keep their order. */
  function Insert<T>(x: T, s: seq<T>, key: T -> int): (r: seq<T>)
    ensures |r| == |s| + 1
  {
    if s == [] then [x]
    else if key(x) <= key(s[0]) then [x] + s
    else [s[0]] + Insert(x, s[1..], key)
  }

  lemma {:induction false} InsertMultiset<T>(x: T, s: seq<T>, key: T -> int)
    ensures multiset(Insert(x, s, key)) == multiset(s) + multiset{x}
  {
    if s != [] && key(x) > key(s[0]) {
      var h, t := s[0], s[1..];
      assert s == [h] + t;
      InsertMultiset(x, t, key);
      assert multiset([h] + Insert(x, t, key)) == multiset{h} + multiset(Insert(x, t, key));
    }
  }

  /** A lower bound on the keys of `s` and of `x` is one on the keys of `Insert(x, s, key)`. */
  lemma {:induction false} InsertLowerBound<T>(x: T, s: seq<T>, key: T -> int, k: int)
    requires k <= key(x) && forall i :: 0 <= i < |s| ==> k <= key(s[i])
    ensures forall i :: 0 <= i < |Insert(x, s, key)| ==> k <= key(Insert(x, s, key)[i])
  {
    if s != [] && key(x) > key(s[0]) {
      var h, t := s[0], s[1..];
      InsertLowerBound(x, t, key, k);
      var r := [h] + Insert(x, t, key);
      assert Insert(x, s, key) == r;
      forall i | 0 <= i < |r| ensures k <= key(r[i]) {
        if i > 0 { assert r[i] == Insert(x, t, key)[i - 1]; }
      }
    }
  }

  /** Putting an element no larger than all of a sorted sequence in front keeps it sorted. */
  lemma SortedCons<T>(h: T, r: seq<T>, key: T -> int)
    requires SortedBy(r, key) && forall i :: 0 <= i < |r| ==> key(h) <= key(r[i])
    ensures SortedBy([h] + r, key)
  {
    var hr := [h] + r;
    forall i, j | 0 <= i < j < |hr| ensures key(hr[i]) <= key(hr[j]) {
      assert hr[j] == r[j - 1];
      if i > 0 { assert hr[i] == r[i - 1]; }
    }
  }

  lemma {:induction false} InsertSorted<T>(x: T, s: seq<T>, key: T -> int)
    requires SortedBy(s, key)
    ensures SortedBy(Insert(x, s, key), key)
  {
    if s == [] {
    } else if key(x) <= key(s[0]) {
      SortedCons(x, s, key);
    } else {
      var h, t := s[0], s[1..];
      assert SortedBy(t, key);
      InsertSorted(x, t, key);
      InsertLowerBound(x, t, key, key(h));
      SortedCons(h, Insert(x, t, key), key);
    }
  }

  /**
   * Stable insertion sort by `key`. Elements with equal keys keep the order they had in `s`,
   * which is how the model fixes the order a document store leaves unspecified for ties.
   */
  function SortBy<T>(s: seq<T>, key: T -> int): (r: seq<T>)
    ensures |r| == |s|
  {
    if s == [] then [] else Insert(s[0], SortBy(s[1..], key), key)
  }

  /** The sort returns its input in key order and as a permutation of it. */
  lemma {:induction false} SortBySpec<T>(s: seq<T>, key: T -> int)
    ensures SortedBy(SortBy(s, key), key)
    ensures multiset(SortBy(s, key)) == multiset(s)
  {
    if s != [] {
      var h, t := s[0], s[1..];
      assert s == [h] + t;
      SortBySpec(t, key);
      InsertSorted(h, SortBy(t, key), key);
      InsertMultiset(h, SortBy(t, key), key);
    }
  }

  /** Inserting a key no larger than the least key of a sorted `s` into a subsequence `f` of it puts it first. */
  lemma InsertBeforeSmaller<T>(x: T, s: seq<T>, f: seq<T>, key: T -> int)
    requires SortedBy(s, key) && s != [] && key(x) <= key(s[0])
    requires f != [] && f[0] in s
    ensures Insert(x, f, key) == [x] + f
  {
    var k :| 0 <= k < |s| && s[k] == f[0];
    assert key(s[0]) <= key(s[k]);
  }

  lemma InsertBehindHead<T>(x: T, h: T, f: seq<T>, key: T -> int)
    requires key(x) > key(h)
    ensures Insert(x, [h] + f, key) == [h] + Insert(x, f, key)
  {
    var hf := [h] + f;
    assert hf != [] && hf[0] == h && hf[1..] == f;
  }

  /** Filtering after inserting into a sorted sequence is inserting into the filtered sequence. */
  lemma {:induction false} FilterInsert<T>(x: T, s: seq<T>, key: T -> int, p: T -> bool)
    requires SortedBy(s, key)
    ensures Filter(Insert(x, s, key), p) == if p(x) then Insert(x, Filter(s, p), key) else Filter(s, p)
  {
    if s == [] {
      FilterCons(x, [], p);
      assert [x] + [] == [x];
    } else if key(x) <= key(s[0]) {
      FilterInsertFront(x, s, key, p);
    } else {
      assert SortedBy(s[1..], key);
      FilterInsert(x, s[1..], key, p);
      FilterInsertBehind(x, s, key, p);
    }
  }

  lemma FilterInsertFront<T>(x: T, s: seq<T>, key: T -> int, p: T -> bool)
    requires SortedBy(s, key) && s != [] && key(x) <= key(s[0])
    ensures Filter(Insert(x, s, key), p) == if p(x) then Insert(x, Filter(s, p), key) else Filter(s, p)
  {
    assert Insert(x, s, key) == [x] + s;
    FilterCons(x, s, p);
    if p(x) && Filter(s, p) != [] {
      FilterMembers(s, p);
      InsertBeforeSmaller(x, s, Filter(s, p), key);
    }
  }

  lemma FilterInsertBehind<T>(x: T, s: seq<T>, key: T -> int, p: T -> bool)
    requires s != [] && key(x) > key(s[0])
    requires Filter(Insert(x, s[1..], key), p) == if p(x) then Insert(x, Filter(s[1..], p), key) else Filter(s[1..], p)
    ensures Filter(Insert(x, s, key), p) == if p(x) then Insert(x, Filter(s, p), key) else Filter(s, p)
  {
    var h, t := s[0], s[1..];
    assert s == [h] + t;
    FilterCons(h, t, p);
    var fh := if p(h) then [h] else [];
    var ft := Filter(t, p);
    var it := Insert(x, t, key);
    assert Insert(x, s, key) == [h] + it;
    FilterCons(h, it, p);
    if p(x) {
      if p(h) {
        InsertBehindHead(x, h, ft, key);
      } else {
        assert fh + ft == ft;
        assert fh + Filter(it, p) == Filter(it, p);
      }
    } else {
      assert Filter(it, p) == ft;
    }
  }

  /** The stable sort commutes with every filter. */
  lemma {:induction false} SortByFilter<T>(s: seq<T>, key: T -> int, p: T -> bool)
    ensures SortBy(Filter(s, p), key) == Filter(SortBy(s, key), p)
  {
    if s != [] {
      var h, t := s[0], s[1..];
      assert s == [h] + t;
      SortByFilter(t, key, p);
      SortBySpec(t, key);
      FilterInsert(h, SortBy(t, key), key, p);
      FilterCons(h, t, p);
      var ft := Filter(t, p);
      if p(h) {
        var f := [h] + ft;
        assert f != [] && f[0] == h && f[1..] == ft;
        assert SortBy(f, key) == Insert(h, SortBy(ft, key), key);
      } else {
        assert Filter(s, p) == ft;
      }
    }
  }

  /** The position of the first element satisfying `p`, if any. */
  function FirstIndex<T>(s: seq<T>, p: T -> bool): (r: Option<nat>)
    ensures r.Some? ==> r.value < |s| && p(s[r.value]) && forall j :: 0 <= j < r.value ==> !p(s[j])
    ensures r.None? <==> forall j :: 0 <= j < |s| ==> !p(s[j])
  {
    if s == [] then None
    else if p(s[0]) then Some(0)
    else match FirstIndex(s[1..], p)
      case None => None
      case Some(k) => Some(k + 1)
  }

  /** The sum of `amount` over `s`. */
  function Sum<T>(s: seq<T>, amount: T -> int): int {
    if s == [] then 0 else amount(s[0]) + Sum(s[1..], amount)
  }

  /** Sums add up over concatenation. */
  lemma {:induction false} SumAppend<T>(a: seq<T>, b: seq<T>, amount: T -> int)
    ensures Sum(a + b, amount) == Sum(a, amount) + Sum(b, amount)
  {
    if a != [] {
      var ab := a + b;
      assert ab != [] && ab[0] == a[0] && ab[1..] == a[1..] + b;
      SumAppend(a[1..], b, amount);
    } else {
      assert a + b == b;
    }
  }
}
