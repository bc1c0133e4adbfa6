/**
 * A stable sort on a numeric key, the model of `Array.prototype.sort` with a
 * comparator that subtracts the keys of its two arguments (JavaScript's sort is
 * stable since ES2019).
 * A descending sort is the same sort on the negated key.
 */
module StableSort {
  import opened Seqs

  /** Keys never decrease along `s`. */
  predicate SortedBy<T>(s: seq<T>, key: T -> real) {
    forall i, j :: 0 <= i < j < |s| ==> key(s[i]) <= key(s[j])
  }

  /** No two elements of `s` share a key. */
  predicate DistinctKeys<T>(s: seq<T>, key: T -> real) {
    forall i, j :: 0 <= i < j < |s| ==> key(s[i]) != key(s[j])
  }

  /**
   * Inserts `x` before the first element whose key is at least `key(x)`. Since `x`
   * comes earlier in the input than everything already sorted, placing it ahead of
   * its equals keeps the sort stable.
   */
  function Insert<T>(x: T, s: seq<T>, key: T -> real): (r: seq<T>)
    ensures |r| == |s| + 1
    ensures multiset(r) == multiset{x} + multiset(s)
  {
    if s == [] || key(x) <= key(s[0]) then [x] + s
    else
      assert s == [s[0]] + s[1..];
      [s[0]] + Insert(x, s[1..], key)
  }

  /** Insertion keeps a sorted sequence sorted. */
  lemma {:induction false} InsertSorted<T>(x: T, s: seq<T>, key: T -> real)
    requires SortedBy(s, key)
    ensures SortedBy(Insert(x, s, key), key)
  {
    if s != [] && key(x) > key(s[0]) {
      var rest := Insert(x, s[1..], key);
      InsertSorted(x, s[1..], key);
      forall i | 0 <= i < |rest|
        ensures key(s[0]) <= key(rest[i])
      {
        assert rest[i] in multiset(rest);
        assert rest[i] == x || rest[i] in s[1..];
      }
    }
  }

  /** Insertion sort by `key`, ascending and stable. */
  function SortBy<T>(s: seq<T>, key: T -> real): (r: seq<T>)
    ensures |r| == |s|
    ensures multiset(r) == multiset(s)
    ensures SortedBy(r, key)
  {
    if s == [] then []
    else
      assert s == [s[0]] + s[1..];
      InsertSorted(s[0], SortBy(s[1..], key), key);
      Insert(s[0], SortBy(s[1..], key), key)
  }

  /** Sorting neither adds nor drops an element. */
  lemma SortMembers<T>(s: seq<T>, key: T -> real, x: T)
    ensures x in SortBy(s, key) <==> x in s
  {
    assert x in SortBy(s, key) <==> x in multiset(SortBy(s, key));
  }

  /**
   * The index of the first element of `s` with the least key: the element a stable
   * ascending sort puts first.
   */
  function FirstMinIndex<T>(s: seq<T>, key: T -> real): (k: nat)
    requires s != []
    ensures k < |s|
    ensures forall i :: 0 <= i < |s| ==> key(s[k]) <= key(s[i])
    ensures forall i :: 0 <= i < k ==> key(s[i]) > key(s[k])
  {
    if |s| == 1 then 0
    else
      var k := FirstMinIndex(s[1..], key);
      if key(s[0]) <= key(s[1..][k]) then 0 else k + 1
  }

  /** The head of the sorted sequence is the first element with the least key. */
  lemma {:induction false} SortHead<T>(s: seq<T>, key: T -> real)
    requires s != []
    ensures SortBy(s, key)[0] == s[FirstMinIndex(s, key)]
  {
    if |s| > 1 {
      SortHead(s[1..], key);
    }
  }

  /** Insertion past a head keyed below the inserted element. */
  lemma InsertPast<T>(x: T, y: T, s: seq<T>, key: T -> real)
    requires key(y) < key(x)
    ensures Insert(x, [y] + s, key) == [y] + Insert(x, s, key)
  {
    assert ([y] + s)[1..] == s;
  }

  /** Insertion at the front of a sorted sequence, seen through a filter. */
  lemma FilterInsertFront<T>(x: T, s: seq<T>, key: T -> real, p: T -> bool)
    requires SortedBy(s, key)
    requires s == [] || key(x) <= key(s[0])
    ensures Filter(Insert(x, s, key), p)
         == if p(x) then Insert(x, Filter(s, p), key) else Filter(s, p)
  {
    InsertFront(x, s, key);
    FilterCons(x, s, p);
    FilterHeadAbove(x, s, key, p);
    InsertFront(x, Filter(s, p), key);
  }

  /** Inserting an element keyed no higher than the head puts it in front. */
  lemma InsertFront<T>(x: T, s: seq<T>, key: T -> real)
    requires s == [] || key(x) <= key(s[0])
    ensures Insert(x, s, key) == [x] + s
  {
  }

  /** A filter of a sorted sequence starts no lower than the sequence does. */
  lemma FilterHeadAbove<T>(x: T, s: seq<T>, key: T -> real, p: T -> bool)
    requires SortedBy(s, key)
    requires s == [] || key(x) <= key(s[0])
    ensures Filter(s, p) == [] || key(x) <= key(Filter(s, p)[0])
  {
    var atLeastX := (y: T) => key(x) <= key(y);
    assert forall i :: 0 <= i < |s| ==> atLeastX(s[i]) by {
      if s != [] {
        assert forall i :: 0 <= i < |s| ==> key(s[0]) <= key(s[i]);
      }
    }
    FilterBounded(s, p, atLeastX);
    var f := Filter(s, p);
    assert f == [] || atLeastX(f[0]);
  }

  /** Filtering a sorted sequence and inserting commute. */
  lemma {:induction false} FilterInsert<T>(x: T, s: seq<T>, key: T -> real, p: T -> bool)
    requires SortedBy(s, key)
    ensures Filter(Insert(x, s, key), p)
         == if p(x) then Insert(x, Filter(s, p), key) else Filter(s, p)
  {
    if s == [] || key(x) <= key(s[0]) {
      FilterInsertFront(x, s, key, p);
    } else {
      var rest := Insert(x, s[1..], key);
      var f := Filter(s[1..], p);
      FilterInsert(x, s[1..], key, p);
      InsertPast(x, s[0], s[1..], key);
      assert s == [s[0]] + s[1..];
      FilterCons(s[0], s[1..], p);
      FilterCons(s[0], rest, p);
      if p(s[0]) && p(x) {
        InsertPast(x, s[0], f, key);
      }
    }
  }

  /**
   * Stability: the elements satisfying any predicate appear in the sorted sequence
   * exactly as a sort of them alone would place them.
   */
  lemma {:induction false} FilterSort<T>(s: seq<T>, key: T -> real, p: T -> bool)
    ensures Filter(SortBy(s, key), p) == SortBy(Filter(s, p), key)
  {
    if s != [] {
      FilterSort(s[1..], key, p);
      FilterInsert(s[0], SortBy(s[1..], key), key, p);
    }
  }

  /** The elements whose key is `m`. */
  function KeyIs<T>(key: T -> real, m: real): T -> bool {
    (x: T) => key(x) == m
  }

  /** Sorting a sequence whose keys are all equal leaves it as it is. */
  lemma {:induction false} SortEqualKeys<T>(s: seq<T>, key: T -> real)
    requires forall i :: 0 <= i < |s| ==> key(s[i]) == key(s[0])
    ensures SortBy(s, key) == s
  {
    if s != [] {
      SortEqualKeys(s[1..], key);
      InsertFront(s[0], s[1..], key);
      assert s == [s[0]] + s[1..];
    }
  }

  /** Stability: the elements sharing any one key keep their input order. */
  lemma SortStable<T>(s: seq<T>, key: T -> real, m: real)
    ensures Filter(SortBy(s, key), KeyIs(key, m)) == Filter(s, KeyIs(key, m))
  {
    FilterSort(s, key, KeyIs(key, m));
    FilterSatisfies(s, KeyIs(key, m));
    SortEqualKeys(Filter(s, KeyIs(key, m)), key);
  }

  /** Distinct keys stay distinct under insertion. */
  lemma {:induction false} InsertDistinct<T>(x: T, s: seq<T>, key: T -> real)
    requires DistinctKeys(s, key)
    requires forall i :: 0 <= i < |s| ==> key(s[i]) != key(x)
    ensures DistinctKeys(Insert(x, s, key), key)
  {
    if s != [] && key(x) > key(s[0]) {
      InsertDistinct(x, s[1..], key);
      var rest := Insert(x, s[1..], key);
      forall i | 0 <= i < |rest|
        ensures key(rest[i]) != key(s[0])
      {
        assert rest[i] in multiset(rest);
        assert rest[i] == x || rest[i] in s[1..];
      }
    }
  }

  /** Sorting a sequence with distinct keys leaves its keys distinct, hence strictly ordered. */
  lemma {:induction false} SortDistinct<T>(s: seq<T>, key: T -> real)
    requires DistinctKeys(s, key)
    ensures DistinctKeys(SortBy(s, key), key)
    ensures forall i, j :: 0 <= i < j < |s| ==> key(SortBy(s, key)[i]) < key(SortBy(s, key)[j])
  {
    if s != [] {
      SortDistinct(s[1..], key);
      var rest := SortBy(s[1..], key);
      forall i | 0 <= i < |rest|
        ensures key(rest[i]) != key(s[0])
      {
        assert rest[i] in multiset(rest);
      }
      InsertDistinct(s[0], rest, key);
    }
  }

  /** An element keyed above everything already sorted lands at the end. */
  lemma {:induction false} InsertLargest<T>(x: T, s: seq<T>, key: T -> real)
    requires forall i :: 0 <= i < |s| ==> key(s[i]) < key(x)
    ensures Insert(x, s, key) == s + [x]
  {
    if s != [] {
      InsertLargest(x, s[1..], key);
    }
  }

  /** Inserting ahead of a trailing element keyed above the inserted one leaves it trailing. */
  lemma {:induction false} InsertBeforeLast<T>(x: T, s: seq<T>, e: T, key: T -> real)
    requires key(x) < key(e)
    ensures Insert(x, s + [e], key) == Insert(x, s, key) + [e]
  {
    if s == [] {
    } else if key(x) <= key(s[0]) {
    } else {
      assert (s + [e])[1..] == s[1..] + [e];
      InsertBeforeLast(x, s[1..], e, key);
    }
  }

  /**
   * An element keyed strictly above every other element ends up last after sorting,
   * wherever it stood, and the rest are sorted as if it were absent.
   */
  lemma {:induction false} SortWithLargest<T>(a: seq<T>, e: T, b: seq<T>, key: T -> real)
    requires forall i :: 0 <= i < |a| ==> key(a[i]) < key(e)
    requires forall i :: 0 <= i < |b| ==> key(b[i]) < key(e)
    ensures SortBy(a + [e] + b, key) == SortBy(a + b, key) + [e]
  {
    if a == [] {
      assert a + [e] + b == [e] + b;
      assert ([e] + b)[1..] == b;
      assert a + b == b;
      var sb := SortBy(b, key);
      forall i | 0 <= i < |sb|
        ensures key(sb[i]) < key(e)
      {
        assert sb[i] in multiset(sb);
      }
      InsertLargest(e, sb, key);
    } else {
      assert (a + [e] + b)[0] == a[0];
      assert (a + [e] + b)[1..] == a[1..] + [e] + b;
      assert (a + b)[0] == a[0];
      assert (a + b)[1..] == a[1..] + b;
      SortWithLargest(a[1..], e, b, key);
      InsertBeforeLast(a[0], SortBy(a[1..] + b, key), e, key);
    }
  }

  /**
   * A prefix of the sorted sequence holds the least keys: it is sorted, drawn from
   * the input, and no element left out is keyed below an element kept.
   */
  lemma SortedPrefix<T>(s: seq<T>, key: T -> real, n: nat)
    requires n <= |s|
    ensures SortedBy(SortBy(s, key)[..n], key)
    ensures multiset(SortBy(s, key)[..n]) <= multiset(s)
    ensures forall x, k :: x in multiset(s) - multiset(SortBy(s, key)[..n]) && 0 <= k < n
              ==> key(SortBy(s, key)[..n][k]) <= key(x)
  {
    var sorted := SortBy(s, key);
    SplitMultiset(sorted, n);
    SortedSplit(sorted, key, n);
  }

  /** Cutting a sequence in two splits its multiset. */
  lemma SplitMultiset<T>(t: seq<T>, n: nat)
    requires n <= |t|
    ensures multiset(t) - multiset(t[..n]) == multiset(t[n..])
  {
    assert t == t[..n] + t[n..];
  }

  /** Both halves of a sorted sequence are sorted, and no key of the back is below the front. */
  lemma SortedSplit<T>(t: seq<T>, key: T -> real, n: nat)
    requires n <= |t|
    requires SortedBy(t, key)
    ensures SortedBy(t[..n], key)
    ensures forall x, k :: x in multiset(t[n..]) && 0 <= k < n ==> key(t[..n][k]) <= key(x)
  {
    forall x, k | x in multiset(t[n..]) && 0 <= k < n
      ensures key(t[..n][k]) <= key(x)
    {
      var j :| 0 <= j < |t[n..]| && t[n..][j] == x;
      assert t[n + j] == x;
    }
  }

  /** Filtering keeps a sorted sequence sorted. */
  lemma {:induction false} FilterSorted<T>(s: seq<T>, key: T -> real, p: T -> bool)
    requires SortedBy(s, key)
    ensures SortedBy(Filter(s, p), key)
  {
    if s != [] {
      var x := s[0];
      FilterSorted(s[1..], key, p);
      FilterBounded(s[1..], p, (y: T) => key(x) <= key(y));
    }
  }

  /** Filtering keeps distinct keys distinct. */
  lemma {:induction false} FilterDistinct<T>(s: seq<T>, key: T -> real, p: T -> bool)
    requires DistinctKeys(s, key)
    ensures DistinctKeys(Filter(s, p), key)
  {
    if s != [] {
      var x := s[0];
      FilterDistinct(s[1..], key, p);
      FilterBounded(s[1..], p, (y: T) => key(x) != key(y));
    }
  }

  /** Inserting an image into the images is the image of inserting, when `f` keeps keys. */
  lemma {:induction false} InsertMap<A, B>(f: A -> B, x: A, s: seq<A>, ka: A -> real, kb: B -> real)
    requires forall a :: kb(f(a)) == ka(a)
    ensures Insert(f(x), MapSeq(f, s), kb) == MapSeq(f, Insert(x, s, ka))
  {
    if s != [] {
      assert MapSeq(f, s)[0] == f(s[0]);
      assert MapSeq(f, s)[1..] == MapSeq(f, s[1..]);
      if ka(x) > ka(s[0]) {
        InsertMap(f, x, s[1..], ka, kb);
      }
    }
  }

  /**
   * Mapping then sorting by a key equals sorting by the key read through the map, then
   * mapping: with distinct keys it does not matter which comes first.
   */
  lemma {:induction false} SortMap<A, B>(f: A -> B, s: seq<A>, ka: A -> real, kb: B -> real)
    requires forall a :: kb(f(a)) == ka(a)
    ensures SortBy(MapSeq(f, s), kb) == MapSeq(f, SortBy(s, ka))
  {
    if s != [] {
      assert MapSeq(f, s)[0] == f(s[0]);
      assert MapSeq(f, s)[1..] == MapSeq(f, s[1..]);
      SortMap(f, s[1..], ka, kb);
      InsertMap(f, s[0], SortBy(s[1..], ka), ka, kb);
    }
  }
}
