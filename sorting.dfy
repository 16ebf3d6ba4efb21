/**
 * A stable sort by an integer key. Rust's `slice::sort_by` on a key comparison and
 * `slice::sort_by_key` are both stable; `SortBy`, an insertion sort, stands for them.
 * The lemmas show that `SortBy` is sorted, a permutation, stable (elements with equal
 * keys keep their order), and that these properties determine the result uniquely.
 */
module Sorting {
  import opened Seqs

  /** The keys of `s` never decrease. */
  predicate SortedBy<T>(s: seq<T>, key: T -> int) {
    forall i, j :: 0 <= i < j < |s| ==> key(s[i]) <= key(s[j])
  }

  /** A suffix of a sorted sequence is sorted. */
  lemma SortedSuffix<T>(s: seq<T>, i: nat, key: T -> int)
    requires SortedBy(s, key) && i <= |s|
    ensures SortedBy(s[i..], key)
  {
    forall a, b | 0 <= a < b < |s[i..]| ensures key(s[i..][a]) <= key(s[i..][b]) {
      assert s[i..][a] == s[i + a] && s[i..][b] == s[i + b];
    }
  }

  /** The elements of `s` whose key is `k`, in their order in `s`. */
  function WithKey<T>(s: seq<T>, key: T -> int, k: int): (r: seq<T>)
    ensures |r| <= |s|
    ensures forall i :: 0 <= i < |r| ==> key(r[i]) == k
  {
    if |s| == 0 then []
    else (if key(s[0]) == k then [s[0]] else []) + WithKey(s[1..], key, k)
  }

  /** Inserts `x` before the first element whose key is not smaller. */
  function Insert<T>(x: T, s: seq<T>, key: T -> int): (r: seq<T>)
    ensures |r| == |s| + 1
  {
    if |s| == 0 || key(x) <= key(s[0]) then [x] + s
    else [s[0]] + Insert(x, s[1..], key)
  }

  function SortBy<T>(s: seq<T>, key: T -> int): (r: seq<T>)
    ensures |r| == |s|
  {
    if |s| == 0 then []
    else Insert(s[0], SortBy(s[1..], key), key)
  }

  lemma {:induction false} InsertPermutation<T>(x: T, s: seq<T>, key: T -> int)
    ensures multiset(Insert(x, s, key)) == multiset(s) + multiset{x}
  {
    if |s| > 0 && key(x) > key(s[0]) {
      InsertPermutation(x, s[1..], key);
      assert s == [s[0]] + s[1..];
    }
  }

  /** `SortBy` only reorders: the result is a permutation of the input. */
  lemma {:induction false} SortByPermutation<T>(s: seq<T>, key: T -> int)
    ensures multiset(SortBy(s, key)) == multiset(s)
  {
    if |s| > 0 {
      SortByPermutation(s[1..], key);
      InsertPermutation(s[0], SortBy(s[1..], key), key);
      assert s == [s[0]] + s[1..];
    }
  }

  lemma {:induction false} WithKeyAppend<T>(a: seq<T>, b: seq<T>, key: T -> int, k: int)
    ensures WithKey(a + b, key, k) == WithKey(a, key, k) + WithKey(b, key, k)
  {
    if |a| == 0 {
      assert a + b == b;
    } else {
      assert (a + b)[1..] == a[1..] + b;
      WithKeyAppend(a[1..], b, key, k);
    }
  }

  lemma {:induction false} InsertSorted<T>(x: T, s: seq<T>, key: T -> int)
    requires SortedBy(s, key)
    ensures SortedBy(Insert(x, s, key), key)
  {
    if |s| == 0 || key(x) <= key(s[0]) {
    } else {
      InsertSorted(x, s[1..], key);
      var r := Insert(x, s[1..], key);
      InsertPermutation(x, s[1..], key);
      assert multiset(r) == multiset(s[1..]) + multiset{x};
      forall j | 0 <= j < |r| ensures key(s[0]) <= key(r[j]) {
        assert r[j] in multiset(r);
        if r[j] == x {
        } else {
          assert r[j] in multiset(s[1..]);
          var m :| 0 <= m < |s[1..]| && s[1..][m] == r[j];
          assert s[1..][m] == s[m + 1];
        }
      }
    }
  }

  lemma {:induction false} InsertStable<T>(x: T, s: seq<T>, key: T -> int, k: int)
    ensures WithKey(Insert(x, s, key), key, k) == WithKey([x] + s, key, k)
  {
    assert ([x] + s)[1..] == s;
    if |s| == 0 || key(x) <= key(s[0]) {
    } else {
      InsertStable(x, s[1..], key, k);
      var r := Insert(x, s[1..], key);
      assert ([s[0]] + r)[1..] == r;
      assert s == [s[0]] + s[1..];
      assert ([x] + s[1..])[1..] == s[1..];
    }
  }

  lemma InsertStep<T>(x: T, y: T, s: seq<T>, key: T -> int)
    ensures Insert(x, [y] + s, key) == if key(x) <= key(y) then [x, y] + s else [y] + Insert(x, s, key)
  {
    assert ([y] + s)[1..] == s;
  }

  lemma SortByStep<T>(x: T, s: seq<T>, key: T -> int)
    ensures SortBy([x] + s, key) == Insert(x, SortBy(s, key), key)
  {
    assert ([x] + s)[1..] == s;
  }

  /** The result of `SortBy` is sorted by the key. */
  lemma {:induction false} SortBySorted<T>(s: seq<T>, key: T -> int)
    ensures SortedBy(SortBy(s, key), key)
  {
    if |s| > 0 {
      SortBySorted(s[1..], key);
      InsertSorted(s[0], SortBy(s[1..], key), key);
    }
  }

  /** Stability: elements with the same key appear in the same relative order. */
  lemma {:induction false} SortByStable<T>(s: seq<T>, key: T -> int, k: int)
    ensures WithKey(SortBy(s, key), key, k) == WithKey(s, key, k)
  {
    if |s| > 0 {
      SortByStable(s[1..], key, k);
      InsertStable(s[0], SortBy(s[1..], key), key, k);
      assert ([s[0]] + SortBy(s[1..], key))[1..] == SortBy(s[1..], key);
    }
  }

  /** Sorting a sequence that is already sorted changes nothing. */
  lemma {:induction false} SortByOfSorted<T>(s: seq<T>, key: T -> int)
    requires SortedBy(s, key)
    ensures SortBy(s, key) == s
  {
    if |s| > 0 {
      assert SortedBy(s[1..], key) by {
        forall i, j | 0 <= i < j < |s[1..]| ensures key(s[1..][i]) <= key(s[1..][j]) {
          assert s[1..][i] == s[i + 1] && s[1..][j] == s[j + 1];
        }
      }
      SortByOfSorted(s[1..], key);
      assert s == [s[0]] + s[1..];
    }
  }

  /** A sorted sequence with some element of key `k` starts with a key at most `k`. */
  lemma {:induction false} SortedHeadBelow<T>(s: seq<T>, key: T -> int, k: int)
    requires SortedBy(s, key)
    requires WithKey(s, key, k) != []
    ensures |s| > 0 && key(s[0]) <= k
  {
    if key(s[0]) != k {
      assert WithKey(s[1..], key, k) != [];
      assert SortedBy(s[1..], key) by {
        forall i, j | 0 <= i < j < |s[1..]| ensures key(s[1..][i]) <= key(s[1..][j]) {
          assert s[1..][i] == s[i + 1] && s[1..][j] == s[j + 1];
        }
      }
      SortedHeadBelow(s[1..], key, k);
      assert s[1..][0] == s[1];
    }
  }

  /**
   * A sorted sequence is determined by its per-key subsequences: two sorted sequences
   * that agree on every key class are equal. So "sorted and stable" specifies the sort.
   */
  lemma {:induction false} SortedUnique<T>(a: seq<T>, b: seq<T>, key: T -> int)
    requires SortedBy(a, key) && SortedBy(b, key)
    requires forall k :: WithKey(a, key, k) == WithKey(b, key, k)
    ensures a == b
  {
    assert |a| > 0 ==> WithKey(a, key, key(a[0])) != [];
    assert |b| > 0 ==> WithKey(b, key, key(b[0])) != [];
    if |a| == 0 || |b| == 0 {
    } else {
      var ka, kb := key(a[0]), key(b[0]);
      assert WithKey(a, key, ka) != [];
      SortedHeadBelow(b, key, ka);
      assert WithKey(b, key, kb) != [];
      SortedHeadBelow(a, key, kb);
      assert ka == kb;
      assert WithKey(a, key, ka) == [a[0]] + WithKey(a[1..], key, ka);
      assert WithKey(b, key, ka) == [b[0]] + WithKey(b[1..], key, ka);
      assert a[0] == WithKey(a, key, ka)[0] == WithKey(b, key, ka)[0] == b[0];
      forall k ensures WithKey(a[1..], key, k) == WithKey(b[1..], key, k) {
        assert WithKey(a, key, k) == WithKey(b, key, k);
        assert WithKey(a, key, k) == (if ka == k then [a[0]] else []) + WithKey(a[1..], key, k);
        assert WithKey(b, key, k) == (if kb == k then [b[0]] else []) + WithKey(b[1..], key, k);
        if k == ka {
          assert WithKey(a, key, k)[1..] == WithKey(a[1..], key, k);
          assert WithKey(b, key, k)[1..] == WithKey(b[1..], key, k);
        } else {
          assert WithKey(a, key, k) == WithKey(a[1..], key, k);
          assert WithKey(b, key, k) == WithKey(b[1..], key, k);
        }
      }
      assert SortedBy(a[1..], key) by {
        forall i, j | 0 <= i < j < |a[1..]| ensures key(a[1..][i]) <= key(a[1..][j]) {
          assert a[1..][i] == a[i + 1] && a[1..][j] == a[j + 1];
        }
      }
      assert SortedBy(b[1..], key) by {
        forall i, j | 0 <= i < j < |b[1..]| ensures key(b[1..][i]) <= key(b[1..][j]) {
          assert b[1..][i] == b[i + 1] && b[1..][j] == b[j + 1];
        }
      }
      SortedUnique(a[1..], b[1..], key);
      assert a == [a[0]] + a[1..];
      assert b == [b[0]] + b[1..];
    }
  }

  /**
   * `SortBy` is the stable sort: its result is sorted, a permutation of the input, keeps
   * the order within every key class, and is the only sequence with these properties.
   */
  lemma SortByIsStableSort<T>(s: seq<T>, key: T -> int, r: seq<T>)
    ensures SortedBy(SortBy(s, key), key)
    ensures multiset(SortBy(s, key)) == multiset(s)
    ensures forall k :: WithKey(SortBy(s, key), key, k) == WithKey(s, key, k)
    ensures SortedBy(r, key) && (forall k :: WithKey(r, key, k) == WithKey(s, key, k))
            ==> r == SortBy(s, key)
  {
    SortBySorted(s, key);
    SortByPermutation(s, key);
    forall k ensures WithKey(SortBy(s, key), key, k) == WithKey(s, key, k) {
      SortByStable(s, key, k);
    }
    if SortedBy(r, key) && (forall k :: WithKey(r, key, k) == WithKey(s, key, k)) {
      SortedUnique(r, SortBy(s, key), key);
    }
  }

  /**
   * The stable merge of two sorted sequences: the next element is the head of `a`
   * unless the head of `b` has a strictly smaller key.
   */
  function StableMerge<T>(a: seq<T>, b: seq<T>, key: T -> int): (r: seq<T>)
    ensures |r| == |a| + |b|
    decreases |a| + |b|
  {
    if |a| == 0 then b
    else if |b| == 0 then a
    else if key(a[0]) <= key(b[0]) then [a[0]] + StableMerge(a[1..], b, key)
    else [b[0]] + StableMerge(a, b[1..], key)
  }

  /** No element of a sorted sequence has a key below that of its head. */
  lemma SortedHeadMin<T>(s: seq<T>, key: T -> int, k: int)
    requires SortedBy(s, key) && |s| > 0 && k < key(s[0])
    ensures WithKey(s, key, k) == []
  {
    SortedNoKeyBelow(s, key, k);
  }

  lemma {:induction false} SortedNoKeyBelow<T>(s: seq<T>, key: T -> int, k: int)
    requires SortedBy(s, key)
    requires forall i :: 0 <= i < |s| ==> k < key(s[i])
    ensures WithKey(s, key, k) == []
  {
    if |s| > 0 {
      SortedSuffix(s, 1, key);
      assert forall i :: 0 <= i < |s[1..]| ==> k < key(s[1..][i]) by {
        forall i | 0 <= i < |s[1..]| ensures k < key(s[1..][i]) {
          assert s[1..][i] == s[i + 1];
        }
      }
      SortedNoKeyBelow(s[1..], key, k);
    }
  }

  /** The key class `k` of `[x] + s`. */
  lemma WithKeyCons<T>(x: T, s: seq<T>, key: T -> int, k: int)
    ensures WithKey([x] + s, key, k) == (if key(x) == k then [x] else []) + WithKey(s, key, k)
  {
    assert ([x] + s)[1..] == s;
  }

  /** Merging keeps every key class in order: first those of `a`, then those of `b`. */
  lemma {:induction false} MergeWithKey<T>(a: seq<T>, b: seq<T>, key: T -> int, k: int)
    requires SortedBy(a, key) && SortedBy(b, key)
    ensures WithKey(StableMerge(a, b, key), key, k) == WithKey(a, key, k) + WithKey(b, key, k)
    decreases |a| + |b|
  {
    if |a| == 0 {
      AppendEmpty(WithKey(b, key, k));
    } else if |b| == 0 {
      AppendEmpty(WithKey(a, key, k));
    } else if key(a[0]) <= key(b[0]) {
      SortedSuffix(a, 1, key);
      MergeWithKey(a[1..], b, key, k);
      WithKeyCons(a[0], StableMerge(a[1..], b, key), key, k);
      WithKeyCons(a[0], a[1..], key, k);
      HeadTail(a);
      AppendAssoc((if key(a[0]) == k then [a[0]] else []), WithKey(a[1..], key, k), WithKey(b, key, k));
    } else {
      SortedSuffix(b, 1, key);
      MergeWithKey(a, b[1..], key, k);
      WithKeyCons(b[0], StableMerge(a, b[1..], key), key, k);
      WithKeyCons(b[0], b[1..], key, k);
      HeadTail(b);
      MergeTakesRight(a, b, key, k);
    }
  }

  /** The step of `MergeWithKey` that takes the head of `b`. */
  lemma MergeTakesRight<T>(a: seq<T>, b: seq<T>, key: T -> int, k: int)
    requires SortedBy(a, key) && |a| > 0 && |b| > 0 && key(b[0]) < key(a[0])
    ensures (if key(b[0]) == k then [b[0]] else []) + (WithKey(a, key, k) + WithKey(b[1..], key, k))
         == WithKey(a, key, k) + ((if key(b[0]) == k then [b[0]] else []) + WithKey(b[1..], key, k))
  {
    if key(b[0]) == k {
      SortedHeadMin(a, key, k);
    }
  }

  /** Every key of `StableMerge(a, b)` is at least `m` when every key of `a` and of `b` is. */
  lemma {:induction false} MergeAbove<T>(a: seq<T>, b: seq<T>, key: T -> int, m: int)
    requires forall i :: 0 <= i < |a| ==> m <= key(a[i])
    requires forall i :: 0 <= i < |b| ==> m <= key(b[i])
    ensures forall i :: 0 <= i < |StableMerge(a, b, key)| ==> m <= key(StableMerge(a, b, key)[i])
    decreases |a| + |b|
  {
    if |a| > 0 && |b| > 0 {
      if key(a[0]) <= key(b[0]) {
        AboveSuffix(a, key, m);
        MergeAbove(a[1..], b, key, m);
        AboveCons(a[0], StableMerge(a[1..], b, key), key, m);
      } else {
        AboveSuffix(b, key, m);
        MergeAbove(a, b[1..], key, m);
        AboveCons(b[0], StableMerge(a, b[1..], key), key, m);
      }
    }
  }

  lemma AboveSuffix<T>(s: seq<T>, key: T -> int, m: int)
    requires |s| > 0 && forall i :: 0 <= i < |s| ==> m <= key(s[i])
    ensures forall i :: 0 <= i < |s[1..]| ==> m <= key(s[1..][i])
  {
    forall i | 0 <= i < |s[1..]| ensures m <= key(s[1..][i]) {
      assert s[1..][i] == s[i + 1];
    }
  }

  lemma AboveCons<T>(x: T, s: seq<T>, key: T -> int, m: int)
    requires m <= key(x) && forall i :: 0 <= i < |s| ==> m <= key(s[i])
    ensures forall i :: 0 <= i < |[x] + s| ==> m <= key(([x] + s)[i])
  {
    forall i | 0 <= i < |[x] + s| ensures m <= key(([x] + s)[i]) {
      if i > 0 {
        assert ([x] + s)[i] == s[i - 1];
      }
    }
  }

  /** A sorted sequence with a head no larger than all of it is sorted. */
  lemma SortedCons<T>(x: T, s: seq<T>, key: T -> int)
    requires SortedBy(s, key) && forall i :: 0 <= i < |s| ==> key(x) <= key(s[i])
    ensures SortedBy([x] + s, key)
  {
    forall i, j | 0 <= i < j < |[x] + s| ensures key(([x] + s)[i]) <= key(([x] + s)[j]) {
      assert ([x] + s)[j] == s[j - 1];
      if i > 0 {
        assert ([x] + s)[i] == s[i - 1];
      }
    }
  }

  /** Every key of a sorted sequence is at least that of its head. */
  lemma SortedAboveHead<T>(s: seq<T>, key: T -> int, m: int)
    requires SortedBy(s, key) && |s| > 0 && m <= key(s[0])
    ensures forall i :: 0 <= i < |s| ==> m <= key(s[i])
  {
  }

  /** The merge of two sorted sequences is sorted. */
  lemma {:induction false} MergeSorted<T>(a: seq<T>, b: seq<T>, key: T -> int)
    requires SortedBy(a, key) && SortedBy(b, key)
    ensures SortedBy(StableMerge(a, b, key), key)
    decreases |a| + |b|
  {
    if |a| > 0 && |b| > 0 {
      if key(a[0]) <= key(b[0]) {
        var h := a[0];
        SortedSuffix(a, 1, key);
        MergeSorted(a[1..], b, key);
        SortedAboveHead(a, key, key(h));
        AboveSuffix(a, key, key(h));
        SortedAboveHead(b, key, key(h));
        MergeAbove(a[1..], b, key, key(h));
        SortedCons(h, StableMerge(a[1..], b, key), key);
      } else {
        var h := b[0];
        SortedSuffix(b, 1, key);
        MergeSorted(a, b[1..], key);
        SortedAboveHead(b, key, key(h));
        AboveSuffix(b, key, key(h));
        SortedAboveHead(a, key, key(h));
        MergeAbove(a, b[1..], key, key(h));
        SortedCons(h, StableMerge(a, b[1..], key), key);
      }
    }
  }

  /**
   * Sorting a concatenation is merging the sorted halves: so merging several streams
   * and sorting their events together give the same order.
   */
  lemma SortByAppend<T>(a: seq<T>, b: seq<T>, key: T -> int)
    ensures SortBy(a + b, key) == StableMerge(SortBy(a, key), SortBy(b, key), key)
  {
    var sa, sb := SortBy(a, key), SortBy(b, key);
    SortBySorted(a, key);
    SortBySorted(b, key);
    SortBySorted(a + b, key);
    MergeSorted(sa, sb, key);
    forall k ensures WithKey(SortBy(a + b, key), key, k) == WithKey(StableMerge(sa, sb, key), key, k) {
      SortByStable(a + b, key, k);
      WithKeyAppend(a, b, key, k);
      SortByStable(a, key, k);
      SortByStable(b, key, k);
      MergeWithKey(sa, sb, key, k);
    }
    SortedUnique(SortBy(a + b, key), StableMerge(sa, sb, key), key);
  }

  /** A run of `a` whose keys are at most the head of `b` is taken first, as it is. */
  lemma {:induction false} MergeLeftRun<T>(p: seq<T>, a: seq<T>, b: seq<T>, key: T -> int)
    requires |b| > 0 && forall i :: 0 <= i < |p| ==> key(p[i]) <= key(b[0])
    ensures StableMerge(p + a, b, key) == p + StableMerge(a, b, key)
    decreases |p|
  {
    if |p| == 0 {
      AppendEmpty(a);
      AppendEmpty(StableMerge(a, b, key));
    } else {
      TailAppend(p, a);
      AboveSuffixAt(p, key, key(b[0]));
      MergeLeftRun(p[1..], a, b, key);
      AppendAssoc([p[0]], p[1..], StableMerge(a, b, key));
      HeadTail(p);
    }
  }

  lemma AboveSuffixAt<T>(p: seq<T>, key: T -> int, m: int)
    requires |p| > 0 && forall i :: 0 <= i < |p| ==> key(p[i]) <= m
    ensures forall i :: 0 <= i < |p[1..]| ==> key(p[1..][i]) <= m
  {
    forall i | 0 <= i < |p[1..]| ensures key(p[1..][i]) <= m {
      assert p[1..][i] == p[i + 1];
    }
  }
}
