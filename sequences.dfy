/**
 * Sequence operations that the planner borrows from JavaScript arrays:
 * `indexOf`, and the stable `sort` with a key comparator.
 */
module Sequences {

  /** `indexOf`: the first position of `x` in `s`, or -1 when it is absent. */
  function IndexOf<T(==)>(s: seq<T>, x: T): (i: int)
    ensures -1 <= i < |s|
    ensures i >= 0 ==> s[i] == x && forall j :: 0 <= j < i ==> s[j] != x
    ensures i == -1 <==> x !in s
  {
    if |s| == 0 then -1
    else if s[0] == x then 0
    else
      var k := IndexOf(s[1..], x);
      if k == -1 then -1 else k + 1
  }

  /** Two present elements have the same first position only if they are equal. */
  lemma IndexOfInjective<T>(s: seq<T>, x: T, y: T)
    requires x in s && y in s && IndexOf(s, x) == IndexOf(s, y)
    ensures x == y
  {
  }

  ghost predicate SortedBy<T>(s: seq<T>, key: T -> int)
  {
    forall i, j :: 0 <= i < j < |s| ==> key(s[i]) <= key(s[j])
  }

  ghost predicate DistinctBy<T>(s: seq<T>, key: T -> int)
  {
    forall i, j :: 0 <= i < j < |s| ==> key(s[i]) != key(s[j])
  }

  /** Places `x` after every element whose key is at most `key(x)`. */
  function Insert<T>(s: seq<T>, x: T, key: T -> int): (r: seq<T>)
    ensures |r| == |s| + 1
    ensures multiset(r) == multiset(s) + multiset{x}
  {
    if s == [] then [x]
    else if key(x) < key(s[0]) then [x] + s
    else
      assert s == [s[0]] + s[1..];
      [s[0]] + Insert(s[1..], x, key)
  }

  /** Inserting into a sorted sequence keeps it sorted. */
  lemma {:induction false} InsertSorted<T>(s: seq<T>, x: T, key: T -> int)
    requires SortedBy(s, key)
    ensures SortedBy(Insert(s, x, key), key)
  {
    if s != [] {
      if key(x) < key(s[0]) {
        ConsSorted(x, s, key);
      } else {
        var tail := s[1..];
        assert SortedBy(tail, key) && forall i :: 0 <= i < |tail| ==> key(s[0]) <= key(tail[i]) by {
          forall i | 0 <= i < |tail| ensures key(s[0]) <= key(tail[i]) && tail[i] == s[i + 1] { }
        }
        InsertSorted(tail, x, key);
        InsertLowerBound(tail, x, key, key(s[0]));
        ConsSorted(s[0], Insert(tail, x, key), key);
      }
    }
  }

  /** Every key of `Insert(s, x)` is at least a bound that holds for `s` and `x`. */
  lemma {:induction false} InsertLowerBound<T>(s: seq<T>, x: T, key: T -> int, m: int)
    requires forall i :: 0 <= i < |s| ==> m <= key(s[i])
    requires m <= key(x)
    ensures forall i :: 0 <= i < |Insert(s, x, key)| ==> m <= key(Insert(s, x, key)[i])
  {
    if s != [] && key(x) >= key(s[0]) {
      var tail := s[1..];
      assert forall i :: 0 <= i < |tail| ==> tail[i] == s[i + 1];
      InsertLowerBound(tail, x, key, m);
    }
  }

  /** Putting an element with the least key in front of a sorted sequence keeps it sorted. */
  lemma ConsSorted<T>(x: T, s: seq<T>, key: T -> int)
    requires SortedBy(s, key)
    requires s == [] || key(x) <= key(s[0])
    requires forall i :: 0 <= i < |s| ==> key(x) <= key(s[i])
    ensures SortedBy([x] + s, key)
  {
    var r := [x] + s;
    forall i, j | 0 <= i < j < |r| ensures key(r[i]) <= key(r[j]) {
      assert r[j] == s[j - 1];
      if i > 0 {
        assert r[i] == s[i - 1];
      }
    }
  }

  /**
   * The stable sort `[...s].sort((a, b) => key(a) - key(b))`: an insertion
   * sort that keeps elements with equal keys in their input order (`SortByStable`). The input
   * is a value, so it is never changed.
   */
  function SortBy<T>(s: seq<T>, key: T -> int): (r: seq<T>)
    ensures |r| == |s|
    ensures multiset(r) == multiset(s)
    ensures SortedBy(r, key)
  {
    if s == [] then []
    else
      var init := s[..|s| - 1];
      assert s == init + [s[|s| - 1]];
      InsertSorted(SortBy(init, key), s[|s| - 1], key);
      Insert(SortBy(init, key), s[|s| - 1], key)
  }

  /** The elements of `s` whose key is `v`, in their order in `s`. */
  ghost function WithKey<T>(s: seq<T>, key: T -> int, v: int): seq<T>
  {
    if s == [] then []
    else (if key(s[0]) == v then [s[0]] else []) + WithKey(s[1..], key, v)
  }

  lemma {:induction false} WithKeyAppend<T>(a: seq<T>, b: seq<T>, key: T -> int, v: int)
    ensures WithKey(a + b, key, v) == WithKey(a, key, v) + WithKey(b, key, v)
  {
    if a != [] {
      var ca := if key(a[0]) == v then [a[0]] else [];
      assert (a + b)[0] == a[0] && (a + b)[1..] == a[1..] + b;
      WithKeyAppend(a[1..], b, key, v);
      assert WithKey(a + b, key, v) == ca + (WithKey(a[1..], key, v) + WithKey(b, key, v));
    } else {
      assert a + b == b;
    }
  }

  lemma {:induction false} WithKeyNone<T>(s: seq<T>, key: T -> int, v: int)
    requires forall i :: 0 <= i < |s| ==> key(s[i]) != v
    ensures WithKey(s, key, v) == []
  {
    if s != [] {
      WithKeyNone(s[1..], key, v);
    }
  }

  lemma WithKeyCons<T>(x: T, s: seq<T>, key: T -> int, v: int)
    ensures WithKey([x] + s, key, v) == (if key(x) == v then [x] else []) + WithKey(s, key, v)
  {
    assert ([x] + s)[0] == x && ([x] + s)[1..] == s;
  }

  lemma SortedTail<T>(t: seq<T>, key: T -> int)
    requires t != [] && SortedBy(t, key)
    ensures SortedBy(t[1..], key)
  {
    var tail := t[1..];
    forall i, j | 0 <= i < j < |tail| ensures key(tail[i]) <= key(tail[j]) {
      assert tail[i] == t[i + 1] && tail[j] == t[j + 1];
    }
  }

  /** A sorted sequence has no element with a key below its first one. */
  lemma BelowFirstNone<T>(t: seq<T>, key: T -> int, v: int)
    requires t != [] && SortedBy(t, key) && v < key(t[0])
    ensures WithKey(t, key, v) == []
  {
    forall i | 0 <= i < |t| ensures key(t[i]) != v {
      assert key(t[0]) <= key(t[i]);
    }
    WithKeyNone(t, key, v);
  }

  /** `Insert` puts `x` after every element of a sorted sequence that has the same key. */
  lemma {:induction false} InsertWithKey<T>(t: seq<T>, x: T, key: T -> int, v: int)
    requires SortedBy(t, key)
    ensures WithKey(Insert(t, x, key), key, v) == WithKey(t, key, v) + (if key(x) == v then [x] else [])
  {
    if t == [] || key(x) < key(t[0]) {
      if t != [] && key(x) == v {
        BelowFirstNone(t, key, v);
      }
      InsertFrontWithKey(t, x, key, v);
    } else {
      SortedTail(t, key);
      InsertWithKey(t[1..], x, key, v);
      InsertLaterWithKey(t, x, key, v);
    }
  }

  /** The case where `Insert` places `x` in front. */
  lemma InsertFrontWithKey<T>(t: seq<T>, x: T, key: T -> int, v: int)
    requires t == [] || key(x) < key(t[0])
    requires key(x) == v ==> WithKey(t, key, v) == []
    ensures WithKey(Insert(t, x, key), key, v) == WithKey(t, key, v) + (if key(x) == v then [x] else [])
  {
    assert Insert(t, x, key) == [x] + t;
    WithKeyCons(x, t, key, v);
    var w := WithKey(t, key, v);
    if key(x) == v {
      assert [x] + w == w + [x];
    } else {
      assert [] + w == w + [];
    }
  }

  /** The case where `Insert` passes the first element, given the result for the rest. */
  lemma InsertLaterWithKey<T>(t: seq<T>, x: T, key: T -> int, v: int)
    requires t != [] && key(x) >= key(t[0])
    requires WithKey(Insert(t[1..], x, key), key, v) == WithKey(t[1..], key, v) + (if key(x) == v then [x] else [])
    ensures WithKey(Insert(t, x, key), key, v) == WithKey(t, key, v) + (if key(x) == v then [x] else [])
  {
    var tail := t[1..];
    var ins := Insert(tail, x, key);
    var ct := if key(t[0]) == v then [t[0]] else [];
    var cx := if key(x) == v then [x] else [];
    HeadTail(t);
    assert Insert(t, x, key) == [t[0]] + ins;
    WithKeyCons(t[0], ins, key, v);
    WithKeyCons(t[0], tail, key, v);
    ConcatAssoc(ct, WithKey(tail, key, v), cx);
  }

  lemma HeadTail<T>(t: seq<T>)
    requires t != []
    ensures t == [t[0]] + t[1..]
  {
  }

  lemma ConcatAssoc<T>(a: seq<T>, b: seq<T>, c: seq<T>)
    ensures a + (b + c) == (a + b) + c
  {
  }

  /**
   * `SortBy` is stable: for every key, the elements carrying it appear in the
   * output in the same order as in the input.
   */
  lemma {:induction false} SortByStable<T>(s: seq<T>, key: T -> int, v: int)
    ensures WithKey(SortBy(s, key), key, v) == WithKey(s, key, v)
  {
    if s != [] {
      var init := s[..|s| - 1];
      var last := s[|s| - 1];
      assert s == init + [last];
      SortByStable(init, key, v);
      InsertWithKey(SortBy(init, key), last, key, v);
      WithKeyAppend(init, [last], key, v);
      assert WithKey([last], key, v) == (if key(last) == v then [last] else []) by {
        assert [last][1..] == [];
      }
    }
  }

  /** In a sequence whose keys are pairwise distinct, no element occurs twice. */
  lemma {:induction false} DistinctByOccursOnce<T>(s: seq<T>, key: T -> int, x: T)
    requires DistinctBy(s, key)
    ensures multiset(s)[x] <= 1
  {
    if s != [] {
      var init := s[..|s| - 1];
      assert s == init + [s[|s| - 1]];
      DistinctByOccursOnce(init, key, x);
    }
  }

  /** Two equal elements at different positions occur at least twice. */
  lemma OccursTwice<T>(s: seq<T>, i: int, j: int)
    requires 0 <= i < j < |s| && s[i] == s[j]
    ensures multiset(s)[s[i]] >= 2
  {
    assert s == s[..i] + [s[i]] + s[i + 1..j] + [s[j]] + s[j + 1..];
  }

  /** Distinct keys survive a permutation. */
  lemma DistinctByPermutation<T>(a: seq<T>, b: seq<T>, key: T -> int)
    requires multiset(a) == multiset(b) && DistinctBy(a, key)
    ensures DistinctBy(b, key)
  {
    forall i, j | 0 <= i < j < |b| ensures key(b[i]) != key(b[j]) {
      if b[i] == b[j] {
        OccursTwice(b, i, j);
        DistinctByOccursOnce(a, key, b[i]);
        assert false;
      } else {
        assert b[i] in multiset(a) && b[j] in multiset(a);
        var ia :| 0 <= ia < |a| && a[ia] == b[i];
        var ja :| 0 <= ja < |a| && a[ja] == b[j];
        if ia < ja {
          assert key(a[ia]) != key(a[ja]);
        } else {
          assert key(a[ja]) != key(a[ia]);
        }
      }
    }
  }

  /**
   * A sequence sorted by distinct keys that all lie in 0 .. |s|-1 has the
   * key k at position k.
   */
  lemma DistinctSortedKeysAreDense<T>(s: seq<T>, key: T -> int)
    requires SortedBy(s, key) && DistinctBy(s, key)
    requires forall i :: 0 <= i < |s| ==> 0 <= key(s[i]) < |s|
    ensures forall k :: 0 <= k < |s| ==> key(s[k]) == k
  {
    forall k | 0 <= k < |s| ensures key(s[k]) == k {
      KeyAtLeastIndex(s, key, k);
      KeyAtMostIndex(s, key, k);
    }
  }

  lemma {:induction false} KeyAtLeastIndex<T>(s: seq<T>, key: T -> int, k: nat)
    requires SortedBy(s, key) && DistinctBy(s, key)
    requires forall i :: 0 <= i < |s| ==> 0 <= key(s[i])
    requires k < |s|
    ensures key(s[k]) >= k
  {
    if k > 0 {
      KeyAtLeastIndex(s, key, k - 1);
      assert key(s[k - 1]) <= key(s[k]) && key(s[k - 1]) != key(s[k]);
    }
  }

  lemma {:induction false} KeyAtMostIndex<T>(s: seq<T>, key: T -> int, k: nat)
    requires SortedBy(s, key) && DistinctBy(s, key)
    requires forall i :: 0 <= i < |s| ==> key(s[i]) < |s|
    requires k < |s|
    ensures key(s[k]) <= k
    decreases |s| - k
  {
    if k < |s| - 1 {
      KeyAtMostIndex(s, key, k + 1);
      assert key(s[k]) <= key(s[k + 1]) && key(s[k]) != key(s[k + 1]);
    }
  }
}
