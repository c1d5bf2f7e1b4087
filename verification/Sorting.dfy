/**
 * Stable sorting by an integer key, or by an order on compound keys, as the standard library's `sort_by_key` does it.
 */
module Sorting {
  ghost predicate Sorted<T>(xs: seq<T>, key: T -> int) {
    forall i, j | 0 <= i < j < |xs| :: key(xs[i]) <= key(xs[j])
  }

  ghost predicate StrictlySorted<T>(xs: seq<T>, key: T -> int) {
    forall i, j | 0 <= i < j < |xs| :: key(xs[i]) < key(xs[j])
  }

  /** The elements with key `k`, in order. */
  function WithKey<T>(xs: seq<T>, key: T -> int, k: int): seq<T> {
    if xs == [] then []
    else WithKey(xs[..|xs| - 1], key, k) + if key(xs[|xs| - 1]) == k then [xs[|xs| - 1]] else []
  }

  lemma {:induction false} WithKeyHas<T>(xs: seq<T>, group: T -> int, k: int, x: T)
    ensures x in WithKey(xs, group, k) <==> x in xs && group(x) == k
  {
    if xs != [] {
      WithKeyHas(xs[..|xs| - 1], group, k, x);
      assert xs == xs[..|xs| - 1] + [xs[|xs| - 1]];
    }
  }

  lemma {:induction false} WithKeyConcat<T>(xs: seq<T>, ys: seq<T>, key: T -> int, k: int)
    ensures WithKey(xs + ys, key, k) == WithKey(xs, key, k) + WithKey(ys, key, k)
  {
    var all := xs + ys;
    if ys == [] {
      assert all == xs;
    } else {
      assert all[..|all| - 1] == xs + ys[..|ys| - 1];
      WithKeyConcat(xs, ys[..|ys| - 1], key, k);
    }
  }

  /** The first element with key `k`, and its position. */
  lemma {:induction false} FirstWithKey<T>(xs: seq<T>, key: T -> int, k: int) returns (p: nat)
    requires WithKey(xs, key, k) != []
    ensures p < |xs| && key(xs[p]) == k && xs[p] == WithKey(xs, key, k)[0]
    ensures forall q | 0 <= q < p :: key(xs[q]) != k
  {
    var n := |xs| - 1;
    if WithKey(xs[..n], key, k) != [] {
      p := FirstWithKey(xs[..n], key, k);
      assert forall q | 0 <= q < p :: xs[..n][q] == xs[q];
    } else {
      p := n;
      forall q | 0 <= q < n ensures key(xs[q]) != k {
        WithKeyHas(xs[..n], key, k, xs[q]);
        assert xs[q] in xs[..n] <==> xs[..n][q] in xs[..n];
      }
    }
  }

  /** The last element with key `k`, and its position. */
  lemma {:induction false} LastWithKey<T>(xs: seq<T>, key: T -> int, k: int) returns (p: nat)
    requires WithKey(xs, key, k) != []
    ensures p < |xs| && key(xs[p]) == k && xs[p] == WithKey(xs, key, k)[|WithKey(xs, key, k)| - 1]
    ensures forall q | p < q < |xs| :: key(xs[q]) != k
  {
    var n := |xs| - 1;
    p := n;
    if key(xs[n]) != k {
      p := LastWithKey(xs[..n], key, k);
      assert forall q | p < q < n :: xs[..n][q] == xs[q];
    }
  }

  /** Puts `x` after the last element whose key is not greater. */
  function Insert<T>(xs: seq<T>, x: T, key: T -> int): seq<T> {
    if xs == [] || key(xs[|xs| - 1]) <= key(x) then xs + [x]
    else Insert(xs[..|xs| - 1], x, key) + [xs[|xs| - 1]]
  }

  function SortByKey<T>(xs: seq<T>, key: T -> int): seq<T> {
    if xs == [] then [] else Insert(SortByKey(xs[..|xs| - 1], key), xs[|xs| - 1], key)
  }

  lemma {:induction false} InsertPermutes<T>(xs: seq<T>, x: T, key: T -> int)
    ensures multiset(Insert(xs, x, key)) == multiset(xs) + multiset{x}
  {
    if xs != [] && key(xs[|xs| - 1]) > key(x) {
      InsertPermutes(xs[..|xs| - 1], x, key);
      assert xs == xs[..|xs| - 1] + [xs[|xs| - 1]];
    }
  }

  lemma {:induction false} InsertSorts<T>(xs: seq<T>, x: T, key: T -> int)
    requires Sorted(xs, key)
    ensures Sorted(Insert(xs, x, key), key)
  {
    if xs != [] && key(xs[|xs| - 1]) > key(x) {
      var init, last := xs[..|xs| - 1], xs[|xs| - 1];
      var ins := Insert(init, x, key);
      InsertSorts(init, x, key);
      InsertPermutes(init, x, key);
      forall i | 0 <= i < |ins| ensures key(ins[i]) <= key(last) {
        assert ins[i] in multiset(ins);
        assert ins[i] in multiset(init) + multiset{x};
      }
    }
  }

  lemma {:induction false} InsertIsStable<T>(xs: seq<T>, x: T, key: T -> int, k: int)
    requires Sorted(xs, key)
    ensures WithKey(Insert(xs, x, key), key, k) == WithKey(xs, key, k) + if key(x) == k then [x] else []
  {
    var ins := Insert(xs, x, key);
    if xs == [] || key(xs[|xs| - 1]) <= key(x) {
      assert ins[..|xs|] == xs;
    } else {
      InsertIsStable(xs[..|xs| - 1], x, key, k);
      assert ins[..|ins| - 1] == Insert(xs[..|xs| - 1], x, key);
    }
  }

  lemma {:induction false} SortPermutes<T>(xs: seq<T>, key: T -> int)
    ensures multiset(SortByKey(xs, key)) == multiset(xs)
  {
    if xs != [] {
      var init, last := xs[..|xs| - 1], xs[|xs| - 1];
      SortPermutes(init, key);
      InsertPermutes(SortByKey(init, key), last, key);
      assert xs == init + [last];
    }
  }

  lemma {:induction false} SortSorts<T>(xs: seq<T>, key: T -> int)
    ensures Sorted(SortByKey(xs, key), key)
    ensures multiset(SortByKey(xs, key)) == multiset(xs)
  {
    SortPermutes(xs, key);
    if xs != [] {
      SortSorts(xs[..|xs| - 1], key);
      InsertSorts(SortByKey(xs[..|xs| - 1], key), xs[|xs| - 1], key);
    }
  }

  lemma {:induction false} SortIsStable<T>(xs: seq<T>, key: T -> int, k: int)
    ensures WithKey(SortByKey(xs, key), key, k) == WithKey(xs, key, k)
  {
    if xs != [] {
      var init, last := xs[..|xs| - 1], xs[|xs| - 1];
      SortSorts(init, key);
      SortIsStable(init, key, k);
      InsertIsStable(SortByKey(init, key), last, key, k);
    }
  }

  lemma SortMembers<T>(xs: seq<T>, key: T -> int)
    ensures forall x :: x in SortByKey(xs, key) <==> x in xs
    ensures |SortByKey(xs, key)| == |xs|
  {
    SortSorts(xs, key);
    assert forall x :: x in multiset(xs) <==> x in xs;
    assert forall x :: x in multiset(SortByKey(xs, key)) <==> x in SortByKey(xs, key);
    assert |multiset(xs)| == |xs| && |multiset(SortByKey(xs, key))| == |SortByKey(xs, key)|;
  }

  /** Sorting leaves a sorted sequence alone. */
  lemma {:induction false} SortSorted<T>(xs: seq<T>, key: T -> int)
    requires Sorted(xs, key)
    ensures SortByKey(xs, key) == xs
  {
    if xs != [] {
      SortSorted(xs[..|xs| - 1], key);
    }
  }

  // ---- Sorting by an order ----------------------------------------------------------------

  ghost predicate TotalPreorder<T(!new)>(le: (T, T) -> bool) {
    (forall a, b :: le(a, b) || le(b, a)) && (forall a, b, c :: le(a, b) && le(b, c) ==> le(a, c))
  }

  ghost predicate SortedBy<T>(xs: seq<T>, le: (T, T) -> bool) {
    forall i, j | 0 <= i < j < |xs| :: le(xs[i], xs[j])
  }

  function InsertBy<T>(xs: seq<T>, x: T, le: (T, T) -> bool): seq<T> {
    if xs == [] || le(xs[|xs| - 1], x) then xs + [x]
    else InsertBy(xs[..|xs| - 1], x, le) + [xs[|xs| - 1]]
  }

  function SortBy<T>(xs: seq<T>, le: (T, T) -> bool): seq<T> {
    if xs == [] then [] else InsertBy(SortBy(xs[..|xs| - 1], le), xs[|xs| - 1], le)
  }

  lemma {:induction false} InsertByPermutes<T>(xs: seq<T>, x: T, le: (T, T) -> bool)
    ensures multiset(InsertBy(xs, x, le)) == multiset(xs) + multiset{x}
  {
    if xs != [] && !le(xs[|xs| - 1], x) {
      InsertByPermutes(xs[..|xs| - 1], x, le);
      assert xs == xs[..|xs| - 1] + [xs[|xs| - 1]];
    }
  }

  lemma {:induction false} InsertBySorts<T(!new)>(xs: seq<T>, x: T, le: (T, T) -> bool)
    requires TotalPreorder(le) && SortedBy(xs, le)
    ensures SortedBy(InsertBy(xs, x, le), le)
  {
    if xs != [] {
      var init, last := xs[..|xs| - 1], xs[|xs| - 1];
      if le(last, x) {
        forall i | 0 <= i < |xs| ensures le(xs[i], x) {
          assert i < |xs| - 1 ==> le(xs[i], last);
        }
      } else {
        var ins := InsertBy(init, x, le);
        InsertBySorts(init, x, le);
        InsertByPermutes(init, x, le);
        forall i | 0 <= i < |ins| ensures le(ins[i], last) {
          assert ins[i] in multiset(ins);
          assert ins[i] in multiset(init) + multiset{x};
        }
      }
    }
  }

  lemma {:induction false} SortByPermutes<T>(xs: seq<T>, le: (T, T) -> bool)
    ensures multiset(SortBy(xs, le)) == multiset(xs)
  {
    if xs != [] {
      var init, last := xs[..|xs| - 1], xs[|xs| - 1];
      SortByPermutes(init, le);
      InsertByPermutes(SortBy(init, le), last, le);
      assert xs == init + [last];
    }
  }

  lemma {:induction false} SortBySorts<T(!new)>(xs: seq<T>, le: (T, T) -> bool)
    requires TotalPreorder(le)
    ensures SortedBy(SortBy(xs, le), le) && multiset(SortBy(xs, le)) == multiset(xs)
  {
    SortByPermutes(xs, le);
    if xs != [] {
      SortBySorts(xs[..|xs| - 1], le);
      InsertBySorts(SortBy(xs[..|xs| - 1], le), xs[|xs| - 1], le);
    }
  }

  /** Sorting leaves a sequence alone that is in order. */
  lemma {:induction false} SortByInOrder<T>(xs: seq<T>, le: (T, T) -> bool)
    requires SortedBy(xs, le)
    ensures SortBy(xs, le) == xs
  {
    if xs != [] {
      SortByInOrder(xs[..|xs| - 1], le);
    }
  }

  lemma SameMembers<T>(a: seq<T>, b: seq<T>)
    requires multiset(a) == multiset(b)
    ensures |a| == |b| && forall x :: x in a <==> x in b
  {
    assert |multiset(a)| == |a| && |multiset(b)| == |b|;
    assert forall x :: x in a <==> x in multiset(a);
    assert forall x :: x in b <==> x in multiset(b);
  }

  ghost predicate AlikeOn<T>(all: set<T>, le: (T, T) -> bool, le': (T, T) -> bool) {
    forall a, b | a in all && b in all :: le(a, b) == le'(a, b)
  }

  /** The order matters only through the elements sorted. */
  lemma {:induction false} SortByAlike<T>(xs: seq<T>, all: set<T>, le: (T, T) -> bool, le': (T, T) -> bool)
    requires AlikeOn(all, le, le') && forall x | x in xs :: x in all
    ensures SortBy(xs, le) == SortBy(xs, le')
  {
    if xs != [] {
      var init, last := xs[..|xs| - 1], xs[|xs| - 1];
      SortByAlike(init, all, le, le');
      SortByPermutes(init, le);
      forall a | a in SortBy(init, le) ensures le(a, last) == le'(a, last) {
        assert a in multiset(SortBy(init, le));
        assert a in multiset(init);
        assert a in init && a in xs && last in xs;
      }
      InsertByAlike(SortBy(init, le), last, le, le');
    }
  }

  lemma {:induction false} InsertByAlike<T>(xs: seq<T>, x: T, le: (T, T) -> bool, le': (T, T) -> bool)
    requires forall a | a in xs :: le(a, x) == le'(a, x)
    ensures InsertBy(xs, x, le) == InsertBy(xs, x, le')
  {
    if xs != [] {
      assert xs[|xs| - 1] in xs;
      InsertByAlike(xs[..|xs| - 1], x, le, le');
    }
  }

  ghost predicate NoDuplicates<T>(xs: seq<T>) {
    forall i, j | 0 <= i < j < |xs| :: xs[i] != xs[j]
  }

  lemma {:induction false} CountedOnce<T>(xs: seq<T>)
    requires NoDuplicates(xs)
    ensures forall x | x in xs :: multiset(xs)[x] == 1
  {
    if xs != [] {
      var init, last := xs[..|xs| - 1], xs[|xs| - 1];
      CountedOnce(init);
      assert xs == init + [last] && last !in init;
      assert multiset(xs) == multiset(init) + multiset{last};
    }
  }

  lemma CountsTwice<T>(xs: seq<T>, i: nat, j: nat)
    requires i < j < |xs| && multiset(xs)[xs[i]] == 1
    ensures xs[i] != xs[j]
  {
    assert xs == xs[..j] + xs[j..];
    assert multiset(xs) == multiset(xs[..j]) + multiset(xs[j..]);
    assert xs[..j][i] in multiset(xs[..j]) && xs[j..][0] in multiset(xs[j..]);
  }

  /** A permutation of distinct elements has distinct elements. */
  lemma PermutationKeepsDistinct<T>(a: seq<T>, b: seq<T>)
    requires multiset(a) == multiset(b) && NoDuplicates(a)
    ensures NoDuplicates(b)
  {
    CountedOnce(a);
    SameMembers(a, b);
    forall i, j | 0 <= i < j < |b| ensures b[i] != b[j] {
      assert b[i] in b;
      CountsTwice(b, i, j);
    }
  }

  /** A strictly sorted sequence is determined by its members. */
  lemma {:induction false} SameMembersSameMap<T>(a: seq<T>, b: seq<T>, key: T -> int)
    requires StrictlySorted(a, key) && StrictlySorted(b, key)
    requires (forall x | x in a :: x in b) && (forall x | x in b :: x in a)
    ensures a == b
    decreases |a|
  {
    if a == [] {
      FirstIsMember(b);
    } else {
      FirstIsMember(a);
      var i, j := |a| - 1, |b| - 1;
      assert a[i] in a && b[j] in b;
      LastIsLargest(a, key, b[j]);
      LastIsLargest(b, key, a[i]);
      SameKeySameElement(a, key, a[i], b[j]);
      forall x | x in a[..i] ensures x in b[..j] {
        InitWithoutLast(a, key, x);
        InitWithoutLast(b, key, x);
      }
      forall x | x in b[..j] ensures x in a[..i] {
        InitWithoutLast(a, key, x);
        InitWithoutLast(b, key, x);
      }
      SameMembersSameMap(a[..i], b[..j], key);
    }
  }

  lemma FirstIsMember<T>(xs: seq<T>)
    ensures xs == [] || xs[0] in xs
  {
  }

  lemma SameKeySameElement<T>(xs: seq<T>, key: T -> int, x: T, y: T)
    requires StrictlySorted(xs, key) && x in xs && y in xs && key(x) == key(y)
    ensures x == y
  {
    var i :| 0 <= i < |xs| && xs[i] == x;
    var j :| 0 <= j < |xs| && xs[j] == y;
    assert i < j ==> key(xs[i]) < key(xs[j]);
    assert j < i ==> key(xs[j]) < key(xs[i]);
  }

  lemma LastIsLargest<T>(xs: seq<T>, key: T -> int, x: T)
    requires StrictlySorted(xs, key) && x in xs
    ensures key(x) <= key(xs[|xs| - 1])
  {
    var i :| 0 <= i < |xs| && xs[i] == x;
    assert i < |xs| - 1 ==> key(xs[i]) < key(xs[|xs| - 1]);
  }

  lemma InitWithoutLast<T>(xs: seq<T>, key: T -> int, x: T)
    requires StrictlySorted(xs, key) && xs != []
    ensures x in xs[..|xs| - 1] <==> x in xs && x != xs[|xs| - 1]
  {
    var n := |xs| - 1;
    assert xs == xs[..n] + [xs[n]];
    if x in xs[..n] {
      var i :| 0 <= i < n && xs[..n][i] == x;
      assert key(xs[i]) < key(xs[n]);
    }
  }
}
