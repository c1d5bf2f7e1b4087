/**
 * Maps with integer keys as sequences in strictly increasing key order, filled so that the first value of a key wins.
 */
module OrderedMap {
  import opened Sorting

  predicate HasKey<T>(m: seq<T>, key: T -> int, k: int) {
    exists i :: 0 <= i < |m| && key(m[i]) == k
  }

  function PutAbsent<T>(m: seq<T>, x: T, key: T -> int): seq<T> {
    if HasKey(m, key, key(x)) then m else Insert(m, x, key)
  }

  function PutAll<T>(m: seq<T>, xs: seq<T>, key: T -> int): seq<T> {
    if xs == [] then m else PutAbsent(PutAll(m, xs[..|xs| - 1], key), xs[|xs| - 1], key)
  }

  function FirstWins<T>(all: seq<T>, key: T -> int): seq<T> {
    PutAll([], all, key)
  }

  /** `x` is the first element of `all` with its key. */
  ghost predicate IsWinner<T>(all: seq<T>, key: T -> int, x: T) {
    exists i :: WinsAt(all, key, x, i)
  }

  ghost predicate WinsAt<T>(all: seq<T>, key: T -> int, x: T, i: nat) {
    i < |all| && all[i] == x && forall j | 0 <= j < i :: key(all[j]) != key(x)
  }

  lemma InsertMembers<T>(m: seq<T>, x: T, key: T -> int)
    ensures |Insert(m, x, key)| == |m| + 1
    ensures forall d :: d in Insert(m, x, key) <==> d in m || d == x
  {
    InsertPermutes(m, x, key);
    var ins := Insert(m, x, key);
    assert |multiset(ins)| == |ins| && |multiset(m)| == |m|;
    forall d ensures d in ins <==> d in m || d == x {
      assert d in multiset(ins) <==> d in multiset(m) + multiset{x};
    }
  }

  lemma {:induction false} InsertAbsent<T>(m: seq<T>, x: T, key: T -> int)
    requires StrictlySorted(m, key) && !HasKey(m, key, key(x))
    ensures StrictlySorted(Insert(m, x, key), key) && |Insert(m, x, key)| == |m| + 1
    ensures forall d :: d in Insert(m, x, key) <==> d in m || d == x
  {
    InsertMembers(m, x, key);
    if m != [] && key(m[|m| - 1]) > key(x) {
      var init, last := m[..|m| - 1], m[|m| - 1];
      assert !HasKey(init, key, key(x));
      InsertAbsent(init, x, key);
      InsertPermutes(init, x, key);
      var ins := Insert(init, x, key);
      forall i | 0 <= i < |ins| ensures key(ins[i]) < key(last) {
        var d := ins[i];
        assert d in multiset(ins);
        assert d in multiset(init) + multiset{x};
        if d in init {
          var j :| 0 <= j < |init| && init[j] == d;
          assert key(m[j]) < key(m[|init|]);
        }
      }
    } else if m != [] {
      assert key(m[|m| - 1]) != key(x);
    }
  }

  lemma HasKeyByMember<T>(m: seq<T>, key: T -> int, k: int)
    ensures HasKey(m, key, k) <==> exists x :: x in m && key(x) == k
  {
    if i :| 0 <= i < |m| && key(m[i]) == k {
      assert m[i] in m;
    }
  }

  lemma PutAbsentFacts<T>(m: seq<T>, x: T, key: T -> int)
    requires StrictlySorted(m, key)
    ensures StrictlySorted(PutAbsent(m, x, key), key)
    ensures |PutAbsent(m, x, key)| == |m| + if HasKey(m, key, key(x)) then 0 else 1
    ensures forall d :: d in PutAbsent(m, x, key) <==> d in m || (d == x && !HasKey(m, key, key(x)))
    ensures forall k :: HasKey(PutAbsent(m, x, key), key, k) <==> HasKey(m, key, k) || k == key(x)
  {
    if !HasKey(m, key, key(x)) {
      InsertAbsent(m, x, key);
    }
    forall k ensures HasKey(PutAbsent(m, x, key), key, k) <==> HasKey(m, key, k) || k == key(x) {
      PutAbsentKey(m, x, key, k);
    }
  }

  lemma PutAbsentKey<T>(m: seq<T>, x: T, key: T -> int, k: int)
    requires forall d :: d in PutAbsent(m, x, key) <==> d in m || (d == x && !HasKey(m, key, key(x)))
    ensures HasKey(PutAbsent(m, x, key), key, k) <==> HasKey(m, key, k) || k == key(x)
  {
    var after := PutAbsent(m, x, key);
    HasKeyByMember(m, key, k);
    HasKeyByMember(after, key, k);
    if HasKey(m, key, k) {
      var d :| d in m && key(d) == k;
      assert d in after;
    }
    if k == key(x) && !HasKey(m, key, k) {
      assert x in after;
    }
    if HasKey(after, key, k) {
      var d :| d in after && key(d) == k;
      assert d in m || d == x;
    }
  }

  lemma {:induction false} PutAllFacts<T>(m: seq<T>, xs: seq<T>, key: T -> int)
    requires StrictlySorted(m, key)
    ensures StrictlySorted(PutAll(m, xs, key), key) && |PutAll(m, xs, key)| >= |m|
    ensures forall d :: d in m ==> d in PutAll(m, xs, key)
    ensures forall k :: HasKey(PutAll(m, xs, key), key, k) <==> HasKey(m, key, k) || HasKey(xs, key, k)
  {
    if xs != [] {
      var init, last := xs[..|xs| - 1], xs[|xs| - 1];
      PutAllFacts(m, init, key);
      PutAbsentFacts(PutAll(m, init, key), last, key);
      forall k ensures HasKey(xs, key, k) <==> HasKey(init, key, k) || k == key(last) {
        HasKeyByMember(xs, key, k);
        HasKeyByMember(init, key, k);
        assert xs == init + [last];
      }
    }
  }

  lemma PutAllStep<T>(m: seq<T>, xs: seq<T>, j: nat, key: T -> int)
    requires j < |xs|
    ensures PutAll(m, xs[..j + 1], key) == PutAbsent(PutAll(m, xs[..j], key), xs[j], key)
  {
    assert xs[..j + 1][..j] == xs[..j];
  }

  lemma {:induction false} PutAllConcat<T>(m: seq<T>, a: seq<T>, b: seq<T>, key: T -> int)
    ensures PutAll(m, a + b, key) == PutAll(PutAll(m, a, key), b, key)
  {
    if b == [] {
      assert a + b == a;
    } else {
      assert (a + b)[..|a + b| - 1] == a + b[..|b| - 1];
      PutAllConcat(m, a, b[..|b| - 1], key);
    }
  }

  /** The map holds exactly the first element of each key, in increasing order of keys. */
  lemma {:induction false} FirstWinsExactly<T>(all: seq<T>, key: T -> int)
    ensures StrictlySorted(FirstWins(all, key), key)
    ensures forall x :: x in FirstWins(all, key) <==> IsWinner(all, key, x)
  {
    PutAllFacts([], all, key);
    if all != [] {
      var init, last := all[..|all| - 1], all[|all| - 1];
      FirstWinsExactly(init, key);
      PutAllFacts([], init, key);
      PutAbsentFacts(FirstWins(init, key), last, key);
      forall x ensures IsWinner(all, key, x) <==> IsWinner(init, key, x) || (x == last && !HasKey(init, key, key(x))) {
        WinnerStep(all, key, x);
      }
    }
  }

  lemma WinnerStep<T>(all: seq<T>, key: T -> int, x: T)
    requires all != []
    ensures var init, last := all[..|all| - 1], all[|all| - 1];
      IsWinner(all, key, x) <==> IsWinner(init, key, x) || (x == last && !HasKey(init, key, key(x)))
  {
    var init, last := all[..|all| - 1], all[|all| - 1];
    if i: nat :| WinsAt(all, key, x, i) {
      if i < |init| {
        assert WinsAt(init, key, x, i);
      }
    }
    if i: nat :| WinsAt(init, key, x, i) {
      assert WinsAt(all, key, x, i);
    }
    if x == last && !HasKey(init, key, key(x)) {
      assert WinsAt(all, key, x, |init|);
    }
  }

  lemma {:induction false} PutSorted<T>(m: seq<T>, key: T -> int)
    requires StrictlySorted(m, key)
    ensures FirstWins(m, key) == m
  {
    if m != [] {
      var init, last := m[..|m| - 1], m[|m| - 1];
      PutSorted(init, key);
      assert !HasKey(init, key, key(last)) by {
        assert forall i | 0 <= i < |init| :: key(m[i]) < key(m[|init|]);
      }
      assert m == init + [last];
      assert init != [] ==> key(m[|init| - 1]) < key(m[|init|]);
    }
  }

  // ---- Changing the values, not the keys --------------------------------------------------

  function Mapped<S, T>(xs: seq<S>, f: S -> T): (ys: seq<T>)
    ensures |ys| == |xs| && forall i | 0 <= i < |xs| :: ys[i] == f(xs[i])
  {
    seq(|xs|, i requires 0 <= i < |xs| => f(xs[i]))
  }

  ghost predicate KeepsOrder<S(!new), T>(f: S -> T, key: S -> int, key': T -> int) {
    forall x, y :: key'(f(x)) <= key'(f(y)) <==> key(x) <= key(y)
  }

  lemma {:induction false} InsertMapped<S(!new), T>(m: seq<S>, x: S, f: S -> T, key: S -> int, key': T -> int)
    requires KeepsOrder(f, key, key')
    ensures Insert(Mapped(m, f), f(x), key') == Mapped(Insert(m, x, key), f)
  {
    if m != [] && key(m[|m| - 1]) > key(x) {
      InsertMapped(m[..|m| - 1], x, f, key, key');
      assert Mapped(m, f)[..|m| - 1] == Mapped(m[..|m| - 1], f);
    }
  }

  lemma {:induction false} PutAllMapped<S(!new), T>(m: seq<S>, xs: seq<S>, f: S -> T, key: S -> int, key': T -> int)
    requires KeepsOrder(f, key, key')
    ensures PutAll(Mapped(m, f), Mapped(xs, f), key') == Mapped(PutAll(m, xs, key), f)
    decreases |xs|
  {
    if xs != [] {
      var init, last := xs[..|xs| - 1], xs[|xs| - 1];
      var before := PutAll(m, init, key);
      PutAllMapped(m, init, f, key, key');
      assert Mapped(xs, f)[..|xs| - 1] == Mapped(init, f);
      assert forall i | 0 <= i < |before| :: key'(Mapped(before, f)[i]) == key'(f(last)) <==>
             key(before[i]) == key(last);
      InsertMapped(before, last, f, key, key');
    }
  }

  /** The same for sorting. */
  lemma {:induction false} SortMapped<S(!new), T>(xs: seq<S>, f: S -> T, key: S -> int, key': T -> int)
    requires KeepsOrder(f, key, key')
    ensures SortByKey(Mapped(xs, f), key') == Mapped(SortByKey(xs, key), f)
  {
    if xs != [] {
      var init, last := xs[..|xs| - 1], xs[|xs| - 1];
      SortMapped(init, f, key, key');
      assert Mapped(xs, f)[..|xs| - 1] == Mapped(init, f);
      InsertMapped(SortByKey(init, key), last, f, key, key');
    }
  }

  /** A change of the values that keeps their order by key commutes with building the map. */
  lemma FirstWinsMapped<S(!new), T>(xs: seq<S>, f: S -> T, key: S -> int, key': T -> int)
    requires KeepsOrder(f, key, key')
    ensures FirstWins(Mapped(xs, f), key') == Mapped(FirstWins(xs, key), f)
  {
    PutAllMapped([], xs, f, key, key');
    assert Mapped<S, T>([], f) == [];
  }
}
