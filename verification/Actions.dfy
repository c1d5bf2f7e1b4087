/** Corporate actions: their total order, and de-duplication as a canonical form. */
module Actions {
  import opened Candles
  import opened Sorting

  datatype Action =
    | Dividend(ts: int, amount: Money)
    | Split(ts: int, numerator: nat, denominator: nat)
    | CapitalGain(ts: int, gain: Money)

  datatype Ordering = Less | Equal | Greater

  function CompareInts(a: int, b: int): Ordering {
    if a < b then Less else if a == b then Equal else Greater
  }

  function Then(first: Ordering, second: Ordering): Ordering {
    if first == Equal then second else first
  }

  function Kind(a: Action): nat {
    match a case Dividend(_, _) => 0 case Split(_, _, _) => 1 case CapitalGain(_, _) => 2
  }

  function CompareMoney(a: Money, b: Money): Ordering {
    Then(CompareInts(a.amount, b.amount), CompareInts(a.currency, b.currency))
  }

  /** By timestamp, then kind, then payload. */
  function CompareActions(a: Action, b: Action): Ordering {
    var byTs := CompareInts(a.ts, b.ts);
    if byTs != Equal then byTs
    else
      var byKind := CompareInts(Kind(a), Kind(b));
      if byKind != Equal then byKind
      else
        match (a, b)
        case (Dividend(_, x), Dividend(_, y)) => CompareMoney(x, y)
        case (CapitalGain(_, x), CapitalGain(_, y)) => CompareMoney(x, y)
        case (Split(_, an, ad), Split(_, bn, bd)) => Then(CompareInts(an, bn), CompareInts(ad, bd))
        case _ => Equal
  }

  predicate Before(a: Action, b: Action) {
    CompareActions(a, b) == Less
  }

  /** The comparison is a strict total order: exactly one of a < b, a = b, b < a holds, and < is transitive. */
  lemma CompareIsTotalOrder(a: Action, b: Action, c: Action)
    ensures CompareActions(a, b) == Equal <==> a == b
    ensures CompareActions(a, b) == Less <==> CompareActions(b, a) == Greater
    ensures Before(a, b) && Before(b, c) ==> Before(a, c)
  {
  }

  ghost predicate SortedActions(xs: seq<Action>) {
    forall i, j | 0 <= i < j < |xs| :: !Before(xs[j], xs[i])
  }

  ghost predicate StrictlySorted(xs: seq<Action>) {
    forall i, j | 0 <= i < j < |xs| :: Before(xs[i], xs[j])
  }

  // ---- Sorting ----------------------------------------------------------------------------

  const ACTION_ORDER: (Action, Action) -> bool := (a, b) => !Before(b, a)

  function SortActions(xs: seq<Action>): seq<Action> {
    SortBy(xs, ACTION_ORDER)
  }

  lemma NotBeforeTransitive(a: Action, b: Action, c: Action)
    requires !Before(b, a) && !Before(c, b)
    ensures !Before(c, a)
  {
    CompareIsTotalOrder(c, a, b);
    CompareIsTotalOrder(a, b, c);
    CompareIsTotalOrder(b, c, a);
  }

  lemma ActionOrderIsTotal()
    ensures TotalPreorder(ACTION_ORDER)
  {
    forall a, b ensures ACTION_ORDER(a, b) || ACTION_ORDER(b, a) {
      CompareIsTotalOrder(a, b, a);
    }
    forall a, b, c | ACTION_ORDER(a, b) && ACTION_ORDER(b, c) ensures ACTION_ORDER(a, c) {
      NotBeforeTransitive(a, b, c);
    }
  }

  lemma SortFacts(xs: seq<Action>)
    ensures SortedActions(SortActions(xs))
    ensures forall x :: x in SortActions(xs) <==> x in xs
  {
    ActionOrderIsTotal();
    SortBySorts(xs, ACTION_ORDER);
    SameMembers(SortActions(xs), xs);
    var sorted := SortActions(xs);
    forall i, j | 0 <= i < j < |sorted| ensures !Before(sorted[j], sorted[i]) {
      assert ACTION_ORDER(sorted[i], sorted[j]);
    }
  }

  // ---- De-duplication ---------------------------------------------------------------------

  /** What identifies an action: everything, with its time in whole seconds. */
  function Key(a: Action): Action {
    a.(ts := a.ts / NANOS)
  }

  function Keys(xs: seq<Action>): set<Action> {
    set x | x in xs :: Key(x)
  }

  /** Keeps the first action of each key. */
  function FirstOfEachKey(xs: seq<Action>): seq<Action> {
    if xs == [] then []
    else
      var init, last := xs[..|xs| - 1], xs[|xs| - 1];
      FirstOfEachKey(init) + if Key(last) in Keys(init) then [] else [last]
  }

  function Dedup(xs: seq<Action>): seq<Action> {
    FirstOfEachKey(SortActions(xs))
  }

  method DedupActions(actions: seq<Action>) returns (out: seq<Action>)
    ensures out == Dedup(actions)
  {
    var sorted := SortActions(actions);
    var seen: set<Action> := {};
    out := [];
    for i := 0 to |sorted|
      invariant seen == Keys(sorted[..i])
      invariant out == FirstOfEachKey(sorted[..i])
    {
      var h := Key(sorted[i]);
      assert sorted[..i + 1][..i] == sorted[..i];
      if h !in seen {
        seen := seen + {h};
        out := out + [sorted[i]];
      }
      assert forall x :: x in sorted[..i + 1] <==> x in sorted[..i] || x == sorted[i];
    }
    assert sorted[..|sorted|] == sorted;
  }

  lemma {:induction false} FirstOfEachKeyMembers(xs: seq<Action>)
    ensures forall x :: x in FirstOfEachKey(xs) ==> x in xs
    ensures Keys(FirstOfEachKey(xs)) == Keys(xs)
  {
    if xs != [] {
      var init, last := xs[..|xs| - 1], xs[|xs| - 1];
      FirstOfEachKeyMembers(init);
      assert xs == init + [last];
      var out, out0 := FirstOfEachKey(xs), FirstOfEachKey(init);
      assert forall x :: x in out ==> x in out0 || x == last;
      assert Keys(xs) == Keys(init) + {Key(last)};
      assert out == out0 || out == out0 + [last];
      assert out == out0 + [last] ==> Keys(out) == Keys(out0) + {Key(last)};
    }
  }

  lemma {:induction false} FirstOfEachKeyStrict(xs: seq<Action>)
    requires SortedActions(xs)
    ensures StrictlySorted(FirstOfEachKey(xs))
  {
    if xs != [] {
      var init, last := xs[..|xs| - 1], xs[|xs| - 1];
      FirstOfEachKeyStrict(init);
      FirstOfEachKeyMembers(init);
      var out0 := FirstOfEachKey(init);
      if Key(last) !in Keys(init) {
        forall i | 0 <= i < |out0| ensures Before(out0[i], last) {
          assert out0[i] in out0 && out0[i] in init;
          var j :| 0 <= j < |init| && init[j] == out0[i];
          assert !Before(xs[|init|], xs[j]);
          assert Key(out0[i]) in Keys(init);
          CompareIsTotalOrder(out0[i], last, last);
          CompareIsTotalOrder(last, out0[i], last);
        }
      }
    }
  }

  /** No two different actions of `xs` share a key: true of whole-second timestamps. */
  ghost predicate KeysDistinguish(xs: seq<Action>) {
    forall a, b | a in xs && b in xs && Key(a) == Key(b) :: a == b
  }

  lemma WholeSecondsDistinguish(xs: seq<Action>)
    requires forall a | a in xs :: a.ts % NANOS == 0
    ensures KeysDistinguish(xs)
  {
    forall a, b | a in xs && b in xs && Key(a) == Key(b) ensures a == b {
      assert a.ts == a.ts / NANOS * NANOS && b.ts == b.ts / NANOS * NANOS;
    }
  }

  function Elements(xs: seq<Action>): set<Action> {
    set x | x in xs
  }

  lemma DedupFacts(xs: seq<Action>)
    ensures StrictlySorted(Dedup(xs))
    ensures forall x :: x in Dedup(xs) ==> x in xs
    ensures Keys(Dedup(xs)) == Keys(xs)
  {
    SortFacts(xs);
    FirstOfEachKeyStrict(SortActions(xs));
    FirstOfEachKeyMembers(SortActions(xs));
    assert Keys(SortActions(xs)) == Keys(xs);
  }

  /** De-duplication sorts strictly; it keeps every action iff keys tell the actions apart. */
  lemma DedupExactly(xs: seq<Action>)
    ensures StrictlySorted(Dedup(xs)) && Elements(Dedup(xs)) <= Elements(xs)
    ensures Elements(Dedup(xs)) == Elements(xs) <==> KeysDistinguish(xs)
  {
    DedupFacts(xs);
    if KeysDistinguish(xs) {
      forall x | x in xs ensures x in Dedup(xs) {
        assert Key(x) in Keys(Dedup(xs));
      }
    }
    if Elements(Dedup(xs)) == Elements(xs) {
      forall a, b | a in xs && b in xs && Key(a) == Key(b) ensures a == b {
        assert a in Elements(xs) && b in Elements(xs);
        OneOfEachKey(SortActions(xs), a, b);
      }
    }
  }

  lemma {:induction false} OneOfEachKey(xs: seq<Action>, a: Action, b: Action)
    requires a in FirstOfEachKey(xs) && b in FirstOfEachKey(xs) && Key(a) == Key(b)
    ensures a == b
  {
    if xs != [] {
      var init, last := xs[..|xs| - 1], xs[|xs| - 1];
      FirstOfEachKeyMembers(init);
      var out0 := FirstOfEachKey(init);
      assert forall x | x in out0 :: Key(x) in Keys(init);
      if a in out0 && b in out0 {
        OneOfEachKey(init, a, b);
      }
    }
  }

  lemma NoElements(xs: seq<Action>)
    ensures xs == [] <==> Elements(xs) == {}
  {
    if xs != [] {
      assert xs[0] in Elements(xs);
    }
  }

  lemma ElementsOfInit(xs: seq<Action>)
    requires StrictlySorted(xs) && xs != []
    ensures Elements(xs[..|xs| - 1]) == Elements(xs) - {xs[|xs| - 1]}
  {
    var init, last := xs[..|xs| - 1], xs[|xs| - 1];
    assert xs == init + [last];
    CompareIsTotalOrder(last, last, last);
    assert forall i | 0 <= i < |init| :: Before(xs[i], xs[|init|]);
  }

  /** A strictly sorted sequence is determined by its elements. */
  lemma {:induction false} StrictlySortedUnique(xs: seq<Action>, ys: seq<Action>)
    requires StrictlySorted(xs) && StrictlySorted(ys) && Elements(xs) == Elements(ys)
    ensures xs == ys
  {
    NoElements(xs);
    NoElements(ys);
    if xs != [] {
      LastIsGreatest(xs, ys);
      ElementsOfInit(xs);
      ElementsOfInit(ys);
      StrictlySortedUnique(xs[..|xs| - 1], ys[..|ys| - 1]);
      assert xs == xs[..|xs| - 1] + [xs[|xs| - 1]] && ys == ys[..|ys| - 1] + [ys[|ys| - 1]];
    }
  }

  lemma LastIsGreatest(xs: seq<Action>, ys: seq<Action>)
    requires StrictlySorted(xs) && StrictlySorted(ys) && Elements(xs) == Elements(ys) && xs != [] && ys != []
    ensures xs[|xs| - 1] == ys[|ys| - 1]
  {
    var x, y := xs[|xs| - 1], ys[|ys| - 1];
    assert x in Elements(ys) && y in Elements(xs);
    var i :| 0 <= i < |ys| && ys[i] == x;
    var j :| 0 <= j < |xs| && xs[j] == y;
    CompareIsTotalOrder(x, y, x);
    CompareIsTotalOrder(y, x, y);
    assert i == |ys| - 1 || Before(x, y);
    assert j == |xs| - 1 || Before(y, x);
  }

  /** `a` is the least action of `s` with its key. */
  ghost predicate IsLeast(s: set<Action>, a: Action) {
    a in s && forall b | b in s && Key(b) == Key(a) :: !Before(b, a)
  }

  lemma {:induction false} FirstOfEachKeyLeast(xs: seq<Action>, a: Action)
    requires SortedActions(xs)
    ensures a in FirstOfEachKey(xs) <==> IsLeast(Elements(xs), a)
  {
    if xs != [] {
      var init, last := xs[..|xs| - 1], xs[|xs| - 1];
      FirstOfEachKeyLeast(init, a);
      assert xs == init + [last];
      assert Elements(xs) == Elements(init) + {last};
      forall b | b in init ensures !Before(last, b) {
        var i :| 0 <= i < |init| && init[i] == b;
        assert !Before(xs[|init|], xs[i]);
      }
      CompareIsTotalOrder(last, last, last);
      if a == last && Key(last) in Keys(init) {
        LastIsNotNew(init, last);
      }
    }
  }

  /**
   * If a key occurs in `init`, an action of that key that sorts after all of `init` is only kept if it occurs there
   * too.
   */
  lemma LastIsNotNew(init: seq<Action>, last: Action)
    requires SortedActions(init + [last]) && Key(last) in Keys(init)
    ensures IsLeast(Elements(init) + {last}, last) ==> IsLeast(Elements(init), last)
  {
    var b :| b in init && Key(b) == Key(last);
    var i :| 0 <= i < |init| && init[i] == b;
    assert !Before((init + [last])[|init|], (init + [last])[i]);
    CompareIsTotalOrder(b, last, b);
    CompareIsTotalOrder(last, b, last);
    assert b in Elements(init) + {last};
  }

  /** De-duplication keeps, of each key, the least action. */
  lemma DedupKeepsLeast(xs: seq<Action>, a: Action)
    ensures a in Dedup(xs) <==> IsLeast(Elements(xs), a)
  {
    SortFacts(xs);
    FirstOfEachKeyLeast(SortActions(xs), a);
    assert Elements(SortActions(xs)) == Elements(xs);
  }

  /** The canonical form depends only on the set of actions. */
  lemma DedupCanonical(xs: seq<Action>, ys: seq<Action>)
    requires Elements(xs) == Elements(ys)
    ensures Dedup(xs) == Dedup(ys)
  {
    DedupFacts(xs);
    DedupFacts(ys);
    forall a ensures a in Dedup(xs) <==> a in Dedup(ys) {
      DedupKeepsLeast(xs, a);
      DedupKeepsLeast(ys, a);
    }
    assert Elements(Dedup(xs)) == Elements(Dedup(ys));
    StrictlySortedUnique(Dedup(xs), Dedup(ys));
  }

  /** Every action of `xs` has a least one of its key, which is kept. */
  lemma LeastExists(xs: seq<Action>, a: Action) returns (b: Action)
    requires a in xs
    ensures b in Dedup(xs) && Key(b) == Key(a) && !Before(a, b)
  {
    DedupFacts(xs);
    assert Key(a) in Keys(Dedup(xs));
    b :| b in Dedup(xs) && Key(b) == Key(a);
    DedupKeepsLeast(xs, b);
    assert a in Elements(xs);
  }

  /** De-duplicating one part first makes no difference. */
  lemma DedupAbsorbs(a: seq<Action>, b: seq<Action>)
    ensures Dedup(Dedup(a) + b) == Dedup(a + b)
  {
    DedupFacts(a);
    DedupFacts(a + b);
    DedupFacts(Dedup(a) + b);
    forall x ensures x in Dedup(Dedup(a) + b) <==> x in Dedup(a + b) {
      DedupKeepsLeast(a + b, x);
      DedupKeepsLeast(Dedup(a) + b, x);
      DedupKeepsLeast(a, x);
      if IsLeast(Elements(a + b), x) {
        assert x in a ==> forall y | y in Elements(a) && Key(y) == Key(x) :: y in Elements(a + b);
        assert forall y | y in Elements(Dedup(a) + b) :: y in Elements(a + b);
      }
      if IsLeast(Elements(Dedup(a) + b), x) {
        forall y | y in Elements(a + b) && Key(y) == Key(x) ensures !Before(y, x) {
          if y in a {
            var z := LeastExists(a, y);
            assert z in Elements(Dedup(a) + b);
            NotBeforeTransitive(x, z, y);
          } else {
            assert y in Elements(Dedup(a) + b);
          }
        }
      }
    }
    assert Elements(Dedup(Dedup(a) + b)) == Elements(Dedup(a + b));
    StrictlySortedUnique(Dedup(Dedup(a) + b), Dedup(a + b));
  }

  /** De-duplicating in parts, in any order, and again, makes no difference. */
  lemma DedupComposes(a: seq<Action>, b: seq<Action>)
    ensures Dedup(a + b) == Dedup(Dedup(a) + Dedup(b)) == Dedup(b + a) == Dedup(Dedup(a + b))
  {
    assert Elements(a + b) == Elements(b + a);
    DedupCanonical(a + b, b + a);
    DedupAbsorbs(a, b);
    assert Elements(Dedup(a) + b) == Elements(b + Dedup(a));
    DedupCanonical(Dedup(a) + b, b + Dedup(a));
    DedupAbsorbs(b, Dedup(a));
    assert Elements(Dedup(b) + Dedup(a)) == Elements(Dedup(a) + Dedup(b));
    DedupCanonical(Dedup(b) + Dedup(a), Dedup(a) + Dedup(b));
    DedupAbsorbs(a + b, []);
    assert Dedup(a + b) + [] == Dedup(a + b) && a + b + [] == a + b;
  }
}
