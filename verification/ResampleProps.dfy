/** What resampling computes: group by bucket, when it fails, and that two resamplings fuse into one. */
module ResampleProps {
  import opened Wrappers
  import opened Candles
  import opened Sorting
  import opened Resample

  // ---- Grouping ---------------------------------------------------------------------------

  function Bucket(b: Bucketing): Candle -> int {
    (c: Candle) => BucketOf(b, c)
  }

  /** The candles of bucket `k`, in order. */
  function Members(ys: seq<Candle>, b: Bucketing, k: int): seq<Candle> {
    WithKey(ys, Bucket(b), k)
  }

  function VolumeOf(g: seq<Candle>): Option<nat> {
    if g == [] then None else AddVolume(VolumeOf(g[..|g| - 1]), g[|g| - 1].volume)
  }

  /** Whether amount `a` is at least as good as `b`: as high, or as low. */
  predicate AsGood(highest: bool, a: int, b: int) {
    if highest then a >= b else a <= b
  }

  /** `p` is the price picked by `pick` from the earliest candle of `g` with the highest, or the lowest, amount. */
  ghost predicate FirstBest(p: Money, g: seq<Candle>, pick: Candle -> Money, highest: bool) {
    exists i :: 0 <= i < |g| && IsFirstBest(p, g, pick, highest, i)
  }

  ghost predicate IsFirstBest(p: Money, g: seq<Candle>, pick: Candle -> Money, highest: bool, i: nat)
    requires i < |g|
  {
    && p == pick(g[i])
    && (forall j | 0 <= j < |g| :: AsGood(highest, p.amount, pick(g[j]).amount))
    && (forall j | 0 <= j < i :: pick(g[j]).amount != p.amount)
  }

  function High(c: Candle): Money { c.high }

  function Low(c: Candle): Money { c.low }

  /** `acc` is what the non-empty group `g` of bucket `k` adds up to. */
  ghost predicate Summarises(acc: Acc, k: int, g: seq<Candle>) {
    && g != [] && acc.bucket == k
    && acc.open == g[0].open && acc.close == g[|g| - 1].close
    && FirstBest(acc.high, g, High, true) && FirstBest(acc.low, g, Low, false)
    && acc.volume == VolumeOf(g)
  }

  /**
   * `r` is the candle of bucket `k` with members `g`: first open, highest high, lowest low, last close, clamped volume.
   */
  ghost predicate IsCandleOf(r: Candle, k: int, g: seq<Candle>) {
    exists acc :: Summarises(acc, k, g) && r == Close(acc)
  }

  ghost predicate BucketsSorted(ys: seq<Candle>, b: Bucketing) {
    Sorted(ys, Bucket(b))
  }

  /** `out` has one candle per non-empty bucket of `ys`, in increasing order of buckets. */
  ghost predicate Groups(out: seq<Candle>, ys: seq<Candle>, b: Bucketing) {
    && StrictlySorted(out, Ts)
    && (forall i | 0 <= i < |out| :: IsCandleOf(out[i], out[i].ts, Members(ys, b, out[i].ts)))
    && (forall c | c in ys :: exists i :: 0 <= i < |out| && out[i].ts == BucketOf(b, c))
  }

  lemma AbsorbSummarises(acc: Acc, k: int, g: seq<Candle>, c: Candle)
    requires Summarises(acc, k, g)
    ensures Summarises(Absorb(acc, c), k, g + [c])
  {
    var g', after := g + [c], Absorb(acc, c);
    assert g'[..|g|] == g;
    assert FirstBest(after.high, g', High, true) by {
      var i :| 0 <= i < |g| && IsFirstBest(acc.high, g, High, true, i);
      assert IsFirstBest(after.high, g', High, true, if c.high.amount > acc.high.amount then |g| else i);
    }
    assert FirstBest(after.low, g', Low, false) by {
      var i :| 0 <= i < |g| && IsFirstBest(acc.low, g, Low, false, i);
      assert IsFirstBest(after.low, g', Low, false, if c.low.amount < acc.low.amount then |g| else i);
    }
  }

  lemma StartSummarises(k: int, c: Candle)
    ensures Summarises(Start(k, c), k, [c])
  {
    assert [c][..0] == [];
    assert IsFirstBest(c.high, [c], High, true, 0);
    assert IsFirstBest(c.low, [c], Low, false, 0);
  }

  lemma {:induction false} NoneWithLargerKey(ys: seq<Candle>, b: Bucketing, k: int)
    requires forall i | 0 <= i < |ys| :: BucketOf(b, ys[i]) < k
    ensures Members(ys, b, k) == []
  {
    if ys != [] {
      NoneWithLargerKey(ys[..|ys| - 1], b, k);
    }
  }

  /** The invariant of the pass: closed buckets are complete and precede the open one. */
  ghost predicate PassInvariant(out: seq<Candle>, acc: Acc, ys: seq<Candle>, b: Bucketing) {
    && StrictlySorted(out, Ts)
    && (forall i | 0 <= i < |out| :: out[i].ts < acc.bucket && IsCandleOf(out[i], out[i].ts, Members(ys, b, out[i].ts)))
    && (forall c | c in ys :: BucketOf(b, c) == acc.bucket || exists i :: 0 <= i < |out| && out[i].ts == BucketOf(b, c))
    && Summarises(acc, acc.bucket, Members(ys, b, acc.bucket))
  }

  lemma MembersStep(ys: seq<Candle>, b: Bucketing, k: int)
    requires ys != []
    ensures Members(ys, b, k) ==
            Members(ys[..|ys| - 1], b, k) + if BucketOf(b, ys[|ys| - 1]) == k then [ys[|ys| - 1]] else []
  {
  }

  lemma PassAbsorbs(out: seq<Candle>, acc: Acc, ys: seq<Candle>, c: Candle, b: Bucketing)
    requires PassInvariant(out, acc, ys, b) && BucketOf(b, c) == acc.bucket
    ensures PassInvariant(out, Absorb(acc, c), ys + [c], b)
  {
    var all := ys + [c];
    assert all[..|all| - 1] == ys;
    AbsorbSummarises(acc, acc.bucket, Members(ys, b, acc.bucket), c);
    forall i | 0 <= i < |out| ensures Members(all, b, out[i].ts) == Members(ys, b, out[i].ts) {
      MembersStep(all, b, out[i].ts);
    }
    MembersStep(all, b, acc.bucket);
  }

  lemma OtherMembersKept(ys: seq<Candle>, c: Candle, b: Bucketing, k: int)
    requires BucketOf(b, c) != k
    ensures Members(ys + [c], b, k) == Members(ys, b, k)
  {
    assert (ys + [c])[..|ys|] == ys;
    MembersStep(ys + [c], b, k);
  }

  lemma EveryBucketListed(out: seq<Candle>, acc: Acc, ys: seq<Candle>, b: Bucketing, d: Candle)
    requires PassInvariant(out, acc, ys, b) && d in ys
    ensures exists i :: 0 <= i < |out + [Close(acc)]| && (out + [Close(acc)])[i].ts == BucketOf(b, d)
  {
    var all := out + [Close(acc)];
    if BucketOf(b, d) == acc.bucket {
      assert all[|out|].ts == BucketOf(b, d);
    } else {
      var i :| 0 <= i < |out| && out[i].ts == BucketOf(b, d);
      assert all[i].ts == BucketOf(b, d);
    }
  }

  lemma PassAdvances(out: seq<Candle>, acc: Acc, ys: seq<Candle>, c: Candle, b: Bucketing)
    requires PassInvariant(out, acc, ys, b) && acc.bucket < BucketOf(b, c)
    requires forall i | 0 <= i < |ys| :: BucketOf(b, ys[i]) < BucketOf(b, c)
    ensures PassInvariant(out + [Close(acc)], Start(BucketOf(b, c), c), ys + [c], b)
  {
    var all, k, out1 := ys + [c], BucketOf(b, c), out + [Close(acc)];
    forall i | 0 <= i < |out1|
      ensures out1[i].ts < k && IsCandleOf(out1[i], out1[i].ts, Members(all, b, out1[i].ts))
    {
      OtherMembersKept(ys, c, b, out1[i].ts);
    }
    forall d | d in ys
      ensures exists i :: 0 <= i < |out1| && out1[i].ts == BucketOf(b, d)
    {
      EveryBucketListed(out, acc, ys, b, d);
    }
    assert Summarises(Start(k, c), k, Members(all, b, k)) by {
      NoneWithLargerKey(ys, b, k);
      assert all[..|all| - 1] == ys;
      MembersStep(all, b, k);
      assert Members(all, b, k) == [c];
      StartSummarises(k, c);
    }
  }

  lemma {:induction false} FoldGroups(ys: seq<Candle>, b: Bucketing)
    requires ys != [] && BucketsSorted(ys, b)
    ensures PassInvariant(Fold(ys, b).0, Fold(ys, b).1, ys, b)
    ensures Fold(ys, b).1.bucket == BucketOf(b, ys[|ys| - 1])
  {
    var init, c := ys[..|ys| - 1], ys[|ys| - 1];
    var k := BucketOf(b, c);
    assert ys == init + [c];
    if init == [] {
      assert ys == [c];
      StartSummarises(k, c);
      MembersStep(ys, b, k);
      assert Members([], b, k) == [];
    } else {
      FoldGroups(init, b);
      var (out, acc) := Fold(init, b);
      FoldAppend(init, c, b);
      forall i | 0 <= i < |init| ensures BucketOf(b, init[i]) <= acc.bucket <= k {
        assert Bucket(b)(ys[i]) <= Bucket(b)(ys[|init| - 1]) <= Bucket(b)(ys[|init|]) || i == |init| - 1;
        assert Bucket(b)(ys[|init| - 1]) <= Bucket(b)(ys[|init|]);
      }
      if k == acc.bucket {
        PassAbsorbs(out, acc, init, c, b);
      } else {
        assert BucketOf(b, init[|init| - 1]) <= k;
        PassAdvances(out, acc, init, c, b);
      }
    }
  }

  /** A bucketing never sends a later timestamp to an earlier bucket. */
  ghost predicate Monotone(b: Bucketing) {
    forall s, t | s <= t && b(s).Some? && b(t).Some? :: b(s).value <= b(t).value
  }

  lemma {:induction false} KeptSorted(xs: seq<Candle>, b: Bucketing)
    requires Sorted(xs, Ts)
    ensures Sorted(Kept(xs, b), Ts)
    ensures forall c :: c in Kept(xs, b) <==> c in xs && b(c.ts).Some?
  {
    if xs != [] {
      KeptSorted(xs[..|xs| - 1], b);
      assert xs == xs[..|xs| - 1] + [xs[|xs| - 1]];
      var ys := Kept(xs[..|xs| - 1], b);
      assert forall i | 0 <= i < |ys| :: ys[i] in ys;
      assert forall c | c in xs[..|xs| - 1] :: Ts(c) <= Ts(xs[|xs| - 1]);
    }
  }

  /** The one-pass resampler with a monotone bucketing computes the group-by of the stably sorted series. */
  lemma ResamplesByGroup(xs: seq<Candle>, b: Bucketing)
    requires Monotone(b) && Resampled(xs, b).Ok?
    ensures Groups(Resampled(xs, b).value, Kept(SortByKey(xs, Ts), b), b)
    ensures forall c :: c in Kept(SortByKey(xs, Ts), b) <==> c in xs && b(c.ts).Some?
  {
    var ys := Kept(SortByKey(xs, Ts), b);
    KeptOfSorted(xs, b);
    if ys != [] {
      forall i, j | 0 <= i < j < |ys| ensures Bucket(b)(ys[i]) <= Bucket(b)(ys[j]) {
        assert Ts(ys[i]) <= Ts(ys[j]);
      }
      FoldGroups(ys, b);
      ClosingCompletes(Fold(ys, b).0, Fold(ys, b).1, ys, b);
    }
  }

  lemma KeptOfSorted(xs: seq<Candle>, b: Bucketing)
    ensures Sorted(Kept(SortByKey(xs, Ts), b), Ts)
    ensures forall c :: c in Kept(SortByKey(xs, Ts), b) <==> c in xs && b(c.ts).Some?
  {
    SortSorts(xs, Ts);
    SortMembers(xs, Ts);
    KeptSorted(SortByKey(xs, Ts), b);
  }

  lemma ClosingCompletes(out: seq<Candle>, acc: Acc, ys: seq<Candle>, b: Bucketing)
    requires PassInvariant(out, acc, ys, b)
    ensures Groups(CloseLast((out, acc)), ys, b)
  {
    forall c | c in ys
      ensures exists i :: 0 <= i < |out + [Close(acc)]| && (out + [Close(acc)])[i].ts == BucketOf(b, c)
    {
      EveryBucketListed(out, acc, ys, b, c);
    }
  }

  /** The volume of a group is absent iff it is absent everywhere. */
  lemma {:induction false} VolumeAbsent(g: seq<Candle>)
    ensures VolumeOf(g).None? <==> forall i | 0 <= i < |g| :: g[i].volume.None?
  {
    if g != [] {
      VolumeAbsent(g[..|g| - 1]);
      assert forall i | 0 <= i < |g| - 1 :: g[i] == g[..|g| - 1][i];
    }
  }

  // ---- Errors -----------------------------------------------------------------------------

  /**
   * While the pass has not failed, every candle seen has the currency of the open bucket or of the first closed one.
   */
  lemma {:induction false} PassingCurrencies(ys: seq<Candle>, b: Bucketing)
    requires ys != [] && AllUniform(ys) && FoldPasses(ys, b)
    ensures var (out, acc) := Fold(ys, b);
      && UniformPrices(acc.open, acc.high, acc.low, acc.close)
      && forall i | 0 <= i < |ys| ::
           ys[i].open.currency == acc.open.currency || (out != [] && ys[i].open.currency == out[0].open.currency)
  {
    if |ys| > 1 {
      var init := ys[..|ys| - 1];
      PassingCurrencies(init, b);
      assert forall i | 0 <= i < |init| :: ys[i] == init[i];
    }
  }

  lemma {:induction false} OneCurrencyPasses(ys: seq<Candle>, b: Bucketing)
    requires ys != [] && AllUniform(ys) && OneCurrency(ys)
    ensures FoldPasses(ys, b)
    ensures var (out, acc) := Fold(ys, b);
      && UniformPrices(acc.open, acc.high, acc.low, acc.close) && acc.open.currency == ys[0].open.currency
      && (forall i | 0 <= i < |out| :: Uniform(out[i]) && out[i].open.currency == ys[0].open.currency)
  {
    if |ys| > 1 {
      var init := ys[..|ys| - 1];
      OneCurrencyPasses(init, b);
      assert ys[|ys| - 1].open.currency == ys[0].open.currency;
    }
  }

  /**
   * If every candle is uniform, resampling succeeds iff the bucketed candles share one currency; the result then has it
   * too.
   */
  lemma SucceedsIffOneCurrency(xs: seq<Candle>, b: Bucketing)
    requires AllUniform(xs)
    ensures Resampled(xs, b).Ok? <==> OneCurrency(Kept(SortByKey(xs, Ts), b))
    ensures Resampled(xs, b).Ok? ==> AllUniform(Resampled(xs, b).value) && OneCurrency(Resampled(xs, b).value)
  {
    var ys := Kept(SortByKey(xs, Ts), b);
    KeptOfSorted(xs, b);
    forall i | 0 <= i < |ys| ensures Uniform(ys[i]) {
      assert ys[i] in ys;
    }
    if ys != [] {
      PassesIffOneCurrency(ys, b);
    }
  }

  lemma PassesIffOneCurrency(ys: seq<Candle>, b: Bucketing)
    requires ys != [] && AllUniform(ys)
    ensures Passes(ys, b) <==> OneCurrency(ys)
    ensures Passes(ys, b) ==> AllUniform(CloseLast(Fold(ys, b))) && OneCurrency(CloseLast(Fold(ys, b)))
  {
    if Passes(ys, b) {
      PassingCurrencies(ys, b);
      var (out, acc) := Fold(ys, b);
      assert forall i | 0 <= i < |ys| :: ys[i].open.currency == acc.open.currency;
    }
    if OneCurrency(ys) {
      OneCurrencyPasses(ys, b);
    }
  }

  /**
   * Uniformity of the input is needed: a candle whose high is in another currency, but not the highest,
   * is not noticed, although every price in a bucket is promised to share one.
   */
  lemma MixedCandleUnnoticed()
    ensures var a := Candle(0, Money(5, 0), Money(9, 0), Money(1, 0), Money(5, 0), None, None);
      var c := Candle(1, Money(5, 0), Money(6, 1), Money(2, 1), Money(5, 0), None, None);
      !Uniform(c) && Resampled([a, c], (t: int) => Some(0)).Ok?
  {
    var a := Candle(0, Money(5, 0), Money(9, 0), Money(1, 0), Money(5, 0), None, None);
    var c := Candle(1, Money(5, 0), Money(6, 1), Money(2, 1), Money(5, 0), None, None);
    var b := (t: int) => Some(0);
    assert Sorted([a, c], Ts);
    SortSorted([a, c], Ts);
    assert [a, c][..1] == [a] && [a][..0] == [];
    assert Kept([], b) == [] && Kept([a], b) == [a];
    assert Kept([a, c], b) == [a, c];
    assert Fold([a], b) == ([], Start(0, a));
    assert Fold([a, c], b) == ([], Absorb(Start(0, a), c));
  }

  // ---- Fusion -----------------------------------------------------------------------------

  /** Equal up to a volume that the clamp makes equal. */
  ghost predicate SameAcc(a: Acc, b: Acc) {
    a.(volume := None) == b.(volume := None) && Clamp(a.volume) == Clamp(b.volume)
  }

  lemma ClampAdds(a: Option<nat>, a': Option<nat>, v: Option<nat>)
    requires Clamp(a) == Clamp(a')
    ensures Clamp(AddVolume(a, v)) == Clamp(AddVolume(a', v))
    ensures Clamp(AddVolume(a, Clamp(v))) == Clamp(AddVolume(a', v))
  {
  }

  lemma ClampAssociates(a: Option<nat>, v: Option<nat>, w: Option<nat>)
    ensures Clamp(AddVolume(a, Clamp(AddVolume(v, w)))) == Clamp(AddVolume(AddVolume(a, Clamp(v)), w))
    ensures Clamp(Clamp(AddVolume(v, w))) == Clamp(AddVolume(Clamp(v), w))
  {
  }

  ghost predicate SameFold(a: (seq<Candle>, Acc), b: (seq<Candle>, Acc)) {
    a.0 == b.0 && SameAcc(a.1, b.1)
  }

  /** Both bucketings are defined at `t`, and the coarse one puts the fine bucket of `t` where it puts `t`. */
  ghost predicate NestsAt(f: Bucketing, g: Bucketing, t: int) {
    f(t).Some? && g(t).Some? && g(f(t).value) == g(t)
  }

  ghost predicate Coarsens(f: Bucketing, g: Bucketing) {
    forall t :: NestsAt(f, g, t)
  }

  /** Folding the fine candles coarsely is folding the candles themselves coarsely. */
  lemma {:induction false} FoldFuses(ys: seq<Candle>, f: Bucketing, g: Bucketing)
    requires ys != [] && Coarsens(f, g)
    ensures SameFold(Fold(CloseLast(Fold(ys, f)), g), Fold(ys, g))
    ensures Fold(ys, f).1.bucket == BucketOf(f, ys[|ys| - 1])
    ensures Fold(ys, g).1.bucket == BucketOf(g, ys[|ys| - 1])
    decreases |ys|
  {
    var c := ys[|ys| - 1];
    var (outF, accF) := Fold(ys, f);
    var fine := CloseLast((outF, accF));
    assert NestsAt(f, g, c.ts);
    if |ys| == 1 {
      assert fine == [Close(accF)];
    } else {
      var init := ys[..|ys| - 1];
      FoldFuses(init, f, g);
      var (outF0, accF0) := Fold(init, f);
      var fine0 := CloseLast((outF0, accF0));
      assert NestsAt(f, g, init[|init| - 1].ts);
      if BucketOf(f, c) == accF0.bucket {
        LastFineGrows(outF0, accF0, c, g);
        AbsorbSame(Fold(fine0, g).1, Fold(init, g).1, c);
      } else {
        assert fine[..|fine| - 1] == fine0;
        AppendSame(Fold(fine0, g), Fold(init, g), Close(accF), c, BucketOf(g, c));
      }
    }
  }

  lemma AbsorbSame(a: Acc, a': Acc, c: Candle)
    requires SameAcc(a, a')
    ensures SameAcc(Absorb(a, c), Absorb(a', c))
  {
    ClampAdds(a.volume, a'.volume, c.volume);
  }

  /** A fine candle that consists of one candle adds what that candle adds. */
  lemma AppendSame(r: (seq<Candle>, Acc), r': (seq<Candle>, Acc), closed: Candle, c: Candle, k: int)
    requires SameFold(r, r') && closed == Close(Start(closed.ts, c))
    ensures SameAcc(Absorb(r.1, closed), Absorb(r'.1, c))
    ensures SameAcc(Start(k, closed), Start(k, c))
    ensures Close(r.1) == Close(r'.1)
  {
    ClampAdds(r.1.volume, r'.1.volume, c.volume);
  }

  /** Extending the last fine candle by `c` amounts to appending `c` to the coarse fold. */
  lemma LastFineGrows(outF: seq<Candle>, accF: Acc, c: Candle, g: Bucketing)
    requires BucketOf(g, c) == BucketOf(g, Close(accF))
    ensures var r := Fold(outF + [Close(accF)], g);
      r.1.bucket == BucketOf(g, c) && SameFold(Fold(outF + [Close(Absorb(accF, c))], g), (r.0, Absorb(r.1, c)))
  {
    var x, x' := Close(accF), Close(Absorb(accF, c));
    assert x.ts == x'.ts;
    assert (outF + [x])[..|outF|] == outF && (outF + [x'])[..|outF|] == outF;
    if outF == [] {
      ClampAssociates(None, accF.volume, c.volume);
    } else {
      var (out0, a) := Fold(outF, g);
      ClampAssociates(a.volume, accF.volume, c.volume);
      ClampAssociates(None, accF.volume, c.volume);
    }
  }

  lemma {:induction false} KeptAll(xs: seq<Candle>, b: Bucketing)
    requires forall i | 0 <= i < |xs| :: b(xs[i].ts).Some?
    ensures Kept(xs, b) == xs
  {
    if xs != [] {
      KeptAll(xs[..|xs| - 1], b);
    }
  }

  /**
   * Two resamplings are one: resampling finely and then coarsely gives what resampling coarsely gives,
   * successes and failures alike.
   */
  lemma ResamplingFuses(xs: seq<Candle>, f: Bucketing, g: Bucketing)
    requires AllUniform(xs) && Monotone(f) && Coarsens(f, g)
    ensures Resampled(xs, f).Err? ==> Resampled(xs, g) == Resampled(xs, f)
    ensures Resampled(xs, f).Ok? ==> Resampled(Resampled(xs, f).value, g) == Resampled(xs, g)
  {
    var sorted := SortByKey(xs, Ts);
    assert forall i | 0 <= i < |sorted| :: NestsAt(f, g, sorted[i].ts);
    KeptAll(sorted, f);
    KeptAll(sorted, g);
    SortMembers(xs, Ts);
    if sorted != [] {
      forall i | 0 <= i < |sorted| ensures Uniform(sorted[i]) {
        assert sorted[i] in sorted;
      }
      PassesIffOneCurrency(sorted, f);
      PassesIffOneCurrency(sorted, g);
      if Resampled(xs, f).Ok? {
        var fine := Resampled(xs, f).value;
        ResamplesByGroup(xs, f);
        SortSorted(fine, Ts);
        assert forall i | 0 <= i < |fine| :: NestsAt(f, g, fine[i].ts);
        KeptAll(fine, g);
        PassesIffOneCurrency(fine, g);
        FoldFuses(sorted, f, g);
      }
    }
  }
}
