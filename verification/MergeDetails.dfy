/** The flag, the metadata and the actions of a merge, and when they are what the merge is documented to yield. */
module MergeDetails {
  import opened Wrappers
  import opened Candles
  import opened Sorting
  import opened OrderedMap
  import opened Merge

  // ---- Contributors -----------------------------------------------------------------------

  predicate HasTime(r: Response, ts: int) {
    HasKey(r.candles, Ts, ts)
  }

  /** Response `i` has a timestamp that no earlier one has. */
  ghost predicate Contributes(rs: seq<Response>, i: nat) {
    i < |rs| && exists ts :: HasTime(rs[i], ts) && IsNew(rs, i, ts)
  }

  ghost predicate IsNew(rs: seq<Response>, i: nat, ts: int) {
    forall j | 0 <= j < i && j < |rs| :: !HasTime(rs[j], ts)
  }

  ghost predicate SomeContributes(rs: seq<Response>) {
    exists i: nat :: Contributes(rs, i)
  }

  ghost predicate ContributorsAdjusted(rs: seq<Response>) {
    forall i: nat | Contributes(rs, i) :: rs[i].adjusted
  }

  /** The responses whose metadata count: the contributing ones, or all. */
  ghost predicate Counts(rs: seq<Response>, i: nat, onlyContributors: bool) {
    i < |rs| && (onlyContributors ==> Contributes(rs, i))
  }

  /** Response `i` is the first of those that count that has metadata. */
  ghost predicate FirstHolder(rs: seq<Response>, i: nat, onlyContributors: bool) {
    && Counts(rs, i, onlyContributors) && rs[i].meta.Some?
    && forall j: nat | j < i && Counts(rs, j, onlyContributors) :: rs[j].meta.None?
  }

  /** The first metadata there are among those that count. */
  ghost predicate IsFirstMeta(rs: seq<Response>, meta: Option<Meta>, onlyContributors: bool) {
    if meta.None? then forall i: nat | Counts(rs, i, onlyContributors) :: rs[i].meta.None?
    else exists i: nat :: FirstHolder(rs, i, onlyContributors) && rs[i].meta == meta
  }

  function AllActions(rs: seq<Response>): seq<Actions.Action> {
    if rs == [] then [] else AllActions(rs[..|rs| - 1]) + rs[|rs| - 1].actions
  }

  // ---- The loop state ---------------------------------------------------------------------

  /** A map grows iff it is given a key that it does not have. */
  lemma {:induction false} PutAllGrows<T>(m: seq<T>, xs: seq<T>, key: T -> int)
    requires StrictlySorted(m, key)
    ensures |PutAll(m, xs, key)| > |m| <==> exists k :: HasKey(xs, key, k) && !HasKey(m, key, k)
  {
    if xs != [] {
      var init, last := xs[..|xs| - 1], xs[|xs| - 1];
      PutAllGrows(m, init, key);
      PutAllFacts(m, init, key);
      PutAbsentFacts(PutAll(m, init, key), last, key);
      forall k ensures HasKey(xs, key, k) <==> HasKey(init, key, k) || key(last) == k {
        HasKeyOfMore(xs, key, k);
      }
    }
  }

  lemma HasKeyOfMore<T>(xs: seq<T>, key: T -> int, k: int)
    requires xs != []
    ensures HasKey(xs, key, k) <==> HasKey(xs[..|xs| - 1], key, k) || key(xs[|xs| - 1]) == k
  {
    var init := xs[..|xs| - 1];
    if i :| 0 <= i < |xs| && key(xs[i]) == k {
      assert i < |init| ==> key(init[i]) == k;
    }
    if i :| 0 <= i < |init| && key(init[i]) == k {
      assert key(xs[i]) == k;
    }
  }

  lemma {:induction false} CollectedTimes(rs: seq<Response>, ts: int)
    ensures HasKey(Collect(rs).candles, Ts, ts) <==> exists j :: 0 <= j < |rs| && HasTime(rs[j], ts)
  {
    if rs != [] {
      var init, last := rs[..|rs| - 1], rs[|rs| - 1];
      CollectedTimes(init, ts);
      CollectIsFirstWins(init);
      PutAllFacts(Collect(init).candles, last.candles, Ts);
      if j :| 0 <= j < |rs| && HasTime(rs[j], ts) {
        assert j < |init| ==> HasTime(init[j], ts);
      }
      if j :| 0 <= j < |init| && HasTime(init[j], ts) {
        assert HasTime(rs[j], ts);
      }
    }
  }

  /** The last response makes the map grow iff it contributes. */
  lemma GrowsIff(rs: seq<Response>)
    requires rs != []
    ensures var init, n := rs[..|rs| - 1], |rs| - 1;
      |PutAll(Collect(init).candles, rs[n].candles, Ts)| > |Collect(init).candles| <==> Contributes(rs, n)
  {
    var init, n := rs[..|rs| - 1], |rs| - 1;
    CollectIsFirstWins(init);
    PutAllGrows(Collect(init).candles, rs[n].candles, Ts);
    forall ts ensures HasKey(Collect(init).candles, Ts, ts) <==> !IsNew(rs, n, ts) {
      CollectedTimes(init, ts);
      if j :| 0 <= j < n && HasTime(rs[j], ts) {
        assert HasTime(init[j], ts);
      }
    }
  }

  lemma ContributesEarlier(rs: seq<Response>, i: nat)
    requires i < |rs| - 1
    ensures Contributes(rs[..|rs| - 1], i) <==> Contributes(rs, i)
  {
    var init := rs[..|rs| - 1];
    forall ts ensures IsNew(init, i, ts) <==> IsNew(rs, i, ts) {
      assert forall j | 0 <= j < i :: init[j] == rs[j];
    }
  }

  /** What the state of the loop says about the responses taken. */
  ghost predicate Describes(s: State, rs: seq<Response>) {
    && (s.adjustedAll.Some? <==> SomeContributes(rs)) && (s.firstAdjusted.Some? <==> SomeContributes(rs))
    && (s.adjustedAll.Some? ==> (s.adjustedAll.value <==> ContributorsAdjusted(rs)))
    && (s.firstAdjusted.Some? && !s.firstAdjusted.value ==> !ContributorsAdjusted(rs))
    && (s.candles == [] <==> !SomeContributes(rs))
    && s.actions == AllActions(rs)
  }

  lemma {:induction false} CollectDescribes(rs: seq<Response>)
    ensures Describes(Collect(rs), rs)
  {
    if rs != [] {
      var init, n := rs[..|rs| - 1], |rs| - 1;
      CollectDescribes(init);
      GrowsIff(rs);
      CollectIsFirstWins(init);
      PutAllFacts(Collect(init).candles, rs[n].candles, Ts);
      Contributors(rs);
      if Contributes(rs, n) {
        assert SomeContributes(rs);
      }
    }
  }

  /** The contributors of all responses are those of the earlier ones, and the last if it contributes. */
  lemma Contributors(rs: seq<Response>)
    requires rs != []
    ensures var init, n := rs[..|rs| - 1], |rs| - 1;
      && (SomeContributes(rs) <==> SomeContributes(init) || Contributes(rs, n))
      && (ContributorsAdjusted(rs) <==> ContributorsAdjusted(init) && (Contributes(rs, n) ==> rs[n].adjusted))
  {
    var init, n := rs[..|rs| - 1], |rs| - 1;
    forall i: nat | i < n ensures Contributes(init, i) <==> Contributes(rs, i) {
      ContributesEarlier(rs, i);
    }
  }

  lemma CountsMore(rs: seq<Response>, only: bool)
    requires rs != []
    ensures forall i: nat | i < |rs| - 1 :: Counts(rs[..|rs| - 1], i, only) <==> Counts(rs, i, only)
  {
    forall i: nat | i < |rs| - 1 ensures Counts(rs[..|rs| - 1], i, only) <==> Counts(rs, i, only) {
      ContributesEarlier(rs, i);
    }
  }

  /** One more response leaves the first metadata alone, or provides them. */
  lemma FirstMetaGrows(rs: seq<Response>, meta: Option<Meta>, only: bool)
    requires rs != [] && IsFirstMeta(rs[..|rs| - 1], meta, only)
    ensures var n := |rs| - 1;
      IsFirstMeta(rs, if Counts(rs, n, only) then OrElse(meta, rs[n].meta) else meta, only)
  {
    var init, n := rs[..|rs| - 1], |rs| - 1;
    CountsMore(rs, only);
    if meta.Some? {
      var i: nat :| FirstHolder(init, i, only) && init[i].meta == meta;
      assert FirstHolder(rs, i, only);
    } else {
      assert forall i: nat | i < n && Counts(rs, i, only) :: init[i].meta.None?;
      if Counts(rs, n, only) && rs[n].meta.Some? {
        assert FirstHolder(rs, n, only);
      }
    }
  }

  lemma {:induction false} CollectMeta(rs: seq<Response>)
    ensures IsFirstMeta(rs, Collect(rs).meta, true) && IsFirstMeta(rs, Collect(rs).fallback, false)
  {
    if rs != [] {
      CollectMeta(rs[..|rs| - 1]);
      GrowsIff(rs);
      FirstMetaGrows(rs, Collect(rs[..|rs| - 1]).meta, true);
      FirstMetaGrows(rs, Collect(rs[..|rs| - 1]).fallback, false);
    }
  }

  // ---- The result -------------------------------------------------------------------------

  /**
   * A merge is adjusted iff some response contributes and all contributing ones are adjusted. Its metadata are the
   * first among the contributors, or among all if there is none. Its actions are all actions, de-duplicated.
   */
  lemma MergedDetailsExactly(rs: seq<Response>)
    requires Merged(rs).Ok?
    ensures var out := Merged(rs).value;
      && (out.adjusted <==> SomeContributes(rs) && ContributorsAdjusted(rs))
      && (out.candles == [] <==> !SomeContributes(rs))
      && IsFirstMeta(rs, out.meta, SomeContributes(rs))
      && out.actions == Actions.Dedup(AllActions(rs))
  {
    CollectDescribes(rs);
    CollectMeta(rs);
    var s := Collect(rs);
    if !SomeContributes(rs) {
      assert forall i: nat :: !Counts(rs, i, true);
    }
  }

  // ---- What is documented -----------------------------------------------------------------

  /** The documented flag: all sources are adjusted; empty input yields false. */
  ghost predicate AllAdjusted(rs: seq<Response>) {
    rs != [] && forall i | 0 <= i < |rs| :: rs[i].adjusted
  }

  /** A response that is not adjusted, and adds nothing. */
  ghost predicate IgnoredUnadjusted(rs: seq<Response>, i: nat) {
    i < |rs| && !Contributes(rs, i) && !rs[i].adjusted
  }

  /**
   * The flag is the documented one unless an unadjusted response adds nothing to contributors that are all adjusted, or
   * all responses are adjusted and there is no candle.
   */
  lemma FlagIsDocumentedIff(rs: seq<Response>)
    requires Merged(rs).Ok?
    ensures (Merged(rs).value.adjusted <==> AllAdjusted(rs)) <==>
            if SomeContributes(rs) then !(ContributorsAdjusted(rs) && exists i: nat :: IgnoredUnadjusted(rs, i))
            else !AllAdjusted(rs)
  {
    MergedDetailsExactly(rs);
    if SomeContributes(rs) && ContributorsAdjusted(rs) && !AllAdjusted(rs) {
      var i :| 0 <= i < |rs| && !rs[i].adjusted;
      assert IgnoredUnadjusted(rs, i);
    }
  }

  /**
   * The first response with metadata adds nothing to those that do, and the first of these with metadata has others, or
   * none has.
   */
  ghost predicate IgnoredHolder(rs: seq<Response>, i: nat) {
    && SomeContributes(rs) && FirstHolder(rs, i, false) && !Contributes(rs, i)
    && forall j: nat | FirstHolder(rs, j, true) :: rs[j].meta != rs[i].meta
  }

  /** The metadata are the first there are, as documented, unless their first holder is ignored. */
  lemma MetaIsDocumentedIff(rs: seq<Response>)
    requires Merged(rs).Ok?
    ensures IsFirstMeta(rs, Merged(rs).value.meta, false) <==> !exists i: nat :: IgnoredHolder(rs, i)
  {
    MergedDetailsExactly(rs);
    var meta := Merged(rs).value.meta;
    if i: nat :| FirstHolder(rs, i, false) {
      HolderDecides(rs, meta, i);
      forall j: nat | IgnoredHolder(rs, j) ensures j == i {
        OneFirstHolder(rs, i, j, false);
      }
    } else {
      NoHolder(rs, |rs|);
    }
  }

  lemma OneFirstHolder(rs: seq<Response>, i: nat, j: nat, only: bool)
    requires FirstHolder(rs, i, only) && FirstHolder(rs, j, only)
    ensures i == j
  {
  }

  lemma HolderDecides(rs: seq<Response>, meta: Option<Meta>, i: nat)
    requires FirstHolder(rs, i, false) && IsFirstMeta(rs, meta, SomeContributes(rs))
    ensures IsFirstMeta(rs, meta, false) <==> !IgnoredHolder(rs, i)
  {
    assert IsFirstMeta(rs, meta, false) <==> meta == rs[i].meta by {
      if k: nat :| FirstHolder(rs, k, false) && rs[k].meta == meta {
        OneFirstHolder(rs, i, k, false);
      }
    }
    if SomeContributes(rs) {
      assert Contributes(rs, i) ==> FirstHolder(rs, i, true);
      forall j: nat | FirstHolder(rs, j, true) ensures rs[j].meta == meta {
        if k: nat :| FirstHolder(rs, k, true) && rs[k].meta == meta {
          OneFirstHolder(rs, j, k, true);
        }
      }
    }
  }

  lemma {:induction false} NoHolder(rs: seq<Response>, n: nat)
    requires n <= |rs| && forall i: nat :: !FirstHolder(rs, i, false)
    ensures forall i: nat | i < n :: rs[i].meta.None?
  {
    if n > 0 {
      NoHolder(rs, n - 1);
      assert !FirstHolder(rs, n - 1, false);
    }
  }

  function One(adjusted: bool, meta: Option<Meta>): Response {
    var p := Money(5, 0);
    Response([Candle(0, p, p, p, p, None, None)], [], adjusted, meta)
  }

  /** The second response has no new timestamp: its flag and its metadata are lost. */
  lemma SecondIsIgnored(meta: Meta)
    ensures var rs := [One(true, None), One(false, Some(meta))];
      && Merged(rs).Ok? && Merged(rs).value.adjusted && !AllAdjusted(rs)
      && Merged(rs).value.meta == None && !IsFirstMeta(rs, None, false)
  {
    var a, b := One(true, None), One(false, Some(meta));
    var rs, c := [a, b], a.candles[0];
    assert HasTime(a, 0) by {
      assert Ts(a.candles[0]) == 0;
    }
    assert Contributes(rs, 0) && !Contributes(rs, 1);
    assert rs[..1] == [a] && [a][..0] == [];
    assert a.candles == [c] == b.candles && AllCandles([a]) == [] + [c];
    assert AllCandles(rs) == [c] + [c];
    MergedExactly(rs);
    MergedDetailsExactly(rs);
    assert Counts(rs, 1, false) && rs[1].meta.Some?;
  }
}
