/** When the provider that is blamed for a failed merge deserves it. */
module BlameProps {
  import opened Candles
  import opened Wrappers
  import opened OrderedMap
  import opened Merge
  import opened Attribution
  import opened Blame

  function NamesOf(rs: seq<Named>): seq<string> {
    seq(|rs|, i requires 0 <= i < |rs| => rs[i].name)
  }

  ghost function OwnStates(rs: seq<Named>): seq<CurrencyState> {
    seq(|rs|, i requires 0 <= i < |rs| => StateOf(rs[i].response.candles))
  }

  /** The result mixes currencies itself, or has another one than the first result that has one. */
  ghost predicate AtFault(rs: seq<Named>, i: nat) {
    i < |rs| && (OwnStates(rs)[i].Inconsistent? || Deviates(OwnStates(rs), i))
  }

  ghost predicate Deserved(rs: seq<Named>, name: string) {
    exists i :: 0 <= i < |rs| && AtFault(rs, i) && rs[i].name == name
  }

  // ---- A failed merge is someone's fault --------------------------------------------------

  /** If every result is consistent and all have one currency, all candles agree. */
  lemma {:induction false} AllAgree(rs: seq<Named>, cur: Currency)
    requires forall i | 0 <= i < |rs| :: OwnStates(rs)[i] == NoData || OwnStates(rs)[i] == Consistent(cur)
    ensures forall c | c in AllCandles(Responses(rs)) :: Uniform(c) && c.open.currency == cur
  {
    if rs != [] {
      var n := |rs| - 1;
      assert Responses(rs)[..n] == Responses(rs[..n]);
      assert forall i | 0 <= i < n :: OwnStates(rs[..n])[i] == OwnStates(rs)[i];
      AllAgree(rs[..n], cur);
      var cs := rs[n].response.candles;
      assert OwnStates(rs)[n] == StateOf(cs);
      forall c | c in cs ensures Uniform(c) && c.open.currency == cur {
        assert cs[0] in cs;
      }
    }
  }

  lemma WinnersOfAgreeing(rs: seq<Response>)
    requires Agree(AllCandles(rs))
    ensures Merged(rs).Ok?
  {
    CollectIsFirstWins(rs);
    FirstWinsExactly(AllCandles(rs), Ts);
    forall c | c in FirstWins(AllCandles(rs), Ts) ensures c in AllCandles(rs) {
      assert IsWinner(AllCandles(rs), Ts, c);
    }
  }

  /** After a failed merge some result is at fault. */
  lemma SomeoneIsAtFault(rs: seq<Named>) returns (i: nat)
    requires Merged(Responses(rs)).Err?
    ensures AtFault(rs, i)
  {
    var ss := OwnStates(rs);
    if k: nat :| k < |ss| && ss[k].Inconsistent? {
      return k;
    }
    var cur := 0;
    if k: nat :| k < |ss| && ss[k].Consistent? {
      var j := FindFirst(ss, k);
      cur := ss[j].currency;
      if m: nat :| m < |ss| && ss[m].Consistent? && ss[m] != ss[j] {
        return m;
      }
    }
    AllAgree(rs, cur);
    WinnersOfAgreeing(Responses(rs));
  }

  lemma {:induction false} FindFirst(ss: seq<CurrencyState>, k: nat) returns (j: nat)
    requires k < |ss| && ss[k].Consistent?
    ensures FirstConsistent(ss, j) && j <= k
    decreases k
  {
    if i: nat :| i < k && ss[i].Consistent? {
      j := FindFirst(ss, i);
    } else {
      j := k;
    }
  }

  // ---- Repeated names ---------------------------------------------------------------------

  predicate IsLastOf(names: seq<string>, i: nat, l: nat) {
    i <= l < |names| && names[l] == names[i] && forall k | l < k < |names| :: names[k] != names[i]
  }

  /** A later result has the same name. */
  predicate Recurs(names: seq<string>, i: nat) {
    i < |names| && !IsLastOf(names, i, i)
  }

  lemma {:induction false} FindLast(names: seq<string>, i: nat) returns (l: nat)
    requires i < |names|
    ensures IsLastOf(names, i, l)
    decreases |names| - i
  {
    if k :| i < k < |names| && names[k] == names[i] {
      l := FindLast(names, k);
    } else {
      l := i;
    }
  }

  /** The last result of a name decides the state of that name. */
  lemma {:induction false} LastDecides(rs: seq<Named>, i: nat, l: nat)
    requires IsLastOf(NamesOf(rs), i, l)
    ensures ByName(rs)[i] == OwnStates(rs)[l]
  {
    StateOfLast(rs, l);
    assert NamesOf(rs)[i] == rs[i].name && NamesOf(rs)[l] == rs[l].name;
  }

  lemma {:induction false} StateOfLast(rs: seq<Named>, l: nat)
    requires IsLastOf(NamesOf(rs), l, l)
    ensures rs[l].name in States(rs) && States(rs)[rs[l].name] == OwnStates(rs)[l]
  {
    var n := |rs| - 1;
    if l < n {
      assert NamesOf(rs)[n] == rs[n].name;
      assert forall k | 0 <= k < n :: NamesOf(rs[..n])[k] == NamesOf(rs)[k];
      StateOfLast(rs[..n], l);
    }
  }

  /**
   * Only the name of the last result recurs, and all results after a recurring one have its name. If every result has
   * candles, the latter is asked of the first result only.
   */
  predicate RepeatsHarmless(names: seq<string>, withData: bool) {
    forall i | 0 <= i < |names| && Recurs(names, i) ::
      && names[i] == names[|names| - 1]
      && ((withData && i > 0) || SameFrom(names, i))
  }

  predicate SameFrom(names: seq<string>, i: nat)
    requires i < |names|
  {
    forall j | i < j < |names| :: names[j] == names[i]
  }

  predicate HaveData(rs: seq<Named>) {
    forall i | 0 <= i < |rs| :: rs[i].response.candles != []
  }

  /** The results that a merge may be given: any, or only such with candles, as the router passes them. */
  predicate Given(rs: seq<Named>, names: seq<string>, withData: bool) {
    NamesOf(rs) == names && (withData ==> HaveData(rs))
  }

  // ---- Blame is deserved ------------------------------------------------------------------

  /** A result's state by name is its own, or that of the last result, whose name it has. */
  lemma OwnOrLast(rs: seq<Named>, i: nat, withData: bool) returns (l: nat)
    requires i < |rs| && RepeatsHarmless(NamesOf(rs), withData)
    ensures IsLastOf(NamesOf(rs), i, l) && rs[l].name == rs[i].name && ByName(rs)[i] == OwnStates(rs)[l]
    ensures l == i || (l == |rs| - 1 && Recurs(NamesOf(rs), i))
  {
    var names := NamesOf(rs);
    l := FindLast(names, i);
    LastDecides(rs, i, l);
    assert names[i] == rs[i].name && names[l] == rs[l].name;
    if Recurs(names, i) {
      assert names[i] == names[|rs| - 1];
    }
  }

  lemma SameNameSameState(rs: seq<Named>, i: nat, j: nat)
    requires i < |rs| && j < |rs| && NamesOf(rs)[i] == NamesOf(rs)[j]
    ensures ByName(rs)[i] == ByName(rs)[j]
  {
    assert rs[i].name == rs[j].name;
  }

  /** If the first consistent result is hidden by a later one of its name, no other name follows it. */
  lemma HiddenReference(rs: seq<Named>, ss: seq<CurrencyState>, j: nat, withData: bool)
    requires Given(rs, NamesOf(rs), withData) && RepeatsHarmless(NamesOf(rs), withData) && NoneInconsistent(ByName(rs))
    requires ss == ByName(rs) || ss == OwnStates(rs)
    requires FirstConsistent(ss, j) && Recurs(NamesOf(rs), j)
    ensures SameFrom(NamesOf(rs), j)
  {
    var names := NamesOf(rs);
    if withData && j > 0 {
      var l := OwnOrLast(rs, 0, withData);
      OwnHasData(rs, 0);
      OwnHasData(rs, l);
      assert Recurs(names, 0);
    }
  }

  lemma OwnHasData(rs: seq<Named>, i: nat)
    requires i < |rs| && HaveData(rs)
    ensures OwnStates(rs)[i] != NoData
  {
    assert rs[i].response.candles != [];
  }

  /** A result that deviates by name deviates itself, or the last result of its name does. */
  lemma DeviationIsOwn(rs: seq<Named>, i: nat, withData: bool) returns (l: nat)
    requires Given(rs, NamesOf(rs), withData) && RepeatsHarmless(NamesOf(rs), withData) && NoneInconsistent(ByName(rs))
    requires Deviates(ByName(rs), i)
    ensures l < |rs| && AtFault(rs, l) && rs[l].name == rs[i].name
  {
    var names, byName, own := NamesOf(rs), ByName(rs), OwnStates(rs);
    var k: nat :| FirstConsistent(byName, k) && byName[k] != byName[i];
    if Recurs(names, k) {
      HiddenReference(rs, byName, k, withData);
      SameNameSameState(rs, i, k);
    }
    var lk := OwnOrLast(rs, k, withData);
    l := OwnOrLast(rs, i, withData);
    var j := FindFirst(own, k);
    var lj := OwnOrLast(rs, j, withData);
    if Recurs(names, j) {
      HiddenReference(rs, own, j, withData);
      SameNameSameState(rs, j, k);
    }
    assert j == k && own[k] != own[l];
  }

  /** The fault of a result whose name is not the last one shows in the states by name. */
  lemma FaultShows(rs: seq<Named>, m: nat, withData: bool) returns (i: nat)
    requires Given(rs, NamesOf(rs), withData) && RepeatsHarmless(NamesOf(rs), withData) && NoneInconsistent(ByName(rs))
    requires AtFault(rs, m) && rs[m].name != rs[|rs| - 1].name
    ensures Deviates(ByName(rs), i)
  {
    var byName, own := ByName(rs), OwnStates(rs);
    var lm := OwnOrLast(rs, m, withData);
    var j: nat :| FirstConsistent(own, j) && own[j] != own[m];
    ReferenceShows(rs, m, j, withData);
    var k := FindFirst(byName, j);
    i := if byName[k] != byName[j] then j else m;
  }

  lemma ReferenceShows(rs: seq<Named>, m: nat, j: nat, withData: bool)
    requires Given(rs, NamesOf(rs), withData) && RepeatsHarmless(NamesOf(rs), withData) && NoneInconsistent(ByName(rs))
    requires j < m < |rs| && FirstConsistent(OwnStates(rs), j) && rs[m].name != rs[|rs| - 1].name
    ensures ByName(rs)[j] == OwnStates(rs)[j]
  {
    var names := NamesOf(rs);
    assert names[m] == rs[m].name && names[|rs| - 1] == rs[|rs| - 1].name;
    if Recurs(names, j) {
      HiddenReference(rs, OwnStates(rs), j, withData);
    } else {
      LastDecides(rs, j, j);
    }
  }

  /** If repeated names are harmless, a failed merge blames only the name of a result that is at fault. */
  lemma BlameIsDeserved(rs: seq<Named>, name: string, withData: bool)
    requires RepeatsHarmless(NamesOf(rs), withData) && (withData ==> HaveData(rs))
    requires Merged(Responses(rs)).Err? && Blames(rs, name)
    ensures Deserved(rs, name)
  {
    var byName := ByName(rs);
    var m := SomeoneIsAtFault(rs);
    if !NoneInconsistent(byName) {
      var i :| 0 <= i < |rs| && byName[i].Inconsistent? && rs[i].name == name;
      var l := OwnOrLast(rs, i, withData);
      assert AtFault(rs, l);
    } else if i :| Deviates(byName, i) {
      var d :| 0 <= d < |rs| && FirstToDeviate(byName, d) && rs[d].name == name;
      var l := DeviationIsOwn(rs, d, withData);
    } else if rs[m].name != name {
      var i := FaultShows(rs, m, withData);
    }
  }

  /** Without repeated names the fallback to the last result is never reached. */
  lemma FallbackNeedsRepeats(rs: seq<Named>)
    requires Merged(Responses(rs)).Err?
    requires NoneInconsistent(ByName(rs)) && !exists i :: Deviates(ByName(rs), i)
    ensures exists i: nat :: Recurs(NamesOf(rs), i)
  {
    var m := SomeoneIsAtFault(rs);
    if forall i: nat :: !Recurs(NamesOf(rs), i) {
      NoRepeatsNoHiding(rs);
    }
  }

  lemma NoRepeatsNoHiding(rs: seq<Named>)
    requires forall i: nat :: !Recurs(NamesOf(rs), i)
    ensures ByName(rs) == OwnStates(rs)
  {
    forall i | 0 <= i < |rs| ensures ByName(rs)[i] == OwnStates(rs)[i] {
      assert !Recurs(NamesOf(rs), i);
      LastDecides(rs, i, i);
    }
  }

  // ---- Blame is not deserved --------------------------------------------------------------

  function At(ts: int, currency: Currency): Candle {
    var p := Money(0, currency);
    Candle(ts, p, p, p, p, None, None)
  }

  /** What one result holds: nothing, a candle of the first or second currency, or one of each. */
  datatype Kind = Nothing | First | Second | Both

  function CandlesOf(i: nat, kind: Kind): seq<Candle> {
    match kind
    case Nothing => []
    case First => [At(2 * i, 1)]
    case Second => [At(2 * i, 2)]
    case Both => [At(2 * i, 1), At(2 * i + 1, 2)]
  }

  ghost function KindState(kind: Kind): CurrencyState {
    match kind
    case Nothing => NoData
    case First => Consistent(1)
    case Second => Consistent(2)
    case Both => Inconsistent
  }

  function Build(names: seq<string>, kinds: seq<Kind>): seq<Named>
    requires |names| == |kinds|
  {
    seq(|names|, i requires 0 <= i < |names| => Named(names[i], Response(CandlesOf(i, kinds[i]), [], false, None)))
  }

  lemma BuiltStates(names: seq<string>, kinds: seq<Kind>)
    requires |names| == |kinds|
    ensures NamesOf(Build(names, kinds)) == names
    ensures forall i | 0 <= i < |names| :: OwnStates(Build(names, kinds))[i] == KindState(kinds[i])
  {
    forall i | 0 <= i < |names| ensures StateOf(CandlesOf(i, kinds[i])) == KindState(kinds[i]) {
      if kinds[i].Both? {
        assert At(2 * i, 1) in CandlesOf(i, kinds[i]) && At(2 * i + 1, 2) in CandlesOf(i, kinds[i]);
      }
    }
  }

  /** The candles of a built series come from its results, so no two share a timestamp. */
  lemma {:induction false} BuiltCandles(rs: seq<Named>, i: nat, c: Candle)
    requires i < |rs| && c in rs[i].response.candles
    ensures c in AllCandles(Responses(rs))
  {
    var n := |rs| - 1;
    assert Responses(rs)[..n] == Responses(rs[..n]) && Responses(rs)[n] == rs[n].response;
    if i < n {
      BuiltCandles(rs[..n], i, c);
    }
  }

  lemma {:induction false} CandleOrigin(rs: seq<Named>, c: Candle) returns (i: nat)
    requires c in AllCandles(Responses(rs))
    ensures i < |rs| && c in rs[i].response.candles
  {
    var n := |rs| - 1;
    assert Responses(rs)[..n] == Responses(rs[..n]) && Responses(rs)[n] == rs[n].response;
    if c in rs[n].response.candles {
      i := n;
    } else {
      i := CandleOrigin(rs[..n], c);
    }
  }

  lemma BuiltWins(names: seq<string>, kinds: seq<Kind>, i: nat, c: Candle)
    requires |names| == |kinds| && i < |names| && c in CandlesOf(i, kinds[i])
    ensures IsWinner(AllCandles(Responses(Build(names, kinds))), Ts, c)
  {
    var rs := Build(names, kinds);
    var all := AllCandles(Responses(rs));
    BuiltCandles(rs, i, c);
    forall d | d in all && d.ts == c.ts ensures d == c {
      var j := CandleOrigin(rs, d);
      assert d in CandlesOf(j, kinds[j]);
    }
    var k := FirstAt(all, c);
    assert WinsAt(all, Ts, c, k);
  }

  lemma {:induction false} FirstAt(all: seq<Candle>, c: Candle) returns (k: nat)
    requires c in all
    ensures k < |all| && all[k] == c && c !in all[..k]
  {
    k :| k < |all| && all[k] == c;
    if c in all[..k] {
      var p := FirstAt(all[..k], c);
      assert all[..k][..p] == all[..p];
      k := p;
    }
  }

  lemma BuiltMergeFails(names: seq<string>, kinds: seq<Kind>, i: nat, j: nat)
    requires |names| == |kinds| && i < |names| && j < |names|
    requires kinds[i].First? || kinds[i].Both?
    requires kinds[j].Second? || kinds[j].Both?
    ensures Merged(Responses(Build(names, kinds))).Err?
  {
    BuiltWins(names, kinds, i, At(2 * i, 1));
    BuiltWins(names, kinds, j, At(if kinds[j].Both? then 2 * j + 1 else 2 * j, 2));
    MergedExactly(Responses(Build(names, kinds)));
  }

  /** A failed merge that blames a name none of whose results is at fault. */
  ghost predicate Misled(rs: seq<Named>, names: seq<string>, withData: bool, name: string) {
    Given(rs, names, withData) && Merged(Responses(rs)).Err? && Blames(rs, name) && !Deserved(rs, name)
  }

  /** A result that mixes currencies is hidden by a later one of its name: the last result is blamed. */
  lemma HiddenMix(names: seq<string>, p: nat) returns (rs: seq<Named>, name: string)
    requires Recurs(names, p) && names[p] != names[|names| - 1]
    ensures Misled(rs, names, true, name)
  {
    var n := |names| - 1;
    var kinds := seq(|names|, i => if i == p then Both else First);
    rs, name := Build(names, kinds), names[n];
    BuiltStates(names, kinds);
    BuiltMergeFails(names, kinds, p, p);
    var byName, own := ByName(rs), OwnStates(rs);
    forall i | 0 <= i < |rs| ensures byName[i] == Consistent(1) {
      var l := FindLast(names, i);
      LastDecides(rs, i, l);
    }
    assert NoneInconsistent(byName);
    assert forall i :: !Deviates(byName, i);
    assert forall i: nat | i < |rs| && i != p :: own[i] == Consistent(1);
    assert forall i: nat :: !Deviates(own, i);
    assert rs[p].name == names[p] && rs[n].name == names[n];
  }

  /**
   * The hidden result sets the true reference, the hiding one another: a name is blamed that agrees with the hidden
   * one.
   */
  lemma HiddenReferenceMisleads(names: seq<string>, kinds: seq<Kind>, p: nat, l: nat, q: nat) returns (name: string)
    requires |kinds| == |names| && p < l && IsLastOf(names, p, l) && IsLastOf(names, q, q) && names[q] != names[p]
    requires kinds[p].First? && kinds[q].First? && kinds[l].Second?
    requires forall i | 0 <= i < |names| && i != l :: kinds[i].Nothing? || kinds[i].First?
    requires forall i | 0 <= i < p :: kinds[i].Nothing?
    requires forall i, j | 0 <= i < p && i < j < |names| && names[i] == names[j] != names[p] :: kinds[j].Nothing?
    ensures Misled(Build(names, kinds), names, false, name) && name in names && name != names[p]
  {
    var rs := Build(names, kinds);
    BuiltStates(names, kinds);
    BuiltMergeFails(names, kinds, p, l);
    var byName := ByName(rs);
    ByNameOfBuilt(names, kinds, p, l);
    LastDecides(rs, q, q);
    var k := FindFirst(byName, p);
    DeviationIsFromFirst(byName, k, q);
    var d := FindDeviation(byName, q);
    DeviationIsFromFirst(byName, k, d);
    name := names[d];
    assert rs[d].name == name;
    forall i | 0 <= i < |rs| && AtFault(rs, i) ensures rs[i].name != name {
      OnlyHidingAtFault(names, kinds, p, l, i);
    }
  }

  /** The first result with candles has the first currency, so only the one with the second is at fault. */
  lemma OnlyHidingAtFault(names: seq<string>, kinds: seq<Kind>, p: nat, l: nat, i: nat)
    requires |kinds| == |names| && p < l < |names| && kinds[p].First?
    requires forall i | 0 <= i < |names| && i != l :: kinds[i].Nothing? || kinds[i].First?
    requires forall i | 0 <= i < p :: kinds[i].Nothing?
    requires kinds[l].Second? && AtFault(Build(names, kinds), i)
    ensures i == l
  {
    var own := OwnStates(Build(names, kinds));
    BuiltStates(names, kinds);
    assert FirstConsistent(own, p);
    DeviationIsFromFirst(own, p, i);
  }

  lemma ByNameOfBuilt(names: seq<string>, kinds: seq<Kind>, p: nat, l: nat)
    requires |kinds| == |names| && p < l && IsLastOf(names, p, l) && kinds[l].Second?
    requires forall i | 0 <= i < |names| && i != l :: kinds[i].Nothing? || kinds[i].First?
    requires forall i | 0 <= i < p :: kinds[i].Nothing?
    requires forall i, j | 0 <= i < p && i < j < |names| && names[i] == names[j] != names[p] :: kinds[j].Nothing?
    ensures var byName := ByName(Build(names, kinds));
      && NoneInconsistent(byName)
      && (forall i | 0 <= i < |names| && names[i] == names[p] :: byName[i] == Consistent(2))
      && (forall i | 0 <= i < p && names[i] != names[p] :: byName[i] == NoData)
  {
    var rs := Build(names, kinds);
    BuiltStates(names, kinds);
    forall i | 0 <= i < |names|
      ensures !ByName(rs)[i].Inconsistent?
      ensures names[i] == names[p] ==> ByName(rs)[i] == Consistent(2)
      ensures i < p && names[i] != names[p] ==> ByName(rs)[i] == NoData
    {
      var m := FindLast(names, i);
      LastDecides(rs, i, m);
      if names[i] == names[p] {
        assert m == l;
      }
    }
  }

  lemma {:induction false} FindDeviation(ss: seq<CurrencyState>, k: nat) returns (d: nat)
    requires Deviates(ss, k)
    ensures FirstToDeviate(ss, d)
    decreases k
  {
    if i: nat :| i < k && Deviates(ss, i) {
      d := FindDeviation(ss, i);
    } else {
      d := k;
    }
  }

  /** Repeated names can mislead: the second "a" hides the first one, with which "b" agrees, but "b" is blamed. */
  lemma RepeatedNamesMislead()
    ensures var names := ["a", "a", "b"]; Misled(Build(names, [First, Second, First]), names, true, "b")
  {
    var name := HiddenReferenceMisleads(["a", "a", "b"], [First, Second, First], 0, 1, 2);
  }

  /** If a repeated name is not harmless, some results with these names mislead. */
  lemma RepeatsMislead(names: seq<string>, withData: bool) returns (rs: seq<Named>, name: string)
    requires !RepeatsHarmless(names, withData)
    ensures Misled(rs, names, withData, name)
  {
    if p: nat :| Recurs(names, p) && names[p] != names[|names| - 1] {
      rs, name := HiddenMix(names, p);
    } else {
      var p: nat :| Recurs(names, p) && !(withData && p > 0) && !SameFrom(names, p);
      var r :| p < r < |names| && names[r] != names[p];
      var l := FindLast(names, p);
      var q := FindLast(names, r);
      var kinds := seq(|names|, i => if i == l then Second else if withData || i == p || i == q then First
                       else Nothing);
      rs := Build(names, kinds);
      name := HiddenReferenceMisleads(names, kinds, p, l, q);
    }
  }

  /** Whatever the results with these names are, a failed merge blames only a name that deserves it. */
  ghost predicate BlamesFairly(names: seq<string>, withData: bool) {
    forall rs, name :: !Misled(rs, names, withData, name)
  }

  /** Blame is deserved for all results with given names iff the repeated names are harmless. */
  lemma BlameIsFairIff(names: seq<string>, withData: bool)
    ensures BlamesFairly(names, withData) <==> RepeatsHarmless(names, withData)
  {
    if RepeatsHarmless(names, withData) {
      forall rs, name ensures !Misled(rs, names, withData, name) {
        if Misled(rs, names, withData, name) {
          BlameIsDeserved(rs, name, withData);
        }
      }
    } else {
      var rs, name := RepeatsMislead(names, withData);
    }
  }
}
