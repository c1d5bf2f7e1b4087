/** Which provider is blamed when a merge fails on mixed currencies. */
module Blame {
  import opened Wrappers
  import opened Candles
  import opened Merge
  import opened Attribution

  datatype CurrencyState = NoData | Consistent(currency: Currency) | Inconsistent

  ghost function StateOf(cs: seq<Candle>): CurrencyState {
    if !Agree(cs) then Inconsistent else if cs == [] then NoData else Consistent(cs[0].open.currency)
  }

  /** One state per provider name; a later result of the same name replaces an earlier one. */
  ghost function States(rs: seq<Named>): map<string, CurrencyState> {
    if rs == [] then map[]
    else States(rs[..|rs| - 1])[rs[|rs| - 1].name := StateOf(rs[|rs| - 1].response.candles)]
  }

  /** The state looked up for each result, by its name. */
  ghost function ByName(rs: seq<Named>): seq<CurrencyState> {
    var states := States(rs);
    seq(|rs|, i requires 0 <= i < |rs| => if rs[i].name in states then states[rs[i].name] else NoData)
  }

  /** The first result with one currency is `j`. */
  predicate FirstConsistent(ss: seq<CurrencyState>, j: nat) {
    j < |ss| && ss[j].Consistent? && forall k | 0 <= k < j :: !ss[k].Consistent?
  }

  /** Result `i` has another currency than the first one that has one. */
  ghost predicate Deviates(ss: seq<CurrencyState>, i: nat) {
    i < |ss| && ss[i].Consistent? && exists j: nat :: FirstConsistent(ss, j) && ss[j] != ss[i]
  }

  ghost predicate NoneInconsistent(ss: seq<CurrencyState>) {
    forall i | 0 <= i < |ss| :: !ss[i].Inconsistent?
  }

  ghost predicate FirstToDeviate(ss: seq<CurrencyState>, i: nat) {
    Deviates(ss, i) && forall k | 0 <= k < i :: !Deviates(ss, k)
  }

  /** The names that may be reported: any inconsistent one, else the first that deviates, else the last. */
  ghost predicate Blames(rs: seq<Named>, name: string) {
    var ss := ByName(rs);
    if !NoneInconsistent(ss) then exists i :: 0 <= i < |rs| && ss[i].Inconsistent? && rs[i].name == name
    else if exists i :: Deviates(ss, i) then exists i :: 0 <= i < |rs| && FirstToDeviate(ss, i) && rs[i].name == name
    else name == if rs == [] then "unknown" else rs[|rs| - 1].name
  }

  method ScanProvider(cs: seq<Candle>) returns (state: CurrencyState)
    ensures state == StateOf(cs)
  {
    var cur: Option<Currency> := None;
    for j := 0 to |cs|
      invariant Agree(cs[..j]) && cur == CurrencyOf(cs[..j])
    {
      assert cs[..j + 1] == cs[..j] + [cs[j]];
      AgreementGrows(cs[..j], cs[j]);
      if !Uniform(cs[j]) {
        NotAgreeing(cs, j + 1);
        return Inconsistent;
      }
      var oc := cs[j].open.currency;
      if cur.Some? && cur.value != oc {
        NotAgreeing(cs, j + 1);
        return Inconsistent;
      }
      if cur.None? {
        cur := Some(oc);
      }
    }
    assert cs[..|cs|] == cs;
    state := if cur.Some? then Consistent(cur.value) else NoData;
  }

  lemma NotAgreeing(cs: seq<Candle>, j: nat)
    requires j <= |cs| && !Agree(cs[..j])
    ensures !Agree(cs)
  {
    assert forall c | c in cs[..j] :: c in cs;
  }

  method CollectStates(results: seq<Named>) returns (states: map<string, CurrencyState>)
    ensures states == States(results)
  {
    states := map[];
    for i := 0 to |results|
      invariant states == States(results[..i])
    {
      assert results[..i + 1][..i] == results[..i];
      var state := ScanProvider(results[i].response.candles);
      states := states[results[i].name := state];
    }
    assert results[..|results|] == results;
  }

  method IdentifyFaultyProvider(results: seq<Named>) returns (name: string)
    ensures Blames(results, name)
  {
    var states := CollectStates(results);
    NamesHaveStates(results);
    if bad :| bad in states && states[bad].Inconsistent? {
      assert exists i :: 0 <= i < |results| && results[i].name == bad;
      return bad;
    }
    var i := 0;
    while i < |results| && !states[results[i].name].Consistent?
      invariant i <= |results|
      invariant forall k | 0 <= k < i :: !ByName(results)[k].Consistent?
    {
      i := i + 1;
    }
    if i < |results| {
      var reference := states[results[i].name].currency;
      assert FirstConsistent(ByName(results), i);
      var j := 0;
      while j < |results|
        invariant j <= |results|
        invariant forall k | 0 <= k < j :: !Deviates(ByName(results), k)
      {
        var state := states[results[j].name];
        if state.Consistent? && state.currency != reference {
          assert FirstToDeviate(ByName(results), j);
          return results[j].name;
        }
        DeviationIsFromFirst(ByName(results), i, j);
        j := j + 1;
      }
    }
    name := if results == [] then "unknown" else results[|results| - 1].name;
  }

  lemma DeviationIsFromFirst(ss: seq<CurrencyState>, i: nat, j: nat)
    requires FirstConsistent(ss, i)
    ensures Deviates(ss, j) <==> j < |ss| && ss[j].Consistent? && ss[j] != ss[i]
  {
    forall k: nat | FirstConsistent(ss, k) ensures k == i {
      assert !(k < i) && !(i < k);
    }
  }

  lemma {:induction false} NamesHaveStates(rs: seq<Named>)
    ensures forall n :: n in States(rs) <==> exists i :: 0 <= i < |rs| && rs[i].name == n
  {
    if rs != [] {
      var init, last := rs[..|rs| - 1], rs[|rs| - 1];
      NamesHaveStates(init);
      forall n ensures n in States(rs) <==> exists i :: 0 <= i < |rs| && rs[i].name == n {
        if n in States(init) {
          var i :| 0 <= i < |init| && init[i].name == n;
          assert rs[i].name == n;
        }
        if i :| 0 <= i < |rs| && rs[i].name == n {
          assert i == |init| || init[i].name == n;
        }
        assert rs[|init|].name == last.name;
      }
    }
  }
}
