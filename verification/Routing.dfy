/** The provider policy: which rule applies in a context, and how it ranks connectors. */
module Routing {
  import opened Wrappers
  import opened Market

  type Key = string

  // ---- Ranked lists -----------------------------------------------------------------------

  datatype RankedList = RankedList(values: seq<Key>, ranks: map<Key, nat>)

  /** The first occurrences, in order. */
  function Distinct(list: seq<Key>): seq<Key> {
    if list == [] then []
    else
      var before, last := Distinct(list[..|list| - 1]), list[|list| - 1];
      if last in before then before else before + [last]
  }

  function RanksOf(values: seq<Key>): map<Key, nat> {
    if values == [] then map[] else RanksOf(values[..|values| - 1])[values[|values| - 1] := |values| - 1]
  }

  function Ranked(list: seq<Key>): RankedList {
    RankedList(Distinct(list), RanksOf(Distinct(list)))
  }

  method NewRankedList(list: seq<Key>) returns (r: RankedList)
    ensures r == Ranked(list)
  {
    var values: seq<Key>, seen: set<Key> := [], {};
    for i := 0 to |list|
      invariant values == Distinct(list[..i]) && forall k :: k in seen <==> k in values
    {
      assert list[..i + 1][..i] == list[..i];
      if list[i] !in seen {
        seen := seen + {list[i]};
        values := values + [list[i]];
      }
    }
    assert list[..|list|] == list;
    var ranks: map<Key, nat> := map[];
    for i := 0 to |values|
      invariant ranks == RanksOf(values[..i])
    {
      assert values[..i + 1][..i] == values[..i];
      ranks := ranks[values[i] := i];
    }
    assert values[..|values|] == values;
    r := RankedList(values, ranks);
  }

  ghost predicate NoRepeats(values: seq<Key>) {
    forall i, j | 0 <= i < j < |values| :: values[i] != values[j]
  }

  /** `k` first occurs in `list` at position `i`. */
  ghost predicate FirstAt(list: seq<Key>, k: Key, i: nat) {
    i < |list| && list[i] == k && k !in list[..i]
  }

  lemma {:induction false} DistinctFacts(list: seq<Key>)
    ensures NoRepeats(Distinct(list)) && forall k :: k in Distinct(list) <==> k in list
  {
    if list != [] {
      DistinctFacts(list[..|list| - 1]);
      assert list == list[..|list| - 1] + [list[|list| - 1]];
    }
  }

  lemma {:induction false} RanksFacts(values: seq<Key>)
    requires NoRepeats(values)
    ensures forall k :: k in RanksOf(values) <==> k in values
    ensures forall i | 0 <= i < |values| :: values[i] in RanksOf(values) && RanksOf(values)[values[i]] == i
  {
    if values != [] {
      var n := |values| - 1;
      var init := values[..n];
      RanksFacts(init);
      assert values == init + [values[n]];
      forall i | 0 <= i < |values| ensures values[i] in RanksOf(values) && RanksOf(values)[values[i]] == i {
        if i < n {
          assert init[i] in RanksOf(init) && RanksOf(init)[init[i]] == i;
        }
      }
    }
  }

  /** The list has each element once; an element's rank is its position, and ranks follow first occurrences. */
  lemma RankedExactly(list: seq<Key>, k: Key, l: Key, i: nat, j: nat)
    ensures var r := Ranked(list);
      && NoRepeats(r.values)
      && (k in r.ranks <==> k in list)
      && (k in r.ranks ==> r.ranks[k] < |r.values| && r.values[r.ranks[k]] == k)
      && (FirstAt(list, k, i) && FirstAt(list, l, j) ==>
            k in r.ranks && l in r.ranks && (r.ranks[k] < r.ranks[l] <==> i < j))
  {
    DistinctFacts(list);
    RanksFacts(Distinct(list));
    var r := Ranked(list);
    if k in list {
      var p :| 0 <= p < |r.values| && r.values[p] == k;
      assert r.ranks[r.values[p]] == p;
    }
    if FirstAt(list, k, i) && FirstAt(list, l, j) {
      DistinctPositions(list, k, l, i, j);
      DistinctPositions(list, l, k, j, i);
    }
  }

  lemma {:induction false} DistinctPositions(list: seq<Key>, k: Key, l: Key, i: nat, j: nat)
    requires FirstAt(list, k, i) && FirstAt(list, l, j)
    ensures k in RanksOf(Distinct(list)) && l in RanksOf(Distinct(list))
    ensures i < j ==> RanksOf(Distinct(list))[k] < RanksOf(Distinct(list))[l]
  {
    DistinctFacts(list);
    RanksFacts(Distinct(list));
    assert list[i] in list && list[j] in list;
    if i < j {
      DistinctOfPrefix(list, j);
      DistinctFacts(list[..j]);
      var before := Distinct(list[..j]);
      assert list[..j][i] in list[..j];
      var p :| 0 <= p < |before| && before[p] == k;
      assert Distinct(list)[p] == k;
      var q :| 0 <= q < |Distinct(list)| && Distinct(list)[q] == l;
      forall r | 0 <= r < |before| ensures before[r] != l {
        assert before[r] in before;
      }
    }
  }

  lemma {:induction false} DistinctOfPrefix(list: seq<Key>, j: nat)
    requires j <= |list|
    ensures Distinct(list[..j]) <= Distinct(list)
    decreases |list|
  {
    if j == |list| {
      assert list[..j] == list;
    } else {
      assert list[..|list| - 1][..j] == list[..j];
      DistinctOfPrefix(list[..|list| - 1], j);
    }
  }

  lemma {:induction false} DistinctOfDistinct(values: seq<Key>)
    requires NoRepeats(values)
    ensures Distinct(values) == values
  {
    if values != [] {
      var n := |values| - 1;
      DistinctOfDistinct(values[..n]);
      assert values == values[..n] + [values[n]];
      assert values[n] !in values[..n];
    }
  }

  // ---- Rules ------------------------------------------------------------------------------

  datatype Selector = Selector(symbol: Option<Symbol>, kind: Option<AssetKind>, exchange: Option<Exchange>)

  datatype Context = Context(symbol: Option<Symbol>, kind: Option<AssetKind>, exchange: Option<Exchange>)

  datatype Rule = Rule(selector: Selector, list: RankedList, strict: bool)

  datatype Policy = Policy(rules: seq<Rule>, global: Option<(RankedList, bool)>)

  /** Every field that the selector sets is the context's. */
  predicate Matches(s: Selector, ctx: Context) {
    && (s.symbol.Some? ==> s.symbol == ctx.symbol)
    && (s.kind.Some? ==> s.kind == ctx.kind)
    && (s.exchange.Some? ==> s.exchange == ctx.exchange)
  }

  function Bit<T>(o: Option<T>): nat {
    if o.Some? then 1 else 0
  }

  function FieldCount(s: Selector): nat {
    Bit(s.symbol) + Bit(s.kind) + Bit(s.exchange)
  }

  /** Number of fields first, then symbol before kind before exchange. */
  predicate MoreSpecific(a: Selector, b: Selector) {
    if FieldCount(a) != FieldCount(b) then FieldCount(a) > FieldCount(b)
    else if a.symbol.Some? != b.symbol.Some? then a.symbol.Some?
    else if a.kind.Some? != b.kind.Some? then a.kind.Some?
    else a.exchange.Some? && b.exchange.None?
  }

  predicate SameSpecificity(a: Selector, b: Selector) {
    a.symbol.Some? == b.symbol.Some? && a.kind.Some? == b.kind.Some? && a.exchange.Some? == b.exchange.Some?
  }

  /** Rule `i` matches and beats every other matching rule: it is more specific, or as specific and defined later. */
  ghost predicate IsBest(rules: seq<Rule>, ctx: Context, i: nat) {
    && i < |rules| && Matches(rules[i].selector, ctx)
    && forall j | 0 <= j < |rules| && j != i && Matches(rules[j].selector, ctx) ::
         MoreSpecific(rules[i].selector, rules[j].selector) ||
             (SameSpecificity(rules[i].selector, rules[j].selector) && j < i)
  }

  ghost predicate NoneMatches(rules: seq<Rule>, ctx: Context) {
    forall j | 0 <= j < |rules| :: !Matches(rules[j].selector, ctx)
  }

  function BestIndex(rules: seq<Rule>, ctx: Context): Option<nat> {
    if rules == [] then None
    else
      var before, n := BestIndex(rules[..|rules| - 1], ctx), |rules| - 1;
      if !Matches(rules[n].selector, ctx) then before
      else if before.Some? && before.value < n &&
          MoreSpecific(rules[before.value].selector, rules[n].selector) then before
      else Some(n)
  }

  lemma MoreSpecificFacts(a: Selector, b: Selector, c: Selector)
    ensures MoreSpecific(a, b) || MoreSpecific(b, a) || SameSpecificity(a, b)
    ensures MoreSpecific(a, b) ==> !MoreSpecific(b, a) && !SameSpecificity(a, b)
    ensures MoreSpecific(a, b) && (MoreSpecific(b, c) || SameSpecificity(b, c)) ==> MoreSpecific(a, c)
    ensures SameSpecificity(a, b) && MoreSpecific(b, c) ==> MoreSpecific(a, c)
  {
  }

  /** The best rule exists iff some rule matches, and is unique. */
  lemma {:induction false} BestIndexExactly(rules: seq<Rule>, ctx: Context)
    ensures match BestIndex(rules, ctx)
      case None => NoneMatches(rules, ctx)
      case Some(i) => forall k :: 0 <= k && IsBest(rules, ctx, k) <==> k == i
  {
    if rules != [] {
      var n := |rules| - 1;
      BestIndexExactly(rules[..n], ctx);
      BestOfMore(rules, ctx);
      match BestIndex(rules, ctx)
      case None =>
      case Some(i) =>
        forall k | 0 <= k && IsBest(rules, ctx, k) ensures k == i {
          MoreSpecificFacts(rules[k].selector, rules[i].selector, rules[k].selector);
        }
    }
  }

  lemma BestOfMore(rules: seq<Rule>, ctx: Context)
    requires rules != []
    requires var init := rules[..|rules| - 1];
      match BestIndex(init, ctx) case None => NoneMatches(init, ctx) case Some(i) => IsBest(init, ctx, i)
    ensures match BestIndex(rules, ctx) case None => NoneMatches(rules, ctx) case Some(i) => IsBest(rules, ctx, i)
  {
    var n := |rules| - 1;
    var init := rules[..n];
    var before := BestIndex(init, ctx);
    if before.Some? {
      var b := before.value;
      forall j | 0 <= j < n && j != b && Matches(rules[j].selector, ctx)
        ensures MoreSpecific(rules[b].selector, rules[j].selector) ||
                (SameSpecificity(rules[b].selector, rules[j].selector) && j < b)
      {
        assert Matches(init[j].selector, ctx);
      }
      forall j | 0 <= j < n && Matches(rules[j].selector, ctx)
        ensures !MoreSpecific(rules[b].selector, rules[n].selector) ==>
                MoreSpecific(rules[n].selector, rules[j].selector) ||
                    SameSpecificity(rules[n].selector, rules[j].selector)
      {
        MoreSpecificFacts(rules[n].selector, rules[b].selector, rules[j].selector);
        MoreSpecificFacts(rules[b].selector, rules[n].selector, rules[j].selector);
      }
    } else {
      forall j | 0 <= j < n ensures !Matches(rules[j].selector, ctx) {
        assert !Matches(init[j].selector, ctx);
      }
    }
  }

  // ---- Ranks ------------------------------------------------------------------------------

  /** A position in a list, or behind all positions. */
  datatype Rank = Listed(position: nat) | Unlisted

  predicate RankLess(a: Rank, b: Rank) {
    a.Listed? && (b.Unlisted? || a.position < b.position)
  }

  /** The list that applies: the best rule's, else the global one. */
  function Effective(p: Policy, ctx: Context): Option<(RankedList, bool)> {
    var best := BestIndex(p.rules, ctx);
    if best.Some? && best.value < |p.rules| then Some((p.rules[best.value].list, p.rules[best.value].strict))
        else p.global
  }

  /** The rank of a connector, or nothing if it is excluded. */
  function ProviderRank(p: Policy, ctx: Context, key: Key): Option<(Rank, bool)> {
    var effective := Effective(p, ctx);
    if effective.None? then Some((Unlisted, false))
    else if key in effective.value.0.ranks then Some((Listed(effective.value.0.ranks[key]), effective.value.1))
    else if effective.value.1 then None
    else Some((Unlisted, false))
  }

  // ---- Unknown connectors -----------------------------------------------------------------

  function Known(values: seq<Key>, known: set<Key>): seq<Key> {
    if values == [] then []
    else Known(values[..|values| - 1], known) + if values[|values| - 1] in known then [values[|values| - 1]] else []
  }

  function Missing(values: seq<Key>, known: set<Key>): seq<Key> {
    if values == [] then []
    else Missing(values[..|values| - 1], known) + if values[|values| - 1] in known then [] else [values[|values| - 1]]
  }

  function NormalizedRules(rules: seq<Rule>, known: set<Key>): (r: seq<Rule>)
    ensures |r| == |rules|
    ensures forall i | 0 <= i < |r| :: r[i] == rules[i].(list := Ranked(Known(rules[i].list.values, known)))
  {
    seq(|rules|, i requires 0 <= i < |rules| => rules[i].(list := Ranked(Known(rules[i].list.values, known))))
  }

  function Normalized(p: Policy, known: set<Key>): Policy {
    Policy(NormalizedRules(p.rules, known),
           if p.global.None? then None else Some((Ranked(Known(p.global.value.0.values, known)), p.global.value.1)))
  }

  const ANYTHING := Selector(None, None, None)

  function Report(selector: Selector, missing: seq<Key>): seq<(Selector, seq<Key>)> {
    if missing == [] then [] else [(selector, missing)]
  }

  function UnknownInRules(rules: seq<Rule>, known: set<Key>): seq<(Selector, seq<Key>)> {
    if rules == [] then []
    else
      var last := rules[|rules| - 1];
      UnknownInRules(rules[..|rules| - 1], known) + Report(last.selector, Missing(last.list.values, known))
  }

  /** The keys that are not known, grouped by the selectors that mention them. */
  function Unknown(p: Policy, known: set<Key>): seq<(Selector, seq<Key>)> {
    (if p.global.None? then [] else Report(ANYTHING, Missing(p.global.value.0.values, known))) +
        UnknownInRules(p.rules, known)
  }

  method SplitKnown(values: seq<Key>, known: set<Key>) returns (filtered: seq<Key>, missing: seq<Key>)
    requires NoRepeats(values)
    ensures filtered == Known(values, known) && missing == Missing(values, known)
  {
    filtered, missing := [], [];
    var seen: set<Key> := {};
    for i := 0 to |values|
      invariant filtered == Known(values[..i], known) && missing == Missing(values[..i], known)
      invariant forall k | k in seen :: k in values[..i]
    {
      assert values[..i + 1][..i] == values[..i] && values[..i + 1] == values[..i] + [values[i]];
      if values[i] in known {
        assert values[i] !in values[..i];
        if values[i] !in seen {
          seen := seen + {values[i]};
          filtered := filtered + [values[i]];
        }
      } else {
        missing := missing + [values[i]];
      }
    }
    assert values[..|values|] == values;
  }

  /** A list as `NewRankedList` makes it. */
  predicate WellRanked(list: RankedList) {
    list == Ranked(list.values)
  }

  ghost predicate WellFormed(p: Policy) {
    RulesWellRanked(p.rules) && (p.global.Some? ==> WellRanked(p.global.value.0))
  }

  lemma RankedIsWellRanked(list: seq<Key>)
    ensures WellRanked(Ranked(list)) && NoRepeats(Ranked(list).values)
  {
    DistinctFacts(list);
    DistinctOfDistinct(Distinct(list));
  }

  class ProviderPolicy {
    var rules: seq<Rule>
    var global: Option<(RankedList, bool)>

    ghost predicate Valid()
      reads this
    {
      WellFormed(Value())
    }

    function Value(): Policy
      reads this
    {
      Policy(rules, global)
    }

    constructor ()
      ensures Valid() && Value() == Policy([], None)
    {
      rules, global := [], None;
    }

    method SetGlobal(list: seq<Key>, strict: bool)
      requires Valid()
      modifies this
      ensures Valid() && Value() == old(Value()).(global := Some((Ranked(list), strict)))
    {
      var ranked := NewRankedList(list);
      RankedIsWellRanked(list);
      global := Some((ranked, strict));
    }

    method AddRule(selector: Selector, list: seq<Key>, strict: bool)
      requires Valid()
      modifies this
      ensures Valid() && Value() == old(Value()).(rules := old(rules) + [Rule(selector, Ranked(list), strict)])
    {
      var ranked := NewRankedList(list);
      RankedIsWellRanked(list);
      rules := rules + [Rule(selector, ranked, strict)];
    }

    method BestRule(ctx: Context) returns (best: Option<(RankedList, bool)>)
      ensures best.Some? <==> BestIndex(rules, ctx).Some?
      ensures best.Some? ==>
        var i := BestIndex(rules, ctx).value;
        i < |rules| && best.value == (rules[i].list, rules[i].strict)
    {
      best := None;
      var bestIdx := 0;
      for i := 0 to |rules|
        invariant BestIndex(rules[..i], ctx) == if best.Some? then Some(bestIdx) else None
        invariant best.Some? ==> bestIdx < i && best.value == (rules[bestIdx].list, rules[bestIdx].strict)
      {
        var s := rules[i].selector;
        assert rules[..i + 1][..i] == rules[..i];
        if s.symbol.Some? && s.symbol != ctx.symbol {
          continue;
        }
        if s.kind.Some? && s.kind != ctx.kind {
          continue;
        }
        if s.exchange.Some? && s.exchange != ctx.exchange {
          continue;
        }
        if best.None? {
          best, bestIdx := Some((rules[i].list, rules[i].strict)), i;
        } else {
          var b := rules[bestIdx].selector;
          MoreSpecificFacts(s, b, s);
          if MoreSpecific(s, b) || (SameSpecificity(s, b) && i > bestIdx) {
            best, bestIdx := Some((rules[i].list, rules[i].strict)), i;
          }
        }
      }
      assert rules[..|rules|] == rules;
    }

    method Rank(ctx: Context, key: Key) returns (r: Option<(Rank, bool)>)
      ensures r == ProviderRank(Value(), ctx, key)
    {
      var best := BestRule(ctx);
      BestIndexExactly(rules, ctx);
      if best.Some? {
        var (list, strict) := best.value;
        if key in list.ranks {
          return Some((Listed(list.ranks[key]), strict));
        }
        return if strict then None else Some((Unlisted, false));
      }
      if global.Some? {
        var (list, strict) := global.value;
        if key in list.ranks {
          return Some((Listed(list.ranks[key]), strict));
        }
        return if strict then None else Some((Unlisted, false));
      }
      return Some((Unlisted, false));
    }

    method NormalizeAndCollectUnknown(known: set<Key>) returns (unknown: seq<(Selector, seq<Key>)>)
      requires Valid()
      modifies this
      ensures Valid() && Value() == Normalized(old(Value()), known)
      ensures unknown == Unknown(old(Value()), known)
    {
      unknown := [];
      if global.Some? {
        var (list, strict) := global.value;
        var ranked, missing := NormalizeList(list, known);
        global := Some((ranked, strict));
        if missing != [] {
          unknown := unknown + [(ANYTHING, missing)];
        }
      }
      var inRules := NormalizeRules(known);
      unknown := unknown + inRules;
    }

    method NormalizeRules(known: set<Key>) returns (unknown: seq<(Selector, seq<Key>)>)
      requires Valid()
      modifies this`rules
      ensures Valid() && rules == NormalizedRules(old(rules), known)
      ensures unknown == UnknownInRules(old(rules), known)
    {
      unknown := [];
      ghost var before := rules;
      NoneNormalized(before, known);
      for i := 0 to |rules|
        invariant |rules| == |before| && RulesWellRanked(rules)
        invariant rules == PartlyNormalized(before, i, known)
        invariant unknown == UnknownInRules(before[..i], known)
      {
        var report := NormalizeRule(i, known, before);
        unknown := unknown + report;
      }
      AllNormalized(before, known);
    }

    /** Normalizes rule `i` in place, after those before it. */
    method NormalizeRule(i: nat, known: set<Key>, ghost before: seq<Rule>) returns (report: seq<(Selector, seq<Key>)>)
      requires i < |rules| == |before| && RulesWellRanked(rules) && rules == PartlyNormalized(before, i, known)
      modifies this`rules
      ensures |rules| == |before| && RulesWellRanked(rules) && rules == PartlyNormalized(before, i + 1, known)
      ensures UnknownInRules(before[..i + 1], known) == UnknownInRules(before[..i], known) + report
    {
      var rule := rules[i];
      NormalizeNext(before, i, known);
      var ranked, missing := NormalizeList(rule.list, known);
      rules := rules[i := rule.(list := ranked)];
      report := if missing == [] then [] else [(rule.selector, missing)];
    }
  }

  ghost predicate RulesWellRanked(rules: seq<Rule>) {
    forall i | 0 <= i < |rules| :: WellRanked(rules[i].list)
  }

  /** The first `n` rules are normalized, the others are not yet. */
  ghost function PartlyNormalized(rules: seq<Rule>, n: nat, known: set<Key>): seq<Rule>
    requires n <= |rules|
  {
    NormalizedRules(rules[..n], known) + rules[n..]
  }

  lemma NoneNormalized(rules: seq<Rule>, known: set<Key>)
    ensures PartlyNormalized(rules, 0, known) == rules && UnknownInRules(rules[..0], known) == []
  {
    assert NormalizedRules(rules[..0], known) == [];
  }

  lemma AllNormalized(rules: seq<Rule>, known: set<Key>)
    ensures PartlyNormalized(rules, |rules|, known) == NormalizedRules(rules, known)
    ensures UnknownInRules(rules[..|rules|], known) == UnknownInRules(rules, known)
  {
    assert rules[..|rules|] == rules;
  }

  lemma NormalizeNext(rules: seq<Rule>, i: nat, known: set<Key>)
    requires i < |rules|
    ensures var now := PartlyNormalized(rules, i, known);
      && now[i] == rules[i]
      && now[i := rules[i].(list := Ranked(Known(rules[i].list.values, known)))] ==
          PartlyNormalized(rules, i + 1, known)
    ensures UnknownInRules(rules[..i + 1], known) ==
            UnknownInRules(rules[..i], known) + Report(rules[i].selector, Missing(rules[i].list.values, known))
  {
    assert rules[..i + 1][..i] == rules[..i];
  }

  method NormalizeList(list: RankedList, known: set<Key>) returns (ranked: RankedList, missing: seq<Key>)
    requires WellRanked(list)
    ensures ranked == Ranked(Known(list.values, known)) && WellRanked(ranked) && missing == Missing(list.values, known)
  {
    RankedIsWellRanked(list.values);
    var filtered, unknown := SplitKnown(list.values, known);
    RankedIsWellRanked(filtered);
    ranked := NewRankedList(filtered);
    missing := unknown;
  }
}
