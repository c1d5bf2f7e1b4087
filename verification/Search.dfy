/** Choosing one search result per symbol by exchange preference. */
module Search {
  import opened Wrappers
  import opened Market
  import opened Sorting
  import opened Routing

  // ---- Preferences ------------------------------------------------------------------------

  datatype Scope = Global | OfKind(kind: AssetKind) | OfSymbol(symbol: Symbol)

  datatype Lists = Lists(global: Option<RankedList>, byKind: map<AssetKind, RankedList>,
                         bySymbol: map<Symbol, RankedList>)

  /** Symbol before kind before global. */
  function Resolve(p: Lists, symbol: Option<Symbol>, kind: Option<AssetKind>): Option<RankedList> {
    if symbol.Some? && symbol.value in p.bySymbol then Some(p.bySymbol[symbol.value])
    else if kind.Some? && kind.value in p.byKind then Some(p.byKind[kind.value])
    else p.global
  }

  predicate ScopeMatches(scope: Scope, symbol: Option<Symbol>, kind: Option<AssetKind>) {
    match scope
    case Global => true
    case OfKind(k) => kind == Some(k)
    case OfSymbol(s) => symbol == Some(s)
  }

  predicate HasScope(p: Lists, scope: Scope) {
    match scope
    case Global => p.global.Some?
    case OfKind(k) => k in p.byKind
    case OfSymbol(s) => s in p.bySymbol
  }

  function Precedence(scope: Scope): nat {
    match scope case OfSymbol(_) => 2 case OfKind(_) => 1 case Global => 0
  }

  class Preference {
    var global: Option<RankedList>
    var byKind: map<AssetKind, RankedList>
    var bySymbol: map<Symbol, RankedList>

    function Value(): Lists
      reads this
    {
      Lists(global, byKind, bySymbol)
    }

    constructor ()
      ensures Value() == Lists(None, map[], map[])
    {
      global, byKind, bySymbol := None, map[], map[];
    }

    method Set(scope: Scope, list: seq<Exchange>)
      modifies this
      ensures match scope
        case Global => Value() == old(Value()).(global := Some(Ranked(list)))
        case OfKind(k) => Value() == old(Value()).(byKind := old(byKind)[k := Ranked(list)])
        case OfSymbol(s) => Value() == old(Value()).(bySymbol := old(bySymbol)[s := Ranked(list)])
    {
      var ranked := NewRankedList(list);
      match scope {
        case Global => global := Some(ranked);
        case OfKind(k) => byKind := byKind[k := ranked];
        case OfSymbol(s) => bySymbol := bySymbol[s := ranked];
      }
    }

    method Clear()
      modifies this
      ensures Value() == Lists(None, map[], map[])
    {
      global, byKind, bySymbol := None, map[], map[];
    }
  }

  /**
   * What setting a scope means for a lookup: it decides exactly the lookups that match it and have no more specific
   * list.
   */
  lemma SetDecides(before: Lists, after: Lists, scope: Scope, list: RankedList, symbol: Option<Symbol>,
                   kind: Option<AssetKind>)
    requires match scope
      case Global => after == before.(global := Some(list))
      case OfKind(k) => after == before.(byKind := before.byKind[k := list])
      case OfSymbol(s) => after == before.(bySymbol := before.bySymbol[s := list])
    ensures Resolve(after, symbol, kind) ==
      if ScopeMatches(scope, symbol, kind) &&
         forall other :: ScopeMatches(other, symbol, kind) && Precedence(other) > Precedence(scope) ==>
             !HasScope(before, other)
      then Some(list)
      else Resolve(before, symbol, kind)
  {
    if symbol.Some? && symbol.value in before.bySymbol {
      assert ScopeMatches(OfSymbol(symbol.value), symbol, kind) && HasScope(before, OfSymbol(symbol.value));
    }
    if kind.Some? && kind.value in before.byKind {
      assert ScopeMatches(OfKind(kind.value), symbol, kind) && HasScope(before, OfKind(kind.value));
    }
  }

  // ---- One result per symbol --------------------------------------------------------------

  datatype SearchResult = SearchResult(instrument: Instrument, kind: AssetKind, exchange: Option<Exchange>)

  /** A result and its position in the merged results. */
  datatype Hit = Hit(idx: nat, result: SearchResult)

  function ExchangeRank(p: Lists, symbol: Symbol, kind: Option<AssetKind>, r: SearchResult): Rank {
    var list := Resolve(p, Some(symbol), if kind.Some? then kind else Some(r.kind));
    if r.exchange.Some? && list.Some? &&
        r.exchange.value in list.value.ranks then Listed(list.value.ranks[r.exchange.value]) else Unlisted
  }

  /** Listed exchanges in list order, then other exchanges, then no exchange; then by position. */
  predicate AtLeastAsGood(p: Lists, kind: Option<AssetKind>, symbol: Symbol, a: Hit, b: Hit) {
    var ra, rb := ExchangeRank(p, symbol, kind, a.result), ExchangeRank(p, symbol, kind, b.result);
    if ra != rb then RankLess(ra, rb)
    else if a.result.exchange.Some? != b.result.exchange.Some? then a.result.exchange.Some?
    else a.idx <= b.idx
  }

  function ExchangeOrder(p: Lists, kind: Option<AssetKind>, symbol: Symbol): (Hit, Hit) -> bool {
    (a, b) => AtLeastAsGood(p, kind, symbol, a, b)
  }

  /** The hits of a symbol, in order. */
  function HitsOf(merged: seq<SearchResult>, symbol: Symbol): seq<Hit> {
    if merged == [] then []
    else
      var n := |merged| - 1;
      HitsOf(merged[..n], symbol) +
      if merged[n].instrument.Security? && merged[n].instrument.symbol == symbol then [Hit(n, merged[n])] else []
  }

  function Symbols(merged: seq<SearchResult>): set<Symbol> {
    set r | r in merged && r.instrument.Security? :: r.instrument.symbol
  }

  /** The result kept for a symbol, and where the symbol first occurs. */
  datatype Choice = Choice(symbol: Symbol, first: nat, best: Hit)

  ghost predicate IsChoice(p: Lists, kind: Option<AssetKind>, merged: seq<SearchResult>, c: Choice) {
    var hits := HitsOf(merged, c.symbol);
    && hits != [] && c.first == hits[0].idx && c.best in hits
    && forall h | h in hits :: AtLeastAsGood(p, kind, c.symbol, c.best, h)
  }

  /** One choice per symbol, in the order in which the symbols first occur. */
  ghost predicate Deduped(p: Lists, kind: Option<AssetKind>, merged: seq<SearchResult>, chosen: seq<Choice>) {
    && (forall k | 0 <= k < |chosen| :: IsChoice(p, kind, merged, chosen[k]))
    && (forall k, l | 0 <= k < l < |chosen| :: chosen[k].first < chosen[l].first)
    && (forall s | s in Symbols(merged) :: Chosen(chosen, s))
  }

  ghost predicate Chosen(chosen: seq<Choice>, s: Symbol) {
    exists k :: 0 <= k < |chosen| && chosen[k].symbol == s
  }

  function Results(chosen: seq<Choice>): seq<SearchResult> {
    seq(|chosen|, k requires 0 <= k < |chosen| => chosen[k].best.result)
  }

  predicate IsHit(merged: seq<SearchResult>, symbol: Symbol, h: Hit) {
    h.idx < |merged| && h.result == merged[h.idx] && h.result.instrument.Security? &&
        h.result.instrument.symbol == symbol
  }

  lemma {:induction false} HitsMembers(merged: seq<SearchResult>, symbol: Symbol)
    ensures forall h :: h in HitsOf(merged, symbol) <==> IsHit(merged, symbol, h)
  {
    if merged != [] {
      var n := |merged| - 1;
      HitsMembers(merged[..n], symbol);
      forall h ensures h in HitsOf(merged, symbol) <==> IsHit(merged, symbol, h) {
        assert IsHit(merged, symbol, h) <==>
               IsHit(merged[..n], symbol, h) || (h == Hit(n, merged[n]) && IsHit(merged, symbol, h));
      }
    }
  }

  ghost predicate InOrder(hits: seq<Hit>) {
    forall i, j | 0 <= i < j < |hits| :: hits[i].idx < hits[j].idx
  }

  lemma {:induction false} HitsAscend(merged: seq<SearchResult>, symbol: Symbol)
    ensures InOrder(HitsOf(merged, symbol))
  {
    if merged != [] {
      var n := |merged| - 1;
      var before, hits := HitsOf(merged[..n], symbol), HitsOf(merged, symbol);
      HitsAscend(merged[..n], symbol);
      HitsMembers(merged[..n], symbol);
      forall i | 0 <= i < |before| ensures before[i].idx < n {
        assert before[i] in before;
      }
      if hits != before {
        assert hits == before + [Hit(n, merged[n])];
      }
    }
  }

  lemma HitsFacts(merged: seq<SearchResult>, symbol: Symbol)
    ensures forall h :: h in HitsOf(merged, symbol) <==> IsHit(merged, symbol, h)
    ensures InOrder(HitsOf(merged, symbol))
    ensures HitsOf(merged, symbol) != [] <==> symbol in Symbols(merged)
  {
    HitsMembers(merged, symbol);
    HitsAscend(merged, symbol);
    var hits := HitsOf(merged, symbol);
    if hits != [] {
      assert hits[0] in hits && merged[hits[0].idx] in merged;
    }
    if symbol in Symbols(merged) {
      var i :| 0 <= i < |merged| && merged[i].instrument.Security? && merged[i].instrument.symbol == symbol;
      assert IsHit(merged, symbol, Hit(i, merged[i]));
    }
  }

  lemma ExchangeOrderIsTotal(p: Lists, kind: Option<AssetKind>, symbol: Symbol)
    ensures TotalPreorder(ExchangeOrder(p, kind, symbol))
  {
    var le := ExchangeOrder(p, kind, symbol);
    forall a, b ensures le(a, b) || le(b, a) {
      assert AtLeastAsGood(p, kind, symbol, a, b) || AtLeastAsGood(p, kind, symbol, b, a);
    }
    forall a, b, c | le(a, b) && le(b, c) ensures le(a, c) {
      assert AtLeastAsGood(p, kind, symbol, a, c);
    }
  }

  /** The map from symbols to their hits. */
  ghost predicate GroupsHits(groups: map<Symbol, seq<Hit>>, merged: seq<SearchResult>) {
    && (forall s :: s in groups <==> HitsOf(merged, s) != [])
    && (forall s | s in groups :: groups[s] == HitsOf(merged, s))
  }

  method GroupHits(merged: seq<SearchResult>) returns (groups: map<Symbol, seq<Hit>>)
    ensures GroupsHits(groups, merged)
  {
    groups := map[];
    for i := 0 to |merged|
      invariant GroupsHits(groups, merged[..i])
    {
      var r := merged[i];
      assert merged[..i + 1][..i] == merged[..i];
      if !r.instrument.Security? {
        continue;
      }
      var s := r.instrument.symbol;
      groups := groups[s := (if s in groups then groups[s] else []) + [Hit(i, r)]];
    }
    assert merged[..|merged|] == merged;
  }

  method SmallestIndex(hits: seq<Hit>) returns (first: nat)
    requires hits != []
    ensures forall h | h in hits :: first <= h.idx
    ensures exists h :: h in hits && first == h.idx
  {
    first := hits[0].idx;
    for i := 1 to |hits|
      invariant forall j | 0 <= j < i :: first <= hits[j].idx
      invariant exists j :: 0 <= j < i && first == hits[j].idx
    {
      if hits[i].idx < first {
        first := hits[i].idx;
      }
    }
  }

  method Choose(p: Lists, kind: Option<AssetKind>, merged: seq<SearchResult>, symbol: Symbol, group: seq<Hit>)
      returns (c: Choice)
    requires group != [] && group == HitsOf(merged, symbol)
    ensures c.symbol == symbol && IsChoice(p, kind, merged, c)
  {
    var sorted := SortBy(group, ExchangeOrder(p, kind, symbol));
    SortedGroup(p, kind, merged, symbol);
    var first := SmallestIndex(sorted);
    FirstIsHead(group, sorted, first);
    c := Choice(symbol, first, sorted[0]);
  }

  lemma FirstIsHead(group: seq<Hit>, sorted: seq<Hit>, first: nat)
    requires group != [] && (forall h :: h in sorted <==> h in group) &&
             (forall h | h in group :: group[0].idx <= h.idx)
    requires (forall h | h in sorted :: first <= h.idx) && exists h :: h in sorted && first == h.idx
    ensures first == group[0].idx
  {
    assert group[0] in group;
  }

  lemma SortedGroup(p: Lists, kind: Option<AssetKind>, merged: seq<SearchResult>, symbol: Symbol)
    ensures var group := HitsOf(merged, symbol);
      var sorted := SortBy(group, ExchangeOrder(p, kind, symbol));
      && |sorted| == |group|
      && (forall h :: h in sorted <==> h in group)
      && (group != [] ==> sorted[0] in group && forall h | h in group :: AtLeastAsGood(p, kind, symbol, sorted[0], h))
      && (group != [] ==> group[0] in group && forall h | h in group :: group[0].idx <= h.idx)
  {
    var group, le := HitsOf(merged, symbol), ExchangeOrder(p, kind, symbol);
    var sorted := SortBy(group, le);
    ExchangeOrderIsTotal(p, kind, symbol);
    SortBySorts(group, le);
    SameMembers(sorted, group);
    HitsFacts(merged, symbol);
    if group != [] {
      HeadIsBest(sorted, le);
      assert sorted[0] in sorted;
      forall h | h in group ensures AtLeastAsGood(p, kind, symbol, sorted[0], h) {
        assert le(sorted[0], h);
      }
      forall h | h in group ensures group[0].idx <= h.idx {
        var i :| 0 <= i < |group| && group[i] == h;
      }
    }
  }

  lemma HeadIsBest(sorted: seq<Hit>, le: (Hit, Hit) -> bool)
    requires sorted != [] && SortedBy(sorted, le) && TotalPreorder(le)
    ensures forall h | h in sorted :: le(sorted[0], h)
  {
  }

  method DedupSearchResults(p: Lists, kind: Option<AssetKind>, merged: seq<SearchResult>)
    returns (out: seq<SearchResult>, ghost chosen: seq<Choice>)
    ensures Deduped(p, kind, merged, chosen) && out == Results(chosen)
  {
    var groups := GroupHits(merged);
    var rest := groups.Keys;
    var selected: seq<Choice> := [];
    while rest != {}
      invariant rest <= groups.Keys
      invariant forall k | 0 <= k < |selected| :: IsChoice(p, kind, merged, selected[k]) && selected[k].symbol !in rest
      invariant forall s | s in groups.Keys - rest :: Chosen(selected, s)
      invariant forall k, l | 0 <= k < l < |selected| :: selected[k].symbol != selected[l].symbol
      decreases |rest|
    {
      var s :| s in rest;
      var c := Choose(p, kind, merged, s, groups[s]);
      rest := rest - {s};
      ChosenMore(selected, c);
      selected := selected + [c];
    }
    var sorted := SortByKey(selected, FirstIndex);
    SortedIsDeduped(p, kind, merged, selected, sorted);
    chosen := sorted;
    out := seq(|sorted|, k requires 0 <= k < |sorted| => sorted[k].best.result);
  }

  function FirstIndex(c: Choice): int { c.first }

  lemma ChosenMore(selected: seq<Choice>, c: Choice)
    ensures forall s :: Chosen(selected + [c], s) <==> Chosen(selected, s) || s == c.symbol
  {
    var more := selected + [c];
    forall s ensures Chosen(more, s) <==> Chosen(selected, s) || s == c.symbol {
      if k :| 0 <= k < |selected| && selected[k].symbol == s {
        assert more[k].symbol == s;
      }
      if s == c.symbol {
        assert more[|selected|].symbol == s;
      }
    }
  }

  /** The first position determines the symbol. */
  lemma FirstOfSymbol(p: Lists, kind: Option<AssetKind>, merged: seq<SearchResult>, a: Choice, b: Choice)
    requires IsChoice(p, kind, merged, a) && IsChoice(p, kind, merged, b) && a.first == b.first
    ensures a == b
  {
    HitsFacts(merged, a.symbol);
    HitsFacts(merged, b.symbol);
    assert HitsOf(merged, a.symbol)[0] in HitsOf(merged, a.symbol) &&
           HitsOf(merged, b.symbol)[0] in HitsOf(merged, b.symbol);
    assert AtLeastAsGood(p, kind, a.symbol, a.best, b.best) && AtLeastAsGood(p, kind, a.symbol, b.best, a.best);
  }

  lemma SortedIsDeduped(p: Lists, kind: Option<AssetKind>, merged: seq<SearchResult>, selected: seq<Choice>,
                        sorted: seq<Choice>)
    requires sorted == SortByKey(selected, FirstIndex)
    requires forall k | 0 <= k < |selected| :: IsChoice(p, kind, merged, selected[k])
    requires forall k, l | 0 <= k < l < |selected| :: selected[k].symbol != selected[l].symbol
    requires forall s | HitsOf(merged, s) != [] :: Chosen(selected, s)
    ensures Deduped(p, kind, merged, sorted)
  {
    SortSorts(selected, FirstIndex);
    SameMembers(sorted, selected);
    assert NoDuplicates(selected) by {
      forall k, l | 0 <= k < l < |selected| ensures selected[k] != selected[l] {
        assert selected[k].symbol != selected[l].symbol;
      }
    }
    PermutationKeepsDistinct(selected, sorted);
    forall k | 0 <= k < |sorted| ensures IsChoice(p, kind, merged, sorted[k]) {
      assert sorted[k] in sorted;
    }
    forall k, l | 0 <= k < l < |sorted| ensures sorted[k].first < sorted[l].first {
      assert FirstIndex(sorted[k]) <= FirstIndex(sorted[l]);
      if sorted[k].first == sorted[l].first {
        FirstOfSymbol(p, kind, merged, sorted[k], sorted[l]);
      }
    }
    forall s | s in Symbols(merged) ensures Chosen(sorted, s) {
      HitsFacts(merged, s);
      var k :| 0 <= k < |selected| && selected[k].symbol == s;
      assert selected[k] in selected && selected[k] in sorted;
    }
  }

  /** The choices are determined: the order in which the symbols are visited does not matter. */
  lemma {:induction false} DedupedIsUnique(p: Lists, kind: Option<AssetKind>, merged: seq<SearchResult>,
                                           a: seq<Choice>, b: seq<Choice>)
    requires Deduped(p, kind, merged, a) && Deduped(p, kind, merged, b)
    ensures a == b
  {
    SameChoices(p, kind, merged, a, b);
    SameChoices(p, kind, merged, b, a);
    forall i, j | 0 <= i < j < |a| ensures FirstIndex(a[i]) < FirstIndex(a[j]) {
      assert a[i].first < a[j].first;
    }
    forall i, j | 0 <= i < j < |b| ensures FirstIndex(b[i]) < FirstIndex(b[j]) {
      assert b[i].first < b[j].first;
    }
    SameMembersSameMap(a, b, FirstIndex);
  }

  lemma SameChoices(p: Lists, kind: Option<AssetKind>, merged: seq<SearchResult>, a: seq<Choice>, b: seq<Choice>)
    requires Deduped(p, kind, merged, a) && Deduped(p, kind, merged, b)
    ensures forall c | c in a :: c in b
  {
    forall c | c in a ensures c in b {
      HitsFacts(merged, c.symbol);
      var k :| 0 <= k < |a| && a[k] == c;
      assert IsChoice(p, kind, merged, a[k]);
      assert Chosen(b, c.symbol);
      var l :| 0 <= l < |b| && b[l].symbol == c.symbol;
      assert IsChoice(p, kind, merged, b[l]);
      FirstOfSymbol(p, kind, merged, c, b[l]);
    }
  }
}
