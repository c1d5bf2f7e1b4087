/** What the provider policy means: precedence, the order of connectors, and that normalizing is harmless. */
module RoutingProps {
  import opened Wrappers
  import opened Sorting
  import opened Routing

  // ---- Normalizing ------------------------------------------------------------------------

  lemma {:induction false} SplitFacts(values: seq<Key>, known: set<Key>)
    ensures forall k :: k in Known(values, known) <==> k in values && k in known
    ensures forall k :: k in Missing(values, known) <==> k in values && k !in known
    ensures |Known(values, known)| + |Missing(values, known)| == |values|
    ensures Missing(values, known) == [] <==> Known(values, known) == values
    ensures NoRepeats(values) ==> NoRepeats(Known(values, known))
  {
    if values != [] {
      var init, last := values[..|values| - 1], values[|values| - 1];
      SplitFacts(init, known);
      assert values == init + [last];
      if NoRepeats(values) {
        assert last !in init;
      }
    }
  }

  lemma NormalizedList(list: RankedList, known: set<Key>)
    requires WellRanked(list)
    ensures Ranked(Known(list.values, known)).values == Known(list.values, known)
    ensures Ranked(Known(list.values, known)) == list <==> Missing(list.values, known) == []
  {
    RankedIsWellRanked(list.values);
    SplitFacts(list.values, known);
    DistinctOfDistinct(Known(list.values, known));
  }

  ghost predicate AllKnown(rules: seq<Rule>, known: set<Key>) {
    forall i | 0 <= i < |rules| :: Missing(rules[i].list.values, known) == []
  }

  lemma {:induction false} NothingUnknownInRules(rules: seq<Rule>, known: set<Key>)
    ensures UnknownInRules(rules, known) == [] <==> AllKnown(rules, known)
  {
    if rules != [] {
      NothingUnknownInRules(rules[..|rules| - 1], known);
      assert rules == rules[..|rules| - 1] + [rules[|rules| - 1]];
    }
  }

  lemma NormalizedRulesKeep(rules: seq<Rule>, known: set<Key>)
    requires RulesWellRanked(rules)
    ensures AllKnown(rules, known) <==> NormalizedRules(rules, known) == rules
  {
    var after := NormalizedRules(rules, known);
    forall i | 0 <= i < |rules| ensures after[i] == rules[i] <==> Missing(rules[i].list.values, known) == [] {
      NormalizedList(rules[i].list, known);
    }
    if after == rules {
      assert forall i | 0 <= i < |rules| :: after[i] == rules[i];
    }
  }

  /** Normalizing reports nothing iff it changes nothing; then every rank in every context stays as it was. */
  lemma NothingUnknownIff(p: Policy, known: set<Key>)
    requires WellFormed(p)
    ensures Unknown(p, known) == [] <==> Normalized(p, known) == p
    ensures Unknown(p, known) == [] ==>
              forall ctx, key :: ProviderRank(Normalized(p, known), ctx, key) == ProviderRank(p, ctx, key)
  {
    NothingUnknownInRules(p.rules, known);
    NormalizedRulesKeep(p.rules, known);
    if p.global.Some? {
      NormalizedList(p.global.value.0, known);
    }
  }

  /** In every case normalizing keeps which list applies, and filters it. */
  lemma EffectiveNormalized(p: Policy, known: set<Key>, ctx: Context)
    requires WellFormed(p)
    ensures var before, after := Effective(p, ctx), Effective(Normalized(p, known), ctx);
      if before.None? then after.None?
      else WellRanked(before.value.0) && after == Some((Ranked(Known(before.value.0.values, known)), before.value.1))
  {
    SameBest(p.rules, NormalizedRules(p.rules, known), ctx);
  }

  lemma {:induction false} SameBest(rules: seq<Rule>, others: seq<Rule>, ctx: Context)
    requires |rules| == |others| && forall i | 0 <= i < |rules| :: rules[i].selector == others[i].selector
    ensures BestIndex(rules, ctx) == BestIndex(others, ctx)
  {
    if rules != [] {
      var n := |rules| - 1;
      forall i | 0 <= i < n ensures rules[..n][i].selector == others[..n][i].selector {
        assert rules[i].selector == others[i].selector;
      }
      SameBest(rules[..n], others[..n], ctx);
    }
  }

  // ---- The order of connectors ------------------------------------------------------------

  /** A registered connector and its registration index. */
  datatype Entry = Entry(idx: nat, key: Key)

  function Entries(connectors: seq<Key>): (es: seq<Entry>)
    ensures |es| == |connectors| && forall i | 0 <= i < |es| :: es[i] == Entry(i, connectors[i])
  {
    seq(|connectors|, i requires 0 <= i < |connectors| => Entry(i, connectors[i]))
  }

  function RankOf(p: Policy, ctx: Context, key: Key): Rank {
    var r := ProviderRank(p, ctx, key);
    if r.Some? then r.value.0 else Unlisted
  }

  /** By rank, then by registration. */
  predicate SortsBefore(p: Policy, ctx: Context, a: Entry, b: Entry) {
    var ra, rb := RankOf(p, ctx, a.key), RankOf(p, ctx, b.key);
    RankLess(ra, rb) || (ra == rb && a.idx <= b.idx)
  }

  function SortKey(p: Policy, ctx: Context): (Entry, Entry) -> bool {
    (a, b) => SortsBefore(p, ctx, a, b)
  }

  function Retained(es: seq<Entry>, p: Policy, ctx: Context): seq<Entry> {
    if es == [] then []
    else
      Retained(es[..|es| - 1], p, ctx) +
      if ProviderRank(p, ctx, es[|es| - 1].key).Some? then [es[|es| - 1]] else []
  }

  function OrderedEntries(connectors: seq<Key>, p: Policy, ctx: Context): seq<Entry> {
    SortBy(Retained(Entries(connectors), p, ctx), SortKey(p, ctx))
  }

  method OrderedForContext(connectors: seq<Key>, policy: ProviderPolicy, ctx: Context) returns (out: seq<Entry>)
    ensures out == OrderedEntries(connectors, policy.Value(), ctx)
  {
    var es := Entries(connectors);
    out := [];
    for i := 0 to |es|
      invariant out == Retained(es[..i], policy.Value(), ctx)
    {
      assert es[..i + 1][..i] == es[..i];
      var rank := policy.Rank(ctx, es[i].key);
      if rank.Some? {
        out := out + [es[i]];
      }
    }
    assert es[..|es|] == es;
    out := SortBy(out, SortKey(policy.Value(), ctx));
  }

  lemma {:induction false} RetainedMembers(es: seq<Entry>, p: Policy, ctx: Context)
    ensures forall e :: e in Retained(es, p, ctx) <==> e in es && ProviderRank(p, ctx, e.key).Some?
  {
    if es != [] {
      RetainedMembers(es[..|es| - 1], p, ctx);
      assert es == es[..|es| - 1] + [es[|es| - 1]];
    }
  }

  predicate RankAtMost(a: Rank, b: Rank) {
    RankLess(a, b) || a == b
  }

  /** The key's position in the list that applies, if it is listed. */
  ghost predicate ListedAt(p: Policy, ctx: Context, key: Key, i: nat) {
    Effective(p, ctx).Some? && i < |Effective(p, ctx).value.0.values| && Effective(p, ctx).value.0.values[i] == key
  }

  ghost predicate NotListed(p: Policy, ctx: Context, key: Key) {
    forall i: nat :: !ListedAt(p, ctx, key, i)
  }

  predicate IsStrict(p: Policy, ctx: Context) {
    Effective(p, ctx).Some? && Effective(p, ctx).value.1
  }

  lemma RankMeaning(p: Policy, ctx: Context, key: Key)
    requires WellFormed(p)
    ensures var r := ProviderRank(p, ctx, key);
      if r.None? then IsStrict(p, ctx) && NotListed(p, ctx, key)
      else if r.value.0.Unlisted? then !IsStrict(p, ctx) && !r.value.1 && NotListed(p, ctx, key)
      else ListedAt(p, ctx, key, r.value.0.position) && r.value.1 == IsStrict(p, ctx)
  {
    if Effective(p, ctx).Some? {
      var list := Effective(p, ctx).value.0;
      DistinctFacts(list.values);
      RanksFacts(list.values);
      if key in list.ranks {
        var i :| 0 <= i < |list.values| && list.values[i] == key;
        assert list.ranks[list.values[i]] == i;
      }
    }
  }

  /**
   * Listed connectors come in list order, unlisted ones after them; within a position, and among unlisted ones, in
   * registration order.
   */
  ghost predicate ComesBefore(p: Policy, ctx: Context, a: Entry, b: Entry) {
    || (exists i: nat, j: nat ::
        ListedAt(p, ctx, a.key, i) && ListedAt(p, ctx, b.key, j) && (i < j || (i == j && a.idx < b.idx)))
    || (!NotListed(p, ctx, a.key) && NotListed(p, ctx, b.key))
    || (NotListed(p, ctx, a.key) && NotListed(p, ctx, b.key) && a.idx < b.idx)
  }

  lemma SortsBeforeMeaning(p: Policy, ctx: Context, a: Entry, b: Entry)
    requires WellFormed(p) && SortsBefore(p, ctx, a, b) && a.idx != b.idx
    requires ProviderRank(p, ctx, a.key).Some? && ProviderRank(p, ctx, b.key).Some?
    ensures ComesBefore(p, ctx, a, b)
  {
    RankMeaning(p, ctx, a.key);
    RankMeaning(p, ctx, b.key);
  }

  lemma SortKeyIsOrder(p: Policy, ctx: Context)
    ensures TotalPreorder(SortKey(p, ctx))
  {
    var le := SortKey(p, ctx);
    forall a, b ensures le(a, b) || le(b, a) {
      assert SortsBefore(p, ctx, a, b) || SortsBefore(p, ctx, b, a);
    }
    forall a, b, c | le(a, b) && le(b, c) ensures le(a, c) {
      assert SortsBefore(p, ctx, a, c);
    }
  }

  lemma {:induction false} RetainedOnce(es: seq<Entry>, p: Policy, ctx: Context)
    requires forall i, j | 0 <= i < j < |es| :: es[i].idx < es[j].idx
    ensures forall i, j | 0 <= i < j < |Retained(es, p, ctx)| ::
            Retained(es, p, ctx)[i].idx < Retained(es, p, ctx)[j].idx
  {
    if es != [] {
      var init, last := es[..|es| - 1], es[|es| - 1];
      RetainedOnce(init, p, ctx);
      RetainedMembers(init, p, ctx);
      var r := Retained(init, p, ctx);
      forall i | 0 <= i < |r| ensures r[i].idx < last.idx {
        assert r[i] in r;
      }
    }
  }

  /**
   * The connectors of a context are those that the applying list names, and all others unless it is strict. Each occurs
   * once: the named ones in list order, then the others in registration order.
   */
  lemma OrderedExactly(connectors: seq<Key>, p: Policy, ctx: Context)
    requires WellFormed(p)
    ensures var es, out := Entries(connectors), OrderedEntries(connectors, p, ctx);
      && (forall e :: e in out <==> e in es && (IsStrict(p, ctx) ==> !NotListed(p, ctx, e.key)))
      && (forall i, j | 0 <= i < j < |out| :: out[i] != out[j] && ComesBefore(p, ctx, out[i], out[j]))
  {
    var es, le, out := Entries(connectors), SortKey(p, ctx), OrderedEntries(connectors, p, ctx);
    var kept := Retained(es, p, ctx);
    SortKeyIsOrder(p, ctx);
    SortBySorts(kept, le);
    SameMembers(out, kept);
    RetainedMembers(es, p, ctx);
    RetainedOnce(es, p, ctx);
    assert NoDuplicates(kept) by {
      forall i, j | 0 <= i < j < |kept| ensures kept[i] != kept[j] {
        assert kept[i].idx < kept[j].idx;
      }
    }
    PermutationKeepsDistinct(kept, out);
    forall e ensures e in out <==> e in es && (IsStrict(p, ctx) ==> !NotListed(p, ctx, e.key)) {
      RankMeaning(p, ctx, e.key);
    }
    forall i, j | 0 <= i < j < |out| ensures out[i] != out[j] && ComesBefore(p, ctx, out[i], out[j]) {
      assert out[i] in out && out[j] in out && le(out[i], out[j]);
      SortsBeforeMeaning(p, ctx, out[i], out[j]);
    }
  }

  // ---- Normalizing and the order ----------------------------------------------------------

  /** A known key moves to the position that counts the known keys before it. */
  lemma {:induction false} KnownAt(values: seq<Key>, known: set<Key>, i: nat)
    requires i < |values| && values[i] in known
    ensures |Known(values[..i], known)| < |Known(values, known)|
    ensures Known(values, known)[|Known(values[..i], known)|] == values[i]
    decreases |values|
  {
    var init := values[..|values| - 1];
    if i < |init| {
      assert init[..i] == values[..i];
      KnownAt(init, known, i);
    }
  }

  lemma KnownMonotone(values: seq<Key>, known: set<Key>, i: nat, j: nat)
    requires i < j <= |values| && values[i] in known
    ensures |Known(values[..i], known)| < |Known(values[..j], known)|
  {
    assert values[..j][..i] == values[..i];
    KnownAt(values[..j], known, i);
  }

  lemma RankAt(values: seq<Key>, i: nat)
    requires NoRepeats(values) && i < |values|
    ensures values[i] in RanksOf(values) && RanksOf(values)[values[i]] == i
  {
    RanksFacts(values);
  }

  /** Dropping unknown keys keeps the order of the known ones. */
  lemma KnownKeepsOrder(values: seq<Key>, known: set<Key>, k: Key, l: Key)
    requires NoRepeats(values) && k in values && l in values && k in known && l in known
    ensures k in RanksOf(values) && l in RanksOf(values) && k in RanksOf(Known(values, known)) &&
            l in RanksOf(Known(values, known))
    ensures RanksOf(values)[k] < RanksOf(values)[l] ==>
            RanksOf(Known(values, known))[k] < RanksOf(Known(values, known))[l]
  {
    var i :| 0 <= i < |values| && values[i] == k;
    var j :| 0 <= j < |values| && values[j] == l;
    SplitFacts(values, known);
    RankAt(values, i);
    RankAt(values, j);
    KnownAt(values, known, i);
    KnownAt(values, known, j);
    RankAt(Known(values, known), |Known(values[..i], known)|);
    RankAt(Known(values, known), |Known(values[..j], known)|);
    if i < j {
      KnownMonotone(values, known, i, j);
    }
  }

  function ListRank(list: RankedList, key: Key): Rank {
    if key in list.ranks then Listed(list.ranks[key]) else Unlisted
  }

  lemma RankOfIsListRank(p: Policy, ctx: Context, key: Key)
    ensures RankOf(p, ctx, key) == if Effective(p, ctx).None? then Unlisted
            else ListRank(Effective(p, ctx).value.0, key)
  {
  }

  lemma ListRankNormalized(list: RankedList, known: set<Key>, key: Key)
    requires WellRanked(list) && key in known
    ensures ListRank(Ranked(Known(list.values, known)), key).Listed? == ListRank(list, key).Listed?
  {
    RankedIsWellRanked(list.values);
    SplitFacts(list.values, known);
    NormalizedList(list, known);
    RanksFacts(list.values);
    RanksFacts(Known(list.values, known));
  }

  lemma RanksDiffer(values: seq<Key>, k: Key, l: Key)
    requires NoRepeats(values) && k in values && l in values
    ensures k in RanksOf(values) && l in RanksOf(values) && (RanksOf(values)[k] == RanksOf(values)[l] <==> k == l)
  {
    RanksFacts(values);
    var i :| 0 <= i < |values| && values[i] == k;
    var j :| 0 <= j < |values| && values[j] == l;
  }

  lemma ListRanksCompare(list: RankedList, known: set<Key>, k: Key, l: Key)
    requires WellRanked(list) && k in known && l in known
    ensures var after := Ranked(Known(list.values, known));
      && RankLess(ListRank(after, k), ListRank(after, l)) == RankLess(ListRank(list, k), ListRank(list, l))
      && (ListRank(after, k) == ListRank(after, l)) == (ListRank(list, k) == ListRank(list, l))
  {
    ListRankNormalized(list, known, k);
    ListRankNormalized(list, known, l);
    if ListRank(list, k).Listed? && ListRank(list, l).Listed? {
      var values := list.values;
      RankedIsWellRanked(values);
      RanksFacts(values);
      SplitFacts(values, known);
      NormalizedList(list, known);
      KnownKeepsOrder(values, known, k, l);
      KnownKeepsOrder(values, known, l, k);
      RanksDiffer(values, k, l);
      RanksDiffer(Known(values, known), k, l);
    }
  }

  lemma SortsBeforeAlike(p: Policy, known: set<Key>, ctx: Context, a: Entry, b: Entry)
    requires WellFormed(p) && a.key in known && b.key in known
    ensures SortsBefore(p, ctx, a, b) == SortsBefore(Normalized(p, known), ctx, a, b)
  {
    EffectiveNormalized(p, known, ctx);
    RankOfIsListRank(p, ctx, a.key);
    RankOfIsListRank(p, ctx, b.key);
    RankOfIsListRank(Normalized(p, known), ctx, a.key);
    RankOfIsListRank(Normalized(p, known), ctx, b.key);
    if Effective(p, ctx).Some? {
      ListRanksCompare(Effective(p, ctx).value.0, known, a.key, b.key);
    }
  }

  lemma EligibleAlike(p: Policy, known: set<Key>, ctx: Context, key: Key)
    requires WellFormed(p) && key in known
    ensures ProviderRank(Normalized(p, known), ctx, key).Some? == ProviderRank(p, ctx, key).Some?
  {
    EffectiveNormalized(p, known, ctx);
    if Effective(p, ctx).Some? {
      ListRankNormalized(Effective(p, ctx).value.0, known, key);
    }
  }

  /** Whatever it reports, normalizing against the registered connectors changes no order of connectors. */
  lemma NormalizingKeepsOrder(connectors: seq<Key>, p: Policy, known: set<Key>, ctx: Context)
    requires WellFormed(p) && forall k | k in connectors :: k in known
    ensures OrderedEntries(connectors, Normalized(p, known), ctx) == OrderedEntries(connectors, p, ctx)
  {
    var es, q := Entries(connectors), Normalized(p, known);
    assert forall e | e in es :: e.key in connectors;
    SameRetained(es, p, known, ctx);
    RetainedMembers(es, p, ctx);
    var kept := Retained(es, p, ctx);
    var all := set e | e in es;
    assert AlikeOn(all, SortKey(p, ctx), SortKey(q, ctx)) by {
      forall a, b | a in all && b in all ensures SortsBefore(p, ctx, a, b) == SortsBefore(q, ctx, a, b) {
        SortsBeforeAlike(p, known, ctx, a, b);
      }
    }
    SortByAlike(kept, all, SortKey(p, ctx), SortKey(q, ctx));
  }

  lemma {:induction false} SameRetained(es: seq<Entry>, p: Policy, known: set<Key>, ctx: Context)
    requires WellFormed(p) && forall e | e in es :: e.key in known
    ensures Retained(es, Normalized(p, known), ctx) == Retained(es, p, ctx)
  {
    if es != [] {
      assert es[|es| - 1] in es;
      SameRetained(es[..|es| - 1], p, known, ctx);
      EligibleAlike(p, known, ctx, es[|es| - 1].key);
    }
  }
}
