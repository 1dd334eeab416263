/**
 * What is true of every statement. Order independence: the records may come in any order, and so
 * in any pages. Conservation: the total is the sum of the folded stamps, of the lines, of the
 * agents and of the models, in exact cost, in tokens, in displayed cents and in basis points, and
 * each line stays within half a micro-centavo per folded stamp of its tokens times its unit price.
 */
module StatementTheorems {
  import opened Wrappers
  import opened Sums
  import opened Sorting
  import opened Money
  import opened StatementModel
  import opened StatementSpec

  // ---------------------------------------------------------------- order independence

  lemma SameMembers<T>(a: seq<T>, b: seq<T>)
    requires multiset(a) == multiset(b)
    ensures forall x :: x in a <==> x in b
  {
    forall x ensures x in a <==> x in b {
      assert x in multiset(a) <==> x in multiset(b);
    }
  }

  /** A sorted listing of the keys depends on which items there are, not on their order. */
  lemma SortedListingPermutation<T, K(!new)>(a: seq<T>, b: seq<T>, key: T -> K, less: (K, K) -> bool)
    requires multiset(a) == multiset(b)
    requires OrdersStrictly(less, Elements(Listing(a, key)))
    ensures Sort(Listing(a, key), less) == Sort(Listing(b, key), less)
  {
    SameMembers(a, b);
    var la, lb := Listing(a, key), Listing(b, key);
    ListingFacts(a, key);
    ListingFacts(b, key);
    forall k ensures k in Elements(la) <==> k in Elements(lb) {
      if k in la {
        var x :| x in a && key(x) == k;
        assert x in b;
      }
      if k in lb {
        var x :| x in b && key(x) == k;
        assert x in a;
      }
    }
    assert Elements(la) == Elements(lb);
    SortSorts(la, less);
    SortSorts(lb, less);
    SortElements(la, less);
    SortElements(lb, less);
    SortedUnique(Sort(la, less), Sort(lb, less), less);
  }

  lemma LinesPermutation(a: seq<Entry>, b: seq<Entry>)
    requires multiset(a) == multiset(b)
    ensures SortedKeys(a) == SortedKeys(b) && LineCosts(a) == LineCosts(b)
    ensures LinesOf(a) == LinesOf(b) && TotalCost(a) == TotalCost(b)
    ensures PriceVersionsOf(a) == PriceVersionsOf(b)
  {
    LinesOrdered(Elements(Listing(a, EntryKey)));
    SortedListingPermutation(a, b, EntryKey, LineLess);
    PriceVersionsOrdered(Elements(Listing(a, VersionOf)));
    SortedListingPermutation(a, b, VersionOf, PriceVersionLess);
    SumByPermutation(a, b, EntryCost);
    var ks := SortedKeys(a);
    forall i | 0 <= i < |ks|
      ensures LineCost(a, ks[i]) == LineCost(b, ks[i]) && LineTokens(a, ks[i]) == LineTokens(b, ks[i])
    {
      SumByPermutation(a, b, At(EntryKey, EntryCost, ks[i]));
      SumByPermutation(a, b, At(EntryKey, EntryTokens, ks[i]));
    }
    assert LineCosts(a) == LineCosts(b);
  }

  lemma {:induction false} BucketCostsPermutation(a: seq<Counterfactual>, b: seq<Counterfactual>, prices: seq<nat>)
    requires multiset(a) == multiset(b)
    ensures BucketCosts(a, prices) == BucketCosts(b, prices)
  {
    if |prices| > 0 {
      var n := |prices| - 1;
      BucketCostsPermutation(a, b, prices[..n]);
      SumByPermutation(a, b, At(PriceOf, CounterfactualTokens, prices[n]));
    }
  }

  lemma CounterfactualPermutation(a: seq<Counterfactual>, b: seq<Counterfactual>)
    requires multiset(a) == multiset(b)
    ensures CounterfactualCost(a) == CounterfactualCost(b)
  {
    SortedListingPermutation(a, b, PriceOf, NatLess);
    BucketCostsPermutation(a, b, Sort(Listing(a, PriceOf), NatLess));
  }

  lemma CacheSumsPermutation(a: seq<UsageRecord>, b: seq<UsageRecord>)
    requires multiset(a) == multiset(b)
    ensures NatSum(a, ReadTokens) == NatSum(b, ReadTokens) && NatSum(a, ReadCost) == NatSum(b, ReadCost)
    ensures NatSum(a, WriteCost) == NatSum(b, WriteCost) && NatSum(a, Unpriceable) == NatSum(b, Unpriceable)
  {
    SumByPermutation(a, b, ReadTokens);
    SumByPermutation(a, b, ReadCost);
    SumByPermutation(a, b, WriteCost);
    SumByPermutation(a, b, Unpriceable);
  }

  lemma CachePermutation(a: seq<UsageRecord>, b: seq<UsageRecord>)
    requires multiset(a) == multiset(b)
    ensures CacheSavingsOf(a) == CacheSavingsOf(b)
  {
    FlatMapPermutation(a, b, CounterfactualsOf);
    CounterfactualPermutation(Counterfactuals(a), Counterfactuals(b));
    CacheSumsPermutation(a, b);
  }

  /** The whole statement, line order and rounding ties included, and the list of applied price
      versions are the same for every order of the records. */
  lemma StatementOrderIndependent(a: seq<UsageRecord>, b: seq<UsageRecord>)
    requires multiset(a) == multiset(b)
    ensures StatementOf(a) == StatementOf(b)
    ensures PriceVersionsOf(Entries(a)) == PriceVersionsOf(Entries(b))
  {
    FlatMapPermutation(a, b, EntriesOf);
    LinesPermutation(Entries(a), Entries(b));
    CachePermutation(a, b);
    assert |multiset(a)| == |multiset(b)|;
  }

  // ---------------------------------------------------------------- conservation

  function OfNat(x: nat): int { x }

  lemma {:induction false} SumIsSumBy(s: seq<nat>)
    ensures Sum(s) == SumBy(s, OfNat)
  {
    if |s| > 0 {
      SumIsSumBy(s[..|s| - 1]);
    }
  }

  /** A list of numbers sums like the records it was read from. */
  lemma SumOfField<T>(s: seq<nat>, items: seq<T>, f: T -> int)
    requires |s| == |items| && forall i :: 0 <= i < |s| ==> s[i] == f(items[i])
    ensures Sum(s) == SumBy(items, f)
  {
    SumIsSumBy(s);
    SumByZip(s, items, OfNat, f);
  }

  lemma {:induction false} LineMeasure(entries: seq<Entry>, f: LineView -> int, g: Entry -> int)
    requires forall i :: 0 <= i < |LinesOf(entries)| ==>
               f(LinesOf(entries)[i]) == Group(entries, EntryKey, g, SortedKeys(entries)[i])
    ensures SumBy(LinesOf(entries), f) == SumBy(entries, g)
  {
    var ks := SortedKeys(entries);
    SortedKeysFacts(entries);
    Partition(entries, EntryKey, g, ks);
    SumByZip(LinesOf(entries), ks, f, GroupSums(entries, EntryKey, g));
  }

  /** Line costs and tokens close with the stamps they were folded from. */
  lemma {:induction false} LinesConserve(entries: seq<Entry>)
    ensures SumBy(LinesOf(entries), CostOf) == TotalCost(entries)
    ensures SumBy(LinesOf(entries), TokensOf) == SumBy(entries, EntryTokens)
  {
    LineMeasure(entries, CostOf, EntryCost);
    LineMeasure(entries, TokensOf, EntryTokens);
  }

  /** Displayed line cents close with the displayed total, the half-up rounding of the exact one. */
  lemma LineCentsClose(entries: seq<Entry>)
    ensures DisplayTotal(LineCosts(entries)) == HalfUpDiv(TotalCost(entries), MICROCENTS_PER_CENT)
    ensures SumBy(LinesOf(entries), CentsOf) == DisplayTotal(LineCosts(entries))
  {
    var lines, costs := LinesOf(entries), LineCosts(entries);
    LinesConserve(entries);
    SumOfField(costs, lines, CostOf);
    DisplayCloses(costs);
    SumOfField(DisplayParts(costs), lines, CentsOf);
  }

  /** The whole in basis points, or nothing when there is nothing to share. */
  function FullBp(whole: int): nat {
    if whole == 0 then 0 else 10_000
  }

  function AgentKeyOf(g: AgentGroup): AgentKey { g.agent }
  function AgentCost(g: AgentGroup): int { g.cost }
  function AgentTokens(g: AgentGroup): int { g.tokens }
  function AgentCents(g: AgentGroup): int { g.displayCents }
  function AgentBp(g: AgentGroup): int { g.percentOfTotalBp }
  function ShareCost(s: ModelShare): int { s.cost }
  function ShareTokensOf(s: ModelShare): int { s.tokens }
  function ShareCostBp(s: ModelShare): int { s.costShareBp }
  function ShareTokenBp(s: ModelShare): int { s.tokenShareBp }

  /** The groups before sorting and shares, one per agent in order of first appearance. */
  function AgentListing(lines: seq<LineView>): seq<AgentGroup> {
    var ks := Listing(lines, AgentOf);
    seq(|ks|, i requires 0 <= i < |ks| => AgentGroupOf(lines, ks[i]))
  }

  lemma AgentListingSum(lines: seq<LineView>, f: LineView -> int, g: AgentGroup -> int)
    requires forall a :: g(AgentGroupOf(lines, a)) == Group(lines, AgentOf, f, a)
    ensures SumBy(AgentGroups(lines), g) == SumBy(lines, f)
  {
    var ks, listing := Listing(lines, AgentOf), AgentListing(lines);
    ListingFacts(lines, AgentOf);
    SortElements(listing, AgentLess);
    SumByPermutation(AgentGroups(lines), listing, g);
    SumByZip(listing, ks, g, GroupSums(lines, AgentOf, f));
    Partition(lines, AgentOf, f, ks);
  }

  /** Adding shares changes no other measure of the groups. */
  lemma AgentSums(lines: seq<LineView>, f: LineView -> int, g: AgentGroup -> int)
    requires forall a :: g(AgentGroupOf(lines, a)) == Group(lines, AgentOf, f, a)
    requires forall group: AgentGroup, bp: nat :: g(group.(percentOfTotalBp := bp)) == g(group)
    ensures SumBy(AgentsOf(lines), g) == SumBy(lines, f)
  {
    AgentListingSum(lines, f, g);
    SumByZip(AgentsOf(lines), AgentGroups(lines), g, g);
  }

  lemma {:induction false} AgentSharesClose(groups: seq<AgentGroup>)
    ensures SumBy(WithShares(groups), AgentBp) == FullBp(SumBy(groups, AgentCost))
  {
    var costs := GroupCosts(groups);
    SumOfField(costs, groups, AgentCost);
    SharesClose(costs, 10_000);
    SumOfField(Shares(costs, 10_000), WithShares(groups), AgentBp);
  }

  /** Every measure of the agents closes with the lines, and their shares close at 10000 basis
      points unless the month cost nothing. */
  lemma AgentsConserve(lines: seq<LineView>)
    ensures SumBy(AgentsOf(lines), AgentCost) == SumBy(lines, CostOf)
    ensures SumBy(AgentsOf(lines), AgentTokens) == SumBy(lines, TokensOf)
    ensures SumBy(AgentsOf(lines), AgentCents) == SumBy(lines, CentsOf)
    ensures SumBy(AgentsOf(lines), AgentBp) == FullBp(SumBy(lines, CostOf))
  {
    AgentSums(lines, CostOf, AgentCost);
    AgentSums(lines, TokensOf, AgentTokens);
    AgentSums(lines, CentsOf, AgentCents);
    AgentListingSum(lines, CostOf, AgentCost);
    AgentSharesClose(AgentGroups(lines));
  }

  lemma AgentGroupsSorted(lines: seq<LineView>)
    ensures StrictlySorted(AgentGroups(lines), AgentLess)
    ensures forall g :: g in AgentGroups(lines) <==> g in AgentListing(lines)
    ensures NoRepeats(AgentGroups(lines))
  {
    var listing := AgentListing(lines);
    ListingFacts(lines, AgentOf);
    AgentsOrdered(Elements(listing));
    assert NoRepeats(listing);
    SortSorts(listing, AgentLess);
    SortElements(listing, AgentLess);
    SortedDistinct(AgentGroups(lines), AgentLess);
    forall g ensures g in AgentGroups(lines) <==> g in listing {
      assert g in AgentGroups(lines) <==> g in Elements(AgentGroups(lines));
    }
  }

  ghost predicate IsAgentOf(lines: seq<LineView>, g: AgentGroup) {
    && g.cost == Group(lines, AgentOf, CostOf, g.agent)
    && g.tokens == Group(lines, AgentOf, TokensOf, g.agent)
    && g.displayCents == Group(lines, AgentOf, CentsOf, g.agent)
    && g.costByTokenType == TypeSplit(lines, g.agent)
    && exists x :: x in lines && AgentOf(x) == g.agent
  }

  lemma AgentGroupsFacts(lines: seq<LineView>, groups: seq<AgentGroup>, i: nat)
    requires groups == AgentGroups(lines) && i < |groups|
    ensures groups[i] == AgentGroupOf(lines, groups[i].agent)
    ensures exists x :: x in lines && AgentOf(x) == groups[i].agent
  {
    AgentGroupsSorted(lines);
    ListingFacts(lines, AgentOf);
    assert groups[i] in AgentListing(lines);
    var ks := Listing(lines, AgentOf);
    var k :| 0 <= k < |ks| && groups[i] == AgentGroupOf(lines, ks[k]);
    assert ks[k] in ks;
  }

  /** One group per agent, each carrying the sums of that agent's lines. */
  lemma AgentsAreGroups(lines: seq<LineView>)
    ensures forall g :: g in AgentsOf(lines) ==> IsAgentOf(lines, g)
  {
    var groups, agents := AgentGroups(lines), AgentsOf(lines);
    forall g | g in agents ensures IsAgentOf(lines, g) {
      var i :| 0 <= i < |agents| && agents[i] == g;
      AgentGroupsFacts(lines, groups, i);
    }
  }

  /** The groups stand in strict order, so no agent has two. */
  lemma AgentsInOrder(lines: seq<LineView>, i: nat, j: nat)
    requires i < j < |AgentsOf(lines)|
    ensures AgentLess(AgentsOf(lines)[i], AgentsOf(lines)[j])
    ensures AgentsOf(lines)[i].agent != AgentsOf(lines)[j].agent
  {
    var groups := AgentGroups(lines);
    AgentGroupsSorted(lines);
    AgentGroupsFacts(lines, groups, i);
    AgentGroupsFacts(lines, groups, j);
    assert AgentLess(groups[i], groups[j]) && groups[i] != groups[j];
  }

  /** No agent is missing. */
  lemma EveryAgentGrouped(lines: seq<LineView>, x: LineView)
    requires x in lines
    ensures exists g :: g in AgentsOf(lines) && g.agent == AgentOf(x)
  {
    AgentGroupsSorted(lines);
    ListingFacts(lines, AgentOf);
    var ks := Listing(lines, AgentOf);
    var k :| 0 <= k < |ks| && ks[k] == AgentOf(x);
    assert AgentListing(lines)[k] in AgentGroups(lines);
    var i :| 0 <= i < |AgentGroups(lines)| && AgentGroups(lines)[i] == AgentListing(lines)[k];
    assert AgentsOf(lines)[i].agent == AgentOf(x);
  }

  function ModelListing(lines: seq<LineView>): seq<ModelShare> {
    var ks := Listing(lines, ModelOf);
    seq(|ks|, i requires 0 <= i < |ks| => ModelShareOf(lines, ks[i]))
  }

  lemma ModelListingSum(lines: seq<LineView>, f: LineView -> int, g: ModelShare -> int)
    requires forall m :: g(ModelShareOf(lines, m)) == Group(lines, ModelOf, f, m)
    ensures SumBy(ModelGroups(lines), g) == SumBy(lines, f)
  {
    var ks, listing := Listing(lines, ModelOf), ModelListing(lines);
    ListingFacts(lines, ModelOf);
    SortElements(listing, ShareLess);
    SumByPermutation(ModelGroups(lines), listing, g);
    SumByZip(listing, ks, g, GroupSums(lines, ModelOf, f));
    Partition(lines, ModelOf, f, ks);
  }

  lemma ModelMeasures(lines: seq<LineView>, totalTokens: nat)
    ensures SumBy(ModelSharesOf(lines, totalTokens), ShareCost) == SumBy(lines, CostOf)
    ensures SumBy(ModelSharesOf(lines, totalTokens), ShareTokensOf) == SumBy(lines, TokensOf)
  {
    var groups, shares := ModelGroups(lines), ModelSharesOf(lines, totalTokens);
    ModelListingSum(lines, CostOf, ShareCost);
    ModelListingSum(lines, TokensOf, ShareTokensOf);
    SumByZip(shares, groups, ShareCost, ShareCost);
    SumByZip(shares, groups, ShareTokensOf, ShareTokensOf);
  }

  /** Models: cost and tokens close with the lines, and both shares close at 10000 basis points
      unless what they share is zero. */
  lemma ModelsConserve(lines: seq<LineView>, totalTokens: nat)
    requires totalTokens == SumBy(lines, TokensOf)
    ensures SumBy(ModelSharesOf(lines, totalTokens), ShareCost) == SumBy(lines, CostOf)
    ensures SumBy(ModelSharesOf(lines, totalTokens), ShareTokensOf) == totalTokens
    ensures SumBy(ModelSharesOf(lines, totalTokens), ShareCostBp) == FullBp(SumBy(lines, CostOf))
    ensures SumBy(ModelSharesOf(lines, totalTokens), ShareTokenBp) == FullBp(totalTokens)
  {
    ModelMeasures(lines, totalTokens);
    ModelCostShares(lines, totalTokens);
    ModelTokenShares(lines, totalTokens);
  }

  lemma ModelCostShares(lines: seq<LineView>, totalTokens: nat)
    ensures SumBy(ModelSharesOf(lines, totalTokens), ShareCostBp) == FullBp(SumBy(lines, CostOf))
  {
    var groups := ModelGroups(lines);
    ModelListingSum(lines, CostOf, ShareCost);
    BpSum(ShareCosts(groups), 10_000, groups, ModelSharesOf(lines, totalTokens), ShareCost, ShareCostBp);
  }

  lemma ModelTokenShares(lines: seq<LineView>, totalTokens: nat)
    requires totalTokens == SumBy(lines, TokensOf)
    ensures SumBy(ModelSharesOf(lines, totalTokens), ShareTokenBp) == FullBp(totalTokens)
  {
    var groups := ModelGroups(lines);
    ModelListingSum(lines, TokensOf, ShareTokensOf);
    BpSum(ShareTokens(groups), FullBp(totalTokens), groups, ModelSharesOf(lines, totalTokens),
          ShareTokensOf, ShareTokenBp);
  }

  lemma BpSum(weights: seq<nat>, totalBp: nat, groups: seq<ModelShare>, shares: seq<ModelShare>,
              weight: ModelShare -> int, bp: ModelShare -> int)
    requires |weights| == |groups| == |shares|
    requires forall i :: 0 <= i < |weights| ==> weights[i] == weight(groups[i])
    requires forall i :: 0 <= i < |weights| ==> Shares(weights, totalBp)[i] == bp(shares[i])
    ensures SumBy(shares, bp) == if SumBy(groups, weight) == 0 then 0 else totalBp
  {
    SumOfField(weights, groups, weight);
    SharesClose(weights, totalBp);
    SumOfField(Shares(weights, totalBp), shares, bp);
  }

  lemma {:induction false} LinesOfAgentSum(lines: seq<LineView>, a: AgentKey, f: LineView -> int)
    ensures SumBy(LinesOfAgent(lines, a), f) == Group(lines, AgentOf, f, a)
    ensures forall x :: x in LinesOfAgent(lines, a) <==> x in lines && AgentOf(x) == a
  {
    if |lines| > 0 {
      var front, last := lines[..|lines| - 1], lines[|lines| - 1];
      LinesOfAgentSum(front, a, f);
      SumBySnoc(LinesOfAgent(front, a), last, f);
      assert lines == front + [last];
    }
  }

  /** Each agent's model mix closes with that agent's own cost and tokens. */
  lemma MixesConserve(lines: seq<LineView>, i: nat)
    requires i < |AgentsOf(lines)|
    ensures var agent, mix := AgentsOf(lines)[i], MixesOf(lines, AgentsOf(lines))[i];
            && mix.agent == agent.agent
            && SumBy(mix.models, ShareCost) == agent.cost
            && SumBy(mix.models, ShareTokensOf) == agent.tokens
            && SumBy(mix.models, ShareCostBp) == FullBp(agent.cost)
            && SumBy(mix.models, ShareTokenBp) == FullBp(agent.tokens)
  {
    var agent := AgentsOf(lines)[i];
    AgentsAreGroups(lines);
    assert agent in AgentsOf(lines);
    LinesOfAgentSum(lines, agent.agent, CostOf);
    LinesOfAgentSum(lines, agent.agent, TokensOf);
    ModelsConserve(LinesOfAgent(lines, agent.agent), agent.tokens);
    MixesAt(lines, AgentsOf(lines), i);
  }

  ghost predicate OneGroupPerAgent(agents: seq<AgentGroup>) {
    forall i, j :: 0 <= i < j < |agents| ==> agents[i].agent != agents[j].agent
  }

  lemma EachAgentOnce(lines: seq<LineView>)
    ensures OneGroupPerAgent(AgentsOf(lines))
  {
    forall i, j | 0 <= i < j < |AgentsOf(lines)| ensures AgentsOf(lines)[i].agent != AgentsOf(lines)[j].agent {
      AgentsInOrder(lines, i, j);
    }
  }

  /** Everything a statement shows adds up to one total, exact and displayed. */
  ghost predicate Closes(s: Statement) {
    && s.totalDisplayCents == HalfUpDiv(s.totalCost, MICROCENTS_PER_CENT)
    && SumBy(s.lines, CostOf) == SumBy(s.agents, AgentCost) == SumBy(s.modelMixTotal, ShareCost) == s.totalCost
    && SumBy(s.lines, TokensOf) == SumBy(s.agents, AgentTokens) == SumBy(s.modelMixTotal, ShareTokensOf)
        == s.stampedTokensTotal
    && SumBy(s.lines, CentsOf) == SumBy(s.agents, AgentCents) == s.totalDisplayCents
    && SumBy(s.agents, AgentBp) == SumBy(s.modelMixTotal, ShareCostBp) == FullBp(s.totalCost)
    && OneGroupPerAgent(s.agents)
  }

  /** The value half of a statement closes with the exact total and the displayed cents it is given. */
  lemma ProjectCloses(entries: seq<Entry>, traceCount: nat, cache: CacheSavings)
    ensures Closes(Project(LinesOf(entries), TotalCost(entries), DisplayTotal(LineCosts(entries)), traceCount, cache))
  {
    var lines := LinesOf(entries);
    LinesConserve(entries);
    LineCentsClose(entries);
    AgentsConserve(lines);
    EachAgentOnce(lines);
    SumByNonNegative(lines, TokensOf);
    ModelsConserve(lines, SumBy(lines, TokensOf));
  }

  /** Everything a month's statement shows adds up to what was stamped. */
  lemma StatementConserves(records: seq<UsageRecord>)
    ensures StatementOf(records).Some? ==>
              var s := StatementOf(records).value;
              && s.totalCost == SumBy(Entries(records), EntryCost)
              && s.stampedTokensTotal == SumBy(Entries(records), EntryTokens)
              && s.stampedTraceCount == |records|
              && s.agents == AgentsOf(s.lines) && s.modelMixTotal == ModelSharesOf(s.lines, s.stampedTokensTotal)
              && Closes(s)
  {
    if StatementOf(records).Some? {
      var cache := CacheSavingsOf(records).value;
      LinesConserve(Entries(records));
      ProjectCloses(Entries(records), |records|, cache);
    }
  }

  // ---------------------------------------------------------------- unit price check

  function One(e: Entry): int { 1 }

  function EntryGap(e: Entry): int { 1_000_000 * e.cost - e.tokens * e.key.price }

  ghost predicate FairlyPriced(e: Entry) {
    -500_000 <= EntryGap(e) <= 500_000
  }

  /** A line is as close to tokens times price as its stamps allow: half a micro-centavo each. */
  lemma {:induction false} LinePriceBound(entries: seq<Entry>, k: LineKey)
    requires forall e :: e in entries ==> FairlyPriced(e)
    ensures var gap := 1_000_000 * LineCost(entries, k) - LineTokens(entries, k) * k.price;
            var stamps := Group(entries, EntryKey, One, k);
            -500_000 * stamps <= gap <= 500_000 * stamps
  {
    if |entries| > 0 {
      var n := |entries| - 1;
      var last := entries[n];
      assert entries == entries[..n] + [last];
      LinePriceBound(entries[..n], k);
      GroupSnoc(entries[..n], last, EntryKey, EntryCost, k);
      GroupSnoc(entries[..n], last, EntryKey, EntryTokens, k);
      GroupSnoc(entries[..n], last, EntryKey, One, k);
      assert FairlyPriced(last);
      if last.key == k {
        assert (LineTokens(entries[..n], k) + last.tokens) * k.price
            == LineTokens(entries[..n], k) * k.price + last.tokens * k.price;
      }
    }
  }
}
