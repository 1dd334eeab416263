/**
 * statement-engine.ts: the accumulator. Its maps keep their keys in insertion order, and the
 * line objects it groups into are the very objects a statement returns.
 */
module StatementEngine {
  import opened Wrappers
  import opened Sums
  import opened Sorting
  import opened LargestRemainder
  import opened Money
  import opened StatementModel
  import opened StatementSpec
  import opened StatementTheorems

  /** Assert-safe running sum. */
  function AddMicrocents(current: nat, value: nat): (r: Result<nat, MoneyError>) {
    CheckedSum([current, value])
  }

  lemma AddMicrocentsFacts(current: nat, value: nat)
    requires IsSafe(current)
    ensures current + value <= MAX_SAFE ==> AddMicrocents(current, value) == Ok(current + value)
    ensures current + value > MAX_SAFE ==> AddMicrocents(current, value).Err?
  {
    var s: seq<int> := [current, value];
    assert s[0] == current && s[1] == value;
    assert s[..1] == [s[0]] && s[..0] == [];
    assert Sum(s[..1]) == Sum(s[..1][..0]) + s[0] && s[..1][..0] == [];
    assert Sum(s) == current + value;
  }

  // ---------------------------------------------------------------- shares

  method ShareBasisPoints(weights: seq<nat>, totalBp: nat) returns (shares: seq<nat>)
    ensures shares == Shares(weights, totalBp)
  {
    var total := SumLoop(weights);
    if total == 0 {
      return seq(|weights|, _ => 0);
    }
    var scaled := Scaled(weights, totalBp);
    var floors := Floors(scaled, total);
    var floorSum := SumLoop(floors);
    shares := RaiseLargest(floors, Remainders(scaled, total), totalBp as int - floorSum as int);
  }

  /** The `reduce` that adds a list up. */
  method SumLoop(values: seq<nat>) returns (total: nat)
    ensures total == Sum(values)
  {
    total := 0;
    for n := 0 to |values|
      invariant total == Sum(values[..n])
    {
      SumPrefix(values, n);
      total := total + values[n];
    }
    assert values[..|values|] == values;
  }

  // ---------------------------------------------------------------- agents

  /** What one more line does to one entry of an agent's type split. */
  lemma TypeEntrySnoc(lines: seq<LineView>, x: LineView, a: AgentKey, t: TokenType)
    ensures var before, after := TypeSplit(lines, a), TypeSplit(lines + [x], a);
            && (t in after <==> t in before || AgentTypeOf(x) == (a, t))
            && (t in after ==> after[t] == (if t in before then before[t] else 0)
                                           + if AgentTypeOf(x) == (a, t) then x.cost else 0)
  {
    EveryTokenType(t);
    ListingSnoc(lines, x, AgentTypeOf);
    GroupSnoc(lines, x, AgentTypeOf, CostOf, (a, t));
    if (a, t) !in Listing(lines, AgentTypeOf) {
      ListingFacts(lines, AgentTypeOf);
      GroupAbsent(lines, AgentTypeOf, CostOf, (a, t));
    }
  }

  lemma TypeSplitSnoc(lines: seq<LineView>, x: LineView, a: AgentKey)
    ensures TypeSplit(lines + [x], a) ==
            if AgentOf(x) != a then TypeSplit(lines, a)
            else
              var split, t := TypeSplit(lines, a), x.key.tokenType;
              split[t := (if t in split then split[t] else 0) + x.cost]
  {
    forall t { TypeEntrySnoc(lines, x, a, t); }
  }

  lemma EveryTokenType(t: TokenType)
    ensures t in ALL_TOKEN_TYPES
  {
    match t case Input => case Output => case CacheRead => case CacheWrite =>
  }

  /** A group before its first line. */
  function EmptyGroup(a: AgentKey): AgentGroup {
    AgentGroup(a, 0, 0, 0, 0, map[])
  }

  /** What the loop body makes of a group and one more line. */
  function AddLine(g: AgentGroup, x: LineView): AgentGroup {
    Grown(g, x, g.cost + x.cost, TypeCost(g, x.key.tokenType) + x.cost)
  }

  lemma AgentGroupSnoc(lines: seq<LineView>, x: LineView, a: AgentKey)
    ensures AgentGroupOf(lines + [x], a) ==
            if AgentOf(x) == a then AddLine(AgentGroupOf(lines, a), x) else AgentGroupOf(lines, a)
  {
    GroupSnoc(lines, x, AgentOf, TokensOf, a);
    GroupSnoc(lines, x, AgentOf, CostOf, a);
    GroupSnoc(lines, x, AgentOf, CentsOf, a);
    TypeSplitSnoc(lines, x, a);
  }

  lemma AgentAbsent(lines: seq<LineView>, a: AgentKey)
    requires a !in Listing(lines, AgentOf)
    ensures AgentGroupOf(lines, a) == EmptyGroup(a)
  {
    ListingFacts(lines, AgentOf);
    GroupAbsent(lines, AgentOf, TokensOf, a);
    GroupAbsent(lines, AgentOf, CostOf, a);
    GroupAbsent(lines, AgentOf, CentsOf, a);
    ListingFacts(lines, AgentTypeOf);
    assert forall t :: (a, t) !in Listing(lines, AgentTypeOf);
  }

  /** The loop state: the agents met so far, in order, and their groups. */
  ghost predicate AgentsHold(order: seq<AgentKey>, groups: map<AgentKey, AgentGroup>, lines: seq<LineView>) {
    && order == Listing(lines, AgentOf)
    && groups.Keys == Elements(order)
    && forall a :: a in groups ==> groups[a] == AgentGroupOf(lines, a)
  }

  lemma AgentsHoldSnoc(order: seq<AgentKey>, groups: map<AgentKey, AgentGroup>, lines: seq<LineView>, x: LineView)
    requires AgentsHold(order, groups, lines)
    ensures var a := AgentOf(x);
            var before := if a in groups then groups[a] else EmptyGroup(a);
            && AgentsHold(if a in groups then order else order + [a], groups[a := AddLine(before, x)], lines + [x])
            && before == AgentGroupOf(lines, a)
  {
    var a := AgentOf(x);
    ListingSnoc(lines, x, AgentOf);
    assert a in groups <==> a in order;
    if a !in groups {
      AgentAbsent(lines, a);
      assert Elements(order + [a]) == Elements(order) + {a};
    }
    forall b { AgentGroupSnoc(lines, x, b); }
  }

  lemma PrefixCostBelow(lines: seq<LineView>, n: nat)
    requires n <= |lines|
    ensures SumBy(lines[..n], CostOf) <= SumBy(lines, CostOf)
  {
    assert lines == lines[..n] + lines[n..];
    SumByConcat(lines[..n], lines[n..], CostOf);
    SumByNonNegative(lines[n..], CostOf);
  }

  /** What an agent's group already holds for the token type of `x`. */
  function TypeCost(g: AgentGroup, t: TokenType): nat {
    if t in g.costByTokenType then g.costByTokenType[t] else 0
  }

  /** No running sum of a group can leave the safe range once the total is inside it. */
  lemma AgentSumsSafe(lines: seq<LineView>, x: LineView, g: AgentGroup)
    requires SumBy(lines + [x], CostOf) <= MAX_SAFE && g == AgentGroupOf(lines, AgentOf(x))
    ensures AddMicrocents(g.cost, x.cost) == Ok(g.cost + x.cost)
    ensures AddMicrocents(TypeCost(g, x.key.tokenType), x.cost) == Ok(TypeCost(g, x.key.tokenType) + x.cost)
  {
    var a, t := AgentOf(x), x.key.tokenType;
    GroupNonNegative(lines + [x], AgentOf, CostOf, a);
    GroupNonNegative(lines + [x], AgentTypeOf, CostOf, (a, t));
    GroupSnoc(lines, x, AgentOf, CostOf, a);
    GroupSnoc(lines, x, AgentTypeOf, CostOf, (a, t));
    GroupNonNegative(lines, AgentTypeOf, CostOf, (a, t));
    AddMicrocentsFacts(g.cost, x.cost);
    AddMicrocentsFacts(TypeCost(g, t), x.cost);
  }

  /** The loop body on the agent's own group. */
  method GrowAgent(g: AgentGroup, ghost lines: seq<LineView>, line: LineView) returns (grown: AgentGroup)
    requires SumBy(lines + [line], CostOf) <= MAX_SAFE && g == AgentGroupOf(lines, AgentOf(line))
    ensures grown == AddLine(g, line)
  {
    AgentSumsSafe(lines, line, g);
    var cost := AddMicrocents(g.cost, line.cost);
    var typeCost := AddMicrocents(TypeCost(g, line.key.tokenType), line.cost);
    grown := Grown(g, line, cost.value, typeCost.value);
  }

  /** The loop body: one line into its agent's group. */
  method FoldAgentLine(order: seq<AgentKey>, groups: map<AgentKey, AgentGroup>, ghost lines: seq<LineView>,
                       line: LineView)
    returns (order': seq<AgentKey>, groups': map<AgentKey, AgentGroup>)
    requires AgentsHold(order, groups, lines)
    requires SumBy(lines + [line], CostOf) <= MAX_SAFE
    ensures AgentsHold(order', groups', lines + [line])
  {
    AgentsHoldSnoc(order, groups, lines, line);
    var a := AgentOf(line);
    var g := if a in groups then groups[a] else EmptyGroup(a);
    var grown := GrowAgent(g, lines, line);
    order' := if a in groups then order else order + [a];
    groups' := groups[a := grown];
  }

  /** The group after the loop body's assignments. */
  function Grown(g: AgentGroup, x: LineView, cost: nat, typeCost: nat): AgentGroup {
    g.(tokens := g.tokens + x.tokens, cost := cost, displayCents := g.displayCents + x.displayCents,
       costByTokenType := g.costByTokenType[x.key.tokenType := typeCost])
  }

  /** The values of the agent map, in insertion order. */
  method AgentValues(order: seq<AgentKey>, groups: map<AgentKey, AgentGroup>, ghost lines: seq<LineView>)
    returns (listing: seq<AgentGroup>)
    requires AgentsHold(order, groups, lines)
    ensures listing == AgentListing(lines)
  {
    assert forall i :: 0 <= i < |order| ==> order[i] in Elements(order);
    listing := seq(|order|, i requires 0 <= i < |order| && order[i] in groups => groups[order[i]]);
  }

  /** The caller has already checked that the line costs sum to a safe integer. */
  method BuildAgentGroups(lines: seq<LineView>) returns (agents: seq<AgentGroup>)
    requires SumBy(lines, CostOf) <= MAX_SAFE
    ensures agents == AgentsOf(lines)
  {
    var order: seq<AgentKey>, groups: map<AgentKey, AgentGroup> := [], map[];
    for n := 0 to |lines|
      invariant AgentsHold(order, groups, lines[..n])
    {
      assert lines[..n + 1] == lines[..n] + [lines[n]];
      PrefixCostBelow(lines, n + 1);
      order, groups := FoldAgentLine(order, groups, lines[..n], lines[n]);
    }
    assert lines[..|lines|] == lines;
    var listing := AgentValues(order, groups, lines);
    var sorted := Sort(listing, AgentLess);
    var shares := ShareBasisPoints(GroupCosts(sorted), 10_000);
    agents := seq(|sorted|, i requires 0 <= i < |sorted| => sorted[i].(percentOfTotalBp := shares[i]));
  }

  // ---------------------------------------------------------------- models

  lemma ModelShareSnoc(lines: seq<LineView>, x: LineView, m: Text)
    ensures ModelShareOf(lines + [x], m) ==
            var s := ModelShareOf(lines, m);
            if ModelOf(x) == m then s.(tokens := s.tokens + x.tokens, cost := s.cost + x.cost) else s
  {
    GroupSnoc(lines, x, ModelOf, TokensOf, m);
    GroupSnoc(lines, x, ModelOf, CostOf, m);
  }

  ghost predicate ModelsHold(order: seq<Text>, byModel: map<Text, ModelShare>, lines: seq<LineView>) {
    && order == Listing(lines, ModelOf)
    && byModel.Keys == Elements(order)
    && forall m :: m in byModel ==> byModel[m] == ModelShareOf(lines, m)
  }

  lemma ModelAbsent(lines: seq<LineView>, m: Text)
    requires m !in Listing(lines, ModelOf)
    ensures ModelShareOf(lines, m) == ModelShare(m, 0, 0, 0, 0)
  {
    ListingFacts(lines, ModelOf);
    GroupAbsent(lines, ModelOf, TokensOf, m);
    GroupAbsent(lines, ModelOf, CostOf, m);
  }

  lemma ModelsHoldSnoc(order: seq<Text>, byModel: map<Text, ModelShare>, lines: seq<LineView>, x: LineView)
    requires ModelsHold(order, byModel, lines)
    ensures var m := ModelOf(x);
            var s := if m in byModel then byModel[m] else ModelShare(m, 0, 0, 0, 0);
            && ModelsHold(if m in byModel then order else order + [m],
                          byModel[m := s.(tokens := s.tokens + x.tokens, cost := s.cost + x.cost)], lines + [x])
            && s == ModelShareOf(lines, m)
  {
    var m := ModelOf(x);
    ListingSnoc(lines, x, ModelOf);
    assert m in byModel <==> m in order;
    if m !in byModel {
      ModelAbsent(lines, m);
      assert Elements(order + [m]) == Elements(order) + {m};
    }
    forall k { ModelShareSnoc(lines, x, k); }
  }

  lemma ModelSumSafe(lines: seq<LineView>, x: LineView)
    requires SumBy(lines + [x], CostOf) <= MAX_SAFE
    ensures var s := ModelShareOf(lines, ModelOf(x));
            AddMicrocents(s.cost, x.cost) == Ok(s.cost + x.cost)
  {
    GroupNonNegative(lines + [x], ModelOf, CostOf, ModelOf(x));
    GroupSnoc(lines, x, ModelOf, CostOf, ModelOf(x));
    AddMicrocentsFacts(ModelShareOf(lines, ModelOf(x)).cost, x.cost);
  }

  method FoldModelLine(order: seq<Text>, byModel: map<Text, ModelShare>, ghost lines: seq<LineView>, line: LineView)
    returns (order': seq<Text>, byModel': map<Text, ModelShare>)
    requires ModelsHold(order, byModel, lines)
    requires SumBy(lines + [line], CostOf) <= MAX_SAFE
    ensures ModelsHold(order', byModel', lines + [line])
  {
    ModelsHoldSnoc(order, byModel, lines, line);
    ModelSumSafe(lines, line);
    var m := ModelOf(line);
    var share := if m in byModel then byModel[m] else ModelShare(m, 0, 0, 0, 0);
    var cost := AddMicrocents(share.cost, line.cost);
    order' := if m in byModel then order else order + [m];
    byModel' := byModel[m := share.(tokens := share.tokens + line.tokens, cost := cost.value)];
  }

  method ModelValues(order: seq<Text>, byModel: map<Text, ModelShare>, ghost lines: seq<LineView>)
    returns (listing: seq<ModelShare>)
    requires ModelsHold(order, byModel, lines)
    ensures Sort(listing, ShareLess) == ModelGroups(lines)
  {
    assert forall i :: 0 <= i < |order| ==> order[i] in Elements(order);
    listing := seq(|order|, i requires 0 <= i < |order| && order[i] in byModel => byModel[order[i]]);
    assert listing == seq(|order|, i requires 0 <= i < |order| => ModelShareOf(lines, order[i]));
  }

  method BuildModelShares(lines: seq<LineView>, totalTokens: nat) returns (shares: seq<ModelShare>)
    requires SumBy(lines, CostOf) <= MAX_SAFE
    ensures shares == ModelSharesOf(lines, totalTokens)
  {
    var order: seq<Text>, byModel: map<Text, ModelShare> := [], map[];
    for n := 0 to |lines|
      invariant ModelsHold(order, byModel, lines[..n])
    {
      assert lines[..n + 1] == lines[..n] + [lines[n]];
      PrefixCostBelow(lines, n + 1);
      order, byModel := FoldModelLine(order, byModel, lines[..n], lines[n]);
    }
    assert lines[..|lines|] == lines;
    var listing := ModelValues(order, byModel, lines);
    var sorted := Sort(listing, ShareLess);
    var costBp := ShareBasisPoints(ShareCosts(sorted), 10_000);
    var tokenBp := ShareBasisPoints(ShareTokens(sorted), if totalTokens == 0 then 0 else 10_000);
    shares := seq(|sorted|, i requires 0 <= i < |sorted| =>
      sorted[i].(costShareBp := costBp[i], tokenShareBp := tokenBp[i]));
  }

  lemma AgentCostBelow(lines: seq<LineView>, a: AgentKey)
    ensures SumBy(LinesOfAgent(lines, a), CostOf) <= SumBy(lines, CostOf)
  {
    LinesOfAgentSum(lines, a, CostOf);
    GroupNonNegative(lines, AgentOf, CostOf, a);
  }

  method BuildMix(lines: seq<LineView>, agent: AgentGroup) returns (mix: AgentModelMix)
    requires SumBy(lines, CostOf) <= MAX_SAFE
    ensures mix == MixOf(lines, agent)
  {
    AgentCostBelow(lines, agent.agent);
    var models := BuildModelShares(LinesOfAgent(lines, agent.agent), agent.tokens);
    var blended := if agent.tokens > 0 then Some(HalfUpDiv(agent.cost * 1_000_000, agent.tokens)) else None;
    mix := AgentModelMix(agent.agent, models, blended);
  }

  lemma MixesSnoc(lines: seq<LineView>, agents: seq<AgentGroup>, n: nat)
    requires n < |agents|
    ensures MixesOf(lines, agents[..n + 1]) == MixesOf(lines, agents[..n]) + [MixOf(lines, agents[n])]
  {
    assert agents[..n + 1][..n] == agents[..n];
  }

  method BuildModelMixByAgent(lines: seq<LineView>, agents: seq<AgentGroup>) returns (mixes: seq<AgentModelMix>)
    requires SumBy(lines, CostOf) <= MAX_SAFE
    ensures mixes == MixesOf(lines, agents)
  {
    mixes := [];
    for n := 0 to |agents|
      invariant mixes == MixesOf(lines, agents[..n])
    {
      MixesSnoc(lines, agents, n);
      var mix := BuildMix(lines, agents[n]);
      mixes := mixes + [mix];
    }
    assert agents[..|agents|] == agents;
  }

  // ---------------------------------------------------------------- cache savings

  lemma {:induction false} BucketCostsFacts(items: seq<Counterfactual>, prices: seq<nat>)
    ensures BucketCosts(items, prices).Some? <==>
            forall p :: p in prices ==> CostMicrocents(BucketTokens(items, p), p).Ok?
    ensures BucketCosts(items, prices).Some? ==>
              && Sum(BucketCosts(items, prices).value) == SumBy(prices, BucketPrice(items))
              && forall i :: 0 <= i < |prices| ==> IsSafe(BucketCosts(items, prices).value[i])
  {
    if |prices| > 0 {
      var n := |prices| - 1;
      assert prices == prices[..n] + [prices[n]];
      BucketCostsFacts(items, prices[..n]);
      if BucketCosts(items, prices).Some? {
        SumSnoc(BucketCosts(items, prices[..n]).value, BucketPrice(items)(prices[n]));
      }
    }
  }

  /** A bucket's cost, or zero when it has none. */
  function BucketPrice(items: seq<Counterfactual>): nat -> int {
    (p: nat) =>
      var cost := CostMicrocents(BucketTokens(items, p), p);
      if cost.Ok? then cost.value else 0
  }

  /** The counterfactual total does not depend on the order in which the buckets are priced. */
  lemma BucketOrderIrrelevant(items: seq<Counterfactual>, p: seq<nat>, q: seq<nat>)
    requires multiset(p) == multiset(q)
    ensures BucketCosts(items, p).None? <==> BucketCosts(items, q).None?
    ensures BucketCosts(items, p).Some? ==>
              CheckedSum(BucketCosts(items, p).value) == CheckedSum(BucketCosts(items, q).value)
  {
    BucketCostsFacts(items, p);
    BucketCostsFacts(items, q);
    SameMembers(p, q);
    SumByPermutation(p, q, BucketPrice(items));
  }

  lemma BucketCostsSnoc(items: seq<Counterfactual>, prices: seq<nat>, p: nat)
    ensures BucketCosts(items, prices + [p]) ==
            var front, last := BucketCosts(items, prices), CostMicrocents(BucketTokens(items, p), p);
            if front.None? || last.Err? then None else Some(front.value + [last.value])
  {
    assert (prices + [p])[..|prices|] == prices;
  }

  ghost predicate BucketsHold(prices: seq<nat>, buckets: map<nat, nat>, items: seq<Counterfactual>) {
    && prices == Listing(items, PriceOf)
    && buckets.Keys == Elements(prices)
    && forall p :: p in buckets ==> buckets[p] == BucketTokens(items, p)
  }

  lemma BucketsHoldSnoc(prices: seq<nat>, buckets: map<nat, nat>, items: seq<Counterfactual>, item: Counterfactual)
    requires BucketsHold(prices, buckets, items)
    ensures BucketsHold(if item.price in buckets then prices else prices + [item.price],
                        buckets[item.price := (if item.price in buckets then buckets[item.price] else 0) + item.tokens],
                        items + [item])
  {
    var p := item.price;
    ListingSnoc(items, item, PriceOf);
    assert p in buckets <==> p in prices;
    if p !in buckets {
      ListingFacts(items, PriceOf);
      GroupAbsent(items, PriceOf, CounterfactualTokens, p);
      assert Elements(prices + [p]) == Elements(prices) + {p};
    }
    forall q: nat
      ensures BucketTokens(items + [item], q) == BucketTokens(items, q) + if q == p then item.tokens else 0
    {
      GroupSnoc(items, item, PriceOf, CounterfactualTokens, q);
    }
  }

  /** Pricing the buckets in any order gives the specified counterfactual. */
  lemma CounterfactualInAnyOrder(items: seq<Counterfactual>)
    ensures var costs := BucketCosts(items, Listing(items, PriceOf));
            CounterfactualCost(items) ==
            if costs.None? then None
            else if CheckedSum(costs.value).Err? then None else Some(CheckedSum(costs.value).value)
  {
    var prices := Listing(items, PriceOf);
    SortElements(prices, NatLess);
    BucketOrderIrrelevant(items, prices, Sort(prices, NatLess));
  }

  class CacheSavingsFold {
    var cacheReadTokens: nat
    var actualCacheReadCost: nat
    var cacheWriteCost: nat
    var unpriceable: nat
    var prices: seq<nat>
    var buckets: map<nat, nat>

    ghost predicate WritesFold(records: seq<UsageRecord>)
      reads this`cacheWriteCost
    {
      cacheWriteCost == SumBy(records, WriteCost) <= MAX_SAFE
    }

    ghost predicate ReadsFold(records: seq<UsageRecord>)
      reads this`cacheReadTokens, this`actualCacheReadCost, this`unpriceable, this`prices, this`buckets
    {
      && cacheReadTokens == SumBy(records, ReadTokens)
      && actualCacheReadCost == SumBy(records, ReadCost) <= MAX_SAFE
      && unpriceable == SumBy(records, Unpriceable)
      && BucketsHold(prices, buckets, Counterfactuals(records))
    }

    /** The counters and buckets are those of `records`. */
    ghost predicate Folds(records: seq<UsageRecord>)
      reads this
    {
      WritesFold(records) && ReadsFold(records)
    }

    constructor ()
      ensures Folds([])
    {
      cacheReadTokens, actualCacheReadCost, cacheWriteCost, unpriceable := 0, 0, 0, 0;
      prices, buckets := [], map[];
    }

    /** Adds one record; false when a running sum leaves the safe range. */
    method Add(record: UsageRecord, ghost records: seq<UsageRecord>) returns (ok: bool)
      requires Folds(records)
      modifies this
      ensures ok ==> Folds(records + [record])
      ensures !ok ==> SumBy(records + [record], WriteCost) > MAX_SAFE
                      || SumBy(records + [record], ReadCost) > MAX_SAFE
    {
      var write := FirstOf(record.stampedCosts, CacheWrite);
      SumBySnoc(records, record, WriteCost);
      if write.Some? {
        AddMicrocentsFacts(cacheWriteCost, write.value.cost);
        var sum := AddMicrocents(cacheWriteCost, write.value.cost);
        if sum.Err? { return false; }
        cacheWriteCost := sum.value;
      }
      ok := AddRead(record, records);
    }

    /** The cache-read half of `Add`: nothing to do without cache reads, and reads without an
        input price on the same trace are only counted. */
    method AddRead(record: UsageRecord, ghost records: seq<UsageRecord>) returns (ok: bool)
      requires ReadsFold(records)
      modifies this`cacheReadTokens, this`actualCacheReadCost, this`unpriceable, this`prices, this`buckets
      ensures ok ==> ReadsFold(records + [record])
      ensures !ok ==> SumBy(records + [record], ReadCost) > MAX_SAFE
    {
      var read := FirstOf(record.stampedCosts, CacheRead);
      var input := FirstOf(record.stampedCosts, Input);
      SumBySnoc(records, record, ReadTokens);
      SumBySnoc(records, record, ReadCost);
      SumBySnoc(records, record, Unpriceable);
      FlatMapSnoc(records, record, CounterfactualsOf);
      ghost var items := Counterfactuals(records);
      assert items + [] == items;
      if read.None? || read.value.tokens == 0 {
        return true;
      }
      cacheReadTokens := cacheReadTokens + read.value.tokens;
      AddMicrocentsFacts(actualCacheReadCost, read.value.cost);
      var sum := AddMicrocents(actualCacheReadCost, read.value.cost);
      if sum.Err? { return false; }
      actualCacheReadCost := sum.value;
      if input.None? {
        unpriceable := unpriceable + 1;
        return true;
      }
      BucketsHoldSnoc(prices, buckets, items, Counterfactual(input.value.price, read.value.tokens));
      var p := input.value.price;
      var before := if p in buckets then buckets[p] else 0;
      prices := if p in buckets then prices else prices + [p];
      buckets := buckets[p := before + read.value.tokens];
      return true;
    }

    /** The cost of every bucket in insertion order; None when one leaves the safe range. */
    method PriceBuckets(ghost items: seq<Counterfactual>) returns (r: Option<seq<nat>>)
      requires BucketsHold(prices, buckets, items)
      ensures r == BucketCosts(items, prices)
    {
      assert forall i :: 0 <= i < |prices| ==> prices[i] in Elements(prices);
      var costs: seq<nat> := [];
      for n := 0 to |prices|
        invariant BucketCosts(items, prices[..n]) == Some(costs)
      {
        var p := prices[n];
        var cost := CostMicrocents(buckets[p], p);
        assert prices[..n + 1] == prices[..n] + [p];
        BucketCostsSnoc(items, prices[..n], p);
        if cost.Err? {
          assert p in prices;
          BucketCostsFacts(items, prices);
          return None;
        }
        costs := costs + [cost.value];
      }
      assert prices[..|prices|] == prices;
      return Some(costs);
    }

    /** `sumMicrocents` over the priced buckets. */
    method CounterfactualTotal(ghost items: seq<Counterfactual>) returns (r: Option<nat>)
      requires BucketsHold(prices, buckets, items)
      ensures r == CounterfactualCost(items)
    {
      CounterfactualInAnyOrder(items);
      var costs := PriceBuckets(items);
      if costs.None? {
        return None;
      }
      var sum := SumMicrocents(costs.value);
      return if sum.Err? then None else Some(sum.value);
    }

    /** Prices each bucket once and derives the savings; None when an amount leaves the safe range. */
    method Finish(ghost records: seq<UsageRecord>) returns (r: Option<CacheSavings>)
      requires Folds(records)
      ensures r == CacheSavingsOf(records)
    {
      var counterfactual := CounterfactualTotal(Counterfactuals(records));
      if counterfactual.None? {
        return None;
      }
      var savings := counterfactual.value - actualCacheReadCost;
      return Some(CacheSavings(cacheReadTokens, actualCacheReadCost, counterfactual.value, savings,
                               cacheWriteCost, savings - cacheWriteCost, unpriceable));
    }
  }
}
