/** What the statement engine computes, as a function of the folded records alone. */
module StatementSpec {
  import opened Wrappers
  import opened Sums
  import opened Sorting
  import opened LargestRemainder
  import opened Money
  import opened StatementModel

  // ---------------------------------------------------------------- entries

  /** One stamped cost together with the line it belongs to. */
  datatype Entry = Entry(key: LineKey, tokens: nat, cost: nat)

  function EntryKey(e: Entry): LineKey { e.key }
  function EntryTokens(e: Entry): int { e.tokens }
  function EntryCost(e: Entry): int { e.cost }

  function EntryOf(r: UsageRecord, c: StampedCost): Entry {
    Entry(LineKey(r.agentId, r.agentVersion, r.model, c.tokenType, c.price, c.effectiveFrom), c.tokens, c.cost)
  }

  function EntriesOf(r: UsageRecord): (es: seq<Entry>)
    ensures |es| == |r.stampedCosts|
  {
    seq(|r.stampedCosts|, i requires 0 <= i < |r.stampedCosts| => EntryOf(r, r.stampedCosts[i]))
  }

  function Entries(records: seq<UsageRecord>): seq<Entry> {
    FlatMap(records, EntriesOf)
  }

  function LineTokens(entries: seq<Entry>, k: LineKey): nat {
    GroupNonNegative(entries, EntryKey, EntryTokens, k);
    Group(entries, EntryKey, EntryTokens, k)
  }

  function LineCost(entries: seq<Entry>, k: LineKey): nat {
    GroupNonNegative(entries, EntryKey, EntryCost, k);
    Group(entries, EntryKey, EntryCost, k)
  }

  function TotalCost(entries: seq<Entry>): nat {
    SumByNonNegative(entries, EntryCost);
    SumBy(entries, EntryCost)
  }

  lemma FourTypes(f: TokenType -> int)
    ensures SumBy(TOKEN_TYPES, f) == f(Input) + f(Output) + f(CacheRead) + f(CacheWrite)
  {
    assert TOKEN_TYPES == [] + [Input] + [Output] + [CacheRead] + [CacheWrite];
    SumBySnoc([], Input, f);
    SumBySnoc([] + [Input], Output, f);
    SumBySnoc([] + [Input] + [Output], CacheRead, f);
    SumBySnoc([] + [Input] + [Output] + [CacheRead], CacheWrite, f);
  }

  // ---------------------------------------------------------------- lines

  /** The distinct line keys in statement order. */
  function SortedKeys(entries: seq<Entry>): seq<LineKey> {
    Sort(Listing(entries, EntryKey), LineLess)
  }

  function LineCosts(entries: seq<Entry>): (costs: seq<nat>)
    ensures |costs| == |SortedKeys(entries)|
  {
    var ks := SortedKeys(entries);
    seq(|ks|, i requires 0 <= i < |ks| => LineCost(entries, ks[i]))
  }

  function LinesOf(entries: seq<Entry>): (lines: seq<LineView>)
    ensures |lines| == |SortedKeys(entries)|
    ensures forall i :: 0 <= i < |lines| ==> lines[i].key == SortedKeys(entries)[i]
  {
    var ks, cents := SortedKeys(entries), DisplayParts(LineCosts(entries));
    seq(|ks|, i requires 0 <= i < |ks| =>
      LineView(ks[i], LineTokens(entries, ks[i]), LineCost(entries, ks[i]), cents[i]))
  }

  lemma SortedKeysFacts(entries: seq<Entry>)
    ensures StrictlySorted(SortedKeys(entries), LineLess)
    ensures NoRepeats(SortedKeys(entries))
    ensures forall k :: k in SortedKeys(entries) <==> exists e :: e in entries && e.key == k
  {
    var ks := Listing(entries, EntryKey);
    ListingFacts(entries, EntryKey);
    LinesOrdered(Elements(ks));
    SortSorts(ks, LineLess);
    SortElements(ks, LineLess);
    SortedDistinct(SortedKeys(entries), LineLess);
    forall k ensures k in SortedKeys(entries) <==> exists e :: e in entries && e.key == k {
      assert k in SortedKeys(entries) <==> k in Elements(ks);
      if e :| e in entries && e.key == k {
        assert EntryKey(e) in ks;
      }
    }
  }

  // ---------------------------------------------------------------- basis points

  /** Largest-remainder basis points over exact weights. */
  function Shares(weights: seq<nat>, totalBp: nat): (shares: seq<nat>)
    ensures |shares| == |weights|
  {
    SumNonNegative(weights);
    var total: nat := Sum(weights);
    if total == 0 then seq(|weights|, _ => 0)
    else
      var scaled := Scaled(weights, totalBp);
      var floors := Floors(scaled, total);
      var deficit := totalBp - Sum(floors);
      if deficit < 0 then floors else Allocation(floors, Remainders(scaled, total), deficit)
  }

  function Scaled(weights: seq<nat>, factor: nat): (r: seq<nat>)
    ensures |r| == |weights| && forall i :: 0 <= i < |r| ==> r[i] == weights[i] * factor
  {
    seq(|weights|, i requires 0 <= i < |weights| => weights[i] * factor)
  }

  lemma {:induction false} ScaledSum(weights: seq<nat>, factor: nat)
    ensures Sum(Scaled(weights, factor)) == Sum(weights) * factor
  {
    var n := |weights|;
    if n > 0 {
      ScaledSum(weights[..n - 1], factor);
      assert Scaled(weights, factor)[..n - 1] == Scaled(weights[..n - 1], factor);
      assert (Sum(weights[..n - 1]) + weights[n - 1]) * factor
          == Sum(weights[..n - 1]) * factor + weights[n - 1] * factor;
    }
  }

  lemma {:induction false} ZeroWeights(n: nat)
    ensures Sum(seq(n, _ => 0)) == 0
  {
    if n > 0 {
      ZeroWeights(n - 1);
      assert seq(n, _ => 0)[..n - 1] == seq(n - 1, _ => 0);
    }
  }

  /** Basis points close at exactly `totalBp` unless every weight is zero. */
  lemma SharesClose(weights: seq<nat>, totalBp: nat)
    ensures Sum(Shares(weights, totalBp)) == if Sum(weights) == 0 then 0 else totalBp
  {
    SumNonNegative(weights);
    if Sum(weights) == 0 {
      ZeroWeights(|weights|);
    } else {
      SharesAreLargestRemainder(weights, totalBp, Sum(weights), Scaled(weights, totalBp),
                                Floors(Scaled(weights, totalBp), Sum(weights)),
                                Remainders(Scaled(weights, totalBp), Sum(weights)));
    }
  }

  /** Basis points are the largest-remainder allocation over the exact scaled weights. */
  lemma SharesAreLargestRemainder(weights: seq<nat>, totalBp: nat, total: nat,
                                  scaled: seq<nat>, floors: seq<nat>, rems: seq<nat>)
    requires total == Sum(weights) > 0 && scaled == Scaled(weights, totalBp)
    requires floors == Floors(scaled, total) && rems == Remainders(scaled, total)
    ensures totalBp >= Sum(floors)
    ensures IsLargestRemainder(floors, rems, totalBp - Sum(floors), Shares(weights, totalBp))
    ensures Raised(floors, Shares(weights, totalBp)) <= Positive(rems)
    ensures Sum(Shares(weights, totalBp)) == totalBp
  {
    ScaledSum(weights, totalBp);
    AllocationCloses(scaled, total, totalBp, floors, rems, Shares(weights, totalBp));
  }

  // ---------------------------------------------------------------- agents and models

  function AgentOf(line: LineView): AgentKey { AgentKey(line.key.agentId, line.key.agentVersion) }
  function ModelOf(line: LineView): Text { line.key.model }
  function AgentTypeOf(line: LineView): (AgentKey, TokenType) { (AgentOf(line), line.key.tokenType) }
  function CostOf(line: LineView): int { line.cost }
  function TokensOf(line: LineView): int { line.tokens }
  function CentsOf(line: LineView): int { line.displayCents }

  const ALL_TOKEN_TYPES: set<TokenType> := {Input, Output, CacheRead, CacheWrite}

  function NatGroup<K(==)>(lines: seq<LineView>, key: LineView -> K, f: LineView -> int, k: K): (n: nat)
    requires forall line :: line in lines ==> f(line) >= 0
    ensures n == Group(lines, key, f, k)
  {
    GroupNonNegative(lines, key, f, k);
    Group(lines, key, f, k)
  }

  /** An agent's cost split by token type; a type no line of the agent has is absent. */
  function TypeSplit(lines: seq<LineView>, a: AgentKey): map<TokenType, nat> {
    map t | t in ALL_TOKEN_TYPES && (a, t) in Listing(lines, AgentTypeOf)
         :: NatGroup(lines, AgentTypeOf, CostOf, (a, t))
  }

  /** An agent's group before its share is known. */
  function AgentGroupOf(lines: seq<LineView>, a: AgentKey): AgentGroup {
    AgentGroup(a, NatGroup(lines, AgentOf, TokensOf, a), NatGroup(lines, AgentOf, CostOf, a),
               NatGroup(lines, AgentOf, CentsOf, a), 0, TypeSplit(lines, a))
  }

  function AgentGroups(lines: seq<LineView>): seq<AgentGroup> {
    var ks := Listing(lines, AgentOf);
    Sort(seq(|ks|, i requires 0 <= i < |ks| => AgentGroupOf(lines, ks[i])), AgentLess)
  }

  function GroupCosts(groups: seq<AgentGroup>): (costs: seq<nat>)
    ensures |costs| == |groups|
  {
    seq(|groups|, i requires 0 <= i < |groups| => groups[i].cost)
  }

  function WithShares(groups: seq<AgentGroup>): (r: seq<AgentGroup>)
    ensures |r| == |groups|
  {
    var bp := Shares(GroupCosts(groups), 10_000);
    seq(|groups|, i requires 0 <= i < |groups| => groups[i].(percentOfTotalBp := bp[i]))
  }

  function AgentsOf(lines: seq<LineView>): seq<AgentGroup> {
    WithShares(AgentGroups(lines))
  }

  function ModelShareOf(lines: seq<LineView>, m: Text): ModelShare {
    ModelShare(m, NatGroup(lines, ModelOf, TokensOf, m), NatGroup(lines, ModelOf, CostOf, m), 0, 0)
  }

  function ModelGroups(lines: seq<LineView>): seq<ModelShare> {
    var ks := Listing(lines, ModelOf);
    Sort(seq(|ks|, i requires 0 <= i < |ks| => ModelShareOf(lines, ks[i])), ShareLess)
  }

  function ShareCosts(shares: seq<ModelShare>): (r: seq<nat>)
    ensures |r| == |shares|
  {
    seq(|shares|, i requires 0 <= i < |shares| => shares[i].cost)
  }

  function ShareTokens(shares: seq<ModelShare>): (r: seq<nat>)
    ensures |r| == |shares|
  {
    seq(|shares|, i requires 0 <= i < |shares| => shares[i].tokens)
  }

  function ModelSharesOf(lines: seq<LineView>, totalTokens: nat): seq<ModelShare> {
    var groups := ModelGroups(lines);
    var costBp := Shares(ShareCosts(groups), 10_000);
    var tokenBp := Shares(ShareTokens(groups), if totalTokens == 0 then 0 else 10_000);
    seq(|groups|, i requires 0 <= i < |groups| =>
      groups[i].(costShareBp := costBp[i], tokenShareBp := tokenBp[i]))
  }

  function ByAgent(a: AgentKey): LineView -> bool {
    (line: LineView) => AgentOf(line) == a
  }

  function LinesOfAgent(lines: seq<LineView>, a: AgentKey): seq<LineView> {
    Filter(lines, ByAgent(a))
  }

  function MixOf(lines: seq<LineView>, agent: AgentGroup): AgentModelMix {
    AgentModelMix(agent.agent, ModelSharesOf(LinesOfAgent(lines, agent.agent), agent.tokens),
                  if agent.tokens > 0 then Some(HalfUpDiv(agent.cost * 1_000_000, agent.tokens)) else None)
  }

  function MixesOf(lines: seq<LineView>, agents: seq<AgentGroup>): (mixes: seq<AgentModelMix>)
    ensures |mixes| == |agents|
  {
    if |agents| == 0 then []
    else MixesOf(lines, agents[..|agents| - 1]) + [MixOf(lines, agents[|agents| - 1])]
  }

  lemma {:induction false} MixesAt(lines: seq<LineView>, agents: seq<AgentGroup>, i: nat)
    requires i < |agents|
    ensures MixesOf(lines, agents)[i] == MixOf(lines, agents[i])
  {
    if i < |agents| - 1 {
      MixesAt(lines, agents[..|agents| - 1], i);
    }
  }

  // ---------------------------------------------------------------- cache savings

  function FirstOf(costs: seq<StampedCost>, t: TokenType): Option<StampedCost> {
    if |costs| == 0 then None
    else if costs[0].tokenType == t then Some(costs[0])
    else FirstOf(costs[1..], t)
  }

  predicate ReadsCache(r: UsageRecord) {
    FirstOf(r.stampedCosts, CacheRead).Some? && FirstOf(r.stampedCosts, CacheRead).value.tokens > 0
  }

  function ReadTokens(r: UsageRecord): int {
    if ReadsCache(r) then FirstOf(r.stampedCosts, CacheRead).value.tokens else 0
  }

  function ReadCost(r: UsageRecord): int {
    if ReadsCache(r) then FirstOf(r.stampedCosts, CacheRead).value.cost else 0
  }

  function WriteCost(r: UsageRecord): int {
    if FirstOf(r.stampedCosts, CacheWrite).Some? then FirstOf(r.stampedCosts, CacheWrite).value.cost else 0
  }

  function Unpriceable(r: UsageRecord): int {
    if ReadsCache(r) && FirstOf(r.stampedCosts, Input).None? then 1 else 0
  }

  /** Cache-read tokens to be priced at one applied input price. */
  datatype Counterfactual = Counterfactual(price: nat, tokens: nat)

  function PriceOf(c: Counterfactual): nat { c.price }
  function CounterfactualTokens(c: Counterfactual): int { c.tokens }

  function CounterfactualsOf(r: UsageRecord): seq<Counterfactual> {
    if ReadsCache(r) && FirstOf(r.stampedCosts, Input).Some?
    then [Counterfactual(FirstOf(r.stampedCosts, Input).value.price, ReadTokens(r))]
    else []
  }

  function Counterfactuals(records: seq<UsageRecord>): seq<Counterfactual> {
    FlatMap(records, CounterfactualsOf)
  }

  function BucketTokens(items: seq<Counterfactual>, price: nat): nat {
    GroupNonNegative(items, PriceOf, CounterfactualTokens, price);
    Group(items, PriceOf, CounterfactualTokens, price)
  }

  predicate NatLess(a: nat, b: nat) { a < b }

  /** One cost per bucket, priced once; None when some bucket's cost leaves the safe range. */
  function BucketCosts(items: seq<Counterfactual>, prices: seq<nat>): (r: Option<seq<nat>>)
    ensures r.Some? ==> |r.value| == |prices|
  {
    if |prices| == 0 then Some([])
    else
      var n := |prices| - 1;
      var front := BucketCosts(items, prices[..n]);
      var last := CostMicrocents(BucketTokens(items, prices[n]), prices[n]);
      if front.None? || last.Err? then None else Some(front.value + [last.value])
  }

  function CounterfactualCost(items: seq<Counterfactual>): Option<nat> {
    var costs := BucketCosts(items, Sort(Listing(items, PriceOf), NatLess));
    if costs.None? then None
    else
      var sum := CheckedSum(costs.value);
      if sum.Err? then None else Some(sum.value)
  }

  function NatSum(records: seq<UsageRecord>, f: UsageRecord -> int): (n: nat)
    requires forall r :: r in records ==> f(r) >= 0
    ensures n == SumBy(records, f)
  {
    SumByNonNegative(records, f);
    SumBy(records, f)
  }

  function CacheSavingsOf(records: seq<UsageRecord>): Option<CacheSavings> {
    var counterfactual := CounterfactualCost(Counterfactuals(records));
    if counterfactual.None? then None
    else
      var read, write := NatSum(records, ReadCost), NatSum(records, WriteCost);
      Some(CacheSavings(NatSum(records, ReadTokens), read, counterfactual.value,
                        counterfactual.value - read, write, counterfactual.value - read - write,
                        NatSum(records, Unpriceable)))
  }

  // ---------------------------------------------------------------- the statement

  function VersionOf(e: Entry): PriceVersionKey {
    PriceVersionKey(e.key.model, e.key.tokenType, e.key.price, e.key.effectiveFrom)
  }

  function PriceVersionsOf(entries: seq<Entry>): seq<PriceVersionKey> {
    Sort(Listing(entries, VersionOf), PriceVersionLess)
  }

  function Project(
    lines: seq<LineView>, totalCost: nat, totalCents: nat, traceCount: nat, cache: CacheSavings): Statement
  {
    SumByNonNegative(lines, TokensOf);
    var tokens: nat := SumBy(lines, TokensOf);
    var agents := AgentsOf(lines);
    Statement(totalCost, totalCents, traceCount, tokens, lines, agents,
              ModelSharesOf(lines, tokens), MixesOf(lines, agents), cache)
  }

  /** The statement of a month's records; None when an amount leaves the safe range. */
  function StatementOf(records: seq<UsageRecord>): Option<Statement> {
    var entries := Entries(records);
    var cache := CacheSavingsOf(records);
    if cache.None? || TotalCost(entries) > MAX_SAFE then None
    else Some(Project(LinesOf(entries), TotalCost(entries), DisplayTotal(LineCosts(entries)), |records|, cache.value))
  }
}
