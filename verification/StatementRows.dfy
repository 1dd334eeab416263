/**
 * What every row of a statement shows, said of the month's records and stamps themselves: which
 * lines, agents and models there are and in what order, what each of them adds up, and how the
 * displayed cents and the basis points are apportioned among them, row by row.
 */
module StatementRows {
  import opened Wrappers
  import opened Sums
  import opened Sorting
  import opened LargestRemainder
  import opened Money
  import opened StatementModel
  import opened StatementSpec
  import opened StatementTheorems

  // ---------------------------------------------------------------- the orders

  predicate NullFirst(a: Text, b: Text) {
    b.Some? && (a.None? || TextLess(a.value, b.value))
  }

  predicate TypeFirst(a: TokenType, b: TokenType) {
    TokenIndex(a) < TokenIndex(b)
  }

  predicate LineBefore(a: LineKey, b: LineKey) {
    if a.agentId != b.agentId then NullFirst(a.agentId, b.agentId)
    else if a.agentVersion != b.agentVersion then NullFirst(a.agentVersion, b.agentVersion)
    else if a.model != b.model then NullFirst(a.model, b.model)
    else if a.tokenType != b.tokenType then TypeFirst(a.tokenType, b.tokenType)
    else if a.effectiveFrom != b.effectiveFrom then a.effectiveFrom < b.effectiveFrom
    else a.price < b.price
  }

  predicate VersionBefore(a: PriceVersionKey, b: PriceVersionKey) {
    if a.model != b.model then NullFirst(a.model, b.model)
    else if a.tokenType != b.tokenType then TypeFirst(a.tokenType, b.tokenType)
    else if a.effectiveFrom != b.effectiveFrom then a.effectiveFrom < b.effectiveFrom
    else a.price < b.price
  }

  predicate AgentBefore(a: AgentGroup, b: AgentGroup) {
    if a.cost != b.cost then a.cost > b.cost
    else if a.agent.id != b.agent.id then NullFirst(a.agent.id, b.agent.id)
    else NullFirst(a.agent.version, b.agent.version)
  }

  predicate ShareBefore(a: ModelShare, b: ModelShare) {
    if a.cost != b.cost then a.cost > b.cost else NullFirst(a.model, b.model)
  }

  lemma NullFirstIs(a: Text, b: Text)
    ensures NullableCompare(a, b) < 0 <==> NullFirst(a, b)
    ensures NullableCompare(a, b) == 0 <==> a == b
  {
    NullableFacts(a, b, b);
    if a.Some? && a == b {
      TextLessIrreflexive(a.value);
    }
  }

  /** Each comparator decides by the first field that differs. */
  lemma OrdersAre(a: LineKey, b: LineKey, v: PriceVersionKey, w: PriceVersionKey)
    ensures LineLess(a, b) <==> LineBefore(a, b)
    ensures PriceVersionLess(v, w) <==> VersionBefore(v, w)
  {
    NullFirstIs(a.agentId, b.agentId);
    NullFirstIs(a.agentVersion, b.agentVersion);
    NullFirstIs(a.model, b.model);
    NullFirstIs(v.model, w.model);
  }

  lemma GroupOrdersAre(a: AgentGroup, b: AgentGroup, m: ModelShare, n: ModelShare)
    ensures AgentLess(a, b) <==> AgentBefore(a, b)
    ensures ShareLess(m, n) <==> ShareBefore(m, n)
  {
    NullFirstIs(a.agent.id, b.agent.id);
    NullFirstIs(a.agent.version, b.agent.version);
    NullFirstIs(m.model, n.model);
  }

  // ---------------------------------------------------------------- fair rounding

  /** The part is its quotient rounded down, or up if that has a remainder. */
  predicate Rounded(nums: seq<nat>, unit: nat, parts: seq<nat>, i: nat)
    requires unit > 0 && i < |nums| == |parts|
  {
    parts[i] == nums[i] / unit || (parts[i] == nums[i] / unit + 1 && nums[i] % unit > 0)
  }

  /** If the one is rounded up and the other down, the one has the larger remainder, or the same and
      comes first. */
  predicate InTurn(nums: seq<nat>, unit: nat, parts: seq<nat>, i: nat, j: nat)
    requires unit > 0 && i < |nums| == |parts| && j < |nums|
  {
    parts[i] > nums[i] / unit && parts[j] == nums[j] / unit ==>
      nums[i] % unit > nums[j] % unit || (nums[i] % unit == nums[j] % unit && i < j)
  }

  ghost predicate RoundsFairly(nums: seq<nat>, unit: nat, parts: seq<nat>)
    requires unit > 0
  {
    && |parts| == |nums|
    && (forall i :: 0 <= i < |parts| ==> Rounded(nums, unit, parts, i))
    && forall i, j :: 0 <= i < |parts| && 0 <= j < |parts| ==> InTurn(nums, unit, parts, i, j)
  }

  lemma FairParts(nums: seq<nat>, unit: nat, deficit: nat, parts: seq<nat>)
    requires unit > 0 && IsLargestRemainder(Floors(nums, unit), Remainders(nums, unit), deficit, parts)
    requires Raised(Floors(nums, unit), parts) <= Positive(Remainders(nums, unit))
    ensures RoundsFairly(nums, unit, parts)
  {
    var floors, rems := Floors(nums, unit), Remainders(nums, unit);
    forall i: nat | i < |parts| ensures Rounded(nums, unit, parts, i) {
      if parts[i] == floors[i] + 1 {
        assert i in Raised(floors, parts) && i in Positive(rems);
      }
    }
    forall i: nat, j: nat | i < |parts| && j < |parts| ensures InTurn(nums, unit, parts, i, j) {
      if parts[i] > floors[i] && parts[j] == floors[j] {
        assert i in Raised(floors, parts) && j !in Raised(floors, parts);
        assert Beats(rems, i, j);
      }
    }
  }

  /** The parts apportion the whole in proportion to the weights, or are nothing when those are. */
  ghost predicate Apportions(weights: seq<nat>, whole: nat, parts: seq<nat>) {
    var total := Sum(weights);
    && |parts| == |weights|
    && Sum(parts) == (if total == 0 then 0 else whole)
    && if total <= 0 then forall i :: 0 <= i < |parts| ==> parts[i] == 0
       else RoundsFairly(seq(|weights|, i requires 0 <= i < |weights| => weights[i] * whole), total, parts)
  }

  lemma SharesApportion(weights: seq<nat>, whole: nat)
    ensures Apportions(weights, whole, Shares(weights, whole))
  {
    SumNonNegative(weights);
    SharesClose(weights, whole);
    if Sum(weights) > 0 {
      var total: nat, scaled := Sum(weights), Scaled(weights, whole);
      var floors, rems := Floors(scaled, total), Remainders(scaled, total);
      SharesAreLargestRemainder(weights, whole, total, scaled, floors, rems);
      FairParts(scaled, total, whole - Sum(floors), Shares(weights, whole));
      assert scaled == seq(|weights|, i requires 0 <= i < |weights| => weights[i] * whole);
    }
  }

  // ---------------------------------------------------------------- lines

  /** The stamped cost of the record belongs to the line. */
  predicate FallsOn(r: UsageRecord, c: StampedCost, k: LineKey) {
    && r.agentId == k.agentId && r.agentVersion == k.agentVersion && r.model == k.model
    && c.tokenType == k.tokenType && c.price == k.price && c.effectiveFrom == k.effectiveFrom
  }

  function StampTokensOn(r: UsageRecord, k: LineKey): StampedCost -> int {
    (c: StampedCost) => if FallsOn(r, c, k) then c.tokens else 0
  }

  function StampCostOn(r: UsageRecord, k: LineKey): StampedCost -> int {
    (c: StampedCost) => if FallsOn(r, c, k) then c.cost else 0
  }

  /** What a record puts on the line. */
  function TokensOn(k: LineKey): UsageRecord -> int {
    (r: UsageRecord) => SumBy(r.stampedCosts, StampTokensOn(r, k))
  }

  function CostOn(k: LineKey): UsageRecord -> int {
    (r: UsageRecord) => SumBy(r.stampedCosts, StampCostOn(r, k))
  }

  lemma StampOn(r: UsageRecord, c: StampedCost, k: LineKey)
    ensures At(EntryKey, EntryTokens, k)(EntryOf(r, c)) == StampTokensOn(r, k)(c)
    ensures At(EntryKey, EntryCost, k)(EntryOf(r, c)) == StampCostOn(r, k)(c)
  {
    var e := EntryOf(r, c);
    assert EntryKey(e) == k <==> FallsOn(r, c, k);
    assert EntryTokens(e) == c.tokens && EntryCost(e) == c.cost;
  }

  lemma RecordOn(r: UsageRecord, k: LineKey)
    ensures Group(EntriesOf(r), EntryKey, EntryTokens, k) == TokensOn(k)(r)
    ensures Group(EntriesOf(r), EntryKey, EntryCost, k) == CostOn(k)(r)
  {
    forall i | 0 <= i < |r.stampedCosts|
      ensures At(EntryKey, EntryTokens, k)(EntriesOf(r)[i]) == StampTokensOn(r, k)(r.stampedCosts[i])
      ensures At(EntryKey, EntryCost, k)(EntriesOf(r)[i]) == StampCostOn(r, k)(r.stampedCosts[i])
    {
      StampOn(r, r.stampedCosts[i], k);
    }
    SumByZip(EntriesOf(r), r.stampedCosts, At(EntryKey, EntryTokens, k), StampTokensOn(r, k));
    SumByZip(EntriesOf(r), r.stampedCosts, At(EntryKey, EntryCost, k), StampCostOn(r, k));
  }

  lemma {:induction false} RecordsOn(records: seq<UsageRecord>, k: LineKey)
    ensures LineTokens(Entries(records), k) == SumBy(records, TokensOn(k))
    ensures LineCost(Entries(records), k) == SumBy(records, CostOn(k))
  {
    if |records| > 0 {
      var front, r := records[..|records| - 1], records[|records| - 1];
      RecordsOn(front, k);
      assert records == front + [r];
      FlatMapSnoc(front, r, EntriesOf);
      SumByConcat(Entries(front), EntriesOf(r), At(EntryKey, EntryTokens, k));
      SumByConcat(Entries(front), EntriesOf(r), At(EntryKey, EntryCost, k));
      RecordOn(r, k);
    }
  }

  ghost predicate OnSomeStamp(records: seq<UsageRecord>, k: LineKey) {
    exists r, c :: r in records && c in r.stampedCosts && FallsOn(r, c, k)
  }

  lemma {:induction false} KeysOfRecords(records: seq<UsageRecord>, k: LineKey)
    ensures (exists e :: e in Entries(records) && e.key == k) <==> OnSomeStamp(records, k)
  {
    if |records| > 0 {
      var front, r := records[..|records| - 1], records[|records| - 1];
      KeysOfRecords(front, k);
      assert records == front + [r];
      FlatMapSnoc(front, r, EntriesOf);
      if c :| c in r.stampedCosts && FallsOn(r, c, k) {
        var i :| 0 <= i < |r.stampedCosts| && r.stampedCosts[i] == c;
        assert EntriesOf(r)[i].key == k && EntriesOf(r)[i] in EntriesOf(r);
      }
      if e :| e in EntriesOf(r) && e.key == k {
        var i :| 0 <= i < |EntriesOf(r)| && EntriesOf(r)[i] == e;
        assert FallsOn(r, r.stampedCosts[i], k) && r.stampedCosts[i] in r.stampedCosts;
      }
    }
  }

  function CentsColumn(lines: seq<LineView>): (cents: seq<nat>)
    ensures |cents| == |lines|
  {
    seq(|lines|, i requires 0 <= i < |lines| => lines[i].displayCents)
  }

  function CostColumn(lines: seq<LineView>): (costs: seq<nat>)
    ensures |costs| == |lines|
  {
    seq(|lines|, i requires 0 <= i < |lines| => lines[i].cost)
  }

  ghost predicate HasLine(lines: seq<LineView>, k: LineKey) {
    exists line :: line in lines && line.key == k
  }

  /** One line per agent, version, model, token type and applied price that some stamp has, in order,
      holding what the records put on it; its cents are its cost in cents, fairly rounded. */
  ghost predicate LineRows(records: seq<UsageRecord>, lines: seq<LineView>) {
    && (forall k :: HasLine(lines, k) <==> OnSomeStamp(records, k))
    && (forall i, j :: 0 <= i < j < |lines| ==> LineBefore(lines[i].key, lines[j].key))
    && (forall i :: 0 <= i < |lines| ==>
          && lines[i].tokens == SumBy(records, TokensOn(lines[i].key))
          && lines[i].cost == SumBy(records, CostOn(lines[i].key)))
    && RoundsFairly(CostColumn(lines), MICROCENTS_PER_CENT, CentsColumn(lines))
  }

  lemma LineKeysAre(records: seq<UsageRecord>, k: LineKey)
    ensures HasLine(LinesOf(Entries(records)), k) <==> OnSomeStamp(records, k)
  {
    var lines, keys := LinesOf(Entries(records)), SortedKeys(Entries(records));
    SortedKeysFacts(Entries(records));
    KeysOfRecords(records, k);
    if k in keys {
      var i :| 0 <= i < |keys| && keys[i] == k;
      assert lines[i].key == k && lines[i] in lines;
    }
  }

  lemma LinesAre(records: seq<UsageRecord>)
    ensures LineRows(records, LinesOf(Entries(records)))
  {
    var entries := Entries(records);
    var lines, keys, costs := LinesOf(entries), SortedKeys(entries), LineCosts(entries);
    forall k: LineKey ensures HasLine(lines, k) <==> OnSomeStamp(records, k) {
      LineKeysAre(records, k);
    }
    SortedKeysFacts(entries);
    forall i, j | 0 <= i < j < |lines| ensures LineBefore(lines[i].key, lines[j].key) {
      assert LineLess(keys[i], keys[j]);
      OrdersAre(keys[i], keys[j], VersionOf(Entry(keys[i], 0, 0)), VersionOf(Entry(keys[j], 0, 0)));
    }
    forall i | 0 <= i < |lines|
      ensures lines[i].tokens == SumBy(records, TokensOn(lines[i].key))
      ensures lines[i].cost == SumBy(records, CostOn(lines[i].key))
    {
      RecordsOn(records, keys[i]);
    }
    LineCentsFair(entries);
  }

  lemma LineColumns(lines: seq<LineView>, costs: seq<nat>, cents: seq<nat>)
    requires |lines| == |costs| == |cents|
    requires forall i :: 0 <= i < |lines| ==> lines[i].cost == costs[i] && lines[i].displayCents == cents[i]
    ensures CostColumn(lines) == costs && CentsColumn(lines) == cents
  {}

  lemma LineCentsFair(entries: seq<Entry>)
    ensures RoundsFairly(CostColumn(LinesOf(entries)), MICROCENTS_PER_CENT, CentsColumn(LinesOf(entries)))
  {
    var lines, costs := LinesOf(entries), LineCosts(entries);
    DisplayCloses(costs);
    FairParts(costs, MICROCENTS_PER_CENT, DisplayTotal(costs) - Sum(Floors(costs, MICROCENTS_PER_CENT)),
              DisplayParts(costs));
    LineColumns(lines, costs, DisplayParts(costs));
  }

  // ---------------------------------------------------------------- applied prices

  predicate AppliedBy(r: UsageRecord, c: StampedCost, v: PriceVersionKey) {
    r.model == v.model && c.tokenType == v.tokenType && c.price == v.price && c.effectiveFrom == v.effectiveFrom
  }

  ghost predicate AppliedBySome(records: seq<UsageRecord>, v: PriceVersionKey) {
    exists r, c :: r in records && c in r.stampedCosts && AppliedBy(r, c, v)
  }

  lemma {:induction false} VersionsOfRecords(records: seq<UsageRecord>, v: PriceVersionKey)
    ensures (exists e :: e in Entries(records) && VersionOf(e) == v) <==> AppliedBySome(records, v)
  {
    if |records| > 0 {
      var front, r := records[..|records| - 1], records[|records| - 1];
      VersionsOfRecords(front, v);
      assert records == front + [r];
      FlatMapSnoc(front, r, EntriesOf);
      if c :| c in r.stampedCosts && AppliedBy(r, c, v) {
        var i :| 0 <= i < |r.stampedCosts| && r.stampedCosts[i] == c;
        assert VersionOf(EntriesOf(r)[i]) == v && EntriesOf(r)[i] in EntriesOf(r);
      }
      if e :| e in EntriesOf(r) && VersionOf(e) == v {
        var i :| 0 <= i < |EntriesOf(r)| && EntriesOf(r)[i] == e;
        assert AppliedBy(r, r.stampedCosts[i], v) && r.stampedCosts[i] in r.stampedCosts;
      }
    }
  }

  /** The applied price versions are those of the stamps, each once, in order. */
  lemma AppliedVersions(records: seq<UsageRecord>)
    ensures var versions := PriceVersionsOf(Entries(records));
            && (forall v :: v in versions <==> AppliedBySome(records, v))
            && forall i, j :: 0 <= i < j < |versions| ==> VersionBefore(versions[i], versions[j])
  {
    var listed, versions := Listing(Entries(records), VersionOf), PriceVersionsOf(Entries(records));
    ListingFacts(Entries(records), VersionOf);
    PriceVersionsOrdered(Elements(listed));
    SortSorts(listed, PriceVersionLess);
    SortElements(listed, PriceVersionLess);
    forall v ensures v in versions <==> AppliedBySome(records, v) {
      assert v in versions <==> v in Elements(listed);
      VersionsOfRecords(records, v);
    }
    forall i, j | 0 <= i < j < |versions| ensures VersionBefore(versions[i], versions[j]) {
      assert PriceVersionLess(versions[i], versions[j]);
      var line := LineKey(None, None, None, Input, 0, 0);
      OrdersAre(line, line, versions[i], versions[j]);
    }
  }

  // ---------------------------------------------------------------- agents

  ghost predicate HasRow(agents: seq<AgentGroup>, a: AgentKey) {
    exists g :: g in agents && g.agent == a
  }

  predicate OfAgent(line: LineView, a: AgentKey) {
    line.key.agentId == a.id && line.key.agentVersion == a.version
  }

  /** A measure of the agent's lines. */
  function OnAgent(a: AgentKey, f: LineView -> int): LineView -> int {
    (line: LineView) => if OfAgent(line, a) then f(line) else 0
  }

  ghost predicate HasAgent(lines: seq<LineView>, a: AgentKey) {
    exists line :: line in lines && OfAgent(line, a)
  }

  ghost predicate HasType(lines: seq<LineView>, a: AgentKey, t: TokenType) {
    exists line :: line in lines && OfAgent(line, a) && line.key.tokenType == t
  }

  function AgentTypeCost(a: AgentKey, t: TokenType): LineView -> int {
    (line: LineView) => if OfAgent(line, a) && line.key.tokenType == t then line.cost else 0
  }

  lemma AgentSumIs(lines: seq<LineView>, a: AgentKey, f: LineView -> int)
    ensures Group(lines, AgentOf, f, a) == SumBy(lines, OnAgent(a, f))
    ensures forall line :: OfAgent(line, a) <==> AgentOf(line) == a
  {
    SumByExt(lines, At(AgentOf, f, a), OnAgent(a, f));
  }

  lemma TypesAre(lines: seq<LineView>, a: AgentKey, t: TokenType)
    ensures t in TypeSplit(lines, a) <==> HasType(lines, a, t)
    ensures t in TypeSplit(lines, a) ==> TypeSplit(lines, a)[t] == SumBy(lines, AgentTypeCost(a, t))
  {
    ListingFacts(lines, AgentTypeOf);
    AllTypesListed();
    AgentSumIs(lines, a, CostOf);
    if line :| line in lines && OfAgent(line, a) && line.key.tokenType == t {
      assert AgentTypeOf(line) == (a, t);
    }
    SumByExt(lines, At(AgentTypeOf, CostOf, (a, t)), AgentTypeCost(a, t));
  }

  function BpColumn(agents: seq<AgentGroup>): (bps: seq<nat>)
    ensures |bps| == |agents|
  {
    seq(|agents|, i requires 0 <= i < |agents| => agents[i].percentOfTotalBp)
  }

  /** The sums of the agent's lines. */
  ghost predicate AgentRow(lines: seq<LineView>, g: AgentGroup) {
    && g.cost == SumBy(lines, OnAgent(g.agent, CostOf))
    && g.tokens == SumBy(lines, OnAgent(g.agent, TokensOf))
    && g.displayCents == SumBy(lines, OnAgent(g.agent, CentsOf))
    && (forall t :: t in g.costByTokenType <==> HasType(lines, g.agent, t))
    && (forall t :: t in g.costByTokenType ==> g.costByTokenType[t] == SumBy(lines, AgentTypeCost(g.agent, t)))
  }

  /** One row per agent of the lines, costliest first, with its share of the whole in basis points. */
  ghost predicate AgentRows(lines: seq<LineView>, agents: seq<AgentGroup>) {
    && (forall a :: HasRow(agents, a) <==> HasAgent(lines, a))
    && (forall i, j :: 0 <= i < j < |agents| ==> AgentBefore(agents[i], agents[j]))
    && (forall i :: 0 <= i < |agents| ==> AgentRow(lines, agents[i]))
    && Apportions(GroupCosts(agents), 10_000, BpColumn(agents))
  }

  lemma AgentRowIs(lines: seq<LineView>, i: nat)
    requires i < |AgentsOf(lines)|
    ensures AgentRow(lines, AgentsOf(lines)[i])
  {
    var g := AgentsOf(lines)[i];
    AgentsAreGroups(lines);
    assert IsAgentOf(lines, g) by { assert g in AgentsOf(lines); }
    AgentSumIs(lines, g.agent, CostOf);
    AgentSumIs(lines, g.agent, TokensOf);
    AgentSumIs(lines, g.agent, CentsOf);
    forall t: TokenType
      ensures t in g.costByTokenType <==> HasType(lines, g.agent, t)
      ensures t in g.costByTokenType ==> g.costByTokenType[t] == SumBy(lines, AgentTypeCost(g.agent, t))
    {
      TypesAre(lines, g.agent, t);
    }
  }

  lemma AgentHasRow(lines: seq<LineView>, a: AgentKey)
    ensures HasRow(AgentsOf(lines), a) <==> HasAgent(lines, a)
  {
    AgentSumIs(lines, a, CostOf);
    if HasAgent(lines, a) {
      var line :| line in lines && OfAgent(line, a);
      EveryAgentGrouped(lines, line);
    }
    if HasRow(AgentsOf(lines), a) {
      var g :| g in AgentsOf(lines) && g.agent == a;
      AgentsAreGroups(lines);
      assert IsAgentOf(lines, g);
    }
  }

  lemma AgentOrder(lines: seq<LineView>, i: nat, j: nat)
    requires i < j < |AgentsOf(lines)|
    ensures AgentBefore(AgentsOf(lines)[i], AgentsOf(lines)[j])
  {
    AgentsInOrder(lines, i, j);
    var m := ModelShare(None, 0, 0, 0, 0);
    GroupOrdersAre(AgentsOf(lines)[i], AgentsOf(lines)[j], m, m);
  }

  lemma AgentColumns(groups: seq<AgentGroup>)
    ensures GroupCosts(WithShares(groups)) == GroupCosts(groups)
    ensures BpColumn(WithShares(groups)) == Shares(GroupCosts(groups), 10_000)
  {}

  lemma AgentsAre(lines: seq<LineView>)
    ensures AgentRows(lines, AgentsOf(lines))
  {
    var groups, agents := AgentGroups(lines), AgentsOf(lines);
    forall a: AgentKey ensures HasRow(agents, a) <==> HasAgent(lines, a) {
      AgentHasRow(lines, a);
    }
    forall i, j | 0 <= i < j < |agents| ensures AgentBefore(agents[i], agents[j]) {
      AgentOrder(lines, i, j);
    }
    forall i | 0 <= i < |agents| ensures AgentRow(lines, agents[i]) {
      AgentRowIs(lines, i);
    }
    SharesApportion(GroupCosts(groups), 10_000);
    AgentColumns(groups);
  }

  // ---------------------------------------------------------------- models

  function CostBpColumn(shares: seq<ModelShare>): (bps: seq<nat>)
    ensures |bps| == |shares|
  {
    seq(|shares|, i requires 0 <= i < |shares| => shares[i].costShareBp)
  }

  function TokenBpColumn(shares: seq<ModelShare>): (bps: seq<nat>)
    ensures |bps| == |shares|
  {
    seq(|shares|, i requires 0 <= i < |shares| => shares[i].tokenShareBp)
  }

  ghost predicate HasShare(shares: seq<ModelShare>, m: Text) {
    exists s :: s in shares && s.model == m
  }

  ghost predicate HasModel(lines: seq<LineView>, m: Text) {
    exists line :: line in lines && line.key.model == m
  }

  /** A measure of the model's lines. */
  function OnModel(m: Text, f: LineView -> int): LineView -> int {
    (line: LineView) => if line.key.model == m then f(line) else 0
  }

  /** One row per model of the lines, costliest first, with its shares of cost and of tokens. */
  ghost predicate ModelRows(lines: seq<LineView>, shares: seq<ModelShare>) {
    && (forall m :: HasShare(shares, m) <==> HasModel(lines, m))
    && (forall i, j :: 0 <= i < j < |shares| ==> ShareBefore(shares[i], shares[j]))
    && (forall i :: 0 <= i < |shares| ==>
          && shares[i].cost == SumBy(lines, OnModel(shares[i].model, CostOf))
          && shares[i].tokens == SumBy(lines, OnModel(shares[i].model, TokensOf)))
    && Apportions(ShareCosts(shares), 10_000, CostBpColumn(shares))
    && Apportions(ShareTokens(shares), 10_000, TokenBpColumn(shares))
  }

  /** Shares of different models never tie. */
  lemma SharesOrdered(universe: set<ModelShare>)
    requires forall x, y :: x in universe && y in universe && x.model == y.model ==> x == y
    ensures OrdersStrictly(ShareLess, universe)
  {
    forall x: ModelShare, y: ModelShare, z: ModelShare
      ensures !ShareLess(x, x)
      ensures x.model != y.model ==> ShareLess(x, y) || ShareLess(y, x)
      ensures ShareLess(x, y) && ShareLess(y, z) ==> ShareLess(x, z)
    {
      NullableFacts(x.model, y.model, z.model);
    }
  }

  lemma ModelGroupsSorted(lines: seq<LineView>)
    ensures StrictlySorted(ModelGroups(lines), ShareLess)
    ensures forall s :: s in ModelGroups(lines) <==> s in ModelListing(lines)
  {
    var listing := ModelListing(lines);
    ListingFacts(lines, ModelOf);
    SharesOrdered(Elements(listing));
    assert NoRepeats(listing);
    SortSorts(listing, ShareLess);
    SortElements(listing, ShareLess);
    forall s ensures s in ModelGroups(lines) <==> s in listing {
      assert s in ModelGroups(lines) <==> s in Elements(ModelGroups(lines));
    }
  }

  lemma ModelGroupIs(lines: seq<LineView>, i: nat)
    requires i < |ModelGroups(lines)|
    ensures var g := ModelGroups(lines)[i]; g == ModelShareOf(lines, g.model) && HasModel(lines, g.model)
  {
    ModelGroupsSorted(lines);
    ListingFacts(lines, ModelOf);
    assert ModelGroups(lines)[i] in ModelListing(lines);
    var ks := Listing(lines, ModelOf);
    var k :| 0 <= k < |ks| && ModelGroups(lines)[i] == ModelShareOf(lines, ks[k]);
    assert ks[k] in ks;
  }

  lemma ModelHasGroup(lines: seq<LineView>, m: Text) returns (i: nat)
    requires HasModel(lines, m)
    ensures i < |ModelGroups(lines)| && ModelGroups(lines)[i].model == m
  {
    var ks := Listing(lines, ModelOf);
    ModelGroupsSorted(lines);
    ListingFacts(lines, ModelOf);
    var k :| 0 <= k < |ks| && ks[k] == m;
    assert ModelListing(lines)[k] in ModelGroups(lines);
    i :| 0 <= i < |ModelGroups(lines)| && ModelGroups(lines)[i] == ModelListing(lines)[k];
  }

  /** Adding shares changes no model, cost or tokens. */
  lemma ModelShareIs(lines: seq<LineView>, totalTokens: nat, i: nat)
    requires i < |ModelGroups(lines)|
    ensures |ModelSharesOf(lines, totalTokens)| == |ModelGroups(lines)|
    ensures var s, g := ModelSharesOf(lines, totalTokens)[i], ModelGroups(lines)[i];
            s.model == g.model && s.cost == g.cost && s.tokens == g.tokens
  {}

  lemma ModelOfRow(lines: seq<LineView>, totalTokens: nat, m: Text)
    ensures HasShare(ModelSharesOf(lines, totalTokens), m) <==> HasModel(lines, m)
  {
    var shares := ModelSharesOf(lines, totalTokens);
    if HasModel(lines, m) {
      var i := ModelHasGroup(lines, m);
      ModelShareIs(lines, totalTokens, i);
      assert shares[i] in shares;
    }
    if HasShare(shares, m) {
      var i: nat :| i < |shares| && shares[i].model == m;
      ModelShareIs(lines, totalTokens, i);
      ModelGroupIs(lines, i);
    }
  }

  lemma ModelSums(lines: seq<LineView>, totalTokens: nat, i: nat)
    requires i < |ModelSharesOf(lines, totalTokens)|
    ensures var s := ModelSharesOf(lines, totalTokens)[i];
            && s.cost == Group(lines, ModelOf, CostOf, s.model) && s.tokens == Group(lines, ModelOf, TokensOf, s.model)
  {
    ModelShareIs(lines, totalTokens, i);
    ModelGroupIs(lines, i);
  }

  lemma ModelSumIs(lines: seq<LineView>, m: Text, f: LineView -> int)
    ensures Group(lines, ModelOf, f, m) == SumBy(lines, OnModel(m, f))
  {
    SumByExt(lines, At(ModelOf, f, m), OnModel(m, f));
  }

  lemma ModelRowSums(lines: seq<LineView>, totalTokens: nat, i: nat)
    requires i < |ModelSharesOf(lines, totalTokens)|
    ensures var s := ModelSharesOf(lines, totalTokens)[i];
            && s.cost == SumBy(lines, OnModel(s.model, CostOf)) && s.tokens == SumBy(lines, OnModel(s.model, TokensOf))
  {
    var m := ModelSharesOf(lines, totalTokens)[i].model;
    ModelSums(lines, totalTokens, i);
    ModelSumIs(lines, m, CostOf);
    ModelSumIs(lines, m, TokensOf);
  }

  lemma CostColumns(lines: seq<LineView>, totalTokens: nat)
    ensures var groups, shares := ModelGroups(lines), ModelSharesOf(lines, totalTokens);
            && ShareCosts(shares) == ShareCosts(groups)
            && CostBpColumn(shares) == Shares(ShareCosts(groups), 10_000)
  {}

  lemma TokenColumns(lines: seq<LineView>, totalTokens: nat)
    ensures var groups, shares := ModelGroups(lines), ModelSharesOf(lines, totalTokens);
            && ShareTokens(shares) == ShareTokens(groups)
            && TokenBpColumn(shares) == Shares(ShareTokens(groups), if totalTokens == 0 then 0 else 10_000)
  {}

  /** No tokens at all are shared out whatever the whole is said to be. */
  lemma TokenSharesApportion(tokens: seq<nat>, totalTokens: nat)
    requires Sum(tokens) == totalTokens
    ensures Apportions(tokens, 10_000, Shares(tokens, if totalTokens == 0 then 0 else 10_000))
  {
    SharesApportion(tokens, if totalTokens == 0 then 0 else 10_000);
  }

  lemma ModelShareColumns(lines: seq<LineView>, totalTokens: nat)
    requires totalTokens == SumBy(lines, TokensOf)
    ensures var shares := ModelSharesOf(lines, totalTokens);
            && Apportions(ShareCosts(shares), 10_000, CostBpColumn(shares))
            && Apportions(ShareTokens(shares), 10_000, TokenBpColumn(shares))
  {
    var groups, shares := ModelGroups(lines), ModelSharesOf(lines, totalTokens);
    var costs, tokens := ShareCosts(groups), ShareTokens(groups);
    ModelListingSum(lines, TokensOf, ShareTokensOf);
    SumOfField(tokens, groups, ShareTokensOf);
    SharesApportion(costs, 10_000);
    TokenSharesApportion(tokens, totalTokens);
    CostColumns(lines, totalTokens);
    TokenColumns(lines, totalTokens);
  }

  lemma ModelsAre(lines: seq<LineView>, totalTokens: nat)
    requires totalTokens == SumBy(lines, TokensOf)
    ensures ModelRows(lines, ModelSharesOf(lines, totalTokens))
  {
    var groups, shares := ModelGroups(lines), ModelSharesOf(lines, totalTokens);
    forall m: Text ensures HasShare(shares, m) <==> HasModel(lines, m) {
      ModelOfRow(lines, totalTokens, m);
    }
    ModelGroupsSorted(lines);
    forall i, j | 0 <= i < j < |shares| ensures ShareBefore(shares[i], shares[j]) {
      assert ShareLess(groups[i], groups[j]);
      var a := AgentGroup(AgentKey(None, None), 0, 0, 0, 0, map[]);
      GroupOrdersAre(a, a, groups[i], groups[j]);
    }
    forall i | 0 <= i < |shares|
      ensures shares[i].cost == SumBy(lines, OnModel(shares[i].model, CostOf))
      ensures shares[i].tokens == SumBy(lines, OnModel(shares[i].model, TokensOf))
    {
      ModelRowSums(lines, totalTokens, i);
    }
    ModelShareColumns(lines, totalTokens);
  }

  // ---------------------------------------------------------------- mixes

  /** The agent's own lines. */
  ghost predicate AreLinesOf(lines: seq<LineView>, a: AgentKey, own: seq<LineView>) {
    && (forall x :: x in own ==> OfAgent(x, a))
    && forall x :: OfAgent(x, a) ==> multiset(own)[x] == multiset(lines)[x]
  }

  lemma {:induction false} LinesOfAgentAre(lines: seq<LineView>, a: AgentKey)
    ensures AreLinesOf(lines, a, LinesOfAgent(lines, a))
  {
    AgentSumIs(lines, a, CostOf);
    if |lines| > 0 {
      var front, last := lines[..|lines| - 1], lines[|lines| - 1];
      LinesOfAgentAre(front, a);
      assert lines == front + [last];
    }
  }

  /** One mix per agent, in the agents' order: the model rows of the agent's own lines, and what a
      million of its tokens cost, rounded half up. */
  ghost predicate MixRow(lines: seq<LineView>, g: AgentGroup, mix: AgentModelMix) {
    && mix.agent == g.agent
    && (exists own :: AreLinesOf(lines, g.agent, own) && ModelRows(own, mix.models))
    && (mix.blendedPerMillion.Some? <==> g.tokens > 0)
    && (g.tokens > 0 ==>
          var twiceGap := 2 * (mix.blendedPerMillion.value * g.tokens - 1_000_000 * g.cost);
          0 - g.tokens < twiceGap <= g.tokens)
  }

  lemma BlendedIs(cost: nat, tokens: nat)
    requires tokens > 0
    ensures 0 - tokens < 2 * (HalfUpDiv(cost * 1_000_000, tokens) * tokens - 1_000_000 * cost) <= tokens
  {
  }

  lemma MixIs(lines: seq<LineView>, i: nat)
    requires i < |AgentsOf(lines)|
    ensures MixRow(lines, AgentsOf(lines)[i], MixesOf(lines, AgentsOf(lines))[i])
  {
    var g := AgentsOf(lines)[i];
    var own := LinesOfAgent(lines, g.agent);
    MixesAt(lines, AgentsOf(lines), i);
    AgentsAreGroups(lines);
    assert IsAgentOf(lines, g) by { assert g in AgentsOf(lines); }
    LinesOfAgentSum(lines, g.agent, TokensOf);
    LinesOfAgentAre(lines, g.agent);
    ModelsAre(own, g.tokens);
    if g.tokens > 0 {
      BlendedIs(g.cost, g.tokens);
    }
  }

  // ---------------------------------------------------------------- the statement

  /** Every row of a month's statement. */
  lemma StatementShows(records: seq<UsageRecord>)
    requires StatementOf(records).Some?
    ensures var s := StatementOf(records).value;
            && LineRows(records, s.lines) && AgentRows(s.lines, s.agents) && ModelRows(s.lines, s.modelMixTotal)
            && |s.modelMixByAgent| == |s.agents|
            && forall i :: 0 <= i < |s.agents| ==> MixRow(s.lines, s.agents[i], s.modelMixByAgent[i])
  {
    var s := StatementOf(records).value;
    LinesAre(records);
    AgentsAre(s.lines);
    SumByNonNegative(s.lines, TokensOf);
    ModelsAre(s.lines, s.stampedTokensTotal);
    forall i | 0 <= i < |s.agents| ensures MixRow(s.lines, s.agents[i], s.modelMixByAgent[i]) {
      MixIs(s.lines, i);
    }
  }
}
