/**
 * The readers of a statement: billing-view-model.ts (agent cards and donuts),
 * get-billing-summary-db-use-case.ts (month over month) and get-billing-series-db-use-case.ts
 * (splits of a closed month). Each regroups the statement's numbers, and each still closes with
 * the total the statement shows.
 */
module StatementViews {
  import opened Wrappers
  import opened Sums
  import opened Sorting
  import opened Money
  import opened StatementModel
  import opened StatementSpec
  import opened StatementTheorems
  import StatementRows

  // ---------------------------------------------------------------- a Map of running sums

  /** The keys met so far in insertion order, with the running sum of each. */
  ghost predicate Tallies<T, K>(order: seq<K>, sums: map<K, int>, items: seq<T>, key: T -> K, f: T -> int) {
    && order == Listing(items, key)
    && sums.Keys == Elements(order)
    && forall k :: k in sums ==> sums[k] == Group(items, key, f, k)
  }

  function Lookup<K(==)>(sums: map<K, int>, k: K): int {
    if k in sums then sums[k] else 0
  }

  lemma LookupIsGroup<T, K>(order: seq<K>, sums: map<K, int>, items: seq<T>, key: T -> K, f: T -> int, k: K)
    requires Tallies(order, sums, items, key, f)
    ensures Lookup(sums, k) == Group(items, key, f, k)
  {
    if k !in sums {
      ListingFacts(items, key);
      assert k !in order;
      GroupAbsent(items, key, f, k);
    }
  }

  lemma TalliesSnoc<T, K>(order: seq<K>, sums: map<K, int>, items: seq<T>, x: T, key: T -> K, f: T -> int)
    requires Tallies(order, sums, items, key, f)
    ensures Tallies(if key(x) in sums then order else order + [key(x)],
                    sums[key(x) := (if key(x) in sums then sums[key(x)] else 0) + f(x)], items + [x], key, f)
  {
    var y := key(x);
    ListingSnoc(items, x, key);
    assert y in sums <==> y in order;
    LookupIsGroup(order, sums, items, key, f, y);
    assert Elements(order + [y]) == Elements(order) + {y};
    forall k ensures Group(items + [x], key, f, k) == Group(items, key, f, k) + if y == k then f(x) else 0 {
      GroupSnoc(items, x, key, f, k);
    }
  }

  /** `map.set(key, (map.get(key) ?? 0) + value)` over a list. */
  method Tally<T, K(==)>(items: seq<T>, key: T -> K, f: T -> int) returns (order: seq<K>, sums: map<K, int>)
    ensures Tallies(order, sums, items, key, f)
  {
    order, sums := [], map[];
    for n := 0 to |items|
      invariant Tallies(order, sums, items[..n], key, f)
    {
      var x := items[n];
      assert items[..n + 1] == items[..n] + [x];
      TalliesSnoc(order, sums, items[..n], x, key, f);
      order, sums := if key(x) in sums then order else order + [key(x)],
                     sums[key(x) := (if key(x) in sums then sums[key(x)] else 0) + f(x)];
    }
    assert items[..|items|] == items;
  }

  // ---------------------------------------------------------------- agent cards

  function ModelCents(lines: seq<LineView>): ModelShare -> int {
    (s: ModelShare) => Group(lines, ModelOf, CentsOf, s.model)
  }

  /** The displayed cents of each model of an agent's mix, summed from the lines. */
  method AgentModelDisplayCents(lines: seq<LineView>, mix: AgentModelMix) returns (cents: seq<int>)
    ensures |cents| == |mix.models|
    ensures forall i :: 0 <= i < |cents| ==> cents[i] == ModelCents(LinesOfAgent(lines, mix.agent))(mix.models[i])
    ensures Sum(cents) == SumBy(mix.models, ModelCents(LinesOfAgent(lines, mix.agent)))
  {
    var own := LinesOfAgent(lines, mix.agent);
    var order, byModel := Tally(own, ModelOf, CentsOf);
    forall m { LookupIsGroup(order, byModel, own, ModelOf, CentsOf, m); }
    cents := seq(|mix.models|, i requires 0 <= i < |mix.models| => Lookup(byModel, mix.models[i].model));
    SumOfInts(cents, mix.models, ModelCents(own));
  }

  lemma SumOfInts<T>(s: seq<int>, items: seq<T>, f: T -> int)
    requires |s| == |items| && forall i :: 0 <= i < |s| ==> s[i] == f(items[i])
    ensures Sum(s) == SumBy(items, f)
  {
    SumByIsSum(items, f);
    assert s == Mapped(items, f);
  }

  lemma MixCents(own: seq<LineView>, totalTokens: nat)
    ensures SumBy(ModelSharesOf(own, totalTokens), ModelCents(own)) == SumBy(own, CentsOf)
  {
    ModelListingSum(own, CentsOf, ModelCents(own));
    SumByZip(ModelSharesOf(own, totalTokens), ModelGroups(own), ModelCents(own), ModelCents(own));
  }

  /** The model cents of an agent close with the cents on that agent's own card. */
  lemma {:induction false} AgentModelCentsClose(lines: seq<LineView>, agent: AgentGroup)
    requires agent.displayCents == Group(lines, AgentOf, CentsOf, agent.agent)
    ensures SumBy(MixOf(lines, agent).models, ModelCents(LinesOfAgent(lines, agent.agent))) == agent.displayCents
  {
    MixCents(LinesOfAgent(lines, agent.agent), agent.tokens);
    LinesOfAgentSum(lines, agent.agent, CentsOf);
  }

  // ---------------------------------------------------------------- donuts

  /** A donut slice: where it starts and ends, in basis points. */
  datatype Arc = Arc(start: int, end: int)

  /** Each slice spans its share, after the shares before it. */
  ghost predicate Chained(arcs: seq<Arc>, shares: seq<int>) {
    && |arcs| == |shares|
    && forall i :: 0 <= i < |arcs| ==> arcs[i] == Arc(Sum(shares[..i]), Sum(shares[..i + 1]))
  }

  /** The `accumulatedBp` loop of both donuts. */
  method Accumulate(shares: seq<int>) returns (arcs: seq<Arc>)
    ensures Chained(arcs, shares)
  {
    arcs := [];
    var accumulated := 0;
    for n := 0 to |shares|
      invariant |arcs| == n && accumulated == Sum(shares[..n])
      invariant forall i :: 0 <= i < n ==> arcs[i] == Arc(Sum(shares[..i]), Sum(shares[..i + 1]))
    {
      SumPrefix(shares, n);
      arcs := arcs + [Arc(accumulated, accumulated + shares[n])];
      accumulated := accumulated + shares[n];
    }
  }

  /** A donut starts at zero, leaves no gap, never turns back and ends at the sum of its shares. */
  lemma {:induction false} DonutCloses(arcs: seq<Arc>, shares: seq<int>)
    requires Chained(arcs, shares) && forall i :: 0 <= i < |shares| ==> shares[i] >= 0
    ensures |arcs| > 0 ==> arcs[0].start == 0 && arcs[|arcs| - 1].end == Sum(shares)
    ensures forall i :: 0 <= i < |arcs| - 1 ==> arcs[i].end == arcs[i + 1].start
    ensures forall i :: 0 <= i < |arcs| ==> arcs[i].start <= arcs[i].end && arcs[i].end - arcs[i].start == shares[i]
  {
    if |arcs| > 0 {
      var n := |arcs| - 1;
      assert shares[..n + 1] == shares && shares[..0] == [];
      assert arcs[n] == Arc(Sum(shares[..n]), Sum(shares[..n + 1]));
      assert arcs[0] == Arc(Sum(shares[..0]), Sum(shares[..0 + 1]));
    }
    forall i | 0 <= i < |arcs|
      ensures arcs[i].end == arcs[i].start + shares[i] && (i + 1 < |arcs| ==> arcs[i + 1].start == arcs[i].end)
    {
      assert arcs[i] == Arc(Sum(shares[..i]), Sum(shares[..i + 1]));
      if i + 1 < |arcs| {
        assert arcs[i + 1] == Arc(Sum(shares[..i + 1]), Sum(shares[..i + 1 + 1]));
      }
      SumPrefix(shares, i);
    }
  }

  /** One agent's slice, its versions merged. */
  datatype AgentSlice = AgentSlice(id: Text, cents: int, shareBp: int, cost: int)

  function AgentId(g: AgentGroup): Text { g.agent.id }
  function SliceCents(s: AgentSlice): int { s.cents }
  function SliceBp(s: AgentSlice): int { s.shareBp }
  function SliceCost(s: AgentSlice): int { s.cost }
  predicate CostlierSlice(a: AgentSlice, b: AgentSlice) { a.cost > b.cost }

  function SliceOf(agents: seq<AgentGroup>, id: Text): AgentSlice {
    AgentSlice(id, Group(agents, AgentId, AgentCents, id), Group(agents, AgentId, AgentBp, id),
               Group(agents, AgentId, AgentCost, id))
  }

  /** The merged slices in order of first appearance. */
  function Merged(agents: seq<AgentGroup>): seq<AgentSlice> {
    var ids := Listing(agents, AgentId);
    seq(|ids|, i requires 0 <= i < |ids| => SliceOf(agents, ids[i]))
  }

  method AgentMixViews(agents: seq<AgentGroup>) returns (slices: seq<AgentSlice>, arcs: seq<Arc>)
    ensures slices == Sort(Merged(agents), CostlierSlice)
    ensures Chained(arcs, Mapped(slices, SliceBp))
  {
    var order, cents := Tally(agents, AgentId, AgentCents);
    var _, shares := Tally(agents, AgentId, AgentBp);
    var _, costs := Tally(agents, AgentId, AgentCost);
    assert forall i :: 0 <= i < |order| ==> order[i] in Elements(order);
    var merged := seq(|order|,
      i requires 0 <= i < |order| && order[i] in cents && order[i] in shares && order[i] in costs =>
      AgentSlice(order[i], cents[order[i]], shares[order[i]], costs[order[i]]));
    assert merged == Merged(agents);
    slices := Sort(merged, CostlierSlice);
    arcs := Accumulate(Mapped(slices, SliceBp));
  }

  lemma MergedSum(agents: seq<AgentGroup>, f: AgentGroup -> int, g: AgentSlice -> int)
    requires forall id :: g(SliceOf(agents, id)) == Group(agents, AgentId, f, id)
    ensures SumBy(Sort(Merged(agents), CostlierSlice), g) == SumBy(agents, f)
  {
    var ids := Listing(agents, AgentId);
    ListingFacts(agents, AgentId);
    SortElements(Merged(agents), CostlierSlice);
    SumByPermutation(Sort(Merged(agents), CostlierSlice), Merged(agents), g);
    SumByZip(Merged(agents), ids, g, GroupSums(agents, AgentId, f));
    Partition(agents, AgentId, f, ids);
  }

  ghost predicate HasId(agents: seq<AgentGroup>, id: Text) {
    exists g :: g in agents && g.agent.id == id
  }

  ghost predicate HasSlice(slices: seq<AgentSlice>, id: Text) {
    exists i :: 0 <= i < |slices| && slices[i].id == id
  }

  /** All versions of its agent id in one. */
  ghost predicate SliceRow(agents: seq<AgentGroup>, s: AgentSlice) {
    && s.cents == Group(agents, AgentId, AgentCents, s.id)
    && s.shareBp == Group(agents, AgentId, AgentBp, s.id)
    && s.cost == Group(agents, AgentId, AgentCost, s.id)
  }

  lemma SliceIds(agents: seq<AgentGroup>, id: Text)
    ensures HasSlice(Merged(agents), id) <==> HasId(agents, id)
    ensures forall i, j :: 0 <= i < j < |Merged(agents)| ==> Merged(agents)[i].id != Merged(agents)[j].id
  {
    var ids, merged := Listing(agents, AgentId), Merged(agents);
    ListingFacts(agents, AgentId);
    if HasId(agents, id) {
      var g :| g in agents && g.agent.id == id;
      assert AgentId(g) in ids;
      var k :| 0 <= k < |ids| && ids[k] == id;
      assert merged[k].id == id;
    }
    if HasSlice(merged, id) {
      var k :| 0 <= k < |merged| && merged[k].id == id;
      assert ids[k] in ids;
      var g :| g in agents && AgentId(g) == ids[k];
    }
  }

  /** One slice per agent id, costliest first and ties in order of appearance, each merging all versions. */
  lemma SlicesShow(agents: seq<AgentGroup>, id: Text)
    ensures var slices := Sort(Merged(agents), CostlierSlice);
            && (HasSlice(Merged(agents), id) <==> HasId(agents, id))
            && (forall i, j :: 0 <= i < j < |Merged(agents)| ==> Merged(agents)[i].id != Merged(agents)[j].id)
            && (forall s :: s in slices ==> SliceRow(agents, s))
            && LargestFirst(slices, Merged(agents), SliceCost)
  {
    var merged := Merged(agents);
    SliceIds(agents, id);
    SortsLargestFirst(merged, CostlierSlice, SliceCost);
    SortElements(merged, CostlierSlice);
    forall s | s in Sort(merged, CostlierSlice) ensures SliceRow(agents, s) {
      assert s in Elements(merged);
    }
  }

  /** The agent donut of a statement: cents close with the displayed total, cost with the exact
      total, and the slices with the full circle. */
  lemma AgentDonutCloses(s: Statement)
    requires Closes(s)
    ensures SumBy(Sort(Merged(s.agents), CostlierSlice), SliceCents) == s.totalDisplayCents
    ensures SumBy(Sort(Merged(s.agents), CostlierSlice), SliceCost) == s.totalCost
    ensures Sum(Mapped(Sort(Merged(s.agents), CostlierSlice), SliceBp)) == FullBp(s.totalCost)
  {
    MergedSum(s.agents, AgentCents, SliceCents);
    MergedSum(s.agents, AgentBp, SliceBp);
    MergedSum(s.agents, AgentCost, SliceCost);
    SumByIsSum(Sort(Merged(s.agents), CostlierSlice), SliceBp);
  }

  /** The model donut reconciles exact model costs against the displayed total: same cents. */
  lemma ModelDonutCloses(s: Statement)
    requires Closes(s)
    ensures Sum(DisplayParts(ShareCosts(s.modelMixTotal))) == s.totalDisplayCents
    ensures DisplayTotal(ShareCosts(s.modelMixTotal)) == s.totalDisplayCents
    ensures Sum(Mapped(s.modelMixTotal, ShareCostBp)) == FullBp(s.totalCost)
  {
    SumOfField(ShareCosts(s.modelMixTotal), s.modelMixTotal, ShareCost);
    DisplayCloses(ShareCosts(s.modelMixTotal));
    SumByIsSum(s.modelMixTotal, ShareCostBp);
  }

  // ---------------------------------------------------------------- month over month

  function FindCost(agents: seq<AgentGroup>, a: AgentKey): nat {
    if |agents| == 0 then 0
    else if agents[0].agent == a then agents[0].cost
    else FindCost(agents[1..], a)
  }

  lemma {:induction false} FindIsGroup(agents: seq<AgentGroup>, a: AgentKey)
    requires OneGroupPerAgent(agents)
    ensures FindCost(agents, a) == Group(agents, AgentKeyOf, AgentCost, a)
  {
    if |agents| > 0 {
      var head, tail := [agents[0]], agents[1..];
      assert agents == head + tail;
      FindIsGroup(tail, a);
      SumByConcat(head, tail, At(AgentKeyOf, AgentCost, a));
      assert [] + head == head;
      GroupSnoc([], agents[0], AgentKeyOf, AgentCost, a);
      if agents[0].agent == a {
        assert forall x :: x in tail ==> AgentKeyOf(x) != a;
        GroupAbsent(tail, AgentKeyOf, AgentCost, a);
      }
    }
  }

  datatype AgentDelta = AgentDelta(agent: AgentKey, current: nat, previous: nat, delta: int)

  function DeltaOf(d: AgentDelta): int { d.delta }
  predicate CostlierNow(a: AgentDelta, b: AgentDelta) { a.current > b.current }

  function Delta(now: seq<AgentGroup>, before: seq<AgentGroup>, a: AgentKey): AgentDelta {
    AgentDelta(a, FindCost(now, a), FindCost(before, a), FindCost(now, a) - FindCost(before, a))
  }

  function Deltas(now: seq<AgentGroup>, before: seq<AgentGroup>): seq<AgentDelta> {
    var keys := Listing(now + before, AgentKeyOf);
    seq(|keys|, i requires 0 <= i < |keys| => Delta(now, before, keys[i]))
  }

  /** `comparison().byAgent`: one row per agent of either month, costliest now first. */
  method Comparison(now: seq<AgentGroup>, before: seq<AgentGroup>) returns (rows: seq<AgentDelta>)
    ensures rows == Sort(Deltas(now, before), CostlierNow)
  {
    var keys: seq<AgentKey> := [];
    var all := now + before;
    for n := 0 to |all|
      invariant keys == Listing(all[..n], AgentKeyOf)
    {
      assert all[..n + 1] == all[..n] + [all[n]];
      ListingSnoc(all[..n], all[n], AgentKeyOf);
      if all[n].agent !in keys {
        keys := keys + [all[n].agent];
      }
    }
    assert all[..|all|] == all;
    var deltas := seq(|keys|, i requires 0 <= i < |keys| => Delta(now, before, keys[i]));
    rows := Sort(deltas, CostlierNow);
  }

  lemma {:induction false} DifferenceOfSums<T>(s: seq<T>, f: T -> int, g: T -> int, h: T -> int)
    requires forall x :: x in s ==> h(x) == f(x) - g(x)
    ensures SumBy(s, h) == SumBy(s, f) - SumBy(s, g)
  {
    if |s| > 0 {
      DifferenceOfSums(s[..|s| - 1], f, g, h);
    }
  }

  function KeyDelta(now: seq<AgentGroup>, before: seq<AgentGroup>): AgentKey -> int {
    (a: AgentKey) => FindCost(now, a) - FindCost(before, a)
  }

  lemma DeltasByKey(now: seq<AgentGroup>, before: seq<AgentGroup>)
    ensures SumBy(Sort(Deltas(now, before), CostlierNow), DeltaOf)
         == SumBy(Listing(now + before, AgentKeyOf), KeyDelta(now, before))
  {
    var keys := Listing(now + before, AgentKeyOf);
    SortElements(Deltas(now, before), CostlierNow);
    SumByPermutation(Sort(Deltas(now, before), CostlierNow), Deltas(now, before), DeltaOf);
    SumByZip(Deltas(now, before), keys, DeltaOf, KeyDelta(now, before));
  }

  lemma KeyDeltaIsDifference(now: seq<AgentGroup>, before: seq<AgentGroup>, a: AgentKey)
    requires OneGroupPerAgent(now) && OneGroupPerAgent(before)
    ensures KeyDelta(now, before)(a)
         == GroupSums(now, AgentKeyOf, AgentCost)(a) - GroupSums(before, AgentKeyOf, AgentCost)(a)
  {
    FindIsGroup(now, a);
    FindIsGroup(before, a);
  }

  /** The rows' deltas add up to the difference of the two months' agent totals. */
  lemma DeltasClose(now: seq<AgentGroup>, before: seq<AgentGroup>)
    requires OneGroupPerAgent(now) && OneGroupPerAgent(before)
    ensures SumBy(Sort(Deltas(now, before), CostlierNow), DeltaOf) == SumBy(now, AgentCost) - SumBy(before, AgentCost)
  {
    var all, keys := now + before, Listing(now + before, AgentKeyOf);
    DeltasByKey(now, before);
    ListingFacts(all, AgentKeyOf);
    assert forall g :: g in now ==> g in all;
    assert forall g :: g in before ==> g in all;
    Partition(now, AgentKeyOf, AgentCost, keys);
    Partition(before, AgentKeyOf, AgentCost, keys);
    var f, g, h := GroupSums(now, AgentKeyOf, AgentCost), GroupSums(before, AgentKeyOf, AgentCost),
               KeyDelta(now, before);
    forall a | a in keys ensures h(a) == f(a) - g(a) {
      KeyDeltaIsDifference(now, before, a);
    }
    DifferenceOfSums(keys, f, g, h);
  }

  /** Comparison of two months' statements: agent deltas sum to the total delta. */
  lemma ComparisonCloses(now: Statement, before: Statement)
    requires Closes(now) && Closes(before)
    ensures SumBy(Sort(Deltas(now.agents, before.agents), CostlierNow), DeltaOf) == now.totalCost - before.totalCost
  {
    DeltasClose(now.agents, before.agents);
  }

  ghost predicate InMonth(agents: seq<AgentGroup>, a: AgentKey) {
    exists g :: g in agents && g.agent == a
  }

  ghost predicate HasDelta(rows: seq<AgentDelta>, a: AgentKey) {
    exists i :: 0 <= i < |rows| && rows[i].agent == a
  }

  /** What each month charges the agent, nothing in one it is absent from, and the difference. */
  ghost predicate DeltaRow(now: seq<AgentGroup>, before: seq<AgentGroup>, r: AgentDelta) {
    && (forall g :: g in now && g.agent == r.agent ==> r.current == g.cost)
    && (!InMonth(now, r.agent) ==> r.current == 0)
    && (forall g :: g in before && g.agent == r.agent ==> r.previous == g.cost)
    && (!InMonth(before, r.agent) ==> r.previous == 0)
    && r.delta == r.current - r.previous
  }

  lemma {:induction false} FindIsRow(agents: seq<AgentGroup>, a: AgentKey)
    requires OneGroupPerAgent(agents)
    ensures forall g :: g in agents && g.agent == a ==> FindCost(agents, a) == g.cost
    ensures !InMonth(agents, a) ==> FindCost(agents, a) == 0
  {
    if |agents| > 0 {
      assert agents == [agents[0]] + agents[1..];
      FindIsRow(agents[1..], a);
      assert agents[0] in agents;
      forall g | g in agents && g.agent == a ensures FindCost(agents, a) == g.cost {
        var i :| 0 <= i < |agents| && agents[i] == g;
      }
    }
  }

  function CurrentOf(d: AgentDelta): int { d.current }

  lemma DeltaKeys(now: seq<AgentGroup>, before: seq<AgentGroup>, a: AgentKey)
    ensures HasDelta(Deltas(now, before), a) <==> InMonth(now, a) || InMonth(before, a)
  {
    var keys := Listing(now + before, AgentKeyOf);
    ListingFacts(now + before, AgentKeyOf);
    if InMonth(now, a) || InMonth(before, a) {
      var g :| g in now + before && g.agent == a;
      assert AgentKeyOf(g) in keys;
      var k :| 0 <= k < |keys| && keys[k] == a;
      assert Deltas(now, before)[k].agent == a;
    }
    if HasDelta(Deltas(now, before), a) {
      var k :| 0 <= k < |keys| && keys[k] == a;
      assert keys[k] in keys;
      var g :| g in now + before && AgentKeyOf(g) == keys[k];
    }
  }

  lemma SameRows(now: seq<AgentGroup>, before: seq<AgentGroup>, a: AgentKey)
    ensures HasDelta(Sort(Deltas(now, before), CostlierNow), a) <==> HasDelta(Deltas(now, before), a)
    ensures forall d :: d in Sort(Deltas(now, before), CostlierNow) <==> d in Deltas(now, before)
  {
    var rows, deltas := Sort(Deltas(now, before), CostlierNow), Deltas(now, before);
    SortElements(deltas, CostlierNow);
    forall d ensures d in rows <==> d in deltas {
      assert d in rows <==> d in Elements(deltas);
    }
    if HasDelta(rows, a) {
      var i :| 0 <= i < |rows| && rows[i].agent == a;
      assert rows[i] in deltas;
    }
    if HasDelta(deltas, a) {
      var i :| 0 <= i < |deltas| && deltas[i].agent == a;
      assert deltas[i] in rows;
    }
  }

  /** The rows of a comparison are those of the agents of either month, costliest now first and ties in
      order of appearance, and hold what each month charges the agent. */
  lemma ComparisonRows(now: seq<AgentGroup>, before: seq<AgentGroup>, a: AgentKey)
    requires OneGroupPerAgent(now) && OneGroupPerAgent(before)
    ensures var rows := Sort(Deltas(now, before), CostlierNow);
            && (HasDelta(rows, a) <==> InMonth(now, a) || InMonth(before, a))
            && (forall r :: r in rows ==> DeltaRow(now, before, r))
            && LargestFirst(rows, Deltas(now, before), CurrentOf)
  {
    var rows, keys := Sort(Deltas(now, before), CostlierNow), Listing(now + before, AgentKeyOf);
    DeltaKeys(now, before, a);
    SameRows(now, before, a);
    forall r | r in rows ensures DeltaRow(now, before, r) {
      assert r in Deltas(now, before);
      var k :| 0 <= k < |keys| && r == Delta(now, before, keys[k]);
      FindIsRow(now, keys[k]);
      FindIsRow(before, keys[k]);
    }
    SortsLargestFirst(Deltas(now, before), CostlierNow, CurrentOf);
  }

  // ---------------------------------------------------------------- series of a closed month

  function TypeOf(line: LineView): TokenType { line.key.tokenType }

  datatype TypeCostRow = TypeCostRow(tokenType: TokenType, cost: int)
  type Split = seq<TypeCostRow>

  function RowCost(r: TypeCostRow): int { r.cost }

  /** The split of a list of lines: one row per token type, in order of first appearance. */
  function SplitOf(lines: seq<LineView>): Split {
    var types := Listing(lines, TypeOf);
    seq(|types|, i requires 0 <= i < |types| => TypeCostRow(types[i], Group(lines, TypeOf, CostOf, types[i])))
  }

  /** `addTokenCost`: into the first row of the type, or a new row at the end. */
  function AddTokenCost(split: Split, t: TokenType, cost: int): Split {
    if |split| == 0 then [TypeCostRow(t, cost)]
    else if split[0].tokenType == t then [TypeCostRow(t, split[0].cost + cost)] + split[1..]
    else [split[0]] + AddTokenCost(split[1..], t, cost)
  }

  lemma {:induction false} AddTokenCostAt(split: Split, t: TokenType, cost: int)
    requires forall i, j :: 0 <= i < j < |split| ==> split[i].tokenType != split[j].tokenType
    ensures var r := AddTokenCost(split, t, cost);
            && (|r| == |split| <==> exists i :: 0 <= i < |split| && split[i].tokenType == t)
            && (|r| == |split| || r == split + [TypeCostRow(t, cost)])
            && (|r| == |split| ==> forall i :: 0 <= i < |split| ==>
                  r[i] == if split[i].tokenType == t then TypeCostRow(t, split[i].cost + cost) else split[i])
  {
    if |split| > 0 && split[0].tokenType != t {
      AddTokenCostAt(split[1..], t, cost);
      assert split == [split[0]] + split[1..];
      if i :| 0 <= i < |split| && split[i].tokenType == t {
        assert split[1..][i - 1].tokenType == t;
      }
    }
  }

  lemma SplitRow(lines: seq<LineView>, x: LineView, u: TokenType)
    ensures Group(lines + [x], TypeOf, CostOf, u) ==
            Group(lines, TypeOf, CostOf, u) + if u == TypeOf(x) then x.cost else 0
    ensures u !in Listing(lines, TypeOf) ==> Group(lines, TypeOf, CostOf, u) == 0
  {
    GroupSnoc(lines, x, TypeOf, CostOf, u);
    if u !in Listing(lines, TypeOf) {
      ListingFacts(lines, TypeOf);
      GroupAbsent(lines, TypeOf, CostOf, u);
    }
  }

  lemma SplitTypes(lines: seq<LineView>, t: TokenType)
    ensures (exists i :: 0 <= i < |SplitOf(lines)| && SplitOf(lines)[i].tokenType == t) <==> t in Listing(lines, TypeOf)
    ensures forall i, j :: 0 <= i < j < |SplitOf(lines)| ==> SplitOf(lines)[i].tokenType != SplitOf(lines)[j].tokenType
  {
    var types := Listing(lines, TypeOf);
    ListingFacts(lines, TypeOf);
    if i :| 0 <= i < |types| && types[i] == t {
      assert SplitOf(lines)[i].tokenType == t;
    }
  }

  /** Row by row, adding a line's cost to the split is splitting one line more. */
  lemma SplitSnocAt(lines: seq<LineView>, x: LineView, longer: Split, added: Split, i: nat)
    requires longer == SplitOf(lines + [x]) && added == AddTokenCost(SplitOf(lines), x.key.tokenType, x.cost)
    requires i < |longer| == |added|
    ensures longer[i] == added[i]
  {
    SplitTypes(lines, x.key.tokenType);
    AddTokenCostAt(SplitOf(lines), x.key.tokenType, x.cost);
    ListingSnoc(lines, x, TypeOf);
    SplitRow(lines, x, longer[i].tokenType);
  }

  lemma SplitSnoc(lines: seq<LineView>, x: LineView)
    ensures SplitOf(lines + [x]) == AddTokenCost(SplitOf(lines), x.key.tokenType, x.cost)
  {
    var longer, added := SplitOf(lines + [x]), AddTokenCost(SplitOf(lines), x.key.tokenType, x.cost);
    SplitTypes(lines, x.key.tokenType);
    AddTokenCostAt(SplitOf(lines), x.key.tokenType, x.cost);
    ListingSnoc(lines, x, TypeOf);
    forall i: nat | i < |longer| ensures longer[i] == added[i] {
      SplitSnocAt(lines, x, longer, added, i);
    }
  }

  /** `splitOfLines`. */
  method SplitOfLines(lines: seq<LineView>) returns (split: Split)
    ensures split == SplitOf(lines)
  {
    split := [];
    for n := 0 to |lines|
      invariant split == SplitOf(lines[..n])
    {
      assert lines[..n + 1] == lines[..n] + [lines[n]];
      SplitSnoc(lines[..n], lines[n]);
      split := AddTokenCost(split, lines[n].key.tokenType, lines[n].cost);
    }
    assert lines[..|lines|] == lines;
  }

  /** A split loses nothing. */
  lemma SplitCloses(lines: seq<LineView>)
    ensures SumBy(SplitOf(lines), RowCost) == SumBy(lines, CostOf)
  {
    var types := Listing(lines, TypeOf);
    ListingFacts(lines, TypeOf);
    SumByZip(SplitOf(lines), types, RowCost, GroupSums(lines, TypeOf, CostOf));
    Partition(lines, TypeOf, CostOf, types);
  }

  function ByModel(m: Text): LineView -> bool {
    (line: LineView) => ModelOf(line) == m
  }

  function LinesOfModel(lines: seq<LineView>, m: Text): seq<LineView> {
    Filter(lines, ByModel(m))
  }

  lemma {:induction false} LinesOfModelSum(lines: seq<LineView>, m: Text)
    ensures SumBy(LinesOfModel(lines, m), CostOf) == Group(lines, ModelOf, CostOf, m)
  {
    if |lines| > 0 {
      var front, last := lines[..|lines| - 1], lines[|lines| - 1];
      LinesOfModelSum(front, m);
      SumBySnoc(LinesOfModel(front, m), last, CostOf);
    }
  }

  ghost predicate SplitsHold(splits: map<Text, Split>, lines: seq<LineView>) {
    && (forall m :: m in splits ==> splits[m] == SplitOf(LinesOfModel(lines, m)))
    && (forall m :: m !in splits ==> LinesOfModel(lines, m) == [])
  }

  /** The `modelSplit` loop of `fromSnapshot`. */
  method SplitModels(lines: seq<LineView>) returns (splits: map<Text, Split>)
    ensures SplitsHold(splits, lines)
  {
    splits := map[];
    for n := 0 to |lines|
      invariant SplitsHold(splits, lines[..n])
    {
      var m, x := ModelOf(lines[n]), lines[n];
      assert lines[..n + 1][..n] == lines[..n];
      SplitSnoc(LinesOfModel(lines[..n], m), x);
      splits := splits[m := AddTokenCost(if m in splits then splits[m] else [], x.key.tokenType, x.cost)];
    }
    assert lines[..|lines|] == lines;
  }

  /** A model's split closes with that model's cost. */
  lemma ModelSplitCloses(lines: seq<LineView>, share: ModelShare)
    requires share.cost == Group(lines, ModelOf, CostOf, share.model)
    ensures SumBy(SplitOf(LinesOfModel(lines, share.model)), RowCost) == share.cost
  {
    SplitCloses(LinesOfModel(lines, share.model));
    LinesOfModelSum(lines, share.model);
  }

  /** A closed month in the series: the split of the total closes with the total, and each model's
      split with that model's cost. */
  lemma SeriesSplitsClose(s: Statement, i: nat)
    requires Closes(s) && i < |s.modelMixTotal|
    requires s.modelMixTotal == ModelSharesOf(s.lines, s.stampedTokensTotal)
    ensures SumBy(SplitOf(s.lines), RowCost) == s.totalCost
    ensures SumBy(SplitOf(LinesOfModel(s.lines, s.modelMixTotal[i].model)), RowCost) == s.modelMixTotal[i].cost
  {
    SplitCloses(s.lines);
    StatementRows.ModelSums(s.lines, s.stampedTokensTotal, i);
    ModelSplitCloses(s.lines, s.modelMixTotal[i]);
  }

  function RecordCost(split: map<TokenType, nat>): TokenType -> int {
    (t: TokenType) => if t in split then split[t] else 0
  }

  function PairCost(lines: seq<LineView>, a: AgentKey): TokenType -> int {
    (t: TokenType) => Group(lines, AgentTypeOf, CostOf, (a, t))
  }

  lemma {:induction false} PairCostsSum(lines: seq<LineView>, a: AgentKey)
    ensures SumBy(TOKEN_TYPES, PairCost(lines, a)) == Group(lines, AgentOf, CostOf, a)
  {
    if |lines| == 0 {
      ZeroSum(TOKEN_TYPES, PairCost(lines, a));
    } else {
      var front, last := lines[..|lines| - 1], lines[|lines| - 1];
      PairCostsSum(front, a);
      OneTypeSpike(front, last, a);
      assert lines == front + [last];
    }
  }

  lemma OneTypeSpike(front: seq<LineView>, x: LineView, a: AgentKey)
    ensures SumBy(TOKEN_TYPES, PairCost(front + [x], a))
         == SumBy(TOKEN_TYPES, PairCost(front, a)) + if AgentOf(x) == a then CostOf(x) else 0
  {
    FourTypes(PairCost(front + [x], a));
    FourTypes(PairCost(front, a));
    forall t: TokenType
      ensures PairCost(front + [x], a)(t) == PairCost(front, a)(t)
              + if AgentOf(x) == a && t == x.key.tokenType then CostOf(x) else 0
    {
      GroupSnoc(front, x, AgentTypeOf, CostOf, (a, t));
    }
  }

  /** An agent's cost record by token type closes with the agent's cost, so the series' per-agent
      splits do too. */
  lemma AgentTypesClose(lines: seq<LineView>, a: AgentKey)
    ensures SumBy(TOKEN_TYPES, RecordCost(TypeSplit(lines, a))) == Group(lines, AgentOf, CostOf, a)
  {
    PairCostsSum(lines, a);
    forall t ensures RecordCost(TypeSplit(lines, a))(t) == PairCost(lines, a)(t) {
      ListingFacts(lines, AgentTypeOf);
      assert t == Input || t == Output || t == CacheRead || t == CacheWrite;
      if (a, t) !in Listing(lines, AgentTypeOf) {
        GroupAbsent(lines, AgentTypeOf, CostOf, (a, t));
      }
    }
    SumByExt(TOKEN_TYPES, RecordCost(TypeSplit(lines, a)), PairCost(lines, a));
  }

  // ---------------------------------------------------------------- versions of one agent, merged

  function TypeSelf(t: TokenType): TokenType { t }

  /** `order` is the key order of a cost record: its keys, each once. */
  ghost predicate IsKeyOrder(order: seq<TokenType>, record: map<TokenType, nat>) {
    NoRepeats(order) && forall t :: t in order <==> t in record
  }

  function RecordRows(record: map<TokenType, nat>, order: seq<TokenType>): (rows: seq<TypeCostRow>)
    ensures |rows| == |order|
  {
    seq(|order|, i requires 0 <= i < |order| => TypeCostRow(order[i], RecordCost(record)(order[i])))
  }

  /** Whatever the key order, the rows of a record sum to its entries. */
  lemma RecordRowsSum(record: map<TokenType, nat>, order: seq<TokenType>)
    requires IsKeyOrder(order, record)
    ensures SumBy(RecordRows(record, order), RowCost) == SumBy(TOKEN_TYPES, RecordCost(record))
  {
    var f := RecordCost(record);
    SumByZip(RecordRows(record, order), order, RowCost, f);
    AllTypesListed();
    Partition(order, TypeSelf, f, TOKEN_TYPES);
    forall t | t in TOKEN_TYPES ensures GroupSums(order, TypeSelf, f)(t) == f(t) {
      SpikeSum(order, TypeSelf, f, t);
      SumByExt(order, At(TypeSelf, f, t), Spike(TypeSelf, f, t));
    }
    SumByExt(TOKEN_TYPES, GroupSums(order, TypeSelf, f), f);
  }

  /** `addTokenCost` over a list of rows. */
  function FoldRows(rows: seq<TypeCostRow>): Split {
    if |rows| == 0 then []
    else AddTokenCost(FoldRows(rows[..|rows| - 1]), rows[|rows| - 1].tokenType, rows[|rows| - 1].cost)
  }

  lemma {:induction false} AddTokenCostSum(split: Split, t: TokenType, cost: int)
    ensures SumBy(AddTokenCost(split, t, cost), RowCost) == SumBy(split, RowCost) + cost
  {
    if |split| > 0 {
      var head, tail := [split[0]], split[1..];
      assert split == head + tail;
      SumByConcat(head, tail, RowCost);
      if split[0].tokenType == t {
        SumByConcat([TypeCostRow(t, split[0].cost + cost)], tail, RowCost);
      } else {
        AddTokenCostSum(tail, t, cost);
        SumByConcat(head, AddTokenCost(tail, t, cost), RowCost);
      }
    }
  }

  lemma {:induction false} FoldRowsSum(rows: seq<TypeCostRow>)
    ensures SumBy(FoldRows(rows), RowCost) == SumBy(rows, RowCost)
  {
    if |rows| > 0 {
      var front, last := rows[..|rows| - 1], rows[|rows| - 1];
      FoldRowsSum(front);
      AddTokenCostSum(FoldRows(front), last.tokenType, last.cost);
    }
  }

  lemma {:induction false} FoldRowsConcat(split: Split, rows: seq<TypeCostRow>, more: seq<TypeCostRow>)
    requires split == FoldRows(rows)
    ensures FoldRows(rows + more) == AddAllRows(split, more)
  {
    if |more| == 0 {
      assert rows + more == rows;
    } else {
      FoldRowsConcat(split, rows, more[..|more| - 1]);
      assert (rows + more)[..|rows + more| - 1] == rows + more[..|more| - 1];
    }
  }

  function AddAllRows(split: Split, rows: seq<TypeCostRow>): Split {
    if |rows| == 0 then split
    else AddTokenCost(AddAllRows(split, rows[..|rows| - 1]), rows[|rows| - 1].tokenType, rows[|rows| - 1].cost)
  }

  /** A key order for the cost record of every agent of the statement. */
  ghost predicate KeyOrders(agents: seq<AgentGroup>, orderOf: AgentKey -> seq<TokenType>) {
    forall g :: g in agents ==> IsKeyOrder(orderOf(g.agent), g.costByTokenType)
  }

  /** The record rows of all versions of one agent id, version by version. */
  function RowsOfId(agents: seq<AgentGroup>, orderOf: AgentKey -> seq<TokenType>, id: Text): seq<TypeCostRow> {
    if |agents| == 0 then []
    else
      var front, g := RowsOfId(agents[..|agents| - 1], orderOf, id), agents[|agents| - 1];
      if g.agent.id == id then front + RecordRows(g.costByTokenType, orderOf(g.agent)) else front
  }

  datatype SeriesAgent = SeriesAgent(id: Text, cost: int, split: Split)

  function SeriesCost(e: SeriesAgent): int { e.cost }
  predicate CostlierAgent(a: SeriesAgent, b: SeriesAgent) { a.cost > b.cost }

  function SeriesAgentOf(agents: seq<AgentGroup>, orderOf: AgentKey -> seq<TokenType>, id: Text): SeriesAgent {
    SeriesAgent(id, Group(agents, AgentId, AgentCost, id), FoldRows(RowsOfId(agents, orderOf, id)))
  }

  function SeriesAgents(agents: seq<AgentGroup>, orderOf: AgentKey -> seq<TokenType>): seq<SeriesAgent> {
    var ids := Listing(agents, AgentId);
    seq(|ids|, i requires 0 <= i < |ids| => SeriesAgentOf(agents, orderOf, ids[i]))
  }

  /** The entries met so far, in insertion order of their ids. */
  ghost predicate Merging(order: seq<Text>, entries: map<Text, SeriesAgent>, agents: seq<AgentGroup>,
                          orderOf: AgentKey -> seq<TokenType>)
  {
    && order == Listing(agents, AgentId) && entries.Keys == Elements(order)
    && forall id :: id in entries ==> entries[id] == SeriesAgentOf(agents, orderOf, id)
  }

  /** The rows of one record into an entry's split. */
  method AddRecord(split: Split, record: map<TokenType, nat>, order: seq<TokenType>) returns (r: Split)
    ensures r == AddAllRows(split, RecordRows(record, order))
  {
    var rows := RecordRows(record, order);
    r := split;
    for n := 0 to |rows|
      invariant r == AddAllRows(split, rows[..n])
    {
      assert rows[..n + 1][..n] == rows[..n];
      r := AddTokenCost(r, rows[n].tokenType, rows[n].cost);
    }
    assert rows[..|rows|] == rows;
  }

  /** One agent more changes the entry of its own id and no other. */
  lemma SeriesAgentSnoc(agents: seq<AgentGroup>, g: AgentGroup, orderOf: AgentKey -> seq<TokenType>, id: Text)
    ensures var e := SeriesAgentOf(agents, orderOf, id);
            SeriesAgentOf(agents + [g], orderOf, id) ==
            if g.agent.id != id then e
            else SeriesAgent(id, e.cost + g.cost, AddAllRows(e.split, RecordRows(g.costByTokenType, orderOf(g.agent))))
  {
    assert (agents + [g])[..|agents|] == agents;
    GroupSnoc(agents, g, AgentId, AgentCost, id);
    FoldRowsConcat(FoldRows(RowsOfId(agents, orderOf, id)), RowsOfId(agents, orderOf, id),
                   RecordRows(g.costByTokenType, orderOf(g.agent)));
  }

  lemma NoEntryYet(agents: seq<AgentGroup>, orderOf: AgentKey -> seq<TokenType>, id: Text)
    requires id !in Listing(agents, AgentId)
    ensures SeriesAgentOf(agents, orderOf, id) == SeriesAgent(id, 0, [])
  {
    ListingFacts(agents, AgentId);
    GroupAbsent(agents, AgentId, AgentCost, id);
    NoRowsYet(agents, orderOf, id);
  }

  lemma MergedKeys(order: seq<Text>, keys: set<Text>, agents: seq<AgentGroup>, g: AgentGroup)
    requires order == Listing(agents, AgentId) && keys == Elements(order)
    ensures var longer := if g.agent.id in keys then order else order + [g.agent.id];
            longer == Listing(agents + [g], AgentId) && keys + {g.agent.id} == Elements(longer)
  {
    ListingSnoc(agents, g, AgentId);
    assert Elements(order + [g.agent.id]) == Elements(order) + {g.agent.id};
  }

  lemma MergedOneMore(order: seq<Text>, entries: map<Text, SeriesAgent>, agents: seq<AgentGroup>, g: AgentGroup,
                      orderOf: AgentKey -> seq<TokenType>)
    requires Merging(order, entries, agents, orderOf)
    ensures g.agent.id !in entries ==> SeriesAgentOf(agents, orderOf, g.agent.id) == SeriesAgent(g.agent.id, 0, [])
    ensures Merging(if g.agent.id in entries then order else order + [g.agent.id],
                    entries[g.agent.id := SeriesAgentOf(agents + [g], orderOf, g.agent.id)], agents + [g], orderOf)
  {
    var id := g.agent.id;
    assert id in entries <==> id in order;
    if id !in entries {
      NoEntryYet(agents, orderOf, id);
    }
    MergedKeys(order, entries.Keys, agents, g);
    var longer := entries[id := SeriesAgentOf(agents + [g], orderOf, id)];
    assert longer.Keys == entries.Keys + {id};
    forall k | k in entries && k != id ensures entries[k] == SeriesAgentOf(agents + [g], orderOf, k) {
      SeriesAgentSnoc(agents, g, orderOf, k);
    }
  }

  lemma {:induction false} NoRowsYet(agents: seq<AgentGroup>, orderOf: AgentKey -> seq<TokenType>, id: Text)
    requires forall g :: g in agents ==> g.agent.id != id
    ensures RowsOfId(agents, orderOf, id) == []
  {
    if |agents| > 0 {
      NoRowsYet(agents[..|agents| - 1], orderOf, id);
    }
  }

  /** What the loop puts under the agent's id is the merged entry. */
  lemma EntryMerged(order: seq<Text>, entries: map<Text, SeriesAgent>, agents: seq<AgentGroup>, g: AgentGroup,
                    orderOf: AgentKey -> seq<TokenType>)
    requires Merging(order, entries, agents, orderOf)
    ensures var id := g.agent.id;
            var entry := if id in entries then entries[id] else SeriesAgent(id, 0, []);
            var rows := RecordRows(g.costByTokenType, orderOf(g.agent));
            SeriesAgentOf(agents + [g], orderOf, id) ==
            SeriesAgent(id, entry.cost + g.cost, AddAllRows(entry.split, rows))
  {
    SeriesAgentSnoc(agents, g, orderOf, g.agent.id);
    if g.agent.id !in entries {
      assert g.agent.id !in order by {
        assert g.agent.id !in Elements(order);
      }
      NoEntryYet(agents, orderOf, g.agent.id);
    }
  }

  /** One agent into the entries. */
  method MergeOne(order: seq<Text>, entries: map<Text, SeriesAgent>, g: AgentGroup,
                  orderOf: AgentKey -> seq<TokenType>, ghost agents: seq<AgentGroup>)
    returns (order': seq<Text>, entries': map<Text, SeriesAgent>)
    requires Merging(order, entries, agents, orderOf)
    ensures Merging(order', entries', agents + [g], orderOf)
  {
    EntryMerged(order, entries, agents, g, orderOf);
    MergedOneMore(order, entries, agents, g, orderOf);
    var entry := if g.agent.id in entries then entries[g.agent.id] else SeriesAgent(g.agent.id, 0, []);
    var split := AddRecord(entry.split, g.costByTokenType, orderOf(g.agent));
    var merged := SeriesAgent(g.agent.id, entry.cost + g.cost, split);
    assert merged == SeriesAgentOf(agents + [g], orderOf, g.agent.id);
    order' := if g.agent.id in entries then order else order + [g.agent.id];
    entries' := entries[g.agent.id := merged];
  }

  /** The `byAgent` loop of `fromSnapshot`, costliest first. */
  method MergeVersions(agents: seq<AgentGroup>, orderOf: AgentKey -> seq<TokenType>) returns (series: seq<SeriesAgent>)
    ensures series == Sort(SeriesAgents(agents, orderOf), CostlierAgent)
  {
    var order: seq<Text>, entries: map<Text, SeriesAgent> := [], map[];
    for n := 0 to |agents|
      invariant Merging(order, entries, agents[..n], orderOf)
    {
      assert agents[..n + 1] == agents[..n] + [agents[n]];
      order, entries := MergeOne(order, entries, agents[n], orderOf, agents[..n]);
    }
    assert agents[..|agents|] == agents;
    assert forall i :: 0 <= i < |order| ==> order[i] in Elements(order);
    var merged := seq(|order|, i requires 0 <= i < |order| && order[i] in entries => entries[order[i]]);
    assert merged == SeriesAgents(agents, orderOf);
    series := Sort(merged, CostlierAgent);
  }

  lemma {:induction false} RowsOfIdSum(agents: seq<AgentGroup>, orderOf: AgentKey -> seq<TokenType>, id: Text)
    requires KeyOrders(agents, orderOf)
    requires forall g :: g in agents ==> g.cost == SumBy(TOKEN_TYPES, RecordCost(g.costByTokenType))
    ensures SumBy(RowsOfId(agents, orderOf, id), RowCost) == Group(agents, AgentId, AgentCost, id)
  {
    if |agents| > 0 {
      var front, g := agents[..|agents| - 1], agents[|agents| - 1];
      assert g in agents;
      RowsOfIdSum(front, orderOf, id);
      assert agents == front + [g];
      GroupSnoc(front, g, AgentId, AgentCost, id);
      if g.agent.id == id {
        RecordRowsSum(g.costByTokenType, orderOf(g.agent));
        SumByConcat(RowsOfId(front, orderOf, id), RecordRows(g.costByTokenType, orderOf(g.agent)), RowCost);
      }
    }
  }

  function RowType(r: TypeCostRow): TokenType { r.tokenType }

  ghost predicate HasTypeRow(split: Split, t: TokenType) {
    exists i :: 0 <= i < |split| && split[i].tokenType == t
  }

  /** What the agent costs for a token type, if it is a version of that id. */
  function TypeCostOfId(id: Text, t: TokenType): AgentGroup -> int {
    (g: AgentGroup) => if g.agent.id == id then RecordCost(g.costByTokenType)(t) else 0
  }

  lemma GroupFront(row: TypeCostRow, tail: Split, u: TokenType)
    ensures Group([row] + tail, RowType, RowCost, u)
         == Group(tail, RowType, RowCost, u) + if row.tokenType == u then row.cost else 0
  {
    SumByConcat([row], tail, At(RowType, RowCost, u));
    assert [] + [row] == [row];
    GroupSnoc([], row, RowType, RowCost, u);
  }

  lemma {:induction false} AddTokenCostGroup(split: Split, t: TokenType, cost: int, u: TokenType)
    ensures Group(AddTokenCost(split, t, cost), RowType, RowCost, u)
         == Group(split, RowType, RowCost, u) + if t == u then cost else 0
  {
    if |split| == 0 {
      assert [TypeCostRow(t, cost)] + [] == [TypeCostRow(t, cost)];
      GroupFront(TypeCostRow(t, cost), [], u);
    } else {
      var tail := split[1..];
      assert split == [split[0]] + tail;
      GroupFront(split[0], tail, u);
      if split[0].tokenType == t {
        GroupFront(TypeCostRow(t, split[0].cost + cost), tail, u);
      } else {
        AddTokenCostGroup(tail, t, cost, u);
        GroupFront(split[0], AddTokenCost(tail, t, cost), u);
      }
    }
  }

  lemma {:induction false} FoldRowsGroup(rows: seq<TypeCostRow>, u: TokenType)
    ensures Group(FoldRows(rows), RowType, RowCost, u) == Group(rows, RowType, RowCost, u)
  {
    if |rows| > 0 {
      var front, last := rows[..|rows| - 1], rows[|rows| - 1];
      assert rows == front + [last];
      FoldRowsGroup(front, u);
      GroupSnoc(front, last, RowType, RowCost, u);
      AddTokenCostGroup(FoldRows(front), last.tokenType, last.cost, u);
    }
  }

  /** A fold has one row per type of the rows folded. */
  lemma {:induction false} FoldRowsTypes(rows: seq<TypeCostRow>, u: TokenType)
    ensures forall i, j :: 0 <= i < j < |FoldRows(rows)| ==> FoldRows(rows)[i].tokenType != FoldRows(rows)[j].tokenType
    ensures HasTypeRow(FoldRows(rows), u) <==> HasTypeRow(rows, u)
  {
    if |rows| > 0 {
      var front, last := rows[..|rows| - 1], rows[|rows| - 1];
      FoldRowsTypes(front, u);
      AddTokenCostAt(FoldRows(front), last.tokenType, last.cost);
      FoldOneMore(FoldRows(front), last.tokenType, last.cost, u);
      if HasTypeRow(rows, u) && last.tokenType != u {
        var i :| 0 <= i < |rows| && rows[i].tokenType == u;
        assert front[i].tokenType == u;
      }
      if HasTypeRow(front, u) {
        var i :| 0 <= i < |front| && front[i].tokenType == u;
        assert rows[i].tokenType == u;
      }
    }
  }

  lemma FoldOneMore(split: Split, t: TokenType, cost: int, u: TokenType)
    requires forall i, j :: 0 <= i < j < |split| ==> split[i].tokenType != split[j].tokenType
    ensures var r := AddTokenCost(split, t, cost);
            && (forall i, j :: 0 <= i < j < |r| ==> r[i].tokenType != r[j].tokenType)
            && (HasTypeRow(r, u) <==> HasTypeRow(split, u) || t == u)
  {
    var r := AddTokenCost(split, t, cost);
    AddTokenCostAt(split, t, cost);
    forall i | 0 <= i < |split| ensures r[i].tokenType == split[i].tokenType {}
    if HasTypeRow(split, u) {
      var i :| 0 <= i < |split| && split[i].tokenType == u;
      assert r[i].tokenType == u;
    }
    if t == u && |r| != |split| {
      assert r[|split|].tokenType == u;
    }
  }

  lemma RecordRowsGroup(record: map<TokenType, nat>, order: seq<TokenType>, u: TokenType)
    requires IsKeyOrder(order, record)
    ensures Group(RecordRows(record, order), RowType, RowCost, u) == RecordCost(record)(u)
    ensures HasTypeRow(RecordRows(record, order), u) <==> u in record
  {
    var rows := RecordRows(record, order);
    if u in order {
      var i :| 0 <= i < |order| && order[i] == u;
      assert rows[i].tokenType == u;
      GroupSingle(rows, RowType, RowCost, i);
    } else {
      GroupAbsent(rows, RowType, RowCost, u);
    }
  }

  ghost predicate SomeVersionHas(agents: seq<AgentGroup>, id: Text, t: TokenType) {
    exists g :: g in agents && g.agent.id == id && t in g.costByTokenType
  }

  lemma TypeRowConcat(a: Split, b: Split, u: TokenType)
    ensures HasTypeRow(a + b, u) <==> HasTypeRow(a, u) || HasTypeRow(b, u)
  {
    if HasTypeRow(a, u) {
      var i :| 0 <= i < |a| && a[i].tokenType == u;
      assert (a + b)[i].tokenType == u;
    }
    if HasTypeRow(b, u) {
      var i :| 0 <= i < |b| && b[i].tokenType == u;
      assert (a + b)[|a| + i].tokenType == u;
    }
  }

  lemma {:induction false} RowsOfIdGroup(agents: seq<AgentGroup>, orderOf: AgentKey -> seq<TokenType>, id: Text,
                                         u: TokenType)
    requires KeyOrders(agents, orderOf)
    ensures Group(RowsOfId(agents, orderOf, id), RowType, RowCost, u) == SumBy(agents, TypeCostOfId(id, u))
    ensures HasTypeRow(RowsOfId(agents, orderOf, id), u) <==> SomeVersionHas(agents, id, u)
  {
    if |agents| > 0 {
      var front, g := agents[..|agents| - 1], agents[|agents| - 1];
      assert agents == front + [g] && g in agents;
      RowsOfIdGroup(front, orderOf, id, u);
      if g.agent.id == id {
        var rows := RecordRows(g.costByTokenType, orderOf(g.agent));
        RecordRowsGroup(g.costByTokenType, orderOf(g.agent), u);
        SumByConcat(RowsOfId(front, orderOf, id), rows, At(RowType, RowCost, u));
        TypeRowConcat(RowsOfId(front, orderOf, id), rows, u);
      }
    }
  }

  /** The merged entry of an agent id: one row per token type that some version has, with what all
      versions cost for it. */
  lemma SeriesEntryShows(agents: seq<AgentGroup>, orderOf: AgentKey -> seq<TokenType>, id: Text, t: TokenType)
    requires KeyOrders(agents, orderOf)
    ensures var e := SeriesAgentOf(agents, orderOf, id);
            && e.cost == Group(agents, AgentId, AgentCost, id)
            && (forall i, j :: 0 <= i < j < |e.split| ==> e.split[i].tokenType != e.split[j].tokenType)
            && (HasTypeRow(e.split, t) <==> SomeVersionHas(agents, id, t))
            && Group(e.split, RowType, RowCost, t) == SumBy(agents, TypeCostOfId(id, t))
    ensures LargestFirst(Sort(SeriesAgents(agents, orderOf), CostlierAgent), SeriesAgents(agents, orderOf), SeriesCost)
  {
    var rows := RowsOfId(agents, orderOf, id);
    RowsOfIdGroup(agents, orderOf, id, t);
    FoldRowsGroup(rows, t);
    FoldRowsTypes(rows, t);
    SortsLargestFirst(SeriesAgents(agents, orderOf), CostlierAgent, SeriesCost);
  }

  /** The agents of a closed month in the series: whatever order the cost records keep their keys in,
      each merged entry's rows sum to its cost, and the entries sum to the month's total. */
  lemma SeriesAgentsClose(s: Statement, orderOf: AgentKey -> seq<TokenType>)
    requires Closes(s) && s.agents == AgentsOf(s.lines) && KeyOrders(s.agents, orderOf)
    ensures forall e :: e in SeriesAgents(s.agents, orderOf) ==> SumBy(e.split, RowCost) == e.cost
    ensures SumBy(Sort(SeriesAgents(s.agents, orderOf), CostlierAgent), SeriesCost) == s.totalCost
  {
    var entries, ids := SeriesAgents(s.agents, orderOf), Listing(s.agents, AgentId);
    forall g | g in s.agents ensures g.cost == SumBy(TOKEN_TYPES, RecordCost(g.costByTokenType)) {
      AgentsAreGroups(s.lines);
      AgentTypesClose(s.lines, g.agent);
    }
    forall e | e in entries ensures SumBy(e.split, RowCost) == e.cost {
      FoldRowsSum(RowsOfId(s.agents, orderOf, e.id));
      RowsOfIdSum(s.agents, orderOf, e.id);
    }
    ListingFacts(s.agents, AgentId);
    SortElements(entries, CostlierAgent);
    SumByPermutation(Sort(entries, CostlierAgent), entries, SeriesCost);
    SumByZip(entries, ids, SeriesCost, GroupSums(s.agents, AgentId, AgentCost));
    Partition(s.agents, AgentId, AgentCost, ids);
  }
}
