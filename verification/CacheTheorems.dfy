/** statement-engine.ts, the cache savings of a month, read off the stamped costs themselves. */
module CacheTheorems {
  import opened Wrappers
  import opened Sums
  import opened Sorting
  import opened Money
  import opened LargestRemainder
  import opened StatementModel
  import opened StatementSpec
  import opened StatementEngine

  // ---------------------------------------------------------------- what a trace was stamped with

  /** The `i`-th stamped cost is the trace's first of its type. */
  ghost predicate IsFirst(costs: seq<StampedCost>, t: TokenType, i: int) {
    0 <= i < |costs| && costs[i].tokenType == t && forall j :: 0 <= j < i ==> costs[j].tokenType != t
  }

  /** The stamp of a trace for a type, if it has one. */
  ghost function StampOf(r: UsageRecord, t: TokenType): Option<StampedCost> {
    if i :| IsFirst(r.stampedCosts, t, i) then Some(r.stampedCosts[i]) else None
  }

  lemma {:induction false} FindIsFirst(costs: seq<StampedCost>, t: TokenType)
    ensures FirstOf(costs, t).None? ==> forall i :: !IsFirst(costs, t, i)
    ensures FirstOf(costs, t).Some? ==> exists i :: IsFirst(costs, t, i) && costs[i] == FirstOf(costs, t).value
  {
    if |costs| > 0 {
      if costs[0].tokenType == t {
        assert IsFirst(costs, t, 0);
      } else {
        FindIsFirst(costs[1..], t);
        forall i ensures IsFirst(costs, t, i) <==> IsFirst(costs[1..], t, i - 1) {
          if IsFirst(costs[1..], t, i - 1) {
            forall j | 0 <= j < i ensures costs[j].tokenType != t {
              assert j > 0 ==> costs[j] == costs[1..][j - 1];
            }
          } else if IsFirst(costs, t, i) {
            forall j | 0 <= j < i - 1 ensures costs[1..][j].tokenType != t {
              assert costs[1..][j] == costs[j + 1];
            }
          }
        }
        if FirstOf(costs, t).Some? {
          var i :| IsFirst(costs[1..], t, i) && costs[1..][i] == FirstOf(costs, t).value;
          assert IsFirst(costs, t, i + 1);
        }
      }
    }
  }

  lemma StampIsFound(r: UsageRecord, t: TokenType)
    ensures StampOf(r, t) == FirstOf(r.stampedCosts, t)
  {
    FindIsFirst(r.stampedCosts, t);
    forall i, j | IsFirst(r.stampedCosts, t, i) && IsFirst(r.stampedCosts, t, j) ensures i == j {}
  }

  /** The trace read something from the cache. */
  ghost predicate Reads(r: UsageRecord) {
    StampOf(r, CacheRead).Some? && StampOf(r, CacheRead).value.tokens > 0
  }

  /** It can be said what those reads would have cost as input. */
  ghost predicate Priced(r: UsageRecord) {
    Reads(r) && StampOf(r, Input).Some?
  }

  ghost function TokensRead(): UsageRecord -> int {
    (r: UsageRecord) => if Reads(r) then StampOf(r, CacheRead).value.tokens else 0
  }

  ghost function PaidForReads(): UsageRecord -> int {
    (r: UsageRecord) => if Reads(r) then StampOf(r, CacheRead).value.cost else 0
  }

  ghost function PaidForWrites(): UsageRecord -> int {
    (r: UsageRecord) => if StampOf(r, CacheWrite).Some? then StampOf(r, CacheWrite).value.cost else 0
  }

  /** The cache reads at the trace's own input price, unrounded. */
  ghost function AsInput(): UsageRecord -> int {
    (r: UsageRecord) =>
      if Priced(r) then StampOf(r, CacheRead).value.tokens * StampOf(r, Input).value.price else 0
  }

  ghost function Unpriced(): UsageRecord -> int {
    (r: UsageRecord) => if Reads(r) && !Priced(r) then 1 else 0
  }

  /** The input prices of those traces, each once. */
  ghost function InputPrices(records: seq<UsageRecord>): set<nat> {
    set r | r in records && Priced(r) :: StampOf(r, Input).value.price
  }

  // ---------------------------------------------------------------- pricing the buckets

  function ValueOf(c: Counterfactual): int { c.tokens * c.price }

  lemma {:induction false} BucketValue(items: seq<Counterfactual>, price: nat)
    ensures Group(items, PriceOf, ValueOf, price) == Group(items, PriceOf, CounterfactualTokens, price) * price
  {
    if |items| > 0 {
      var front, last := items[..|items| - 1], items[|items| - 1];
      BucketValue(front, price);
      assert items == front + [last];
      GroupSnoc(front, last, PriceOf, ValueOf, price);
      GroupSnoc(front, last, PriceOf, CounterfactualTokens, price);
      if last.price == price {
        assert (Group(front, PriceOf, CounterfactualTokens, price) + last.tokens) * price
            == Group(front, PriceOf, CounterfactualTokens, price) * price + last.tokens * price;
      }
    }
  }

  /** Each bucket is off by at most half a micro-centavo. */
  lemma {:induction false} BucketsNearValue(items: seq<Counterfactual>, prices: seq<nat>)
    requires BucketCosts(items, prices).Some?
    ensures var gap := 1_000_000 * Sum(BucketCosts(items, prices).value)
                       - SumBy(prices, GroupSums(items, PriceOf, ValueOf));
            -500_000 * |prices| <= gap <= 500_000 * |prices|
  {
    if |prices| > 0 {
      var n := |prices| - 1;
      BucketsNearValue(items, prices[..n]);
      BucketValue(items, prices[n]);
      var front, last := BucketCosts(items, prices[..n]).value, BucketCosts(items, prices).value[n];
      assert BucketCosts(items, prices).value == front + [last];
      SumSnoc(front, last);
    }
  }

  ghost predicate HasPrice(items: seq<Counterfactual>, p: nat) {
    exists c :: c in items && c.price == p
  }

  /** What a record puts into the buckets. */
  lemma OneCounterfactual(r: UsageRecord)
    ensures CounterfactualsOf(r) ==
            if Priced(r) then [Counterfactual(StampOf(r, Input).value.price, StampOf(r, CacheRead).value.tokens)]
              else []
  {
    StampIsFound(r, CacheRead);
    StampIsFound(r, Input);
  }

  lemma OneTerm(c: Counterfactual)
    ensures SumBy([c], ValueOf) == ValueOf(c)
    ensures forall p :: HasPrice([c], p) <==> p == c.price
  {
    assert [c] == [] + [c];
    SumBySnoc([], c, ValueOf);
    assert [c][0] in [c];
  }

  lemma OneValue(r: UsageRecord)
    ensures SumBy(CounterfactualsOf(r), ValueOf) == AsInput()(r)
    ensures forall p :: HasPrice(CounterfactualsOf(r), p) <==> Priced(r) && p == StampOf(r, Input).value.price
  {
    OneCounterfactual(r);
    if Priced(r) {
      OneTerm(CounterfactualsOf(r)[0]);
    }
  }

  lemma {:induction false} ValuesOfRecords(records: seq<UsageRecord>)
    ensures SumBy(Counterfactuals(records), ValueOf) == SumBy(records, AsInput())
    ensures forall p :: p in InputPrices(records) <==> HasPrice(Counterfactuals(records), p)
  {
    if |records| > 0 {
      var front, r := records[..|records| - 1], records[|records| - 1];
      ValuesOfRecords(front);
      SumByConcat(Counterfactuals(front), CounterfactualsOf(r), ValueOf);
      OneValue(r);
      assert records == front + [r];
      forall p ensures p in InputPrices(records) <==> HasPrice(Counterfactuals(records), p) {
        assert p in InputPrices(records)
               <==> p in InputPrices(front) || (Priced(r) && p == StampOf(r, Input).value.price);
        assert HasPrice(Counterfactuals(records), p)
               <==> HasPrice(Counterfactuals(front), p) || HasPrice(CounterfactualsOf(r), p);
      }
    }
  }

  lemma ListedPrices(records: seq<UsageRecord>)
    ensures Elements(Listing(Counterfactuals(records), PriceOf)) == InputPrices(records)
  {
    var items := Counterfactuals(records);
    var listed := Listing(items, PriceOf);
    ListingFacts(items, PriceOf);
    ValuesOfRecords(records);
    forall p ensures p in listed <==> p in InputPrices(records) {
      if p in InputPrices(records) {
        var c :| c in items && c.price == p;
        assert PriceOf(c) in listed;
      }
    }
  }

  /** One bucket for every input price. */
  lemma BucketCount(records: seq<UsageRecord>)
    ensures var prices := Sort(Listing(Counterfactuals(records), PriceOf), NatLess);
            NoRepeats(prices) && |prices| == |InputPrices(records)|
  {
    var items := Counterfactuals(records);
    var listed := Listing(items, PriceOf);
    ListingFacts(items, PriceOf);
    ValuesOfRecords(records);
    SortElements(listed, NatLess);
    SortMultiset(listed, NatLess);
    DistinctCardinality(listed);
    ListedPrices(records);
    var prices := Sort(listed, NatLess);
    assert |prices| == |multiset(prices)| == |multiset(listed)| == |listed|;
    SameDistinct(listed, prices);
  }

  lemma SameDistinct(a: seq<nat>, b: seq<nat>)
    requires NoRepeats(a) && multiset(a) == multiset(b)
    ensures NoRepeats(b)
  {
    forall i, j | 0 <= i < j < |b| ensures b[i] != b[j] {
      if b[i] == b[j] {
        assert b == b[..i] + [b[i]] + b[i + 1..j] + [b[j]] + b[j + 1..];
        assert multiset(b)[b[i]] >= 2;
        OnceOnly(a, b[i]);
        assert false;
      }
    }
  }

  lemma {:induction false} OnceOnly(a: seq<nat>, x: nat)
    requires NoRepeats(a)
    ensures multiset(a)[x] <= 1
  {
    if |a| > 0 {
      var front, last := a[..|a| - 1], a[|a| - 1];
      OnceOnly(front, x);
      assert a == front + [last];
      assert last !in front;
    }
  }

  lemma NearValue(records: seq<UsageRecord>)
    requires CounterfactualCost(Counterfactuals(records)).Some?
    ensures var gap := 1_000_000 * CounterfactualCost(Counterfactuals(records)).value - SumBy(records, AsInput());
            -500_000 * |InputPrices(records)| <= gap <= 500_000 * |InputPrices(records)|
  {
    BucketsTotal(Counterfactuals(records));
    BucketCount(records);
    ValuesOfRecords(records);
  }

  lemma BucketsTotal(items: seq<Counterfactual>)
    requires CounterfactualCost(items).Some?
    ensures var gap := 1_000_000 * CounterfactualCost(items).value - SumBy(items, ValueOf);
            var buckets := |Sort(Listing(items, PriceOf), NatLess)|;
            -500_000 * buckets <= gap <= 500_000 * buckets
  {
    BucketsNearValue(items, Sort(Listing(items, PriceOf), NatLess));
    BucketsCover(items);
  }

  lemma BucketsCover(items: seq<Counterfactual>)
    ensures SumBy(Sort(Listing(items, PriceOf), NatLess), GroupSums(items, PriceOf, ValueOf)) == SumBy(items, ValueOf)
  {
    var listed := Listing(items, PriceOf);
    ListingFacts(items, PriceOf);
    SortMultiset(listed, NatLess);
    SumByPermutation(listed, Sort(listed, NatLess), GroupSums(items, PriceOf, ValueOf));
    Partition(items, PriceOf, ValueOf, listed);
  }

  // ---------------------------------------------------------------- when the month is refused

  ghost function ReadAt(price: nat): UsageRecord -> int {
    (r: UsageRecord) =>
      if Priced(r) && StampOf(r, Input).value.price == price then StampOf(r, CacheRead).value.tokens else 0
  }

  ghost function TokensAt(records: seq<UsageRecord>, price: nat): (tokens: nat)
    ensures tokens == SumBy(records, ReadAt(price))
  {
    SumByNonNegative(records, ReadAt(price));
    SumBy(records, ReadAt(price))
  }

  /** What the month's reads at one input price would have cost, or zero when that is no safe amount. */
  ghost function CostAt(records: seq<UsageRecord>): nat -> int {
    (price: nat) =>
      var cost := CostMicrocents(TokensAt(records, price), price);
      if cost.Ok? then cost.value else 0
  }

  lemma {:induction false} BucketOfRecords(records: seq<UsageRecord>, price: nat)
    ensures Group(Counterfactuals(records), PriceOf, CounterfactualTokens, price) == SumBy(records, ReadAt(price))
  {
    if |records| > 0 {
      var front, r := records[..|records| - 1], records[|records| - 1];
      BucketOfRecords(front, price);
      StampIsFound(r, CacheRead);
      StampIsFound(r, Input);
      if Priced(r) {
        assert CounterfactualsOf(r) == [CounterfactualsOf(r)[0]];
        GroupSnoc(Counterfactuals(front), CounterfactualsOf(r)[0], PriceOf, CounterfactualTokens, price);
      } else {
        assert Counterfactuals(front) + CounterfactualsOf(r) == Counterfactuals(front);
      }
    }
  }

  lemma {:induction false} SumOfDistinct(s: seq<nat>, f: nat -> int)
    requires NoRepeats(s)
    ensures SumBy(s, f) == SumSet(Elements(s), f)
  {
    if |s| > 0 {
      var front, last := s[..|s| - 1], s[|s| - 1];
      SumOfDistinct(front, f);
      assert s == front + [last];
      assert last !in front && last in Elements(s);
      SumSetRemove(Elements(s), last, f);
      assert Elements(s) - {last} == Elements(front);
    }
  }

  /** The cache half refuses a month exactly when the reads at some input price, or all of them
      together, come to no safe amount; otherwise the counterfactual is the sum over the prices. */
  lemma CounterfactualIff(records: seq<UsageRecord>)
    ensures CacheSavingsOf(records).Some?
            <==> (forall p :: p in InputPrices(records) ==> CostMicrocents(TokensAt(records, p), p).Ok?)
                 && SumSet(InputPrices(records), CostAt(records)) <= MAX_SAFE
    ensures CacheSavingsOf(records).Some? ==>
              CacheSavingsOf(records).value.counterfactualInputCost == SumSet(InputPrices(records), CostAt(records))
  {
    var items := Counterfactuals(records);
    var listed := Listing(items, PriceOf);
    ListingFacts(items, PriceOf);
    ListedPrices(records);
    CounterfactualInAnyOrder(items);
    BucketCostsFacts(items, listed);
    forall p: nat ensures BucketTokens(items, p) == TokensAt(records, p) {
      BucketOfRecords(records, p);
    }
    SumByExt(listed, BucketPrice(items), CostAt(records));
    SumOfDistinct(listed, CostAt(records));
  }

  // ---------------------------------------------------------------- what the savings say

  /** Whatever buckets they were computed in: the tokens read and paid for, what writing cost, the
      reads at each trace's own input price to within half a micro-centavo per distinct price, and the
      differences; reads without an input price are counted apart. */
  ghost predicate SavingsHold(records: seq<UsageRecord>, c: CacheSavings) {
    var gap := 1_000_000 * c.counterfactualInputCost - SumBy(records, AsInput());
    && -500_000 * |InputPrices(records)| <= gap <= 500_000 * |InputPrices(records)|
    && c.cacheReadTokens == SumBy(records, TokensRead())
    && c.actualCacheReadCost == SumBy(records, PaidForReads())
    && c.cacheWriteCost == SumBy(records, PaidForWrites())
    && c.unpriceableCacheReadTraces == SumBy(records, Unpriced())
    && c.savings == c.counterfactualInputCost - SumBy(records, PaidForReads())
    && c.netSavings == c.savings - SumBy(records, PaidForWrites())
  }

  lemma SavingsMeaning(records: seq<UsageRecord>)
    requires CacheSavingsOf(records).Some?
    ensures SavingsHold(records, CacheSavingsOf(records).value)
  {
    NearValue(records);
    forall r | r in records
      ensures ReadTokens(r) == TokensRead()(r) && ReadCost(r) == PaidForReads()(r)
      ensures WriteCost(r) == PaidForWrites()(r) && Unpriceable(r) == Unpriced()(r)
    {
      StampIsFound(r, CacheRead);
      StampIsFound(r, CacheWrite);
      StampIsFound(r, Input);
    }
    SumByExt(records, ReadTokens, TokensRead());
    SumByExt(records, ReadCost, PaidForReads());
    SumByExt(records, WriteCost, PaidForWrites());
    SumByExt(records, Unpriceable, Unpriced());
  }

  /** A month has a statement exactly when its total and its cache half are safe amounts, and the
      statement's cache savings mean that. */
  lemma StatementIff(records: seq<UsageRecord>)
    ensures StatementOf(records).Some?
            <==> SumBy(Entries(records), EntryCost) <= MAX_SAFE
                 && (forall p :: p in InputPrices(records) ==> CostMicrocents(TokensAt(records, p), p).Ok?)
                 && SumSet(InputPrices(records), CostAt(records)) <= MAX_SAFE
    ensures StatementOf(records).Some? ==> SavingsHold(records, StatementOf(records).value.cacheSavings)
  {
    CounterfactualIff(records);
    if StatementOf(records).Some? {
      SavingsMeaning(records);
    }
  }
}
