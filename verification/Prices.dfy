/**
 * price-version-repository.ts and price-stamper.ts: the as-of price lookup, and the rule that
 * turns token counts into a stamp, or into no stamp at all.
 */
module Prices {
  import opened Wrappers
  import opened Sums
  import opened Money
  import opened StatementModel

  /** `resolvable` tells the pricing types this build knows from later ones. */
  datatype PriceVersion = PriceVersion(
    model: string, tokenType: TokenType, price: int, effectiveFrom: int, resolvable: bool)

  type EffectivePrices = map<TokenType, PriceVersion>

  predicate Covers(v: PriceVersion, model: string, t: TokenType, at: int) {
    v.model == model && v.tokenType == t && v.effectiveFrom <= at
  }

  /** The latest version of a model and token type in effect at `at`. */
  function Latest(table: seq<PriceVersion>, model: string, t: TokenType, at: int): Option<PriceVersion> {
    if |table| == 0 then None
    else
      var front, v := Latest(table[..|table| - 1], model, t, at), table[|table| - 1];
      if Covers(v, model, t, at) && (front.None? || front.value.effectiveFrom < v.effectiveFrom) then Some(v) else front
  }

  function PricesAt(table: seq<PriceVersion>, model: string, at: int): EffectivePrices {
    map t | t in TOKEN_TYPES && Latest(table, model, t, at).Some? && Latest(table, model, t, at).value.resolvable
         :: Latest(table, model, t, at).value
  }

  predicate SameSlot(a: PriceVersion, b: PriceVersion) {
    a.model == b.model && a.tokenType == b.tokenType && a.effectiveFrom == b.effectiveFrom
  }

  /** The unique index of the price table. */
  ghost predicate UniqueSlots(table: seq<PriceVersion>) {
    forall i, j :: 0 <= i < j < |table| ==> !SameSlot(table[i], table[j])
  }

  /** `insertVersion`: insert-only, duplicates refused. */
  function InsertVersion(table: seq<PriceVersion>, v: PriceVersion): Option<seq<PriceVersion>> {
    if exists i :: 0 <= i < |table| && SameSlot(table[i], v) then None else Some(table + [v])
  }

  /** The lookup finds the version of the slot with the greatest date not after `at`. */
  lemma {:induction false} LatestFacts(table: seq<PriceVersion>, model: string, t: TokenType, at: int)
    ensures var r := Latest(table, model, t, at);
            if r.None? then forall v :: v in table ==> !Covers(v, model, t, at)
            else r.value in table && Covers(r.value, model, t, at)
                 && forall v :: v in table && Covers(v, model, t, at) ==> v.effectiveFrom <= r.value.effectiveFrom
  {
    if |table| > 0 {
      var front, v := table[..|table| - 1], table[|table| - 1];
      LatestFacts(front, model, t, at);
      assert table == front + [v];
      assert v in table;
    }
  }

  /** As-of determinism: only which versions are in effect matters, not the instant itself. */
  lemma {:induction false} SameVersionsSamePrices(table: seq<PriceVersion>, model: string, t: TokenType, a: int, b: int)
    requires forall v :: v in table && v.model == model ==> (v.effectiveFrom <= a <==> v.effectiveFrom <= b)
    ensures Latest(table, model, t, a) == Latest(table, model, t, b)
  {
    if |table| > 0 {
      assert table == table[..|table| - 1] + [table[|table| - 1]];
      SameVersionsSamePrices(table[..|table| - 1], model, t, a, b);
    }
  }

  // ---------------------------------------------------------------- the stamping rule

  type TokenCounts = map<TokenType, int>

  function CountOf(tokens: TokenCounts, t: TokenType): int {
    if t in tokens then tokens[t] else 0
  }

  function UsedTypes(tokens: TokenCounts): seq<TokenType> {
    Filter(TOKEN_TYPES, t => CountOf(tokens, t) > 0)
  }

  function FindMissingPriceTokenTypes(tokens: TokenCounts, prices: EffectivePrices): seq<TokenType> {
    Filter(UsedTypes(tokens), t => t !in prices)
  }

  datatype StampOutcome =
    | Stamped(costs: seq<StampedCost>, total: nat)
    | PendingPrice(missing: seq<TokenType>)
    | NoMeasuredUsage

  /** One stamped cost per type; the first amount outside the safe range is an error. */
  function CostsFor(types: seq<TokenType>, tokens: TokenCounts, prices: EffectivePrices)
    : (r: Result<seq<StampedCost>, MoneyError>)
    requires forall t :: t in types ==> t in prices && CountOf(tokens, t) > 0
  {
    if |types| == 0 then Ok([])
    else
      var front, t := CostsFor(types[..|types| - 1], tokens, prices), types[|types| - 1];
      if front.Err? then front
      else
        var cost := CostMicrocents(CountOf(tokens, t), prices[t].price);
        if cost.Err? then Err(cost.error)
        else
          var stamped := StampedCost(t, CountOf(tokens, t), prices[t].price, prices[t].effectiveFrom, cost.value);
          Ok(front.value + [stamped])
  }

  function CostAmounts(costs: seq<StampedCost>): (r: seq<int>)
    ensures |r| == |costs| && forall i :: 0 <= i < |r| ==> r[i] == costs[i].cost
  {
    seq(|costs|, i requires 0 <= i < |costs| => costs[i].cost)
  }

  function StampTokens(tokens: TokenCounts, prices: EffectivePrices, hasModel: bool): Result<StampOutcome, MoneyError> {
    FilterFacts(TOKEN_TYPES, t => CountOf(tokens, t) > 0);
    FilterFacts(UsedTypes(tokens), t => t !in prices);
    var used, missing := UsedTypes(tokens), FindMissingPriceTokenTypes(tokens, prices);
    if hasModel && |used| == 0 then Ok(NoMeasuredUsage)
    else if |missing| > 0 then Ok(PendingPrice(missing))
    else
      assert forall t :: t in used && t !in prices ==> t in missing;
      var costs := CostsFor(used, tokens, prices);
      if costs.Err? then Err(costs.error)
      else
        var total := CheckedSum(CostAmounts(costs.value));
        if total.Err? then Err(total.error) else Ok(Stamped(costs.value, total.value))
  }

  predicate Uses(tokens: TokenCounts, t: TokenType) {
    CountOf(tokens, t) > 0
  }

  lemma UsedFacts(tokens: TokenCounts, prices: EffectivePrices)
    ensures forall t :: t in UsedTypes(tokens) <==> Uses(tokens, t)
    ensures forall t :: t in FindMissingPriceTokenTypes(tokens, prices) <==> Uses(tokens, t) && t !in prices
    ensures NoRepeats(UsedTypes(tokens))
  {
    FilterFacts(TOKEN_TYPES, t => CountOf(tokens, t) > 0);
    FilterFacts(UsedTypes(tokens), t => t !in prices);
    AllTypesListed();
  }

  /** A stamped cost as the price table dictates it: nearest micro-centavo, ties upwards. */
  ghost predicate PricedAt(c: StampedCost, tokens: TokenCounts, prices: EffectivePrices) {
    && c.tokenType in prices
    && c.tokens == CountOf(tokens, c.tokenType)
    && c.price == prices[c.tokenType].price && c.effectiveFrom == prices[c.tokenType].effectiveFrom
    && -500_000 < 1_000_000 * c.cost - c.tokens * c.price <= 500_000
  }

  lemma {:induction false} CostsForFacts(types: seq<TokenType>, tokens: TokenCounts, prices: EffectivePrices)
    requires forall t :: t in types ==> t in prices && CountOf(tokens, t) > 0
    requires CostsFor(types, tokens, prices).Ok?
    ensures var costs := CostsFor(types, tokens, prices).value;
            && |costs| == |types|
            && forall i :: 0 <= i < |types| ==> costs[i].tokenType == types[i] && PricedAt(costs[i], tokens, prices)
  {
    if |types| > 0 {
      var front, t := types[..|types| - 1], types[|types| - 1];
      assert forall u :: u in front ==> u in types;
      CostsForFacts(front, tokens, prices);
      assert t in types;
    }
  }

  /** All or nothing: a stamp prices every used type exactly once and nothing else, and adds up;
      a used type without a price leaves the whole trace unpriced; usage a model never reported is
      never valued. */
  lemma StampMeaning(tokens: TokenCounts, prices: EffectivePrices, hasModel: bool)
    ensures StampTokens(tokens, prices, hasModel) == Ok(NoMeasuredUsage) <==> hasModel && forall t :: !Uses(tokens, t)
    ensures (exists m :: StampTokens(tokens, prices, hasModel) == Ok(PendingPrice(m)))
            <==> exists t :: Uses(tokens, t) && t !in prices
    ensures StampTokens(tokens, prices, hasModel).Ok? ==>
              match StampTokens(tokens, prices, hasModel).value
              case NoMeasuredUsage => true
              case PendingPrice(missing) => forall t :: t in missing <==> Uses(tokens, t) && t !in prices
              case Stamped(costs, total) =>
                && (forall c :: c in costs ==> PricedAt(c, tokens, prices) && IsSafe(c.cost))
                && (forall t :: Uses(tokens, t) <==> exists c :: c in costs && c.tokenType == t)
                && (forall i, j :: 0 <= i < j < |costs| ==> costs[i].tokenType != costs[j].tokenType)
                && total == Sum(CostAmounts(costs)) <= MAX_SAFE
  {
    UsedFacts(tokens, prices);
    var used, missing := UsedTypes(tokens), FindMissingPriceTokenTypes(tokens, prices);
    var r := StampTokens(tokens, prices, hasModel);
    assert |used| > 0 <==> exists t :: Uses(tokens, t) by {
      if |used| > 0 { assert used[0] in used; }
    }
    assert |missing| > 0 <==> exists t :: Uses(tokens, t) && t !in prices by {
      if |missing| > 0 { assert missing[0] in missing; }
    }
    if r.Ok? && r.value.Stamped? {
      StampedFacts(tokens, prices, hasModel);
    }
  }

  lemma StampedFacts(tokens: TokenCounts, prices: EffectivePrices, hasModel: bool)
    requires StampTokens(tokens, prices, hasModel).Ok? && StampTokens(tokens, prices, hasModel).value.Stamped?
    ensures var costs := StampTokens(tokens, prices, hasModel).value.costs;
            && (forall c :: c in costs ==> PricedAt(c, tokens, prices) && IsSafe(c.cost))
            && (forall t :: Uses(tokens, t) <==> exists c :: c in costs && c.tokenType == t)
            && (forall i, j :: 0 <= i < j < |costs| ==> costs[i].tokenType != costs[j].tokenType)
            && StampTokens(tokens, prices, hasModel).value.total == Sum(CostAmounts(costs)) <= MAX_SAFE
  {
    UsedFacts(tokens, prices);
    var used := UsedTypes(tokens);
    CostsForFacts(used, tokens, prices);
    CostMembers(used, CostsFor(used, tokens, prices).value, tokens, prices);
  }

  /** The list of costs read as a set of costs. */
  lemma CostMembers(types: seq<TokenType>, costs: seq<StampedCost>, tokens: TokenCounts, prices: EffectivePrices)
    requires |costs| == |types| && NoRepeats(types) && CheckedSum(CostAmounts(costs)).Ok?
    requires forall i :: 0 <= i < |types| ==> costs[i].tokenType == types[i] && PricedAt(costs[i], tokens, prices)
    ensures forall c :: c in costs ==> PricedAt(c, tokens, prices) && IsSafe(c.cost)
    ensures forall t :: t in types <==> exists c :: c in costs && c.tokenType == t
    ensures forall i, j :: 0 <= i < j < |costs| ==> costs[i].tokenType != costs[j].tokenType
  {
    forall t | t in types ensures exists c :: c in costs && c.tokenType == t {
      var i :| 0 <= i < |types| && types[i] == t;
      assert costs[i] in costs;
    }
    forall c | c in costs ensures c.tokenType in types && PricedAt(c, tokens, prices) && IsSafe(c.cost) {
      var i :| 0 <= i < |costs| && costs[i] == c;
      assert types[i] in types;
      assert CostAmounts(costs)[i] == c.cost;
    }
  }
}
