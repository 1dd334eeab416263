/** billing-snapshot-model.ts: the engine's input records and its output projection, as values,
    and the total order of the statement's lines. */
module StatementModel {
  import opened Wrappers
  import opened Sorting

  datatype TokenType = Input | Output | CacheRead | CacheWrite

  const TOKEN_TYPES: seq<TokenType> := [Input, Output, CacheRead, CacheWrite]

  /** `TOKEN_TYPES.indexOf`. */
  function TokenIndex(t: TokenType): nat {
    match t
    case Input => 0
    case Output => 1
    case CacheRead => 2
    case CacheWrite => 3
  }

  lemma AllTypesListed()
    ensures forall t: TokenType :: t in TOKEN_TYPES
  {
    forall t: TokenType ensures t in TOKEN_TYPES {
      assert TOKEN_TYPES[TokenIndex(t)] == t;
    }
  }

  type Text = Option<string>

  /** One token type's frozen cost on one trace; instants are milliseconds since the epoch. */
  datatype StampedCost = StampedCost(tokenType: TokenType, tokens: nat, price: nat, effectiveFrom: int, cost: nat)

  datatype UsageRecord = UsageRecord(
    traceId: string, startedAt: int,
    agentId: Text, agentVersion: Text, model: Text,
    stampedCosts: seq<StampedCost>)

  /** The fields a statement line groups by, the applied unit price included. */
  datatype LineKey = LineKey(
    agentId: Text, agentVersion: Text, model: Text,
    tokenType: TokenType, price: nat, effectiveFrom: int)

  datatype AgentKey = AgentKey(id: Text, version: Text)

  datatype LineView = LineView(key: LineKey, tokens: nat, cost: nat, displayCents: nat)

  datatype AgentGroup = AgentGroup(
    agent: AgentKey, tokens: nat, cost: nat, displayCents: nat, percentOfTotalBp: nat,
    costByTokenType: map<TokenType, nat>)

  datatype ModelShare = ModelShare(model: Text, tokens: nat, cost: nat, costShareBp: nat, tokenShareBp: nat)

  datatype AgentModelMix = AgentModelMix(agent: AgentKey, models: seq<ModelShare>, blendedPerMillion: Option<nat>)

  datatype CacheSavings = CacheSavings(
    cacheReadTokens: nat, actualCacheReadCost: nat, counterfactualInputCost: nat,
    savings: int, cacheWriteCost: nat, netSavings: int, unpriceableCacheReadTraces: nat)

  datatype Statement = Statement(
    totalCost: nat, totalDisplayCents: nat, stampedTraceCount: nat, stampedTokensTotal: nat,
    lines: seq<LineView>, agents: seq<AgentGroup>,
    modelMixTotal: seq<ModelShare>, modelMixByAgent: seq<AgentModelMix>,
    cacheSavings: CacheSavings)

  datatype PriceVersionKey = PriceVersionKey(model: Text, tokenType: TokenType, price: nat, effectiveFrom: int)

  // ---------------------------------------------------------------- comparators

  /** A character's place in UTF-16 code-unit order: one beyond U+FFFF starts with a surrogate, so
      it comes before U+E000 to U+FFFF. */
  function UnitRank(c: char): int {
    if 0xE000 <= c as int <= 0xFFFF then c as int + 0x11_0000 else c as int
  }

  /** UTF-16 code-unit order, what `<` compares on strings. */
  predicate TextLess(a: string, b: string) {
    |b| > 0 && (|a| == 0 || UnitRank(a[0]) < UnitRank(b[0]) || (a[0] == b[0] && TextLess(a[1..], b[1..])))
  }

  /** One unit up to U+FFFF, beyond it a high surrogate and a low one. */
  function UnitsOf(c: char): (units: seq<int>)
    ensures 1 <= |units| <= 2
    ensures |units| == 1 ==> units[0] == c as int && c as int <= 0xFFFF
    ensures |units| == 2 ==> 0xD800 <= units[0] <= 0xDBFF && 0xDC00 <= units[1] <= 0xDFFF
    ensures |units| == 2 ==> c as int == 0x1_0000 + (units[0] - 0xD800) * 0x400 + (units[1] - 0xDC00)
  {
    var n := c as int;
    if n <= 0xFFFF then [n] else [0xD800 + (n - 0x1_0000) / 0x400, 0xDC00 + (n - 0x1_0000) % 0x400]
  }

  /** The UTF-16 encoding of a text. */
  function Utf16(s: string): seq<int> {
    if |s| == 0 then [] else UnitsOf(s[0]) + Utf16(s[1..])
  }

  predicate UnitsLess(x: seq<int>, y: seq<int>) {
    |y| > 0 && (|x| == 0 || x[0] < y[0] || (x[0] == y[0] && UnitsLess(x[1..], y[1..])))
  }

  lemma SameHead(u: seq<int>, x: seq<int>, y: seq<int>)
    requires 1 <= |u| <= 2
    ensures UnitsLess(u + x, u + y) <==> UnitsLess(x, y)
  {
    assert (u + x)[1..] == u[1..] + x && (u + y)[1..] == u[1..] + y;
    if |u| == 2 {
      assert u[1..] == [u[1]];
      assert ([u[1]] + x)[1..] == x && ([u[1]] + y)[1..] == y;
    } else {
      assert u[1..] + x == x && u[1..] + y == y;
    }
  }

  lemma OtherHead(c: char, d: char, x: seq<int>, y: seq<int>)
    requires c != d
    ensures UnitsLess(UnitsOf(c) + x, UnitsOf(d) + y) <==> UnitRank(c) < UnitRank(d)
  {
    var u, v := UnitsOf(c), UnitsOf(d);
    if |u| == 2 && |v| == 2 && u[0] == v[0] {
      assert (u + x)[1..] == [u[1]] + x && (v + y)[1..] == [v[1]] + y;
    }
  }

  /** The order is that of the code units. */
  lemma {:induction false} TextLessIsUnitOrder(a: string, b: string)
    ensures TextLess(a, b) <==> UnitsLess(Utf16(a), Utf16(b))
  {
    if |a| > 0 && |b| > 0 {
      if a[0] == b[0] {
        TextLessIsUnitOrder(a[1..], b[1..]);
        SameHead(UnitsOf(a[0]), Utf16(a[1..]), Utf16(b[1..]));
      } else {
        OtherHead(a[0], b[0], Utf16(a[1..]), Utf16(b[1..]));
      }
    }
  }

  lemma {:induction false} TextLessIrreflexive(a: string)
    ensures !TextLess(a, a)
  {
    if |a| > 0 {
      TextLessIrreflexive(a[1..]);
    }
  }

  lemma {:induction false} TextLessTotal(a: string, b: string)
    ensures a == b || TextLess(a, b) || TextLess(b, a)
  {
    if |a| > 0 && |b| > 0 {
      TextLessTotal(a[1..], b[1..]);
      assert a == [a[0]] + a[1..] && b == [b[0]] + b[1..];
    }
  }

  lemma {:induction false} TextLessTransitive(a: string, b: string, c: string)
    requires TextLess(a, b) && TextLess(b, c)
    ensures TextLess(a, c)
  {
    if |a| > 0 && a[0] == b[0] && b[0] == c[0] {
      TextLessTransitive(a[1..], b[1..], c[1..]);
    }
  }

  /** Null first, then code-unit order. */
  function NullableCompare(a: Text, b: Text): int {
    if a == b then 0
    else if a.None? then -1
    else if b.None? then 1
    else if TextLess(a.value, b.value) then -1 else 1
  }

  /** `x || y` on comparison results. */
  function OrElse(x: int, y: int): int {
    if x != 0 then x else y
  }

  function CompareLines(a: LineKey, b: LineKey): int {
    OrElse(NullableCompare(a.agentId, b.agentId),
    OrElse(NullableCompare(a.agentVersion, b.agentVersion),
    OrElse(NullableCompare(a.model, b.model),
    OrElse(TokenIndex(a.tokenType) - TokenIndex(b.tokenType),
    OrElse(a.effectiveFrom - b.effectiveFrom, a.price - b.price)))))
  }

  function ComparePriceVersions(a: PriceVersionKey, b: PriceVersionKey): int {
    OrElse(NullableCompare(a.model, b.model),
    OrElse(TokenIndex(a.tokenType) - TokenIndex(b.tokenType),
    OrElse(a.effectiveFrom - b.effectiveFrom, a.price - b.price)))
  }

  lemma NullableFacts(a: Text, b: Text, c: Text)
    ensures NullableCompare(a, b) == 0 <==> a == b
    ensures NullableCompare(a, b) < 0 <==> NullableCompare(b, a) > 0
    ensures NullableCompare(a, b) < 0 && NullableCompare(b, c) < 0 ==> NullableCompare(a, c) < 0
  {
    if a.Some? && b.Some? {
      TextLessTotal(a.value, b.value);
      TextLessIrreflexive(a.value);
      if TextLess(a.value, b.value) && TextLess(b.value, a.value) {
        TextLessTransitive(a.value, b.value, a.value);
      }
      if c.Some? && TextLess(a.value, b.value) && TextLess(b.value, c.value) {
        TextLessTransitive(a.value, b.value, c.value);
      }
    }
  }

  predicate LineLess(a: LineKey, b: LineKey) {
    CompareLines(a, b) < 0
  }

  predicate PriceVersionLess(a: PriceVersionKey, b: PriceVersionKey) {
    ComparePriceVersions(a, b) < 0
  }

  /** The line comparator separates any two distinct line keys: a tie means the same group. */
  lemma CompareLinesTotal(a: LineKey, b: LineKey, c: LineKey)
    ensures CompareLines(a, b) == 0 <==> a == b
    ensures LineLess(a, b) || LineLess(b, a) || a == b
    ensures LineLess(a, b) ==> !LineLess(b, a)
    ensures LineLess(a, b) && LineLess(b, c) ==> LineLess(a, c)
  {
    NullableFacts(a.agentId, b.agentId, c.agentId);
    NullableFacts(a.agentVersion, b.agentVersion, c.agentVersion);
    NullableFacts(a.model, b.model, c.model);
  }

  lemma ComparePriceVersionsTotal(a: PriceVersionKey, b: PriceVersionKey, c: PriceVersionKey)
    ensures ComparePriceVersions(a, b) == 0 <==> a == b
    ensures PriceVersionLess(a, b) || PriceVersionLess(b, a) || a == b
    ensures PriceVersionLess(a, b) ==> !PriceVersionLess(b, a)
    ensures PriceVersionLess(a, b) && PriceVersionLess(b, c) ==> PriceVersionLess(a, c)
  {
    NullableFacts(a.model, b.model, c.model);
  }

  lemma LinesOrdered(universe: set<LineKey>)
    ensures OrdersStrictly(LineLess, universe)
  {
    forall x: LineKey, y: LineKey, z: LineKey
      ensures !LineLess(x, x)
      ensures x != y ==> LineLess(x, y) || LineLess(y, x)
      ensures LineLess(x, y) && LineLess(y, z) ==> LineLess(x, z)
    {
      CompareLinesTotal(x, y, z);
    }
  }

  lemma PriceVersionsOrdered(universe: set<PriceVersionKey>)
    ensures OrdersStrictly(PriceVersionLess, universe)
  {
    forall x: PriceVersionKey, y: PriceVersionKey, z: PriceVersionKey
      ensures !PriceVersionLess(x, x)
      ensures x != y ==> PriceVersionLess(x, y) || PriceVersionLess(y, x)
      ensures PriceVersionLess(x, y) && PriceVersionLess(y, z) ==> PriceVersionLess(x, z)
    {
      ComparePriceVersionsTotal(x, y, z);
    }
  }

  /** Larger cost first, then agent id, then version. */
  predicate AgentLess(a: AgentGroup, b: AgentGroup) {
    OrElse(b.cost - a.cost,
    OrElse(NullableCompare(a.agent.id, b.agent.id), NullableCompare(a.agent.version, b.agent.version))) < 0
  }

  /** Larger cost first, then model. */
  predicate ShareLess(a: ModelShare, b: ModelShare) {
    OrElse(b.cost - a.cost, NullableCompare(a.model, b.model)) < 0
  }

  /** Groups with different agent keys never tie. */
  lemma AgentsOrdered(universe: set<AgentGroup>)
    requires forall x, y :: x in universe && y in universe && x.agent == y.agent ==> x == y
    ensures OrdersStrictly(AgentLess, universe)
  {
    forall x: AgentGroup, y: AgentGroup, z: AgentGroup
      ensures !AgentLess(x, x)
      ensures x.agent != y.agent ==> AgentLess(x, y) || AgentLess(y, x)
      ensures AgentLess(x, y) && AgentLess(y, z) ==> AgentLess(x, z)
    {
      NullableFacts(x.agent.id, y.agent.id, z.agent.id);
      NullableFacts(x.agent.version, y.agent.version, z.agent.version);
    }
  }
}
