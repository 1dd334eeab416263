/**
 * The text keys of the source's maps, `lineKey` (statement-engine.ts), `agentKey`
 * (billing-snapshot-model.ts) and the month key (month-key.ts), never collide: the models group
 * by the fields themselves.
 */
module GroupingKeys {
  import opened Decimals
  import opened StatementModel
  import opened CanonicalJson

  function Nullable(t: Text): Json {
    if t.None? then Null else Str(t.value)
  }

  function TokenTypeName(t: TokenType): string {
    match t
    case Input => "input"
    case Output => "output"
    case CacheRead => "cache_read"
    case CacheWrite => "cache_write"
  }

  /** `JSON.stringify` of the six grouping fields. */
  function LineKeyText(k: LineKey): string {
    CanonicalJson.Text(Arr([Nullable(k.agentId), Nullable(k.agentVersion), Nullable(k.model),
                            Str(TokenTypeName(k.tokenType)), Num(Whole(k.price)), Num(Whole(k.effectiveFrom))]))
  }

  function AgentKeyText(a: AgentKey): string {
    CanonicalJson.Text(Arr([Nullable(a.id), Nullable(a.version)]))
  }

  lemma TokenTypeNames(a: TokenType, b: TokenType)
    requires TokenTypeName(a) == TokenTypeName(b)
    ensures a == b
  {
    var s, t := TokenTypeName(a), TokenTypeName(b);
    assert |s| == |t| && s[0] == t[0] && s[|s| - 2] == t[|t| - 2];
  }

  /** Two lines share a key exactly when they agree in every field, whatever text the fields hold. */
  lemma LineKeysNeverCollide(a: LineKey, b: LineKey)
    ensures LineKeyText(a) == LineKeyText(b) <==> a == b
  {
    var x := [Nullable(a.agentId), Nullable(a.agentVersion), Nullable(a.model),
              Str(TokenTypeName(a.tokenType)), Num(Whole(a.price)), Num(Whole(a.effectiveFrom))];
    var y := [Nullable(b.agentId), Nullable(b.agentVersion), Nullable(b.model),
              Str(TokenTypeName(b.tokenType)), Num(Whole(b.price)), Num(Whole(b.effectiveFrom))];
    TextInjective(Arr(x), Arr(y));
    if x == y {
      assert x[0] == y[0] && x[1] == y[1] && x[2] == y[2] && x[3] == y[3] && x[4] == y[4] && x[5] == y[5];
      TokenTypeNames(a.tokenType, b.tokenType);
      WholeInjective(a.price, b.price);
      WholeInjective(a.effectiveFrom, b.effectiveFrom);
    }
  }

  lemma AgentKeysNeverCollide(a: AgentKey, b: AgentKey)
    ensures AgentKeyText(a) == AgentKeyText(b) <==> a == b
  {
    var x, y := [Nullable(a.id), Nullable(a.version)], [Nullable(b.id), Nullable(b.version)];
    TextInjective(Arr(x), Arr(y));
    if x == y {
      assert x[0] == y[0] && x[1] == y[1];
    }
  }

  /** `${year}-${month}`. */
  function MonthKeyText(year: nat, month: nat): string {
    Decimal(year) + "-" + Decimal(month)
  }

  lemma DashEndsDigits(a: string, b: string, s: string, t: string)
    requires AllDigits(a) && AllDigits(b) && a + "-" + s == b + "-" + t
    ensures |a| <= |b|
  {
    var x := a + "-" + s;
    assert forall i :: 0 <= i < |a| ==> x[i] == a[i];
    assert x[|b|] == '-';
  }

  lemma MonthKeysNeverCollide(year: nat, month: nat, otherYear: nat, otherMonth: nat)
    ensures MonthKeyText(year, month) == MonthKeyText(otherYear, otherMonth)
            <==> year == otherYear && month == otherMonth
  {
    if MonthKeyText(year, month) == MonthKeyText(otherYear, otherMonth) {
      var a, b := Decimal(year), Decimal(otherYear);
      DashEndsDigits(a, b, Decimal(month), Decimal(otherMonth));
      DashEndsDigits(b, a, Decimal(otherMonth), Decimal(month));
      var x := MonthKeyText(year, month);
      assert a == x[..|a|] && b == x[..|b|];
      assert Decimal(month) == x[|a| + 1..] && Decimal(otherMonth) == x[|b| + 1..];
      DecimalInjective(year, otherYear);
      DecimalInjective(month, otherMonth);
    }
  }
}
