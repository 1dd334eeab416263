/**
 * money.ts: amounts are integer micro-centavos. Every product is exact and every value
 * that leaves the module is a non-negative safe integer or an error.
 */
module Money {
  import opened Wrappers
  import opened Sums
  import opened Decimals
  import opened LargestRemainder

  const MICROCENTS_PER_CENT: nat := 1_000_000
  const MICROCENTS_PER_BRL: nat := 100_000_000
  const TOKENS_PER_PRICE_UNIT: nat := 1_000_000
  const MAX_SAFE: nat := 9_007_199_254_740_991

  datatype MoneyError = NotSafeInteger | ExceedsSafe | InvalidAmount

  predicate IsSafe(value: int) {
    0 <= value <= MAX_SAFE
  }

  /** Half-up integer division. */
  function HalfUpDiv(numerator: nat, denominator: nat): (q: nat)
    requires denominator > 0
    ensures denominator * q <= numerator + denominator / 2 < denominator * q + denominator
  {
    (numerator + denominator / 2) / denominator
  }

  /** The cost of `tokens` at a price per million: the nearest integer, ties upwards. */
  function CostMicrocents(tokens: int, price: int): (r: Result<nat, MoneyError>)
    ensures r.Err? && r.error == NotSafeInteger <==> !IsSafe(tokens) || !IsSafe(price)
    ensures r.Ok? ==> IsSafe(r.value)
                      && -500_000 < TOKENS_PER_PRICE_UNIT * r.value - tokens * price <= 500_000
    ensures r.Err? && r.error != NotSafeInteger
            ==> r.error == ExceedsSafe
                && tokens * price + 500_000 >= TOKENS_PER_PRICE_UNIT * (MAX_SAFE + 1)
  {
    if !IsSafe(tokens) || !IsSafe(price) then Err(NotSafeInteger)
    else
      assert tokens * price >= 0;
      var cost := HalfUpDiv(tokens * price, TOKENS_PER_PRICE_UNIT);
      if cost > MAX_SAFE then Err(ExceedsSafe) else Ok(cost)
  }

  function CheckedSum(values: seq<int>): (r: Result<nat, MoneyError>) {
    if exists i :: 0 <= i < |values| && !IsSafe(values[i]) then Err(NotSafeInteger)
    else
      SumNonNegative(values);
      if Sum(values) > MAX_SAFE then Err(ExceedsSafe) else Ok(Sum(values))
  }

  method SumMicrocents(values: seq<int>) returns (r: Result<nat, MoneyError>)
    ensures r == CheckedSum(values)
    ensures r == Err(NotSafeInteger) <==> exists i :: 0 <= i < |values| && !IsSafe(values[i])
    ensures r.Err? && r.error != NotSafeInteger ==> r.error == ExceedsSafe && Sum(values) > MAX_SAFE
    ensures r.Ok? ==> r.value == Sum(values) <= MAX_SAFE
  {
    var total := 0;
    for n := 0 to |values|
      invariant total == Sum(values[..n]) && total >= 0
      invariant forall i :: 0 <= i < n ==> IsSafe(values[i])
    {
      if !IsSafe(values[n]) {
        return Err(NotSafeInteger);
      }
      SumPrefix(values, n);
      total := total + values[n];
    }
    assert values[..|values|] == values;
    return if total > MAX_SAFE then Err(ExceedsSafe) else Ok(total);
  }

  function DisplayTotal(parts: seq<nat>): nat {
    SumNonNegative(parts);
    HalfUpDiv(Sum(parts), MICROCENTS_PER_CENT)
  }

  /** The displayed cents of each part: a largest-remainder allocation of the displayed total. */
  function DisplayParts(parts: seq<nat>): (cents: seq<nat>)
    ensures |cents| == |parts|
  {
    var floors := Floors(parts, MICROCENTS_PER_CENT);
    var deficit := DisplayTotal(parts) - Sum(floors);
    if deficit < 0 then floors else Allocation(floors, Remainders(parts, MICROCENTS_PER_CENT), deficit)
  }

  method ReconcileDisplayCents(parts: seq<nat>) returns (r: Result<(nat, seq<nat>), MoneyError>)
    ensures match CheckedSum(parts)
            case Err(e) => r == Err(e)
            case Ok(_) => r == Ok((DisplayTotal(parts), DisplayParts(parts)))
  {
    var sum := SumMicrocents(parts);
    if sum.Err? {
      return Err(sum.error);
    }
    var totalCents: int := HalfUpDiv(sum.value, MICROCENTS_PER_CENT);
    var remainders := Remainders(parts, MICROCENTS_PER_CENT);
    var floors := Floors(parts, MICROCENTS_PER_CENT);
    var floorSum := 0;
    for n := 0 to |floors|
      invariant floorSum == Sum(floors[..n])
    {
      SumPrefix(floors, n);
      floorSum := floorSum + floors[n];
    }
    assert floors[..|floors|] == floors;
    var partsCents := RaiseLargest(floors, remainders, totalCents - floorSum);
    return Ok((totalCents, partsCents));
  }

  /** The displayed parts close with the displayed total, and do so in the only way allowed. */
  lemma DisplayCloses(parts: seq<nat>)
    ensures Sum(DisplayParts(parts)) == DisplayTotal(parts)
    ensures DisplayTotal(parts) >= Sum(Floors(parts, MICROCENTS_PER_CENT))
    ensures IsLargestRemainder(Floors(parts, MICROCENTS_PER_CENT), Remainders(parts, MICROCENTS_PER_CENT),
                               DisplayTotal(parts) - Sum(Floors(parts, MICROCENTS_PER_CENT)), DisplayParts(parts))
    ensures Raised(Floors(parts, MICROCENTS_PER_CENT), DisplayParts(parts))
            <= Positive(Remainders(parts, MICROCENTS_PER_CENT))
  {
    SumNonNegative(parts);
    AllocationCloses(parts, MICROCENTS_PER_CENT, DisplayTotal(parts),
                     Floors(parts, MICROCENTS_PER_CENT), Remainders(parts, MICROCENTS_PER_CENT),
                     DisplayParts(parts));
  }

  // ---------------------------------------------------------------- BRL text

  predicate IsSpace(c: char) {
    var n := c as int;
    9 <= n <= 13 || n == 32 || n == 160 || n == 5760 || 8192 <= n <= 8202
    || n == 8232 || n == 8233 || n == 8239 || n == 8287 || n == 12288 || n == 65279
  }

  /** `String.prototype.trim`. */
  function Trim(s: string): string {
    if |s| > 0 && IsSpace(s[0]) then Trim(s[1..])
    else if |s| > 0 && IsSpace(s[|s| - 1]) then Trim(s[..|s| - 1])
    else s
  }

  function IndexOf(s: string, c: char): (i: nat)
    ensures i <= |s| && (i < |s| ==> s[i] == c)
    ensures forall k :: 0 <= k < i ==> s[k] != c
  {
    if |s| == 0 || s[0] == c then 0 else 1 + IndexOf(s[1..], c)
  }

  /** Whole reais and the micro-centavos beyond them. */
  function Amount(brl: nat, beyond: nat): (r: Result<nat, MoneyError>)
    ensures r == Ok(brl * MICROCENTS_PER_BRL + beyond) || r == Err(ExceedsSafe)
    ensures r.Ok? <==> IsSafe(brl * MICROCENTS_PER_BRL + beyond)
  {
    var micro := brl * MICROCENTS_PER_BRL + beyond;
    if micro > MAX_SAFE then Err(ExceedsSafe) else Ok(micro)
  }

  /** The amount of an integer part and a fraction part, both digit strings. */
  function AmountOf(integer: string, fraction: string): Result<nat, MoneyError>
    requires AllDigits(integer) && AllDigits(fraction)
  {
    var padded := PadEnd(fraction, 8);
    assert AllDigits(padded);
    Amount(Value(integer), Value(padded))
  }

  /** Digits, optionally followed by a dot and one to eight digits. */
  function ParseAmount(s: string): Result<nat, MoneyError> {
    var dot := IndexOf(s, '.');
    var integer, fraction := s[..dot], if dot < |s| then s[dot + 1..] else "";
    if |integer| > 0 && AllDigits(integer) && AllDigits(fraction)
       && (dot < |s| ==> 1 <= |fraction| <= 8)
    then AmountOf(integer, fraction)
    else Err(InvalidAmount)
  }

  function BrlToMicrocents(s: string): Result<nat, MoneyError> {
    ParseAmount(Trim(s))
  }

  /** The text is digits, or digits, a dot and one to eight digits. */
  predicate Spells(s: string, integer: string, fraction: string) {
    && |integer| > 0 && AllDigits(integer) && AllDigits(fraction) && |fraction| <= 8
    && s == if |fraction| == 0 then integer else integer + "." + fraction
  }

  predicate AllSpace(s: string) {
    forall c :: c in s ==> IsSpace(c)
  }

  /** `core` is the text without white space around it. */
  ghost predicate IsTrimmed(s: string, lead: string, core: string, trail: string) {
    && s == lead + core + trail && AllSpace(lead) && AllSpace(trail)
    && (|core| > 0 ==> !IsSpace(core[0]) && !IsSpace(core[|core| - 1]))
  }

  lemma OneMoreSpace(c: char, s: string, lead: string, core: string, trail: string)
    requires IsSpace(c) && IsTrimmed(s, lead, core, trail)
    ensures IsTrimmed([c] + s, [c] + lead, core, trail) && IsTrimmed(s + [c], lead, core, trail + [c])
  {
    assert [c] + (lead + core + trail) == ([c] + lead) + core + trail;
    assert (lead + core + trail) + [c] == lead + core + (trail + [c]);
  }

  /** Trimming takes all white space off both ends, and nothing else. */
  lemma {:induction false} TrimIs(s: string) returns (lead: string, trail: string)
    ensures IsTrimmed(s, lead, Trim(s), trail)
  {
    lead, trail := "", "";
    if |s| > 0 && IsSpace(s[0]) {
      lead, trail := TrimIs(s[1..]);
      OneMoreSpace(s[0], s[1..], lead, Trim(s[1..]), trail);
      assert s == [s[0]] + s[1..];
      lead := [s[0]] + lead;
    } else if |s| > 0 && IsSpace(s[|s| - 1]) {
      var front := s[..|s| - 1];
      lead, trail := TrimIs(front);
      OneMoreSpace(s[|s| - 1], front, lead, Trim(front), trail);
      assert s == front + [s[|s| - 1]];
      trail := trail + [s[|s| - 1]];
    }
  }

  /** Ten times over, `n` times. */
  function Tenfold(value: nat, n: nat): nat {
    if n == 0 then value else 10 * Tenfold(value, n - 1)
  }

  lemma {:induction false} ValueOfPadded(s: string, n: nat)
    requires AllDigits(s)
    ensures AllDigits(s + Zeros(n)) && Value(s + Zeros(n)) == Tenfold(Value(s), n)
  {
    if n == 0 {
      assert s + Zeros(0) == s;
    } else {
      ValueOfPadded(s, n - 1);
      assert (s + Zeros(n))[..|s + Zeros(n)| - 1] == s + Zeros(n - 1);
      assert (s + Zeros(n))[|s + Zeros(n)| - 1] == '0';
    }
  }

  lemma SpelledAtDot(s: string, integer: string, fraction: string)
    requires Spells(s, integer, fraction)
    ensures var dot := IndexOf(s, '.');
            s[..dot] == integer && fraction == if dot < |s| then s[dot + 1..] else ""
  {
    if |fraction| > 0 {
      SplitAtDot(integer, fraction);
    }
  }

  lemma PaddedFraction(fraction: string, width: nat)
    requires AllDigits(fraction) && |fraction| <= width
    ensures AllDigits(PadEnd(fraction, width))
    ensures Value(PadEnd(fraction, width)) == Tenfold(Value(fraction), width - |fraction|)
  {
    ValueOfPadded(fraction, width - |fraction|);
    assert PadEnd(fraction, width) == fraction + Zeros(width - |fraction|);
  }

  lemma AmountValue(integer: string, fraction: string)
    requires AllDigits(integer) && AllDigits(fraction) && |fraction| <= 8
    ensures AmountOf(integer, fraction) == Amount(Value(integer), Tenfold(Value(fraction), 8 - |fraction|))
  {
    PaddedFraction(fraction, 8);
  }

  lemma ParseSpelled(s: string, integer: string, fraction: string)
    requires Spells(s, integer, fraction)
    ensures ParseAmount(s) == AmountOf(integer, fraction)
  {
    SpelledAtDot(s, integer, fraction);
  }

  /** A spelled amount reads as its value in micro-centavos, refused only beyond the safe range. */
  lemma ParseReads(s: string, integer: string, fraction: string)
    requires Spells(s, integer, fraction)
    ensures ParseAmount(s) == Amount(Value(integer), Tenfold(Value(fraction), 8 - |fraction|))
  {
    ParseSpelled(s, integer, fraction);
    AmountValue(integer, fraction);
  }

  lemma SplitBack(s: string, dot: nat)
    requires dot < |s| && s[dot] == '.'
    ensures s == s[..dot] + "." + s[dot + 1..]
  {}

  lemma ReadIsSpelled(s: string) returns (integer: string, fraction: string)
    requires ParseAmount(s) != Err(InvalidAmount)
    ensures Spells(s, integer, fraction)
  {
    var dot := IndexOf(s, '.');
    integer, fraction := s[..dot], "";
    if dot < |s| {
      fraction := s[dot + 1..];
      SplitBack(s, dot);
    }
  }

  /** Whatever is not spelled so is refused as not an amount, and only that. */
  lemma ParseRefuses(s: string)
    ensures ParseAmount(s) == Err(InvalidAmount) <==> forall integer, fraction :: !Spells(s, integer, fraction)
  {
    if ParseAmount(s) != Err(InvalidAmount) {
      var integer, fraction := ReadIsSpelled(s);
    } else if integer, fraction :| Spells(s, integer, fraction) {
      ParseReads(s, integer, fraction);
    }
  }

  function ExactFraction(micro: nat): string {
    PadEnd(TrimTrailingZeros(PaddedRemainder(micro)), 2)
  }

  function FormatBrlExact(micro: int): Result<string, MoneyError> {
    if !IsSafe(micro) then Err(NotSafeInteger)
    else Ok(Decimal(micro / MICROCENTS_PER_BRL) + "." + ExactFraction(micro))
  }

  /** The canonical spelling: a plain integer part and two to eight fraction digits, of which
      none beyond the second is a trailing zero. */
  predicate IsCanonicalAmount(s: string) {
    var dot := IndexOf(s, '.');
    && dot < |s| && IsPlainNumeral(s[..dot]) && AllDigits(s[dot + 1..])
    && 2 <= |s[dot + 1..]| <= 8
    && (|s[dot + 1..]| > 2 ==> s[|s| - 1] != '0')
  }

  lemma SplitAtDot(integer: string, fraction: string)
    requires AllDigits(integer)
    ensures IndexOf(integer + "." + fraction, '.') == |integer|
    ensures (integer + "." + fraction)[..|integer|] == integer
    ensures (integer + "." + fraction)[|integer| + 1..] == fraction
  {
    var s := integer + "." + fraction;
    assert s[|integer|] == '.';
    assert forall i :: 0 <= i < |integer| ==> s[i] == integer[i];
  }

  lemma Pow10Of8()
    ensures Pow10(8) == MICROCENTS_PER_BRL
  {
    assert Pow10(2) == 100 && Pow10(4) == 10_000 && Pow10(6) == 1_000_000;
  }

  /** Padding a trimmed numeral back restores it. */
  lemma PadOfTrim(padded: string)
    requires AllDigits(padded) && |padded| == 8
    ensures PadEnd(PadEnd(TrimTrailingZeros(padded), 2), 8) == padded
    ensures AllDigits(PadEnd(TrimTrailingZeros(padded), 2))
    ensures 2 <= |PadEnd(TrimTrailingZeros(padded), 2)| <= 8
  {
    TrimSplits(padded);
    var t := TrimTrailingZeros(padded);
    var two := PadEnd(t, 2);
    assert forall i :: |t| <= i < 8 ==> padded[i] == Zeros(8 - |t|)[i - |t|];
    assert forall i :: 0 <= i < |t| ==> padded[i] == t[i] == two[i];
  }

  function PaddedRemainder(micro: nat): string {
    PadStart(Decimal(micro % MICROCENTS_PER_BRL), 8)
  }

  lemma PaddedRemainderFacts(micro: nat)
    ensures AllDigits(PaddedRemainder(micro)) && |PaddedRemainder(micro)| == 8
    ensures Value(PaddedRemainder(micro)) == micro % MICROCENTS_PER_BRL
  {
    var r := micro % MICROCENTS_PER_BRL;
    Pow10Of8();
    DecimalWidth(r, 8);
    var s := Decimal(r);
    LeadingZeros(8 - |s|, s);
    assert Zeros(0) + s == s;
    ValueOfDecimal(r);
  }

  lemma FractionDigits(micro: nat)
    ensures AllDigits(ExactFraction(micro)) && 2 <= |ExactFraction(micro)| <= 8
    ensures |ExactFraction(micro)| > 2 ==> ExactFraction(micro)[|ExactFraction(micro)| - 1] != '0'
    ensures AllDigits(PadEnd(ExactFraction(micro), 8))
    ensures Value(PadEnd(ExactFraction(micro), 8)) == micro % MICROCENTS_PER_BRL
  {
    PaddedRemainderFacts(micro);
    PadOfTrim(PaddedRemainder(micro));
    TrimSplits(PaddedRemainder(micro));
  }

  lemma TrimNothing(s: string)
    requires |s| > 0 && !IsSpace(s[0]) && !IsSpace(s[|s| - 1])
    ensures Trim(s) == s
  {}

  lemma ParseParts(integer: string, fraction: string)
    requires |integer| > 0 && AllDigits(integer) && AllDigits(fraction) && 1 <= |fraction| <= 8
    ensures BrlToMicrocents(integer + "." + fraction) == AmountOf(integer, fraction)
  {
    var s := integer + "." + fraction;
    SplitAtDot(integer, fraction);
    assert s[0] == integer[0] && s[|s| - 1] == fraction[|fraction| - 1];
    TrimNothing(s);
  }

  lemma AmountOfPrinted(micro: nat)
    requires IsSafe(micro)
    ensures AllDigits(ExactFraction(micro))
    ensures AmountOf(Decimal(micro / MICROCENTS_PER_BRL), ExactFraction(micro)) == Ok(micro)
  {
    FractionDigits(micro);
    ValueOfDecimal(micro / MICROCENTS_PER_BRL);
  }

  lemma PrintedIsCanonical(integer: string, fraction: string)
    requires IsPlainNumeral(integer) && IsCanonicalFraction(fraction)
    ensures IsCanonicalAmount(integer + "." + fraction)
  {
    SplitAtDot(integer, fraction);
    var s := integer + "." + fraction;
    assert s[|s| - 1] == fraction[|fraction| - 1];
  }

  /** Parsing a printed amount gives the amount back. */
  lemma ParseOfPrint(micro: nat)
    requires IsSafe(micro)
    ensures FormatBrlExact(micro).Ok? && IsCanonicalAmount(FormatBrlExact(micro).value)
    ensures BrlToMicrocents(FormatBrlExact(micro).value) == Ok(micro)
  {
    var integer, fraction := Decimal(micro / MICROCENTS_PER_BRL), ExactFraction(micro);
    FractionDigits(micro);
    DecimalIsPlain(micro / MICROCENTS_PER_BRL);
    ParseParts(integer, fraction);
    AmountOfPrinted(micro);
    PrintedIsCanonical(integer, fraction);
  }

  /** Printing what was parsed gives the canonical spelling: a text is its own printed form
      exactly when it is canonical. */
  lemma PrintOfParse(s: string)
    requires BrlToMicrocents(s).Ok?
    ensures IsSafe(BrlToMicrocents(s).value)
    ensures FormatBrlExact(BrlToMicrocents(s).value) == Ok(s) <==> IsCanonicalAmount(s)
  {
    var micro := BrlToMicrocents(s).value;
    ParseOfPrint(micro);
    if IsCanonicalAmount(s) {
      CanonicalUnique(s, micro);
    }
  }

  lemma CanonicalParts(s: string) returns (integer: string, fraction: string)
    requires IsCanonicalAmount(s)
    ensures s == integer + "." + fraction && IsPlainNumeral(integer) && IsCanonicalFraction(fraction)
  {
    var dot := IndexOf(s, '.');
    integer, fraction := s[..dot], s[dot + 1..];
    assert |fraction| > 2 ==> fraction[|fraction| - 1] == s[|s| - 1];
  }

  lemma CanonicalUnique(s: string, micro: nat)
    requires IsCanonicalAmount(s) && BrlToMicrocents(s) == Ok(micro)
    ensures s == Decimal(micro / MICROCENTS_PER_BRL) + "." + ExactFraction(micro)
  {
    var integer, fraction := CanonicalParts(s);
    ParseParts(integer, fraction);
    AmountDetermines(integer, fraction, micro);
  }

  lemma AmountDetermines(integer: string, fraction: string, micro: nat)
    requires IsPlainNumeral(integer) && IsCanonicalFraction(fraction)
    requires AmountOf(integer, fraction) == Ok(micro)
    ensures integer == Decimal(micro / MICROCENTS_PER_BRL) && fraction == ExactFraction(micro)
  {
    var padded := PadEnd(fraction, 8);
    Pow10Of8();
    assert Value(padded) < MICROCENTS_PER_BRL by { ValueBelowPow10(padded); }
    QuotientAndRemainder(Value(integer), Value(padded));
    DecimalOfValue(integer);
    FractionDigits(micro);
    FixedWidthInjective(padded, PadEnd(ExactFraction(micro), 8));
    PaddedFractionUnique(fraction, ExactFraction(micro));
  }

  lemma QuotientAndRemainder(q: nat, r: nat)
    requires r < MICROCENTS_PER_BRL
    ensures (q * MICROCENTS_PER_BRL + r) / MICROCENTS_PER_BRL == q
    ensures (q * MICROCENTS_PER_BRL + r) % MICROCENTS_PER_BRL == r
  {}

  predicate IsCanonicalFraction(f: string) {
    AllDigits(f) && 2 <= |f| <= 8 && (|f| > 2 ==> f[|f| - 1] != '0')
  }

  lemma LongerEndsInZero(f: string, g: string)
    requires |f| < |g| <= 8 && PadEnd(f, 8) == PadEnd(g, 8)
    ensures g[|g| - 1] == '0'
  {
    assert PadEnd(f, 8)[|g| - 1] == '0' && PadEnd(g, 8)[|g| - 1] == g[|g| - 1];
  }

  lemma PaddedFractionUnique(f: string, g: string)
    requires IsCanonicalFraction(f) && IsCanonicalFraction(g) && PadEnd(f, 8) == PadEnd(g, 8)
    ensures f == g
  {
    var p := PadEnd(f, 8);
    assert f == p[..|f|] && g == p[..|g|];
    if |f| < |g| {
      LongerEndsInZero(f, g);
    } else if |g| < |f| {
      LongerEndsInZero(g, f);
    }
  }

  /** `Math.trunc(micro / 1e8)` in IEEE doubles: a quotient within half a unit in the last
      place (2^-27 below 2^27), exact when it is an integer, truncates to the integer quotient. */
  lemma FloatTruncationIsExact(micro: nat, quotient: real)
    requires IsSafe(micro)
    requires var exact := micro as real / 100_000_000.0;
             exact - 1.0 / 134_217_728.0 <= quotient <= exact + 1.0 / 134_217_728.0
    requires micro % MICROCENTS_PER_BRL == 0 ==> quotient == micro as real / 100_000_000.0
    ensures quotient.Floor == micro / MICROCENTS_PER_BRL
  {
    var k, r := micro / MICROCENTS_PER_BRL, micro % MICROCENTS_PER_BRL;
    assert micro as real / 100_000_000.0 == k as real + r as real / 100_000_000.0;
    if r > 0 {
      assert r as real >= 1.0 && r as real <= 99_999_999.0;
    }
  }
}
