/** batch-price-cache.ts: one price lookup per model interval instead of one per trace. */
module PriceCache {
  import opened Wrappers
  import opened Sums
  import opened Sorting
  import opened Decimals
  import opened StatementModel
  import opened Prices

  // The version dates of a model cut time into intervals, and every instant of an interval gets one
  // answer, as long as the price table stays as it was when the dates were read.

  predicate IntLess(a: int, b: int) { a < b }

  function ForModel(model: string): PriceVersion -> bool {
    (v: PriceVersion) => v.model == model
  }

  function ListVersions(table: seq<PriceVersion>, model: string): seq<PriceVersion> {
    Filter(table, ForModel(model))
  }

  function DateOf(v: PriceVersion): int { v.effectiveFrom }

  /** `[...new Set(dates)].sort((a, b) => a - b)`. */
  function BoundariesOf(table: seq<PriceVersion>, model: string): seq<int> {
    Sort(Listing(ListVersions(table, model), DateOf), IntLess)
  }

  lemma BoundariesFacts(table: seq<PriceVersion>, model: string)
    ensures StrictlySorted(BoundariesOf(table, model), IntLess)
    ensures forall v :: v in table && v.model == model ==> v.effectiveFrom in BoundariesOf(table, model)
  {
    var versions := ListVersions(table, model);
    var dates := Listing(versions, DateOf);
    FilterFacts(table, ForModel(model));
    ListingFacts(versions, DateOf);
    SortSorts(dates, IntLess);
    SortElements(dates, IntLess);
    forall v | v in table && v.model == model ensures v.effectiveFrom in BoundariesOf(table, model) {
      assert DateOf(v) in dates;
      assert v.effectiveFrom in Elements(dates);
    }
  }

  /** How many boundaries are at or before `at`, counted from the front. */
  function Interval(boundaries: seq<int>, at: int): (n: nat)
    ensures n <= |boundaries|
    ensures forall i :: 0 <= i < n ==> boundaries[i] <= at
    ensures n < |boundaries| ==> boundaries[n] > at
  {
    if |boundaries| == 0 || boundaries[0] > at then 0 else 1 + Interval(boundaries[1..], at)
  }

  /** Being in one interval is being on the same side of every boundary. */
  lemma SameInterval(boundaries: seq<int>, a: int, b: int)
    requires StrictlySorted(boundaries, IntLess)
    ensures Interval(boundaries, a) == Interval(boundaries, b)
            <==> forall x :: x in boundaries ==> (x <= a <==> x <= b)
  {
    var m, n := Interval(boundaries, a), Interval(boundaries, b);
    assert forall i, j :: 0 <= i < j < |boundaries| ==> IntLess(boundaries[i], boundaries[j]);
    if m == n {
      forall x | x in boundaries ensures x <= a <==> x <= b {
        var i :| 0 <= i < |boundaries| && boundaries[i] == x;
      }
    } else if m < n {
      assert boundaries[m] in boundaries && boundaries[m] > a && boundaries[m] <= b;
    } else {
      assert boundaries[n] in boundaries && boundaries[n] > b && boundaries[n] <= a;
    }
  }

  /** Dates of one interval get one answer when every version's date is a boundary. */
  lemma OneAnswerPerInterval(table: seq<PriceVersion>, model: string, boundaries: seq<int>, a: int, b: int)
    requires StrictlySorted(boundaries, IntLess) && Interval(boundaries, a) == Interval(boundaries, b)
    requires forall v :: v in table && v.model == model ==> v.effectiveFrom in boundaries
    ensures PricesAt(table, model, a) == PricesAt(table, model, b)
  {
    SameInterval(boundaries, a, b);
    forall t { SameVersionsSamePrices(table, model, t, a, b); }
  }

  lemma LatestAtOwnDate(table: seq<PriceVersion>, v: PriceVersion)
    requires v in table && UniqueSlots(table)
    ensures Latest(table, v.model, v.tokenType, v.effectiveFrom) == Some(v)
  {
    LatestFacts(table, v.model, v.tokenType, v.effectiveFrom);
    var found := Latest(table, v.model, v.tokenType, v.effectiveFrom).value;
    var i :| 0 <= i < |table| && table[i] == v;
    var j :| 0 <= j < |table| && table[j] == found;
    assert SameSlot(found, v);
    assert !(i < j) && !(j < i);
  }

  /** What the lookup answers for one token type: an unresolvable version answers nothing. */
  function AnswerFor(table: seq<PriceVersion>, model: string, t: TokenType, at: int): Option<PriceVersion> {
    var latest := Latest(table, model, t, at);
    if latest.Some? && latest.value.resolvable then latest else None
  }

  lemma PricesByType(table: seq<PriceVersion>, other: seq<PriceVersion>, model: string, a: int, b: int)
    ensures PricesAt(table, model, a) == PricesAt(other, model, b)
            <==> forall t :: AnswerFor(table, model, t, a) == AnswerFor(other, model, t, b)
  {
    var p, q := PricesAt(table, model, a), PricesAt(other, model, b);
    AllTypesListed();
    assert forall t :: AnswerFor(table, model, t, a) == if t in p then Some(p[t]) else None;
    assert forall t :: AnswerFor(other, model, t, b) == if t in q then Some(q[t]) else None;
    if forall t :: AnswerFor(table, model, t, a) == AnswerFor(other, model, t, b) {
      forall t ensures t in p <==> t in q {}
      assert p.Keys == q.Keys;
    }
  }

  /** The version changes the answer at its own date: it answers, or it silences one that did. */
  predicate Shows(table: seq<PriceVersion>, v: PriceVersion) {
    v.resolvable || AnswerFor(table, v.model, v.tokenType, v.effectiveFrom - 1).Some?
  }

  /** At any instant, the answer for a type changes exactly when a version that shows takes effect. */
  lemma ChangesExactlyThen(table: seq<PriceVersion>, model: string, t: TokenType, at: int)
    requires UniqueSlots(table)
    ensures AnswerFor(table, model, t, at) == AnswerFor(table, model, t, at - 1)
            <==> forall v ::
                   v in table && v.model == model && v.tokenType == t && v.effectiveFrom == at ==> !Shows(table, v)
  {
    if v :| v in table && v.model == model && v.tokenType == t && v.effectiveFrom == at {
      LatestAtOwnDate(table, v);
      LatestFacts(table, model, t, at - 1);
      forall w | w in table && w.model == model && w.tokenType == t && w.effectiveFrom == at ensures w == v {
        LatestAtOwnDate(table, w);
      }
    } else {
      SameLatest(table, model, t, at);
    }
  }

  lemma {:induction false} SameLatest(table: seq<PriceVersion>, model: string, t: TokenType, at: int)
    requires forall v :: v in table && v.model == model && v.tokenType == t ==> v.effectiveFrom != at
    ensures Latest(table, model, t, at) == Latest(table, model, t, at - 1)
  {
    if |table| > 0 {
      assert table == table[..|table| - 1] + [table[|table| - 1]];
      SameLatest(table[..|table| - 1], model, t, at);
    }
  }

  /** Every version of the model that shows in the `n`-th interval has a date that was read. */
  ghost predicate ShownInIntervalRead(table: seq<PriceVersion>, model: string, boundaries: seq<int>, n: nat) {
    forall v :: v in table && v.model == model && Shows(table, v) && Interval(boundaries, v.effectiveFrom) == n
                ==> v.effectiveFrom in boundaries
  }

  /** Every version of the model that shows has a date that was read. */
  ghost predicate ShownDatesRead(table: seq<PriceVersion>, model: string, boundaries: seq<int>) {
    forall v :: v in table && v.model == model && Shows(table, v) ==> v.effectiveFrom in boundaries
  }

  /** Between two dates of an interval, step by step, no answer changes. */
  lemma {:induction false} SameAnswer(table: seq<PriceVersion>, model: string, boundaries: seq<int>, t: TokenType,
                                      a: int, b: int)
    requires UniqueSlots(table) && StrictlySorted(boundaries, IntLess) && a <= b
    requires Interval(boundaries, a) == Interval(boundaries, b)
    requires ShownInIntervalRead(table, model, boundaries, Interval(boundaries, a))
    ensures AnswerFor(table, model, t, a) == AnswerFor(table, model, t, b)
    decreases b - a
  {
    if a < b {
      SameInterval(boundaries, a, b);
      SameInterval(boundaries, a, b - 1);
      SameAnswer(table, model, boundaries, t, a, b - 1);
      ChangesExactlyThen(table, model, t, b);
    }
  }

  /** A version that shows at a date that is no boundary splits an interval: its own date and the
      instant before it share a key and not an answer. */
  lemma UnlistedDateSplitsAnInterval(table: seq<PriceVersion>, boundaries: seq<int>, v: PriceVersion)
    requires StrictlySorted(boundaries, IntLess)
    requires v in table && Shows(table, v) && v.effectiveFrom !in boundaries && UniqueSlots(table)
    ensures Interval(boundaries, v.effectiveFrom) == Interval(boundaries, v.effectiveFrom - 1)
    ensures PricesAt(table, v.model, v.effectiveFrom) != PricesAt(table, v.model, v.effectiveFrom - 1)
  {
    var at := v.effectiveFrom;
    SameInterval(boundaries, at, at - 1);
    ChangesExactlyThen(table, v.model, v.tokenType, at);
    PricesByType(table, table, v.model, at, at - 1);
  }

  /** Caching by interval is right for every pair of dates of an interval exactly when every version
      of the model that shows in it has a date that was read. */
  lemma IntervalSoundIff(table: seq<PriceVersion>, model: string, boundaries: seq<int>, n: nat)
    requires StrictlySorted(boundaries, IntLess) && UniqueSlots(table)
    ensures (forall a, b :: Interval(boundaries, a) == Interval(boundaries, b) == n
                            ==> PricesAt(table, model, a) == PricesAt(table, model, b))
            <==> ShownInIntervalRead(table, model, boundaries, n)
  {
    if !ShownInIntervalRead(table, model, boundaries, n) {
      var v :| v in table && v.model == model && Shows(table, v) && Interval(boundaries, v.effectiveFrom) == n
               && v.effectiveFrom !in boundaries;
      UnlistedDateSplitsAnInterval(table, boundaries, v);
    } else {
      forall a, b | Interval(boundaries, a) == Interval(boundaries, b) == n
        ensures PricesAt(table, model, a) == PricesAt(table, model, b)
      {
        forall t ensures AnswerFor(table, model, t, a) == AnswerFor(table, model, t, b) {
          SameAnswer(table, model, boundaries, t, if a <= b then a else b, if a <= b then b else a);
        }
        PricesByType(table, table, model, a, b);
      }
    }
  }

  /** And for every pair of dates at all exactly when every version that shows has. */
  lemma IntervalsSoundIff(table: seq<PriceVersion>, model: string, boundaries: seq<int>)
    requires StrictlySorted(boundaries, IntLess) && UniqueSlots(table)
    ensures (forall a, b :: Interval(boundaries, a) == Interval(boundaries, b)
                            ==> PricesAt(table, model, a) == PricesAt(table, model, b))
            <==> ShownDatesRead(table, model, boundaries)
  {
    if v :| v in table && v.model == model && Shows(table, v) && v.effectiveFrom !in boundaries {
      UnlistedDateSplitsAnInterval(table, boundaries, v);
    } else {
      forall a, b | Interval(boundaries, a) == Interval(boundaries, b)
        ensures PricesAt(table, model, a) == PricesAt(table, model, b)
      {
        IntervalSoundIff(table, model, boundaries, Interval(boundaries, a));
      }
    }
  }

  // ---------------------------------------------------------------- a table that grows

  /** At `at`, a version registered since `table` was read is in force and seen: it answers, or it
      silences the version that did. */
  predicate SeenSince(table: seq<PriceVersion>, added: seq<PriceVersion>, model: string, t: TokenType, at: int) {
    var latest := Latest(table + added, model, t, at);
    && latest.Some? && latest.value in added
    && (latest.value.resolvable || AnswerFor(table, model, t, at).Some?)
  }

  lemma {:induction false} LatestOfGrown(table: seq<PriceVersion>, added: seq<PriceVersion>, model: string,
                                         t: TokenType, at: int)
    ensures var latest := Latest(table + added, model, t, at);
            (latest.Some? && latest.value in added) || latest == Latest(table, model, t, at)
  {
    if |added| == 0 {
      assert table + added == table;
    } else {
      var front := added[..|added| - 1];
      LatestOfGrown(table, front, model, t, at);
      assert (table + added)[..|table + added| - 1] == table + front;
      assert added == front + [added[|added| - 1]];
    }
  }

  lemma AnswerOfGrown(table: seq<PriceVersion>, added: seq<PriceVersion>, model: string, t: TokenType, at: int)
    requires UniqueSlots(table + added)
    ensures AnswerFor(table, model, t, at) == AnswerFor(table + added, model, t, at)
            <==> !SeenSince(table, added, model, t, at)
  {
    var grown := table + added;
    LatestOfGrown(table, added, model, t, at);
    LatestFacts(table, model, t, at);
    var latest := Latest(grown, model, t, at);
    if latest.Some? && latest.value in added && latest.value in table {
      var i :| 0 <= i < |table| && table[i] == latest.value;
      var j :| 0 <= j < |added| && added[j] == latest.value;
      assert grown[i] == grown[|table| + j];
      assert SameSlot(grown[i], grown[|table| + j]);
    }
  }

  /** Answers of the `n`-th interval, read from `table` at any of its dates and served at any of them
      after `added` were registered, are the direct lookup's. */
  ghost predicate ServedRight(table: seq<PriceVersion>, added: seq<PriceVersion>, model: string,
                              boundaries: seq<int>, n: nat)
  {
    forall a, b :: Interval(boundaries, a) == Interval(boundaries, b) == n
                   ==> PricesAt(table, model, a) == PricesAt(table + added, model, b)
  }

  /** At some date of the `n`-th interval a version registered since is seen. */
  ghost predicate SeenInInterval(table: seq<PriceVersion>, added: seq<PriceVersion>, model: string,
                                 boundaries: seq<int>, n: nat)
  {
    exists t, b :: Interval(boundaries, b) == n && SeenSince(table, added, model, t, b)
  }

  /** The dates may have been read from one table, the entry of an interval later from another, and
      the answer be served after still more versions were registered. It is right for every date of
      the interval exactly when, of the table the entry was read from, every version that shows in
      the interval had its date read, and no version registered since is seen there. */
  lemma ServedRightIff(table: seq<PriceVersion>, added: seq<PriceVersion>, model: string, boundaries: seq<int>, n: nat)
    requires StrictlySorted(boundaries, IntLess) && UniqueSlots(table + added)
    ensures ServedRight(table, added, model, boundaries, n)
            <==> ShownInIntervalRead(table, model, boundaries, n) && !SeenInInterval(table, added, model, boundaries, n)
  {
    UniqueBefore(table, added);
    IntervalSoundIff(table, model, boundaries, n);
    if ServedRight(table, added, model, boundaries, n) {
      RightOnly(table, added, model, boundaries, n);
    } else {
      var a, b :| Interval(boundaries, a) == Interval(boundaries, b) == n
                  && PricesAt(table, model, a) != PricesAt(table + added, model, b);
      GrownAnswerIff(table, added, model, b);
    }
  }

  lemma RightOnly(table: seq<PriceVersion>, added: seq<PriceVersion>, model: string, boundaries: seq<int>, n: nat)
    requires UniqueSlots(table + added) && ServedRight(table, added, model, boundaries, n)
    ensures forall a, b :: Interval(boundaries, a) == Interval(boundaries, b) == n
                           ==> PricesAt(table, model, a) == PricesAt(table, model, b)
    ensures !SeenInInterval(table, added, model, boundaries, n)
  {
    forall a, b | Interval(boundaries, a) == Interval(boundaries, b) == n
      ensures PricesAt(table, model, a) == PricesAt(table, model, b)
    {
      assert PricesAt(table, model, a) == PricesAt(table + added, model, b);
      assert PricesAt(table, model, b) == PricesAt(table + added, model, b);
    }
    forall t, b | Interval(boundaries, b) == n ensures !SeenSince(table, added, model, t, b) {
      assert PricesAt(table, model, b) == PricesAt(table + added, model, b);
      GrownAnswerIff(table, added, model, b);
    }
  }

  /** Registrations leave the answer at a date alone exactly when none of them is seen there. */
  lemma GrownAnswerIff(table: seq<PriceVersion>, added: seq<PriceVersion>, model: string, b: int)
    requires UniqueSlots(table + added)
    ensures PricesAt(table, model, b) == PricesAt(table + added, model, b)
            <==> forall t :: !SeenSince(table, added, model, t, b)
  {
    PricesByType(table, table + added, model, b, b);
    forall t { AnswerOfGrown(table, added, model, t, b); }
  }

  lemma UniqueBefore(table: seq<PriceVersion>, added: seq<PriceVersion>)
    requires UniqueSlots(table + added)
    ensures UniqueSlots(table)
  {
    forall i, j | 0 <= i < j < |table| ensures !SameSlot(table[i], table[j]) {
      assert (table + added)[i] == table[i] && (table + added)[j] == table[j];
    }
  }

  /** When dates and entry come from one table only the versions registered since matter. */
  lemma CachedAnswerIff(table: seq<PriceVersion>, added: seq<PriceVersion>, model: string, a: int, b: int)
    requires UniqueSlots(table + added)
    requires Interval(BoundariesOf(table, model), a) == Interval(BoundariesOf(table, model), b)
    ensures PricesAt(table, model, a) == PricesAt(table + added, model, b)
            <==> forall t :: !SeenSince(table, added, model, t, b)
  {
    BoundariesFacts(table, model);
    OneAnswerPerInterval(table, model, BoundariesOf(table, model), a, b);
    GrownAnswerIff(table, added, model, b);
  }

  method CountInterval(boundaries: seq<int>, at: int) returns (interval: nat)
    ensures interval == Interval(boundaries, at)
  {
    interval := 0;
    while interval < |boundaries| && boundaries[interval] <= at
      invariant interval <= |boundaries| && Interval(boundaries, at) == interval + Interval(boundaries[interval..], at)
    {
      interval := interval + 1;
    }
  }

  // ---------------------------------------------------------------- the cache

  function CacheKey(model: string, interval: nat): string {
    model + ['\0'] + Decimal(interval)
  }

  /** The interval is the digits after the last NUL, whatever the model's own text is. */
  lemma CacheKeyInjective(m: string, i: nat, n: string, j: nat)
    requires CacheKey(m, i) == CacheKey(n, j)
    ensures m == n && i == j
  {
    ValueOfDecimal(i);
    ValueOfDecimal(j);
    var s, t := CacheKey(m, i), CacheKey(n, j);
    assert s[|m|] == '\0' && t[|n|] == '\0';
    assert forall k :: |m| < k < |s| ==> s[k] == Decimal(i)[k - |m| - 1];
    assert forall k :: |n| < k < |t| ==> t[k] == Decimal(j)[k - |n| - 1];
    assert |m| == |n|;
    assert s[..|m|] == m && t[..|n|] == n;
    assert s[|m| + 1..] == Decimal(i) && t[|n| + 1..] == Decimal(j);
  }

  function KeyAt(table: seq<PriceVersion>, model: string, at: int): string {
    CacheKey(model, Interval(BoundariesOf(table, model), at))
  }

  /** The dates are those of `table`, and every entry is its answer for each date of the interval. */
  ghost predicate CacheHolds(table: seq<PriceVersion>, boundaries: map<string, seq<int>>,
                             prices: map<string, EffectivePrices>)
  {
    && (forall m :: m in boundaries ==> boundaries[m] == BoundariesOf(table, m))
    && (forall m, at :: KeyAt(table, m, at) in prices ==> prices[KeyAt(table, m, at)] == PricesAt(table, m, at))
  }

  /** One lookup stands for its whole interval, and for no other entry. */
  lemma LookupHolds(table: seq<PriceVersion>, boundaries: map<string, seq<int>>, prices: map<string, EffectivePrices>,
                    model: string, at: int)
    requires (forall m :: m in boundaries ==> boundaries[m] == BoundariesOf(table, m))
    requires CacheHolds(table, map[], prices)
    ensures CacheHolds(table, boundaries, prices[KeyAt(table, model, at) := PricesAt(table, model, at)])
    ensures KeyAt(table, model, at) in prices ==> prices[KeyAt(table, model, at)] == PricesAt(table, model, at)
  {
    forall m, b | KeyAt(table, m, b) == KeyAt(table, model, at)
      ensures PricesAt(table, m, b) == PricesAt(table, model, at)
    {
      CacheKeyInjective(m, Interval(BoundariesOf(table, m), b), model, Interval(BoundariesOf(table, model), at));
      BoundariesFacts(table, model);
      OneAnswerPerInterval(table, model, BoundariesOf(table, model), at, b);
    }
  }

  class PriceTable {
    var versions: seq<PriceVersion>

    constructor (versions: seq<PriceVersion>)
      ensures this.versions == versions
    {
      this.versions := versions;
    }

    /** `insertVersion`: false for a slot that is taken. */
    method Register(v: PriceVersion) returns (ok: bool)
      modifies this
      ensures ok <==> InsertVersion(old(versions), v).Some?
      ensures versions == if ok then old(versions) + [v] else old(versions)
    {
      ok := forall i :: 0 <= i < |versions| ==> !SameSlot(versions[i], v);
      if ok {
        versions := versions + [v];
      }
    }
  }

  class BatchPriceCache {
    const inner: PriceTable
    var boundaries: map<string, seq<int>>
    var prices: map<string, EffectivePrices>

    /** Everything cached is what the inner table still says. */
    ghost predicate Valid()
      reads this, inner
    {
      CacheHolds(inner.versions, boundaries, prices)
    }

    constructor (inner: PriceTable)
      ensures Valid() && this.inner == inner && boundaries == map[] && prices == map[]
    {
      this.inner := inner;
      boundaries, prices := map[], map[];
    }

    /** The model's version dates, read once. */
    method Boundaries(model: string) returns (dates: seq<int>)
      modifies this`boundaries
      ensures boundaries == if model in old(boundaries) then old(boundaries)
                            else old(boundaries)[model := BoundariesOf(inner.versions, model)]
      ensures dates == boundaries[model]
    {
      if model !in boundaries {
        boundaries := boundaries[model := BoundariesOf(inner.versions, model)];
      }
      dates := boundaries[model];
    }

    /** Whatever has happened to the table: the entry of the date's interval among the dates that
        were read, asked of the table as it is now if there is none. While the table has not changed
        since the cache was made, that is the direct lookup's answer. */
    method FindEffectivePrices(model: string, at: int) returns (found: EffectivePrices)
      modifies this`boundaries, this`prices
      ensures boundaries == if model in old(boundaries) then old(boundaries)
                            else old(boundaries)[model := BoundariesOf(inner.versions, model)]
      ensures var key := CacheKey(model, Interval(boundaries[model], at));
              && found == (if key in old(prices) then old(prices)[key] else PricesAt(inner.versions, model, at))
              && prices == old(prices)[key := found]
      ensures old(Valid()) ==> Valid() && found == PricesAt(inner.versions, model, at)
    {
      ghost var valid, prices0 := Valid(), prices;
      var dates := Boundaries(model);
      var interval := CountInterval(dates, at);
      var key := CacheKey(model, interval);
      if key !in prices {
        prices := prices[key := PricesAt(inner.versions, model, at)];
      }
      found := prices[key];
      assert prices == prices0[key := found];
      if valid {
        LookupHolds(inner.versions, boundaries, prices0, model, at);
      }
    }
  }

  /** A whole batch of queries over one table: every answer is the direct lookup's. */
  method AnswerBatch(inner: PriceTable, queries: seq<(string, int)>) returns (answers: seq<EffectivePrices>)
    ensures |answers| == |queries|
    ensures forall i :: 0 <= i < |queries| ==>
              answers[i] == PricesAt(inner.versions, queries[i].0, queries[i].1)
  {
    var cache := new BatchPriceCache(inner);
    answers := [];
    for n := 0 to |queries|
      invariant cache.Valid() && cache.inner == inner && fresh(cache)
      invariant |answers| == n
      invariant forall i :: 0 <= i < n ==> answers[i] == PricesAt(inner.versions, queries[i].0, queries[i].1)
    {
      var found := cache.FindEffectivePrices(queries[n].0, queries[n].1);
      answers := answers + [found];
    }
  }

  /** A run that serves a stale answer though every version's date was read: a version registered
      for a date already listed, after that date's interval was cached. */
  method RegisteredMidBatch(model: string, at: int, price: int)
    returns (first: EffectivePrices, served: EffectivePrices, direct: EffectivePrices)
    ensures first == served && served.Keys == {Input} && direct.Keys == {Input, Output}
  {
    var input := PriceVersion(model, Input, price, at, true);
    var output := PriceVersion(model, Output, price, at, true);
    var table := new PriceTable([input]);
    var cache := new BatchPriceCache(table);
    first := cache.FindEffectivePrices(model, at);
    var ok := table.Register(output);
    served := cache.FindEffectivePrices(model, at);
    direct := PricesAt(table.versions, model, at);
    LateRegistration(model, at, price);
  }

  /** Of two dates in one interval with no entry yet, the second is answered for the first. */
  method FilledThenServed(cache: BatchPriceCache, model: string, first: int, second: int)
    returns (served: EffectivePrices)
    requires model in cache.boundaries
    requires Interval(cache.boundaries[model], first) == Interval(cache.boundaries[model], second)
    requires CacheKey(model, Interval(cache.boundaries[model], first)) !in cache.prices
    modifies cache
    ensures served == PricesAt(cache.inner.versions, model, first)
  {
    var filled := cache.FindEffectivePrices(model, first);
    served := cache.FindEffectivePrices(model, second);
  }

  /** A cache over one version that has read its date and has no entry from that date on. */
  method DateReadBefore(model: string, at: int, earlier: PriceVersion)
    returns (table: PriceTable, cache: BatchPriceCache)
    requires earlier.model == model && earlier.effectiveFrom == at - 10
    ensures fresh(table) && fresh(cache) && cache.inner == table && table.versions == [earlier]
    ensures model in cache.boundaries && cache.boundaries[model] == [at - 10]
    ensures CacheKey(model, 1) !in cache.prices
  {
    EarlyIntervals(model, at, earlier);
    table := new PriceTable([earlier]);
    cache := new BatchPriceCache(table);
    var before := cache.FindEffectivePrices(model, at - 20);
  }

  /** A run that serves a price before it takes effect: the dates are read, then a version is
      registered, then a lookup at its date fills the entry of the whole interval. */
  method ServedTooEarly(model: string, at: int, was: int, price: int)
    returns (served: EffectivePrices, direct: EffectivePrices)
    ensures served.Keys == {Input} && served[Input].effectiveFrom == at
    ensures direct.Keys == {Input} && direct[Input].effectiveFrom == at - 10
  {
    var earlier := PriceVersion(model, Input, was, at - 10, true);
    var later := PriceVersion(model, Input, price, at, true);
    var table, cache := DateReadBefore(model, at, earlier);
    EarlyIntervals(model, at, earlier);
    EarlyEntry(model, at, was, price);
    var ok := table.Register(later);
    served := FilledThenServed(cache, model, at, at - 1);
    direct := PricesAt(table.versions, model, at - 1);
  }

  /** The prices of one input version, and of it with an output version of the same date. */
  lemma LatePrices(model: string, at: int, input: PriceVersion, output: PriceVersion)
    requires input == PriceVersion(model, Input, input.price, at, true)
    requires output == PriceVersion(model, Output, output.price, at, true)
    ensures PricesAt([input], model, at) == map[Input := input]
    ensures PricesAt([input, output], model, at) == map[Input := input, Output := output]
  {
    var table := [input, output];
    AllTypesListed();
    forall t ensures Latest([input], model, t, at) == if t == Input then Some(input) else None {
      assert [input][..0] == [];
    }
    forall t ensures Latest(table, model, t, at)
                     == if t == Input then Some(input) else if t == Output then Some(output) else None {
      assert table[..|table| - 1] == [input];
    }
  }

  lemma LateRegistration(model: string, at: int, price: int)
    ensures var input := PriceVersion(model, Input, price, at, true);
            var output := PriceVersion(model, Output, price, at, true);
            && InsertVersion([input], output) == Some([input, output])
            && PricesAt([input], model, at).Keys == {Input}
            && PricesAt([input, output], model, at).Keys == {Input, Output}
            && ShownDatesRead([input, output], model, BoundariesOf([input], model))
  {
    var input := PriceVersion(model, Input, price, at, true);
    var output := PriceVersion(model, Output, price, at, true);
    LatePrices(model, at, input, output);
    EarlyBoundaries(model, input);
    assert [input] + [output] == [input, output] && !SameSlot([input][0], output);
  }

  lemma EarlyBoundaries(model: string, earlier: PriceVersion)
    requires earlier.model == model
    ensures BoundariesOf([earlier], model) == [earlier.effectiveFrom]
  {
    var date := earlier.effectiveFrom;
    FilterSnoc([], earlier, ForModel(model));
    ListingSnoc([], earlier, DateOf);
    assert [] + [earlier] == [earlier] && [] + [date] == [date];
    assert [earlier][..0] == [] && Listing([earlier], DateOf) == [date];
    assert [date][1..] == [] && Sort([date], IntLess) == Insert(date, [], IntLess) == [date] + [];
  }

  lemma EarlyIntervals(model: string, at: int, earlier: PriceVersion)
    requires earlier.model == model && earlier.effectiveFrom == at - 10
    ensures BoundariesOf([earlier], model) == [at - 10]
    ensures Interval([at - 10], at - 20) == 0 && Interval([at - 10], at - 1) == Interval([at - 10], at) == 1
    ensures CacheKey(model, 0) != CacheKey(model, 1)
  {
    EarlyBoundaries(model, earlier);
    if CacheKey(model, 0) == CacheKey(model, 1) {
      CacheKeyInjective(model, 0, model, 1);
    }
  }

  lemma EarlyEntry(model: string, at: int, was: int, price: int)
    ensures var earlier := PriceVersion(model, Input, was, at - 10, true);
            var later := PriceVersion(model, Input, price, at, true);
            && InsertVersion([earlier], later) == Some([earlier, later])
            && PricesAt([earlier, later], model, at) == map[Input := later]
            && PricesAt([earlier, later], model, at - 1) == map[Input := earlier]
  {
    var earlier, later := PriceVersion(model, Input, was, at - 10, true), PriceVersion(model, Input, price, at, true);
    var table := [earlier, later];
    assert [earlier] + [later] == table && table[..1] == [earlier];
    assert !SameSlot([earlier][0], later);
    AllTypesListed();
    forall t, d ensures Latest(table, model, t, d) ==
                        if t != Input || d < at - 10 then None else if d < at then Some(earlier) else Some(later)
    {
      assert table[..|table| - 1] == [earlier] && [earlier][..0] == [];
      assert Latest([earlier], model, t, d) == if t != Input || d < at - 10 then None else Some(earlier);
    }
  }
}
