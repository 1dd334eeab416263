/**
 * batch-price-cache.ts over a table that grows while the batch runs: a cache as the record of which
 * table answered, and for which date.
 */
module BatchLookups {
  import opened Wrappers
  import opened Sums
  import opened Sorting
  import opened Money
  import opened StatementModel
  import opened Prices
  import opened PriceCache

  /** The moment a cached answer was asked for: which table answered, and for which date. */
  datatype Filled = Filled(table: nat, at: int)

  /** A batch's cache: the table each model's dates were read from, and where each interval's answer
      comes from. */
  datatype Batch = Batch(dates: map<string, nat>, entries: map<(string, nat), Filled>)

  /** The model's dates have been read. */
  predicate HasDates(tables: seq<seq<PriceVersion>>, batch: Batch, key: string) {
    key in batch.dates && batch.dates[key] < |tables|
  }

  /** The entry a date falls in. */
  function Slot(tables: seq<seq<PriceVersion>>, batch: Batch, key: string, at: int): (string, nat)
    requires HasDates(tables, batch, key)
  {
    (key, Interval(BoundariesOf(tables[batch.dates[key]], key), at))
  }

  predicate HasEntry(tables: seq<seq<PriceVersion>>, batch: Batch, key: string, at: int) {
    && HasDates(tables, batch, key)
    && Slot(tables, batch, key, at) in batch.entries && batch.entries[Slot(tables, batch, key, at)].table < |tables|
  }

  /** The dates are read once, from the table of the moment. */
  function WithDates(tables: seq<seq<PriceVersion>>, batch: Batch, key: string): Batch
    requires |tables| > 0
  {
    if key in batch.dates then batch else batch.(dates := batch.dates[key := |tables| - 1])
  }

  /** An entry is filled once, by the date that first asks for it. */
  function WithEntry(tables: seq<seq<PriceVersion>>, batch: Batch, key: string, at: int): Batch
    requires |tables| > 0 && HasDates(tables, batch, key)
  {
    var slot := Slot(tables, batch, key, at);
    if slot in batch.entries then batch else batch.(entries := batch.entries[slot := Filled(|tables| - 1, at)])
  }

  /** Every entry was filled for a date of its own interval, from a table no older than the dates'. */
  ghost predicate BatchHolds(tables: seq<seq<PriceVersion>>, batch: Batch) {
    && (forall key :: key in batch.dates ==> batch.dates[key] < |tables|)
    && (forall slot :: slot in batch.entries ==>
          && slot.0 in batch.dates && batch.dates[slot.0] <= batch.entries[slot].table < |tables|
          && Slot(tables, batch, slot.0, batch.entries[slot].at) == slot)
  }

  lemma BatchKept(s: seq<seq<PriceVersion>>, t: seq<seq<PriceVersion>>, batch: Batch)
    requires BatchHolds(s, batch) && s <= t
    ensures BatchHolds(t, batch)
  {
    forall key | key in batch.dates ensures batch.dates[key] < |t| && t[batch.dates[key]] == s[batch.dates[key]] {}
  }

  lemma BatchGrows(tables: seq<seq<PriceVersion>>, batch: Batch, key: string, at: int)
    requires |tables| > 0 && BatchHolds(tables, batch)
    ensures BatchHolds(tables, WithDates(tables, batch, key))
    ensures HasDates(tables, batch, key) ==> BatchHolds(tables, WithEntry(tables, batch, key, at))
  {
    var dated := WithDates(tables, batch, key);
    forall slot | slot in dated.entries
      ensures dated.dates[slot.0] == batch.dates[slot.0] && Slot(tables, dated, slot.0, batch.entries[slot].at) == slot
    {}
  }

  // ---------------------------------------------------------------- the class holds such a record

  function TextOf(slot: (string, nat)): string {
    CacheKey(slot.0, slot.1)
  }

  lemma TextsDiffer(a: (string, nat), b: (string, nat))
    ensures TextOf(a) == TextOf(b) <==> a == b
  {
    if TextOf(a) == TextOf(b) {
      CacheKeyInjective(a.0, a.1, b.0, b.1);
    }
  }

  ghost predicate DatesMirrored(boundaries: map<string, seq<int>>, tables: seq<seq<PriceVersion>>, batch: Batch) {
    && boundaries.Keys == batch.dates.Keys
    && forall m :: m in batch.dates ==>
         batch.dates[m] < |tables| && boundaries[m] == BoundariesOf(tables[batch.dates[m]], m)
  }

  function Answer(tables: seq<seq<PriceVersion>>, slot: (string, nat), filled: Filled): EffectivePrices {
    if filled.table < |tables| then PricesAt(tables[filled.table], slot.0, filled.at) else map[]
  }

  ghost predicate EntriesMirrored(prices: map<string, EffectivePrices>, tables: seq<seq<PriceVersion>>,
                                  batch: Batch)
  {
    forall slot ::
      && (slot in batch.entries <==> TextOf(slot) in prices)
      && (slot in batch.entries ==>
            && batch.entries[slot].table < |tables|
            && prices[TextOf(slot)] == Answer(tables, slot, batch.entries[slot]))
  }

  lemma EntryMirrored(prices: map<string, EffectivePrices>, tables: seq<seq<PriceVersion>>, batch: Batch,
                      slot: (string, nat), filled: Filled)
    requires EntriesMirrored(prices, tables, batch) && filled.table < |tables|
    ensures EntriesMirrored(prices[TextOf(slot) := Answer(tables, slot, filled)], tables,
                            batch.(entries := batch.entries[slot := filled]))
  {
    forall other { TextsDiffer(other, slot); }
  }

  lemma DatesMirrorKept(boundaries: map<string, seq<int>>, tables: seq<seq<PriceVersion>>, batch: Batch, key: string)
    requires |tables| > 0 && DatesMirrored(boundaries, tables, batch)
    ensures var dates := if key in boundaries then boundaries
                         else boundaries[key := BoundariesOf(tables[|tables| - 1], key)];
            DatesMirrored(dates, tables, WithDates(tables, batch, key))
  {}

  /** The entry the cache answers from, or fills. */
  function FoundIn(prices: map<string, EffectivePrices>, tables: seq<seq<PriceVersion>>, slot: (string, nat), at: int)
    : EffectivePrices
    requires |tables| > 0
  {
    if TextOf(slot) in prices then prices[TextOf(slot)] else PricesAt(tables[|tables| - 1], slot.0, at)
  }

  /** What one lookup does to the entries is what it does to the record. */
  lemma LookupMirrored(prices: map<string, EffectivePrices>, tables: seq<seq<PriceVersion>>, dated: Batch,
                       key: string, at: int)
    requires |tables| > 0 && HasDates(tables, dated, key) && EntriesMirrored(prices, tables, dated)
    ensures var slot, batch' := Slot(tables, dated, key, at), WithEntry(tables, dated, key, at);
            && slot in batch'.entries && batch'.entries[slot].table < |tables|
            && FoundIn(prices, tables, slot, at) == Answer(tables, slot, batch'.entries[slot])
            && EntriesMirrored(prices[TextOf(slot) := FoundIn(prices, tables, slot, at)], tables, batch')
  {
    var slot := Slot(tables, dated, key, at);
    assert slot in dated.entries <==> TextOf(slot) in prices;
    if slot in dated.entries {
      assert prices[TextOf(slot) := prices[TextOf(slot)]] == prices;
    } else {
      EntryMirrored(prices, tables, dated, slot, Filled(|tables| - 1, at));
    }
  }

  /** A lookup, by what it does to the maps. */
  method AskCache(cache: BatchPriceCache, key: string, at: int) returns (found: EffectivePrices)
    modifies cache
    ensures cache.boundaries == if key in old(cache.boundaries) then old(cache.boundaries)
                                else old(cache.boundaries)[key := BoundariesOf(cache.inner.versions, key)]
    ensures var text := CacheKey(key, Interval(cache.boundaries[key], at));
            && found == (if text in old(cache.prices) then old(cache.prices)[text]
                         else PricesAt(cache.inner.versions, key, at))
            && cache.prices == old(cache.prices)[text := found]
  {
    found := cache.FindEffectivePrices(key, at);
  }

  lemma DatedEntries(prices: map<string, EffectivePrices>, tables: seq<seq<PriceVersion>>, batch: Batch, key: string)
    requires |tables| > 0 && EntriesMirrored(prices, tables, batch)
    ensures EntriesMirrored(prices, tables, WithDates(tables, batch, key))
  {
    assert WithDates(tables, batch, key).entries == batch.entries;
  }

  /** A lookup in the cache reads the dates and fills the entry unless they are there, and answers
      from that entry. */
  method CachedLookup(cache: BatchPriceCache, key: string, at: int,
                      ghost tables: seq<seq<PriceVersion>>, ghost batch: Batch)
    returns (found: EffectivePrices, ghost batch': Batch)
    requires |tables| > 0 && cache.inner.versions == tables[|tables| - 1]
    requires DatesMirrored(cache.boundaries, tables, batch) && EntriesMirrored(cache.prices, tables, batch)
    modifies cache
    ensures DatesMirrored(cache.boundaries, tables, batch') && EntriesMirrored(cache.prices, tables, batch')
    ensures HasDates(tables, WithDates(tables, batch, key), key)
    ensures batch' == WithEntry(tables, WithDates(tables, batch, key), key, at) && HasEntry(tables, batch', key, at)
    ensures var slot := Slot(tables, batch', key, at);
            found == PricesAt(tables[batch'.entries[slot].table], key, batch'.entries[slot].at)
  {
    ghost var dated, prices0 := WithDates(tables, batch, key), cache.prices;
    DatesMirrorKept(cache.boundaries, tables, batch, key);
    DatedEntries(prices0, tables, batch, key);
    found := AskCache(cache, key, at);
    batch' := ReadOff(cache.boundaries, prices0, cache.prices, found, tables, dated, key, at);
  }

  /** The record after a lookup, read off what the lookup did to the maps. */
  lemma ReadOff(dates: map<string, seq<int>>, prices0: map<string, EffectivePrices>,
                prices: map<string, EffectivePrices>, found: EffectivePrices,
                tables: seq<seq<PriceVersion>>, dated: Batch, key: string, at: int)
    returns (batch': Batch)
    requires |tables| > 0 && DatesMirrored(dates, tables, dated) && EntriesMirrored(prices0, tables, dated)
    requires key in dates
    requires var text := CacheKey(key, Interval(dates[key], at));
             && found == (if text in prices0 then prices0[text] else PricesAt(tables[|tables| - 1], key, at))
             && prices == prices0[text := found]
    ensures HasDates(tables, dated, key) && batch' == WithEntry(tables, dated, key, at)
    ensures HasEntry(tables, batch', key, at)
    ensures DatesMirrored(dates, tables, batch') && EntriesMirrored(prices, tables, batch')
    ensures var slot := Slot(tables, batch', key, at);
            found == PricesAt(tables[batch'.entries[slot].table], key, batch'.entries[slot].at)
  {
    var slot := Slot(tables, dated, key, at);
    assert TextOf(slot) == CacheKey(key, Interval(dates[key], at)) && found == FoundIn(prices0, tables, slot, at);
    LookupMirrored(prices0, tables, dated, key, at);
    batch' := WithEntry(tables, dated, key, at);
  }

  // ---------------------------------------------------------------- when cached stamps are right

  /** Two dates share an interval of the model's dates in `dated`. */
  predicate OneInterval(dated: seq<PriceVersion>, key: string, a: int, b: int) {
    Interval(BoundariesOf(dated, key), a) == Interval(BoundariesOf(dated, key), b)
  }

  /** Of `filled`, every version that shows in the interval of `at` had its date read from `dated`. */
  ghost predicate DatesCover(dated: seq<PriceVersion>, filled: seq<PriceVersion>, key: string, at: int) {
    ShownInIntervalRead(filled, key, BoundariesOf(dated, key), Interval(BoundariesOf(dated, key), at))
  }

  /** They all had when no price was registered between reading the dates and filling the entry. */
  lemma SameTableCovers(table: seq<PriceVersion>, key: string, at: int)
    ensures DatesCover(table, table, key, at)
  {
    BoundariesFacts(table, key);
  }

  lemma CoveredAnswer(dated: seq<PriceVersion>, filled: seq<PriceVersion>, key: string, a: int, b: int)
    requires UniqueSlots(filled) && OneInterval(dated, key, a, b) && DatesCover(dated, filled, key, b)
    ensures PricesAt(filled, key, a) == PricesAt(filled, key, b)
  {
    BoundariesFacts(dated, key);
    IntervalSoundIff(filled, key, BoundariesOf(dated, key), Interval(BoundariesOf(dated, key), b));
  }

  /** Prices as the price parser gives them. */
  ghost predicate SafePrices(table: seq<PriceVersion>) {
    forall v :: v in table ==> IsSafe(v.price)
  }

  lemma OneTypeUsed(t: TokenType, n: int, prices: EffectivePrices)
    requires n > 0
    ensures UsedTypes(map[t := n]) == [t]
    ensures FindMissingPriceTokenTypes(map[t := n], prices) == [] <==> t in prices
  {
    var tokens := map[t := n];
    UsedFacts(tokens, prices);
    assert Uses(tokens, t) && forall u :: Uses(tokens, u) ==> u == t;
    OnlyElement(UsedTypes(tokens), t);
    var missing := FindMissingPriceTokenTypes(tokens, prices);
    if missing != [] {
      assert missing[0] in missing;
    }
  }

  lemma OnlyElement(s: seq<TokenType>, t: TokenType)
    requires NoRepeats(s) && t in s && forall u :: u in s ==> u == t
    ensures s == [t]
  {
    if |s| > 1 {
      ElementIs(s, t, 0);
      ElementIs(s, t, 1);
      assert false;
    }
  }

  lemma ElementIs(s: seq<TokenType>, t: TokenType, i: nat)
    requires i < |s| && forall u :: u in s ==> u == t
    ensures s[i] == t
  {
    assert s[i] in s;
  }

  lemma OneTypeCost(t: TokenType, n: int, prices: EffectivePrices, cost: nat)
    requires n > 0 && t in prices && CostMicrocents(n, prices[t].price) == Ok(cost)
    ensures CostsFor([t], map[t := n], prices) ==
            Ok([StampedCost(t, n, prices[t].price, prices[t].effectiveFrom, cost)])
  {
    var stamped := StampedCost(t, n, prices[t].price, prices[t].effectiveFrom, cost);
    assert [t][..0] == [] && CountOf(map[t := n], t) == n;
    assert CostsFor([t], map[t := n], prices) == Ok([] + [stamped]);
    assert [] + [stamped] == [stamped];
  }

  lemma OneTerm(cost: nat)
    requires IsSafe(cost)
    ensures CheckedSum([cost]) == Ok(cost)
  {
    SumSnoc([], cost);
    assert [] + [cost] == [cost];
  }

  /** What one kind of usage is stamped with. */
  lemma OneTypeStamp(t: TokenType, n: int, prices: EffectivePrices)
    requires n > 0
    ensures t !in prices ==> exists missing :: StampTokens(map[t := n], prices, true) == Ok(PendingPrice(missing))
    ensures t in prices && CostMicrocents(n, prices[t].price).Ok? ==>
              var cost := CostMicrocents(n, prices[t].price).value;
              StampTokens(map[t := n], prices, true) ==
              Ok(Stamped([StampedCost(t, n, prices[t].price, prices[t].effectiveFrom, cost)], cost))
  {
    OneTypeUsed(t, n, prices);
    if t in prices && CostMicrocents(n, prices[t].price).Ok? {
      OneTypeCost(t, n, prices, CostMicrocents(n, prices[t].price).value);
      var cost := CostMicrocents(n, prices[t].price).value;
      OneTerm(cost);
      assert CostAmounts([StampedCost(t, n, prices[t].price, prices[t].effectiveFrom, cost)]) == [cost];
    }
  }

  /** The usage is stamped or left pending one way by `p` and another by `q`. */
  predicate StampsDiffer(tokens: TokenCounts, p: EffectivePrices, q: EffectivePrices) {
    var a, b := StampTokens(tokens, p, true), StampTokens(tokens, q, true);
    a.Ok? && b.Ok? && a != b
  }

  /** Answers that differ stamp some usage differently. */
  lemma AnswersShowInStamps(table: seq<PriceVersion>, model: string, a: int, b: int)
    requires UniqueSlots(table) && SafePrices(table) && PricesAt(table, model, a) != PricesAt(table, model, b)
    ensures exists tokens :: StampsDiffer(tokens, PricesAt(table, model, a), PricesAt(table, model, b))
  {
    var p, q := PricesAt(table, model, a), PricesAt(table, model, b);
    PricesByType(table, table, model, a, b);
    var t :| AnswerFor(table, model, t, a) != AnswerFor(table, model, t, b);
    AllTypesListed();
    LatestFacts(table, model, t, a);
    LatestFacts(table, model, t, b);
    OneTypeStamp(t, 1, p);
    OneTypeStamp(t, 1, q);
    if t in p && t in q && p[t].effectiveFrom == q[t].effectiveFrom {
      LatestAtOwnDate(table, p[t]);
      LatestAtOwnDate(table, q[t]);
    }
    assert StampsDiffer(map[t := 1], p, q);
  }

  /** A version that shows without its date read: from whatever date the interval's entry was filled,
      some date of the interval and some usage are stamped wrong. */
  lemma SomeStampWrong(table: seq<PriceVersion>, model: string, boundaries: seq<int>, at: int)
    requires StrictlySorted(boundaries, IntLess) && UniqueSlots(table) && SafePrices(table)
    requires !ShownInIntervalRead(table, model, boundaries, Interval(boundaries, at))
    ensures exists b, tokens :: Interval(boundaries, b) == Interval(boundaries, at)
                                && StampsDiffer(tokens, PricesAt(table, model, at), PricesAt(table, model, b))
  {
    var n := Interval(boundaries, at);
    IntervalSoundIff(table, model, boundaries, n);
    var a, b :| Interval(boundaries, a) == Interval(boundaries, b) == n
                && PricesAt(table, model, a) != PricesAt(table, model, b);
    var c := if PricesAt(table, model, at) != PricesAt(table, model, a) then a else b;
    AnswersShowInStamps(table, model, at, c);
  }

  lemma WrongDate(dated: seq<PriceVersion>, filled: seq<PriceVersion>, key: string, filledAt: int, at: int)
    returns (startedAt: int, tokens: TokenCounts)
    requires UniqueSlots(filled) && SafePrices(filled)
    requires OneInterval(dated, key, filledAt, at) && !DatesCover(dated, filled, key, at)
    ensures OneInterval(dated, key, startedAt, at)
    ensures StampsDiffer(tokens, PricesAt(filled, key, filledAt), PricesAt(filled, key, startedAt))
  {
    var boundaries := BoundariesOf(dated, key);
    BoundariesFacts(dated, key);
    SomeStampWrong(filled, key, boundaries, filledAt);
    startedAt, tokens :|
      Interval(boundaries, startedAt) == Interval(boundaries, filledAt)
      && StampsDiffer(tokens, PricesAt(filled, key, filledAt), PricesAt(filled, key, startedAt));
  }

  /** Stamping from an entry filled for `at` is stamping from the table it was filled from, for every
      date of the interval and all usage, if and only if every version that shows in the interval had
      its date read. */
  lemma EntryStampsRightIff(table: seq<PriceVersion>, model: string, boundaries: seq<int>, at: int)
    requires StrictlySorted(boundaries, IntLess) && UniqueSlots(table) && SafePrices(table)
    ensures (forall b, tokens :: Interval(boundaries, b) == Interval(boundaries, at) ==>
               StampTokens(tokens, PricesAt(table, model, at), true)
               == StampTokens(tokens, PricesAt(table, model, b), true))
            <==> ShownInIntervalRead(table, model, boundaries, Interval(boundaries, at))
  {
    IntervalSoundIff(table, model, boundaries, Interval(boundaries, at));
    if !ShownInIntervalRead(table, model, boundaries, Interval(boundaries, at)) {
      SomeStampWrong(table, model, boundaries, at);
    }
  }
}
