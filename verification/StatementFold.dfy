/**
 * statement-engine.ts, createStatementFold and finishStatement: the mutable fold. The line
 * objects live in the accumulator's map and are handed out by every statement.
 */
module StatementFolding {
  import opened Wrappers
  import opened Sums
  import opened Sorting
  import opened Money
  import opened StatementModel
  import opened StatementSpec
  import opened StatementTheorems
  import opened StatementEngine

  /** One line object; its grouping key never changes. */
  class StatementLine {
    const key: LineKey
    var tokens: nat
    var costMicrocents: nat
    var displayCents: nat

    constructor (key: LineKey, tokens: nat, cost: nat)
      ensures this.key == key && this.tokens == tokens && costMicrocents == cost && displayCents == 0
    {
      this.key, this.tokens, costMicrocents, displayCents := key, tokens, cost, 0;
    }

    function View(): LineView
      reads this
    {
      LineView(key, tokens, costMicrocents, displayCents)
    }
  }

  /** What `statement()` returns: values, except for the lines, which are objects. */
  datatype Projection = Projection(lines: seq<StatementLine>, rest: Statement)

  function Views(lines: seq<StatementLine>): (views: seq<LineView>)
    reads lines
    ensures |views| == |lines| && forall i :: 0 <= i < |lines| ==> views[i] == lines[i].View()
  {
    seq(|lines|, i requires 0 <= i < |lines| reads lines => lines[i].View())
  }

  /** The projection as a reader sees it now, lines read through their objects. */
  function Seen(p: Projection): Statement
    reads p.lines
  {
    p.rest.(lines := Views(p.lines))
  }

  function CostsOf(lines: seq<StatementLine>): (costs: seq<nat>)
    reads lines
    ensures |costs| == |lines| && forall i :: 0 <= i < |lines| ==> costs[i] == lines[i].costMicrocents
  {
    seq(|lines|, i requires 0 <= i < |lines| reads lines => lines[i].costMicrocents)
  }

  /** The entries folded when the first `n` costs of a record are in. */
  ghost function Partial(entries: seq<Entry>, record: UsageRecord, n: nat): seq<Entry>
    requires n <= |record.stampedCosts|
  {
    if n == 0 then entries
    else Partial(entries, record, n - 1) + [EntryOf(record, record.stampedCosts[n - 1])]
  }

  lemma {:induction false} PartialIsPrefix(entries: seq<Entry>, record: UsageRecord, n: nat)
    requires n <= |record.stampedCosts|
    ensures Partial(entries, record, n) == entries + EntriesOf(record)[..n]
    ensures n == |record.stampedCosts| ==> Partial(entries, record, n) == entries + EntriesOf(record)
  {
    if n > 0 {
      PartialIsPrefix(entries, record, n - 1);
    }
  }

  /** `lines` are the lines of `entries` in statement order, displayed cents aside. */
  ghost predicate Listed(lines: seq<StatementLine>, entries: seq<Entry>)
    reads lines
  {
    && |lines| == |SortedKeys(entries)|
    && forall i :: 0 <= i < |lines| ==>
         && lines[i].key == SortedKeys(entries)[i]
         && lines[i].tokens == LineTokens(entries, lines[i].key)
         && lines[i].costMicrocents == LineCost(entries, lines[i].key) <= MAX_SAFE
  }

  lemma ListedCosts(lines: seq<StatementLine>, entries: seq<Entry>)
    requires Listed(lines, entries)
    ensures CostsOf(lines) == LineCosts(entries)
    ensures Sum(CostsOf(lines)) == TotalCost(entries)
    ensures forall i, j :: 0 <= i < j < |lines| ==> lines[i] != lines[j]
  {
    SortedKeysFacts(entries);
    assert CostsOf(lines) == LineCosts(entries);
    LinesConserve(entries);
    SumOfField(LineCosts(entries), LinesOf(entries), CostOf);
  }

  lemma ListedViews(lines: seq<StatementLine>, entries: seq<Entry>)
    requires Listed(lines, entries)
    requires forall i :: 0 <= i < |lines| ==> lines[i].displayCents == DisplayParts(LineCosts(entries))[i]
    ensures Views(lines) == LinesOf(entries)
  {}

  method WriteCents(lines: seq<StatementLine>, cents: seq<nat>)
    requires |lines| == |cents|
    requires forall i, j :: 0 <= i < j < |lines| ==> lines[i] != lines[j]
    modifies lines`displayCents
    ensures forall i :: 0 <= i < |lines| ==> lines[i].displayCents == cents[i]
  {
    for n := 0 to |lines|
      invariant forall i :: 0 <= i < n ==> lines[i].displayCents == cents[i]
    {
      lines[n].displayCents := cents[n];
    }
  }

  /** The total, its displayed cents, and each line's displayed cents written into the line. */
  method Reconcile(lines: seq<StatementLine>, ghost entries: seq<Entry>) returns (r: Option<(nat, nat)>)
    requires Listed(lines, entries)
    modifies lines`displayCents
    ensures r.None? <==> TotalCost(entries) > MAX_SAFE
    ensures r.Some? ==> r.value == (TotalCost(entries), DisplayTotal(LineCosts(entries)))
    ensures r.Some? ==> Views(lines) == LinesOf(entries)
  {
    ListedCosts(lines, entries);
    var costs := CostsOf(lines);
    var total := SumMicrocents(costs);
    if total.Err? {
      return None;
    }
    var reconciled := ReconcileDisplayCents(costs);
    var (totalCents, partsCents) := reconciled.value;
    WriteCents(lines, partsCents);
    ListedViews(lines, entries);
    return Some((total.value, totalCents));
  }

  lemma LineTotalsSnoc(entries: seq<Entry>, e: Entry, k: LineKey)
    ensures LineTokens(entries + [e], k) == LineTokens(entries, k) + if k == e.key then e.tokens else 0
    ensures LineCost(entries + [e], k) == LineCost(entries, k) + if k == e.key then e.cost else 0
  {
    GroupSnoc(entries, e, EntryKey, EntryTokens, k);
    GroupSnoc(entries, e, EntryKey, EntryCost, k);
  }

  lemma ElementsSnoc(keys: seq<LineKey>, k: LineKey)
    ensures k in keys <==> k in Elements(keys)
    ensures Elements(keys + [k]) == Elements(keys) + {k}
  {}

  lemma LineAbsent(entries: seq<Entry>, k: LineKey)
    requires k !in Listing(entries, EntryKey)
    ensures LineTokens(entries, k) == 0 && LineCost(entries, k) == 0
  {
    ListingFacts(entries, EntryKey);
    GroupAbsent(entries, EntryKey, EntryTokens, k);
    GroupAbsent(entries, EntryKey, EntryCost, k);
  }

  method SumTokens(views: seq<LineView>) returns (tokens: nat)
    ensures tokens == SumBy(views, TokensOf)
  {
    tokens := 0;
    for n := 0 to |views|
      invariant tokens == SumBy(views[..n], TokensOf)
    {
      SumByPrefix(views, n, TokensOf);
      tokens := tokens + views[n].tokens;
    }
    assert views[..|views|] == views;
  }

  /** The value half of `finishStatement`. */
  method FinishStatement(lines: seq<LineView>, total: nat, totalCents: nat, traceCount: nat, cache: CacheSavings)
    returns (s: Statement)
    requires SumBy(lines, CostOf) <= MAX_SAFE
    ensures s == Project(lines, total, totalCents, traceCount, cache)
  {
    var agents := BuildAgentGroups(lines);
    var tokens := SumTokens(lines);
    var mix := BuildModelShares(lines, tokens);
    var mixes := BuildModelMixByAgent(lines, agents);
    s := Statement(total, totalCents, traceCount, tokens, lines, agents, mix, mixes, cache);
  }

  /** `finishStatement` once the lines are in order: reconcile, then the value half. */
  method CloseLines(lines: seq<StatementLine>, ghost entries: seq<Entry>, traceCount: nat, cache: CacheSavings)
    returns (r: Option<Projection>)
    requires Listed(lines, entries)
    modifies lines`displayCents
    ensures r.None? <==> TotalCost(entries) > MAX_SAFE
    ensures r.Some? ==> r.value.lines == lines
    ensures r.Some? ==> Seen(r.value) == Project(LinesOf(entries), TotalCost(entries), DisplayTotal(LineCosts(entries)),
                                                 traceCount, cache)
  {
    var totals := Reconcile(lines, entries);
    if totals.None? {
      return None;
    }
    var views := Views(lines);
    LinesConserve(entries);
    var rest := FinishStatement(views, totals.value.0, totals.value.1, traceCount, cache);
    r := Some(Projection(lines, rest));
  }

  class StatementFold {
    var order: seq<LineKey>
    var groups: map<LineKey, StatementLine>
    var versions: seq<PriceVersionKey>
    var recordCount: nat
    const cacheSavings: CacheSavingsFold
    ghost var folded: seq<UsageRecord>

    ghost function Lines(): set<StatementLine>
      reads this`groups
    {
      set k | k in groups :: groups[k]
    }

    /** The accumulator's own object for a key. */
    ghost predicate Holds(k: LineKey, line: StatementLine)
      reads this`groups
    {
      k in groups && groups[k] == line
    }

    /** The line map holds exactly the lines of `entries`. */
    ghost predicate Groups(entries: seq<Entry>)
      reads this`order, this`groups, Lines()
    {
      && order == Listing(entries, EntryKey)
      && groups.Keys == Elements(order)
      && forall k :: k in groups ==> groups[k].key == k && groups[k].tokens == LineTokens(entries, k)
                                     && groups[k].costMicrocents == LineCost(entries, k) <= MAX_SAFE
    }

    /** Line objects are created once per key and never replaced. */
    ghost predicate KeepsLines(before: map<LineKey, StatementLine>)
      reads this`groups
    {
      forall k :: k in before ==> Holds(k, before[k])
    }

    /** The accumulators are those of `records`. */
    ghost predicate Accumulates(records: seq<UsageRecord>)
      reads this`order, this`groups, this`versions, this`recordCount, Lines(), cacheSavings
    {
      Groups(Entries(records)) && RestAccumulates(records)
    }

    /** The accumulators beside the lines. */
    ghost predicate RestAccumulates(records: seq<UsageRecord>)
      reads this`versions, this`recordCount, cacheSavings
    {
      && cacheSavings.Folds(records)
      && versions == Listing(Entries(records), VersionOf)
      && recordCount == |records|
    }

    ghost predicate Valid()
      reads this, Lines(), cacheSavings
    {
      Accumulates(folded)
    }

    constructor ()
      ensures Valid() && fresh(cacheSavings) && folded == [] && Lines() == {}
    {
      order, groups, versions, recordCount, folded := [], map[], [], 0, [];
      cacheSavings := new CacheSavingsFold();
    }

    /** One stamped cost into an existing line. */
    method GrowLine(e: Entry, ghost entries: seq<Entry>) returns (ok: bool)
      requires Groups(entries) && e.key in groups
      modifies groups[e.key]
      ensures ok ==> Groups(entries + [e])
      ensures !ok ==> LineCost(entries + [e], e.key) > MAX_SAFE
    {
      forall k { LineTotalsSnoc(entries, e, k); }
      ListingSnoc(entries, e, EntryKey);
      var line := groups[e.key];
      AddMicrocentsFacts(line.costMicrocents, e.cost);
      var cost := AddMicrocents(line.costMicrocents, e.cost);
      line.tokens := line.tokens + e.tokens;
      if cost.Err? { return false; }
      line.costMicrocents := cost.value;
      return true;
    }

    /** One stamped cost opening a new line. */
    method OpenLine(e: Entry, ghost entries: seq<Entry>)
      requires Groups(entries) && e.key !in groups && IsSafe(e.cost)
      modifies this`order, this`groups
      ensures Groups(entries + [e]) && fresh(Lines() - old(Lines())) && KeepsLines(old(groups))
    {
      forall k { LineTotalsSnoc(entries, e, k); }
      ListingSnoc(entries, e, EntryKey);
      LineAbsent(entries, e.key);
      ElementsSnoc(order, e.key);
      var line := new StatementLine(e.key, e.tokens, e.cost);
      order := order + [e.key];
      groups := groups[e.key := line];
    }

    /** One stamped cost into its line, opened on first sight. */
    method AddEntry(e: Entry, ghost entries: seq<Entry>) returns (ok: bool)
      requires Groups(entries) && IsSafe(e.cost)
      modifies this`order, this`groups, Lines()
      ensures ok ==> Groups(entries + [e]) && fresh(Lines() - old(Lines())) && KeepsLines(old(groups))
      ensures !ok ==> LineCost(entries + [e], e.key) > MAX_SAFE
    {
      if e.key in groups {
        assert groups[e.key] in Lines();
        ok := GrowLine(e, entries);
      } else {
        OpenLine(e, entries);
        ok := true;
      }
    }

    /** Every stamped cost of a record into its line. */
    method AddRecordLines(record: UsageRecord, ghost entries: seq<Entry>) returns (ok: bool)
      requires Groups(entries)
      requires forall c :: c in record.stampedCosts ==> IsSafe(c.cost)
      modifies this`order, this`groups, Lines()
      ensures ok ==> Groups(entries + EntriesOf(record)) && fresh(Lines() - old(Lines())) && KeepsLines(old(groups))
      ensures !ok ==> TotalCost(entries + EntriesOf(record)) > MAX_SAFE
    {
      for n := 0 to |record.stampedCosts|
        invariant Groups(Partial(entries, record, n))
        invariant fresh(Lines() - old(Lines())) && KeepsLines(old(groups))
      {
        var c := record.stampedCosts[n];
        assert c in record.stampedCosts;
        ok := AddEntry(EntryOf(record, c), Partial(entries, record, n));
        if !ok {
          OverflowReachesTotal(entries, record, n + 1, EntryOf(record, c).key);
          return;
        }
      }
      PartialIsPrefix(entries, record, |record.stampedCosts|);
      return true;
    }

    /** Folds one record; false when a sum leaves the safe range, and then the month's total has
        left it too. */
    method Add(record: UsageRecord) returns (ok: bool)
      requires Valid()
      requires forall c :: c in record.stampedCosts ==> IsSafe(c.cost)
      modifies this, Lines(), cacheSavings
      ensures ok ==> Valid() && folded == old(folded) + [record] && fresh(Lines() - old(Lines()))
      ensures ok ==> KeepsLines(old(groups))
      ensures !ok ==> TotalCost(Entries(old(folded) + [record])) > MAX_SAFE
    {
      ok := Accumulate(record);
      if ok {
        folded := folded + [record];
      }
    }

    /** The three accumulators in turn. */
    method Accumulate(record: UsageRecord) returns (ok: bool)
      requires Accumulates(folded)
      requires forall c :: c in record.stampedCosts ==> IsSafe(c.cost)
      modifies this`order, this`groups, this`versions, this`recordCount, Lines(), cacheSavings
      ensures ok ==> Accumulates(folded + [record]) && fresh(Lines() - old(Lines())) && KeepsLines(old(groups))
      ensures !ok ==> TotalCost(Entries(folded + [record])) > MAX_SAFE
    {
      FlatMapSnoc(folded, record, EntriesOf);
      ok := AddRecordLines(record, Entries(folded));
      if ok {
        ok := AddRest(record);
      }
    }

    /** The part of `add` around the lines: the record count, cache savings, then price versions. */
    method AddRest(record: UsageRecord) returns (ok: bool)
      requires RestAccumulates(folded)
      modifies this`versions, this`recordCount, cacheSavings
      ensures ok ==> RestAccumulates(folded + [record])
      ensures !ok ==> TotalCost(Entries(folded + [record])) > MAX_SAFE
    {
      recordCount := recordCount + 1;
      ok := cacheSavings.Add(record, folded);
      if !ok {
        CacheBelowTotal(folded + [record]);
        return;
      }
      AddVersions(record);
    }

    method AddVersions(record: UsageRecord)
      requires versions == Listing(Entries(folded), VersionOf)
      modifies this`versions
      ensures versions == Listing(Entries(folded + [record]), VersionOf)
    {
      ghost var entries, added := Entries(folded), EntriesOf(record);
      FlatMapSnoc(folded, record, EntriesOf);
      assert entries + added[..0] == entries;
      for n := 0 to |record.stampedCosts|
        invariant versions == Listing(entries + added[..n], VersionOf)
      {
        VersionsSnoc(entries, record, n);
        var version := VersionOf(EntryOf(record, record.stampedCosts[n]));
        if version !in versions {
          versions := versions + [version];
        }
      }
      assert added[..|added|] == added;
    }

    /** `statement()`: recomputed from the accumulators on every call. It writes displayed cents
        into the line objects and into nothing else, so calling it again gives the same value. */
    method Statement() returns (r: Option<Projection>)
      requires Valid()
      modifies Lines()`displayCents
      ensures Valid()
      ensures r.None? <==> StatementOf(folded).None?
      ensures r.Some? ==> Seen(r.value) == StatementOf(folded).value
      ensures r.Some? ==> |r.value.lines| == |SortedKeys(Entries(folded))|
      ensures r.Some? ==>
                forall i :: 0 <= i < |r.value.lines| ==> Holds(SortedKeys(Entries(folded))[i], r.value.lines[i])
    {
      var cache := cacheSavings.Finish(folded);
      if cache.None? {
        return None;
      }
      r := CloseSorted(Entries(folded), cache.value);
    }

    /** The accumulator's own lines, in order, closed. */
    method CloseSorted(ghost entries: seq<Entry>, cache: CacheSavings) returns (r: Option<Projection>)
      requires Groups(entries)
      modifies Lines()`displayCents
      ensures Groups(entries)
      ensures r.None? <==> TotalCost(entries) > MAX_SAFE
      ensures r.Some? ==>
                Seen(r.value) == Project(LinesOf(entries), TotalCost(entries), DisplayTotal(LineCosts(entries)),
                                         recordCount, cache)
      ensures r.Some? ==> |r.value.lines| == |SortedKeys(entries)|
      ensures r.Some? ==> forall i :: 0 <= i < |r.value.lines| ==> Holds(SortedKeys(entries)[i], r.value.lines[i])
    {
      var lines := SortedLines(entries);
      r := CloseLines(lines, entries, recordCount, cache);
      assert forall k :: k in groups ==>
               groups[k].tokens == old(groups[k].tokens) && groups[k].costMicrocents == old(groups[k].costMicrocents);
    }

    /** `[...groups.values()].sort(compareLines)`: the accumulator's own objects, reordered. */
    method SortedLines(ghost entries: seq<Entry>) returns (lines: seq<StatementLine>)
      requires Groups(entries)
      ensures Listed(lines, entries)
      ensures forall i :: 0 <= i < |lines| ==> Holds(SortedKeys(entries)[i], lines[i])
      ensures forall line :: line in lines ==> line in Lines()
    {
      var keys, byKey := Sort(order, LineLess), groups;
      SortElements(order, LineLess);
      assert forall i :: 0 <= i < |keys| ==> keys[i] in Elements(keys);
      lines := seq(|keys|, i requires 0 <= i < |keys| && keys[i] in byKey => byKey[keys[i]]);
      assert forall i :: 0 <= i < |lines| ==> Holds(keys[i], lines[i]);
    }

    /** `appliedPriceVersions()`. */
    method AppliedPriceVersions() returns (r: seq<PriceVersionKey>)
      requires Valid()
      ensures r == PriceVersionsOf(Entries(folded))
    {
      r := Sort(versions, PriceVersionLess);
    }
  }

  lemma OverflowReachesTotal(entries: seq<Entry>, record: UsageRecord, n: nat, k: LineKey)
    requires n <= |record.stampedCosts|
    ensures LineCost(Partial(entries, record, n), k) <= TotalCost(entries + EntriesOf(record))
  {
    PartialIsPrefix(entries, record, n);
    var front, tail := entries + EntriesOf(record)[..n], EntriesOf(record)[n..];
    GroupNonNegative(front, EntryKey, EntryCost, k);
    assert entries + EntriesOf(record) == front + tail;
    SumByConcat(front, tail, EntryCost);
    SumByNonNegative(tail, EntryCost);
  }

  lemma {:induction false} FirstBelowSum(costs: seq<StampedCost>, r: UsageRecord, t: TokenType)
    ensures FirstOf(costs, t).Some? ==>
            FirstOf(costs, t).value.cost <= SumBy(EntriesOf(r.(stampedCosts := costs)), EntryCost)
  {
    if |costs| > 0 {
      var es := EntriesOf(r.(stampedCosts := costs));
      var tail := EntriesOf(r.(stampedCosts := costs[1..]));
      FirstBelowSum(costs[1..], r, t);
      assert es == [es[0]] + tail;
      SumByConcat([es[0]], tail, EntryCost);
      SumByNonNegative(tail, EntryCost);
      assert [es[0]] == [] + [es[0]];
      SumBySnoc([], es[0], EntryCost);
    }
  }

  /** The cache counters never exceed the month's total. */
  lemma {:induction false} CacheBelowTotal(records: seq<UsageRecord>)
    ensures SumBy(records, WriteCost) <= TotalCost(Entries(records))
    ensures SumBy(records, ReadCost) <= TotalCost(Entries(records))
  {
    if |records| > 0 {
      var n := |records| - 1;
      var r := records[n];
      CacheBelowTotal(records[..n]);
      assert records == records[..n] + [r];
      FlatMapSnoc(records[..n], r, EntriesOf);
      SumByConcat(Entries(records[..n]), EntriesOf(r), EntryCost);
      FirstBelowSum(r.stampedCosts, r, CacheWrite);
      FirstBelowSum(r.stampedCosts, r, CacheRead);
      SumByNonNegative(EntriesOf(r), EntryCost);
    }
  }

  /** The versions listed after one stamped cost more of a record. */
  lemma VersionsSnoc(entries: seq<Entry>, record: UsageRecord, n: nat)
    requires n < |record.stampedCosts|
    ensures var listed, version := Listing(entries + EntriesOf(record)[..n], VersionOf),
                                   VersionOf(EntryOf(record, record.stampedCosts[n]));
            Listing(entries + EntriesOf(record)[..n + 1], VersionOf) ==
            if version in listed then listed else listed + [version]
  {
    var added := EntriesOf(record);
    assert entries + added[..n + 1] == entries + added[..n] + [added[n]];
    ListingSnoc(entries + added[..n], added[n], VersionOf);
  }

  lemma TotalMonotone(records: seq<UsageRecord>, n: nat)
    requires n <= |records|
    ensures TotalCost(Entries(records[..n])) <= TotalCost(Entries(records))
  {
    assert records == records[..n] + records[n..];
    FlatMapConcat(records[..n], records[n..], EntriesOf);
    SumByConcat(Entries(records[..n]), Entries(records[n..]), EntryCost);
    SumByNonNegative(Entries(records[n..]), EntryCost);
  }

  ghost predicate SafeCosts(records: seq<UsageRecord>) {
    forall r, c :: r in records && c in r.stampedCosts ==> IsSafe(c.cost)
  }

  /** A month one of whose prefixes leaves the safe range leaves it too. */
  lemma PrefixOverflows(before: seq<UsageRecord>, records: seq<UsageRecord>, n: nat)
    requires n < |records| && TotalCost(Entries(before + records[..n] + [records[n]])) > MAX_SAFE
    ensures TotalCost(Entries(before + records)) > MAX_SAFE
  {
    assert before + records[..n] + [records[n]] == (before + records)[..|before| + n + 1];
    TotalMonotone(before + records, |before| + n + 1);
  }

  /** The next record of an array into a fold that has taken those before it. */
  method AddNext(fold: StatementFold, records: seq<UsageRecord>, n: nat, ghost before: seq<UsageRecord>)
    returns (ok: bool)
    requires fold.Valid() && SafeCosts(records) && n < |records| && fold.folded == before + records[..n]
    modifies fold, fold.Lines(), fold.cacheSavings
    ensures ok ==> fold.Valid() && fold.folded == before + records[..n + 1] && fresh(fold.Lines() - old(fold.Lines()))
    ensures !ok ==> TotalCost(Entries(before + records)) > MAX_SAFE
  {
    assert records[n] in records;
    assert before + records[..n + 1] == before + records[..n] + [records[n]];
    ok := fold.Add(records[n]);
    if !ok {
      PrefixOverflows(before, records, n);
    }
  }

  /** `for (const record of records) fold.add(record)`; false when some `add` throws. */
  method AddAll(fold: StatementFold, records: seq<UsageRecord>) returns (ok: bool)
    requires fold.Valid() && SafeCosts(records)
    modifies fold, fold.Lines(), fold.cacheSavings
    ensures ok ==> fold.Valid() && fold.folded == old(fold.folded) + records && fresh(fold.Lines() - old(fold.Lines()))
    ensures !ok ==> TotalCost(Entries(old(fold.folded) + records)) > MAX_SAFE
  {
    ghost var before := fold.folded;
    assert before + records[..0] == before;
    for n := 0 to |records|
      invariant fold.Valid() && fold.folded == before + records[..n]
      invariant fresh(fold.Lines() - old(fold.Lines()))
    {
      ok := AddNext(fold, records, n, before);
      if !ok {
        return;
      }
    }
    assert records[..|records|] == records;
    ok := true;
  }

  /** `foldRecords`: one fold over an array. */
  method FoldRecords(records: seq<UsageRecord>) returns (fold: StatementFold, ok: bool)
    requires SafeCosts(records)
    ensures ok ==> fold.Valid() && fold.folded == records
    ensures ok ==> fresh(fold) && fresh(fold.Lines()) && fresh(fold.cacheSavings)
    ensures !ok ==> StatementOf(records).None?
  {
    fold := new StatementFold();
    ok := AddAll(fold, records);
    assert [] + records == records;
  }

  /** `buildStatement`: the statement of a month held in memory. */
  method BuildStatement(records: seq<UsageRecord>) returns (r: Option<Statement>)
    requires SafeCosts(records)
    ensures r == StatementOf(records)
  {
    var fold, ok := FoldRecords(records);
    if !ok {
      return None;
    }
    var p := fold.Statement();
    return if p.Some? then Some(Seen(p.value)) else None;
  }

  /** Calling `statement()` twice gives the same value, and the first result still reads the same. */
  method StatementTwice(fold: StatementFold) returns (first: Option<Projection>, second: Option<Projection>)
    requires fold.Valid()
    modifies fold.Lines()`displayCents
    ensures first.Some? <==> StatementOf(fold.folded).Some?
    ensures second.Some? <==> StatementOf(fold.folded).Some?
    ensures first.Some? ==> Seen(first.value) == Seen(second.value) == StatementOf(fold.folded).value
  {
    first := fold.Statement();
    second := fold.Statement();
    if first.Some? {
      assert first.value.lines == second.value.lines;
    }
  }

  /**
   * A statement is not a copy: after a later `add` and `statement()`, every line object handed out
   * earlier is a line of the later statement, so an earlier result's lines read as the later ones.
   */
  method EarlierLinesFollow(fold: StatementFold, record: UsageRecord, keys: seq<LineKey>, lines: seq<StatementLine>)
    returns (later: Option<Projection>)
    requires fold.Valid()
    requires |keys| == |lines| && forall i :: 0 <= i < |keys| ==> fold.Holds(keys[i], lines[i])
    requires forall c :: c in record.stampedCosts ==> IsSafe(c.cost)
    modifies fold, fold.Lines(), fold.cacheSavings
    ensures later.Some? ==> forall i :: 0 <= i < |lines| ==> lines[i] in later.value.lines
    ensures later.Some? <==> StatementOf(old(fold.folded) + [record]).Some?
    ensures later.Some? ==> Seen(later.value) == StatementOf(old(fold.folded) + [record]).value
  {
    later := None;
    var ok := fold.Add(record);
    if !ok {
      return;
    }
    later := fold.Statement();
    if later.Some? {
      forall i | 0 <= i < |lines| ensures lines[i] in later.value.lines {
        LineKept(fold, keys[i], lines[i], later.value);
      }
    }
  }

  lemma LineKept(fold: StatementFold, k: LineKey, line: StatementLine, p: Projection)
    requires fold.Valid() && fold.Holds(k, line)
    requires |p.lines| == |SortedKeys(Entries(fold.folded))|
    requires forall i :: 0 <= i < |p.lines| ==> fold.Holds(SortedKeys(Entries(fold.folded))[i], p.lines[i])
    ensures line in p.lines
  {
    var entries := Entries(fold.folded);
    var keys := SortedKeys(entries);
    SortElements(fold.order, LineLess);
    assert k in Elements(fold.order);
    var i :| 0 <= i < |keys| && keys[i] == k;
    assert p.lines[i] == line;
  }
}
