/**
 * close-billing-period-db-use-case.ts: the close folds the month page by page, one day at a
 * time, while the readers fold the whole month at once.
 */
module ClosePages {
  import opened Wrappers
  import opened Sums
  import opened Money
  import opened ClientCalendar
  import opened StatementModel
  import opened StatementSpec
  import opened StatementTheorems
  import opened StatementFolding

  datatype Page = Page(start: int, end: int)

  /** The pages cut [start, end) into consecutive days, the last one clamped to the end. */
  ghost predicate Tiles(pages: seq<Page>, start: int, end: int) {
    if |pages| == 0 then start >= end
    else
      && start < end
      && pages[0].start == start
      && pages[0].end == (if start + DAY_MS > end then end else start + DAY_MS)
      && Tiles(pages[1..], pages[0].end, end)
  }

  /** Every instant of the window lies in exactly one page, and no other instant in any. */
  lemma {:induction false} TilesPartition(pages: seq<Page>, start: int, end: int, t: int)
    requires Tiles(pages, start, end)
    ensures start <= t < end <==> exists i :: 0 <= i < |pages| && pages[i].start <= t < pages[i].end
    ensures forall i, j :: 0 <= i < j < |pages| ==> start <= pages[i].end <= pages[j].start
    ensures forall i :: 0 <= i < |pages| ==> start <= pages[i].start < pages[i].end <= end
  {
    if |pages| > 0 {
      var tail := pages[1..];
      TilesPartition(tail, pages[0].end, end, t);
      assert forall i :: 1 <= i < |pages| ==> pages[i] == tail[i - 1];
      if pages[0].end <= t < end {
        var i :| 0 <= i < |tail| && tail[i].start <= t < tail[i].end;
        assert pages[i + 1].start <= t < pages[i + 1].end;
      }
    }
  }

  lemma {:induction false} TilesSnoc(pages: seq<Page>, start: int, middle: int, end: int, page: Page)
    requires TilesTo(pages, start, middle, end) && middle < end
    requires page.start == middle && page.end == (if middle + DAY_MS > end then end else middle + DAY_MS)
    ensures TilesTo(pages + [page], start, page.end, end)
  {
    if |pages| == 0 {
      assert (pages + [page])[1..] == [];
    } else {
      TilesSnoc(pages[1..], pages[0].end, middle, end, page);
      assert (pages + [page])[1..] == pages[1..] + [page];
    }
  }

  /** The pages pushed so far: they reach from `start` to the cursor. */
  ghost predicate TilesTo(pages: seq<Page>, start: int, cursor: int, end: int) {
    if |pages| == 0 then start == cursor
    else
      && start < end
      && pages[0].start == start
      && pages[0].end == (if start + DAY_MS > end then end else start + DAY_MS)
      && TilesTo(pages[1..], pages[0].end, cursor, end)
  }

  lemma {:induction false} TilesToEnd(pages: seq<Page>, start: int, cursor: int, end: int)
    requires TilesTo(pages, start, cursor, end) && cursor >= end
    ensures Tiles(pages, start, end)
  {
    if |pages| > 0 {
      TilesToEnd(pages[1..], pages[0].end, cursor, end);
    }
  }

  method UsagePageWindows(monthStart: int, monthEnd: int) returns (pages: seq<Page>)
    ensures Tiles(pages, monthStart, monthEnd)
  {
    pages := [];
    var cursor := monthStart;
    while cursor < monthEnd
      invariant TilesTo(pages, monthStart, cursor, monthEnd)
    {
      var nextDay := cursor + DAY_MS;
      var end := if nextDay > monthEnd then monthEnd else nextDay;
      TilesSnoc(pages, monthStart, cursor, monthEnd, Page(cursor, end));
      pages := pages + [Page(cursor, end)];
      cursor := end;
    }
    TilesToEnd(pages, monthStart, cursor, monthEnd);
  }

  // ---------------------------------------------------------------- the store's window reads

  function StartedIn(start: int, end: int): UsageRecord -> bool {
    (r: UsageRecord) => start <= r.startedAt < end
  }

  /** The stored records started inside [start, end). */
  function Window(store: seq<UsageRecord>, start: int, end: int): seq<UsageRecord> {
    Filter(store, StartedIn(start, end))
  }

  lemma WindowMembers(store: seq<UsageRecord>, start: int, end: int)
    ensures forall r :: r in Window(store, start, end) ==> r in store
  {
    FilterFacts(store, StartedIn(start, end));
  }

  lemma {:induction false} WindowSplits(store: seq<UsageRecord>, start: int, middle: int, end: int)
    requires start <= middle <= end
    ensures multiset(Window(store, start, end))
         == multiset(Window(store, start, middle)) + multiset(Window(store, middle, end))
  {
    if |store| > 0 {
      WindowSplits(store[..|store| - 1], start, middle, end);
    }
  }

  lemma EmptyWindow(store: seq<UsageRecord>, start: int, end: int)
    requires start >= end
    ensures Window(store, start, end) == []
  {
    FilterNone(store, StartedIn(start, end));
  }

  /** `fetchUsageRecords`: the window's records; callers may rely on no order. */
  method FetchUsageRecords(store: seq<UsageRecord>, start: int, end: int) returns (records: seq<UsageRecord>)
    ensures multiset(records) == multiset(Window(store, start, end))
    ensures forall r :: r in records ==> r in store
  {
    records := Window(store, start, end);
    WindowMembers(store, start, end);
  }

  // ---------------------------------------------------------------- the paged fold

  function TraceIds(records: seq<UsageRecord>): (ids: seq<string>)
    ensures |ids| == |records| && forall i :: 0 <= i < |ids| ==> ids[i] == records[i].traceId
  {
    seq(|records|, i requires 0 <= i < |records| => records[i].traceId)
  }

  /** A sub-multiset of the month costs no more than the month. */
  lemma PartCostsLess(part: seq<UsageRecord>, rest: seq<UsageRecord>, whole: seq<UsageRecord>)
    requires multiset(part) + multiset(rest) == multiset(whole)
    ensures TotalCost(Entries(part)) <= TotalCost(Entries(whole))
  {
    assert multiset(part + rest) == multiset(whole);
    FlatMapPermutation(part + rest, whole, EntriesOf);
    SumByPermutation(Entries(part + rest), Entries(whole), EntryCost);
    TotalMonotone(part + rest, |part|);
    assert (part + rest)[..|part|] == part;
  }

  lemma PageStaged(store: seq<UsageRecord>, staged: seq<UsageRecord>, records: seq<UsageRecord>,
                   start: int, page: Page, end: int)
    requires start <= page.start <= page.end <= end
    requires multiset(staged) == multiset(Window(store, start, page.start))
    requires multiset(records) == multiset(Window(store, page.start, page.end))
    ensures multiset(staged + records) == multiset(Window(store, start, page.end))
    ensures TotalCost(Entries(staged + records)) <= TotalCost(Entries(Window(store, start, end)))
  {
    WindowSplits(store, start, page.start, page.end);
    WindowSplits(store, start, page.end, end);
    PartCostsLess(staged + records, Window(store, page.end, end), Window(store, start, end));
  }

  /** What the close publishes: the statement, and the records it staged beside it. */
  datatype Closing = Closing(
    statement: Statement, priceVersions: seq<PriceVersionKey>,
    staged: seq<UsageRecord>, billedTraceIds: seq<string>)

  /** One page: fetched, folded, staged. */
  method FoldPage(store: seq<UsageRecord>, fold: StatementFold, page: Page, staged: seq<UsageRecord>,
                  ghost start: int, ghost end: int)
    returns (staged': seq<UsageRecord>, ok: bool)
    requires start <= page.start <= page.end <= end && SafeCosts(store)
    requires fold.Valid() && fold.folded == staged
    requires multiset(staged) == multiset(Window(store, start, page.start))
    modifies fold, fold.Lines(), fold.cacheSavings
    ensures ok ==> fold.Valid() && fold.folded == staged' && fresh(fold.Lines() - old(fold.Lines()))
    ensures ok ==> multiset(staged') == multiset(Window(store, start, page.end))
    ensures !ok ==> TotalCost(Entries(Window(store, start, end))) > MAX_SAFE
  {
    var records := FetchUsageRecords(store, page.start, page.end);
    PageStaged(store, staged, records, start, page, end);
    ok := AddAll(fold, records);
    staged' := staged + records;
  }

  /** Every page in turn. */
  method FoldPages(store: seq<UsageRecord>, fold: StatementFold, pages: seq<Page>, ghost start: int, ghost end: int)
    returns (staged: seq<UsageRecord>, ok: bool)
    requires Tiles(pages, start, end) && start <= end
    requires fold.Valid() && fold.folded == [] && SafeCosts(store)
    modifies fold, fold.Lines(), fold.cacheSavings
    ensures ok ==> fold.Valid() && fold.folded == staged && fresh(fold.Lines() - old(fold.Lines()))
    ensures ok ==> multiset(staged) == multiset(Window(store, start, end))
    ensures !ok ==> TotalCost(Entries(Window(store, start, end))) > MAX_SAFE
  {
    staged := [];
    ghost var cursor := start;
    EmptyWindow(store, start, start);
    for n := 0 to |pages|
      invariant Tiles(pages[n..], cursor, end) && start <= cursor <= end
      invariant fold.Valid() && fold.folded == staged && fresh(fold.Lines() - old(fold.Lines()))
      invariant multiset(staged) == multiset(Window(store, start, cursor))
    {
      assert pages[n..][1..] == pages[n + 1..];
      TilesPartition(pages[n..], cursor, end, cursor);
      staged, ok := FoldPage(store, fold, pages[n], staged, start, end);
      if !ok {
        return;
      }
      cursor := pages[n].end;
    }
    ok := true;
  }

  /** The statement of what was folded is the statement of any reordering of it. */
  method Publish(fold: StatementFold, staged: seq<UsageRecord>, ghost month: seq<UsageRecord>)
    returns (r: Option<Closing>)
    requires fold.Valid() && fold.folded == staged && multiset(staged) == multiset(month)
    modifies fold.Lines()
    ensures r.Some? <==> StatementOf(month).Some?
    ensures r.Some? ==> r.value.statement == StatementOf(month).value
    ensures r.Some? ==> r.value.priceVersions == PriceVersionsOf(Entries(month))
    ensures r.Some? ==> r.value.staged == staged && r.value.billedTraceIds == TraceIds(staged)
  {
    StatementOrderIndependent(staged, month);
    var projection := fold.Statement();
    if projection.None? {
      return None;
    }
    var versions := fold.AppliedPriceVersions();
    r := Some(Closing(Seen(projection.value), versions, staged, TraceIds(staged)));
  }

  /** The close's computation over any stored month: what a reader folding the month at once
      computes, or nothing exactly when that reader gets nothing. */
  method CloseMonth(store: seq<UsageRecord>, start: int, end: int) returns (r: Option<Closing>)
    requires start <= end && SafeCosts(store)
    ensures r.Some? <==> StatementOf(Window(store, start, end)).Some?
    ensures r.Some? ==> r.value.statement == StatementOf(Window(store, start, end)).value
    ensures r.Some? ==> r.value.priceVersions == PriceVersionsOf(Entries(Window(store, start, end)))
    ensures r.Some? ==> multiset(r.value.staged) == multiset(Window(store, start, end))
    ensures r.Some? ==> r.value.billedTraceIds == TraceIds(r.value.staged)
  {
    var fold := new StatementFold();
    var pages := UsagePageWindows(start, end);
    var staged, ok := FoldPages(store, fold, pages, start, end);
    if !ok {
      return None;
    }
    r := Publish(fold, staged, Window(store, start, end));
  }
}
