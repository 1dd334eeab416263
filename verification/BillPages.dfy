/**
 * What the bill list says beside the months' own pages: that they agree when every stored trace lies
 * in the window of its calendar month, and what goes wrong exactly otherwise.
 */
module BillPages {
  import opened Wrappers
  import opened Sums
  import opened StatementModel
  import opened StatementSpec
  import opened StatementTheorems
  import opened StoredTraces
  import opened ClosePages
  import opened ClientCalendar
  import opened Periods
  import opened BillList
  import P = Prices

  /** The totals of the stamped costs of some records. */
  function TotalsOf(records: seq<UsageRecord>): Totals {
    Totals(SumBy(Entries(records), EntryCost), |records|, SumBy(Entries(records), EntryTokens))
  }

  /** The records the live statement of a month is built from. */
  function LiveRecords(offset: int -> int, store: Store, n: int): seq<UsageRecord> {
    Window(RecordsOf(store.traces), StartOfClientMonth(offset, n), StartOfClientMonth(offset, n + 1))
  }

  /** What it totals. */
  function LiveTotal(offset: int -> int, store: Store, n: int): Totals {
    TotalsOf(LiveRecords(offset, store, n))
  }

  /** Every stored trace lies in the window of its own calendar month, and every stamp is one. */
  ghost predicate StoreHolds(offset: int -> int, store: Store) {
    && Zone(offset)
    && (forall t :: HasInstant(store, t) ==> Agrees(offset, t))
    && AllStamped(store)
  }

  ghost predicate AllStamped(store: Store) {
    forall trace :: trace in store.traces ==> IsStamped(trace)
  }

  ghost predicate TraceBearing(offset: int -> int, store: Store, n: int) {
    exists t :: HasInstant(store, t) && ClientCalendarOf(offset, t) == n
  }

  /** The months the list is for: past and current trace-bearing ones, and every documented one. */
  ghost predicate Listed(x: Reading, n: int) {
    (TraceBearing(x.offset, x.store, n) && n <= x.nowMonth) || Documented(x.store.periods, n)
  }

  /** An entry says what its month's own page says. */
  ghost predicate EntryHolds(x: Reading, item: Item) {
    && item.status == StatusOf(x, item.month) && item.status != Future
    && (if item.status == Closed then
          item.month in x.store.snapshots && item.total == PageTotals(x.store.snapshots[item.month])
        else item.total == LiveTotal(x.offset, x.store, item.month))
  }

  /** The entry of a month that is not closed shows what its live statement shows, whenever the
      engine accepts the month. */
  lemma EntryIsItsPage(x: Reading, item: Item, page: Statement)
    requires EntryHolds(x, item) && item.status != Closed
    requires StatementOf(LiveRecords(x.offset, x.store, item.month)) == Some(page)
    ensures item.total == PageTotals(page)
  {
    StatementConserves(LiveRecords(x.offset, x.store, item.month));
  }

  // ---------------------------------------------------------------- what the bound guarantees

  /** When the earliest trace fits its window, the scan begins at or before every month that is not
      closed and whose window holds a trace. */
  lemma ScanCoversOpenMonth(
    offset: int -> int, store: Store, earliest: Option<int>, bound: Option<int>, t: int, n: int)
    requires Zone(offset) && IsEarliest(store, earliest) && IsScanBound(offset, store, earliest, bound)
    requires earliest.Some? ==> Fits(offset, earliest.value)
    requires HasInstant(store, t) && InMonthWindow(offset, t, n) && n !in ClosedKeys(store.periods)
    ensures bound.Some? ==> bound.value <= StartOfClientMonth(offset, n) <= t
  {
    if bound.Some? {
      BoundBeforeOpenMonth(offset, store.periods, earliest.value, t, n);
    }
  }

  /** In calendar terms, when every trace agrees with its window. */
  lemma OpenMonthScanned(offset: int -> int, store: Store, earliest: Option<int>, bound: Option<int>, n: int)
    requires StoreHolds(offset, store) && IsEarliest(store, earliest) && IsScanBound(offset, store, earliest, bound)
    requires TraceBearing(offset, store, n) && n !in ClosedKeys(store.periods)
    ensures Scanned(offset, store, bound, n)
    ensures bound.Some? ==> bound.value <= StartOfClientMonth(offset, n)
  {
    var t :| HasInstant(store, t) && ClientCalendarOf(offset, t) == n;
    AgreementFits(offset, earliest.value);
    AgreedMonth(offset, t, n);
    ScanCoversOpenMonth(offset, store, earliest, bound, t, n);
  }

  /** Grouping by calendar month then reads exactly what the month's own window holds. */
  lemma ScannedIsWindow(offset: int -> int, traces: seq<StoredTrace>, bound: Option<int>, n: int)
    requires Zone(offset) && forall trace :: trace in traces ==> Agrees(offset, trace.record.startedAt)
    requires bound.Some? ==> bound.value <= StartOfClientMonth(offset, n)
    ensures RecordsOf(Filter(traces, InScan(offset, bound, n)))
         == Window(RecordsOf(traces), StartOfClientMonth(offset, n), StartOfClientMonth(offset, n + 1))
  {
    var keep, keepRecord :=
      InScan(offset, bound, n), StartedIn(StartOfClientMonth(offset, n), StartOfClientMonth(offset, n + 1));
    forall trace | trace in traces ensures keep(trace) <==> keepRecord(trace.record) {
      AgreedMonth(offset, trace.record.startedAt, n);
    }
    RecordsFiltered(traces, keep, keepRecord);
  }

  /** What the scan sums for such a month is what the month's own page sums. */
  lemma ScannedTotalIsLive(offset: int -> int, store: Store, bound: Option<int>, n: int)
    requires StoreHolds(offset, store)
    requires bound.Some? ==> bound.value <= StartOfClientMonth(offset, n)
    ensures ScannedTotal(offset, store, bound, n) == LiveTotal(offset, store, n)
  {
    forall trace | trace in store.traces ensures Agrees(offset, trace.record.startedAt) {
      assert HasInstant(store, trace.record.startedAt);
    }
    ScannedIsWindow(offset, store.traces, bound, n);
    FilterFacts(store.traces, InScan(offset, bound, n));
    TracesAddUp(Filter(store.traces, InScan(offset, bound, n)));
  }

  /** Its row exists, with its whole month in it. */
  lemma OpenMonthHasRow(
    offset: int -> int, store: Store, earliest: Option<int>, bound: Option<int>, rows: seq<Row>, n: int)
    requires StoreHolds(offset, store) && IsEarliest(store, earliest) && IsScanBound(offset, store, earliest, bound)
    requires AreRows(offset, store, bound, rows) && TraceBearing(offset, store, n) && n !in ClosedKeys(store.periods)
    ensures HasRow(rows, n)
    ensures forall row :: row in rows && row.month == n ==> row.total == LiveTotal(offset, store, n)
  {
    OpenMonthScanned(offset, store, earliest, bound, n);
    assert HasRow(rows, n);
    ScannedTotalIsLive(offset, store, bound, n);
  }

  lemma RowHasTrace(offset: int -> int, store: Store, bound: Option<int>, rows: seq<Row>, row: Row)
    requires AreRows(offset, store, bound, rows) && row in rows
    ensures TraceBearing(offset, store, row.month)
  {
    assert HasRow(rows, row.month);
    assert Scanned(offset, store, bound, row.month);
  }

  lemma EmptyMonthTotal(offset: int -> int, store: Store, n: int)
    requires StoreHolds(offset, store) && !TraceBearing(offset, store, n)
    ensures LiveTotal(offset, store, n) == Totals(0, 0, 0)
  {
    var start, end := StartOfClientMonth(offset, n), StartOfClientMonth(offset, n + 1);
    forall r | r in RecordsOf(store.traces) ensures !StartedIn(start, end)(r) {
      var i :| 0 <= i < |store.traces| && store.traces[i].record == r;
      assert store.traces[i] in store.traces && HasInstant(store, r.startedAt);
      AgreedMonth(offset, r.startedAt, n);
    }
    FilterNone(RecordsOf(store.traces), StartedIn(start, end));
  }

  lemma InstantsFacts(offset: int -> int, store: Store, n: int)
    requires StoreHolds(offset, store)
    ensures HasTraces(offset, Instants(store), n) <==> TraceBearing(offset, store, n)
  {
    forall t ensures t in Instants(store) <==> HasInstant(store, t) {
      InstantsMembers(store, t);
    }
    HasTracesByCalendar(offset, Instants(store), n);
  }

  // ---------------------------------------------------------------- what the list says

  /** The reading is one: rows scanned from the bound on, that bound derived from documents and the
      earliest trace. */
  ghost predicate IsReading(x: Reading, earliest: Option<int>, bound: Option<int>) {
    && IsEarliest(x.store, earliest) && IsScanBound(x.offset, x.store, earliest, bound)
    && AreRows(x.offset, x.store, bound, x.rows) && DocumentsHold(x.store.periods, x.nowMonth)
  }

  /** The months it answers for are the trace-bearing and the documented ones. */
  lemma AskedIsListed(x: Reading, earliest: Option<int>, bound: Option<int>, n: int)
    requires StoreHolds(x.offset, x.store) && IsReading(x, earliest, bound)
    ensures Asked(x, n) <==> Listed(x, n)
  {
    if HasRow(x.rows, n) {
      var row :| row in x.rows && row.month == n;
      RowHasTrace(x.offset, x.store, bound, x.rows, row);
    } else if TraceBearing(x.offset, x.store, n) && n !in ClosedKeys(x.store.periods) {
      OpenMonthHasRow(x.offset, x.store, earliest, bound, x.rows, n);
    }
    if n in ClosedKeys(x.store.periods) {
      assert Documented(x.store.periods, n);
    }
  }

  lemma MadeEntryHolds(x: Reading, earliest: Option<int>, bound: Option<int>, item: Item)
    requires StoreHolds(x.offset, x.store) && IsReading(x, earliest, bound) && EntryMade(x, item)
    ensures EntryHolds(x, item)
  {
    if item.status != Closed {
      StatusByOrdinal(MonthOf(item.month), item.month in ClosedKeys(x.store.periods), MonthOf(x.nowMonth));
      InstantsFacts(x.offset, x.store, item.month);
      if HasRow(x.rows, item.month) {
        var row :| row in x.rows && row.month == item.month && row.total == item.total;
        RowHasTrace(x.offset, x.store, bound, x.rows, row);
        OpenMonthHasRow(x.offset, x.store, earliest, bound, x.rows, item.month);
      } else {
        EmptyMonthTotal(x.offset, x.store, item.month);
      }
    }
  }

  lemma NothingOutsideScan(x: Reading, earliest: Option<int>, bound: Option<int>, error: ListError)
    requires StoreHolds(x.offset, x.store) && IsReading(x, earliest, bound) && HasCause(x, error)
    ensures !error.OutsideScan?
  {
    if error.OutsideScan? {
      InstantsFacts(x.offset, x.store, error.month);
      OpenMonthHasRow(x.offset, x.store, earliest, bound, x.rows, error.month);
      assert false;
    }
  }

  /** The list and the pages agree: entries say what the pages say, for exactly the listed months, and
      no month falls outside the scan. */
  ghost predicate SaysPages(x: Reading, r: Result<seq<Item>, ListError>) {
    match r
    case Err(error) => !error.OutsideScan?
    case Ok(items) =>
      (forall item :: item in items ==> EntryHolds(x, item)) && forall n :: HasItem(items, n) <==> Listed(x, n)
  }

  lemma ListSaysPages(x: Reading, earliest: Option<int>, bound: Option<int>, r: Result<seq<Item>, ListError>)
    requires StoreHolds(x.offset, x.store) && IsReading(x, earliest, bound) && IsList(x, r)
    ensures SaysPages(x, r)
  {
    match r
    case Err(error) => NothingOutsideScan(x, earliest, bound, error);
    case Ok(items) =>
      forall item | item in items ensures EntryHolds(x, item) {
        MadeEntryHolds(x, earliest, bound, item);
      }
      forall n ensures HasItem(items, n) <==> Listed(x, n) {
        AskedIsListed(x, earliest, bound, n);
      }
  }

  // ---------------------------------------------------------------- exactly when

  /** Stamped traces and others, all starting at given instants. */
  ghost predicate Holding(store: Store, instants: set<int>) {
    AllStamped(store) && forall t :: HasInstant(store, t) ==> t in instants
  }

  /** Over all stores holding traces at given instants, list and pages agree. */
  ghost predicate AlwaysSaysPages(offset: int -> int, instants: set<int>) {
    forall x: Reading, earliest, bound, r ::
      x.offset == offset && Holding(x.store, instants) && IsReading(x, earliest, bound) && IsList(x, r)
      ==> SaysPages(x, r)
  }

  /** A trace without a model and without usage, which costs nothing. */
  function FreeTrace(t: int): StoredTrace {
    StoredTrace(UsageRecord("", t, None, None, None, []), 0, map[])
  }

  lemma NoMembers(s: seq<TokenType>)
    requires forall t :: t !in s
    ensures s == []
  {
    if s != [] {
      FirstMember(s);
      assert false;
    }
  }

  lemma FirstMember(s: seq<TokenType>)
    requires s != []
    ensures s[0] in s
  {}

  lemma FreeTraceIsStamped(t: int)
    ensures IsStamped(FreeTrace(t))
  {
    P.UsedFacts(map[], map[]);
    NoMembers(P.UsedTypes(map[]));
    NoMembers(P.FindMissingPriceTokenTypes(map[], map[]));
    assert P.StampTokens(map[], map[], false) == Result.Ok(P.Stamped([], 0));
  }

  /** What the list reads when that trace is alone in the store. */
  function LoneReading(offset: int -> int, t: int, periods: seq<Period>, nowMonth: int): Reading {
    Reading(offset, Store([FreeTrace(t)], [], periods, map[]),
            [Row(ClientCalendarOf(offset, t), Totals(0, 1, 0))], nowMonth)
  }

  lemma LoneReadingFacts(offset: int -> int, t: int, periods: seq<Period>, nowMonth: int)
    requires DocumentsHold(periods, nowMonth) && ClosedKeys(periods) == {}
    ensures var x := LoneReading(offset, t, periods, nowMonth);
            && IsReading(x, Some(t), None) && Holding(x.store, {t})
            && (forall n :: HasRow(x.rows, n) <==> n == ClientCalendarOf(offset, t))
            && (forall n :: HasTraces(offset, Instants(x.store), n) <==> InMonthWindow(offset, t, n))
  {
    var x, c := LoneReading(offset, t, periods, nowMonth), ClientCalendarOf(offset, t);
    FreeTraceIsStamped(t);
    assert FreeTrace(t) in x.store.traces && x.rows[0] in x.rows;
    assert forall u :: HasInstant(x.store, u) <==> u == t;
    assert Instants(x.store) == [t];
    FilterSnoc([], FreeTrace(t), InScan(offset, None, c));
    assert [] + [FreeTrace(t)] == [FreeTrace(t)];
    SumBySnoc([], FreeTrace(t), TraceTotal);
    SumBySnoc([], FreeTrace(t), DocTokens);
    assert Scanned(offset, x.store, None, c);
  }

  /** A trace alone in the store, outside the window of its calendar month: the list shows it in that
      month, whose page does not. */
  lemma LoneTraceMisplaced(offset: int -> int, t: int)
    requires !Agrees(offset, t) && IsBillable(ClientCalendarOf(offset, t))
    ensures var c := ClientCalendarOf(offset, t);
            var x := LoneReading(offset, t, [], c);
            var r := Ok([Item(c, InProgress, Totals(0, 1, 0))]);
            && IsReading(x, Some(t), None) && IsList(x, r)
            && LiveTotal(offset, x.store, c) == Totals(0, 0, 0) && !SaysPages(x, r)
  {
    var c := ClientCalendarOf(offset, t);
    var x := LoneReading(offset, t, [], c);
    var item := Item(c, InProgress, Totals(0, 1, 0));
    LoneReadingFacts(offset, t, [], c);
    StatusByOrdinal(MonthOf(c), false, MonthOf(c));
    assert x.rows[0] in x.rows && RowSays(x.rows, c, item.total);
    assert [item][0] in [item] && forall n :: HasItem([item], n) <==> n == c;
    FilterNone(RecordsOf(x.store.traces), StartedIn(StartOfClientMonth(offset, c), StartOfClientMonth(offset, c + 1)));
    assert !EntryHolds(x, item);
  }

  /** A list with one possible cause of failure fails for it. */
  lemma OneCause(x: Reading, cause: ListError, r: Result<seq<Item>, ListError>)
    requires forall error :: HasCause(x, error) <==> error == cause
    ensures IsList(x, r) <==> r == Err(cause)
  {
    if IsList(x, r) {
      FailsWithCause(x, cause, r);
    }
  }

  lemma ReopenedDocument(w: int, nowMonth: int)
    requires w <= nowMonth
    ensures var periods := [Period(MonthOf(w), false)];
            && DocumentsHold(periods, nowMonth) && ClosedKeys(periods) == {}
            && forall n :: Documented(periods, n) <==> n == w
  {
    var periods := [Period(MonthOf(w), false)];
    assert periods[0] in periods;
  }

  lemma ReopenedCause(x: Reading, c: int, w: int, r: Result<seq<Item>, ListError>)
    requires (forall n :: HasRow(x.rows, n) <==> n == c) && (forall n :: Documented(x.store.periods, n) <==> n == w)
    requires ClosedKeys(x.store.periods) == {} && HasTraces(x.offset, Instants(x.store), w) && c != w
    requires IsBillable(w) && (IsBillable(c) || c > x.nowMonth)
    ensures IsList(x, r) <==> r == Err(OutsideScan(w))
  {
    forall error ensures HasCause(x, error) <==> error == OutsideScan(w) {}
    OneCause(x, OutsideScan(w), r);
  }

  /** The same trace, in the window of a reopened month: that month gets no row, and the list fails. */
  lemma ReopenedMonthFails(offset: int -> int, t: int, w: int, nowMonth: int, r: Result<seq<Item>, ListError>)
    requires InMonthWindow(offset, t, w) && ClientCalendarOf(offset, t) != w <= nowMonth && IsBillable(w)
    requires IsBillable(ClientCalendarOf(offset, t)) || ClientCalendarOf(offset, t) > nowMonth
    ensures var x := LoneReading(offset, t, [Period(MonthOf(w), false)], nowMonth);
            IsReading(x, Some(t), None) && (IsList(x, r) <==> r == Err(OutsideScan(w)))
  {
    ReopenedDocument(w, nowMonth);
    LoneReadingFacts(offset, t, [Period(MonthOf(w), false)], nowMonth);
    ReopenedCause(LoneReading(offset, t, [Period(MonthOf(w), false)], nowMonth), ClientCalendarOf(offset, t), w, r);
  }

  /** Over all stores holding traces at given instants of billable calendar months, the list agrees
      with the pages if and only if every such instant lies in the window of its calendar month. */
  lemma ListAgreesIff(offset: int -> int, instants: set<int>)
    requires Zone(offset) && forall t :: t in instants ==> IsBillable(ClientCalendarOf(offset, t))
    ensures AlwaysSaysPages(offset, instants) <==> forall t :: t in instants ==> Agrees(offset, t)
  {
    if forall t :: t in instants ==> Agrees(offset, t) {
      forall x: Reading, earliest, bound, r
        | x.offset == offset && Holding(x.store, instants) && IsReading(x, earliest, bound) && IsList(x, r)
        ensures SaysPages(x, r)
      {
        ListSaysPages(x, earliest, bound, r);
      }
    } else {
      var t :| t in instants && !Agrees(offset, t);
      MisplacedDisagrees(offset, instants, t);
    }
  }

  lemma MisplacedDisagrees(offset: int -> int, instants: set<int>, t: int)
    requires t in instants && !Agrees(offset, t) && IsBillable(ClientCalendarOf(offset, t))
    ensures !AlwaysSaysPages(offset, instants)
  {
    var c := ClientCalendarOf(offset, t);
    var x, r := LoneReading(offset, t, [], c), Ok([Item(c, InProgress, Totals(0, 1, 0))]);
    LoneTraceMisplaced(offset, t);
    LoneReadingFacts(offset, t, [], c);
    assert Holding(x.store, instants) && IsReading(x, Some(t), None) && IsList(x, r) && !SaysPages(x, r);
  }

  /** A month outside the calendar fails the whole list: west of Greenwich, a trace at the epoch. */
  lemma EpochTraceFails(hours: int, nowMonth: int, r: Result<seq<Item>, ListError>)
    requires 1 <= hours <= 12 && nowMonth >= EPOCH_MONTH
    ensures var x := LoneReading(Fixed(-hours * HOUR_MS), 0, [], nowMonth);
            IsReading(x, Some(0), None) && (IsList(x, r) <==> r == Err(OutsideCalendar(EPOCH_MONTH - 1)))
  {
    var offset := Fixed(-hours * HOUR_MS);
    var x := LoneReading(offset, 0, [], nowMonth);
    NextStart(EPOCH_MONTH - 1);
    UtcMonthUnique(-hours * HOUR_MS, EPOCH_MONTH - 1);
    LoneReadingFacts(offset, 0, [], nowMonth);
    EarlyRowCause(x, EPOCH_MONTH - 1, r);
  }

  lemma EarlyRowCause(x: Reading, c: int, r: Result<seq<Item>, ListError>)
    requires (forall n :: HasRow(x.rows, n) <==> n == c) && x.store.periods == []
    requires !IsBillable(c) && c <= x.nowMonth
    ensures IsList(x, r) <==> r == Err(OutsideCalendar(c))
  {
    forall error ensures HasCause(x, error) <==> error == OutsideCalendar(c) {}
    OneCause(x, OutsideCalendar(c), r);
  }
}
