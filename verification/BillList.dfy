/** list-bills-db-use-case.ts: which months have a bill, and what each entry says. */
module BillList {
  import opened Wrappers
  import opened Sums
  import opened Sorting
  import opened StatementModel
  import opened StatementSpec
  import opened StoredTraces
  import opened ClosePages
  import opened ClientCalendar
  import opened Periods

  /** What an entry shows of a bill: its cost, its stamped traces and its stamped tokens. */
  datatype Totals = Totals(cost: int, traces: nat, tokens: int)

  /** What a statement's page shows of the same. */
  function PageTotals(s: Statement): Totals {
    Totals(s.totalCost, s.stampedTraceCount, s.stampedTokensTotal)
  }

  /** What the store holds: stamped traces, the start dates of the unstamped ones, the lifecycle
      documents and the statements of the current snapshots. */
  datatype Store = Store(
    traces: seq<StoredTrace>, unstamped: seq<int>, periods: seq<Period>, snapshots: map<int, Statement>)

  ghost predicate HasInstant(store: Store, t: int) {
    t in store.unstamped || exists trace :: trace in store.traces && trace.record.startedAt == t
  }

  ghost predicate IsEarliest(store: Store, earliest: Option<int>) {
    if earliest.None? then forall t :: !HasInstant(store, t)
    else HasInstant(store, earliest.value) && forall t :: HasInstant(store, t) ==> earliest.value <= t
  }

  /** One document per month, and only for months that have begun: a close refuses any month that
      has not ended. */
  ghost predicate DocumentsHold(periods: seq<Period>, nowMonth: int) {
    && (forall p :: p in periods ==> Proper(p.ym) && Ordinal(p.ym) <= nowMonth)
    && (forall i, j :: 0 <= i < j < |periods| ==> Ordinal(periods[i].ym) != Ordinal(periods[j].ym))
  }

  datatype Row = Row(month: int, total: Totals)

  ghost predicate HasRow(rows: seq<Row>, n: int) {
    exists row :: row in rows && row.month == n
  }

  /** The scan sees a trace of the month. */
  ghost predicate Scanned(offset: int -> int, store: Store, bound: Option<int>, n: int) {
    exists t :: HasInstant(store, t) && (bound.None? || bound.value <= t) && ClientCalendarOf(offset, t) == n
  }

  /** The scan reads from the bound on and groups by calendar month. */
  function InScan(offset: int -> int, bound: Option<int>, n: int): StoredTrace -> bool {
    (trace: StoredTrace) =>
      (bound.None? || bound.value <= trace.record.startedAt) && ClientCalendarOf(offset, trace.record.startedAt) == n
  }

  /** What the scan sums for a month: the traces' own totals and their own token counts. */
  function ScannedTotal(offset: int -> int, store: Store, bound: Option<int>, n: int): Totals {
    var scanned := Filter(store.traces, InScan(offset, bound, n));
    Totals(SumBy(scanned, TraceTotal), |scanned|, SumBy(scanned, DocTokens))
  }

  ghost predicate DistinctRows(rows: seq<Row>) {
    forall i, j :: 0 <= i < j < |rows| ==> rows[i].month != rows[j].month
  }

  ghost predicate RowsCover(offset: int -> int, store: Store, bound: Option<int>, rows: seq<Row>) {
    forall n :: HasRow(rows, n) <==> Scanned(offset, store, bound, n)
  }

  ghost predicate RowsTotal(offset: int -> int, store: Store, bound: Option<int>, rows: seq<Row>) {
    forall row :: row in rows ==> row.total == ScannedTotal(offset, store, bound, row.month)
  }

  /** The `listBills` read: one row per month with a trace at or after the bound, totalling the
      stamped traces it scanned. */
  ghost predicate AreRows(offset: int -> int, store: Store, bound: Option<int>, rows: seq<Row>) {
    DistinctRows(rows) && RowsCover(offset, store, bound, rows) && RowsTotal(offset, store, bound, rows)
  }

  /** The bound the list derives from the documents and the earliest trace. */
  ghost predicate IsScanBound(offset: int -> int, store: Store, earliest: Option<int>, bound: Option<int>) {
    if bound.None? then ClosedKeys(store.periods) == {}
    else |Ordinals(store.periods, true)| > 0
         && bound.value == StartOfClientMonth(offset, BoundMonth(store.periods, CalendarOfEarliest(offset, earliest)))
  }

  datatype Item = Item(month: int, status: Status, total: Totals)
  datatype ListError = MissingSnapshot(month: int) | OutsideScan(month: int) | OutsideCalendar(month: int)

  /** What `list()` works on: the zone, the store, the rows it read and the current month. */
  datatype Reading = Reading(offset: int -> int, store: Store, rows: seq<Row>, nowMonth: int)

  function StatusOf(x: Reading, n: int): Status {
    ResolvePeriodStatus(MonthOf(n), n in ClosedKeys(x.store.periods), MonthOf(x.nowMonth))
  }

  /** A row as read, not the page: its total is whatever the scan summed. */
  ghost predicate RowSays(rows: seq<Row>, n: int, total: Totals) {
    exists row :: row in rows && row.month == n && row.total == total
  }

  /** An entry as the list makes it: a closed month's from its snapshot, a month's with a row from
      its row, and a documented month's without one empty, its window holding nothing. */
  ghost predicate EntryMade(x: Reading, item: Item) {
    && IsBillable(item.month) && item.status == StatusOf(x, item.month) && item.status != Future
    && (if item.status == Closed then
          item.month in x.store.snapshots && item.total == PageTotals(x.store.snapshots[item.month])
        else if HasRow(x.rows, item.month) then RowSays(x.rows, item.month, item.total)
        else item.total == Totals(0, 0, 0) && !HasTraces(x.offset, Instants(x.store), item.month))
  }

  /** The months the list answers for: the rows' that are not in the future, and the documented. */
  ghost predicate Asked(x: Reading, n: int) {
    (HasRow(x.rows, n) && (n <= x.nowMonth || n in ClosedKeys(x.store.periods))) || Documented(x.store.periods, n)
  }

  /** Why a list fails. */
  ghost predicate HasCause(x: Reading, error: ListError) {
    && Asked(x, error.month)
    && match error
       case OutsideCalendar(n) => !IsBillable(n)
       case MissingSnapshot(n) => IsBillable(n) && n in ClosedKeys(x.store.periods) && n !in x.store.snapshots
       case OutsideScan(n) =>
         && IsBillable(n) && n !in ClosedKeys(x.store.periods) && !HasRow(x.rows, n)
         && HasTraces(x.offset, Instants(x.store), n)
  }

  ghost predicate Documented(periods: seq<Period>, n: int) {
    exists p :: p in periods && Ordinal(p.ym) == n
  }

  function Instants(store: Store): seq<int> {
    store.unstamped + seq(|store.traces|, i requires 0 <= i < |store.traces| => store.traces[i].record.startedAt)
  }

  lemma InstantsMembers(store: Store, t: int)
    ensures t in Instants(store) <==> HasInstant(store, t)
  {
    if trace :| trace in store.traces && trace.record.startedAt == t {
      var i :| 0 <= i < |store.traces| && store.traces[i] == trace;
      assert Instants(store)[|store.unstamped| + i] == t;
    }
  }

  // ---------------------------------------------------------------- list()

  predicate LaterMonth(a: Item, b: Item) {
    a.month > b.month
  }

  ghost predicate HasItem(items: seq<Item>, n: int) {
    exists item :: item in items && item.month == n
  }

  ghost predicate MonthsOf(items: seq<Item>, months: set<int>) {
    && (forall item :: item in items ==> item.month in months)
    && (forall n :: n in months ==> HasItem(items, n))
    && (forall i, j :: 0 <= i < j < |items| ==> items[i].month != items[j].month)
  }

  lemma MonthsSnoc(items: seq<Item>, months: set<int>, item: Item)
    requires MonthsOf(items, months) && item.month !in months
    ensures MonthsOf(items + [item], months + {item.month})
  {
    var longer := items + [item];
    forall n | n in months + {item.month} ensures HasItem(longer, n) {
      if n == item.month {
        assert item in longer;
      } else {
        assert HasItem(items, n);
        var x :| x in items && x.month == n;
        assert x in longer;
      }
    }
    assert forall i :: 0 <= i < |items| ==> items[i] in items;
  }

  /** `closedItem`. */
  function ClosedItem(store: Store, n: int): Result<Item, ListError> {
    if !IsBillable(n) then Err(OutsideCalendar(n))
    else if n in store.snapshots then Ok(Item(n, Closed, PageTotals(store.snapshots[n]))) else Err(MissingSnapshot(n))
  }

  /** `closedMonthWindows`: a closed month outside the calendar, if there is one. */
  method ClosedWindows(periods: seq<Period>) returns (invalid: Option<int>)
    ensures invalid.None? <==> forall n :: n in ClosedKeys(periods) ==> IsBillable(n)
    ensures invalid.Some? ==> invalid.value in ClosedKeys(periods) && !IsBillable(invalid.value)
  {
    for i := 0 to |periods|
      invariant forall n :: n in ClosedKeys(periods[..i]) ==> IsBillable(n)
    {
      var n := Ordinal(periods[i].ym);
      if periods[i].closed && !IsBillable(n) {
        assert n in ClosedKeys(periods);
        return Some(n);
      }
      assert periods[..i + 1] == periods[..i] + [periods[i]];
    }
    assert periods[..|periods|] == periods;
    return None;
  }

  /** An entry for a row, unless the row is dated in the future. */
  method RowItem(x: Reading, row: Row) returns (r: Result<Option<Item>, ListError>)
    requires row in x.rows
    ensures r.Err? ==> HasCause(x, r.error)
    ensures r.Ok? && r.value.None? ==> row.month > x.nowMonth && row.month !in ClosedKeys(x.store.periods)
    ensures r.Ok? && r.value.Some? ==> r.value.value.month == row.month && EntryMade(x, r.value.value)
  {
    var closed := row.month in ClosedKeys(x.store.periods);
    var status := ResolvePeriodStatus(MonthOf(row.month), closed, MonthOf(x.nowMonth));
    StatusByOrdinal(MonthOf(row.month), closed, MonthOf(x.nowMonth));
    if status == Future {
      return Ok(None);
    }
    assert HasRow(x.rows, row.month) && RowSays(x.rows, row.month, row.total);
    if status == Closed {
      var item := ClosedItem(x.store, row.month);
      return if item.Err? then Err(item.error) else Ok(Some(item.value));
    }
    if !IsBillable(row.month) {
      return Err(OutsideCalendar(row.month));
    }
    return Ok(Some(Item(row.month, status, row.total)));
  }

  /** An entry for a document no row answered for. */
  method LeftoverItem(x: Reading, p: Period) returns (r: Result<Item, ListError>)
    requires DocumentsHold(x.store.periods, x.nowMonth) && p in x.store.periods && !HasRow(x.rows, Ordinal(p.ym))
    ensures r.Err? ==> HasCause(x, r.error) && r.error.month == Ordinal(p.ym)
    ensures r.Ok? ==> r.value.month == Ordinal(p.ym) && EntryMade(x, r.value)
  {
    var n := Ordinal(p.ym);
    ClosedIsDocument(x.store.periods, x.nowMonth, p);
    assert Documented(x.store.periods, n);
    StatusByOrdinal(MonthOf(n), p.closed, MonthOf(x.nowMonth));
    if p.closed {
      r := ClosedItem(x.store, n);
      return;
    }
    if !IsBillable(n) {
      return Err(OutsideCalendar(n));
    }
    var held := ProbeTraces(x.offset, Instants(x.store), n);
    if held {
      return Err(OutsideScan(n));
    }
    return Ok(Item(n, ResolvePeriodStatus(MonthOf(n), false, MonthOf(x.nowMonth)), Totals(0, 0, 0)));
  }

  lemma ClosedIsDocument(periods: seq<Period>, nowMonth: int, p: Period)
    requires DocumentsHold(periods, nowMonth) && p in periods
    ensures Ordinal(p.ym) in ClosedKeys(periods) <==> p.closed
  {
    if !p.closed {
      forall q | q in periods && q.closed ensures Ordinal(q.ym) != Ordinal(p.ym) {
        var i :| 0 <= i < |periods| && periods[i] == p;
        var j :| 0 <= j < |periods| && periods[j] == q;
        assert i != j;
      }
    }
  }

  /** Every entry made so far is as the list makes them, and no month has two. */
  ghost predicate EntriesMade(x: Reading, items: seq<Item>, months: set<int>) {
    MonthsOf(items, months) && forall item :: item in items ==> EntryMade(x, item)
  }

  lemma EntriesSnoc(x: Reading, items: seq<Item>, months: set<int>, item: Item)
    requires EntriesMade(x, items, months) && item.month !in months && EntryMade(x, item)
    ensures EntriesMade(x, items + [item], months + {item.month})
  {
    MonthsSnoc(items, months, item);
  }

  /** A row is answered for, or dated in the future. */
  ghost predicate Answered(x: Reading, months: set<int>, n: int) {
    n in months || (n > x.nowMonth && n !in ClosedKeys(x.store.periods))
  }

  /** The months of the first `i` rows. */
  ghost function MonthsSeen(rows: seq<Row>, i: nat): set<int>
    requires i <= |rows|
  {
    if i == 0 then {} else MonthsSeen(rows, i - 1) + {rows[i - 1].month}
  }

  lemma {:induction false} SeenEarlier(rows: seq<Row>, i: nat, n: int)
    requires i <= |rows|
    ensures n in MonthsSeen(rows, i) <==> exists k :: 0 <= k < i && rows[k].month == n
  {
    if i > 0 {
      SeenEarlier(rows, i - 1, n);
    }
  }

  lemma {:induction false} RowIsNew(rows: seq<Row>, i: nat)
    requires DistinctRows(rows) && i < |rows|
    ensures rows[i].month !in MonthsSeen(rows, i)
  {
    SeenEarlier(rows, i, rows[i].month);
  }

  lemma AllMonthsSeen(rows: seq<Row>)
    ensures forall n :: n in MonthsSeen(rows, |rows|) <==> HasRow(rows, n)
    ensures forall row :: row in rows ==> row.month in MonthsSeen(rows, |rows|)
  {
    forall n ensures n in MonthsSeen(rows, |rows|) <==> HasRow(rows, n) {
      SeenEarlier(rows, |rows|, n);
      if k :| 0 <= k < |rows| && rows[k].month == n {
        assert rows[k] in rows;
      }
    }
    assert forall row :: row in rows ==> HasRow(rows, row.month);
  }

  /** The first `i` rows are answered for by `items`. */
  ghost predicate RowsDone(x: Reading, i: nat, items: seq<Item>, months: set<int>)
    requires i <= |x.rows|
  {
    && EntriesMade(x, items, months)
    && months <= MonthsSeen(x.rows, i)
    && forall n :: n in MonthsSeen(x.rows, i) ==> Answered(x, months, n)
  }

  /** One row into the entries. */
  method AddRow(x: Reading, i: nat, items: seq<Item>, ghost months: set<int>)
    returns (r: Result<seq<Item>, ListError>, ghost months': set<int>)
    requires DistinctRows(x.rows) && i < |x.rows| && RowsDone(x, i, items, months)
    ensures r.Err? ==> HasCause(x, r.error)
    ensures r.Ok? ==> RowsDone(x, i + 1, r.value, months')
  {
    RowIsNew(x.rows, i);
    var item := RowItem(x, x.rows[i]);
    if item.Err? {
      return Err(item.error), months;
    }
    if item.value.None? {
      return Ok(items), months;
    }
    EntriesSnoc(x, items, months, item.value.value);
    return Ok(items + [item.value.value]), months + {x.rows[i].month};
  }

  method RowItems(x: Reading) returns (r: Result<seq<Item>, ListError>, ghost months: set<int>)
    requires DistinctRows(x.rows)
    ensures r.Err? ==> HasCause(x, r.error)
    ensures r.Ok? ==> RowsDone(x, |x.rows|, r.value, months)
  {
    var items: seq<Item> := [];
    months := {};
    for i := 0 to |x.rows|
      invariant RowsDone(x, i, items, months)
    {
      var longer;
      longer, months := AddRow(x, i, items, months);
      if longer.Err? {
        return Err(longer.error), months;
      }
      items := longer.value;
    }
    return Ok(items), months;
  }

  /** The first `i` documents are answered for too. */
  ghost predicate LeftoversDone(x: Reading, months: set<int>, i: nat, items: seq<Item>, all: set<int>)
    requires i <= |x.store.periods|
  {
    && EntriesMade(x, items, all)
    && forall n :: n in all <==> n in months || Documented(x.store.periods[..i], n)
  }

  lemma LeftoverAdded(x: Reading, months: set<int>, i: nat, items: seq<Item>, all: set<int>, item: Item)
    requires i < |x.store.periods| && DocumentsHold(x.store.periods, x.nowMonth)
    requires LeftoversDone(x, months, i, items, all)
    requires item.month == Ordinal(x.store.periods[i].ym) && item.month !in months && EntryMade(x, item)
    ensures LeftoversDone(x, months, i + 1, items + [item], all + {item.month})
  {
    MonthAdded(x.store.periods, x.nowMonth, months, i, all);
    EntriesSnoc(x, items, all, item);
  }

  lemma MonthAdded(periods: seq<Period>, nowMonth: int, months: set<int>, i: nat, all: set<int>)
    requires i < |periods| && DocumentsHold(periods, nowMonth) && Ordinal(periods[i].ym) !in months
    requires forall n :: n in all <==> n in months || Documented(periods[..i], n)
    ensures Ordinal(periods[i].ym) !in all
    ensures forall n :: n in all + {Ordinal(periods[i].ym)} <==> n in months || Documented(periods[..i + 1], n)
  {
    DocumentedOnce(periods, nowMonth, i);
    DocumentedSnoc(periods, i);
  }

  lemma LeftoverKnown(x: Reading, months: set<int>, i: nat, items: seq<Item>, all: set<int>)
    requires i < |x.store.periods| && Ordinal(x.store.periods[i].ym) in months
    requires LeftoversDone(x, months, i, items, all)
    ensures LeftoversDone(x, months, i + 1, items, all)
  {
    DocumentedSnoc(x.store.periods, i);
  }

  method Leftovers(x: Reading, answered: seq<Item>, ghost months: set<int>)
    returns (r: Result<seq<Item>, ListError>, ghost all: set<int>)
    requires DocumentsHold(x.store.periods, x.nowMonth) && RowsDone(x, |x.rows|, answered, months)
    ensures r.Err? ==> HasCause(x, r.error)
    ensures r.Ok? ==> LeftoversDone(x, months, |x.store.periods|, r.value, all)
  {
    var items := answered;
    all := months;
    for i := 0 to |x.store.periods|
      invariant LeftoversDone(x, months, i, items, all)
    {
      var p := x.store.periods[i];
      if forall item :: item in answered ==> item.month != Ordinal(p.ym) {
        NotAnswered(x, answered, months, p);
        var item := LeftoverItem(x, p);
        if item.Err? {
          return Err(item.error), all;
        }
        LeftoverAdded(x, months, i, items, all, item.value);
        items, all := items + [item.value], all + {Ordinal(p.ym)};
      } else {
        LeftoverKnown(x, months, i, items, all);
      }
    }
    return Ok(items), all;
  }

  lemma DocumentedSnoc(periods: seq<Period>, i: nat)
    requires i < |periods|
    ensures forall n :: Documented(periods[..i + 1], n) <==> Documented(periods[..i], n) || n == Ordinal(periods[i].ym)
  {
    assert periods[..i + 1] == periods[..i] + [periods[i]];
    forall n ensures Documented(periods[..i + 1], n) <==> Documented(periods[..i], n) || n == Ordinal(periods[i].ym) {
      if Documented(periods[..i], n) {
        var p :| p in periods[..i] && Ordinal(p.ym) == n;
        assert p in periods[..i + 1];
      }
      assert periods[i] in periods[..i + 1];
    }
  }

  lemma DocumentedOnce(periods: seq<Period>, nowMonth: int, i: nat)
    requires DocumentsHold(periods, nowMonth) && i < |periods|
    ensures !Documented(periods[..i], Ordinal(periods[i].ym))
  {
    forall p | p in periods[..i] ensures Ordinal(p.ym) != Ordinal(periods[i].ym) {
      var j :| 0 <= j < i && periods[j] == p;
    }
  }

  /** A document no entry answers for has no row: its month is not in the future. */
  lemma NotAnswered(x: Reading, answered: seq<Item>, months: set<int>, p: Period)
    requires DocumentsHold(x.store.periods, x.nowMonth) && p in x.store.periods
    requires RowsDone(x, |x.rows|, answered, months)
    requires forall item :: item in answered ==> item.month != Ordinal(p.ym)
    ensures Ordinal(p.ym) !in months && !HasRow(x.rows, Ordinal(p.ym))
  {
    AllMonthsSeen(x.rows);
  }

  /** What the list may return: no month twice, strictly newest first, an entry for exactly the months
      asked for, each made from snapshot, row or nothing; or an error that has its cause. */
  ghost predicate IsList(x: Reading, r: Result<seq<Item>, ListError>) {
    match r
    case Err(error) => HasCause(x, error)
    case Ok(items) =>
      && (forall i, j :: 0 <= i < j < |items| ==> items[i].month > items[j].month)
      && (forall item :: item in items ==> EntryMade(x, item))
      && (forall n :: HasItem(items, n) <==> Asked(x, n))
  }

  lemma MadeHasNoCause(x: Reading, item: Item, error: ListError)
    requires EntryMade(x, item) && error.month == item.month
    ensures !HasCause(x, error)
  {
    StatusByOrdinal(MonthOf(item.month), item.month in ClosedKeys(x.store.periods), MonthOf(x.nowMonth));
  }

  /** A list fails exactly when there is a cause. */
  lemma FailsWithCause(x: Reading, error: ListError, r: Result<seq<Item>, ListError>)
    requires IsList(x, r) && HasCause(x, error)
    ensures r.Err?
  {
    if r.Ok? {
      assert HasItem(r.value, error.month);
      var item :| item in r.value && item.month == error.month;
      MadeHasNoCause(x, item, error);
      assert false;
    }
  }

  /** The list, whatever the rows say. */
  method List(x: Reading) returns (r: Result<seq<Item>, ListError>)
    requires DistinctRows(x.rows) && DocumentsHold(x.store.periods, x.nowMonth)
    ensures IsList(x, r)
    ensures (exists n :: n in ClosedKeys(x.store.periods) && !IsBillable(n)) ==> r.Err? && r.error.OutsideCalendar?
  {
    var invalid := ClosedWindows(x.store.periods);
    if invalid.Some? {
      assert Documented(x.store.periods, invalid.value);
      return Err(OutsideCalendar(invalid.value));
    }
    var answered, months := RowItems(x);
    if answered.Err? {
      return Err(answered.error);
    }
    var items, all := Leftovers(x, answered.value, months);
    if items.Err? {
      return Err(items.error);
    }
    AskedMonths(x, answered.value, months, all);
    NewestFirst(items.value, all);
    return Ok(Sort(items.value, LaterMonth));
  }

  lemma AskedMonths(x: Reading, answered: seq<Item>, months: set<int>, all: set<int>)
    requires RowsDone(x, |x.rows|, answered, months)
    requires forall n :: n in all <==> n in months || Documented(x.store.periods[..|x.store.periods|], n)
    ensures forall n :: n in all <==> Asked(x, n)
  {
    assert x.store.periods[..|x.store.periods|] == x.store.periods;
    AllMonthsSeen(x.rows);
    forall n | n in months ensures n <= x.nowMonth || n in ClosedKeys(x.store.periods) {
      assert HasItem(answered, n);
      var item :| item in answered && item.month == n;
      assert EntryMade(x, item);
      StatusByOrdinal(MonthOf(n), n in ClosedKeys(x.store.periods), MonthOf(x.nowMonth));
    }
  }

  lemma NewestFirst(items: seq<Item>, months: set<int>)
    requires MonthsOf(items, months)
    ensures var sorted := Sort(items, LaterMonth);
            && (forall i, j :: 0 <= i < j < |sorted| ==> sorted[i].month > sorted[j].month)
            && (forall item :: item in sorted <==> item in items)
            && (forall n :: HasItem(sorted, n) <==> n in months)
  {
    var sorted := Sort(items, LaterMonth);
    forall x, y | x in Elements(items) && y in Elements(items) && x != y ensures LaterMonth(x, y) || LaterMonth(y, x) {
      var i :| 0 <= i < |items| && items[i] == x;
      var j :| 0 <= j < |items| && items[j] == y;
      assert i < j || j < i;
    }
    SortSorts(items, LaterMonth);
    SortElements(items, LaterMonth);
    forall i, j | 0 <= i < j < |sorted| ensures sorted[i].month > sorted[j].month {
      assert LaterMonth(sorted[i], sorted[j]);
    }
    forall item ensures item in sorted <==> item in items {
      assert item in Elements(sorted) <==> item in Elements(items);
    }
  }
}
