/** billing-period-model.ts and the close-order guard: who is closed, where live scans start, in
    which order months close. Months are ordinals. */
module Periods {
  import opened Wrappers
  import opened ClientCalendar

  datatype YearMonth = YearMonth(year: int, month: int)

  predicate Proper(ym: YearMonth) {
    1 <= ym.month <= 12
  }

  function Ordinal(ym: YearMonth): int {
    ym.year * 12 + (ym.month - 1)
  }

  function MonthOf(n: int): (ym: YearMonth)
    ensures Proper(ym) && Ordinal(ym) == n
  {
    YearMonth(n / 12, n % 12 + 1)
  }

  /** `month += 1`, into January of the next year after December. */
  function NextMonth(ym: YearMonth): (next: YearMonth)
    requires Proper(ym)
    ensures Proper(next) && Ordinal(next) == Ordinal(ym) + 1
  {
    if ym.month + 1 == 13 then YearMonth(ym.year + 1, 1) else YearMonth(ym.year, ym.month + 1)
  }

  /** A lifecycle document: it exists once a close or a reopen has touched the month. */
  datatype Period = Period(ym: YearMonth, closed: bool)

  function ClosedKeys(periods: seq<Period>): set<int> {
    set p | p in periods && p.closed :: Ordinal(p.ym)
  }

  function OpenKeys(periods: seq<Period>): set<int> {
    set p | p in periods && !p.closed :: Ordinal(p.ym)
  }

  /** `monthWindow` refuses years outside 1970 to 9999. */
  predicate IsBillable(n: int) {
    1970 * 12 <= n < 10_000 * 12
  }

  /** A month is billable exactly when its year is one of 1970 to 9999. */
  lemma BillableYears(ym: YearMonth)
    requires Proper(ym)
    ensures IsBillable(Ordinal(ym)) <==> 1970 <= ym.year <= 9999
  {}

  // ---------------------------------------------------------------- period status

  datatype Status = Closed | InProgress | Open | Future

  function ResolvePeriodStatus(ym: YearMonth, closed: bool, now: YearMonth): Status {
    if closed then Closed
    else if ym.year == now.year && ym.month == now.month then InProgress
    else if ym.year > now.year || (ym.year == now.year && ym.month > now.month) then Future
    else Open
  }

  /** The status is the month's place on the calendar unless it is closed. */
  lemma StatusByOrdinal(ym: YearMonth, closed: bool, now: YearMonth)
    requires Proper(ym) && Proper(now)
    ensures ResolvePeriodStatus(ym, closed, now) ==
            if closed then Closed
            else if Ordinal(ym) == Ordinal(now) then InProgress
            else if Ordinal(ym) > Ordinal(now) then Future else Open
  {}

  // ---------------------------------------------------------------- the live-scan bound

  ghost function ClosedFrom(closed: set<int>, n: int): set<int> {
    set k | k in closed && k >= n
  }

  lemma ClosedFromShrinks(closed: set<int>, n: int)
    requires n in closed
    ensures |ClosedFrom(closed, n + 1)| < |ClosedFrom(closed, n)|
  {
    assert ClosedFrom(closed, n) == ClosedFrom(closed, n + 1) + {n};
  }

  /** The first month from `n` on that is not closed; there is one, the closed set being finite. */
  function FirstOpenFrom(closed: set<int>, n: int): (m: int)
    ensures m >= n && m !in closed && forall k :: n <= k < m ==> k in closed
    decreases |ClosedFrom(closed, n)|
  {
    if n !in closed then n
    else
      ClosedFromShrinks(closed, n);
      FirstOpenFrom(closed, n + 1)
  }

  function Least(s: seq<int>, start: int): (m: int)
    ensures m <= start && (m == start || m in s) && forall x :: x in s ==> m <= x
  {
    if |s| == 0 then start
    else
      var front := Least(s[..|s| - 1], start);
      assert s == s[..|s| - 1] + [s[|s| - 1]];
      if s[|s| - 1] < front then s[|s| - 1] else front
  }

  function Ordinals(periods: seq<Period>, closed: bool): (r: seq<int>)
    ensures forall n :: n in r <==> n in (if closed then ClosedKeys(periods) else OpenKeys(periods))
  {
    if |periods| == 0 then []
    else
      var front, last := Ordinals(periods[..|periods| - 1], closed), periods[|periods| - 1];
      assert periods == periods[..|periods| - 1] + [last];
      if last.closed == closed then front + [Ordinal(last.ym)] else front
  }

  /** The earlier of the earliest closed month and the month of the earliest stored trace. */
  function Anchor(closed: seq<int>, earliest: Option<int>): int
    requires |closed| > 0
  {
    var earliestClosed := Least(closed, closed[0]);
    if earliest.Some? && earliest.value < earliestClosed then earliest.value else earliestClosed
  }

  /** The month at whose start live scans begin. */
  function BoundMonth(periods: seq<Period>, earliest: Option<int>): int
    requires |Ordinals(periods, true)| > 0
  {
    Least(Ordinals(periods, false), FirstOpenFrom(ClosedKeys(periods), Anchor(Ordinals(periods, true), earliest)))
  }

  function CalendarOfEarliest(offset: int -> int, earliestTraceAt: Option<int>): Option<int> {
    if earliestTraceAt.Some? then Some(ClientCalendarOf(offset, earliestTraceAt.value)) else None
  }

  /** The walk over closed months, from the anchor on. */
  method WalkToOpen(closedKeys: set<int>, anchor: YearMonth) returns (ym: YearMonth)
    requires Proper(anchor)
    ensures Proper(ym) && Ordinal(ym) == FirstOpenFrom(closedKeys, Ordinal(anchor))
  {
    ym := anchor;
    while Ordinal(ym) in closedKeys
      invariant Proper(ym) && FirstOpenFrom(closedKeys, Ordinal(anchor)) == FirstOpenFrom(closedKeys, Ordinal(ym))
      decreases |ClosedFrom(closedKeys, Ordinal(ym))|
    {
      ClosedFromShrinks(closedKeys, Ordinal(ym));
      ym := NextMonth(ym);
    }
  }

  method FirstOpenMonthStart(offset: int -> int, periods: seq<Period>, earliestTraceAt: Option<int>)
    returns (bound: Option<int>)
    requires Zone(offset) && forall p :: p in periods ==> Proper(p.ym)
    ensures bound.None? <==> ClosedKeys(periods) == {}
    ensures bound.Some? ==>
              && |Ordinals(periods, true)| > 0
              && bound.value ==
                   StartOfClientMonth(offset, BoundMonth(periods, CalendarOfEarliest(offset, earliestTraceAt)))
  {
    var closed := Ordinals(periods, true);
    if |closed| == 0 {
      assert forall n :: n in ClosedKeys(periods) ==> n in closed;
      return None;
    }
    assert closed[0] in closed;
    var ym := WalkToOpen(ClosedKeys(periods), MonthOf(Anchor(closed, CalendarOfEarliest(offset, earliestTraceAt))));
    var least := LeastStart(offset, Ordinals(periods, false), Ordinal(ym));
    bound := Some(least);
  }

  /** `Math.min` over month starts is the start of the least month. */
  method LeastStart(offset: int -> int, months: seq<int>, start: int) returns (least: int)
    requires Zone(offset)
    ensures least == StartOfClientMonth(offset, Least(months, start))
  {
    least := StartOfClientMonth(offset, start);
    for i := 0 to |months|
      invariant least == StartOfClientMonth(offset, Least(months[..i], start))
    {
      assert months[..i + 1][..i] == months[..i];
      WindowsTile(offset, months[i], Least(months[..i], start), 0);
      var candidate := StartOfClientMonth(offset, months[i]);
      if candidate < least {
        least := candidate;
      }
    }
    assert months[..|months|] == months;
  }

  /** The calendar month of `e` is no later than the month in whose window it lies. */
  ghost predicate Fits(offset: int -> int, e: int) {
    forall w :: InMonthWindow(offset, e, w) ==> ClientCalendarOf(offset, e) <= w
  }

  /** The bound, when the earliest trace is at `e`. */
  function BoundFor(offset: int -> int, periods: seq<Period>, e: int): int
    requires |Ordinals(periods, true)| > 0
  {
    StartOfClientMonth(offset, BoundMonth(periods, Some(ClientCalendarOf(offset, e))))
  }

  /** One document per month. */
  ghost predicate IsHistory(periods: seq<Period>) {
    && (forall p :: p in periods ==> Proper(p.ym))
    && (forall i, j :: 0 <= i < j < |periods| ==> Ordinal(periods[i].ym) != Ordinal(periods[j].ym))
  }

  /** Whatever the lifecycle history, every trace from `e` on in the window of a month that is not
      closed lies at or after the bound. */
  ghost predicate HidesNothing(offset: int -> int, e: int) {
    forall periods, t, n ::
      IsHistory(periods) && |Ordinals(periods, true)| > 0 && t >= e && InMonthWindow(offset, t, n)
        && n !in ClosedKeys(periods)
      ==> BoundFor(offset, periods, e) <= t
  }

  /** When the earliest trace fits, the bound is at or before the start of every month that is not
      closed and holds a trace. */
  lemma BoundBeforeOpenMonth(offset: int -> int, periods: seq<Period>, e: int, t: int, n: int)
    requires Zone(offset) && Fits(offset, e) && |Ordinals(periods, true)| > 0
    requires t >= e && InMonthWindow(offset, t, n) && n !in ClosedKeys(periods)
    ensures BoundFor(offset, periods, e) <= StartOfClientMonth(offset, n) <= t
  {
    HasWindow(offset, e);
    var w :| InMonthWindow(offset, e, w);
    WindowsTile(offset, n + 1, w, e);
    var bound := BoundMonth(periods, Some(ClientCalendarOf(offset, e)));
    WindowsTile(offset, n, bound, t);
  }

  /** A history that hides the trace at `e` when it does not fit: its calendar month closed, and
      nothing else. */
  lemma HistoryThatHides(offset: int -> int, e: int, w: int)
    requires Zone(offset) && InMonthWindow(offset, e, w) && w < ClientCalendarOf(offset, e)
    ensures var periods := [Period(MonthOf(ClientCalendarOf(offset, e)), true)];
            && IsHistory(periods) && |Ordinals(periods, true)| > 0
            && w !in ClosedKeys(periods) && e < BoundFor(offset, periods, e)
  {
    var c := ClientCalendarOf(offset, e);
    var periods := [Period(MonthOf(c), true)];
    assert periods[..0] == [] && periods[0] in periods;
    assert Ordinals(periods, true) == [] + [c] && Ordinals(periods, false) == [];
    var bound := BoundMonth(periods, Some(c));
    assert bound > c by {
      assert c in ClosedKeys(periods);
    }
    WindowsTile(offset, w + 1, bound, e);
  }

  /** The bound never hides money, over all lifecycle histories, if and only if the calendar month of
      the earliest trace is no later than the month in whose window it lies. */
  lemma BoundHidesNothingIff(offset: int -> int, e: int)
    requires Zone(offset)
    ensures HidesNothing(offset, e) <==> Fits(offset, e)
  {
    if Fits(offset, e) {
      forall periods, t, n
        | IsHistory(periods) && |Ordinals(periods, true)| > 0 && t >= e && InMonthWindow(offset, t, n)
          && n !in ClosedKeys(periods)
        ensures BoundFor(offset, periods, e) <= t
      {
        BoundBeforeOpenMonth(offset, periods, e, t, n);
      }
    } else {
      var w :| InMonthWindow(offset, e, w) && w < ClientCalendarOf(offset, e);
      HistoryThatHides(offset, e, w);
    }
  }

  lemma AgreementFits(offset: int -> int, e: int)
    requires Zone(offset) && Agrees(offset, e)
    ensures Fits(offset, e)
  {
    forall w | InMonthWindow(offset, e, w) ensures ClientCalendarOf(offset, e) <= w {
      AgreedMonth(offset, e, w);
    }
  }

  /** In calendar terms: a trace that agrees with its window, of a month that is not closed, lies at
      or after the bound with its whole month. */
  lemma BoundHidesNothing(offset: int -> int, periods: seq<Period>, earliestTraceAt: int, t: int)
    requires Zone(offset) && Fits(offset, earliestTraceAt) && Agrees(offset, t) && |Ordinals(periods, true)| > 0
    requires t >= earliestTraceAt && ClientCalendarOf(offset, t) !in ClosedKeys(periods)
    ensures BoundFor(offset, periods, earliestTraceAt) <= StartOfClientMonth(offset, ClientCalendarOf(offset, t)) <= t
  {
    BoundBeforeOpenMonth(offset, periods, earliestTraceAt, t, ClientCalendarOf(offset, t));
  }

  /** A trace in the hour that repeats when the clock is set back to a month's first midnight, alone
      in the store: closing its calendar month hides it, in the month before, which is not closed. */
  lemma RepeatedHourIsHidden(n: int)
    ensures var at, offset := UtcStart(n), ChangeAt(UtcStart(n), HOUR_MS, 0);
            var periods := [Period(MonthOf(n), true)];
            && Zone(offset) && InMonthWindow(offset, at - 1, n - 1) && n - 1 !in ClosedKeys(periods)
            && |Ordinals(periods, true)| > 0 && at - 1 < BoundFor(offset, periods, at - 1)
  {
    BackToMidnightDisagrees(n);
    HistoryThatHides(ChangeAt(UtcStart(n), HOUR_MS, 0), UtcStart(n) - 1, n - 1);
  }

  /** The bound itself is not closed, every non-closed document is at or after it, and unless it
      is one of those, every month from the anchor up to it is closed. */
  lemma BoundMonthFacts(periods: seq<Period>, earliest: Option<int>)
    requires |Ordinals(periods, true)| > 0
    requires ClosedKeys(periods) !! OpenKeys(periods)
    ensures var n := BoundMonth(periods, earliest);
            && n !in ClosedKeys(periods)
            && (forall k :: k in OpenKeys(periods) ==> n <= k)
            && (n in OpenKeys(periods)
                || forall k :: Anchor(Ordinals(periods, true), earliest) <= k < n ==> k in ClosedKeys(periods))
  {
    var open := Ordinals(periods, false);
    assert forall k :: k in open <==> k in OpenKeys(periods);
  }

  // ---------------------------------------------------------------- close order

  ghost predicate HasTraces(offset: int -> int, traces: seq<int>, n: int) {
    exists t :: t in traces && InMonthWindow(offset, t, n)
  }

  /** The `hasTraces` probe. */
  method ProbeTraces(offset: int -> int, traces: seq<int>, n: int) returns (found: bool)
    ensures found <==> HasTraces(offset, traces, n)
  {
    for i := 0 to |traces|
      invariant forall t :: t in traces[..i] ==> !InMonthWindow(offset, t, n)
    {
      if InMonthWindow(offset, traces[i], n) {
        return true;
      }
    }
    assert traces[..|traces|] == traces;
    return false;
  }

  /** Every trace lies in the window of its own calendar month. */
  predicate AllAgree(offset: int -> int, traces: seq<int>) {
    forall t :: t in traces ==> Agrees(offset, t)
  }

  lemma HasTracesByCalendar(offset: int -> int, traces: seq<int>, n: int)
    requires Zone(offset) && AllAgree(offset, traces)
    ensures HasTraces(offset, traces, n) <==> exists t :: t in traces && ClientCalendarOf(offset, t) == n
  {
    forall t | t in traces ensures InMonthWindow(offset, t, n) <==> ClientCalendarOf(offset, t) == n {
      AgreedMonth(offset, t, n);
    }
  }

  datatype Guard = Passed | BlockedBy(month: int) | InvalidPeriod

  /** Month `n` keeps later months from closing: it holds traces and was never closed. */
  ghost predicate HoldsBack(offset: int -> int, traces: seq<int>, closed: set<int>, n: int) {
    n !in closed && HasTraces(offset, traces, n)
  }

  /** The month the guard's walk starts at. */
  function FirstMonth(offset: int -> int, traces: seq<int>): int
    requires traces != []
  {
    ClientCalendarOf(offset, Least(traces, traces[0]))
  }

  /** The walk does not get past month `n`. */
  ghost predicate Stops(offset: int -> int, traces: seq<int>, closed: set<int>, n: int) {
    n !in closed && (!IsBillable(n) || HasTraces(offset, traces, n))
  }

  /** Month `n` is the first of the walk that it does not get past. */
  ghost predicate StopsFirst(offset: int -> int, traces: seq<int>, closed: set<int>, first: int, n: int) {
    first <= n && Stops(offset, traces, closed, n) && forall k :: first <= k < n ==> !Stops(offset, traces, closed, k)
  }

  /** The guard's answer for a close of month `target`, and no other. */
  ghost predicate GuardAnswers(offset: int -> int, traces: seq<int>, closed: set<int>, target: int, guard: Guard) {
    if traces == [] then guard == Passed
    else
      var first := FirstMonth(offset, traces);
      match guard
      case Passed => forall n :: first <= n < target ==> !Stops(offset, traces, closed, n)
      case BlockedBy(m) => m < target && IsBillable(m) && StopsFirst(offset, traces, closed, first, m)
      case InvalidPeriod => exists m :: m < target && !IsBillable(m) && StopsFirst(offset, traces, closed, first, m)
  }

  /** `assertOlderMonthsClosed`, from the month of the earliest trace to the one before `target`. */
  method AssertOlderMonthsClosed(offset: int -> int, traces: seq<int>, closed: set<int>, target: YearMonth)
    returns (guard: Guard)
    requires Proper(target)
    ensures GuardAnswers(offset, traces, closed, Ordinal(target), guard)
  {
    if |traces| == 0 {
      return Passed;
    }
    var cursor := MonthOf(FirstMonth(offset, traces));
    ghost var first := Ordinal(cursor);
    while Ordinal(cursor) < Ordinal(target)
      invariant Proper(cursor) && first <= Ordinal(cursor)
      invariant first < Ordinal(target) ==> Ordinal(cursor) <= Ordinal(target)
      invariant forall n :: first <= n < Ordinal(cursor) ==> !Stops(offset, traces, closed, n)
      decreases Ordinal(target) - Ordinal(cursor)
    {
      if Ordinal(cursor) !in closed {
        if !IsBillable(Ordinal(cursor)) {
          assert StopsFirst(offset, traces, closed, first, Ordinal(cursor));
          return InvalidPeriod;
        }
        var found := ProbeTraces(offset, traces, Ordinal(cursor));
        if found {
          return BlockedBy(Ordinal(cursor));
        }
      }
      cursor := NextMonth(cursor);
    }
    return Passed;
  }

  /** Every trace in the window of a month before `target` lies in a closed month. */
  ghost predicate OlderWindowsClosed(offset: int -> int, traces: seq<int>, closed: set<int>, target: int) {
    forall t, n :: t in traces && InMonthWindow(offset, t, n) && n < target ==> n in closed
  }

  /** Every trace of a calendar month before `target` lies in a closed month. */
  ghost predicate OlderClosed(offset: int -> int, traces: seq<int>, closed: set<int>, target: int) {
    forall t :: t in traces && ClientCalendarOf(offset, t) < target ==> ClientCalendarOf(offset, t) in closed
  }

  /** The earliest trace's calendar month is no later than its window's. */
  ghost predicate EarliestFits(offset: int -> int, traces: seq<int>) {
    traces != [] ==> Fits(offset, Least(traces, traces[0]))
  }

  lemma NothingBefore(offset: int -> int, traces: seq<int>, closed: set<int>, n: int)
    requires Zone(offset) && EarliestFits(offset, traces) && traces != [] && n < FirstMonth(offset, traces)
    ensures !HoldsBack(offset, traces, closed, n)
  {
    var e := Least(traces, traces[0]);
    HasWindow(offset, e);
    var w :| InMonthWindow(offset, e, w);
    forall t | t in traces ensures !InMonthWindow(offset, t, n) {
      WindowsTile(offset, n + 1, w, e);
    }
  }

  lemma OlderWindowsByMonth(offset: int -> int, traces: seq<int>, closed: set<int>, target: int)
    ensures OlderWindowsClosed(offset, traces, closed, target)
            <==> forall n :: n < target ==> !HoldsBack(offset, traces, closed, n)
  {
    if OlderWindowsClosed(offset, traces, closed, target) {
      forall n | n < target ensures !HoldsBack(offset, traces, closed, n) {}
    } else {
      var t, n :| t in traces && InMonthWindow(offset, t, n) && n < target && n !in closed;
      assert HoldsBack(offset, traces, closed, n);
    }
  }

  /** A close that passes leaves no trace of an older month outside a closed month; and from a
      billable first month on it passes exactly then. */
  lemma PassesIff(offset: int -> int, traces: seq<int>, closed: set<int>, target: int, guard: Guard)
    requires Zone(offset) && EarliestFits(offset, traces) && IsBillable(target)
    requires GuardAnswers(offset, traces, closed, target, guard)
    ensures guard.Passed? ==> OlderWindowsClosed(offset, traces, closed, target)
    ensures traces != [] && IsBillable(FirstMonth(offset, traces)) ==>
              !guard.InvalidPeriod? && (OlderWindowsClosed(offset, traces, closed, target) ==> guard.Passed?)
  {
    OlderWindowsByMonth(offset, traces, closed, target);
    if guard.Passed? {
      forall n | n < target ensures !HoldsBack(offset, traces, closed, n) {
        if traces != [] && n < FirstMonth(offset, traces) {
          NothingBefore(offset, traces, closed, n);
        } else if traces != [] {
          assert !Stops(offset, traces, closed, n);
        }
      }
    } else {
      assert guard.BlockedBy? ==> HoldsBack(offset, traces, closed, guard.month);
    }
  }

  /** The guard is sound, for every set of closed months and every target, if and only if the earliest
      trace fits: otherwise a close of its calendar month passes over the month whose window holds it. */
  ghost predicate GuardSound(offset: int -> int, traces: seq<int>) {
    forall closed, target :: IsBillable(target) && GuardAnswers(offset, traces, closed, target, Passed)
                             ==> OlderWindowsClosed(offset, traces, closed, target)
  }

  lemma GuardSoundIff(offset: int -> int, traces: seq<int>)
    requires Zone(offset) && (traces != [] ==> IsBillable(FirstMonth(offset, traces)))
    ensures GuardSound(offset, traces) <==> EarliestFits(offset, traces)
  {
    if EarliestFits(offset, traces) {
      forall closed, target | IsBillable(target) && GuardAnswers(offset, traces, closed, target, Passed)
        ensures OlderWindowsClosed(offset, traces, closed, target)
      {
        PassesIff(offset, traces, closed, target, Passed);
      }
    } else {
      var e, first := Least(traces, traces[0]), FirstMonth(offset, traces);
      var w :| InMonthWindow(offset, e, w) && w < first;
      assert GuardAnswers(offset, traces, {}, first, Passed);
      assert e in traces && !OlderWindowsClosed(offset, traces, {}, first);
    }
  }

  /** When every trace agrees with its window, calendar months may be read for windows. */
  lemma WindowsAreCalendar(offset: int -> int, traces: seq<int>, closed: set<int>, target: int)
    requires Zone(offset) && AllAgree(offset, traces)
    ensures EarliestFits(offset, traces)
    ensures OlderWindowsClosed(offset, traces, closed, target) <==> OlderClosed(offset, traces, closed, target)
  {
    if traces != [] {
      assert Least(traces, traces[0]) in traces;
      AgreementFits(offset, Least(traces, traces[0]));
    }
    forall t, n | t in traces ensures InMonthWindow(offset, t, n) <==> ClientCalendarOf(offset, t) == n {
      AgreedMonth(offset, t, n);
    }
  }

  /** A blocked close names the oldest month that holds it back, and the guard fails on a month
      outside the calendar only when the earliest trace lies in one. */
  lemma BlockedNamesOldest(offset: int -> int, traces: seq<int>, closed: set<int>, target: int, guard: Guard)
    requires Zone(offset) && EarliestFits(offset, traces) && IsBillable(target)
    requires GuardAnswers(offset, traces, closed, target, guard)
    ensures guard.BlockedBy? ==>
              && HoldsBack(offset, traces, closed, guard.month)
              && forall n :: n < guard.month ==> !HoldsBack(offset, traces, closed, n)
    ensures guard.InvalidPeriod? ==> !IsBillable(FirstMonth(offset, traces)) && FirstMonth(offset, traces) < target
  {
    if guard.BlockedBy? {
      forall n | n < guard.month ensures !HoldsBack(offset, traces, closed, n) {
        if n < FirstMonth(offset, traces) {
          NothingBefore(offset, traces, closed, n);
        } else {
          assert !Stops(offset, traces, closed, n);
        }
      }
    }
  }
}
