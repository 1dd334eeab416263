/**
 * client-clock.ts: the client's calendar over UTC instants (milliseconds). The zone is any offset
 * function; months are numbered year * 12 + (month - 1).
 */
module ClientCalendar {

  const DAY_MS: int := 86_400_000
  const HOUR_MS: int := 3_600_000

  /** The largest offset the code can read: the zone text has two digits of hours and two of minutes. */
  const OFFSET_LIMIT_MS: int := (99 * 60 + 99) * 60_000

  /** January 1970. */
  const EPOCH_MONTH: int := 23_640

  // ---------------------------------------------------------------- the UTC calendar

  predicate IsLeap(year: int) {
    year % 4 == 0 && (year % 100 != 0 || year % 400 == 0)
  }

  function MonthDays(n: int): (days: int)
    ensures 28 <= days <= 31
  {
    var month := n % 12;
    if month == 1 then (if IsLeap(n / 12) then 29 else 28)
    else if month == 3 || month == 5 || month == 8 || month == 10 then 30
    else 31
  }

  /** Days from the epoch to the first of month `n`. */
  function MonthStartDay(n: int): int
    decreases if n < EPOCH_MONTH then EPOCH_MONTH - n else n - EPOCH_MONTH
  {
    if n == EPOCH_MONTH then 0
    else if n > EPOCH_MONTH then MonthStartDay(n - 1) + MonthDays(n - 1)
    else MonthStartDay(n + 1) - MonthDays(n)
  }

  /** Leap days up to a year's end. */
  function LeapDays(year: int): int {
    year / 4 - year / 100 + year / 400
  }

  /** Days from the first of March to the first of a month: 153 to every five months. */
  function DaysIntoYear(month: int): int {
    (153 * ((month + 10) % 12) + 2) / 5
  }

  /** Days from the epoch to the first of a month, January being 0, in closed form: years counted from
      March, with their leap days. */
  function CivilDay(year: int, month: int): int {
    var marchYear := if month < 2 then year - 1 else year;
    365 * marchYear + LeapDays(marchYear) + DaysIntoYear(month) - 719_468
  }

  lemma QuotientSteps(year: int)
    ensures year / 4 - (year - 1) / 4 == if year % 4 == 0 then 1 else 0
    ensures year / 100 - (year - 1) / 100 == if year % 100 == 0 then 1 else 0
    ensures year / 400 - (year - 1) / 400 == if year % 400 == 0 then 1 else 0
  {}

  lemma Multiples(year: int)
    ensures year % 100 == 0 ==> year % 4 == 0
    ensures year % 400 == 0 ==> year % 100 == 0
  {
    if year % 100 == 0 {
      assert year == 4 * (25 * (year / 100));
    }
    if year % 400 == 0 {
      assert year == 100 * (4 * (year / 400));
    }
  }

  lemma OneYearOn(year: int)
    ensures LeapDays(year) - LeapDays(year - 1) == if IsLeap(year) then 1 else 0
  {
    QuotientSteps(year);
    Multiples(year);
  }

  lemma FourCenturiesOn(year: int)
    ensures LeapDays(year + 400) == LeapDays(year) + 97
  {
    assert (year + 400) / 4 == year / 4 + 100;
    assert (year + 400) / 100 == year / 100 + 4;
    assert (year + 400) / 400 == year / 400 + 1;
  }

  lemma YearAndMonth(year: int, month: int)
    requires 0 <= month < 12
    ensures (12 * year + month) / 12 == year && (12 * year + month) % 12 == month
  {}

  lemma MonthLengths(month: int)
    requires 0 <= month < 12
    ensures month != 1 ==>
              DaysIntoYear(if month == 11 then 0 else month + 1) - DaysIntoYear(month)
              == if month == 3 || month == 5 || month == 8 || month == 10 then 30 else 31
    ensures month == 1 ==> DaysIntoYear(2) == 0 && DaysIntoYear(1) == 337
  {
    assert month == 0 || month == 1 || month == 2 || month == 3 || month == 4 || month == 5
        || month == 6 || month == 7 || month == 8 || month == 9 || month == 10 || month == 11;
  }

  lemma CivilStep(year: int, month: int)
    requires 0 <= month < 12
    ensures (if month == 11 then CivilDay(year + 1, 0) else CivilDay(year, month + 1))
            == CivilDay(year, month) + MonthDays(12 * year + month)
  {
    YearAndMonth(year, month);
    OneYearOn(year);
    MonthLengths(month);
  }

  lemma CivilNext(n: int)
    ensures CivilDay((n + 1) / 12, (n + 1) % 12) == CivilDay(n / 12, n % 12) + MonthDays(n)
  {
    var year, month := n / 12, n % 12;
    CivilStep(year, month);
    if month == 11 {
      YearAndMonth(year + 1, 0);
    } else {
      YearAndMonth(year, month + 1);
    }
  }

  function Civil(): int -> int {
    (n: int) => CivilDay(n / 12, n % 12)
  }

  lemma {:induction false} MonthStartIs(days: int -> int, n: int)
    requires days(EPOCH_MONTH) == 0 && forall k {:trigger MonthDays(k)} :: days(k + 1) == days(k) + MonthDays(k)
    ensures MonthStartDay(n) == days(n)
    decreases if n < EPOCH_MONTH then EPOCH_MONTH - n else n - EPOCH_MONTH
  {
    if n > EPOCH_MONTH {
      MonthStartIs(days, n - 1);
    } else if n < EPOCH_MONTH {
      MonthStartIs(days, n + 1);
    }
  }

  /** The months are those of the Gregorian calendar. */
  lemma MonthStartIsCivil(n: int)
    ensures MonthStartDay(n) == CivilDay(n / 12, n % 12)
  {
    forall k ensures Civil()(k + 1) == Civil()(k) + MonthDays(k) {
      CivilNext(k);
    }
    MonthStartIs(Civil(), n);
  }

  /** A year has 366 days exactly when it is divisible by 4 and not by 100, or by 400. */
  lemma YearLength(year: int)
    ensures MonthStartDay(12 * (year + 1)) - MonthStartDay(12 * year) ==
            if year % 400 == 0 || (year % 4 == 0 && year % 100 != 0) then 366 else 365
  {
    CivilStart(year + 1, 0);
    CivilStart(year, 0);
    LeapYears(year);
    OneYearOn(year);
  }

  lemma LeapYears(year: int)
    ensures IsLeap(year) <==> year % 400 == 0 || (year % 4 == 0 && year % 100 != 0)
  {
    Multiples(year);
  }

  /** The calendar repeats every 400 years, after 146097 days. */
  lemma FourCenturies(year: int, month: int)
    requires 0 <= month < 12
    ensures MonthStartDay(12 * (year + 400) + month) == MonthStartDay(12 * year + month) + 146_097
  {
    CivilStart(year + 400, month);
    CivilStart(year, month);
    FourCenturiesOn(if month < 2 then year - 1 else year);
  }

  lemma CivilStart(year: int, month: int)
    requires 0 <= month < 12
    ensures MonthStartDay(12 * year + month) == CivilDay(year, month)
  {
    MonthStartIsCivil(12 * year + month);
    YearAndMonth(year, month);
  }

  /** `Date.UTC(year, month - 1, 1)`. */
  function UtcStart(n: int): int {
    DAY_MS * MonthStartDay(n)
  }

  lemma NextStart(n: int)
    ensures UtcStart(n + 1) == UtcStart(n) + DAY_MS * MonthDays(n)
    ensures UtcStart(n) + 28 * DAY_MS <= UtcStart(n + 1)
  {
    assert MonthStartDay(n + 1) == MonthStartDay(n) + MonthDays(n);
  }

  lemma {:induction false} StartsIncrease(m: int, n: int)
    requires m < n
    ensures UtcStart(m) < UtcStart(n)
    decreases n - m
  {
    NextStart(m);
    if m + 1 < n {
      StartsIncrease(m + 1, n);
    }
  }

  predicate InUtcMonth(t: int, n: int) {
    UtcStart(n) <= t < UtcStart(n + 1)
  }

  /** `getUTCFullYear` and `getUTCMonth`: the month an instant falls in, searched from `n`. */
  function SearchMonth(t: int, n: int): (m: int)
    ensures InUtcMonth(t, m)
    decreases if InUtcMonth(t, n) then 0 else if t < UtcStart(n) then UtcStart(n) - t else t - UtcStart(n)
  {
    NextStart(n);
    NextStart(n - 1);
    if t < UtcStart(n) then SearchMonth(t, n - 1)
    else if t >= UtcStart(n + 1) then SearchMonth(t, n + 1)
    else n
  }

  function UtcMonthOf(t: int): (n: int)
    ensures InUtcMonth(t, n)
  {
    SearchMonth(t, EPOCH_MONTH)
  }

  /** The months partition time. */
  lemma UtcMonthUnique(t: int, n: int)
    ensures InUtcMonth(t, n) <==> UtcMonthOf(t) == n
  {
    var m := UtcMonthOf(t);
    if InUtcMonth(t, n) && m != n {
      if m + 1 < n { StartsIncrease(m + 1, n); }
      if n + 1 < m { StartsIncrease(n + 1, m); }
    }
  }

  // ---------------------------------------------------------------- the client's zone

  /** What the local clock reads at an instant, as if it were UTC. */
  function Wall(offset: int -> int, t: int): int {
    t + offset(t)
  }

  /** The two-pass offset correction from a wall-clock reading to an instant. */
  function InstantOf(offset: int -> int, wallAsUtc: int): int {
    var firstGuess := wallAsUtc - offset(wallAsUtc);
    wallAsUtc - offset(firstGuess)
  }

  function StartOfClientMonth(offset: int -> int, n: int): int {
    InstantOf(offset, UtcStart(n))
  }

  /** The wall-clock midnight at or before a wall-clock reading. */
  function DayOf(wall: int): int {
    wall / DAY_MS * DAY_MS
  }

  function StartOfClientDay(offset: int -> int, t: int): int {
    InstantOf(offset, DayOf(Wall(offset, t)))
  }

  function AddClientDays(offset: int -> int, dayStart: int, days: int): int {
    InstantOf(offset, DayOf(Wall(offset, dayStart)) + days * DAY_MS)
  }

  function ClientCalendarOf(offset: int -> int, t: int): int {
    UtcMonthOf(Wall(offset, t))
  }

  predicate InMonthWindow(offset: int -> int, t: int, n: int) {
    StartOfClientMonth(offset, n) <= t < StartOfClientMonth(offset, n + 1)
  }

  predicate OffsetWithin(offset: int -> int, low: int, drift: int, t: int) {
    low <= offset(t) <= low + drift
  }

  /** A zone: any offsets at all that the code can read. */
  ghost predicate Zone(offset: int -> int) {
    forall t {:trigger Readable(offset, t)} :: Readable(offset, t)
  }

  predicate Readable(offset: int -> int, t: int) {
    -OFFSET_LIMIT_MS <= offset(t) <= OFFSET_LIMIT_MS
  }

  /** From `from` to `to` the offsets differ by at most `drift`. */
  ghost predicate DriftsWithin(offset: int -> int, drift: int, from: int, to: int) {
    exists low :: WithinFrom(offset, low, drift, from, to)
  }

  ghost predicate WithinFrom(offset: int -> int, low: int, drift: int, from: int, to: int) {
    forall t {:trigger OffsetWithin(offset, low, drift, t)} :: from <= t <= to ==> OffsetWithin(offset, low, drift, t)
  }

  // ---------------------------------------------------------------- where the correction lands

  /** From `m` on, and never before, the local clock reads at least `wall`. */
  ghost predicate ReachedOnce(offset: int -> int, wall: int, m: int) {
    forall t :: t >= m <==> Wall(offset, t) >= wall
  }

  /** The two-pass correction lands on the instant at which the local clock reaches `wall`. */
  ghost predicate Crosses(offset: int -> int, wall: int) {
    ReachedOnce(offset, wall, InstantOf(offset, wall))
  }

  /** It does so exactly when the clock reaches the reading once and for all, and the offset in
      force at the first guess is the one that separates the reading from that instant. */
  lemma CrossesIff(offset: int -> int, wall: int)
    ensures Crosses(offset, wall) <==>
            exists m :: ReachedOnce(offset, wall, m) && offset(wall - offset(wall)) == wall - m
  {
    if m :| ReachedOnce(offset, wall, m) && offset(wall - offset(wall)) == wall - m {
      assert InstantOf(offset, wall) == m;
    }
  }

  /** Around the reading the zone changes its offset once, from `a` to `b` at the instant `at`. */
  ghost predicate OneChange(offset: int -> int, wall: int, at: int, a: int, b: int) {
    && wall - OFFSET_LIMIT_MS < at <= wall + OFFSET_LIMIT_MS
    && forall t :: wall - OFFSET_LIMIT_MS <= t <= wall + OFFSET_LIMIT_MS ==> offset(t) == if t < at then a else b
  }

  /** Which changes do no harm. `before` and `after` are where the old and the new offset would put
      the reading. A clock set back must not repeat the reading, nor land on it at or east of
      Greenwich; a clock set forward must not skip it, except exactly from it at or east of Greenwich. */
  predicate Harmless(wall: int, at: int, a: int, b: int) {
    var before, after := wall - a, wall - b;
    if before < at then after < at || (after == at && b < 0)
    else after >= at || (before == at && a >= 0)
  }

  lemma CrossesAtChange(offset: int -> int, wall: int, at: int, a: int, b: int)
    requires Zone(offset) && OneChange(offset, wall, at, a, b)
    ensures Crosses(offset, wall) <==> Harmless(wall, at, a, b)
  {
    var low, high := wall - OFFSET_LIMIT_MS, wall + OFFSET_LIMIT_MS;
    ReadableAt(offset, low);
    ReadableAt(offset, high);
    ReadableAt(offset, wall);
    assert offset(low) == a && offset(high) == b;
    var m := InstantOf(offset, wall);
    forall t ensures (t < low ==> Wall(offset, t) < wall) && (t > high ==> Wall(offset, t) >= wall) {
      ReadableAt(offset, t);
    }
    if Harmless(wall, at, a, b) {
      forall t ensures t >= m <==> Wall(offset, t) >= wall {}
    } else {
      assert Wall(offset, at - 1) == at - 1 + a && Wall(offset, at) == at + b;
      assert (m <= at - 1 <==> Wall(offset, at - 1) >= wall) && (m <= at <==> Wall(offset, at) >= wall) ==> false;
    }
  }

  lemma ReadableAt(offset: int -> int, t: int)
    requires Zone(offset)
    ensures -OFFSET_LIMIT_MS <= offset(t) <= OFFSET_LIMIT_MS
  {
    assert Readable(offset, t);
  }

  /** A local midnight the clock reads, with no change of offset for `drift` around it, where offsets
      differ by at most `drift` nearby: the correction lands on it. */
  lemma SteadyMidnightCrosses(offset: int -> int, drift: int, midnight: int)
    requires Zone(offset)
    requires DriftsWithin(offset, drift, midnight - 2 * OFFSET_LIMIT_MS, midnight + 2 * OFFSET_LIMIT_MS)
    requires forall t :: midnight - drift <= t <= midnight + drift ==> offset(t) == offset(midnight)
    ensures Crosses(offset, Wall(offset, midnight)) && InstantOf(offset, Wall(offset, midnight)) == midnight
  {
    var from, to := midnight - 2 * OFFSET_LIMIT_MS, midnight + 2 * OFFSET_LIMIT_MS;
    var low :| WithinFrom(offset, low, drift, from, to);
    var wall := Wall(offset, midnight);
    ReadableAt(offset, midnight);
    assert OffsetWithin(offset, low, drift, wall) && OffsetWithin(offset, low, drift, midnight);
    assert offset(wall - offset(wall)) == offset(midnight);
    forall t ensures t >= midnight <==> Wall(offset, t) >= wall {
      ReadableAt(offset, t);
      assert from <= t <= to ==> OffsetWithin(offset, low, drift, t);
    }
  }

  // ---------------------------------------------------------------- windows and the calendar

  /** The window between two readings holds exactly the instants whose local clock reads in
      between, if and only if the correction lands on both crossings; offsets may differ nearby by
      no more than the readings are apart. */
  lemma WindowIff(offset: int -> int, drift: int, wall: int, next: int)
    requires Zone(offset) && next - wall >= drift >= 0
    requires DriftsWithin(offset, drift, wall - OFFSET_LIMIT_MS, next + OFFSET_LIMIT_MS)
    ensures (forall t :: InstantOf(offset, wall) <= t < InstantOf(offset, next) <==> wall <= Wall(offset, t) < next)
            <==> Crosses(offset, wall) && Crosses(offset, next)
  {
    var start, end := InstantOf(offset, wall), InstantOf(offset, next);
    forall t ensures (t >= end ==> Wall(offset, t) >= wall) && (t < start ==> Wall(offset, t) < next) {
      WindowNear(offset, drift, wall, next, t);
    }
    if forall t :: start <= t < end <==> wall <= Wall(offset, t) < next {
      forall t ensures (t >= start <==> Wall(offset, t) >= wall) && (t >= end <==> Wall(offset, t) >= next) {
        assert start <= t < end <==> wall <= Wall(offset, t) < next;
      }
    }
  }

  lemma WindowNear(offset: int -> int, drift: int, wall: int, next: int, t: int)
    requires Zone(offset) && next - wall >= drift >= 0
    requires DriftsWithin(offset, drift, wall - OFFSET_LIMIT_MS, next + OFFSET_LIMIT_MS)
    ensures t >= InstantOf(offset, next) ==> Wall(offset, t) >= wall
    ensures t < InstantOf(offset, wall) ==> Wall(offset, t) < next
  {
    var from, to := wall - OFFSET_LIMIT_MS, next + OFFSET_LIMIT_MS;
    var low :| WithinFrom(offset, low, drift, from, to);
    var first, second := wall - offset(wall), next - offset(next);
    ReadableAt(offset, wall);
    ReadableAt(offset, first);
    ReadableAt(offset, next);
    ReadableAt(offset, second);
    ReadableAt(offset, t);
    assert OffsetWithin(offset, low, drift, first) && OffsetWithin(offset, low, drift, second);
    assert from <= t <= to ==> OffsetWithin(offset, low, drift, t);
  }

  lemma ZoneDrifts(offset: int -> int, from: int, to: int)
    requires Zone(offset)
    ensures DriftsWithin(offset, 2 * OFFSET_LIMIT_MS, from, to)
  {
    var low, drift := -OFFSET_LIMIT_MS, 2 * OFFSET_LIMIT_MS;
    forall t | from <= t <= to ensures OffsetWithin(offset, low, drift, t) {
      ReadableAt(offset, t);
    }
    assert WithinFrom(offset, low, drift, from, to);
  }

  /** An instant lies in a month's window exactly when the client calendar names that month, at all
      instants, if and only if the correction lands on the month's first midnight and on the next's. */
  lemma MonthMembershipIff(offset: int -> int, n: int)
    requires Zone(offset)
    ensures (forall t :: InMonthWindow(offset, t, n) <==> ClientCalendarOf(offset, t) == n)
            <==> Crosses(offset, UtcStart(n)) && Crosses(offset, UtcStart(n + 1))
  {
    NextStart(n);
    ZoneDrifts(offset, UtcStart(n) - OFFSET_LIMIT_MS, UtcStart(n + 1) + OFFSET_LIMIT_MS);
    WindowIff(offset, 2 * OFFSET_LIMIT_MS, UtcStart(n), UtcStart(n + 1));
    forall t ensures UtcStart(n) <= Wall(offset, t) < UtcStart(n + 1) <==> ClientCalendarOf(offset, t) == n {
      UtcMonthUnique(Wall(offset, t), n);
    }
    assert (forall t :: InMonthWindow(offset, t, n) <==> ClientCalendarOf(offset, t) == n) <==>
           (forall t :: StartOfClientMonth(offset, n) <= t < StartOfClientMonth(offset, n + 1)
                        <==> UtcStart(n) <= Wall(offset, t) < UtcStart(n + 1));
  }

  /** With one transition near either end: the month's window is its calendar at all instants if and
      only if both transitions are harmless. */
  lemma MonthMembershipAtChanges(offset: int -> int, n: int, at: int, a: int, b: int, at': int, a': int, b': int)
    requires Zone(offset)
    requires OneChange(offset, UtcStart(n), at, a, b) && OneChange(offset, UtcStart(n + 1), at', a', b')
    ensures (forall t :: InMonthWindow(offset, t, n) <==> ClientCalendarOf(offset, t) == n)
            <==> Harmless(UtcStart(n), at, a, b) && Harmless(UtcStart(n + 1), at', a', b')
  {
    MonthMembershipIff(offset, n);
    CrossesAtChange(offset, UtcStart(n), at, a, b);
    CrossesAtChange(offset, UtcStart(n + 1), at', a', b');
  }

  lemma MonthMembership(offset: int -> int, t: int, n: int)
    requires Zone(offset) && Crosses(offset, UtcStart(n)) && Crosses(offset, UtcStart(n + 1))
    ensures InMonthWindow(offset, t, n) <==> ClientCalendarOf(offset, t) == n
  {
    MonthMembershipIff(offset, n);
  }

  /** The instant's window is the one of its calendar month. */
  predicate Agrees(offset: int -> int, t: int) {
    InMonthWindow(offset, t, ClientCalendarOf(offset, t))
  }

  /** Window and calendar agree at every instant if and only if every first midnight is landed on. */
  lemma AllAgreeIff(offset: int -> int)
    requires Zone(offset)
    ensures (forall t :: Agrees(offset, t)) <==> (forall n :: Crosses(offset, UtcStart(n)))
  {
    if forall t :: Agrees(offset, t) {
      forall n ensures Crosses(offset, UtcStart(n)) {
        forall t ensures InMonthWindow(offset, t, n) <==> ClientCalendarOf(offset, t) == n {
          assert Agrees(offset, t);
          WindowsTile(offset, n, ClientCalendarOf(offset, t), t);
        }
        MonthMembershipIff(offset, n);
      }
    } else {
      var t :| !Agrees(offset, t);
      var n := ClientCalendarOf(offset, t);
      if Crosses(offset, UtcStart(n)) && Crosses(offset, UtcStart(n + 1)) {
        MonthMembership(offset, t, n);
      }
    }
  }

  lemma StartNear(offset: int -> int, n: int)
    requires Zone(offset)
    ensures UtcStart(n) - OFFSET_LIMIT_MS <= StartOfClientMonth(offset, n) <= UtcStart(n) + OFFSET_LIMIT_MS
  {
    ReadableAt(offset, UtcStart(n) - offset(UtcStart(n)));
  }

  lemma LaterStart(offset: int -> int, m: int, n: int)
    requires Zone(offset) && m < n
    ensures StartOfClientMonth(offset, m) < StartOfClientMonth(offset, n)
  {
    StartNear(offset, m);
    StartNear(offset, n);
    NextStart(m);
    if m + 1 < n {
      StartsIncrease(m + 1, n);
    }
  }

  lemma HasWindow(offset: int -> int, t: int)
    requires Zone(offset)
    ensures exists k :: InMonthWindow(offset, t, k)
  {
    var c := UtcMonthOf(t);
    StartNear(offset, c - 1);
    StartNear(offset, c + 2);
    NextStart(c - 1);
    NextStart(c + 1);
    assert InMonthWindow(offset, t, c - 1) || InMonthWindow(offset, t, c) || InMonthWindow(offset, t, c + 1);
  }

  /** Consecutive windows tile time in every zone, whatever its transitions: month starts increase
      strictly, and every instant has one window. */
  lemma WindowsTile(offset: int -> int, m: int, n: int, t: int)
    requires Zone(offset)
    ensures m < n <==> StartOfClientMonth(offset, m) < StartOfClientMonth(offset, n)
    ensures InMonthWindow(offset, t, m) && InMonthWindow(offset, t, n) ==> m == n
    ensures exists k :: InMonthWindow(offset, t, k)
  {
    HasWindow(offset, t);
    if m < n {
      LaterStart(offset, m, n);
      if m + 1 < n { LaterStart(offset, m + 1, n); }
    } else if n < m {
      LaterStart(offset, n, m);
      if n + 1 < m { LaterStart(offset, n + 1, m); }
    }
  }

  /** What agreement at an instant gives: the instant's window is that of month `n` exactly when its
      calendar month is `n`. */
  lemma AgreedMonth(offset: int -> int, t: int, n: int)
    requires Zone(offset) && Agrees(offset, t)
    ensures InMonthWindow(offset, t, n) <==> ClientCalendarOf(offset, t) == n
  {
    WindowsTile(offset, n, ClientCalendarOf(offset, t), t);
  }

  // ---------------------------------------------------------------- days

  lemma DayOfMidnight(wall: int)
    ensures DayOf(wall) % DAY_MS == 0 && DayOf(wall) <= wall < DayOf(wall) + DAY_MS
    ensures wall % DAY_MS == 0 ==> DayOf(wall) == wall
  {}

  /** Between the start of a local date and the start of the next. */
  predicate InDayWindow(offset: int -> int, t: int, day: int) {
    InstantOf(offset, day) <= t < InstantOf(offset, day + DAY_MS)
  }

  /** Around a day near which offsets differ by at most a day: an instant lies between its start and
      the next day's exactly when its local date is that day, if and only if the correction lands on
      both. */
  lemma DayMembershipIff(offset: int -> int, day: int)
    requires Zone(offset) && day % DAY_MS == 0
    requires DriftsWithin(offset, DAY_MS, day - OFFSET_LIMIT_MS, day + DAY_MS + OFFSET_LIMIT_MS)
    ensures (forall t :: InDayWindow(offset, t, day) <==> DayOf(Wall(offset, t)) == day)
            <==> Crosses(offset, day) && Crosses(offset, day + DAY_MS)
  {
    WindowIff(offset, DAY_MS, day, day + DAY_MS);
    assert (forall t :: InDayWindow(offset, t, day) <==> DayOf(Wall(offset, t)) == day) <==>
           (forall t :: InDayWindow(offset, t, day) <==> day <= Wall(offset, t) < day + DAY_MS);
    assert (forall t :: InDayWindow(offset, t, day) <==> day <= Wall(offset, t) < day + DAY_MS) <==>
           (forall t :: InstantOf(offset, day) <= t < InstantOf(offset, day + DAY_MS)
                        <==> day <= Wall(offset, t) < day + DAY_MS);
  }

  /** The start of an instant's day is not after it and carries the same local date, whenever the
      correction lands on that day's midnight and the next. */
  lemma DayStartLands(offset: int -> int, t: int)
    requires Crosses(offset, DayOf(Wall(offset, t))) && Crosses(offset, DayOf(Wall(offset, t)) + DAY_MS)
    ensures StartOfClientDay(offset, t) <= t
    ensures DayOf(Wall(offset, StartOfClientDay(offset, t))) == DayOf(Wall(offset, t))
    ensures forall u :: u < StartOfClientDay(offset, t) ==> DayOf(Wall(offset, u)) != DayOf(Wall(offset, t))
  {
    var day, start := DayOf(Wall(offset, t)), StartOfClientDay(offset, t);
    DayOfMidnight(Wall(offset, t));
    assert t >= start && t < InstantOf(offset, day + DAY_MS);
    assert Wall(offset, start) >= day && Wall(offset, start) < day + DAY_MS;
  }

  lemma {:induction false} Orbit(offset: int -> int, x: int, k: int, m: nat)
    requires forall j: int :: InstantOf(offset, x + k * DAY_MS + j * DAY_MS) == InstantOf(offset, x + j * DAY_MS)
    ensures InstantOf(offset, x + m * k * DAY_MS) == InstantOf(offset, x)
  {
    if m > 0 {
      Orbit(offset, x, k, m - 1);
      var j := (m - 1) * k;
      assert x + k * DAY_MS + j * DAY_MS == x + m * k * DAY_MS;
      assert InstantOf(offset, x + k * DAY_MS + j * DAY_MS) == InstantOf(offset, x + j * DAY_MS);
    }
  }

  lemma NoOrbit(offset: int -> int, x: int, k: int)
    requires Zone(offset)
    requires forall j: int :: InstantOf(offset, x + k * DAY_MS + j * DAY_MS) == InstantOf(offset, x + j * DAY_MS)
    ensures k == 0
  {
    Orbit(offset, x, k, 10);
    var y := x + 10 * k * DAY_MS;
    ReadableAt(offset, x - offset(x));
    ReadableAt(offset, y - offset(y));
  }

  /** The day ladder never drifts: stepping `i` days and then any `j` lands where `i + j` lands, if
      and only if the step of `i` days lands on the date it aims at. */
  lemma DaysComposeIff(offset: int -> int, start: int, i: int)
    requires Zone(offset)
    ensures var aim := DayOf(Wall(offset, start)) + i * DAY_MS;
            (forall j: int ::
              AddClientDays(offset, AddClientDays(offset, start, i), j) == AddClientDays(offset, start, i + j))
            <==> DayOf(Wall(offset, AddClientDays(offset, start, i))) == aim
  {
    var day := DayOf(Wall(offset, start));
    var aim := day + i * DAY_MS;
    var landed := DayOf(Wall(offset, AddClientDays(offset, start, i)));
    DayOfMidnight(Wall(offset, start));
    DayOfMidnight(Wall(offset, AddClientDays(offset, start, i)));
    forall j: int ensures aim + j * DAY_MS == day + (i + j) * DAY_MS {}
    if forall j: int ::
         AddClientDays(offset, AddClientDays(offset, start, i), j) == AddClientDays(offset, start, i + j)
    {
      var k := (landed - aim) / DAY_MS;
      assert landed == aim + k * DAY_MS;
      forall j: int ensures InstantOf(offset, aim + k * DAY_MS + j * DAY_MS) == InstantOf(offset, aim + j * DAY_MS) {
        assert AddClientDays(offset, AddClientDays(offset, start, i), j) == AddClientDays(offset, start, i + j);
      }
      NoOrbit(offset, aim, k);
    }
  }

  // ---------------------------------------------------------------- zones

  function Fixed(shift: int): int -> int {
    (t: int) => shift
  }

  /** A zone with one offset agrees everywhere. */
  lemma FixedZoneAgrees(shift: int, t: int)
    requires -OFFSET_LIMIT_MS <= shift <= OFFSET_LIMIT_MS
    ensures Zone(Fixed(shift)) && Agrees(Fixed(shift), t)
  {
    assert Zone(Fixed(shift));
    forall n ensures Crosses(Fixed(shift), UtcStart(n)) {}
    AllAgreeIff(Fixed(shift));
  }

  function ChangeAt(at: int, a: int, b: int): int -> int {
    (t: int) => if t < at then a else b
  }

  lemma ChangeAtMidnight(n: int, at: int, a: int, b: int)
    requires -OFFSET_LIMIT_MS <= a <= OFFSET_LIMIT_MS && -OFFSET_LIMIT_MS <= b <= OFFSET_LIMIT_MS
    requires UtcStart(n) - OFFSET_LIMIT_MS < at <= UtcStart(n) + OFFSET_LIMIT_MS
    ensures Zone(ChangeAt(at, a, b))
    ensures Crosses(ChangeAt(at, a, b), UtcStart(n)) <==> Harmless(UtcStart(n), at, a, b)
  {
    assert Zone(ChangeAt(at, a, b));
    CrossesAtChange(ChangeAt(at, a, b), UtcStart(n), at, a, b);
  }

  /** Set back to a month's first midnight at Greenwich: the repeated hour is the new month by the
      calendar and the old month by the window. */
  lemma BackToMidnightDisagrees(n: int)
    ensures var at := UtcStart(n);
            var offset := ChangeAt(at, HOUR_MS, 0);
            Zone(offset) && ClientCalendarOf(offset, at - 1) == n && InMonthWindow(offset, at - 1, n - 1)
  {
    var at := UtcStart(n);
    ChangeAtMidnight(n, at, HOUR_MS, 0);
    NextStart(n);
    NextStart(n - 1);
    UtcMonthUnique(at - 1 + HOUR_MS, n);
  }

  /** Set forward at a month's first midnight west of Greenwich, as Paraguay did in October 2017: the
      last hour of the old month is already in the new month's window. */
  lemma ForwardAtMidnightDisagrees(n: int)
    ensures var at := UtcStart(n) + 4 * HOUR_MS;
            var offset := ChangeAt(at, -4 * HOUR_MS, -3 * HOUR_MS);
            Zone(offset) && ClientCalendarOf(offset, at - 1) == n - 1 && InMonthWindow(offset, at - 1, n)
  {
    var at := UtcStart(n) + 4 * HOUR_MS;
    ChangeAtMidnight(n, at, -4 * HOUR_MS, -3 * HOUR_MS);
    NextStart(n);
    NextStart(n - 1);
    UtcMonthUnique(at - 1 - 4 * HOUR_MS, n - 1);
  }

  /** Set back from a month's first midnight, as Brazil did in March 1998: the hour before it
      repeats, the midnight itself comes once, and the correction lands on it. */
  lemma BackFromMidnightAgrees(n: int)
    ensures Crosses(ChangeAt(UtcStart(n) + 2 * HOUR_MS, -2 * HOUR_MS, -3 * HOUR_MS), UtcStart(n))
  {
    ChangeAtMidnight(n, UtcStart(n) + 2 * HOUR_MS, -2 * HOUR_MS, -3 * HOUR_MS);
  }
}
