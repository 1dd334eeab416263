/** close-due-billing-periods-db-use-case.ts: one cycle of the auto-close walk. */
module AutoClose {
  import opened ClientCalendar
  import opened Periods

  /** What `close` answers for a due month. */
  datatype CloseOutcome = ClosedNow | RefusedBlocked | RefusedState | Threw

  /** Why the walk stopped, and at which month. */
  datatype Halt =
    | EmptyStore
    | NotYetDue(month: int)
    | ReopenedHold(month: int)
    | Blocked(month: int)
    | Failed(month: int)
    | InvalidMonth(month: int)

  datatype Report = Report(attempted: seq<int>, closed: seq<int>, raced: seq<int>, halt: Halt)

  predicate IsDue(offset: int -> int, now: int, delay: int, n: int) {
    StartOfClientMonth(offset, n + 1) + delay <= now
  }

  /** A month is due exactly when every instant of its window is further back than the delay. */
  lemma DueIff(offset: int -> int, now: int, delay: int, n: int)
    requires Zone(offset)
    ensures IsDue(offset, now, delay, n) <==> forall t :: InMonthWindow(offset, t, n) ==> t < now - delay
  {
    LaterStart(offset, n, n + 1);
    assert InMonthWindow(offset, StartOfClientMonth(offset, n + 1) - 1, n);
  }

  /** A month the cycle is for: trace-bearing and never closed. */
  ghost predicate Wanted(offset: int -> int, traces: seq<int>, closed: set<int>, n: int) {
    n !in closed && HasTraces(offset, traces, n)
  }

  ghost predicate Increasing(s: seq<int>) {
    forall i, j :: 0 <= i < j < |s| ==> s[i] < s[j]
  }

  /** The close went through, here or by another door. */
  predicate Passes(close: int -> CloseOutcome, n: int) {
    close(n) == ClosedNow || close(n) == RefusedState
  }

  /** The attempts after which the walk went on. */
  function Behind(r: Report): seq<int> {
    if (r.halt.Blocked? || r.halt.Failed?) && |r.attempted| > 0 then r.attempted[..|r.attempted| - 1] else r.attempted
  }

  /** The walk has attempted exactly the wanted months of [first, upTo), oldest first, and every
      month it went past was billable, due and not reopened. */
  ghost predicate WalkedTo(offset: int -> int, traces: seq<int>, periods: seq<Period>, now: int, delay: int,
                           first: int, upTo: int, attempted: seq<int>)
  {
    && Increasing(attempted)
    && (forall n :: n in attempted <==> first <= n < upTo && Wanted(offset, traces, ClosedKeys(periods), n))
    && (forall n :: first <= n < upTo ==> IsBillable(n) && IsDue(offset, now, delay, n) && n !in OpenKeys(periods))
  }

  function Accepted(attempted: seq<int>, close: int -> CloseOutcome, outcome: CloseOutcome): seq<int> {
    if |attempted| == 0 then []
    else
      var front, last := Accepted(attempted[..|attempted| - 1], close, outcome), attempted[|attempted| - 1];
      if close(last) == outcome then front + [last] else front
  }

  /** The attempts whose close answered so, in the order they were made. */
  lemma {:induction false} AcceptedAre(attempted: seq<int>, close: int -> CloseOutcome, outcome: CloseOutcome)
    requires Increasing(attempted)
    ensures forall n :: n in Accepted(attempted, close, outcome) <==> n in attempted && close(n) == outcome
    ensures Increasing(Accepted(attempted, close, outcome))
  {
    if |attempted| > 0 {
      var front, last := attempted[..|attempted| - 1], attempted[|attempted| - 1];
      AcceptedAre(front, close, outcome);
      assert attempted == front + [last];
      var before := Accepted(front, close, outcome);
      forall i | 0 <= i < |before| ensures before[i] < last {
        assert before[i] in before;
        var j :| 0 <= j < |front| && front[j] == before[i];
      }
    }
  }

  /** What a report says when the walk stops at `stop`. */
  ghost predicate Stopped(offset: int -> int, traces: seq<int>, periods: seq<Period>, now: int, delay: int,
                          close: int -> CloseOutcome, first: int, stop: int, r: Report)
  {
    && first <= stop
    && WalkedTo(offset, traces, periods, now, delay, first, stop, Behind(r))
    && (forall n :: n in Behind(r) ==> Passes(close, n))
    && (r.halt.Blocked? || r.halt.Failed? ==>
          && r.attempted == Behind(r) + [stop]
          && Wanted(offset, traces, ClosedKeys(periods), stop)
          && IsDue(offset, now, delay, stop) && stop !in OpenKeys(periods))
    && (match r.halt
        case EmptyStore => false
        case NotYetDue(n) => n == stop && !IsDue(offset, now, delay, n)
        case ReopenedHold(n) => n == stop && IsDue(offset, now, delay, n) && n in OpenKeys(periods)
        case Blocked(n) => n == stop && close(n) == RefusedBlocked
        case Failed(n) => n == stop && close(n) == Threw
        case InvalidMonth(n) => n == stop && !IsBillable(n))
    && r.closed == Accepted(r.attempted, close, ClosedNow)
    && r.raced == Accepted(r.attempted, close, RefusedState)
  }

  lemma WalkOn(offset: int -> int, traces: seq<int>, periods: seq<Period>, now: int, delay: int,
               first: int, n: int, attempted: seq<int>)
    requires WalkedTo(offset, traces, periods, now, delay, first, n, attempted) && first <= n
    requires IsBillable(n) && IsDue(offset, now, delay, n) && n !in OpenKeys(periods)
    ensures Wanted(offset, traces, ClosedKeys(periods), n)
            ==> WalkedTo(offset, traces, periods, now, delay, first, n + 1, attempted + [n])
    ensures !Wanted(offset, traces, ClosedKeys(periods), n)
            ==> WalkedTo(offset, traces, periods, now, delay, first, n + 1, attempted)
  {
    if Wanted(offset, traces, ClosedKeys(periods), n) {
      var longer := attempted + [n];
      forall i, j | 0 <= i < j < |longer| ensures longer[i] < longer[j] {
        assert longer[i] in attempted;
      }
      assert forall m :: m in longer <==> m in attempted || m == n;
    }
  }

  /** A month past the guards: probed, and attempted if it is wanted. */
  method VisitMonth(offset: int -> int, traces: seq<int>, closedKeys: set<int>, close: int -> CloseOutcome, n: int,
                    r: Report)
    returns (next: Report)
    requires r.halt == EmptyStore && forall m :: m in r.attempted ==> Passes(close, m)
    requires r.closed == Accepted(r.attempted, close, ClosedNow)
             && r.raced == Accepted(r.attempted, close, RefusedState)
    ensures next.attempted == if Wanted(offset, traces, closedKeys, n) then r.attempted + [n] else r.attempted
    ensures next.closed == Accepted(next.attempted, close, ClosedNow)
            && next.raced == Accepted(next.attempted, close, RefusedState)
    ensures next.halt == EmptyStore ==> forall m :: m in next.attempted ==> Passes(close, m)
    ensures next.halt != EmptyStore ==>
              && Wanted(offset, traces, closedKeys, n) && Behind(next) == r.attempted
              && next.halt == (if close(n) == RefusedBlocked then Blocked(n) else Failed(n))
              && (close(n) == RefusedBlocked || close(n) == Threw)
  {
    next := r;
    if n in closedKeys {
      return;
    }
    var found := ProbeTraces(offset, traces, n);
    if found {
      next := Attempt(r, n, close);
    }
  }

  /** The walk stands before month `n`. */
  ghost predicate Walking(offset: int -> int, traces: seq<int>, periods: seq<Period>, now: int, delay: int,
                          close: int -> CloseOutcome, first: int, n: int, r: Report)
  {
    && first <= n && r.halt == EmptyStore
    && WalkedTo(offset, traces, periods, now, delay, first, n, r.attempted)
    && (forall m :: m in r.attempted ==> Passes(close, m))
    && r.closed == Accepted(r.attempted, close, ClosedNow)
    && r.raced == Accepted(r.attempted, close, RefusedState)
  }

  /** The body of the `for (;;)`; the halt is set when the walk stops at `n`. */
  method WalkMonth(offset: int -> int, traces: seq<int>, periods: seq<Period>, now: int, delay: int,
                   close: int -> CloseOutcome, ghost first: int, n: int, r: Report)
    returns (next: Report)
    requires Walking(offset, traces, periods, now, delay, close, first, n, r)
    ensures next.halt.EmptyStore? ==>
            Walking(offset, traces, periods, now, delay, close, first, n + 1, next) && IsBillable(n)
    ensures !next.halt.EmptyStore? ==>
              next.halt.month == n && Stopped(offset, traces, periods, now, delay, close, first, n, next)
  {
    if !IsBillable(n) {
      return r.(halt := InvalidMonth(n));
    }
    if !IsDue(offset, now, delay, n) {
      return r.(halt := NotYetDue(n));
    }
    if n in OpenKeys(periods) {
      return r.(halt := ReopenedHold(n));
    }
    WalkOn(offset, traces, periods, now, delay, first, n, r.attempted);
    next := VisitMonth(offset, traces, ClosedKeys(periods), close, n, r);
  }

  method RunCycle(offset: int -> int, traces: seq<int>, periods: seq<Period>, now: int, delay: int,
                  close: int -> CloseOutcome)
    returns (r: Report)
    ensures r.halt.EmptyStore? <==> traces == []
    ensures traces == [] ==> r == Report([], [], [], EmptyStore)
    ensures traces != [] ==>
              Stopped(offset, traces, periods, now, delay, close,
                      FirstMonth(offset, traces), r.halt.month, r)
  {
    r := Report([], [], [], EmptyStore);
    if |traces| == 0 {
      return;
    }
    var first := FirstMonth(offset, traces);
    var ym := MonthOf(first);
    r := WalkMonth(offset, traces, periods, now, delay, close, first, Ordinal(ym), r);
    while r.halt.EmptyStore?
      invariant Proper(ym) && r.halt.EmptyStore? ==> Ordinal(ym) < 120_000
      invariant r.halt.EmptyStore? ==> Walking(offset, traces, periods, now, delay, close, first, Ordinal(ym) + 1, r)
      invariant !r.halt.EmptyStore? ==> Stopped(offset, traces, periods, now, delay, close, first, r.halt.month, r)
      invariant Proper(ym)
      decreases 120_000 - Ordinal(ym), r.halt.EmptyStore?
    {
      ym := NextMonth(ym);
      r := WalkMonth(offset, traces, periods, now, delay, close, first, Ordinal(ym), r);
    }
  }

  /** One attempted close; the halt is set when the walk must stop. */
  method Attempt(r: Report, n: int, close: int -> CloseOutcome) returns (next: Report)
    requires r.closed == Accepted(r.attempted, close, ClosedNow)
             && r.raced == Accepted(r.attempted, close, RefusedState)
    requires r.halt == EmptyStore
    ensures next.attempted == r.attempted + [n]
    ensures next.closed == Accepted(next.attempted, close, ClosedNow)
    ensures next.raced == Accepted(next.attempted, close, RefusedState)
    ensures next.halt == if close(n) == RefusedBlocked then Blocked(n)
                         else if close(n) == Threw then Failed(n) else EmptyStore
  {
    next := r.(attempted := r.attempted + [n]);
    assert next.attempted[..|r.attempted|] == r.attempted;
    match close(n)
    case ClosedNow => next := next.(closed := r.closed + [n]);
    case RefusedState => next := next.(raced := r.raced + [n]);
    case RefusedBlocked => next := next.(halt := Blocked(n));
    case Threw => next := next.(halt := Failed(n));
  }

  function Members(s: seq<int>): set<int> {
    set n | n in s
  }

  /** The walk never trips the close-order guard, in any zone: when it attempts a month, the guard of
      that close, asked about the months closed before the cycle and the ones that have passed in it,
      can only answer that the close may go on. */
  lemma NeverTripsTheGuard(offset: int -> int, traces: seq<int>, periods: seq<Period>, now: int, delay: int,
                           close: int -> CloseOutcome, r: Report, i: nat, guard: Guard)
    requires traces != [] && !r.halt.EmptyStore? && i < |r.attempted|
    requires Stopped(offset, traces, periods, now, delay, close, FirstMonth(offset, traces), r.halt.month, r)
    requires GuardAnswers(offset, traces, ClosedKeys(periods) + Members(r.attempted[..i]), r.attempted[i], guard)
    ensures guard == Passed && forall n :: n in r.attempted[..i] ==> Passes(close, n)
  {
    var first, stop := FirstMonth(offset, traces), r.halt.month;
    var closed := ClosedKeys(periods) + Members(r.attempted[..i]);
    AttemptedUpToStop(Behind(r), r.attempted, stop, i);
    forall n | first <= n < r.attempted[i] ensures !Stops(offset, traces, closed, n) {
      if n !in ClosedKeys(periods) && HasTraces(offset, traces, n) {
        assert Wanted(offset, traces, ClosedKeys(periods), n);
        OlderAttemptedBefore(Behind(r), r.attempted, stop, n, i);
      }
    }
    forall n | n in r.attempted[..i] ensures n in Behind(r) {
      var k :| 0 <= k < i && r.attempted[k] == n;
      assert Behind(r)[k] == n;
    }
  }

  /** So when the earliest trace fits, every trace in the window of an older month then lies in a month
      that was closed already, or that this cycle or another door has closed since. */
  lemma OlderMonthsAreClosed(offset: int -> int, traces: seq<int>, periods: seq<Period>, now: int, delay: int,
                             close: int -> CloseOutcome, r: Report, i: nat)
    requires Zone(offset) && EarliestFits(offset, traces) && traces != [] && !r.halt.EmptyStore? && i < |r.attempted|
    requires Stopped(offset, traces, periods, now, delay, close, FirstMonth(offset, traces), r.halt.month, r)
    ensures OlderWindowsClosed(offset, traces, ClosedKeys(periods) + Members(r.attempted[..i]), r.attempted[i])
  {
    var closed := ClosedKeys(periods) + Members(r.attempted[..i]);
    forall n | n < r.attempted[i] ensures !HoldsBack(offset, traces, closed, n) {
      if n < FirstMonth(offset, traces) {
        NothingBefore(offset, traces, closed, n);
      } else if n !in ClosedKeys(periods) && HasTraces(offset, traces, n) {
        AttemptedUpToStop(Behind(r), r.attempted, r.halt.month, i);
        assert Wanted(offset, traces, ClosedKeys(periods), n);
        OlderAttemptedBefore(Behind(r), r.attempted, r.halt.month, n, i);
      }
    }
    OlderWindowsByMonth(offset, traces, closed, r.attempted[i]);
  }

  lemma AttemptedUpToStop(behind: seq<int>, attempted: seq<int>, stop: int, i: nat)
    requires (forall n :: n in behind ==> n < stop) && (attempted == behind || attempted == behind + [stop])
    requires i < |attempted|
    ensures attempted[i] <= stop
  {
    assert i < |behind| ==> behind[i] in behind;
  }

  lemma OlderAttemptedBefore(behind: seq<int>, attempted: seq<int>, stop: int, n: int, i: nat)
    requires Increasing(behind) && (attempted == behind || attempted == behind + [stop])
    requires i < |attempted| && n < attempted[i] && n in behind
    ensures n in attempted[..i]
  {
    var j :| 0 <= j < |behind| && behind[j] == n;
    assert j < i;
    assert attempted[..i][j] == n;
  }
}
