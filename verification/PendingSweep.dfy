/**
 * reprocess-pending-db-use-case.ts and sweep-pacing.ts: a keyset-paged walk over a queue that
 * shrinks under it, run in capped chunks that resume where the last one stopped.
 */
module PendingSweep {
  import opened Wrappers
  import opened Sums
  import opened StatementModel
  import opened Keyset

  const REPROCESS_PAGE_SIZE: int := 500

  datatype PendingTrace = PendingTrace(key: Cursor, model: Text)

  /** What the sweep does with a pending trace: its month is closed, a full stamp, prices still
      missing, or an error isolated to the trace. */
  datatype Fate = Blocked | Stamps | StaysPending | Throws

  /** The pending collection in its index order. */
  ghost predicate InOrder(queue: seq<PendingTrace>) {
    |queue| == 0 || (InOrder(queue[..|queue| - 1]) && AllBefore(queue[..|queue| - 1], queue[|queue| - 1].key))
  }

  ghost predicate AllBefore(queue: seq<PendingTrace>, key: Cursor) {
    forall x :: x in queue ==> Before(x.key, key)
  }

  /** The queue a walk sees: what the filter keeps, strictly past the cursor. */
  function Visit(queue: seq<PendingTrace>, keep: PendingTrace -> bool, after: Option<Cursor>): seq<PendingTrace> {
    Filter(queue, Awaits(keep, after))
  }

  function Awaits(keep: PendingTrace -> bool, after: Option<Cursor>): PendingTrace -> bool {
    (x: PendingTrace) => keep(x) && Past(after, x.key)
  }

  function Take(s: seq<PendingTrace>, cap: int): (r: seq<PendingTrace>) {
    if cap <= 0 then [] else if cap >= |s| then s else s[..cap]
  }

  /** The traces of `page` that get stamped. */
  function Gone(page: seq<PendingTrace>, fate: PendingTrace -> Fate): set<PendingTrace> {
    set x | x in page && fate(x) == Stamps
  }

  function Remaining(queue: seq<PendingTrace>, gone: set<PendingTrace>): seq<PendingTrace> {
    Filter(queue, Outside(gone))
  }

  function Outside(gone: set<PendingTrace>): PendingTrace -> bool {
    (x: PendingTrace) => x !in gone
  }

  /** The queue without the traces `page` stamped. */
  function Without(queue: seq<PendingTrace>, page: seq<PendingTrace>, fate: PendingTrace -> Fate): seq<PendingTrace> {
    Remaining(queue, Gone(page, fate))
  }

  function CountOf(page: seq<PendingTrace>, fate: PendingTrace -> Fate, f: Fate): nat {
    if |page| == 0 then 0
    else CountOf(page[..|page| - 1], fate, f) + if fate(page[|page| - 1]) == f then 1 else 0
  }

  datatype Report = Report(
    examined: nat, stamped: nat, stillPending: nat, failed: nat, blockedClosedMonth: nat,
    pendingRemaining: nat, resumeAfter: Option<Cursor>)

  /** The report of a run that examined exactly `page`. */
  function ReportOf(page: seq<PendingTrace>, fate: PendingTrace -> Fate): Report {
    Report(|page|, CountOf(page, fate, Stamps), CountOf(page, fate, StaysPending), CountOf(page, fate, Throws),
           CountOf(page, fate, Blocked), 0, None)
  }

  /** The reports of two runs together: counts add up, and the later one says where things stand. */
  function Together(a: Report, b: Report): Report {
    Report(a.examined + b.examined, a.stamped + b.stamped, a.stillPending + b.stillPending, a.failed + b.failed,
           a.blockedClosedMonth + b.blockedClosedMonth, b.pendingRemaining, b.resumeAfter)
  }

  /** The counters of `r` are those of a run that examined exactly `page`. */
  predicate Counts(r: Report, page: seq<PendingTrace>, fate: PendingTrace -> Fate) {
    r == ReportOf(page, fate).(pendingRemaining := r.pendingRemaining, resumeAfter := r.resumeAfter)
  }

  lemma {:induction false} CountConcat(p: seq<PendingTrace>, q: seq<PendingTrace>, fate: PendingTrace -> Fate, f: Fate)
    ensures CountOf(p + q, fate, f) == CountOf(p, fate, f) + CountOf(q, fate, f)
  {
    if |q| == 0 {
      assert p + q == p;
    } else {
      CountConcat(p, q[..|q| - 1], fate, f);
      assert (p + q)[..|p + q| - 1] == p + q[..|q| - 1];
    }
  }

  /** Where on the page a fate falls. */
  function Positions(page: seq<PendingTrace>, fate: PendingTrace -> Fate, f: Fate): set<nat> {
    set i: nat | i < |page| && fate(page[i]) == f
  }

  lemma {:induction false} CountIsPositions(page: seq<PendingTrace>, fate: PendingTrace -> Fate, f: Fate)
    ensures CountOf(page, fate, f) == |Positions(page, fate, f)|
  {
    if |page| > 0 {
      var n := |page| - 1;
      CountIsPositions(page[..n], fate, f);
      var earlier := Positions(page[..n], fate, f);
      if fate(page[n]) == f {
        assert Positions(page, fate, f) == earlier + {n} && n !in earlier;
      } else {
        assert Positions(page, fate, f) == earlier;
      }
    }
  }

  /** What the counters of a run say: how many of the examined traces met each fate. */
  lemma CountersMean(r: Report, page: seq<PendingTrace>, fate: PendingTrace -> Fate)
    ensures Counts(r, page, fate)
            <==> && r.examined == |page|
                 && r.stamped == |Positions(page, fate, Stamps)|
                 && r.stillPending == |Positions(page, fate, StaysPending)|
                 && r.failed == |Positions(page, fate, Throws)|
                 && r.blockedClosedMonth == |Positions(page, fate, Blocked)|
  {
    CountIsPositions(page, fate, Stamps);
    CountIsPositions(page, fate, StaysPending);
    CountIsPositions(page, fate, Throws);
    CountIsPositions(page, fate, Blocked);
  }

  lemma CountsTogether(a: Report, b: Report, p: seq<PendingTrace>, q: seq<PendingTrace>, fate: PendingTrace -> Fate)
    requires Counts(a, p, fate) && Counts(b, q, fate)
    ensures Counts(Together(a, b), p + q, fate)
  {
    CountConcat(p, q, fate, Stamps);
    CountConcat(p, q, fate, StaysPending);
    CountConcat(p, q, fate, Throws);
    CountConcat(p, q, fate, Blocked);
  }

  // ---------------------------------------------------------------- the walk

  lemma {:induction false} VisitMembers(queue: seq<PendingTrace>, keep: PendingTrace -> bool, after: Option<Cursor>)
    requires InOrder(queue)
    ensures InOrder(Visit(queue, keep, after))
    ensures forall x :: x in Visit(queue, keep, after) <==> x in queue && keep(x) && Past(after, x.key)
  {
    if |queue| > 0 {
      var front, last := queue[..|queue| - 1], queue[|queue| - 1];
      VisitMembers(front, keep, after);
      assert queue == front + [last];
      var seen := Visit(front, keep, after);
      assert (seen + [last])[..|seen|] == seen;
    }
  }

  /** Walking on from a later cursor is walking what the earlier cursor left ahead. */
  lemma {:induction false} VisitFurther(queue: seq<PendingTrace>, keep: PendingTrace -> bool, after: Option<Cursor>,
                                        further: Cursor)
    requires NotBehind(Some(further), after)
    ensures Visit(queue, keep, Some(further)) == Visit(Visit(queue, keep, after), keep, Some(further))
  {
    if |queue| > 0 {
      var front, last := queue[..|queue| - 1], queue[|queue| - 1];
      VisitFurther(front, keep, after, further);
      if after.Some? {
        BeforeFacts(after.value, further, last.key);
      }
      var seen := Visit(front, keep, after);
      assert (seen + [last])[..|seen|] == seen;
    }
  }

  lemma {:induction false} VisitRest(walk: seq<PendingTrace>, keep: PendingTrace -> bool, n: nat)
    requires InOrder(walk) && (forall x :: x in walk ==> keep(x)) && 0 < n <= |walk|
    ensures Visit(walk, keep, Some(walk[n - 1].key)) == walk[n..]
    ensures forall x :: x in walk[..n] ==> !Before(walk[n - 1].key, x.key)
  {
    var front, last := walk[..|walk| - 1], walk[|walk| - 1];
    assert forall x :: x in front ==> x in walk;
    assert last in walk;
    if n < |walk| {
      VisitRest(front, keep, n);
      assert front[..n] == walk[..n] && front[n - 1] == walk[n - 1];
      assert walk[n - 1] in front;
      assert front[n..] + [last] == walk[n..];
    } else {
      BeforeFacts(last.key, last.key, last.key);
      forall x | x in front ensures !Before(last.key, x.key) {
        BeforeFacts(x.key, last.key, last.key);
      }
      assert walk[..n] == front + [last];
      NothingPast(front, keep, last.key);
    }
  }

  lemma {:induction false} NothingPast(queue: seq<PendingTrace>, keep: PendingTrace -> bool, at: Cursor)
    requires forall x :: x in queue ==> !Before(at, x.key)
    ensures Visit(queue, keep, Some(at)) == []
  {
    if |queue| > 0 {
      assert queue[|queue| - 1] in queue;
      NothingPast(queue[..|queue| - 1], keep, at);
    }
  }

  /** Removing traces at or before the cursor changes nothing ahead of it. */
  lemma {:induction false} RemovalBehind(queue: seq<PendingTrace>, gone: set<PendingTrace>, keep: PendingTrace -> bool,
                                         at: Cursor)
    requires forall x :: x in gone ==> !Before(at, x.key)
    ensures Visit(Remaining(queue, gone), keep, Some(at)) == Visit(queue, keep, Some(at))
  {
    if |queue| > 0 {
      var front, last := queue[..|queue| - 1], queue[|queue| - 1];
      RemovalBehind(front, gone, keep, at);
      var rest := Remaining(front, gone);
      assert (rest + [last])[..|rest|] == rest;
    }
  }

  lemma {:induction false} RemainingTwice(queue: seq<PendingTrace>, p: set<PendingTrace>, q: set<PendingTrace>)
    ensures Remaining(Remaining(queue, p), q) == Remaining(queue, p + q)
  {
    if |queue| > 0 {
      var front, last := queue[..|queue| - 1], queue[|queue| - 1];
      RemainingTwice(front, p, q);
      var rest := Remaining(front, p);
      assert (rest + [last])[..|rest|] == rest;
    }
  }

  lemma WithoutTwice(queue: seq<PendingTrace>, p: seq<PendingTrace>, q: seq<PendingTrace>, fate: PendingTrace -> Fate)
    ensures Without(Without(queue, p, fate), q, fate) == Without(queue, p + q, fate)
  {
    RemainingTwice(queue, Gone(p, fate), Gone(q, fate));
    assert Gone(p + q, fate) == Gone(p, fate) + Gone(q, fate);
  }

  lemma {:induction false} RemainingInOrder(queue: seq<PendingTrace>, gone: set<PendingTrace>)
    requires InOrder(queue)
    ensures InOrder(Remaining(queue, gone))
    ensures forall x :: x in Remaining(queue, gone) <==> x in queue && x !in gone
  {
    if |queue| > 0 {
      var front, last := queue[..|queue| - 1], queue[|queue| - 1];
      RemainingInOrder(front, gone);
      assert queue == front + [last];
      var rest := Remaining(front, gone);
      assert (rest + [last])[..|rest|] == rest;
    }
  }

  lemma {:induction false} RemainingAll(queue: seq<PendingTrace>, gone: set<PendingTrace>)
    requires gone == {}
    ensures Remaining(queue, gone) == queue
  {
    if |queue| > 0 {
      RemainingAll(queue[..|queue| - 1], gone);
    }
  }

  lemma WithoutNothing(queue: seq<PendingTrace>, fate: PendingTrace -> Fate)
    ensures Without(queue, [], fate) == queue
  {
    RemainingAll(queue, Gone([], fate));
  }

  /** The heart of the sweep: after `n` traces of a walk, with the stamped ones gone from the
      queue, walking on from the n-th trace's key visits exactly the rest. */
  lemma WalkOn(queue: seq<PendingTrace>, keep: PendingTrace -> bool, after: Option<Cursor>, fate: PendingTrace -> Fate,
               n: nat)
    requires InOrder(queue) && 0 < n <= |Visit(queue, keep, after)|
    ensures var walk := Visit(queue, keep, after);
            Visit(Without(queue, walk[..n], fate), keep, Some(walk[n - 1].key)) == walk[n..]
  {
    var walk := Visit(queue, keep, after);
    var at := walk[n - 1].key;
    VisitMembers(queue, keep, after);
    assert walk[n - 1] in walk;
    VisitFurther(queue, keep, after, at);
    VisitRest(walk, keep, n);
    RemovalBehind(queue, Gone(walk[..n], fate), keep, at);
  }

  /** Every examined trace has exactly one outcome. */
  lemma {:induction false} OutcomesAddUp(page: seq<PendingTrace>, fate: PendingTrace -> Fate)
    ensures CountOf(page, fate, Stamps) + CountOf(page, fate, StaysPending) + CountOf(page, fate, Throws)
            + CountOf(page, fate, Blocked) == |page|
  {
    if |page| > 0 {
      OutcomesAddUp(page[..|page| - 1], fate);
    }
  }

  /** A run begun on `queue0` has walked the first `n` traces of `walk` and left `queue`. */
  ghost predicate Walked(queue: seq<PendingTrace>, queue0: seq<PendingTrace>, walk: seq<PendingTrace>,
                         keep: PendingTrace -> bool,
                         fate: PendingTrace -> Fate, after: Option<Cursor>, n: nat, cursor: Option<Cursor>)
  {
    && n <= |walk|
    && queue == Without(queue0, walk[..n], fate)
    && cursor == (if n == 0 then after else Some(walk[n - 1].key))
    && Visit(queue, keep, cursor) == walk[n..]
  }

  // ---------------------------------------------------------------- one capped run

  class PendingStore {
    var queue: seq<PendingTrace>
    /** Every trace examined so far, in the order in which it was. */
    ghost var trail: seq<PendingTrace>

    ghost predicate Valid()
      reads this
    {
      InOrder(queue)
    }

    constructor (queue: seq<PendingTrace>)
      requires InOrder(queue)
      ensures this.queue == queue && trail == []
    {
      this.queue, trail := queue, [];
    }

    /** `findPendingPrice`: a page of the queue strictly past the cursor. */
    method FindPendingPrice(limit: int, after: Option<Cursor>, keep: PendingTrace -> bool)
      returns (page: seq<PendingTrace>)
      requires limit > 0
      ensures page == Take(Visit(queue, keep, after), limit)
    {
      page := Take(Visit(queue, keep, after), limit);
    }

    /** One trace of a page: stamped traces leave the queue. */
    method ReprocessTrace(trace: PendingTrace, fate: PendingTrace -> Fate, report: Report) returns (r: Report)
      modifies this
      ensures r == Counted(report, fate(trace))
      ensures queue == Without(old(queue), [trace], fate) && trail == old(trail) + [trace]
    {
      trail := trail + [trace];
      match fate(trace) {
        case Blocked => r := report.(blockedClosedMonth := report.blockedClosedMonth + 1);
        case Stamps =>
          queue := Without(queue, [trace], fate);
          r := report.(stamped := report.stamped + 1);
        case StaysPending => r := report.(stillPending := report.stillPending + 1);
        case Throws => r := report.(failed := report.failed + 1);
      }
      if fate(trace) != Stamps {
        NothingStamped(queue, trace, fate);
      }
    }

    /** `reprocessPage`. */
    method ReprocessPage(page: seq<PendingTrace>, fate: PendingTrace -> Fate, report: Report,
                         ghost seen: seq<PendingTrace>)
      returns (r: Report)
      requires report == ReportOf(seen, fate)
      modifies this
      ensures r == ReportOf(seen + page, fate)
      ensures queue == Without(old(queue), page, fate) && trail == old(trail) + page
    {
      r := report.(examined := report.examined + |page|);
      assert seen + page[..0] == seen;
      WithoutNothing(queue, fate);
      for n := 0 to |page|
        invariant r == ReportOf(seen + page[..n], fate).(examined := |seen| + |page|)
        invariant queue == Without(old(queue), page[..n], fate) && trail == old(trail) + page[..n]
      {
        PageStep(seen, page, n, fate);
        WithoutTwice(old(queue), page[..n], [page[n]], fate);
        r := ReprocessTrace(page[n], fate, r);
      }
      assert page[..|page|] == page;
    }

    /** A run begun on `queue0` has examined the first `n` traces of its walk. */
    ghost predicate Running(queue0: seq<PendingTrace>, walk: seq<PendingTrace>, trail0: seq<PendingTrace>,
                            keep: PendingTrace -> bool,
                            fate: PendingTrace -> Fate, after: Option<Cursor>, n: nat, cursor: Option<Cursor>,
                            r: Report)
      reads this
    {
      && Walked(queue, queue0, walk, keep, fate, after, n, cursor)
      && trail == trail0 + walk[..n] && r == ReportOf(walk[..n], fate)
    }

    /** One round of the loop: a page read past the cursor and worked through. */
    method NextPage(pageSize: int, cursor: Option<Cursor>, keep: PendingTrace -> bool, fate: PendingTrace -> Fate,
                    report: Report,
                    ghost queue0: seq<PendingTrace>, ghost walk: seq<PendingTrace>, ghost trail0: seq<PendingTrace>,
                    ghost after: Option<Cursor>, ghost n: nat)
      returns (read: nat, cursor': Option<Cursor>, r: Report)
      requires InOrder(queue0) && walk == Visit(queue0, keep, after) && pageSize > 0
      requires Running(queue0, walk, trail0, keep, fate, after, n, cursor, report)
      modifies this
      ensures n + read <= |walk| && read <= pageSize && (read < pageSize ==> n + read == |walk|)
      ensures Running(queue0, walk, trail0, keep, fate, after, n + read, cursor', r)
    {
      var page := FindPendingPrice(pageSize, cursor, keep);
      TakenSlice(walk, n, pageSize);
      if |page| == 0 {
        return 0, cursor, report;
      }
      read := |page|;
      cursor', r := WorkPage(page, keep, fate, report, queue0, walk, trail0, after, n, n + read, cursor);
    }

    /** The page from the `n`-th trace of the walk to the `m`-th; the cursor moves to its last trace. */
    method WorkPage(page: seq<PendingTrace>, ghost keep: PendingTrace -> bool, fate: PendingTrace -> Fate,
                    report: Report,
                    ghost queue0: seq<PendingTrace>, ghost walk: seq<PendingTrace>, ghost trail0: seq<PendingTrace>,
                    ghost after: Option<Cursor>, ghost n: nat, ghost m: nat, ghost cursor: Option<Cursor>)
      returns (cursor': Option<Cursor>, r: Report)
      requires InOrder(queue0) && walk == Visit(queue0, keep, after) && n < m <= |walk| && page == walk[n..m]
      requires Running(queue0, walk, trail0, keep, fate, after, n, cursor, report)
      modifies this
      ensures Running(queue0, walk, trail0, keep, fate, after, m, cursor', r)
    {
      PageWalked(queue0, walk, keep, fate, after, n, m);
      Appended(trail0, walk, n, m);
      r := ReprocessPage(page, fate, report, walk[..n]);
      cursor' := Some(page[|page| - 1].key);
    }

    /** `reprocess`: walks at most `cap` traces of the filtered queue past `after`. */
    method Reprocess(cap: Option<int>, after: Option<Cursor>, keep: PendingTrace -> bool, fate: PendingTrace -> Fate)
      returns (r: Report)
      requires Valid()
      modifies this
      ensures Valid()
      ensures var walk := Visit(old(queue), keep, after);
              && trail == old(trail) + Examined(walk, cap)
              && queue == Without(old(queue), Examined(walk, cap), fate)
              && r == ReportOf(Examined(walk, cap), fate).(
                        pendingRemaining := |queue|, resumeAfter := ResumeAfter(walk, cap, after))
    {
      ghost var queue0, walk, trail0, n := queue, Visit(queue, keep, after), trail, 0;
      var cursor, reachedEnd := after, false;
      r := Report(0, 0, 0, 0, 0, 0, None);
      WithoutNothing(queue, fate);
      while !reachedEnd && (cap.None? || r.examined < cap.value)
        invariant Running(queue0, walk, trail0, keep, fate, after, n, cursor, r)
        invariant cap.Some? ==> n <= Floor0(cap.value)
        invariant reachedEnd ==> n == |walk| && (cap.None? || n < cap.value)
        decreases |walk| - n, if reachedEnd then 0 else 1
      {
        var pageSize := if cap.None? || REPROCESS_PAGE_SIZE <= cap.value - r.examined
                        then REPROCESS_PAGE_SIZE else cap.value - r.examined;
        var read;
        read, cursor, r := NextPage(pageSize, cursor, keep, fate, r, queue0, walk, trail0, after, n);
        n := n + read;
        reachedEnd := read < pageSize;
      }
      RunEnds(walk, cap, after, n, cursor, reachedEnd);
      RemainingInOrder(queue0, Gone(walk[..n], fate));
      r := r.(pendingRemaining := |queue|, resumeAfter := if reachedEnd then None else cursor);
    }
  }

  /** One more trace under its outcome. */
  function Counted(r: Report, f: Fate): Report {
    match f
    case Blocked => r.(blockedClosedMonth := r.blockedClosedMonth + 1)
    case Stamps => r.(stamped := r.stamped + 1)
    case StaysPending => r.(stillPending := r.stillPending + 1)
    case Throws => r.(failed := r.failed + 1)
  }

  lemma PageStep(seen: seq<PendingTrace>, page: seq<PendingTrace>, n: nat, fate: PendingTrace -> Fate)
    requires n < |page|
    ensures page[..n + 1] == page[..n] + [page[n]]
    ensures forall k: nat :: ReportOf(seen + page[..n + 1], fate).(examined := k)
                          == Counted(ReportOf(seen + page[..n], fate).(examined := k), fate(page[n]))
  {
    assert (seen + page[..n + 1])[..|seen| + n] == seen + page[..n];
  }

  /** What is taken of a walk past its first `n` traces is a slice of it. */
  lemma TakenSlice(walk: seq<PendingTrace>, n: nat, cap: int)
    requires n <= |walk|
    ensures var m := n + |Take(walk[n..], cap)|;
            && m <= |walk| && Take(walk[n..], cap) == walk[n..m] && walk[..n] + walk[n..m] == walk[..m]
            && m - n <= Floor0(cap) && (m - n < cap ==> m == |walk|)
  {}

  /** Working through the traces from the `n`-th to the `m`-th leaves the walk at the `m`-th. */
  lemma PageWalked(queue0: seq<PendingTrace>, walk: seq<PendingTrace>, keep: PendingTrace -> bool,
                   fate: PendingTrace -> Fate, after: Option<Cursor>, n: nat, m: nat)
    requires InOrder(queue0) && walk == Visit(queue0, keep, after) && n < m <= |walk|
    ensures Without(Without(queue0, walk[..n], fate), walk[n..m], fate) == Without(queue0, walk[..m], fate)
    ensures Visit(Without(queue0, walk[..m], fate), keep, Some(walk[m - 1].key)) == walk[m..]
  {
    assert walk[..n] + walk[n..m] == walk[..m];
    WithoutTwice(queue0, walk[..n], walk[n..m], fate);
    WalkOn(queue0, keep, after, fate, m);
  }

  lemma RunEnds(walk: seq<PendingTrace>, cap: Option<int>, after: Option<Cursor>, n: nat, cursor: Option<Cursor>,
                reachedEnd: bool)
    requires n <= |walk| && (cap.Some? ==> n <= Floor0(cap.value))
    requires if reachedEnd then n == |walk| && (cap.None? || n < cap.value) else cap.Some? && n >= cap.value
    requires cursor == if n == 0 then after else Some(walk[n - 1].key)
    ensures walk[..n] == Examined(walk, cap)
    ensures (if reachedEnd then None else cursor) == ResumeAfter(walk, cap, after)
  {
    assert walk[..|walk|] == walk;
  }

  function Floor0(x: int): nat { if x < 0 then 0 else x }

  /** The traces a run examines: its walk, up to the cap. */
  function Examined(walk: seq<PendingTrace>, cap: Option<int>): seq<PendingTrace> {
    if cap.None? then walk else Take(walk, cap.value)
  }

  lemma NothingStamped(queue: seq<PendingTrace>, trace: PendingTrace, fate: PendingTrace -> Fate)
    requires fate(trace) != Stamps
    ensures Without(queue, [trace], fate) == queue
  {
    RemainingAll(queue, Gone([trace], fate));
  }

  /** Where a run hands over: nothing when it reached the end of the queue. */
  function ResumeAfter(walk: seq<PendingTrace>, cap: Option<int>, after: Option<Cursor>): Option<Cursor> {
    if cap.None? || |walk| < cap.value then None
    else if cap.value <= 0 then after
    else Some(walk[cap.value - 1].key)
  }

  // ---------------------------------------------------------------- pacing

  /** `cursor` is where the open round stopped; none when no round is open. */
  datatype SweepState = SweepState(cursor: Option<Cursor>, lastRoundEndedAt: int)

  datatype SweepAction = Skip | RunChunk(after: Option<Cursor>)

  function NextSweepAction(state: SweepState, now: int, interval: int): SweepAction {
    if state.cursor.Some? then RunChunk(state.cursor)
    else if now - state.lastRoundEndedAt >= interval then RunChunk(None)
    else Skip
  }

  function AfterSweepChunk(resumeAfter: Option<Cursor>, now: int, previous: SweepState): SweepState {
    if resumeAfter.Some? then SweepState(resumeAfter, previous.lastRoundEndedAt) else SweepState(None, now)
  }

  predicate HasModel(t: PendingTrace) {
    t.model.Some?
  }

  /** `runSweepCycle`: at most one capped chunk; a round opens only once the interval has passed,
      goes on from its own cursor, and ends when a chunk runs out of queue. */
  method RunSweepCycle(store: PendingStore, state: SweepState, startedAt: int, endedAt: int, interval: int, cap: int,
                       fate: PendingTrace -> Fate)
    returns (state': SweepState, report: Option<Report>)
    requires store.Valid()
    modifies store
    ensures store.Valid()
    ensures report.None? <==> state.cursor.None? && startedAt - state.lastRoundEndedAt < interval
    ensures report.None? ==> state' == state && store.queue == old(store.queue) && store.trail == old(store.trail)
    ensures report.Some? ==>
              var walk := Visit(old(store.queue), HasModel, state.cursor);
              && store.trail == old(store.trail) + Take(walk, cap)
              && store.queue == Without(old(store.queue), Take(walk, cap), fate)
              && report.value ==
                   ReportOf(Take(walk, cap), fate).(
                     pendingRemaining := |store.queue|, resumeAfter := ResumeAfter(walk, Some(cap), state.cursor))
              && state' == AfterSweepChunk(report.value.resumeAfter, endedAt, state)
  {
    var action := NextSweepAction(state, startedAt, interval);
    if action.Skip? {
      return state, None;
    }
    var r := store.Reprocess(Some(cap), action.after, HasModel, fate);
    return AfterSweepChunk(r.resumeAfter, endedAt, state), Some(r);
  }

  /** What a chunk from the n-th trace to the m-th leaves: the queue without the stamped ones of the
      first `m`, and a walk that goes on from the m-th. */
  lemma ChunkDone(queue0: seq<PendingTrace>, walk: seq<PendingTrace>, fate: PendingTrace -> Fate, n: nat, m: nat)
    requires InOrder(queue0) && walk == Visit(queue0, HasModel, None) && n <= m <= |walk|
    ensures Without(Without(queue0, walk[..n], fate), walk[n..m], fate) == Without(queue0, walk[..m], fate)
    ensures n < m ==>
            Walked(Without(queue0, walk[..m], fate), queue0, walk, HasModel, fate, None, m, Some(walk[m - 1].key))
  {
    if n < m {
      PageWalked(queue0, walk, HasModel, fate, None, n, m);
    } else {
      assert walk[n..m] == [];
      WithoutNothing(Without(queue0, walk[..n], fate), fate);
    }
  }

  /** Where a chunk of the slice hands over. */
  lemma ChunkResumes(walk: seq<PendingTrace>, n: nat, m: nat, cap: int, after: Option<Cursor>)
    requires n <= |walk| && m == n + |Take(walk[n..], cap)| && cap > 0
    ensures m - n < cap ==> ResumeAfter(walk[n..], Some(cap), after) == None
    ensures m - n >= cap ==> n < m <= |walk| && ResumeAfter(walk[n..], Some(cap), after) == Some(walk[m - 1].key)
  {}

  /** A round begun on `queue0` has examined the first `n` traces of `walk`, each once and in order,
      and counted them in `total`; it stands after them, or has ended with the last. */
  ghost predicate InRound(store: PendingStore, queue0: seq<PendingTrace>, walk: seq<PendingTrace>,
                          fate: PendingTrace -> Fate,
                          trail0: seq<PendingTrace>, state: SweepState, n: nat, total: Report)
    reads store
  {
    && n <= |walk| && store.Valid()
    && store.trail == trail0 + walk[..n] && Counts(total, walk[..n], fate)
    && if state.cursor.Some? then Walked(store.queue, queue0, walk, HasModel, fate, None, n, state.cursor)
       else n == |walk| && store.queue == Without(queue0, walk, fate)
            && total.pendingRemaining == |store.queue| && total.resumeAfter.None?
  }

  lemma Appended(trail0: seq<PendingTrace>, walk: seq<PendingTrace>, n: nat, m: nat)
    requires n <= m <= |walk|
    ensures walk[..n] + walk[n..m] == walk[..m] && trail0 + walk[..n] + walk[n..m] == trail0 + walk[..m]
  {
    assert walk[..n] + walk[n..m] == walk[..m];
  }

  /** One cycle of an open round, or the cycle that opens it. */
  method NextChunk(store: PendingStore, state: SweepState, now: int, interval: int, cap: int,
                   fate: PendingTrace -> Fate, total: Report,
                   ghost queue0: seq<PendingTrace>, ghost walk: seq<PendingTrace>, ghost trail0: seq<PendingTrace>,
                   ghost n: nat)
    returns (state': SweepState, total': Report, ghost m: nat)
    requires store.Valid() && InOrder(queue0) && walk == Visit(queue0, HasModel, None) && cap > 0
    requires Walked(store.queue, queue0, walk, HasModel, fate, None, n, state.cursor)
    requires store.trail == trail0 + walk[..n] && Counts(total, walk[..n], fate)
    requires state.cursor.None? ==> now - state.lastRoundEndedAt >= interval
    modifies store
    ensures InRound(store, queue0, walk, fate, trail0, state', m, total')
    ensures state'.cursor.None? ==> state' == SweepState(None, now)
    ensures state'.cursor.Some? ==> n < m
  {
    var report;
    state', report := RunSweepCycle(store, state, now, now, interval, cap, fate);
    total', m := Together(total, report.value), n + |Take(walk[n..], cap)|;
    TakenSlice(walk, n, cap);
    ChunkDone(queue0, walk, fate, n, m);
    ChunkResumes(walk, n, m, cap, state.cursor);
    Appended(trail0, walk, n, m);
    CountsTogether(total, report.value, walk[..n], walk[n..m], fate);
    assert walk[..|walk|] == walk;
  }

  /** The rest of an open round, chunk by chunk, from its `n`-th trace and its `cycle`-th cycle on. */
  method FinishRound(store: PendingStore, state: SweepState, clock: nat -> int, interval: int, cap: int,
                     fate: PendingTrace -> Fate, total: Report, cycle: nat,
                     ghost queue0: seq<PendingTrace>, ghost walk: seq<PendingTrace>, ghost trail0: seq<PendingTrace>,
                     ghost n: nat)
    returns (state': SweepState, total': Report, cycles: nat)
    requires InOrder(queue0) && walk == Visit(queue0, HasModel, None) && cap > 0
    requires state.cursor.Some? && InRound(store, queue0, walk, fate, trail0, state, n, total)
    modifies store
    ensures InRound(store, queue0, walk, fate, trail0, state', |walk|, total')
    ensures cycles > cycle && state' == SweepState(None, clock(cycles - 1))
  {
    ghost var m := n;
    state', total', cycles := state, total, cycle;
    while state'.cursor.Some?
      invariant InRound(store, queue0, walk, fate, trail0, state', m, total') && cycles >= cycle
      invariant state'.cursor.None? ==> cycles > cycle && state' == SweepState(None, clock(cycles - 1))
      decreases |walk| - m, state'.cursor.Some?
    {
      state', total', m :=
        NextChunk(store, state', clock(cycles), interval, cap, fate, total', queue0, walk, trail0, m);
      cycles := cycles + 1;
    }
  }

  /** A round of capped chunks, one per cycle: it ends, it examines the model-bearing queue exactly
      once from oldest to newest, and it leaves the queue, and reports in total, what one uncapped
      run would. */
  method RunRound(store: PendingStore, state: SweepState, clock: nat -> int, interval: int, cap: int,
                  fate: PendingTrace -> Fate)
    returns (state': SweepState, total: Report, cycles: nat)
    requires store.Valid() && cap > 0
    requires state.cursor.None? && clock(0) - state.lastRoundEndedAt >= interval
    modifies store
    ensures var walk := Visit(old(store.queue), HasModel, None);
            && store.trail == old(store.trail) + walk
            && store.queue == Without(old(store.queue), walk, fate)
            && total == ReportOf(walk, fate).(pendingRemaining := |store.queue|, resumeAfter := None)
    ensures cycles > 0 && state' == SweepState(None, clock(cycles - 1))
  {
    ghost var queue0, walk, trail0, n := store.queue, Visit(store.queue, HasModel, None), store.trail, 0;
    WithoutNothing(queue0, fate);
    var none := Report(0, 0, 0, 0, 0, 0, None);
    state', total, n := NextChunk(store, state, clock(0), interval, cap, fate, none, queue0, walk, trail0, 0);
    cycles := 1;
    if state'.cursor.Some? {
      state', total, cycles :=
        FinishRound(store, state', clock, interval, cap, fate, total, cycles, queue0, walk, trail0, n);
    }
    assert walk[..|walk|] == walk;
  }
}
