/** The lifecycle of one billing month as a transition system (billing-test-fakes.ts,
    trace-repository.ts, close-billing-period-db-use-case.ts). */
module Lifecycle {
  import opened Wrappers

  /* Ingest, pending stamps, closes that read the month page by page and commit, reopens and
     post-close reconciliations: any number of each interleaved, with crashes between any two steps. */

  // ---------------------------------------------------------------- the stored month

  datatype Pricing = Stamped(cost: nat) | Pending | NoMeasuredUsage

  /** `billingQuarantine`: absent, or present and not yet or already absorbed by a version. */
  datatype Quarantine = Clear | Flagged | Absorbed(version: nat)

  /** `page` is the close page its start date falls in. */
  datatype Trace = Trace(page: nat, pricing: Pricing, quarantine: Quarantine)

  type Traces = map<string, Trace>

  datatype AuditEntry = CloseEntry(version: nat) | ReopenEntry(version: nat)

  datatype Period = Period(closed: bool, version: nat, audit: seq<AuditEntry>)

  /** What a snapshot bills: its trace ids with their costs. */
  type Billed = map<string, nat>

  /** One close attempt: at rest, past the period read, past the pending guard, reading pages
      (`present` were stamped when it began to), or reconciling. */
  datatype Closer =
    | Resting
    | Found(periodVersion: nat)
    | Checked(periodVersion: nat)
    | Reading(version: nat, next: nat, billed: Billed, present: set<string>)
    | Flagging(version: nat, ids: set<string>)
    | Absorbing(version: nat, ids: set<string>, known: set<string>)

  datatype Reopener = Asleep | Saw(version: nat)

  datatype State = State(
    traces: Traces, period: Option<Period>, headers: map<nat, Billed>,
    closers: seq<Closer>, reopeners: seq<Reopener>)

  // ---------------------------------------------------------------- store operations

  /** `markClosed`: refused while closed. */
  function MarkClosed(p: Option<Period>, version: nat): Option<Period> {
    if p.Some? && p.value.closed then None
    else Some(Period(true, version, (if p.Some? then p.value.audit else []) + [CloseEntry(version)]))
  }

  /** `markReopened`: refused unless closed. */
  function MarkReopened(p: Option<Period>, version: nat): Option<Period> {
    if p.None? || !p.value.closed then None
    else Some(p.value.(closed := false, audit := p.value.audit + [ReopenEntry(version)]))
  }

  /** `insertWithPeriodCloseStaged`: header and flip together, or nothing. */
  function PublishClose(p: Option<Period>, headers: map<nat, Billed>, version: nat, billed: Billed)
    : Option<(Period, map<nat, Billed>)>
  {
    if version in headers then None
    else
      var closed := MarkClosed(p, version);
      if closed.None? then None else Some((closed.value, headers[version := billed]))
  }

  /** `fetchUsageRecords` of one page: its stamped traces, quarantined or not. */
  function PageUsage(traces: Traces, page: nat): Billed {
    map id | id in traces && traces[id].page == page && traces[id].pricing.Stamped? :: traces[id].pricing.cost
  }

  function StampedIds(traces: Traces): set<string> {
    set id | id in traces && traces[id].pricing.Stamped?
  }

  function HighestHeader(headers: map<nat, Billed>): nat {
    if headers.Keys == {} then 0 else MaxOf(headers.Keys)
  }

  function MaxOf(s: set<nat>): (m: nat)
    requires s != {}
    ensures m in s && forall x :: x in s ==> x <= m
  {
    MaxExists(s);
    var m :| m in s && forall x :: x in s ==> x <= m;
    m
  }

  lemma {:induction false} MaxExists(s: set<nat>)
    requires s != {}
    ensures exists m :: m in s && forall x :: x in s ==> x <= m
    decreases |s|
  {
    var x :| x in s;
    if s - {x} == {} {
      assert s == {x};
    } else {
      MaxExists(s - {x});
      var m :| m in s - {x} && forall y :: y in s - {x} ==> y <= m;
      var n := if x <= m then m else x;
      assert n in s && forall y :: y in s ==> y <= n by {
        forall y | y in s ensures y <= n {
          assert y == x || y in s - {x};
        }
      }
    }
  }

  /** Pass 1: whatever the snapshot did not bill and nobody flagged yet is flagged. */
  function FlagStragglers(traces: Traces, ids: set<string>): Traces {
    map id | id in traces ::
      if id !in ids && traces[id].quarantine.Clear? then traces[id].(quarantine := Flagged) else traces[id]
  }

  /** Pass 2: whatever the snapshot billed and is flagged becomes absorbed by it. */
  function AbsorbBilled(traces: Traces, ids: set<string>, version: nat): Traces {
    map id | id in traces ::
      if id in ids && !traces[id].quarantine.Clear? then traces[id].(quarantine := Absorbed(version)) else traces[id]
  }

  function Reconcile(traces: Traces, ids: set<string>, version: nat): Traces {
    AbsorbBilled(FlagStragglers(traces, ids), ids, version)
  }

  // ---------------------------------------------------------------- steps

  datatype Action =
    | Ingest(id: string, page: nat, pricing: Pricing, flagged: bool)
    | StampPending(id: string, cost: nat)
    | FindPeriod(closer: nat)
    | CheckPending(closer: nat)
    | StartClose(closer: nat)
    | ReadPage(closer: nat)
    | Commit(closer: nat)
    | FlagPass(closer: nat)
    | AbsorbPass(closer: nat)
    | StopClose(closer: nat)
    | FindForReopen(reopener: nat)
    | Reopen(reopener: nat)

  predicate AnyPending(traces: Traces) {
    exists id :: id in traces && traces[id].pricing.Pending?
  }

  predicate Enabled(s: State, a: Action, pages: nat) {
    match a
    case Ingest(_, page, _, _) => page < pages
    case StampPending(id, _) => id in s.traces && s.traces[id].pricing.Pending?
    case FindPeriod(c) => c < |s.closers| && s.closers[c].Resting?
    case CheckPending(c) => c < |s.closers| && s.closers[c].Found? && !AnyPending(s.traces)
    case StartClose(c) => c < |s.closers| && s.closers[c].Checked?
    case ReadPage(c) => c < |s.closers| && s.closers[c].Reading? && s.closers[c].next < pages
    case Commit(c) => c < |s.closers| && s.closers[c].Reading? && s.closers[c].next >= pages
    case FlagPass(c) => c < |s.closers| && s.closers[c].Flagging?
    case AbsorbPass(c) => c < |s.closers| && s.closers[c].Absorbing?
    case StopClose(c) => c < |s.closers|
    case FindForReopen(r) => r < |s.reopeners|
    case Reopen(r) => r < |s.reopeners| && s.reopeners[r].Saw?
  }

  function Max(a: nat, b: nat): nat { if a < b then b else a }

  function WithCloser(s: State, c: nat, x: Closer): State
    requires c < |s.closers|
  {
    s.(closers := s.closers[c := x])
  }

  /** A closed month is not closed again: its reconciliation is re-run from the stored snapshot. */
  function AfterFind(s: State): Closer {
    if s.period.None? then Found(0)
    else if !s.period.value.closed then Found(s.period.value.version)
    else if s.period.value.version in s.headers then
      Flagging(s.period.value.version, s.headers[s.period.value.version].Keys)
    else Flagging(s.period.value.version, {})
  }

  /** The version is one past the highest the period or a stored header knows. */
  function BeginReading(s: State, periodVersion: nat): Closer {
    Reading(Max(periodVersion, HighestHeader(s.headers)) + 1, 0, map[], StampedIds(s.traces))
  }

  function ReadNext(s: State, x: Closer): Closer
    requires x.Reading?
  {
    x.(next := x.next + 1, billed := x.billed + PageUsage(s.traces, x.next))
  }

  function CommitClose(s: State, c: nat): State
    requires c < |s.closers| && s.closers[c].Reading?
  {
    var x := s.closers[c];
    var published := PublishClose(s.period, s.headers, x.version, x.billed);
    if published.None? then WithCloser(s, c, Resting)
    else
      WithCloser(s.(period := Some(published.value.0), headers := published.value.1), c,
                 Flagging(x.version, x.billed.Keys))
  }

  function Next(s: State, a: Action, pages: nat): State
    requires Enabled(s, a, pages)
  {
    match a
    case Ingest(id, page, pricing, flagged) =>
      if id in s.traces then s
      else s.(traces := s.traces[id := Trace(page, pricing, if flagged then Flagged else Clear)])
    case StampPending(id, cost) => s.(traces := s.traces[id := s.traces[id].(pricing := Stamped(cost))])
    case FindPeriod(c) => WithCloser(s, c, AfterFind(s))
    case CheckPending(c) => WithCloser(s, c, Checked(s.closers[c].periodVersion))
    case StartClose(c) =>
      WithCloser(s, c, BeginReading(s, s.closers[c].periodVersion))
    case ReadPage(c) =>
      var x := s.closers[c];
      WithCloser(s, c, ReadNext(s, x))
    case Commit(c) => CommitClose(s, c)
    case FlagPass(c) =>
      var x := s.closers[c];
      WithCloser(s.(traces := FlagStragglers(s.traces, x.ids)), c, Absorbing(x.version, x.ids, s.traces.Keys))
    case AbsorbPass(c) =>
      var x := s.closers[c];
      WithCloser(s.(traces := AbsorbBilled(s.traces, x.ids, x.version)), c, Resting)
    case StopClose(c) => WithCloser(s, c, Resting)
    case FindForReopen(r) =>
      var seen := if s.period.Some? && s.period.value.closed then Saw(s.period.value.version) else Asleep;
      s.(reopeners := s.reopeners[r := seen])
    case Reopen(r) =>
      var reopened := MarkReopened(s.period, s.reopeners[r].version);
      s.(period := if reopened.Some? then reopened else s.period, reopeners := s.reopeners[r := Asleep])
  }

  // ---------------------------------------------------------------- invariants

  /** Closes and reopens alternate, starting with a close; the k-th close carries version k. */
  ghost predicate AuditHolds(audit: seq<AuditEntry>) {
    forall i :: 0 <= i < |audit| ==>
      if i % 2 == 0 then audit[i] == CloseEntry(i / 2 + 1) else audit[i].ReopenEntry? && audit[i].version <= i / 2 + 1
  }

  /** Closed exactly when the last entry is a close; the period's version is the number of closes
      so far, and the stored headers are the versions up to it. */
  ghost predicate PeriodHolds(p: Option<Period>, headers: map<nat, Billed>) {
    if p.None? then headers.Keys == {}
    else
      && |p.value.audit| > 0 && AuditHolds(p.value.audit)
      && (p.value.closed <==> p.value.audit[|p.value.audit| - 1].CloseEntry?)
      && p.value.version == (|p.value.audit| + 1) / 2
      && (forall v :: v in headers <==> 1 <= v <= p.value.version)
  }

  function VersionOf(p: Option<Period>): nat {
    if p.None? then 0 else p.value.version
  }

  /** Every billed trace is stored and stamped with the billed cost. */
  ghost predicate BilledStored(billed: Billed, traces: Traces, pages: nat) {
    forall id :: id in billed ==> id in traces && traces[id].pricing == Stamped(billed[id]) && traces[id].page < pages
  }

  ghost predicate Contained(a: Billed, b: Billed) {
    forall id :: id in a ==> id in b && b[id] == a[id]
  }

  /** Each version bills all that the versions before it billed, at the same cost. */
  ghost predicate VersionsGrow(headers: map<nat, Billed>) {
    forall u, v :: u in headers && v in headers && u <= v ==> Contained(headers[u], headers[v])
  }

  /** What a close in progress knows: the pages it has read miss no trace that was stamped when it
      began, and if its version is still the next one, the pages it has read
      contain everything the current version billed there. */
  ghost predicate CloserHolds(s: State, x: Closer, pages: nat) {
    match x
    case Resting => true
    case Found(v) => v <= VersionOf(s.period)
    case Checked(v) => v <= VersionOf(s.period)
    case Reading(version, next, billed, present) =>
      && (forall id :: id in present ==>
            id in s.traces && s.traces[id].pricing.Stamped? && (s.traces[id].page < next ==> id in billed))
      && 1 <= version <= VersionOf(s.period) + 1
      && BilledStored(billed, s.traces, pages)
      && (version == VersionOf(s.period) + 1 && version - 1 in s.headers ==>
            forall id :: id in s.headers[version - 1] && id in s.traces && s.traces[id].page < next ==> id in billed)
    case Flagging(version, ids) => version in s.headers && ids == s.headers[version].Keys
    case Absorbing(version, ids, known) =>
      && version in s.headers && ids == s.headers[version].Keys && known <= s.traces.Keys
      && forall id :: id in known && id !in ids ==> !s.traces[id].quarantine.Clear?
  }

  /** A trace absorbed by a version was billed by it. */
  ghost predicate AbsorbedBilled(s: State) {
    forall id :: id in s.traces && s.traces[id].quarantine.Absorbed? ==>
      s.traces[id].quarantine.version in s.headers && id in s.headers[s.traces[id].quarantine.version]
  }

  ghost predicate Inv(s: State, pages: nat) {
    && PeriodHolds(s.period, s.headers)
    && (forall id :: id in s.traces ==> s.traces[id].page < pages)
    && (forall v :: v in s.headers ==> BilledStored(s.headers[v], s.traces, pages))
    && VersionsGrow(s.headers)
    && AbsorbedBilled(s)
    && (forall c :: 0 <= c < |s.closers| ==> CloserHolds(s, s.closers[c], pages))
    && (forall r :: 0 <= r < |s.reopeners| && s.reopeners[r].Saw? ==> s.reopeners[r].version <= VersionOf(s.period))
  }

  function Initial(closers: nat, reopeners: nat): State {
    State(map[], None, map[], seq(closers, _ => Resting), seq(reopeners, _ => Asleep))
  }

  lemma InitialHolds(closers: nat, reopeners: nat, pages: nat)
    ensures Inv(Initial(closers, reopeners), pages)
  {}

  /** What no step ever takes back: traces stay, dates and stamps are fixed, snapshots are immutable. */
  ghost predicate Grows(s: State, t: State) {
    && (forall id :: id in s.traces ==>
          && id in t.traces && t.traces[id].page == s.traces[id].page
          && (s.traces[id].pricing.Stamped? ==> t.traces[id].pricing == s.traces[id].pricing))
    && (forall v :: v in s.headers ==> v in t.headers && t.headers[v] == s.headers[v])
    && AuditOf(s.period) <= AuditOf(t.period)
  }

  function AuditOf(p: Option<Period>): seq<AuditEntry> {
    if p.None? then [] else p.value.audit
  }

  /** A step that writes only to traces grows when no trace loses its date or its stamp. */
  lemma TracesGrow(s: State, t: State)
    requires t.headers == s.headers && t.period == s.period
    requires forall id :: id in s.traces ==>
               && id in t.traces && t.traces[id].page == s.traces[id].page
               && (s.traces[id].pricing.Stamped? ==> t.traces[id].pricing == s.traces[id].pricing)
    ensures Grows(s, t)
  {}

  lemma CommitGrows(s: State, c: nat)
    requires c < |s.closers| && s.closers[c].Reading?
    ensures Grows(s, CommitClose(s, c))
  {
    var x, t := s.closers[c], CommitClose(s, c);
    if PublishClose(s.period, s.headers, x.version, x.billed).Some? {
      assert t.traces == s.traces && x.version !in s.headers;
      assert t.headers == s.headers[x.version := x.billed];
      assert AuditOf(t.period) == AuditOf(s.period) + [CloseEntry(x.version)];
    } else {
      TracesGrow(s, t);
    }
  }

  lemma ReopenGrows(s: State, r: nat, pages: nat)
    requires Enabled(s, Reopen(r), pages)
    ensures Grows(s, Next(s, Reopen(r), pages))
  {
    var t := Next(s, Reopen(r), pages);
    assert t.traces == s.traces && t.headers == s.headers;
    assert AuditOf(s.period) <= AuditOf(t.period);
  }

  lemma StepGrows(s: State, a: Action, pages: nat)
    requires Enabled(s, a, pages)
    ensures Grows(s, Next(s, a, pages))
  {
    match a
    case Commit(c) => CommitGrows(s, c);
    case Reopen(r) => ReopenGrows(s, r, pages);
    case _ => TracesGrow(s, Next(s, a, pages));
  }

  // ---------------------------------------------------------------- every step keeps them

  /** Steps that only add traces, stamp pending ones or touch quarantine marks keep what closes know. */
  lemma TracesGrowKeeps(s: State, t: State, x: Closer, pages: nat)
    requires CloserHolds(s, x, pages) && s.headers == t.headers && s.period == t.period && Grows(s, t)
    requires forall v :: v in s.headers ==> BilledStored(s.headers[v], s.traces, pages)
    requires forall id :: id in s.traces && !s.traces[id].quarantine.Clear? ==> !t.traces[id].quarantine.Clear?
    ensures CloserHolds(t, x, pages)
  {}

  lemma IngestKeeps(s: State, id: string, page: nat, pricing: Pricing, flagged: bool, pages: nat)
    requires Inv(s, pages) && page < pages
    ensures Inv(Next(s, Ingest(id, page, pricing, flagged), pages), pages)
  {
    var a := Ingest(id, page, pricing, flagged);
    var t := Next(s, a, pages);
    StepGrows(s, a, pages);
    forall c | 0 <= c < |t.closers| ensures CloserHolds(t, t.closers[c], pages) {
      TracesGrowKeeps(s, t, s.closers[c], pages);
    }
  }

  lemma StampKeeps(s: State, id: string, cost: nat, pages: nat)
    requires Inv(s, pages) && Enabled(s, StampPending(id, cost), pages)
    ensures Inv(Next(s, StampPending(id, cost), pages), pages)
  {
    var a := StampPending(id, cost);
    var t := Next(s, a, pages);
    StepGrows(s, a, pages);
    forall c | 0 <= c < |t.closers| ensures CloserHolds(t, t.closers[c], pages) {
      TracesGrowKeeps(s, t, s.closers[c], pages);
    }
  }

  lemma HighestIsVersion(p: Option<Period>, headers: map<nat, Billed>)
    requires PeriodHolds(p, headers)
    ensures HighestHeader(headers) == VersionOf(p)
  {
    if p.Some? {
      assert p.value.version in headers;
    }
  }

  /** Steps on one closer that leave the store alone. */
  lemma CloserStepKeeps(s: State, c: nat, x: Closer, pages: nat)
    requires Inv(s, pages) && c < |s.closers| && CloserHolds(s, x, pages)
    ensures Inv(WithCloser(s, c, x), pages)
  {
    var t := WithCloser(s, c, x);
    forall d | 0 <= d < |t.closers| ensures CloserHolds(t, t.closers[d], pages) {
      assert CloserHolds(s, if d == c then x else s.closers[d], pages);
    }
  }

  lemma ReadPageHolds(s: State, c: nat, pages: nat)
    requires Inv(s, pages) && Enabled(s, ReadPage(c), pages)
    ensures CloserHolds(s, ReadNext(s, s.closers[c]), pages)
  {
    var x := s.closers[c];
    assert CloserHolds(s, x, pages);
    if x.version == VersionOf(s.period) + 1 && x.version - 1 in s.headers {
      assert BilledStored(s.headers[x.version - 1], s.traces, pages);
    }
  }

  lemma StartHolds(s: State, c: nat, pages: nat)
    requires Inv(s, pages) && Enabled(s, StartClose(c), pages)
    ensures CloserHolds(s, BeginReading(s, s.closers[c].periodVersion), pages)
  {
    HighestIsVersion(s.period, s.headers);
    assert CloserHolds(s, s.closers[c], pages);
  }

  /** A commit that goes through publishes exactly the next version, and it bills everything any
      earlier version billed. */
  lemma CommitPublishesNext(s: State, c: nat, pages: nat)
    requires Inv(s, pages) && Enabled(s, Commit(c), pages)
    requires PublishClose(s.period, s.headers, s.closers[c].version, s.closers[c].billed).Some?
    ensures s.closers[c].version == VersionOf(s.period) + 1
    ensures forall v :: v in s.headers ==> Contained(s.headers[v], s.closers[c].billed)
  {
    var x := s.closers[c];
    assert CloserHolds(s, x, pages);
    if s.period.Some? {
      var current := s.headers[s.period.value.version];
      assert BilledStored(current, s.traces, pages);
      assert Contained(current, x.billed);
    }
  }

  lemma AuditSnoc(audit: seq<AuditEntry>, e: AuditEntry)
    requires AuditHolds(audit)
    requires if |audit| % 2 == 0 then e == CloseEntry(|audit| / 2 + 1)
             else e.ReopenEntry? && e.version <= |audit| / 2 + 1
    ensures AuditHolds(audit + [e])
  {}

  /** Publishing the next version of a month that is not closed keeps the period's bookkeeping. */
  lemma PublishKeepsPeriod(p: Option<Period>, headers: map<nat, Billed>, version: nat, billed: Billed)
    requires PeriodHolds(p, headers) && version == VersionOf(p) + 1
    requires PublishClose(p, headers, version, billed).Some?
    ensures var t := PublishClose(p, headers, version, billed).value; PeriodHolds(Some(t.0), t.1)
  {
    if p.Some? {
      AuditSnoc(p.value.audit, CloseEntry(version));
    }
  }

  lemma PublishKeepsGrowth(headers: map<nat, Billed>, version: nat, billed: Billed)
    requires VersionsGrow(headers) && forall v :: v in headers ==> v < version && Contained(headers[v], billed)
    ensures VersionsGrow(headers[version := billed])
  {}

  lemma CommitKeepsPeriod(s: State, c: nat, pages: nat)
    requires Inv(s, pages) && Enabled(s, Commit(c), pages)
    ensures var t := CommitClose(s, c); PeriodHolds(t.period, t.headers) && VersionsGrow(t.headers)
  {
    var x := s.closers[c];
    if PublishClose(s.period, s.headers, x.version, x.billed).Some? {
      CommitPublishesNext(s, c, pages);
      PublishKeepsPeriod(s.period, s.headers, x.version, x.billed);
      PublishKeepsGrowth(s.headers, x.version, x.billed);
    }
  }

  lemma CommitKeeps(s: State, c: nat, pages: nat)
    requires Inv(s, pages) && Enabled(s, Commit(c), pages)
    ensures Inv(CommitClose(s, c), pages)
  {
    var x, t := s.closers[c], CommitClose(s, c);
    assert CloserHolds(s, x, pages);
    CommitKeepsPeriod(s, c, pages);
    if PublishClose(s.period, s.headers, x.version, x.billed).Some? {
      CommitPublishesNext(s, c, pages);
      forall d | 0 <= d < |t.closers| ensures CloserHolds(t, t.closers[d], pages) {
        assert CloserHolds(s, s.closers[d], pages);
      }
    } else {
      CloserStepKeeps(s, c, Resting, pages);
    }
  }

  lemma FlagKeeps(s: State, c: nat, pages: nat)
    requires Inv(s, pages) && Enabled(s, FlagPass(c), pages)
    ensures Inv(Next(s, FlagPass(c), pages), pages)
  {
    var x, u := s.closers[c], s.(traces := FlagStragglers(s.traces, s.closers[c].ids));
    assert CloserHolds(s, x, pages);
    forall d | 0 <= d < |u.closers| ensures CloserHolds(u, u.closers[d], pages) {
      TracesGrowKeeps(s, u, s.closers[d], pages);
    }
    CloserStepKeeps(u, c, Absorbing(x.version, x.ids, s.traces.Keys), pages);
  }

  lemma AbsorbKeeps(s: State, c: nat, pages: nat)
    requires Inv(s, pages) && Enabled(s, AbsorbPass(c), pages)
    ensures Inv(Next(s, AbsorbPass(c), pages), pages)
  {
    var x := s.closers[c];
    var u := s.(traces := AbsorbBilled(s.traces, x.ids, x.version));
    assert CloserHolds(s, x, pages);
    forall d | 0 <= d < |u.closers| ensures CloserHolds(u, u.closers[d], pages) {
      TracesGrowKeeps(s, u, s.closers[d], pages);
    }
    CloserStepKeeps(u, c, Resting, pages);
  }

  lemma ReopenKeeps(s: State, r: nat, pages: nat)
    requires Inv(s, pages) && Enabled(s, Reopen(r), pages)
    ensures Inv(Next(s, Reopen(r), pages), pages)
  {
    var t := Next(s, Reopen(r), pages);
    if s.period.Some? && s.period.value.closed {
      AuditSnoc(s.period.value.audit, ReopenEntry(s.reopeners[r].version));
    }
    forall c | 0 <= c < |t.closers| ensures CloserHolds(t, t.closers[c], pages) {
      assert CloserHolds(s, s.closers[c], pages);
    }
  }

  lemma FindForReopenKeeps(s: State, r: nat, pages: nat)
    requires Inv(s, pages) && Enabled(s, FindForReopen(r), pages)
    ensures Inv(Next(s, FindForReopen(r), pages), pages)
  {
    var t := Next(s, FindForReopen(r), pages);
    forall c | 0 <= c < |t.closers| ensures CloserHolds(t, t.closers[c], pages) {
      assert CloserHolds(s, s.closers[c], pages);
    }
  }

  lemma StepKeeps(s: State, a: Action, pages: nat)
    requires Inv(s, pages) && Enabled(s, a, pages)
    ensures Inv(Next(s, a, pages), pages)
  {
    match a
    case Ingest(id, page, pricing, flagged) => IngestKeeps(s, id, page, pricing, flagged, pages);
    case StampPending(id, cost) => StampKeeps(s, id, cost, pages);
    case FindPeriod(c) => CloserStepKeeps(s, c, AfterFind(s), pages);
    case CheckPending(c) =>
      assert CloserHolds(s, s.closers[c], pages);
      CloserStepKeeps(s, c, Checked(s.closers[c].periodVersion), pages);
    case StartClose(c) =>
      StartHolds(s, c, pages);
      CloserStepKeeps(s, c, BeginReading(s, s.closers[c].periodVersion), pages);
    case ReadPage(c) =>
      ReadPageHolds(s, c, pages);
      CloserStepKeeps(s, c, ReadNext(s, s.closers[c]), pages);
    case Commit(c) => CommitKeeps(s, c, pages);
    case FlagPass(c) => FlagKeeps(s, c, pages);
    case AbsorbPass(c) => AbsorbKeeps(s, c, pages);
    case StopClose(c) => CloserStepKeeps(s, c, Resting, pages);
    case FindForReopen(r) => FindForReopenKeeps(s, r, pages);
    case Reopen(r) => ReopenKeeps(s, r, pages);
  }
}
