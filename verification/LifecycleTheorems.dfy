/** What holds of every run of a month's lifecycle. */
module LifecycleTheorems {
  import opened Wrappers
  import opened Sums
  import opened Lifecycle

  // ---------------------------------------------------------------- runs

  /** The state after a list of actions; an action that is not enabled does nothing. */
  function Run(closers: nat, reopeners: nat, pages: nat, actions: seq<Action>): State {
    if |actions| == 0 then Initial(closers, reopeners)
    else
      var s, a := Run(closers, reopeners, pages, actions[..|actions| - 1]), actions[|actions| - 1];
      if Enabled(s, a, pages) then Next(s, a, pages) else s
  }

  lemma {:induction false} RunHolds(closers: nat, reopeners: nat, pages: nat, actions: seq<Action>)
    ensures Inv(Run(closers, reopeners, pages, actions), pages)
  {
    if |actions| == 0 {
      InitialHolds(closers, reopeners, pages);
    } else {
      var s, a := Run(closers, reopeners, pages, actions[..|actions| - 1]), actions[|actions| - 1];
      RunHolds(closers, reopeners, pages, actions[..|actions| - 1]);
      if Enabled(s, a, pages) {
        StepKeeps(s, a, pages);
      }
    }
  }

  lemma GrowsTransitive(a: State, b: State, c: State)
    requires Grows(a, b) && Grows(b, c)
    ensures Grows(a, c)
  {}

  lemma {:induction false} RunGrows(closers: nat, reopeners: nat, pages: nat, actions: seq<Action>, n: nat)
    requires n <= |actions|
    ensures Grows(Run(closers, reopeners, pages, actions[..n]), Run(closers, reopeners, pages, actions))
    decreases |actions|
  {
    if n == |actions| {
      assert actions[..n] == actions;
    } else {
      var front := actions[..|actions| - 1];
      var s, a := Run(closers, reopeners, pages, front), actions[|actions| - 1];
      RunGrows(closers, reopeners, pages, front, n);
      assert front[..n] == actions[..n];
      RunHolds(closers, reopeners, pages, front);
      if Enabled(s, a, pages) {
        StepGrows(s, a, pages);
        GrowsTransitive(Run(closers, reopeners, pages, actions[..n]), s, Next(s, a, pages));
      }
    }
  }

  /** At every moment of every run: the audit alternates close and reopen, the k-th close carries
      version k, the month is closed exactly when the last entry is a close, its version is the
      highest stored header. From any moment to a later one: entries are only appended, stored
      snapshots and stamps never change. */
  lemma {:induction false} LifecycleHolds(closers: nat, reopeners: nat, pages: nat, actions: seq<Action>, n: nat)
    requires n <= |actions|
    ensures var s, t := Run(closers, reopeners, pages, actions[..n]), Run(closers, reopeners, pages, actions);
            && PeriodHolds(t.period, t.headers)
            && HighestHeader(t.headers) == VersionOf(t.period)
            && Grows(s, t)
  {
    RunHolds(closers, reopeners, pages, actions);
    RunGrows(closers, reopeners, pages, actions, n);
    var t := Run(closers, reopeners, pages, actions);
    HighestIsVersion(t.period, t.headers);
  }

  // ---------------------------------------------------------------- what a run makes of a trace

  /** The step brings the trace. */
  predicate Brings(s: State, a: Action, id: string, pages: nat) {
    Enabled(s, a, pages) && a.Ingest? && a.id == id && id !in s.traces
  }

  /** The step gives the trace that cost: it brings it stamped or stamps it while pending. */
  predicate GivesCost(s: State, a: Action, id: string, cost: nat, pages: nat) {
    (Brings(s, a, id, pages) && a.pricing == Stamped(cost)) || (a == StampPending(id, cost) && Enabled(s, a, pages))
  }

  /** The step marks the trace: it brings it flagged, or is the pass of a snapshot that did not bill it. */
  predicate Marks(s: State, a: Action, id: string, pages: nat) {
    || (Brings(s, a, id, pages) && a.flagged)
    || (a.FlagPass? && Enabled(s, a, pages) && id in s.traces && id !in s.closers[a.closer].ids)
  }

  lemma StepStory(s: State, a: Action, pages: nat, id: string, cost: nat)
    requires Enabled(s, a, pages)
    ensures var t := Next(s, a, pages).traces;
            && (id in t && id !in s.traces ==> Brings(s, a, id, pages) && t[id].page == a.page)
            && (id in t && t[id].pricing == Stamped(cost) <==>
                  (id in s.traces && s.traces[id].pricing == Stamped(cost)) || GivesCost(s, a, id, cost, pages))
            && (id in t && !t[id].quarantine.Clear? <==>
                  (id in s.traces && !s.traces[id].quarantine.Clear?) || Marks(s, a, id, pages))
  {}

  ghost predicate Priced(closers: nat, reopeners: nat, pages: nat, actions: seq<Action>, id: string, cost: nat) {
    exists n :: 0 <= n < |actions| &&
      GivesCost(Run(closers, reopeners, pages, actions[..n]), actions[n], id, cost, pages)
  }

  ghost predicate Marked(closers: nat, reopeners: nat, pages: nat, actions: seq<Action>, id: string) {
    exists n :: 0 <= n < |actions| && Marks(Run(closers, reopeners, pages, actions[..n]), actions[n], id, pages)
  }

  ghost predicate CameWith(closers: nat, reopeners: nat, pages: nat, actions: seq<Action>, id: string, page: nat) {
    exists n :: 0 <= n < |actions| && Brings(Run(closers, reopeners, pages, actions[..n]), actions[n], id, pages)
                && actions[n].page == page
  }

  lemma PricedSnoc(closers: nat, reopeners: nat, pages: nat, actions: seq<Action>, id: string, cost: nat)
    requires |actions| > 0
    ensures var end := |actions| - 1;
            Priced(closers, reopeners, pages, actions, id, cost)
            <==> Priced(closers, reopeners, pages, actions[..end], id, cost)
                 || GivesCost(Run(closers, reopeners, pages, actions[..end]), actions[end], id, cost, pages)
  {
    assert forall n :: 0 <= n < |actions| ==> actions[..|actions| - 1][..n] == actions[..n];
  }

  lemma MarkedSnoc(closers: nat, reopeners: nat, pages: nat, actions: seq<Action>, id: string)
    requires |actions| > 0
    ensures var end := |actions| - 1;
            Marked(closers, reopeners, pages, actions, id)
            <==> Marked(closers, reopeners, pages, actions[..end], id)
                 || Marks(Run(closers, reopeners, pages, actions[..end]), actions[end], id, pages)
  {
    assert forall n :: 0 <= n < |actions| ==> actions[..|actions| - 1][..n] == actions[..n];
  }

  lemma CameWithSnoc(closers: nat, reopeners: nat, pages: nat, actions: seq<Action>, id: string, page: nat)
    requires |actions| > 0
    requires var end := |actions| - 1;
             || CameWith(closers, reopeners, pages, actions[..end], id, page)
             || (Brings(Run(closers, reopeners, pages, actions[..end]), actions[end], id, pages)
                 && actions[end].page == page)
    ensures CameWith(closers, reopeners, pages, actions, id, page)
  {
    assert forall n :: 0 <= n < |actions| ==> actions[..|actions| - 1][..n] == actions[..n];
  }

  /** In every run: a trace costs what a step stamped it with, its own ingest or a later stamping, and it
      carries a mark exactly when some step marked it; its page is the one it came with. */
  lemma {:induction false} TraceStory(closers: nat, reopeners: nat, pages: nat, actions: seq<Action>, id: string,
                                      cost: nat)
    ensures var s := Run(closers, reopeners, pages, actions);
            && (id in s.traces && s.traces[id].pricing == Stamped(cost)
                <==> Priced(closers, reopeners, pages, actions, id, cost))
            && (id in s.traces && !s.traces[id].quarantine.Clear? <==> Marked(closers, reopeners, pages, actions, id))
            && (id in s.traces ==> CameWith(closers, reopeners, pages, actions, id, s.traces[id].page))
  {
    if |actions| > 0 {
      var end := |actions| - 1;
      TraceStory(closers, reopeners, pages, actions[..end], id, cost);
      PricedSnoc(closers, reopeners, pages, actions, id, cost);
      MarkedSnoc(closers, reopeners, pages, actions, id);
      var s, t := Run(closers, reopeners, pages, actions[..end]), Run(closers, reopeners, pages, actions);
      if Enabled(s, actions[end], pages) {
        StepStory(s, actions[end], pages, id, cost);
        StepGrows(s, actions[end], pages);
      }
      if id in t.traces {
        CameWithSnoc(closers, reopeners, pages, actions, id, t.traces[id].page);
      }
    }
  }

  // ---------------------------------------------------------------- concurrent closes

  /** A close that begins to read takes a version past what it saw and past every stored header, so not
      even an orphaned header can hold up every retry; where the invariant holds it is the next one. */
  lemma StartTakesNext(s: State, c: nat, pages: nat)
    requires Enabled(s, StartClose(c), pages)
    ensures var x := Next(s, StartClose(c), pages).closers[c];
            && x == Reading(x.version, 0, map[], StampedIds(s.traces)) && x.version > s.closers[c].periodVersion
            && (forall v :: v in s.headers ==> v < x.version)
            && (Inv(s, pages) ==> x.version == VersionOf(s.period) + 1)
  {
    if Inv(s, pages) {
      HighestIsVersion(s.period, s.headers);
      assert CloserHolds(s, s.closers[c], pages);
    }
  }

  /** A commit goes through exactly when no other close has committed since its version was taken
      and the month is not closed; otherwise it changes nothing stored. */
  lemma CommitGoesThroughIff(s: State, c: nat, pages: nat)
    requires Inv(s, pages) && Enabled(s, Commit(c), pages)
    ensures var t, x := Next(s, Commit(c), pages), s.closers[c];
            if x.version == VersionOf(s.period) + 1 && (s.period.None? || !s.period.value.closed)
            then t.period == Some(Period(true, x.version, AuditOf(s.period) + [CloseEntry(x.version)]))
                 && t.headers == s.headers[x.version := x.billed] && t.traces == s.traces
            else t.period == s.period && t.headers == s.headers && t.traces == s.traces
  {
    assert CloserHolds(s, s.closers[c], pages);
  }

  /** A reopen goes through exactly when the month is closed at that moment; it keeps the version and
      the snapshots, and its audit entry names the version that was closed when it looked. */
  lemma ReopenGoesThroughIff(s: State, r: nat, pages: nat)
    requires Inv(s, pages) && Enabled(s, Reopen(r), pages)
    ensures var t := Next(s, Reopen(r), pages);
            && t.headers == s.headers && t.traces == s.traces && t.closers == s.closers
            && t.period == (if s.period.Some? && s.period.value.closed
                            then Some(Period(false, VersionOf(s.period),
                                             AuditOf(s.period) + [ReopenEntry(s.reopeners[r].version)]))
                            else s.period)
  {}

  /** Some close has got past its check for pending traces and has not committed. */
  ghost predicate PastCheck(s: State) {
    exists c :: 0 <= c < |s.closers| && (s.closers[c].Checked? || s.closers[c].Reading?)
  }

  lemma PendingStep(s: State, a: Action, pages: nat)
    requires Enabled(s, a, pages) && AnyPending(s.traces) && !PastCheck(s)
    ensures !PastCheck(Next(s, a, pages)) && Next(s, a, pages).headers == s.headers
  {
    var t := Next(s, a, pages);
    forall c | 0 <= c < |t.closers| ensures !t.closers[c].Checked? && !t.closers[c].Reading? {
      assert !s.closers[c].Checked? && !s.closers[c].Reading?;
    }
  }

  lemma RunStep(closers: nat, reopeners: nat, pages: nat, actions: seq<Action>, n: nat)
    requires n < |actions|
    ensures var s := Run(closers, reopeners, pages, actions[..n]);
            Run(closers, reopeners, pages, actions[..n + 1])
            == if Enabled(s, actions[n], pages) then Next(s, actions[n], pages) else s
  {
    assert actions[..n + 1][..n] == actions[..n];
  }

  /** A pending trace refuses the close: while there is one, no close gets past its check, so none but
      those past it already can publish a version. */
  lemma {:induction false} PendingRefusesCloses(closers: nat, reopeners: nat, pages: nat, actions: seq<Action>,
                                                n: nat, m: nat)
    requires n <= m <= |actions| && !PastCheck(Run(closers, reopeners, pages, actions[..n]))
    requires forall k :: n <= k < m ==> AnyPending(Run(closers, reopeners, pages, actions[..k]).traces)
    ensures !PastCheck(Run(closers, reopeners, pages, actions[..m]))
    ensures Run(closers, reopeners, pages, actions[..m]).headers == Run(closers, reopeners, pages, actions[..n]).headers
  {
    if n < m {
      PendingRefusesCloses(closers, reopeners, pages, actions, n, m - 1);
      RunStep(closers, reopeners, pages, actions, m - 1);
      var s := Run(closers, reopeners, pages, actions[..m - 1]);
      if Enabled(s, actions[m - 1], pages) {
        PendingStep(s, actions[m - 1], pages);
      }
    }
  }

  /** Reading a page adds the stamped traces of that page at their stamp, quarantined or not, and no other. */
  lemma PageReadIs(s: State, c: nat, pages: nat, id: string)
    requires Enabled(s, ReadPage(c), pages)
    ensures var x, y := s.closers[c], Next(s, ReadPage(c), pages).closers[c];
            var onPage := id in s.traces && s.traces[id].page == x.next && s.traces[id].pricing.Stamped?;
            && y.Reading? && y.next == x.next + 1 && y.version == x.version
            && (id in y.billed <==> id in x.billed || onPage)
            && (id in y.billed ==>
                  y.billed[id] == if onPage then s.traces[id].pricing.cost else x.billed[id])
  {}

  /** No money is lost to the paging: what a close publishes bills every trace that was stamped
      when it began to read, at its stamped cost, and nothing that is not stamped. */
  lemma CommitBillsTheMonth(s: State, c: nat, pages: nat)
    requires Inv(s, pages) && Enabled(s, Commit(c), pages)
    ensures var x := s.closers[c];
            && x.present <= x.billed.Keys <= StampedIds(s.traces)
            && forall id :: id in x.billed ==> s.traces[id].pricing == Stamped(x.billed[id])
  {
    assert CloserHolds(s, s.closers[c], pages);
  }

  function CostOf(billed: Billed): string -> int {
    (id: string) => if id in billed then billed[id] else 0
  }

  ghost function Total(billed: Billed): int {
    SumSet(billed.Keys, CostOf(billed))
  }

  lemma {:induction false} SubsetSum(a: set<string>, b: set<string>, f: string -> int)
    requires a <= b && forall x :: x in b ==> f(x) >= 0
    ensures SumSet(a, f) <= SumSet(b, f)
    decreases |b|
  {
    if a == b {
    } else {
      var x :| x in b && x !in a;
      SubsetSum(a, b - {x}, f);
      SumSetRemove(b, x, f);
    }
  }

  /** From one version to any later one, the billed ids and the total never shrink. */
  lemma BilledNeverShrinks(closers: nat, reopeners: nat, pages: nat, actions: seq<Action>, u: nat, v: nat)
    requires u <= v
    requires var s := Run(closers, reopeners, pages, actions); u in s.headers && v in s.headers
    ensures var s := Run(closers, reopeners, pages, actions);
            && s.headers[u].Keys <= s.headers[v].Keys
            && Total(s.headers[u]) <= Total(s.headers[v])
  {
    RunHolds(closers, reopeners, pages, actions);
    var s := Run(closers, reopeners, pages, actions);
    assert Contained(s.headers[u], s.headers[v]);
    SumSetExt(s.headers[u].Keys, CostOf(s.headers[u]), CostOf(s.headers[v]));
    SubsetSum(s.headers[u].Keys, s.headers[v].Keys, CostOf(s.headers[v]));
  }

  // ---------------------------------------------------------------- adjudication

  predicate Unresolved(t: Trace) {
    t.quarantine.Flagged?
  }

  /** Each of these traces is either billed with no unresolved quarantine or not billed with one. */
  ghost predicate Adjudicated(traces: Traces, ids: set<string>, among: set<string>) {
    forall id :: id in among ==> id in traces && (id in ids <==> !Unresolved(traces[id]))
  }

  /** When a reconciliation of the current version completes, in a first run or a repair, every
      trace that was stored when its first pass ran is adjudicated by that version. */
  lemma ReconciliationAdjudicates(s: State, c: nat, pages: nat)
    requires Inv(s, pages) && Enabled(s, AbsorbPass(c), pages)
    requires s.closers[c].version == VersionOf(s.period)
    ensures var x, t := s.closers[c], Next(s, AbsorbPass(c), pages);
            && x.version in t.headers && x.ids == t.headers[x.version].Keys
            && Adjudicated(t.traces, x.ids, x.known)
  {
    var x, t := s.closers[c], Next(s, AbsorbPass(c), pages);
    assert CloserHolds(s, x, pages);
    AbsorbedAreBilled(s, pages);
  }

  /** Whatever some version absorbed the current one bills. */
  lemma AbsorbedAreBilled(s: State, pages: nat)
    requires Inv(s, pages) && s.period.Some?
    ensures forall id :: id in s.traces && s.traces[id].quarantine.Absorbed? ==> id in s.headers[VersionOf(s.period)]
  {
    var current := VersionOf(s.period);
    forall id | id in s.traces && s.traces[id].quarantine.Absorbed? ensures id in s.headers[current] {
      assert Contained(s.headers[s.traces[id].quarantine.version], s.headers[current]);
    }
  }

  /** The same over whole runs: whatever came before, a run whose last step completes a
      reconciliation of the current version leaves its traces adjudicated. */
  lemma {:induction false} RunsAdjudicate(closers: nat, reopeners: nat, pages: nat, actions: seq<Action>, c: nat)
    requires |actions| > 0 && actions[|actions| - 1] == AbsorbPass(c)
    requires var s := Run(closers, reopeners, pages, actions[..|actions| - 1]);
             Enabled(s, AbsorbPass(c), pages) && s.closers[c].version == VersionOf(s.period)
    ensures var s := Run(closers, reopeners, pages, actions[..|actions| - 1]);
            var t := Run(closers, reopeners, pages, actions);
            VersionOf(t.period) in t.headers
            && Adjudicated(t.traces, t.headers[VersionOf(t.period)].Keys, s.closers[c].known)
  {
    var front := actions[..|actions| - 1];
    RunHolds(closers, reopeners, pages, front);
    ReconciliationAdjudicates(Run(closers, reopeners, pages, front), c, pages);
  }

  /** The repair path starts from the ids the committing close held: the stored snapshot's. */
  lemma RepairUsesTheSnapshot(s: State, c: nat, pages: nat)
    requires Inv(s, pages) && Enabled(s, FindPeriod(c), pages) && s.period.Some? && s.period.value.closed
    ensures s.period.value.version in s.headers
    ensures Next(s, FindPeriod(c), pages).closers[c]
         == Flagging(s.period.value.version, s.headers[s.period.value.version].Keys)
  {}

  /** A retry converges: running the passes again, after a crash between them or after they
      completed, reaches the state of one uninterrupted run. */
  lemma ReconcileConverges(traces: Traces, ids: set<string>, version: nat)
    ensures Reconcile(FlagStragglers(traces, ids), ids, version) == Reconcile(traces, ids, version)
    ensures Reconcile(Reconcile(traces, ids, version), ids, version) == Reconcile(traces, ids, version)
  {}

  /** Reconciliations must run in version order. On a month adjudicated by the current version, a
      delayed reconciliation of an older one keeps it adjudicated exactly when every trace billed
      since already carries a quarantine mark. */
  lemma OlderReconciliationIff(traces: Traces, older: set<string>, current: set<string>, version: nat)
    requires older <= current && Adjudicated(traces, current, traces.Keys)
    ensures Adjudicated(Reconcile(traces, older, version), current, traces.Keys)
            <==> forall id :: id in traces && id in current && id !in older ==> !traces[id].quarantine.Clear?
  {
    var after := Reconcile(traces, older, version);
    assert after.Keys == traces.Keys;
    if id :| id in traces && id in current && id !in older && traces[id].quarantine.Clear? {
      assert Unresolved(after[id]);
    }
  }

  /** And re-running the current version's reconciliation heals whatever an older one did. */
  lemma CurrentReconciliationHeals(s: State, pages: nat, older: set<string>, oldVersion: nat)
    requires Inv(s, pages) && VersionOf(s.period) in s.headers && oldVersion in s.headers
    requires older == s.headers[oldVersion].Keys
    ensures var ids := s.headers[VersionOf(s.period)].Keys;
            Adjudicated(Reconcile(Reconcile(s.traces, older, oldVersion), ids, VersionOf(s.period)), ids, s.traces.Keys)
  {
    var current := VersionOf(s.period);
    AbsorbedAreBilled(s, pages);
    assert Contained(s.headers[oldVersion], s.headers[current]);
  }

  // ---------------------------------------------------------------- why version order matters

  lemma RunSnoc(actions: seq<Action>, a: Action)
    ensures Run(2, 1, 1, actions + [a]) ==
            var s := Run(2, 1, 1, actions); if Enabled(s, a, 1) then Next(s, a, 1) else s
  {
    assert (actions + [a])[..|actions|] == actions;
  }

  /** A close of the one-page month by closer `c`, up to its commit. */
  function CloseActions(c: nat): seq<Action> {
    [FindPeriod(c), CheckPending(c), StartClose(c), ReadPage(c), Commit(c)]
  }

  /** An open month on which closer `c` can run through. */
  ghost predicate Closable(s: State, c: nat, version: nat) {
    && c < |s.closers| && s.closers[c].Resting? && !AnyPending(s.traces)
    && (s.period.Some? ==> !s.period.value.closed)
    && version == Max(VersionOf(s.period), HighestHeader(s.headers)) + 1 && version !in s.headers
  }

  lemma ReadsWholeMonth(s: State, c: nat, version: nat)
    requires Closable(s, c, version)
    ensures Enabled(s, FindPeriod(c), 1) && Next(s, FindPeriod(c), 1) == WithCloser(s, c, Found(VersionOf(s.period)))
    ensures var t := WithCloser(s, c, Found(VersionOf(s.period)));
            Enabled(t, CheckPending(c), 1)
              && Next(t, CheckPending(c), 1) == WithCloser(s, c, Checked(VersionOf(s.period)))
    ensures var t := WithCloser(s, c, Checked(VersionOf(s.period)));
            Enabled(t, StartClose(c), 1)
              && Next(t, StartClose(c), 1) == WithCloser(s, c, Reading(version, 0, map[], StampedIds(s.traces)))
    ensures var t := WithCloser(s, c, Reading(version, 0, map[], StampedIds(s.traces)));
            Enabled(t, ReadPage(c), 1)
              && Next(t, ReadPage(c), 1)
                  == WithCloser(s, c, Reading(version, 1, PageUsage(s.traces, 0), StampedIds(s.traces)))
  {
    var empty: Billed := map[];
    assert empty + PageUsage(s.traces, 0) == PageUsage(s.traces, 0);
  }

  lemma CommitsVersion(s: State, c: nat, version: nat)
    requires Closable(s, c, version)
    ensures var t := WithCloser(s, c, Reading(version, 1, PageUsage(s.traces, 0), StampedIds(s.traces)));
            && Enabled(t, Commit(c), 1)
            && Next(t, Commit(c), 1) == s.(
                 period := Some(Period(true, version, AuditOf(s.period) + [CloseEntry(version)])),
                 headers := s.headers[version := PageUsage(s.traces, 0)],
                 closers := s.closers[c := Flagging(version, PageUsage(s.traces, 0).Keys)])
  {}

  lemma CloseReads(actions: seq<Action>, c: nat, version: nat)
    requires Closable(Run(2, 1, 1, actions), c, version)
    ensures var s := Run(2, 1, 1, actions);
            Run(2, 1, 1, actions + [FindPeriod(c)] + [CheckPending(c)] + [StartClose(c)] + [ReadPage(c)])
            == WithCloser(s, c, Reading(version, 1, PageUsage(s.traces, 0), StampedIds(s.traces)))
  {
    var s := Run(2, 1, 1, actions);
    ReadsWholeMonth(s, c, version);
    var a1 := actions + [FindPeriod(c)];
    RunSnoc(actions, FindPeriod(c));
    var a2 := a1 + [CheckPending(c)];
    RunSnoc(a1, CheckPending(c));
    var a3 := a2 + [StartClose(c)];
    RunSnoc(a2, StartClose(c));
    RunSnoc(a3, ReadPage(c));
  }

  /** On an open month with nothing pending, those steps publish the next version. */
  lemma CloseCommits(actions: seq<Action>, c: nat, version: nat)
    requires Closable(Run(2, 1, 1, actions), c, version)
    ensures var s := Run(2, 1, 1, actions);
            Run(2, 1, 1, actions + CloseActions(c)) == s.(
              period := Some(Period(true, version, AuditOf(s.period) + [CloseEntry(version)])),
              headers := s.headers[version := PageUsage(s.traces, 0)],
              closers := s.closers[c := Flagging(version, PageUsage(s.traces, 0).Keys)])
  {
    CloseReads(actions, c, version);
    CommitsVersion(Run(2, 1, 1, actions), c, version);
    var read := actions + [FindPeriod(c)] + [CheckPending(c)] + [StartClose(c)] + [ReadPage(c)];
    RunSnoc(read, Commit(c));
    assert actions + CloseActions(c) == read + [Commit(c)];
  }

  const ONE: Trace := Trace(0, Stamped(1), Clear)

  /** v1 bills a, the month reopens, b arrives, v2 bills both; nothing is reconciled yet. */
  function TwoCloses(): seq<Action> {
    [Ingest("a", 0, Stamped(1), false)] + CloseActions(0) + [FindForReopen(0), Reopen(0)]
    + [Ingest("b", 0, Stamped(1), false)] + CloseActions(1)
  }

  lemma AfterFirstClose()
    ensures var t := Run(2, 1, 1, [Ingest("a", 0, Stamped(1), false)] + CloseActions(0));
            && t.traces == map["a" := ONE] && t.headers == map[1 := map["a" := 1]]
            && t.period == Some(Period(true, 1, [CloseEntry(1)]))
            && t.closers == [Flagging(1, {"a"}), Resting] && t.reopeners == [Asleep]
  {
    var a0 := [Ingest("a", 0, Stamped(1), false)];
    RunSnoc([], a0[0]);
    assert [] + a0 == a0;
    var s := Run(2, 1, 1, a0);
    assert Initial(2, 1).closers == [Resting, Resting] && Initial(2, 1).reopeners == [Asleep];
    assert s.traces == map["a" := ONE] && s.headers == map[] && s.closers == [Resting, Resting];
    assert s.period == None && s.reopeners == [Asleep];
    CloseCommits(a0, 0, 1);
    assert PageUsage(s.traces, 0) == map["a" := 1];
    assert PageUsage(s.traces, 0).Keys == {"a"};
    assert AuditOf(s.period) + [CloseEntry(1)] == [CloseEntry(1)];
  }

  /** The same run up to the second close. */
  function ReopenedActions(): seq<Action> {
    [Ingest("a", 0, Stamped(1), false)] + CloseActions(0) + [FindForReopen(0)] + [Reopen(0)]
    + [Ingest("b", 0, Stamped(1), false)]
  }

  lemma AfterReopen()
    ensures var t := Run(2, 1, 1, ReopenedActions());
            && t.traces == map["a" := ONE, "b" := ONE] && t.headers == map[1 := map["a" := 1]]
            && t.period == Some(Period(false, 1, [CloseEntry(1), ReopenEntry(1)]))
            && t.closers == [Flagging(1, {"a"}), Resting]
  {
    AfterFirstClose();
    var a1 := [Ingest("a", 0, Stamped(1), false)] + CloseActions(0);
    RunSnoc(a1, FindForReopen(0));
    var a2 := a1 + [FindForReopen(0)];
    assert Run(2, 1, 1, a2).reopeners == [Saw(1)];
    RunSnoc(a2, Reopen(0));
    assert [CloseEntry(1)] + [ReopenEntry(1)] == [CloseEntry(1), ReopenEntry(1)];
    RunSnoc(a2 + [Reopen(0)], Ingest("b", 0, Stamped(1), false));
  }

  lemma AfterSecondClose()
    ensures var t := Run(2, 1, 1, TwoCloses());
            && t.traces == map["a" := ONE, "b" := ONE]
            && t.headers == map[1 := map["a" := 1], 2 := map["a" := 1, "b" := 1]]
            && t.closers == [Flagging(1, {"a"}), Flagging(2, {"a", "b"})]
            && VersionOf(t.period) == 2
  {
    AfterReopen();
    var actions := ReopenedActions();
    var s := Run(2, 1, 1, actions);
    assert s.headers.Keys == {1} && HighestHeader(s.headers) == 1;
    CloseCommits(actions, 1, 2);
    assert PageUsage(s.traces, 0) == map["a" := 1, "b" := 1];
    assert PageUsage(s.traces, 0).Keys == {"a", "b"};
    assert actions + CloseActions(1) == TwoCloses();
  }

  /** Version 2's reconciliation finds nothing to do. */
  lemma AfterSecondReconcile()
    ensures var s, t := Run(2, 1, 1, TwoCloses()), Run(2, 1, 1, TwoCloses() + [FlagPass(1)] + [AbsorbPass(1)]);
            && t.traces == s.traces && t.headers == s.headers && t.period == s.period
            && t.closers == [Flagging(1, {"a"}), Resting]
  {
    AfterSecondClose();
    var a0 := TwoCloses();
    var s := Run(2, 1, 1, a0);
    RunSnoc(a0, FlagPass(1));
    var a1 := a0 + [FlagPass(1)];
    assert FlagStragglers(s.traces, {"a", "b"}) == s.traces;
    RunSnoc(a1, AbsorbPass(1));
    assert AbsorbBilled(s.traces, {"a", "b"}, 2) == s.traces;
  }

  /** The reconciliations run in the wrong order: v2's passes, and after them v1's. */
  lemma WrongOrderFlagsABilledTrace()
    ensures var t := Run(2, 1, 1, TwoCloses() + [FlagPass(1)] + [AbsorbPass(1)] + [FlagPass(0)] + [AbsorbPass(0)]);
            && VersionOf(t.period) == 2 && 2 in t.headers && "b" in t.headers[2]
            && "b" in t.traces && Unresolved(t.traces["b"])
  {
    AfterSecondClose();
    AfterSecondReconcile();
    var a2 := TwoCloses() + [FlagPass(1)] + [AbsorbPass(1)];
    RunSnoc(a2, FlagPass(0));
    var a3 := a2 + [FlagPass(0)];
    assert Run(2, 1, 1, a3).closers[0] == Absorbing(1, {"a"}, Run(2, 1, 1, a2).traces.Keys);
    assert Unresolved(Run(2, 1, 1, a3).traces["b"]);
    RunSnoc(a3, AbsorbPass(0));
  }
}
