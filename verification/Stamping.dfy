/** trace-ingestor.ts: stamp and model stay bound, over a growing price table. */
module Stamping {
  import opened Wrappers
  import opened Money
  import opened Sums
  import opened StatementModel
  import opened StatementSpec
  import opened StatementTheorems
  import opened Prices
  import opened PriceCache
  import opened BatchLookups

  // Ingestion with direct lookups or a batch's cached ones, the pinned stamp of pending traces
  // (reprocess-pending-db-use-case.ts) and the source refresh of attribution (trace-repository.ts) are
  // one transition system.

  datatype ModelRef = ModelRef(id: string, provider: Option<string>)

  /** `modelKey`: the price table's spelling of a model. */
  function ModelKey(m: ModelRef): string {
    if m.provider.Some? then m.provider.value + "/" + m.id else m.id
  }

  /** Models with a provider share a key only if they are the same, as long as no provider has a slash. */
  lemma ModelKeysDiffer(m: ModelRef, n: ModelRef)
    requires m.provider.Some? && n.provider.Some? && '/' !in m.provider.value && '/' !in n.provider.value
    ensures ModelKey(m) == ModelKey(n) ==> m == n
  {
    if ModelKey(m) == ModelKey(n) {
      var p, q := m.provider.value, n.provider.value;
      assert ModelKey(m)[|p|] == '/' && ModelKey(n)[|q|] == '/';
      assert forall i :: 0 <= i < |p| ==> ModelKey(m)[i] == p[i];
      assert forall i :: 0 <= i < |q| ==> ModelKey(n)[i] == q[i];
      assert |p| == |q|;
      assert p == ModelKey(m)[..|p|] && q == ModelKey(n)[..|q|];
      assert m.id == ModelKey(m)[|p| + 1..] && n.id == ModelKey(n)[|q| + 1..];
    }
  }

  datatype Trace = Trace(startedAt: int, tokens: TokenCounts, model: Option<ModelRef>, pricing: StampOutcome)

  /** `tables` is the price table's history, latest last; `held` are pending traces as some sweep
      read them. */
  datatype State = State(
    tables: seq<seq<PriceVersion>>, batches: seq<Batch>, traces: map<string, Trace>, held: set<(string, Trace)>)

  /** A windowed sync asks the table, a batch its cache. */
  datatype Lookup = Direct(table: nat) | FromBatch(batch: nat)

  datatype Action =
    | RegisterPrice(version: PriceVersion)
    | OpenBatch
    | ReadDates(batch: nat, priced: string)
    | FillEntry(batch: nat, priced: string, at: int)
    | Ingest(id: string, startedAt: int, tokens: TokenCounts, model: Option<ModelRef>, quarantined: bool,
             lookup: Lookup)
    | Refresh(id: string, model: Option<ModelRef>)
    | ReadPending(id: string)
    | StampPending(id: string, read: Trace, table: nat)

  /** The stamp of a trace under a table as of `at`; no model means no prices. */
  function StampUnder(table: seq<PriceVersion>, at: int, tokens: TokenCounts, model: Option<ModelRef>)
    : Result<StampOutcome, MoneyError>
  {
    StampTokens(tokens, if model.Some? then PricesAt(table, ModelKey(model.value), at) else map[], model.Some?)
  }

  /** `updateAttribution`, the model half: absent models refresh nothing, stamped traces refuse. */
  function RefreshModel(t: Trace, model: Option<ModelRef>): Trace {
    if model.None? || t.pricing.Stamped? then t else t.(model := model)
  }

  // ---------------------------------------------------------------- the steps

  predicate CanLookUp(s: State, lookup: Lookup, startedAt: int, model: Option<ModelRef>) {
    match lookup
    case Direct(table) => table < |s.tables|
    case FromBatch(b) =>
      && |s.tables| > 0 && b < |s.batches|
      && (model.Some? ==> HasEntry(s.tables, s.batches[b], ModelKey(model.value), startedAt))
  }

  /** The table and the date an ingest's prices are those of. */
  function SourceOf(s: State, lookup: Lookup, startedAt: int, model: Option<ModelRef>): (filled: Filled)
    requires CanLookUp(s, lookup, startedAt, model)
    ensures filled.table < |s.tables|
  {
    match lookup
    case Direct(table) => Filled(table, startedAt)
    case FromBatch(b) =>
      if model.None? then Filled(0, startedAt)
      else s.batches[b].entries[Slot(s.tables, s.batches[b], ModelKey(model.value), startedAt)]
  }

  predicate Enabled(s: State, a: Action) {
    match a
    case RegisterPrice(v) => |s.tables| > 0
    case OpenBatch => true
    case ReadDates(b, _) => |s.tables| > 0 && b < |s.batches|
    case FillEntry(b, key, _) => |s.tables| > 0 && b < |s.batches| && HasDates(s.tables, s.batches[b], key)
    case Ingest(_, startedAt, _, model, _, lookup) => CanLookUp(s, lookup, startedAt, model)
    case Refresh(id, _) => id in s.traces
    case ReadPending(id) => id in s.traces && s.traces[id].pricing.PendingPrice?
    case StampPending(id, read, table) => (id, read) in s.held && table < |s.tables|
  }

  /** The answer to a lookup, stored as a new trace's stamp or used to refresh a known one. */
  function Ingested(s: State, id: string, startedAt: int, tokens: TokenCounts, model: Option<ModelRef>,
                    quarantined: bool, stamp: Result<StampOutcome, MoneyError>): State
  {
    if stamp.Err? then s
    else if id in s.traces then
      if quarantined then s else s.(traces := s.traces[id := RefreshModel(s.traces[id], model)])
    else s.(traces := s.traces[id := Trace(startedAt, tokens, model, stamp.value)])
  }

  /** Direct lookups may have read any table that has existed; a cache reads the table of the moment. */
  function Next(s: State, a: Action): State
    requires Enabled(s, a)
  {
    match a
    case RegisterPrice(v) =>
      var grown := InsertVersion(s.tables[|s.tables| - 1], v);
      if grown.None? then s else s.(tables := s.tables + [grown.value])
    case OpenBatch => s.(batches := s.batches + [Batch(map[], map[])])
    case ReadDates(b, key) => s.(batches := s.batches[b := WithDates(s.tables, s.batches[b], key)])
    case FillEntry(b, key, at) => s.(batches := s.batches[b := WithEntry(s.tables, s.batches[b], key, at)])
    case Ingest(id, startedAt, tokens, model, quarantined, lookup) =>
      var source := SourceOf(s, lookup, startedAt, model);
      Ingested(s, id, startedAt, tokens, model, quarantined,
               StampUnder(s.tables[source.table], source.at, tokens, model))
    case Refresh(id, model) => s.(traces := s.traces[id := RefreshModel(s.traces[id], model)])
    case ReadPending(id) => s.(held := s.held + {(id, s.traces[id])})
    case StampPending(id, read, table) =>
      var stamp := StampUnder(s.tables[table], read.startedAt, read.tokens, read.model);
      if stamp.Err? || !stamp.value.Stamped? || id !in s.traces
         || !s.traces[id].pricing.PendingPrice? || s.traces[id].model != read.model
      then s
      else s.(traces := s.traces[id := s.traces[id].(pricing := stamp.value)])
  }

  // ---------------------------------------------------------------- the binding

  /** The stamp is what the table gives for the trace as stored. */
  predicate BoundUnder(table: seq<PriceVersion>, t: Trace) {
    StampUnder(table, t.startedAt, t.tokens, t.model) == Ok(t.pricing)
  }

  /** The stamp is what some table that has existed gives. */
  ghost predicate Bound(tables: seq<seq<PriceVersion>>, t: Trace) {
    exists k :: 0 <= k < |tables| && BoundUnder(tables[k], t)
  }

  /** The dates were read from the `d`-th table and the prices, for a date of the trace's interval,
      from the `e`-th. */
  predicate ServedFrom(tables: seq<seq<PriceVersion>>, t: Trace, d: nat, e: nat, at: int) {
    && d <= e < |tables|
    && (t.model.Some? ==> OneInterval(tables[d], ModelKey(t.model.value), at, t.startedAt))
    && StampUnder(tables[e], at, t.tokens, t.model) == Ok(t.pricing)
  }

  ghost predicate Served(tables: seq<seq<PriceVersion>>, t: Trace) {
    exists d: nat, e: nat, at :: ServedFrom(tables, t, d, e, at)
  }

  ghost predicate Inv(s: State) {
    && |s.tables| > 0
    && (forall k :: 0 <= k < |s.tables| ==> UniqueSlots(s.tables[k]))
    && (forall i, j :: 0 <= i < j < |s.tables| ==> s.tables[i] < s.tables[j])
    && (forall b :: 0 <= b < |s.batches| ==> BatchHolds(s.tables, s.batches[b]))
    && (forall id :: id in s.traces && s.traces[id].pricing.Stamped? ==> Served(s.tables, s.traces[id]))
    && (forall id, read :: (id, read) in s.held ==>
          id in s.traces && s.traces[id].startedAt == read.startedAt && s.traces[id].tokens == read.tokens)
  }

  /** What no step changes: the price tables that existed, a trace's date and counts, and, once
      it is stamped, its stamp and its model. */
  ghost predicate Preserves(s: State, t: State) {
    && s.tables <= t.tables
    && forall id :: id in s.traces ==>
         && id in t.traces
         && t.traces[id].startedAt == s.traces[id].startedAt && t.traces[id].tokens == s.traces[id].tokens
         && (s.traces[id].pricing.Stamped? ==> t.traces[id] == s.traces[id])
         && (s.traces[id].pricing.NoMeasuredUsage? ==> t.traces[id].pricing.NoMeasuredUsage?)
  }

  lemma ServedKept(s: seq<seq<PriceVersion>>, t: seq<seq<PriceVersion>>, trace: Trace)
    requires Served(s, trace) && s <= t
    ensures Served(t, trace)
  {
    var d: nat, e: nat, at :| ServedFrom(s, trace, d, e, at);
    assert t[d] == s[d] && t[e] == s[e];
    assert ServedFrom(t, trace, d, e, at);
  }

  lemma BoundIsServed(tables: seq<seq<PriceVersion>>, trace: Trace, k: nat)
    requires k < |tables| && BoundUnder(tables[k], trace)
    ensures Served(tables, trace)
  {
    assert ServedFrom(tables, trace, k, k, trace.startedAt);
  }

  lemma StepPreserves(s: State, a: Action)
    requires Enabled(s, a)
    ensures Preserves(s, Next(s, a))
  {
    if a.Ingest? {
      IngestPreserves(s, a);
    }
  }

  lemma IngestPreserves(s: State, a: Action)
    requires Enabled(s, a) && a.Ingest?
    ensures Preserves(s, Next(s, a))
  {}

  lemma TablesGrow(s: State, a: Action)
    requires Inv(s) && Enabled(s, a)
    ensures forall i, j :: 0 <= i < j < |Next(s, a).tables| ==> Next(s, a).tables[i] < Next(s, a).tables[j]
    ensures forall k :: 0 <= k < |Next(s, a).tables| ==> UniqueSlots(Next(s, a).tables[k])
  {
    var n := |s.tables| - 1;
    forall i, j | 0 <= i < j < |Next(s, a).tables| ensures Next(s, a).tables[i] < Next(s, a).tables[j] {
      if j == n + 1 && i < n {
        assert s.tables[i] < s.tables[n];
      }
    }
  }

  lemma BatchesHold(s: State, a: Action, b: nat)
    requires Inv(s) && Enabled(s, a) && b < |Next(s, a).batches|
    ensures BatchHolds(Next(s, a).tables, Next(s, a).batches[b])
  {
    if b < |s.batches| {
      assert BatchHolds(s.tables, s.batches[b]);
      match a
      case ReadDates(_, key) => BatchGrows(s.tables, s.batches[b], key, 0);
      case FillEntry(_, key, at) => BatchGrows(s.tables, s.batches[b], key, at);
      case RegisterPrice(_) => BatchKept(s.tables, Next(s, a).tables, s.batches[b]);
      case _ =>
    }
  }

  /** What an ingest stores was served. */
  lemma IngestServes(s: State, a: Action)
    requires Inv(s) && Enabled(s, a) && a.Ingest?
    requires var source := SourceOf(s, a.lookup, a.startedAt, a.model);
             StampUnder(s.tables[source.table], source.at, a.tokens, a.model).Ok?
    ensures var source := SourceOf(s, a.lookup, a.startedAt, a.model);
            var stamp := StampUnder(s.tables[source.table], source.at, a.tokens, a.model);
            Served(s.tables, Trace(a.startedAt, a.tokens, a.model, stamp.value))
  {
    var source := SourceOf(s, a.lookup, a.startedAt, a.model);
    var stamp := StampUnder(s.tables[source.table], source.at, a.tokens, a.model);
    var trace := Trace(a.startedAt, a.tokens, a.model, stamp.value);
    if a.lookup.FromBatch? && a.model.Some? {
      var batch, key := s.batches[a.lookup.batch], ModelKey(a.model.value);
      assert BatchHolds(s.tables, batch);
      assert ServedFrom(s.tables, trace, batch.dates[key], source.table, source.at);
    } else {
      BoundIsServed(s.tables, trace, source.table);
    }
  }

  lemma StepBinds(s: State, a: Action, id: string)
    requires Inv(s) && Enabled(s, a)
    requires id in Next(s, a).traces && Next(s, a).traces[id].pricing.Stamped?
    ensures Served(Next(s, a).tables, Next(s, a).traces[id])
  {
    var t := Next(s, a);
    StepPreserves(s, a);
    if id in s.traces && s.traces[id].pricing.Stamped? {
      ServedKept(s.tables, t.tables, s.traces[id]);
    } else if a.Ingest? {
      IngestServes(s, a);
    } else {
      BoundIsServed(t.tables, t.traces[id], a.table);
    }
  }

  lemma StepKeeps(s: State, a: Action)
    requires Inv(s) && Enabled(s, a)
    ensures Inv(Next(s, a)) && Preserves(s, Next(s, a))
  {
    StepPreserves(s, a);
    TablesGrow(s, a);
    forall b | 0 <= b < |Next(s, a).batches| ensures BatchHolds(Next(s, a).tables, Next(s, a).batches[b]) {
      BatchesHold(s, a, b);
    }
    forall id | id in Next(s, a).traces && Next(s, a).traces[id].pricing.Stamped?
      ensures Served(Next(s, a).tables, Next(s, a).traces[id])
    {
      StepBinds(s, a, id);
    }
  }

  // ---------------------------------------------------------------- whole runs

  /** The state after a list of actions; one that is not enabled changes nothing. */
  function Run(initial: seq<PriceVersion>, actions: seq<Action>): State {
    if |actions| == 0 then State([initial], [], map[], {})
    else
      var s, a := Run(initial, actions[..|actions| - 1]), actions[|actions| - 1];
      if Enabled(s, a) then Next(s, a) else s
  }

  lemma {:induction false} RunHolds(initial: seq<PriceVersion>, actions: seq<Action>)
    requires UniqueSlots(initial)
    ensures Inv(Run(initial, actions))
  {
    if |actions| > 0 {
      var s, a := Run(initial, actions[..|actions| - 1]), actions[|actions| - 1];
      RunHolds(initial, actions[..|actions| - 1]);
      if Enabled(s, a) {
        StepKeeps(s, a);
      }
    }
  }

  lemma {:induction false} RunPreserves(initial: seq<PriceVersion>, actions: seq<Action>, n: nat)
    requires n <= |actions|
    ensures Preserves(Run(initial, actions[..n]), Run(initial, actions))
    decreases |actions|
  {
    if n == |actions| {
      assert actions[..n] == actions;
    } else {
      var front := actions[..|actions| - 1];
      var s, a := Run(initial, front), actions[|actions| - 1];
      RunPreserves(initial, front, n);
      assert front[..n] == actions[..n];
      if Enabled(s, a) {
        StepPreserves(s, a);
      }
    }
  }

  /** A stamp computed for a trace as it was read lands exactly when the trace is still pending with that
      model and the table prices all it used. */
  lemma StampPendingIff(s: State, id: string, read: Trace, table: nat)
    requires Enabled(s, StampPending(id, read, table)) && id in s.traces
    ensures var stamp := StampUnder(s.tables[table], read.startedAt, read.tokens, read.model);
            var before, after := s.traces[id], Next(s, StampPending(id, read, table)).traces[id];
            after == if before.pricing.PendingPrice? && before.model == read.model && stamp.Ok? && stamp.value.Stamped?
                     then before.(pricing := stamp.value) else before
  {}

  /** A trace that was read as pending can be stamped from any table there has been. */
  lemma ReadThenStamp(s: State, id: string, table: nat)
    requires Enabled(s, ReadPending(id)) && table < |s.tables|
    ensures Enabled(Next(s, ReadPending(id)), StampPending(id, s.traces[id], table))
  {}

  // ---------------------------------------------------------------- the model a trace has

  predicate IsStamped(s: State, id: string) {
    id in s.traces && s.traces[id].pricing.Stamped?
  }

  /** The step carries that model for the trace: it is ingested with it for the first time, or known and
      refreshed with it, by the source or by an ingest that is not quarantined. */
  predicate Names(s: State, a: Action, id: string, model: Option<ModelRef>) {
    && Enabled(s, a)
    && match a
       case Ingest(i, startedAt, tokens, m, quarantined, lookup) =>
         var source := SourceOf(s, lookup, startedAt, m);
         && i == id && m == model && StampUnder(s.tables[source.table], source.at, tokens, m).Ok?
         && (id in s.traces ==> !quarantined && m.Some?)
       case Refresh(i, m) => i == id && m == model && m.Some?
       case _ => false
  }

  lemma StepModel(s: State, a: Action, id: string)
    requires Enabled(s, a) && id in Next(s, a).traces
    ensures forall m :: Names(s, a, id, m) && !IsStamped(s, id) ==> Next(s, a).traces[id].model == m
    ensures id !in s.traces ==> Names(s, a, id, Next(s, a).traces[id].model)
    ensures id in s.traces && (IsStamped(s, id) || forall m :: !Names(s, a, id, m)) ==>
              Next(s, a).traces[id].model == s.traces[id].model
  {
    if a.Ingest? && id == a.id {
      assert Names(s, a, id, a.model) <==>
             (id in s.traces ==> !a.quarantined && a.model.Some?) && StampUnder(
               s.tables[SourceOf(s, a.lookup, a.startedAt, a.model).table],
               SourceOf(s, a.lookup, a.startedAt, a.model).at, a.tokens, a.model).Ok?;
    } else if a.Refresh? && id == a.id {
      assert Names(s, a, id, a.model) <==> a.model.Some?;
    }
  }

  ghost predicate NamesSome(s: State, a: Action, id: string) {
    exists model :: Names(s, a, id, model)
  }

  /** The `n`-th step carries that model for the trace, and no later one of the first `m` carries any
      before it is stamped. */
  ghost predicate NamedLast(states: seq<State>, actions: seq<Action>, n: nat, m: nat, id: string,
                            model: Option<ModelRef>)
    requires |states| == |actions| + 1 && n < m <= |actions|
  {
    && Names(states[n], actions[n], id, model)
    && forall k :: n < k < m && NamesSome(states[k], actions[k], id) ==> IsStamped(states[k], id)
  }

  /** What a step makes of the trace's model. */
  ghost predicate ModelStep(s: State, a: Action, t: State, id: string) {
    id in t.traces ==>
      if id !in s.traces || (!IsStamped(s, id) && NamesSome(s, a, id)) then Names(s, a, id, t.traces[id].model)
      else t.traces[id].model == s.traces[id].model
  }

  function RunStates(initial: seq<PriceVersion>, actions: seq<Action>): (states: seq<State>)
    ensures |states| == |actions| + 1
    ensures forall k :: 0 <= k <= |actions| ==> states[k] == Run(initial, actions[..k])
  {
    seq(|actions| + 1, k requires 0 <= k <= |actions| => Run(initial, actions[..k]))
  }

  lemma RunStepModel(initial: seq<PriceVersion>, actions: seq<Action>, n: nat, id: string)
    requires n < |actions|
    ensures ModelStep(Run(initial, actions[..n]), actions[n], Run(initial, actions[..n + 1]), id)
  {
    var s, a := Run(initial, actions[..n]), actions[n];
    assert actions[..n + 1][..n] == actions[..n];
    if Enabled(s, a) && id in Next(s, a).traces {
      StepModel(s, a, id);
    }
  }

  lemma {:induction false} LastNamed(states: seq<State>, actions: seq<Action>, m: nat, id: string) returns (n: nat)
    requires |states| == |actions| + 1 && m <= |actions| && id !in states[0].traces && id in states[m].traces
    requires forall k :: 0 <= k < |actions| ==> ModelStep(states[k], actions[k], states[k + 1], id)
    ensures n < m && NamedLast(states, actions, n, m, id, states[m].traces[id].model)
  {
    var s, a := states[m - 1], actions[m - 1];
    assert ModelStep(s, a, states[m - 1 + 1], id);
    if id !in s.traces || (!IsStamped(s, id) && NamesSome(s, a, id)) {
      n := m - 1;
    } else {
      n := LastNamed(states, actions, m - 1, id);
    }
  }

  /** In every run, a trace has the last model that a step carried for it until it was stamped. */
  lemma LastModel(initial: seq<PriceVersion>, actions: seq<Action>, id: string) returns (n: nat)
    requires id in Run(initial, actions).traces
    ensures n < |actions|
    ensures NamedLast(RunStates(initial, actions), actions, n, |actions|, id, Run(initial, actions).traces[id].model)
  {
    var states := RunStates(initial, actions);
    assert actions[..|actions|] == actions;
    forall k | 0 <= k < |actions| ensures ModelStep(states[k], actions[k], states[k + 1], id) {
      RunStepModel(initial, actions, k, id);
    }
    n := LastNamed(states, actions, |actions|, id);
  }

  /** Every version of the answering table that shows in the trace's interval had its date read. */
  ghost predicate ReadRight(tables: seq<seq<PriceVersion>>, t: Trace, d: nat, e: nat)
    requires d < |tables| && e < |tables|
  {
    t.model.Some? ==> DatesCover(tables[d], tables[e], ModelKey(t.model.value), t.startedAt)
  }

  lemma ServedIsBound(tables: seq<seq<PriceVersion>>, t: Trace, d: nat, e: nat, at: int)
    requires ServedFrom(tables, t, d, e, at) && UniqueSlots(tables[e]) && ReadRight(tables, t, d, e)
    ensures BoundUnder(tables[e], t)
  {
    if t.model.Some? {
      CoveredAnswer(tables[d], tables[e], ModelKey(t.model.value), at, t.startedAt);
    }
  }

  /** Where a stamp comes from, and what that makes of it: it is bound to the trace's own date under
      the table that answered, unless a version showed whose date had not been read. */
  ghost predicate Provenance(tables: seq<seq<PriceVersion>>, t: Trace, d: nat, e: nat, at: int) {
    && ServedFrom(tables, t, d, e, at)
    && (ReadRight(tables, t, d, e) ==> BoundUnder(tables[e], t))
    && (d == e ==> BoundUnder(tables[e], t))
  }

  /** In every run, a stamped trace's costs are what `stampTokens` gives for its stored tokens under
      its stored model's prices at a table that existed when it was stamped, as of a date of its own
      interval; as of its own date whenever every version that shows in the interval had its date
      read; and nothing later touches that stamp or that model. */
  lemma StampStaysBound(initial: seq<PriceVersion>, actions: seq<Action>, n: nat, id: string)
    requires UniqueSlots(initial) && n <= |actions| && id in Run(initial, actions[..n]).traces
    requires Run(initial, actions[..n]).traces[id].pricing.Stamped?
    ensures var s, t := Run(initial, actions[..n]), Run(initial, actions);
            && id in t.traces && t.traces[id] == s.traces[id] && s.tables <= t.tables
            && exists d: nat, e: nat, at :: Provenance(s.tables, t.traces[id], d, e, at)
  {
    RunHolds(initial, actions[..n]);
    RunPreserves(initial, actions, n);
    var s := Run(initial, actions[..n]);
    var d: nat, e: nat, at :| ServedFrom(s.tables, s.traces[id], d, e, at);
    if ReadRight(s.tables, s.traces[id], d, e) {
      ServedIsBound(s.tables, s.traces[id], d, e, at);
    }
    if d == e && s.traces[id].model.Some? {
      SameTableCovers(s.tables[e], ModelKey(s.traces[id].model.value), s.traces[id].startedAt);
      ServedIsBound(s.tables, s.traces[id], d, e, at);
    }
    assert Provenance(s.tables, s.traces[id], d, e, at);
  }

  // ---------------------------------------------------------------- exactly when a batch stamps right

  /** Every ingest of a new trace of the model through the entry of `at` leaves the state a direct
      lookup in the `e`-th table leaves. */
  ghost predicate IngestsRight(s: State, b: nat, model: ModelRef, at: int, id: string, quarantined: bool, e: nat)
    requires b < |s.batches| && HasDates(s.tables, s.batches[b], ModelKey(model))
  {
    forall startedAt, tokens ::
      OneInterval(s.tables[s.batches[b].dates[ModelKey(model)]], ModelKey(model), startedAt, at) ==>
      SameIngest(s, id, startedAt, tokens, model, quarantined, b, e)
  }

  lemma RightIngest(s: State, b: nat, model: ModelRef, at: int, id: string, quarantined: bool,
                    source: Filled, startedAt: int, tokens: TokenCounts)
    requires Inv(s) && b < |s.batches| && HasEntry(s.tables, s.batches[b], ModelKey(model), at)
    requires source == SourceOf(s, FromBatch(b), at, Some(model))
    requires var dated := s.tables[s.batches[b].dates[ModelKey(model)]];
             && OneInterval(dated, ModelKey(model), source.at, at) && OneInterval(dated, ModelKey(model), startedAt, at)
             && DatesCover(dated, s.tables[source.table], ModelKey(model), at)
    ensures SameIngest(s, id, startedAt, tokens, model, quarantined, b, source.table)
  {
    var key := ModelKey(model);
    CoveredAnswer(s.tables[s.batches[b].dates[key]], s.tables[source.table], key, source.at, startedAt);
    assert Slot(s.tables, s.batches[b], key, startedAt) == Slot(s.tables, s.batches[b], key, at);
  }

  /** Ingesting new traces of a model through a batch's entry is ingesting them with direct lookups in
      the table the entry was filled from, whatever their dates in the interval and their usage, if
      and only if every version that shows in the interval had its date read; whatever has been
      registered since. */
  lemma IngestRightIff(s: State, b: nat, model: ModelRef, at: int, id: string, quarantined: bool)
    requires Inv(s) && b < |s.batches| && HasEntry(s.tables, s.batches[b], ModelKey(model), at) && id !in s.traces
    requires SafePrices(s.tables[SourceOf(s, FromBatch(b), at, Some(model)).table])
    ensures var key, e := ModelKey(model), SourceOf(s, FromBatch(b), at, Some(model)).table;
            IngestsRight(s, b, model, at, id, quarantined, e)
            <==> DatesCover(s.tables[s.batches[b].dates[key]], s.tables[e], key, at)
  {
    var key, source := ModelKey(model), SourceOf(s, FromBatch(b), at, Some(model));
    var dated, filled := s.tables[s.batches[b].dates[key]], s.tables[source.table];
    assert OneInterval(dated, key, source.at, at) by {
      assert BatchHolds(s.tables, s.batches[b]);
    }
    if DatesCover(dated, filled, key, at) {
      forall startedAt, tokens | OneInterval(dated, key, startedAt, at)
        ensures SameIngest(s, id, startedAt, tokens, model, quarantined, b, source.table)
      {
        RightIngest(s, b, model, at, id, quarantined, source, startedAt, tokens);
      }
    } else {
      SomeIngestWrong(s, b, model, at, id, quarantined, source);
    }
  }

  lemma SomeIngestWrong(s: State, b: nat, model: ModelRef, at: int, id: string, quarantined: bool, source: Filled)
    requires Inv(s) && b < |s.batches| && HasEntry(s.tables, s.batches[b], ModelKey(model), at) && id !in s.traces
    requires source == SourceOf(s, FromBatch(b), at, Some(model)) && SafePrices(s.tables[source.table])
    requires OneInterval(s.tables[s.batches[b].dates[ModelKey(model)]], ModelKey(model), source.at, at)
    requires !DatesCover(s.tables[s.batches[b].dates[ModelKey(model)]], s.tables[source.table], ModelKey(model), at)
    ensures !IngestsRight(s, b, model, at, id, quarantined, source.table)
  {
    var key := ModelKey(model);
    var dated := s.tables[s.batches[b].dates[key]];
    var startedAt, tokens := WrongDate(dated, s.tables[source.table], key, source.at, at);
    assert Slot(s.tables, s.batches[b], key, startedAt) == Slot(s.tables, s.batches[b], key, at);
    WrongIngest(s, id, startedAt, tokens, model, quarantined, b, source);
  }

  lemma WrongIngest(s: State, id: string, startedAt: int, tokens: TokenCounts, model: ModelRef, quarantined: bool,
                    b: nat, source: Filled)
    requires CanLookUp(s, FromBatch(b), startedAt, Some(model)) && id !in s.traces
    requires source == SourceOf(s, FromBatch(b), startedAt, Some(model))
    requires var filled, key := s.tables[source.table], ModelKey(model);
             StampsDiffer(tokens, PricesAt(filled, key, source.at), PricesAt(filled, key, startedAt))
    ensures !SameIngest(s, id, startedAt, tokens, model, quarantined, b, source.table)
  {
    var cached := Next(s, Ingest(id, startedAt, tokens, Some(model), quarantined, FromBatch(b)));
    var direct := Next(s, Ingest(id, startedAt, tokens, Some(model), quarantined, Direct(source.table)));
    assert cached.traces[id].pricing != direct.traces[id].pricing;
  }

  /** Through the batch and straight from the `e`-th table, the ingest leaves the same state. */
  ghost predicate SameIngest(s: State, id: string, startedAt: int, tokens: TokenCounts, model: ModelRef,
                             quarantined: bool, b: nat, e: nat)
  {
    var cached := Ingest(id, startedAt, tokens, Some(model), quarantined, FromBatch(b));
    var direct := Ingest(id, startedAt, tokens, Some(model), quarantined, Direct(e));
    Enabled(s, cached) && Enabled(s, direct) && Next(s, cached) == Next(s, direct)
  }

  /** A cached ingest's entry covers its interval: every version that shows there had its date read. */
  ghost predicate Covered(s: State, a: Action) {
    Enabled(s, a) && a.Ingest? && a.lookup.FromBatch? && a.model.Some? ==>
      var key := ModelKey(a.model.value);
      var source := SourceOf(s, a.lookup, a.startedAt, a.model);
      DatesCover(s.tables[s.batches[a.lookup.batch].dates[key]], s.tables[source.table], key, a.startedAt)
  }

  ghost predicate AllBound(s: State) {
    forall id :: id in s.traces && s.traces[id].pricing.Stamped? ==> Bound(s.tables, s.traces[id])
  }

  lemma BoundKept(s: seq<seq<PriceVersion>>, t: seq<seq<PriceVersion>>, trace: Trace)
    requires Bound(s, trace) && s <= t
    ensures Bound(t, trace)
  {
    var k :| 0 <= k < |s| && BoundUnder(s[k], trace);
    assert t[k] == s[k];
  }

  lemma CoveredIngestBinds(s: State, a: Action)
    requires Inv(s) && Enabled(s, a) && Covered(s, a) && a.Ingest?
    ensures var source := SourceOf(s, a.lookup, a.startedAt, a.model);
            StampUnder(s.tables[source.table], source.at, a.tokens, a.model)
            == StampUnder(s.tables[source.table], a.startedAt, a.tokens, a.model)
  {
    if a.lookup.FromBatch? && a.model.Some? {
      var batch, key := s.batches[a.lookup.batch], ModelKey(a.model.value);
      var source := SourceOf(s, a.lookup, a.startedAt, a.model);
      assert BatchHolds(s.tables, batch);
      CoveredAnswer(s.tables[batch.dates[key]], s.tables[source.table], key, source.at, a.startedAt);
    }
  }

  lemma CoveredStampBound(s: State, a: Action, id: string)
    requires Inv(s) && Enabled(s, a) && Covered(s, a)
    requires id in Next(s, a).traces && Next(s, a).traces[id].pricing.Stamped?
    requires id in s.traces ==> !s.traces[id].pricing.Stamped?
    ensures Bound(Next(s, a).tables, Next(s, a).traces[id])
  {
    var t := Next(s, a);
    if a.Ingest? {
      CoveredIngestBinds(s, a);
      assert BoundUnder(t.tables[SourceOf(s, a.lookup, a.startedAt, a.model).table], t.traces[id]);
    } else {
      assert BoundUnder(t.tables[a.table], t.traces[id]);
    }
  }

  lemma CoveredStepBinds(s: State, a: Action)
    requires Inv(s) && Enabled(s, a) && Covered(s, a) && AllBound(s)
    ensures AllBound(Next(s, a))
  {
    var t := Next(s, a);
    StepPreserves(s, a);
    forall id | id in t.traces && t.traces[id].pricing.Stamped? ensures Bound(t.tables, t.traces[id]) {
      if id in s.traces && s.traces[id].pricing.Stamped? {
        BoundKept(s.tables, t.tables, s.traces[id]);
      } else {
        CoveredStampBound(s, a, id);
      }
    }
  }

  /** In every run whose cached ingests are all covered, every stamp is what some table that existed
      gives for the trace's own date. */
  lemma {:induction false} CoveredRunBinds(initial: seq<PriceVersion>, actions: seq<Action>)
    requires UniqueSlots(initial)
    requires forall i :: 0 <= i < |actions| ==> Covered(Run(initial, actions[..i]), actions[i])
    ensures AllBound(Run(initial, actions))
  {
    if |actions| > 0 {
      var n := |actions| - 1;
      var front := actions[..n];
      forall i | 0 <= i < n ensures Covered(Run(initial, front[..i]), front[i]) {
        assert front[..i] == actions[..i] && front[i] == actions[i];
      }
      CoveredRunBinds(initial, front);
      RunHolds(initial, front);
      if Enabled(Run(initial, front), actions[n]) {
        CoveredStepBinds(Run(initial, front), actions[n]);
      }
    }
  }

  // ---------------------------------------------------------------- a stamp no table gives

  /** The dates are read, a price is registered, a lookup at its date fills the entry, and a trace of
      the instant before is ingested. */
  function EarlyActions(model: ModelRef, later: PriceVersion, n: int, id: string): seq<Action> {
    var at := later.effectiveFrom;
    [OpenBatch, ReadDates(0, ModelKey(model)), RegisterPrice(later), FillEntry(0, ModelKey(model), at),
     Ingest(id, at - 1, map[Input := n], Some(model), false, FromBatch(0))]
  }

  /** The states of that run, written out. */
  function EarlyStates(model: ModelRef, earlier: PriceVersion, later: PriceVersion, trace: Trace, id: string)
    : seq<State>
  {
    var key, tables := ModelKey(model), [[earlier], [earlier, later]];
    var read := Batch(map[key := 0], map[]);
    var full := Batch(map[key := 0], map[(key, 1) := Filled(1, later.effectiveFrom)]);
    [State([[earlier]], [], map[], {}), State([[earlier]], [Batch(map[], map[])], map[], {}),
     State([[earlier]], [read], map[], {}), State(tables, [read], map[], {}), State(tables, [full], map[], {}),
     State(tables, [full], map[id := trace], {})]
  }

  lemma {:induction false} RunAlong(initial: seq<PriceVersion>, actions: seq<Action>, states: seq<State>, n: nat)
    requires |states| == |actions| + 1 && states[0] == State([initial], [], map[], {}) && n <= |actions|
    requires forall i :: 0 <= i < |actions| ==>
               Enabled(states[i], actions[i]) && states[i + 1] == Next(states[i], actions[i])
    ensures Run(initial, actions[..n]) == states[n]
  {
    if n > 0 {
      RunAlong(initial, actions, states, n - 1);
      assert actions[..n][..n - 1] == actions[..n - 1];
    }
  }

  lemma EarlyStep(model: ModelRef, earlier: PriceVersion, later: PriceVersion, n: int, id: string, cost: nat, i: nat)
    requires earlier == PriceVersion(ModelKey(model), Input, earlier.price, later.effectiveFrom - 10, true)
    requires later == PriceVersion(ModelKey(model), Input, later.price, later.effectiveFrom, true)
    requires n > 0 && CostMicrocents(n, later.price) == Ok(cost) && i < 5
    ensures var states := EarlyStates(model, earlier, later, EarlyTrace(model, later, n, cost), id);
            var actions := EarlyActions(model, later, n, id);
            Enabled(states[i], actions[i]) && states[i + 1] == Next(states[i], actions[i])
  {
    var key, at := ModelKey(model), later.effectiveFrom;
    if i == 2 {
      EarlyEntry(key, at, earlier.price, later.price);
    } else if i == 3 {
      EarlyIntervals(key, at, earlier);
    } else if i == 4 {
      EarlyIngest(model, earlier, later, n, id, cost);
    }
  }

  /** The trace of the instant before falls in the entry filled at the price's own date. */
  lemma EarlySource(model: ModelRef, earlier: PriceVersion, later: PriceVersion, trace: Trace, id: string)
    requires earlier.model == ModelKey(model) && earlier.effectiveFrom == later.effectiveFrom - 10
    ensures var s, at := EarlyStates(model, earlier, later, trace, id)[4], later.effectiveFrom;
            && CanLookUp(s, FromBatch(0), at - 1, Some(model))
            && SourceOf(s, FromBatch(0), at - 1, Some(model)) == Filled(1, at)
  {
    var key, at := ModelKey(model), later.effectiveFrom;
    var s := EarlyStates(model, earlier, later, trace, id)[4];
    EarlyIntervals(key, at, earlier);
    assert Slot(s.tables, s.batches[0], key, at - 1) == (key, 1);
  }

  lemma EarlyIngest(model: ModelRef, earlier: PriceVersion, later: PriceVersion, n: int, id: string, cost: nat)
    requires earlier == PriceVersion(ModelKey(model), Input, earlier.price, later.effectiveFrom - 10, true)
    requires later == PriceVersion(ModelKey(model), Input, later.price, later.effectiveFrom, true)
    requires n > 0 && CostMicrocents(n, later.price) == Ok(cost)
    ensures var states := EarlyStates(model, earlier, later, EarlyTrace(model, later, n, cost), id);
            var ingest := EarlyActions(model, later, n, id)[4];
            Enabled(states[4], ingest) && states[5] == Next(states[4], ingest)
  {
    EarlySource(model, earlier, later, EarlyTrace(model, later, n, cost), id);
    EarlyStamp(model, earlier, later, n, cost);
  }

  lemma EarlyStamp(model: ModelRef, earlier: PriceVersion, later: PriceVersion, n: int, cost: nat)
    requires earlier == PriceVersion(ModelKey(model), Input, earlier.price, later.effectiveFrom - 10, true)
    requires later == PriceVersion(ModelKey(model), Input, later.price, later.effectiveFrom, true)
    requires n > 0 && CostMicrocents(n, later.price) == Ok(cost)
    ensures StampUnder([earlier, later], later.effectiveFrom, map[Input := n], Some(model))
         == Ok(EarlyTrace(model, later, n, cost).pricing)
  {
    EarlyEntry(ModelKey(model), later.effectiveFrom, earlier.price, later.price);
    OneTypeStamp(Input, n, map[Input := later]);
  }

  /** What the trace is stored with. */
  function EarlyTrace(model: ModelRef, later: PriceVersion, n: int, cost: nat): Trace
    requires later.price >= 0 && n >= 0
  {
    Trace(later.effectiveFrom - 1, map[Input := n], Some(model),
          Stamped([StampedCost(Input, n, later.price, later.effectiveFrom, cost)], cost))
  }

  lemma EarlyRun(model: ModelRef, earlier: PriceVersion, later: PriceVersion, n: int, id: string, cost: nat)
    requires earlier == PriceVersion(ModelKey(model), Input, earlier.price, later.effectiveFrom - 10, true)
    requires later == PriceVersion(ModelKey(model), Input, later.price, later.effectiveFrom, true)
    requires n > 0 && CostMicrocents(n, later.price) == Ok(cost)
    ensures Run([earlier], EarlyActions(model, later, n, id))
         == EarlyStates(model, earlier, later, EarlyTrace(model, later, n, cost), id)[5]
  {
    var actions := EarlyActions(model, later, n, id);
    var states := EarlyStates(model, earlier, later, EarlyTrace(model, later, n, cost), id);
    forall i | 0 <= i < |actions|
      ensures Enabled(states[i], actions[i]) && states[i + 1] == Next(states[i], actions[i])
    {
      EarlyStep(model, earlier, later, n, id, cost, i);
    }
    RunAlong([earlier], actions, states, |actions|);
    assert actions[..|actions|] == actions;
  }

  /** A run of ingestion that stamps a trace with a price that takes effect only after it, which no
      table that ever existed gives for the trace. */
  lemma StampedTooEarly(model: ModelRef, at: int, was: int, price: nat, n: nat, id: string)
    requires n > 0 && CostMicrocents(n, price).Ok?
    ensures var earlier := PriceVersion(ModelKey(model), Input, was, at - 10, true);
            var later := PriceVersion(ModelKey(model), Input, price, at, true);
            var s := Run([earlier], EarlyActions(model, later, n, id));
            && id in s.traces && s.traces[id].startedAt == at - 1
            && s.traces[id].pricing.Stamped? && |s.traces[id].pricing.costs| == 1
            && s.traces[id].pricing.costs[0].effectiveFrom == at
            && !Bound(s.tables, s.traces[id])
  {
    var earlier := PriceVersion(ModelKey(model), Input, was, at - 10, true);
    var later := PriceVersion(ModelKey(model), Input, price, at, true);
    var cost := CostMicrocents(n, price).value;
    EarlyRun(model, earlier, later, n, id, cost);
    var trace := EarlyTrace(model, later, n, cost);
    assert trace.pricing.costs[0] in trace.pricing.costs;
    forall table: seq<PriceVersion> ensures !BoundUnder(table, trace) {
      NotYet(table, trace);
    }
  }

  /** No lookup dates a price after the trace. */
  lemma NotYet(table: seq<PriceVersion>, t: Trace)
    requires t.pricing.Stamped? && exists c :: c in t.pricing.costs && c.effectiveFrom > t.startedAt
    ensures !BoundUnder(table, t)
  {
    if BoundUnder(table, t) {
      var prices := if t.model.Some? then PricesAt(table, ModelKey(t.model.value), t.startedAt) else map[];
      StampedFacts(t.tokens, prices, t.model.Some?);
      var c :| c in t.pricing.costs && c.effectiveFrom > t.startedAt;
      LatestFacts(table, ModelKey(t.model.value), c.tokenType, t.startedAt);
      assert false;
    }
  }

  // ---------------------------------------------------------------- what the bill may rely on

  /** A usage record whose stamps some price table gave. */
  ghost predicate StampedByRule(r: UsageRecord) {
    exists tokens, prices, hasModel, total ::
      StampTokens(tokens, prices, hasModel) == Ok(Stamped(r.stampedCosts, total))
  }

  lemma StampsAreFair(r: UsageRecord)
    requires StampedByRule(r)
    ensures forall e :: e in EntriesOf(r) ==> FairlyPriced(e)
  {
    var tokens, prices, hasModel, total :| StampTokens(tokens, prices, hasModel) == Ok(Stamped(r.stampedCosts, total));
    StampedFacts(tokens, prices, hasModel);
    forall i | 0 <= i < |r.stampedCosts| ensures FairlyPriced(EntryOf(r, r.stampedCosts[i])) {
      assert r.stampedCosts[i] in r.stampedCosts;
      assert PricedAt(r.stampedCosts[i], tokens, prices);
    }
  }

  lemma {:induction false} EntriesAreFair(records: seq<UsageRecord>)
    requires forall r :: r in records ==> StampedByRule(r)
    ensures forall e :: e in Entries(records) ==> FairlyPriced(e)
  {
    if |records| > 0 {
      assert forall r :: r in records[..|records| - 1] ==> r in records;
      EntriesAreFair(records[..|records| - 1]);
      StampsAreFair(records[|records| - 1]);
    }
  }

  /** On any bill of stamped records, a line is off by at most half a micro-centavo per stamp
      folded into it. */
  lemma BillLinesAreFair(records: seq<UsageRecord>, k: LineKey)
    requires forall r :: r in records ==> StampedByRule(r)
    ensures var gap := 1_000_000 * LineCost(Entries(records), k) - LineTokens(Entries(records), k) * k.price;
            var stamps := Group(Entries(records), EntryKey, One, k);
            -500_000 * stamps <= gap <= 500_000 * stamps
  {
    EntriesAreFair(records);
    LinePriceBound(Entries(records), k);
  }
}
