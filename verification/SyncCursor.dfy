/** sync-batches-db-use-case.ts: the watermark loop. Work first, bookmark second. */
module SyncCursor {
  import opened Wrappers
  import opened StatementModel
  import opened Keyset

  // Any number of drainers (an orphaned container beside its successor) interleave with each other,
  // with the growing source and with crashes; rows of a batch are worked in any order (see Lanes).

  // ---------------------------------------------------------------- the state

  /** One row of the source: the trace's last write, and whether its shape is poison. */
  datatype Row = Row(key: Cursor, poison: bool)

  datatype Drainer =
    | Resting
    | Draining(after: Option<Cursor>, ceiling: int, rows: seq<Row>, worked: set<nat>, parked: set<nat>)

  /** `S` is whatever the ingestion writes for a trace: its stamp and content. The store keeps one
      document per trace; a dead letter or a poison record is for one write of it, so an earlier
      version's does not account for a later one. */
  datatype State<S> = State(
    source: map<string, Row>, clock: int,
    cursor: Option<Cursor>,
    store: map<string, S>, deadLetters: set<Cursor>, poisonRows: set<Cursor>,
    drainers: seq<Drainer>)

  /** How one row of a batch ends: a per-trace failure is parked, before or after the insert. */
  datatype Fate<S> = Ingested(stamp: S) | Parked | ParkedAfterInsert(stamp: S)

  datatype Action<S> =
    | Write(row: Row)
    | Tick(clock: int)
    | Fetch(drainer: nat, ceiling: int, limit: nat, rows: seq<Row>)
    | Work(drainer: nat, index: nat, fate: Fate<S>)
    | Commit(drainer: nat)
    | Stop(drainer: nat)

  /** `insertIfAbsent`. */
  function InsertIfAbsent<S>(store: map<string, S>, id: string, stamp: S): map<string, S> {
    if id in store then store else store[id := stamp]
  }

  /** `setTraceCursor`: conditioned on the stored cursor being at or behind the new one. */
  function Advanced(stored: Option<Cursor>, next: Cursor): Option<Cursor> {
    if stored.None? || AtOrBefore(stored.value, next) then Some(next) else stored
  }

  ghost predicate Eligible(source: map<string, Row>, after: Option<Cursor>, ceiling: int, row: Row) {
    && row.key.traceId in source && source[row.key.traceId] == row
    && Past(after, row.key) && row.key.at < ceiling
  }

  /** The `fetchBatch` port: the first `limit` rows strictly past `after` and quiet before `ceiling`. */
  ghost predicate IsBatch(source: map<string, Row>, after: Option<Cursor>, ceiling: int, limit: nat, rows: seq<Row>) {
    && |rows| <= limit
    && (forall i :: 0 <= i < |rows| ==> Eligible(source, after, ceiling, rows[i]))
    && (forall i, j :: 0 <= i < j < |rows| ==> Before(rows[i].key, rows[j].key))
    && (forall row :: Eligible(source, after, ceiling, row) ==>
          row in rows || (|rows| == limit && (limit > 0 ==> Before(rows[limit - 1].key, row.key))))
  }

  function Traces(rows: seq<Row>): set<nat> {
    set i: nat | i < |rows| && !rows[i].poison
  }

  const BREAKER_MIN: nat := 10

  /** `assertNotAllFailed`: a batch of ten or more traces that all failed is a store outage. */
  predicate LooksLikeOutage(rows: seq<Row>, parked: set<nat>) {
    |Traces(rows)| >= BREAKER_MIN && |parked| == |Traces(rows)|
  }

  /** Schema drift: ten or more rows of which none is a trace stop the fetch itself. */
  predicate LooksLikeDrift(rows: seq<Row>) {
    |rows| >= BREAKER_MIN && Traces(rows) == {}
  }

  ghost predicate IsDraining<S>(s: State<S>, d: nat) {
    d < |s.drainers| && s.drainers[d].Draining?
  }

  ghost predicate Enabled<S>(s: State<S>, a: Action<S>) {
    match a
    case Write(row) => row.key.at >= s.clock
    case Tick(clock) => clock >= s.clock
    case Fetch(d, ceiling, limit, rows) =>
      && d < |s.drainers| && s.drainers[d].Resting?
      && IsBatch(s.source, s.cursor, ceiling, limit, rows) && !LooksLikeDrift(rows)
    case Work(d, i, _) => IsDraining(s, d) && i < |s.drainers[d].rows|
    case Commit(d) =>
      && IsDraining(s, d) && |s.drainers[d].rows| > 0
      && (forall i: nat :: i < |s.drainers[d].rows| ==> i in s.drainers[d].worked)
      && !LooksLikeOutage(s.drainers[d].rows, s.drainers[d].parked)
    case Stop(d) => d < |s.drainers|
  }

  /** One row of a batch: poison is recorded, a trace is inserted if absent or parked. */
  function WorkRow<S>(s: State<S>, d: nat, i: nat, fate: Fate<S>): State<S>
    requires d < |s.drainers| && s.drainers[d].Draining? && i < |s.drainers[d].rows|
  {
    var batch := s.drainers[d];
    var row, id := batch.rows[i], batch.rows[i].key.traceId;
    var done := batch.(worked := batch.worked + {i});
    if row.poison then s.(poisonRows := s.poisonRows + {row.key}, drainers := s.drainers[d := done])
    else
      match fate
      case Ingested(stamp) =>
        s.(store := InsertIfAbsent(s.store, id, stamp), drainers := s.drainers[d := done])
      case Parked =>
        s.(deadLetters := s.deadLetters + {row.key}, drainers := s.drainers[d := done.(parked := done.parked + {i})])
      case ParkedAfterInsert(stamp) =>
        s.(store := InsertIfAbsent(s.store, id, stamp), deadLetters := s.deadLetters + {row.key},
           drainers := s.drainers[d := done.(parked := done.parked + {i})])
  }

  function Next<S>(s: State<S>, a: Action<S>): State<S>
    requires Enabled(s, a)
  {
    match a
    case Write(row) => s.(source := s.source[row.key.traceId := row], clock := row.key.at)
    case Tick(clock) => s.(clock := clock)
    case Fetch(d, ceiling, _, rows) => s.(drainers := s.drainers[d := Draining(s.cursor, ceiling, rows, {}, {})])
    case Work(d, i, fate) => WorkRow(s, d, i, fate)
    case Commit(d) =>
      var rows := s.drainers[d].rows;
      s.(cursor := Advanced(s.cursor, rows[|rows| - 1].key), drainers := s.drainers[d := Resting])
    case Stop(d) => s.(drainers := s.drainers[d := Resting])
  }

  /** The quiet-period ceiling was taken from the source's own clock. */
  predicate CeilingFromSource<S>(s: State<S>, a: Action<S>) {
    a.Fetch? ==> a.ceiling <= s.clock
  }

  function Fresh<S>(clock: int, drainers: nat): State<S> {
    State(map[], clock, None, map[], {}, {}, seq(drainers, _ => Resting))
  }

  // ---------------------------------------------------------------- what every step keeps

  ghost predicate Settled<S>(s: State<S>, row: Row) {
    row.key.traceId in s.store || row.key in s.deadLetters || row.key in s.poisonRows
  }

  /** Every source row at or before the stored cursor is stored, dead-lettered or recorded poison. */
  ghost predicate NothingLost<S>(s: State<S>) {
    forall id :: id in s.source && !Past(s.cursor, s.source[id].key) ==> Settled(s, s.source[id])
  }

  ghost predicate BatchHolds<S>(s: State<S>, batch: Drainer)
    requires batch.Draining?
  {
    && NotBehind(s.cursor, batch.after)
    && (forall i: nat :: i in batch.worked && i < |batch.rows| ==> Settled(s, batch.rows[i]))
    && (forall i :: 0 <= i < |batch.rows| ==> batch.rows[i].key.at < s.clock)
    && (|batch.rows| > 0 ==>
          var last := batch.rows[|batch.rows| - 1].key;
          && Past(batch.after, last)
          && forall id :: id in s.source && Past(batch.after, s.source[id].key) && AtOrBefore(s.source[id].key, last)
                          ==> s.source[id] in batch.rows)
  }

  ghost predicate Inv<S>(s: State<S>) {
    && (forall id :: id in s.source ==> s.source[id].key.traceId == id && s.source[id].key.at <= s.clock)
    && (s.cursor.Some? ==> s.cursor.value.at < s.clock)
    && NothingLost(s)
    && (forall d :: 0 <= d < |s.drainers| && s.drainers[d].Draining? ==> BatchHolds(s, s.drainers[d]))
  }

  /** Every stored trace is still stored, with the same stamp. */
  ghost predicate KeepsStamps<S(!new)>(before: map<string, S>, after: map<string, S>) {
    forall id :: id in before ==> id in after && after[id] == before[id]
  }

  /** A step takes nothing out of the store, never rewrites a stored trace, forgets no dead letter
      and no poison record, and moves the cursor only strictly upward. */
  ghost predicate Grows<S(!new)>(s: State<S>, t: State<S>) {
    && KeepsStamps(s.store, t.store)
    && s.deadLetters <= t.deadLetters && s.poisonRows <= t.poisonRows
    && (t.cursor == s.cursor || (t.cursor.Some? && Past(s.cursor, t.cursor.value)))
  }

  lemma AdvancedFacts(stored: Option<Cursor>, next: Cursor)
    ensures NotBehind(Advanced(stored, next), stored)
    ensures Advanced(stored, next) == stored || Past(stored, Advanced(stored, next).value)
  {}

  lemma StepGrows<S(!new)>(s: State<S>, a: Action<S>)
    requires Enabled(s, a)
    ensures Grows(s, Next(s, a))
    ensures forall row :: Settled(s, row) ==> Settled(Next(s, a), row)
  {
    if a.Commit? {
      var rows := s.drainers[a.drainer].rows;
      AdvancedFacts(s.cursor, rows[|rows| - 1].key);
    }
  }

  lemma WriteKeeps<S(!new)>(s: State<S>, row: Row)
    requires Inv(s) && Enabled(s, Write(row))
    ensures Inv(Next(s, Write(row)))
  {
    var t := Next(s, Write(row));
    forall d | 0 <= d < |t.drainers| && t.drainers[d].Draining? ensures BatchHolds(t, t.drainers[d]) {
      assert BatchHolds(s, s.drainers[d]);
    }
  }

  lemma FetchKeeps<S(!new)>(s: State<S>, d: nat, ceiling: int, limit: nat, rows: seq<Row>)
    requires Inv(s) && Enabled(s, Fetch(d, ceiling, limit, rows)) && ceiling <= s.clock
    ensures Inv(Next(s, Fetch(d, ceiling, limit, rows)))
  {
    var t := Next(s, Fetch(d, ceiling, limit, rows));
    forall e | 0 <= e < |t.drainers| && t.drainers[e].Draining? ensures BatchHolds(t, t.drainers[e]) {
      if e == d {
        FreshBatch(s, d, ceiling, limit, rows);
      } else {
        assert BatchHolds(s, s.drainers[e]);
      }
    }
  }

  lemma FreshBatch<S(!new)>(s: State<S>, d: nat, ceiling: int, limit: nat, rows: seq<Row>)
    requires Inv(s) && Enabled(s, Fetch(d, ceiling, limit, rows)) && ceiling <= s.clock
    ensures BatchHolds(s, Draining(s.cursor, ceiling, rows, {}, {}))
  {
    assert forall i :: 0 <= i < |rows| ==> Eligible(s.source, s.cursor, ceiling, rows[i]);
    if |rows| > 0 {
      var last := rows[|rows| - 1].key;
      forall id | id in s.source && Past(s.cursor, s.source[id].key) && AtOrBefore(s.source[id].key, last)
        ensures s.source[id] in rows
      {
        assert Eligible(s.source, s.cursor, ceiling, s.source[id]);
        BeforeFacts(s.source[id].key, last, last);
      }
    }
  }

  lemma WorkKeeps<S(!new)>(s: State<S>, d: nat, i: nat, fate: Fate<S>)
    requires Inv(s) && Enabled(s, Work(d, i, fate))
    ensures Inv(Next(s, Work(d, i, fate)))
  {
    var t := Next(s, Work(d, i, fate));
    StepGrows(s, Work(d, i, fate));
    var batch, done := s.drainers[d], t.drainers[d];
    assert t.source == s.source && t.cursor == s.cursor && t.clock == s.clock && t.drainers == s.drainers[d := done];
    assert Settled(t, batch.rows[i]) && done.Draining? && done.after == batch.after && done.rows == batch.rows;
    MoreSettled(s, t, d, i);
  }

  /** A step that only settles rows, one of them newly worked in its batch, keeps the invariant. */
  lemma MoreSettled<S(!new)>(s: State<S>, t: State<S>, d: nat, i: nat)
    requires Inv(s) && IsDraining(s, d) && i < |s.drainers[d].rows| && Settled(t, s.drainers[d].rows[i])
    requires t.source == s.source && t.cursor == s.cursor && t.clock == s.clock
    requires forall row :: Settled(s, row) ==> Settled(t, row)
    requires |t.drainers| == |s.drainers| && t.drainers == s.drainers[d := t.drainers[d]] && t.drainers[d].Draining?
    requires t.drainers[d].after == s.drainers[d].after && t.drainers[d].rows == s.drainers[d].rows
    requires t.drainers[d].worked == s.drainers[d].worked + {i}
    ensures Inv(t)
  {
    forall e | 0 <= e < |t.drainers| && t.drainers[e].Draining? ensures BatchHolds(t, t.drainers[e]) {
      assert BatchHolds(s, s.drainers[e]);
    }
  }

  /** Every row the new cursor covers was covered by the old one or is in the worked batch. */
  lemma CommitLosesNothing<S(!new)>(s: State<S>, d: nat)
    requires Inv(s) && Enabled(s, Commit(d))
    ensures NothingLost(Next(s, Commit(d)))
  {
    var t, batch := Next(s, Commit(d)), s.drainers[d];
    var last := batch.rows[|batch.rows| - 1].key;
    assert BatchHolds(s, batch);
    forall id | id in t.source && !Past(t.cursor, t.source[id].key) ensures Settled(t, t.source[id]) {
      var row := s.source[id];
      if Past(s.cursor, row.key) {
        BeforeFacts(last, row.key, row.key);
        if batch.after.Some? && s.cursor.Some? {
          BeforeFacts(batch.after.value, s.cursor.value, row.key);
        }
        assert row in batch.rows;
        var i: nat :| i < |batch.rows| && batch.rows[i] == row;
        assert Settled(s, batch.rows[i]);
      }
    }
  }

  lemma CommitKeeps<S(!new)>(s: State<S>, d: nat)
    requires Inv(s) && Enabled(s, Commit(d))
    ensures Inv(Next(s, Commit(d)))
  {
    var t := Next(s, Commit(d));
    assert BatchHolds(s, s.drainers[d]);
    CommitLosesNothing(s, d);
    var rows := s.drainers[d].rows;
    AdvancedFacts(s.cursor, rows[|rows| - 1].key);
    forall e | 0 <= e < |t.drainers| && t.drainers[e].Draining? ensures BatchHolds(t, t.drainers[e]) {
      assert BatchHolds(s, s.drainers[e]);
      if s.drainers[e].after.Some? {
        BeforeFacts(s.drainers[e].after.value, s.cursor.value, t.cursor.value);
      }
    }
  }

  lemma StepKeeps<S(!new)>(s: State<S>, a: Action<S>)
    requires Inv(s) && Enabled(s, a) && CeilingFromSource(s, a)
    ensures Inv(Next(s, a))
  {
    match a
    case Write(row) => WriteKeeps(s, row);
    case Tick(_) => QuietStepKeeps(s, a);
    case Fetch(d, ceiling, limit, rows) => FetchKeeps(s, d, ceiling, limit, rows);
    case Work(d, i, fate) => WorkKeeps(s, d, i, fate);
    case Commit(d) => CommitKeeps(s, d);
    case Stop(_) => QuietStepKeeps(s, a);
  }

  lemma QuietStepKeeps<S(!new)>(s: State<S>, a: Action<S>)
    requires Inv(s) && Enabled(s, a) && (a.Tick? || a.Stop?)
    ensures Inv(Next(s, a))
  {
    var t := Next(s, a);
    forall d | 0 <= d < |t.drainers| && t.drainers[d].Draining? ensures BatchHolds(t, t.drainers[d]) {
      assert BatchHolds(s, s.drainers[d]);
    }
  }

  // ---------------------------------------------------------------- whole runs

  /** A run: each state steps to the next by the action between them. */
  ghost predicate IsFresh<S>(s: State<S>) {
    s == Fresh(s.clock, |s.drainers|)
  }

  ghost predicate IsRun<S(!new)>(states: seq<State<S>>, actions: seq<Action<S>>) {
    && |states| == |actions| + 1
    && IsFresh(states[0])
    && forall i :: 0 <= i < |actions| ==> Enabled(states[i], actions[i]) && states[i + 1] == Next(states[i], actions[i])
  }

  ghost predicate SourceClocked<S(!new)>(states: seq<State<S>>, actions: seq<Action<S>>) {
    |states| == |actions| + 1 && forall i :: 0 <= i < |actions| ==> CeilingFromSource(states[i], actions[i])
  }

  lemma {:induction false} RunHolds<S(!new)>(states: seq<State<S>>, actions: seq<Action<S>>, i: nat)
    requires IsRun(states, actions) && SourceClocked(states, actions) && i < |states|
    ensures Inv(states[i])
  {
    if i > 0 {
      RunHolds(states, actions, i - 1);
      StepKeeps(states[i - 1], actions[i - 1]);
    }
  }

  lemma GrowsTransitive<S(!new)>(a: State<S>, b: State<S>, c: State<S>)
    requires Grows(a, b) && Grows(b, c)
    ensures Grows(a, c)
  {
    if a.cursor.Some? && b.cursor.Some? && c.cursor.Some? {
      BeforeFacts(a.cursor.value, b.cursor.value, c.cursor.value);
    }
  }

  lemma RunStepGrows<S(!new)>(states: seq<State<S>>, actions: seq<Action<S>>, i: nat)
    requires IsRun(states, actions) && i < |actions|
    ensures Grows(states[i], states[i + 1])
  {
    StepGrows(states[i], actions[i]);
  }

  lemma {:induction false} ChainGrows<S(!new)>(states: seq<State<S>>, i: nat, j: nat)
    requires i <= j < |states|
    requires forall k :: 0 <= k < |states| - 1 ==> Grows(states[k], states[k + 1])
    ensures Grows(states[i], states[j])
  {
    if i < j {
      ChainGrows(states, i, j - 1);
      assert Grows(states[j - 1], states[j - 1 + 1]);
      GrowsTransitive(states[i], states[j - 1], states[j]);
    }
  }

  lemma RunGrows<S(!new)>(states: seq<State<S>>, actions: seq<Action<S>>, i: nat, j: nat)
    requires IsRun(states, actions) && i <= j < |states|
    ensures Grows(states[i], states[j])
  {
    forall k | 0 <= k < |states| - 1 ensures Grows(states[k], states[k + 1]) {
      RunStepGrows(states, actions, k);
    }
    ChainGrows(states, i, j);
  }

  /** In every run, at every moment: no source row the cursor has passed is unaccounted for. And
      from any moment to any later one, a stored trace keeps its first stamp and the cursor stays
      or moves strictly upward. */
  lemma NoLossNoDoubleStore<S(!new)>(states: seq<State<S>>, actions: seq<Action<S>>, i: nat, j: nat)
    requires IsRun(states, actions) && SourceClocked(states, actions) && i <= j < |states|
    ensures NothingLost(states[j])
    ensures Grows(states[i], states[j])
  {
    RunHolds(states, actions, j);
    RunGrows(states, actions, i, j);
  }

  // ---------------------------------------------------------------- what a run files where

  /** The row the action works on, when it is a trace's. */
  ghost predicate WorksOn<S(!new)>(s: State<S>, a: Action<S>, row: Row) {
    a.Work? && IsDraining(s, a.drainer) && a.index < |s.drainers[a.drainer].rows|
    && s.drainers[a.drainer].rows[a.index] == row
  }

  /** It inserts a trace of that id with that stamp. */
  ghost predicate Inserts<S(!new)>(s: State<S>, a: Action<S>, id: string, stamp: S) {
    exists row :: WorksOn(s, a, row) && !row.poison && row.key.traceId == id && !a.fate.Parked? && a.fate.stamp == stamp
  }

  ghost predicate InsertsId<S(!new)>(s: State<S>, a: Action<S>, id: string) {
    exists stamp :: Inserts(s, a, id, stamp)
  }

  ghost predicate Parks<S(!new)>(s: State<S>, a: Action<S>, key: Cursor) {
    exists row :: WorksOn(s, a, row) && !row.poison && row.key == key && !a.fate.Ingested?
  }

  ghost predicate RecordsPoison<S(!new)>(s: State<S>, a: Action<S>, key: Cursor) {
    exists row :: WorksOn(s, a, row) && row.poison && row.key == key
  }

  lemma StepFiles<S(!new)>(s: State<S>, a: Action<S>)
    requires Enabled(s, a)
    ensures forall id :: id in Next(s, a).store <==> id in s.store || InsertsId(s, a, id)
    ensures forall id :: id in Next(s, a).store && id !in s.store ==> Inserts(s, a, id, Next(s, a).store[id])
    ensures forall key :: key in Next(s, a).deadLetters <==> key in s.deadLetters || Parks(s, a, key)
    ensures forall key :: key in Next(s, a).poisonRows <==> key in s.poisonRows || RecordsPoison(s, a, key)
  {
    if a.Work? {
      var row := s.drainers[a.drainer].rows[a.index];
      assert WorksOn(s, a, row);
      if !a.fate.Parked? && !row.poison {
        assert Inserts(s, a, row.key.traceId, a.fate.stamp) && InsertsId(s, a, row.key.traceId);
      }
    }
  }

  /** The `i`-th action is the first of the run to insert the trace, with that stamp. */
  ghost predicate FirstInsert<S(!new)>(
    states: seq<State<S>>, actions: seq<Action<S>>, i: nat, id: string, stamp: S)
    requires |states| == |actions| + 1 && i < |actions|
  {
    Inserts(states[i], actions[i], id, stamp) && forall h :: 0 <= h < i ==> !InsertsId(states[h], actions[h], id)
  }

  lemma {:induction false} RunInserts<S(!new)>(
    states: seq<State<S>>, actions: seq<Action<S>>, j: nat, id: string)
    requires IsRun(states, actions) && j < |states|
    ensures id in states[j].store <==> exists i :: 0 <= i < j && InsertsId(states[i], actions[i], id)
    ensures id in states[j].store ==>
              exists i: nat :: i < j && FirstInsert(states, actions, i, id, states[j].store[id])
  {
    if j > 0 {
      RunInserts(states, actions, j - 1, id);
      var s, a := states[j - 1], actions[j - 1];
      assert states[j - 1 + 1] == Next(s, a);
      StepFiles(s, a);
      StepGrows(s, a);
      if id in s.store {
        var i: nat :| i < j - 1 && FirstInsert(states, actions, i, id, s.store[id]);
        assert states[j].store[id] == s.store[id];
      } else if id in states[j].store {
        assert FirstInsert(states, actions, j - 1, id, states[j].store[id]);
      }
    }
  }

  lemma {:induction false} RunParks<S(!new)>(states: seq<State<S>>, actions: seq<Action<S>>, j: nat, key: Cursor)
    requires IsRun(states, actions) && j < |states|
    ensures key in states[j].deadLetters <==> exists i :: 0 <= i < j && Parks(states[i], actions[i], key)
  {
    if j > 0 {
      RunParks(states, actions, j - 1, key);
      StepRecords(states, actions, j - 1, key);
    }
  }

  lemma {:induction false} RunPoison<S(!new)>(states: seq<State<S>>, actions: seq<Action<S>>, j: nat, key: Cursor)
    requires IsRun(states, actions) && j < |states|
    ensures key in states[j].poisonRows <==> exists i :: 0 <= i < j && RecordsPoison(states[i], actions[i], key)
  {
    if j > 0 {
      RunPoison(states, actions, j - 1, key);
      StepRecords(states, actions, j - 1, key);
    }
  }

  lemma StepRecords<S(!new)>(states: seq<State<S>>, actions: seq<Action<S>>, i: nat, key: Cursor)
    requires IsRun(states, actions) && i < |actions|
    ensures key in states[i + 1].deadLetters <==> key in states[i].deadLetters || Parks(states[i], actions[i], key)
    ensures key in states[i + 1].poisonRows
            <==> key in states[i].poisonRows || RecordsPoison(states[i], actions[i], key)
  {
    StepFiles(states[i], actions[i]);
  }

  /** In every run: stored are exactly the traces some step inserted, each with the stamp of the first;
      dead-lettered and recorded as poison exactly the writes some step found so. */
  lemma RunFiles<S(!new)>(states: seq<State<S>>, actions: seq<Action<S>>, j: nat)
    requires IsRun(states, actions) && j < |states|
    ensures forall id :: id in states[j].store <==> exists i :: 0 <= i < j && InsertsId(states[i], actions[i], id)
    ensures forall id :: id in states[j].store ==>
              exists i: nat :: i < j && FirstInsert(states, actions, i, id, states[j].store[id])
    ensures forall key :: key in states[j].deadLetters <==> exists i :: 0 <= i < j && Parks(states[i], actions[i], key)
    ensures forall key :: key in states[j].poisonRows
                          <==> exists i :: 0 <= i < j && RecordsPoison(states[i], actions[i], key)
  {
    forall id: string
      ensures id in states[j].store <==> exists i :: 0 <= i < j && InsertsId(states[i], actions[i], id)
      ensures id in states[j].store ==>
                exists i: nat :: i < j && FirstInsert(states, actions, i, id, states[j].store[id])
    {
      RunInserts(states, actions, j, id);
    }
    forall key: Cursor
      ensures key in states[j].deadLetters <==> exists i :: 0 <= i < j && Parks(states[i], actions[i], key)
      ensures key in states[j].poisonRows <==> exists i :: 0 <= i < j && RecordsPoison(states[i], actions[i], key)
    {
      RunParks(states, actions, j, key);
      RunPoison(states, actions, j, key);
    }
  }

  lemma {:induction false} ParkedAreTraces<S(!new)>(states: seq<State<S>>, actions: seq<Action<S>>, i: nat, d: nat)
    requires IsRun(states, actions) && i < |states| && IsDraining(states[i], d)
    ensures states[i].drainers[d].parked <= Traces(states[i].drainers[d].rows)
  {
    if i > 0 {
      assert states[i - 1 + 1] == Next(states[i - 1], actions[i - 1]);
      if IsDraining(states[i - 1], d) {
        ParkedAreTraces(states, actions, i - 1, d);
      }
    }
  }

  /** An outage holds the cursor: in every run, a worked batch can be committed unless it has ten or more
      traces and all of them failed. */
  lemma CommitsUnlessOutage<S(!new)>(states: seq<State<S>>, actions: seq<Action<S>>, i: nat, d: nat)
    requires IsRun(states, actions) && i < |states| && IsDraining(states[i], d)
    ensures var batch := states[i].drainers[d];
            Enabled(states[i], Commit(d))
            <==> && |batch.rows| > 0 && (forall n: nat :: n < |batch.rows| ==> n in batch.worked)
                 && (|Traces(batch.rows)| < 10 || exists n :: n in Traces(batch.rows) && n !in batch.parked)
  {
    var batch := states[i].drainers[d];
    ParkedAreTraces(states, actions, i, d);
    if forall n :: n in Traces(batch.rows) ==> n in batch.parked {
      assert batch.parked == Traces(batch.rows);
    } else {
      ProperlySmaller(batch.parked, Traces(batch.rows));
    }
  }

  lemma ProperlySmaller(a: set<nat>, b: set<nat>)
    requires a <= b && a != b
    ensures |a| < |b|
  {
    assert b == a + (b - a) && b - a != {};
  }

  /** Schema drift stops the fetch: ten or more rows of which none is a trace, and nothing else. */
  lemma DriftIff(rows: seq<Row>)
    ensures LooksLikeDrift(rows) <==> |rows| >= 10 && forall row :: row in rows ==> row.poison
  {
    if Traces(rows) == {} {
      forall row | row in rows ensures row.poison {
        var i: nat :| i < |rows| && rows[i] == row;
        assert i !in Traces(rows);
      }
    }
  }

  // ---------------------------------------------------------------- the clock matters

  function First(clock: int): Row { Row(Cursor(clock, "b"), false) }
  function Late(clock: int): Row { Row(Cursor(clock, "a"), false) }

  function LosingActions<S>(stamp: S, clock: int, ceiling: int): seq<Action<S>> {
    [Write(First(clock)), Fetch(0, ceiling, 1, [First(clock)]), Work(0, 0, Ingested(stamp)), Commit(0),
     Write(Late(clock))]
  }

  /** The states of the losing run, written out. */
  function LosingStates<S>(stamp: S, clock: int, ceiling: int): seq<State<S>> {
    var source := map["b" := First(clock)];
    var key := First(clock).key;
    [Fresh(clock, 1),
     State(source, clock, None, map[], {}, {}, [Resting]),
     State(source, clock, None, map[], {}, {}, [Draining(None, ceiling, [First(clock)], {}, {})]),
     State(source, clock, None, map["b" := stamp], {}, {}, [Draining(None, ceiling, [First(clock)], {0}, {})]),
     State(source, clock, Some(key), map["b" := stamp], {}, {}, [Resting]),
     State(source["a" := Late(clock)], clock, Some(key), map["b" := stamp], {}, {}, [Resting])]
  }

  lemma LosingFetch<S(!new)>(s: State<S>, clock: int, ceiling: int)
    requires ceiling > clock && s == State(map["b" := First(clock)], clock, None, map[], {}, {}, [Resting])
    ensures Enabled(s, Fetch(0, ceiling, 1, [First(clock)]))
  {
    var rows := [First(clock)];
    assert Eligible(s.source, None, ceiling, First(clock));
    forall row | Eligible(s.source, None, ceiling, row) ensures row in rows {}
    assert 0 in Traces(rows);
  }

  lemma LosingWork<S(!new)>(s: State<S>, stamp: S, clock: int, ceiling: int)
    requires s == State(map["b" := First(clock)], clock, None, map[], {}, {},
                        [Draining(None, ceiling, [First(clock)], {}, {})])
    ensures Enabled(s, Work(0, 0, Ingested(stamp)))
    ensures Next(s, Work(0, 0, Ingested(stamp))) ==
            s.(store := map["b" := stamp], drainers := [Draining(None, ceiling, [First(clock)], {0}, {})])
  {
    var rows := [First(clock)];
    assert s.drainers[0].rows == rows && rows[0] == First(clock);
    var t := WorkRow(s, 0, 0, Ingested(stamp));
    var empty: set<nat> := {};
    assert empty + {0} == {0};
    assert t.store == map["b" := stamp] && t.drainers == [Draining(None, ceiling, rows, {0}, {})];
  }

  lemma LosingCommit<S(!new)>(s: State<S>, stamp: S, clock: int, ceiling: int)
    requires s.cursor == None && s.drainers == [Draining(None, ceiling, [First(clock)], {0}, {})]
    ensures Enabled(s, Commit(0))
    ensures Next(s, Commit(0)) == s.(cursor := Some(First(clock).key), drainers := [Resting])
  {
    assert Traces([First(clock)]) == {0};
  }

  lemma LosingStep<S(!new)>(stamp: S, clock: int, ceiling: int, i: nat)
    requires ceiling > clock && i < 5
    ensures Enabled(LosingStates(stamp, clock, ceiling)[i], LosingActions(stamp, clock, ceiling)[i])
    ensures LosingStates(stamp, clock, ceiling)[i + 1]
         == Next(LosingStates(stamp, clock, ceiling)[i], LosingActions(stamp, clock, ceiling)[i])
  {
    var s := LosingStates(stamp, clock, ceiling)[i];
    if i == 0 {
      assert Fresh<S>(clock, 1).drainers == [Resting];
    } else if i == 1 {
      LosingFetch(s, clock, ceiling);
    } else if i == 2 {
      LosingWork(s, stamp, clock, ceiling);
    } else if i == 3 {
      LosingCommit(s, stamp, clock, ceiling);
    }
  }

  /** With a worker's clock ahead of the source's by any margin past the quiet period, a run loses
      a row: the cursor passes an instant at which the source is still writing. */
  lemma FastClockLosesARow<S(!new)>(stamp: S, clock: int, ceiling: int)
    requires ceiling > clock
    ensures var states, actions := LosingStates(stamp, clock, ceiling), LosingActions(stamp, clock, ceiling);
            && IsRun(states, actions)
            && (forall i :: 0 <= i < |states| ==> states[i].clock == clock)
            && !NothingLost(states[|states| - 1])
  {
    var states, actions := LosingStates(stamp, clock, ceiling), LosingActions(stamp, clock, ceiling);
    forall i | 0 <= i < |actions|
      ensures Enabled(states[i], actions[i]) && states[i + 1] == Next(states[i], actions[i])
    {
      LosingStep(stamp, clock, ceiling, i);
    }
    assert states[0] == Fresh(clock, 1);
    var last := states[5];
    assert last.source["a"] == Late(clock) && !Past(last.cursor, Late(clock).key) && !Settled(last, Late(clock)) by {
      assert !TextLess("b", "a");
    }
  }

  /** Every fetch of the run takes a ceiling at most `margin` past the source's clock. */
  ghost predicate ClockedWithin<S(!new)>(states: seq<State<S>>, actions: seq<Action<S>>, margin: int)
    requires |states| == |actions| + 1
  {
    forall i :: 0 <= i < |actions| && actions[i].Fetch? ==> actions[i].ceiling <= states[i].clock + margin
  }

  /** No run with such ceilings ever loses a row. */
  ghost predicate NeverLoses<S(!new)>(margin: int) {
    forall states: seq<State<S>>, actions: seq<Action<S>>, j: nat ::
      IsRun(states, actions) && ClockedWithin(states, actions, margin) && j < |states| ==> NothingLost(states[j])
  }

  /** The exact margin: runs lose nothing if and only if no ceiling may lie past the source's clock.
      The margin is how far a worker's clock runs ahead, less the quiet period. */
  lemma SafeExactlyWithoutMargin<S(!new)>(stamp: S, margin: int)
    ensures NeverLoses<S>(margin) <==> margin <= 0
  {
    if margin <= 0 {
      forall states: seq<State<S>>, actions: seq<Action<S>>, j: nat
        | IsRun(states, actions) && ClockedWithin(states, actions, margin) && j < |states|
        ensures NothingLost(states[j])
      {
        NoLossNoDoubleStore(states, actions, j, j);
      }
    } else {
      FastClockLosesARow(stamp, 0, margin);
      var states, actions := LosingStates(stamp, 0, margin), LosingActions(stamp, 0, margin);
      assert IsRun(states, actions) && ClockedWithin(states, actions, margin);
      assert !NothingLost(states[5]);
    }
  }

  // ---------------------------------------------------------------- progress

  /** A committed batch moves the cursor strictly upward, over at least one row that was ahead. */
  lemma CommitAdvances<S(!new)>(s: State<S>, d: nat)
    requires Inv(s) && Enabled(s, Commit(d)) && s.drainers[d].after == s.cursor
    ensures var rows := s.drainers[d].rows;
            Next(s, Commit(d)).cursor == Some(rows[|rows| - 1].key) && Past(s.cursor, rows[|rows| - 1].key)
  {
    assert BatchHolds(s, s.drainers[d]);
  }

  /** `caughtUp`: a batch shorter than the limit leaves no quiet row behind. */
  lemma ShortBatchCatchesUp(source: map<string, Row>, after: Option<Cursor>, ceiling: int, limit: nat, rows: seq<Row>,
                            row: Row)
    requires IsBatch(source, after, ceiling, limit, rows) && |rows| < limit
    requires Eligible(source, after, ceiling, row)
    ensures |rows| > 0 && !Past(Some(rows[|rows| - 1].key), row.key)
  {
    assert row in rows;
    var i :| 0 <= i < |rows| && rows[i] == row;
    BeforeFacts(row.key, rows[|rows| - 1].key, row.key);
  }

  ghost function Ahead(source: map<string, Row>, cursor: Option<Cursor>): set<string> {
    set id | id in source && Past(cursor, source[id].key)
  }

  /** While the source is quiet each committed batch leaves strictly fewer rows ahead, so a drain
      loop over a fixed backlog ends. */
  lemma DrainShrinks<S(!new)>(s: State<S>, d: nat)
    requires Inv(s) && Enabled(s, Commit(d)) && s.drainers[d].after == s.cursor
    requires var rows := s.drainers[d].rows; Eligible(s.source, s.cursor, s.drainers[d].ceiling, rows[|rows| - 1])
    ensures Ahead(s.source, Next(s, Commit(d)).cursor) < Ahead(s.source, s.cursor)
  {
    CommitAdvances(s, d);
    var rows, t := s.drainers[d].rows, Next(s, Commit(d));
    var last := rows[|rows| - 1];
    forall id | id in Ahead(s.source, t.cursor) ensures id in Ahead(s.source, s.cursor) {
      if s.cursor.Some? {
        BeforeFacts(s.cursor.value, last.key, s.source[id].key);
      }
    }
    BeforeFacts(last.key, last.key, last.key);
    assert last.key.traceId in Ahead(s.source, s.cursor) && last.key.traceId !in Ahead(s.source, t.cursor);
  }

  // ---------------------------------------------------------------- one step of the loop

  datatype IngestError = TraceShaped | Systemic
  datatype SyncError = CursorStuck | StoreDown | AllFailed
  datatype Report = Report(scanned: nat, inserted: nat, skipped: nat, failed: nat, caughtUp: bool)

  predicate Succeeds<S>(row: Row, ingest: Row -> Result<S, IngestError>) {
    !row.poison && ingest(row).Ok?
  }

  predicate FailsStore<S>(row: Row, ingest: Row -> Result<S, IngestError>) {
    !row.poison && ingest(row).Err? && ingest(row).error.Systemic?
  }

  predicate FailsItself<S>(row: Row, ingest: Row -> Result<S, IngestError>) {
    !row.poison && ingest(row).Err? && ingest(row).error.TraceShaped?
  }

  /** The store once the rows are worked in order. */
  function Stored<S>(before: map<string, S>, rows: seq<Row>, ingest: Row -> Result<S, IngestError>): map<string, S> {
    if |rows| == 0 then before
    else
      var done, last := Stored(before, rows[..|rows| - 1], ingest), rows[|rows| - 1];
      if Succeeds(last, ingest) then InsertIfAbsent(done, last.key.traceId, ingest(last).value) else done
  }

  /** The dead letters once the rows are worked. */
  function DeadLettered<S>(before: set<Cursor>, rows: seq<Row>, ingest: Row -> Result<S, IngestError>): set<Cursor> {
    if |rows| == 0 then before
    else
      var done, last := DeadLettered(before, rows[..|rows| - 1], ingest), rows[|rows| - 1];
      if FailsItself(last, ingest) then done + {last.key} else done
  }

  /** The poison records once the rows are worked. */
  function PoisonFound(before: set<Cursor>, rows: seq<Row>): set<Cursor> {
    if |rows| == 0 then before
    else
      var done, last := PoisonFound(before, rows[..|rows| - 1]), rows[|rows| - 1];
      if last.poison then done + {last.key} else done
  }

  /** One row more. */
  lemma WorkedSnoc<S>(stored: map<string, S>, dead: set<Cursor>, poison: set<Cursor>, rows: seq<Row>, n: nat,
                      ingest: Row -> Result<S, IngestError>)
    requires n < |rows|
    ensures var done := Stored(stored, rows[..n], ingest);
            Stored(stored, rows[..n + 1], ingest) ==
            if Succeeds(rows[n], ingest) then InsertIfAbsent(done, rows[n].key.traceId, ingest(rows[n]).value) else done
    ensures DeadLettered(dead, rows[..n + 1], ingest)
         == DeadLettered(dead, rows[..n], ingest) + if FailsItself(rows[n], ingest) then {rows[n].key} else {}
    ensures PoisonFound(poison, rows[..n + 1])
         == PoisonFound(poison, rows[..n]) + if rows[n].poison then {rows[n].key} else {}
  {
    assert rows[..n + 1][..n] == rows[..n];
  }

  /** Some row of that trace is ingested. */
  ghost predicate IsIngested<S>(rows: seq<Row>, ingest: Row -> Result<S, IngestError>, id: string) {
    exists row :: row in rows && Succeeds(row, ingest) && row.key.traceId == id
  }

  /** The `i`-th row is the first of its trace that is ingested. */
  ghost predicate FirstIngested<S>(rows: seq<Row>, ingest: Row -> Result<S, IngestError>, id: string, i: nat) {
    i < |rows| && Succeeds(rows[i], ingest) && rows[i].key.traceId == id && !IsIngested(rows[..i], ingest, id)
  }

  /** Exactly the ingested traces are stored beside those that were: an old one keeps its stamp, a new
      one has the stamp its first row was ingested with. */
  lemma {:induction false} StoredMeans<S>(
    before: map<string, S>, rows: seq<Row>, ingest: Row -> Result<S, IngestError>, id: string)
    ensures id in Stored(before, rows, ingest) <==> id in before || IsIngested(rows, ingest, id)
    ensures id in before ==> Stored(before, rows, ingest)[id] == before[id]
    ensures id in Stored(before, rows, ingest) && id !in before ==>
              exists i :: 0 <= i < |rows| && FirstIngested(rows, ingest, id, i)
                          && ingest(rows[i]).value == Stored(before, rows, ingest)[id]
  {
    if |rows| > 0 {
      var n := |rows| - 1;
      var front, last := rows[..n], rows[n];
      StoredMeans(before, front, ingest, id);
      assert forall row :: row in rows <==> row in front || row == last;
      if IsIngested(front, ingest, id) {
        if id !in before {
          var i :| 0 <= i < n && FirstIngested(front, ingest, id, i)
                   && ingest(front[i]).value == Stored(before, front, ingest)[id];
          assert front[..i] == rows[..i] && front[i] == rows[i];
          assert FirstIngested(rows, ingest, id, i);
        }
      } else if Succeeds(last, ingest) && last.key.traceId == id {
        assert FirstIngested(rows, ingest, id, n);
      }
    }
  }

  /** Dead letters for exactly the rows that fail on their own. */
  lemma {:induction false} DeadLetteredMeans<S>(
    before: set<Cursor>, rows: seq<Row>, ingest: Row -> Result<S, IngestError>, key: Cursor)
    ensures key in DeadLettered(before, rows, ingest)
            <==> key in before || exists row :: row in rows && FailsItself(row, ingest) && row.key == key
  {
    if |rows| > 0 {
      DeadLetteredMeans(before, rows[..|rows| - 1], ingest, key);
      assert forall row :: row in rows <==> row in rows[..|rows| - 1] || row == rows[|rows| - 1];
    }
  }

  /** Poison records for exactly the poison rows. */
  lemma {:induction false} PoisonFoundMeans(before: set<Cursor>, rows: seq<Row>, key: Cursor)
    ensures key in PoisonFound(before, rows)
            <==> key in before || exists row :: row in rows && row.poison && row.key == key
  {
    if |rows| > 0 {
      PoisonFoundMeans(before, rows[..|rows| - 1], key);
      assert forall row :: row in rows <==> row in rows[..|rows| - 1] || row == rows[|rows| - 1];
    }
  }

  /** A map holds, beside what it held, exactly the ingested traces, each with the stamp of its first row. */
  ghost predicate StoresIngested<S>(before: map<string, S>, after: map<string, S>, rows: seq<Row>,
                                    ingest: Row -> Result<S, IngestError>)
  {
    && (forall id :: id in after <==> id in before || IsIngested(rows, ingest, id))
    && (forall id :: id in before ==> id in after && after[id] == before[id])
    && forall id :: id in after && id !in before ==>
         exists i :: 0 <= i < |rows| && FirstIngested(rows, ingest, id, i) && ingest(rows[i]).value == after[id]
  }

  ghost predicate ParksFailures<S>(before: set<Cursor>, after: set<Cursor>, rows: seq<Row>,
                                   ingest: Row -> Result<S, IngestError>)
  {
    forall key :: key in after
      <==> key in before || exists row :: row in rows && FailsItself(row, ingest) && row.key == key
  }

  ghost predicate RecordsPoisonRows(before: set<Cursor>, after: set<Cursor>, rows: seq<Row>) {
    forall key :: key in after <==> key in before || exists row :: row in rows && row.poison && row.key == key
  }

  lemma StoredIsIngested<S>(before: map<string, S>, rows: seq<Row>, ingest: Row -> Result<S, IngestError>)
    ensures StoresIngested(before, Stored(before, rows, ingest), rows, ingest)
  {
    var after := Stored(before, rows, ingest);
    forall id: string
      ensures id in after <==> id in before || IsIngested(rows, ingest, id)
      ensures id in before ==> after[id] == before[id]
      ensures id in after && id !in before ==>
                exists i :: 0 <= i < |rows| && FirstIngested(rows, ingest, id, i) && ingest(rows[i]).value == after[id]
    {
      StoredMeans(before, rows, ingest, id);
    }
  }

  lemma RecordsAre<S>(dead: set<Cursor>, poison: set<Cursor>, rows: seq<Row>, ingest: Row -> Result<S, IngestError>)
    ensures ParksFailures(dead, DeadLettered(dead, rows, ingest), rows, ingest)
    ensures RecordsPoisonRows(poison, PoisonFound(poison, rows), rows)
  {
    forall key: Cursor
      ensures key in DeadLettered(dead, rows, ingest)
              <==> key in dead || exists row :: row in rows && FailsItself(row, ingest) && row.key == key
      ensures key in PoisonFound(poison, rows)
              <==> key in poison || exists row :: row in rows && row.poison && row.key == key
    {
      DeadLetteredMeans(dead, rows, ingest, key);
      PoisonFoundMeans(poison, rows, key);
    }
  }

  /** Worked rows are stored, dead-lettered or recorded as poison, unless the store failed on them. */
  lemma WorkedRowsAreFiled<S>(
    stored: map<string, S>, dead: set<Cursor>, poison: set<Cursor>, rows: seq<Row>,
    ingest: Row -> Result<S, IngestError>, i: nat)
    requires i < |rows| && !FailsStore(rows[i], ingest)
    ensures rows[i].key.traceId in Stored(stored, rows, ingest) || rows[i].key in DeadLettered(dead, rows, ingest)
            || rows[i].key in PoisonFound(poison, rows)
  {
    var row := rows[i];
    assert row in rows;
    StoredMeans(stored, rows, ingest, row.key.traceId);
    DeadLetteredMeans(dead, rows, ingest, row.key);
    PoisonFoundMeans(poison, rows, row.key);
  }

  /** The failing traces of a batch. */
  function Failing<S>(rows: seq<Row>, ingest: Row -> Result<S, IngestError>): set<nat> {
    set i: nat | i < |rows| && !rows[i].poison && ingest(rows[i]).Err?
  }

  lemma {:induction false} TraceCountIs(rows: seq<Row>)
    ensures TraceCount(rows) == |Traces(rows)|
  {
    if |rows| > 0 {
      var n := |rows| - 1;
      TraceCountIs(rows[..n]);
      assert Traces(rows) == Traces(rows[..n]) + if rows[n].poison then {} else {n};
    }
  }

  lemma {:induction false} FailCountIs<S>(rows: seq<Row>, ingest: Row -> Result<S, IngestError>)
    ensures FailCount(rows, ingest) == |Failing(rows, ingest)|
  {
    if |rows| > 0 {
      var n := |rows| - 1;
      FailCountIs(rows[..n], ingest);
      assert Failing(rows, ingest)
          == Failing(rows[..n], ingest) + if !rows[n].poison && ingest(rows[n]).Err? then {n} else {};
    }
  }

  class SyncStores<S> {
    var cursor: Option<Cursor>
    var store: map<string, S>
    var deadLetters: set<Cursor>
    var poisonRows: set<Cursor>

    ghost predicate Accounted(row: Row)
      reads this
    {
      row.key.traceId in store || row.key in deadLetters || row.key in poisonRows
    }

    /** What was in the stores is still there, stamps included. */
    ghost predicate Keeps(stored: map<string, S>, dead: set<Cursor>, poison: set<Cursor>)
      reads this
    {
      && (forall id :: id in stored ==> id in store && store[id] == stored[id])
      && dead <= deadLetters && poison <= poisonRows
    }

    /** The stores are what working these rows, in order, makes of what they were. */
    ghost predicate Worked(stored: map<string, S>, dead: set<Cursor>, poison: set<Cursor>, rows: seq<Row>,
                           ingest: Row -> Result<S, IngestError>)
      reads this
    {
      && store == Stored(stored, rows, ingest)
      && deadLetters == DeadLettered(dead, rows, ingest) && poisonRows == PoisonFound(poison, rows)
    }

    /** Since then, exactly these rows have been filed: stored, dead-lettered or recorded as poison. */
    ghost predicate Filed(stored: map<string, S>, dead: set<Cursor>, poison: set<Cursor>, rows: seq<Row>,
                          ingest: Row -> Result<S, IngestError>)
      reads this
    {
      && StoresIngested(stored, store, rows, ingest)
      && ParksFailures(dead, deadLetters, rows, ingest) && RecordsPoisonRows(poison, poisonRows, rows)
    }

    lemma WorkedIsFiled(stored: map<string, S>, dead: set<Cursor>, poison: set<Cursor>, rows: seq<Row>,
                        ingest: Row -> Result<S, IngestError>)
      requires Worked(stored, dead, poison, rows, ingest)
      ensures Filed(stored, dead, poison, rows, ingest) && Keeps(stored, dead, poison)
      ensures forall i :: 0 <= i < |rows| && !FailsStore(rows[i], ingest) ==> Accounted(rows[i])
    {
      StoredIsIngested(stored, rows, ingest);
      RecordsAre(dead, poison, rows, ingest);
      forall i | 0 <= i < |rows| && !FailsStore(rows[i], ingest) ensures Accounted(rows[i]) {
        WorkedRowsAreFiled(stored, dead, poison, rows, ingest, i);
      }
    }

    constructor ()
      ensures cursor == None && store == map[] && deadLetters == {} && poisonRows == {}
    {
      cursor, store, deadLetters, poisonRows := None, map[], {}, {};
    }

    /** One row; None when the failure is the store's. */
    method IngestRow(row: Row, ingest: Row -> Result<S, IngestError>, report: Report) returns (r: Option<Report>)
      modifies this`store, this`deadLetters, this`poisonRows
      ensures r.None? <==> FailsStore(row, ingest)
      ensures store == if Succeeds(row, ingest) then InsertIfAbsent(old(store), row.key.traceId, ingest(row).value)
                       else old(store)
      ensures deadLetters == old(deadLetters) + if FailsItself(row, ingest) then {row.key} else {}
      ensures poisonRows == old(poisonRows) + if row.poison then {row.key} else {}
      ensures r.Some? ==> |store| == |old(store)| + (r.value.inserted - report.inserted)
      ensures r.Some? ==> r.value.inserted + r.value.skipped + r.value.failed
                          == report.inserted + report.skipped + report.failed + if row.poison then 0 else 1
      ensures r.Some? ==> r.value.failed == report.failed + if !row.poison && ingest(row).Err? then 1 else 0
      ensures r.Some? ==> r.value.scanned == report.scanned && r.value.caughtUp == report.caughtUp
    {
      var id := row.key.traceId;
      if row.poison {
        poisonRows := poisonRows + {row.key};
        return Some(report);
      }
      match ingest(row)
      case Err(Systemic) => return None;
      case Err(TraceShaped) =>
        deadLetters := deadLetters + {row.key};
        return Some(report.(failed := report.failed + 1));
      case Ok(stamp) =>
        if id in store {
          return Some(report.(skipped := report.skipped + 1));
        }
        store := store[id := stamp];
        return Some(report.(inserted := report.inserted + 1));
    }

    /** The first `n` rows are worked and counted. */
    ghost predicate Working(stored: map<string, S>, dead: set<Cursor>, poison: set<Cursor>, rows: seq<Row>,
                            ingest: Row -> Result<S, IngestError>, report: Report)
      reads this
    {
      && Worked(stored, dead, poison, rows, ingest)
      && report.inserted + report.skipped + report.failed == TraceCount(rows)
      && report.failed == FailCount(rows, ingest) && |store| == |stored| + report.inserted
    }

    /** One row more of a batch; None when the store fails on it. */
    method WorkNext(rows: seq<Row>, n: nat, ingest: Row -> Result<S, IngestError>, report: Report,
                    ghost stored: map<string, S>, ghost dead: set<Cursor>, ghost poison: set<Cursor>)
      returns (next: Option<Report>)
      requires n < |rows| && Working(stored, dead, poison, rows[..n], ingest, report)
      modifies this`store, this`deadLetters, this`poisonRows
      ensures next.None? <==> FailsStore(rows[n], ingest)
      ensures next.None? ==> Worked(stored, dead, poison, rows[..n], ingest)
      ensures next.Some? ==> Working(stored, dead, poison, rows[..n + 1], ingest, next.value)
      ensures next.Some? ==> next.value.scanned == report.scanned && next.value.caughtUp == report.caughtUp
    {
      CountsSnoc(rows, n, ingest);
      WorkedSnoc(stored, dead, poison, rows, n, ingest);
      next := IngestRow(rows[n], ingest, report);
    }

    /** The rows of a batch; None when the store fails on one of them. */
    method WorkBatch(rows: seq<Row>, limit: nat, ingest: Row -> Result<S, IngestError>) returns (r: Option<Report>)
      modifies this`store, this`deadLetters, this`poisonRows
      ensures r.None? <==> StoreFails(rows, ingest)
      ensures r.Some? ==> Working(old(store), old(deadLetters), old(poisonRows), rows, ingest, r.value)
      ensures r.None? ==> exists n: nat :: n < |rows| && FailsStore(rows[n], ingest)
                            && Worked(old(store), old(deadLetters), old(poisonRows), rows[..n], ingest)
      ensures r.Some? ==> r.value.scanned == |rows| && (r.value.caughtUp <==> |rows| < limit)
    {
      var report := Report(|rows|, 0, 0, 0, |rows| < limit);
      for n := 0 to |rows|
        invariant report.scanned == |rows| && (report.caughtUp <==> |rows| < limit)
        invariant forall i :: 0 <= i < n ==> !FailsStore(rows[i], ingest)
        invariant Working(old(store), old(deadLetters), old(poisonRows), rows[..n], ingest, report)
      {
        var next := WorkNext(rows, n, ingest, report, old(store), old(deadLetters), old(poisonRows));
        if next.None? {
          assert FailsStore(rows[n], ingest);
          return None;
        }
        report := next.value;
      }
      assert rows[..|rows|] == rows;
      return Some(report);
    }

    /** `syncNextBatch` on the rows fetched past the cursor. An error leaves the cursor where it
        was; success accounts for every row before the cursor moves past the last of them. */
    method SyncNextBatch(rows: seq<Row>, limit: nat, ingest: Row -> Result<S, IngestError>)
      returns (r: Result<Report, SyncError>)
      modifies this
      ensures Keeps(old(store), old(deadLetters), old(poisonRows))
      ensures r.Err? ==> cursor == old(cursor)
      ensures r.Ok? || r == Err(AllFailed) ==> Filed(old(store), old(deadLetters), old(poisonRows), rows, ingest)
      ensures r == Err(CursorStuck) ==>
                store == old(store) && deadLetters == old(deadLetters) && poisonRows == old(poisonRows)
      ensures r == Err(StoreDown) ==>
                exists n: nat :: n < |rows| && FailsStore(rows[n], ingest)
                  && Filed(old(store), old(deadLetters), old(poisonRows), rows[..n], ingest)
      ensures r.Ok? ==> forall i :: 0 <= i < |rows| ==> Accounted(rows[i])
      ensures r.Ok? ==> cursor == if |rows| == 0 then old(cursor) else Some(rows[|rows| - 1].key)
      ensures r.Ok? && |rows| > 0 ==> Past(old(cursor), cursor.value)
      ensures r.Ok? ==> r.value.scanned == |rows| && (r.value.caughtUp <==> |rows| < limit)
      ensures r.Ok? ==> r.value.inserted + r.value.skipped + r.value.failed == |Traces(rows)|
      ensures r.Ok? ==> r.value.failed == |Failing(rows, ingest)|
      ensures r.Ok? ==> |store| == |old(store)| + r.value.inserted
      ensures r == Err(CursorStuck) <==> Stuck(old(cursor), rows)
      ensures r == Err(StoreDown) <==> !Stuck(old(cursor), rows) && StoreFails(rows, ingest)
      ensures r == Err(AllFailed)
              <==> !Stuck(old(cursor), rows) && |Traces(rows)| >= BREAKER_MIN && AllTraceShaped(rows, ingest)
    {
      FailsAll(rows, ingest);
      TraceCountIs(rows);
      FailCountIs(rows, ingest);
      if Stuck(cursor, rows) {
        return Err(CursorStuck);
      }
      var report := WorkBatch(rows, limit, ingest);
      if report.None? {
        ghost var n: nat :| n < |rows| && FailsStore(rows[n], ingest)
                            && Worked(old(store), old(deadLetters), old(poisonRows), rows[..n], ingest);
        WorkedIsFiled(old(store), old(deadLetters), old(poisonRows), rows[..n], ingest);
        return Err(StoreDown);
      }
      WorkedIsFiled(old(store), old(deadLetters), old(poisonRows), rows, ingest);
      if TraceCount(rows) >= BREAKER_MIN && report.value.failed == TraceCount(rows) {
        return Err(AllFailed);
      }
      if |rows| > 0 {
        cursor := Advanced(cursor, rows[|rows| - 1].key);
      }
      return Ok(report.value);
    }
  }

  /** The batch would not move the cursor strictly forward. */
  predicate Stuck(cursor: Option<Cursor>, rows: seq<Row>) {
    |rows| > 0 && !Past(cursor, rows[|rows| - 1].key)
  }

  /** The store fails on some trace of the batch. */
  predicate StoreFails<S>(rows: seq<Row>, ingest: Row -> Result<S, IngestError>) {
    exists i :: 0 <= i < |rows| && FailsStore(rows[i], ingest)
  }

  /** Every trace of the batch fails on its own. */
  predicate AllTraceShaped<S>(rows: seq<Row>, ingest: Row -> Result<S, IngestError>) {
    forall i :: 0 <= i < |rows| ==> rows[i].poison || FailsItself(rows[i], ingest)
  }

  function FailCount<S>(rows: seq<Row>, ingest: Row -> Result<S, IngestError>): nat {
    if |rows| == 0 then 0
    else
      var last := rows[|rows| - 1];
      FailCount(rows[..|rows| - 1], ingest) + if !last.poison && ingest(last).Err? then 1 else 0
  }

  lemma CountsSnoc<S>(rows: seq<Row>, n: nat, ingest: Row -> Result<S, IngestError>)
    requires n < |rows|
    ensures TraceCount(rows[..n + 1]) == TraceCount(rows[..n]) + if rows[n].poison then 0 else 1
    ensures FailCount(rows[..n + 1], ingest) ==
            FailCount(rows[..n], ingest) + if !rows[n].poison && ingest(rows[n]).Err? then 1 else 0
  {
    assert rows[..n + 1][..n] == rows[..n];
  }

  /** When the store never fails, as many traces fail as there are exactly when each fails on its
      own; when it does fail, not every trace fails on its own. */
  lemma {:induction false} FailsAll<S>(rows: seq<Row>, ingest: Row -> Result<S, IngestError>)
    ensures FailCount(rows, ingest) <= TraceCount(rows)
    ensures StoreFails(rows, ingest) ==> !AllTraceShaped(rows, ingest)
    ensures !StoreFails(rows, ingest) ==>
            (FailCount(rows, ingest) == TraceCount(rows) <==> AllTraceShaped(rows, ingest))
  {
    if |rows| > 0 {
      var front, last := rows[..|rows| - 1], rows[|rows| - 1];
      FailsAll(front, ingest);
      assert StoreFails(rows, ingest) <==> StoreFails(front, ingest) || FailsStore(last, ingest);
      assert AllTraceShaped(rows, ingest)
             <==> AllTraceShaped(front, ingest) && (last.poison || FailsItself(last, ingest));
    }
  }

  function TraceCount(rows: seq<Row>): nat {
    if |rows| == 0 then 0
    else TraceCount(rows[..|rows| - 1]) + if rows[|rows| - 1].poison then 0 else 1
  }
}
