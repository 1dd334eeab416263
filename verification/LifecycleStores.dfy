/**
 * billing-test-fakes.ts: the stores themselves. Each method changes one month, and changes it as
 * the lifecycle's store operations say.
 */
module LifecycleStores {
  import opened Wrappers
  import L = Lifecycle

  datatype MonthKey = MonthKey(year: int, month: int)

  class BillingPeriodRepository {
    var periods: map<MonthKey, L.Period>

    constructor ()
      ensures periods == map[]
    {
      periods := map[];
    }

    function Find(key: MonthKey): Option<L.Period>
      reads this
    {
      if key in periods then Some(periods[key]) else None
    }

    /** True for 'closed', false for 'conflict'. */
    method MarkClosed(key: MonthKey, version: nat) returns (closed: bool)
      modifies this
      ensures closed <==> L.MarkClosed(old(Find(key)), version).Some?
      ensures closed ==> Find(key) == L.MarkClosed(old(Find(key)), version)
      ensures !closed ==> periods == old(periods)
      ensures forall k :: k != key ==> Find(k) == old(Find(k))
    {
      var existing := Find(key);
      if existing.Some? && existing.value.closed {
        return false;
      }
      var audit := if existing.Some? then existing.value.audit else [];
      periods := periods[key := L.Period(true, version, audit + [L.CloseEntry(version)])];
      return true;
    }

    /** True for 'reopened', false for 'conflict'. */
    method MarkReopened(key: MonthKey, version: nat) returns (reopened: bool)
      modifies this
      ensures reopened <==> L.MarkReopened(old(Find(key)), version).Some?
      ensures reopened ==> Find(key) == L.MarkReopened(old(Find(key)), version)
      ensures !reopened ==> periods == old(periods)
      ensures forall k :: k != key ==> Find(k) == old(Find(k))
    {
      var existing := Find(key);
      if existing.None? || !existing.value.closed {
        return false;
      }
      var p := existing.value;
      periods := periods[key := p.(closed := false, audit := p.audit + [L.ReopenEntry(version)])];
      return true;
    }
  }

  datatype Usage = Usage(traceId: string, cost: nat)
  datatype Header = Header(key: MonthKey, version: nat)
  datatype CloseOutcome = Closed | Conflict | DuplicateVersion

  /** The usage rows of a snapshot as what it bills. */
  function BilledOf(rows: seq<Usage>): L.Billed {
    if |rows| == 0 then map[]
    else BilledOf(rows[..|rows| - 1])[rows[|rows| - 1].traceId := rows[|rows| - 1].cost]
  }

  function Flatten(pages: seq<seq<Usage>>): seq<Usage> {
    if |pages| == 0 then [] else Flatten(pages[..|pages| - 1]) + pages[|pages| - 1]
  }

  function VersionsOf(usage: map<Header, seq<Usage>>, key: MonthKey): (versions: set<nat>)
    ensures forall v: nat :: v in versions <==> Header(key, v) in usage
  {
    set h | h in usage && h.key == key :: h.version
  }

  /** The stored versions of a month and what each bills. */
  function HeadersOf(usage: map<Header, seq<Usage>>, key: MonthKey): map<nat, L.Billed> {
    map v: nat | v in VersionsOf(usage, key) :: BilledOf(usage[Header(key, v)])
  }

  lemma OwnHeadersAfterInsert(usage: map<Header, seq<Usage>>, header: Header, rows: seq<Usage>)
    ensures HeadersOf(usage[header := rows], header.key)
              == HeadersOf(usage, header.key)[header.version := BilledOf(rows)]
  {
    var after := usage[header := rows];
    assert header == Header(header.key, header.version);
    assert VersionsOf(after, header.key) == VersionsOf(usage, header.key) + {header.version};
    forall v | v in VersionsOf(after, header.key) && v != header.version
      ensures after[Header(header.key, v)] == usage[Header(header.key, v)] {}
  }

  lemma OtherHeadersAfterInsert(usage: map<Header, seq<Usage>>, header: Header, rows: seq<Usage>, k: MonthKey)
    requires k != header.key
    ensures HeadersOf(usage[header := rows], k) == HeadersOf(usage, k)
  {
    var after := usage[header := rows];
    assert VersionsOf(after, k) == VersionsOf(usage, k);
    forall v | v in VersionsOf(after, k) ensures after[Header(k, v)] == usage[Header(k, v)] {}
  }

  class BillingSnapshotRepository {
    var snapshots: seq<Header>
    var usage: map<Header, seq<Usage>>
    const periods: BillingPeriodRepository

    constructor (periods: BillingPeriodRepository)
      ensures this.periods == periods && snapshots == [] && usage == map[] && Valid()
    {
      this.periods, snapshots, usage := periods, [], map[];
    }

    /** Headers and usage describe the same snapshots, each once. */
    ghost predicate Valid()
      reads this
    {
      && (forall h :: h in snapshots <==> h in usage)
      && (forall i, j :: 0 <= i < j < |snapshots| ==> snapshots[i] != snapshots[j])
    }

    ghost function Headers(key: MonthKey): map<nat, L.Billed>
      reads this`usage
    {
      HeadersOf(usage, key)
    }

    /** False when the version is already stored. */
    method Insert(header: Header, rows: seq<Usage>) returns (ok: bool)
      requires Valid()
      modifies this
      ensures Valid() && (ok <==> header !in old(usage))
      ensures ok ==> usage == old(usage)[header := rows]
      ensures !ok ==> usage == old(usage) && snapshots == old(snapshots)
    {
      if header in usage {
        return false;
      }
      snapshots := snapshots + [header];
      usage := usage[header := rows];
      return true;
    }

    /** The staged close: pages are collected, and nothing is readable unless header and flip win. */
    method InsertWithPeriodCloseStaged(header: Header, pages: seq<seq<Usage>>) returns (outcome: CloseOutcome)
      requires Valid()
      modifies this, periods
      ensures Valid()
      ensures var published := L.PublishClose(
                old(periods.Find(header.key)), old(Headers(header.key)), header.version, BilledOf(Flatten(pages)));
              if published.Some?
              then outcome == Closed && periods.Find(header.key) == Some(published.value.0)
                   && Headers(header.key) == published.value.1
              else outcome != Closed && periods.periods == old(periods.periods) && usage == old(usage)
      ensures outcome == DuplicateVersion <==> header in old(usage)
      ensures forall k :: k != header.key ==> periods.Find(k) == old(periods.Find(k)) && Headers(k) == old(Headers(k))
    {
      var staged: seq<Usage> := [];
      for n := 0 to |pages|
        invariant staged == Flatten(pages[..n])
        invariant unchanged(this) && unchanged(periods)
      {
        assert pages[..n + 1][..n] == pages[..n];
        staged := staged + pages[n];
      }
      assert pages[..|pages|] == pages;
      assert header == Header(header.key, header.version);
      if header in usage {
        return DuplicateVersion;
      }
      var closed := periods.MarkClosed(header.key, header.version);
      if !closed {
        return Conflict;
      }
      ghost var before := usage;
      var ok := Insert(header, staged);
      OwnHeadersAfterInsert(before, header, staged);
      forall k | k != header.key ensures HeadersOf(usage, k) == HeadersOf(before, k) {
        OtherHeadersAfterInsert(before, header, staged, k);
      }
      return Closed;
    }

    function Rows(header: Header): seq<Usage>
      reads this`usage
    {
      if header in usage then usage[header] else []
    }

    /** `findUsageTraceIds`: the ids of one version, none for an unknown one. */
    function FindUsageTraceIds(header: Header): seq<string>
      reads this`usage
    {
      var rows := Rows(header);
      seq(|rows|, i requires 0 <= i < |rows| => rows[i].traceId)
    }

    /** The ids a repair reads are exactly the traces the snapshot bills. */
    lemma UsageIdsAreBilled(header: Header, id: string)
      ensures id in FindUsageTraceIds(header) <==> header in usage && id in Headers(header.key)[header.version]
    {
      var rows, ids := Rows(header), FindUsageTraceIds(header);
      assert header == Header(header.key, header.version);
      BilledIds(rows);
      if id in BilledOf(rows) {
        var i :| 0 <= i < |rows| && rows[i].traceId == id;
        assert ids[i] == id;
      }
      if id in ids {
        var i :| 0 <= i < |ids| && ids[i] == id;
        assert rows[i].traceId == id;
      }
    }

    /** `findCurrent`: the highest stored version of the month. */
    method FindCurrent(key: MonthKey) returns (current: Option<Header>)
      requires Valid()
      ensures current.None? <==> Headers(key).Keys == {}
      ensures current.Some? ==> current.value.key == key && current.value.version == L.HighestHeader(Headers(key))
    {
      current := None;
      for n := 0 to |snapshots|
        invariant current.Some? ==> current.value in snapshots[..n] && current.value.key == key
        invariant current.None? ==> forall h :: h in snapshots[..n] ==> h.key != key
        invariant current.Some? ==>
                    forall h :: h in snapshots[..n] && h.key == key ==> h.version <= current.value.version
      {
        var h := snapshots[n];
        assert snapshots[..n + 1] == snapshots[..n] + [h];
        if h.key == key && (current.None? || current.value.version < h.version) {
          current := Some(h);
        }
      }
      assert snapshots[..|snapshots|] == snapshots;
      CurrentIsHighest(key, current);
    }

    lemma CurrentIsHighest(key: MonthKey, current: Option<Header>)
      requires current.Some? ==> current.value in usage && current.value.key == key
      requires current.None? ==> forall h :: h in usage ==> h.key != key
      requires current.Some? ==> forall h :: h in usage && h.key == key ==> h.version <= current.value.version
      ensures current.None? <==> Headers(key).Keys == {}
      ensures current.Some? ==> current.value.version == L.HighestHeader(Headers(key))
    {
      if current.Some? {
        assert current.value == Header(key, current.value.version);
        assert current.value.version in Headers(key);
      }
    }
  }

  lemma {:induction false} FlattenHolds(pages: seq<seq<Usage>>, u: Usage)
    ensures u in Flatten(pages) <==> exists i :: 0 <= i < |pages| && u in pages[i]
  {
    if |pages| > 0 {
      FlattenHolds(pages[..|pages| - 1], u);
    }
  }

  /** Rows of one trace agree on its cost. */
  ghost predicate OneCostEach(rows: seq<Usage>) {
    forall u, v :: u in rows && v in rows && u.traceId == v.traceId ==> u.cost == v.cost
  }

  lemma {:induction false} BilledCosts(rows: seq<Usage>, u: Usage)
    requires OneCostEach(rows) && u in rows
    ensures u.traceId in BilledOf(rows) && BilledOf(rows)[u.traceId] == u.cost
  {
    var front, last := rows[..|rows| - 1], rows[|rows| - 1];
    assert rows == front + [last];
    if u.traceId != last.traceId {
      BilledCosts(front, u);
    }
  }

  /** A staged snapshot bills exactly the traces on its pages, each at the cost its page has. */
  lemma StagedIsBilled(pages: seq<seq<Usage>>, id: string, cost: nat)
    requires OneCostEach(Flatten(pages))
    ensures id in BilledOf(Flatten(pages)) && BilledOf(Flatten(pages))[id] == cost
            <==> exists i :: 0 <= i < |pages| && Usage(id, cost) in pages[i]
  {
    var rows := Flatten(pages);
    FlattenHolds(pages, Usage(id, cost));
    BilledIds(rows);
    if id in BilledOf(rows) {
      var i :| 0 <= i < |rows| && rows[i].traceId == id;
      BilledCosts(rows, rows[i]);
      assert rows[i] == Usage(id, rows[i].cost);
    }
    if Usage(id, cost) in rows {
      BilledCosts(rows, Usage(id, cost));
    }
  }

  lemma {:induction false} BilledIds(rows: seq<Usage>)
    ensures forall id :: id in BilledOf(rows) <==> exists i :: 0 <= i < |rows| && rows[i].traceId == id
  {
    if |rows| > 0 {
      BilledIds(rows[..|rows| - 1]);
      assert rows == rows[..|rows| - 1] + [rows[|rows| - 1]];
    }
  }
}
