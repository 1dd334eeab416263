/**
 * The stamped traces as the store holds them: the record the statement engine folds, beside the
 * trace's own total and its own token counts, which the bill list sums instead. The stamping rule
 * ties the two together, trace by trace and month by month.
 */
module StoredTraces {
  import opened Wrappers
  import opened Sums
  import opened StatementModel
  import opened StatementSpec
  import P = Prices

  datatype StoredTrace = StoredTrace(record: UsageRecord, total: int, tokens: P.TokenCounts)

  /** The trace carries what some prices stamped on its counts, which are never negative; `Stamping`
      shows that stored traces keep to it. */
  ghost predicate IsStamped(trace: StoredTrace) {
    && (forall t :: P.CountOf(trace.tokens, t) >= 0)
    && exists prices, hasModel ::
         var stamp := P.StampTokens(trace.tokens, prices, hasModel);
         stamp.Ok? && stamp.value.Stamped?
         && stamp.value.costs == trace.record.stampedCosts && stamp.value.total == trace.total
  }

  function TraceTotal(trace: StoredTrace): int { trace.total }

  /** `docTokens`: the trace's own counts, added up. */
  function DocTokens(trace: StoredTrace): int {
    P.CountOf(trace.tokens, Input) + P.CountOf(trace.tokens, Output)
    + P.CountOf(trace.tokens, CacheRead) + P.CountOf(trace.tokens, CacheWrite)
  }

  function RecordsOf(traces: seq<StoredTrace>): (records: seq<UsageRecord>)
    ensures |records| == |traces| && forall i :: 0 <= i < |traces| ==> records[i] == traces[i].record
  {
    seq(|traces|, i requires 0 <= i < |traces| => traces[i].record)
  }

  lemma RecordsSnoc(traces: seq<StoredTrace>)
    requires |traces| > 0
    ensures RecordsOf(traces) == RecordsOf(traces[..|traces| - 1]) + [traces[|traces| - 1].record]
  {}

  /** Filtering the traces filters their records. */
  lemma {:induction false} RecordsFiltered(
    traces: seq<StoredTrace>, keep: StoredTrace -> bool, keepRecord: UsageRecord -> bool)
    requires forall trace :: trace in traces ==> (keep(trace) <==> keepRecord(trace.record))
    ensures RecordsOf(Filter(traces, keep)) == Filter(RecordsOf(traces), keepRecord)
  {
    if |traces| > 0 {
      var front, last := traces[..|traces| - 1], traces[|traces| - 1];
      assert last in traces;
      RecordsFiltered(front, keep, keepRecord);
      RecordsSnoc(traces);
      FilterSnoc(RecordsOf(front), last.record, keepRecord);
    }
  }

  function CostType(c: StampedCost): TokenType { c.tokenType }
  function CostTokens(c: StampedCost): int { c.tokens }

  lemma {:induction false} StampTokensAddUp(tokens: P.TokenCounts, prices: P.EffectivePrices, costs: seq<StampedCost>)
    requires forall t :: P.CountOf(tokens, t) >= 0
    requires forall c :: c in costs ==> P.PricedAt(c, tokens, prices)
    requires forall t :: P.Uses(tokens, t) <==> exists c :: c in costs && c.tokenType == t
    requires forall i, j :: 0 <= i < j < |costs| ==> costs[i].tokenType != costs[j].tokenType
    ensures forall t :: Group(costs, CostType, CostTokens, t) == P.CountOf(tokens, t)
  {
    forall t ensures Group(costs, CostType, CostTokens, t) == P.CountOf(tokens, t) {
      if P.Uses(tokens, t) {
        var c :| c in costs && c.tokenType == t;
        var i :| 0 <= i < |costs| && costs[i] == c;
        GroupSingle(costs, CostType, CostTokens, i);
      } else {
        GroupAbsent(costs, CostType, CostTokens, t);
      }
    }
  }

  lemma SumOfTypes(costs: seq<StampedCost>)
    ensures SumBy(costs, CostTokens) ==
            Group(costs, CostType, CostTokens, Input) + Group(costs, CostType, CostTokens, Output)
            + Group(costs, CostType, CostTokens, CacheRead) + Group(costs, CostType, CostTokens, CacheWrite)
  {
    AllTypesListed();
    Partition(costs, CostType, CostTokens, TOKEN_TYPES);
    FourTypes(GroupSums(costs, CostType, CostTokens));
  }

  /** A trace's own total and counts are those of its stamped costs. */
  lemma StampAddsUp(trace: StoredTrace)
    requires IsStamped(trace)
    ensures SumBy(EntriesOf(trace.record), EntryCost) == trace.total
    ensures SumBy(EntriesOf(trace.record), EntryTokens) == DocTokens(trace)
  {
    var costs := trace.record.stampedCosts;
    var prices, hasModel :|
      var stamp := P.StampTokens(trace.tokens, prices, hasModel);
      stamp.Ok? && stamp.value.Stamped? && stamp.value.costs == costs && stamp.value.total == trace.total;
    P.StampMeaning(trace.tokens, prices, hasModel);
    SumByIsSum(EntriesOf(trace.record), EntryCost);
    assert Mapped(EntriesOf(trace.record), EntryCost) == P.CostAmounts(costs);
    SumByZip(EntriesOf(trace.record), costs, EntryTokens, CostTokens);
    StampTokensAddUp(trace.tokens, prices, costs);
    SumOfTypes(costs);
  }

  /** Summing the traces' own fields sums the stamped costs the statement is built from. */
  lemma {:induction false} TracesAddUp(traces: seq<StoredTrace>)
    requires forall trace :: trace in traces ==> IsStamped(trace)
    ensures SumBy(traces, TraceTotal) == SumBy(Entries(RecordsOf(traces)), EntryCost)
    ensures SumBy(traces, DocTokens) == SumBy(Entries(RecordsOf(traces)), EntryTokens)
  {
    if |traces| > 0 {
      var front, last := traces[..|traces| - 1], traces[|traces| - 1];
      TracesAddUp(front);
      StampAddsUp(last);
      RecordsSnoc(traces);
      FlatMapSnoc(RecordsOf(front), last.record, EntriesOf);
      SumByConcat(Entries(RecordsOf(front)), EntriesOf(last.record), EntryCost);
      SumByConcat(Entries(RecordsOf(front)), EntriesOf(last.record), EntryTokens);
    }
  }
}
