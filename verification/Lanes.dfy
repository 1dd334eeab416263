/** run-in-lanes.ts: items that share a lane run one after another in input order, different
    lanes run side by side, and the first error stops new items from starting. */
module Lanes {
  import opened Wrappers
  import opened Sums
  import opened Sorting

  // ---------------------------------------------------------------- grouping

  function InLane<T>(key: T -> string, k: string): T -> bool {
    (x: T) => key(x) == k
  }

  /** The items of one lane, in input order. */
  function LaneOf<T>(items: seq<T>, key: T -> string, k: string): seq<T> {
    Filter(items, InLane(key, k))
  }

  /** The lanes in order of first appearance. */
  function LanesOf<T>(items: seq<T>, key: T -> string): (lanes: seq<seq<T>>)
    ensures |lanes| == |Listing(items, key)|
    ensures forall i :: 0 <= i < |lanes| ==> lanes[i] == LaneOf(items, key, Listing(items, key)[i])
  {
    var ks := Listing(items, key);
    seq(|ks|, i requires 0 <= i < |ks| => LaneOf(items, key, ks[i]))
  }

  ghost predicate Grouped<T>(order: seq<string>, lanes: map<string, seq<T>>, items: seq<T>, key: T -> string) {
    && order == Listing(items, key)
    && lanes.Keys == Elements(order)
    && forall k :: k in lanes ==> lanes[k] == LaneOf(items, key, k)
  }

  lemma {:induction false} LaneAbsent<T>(items: seq<T>, key: T -> string, k: string)
    requires k !in Listing(items, key)
    ensures LaneOf(items, key, k) == []
  {
    if |items| > 0 {
      LaneAbsent(items[..|items| - 1], key, k);
    }
  }

  lemma LaneSnoc<T>(items: seq<T>, x: T, key: T -> string, k: string)
    ensures LaneOf(items + [x], key, k) == LaneOf(items, key, k) + if key(x) == k then [x] else []
  {
    assert (items + [x])[..|items|] == items;
  }

  lemma GroupedSnoc<T>(order: seq<string>, lanes: map<string, seq<T>>, items: seq<T>, x: T, key: T -> string)
    requires Grouped(order, lanes, items, key)
    ensures key(x) in lanes ==> Grouped(order, lanes[key(x) := lanes[key(x)] + [x]], items + [x], key)
    ensures key(x) !in lanes ==> Grouped(order + [key(x)], lanes[key(x) := [x]], items + [x], key)
  {
    var y := key(x);
    ListingSnoc(items, x, key);
    assert y in lanes <==> y in order;
    assert Elements(order + [y]) == Elements(order) + {y};
    if y !in lanes {
      LaneAbsent(items, key, y);
    }
    forall k ensures LaneOf(items + [x], key, k) == LaneOf(items, key, k) + if y == k then [x] else [] {
      LaneSnoc(items, x, key, k);
    }
  }

  method GroupLanes<T>(items: seq<T>, key: T -> string) returns (queue: seq<seq<T>>)
    ensures queue == LanesOf(items, key)
  {
    var order: seq<string>, lanes: map<string, seq<T>> := [], map[];
    for n := 0 to |items|
      invariant Grouped(order, lanes, items[..n], key)
    {
      var k := key(items[n]);
      assert items[..n + 1] == items[..n] + [items[n]];
      GroupedSnoc(order, lanes, items[..n], items[n], key);
      if k in lanes {
        lanes := lanes[k := lanes[k] + [items[n]]];
      } else {
        lanes, order := lanes[k := [items[n]]], order + [k];
      }
    }
    assert items[..|items|] == items;
    assert forall i :: 0 <= i < |order| ==> order[i] in Elements(order);
    queue := seq(|order|, i requires 0 <= i < |order| && order[i] in lanes => lanes[order[i]]);
  }

  ghost function Bag<T>(lanes: seq<seq<T>>): multiset<T> {
    if |lanes| == 0 then multiset{} else Bag(lanes[..|lanes| - 1]) + multiset(lanes[|lanes| - 1])
  }

  lemma BagSnoc<T>(lanes: seq<seq<T>>, lane: seq<T>)
    ensures Bag(lanes + [lane]) == Bag(lanes) + multiset(lane)
  {
    assert (lanes + [lane])[..|lanes|] == lanes;
  }

  lemma {:induction false} BagUpdate<T>(lanes: seq<seq<T>>, i: nat, x: T)
    requires i < |lanes|
    ensures Bag(lanes[i := lanes[i] + [x]]) == Bag(lanes) + multiset{x}
  {
    var n := |lanes| - 1;
    if i == n {
      assert lanes[i := lanes[i] + [x]][..n] == lanes[..n];
    } else {
      BagUpdate(lanes[..n], i, x);
      assert lanes[i := lanes[i] + [x]][..n] == lanes[..n][i := lanes[i] + [x]];
    }
  }

  lemma LanesSnocKnown<T>(items: seq<T>, x: T, key: T -> string, i: nat)
    requires i < |Listing(items, key)| && Listing(items, key)[i] == key(x)
    ensures LanesOf(items + [x], key) == LanesOf(items, key)[i := LanesOf(items, key)[i] + [x]]
  {
    var lanes, ks := LanesOf(items, key), Listing(items, key);
    ListingSnoc(items, x, key);
    ListingFacts(items, key);
    forall k ensures LaneOf(items + [x], key, k) == LaneOf(items, key, k) + if key(x) == k then [x] else [] {
      LaneSnoc(items, x, key, k);
    }
  }

  lemma LanesSnocNew<T>(items: seq<T>, x: T, key: T -> string)
    requires key(x) !in Listing(items, key)
    ensures LanesOf(items + [x], key) == LanesOf(items, key) + [[x]]
  {
    var ks := Listing(items, key);
    ListingSnoc(items, x, key);
    LaneAbsent(items, key, key(x));
    LaneSnoc(items, x, key, key(x));
    forall i | 0 <= i < |ks| ensures LaneOf(items + [x], key, ks[i]) == LaneOf(items, key, ks[i]) {
      LaneSnoc(items, x, key, ks[i]);
      assert ks[i] in ks;
    }
  }

  /** One item more is in the lanes once more, and empties none. */
  lemma LanesGrow<T>(items: seq<T>, x: T, key: T -> string)
    requires forall i :: 0 <= i < |LanesOf(items, key)| ==> |LanesOf(items, key)[i]| > 0
    ensures Bag(LanesOf(items + [x], key)) == Bag(LanesOf(items, key)) + multiset{x}
    ensures forall i :: 0 <= i < |LanesOf(items + [x], key)| ==> |LanesOf(items + [x], key)[i]| > 0
  {
    var lanes, ks := LanesOf(items, key), Listing(items, key);
    if i :| 0 <= i < |ks| && ks[i] == key(x) {
      LanesSnocKnown(items, x, key, i);
      BagUpdate(lanes, i, x);
    } else {
      LanesSnocNew(items, x, key);
      BagSnoc(lanes, [x]);
    }
  }

  /** The lanes hold every item exactly as often as the input does, and no lane is empty. */
  lemma {:induction false} LanesPartition<T>(items: seq<T>, key: T -> string)
    ensures Bag(LanesOf(items, key)) == multiset(items)
    ensures forall i :: 0 <= i < |LanesOf(items, key)| ==> |LanesOf(items, key)[i]| > 0
  {
    if |items| > 0 {
      var front, x := items[..|items| - 1], items[|items| - 1];
      assert items == front + [x];
      LanesPartition(front, key);
      LanesGrow(front, x, key);
    }
  }

  // ---------------------------------------------------------------- the workers

  /* Workers interleave at every `await`, so the drain loops are a transition system: a step runs
     one worker from the end of its item (or from its first turn) to its next `await` or its return. */

  function Min(a: int, b: int): int { if a < b then a else b }
  function Max(a: int, b: int): int { if a < b then b else a }

  /** `Math.max(1, Math.min(Math.floor(concurrency), queue.length))`. */
  function Workers(concurrency: real, lanes: nat): nat {
    Max(1, Min(concurrency.Floor, lanes))
  }

  /** Where a worker stands: at the top of `for (;;)`, at the top of the `for` over its lane,
      awaiting the work of an item, or returned. */
  datatype Worker = Idle | Between(lane: nat, pos: nat) | InFlight(lane: nat, pos: nat) | Done

  datatype Event<E> = Started(lane: nat, pos: nat) | Succeeded(lane: nat, pos: nat)
                      | Failed(lane: nat, pos: nat, error: E)

  /** `next` lanes have been shifted off the queue; the history is what an observer sees. */
  datatype State<E> = State(workers: seq<Worker>, next: nat, failure: Option<E>, history: seq<Event<E>>)

  function Initial<E>(workers: nat): State<E> {
    State(seq(workers, _ => Idle), 0, None, [])
  }

  predicate Holds(x: Worker) {
    x.Between? || x.InFlight?
  }

  /** One step of worker `w`; `outcome` is how its item ends if it has one in flight. */
  function Step<E>(s: State<E>, lengths: seq<nat>, w: nat, outcome: Option<E>): State<E>
    requires w < |s.workers| && s.workers[w] != Done
    requires s.workers[w].Between? ==> s.workers[w].lane < |lengths|
  {
    match s.workers[w]
    case Idle =>
      if s.failure.Some? || s.next >= |lengths| then s.(workers := s.workers[w := Done])
      else s.(workers := s.workers[w := Between(s.next, 0)], next := s.next + 1)
    case Between(lane, pos) =>
      if pos >= lengths[lane] then s.(workers := s.workers[w := Idle])
      else if s.failure.Some? then s.(workers := s.workers[w := Done])
      else s.(workers := s.workers[w := InFlight(lane, pos)], history := s.history + [Started(lane, pos)])
    case InFlight(lane, pos) =>
      match outcome
      case None => s.(workers := s.workers[w := Between(lane, pos + 1)], history := s.history + [Succeeded(lane, pos)])
      case Some(e) =>
        State(s.workers[w := Done], s.next, if s.failure.Some? then s.failure else Some(e),
              s.history + [Failed(lane, pos, e)])
  }

  // ---------------------------------------------------------------- what every interleaving keeps

  /** The positions of `lane` in the order their items started. */
  function Starts<E>(h: seq<Event<E>>, lane: nat): seq<nat> {
    if |h| == 0 then []
    else
      var front, e := Starts(h[..|h| - 1], lane), h[|h| - 1];
      if e.Started? && e.lane == lane then front + [e.pos] else front
  }

  /** The positions of `lane` in the order their items ended. */
  function Ends<E>(h: seq<Event<E>>, lane: nat): seq<nat> {
    if |h| == 0 then []
    else
      var front, e := Ends(h[..|h| - 1], lane), h[|h| - 1];
      if !e.Started? && e.lane == lane then front + [e.pos] else front
  }

  /** Positions 0, 1, ... started, one after the other. */
  ghost predicate InOrder<E>(h: seq<Event<E>>, lane: nat, started: nat, ended: nat) {
    Starts(h, lane) == Upto(started) && Ends(h, lane) == Upto(ended)
  }

  ghost predicate Held<E>(s: State<E>, lane: nat) {
    exists w :: 0 <= w < |s.workers| && Holds(s.workers[w]) && s.workers[w].lane == lane
  }

  ghost predicate WorkerHolds<E>(s: State<E>, lengths: seq<nat>, w: nat)
    requires w < |s.workers|
  {
    match s.workers[w]
    case Idle => true
    case Between(lane, pos) =>
      lane < s.next && lane < |lengths| && pos <= lengths[lane] && InOrder(s.history, lane, pos, pos)
    case InFlight(lane, pos) =>
      lane < s.next && lane < |lengths| && pos < lengths[lane] && InOrder(s.history, lane, pos + 1, pos)
    case Done => s.failure.Some? || s.next == |lengths|
  }

  /** A lane nobody holds: untouched, finished, or dropped after an error. */
  ghost predicate FreeLane<E>(s: State<E>, lengths: seq<nat>, lane: nat)
    requires lane < |lengths|
  {
    exists n: nat ::
      && InOrder(s.history, lane, n, n)
      && n <= lengths[lane]
      && (lane >= s.next ==> n == 0)
      && (lane < s.next && s.failure.None? ==> n == lengths[lane])
  }

  /** The first error in the history, if any. */
  function FirstError<E>(h: seq<Event<E>>): Option<E> {
    if |h| == 0 then None
    else
      var earlier := FirstError(h[..|h| - 1]);
      if earlier.Some? then earlier
      else if h[|h| - 1].Failed? then Some(h[|h| - 1].error) else None
  }

  /** Nothing starts once an error is in the history. */
  ghost predicate StopsAtError<E>(h: seq<Event<E>>) {
    forall i :: 0 <= i < |h| && h[i].Started? ==> FirstError(h[..i]).None?
  }

  ghost predicate OneHolderPerLane(workers: seq<Worker>) {
    forall v, w :: 0 <= v < w < |workers| && Holds(workers[v]) && Holds(workers[w])
                   ==> workers[v].lane != workers[w].lane
  }

  ghost predicate Inv<E>(s: State<E>, lengths: seq<nat>) {
    && s.next <= |lengths|
    && (forall w :: 0 <= w < |s.workers| ==> WorkerHolds(s, lengths, w))
    && OneHolderPerLane(s.workers)
    && (forall lane :: 0 <= lane < |lengths| && !Held(s, lane) ==> FreeLane(s, lengths, lane))
    && s.failure == FirstError(s.history)
    && StopsAtError(s.history)
  }

  lemma InitialHolds<E>(workers: nat, lengths: seq<nat>)
    ensures Inv<E>(Initial(workers), lengths)
  {
    var s: State<E> := Initial(workers);
    forall lane | 0 <= lane < |lengths| ensures FreeLane(s, lengths, lane) {
      assert InOrder(s.history, lane, 0, 0);
    }
  }

  lemma {:induction false} HistorySnoc<E>(h: seq<Event<E>>, e: Event<E>)
    ensures forall lane ::
              Starts(h + [e], lane) == Starts(h, lane) + if e.Started? && e.lane == lane then [e.pos] else []
    ensures forall lane :: Ends(h + [e], lane) == Ends(h, lane) + if !e.Started? && e.lane == lane then [e.pos] else []
    ensures FirstError(h + [e]) ==
            if FirstError(h).Some? then FirstError(h) else if e.Failed? then Some(e.error) else None
    ensures StopsAtError(h) && (e.Started? ==> FirstError(h).None?) ==> StopsAtError(h + [e])
  {
    var longer := h + [e];
    assert longer[..|h|] == h;
    forall i | 0 <= i <= |h| && longer[i].Started? && StopsAtError(h) && (e.Started? ==> FirstError(h).None?)
      ensures FirstError(longer[..i]).None?
    {
      if i < |h| {
        assert longer[..i] == h[..i];
      }
    }
  }

  /** The lanes a step of worker `w` leaves alone. */
  lemma HeldElsewhere<E>(s: State<E>, t: State<E>, w: nat, x: Worker, lane: nat)
    requires w < |s.workers| && t.workers == s.workers[w := x]
    requires !(Holds(s.workers[w]) && s.workers[w].lane == lane) && !(Holds(x) && x.lane == lane)
    ensures Held(t, lane) <==> Held(s, lane)
  {
    if Held(s, lane) {
      var v :| 0 <= v < |s.workers| && Holds(s.workers[v]) && s.workers[v].lane == lane;
      assert t.workers[v] == s.workers[v];
    }
    if Held(t, lane) {
      var v :| 0 <= v < |t.workers| && Holds(t.workers[v]) && t.workers[v].lane == lane;
      assert t.workers[v] == s.workers[v];
    }
  }

  /** A lane untouched by the step stays as it was. */
  lemma OtherLanes<E>(s: State<E>, t: State<E>, lengths: seq<nat>, w: nat, x: Worker, lane: nat)
    requires Inv(s, lengths) && w < |s.workers| && t.workers == s.workers[w := x] && lane < |lengths|
    requires !(Holds(s.workers[w]) && s.workers[w].lane == lane) && !(Holds(x) && x.lane == lane)
    requires Starts(t.history, lane) == Starts(s.history, lane) && Ends(t.history, lane) == Ends(s.history, lane)
    requires s.next <= t.next && (lane >= s.next ==> lane >= t.next)
    requires t.failure.None? ==> s.failure.None?
    ensures !Held(t, lane) ==> FreeLane(t, lengths, lane)
  {
    HeldElsewhere(s, t, w, x, lane);
    if !Held(t, lane) {
      var n: nat :| InOrder(s.history, lane, n, n) && n <= lengths[lane] && (lane >= s.next ==> n == 0)
                    && (lane < s.next && s.failure.None? ==> n == lengths[lane]);
      assert InOrder(t.history, lane, n, n);
    }
  }

  /** Every worker but `w` stands as it stood. */
  lemma OtherWorkers<E>(s: State<E>, t: State<E>, lengths: seq<nat>, w: nat, x: Worker, v: nat)
    requires Inv(s, lengths) && w < |s.workers| && t.workers == s.workers[w := x] && v < |s.workers| && v != w
    requires s.next <= t.next <= |lengths| && (s.failure.Some? ==> t.failure.Some?)
    requires forall lane :: !(Holds(s.workers[w]) && s.workers[w].lane == lane) ==>
               Starts(t.history, lane) == Starts(s.history, lane) && Ends(t.history, lane) == Ends(s.history, lane)
    ensures WorkerHolds(t, lengths, v)
  {
    assert WorkerHolds(s, lengths, v);
    assert v < w || w < v;
  }

  /** A lane shifted off the queue was free until now. */
  lemma ShiftedLaneFree<E>(s: State<E>, lengths: seq<nat>)
    requires Inv(s, lengths) && s.next < |lengths|
    ensures !Held(s, s.next) && InOrder(s.history, s.next, 0, 0)
  {
    forall v | 0 <= v < |s.workers| && Holds(s.workers[v]) ensures s.workers[v].lane < s.next {
      assert WorkerHolds(s, lengths, v);
    }
    assert FreeLane(s, lengths, s.next);
  }

  lemma IdleKeeps<E>(s: State<E>, lengths: seq<nat>, w: nat)
    requires Inv(s, lengths) && w < |s.workers| && s.workers[w] == Idle
    ensures Inv(Step(s, lengths, w, None), lengths)
  {
    var t := Step(s, lengths, w, None);
    var x := t.workers[w];
    if s.next < |lengths| {
      ShiftedLaneFree(s, lengths);
    }
    forall lane | 0 <= lane < |lengths| && !Held(t, lane) ensures FreeLane(t, lengths, lane) {
      assert t.workers[w] == x;
      OtherLanes(s, t, lengths, w, x, lane);
    }
    forall v | 0 <= v < |t.workers| ensures WorkerHolds(t, lengths, v) {
      if v != w { OtherWorkers(s, t, lengths, w, x, v); }
    }
  }

  /** A worker that lets its lane go leaves it free. */
  lemma BetweenKeeps<E>(s: State<E>, lengths: seq<nat>, w: nat)
    requires Inv(s, lengths) && w < |s.workers| && s.workers[w].Between?
    ensures WorkerHolds(s, lengths, w) && Inv(Step(s, lengths, w, None), lengths)
  {
    assert WorkerHolds(s, lengths, w);
    var t := Step(s, lengths, w, None);
    var x, own, pos := t.workers[w], s.workers[w].lane, s.workers[w].pos;
    HistorySnoc(s.history, Started(own, pos));
    assert Upto(pos) + [pos] == Upto(pos + 1);
    forall lane | 0 <= lane < |lengths| && !Held(t, lane) ensures FreeLane(t, lengths, lane) {
      assert t.workers[w] == x;
      if lane == own {
        assert InOrder(t.history, lane, pos, pos);
      } else {
        OtherLanes(s, t, lengths, w, x, lane);
      }
    }
    forall v | 0 <= v < |t.workers| ensures WorkerHolds(t, lengths, v) {
      if v != w { OtherWorkers(s, t, lengths, w, x, v); }
    }
  }

  lemma InFlightKeeps<E>(s: State<E>, lengths: seq<nat>, w: nat, outcome: Option<E>)
    requires Inv(s, lengths) && w < |s.workers| && s.workers[w].InFlight?
    ensures WorkerHolds(s, lengths, w) && Inv(Step(s, lengths, w, outcome), lengths)
  {
    assert WorkerHolds(s, lengths, w);
    var t := Step(s, lengths, w, outcome);
    var x, own, pos := t.workers[w], s.workers[w].lane, s.workers[w].pos;
    var e := if outcome.None? then Succeeded(own, pos) else Failed(own, pos, outcome.value);
    HistorySnoc(s.history, e);
    assert Upto(pos) + [pos] == Upto(pos + 1);
    forall lane | 0 <= lane < |lengths| && !Held(t, lane) ensures FreeLane(t, lengths, lane) {
      assert t.workers[w] == x;
      if lane == own {
        assert InOrder(t.history, lane, pos + 1, pos + 1);
      } else {
        OtherLanes(s, t, lengths, w, x, lane);
      }
    }
    forall v | 0 <= v < |t.workers| ensures WorkerHolds(t, lengths, v) {
      if v != w { OtherWorkers(s, t, lengths, w, x, v); }
    }
  }

  ghost predicate CanStep<E>(s: State<E>, w: nat) {
    w < |s.workers| && s.workers[w] != Done
  }

  lemma StepKeeps<E>(s: State<E>, lengths: seq<nat>, w: nat, outcome: Option<E>)
    requires Inv(s, lengths) && CanStep(s, w)
    ensures WorkerHolds(s, lengths, w)
    ensures Inv(Step(s, lengths, w, outcome), lengths)
  {
    assert WorkerHolds(s, lengths, w);
    match s.workers[w]
    case Idle => IdleKeeps(s, lengths, w);
    case Between(_, _) => BetweenKeeps(s, lengths, w);
    case InFlight(_, _) => InFlightKeeps(s, lengths, w, outcome);
  }

  // ---------------------------------------------------------------- whole runs

  /** A turn of the scheduler: which worker goes on, and how its item ends. */
  datatype Turn<E> = Turn(worker: nat, outcome: Option<E>)

  /** The state after a schedule, or nothing when the schedule names a worker that cannot step. */
  ghost function Run<E>(workers: nat, lengths: seq<nat>, schedule: seq<Turn<E>>): (r: Option<State<E>>)
    ensures r.Some? ==> Inv(r.value, lengths) && |r.value.workers| == workers
  {
    InitialHolds<E>(workers, lengths);
    if |schedule| == 0 then Some(Initial(workers))
    else
      var before := Run(workers, lengths, schedule[..|schedule| - 1]);
      var turn := schedule[|schedule| - 1];
      if before.Some? && CanStep(before.value, turn.worker) then
        StepKeeps(before.value, lengths, turn.worker, turn.outcome);
        Some(Step(before.value, lengths, turn.worker, turn.outcome))
      else None
  }

  function Flying(workers: seq<Worker>): nat {
    if |workers| == 0 then 0
    else Flying(workers[..|workers| - 1]) + if workers[|workers| - 1].InFlight? then 1 else 0
  }

  lemma {:induction false} FlyingBelow(workers: seq<Worker>)
    ensures Flying(workers) <= |workers|
  {
    if |workers| > 0 {
      FlyingBelow(workers[..|workers| - 1]);
    }
  }

  ghost predicate IsPrefix(s: seq<nat>, n: nat) {
    exists m: nat :: m <= n && s == Upto(m)
  }

  lemma LaneInOrder<E>(s: State<E>, lengths: seq<nat>, lane: nat)
    requires Inv(s, lengths) && lane < |lengths|
    ensures IsPrefix(Starts(s.history, lane), lengths[lane])
    ensures |Ends(s.history, lane)| <= |Starts(s.history, lane)| <= |Ends(s.history, lane)| + 1
    ensures Ends(s.history, lane) == Upto(|Ends(s.history, lane)|)
    ensures !Held(s, lane) && s.failure.None? && lane < s.next ==> Starts(s.history, lane) == Upto(lengths[lane])
    ensures !Held(s, lane) ==> |Ends(s.history, lane)| == |Starts(s.history, lane)|
  {
    if Held(s, lane) {
      var w :| 0 <= w < |s.workers| && Holds(s.workers[w]) && s.workers[w].lane == lane;
      assert WorkerHolds(s, lengths, w);
    } else {
      assert FreeLane(s, lengths, lane);
    }
  }

  /** Under every interleaving, at every moment: at most `workers` items in flight, no two of one
      lane; each lane's started items a prefix of the lane, each ended before the next starts;
      nothing started after the first error, which is the one kept. */
  lemma {:induction false} SafeAtEveryMoment<E>(workers: nat, lengths: seq<nat>, schedule: seq<Turn<E>>, lane: nat)
    requires Run(workers, lengths, schedule).Some? && lane < |lengths|
    ensures var s := Run(workers, lengths, schedule).value;
            && Flying(s.workers) <= workers
            && OneHolderPerLane(s.workers)
            && IsPrefix(Starts(s.history, lane), lengths[lane])
            && Ends(s.history, lane) == Upto(|Ends(s.history, lane)|)
            && |Ends(s.history, lane)| <= |Starts(s.history, lane)| <= |Ends(s.history, lane)| + 1
            && StopsAtError(s.history) && s.failure == FirstError(s.history)
  {
    var s := Run(workers, lengths, schedule).value;
    FlyingBelow(s.workers);
    LaneInOrder(s, lengths, lane);
  }

  ghost predicate AllDone<E>(s: State<E>) {
    forall w :: 0 <= w < |s.workers| ==> s.workers[w] == Done
  }

  /** When every worker has returned: without an error every item of every lane was worked, once
      and in order; with one, every started item ended. */
  lemma CompleteAtTheEnd<E>(workers: nat, lengths: seq<nat>, schedule: seq<Turn<E>>, lane: nat)
    requires workers > 0 && Run(workers, lengths, schedule).Some? && lane < |lengths|
    requires AllDone(Run(workers, lengths, schedule).value)
    ensures var s := Run(workers, lengths, schedule).value;
            && Ends(s.history, lane) == Starts(s.history, lane)
            && (FirstError(s.history).None? ==> Starts(s.history, lane) == Upto(lengths[lane]))
  {
    var s := Run(workers, lengths, schedule).value;
    assert s.workers[0] == Done && WorkerHolds(s, lengths, 0);
    LaneInOrder(s, lengths, lane);
  }

  // ---------------------------------------------------------------- termination

  function Total(lengths: seq<nat>): nat {
    if |lengths| == 0 then 0 else Total(lengths[..|lengths| - 1]) + lengths[|lengths| - 1]
  }

  function Phase(x: Worker): nat {
    match x case Done => 0 case Idle => 1 case Between(_, _) => 2 case InFlight(_, _) => 3
  }

  function Phases(workers: seq<Worker>): nat {
    if |workers| == 0 then 0 else Phases(workers[..|workers| - 1]) + Phase(workers[|workers| - 1])
  }

  /** Items not yet started, in the lanes below `n`. */
  ghost function Unstarted<E>(h: seq<Event<E>>, lengths: seq<nat>, n: nat): int
    requires n <= |lengths|
  {
    if n == 0 then 0 else Unstarted(h, lengths, n - 1) + lengths[n - 1] - |Starts(h, n - 1)|
  }

  ghost function Measure<E>(s: State<E>, lengths: seq<nat>): int {
    2 * (|lengths| - s.next) + 2 * Unstarted(s.history, lengths, |lengths|) + Phases(s.workers)
  }

  lemma {:induction false} PhasesUpdate(workers: seq<Worker>, w: nat, x: Worker)
    requires w < |workers|
    ensures Phases(workers[w := x]) == Phases(workers) - Phase(workers[w]) + Phase(x)
  {
    var n := |workers| - 1;
    if w == n {
      assert workers[w := x][..n] == workers[..n];
    } else {
      PhasesUpdate(workers[..n], w, x);
      assert workers[w := x][..n] == workers[..n][w := x];
    }
  }

  lemma StartsSnoc<E>(h: seq<Event<E>>, e: Event<E>, lane: nat)
    ensures |Starts(h + [e], lane)| == |Starts(h, lane)| + if e.Started? && e.lane == lane then 1 else 0
  {
    assert (h + [e])[..|h|] == h;
  }

  lemma {:induction false} UnstartedSnoc<E>(h: seq<Event<E>>, e: Event<E>, lengths: seq<nat>, n: nat)
    requires n <= |lengths|
    ensures Unstarted(h + [e], lengths, n) == Unstarted(h, lengths, n) - if e.Started? && e.lane < n then 1 else 0
  {
    if n > 0 {
      UnstartedSnoc(h, e, lengths, n - 1);
      StartsSnoc(h, e, n - 1);
    }
  }

  lemma {:induction false} UnstartedNonNegative<E>(s: State<E>, lengths: seq<nat>, n: nat)
    requires Inv(s, lengths) && n <= |lengths|
    ensures Unstarted(s.history, lengths, n) >= 0
  {
    if n > 0 {
      UnstartedNonNegative(s, lengths, n - 1);
      LaneInOrder(s, lengths, n - 1);
    }
  }

  /** Every step brings the run closer to its end, whatever the scheduler and the work do. */
  lemma StepProgresses<E>(s: State<E>, lengths: seq<nat>, w: nat, outcome: Option<E>)
    requires Inv(s, lengths) && CanStep(s, w)
    ensures WorkerHolds(s, lengths, w)
    ensures 0 <= Measure(Step(s, lengths, w, outcome), lengths) < Measure(s, lengths)
  {
    StepKeeps(s, lengths, w, outcome);
    var t := Step(s, lengths, w, outcome);
    PhasesUpdate(s.workers, w, t.workers[w]);
    assert t.workers == s.workers[w := t.workers[w]];
    UnstartedNonNegative(t, lengths, |lengths|);
    if t.history != s.history {
      UnstartedSnoc(s.history, t.history[|s.history|], lengths, |lengths|);
      assert t.history == s.history + [t.history[|s.history|]];
    }
  }

  lemma {:induction false} InitialMeasure<E>(workers: nat, lengths: seq<nat>, n: nat)
    requires n <= |lengths|
    ensures Unstarted<E>([], lengths, n) == Total(lengths[..n])
    ensures Phases(Initial<E>(workers).workers) == workers
    decreases n, workers
  {
    if n > 0 {
      InitialMeasure<E>(workers, lengths, n - 1);
      assert lengths[..n][..n - 1] == lengths[..n - 1];
    } else if workers > 0 {
      InitialMeasure<E>(workers - 1, lengths, n);
      assert Initial<E>(workers).workers[..workers - 1] == Initial<E>(workers - 1).workers;
    }
  }

  lemma {:induction false} RunMeasure<E>(workers: nat, lengths: seq<nat>, schedule: seq<Turn<E>>)
    requires Run(workers, lengths, schedule).Some?
    ensures 0 <= Measure(Run(workers, lengths, schedule).value, lengths)
    ensures |schedule| + Measure(Run(workers, lengths, schedule).value, lengths)
            <= 2 * |lengths| + 2 * Total(lengths) + workers
  {
    if |schedule| == 0 {
      InitialMeasure<E>(workers, lengths, |lengths|);
      assert lengths[..|lengths|] == lengths;
      UnstartedNonNegative(Run(workers, lengths, schedule).value, lengths, |lengths|);
    } else {
      var front, turn := schedule[..|schedule| - 1], schedule[|schedule| - 1];
      RunMeasure(workers, lengths, front);
      StepProgresses(Run(workers, lengths, front).value, lengths, turn.worker, turn.outcome);
    }
  }

  /** Every run ends within a bound fixed by the input, and until all workers have returned some
      worker can step. */
  lemma RunsTerminate<E>(workers: nat, lengths: seq<nat>, schedule: seq<Turn<E>>)
    requires Run(workers, lengths, schedule).Some?
    ensures |schedule| <= 2 * |lengths| + 2 * Total(lengths) + workers
    ensures AllDone(Run(workers, lengths, schedule).value)
            <==> forall w, outcome :: Run(workers, lengths, schedule + [Turn(w, outcome)]).None?
  {
    RunMeasure(workers, lengths, schedule);
    var s := Run(workers, lengths, schedule).value;
    forall w: nat, outcome: Option<E>
      ensures Run(workers, lengths, schedule + [Turn(w, outcome)]).Some? <==> CanStep(s, w)
    {
      assert (schedule + [Turn(w, outcome)])[..|schedule|] == schedule;
    }
    if !AllDone(s) {
      var w: nat :| w < |s.workers| && s.workers[w] != Done;
      assert CanStep(s, w);
      assert Run(workers, lengths, schedule + [Turn(w, None)]).Some?;
    }
  }

  // ---------------------------------------------------------------- the items themselves

  /** The items on which work was started, each as often as it was. */
  ghost function Worked<T, E>(lanes: seq<seq<T>>, h: seq<Event<E>>): multiset<T> {
    if |h| == 0 then multiset{}
    else
      var front, e := Worked(lanes, h[..|h| - 1]), h[|h| - 1];
      if e.Started? && e.lane < |lanes| && e.pos < |lanes[e.lane]| then front + multiset{lanes[e.lane][e.pos]}
      else front
  }

  function Begun<T, E>(lanes: seq<seq<T>>, h: seq<Event<E>>): (r: seq<seq<T>>)
    ensures |r| == |lanes|
  {
    seq(|lanes|, l requires 0 <= l < |lanes| =>
      if |Starts(h, l)| <= |lanes[l]| then lanes[l][..|Starts(h, l)|] else lanes[l])
  }

  ghost predicate StartsInOrder<T, E>(lanes: seq<seq<T>>, h: seq<Event<E>>, lane: nat) {
    lane < |lanes| && |Starts(h, lane)| <= |lanes[lane]| && Starts(h, lane) == Upto(|Starts(h, lane)|)
  }

  lemma {:induction false} WorkedIsBegun<T, E>(lanes: seq<seq<T>>, h: seq<Event<E>>)
    requires forall lane :: 0 <= lane < |lanes| ==> StartsInOrder(lanes, h, lane)
    ensures Worked(lanes, h) == Bag(Begun(lanes, h))
  {
    if |h| == 0 {
      NothingBegun<T, E>(lanes, |lanes|);
      assert Begun(lanes, h)[..|lanes|] == Begun(lanes, h);
    } else {
      var front, e := h[..|h| - 1], h[|h| - 1];
      assert h == front + [e];
      forall lane | 0 <= lane < |lanes| ensures StartsInOrder(lanes, front, lane) {
        assert StartsInOrder(lanes, h, lane);
        StartsSnoc(front, e, lane);
        assert Starts(front, lane) == Starts(h, lane)[..|Starts(front, lane)|];
      }
      WorkedIsBegun(lanes, front);
      OneMoreBegun(lanes, front, e);
    }
  }

  lemma {:induction false} NothingBegun<T, E>(lanes: seq<seq<T>>, n: nat)
    requires n <= |lanes|
    ensures Bag(Begun<T, E>(lanes, [])[..n]) == multiset{}
  {
    if n > 0 {
      NothingBegun<T, E>(lanes, n - 1);
      assert Begun<T, E>(lanes, [])[..n][..n - 1] == Begun<T, E>(lanes, [])[..n - 1];
    }
  }

  lemma OneMoreBegun<T, E>(lanes: seq<seq<T>>, h: seq<Event<E>>, e: Event<E>)
    requires forall lane :: 0 <= lane < |lanes| ==> StartsInOrder(lanes, h, lane) && StartsInOrder(lanes, h + [e], lane)
    ensures Bag(Begun(lanes, h + [e])) == Bag(Begun(lanes, h))
            + if e.Started? && e.lane < |lanes| && e.pos < |lanes[e.lane]| then multiset{lanes[e.lane][e.pos]}
              else multiset{}
  {
    var before, after := Begun(lanes, h), Begun(lanes, h + [e]);
    forall lane: nat
      ensures |Starts(h + [e], lane)| == |Starts(h, lane)| + if e.Started? && e.lane == lane then 1 else 0
    {
      StartsSnoc(h, e, lane);
    }
    if e.Started? && e.lane < |lanes| {
      var lane, c := e.lane, |Starts(h, e.lane)|;
      assert StartsInOrder(lanes, h + [e], lane);
      assert (h + [e])[..|h|] == h;
      assert Starts(h + [e], lane)[c] == e.pos;
      assert lanes[lane][..c + 1] == lanes[lane][..c] + [lanes[lane][c]];
      assert after == before[lane := before[lane] + [lanes[lane][e.pos]]];
      BagUpdate(before, lane, lanes[lane][e.pos]);
    } else {
      assert after == before;
    }
  }

  lemma {:induction false} BagOfPrefixes<T>(part: seq<seq<T>>, lanes: seq<seq<T>>)
    requires |part| == |lanes| && forall l :: 0 <= l < |lanes| ==> part[l] <= lanes[l]
    ensures Bag(part) <= Bag(lanes)
  {
    if |lanes| > 0 {
      var n := |lanes| - 1;
      BagOfPrefixes(part[..n], lanes[..n]);
      assert lanes[n] == part[n] + lanes[n][|part[n]|..];
    }
  }

  function Lengths<T>(lanes: seq<seq<T>>): (r: seq<nat>)
    ensures |r| == |lanes| && forall l :: 0 <= l < |r| ==> r[l] == |lanes[l]|
  {
    seq(|lanes|, l requires 0 <= l < |lanes| => |lanes[l]|)
  }

  /** No item is worked more often than it occurs in the input; without an error each is worked
      exactly as often once all workers have returned. */
  lemma WorkedItems<T, E>(items: seq<T>, key: T -> string, s: State<E>)
    requires Inv(s, Lengths(LanesOf(items, key)))
    ensures Worked(LanesOf(items, key), s.history) <= multiset(items)
    ensures AllDone(s) && |s.workers| > 0 && FirstError(s.history).None?
            ==> Worked(LanesOf(items, key), s.history) == multiset(items)
  {
    var lanes := LanesOf(items, key);
    var begun := Begun(lanes, s.history);
    LanesPartition(items, key);
    forall lane | 0 <= lane < |lanes| ensures StartsInOrder(lanes, s.history, lane) {
      LaneInOrder(s, Lengths(lanes), lane);
    }
    WorkedIsBegun(lanes, s.history);
    BagOfPrefixes(begun, lanes);
    if AllDone(s) && |s.workers| > 0 && FirstError(s.history).None? {
      AllBegun(lanes, s);
    }
  }

  lemma AllBegun<T, E>(lanes: seq<seq<T>>, s: State<E>)
    requires Inv(s, Lengths(lanes)) && AllDone(s) && |s.workers| > 0 && FirstError(s.history).None?
    requires forall lane :: 0 <= lane < |lanes| ==> StartsInOrder(lanes, s.history, lane)
    ensures Begun(lanes, s.history) == lanes
  {
    assert WorkerHolds(s, Lengths(lanes), 0);
    forall lane | 0 <= lane < |lanes| ensures Begun(lanes, s.history)[lane] == lanes[lane] {
      LaneInOrder(s, Lengths(lanes), lane);
    }
  }

  // ---------------------------------------------------------------- what an observer sees

  /** Items started and not yet ended. */
  function Open<E>(h: seq<Event<E>>): int {
    if |h| == 0 then 0 else Open(h[..|h| - 1]) + if h[|h| - 1].Started? then 1 else -1
  }

  lemma OpenSnoc<E>(h: seq<Event<E>>, e: Event<E>)
    ensures Open(h + [e]) == Open(h) + if e.Started? then 1 else -1
  {
    assert (h + [e])[..|h|] == h;
  }

  lemma {:induction false} FlyingUpdate(workers: seq<Worker>, w: nat, x: Worker)
    requires w < |workers|
    ensures Flying(workers[w := x])
         == Flying(workers) - (if workers[w].InFlight? then 1 else 0) + if x.InFlight? then 1 else 0
  {
    var n := |workers| - 1;
    if w == n {
      assert workers[w := x][..n] == workers[..n];
    } else {
      FlyingUpdate(workers[..n], w, x);
      assert workers[w := x][..n] == workers[..n][w := x];
    }
  }

  lemma {:induction false} NoneFlying(n: nat)
    ensures Flying(seq(n, _ => Idle)) == 0
  {
    if n > 0 {
      NoneFlying(n - 1);
      assert seq(n, _ => Idle)[..n - 1] == seq(n - 1, _ => Idle);
    }
  }

  /** What a step of worker `w` adds to the history, if anything. */
  function Written<E>(s: State<E>, lengths: seq<nat>, w: nat, outcome: Option<E>): Option<Event<E>>
    requires w < |s.workers| && s.workers[w] != Done && (s.workers[w].Between? ==> s.workers[w].lane < |lengths|)
  {
    match s.workers[w]
    case Idle => None
    case Between(lane, pos) =>
      if pos >= lengths[lane] || s.failure.Some? then None else Some(Started(lane, pos))
    case InFlight(lane, pos) =>
      match outcome
      case None => Some(Succeeded(lane, pos))
      case Some(e) => Some(Failed(lane, pos, e))
  }

  lemma StepWrites<E>(s: State<E>, lengths: seq<nat>, w: nat, outcome: Option<E>)
    requires w < |s.workers| && s.workers[w] != Done && (s.workers[w].Between? ==> s.workers[w].lane < |lengths|)
    ensures var t, event := Step(s, lengths, w, outcome), Written(s, lengths, w, outcome);
            && |t.workers| == |s.workers| && t.workers == s.workers[w := t.workers[w]]
            && t.history == (if event.Some? then s.history + [event.value] else s.history)
            && (t.workers[w].InFlight? <==> event.Some? && event.value.Started?)
            && (s.workers[w].InFlight? <==> event.Some? && !event.value.Started?)
  {}

  /** One event more, and the worker in flight or not accordingly: as many open items as workers in
      flight. */
  lemma EventOpens<E>(h: seq<Event<E>>, workers: seq<Worker>, w: nat, x: Worker, event: Option<Event<E>>)
    requires w < |workers| && Open(h) == Flying(workers)
    requires x.InFlight? <==> event.Some? && event.value.Started?
    requires workers[w].InFlight? <==> event.Some? && !event.value.Started?
    ensures Open(if event.Some? then h + [event.value] else h) == Flying(workers[w := x])
  {
    FlyingUpdate(workers, w, x);
    if event.Some? {
      OpenSnoc(h, event.value);
    }
  }

  lemma StepOpens<E>(s: State<E>, lengths: seq<nat>, w: nat, outcome: Option<E>)
    requires w < |s.workers| && s.workers[w] != Done && (s.workers[w].Between? ==> s.workers[w].lane < |lengths|)
    requires Open(s.history) == Flying(s.workers)
    ensures var t, event := Step(s, lengths, w, outcome), Written(s, lengths, w, outcome);
            && Open(t.history) == Flying(t.workers) && |t.workers| == |s.workers|
            && t.history == (if event.Some? then s.history + [event.value] else s.history)
  {
    StepWrites(s, lengths, w, outcome);
    EventOpens(s.history, s.workers, w, Step(s, lengths, w, outcome).workers[w], Written(s, lengths, w, outcome));
  }

  /** At most `n` items are in flight, and in every lane a prefix has started, each item after the
      one before it ended. */
  ghost predicate Orderly<E>(h: seq<Event<E>>, lengths: seq<nat>, n: nat) {
    && 0 <= Open(h) <= n
    && forall lane: nat :: lane < |lengths| ==>
         IsPrefix(Starts(h, lane), lengths[lane]) && |Ends(h, lane)| <= |Starts(h, lane)| <= |Ends(h, lane)| + 1
  }

  ghost predicate AlwaysOrderly<E>(h: seq<Event<E>>, lengths: seq<nat>, n: nat) {
    forall k :: 0 <= k <= |h| ==> Orderly(h[..k], lengths, n)
  }

  lemma OrderlyNow<E>(s: State<E>, lengths: seq<nat>)
    requires Inv(s, lengths) && Open(s.history) == Flying(s.workers)
    ensures Orderly(s.history, lengths, |s.workers|)
  {
    FlyingBelow(s.workers);
    forall lane: nat | lane < |lengths|
      ensures IsPrefix(Starts(s.history, lane), lengths[lane])
           && |Ends(s.history, lane)| <= |Starts(s.history, lane)| <= |Ends(s.history, lane)| + 1
    {
      LaneInOrder(s, lengths, lane);
    }
  }

  lemma OrderlySnoc<E>(h: seq<Event<E>>, longer: seq<Event<E>>, lengths: seq<nat>, n: nat)
    requires AlwaysOrderly(h, lengths, n) && Orderly(longer, lengths, n)
    requires longer == h || exists e :: longer == h + [e]
    ensures AlwaysOrderly(longer, lengths, n)
  {
    forall k | 0 <= k <= |longer| ensures Orderly(longer[..k], lengths, n) {
      if k == |longer| {
        assert longer[..k] == longer;
      } else {
        assert longer[..k] == h[..k];
      }
    }
  }

  /** Never more workers than the concurrency asks for, or one, and never fewer than one. */
  lemma WorkersWithin(concurrency: real, lanes: nat)
    ensures 1 <= Workers(concurrency, lanes) <= Max(1, concurrency.Floor)
    ensures lanes > 0 ==> Workers(concurrency, lanes) <= lanes
  {}

  lemma AtMostConcurrency<E>(concurrency: real, lengths: seq<nat>, schedule: seq<Turn<E>>)
    requires Run(Workers(concurrency, |lengths|), lengths, schedule).Some?
    ensures Flying(Run(Workers(concurrency, |lengths|), lengths, schedule).value.workers) <= Max(1, concurrency.Floor)
  {
    FlyingBelow(Run(Workers(concurrency, |lengths|), lengths, schedule).value.workers);
    WorkersWithin(concurrency, |lengths|);
  }

  /** Every worker's first two turns: it takes a lane and starts its first item. */
  function Opening<E>(n: nat): seq<Turn<E>> {
    if n == 0 then [] else Opening<E>(n - 1) + [Turn(n - 1, None)] + [Turn(n - 1, None)]
  }

  /** The first `n` workers each have the first item of a lane of their own in flight, the rest wait. */
  ghost predicate Opened<E>(s: State<E>, n: nat) {
    && n <= |s.workers| && s.next == n && s.failure.None?
    && forall w :: 0 <= w < |s.workers| ==> s.workers[w] == if w < n then InFlight(w, 0) else Idle
  }

  lemma RunSnoc<E>(workers: nat, lengths: seq<nat>, schedule: seq<Turn<E>>, turn: Turn<E>)
    requires Run(workers, lengths, schedule).Some?
    requires CanStep(Run(workers, lengths, schedule).value, turn.worker)
    ensures Run(workers, lengths, schedule + [turn]).Some?
    ensures var s := Run(workers, lengths, schedule).value;
            turn.worker < |s.workers| && s.workers[turn.worker] != Done
            && (s.workers[turn.worker].Between? ==> s.workers[turn.worker].lane < |lengths|)
            && Run(workers, lengths, schedule + [turn]).value == Step(s, lengths, turn.worker, turn.outcome)
  {
    assert (schedule + [turn])[..|schedule|] == schedule;
    assert WorkerHolds(Run(workers, lengths, schedule).value, lengths, turn.worker);
  }

  /** The two turns of worker `n`. */
  lemma OpensOne<E>(s: State<E>, lengths: seq<nat>, n: nat)
    requires Opened(s, n) && n < |s.workers| && n < |lengths| && lengths[n] > 0
    ensures var t := Step(s, lengths, n, None); t.workers[n] == Between(n, 0) && |t.workers| == |s.workers|
    ensures Opened(Step(Step(s, lengths, n, None), lengths, n, None), n + 1)
  {
    var t := Step(s, lengths, n, None);
    assert t.workers == s.workers[n := Between(n, 0)] && t.next == n + 1 && t.failure.None?;
    assert Step(t, lengths, n, None).workers == s.workers[n := InFlight(n, 0)];
  }

  lemma {:induction false} OpeningRuns<E>(workers: nat, lengths: seq<nat>, n: nat)
    requires n <= workers && n <= |lengths| && forall i :: 0 <= i < |lengths| ==> lengths[i] > 0
    ensures Run(workers, lengths, Opening<E>(n)).Some? && Opened(Run(workers, lengths, Opening<E>(n)).value, n)
  {
    if n > 0 {
      OpeningRuns<E>(workers, lengths, n - 1);
      var turn: Turn<E> := Turn(n - 1, None);
      var s := Run(workers, lengths, Opening<E>(n - 1)).value;
      OpensOne(s, lengths, n - 1);
      RunSnoc(workers, lengths, Opening<E>(n - 1), turn);
      RunSnoc(workers, lengths, Opening<E>(n - 1) + [turn], turn);
    }
  }

  lemma {:induction false} AllFlying(workers: seq<Worker>)
    requires forall w :: 0 <= w < |workers| ==> workers[w].InFlight?
    ensures Flying(workers) == |workers|
  {
    if |workers| > 0 {
      AllFlying(workers[..|workers| - 1]);
    }
  }

  /** And the concurrency is used: with a lane at all, some schedule has an item of as many lanes in
      flight at once as the concurrency allows, or of every lane. */
  lemma ConcurrencyIsReached<E>(concurrency: real, lengths: seq<nat>) returns (schedule: seq<Turn<E>>)
    requires |lengths| > 0 && forall i :: 0 <= i < |lengths| ==> lengths[i] > 0
    ensures var run := Run(Workers(concurrency, |lengths|), lengths, schedule);
            && run.Some?
            && (concurrency.Floor < 1 ==> Flying(run.value.workers) == 1)
            && (1 <= concurrency.Floor <= |lengths| ==> Flying(run.value.workers) == concurrency.Floor)
            && (|lengths| < concurrency.Floor ==> Flying(run.value.workers) == |lengths|)
  {
    var n := Workers(concurrency, |lengths|);
    WorkersWithin(concurrency, |lengths|);
    schedule := Opening<E>(n);
    OpeningRuns<E>(n, lengths, n);
    AllFlying(Run(n, lengths, schedule).value.workers);
  }

  /** An item in flight is one of its lane. */
  lemma FlyingItem<T, E>(s: State<E>, lanes: seq<seq<T>>, w: nat)
    requires Inv(s, Lengths(lanes)) && w < |s.workers| && s.workers[w].InFlight?
    ensures s.workers[w].lane < |lanes| && s.workers[w].pos < |lanes[s.workers[w].lane]|
  {
    assert WorkerHolds(s, Lengths(lanes), w);
  }

  /** Whatever becomes of the item: one step, at most one event, and nearer the end. */
  lemma Resumed<E>(s: State<E>, lengths: seq<nat>, w: nat, outcome: Option<E>)
    requires Inv(s, lengths) && CanStep(s, w) && Open(s.history) == Flying(s.workers)
    ensures WorkerHolds(s, lengths, w)
    ensures var t := Step(s, lengths, w, outcome);
            && Inv(t, lengths) && |t.workers| == |s.workers| && Open(t.history) == Flying(t.workers)
            && (t.history == s.history || exists e :: t.history == s.history + [e])
            && 0 <= Measure(t, lengths) < Measure(s, lengths)
  {
    StepKeeps(s, lengths, w, outcome);
    StepProgresses(s, lengths, w, outcome);
    StepOpens(s, lengths, w, outcome);
  }

  // ---------------------------------------------------------------- what became of each item

  /** The event is the end of an item of the lanes, and it ended as the work on it does. */
  predicate EndsAsWorked<T, E(==)>(lanes: seq<seq<T>>, e: Event<E>, work: T -> Option<E>) {
    && e.lane < |lanes| && e.pos < |lanes[e.lane]|
    && work(lanes[e.lane][e.pos]) == if e.Failed? then Some(e.error) else None
  }

  /** Every item of the history that ended did so as the work on it does. */
  ghost predicate Truthful<T, E>(lanes: seq<seq<T>>, h: seq<Event<E>>, work: T -> Option<E>) {
    forall i :: 0 <= i < |h| && !h[i].Started? ==> EndsAsWorked(lanes, h[i], work)
  }

  /** A step whose outcome is the work's keeps the history truthful. */
  lemma StepTruthful<T, E>(s: State<E>, lanes: seq<seq<T>>, w: nat, outcome: Option<E>, work: T -> Option<E>)
    requires Inv(s, Lengths(lanes)) && CanStep(s, w) && Truthful(lanes, s.history, work)
    requires s.workers[w].Between? ==> s.workers[w].lane < |lanes|
    requires s.workers[w].InFlight? ==>
               && s.workers[w].lane < |lanes| && s.workers[w].pos < |lanes[s.workers[w].lane]|
               && outcome == work(lanes[s.workers[w].lane][s.workers[w].pos])
    ensures Truthful(lanes, Step(s, Lengths(lanes), w, outcome).history, work)
  {}

  lemma {:induction false} EndedEvent<E>(h: seq<Event<E>>, lane: nat, pos: nat)
    requires pos in Ends(h, lane)
    ensures exists i :: 0 <= i < |h| && !h[i].Started? && h[i].lane == lane && h[i].pos == pos
  {
    if |h| > 0 {
      var front, e := h[..|h| - 1], h[|h| - 1];
      if pos in Ends(front, lane) {
        EndedEvent(front, lane, pos);
        var i :| 0 <= i < |front| && !front[i].Started? && front[i].lane == lane && front[i].pos == pos;
        assert h[i] == front[i];
      } else {
        assert h[|h| - 1] == e;
      }
    }
  }

  lemma {:induction false} StartedInStarts<E>(h: seq<Event<E>>, i: nat)
    requires i < |h| && h[i].Started?
    ensures h[i].pos in Starts(h, h[i].lane)
  {
    if i < |h| - 1 {
      StartedInStarts(h[..|h| - 1], i);
    }
  }

  /** An item worked on was started somewhere. */
  lemma {:induction false} WorkedSomewhere<T, E>(lanes: seq<seq<T>>, h: seq<Event<E>>, x: T)
    requires x in Worked(lanes, h)
    ensures exists i :: 0 <= i < |h| && h[i].Started? && h[i].lane < |lanes| && h[i].pos < |lanes[h[i].lane]|
                        && lanes[h[i].lane][h[i].pos] == x
  {
    if |h| > 0 {
      var front, e := h[..|h| - 1], h[|h| - 1];
      if x in Worked(lanes, front) {
        WorkedSomewhere(lanes, front, x);
        var i :| 0 <= i < |front| && front[i].Started? && front[i].lane < |lanes|
          && front[i].pos < |lanes[front[i].lane]| && lanes[front[i].lane][front[i].pos] == x;
        assert h[i] == front[i];
      } else {
        assert h[|h| - 1] == e;
      }
    }
  }

  /** The first error is that of some failure, and without a first error nothing failed. */
  lemma {:induction false} FirstErrorFailed<E>(h: seq<Event<E>>)
    ensures FirstError(h).Some? ==> exists i :: 0 <= i < |h| && h[i].Failed? && FirstError(h) == Some(h[i].error)
    ensures FirstError(h).None? ==> forall i :: 0 <= i < |h| ==> !h[i].Failed?
  {
    if |h| > 0 {
      var front := h[..|h| - 1];
      FirstErrorFailed(front);
      if FirstError(front).Some? {
        var i :| 0 <= i < |front| && front[i].Failed? && FirstError(front) == Some(front[i].error);
        assert h[i] == front[i];
      } else {
        forall i | 0 <= i < |front| ensures !h[i].Failed? {
          assert h[i] == front[i];
        }
      }
    }
  }

  lemma {:induction false} InBag<T>(lanes: seq<seq<T>>, l: nat, p: nat)
    requires l < |lanes| && p < |lanes[l]|
    ensures lanes[l][p] in Bag(lanes)
  {
    if l < |lanes| - 1 {
      InBag(lanes[..|lanes| - 1], l, p);
    }
  }

  /** The error of a truthful history is the one the work gives for some item. */
  lemma ErrorOfItem<T, E>(items: seq<T>, key: T -> string, h: seq<Event<E>>, work: T -> Option<E>)
    requires Truthful(LanesOf(items, key), h, work) && FirstError(h).Some?
    ensures exists x :: x in items && work(x) == FirstError(h)
  {
    var lanes := LanesOf(items, key);
    FirstErrorFailed(h);
    var i :| 0 <= i < |h| && h[i].Failed? && FirstError(h) == Some(h[i].error);
    assert EndsAsWorked(lanes, h[i], work);
    LanesPartition(items, key);
    InBag(lanes, h[i].lane, h[i].pos);
    assert lanes[h[i].lane][h[i].pos] in multiset(items);
  }

  /** Without an error the work on every item succeeded. */
  lemma AllSucceeded<T, E>(items: seq<T>, key: T -> string, h: seq<Event<E>>, work: T -> Option<E>, x: T)
    requires var lanes := LanesOf(items, key);
             && Truthful(lanes, h, work) && FirstError(h).None? && Worked(lanes, h) == multiset(items)
             && forall lane: nat :: lane < |lanes| ==> Ends(h, lane) == Starts(h, lane)
    requires x in items
    ensures work(x).None?
  {
    var lanes := LanesOf(items, key);
    assert x in Worked(lanes, h);
    WorkedSomewhere(lanes, h, x);
    var i :| 0 <= i < |h| && h[i].Started? && h[i].lane < |lanes| && h[i].pos < |lanes[h[i].lane]|
      && lanes[h[i].lane][h[i].pos] == x;
    StartedInStarts(h, i);
    EndedEvent(h, h[i].lane, h[i].pos);
    var j :| 0 <= j < |h| && !h[j].Started? && h[j].lane == h[i].lane && h[j].pos == h[i].pos;
    assert EndsAsWorked(lanes, h[j], work);
    FirstErrorFailed(h);
  }

  /** The scheduler lets worker `w` go on. */
  method Resume<T, E>(s: State<E>, lanes: seq<seq<T>>, lengths: seq<nat>, w: nat, work: T -> Option<E>)
    returns (t: State<E>)
    requires Inv(s, lengths) && CanStep(s, w) && lengths == Lengths(lanes) && Open(s.history) == Flying(s.workers)
    requires Truthful(lanes, s.history, work)
    ensures Inv(t, lengths) && |t.workers| == |s.workers| && Open(t.history) == Flying(t.workers)
    ensures t.history == s.history || exists e :: t.history == s.history + [e]
    ensures 0 <= Measure(t, lengths) < Measure(s, lengths)
    ensures Truthful(lanes, t.history, work)
  {
    var outcome := None;
    if s.workers[w].InFlight? {
      FlyingItem(s, lanes, w);
      outcome := work(lanes[s.workers[w].lane][s.workers[w].pos]);
    }
    Resumed(s, lengths, w, outcome);
    StepTruthful(s, lanes, w, outcome, work);
    t := Step(s, lengths, w, outcome);
  }

  /** Nothing is left in flight when all workers have returned. */
  lemma NothingLeft<E>(s: State<E>, lengths: seq<nat>)
    requires Inv(s, lengths) && AllDone(s)
    ensures forall lane: nat :: lane < |lengths| ==> Ends(s.history, lane) == Starts(s.history, lane)
  {
    forall lane: nat | lane < |lengths| ensures Ends(s.history, lane) == Starts(s.history, lane) {
      LaneInOrder(s, lengths, lane);
    }
  }

  /** `runInLanes` under a scheduler that picks any worker able to go on: it succeeds exactly when the
      work on every item does, and fails with the error of an item. */
  method RunInLanes<T, E>(items: seq<T>, key: T -> string, concurrency: real, work: T -> Option<E>)
    returns (error: Option<E>, history: seq<Event<E>>)
    ensures error.None? <==> forall x :: x in items ==> work(x).None?
    ensures error.Some? ==> exists x :: x in items && work(x) == error
    ensures error == FirstError(history) && StopsAtError(history)
    ensures Truthful(LanesOf(items, key), history, work)
    ensures forall lane: nat :: lane < |LanesOf(items, key)| ==> Ends(history, lane) == Starts(history, lane)
    ensures AlwaysOrderly(history, Lengths(LanesOf(items, key)), Max(1, concurrency.Floor))
    ensures Worked(LanesOf(items, key), history) <= multiset(items)
    ensures error.None? ==> Worked(LanesOf(items, key), history) == multiset(items)
  {
    var lanes := GroupLanes(items, key);
    var lengths := Lengths(lanes);
    var s: State<E> := Initial(Workers(concurrency, |lanes|));
    ghost var most := Max(1, concurrency.Floor);
    WorkersWithin(concurrency, |lanes|);
    InitialHolds<E>(|s.workers|, lengths);
    NoneFlying(|s.workers|);
    OrderlyNow(s, lengths);
    while exists w :: 0 <= w < |s.workers| && s.workers[w] != Done
      invariant Inv(s, lengths) && 0 < |s.workers| <= most
      invariant Open(s.history) == Flying(s.workers) && AlwaysOrderly(s.history, lengths, most)
      invariant Truthful(lanes, s.history, work)
      decreases Measure(s, lengths)
    {
      var w :| 0 <= w < |s.workers| && s.workers[w] != Done;
      ghost var before := s.history;
      s := Resume(s, lanes, lengths, w, work);
      OrderlyNow(s, lengths);
      OrderlySnoc(before, s.history, lengths, most);
    }
    WorkedItems(items, key, s);
    NothingLeft(s, lengths);
    error, history := s.failure, s.history;
    if error.Some? {
      ErrorOfItem(items, key, history, work);
    } else {
      forall x | x in items ensures work(x).None? {
        AllSucceeded(items, key, history, work, x);
      }
    }
  }
}
