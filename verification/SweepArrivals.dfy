/**
 * A round of the sweep while traces keep arriving between its chunks: which traces the round
 * examines, and that none is examined twice.
 */
module SweepArrivals {
  import opened Wrappers
  import opened StatementModel
  import opened Keyset
  import opened PendingSweep

  /** A round in progress: the queue, where the last chunk stopped, and what was examined so far. */
  datatype Round = Round(queue: seq<PendingTrace>, cursor: Option<Cursor>, open: bool, trail: seq<PendingTrace>)

  datatype Event = Arrival(trace: PendingTrace) | Chunk(cap: int)

  /** A new pending trace takes its place in the index. */
  function Arrived(queue: seq<PendingTrace>, trace: PendingTrace): seq<PendingTrace> {
    if |queue| == 0 || Before(queue[|queue| - 1].key, trace.key) then queue + [trace]
    else Arrived(queue[..|queue| - 1], trace) + [queue[|queue| - 1]]
  }

  ghost predicate Enabled(round: Round, event: Event) {
    match event
    case Arrival(trace) => forall x :: x in round.queue ==> x.key != trace.key
    case Chunk(cap) => round.open && cap > 0
  }

  function Next(round: Round, event: Event, fate: PendingTrace -> Fate): Round {
    match event
    case Arrival(trace) => round.(queue := Arrived(round.queue, trace))
    case Chunk(cap) =>
      var walk := Visit(round.queue, HasModel, round.cursor);
      var page, resume := Take(walk, cap), ResumeAfter(walk, Some(cap), round.cursor);
      Round(Without(round.queue, page, fate), resume, resume.Some?, round.trail + page)
  }

  /** One cycle of an open round is a chunk of it. */
  method Cycle(store: PendingStore, state: SweepState, startedAt: int, endedAt: int, interval: int, cap: int,
               fate: PendingTrace -> Fate, ghost round: Round)
    returns (state': SweepState, ghost round': Round)
    requires store.Valid() && cap > 0
    requires state.cursor.Some? || startedAt - state.lastRoundEndedAt >= interval
    requires round == Round(store.queue, state.cursor, true, store.trail)
    modifies store
    ensures store.Valid()
    ensures round' == Next(round, Chunk(cap), fate)
    ensures round' == Round(store.queue, state'.cursor, state'.cursor.Some?, store.trail)
  {
    var report;
    state', report := RunSweepCycle(store, state, startedAt, endedAt, interval, cap, fate);
    round' := Next(round, Chunk(cap), fate);
  }

  // ---------------------------------------------------------------- what a round examines

  ghost predicate IsRound(rounds: seq<Round>, events: seq<Event>, fate: PendingTrace -> Fate) {
    && |rounds| == |events| + 1
    && InOrder(rounds[0].queue) && rounds[0] == Round(rounds[0].queue, None, true, [])
    && forall i :: 0 <= i < |events| ==>
         Enabled(rounds[i], events[i]) && rounds[i + 1] == Next(rounds[i], events[i], fate)
  }

  /** The trace arrives at event `i`, ahead of where the round then stands. */
  ghost predicate ArrivesAhead(rounds: seq<Round>, events: seq<Event>, i: nat, x: PendingTrace)
    requires |rounds| == |events| + 1 && i < |events|
  {
    events[i] == Arrival(x) && rounds[i].open && Past(rounds[i].cursor, x.key)
  }

  /** It is the round's to examine: it has a model, and was queued at the start or arrived ahead. */
  ghost predicate Due(rounds: seq<Round>, events: seq<Event>, j: nat, x: PendingTrace)
    requires |rounds| == |events| + 1 && j <= |events|
  {
    HasModel(x) && (x in rounds[0].queue || exists i: nat :: i < j && ArrivesAhead(rounds, events, i, x))
  }

  /** Still to come in this round. */
  ghost predicate StillAhead(round: Round, x: PendingTrace) {
    round.open && x in round.queue && HasModel(x) && Past(round.cursor, x.key)
  }

  ghost predicate Holds(round: Round) {
    && InOrder(round.queue) && InOrder(round.trail)
    && (round.open ==> forall x :: x in round.trail ==> !Past(round.cursor, x.key))
  }

  lemma {:induction false} ArrivedFacts(queue: seq<PendingTrace>, trace: PendingTrace)
    requires InOrder(queue) && forall x :: x in queue ==> x.key != trace.key
    ensures InOrder(Arrived(queue, trace))
    ensures forall x :: x in Arrived(queue, trace) <==> x in queue || x == trace
  {
    if |queue| > 0 {
      var front, last := queue[..|queue| - 1], queue[|queue| - 1];
      assert queue == front + [last];
      if Before(last.key, trace.key) {
        forall x | x in queue ensures Before(x.key, trace.key) {
          BeforeFacts(x.key, last.key, trace.key);
        }
        assert (queue + [trace])[..|queue|] == queue;
      } else {
        ArrivedFacts(front, trace);
        BeforeFacts(last.key, trace.key, trace.key);
        var longer := Arrived(front, trace);
        assert (longer + [last])[..|longer|] == longer;
      }
    }
  }

  lemma {:induction false} InOrderConcat(a: seq<PendingTrace>, b: seq<PendingTrace>)
    requires InOrder(a) && InOrder(b)
    requires forall x, y :: x in a && y in b ==> Before(x.key, y.key)
    ensures InOrder(a + b)
  {
    if |b| == 0 {
      assert a + b == a;
    } else {
      var front, last := b[..|b| - 1], b[|b| - 1];
      assert b == front + [last];
      InOrderConcat(a, front);
      assert (a + b)[..|a + b| - 1] == a + front;
    }
  }

  lemma {:induction false} PrefixInOrder(s: seq<PendingTrace>, n: nat)
    requires InOrder(s) && n <= |s|
    ensures InOrder(s[..n])
    ensures n > 0 ==> forall x :: x in s[..n] ==> !Before(s[n - 1].key, x.key)
  {
    if n < |s| {
      PrefixInOrder(s[..|s| - 1], n);
      assert s[..|s| - 1][..n] == s[..n];
    } else {
      assert s[..n] == s;
      if n > 0 {
        var front, last := s[..n - 1], s[n - 1];
        assert s == front + [last];
        forall x | x in s ensures !Before(last.key, x.key) {
          BeforeFacts(last.key, x.key, last.key);
        }
      }
    }
  }

  /** The walk a chunk starts on: exactly what is still ahead. */
  function WalkOf(round: Round): seq<PendingTrace> {
    Visit(round.queue, HasModel, round.cursor)
  }

  /** The part of it the chunk examines. */
  function PageOf(round: Round, cap: int): seq<PendingTrace> {
    Take(WalkOf(round), cap)
  }

  lemma WalkIsAhead(round: Round)
    requires InOrder(round.queue)
    ensures InOrder(WalkOf(round))
    ensures round.open ==> forall x :: x in WalkOf(round) <==> StillAhead(round, x)
  {
    VisitMembers(round.queue, HasModel, round.cursor);
  }

  lemma ChunkTrail(round: Round, cap: int)
    requires Holds(round) && round.open
    ensures InOrder(round.trail + PageOf(round, cap))
  {
    var walk, page := WalkOf(round), PageOf(round, cap);
    WalkIsAhead(round);
    PrefixInOrder(walk, |page|);
    forall x, y | x in round.trail && y in page ensures Before(x.key, y.key) {
      assert y in walk && StillAhead(round, y);
      BeforeFacts(x.key, round.cursor.value, y.key);
    }
    assert page == walk[..|page|];
    InOrderConcat(round.trail, page);
  }

  /** The cursor a chunk leaves is that of its last trace, with the rest of the walk ahead of it and
      everything examined behind it. */
  lemma ChunkGoesOn(round: Round, cap: int, fate: PendingTrace -> Fate)
    requires Holds(round) && Enabled(round, Chunk(cap)) && cap <= |WalkOf(round)|
    ensures var next := Next(round, Chunk(cap), fate);
            && PageOf(round, cap) == WalkOf(round)[..cap] && next.cursor == Some(WalkOf(round)[cap - 1].key)
            && InOrder(next.queue) && WalkOf(next) == WalkOf(round)[cap..]
            && forall x :: x in round.trail + PageOf(round, cap) ==> !Past(next.cursor, x.key)
  {
    var walk, page := WalkOf(round), PageOf(round, cap);
    assert page == walk[..cap];
    WalkIsAhead(round);
    PrefixInOrder(walk, cap);
    RemainingInOrder(round.queue, Gone(page, fate));
    WalkOn(round.queue, HasModel, round.cursor, fate, cap);
    assert StillAhead(round, walk[cap - 1]) by {
      assert walk[cap - 1] in walk;
    }
    TrailBehind(round, page);
  }

  lemma MembersSplit(s: seq<PendingTrace>, n: nat, x: PendingTrace)
    requires n <= |s|
    ensures x in s <==> x in s[..n] || x in s[n..]
  {
    assert s == s[..n] + s[n..];
  }

  /** A chunk examines the first traces ahead, in order, and leaves the rest ahead. */
  lemma ChunkExamines(round: Round, cap: int, fate: PendingTrace -> Fate)
    requires Holds(round) && Enabled(round, Chunk(cap))
    ensures Holds(Next(round, Chunk(cap), fate))
    ensures var next := Next(round, Chunk(cap), fate);
            forall x :: x in next.trail || StillAhead(next, x) <==> x in round.trail || StillAhead(round, x)
  {
    var walk, next := WalkOf(round), Next(round, Chunk(cap), fate);
    WalkIsAhead(round);
    ChunkTrail(round, cap);
    if cap <= |walk| {
      ChunkGoesOn(round, cap, fate);
      WalkIsAhead(next);
      forall x ensures x in next.trail || StillAhead(next, x) <==> x in round.trail || StillAhead(round, x) {
        MembersSplit(walk, cap, x);
      }
    } else {
      RemainingInOrder(round.queue, Gone(walk, fate));
    }
  }

  lemma TrailBehind(round: Round, page: seq<PendingTrace>)
    requires |page| > 0 && round.open && Past(round.cursor, page[|page| - 1].key)
    requires forall x :: x in round.trail ==> !Past(round.cursor, x.key)
    ensures forall x :: x in round.trail ==> !Past(Some(page[|page| - 1].key), x.key)
  {
    var last := page[|page| - 1].key;
    forall x | x in round.trail ensures !Before(last, x.key) {
      BeforeFacts(round.cursor.value, last, x.key);
    }
  }

  lemma ArrivalExamines(round: Round, trace: PendingTrace, fate: PendingTrace -> Fate)
    requires Holds(round) && Enabled(round, Arrival(trace))
    ensures var next := Next(round, Arrival(trace), fate);
            && Holds(next) && next.trail == round.trail
            && forall x :: StillAhead(next, x) <==>
                 StillAhead(round, x) || (x == trace && HasModel(x) && round.open && Past(round.cursor, x.key))
  {
    ArrivedFacts(round.queue, trace);
  }

  lemma DueNext(rounds: seq<Round>, events: seq<Event>, j: nat, x: PendingTrace)
    requires |rounds| == |events| + 1 && j < |events|
    ensures Due(rounds, events, j + 1, x)
            <==> Due(rounds, events, j, x) || (HasModel(x) && ArrivesAhead(rounds, events, j, x))
  {}

  lemma {:induction false} RoundHolds(rounds: seq<Round>, events: seq<Event>, fate: PendingTrace -> Fate, j: nat)
    requires IsRound(rounds, events, fate) && j <= |events|
    ensures Holds(rounds[j])
    ensures forall x :: x in rounds[j].trail || StillAhead(rounds[j], x) <==> Due(rounds, events, j, x)
  {
    if j > 0 {
      var round := rounds[j - 1];
      RoundHolds(rounds, events, fate, j - 1);
      assert Enabled(round, events[j - 1]) && rounds[j - 1 + 1] == Next(round, events[j - 1], fate);
      forall x { DueNext(rounds, events, j - 1, x); }
      match events[j - 1]
      case Arrival(trace) => ArrivalExamines(round, trace, fate);
      case Chunk(cap) => ChunkExamines(round, cap, fate);
    }
  }

  /** However arrivals and chunks interleave: what a round examines comes strictly in order, so no
      trace twice; it examines only what is due; and once it has ended it has examined exactly the
      model-bearing traces queued at its start and those that arrived ahead of where it stood. */
  lemma RoundExamines(rounds: seq<Round>, events: seq<Event>, fate: PendingTrace -> Fate, j: nat)
    requires IsRound(rounds, events, fate) && j <= |events|
    ensures InOrder(rounds[j].trail)
    ensures forall x :: x in rounds[j].trail ==> Due(rounds, events, j, x)
    ensures !rounds[j].open ==> forall x :: x in rounds[j].trail <==> Due(rounds, events, j, x)
  {
    RoundHolds(rounds, events, fate, j);
  }
}
