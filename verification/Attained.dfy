/** The bounds on execution are attained: runs in which rate + 17 instructions start within
    a minute, and in which 17, or after a server's pause 16, start while the client is
    paused. */
module Attained {
  import opened Instructions
  import opened Validator
  import opened Executor
  import opened Pipeline
  import opened Conservation
  import opened Vetting
  import opened Bounds
  import opened Guarantees
  import opened Path
  import opened Execution
  import opened Replay
  import CircuitBreaker
  import Dedup
  import SlidingWindow

  const GAP := 2 * SlidingWindow.MINUTE

  /** Acceptable instructions without end, no two with the same id. */
  ghost predicate Supply(w: World, fam: nat -> Instruction, lim: RiskLimits, res: Resolver) {
    (forall i :: Sound(w, fam(i), lim, res)) && forall i, j :: i < j ==> fam(i).id != fam(j).id
  }

  /** So far the first n of them have been accepted as new, and nothing else. */
  ghost predicate Used(s: State, fam: nat -> Instruction, n: nat) {
    |s.accepted| == n && s.clock >= 0 && forall i :: 0 <= i < n ==> s.accepted[i].id == fam(i).id
  }

  // ---------- messages ----------

  lemma NextIsNew(w: World, states: seq<State>, events: seq<Event>, fam: nat -> Instruction, n: nat)
    requires Run(w, states, events) && Used(Last(states), fam, n) && forall i, j :: i < j ==> fam(i).id != fam(j).id
    ensures fam(n).id !in Last(states).seen
  {
    RunKeepsInv(w, states, events, |states| - 1);
    var s := Last(states);
    forall id | id in s.seen ensures id != fam(n).id {
      assert Dedup.LastAccepted(s.accepted, id, s.seen[id]);
      var i :| Dedup.Latest(s.accepted, i) && s.accepted[i] == Dedup.Acceptance(id, s.seen[id]);
    }
  }

  /** The next message is as far as the queue. */
  ghost predicate Held(s: State, s': State, fam: nat -> Instruction, n: nat, res: Resolver) {
    && s'.reader.AtQueue? && s'.reader.ticket.steps == Clamp(res, fam(n).market, fam(n).steps) && Used(s', fam, n + 1)
    && |s'.fates| == |s'.arrivals| > 0
    && s' == s.(reader := s'.reader, arrivals := s'.arrivals, fates := s'.fates, seen := s'.seen,
                accepted := s'.accepted, admitted := s.admitted + [s.clock])
  }

  lemma NextIsAcceptable(w: World, s: State, fam: nat -> Instruction, n: nat, lim: RiskLimits, res: Resolver)
    requires Sound(w, fam(n), lim, res) && s.clock >= 0 && SlidingWindow.Admits(w.ratePerMinute, s.admitted, s.clock)
    ensures Acceptable(w, s, StampedAt(fam(n), s.clock), s.clock, lim, res, None)
  {}

  lemma HoldNext(w: World, states: seq<State>, events: seq<Event>, fam: nat -> Instruction, n: nat, lim: RiskLimits,
                 res: Resolver)
    returns (states': seq<State>, events': seq<Event>)
    requires Supply(w, fam, lim, res) && Run(w, states, events) && Ready(Last(states)) && Used(Last(states), fam, n)
    requires SlidingWindow.Admits(w.ratePerMinute, Last(states).admitted, Last(states).clock)
    ensures Run(w, states', events') && Held(Last(states), Last(states'), fam, n, res)
  {
    var s := Last(states);
    var m := StampedAt(fam(n), s.clock);
    assert Sound(w, fam(n), lim, res);
    NextIsAcceptable(w, s, fam, n, lim, res);
    NextIsNew(w, states, events, fam, n);
    var roomy := Dedup.RoomCanBeMade(MAX_SEEN, TTL, s.seen, s.clock);
    Dedup.NewIdIsAccepted(MAX_SEEN, TTL, s.seen, roomy, m.instr.id, s.clock);
    var seen := roomy[m.instr.id := s.clock];
    states', events' := AcceptableIsHeld(w, states, events, m, seen, s.clock, lim, res, None);
    HoldingIsHeld(s, fam, n, seen, lim, res);
  }

  lemma HoldingIsHeld(s: State, fam: nat -> Instruction, n: nat, seen: Dedup.Seen, lim: RiskLimits, res: Resolver)
    requires Ready(s) && Used(s, fam, n)
    ensures Held(s, Holding(s, StampedAt(fam(n), s.clock), seen, s.clock, lim, res, None), fam, n, res)
  {}

  /** The next message is in the queue. */
  ghost predicate Grown(s: State, s': State, fam: nat -> Instruction, n: nat, res: Resolver) {
    && Ready(s') && Used(s', fam, n + 1) && |s'.queue| == |s.queue| + 1 && s'.queue[..|s.queue|] == s.queue
    && s'.queue[|s.queue|].steps == Clamp(res, fam(n).market, fam(n).steps)
    && s' == s.(arrivals := s'.arrivals, fates := s'.fates, seen := s'.seen, accepted := s'.accepted,
                admitted := s.admitted + [s.clock], queue := s'.queue, enqueued := s'.enqueued)
  }

  lemma QueueNext(w: World, states: seq<State>, events: seq<Event>, fam: nat -> Instruction, n: nat, lim: RiskLimits,
                  res: Resolver)
    returns (states': seq<State>, events': seq<Event>)
    requires Supply(w, fam, lim, res) && Run(w, states, events) && Ready(Last(states)) && Used(Last(states), fam, n)
    requires SlidingWindow.Admits(w.ratePerMinute, Last(states).admitted, Last(states).clock)
    requires |Last(states).queue| < QUEUE_CAPACITY
    ensures Run(w, states', events') && Grown(Last(states), Last(states'), fam, n, res)
  {
    states', events' := HoldNext(w, states, events, fam, n, lim, res);
    PutGrows(Last(states), Last(states'), fam, n, res);
    states', events' := Extend(w, states', events', Enqueue, Put(Last(states')));
  }

  lemma PutGrows(s: State, s': State, fam: nat -> Instruction, n: nat, res: Resolver)
    requires Ready(s) && Held(s, s', fam, n, res)
    ensures Grown(s, Put(s'), fam, n, res)
  {}

  lemma NothingRecent(limit: int, admitted: seq<int>, before: int, now: int)
    requires limit >= 1 && SlidingWindow.AllUpTo(admitted, before) && before < now - SlidingWindow.MINUTE
    ensures SlidingWindow.Recent(admitted, now - SlidingWindow.MINUTE) == []
        && SlidingWindow.Admits(limit, admitted, now)
  {
    if admitted != [] { NothingRecent(limit, admitted[..|admitted| - 1], before, now); }
  }

  /** Two minutes later the limiter admits anything. */
  lemma WaitOut(w: World, states: seq<State>, events: seq<Event>) returns (states': seq<State>, events': seq<Event>)
    requires Run(w, states, events)
    ensures Run(w, states', events') && Last(states') == Last(states).(clock := Last(states).clock + GAP)
    ensures SlidingWindow.Recent(Last(states').admitted, Last(states').clock - SlidingWindow.MINUTE) == []
    ensures SlidingWindow.Admits(w.ratePerMinute, Last(states').admitted, Last(states').clock)
  {
    var s := Last(states);
    RunKeepsInv(w, states, events, |states| - 1);
    NothingRecent(w.ratePerMinute, s.admitted, s.clock, s.clock + GAP);
    states', events' := Extend(w, states, events, Tick(s.clock + GAP), s.(clock := s.clock + GAP));
  }

  // ---------- the worker ----------

  /** The worker has started the head of the queue and finished it. */
  ghost predicate Ran(s: State, s': State) {
    && s.queue != [] && s'.worker == Resting && |s'.fates| == |s.fates|
    && s' == s.(queue := s.queue[1..], started := s.started + [s.queue[0]], stamps := s'.stamps,
                transcripts := s'.transcripts, fates := s'.fates, results := s'.results,
                outcomes := s'.outcomes, pendingTrips := s'.pendingTrips)
    && s'.stamps == s.stamps + [Stamp(s.clock, |s.enqueued|, |s.admitted|, PastRate(s))]
  }

  /** What the executor makes of the head of the queue. */
  function HeadResults(s: State, exchange: Exchange): seq<StepResult>
    requires s.queue != []
  {
    RunSteps(s.queue[0].steps, exchange, []).results
  }

  lemma BegunIsBusy(s: State, exchange: Exchange)
    requires Fifo(s) && s.worker == Resting && s.queue != []
    ensures s.queue[0].delivery < |s.fates| && Busy(Begin(s))
    ensures Remaining(Begin(s), exchange).results == HeadResults(s, exchange)
  {
    PositionsInQueue(s);
    assert s.queue[0].steps[0..] == s.queue[0].steps;
  }

  lemma CompletedRan(s: State, s': State, t: Trace)
    requires s.worker == Resting && s.queue != [] && s.queue[0].delivery < |s.fates| && Completes(Begin(s), s', t)
    ensures Ran(s, s') && Successes(s'.outcomes) == Successes(s.outcomes) + PlaceOutcomes(t.results)
  {}

  lemma StartNext(w: World, states: seq<State>, events: seq<Event>, exchange: Exchange)
    returns (states': seq<State>, events': seq<Event>)
    requires Run(w, states, events) && Last(states).worker == Resting && Last(states).queue != []
    ensures Run(w, states', events') && Ran(Last(states), Last(states')) && SameFlagSince(states, states')
        && events <= events'
    ensures Successes(Last(states').outcomes) ==
        Successes(Last(states).outcomes) + PlaceOutcomes(HeadResults(Last(states), exchange))
  {
    var s := Last(states);
    RunKeepsInv(w, states, events, |states| - 1);
    BegunIsBusy(s, exchange);
    states', events' := Extend(w, states, events, Take, Begin(s));
    var begun := states';
    states', events' := ExecutionIsARun(w, states', events', exchange);
    SameFlagOn(states, begun, states');
    CompletedRan(s, Last(states'), Remaining(Begin(s), exchange));
  }

  /** The worker has started n instructions, at the time it is, and finished them. */
  ghost predicate RanMany(s: State, s': State, n: nat) {
    && n <= |s.queue| && s'.worker == Resting && |s'.fates| == |s.fates|
    && s' == s.(queue := s.queue[n..], started := s'.started, stamps := s'.stamps,
                transcripts := s'.transcripts, fates := s'.fates, results := s'.results,
                outcomes := s'.outcomes, pendingTrips := s'.pendingTrips)
    && |s'.started| == |s.started| + n && StartsNow(s'.stamps, s.clock) == StartsNow(s.stamps, s.clock) + n
  }

  /** How many instructions were started at time t. */
  function StartsNow(stamps: seq<Stamp>, t: int): nat {
    if stamps == [] then 0
    else StartsNow(stamps[..|stamps| - 1], t) + if stamps[|stamps| - 1].at == t then 1 else 0
  }

  lemma RanOneMore(s: State, s1: State, s2: State, n: nat)
    requires RanMany(s, s1, n) && Ran(s1, s2)
    ensures RanMany(s, s2, n + 1)
  {
    assert s.queue[n..][1..] == s.queue[n + 1..];
    assert s2.stamps[..|s1.stamps|] == s1.stamps;
  }

  lemma {:induction false} StartMany(w: World, states: seq<State>, events: seq<Event>, n: nat)
    returns (states': seq<State>, events': seq<Event>)
    requires Run(w, states, events) && Last(states).worker == Resting && n <= |Last(states).queue|
    ensures Run(w, states', events') && RanMany(Last(states), Last(states'), n) && SameFlagSince(states, states')
        && events <= events'
  {
    states', events' := states, events;
    if n > 0 {
      states', events' := StartMany(w, states, events, n - 1);
      var before := states';
      states', events' := StartNext(w, states', events', Willing());
      RanOneMore(Last(states), Last(before), Last(states'), n - 1);
      SameFlagOn(states, before, states');
    }
  }

  // ---------- filling the queue ----------

  /** Time has passed and n more messages are in the queue; the worker has done nothing. */
  ghost predicate FilledUp(s: State, s': State, fam: nat -> Instruction, used: nat, n: nat) {
    && Ready(s') && Used(s', fam, used + n) && |s'.queue| == |s.queue| + n
    && s' == s.(clock := s'.clock, arrivals := s'.arrivals, fates := s'.fates, seen := s'.seen, accepted := s'.accepted,
                admitted := s'.admitted, queue := s'.queue, enqueued := s'.enqueued)
  }

  lemma {:induction false} FillUp(w: World, states: seq<State>, events: seq<Event>, fam: nat -> Instruction, used: nat,
                                  n: nat,
                                  lim: RiskLimits, res: Resolver)
    returns (states': seq<State>, events': seq<Event>)
    requires Supply(w, fam, lim, res) && Run(w, states, events) && Ready(Last(states)) && Used(Last(states), fam, used)
    requires |Last(states).queue| + n <= QUEUE_CAPACITY
    ensures Run(w, states', events') && FilledUp(Last(states), Last(states'), fam, used, n)
  {
    states', events' := states, events;
    if n > 0 {
      states', events' := FillUp(w, states, events, fam, used, n - 1, lim, res);
      states', events' := QueueLater(w, states', events', fam, used + n - 1, lim, res);
    }
  }

  /** Two minutes later one more message is in the queue. */
  lemma QueueLater(w: World, states: seq<State>, events: seq<Event>, fam: nat -> Instruction, n: nat, lim: RiskLimits,
                   res: Resolver)
    returns (states': seq<State>, events': seq<Event>)
    requires Supply(w, fam, lim, res) && Run(w, states, events) && Ready(Last(states)) && Used(Last(states), fam, n)
    requires |Last(states).queue| < QUEUE_CAPACITY
    ensures Run(w, states', events') && FilledUp(Last(states), Last(states'), fam, n, 1)
    ensures Grown(Last(states).(clock := Last(states).clock + GAP), Last(states'), fam, n, res)
  {
    states', events' := WaitOut(w, states, events);
    states', events' := QueueNext(w, states', events', fam, n, lim, res);
  }

  /** The queue is full, and the reader holds one message more. */
  ghost predicate Loaded(s: State, s': State, fam: nat -> Instruction, used: nat) {
    && s'.reader.AtQueue? && s'.worker == Resting && |s'.queue| == QUEUE_CAPACITY && Used(s', fam, used)
    && |s'.fates| == |s'.arrivals| > 0 && !s'.paused
    && s'.stamps == s.stamps && s'.outcomes == s.outcomes && s'.autoPauses == s.autoPauses
  }

  lemma Load(w: World, states: seq<State>, events: seq<Event>, fam: nat -> Instruction, used: nat, lim: RiskLimits,
             res: Resolver)
    returns (states': seq<State>, events': seq<Event>)
    requires Supply(w, fam, lim, res) && Run(w, states, events) && Ready(Last(states)) && Used(Last(states), fam, used)
    requires Last(states).queue == [] && Last(states).worker == Resting
    ensures Run(w, states', events') && Loaded(Last(states), Last(states'), fam, used + QUEUE_CAPACITY + 1)
  {
    states', events' := FillUp(w, states, events, fam, used, QUEUE_CAPACITY, lim, res);
    states', events' := WaitOut(w, states', events');
    states', events' := HoldNext(w, states', events', fam, used + QUEUE_CAPACITY, lim, res);
  }

  /** The queue drains, the reader's message follows, and is drained too. */
  ghost predicate Drained(s: State, s': State) {
    && s'.reader == Idle && s'.worker == Resting && s'.queue == [] && |s'.fates| == |s'.arrivals| == |s.arrivals|
    && s'.paused == s.paused && s'.clock == s.clock && s'.accepted == s.accepted && s'.admitted == s.admitted
    && |s'.started| == |s.started| + QUEUE_CAPACITY + 1
    && StartsNow(s'.stamps, s.clock) == StartsNow(s.stamps, s.clock) + QUEUE_CAPACITY + 1
  }

  lemma DrainAll(w: World, states: seq<State>, events: seq<Event>) returns (states': seq<State>, events': seq<Event>)
    requires Run(w, states, events) && Last(states).reader.AtQueue? && Last(states).worker == Resting
    requires |Last(states).queue| == QUEUE_CAPACITY && |Last(states).fates| == |Last(states).arrivals| > 0
    ensures Run(w, states', events') && Drained(Last(states), Last(states')) && SameFlagSince(states, states')
        && events <= events'
  {
    states', events' := StartMany(w, states, events, QUEUE_CAPACITY);
    var empty := states';
    states', events' := Extend(w, states', events', Enqueue, Put(Last(empty)));
    var put := states';
    SameFlagOn(states, empty, put);
    states', events' := StartMany(w, states', events', 1);
    SameFlagOn(states, put, states');
  }

  // ---------- the rate bound ----------

  lemma RecentAtNow(admitted: seq<int>, now: int)
    ensures SlidingWindow.Recent(admitted + [now], now - SlidingWindow.MINUTE) ==
            SlidingWindow.Recent(admitted, now - SlidingWindow.MINUTE) + [now]
  {
    assert (admitted + [now])[..|admitted|] == admitted;
  }

  /** At one instant, n more messages were admitted, queued, started and finished. */
  ghost predicate Burst(s: State, s': State, fam: nat -> Instruction, used: nat, n: nat) {
    && Ready(s') && s'.worker == Resting && s'.queue == [] && s'.clock == s.clock && Used(s', fam, used + n)
    && StartsNow(s'.stamps, s.clock) == StartsNow(s.stamps, s.clock) + n
    && |SlidingWindow.Recent(s'.admitted, s.clock - SlidingWindow.MINUTE)| ==
       |SlidingWindow.Recent(s.admitted, s.clock - SlidingWindow.MINUTE)| + n
  }

  lemma BurstGoesOn(s: State, s1: State, s2: State, s3: State, fam: nat -> Instruction, used: nat, n: nat,
                    res: Resolver)
    requires Burst(s, s1, fam, used, n) && Grown(s1, s2, fam, used + n, res) && RanMany(s2, s3, 1)
    ensures Burst(s, s3, fam, used, n + 1)
  {
    RecentAtNow(s1.admitted, s.clock);
  }

  lemma {:induction false} QueueBurst(w: World, states: seq<State>, events: seq<Event>, fam: nat -> Instruction,
                                      used: nat, n: nat,
                                      lim: RiskLimits, res: Resolver)
    returns (states': seq<State>, events': seq<Event>)
    requires Supply(w, fam, lim, res) && Run(w, states, events) && Ready(Last(states)) && Used(Last(states), fam, used)
    requires Last(states).queue == [] && Last(states).worker == Resting && n <= w.ratePerMinute
    requires SlidingWindow.Recent(Last(states).admitted, Last(states).clock - SlidingWindow.MINUTE) == []
    ensures Run(w, states', events') && Burst(Last(states), Last(states'), fam, used, n)
  {
    states', events' := states, events;
    if n > 0 {
      states', events' := QueueBurst(w, states, events, fam, used, n - 1, lim, res);
      var s1 := Last(states');
      states', events' := QueueNext(w, states', events', fam, used + n - 1, lim, res);
      var s2 := Last(states');
      states', events' := StartMany(w, states', events', 1);
      BurstGoesOn(Last(states), s1, s2, Last(states'), fam, used, n - 1, res);
    }
  }

  /** All starts at one instant lie in the minute that begins there. */
  lemma {:induction false} StartsNowCount(stamps: seq<Stamp>, t: int)
    ensures StartsNow(stamps, t) <= SlidingWindow.CountIn(StartTimes(stamps), t, t + SlidingWindow.MINUTE)
  {
    if stamps != [] {
      var n := |stamps| - 1;
      StartsNowCount(stamps[..n], t);
      assert StartTimes(stamps)[..n] == StartTimes(stamps[..n]);
    }
  }

  /** For every rate limit and every supply of acceptable instructions a run in which exactly
      rate + 17 of them start within a minute, at one instant even: the queue was full, the
      reader held one, and the limiter admits as many more as it ever does. */
  lemma RatePlusSeventeen(w: World, fam: nat -> Instruction, lim: RiskLimits, res: Resolver)
    returns (states: seq<State>, events: seq<Event>, t: int)
    requires Supply(w, fam, lim, res)
    ensures Run(w, states, events)
    ensures var stamps := Last(states).stamps;
            |set k | 0 <= k < |stamps| && t <= stamps[k].at <= t + 60_000_000_000| == w.ratePerMinute + 17
  {
    assert Sound(w, fam(0), lim, res);
    states, events := [StartAt(0)], [];
    states, events := Load(w, states, events, fam, 0, lim, res);
    states, events := WaitOut(w, states, events);
    t := Last(states).clock;
    states, events := DrainAll(w, states, events);
    states, events := QueueBurst(w, states, events, fam, QUEUE_CAPACITY + 1, w.ratePerMinute, lim, res);
    StartsNowCount(Last(states).stamps, t);
    StartsCounted(Last(states).stamps, t);
    ExecutionRateBound(w, states, events, |states| - 1, t);
  }

  // ---------- the pause bounds ----------

  /** Between two states of a run the client stays paused, and n instructions start. */
  ghost predicate StartWhilePaused(w: World, states: seq<State>, events: seq<Event>, i: nat, j: nat, n: nat) {
    && Run(w, states, events) && 0 < i <= j < |states| && (forall k :: i <= k < j ==> states[k].paused)
    && |states[j].started| - |states[i].started| == n
  }

  lemma PausedThroughout(states: seq<State>, states': seq<State>)
    requires states != [] && Last(states).paused && SameFlagSince(states, states')
    ensures forall k :: |states| - 1 <= k < |states'| ==> states'[k].paused
  {
    assert states'[|states| - 1] == Last(states);
  }

  /** For every supply of acceptable instructions a run in which 16 of them start after the
      server has paused the client. */
  lemma SixteenAfterServerPause(w: World, fam: nat -> Instruction, lim: RiskLimits, res: Resolver)
    returns (states: seq<State>, events: seq<Event>, i: nat)
    requires Supply(w, fam, lim, res)
    ensures states != [] && StartWhilePaused(w, states, events, i, |states| - 1, 16)
    ensures events[i - 1] == ServerPause(true)
  {
    assert Sound(w, fam(0), lim, res);
    states, events := [StartAt(0)], [];
    states, events := FillUp(w, states, events, fam, 0, QUEUE_CAPACITY, lim, res);
    var s := Last(states);
    states, events := Extend(w, states, events, ServerPause(true), s.(paused := true, flags := s.flags + [true]));
    i := |states| - 1;
    var paused := states;
    states, events := StartMany(w, states, events, QUEUE_CAPACITY);
    PausedThroughout(paused, states);
  }

  // ---------- making the breaker trip ----------

  ghost predicate AllFailed(h: seq<CircuitBreaker.Outcome>, n: nat) {
    |h| == n && forall k :: 0 <= k < n ==> h[k].Failure?
  }

  lemma OneMoreFailed(h: seq<CircuitBreaker.Outcome>, h': seq<CircuitBreaker.Outcome>, n: nat)
    requires AllFailed(h, n) && Successes(h') == Successes(h) + [false]
    ensures AllFailed(h', n + 1)
  {
    SuccessesAt(h);
    SuccessesAt(h');
    forall k | 0 <= k < n + 1 ensures h'[k].Failure? { assert Successes(h')[k] == false; }
  }

  lemma {:induction false} TripIsCounted(h: seq<CircuitBreaker.Outcome>, j: nat)
    requires j < |h| && CircuitBreaker.IsTrip(h[j])
    ensures TripCount(h) > 0
  {
    if j < |h| - 1 { TripIsCounted(h[..|h| - 1], j); }
  }

  /** Enough failures, and nothing else, have tripped the breaker. */
  lemma FailuresTrip(w: World, h: seq<CircuitBreaker.Outcome>)
    requires CircuitBreaker.History(w.maxConsecutive, w.cooldown, h) && w.maxConsecutive >= 1 && w.cooldown > 0
    requires AllFailed(h, w.maxConsecutive)
    ensures TripCount(h) > 0
  {
    if j :| 0 <= j < |h| && CircuitBreaker.IsTrip(h[j]) {
      TripIsCounted(h, j);
    } else {
      var last := w.maxConsecutive - 1;
      CircuitBreaker.LongRunTrips(w.maxConsecutive, w.cooldown, h, 0, last);
      TripIsCounted(h, last);
    }
  }

  /** Every instruction of the supply begins by placing orders. */
  ghost predicate PlaceFirst(fam: nat -> Instruction) {
    forall i :: |fam(i).steps| > 0 && fam(i).steps[0].action == PLACE_ORDER
  }

  /** Exchanges that refuse everything, and that do everything. */
  function Refusing(): Exchange { _ => Error("") }

  function Willing(): Exchange { _ => Statuses([]) }

  lemma {:induction false} RefusedAtOnce(steps: seq<ExecutionStep>)
    requires steps != [] && steps[0].action == PLACE_ORDER
    ensures PlaceOutcomes(RunSteps(steps, Refusing(), []).results) == [false]
  {
    var r := ResultOf(steps[0], Error(""));
    assert [r][..0] == [];
    assert PlaceOutcomes([r]) == [false];
  }

  /** So far n instructions were started, and all failed at their first step. */
  ghost predicate Failing(s: State, fam: nat -> Instruction, n: nat) {
    && Ready(s) && Used(s, fam, n) && s.queue == [] && s.worker == Resting && AllFailed(s.outcomes, n)
    && s.autoPauses == 0
  }

  /** The worker starts the one queued instruction, and the exchange refuses. */
  lemma FailHead(w: World, states: seq<State>, events: seq<Event>, fam: nat -> Instruction, n: nat)
    returns (states': seq<State>, events': seq<Event>)
    requires Run(w, states, events) && Ready(Last(states)) && Used(Last(states), fam, n + 1)
        && Last(states).worker == Resting
    requires |Last(states).queue| == 1 && AllFailed(Last(states).outcomes, n) && Last(states).autoPauses == 0
    requires PlaceOutcomes(RunSteps(Last(states).queue[0].steps, Refusing(), []).results) == [false]
    ensures Run(w, states', events') && Failing(Last(states'), fam, n + 1)
  {
    states', events' := StartNext(w, states, events, Refusing());
    OneMoreFailed(Last(states).outcomes, Last(states').outcomes, n);
  }

  lemma FailNext(w: World, states: seq<State>, events: seq<Event>, fam: nat -> Instruction, n: nat, lim: RiskLimits,
                 res: Resolver)
    returns (states': seq<State>, events': seq<Event>)
    requires Supply(w, fam, lim, res) && PlaceFirst(fam) && Run(w, states, events) && Failing(Last(states), fam, n)
    ensures Run(w, states', events') && Failing(Last(states'), fam, n + 1)
  {
    states', events' := QueueLater(w, states, events, fam, n, lim, res);
    assert |fam(n).steps| > 0 && fam(n).steps[0].action == PLACE_ORDER;
    RefusedAtOnce(Last(states').queue[0].steps);
    states', events' := FailHead(w, states', events', fam, n);
  }

  lemma {:induction false} FailMany(w: World, fam: nat -> Instruction, n: nat, lim: RiskLimits, res: Resolver)
    returns (states: seq<State>, events: seq<Event>)
    requires Supply(w, fam, lim, res) && PlaceFirst(fam)
    ensures Run(w, states, events) && Failing(Last(states), fam, n)
  {
    if n == 0 {
      assert Sound(w, fam(0), lim, res);
      states, events := [StartAt(0)], [];
    } else {
      states, events := FailMany(w, fam, n - 1, lim, res);
      states, events := FailNext(w, states, events, fam, n - 1, lim, res);
    }
  }

  /** So many failures, and no pause yet: the breaker's callback is due. */
  lemma CallbackIsDue(w: World, states: seq<State>, events: seq<Event>, outcomes: seq<CircuitBreaker.Outcome>)
    requires Run(w, states, events) && w.maxConsecutive >= 1
    requires Last(states).outcomes == outcomes && AllFailed(outcomes, w.maxConsecutive) && Last(states).autoPauses == 0
    ensures Last(states).pendingTrips > 0
  {
    RunKeepsInv(w, states, events, |states| - 1);
    FailuresTrip(w, outcomes);
  }

  /** For every threshold of the breaker and every supply of acceptable instructions that place
      orders, a run in which 17 of them start after the breaker's callback has paused the
      client: as many fail as trip it, the queue fills, the reader lets one more past its
      pause check, and only then the callback runs. */
  lemma SeventeenAfterTrip(w: World, fam: nat -> Instruction, lim: RiskLimits, res: Resolver)
    returns (states: seq<State>, events: seq<Event>, i: nat)
    requires Supply(w, fam, lim, res) && PlaceFirst(fam) && w.maxConsecutive >= 1
    ensures states != [] && StartWhilePaused(w, states, events, i, |states| - 1, 17)
    ensures events[i - 1] == TripCallback
  {
    states, events := FailMany(w, fam, w.maxConsecutive, lim, res);
    var outcomes := Last(states).outcomes;
    states, events := Load(w, states, events, fam, w.maxConsecutive, lim, res);
    CallbackIsDue(w, states, events, outcomes);
    var s := Last(states);
    states, events := Extend(w, states, events, TripCallback,
                             s.(paused := true, flags := s.flags + [true], pendingTrips := s.pendingTrips - 1,
                                autoPauses := s.autoPauses + 1));
    i := |states| - 1;
    var paused := states;
    states, events := DrainAll(w, states, events);
    PausedThroughout(paused, states);
  }
}
