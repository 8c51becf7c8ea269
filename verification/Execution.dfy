/** The worker's steps add up to the executor's run of the whole instruction. */
module Execution {
  import opened Instructions
  import opened Executor
  import opened Pipeline
  import opened Path

  lemma {:induction false} PlaceOutcomesFirst(r: StepResult, rest: seq<StepResult>)
    ensures PlaceOutcomes([r] + rest) == (if r.action == PLACE_ORDER then [r.success] else []) + PlaceOutcomes(rest)
  {
    var all := [r] + rest;
    if rest == [] {
      assert all[..0] == [] && all == [r];
    } else {
      PlaceOutcomesFirst(r, rest[..|rest| - 1]);
      assert all[..|all| - 1] == [r] + rest[..|rest| - 1];
    }
  }

  /** The worker has a step to execute. */
  predicate Busy(s: State) {
    && s.worker.Running? && s.worker.done < |s.worker.ticket.steps| && s.worker.ticket.delivery < |s.fates|
    && s.transcripts != []
  }

  /** What the breaker hears of one step. */
  lemma OneStepFed(w: World, s: State, reply: Reply)
    requires Busy(s)
    ensures var r := ResultFor(NextStep(s), reply);
      Successes(Outcomes(w, s, NextStep(s), r.success)) ==
      Successes(s.outcomes) + if r.action == PLACE_ORDER then [r.success] else []
  {
    var o := OutcomeOf(w, s, ResultFor(NextStep(s), reply).success);
    assert (s.outcomes + [o])[..|s.outcomes|] == s.outcomes;
  }

  /** The exchange's answer to the next step, given the calls already made. */
  function NextReply(s: State, exchange: Exchange): Reply
    requires Busy(s)
  {
    match CallOf(NextStep(s))
    case Some(call) => exchange(Current(s).calls + [call])
    case None => Error("")
  }

  /** The state after that answer. */
  function Executed(w: World, s: State, reply: Reply): State
    requires Busy(s)
  {
    var fed := Fed(w, s, NextStep(s), reply);
    if ResultFor(NextStep(s), reply).success && s.worker.done + 1 < |s.worker.ticket.steps|
    then fed.(worker := Running(s.worker.ticket, s.worker.done + 1))
    else Finish(fed)
  }

  /** The worker has finished its instruction with this trace: its calls and results are in
      the transcript, one result message was sent, and the breaker has heard of the
      place_order steps. */
  ghost predicate Completes(s: State, s': State, t: Trace) {
    && s.worker.Running? && s.worker.ticket.delivery < |s.fates| && s.transcripts != []
    && |s'.transcripts| == |s.transcripts|
    && s' == s.(worker := Resting, fates := s.fates[s.worker.ticket.delivery := Completed],
                results := s.results + [s.worker.ticket.delivery],
                outcomes := s'.outcomes, pendingTrips := s'.pendingTrips, transcripts := s'.transcripts)
    && Current(s').calls == t.calls && Current(s').results == Current(s).results + t.results
    && Successes(s'.outcomes) == Successes(s.outcomes) + PlaceOutcomes(t.results)
  }

  /** All states since the given one have the pause flag as it had it. */
  ghost predicate SameFlagSince(states: seq<State>, states': seq<State>)
    requires states != []
  {
    states <= states' && forall k :: |states| <= k < |states'| ==> states'[k].paused == Last(states).paused
  }

  lemma SameFlagOn(a: seq<State>, b: seq<State>, c: seq<State>)
    requires a != [] && b != [] && SameFlagSince(a, b) && SameFlagSince(b, c)
    ensures SameFlagSince(a, c)
  {
    forall k | |a| <= k < |c| ensures c[k].paused == Last(a).paused {
      if k < |b| { assert c[k] == b[k]; }
    }
  }

  lemma SameFlagNext(states: seq<State>, s': State)
    requires states != [] && s'.paused == Last(states).paused
    ensures SameFlagSince(states, states + [s'])
  {}

  /** The run of the executor from the worker's position on. */
  function Remaining(s: State, exchange: Exchange): Trace
    requires Busy(s)
  {
    RunSteps(s.worker.ticket.steps[s.worker.done..], exchange, Current(s).calls)
  }

  lemma RemainingUnfolds(w: World, s: State, exchange: Exchange)
    requires Busy(s)
    ensures var reply := NextReply(s, exchange);
      var r, s' := ResultFor(NextStep(s), reply), Executed(w, s, reply);
      if s'.worker.Running? then
        && Busy(s') && Remaining(s, exchange).calls == Remaining(s', exchange).calls
        && Remaining(s, exchange).results == [r] + Remaining(s', exchange).results
      else Remaining(s, exchange) == Trace(Current(s').calls, [r])
  {
    var steps := s.worker.ticket.steps[s.worker.done..];
    assert steps[0] == NextStep(s) && steps[1..] == s.worker.ticket.steps[s.worker.done + 1..];
    var reply := NextReply(s, exchange);
    var r := ResultFor(NextStep(s), reply);
    if r.success {
      var rest := RunSteps(steps[1..], exchange, Current(s).calls + [CallOf(NextStep(s)).value]);
      assert RunSteps(steps, exchange, Current(s).calls) == Trace(rest.calls, [r] + rest.results);
      if s.worker.done + 1 == |s.worker.ticket.steps| { assert steps[1..] == [] && [r] + rest.results == [r]; }
    }
  }

  lemma Regroup<T>(a: seq<T>, b: seq<T>, c: seq<T>)
    ensures (a + b) + c == a + (b + c)
  {}

  /** What one more step, not the last, has changed. */
  lemma ExecutedGoesOn(w: World, s: State, reply: Reply)
    requires Busy(s) && Executed(w, s, reply).worker.Running?
    ensures var s', r := Executed(w, s, reply), ResultFor(NextStep(s), reply);
      && s' == s.(worker := s'.worker, outcomes := s'.outcomes, pendingTrips := s'.pendingTrips,
                  transcripts := s'.transcripts)
      && s'.worker.ticket == s.worker.ticket && |s'.transcripts| == |s.transcripts|
      && Current(s').results == Current(s).results + [r]
      && Successes(s'.outcomes) == Successes(s.outcomes) + if r.action == PLACE_ORDER then [r.success] else []
  {
    OneStepFed(w, s, reply);
  }

  lemma CompletesLater(w: World, s: State, reply: Reply, s': State, t: Trace)
    requires Busy(s) && Executed(w, s, reply).worker.Running? && Completes(Executed(w, s, reply), s', t)
    ensures Completes(s, s', Trace(t.calls, [ResultFor(NextStep(s), reply)] + t.results))
  {
    var r := ResultFor(NextStep(s), reply);
    ExecutedGoesOn(w, s, reply);
    PlaceOutcomesFirst(r, t.results);
    Regroup(Current(s).results, [r], t.results);
    Regroup(Successes(s.outcomes), if r.action == PLACE_ORDER then [r.success] else [], PlaceOutcomes(t.results));
  }

  /** What the last step has changed. */
  lemma ExecutedEnds(w: World, s: State, reply: Reply)
    requires Busy(s) && !Executed(w, s, reply).worker.Running?
    ensures var s', r := Executed(w, s, reply), ResultFor(NextStep(s), reply);
      && s' == s.(worker := Resting, fates := s.fates[s.worker.ticket.delivery := Completed],
                  results := s.results + [s.worker.ticket.delivery],
                  outcomes := s'.outcomes, pendingTrips := s'.pendingTrips, transcripts := s'.transcripts)
      && |s'.transcripts| == |s.transcripts| && Current(s').results == Current(s).results + [r]
      && Successes(s'.outcomes) == Successes(s.outcomes) + if r.action == PLACE_ORDER then [r.success] else []
  {
    OneStepFed(w, s, reply);
  }

  lemma CompletesNow(w: World, s: State, reply: Reply)
    requires Busy(s) && !Executed(w, s, reply).worker.Running?
    ensures Completes(s, Executed(w, s, reply),
                      Trace(Current(Executed(w, s, reply)).calls, [ResultFor(NextStep(s), reply)]))
  {
    var r := ResultFor(NextStep(s), reply);
    ExecutedEnds(w, s, reply);
    PlaceOutcomesFirst(r, []);
    assert [r] + [] == [r];
    assert PlaceOutcomes([r]) == if r.action == PLACE_ORDER then [r.success] else [];
  }

  lemma ExecuteOne(w: World, states: seq<State>, events: seq<Event>, reply: Reply)
    returns (states': seq<State>, events': seq<Event>)
    requires Run(w, states, events) && Busy(Last(states))
    ensures Run(w, states', events') && Last(states') == Executed(w, Last(states), reply)
    ensures SameFlagSince(states, states') && events <= events' && |events'| == |events| + 1
  {
    var s' := Executed(w, Last(states), reply);
    states', events' := Extend(w, states, events, Execute(reply), s');
    SameFlagNext(states, s');
  }

  /** Whatever the exchange answers, a worker left to itself makes one step for each result
      of the executor's run of the instruction's steps, makes the calls of that run, and
      completes the instruction with its results. */
  lemma {:induction false} ExecutionIsARun(w: World, states: seq<State>, events: seq<Event>, exchange: Exchange)
    returns (states': seq<State>, events': seq<Event>)
    requires Run(w, states, events) && Busy(Last(states))
    ensures var t := Remaining(Last(states), exchange);
      && Run(w, states', events') && |events'| == |events| + |t.results| && Completes(Last(states), Last(states'), t)
      && SameFlagSince(states, states') && events <= events'
    decreases |Last(states).worker.ticket.steps| - Last(states).worker.done
  {
    var s := Last(states);
    var reply := NextReply(s, exchange);
    var s' := Executed(w, s, reply);
    states', events' := ExecuteOne(w, states, events, reply);
    RemainingUnfolds(w, s, exchange);
    if s'.worker.Running? {
      var first := states';
      states', events' := ExecutionIsARun(w, states', events', exchange);
      SameFlagOn(states, first, states');
      CompletesLater(w, s, reply, Last(states'), Remaining(s', exchange));
    } else {
      CompletesNow(w, s, reply);
    }
  }
}
