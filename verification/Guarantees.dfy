/** The theorems about whole runs of the pipeline, whatever the interleaving, the clock, the
    messages, the exchange and the server do. */
module Guarantees {
  import opened Instructions
  import opened Validator
  import opened Limits
  import opened Executor
  import opened Pipeline
  import opened Conservation
  import opened Transcripts
  import opened Vetting
  import opened Bounds
  import Canonical
  import CircuitBreaker
  import Floats
  import SlidingWindow

  ghost predicate Inv(w: World, s: State) {
    Fifo(s) && Tracked(s) && Scripted(s) && Guarded(w, s) && AllVetted(w, s) && Stamped(s)
  }

  lemma InitHasInv(w: World, s: State)
    requires Init(w, s)
    ensures Inv(w, s)
  {}

  lemma StepKeepsInv(w: World, s: State, e: Event, s': State)
    requires Inv(w, s) && Step(w, s, e, s')
    ensures Inv(w, s')
  {
    StepKeepsFifo(w, s, e, s');
    StepKeepsTracked(w, s, e, s');
    StepKeepsScripted(w, s, e, s');
    StepKeepsGuarded(w, s, e, s');
    StepKeepsVetted(w, s, e, s');
    StepKeepsStamped(w, s, e, s');
  }

  lemma {:induction false} RunKeepsInv(w: World, states: seq<State>, events: seq<Event>, i: nat)
    requires Run(w, states, events) && i < |states|
    ensures Inv(w, states[i])
  {
    if i == 0 {
      InitHasInv(w, states[0]);
    } else {
      RunKeepsInv(w, states, events, i - 1);
      assert StepAt(w, states, events, i - 1);
      StepKeepsInv(w, states[i - 1], events[i - 1], states[i]);
    }
  }

  // ---------- conservation and order ----------

  /** At every moment every delivery is in exactly one place, and it has been answered by
      one result message if it was rejected or completed and by none otherwise. */
  lemma DeliveriesAreConserved(w: World, states: seq<State>, events: seq<Event>, i: nat, d: nat)
    requires Run(w, states, events) && i < |states| && d < |states[i].arrivals|
    ensures var s := states[i];
      && |s.fates| == |s.arrivals|
      && (s.fates[d] == InReader <==> s.reader != Idle && d == |s.arrivals| - 1)
      && (s.fates[d] == Queued <==> Has(s.queue, d))
      && (s.fates[d] == Executing <==> s.worker.Running? && s.worker.ticket.delivery == d)
      && (s.fates[d] == Completed <==> Has(s.started, d) && !(s.worker.Running? && s.worker.ticket.delivery == d))
      && multiset(s.results)[d] == if s.fates[d] == Rejected || s.fates[d] == Completed then 1 else 0
  {
    RunKeepsInv(w, states, events, i);
    EachInOnePlace(states[i], d);
  }

  /** At every moment the started instructions followed by the queued ones are the enqueued
      ones, in order of arrival and none twice, and at most 16 wait. */
  lemma FirstInFirstOut(w: World, states: seq<State>, events: seq<Event>, i: nat)
    requires Run(w, states, events) && i < |states|
    ensures var s := states[i];
      && s.started + s.queue == s.enqueued && |s.queue| <= 16
      && (forall k, l :: 0 <= k < l < |s.enqueued| ==> s.enqueued[k].delivery < s.enqueued[l].delivery < |s.arrivals|)
  {
    RunKeepsInv(w, states, events, i);
  }

  predicate Final(f: Fate) { f == Dropped || f == Rejected || f == Completed }

  ghost predicate FatesKept(fates: seq<Fate>, fates': seq<Fate>) {
    |fates| <= |fates'| && forall d :: 0 <= d < |fates| && Final(fates[d]) ==> fates'[d] == fates[d]
  }

  /** What has happened stays as it was. */
  ghost predicate Extends(s: State, s': State) {
    && s.arrivals <= s'.arrivals && s.enqueued <= s'.enqueued && s.started <= s'.started && s.results <= s'.results
    && FatesKept(s.fates, s'.fates)
  }

  lemma ReaderExtends(w: World, s: State, e: Event, s': State)
    requires Fifo(s) && Tracked(s) && ReaderStep(w, s, e, s')
    ensures Extends(s, s')
  {
    ReaderStepKinds(w, s, e, s');
    assert s.fates[|s.fates| - 1] == InReader by { assert !Has(s.enqueued, |s.fates| - 1); }
  }

  lemma WorkerExtends(w: World, s: State, e: Event, s': State)
    requires Fifo(s) && Tracked(s) && WorkerStep(w, s, e, s')
    ensures Extends(s, s')
  {
    PositionsInQueue(s);
  }

  lemma StepExtends(w: World, s: State, e: Event, s': State)
    requires Fifo(s) && Tracked(s) && Step(w, s, e, s')
    ensures Extends(s, s')
  {
    match e
    case Tick(_) | Arrive(_) | TripCallback | ServerPause(_) =>
    case Take | Execute(_) | Stop => WorkerExtends(w, s, e, s');
    case _ => ReaderExtends(w, s, e, s');
  }

  lemma RunStepExtends(w: World, states: seq<State>, events: seq<Event>, k: nat)
    requires Run(w, states, events) && k < |events|
    ensures Extends(states[k], states[k + 1])
  {
    RunKeepsInv(w, states, events, k);
    assert StepAt(w, states, events, k);
    StepExtends(w, states[k], events[k], states[k + 1]);
  }

  lemma ExtendsTransitively(a: State, b: State, c: State)
    requires Extends(a, b) && Extends(b, c)
    ensures Extends(a, c)
  {}

  ghost predicate ExtendedAt(states: seq<State>, k: nat) {
    k + 1 < |states| && Extends(states[k], states[k + 1])
  }

  lemma {:induction false} ExtendsThroughout(states: seq<State>, i: nat, j: nat)
    requires i <= j < |states| && forall k :: i <= k < j ==> ExtendedAt(states, k)
    ensures Extends(states[i], states[j])
  {
    if i < j {
      ExtendsThroughout(states, i, j - 1);
      assert ExtendedAt(states, j - 1);
      ExtendsTransitively(states[i], states[j - 1], states[j]);
    }
  }

  /** Nothing is undone: what was queued, started or answered stays so, and a delivery that
      was dropped, rejected or completed is never heard of again. */
  lemma NothingIsUndone(w: World, states: seq<State>, events: seq<Event>, i: nat, j: nat)
    requires Run(w, states, events) && i <= j < |states|
    ensures Extends(states[i], states[j])
  {
    forall k | i <= k < j ensures ExtendedAt(states, k) { RunStepExtends(w, states, events, k); }
    ExtendsThroughout(states, i, j);
  }

  // ---------- authorization ----------

  lemma ExecutesVetted(w: World, states: seq<State>, events: seq<Event>, i: nat)
    requires Run(w, states, events) && i < |events| && events[i].Execute?
    ensures var s := states[i];
      && s.worker.Running? && s.worker.done < |s.worker.ticket.steps| && Vetted(w, s, s.worker.ticket)
      && var t := s.worker.ticket;
         && s.worker.done < |s.arrivals[t.delivery].instr.steps|
         && LoweredOnly(s.arrivals[t.delivery].instr.steps[s.worker.done], NextStep(s))
         && (NextStep(s).action == UPDATE_LEVERAGE ==> NextStep(s).leverage <= t.lim.maxLeverage)
  {
    RunKeepsInv(w, states, events, i);
    assert StepAt(w, states, events, i);
    ExecutesOnlySignedSteps(w, states[i], events[i].reply, states[i + 1]);
  }

  /** Whenever a step is executed, it is a step of an arrived delivery that was accepted as
      new by the duplicate filter, then found the pause flag down, then was fresh, signed,
      admitted by the limiter, accepted by the risk validator and passed by the portfolio
      check; the step is the signed one, changed at most by safely lowering its leverage. The
      flag may have gone up since: PauseDrainBound says how much still starts then. */
  lemma ExecutionIsAuthorized(w: World, states: seq<State>, events: seq<Event>, i: nat)
    requires Run(w, states, events) && i < |events| && events[i].Execute?
    ensures var s := states[i];
      && s.worker.Running? && s.worker.done < |s.worker.ticket.steps| && Vetted(w, s, s.worker.ticket)
      && var t, m := s.worker.ticket, s.arrivals[s.worker.ticket.delivery];
         && s.accepted[t.slot].id == m.instr.id
         && t.flag <= |s.flags| && (t.flag > 0 ==> !s.flags[t.flag - 1])
         && s.accepted[t.slot].at <= t.freshAt <= s.admitted[t.admission]
         && 0 < m.timestamp && m.timestamp - 10_000 <= t.freshAt / 1_000_000 <= m.timestamp + 60_000
         && m.instr.signature != "" && w.isHex(m.instr.signature)
         && w.verifies(Canonical.CanonicalText(m.instr), m.instr.signature)
         && Accepts(t.lim, t.res, m.instr.steps)
         && t.portfolio.CheckedAgainst?
         && PortfolioPasses(t.portfolio.lim, t.portfolio.res, t.portfolio.account, m.instr.market, t.steps)
         && s.worker.done < |m.instr.steps| && LoweredOnly(m.instr.steps[s.worker.done], NextStep(s))
         && (NextStep(s).action == UPDATE_LEVERAGE ==> NextStep(s).leverage <= t.lim.maxLeverage)
  {
    ExecutesVetted(w, states, events, i);
  }

  /** The account a portfolio check saw, if it could be fetched, had room for the estimate. */
  ghost predicate HadRoom(p: Portfolio, market: string, estimate: Floats.Float)
    requires p.CheckedAgainst?
  {
    p.account.Some? ==>
      && (p.lim.maxTotalExposureUSD <= 0.0
          || ExposureWithin(p.res.parse(p.account.value.totalNtlPos).value, estimate, p.lim.maxTotalExposureUSD))
      && (p.lim.maxPositionsPerMarket <= 0
          || var held := p.account.value.positions;
             |set i | 0 <= i < |held| && held[i].coin == market && p.res.parse(held[i].szi).value != Floats.Fin(0.0)|
               < p.lim.maxPositionsPerMarket)
  }

  /** The portfolio check cannot be skipped for a placed, valued order: whenever a step of an
      instruction is executed that places orders, none of them valued at NaN, its estimate was
      positive, and the account it was checked against had room for it. */
  lemma ExecutionFitsPortfolio(w: World, states: seq<State>, events: seq<Event>, i: nat)
    requires Run(w, states, events) && i < |events| && events[i].Execute? && states[i].worker.Running?
    ensures var s, t := states[i], states[i].worker.ticket;
      && t.portfolio.CheckedAgainst? && t.delivery < |s.arrivals|
      && var instr, estimate := s.arrivals[t.delivery].instr, Estimate(t.portfolio.res, t.steps);
         PlacesOrders(instr.steps) && !NaNSteps(t.res, instr.steps) ==>
           Floats.Gt(estimate, Floats.ZERO) && HadRoom(t.portfolio, instr.market, estimate)
  {
    ExecutionIsAuthorized(w, states, events, i);
    PlacedOrdersFit(w, states[i], states[i].worker.ticket);
  }

  lemma PlacedOrdersFit(w: World, s: State, t: Ticket)
    requires Vetted(w, s, t)
    ensures var instr, estimate := s.arrivals[t.delivery].instr, Estimate(t.portfolio.res, t.steps);
      PlacesOrders(instr.steps) && !NaNSteps(t.res, instr.steps) ==>
        Floats.Gt(estimate, Floats.ZERO) && HadRoom(t.portfolio, instr.market, estimate)
  {
    var p, instr := t.portfolio, s.arrivals[t.delivery].instr;
    PortfolioCheckRunsExactly(t.lim, t.res, instr.steps);
    EstimateOfClamped(t.res, instr.market, instr.steps);
    EstimateByParser(t.res, p.res, t.steps);
    PortfolioSnapshot(p.lim, p.res, p.account, instr.market, Estimate(p.res, t.steps));
  }

  // ---------- what is said to the exchange ----------

  /** The calls and results of every finished instruction are those of the executor's run of
      its clamped, signed steps, under any exchange that would have replied as it did. */
  lemma CallsAreThoseOfSignedSteps(w: World, states: seq<State>, events: seq<Event>, i: nat, k: nat, exchange: Exchange)
    requires Run(w, states, events) && i < |states| && k < |states[i].transcripts|
    requires k < |states[i].started| - 1 || !states[i].worker.Running?
    requires Agrees(exchange, states[i].transcripts[k])
    ensures |states[i].started| == |states[i].transcripts|
    ensures var s, t := states[i], states[i].started[k];
      && Vetted(w, s, t)
      && var instr := s.arrivals[t.delivery].instr;
         && instr.signature != "" && w.isHex(instr.signature)
         && w.verifies(Canonical.CanonicalText(instr), instr.signature)
         && RunSteps(Clamp(t.res, instr.market, instr.steps), exchange, []) ==
             Trace(s.transcripts[k].calls, s.transcripts[k].results)
  {
    RunKeepsInv(w, states, events, i);
    assert ScriptAt(states[i], k);
    assert states[i].enqueued[k] == states[i].started[k];
  }

  /** And there is always such an exchange. */
  lemma ScriptsCanBeReplayed(w: World, states: seq<State>, events: seq<Event>, i: nat, k: nat)
    requires Run(w, states, events) && i < |states| && k < |states[i].started|
    ensures k < |states[i].transcripts| && Agrees(Replaying(states[i].transcripts[k].replies), states[i].transcripts[k])
  {
    RunKeepsInv(w, states, events, i);
    assert ScriptAt(states[i], k);
    ReplayingAgrees(states[i].transcripts[k]);
  }

  /** Different started instructions rest on different acceptances by the duplicate filter
      and on different admissions by the rate limiter. */
  lemma PassesAreNotShared(w: World, states: seq<State>, events: seq<Event>, i: nat, k: nat, l: nat)
    requires Run(w, states, events) && i < |states| && k < l < |states[i].started|
    ensures states[i].started[k].slot < states[i].started[l].slot
    ensures states[i].started[k].admission < states[i].started[l].admission
  {
    RunKeepsInv(w, states, events, i);
    assert states[i].enqueued[k] == states[i].started[k] && states[i].enqueued[l] == states[i].started[l];
  }

  // ---------- rate and pause ----------

  /** In no closed window of one minute do more than rate + 17 instructions start. */
  lemma ExecutionRateBound(w: World, states: seq<State>, events: seq<Event>, i: nat, t: int)
    requires Run(w, states, events) && i < |states|
    ensures |states[i].stamps| == |states[i].started|
    ensures var stamps := states[i].stamps;
            |set k | 0 <= k < |stamps| && t <= stamps[k].at <= t + 60_000_000_000| <= w.ratePerMinute + 17
  {
    RunKeepsInv(w, states, events, i);
    StartRateBound(w, states[i], t);
    StartsCounted(states[i].stamps, t);
  }

  /** While the client stays paused at most 17 instructions start: the 16 that may be queued
      and one the reader had already let past its pause check. When the server pauses, the
      reader holds none, and it is 16. */
  lemma PauseDrainBound(w: World, states: seq<State>, events: seq<Event>, i: nat, j: nat)
    requires Run(w, states, events) && i <= j < |states|
    requires forall k :: i <= k < j ==> states[k].paused
    ensures |states[j].started| - |states[i].started| <= 17
    ensures i > 0 && events[i - 1].ServerPause? ==> |states[j].started| - |states[i].started| <= 16
  {
    RunKeepsInv(w, states, events, i);
    PauseDrains(w, states, events, i, j);
    if i > 0 && events[i - 1].ServerPause? {
      assert StepAt(w, states, events, i - 1);
    }
  }

  /** A client found paused was paused by the server or by a breaker trip. */
  lemma {:induction false} PauseHasOrigin(w: World, states: seq<State>, events: seq<Event>, i: nat)
    requires Run(w, states, events) && i < |states| && states[i].paused
    requires forall k :: 0 <= k < i ==> events[k] != ServerPause(true)
    ensures states[i].autoPauses > 0
  {
    var s, e, s' := states[i - 1], events[i - 1], states[i];
    assert StepAt(w, states, events, i - 1);
    PausedOrigin(w, s, e, s');
    if s.paused { PauseHasOrigin(w, states, events, i - 1); }
  }

  lemma PausedOrigin(w: World, s: State, e: Event, s': State)
    requires Step(w, s, e, s') && s'.paused && e != ServerPause(true)
    ensures s'.autoPauses >= s.autoPauses && (s'.autoPauses > s.autoPauses || s.paused)
  {}

  // ---------- why the breaker trips ----------

  /** The worker executes a place_order step. */
  ghost predicate PlacesNext(s: State, e: Event) {
    e.Execute? && s.worker.Running? && s.worker.done < |s.worker.ticket.steps| && NextStep(s).action == PLACE_ORDER
  }

  /** Which of the place_order steps executed before state i succeeded, in order. */
  ghost function OrderLog(states: seq<State>, events: seq<Event>, i: nat): seq<bool>
    requires i <= |events| < |states|
  {
    if i == 0 then []
    else
      var s, e, before := states[i - 1], events[i - 1], OrderLog(states, events, i - 1);
      if PlacesNext(s, e) then before + [ResultFor(NextStep(s), e.reply).success] else before
  }

  lemma StepLogsOrders(w: World, s: State, e: Event, s': State)
    requires Step(w, s, e, s')
    ensures Successes(s'.outcomes) ==
            Successes(s.outcomes) + if PlacesNext(s, e) then [ResultFor(NextStep(s), e.reply).success] else []
  {
    if PlacesNext(s, e) {
      var o := OutcomeOf(w, s, ResultFor(NextStep(s), e.reply).success);
      assert (s.outcomes + [o])[..|s.outcomes|] == s.outcomes;
    }
  }

  lemma {:induction false} SuccessesAt(h: seq<CircuitBreaker.Outcome>)
    ensures |Successes(h)| == |h| && forall k :: 0 <= k < |h| ==> Successes(h)[k] == h[k].Success?
  {
    if h != [] { SuccessesAt(h[..|h| - 1]); }
  }

  /** What the breaker has recorded are the place_order steps executed so far, in order. */
  lemma {:induction false} OutcomesAreOrders(w: World, states: seq<State>, events: seq<Event>, i: nat)
    requires Run(w, states, events) && i < |states|
    ensures Successes(states[i].outcomes) == OrderLog(states, events, i)
  {
    if i > 0 {
      OutcomesAreOrders(w, states, events, i - 1);
      assert StepAt(w, states, events, i - 1);
      StepLogsOrders(w, states[i - 1], events[i - 1], states[i]);
    }
  }

  /** Automatic pauses have trips of their own, and every trip follows at least
      maxConsecutive failed place_order steps in a row; trips are at least the cooldown
      apart. */
  lemma AutoPausesHaveCause(w: World, states: seq<State>, events: seq<Event>, i: nat, j: nat) returns (first: nat)
    requires Run(w, states, events) && i < |states|
    requires j < |states[i].outcomes| && CircuitBreaker.IsTrip(states[i].outcomes[j])
    ensures var h, log := states[i].outcomes, OrderLog(states, events, i);
      && states[i].autoPauses <= TripCount(h)
      && first <= j < |log| && j + 1 - first >= w.maxConsecutive > 0
      && (forall k :: first <= k <= j ==> !log[k] && (CircuitBreaker.IsTrip(h[k]) <==> k == j))
      && forall k :: 0 <= k < j && CircuitBreaker.IsTrip(h[k]) ==> h[j].at >= h[k].stampedAt + w.cooldown
  {
    RunKeepsInv(w, states, events, i);
    OutcomesAreOrders(w, states, events, i);
    first := CausedTrip(w, states[i], j);
    SuccessesAt(states[i].outcomes);
  }

  lemma CausedTrip(w: World, s: State, j: nat) returns (first: nat)
    requires Guarded(w, s) && w.cooldown > 0 && j < |s.outcomes| && CircuitBreaker.IsTrip(s.outcomes[j])
    ensures first <= j && j + 1 - first >= w.maxConsecutive > 0
    ensures forall k :: first <= k <= j ==> s.outcomes[k].Failure? && (s.outcomes[k].tripped <==> k == j)
    ensures forall k :: 0 <= k < j && CircuitBreaker.IsTrip(s.outcomes[k]) ==>
      s.outcomes[j].at >= s.outcomes[k].stampedAt + w.cooldown
  {
    var h := s.outcomes;
    first := CircuitBreaker.TripHasCause(w.maxConsecutive, w.cooldown, h, j);
    forall k | 0 <= k < j && CircuitBreaker.IsTrip(h[k]) ensures h[j].at >= h[k].stampedAt + w.cooldown {
      CircuitBreaker.TripsAreApart(w.maxConsecutive, w.cooldown, h, k, j);
    }
  }
}
