/** What the guards let through: the guards keep their histories through every step, and
    every queued or started instruction has passed each of them. */
module Vetting {
  import opened Instructions
  import opened Validator
  import opened Limits
  import opened Executor
  import opened Pipeline
  import opened Conservation
  import CircuitBreaker
  import Dedup
  import SlidingWindow

  // ---------- the guards against their histories ----------

  /** The flag is what it was last set to, and was down before that. */
  predicate FlagLogged(paused: bool, flags: seq<bool>) {
    paused == if flags == [] then false else flags[|flags| - 1]
  }

  ghost predicate Guarded(w: World, s: State) {
    && SlidingWindow.LimiterHistory(w.ratePerMinute, s.admitted, s.clock)
    && Dedup.Consistent(MAX_SEEN, TTL, s.seen, s.accepted, s.clock)
    && FlagLogged(s.paused, s.flags)
    && CircuitBreaker.History(w.maxConsecutive, w.cooldown, s.outcomes)
    && s.pendingTrips + s.autoPauses == TripCount(s.outcomes)
  }

  lemma TickKeepsGuarded(w: World, s: State, to: int)
    requires Guarded(w, s) && s.clock <= to
    ensures Guarded(w, s.(clock := to))
  {
    SlidingWindow.AdmissionKeepsHistory(w.ratePerMinute, s.admitted, s.clock, to);
    Dedup.ConsistentLater(MAX_SEEN, TTL, s.seen, s.accepted, s.clock, to);
  }

  lemma OutcomeKeepsHistory(w: World, s: State, step: ExecutionStep, ok: bool)
    requires CircuitBreaker.History(w.maxConsecutive, w.cooldown, s.outcomes)
    ensures CircuitBreaker.History(w.maxConsecutive, w.cooldown, Outcomes(w, s, step, ok))
    ensures TripCount(Outcomes(w, s, step, ok)) == TripCount(s.outcomes) + NewTrips(w, s, step, ok)
  {
    var o := OutcomeOf(w, s, ok);
    CircuitBreaker.HistoryAppend(w.maxConsecutive, w.cooldown, s.outcomes, o);
    assert (s.outcomes + [o])[..|s.outcomes|] == s.outcomes;
  }

  lemma DedupKeepsGuarded(w: World, s: State, e: Event, s': State)
    requires Guarded(w, s) && e.CheckDedup? && ReaderStep(w, s, e, s')
    ensures Guarded(w, s')
  {
    Dedup.CheckKeepsConsistent(MAX_SEEN, TTL, s.seen, s.accepted, s.clock, Newest(s).instr.id, s.clock, e.seen,
                               e.isNew);
  }

  lemma ReaderKeepsGuarded(w: World, s: State, e: Event, s': State)
    requires Guarded(w, s) && ReaderStep(w, s, e, s')
    ensures Guarded(w, s')
  {
    if e.CheckDedup? {
      DedupKeepsGuarded(w, s, e, s');
    } else {
      SlidingWindow.AdmissionKeepsHistory(w.ratePerMinute, s.admitted, s.clock, s.clock);
    }
  }

  lemma ExecuteKeepsGuarded(w: World, s: State, reply: Reply, s': State)
    requires Guarded(w, s) && WorkerStep(w, s, Execute(reply), s')
    ensures Guarded(w, s')
  {
    OutcomeKeepsHistory(w, s, NextStep(s), ResultFor(NextStep(s), reply).success);
  }

  lemma StepKeepsGuarded(w: World, s: State, e: Event, s': State)
    requires Guarded(w, s) && Step(w, s, e, s')
    ensures Guarded(w, s')
  {
    match e
    case Tick(to) => TickKeepsGuarded(w, s, to);
    case Execute(reply) => ExecuteKeepsGuarded(w, s, reply, s');
    case Take | Arrive(_) | TripCallback | ServerPause(_) | Stop =>
    case _ => ReaderKeepsGuarded(w, s, e, s');
  }

  // ---------- what a ticket vouches for ----------

  /** The pause flag was down when it had been set this often. */
  predicate Unpaused(flags: seq<bool>, flag: nat) {
    flag <= |flags| && (flag > 0 ==> !flags[flag - 1])
  }

  /** A ticket's delivery was accepted as new, then found the client not paused, fresh no
      earlier than accepted, signed, admitted by the limiter no earlier than fresh, within
      limits, and clamped. */
  ghost predicate Screened(w: World, s: State, t: Ticket) {
    && t.delivery < |s.arrivals| && t.slot < |s.accepted| && t.admission < |s.admitted|
    && var m := s.arrivals[t.delivery];
       && s.accepted[t.slot].id == m.instr.id
       && Unpaused(s.flags, t.flag)
       && s.accepted[t.slot].at <= t.freshAt <= s.admitted[t.admission]
       && Fresh(m.timestamp, t.freshAt)
       && Signed(w, m.instr)
       && t.res.parse == w.parse && Accepts(t.lim, t.res, m.instr.steps)
       && t.steps == Clamp(t.res, m.instr.market, m.instr.steps)
  }

  /** And the steps passed the portfolio check: a positive estimate was held against the
      exposure and position limits. */
  ghost predicate Vetted(w: World, s: State, t: Ticket) {
    && Screened(w, s, t) && t.portfolio.CheckedAgainst? && t.portfolio.res.parse == w.parse
    && PortfolioPasses(t.portfolio.lim, t.portfolio.res, t.portfolio.account, s.arrivals[t.delivery].instr.market,
                       t.steps)
  }

  /** Acceptances below this index do not belong to the delivery the reader holds. */
  function SlotBound(s: State): int {
    if s.reader.Idle? || s.reader.AtDedup? then |s.accepted| else |s.accepted| - 1
  }

  function AdmissionBound(s: State): int { |s.admitted| - PastRate(s) }

  /** No two tickets rest on the same acceptance or the same admission. */
  ghost predicate OwnPasses(ts: seq<Ticket>) {
    forall i, j :: 0 <= i < j < |ts| ==> ts[i].slot < ts[j].slot && ts[i].admission < ts[j].admission
  }

  /** Vetted tickets, each on acceptances and admissions of its own below the bounds. */
  ghost predicate TicketsVetted(w: World, s: State, ts: seq<Ticket>, slots: int, admissions: int) {
    && OwnPasses(ts)
    && forall k :: 0 <= k < |ts| ==> Vetted(w, s, ts[k]) && ts[k].slot < slots && ts[k].admission < admissions
  }

  ghost predicate QueueVetted(w: World, s: State) {
    TicketsVetted(w, s, s.enqueued, SlotBound(s), AdmissionBound(s))
  }

  /** The newest delivery is the one last accepted as new. */
  ghost predicate IsNewest(s: State) {
    s.arrivals != [] && s.accepted != [] && s.accepted[|s.accepted| - 1].id == Newest(s).instr.id
  }

  ghost predicate Timely(s: State, flag: nat, freshAt: int) {
    && IsNewest(s) && Unpaused(s.flags, flag)
    && s.accepted[|s.accepted| - 1].at <= freshAt <= s.clock && Fresh(Newest(s).timestamp, freshAt)
  }

  /** The ticket is that of the newest delivery, acceptance and admission. */
  predicate NewestTicket(s: State, t: Ticket) {
    t.delivery == |s.arrivals| - 1 && t.slot == |s.accepted| - 1 && t.admission == |s.admitted| - 1
  }

  /** What the checks made so far say about the delivery the reader holds. */
  ghost predicate ReaderVetted(w: World, s: State) {
    match s.reader
    case Idle | AtDedup => true
    case AtPause => IsNewest(s)
    case AtTimestamp(flag) => IsNewest(s) && Unpaused(s.flags, flag)
    case AtSignature(flag, freshAt) => Timely(s, flag, freshAt)
    case AtRate(flag, freshAt) => Timely(s, flag, freshAt) && Signed(w, Newest(s).instr)
    case AtRisk(flag, freshAt) =>
      && Timely(s, flag, freshAt) && Signed(w, Newest(s).instr)
      && s.admitted != [] && freshAt <= s.admitted[|s.admitted| - 1]
    case AtPortfolio(t) => Screened(w, s, t) && NewestTicket(s, t)
    case AtQueue(t) => Vetted(w, s, t) && NewestTicket(s, t)
  }

  ghost predicate AllVetted(w: World, s: State) {
    QueueVetted(w, s) && ReaderVetted(w, s)
  }

  ghost predicate HistoriesGrow(s: State, s': State) {
    s.arrivals <= s'.arrivals && s.accepted <= s'.accepted && s.flags <= s'.flags && s.admitted <= s'.admitted
  }

  lemma StaysVetted(w: World, s: State, s': State, t: Ticket)
    requires Screened(w, s, t) && HistoriesGrow(s, s')
    ensures Screened(w, s', t) && (Vetted(w, s, t) ==> Vetted(w, s', t))
  {}

  lemma TicketsStayVetted(w: World, s: State, s': State, ts: seq<Ticket>, slots: int, admissions: int)
    requires TicketsVetted(w, s, ts, slots, admissions) && HistoriesGrow(s, s')
    ensures TicketsVetted(w, s', ts, slots, admissions)
  {
    forall k | 0 <= k < |ts| ensures Vetted(w, s', ts[k]) { StaysVetted(w, s, s', ts[k]); }
  }

  lemma TicketAppended(w: World, s: State, ts: seq<Ticket>, t: Ticket)
    requires TicketsVetted(w, s, ts, t.slot, t.admission) && Vetted(w, s, t)
    ensures TicketsVetted(w, s, ts + [t], t.slot + 1, t.admission + 1)
  {}

  lemma DedupKeepsReaderVetted(w: World, s: State, e: Event, s': State)
    requires s.reader.AtDedup? && ReaderStep(w, s, e, s') && Advances(s, s')
    ensures ReaderVetted(w, s') && HistoriesGrow(s, s') && SlotBound(s) == SlotBound(s')
        && AdmissionBound(s) == AdmissionBound(s')
  {}

  lemma SignatureKeepsReaderVetted(w: World, s: State, e: Event, s': State)
    requires s.reader.AtPause? || s.reader.AtTimestamp? || s.reader.AtSignature?
    requires FlagLogged(s.paused, s.flags) && Dedup.Chronological(s.accepted, s.clock)
    requires ReaderVetted(w, s) && ReaderStep(w, s, e, s') && Advances(s, s')
    ensures ReaderVetted(w, s') && HistoriesGrow(s, s') && SlotBound(s) == SlotBound(s')
        && AdmissionBound(s) == AdmissionBound(s')
  {}

  lemma RateKeepsReaderVetted(w: World, s: State, e: Event, s': State)
    requires s.reader.AtRate? && ReaderVetted(w, s) && ReaderStep(w, s, e, s') && Advances(s, s')
    ensures ReaderVetted(w, s') && HistoriesGrow(s, s') && SlotBound(s) == SlotBound(s')
        && AdmissionBound(s) == AdmissionBound(s')
  {}

  lemma RiskKeepsReaderVetted(w: World, s: State, e: Event, s': State)
    requires s.reader.AtRisk? && ReaderVetted(w, s) && ReaderStep(w, s, e, s') && Advances(s, s')
    ensures ReaderVetted(w, s') && HistoriesGrow(s, s') && SlotBound(s) == SlotBound(s')
        && AdmissionBound(s) == AdmissionBound(s')
  {
    var t := s'.reader.ticket;
    assert NewestTicket(s, t) && Screened(w, s, t);
    StaysVetted(w, s, s', t);
  }

  lemma PortfolioKeepsReaderVetted(w: World, s: State, e: Event, s': State)
    requires s.reader.AtPortfolio? || s.reader.AtQueue?
    requires ReaderVetted(w, s) && ReaderStep(w, s, e, s') && Advances(s, s')
    ensures ReaderVetted(w, s') && HistoriesGrow(s, s') && SlotBound(s) == SlotBound(s')
        && AdmissionBound(s) == AdmissionBound(s')
  {
    var t := s'.reader.ticket;
    assert NewestTicket(s, t) && Vetted(w, s, t);
    StaysVetted(w, s, s', t);
  }

  lemma AdvanceKeepsVetted(w: World, s: State, e: Event, s': State)
    requires Guarded(w, s)
    requires AllVetted(w, s) && ReaderStep(w, s, e, s') && Advances(s, s')
    ensures AllVetted(w, s')
  {
    match s.reader {
      case AtDedup => DedupKeepsReaderVetted(w, s, e, s');
      case AtRate(_, _) => RateKeepsReaderVetted(w, s, e, s');
      case AtRisk(_, _) => RiskKeepsReaderVetted(w, s, e, s');
      case AtPause | AtTimestamp(_) | AtSignature(_, _) => SignatureKeepsReaderVetted(w, s, e, s');
      case _ => PortfolioKeepsReaderVetted(w, s, e, s');
    }
    TicketsStayVetted(w, s, s', s.enqueued, SlotBound(s), AdmissionBound(s));
  }

  lemma LeaveKeepsVetted(w: World, s: State)
    requires AllVetted(w, s) && s.fates != []
    ensures AllVetted(w, Drop(s)) && AllVetted(w, Reject(s))
  {
    TicketsStayVetted(w, s, Drop(s), s.enqueued, SlotBound(s), AdmissionBound(s));
    TicketsStayVetted(w, s, Reject(s), s.enqueued, SlotBound(s), AdmissionBound(s));
  }

  lemma PutKeepsVetted(w: World, s: State)
    requires AllVetted(w, s) && s.reader.AtQueue? && s.fates != []
    ensures AllVetted(w, Put(s))
  {
    var t, s' := s.reader.ticket, Put(s);
    assert t.slot == SlotBound(s) && t.admission == AdmissionBound(s);
    TicketAppended(w, s, s.enqueued, t);
    assert SlotBound(s') == t.slot + 1 && AdmissionBound(s') == t.admission + 1;
    TicketsStayVetted(w, s, s', s'.enqueued, SlotBound(s'), AdmissionBound(s'));
  }

  lemma ReaderKeepsVetted(w: World, s: State, e: Event, s': State)
    requires Guarded(w, s) && AllVetted(w, s) && ReaderStep(w, s, e, s')
    ensures AllVetted(w, s')
  {
    ReaderStepKinds(w, s, e, s');
    if Advances(s, s') {
      AdvanceKeepsVetted(w, s, e, s');
    } else if s' == Drop(s) || s' == Reject(s) {
      LeaveKeepsVetted(w, s);
    } else {
      PutKeepsVetted(w, s);
    }
  }

  /** The clock moving on, or a new arrival: the reader has found out nothing new. */
  lemma IdleKeepsVetted(w: World, s: State, e: Event, s': State)
    requires AllVetted(w, s) && (e.Tick? || e.Arrive?) && Step(w, s, e, s')
    ensures AllVetted(w, s')
  {
    TicketsStayVetted(w, s, s', s.enqueued, SlotBound(s), AdmissionBound(s));
    if e.Tick? { TickKeepsReaderVetted(w, s, e.to); }
  }

  lemma TickKeepsReaderVetted(w: World, s: State, to: int)
    requires ReaderVetted(w, s) && s.clock <= to
    ensures ReaderVetted(w, s.(clock := to))
  {
    if s.reader.AtPortfolio? || s.reader.AtQueue? { StaysVetted(w, s, s.(clock := to), s.reader.ticket); }
  }

  /** The worker, and whoever pauses, leave the reader and the histories of its guards alone. */
  ghost predicate LeavesReader(s: State, s': State) {
    && s'.reader == s.reader && s'.clock == s.clock && s'.arrivals == s.arrivals && s'.accepted == s.accepted
    && s'.admitted == s.admitted && s'.enqueued == s.enqueued && s.flags <= s'.flags
  }

  lemma OthersLeaveReader(w: World, s: State, e: Event, s': State)
    requires Step(w, s, e, s') && (e.Take? || e.Execute? || e.Stop? || e.TripCallback? || e.ServerPause?)
    ensures LeavesReader(s, s')
  {}

  lemma ReaderStaysVetted(w: World, s: State, s': State)
    requires ReaderVetted(w, s) && LeavesReader(s, s')
    ensures ReaderVetted(w, s')
  {
    if s.reader.AtPortfolio? || s.reader.AtQueue? { StaysVetted(w, s, s', s.reader.ticket); }
  }

  lemma WorkerKeepsVetted(w: World, s: State, s': State)
    requires AllVetted(w, s) && LeavesReader(s, s')
    ensures AllVetted(w, s')
  {
    TicketsStayVetted(w, s, s', s.enqueued, SlotBound(s), AdmissionBound(s));
    ReaderStaysVetted(w, s, s');
  }

  lemma StepKeepsVetted(w: World, s: State, e: Event, s': State)
    requires Guarded(w, s) && AllVetted(w, s) && Step(w, s, e, s')
    ensures AllVetted(w, s')
  {
    if e.Tick? || e.Arrive? {
      IdleKeepsVetted(w, s, e, s');
    } else if e.Take? || e.Execute? || e.Stop? || e.TripCallback? || e.ServerPause? {
      OthersLeaveReader(w, s, e, s');
      WorkerKeepsVetted(w, s, s');
    } else {
      ReaderKeepsVetted(w, s, e, s');
    }
  }

  // ---------- what runs ----------

  /** Whenever the worker executes a step, it is a step of a delivery that passed every check,
      changed at most by lowering its leverage, which respects both the configured and the
      exchange's maximum. */
  lemma ExecutesOnlySignedSteps(w: World, s: State, reply: Reply, s': State)
    requires Fifo(s) && AllVetted(w, s) && Step(w, s, Execute(reply), s')
    ensures var t := s.worker.ticket;
      && Vetted(w, s, t) && s.worker.done < |s.arrivals[t.delivery].instr.steps|
      && var m, step := s.arrivals[t.delivery], NextStep(s);
         && LoweredOnly(m.instr.steps[s.worker.done], step)
         && (step.action == UPDATE_LEVERAGE ==>
               && step.leverage <= t.lim.maxLeverage
               && match ExchangeMax(t.res, m.instr.market)
                  case Some(max) => step.leverage == Min(m.instr.steps[s.worker.done].leverage, max)
                  case None => step == m.instr.steps[s.worker.done])
  {
    PositionsInQueue(s);
    var t := s.worker.ticket;
    var m := s.arrivals[t.delivery];
    ClampIsSafe(t.lim, t.res, m.instr.market, m.instr.steps, s.worker.done);
  }
}
