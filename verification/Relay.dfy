/** The relay client's reader as code: every call appends to a trace that is a run of the
    pipeline, so the theorems about runs hold of the object. */
module Relay {
  import opened Instructions
  import opened Validator
  import opened Limits
  import opened Pipeline
  import opened Path
  import Canonical
  import Dedup
  import Floats
  import SlidingWindow

  /** The readings of the clock while one message is handled. */
  datatype Readings = Readings(atDedup: int, atAge: int, atSignature: int, atRate: int) {
    predicate Ordered(since: int) { since <= atDedup <= atAge <= atSignature <= atRate }
  }

  /** What the queue holds: the instructions of the queued tickets, their steps clamped. */
  ghost predicate QueueMatches(queue: seq<Instruction>, tickets: seq<Ticket>, arrivals: seq<Message>) {
    && |queue| == |tickets|
    && forall k :: 0 <= k < |queue| ==>
         tickets[k].delivery < |arrivals| && queue[k] == arrivals[tickets[k].delivery].instr.(steps := tickets[k].steps)
  }

  /** The message has been received and s holds it. */
  ghost predicate Holds(before: State, m: Message, s: State) {
    && s.arrivals == before.arrivals + [m] && s.fates == before.fates + [InReader]
    && s.queue == before.queue && s.paused == before.paused && s.reader != Idle
    && (s.reader.AtDedup? || s.accepted != []) && (s.reader.AtRisk? ==> s.admitted != [])
  }

  /** The message is out of the reader's hands, with the given fate. */
  ghost predicate Settled(before: State, m: Message, s: State, fate: Fate) {
    && s.arrivals == before.arrivals + [m] && s.fates == before.fates + [fate]
    && s.paused == before.paused && s.reader == Idle
    && (fate != Queued ==> s.queue == before.queue)
  }

  /** What the signature check makes of an instruction; InReader when it passes. */
  ghost function SignatureFate(w: World, instr: Instruction): Fate {
    if instr.signature == "" then Rejected
    else if !w.isHex(instr.signature) then Dropped
    else if !Signed(w, instr) then Rejected
    else InReader
  }

  /** What becomes of a delivery given a check's fate for it: InReader goes on to the next. */
  function After(s: State, fate: Fate, next: Reader): State
    requires s.fates != []
  {
    if fate == InReader then s.(reader := next) else if fate == Dropped then Drop(s) else Reject(s)
  }

  function AfterDedup(s: State, id: string, isNew: bool, seen: Dedup.Seen): State
    requires s.fates != []
  {
    if isNew then s.(reader := AtPause, seen := seen, accepted := s.accepted + [Dedup.Acceptance(id, s.clock)])
    else Drop(s.(seen := seen))
  }

  lemma DedupSettles(w: World, before: State, m: Message, s: State, isNew: bool, seen: Dedup.Seen)
    requires Holds(before, m, s) && s.reader == AtDedup && |s.fates| == |s.arrivals|
    requires Dedup.CheckStep(MAX_SEEN, TTL, s.seen, m.instr.id, s.clock, seen, isNew)
    ensures Step(w, s, CheckDedup(isNew, seen), AfterDedup(s, m.instr.id, isNew, seen))
    ensures if isNew then Holds(before, m, AfterDedup(s, m.instr.id, isNew, seen))
            else Settled(before, m, AfterDedup(s, m.instr.id, isNew, seen), Dropped)
  {
    assert s.fates[|s.fates| - 1 := Dropped] == before.fates + [Dropped];
  }

  lemma SignatureStep(w: World, s: State)
    requires s.reader.AtSignature? && s.arrivals != [] && |s.fates| == |s.arrivals|
    ensures Step(w, s, CheckSignature,
                 After(s, SignatureFate(w, Newest(s).instr), AtRate(s.reader.flag, s.reader.freshAt)))
  {}

  lemma AfterSettles(before: State, m: Message, s: State, fate: Fate, next: Reader)
    requires Holds(before, m, s) && !s.reader.AtDedup? && (fate == InReader || fate == Dropped || fate == Rejected)
    ensures if fate != InReader then Settled(before, m, After(s, fate, next), fate)
            else next != Idle && !next.AtDedup? && !next.AtRisk? ==> Holds(before, m, After(s, fate, next))
  {
    assert s.fates[|s.fates| - 1 := fate] == before.fates + [fate];
  }

  /** The reader holds a ticket for the message with these steps. */
  ghost predicate Vouches(s: State, m: Message, steps: seq<ExecutionStep>) {
    && (s.reader.AtPortfolio? || s.reader.AtQueue?)
    && s.reader.ticket.delivery == |s.arrivals| - 1 && s.reader.ticket.steps == steps
  }

  lemma RiskStep(w: World, s: State, lim: RiskLimits, res: Resolver, next: Reader)
    requires s.reader.AtRisk? && s.arrivals != [] && |s.fates| == |s.arrivals| && s.accepted != [] && s.admitted != []
    requires res.parse == w.parse
    requires next == AtPortfolio(NewTicket(s, Newest(s), lim, res))
    ensures Step(w, s, CheckRisk(lim, res),
                 After(s, if Accepts(lim, res, Newest(s).instr.steps) then InReader else Rejected, next))
  {}

  function AfterOffer(s: State, ok: bool): State
    requires s.reader.AtQueue? && s.fates != []
  {
    if ok then Put(s) else Reject(s)
  }

  lemma OfferSettles(w: World, before: State, m: Message, s: State, ok: bool)
    requires Holds(before, m, s) && s.reader.AtQueue? && |s.fates| == |s.arrivals| && ok == (|s.queue| < QUEUE_CAPACITY)
    ensures Step(w, s, Enqueue, AfterOffer(s, ok))
    ensures Settled(before, m, AfterOffer(s, ok), if ok then Queued else Rejected)
  {
    assert forall f :: s.fates[|s.fates| - 1 := f] == before.fates + [f];
  }

  lemma QueueGrows(queue: seq<Instruction>, tickets: seq<Ticket>, arrivals: seq<Message>, m: Message, t: Ticket)
    requires QueueMatches(queue, tickets, arrivals) && t.delivery < |arrivals| && arrivals[t.delivery] == m
    ensures QueueMatches(queue + [m.instr.(steps := t.steps)], tickets + [t], arrivals)
  {}

  function AfterRate(s: State, ok: bool): State
    requires s.reader.AtRate? && s.fates != []
  {
    if ok then AtRiskCheck(s, s.reader.flag, s.reader.freshAt) else Reject(s)
  }

  lemma RateStep(w: World, s: State)
    requires s.reader.AtRate? && s.arrivals != [] && |s.fates| == |s.arrivals|
    ensures Step(w, s, CheckRate, AfterRate(s, SlidingWindow.Admits(w.ratePerMinute, s.admitted, s.clock)))
  {}

  lemma RateSettles(before: State, m: Message, s: State, ok: bool)
    requires Holds(before, m, s) && s.reader.AtRate?
    ensures if ok then Holds(before, m, AfterRate(s, ok)) else Settled(before, m, AfterRate(s, ok), Rejected)
  {
    AfterSettles(before, m, s, Rejected, Idle);
  }

  /** Whether this failure is the fifth within a minute. */
  predicate Disconnects(failures: seq<int>, now: int) {
    |SlidingWindow.Recent(failures, now - SlidingWindow.MINUTE)| == SlidingWindow.SIG_FAILURE_THRESHOLD - 1
  }

  /** Whether the validator and the portfolio check let an instruction pass. */
  predicate WithinLimits(instr: Instruction, lim: RiskLimits, res: Resolver, account: Option<AccountState>) {
    Accepts(lim, res, instr.steps)
        && PortfolioPasses(lim, res, account, instr.market, Clamp(res, instr.market, instr.steps))
  }

  /** Whether the limiter and the limits let a message pass. */
  predicate Admitted(w: World, admitted: seq<int>, m: Message, now: int, lim: RiskLimits, res: Resolver,
                     account: Option<AccountState>) {
    SlidingWindow.Admits(w.ratePerMinute, admitted, now) && WithinLimits(m.instr, lim, res, account)
  }

  /** Whether a message comes as far as the signature check, and fails it. */
  ghost predicate FailsSignature(w: World, s: State, m: Message, r: Readings) {
    && !Dedup.Duplicate(s.seen, TTL, m.instr.id, r.atDedup) && !s.paused && Fresh(m.timestamp, r.atAge)
    && SignatureFate(w, m.instr) != InReader
  }

  /** What the checks before the limiter make of it; InReader when it passes them. */
  ghost function Screened(w: World, s: State, m: Message, r: Readings): Fate {
    if Dedup.Duplicate(s.seen, TTL, m.instr.id, r.atDedup) || s.paused || !Fresh(m.timestamp, r.atAge) then Dropped
    else SignatureFate(w, m.instr)
  }

  /** What becomes of a message that arrives in state s. */
  ghost function Judge(w: World, s: State, m: Message, r: Readings, lim: RiskLimits, res: Resolver,
                       account: Option<AccountState>): Fate {
    if Screened(w, s, m, r) != InReader then Screened(w, s, m, r)
    else if !Admitted(w, s.admitted, m, r.atRate, lim, res, account) || |s.queue| >= QUEUE_CAPACITY then Rejected
    else Queued
  }

  /** A message is queued if and only if it passes every check, each against what it reads:
      its id is not live, the client not paused, the timestamp fresh, the signature a
      verifying one over the canonical text, the minute before not full, the instruction and
      its estimate within limits, and a slot of the queue free. */
  lemma JudgeQueues(w: World, s: State, m: Message, r: Readings, lim: RiskLimits, res: Resolver,
                    account: Option<AccountState>)
    requires SlidingWindow.AllUpTo(s.admitted, r.atRate)
    ensures Judge(w, s, m, r, lim, res, account) == Queued <==>
      && !(m.instr.id in s.seen && r.atDedup - s.seen[m.instr.id] < 300_000_000_000)
      && !s.paused
      && 0 < m.timestamp && m.timestamp - 10_000 <= r.atAge / 1_000_000 <= m.timestamp + 60_000
      && m.instr.signature != "" && w.isHex(m.instr.signature)
      && w.verifies(Canonical.CanonicalText(m.instr), m.instr.signature)
      && |set i | 0 <= i < |s.admitted| && r.atRate - 60_000_000_000 <= s.admitted[i] <= r.atRate| < w.ratePerMinute
      && Accepts(lim, res, m.instr.steps)
      && (Floats.Gt(Estimate(res, m.instr.steps), Floats.Fin(0.0)) ==>
            PortfolioError(lim, res, account, m.instr.market, Estimate(res, m.instr.steps)) == None)
      && |s.queue| < 16
  {
    SlidingWindow.RecentAreCounted(s.admitted, r.atRate - SlidingWindow.MINUTE, r.atRate);
    SlidingWindow.CountInCounts(s.admitted, r.atRate - SlidingWindow.MINUTE, r.atRate);
    EstimateOfClamped(res, m.instr.market, m.instr.steps);
  }

  /** And it is given up without an answer if and only if the filter, the pause flag or the
      clock stop it, or its signature cannot be decoded. */
  lemma JudgeDrops(w: World, s: State, m: Message, r: Readings, lim: RiskLimits, res: Resolver,
                   account: Option<AccountState>)
    ensures Judge(w, s, m, r, lim, res, account) == Dropped <==>
      || (m.instr.id in s.seen && r.atDedup - s.seen[m.instr.id] < 300_000_000_000)
      || s.paused
      || !(0 < m.timestamp && m.timestamp - 10_000 <= r.atAge / 1_000_000 <= m.timestamp + 60_000)
      || (m.instr.signature != "" && !w.isHex(m.instr.signature))
    ensures Judge(w, s, m, r, lim, res, account) in {Queued, Dropped, Rejected}
  {}

  class Client {
    const w: World
    const dedup: Dedup.InstructionDedup
    const limiter: SlidingWindow.RateLimiter
    const sigFailures: SlidingWindow.SigFailures
    const validator: RiskValidator
    var paused: bool
    var queue: seq<Instruction>
    ghost var states: seq<State>
    ghost var events: seq<Event>

    constructor (w: World, validator: RiskValidator, start: int)
      requires w.ratePerMinute == (if validator.limits.maxPerMinute <= 0 then 30 else validator.limits.maxPerMinute)
      requires w.cooldown > 0 && validator.resolver.parse == w.parse
      ensures Valid() && this.w == w && this.validator == validator && states == [StartAt(start)]
      ensures dedup.maxSize == 1000 && dedup.ttl == 300_000_000_000 && limiter.limit == w.ratePerMinute
      ensures !paused && queue == [] && dedup.seen == map[] && limiter.admitted == [] && sigFailures.sinceReset == []
    {
      this.w, this.validator := w, validator;
      dedup := new Dedup.InstructionDedup(MAX_SEEN, TTL, start);
      limiter := new SlidingWindow.RateLimiter(validator.limits.maxPerMinute, start);
      sigFailures := new SlidingWindow.SigFailures(start);
      paused, queue := false, [];
      states, events := [StartAt(start)], [];
    }

    /** The guards, the flag and the queue are those of the trace's last state. */
    ghost predicate Traced()
      reads this, dedup, limiter
    {
      && Run(w, states, events) && validator.resolver.parse == w.parse
      && dedup.Valid() && dedup.maxSize == MAX_SEEN && dedup.ttl == TTL
      && limiter.Valid() && limiter.limit == w.ratePerMinute
      && var s := Last(states);
         && dedup.seen == s.seen && dedup.lastCall <= s.clock
         && limiter.admitted == s.admitted && limiter.lastCall <= s.clock
         && paused == s.paused && |s.fates| == |s.arrivals|
         && QueueMatches(queue, s.queue, s.arrivals)
    }

    /** And the count of failed signatures is no further ahead. */
    ghost predicate Linked()
      reads this, dedup, limiter, sigFailures
    {
      Traced() && sigFailures.Valid() && sigFailures.lastCall <= Last(states).clock
    }

    /** Between two messages. */
    ghost predicate Valid()
      reads this, dedup, limiter, sigFailures
    {
      Linked() && Last(states).reader == Idle
    }

    /** Records one step of the pipeline. */
    ghost method Advance(e: Event, s': State)
      requires Run(w, states, events) && Step(w, Last(states), e, s')
      modifies this`states, this`events
      ensures Run(w, states, events) && Last(states) == s' && events == old(events) + [e] && old(states) <= states
    {
      states, events := Extend(w, states, events, e, s');
    }

    /** The clock moves on. */
    ghost method Wait(now: int)
      requires Linked() && Last(states).clock <= now
      modifies this`states, this`events
      ensures Linked() && old(states) <= states && Last(states) == old(Last(states)).(clock := now)
    {
      Advance(Tick(now), Last(states).(clock := now));
    }

    /** A new message, some time after the last event. */
    ghost method Receive(m: Message, now: int)
      requires Valid() && Last(states).clock <= now
      modifies this`states, this`events
      ensures Linked() && old(states) <= states && Last(states).clock == now
      ensures Holds(old(Last(states)), m, Last(states)) && Last(states).reader == AtDedup
    {
      Wait(now);
      var s := Last(states);
      Advance(Arrive(m), s.(reader := AtDedup, arrivals := s.arrivals + [m], fates := s.fates + [InReader]));
    }

    /** The duplicate filter. */
    method CheckNew(m: Message, now: int, ghost before: State) returns (isNew: bool)
      requires Linked() && Holds(before, m, Last(states)) && Last(states).reader == AtDedup && Last(states).clock == now
      modifies this`states, this`events, dedup
      ensures Linked() && old(states) <= states && Last(states).clock == now
      ensures isNew == !Dedup.Duplicate(old(dedup.seen), TTL, m.instr.id, now)
      ensures if isNew then Holds(before, m, Last(states)) && Last(states).reader == AtPause
              else Settled(before, m, Last(states), Dropped)
    {
      ghost var s := Last(states);
      isNew := dedup.Check(m.instr.id, now);
      DedupSettles(w, before, m, s, isNew, dedup.seen);
      Advance(CheckDedup(isNew, dedup.seen), AfterDedup(s, m.instr.id, isNew, dedup.seen));
    }

    /** The pause flag. */
    method CheckPaused(m: Message, ghost before: State) returns (go: bool)
      requires Linked() && Holds(before, m, Last(states)) && Last(states).reader == AtPause
      modifies this`states, this`events
      ensures Linked() && old(states) <= states && Last(states).clock == old(Last(states)).clock && go == !paused
      ensures if go then Holds(before, m, Last(states)) && Last(states).reader.AtTimestamp?
              else Settled(before, m, Last(states), Dropped)
    {
      go := !paused;
      ghost var s := Last(states);
      Advance(CheckPause, if go then s.(reader := AtTimestamp(|s.flags|)) else Drop(s));
    }

    /** The age check. */
    method CheckAge(m: Message, now: int, ghost before: State) returns (ok: bool)
      requires Linked() && Holds(before, m, Last(states)) && Last(states).reader.AtTimestamp?
          && Last(states).clock == now
      modifies this`states, this`events
      ensures Linked() && old(states) <= states && Last(states).clock == now && ok == Fresh(m.timestamp, now)
      ensures ok <==> 0 < m.timestamp && m.timestamp - 10_000 <= now / 1_000_000 <= m.timestamp + 60_000
      ensures if ok then Holds(before, m, Last(states)) && Last(states).reader.AtSignature?
              else Settled(before, m, Last(states), Dropped)
    {
      ghost var s := Last(states);
      ok := m.timestamp > 0;
      if ok {
        var age := now / MILLISECOND - m.timestamp;
        ok := !(age > MAX_AGE || age < -MAX_AHEAD);
      }
      Advance(CheckTimestamp, if ok then s.(reader := AtSignature(s.reader.flag, now)) else Drop(s));
    }

    method CheckTimely(m: Message, now: int, ghost before: State) returns (ok: bool)
      requires Linked() && Holds(before, m, Last(states)) && Last(states).reader.AtTimestamp?
          && Last(states).clock <= now
      modifies this`states, this`events
      ensures Linked() && old(states) <= states && Last(states).clock == now && ok == Fresh(m.timestamp, now)
      ensures if ok then Holds(before, m, Last(states)) && Last(states).reader.AtSignature?
              else Settled(before, m, Last(states), Dropped)
    {
      Wait(now);
      ok := CheckAge(m, now, before);
    }

    method VerifySignature(instr: Instruction) returns (fate: Fate)
      ensures fate == SignatureFate(w, instr)
      ensures fate == InReader <==>
        instr.signature != "" && w.isHex(instr.signature)
        && w.verifies(Canonical.CanonicalText(instr), instr.signature)
      ensures fate == Dropped <==> instr.signature != "" && !w.isHex(instr.signature)
      ensures fate == InReader || fate == Dropped || fate == Rejected
    {
      if instr.signature == "" { return Rejected; }
      if !w.isHex(instr.signature) { return Dropped; }
      var canonical := Canonical.InstructionCanonical(instr);
      return if w.verifies(canonical, instr.signature) then InReader else Rejected;
    }

    /** The signature check. */
    method CheckSignature(m: Message, ghost before: State) returns (fate: Fate)
      requires Linked() && Holds(before, m, Last(states)) && Last(states).reader.AtSignature?
      modifies this`states, this`events
      ensures Linked() && old(states) <= states && Last(states).clock == old(Last(states)).clock
          && fate == SignatureFate(w, m.instr)
      ensures fate == InReader ==> w.verifies(Canonical.CanonicalText(m.instr), m.instr.signature)
      ensures if fate == InReader then Holds(before, m, Last(states)) && Last(states).reader.AtRate?
              else Settled(before, m, Last(states), fate)
    {
      ghost var s := Last(states);
      fate := VerifySignature(m.instr);
      SignatureStep(w, s);
      AfterSettles(before, m, s, fate, AtRate(s.reader.flag, s.reader.freshAt));
      Advance(Event.CheckSignature, After(s, fate, AtRate(s.reader.flag, s.reader.freshAt)));
    }

    /** A failed signature check is counted; the fifth within a minute disconnects. */
    method RecordSigFailure(now: int) returns (disconnect: bool)
      requires Linked() && Last(states).clock == now
      modifies sigFailures
      ensures Linked()
      ensures disconnect <==> Disconnects(old(sigFailures.sinceReset), now)
      ensures var earlier := old(sigFailures.sinceReset);
        disconnect <==> |set i | 0 <= i < |earlier| && now - 60_000_000_000 <= earlier[i] <= now| == 4
    {
      SlidingWindow.LastMinuteCounted(sigFailures.sinceReset, now);
      disconnect := sigFailures.Record(now);
    }

    method CountedSignature(m: Message, now: int, ghost before: State) returns (fate: Fate, disconnect: bool)
      requires Linked() && Holds(before, m, Last(states)) && Last(states).reader.AtSignature?
          && Last(states).clock <= now
      modifies this`states, this`events, sigFailures
      ensures Linked() && old(states) <= states && Last(states).clock == now && fate == SignatureFate(w, m.instr)
      ensures if fate == InReader then Holds(before, m, Last(states)) && Last(states).reader.AtRate?
              else Settled(before, m, Last(states), fate)
      ensures disconnect <==> fate != InReader && Disconnects(old(sigFailures.sinceReset), now)
    {
      Wait(now);
      fate := CheckSignature(m, before);
      disconnect := false;
      if fate != InReader { disconnect := RecordSigFailure(now); }
    }

    /** The rate limiter. */
    method CheckRate(m: Message, now: int, ghost before: State) returns (ok: bool)
      requires Linked() && Holds(before, m, Last(states)) && Last(states).reader.AtRate? && Last(states).clock == now
      modifies this`states, this`events, limiter
      ensures Linked() && old(states) <= states && Last(states).clock == now
      ensures ok == SlidingWindow.Admits(w.ratePerMinute, old(limiter.admitted), now)
      ensures var earlier := old(limiter.admitted);
        ok <==> |set i | 0 <= i < |earlier| && now - 60_000_000_000 <= earlier[i] <= now| < w.ratePerMinute
      ensures if ok then Holds(before, m, Last(states)) && Last(states).reader.AtRisk?
              else Settled(before, m, Last(states), Rejected)
    {
      ghost var s := Last(states);
      SlidingWindow.LastMinuteCounted(limiter.admitted, now);
      ok := limiter.Allow(now);
      RateStep(w, s);
      RateSettles(before, m, s, ok);
      Advance(Event.CheckRate, AfterRate(s, ok));
    }

    /** The risk validator, which clamps the instruction's own steps in place. */
    method Validated(instr: Instruction) returns (ok: bool, steps: seq<ExecutionStep>)
      ensures ok == Accepts(validator.limits, validator.resolver, instr.steps)
      ensures ok ==> steps == Clamp(validator.resolver, instr.market, instr.steps)
    {
      var inPlace := new ExecutionStep[|instr.steps|](i requires 0 <= i < |instr.steps| => instr.steps[i]);
      assert inPlace[..] == instr.steps;
      var v := validator.Validate(instr.market, inPlace);
      return v == Pass, inPlace[..];
    }

    method CheckLimits(m: Message, ghost before: State) returns (ok: bool, steps: seq<ExecutionStep>)
      requires Linked() && Holds(before, m, Last(states)) && Last(states).reader.AtRisk?
      modifies this`states, this`events
      ensures Linked() && old(states) <= states && Last(states).clock == old(Last(states)).clock
      ensures ok == Accepts(validator.limits, validator.resolver, m.instr.steps)
      ensures ok ==> steps == Clamp(validator.resolver, m.instr.market, m.instr.steps)
      ensures if ok then Holds(before, m, Last(states)) && Last(states).reader.AtPortfolio?
          && Vouches(Last(states), m, steps)
              else Settled(before, m, Last(states), Rejected)
    {
      ok, steps := Validated(m.instr);
      ghost var s := Last(states);
      ghost var next := AtPortfolio(NewTicket(s, m, validator.limits, validator.resolver));
      RiskStep(w, s, validator.limits, validator.resolver, next);
      AfterSettles(before, m, s, if ok then InReader else Rejected, next);
      Advance(CheckRisk(validator.limits, validator.resolver), After(s, if ok then InReader else Rejected, next));
    }

    /** The notional estimate and, if it is positive, the portfolio check. */
    method PortfolioAllows(market: string, steps: seq<ExecutionStep>, account: Option<AccountState>) returns (ok: bool)
      ensures ok == PortfolioPasses(validator.limits, validator.resolver, account, market, steps)
      ensures var notional := Estimate(validator.resolver, steps);
        ok <==> (Floats.Gt(notional, Floats.Fin(0.0)) ==>
                   PortfolioError(validator.limits, validator.resolver, account, market, notional) == None)
    {
      var notional := EstimateInstructionNotional(validator.resolver, steps);
      if !Floats.Gt(notional, Floats.ZERO) { return true; }
      var err := validator.ValidatePortfolio(account, market, notional);
      return err == None;
    }

    method CheckPortfolio(m: Message, steps: seq<ExecutionStep>, account: Option<AccountState>, ghost before: State)
      returns (ok: bool)
      requires Linked() && Holds(before, m, Last(states)) && Last(states).reader.AtPortfolio?
          && Vouches(Last(states), m, steps)
      modifies this`states, this`events
      ensures Linked() && old(states) <= states && Last(states).clock == old(Last(states)).clock
      ensures ok == PortfolioPasses(validator.limits, validator.resolver, account, m.instr.market, steps)
      ensures if ok then Holds(before, m, Last(states)) && Last(states).reader.AtQueue?
          && Vouches(Last(states), m, steps)
              else Settled(before, m, Last(states), Rejected)
    {
      ghost var s := Last(states);
      ok := PortfolioAllows(m.instr.market, steps, account);
      ghost var checked := CheckedAgainst(validator.limits, validator.resolver, account);
      ghost var next := AtQueue(s.reader.ticket.(portfolio := checked));
      AfterSettles(before, m, s, if ok then InReader else Rejected, next);
      Advance(Event.CheckPortfolio(validator.limits, validator.resolver, account),
              After(s, if ok then InReader else Rejected, next));
    }

    /** The put that does not wait: a full queue rejects. */
    method Offer(m: Message, steps: seq<ExecutionStep>, ghost before: State) returns (ok: bool)
      requires Linked() && Holds(before, m, Last(states)) && Last(states).reader.AtQueue?
          && Vouches(Last(states), m, steps)
      modifies this`states, this`events, this`queue
      ensures Valid() && old(states) <= states && ok == (|old(queue)| < QUEUE_CAPACITY) == (|old(queue)| < 16)
      ensures queue == if ok then old(queue) + [m.instr.(steps := steps)] else old(queue)
      ensures Settled(before, m, Last(states), if ok then Queued else Rejected)
    {
      ghost var s := Last(states);
      ok := |queue| < QUEUE_CAPACITY;
      OfferSettles(w, before, m, s, ok);
      if ok {
        QueueGrows(queue, s.queue, s.arrivals, m, s.reader.ticket);
        queue := queue + [m.instr.(steps := steps)];
      }
      Advance(Enqueue, AfterOffer(s, ok));
    }

    /** The duplicate filter and the pause flag. */
    method ScreenArrival(m: Message, r: Readings) returns (go: bool)
      requires Valid() && r.Ordered(Last(states).clock)
      modifies this`states, this`events, dedup
      ensures Linked() && old(states) <= states && Last(states).clock == r.atDedup
      ensures go == !(Dedup.Duplicate(old(dedup.seen), TTL, m.instr.id, r.atDedup) || paused)
      ensures if go then Holds(old(Last(states)), m, Last(states)) && Last(states).reader.AtTimestamp?
              else Settled(old(Last(states)), m, Last(states), Dropped)
    {
      ghost var before := Last(states);
      Receive(m, r.atDedup);
      go := CheckNew(m, r.atDedup, before);
      if go { go := CheckPaused(m, before); }
    }

    /** The age and the signature. */
    method ScreenMessage(m: Message, r: Readings, ghost before: State) returns (fate: Fate, disconnect: bool)
      requires Linked() && Holds(before, m, Last(states)) && Last(states).reader.AtTimestamp?
          && r.Ordered(Last(states).clock)
      modifies this`states, this`events, sigFailures
      ensures Linked() && old(states) <= states && Last(states).clock <= r.atRate
      ensures fate == if Fresh(m.timestamp, r.atAge) then SignatureFate(w, m.instr) else Dropped
      ensures disconnect <==>
              Fresh(m.timestamp, r.atAge) && fate != InReader && Disconnects(old(sigFailures.sinceReset), r.atSignature)
      ensures if fate == InReader then Holds(before, m, Last(states)) && Last(states).reader.AtRate?
              else Settled(before, m, Last(states), fate)
    {
      var timely := CheckTimely(m, r.atAge, before);
      if !timely { return Dropped, false; }
      fate, disconnect := CountedSignature(m, r.atSignature, before);
    }

    /** The validator and the portfolio check. */
    method PassLimits(m: Message, account: Option<AccountState>, ghost before: State)
      returns (ok: bool, steps: seq<ExecutionStep>)
      requires Linked() && Holds(before, m, Last(states)) && Last(states).reader.AtRisk?
      modifies this`states, this`events
      ensures Linked() && old(states) <= states
      ensures ok == WithinLimits(m.instr, validator.limits, validator.resolver, account)
      ensures ok ==> steps == Clamp(validator.resolver, m.instr.market, m.instr.steps)
      ensures if ok then Holds(before, m, Last(states)) && Last(states).reader.AtQueue?
          && Vouches(Last(states), m, steps)
              else Settled(before, m, Last(states), Rejected)
    {
      ok, steps := CheckLimits(m, before);
      if ok { ok := CheckPortfolio(m, steps, account, before); }
    }

    /** The limiter and the limits. */
    method Admit(m: Message, now: int, account: Option<AccountState>, ghost before: State)
      returns (ok: bool, steps: seq<ExecutionStep>)
      requires Linked() && Holds(before, m, Last(states)) && Last(states).reader.AtRate? && Last(states).clock <= now
      modifies this`states, this`events, limiter
      ensures Linked() && old(states) <= states
      ensures ok == Admitted(w, old(limiter.admitted), m, now, validator.limits, validator.resolver, account)
      ensures ok ==> steps == Clamp(validator.resolver, m.instr.market, m.instr.steps)
      ensures if ok then Holds(before, m, Last(states)) && Last(states).reader.AtQueue?
          && Vouches(Last(states), m, steps)
              else Settled(before, m, Last(states), Rejected)
    {
      steps := [];
      Wait(now);
      ok := CheckRate(m, now, before);
      if !ok { return; }
      ok, steps := PassLimits(m, account, before);
    }

    /** The checks before the limiter. */
    method Screen(m: Message, r: Readings) returns (fate: Fate, disconnect: bool)
      requires Valid() && r.Ordered(Last(states).clock)
      modifies this`states, this`events, dedup, sigFailures
      ensures Linked() && old(states) <= states && Last(states).clock <= r.atRate
      ensures fate == Screened(w, old(Last(states)), m, r)
      ensures disconnect <==>
        FailsSignature(w, old(Last(states)), m, r) && Disconnects(old(sigFailures.sinceReset), r.atSignature)
      ensures if fate == InReader then Holds(old(Last(states)), m, Last(states)) && Last(states).reader.AtRate?
              else Settled(old(Last(states)), m, Last(states), fate)
    {
      ghost var before := Last(states);
      var go := ScreenArrival(m, r);
      if !go { return Dropped, false; }
      fate, disconnect := ScreenMessage(m, r, before);
    }

    method AdmitAndOffer(m: Message, now: int, account: Option<AccountState>, ghost before: State)
      returns (verdict: Fate)
      requires Linked() && Holds(before, m, Last(states)) && Last(states).reader.AtRate? && Last(states).clock <= now
      modifies this`states, this`events, this`queue, limiter
      ensures Valid() && old(states) <= states && Settled(before, m, Last(states), verdict)
      ensures verdict == if Admitted(w, old(limiter.admitted), m, now, validator.limits, validator.resolver, account)
                            && |old(queue)| < QUEUE_CAPACITY then Queued else Rejected
      ensures queue == if verdict != Queued then old(queue)
                       else old(queue) + [m.instr.(steps := Clamp(validator.resolver, m.instr.market, m.instr.steps))]
    {
      var ok, steps := Admit(m, now, account, before);
      if ok { ok := Offer(m, steps, before); }
      return if ok then Queued else Rejected;
    }

    /** Handles one message: the verdict is the one the guards' histories call for, the
        queue receives the clamped instruction if it is to run, and the trace shows how. */
    method HandleInstruction(m: Message, r: Readings, account: Option<AccountState>)
      returns (verdict: Fate, disconnect: bool)
      requires Valid() && r.Ordered(Last(states).clock)
      modifies this`states, this`events, this`queue, dedup, limiter, sigFailures
      ensures Valid() && old(states) <= states
      ensures disconnect <==>
        FailsSignature(w, old(Last(states)), m, r) && Disconnects(old(sigFailures.sinceReset), r.atSignature)
      ensures verdict == Judge(w, old(Last(states)), m, r, validator.limits, validator.resolver, account)
      ensures verdict == Queued ==>
        && m.instr.signature != "" && w.isHex(m.instr.signature)
        && w.verifies(Canonical.CanonicalText(m.instr), m.instr.signature)
      ensures Settled(old(Last(states)), m, Last(states), verdict)
      ensures queue == if verdict != Queued then old(queue)
                       else old(queue) + [m.instr.(steps := Clamp(validator.resolver, m.instr.market, m.instr.steps))]
    {
      ghost var before := Last(states);
      verdict, disconnect := Screen(m, r);
      if verdict == InReader { verdict := AdmitAndOffer(m, r.atRate, account, before); }
    }

    /** A pause message from the server, handled between two instructions. */
    method HandlePause(p: bool)
      requires Valid()
      modifies this`states, this`events, this`paused
      ensures Valid() && old(states) <= states && paused == p
          && Last(states) == old(Last(states)).(paused := p, flags := old(Last(states)).flags + [p])
    {
      paused := p;
      Advance(ServerPause(p), Last(states).(paused := p, flags := Last(states).flags + [p]));
    }
  }
}
