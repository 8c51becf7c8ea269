/** The guards refuse nothing they should not: an instruction that is new, fresh, signed,
    admitted and within limits is queued whenever the client is not paused and has room. */
module Path {
  import opened Instructions
  import opened Validator
  import opened Pipeline
  import Dedup
  import SlidingWindow

  function Last(states: seq<State>): State
    requires states != []
  {
    states[|states| - 1]
  }

  /** A client that has just been started. */
  function StartAt(now: int): State {
    State(now, [], [], Idle, map[], [], [], false, [], [], Resting, [], 0, 0, [], [], [], [], [])
  }

  /** A run can be continued by any step from its last state. */
  lemma {:induction false} Extend(w: World, states: seq<State>, events: seq<Event>, e: Event, s': State)
    returns (states': seq<State>, events': seq<Event>)
    requires Run(w, states, events) && Step(w, Last(states), e, s')
    ensures Run(w, states', events') && Last(states') == s'
    ensures states' == states + [s'] && events' == events + [e]
  {
    states', events' := states + [s'], events + [e];
    forall i | 0 <= i < |events'| ensures StepAt(w, states', events', i) {
      if i < |events| {
        assert StepAt(w, states, events, i) && states'[i] == states[i] && states'[i + 1] == states[i + 1]
            && events'[i] == events[i];
      } else {
        assert states'[i] == Last(states) && states'[i + 1] == s';
      }
    }
  }

  /** The state after a delivery was accepted as new and, at time freshAt, found fresh. */
  function AtSignatureCheck(s: State, m: Message, seen: Dedup.Seen, freshAt: int): State {
    s.(clock := freshAt, reader := AtSignature(|s.flags|, freshAt), arrivals := s.arrivals + [m],
       fates := s.fates + [InReader],
       seen := seen, accepted := s.accepted + [Dedup.Acceptance(m.instr.id, s.clock)])
  }

  lemma {:induction false} ReachSignatureCheck(w: World, states: seq<State>, events: seq<Event>, m: Message,
                                               seen: Dedup.Seen, freshAt: int)
    returns (states': seq<State>, events': seq<Event>)
    requires Run(w, states, events)
    requires Last(states).reader == Idle && !Last(states).paused && |Last(states).fates| == |Last(states).arrivals|
    requires Dedup.CheckStep(MAX_SEEN, TTL, Last(states).seen, m.instr.id, Last(states).clock, seen, true)
    requires Last(states).clock <= freshAt && Fresh(m.timestamp, freshAt)
    ensures Run(w, states', events') && Last(states') == AtSignatureCheck(Last(states), m, seen, freshAt)
  {
    var s := Last(states);
    var s1 := s.(reader := AtDedup, arrivals := s.arrivals + [m], fates := s.fates + [InReader]);
    states', events' := Extend(w, states, events, Arrive(m), s1);
    var s2 := s1.(reader := AtPause, seen := seen, accepted := s.accepted + [Dedup.Acceptance(m.instr.id, s.clock)]);
    states', events' := Extend(w, states', events', CheckDedup(true, seen), s2);
    var s3 := s2.(clock := freshAt);
    states', events' := Extend(w, states', events', Tick(freshAt), s3);
    states', events' := Extend(w, states', events', CheckPause, s3.(reader := AtTimestamp(|s.flags|)));
    states', events' := Extend(w, states', events', CheckTimestamp, s3.(reader := AtSignature(|s.flags|, freshAt)));
  }

  /** The ticket of the delivery the reader holds, if the limiter admits it now. */
  function TicketFor(s: State, flag: nat, freshAt: int, lim: RiskLimits, res: Resolver, portfolio: Portfolio): Ticket
    requires s.arrivals != [] && s.accepted != []
  {
    Ticket(|s.arrivals| - 1, |s.accepted| - 1, flag, freshAt, |s.admitted|, lim, res,
           Clamp(res, Newest(s).instr.market, Newest(s).instr.steps), portfolio)
  }

  /** The state after that delivery was admitted and queued. */
  function AfterQueueing(s: State, t: Ticket): State
    requires s.fates != []
  {
    s.(reader := Idle, admitted := s.admitted + [s.clock], fates := s.fates[|s.fates| - 1 := Queued],
       queue := s.queue + [t], enqueued := s.enqueued + [t])
  }

  /** The state after that delivery was admitted. */
  function AtRiskCheck(s: State, flag: nat, freshAt: int): State {
    s.(reader := AtRisk(flag, freshAt), admitted := s.admitted + [s.clock])
  }

  lemma {:induction false} ReachRiskCheck(w: World, states: seq<State>, events: seq<Event>, flag: nat, freshAt: int)
    returns (states': seq<State>, events': seq<Event>)
    requires Run(w, states, events) && Last(states).reader == AtSignature(flag, freshAt)
    requires |Last(states).fates| == |Last(states).arrivals| > 0 && Signed(w, Newest(Last(states)).instr)
    requires SlidingWindow.Admits(w.ratePerMinute, Last(states).admitted, Last(states).clock)
    ensures Run(w, states', events') && Last(states') == AtRiskCheck(Last(states), flag, freshAt)
  {
    var s := Last(states);
    states', events' := Extend(w, states, events, CheckSignature, s.(reader := AtRate(flag, freshAt)));
    states', events' := Extend(w, states', events', CheckRate, AtRiskCheck(s, flag, freshAt));
  }

  /** The state after that, the portfolio check passed. */
  function AtQueuePut(s: State, t: Ticket): State {
    s.(reader := AtQueue(t), admitted := s.admitted + [s.clock])
  }

  lemma {:induction false} ReachQueuePut(w: World, states: seq<State>, events: seq<Event>, flag: nat, freshAt: int,
                                         lim: RiskLimits, res: Resolver, account: Option<AccountState>, s: State)
    returns (states': seq<State>, events': seq<Event>)
    requires Run(w, states, events) && Last(states) == AtRiskCheck(s, flag, freshAt)
    requires |s.fates| == |s.arrivals| > 0 && s.accepted != []
    requires res.parse == w.parse && Accepts(lim, res, Newest(s).instr.steps)
    requires PortfolioPasses(lim, res, account, Newest(s).instr.market,
                             Clamp(res, Newest(s).instr.market, Newest(s).instr.steps))
    ensures Run(w, states', events')
    ensures Last(states') == AtQueuePut(s, TicketFor(s, flag, freshAt, lim, res, CheckedAgainst(lim, res, account)))
  {
    var t, s2 := TicketFor(s, flag, freshAt, lim, res, Unchecked), AtRiskCheck(s, flag, freshAt);
    var t' := t.(portfolio := CheckedAgainst(lim, res, account));
    states', events' := Extend(w, states, events, CheckRisk(lim, res), s2.(reader := AtPortfolio(t)));
    states', events' := Extend(w, states', events', CheckPortfolio(lim, res, account), s2.(reader := AtQueue(t')));
  }

  /** Between two messages, the client not paused. */
  ghost predicate Ready(s: State) {
    s.reader == Idle && !s.paused && |s.fates| == |s.arrivals|
  }

  /** Everything the guards ask of a message that arrives in state s and is found fresh at
      time freshAt. */
  ghost predicate Acceptable(w: World, s: State, m: Message, freshAt: int, lim: RiskLimits, res: Resolver,
                             account: Option<AccountState>) {
    && s.clock <= freshAt && Fresh(m.timestamp, freshAt)
    && Signed(w, m.instr)
    && SlidingWindow.Admits(w.ratePerMinute, s.admitted, freshAt)
    && res.parse == w.parse && Accepts(lim, res, m.instr.steps)
    && PortfolioPasses(lim, res, account, m.instr.market, Clamp(res, m.instr.market, m.instr.steps))
  }

  /** The ticket of message m, accepted as new and found fresh at time freshAt. */
  function TicketOf(s: State, m: Message, seen: Dedup.Seen, freshAt: int, lim: RiskLimits, res: Resolver,
                    account: Option<AccountState>): Ticket
  {
    TicketFor(AtSignatureCheck(s, m, seen, freshAt), |s.flags|, freshAt, lim, res, CheckedAgainst(lim, res, account))
  }

  /** The state with message m in the reader's hands, past all checks. */
  function Holding(s: State, m: Message, seen: Dedup.Seen, freshAt: int, lim: RiskLimits, res: Resolver,
                   account: Option<AccountState>): State
  {
    AtQueuePut(AtSignatureCheck(s, m, seen, freshAt), TicketOf(s, m, seen, freshAt, lim, res, account))
  }

  /** The state after message m was accepted as new, found fresh at time freshAt and queued. */
  function Queueing(s: State, m: Message, seen: Dedup.Seen, freshAt: int, lim: RiskLimits, res: Resolver,
                    account: Option<AccountState>): State
  {
    AfterQueueing(AtSignatureCheck(s, m, seen, freshAt), TicketOf(s, m, seen, freshAt, lim, res, account))
  }

  /** An acceptable message that the duplicate filter takes for new passes all checks, from
      any state of any run in which the reader is idle and the client not paused. */
  lemma {:induction false} AcceptableIsHeld(w: World, states: seq<State>, events: seq<Event>, m: Message,
                                            seen: Dedup.Seen,
                                            freshAt: int, lim: RiskLimits, res: Resolver, account: Option<AccountState>)
    returns (states': seq<State>, events': seq<Event>)
    requires Run(w, states, events) && Ready(Last(states))
    requires Dedup.CheckStep(MAX_SEEN, TTL, Last(states).seen, m.instr.id, Last(states).clock, seen, true)
    requires Acceptable(w, Last(states), m, freshAt, lim, res, account)
    ensures Run(w, states', events') && Last(states') == Holding(Last(states), m, seen, freshAt, lim, res, account)
  {
    var flag, s := |Last(states).flags|, AtSignatureCheck(Last(states), m, seen, freshAt);
    states', events' := ReachSignatureCheck(w, states, events, m, seen, freshAt);
    states', events' := ReachRiskCheck(w, states', events', flag, freshAt);
    states', events' := ReachQueuePut(w, states', events', flag, freshAt, lim, res, account, s);
  }

  lemma HoldingIsPut(s: State, m: Message, seen: Dedup.Seen, freshAt: int, lim: RiskLimits, res: Resolver,
                     account: Option<AccountState>)
    ensures Put(Holding(s, m, seen, freshAt, lim, res, account)) == Queueing(s, m, seen, freshAt, lim, res, account)
  {}

  /** If the queue has room it is queued; nothing but its own traces is added. */
  lemma {:induction false} AcceptableIsQueued(w: World, states: seq<State>, events: seq<Event>, m: Message,
                                              seen: Dedup.Seen,
                                              freshAt: int, lim: RiskLimits, res: Resolver,
                                                  account: Option<AccountState>)
    returns (states': seq<State>, events': seq<Event>)
    requires Run(w, states, events) && Ready(Last(states)) && |Last(states).queue| < QUEUE_CAPACITY
    requires Dedup.CheckStep(MAX_SEEN, TTL, Last(states).seen, m.instr.id, Last(states).clock, seen, true)
    requires Acceptable(w, Last(states), m, freshAt, lim, res, account)
    ensures Run(w, states', events') && Last(states') == Queueing(Last(states), m, seen, freshAt, lim, res, account)
  {
    states', events' := AcceptableIsHeld(w, states, events, m, seen, freshAt, lim, res, account);
    HoldingIsPut(Last(states), m, seen, freshAt, lim, res, account);
    states', events' := Extend(w, states', events', Enqueue, Put(Last(states')));
  }
}
