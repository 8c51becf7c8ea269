/** The instruction pipeline as a transition system: one reader taking each delivery
    through the guards, a bounded queue, one worker, and a pause flag that the server and
    the circuit breaker's callback flip. Between any two steps of one of them the others
    and the clock may move. Times are nanoseconds. */
module Pipeline {
  import opened Instructions
  import opened Canonical
  import opened Validator
  import opened Limits
  import opened Executor
  import Floats
  import Dedup
  import SlidingWindow
  import CircuitBreaker

  const QUEUE_CAPACITY := 16
  const MAX_SEEN := 1000
  const TTL := 5 * SlidingWindow.MINUTE
  const MILLISECOND := 1_000_000
  const MAX_AGE := 60_000
  const MAX_AHEAD := 10_000

  /** What stays fixed while the client runs: the signature scheme over canonical bytes,
      the hexadecimal decoder, the number parser, the rate limit and the breaker's settings. */
  datatype World = World(
    isHex: string -> bool,
    verifies: (string, string) -> bool,
    parse: string -> Parsed,
    ratePerMinute: int,
    maxConsecutive: nat,
    cooldown: int)

  datatype Message = Message(instr: Instruction, timestamp: int)

  /** What the portfolio check compared: limits, resolver, and the account if it could be
      fetched. */
  datatype Portfolio = Unchecked | CheckedAgainst(lim: RiskLimits, res: Resolver, account: Option<AccountState>)

  /** What the reader found out about a delivery before queueing it: its index, the indices of
      its acceptance by the duplicate filter and of its admission by the limiter, how often
      the pause flag had been set when it was found down, when the age check passed, and what
      its validation and its portfolio check went by. */
  datatype Ticket = Ticket(
    delivery: nat,
    slot: nat,
    flag: nat,
    freshAt: int,
    admission: nat,
    lim: RiskLimits,
    res: Resolver,
    steps: seq<ExecutionStep>,
    portfolio: Portfolio)

  /** Which check the reader will make next for the newest delivery. */
  datatype Reader =
    | Idle
    | AtDedup
    | AtPause
    | AtTimestamp(flag: nat)
    | AtSignature(flag: nat, freshAt: int)
    | AtRate(flag: nat, freshAt: int)
    | AtRisk(flag: nat, freshAt: int)
    | AtPortfolio(ticket: Ticket)
    | AtQueue(ticket: Ticket)

  datatype WorkerState = Resting | Running(ticket: Ticket, done: nat) | Stopped

  datatype Fate = InReader | Dropped | Rejected | Queued | Executing | Completed

  /** The counters when an instruction was started. */
  datatype Stamp = Stamp(at: int, enqueued: nat, admitted: nat, past: nat)

  /** The client's state, and the history the theorems speak about: arrivals and their
      fates, acceptances, admissions, the values the pause flag was given, breaker outcomes,
      automatic pauses, queued and started tickets with what was said to the exchange for
      each, and the deliveries result messages were sent for. */
  datatype State = State(
    clock: int,
    arrivals: seq<Message>,
    fates: seq<Fate>,
    reader: Reader,
    seen: Dedup.Seen,
    accepted: seq<Dedup.Acceptance>,
    admitted: seq<int>,
    paused: bool,
    flags: seq<bool>,
    queue: seq<Ticket>,
    worker: WorkerState,
    outcomes: seq<CircuitBreaker.Outcome>,
    pendingTrips: nat,
    autoPauses: nat,
    enqueued: seq<Ticket>,
    started: seq<Ticket>,
    stamps: seq<Stamp>,
    transcripts: seq<Transcript>,
    results: seq<nat>)

  datatype Event =
    | Tick(to: int)
    | Arrive(message: Message)
    | CheckDedup(isNew: bool, seen: Dedup.Seen)
    | CheckPause
    | CheckTimestamp
    | CheckSignature
    | CheckRate
    | CheckRisk(lim: RiskLimits, res: Resolver)
    | CheckPortfolio(lim: RiskLimits, res: Resolver, account: Option<AccountState>)
    | Enqueue
    | Take
    | Execute(reply: Reply)
    | Stop
    | TripCallback
    | ServerPause(paused: bool)

  ghost predicate Init(w: World, s: State) {
    && w.ratePerMinute >= 1 && w.cooldown > 0
    && s.arrivals == [] && s.fates == [] && s.reader == Idle && s.seen == map[] && s.accepted == [] && s.admitted == []
    && !s.paused && s.flags == [] && s.queue == [] && s.worker == Resting && s.outcomes == [] && s.pendingTrips == 0
    && s.autoPauses == 0
    && s.enqueued == [] && s.started == [] && s.stamps == [] && s.transcripts == [] && s.results == []
  }

  // ---------- the reader ----------

  function Newest(s: State): Message
    requires s.arrivals != []
  {
    s.arrivals[|s.arrivals| - 1]
  }

  /** A delivery the reader gives up without a word. */
  function Drop(s: State): State
    requires s.fates != []
  {
    s.(reader := Idle, fates := s.fates[|s.fates| - 1 := Dropped])
  }

  /** A delivery the reader answers with one result message. */
  function Reject(s: State): State
    requires s.fates != []
  {
    s.(reader := Idle, fates := s.fates[|s.fates| - 1 := Rejected], results := s.results + [|s.fates| - 1])
  }

  /** A delivery the reader puts into the queue. */
  function Put(s: State): State
    requires s.fates != [] && s.reader.AtQueue?
  {
    s.(reader := Idle, fates := s.fates[|s.fates| - 1 := Queued],
       queue := s.queue + [s.reader.ticket], enqueued := s.enqueued + [s.reader.ticket])
  }

  function Millis(ns: int): int { ns / MILLISECOND }

  /** The age check: a timestamp, at most a minute old and at most ten seconds ahead. */
  predicate Fresh(timestamp: int, now: int) {
    timestamp > 0 && -MAX_AHEAD <= Millis(now) - timestamp <= MAX_AGE
  }

  ghost predicate Signed(w: World, instr: Instruction) {
    instr.signature != "" && w.isHex(instr.signature) && w.verifies(CanonicalText(instr), instr.signature)
  }

  /** The portfolio check is made only for a positive estimate. */
  predicate PortfolioPasses(lim: RiskLimits, res: Resolver, account: Option<AccountState>, market: string,
                            steps: seq<ExecutionStep>) {
    var notional := Estimate(res, steps);
    Floats.Gt(notional, Floats.ZERO) ==> PortfolioError(lim, res, account, market, notional) == None
  }

  function NewTicket(s: State, m: Message, lim: RiskLimits, res: Resolver): Ticket
    requires s.reader.AtRisk? && s.arrivals != [] && s.accepted != [] && s.admitted != []
  {
    Ticket(|s.arrivals| - 1, |s.accepted| - 1, s.reader.flag, s.reader.freshAt, |s.admitted| - 1, lim, res,
           Clamp(res, m.instr.market, m.instr.steps), Unchecked)
  }

  /** One step of the reader on the newest delivery. */
  ghost predicate ReaderStep(w: World, s: State, e: Event, s': State) {
    && s.arrivals != [] && |s.fates| == |s.arrivals|
    && var m := Newest(s);
       match e
       case CheckDedup(isNew, seen) =>
         s.reader.AtDedup?
         && Dedup.CheckStep(MAX_SEEN, TTL, s.seen, m.instr.id, s.clock, seen, isNew)
         && s' == if isNew
                  then s.(reader := AtPause, seen := seen,
                          accepted := s.accepted + [Dedup.Acceptance(m.instr.id, s.clock)])
                  else Drop(s.(seen := seen))
       case CheckPause =>
         s.reader.AtPause? && s' == if s.paused then Drop(s) else s.(reader := AtTimestamp(|s.flags|))
       case CheckTimestamp =>
         s.reader.AtTimestamp?
             && s' == if Fresh(m.timestamp, s.clock) then s.(reader := AtSignature(s.reader.flag, s.clock)) else Drop(s)
       case CheckSignature =>
         s.reader.AtSignature?
         && s' == if Signed(w, m.instr) then s.(reader := AtRate(s.reader.flag, s.reader.freshAt))
                  else if m.instr.signature != "" && !w.isHex(m.instr.signature) then Drop(s)
                  else Reject(s)
       case CheckRate =>
         s.reader.AtRate?
         && s' == if SlidingWindow.Admits(w.ratePerMinute, s.admitted, s.clock)
                  then s.(reader := AtRisk(s.reader.flag, s.reader.freshAt), admitted := s.admitted + [s.clock])
                  else Reject(s)
       case CheckRisk(lim, res) =>
         s.reader.AtRisk? && s.accepted != [] && s.admitted != [] && res.parse == w.parse
         && s' == if Accepts(lim, res, m.instr.steps)
                  then s.(reader := AtPortfolio(NewTicket(s, m, lim, res)))
                  else Reject(s)
       case CheckPortfolio(lim, res, account) =>
         s.reader.AtPortfolio? && res.parse == w.parse
         && s' == if PortfolioPasses(lim, res, account, m.instr.market, s.reader.ticket.steps)
                  then s.(reader := AtQueue(s.reader.ticket.(portfolio := CheckedAgainst(lim, res, account))))
                  else Reject(s)
       case Enqueue =>
         s.reader.AtQueue?
         && s' == if |s.queue| < QUEUE_CAPACITY then Put(s) else Reject(s)
       case _ => false
  }

  /** The reader goes on to a later check, touching only its own guards. */
  ghost predicate Advances(s: State, s': State) {
    && s.reader != Idle && s'.reader != Idle
    && s' == s.(reader := s'.reader, seen := s'.seen, accepted := s'.accepted, admitted := s'.admitted)
  }

  /** Every step of the reader advances, drops, rejects or enqueues the newest delivery. */
  lemma ReaderStepKinds(w: World, s: State, e: Event, s': State)
    requires ReaderStep(w, s, e, s')
    ensures s.reader != Idle && |s.fates| == |s.arrivals| > 0
    ensures Advances(s, s') || s' == Drop(s) || s' == Reject(s)
            || (s.reader.AtQueue? && |s.queue| < QUEUE_CAPACITY && s' == Put(s))
  {}

  // ---------- the worker ----------

  /** 1 while the reader holds a delivery that the limiter has admitted. */
  function PastRate(s: State): nat {
    if s.reader.AtRisk? || s.reader.AtPortfolio? || s.reader.AtQueue? then 1 else 0
  }

  /** What the breaker records for one executed step. */
  function OutcomeOf(w: World, s: State, ok: bool): CircuitBreaker.Outcome {
    if ok then CircuitBreaker.Success
    else CircuitBreaker.Failure(s.clock, s.clock,
                                CircuitBreaker.Trips(w.maxConsecutive, w.cooldown, s.outcomes, s.clock))
  }

  function Outcomes(w: World, s: State, step: ExecutionStep, ok: bool): seq<CircuitBreaker.Outcome> {
    if step.action == PLACE_ORDER then s.outcomes + [OutcomeOf(w, s, ok)] else s.outcomes
  }

  function NewTrips(w: World, s: State, step: ExecutionStep, ok: bool): nat {
    if step.action == PLACE_ORDER && CircuitBreaker.IsTrip(OutcomeOf(w, s, ok)) then 1 else 0
  }

  /** The worker takes the head of the queue. */
  function Begin(s: State): State
    requires s.queue != [] && s.queue[0].delivery < |s.fates|
  {
    s.(worker := Running(s.queue[0], 0), queue := s.queue[1..], started := s.started + [s.queue[0]],
       stamps := s.stamps + [Stamp(s.clock, |s.enqueued|, |s.admitted|, PastRate(s))],
       transcripts := s.transcripts + [Transcript([], [], [])],
       fates := s.fates[s.queue[0].delivery := Executing])
  }

  /** The transcript of the instruction being executed. */
  function Current(s: State): Transcript
    requires s.transcripts != []
  {
    s.transcripts[|s.transcripts| - 1]
  }

  /** The step just executed is written down, and the breaker hears about it. */
  function Fed(w: World, s: State, step: ExecutionStep, reply: Reply): State
    requires s.transcripts != []
  {
    var ok := ResultFor(step, reply).success;
    s.(outcomes := Outcomes(w, s, step, ok), pendingTrips := s.pendingTrips + NewTrips(w, s, step, ok),
       transcripts := s.transcripts[|s.transcripts| - 1 := Written(Current(s), step, reply)])
  }

  /** The instruction is done and answered with one result message. */
  function Finish(s: State): State
    requires s.worker.Running? && s.worker.ticket.delivery < |s.fates|
  {
    s.(worker := Resting, fates := s.fates[s.worker.ticket.delivery := Completed],
       results := s.results + [s.worker.ticket.delivery])
  }

  /** The step the worker executes next. */
  function NextStep(s: State): ExecutionStep
    requires s.worker.Running? && s.worker.done < |s.worker.ticket.steps|
  {
    s.worker.ticket.steps[s.worker.done]
  }

  ghost predicate WorkerStep(w: World, s: State, e: Event, s': State) {
    match e
    case Take => s.worker == Resting && s.queue != [] && s.queue[0].delivery < |s.fates| && s' == Begin(s)
    case Execute(reply) =>
      && s.worker.Running? && s.worker.done < |s.worker.ticket.steps| && s.worker.ticket.delivery < |s.fates|
      && s.transcripts != []
      && var fed := Fed(w, s, NextStep(s), reply);
         s' == if ResultFor(NextStep(s), reply).success && s.worker.done + 1 < |s.worker.ticket.steps|
               then fed.(worker := Running(s.worker.ticket, s.worker.done + 1))
               else Finish(fed)
    case Stop => s.worker == Resting && s' == s.(worker := Stopped)
    case _ => false
  }

  // ---------- everything ----------

  /** A breaker trip pauses the client from a goroutine of its own, whenever that runs; the
      server's pause message is handled by the reader, between two instructions. */
  ghost predicate Step(w: World, s: State, e: Event, s': State) {
    match e
    case Tick(to) => s.clock <= to && s' == s.(clock := to)
    case Arrive(m) =>
      s.reader == Idle && s' == s.(reader := AtDedup, arrivals := s.arrivals + [m], fates := s.fates + [InReader])
    case TripCallback => s.pendingTrips > 0
        && s' == s.(paused := true, flags := s.flags + [true], pendingTrips := s.pendingTrips - 1,
                    autoPauses := s.autoPauses + 1)
    case ServerPause(p) => s.reader == Idle && s' == s.(paused := p, flags := s.flags + [p])
    case Take => WorkerStep(w, s, e, s')
    case Execute(_) => WorkerStep(w, s, e, s')
    case Stop => WorkerStep(w, s, e, s')
    case _ => ReaderStep(w, s, e, s')
  }

  ghost predicate StepAt(w: World, states: seq<State>, events: seq<Event>, i: int) {
    0 <= i < |events| && i + 1 < |states| && Step(w, states[i], events[i], states[i + 1])
  }

  ghost predicate Run(w: World, states: seq<State>, events: seq<Event>) {
    && |states| == |events| + 1 && Init(w, states[0])
    && forall i :: 0 <= i < |events| ==> StepAt(w, states, events, i)
  }
}
