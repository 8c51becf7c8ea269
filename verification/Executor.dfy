/** The executor: runs an instruction's steps against the exchange until one fails, and
    feeds the circuit breaker and the trade view. The exchange's replies are arbitrary. */
module Executor {
  import opened Instructions
  import opened CircuitBreaker
  import opened TradeStore
  import JsonText

  /** One request to the exchange. */
  datatype Call =
    | PlaceOrder(orders: seq<OrderWire>, grouping: string)
    | UpdateLeverage(asset: int, leverage: int, isCross: bool)
    | CancelByCloid(cancels: seq<CancelCloidSpec>)
    | CancelByOid(oidCancels: seq<CancelSpec>)
    | ModifyOrders(modifications: seq<ModifySpec>)

  /** A reply: an error, or one status per order, whose text is empty when it succeeded. */
  datatype Reply = Error(message: string) | Statuses(errors: seq<string>)

  /** How the exchange answers a call, given all calls so far. */
  type Exchange = seq<Call> -> Reply

  datatype StepError =
    | NoError
    | ExchangeError(message: string)
    | OrderFailed(index: nat, total: nat, message: string)
    | UnknownStepAction(action: string)

  datatype StepResult = StepResult(action: string, success: bool, error: StepError)

  /** The call a step makes; an unknown action makes none. */
  function CallOf(s: ExecutionStep): Option<Call> {
    if s.action == PLACE_ORDER then Some(PlaceOrder(s.orders, if s.grouping == "" then "na" else s.grouping))
    else if s.action == UPDATE_LEVERAGE then Some(UpdateLeverage(s.asset, s.leverage, s.isCross))
    else if s.action == CANCEL_BY_CLOID then Some(CancelByCloid(s.cancels))
    else if s.action == CANCEL_BY_OID then Some(CancelByOid(s.oidCancels))
    else if s.action == MODIFY_ORDER then Some(ModifyOrders(s.modifications))
    else None
  }

  /** The first order status that reports an error. */
  function FirstError(errors: seq<string>): Option<nat> {
    if errors == [] then None
    else
      match FirstError(errors[..|errors| - 1])
      case Some(i) => Some(i)
      case None => if errors[|errors| - 1] != "" then Some(|errors| - 1) else None
  }

  lemma {:induction false} FirstErrorIsFirst(errors: seq<string>)
    ensures match FirstError(errors)
            case None => forall i :: 0 <= i < |errors| ==> errors[i] == ""
            case Some(i) => i < |errors| && errors[i] != "" && forall j :: 0 <= j < i ==> errors[j] == ""
  {
    if errors != [] { FirstErrorIsFirst(errors[..|errors| - 1]); }
  }

  /** A batch of new orders fails exactly when one of its orders did, and then reports the
      first; the other actions look at the reply as a whole. */
  function ResultOf(s: ExecutionStep, reply: Reply): (r: StepResult)
    ensures r.action == s.action
    ensures r.success <==>
      reply.Statuses? && (s.action == PLACE_ORDER ==> forall i :: 0 <= i < |reply.errors| ==> reply.errors[i] == "")
    ensures reply.Statuses? && !r.success ==>
      && r.error.OrderFailed? && r.error.index < |reply.errors| == r.error.total
      && r.error.message == reply.errors[r.error.index] != ""
      && forall i :: 0 <= i < r.error.index ==> reply.errors[i] == ""
    ensures (r.success ==> r.error == NoError) && (reply.Error? ==> r.error == ExchangeError(reply.message))
  {
    match reply
    case Error(m) => StepResult(s.action, false, ExchangeError(m))
    case Statuses(errors) =>
      if s.action != PLACE_ORDER then StepResult(s.action, true, NoError)
      else
        FirstErrorIsFirst(errors);
        match FirstError(errors)
        case Some(i) => StepResult(s.action, false, OrderFailed(i, |errors|, errors[i]))
        case None => StepResult(s.action, true, NoError)
  }

  /** The result of a step, given the reply to its call if it makes one. */
  function ResultFor(s: ExecutionStep, reply: Reply): StepResult {
    if CallOf(s).None? then StepResult(s.action, false, UnknownStepAction(s.action)) else ResultOf(s, reply)
  }

  /** What was said for one instruction so far: the calls made, the replies to them, and the
      results of the steps. */
  datatype Transcript = Transcript(calls: seq<Call>, replies: seq<Reply>, results: seq<StepResult>)

  /** One step more. */
  function Written(t: Transcript, step: ExecutionStep, reply: Reply): Transcript {
    match CallOf(step)
    case None => t.(results := t.results + [ResultFor(step, reply)])
    case Some(call) => Transcript(t.calls + [call], t.replies + [reply], t.results + [ResultFor(step, reply)])
  }

  datatype Trace = Trace(calls: seq<Call>, results: seq<StepResult>)

  /** Running steps after the calls already made: every call and result until one step fails. */
  function RunSteps(steps: seq<ExecutionStep>, exchange: Exchange, made: seq<Call>): Trace {
    if steps == [] then Trace(made, [])
    else
      match CallOf(steps[0])
      case None => Trace(made, [StepResult(steps[0].action, false, UnknownStepAction(steps[0].action))])
      case Some(call) =>
        var r := ResultOf(steps[0], exchange(made + [call]));
        if !r.success then Trace(made + [call], [r])
        else
          var rest := RunSteps(steps[1..], exchange, made + [call]);
          Trace(rest.calls, [r] + rest.results)
  }

  /** Execution stops at the first failure: there is a result for every step up to and
      including it, in order, and only the last may be a failure. */
  lemma {:induction false} StopsAtFirstFailure(steps: seq<ExecutionStep>, exchange: Exchange, made: seq<Call>)
    ensures var t := RunSteps(steps, exchange, made);
      && |t.results| <= |steps| && (steps != [] ==> t.results != [])
      && (forall k :: 0 <= k < |t.results| ==> t.results[k].action == steps[k].action)
      && (forall k :: 0 <= k < |t.results| - 1 ==> t.results[k].success)
      && (|t.results| < |steps| ==> !t.results[|t.results| - 1].success)
      && made <= t.calls && |t.calls| - |made| <= |t.results|
  {
    if steps != [] && CallOf(steps[0]).Some? {
      StopsAtFirstFailure(steps[1..], exchange, made + [CallOf(steps[0]).value]);
    }
  }

  /** Call k past the calls made before is that of step k, and its result what the exchange
      replied to it. */
  ghost predicate CallAt(steps: seq<ExecutionStep>, exchange: Exchange, made: nat, t: Trace, k: nat) {
    && k < |steps| && k < |t.results| && made + k < |t.calls|
    && CallOf(steps[k]) == Some(t.calls[made + k])
    && t.results[k] == ResultOf(steps[k], exchange(t.calls[..made + k + 1]))
  }

  lemma RunContinues(steps: seq<ExecutionStep>, exchange: Exchange, made: seq<Call>, call: Call)
    requires steps != [] && CallOf(steps[0]) == Some(call) && ResultOf(steps[0], exchange(made + [call])).success
    ensures var t, rest := RunSteps(steps, exchange, made), RunSteps(steps[1..], exchange, made + [call]);
      t.calls == rest.calls && t.results == [ResultOf(steps[0], exchange(made + [call]))] + rest.results
  {}

  lemma CallShifts(steps: seq<ExecutionStep>, exchange: Exchange, made: nat, t: Trace, rest: Trace, k: nat)
    requires steps != [] && t.calls == rest.calls && |t.results| == |rest.results| + 1 && t.results[1..] == rest.results
    requires CallAt(steps[1..], exchange, made + 1, rest, k)
    ensures CallAt(steps, exchange, made, t, k + 1)
  {
    assert t.results[k + 1] == t.results[1..][k] && steps[k + 1] == steps[1..][k];
    assert made + 1 + k + 1 == made + (k + 1) + 1;
  }

  /** The run in closed form: the calls made are those of the steps in order, one for each
      result unless the last step has no call to make, and each call's result is what the
      exchange replied to it, given the calls before. */
  lemma {:induction false} RunMakesCallsInOrder(steps: seq<ExecutionStep>, exchange: Exchange, made: seq<Call>)
    ensures var t := RunSteps(steps, exchange, made);
      && made <= t.calls && |t.results| <= |steps|
      && |t.calls| - |made| == |t.results| - (if t.results != [] && Callless(steps[|t.results| - 1]) then 1 else 0)
      && forall k :: 0 <= k < |t.calls| - |made| ==> CallAt(steps, exchange, |made|, t, k)
  {
    if steps != [] && CallOf(steps[0]).Some? {
      var call := CallOf(steps[0]).value;
      var longer := made + [call];
      var t := RunSteps(steps, exchange, made);
      if ResultOf(steps[0], exchange(longer)).success {
        var rest := RunSteps(steps[1..], exchange, longer);
        RunMakesCallsInOrder(steps[1..], exchange, longer);
        RunContinues(steps, exchange, made, call);
        FirstCall(steps, exchange, made, t, call);
        forall k | 0 < k < |t.calls| - |made| ensures CallAt(steps, exchange, |made|, t, k) {
          CallShifts(steps, exchange, |made|, t, rest, k - 1);
        }
      } else {
        FirstCall(steps, exchange, made, t, call);
      }
    }
  }

  lemma FirstCall(steps: seq<ExecutionStep>, exchange: Exchange, made: seq<Call>, t: Trace, call: Call)
    requires steps != [] && CallOf(steps[0]) == Some(call) && made + [call] <= t.calls
    requires t.results != [] && t.results[0] == ResultOf(steps[0], exchange(made + [call]))
    ensures CallAt(steps, exchange, |made|, t, 0)
  {
    assert t.calls[..|made| + 1] == made + [call];
  }

  /** A step whose action is none of the five. */
  predicate Callless(s: ExecutionStep) {
    s.action !in ["place_order", "update_leverage", "cancel_by_cloid", "cancel_by_oid", "modify_order"]
  }

  /** The outcomes the breaker hears about: those of the place_order steps. */
  function PlaceOutcomes(results: seq<StepResult>): seq<bool> {
    if results == [] then []
    else
      var r, before := results[|results| - 1], PlaceOutcomes(results[..|results| - 1]);
      if r.action == PLACE_ORDER then before + [r.success] else before
  }

  function Successes(h: seq<Outcome>): seq<bool> {
    if h == [] then [] else Successes(h[..|h| - 1]) + [h[|h| - 1].Success?]
  }

  function TripCount(h: seq<Outcome>): nat {
    if h == [] then 0 else TripCount(h[..|h| - 1]) + if IsTrip(h[|h| - 1]) then 1 else 0
  }

  /** What the breaker was fed matches the results: one outcome per place_order step. */
  ghost predicate Feeds(fed: seq<Outcome>, results: seq<StepResult>, trips: nat) {
    Successes(fed) == PlaceOutcomes(results) && trips == TripCount(fed)
  }

  lemma FeedOne(fed: seq<Outcome>, results: seq<StepResult>, trips: nat, r: StepResult, o: Outcome)
    requires Feeds(fed, results, trips) && r.action == PLACE_ORDER && o.Success? == r.success
    ensures Feeds(fed + [o], results + [r], trips + if IsTrip(o) then 1 else 0)
  {
    assert (fed + [o])[..|fed|] == fed && (results + [r])[..|results|] == results;
  }

  lemma FeedNone(fed: seq<Outcome>, results: seq<StepResult>, trips: nat, r: StepResult)
    requires Feeds(fed, results, trips) && r.action != PLACE_ORDER
    ensures Feeds(fed, results + [r], trips)
  {
    assert (results + [r])[..|results|] == results;
  }

  /** Running the rest of the steps completes what has been done so far to the whole run. */
  ghost predicate OnTrack(steps: seq<ExecutionStep>, exchange: Exchange, i: nat, calls: seq<Call>,
                          results: seq<StepResult>)
    requires i <= |steps|
  {
    var whole, rest := RunSteps(steps, exchange, []), RunSteps(steps[i..], exchange, calls);
    whole.calls == rest.calls && whole.results == results + rest.results
  }

  /** One step, successful or not, stays on the track of the whole run. */
  lemma {:induction false} TrackStep(steps: seq<ExecutionStep>, exchange: Exchange, i: nat, made: seq<Call>,
                                     results: seq<StepResult>, r: StepResult, calls: seq<Call>)
    requires i < |steps| && OnTrack(steps, exchange, i, made, results)
    requires DoesStep(steps[i], exchange, made, r, calls)
    ensures if r.success then OnTrack(steps, exchange, i + 1, calls, results + [r])
            else RunSteps(steps, exchange, []) == Trace(calls, results + [r])
  {
    assert steps[i..][1..] == steps[i + 1..] && steps[i..][0] == steps[i];
  }

  ghost predicate DoesStep(step: ExecutionStep, exchange: Exchange, made: seq<Call>, r: StepResult, calls: seq<Call>) {
    match CallOf(step)
    case None => calls == made && r == StepResult(step.action, false, UnknownStepAction(step.action))
    case Some(call) => calls == made + [call] && r == ResultOf(step, exchange(made + [call]))
  }

  // ---------- transcripts ----------

  /** The exchange would have given these replies to these calls. */
  ghost predicate Agrees(exchange: Exchange, t: Transcript) {
    |t.calls| == |t.replies| && forall i :: 0 <= i < |t.calls| ==> exchange(t.calls[..i + 1]) == t.replies[i]
  }

  /** So far, for every exchange that would have replied as it did. */
  ghost predicate OnScript(steps: seq<ExecutionStep>, t: Transcript, i: nat)
    requires i <= |steps|
  {
    && |t.calls| == |t.replies|
    && forall exchange :: Agrees(exchange, t) ==> OnTrack(steps, exchange, i, t.calls, t.results)
  }

  /** The transcript is the whole run of the steps, for every exchange that would have
      replied as it did. */
  ghost predicate WholeScript(steps: seq<ExecutionStep>, t: Transcript) {
    && |t.calls| == |t.replies|
    && forall exchange :: Agrees(exchange, t) ==> RunSteps(steps, exchange, []) == Trace(t.calls, t.results)
  }

  lemma AgreesEarlier(exchange: Exchange, t: Transcript, step: ExecutionStep, reply: Reply)
    requires Agrees(exchange, Written(t, step, reply)) && |t.calls| == |t.replies|
    ensures Agrees(exchange, t)
        && DoesStep(step, exchange, t.calls, ResultFor(step, reply), Written(t, step, reply).calls)
  {
    var t' := Written(t, step, reply);
    forall i | 0 <= i < |t.calls| ensures exchange(t.calls[..i + 1]) == t.replies[i] {
      assert exchange(t'.calls[..i + 1]) == t'.replies[i];
      assert t'.calls[..i + 1] == t.calls[..i + 1];
    }
    if CallOf(step).Some? {
      var n := |t.calls|;
      assert exchange(t'.calls[..n + 1]) == t'.replies[n];
      assert t'.calls[..n + 1] == t'.calls;
    }
  }

  /** Writing down one step more keeps the transcript a part of the run, or completes it. */
  lemma WrittenIsOnScript(steps: seq<ExecutionStep>, t: Transcript, i: nat, reply: Reply)
    requires i < |steps| && OnScript(steps, t, i)
    ensures if ResultFor(steps[i], reply).success && i + 1 < |steps|
            then OnScript(steps, Written(t, steps[i], reply), i + 1)
            else WholeScript(steps, Written(t, steps[i], reply))
  {
    var t', r := Written(t, steps[i], reply), ResultFor(steps[i], reply);
    forall exchange | Agrees(exchange, t')
      ensures if r.success && i + 1 < |steps| then OnTrack(steps, exchange, i + 1, t'.calls, t'.results)
              else RunSteps(steps, exchange, []) == Trace(t'.calls, t'.results)
    {
      AgreesEarlier(exchange, t, steps[i], reply);
      TrackStep(steps, exchange, i, t.calls, t.results, r, t'.calls);
      if r.success && i + 1 == |steps| { TrackEnds(steps, exchange, t'.calls, t'.results); }
    }
  }

  lemma TrackEnds(steps: seq<ExecutionStep>, exchange: Exchange, calls: seq<Call>, results: seq<StepResult>)
    requires OnTrack(steps, exchange, |steps|, calls, results)
    ensures RunSteps(steps, exchange, []) == Trace(calls, results)
  {
    assert steps[|steps|..] == [];
  }

  /** Some exchange replies as the transcript says. */
  function Replaying(replies: seq<Reply>): Exchange {
    calls => if 1 <= |calls| <= |replies| then replies[|calls| - 1] else Error("")
  }

  lemma ReplayingAgrees(t: Transcript)
    requires |t.calls| == |t.replies|
    ensures Agrees(Replaying(t.replies), t)
  {}

  // ---------- the worker's records ----------

  /** The error text a result carries. */
  function ErrorText(e: StepError): string {
    match e
    case NoError => ""
    case ExchangeError(m) => m
    case OrderFailed(i, n, m) => "order " + JsonText.Decimal(i + 1) + "/" + JsonText.Decimal(n) + " failed: " + m
    case UnknownStepAction(action) => "unknown step action: " + action
  }

  /** The trade view's record of one result. */
  function RecordOf(instr: Instruction, r: StepResult, at: int): TradeRecord {
    TradeRecord(at, instr.market, r.action, r.success, ErrorText(r.error), instr.signalId)
  }

  type Clock = nat -> (int, int)

  /** The log has grown by the records of the results, in order. */
  ghost predicate AllRecorded(instr: Instruction, clock: Clock, results: seq<StepResult>, before: seq<TradeRecord>,
                              log: seq<TradeRecord>) {
    && |log| == |before| + |results| && before <= log
    && forall k :: 0 <= k < |results| ==> log[|before| + k] == RecordOf(instr, results[k], clock(k).0)
  }

  class Worker {
    const breaker: Breaker
    const recorder: TradeStore?

    constructor (breaker: Breaker, recorder: TradeStore?)
      ensures this.breaker == breaker && this.recorder == recorder
    {
      this.breaker, this.recorder := breaker, recorder;
    }

    ghost predicate Valid()
      reads this, breaker, recorder, if recorder == null then {} else {recorder.records}
    {
      breaker.Valid() && (recorder != null ==> recorder.Valid())
    }

    /** One step: the call its action names, with the step's own arguments. */
    method ExecuteStep(step: ExecutionStep, exchange: Exchange, made: seq<Call>)
      returns (r: StepResult, calls: seq<Call>)
      ensures r.action == step.action
      ensures step.action == "place_order" ==>
        calls == made + [PlaceOrder(step.orders, if step.grouping == "" then "na" else step.grouping)]
      ensures step.action == "update_leverage" ==>
        calls == made + [UpdateLeverage(step.asset, step.leverage, step.isCross)]
      ensures step.action == "cancel_by_cloid" ==> calls == made + [CancelByCloid(step.cancels)]
      ensures step.action == "cancel_by_oid" ==> calls == made + [CancelByOid(step.oidCancels)]
      ensures step.action == "modify_order" ==> calls == made + [ModifyOrders(step.modifications)]
      ensures Callless(step) ==> calls == made && !r.success && r.error == UnknownStepAction(step.action)
      ensures !Callless(step) ==>
        var reply := exchange(calls);
        && (reply.Error? ==> !r.success && r.error == ExchangeError(reply.message))
        && (reply.Statuses? && step.action != "place_order" ==> r.success)
        && (reply.Statuses? && step.action == "place_order" ==>
              (r.success <==> forall k :: 0 <= k < |reply.errors| ==> reply.errors[k] == ""))
      ensures DoesStep(step, exchange, made, r, calls)
    {
      var call := CallOf(step);
      if call.None? {
        return StepResult(step.action, false, UnknownStepAction(step.action)), made;
      }
      calls := made + [call.value];
      var reply := exchange(calls);
      if reply.Error? {
        return StepResult(step.action, false, ExchangeError(reply.message)), calls;
      }
      if step.action == PLACE_ORDER {
        FirstErrorIsFirst(reply.errors);
        for i := 0 to |reply.errors|
          invariant forall j :: 0 <= j < i ==> reply.errors[j] == ""
        {
          if reply.errors[i] != "" {
            return StepResult(step.action, false, OrderFailed(i, |reply.errors|, reply.errors[i])), calls;
          }
        }
      }
      return StepResult(step.action, true, NoError), calls;
    }

    /** Tells the trade view, if there is one, about a result. */
    method RecordTrade(instr: Instruction, r: StepResult, clock: Clock, ghost results: seq<StepResult>,
                       ghost log: seq<TradeRecord>, i: nat)
      requires i == |results|
          && (recorder != null ==> recorder.Valid() && AllRecorded(instr, clock, results, log, recorder.log))
      modifies recorder, if recorder == null then {} else {recorder.records}
      ensures recorder != null ==> recorder.Valid() && AllRecorded(instr, clock, results + [r], log, recorder.log)
      ensures recorder != null ==>
        var text := match r.error
                    case NoError => ""
                    case ExchangeError(m) => m
                    case OrderFailed(k, n, m) =>
                      "order " + JsonText.Decimal(k + 1) + "/" + JsonText.Decimal(n) + " failed: " + m
                    case UnknownStepAction(action) => "unknown step action: " + action;
        recorder.log == old(recorder.log)
                        + [TradeRecord(clock(i).0, instr.market, r.action, r.success, text, instr.signalId)]
    {
      if recorder != null {
        recorder.Add(RecordOf(instr, r, clock(i).0));
      }
    }

    /** Tells the breaker about a result if the step placed orders. */
    method FeedBreaker(r: StepResult, since: int, now: int,
                       ghost start: seq<Outcome>, ghost fed: seq<Outcome>, ghost results: seq<StepResult>, trips: nat)
      returns (total: nat, ghost fed': seq<Outcome>)
      requires breaker.Valid() && since <= now && breaker.history == start + fed && Feeds(fed, results, trips)
      modifies breaker
      ensures breaker.Valid() && breaker.history == start + fed' && Feeds(fed', results + [r], total)
      ensures r.action != "place_order" ==> breaker.history == old(breaker.history) && total == trips
      ensures r.action == "place_order" && r.success ==>
        breaker.history == old(breaker.history) + [Success] && total == trips
      ensures r.action == "place_order" && !r.success ==>
        && trips <= total <= trips + 1
        && breaker.history == old(breaker.history) + [Failure(since, now, total == trips + 1)]
    {
      total, fed' := trips, fed;
      if r.action != PLACE_ORDER {
        FeedNone(fed, results, trips, r);
      } else if r.success {
        FeedOne(fed, results, trips, r, Success);
        breaker.RecordSuccess();
        fed' := fed + [Success];
      } else {
        var trip := breaker.RecordFailure(since, now);
        FeedOne(fed, results, trips, r, Failure(since, now, trip));
        fed' := fed + [Failure(since, now, trip)];
        if trip { total := trips + 1; }
      }
    }

    /** The breaker and the trade view have heard of these results. */
    ghost predicate Told(instr: Instruction, clock: Clock, results: seq<StepResult>, trips: nat,
                         start: seq<Outcome>, fed: seq<Outcome>, log: seq<TradeRecord>)
      reads this, breaker, recorder, if recorder == null then {} else {recorder.records}
    {
      && Valid() && breaker.history == start + fed && Feeds(fed, results, trips)
      && (recorder != null ==> AllRecorded(instr, clock, results, log, recorder.log))
    }

    /** Makes one step and tells the breaker and the trade view about it. */
    method DoStep(instr: Instruction, i: nat, exchange: Exchange, clock: Clock, made: seq<Call>, trips: nat,
                  ghost results: seq<StepResult>, ghost start: seq<Outcome>, ghost fed: seq<Outcome>,
                      ghost log: seq<TradeRecord>)
      returns (r: StepResult, calls: seq<Call>, total: nat, ghost fed': seq<Outcome>)
      requires i < |instr.steps| && i == |results| && clock(i).0 <= clock(i).1
      requires Told(instr, clock, results, trips, start, fed, log)
      modifies breaker, recorder, if recorder == null then {} else {recorder.records}
      ensures Told(instr, clock, results + [r], total, start, fed', log)
      ensures DoesStep(instr.steps[i], exchange, made, r, calls)
    {
      r, calls := ExecuteStep(instr.steps[i], exchange, made);
      RecordTrade(instr, r, clock, results, log, i);
      total, fed' := FeedBreaker(r, clock(i).0, clock(i).1, start, fed, results, trips);
    }

    /** Runs the steps until one fails, records every result, tells the breaker about every
        place_order step, and counts how often the breaker tripped. */
    method ExecuteInstruction(instr: Instruction, exchange: Exchange, clock: Clock)
      returns (results: seq<StepResult>, calls: seq<Call>, trips: nat, ghost fed: seq<Outcome>)
      requires Valid() && forall i :: clock(i).0 <= clock(i).1
      modifies breaker, recorder, if recorder == null then {} else {recorder.records}
      ensures Valid() && Trace(calls, results) == RunSteps(instr.steps, exchange, [])
      ensures breaker.history == old(breaker.history) + fed && Feeds(fed, results, trips)
      ensures recorder != null ==> AllRecorded(instr, clock, results, old(recorder.log), recorder.log)
    {
      results, calls, trips, fed := [], [], 0, [];
      assert instr.steps[0..] == instr.steps;
      ghost var log := if recorder == null then [] else recorder.log;
      ghost var start := breaker.history;
      for i := 0 to |instr.steps|
        invariant |results| == i && OnTrack(instr.steps, exchange, i, calls, results)
        invariant Told(instr, clock, results, trips, start, fed, log)
      {
        var r, made, total;
        ghost var heard;
        r, made, total, heard := DoStep(instr, i, exchange, clock, calls, trips, results, start, fed, log);
        TrackStep(instr.steps, exchange, i, calls, results, r, made);
        results, calls, trips, fed := results + [r], made, total, heard;
        if !r.success { return; }
      }
      TrackEnds(instr.steps, exchange, calls, results);
    }
  }
}
