/** The risk validator: order, step and instruction checks against configured limits, the
    in-place leverage clamp, and the portfolio check. The asset resolver and the number
    parser are arbitrary. */
module Validator {
  import opened Instructions
  import opened Floats

  datatype RiskLimits = RiskLimits(
    maxLeverage: int,
    maxOrderSizeUSD: real,
    maxPriceDevPct: real,
    maxOrdersPerStep: int,
    maxStepsPerInstr: int,
    maxPerMinute: int,
    maxTotalExposureUSD: real,
    maxPositionsPerMarket: int)

  /** What parsing a number yields: a value, and whether there was no error. */
  datatype Parsed = Parsed(value: Float, ok: bool)

  datatype Resolver = Resolver(
    assetName: int -> Option<string>,
    oraclePrice: string -> Option<string>,
    maxLeverage: string -> Option<int>,
    parse: string -> Parsed)

  datatype Reason =
    | UnknownAsset | InvalidPrice | InvalidSize | OrderTooLarge | PriceDeviates
    | InvalidTriggerPrice | TriggerDeviates
    | NoOrders | TooManyOrders | NoCancels | NoOidCancels
    | InvalidLeverage | LeverageTooHigh | UnknownAction
    | NoSteps | TooManySteps
    | ExposureTooHigh | TooManyPositions

  /** Where and why an instruction is refused: step and item are -1 when the reason is not
      about one of them. */
  datatype Verdict = Pass | Refused(step: int, item: int, reason: Reason)

  // ---------- one order ----------

  /** The price an order is valued at: its trigger price when that is a positive number,
      else its own price. */
  function NotionalPrice(res: Resolver, o: OrderWire): Float {
    match o.t.trigger
    case Some(w) =>
      var tp := res.parse(w.triggerPx);
      if tp.ok && Gt(tp.value, ZERO) then tp.value else res.parse(o.p).value
    case None => res.parse(o.p).value
  }

  function OrderNotional(res: Resolver, o: OrderWire): Float {
    Mul(res.parse(o.s).value, NotionalPrice(res, o))
  }

  /** Distance from the oracle price in percent. */
  function Deviation(px: Float, oracle: Float): Float
    requires Gt(oracle, ZERO)
  {
    Mul(DivByPositive(AbsF(Add(px, Negate(oracle))), oracle), Fin(100.0))
  }

  /** The check against the oracle price; an oracle price that is missing, malformed or not
      positive passes everything. */
  function OracleError(lim: RiskLimits, res: Resolver, market: string, o: OrderWire): Option<Reason> {
    match res.oraclePrice(market)
    case None => None
    case Some(px) =>
      var oracle := res.parse(px);
      if !(oracle.ok && Gt(oracle.value, ZERO)) then None
      else
        match o.t.trigger
        case None =>
          if Gt(Deviation(res.parse(o.p).value, oracle.value), Fin(lim.maxPriceDevPct)) then Some(PriceDeviates)
          else None
        case Some(w) =>
          var tp := res.parse(w.triggerPx);
          if !tp.ok || NotPositive(tp.value) then Some(InvalidTriggerPrice)
          else if Gt(Deviation(tp.value, oracle.value), Fin(lim.maxPriceDevPct * 2.0)) then Some(TriggerDeviates)
          else None
  }

  function OrderError(lim: RiskLimits, res: Resolver, o: OrderWire): Option<Reason> {
    match res.assetName(o.a)
    case None => Some(UnknownAsset)
    case Some(market) =>
      var price, size := res.parse(o.p), res.parse(o.s);
      if !price.ok || NotPositive(price.value) then Some(InvalidPrice)
      else if !size.ok || NotPositive(size.value) then Some(InvalidSize)
      else if Gt(OrderNotional(res, o), Fin(lim.maxOrderSizeUSD)) then Some(OrderTooLarge)
      else OracleError(lim, res, market, o)
  }

  // ---------- steps ----------

  /** No order is refused. */
  predicate OrdersPass(lim: RiskLimits, res: Resolver, orders: seq<OrderWire>) {
    forall j :: 0 <= j < |orders| ==> OrderError(lim, res, orders[j]) == None
  }

  function ModifiedOrders(ms: seq<ModifySpec>): seq<OrderWire> {
    seq(|ms|, j requires 0 <= j < |ms| => ms[j].order)
  }

  predicate StepPasses(lim: RiskLimits, res: Resolver, s: ExecutionStep) {
    if s.action == UPDATE_LEVERAGE then 0 < s.leverage <= lim.maxLeverage
    else if s.action == PLACE_ORDER then 0 < |s.orders| <= lim.maxOrdersPerStep && OrdersPass(lim, res, s.orders)
    else if s.action == CANCEL_BY_CLOID then |s.cancels| > 0
    else if s.action == CANCEL_BY_OID then |s.oidCancels| > 0
    else s.action == MODIFY_ORDER && OrdersPass(lim, res, ModifiedOrders(s.modifications))
  }

  /** Action by action, what a step must satisfy: every order of a batch and every order a
      modification carries passes on its own. */
  lemma StepPassesExactly(lim: RiskLimits, res: Resolver, s: ExecutionStep)
    ensures s.action == "update_leverage" ==> (StepPasses(lim, res, s) <==> 1 <= s.leverage <= lim.maxLeverage)
    ensures s.action == "place_order" ==>
      (StepPasses(lim, res, s) <==>
         && 1 <= |s.orders| <= lim.maxOrdersPerStep
         && forall j :: 0 <= j < |s.orders| ==> OrderError(lim, res, s.orders[j]) == None)
    ensures s.action == "modify_order" ==>
      (StepPasses(lim, res, s) <==>
        forall j :: 0 <= j < |s.modifications| ==> OrderError(lim, res, s.modifications[j].order) == None)
    ensures s.action == "cancel_by_cloid" ==> (StepPasses(lim, res, s) <==> s.cancels != [])
    ensures s.action == "cancel_by_oid" ==> (StepPasses(lim, res, s) <==> s.oidCancels != [])
    ensures StepPasses(lim, res, s) ==>
      s.action in ["place_order", "update_leverage", "cancel_by_cloid", "cancel_by_oid", "modify_order"]
  {
    var modified := ModifiedOrders(s.modifications);
    assert |modified| == |s.modifications|;
    assert forall j :: 0 <= j < |modified| ==> modified[j] == s.modifications[j].order;
  }

  /** A leverage above the exchange's maximum for the instruction's market is lowered to it. */
  function ClampStep(res: Resolver, market: string, s: ExecutionStep): ExecutionStep {
    if s.action == UPDATE_LEVERAGE && market != "" then
      match res.maxLeverage(market)
      case Some(m) => if s.leverage > m then s.(leverage := m) else s
      case None => s
    else s
  }

  function Clamp(res: Resolver, market: string, steps: seq<ExecutionStep>): seq<ExecutionStep> {
    seq(|steps|, i requires 0 <= i < |steps| => ClampStep(res, market, steps[i]))
  }

  predicate Accepts(lim: RiskLimits, res: Resolver, steps: seq<ExecutionStep>) {
    && 0 < |steps| <= lim.maxStepsPerInstr
    && forall i :: 0 <= i < |steps| ==> StepPasses(lim, res, steps[i])
  }

  /** What a refusal reports is true: a refused step is the first that does not pass, and a
      refused order the first of its step. */
  predicate Truthful(lim: RiskLimits, res: Resolver, steps: seq<ExecutionStep>, v: Verdict) {
    match v
    case Pass => Accepts(lim, res, steps)
    case Refused(-1, _, r) => if |steps| == 0 then r == NoSteps else r == TooManySteps && |steps| > lim.maxStepsPerInstr
    case Refused(i, j, r) =>
      && 0 < |steps| <= lim.maxStepsPerInstr && 0 <= i < |steps|
      && (forall k :: 0 <= k < i ==> StepPasses(lim, res, steps[k]))
      && TruthfulStep(lim, res, steps[i], j, r)
  }

  predicate TruthfulStep(lim: RiskLimits, res: Resolver, s: ExecutionStep, j: int, r: Reason) {
    if s.action == UPDATE_LEVERAGE then
      if s.leverage <= 0 then r == InvalidLeverage else s.leverage > lim.maxLeverage && r == LeverageTooHigh
    else if s.action == PLACE_ORDER then
      if s.orders == [] then r == NoOrders
      else if |s.orders| > lim.maxOrdersPerStep then r == TooManyOrders
      else TruthfulOrder(lim, res, s.orders, j, r)
    else if s.action == CANCEL_BY_CLOID then s.cancels == [] && r == NoCancels
    else if s.action == CANCEL_BY_OID then s.oidCancels == [] && r == NoOidCancels
    else if s.action == MODIFY_ORDER then TruthfulOrder(lim, res, ModifiedOrders(s.modifications), j, r)
    else r == UnknownAction
  }

  predicate TruthfulOrder(lim: RiskLimits, res: Resolver, orders: seq<OrderWire>, j: int, r: Reason) {
    0 <= j < |orders| && OrdersPass(lim, res, orders[..j]) && OrderError(lim, res, orders[j]) == Some(r)
  }

  /** A refusal points at the first offending order itself. */
  lemma RefusedItem(lim: RiskLimits, res: Resolver, s: ExecutionStep, j: int, r: Reason)
    requires TruthfulStep(lim, res, s, j, r)
    ensures s.action == "modify_order" ==>
      && 0 <= j < |s.modifications| && OrderError(lim, res, s.modifications[j].order) == Some(r)
      && forall k :: 0 <= k < j ==> OrderError(lim, res, s.modifications[k].order) == None
    ensures s.action == "place_order" && 1 <= |s.orders| <= lim.maxOrdersPerStep ==>
      && 0 <= j < |s.orders| && OrderError(lim, res, s.orders[j]) == Some(r)
      && forall k :: 0 <= k < j ==> OrderError(lim, res, s.orders[k]) == None
  {
    if s.action == MODIFY_ORDER {
      var modified := ModifiedOrders(s.modifications);
      assert |modified| == |s.modifications|;
      forall k | 0 <= k < j ensures OrderError(lim, res, s.modifications[k].order) == None {
        assert modified[..j][k] == s.modifications[k].order;
      }
    }
    if s.action == PLACE_ORDER && 1 <= |s.orders| <= lim.maxOrdersPerStep {
      forall k | 0 <= k < j ensures OrderError(lim, res, s.orders[k]) == None {
        assert s.orders[..j][k] == s.orders[k];
      }
    }
  }

  // ---------- the portfolio check ----------

  datatype HeldPosition = HeldPosition(coin: string, szi: string)

  datatype AccountState = AccountState(totalNtlPos: string, positions: seq<HeldPosition>)

  /** The open positions in one market. */
  function OpenIn(res: Resolver, positions: seq<HeldPosition>, market: string): seq<HeldPosition> {
    if positions == [] then []
    else
      var n := |positions| - 1;
      var before := OpenIn(res, positions[..n], market);
      if positions[n].coin == market && res.parse(positions[n].szi).value != ZERO then before + [positions[n]]
      else before
  }

  lemma LastPosition(res: Resolver, positions: seq<HeldPosition>, market: string, all: set<int>, before: set<int>)
    requires positions != []
    requires all == set i | 0 <= i < |positions| && positions[i].coin == market
                            && res.parse(positions[i].szi).value != Fin(0.0)
    requires var rest := positions[..|positions| - 1];
      before == set i | 0 <= i < |rest| && rest[i].coin == market && res.parse(rest[i].szi).value != Fin(0.0)
    ensures var n := |positions| - 1;
      && n !in before
      && all == if positions[n].coin == market && res.parse(positions[n].szi).value != Fin(0.0) then before + {n}
                else before
  {}

  /** They are counted by their places: the positions in that market whose size is not zero,
      NaN counting as not zero. */
  lemma {:induction false} OpenInCounts(res: Resolver, positions: seq<HeldPosition>, market: string)
    ensures |OpenIn(res, positions, market)| == |set i | 0 <= i < |positions| && positions[i].coin == market
                                                         && res.parse(positions[i].szi).value != Fin(0.0)|
  {
    if positions != [] {
      var n := |positions| - 1;
      OpenInCounts(res, positions[..n], market);
      var all := set i | 0 <= i < |positions| && positions[i].coin == market
                         && res.parse(positions[i].szi).value != Fin(0.0);
      var before := set i | 0 <= i < |positions[..n]| && positions[..n][i].coin == market
                            && res.parse(positions[..n][i].szi).value != Fin(0.0);
      LastPosition(res, positions, market, all, before);
    }
  }

  function PortfolioError(lim: RiskLimits, res: Resolver, account: Option<AccountState>, market: string,
                          notional: Float): Option<Reason> {
    if lim.maxTotalExposureUSD == 0.0 && lim.maxPositionsPerMarket == 0 then None
    else if account == None then None
    else
      var state := account.value;
      var projected := Add(AbsF(res.parse(state.totalNtlPos).value), notional);
      if lim.maxTotalExposureUSD > 0.0 && Gt(projected, Fin(lim.maxTotalExposureUSD)) then Some(ExposureTooHigh)
      else if lim.maxPositionsPerMarket > 0 && |OpenIn(res, state.positions, market)| >= lim.maxPositionsPerMarket
      then Some(TooManyPositions)
      else None
  }

  // ---------- the validator object ----------

  class RiskValidator {
    var limits: RiskLimits
    const resolver: Resolver

    constructor (limits: RiskLimits, resolver: Resolver)
      ensures this.limits == limits && this.resolver == resolver
    {
      this.limits, this.resolver := limits, resolver;
    }

    method UpdateLimits(limits: RiskLimits)
      modifies this
      ensures this.limits == limits
    {
      this.limits := limits;
    }

    /** Accepts exactly the acceptable instructions, and leaves their steps clamped; a
        refusal names the first offending step, the steps before it already clamped. */
    method Validate(market: string, steps: array<ExecutionStep>) returns (v: Verdict)
      modifies steps
      ensures v == Pass <==> Accepts(limits, resolver, old(steps[..]))
      ensures Truthful(limits, resolver, old(steps[..]), v)
      ensures v == Pass ==> steps[..] == Clamp(resolver, market, old(steps[..]))
      ensures v.Refused? && v.step < 0 ==>
        if steps.Length == 0 then v.reason == NoSteps
        else v.reason == TooManySteps && steps.Length > limits.maxStepsPerInstr
      ensures v.Refused? ==>
        var i := if v.step < 0 then 0 else v.step;
        i <= steps.Length && steps[..] == Clamp(resolver, market, old(steps[..i])) + old(steps[i..])
    {
      if steps.Length == 0 { return Refused(-1, -1, NoSteps); }
      if steps.Length > limits.maxStepsPerInstr { return Refused(-1, -1, TooManySteps); }
      for i := 0 to steps.Length
        invariant forall k :: 0 <= k < i ==> StepPasses(limits, resolver, old(steps[k]))
        invariant forall k :: 0 <= k < i ==> steps[k] == ClampStep(resolver, market, old(steps[k]))
        invariant forall k :: i <= k < steps.Length ==> steps[k] == old(steps[k])
      {
        v := ValidateStep(market, steps, i);
        if v.Refused? { return; }
      }
      return Pass;
    }

    method ValidateStep(market: string, steps: array<ExecutionStep>, i: nat) returns (v: Verdict)
      requires i < steps.Length
      modifies steps
      ensures forall k :: 0 <= k < steps.Length && k != i ==> steps[k] == old(steps[k])
      ensures v == Pass ==>
        StepPasses(limits, resolver, old(steps[i])) && steps[i] == ClampStep(resolver, market, old(steps[i]))
      ensures v.Refused? ==> v.step == i && steps[i] == old(steps[i])
      ensures v.Refused? ==> !StepPasses(limits, resolver, old(steps[i]))
      ensures v.Refused? ==> TruthfulStep(limits, resolver, old(steps[i]), v.item, v.reason)
      ensures var s := old(steps[i]);
        && (s.action == "place_order" ==>
              (v == Pass <==>
                 && 1 <= |s.orders| <= limits.maxOrdersPerStep
                 && forall j :: 0 <= j < |s.orders| ==> OrderError(limits, resolver, s.orders[j]) == None))
        && (s.action == "modify_order" ==>
              (v == Pass <==>
                 forall j :: 0 <= j < |s.modifications| ==>
                   OrderError(limits, resolver, s.modifications[j].order) == None))
        && (s.action == "modify_order" && v.Refused? ==>
              && 0 <= v.item < |s.modifications|
              && OrderError(limits, resolver, s.modifications[v.item].order) == Some(v.reason)
              && forall j :: 0 <= j < v.item ==> OrderError(limits, resolver, s.modifications[j].order) == None)
        && (s.action == "place_order" && v.Refused? && 1 <= |s.orders| <= limits.maxOrdersPerStep ==>
              && 0 <= v.item < |s.orders| && OrderError(limits, resolver, s.orders[v.item]) == Some(v.reason)
              && forall j :: 0 <= j < v.item ==> OrderError(limits, resolver, s.orders[j]) == None)
      ensures v.Refused? ==>
        match old(steps[i]).action
        case "update_leverage" => v.reason == if old(steps[i]).leverage <= 0 then InvalidLeverage else LeverageTooHigh
        case "place_order" =>
          && (v.reason == NoOrders <==> old(steps[i]).orders == [])
          && (v.reason == TooManyOrders <==>
                old(steps[i]).orders != [] && |old(steps[i]).orders| > limits.maxOrdersPerStep)
        case "cancel_by_cloid" => v.reason == NoCancels
        case "cancel_by_oid" => v.reason == NoOidCancels
        case "modify_order" => v.item >= 0
        case _ => v.reason == UnknownAction
    {
      StepPassesExactly(limits, resolver, steps[i]);
      var step := steps[i];
      if step.action == UPDATE_LEVERAGE {
        if step.leverage <= 0 { return Refused(i, -1, InvalidLeverage); }
        if step.leverage > limits.maxLeverage { return Refused(i, -1, LeverageTooHigh); }
        if market != "" {
          var maxLev := resolver.maxLeverage(market);
          if maxLev.Some? && step.leverage > maxLev.value {
            steps[i] := step.(leverage := maxLev.value);
          }
        }
        return Pass;
      } else if step.action == PLACE_ORDER {
        if |step.orders| == 0 { return Refused(i, -1, NoOrders); }
        if |step.orders| > limits.maxOrdersPerStep { return Refused(i, -1, TooManyOrders); }
        v := ValidateOrders(i, step.orders);
        if v.Refused? { RefusedItem(limits, resolver, step, v.item, v.reason); }
      } else if step.action == CANCEL_BY_CLOID {
        return if |step.cancels| == 0 then Refused(i, -1, NoCancels) else Pass;
      } else if step.action == CANCEL_BY_OID {
        return if |step.oidCancels| == 0 then Refused(i, -1, NoOidCancels) else Pass;
      } else if step.action == MODIFY_ORDER {
        v := ValidateOrders(i, ModifiedOrders(step.modifications));
        if v.Refused? { RefusedItem(limits, resolver, step, v.item, v.reason); }
      } else {
        return Refused(i, -1, UnknownAction);
      }
    }

    /** Stops at the first order that is refused. */
    method ValidateOrders(i: nat, orders: seq<OrderWire>) returns (v: Verdict)
      ensures v == Pass <==> OrdersPass(limits, resolver, orders)
      ensures v.Refused? ==> v.step == i && TruthfulOrder(limits, resolver, orders, v.item, v.reason)
    {
      for j := 0 to |orders|
        invariant OrdersPass(limits, resolver, orders[..j])
      {
        var err := OrderError(limits, resolver, orders[j]);
        if err.Some? { return Refused(i, j, err.value); }
      }
      assert orders[..|orders|] == orders;
      return Pass;
    }

    /** Passes when nothing is limited or the account cannot be fetched; the exposure comes
        first, then the number of open positions in the market. */
    method ValidatePortfolio(account: Option<AccountState>, market: string, newNotional: Float)
      returns (err: Option<Reason>)
      ensures err == PortfolioError(limits, resolver, account, market, newNotional)
      ensures account == None ==> err == None
      ensures account.Some? && !(err == Some(ExposureTooHigh)) && limits.maxPositionsPerMarket > 0 ==>
        var positions := account.value.positions;
        (err == Some(TooManyPositions) <==>
          |set i | 0 <= i < |positions| && positions[i].coin == market
                   && resolver.parse(positions[i].szi).value != Fin(0.0)| >= limits.maxPositionsPerMarket)
    {
      if account.Some? { OpenInCounts(resolver, account.value.positions, market); }
      if limits.maxTotalExposureUSD == 0.0 && limits.maxPositionsPerMarket == 0 { return None; }
      if account.None? { return None; }
      var state := account.value;
      if limits.maxTotalExposureUSD > 0.0 {
        var total := resolver.parse(state.totalNtlPos).value;
        if Gt(ZERO, total) { total := Negate(total); }
        if Gt(Add(total, newNotional), Fin(limits.maxTotalExposureUSD)) { return Some(ExposureTooHigh); }
      }
      if limits.maxPositionsPerMarket > 0 {
        var count := 0;
        for i := 0 to |state.positions|
          invariant count == |OpenIn(resolver, state.positions[..i], market)|
        {
          assert state.positions[..i + 1][..i] == state.positions[..i];
          if state.positions[i].coin == market && resolver.parse(state.positions[i].szi).value != ZERO {
            count := count + 1;
          }
        }
        assert state.positions[..|state.positions|] == state.positions;
        if count >= limits.maxPositionsPerMarket { return Some(TooManyPositions); }
      }
      return None;
    }
  }
}
