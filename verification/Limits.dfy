/** What the validator's verdict is worth: it is monotone in the limits, its clamp only
    lowers leverage and is stable, and it bounds the instruction's notional. */
module Limits {
  import opened Instructions
  import opened Floats
  import opened Validator

  // ---------- what an order must satisfy ----------

  /** A number that parsed and is not zero or less: positive, infinite, or NaN. */
  predicate NotRefused(x: Parsed) { x.ok && (x.value.Fin? ==> x.value.r > 0.0) && x.value != NegInf }

  predicate Positive(x: Parsed) { x.ok && (x.value == PosInf || (x.value.Fin? && x.value.r > 0.0)) }

  /** px lies within pct percent of the oracle price, on either side. */
  predicate Near(px: real, oracle: real, pct: real) {
    -(pct * oracle) <= 100.0 * (px - oracle) <= pct * oracle
  }

  /** The same for prices that need not be finite: next to NaN or an infinite oracle price
      every price passes, next to a finite one no infinite price does. */
  predicate Close(px: Float, oracle: Float, pct: real) {
    px.NaN? || oracle == PosInf || (px.Fin? && oracle.Fin? && Near(px.r, oracle.r, pct))
  }

  /** A value within the limit, or no value at all. */
  predicate Affordable(size: Float, px: Float, cap: real) {
    size.NaN? || px.NaN? || (size.Fin? && px.Fin? && size.r * px.r <= cap)
  }

  /** Plain orders stay near a usable oracle price; trigger orders have a trigger price that
      is not refused within twice that distance. */
  predicate NearOracle(lim: RiskLimits, res: Resolver, oracle: Float, o: OrderWire) {
    match o.t.trigger
    case None => Close(res.parse(o.p).value, oracle, lim.maxPriceDevPct)
    case Some(w) =>
      NotRefused(res.parse(w.triggerPx)) && Close(res.parse(w.triggerPx).value, oracle, 2.0 * lim.maxPriceDevPct)
  }

  /** The deviation is above a percentage when the distance is above that share of the
      oracle price. */
  lemma DeviationIsDistance(px: real, oracle: real, pct: real)
    requires oracle > 0.0
    ensures Gt(Deviation(Fin(px), Fin(oracle)), Fin(pct)) <==> !Near(px, oracle, pct)
  {
    var d := if px - oracle < 0.0 then oracle - px else px - oracle;
    PercentAbove(d, oracle, pct, d / oracle * 100.0);
    NearIsWithin(px, oracle, pct, d);
    assert Deviation(Fin(px), Fin(oracle)) == Fin(d / oracle * 100.0);
  }

  lemma PercentAbove(d: real, oracle: real, pct: real, percent: real)
    requires oracle > 0.0 && percent == d / oracle * 100.0
    ensures percent > pct <==> 100.0 * d > pct * oracle
  {
    assert percent * oracle == 100.0 * d by { DivideAndScale(d, oracle, d / oracle); }
    ScaleBy(percent, pct, oracle);
  }

  lemma DivideAndScale(d: real, oracle: real, q: real)
    requires oracle > 0.0 && q == d / oracle
    ensures q * 100.0 * oracle == 100.0 * d
  {
    assert q * oracle == d;
  }

  lemma NearIsWithin(px: real, oracle: real, pct: real, d: real)
    requires d == if px - oracle < 0.0 then oracle - px else px - oracle
    ensures Near(px, oracle, pct) <==> 100.0 * d <= pct * oracle
  {}

  lemma ScaleBy(a: real, b: real, c: real)
    requires c > 0.0
    ensures a > b <==> a * c > b * c
  {}

  lemma DeviationIsClose(px: Float, oracle: Float, pct: real)
    requires Gt(oracle, ZERO) && (px.Fin? ==> px.r > 0.0) && px != NegInf
    ensures Gt(Deviation(px, oracle), Fin(pct)) <==> !Close(px, oracle, pct)
  {
    if px.Fin? && oracle.Fin? { DeviationIsDistance(px.r, oracle.r, pct); }
  }

  lemma OracleErrorExact(lim: RiskLimits, res: Resolver, market: string, o: OrderWire)
    requires NotRefused(res.parse(o.p))
    ensures OracleError(lim, res, market, o) == None <==>
      (res.oraclePrice(market).Some? && Positive(res.parse(res.oraclePrice(market).value)) ==>
         NearOracle(lim, res, res.parse(res.oraclePrice(market).value).value, o))
  {
    if res.oraclePrice(market).Some? && Positive(res.parse(res.oraclePrice(market).value)) {
      var oracle := res.parse(res.oraclePrice(market).value).value;
      DeviationIsClose(res.parse(o.p).value, oracle, lim.maxPriceDevPct);
      if o.t.trigger.Some? && NotRefused(res.parse(o.t.trigger.value.triggerPx)) {
        DeviationIsClose(res.parse(o.t.trigger.value.triggerPx).value, oracle, 2.0 * lim.maxPriceDevPct);
      }
    }
  }

  lemma ProductWithin(size: Float, px: Float, cap: real)
    requires (size.Fin? ==> size.r > 0.0) && size != NegInf && (px.Fin? ==> px.r > 0.0) && px != NegInf
    ensures Gt(Mul(size, px), Fin(cap)) <==> !Affordable(size, px, cap)
  {}

  /** An order is valued at its size times its trigger price exactly when it has one that is
      positive, else at its size times its own price. */
  lemma ValuedAt(res: Resolver, o: OrderWire)
    ensures var px := if o.t.trigger.Some? && Positive(res.parse(o.t.trigger.value.triggerPx))
                      then res.parse(o.t.trigger.value.triggerPx).value else res.parse(o.p).value;
            NotionalPrice(res, o) == px && OrderNotional(res, o) == Mul(res.parse(o.s).value, px)
  {}

  /** An order passes if and only if its asset is known, its price and size parse and are not
      zero or less, its value, at the trigger price if that is positive, is within the limit
      or NaN, and it is near the oracle price when there is a usable one. */
  lemma OrderPassesExactly(lim: RiskLimits, res: Resolver, o: OrderWire)
    ensures OrderError(lim, res, o) == None <==>
      && res.assetName(o.a).Some?
      && var oracle, px := res.oraclePrice(res.assetName(o.a).value),
                           if o.t.trigger.Some? && Positive(res.parse(o.t.trigger.value.triggerPx))
                           then res.parse(o.t.trigger.value.triggerPx).value else res.parse(o.p).value;
         && NotRefused(res.parse(o.p)) && NotRefused(res.parse(o.s))
         && Affordable(res.parse(o.s).value, px, lim.maxOrderSizeUSD)
         && (oracle.Some? && Positive(res.parse(oracle.value))
             ==> NearOracle(lim, res, res.parse(oracle.value).value, o))
  {
    ValuedAt(res, o);
    if res.assetName(o.a).Some? && NotRefused(res.parse(o.p)) && NotRefused(res.parse(o.s)) {
      OracleErrorExact(lim, res, res.assetName(o.a).value, o);
      ProductWithin(res.parse(o.s).value, NotionalPrice(res, o), lim.maxOrderSizeUSD);
    }
  }

  /** A refused order is refused for the first condition it violates. */
  lemma OrderRefusedExactly(lim: RiskLimits, res: Resolver, o: OrderWire)
    requires OrderError(lim, res, o) != None
    ensures var r := OrderError(lim, res, o).value;
      if res.assetName(o.a) == None then r == UnknownAsset
      else if !NotRefused(res.parse(o.p)) then r == InvalidPrice
      else if !NotRefused(res.parse(o.s)) then r == InvalidSize
      else if !Affordable(res.parse(o.s).value, NotionalPrice(res, o), lim.maxOrderSizeUSD) then r == OrderTooLarge
      else if o.t.trigger == None then r == PriceDeviates
      else if !NotRefused(res.parse(o.t.trigger.value.triggerPx)) then r == InvalidTriggerPrice
      else r == TriggerDeviates
  {
    if res.assetName(o.a).Some? && NotRefused(res.parse(o.p)) && NotRefused(res.parse(o.s)) {
      ProductWithin(res.parse(o.s).value, NotionalPrice(res, o), lim.maxOrderSizeUSD);
    }
  }

  // ---------- raising limits ----------

  /** b limits at most as much as a, where zero or less means no limit. */
  predicate LooserCap(a: real, b: real) { b <= 0.0 || 0.0 < a <= b }

  predicate LooserCount(a: int, b: int) { b <= 0 || 0 < a <= b }

  predicate Looser(a: RiskLimits, b: RiskLimits) {
    && a.maxLeverage <= b.maxLeverage
    && a.maxOrderSizeUSD <= b.maxOrderSizeUSD
    && a.maxPriceDevPct <= b.maxPriceDevPct
    && a.maxOrdersPerStep <= b.maxOrdersPerStep
    && a.maxStepsPerInstr <= b.maxStepsPerInstr
    && LooserCap(a.maxTotalExposureUSD, b.maxTotalExposureUSD)
    && LooserCount(a.maxPositionsPerMarket, b.maxPositionsPerMarket)
  }

  lemma LooserOrder(a: RiskLimits, b: RiskLimits, res: Resolver, o: OrderWire)
    requires Looser(a, b) && OrderError(a, res, o) == None
    ensures OrderError(b, res, o) == None
  {}

  lemma LooserStep(a: RiskLimits, b: RiskLimits, res: Resolver, s: ExecutionStep)
    requires Looser(a, b) && StepPasses(a, res, s)
    ensures StepPasses(b, res, s)
  {
    forall o | OrderError(a, res, o) == None ensures OrderError(b, res, o) == None { LooserOrder(a, b, res, o); }
  }

  /** Raising any limits never turns an accepted instruction into a refused one, whatever
      the resolver and the account, and for the same notional passes the portfolio check. */
  lemma RaisingLimitsKeepsAcceptance(a: RiskLimits, b: RiskLimits, res: Resolver, steps: seq<ExecutionStep>,
                                     account: Option<AccountState>, market: string, notional: Float)
    requires Looser(a, b)
    ensures Accepts(a, res, steps) ==> Accepts(b, res, steps)
    ensures PortfolioError(a, res, account, market, notional) == None ==>
            PortfolioError(b, res, account, market, notional) == None
  {
    if Accepts(a, res, steps) {
      forall i | 0 <= i < |steps| ensures StepPasses(b, res, steps[i]) { LooserStep(a, b, res, steps[i]); }
    }
  }

  // ---------- the clamp ----------

  /** s' is s, except that the leverage of a leverage step may be lower. */
  predicate LoweredOnly(s: ExecutionStep, s': ExecutionStep) {
    && s' == s.(leverage := s'.leverage) && s'.leverage <= s.leverage
    && (s.action != UPDATE_LEVERAGE ==> s' == s)
  }

  /** The exchange's maximum that applies to an instruction, if any. */
  function ExchangeMax(res: Resolver, market: string): Option<int> {
    if market == "" then None else res.maxLeverage(market)
  }

  function Min(a: int, b: int): int { if a < b then a else b }

  /** An accepted instruction is changed only by lowering leverage, to the smaller of what
      was asked and the exchange maximum, and so ends within both limits. */
  lemma ClampIsSafe(lim: RiskLimits, res: Resolver, market: string, steps: seq<ExecutionStep>, i: nat)
    requires Accepts(lim, res, steps) && i < |steps|
    ensures var s, s' := steps[i], Clamp(res, market, steps)[i];
      && LoweredOnly(s, s')
      && (s.action == UPDATE_LEVERAGE ==>
            && s'.leverage <= lim.maxLeverage
            && match ExchangeMax(res, market)
               case Some(m) => s'.leverage == Min(s.leverage, m)
               case None => s' == s)
  {
    assert StepPasses(lim, res, steps[i]);
  }

  /** A leverage step for a market whose exchange maximum is below one: the clamp leaves a
      leverage no validator accepts. */
  predicate ClampedAway(res: Resolver, market: string, steps: seq<ExecutionStep>) {
    && ExchangeMax(res, market).Some? && ExchangeMax(res, market).value < 1
    && exists i :: 0 <= i < |steps| && steps[i].action == UPDATE_LEVERAGE
  }

  lemma ClampedStepPasses(lim: RiskLimits, res: Resolver, market: string, s: ExecutionStep)
    requires StepPasses(lim, res, s)
    ensures StepPasses(lim, res, ClampStep(res, market, s)) <==>
            !(s.action == UPDATE_LEVERAGE && ExchangeMax(res, market).Some? && ExchangeMax(res, market).value < 1)
  {}

  /** Validating an accepted instruction again changes nothing more, and accepts it if and
      only if no leverage was clamped below one. */
  lemma RevalidationExact(lim: RiskLimits, res: Resolver, market: string, steps: seq<ExecutionStep>)
    requires Accepts(lim, res, steps)
    ensures Clamp(res, market, Clamp(res, market, steps)) == Clamp(res, market, steps)
    ensures Accepts(lim, res, Clamp(res, market, steps)) <==> !ClampedAway(res, market, steps)
  {
    var clamped := Clamp(res, market, steps);
    forall i | 0 <= i < |steps|
      ensures StepPasses(lim, res, clamped[i]) <==>
              !(steps[i].action == UPDATE_LEVERAGE && ExchangeMax(res, market).Some?
                  && ExchangeMax(res, market).value < 1)
    {
      ClampedStepPasses(lim, res, market, steps[i]);
    }
    if ClampedAway(res, market, steps) {
      var i :| 0 <= i < |steps| && steps[i].action == UPDATE_LEVERAGE;
      assert !StepPasses(lim, res, clamped[i]);
    }
  }

  /** For all limits that allow a leverage step at all, an instruction that is accepted once,
      its leverage clamped to an exchange maximum of zero, and then no more. */
  lemma AcceptedOnce(lim: RiskLimits) returns (res: Resolver, market: string, steps: seq<ExecutionStep>)
    requires lim.maxStepsPerInstr >= 1 && lim.maxLeverage >= 1
    ensures Accepts(lim, res, steps) && ClampedAway(res, market, steps) && !Accepts(lim, res, Clamp(res, market, steps))
  {
    res := Resolver(_ => None, _ => None, _ => Some(0), _ => Parsed(NaN, false));
    market, steps := "BTC", [ExecutionStep(UPDATE_LEVERAGE, [], "", [], [], 0, 1, false, [])];
    assert StepPasses(lim, res, steps[0]);
    RevalidationExact(lim, res, market, steps);
  }

  // ---------- the notional estimate ----------

  /** Summing a batch of orders onto a running total, in order. */
  function OrdersTotal(res: Resolver, orders: seq<OrderWire>, start: Float): Float {
    if orders == [] then start
    else Add(OrdersTotal(res, orders[..|orders| - 1], start), OrderNotional(res, orders[|orders| - 1]))
  }

  /** The estimate of an instruction: every order of every place_order step, in order. */
  function Estimate(res: Resolver, steps: seq<ExecutionStep>): Float {
    if steps == [] then ZERO
    else
      var s, before := steps[|steps| - 1], Estimate(res, steps[..|steps| - 1]);
      if s.action == PLACE_ORDER then OrdersTotal(res, s.orders, before) else before
  }

  /** The client's own computation: it ignores parse errors and keeps one running total. */
  method EstimateInstructionNotional(res: Resolver, steps: seq<ExecutionStep>) returns (total: Float)
    ensures total == Estimate(res, steps)
  {
    total := ZERO;
    for i := 0 to |steps|
      invariant total == Estimate(res, steps[..i])
    {
      var step := steps[i];
      ghost var before := total;
      assert steps[..i + 1][..i] == steps[..i];
      if step.action != PLACE_ORDER { continue; }
      for j := 0 to |step.orders|
        invariant total == OrdersTotal(res, step.orders[..j], before)
      {
        var order := step.orders[j];
        var price, size := res.parse(order.p).value, res.parse(order.s).value;
        if order.t.trigger.Some? {
          var tp := res.parse(order.t.trigger.value.triggerPx);
          if tp.ok && Gt(tp.value, ZERO) { price := tp.value; }
        }
        assert step.orders[..j + 1][..j] == step.orders[..j];
        total := Add(total, Mul(size, price));
      }
      assert step.orders[..|step.orders|] == step.orders;
    }
    assert steps[..|steps|] == steps;
  }

  /** An order whose size, or the price it is valued at, is the special value NaN. Every
      comparison with NaN is false, so no size limit refuses such an order. */
  predicate NaNOrder(res: Resolver, o: OrderWire) {
    res.parse(o.s).value.NaN? || NotionalPrice(res, o).NaN?
  }

  predicate NaNOrders(res: Resolver, orders: seq<OrderWire>) {
    exists j :: 0 <= j < |orders| && NaNOrder(res, orders[j])
  }

  predicate NaNStep(res: Resolver, s: ExecutionStep) {
    s.action == PLACE_ORDER && NaNOrders(res, s.orders)
  }

  predicate NaNSteps(res: Resolver, steps: seq<ExecutionStep>) {
    exists i :: 0 <= i < |steps| && NaNStep(res, steps[i])
  }

  predicate PlacesOrders(steps: seq<ExecutionStep>) {
    exists i :: 0 <= i < |steps| && steps[i].action == PLACE_ORDER
  }

  /** An order that passes is either valued within the limit or not valued at all. */
  lemma PassingOrderNotional(lim: RiskLimits, res: Resolver, o: OrderWire)
    requires OrderError(lim, res, o) == None
    ensures NaNOrder(res, o) <==> OrderNotional(res, o) == NaN
    ensures !NaNOrder(res, o) ==> OrderNotional(res, o).Fin? && 0.0 < OrderNotional(res, o).r <= lim.maxOrderSizeUSD
  {
    var size, px := res.parse(o.s).value, NotionalPrice(res, o);
    if size.Fin? && px.Fin? { assert size.r * px.r > 0.0; }
  }

  /** n times m. */
  function Times(n: int, m: real): real { n as real * m }

  lemma TimesNext(n: int, m: real)
    ensures Times(n + 1, m) == Times(n, m) + m && Times(0, m) == 0.0 && Times(1, m) == m
  {}

  lemma TimesMonotone(n: nat, k: nat, m: real, b: real)
    requires n <= k && 0.0 <= m <= b
    ensures Times(n, m) <= Times(k, b)
  {
    assert n as real * m <= k as real * m;
    assert k as real * m <= k as real * b;
  }

  lemma {:induction false} OrdersTotalBound(lim: RiskLimits, res: Resolver, orders: seq<OrderWire>, start: Float)
    requires OrdersPass(lim, res, orders) && (start.Fin? || start.NaN?)
    ensures var t := OrdersTotal(res, orders, start);
      if start.NaN? || NaNOrders(res, orders) then t == NaN
      else
        && t.Fin? && start.r <= t.r <= start.r + Times(|orders|, lim.maxOrderSizeUSD)
        && (orders != [] ==> t.r > start.r)
  {
    if orders != [] {
      var n := |orders| - 1;
      OrdersTotalBound(lim, res, orders[..n], start);
      PassingOrderNotional(lim, res, orders[n]);
      TimesNext(n, lim.maxOrderSizeUSD);
      assert orders == orders[..n] + [orders[n]];
    }
  }

  /** The most one accepted step can be worth. */
  function StepCap(lim: RiskLimits): real { Times(lim.maxOrdersPerStep, lim.maxOrderSizeUSD) }

  lemma PassingStepBound(lim: RiskLimits, res: Resolver, s: ExecutionStep, start: Float)
    requires StepPasses(lim, res, s) && s.action == PLACE_ORDER && (start.Fin? || start.NaN?)
    ensures var t := OrdersTotal(res, s.orders, start);
      if start.NaN? || NaNStep(res, s) then t == NaN
      else t.Fin? && start.r < t.r <= start.r + StepCap(lim) && StepCap(lim) > 0.0
  {
    OrdersTotalBound(lim, res, s.orders, start);
    if !NaNStep(res, s) {
      PassingOrderNotional(lim, res, s.orders[0]);
      TimesMonotone(|s.orders|, lim.maxOrdersPerStep, lim.maxOrderSizeUSD, lim.maxOrderSizeUSD);
      TimesMonotone(1, lim.maxOrdersPerStep, lim.maxOrderSizeUSD, lim.maxOrderSizeUSD);
      TimesNext(0, lim.maxOrderSizeUSD);
    }
  }

  /** The estimate of accepted steps: NaN if one of them has an order valued at NaN, else
      zero without a place_order step, else positive and bounded step by step. */
  predicate Bounded(lim: RiskLimits, t: Float, n: nat, nan: bool, places: bool) {
    if nan then t == NaN
    else if places then t.Fin? && 0.0 < t.r <= Times(n, StepCap(lim)) && StepCap(lim) > 0.0
    else t == ZERO
  }

  lemma OneMoreStep(res: Resolver, steps: seq<ExecutionStep>)
    requires steps != []
    ensures var n := |steps| - 1;
      && (NaNSteps(res, steps) <==> NaNSteps(res, steps[..n]) || NaNStep(res, steps[n]))
      && (PlacesOrders(steps) <==> PlacesOrders(steps[..n]) || steps[n].action == PLACE_ORDER)
  {
    assert steps == steps[..|steps| - 1] + [steps[|steps| - 1]];
  }

  lemma {:induction false} EstimateBound(lim: RiskLimits, res: Resolver, steps: seq<ExecutionStep>)
    requires forall i :: 0 <= i < |steps| ==> StepPasses(lim, res, steps[i])
    ensures Bounded(lim, Estimate(res, steps), |steps|, NaNSteps(res, steps), PlacesOrders(steps))
  {
    if steps != [] {
      var n := |steps| - 1;
      EstimateBound(lim, res, steps[..n]);
      OneMoreStep(res, steps);
      TimesNext(n, StepCap(lim));
      if steps[n].action == PLACE_ORDER {
        PassingStepBound(lim, res, steps[n], Estimate(res, steps[..n]));
        if StepCap(lim) > 0.0 { TimesMonotone(0, n, StepCap(lim), StepCap(lim)); }
      }
    }
  }

  /** maxStepsPerInstr x maxOrdersPerStep x maxOrderSizeUSD. */
  function NotionalCap(lim: RiskLimits): real { Times(lim.maxStepsPerInstr, StepCap(lim)) }

  /** The notional bound: for an accepted instruction the estimate is a number, not negative
      and at most the product of the three limits, if and only if no order is valued at NaN
      and, should the product be negative, an order is placed: no order passes under such
      limits, and an instruction without orders is estimated at zero. */
  lemma NotionalBoundExact(lim: RiskLimits, res: Resolver, steps: seq<ExecutionStep>)
    requires Accepts(lim, res, steps)
    ensures (Estimate(res, steps).Fin? && 0.0 <= Estimate(res, steps).r <= NotionalCap(lim))
            <==> !NaNSteps(res, steps) && (PlacesOrders(steps) || NotionalCap(lim) >= 0.0)
  {
    EstimateBound(lim, res, steps);
    if !NaNSteps(res, steps) && PlacesOrders(steps) {
      TimesMonotone(|steps|, lim.maxStepsPerInstr, StepCap(lim), StepCap(lim));
    }
  }

  /** Limits of that kind: a negative number of orders per step, as the configuration allows,
      still accepts a leverage step, estimated at zero, above the product. */
  lemma AcceptedAboveNegativeCap(lim: RiskLimits, res: Resolver) returns (steps: seq<ExecutionStep>)
    requires lim.maxStepsPerInstr >= 1 && lim.maxLeverage >= 1 && lim.maxOrdersPerStep < 0 && lim.maxOrderSizeUSD > 0.0
    ensures Accepts(lim, res, steps) && !NaNSteps(res, steps) && Estimate(res, steps) == ZERO && NotionalCap(lim) < 0.0
  {
    steps := [ExecutionStep(UPDATE_LEVERAGE, [], "", [], [], 0, 1, false, [])];
    assert StepPasses(lim, res, steps[0]) && !NaNStep(res, steps[0]);
    EstimateBound(lim, res, steps);
    TimesNegative(lim.maxOrdersPerStep, lim.maxOrderSizeUSD);
    TimesNegativeStep(lim.maxStepsPerInstr, StepCap(lim));
  }

  lemma TimesNegative(n: int, m: real)
    requires n < 0 && m > 0.0
    ensures Times(n, m) < 0.0
  {}

  lemma TimesNegativeStep(n: int, m: real)
    requires n > 0 && m < 0.0
    ensures Times(n, m) < 0.0
  {}

  /** The portfolio check runs on an accepted instruction if and only if it places an order
      and none of its orders is valued at NaN. */
  lemma PortfolioCheckRunsExactly(lim: RiskLimits, res: Resolver, steps: seq<ExecutionStep>)
    requires Accepts(lim, res, steps)
    ensures Gt(Estimate(res, steps), ZERO) <==> PlacesOrders(steps) && !NaNSteps(res, steps)
  {
    EstimateBound(lim, res, steps);
  }

  /** An order priced at NaN passes whatever the limits and the oracle price. */
  lemma NaNOrderPasses(lim: RiskLimits, res: Resolver, o: OrderWire)
    requires res.assetName(o.a).Some? && o.t.trigger == None
    requires res.parse(o.p) == Parsed(NaN, true) && res.parse(o.s).ok && res.parse(o.s).value.Fin?
        && res.parse(o.s).value.r > 0.0
    ensures OrderError(lim, res, o) == None && NaNOrder(res, o)
  {}

  /** For all limits that allow an order at all, an accepted instruction that places one, is
      not valued, and skips the portfolio check. */
  lemma AcceptedUnvalued(lim: RiskLimits) returns (res: Resolver, steps: seq<ExecutionStep>)
    requires lim.maxStepsPerInstr >= 1 && lim.maxOrdersPerStep >= 1
    ensures Accepts(lim, res, steps) && PlacesOrders(steps) && NaNSteps(res, steps)
    ensures Estimate(res, steps) == NaN && !Gt(Estimate(res, steps), ZERO)
  {
    res := Resolver(_ => Some("BTC"), _ => Some("1"), _ => None,
                    s => Parsed(if s == "NaN" then NaN else Fin(1.0), true));
    var o := OrderWire(0, true, "NaN", "1", false, OrderType(Some(LimitSpec("Gtc")), None), "");
    NaNOrderPasses(lim, res, o);
    steps := [ExecutionStep(PLACE_ORDER, [o], "", [], [], 0, 0, false, [])];
    assert NaNOrder(res, steps[0].orders[0]);
    assert NaNStep(res, steps[0]) && StepPasses(lim, res, steps[0]);
    EstimateBound(lim, res, steps);
  }

  lemma ClampKeepsOrders(res: Resolver, market: string, s: ExecutionStep)
    ensures ClampStep(res, market, s).action == s.action && ClampStep(res, market, s).orders == s.orders
  {}

  /** The estimate is taken after the clamp, which does not change it. */
  lemma {:induction false} EstimateOfClamped(res: Resolver, market: string, steps: seq<ExecutionStep>)
    ensures Estimate(res, Clamp(res, market, steps)) == Estimate(res, steps)
  {
    if steps != [] {
      var n := |steps| - 1;
      EstimateOfClamped(res, market, steps[..n]);
      ClampKeepsOrders(res, market, steps[n]);
      assert Clamp(res, market, steps)[..n] == Clamp(res, market, steps[..n]);
    }
  }

  /** The estimate depends on the number parser only. */
  lemma {:induction false} EstimateByParser(a: Resolver, b: Resolver, steps: seq<ExecutionStep>)
    requires a.parse == b.parse
    ensures Estimate(a, steps) == Estimate(b, steps)
  {
    if steps != [] {
      var n := |steps| - 1;
      EstimateByParser(a, b, steps[..n]);
      TotalByParser(a, b, steps[n].orders, Estimate(a, steps[..n]));
    }
  }

  lemma {:induction false} TotalByParser(a: Resolver, b: Resolver, orders: seq<OrderWire>, start: Float)
    requires a.parse == b.parse
    ensures OrdersTotal(a, orders, start) == OrdersTotal(b, orders, start)
  {
    if orders != [] { TotalByParser(a, b, orders[..|orders| - 1], start); }
  }

  /** A total, taken as a magnitude, and a notional together within the limit; NaN, as ever,
      passes. */
  predicate ExposureWithin(total: Float, notional: Float, cap: real) {
    if total.NaN? || notional.NaN? || notional == NegInf then true
    else total.Fin? && notional.Fin? && (if total.r < 0.0 then -total.r else total.r) + notional.r <= cap
  }

  /** For a fetched account the portfolio check passes if and only if the exposure, taken as
      a magnitude, stays within its limit and the market has room for a position: fewer open
      positions in it than the limit, a position being open when its size is not zero. Limits
      of zero or less do not limit, and an account that cannot be fetched passes. The
      exposure is refused first. */
  lemma PortfolioSnapshot(lim: RiskLimits, res: Resolver, account: Option<AccountState>, market: string,
                          notional: Float)
    ensures account == None ==> PortfolioError(lim, res, account, market, notional) == None
    ensures account.Some? ==>
      var positions := account.value.positions;
      var open := set i | 0 <= i < |positions| && positions[i].coin == market
                          && res.parse(positions[i].szi).value != Fin(0.0);
      var exposed := lim.maxTotalExposureUSD > 0.0
        && !ExposureWithin(res.parse(account.value.totalNtlPos).value, notional, lim.maxTotalExposureUSD);
      PortfolioError(lim, res, account, market, notional) ==
        if exposed then Some(ExposureTooHigh)
        else if lim.maxPositionsPerMarket > 0 && |open| >= lim.maxPositionsPerMarket then Some(TooManyPositions)
        else None
  {
    if account.Some? { OpenInCounts(res, account.value.positions, market); }
  }

  // ---------- the estimate as a sum ----------

  /** The orders a step places. */
  function PlacedBy(s: ExecutionStep): seq<OrderWire> {
    if s.action == "place_order" then s.orders else []
  }

  /** The orders all steps place, in order. */
  function PlacedOrders(steps: seq<ExecutionStep>): seq<OrderWire> {
    if steps == [] then [] else PlacedBy(steps[0]) + PlacedOrders(steps[1..])
  }

  /** The sum of finite values. */
  function Sum(res: Resolver, orders: seq<OrderWire>): real {
    if orders == [] then 0.0
    else (if OrderNotional(res, orders[0]).Fin? then OrderNotional(res, orders[0]).r else 0.0) + Sum(res, orders[1..])
  }

  predicate AllFinite(res: Resolver, orders: seq<OrderWire>) {
    forall j :: 0 <= j < |orders| ==> OrderNotional(res, orders[j]).Fin?
  }

  lemma {:induction false} SumConcat(res: Resolver, a: seq<OrderWire>, b: seq<OrderWire>)
    ensures Sum(res, a + b) == Sum(res, a) + Sum(res, b)
  {
    if a == [] {
      assert a + b == b;
    } else {
      SumConcat(res, a[1..], b);
      assert (a + b)[1..] == a[1..] + b;
    }
  }

  lemma {:induction false} OrdersTotalIsSum(res: Resolver, orders: seq<OrderWire>, start: Float)
    requires AllFinite(res, orders) && start.Fin?
    ensures OrdersTotal(res, orders, start) == Fin(start.r + Sum(res, orders))
  {
    if orders != [] {
      var n := |orders| - 1;
      OrdersTotalIsSum(res, orders[..n], start);
      SumConcat(res, orders[..n], orders[n..]);
      assert orders == orders[..n] + orders[n..];
      assert OrderNotional(res, orders[n]).Fin? && Sum(res, orders[n..]) == OrderNotional(res, orders[n]).r;
    }
  }

  lemma {:induction false} PlacedConcat(a: seq<ExecutionStep>, b: seq<ExecutionStep>)
    ensures PlacedOrders(a + b) == PlacedOrders(a) + PlacedOrders(b)
  {
    if a == [] {
      assert a + b == b;
    } else {
      PlacedConcat(a[1..], b);
      assert (a + b)[1..] == a[1..] + b;
      Associate(PlacedBy(a[0]), PlacedOrders(a[1..]), PlacedOrders(b));
    }
  }

  lemma Associate(a: seq<OrderWire>, b: seq<OrderWire>, c: seq<OrderWire>)
    ensures a + (b + c) == a + b + c
  {}

  lemma PlacedByOne(s: ExecutionStep)
    ensures PlacedOrders([s]) == PlacedBy(s)
  {
    assert [s][1..] == [] && PlacedBy(s) + [] == PlacedBy(s);
  }

  lemma LastPlaced(steps: seq<ExecutionStep>)
    requires steps != []
    ensures PlacedOrders(steps) == PlacedOrders(steps[..|steps| - 1]) + PlacedBy(steps[|steps| - 1])
  {
    var before, last := steps[..|steps| - 1], steps[|steps| - 1];
    assert steps == before + [last];
    PlacedConcat(before, [last]);
    PlacedByOne(last);
  }

  lemma FiniteParts(res: Resolver, a: seq<OrderWire>, b: seq<OrderWire>)
    requires AllFinite(res, a + b)
    ensures AllFinite(res, a) && AllFinite(res, b)
  {
    assert forall j :: 0 <= j < |a| ==> (a + b)[j] == a[j];
    assert forall j :: 0 <= j < |b| ==> (a + b)[|a| + j] == b[j];
  }

  /** When every placed order has a finite value, the estimate is their sum. */
  lemma {:induction false} EstimateIsSum(res: Resolver, steps: seq<ExecutionStep>)
    requires AllFinite(res, PlacedOrders(steps))
    ensures Estimate(res, steps) == Fin(Sum(res, PlacedOrders(steps)))
  {
    if steps != [] {
      var n := |steps| - 1;
      var before, last := PlacedOrders(steps[..n]), PlacedBy(steps[n]);
      LastPlaced(steps);
      FiniteParts(res, before, last);
      EstimateIsSum(res, steps[..n]);
      SumConcat(res, before, last);
      OrdersTotalIsSum(res, last, Estimate(res, steps[..n]));
    }
  }

  lemma BothFinite(res: Resolver, a: seq<OrderWire>, b: seq<OrderWire>)
    requires AllFinite(res, a) && AllFinite(res, b)
    ensures AllFinite(res, a + b)
  {}

  lemma {:induction false} PassingOrdersAreFinite(lim: RiskLimits, res: Resolver, steps: seq<ExecutionStep>)
    requires (forall i :: 0 <= i < |steps| ==> StepPasses(lim, res, steps[i])) && !NaNSteps(res, steps)
    ensures AllFinite(res, PlacedOrders(steps))
  {
    if steps != [] {
      var n := |steps| - 1;
      OneMoreStep(res, steps);
      PassingOrdersAreFinite(lim, res, steps[..n]);
      LastPlaced(steps);
      assert StepPasses(lim, res, steps[n]) && !NaNStep(res, steps[n]);
      forall j | 0 <= j < |PlacedBy(steps[n])| ensures OrderNotional(res, PlacedBy(steps[n])[j]).Fin? {
        PassingOrderNotional(lim, res, steps[n].orders[j]);
      }
      BothFinite(res, PlacedOrders(steps[..n]), PlacedBy(steps[n]));
    }
  }

  /** The estimate of an accepted instruction with no order valued at NaN is the sum of its
      placed orders' values. */
  lemma AcceptedEstimateIsSum(lim: RiskLimits, res: Resolver, steps: seq<ExecutionStep>)
    requires Accepts(lim, res, steps) && !NaNSteps(res, steps)
    ensures Estimate(res, steps) == Fin(Sum(res, PlacedOrders(steps)))
  {
    PassingOrdersAreFinite(lim, res, steps);
    EstimateIsSum(res, steps);
  }
}
