/** The records that travel over the relay and to the exchange. */
module Instructions {

  datatype Option<+T> = None | Some(value: T)

  const PLACE_ORDER := "place_order"
  const UPDATE_LEVERAGE := "update_leverage"
  const CANCEL_BY_CLOID := "cancel_by_cloid"
  const CANCEL_BY_OID := "cancel_by_oid"
  const MODIFY_ORDER := "modify_order"

  datatype LimitSpec = LimitSpec(tif: string)

  datatype TriggerWire = TriggerWire(isMarket: bool, triggerPx: string, tpsl: string)

  datatype OrderType = OrderType(limit: Option<LimitSpec>, trigger: Option<TriggerWire>)

  datatype OrderWire = OrderWire(a: int, b: bool, p: string, s: string, r: bool, t: OrderType, c: string)

  datatype CancelSpec = CancelSpec(a: int, o: int)

  datatype CancelCloidSpec = CancelCloidSpec(asset: int, cloid: string)

  datatype ModifySpec = ModifySpec(oid: int, order: OrderWire)

  datatype ExecutionStep = ExecutionStep(
    action: string,
    orders: seq<OrderWire>,
    grouping: string,
    cancels: seq<CancelCloidSpec>,
    oidCancels: seq<CancelSpec>,
    asset: int,
    leverage: int,
    isCross: bool,
    modifications: seq<ModifySpec>)

  datatype Instruction = Instruction(
    id: string,
    signalId: string,
    intentId: string,
    market: string,
    steps: seq<ExecutionStep>,
    signature: string)
}
