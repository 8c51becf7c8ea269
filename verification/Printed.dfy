/** The canonical text of an instruction is its layout, written out key by key. */
module Printed {
  import opened Instructions
  import opened Float53
  import opened JsonText
  import opened KeyOrder
  import opened Json
  import opened Printers
  import opened Layout
  import opened Canonical

  /** A member and a map that hold the same value under the same key. */
  lemma StrShown(m: Member, fields: map<string, Value>, s: string)
    requires Holds(fields, m.present, m.key, Str(s)) && m.text == Quote(s)
    ensures Shows(m, fields)
  {}

  lemma NumShown(m: Member, fields: map<string, Value>, n: int)
    requires Holds(fields, m.present, m.key, Num(n)) && m.text == Decimal(n)
    ensures Shows(m, fields)
  {}

  lemma BoolShown(m: Member, fields: map<string, Value>, b: bool)
    requires Holds(fields, m.present, m.key, Bool(b)) && (m.present ==> m.text == BoolText(b))
    ensures Shows(m, fields)
  {}

  lemma LimitPrinted(l: LimitSpec)
    ensures LimitLayout(l) == Text(Obj(map["tif" := Str(l.tif)]))
  {
    var ms, m := [Member("tif", true, Quote(l.tif))], map["tif" := Str(l.tif)];
    assert Shows(ms[0], m) && KeysOf(ms) == ["tif"];
    ObjectOfIsText(ms, m);
  }

  function TriggerFields(w: TriggerWire): map<string, Value> {
    map["isMarket" := Bool(w.isMarket), "triggerPx" := Str(w.triggerPx), "tpsl" := Str(w.tpsl)]
  }

  lemma TriggerPrinted(w: TriggerWire)
    ensures TriggerLayout(w) == Text(Obj(TriggerFields(w)))
  {
    var ms, m := TriggerMembers(w), TriggerFields(w);
    LessFirst("isMarket", "tpsl");
    LessSecond("tpsl", "triggerPx");
    assert Shows(ms[0], m) && Shows(ms[1], m) && Shows(ms[2], m);
    assert KeysOf(ms) == ["isMarket", "tpsl", "triggerPx"];
    ObjectOfIsText(ms, m);
  }

  lemma TwoMembers(k: string, l: string, ms: seq<Member>, m: map<string, Value>)
    requires |ms| == 2 && ms[0].key == k && ms[1].key == l && Less(k, l) && m.Keys <= {k, l}
    requires Shows(ms[0], m) && Shows(ms[1], m)
    ensures ObjectOf(ms) == Text(Obj(m))
  {
    assert KeysOf(ms) == [k, l];
    ObjectOfIsText(ms, m);
  }

  lemma OrderTypeLookup(t: OrderType)
    ensures var m := OrderTypeGeneric(t).fields;
      && Holds(m, t.limit.Some?, "limit", if t.limit.Some? then Obj(map["tif" := Str(t.limit.value.tif)]) else Null)
      && Holds(m, t.trigger.Some?, "trigger", if t.trigger.Some? then Obj(TriggerFields(t.trigger.value)) else Null)
      && m.Keys <= {"limit", "trigger"}
  {}

  lemma OrderTypePrinted(t: OrderType)
    ensures OrderTypeLayout(t) == Text(OrderTypeGeneric(t))
  {
    OrderTypeLookup(t);
    if t.limit.Some? { LimitPrinted(t.limit.value); }
    if t.trigger.Some? { TriggerPrinted(t.trigger.value); }
    LessFirst("limit", "trigger");
    TwoMembers("limit", "trigger", OrderTypeMembers(t), OrderTypeGeneric(t).fields);
  }

  lemma CancelCloidPrinted(c: CancelCloidSpec)
    ensures CancelCloidLayout(c) == Text(CancelCloidGeneric(c))
  {
    LessFirst("asset", "cloid");
    TwoMembers("asset", "cloid", CancelCloidMembers(c), CancelCloidGeneric(c).fields);
  }

  lemma CancelPrinted(c: CancelSpec)
    ensures CancelLayout(c) == Text(CancelGeneric(c))
  {
    LessFirst("a", "o");
    TwoMembers("a", "o", CancelMembers(c), CancelGeneric(c).fields);
  }

  lemma OrderKeys(o: OrderWire)
    ensures KeysOf(OrderMembers(o)) == ["a", "b", "c", "p", "r", "s", "t"]
    ensures Increasing(KeysOf(OrderMembers(o)))
  {
    LessFirst("a", "b");
    LessFirst("b", "c");
    LessFirst("c", "p");
    LessFirst("p", "r");
    LessFirst("r", "s");
    LessFirst("s", "t");
  }

  lemma OrderShownBefore(o: OrderWire)
    ensures var ms, m := OrderMembers(o), OrderGeneric(o).fields;
      Shows(ms[0], m) && Shows(ms[1], m) && Shows(ms[2], m) && Shows(ms[3], m)
  {
    var ms, m := OrderMembers(o), OrderGeneric(o).fields;
    OrderLookup(o);
    NumShown(ms[0], m, Float64(o.a));
    BoolShown(ms[1], m, o.b);
    StrShown(ms[2], m, o.c);
    StrShown(ms[3], m, o.p);
  }

  lemma OrderShownAfter(o: OrderWire)
    ensures var ms, m := OrderMembers(o), OrderGeneric(o).fields;
      Shows(ms[4], m) && Shows(ms[5], m) && Shows(ms[6], m)
  {
    OrderLookup(o);
    OrderTypePrinted(o.t);
  }

  lemma SevenShown(ms: seq<Member>, m: map<string, Value>)
    requires |ms| == 7 && Shows(ms[0], m) && Shows(ms[1], m) && Shows(ms[2], m) && Shows(ms[3], m)
    requires Shows(ms[4], m) && Shows(ms[5], m) && Shows(ms[6], m)
    ensures AllShow(ms, m)
  {}

  lemma OrderPrinted(o: OrderWire)
    ensures OrderLayout(o) == Text(OrderGeneric(o))
  {
    var ms, m := OrderMembers(o), OrderGeneric(o).fields;
    OrderKeys(o);
    OrderShownBefore(o);
    OrderShownAfter(o);
    SevenShown(ms, m);
    assert forall k :: k in m ==> k in KeysOf(ms) by { OrderLookup(o); }
    ObjectOfIsText(ms, m);
  }

  lemma ModifyPrinted(m: ModifySpec)
    ensures ModifyLayout(m) == Text(ModifyGeneric(m))
  {
    OrderPrinted(m.order);
    LessSecond("oid", "order");
    TwoMembers("oid", "order", ModifyMembers(m), ModifyGeneric(m).fields);
  }

  // ---------- steps ----------

  lemma OrdersPrinted(xs: seq<OrderWire>)
    ensures ListOf(xs, OrderLayout) == Text(ListGeneric(xs, OrderGeneric))
  {
    forall i | 0 <= i < |xs| ensures OrderLayout(xs[i]) == Text(OrderGeneric(xs[i])) { OrderPrinted(xs[i]); }
    ListOfIsText(xs, ListGeneric(xs, OrderGeneric).items, OrderLayout);
  }

  lemma ModificationsPrinted(xs: seq<ModifySpec>)
    ensures ListOf(xs, ModifyLayout) == Text(ListGeneric(xs, ModifyGeneric))
  {
    forall i | 0 <= i < |xs| ensures ModifyLayout(xs[i]) == Text(ModifyGeneric(xs[i])) { ModifyPrinted(xs[i]); }
    ListOfIsText(xs, ListGeneric(xs, ModifyGeneric).items, ModifyLayout);
  }

  lemma CancelsPrinted(xs: seq<CancelCloidSpec>)
    ensures ListOf(xs, CancelCloidLayout) == Text(ListGeneric(xs, CancelCloidGeneric))
  {
    forall i | 0 <= i < |xs| ensures CancelCloidLayout(xs[i]) == Text(CancelCloidGeneric(xs[i])) {
      CancelCloidPrinted(xs[i]);
    }
    ListOfIsText(xs, ListGeneric(xs, CancelCloidGeneric).items, CancelCloidLayout);
  }

  lemma OidCancelsPrinted(xs: seq<CancelSpec>)
    ensures ListOf(xs, CancelLayout) == Text(ListGeneric(xs, CancelGeneric))
  {
    forall i | 0 <= i < |xs| ensures CancelLayout(xs[i]) == Text(CancelGeneric(xs[i])) { CancelPrinted(xs[i]); }
    ListOfIsText(xs, ListGeneric(xs, CancelGeneric).items, CancelLayout);
  }

  lemma StepKeys(s: ExecutionStep)
    ensures KeysOf(StepMembers(s)) == ["action", "asset", "cancels", "grouping", "is_cross", "leverage",
                                       "modifications", "oid_cancels", "orders"]
    ensures Increasing(KeysOf(StepMembers(s)))
  {
    LessSecond("action", "asset");
    LessFirst("asset", "cancels");
    LessFirst("cancels", "grouping");
    LessFirst("grouping", "is_cross");
    LessFirst("is_cross", "leverage");
    LessFirst("leverage", "modifications");
    LessFirst("modifications", "oid_cancels");
    LessSecond("oid_cancels", "orders");
  }

  lemma StepShownBefore(s: ExecutionStep)
    ensures var ms, m := StepMembers(s), StepFields(s); Shows(ms[0], m) && Shows(ms[1], m) && Shows(ms[3], m)
  {
    var ms, m := StepMembers(s), StepFields(s);
    StepTexts(s);
    StepLeverage(s);
    StrShown(ms[0], m, s.action);
    NumShown(ms[1], m, s.asset);
    StrShown(ms[3], m, s.grouping);
  }

  lemma StepShownBetween(s: ExecutionStep)
    ensures var ms, m := StepMembers(s), StepFields(s); Shows(ms[2], m) && Shows(ms[4], m) && Shows(ms[5], m)
  {
    var ms, m := StepMembers(s), StepFields(s);
    StepLeverage(s);
    StepCancels(s);
    CancelsPrinted(s.cancels);
    BoolShown(ms[4], m, s.isCross);
    NumShown(ms[5], m, s.leverage);
  }

  lemma StepShownAfter(s: ExecutionStep)
    ensures var ms, m := StepMembers(s), StepFields(s); Shows(ms[6], m) && Shows(ms[7], m) && Shows(ms[8], m)
  {
    StepOrders(s);
    StepCancels(s);
    ModificationsPrinted(s.modifications);
    OidCancelsPrinted(s.oidCancels);
    OrdersPrinted(s.orders);
  }

  lemma NineShown(ms: seq<Member>, m: map<string, Value>)
    requires |ms| == 9 && Shows(ms[0], m) && Shows(ms[1], m) && Shows(ms[2], m) && Shows(ms[3], m) && Shows(ms[4], m)
    requires Shows(ms[5], m) && Shows(ms[6], m) && Shows(ms[7], m) && Shows(ms[8], m)
    ensures AllShow(ms, m)
  {}

  lemma StepKeysFew(s: ExecutionStep, k: string)
    requires k in StepFields(s)
    ensures k in ["action", "asset", "cancels", "grouping", "is_cross", "leverage", "modifications", "oid_cancels",
                  "orders"]
  {}

  lemma StepPrinted(s: ExecutionStep)
    ensures StepLayout(s) == Text(Obj(StepFields(s)))
  {
    var ms, m := StepMembers(s), StepFields(s);
    StepKeys(s);
    StepShownBefore(s);
    StepShownBetween(s);
    StepShownAfter(s);
    NineShown(ms, m);
    forall k | k in m ensures k in KeysOf(ms) { StepKeysFew(s, k); }
    ObjectOfIsText(ms, m);
  }

  // ---------- the instruction ----------

  lemma StepsPrinted(steps: seq<ExecutionStep>)
    ensures ListOf(steps, StepLayout) == Text(Plain(MapSlice(StepMaps(steps))))
  {
    forall i | 0 <= i < |steps| ensures StepLayout(steps[i]) == Text(Obj(StepFields(steps[i]))) {
      StepPrinted(steps[i]);
    }
    ListOfIsText(steps, Plain(MapSlice(StepMaps(steps))).items, StepLayout);
  }

  lemma RootKeys(instr: Instruction)
    ensures KeysOf(InstructionMembers(instr)) == ["instruction_id", "intent_id", "market", "signal_id", "steps"]
    ensures Increasing(KeysOf(InstructionMembers(instr)))
  {
    LessThird("instruction_id", "intent_id");
    LessFirst("intent_id", "market");
    LessFirst("market", "signal_id");
    LessSecond("signal_id", "steps");
  }

  lemma RootShownBefore(instr: Instruction)
    ensures var ms, m := InstructionMembers(instr), PlainRoot(RootFields(instr)).fields;
      Shows(ms[0], m) && Shows(ms[1], m) && Shows(ms[2], m)
  {
    var ms, m := InstructionMembers(instr), PlainRoot(RootFields(instr)).fields;
    RootLookup(instr);
    StrShown(ms[0], m, instr.id);
    StrShown(ms[1], m, instr.intentId);
    StrShown(ms[2], m, instr.market);
  }

  lemma RootShownAfter(instr: Instruction)
    ensures var ms, m := InstructionMembers(instr), PlainRoot(RootFields(instr)).fields;
      Shows(ms[3], m) && Shows(ms[4], m)
  {
    RootLookup(instr);
    StepsPrinted(instr.steps);
  }

  lemma FiveShown(ms: seq<Member>, m: map<string, Value>)
    requires |ms| == 5 && Shows(ms[0], m) && Shows(ms[1], m) && Shows(ms[2], m) && Shows(ms[3], m) && Shows(ms[4], m)
    ensures AllShow(ms, m)
  {}

  lemma RootKeysFew(instr: Instruction, k: string)
    requires k in PlainRoot(RootFields(instr)).fields
    ensures k in ["instruction_id", "intent_id", "market", "signal_id", "steps"]
  {}

  /** The bytes the server signs, for every instruction: the members written out in their
      order, the absent ones left out. */
  lemma CanonicalTextIsLayout(instr: Instruction)
    ensures CanonicalText(instr) == InstructionLayout(instr)
  {
    var ms, m := InstructionMembers(instr), PlainRoot(RootFields(instr)).fields;
    RootKeys(instr);
    RootShownBefore(instr);
    RootShownAfter(instr);
    FiveShown(ms, m);
    forall k | k in m ensures k in KeysOf(ms) { RootKeysFew(instr, k); }
    ObjectOfIsText(ms, m);
  }
}
