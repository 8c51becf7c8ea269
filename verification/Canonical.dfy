/** The canonical encoding an instruction's signature is checked against, and what equal
    encodings say about the instructions. */
module Canonical {
  import opened Instructions
  import opened Float53
  import opened Json
  import opened Printers

  // ---------- through encoding/json into generic values ----------

  function Optional(present: bool, key: string, v: Value): map<string, Value> {
    if present then map[key := v] else map[]
  }

  function OrderTypeGeneric(t: OrderType): Value {
    Obj(
      (match t.limit
       case Some(l) => map["limit" := Obj(map["tif" := Str(l.tif)])]
       case None => map[])
      +
      (match t.trigger
       case Some(w) => map["trigger" := Obj(map["isMarket" := Bool(w.isMarket), "triggerPx" := Str(w.triggerPx),
                                                "tpsl" := Str(w.tpsl)])]
       case None => map[]))
  }

  function OrderGeneric(o: OrderWire): Value {
    Obj(map["a" := Num(Float64(o.a)), "b" := Bool(o.b), "p" := Str(o.p), "s" := Str(o.s), "r" := Bool(o.r),
            "t" := OrderTypeGeneric(o.t)]
        + Optional(o.c != "", "c", Str(o.c)))
  }

  function CancelCloidGeneric(c: CancelCloidSpec): Value {
    Obj(map["asset" := Num(Float64(c.asset)), "cloid" := Str(c.cloid)])
  }

  function CancelGeneric(c: CancelSpec): Value {
    Obj(map["a" := Num(Float64(c.a)), "o" := Num(Float64(c.o))])
  }

  function ModifyGeneric(m: ModifySpec): Value {
    Obj(map["oid" := Num(Float64(m.oid)), "order" := OrderGeneric(m.order)])
  }

  function ListGeneric<T>(xs: seq<T>, f: T -> Value): Value {
    Arr(seq(|xs|, i requires 0 <= i < |xs| => f(xs[i])))
  }

  // ---------- the canonical maps ----------

  function Put(m: map<string, Value>, present: bool, key: string, v: Value): map<string, Value> {
    if present then m[key := v] else m
  }

  function ListFields(s: ExecutionStep): map<string, Value> {
    var m := map["action" := Str(s.action)];
    var m := Put(m, |s.orders| > 0, "orders", ListGeneric(s.orders, OrderGeneric));
    var m := Put(m, s.grouping != "", "grouping", Str(s.grouping));
    Put(m, |s.cancels| > 0, "cancels", ListGeneric(s.cancels, CancelCloidGeneric))
  }

  /** is_cross appears only when it is true. */
  function LeverageFields(m: map<string, Value>, s: ExecutionStep): map<string, Value> {
    var m := Put(m, s.action == UPDATE_LEVERAGE, "asset", Num(s.asset));
    var m := Put(m, s.action == UPDATE_LEVERAGE, "leverage", Num(s.leverage));
    Put(m, s.action == UPDATE_LEVERAGE && s.isCross, "is_cross", Bool(s.isCross))
  }

  /** The canonical fields of one step: the optional ones are left out, the leverage fields
      are kept only for a leverage step. */
  function StepFields(s: ExecutionStep): map<string, Value> {
    var m := LeverageFields(ListFields(s), s);
    var m := Put(m, |s.modifications| > 0, "modifications", ListGeneric(s.modifications, ModifyGeneric));
    Put(m, |s.oidCancels| > 0, "oid_cancels", ListGeneric(s.oidCancels, CancelGeneric))
  }

  function OptionalRoot(s: string, key: string): map<string, RootValue> {
    if s != "" then map[key := Generic(Str(s))] else map[]
  }

  function StepMaps(steps: seq<ExecutionStep>): seq<map<string, Value>> {
    seq(|steps|, i requires 0 <= i < |steps| => StepFields(steps[i]))
  }

  function RootFields(instr: Instruction): map<string, RootValue> {
    map["instruction_id" := Generic(Str(instr.id)), "market" := Generic(Str(instr.market))]
    + OptionalRoot(instr.signalId, "signal_id")
    + OptionalRoot(instr.intentId, "intent_id")
    + map["steps" := MapSlice(StepMaps(instr.steps))]
  }

  /** The bytes the server signs. */
  ghost function CanonicalText(instr: Instruction): string {
    Text(PlainRoot(RootFields(instr)))
  }

  /** The encoder: fill the maps field by field, then print. */
  method InstructionCanonical(instr: Instruction) returns (text: string)
    ensures text == CanonicalText(instr)
  {
    var m: map<string, RootValue> := map[];
    m := m["instruction_id" := Generic(Str(instr.id))];
    m := m["market" := Generic(Str(instr.market))];
    if instr.signalId != "" {
      m := m["signal_id" := Generic(Str(instr.signalId))];
    }
    if instr.intentId != "" {
      m := m["intent_id" := Generic(Str(instr.intentId))];
    }
    var steps: seq<map<string, Value>> := [];
    for i := 0 to |instr.steps|
      invariant steps == StepMaps(instr.steps[..i])
    {
      var s := CanonicalStep(instr.steps[i]);
      steps := steps + [s];
      assert instr.steps[..i + 1] == instr.steps[..i] + [instr.steps[i]];
    }
    assert instr.steps[..|instr.steps|] == instr.steps;
    m := m["steps" := MapSlice(steps)];
    assert m == RootFields(instr);
    text := StringifyRoot(m);
  }

  method CanonicalStep(step: ExecutionStep) returns (s: map<string, Value>)
    ensures s == StepFields(step)
  {
    s := map["action" := Str(step.action)];
    if |step.orders| > 0 {
      s := s["orders" := ListGeneric(step.orders, OrderGeneric)];
    }
    if step.grouping != "" {
      s := s["grouping" := Str(step.grouping)];
    }
    if |step.cancels| > 0 {
      s := s["cancels" := ListGeneric(step.cancels, CancelCloidGeneric)];
    }
    ghost var lists := s;
    assert lists == ListFields(step);
    if step.action == UPDATE_LEVERAGE {
      s := s["asset" := Num(step.asset)];
      s := s["leverage" := Num(step.leverage)];
      if step.isCross {
        s := s["is_cross" := Bool(step.isCross)];
      }
    }
    assert s == LeverageFields(lists, step);
    if |step.modifications| > 0 {
      s := s["modifications" := ListGeneric(step.modifications, ModifyGeneric)];
    }
    if |step.oidCancels| > 0 {
      s := s["oid_cancels" := ListGeneric(step.oidCancels, CancelGeneric)];
    }
  }

  // ---------- what the text determines ----------

  predicate SameOrder(o: OrderWire, p: OrderWire) {
    Float64(o.a) == Float64(p.a) && o == p.(a := o.a)
  }

  predicate SameCancelCloid(c: CancelCloidSpec, d: CancelCloidSpec) {
    Float64(c.asset) == Float64(d.asset) && c.cloid == d.cloid
  }

  predicate SameCancel(c: CancelSpec, d: CancelSpec) {
    Float64(c.a) == Float64(d.a) && Float64(c.o) == Float64(d.o)
  }

  predicate SameModify(m: ModifySpec, n: ModifySpec) {
    Float64(m.oid) == Float64(n.oid) && SameOrder(m.order, n.order)
  }

  ghost predicate Pairwise<T(!new)>(same: (T, T) -> bool, xs: seq<T>, ys: seq<T>) {
    |xs| == |ys| && forall i :: 0 <= i < |xs| ==> same(xs[i], ys[i])
  }

  /** Two steps that agree on everything the canonical form keeps: the action, every list
      up to the float64 rounding of its integers, the grouping, and the leverage fields of
      a leverage step. */
  ghost predicate SameStep(s: ExecutionStep, t: ExecutionStep) {
    && s.action == t.action
    && Pairwise(SameOrder, s.orders, t.orders)
    && s.grouping == t.grouping
    && Pairwise(SameCancelCloid, s.cancels, t.cancels)
    && Pairwise(SameCancel, s.oidCancels, t.oidCancels)
    && Pairwise(SameModify, s.modifications, t.modifications)
    && (s.action == UPDATE_LEVERAGE ==> s.asset == t.asset && s.leverage == t.leverage && s.isCross == t.isCross)
  }

  ghost predicate SameContent(i: Instruction, j: Instruction) {
    && i.id == j.id && i.market == j.market && i.signalId == j.signalId && i.intentId == j.intentId
    && Pairwise(SameStep, i.steps, j.steps)
  }

  lemma OrderTypeExact(t: OrderType, u: OrderType)
    ensures OrderTypeGeneric(t) == OrderTypeGeneric(u) <==> t == u
  {
    if OrderTypeGeneric(t) == OrderTypeGeneric(u) {
      var m, n := OrderTypeGeneric(t).fields, OrderTypeGeneric(u).fields;
      assert ("limit" in m) == ("limit" in n) && ("trigger" in m) == ("trigger" in n);
      if t.limit.Some? {
        assert m["limit"].fields["tif"] == n["limit"].fields["tif"];
      }
      if t.trigger.Some? {
        var v, w := m["trigger"].fields, n["trigger"].fields;
        assert v["isMarket"] == w["isMarket"] && v["triggerPx"] == w["triggerPx"] && v["tpsl"] == w["tpsl"];
      }
    }
  }

  lemma OrderExact(o: OrderWire, p: OrderWire)
    ensures OrderGeneric(o) == OrderGeneric(p) <==> SameOrder(o, p)
  {
    OrderTypeExact(o.t, p.t);
    if OrderGeneric(o) == OrderGeneric(p) { OrderFields(o, p); }
  }

  lemma OrderLookup(o: OrderWire)
    ensures var m := OrderGeneric(o).fields;
            && m.Keys == {"a", "b", "p", "s", "r", "t"} + (if o.c != "" then {"c"} else {})
            && m["a"] == Num(Float64(o.a)) && m["b"] == Bool(o.b) && m["p"] == Str(o.p) && m["s"] == Str(o.s)
            && m["r"] == Bool(o.r) && m["t"] == OrderTypeGeneric(o.t)
            && (o.c != "" ==> m["c"] == Str(o.c))
  {}

  lemma OrderFields(o: OrderWire, p: OrderWire)
    requires OrderGeneric(o) == OrderGeneric(p)
    ensures SameOrder(o, p)
  {
    OrderTypeExact(o.t, p.t);
    OrderLookup(o);
    OrderLookup(p);
    assert o.c != "" <==> "c" in OrderGeneric(o).fields;
    assert p.c != "" <==> "c" in OrderGeneric(p).fields;
  }

  lemma CancelCloidExact(c: CancelCloidSpec, d: CancelCloidSpec)
    ensures CancelCloidGeneric(c) == CancelCloidGeneric(d) <==> SameCancelCloid(c, d)
  {
    var m, n := CancelCloidGeneric(c).fields, CancelCloidGeneric(d).fields;
    if m == n { assert m["asset"] == n["asset"] && m["cloid"] == n["cloid"]; }
  }

  lemma CancelExact(c: CancelSpec, d: CancelSpec)
    ensures CancelGeneric(c) == CancelGeneric(d) <==> SameCancel(c, d)
  {
    var m, n := CancelGeneric(c).fields, CancelGeneric(d).fields;
    if m == n { assert m["a"] == n["a"] && m["o"] == n["o"]; }
  }

  lemma ModifyExact(c: ModifySpec, d: ModifySpec)
    ensures ModifyGeneric(c) == ModifyGeneric(d) <==> SameModify(c, d)
  {
    OrderExact(c.order, d.order);
    var m, n := ModifyGeneric(c).fields, ModifyGeneric(d).fields;
    if m == n { assert m["oid"] == n["oid"] && m["order"] == n["order"]; }
  }

  /** Two lists print alike exactly when they match item by item. */
  lemma ListExact<T(!new)>(xs: seq<T>, ys: seq<T>, f: T -> Value, same: (T, T) -> bool)
    requires forall x, y :: f(x) == f(y) <==> same(x, y)
    ensures ListGeneric(xs, f) == ListGeneric(ys, f) <==> Pairwise(same, xs, ys)
  {
    var v, w := ListGeneric(xs, f), ListGeneric(ys, f);
    if v == w {
      assert |xs| == |v.items| == |w.items| == |ys|;
      forall i | 0 <= i < |xs| ensures same(xs[i], ys[i]) {
        assert v.items[i] == f(xs[i]) && w.items[i] == f(ys[i]);
      }
    }
    if Pairwise(same, xs, ys) {
      assert v.items == w.items;
    }
  }

  lemma ListsExact(s: ExecutionStep, t: ExecutionStep)
    ensures ListGeneric(s.orders, OrderGeneric) == ListGeneric(t.orders, OrderGeneric)
            <==> Pairwise(SameOrder, s.orders, t.orders)
    ensures ListGeneric(s.cancels, CancelCloidGeneric) == ListGeneric(t.cancels, CancelCloidGeneric)
            <==> Pairwise(SameCancelCloid, s.cancels, t.cancels)
    ensures ListGeneric(s.oidCancels, CancelGeneric) == ListGeneric(t.oidCancels, CancelGeneric)
            <==> Pairwise(SameCancel, s.oidCancels, t.oidCancels)
    ensures ListGeneric(s.modifications, ModifyGeneric) == ListGeneric(t.modifications, ModifyGeneric)
            <==> Pairwise(SameModify, s.modifications, t.modifications)
  {
    forall x, y ensures OrderGeneric(x) == OrderGeneric(y) <==> SameOrder(x, y) { OrderExact(x, y); }
    forall x, y ensures CancelCloidGeneric(x) == CancelCloidGeneric(y) <==> SameCancelCloid(x, y) {
      CancelCloidExact(x, y);
    }
    forall x, y ensures CancelGeneric(x) == CancelGeneric(y) <==> SameCancel(x, y) { CancelExact(x, y); }
    forall x, y ensures ModifyGeneric(x) == ModifyGeneric(y) <==> SameModify(x, y) { ModifyExact(x, y); }
    ListExact(s.orders, t.orders, OrderGeneric, SameOrder);
    ListExact(s.cancels, t.cancels, CancelCloidGeneric, SameCancelCloid);
    ListExact(s.oidCancels, t.oidCancels, CancelGeneric, SameCancel);
    ListExact(s.modifications, t.modifications, ModifyGeneric, SameModify);
  }

  ghost predicate Holds(m: map<string, Value>, present: bool, key: string, v: Value) {
    (key in m <==> present) && (present ==> m[key] == v)
  }

  /** Under each key the step map holds exactly the field it is named after. */
  lemma StepTexts(s: ExecutionStep)
    ensures Holds(StepFields(s), true, "action", Str(s.action))
    ensures Holds(StepFields(s), s.grouping != "", "grouping", Str(s.grouping))
  {}

  lemma StepLeverage(s: ExecutionStep)
    ensures Holds(StepFields(s), s.action == UPDATE_LEVERAGE, "asset", Num(s.asset))
    ensures Holds(StepFields(s), s.action == UPDATE_LEVERAGE, "leverage", Num(s.leverage))
    ensures Holds(StepFields(s), s.action == UPDATE_LEVERAGE && s.isCross, "is_cross", Bool(s.isCross))
  {}

  lemma StepOrders(s: ExecutionStep)
    ensures Holds(StepFields(s), |s.orders| > 0, "orders", ListGeneric(s.orders, OrderGeneric))
    ensures Holds(StepFields(s), |s.modifications| > 0, "modifications", ListGeneric(s.modifications, ModifyGeneric))
  {}

  lemma StepCancels(s: ExecutionStep)
    ensures Holds(StepFields(s), |s.cancels| > 0, "cancels", ListGeneric(s.cancels, CancelCloidGeneric))
    ensures Holds(StepFields(s), |s.oidCancels| > 0, "oid_cancels", ListGeneric(s.oidCancels, CancelGeneric))
  {}

  lemma HoldsBoth(m: map<string, Value>, p: bool, q: bool, key: string, v: Value, w: Value)
    requires Holds(m, p, key, v) && Holds(m, q, key, w)
    ensures p == q && (p ==> v == w)
  {}

  /** Equal step maps mean the steps agree on everything the canonical form keeps. */
  lemma StepFieldsDetermine(s: ExecutionStep, t: ExecutionStep)
    requires StepFields(s) == StepFields(t)
    ensures SameStep(s, t)
  {
    var m := StepFields(s);
    StepTexts(s); StepLeverage(s); StepOrders(s); StepCancels(s);
    StepTexts(t); StepLeverage(t); StepOrders(t); StepCancels(t);
    HoldsBoth(m, true, true, "action", Str(s.action), Str(t.action));
    HoldsBoth(m, s.grouping != "", t.grouping != "", "grouping", Str(s.grouping), Str(t.grouping));
    HoldsBoth(m, s.action == UPDATE_LEVERAGE, t.action == UPDATE_LEVERAGE, "asset", Num(s.asset), Num(t.asset));
    HoldsBoth(m, s.action == UPDATE_LEVERAGE, t.action == UPDATE_LEVERAGE, "leverage", Num(s.leverage),
              Num(t.leverage));
    HoldsBoth(m, s.action == UPDATE_LEVERAGE && s.isCross, t.action == UPDATE_LEVERAGE && t.isCross, "is_cross",
              Bool(s.isCross), Bool(t.isCross));
    HoldsBoth(m, |s.orders| > 0, |t.orders| > 0, "orders",
              ListGeneric(s.orders, OrderGeneric), ListGeneric(t.orders, OrderGeneric));
    HoldsBoth(m, |s.modifications| > 0, |t.modifications| > 0, "modifications",
              ListGeneric(s.modifications, ModifyGeneric), ListGeneric(t.modifications, ModifyGeneric));
    HoldsBoth(m, |s.cancels| > 0, |t.cancels| > 0, "cancels",
              ListGeneric(s.cancels, CancelCloidGeneric), ListGeneric(t.cancels, CancelCloidGeneric));
    HoldsBoth(m, |s.oidCancels| > 0, |t.oidCancels| > 0, "oid_cancels",
              ListGeneric(s.oidCancels, CancelGeneric), ListGeneric(t.oidCancels, CancelGeneric));
    ListsExact(s, t);
  }

  lemma StepFieldsExact(s: ExecutionStep, t: ExecutionStep)
    ensures StepFields(s) == StepFields(t) <==> SameStep(s, t)
  {
    ListsExact(s, t);
    if StepFields(s) == StepFields(t) { StepFieldsDetermine(s, t); }
  }

  lemma StepMapsExact(xs: seq<ExecutionStep>, ys: seq<ExecutionStep>)
    ensures Plain(MapSlice(StepMaps(xs))) == Plain(MapSlice(StepMaps(ys))) <==> Pairwise(SameStep, xs, ys)
  {
    forall s, t ensures StepFields(s) == StepFields(t) <==> SameStep(s, t) { StepFieldsExact(s, t); }
    var v, w := Plain(MapSlice(StepMaps(xs))), Plain(MapSlice(StepMaps(ys)));
    if v == w {
      assert |xs| == |v.items| == |w.items| == |ys|;
      forall i | 0 <= i < |xs| ensures SameStep(xs[i], ys[i]) {
        assert v.items[i] == Obj(StepFields(xs[i])) && w.items[i] == Obj(StepFields(ys[i]));
      }
    }
    if Pairwise(SameStep, xs, ys) {
      assert StepMaps(xs) == StepMaps(ys);
    }
  }

  lemma RootLookup(instr: Instruction)
    ensures var m := PlainRoot(RootFields(instr)).fields;
      && Holds(m, true, "instruction_id", Str(instr.id))
      && Holds(m, true, "market", Str(instr.market))
      && Holds(m, instr.signalId != "", "signal_id", Str(instr.signalId))
      && Holds(m, instr.intentId != "", "intent_id", Str(instr.intentId))
      && Holds(m, true, "steps", Plain(MapSlice(StepMaps(instr.steps))))
  {}

  /** The canonical text is exactly the signed content: two instructions have the same
      text if and only if they agree on everything the encoding keeps. */
  lemma CanonicalTextExact(i: Instruction, j: Instruction)
    ensures CanonicalText(i) == CanonicalText(j) <==> SameContent(i, j)
  {
    StepMapsExact(i.steps, j.steps);
    var v, w := PlainRoot(RootFields(i)), PlainRoot(RootFields(j));
    if CanonicalText(i) == CanonicalText(j) {
      TextInjective(v, w);
      RootLookup(i);
      RootLookup(j);
    }
    if SameContent(i, j) {
      SameContentSameRoot(i, j);
    }
  }

  lemma SameContentSameRoot(i: Instruction, j: Instruction)
    requires SameContent(i, j)
    ensures PlainRoot(RootFields(i)) == PlainRoot(RootFields(j))
  {
    StepMapsExact(i.steps, j.steps);
    assert StepMaps(i.steps) == StepMaps(j.steps) by {
      forall k | 0 <= k < |i.steps| ensures StepFields(i.steps[k]) == StepFields(j.steps[k]) {
        StepFieldsExact(i.steps[k], j.steps[k]);
      }
    }
  }
}
