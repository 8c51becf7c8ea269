/** What is signed determines what is executed. */
module Signed {
  import opened Instructions
  import opened Float53
  import opened Canonical
  import opened Executor
  import opened Validator

  // ---------- integers that survive float64 ----------

  predicate Within(bound: int, n: int) { -bound <= n <= bound }

  predicate OrderWithin(bound: int, o: OrderWire) { Within(bound, o.a) }

  predicate StepWithin(bound: int, s: ExecutionStep) {
    && (forall i :: 0 <= i < |s.orders| ==> OrderWithin(bound, s.orders[i]))
    && (forall i :: 0 <= i < |s.cancels| ==> Within(bound, s.cancels[i].asset))
    && (forall i :: 0 <= i < |s.oidCancels| ==> Within(bound, s.oidCancels[i].a) && Within(bound, s.oidCancels[i].o))
    && (forall i :: 0 <= i < |s.modifications| ==>
          Within(bound, s.modifications[i].oid) && OrderWithin(bound, s.modifications[i].order))
  }

  /** All integers inside orders, cancels and modifications are at most bound in magnitude. */
  predicate IntsWithin(bound: int, instr: Instruction) {
    forall i :: 0 <= i < |instr.steps| ==> StepWithin(bound, instr.steps[i])
  }

  // ---------- steps that act alike ----------

  /** Equal steps, except that the leverage fields of a step that is not a leverage step,
      which no code path reads, may differ. */
  predicate ActAlike(s: ExecutionStep, t: ExecutionStep) {
    && s == t.(asset := s.asset, leverage := s.leverage, isCross := s.isCross)
    && (s.action == UPDATE_LEVERAGE ==> s == t)
  }

  ghost predicate AllActAlike(xs: seq<ExecutionStep>, ys: seq<ExecutionStep>) { Pairwise(ActAlike, xs, ys) }

  lemma SameExact(a: int, b: int)
    requires Within(EXACT, a) && Within(EXACT, b) && Float64(a) == Float64(b)
    ensures a == b
  {
    ExactIsUnchanged(a);
    ExactIsUnchanged(b);
  }

  lemma SameOrdersExact(xs: seq<OrderWire>, ys: seq<OrderWire>)
    requires Pairwise(SameOrder, xs, ys)
    requires forall i :: 0 <= i < |xs| ==> OrderWithin(EXACT, xs[i])
    requires forall i :: 0 <= i < |ys| ==> OrderWithin(EXACT, ys[i])
    ensures xs == ys
  {
    forall i | 0 <= i < |xs| ensures xs[i] == ys[i] {
      assert SameOrder(xs[i], ys[i]);
      SameExact(xs[i].a, ys[i].a);
    }
  }

  lemma SameCancelsExact(s: ExecutionStep, t: ExecutionStep)
    requires SameStep(s, t) && StepWithin(EXACT, s) && StepWithin(EXACT, t)
    ensures s.cancels == t.cancels && s.oidCancels == t.oidCancels
  {
    forall i | 0 <= i < |s.cancels| ensures s.cancels[i] == t.cancels[i] {
      assert SameCancelCloid(s.cancels[i], t.cancels[i]);
      SameExact(s.cancels[i].asset, t.cancels[i].asset);
    }
    forall i | 0 <= i < |s.oidCancels| ensures s.oidCancels[i] == t.oidCancels[i] {
      assert SameCancel(s.oidCancels[i], t.oidCancels[i]);
      SameExact(s.oidCancels[i].a, t.oidCancels[i].a);
      SameExact(s.oidCancels[i].o, t.oidCancels[i].o);
    }
  }

  lemma SameModificationsExact(s: ExecutionStep, t: ExecutionStep)
    requires SameStep(s, t) && StepWithin(EXACT, s) && StepWithin(EXACT, t)
    ensures s.modifications == t.modifications
  {
    forall i | 0 <= i < |s.modifications| ensures s.modifications[i] == t.modifications[i] {
      assert SameModify(s.modifications[i], t.modifications[i]);
      SameExact(s.modifications[i].oid, t.modifications[i].oid);
      SameExact(s.modifications[i].order.a, t.modifications[i].order.a);
    }
  }

  lemma SameStepExact(s: ExecutionStep, t: ExecutionStep)
    requires SameStep(s, t) && StepWithin(EXACT, s) && StepWithin(EXACT, t)
    ensures ActAlike(s, t)
  {
    SameOrdersExact(s.orders, t.orders);
    SameCancelsExact(s, t);
    SameModificationsExact(s, t);
  }

  /** Equal canonical bytes and exact integers mean equal ids, markets and effective steps. */
  lemma SameBytesActAlike(i: Instruction, j: Instruction)
    requires CanonicalText(i) == CanonicalText(j) && IntsWithin(EXACT, i) && IntsWithin(EXACT, j)
    ensures i.id == j.id && i.market == j.market && i.signalId == j.signalId && i.intentId == j.intentId
    ensures AllActAlike(i.steps, j.steps)
  {
    CanonicalTextExact(i, j);
    forall k | 0 <= k < |i.steps| ensures ActAlike(i.steps[k], j.steps[k]) {
      assert SameStep(i.steps[k], j.steps[k]);
      SameStepExact(i.steps[k], j.steps[k]);
    }
  }

  // ---------- execution cannot tell them apart ----------

  lemma {:induction false} AlikeStepsRunAlike(xs: seq<ExecutionStep>, ys: seq<ExecutionStep>, exchange: Exchange,
                                              made: seq<Call>)
    requires AllActAlike(xs, ys)
    ensures RunSteps(xs, exchange, made) == RunSteps(ys, exchange, made)
  {
    if xs != [] {
      assert ActAlike(xs[0], ys[0]);
      assert CallOf(xs[0]) == CallOf(ys[0]);
      if CallOf(xs[0]).Some? {
        var made' := made + [CallOf(xs[0]).value];
        assert ResultOf(xs[0], exchange(made')) == ResultOf(ys[0], exchange(made'));
        forall k | 0 <= k < |xs[1..]| ensures ActAlike(xs[1..][k], ys[1..][k]) {
          assert ActAlike(xs[k + 1], ys[k + 1]);
        }
        AlikeStepsRunAlike(xs[1..], ys[1..], exchange, made');
      }
    }
  }

  /** An instruction that cancels one order by its id. */
  function CancelOne(oid: int): Instruction {
    Instruction("", "", "", "",
                [ExecutionStep(CANCEL_BY_OID, [], "", [], [CancelSpec(0, oid)], 0, 0, false, [])], "")
  }

  /** Just past 2^53 two order ids share their canonical bytes, and cancel different orders. */
  lemma CollidingOrderIds(exchange: Exchange)
    ensures CanonicalText(CancelOne(EXACT)) == CanonicalText(CancelOne(EXACT + 1))
    ensures RunSteps(CancelOne(EXACT).steps, exchange, []) != RunSteps(CancelOne(EXACT + 1).steps, exchange, [])
  {
    var i, j := CancelOne(EXACT), CancelOne(EXACT + 1);
    assert Ulp(EXACT + 1) == 2 * Ulp((EXACT + 1) / 2) == 2;
    ExactIsUnchanged(EXACT);
    assert SameStep(i.steps[0], j.steps[0]);
    CanonicalTextExact(i, j);
    FirstCall(i.steps, exchange);
    FirstCall(j.steps, exchange);
  }

  lemma {:induction false} FirstCall(steps: seq<ExecutionStep>, exchange: Exchange)
    requires |steps| == 1 && CallOf(steps[0]).Some?
    ensures RunSteps(steps, exchange, []).calls == [CallOf(steps[0]).value]
  {
    assert [] + [CallOf(steps[0]).value] == [CallOf(steps[0]).value];
    assert steps[1..] == [];
  }

  /** The two step lists make the same calls and yield the same results whatever the
      exchange answers. */
  ghost predicate RunAlike(i: Instruction, j: Instruction) {
    forall exchange: Exchange :: RunSteps(i.steps, exchange, []) == RunSteps(j.steps, exchange, [])
  }

  lemma SameBytesRunAlike(i: Instruction, j: Instruction)
    requires IntsWithin(EXACT, i) && IntsWithin(EXACT, j) && CanonicalText(i) == CanonicalText(j)
    ensures RunAlike(i, j)
  {
    SameBytesActAlike(i, j);
    forall exchange: Exchange ensures RunSteps(i.steps, exchange, []) == RunSteps(j.steps, exchange, []) {
      AlikeStepsRunAlike(i.steps, j.steps, exchange, []);
    }
  }

  /** Signed bytes determine the exchange calls: among instructions whose integers are
      bounded in magnitude, equal canonical bytes drive equal calls and results, for every
      behaviour of the exchange, if and only if the bound is at most 2^53. */
  lemma {:induction false} SignedBytesDetermineCalls(bound: int)
    ensures (forall i, j :: IntsWithin(bound, i) && IntsWithin(bound, j) && CanonicalText(i) == CanonicalText(j) ==>
               RunAlike(i, j))
            <==> bound <= EXACT
  {
    if bound <= EXACT {
      forall i, j | IntsWithin(bound, i) && IntsWithin(bound, j) && CanonicalText(i) == CanonicalText(j)
        ensures RunAlike(i, j)
      {
        WithinWider(bound, i);
        WithinWider(bound, j);
        SameBytesRunAlike(i, j);
      }
    } else {
      CollidingInstructions(bound, CancelOne(EXACT), CancelOne(EXACT + 1));
    }
  }

  lemma WithinWider(bound: int, i: Instruction)
    requires IntsWithin(bound, i) && bound <= EXACT
    ensures IntsWithin(EXACT, i)
  {
    forall k | 0 <= k < |i.steps| ensures StepWithin(EXACT, i.steps[k]) { assert StepWithin(bound, i.steps[k]); }
  }

  lemma CollidingInstructions(bound: int, i: Instruction, j: Instruction)
    requires bound > EXACT && i == CancelOne(EXACT) && j == CancelOne(EXACT + 1)
    ensures IntsWithin(bound, i) && IntsWithin(bound, j) && CanonicalText(i) == CanonicalText(j) && !RunAlike(i, j)
  {
    CollidingOrderIds(_ => Statuses([]));
  }

  lemma AlikeStepsPassAlike(lim: RiskLimits, res: Resolver, market: string, s: ExecutionStep, t: ExecutionStep)
    requires ActAlike(s, t)
    ensures StepPasses(lim, res, s) == StepPasses(lim, res, t)
    ensures ActAlike(ClampStep(res, market, s), ClampStep(res, market, t))
  {}

  /** The validator cannot tell them apart either: under the same limits and resolver two
      instructions with the same canonical bytes are both accepted or both refused, and the
      clamped steps drive the same calls. */
  lemma SignedBytesDetermineExecution(i: Instruction, j: Instruction, lim: RiskLimits, res: Resolver,
                                      exchange: Exchange)
    requires CanonicalText(i) == CanonicalText(j) && IntsWithin(EXACT, i) && IntsWithin(EXACT, j)
    ensures Accepts(lim, res, i.steps) == Accepts(lim, res, j.steps)
    ensures RunSteps(Clamp(res, i.market, i.steps), exchange, []) ==
        RunSteps(Clamp(res, j.market, j.steps), exchange, [])
  {
    SameBytesActAlike(i, j);
    var xs, ys := Clamp(res, i.market, i.steps), Clamp(res, j.market, j.steps);
    forall k | 0 <= k < |i.steps|
      ensures StepPasses(lim, res, i.steps[k]) == StepPasses(lim, res, j.steps[k]) && ActAlike(xs[k], ys[k])
    {
      assert ActAlike(i.steps[k], j.steps[k]);
      AlikeStepsPassAlike(lim, res, i.market, i.steps[k], j.steps[k]);
    }
    AlikeStepsRunAlike(xs, ys, exchange, []);
  }
}
