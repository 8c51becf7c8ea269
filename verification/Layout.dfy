/** The canonical text written out: which members an object has, in which order, and how each
    is printed, without maps, sorting or a printer. */
module Layout {
  import opened Instructions
  import opened Float53
  import opened JsonText
  import opened KeyOrder
  import opened Json

  /** One member an object may have: its key, whether it is there, and its printed value. */
  datatype Member = Member(key: string, present: bool, text: string)

  /** The members that are there, in the order given, with commas between them. */
  function MembersText(ms: seq<Member>, sep: string): string {
    if ms == [] then ""
    else if ms[0].present then sep + (Quote(ms[0].key) + ":" + ms[0].text) + MembersText(ms[1..], ",")
    else MembersText(ms[1..], sep)
  }

  function ObjectOf(ms: seq<Member>): string { "{" + MembersText(ms, "") + "}" }

  /** The printed items of a list, with commas between them. */
  function ItemsOf<T>(xs: seq<T>, f: T -> string, sep: string): string {
    if xs == [] then "" else sep + f(xs[0]) + ItemsOf(xs[1..], f, ",")
  }

  function ListOf<T>(xs: seq<T>, f: T -> string): string { "[" + ItemsOf(xs, f, "") + "]" }

  function BoolText(b: bool): string { if b then "true" else "false" }

  // ---------- the records ----------

  function LimitLayout(l: LimitSpec): string { ObjectOf([Member("tif", true, Quote(l.tif))]) }

  function TriggerMembers(w: TriggerWire): seq<Member> {
    [Member("isMarket", true, BoolText(w.isMarket)), Member("tpsl", true, Quote(w.tpsl)),
     Member("triggerPx", true, Quote(w.triggerPx))]
  }

  function TriggerLayout(w: TriggerWire): string { ObjectOf(TriggerMembers(w)) }

  function OrderTypeMembers(t: OrderType): seq<Member> {
    [Member("limit", t.limit.Some?, if t.limit.Some? then LimitLayout(t.limit.value) else ""),
     Member("trigger", t.trigger.Some?, if t.trigger.Some? then TriggerLayout(t.trigger.value) else "")]
  }

  function OrderTypeLayout(t: OrderType): string { ObjectOf(OrderTypeMembers(t)) }

  /** The client order id is left out when empty. */
  function OrderMembers(o: OrderWire): seq<Member> {
    [Member("a", true, Decimal(Float64(o.a))), Member("b", true, BoolText(o.b)), Member("c", o.c != "", Quote(o.c)),
     Member("p", true, Quote(o.p)), Member("r", true, BoolText(o.r)), Member("s", true, Quote(o.s)),
     Member("t", true, OrderTypeLayout(o.t))]
  }

  function OrderLayout(o: OrderWire): string { ObjectOf(OrderMembers(o)) }

  function CancelCloidMembers(c: CancelCloidSpec): seq<Member> {
    [Member("asset", true, Decimal(Float64(c.asset))), Member("cloid", true, Quote(c.cloid))]
  }

  function CancelCloidLayout(c: CancelCloidSpec): string { ObjectOf(CancelCloidMembers(c)) }

  function CancelMembers(c: CancelSpec): seq<Member> {
    [Member("a", true, Decimal(Float64(c.a))), Member("o", true, Decimal(Float64(c.o)))]
  }

  function CancelLayout(c: CancelSpec): string { ObjectOf(CancelMembers(c)) }

  function ModifyMembers(m: ModifySpec): seq<Member> {
    [Member("oid", true, Decimal(Float64(m.oid))), Member("order", true, OrderLayout(m.order))]
  }

  function ModifyLayout(m: ModifySpec): string { ObjectOf(ModifyMembers(m)) }

  /** Lists and the grouping are left out when empty, the leverage fields when the step is no
      leverage step, is_cross when it is false. */
  function StepMembers(s: ExecutionStep): seq<Member> {
    var leveraged := s.action == "update_leverage";
    [Member("action", true, Quote(s.action)),
     Member("asset", leveraged, Decimal(s.asset)),
     Member("cancels", s.cancels != [], ListOf(s.cancels, CancelCloidLayout)),
     Member("grouping", s.grouping != "", Quote(s.grouping)),
     Member("is_cross", leveraged && s.isCross, "true"),
     Member("leverage", leveraged, Decimal(s.leverage)),
     Member("modifications", s.modifications != [], ListOf(s.modifications, ModifyLayout)),
     Member("oid_cancels", s.oidCancels != [], ListOf(s.oidCancels, CancelLayout)),
     Member("orders", s.orders != [], ListOf(s.orders, OrderLayout))]
  }

  function StepLayout(s: ExecutionStep): string { ObjectOf(StepMembers(s)) }

  function InstructionMembers(instr: Instruction): seq<Member> {
    [Member("instruction_id", true, Quote(instr.id)),
     Member("intent_id", instr.intentId != "", Quote(instr.intentId)),
     Member("market", true, Quote(instr.market)),
     Member("signal_id", instr.signalId != "", Quote(instr.signalId)),
     Member("steps", true, ListOf(instr.steps, StepLayout))]
  }

  function InstructionLayout(instr: Instruction): string { ObjectOf(InstructionMembers(instr)) }

  // ---------- a layout is the text of a map it describes ----------

  /** The member is there exactly when the map has its key, and printed as its value. */
  ghost predicate Shows(m: Member, fields: map<string, Value>) {
    (m.present <==> m.key in fields) && (m.present ==> m.text == Text(fields[m.key]))
  }

  ghost predicate AllShow(ms: seq<Member>, fields: map<string, Value>) {
    forall i :: 0 <= i < |ms| ==> Shows(ms[i], fields)
  }

  function KeysOf(ms: seq<Member>): seq<string> {
    seq(|ms|, i requires 0 <= i < |ms| => ms[i].key)
  }

  /** Each key is less than the next. */
  predicate Increasing(keys: seq<string>) {
    forall i :: 0 <= i < |keys| - 1 ==> Less(keys[i], keys[i + 1])
  }

  /** The members are those of the map, sorted by key. */
  ghost predicate Describes(ms: seq<Member>, fields: map<string, Value>) {
    AllShow(ms, fields) && Increasing(KeysOf(ms)) && forall k :: k in fields ==> k in KeysOf(ms)
  }

  function PresentKeys(ms: seq<Member>): seq<string> {
    if ms == [] then []
    else if ms[0].present then [ms[0].key] + PresentKeys(ms[1..])
    else PresentKeys(ms[1..])
  }

  lemma {:induction false} PresentKeysAre(ms: seq<Member>, k: string)
    ensures k in PresentKeys(ms) <==> exists i :: 0 <= i < |ms| && ms[i].present && ms[i].key == k
  {
    if ms != [] {
      PresentKeysAre(ms[1..], k);
      if i :| 0 < i < |ms| && ms[i].present && ms[i].key == k { assert ms[1..][i - 1] == ms[i]; }
    }
  }

  lemma {:induction false} FirstIsLeast(keys: seq<string>, i: nat)
    requires Increasing(keys) && 0 < i < |keys|
    ensures Less(keys[0], keys[i])
  {
    if i > 1 {
      FirstIsLeast(keys, i - 1);
      assert Less(keys[i - 1], keys[i - 1 + 1]);
      LessTransitive(keys[0], keys[i - 1], keys[i]);
    }
  }

  lemma TailIncreases(ms: seq<Member>)
    requires Increasing(KeysOf(ms)) && ms != []
    ensures Increasing(KeysOf(ms[1..]))
  {
    forall i | 0 <= i < |ms| - 2 ensures Less(KeysOf(ms[1..])[i], KeysOf(ms[1..])[i + 1]) {
      assert Less(KeysOf(ms)[i + 1], KeysOf(ms)[i + 1 + 1]);
    }
  }

  lemma {:induction false} PresentKeysSorted(ms: seq<Member>)
    requires Increasing(KeysOf(ms))
    ensures StrictlySorted(PresentKeys(ms))
  {
    if ms != [] {
      TailIncreases(ms);
      PresentKeysSorted(ms[1..]);
      var rest := PresentKeys(ms[1..]);
      forall j | 0 <= j < |rest| ensures Less(ms[0].key, rest[j]) {
        PresentKeysAre(ms[1..], rest[j]);
        var i :| 0 <= i < |ms| - 1 && ms[1..][i].present && ms[1..][i].key == rest[j];
        FirstIsLeast(KeysOf(ms), i + 1);
      }
    }
  }

  lemma {:induction false} MembersAreFields(ms: seq<Member>, v: Value, sep: string)
    requires v.Obj? && Elements(PresentKeys(ms)) <= v.fields.Keys && AllShow(ms, v.fields)
    ensures MembersText(ms, sep) + "}" == FieldsText(v, PresentKeys(ms), sep)
  {
    if ms != [] {
      var keys := PresentKeys(ms);
      if ms[0].present {
        TailElements(keys);
        MembersAreFields(ms[1..], v, ",");
        FieldAndRest(sep, FieldText(v, keys[0]), MembersText(ms[1..], ","));
      } else {
        MembersAreFields(ms[1..], v, sep);
      }
    }
  }

  lemma FieldAndRest(sep: string, field: string, rest: string)
    ensures sep + field + rest + "}" == sep + field + (rest + "}")
  {}

  lemma ObjectOfIsText(ms: seq<Member>, fields: map<string, Value>)
    requires Describes(ms, fields)
    ensures ObjectOf(ms) == Text(Obj(fields))
  {
    var keys := PresentKeys(ms);
    forall k ensures k in keys <==> k in fields.Keys {
      PresentKeysAre(ms, k);
      if k in fields {
        assert k in KeysOf(ms);
        var i :| 0 <= i < |ms| && KeysOf(ms)[i] == k;
        assert Shows(ms[i], fields);
      }
    }
    assert Elements(keys) == fields.Keys;
    PresentKeysSorted(ms);
    ListingUnique(keys, SortedKeys(fields.Keys), fields.Keys);
    MembersAreFields(ms, Obj(fields), "");
    assert "{" + MembersText(ms, "") + "}" == "{" + (MembersText(ms, "") + "}");
  }

  lemma LessFirst(a: string, b: string)
    requires a != "" && b != "" && a[0] < b[0]
    ensures Less(a, b)
  {}

  lemma LessSecond(a: string, b: string)
    requires |a| > 1 && |b| > 1 && a[0] == b[0] && a[1] < b[1]
    ensures Less(a, b)
  {
    LessFirst(a[1..], b[1..]);
  }

  lemma LessThird(a: string, b: string)
    requires |a| > 2 && |b| > 2 && a[0] == b[0] && a[1] == b[1] && a[2] < b[2]
    ensures Less(a, b)
  {
    LessSecond(a[1..], b[1..]);
  }

  /** And so for lists. */
  lemma {:induction false} ItemsOfAreItems<T(!new)>(xs: seq<T>, items: seq<Value>, f: T -> string, sep: string)
    requires |items| == |xs| && forall i :: 0 <= i < |xs| ==> f(xs[i]) == Text(items[i])
    ensures ItemsOf(xs, f, sep) + "]" == ItemsText(items, sep)
  {
    if xs != [] {
      ItemsOfAreItems(xs[1..], items[1..], f, ",");
      assert sep + f(xs[0]) + ItemsOf(xs[1..], f, ",") + "]" == sep + f(xs[0]) + (ItemsOf(xs[1..], f, ",") + "]");
    }
  }

  lemma ListOfIsText<T(!new)>(xs: seq<T>, items: seq<Value>, f: T -> string)
    requires |items| == |xs| && forall i :: 0 <= i < |xs| ==> f(xs[i]) == Text(items[i])
    ensures ListOf(xs, f) == Text(Arr(items))
  {
    ItemsOfAreItems(xs, items, f, "");
    assert "[" + ItemsOf(xs, f, "") + "]" == "[" + (ItemsOf(xs, f, "") + "]");
  }
}
