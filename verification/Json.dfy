/** Generic JSON values, the two printers of the canonical encoder, and the proof that
    the printed text determines the value. */
module Json {
  import opened JsonText
  import opened KeyOrder

  /** What an `any` holds after a trip through encoding/json. Numbers are the integers
      the instruction types carry. */
  datatype Value =
    | Null
    | Bool(b: bool)
    | Num(n: int)
    | Str(s: string)
    | Arr(items: seq<Value>)
    | Obj(fields: map<string, Value>)

  // ---------- compact marshalling with sorted keys ----------

  function Scalar(v: Value): string
    requires !v.Arr? && !v.Obj?
  {
    match v
    case Null => "null"
    case Bool(b) => if b then "true" else "false"
    case Num(n) => Decimal(n)
    case Str(s) => Quote(s)
  }

  /** The compact JSON text of a value, object keys in increasing order. */
  ghost function Text(v: Value): string
    decreases v, 1
  {
    match v
    case Arr(items) => "[" + ItemsText(items, "")
    case Obj(fields) => "{" + FieldsText(v, SortedKeys(fields.Keys), "")
    case _ => Scalar(v)
  }

  /** The rest of an array text; sep is what the encoder writes before the next item. */
  ghost function ItemsText(items: seq<Value>, sep: string): string
    decreases items, 0
  {
    if items == [] then "]" else sep + Text(items[0]) + ItemsText(items[1..], ",")
  }

  ghost function FieldText(v: Value, k: string): string
    requires v.Obj? && k in v.fields
    decreases v, 0, 0
  {
    Quote(k) + ":" + Text(v.fields[k])
  }

  ghost function FieldsText(v: Value, keys: seq<string>, sep: string): string
    requires v.Obj? && Elements(keys) <= v.fields.Keys
    decreases v, 0, |keys| + 1
  {
    if keys == [] then "}"
    else
      assert keys[0] in Elements(keys) && Elements(keys[1..]) <= Elements(keys);
      sep + FieldText(v, keys[0]) + FieldsText(v, keys[1..], ",")
  }

  // ---------- the text determines the value ----------

  /** The first character of a text tells which kind of value it starts. */
  predicate HeadFits(v: Value, c: char) {
    match v
    case Null => c == 'n'
    case Bool(b) => c == if b then 't' else 'f'
    case Num(_) => c == '-' || IsDigit(c)
    case Str(_) => c == '\"'
    case Arr(_) => c == '['
    case Obj(_) => c == '{'
  }

  lemma TextHead(v: Value)
    ensures |Text(v)| > 0 && HeadFits(v, Text(v)[0])
  {
    if v.Num? { DecimalHead(v.n); }
  }

  predicate IsSeparator(sep: string) { sep == "" || sep == "," }

  lemma ItemsHead(items: seq<Value>, sep: string)
    requires IsSeparator(sep)
    ensures |ItemsText(items, sep)| > 0
    ensures (items == []) == (ItemsText(items, sep)[0] == ']')
    ensures sep == "," ==> ItemsText(items, sep)[0] in {',', ']'}
  {
    if items != [] { TextHead(items[0]); }
  }

  lemma FieldsHead(v: Value, keys: seq<string>, sep: string)
    requires v.Obj? && Elements(keys) <= v.fields.Keys && IsSeparator(sep)
    ensures |FieldsText(v, keys, sep)| > 0
    ensures (keys == []) == (FieldsText(v, keys, sep)[0] == '}')
    ensures sep == "," ==> FieldsText(v, keys, sep)[0] in {',', '}'}
  {
    if keys != [] { ElementsOf(keys, keys[0]); }
  }

  lemma CutPrefix(p: string, r: string, q: string)
    requires p + r == p + q
    ensures r == q
  {
    assert (p + r)[|p|..] == r && (p + q)[|p|..] == q;
  }

  lemma Regroup(a: string, b: string, c: string, r: string)
    ensures a + b + c + r == a + (b + (c + r))
  {}

  lemma CutPrefixOfThree(p: string, t: string, u: string, r: string, t': string, u': string, q: string)
    requires p + t + u + r == p + t' + u' + q
    ensures t + (u + r) == t' + (u' + q)
  {
    assert p + t + u + r == p + (t + (u + r)) && p + t' + u' + q == p + (t' + (u' + q));
    CutPrefix(p, t + (u + r), t' + (u' + q));
  }

  lemma SameHead(a: string, r: string, b: string, q: string)
    requires a + r == b + q && |a| > 0 && |b| > 0
    ensures a[0] == b[0]
  {
    assert (a + r)[0] == a[0] && (b + q)[0] == b[0];
  }

  predicate SameKind(v: Value, w: Value) {
    match v
    case Null => w.Null?
    case Bool(b) => w == v
    case Num(_) => w.Num?
    case Str(_) => w.Str?
    case Arr(_) => w.Arr?
    case Obj(_) => w.Obj?
  }

  lemma KindsAgree(v: Value, w: Value, r: string, q: string)
    requires Text(v) + r == Text(w) + q
    ensures SameKind(v, w)
  {
    TextHead(v);
    TextHead(w);
    SameHead(Text(v), r, Text(w), q);
  }

  /** Unique decoding: a value can be read off the front of any text in only one way,
      whatever follows it, as long as a number is not continued. */
  lemma {:induction false} TextUnique(v: Value, w: Value, r: string, q: string)
    requires Text(v) + r == Text(w) + q && Stops(r) && Stops(q)
    ensures v == w && r == q
    decreases v, 1
  {
    KindsAgree(v, w, r, q);
    match v {
      case Null => CutPrefix(Text(v), r, q);
      case Bool(b) => CutPrefix(Text(v), r, q);
      case Num(n) => DecimalUnique(n, w.n, r, q);
      case Str(s) => QuoteUnique(s, w.s, r, q);
      case Arr(items) => ArrayUnique(v, w, r, q);
      case Obj(fields) => ObjectUnique(v, w, r, q);
    }
  }

  lemma {:induction false} ArrayUnique(v: Value, w: Value, r: string, q: string)
    requires v.Arr? && w.Arr? && Text(v) + r == Text(w) + q
    ensures v == w && r == q
    decreases v, 0
  {
    var t, u := ItemsText(v.items, ""), ItemsText(w.items, "");
    assert Text(v) + r == "[" + (t + r) && Text(w) + q == "[" + (u + q);
    CutPrefix("[", t + r, u + q);
    ItemsUnique(v.items, w.items, "", r, q);
  }

  lemma {:induction false} ItemsUnique(a: seq<Value>, b: seq<Value>, sep: string, r: string, q: string)
    requires ItemsText(a, sep) + r == ItemsText(b, sep) + q && IsSeparator(sep)
    ensures a == b && r == q
    decreases a, 0
  {
    ItemsHead(a, sep);
    ItemsHead(b, sep);
    SameHead(ItemsText(a, sep), r, ItemsText(b, sep), q);
    if a == [] {
      CutPrefix("]", r, q);
    } else {
      var t, u := ItemsText(a[1..], ","), ItemsText(b[1..], ",");
      CutPrefixOfThree(sep, Text(a[0]), t, r, Text(b[0]), u, q);
      ItemsHead(a[1..], ",");
      ItemsHead(b[1..], ",");
      assert (t + r)[0] == t[0] && (u + q)[0] == u[0];
      TextUnique(a[0], b[0], t + r, u + q);
      ItemsUnique(a[1..], b[1..], ",", r, q);
      assert a == [a[0]] + a[1..] && b == [b[0]] + b[1..];
    }
  }

  lemma {:induction false} ObjectUnique(v: Value, w: Value, r: string, q: string)
    requires v.Obj? && w.Obj? && Text(v) + r == Text(w) + q
    ensures v == w && r == q
    decreases v, 0, 1
  {
    var ks, ls := SortedKeys(v.fields.Keys), SortedKeys(w.fields.Keys);
    var t, u := FieldsText(v, ks, ""), FieldsText(w, ls, "");
    assert Text(v) + r == "{" + (t + r) && Text(w) + q == "{" + (u + q);
    CutPrefix("{", t + r, u + q);
    FieldsUnique(v, w, ks, ls, "", r, q);
    SameFields(v.fields, w.fields, ks);
  }

  lemma SameFields(f: map<string, Value>, g: map<string, Value>, ks: seq<string>)
    requires Elements(ks) == f.Keys == g.Keys && forall k :: k in ks ==> f[k] == g[k]
    ensures f == g
  {
    forall k | k in f ensures f[k] == g[k] { ElementsOf(ks, k); }
  }

  lemma {:induction false} FieldsUnique(v: Value, w: Value, ks: seq<string>, ls: seq<string>,
                                        sep: string, r: string, q: string)
    requires v.Obj? && Elements(ks) <= v.fields.Keys && w.Obj? && Elements(ls) <= w.fields.Keys
    requires FieldsText(v, ks, sep) + r == FieldsText(w, ls, sep) + q && IsSeparator(sep)
    ensures ks == ls && r == q && forall k :: k in ks ==> v.fields[k] == w.fields[k]
    decreases v, 0, 0, |ks|
  {
    FieldsHead(v, ks, sep);
    FieldsHead(w, ls, sep);
    SameHead(FieldsText(v, ks, sep), r, FieldsText(w, ls, sep), q);
    if ks == [] {
      CutPrefix("}", r, q);
    } else {
      TailElements(ks);
      TailElements(ls);
      var t, u := FieldsText(v, ks[1..], ","), FieldsText(w, ls[1..], ",");
      CutPrefixOfThree(sep, FieldText(v, ks[0]), t, r, FieldText(w, ls[0]), u, q);
      FieldsHead(v, ks[1..], ",");
      FieldsHead(w, ls[1..], ",");
      assert (t + r)[0] == t[0] && (u + q)[0] == u[0];
      FieldUnique(v, w, ks[0], ls[0], t + r, u + q);
      FieldsUnique(v, w, ks[1..], ls[1..], ",", r, q);
      assert ks == [ks[0]] + ks[1..] && ls == [ls[0]] + ls[1..];
    }
  }

  lemma TailElements(ks: seq<string>)
    requires ks != []
    ensures ks[0] in Elements(ks) && Elements(ks[1..]) <= Elements(ks)
  {}

  lemma {:induction false} FieldUnique(v: Value, w: Value, k: string, l: string, r: string, q: string)
    requires v.Obj? && k in v.fields && w.Obj? && l in w.fields
    requires FieldText(v, k) + r == FieldText(w, l) + q && Stops(r) && Stops(q)
    ensures k == l && v.fields[k] == w.fields[k] && r == q
    decreases v, 0, 0, 0
  {
    var t, u := Text(v.fields[k]) + r, Text(w.fields[l]) + q;
    Regroup(Quote(k), ":", Text(v.fields[k]), r);
    Regroup(Quote(l), ":", Text(w.fields[l]), q);
    QuoteUnique(k, l, ":" + t, ":" + u);
    CutPrefix(":", t, u);
    TextUnique(v.fields[k], w.fields[l], r, q);
  }

  /** Two values with the same canonical text are the same value. */
  lemma TextInjective(v: Value, w: Value)
    requires Text(v) == Text(w)
    ensures v == w
  {
    assert Text(v) + "" == Text(w) + "";
    TextUnique(v, w, "", "");
  }
}
