/** The two printers the canonical encoder goes through, written as the loops they are,
    each proved to produce the one text Json.Text defines, for every order in which the
    maps hand out their keys. */
module Printers {
  import opened JsonText
  import opened KeyOrder
  import opened Json

  function Join(parts: seq<string>, sep: string): string {
    if parts == [] then ""
    else if |parts| == 1 then parts[0]
    else parts[0] + sep + Join(parts[1..], sep)
  }

  /** Joining the printed items and closing the bracket is the streamed array text. */
  lemma {:induction false} JoinIsItemsText(items: seq<Value>, parts: seq<string>, sep: string)
    requires |parts| == |items| && forall i :: 0 <= i < |items| ==> parts[i] == Text(items[i])
    ensures ItemsText(items, sep) == (if items == [] then "" else sep) + Join(parts, ",") + "]"
  {
    if items != [] {
      JoinIsItemsText(items[1..], parts[1..], ",");
    }
  }

  lemma {:induction false} JoinIsFieldsText(v: Value, keys: seq<string>, parts: seq<string>, sep: string)
    requires v.Obj? && Elements(keys) <= v.fields.Keys
    requires |parts| == |keys|
    requires forall i :: 0 <= i < |keys| ==> keys[i] in v.fields && parts[i] == FieldText(v, keys[i])
    ensures FieldsText(v, keys, sep) == (if keys == [] then "" else sep) + Join(parts, ",") + "}"
  {
    if keys != [] {
      TailElements(keys);
      JoinIsFieldsText(v, keys[1..], parts[1..], ",");
    }
  }

  lemma ArrayText(v: Value, parts: seq<string>)
    requires v.Arr? && |parts| == |v.items|
    requires forall i :: 0 <= i < |parts| ==> parts[i] == Text(v.items[i])
    ensures "[" + Join(parts, ",") + "]" == Text(v)
  {
    JoinIsItemsText(v.items, parts, "");
    Bracket("[", Join(parts, ","), "]");
  }

  lemma ObjectText(v: Value, keys: seq<string>, parts: seq<string>)
    requires PrintedFields(v, keys, parts) && |parts| == |keys| && keys == SortedKeys(v.fields.Keys)
    ensures "{" + Join(parts, ",") + "}" == Text(v)
  {
    JoinIsFieldsText(v, keys, parts, "");
    Bracket("{", Join(parts, ","), "}");
  }

  lemma Bracket(open: string, body: string, close: string)
    ensures open + body + close == open + ("" + body + close)
  {}

  /** The keys of a map, collected in map order and sorted. */
  method KeysInOrder<V>(m: map<string, V>) returns (keys: seq<string>)
    ensures keys == SortedKeys(m.Keys) && Elements(keys) == m.Keys
    ensures forall i :: 0 <= i < |keys| ==> keys[i] in m
  {
    var found := CollectKeys(m);
    keys := SortStrings(found);
    assert forall i :: 0 <= i < |keys| ==> keys[i] in Elements(keys);
  }

  /** The recursive printer. */
  method SortedStringify(v: Value) returns (text: string)
    ensures text == Text(v)
    decreases v, 1
  {
    match v {
      case Obj(_) => text := StringifyObject(v);
      case Arr(_) => text := StringifyArray(v);
      case _ => text := Scalar(v);
    }
  }

  /** The parts printed so far are the texts of the first fields. */
  ghost predicate PrintedFields(v: Value, keys: seq<string>, parts: seq<string>) {
    v.Obj? && |parts| <= |keys| &&
    forall i :: 0 <= i < |parts| ==> keys[i] in v.fields && parts[i] == FieldText(v, keys[i])
  }

  lemma PrintedOneMore(v: Value, keys: seq<string>, parts: seq<string>, part: string)
    requires PrintedFields(v, keys, parts) && |parts| < |keys|
    requires keys[|parts|] in v.fields && part == FieldText(v, keys[|parts|])
    ensures PrintedFields(v, keys, parts + [part])
  {}

  method StringifyField(v: Value, k: string) returns (text: string)
    requires v.Obj? && k in v.fields
    ensures text == FieldText(v, k)
    decreases v, 0, 0
  {
    var printed := SortedStringify(v.fields[k]);
    text := Quote(k) + ":" + printed;
  }

  /** Sort the keys, print the parts, join them. */
  method StringifyObject(v: Value) returns (text: string)
    requires v.Obj?
    ensures text == Text(v)
    decreases v, 0, 1
  {
    var keys := KeysInOrder(v.fields);
    var parts: seq<string> := [];
    for i := 0 to |keys|
      invariant |parts| == i && PrintedFields(v, keys, parts)
    {
      var part := StringifyField(v, keys[i]);
      PrintedOneMore(v, keys, parts, part);
      parts := parts + [part];
    }
    ObjectText(v, keys, parts);
    text := "{" + Join(parts, ",") + "}";
  }

  method StringifyArray(v: Value) returns (text: string)
    requires v.Arr?
    ensures text == Text(v)
    decreases v, 0
  {
    var printed: seq<string> := [];
    for i := 0 to |v.items|
      invariant |printed| == i
      invariant forall j :: 0 <= j < i ==> printed[j] == Text(v.items[j])
    {
      var item := SortedStringify(v.items[i]);
      printed := printed + [item];
    }
    ArrayText(v, printed);
    text := "[" + Join(printed, ",") + "]";
  }

  /** The separator the streaming encoder writes before entry i. */
  function Separator(i: nat): string { if i == 0 then "" else "," }

  /** The streaming printer of encoding/json: separators and closing brackets go straight
      into the buffer. */
  method Marshal(v: Value) returns (buf: string)
    ensures buf == Text(v)
    decreases v
  {
    match v {
      case Obj(fields) =>
        var keys := KeysInOrder(fields);
        buf := "{";
        for i := 0 to |keys|
          invariant Elements(keys[i..]) <= fields.Keys
          invariant buf + FieldsText(v, keys[i..], Separator(i)) == Text(v)
        {
          var printed := Marshal(fields[keys[i]]);
          assert keys[i..][1..] == keys[i + 1..];
          StreamOne(buf, Separator(i), FieldText(v, keys[i]), FieldsText(v, keys[i + 1..], ","));
          buf := buf + (Separator(i) + (Quote(keys[i]) + ":" + printed));
        }
        buf := buf + "}";
      case Arr(items) =>
        buf := "[";
        for i := 0 to |items|
          invariant buf + ItemsText(items[i..], Separator(i)) == Text(v)
        {
          var printed := Marshal(items[i]);
          assert items[i..][1..] == items[i + 1..];
          StreamOne(buf, Separator(i), printed, ItemsText(items[i + 1..], ","));
          buf := buf + (Separator(i) + printed);
        }
        buf := buf + "]";
      case _ => buf := Scalar(v);
    }
  }

  lemma StreamOne(buf: string, sep: string, entry: string, rest: string)
    ensures buf + (sep + entry + rest) == buf + (sep + entry) + rest
  {}

  // ---------- the top-level call of the canonical encoder ----------

  /** The dynamic types the encoder stores in its top-level map: ordinary generic values,
      and the steps, whose type []map[string]any matches neither recursive branch. */
  datatype RootValue =
    | Generic(v: Value)
    | MapSlice(maps: seq<map<string, Value>>)

  /** The generic value a root value stands for. */
  function Plain(r: RootValue): Value {
    match r
    case Generic(v) => v
    case MapSlice(maps) => Arr(seq(|maps|, i requires 0 <= i < |maps| => Obj(maps[i])))
  }

  function PlainRoot(m: map<string, RootValue>): Value {
    Obj(map k | k in m :: Plain(m[k]))
  }

  /** The top-level call: generic values go through the recursive printer, the steps fall
      into the default branch and are marshalled; the text is the one the recursive
      branches would have given for the same data. */
  method StringifyRoot(m: map<string, RootValue>) returns (text: string)
    ensures text == Text(PlainRoot(m))
  {
    ghost var v := PlainRoot(m);
    assert v.fields.Keys == m.Keys;
    var keys := KeysInOrder(m);
    var parts: seq<string> := [];
    for i := 0 to |keys|
      invariant |parts| == i && PrintedFields(v, keys, parts)
    {
      var printed := StringifyRootValue(m[keys[i]]);
      var part := Quote(keys[i]) + ":" + printed;
      PrintedOneMore(v, keys, parts, part);
      parts := parts + [part];
    }
    ObjectText(v, keys, parts);
    text := "{" + Join(parts, ",") + "}";
  }

  method StringifyRootValue(r: RootValue) returns (text: string)
    ensures text == Text(Plain(r))
  {
    match r {
      case Generic(v) => text := SortedStringify(v);
      case MapSlice(_) => text := Marshal(Plain(r));
    }
  }
}
