/** The order sort.Strings puts object keys in, and the fact that a key set has exactly
    one sorted listing: whatever order a Go map hands its keys out in, sorting them gives
    the same sequence. */
module KeyOrder {

  /** Lexicographic order by code point, which is the byte order of UTF-8. */
  predicate Less(a: string, b: string) {
    b != "" && (a == "" || a[0] < b[0] || (a[0] == b[0] && Less(a[1..], b[1..])))
  }

  /** a is a proper prefix of b, or has the smaller character where they first differ. */
  ghost predicate Precedes(a: string, b: string) {
    exists n :: 0 <= n <= |a| && n < |b| && a[..n] == b[..n] && (n == |a| || a[n] < b[n])
  }

  lemma {:induction false} LessFrom(a: string, b: string, n: nat)
    requires n <= |a| && n < |b| && a[..n] == b[..n] && (n == |a| || a[n] < b[n])
    ensures Less(a, b)
  {
    if n > 0 {
      assert a[0] == a[..n][0] == b[..n][0] == b[0];
      assert a[1..][..n - 1] == a[..n][1..] && b[1..][..n - 1] == b[..n][1..];
      LessFrom(a[1..], b[1..], n - 1);
    }
  }

  /** Which order this is. */
  lemma {:induction false} LessExactly(a: string, b: string)
    ensures Less(a, b) <==> Precedes(a, b)
  {
    if Less(a, b) {
      if a == "" || a[0] < b[0] {
        assert a[..0] == b[..0];
      } else {
        LessExactly(a[1..], b[1..]);
        var n :| 0 <= n <= |a| - 1 && n < |b| - 1 && a[1..][..n] == b[1..][..n]
          && (n == |a| - 1 || a[1..][n] < b[1..][n]);
        assert a[..n + 1] == [a[0]] + a[1..][..n] && b[..n + 1] == [b[0]] + b[1..][..n];
      }
    }
    if n :| 0 <= n <= |a| && n < |b| && a[..n] == b[..n] && (n == |a| || a[n] < b[n]) {
      LessFrom(a, b, n);
    }
  }

  lemma {:induction false} LessIrreflexive(a: string)
    ensures !Less(a, a)
  {
    if a != "" { LessIrreflexive(a[1..]); }
  }

  lemma {:induction false} LessTransitive(a: string, b: string, c: string)
    requires Less(a, b) && Less(b, c)
    ensures Less(a, c)
  {
    if a != "" && a[0] == b[0] == c[0] { LessTransitive(a[1..], b[1..], c[1..]); }
  }

  lemma {:induction false} LessTotal(a: string, b: string)
    ensures Less(a, b) || Less(b, a) || a == b
  {
    if a != "" && b != "" {
      LessTotal(a[1..], b[1..]);
      assert a == [a[0]] + a[1..] && b == [b[0]] + b[1..];
    }
  }

  predicate StrictlySorted(keys: seq<string>) {
    forall i, j :: 0 <= i < j < |keys| ==> Less(keys[i], keys[j])
  }

  function Elements(keys: seq<string>): set<string> {
    set k | k in keys
  }

  /** keys lists the set ks in increasing order, each key once. */
  predicate Lists(keys: seq<string>, ks: set<string>) {
    StrictlySorted(keys) && Elements(keys) == ks
  }

  lemma ElementsConcat(a: seq<string>, b: seq<string>)
    ensures Elements(a + b) == Elements(a) + Elements(b)
  {}

  lemma ElementsOf(keys: seq<string>, k: string)
    ensures k in Elements(keys) <==> k in keys
  {}

  function Insert(k: string, keys: seq<string>): seq<string> {
    if keys == [] then [k]
    else if Less(k, keys[0]) then [k] + keys
    else [keys[0]] + Insert(k, keys[1..])
  }

  lemma {:induction false} InsertGrows(k: string, keys: seq<string>)
    ensures |Insert(k, keys)| == |keys| + 1
  {
    if keys != [] && !Less(k, keys[0]) { InsertGrows(k, keys[1..]); }
  }

  /** Inserting a new key keeps the listing sorted and adds that key only. */
  lemma {:induction false} InsertLists(k: string, keys: seq<string>, ks: set<string>)
    requires Lists(keys, ks) && k !in ks
    ensures Lists(Insert(k, keys), ks + {k})
  {
    if keys == [] {
    } else if Less(k, keys[0]) {
      forall j | 0 < j < |keys| ensures Less(k, keys[j]) { LessTransitive(k, keys[0], keys[j]); }
      ElementsConcat([k], keys);
    } else {
      var tail := Insert(k, keys[1..]);
      ElementsOf(keys, keys[0]);
      LessTotal(k, keys[0]);
      TailLists(keys, ks);
      InsertLists(k, keys[1..], ks - {keys[0]});
      forall j | 0 <= j < |tail| ensures Less(keys[0], tail[j]) {
        ElementsOf(tail, tail[j]);
        ElementsOf(keys[1..], tail[j]);
      }
      ElementsConcat([keys[0]], tail);
    }
  }

  ghost function SortedKeys(ks: set<string>): (r: seq<string>)
    ensures Lists(r, ks)
  {
    if ks == {} then []
    else
      var k :| k in ks;
      var rest := SortedKeys(ks - {k});
      InsertLists(k, rest, ks - {k});
      assert ks - {k} + {k} == ks;
      Insert(k, rest)
  }

  /** Two sorted listings of one set are the same sequence. */
  lemma {:induction false} ListingUnique(a: seq<string>, b: seq<string>, ks: set<string>)
    requires Lists(a, ks) && Lists(b, ks)
    ensures a == b
    decreases |a|
  {
    if b != [] { ElementsOf(b, b[0]); ElementsOf(a, b[0]); }
    if a != [] { ElementsOf(a, a[0]); ElementsOf(b, a[0]); }
    assert (a == []) == (b == []);
    if a != [] {
      HeadsAgree(a, b);
      TailLists(a, ks);
      TailLists(b, ks);
      ListingUnique(a[1..], b[1..], ks - {a[0]});
      assert a == [a[0]] + a[1..] && b == [b[0]] + b[1..];
    }
  }

  lemma HeadsAgree(a: seq<string>, b: seq<string>)
    requires StrictlySorted(a) && StrictlySorted(b) && a != [] && b != []
    requires a[0] in b && b[0] in a
    ensures a[0] == b[0]
  {
    if a[0] != b[0] {
      assert Less(b[0], a[0]) && Less(a[0], b[0]);
      LessTransitive(a[0], b[0], a[0]);
      LessIrreflexive(a[0]);
    }
  }

  lemma TailLists(a: seq<string>, ks: set<string>)
    requires Lists(a, ks) && a != []
    ensures Lists(a[1..], ks - {a[0]})
  {
    LessIrreflexive(a[0]);
    assert forall x :: x in a[1..] ==> x != a[0];
    assert a == [a[0]] + a[1..];
  }

  /** sort.Strings on the distinct keys of a map, in whatever order they were collected. */
  method SortStrings(keys: seq<string>) returns (sorted: seq<string>)
    requires forall i, j :: 0 <= i < j < |keys| ==> keys[i] != keys[j]
    ensures Lists(sorted, Elements(keys))
    ensures sorted == SortedKeys(Elements(keys))
    ensures (forall k :: k in sorted <==> k in keys) && |sorted| == |keys|
    ensures forall i, j :: 0 <= i < j < |sorted| ==> Precedes(sorted[i], sorted[j])
  {
    sorted := [];
    for i := 0 to |keys|
      invariant Lists(sorted, Elements(keys[..i])) && |sorted| == i
    {
      InsertLists(keys[i], sorted, Elements(keys[..i]));
      InsertGrows(keys[i], sorted);
      sorted := Insert(keys[i], sorted);
      assert keys[..i + 1] == keys[..i] + [keys[i]];
      ElementsConcat(keys[..i], [keys[i]]);
    }
    assert keys[..|keys|] == keys;
    ListingUnique(sorted, SortedKeys(Elements(keys)), Elements(keys));
    forall k ensures k in sorted <==> k in keys {
      ElementsOf(sorted, k);
      ElementsOf(keys, k);
    }
    forall i, j | 0 <= i < j < |sorted| ensures Precedes(sorted[i], sorted[j]) {
      LessExactly(sorted[i], sorted[j]);
    }
  }

  /** Ranging over a map collects every key once, in an order nobody promises. */
  method CollectKeys<V>(m: map<string, V>) returns (keys: seq<string>)
    ensures Elements(keys) == m.Keys
    ensures forall i, j :: 0 <= i < j < |keys| ==> keys[i] != keys[j]
  {
    keys := [];
    var left := m.Keys;
    while left != {}
      invariant left <= m.Keys && Elements(keys) == m.Keys - left
      invariant forall i, j :: 0 <= i < j < |keys| ==> keys[i] != keys[j]
      decreases left
    {
      var k :| k in left;
      assert k !in Elements(keys);
      ElementsConcat(keys, [k]);
      assert m.Keys - (left - {k}) == m.Keys - left + {k};
      keys, left := keys + [k], left - {k};
    }
  }
}
