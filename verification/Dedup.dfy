/** The duplicate filter: a map from instruction id to the time it was last accepted,
    bounded in size, whose entries expire. The theorems say what accepting an id twice
    within the time to live implies about the traffic in between. */
module Dedup {

  type Seen = map<string, int>

  datatype Acceptance = Acceptance(id: string, at: int)

  // ---------- one call ----------

  ghost predicate Duplicate(seen: Seen, ttl: int, id: string, now: int) {
    id in seen && now - seen[id] < ttl
  }

  /** The entries that have not expired. */
  function Live(seen: Seen, ttl: int, now: int): Seen {
    map k | k in seen && now - seen[k] < ttl :: seen[k]
  }

  /** An order in which ranging over the map may visit its keys. */
  ghost predicate Visits(order: seq<string>, ks: set<string>) {
    (forall i, j :: 0 <= i < j < |order| ==> order[i] != order[j]) && (forall k :: k in order <==> k in ks)
  }

  /** The scan for the oldest entry: the empty string stands for "nothing chosen yet". */
  function Scan(m: Seen, order: seq<string>): (oldest: string)
    requires forall k :: k in order ==> k in m
    ensures if order == [] then oldest == "" else oldest in order
  {
    if order == [] then ""
    else
      var k := order[|order| - 1];
      var oldest := Scan(m, order[..|order| - 1]);
      if oldest == "" || m[k] < m[oldest] then k else oldest
  }

  ghost predicate Oldest(m: Seen, k: string) {
    k in m && forall j :: j in m ==> m[k] <= m[j]
  }

  /** The key some visiting order makes the scan choose. */
  ghost predicate Victim(m: Seen, k: string) {
    exists order: seq<string> :: Visits(order, m.Keys) && Scan(m, order) == k
  }

  /** Removing one entry from a full map: whatever the scan chose. An empty map loses nothing. */
  ghost predicate Evicts(m: Seen, m': Seen) {
    exists k :: Victim(m, k) && m' == m - {k}
  }

  /** Making room for one more entry. */
  ghost predicate MakesRoom(seen: Seen, maxSize: int, ttl: int, now: int, m: Seen) {
    if |seen| < maxSize then m == seen
    else if |Live(seen, ttl, now)| < maxSize then m == Live(seen, ttl, now)
    else Evicts(Live(seen, ttl, now), m)
  }

  /** One call to Check. */
  ghost predicate CheckStep(maxSize: int, ttl: int, seen: Seen, id: string, now: int, seen': Seen, ok: bool) {
    if Duplicate(seen, ttl, id, now) then !ok && seen' == seen
    else ok && exists m :: MakesRoom(seen, maxSize, ttl, now, m) && seen' == m[id := now]
  }

  // ---------- the scan and its sentinel ----------

  /** Once a least entry that is no later than the empty id has been visited, the scan
      holds on to an entry of that age. */
  lemma {:induction false} ScanSettles(m: Seen, order: seq<string>, least: string)
    requires forall k :: k in order ==> k in m
    requires least in order && least != "" && forall k :: k in m ==> m[least] <= m[k]
    ensures var o := Scan(m, order); o != "" && m[o] == m[least]
  {
    var n := |order| - 1;
    assert order == order[..n] + [order[n]];
    if least in order[..n] { ScanSettles(m, order[..n], least); }
  }

  lemma {:induction false} ScanSkipsLeadingEmpty(m: Seen, order: seq<string>)
    requires forall k :: k in order ==> k in m
    requires |order| >= 2 && order[0] == "" && forall i :: 1 <= i < |order| ==> order[i] != ""
    ensures Scan(m, order) != ""
  {
    var n := |order| - 1;
    if n >= 2 { ScanSkipsLeadingEmpty(m, order[..n]); }
  }

  lemma {:induction false} SomeOrder(ks: set<string>) returns (order: seq<string>)
    ensures Visits(order, ks)
    decreases ks
  {
    if ks == {} {
      order := [];
    } else {
      var k :| k in ks;
      var rest := SomeOrder(ks - {k});
      order := [k] + rest;
    }
  }

  lemma {:induction false} SomeOldest(m: Seen) returns (k: string)
    requires m != map[]
    ensures Oldest(m, k)
    decreases m.Keys
  {
    var first :| first in m;
    var rest := m - {first};
    assert forall j :: j in m <==> j == first || j in rest;
    k := first;
    if rest != map[] {
      var o := SomeOldest(rest);
      if m[o] < m[first] { k := o; }
    }
  }

  /** The empty id is in the map, is not alone there, and is strictly the oldest. */
  ghost predicate EmptyIdStrictlyOldest(m: Seen) {
    "" in m && |m| >= 2 && forall k :: k in m && k != "" ==> m[""] < m[k]
  }

  /** The scan returns an oldest entry whatever order the map is visited in, except
      exactly when the empty id, its own "nothing chosen" mark, is strictly the oldest. */
  lemma ScanExact(m: Seen)
    requires m != map[]
    ensures (forall order :: Visits(order, m.Keys) ==> Oldest(m, Scan(m, order)))
            <==> !EmptyIdStrictlyOldest(m)
  {
    if EmptyIdStrictlyOldest(m) {
      var rest := SomeOrder(m.Keys - {""});
      var order := [""] + rest;
      assert m.Keys - {""} != {} by { assert |m.Keys - {""}| == |m| - 1; }
      assert Visits(order, m.Keys);
      ScanSkipsLeadingEmpty(m, order);
      assert !Oldest(m, Scan(m, order));
    } else {
      forall order | Visits(order, m.Keys) ensures Oldest(m, Scan(m, order)) {
        ScanIsOldest(m, order);
      }
    }
  }

  lemma ScanIsOldest(m: Seen, order: seq<string>)
    requires m != map[] && !EmptyIdStrictlyOldest(m) && Visits(order, m.Keys)
    ensures Oldest(m, Scan(m, order))
  {
    assert forall k :: k in order <==> k in m;
    var least := SomeOldest(m);
    if least != "" {
      ScanSettles(m, order, least);
    } else if |m| >= 2 {
      var k :| k in m && k != "" && m[k] <= m[""];
      ScanSettles(m, order, k);
    } else {
      assert m.Keys == {""} by { OnlyKey(m.Keys, ""); }
      assert forall x :: x in order ==> x == "";
    }
  }

  lemma OnlyKey(ks: set<string>, k: string)
    requires k in ks && |ks| < 2
    ensures ks == {k}
  {
    assert |ks - {k}| == |ks| - 1;
    assert ks - {k} == {};
  }

  /** Room for one more entry can always be made. */
  lemma RoomCanBeMade(maxSize: int, ttl: int, seen: Seen, now: int) returns (m: Seen)
    ensures MakesRoom(seen, maxSize, ttl, now, m)
  {
    m := if |seen| < maxSize then seen else Live(seen, ttl, now);
    if |seen| >= maxSize && |m| >= maxSize {
      var order := SomeOrder(m.Keys);
      assert Victim(m, Scan(m, order));
      m := m - {Scan(m, order)};
    }
  }

  /** So an id that is not in the map can always be accepted. */
  lemma NewIdIsAccepted(maxSize: int, ttl: int, seen: Seen, m: Seen, id: string, now: int)
    requires id !in seen && MakesRoom(seen, maxSize, ttl, now, m)
    ensures CheckStep(maxSize, ttl, seen, id, now, m[id := now], true)
  {}

  // ---------- whole runs ----------

  ghost predicate Chronological(h: seq<Acceptance>, now: int) {
    (forall i, j :: 0 <= i <= j < |h| ==> h[i].at <= h[j].at) && forall i :: 0 <= i < |h| ==> h[i].at <= now
  }

  /** The distinct other ids accepted at or after time t. */
  ghost function OthersSince(h: seq<Acceptance>, id: string, t: int): set<string> {
    set i | 0 <= i < |h| && h[i].id != id && t <= h[i].at :: h[i].id
  }

  ghost predicate Latest(h: seq<Acceptance>, i: int) {
    0 <= i < |h| && forall j :: i < j < |h| ==> h[j].id != h[i].id
  }

  /** Accepting one id twice less than ttl apart takes at least maxSize distinct other ids,
      accepted no earlier than the first of the two (and, h being chronological, no later
      than the second). */
  ghost predicate Separated(maxSize: int, ttl: int, h: seq<Acceptance>) {
    forall i, j :: 0 <= i < j < |h| && h[i].id == h[j].id && h[j].at - h[i].at < ttl ==>
      |OthersSince(h[..j], h[i].id, h[i].at)| >= maxSize
  }

  /** The empty id, the scan's own mark, was accepted before a, and less than ttl before it. */
  ghost predicate Shadowed(maxSize: int, ttl: int, h: seq<Acceptance>, a: Acceptance) {
    maxSize >= 2 && exists e :: 0 <= e < |h| && h[e].id == "" && h[e].at < a.at < h[e].at + ttl
  }

  /** The same, but for acceptances shadowed by one of the empty id. */
  ghost predicate SeparatedUnlessShadowed(maxSize: int, ttl: int, h: seq<Acceptance>) {
    forall i, j :: 0 <= i < j < |h| && h[i].id == h[j].id && h[j].at - h[i].at < ttl ==>
      |OthersSince(h[..j], h[i].id, h[i].at)| >= maxSize || Shadowed(maxSize, ttl, h, h[i])
  }

  ghost predicate Stored(seen: Seen, a: Acceptance) { a.id in seen && seen[a.id] == a.at }

  /** The id's last acceptance was at time t. */
  ghost predicate LastAccepted(h: seq<Acceptance>, id: string, t: int) {
    exists i :: Latest(h, i) && h[i] == Acceptance(id, t)
  }

  /** The map stores last acceptance times only. */
  ghost predicate Backed(seen: Seen, h: seq<Acceptance>) {
    forall k :: k in seen ==> LastAccepted(h, k, seen[k])
  }

  /** Why the acceptance a may have been forgotten. */
  ghost predicate Forgettable(maxSize: int, ttl: int, h: seq<Acceptance>, a: Acceptance, now: int) {
    now - a.at >= ttl || |OthersSince(h, a.id, a.at)| >= maxSize || Shadowed(maxSize, ttl, h, a)
  }

  ghost predicate ForgetsOnlyForgettable(maxSize: int, ttl: int, seen: Seen, h: seq<Acceptance>, now: int) {
    forall i :: Latest(h, i) ==> Stored(seen, h[i]) || Forgettable(maxSize, ttl, h, h[i], now)
  }

  /** The map against the history of acceptances: it is small, stores the last acceptance
      time of each of its ids, and has lost only what may be forgotten. */
  ghost predicate Consistent(maxSize: int, ttl: int, seen: Seen, h: seq<Acceptance>, now: int) {
    && Chronological(h, now)
    && |seen| <= Room(maxSize)
    && Backed(seen, h)
    && ForgetsOnlyForgettable(maxSize, ttl, seen, h, now)
    && SeparatedUnlessShadowed(maxSize, ttl, h)
  }

  /** The most entries the map ever has. */
  function Room(maxSize: int): int { if maxSize < 1 then 1 else maxSize }

  ghost predicate NonEmptyIds(h: seq<Acceptance>) {
    forall i :: 0 <= i < |h| ==> h[i].id != ""
  }

  /** Without shadows the separation is plain: for non-empty ids, and for every size or time
      to live that leaves no room for one. */
  lemma PlainlySeparated(maxSize: int, ttl: int, h: seq<Acceptance>)
    requires SeparatedUnlessShadowed(maxSize, ttl, h)
    requires NonEmptyIds(h) || maxSize <= 1 || ttl <= 1
    ensures Separated(maxSize, ttl, h)
  {}

  lemma {:induction false} SubsetSize(a: set<string>, b: set<string>)
    requires a <= b
    ensures |a| <= |b|
  {
    assert b == a + (b - a);
  }

  lemma OthersGrow(h: seq<Acceptance>, a: Acceptance, id: string, t: int)
    ensures |OthersSince(h, id, t)| <= |OthersSince(h + [a], id, t)|
  {
    var g := h + [a];
    forall x | x in OthersSince(h, id, t) ensures x in OthersSince(g, id, t) {
      var i :| 0 <= i < |h| && h[i].id != id && t <= h[i].at && h[i].id == x;
      assert g[i] == h[i];
    }
    SubsetSize(OthersSince(h, id, t), OthersSince(g, id, t));
  }

  /** When a full map drops its oldest live entry, everything else in it, and the id that
      pushed it out, has been accepted since. */
  lemma CrowdedOut(seen: Seen, maxSize: int, h: seq<Acceptance>, k: string, id: string, now: int)
    requires Chronological(h, now) && |seen| >= maxSize && Oldest(seen, k) && id !in seen
    requires Backed(seen, h)
    ensures |OthersSince(h + [Acceptance(id, now)], k, seen[k])| >= maxSize
  {
    var g := h + [Acceptance(id, now)];
    var others := seen.Keys - {k} + {id};
    forall x | x in others ensures x in OthersSince(g, k, seen[k]) {
      if x == id {
        assert g[|h|] == Acceptance(id, now);
        assert LastAccepted(h, k, seen[k]);
        var i :| Latest(h, i) && h[i] == Acceptance(k, seen[k]);
      } else {
        assert LastAccepted(h, x, seen[x]);
        var i :| Latest(h, i) && h[i] == Acceptance(x, seen[x]);
        assert g[i] == h[i];
      }
    }
    SubsetSize(others, OthersSince(g, k, seen[k]));
    assert |others| == |seen.Keys - {k}| + 1 == |seen|;
  }

  ghost predicate Submap(m: Seen, seen: Seen) {
    forall k :: k in m ==> k in seen && m[k] == seen[k]
  }

  ghost predicate LosesForgettable(maxSize: int, ttl: int, seen: Seen, m: Seen, g: seq<Acceptance>, now: int) {
    forall k :: k in seen && k !in m ==> Forgettable(maxSize, ttl, g, Acceptance(k, seen[k]), now)
  }

  /** What the scan chooses is in the map, and is an oldest entry or shadowed. */
  lemma VictimIsForgettable(maxSize: int, ttl: int, live: Seen, h: seq<Acceptance>, id: string, now: int, k: string)
    requires Chronological(h, now) && Backed(live, h) && live != map[] && Victim(live, k)
    requires id !in live && maxSize <= |live| <= Room(maxSize) && forall x :: x in live ==> now - live[x] < ttl
    ensures k in live && Forgettable(maxSize, ttl, h + [Acceptance(id, now)], Acceptance(k, live[k]), now)
  {
    var g := h + [Acceptance(id, now)];
    var order :| Visits(order, live.Keys) && Scan(live, order) == k;
    assert order != [] by { var x :| x in live; assert x in order; }
    assert k in order;
    if EmptyIdStrictlyOldest(live) && k != "" {
      assert LastAccepted(h, "", live[""]) && LastAccepted(h, k, live[k]);
      var e :| Latest(h, e) && h[e] == Acceptance("", live[""]);
      assert g[e] == h[e];
      assert Shadowed(maxSize, ttl, g, Acceptance(k, live[k]));
    } else {
      if !EmptyIdStrictlyOldest(live) { ScanIsOldest(live, order); }
      CrowdedOut(live, maxSize, h, k, id, now);
    }
  }

  lemma EvictionLosesForgettable(maxSize: int, ttl: int, live: Seen, h: seq<Acceptance>, id: string, now: int, m: Seen)
    requires Chronological(h, now) && Backed(live, h)
    requires id !in live && maxSize <= |live| <= Room(maxSize) && (forall x :: x in live ==> now - live[x] < ttl)
    requires Evicts(live, m)
    ensures Submap(m, live) && |m| <= (if |live| == 0 then 0 else |live| - 1)
    ensures LosesForgettable(maxSize, ttl, live, m, h + [Acceptance(id, now)], now)
  {
    var k :| Victim(live, k) && m == live - {k};
    if live != map[] {
      VictimIsForgettable(maxSize, ttl, live, h, id, now, k);
      assert m.Keys == live.Keys - {k};
      assert |m.Keys| == |live.Keys| - 1;
      assert forall x :: x in live && x !in m ==> x == k;
    }
  }

  /** Making room loses expired entries, or one entry of a full map. */
  lemma RoomLosesForgettable(maxSize: int, ttl: int, seen: Seen, h: seq<Acceptance>, id: string, now: int, m: Seen)
    requires Chronological(h, now) && Backed(seen, h) && |seen| <= Room(maxSize)
    requires !Duplicate(seen, ttl, id, now) && MakesRoom(seen, maxSize, ttl, now, m)
    ensures Submap(m, seen) && |m| < Room(maxSize)
    ensures LosesForgettable(maxSize, ttl, seen, m, h + [Acceptance(id, now)], now)
  {
    var live := Live(seen, ttl, now);
    if |seen| >= maxSize {
      SubsetSize(live.Keys, seen.Keys);
      assert Backed(live, h);
      if |live| >= maxSize {
        EvictionLosesForgettable(maxSize, ttl, live, h, id, now, m);
      }
    }
  }

  /** Every call, whatever the id, keeps the map consistent with the history. */
  lemma CheckKeepsConsistent(maxSize: int, ttl: int, seen: Seen, h: seq<Acceptance>, before: int,
                             id: string, now: int, seen': Seen, ok: bool)
    requires Consistent(maxSize, ttl, seen, h, before) && before <= now
    requires CheckStep(maxSize, ttl, seen, id, now, seen', ok)
    ensures Consistent(maxSize, ttl, seen', if ok then h + [Acceptance(id, now)] else h, now)
  {
    ConsistentLater(maxSize, ttl, seen, h, before, now);
    if ok {
      var m :| MakesRoom(seen, maxSize, ttl, now, m) && seen' == m[id := now];
      RoomLosesForgettable(maxSize, ttl, seen, h, id, now, m);
      InsertKeepsConsistent(maxSize, ttl, seen, h, id, now, m);
    }
  }

  lemma InsertKeepsConsistent(maxSize: int, ttl: int, seen: Seen, h: seq<Acceptance>, id: string, now: int, m: Seen)
    requires Consistent(maxSize, ttl, seen, h, now) && !Duplicate(seen, ttl, id, now)
    requires Submap(m, seen) && |m| < Room(maxSize)
    requires LosesForgettable(maxSize, ttl, seen, m, h + [Acceptance(id, now)], now)
    ensures Consistent(maxSize, ttl, m[id := now], h + [Acceptance(id, now)], now)
  {
    assert |m[id := now]| <= Room(maxSize) by { assert m[id := now].Keys == m.Keys + {id}; }
    assert Chronological(h + [Acceptance(id, now)], now);
    BackedByInsert(seen, h, id, now, m);
    ForgettableByInsert(maxSize, ttl, seen, h, id, now, m);
    SeparatedByInsert(maxSize, ttl, seen, h, id, now);
  }

  lemma ForgettableByInsert(maxSize: int, ttl: int, seen: Seen, h: seq<Acceptance>, id: string, now: int, m: Seen)
    requires ForgetsOnlyForgettable(maxSize, ttl, seen, h, now) && Submap(m, seen)
    requires LosesForgettable(maxSize, ttl, seen, m, h + [Acceptance(id, now)], now)
    ensures ForgetsOnlyForgettable(maxSize, ttl, m[id := now], h + [Acceptance(id, now)], now)
  {
    var g, seen' := h + [Acceptance(id, now)], m[id := now];
    forall i | Latest(g, i) ensures Stored(seen', g[i]) || Forgettable(maxSize, ttl, g, g[i], now) {
      if i < |h| {
        assert g[|h|].id == id && g[i] == h[i];
        assert forall j :: i < j < |h| ==> g[j] == h[j];
        assert Latest(h, i);
        OthersGrow(h, Acceptance(id, now), h[i].id, h[i].at);
        if Shadowed(maxSize, ttl, h, h[i]) { ShadowGrows(maxSize, ttl, h, Acceptance(id, now), h[i]); }
      }
    }
  }

  lemma ShadowGrows(maxSize: int, ttl: int, h: seq<Acceptance>, b: Acceptance, a: Acceptance)
    requires Shadowed(maxSize, ttl, h, a)
    ensures Shadowed(maxSize, ttl, h + [b], a)
  {
    var e :| 0 <= e < |h| && h[e].id == "" && h[e].at < a.at < h[e].at + ttl;
    assert (h + [b])[e] == h[e];
  }

  lemma BackedByInsert(seen: Seen, h: seq<Acceptance>, id: string, now: int, m: Seen)
    requires Backed(seen, h) && Submap(m, seen)
    ensures Backed(m[id := now], h + [Acceptance(id, now)])
  {
    var g, seen' := h + [Acceptance(id, now)], m[id := now];
    forall k | k in seen' ensures LastAccepted(g, k, seen'[k]) {
      if k == id {
        assert Latest(g, |h|);
      } else {
        assert LastAccepted(h, k, seen[k]);
        var i :| Latest(h, i) && h[i] == Acceptance(k, seen[k]);
        assert Latest(g, i);
      }
    }
  }

  lemma SeparatedByInsert(maxSize: int, ttl: int, seen: Seen, h: seq<Acceptance>, id: string, now: int)
    requires Consistent(maxSize, ttl, seen, h, now) && !Duplicate(seen, ttl, id, now)
    ensures SeparatedUnlessShadowed(maxSize, ttl, h + [Acceptance(id, now)])
  {
    var g := h + [Acceptance(id, now)];
    forall i, j | 0 <= i < j < |g| && g[i].id == g[j].id && g[j].at - g[i].at < ttl
      ensures |OthersSince(g[..j], g[i].id, g[i].at)| >= maxSize || Shadowed(maxSize, ttl, g, g[i])
    {
      assert g[i] == h[i];
      if Shadowed(maxSize, ttl, h, h[i]) {
        ShadowGrows(maxSize, ttl, h, Acceptance(id, now), h[i]);
      } else if j < |h| {
        assert g[..j] == h[..j] && g[j] == h[j];
      } else {
        assert g[..j] == h;
        NewcomerSeparated(maxSize, ttl, seen, h, id, now, i);
      }
    }
  }

  /** An id that is accepted now, and was before, less than ttl ago. */
  lemma NewcomerSeparated(maxSize: int, ttl: int, seen: Seen, h: seq<Acceptance>, id: string, now: int, i: nat)
    requires Consistent(maxSize, ttl, seen, h, now) && !Duplicate(seen, ttl, id, now)
    requires i < |h| && h[i].id == id && now - h[i].at < ttl && !Shadowed(maxSize, ttl, h, h[i])
    ensures |OthersSince(h, id, h[i].at)| >= maxSize
  {
    var l := LastOf(h, i);
    if i < l {
      OthersOfPrefix(h, l, id, h[i].at);
    } else {
      assert !Stored(seen, h[i]);
    }
  }

  lemma OthersOfPrefix(h: seq<Acceptance>, l: nat, id: string, t: int)
    requires l <= |h|
    ensures |OthersSince(h[..l], id, t)| <= |OthersSince(h, id, t)|
  {
    forall x | x in OthersSince(h[..l], id, t) ensures x in OthersSince(h, id, t) {
      var i :| 0 <= i < l && h[..l][i].id != id && t <= h[..l][i].at && h[..l][i].id == x;
      assert h[i] == h[..l][i];
    }
    SubsetSize(OthersSince(h[..l], id, t), OthersSince(h, id, t));
  }

  /** The latest acceptance of the id accepted at position i. */
  lemma {:induction false} LastOf(h: seq<Acceptance>, i: nat) returns (l: nat)
    requires i < |h|
    ensures i <= l && Latest(h, l) && h[l].id == h[i].id
    decreases |h| - i
  {
    if j :| i < j < |h| && h[j].id == h[i].id {
      l := LastOf(h, j);
    } else {
      l := i;
    }
  }

  datatype Call = Call(id: string, at: int, ok: bool)

  function Accepted(calls: seq<Call>): seq<Acceptance> {
    if calls == [] then []
    else
      var c, earlier := calls[|calls| - 1], Accepted(calls[..|calls| - 1]);
      if c.ok then earlier + [Acceptance(c.id, c.at)] else earlier
  }

  ghost predicate CallStep(maxSize: int, ttl: int, m: Seen, c: Call, m': Seen) {
    CheckStep(maxSize, ttl, m, c.id, c.at, m', c.ok)
  }

  ghost predicate CallAt(maxSize: int, ttl: int, maps: seq<Seen>, calls: seq<Call>, i: int) {
    0 <= i < |calls| && i + 1 < |maps| && CallStep(maxSize, ttl, maps[i], calls[i], maps[i + 1])
  }

  predicate InOrder(calls: seq<Call>) {
    forall i, j :: 0 <= i <= j < |calls| ==> calls[i].at <= calls[j].at
  }

  /** A run from the empty map: maps[i] is what call i finds, at a clock that never goes back. */
  ghost predicate Run(maxSize: int, ttl: int, maps: seq<Seen>, calls: seq<Call>) {
    && |maps| == |calls| + 1 && maps[0] == map[] && InOrder(calls)
    && forall i :: 0 <= i < |calls| ==> CallAt(maxSize, ttl, maps, calls, i)
  }

  lemma RunPrefix(maxSize: int, ttl: int, maps: seq<Seen>, calls: seq<Call>)
    requires Run(maxSize, ttl, maps, calls) && calls != []
    ensures Run(maxSize, ttl, maps[..|calls|], calls[..|calls| - 1])
  {
    var n := |calls| - 1;
    var maps', calls' := maps[..n + 1], calls[..n];
    forall i | 0 <= i < n ensures CallAt(maxSize, ttl, maps', calls', i) {
      assert CallAt(maxSize, ttl, maps, calls, i);
    }
  }

  /** In every run, of any length, over any ids and for any size and time to live, the map
      stays consistent with the acceptances; in particular accepting an id again before its
      time to live is over takes maxSize other ids in between, unless the empty id was
      accepted shortly before. */
  lemma {:induction false} RunIsConsistent(maxSize: int, ttl: int, maps: seq<Seen>, calls: seq<Call>, now: int)
    requires Run(maxSize, ttl, maps, calls)
    requires forall i :: 0 <= i < |calls| ==> calls[i].at <= now
    ensures Consistent(maxSize, ttl, maps[|calls|], Accepted(calls), now)
  {
    if calls != [] {
      var n := |calls| - 1;
      var c := calls[n];
      RunPrefix(maxSize, ttl, maps, calls);
      RunIsConsistent(maxSize, ttl, maps[..n + 1], calls[..n], c.at);
      assert CallAt(maxSize, ttl, maps, calls, n);
      CheckKeepsConsistent(maxSize, ttl, maps[n], Accepted(calls[..n]), c.at, c.id, c.at, maps[n + 1], c.ok);
      ConsistentLater(maxSize, ttl, maps[n + 1], Accepted(calls), c.at, now);
    }
  }

  lemma ConsistentLater(maxSize: int, ttl: int, seen: Seen, h: seq<Acceptance>, before: int, now: int)
    requires Consistent(maxSize, ttl, seen, h, before) && before <= now
    ensures Consistent(maxSize, ttl, seen, h, now)
  {}

  // ---------- when the empty id matters ----------

  /** Distinct ids, none of them empty from one on. */
  function Key(i: nat): (k: string)
    ensures |k| == i
  {
    if i == 0 then "" else Key(i - 1) + "k"
  }

  /** The empty id, accepted at time 0, and n others, accepted at time 1. */
  function Filled(n: nat): Seen {
    if n == 0 then map["" := 0] else Filled(n - 1)[Key(n) := 1]
  }

  /** The empty id and keys up to length n, and nothing else. */
  ghost predicate HoldsKeys(m: Seen, n: nat) {
    && |m| == n + 1 && "" in m
    && (forall k :: k in m ==> |k| <= n && m[k] == if k == "" then 0 else 1)
    && forall i :: 0 <= i <= n ==> Key(i) in m
  }

  lemma {:induction false} FilledHolds(n: nat)
    ensures HoldsKeys(Filled(n), n)
  {
    if n == 0 {
      assert Key(0) == "" && |map["" := 0].Keys| == |{""}|;
    } else {
      FilledHolds(n - 1);
      NewEntry(Filled(n - 1), Key(n), 1);
    }
  }

  lemma NewEntry(m: Seen, k: string, t: int)
    requires k !in m
    ensures |m[k := t]| == |m| + 1
  {
    assert m[k := t].Keys == m.Keys + {k};
    assert |m[k := t].Keys| == |m.Keys| + 1;
  }

  function Filling(n: nat): (calls: seq<Call>)
    ensures |calls| == n + 1
    ensures forall i :: 0 <= i <= n ==> calls[i] == Call(Key(i), if i == 0 then 0 else 1, true)
  {
    if n == 0 then [Call("", 0, true)] else Filling(n - 1) + [Call(Key(n), 1, true)]
  }

  lemma RunExtended(maxSize: int, ttl: int, maps: seq<Seen>, calls: seq<Call>, last: Seen, c: Call, m: Seen)
    requires Run(maxSize, ttl, maps, calls) && maps[|calls|] == last && CallStep(maxSize, ttl, last, c, m)
    requires forall i :: 0 <= i < |calls| ==> calls[i].at <= c.at
    ensures Run(maxSize, ttl, maps + [m], calls + [c])
  {
    var maps', calls' := maps + [m], calls + [c];
    forall i | 0 <= i < |calls'| ensures CallAt(maxSize, ttl, maps', calls', i) {
      if i < |calls| { assert CallAt(maxSize, ttl, maps, calls, i); }
    }
  }

  lemma RoomyStep(maxSize: int, ttl: int, m: Seen, id: string, at: int)
    requires |m| < maxSize && id !in m
    ensures CallStep(maxSize, ttl, m, Call(id, at, true), m[id := at])
  {
    assert MakesRoom(m, maxSize, ttl, at, m);
  }

  lemma FirstCallRuns(maxSize: int, ttl: int) returns (maps: seq<Seen>)
    requires maxSize >= 1
    ensures Run(maxSize, ttl, maps, Filling(0)) && maps[1] == Filled(0)
  {
    RoomyStep(maxSize, ttl, map[], "", 0);
    maps := [map[], map["" := 0]];
  }

  lemma FillOneMore(maxSize: int, ttl: int, n: nat, maps: seq<Seen>)
    requires 1 <= n < maxSize && Run(maxSize, ttl, maps, Filling(n - 1)) && maps[n] == Filled(n - 1)
    ensures Run(maxSize, ttl, maps + [Filled(n)], Filling(n))
  {
    var full, c := Filled(n - 1), Call(Key(n), 1, true);
    FilledHolds(n - 1);
    RoomyStep(maxSize, ttl, full, Key(n), 1);
    RunExtended(maxSize, ttl, maps, Filling(n - 1), full, c, full[Key(n) := 1]);
  }

  lemma {:induction false} FillingRuns(maxSize: int, ttl: int, n: nat) returns (maps: seq<Seen>)
    requires n < maxSize
    ensures Run(maxSize, ttl, maps, Filling(n)) && maps[n + 1] == Filled(n)
  {
    if n == 0 {
      maps := FirstCallRuns(maxSize, ttl);
    } else {
      maps := FillingRuns(maxSize, ttl, n - 1);
      FillOneMore(maxSize, ttl, n, maps);
      maps := maps + [Filled(n)];
    }
  }

  /** The empty id, older than all others, is what the scan holds when it comes last. */
  lemma ScanEndsEmpty(m: Seen, first: seq<string>)
    requires "" in m && forall k :: k in first ==> k in m && k != "" && m[""] < m[k]
    ensures Scan(m, first + [""]) == ""
  {
    assert (first + [""])[..|first|] == first;
  }

  lemma ScanForgetsEmpty(m: Seen, order: seq<string>, x: string)
    requires (forall k :: k in order ==> k in m) && x in m && Scan(m, order) == ""
    ensures Scan(m, order + [x]) == x
  {
    assert (order + [x])[..|order|] == order;
  }

  /** Visited last but for one key x, the empty id gives way to x, whatever x's age. */
  lemma NewestIsVictim(m: Seen, x: string)
    requires "" in m && x in m && x != "" && forall k :: k in m && k != "" ==> m[""] < m[k]
    ensures Victim(m, x)
  {
    var first := SomeOrder(m.Keys - {"", x});
    var order := first + [""];
    ScanEndsEmpty(m, first);
    ScanForgetsEmpty(m, order, x);
    assert Visits(order + [x], m.Keys);
  }

  lemma NewestMakesRoom(n: nat, ttl: int, rest: Seen, x: string)
    requires n >= 2 && ttl >= 2 && |rest| == n - 1 && "" in rest && x !in rest
    requires forall k :: k in rest ==> rest[k] == if k == "" then 0 else 1
    ensures MakesRoom(rest[x := 1], n, ttl, 1, rest)
  {
    var full := rest[x := 1];
    NewEntry(rest, x, 1);
    assert Live(full, ttl, 1) == full;
    NewestIsVictim(full, x);
    assert full - {x} == rest;
  }

  /** In a full map of n entries, one of them under the empty id and older than the rest, the
      newest entry may make room for the next. */
  lemma NewestGivesWay(n: nat, ttl: int, x: string, y: string)
    requires n >= 2 && ttl >= 2 && x != y && x !in Filled(n - 2) && y !in Filled(n - 2)
    ensures CallStep(n, ttl, Filled(n - 2)[x := 1], Call(y, 1, true), Filled(n - 2)[y := 1])
  {
    FilledHolds(n - 2);
    NewestMakesRoom(n, ttl, Filled(n - 2), x);
  }

  lemma {:induction false} AllAccepted(calls: seq<Call>)
    requires forall i :: 0 <= i < |calls| ==> calls[i].ok
    ensures |Accepted(calls)| == |calls|
    ensures forall i :: 0 <= i < |calls| ==> Accepted(calls)[i] == Acceptance(calls[i].id, calls[i].at)
  {
    if calls != [] { AllAccepted(calls[..|calls| - 1]); }
  }

  lemma SwapNewest(n: nat, ttl: int, maps: seq<Seen>, calls: seq<Call>, x: string, y: string)
    requires n >= 2 && ttl >= 2 && x != y && x !in Filled(n - 2) && y !in Filled(n - 2)
    requires Run(n, ttl, maps, calls) && maps[|calls|] == Filled(n - 2)[x := 1]
    requires forall i :: 0 <= i < |calls| ==> calls[i].at <= 1
    ensures Run(n, ttl, maps + [Filled(n - 2)[y := 1]], calls + [Call(y, 1, true)])
  {
    NewestGivesWay(n, ttl, x, y);
    RunExtended(n, ttl, maps, calls, Filled(n - 2)[x := 1], Call(y, 1, true), Filled(n - 2)[y := 1]);
  }

  lemma DropAndReturn(n: nat, ttl: int, maps: seq<Seen>, x: string, y: string) returns (maps': seq<Seen>)
    requires n >= 2 && ttl >= 2 && x == Key(n - 1) && y == Key(n)
    requires Run(n, ttl, maps, Filling(n - 1)) && maps[n] == Filled(n - 2)[x := 1]
    ensures Run(n, ttl, maps', Filling(n) + [Call(x, 1, true)])
  {
    FilledHolds(n - 2);
    SwapNewest(n, ttl, maps, Filling(n - 1), x, y);
    maps' := maps + [Filled(n - 2)[y := 1]];
    SwapNewest(n, ttl, maps', Filling(n), y, x);
    maps' := maps' + [Filled(n - 2)[x := 1]];
  }

  /** For every size and time to live of at least two, filling the map behind the empty id
      makes it drop its newest entry and accept that id again, with too few others since. */
  lemma EmptyIdBreaksSeparation(n: nat, ttl: int) returns (maps: seq<Seen>, calls: seq<Call>)
    requires n >= 2 && ttl >= 2
    ensures Run(n, ttl, maps, calls) && !Separated(n, ttl, Accepted(calls))
  {
    var x := Key(n - 1);
    maps := FillingRuns(n, ttl, n - 1);
    maps := DropAndReturn(n, ttl, maps, x, Key(n));
    calls := Filling(n) + [Call(x, 1, true)];
    AcceptedTooSoon(n, ttl, calls);
  }

  lemma AcceptedTooSoon(n: nat, ttl: int, calls: seq<Call>)
    requires n >= 2 && ttl >= 2 && calls == Filling(n) + [Call(Key(n - 1), 1, true)]
    ensures !Separated(n, ttl, Accepted(calls))
  {
    AllAccepted(calls);
    TooFewSince(n, Accepted(calls));
    assert Accepted(calls)[n - 1].id == Accepted(calls)[n + 1].id;
  }

  lemma TooFewSince(n: nat, h: seq<Acceptance>)
    requires n >= 2 && |h| == n + 2
    requires forall i :: 0 <= i <= n ==> h[i] == Acceptance(Key(i), if i == 0 then 0 else 1)
    ensures |OthersSince(h[..n + 1], Key(n - 1), 1)| < n
  {
    var others := Filled(n).Keys - {"", Key(n - 1)};
    FilledHolds(n);
    assert Key(n - 1) in Filled(n);
    assert |{"", Key(n - 1)}| == 2 && {"", Key(n - 1)} <= Filled(n).Keys;
    assert |others| == |Filled(n).Keys| - 2;
    SubsetSize(OthersSince(h[..n + 1], Key(n - 1), 1), others);
  }

  /** Over arbitrary ids every run keeps accepting an id twice within its time to live apart by
      maxSize others, if and only if the map holds at most one entry or nothing stays in it. */
  lemma SeparationExact(maxSize: int, ttl: int)
    ensures (forall maps: seq<Seen>, calls: seq<Call> ::
               Run(maxSize, ttl, maps, calls) ==> Separated(maxSize, ttl, Accepted(calls)))
            <==> maxSize <= 1 || ttl <= 1
  {
    if maxSize <= 1 || ttl <= 1 {
      forall maps: seq<Seen>, calls: seq<Call> | Run(maxSize, ttl, maps, calls)
        ensures Separated(maxSize, ttl, Accepted(calls))
      {
        RunIsConsistent(maxSize, ttl, maps, calls, if calls == [] then 0 else calls[|calls| - 1].at);
        PlainlySeparated(maxSize, ttl, Accepted(calls));
      }
    } else {
      var maps, calls := EmptyIdBreaksSeparation(maxSize, ttl);
    }
  }

  lemma {:induction false} AcceptedIds(calls: seq<Call>)
    requires forall i :: 0 <= i < |calls| ==> calls[i].id != ""
    ensures NonEmptyIds(Accepted(calls))
  {
    if calls != [] { AcceptedIds(calls[..|calls| - 1]); }
  }

  /** Over non-empty ids they do for every size and time to live. */
  lemma NonEmptyIdsAreSeparated(maxSize: int, ttl: int, maps: seq<Seen>, calls: seq<Call>)
    requires Run(maxSize, ttl, maps, calls) && forall i :: 0 <= i < |calls| ==> calls[i].id != ""
    ensures Separated(maxSize, ttl, Accepted(calls))
  {
    RunIsConsistent(maxSize, ttl, maps, calls, if calls == [] then 0 else calls[|calls| - 1].at);
    AcceptedIds(calls);
    PlainlySeparated(maxSize, ttl, Accepted(calls));
  }

  // ---------- the object ----------

  /** Besides the new id, what is stored was stored before at the same time and has not expired. */
  ghost predicate KeepsOnlyLive(ttl: int, seen: Seen, id: string, now: int, seen': Seen) {
    && id in seen' && seen'[id] == now
    && forall k :: k in seen' && k != id ==> k in seen && seen'[k] == seen[k] && now - seen[k] < ttl
  }

  /** What has not expired is still stored. */
  ghost predicate KeepsAllLive(ttl: int, seen: Seen, now: int, seen': Seen) {
    forall k :: k in seen && now - seen[k] < ttl ==> k in seen'
  }

  lemma PartOfLive(ttl: int, seen: Seen, id: string, now: int, m: Seen)
    requires Submap(m, Live(seen, ttl, now))
    ensures KeepsOnlyLive(ttl, seen, id, now, m[id := now])
  {}

  /** A full map loses everything that has expired. */
  lemma RoomIsLive(maxSize: int, ttl: int, seen: Seen, id: string, now: int, m: Seen)
    requires MakesRoom(seen, maxSize, ttl, now, m) && |seen| >= maxSize
    ensures KeepsOnlyLive(ttl, seen, id, now, m[id := now])
  {
    var live := Live(seen, ttl, now);
    if |live| >= maxSize {
      var k :| Victim(live, k) && m == live - {k};
      assert Submap(live - {k}, live);
    }
    PartOfLive(ttl, seen, id, now, m);
  }

  /** It loses nothing else when that makes room enough. */
  lemma RoomKeepsLive(maxSize: int, ttl: int, seen: Seen, id: string, now: int, m: Seen)
    requires MakesRoom(seen, maxSize, ttl, now, m) && |Live(seen, ttl, now)| < maxSize
    ensures KeepsAllLive(ttl, seen, now, m[id := now])
  {}

  lemma LiveCounted(seen: Seen, ttl: int, now: int)
    ensures |Live(seen, ttl, now)| == |set k | k in seen && now - seen[k] < ttl|
  {
    assert Live(seen, ttl, now).Keys == set k | k in seen && now - seen[k] < ttl;
  }

  lemma RoomKeeps(maxSize: int, ttl: int, seen: Seen, id: string, now: int, m: Seen)
    requires MakesRoom(seen, maxSize, ttl, now, m)
    ensures |seen| >= maxSize ==> KeepsOnlyLive(ttl, seen, id, now, m[id := now])
    ensures |set k | k in seen && now - seen[k] < ttl| < maxSize ==> KeepsAllLive(ttl, seen, now, m[id := now])
  {
    LiveCounted(seen, ttl, now);
    if |seen| >= maxSize { RoomIsLive(maxSize, ttl, seen, id, now, m); }
    if |Live(seen, ttl, now)| < maxSize { RoomKeepsLive(maxSize, ttl, seen, id, now, m); }
  }

  class InstructionDedup {
    const maxSize: int
    const ttl: int
    var seen: Seen
    ghost var accepted: seq<Acceptance>
    ghost var lastCall: int

    ghost predicate Valid()
      reads this
    {
      Consistent(maxSize, ttl, seen, accepted, lastCall)
    }

    constructor (maxSize: int, ttl: int, ghost start: int)
      ensures Valid() && this.maxSize == maxSize && this.ttl == ttl && lastCall == start
      ensures seen == map[] && accepted == []
    {
      this.maxSize, this.ttl := maxSize, ttl;
      seen, accepted, lastCall := map[], [], start;
    }

    method Check(id: string, now: int) returns (ok: bool)
      requires Valid() && lastCall <= now
      modifies this
      ensures Valid() && lastCall == now
      ensures CheckStep(maxSize, ttl, old(seen), id, now, seen, ok)
      ensures ok <==> !(id in old(seen) && now - old(seen)[id] < ttl)
      ensures !ok ==> seen == old(seen)
      ensures ok && |old(seen)| < maxSize ==> seen == old(seen)[id := now]
      ensures ok && |old(seen)| >= maxSize ==> KeepsOnlyLive(ttl, old(seen), id, now, seen)
      ensures ok && |set k | k in old(seen) && now - old(seen)[k] < ttl| < maxSize ==>
        KeepsAllLive(ttl, old(seen), now, seen)
      ensures accepted == if ok then old(accepted) + [Acceptance(id, now)] else old(accepted)
    {
      ghost var before := lastCall;
      ok := !(id in seen && now - seen[id] < ttl);
      if ok {
        if |seen| >= maxSize { PurgeExpired(now); }
        if |seen| >= maxSize { DropOldest(); }
        ghost var room := seen;
        assert MakesRoom(old(seen), maxSize, ttl, now, room);
        seen := seen[id := now];
        RoomKeeps(maxSize, ttl, old(seen), id, now, room);
        accepted := accepted + [Acceptance(id, now)];
      }
      lastCall := now;
      CheckKeepsConsistent(maxSize, ttl, old(seen), old(accepted), before, id, now, seen, ok);
    }

    /** The first loop: delete every expired entry. */
    method PurgeExpired(now: int)
      modifies this`seen
      ensures seen == Live(old(seen), ttl, now)
      ensures forall k :: k in seen <==> k in old(seen) && now - old(seen)[k] < ttl
      ensures forall k :: k in seen ==> seen[k] == old(seen)[k]
    {
      var left := seen.Keys;
      while left != {}
        invariant left <= seen.Keys
        invariant seen == map k | k in old(seen) && (k in left || now - old(seen)[k] < ttl) :: old(seen)[k]
        decreases left
      {
        var k :| k in left;
        left := left - {k};
        if now - seen[k] >= ttl {
          seen := seen - {k};
        }
      }
    }

    /** The second loop: find what the scan calls the oldest entry and delete it. */
    method DropOldest()
      modifies this`seen
      ensures Evicts(old(seen), seen)
    {
      var left, oldest, oldestTime := seen.Keys, "", 0;
      ghost var order: seq<string> := [];
      while left != {}
        invariant left <= seen.Keys && Visits(order, seen.Keys - left)
        invariant oldest == Scan(seen, order)
        invariant oldest != "" ==> oldest in seen && oldestTime == seen[oldest]
        decreases left
      {
        var k :| k in left;
        var t := seen[k];
        ghost var longer := order + [k];
        assert longer[..|order|] == order;
        if oldest == "" || t < oldestTime {
          oldest, oldestTime := k, t;
        }
        left, order := left - {k}, longer;
      }
      assert seen.Keys - left == seen.Keys;
      assert Victim(seen, oldest);
      seen := seen - {oldest};
    }
  }
}
