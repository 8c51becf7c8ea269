/** The kill switch: one reduce-only order per open position, built from the asset table.
    Arithmetic is exact; numeric strings go through an arbitrary parser. */
module KillSwitch {
  import opened Instructions
  import opened Assets
  import opened JsonText

  datatype Position = Position(coin: string, szi: string)

  datatype CloseOrder = CloseOrder(asset: int, isBuy: bool, price: real, size: real, reduceOnly: bool, tif: string)

  function Abs(x: real): real { if x < 0.0 then -x else x }

  function Pow10(d: nat): (p: int)
    ensures p >= 1
  {
    if d == 0 then 1 else 10 * Pow10(d - 1)
  }

  /** That is a one with d zeros behind it. */
  lemma {:induction false} Pow10IsDecimal(d: nat)
    ensures Digits(Pow10(d)) == "1" + seq(d, _ => '0')
  {
    if d > 0 {
      Pow10IsDecimal(d - 1);
      assert "1" + seq(d, _ => '0') == "1" + seq(d - 1, _ => '0') + "0";
    }
  }

  /** A number in units of its d-th decimal. */
  function Scaled(x: real, d: nat): real { x * Pow10(d) as real }

  function RoundHalfEven(x: real): int {
    var f := x.Floor;
    var rest := x - f as real;
    if rest < 0.5 || (rest == 0.5 && f % 2 == 0) then f else f + 1
  }

  predicate Whole(x: real) { x == x.Floor as real }

  /** What fixed-point formatting with this many decimals keeps of a number; a negative
      count asks for all of it. */
  function FormatFixed(x: real, decimals: int): real {
    if decimals < 0 then x else RoundHalfEven(Scaled(x, decimals)) as real / Pow10(decimals) as real
  }

  /** A string that is not a number counts as zero. */
  function Number(parse: string -> Option<real>, s: string): real {
    match parse(s) case Some(x) => x case None => 0.0
  }

  function Oracle(table: AssetTable, parse: string -> Option<real>, coin: string): real
    reads table
  {
    if coin in table.assetsCtx then Number(parse, table.assetsCtx[coin].oraclePx) else 0.0
  }

  function Decimals(table: AssetTable, coin: string): int
    reads table
  {
    if coin in table.assetsInfo then table.assetsInfo[coin].szDecimals else 4
  }

  /** A position the switch can close: open, of a known asset, with a positive oracle price. */
  predicate Closable(table: AssetTable, parse: string -> Option<real>, p: Position)
    reads table
  {
    Number(parse, p.szi) != 0.0 && p.coin in table.assets && Oracle(table, parse, p.coin) > 0.0
  }

  /** What is left of the position once the order has filled. */
  function Residual(szi: real, order: CloseOrder): real {
    if order.isBuy then szi + order.size else szi - order.size
  }

  /** The size can be written exactly with this many decimals. */
  predicate Representable(x: real, decimals: int) {
    decimals < 0 || Whole(Scaled(x, decimals))
  }

  /** The order closes the position: it can only reduce it, fills at once on a price 5% past
      the oracle on the filling side, has a size written with the asset's decimals (four if
      the asset has no record), and leaves at most half a unit of the last of them, nothing at
      all when the size is representable. */
  ghost predicate Closes(table: AssetTable, parse: string -> Option<real>, p: Position, order: CloseOrder)
    reads table
  {
    && parse(p.szi).Some? && p.coin in table.assets && order.asset == table.assets[p.coin]
    && p.coin in table.assetsCtx && parse(table.assetsCtx[p.coin].oraclePx).Some?
    && order.reduceOnly && order.tif == "Ioc"
    && var szi, oracle := parse(p.szi).value, parse(table.assetsCtx[p.coin].oraclePx).value;
       var d := if p.coin in table.assetsInfo then table.assetsInfo[p.coin].szDecimals else 4;
       && (szi < 0.0 ==> order.isBuy && order.price - oracle == 0.05 * oracle)
       && (szi > 0.0 ==> !order.isBuy && oracle - order.price == 0.05 * oracle)
       && (d >= 0 ==> Whole(Scaled(order.size, d)) && Scaled(Abs(Residual(szi, order)), d) <= 0.5)
       && (Representable(szi, d) ==> Residual(szi, order) == 0.0)
  }

  /** What makes a position one that can be closed: a size that is a number other than zero, an
      asset in the table, and an oracle price that is a positive number. */
  lemma ClosableExactly(table: AssetTable, parse: string -> Option<real>, p: Position)
    ensures Closable(table, parse, p) <==>
      && parse(p.szi).Some? && parse(p.szi).value != 0.0 && p.coin in table.assets
      && p.coin in table.assetsCtx
      && parse(table.assetsCtx[p.coin].oraclePx).Some? && parse(table.assetsCtx[p.coin].oraclePx).value > 0.0
  {}

  lemma {:induction false} RoundingIsNearest(x: real)
    ensures Abs(x - RoundHalfEven(x) as real) <= 0.5
    ensures Whole(x) ==> RoundHalfEven(x) as real == x
    ensures Abs(x - RoundHalfEven(x) as real) == 0.5 ==> RoundHalfEven(x) % 2 == 0
  {}

  lemma QuotientTimes(m: real, scale: real)
    requires scale > 0.0
    ensures m / scale * scale == m
    ensures m * scale / scale == m
  {}

  lemma DifferenceTimes(x: real, y: real, scale: real)
    requires scale > 0.0
    ensures (x - y) * scale == x * scale - y * scale
    ensures Abs(x - y) * scale == Abs(x * scale - y * scale)
  {
    if x < y { assert (x - y) * scale < 0.0; } else { assert (x - y) * scale >= 0.0; }
  }

  lemma {:induction false} ScaledDifference(x: real, y: real, d: nat)
    ensures Scaled(Abs(x - y), d) == Abs(Scaled(x, d) - Scaled(y, d))
    ensures Scaled(-x, d) == -Scaled(x, d)
  {
    DifferenceTimes(x, y, Pow10(d) as real);
    DifferenceTimes(0.0, x, Pow10(d) as real);
  }

  lemma {:induction false} ScaledFormat(x: real, d: nat)
    ensures Scaled(FormatFixed(x, d), d) == RoundHalfEven(Scaled(x, d)) as real
    ensures RoundHalfEven(Scaled(x, d)) as real == Scaled(x, d) ==> FormatFixed(x, d) == x
  {
    QuotientTimes(RoundHalfEven(Scaled(x, d)) as real, Pow10(d) as real);
    QuotientTimes(x, Pow10(d) as real);
  }

  lemma {:induction false} FormatIsNearest(x: real, d: int)
    ensures d >= 0 ==> Scaled(Abs(x - FormatFixed(x, d)), d) <= 0.5
    ensures Representable(x, d) ==> FormatFixed(x, d) == x
    ensures d >= 0 ==> Whole(Scaled(FormatFixed(x, d), d))
    ensures d >= 0 && Scaled(Abs(x - FormatFixed(x, d)), d) == 0.5 ==> Scaled(FormatFixed(x, d), d).Floor % 2 == 0
  {
    if d >= 0 {
      RoundingIsNearest(Scaled(x, d));
      ScaledFormat(x, d);
      ScaledDifference(x, FormatFixed(x, d), d);
    }
  }

  lemma WholeNegated(x: real)
    requires Whole(x)
    ensures Whole(-x)
  {
    var k := -x.Floor;
    assert -x == k as real && (k as real).Floor == k;
  }

  lemma {:induction false} RepresentableNegated(x: real, d: int)
    requires Representable(x, d)
    ensures Representable(-x, d)
  {
    if d >= 0 {
      ScaledDifference(x, x, d);
      WholeNegated(Scaled(x, d));
    }
  }

  lemma {:induction false} OrderCloses(table: AssetTable, parse: string -> Option<real>, p: Position, order: CloseOrder)
    requires Closable(table, parse, p)
    requires var szi, oracle := Number(parse, p.szi), Oracle(table, parse, p.coin);
      order == CloseOrder(table.assets[p.coin], szi < 0.0, if szi < 0.0 then oracle * 1.05 else oracle * 0.95,
                          FormatFixed(Abs(szi), Decimals(table, p.coin)), true, "Ioc")
    ensures Closes(table, parse, p, order)
  {
    var szi, d := Number(parse, p.szi), Decimals(table, p.coin);
    SizeCloses(szi, d, order);
  }

  lemma {:induction false} SizeCloses(szi: real, d: int, order: CloseOrder)
    requires order.isBuy == (szi < 0.0) && order.size == FormatFixed(Abs(szi), d)
    ensures d >= 0 ==> Scaled(Abs(Residual(szi, order)), d) <= 0.5
    ensures d >= 0 ==> Whole(Scaled(order.size, d))
    ensures Representable(szi, d) ==> Residual(szi, order) == 0.0
  {
    FormatIsNearest(Abs(szi), d);
    assert Abs(Residual(szi, order)) == Abs(Abs(szi) - order.size);
    if Representable(szi, d) { RepresentableNegated(szi, d); }
  }

  /** Indices below n, each greater than the one before. */
  ghost predicate Increasing(ks: seq<nat>, n: nat) {
    (forall k :: 0 <= k < |ks| ==> ks[k] < n) && forall k, l :: 0 <= k < l < |ks| ==> ks[k] < ks[l]
  }

  lemma {:induction false} IndicesCounted(ks: seq<nat>, n: nat, all: set<nat>)
    requires Increasing(ks, n) && forall i: nat :: i in all <==> i in ks
    ensures |ks| == |all|
  {
    if ks == [] {
      assert all == {};
    } else {
      var last := ks[|ks| - 1];
      assert last in all && ks == ks[..|ks| - 1] + [last];
      IndicesCounted(ks[..|ks| - 1], n, all - {last});
    }
  }

  /** The orders so far are those of the first n positions that can be closed, in order. */
  ghost predicate OrdersFor(table: AssetTable, parse: string -> Option<real>, positions: seq<Position>, n: nat,
                            origin: seq<nat>, orders: seq<CloseOrder>)
    reads table
  {
    && n <= |positions| && |origin| == |orders| && Increasing(origin, n)
    && (forall k :: 0 <= k < |orders| ==> Closes(table, parse, positions[origin[k]], orders[k]))
    && forall j: nat :: j in origin <==> j < n && Closable(table, parse, positions[j])
  }

  lemma SkipOne(table: AssetTable, parse: string -> Option<real>, positions: seq<Position>, n: nat, origin: seq<nat>,
                orders: seq<CloseOrder>)
    requires OrdersFor(table, parse, positions, n, origin, orders) && n < |positions|
    requires !Closable(table, parse, positions[n])
    ensures OrdersFor(table, parse, positions, n + 1, origin, orders)
  {}

  lemma OrderOne(table: AssetTable, parse: string -> Option<real>, positions: seq<Position>, n: nat, origin: seq<nat>,
                 orders: seq<CloseOrder>, order: CloseOrder)
    requires OrdersFor(table, parse, positions, n, origin, orders) && n < |positions|
    requires Closable(table, parse, positions[n]) && Closes(table, parse, positions[n], order)
    ensures OrdersFor(table, parse, positions, n + 1, origin + [n], orders + [order])
  {}

  lemma EachHasOrder(table: AssetTable, parse: string -> Option<real>, positions: seq<Position>, origin: seq<nat>,
                     orders: seq<CloseOrder>, i: nat)
    requires OrdersFor(table, parse, positions, |positions|, origin, orders)
    requires i < |positions| && Closable(table, parse, positions[i])
    ensures exists k :: 0 <= k < |orders| && Closes(table, parse, positions[i], orders[k])
  {
    assert i in origin;
    var k :| 0 <= k < |origin| && origin[k] == i;
    assert Closes(table, parse, positions[i], orders[k]);
  }

  lemma OrdersCounted(table: AssetTable, parse: string -> Option<real>, positions: seq<Position>, origin: seq<nat>,
                      orders: seq<CloseOrder>)
    requires OrdersFor(table, parse, positions, |positions|, origin, orders)
    ensures |orders| == |set i: nat | i < |positions| && Closable(table, parse, positions[i])|
  {
    IndicesCounted(origin, |positions|, set i: nat | i < |positions| && Closable(table, parse, positions[i]));
  }

  /** Every position with a size other than zero, a known asset and a positive oracle price has
      an order that closes it, and no other one has: there are as many orders as such
      positions, in their order (origin says which is whose). */
  method CloseAllPositions(table: AssetTable, parse: string -> Option<real>, positions: seq<Position>)
    returns (orders: seq<CloseOrder>, ghost origin: seq<nat>)
    ensures forall i :: 0 <= i < |positions| ==>
      var p := positions[i];
      && parse(p.szi).Some? && parse(p.szi).value != 0.0 && p.coin in table.assets
      && p.coin in table.assetsCtx
      && parse(table.assetsCtx[p.coin].oraclePx).Some? && parse(table.assetsCtx[p.coin].oraclePx).value > 0.0
      ==> exists k :: 0 <= k < |orders| && Closes(table, parse, p, orders[k])
    ensures |orders| == |set i: nat | i < |positions| && Closable(table, parse, positions[i])|
    ensures OrdersFor(table, parse, positions, |positions|, origin, orders)
  {
    orders, origin := [], [];
    for i := 0 to |positions|
      invariant OrdersFor(table, parse, positions, i, origin, orders)
    {
      var p := positions[i];
      if !Closable(table, parse, p) { SkipOne(table, parse, positions, i, origin, orders); }
      var szi := Number(parse, p.szi);
      if szi == 0.0 { continue; }
      var known := table.GetAssetID(p.coin);
      if known.None? { continue; }
      var isBuy := szi < 0.0;
      var size := FormatFixed(Abs(szi), Decimals(table, p.coin));
      var oracle := Oracle(table, parse, p.coin);
      if oracle <= 0.0 { continue; }
      var price := if isBuy then oracle * 1.05 else oracle * 0.95;
      var order := CloseOrder(known.value, isBuy, price, size, true, "Ioc");
      OrderCloses(table, parse, p, order);
      OrderOne(table, parse, positions, i, origin, orders, order);
      orders, origin := orders + [order], origin + [i];
    }
    OrdersCounted(table, parse, positions, origin, orders);
    forall i: nat | i < |positions| && Closable(table, parse, positions[i])
      ensures exists k :: 0 <= k < |orders| && Closes(table, parse, positions[i], orders[k])
    {
      EachHasOrder(table, parse, positions, origin, orders, i);
    }
    forall i: nat | i < |positions| { ClosableExactly(table, parse, positions[i]); }
  }
}
