/**
  What the market keeps: conservation, a maximal price-ordered match of any book, and the solvency of traders
  that are not aggressive over whole runs.
*/
module MarketTheorems {
  import opened Wrappers
  import opened Market

  // ---------------------------------------------------------------- sums over the traders

  function Sum(ids: seq<TraderId>, traders: map<TraderId, Trader>, f: Trader -> real): real {
    if ids == [] then 0.0
    else Sum(ids[..|ids| - 1], traders, f) + (var t := ids[|ids| - 1]; if t in traders then f(traders[t]) else 0.0)
  }

  lemma {:induction false} SumSkips(ids: seq<TraderId>, ts: map<TraderId, Trader>, x: TraderId, t: Trader, f: Trader -> real)
    requires x !in ids
    ensures Sum(ids, ts[x := t], f) == Sum(ids, ts, f)
  {
    if ids != [] {
      assert ids[|ids| - 1] in ids;
      SumSkips(ids[..|ids| - 1], ts, x, t, f);
    }
  }

  lemma {:induction false} SumUpdate(ids: seq<TraderId>, ts: map<TraderId, Trader>, x: TraderId, t: Trader, f: Trader -> real)
    requires Distinct(ids) && x in ids && x in ts
    ensures Sum(ids, ts[x := t], f) == Sum(ids, ts, f) + f(t) - f(ts[x])
  {
    var front, last := ids[..|ids| - 1], ids[|ids| - 1];
    assert ids == front + [last];
    if last == x {
      assert x !in front;
      SumSkips(front, ts, x, t, f);
    } else {
      SumUpdate(front, ts, x, t, f);
    }
  }

  /** Two updates whose effects on f cancel leave the sum alone. */
  lemma SumTransfer(st: State, x: TraderId, tx: Trader, y: TraderId, ty: Trader, f: Trader -> real)
    requires Valid(st) && x in st.traders && y in st.traders
    requires f(tx) - f(st.traders[x]) == f(st.traders[x := tx][y]) - f(ty)
    ensures Sum(st.traderIds, st.traders[x := tx][y := ty], f) == Sum(st.traderIds, st.traders, f)
  {
    SumUpdate(st.traderIds, st.traders, x, tx, f);
    SumUpdate(st.traderIds, st.traders[x := tx], y, ty, f);
  }

  function CashOf(t: Trader): real { t.cash }

  function UnitsOf(a: AssetId): Trader -> real {
    (t: Trader) => Holding(t, a) as real
  }

  function WorthOf(ids: seq<AssetId>, assets: map<AssetId, Asset>): Trader -> real {
    (t: Trader) => t.cash + PortfolioWorth(ids, assets, t.portfolio)
  }

  function TotalCash(st: State): real { Sum(st.traderIds, st.traders, CashOf) }

  function TotalUnits(st: State, a: AssetId): real { Sum(st.traderIds, st.traders, UnitsOf(a)) }

  function TotalWorth(st: State): real { Sum(st.traderIds, st.traders, WorthOf(st.assetIds, st.assets)) }

  // ---------------------------------------------------------------- conservation

  /** Receiving q units of a changes the worth by their price less their cost. */
  lemma ReceiveWorth(ids: seq<AssetId>, assets: map<AssetId, Asset>, t: Trader, a: AssetId, q: int, cost: real)
    requires Distinct(ids) && a in ids && a in assets
    ensures WorthOf(ids, assets)(Receive(t, a, q, cost))
         == WorthOf(ids, assets)(t) - cost + q as real * assets[a].currentPrice
  {
    hide PortfolioWorth;
    var h := Holding(t, a);
    WorthChange(ids, assets, t.portfolio, a, h + q);
    Distributes(h, q, assets[a].currentPrice);
  }

  lemma Distributes(h: int, q: int, price: real)
    ensures (h + q) as real * price == h as real * price + q as real * price
  {
  }

  lemma SettleTraders(st: State, f: Fill)
    requires Settles(st, f)
    ensures var x, y, a, q: int := f.buy.trader, f.sell.trader, f.buy.asset, FillQuantity(f);
      var bought := st.traders[x := Receive(st.traders[x], a, q, FillCost(f))];
      Settle(st, f).traders == bought[y := Receive(bought[y], a, -q, -FillCost(f))]
  {
  }

  /** A settlement keeps the sum of f when what the buyer and the seller gain in f cancels. */
  lemma SettleSum(st: State, f: Fill, g: Trader -> real, gain: real)
    requires Valid(st) && Settles(st, f)
    requires forall t :: g(Receive(t, f.buy.asset, FillQuantity(f), FillCost(f))) == g(t) + gain
    requires forall t :: g(Receive(t, f.buy.asset, -(FillQuantity(f) as int), -FillCost(f))) == g(t) - gain
    ensures Sum(st.traderIds, Settle(st, f).traders, g) == Sum(st.traderIds, st.traders, g)
  {
    var x, y, b := f.buy.trader, f.sell.trader, f.buy.asset;
    var q: int, cost := FillQuantity(f), FillCost(f);
    var tx := Receive(st.traders[x], b, q, cost);
    var u := st.traders[x := tx][y];
    var ty := Receive(u, b, -q, -cost);
    SettleTraders(st, f);
    hide Receive, FillCost, FillQuantity, Sum, Settle;
    assert g(tx) == g(st.traders[x]) + gain && g(ty) == g(u) - gain;
    SumTransfer(st, x, tx, y, ty, g);
  }

  lemma SettleConservesWorth(st: State, f: Fill)
    requires Valid(st)
    ensures TotalWorth(Settle(st, f)) == TotalWorth(st)
  {
    if Settles(st, f) {
      var a, q: int, cost := f.buy.asset, FillQuantity(f), FillCost(f);
      var worth := WorthOf(st.assetIds, st.assets);
      forall t ensures worth(Receive(t, a, q, cost)) == worth(t) + (q as real * st.assets[a].currentPrice - cost) {
        ReceiveWorth(st.assetIds, st.assets, t, a, q, cost);
      }
      forall t ensures worth(Receive(t, a, -q, -cost)) == worth(t) - (q as real * st.assets[a].currentPrice - cost) {
        ReceiveWorth(st.assetIds, st.assets, t, a, -q, -cost);
      }
      SettleSum(st, f, worth, q as real * st.assets[a].currentPrice - cost);
    }
  }

  /** One settlement conserves cash, units and worth. */
  lemma SettleConserves(st: State, f: Fill, a: AssetId)
    requires Valid(st)
    ensures TotalCash(Settle(st, f)) == TotalCash(st)
    ensures TotalUnits(Settle(st, f), a) == TotalUnits(st, a)
    ensures TotalWorth(Settle(st, f)) == TotalWorth(st)
  {
    SettleConservesWorth(st, f);
    if Settles(st, f) {
      SettleSum(st, f, CashOf, -FillCost(f));
      SettleSum(st, f, UnitsOf(a), if f.buy.asset == a then FillQuantity(f) as real else 0.0);
    }
  }

  lemma {:induction false} SettleAllConserves(st: State, fills: seq<Fill>, a: AssetId)
    requires Valid(st)
    ensures Valid(SettleAll(st, fills))
    ensures TotalCash(SettleAll(st, fills)) == TotalCash(st)
    ensures TotalUnits(SettleAll(st, fills), a) == TotalUnits(st, a)
    ensures TotalWorth(SettleAll(st, fills)) == TotalWorth(st)
    decreases fills
  {
    if fills != [] {
      SettleKeeps(st, fills[0]);
      SettleConserves(st, fills[0], a);
      SettleAllConserves(Settle(st, fills[0]), fills[1..], a);
    }
  }

  /** Processing the book conserves total cash, the units of every asset and, at fixed prices, total worth. */
  lemma ProcessConserves(st: State, a: AssetId)
    requires Valid(st)
    ensures Valid(Process(st))
    ensures TotalCash(Process(st)) == TotalCash(st)
    ensures TotalUnits(Process(st), a) == TotalUnits(st, a)
    ensures TotalWorth(Process(st)) == TotalWorth(st)
  {
    SettleAllKeeps(st, MatchBook(st.orderBook).fills);
    SettleAllConserves(st, MatchBook(st.orderBook).fills, a);
  }

  lemma {:induction false} SumAgree(ids: seq<TraderId>, ts: map<TraderId, Trader>, us: map<TraderId, Trader>, f: Trader -> real)
    requires ts.Keys == us.Keys && forall t :: t in ts ==> f(ts[t]) == f(us[t])
    ensures Sum(ids, ts, f) == Sum(ids, us, f)
  {
    if ids != [] {
      SumAgree(ids[..|ids| - 1], ts, us, f);
    }
  }

  lemma ProcessKeeps(st: State)
    ensures Process(st) == st.(traders := Process(st).traders, trades := Process(st).trades, orderBook := [])
    ensures Process(st).traders.Keys == st.traders.Keys
    ensures forall t :: t in st.traders ==> Process(st).traders[t].strategy == st.traders[t].strategy
  {
    SettleAllKeeps(st, MatchBook(st.orderBook).fills);
    SettleAllStrategy(st, MatchBook(st.orderBook).fills);
  }

  lemma PlacedKeeps(st: State, paused: bool, d: Draws)
    requires Valid(st) && GoodDraws(d, st)
    ensures var p := Placed(st, paused, d);
      Valid(p) && SameKeys(p, st) && p.traders == st.traders
  {
  }

  lemma ValuedKeeps(st: State, a: AssetId)
    requires Valid(st)
    ensures Valid(Valued(st)) && SameKeys(Valued(st), st)
    ensures TotalCash(Valued(st)) == TotalCash(st) && TotalUnits(Valued(st), a) == TotalUnits(st, a)
    ensures forall t :: t in st.traders ==> Valued(st).traders[t].strategy == st.traders[t].strategy
  {
    hide Worth;
    SumAgree(st.traderIds, st.traders, Valued(st).traders, CashOf);
    SumAgree(st.traderIds, st.traders, Valued(st).traders, UnitsOf(a));
  }

  /** A whole day conserves total cash and the units of every asset; prices stay positive. */
  lemma DayConserves(st: State, paused: bool, d: Draws, a: AssetId)
    requires Valid(st) && GoodDraws(d, st)
    ensures Valid(NextDay(st, paused, d))
    ensures TotalCash(NextDay(st, paused, d)) == TotalCash(st)
    ensures TotalUnits(NextDay(st, paused, d), a) == TotalUnits(st, a)
  {
    PlacedKeeps(st, paused, d);
    hide Placed, Process, Valued, Sum;
    ProcessConserves(Placed(st, paused, d), a);
    ValuedKeeps(Process(Placed(st, paused, d)), a);
  }

  /** Each day of a run brings its draws and whether the environment is paused. */
  datatype Day = Day(paused: bool, draws: Draws)

  function Run(st: State, days: seq<Day>): (end: State)
    requires Valid(st) && GoodDays(st, days)
    ensures Valid(end) && SameKeys(end, st)
  {
    if days == [] then st
    else
      var before := Run(st, days[..|days| - 1]);
      var day := days[|days| - 1];
      DayGood(before, st, day);
      NextDay(before, day.paused, day.draws)
  }

  ghost predicate GoodDays(st: State, days: seq<Day>) {
    forall k :: 0 <= k < |days| ==> GoodDraws(days[k].draws, st)
  }

  lemma DayGood(st: State, start: State, day: Day)
    requires Valid(st) && SameKeys(st, start) && GoodDraws(day.draws, start)
    ensures GoodDraws(day.draws, st)
    ensures Valid(NextDay(st, day.paused, day.draws)) && SameKeys(NextDay(st, day.paused, day.draws), start)
  {
    DayConserves(st, day.paused, day.draws, 0);
    DayKeeps(st, day.paused, day.draws);
  }

  predicate SameKeys(st: State, st': State) {
    && st.assetIds == st'.assetIds && st.assets.Keys == st'.assets.Keys
    && st.traderIds == st'.traderIds && st.traders.Keys == st'.traders.Keys
  }

  lemma DayKeeps(st: State, paused: bool, d: Draws)
    requires Valid(st) && GoodDraws(d, st)
    ensures SameKeys(NextDay(st, paused, d), st)
    ensures NextDay(st, paused, d).orderBook == []
    ensures forall t :: t in st.traders ==> NextDay(st, paused, d).traders[t].strategy == st.traders[t].strategy
  {
    PlacedKeeps(st, paused, d);
    ProcessKeeps(Placed(st, paused, d));
    hide Placed, Process, Worth;
  }

  lemma {:induction false} SettleAllStrategy(st: State, fills: seq<Fill>)
    ensures SettleAll(st, fills).traders.Keys == st.traders.Keys
    ensures forall t :: t in st.traders ==> SettleAll(st, fills).traders[t].strategy == st.traders[t].strategy
    decreases fills
  {
    if fills != [] {
      SettleAllStrategy(Settle(st, fills[0]), fills[1..]);
    }
  }

  /** Over a whole run total cash and the units of every asset never change. */
  lemma {:induction false} RunConserves(st: State, days: seq<Day>, a: AssetId)
    requires Valid(st) && GoodDays(st, days)
    ensures TotalCash(Run(st, days)) == TotalCash(st)
    ensures TotalUnits(Run(st, days), a) == TotalUnits(st, a)
  {
    if days != [] {
      RunConserves(st, days[..|days| - 1], a);
      var day := days[|days| - 1];
      DayGood(Run(st, days[..|days| - 1]), st, day);
      DayConserves(Run(st, days[..|days| - 1]), day.paused, day.draws, a);
    }
  }

  // ---------------------------------------------------------------- the match

  /** How often a trader's orders occur in a list. */
  function CountOf(orders: seq<Order>, t: TraderId): nat {
    if orders == [] then 0 else (if orders[0].trader == t then 1 else 0) + CountOf(orders[1..], t)
  }

  function FillsOf(fills: seq<Fill>, t: TraderId): nat {
    if fills == [] then 0 else FillOf(fills[0], t) + FillsOf(fills[1..], t)
  }

  function FillOf(f: Fill, t: TraderId): nat {
    (if f.buy.trader == t then 1 else 0) + (if f.sell.trader == t then 1 else 0)
  }

  lemma {:induction false} PlaceKeeps(o: Order, sorted: seq<Order>, side: Side)
    ensures multiset(Place(o, sorted, side)) == multiset{o} + multiset(sorted)
  {
    if sorted == [] || Before(o, sorted[0], side) {
    } else {
      PlaceKeeps(o, sorted[1..], side);
      assert sorted == [sorted[0]] + sorted[1..];
    }
  }

  lemma {:induction false} SortedKeeps(orders: seq<Order>, side: Side)
    ensures multiset(Sorted(orders, side)) == multiset(orders)
  {
    if orders != [] {
      SortedKeeps(orders[1..], side);
      PlaceKeeps(orders[0], Sorted(orders[1..], side), side);
      assert orders == [orders[0]] + orders[1..];
    }
  }

  lemma {:induction false} PlaceSorts(o: Order, sorted: seq<Order>, side: Side)
    requires IsSorted(sorted, side)
    ensures IsSorted(Place(o, sorted, side), side)
  {
    if sorted == [] || Before(o, sorted[0], side) {
    } else {
      PlaceSorts(o, sorted[1..], side);
      PlaceKeeps(o, sorted[1..], side);
      var rest := Place(o, sorted[1..], side);
      forall j | 0 <= j < |rest| ensures Before(sorted[0], rest[j], side) {
        assert rest[j] in multiset(rest);
        assert rest[j] == o || rest[j] in sorted[1..];
      }
    }
  }

  lemma {:induction false} SortedSorts(orders: seq<Order>, side: Side)
    ensures IsSorted(Sorted(orders, side), side)
  {
    if orders != [] {
      SortedSorts(orders[1..], side);
      PlaceSorts(orders[0], Sorted(orders[1..], side), side);
    }
  }

  /** The orders at one price, in their order of arrival. */
  function AtPrice(orders: seq<Order>, price: real): seq<Order> {
    if orders == [] then []
    else (if orders[0].price == price then [orders[0]] else []) + AtPrice(orders[1..], price)
  }

  lemma AtPriceFirst(o: Order, orders: seq<Order>, price: real)
    ensures AtPrice([o] + orders, price) == if o.price == price then [o] + AtPrice(orders, price) else AtPrice(orders, price)
  {
    assert ([o] + orders)[1..] == orders;
  }

  lemma {:induction false} PlaceStable(o: Order, sorted: seq<Order>, side: Side, price: real)
    ensures AtPrice(Place(o, sorted, side), price)
         == if o.price == price then [o] + AtPrice(sorted, price) else AtPrice(sorted, price)
  {
    hide AtPrice;
    if sorted == [] || Before(o, sorted[0], side) {
      AtPriceFirst(o, sorted, price);
    } else {
      PlaceStable(o, sorted[1..], side, price);
      AtPriceFirst(sorted[0], Place(o, sorted[1..], side), price);
      AtPriceFirst(sorted[0], sorted[1..], price);
      assert sorted == [sorted[0]] + sorted[1..];
      assert o.price != sorted[0].price;
    }
  }

  /** Sorting keeps orders at equal prices in arrival order: price, then time. */
  lemma {:induction false} SortedStable(orders: seq<Order>, side: Side, price: real)
    ensures AtPrice(Sorted(orders, side), price) == AtPrice(orders, price)
  {
    if orders != [] {
      SortedStable(orders[1..], side, price);
      PlaceStable(orders[0], Sorted(orders[1..], side), side, price);
    }
  }

  function BuysOf(fills: seq<Fill>): multiset<Order> {
    if fills == [] then multiset{} else multiset{fills[0].buy} + BuysOf(fills[1..])
  }

  function SellsOf(fills: seq<Fill>): multiset<Order> {
    if fills == [] then multiset{} else multiset{fills[0].sell} + SellsOf(fills[1..])
  }

  lemma SpliceKeeps(orders: seq<Order>, i: nat)
    requires i < |orders|
    ensures multiset(orders) == multiset{orders[i]} + multiset(Splice(orders, i))
  {
    assert orders == orders[..i] + [orders[i]] + orders[i + 1..];
  }

  lemma FirstFill(f: Fill, fills: seq<Fill>)
    ensures BuysOf([f] + fills) == multiset{f.buy} + BuysOf(fills)
    ensures SellsOf([f] + fills) == multiset{f.sell} + SellsOf(fills)
  {
    assert ([f] + fills)[1..] == fills;
  }

  /** Every order given to the match comes out exactly once, in one fill or as a leftover. */
  lemma {:induction false} MatchSplits(buys: seq<Order>, sells: seq<Order>)
    ensures BuysOf(Match(buys, sells).fills) + multiset(Match(buys, sells).buys) == multiset(buys)
    ensures SellsOf(Match(buys, sells).fills) + multiset(Match(buys, sells).sells) == multiset(sells)
    decreases buys
  {
    if buys != [] {
      var i := FindMatch(buys[0], sells);
      assert buys == [buys[0]] + buys[1..];
      if i < |sells| {
        MatchSplits(buys[1..], Splice(sells, i));
        SpliceKeeps(sells, i);
        FirstFill(Fill(buys[0], sells[i]), Match(buys[1..], Splice(sells, i)).fills);
      } else {
        MatchSplits(buys[1..], sells);
      }
    }
  }

  /** Every fill joins a compatible pair, and no leftover buy is compatible with a leftover sell. */
  lemma {:induction false} MatchMaximal(buys: seq<Order>, sells: seq<Order>)
    ensures forall f :: f in Match(buys, sells).fills ==> f.buy in buys && f.sell in sells && Compatible(f.buy, f.sell)
    ensures forall s :: s in Match(buys, sells).sells ==> s in sells
    ensures forall b, s :: b in Match(buys, sells).buys && s in Match(buys, sells).sells ==> !Compatible(b, s)
    decreases buys
  {
    if buys != [] {
      var i := FindMatch(buys[0], sells);
      if i < |sells| {
        MatchMaximal(buys[1..], Splice(sells, i));
      } else {
        MatchMaximal(buys[1..], sells);
      }
    }
  }

  /** A buy left over would not take the sell of any fill whose buy bid less: higher bids are served first. */
  lemma {:induction false} MatchByPrice(buys: seq<Order>, sells: seq<Order>)
    requires IsSorted(buys, Buy)
    ensures forall b, f :: b in Match(buys, sells).buys && f in Match(buys, sells).fills && f.buy.price < b.price
              ==> !Compatible(b, f.sell)
    decreases buys
  {
    if buys != [] {
      var i := FindMatch(buys[0], sells);
      if i < |sells| {
        MatchByPrice(buys[1..], Splice(sells, i));
        BuysFrom(buys[1..], Splice(sells, i));
      } else {
        MatchByPrice(buys[1..], sells);
        MatchMaximal(buys[1..], sells);
      }
    }
  }

  lemma {:induction false} BuysFrom(buys: seq<Order>, sells: seq<Order>)
    ensures forall b :: b in Match(buys, sells).buys ==> b in buys
    decreases buys
  {
    if buys != [] {
      var i := FindMatch(buys[0], sells);
      BuysFrom(buys[1..], if i < |sells| then Splice(sells, i) else sells);
    }
  }

  lemma SpliceSorted(sells: seq<Order>, i: nat)
    requires i < |sells| && IsSorted(sells, Sell)
    ensures IsSorted(Splice(sells, i), Sell)
  {
  }

  /** Every fill takes the cheapest compatible sell: a leftover sell its buyer could take asks no less. */
  lemma {:induction false} MatchBestPrice(buys: seq<Order>, sells: seq<Order>)
    requires IsSorted(sells, Sell)
    ensures forall f, s :: f in Match(buys, sells).fills && s in Match(buys, sells).sells && Compatible(f.buy, s)
              ==> f.sell.price <= s.price
    decreases buys
  {
    if buys != [] {
      var i := FindMatch(buys[0], sells);
      if i < |sells| {
        SpliceSorted(sells, i);
        MatchBestPrice(buys[1..], Splice(sells, i));
        MatchMaximal(buys[1..], Splice(sells, i));
        forall s | s in Match(buys[1..], Splice(sells, i)).sells && Compatible(buys[0], s)
          ensures sells[i].price <= s.price
        {
          var j :| 0 <= j < |Splice(sells, i)| && Splice(sells, i)[j] == s;
        }
      } else {
        MatchBestPrice(buys[1..], sells);
      }
    }
  }

  lemma {:induction false} OnSideOnly(book: seq<Order>, side: Side)
    ensures forall o :: o in OnSide(book, side) <==> o in book && o.side == side
  {
    if book != [] {
      OnSideOnly(book[1..], side);
      assert book == [book[0]] + book[1..];
    }
  }

  /**
    What the match of a whole book guarantees: every fill joins a buy and a sell of the book by
    distinct traders at a price between ask and bid; no leftover pair is compatible; a higher bid
    is never passed over for a lower one; and no leftover sell undercuts a fill's.
  */
  lemma BookMatched(book: seq<Order>)
    ensures var m := MatchBook(book);
      && (forall f :: f in m.fills ==>
            && f.buy in book && f.buy.side == Buy && f.sell in book && f.sell.side == Sell
            && Compatible(f.buy, f.sell) && f.sell.price <= FillPrice(f) <= f.buy.price)
      && (forall b, s :: b in m.buys && s in m.sells ==> !Compatible(b, s))
      && (forall b, f :: b in m.buys && f in m.fills && f.buy.price < b.price ==> !Compatible(b, f.sell))
      && (forall f, s :: f in m.fills && s in m.sells && Compatible(f.buy, s) ==> f.sell.price <= s.price)
  {
    var buys, sells := OnSide(book, Buy), OnSide(book, Sell);
    var sortedBuys, sortedSells := Sorted(buys, Buy), Sorted(sells, Sell);
    OnSideOnly(book, Buy);
    OnSideOnly(book, Sell);
    SameMembers(buys, Buy);
    SameMembers(sells, Sell);
    SortedSorts(buys, Buy);
    SortedSorts(sells, Sell);
    hide Match, Sorted, OnSide;
    MatchMaximal(sortedBuys, sortedSells);
    MatchByPrice(sortedBuys, sortedSells);
    MatchBestPrice(sortedBuys, sortedSells);
  }

  lemma SameMembers(orders: seq<Order>, side: Side)
    ensures forall o :: o in Sorted(orders, side) <==> o in orders
  {
    SortedKeeps(orders, side);
    forall o ensures o in Sorted(orders, side) <==> o in orders {
      assert o in multiset(Sorted(orders, side)) <==> o in multiset(orders);
    }
  }

  // ---------------------------------------------------------------- solvency

  predicate Solvent(t: Trader) {
    t.cash >= 0.0 && forall a :: a in t.portfolio ==> t.portfolio[a] >= 0
  }

  /** The trader can honour the order in full at its own price. */
  predicate Covers(t: Trader, o: Order) {
    if o.side.Buy? then o.price * o.quantity as real <= t.cash else o.quantity <= Holding(t, o.asset)
  }

  lemma MulMonotone(q: real, q': real, p: real, p': real)
    requires 0.0 <= q <= q' && 0.0 <= p <= p'
    ensures 0.0 <= q * p <= p' * q'
  {
    assert q * p <= q * p' && q * p' <= q' * p';
  }

  /** No fill costs more than the buy order was checked for. */
  lemma FillWithinBid(f: Fill)
    requires Compatible(f.buy, f.sell) && f.sell.price >= 0.0
    ensures 0.0 <= FillCost(f) <= f.buy.price * f.buy.quantity as real
  {
    MulMonotone(FillQuantity(f) as real, f.buy.quantity as real, FillPrice(f), f.buy.price);
  }

  /** Conservative and random traders always cover the order they place. */
  lemma DecideCovers(id: TraderId, t: Trader, a: AssetId, asset: Asset, draw: Draw)
    requires t.strategy != Aggressive && Decide(id, t, a, asset, draw).Some?
    ensures Covers(t, Decide(id, t, a, asset, draw).value)
  {
  }

  lemma {:induction false} OrdersOnce(ids: seq<TraderId>, st: State, d: Draws, t: TraderId)
    requires Valid(st) && Distinct(ids)
    requires forall x :: x in ids ==> x in st.traders && x in d.choices && GoodDraw(d.choices[x], st)
    ensures CountOf(Orders(ids, st, d), t) <= (if t in ids then 1 else 0)
    ensures forall o :: o in Orders(ids, st, d) ==>
      o.price > 0.0 && o.trader in ids && OrderOf(o.trader, st, d.choices[o.trader]) == Some(o)
  {
    hide OrderOf, CountOf;
    if ids == [] {
      CountNone(t);
    } else {
      var front, last := ids[..|ids| - 1], ids[|ids| - 1];
      assert ids == front + [last];
      OrdersOnce(front, st, d, t);
      if OrderOf(last, st, d.choices[last]).Some? {
        OrderPositive(last, st, d.choices[last]);
        CountLast(Orders(front, st, d), OrderOf(last, st, d.choices[last]).value, t);
      }
    }
  }

  lemma OrderPositive(id: TraderId, st: State, draw: Draw)
    requires Valid(st) && id in st.traders && GoodDraw(draw, st) && OrderOf(id, st, draw).Some?
    ensures OrderOf(id, st, draw).value.price > 0.0 && OrderOf(id, st, draw).value.trader == id
  {
    assert st.assetIds[draw.asset] in st.assetIds;
  }

  lemma CountNone(t: TraderId)
    ensures CountOf([], t) == 0
  {
  }

  lemma {:induction false} CountLast(orders: seq<Order>, o: Order, t: TraderId)
    ensures CountOf(orders + [o], t) == CountOf(orders, t) + if o.trader == t then 1 else 0
  {
    if orders == [] {
      assert orders + [o] == [o];
    } else {
      assert (orders + [o])[1..] == orders[1..] + [o];
      CountLast(orders[1..], o, t);
    }
  }

  lemma {:induction false} CountSides(book: seq<Order>, t: TraderId)
    ensures CountOf(OnSide(book, Buy), t) + CountOf(OnSide(book, Sell), t) == CountOf(book, t)
  {
    if book != [] {
      CountSides(book[1..], t);
      CountFirst(book[0], OnSide(book[1..], book[0].side), t);
    }
  }

  lemma CountFirst(o: Order, orders: seq<Order>, t: TraderId)
    ensures CountOf([o] + orders, t) == (if o.trader == t then 1 else 0) + CountOf(orders, t)
  {
    assert ([o] + orders)[1..] == orders;
  }

  lemma {:induction false} CountPlaced(o: Order, sorted: seq<Order>, side: Side, t: TraderId)
    ensures CountOf(Place(o, sorted, side), t) == (if o.trader == t then 1 else 0) + CountOf(sorted, t)
  {
    if sorted == [] || Before(o, sorted[0], side) {
      CountFirst(o, sorted, t);
    } else {
      CountPlaced(o, sorted[1..], side, t);
      CountFirst(sorted[0], Place(o, sorted[1..], side), t);
    }
  }

  lemma {:induction false} CountSorted(orders: seq<Order>, side: Side, t: TraderId)
    ensures CountOf(Sorted(orders, side), t) == CountOf(orders, t)
  {
    if orders != [] {
      CountSorted(orders[1..], side, t);
      CountPlaced(orders[0], Sorted(orders[1..], side), side, t);
    }
  }

  lemma {:induction false} CountSpliced(orders: seq<Order>, i: nat, t: TraderId)
    requires i < |orders|
    ensures CountOf(orders, t) == (if orders[i].trader == t then 1 else 0) + CountOf(Splice(orders, i), t)
  {
    if i == 0 {
      assert Splice(orders, 0) == orders[1..];
    } else {
      CountSpliced(orders[1..], i - 1, t);
      assert Splice(orders, i) == [orders[0]] + Splice(orders[1..], i - 1);
      CountFirst(orders[0], Splice(orders[1..], i - 1), t);
    }
  }

  /** A trader takes part in at most as many fills as it has orders. */
  lemma {:induction false} FillsWithinOrders(buys: seq<Order>, sells: seq<Order>, t: TraderId)
    ensures FillsOf(Match(buys, sells).fills, t) <= CountOf(buys, t) + CountOf(sells, t)
    decreases buys
  {
    if buys != [] {
      var i := FindMatch(buys[0], sells);
      if i < |sells| {
        var m := Match(buys[1..], Splice(sells, i));
        FillsWithinOrders(buys[1..], Splice(sells, i), t);
        CountSpliced(sells, i, t);
        assert ([Fill(buys[0], sells[i])] + m.fills)[1..] == m.fills;
      } else {
        FillsWithinOrders(buys[1..], sells, t);
      }
    }
  }

  lemma OneFillEach(st: State, paused: bool, d: Draws, t: TraderId)
    requires Valid(st) && GoodDraws(d, st) && st.orderBook == []
    ensures FillsOf(MatchBook(Placed(st, paused, d).orderBook).fills, t) <= 1
  {
    var book := Placed(st, paused, d).orderBook;
    var moved := Repriced(st, d);
    assert book == if paused then [] else Orders(moved.traderIds, moved, d);
    if !paused {
      OrdersOnce(moved.traderIds, moved, d, t);
    }
    hide Match, OnSide, Orders, Sorted;
    FillsWithinOrders(Sorted(OnSide(book, Buy), Buy), Sorted(OnSide(book, Sell), Sell), t);
    CountSorted(OnSide(book, Buy), Buy, t);
    CountSorted(OnSide(book, Sell), Sell, t);
    CountSides(book, t);
  }

  /** The fill joins a real buy to a real sell, and the trader covers its own side of it. */
  ghost predicate Covered(f: Fill, id: TraderId, t: Trader) {
    && f.buy.side == Buy && f.sell.side == Sell && Compatible(f.buy, f.sell) && f.sell.price >= 0.0
    && (f.buy.trader == id ==> Covers(t, f.buy))
    && (f.sell.trader == id ==> Covers(t, f.sell))
  }

  lemma {:induction false} SettleUntouched(st: State, fills: seq<Fill>, id: TraderId)
    requires id in st.traders && FillsOf(fills, id) == 0
    ensures id in SettleAll(st, fills).traders && SettleAll(st, fills).traders[id] == st.traders[id]
    decreases fills
  {
    if fills != [] {
      SettleUntouched(Settle(st, fills[0]), fills[1..], id);
    }
  }

  lemma SettleOne(st: State, f: Fill, id: TraderId)
    requires id in st.traders && Solvent(st.traders[id]) && Covered(f, id, st.traders[id])
    ensures id in Settle(st, f).traders && Solvent(Settle(st, f).traders[id])
    ensures FillOf(f, id) == 0 ==> Settle(st, f).traders[id] == st.traders[id]
  {
    FillWithinBid(f);
  }

  lemma {:induction false} SettleSolvent(st: State, fills: seq<Fill>, id: TraderId)
    requires id in st.traders && Solvent(st.traders[id]) && FillsOf(fills, id) <= 1
    requires forall f :: f in fills ==> Covered(f, id, st.traders[id])
    ensures id in SettleAll(st, fills).traders && Solvent(SettleAll(st, fills).traders[id])
    decreases fills
  {
    if fills != [] {
      assert fills[0] in fills;
      SettleOne(st, fills[0], id);
      if FillOf(fills[0], id) == 0 {
        SettleSolvent(Settle(st, fills[0]), fills[1..], id);
      } else {
        SettleUntouched(Settle(st, fills[0]), fills[1..], id);
      }
    }
  }

  lemma BookCovered(st: State, paused: bool, d: Draws, id: TraderId)
    requires Valid(st) && GoodDraws(d, st) && st.orderBook == []
    requires id in st.traders && st.traders[id].strategy != Aggressive
    ensures forall f :: f in MatchBook(Placed(st, paused, d).orderBook).fills ==> Covered(f, id, st.traders[id])
  {
    hide MatchBook, Placed, Valid, GoodDraws, FillPrice, Solvent;
    OwnOrderCovered(st, paused, d, id);
    BookMatched(Placed(st, paused, d).orderBook);
  }

  lemma OwnOrderCovered(st: State, paused: bool, d: Draws, id: TraderId)
    requires Valid(st) && GoodDraws(d, st) && st.orderBook == []
    requires id in st.traders && st.traders[id].strategy != Aggressive
    ensures forall o :: o in Placed(st, paused, d).orderBook ==> o.price >= 0.0 && (o.trader == id ==> Covers(st.traders[id], o))
  {
    hide Orders, Decide, Covers, CountOf;
    var moved := Repriced(st, d);
    if !paused {
      OrdersOnce(moved.traderIds, moved, d, id);
      var draw := d.choices[id];
      if moved.assetIds != [] {
        var a := moved.assetIds[draw.asset];
        if Decide(id, moved.traders[id], a, moved.assets[a], draw).Some? {
          DecideCovers(id, moved.traders[id], a, moved.assets[a], draw);
        }
      }
    }
  }

  /** A day leaves every solvent trader solvent, unless it is aggressive. */
  lemma DaySolvent(st: State, paused: bool, d: Draws, id: TraderId)
    requires Valid(st) && GoodDraws(d, st) && st.orderBook == []
    requires id in st.traders && st.traders[id].strategy != Aggressive && Solvent(st.traders[id])
    ensures id in NextDay(st, paused, d).traders && Solvent(NextDay(st, paused, d).traders[id])
  {
    var placed := Placed(st, paused, d);
    OneFillEach(st, paused, d, id);
    BookCovered(st, paused, d, id);
    hide MatchBook, SettleAll;
    SettleSolvent(placed, MatchBook(placed.orderBook).fills, id);
  }

  /** In every run, a trader that starts solvent and is not aggressive never owes cash or units. */
  lemma {:induction false} RunSolvent(st: State, days: seq<Day>, id: TraderId)
    requires Valid(st) && GoodDays(st, days) && st.orderBook == []
    requires id in st.traders && st.traders[id].strategy != Aggressive && Solvent(st.traders[id])
    ensures var end := Run(st, days);
      && end.orderBook == [] && id in end.traders
      && end.traders[id].strategy == st.traders[id].strategy && Solvent(end.traders[id])
  {
    if days != [] {
      var front, day := days[..|days| - 1], days[|days| - 1];
      RunSolvent(st, front, id);
      DayGood(Run(st, front), st, day);
      DayKeeps(Run(st, front), day.paused, day.draws);
      DaySolvent(Run(st, front), day.paused, day.draws, id);
    }
  }
}
