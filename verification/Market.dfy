/**
  The trading market of simulation-environments/market-simulation.environment.ts: one step lets
  every trader place at most one order, matches the book greedily by price and settles the fills.

  Money is real, units are integers, random draws are inputs. Identifiers are only compared, so
  they are numbers here.
*/
module Market {
  import opened Wrappers

  type TraderId = nat
  type AssetId = nat

  datatype Strategy = Aggressive | Conservative | Random

  datatype Trader = Trader(cash: real, portfolio: map<AssetId, int>, strategy: Strategy, totalValue: real)

  datatype Asset = Asset(basePrice: real, volatility: real, currentPrice: real)

  datatype Side = Buy | Sell

  datatype Order = Order(trader: TraderId, asset: AssetId, side: Side, quantity: nat, price: real)

  datatype Trade = Trade(buyer: TraderId, seller: TraderId, asset: AssetId, quantity: nat, price: real)

  /** The state object. A JavaScript Map keeps insertion order, so each map comes with its key order. */
  datatype State = State(
    assetIds: seq<AssetId>, assets: map<AssetId, Asset>,
    traderIds: seq<TraderId>, traders: map<TraderId, Trader>,
    orderBook: seq<Order>, trades: seq<Trade>, day: nat)

  /** What a trader draws in one step: an asset index, a quantity and a coin. */
  datatype Draw = Draw(asset: nat, quantity: nat, coin: bool)

  /** What one step draws: the sentiment, a shock for each asset and a draw for each trader. */
  datatype Draws = Draws(sentiment: real, shocks: map<AssetId, real>, choices: map<TraderId, Draw>)

  ghost predicate Distinct(ids: seq<nat>) {
    forall i, j :: 0 <= i < j < |ids| ==> ids[i] != ids[j]
  }

  /** The key orders list the keys of their maps once each, and prices are positive. */
  ghost predicate Valid(st: State) {
    && Distinct(st.assetIds) && (forall a :: a in st.assetIds <==> a in st.assets)
    && Distinct(st.traderIds) && (forall t :: t in st.traderIds <==> t in st.traders)
    && forall a :: a in st.assets ==> st.assets[a].currentPrice > 0.0
  }

  function Holding(t: Trader, a: AssetId): int {
    if a in t.portfolio then t.portfolio[a] else 0
  }

  // ---------------------------------------------------------------- strategies

  /** The order a trader places on its draw, if any. */
  function Decide(id: TraderId, t: Trader, a: AssetId, asset: Asset, draw: Draw): Option<Order> {
    var q, p := draw.quantity, asset.currentPrice;
    match t.strategy
    case Aggressive =>
      if draw.coin && t.cash >= p * q as real then Some(Order(id, a, Buy, q * 2, p))
      else if Holding(t, a) != 0 || 0 >= q then Some(Order(id, a, Sell, q, p * 1.05))
      else None
    case Conservative =>
      if p < asset.basePrice && t.cash >= p * q as real then Some(Order(id, a, Buy, q, p))
      else if p > asset.basePrice * 1.1 && Holding(t, a) >= q then Some(Order(id, a, Sell, q, p))
      else None
    case Random =>
      if draw.coin && t.cash >= p * q as real then Some(Order(id, a, Buy, q, p))
      else if Holding(t, a) >= q then Some(Order(id, a, Sell, q, p))
      else None
  }

  predicate GoodDraw(draw: Draw, st: State) {
    1 <= draw.quantity <= 10 && (draw.asset < |st.assetIds| || st.assetIds == [])
  }

  predicate GoodDraws(d: Draws, st: State) {
    && (forall t :: t in st.traderIds ==> t in d.choices && GoodDraw(d.choices[t], st))
    && (forall a :: a in st.assets ==> a in d.shocks)
  }

  function OrderOf(id: TraderId, st: State, draw: Draw): Option<Order>
    requires id in st.traders && GoodDraw(draw, st)
    requires forall a :: a in st.assetIds ==> a in st.assets
  {
    if st.assetIds == [] then None
    else
      var a := st.assetIds[draw.asset];
      Decide(id, st.traders[id], a, st.assets[a], draw)
  }

  /** The orders of the given traders, in turn. */
  function Orders(ids: seq<TraderId>, st: State, d: Draws): seq<Order>
    requires forall t :: t in ids ==> t in st.traders && t in d.choices && GoodDraw(d.choices[t], st)
    requires forall a :: a in st.assetIds ==> a in st.assets
  {
    if ids == [] then []
    else
      var rest := Orders(ids[..|ids| - 1], st, d);
      var last := ids[|ids| - 1];
      match OrderOf(last, st, d.choices[last])
      case None => rest
      case Some(o) => rest + [o]
  }

  // ---------------------------------------------------------------- sorting

  function OnSide(book: seq<Order>, side: Side): seq<Order> {
    if book == [] then []
    else if book[0].side == side then [book[0]] + OnSide(book[1..], side)
    else OnSide(book[1..], side)
  }

  /** Buys go by falling price, sells by rising price. */
  predicate Before(a: Order, b: Order, side: Side) {
    if side.Buy? then a.price >= b.price else a.price <= b.price
  }

  function Place(o: Order, sorted: seq<Order>, side: Side): seq<Order> {
    if sorted == [] || Before(o, sorted[0], side) then [o] + sorted
    else [sorted[0]] + Place(o, sorted[1..], side)
  }

  /** The stable sort by price. */
  function Sorted(orders: seq<Order>, side: Side): seq<Order> {
    if orders == [] then [] else Place(orders[0], Sorted(orders[1..], side), side)
  }

  ghost predicate IsSorted(orders: seq<Order>, side: Side) {
    forall i, j :: 0 <= i < j < |orders| ==> Before(orders[i], orders[j], side)
  }

  // ---------------------------------------------------------------- matching

  predicate Compatible(b: Order, s: Order) {
    s.asset == b.asset && s.price <= b.price && s.trader != b.trader
  }

  /** The index of the first compatible sell, or the length when there is none. */
  function FindMatch(b: Order, sells: seq<Order>): (i: nat)
    ensures i <= |sells|
    ensures i < |sells| ==> Compatible(b, sells[i])
    ensures forall j :: 0 <= j < i ==> !Compatible(b, sells[j])
  {
    if sells == [] || Compatible(b, sells[0]) then 0 else 1 + FindMatch(b, sells[1..])
  }

  datatype Fill = Fill(buy: Order, sell: Order)

  /** The fills, and the buys and sells left unmatched. */
  datatype Matching = Matching(fills: seq<Fill>, buys: seq<Order>, sells: seq<Order>)

  function Splice(orders: seq<Order>, i: nat): seq<Order>
    requires i < |orders|
  {
    orders[..i] + orders[i + 1..]
  }

  function Match(buys: seq<Order>, sells: seq<Order>): Matching {
    if buys == [] then Matching([], [], sells)
    else
      var i := FindMatch(buys[0], sells);
      if i < |sells| then
        var m := Match(buys[1..], Splice(sells, i));
        m.(fills := [Fill(buys[0], sells[i])] + m.fills)
      else
        var m := Match(buys[1..], sells);
        m.(buys := [buys[0]] + m.buys)
  }

  function MatchBook(book: seq<Order>): Matching {
    Match(Sorted(OnSide(book, Buy), Buy), Sorted(OnSide(book, Sell), Sell))
  }

  // ---------------------------------------------------------------- settlement

  function FillQuantity(f: Fill): nat {
    if f.buy.quantity < f.sell.quantity then f.buy.quantity else f.sell.quantity
  }

  function FillPrice(f: Fill): real { (f.buy.price + f.sell.price) / 2.0 }

  function FillCost(f: Fill): real { FillQuantity(f) as real * FillPrice(f) }

  predicate Settles(st: State, f: Fill) {
    f.buy.trader in st.traders && f.sell.trader in st.traders && f.buy.asset in st.assets
  }

  function Receive(t: Trader, a: AssetId, quantity: int, cost: real): Trader {
    t.(cash := t.cash - cost, portfolio := t.portfolio[a := Holding(t, a) + quantity])
  }

  /** Moves the filled units to the buyer and their cost to the seller. */
  function Settle(st: State, f: Fill): State {
    if !Settles(st, f) then st
    else
      var a, q: int, cost := f.buy.asset, FillQuantity(f), FillCost(f);
      var bought := st.traders[f.buy.trader := Receive(st.traders[f.buy.trader], a, q, cost)];
      var sold := bought[f.sell.trader := Receive(bought[f.sell.trader], a, -q, -cost)];
      st.(traders := sold, trades := st.trades + [Trade(f.buy.trader, f.sell.trader, a, q, FillPrice(f))])
  }

  function SettleAll(st: State, fills: seq<Fill>): State
    decreases fills
  {
    if fills == [] then st else SettleAll(Settle(st, fills[0]), fills[1..])
  }

  function Process(st: State): State {
    SettleAll(st, MatchBook(st.orderBook).fills).(orderBook := [])
  }

  // ---------------------------------------------------------------- valuation and the step

  function PortfolioWorth(ids: seq<AssetId>, assets: map<AssetId, Asset>, portfolio: map<AssetId, int>): real {
    if ids == [] then 0.0
    else PortfolioWorth(ids[..|ids| - 1], assets, portfolio) + EntryWorth(ids[|ids| - 1], assets, portfolio)
  }

  function EntryWorth(a: AssetId, assets: map<AssetId, Asset>, portfolio: map<AssetId, int>): real {
    if a in portfolio && a in assets then portfolio[a] as real * assets[a].currentPrice else 0.0
  }

  /** A trader's cash plus the market value of its holdings. */
  function Worth(st: State, t: Trader): real {
    t.cash + PortfolioWorth(st.assetIds, st.assets, t.portfolio)
  }

  function Moved(asset: Asset, sentiment: real, shock: real): Asset {
    var change := (shock - 0.5) * 2.0 * asset.volatility + sentiment * 0.01;
    var price := asset.currentPrice * (1.0 + change);
    asset.(currentPrice := if price < 1.0 then 1.0 else price)
  }

  function Repriced(st: State, d: Draws): State
    requires GoodDraws(d, st)
  {
    st.(day := st.day + 1, assets := map a | a in st.assets :: Moved(st.assets[a], d.sentiment, d.shocks[a]))
  }

  function ValuedTrader(st: State, id: TraderId): Trader
    requires id in st.traders
  {
    st.traders[id].(totalValue := Worth(st, st.traders[id]))
  }

  function Valued(st: State): State {
    st.(traders := map t | t in st.traders :: ValuedTrader(st, t))
  }

  /** The state once the day's prices are set and its orders placed; a paused environment places none. */
  function Placed(st: State, paused: bool, d: Draws): State
    requires Valid(st) && GoodDraws(d, st)
  {
    var moved := Repriced(st, d);
    if paused then moved else moved.(orderBook := moved.orderBook + Orders(moved.traderIds, moved, d))
  }

  /** One step. */
  function NextDay(st: State, paused: bool, d: Draws): State
    requires Valid(st) && GoodDraws(d, st)
  {
    Valued(Process(Placed(st, paused, d)))
  }

  lemma SettleKeeps(st: State, f: Fill)
    ensures Settle(st, f).traders.Keys == st.traders.Keys
    ensures Settle(st, f) == st.(traders := Settle(st, f).traders, trades := Settle(st, f).trades)
  {
  }

  lemma {:induction false} SettleAllKeeps(st: State, fills: seq<Fill>)
    ensures SettleAll(st, fills).traders.Keys == st.traders.Keys
    ensures SettleAll(st, fills) == st.(traders := SettleAll(st, fills).traders, trades := SettleAll(st, fills).trades)
    decreases fills
  {
    if fills != [] {
      SettleKeeps(st, fills[0]);
      SettleAllKeeps(Settle(st, fills[0]), fills[1..]);
    }
  }

  // ---------------------------------------------------------------- the environment

  class MarketSimulation {
    var state: State
    var isPaused: bool

    constructor (initial: State)
      ensures state == initial && !isPaused
    {
      state, isPaused := initial, false;
    }

    method PlaceOrder(order: Order)
      modifies this`state
      ensures state == old(state).(orderBook := old(state).orderBook + [order])
    {
      state := state.(orderBook := state.orderBook + [order]);
    }

    method ExecuteTraderStrategy(id: TraderId, draw: Draw)
      requires Valid(state) && id in state.traders && GoodDraw(draw, state)
      modifies this`state
      ensures state == match OrderOf(id, old(state), draw)
                       case None => old(state)
                       case Some(o) => old(state).(orderBook := old(state).orderBook + [o])
    {
      if |state.assetIds| == 0 {
        return;
      }
      var a := state.assetIds[draw.asset];
      var order := Decide(id, state.traders[id], a, state.assets[a], draw);
      if order.Some? {
        PlaceOrder(order.value);
      }
    }

    method ExecuteTrade(buyOrder: Order, sellOrder: Order)
      modifies this`state
      ensures state == Settle(old(state), Fill(buyOrder, sellOrder))
    {
      hide Receive;
      var traders := state.traders;
      if buyOrder.trader !in traders || sellOrder.trader !in traders || buyOrder.asset !in state.assets {
        return;
      }
      var fill := Fill(buyOrder, sellOrder);
      var quantity: int, price := FillQuantity(fill), (buyOrder.price + sellOrder.price) / 2.0;
      var totalCost := quantity as real * price;
      assert price == FillPrice(fill) && totalCost == FillCost(fill);
      traders := traders[buyOrder.trader := Receive(traders[buyOrder.trader], buyOrder.asset, quantity, totalCost)];
      traders := traders[sellOrder.trader := Receive(traders[sellOrder.trader], buyOrder.asset, -quantity, -totalCost)];
      var trade := Trade(buyOrder.trader, sellOrder.trader, buyOrder.asset, quantity, price);
      state := state.(traders := traders, trades := state.trades + [trade]);
      assert state.traders == Settle(old(state), fill).traders && state.trades == Settle(old(state), fill).trades;
    }

    method ProcessOrders()
      modifies this`state
      ensures state == Process(old(state))
    {
      var buyOrders := Sorted(OnSide(state.orderBook, Buy), Buy);
      var sellOrders := Sorted(OnSide(state.orderBook, Sell), Sell);
      for k := 0 to |buyOrders|
        invariant SettleAll(state, Match(buyOrders[k..], sellOrders).fills)
               == SettleAll(old(state), MatchBook(old(state.orderBook)).fills)
      {
        MatchStep(state, buyOrders[k..], sellOrders);
        assert buyOrders[k..][1..] == buyOrders[k + 1..];
        var sellIndex := FindMatch(buyOrders[k], sellOrders);
        if sellIndex < |sellOrders| {
          ExecuteTrade(buyOrders[k], sellOrders[sellIndex]);
          sellOrders := Splice(sellOrders, sellIndex);
        }
      }
      state := state.(orderBook := []);
    }

    /** The value of a trader's cash and of every entry of its portfolio whose asset exists. */
    method CalculateTraderValue(trader: Trader) returns (value: real)
      requires Valid(state)
      ensures value == Worth(state, trader)
    {
      hide PortfolioWorth;
      var portfolioValue := 0.0;
      var rest := trader.portfolio.Keys;
      ghost var seen: map<AssetId, int> := map[];
      EmptyWorth(state.assetIds, state.assets);
      while rest != {}
        invariant rest <= trader.portfolio.Keys
        invariant seen == trader.portfolio - rest
        invariant portfolioValue == PortfolioWorth(state.assetIds, state.assets, seen)
      {
        var assetId :| assetId in rest;
        var quantity := trader.portfolio[assetId];
        AddEntry(state.assetIds, state.assets, seen, assetId, quantity);
        if assetId in state.assets {
          portfolioValue := portfolioValue + quantity as real * state.assets[assetId].currentPrice;
        }
        rest := rest - {assetId};
        seen := seen[assetId := quantity];
      }
      assert seen == trader.portfolio;
      value := trader.cash + portfolioValue;
    }

    /** Every trader in turn is given its total value. */
    method ValueTraders()
      requires Valid(state)
      modifies this`state
      ensures state == Valued(old(state))
    {
      hide Worth;
      ghost var before := state;
      for k := 0 to |state.traderIds|
        invariant state == before.(traders := state.traders) && state.traders.Keys == before.traders.Keys
        invariant forall j :: 0 <= j < |before.traderIds| ==>
          var id := before.traderIds[j];
          id in before.traders && state.traders[id] == if j < k then ValuedTrader(before, id) else before.traders[id]
      {
        var id := state.traderIds[k];
        var value := CalculateTraderValue(state.traders[id]);
        WorthElsewhere(state, before, state.traders[id]);
        state := state.(traders := state.traders[id := state.traders[id].(totalValue := value)]);
      }
      assert state.traders == Valued(before).traders;
    }

    /** Every trader in turn decides on its order. */
    method DecideAll(d: Draws)
      requires Valid(state) && GoodDraws(d, state)
      modifies this`state
      ensures state == old(state).(orderBook := old(state).orderBook + Orders(old(state).traderIds, old(state), d))
    {
      hide OrderOf;
      ghost var before := state;
      for k := 0 to |state.traderIds|
        invariant state == before.(orderBook := before.orderBook + Orders(before.traderIds[..k], before, d))
      {
        var id := state.traderIds[k];
        OrderIgnoresBook(id, before, state.orderBook, d.choices[id]);
        assert before.traderIds[..k + 1][..k] == before.traderIds[..k];
        ExecuteTraderStrategy(id, d.choices[id]);
      }
      assert before.traderIds[..|before.traderIds|] == before.traderIds;
    }

    method Step(d: Draws)
      requires Valid(state) && GoodDraws(d, state)
      modifies this`state
      ensures state == NextDay(old(state), isPaused, d)
    {
      RepricedValid(state, d);
      state := Repriced(state, d);
      if !isPaused {
        DecideAll(d);
      }
      ProcessOrders();
      ghost var processed := state;
      ProcessedValid(old(state), isPaused, d);
      ValueTraders();
      assert state == Valued(processed);
    }
  }

  lemma OrderIgnoresBook(id: TraderId, st: State, book: seq<Order>, draw: Draw)
    requires id in st.traders && GoodDraw(draw, st)
    requires forall a :: a in st.assetIds ==> a in st.assets
    ensures OrderOf(id, st.(orderBook := book), draw) == OrderOf(id, st, draw)
  {
  }

  lemma RepricedValid(st: State, d: Draws)
    requires Valid(st) && GoodDraws(d, st)
    ensures Valid(Repriced(st, d)) && GoodDraws(d, Repriced(st, d))
  {
  }

  lemma WorthElsewhere(st: State, other: State, t: Trader)
    requires st.assetIds == other.assetIds && st.assets == other.assets
    ensures Worth(st, t) == Worth(other, t)
  {
  }

  lemma ProcessedValid(st: State, paused: bool, d: Draws)
    requires Valid(st) && GoodDraws(d, st)
    ensures Valid(Process(Placed(st, paused, d)))
  {
    RepricedValid(st, d);
    SettleAllKeeps(Placed(st, paused, d), MatchBook(Placed(st, paused, d).orderBook).fills);
  }

  lemma MatchStep(st: State, buys: seq<Order>, sells: seq<Order>)
    requires buys != []
    ensures var i := FindMatch(buys[0], sells);
      SettleAll(st, Match(buys, sells).fills)
      == if i < |sells| then SettleAll(Settle(st, Fill(buys[0], sells[i])), Match(buys[1..], Splice(sells, i)).fills)
         else SettleAll(st, Match(buys[1..], sells).fills)
  {
    var i := FindMatch(buys[0], sells);
    if i < |sells| {
      var fills := Match(buys[1..], Splice(sells, i)).fills;
      assert ([Fill(buys[0], sells[i])] + fills)[1..] == fills;
    }
  }

  lemma {:induction false} EmptyWorth(ids: seq<AssetId>, assets: map<AssetId, Asset>)
    ensures PortfolioWorth(ids, assets, map[]) == 0.0
  {
    if ids != [] {
      EmptyWorth(ids[..|ids| - 1], assets);
    }
  }

  lemma {:induction false} WorthUnlisted(ids: seq<AssetId>, assets: map<AssetId, Asset>, p: map<AssetId, int>, a: AssetId, h: int)
    requires a !in ids
    ensures PortfolioWorth(ids, assets, p[a := h]) == PortfolioWorth(ids, assets, p)
  {
    if ids != [] {
      assert ids[|ids| - 1] in ids;
      WorthUnlisted(ids[..|ids| - 1], assets, p, a, h);
    }
  }

  /** Changing one holding changes the worth by the change of that entry alone. */
  lemma {:induction false} WorthChange(ids: seq<AssetId>, assets: map<AssetId, Asset>, p: map<AssetId, int>, a: AssetId, h: int)
    requires Distinct(ids) && a in ids
    ensures PortfolioWorth(ids, assets, p[a := h])
         == PortfolioWorth(ids, assets, p) - EntryWorth(a, assets, p) + EntryWorth(a, assets, p[a := h])
  {
    var front, last := ids[..|ids| - 1], ids[|ids| - 1];
    assert ids == front + [last];
    if last == a {
      assert a !in front;
      WorthUnlisted(front, assets, p, a, h);
    } else {
      WorthChange(front, assets, p, a, h);
    }
  }

  lemma AddEntry(ids: seq<AssetId>, assets: map<AssetId, Asset>, p: map<AssetId, int>, a: AssetId, h: int)
    requires Distinct(ids) && a !in p && (a in ids <==> a in assets)
    ensures PortfolioWorth(ids, assets, p[a := h])
         == PortfolioWorth(ids, assets, p) + if a in assets then h as real * assets[a].currentPrice else 0.0
  {
    if a in ids {
      WorthChange(ids, assets, p, a, h);
    } else {
      WorthUnlisted(ids, assets, p, a, h);
    }
  }
}
