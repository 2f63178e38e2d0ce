/**
  The terms of one day of simulation-environments/market-simulation.environment.ts, written out: when a strategy
  buys or sells and on what terms, how prices move, and what one trade moves.
*/
module MarketTerms {
  import opened Wrappers
  import opened Market
  import opened MarketTheorems

  // ---------------------------------------------------------------- strategies

  /**
    An aggressive trader bids at the price for twice its quantity when its coin says so and it can pay for the
    quantity once. Otherwise it asks five percent more for the quantity, when it holds anything of the asset, a debt
    included; the comparison that was meant to follow only speaks for a quantity of zero.
  */
  lemma AggressiveIs(id: TraderId, t: Trader, a: AssetId, asset: Asset, draw: Draw)
    requires t.strategy == Aggressive
    ensures var p, q := asset.currentPrice, draw.quantity;
      var bids := draw.coin && p * q as real <= t.cash;
      && (Decide(id, t, a, asset, draw) == Some(Order(id, a, Buy, 2 * q, p)) <==> bids)
      && (Decide(id, t, a, asset, draw) == Some(Order(id, a, Sell, q, p + p * 0.05)) <==>
            !bids && ((a in t.portfolio && t.portfolio[a] != 0) || q == 0))
      && (Decide(id, t, a, asset, draw) == None <==> !bids && !(a in t.portfolio && t.portfolio[a] != 0) && q > 0)
  {
    assert asset.currentPrice * 1.05 == asset.currentPrice + asset.currentPrice * 0.05;
  }

  /**
    A conservative trader buys below the base price what it can pay for, and otherwise sells at more than ten percent
    above it what it holds, both at the price.
  */
  lemma ConservativeIs(id: TraderId, t: Trader, a: AssetId, asset: Asset, draw: Draw)
    requires t.strategy == Conservative
    ensures var p, q := asset.currentPrice, draw.quantity;
      var buys := p < asset.basePrice && p * q as real <= t.cash;
      var sells := !buys && p > asset.basePrice + asset.basePrice / 10.0 && (if a in t.portfolio then t.portfolio[a] else 0) >= q;
      && (Decide(id, t, a, asset, draw) == Some(Order(id, a, Buy, q, p)) <==> buys)
      && (Decide(id, t, a, asset, draw) == Some(Order(id, a, Sell, q, p)) <==> sells)
      && (Decide(id, t, a, asset, draw) == None <==> !buys && !sells)
  {
  }

  /** A random trader buys at the price what it can pay for when its coin says so, and otherwise sells what it holds. */
  lemma RandomIs(id: TraderId, t: Trader, a: AssetId, asset: Asset, draw: Draw)
    requires t.strategy == Random
    ensures var p, q := asset.currentPrice, draw.quantity;
      var buys := draw.coin && p * q as real <= t.cash;
      var sells := !buys && (if a in t.portfolio then t.portfolio[a] else 0) >= q;
      && (Decide(id, t, a, asset, draw) == Some(Order(id, a, Buy, q, p)) <==> buys)
      && (Decide(id, t, a, asset, draw) == Some(Order(id, a, Sell, q, p)) <==> sells)
      && (Decide(id, t, a, asset, draw) == None <==> !buys && !sells)
  {
  }

  // ---------------------------------------------------------------- prices

  /**
    A day moves each price by up to its volatility, up or down as the shock is above or below a half, and by a
    hundredth of the sentiment; no price falls below one.
  */
  lemma PriceIs(st: State, d: Draws, a: AssetId)
    requires GoodDraws(d, st) && a in st.assets
    ensures var before, after := st.assets[a], Repriced(st, d).assets[a];
      var moved := before.currentPrice + before.currentPrice * (before.volatility * (2.0 * d.shocks[a] - 1.0) + d.sentiment / 100.0);
      && after.currentPrice == (if moved < 1.0 then 1.0 else moved)
      && after.basePrice == before.basePrice && after.volatility == before.volatility
    ensures Repriced(st, d).day == st.day + 1 && Repriced(st, d).traders == st.traders && Repriced(st, d).orderBook == st.orderBook
  {
    MoveIs(st.assets[a].currentPrice, st.assets[a].volatility, d.shocks[a], d.sentiment);
  }

  lemma MoveIs(price: real, volatility: real, shock: real, sentiment: real)
    ensures price * (1.0 + ((shock - 0.5) * 2.0 * volatility + sentiment * 0.01))
         == price + price * (volatility * (2.0 * shock - 1.0) + sentiment / 100.0)
  {
    var x, y := (shock - 0.5) * 2.0 * volatility + sentiment * 0.01, volatility * (2.0 * shock - 1.0) + sentiment / 100.0;
    assert (shock - 0.5) * 2.0 * volatility == volatility * (2.0 * shock - 1.0);
    assert x == y;
    assert price * (1.0 + x) == price + price * x;
  }

  // ---------------------------------------------------------------- the match

  /** The two may trade: one asset, two traders, and the bid reaches the ask. */
  predicate MayTrade(b: Order, s: Order) { b.asset == s.asset && b.trader != s.trader && b.price >= s.price }

  /**
    The match of any book joins bids and asks that may trade and leaves no such pair over; a bid is only left over
    if every lower bid got an ask that it could not take, and no ask left over is lower than the one a bid got.
  */
  lemma MatchTerms(book: seq<Order>)
    ensures var m := MatchBook(book);
      && (forall f :: f in m.fills ==>
            f.buy in book && f.buy.side == Buy && f.sell in book && f.sell.side == Sell && MayTrade(f.buy, f.sell))
      && (forall b, s :: b in m.buys && s in m.sells ==> !MayTrade(b, s))
      && (forall b, f :: b in m.buys && f in m.fills && f.buy.price < b.price ==> !MayTrade(b, f.sell))
      && (forall f, s :: f in m.fills && s in m.sells && MayTrade(f.buy, s) ==> f.sell.price <= s.price)
  {
    hide MatchBook, MayTrade, Compatible;
    BookMatched(book);
    forall b: Order, s: Order ensures Compatible(b, s) <==> MayTrade(b, s) {
      CompatibleIs(b, s);
    }
  }

  lemma CompatibleIs(b: Order, s: Order)
    ensures Compatible(b, s) <==> MayTrade(b, s)
  {
  }

  // ---------------------------------------------------------------- one trade

  /** The units of an asset that a trader holds. */
  function Units(st: State, t: TraderId, a: AssetId): int
    requires t in st.traders
  {
    if a in st.traders[t].portfolio then st.traders[t].portfolio[a] else 0
  }

  /**
    A trade between two traders there are, on an asset there is, is for the lesser of the two quantities at the
    middle of bid and ask. It moves the units to the buyer and their cost to the seller, nothing else, and is logged.
  */
  lemma TradeIs(st: State, f: Fill, t: TraderId, a: AssetId)
    requires f.buy.trader in st.traders && f.sell.trader in st.traders && f.buy.trader != f.sell.trader
    requires f.buy.asset in st.assets && t in st.traders
    ensures var after, q, mid := Settle(st, f), Min(f.buy.quantity, f.sell.quantity), f.sell.price + (f.buy.price - f.sell.price) / 2.0;
      && after.trades == st.trades + [Trade(f.buy.trader, f.sell.trader, f.buy.asset, q, mid)]
      && t in after.traders
      && after.traders[t].cash == st.traders[t].cash +
           (if t == f.buy.trader then -(q as real * mid) else if t == f.sell.trader then q as real * mid else 0.0)
      && Units(after, t, a) == Units(st, t, a) +
           (if a != f.buy.asset then 0 else if t == f.buy.trader then q else if t == f.sell.trader then -q else 0)
      && after.assets == st.assets && after.orderBook == st.orderBook
  {
    assert FillPrice(f) == f.sell.price + (f.buy.price - f.sell.price) / 2.0;
    hide FillPrice;
  }

  /** A trade with an unknown trader or asset does not happen. */
  lemma NoTradeIs(st: State, f: Fill)
    requires f.buy.trader !in st.traders || f.sell.trader !in st.traders || f.buy.asset !in st.assets
    ensures Settle(st, f) == st
  {
  }

  // ---------------------------------------------------------------- the value of a trader

  /** The market value of what a trader holds of the first n assets. */
  function HeldValue(st: State, t: Trader, n: nat): real
    requires n <= |st.assetIds|
  {
    if n == 0 then 0.0
    else
      var a := st.assetIds[n - 1];
      HeldValue(st, t, n - 1)
      + if a in t.portfolio && a in st.assets then st.assets[a].currentPrice * t.portfolio[a] as real else 0.0
  }

  lemma {:induction false} WorthUpTo(st: State, t: Trader, n: nat)
    requires n <= |st.assetIds|
    ensures PortfolioWorth(st.assetIds[..n], st.assets, t.portfolio) == HeldValue(st, t, n)
  {
    if n > 0 {
      WorthUpTo(st, t, n - 1);
      assert st.assetIds[..n][..n - 1] == st.assetIds[..n - 1];
    }
  }

  /** After a day every trader's total value is its cash and the market value of all it holds. */
  lemma ValueIs(st: State, paused: bool, d: Draws, t: TraderId)
    requires Valid(st) && GoodDraws(d, st) && t in NextDay(st, paused, d).traders
    ensures var after := NextDay(st, paused, d);
      after.traders[t].totalValue == after.traders[t].cash + HeldValue(after, after.traders[t], |after.assetIds|)
  {
    var done := Process(Placed(st, paused, d));
    hide Process, Placed, PortfolioWorth;
    var after := NextDay(st, paused, d);
    assert done.assetIds[..|done.assetIds|] == done.assetIds;
    WorthUpTo(done, done.traders[t], |done.assetIds|);
    ValueKept(done, after, done.traders[t], after.traders[t], |done.assetIds|);
  }

  lemma {:induction false} ValueKept(st: State, other: State, t: Trader, u: Trader, n: nat)
    requires st.assetIds == other.assetIds && st.assets == other.assets && t.portfolio == u.portfolio && n <= |st.assetIds|
    ensures HeldValue(st, t, n) == HeldValue(other, u, n)
  {
    if n > 0 {
      ValueKept(st, other, t, u, n - 1);
    }
  }
}
