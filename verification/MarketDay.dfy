/**
  What one day of the market does exactly. The orders of a step are all priced off the same prices, so on
  each asset every bid meets the price, an aggressive ask lies above it and never fills, and the greedy
  match pairs the k-th bid with the k-th of the other asks.
*/
module MarketDay {
  import opened Wrappers
  import opened Market
  import opened MarketTheorems

  // ---------------------------------------------------------------- bids and asks

  function Pick(orders: seq<Order>, p: Order -> bool): seq<Order> {
    if orders == [] then [] else (if p(orders[0]) then [orders[0]] else []) + Pick(orders[1..], p)
  }

  function Bids(a: AssetId): Order -> bool {
    (o: Order) => o.side.Buy? && o.asset == a
  }

  /** The asks on an asset that a bid at the given price can take. */
  function Asks(a: AssetId, price: real): Order -> bool {
    (o: Order) => o.side.Sell? && o.asset == a && o.price <= price
  }

  lemma PickFirst(o: Order, orders: seq<Order>, p: Order -> bool)
    ensures Pick([o] + orders, p) == (if p(o) then [o] else []) + Pick(orders, p)
  {
    assert ([o] + orders)[1..] == orders;
  }

  lemma {:induction false} PickMembers(orders: seq<Order>, p: Order -> bool)
    ensures forall o :: o in Pick(orders, p) <==> o in orders && p(o)
  {
    if orders != [] {
      PickMembers(orders[1..], p);
      assert orders == [orders[0]] + orders[1..];
    }
  }

  lemma {:induction false} PlacePicks(o: Order, sorted: seq<Order>, side: Side, p: Order -> bool)
    requires p(o) ==> forall x :: x in sorted && p(x) ==> x.price == o.price
    ensures Pick(Place(o, sorted, side), p) == (if p(o) then [o] else []) + Pick(sorted, p)
  {
    hide Pick;
    if sorted == [] || Before(o, sorted[0], side) {
      PickFirst(o, sorted, p);
    } else {
      PlacePicks(o, sorted[1..], side, p);
      PickFirst(sorted[0], Place(o, sorted[1..], side), p);
      PickFirst(sorted[0], sorted[1..], p);
      assert sorted == [sorted[0]] + sorted[1..];
      assert sorted[0] in sorted;
    }
  }

  /** The stable sort keeps orders of one price in their order of arrival. */
  lemma {:induction false} SortedPicks(orders: seq<Order>, side: Side, p: Order -> bool)
    requires forall x, y :: x in orders && y in orders && p(x) && p(y) ==> x.price == y.price
    ensures Pick(Sorted(orders, side), p) == Pick(orders, p)
  {
    if orders != [] {
      SortedPicks(orders[1..], side, p);
      SameMembers(orders[1..], side);
      assert orders[0] in orders;
      PlacePicks(orders[0], Sorted(orders[1..], side), side, p);
    }
  }

  lemma {:induction false} SidePicks(book: seq<Order>, side: Side, p: Order -> bool)
    requires forall o :: p(o) ==> o.side == side
    ensures Pick(OnSide(book, side), p) == Pick(book, p)
  {
    if book != [] {
      SidePicks(book[1..], side, p);
      PickFirst(book[0], OnSide(book[1..], side), p);
    }
  }

  /** Taking out the first order that p picks. */
  lemma {:induction false} PickSpliced(orders: seq<Order>, i: nat, p: Order -> bool)
    requires i < |orders|
    requires p(orders[i]) ==> forall j :: 0 <= j < i ==> !p(orders[j])
    ensures Pick(orders, p) == (if p(orders[i]) then [orders[i]] else []) + Pick(Splice(orders, i), p)
  {
    if i == 0 {
      assert Splice(orders, 0) == orders[1..];
    } else {
      PickSpliced(orders[1..], i - 1, p);
      assert Splice(orders, i) == [orders[0]] + Splice(orders[1..], i - 1);
      PickFirst(orders[0], Splice(orders[1..], i - 1), p);
    }
  }

  lemma {:induction false} PickNone(orders: seq<Order>, p: Order -> bool)
    requires forall o :: o in orders ==> !p(o)
    ensures Pick(orders, p) == []
  {
    if orders != [] {
      assert orders[0] in orders;
      PickNone(orders[1..], p);
    }
  }

  // ---------------------------------------------------------------- the match, pair by pair

  /** The k-th bid with the k-th ask, as long as there are both. */
  function Zip(bids: seq<Order>, asks: seq<Order>): (fills: seq<Fill>)
    ensures |fills| == if |bids| < |asks| then |bids| else |asks|
    ensures forall k :: 0 <= k < |fills| ==> fills[k] == Fill(bids[k], asks[k])
  {
    if bids == [] || asks == [] then [] else [Fill(bids[0], asks[0])] + Zip(bids[1..], asks[1..])
  }

  function FillsIn(fills: seq<Fill>, a: AssetId): seq<Fill> {
    if fills == [] then []
    else (if fills[0].buy.asset == a then [fills[0]] else []) + FillsIn(fills[1..], a)
  }

  lemma FillsInFirst(f: Fill, fills: seq<Fill>, a: AssetId)
    ensures FillsIn([f] + fills, a) == (if f.buy.asset == a then [f] else []) + FillsIn(fills, a)
  {
    assert ([f] + fills)[1..] == fills;
  }

  lemma {:induction false} FillsInMembers(fills: seq<Fill>, a: AssetId)
    ensures forall f :: f in FillsIn(fills, a) <==> f in fills && f.buy.asset == a
  {
    if fills != [] {
      FillsInMembers(fills[1..], a);
      assert fills == [fills[0]] + fills[1..];
    }
  }

  /** Every bid is at its asset's price, and an ask at or below it is at it. */
  ghost predicate AtPrices(orders: seq<Order>, prices: AssetId -> real) {
    forall o :: o in orders ==>
      if o.side.Buy? then o.price == prices(o.asset) else o.price <= prices(o.asset) ==> o.price == prices(o.asset)
  }

  ghost predicate OneEach(orders: seq<Order>) {
    forall i, j :: 0 <= i < j < |orders| ==> orders[i].trader != orders[j].trader
  }

  ghost predicate Strangers(buys: seq<Order>, sells: seq<Order>) {
    forall b, s :: b in buys && s in sells ==> b.side.Buy? && s.side.Sell? && b.trader != s.trader
  }

  /** The sell a bid takes is the first ask on its asset; asks on other assets stay. */
  lemma TakesFirstAsk(b: Order, sells: seq<Order>, a: AssetId, prices: AssetId -> real)
    requires b.side.Buy? && b.price == prices(b.asset) && Strangers([b], sells)
    ensures var i, asks := FindMatch(b, sells), Asks(a, prices(a));
      if i < |sells| then Pick(sells, asks) == (if b.asset == a then [sells[i]] else []) + Pick(Splice(sells, i), asks)
      else b.asset == a ==> Pick(sells, asks) == []
  {
    hide FindMatch, Pick, Splice;
    var i, asks := FindMatch(b, sells), Asks(a, prices(a));
    assert b in [b];
    forall j | 0 <= j < |sells| && b.asset == a ensures asks(sells[j]) <==> Compatible(b, sells[j]) {
      assert sells[j] in sells;
    }
    if i < |sells| {
      PickSpliced(sells, i, asks);
    } else if b.asset == a {
      PickNone(sells, asks);
    }
  }

  lemma StrangersLeft(buys: seq<Order>, sells: seq<Order>, i: nat)
    requires buys != [] && Strangers(buys, sells) && i < |sells|
    ensures Strangers([buys[0]], sells) && Strangers(buys[1..], sells) && Strangers(buys[1..], Splice(sells, i))
  {
    assert buys == [buys[0]] + buys[1..];
    forall s | s in Splice(sells, i) ensures s in sells {
    }
  }

  lemma ZipFirst(b: Order, bids: seq<Order>, s: Order, asks: seq<Order>)
    ensures Zip([b] + bids, [s] + asks) == [Fill(b, s)] + Zip(bids, asks)
    ensures Zip(bids, []) == [] && Zip([], asks) == []
  {
    assert ([b] + bids)[1..] == bids && ([s] + asks)[1..] == asks;
  }

  lemma PickHead(orders: seq<Order>, p: Order -> bool)
    requires orders != []
    ensures Pick(orders, p) == (if p(orders[0]) then [orders[0]] else []) + Pick(orders[1..], p)
  {
  }

  lemma MatchHead(buys: seq<Order>, sells: seq<Order>)
    requires buys != []
    ensures var i := FindMatch(buys[0], sells);
      Match(buys, sells).fills ==
        if i < |sells| then [Fill(buys[0], sells[i])] + Match(buys[1..], Splice(sells, i)).fills
        else Match(buys[1..], sells).fills
  {
  }

  lemma {:induction false} MatchZips(buys: seq<Order>, sells: seq<Order>, a: AssetId, prices: AssetId -> real)
    requires Strangers(buys, sells) && AtPrices(buys, prices)
    requires forall b :: b in buys ==> b.side.Buy?
    ensures FillsIn(Match(buys, sells).fills, a) == Zip(Pick(buys, Bids(a)), Pick(sells, Asks(a, prices(a))))
    decreases buys
  {
    hide FillsIn, Strangers, Compatible, Splice, FindMatch, Zip, Pick, Match;
    if buys == [] {
      NothingMatched(sells, a, Asks(a, prices(a)));
    } else {
      var b, i := buys[0], FindMatch(buys[0], sells);
      assert b in buys;
      if sells != [] {
        StrangersLeft(buys, sells, if i < |sells| then i else 0);
      } else {
        NoSells(buys);
      }
      TakesFirstAsk(b, sells, a, prices);
      MatchHead(buys, sells);
      PickHead(buys, Bids(a));
      var bids := Pick(buys[1..], Bids(a));
      assert Pick(buys, Bids(a)) == if b.asset == a then [b] + bids else bids;
      if i < |sells| {
        var f, rest, asks := Fill(b, sells[i]), Match(buys[1..], Splice(sells, i)).fills, Pick(Splice(sells, i), Asks(a, prices(a)));
        MatchZips(buys[1..], Splice(sells, i), a, prices);
        FillsInFirst(f, rest, a);
        assert FillsIn([f] + rest, a) == if b.asset == a then [f] + FillsIn(rest, a) else FillsIn(rest, a);
        assert Pick(sells, Asks(a, prices(a))) == if b.asset == a then [sells[i]] + asks else asks;
        ZipFirst(b, bids, sells[i], asks);
      } else {
        MatchZips(buys[1..], sells, a, prices);
        if b.asset == a {
          assert Pick(sells, Asks(a, prices(a))) == [];
          ZipFirst(b, bids, b, []);
          ZipFirst(b, [b] + bids, b, []);
        }
      }
    }
  }

  lemma NothingMatched(sells: seq<Order>, a: AssetId, asks: Order -> bool)
    ensures FillsIn(Match([], sells).fills, a) == [] && Zip(Pick([], Bids(a)), Pick(sells, asks)) == []
  {
  }

  lemma NoSells(buys: seq<Order>)
    requires buys != []
    ensures Strangers([buys[0]], []) && Strangers(buys[1..], [])
  {
  }

  /** In a book at the day's prices with one order per trader, the fills on an asset are its bids and asks zipped. */
  lemma BookZips(book: seq<Order>, a: AssetId, prices: AssetId -> real)
    requires AtPrices(book, prices) && OneEach(book)
    ensures FillsIn(MatchBook(book).fills, a) == Zip(Pick(book, Bids(a)), Pick(book, Asks(a, prices(a))))
  {
    hide Pick, OnSide, Sorted, Match, FillsIn;
    var buys, sells := OnSide(book, Buy), OnSide(book, Sell);
    OnSideOnly(book, Buy);
    OnSideOnly(book, Sell);
    SameMembers(buys, Buy);
    SameMembers(sells, Sell);
    MatchZips(Sorted(buys, Buy), Sorted(sells, Sell), a, prices);
    SortedPicks(buys, Buy, Bids(a));
    SortedPicks(sells, Sell, Asks(a, prices(a)));
    SidePicks(book, Buy, Bids(a));
    SidePicks(book, Sell, Asks(a, prices(a)));
  }

  // ---------------------------------------------------------------- the book of a day

  function Price(st: State): AssetId -> real {
    (a: AssetId) => if a in st.assets then st.assets[a].currentPrice else 1.0
  }

  /** Every order of a day is its trader's own decision; one above the price comes from an aggressive seller. */
  ghost predicate Decided(o: Order, st: State) {
    && o.trader in st.traders && o.asset in st.assets
    && (o.side.Buy? ==> o.price == Price(st)(o.asset) && o.quantity <= 20)
    && (o.side.Sell? ==> o.quantity <= 10)
    && (o.side.Sell? && o.price <= Price(st)(o.asset) ==>
          && o.price == Price(st)(o.asset) && o.quantity <= Holding(st.traders[o.trader], o.asset)
          && st.traders[o.trader].strategy != Aggressive)
  }

  lemma DecidedOne(id: TraderId, st: State, draw: Draw)
    requires Valid(st) && id in st.traders && GoodDraw(draw, st) && OrderOf(id, st, draw).Some?
    ensures OrderOf(id, st, draw).value.trader == id && Decided(OrderOf(id, st, draw).value, st)
  {
    var a := st.assetIds[draw.asset];
    assert a in st.assetIds;
    var p, q := st.assets[a].currentPrice, draw.quantity;
    assert p * 1.05 > p;
  }

  lemma {:induction false} OrdersDecided(ids: seq<TraderId>, st: State, d: Draws)
    requires Valid(st) && Distinct(ids)
    requires forall x :: x in ids ==> x in st.traders && x in d.choices && GoodDraw(d.choices[x], st)
    ensures OneEach(Orders(ids, st, d))
    ensures forall o :: o in Orders(ids, st, d) ==> o.trader in ids && Decided(o, st)
  {
    hide Decided, OrderOf, Price, Holding;
    if ids != [] {
      var front, last := ids[..|ids| - 1], ids[|ids| - 1];
      assert ids == front + [last];
      OrdersDecided(front, st, d);
      if OrderOf(last, st, d.choices[last]).Some? {
        DecidedOne(last, st, d.choices[last]);
      }
      var rest := Orders(front, st, d);
      forall i | 0 <= i < |rest| ensures rest[i].trader != last {
        assert rest[i] in rest;
      }
    }
  }

  /** The book of a day that starts with an empty one. */
  lemma DayBook(st: State, paused: bool, d: Draws)
    requires Valid(st) && GoodDraws(d, st) && st.orderBook == []
    ensures var placed := Placed(st, paused, d);
      && OneEach(placed.orderBook) && AtPrices(placed.orderBook, Price(placed))
      && forall o :: o in placed.orderBook ==> Decided(o, placed)
  {
    var placed, moved := Placed(st, paused, d), Repriced(st, d);
    RepricedValid(st, d);
    if paused {
      assert placed.orderBook == [];
    } else {
      OrdersDecided(moved.traderIds, moved, d);
      assert placed.orderBook == Orders(moved.traderIds, moved, d);
      forall o | o in placed.orderBook ensures Decided(o, placed) {
        assert Decided(o, moved);
      }
    }
  }

  /** On every asset a day's fills are its bids and its asks at the price, zipped in the order of the traders. */
  lemma DayFills(st: State, paused: bool, d: Draws, a: AssetId)
    requires Valid(st) && GoodDraws(d, st) && st.orderBook == []
    ensures var placed := Placed(st, paused, d);
      FillsIn(MatchBook(placed.orderBook).fills, a)
      == Zip(Pick(placed.orderBook, Bids(a)), Pick(placed.orderBook, Asks(a, Price(placed)(a))))
  {
    DayBook(st, paused, d);
    BookZips(Placed(st, paused, d).orderBook, a, Price(Placed(st, paused, d)));
  }

  /** Every fill of a day is at the day's price, for ten units at most, and its seller is not aggressive. */
  lemma DayFillTerms(st: State, paused: bool, d: Draws)
    requires Valid(st) && GoodDraws(d, st) && st.orderBook == []
    ensures var placed := Placed(st, paused, d);
      forall f :: f in MatchBook(placed.orderBook).fills ==>
        && f.buy.trader in st.traders && f.sell.trader in st.traders
        && FillPrice(f) == Price(placed)(f.buy.asset) && FillQuantity(f) <= 10
        && st.traders[f.sell.trader].strategy != Aggressive
  {
    hide MatchBook, Placed, OneEach, Price;
    var placed := Placed(st, paused, d);
    PlacedKeeps(st, paused, d);
    DayBook(st, paused, d);
    BookMatched(placed.orderBook);
    forall f | f in MatchBook(placed.orderBook).fills ensures f.sell.price == f.buy.price == Price(placed)(f.buy.asset) {
      assert Decided(f.buy, placed) && Decided(f.sell, placed);
    }
  }

  // ---------------------------------------------------------------- the largest match

  function BuySeq(fills: seq<Fill>): seq<Order> {
    if fills == [] then [] else [fills[0].buy] + BuySeq(fills[1..])
  }

  function SellSeq(fills: seq<Fill>): seq<Order> {
    if fills == [] then [] else [fills[0].sell] + SellSeq(fills[1..])
  }

  /** Another way to match the book: compatible pairs that use each of its orders at most once. */
  ghost predicate Matches(other: seq<Fill>, book: seq<Order>) {
    && (forall f :: f in other ==> f.buy.side.Buy? && f.sell.side.Sell? && Compatible(f.buy, f.sell))
    && multiset(BuySeq(other)) <= multiset(book) && multiset(SellSeq(other)) <= multiset(book)
  }

  /** Picking from fewer orders picks fewer. */
  lemma {:induction false} PickFewer(some: seq<Order>, orders: seq<Order>, p: Order -> bool)
    requires multiset(some) <= multiset(orders)
    ensures |Pick(some, p)| <= |Pick(orders, p)|
    decreases some
  {
    if some != [] {
      var i := FewerLeft(some, orders);
      PickFewer(some[1..], Splice(orders, i), p);
      hide Splice;
      PickCount(orders, i, p);
    }
  }

  lemma FewerLeft(some: seq<Order>, orders: seq<Order>) returns (i: nat)
    requires some != [] && multiset(some) <= multiset(orders)
    ensures i < |orders| && orders[i] == some[0] && multiset(some[1..]) <= multiset(Splice(orders, i))
  {
    hide Splice;
    var o := some[0];
    assert some == [o] + some[1..];
    assert o in multiset(orders);
    i := FirstPlace(o, orders);
    SpliceKeeps(orders, i);
    assert multiset(some) == multiset{o} + multiset(some[1..]);
    assert multiset(some[1..]) == multiset(some) - multiset{o} && multiset(Splice(orders, i)) == multiset(orders) - multiset{o};
  }

  lemma FirstPlace(o: Order, orders: seq<Order>) returns (i: nat)
    requires o in orders
    ensures i < |orders| && orders[i] == o
  {
    i :| i < |orders| && orders[i] == o;
  }

  lemma {:induction false} PickCount(orders: seq<Order>, i: nat, p: Order -> bool)
    requires i < |orders|
    ensures |Pick(orders, p)| == (if p(orders[i]) then 1 else 0) + |Pick(Splice(orders, i), p)|
  {
    if i == 0 {
      assert Splice(orders, 0) == orders[1..];
    } else {
      PickCount(orders[1..], i - 1, p);
      assert Splice(orders, i) == [orders[0]] + Splice(orders[1..], i - 1);
      PickFirst(orders[0], Splice(orders[1..], i - 1), p);
    }
  }

  lemma {:induction false} FillsWithinSides(fills: seq<Fill>, a: AssetId, bids: Order -> bool, asks: Order -> bool)
    requires forall f :: f in fills && f.buy.asset == a ==> bids(f.buy) && asks(f.sell)
    ensures |FillsIn(fills, a)| <= |Pick(BuySeq(fills), bids)| && |FillsIn(fills, a)| <= |Pick(SellSeq(fills), asks)|
  {
    if fills != [] {
      assert fills[0] in fills;
      FillsWithinSides(fills[1..], a, bids, asks);
      PickFirst(fills[0].buy, BuySeq(fills[1..]), bids);
      PickFirst(fills[0].sell, SellSeq(fills[1..]), asks);
    }
  }

  lemma {:induction false} SeqMembers(fills: seq<Fill>)
    ensures forall f :: f in fills ==> f.buy in BuySeq(fills) && f.sell in SellSeq(fills)
  {
    if fills != [] {
      SeqMembers(fills[1..]);
      assert fills == [fills[0]] + fills[1..];
    }
  }

  /** On each asset no way to match a day's book has more fills than the greedy one. */
  lemma LargestOnAsset(st: State, paused: bool, d: Draws, other: seq<Fill>, a: AssetId)
    requires Valid(st) && GoodDraws(d, st) && st.orderBook == []
    requires Matches(other, Placed(st, paused, d).orderBook)
    ensures |FillsIn(other, a)| <= |FillsIn(MatchBook(Placed(st, paused, d).orderBook).fills, a)|
  {
    var placed := Placed(st, paused, d);
    var book, asks := placed.orderBook, Asks(a, Price(placed)(a));
    DayFills(st, paused, d, a);
    DayBook(st, paused, d);
    SeqMembers(other);
    hide Placed, MatchBook, FillsIn, Pick;
    forall f | f in other && f.buy.asset == a ensures Bids(a)(f.buy) && asks(f.sell) {
      assert f.buy in multiset(BuySeq(other));
      assert f.buy in multiset(book);
    }
    FillsWithinSides(other, a, Bids(a), asks);
    PickFewer(BuySeq(other), book, Bids(a));
    PickFewer(SellSeq(other), book, asks);
  }

  function FillsOver(fills: seq<Fill>, ids: seq<AssetId>): nat {
    if ids == [] then 0 else FillsOver(fills, ids[..|ids| - 1]) + |FillsIn(fills, ids[|ids| - 1])|
  }

  lemma {:induction false} FillsOverFirst(f: Fill, fills: seq<Fill>, ids: seq<AssetId>)
    requires Distinct(ids)
    ensures FillsOver([f] + fills, ids) == FillsOver(fills, ids) + if f.buy.asset in ids then 1 else 0
  {
    if ids != [] {
      FillsOverFirst(f, fills, ids[..|ids| - 1]);
      FillsInFirst(f, fills, ids[|ids| - 1]);
      assert ids == ids[..|ids| - 1] + [ids[|ids| - 1]];
    }
  }

  lemma {:induction false} FillsOverAll(fills: seq<Fill>, ids: seq<AssetId>)
    requires Distinct(ids) && forall f :: f in fills ==> f.buy.asset in ids
    ensures FillsOver(fills, ids) == |fills|
  {
    if fills == [] {
      FillsOverNone(ids);
    } else {
      assert fills == [fills[0]] + fills[1..];
      FillsOverAll(fills[1..], ids);
      FillsOverFirst(fills[0], fills[1..], ids);
    }
  }

  lemma {:induction false} FillsOverNone(ids: seq<AssetId>)
    ensures FillsOver([], ids) == 0
  {
    if ids != [] {
      FillsOverNone(ids[..|ids| - 1]);
    }
  }

  lemma {:induction false} FillsOverMonotone(some: seq<Fill>, fills: seq<Fill>, ids: seq<AssetId>)
    requires forall a :: a in ids ==> |FillsIn(some, a)| <= |FillsIn(fills, a)|
    ensures FillsOver(some, ids) <= FillsOver(fills, ids)
  {
    if ids != [] {
      assert ids[|ids| - 1] in ids;
      FillsOverMonotone(some, fills, ids[..|ids| - 1]);
    }
  }

  /** The greedy match of a day's book is a largest one: no other way to match it makes more trades. */
  lemma DayLargest(st: State, paused: bool, d: Draws, other: seq<Fill>)
    requires Valid(st) && GoodDraws(d, st) && st.orderBook == []
    requires Matches(other, Placed(st, paused, d).orderBook)
    ensures |other| <= |MatchBook(Placed(st, paused, d).orderBook).fills|
  {
    hide MatchBook, Placed, FillsIn, Decided;
    var placed := Placed(st, paused, d);
    var fills := MatchBook(placed.orderBook).fills;
    forall a | a in st.assetIds ensures |FillsIn(other, a)| <= |FillsIn(fills, a)| {
      LargestOnAsset(st, paused, d, other, a);
    }
    FillsOverMonotone(other, fills, st.assetIds);
    BookAssets(st, paused, d, other);
    FillsOverAll(other, st.assetIds);
    FillsOverAll(fills, st.assetIds);
  }

  lemma BookAssets(st: State, paused: bool, d: Draws, other: seq<Fill>)
    requires Valid(st) && GoodDraws(d, st) && st.orderBook == []
    requires Matches(other, Placed(st, paused, d).orderBook)
    ensures forall f :: f in other ==> f.buy.asset in st.assetIds
    ensures forall f :: f in MatchBook(Placed(st, paused, d).orderBook).fills ==> f.buy.asset in st.assetIds
  {
    hide MatchBook, Placed, OneEach, AtPrices, Compatible, FillPrice;
    var book := Placed(st, paused, d).orderBook;
    AssetsListed(st, paused, d);
    BookMatched(book);
    SeqMembers(other);
    forall f | f in other ensures f.buy.asset in st.assetIds {
      assert f.buy in multiset(BuySeq(other));
      assert f.buy in multiset(book);
    }
  }

  lemma AssetsListed(st: State, paused: bool, d: Draws)
    requires Valid(st) && GoodDraws(d, st) && st.orderBook == []
    ensures forall o :: o in Placed(st, paused, d).orderBook ==> o.asset in st.assetIds
  {
    hide Placed, OneEach, AtPrices;
    PlacedKeeps(st, paused, d);
    DayBook(st, paused, d);
  }

  // ---------------------------------------------------------------- no trader sells what it has not got

  predicate Stocked(t: Trader) {
    forall a :: a in t.portfolio ==> t.portfolio[a] >= 0
  }

  /** The fill joins one asset, and if the trader sells in it then it holds what it offered. */
  predicate Delivers(f: Fill, id: TraderId, t: Trader) {
    f.buy.asset == f.sell.asset && (f.sell.trader == id ==> f.sell.quantity <= Holding(t, f.sell.asset))
  }

  lemma SettleStockedOne(st: State, f: Fill, id: TraderId)
    requires id in st.traders && Stocked(st.traders[id]) && Delivers(f, id, st.traders[id])
    ensures id in Settle(st, f).traders && Stocked(Settle(st, f).traders[id])
    ensures FillOf(f, id) == 0 ==> Settle(st, f).traders[id] == st.traders[id]
  {
  }

  lemma {:induction false} SettleStocked(st: State, fills: seq<Fill>, id: TraderId)
    requires id in st.traders && Stocked(st.traders[id]) && FillsOf(fills, id) <= 1
    requires forall f :: f in fills ==> Delivers(f, id, st.traders[id])
    ensures id in SettleAll(st, fills).traders && Stocked(SettleAll(st, fills).traders[id])
    decreases fills
  {
    hide Stocked, Settle;
    if fills != [] {
      assert fills[0] in fills;
      SettleStockedOne(st, fills[0], id);
      if FillOf(fills[0], id) == 0 {
        SettleStocked(Settle(st, fills[0]), fills[1..], id);
      } else {
        SettleUntouched(Settle(st, fills[0]), fills[1..], id);
      }
    }
  }

  lemma BookDelivers(st: State, paused: bool, d: Draws, id: TraderId)
    requires Valid(st) && GoodDraws(d, st) && st.orderBook == [] && id in st.traders
    ensures forall f :: f in MatchBook(Placed(st, paused, d).orderBook).fills ==> Delivers(f, id, st.traders[id])
  {
    hide MatchBook, Placed, OneEach, FillPrice;
    var placed := Placed(st, paused, d);
    PlacedKeeps(st, paused, d);
    DayBook(st, paused, d);
    BookMatched(placed.orderBook);
    forall f | f in MatchBook(placed.orderBook).fills ensures Delivers(f, id, st.traders[id]) {
      assert Decided(f.buy, placed) && Decided(f.sell, placed);
    }
  }

  /** A day leaves no trader short of any asset, whatever its strategy. */
  lemma DayStocked(st: State, paused: bool, d: Draws, id: TraderId)
    requires Valid(st) && GoodDraws(d, st) && st.orderBook == []
    requires id in st.traders && Stocked(st.traders[id])
    ensures id in NextDay(st, paused, d).traders && Stocked(NextDay(st, paused, d).traders[id])
  {
    hide MatchBook, SettleAll, Placed, Delivers, Worth;
    var placed := Placed(st, paused, d);
    PlacedKeeps(st, paused, d);
    OneFillEach(st, paused, d, id);
    BookDelivers(st, paused, d, id);
    SettleStocked(placed, MatchBook(placed.orderBook).fills, id);
  }

  /** In every run no trader, whatever its strategy, ever holds less than nothing of an asset. */
  lemma {:induction false} RunStocked(st: State, days: seq<Day>, id: TraderId)
    requires Valid(st) && GoodDays(st, days) && st.orderBook == []
    requires id in st.traders && Stocked(st.traders[id])
    ensures Run(st, days).orderBook == [] && id in Run(st, days).traders && Stocked(Run(st, days).traders[id])
  {
    hide Stocked, NextDay;
    if days != [] {
      var front, day := days[..|days| - 1], days[|days| - 1];
      RunStocked(st, front, id);
      DayGood(Run(st, front), st, day);
      DayKeeps(Run(st, front), day.paused, day.draws);
      DayStocked(Run(st, front), day.paused, day.draws, id);
    }
  }

  // ---------------------------------------------------------------- what a bidder pays

  lemma {:induction false} FillsOfOne(fills: seq<Fill>, f: Fill, id: TraderId)
    requires f in fills
    ensures FillsOf(fills, id) >= FillOf(f, id)
  {
    if fills[0] != f {
      FillsOfOne(fills[1..], f, id);
    }
  }

  lemma {:induction false} NoFillsOf(fills: seq<Fill>, id: TraderId)
    requires forall f :: f in fills ==> FillOf(f, id) == 0
    ensures FillsOf(fills, id) == 0
  {
    if fills != [] {
      assert fills[0] in fills;
      NoFillsOf(fills[1..], id);
    }
  }

  /** A trader whose only fill is a purchase pays for exactly that one. */
  lemma {:induction false} SettlePurchase(st: State, fills: seq<Fill>, f: Fill)
    requires f in fills && FillsOf(fills, f.buy.trader) <= 1 && f.buy.trader != f.sell.trader && Settles(st, f)
    ensures f.buy.trader in SettleAll(st, fills).traders
    ensures SettleAll(st, fills).traders[f.buy.trader]
         == Receive(st.traders[f.buy.trader], f.buy.asset, FillQuantity(f), FillCost(f))
    decreases fills
  {
    hide Receive, FillCost, FillQuantity;
    var id := f.buy.trader;
    if fills[0] == f {
      SettleUntouched(Settle(st, f), fills[1..], id);
    } else {
      FillsOfOne(fills[1..], f, id);
      SettleKeeps(st, fills[0]);
      SettlePurchase(Settle(st, fills[0]), fills[1..], f);
    }
  }

  /** How many units the k-th bid of a list gets from the k-th ask. */
  function Units(bids: seq<Order>, asks: seq<Order>, k: nat): nat
    requires k < |bids|
  {
    if k >= |asks| then 0 else if bids[k].quantity < asks[k].quantity then bids[k].quantity else asks[k].quantity
  }

  /** The day's bids on an asset, and the asks they can take. */
  function DayBids(st: State, paused: bool, d: Draws, a: AssetId): seq<Order>
    requires Valid(st) && GoodDraws(d, st)
  {
    Pick(Placed(st, paused, d).orderBook, Bids(a))
  }

  function DayAsks(st: State, paused: bool, d: Draws, a: AssetId): seq<Order>
    requires Valid(st) && GoodDraws(d, st)
  {
    Pick(Placed(st, paused, d).orderBook, Asks(a, Price(Placed(st, paused, d))(a)))
  }

  /** Valuation touches neither cash nor holdings. */
  lemma DaySettles(st: State, paused: bool, d: Draws, id: TraderId)
    requires Valid(st) && GoodDraws(d, st) && id in st.traders
    ensures var settled := SettleAll(Placed(st, paused, d), MatchBook(Placed(st, paused, d).orderBook).fills);
      && id in settled.traders && id in NextDay(st, paused, d).traders
      && NextDay(st, paused, d).traders[id].cash == settled.traders[id].cash
      && NextDay(st, paused, d).traders[id].portfolio == settled.traders[id].portfolio
  {
    hide MatchBook, SettleAll, Placed, Worth;
    PlacedKeeps(st, paused, d);
    SettleAllKeeps(Placed(st, paused, d), MatchBook(Placed(st, paused, d).orderBook).fills);
  }

  /** The k-th bidder on an asset gets the units of the k-th ask that it wants, and pays the price for each. */
  lemma DayPurchase(st: State, paused: bool, d: Draws, a: AssetId, k: nat)
    requires Valid(st) && GoodDraws(d, st) && st.orderBook == [] && k < |DayBids(st, paused, d, a)|
    ensures var bids, asks := DayBids(st, paused, d, a), DayAsks(st, paused, d, a);
      var id := bids[k].trader;
      && id in st.traders && id in NextDay(st, paused, d).traders
      && NextDay(st, paused, d).traders[id].cash
         == st.traders[id].cash - Units(bids, asks, k) as real * Price(Placed(st, paused, d))(a)
  {
    hide MatchBook, Placed, SettleAll, Settle, DayBids, DayAsks, Settles, NextDay, Price, Valid, GoodDraws, FillsOf;
    var placed := Placed(st, paused, d);
    var fills, bids, asks := MatchBook(placed.orderBook).fills, DayBids(st, paused, d, a), DayAsks(st, paused, d, a);
    var id := bids[k].trader;
    BidderKnown(st, paused, d, a, k);
    DaySettles(st, paused, d, id);
    if k < |asks| {
      PairFilled(st, paused, d, a, k);
      OneFillEach(st, paused, d, id);
      SettlePurchase(placed, fills, Fill(bids[k], asks[k]));
    } else {
      BidderUnfilled(st, paused, d, a, k);
      SettleUntouched(placed, fills, id);
    }
  }

  lemma BidderKnown(st: State, paused: bool, d: Draws, a: AssetId, k: nat)
    requires Valid(st) && GoodDraws(d, st) && st.orderBook == [] && k < |DayBids(st, paused, d, a)|
    ensures var placed, o := Placed(st, paused, d), DayBids(st, paused, d, a)[k];
      && o in placed.orderBook && o.trader in st.traders && placed.traders == st.traders
      && o.asset == a && o.side.Buy? && o.price == Price(placed)(a) && a in placed.assets
  {
    hide Placed, OneEach, AtPrices;
    PlacedKeeps(st, paused, d);
    DayBook(st, paused, d);
    PickMembers(Placed(st, paused, d).orderBook, Bids(a));
    assert DayBids(st, paused, d, a)[k] in DayBids(st, paused, d, a);
  }

  lemma PairFilled(st: State, paused: bool, d: Draws, a: AssetId, k: nat)
    requires Valid(st) && GoodDraws(d, st) && st.orderBook == []
    requires k < |DayBids(st, paused, d, a)| && k < |DayAsks(st, paused, d, a)|
    ensures var placed, f := Placed(st, paused, d), Fill(DayBids(st, paused, d, a)[k], DayAsks(st, paused, d, a)[k]);
      && f in MatchBook(placed.orderBook).fills
      && Settles(placed, f) && f.buy.trader != f.sell.trader && f.sell.price == Price(placed)(a)
  {
    hide Placed, MatchBook, OneEach, AtPrices, FillPrice, FillsIn;
    var placed := Placed(st, paused, d);
    var fills := MatchBook(placed.orderBook).fills;
    DayBook(st, paused, d);
    DayFills(st, paused, d, a);
    FillsInMembers(fills, a);
    BookMatched(placed.orderBook);
    PickMembers(placed.orderBook, Bids(a));
    PickMembers(placed.orderBook, Asks(a, Price(placed)(a)));
    var f := FillsIn(fills, a)[k];
    assert f in FillsIn(fills, a);
    assert Decided(f.buy, placed) && Decided(f.sell, placed);
    assert DayAsks(st, paused, d, a)[k] in DayAsks(st, paused, d, a);
  }

  lemma BidderUnfilled(st: State, paused: bool, d: Draws, a: AssetId, k: nat)
    requires Valid(st) && GoodDraws(d, st) && st.orderBook == []
    requires |DayAsks(st, paused, d, a)| <= k < |DayBids(st, paused, d, a)|
    ensures FillsOf(MatchBook(Placed(st, paused, d).orderBook).fills, DayBids(st, paused, d, a)[k].trader) == 0
  {
    hide Placed, MatchBook, FillPrice, FillsIn, Pick, AtPrices, Decided, Compatible;
    var placed := Placed(st, paused, d);
    var fills, bids := MatchBook(placed.orderBook).fills, DayBids(st, paused, d, a);
    DayBook(st, paused, d);
    DayFills(st, paused, d, a);
    FillsInMembers(fills, a);
    BookMatched(placed.orderBook);
    PickOneEach(placed.orderBook, Bids(a));
    PickMembers(placed.orderBook, Bids(a));
    assert bids[k] in bids;
    NotZipped(bids, DayAsks(st, paused, d, a), k);
    forall f | f in fills ensures FillOf(f, bids[k].trader) == 0 {
      SameTrader(placed.orderBook, f.sell, bids[k]);
      SameTrader(placed.orderBook, f.buy, bids[k]);
    }
    NoFillsOf(fills, bids[k].trader);
  }

  lemma NotZipped(bids: seq<Order>, asks: seq<Order>, k: nat)
    requires OneEach(bids) && |asks| <= k < |bids|
    ensures forall f :: f in Zip(bids, asks) ==> f.buy != bids[k]
  {
  }

  lemma SameTrader(book: seq<Order>, o: Order, x: Order)
    requires OneEach(book) && o in book && x in book
    ensures o.trader == x.trader ==> o == x
  {
  }

  lemma {:induction false} PickOneEach(orders: seq<Order>, p: Order -> bool)
    requires OneEach(orders)
    ensures OneEach(Pick(orders, p))
  {
    if orders != [] {
      PickOneEach(orders[1..], p);
      PickMembers(orders[1..], p);
      var rest := Pick(orders[1..], p);
      forall i | 0 <= i < |rest| ensures rest[i].trader != orders[0].trader {
        assert rest[i] in rest;
      }
    }
  }

  // ---------------------------------------------------------------- when a day leaves a trader in debt

  /** The trader bids for an asset, and the ask its bid meets costs more than its cash. */
  ghost predicate Overdraws(st: State, paused: bool, d: Draws, id: TraderId)
    requires Valid(st) && GoodDraws(d, st) && id in st.traders
  {
    exists a: AssetId, k: nat :: OverdrawsOn(st, paused, d, id, a, k)
  }

  predicate OverdrawsOn(st: State, paused: bool, d: Draws, id: TraderId, a: AssetId, k: nat)
    requires Valid(st) && GoodDraws(d, st) && id in st.traders
  {
    && k < |DayBids(st, paused, d, a)| && DayBids(st, paused, d, a)[k].trader == id
    && st.traders[id].cash
       < Units(DayBids(st, paused, d, a), DayAsks(st, paused, d, a), k) as real * Price(Placed(st, paused, d))(a)
  }

  /** A solvent trader of any strategy ends the day solvent exactly when its bid does not meet an ask beyond its cash. */
  lemma DaySolventIff(st: State, paused: bool, d: Draws, id: TraderId)
    requires Valid(st) && GoodDraws(d, st) && st.orderBook == []
    requires id in st.traders && Solvent(st.traders[id])
    ensures id in NextDay(st, paused, d).traders
    ensures Solvent(NextDay(st, paused, d).traders[id]) <==> !Overdraws(st, paused, d, id)
  {
    hide NextDay, Valid, GoodDraws, DayBids, DayAsks, Units, Price, Placed;
    DayStocked(st, paused, d, id);
    if Overdraws(st, paused, d, id) {
      var a: AssetId, k: nat :| OverdrawsOn(st, paused, d, id, a, k);
      DayPurchase(st, paused, d, a, k);
    } else if a: AssetId, k: nat :| k < |DayBids(st, paused, d, a)| && DayBids(st, paused, d, a)[k].trader == id {
      DayPurchase(st, paused, d, a, k);
      assert !OverdrawsOn(st, paused, d, id, a, k);
    } else {
      NoBidSolvent(st, paused, d, id);
    }
  }

  /** No day of the run leaves the trader in debt by the ask its bid meets. */
  ghost predicate NeverOverdraws(st: State, days: seq<Day>, id: TraderId)
    requires Valid(st) && GoodDays(st, days) && id in st.traders
  {
    days != [] ==>
      var front, day := days[..|days| - 1], days[|days| - 1];
      DayGood(Run(st, front), st, day);
      NeverOverdraws(st, front, id) && !Overdraws(Run(st, front), day.paused, day.draws, id)
  }

  /** The trader is solvent after every day of the run. */
  ghost predicate AlwaysSolvent(st: State, days: seq<Day>, id: TraderId)
    requires Valid(st) && GoodDays(st, days) && id in st.traders
  {
    Solvent(Run(st, days).traders[id]) && (days != [] ==> AlwaysSolvent(st, days[..|days| - 1], id))
  }

  /** Over a whole run a trader of any strategy stays solvent exactly when on no day its bid meets an ask beyond its cash. */
  lemma {:induction false} RunSolventIff(st: State, days: seq<Day>, id: TraderId)
    requires Valid(st) && GoodDays(st, days) && st.orderBook == []
    requires id in st.traders && Solvent(st.traders[id])
    ensures AlwaysSolvent(st, days, id) <==> NeverOverdraws(st, days, id)
  {
    hide NextDay, Overdraws, Solvent, GoodDraws;
    if days != [] {
      var front, day := days[..|days| - 1], days[|days| - 1];
      RunSolventIff(st, front, id);
      SolventStocked(st.traders[id]);
      RunStocked(st, front, id);
      DayGood(Run(st, front), st, day);
      if AlwaysSolvent(st, front, id) {
        DaySolventIff(Run(st, front), day.paused, day.draws, id);
      }
    }
  }

  lemma SolventStocked(t: Trader)
    requires Solvent(t)
    ensures Stocked(t)
  {
  }

  lemma NoBidSolvent(st: State, paused: bool, d: Draws, id: TraderId)
    requires Valid(st) && GoodDraws(d, st) && st.orderBook == []
    requires id in st.traders && Solvent(st.traders[id])
    requires forall a: AssetId, k: nat :: k < |DayBids(st, paused, d, a)| ==> DayBids(st, paused, d, a)[k].trader != id
    ensures id in NextDay(st, paused, d).traders && Solvent(NextDay(st, paused, d).traders[id])
  {
    hide MatchBook, Placed, SettleAll, FillPrice, OneEach, NextDay, Valid, GoodDraws, Decided, Pick, AtPrices, FillsOf;
    var placed := Placed(st, paused, d);
    var fills := MatchBook(placed.orderBook).fills;
    BookMatched(placed.orderBook);
    BookDelivers(st, paused, d, id);
    AsksPositive(st, paused, d);
    forall f | f in fills ensures Covered(f, id, st.traders[id]) {
      var bids := DayBids(st, paused, d, f.buy.asset);
      PickMembers(placed.orderBook, Bids(f.buy.asset));
      assert f.buy in bids;
    }
    OneFillEach(st, paused, d, id);
    PlacedTraders(st, paused, d);
    SettleSolvent(placed, fills, id);
    DaySettles(st, paused, d, id);
  }

  lemma PlacedTraders(st: State, paused: bool, d: Draws)
    requires Valid(st) && GoodDraws(d, st)
    ensures Placed(st, paused, d).traders == st.traders
  {
  }

  lemma AsksPositive(st: State, paused: bool, d: Draws)
    requires Valid(st) && GoodDraws(d, st) && st.orderBook == []
    ensures forall o :: o in Placed(st, paused, d).orderBook ==> o.price >= 0.0
  {
    var moved := Repriced(st, d);
    RepricedValid(st, d);
    if !paused {
      OrdersOnce(moved.traderIds, moved, d, 0);
      assert Placed(st, paused, d).orderBook == Orders(moved.traderIds, moved, d);
    }
  }

  // ---------------------------------------------------------------- aggressive buyers over every possible day

  /** A day on which trader id, in state t, draws quantity q of asset a at price p and tosses to buy. */
  ghost predicate Buying(st: State, d: Draws, id: TraderId, t: Trader, a: AssetId, p: real, q: nat) {
    && Valid(st) && GoodDraws(d, st) && st.orderBook == []
    && id in st.traders && st.traders[id] == t
    && st.assetIds != [] && st.assetIds[d.choices[id].asset] == a
    && d.choices[id].coin && d.choices[id].quantity == q
    && Price(Repriced(st, d))(a) == p
  }

  lemma {:induction false} OrdersHold(ids: seq<TraderId>, st: State, d: Draws, id: TraderId)
    requires Valid(st) && id in ids
    requires forall x :: x in ids ==> x in st.traders && x in d.choices && GoodDraw(d.choices[x], st)
    requires OrderOf(id, st, d.choices[id]).Some?
    ensures OrderOf(id, st, d.choices[id]).value in Orders(ids, st, d)
  {
    hide OrderOf;
    var front, last := ids[..|ids| - 1], ids[|ids| - 1];
    assert ids == front + [last];
    if id != last {
      OrdersHold(front, st, d, id);
    }
  }

  /** The place of an aggressive buyer's bid, for twice the quantity it drew, among the day's bids. */
  lemma AggressiveBids(st: State, d: Draws, id: TraderId, t: Trader, a: AssetId, p: real, q: nat) returns (k: nat)
    requires Buying(st, d, id, t, a, p, q) && t.strategy == Aggressive && t.cash >= p * q as real
    ensures k < |DayBids(st, false, d, a)| && DayBids(st, false, d, a)[k] == Order(id, a, Buy, 2 * q, p)
    ensures Price(Placed(st, false, d))(a) == p
    ensures forall s :: s in DayAsks(st, false, d, a) ==> s.quantity <= 10
  {
    hide Orders, Pick, Placed, Valid, GoodDraws, Repriced, Price, OneEach, AtPrices;
    var placed, o := Placed(st, false, d), Order(id, a, Buy, 2 * q, p);
    AggressiveOrder(st, d, id, t, a, p, q);
    PickMembers(placed.orderBook, Bids(a));
    PickMembers(placed.orderBook, Asks(a, Price(placed)(a)));
    DayBook(st, false, d);
    k :| k < |DayBids(st, false, d, a)| && DayBids(st, false, d, a)[k] == o;
  }

  lemma AggressiveOrder(st: State, d: Draws, id: TraderId, t: Trader, a: AssetId, p: real, q: nat)
    requires Buying(st, d, id, t, a, p, q) && t.strategy == Aggressive && t.cash >= p * q as real
    ensures Order(id, a, Buy, 2 * q, p) in Placed(st, false, d).orderBook
    ensures Price(Placed(st, false, d))(a) == p
  {
    hide Orders;
    var moved := Repriced(st, d);
    RepricedValid(st, d);
    AggressiveDecides(st, d, id, t, a, p, q);
    OrdersHold(moved.traderIds, moved, d, id);
    assert Placed(st, false, d).orderBook == Orders(moved.traderIds, moved, d);
  }

  lemma AggressiveDecides(st: State, d: Draws, id: TraderId, t: Trader, a: AssetId, p: real, q: nat)
    requires Buying(st, d, id, t, a, p, q) && t.strategy == Aggressive && t.cash >= p * q as real
    ensures OrderOf(id, Repriced(st, d), d.choices[id]) == Some(Order(id, a, Buy, 2 * q, p))
  {
    assert a in st.assetIds;
  }

  function Sellers(id: TraderId, t: Trader, a: AssetId, p: real): State {
    State([a], map[a := Asset(p, 0.0, p)], [id, id + 1],
          map[id := t, id + 1 := Trader(0.0, map[a := 10], Random, 0.0)], [], [], 0)
  }

  function SellingDraws(id: TraderId, a: AssetId, q: nat): Draws {
    Draws(0.0, map[a := 0.5], map[id := Draw(0, q, true), id + 1 := Draw(0, 10, false)])
  }

  lemma SellersMeet(id: TraderId, t: Trader, a: AssetId, p: real, q: nat)
    requires p >= 1.0 && 1 <= q <= 10 && t.strategy == Aggressive && t.cash >= p * q as real
    ensures Buying(Sellers(id, t, a, p), SellingDraws(id, a, q), id, t, a, p, q)
    ensures Placed(Sellers(id, t, a, p), false, SellingDraws(id, a, q)).orderBook
         == [Order(id, a, Buy, 2 * q, p), Order(id + 1, a, Sell, 10, p)]
  {
    hide Orders, Repriced, OrderOf;
    var st, d := Sellers(id, t, a, p), SellingDraws(id, a, q);
    SellersRepriced(id, t, a, p, q);
    SellersDecide(id, t, a, p, q);
    TwoOrders(Repriced(st, d), d, id, id + 1);
  }

  lemma SellersRepriced(id: TraderId, t: Trader, a: AssetId, p: real, q: nat)
    requires p >= 1.0 && 1 <= q <= 10
    ensures var st, d := Sellers(id, t, a, p), SellingDraws(id, a, q);
      Valid(st) && GoodDraws(d, st) && Repriced(st, d) == st.(day := 1)
  {
    var st := Sellers(id, t, a, p);
    assert Moved(st.assets[a], 0.0, 0.5) == Asset(p, 0.0, p);
    assert Repriced(st, SellingDraws(id, a, q)).assets == st.assets;
  }

  lemma SellersDecide(id: TraderId, t: Trader, a: AssetId, p: real, q: nat)
    requires p >= 1.0 && 1 <= q <= 10 && t.strategy == Aggressive && t.cash >= p * q as real
    ensures var st, d := Sellers(id, t, a, p).(day := 1), SellingDraws(id, a, q);
      && OrderOf(id, st, d.choices[id]) == Some(Order(id, a, Buy, 2 * q, p))
      && OrderOf(id + 1, st, d.choices[id + 1]) == Some(Order(id + 1, a, Sell, 10, p))
  {
  }

  lemma TwoOrders(st: State, d: Draws, x: TraderId, y: TraderId)
    requires Valid(st) && GoodDraws(d, st) && x in st.traderIds && y in st.traderIds
    requires OrderOf(x, st, d.choices[x]).Some? && OrderOf(y, st, d.choices[y]).Some?
    ensures Orders([x, y], st, d) == [OrderOf(x, st, d.choices[x]).value, OrderOf(y, st, d.choices[y]).value]
  {
    assert [x, y][..1] == [x] && [x][..0] == [];
    assert Orders([x][..0], st, d) == [];
    assert Orders([x], st, d) == [OrderOf(x, st, d.choices[x]).value];
  }

  /** An aggressive buyer that cannot pay for the ten units a seller may offer meets a day that leaves it in debt. */
  lemma AggressiveOwes(id: TraderId, t: Trader, a: AssetId, p: real, q: nat) returns (st: State, d: Draws)
    requires p >= 1.0 && 1 <= q <= 10 && t.strategy == Aggressive && t.cash >= p * q as real
    requires t.cash < Min(2 * q, 10) as real * p
    ensures Buying(st, d, id, t, a, p, q)
    ensures id in NextDay(st, false, d).traders && NextDay(st, false, d).traders[id].cash < 0.0
  {
    hide NextDay, Orders, Repriced;
    st, d := Sellers(id, t, a, p), SellingDraws(id, a, q);
    SellersMeet(id, t, a, p, q);
    var bid, ask := Order(id, a, Buy, 2 * q, p), Order(id + 1, a, Sell, 10, p);
    var k := AggressiveBids(st, d, id, t, a, p, q);
    PickTwo(bid, ask, Bids(a));
    PickTwo(bid, ask, Asks(a, p));
    DayPurchase(st, false, d, a, k);
  }

  lemma PickTwo(x: Order, y: Order, p: Order -> bool)
    ensures Pick([x, y], p) == (if p(x) then [x] else []) + (if p(y) then [y] else [])
  {
    PickFirst(x, [y], p);
    PickFirst(y, [], p);
    assert [x, y] == [x] + [y] && [y] == [y] + [];
  }

  /**
    An aggressive trader that tosses to buy is safe on every day it may meet exactly when it can pay for
    twice the quantity it drew, or for ten units if those are fewer.
  */
  lemma AggressiveSafeIff(id: TraderId, t: Trader, a: AssetId, p: real, q: nat)
    requires p >= 1.0 && 1 <= q <= 10 && t.strategy == Aggressive && t.cash >= p * q as real
    ensures (forall st, d :: Buying(st, d, id, t, a, p, q) ==>
              id in NextDay(st, false, d).traders && NextDay(st, false, d).traders[id].cash >= 0.0)
       <==> t.cash >= Min(2 * q, 10) as real * p
  {
    hide NextDay, Price;
    if t.cash >= Min(2 * q, 10) as real * p {
      forall st, d | Buying(st, d, id, t, a, p, q)
        ensures id in NextDay(st, false, d).traders && NextDay(st, false, d).traders[id].cash >= 0.0
      {
        AggressivePays(st, d, id, t, a, p, q);
      }
    } else {
      var st, d := AggressiveOwes(id, t, a, p, q);
    }
  }

  lemma AggressivePays(st: State, d: Draws, id: TraderId, t: Trader, a: AssetId, p: real, q: nat)
    requires Buying(st, d, id, t, a, p, q)
    requires p >= 1.0 && t.strategy == Aggressive && t.cash >= p * q as real && t.cash >= Min(2 * q, 10) as real * p
    ensures id in NextDay(st, false, d).traders && NextDay(st, false, d).traders[id].cash >= 0.0
  {
    hide NextDay, DayBids, DayAsks, Price, Placed, Valid, GoodDraws;
    var k := AggressiveBids(st, d, id, t, a, p, q);
    DayPurchase(st, false, d, a, k);
    var bids, asks := DayBids(st, false, d, a), DayAsks(st, false, d, a);
    if k < |asks| {
      assert asks[k] in asks;
    }
    CostBound(Units(bids, asks, k), Min(2 * q, 10), Price(Placed(st, false, d))(a), p);
  }

  lemma CostBound(units: nat, least: nat, price: real, p: real)
    requires units <= least && price == p && p >= 0.0
    ensures units as real * price <= least as real * p
  {
    MulMonotone(units as real, least as real, p, p);
  }
}
