/**
 Holdings and open legs: what each engine step does to the holding of an asset, against the shares
 and bets of the legs that trade it.
 */
module LegHoldings {
  import opened Totals
  import opened Arithmetic
  import opened Positions
  import opened Entries
  import opened Engine
  import opened Exits
  import opened BooksAgree
  import opened Holdings
  import A = Accounting

  // ---------- Legs by asset ----------

  /** A leg trades its token, or its market under the market's own name. */
  predicate Trades(mid: string, leg: Leg, asset: string) { asset == if leg.token == "" then mid else leg.token }

  function LegShares(markets: map<string, Leg>, asset: string): map<string, real> {
    map mid | mid in markets :: if Trades(mid, markets[mid], asset) then markets[mid].shares else 0.0
  }

  function LegBets(markets: map<string, Leg>, asset: string): map<string, real> {
    map mid | mid in markets :: if Trades(mid, markets[mid], asset) then markets[mid].bet else 0.0
  }

  /** The shares of the legs that trade the asset, and what they cost. */
  ghost function LegLot(markets: map<string, Leg>, asset: string): Lot {
    Lot(Total(LegShares(markets, asset)), Total(LegBets(markets, asset)))
  }

  function LegOf(mid: string, leg: Leg, asset: string): Lot {
    if Trades(mid, leg, asset) then Lot(leg.shares, leg.bet) else NOTHING
  }

  /** The legs along an order, one at a time. */
  function AlongLot(markets: map<string, Leg>, asset: string, order: seq<string>): Lot
    requires forall mid :: mid in order ==> mid in markets
  {
    if order == [] then NOTHING else
      var mid := order[|order| - 1];
      AlongLot(markets, asset, order[..|order| - 1]).Plus(LegOf(mid, markets[mid], asset))
  }

  lemma {:induction false} AlongIsSum(markets: map<string, Leg>, asset: string, order: seq<string>)
    requires forall mid :: mid in order ==> mid in markets
    ensures AlongLot(markets, asset, order)
         == Lot(Sum(Along(LegShares(markets, asset), order)), Sum(Along(LegBets(markets, asset), order)))
  {
    if order != [] {
      AlongIsSum(markets, asset, order[..|order| - 1]);
      AlongLast(LegShares(markets, asset), order);
      AlongLast(LegBets(markets, asset), order);
    }
  }

  lemma AlongIsTotal(markets: map<string, Leg>, asset: string, order: seq<string>)
    requires Enumerates(order, markets.Keys)
    ensures AlongLot(markets, asset, order) == LegLot(markets, asset)
  {
    AlongIsSum(markets, asset, order);
    TotalAlong(LegShares(markets, asset), order);
    TotalAlong(LegBets(markets, asset), order);
  }

  // ---------- Entry ----------

  ghost predicate AfterPurchases(before: map<string, A.AssetHolding>, after: map<string, A.AssetHolding>,
                                 asset: string, bought: Lot)
  {
    Held(after, asset) == Held(before, asset).Plus(bought)
  }

  lemma OnePurchase(before: map<string, A.AssetHolding>, h: map<string, A.AssetHolding>, buys: string, market: string,
                    lot: Lot, asset: string, bought: Lot)
    requires AfterPurchases(before, h, asset, bought)
    ensures AfterPurchases(before, A.Bought(h, buys, market, lot.shares, lot.basis), asset,
                           if buys == asset then bought.Plus(lot) else bought)
  {
  }

  lemma BuyHoldings(l: A.Ledger, key: A.TradeKey, pid: string, capital: real, paid: real, asset: string, market: string,
                    shares: real)
    requires key !in l.recorded
    ensures l.RecordBuyDedup(key, pid, capital, paid, asset, market, shares).holdings
         == A.Bought(l.holdings, asset, market, shares, capital)
  {
  }

  lemma OneLegBought(before: map<string, A.AssetHolding>, h: map<string, A.AssetHolding>, mid: string, leg: Leg,
                     asset: string, bought: Lot)
    requires AfterPurchases(before, h, asset, bought)
    ensures AfterPurchases(before, A.Bought(h, Asset(mid, leg), mid, leg.shares, leg.bet), asset,
                           bought.Plus(LegOf(mid, leg, asset)))
  {
    OnePurchase(before, h, Asset(mid, leg), mid, Lot(leg.shares, leg.bet), asset, bought);
    AssetTraded(mid, leg, asset);
    NothingMore(bought);
  }

  lemma AssetTraded(mid: string, leg: Leg, asset: string)
    ensures Asset(mid, leg) == asset <==> Trades(mid, leg, asset)
  {
  }

  lemma NothingMore(lot: Lot)
    ensures lot.Plus(NOTHING) == lot
  {
  }

  lemma {:induction false} EntryHolds(l: A.Ledger, pid: string, markets: map<string, Leg>, feeEach: real,
                                      order: seq<string>, asset: string)
    requires forall mid :: mid in order ==> mid in markets
    requires forall i, j :: 0 <= i < j < |order| ==> order[i] != order[j]
    requires forall mid :: A.EntryKey(pid, mid) !in l.recorded
    ensures AfterPurchases(l.holdings, BookEntry(l, pid, markets, feeEach, order).holdings, asset,
                           AlongLot(markets, asset, order))
  {
    if order != [] {
      var n := |order| - 1;
      var before := BookEntry(l, pid, markets, feeEach, order[..n]);
      var bought := AlongLot(markets, asset, order[..n]);
      assert AfterPurchases(l.holdings, before.holdings, asset, bought) by {
        EntryHolds(l, pid, markets, feeEach, order[..n], asset);
      }
      assert A.EntryKey(pid, order[n]) !in before.recorded by { EntryRecords(l, pid, markets, feeEach, order[..n]); }
      var mid, leg := order[n], markets[order[n]];
      BuyHoldings(before, A.EntryKey(pid, mid), pid, leg.bet, feeEach, Asset(mid, leg), mid, leg.shares);
      OneLegBought(l.holdings, before.holdings, mid, leg, asset, bought);
    }
  }

  // ---------- Sales ----------

  /**
   What sales of an asset leave of its holding: nothing if there was one and a thousandth of a share
   or less is left at the end; the rest otherwise.
   */
  ghost predicate AfterSales(before: map<string, A.AssetHolding>, after: map<string, A.AssetHolding>, asset: string,
                             sold: Lot, some: bool)
  {
    if some && Held(before, asset).shares - sold.shares <= 0.001 then asset !in after
    else (asset in after <==> asset in before) && Held(after, asset) == Held(before, asset).Minus(sold)
  }

  lemma NoSaleYet(h: map<string, A.AssetHolding>, asset: string)
    ensures AfterSales(h, h, asset, NOTHING, false)
  {
  }

  lemma OneSale(before: map<string, A.AssetHolding>, h: map<string, A.AssetHolding>, sells: string, lot: Lot,
                asset: string, sold: Lot, some: bool)
    requires AfterSales(before, h, asset, sold, some) && lot.shares >= 0.0
    ensures AfterSales(before, A.Sold(h, sells, lot.shares, lot.basis), asset,
                       if sells == asset then sold.Plus(lot) else sold, some || sells == asset)
  {
  }

  // ---------- Resolution and liquidation ----------

  /** Some leg along the order trades the asset; skipped legs count only if `all`. */
  predicate Touches(markets: map<string, Leg>, asset: string, order: seq<string>, all: bool)
    requires forall mid :: mid in order ==> mid in markets
  {
    order != [] &&
    var mid := order[|order| - 1];
    || Touches(markets, asset, order[..|order| - 1], all)
    || (Trades(mid, markets[mid], asset) && (all || !Skipped(markets[mid])))
  }

  lemma OneLegSold(before: map<string, A.AssetHolding>, l: A.Ledger, key: A.TradeKey, pid: string, proceeds: real,
                   paid: real, mid: string, leg: Leg, lot: Lot, asset: string, sold: Lot, some: bool)
    requires AfterSales(before, l.holdings, asset, sold, some) && key !in l.recorded && lot.shares >= 0.0
    ensures var r := l.RecordSellDedup(key, pid, proceeds, lot.basis, paid, Asset(mid, leg), lot.shares);
      AfterSales(before, r.holdings, asset, if Trades(mid, leg, asset) then sold.Plus(lot) else sold,
                 some || Trades(mid, leg, asset))
  {
    AssetTraded(mid, leg, asset);
    OneSale(before, l.holdings, Asset(mid, leg), lot, asset, sold, some);
  }

  /** One leg at resolution: sold unless it is empty. */
  lemma OneLegResolved(before: map<string, A.AssetHolding>, l: A.Ledger, pid: string, proceeds: real, mid: string,
                       leg: Leg, asset: string, sold: Lot, some: bool)
    requires AfterSales(before, l.holdings, asset, sold, some) && LegBookable(leg)
    requires Skipped(leg) || A.ResolveKey(pid, mid) !in l.recorded
    ensures var r := if Skipped(leg) then l else
        l.RecordSellDedup(A.ResolveKey(pid, mid), pid, proceeds, leg.bet, 0.0, Asset(mid, leg), leg.shares);
      AfterSales(before, r.holdings, asset, sold.Plus(LegOf(mid, leg, asset)),
                 some || (Trades(mid, leg, asset) && !Skipped(leg)))
  {
    if !Skipped(leg) {
      OneLegSold(before, l, A.ResolveKey(pid, mid), pid, proceeds, 0.0, mid, leg, Lot(leg.shares, leg.bet), asset, sold,
                 some);
    }
    NothingMore(sold);
  }

  lemma {:induction false} ResolutionHolds(l: A.Ledger, pid: string, markets: map<string, Leg>, winner: string,
                                           payout: real, order: seq<string>, asset: string)
    requires forall mid :: mid in order ==> mid in markets
    requires forall i, j :: 0 <= i < j < |order| ==> order[i] != order[j]
    requires LegsBookable(markets) && forall mid :: A.ResolveKey(pid, mid) !in l.recorded
    ensures AfterSales(l.holdings, BookResolution(l, pid, markets, winner, payout, order).holdings, asset,
                       AlongLot(markets, asset, order), Touches(markets, asset, order, false))
  {
    if order == [] {
      NoSaleYet(l.holdings, asset);
    } else {
      var n := |order| - 1;
      var before := BookResolution(l, pid, markets, winner, payout, order[..n]);
      var sold, some := AlongLot(markets, asset, order[..n]), Touches(markets, asset, order[..n], false);
      assert AfterSales(l.holdings, before.holdings, asset, sold, some) by {
        ResolutionHolds(l, pid, markets, winner, payout, order[..n], asset);
      }
      assert A.ResolveKey(pid, order[n]) !in before.recorded by {
        ResolutionRecords(l, pid, markets, winner, payout, order[..n]);
      }
      assert LegBookable(markets[order[n]]);
      OneLegResolved(l.holdings, before, pid, if order[n] == winner then payout else 0.0, order[n], markets[order[n]],
                     asset, sold, some);
    }
  }

  lemma {:induction false} SaleHolds(l: A.Ledger, pid: string, markets: map<string, Leg>, bids: map<string, real>,
                                     takerFee: real, order: seq<string>, asset: string)
    requires forall mid :: mid in order ==> mid in markets
    requires forall i, j :: 0 <= i < j < |order| ==> order[i] != order[j]
    requires LegsBookable(markets) && forall mid :: A.LiquidateKey(pid, mid) !in l.recorded
    ensures AfterSales(l.holdings, BookSale(l, pid, markets, bids, takerFee, order).holdings, asset,
                       AlongLot(markets, asset, order), Touches(markets, asset, order, true))
  {
    if order == [] {
      NoSaleYet(l.holdings, asset);
    } else {
      var n := |order| - 1;
      var mid, leg := order[n], markets[order[n]];
      var before := BookSale(l, pid, markets, bids, takerFee, order[..n]);
      var sold, some := AlongLot(markets, asset, order[..n]), Touches(markets, asset, order[..n], true);
      assert AfterSales(l.holdings, before.holdings, asset, sold, some) by {
        SaleHolds(l, pid, markets, bids, takerFee, order[..n], asset);
      }
      assert LegBookable(leg);
      assert A.LiquidateKey(pid, mid) !in before.recorded by {
        SaleRecords(l, pid, markets, bids, takerFee, order[..n]);
      }
      var proceeds := LegProceeds(mid, leg, bids);
      OneLegSold(l.holdings, before, A.LiquidateKey(pid, mid), pid, proceeds, Product(takerFee, proceeds), mid, leg,
                 Lot(leg.shares, leg.bet), asset, sold, some);
      NothingMore(sold);
    }
  }

  // ---------- Exits ----------

  /** What one fill sells of the asset, at the leg's cost per share. */
  function FillLot(markets: map<string, Leg>, f: ExitFill, asset: string): Lot {
    if Effective(markets, f) && Trades(f.market, markets[f.market], asset) then
      Lot(f.shares, Product(CostPerShare(markets[f.market]), f.shares))
    else NOTHING
  }

  function FillsLot(markets: map<string, Leg>, fills: seq<ExitFill>, asset: string): Lot {
    if fills == [] then NOTHING
    else FillsLot(markets, fills[..|fills| - 1], asset).Plus(FillLot(markets, fills[|fills| - 1], asset))
  }

  predicate FillsTouch(markets: map<string, Leg>, fills: seq<ExitFill>, asset: string) {
    exists i :: 0 <= i < |fills| && Effective(markets, fills[i])
                && Trades(fills[i].market, markets[fills[i].market], asset)
  }

  lemma FillsTouchStep(markets: map<string, Leg>, fills: seq<ExitFill>, asset: string)
    requires fills != []
    ensures var n := |fills| - 1;
      FillsTouch(markets, fills, asset)
      <==> || FillsTouch(markets, fills[..n], asset)
           || (Effective(markets, fills[n]) && Trades(fills[n].market, markets[fills[n].market], asset))
  {
    var n := |fills| - 1;
    assert forall i :: 0 <= i < n ==> fills[..n][i] == fills[i];
  }

  lemma OneFillHolds(before: map<string, A.AssetHolding>, l: A.Ledger, pid: string, markets: map<string, Leg>,
                     f: ExitFill, takerFee: real, asset: string, sold: Lot, some: bool)
    requires AfterSales(before, l.holdings, asset, sold, some)
    requires Effective(markets, f) ==> A.ExitKey(pid, f.market) !in l.recorded
    ensures AfterSales(before, BookExit(l, pid, markets, f, takerFee).holdings, asset,
                       sold.Plus(FillLot(markets, f, asset)),
                       some || (Effective(markets, f) && Trades(f.market, markets[f.market], asset)))
  {
    NothingMore(sold);
    if Effective(markets, f) {
      var leg := markets[f.market];
      var proceeds := Product(f.shares, f.price);
      OneLegSold(before, l, A.ExitKey(pid, f.market), pid, proceeds, Product(takerFee, proceeds), f.market, leg,
                 Lot(f.shares, Product(CostPerShare(leg), f.shares)), asset, sold, some);
    }
  }

  lemma {:induction false} ExitHolds(l: A.Ledger, pid: string, markets: map<string, Leg>, fills: seq<ExitFill>,
                                     takerFee: real, asset: string)
    requires Fresh(l.recorded, pid, markets, fills)
    ensures AfterSales(l.holdings, BookExits(l, pid, markets, fills, takerFee).holdings, asset,
                       FillsLot(markets, fills, asset), FillsTouch(markets, fills, asset))
  {
    if fills == [] {
      NoSaleYet(l.holdings, asset);
    } else {
      var n := |fills| - 1;
      var before := BookExits(l, pid, markets, fills[..n], takerFee);
      assert AfterSales(l.holdings, before.holdings, asset, FillsLot(markets, fills[..n], asset),
                        FillsTouch(markets, fills[..n], asset)) by {
        FreshPrefix(l.recorded, pid, markets, fills);
        ExitHolds(l, pid, markets, fills[..n], takerFee, asset);
      }
      assert Effective(markets, fills[n]) ==> A.ExitKey(pid, fills[n].market) !in before.recorded by {
        ExitRecords(l, pid, markets, fills[..n], takerFee, fills[n].market);
        assert forall i :: 0 <= i < n ==> fills[..n][i] == fills[i];
      }
      OneFillHolds(l.holdings, before, pid, markets, fills[n], takerFee, asset, FillsLot(markets, fills[..n], asset),
                   FillsTouch(markets, fills[..n], asset));
      FillsTouchStep(markets, fills, asset);
    }
  }

  // ---------- What exits leave of the legs ----------

  lemma LegSharesUpdate(markets: map<string, Leg>, mid: string, leg: Leg, asset: string)
    requires mid in markets
    ensures Total(LegShares(markets[mid := leg], asset))
         == Total(LegShares(markets, asset)) + LegOf(mid, leg, asset).shares - LegOf(mid, markets[mid], asset).shares
  {
    var now := LegOf(mid, leg, asset).shares;
    assert LegShares(markets[mid := leg], asset) == LegShares(markets, asset)[mid := now];
    TotalUpdate(LegShares(markets, asset), mid, now);
  }

  lemma LegBetsUpdate(markets: map<string, Leg>, mid: string, leg: Leg, asset: string)
    requires mid in markets
    ensures Total(LegBets(markets[mid := leg], asset))
         == Total(LegBets(markets, asset)) + LegOf(mid, leg, asset).basis - LegOf(mid, markets[mid], asset).basis
  {
    var now := LegOf(mid, leg, asset).basis;
    assert LegBets(markets[mid := leg], asset) == LegBets(markets, asset)[mid := now];
    TotalUpdate(LegBets(markets, asset), mid, now);
  }

  lemma LegLotUpdate(markets: map<string, Leg>, mid: string, leg: Leg, asset: string, sold: Lot)
    requires mid in markets && LegOf(mid, leg, asset) == LegOf(mid, markets[mid], asset).Minus(sold)
    ensures LegLot(markets[mid := leg], asset) == LegLot(markets, asset).Minus(sold)
  {
    LegSharesUpdate(markets, mid, leg, asset);
    LegBetsUpdate(markets, mid, leg, asset);
  }

  lemma SoldAtCost(leg: Leg, filled: real)
    requires SoundLeg(leg) && 0.0 < filled <= leg.shares
    ensures ReducedLeg(leg, filled)
         == leg.(shares := leg.shares - filled, bet := leg.bet - Product(CostPerShare(leg), filled))
  {
    QuotientNonNegative(leg.bet, leg.shares);
    ProductGrows(filled, leg.shares, CostPerShare(leg));
    DivisionBack(leg.bet, leg.shares);
  }

  lemma FillReducesLeg(markets: map<string, Leg>, f: ExitFill, asset: string)
    requires Effective(markets, f) && SoundLegs(markets) && f.shares <= markets[f.market].shares
    ensures LegOf(f.market, ReducedLeg(markets[f.market], f.shares), asset)
         == LegOf(f.market, markets[f.market], asset).Minus(FillLot(markets, f, asset))
  {
    assert SoundLeg(markets[f.market]);
    SoldAtCost(markets[f.market], f.shares);
  }

  lemma Taken(all: Lot, sold: Lot, more: Lot)
    ensures all.Minus(sold).Minus(more) == all.Minus(sold.Plus(more)) && all.Minus(NOTHING) == all
  {
  }

  /** After fresh fills within what is held, the legs hold what they did less what the fills sold. */
  lemma {:induction false} ExitLegs(recorded: set<A.TradeKey>, pid: string, markets: map<string, Leg>,
                                    fills: seq<ExitFill>, takerFee: real, asset: string)
    requires Fresh(recorded, pid, markets, fills) && NoOversell(markets, fills) && SoundLegs(markets)
    ensures LegLot(TallyFills(markets, fills, takerFee).markets, asset)
         == LegLot(markets, asset).Minus(FillsLot(markets, fills, asset))
  {
    var all := LegLot(markets, asset);
    if fills == [] {
      Taken(all, NOTHING, NOTHING);
    } else {
      var n := |fills| - 1;
      var sold, more := FillsLot(markets, fills[..n], asset), FillLot(markets, fills[n], asset);
      var before := TallyFills(markets, fills[..n], takerFee);
      assert LegLot(before.markets, asset) == all.Minus(sold) by {
        FreshPrefix(recorded, pid, markets, fills);
        ExitLegs(recorded, pid, markets, fills[..n], takerFee, asset);
      }
      Taken(all, sold, more);
      Taken(all.Minus(sold), more, more);
      LastFillLegs(recorded, pid, markets, fills, takerFee, asset);
    }
  }

  lemma LastFillLegs(recorded: set<A.TradeKey>, pid: string, markets: map<string, Leg>, fills: seq<ExitFill>,
                     takerFee: real, asset: string)
    requires fills != [] && Fresh(recorded, pid, markets, fills) && NoOversell(markets, fills) && SoundLegs(markets)
    ensures var n := |fills| - 1;
      LegLot(TallyFills(markets, fills, takerFee).markets, asset)
      == LegLot(TallyFills(markets, fills[..n], takerFee).markets, asset).Minus(FillLot(markets, fills[n], asset))
  {
    var n := |fills| - 1;
    var f := fills[n];
    var before := TallyFills(markets, fills[..n], takerFee);
    TallyKeepsLegs(markets, fills[..n], takerFee);
    if Effective(markets, f) {
      assert before.markets[f.market] == markets[f.market] by {
        assert forall i :: 0 <= i < n ==> fills[..n][i] == fills[i];
        UnnamedLeg(markets, fills[..n], takerFee, f.market);
      }
      FillReducesLeg(markets, f, asset);
      LegLotUpdate(before.markets, f.market, ReducedLeg(markets[f.market], f.shares), asset,
                   FillLot(markets, f, asset));
    } else {
      Taken(LegLot(before.markets, asset), NOTHING, NOTHING);
    }
  }
}
