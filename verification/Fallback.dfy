/**
 The optimiser's opportunities from evaluation to settlement. Entered as found, each leg holds the
 shares the optimiser chose, so the worst winner pays exactly the guaranteed amount.
 */
module Fallback {
  import opened Totals
  import opened Arithmetic
  import opened Arbitrage
  import opened Detection
  import opened Evaluation
  import opened Riskless
  import F = FrankWolfe
  import P = Positions
  import T = Trades

  /** The opportunity `o` is the optimiser's result on constraint `c`, which the direct check rejected. */
  ghost predicate FoundByFallback(c: Constraint, o: Opportunity, book: BookView, config: EvalConfig, now: real,
                                  originTs: real)
  {
    && c.markets != [] && config.capital > 0.0 && config.feeRate >= 0.0 && config.minProfit > 0.0 && config.maxIter > 0
    && FindArb(c, book, config).Some? && FindArb(c, book, config).value.methodName == "polytope_fw"
    && o == OpportunityOf(c, FindArb(c, book, config).value, book, config, now, originTs)
  }

  /** An entry that buys `y` shares at these prices. */
  ghost predicate BuysShares(e: P.Entry, ids: seq<string>, yes: seq<real>, y: seq<real>) {
    && |ids| == |yes| == |y| && e.marketIds == ids && e.methodName == "polytope_fw" && !e.isSell
    && e.prices == Collect(Zip(ids, yes)) && e.bets == Collect(Zip(ids, Costs(yes, y)))
    && forall i :: 0 <= i < |yes| ==> yes[i] > 0.0
  }

  function Costs(yes: seq<real>, y: seq<real>): (r: seq<real>)
    requires |yes| == |y|
    ensures |r| == |y|
  {
    seq(|y|, i requires 0 <= i < |y| => Product(y[i], yes[i]))
  }

  lemma FallbackHasNoSell()
    ensures !P.ContainsSell("polytope_fw")
  {
    SellNeedsAnS("polytope_fw");
  }

  lemma SharesLeg(e: P.Entry, ids: seq<string>, yes: seq<real>, y: seq<real>, mid: string)
    requires BuysShares(e, ids, yes, y) && mid in ids
    ensures var i := LastIndex(ids, mid);
      P.EntryLeg(e, mid).entryPrice == yes[i] > 0.0 && P.EntryLeg(e, mid).bet == Product(y[i], yes[i])
  {
    ZipAt(ids, yes, mid);
    ZipAt(ids, Costs(yes, y), mid);
  }

  lemma BuyPays(e: P.Entry, p: P.Portfolio, winner: string)
    requires e.methodName == "polytope_fw" && winner in e.marketIds && P.EntryLeg(e, winner).entryPrice > 0.0
    ensures P.Payout(p.NewPosition(e), winner) == P.EntryLeg(e, winner).bet / P.EntryLeg(e, winner).entryPrice
  {
    FallbackHasNoSell();
  }

  lemma QuotientOfProduct(paid: real, bet: real, price: real, shares: real)
    requires price > 0.0 && bet == Product(shares, price) && paid == bet / price
    ensures paid == shares
  {
    UniqueQuotient(bet, price, shares);
  }

  /** Whoever wins, the entry pays the shares of its leg. */
  lemma SharesPay(e: P.Entry, ids: seq<string>, yes: seq<real>, y: seq<real>, p: P.Portfolio, winner: string)
    requires BuysShares(e, ids, yes, y) && winner in ids
    ensures P.Payout(p.NewPosition(e), winner) == y[LastIndex(ids, winner)]
  {
    var i := LastIndex(ids, winner);
    SharesLeg(e, ids, yes, y, winner);
    BuyPays(e, p, winner);
    QuotientOfProduct(P.Payout(p.NewPosition(e), winner), P.EntryLeg(e, winner).bet, yes[i], y[i]);
  }

  function SharesBought(c: Constraint, book: BookView, config: EvalConfig): seq<real>
    requires c.markets != []
  {
    var yes := YesPrices(c.markets, book);
    if Scenarios(|yes|, Mutex, c.implications) == [] then []
    else Holdings(yes, Mutex, config.capital, c.implications, config.maxIter)
  }

  lemma ClampKeeps(yes: seq<real>)
    requires AllAtLeast(yes, MIN_PRICE) && forall i :: 0 <= i < |yes| ==> yes[i] <= 1.0
    ensures Clamped(yes) == yes
  {
  }

  /** What an accepted result says about its prices and its guaranteed amount. */
  lemma ResultFigures(ids: seq<string>, yes: seq<real>, capital: real, feeRate: real, minProfit: real, maxProfit: real,
                      implications: seq<(nat, nat)>, maxIter: nat)
    requires capital > 0.0 && feeRate >= 0.0 && maxIter > 0 && minProfit > 0.0
    requires PolytopeArb(ids, yes, Mutex, capital, feeRate, minProfit, maxProfit, implications, maxIter).Some?
    ensures var r := PolytopeArb(ids, yes, Mutex, capital, feeRate, minProfit, maxProfit, implications, maxIter).value;
      && |yes| == |ids| > 0 && Scenarios(|yes|, Mutex, implications) != []
      && AllAtLeast(yes, MIN_PRICE) && Clamped(yes) == yes
      && !r.isSell && r.netProfit + r.fees == r.grossProfit && r.fees == PolytopeFees(capital, feeRate, |ids|)
      && capital + r.grossProfit == Floor(yes, Mutex, capital, implications, maxIter)
  {
    F.ProfitNeedsCheapSet(ids, yes, capital, feeRate, minProfit, maxProfit, implications, maxIter);
    ClampKeeps(yes);
  }

  lemma BetsAreCosts(bets: seq<(string, real)>, ids: seq<string>, yes: seq<real>, y: seq<real>)
    requires |ids| == |yes| == |y| && F.Buys(bets, ids, y, yes)
    ensures bets == Zip(ids, Costs(yes, y))
  {
  }

  lemma FallbackArb(c: Constraint, o: Opportunity, book: BookView, config: EvalConfig, now: real, originTs: real)
    requires FoundByFallback(c, o, book, config, now, originTs)
    ensures var ids, yes := IdsOf(c.markets), YesPrices(c.markets, book);
      PolytopeArb(ids, yes, Mutex, config.capital, config.feeRate, config.minProfit, config.maxProfit, c.implications,
                  config.maxIter) == FindArb(c, book, config)
  {
    NotDirect(c, book, config);
  }

  /** The entry of a fallback opportunity buys the optimiser's shares. */
  lemma FallbackBuysShares(c: Constraint, o: Opportunity, book: BookView, config: EvalConfig, now: real, originTs: real,
                           strategy: string)
    requires FoundByFallback(c, o, book, config, now, originTs)
    ensures Scenarios(|YesPrices(c.markets, book)|, Mutex, c.implications) != []
    ensures BuysShares(EntryOf(o, strategy), IdsOf(c.markets), YesPrices(c.markets, book),
                       SharesBought(c, book, config))
  {
    var ids, yes := IdsOf(c.markets), YesPrices(c.markets, book);
    FallbackArb(c, o, book, config, now, originTs);
    ResultFigures(ids, yes, config.capital, config.feeRate, config.minProfit, config.maxProfit, c.implications,
      config.maxIter);
    F.ResultBuysHoldings(ids, yes, Mutex, config.capital, config.feeRate, config.minProfit, config.maxProfit,
      c.implications, config.maxIter);
    BetsAreCosts(FindArb(c, book, config).value.bets, ids, yes, SharesBought(c, book, config));
  }

  lemma FallbackGuarantee(c: Constraint, o: Opportunity, book: BookView, config: EvalConfig, now: real, originTs: real)
    requires FoundByFallback(c, o, book, config, now, originTs)
    ensures Scenarios(|YesPrices(c.markets, book)|, Mutex, c.implications) != []
    ensures config.capital + o.profit + o.fees
         == Floor(YesPrices(c.markets, book), Mutex, config.capital, c.implications, config.maxIter)
    ensures o.fees == PolytopeFees(config.capital, config.feeRate, |c.markets|)
  {
    FallbackArb(c, o, book, config, now, originTs);
    ResultFigures(IdsOf(c.markets), YesPrices(c.markets, book), config.capital, config.feeRate, config.minProfit,
                  config.maxProfit, c.implications, config.maxIter);
  }

  /** A fallback opportunity, entered as found, pays at least its capital and gross profit, whoever wins. */
  lemma FallbackPaysAtLeast(c: Constraint, o: Opportunity, book: BookView, config: EvalConfig, now: real,
                            originTs: real, strategy: string, p: P.Portfolio, winner: string)
    requires FoundByFallback(c, o, book, config, now, originTs) && winner in o.marketIds
    ensures P.Payout(p.NewPosition(EntryOf(o, strategy)), winner) >= config.capital + o.profit + o.fees
  {
    var ids, yes := IdsOf(c.markets), YesPrices(c.markets, book);
    FallbackBuysShares(c, o, book, config, now, originTs, strategy);
    FallbackGuarantee(c, o, book, config, now, originTs);
    SharesPay(EntryOf(o, strategy), ids, yes, SharesBought(c, book, config), p, winner);
    F.EachHoldingCoversFloor(yes, config.capital, c.implications, config.maxIter, LastIndex(ids, winner));
  }

  /** And some winner pays no more, when every market is named once. */
  lemma FallbackWorstWinner(c: Constraint, o: Opportunity, book: BookView, config: EvalConfig, now: real,
                            originTs: real, strategy: string, p: P.Portfolio)
    requires FoundByFallback(c, o, book, config, now, originTs) && DistinctIds(IdsOf(c.markets))
    ensures exists winner ::
      winner in o.marketIds
        && P.Payout(p.NewPosition(EntryOf(o, strategy)), winner) == config.capital + o.profit + o.fees
  {
    var ids, yes := IdsOf(c.markets), YesPrices(c.markets, book);
    FallbackBuysShares(c, o, book, config, now, originTs, strategy);
    FallbackGuarantee(c, o, book, config, now, originTs);
    var i := F.SomeHoldingIsFloor(yes, config.capital, c.implications, config.maxIter);
    assert LastIndex(ids, ids[i]) == i;
    SharesPay(EntryOf(o, strategy), ids, yes, SharesBought(c, book, config), p, ids[i]);
    assert ids[i] in o.marketIds;
  }

  // ---------- What the trade earns ----------

  lemma FallbackSpends(c: Constraint, o: Opportunity, book: BookView, config: EvalConfig, now: real, originTs: real)
    requires FoundByFallback(c, o, book, config, now, originTs) && DistinctIds(IdsOf(c.markets))
    ensures Total(o.bets) == config.capital
  {
    var ids, yes := IdsOf(c.markets), YesPrices(c.markets, book);
    FallbackArb(c, o, book, config, now, originTs);
    F.BetsSpendTheCapital(ids, yes, Mutex, config.capital, config.feeRate, config.minProfit, config.maxProfit,
                          c.implications, config.maxIter);
    F.ResultBuysHoldings(ids, yes, Mutex, config.capital, config.feeRate, config.minProfit, config.maxProfit,
      c.implications, config.maxIter);
    CollectTotal(FindArb(c, book, config).value.bets);
  }

  lemma FeesCover(capital: real, fee: real, n: nat)
    requires capital > 0.0 && fee >= 0.0 && n >= 1
    ensures Product(fee, capital) <= PolytopeFees(capital, fee, n)
  {
    ProductGrows(1.0, n as real, fee);
    ProductGrows(fee, fee * n as real, capital);
  }

  /**
   With one fee rate throughout, an accepted fallback opportunity gains at least its stated profit,
   whoever wins.
   */
  lemma FallbackEarnsItsEstimate(c: Constraint, o: Opportunity, book: BookView, config: EvalConfig, now: real,
                                 originTs: real, strategy: string, p: P.Portfolio, pid: string, winner: string)
    requires FoundByFallback(c, o, book, config, now, originTs) && DistinctIds(IdsOf(c.markets))
             && winner in o.marketIds
    requires p.takerFee == config.feeRate && p.Accepts(EntryOf(o, strategy))
    ensures p.Enter(pid, EntryOf(o, strategy)).Resolve(pid, winner).capital - p.capital >= o.profit
  {
    var e := EntryOf(o, strategy);
    var payout := P.Payout(p.NewPosition(e), winner);
    assert payout >= config.capital + o.profit + o.fees && o.fees >= Product(p.takerFee, config.capital) by {
      FallbackPaysAtLeast(c, o, book, config, now, originTs, strategy, p, winner);
      FallbackGuarantee(c, o, book, config, now, originTs);
      FeesCover(config.capital, config.feeRate, |c.markets|);
    }
    assert Total(e.bets) == config.capital by {
      FallbackSpends(c, o, book, config, now, originTs);
    }
    T.EnterThenResolve(p, pid, e, winner, payout);
  }
}
