/**
 One trade from evaluation to settlement: an opportunity of the direct check is entered as
 found, and any of its markets wins. Both books can take the entry, and the capital gained is
 the same for every winner and never below the profit the evaluation stated.
 */
module Trades {
  import opened Totals
  import opened Arithmetic
  import opened Arbitrage
  import opened Detection
  import opened Evaluation
  import opened Riskless
  import P = Positions
  import E = Engine
  import B = BookRuns
  import K = BooksAgree
  import N = Entries

  /** What a direct opportunity on these prices pays, by side. */
  function Payout(yes: seq<real>, no: seq<real>, capital: real, isSell: bool): real
    requires if isSell then Sum(no) != 0.0 else Sum(yes) != 0.0
  {
    if isSell then SellAllPayout(capital, Sum(no), |no|) else capital / Sum(yes)
  }

  /** The opportunity `o` is the direct check's result on constraint `c`. */
  ghost predicate DirectlyFound(c: Constraint, o: Opportunity, book: BookView, config: EvalConfig, now: real,
                                originTs: real)
  {
    && c.markets != [] && DistinctIds(IdsOf(c.markets)) && config.capital > 0.0
    && FindArb(c, book, config).Some? && FindArb(c, book, config).value.methodName != "polytope_fw"
    && o == OpportunityOf(c, FindArb(c, book, config).value, book, config, now, originTs)
  }

  lemma DirectNet(ids: seq<string>, yes: seq<real>, no: seq<real>, capital: real, feeRate: real, minProfit: real,
                  maxProfit: real, negRisk: bool)
    requires CheckMutexArb(ids, yes, no, capital, feeRate, minProfit, maxProfit, negRisk).Some?
    ensures var arb := CheckMutexArb(ids, yes, no, capital, feeRate, minProfit, maxProfit, negRisk).value;
      && |no| >= 2 && (if arb.isSell then Sum(no) > 0.0 else Sum(yes) > 0.0)
      && arb.netProfit == NetProfit(Payout(yes, no, capital, arb.isSell), capital, feeRate)
  {
  }

  lemma PayoutPositive(yes: seq<real>, no: seq<real>, capital: real, isSell: bool)
    requires capital > 0.0 && |no| >= 2 && if isSell then Sum(no) > 0.0 else Sum(yes) > 0.0
    ensures Payout(yes, no, capital, isSell) > 0.0
  {
    if isSell {
      Positive(capital, Sum(no));
    } else {
      Positive(capital, Sum(yes));
    }
  }

  /** The stated profit of a direct opportunity, from its payout. */
  lemma DirectFigures(c: Constraint, o: Opportunity, book: BookView, config: EvalConfig, now: real, originTs: real)
    requires DirectlyFound(c, o, book, config, now, originTs)
    ensures var yes, no := YesPrices(c.markets, book), NoPrices(c.markets, book);
      && (if o.isSell then Sum(no) > 0.0 else Sum(yes) > 0.0)
      && var payout := Payout(yes, no, config.capital, o.isSell);
         payout > 0.0 && o.profit == NetProfit(payout, config.capital, config.feeRate)
  {
    var ids, yes, no := IdsOf(c.markets), YesPrices(c.markets, book), NoPrices(c.markets, book);
    DirectIsDirect(c, book, config);
    DirectNet(ids, yes, no, config.capital, config.feeRate, config.minProfit, config.maxProfit, c.isNegRisk);
    PayoutPositive(yes, no, config.capital, o.isSell);
  }

  /** The bets of a direct opportunity sum to the capital it states. */
  lemma DirectBetsSpendTheCapital(c: Constraint, o: Opportunity, book: BookView, config: EvalConfig, now: real,
                                  originTs: real)
    requires DirectlyFound(c, o, book, config, now, originTs)
    ensures Total(o.bets) == config.capital
  {
    var ids, yes, no := IdsOf(c.markets), YesPrices(c.markets, book), NoPrices(c.markets, book);
    DirectIsDirect(c, book, config);
    DirectResult(ids, yes, no, config.capital, config.feeRate, config.minProfit, config.maxProfit, c.isNegRisk);
    ProportionalTotal(ids, if o.isSell then no else yes, config.capital);
  }

  /** The estimate charges the fee on the payout, the manager on the cost: the latter takes no more. */
  lemma FeeOnCostTakesLess(payout: real, capital: real, fee: real)
    requires fee >= 0.0 && capital > 0.0 && payout > 0.0 && NetProfit(payout, capital, fee) >= 0.0
    ensures payout - capital - Product(fee, capital) >= NetProfit(payout, capital, fee)
    ensures payout - capital - Product(fee, capital) == NetProfit(payout, capital, fee)
            <==> fee == 0.0 || payout == capital
  {
    ProductNonNegative(payout, fee);
    ProductGrows(capital, payout, fee);
    if fee != 0.0 && payout != capital {
      NonZero(fee, payout - capital);
    }
  }

  /** Entering and resolving gains the payout less the cost and the entry fee. */
  lemma EnterThenResolve(p: P.Portfolio, pid: string, e: P.Entry, winner: string, payout: real)
    requires p.Accepts(e) && P.Payout(p.NewPosition(e), winner) == payout
    ensures p.Enter(pid, e).Resolve(pid, winner).capital
         == p.capital + payout - Total(e.bets) - Product(p.takerFee, Total(e.bets))
  {
  }

  /** What the opportunity pays according to the prices it was found at. */
  ghost function StatedPayout(c: Constraint, o: Opportunity, book: BookView, config: EvalConfig, now: real,
                              originTs: real): real
    requires DirectlyFound(c, o, book, config, now, originTs)
  {
    DirectFigures(c, o, book, config, now, originTs);
    Payout(YesPrices(c.markets, book), NoPrices(c.markets, book), config.capital, o.isSell)
  }

  lemma StatedProfit(c: Constraint, o: Opportunity, book: BookView, config: EvalConfig, now: real, originTs: real)
    requires DirectlyFound(c, o, book, config, now, originTs)
    ensures var payout := StatedPayout(c, o, book, config, now, originTs);
      payout > 0.0 && o.profit == NetProfit(payout, config.capital, config.feeRate)
  {
    DirectFigures(c, o, book, config, now, originTs);
  }

  lemma BuyPaysAsStated(c: Constraint, o: Opportunity, book: BookView, config: EvalConfig, now: real, originTs: real,
                        strategy: string, p: P.Portfolio)
    requires DirectlyFound(c, o, book, config, now, originTs) && !o.isSell
    ensures PaysWhoeverWins(EntryOf(o, strategy), p, StatedPayout(c, o, book, config, now, originTs))
  {
    DirectEntryIsRiskless(c, o, book, config, now, originTs, strategy, p);
  }

  lemma SellPaysAsStated(c: Constraint, o: Opportunity, book: BookView, config: EvalConfig, now: real, originTs: real,
                         strategy: string, p: P.Portfolio)
    requires DirectlyFound(c, o, book, config, now, originTs) && o.isSell
    requires AllAtLeast(NoPrices(c.markets, book), P.MIN_NO_PRICE)
    ensures PaysWhoeverWins(EntryOf(o, strategy), p, StatedPayout(c, o, book, config, now, originTs))
  {
    assert StatedPayout(c, o, book, config, now, originTs)
        == Product((|c.markets| - 1) as real, config.capital / Sum(NoPrices(c.markets, book))) by {
      SellPayoutIs(c, o, book, config, now, originTs);
    }
    DistinctLegs(EntryOf(o, strategy), NoPrices(c.markets, book));
    DirectEntryIsRiskless(c, o, book, config, now, originTs, strategy, p);
  }

  lemma SellPayoutIs(c: Constraint, o: Opportunity, book: BookView, config: EvalConfig, now: real, originTs: real)
    requires DirectlyFound(c, o, book, config, now, originTs) && o.isSell
    ensures Sum(NoPrices(c.markets, book)) > 0.0
    ensures StatedPayout(c, o, book, config, now, originTs)
         == Product((|c.markets| - 1) as real, config.capital / Sum(NoPrices(c.markets, book)))
  {
    DirectFigures(c, o, book, config, now, originTs);
    SellAllPayoutIs(config.capital, Sum(NoPrices(c.markets, book)), |c.markets|);
  }

  lemma SellAllPayoutIs(capital: real, noCost: real, n: nat)
    requires noCost != 0.0
    ensures SellAllPayout(capital, noCost, n) == Product((n - 1) as real, capital / noCost)
  {
  }

  /** The position entered as found pays what was stated, whoever wins. */
  lemma PaysAsStated(c: Constraint, o: Opportunity, book: BookView, config: EvalConfig, now: real, originTs: real,
                     strategy: string, p: P.Portfolio, winner: string)
    requires DirectlyFound(c, o, book, config, now, originTs) && winner in o.marketIds
    requires o.isSell ==> AllAtLeast(NoPrices(c.markets, book), P.MIN_NO_PRICE)
    ensures P.Payout(p.NewPosition(EntryOf(o, strategy)), winner) == StatedPayout(c, o, book, config, now, originTs)
  {
    assert PaysWhoeverWins(EntryOf(o, strategy), p, StatedPayout(c, o, book, config, now, originTs)) by {
      if o.isSell {
        SellPaysAsStated(c, o, book, config, now, originTs, strategy, p);
      } else {
        BuyPaysAsStated(c, o, book, config, now, originTs, strategy, p);
      }
    }
  }

  /**
   From evaluation to settlement: whoever wins, an accepted direct opportunity gains its payout
   less capital and entry fee. With one fee rate throughout, a stated profit that is not a loss
   is a lower bound of the gain, and met exactly only without fees or without a gross profit.
   */
  lemma TradeEarnsItsEstimate(c: Constraint, o: Opportunity, book: BookView, config: EvalConfig, now: real,
                              originTs: real, strategy: string, p: P.Portfolio, pid: string, winner: string)
    requires DirectlyFound(c, o, book, config, now, originTs) && winner in o.marketIds
    requires o.isSell ==> AllAtLeast(NoPrices(c.markets, book), P.MIN_NO_PRICE)
    requires p.takerFee == config.feeRate >= 0.0 && o.profit >= 0.0
    requires p.Accepts(EntryOf(o, strategy))
    ensures var payout := StatedPayout(c, o, book, config, now, originTs);
      var gain := p.Enter(pid, EntryOf(o, strategy)).Resolve(pid, winner).capital - p.capital;
      && gain == payout - config.capital - Product(p.takerFee, config.capital)
      && gain >= o.profit
      && (gain == o.profit <==> p.takerFee == 0.0 || payout == config.capital)
  {
    var payout := StatedPayout(c, o, book, config, now, originTs);
    StatedProfit(c, o, book, config, now, originTs);
    PaysAsStated(c, o, book, config, now, originTs, strategy, p, winner);
    DirectBetsSpendTheCapital(c, o, book, config, now, originTs);
    EnterThenResolve(p, pid, EntryOf(o, strategy), winner, payout);
    FeeOnCostTakesLess(payout, config.capital, config.feeRate);
  }

  // ---------- Admission to the two books ----------

  lemma StakeSign(capital: real, price: real, total: real)
    requires capital > 0.0 && total > 0.0
    ensures Stake(capital, price, total) > 0.0 <==> price > 0.0
  {
    var x := Stake(capital, price, total);
    assert x * total == capital * price;
  }

  /** Proportional bets make a clean entry exactly when every price is positive. */
  lemma ProportionalIsCleanExactly(e: P.Entry, ids: seq<string>, prices: seq<real>, capital: real)
    requires |ids| == |prices| && DistinctIds(ids) && capital > 0.0 && Sum(prices) > 0.0
    requires e.marketIds == ids && e.bets == Collect(Proportional(ids, prices, capital, Sum(prices)))
    ensures N.CleanEntry(e) <==> forall i :: 0 <= i < |prices| ==> prices[i] > 0.0
    ensures N.CoversBets(e)
  {
    forall mid ensures mid in e.bets <==> mid in ids {
      ProportionalKeys(ids, prices, capital, mid);
    }
    forall i | 0 <= i < |ids| ensures e.bets[ids[i]] > 0.0 <==> prices[i] > 0.0 {
      BetAt(ids, prices, capital, Sum(prices), ids[i]);
      assert LastIndex(ids, ids[i]) == i;
      StakeSign(capital, prices[i], Sum(prices));
    }
    if N.CleanEntry(e) {
      forall i | 0 <= i < |prices| ensures prices[i] > 0.0 {
        assert ids[i] in e.bets;
      }
    }
  }

  /**
   A direct opportunity under a fresh position id is an admissible step of the two-book runs
   exactly when it buys YES, or every NO price it sells against is positive.
   */
  lemma FoundEntryIsAdmissibleExactly(c: Constraint, o: Opportunity, book: BookView, config: EvalConfig, now: real,
                                      originTs: real, strategy: string, s: E.State, pid: string, order: seq<string>)
    requires DirectlyFound(c, o, book, config, now, originTs)
    requires pid !in s.portfolio.open && K.Untouched(s.ledger, pid)
    requires Enumerates(order, P.EntryLegs(EntryOf(o, strategy)).Keys)
    ensures var no := NoPrices(c.markets, book);
      B.Admissible(s, B.EnterStep(pid, EntryOf(o, strategy), order))
      <==> !o.isSell || forall i :: 0 <= i < |no| ==> no[i] > 0.0
  {
    var ids, yes, no := IdsOf(c.markets), YesPrices(c.markets, book), NoPrices(c.markets, book);
    DirectIsDirect(c, book, config);
    DirectResult(ids, yes, no, config.capital, config.feeRate, config.minProfit, config.maxProfit, c.isNegRisk);
    ProportionalIsCleanExactly(EntryOf(o, strategy), ids, if o.isSell then no else yes, config.capital);
  }
}
