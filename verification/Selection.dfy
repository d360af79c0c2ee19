/**
 What evaluation selects, in terms of prices, capital and rates: when the direct check and the
 optimiser find something, what the stated figures mean, and what is never handed out.
 */
module Selection {
  import opened Totals
  import opened Arithmetic
  import opened Arbitrage
  import opened Detection
  import opened Evaluation
  import Q = EvalQueue

  // ---------- The profit window ----------

  /** The profit that a payout leaves after its fee is the fraction `pct` of the capital, in the window. */
  predicate Returns(pct: real, payout: real, capital: real, feeRate: real, minProfit: real, maxProfit: real) {
    Product(pct, capital) == payout - payout * feeRate - capital && minProfit <= pct <= maxProfit
  }

  ghost predicate Profitable(payout: real, capital: real, feeRate: real, minProfit: real, maxProfit: real) {
    capital != 0.0 && exists pct :: Returns(pct, payout, capital, feeRate, minProfit, maxProfit)
  }

  lemma FractionIsUnique(pct: real, profit: real, capital: real)
    requires capital != 0.0
    ensures Product(profit / capital, capital) == profit
    ensures Product(pct, capital) == profit <==> pct == profit / capital
  {
    DivisionBack(profit, capital);
    if Product(pct, capital) == profit { UniqueQuotient(profit, capital, pct); }
  }

  lemma ProfitableExactly(payout: real, capital: real, feeRate: real, minProfit: real, maxProfit: real)
    requires capital != 0.0
    ensures Profitable(payout, capital, feeRate, minProfit, maxProfit)
       <==> minProfit <= NetPct(payout, capital, feeRate) <= maxProfit
    ensures Product(NetPct(payout, capital, feeRate), capital) == payout - payout * feeRate - capital
  {
    var profit := payout - payout * feeRate - capital;
    FractionIsUnique(NetPct(payout, capital, feeRate), profit, capital);
    if Profitable(payout, capital, feeRate, minProfit, maxProfit) {
      var pct :| Returns(pct, payout, capital, feeRate, minProfit, maxProfit);
      FractionIsUnique(pct, profit, capital);
    } else {
      assert !Returns(NetPct(payout, capital, feeRate), payout, capital, feeRate, minProfit, maxProfit);
    }
  }

  // ---------- The direct check ----------

  /** At least two markets, a price of each side for each, no YES below two cents, and a plausible price sum. */
  predicate Quoted(ids: seq<string>, yes: seq<real>, no: seq<real>) {
    && |ids| >= 2 && |yes| == |ids| && |no| == |ids|
    && (forall i :: 0 <= i < |yes| ==> yes[i] >= 0.02)
    && Sum(yes) >= 0.899
  }

  /** One share of every YES costs less than the dollar the winner pays. */
  ghost predicate BuyAllPays(yes: seq<real>, capital: real, feeRate: real, minProfit: real, maxProfit: real) {
    && 0.0 < Sum(yes) < 1.0
    && Profitable(capital / Sum(yes), capital, feeRate, minProfit, maxProfit)
  }

  /** The capital spent on equal shares of every NO, of which all but one pay a dollar a share. */
  function AllButOne(capital: real, cost: real, n: nat): real
    requires cost != 0.0
  {
    (capital / cost) * (n - 1) as real
  }

  /** One share of every NO costs less than the dollars all but the winner pay. */
  ghost predicate SellAllPays(yes: seq<real>, no: seq<real>, capital: real, feeRate: real, minProfit: real,
                              maxProfit: real)
  {
    && Sum(yes) > 1.0 && Sum(no) > 0.0
    && Profitable(AllButOne(capital, Sum(no), |no|), capital, feeRate, minProfit, maxProfit)
  }

  lemma BuyAllExactly(ids: seq<string>, yes: seq<real>, no: seq<real>, capital: real, feeRate: real,
                      minProfit: real, maxProfit: real, negRisk: bool)
    requires Quoted(ids, yes, no) && Sum(yes) < 1.0
    ensures var arb := CheckMutexArb(ids, yes, no, capital, feeRate, minProfit, maxProfit, negRisk);
      && (arb.Some? <==> BuyAllPays(yes, capital, feeRate, minProfit, maxProfit))
      && (arb.Some? ==> arb.value.methodName == "mutex_buy_all" && !arb.value.isSell)
  {
    if capital != 0.0 { ProfitableExactly(capital / Sum(yes), capital, feeRate, minProfit, maxProfit); }
  }

  lemma SellAllGuard(ids: seq<string>, yes: seq<real>, no: seq<real>, capital: real, feeRate: real,
                     minProfit: real, maxProfit: real, negRisk: bool)
    requires Quoted(ids, yes, no) && Sum(yes) > 1.0
    ensures var arb := CheckMutexArb(ids, yes, no, capital, feeRate, minProfit, maxProfit, negRisk);
      && (arb.Some? <==> capital != 0.0 && Sum(no) > 0.0
                         && minProfit <= NetPct(AllButOne(capital, Sum(no), |no|), capital, feeRate) <= maxProfit)
      && (arb.Some? ==> arb.value.methodName == "mutex_sell_all" && arb.value.isSell)
  {
    if Sum(no) != 0.0 {
      assert SellAllPayout(capital, Sum(no), |ids|) == AllButOne(capital, Sum(no), |no|);
    }
  }

  lemma SellAllExactly(ids: seq<string>, yes: seq<real>, no: seq<real>, capital: real, feeRate: real,
                       minProfit: real, maxProfit: real, negRisk: bool)
    requires Quoted(ids, yes, no) && Sum(yes) > 1.0
    ensures var arb := CheckMutexArb(ids, yes, no, capital, feeRate, minProfit, maxProfit, negRisk);
      && (arb.Some? <==> SellAllPays(yes, no, capital, feeRate, minProfit, maxProfit))
      && (arb.Some? ==> arb.value.methodName == "mutex_sell_all" && arb.value.isSell)
  {
    SellAllGuard(ids, yes, no, capital, feeRate, minProfit, maxProfit, negRisk);
    if capital != 0.0 && Sum(no) > 0.0 {
      ProfitableExactly(AllButOne(capital, Sum(no), |no|), capital, feeRate, minProfit, maxProfit);
    }
  }

  /** The direct check finds something exactly when buying every YES or every NO returns a profit in the window. */
  lemma DirectExactly(ids: seq<string>, yes: seq<real>, no: seq<real>, capital: real, feeRate: real,
                      minProfit: real, maxProfit: real, negRisk: bool)
    ensures var arb := CheckMutexArb(ids, yes, no, capital, feeRate, minProfit, maxProfit, negRisk);
      var buys := BuyAllPays(yes, capital, feeRate, minProfit, maxProfit);
      var sells := SellAllPays(yes, no, capital, feeRate, minProfit, maxProfit);
      && (arb.Some? <==> Quoted(ids, yes, no) && (buys || sells))
      && (arb.Some? ==> arb.value.methodName == if buys then "mutex_buy_all" else "mutex_sell_all")
      && (arb.Some? ==> (arb.value.isSell <==> sells))
  {
    if Quoted(ids, yes, no) {
      if Sum(yes) < 1.0 {
        BuyAllExactly(ids, yes, no, capital, feeRate, minProfit, maxProfit, negRisk);
      } else if Sum(yes) > 1.0 {
        SellAllExactly(ids, yes, no, capital, feeRate, minProfit, maxProfit, negRisk);
      }
    }
  }

  /** The stated fraction of the capital is the stated profit, and lies in the window. */
  predicate Stated(pct: real, profit: real, capital: real, minProfit: real, maxProfit: real) {
    Product(pct, capital) == profit && minProfit <= pct <= maxProfit
  }

  lemma DirectStates(ids: seq<string>, yes: seq<real>, no: seq<real>, capital: real, feeRate: real,
                     minProfit: real, maxProfit: real, negRisk: bool)
    requires CheckMutexArb(ids, yes, no, capital, feeRate, minProfit, maxProfit, negRisk).Some?
    ensures var arb := CheckMutexArb(ids, yes, no, capital, feeRate, minProfit, maxProfit, negRisk).value;
      && capital != 0.0
      && Stated(arb.profitPct, arb.netProfit, capital, minProfit, maxProfit)
      && arb.grossProfit - arb.fees == arb.netProfit
      && arb.fees == Product(feeRate, capital + arb.grossProfit)
      && arb.methodName == if arb.isSell then "mutex_sell_all" else "mutex_buy_all"
  {
    var arb := CheckMutexArb(ids, yes, no, capital, feeRate, minProfit, maxProfit, negRisk).value;
    FractionIsUnique(arb.profitPct, arb.netProfit, capital);
  }

  // ---------- The optimiser ----------

  /** Enough markets and not too many, none below two cents, and a price sum worth a search. */
  predicate Searchable(ids: seq<string>, yes: seq<real>, ct: ConstraintType) {
    && 2 <= |ids| <= 12 && |yes| == |ids|
    && (forall i :: 0 <= i < |yes| ==> yes[i] >= 0.02)
    && 0.3 <= Sum(yes) <= 1.4
    && (|ids| == 2 ==> Sum(yes) >= 0.8) && (ct == Mutex ==> Sum(yes) >= 0.9)
  }

  /** What the worst outcome pays, less the capital and a fee on it for every market, returned on the capital. */
  predicate FloorReturns(pct: real, floor: real, capital: real, feeRate: real, n: nat, minProfit: real,
                         maxProfit: real)
  {
    Stated(pct, floor - capital - capital * (feeRate * n as real), capital, minProfit, maxProfit)
  }

  ghost predicate FloorProfitable(floor: real, capital: real, feeRate: real, n: nat, minProfit: real, maxProfit: real) {
    capital != 0.0 && exists pct :: FloorReturns(pct, floor, capital, feeRate, n, minProfit, maxProfit)
  }

  lemma AssessExactly(ids: seq<string>, yes: seq<real>, y: seq<real>, floor: real, capital: real, feeRate: real,
                      minProfit: real, maxProfit: real, scenarios: nat)
    requires |y| == |yes| == |ids|
    ensures var arb := Assess(ids, yes, y, floor, capital, feeRate, minProfit, maxProfit, scenarios);
      && (arb.Some? <==> FloorProfitable(floor, capital, feeRate, |ids|, minProfit, maxProfit))
      && (arb.Some? ==> Stated(arb.value.profitPct, arb.value.netProfit, capital, minProfit, maxProfit)
                        && arb.value.grossProfit - arb.value.fees == arb.value.netProfit
                        && arb.value.fees == capital * (feeRate * |ids| as real)
                        && arb.value.methodName == "polytope_fw" && !arb.value.isSell)
  {
    if capital != 0.0 {
      var profit := floor - capital - capital * (feeRate * |ids| as real);
      FractionIsUnique(profit / capital, profit, capital);
      assert FloorReturns(profit / capital, floor, capital, feeRate, |ids|, minProfit, maxProfit)
        <==> minProfit <= profit / capital <= maxProfit;
      if FloorProfitable(floor, capital, feeRate, |ids|, minProfit, maxProfit) {
        var pct :| FloorReturns(pct, floor, capital, feeRate, |ids|, minProfit, maxProfit);
        FractionIsUnique(pct, profit, capital);
      }
    }
  }

  /** The optimiser finds something exactly when the set is worth a search and its floor returns enough. */
  lemma OptimiserExactly(ids: seq<string>, yes: seq<real>, ct: ConstraintType, capital: real, feeRate: real,
                         minProfit: real, maxProfit: real, implications: seq<(nat, nat)>, maxIter: nat)
    ensures var arb := PolytopeArb(ids, yes, ct, capital, feeRate, minProfit, maxProfit, implications, maxIter);
      arb.Some? <==>
        && Searchable(ids, yes, ct) && Scenarios(|yes|, ct, implications) != []
        && FloorProfitable(Floor(yes, ct, capital, implications, maxIter), capital, feeRate, |ids|, minProfit,
                           maxProfit)
  {
    SearchableExactly(ids, yes, ct);
    if WorthOptimising(|ids|, yes, ct) && Scenarios(|yes|, ct, implications) != [] {
      AssessExactly(ids, yes, Holdings(yes, ct, capital, implications, maxIter),
                    Floor(yes, ct, capital, implications, maxIter), capital, feeRate, minProfit, maxProfit,
                    |Scenarios(|yes|, ct, implications)|);
    }
  }

  lemma SearchableExactly(ids: seq<string>, yes: seq<real>, ct: ConstraintType)
    ensures Searchable(ids, yes, ct) <==> WorthOptimising(|ids|, yes, ct)
  {
  }

  predicate OptimiserFigures(arb: ArbResult, capital: real, feeRate: real, minProfit: real, maxProfit: real, n: nat) {
    && Stated(arb.profitPct, arb.netProfit, capital, minProfit, maxProfit)
    && arb.grossProfit - arb.fees == arb.netProfit && arb.fees == capital * (feeRate * n as real)
    && arb.methodName == "polytope_fw" && !arb.isSell
  }

  lemma OptimiserStates(ids: seq<string>, yes: seq<real>, ct: ConstraintType, capital: real, feeRate: real,
                        minProfit: real, maxProfit: real, implications: seq<(nat, nat)>, maxIter: nat)
    requires PolytopeArb(ids, yes, ct, capital, feeRate, minProfit, maxProfit, implications, maxIter).Some?
    ensures var arb := PolytopeArb(ids, yes, ct, capital, feeRate, minProfit, maxProfit, implications, maxIter).value;
      OptimiserFigures(arb, capital, feeRate, minProfit, maxProfit, |ids|)
  {
    AssessExactly(ids, yes, Holdings(yes, ct, capital, implications, maxIter),
                  Floor(yes, ct, capital, implications, maxIter), capital, feeRate, minProfit, maxProfit,
                  |Scenarios(|yes|, ct, implications)|);
  }

  // ---------- Evaluation ----------

  /** The constraint names a detected or stored set that resolves in time, complete, unheld, and fully quoted. */
  ghost predicate Eligible(d: Q.Drained, store: map<string, Constraint>, book: BookView, config: EvalConfig, now: real,
                           heldCids: set<string>, heldMids: set<string>)
  {
    && d.id !in heldCids && d.id in store
    && var c := store[d.id];
       && |c.markets| >= 2
       && 0.0 < c.endTs && now <= c.endTs <= now + config.maxHours * 3600.0
       && (c.fullGroupSize == 0 || |c.markets| >= c.fullGroupSize)
       && forall m :: m in c.markets ==>
            m.marketId !in heldMids && m.yesAsset in book.asks && book.asks[m.yesAsset] > 0.0
  }

  lemma HoursInWindow(endTs: real, now: real, maxHours: real)
    ensures 0.0 <= (endTs - now) / 3600.0 <= maxHours <==> now <= endTs <= now + maxHours * 3600.0
  {
  }

  lemma EligibleExactly(d: Q.Drained, store: map<string, Constraint>, book: BookView, config: EvalConfig, now: real,
                        heldCids: set<string>, heldMids: set<string>)
    ensures Evaluate(d, store, book, config, now, heldCids, heldMids).Found?
       <==> Eligible(d, store, book, config, now, heldCids, heldMids) && FindArb(store[d.id], book, config).Some?
  {
    if d.id in store {
      var c := store[d.id];
      HoursInWindow(c.endTs, now, config.maxHours);
      AllUnheldExactly(c, heldMids);
      AllQuotedExactly(c.markets, book);
    }
  }

  lemma AllUnheldExactly(c: Constraint, heldMids: set<string>)
    ensures !HoldsMarket(c, heldMids) <==> forall m :: m in c.markets ==> m.marketId !in heldMids
  {
  }

  lemma AllQuotedExactly(markets: seq<MarketRef>, book: BookView)
    ensures AllLive(markets, book)
       <==> forall m :: m in markets ==> m.yesAsset in book.asks && book.asks[m.yesAsset] > 0.0
  {
  }

  /** The ask of an asset; zero when there is none. */
  function Ask(book: BookView, asset: string): real { if asset in book.asks then book.asks[asset] else 0.0 }

  /** A YES is bought at its ask; a NO at its own ask, or at what the YES leaves of a dollar. */
  ghost predicate PricedFrom(markets: seq<MarketRef>, book: BookView, yes: seq<real>, no: seq<real>) {
    && |yes| == |markets| && |no| == |markets|
    && forall i :: 0 <= i < |markets| ==>
         && yes[i] == Ask(book, markets[i].yesAsset)
         && no[i] == if Ask(book, markets[i].noAsset) > 0.0 then Ask(book, markets[i].noAsset)
                     else 1.0 - Ask(book, markets[i].yesAsset)
  }

  lemma PricesComeFromTheBook(markets: seq<MarketRef>, book: BookView)
    ensures PricedFrom(markets, book, YesPrices(markets, book), NoPrices(markets, book))
  {
  }

  /** Some way to make money in the window: buying every YES, buying every NO, or what the optimiser holds. */
  ghost predicate Worthwhile(c: Constraint, yes: seq<real>, no: seq<real>, config: EvalConfig) {
    var ids := IdsOf(c.markets);
    || (Quoted(ids, yes, no)
        && (|| BuyAllPays(yes, config.capital, config.feeRate, config.minProfit, config.maxProfit)
            || SellAllPays(yes, no, config.capital, config.feeRate, config.minProfit, config.maxProfit)))
    || (c.kind in ["mutex", "mutual_exclusivity"] && HoldingsPay(ids, yes, c.implications, config))
  }

  ghost predicate HoldingsPay(ids: seq<string>, yes: seq<real>, implications: seq<(nat, nat)>, config: EvalConfig) {
    && Searchable(ids, yes, Mutex) && Scenarios(|yes|, Mutex, implications) != []
    && FloorProfitable(Floor(yes, Mutex, config.capital, implications, config.maxIter), config.capital, config.feeRate,
                       |ids|, config.minProfit, config.maxProfit)
  }

  lemma ArbExactly(c: Constraint, yes: seq<real>, no: seq<real>, book: BookView, config: EvalConfig)
    requires yes == YesPrices(c.markets, book) && no == NoPrices(c.markets, book)
    ensures FindArb(c, book, config).Some? <==> Worthwhile(c, yes, no, config)
  {
    var ids := IdsOf(c.markets);
    DirectExactly(ids, yes, no, config.capital, config.feeRate, config.minProfit, config.maxProfit, c.isNegRisk);
    OptimiserExactly(ids, yes, Mutex, config.capital, config.feeRate, config.minProfit, config.maxProfit,
                     c.implications, config.maxIter);
    assert ParseType(c.kind) == Some(Mutex) <==> c.kind in ["mutex", "mutual_exclusivity"];
  }

  /** An entry yields an opportunity exactly when its constraint is eligible and worthwhile at the book's prices. */
  lemma FoundExactly(d: Q.Drained, store: map<string, Constraint>, book: BookView, config: EvalConfig, now: real,
                     heldCids: set<string>, heldMids: set<string>, yes: seq<real>, no: seq<real>)
    requires d.id in store ==> PricedFrom(store[d.id].markets, book, yes, no)
    ensures Evaluate(d, store, book, config, now, heldCids, heldMids).Found?
       <==> Eligible(d, store, book, config, now, heldCids, heldMids) && Worthwhile(store[d.id], yes, no, config)
  {
    EligibleExactly(d, store, book, config, now, heldCids, heldMids);
    if d.id in store {
      PricesComeFromTheBook(store[d.id].markets, book);
      assert yes == YesPrices(store[d.id].markets, book) && no == NoPrices(store[d.id].markets, book);
      ArbExactly(store[d.id], yes, no, book, config);
    }
  }

  // ---------- What an opportunity says ----------

  function Depth(book: BookView, m: MarketRef, isSell: bool): real {
    var asset := if isSell then m.noAsset else m.yesAsset;
    if asset in book.depths then book.depths[asset] else 0.0
  }

  /** No market is shallower, and some market is as shallow. */
  ghost predicate IsLeastDepth(depth: real, markets: seq<MarketRef>, book: BookView, isSell: bool) {
    && (forall i :: 0 <= i < |markets| ==> depth <= Depth(book, markets[i], isSell))
    && (exists i :: 0 <= i < |markets| && depth == Depth(book, markets[i], isSell))
  }

  lemma {:induction false} MinDepthIsLeast(markets: seq<MarketRef>, book: BookView, isSell: bool)
    requires markets != []
    ensures IsLeastDepth(MinDepth(markets, book, isSell), markets, book, isSell)
  {
    var n := |markets| - 1;
    var last := Depth(book, markets[n], isSell);
    if n > 0 {
      MinDepthIsLeast(markets[..n], book, isSell);
      var before := MinDepth(markets[..n], book, isSell);
      var i :| 0 <= i < n && before == Depth(book, markets[..n][i], isSell);
      assert MinDepth(markets, book, isSell) == Min(before, last);
      forall k | 0 <= k < n ensures before <= Depth(book, markets[k], isSell) {
        assert markets[..n][k] == markets[k];
      }
      OneMoreDepth(markets, before, book, isSell, i);
    } else {
      assert MinDepth(markets, book, isSell) == last;
    }
  }

  lemma OneMoreDepth(markets: seq<MarketRef>, before: real, book: BookView, isSell: bool, i: nat)
    requires |markets| > 1 && i < |markets| - 1 && before == Depth(book, markets[i], isSell)
    requires forall k :: 0 <= k < |markets| - 1 ==> before <= Depth(book, markets[k], isSell)
    ensures IsLeastDepth(Min(before, Depth(book, markets[|markets| - 1], isSell)), markets, book, isSell)
  {
  }

  /** Profit, time, score and depth of an opportunity on these markets. */
  ghost predicate Sound(o: Opportunity, c: Constraint, book: BookView, config: EvalConfig, now: real) {
    && o.constraintId == c.id && o.marketIds == IdsOf(c.markets)
    && o.capital == config.capital && Stated(o.profitPct, o.profit, config.capital, config.minProfit, config.maxProfit)
    && (if c.endTs > now then Product(o.hours, 3600.0) == c.endTs - now else o.hours == 0.01)
    && Product(o.score, if o.hours > 0.01 then o.hours else 0.01) == o.profitPct
    && IsLeastDepth(o.minDepth, c.markets, book, o.isSell)
    && FeeStated(o.methodName, o.fees, o.profit, config, |c.markets|)
  }

  /** The optimiser's fee is taken of the capital once for every market, the direct one of the whole payout. */
  predicate FeeStated(methodName: string, fees: real, profit: real, config: EvalConfig, n: nat) {
    if methodName == "polytope_fw" then fees == config.capital * (config.feeRate * n as real)
    else fees == Product(config.feeRate, config.capital + profit + fees)
  }

  lemma FeesStated(arb: ArbResult, config: EvalConfig, n: nat)
    requires arb.grossProfit - arb.fees == arb.netProfit
    requires if arb.methodName == "polytope_fw" then arb.fees == config.capital * (config.feeRate * n as real)
             else arb.fees == Product(config.feeRate, config.capital + arb.grossProfit)
    ensures FeeStated(arb.methodName, arb.fees, arb.netProfit, config, n)
  {
    assert config.capital + arb.netProfit + arb.fees == config.capital + arb.grossProfit;
  }

  predicate ArbStated(arb: ArbResult, config: EvalConfig, n: nat) {
    && Stated(arb.profitPct, arb.netProfit, config.capital, config.minProfit, config.maxProfit)
    && FeeStated(arb.methodName, arb.fees, arb.netProfit, config, n)
  }

  lemma DirectIsStated(ids: seq<string>, yes: seq<real>, no: seq<real>, config: EvalConfig, negRisk: bool)
    requires CheckMutexArb(ids, yes, no, config.capital, config.feeRate, config.minProfit, config.maxProfit,
                           negRisk).Some?
    ensures ArbStated(CheckMutexArb(ids, yes, no, config.capital, config.feeRate, config.minProfit, config.maxProfit,
                                    negRisk).value, config, |ids|)
  {
    DirectStates(ids, yes, no, config.capital, config.feeRate, config.minProfit, config.maxProfit, negRisk);
    FeesStated(CheckMutexArb(ids, yes, no, config.capital, config.feeRate, config.minProfit, config.maxProfit,
                             negRisk).value, config, |ids|);
  }

  lemma FiguresAreStated(arb: ArbResult, config: EvalConfig, n: nat)
    requires OptimiserFigures(arb, config.capital, config.feeRate, config.minProfit, config.maxProfit, n)
    ensures ArbStated(arb, config, n)
  {
  }

  lemma OptimiserIsStated(ids: seq<string>, yes: seq<real>, config: EvalConfig, implications: seq<(nat, nat)>)
    requires PolytopeArb(ids, yes, Mutex, config.capital, config.feeRate, config.minProfit, config.maxProfit,
                         implications, config.maxIter).Some?
    ensures ArbStated(PolytopeArb(ids, yes, Mutex, config.capital, config.feeRate, config.minProfit, config.maxProfit,
                                  implications, config.maxIter).value, config, |ids|)
  {
    OptimiserStates(ids, yes, Mutex, config.capital, config.feeRate, config.minProfit, config.maxProfit, implications,
                    config.maxIter);
    FiguresAreStated(PolytopeArb(ids, yes, Mutex, config.capital, config.feeRate, config.minProfit, config.maxProfit,
                                 implications, config.maxIter).value, config, |ids|);
  }

  lemma ArbStates(c: Constraint, book: BookView, config: EvalConfig)
    requires FindArb(c, book, config).Some?
    ensures ArbStated(FindArb(c, book, config).value, config, |c.markets|)
  {
    var ids, yes, no := IdsOf(c.markets), YesPrices(c.markets, book), NoPrices(c.markets, book);
    if CheckMutexArb(ids, yes, no, config.capital, config.feeRate, config.minProfit, config.maxProfit,
                     c.isNegRisk).Some?
    {
      DirectIsStated(ids, yes, no, config, c.isNegRisk);
    } else {
      OptimiserIsStated(ids, yes, config, c.implications);
    }
  }

  lemma OpportunityIsSound(c: Constraint, book: BookView, config: EvalConfig, now: real, originTs: real)
    requires c.markets != [] && FindArb(c, book, config).Some?
    ensures Sound(OpportunityOf(c, FindArb(c, book, config).value, book, config, now, originTs), c, book, config, now)
  {
    var arb := FindArb(c, book, config).value;
    var o := OpportunityOf(c, arb, book, config, now, originTs);
    ArbStates(c, book, config);
    MinDepthIsLeast(c.markets, book, arb.isSell);
    DivisionBack(c.endTs - now, 3600.0);
    DivisionBack(o.profitPct, Max(o.hours, 0.01));
  }

  lemma FoundIsSound(d: Q.Drained, store: map<string, Constraint>, book: BookView, config: EvalConfig, now: real,
                     heldCids: set<string>, heldMids: set<string>)
    requires Evaluate(d, store, book, config, now, heldCids, heldMids).Found?
    ensures Eligible(d, store, book, config, now, heldCids, heldMids)
    ensures Sound(Evaluate(d, store, book, config, now, heldCids, heldMids).o, store[d.id], book, config, now)
  {
    EligibleExactly(d, store, book, config, now, heldCids, heldMids);
    OpportunityIsSound(store[d.id], book, config, now, d.originTs);
  }

  /** A known constraint is passed over as held exactly when it, or a market of it while still in time, is held. */
  lemma HeldExactly(d: Q.Drained, store: map<string, Constraint>, book: BookView, config: EvalConfig, now: real,
                    heldCids: set<string>, heldMids: set<string>)
    requires d.id in store
    ensures var c := store[d.id];
      Evaluate(d, store, book, config, now, heldCids, heldMids) == Held
      <==> || d.id in heldCids
           || (|c.markets| >= 2 && 0.0 < c.endTs && now <= c.endTs <= now + config.maxHours * 3600.0
               && exists m :: m in c.markets && m.marketId in heldMids)
  {
    HoursInWindow(store[d.id].endTs, now, config.maxHours);
    AllUnheldExactly(store[d.id], heldMids);
  }

  /** Some drained entry with an eligible constraint, on which the opportunity is sound. */
  ghost predicate Backed(o: Opportunity, ds: seq<Q.Drained>, store: map<string, Constraint>, book: BookView,
                         config: EvalConfig, now: real, heldCids: set<string>, heldMids: set<string>)
  {
    exists d :: d in ds && Eligible(d, store, book, config, now, heldCids, heldMids)
                && Sound(o, store[d.id], book, config, now)
  }

  /**
   Everything a batch returns is sound for a constraint it drained: a profit in the window, a time, a
   score and a depth that mean what they say, and no market that is held.
   */
  lemma EverythingReturnedIsSound(ds: seq<Q.Drained>, store: map<string, Constraint>, book: BookView,
                                  config: EvalConfig, now: real, heldCids: set<string>, heldMids: set<string>,
                                  topN: nat, o: Opportunity)
    requires o in Top(FoundIn(ds, store, book, config, now, heldCids, heldMids), topN)
    ensures Backed(o, ds, store, book, config, now, heldCids, heldMids)
    ensures forall mid :: mid in o.marketIds ==> mid !in heldMids
  {
    BestAreFound(ds, store, book, config, now, heldCids, heldMids, topN, o);
    var d :| d in ds && Evaluate(d, store, book, config, now, heldCids, heldMids) == Found(o);
    FoundIsSound(d, store, book, config, now, heldCids, heldMids);
    forall mid | mid in o.marketIds ensures mid !in heldMids {
      var i :| 0 <= i < |store[d.id].markets| && store[d.id].markets[i].marketId == mid;
    }
  }
}
