/**
 From detection to settlement: an opportunity found by the direct check covers its whole
 detected group, and the position entered from it pays the same whoever wins.
 */
module Riskless {
  import opened Totals
  import opened Arithmetic
  import opened Detection
  import opened Arbitrage
  import opened Evaluation
  import Q = EvalQueue
  import P = Positions
  import F = FrankWolfe

  // ---------- Coverage ----------

  /** What evaluation found passed the direct check and its exhaustiveness guard. */
  lemma FoundMeans(d: Q.Drained, store: map<string, Constraint>, book: BookView, config: EvalConfig, now: real,
                   heldCids: set<string>, heldMids: set<string>)
    requires Evaluate(d, store, book, config, now, heldCids, heldMids).Found?
    ensures d.id in store && |store[d.id].markets| >= 2 && !NonExhaustive(store[d.id])
    ensures var c := store[d.id]; var arb := FindArb(c, book, config);
      arb.Some? && Evaluate(d, store, book, config, now, heldCids, heldMids).o
                   == OpportunityOf(c, arb.value, book, config, now, d.originTs)
  {
  }

  /** An opportunity lists every market of the group its constraint was detected from, in order. */
  lemma OpportunityCoversItsGroup(d: Q.Drained, markets: seq<DetectableMarket>, detection: DetectionConfig,
                                  order: seq<string>, book: BookView, config: EvalConfig, now: real,
                                  heldCids: set<string>, heldMids: set<string>)
    requires Enumerates(order, GroupIds(markets))
    requires Evaluate(d, StoreOf(Detections(Groups(markets), order, detection)), book, config, now, heldCids,
                      heldMids).Found?
    ensures var store := StoreOf(Detections(Groups(markets), order, detection));
      && d.id in store
      && Evaluate(d, store, book, config, now, heldCids, heldMids).o.marketIds
         == MemberIds(GroupOf(markets, store[d.id].groupId))
  {
    var cs := Detections(Groups(markets), order, detection);
    var store := StoreOf(cs);
    FoundMeans(d, store, book, config, now, heldCids, heldMids);
    StoredIsDetected(cs, d.id);
    var c := store[d.id];
    FullGroupIsCovered(markets, order, detection, c);
    DetectionsFromGroups(Groups(markets), order, detection, c);
  }

  // ---------- Sides ----------

  lemma {:induction false} SellNeedsAnS(s: string)
    ensures P.ContainsSell(s) ==> 's' in s
  {
    if |s| >= 4 {
      SellNeedsAnS(s[1..]);
      if s[..4] == "sell" { assert s[0] == 's'; }
    }
  }

  lemma {:induction false} SellAt(s: string, i: nat)
    requires i + 4 <= |s| && s[i..i + 4] == "sell"
    ensures P.ContainsSell(s)
  {
    if i > 0 {
      assert s[1..][i - 1..i + 3] == s[i..i + 4];
      SellAt(s[1..], i - 1);
    }
  }

  lemma BuyAllHasNoSell()
    ensures !P.ContainsSell("mutex_buy_all")
  {
    SellNeedsAnS("mutex_buy_all");
  }

  lemma SellAllHasSell()
    ensures P.ContainsSell("mutex_sell_all")
  {
  }

  lemma MethodSides()
    ensures !P.ContainsSell("mutex_buy_all") && P.ContainsSell("mutex_sell_all")
  {
    BuyAllHasNoSell();
    SellAllHasSell();
  }

  // ---------- Collected maps ----------

  ghost predicate DistinctIds(ids: seq<string>) { forall i, j :: 0 <= i < j < |ids| ==> ids[i] != ids[j] }

  /** The last place of an id: the one whose pair a collected map keeps. */
  function LastIndex(ids: seq<string>, id: string): (i: nat)
    requires id in ids
    ensures i < |ids| && ids[i] == id && forall j :: i < j < |ids| ==> ids[j] != id
  {
    if ids[|ids| - 1] == id then |ids| - 1 else LastIndex(ids[..|ids| - 1], id)
  }

  lemma {:induction false} CollectKeys(pairs: seq<(string, real)>, k: string)
    ensures k in Collect(pairs) <==> exists i :: 0 <= i < |pairs| && pairs[i].0 == k
  {
    if pairs != [] {
      CollectKeys(pairs[..|pairs| - 1], k);
    }
  }

  lemma {:induction false} ZipAt(ids: seq<string>, prices: seq<real>, id: string)
    requires |ids| == |prices| && id in ids
    ensures id in Collect(Zip(ids, prices)) && Collect(Zip(ids, prices))[id] == prices[LastIndex(ids, id)]
  {
    var n := |ids| - 1;
    assert Zip(ids, prices)[..n] == Zip(ids[..n], prices[..n]);
    if ids[n] != id {
      ZipAt(ids[..n], prices[..n], id);
    }
  }

  function Stakes(prices: seq<real>, capital: real, total: real): (r: seq<real>)
    requires total != 0.0
    ensures |r| == |prices|
  {
    seq(|prices|, i requires 0 <= i < |prices| => Stake(capital, prices[i], total))
  }

  lemma BetAt(ids: seq<string>, prices: seq<real>, capital: real, total: real, id: string)
    requires |ids| == |prices| && id in ids && total != 0.0
    ensures var bets := Collect(Proportional(ids, prices, capital, total));
      id in bets && bets[id] == Stake(capital, prices[LastIndex(ids, id)], total)
  {
    assert Proportional(ids, prices, capital, total) == Zip(ids, Stakes(prices, capital, total));
    ZipAt(ids, Stakes(prices, capital, total), id);
  }

  // ---------- Entering an opportunity ----------

  function EntryOf(o: Opportunity, strategy: string): P.Entry {
    P.Entry(o.marketIds, o.prices, o.noPrices, o.bets, o.profit, o.methodName, strategy, o.isSell)
  }

  /** A direct result on these prices: the maps an opportunity carries into the entry. */
  ghost predicate Carries(e: P.Entry, ids: seq<string>, yes: seq<real>, no: seq<real>, arb: ArbResult)
    requires |ids| == |yes| == |no|
  {
    && e.marketIds == ids && e.prices == Collect(Zip(ids, yes)) && e.noPrices == Collect(Zip(ids, no))
    && e.bets == Collect(arb.bets) && e.methodName == arb.methodName && e.isSell == arb.isSell
  }

  lemma ShareCount(capital: real, price: real, total: real)
    requires price != 0.0 && total != 0.0
    ensures Stake(capital, price, total) / price == capital / total
  {
  }

  lemma BuyLeg(e: P.Entry, ids: seq<string>, yes: seq<real>, no: seq<real>, arb: ArbResult, capital: real, mid: string)
    requires |ids| == |yes| == |no| && mid in ids && Carries(e, ids, yes, no, arb)
    requires Sum(yes) != 0.0 && arb.bets == Proportional(ids, yes, capital, Sum(yes))
    ensures P.EntryLeg(e, mid).entryPrice == yes[LastIndex(ids, mid)]
    ensures P.EntryLeg(e, mid).bet == Stake(capital, yes[LastIndex(ids, mid)], Sum(yes))
  {
    ZipAt(ids, yes, mid);
    BetAt(ids, yes, capital, Sum(yes), mid);
  }

  lemma BuyPayout(e: P.Entry, p: P.Portfolio, winner: string)
    requires e.methodName == "mutex_buy_all" && winner in e.marketIds && P.EntryLeg(e, winner).entryPrice > 0.0
    ensures P.Payout(p.NewPosition(e), winner) == P.EntryLeg(e, winner).bet / P.EntryLeg(e, winner).entryPrice
  {
    MethodSides();
  }

  /** Buy-all, entered as found: whoever wins, the payout is capital over the price sum. */
  lemma BuyAllPaysTheSame(e: P.Entry, ids: seq<string>, yes: seq<real>, no: seq<real>, arb: ArbResult, capital: real,
                          p: P.Portfolio, winner: string)
    requires |ids| == |yes| == |no| && Carries(e, ids, yes, no, arb)
    requires AllAtLeast(yes, MIN_PRICE) && Sum(yes) != 0.0
    requires arb.bets == Proportional(ids, yes, capital, Sum(yes)) && arb.methodName == "mutex_buy_all"
    requires winner in ids
    ensures P.Payout(p.NewPosition(e), winner) == capital / Sum(yes)
  {
    BuyLeg(e, ids, yes, no, arb, capital, winner);
    BuyPayout(e, p, winner);
    ShareCount(capital, yes[LastIndex(ids, winner)], Sum(yes));
  }

  // ---------- Sell-all ----------

  lemma SellLeg(e: P.Entry, ids: seq<string>, yes: seq<real>, no: seq<real>, arb: ArbResult, capital: real, mid: string)
    requires |ids| == |yes| == |no| && mid in ids && Carries(e, ids, yes, no, arb)
    requires Sum(no) != 0.0 && arb.bets == Proportional(ids, no, capital, Sum(no)) && arb.isSell
    ensures var leg := P.EntryLeg(e, mid);
      var price := no[LastIndex(ids, mid)];
      && leg.bet == Stake(capital, price, Sum(no))
      && leg.shares == leg.bet / Max(price, P.MIN_NO_PRICE)
  {
    ZipAt(ids, no, mid);
    BetAt(ids, no, capital, Sum(no), mid);
  }

  /** The clamp at the minimum price leaves the share count alone exactly when the price is not below it. */
  lemma ClampedShareCount(capital: real, price: real, total: real)
    requires capital > 0.0 && price > 0.0 && total > 0.0
    ensures Stake(capital, price, total) / Max(price, P.MIN_NO_PRICE) > 0.0
    ensures Stake(capital, price, total) / Max(price, P.MIN_NO_PRICE) == capital / total <==> price >= P.MIN_NO_PRICE
  {
  }

  /** A price that is not positive buys no NO shares at all, and pays nothing. */
  lemma WorthlessLeg(leg: P.Leg, capital: real, price: real, total: real)
    requires capital > 0.0 && price <= 0.0 && total > 0.0
    requires leg.bet == Stake(capital, price, total) && leg.shares == leg.bet / Max(price, P.MIN_NO_PRICE)
    ensures P.NoLegPayout(leg) <= 0.0
  {
    ProductNonPositive(capital, price);
    QuotientNonPositive(capital * price, total);
    QuotientNonPositive(leg.bet, P.MIN_NO_PRICE);
    if 1.0 - leg.entryPrice > 0.0 {
      QuotientNonPositive(leg.bet, 1.0 - leg.entryPrice);
    }
  }

  ghost function PayoutsOf(markets: map<string, P.Leg>): map<string, real> {
    map mid | mid in markets :: P.NoLegPayout(markets[mid])
  }

  /** Every NO leg but the winner's pays. */
  lemma SellPayout(markets: map<string, P.Leg>, winner: string)
    requires winner in markets
    ensures Total(P.LosingLegPayout(markets, winner)) == Total(PayoutsOf(markets)) - PayoutsOf(markets)[winner]
  {
    var pays, all := P.LosingLegPayout(markets, winner), PayoutsOf(markets);
    TotalRemove(pays, winner);
    TotalRemove(all, winner);
    assert pays - {winner} == all - {winner};
  }

  lemma {:induction false} DistinctCount(ids: seq<string>)
    requires DistinctIds(ids)
    ensures |set id | id in ids| == |ids|
  {
    if ids != [] {
      var n := |ids| - 1;
      DistinctCount(ids[..n]);
      assert (set id | id in ids) == (set id | id in ids[..n]) + {ids[n]};
    }
  }

  lemma SellLegExact(e: P.Entry, ids: seq<string>, yes: seq<real>, no: seq<real>, arb: ArbResult, capital: real,
                     mid: string)
    requires SellEntry(e, ids, yes, no, arb, capital) && mid in ids
    ensures P.NoLegPayout(P.EntryLeg(e, mid)) == capital / Sum(no) <==> no[LastIndex(ids, mid)] >= P.MIN_NO_PRICE
  {
    var price := no[LastIndex(ids, mid)];
    SellLeg(e, ids, yes, no, arb, capital, mid);
    Positive(capital, Sum(no));
    if price > 0.0 {
      ClampedShareCount(capital, price, Sum(no));
    } else {
      WorthlessLeg(P.EntryLeg(e, mid), capital, price, Sum(no));
    }
  }

  ghost predicate AllAre(m: map<string, real>, c: real) { forall k :: k in m ==> m[k] == c }

  /** Whichever entry is left out, the rest add up to the amount. */
  ghost predicate LeavesOut(m: map<string, real>, amount: real) { forall k :: k in m ==> Total(m) - m[k] == amount }

  /** Whoever wins, the position entered pays the amount. */
  ghost predicate PaysWhoeverWins(e: P.Entry, p: P.Portfolio, amount: real) {
    forall winner :: winner in e.marketIds ==> P.Payout(p.NewPosition(e), winner) == amount
  }

  /** An entry made from a direct sell-all result. */
  ghost predicate SellEntry(e: P.Entry, ids: seq<string>, yes: seq<real>, no: seq<real>, arb: ArbResult,
                            capital: real)
  {
    && |ids| == |yes| == |no| >= 2 && Carries(e, ids, yes, no, arb)
    && capital > 0.0 && Sum(no) > 0.0
    && arb.bets == Proportional(ids, no, capital, Sum(no))
    && arb.isSell && arb.methodName == "mutex_sell_all"
  }

  /** The NO price each leg was entered at reaches the minimum. */
  ghost predicate LegPricesReach(ids: seq<string>, no: seq<real>)
    requires |ids| == |no|
  {
    forall mid :: mid in ids ==> no[LastIndex(ids, mid)] >= P.MIN_NO_PRICE
  }

  lemma SellLegs(e: P.Entry, ids: seq<string>, yes: seq<real>, no: seq<real>, arb: ArbResult, capital: real)
    requires SellEntry(e, ids, yes, no, arb, capital)
    ensures AllAre(PayoutsOf(P.EntryLegs(e)), capital / Sum(no)) <==> LegPricesReach(ids, no)
  {
    var pays := PayoutsOf(P.EntryLegs(e));
    forall mid | mid in ids
      ensures mid in pays && (pays[mid] == capital / Sum(no) <==> no[LastIndex(ids, mid)] >= P.MIN_NO_PRICE)
    {
      SellLegExact(e, ids, yes, no, arb, capital, mid);
    }
    assert forall mid :: mid in pays ==> mid in ids;
  }

  lemma SellPosition(e: P.Entry, p: P.Portfolio, winner: string)
    requires e.methodName == "mutex_sell_all" && winner in e.marketIds
    ensures var pays := PayoutsOf(P.EntryLegs(e));
      P.Payout(p.NewPosition(e), winner) == Total(pays) - pays[winner]
  {
    MethodSides();
    SellPayout(P.EntryLegs(e), winner);
  }

  lemma PaysWhatIsLeft(e: P.Entry, p: P.Portfolio, amount: real)
    requires e.methodName == "mutex_sell_all"
    ensures PaysWhoeverWins(e, p, amount) <==> LeavesOut(PayoutsOf(P.EntryLegs(e)), amount)
  {
    var pays := PayoutsOf(P.EntryLegs(e));
    assert forall k :: k in pays <==> k in e.marketIds;
    forall winner | winner in e.marketIds
      ensures P.Payout(p.NewPosition(e), winner) == Total(pays) - pays[winner]
    {
      SellPosition(e, p, winner);
    }
  }

  /** Markets named once make as many legs as markets, each at its own price. */
  lemma DistinctLegs(e: P.Entry, no: seq<real>)
    requires DistinctIds(e.marketIds) && |no| == |e.marketIds|
    ensures |P.EntryLegs(e)| == |e.marketIds|
    ensures LegPricesReach(e.marketIds, no) <==> AllAtLeast(no, P.MIN_NO_PRICE)
  {
    DistinctCount(e.marketIds);
    assert P.EntryLegs(e).Keys == set id | id in e.marketIds;
    if LegPricesReach(e.marketIds, no) {
      forall i | 0 <= i < |no| ensures no[i] >= P.MIN_NO_PRICE {
        assert LastIndex(e.marketIds, e.marketIds[i]) == i;
      }
    }
  }

  /**
   Sell-all, entered as found: whoever wins, every other leg pays capital over the NO cost, exactly
   when no leg was entered below the minimum NO price (or there is no other leg).
   */
  lemma SellAllPaysTheSameExactly(e: P.Entry, ids: seq<string>, yes: seq<real>, no: seq<real>, arb: ArbResult,
                                  capital: real, p: P.Portfolio)
    requires SellEntry(e, ids, yes, no, arb, capital)
    ensures PaysWhoeverWins(e, p, Product((|P.EntryLegs(e)| - 1) as real, capital / Sum(no)))
       <==> |P.EntryLegs(e)| == 1 || LegPricesReach(ids, no)
  {
    var pays := PayoutsOf(P.EntryLegs(e));
    PayoutsCount(P.EntryLegs(e));
    assert ids[0] in pays;
    SellLegs(e, ids, yes, no, arb, capital);
    PaysWhatIsLeft(e, p, Product((|pays| - 1) as real, capital / Sum(no)));
    EqualOrAlone(pays, capital / Sum(no));
  }

  lemma PayoutsCount(markets: map<string, P.Leg>)
    ensures |PayoutsOf(markets)| == |markets|
  {
    assert PayoutsOf(markets).Keys == markets.Keys;
    assert |PayoutsOf(markets).Keys| == |markets.Keys|;
  }

  lemma EqualOrAlone(m: map<string, real>, unit: real)
    requires m != map[]
    ensures LeavesOut(m, Product((|m| - 1) as real, unit)) <==> |m| == 1 || AllAre(m, unit)
  {
    if |m| >= 2 {
      SharesEqualExactly(m, unit);
    } else {
      OnlyOne(m);
    }
  }

  lemma OnlyOne(m: map<string, real>)
    requires |m| == 1
    ensures LeavesOut(m, 0.0)
  {
    forall k | k in m ensures Total(m) - m[k] == 0.0 {
      TotalRemove(m, k);
      assert |(m - {k}).Keys| == |m.Keys - {k}| == 0;
      assert m - {k} == map[];
    }
  }

  lemma OthersAre(n: nat, unit: real)
    requires n >= 1
    ensures Product((n - 1) as real, unit) == Product(n as real, unit) - unit
  {
  }

  /** Leaving any one share count out gives (n - 1) units, for every choice, exactly when all are one unit. */
  lemma SharesEqualExactly(shares: map<string, real>, unit: real)
    requires |shares| >= 2
    ensures LeavesOut(shares, Product((|shares| - 1) as real, unit)) <==> AllAre(shares, unit)
  {
    var others := Product((|shares| - 1) as real, unit);
    OthersAre(|shares|, unit);
    if AllAre(shares, unit) {
      ConstantTotal(shares, unit);
    }
    if LeavesOut(shares, others) {
      var s := Total(shares) - others;
      ConstantTotal(shares, s);
      SameUnit(|shares| as real, s, unit);
    }
  }

  lemma ConstantTotal(m: map<string, real>, c: real)
    requires AllAre(m, c)
    ensures Total(m) == Product(|m| as real, c)
  {
    TotalConstant(m, c);
  }

  lemma SameUnit(n: real, s: real, unit: real)
    requires n > 1.0
    ensures Product(n, s) - s == Product(n, unit) - unit ==> s == unit
  {
    var a, b := n - 1.0, s - unit;
    assert a * b == (n * s - s) - (n * unit - unit);
    if b != 0.0 { NonZero(a, b); }
  }

  // ---------- End to end ----------

  /** What a direct result carries, by side. */
  lemma DirectResult(ids: seq<string>, yes: seq<real>, no: seq<real>, capital: real, feeRate: real, minProfit: real,
                     maxProfit: real, negRisk: bool)
    requires CheckMutexArb(ids, yes, no, capital, feeRate, minProfit, maxProfit, negRisk).Some?
    ensures var arb := CheckMutexArb(ids, yes, no, capital, feeRate, minProfit, maxProfit, negRisk).value;
      && |ids| == |yes| == |no| >= 2 && AllAtLeast(yes, MIN_PRICE)
      && (arb.methodName == "mutex_buy_all" || arb.methodName == "mutex_sell_all")
      && (arb.methodName == "mutex_buy_all" ==>
            0.0 < Sum(yes) < 1.0 && !arb.isSell && arb.bets == Proportional(ids, yes, capital, Sum(yes)))
      && (arb.methodName == "mutex_sell_all" ==>
            Sum(yes) > 1.0 && Sum(no) > 0.0 && arb.isSell && arb.bets == Proportional(ids, no, capital, Sum(no)))
  {
  }

  /** What an entry made at these prices pays whoever wins, as far as the prices allow. */
  ghost predicate PaysAs(e: P.Entry, ids: seq<string>, yes: seq<real>, no: seq<real>, capital: real, p: P.Portfolio)
    requires |ids| == |no|
  {
    && (!e.isSell ==> Sum(yes) != 0.0 && PaysWhoeverWins(e, p, capital / Sum(yes)))
    && (e.isSell ==> Sum(no) != 0.0)
    && (e.isSell ==>
          (PaysWhoeverWins(e, p, Product((|P.EntryLegs(e)| - 1) as real, capital / Sum(no)))
           <==> |P.EntryLegs(e)| == 1 || LegPricesReach(ids, no)))
  }

  ghost predicate PaysAsDirect(c: Constraint, o: Opportunity, book: BookView, capital: real, strategy: string,
                               p: P.Portfolio)
  {
    PaysAs(EntryOf(o, strategy), IdsOf(c.markets), YesPrices(c.markets, book), NoPrices(c.markets, book), capital, p)
  }

  /**
   Every opportunity of the direct check, entered as found: a buy-all pays capital over the
   price sum whoever wins; a sell-all pays capital over the NO cost for every leg but the
   winner's, exactly when every leg's NO price reaches the minimum.
   */
  lemma DirectOpportunityIsRiskless(d: Q.Drained, store: map<string, Constraint>, book: BookView, config: EvalConfig,
                                    now: real, heldCids: set<string>, heldMids: set<string>, strategy: string,
                                    p: P.Portfolio)
    requires config.capital > 0.0
    requires Evaluate(d, store, book, config, now, heldCids, heldMids).Found?
    requires Evaluate(d, store, book, config, now, heldCids, heldMids).o.methodName != "polytope_fw"
    ensures PaysAsDirect(store[d.id], Evaluate(d, store, book, config, now, heldCids, heldMids).o, book, config.capital,
                         strategy, p)
  {
    FoundMeans(d, store, book, config, now, heldCids, heldMids);
    var o := Evaluate(d, store, book, config, now, heldCids, heldMids).o;
    DirectEntryIsRiskless(store[d.id], o, book, config, now, d.originTs, strategy, p);
  }

  /** An entry made from a direct buy-all result. */
  ghost predicate BuyEntry(e: P.Entry, ids: seq<string>, yes: seq<real>, no: seq<real>, arb: ArbResult, capital: real) {
    && |ids| == |yes| == |no| && Carries(e, ids, yes, no, arb)
    && AllAtLeast(yes, MIN_PRICE) && Sum(yes) != 0.0
    && arb.bets == Proportional(ids, yes, capital, Sum(yes)) && arb.methodName == "mutex_buy_all"
  }

  lemma BuyEntryPays(e: P.Entry, ids: seq<string>, yes: seq<real>, no: seq<real>, arb: ArbResult, capital: real,
                     p: P.Portfolio)
    requires BuyEntry(e, ids, yes, no, arb, capital)
    ensures PaysWhoeverWins(e, p, capital / Sum(yes))
  {
    forall winner | winner in e.marketIds ensures P.Payout(p.NewPosition(e), winner) == capital / Sum(yes) {
      BuyAllPaysTheSame(e, ids, yes, no, arb, capital, p, winner);
    }
  }

  /** The entry of a direct opportunity is made from its result, on one side or the other. */
  lemma DirectCarries(c: Constraint, o: Opportunity, book: BookView, config: EvalConfig, now: real, originTs: real,
                      strategy: string)
    requires config.capital > 0.0 && c.markets != []
    requires FindArb(c, book, config).Some?
             && o == OpportunityOf(c, FindArb(c, book, config).value, book, config, now, originTs)
    requires o.methodName != "polytope_fw"
    ensures var ids, yes, no := IdsOf(c.markets), YesPrices(c.markets, book), NoPrices(c.markets, book);
      var arb := FindArb(c, book, config).value;
      if o.isSell then SellEntry(EntryOf(o, strategy), ids, yes, no, arb, config.capital)
      else BuyEntry(EntryOf(o, strategy), ids, yes, no, arb, config.capital)
  {
    DirectIsDirect(c, book, config);
    DirectResult(IdsOf(c.markets), YesPrices(c.markets, book), NoPrices(c.markets, book), config.capital,
      config.feeRate, config.minProfit, config.maxProfit, c.isNegRisk);
  }

  lemma DirectEntryIsRiskless(c: Constraint, o: Opportunity, book: BookView, config: EvalConfig, now: real,
                              originTs: real, strategy: string, p: P.Portfolio)
    requires config.capital > 0.0 && c.markets != []
    requires FindArb(c, book, config).Some?
             && o == OpportunityOf(c, FindArb(c, book, config).value, book, config, now, originTs)
    requires o.methodName != "polytope_fw"
    ensures PaysAsDirect(c, o, book, config.capital, strategy, p)
  {
    DirectCarries(c, o, book, config, now, originTs, strategy);
    EntryPays(EntryOf(o, strategy), IdsOf(c.markets), YesPrices(c.markets, book), NoPrices(c.markets, book),
              FindArb(c, book, config).value, config.capital, p);
  }

  lemma EntryPays(e: P.Entry, ids: seq<string>, yes: seq<real>, no: seq<real>, arb: ArbResult, capital: real,
                  p: P.Portfolio)
    requires |ids| == |no|
    requires if e.isSell then SellEntry(e, ids, yes, no, arb, capital) else BuyEntry(e, ids, yes, no, arb, capital)
    ensures PaysAs(e, ids, yes, no, capital, p)
  {
    if e.isSell {
      SellAllPaysTheSameExactly(e, ids, yes, no, arb, capital, p);
    } else {
      BuyEntryPays(e, ids, yes, no, arb, capital, p);
    }
  }

  /** A result that is not the optimiser's is the direct check's. */
  lemma DirectIsDirect(c: Constraint, book: BookView, config: EvalConfig)
    requires FindArb(c, book, config).Some? && FindArb(c, book, config).value.methodName != "polytope_fw"
    ensures FindArb(c, book, config)
         == CheckMutexArb(IdsOf(c.markets), YesPrices(c.markets, book), NoPrices(c.markets, book), config.capital,
                          config.feeRate, config.minProfit, config.maxProfit, c.isNegRisk)
  {
  }

  /** The optimiser's fallback in evaluation: it reports only what the direct check rejected as too profitable. */
  lemma FallbackInEvaluation(c: Constraint, book: BookView, config: EvalConfig)
    requires config.capital > 0.0 && config.feeRate >= 0.0 && config.minProfit > 0.0 && config.maxIter > 0
    requires FindArb(c, book, config).Some? && FindArb(c, book, config).value.methodName == "polytope_fw"
    ensures var yes := YesPrices(c.markets, book);
      && 0.9 <= Sum(yes) < 1.0
      && NetPct(config.capital / Sum(yes), config.capital, config.feeRate) > config.maxProfit
      && config.maxProfit < 1.0 / 9.0
  {
    var ids, yes, no := IdsOf(c.markets), YesPrices(c.markets, book), NoPrices(c.markets, book);
    NotDirect(c, book, config);
    F.FallbackOnlyAboveTheCap(ids, yes, no, config.capital, config.feeRate, config.minProfit, config.maxProfit,
                              c.isNegRisk, c.implications, config.maxIter);
  }

  lemma NotDirect(c: Constraint, book: BookView, config: EvalConfig)
    requires FindArb(c, book, config).Some? && FindArb(c, book, config).value.methodName == "polytope_fw"
    ensures CheckMutexArb(IdsOf(c.markets), YesPrices(c.markets, book), NoPrices(c.markets, book), config.capital,
                          config.feeRate, config.minProfit, config.maxProfit, c.isNegRisk).None?
    ensures FindArb(c, book, config)
         == PolytopeArb(IdsOf(c.markets), YesPrices(c.markets, book), Mutex, config.capital, config.feeRate,
                        config.minProfit, config.maxProfit, c.implications, config.maxIter)
  {
    assert "polytope_fw"[0] != "mutex_buy_all"[0] && "polytope_fw"[0] != "mutex_sell_all"[0];
  }

  // ---------- The entry costs the stated capital, and both books can take it ----------

  lemma {:induction false} CollectTotal(pairs: seq<(string, real)>)
    requires forall j, k :: 0 <= j < k < |pairs| ==> pairs[j].0 != pairs[k].0
    ensures Total(Collect(pairs)) == Sum(F.BetAmounts(pairs))
  {
    if pairs == [] {
      assert Collect(pairs) == map[];
    } else {
      var n := |pairs| - 1;
      CollectTotal(pairs[..n]);
      CollectKeys(pairs[..n], pairs[n].0);
      TotalUpdate(Collect(pairs[..n]), pairs[n].0, pairs[n].1);
      assert F.BetAmounts(pairs)[..n] == F.BetAmounts(pairs[..n]);
    }
  }

  lemma StakesAdd(capital: real, a: real, b: real, total: real)
    requires total != 0.0
    ensures Stake(capital, a, total) + Stake(capital, b, total) == Stake(capital, a + b, total)
  {
  }

  lemma {:induction false} StakesSpend(stakes: seq<real>, prices: seq<real>, capital: real, total: real)
    requires total != 0.0 && |stakes| == |prices|
    requires forall i :: 0 <= i < |prices| ==> stakes[i] == Stake(capital, prices[i], total)
    ensures Sum(stakes) == Stake(capital, Sum(prices), total)
  {
    if prices == [] {
      UniqueQuotient(0.0, total, 0.0);
    } else {
      var n := |prices| - 1;
      StakesSpend(stakes[..n], prices[..n], capital, total);
      StakesAdd(capital, Sum(prices[..n]), prices[n], total);
    }
  }

  lemma StakesSpendAll(stakes: seq<real>, prices: seq<real>, capital: real)
    requires Sum(prices) != 0.0 && |stakes| == |prices|
    requires forall i :: 0 <= i < |prices| ==> stakes[i] == Stake(capital, prices[i], Sum(prices))
    ensures Sum(stakes) == capital
  {
    StakesSpend(stakes, prices, capital, Sum(prices));
    WholeStake(capital, Sum(prices));
  }

  /** Staking on the whole price sum stakes the whole capital. */
  lemma WholeStake(capital: real, total: real)
    requires total != 0.0
    ensures Stake(capital, total, total) == capital
  {
    UniqueQuotient(capital * total, total, capital);
  }

  lemma ProportionalTotal(ids: seq<string>, prices: seq<real>, capital: real)
    requires |ids| == |prices| && DistinctIds(ids) && Sum(prices) != 0.0
    ensures Total(Collect(Proportional(ids, prices, capital, Sum(prices)))) == capital
  {
    var total := Sum(prices);
    var pairs := Proportional(ids, prices, capital, total);
    CollectTotal(pairs);
    StakesSpendAll(F.BetAmounts(pairs), prices, capital);
  }

  lemma ProportionalKeys(ids: seq<string>, prices: seq<real>, capital: real, mid: string)
    requires |ids| == |prices| && Sum(prices) != 0.0
    ensures mid in Collect(Proportional(ids, prices, capital, Sum(prices))) <==> mid in ids
  {
    var pairs := Proportional(ids, prices, capital, Sum(prices));
    CollectKeys(pairs, mid);
    if mid in ids {
      var i :| 0 <= i < |ids| && ids[i] == mid;
      assert pairs[i].0 == mid;
    }
  }
}
