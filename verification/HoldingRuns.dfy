/**
 Holdings along whole runs of engine steps: the ledger holds of an asset what the open legs that
 trade it hold, at what they cost, exactly while no sale leaves a crumb and nothing is rolled back.
 */
module HoldingRuns {
  import opened Totals
  import opened Positions
  import opened Engine
  import opened Exits
  import opened BooksAgree
  import opened ExitsAgree
  import opened Holdings
  import opened LegHoldings
  import A = Accounting
  import R = BookRuns

  // ---------- Open legs by asset ----------

  ghost function SharesByPosition(open: map<string, Position>, asset: string): map<string, real> {
    map pid | pid in open :: LegLot(open[pid].markets, asset).shares
  }

  ghost function BetsByPosition(open: map<string, Position>, asset: string): map<string, real> {
    map pid | pid in open :: LegLot(open[pid].markets, asset).basis
  }

  /** The shares of the asset in all open legs, and what they cost. */
  ghost function OpenLot(open: map<string, Position>, asset: string): Lot {
    Lot(Total(SharesByPosition(open, asset)), Total(BetsByPosition(open, asset)))
  }

  function LegsIn(open: map<string, Position>, pid: string): map<string, Leg> {
    if pid in open then open[pid].markets else map[]
  }

  lemma NoLegsNoLot(asset: string)
    ensures LegLot(map[], asset) == NOTHING
  {
    assert LegShares(map[], asset) == map[] && LegBets(map[], asset) == map[];
  }

  lemma OpenSharesUpdate(open: map<string, Position>, pid: string, p: Position, asset: string)
    ensures Total(SharesByPosition(open[pid := p], asset))
         == Total(SharesByPosition(open, asset)) + LegLot(p.markets, asset).shares
            - LegLot(LegsIn(open, pid), asset).shares
  {
    NoLegsNoLot(asset);
    var shares := LegLot(p.markets, asset).shares;
    assert SharesByPosition(open[pid := p], asset) == SharesByPosition(open, asset)[pid := shares];
    TotalUpdate(SharesByPosition(open, asset), pid, shares);
  }

  lemma OpenBetsUpdate(open: map<string, Position>, pid: string, p: Position, asset: string)
    ensures Total(BetsByPosition(open[pid := p], asset))
         == Total(BetsByPosition(open, asset)) + LegLot(p.markets, asset).basis
            - LegLot(LegsIn(open, pid), asset).basis
  {
    NoLegsNoLot(asset);
    var basis := LegLot(p.markets, asset).basis;
    assert BetsByPosition(open[pid := p], asset) == BetsByPosition(open, asset)[pid := basis];
    TotalUpdate(BetsByPosition(open, asset), pid, basis);
  }

  lemma OpenLotUpdate(open: map<string, Position>, pid: string, p: Position, asset: string)
    ensures OpenLot(open[pid := p], asset)
         == OpenLot(open, asset).Plus(LegLot(p.markets, asset)).Minus(LegLot(LegsIn(open, pid), asset))
  {
    OpenSharesUpdate(open, pid, p, asset);
    OpenBetsUpdate(open, pid, p, asset);
  }

  lemma OpenLotAdd(open: map<string, Position>, pid: string, p: Position, asset: string)
    requires pid !in open
    ensures OpenLot(open[pid := p], asset) == OpenLot(open, asset).Plus(LegLot(p.markets, asset))
  {
    NoLegsNoLot(asset);
    OpenLotUpdate(open, pid, p, asset);
  }

  /** Legs that keep all but what was sold. */
  lemma OpenLotReplace(open: map<string, Position>, pid: string, p: Position, asset: string, sold: Lot)
    requires pid in open && LegLot(p.markets, asset) == LegLot(open[pid].markets, asset).Minus(sold)
    ensures OpenLot(open[pid := p], asset) == OpenLot(open, asset).Minus(sold)
  {
    OpenLotUpdate(open, pid, p, asset);
  }

  lemma OpenSharesRemove(open: map<string, Position>, pid: string, asset: string)
    requires pid in open
    ensures Total(SharesByPosition(open - {pid}, asset))
         == Total(SharesByPosition(open, asset)) - LegLot(open[pid].markets, asset).shares
  {
    assert SharesByPosition(open - {pid}, asset) == SharesByPosition(open, asset) - {pid};
    TotalRemove(SharesByPosition(open, asset), pid);
  }

  lemma OpenBetsRemove(open: map<string, Position>, pid: string, asset: string)
    requires pid in open
    ensures Total(BetsByPosition(open - {pid}, asset))
         == Total(BetsByPosition(open, asset)) - LegLot(open[pid].markets, asset).basis
  {
    assert BetsByPosition(open - {pid}, asset) == BetsByPosition(open, asset) - {pid};
    TotalRemove(BetsByPosition(open, asset), pid);
  }

  lemma OpenLotRemove(open: map<string, Position>, pid: string, asset: string)
    requires pid in open
    ensures OpenLot(open - {pid}, asset) == OpenLot(open, asset).Minus(LegLot(open[pid].markets, asset))
  {
    OpenSharesRemove(open, pid, asset);
    OpenBetsRemove(open, pid, asset);
  }

  // ---------- One step ----------

  /** The ledger's holding of the asset is what the open legs that trade it hold, at their cost. */
  ghost predicate Matches(s: State, asset: string) {
    Held(s.ledger.holdings, asset) == OpenLot(s.portfolio.open, asset)
  }

  /** A sale that leaves a crumb loses it: more than a thousandth of a share must be left, or nothing. */
  predicate NoCrumb(rest: Lot) { rest.shares > 0.001 || rest == NOTHING }

  lemma SalesMatchExactly(before: map<string, A.AssetHolding>, after: map<string, A.AssetHolding>, asset: string,
                          sold: Lot, some: bool, open: Lot)
    requires Held(before, asset) == open && AfterSales(before, after, asset, sold, some)
    ensures Held(after, asset) == open.Minus(sold) <==> !some || NoCrumb(open.Minus(sold))
  {
  }

  lemma EnterMatches(s: State, pid: string, e: Entry, order: seq<string>, asset: string)
    requires Enumerates(order, EntryLegs(e).Keys) && Matches(s, asset)
    requires pid !in s.portfolio.open && Untouched(s.ledger, pid)
    ensures Matches(Enter(s, pid, e, order), asset)
  {
    if s.portfolio.Accepts(e) {
      var p := s.portfolio.NewPosition(e);
      EntryHolds(s.ledger, pid, p.markets, FeePerLeg(p), order, asset);
      AlongIsTotal(p.markets, asset, order);
      OpenLotAdd(s.portfolio.open, pid, p, asset);
    }
  }

  /** Some leg that is sold at resolution, or at liquidation, trades the asset. */
  predicate SomeLeg(markets: map<string, Leg>, asset: string, all: bool) {
    exists mid :: mid in markets && Trades(mid, markets[mid], asset) && (all || !Skipped(markets[mid]))
  }

  lemma {:induction false} TouchesAlong(markets: map<string, Leg>, asset: string, order: seq<string>, all: bool)
    requires forall mid :: mid in order ==> mid in markets
    ensures Touches(markets, asset, order, all)
       <==> exists mid :: mid in order && Trades(mid, markets[mid], asset) && (all || !Skipped(markets[mid]))
  {
    if order != [] {
      TouchesAlong(markets, asset, order[..|order| - 1], all);
      assert order == order[..|order| - 1] + [order[|order| - 1]];
    }
  }

  lemma ResolutionSells(l: A.Ledger, pid: string, p: Position, winner: string, order: seq<string>, asset: string)
    requires BookedOnce(l, pid, p) && Bookable(p) && Enumerates(order, p.markets.Keys)
    ensures AfterSales(l.holdings, BookResolution(l, pid, p.markets, winner, Payout(p, winner), order).holdings, asset,
                       LegLot(p.markets, asset), SomeLeg(p.markets, asset, false))
  {
    ResolutionHolds(l, pid, p.markets, winner, Payout(p, winner), order, asset);
    AlongIsTotal(p.markets, asset, order);
    TouchesAlong(p.markets, asset, order, false);
  }

  lemma ResolveMatchesExactly(s: State, pid: string, winner: string, order: seq<string>, refunded: real, asset: string)
    requires Invariant(s, refunded) && pid in s.portfolio.open && Matches(s, asset)
    requires Enumerates(order, s.portfolio.open[pid].markets.Keys)
    ensures var legs := s.portfolio.open[pid].markets;
      Matches(Resolve(s, pid, winner, order), asset)
      <==> !SomeLeg(legs, asset, false) || NoCrumb(OpenLot(s.portfolio.open, asset).Minus(LegLot(legs, asset)))
  {
    var p, open := s.portfolio.open[pid], s.portfolio.open;
    var r := Resolve(s, pid, winner, order);
    assert OpenLot(r.portfolio.open, asset) == OpenLot(open, asset).Minus(LegLot(p.markets, asset)) by {
      OpenLotRemove(open, pid, asset);
    }
    assert BookedOnce(s.ledger, pid, p) && Bookable(p);
    ResolutionSells(s.ledger, pid, p, winner, order, asset);
    SalesMatchExactly(s.ledger.holdings, r.ledger.holdings, asset, LegLot(p.markets, asset),
                      SomeLeg(p.markets, asset, false), OpenLot(open, asset));
  }

  lemma LiquidationSells(l: A.Ledger, pid: string, p: Position, bids: map<string, real>, takerFee: real,
                         order: seq<string>, asset: string)
    requires BookedOnce(l, pid, p) && Bookable(p) && Enumerates(order, p.markets.Keys)
    ensures AfterSales(l.holdings, BookSale(l, pid, p.markets, bids, takerFee, order).holdings, asset,
                       LegLot(p.markets, asset), SomeLeg(p.markets, asset, true))
  {
    SaleHolds(l, pid, p.markets, bids, takerFee, order, asset);
    AlongIsTotal(p.markets, asset, order);
    TouchesAlong(p.markets, asset, order, true);
  }

  lemma LiquidateMatchesExactly(s: State, pid: string, bids: map<string, real>, order: seq<string>, refunded: real,
                                asset: string)
    requires Invariant(s, refunded) && pid in s.portfolio.open && Matches(s, asset)
    requires Enumerates(order, s.portfolio.open[pid].markets.Keys)
    ensures var legs := s.portfolio.open[pid].markets;
      Matches(Liquidate(s, pid, bids, order), asset)
      <==> !SomeLeg(legs, asset, true) || NoCrumb(OpenLot(s.portfolio.open, asset).Minus(LegLot(legs, asset)))
  {
    var p, open := s.portfolio.open[pid], s.portfolio.open;
    var r := Liquidate(s, pid, bids, order);
    assert OpenLot(r.portfolio.open, asset) == OpenLot(open, asset).Minus(LegLot(p.markets, asset)) by {
      OpenLotRemove(open, pid, asset);
    }
    assert BookedOnce(s.ledger, pid, p) && Bookable(p);
    LiquidationSells(s.ledger, pid, p, bids, s.portfolio.takerFee, order, asset);
    SalesMatchExactly(s.ledger.holdings, r.ledger.holdings, asset, LegLot(p.markets, asset),
                      SomeLeg(p.markets, asset, true), OpenLot(open, asset));
  }

  /** A rollback leaves the holdings, so the match survives it only where the position trades none of the asset. */
  lemma RollBackMatchesExactly(s: State, pid: string, asset: string)
    requires pid in s.portfolio.open && Matches(s, asset)
    ensures Matches(RollBack(s, pid), asset) <==> LegLot(s.portfolio.open[pid].markets, asset) == NOTHING
  {
    OpenLotRemove(s.portfolio.open, pid, asset);
  }

  // ---------- Exits ----------

  /** A closed position whose bets are gone holds no shares either. */
  lemma NoDustNoLot(s: State, pid: string, fills: seq<ExitFill>, asset: string)
    requires pid in s.portfolio.open && Bookable(s.portfolio.open[pid])
    requires Closes(s, pid, fills) && Dust(s, pid, fills) == 0.0
    ensures LegLot(TallyFills(s.portfolio.open[pid].markets, fills, s.portfolio.takerFee).markets, asset) == NOTHING
  {
    var p := s.portfolio.open[pid];
    var left := TallyFills(p.markets, fills, s.portfolio.takerFee).markets;
    DustIsSmall(s, pid, fills);
    ExitedStaysBookable(p, fills, s.portfolio.takerFee);
    forall mid | mid in left ensures left[mid].shares == 0.0 && left[mid].bet == 0.0 {
      assert LegBookable(left[mid]);
    }
    TotalConstant(LegShares(left, asset), 0.0);
    TotalConstant(LegBets(left, asset), 0.0);
  }

  lemma ClosingRemoves(s: State, pid: string, fills: seq<ExitFill>)
    requires pid in s.portfolio.open && Closes(s, pid, fills)
    ensures Exit(s, pid, fills).portfolio.open == s.portfolio.open - {pid}
  {
  }

  lemma AllSold(held: Lot, sold: Lot, left: Lot)
    requires left == held.Minus(sold) && left == NOTHING
    ensures held == sold
  {
  }

  lemma ExitOpenLot(s: State, pid: string, fills: seq<ExitFill>, asset: string)
    requires pid in s.portfolio.open && Bookable(s.portfolio.open[pid])
    requires Fresh(s.ledger.recorded, pid, s.portfolio.open[pid].markets, fills) && CleanExit(s, pid, fills)
    ensures OpenLot(Exit(s, pid, fills).portfolio.open, asset)
         == OpenLot(s.portfolio.open, asset).Minus(FillsLot(s.portfolio.open[pid].markets, fills, asset))
  {
    var p, fee := s.portfolio.open[pid], s.portfolio.takerFee;
    ExitLegs(s.ledger.recorded, pid, p.markets, fills, fee, asset);
    if Closes(s, pid, fills) {
      ClosingRemoves(s, pid, fills);
      NoDustNoLot(s, pid, fills, asset);
      AllSold(LegLot(p.markets, asset), FillsLot(p.markets, fills, asset),
              LegLot(TallyFills(p.markets, fills, fee).markets, asset));
      OpenLotRemove(s.portfolio.open, pid, asset);
    } else {
      OpenLotReplace(s.portfolio.open, pid, AfterExit(p, fills, fee), asset, FillsLot(p.markets, fills, asset));
    }
  }

  lemma ExitMatchesExactly(s: State, pid: string, fills: seq<ExitFill>, refunded: real, asset: string)
    requires Invariant(s, refunded) && pid in s.portfolio.open && Matches(s, asset)
    requires Fresh(s.ledger.recorded, pid, s.portfolio.open[pid].markets, fills) && CleanExit(s, pid, fills)
    ensures var legs := s.portfolio.open[pid].markets;
      Matches(Exit(s, pid, fills), asset)
      <==> || !FillsTouch(legs, fills, asset)
           || NoCrumb(OpenLot(s.portfolio.open, asset).Minus(FillsLot(legs, fills, asset)))
  {
    var p := s.portfolio.open[pid];
    assert Bookable(p);
    ExitOpenLot(s, pid, fills, asset);
    ExitHolds(s.ledger, pid, p.markets, fills, s.portfolio.takerFee, asset);
    SalesMatchExactly(s.ledger.holdings, Exit(s, pid, fills).ledger.holdings, asset, FillsLot(p.markets, fills, asset),
                      FillsTouch(p.markets, fills, asset), OpenLot(s.portfolio.open, asset));
  }

  // ---------- Whole runs ----------

  /** What a caller can check before the step: whether it sells the asset, and what would be left of it. */
  ghost predicate Settles(s: State, st: R.Step, asset: string) {
    var open := s.portfolio.open;
    match st
    case EnterStep(_, _, _) => true
    case RollBackStep(pid) => pid in open ==> LegLot(open[pid].markets, asset) == NOTHING
    case ResolveStep(pid, _, _) =>
      pid in open && SomeLeg(open[pid].markets, asset, false) ==>
        NoCrumb(OpenLot(open, asset).Minus(LegLot(open[pid].markets, asset)))
    case LiquidateStep(pid, _, _) =>
      pid in open && SomeLeg(open[pid].markets, asset, true) ==>
        NoCrumb(OpenLot(open, asset).Minus(LegLot(open[pid].markets, asset)))
    case ExitStep(pid, fills) =>
      pid in open && FillsTouch(open[pid].markets, fills, asset) ==>
        NoCrumb(OpenLot(open, asset).Minus(FillsLot(open[pid].markets, fills, asset)))
  }

  /** An admissible step keeps the holding of an asset in line with the open legs exactly when it settles the asset. */
  lemma StepMatchesExactly(s: State, st: R.Step, refunded: real, asset: string)
    requires Invariant(s, refunded) && R.Admissible(s, st) && Matches(s, asset)
    ensures Matches(R.Apply(s, st), asset) <==> Settles(s, st, asset)
  {
    match st {
      case EnterStep(pid, e, order) => EnterMatches(s, pid, e, order, asset);
      case ResolveStep(pid, winner, order) =>
        if pid in s.portfolio.open { ResolveMatchesExactly(s, pid, winner, order, refunded, asset); }
      case LiquidateStep(pid, bids, order) =>
        if pid in s.portfolio.open { LiquidateMatchesExactly(s, pid, bids, order, refunded, asset); }
      case ExitStep(pid, fills) =>
        if pid in s.portfolio.open { ExitMatchesExactly(s, pid, fills, refunded, asset); }
      case RollBackStep(pid) =>
        if pid in s.portfolio.open { RollBackMatchesExactly(s, pid, asset); }
    }
  }

  ghost predicate MatchesThroughout(s: State, steps: seq<R.Step>, asset: string)
    requires R.AdmissibleRun(s, steps)
    decreases |steps|
  {
    Matches(s, asset) && (steps == [] || MatchesThroughout(R.Apply(s, steps[0]), steps[1..], asset))
  }

  ghost predicate SettlesThroughout(s: State, steps: seq<R.Step>, asset: string)
    requires R.AdmissibleRun(s, steps)
    decreases |steps|
  {
    steps == [] || (Settles(s, steps[0], asset) && SettlesThroughout(R.Apply(s, steps[0]), steps[1..], asset))
  }

  lemma {:induction false} RunMatchesExactly(s: State, steps: seq<R.Step>, refunded: real, asset: string)
    requires Invariant(s, refunded) && R.AdmissibleRun(s, steps) && Matches(s, asset)
    ensures MatchesThroughout(s, steps, asset) <==> SettlesThroughout(s, steps, asset)
    decreases |steps|
  {
    if steps != [] {
      StepMatchesExactly(s, steps[0], refunded, asset);
      if Settles(s, steps[0], asset) {
        R.StepKeepsInvariant(s, steps[0], refunded);
        RunMatchesExactly(R.Apply(s, steps[0]), steps[1..], refunded + R.StepRefund(s, steps[0]), asset);
      }
    }
  }

  /**
   From a fresh engine, along every admissible run, the ledger holds of an asset at every point exactly
   what the open legs trade of it, at their cost, if and only if every step of the run settles it.
   */
  lemma HoldingsMatchLegsExactly(initial: real, takerFee: real, steps: seq<R.Step>, asset: string)
    requires 0.0 <= takerFee <= 1.0 && R.AdmissibleRun(Init(initial, takerFee), steps)
    ensures MatchesThroughout(Init(initial, takerFee), steps, asset)
       <==> SettlesThroughout(Init(initial, takerFee), steps, asset)
  {
    var s := Init(initial, takerFee);
    assert Capitals(s.portfolio.open) == map[] && FeesPaid(s.portfolio.open) == map[];
    assert SharesByPosition(s.portfolio.open, asset) == map[] && BetsByPosition(s.portfolio.open, asset) == map[];
    RunMatchesExactly(s, steps, 0.0, asset);
  }

  /** An asset that only the closing position trades always settles when it is resolved or liquidated. */
  lemma SoleHolderSettles(s: State, st: R.Step, asset: string)
    requires st.ResolveStep? || st.LiquidateStep?
    requires st.pid in s.portfolio.open
    requires forall pid :: pid in s.portfolio.open && pid != st.pid ==>
      !SomeLeg(s.portfolio.open[pid].markets, asset, true)
    ensures Settles(s, st, asset)
  {
    var others := s.portfolio.open - {st.pid};
    OpenLotRemove(s.portfolio.open, st.pid, asset);
    forall pid | pid in others ensures LegLot(others[pid].markets, asset) == NOTHING {
      NoLegTrades(others[pid].markets, asset);
    }
    TotalConstant(SharesByPosition(others, asset), 0.0);
    TotalConstant(BetsByPosition(others, asset), 0.0);
  }

  lemma NoLegTrades(markets: map<string, Leg>, asset: string)
    requires !SomeLeg(markets, asset, true)
    ensures LegLot(markets, asset) == NOTHING
  {
    forall mid | mid in markets ensures !Trades(mid, markets[mid], asset) {
    }
    TotalConstant(LegShares(markets, asset), 0.0);
    TotalConstant(LegBets(markets, asset), 0.0);
  }
}
