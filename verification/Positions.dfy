/**
 The position manager: entry, resolution, liquidation, rollback and partial exits, with the
 capital each of them moves. `Portfolio` and its functions say what each operation does;
 class `PositionManager` performs it in place.
 */
module Positions {
  import opened Totals

  datatype Leg = Leg(
    entryPrice: real, bet: real, holdsNo: bool, shares: real,
    token: string, intendedShares: real, actualShares: real)

  datatype Position = Position(
    markets: map<string, Leg>, totalCapital: real, expectedProfit: real, feesPaid: real,
    methodName: string, isSell: Option<bool>, strategy: Option<string>,
    actualPayout: real, actualProfit: real)

  /** What a caller passes to enter a position. */
  datatype Entry = Entry(
    marketIds: seq<string>, prices: map<string, real>, noPrices: map<string, real>, bets: map<string, real>,
    expectedProfit: real, methodName: string, strategy: string, isSell: bool)

  datatype ExitFill = ExitFill(market: string, shares: real, price: real)

  /** Profits this close to zero count as neither win nor loss. */
  const WIN_LOSS_THRESHOLD := 0.001
  const MIN_NO_PRICE := 0.001
  const EXHAUSTED := 0.000000001

  function GetOr(m: map<string, real>, k: string, default: real): real { if k in m then m[k] else default }

  predicate ContainsSell(s: string) { |s| >= 4 && (s[..4] == "sell" || ContainsSell(s[1..])) }

  // ---------- Legs ----------

  function NoPrice(e: Entry, mid: string): real {
    Max(GetOr(e.noPrices, mid, Max(1.0 - GetOr(e.prices, mid, 0.0), MIN_NO_PRICE)), MIN_NO_PRICE)
  }

  function EntryShares(e: Entry, mid: string): real {
    var price := GetOr(e.prices, mid, 0.0);
    var bet := GetOr(e.bets, mid, 0.0);
    if e.isSell then bet / NoPrice(e, mid) else if price > 0.0 then bet / price else 0.0
  }

  function EntryLeg(e: Entry, mid: string): Leg {
    Leg(GetOr(e.prices, mid, 0.0), GetOr(e.bets, mid, 0.0), e.isSell, EntryShares(e, mid), "", EntryShares(e, mid), 0.0)
  }

  function EntryLegs(e: Entry): map<string, Leg> { map mid | mid in e.marketIds :: EntryLeg(e, mid) }

  ghost function Bets(markets: map<string, Leg>): map<string, real> { map mid | mid in markets :: markets[mid].bet }

  // ---------- Resolution and liquidation values ----------

  /** Whether resolution pays the NO side: the method says so, or, without a method, the metadata does. */
  predicate ResolvesAsSell(p: Position) {
    ContainsSell(p.methodName) ||
    (p.methodName == "" &&
     match p.isSell
     case Some(b) => b
     case None => p.strategy.Some? && ContainsSell(p.strategy.value))
  }

  function NoLegPayout(leg: Leg): real {
    if leg.shares > 0.0 then leg.shares
    else if 1.0 - leg.entryPrice > 0.0 then leg.bet / (1.0 - leg.entryPrice) else 0.0
  }

  function LosingLegPayout(markets: map<string, Leg>, winner: string): map<string, real> {
    map mid | mid in markets :: if mid != winner then NoLegPayout(markets[mid]) else 0.0
  }

  ghost function Payout(p: Position, winner: string): real {
    if ResolvesAsSell(p) then Total(LosingLegPayout(p.markets, winner))
    else if winner in p.markets && p.markets[winner].entryPrice > 0.0 then
      p.markets[winner].bet / p.markets[winner].entryPrice
    else 0.0
  }

  /** The shares liquidation assumes a leg holds, recomputed from its bet and YES entry price. */
  function ValuedShares(p: Position, leg: Leg): real {
    if ContainsSell(p.methodName) then
      if 1.0 - leg.entryPrice > 0.0 then leg.bet / (1.0 - leg.entryPrice) else 0.0
    else if leg.entryPrice > 0.0 then leg.bet / leg.entryPrice else 0.0
  }

  function LegSale(p: Position, bids: map<string, real>): map<string, real> {
    map mid | mid in p.markets :: Product(ValuedShares(p, p.markets[mid]), GetOr(bids, mid, 0.0))
  }

  ghost function SaleProceeds(p: Position, bids: map<string, real>): real { Total(LegSale(p, bids)) }

  // ---------- Partial exits ----------

  datatype ExitTally = ExitTally(markets: map<string, Leg>, proceeds: real, fees: real, cost: real)

  function CostPerShare(leg: Leg): real { if leg.shares > 0.0 then leg.bet / leg.shares else 0.0 }

  function Cleared(leg: Leg, filled: real): real { Min(filled, Max(leg.shares, 0.0)) }

  function ReducedLeg(leg: Leg, filled: real): Leg {
    var cleared := Cleared(leg, filled);
    leg.(shares := Max(leg.shares - cleared, 0.0),
         bet := Max(leg.bet - Product(CostPerShare(leg), cleared), 0.0))
  }

  function TallyFill(t: ExitTally, fill: ExitFill, takerFee: real): ExitTally {
    if fill.shares <= 0.0 || fill.market !in t.markets then t else
      var leg := t.markets[fill.market];
      var cleared := Cleared(leg, fill.shares);
      var gross := Product(cleared, fill.price);
      var fee := Product(takerFee, gross);
      ExitTally(t.markets[fill.market := ReducedLeg(leg, fill.shares)],
                t.proceeds + (gross - fee), t.fees + fee,
                t.cost + Product(CostPerShare(leg), cleared))
  }

  function TallyFills(markets: map<string, Leg>, fills: seq<ExitFill>, takerFee: real): ExitTally {
    if fills == [] then ExitTally(markets, 0.0, 0.0, 0.0)
    else TallyFill(TallyFills(markets, fills[..|fills| - 1], takerFee), fills[|fills| - 1], takerFee)
  }

  ghost predicate AllExhausted(markets: map<string, Leg>) {
    forall mid :: mid in markets ==> markets[mid].shares <= EXHAUSTED
  }

  /** The position after a batch of exit fills, before it is either kept open or closed. */
  function AfterExit(p: Position, fills: seq<ExitFill>, takerFee: real): Position {
    var t := TallyFills(p.markets, fills, takerFee);
    p.(markets := t.markets,
       actualPayout := p.actualPayout + t.proceeds,
       actualProfit := p.actualProfit + (t.proceeds - t.cost),
       feesPaid := p.feesPaid + t.fees,
       totalCapital := Max(p.totalCapital - t.cost, 0.0))
  }

  // ---------- The portfolio ----------

  datatype Portfolio = Portfolio(
    capital: real, initial: real, takerFee: real,
    open: map<string, Position>, closed: seq<Position>,
    trades: nat, wins: nat, losses: nat, profit: real, expected: real)
  {
    ghost function Required(e: Entry): real { Total(e.bets) + Product(takerFee, Total(e.bets)) }

    ghost predicate Accepts(e: Entry) { capital >= Required(e) }

    ghost function NewPosition(e: Entry): Position {
      Position(EntryLegs(e), Total(e.bets), e.expectedProfit, Product(takerFee, Total(e.bets)),
               e.methodName, Some(e.isSell), Some(e.strategy), 0.0, 0.0)
    }

    ghost function Enter(pid: string, e: Entry): Portfolio {
      if !Accepts(e) then this else
        this.(capital := capital - Required(e), trades := trades + 1, expected := expected + e.expectedProfit,
              open := open[pid := NewPosition(e)])
    }

    /** Moves an open position to the closed list, crediting what it paid. */
    function Close(pid: string, done: Position): Portfolio {
      this.(open := open - {pid}, closed := closed + [done],
            capital := capital + done.actualPayout, profit := profit + done.actualProfit,
            wins := if done.actualProfit > WIN_LOSS_THRESHOLD then wins + 1 else wins,
            losses := if done.actualProfit < -WIN_LOSS_THRESHOLD then losses + 1 else losses)
    }

    function PaidOut(p: Position, payout: real): Position {
      p.(actualPayout := payout, actualProfit := payout - (p.totalCapital + p.feesPaid))
    }

    ghost function Resolve(pid: string, winner: string): Portfolio {
      if pid !in open then this else Close(pid, PaidOut(open[pid], Payout(open[pid], winner)))
    }

    ghost function NetSale(p: Position, bids: map<string, real>): real {
      SaleProceeds(p, bids) - Product(takerFee, SaleProceeds(p, bids))
    }

    ghost function Liquidate(pid: string, bids: map<string, real>): Portfolio {
      if pid !in open then this else Close(pid, PaidOut(open[pid], NetSale(open[pid], bids)))
    }

    /** A rolled back entry: the capital comes back, the entry fee does not. */
    function RollBack(pid: string): Portfolio {
      if pid !in open then this else
        this.(open := open - {pid},
              capital := if open[pid].totalCapital > 0.0 then capital + open[pid].totalCapital else capital)
    }

    ghost function Exit(pid: string, fills: seq<ExitFill>): Portfolio {
      if pid !in open then this else
        var p := AfterExit(open[pid], fills, takerFee);
        var t := TallyFills(open[pid].markets, fills, takerFee);
        if AllExhausted(p.markets) then Close(pid, p)
        else this.(open := open[pid := p], capital := capital + t.proceeds, profit := profit + (t.proceeds - t.cost))
    }
  }

  function NewPortfolio(initial: real, takerFee: real): Portfolio {
    Portfolio(initial, initial, takerFee, map[], [], 0, 0, 0, 0.0, 0.0)
  }

  // ---------- The manager as the program keeps it ----------

  class PositionManager {
    var capital: real
    var initial: real
    var takerFee: real
    var open: map<string, Position>
    var closed: seq<Position>
    var trades: nat
    var wins: nat
    var losses: nat
    var profit: real
    var expected: real

    function View(): Portfolio
      reads this
    {
      Portfolio(capital, initial, takerFee, open, closed, trades, wins, losses, profit, expected)
    }

    constructor (initialCapital: real, fee: real)
      ensures View() == NewPortfolio(initialCapital, fee)
    {
      capital, initial, takerFee := initialCapital, initialCapital, fee;
      open, closed, trades, wins, losses, profit, expected := map[], [], 0, 0, 0, 0.0, 0.0;
    }

    static method BuildLegs(e: Entry) returns (markets: map<string, Leg>)
      ensures markets == EntryLegs(e)
    {
      markets := map[];
      for i := 0 to |e.marketIds|
        invariant markets == map mid | mid in e.marketIds[..i] :: EntryLeg(e, mid)
      {
        var mid := e.marketIds[i];
        var price := GetOr(e.prices, mid, 0.0);
        var bet := GetOr(e.bets, mid, 0.0);
        var shares;
        if e.isSell {
          var listed := if mid in e.noPrices then e.noPrices[mid] else Max(1.0 - price, MIN_NO_PRICE);
          var noPrice := Max(listed, MIN_NO_PRICE);
          shares := bet / noPrice;
        } else {
          shares := if price > 0.0 then bet / price else 0.0;
        }
        assert shares == EntryShares(e, mid);
        markets := markets[mid := Leg(price, bet, e.isSell, shares, "", shares, 0.0)];
        assert e.marketIds[..i + 1] == e.marketIds[..i] + [mid];
      }
      assert e.marketIds[..|e.marketIds|] == e.marketIds;
    }

    method EnterPosition(pid: string, e: Entry) returns (entered: bool)
      modifies this
      ensures entered == old(View()).Accepts(e)
      ensures View() == old(View()).Enter(pid, e)
    {
      var totalCost := SumValues(e.bets);
      var fees := Product(takerFee, totalCost);
      var required := totalCost + fees;
      if capital < required {
        return false;
      }
      var markets := BuildLegs(e);
      open := open[pid := Position(markets, totalCost, e.expectedProfit, fees,
                                   e.methodName, Some(e.isSell), Some(e.strategy), 0.0, 0.0)];
      capital := capital - required;
      trades := trades + 1;
      expected := expected + e.expectedProfit;
      return true;
    }

    method Settle(pid: string, done: Position)
      requires pid in open
      modifies this
      ensures View() == old(View()).Close(pid, done)
    {
      open := open - {pid};
      capital := capital + done.actualPayout;
      profit := profit + done.actualProfit;
      if done.actualProfit > WIN_LOSS_THRESHOLD {
        wins := wins + 1;
      } else if done.actualProfit < -WIN_LOSS_THRESHOLD {
        losses := losses + 1;
      }
      closed := closed + [done];
    }

    method ResolutionPayout(p: Position, winner: string) returns (payout: real)
      ensures payout == Payout(p, winner)
    {
      if ResolvesAsSell(p) {
        payout := 0.0;
        var order := IterationOrder(p.markets);
        ghost var pays := Along(LosingLegPayout(p.markets, winner), order);
        for i := 0 to |order|
          invariant payout == Sum(pays[..i])
        {
          SumStep(pays, i);
          var leg := p.markets[order[i]];
          if order[i] != winner {
            if leg.shares > 0.0 {
              payout := payout + leg.shares;
            } else {
              var noPrice := 1.0 - leg.entryPrice;
              if noPrice > 0.0 {
                payout := payout + leg.bet / noPrice;
              }
            }
          }
        }
        assert pays[..|order|] == pays;
        TotalAlong(LosingLegPayout(p.markets, winner), order);
      } else if winner in p.markets && p.markets[winner].entryPrice > 0.0 {
        payout := p.markets[winner].bet / p.markets[winner].entryPrice;
      } else {
        payout := 0.0;
      }
    }

    method CloseOnResolution(pid: string, winner: string) returns (event: Option<real>)
      modifies this
      ensures event == if pid in old(open) then Some(Payout(old(open)[pid], winner)) else None
      ensures View() == old(View()).Resolve(pid, winner)
    {
      if pid !in open {
        return None;
      }
      var p := open[pid];
      var payout := ResolutionPayout(p, winner);
      Settle(pid, p.(actualPayout := payout, actualProfit := payout - (p.totalCapital + p.feesPaid)));
      return Some(payout);
    }

    method LiquidationSale(p: Position, bids: map<string, real>) returns (proceeds: real)
      ensures proceeds == SaleProceeds(p, bids)
    {
      proceeds := 0.0;
      var order := IterationOrder(p.markets);
      ghost var sales := Along(LegSale(p, bids), order);
      for i := 0 to |order|
        invariant proceeds == Sum(sales[..i])
      {
        SumStep(sales, i);
        proceeds := proceeds + Product(ValuedShares(p, p.markets[order[i]]), GetOr(bids, order[i], 0.0));
      }
      assert sales[..|order|] == sales;
      TotalAlong(LegSale(p, bids), order);
    }

    method LiquidatePosition(pid: string, bids: map<string, real>) returns (net: Option<real>)
      modifies this
      ensures net == if pid in old(open) then Some(old(View()).NetSale(old(open)[pid], bids)) else None
      ensures View() == old(View()).Liquidate(pid, bids)
    {
      if pid !in open {
        return None;
      }
      var p := open[pid];
      var proceeds := LiquidationSale(p, bids);
      var netProceeds := proceeds - Product(takerFee, proceeds);
      Settle(pid, p.(actualPayout := netProceeds, actualProfit := netProceeds - (p.totalCapital + p.feesPaid)));
      return Some(netProceeds);
    }

    method RollBackEntry(pid: string) returns (removed: Option<Position>)
      modifies this
      ensures removed == if pid in old(open) then Some(old(open)[pid]) else None
      ensures View() == old(View()).RollBack(pid)
    {
      if pid !in open {
        return None;
      }
      var p := open[pid];
      open := open - {pid};
      if p.totalCapital > 0.0 {
        capital := capital + p.totalCapital;
      }
      return Some(p);
    }

    static method ClearFills(markets: map<string, Leg>, fills: seq<ExitFill>, takerFee: real) returns (t: ExitTally)
      ensures t == TallyFills(markets, fills, takerFee)
    {
      var legs, proceeds, fees, cost := markets, 0.0, 0.0, 0.0;
      for i := 0 to |fills|
        invariant ExitTally(legs, proceeds, fees, cost) == TallyFills(markets, fills[..i], takerFee)
      {
        assert fills[..i + 1][..i] == fills[..i];
        var fill := fills[i];
        if fill.shares <= 0.0 || fill.market !in legs {
          continue;
        }
        var leg := legs[fill.market];
        var cleared := Min(fill.shares, Max(leg.shares, 0.0));
        var perShare := if leg.shares > 0.0 then leg.bet / leg.shares else 0.0;
        var costCleared := Product(perShare, cleared);
        var gross := Product(cleared, fill.price);
        var legFee := Product(takerFee, gross);
        proceeds := proceeds + (gross - legFee);
        fees := fees + legFee;
        cost := cost + costCleared;
        legs := legs[fill.market := leg.(shares := Max(leg.shares - cleared, 0.0),
                                         bet := Max(leg.bet - costCleared, 0.0))];
      }
      assert fills[..|fills|] == fills;
      t := ExitTally(legs, proceeds, fees, cost);
    }

    static method LegsExhausted(markets: map<string, Leg>) returns (all: bool)
      ensures all == AllExhausted(markets)
    {
      var order := IterationOrder(markets);
      for i := 0 to |order|
        invariant forall k :: 0 <= k < i ==> markets[order[k]].shares <= EXHAUSTED
      {
        if markets[order[i]].shares > EXHAUSTED {
          return false;
        }
      }
      return true;
    }

    method ApplyExitFills(pid: string, fills: seq<ExitFill>) returns (closedNow: bool)
      modifies this
      ensures View() == old(View()).Exit(pid, fills)
      ensures closedNow <==> pid in old(open) && pid !in open
    {
      if pid !in open {
        return false;
      }
      var before := open[pid];
      var t := ClearFills(before.markets, fills, takerFee);
      var p := before.(markets := t.markets,
                       actualPayout := before.actualPayout + t.proceeds,
                       actualProfit := before.actualProfit + (t.proceeds - t.cost),
                       feesPaid := before.feesPaid + t.fees,
                       totalCapital := Max(before.totalCapital - t.cost, 0.0));
      closedNow := LegsExhausted(p.markets);
      if closedNow {
        Settle(pid, p);
      } else {
        open := open[pid := p];
        capital := capital + t.proceeds;
        profit := profit + (t.proceeds - t.cost);
      }
    }
  }
}
