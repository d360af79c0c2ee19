/**
 The engine steps that drive both books: the position manager and the ledger. Legs are
 booked in the iteration order of a hash map, which is unspecified; every function takes
 that order as a parameter, and every theorem holds for all orders.
 */
module Engine {
  import opened Totals
  import opened Positions
  import A = Accounting

  datatype State = State(portfolio: Portfolio, ledger: A.Ledger)

  function Asset(mid: string, leg: Leg): string { if leg.token != "" then leg.token else mid }

  // ---------- Booking legs ----------

  function BookEntry(l: A.Ledger, pid: string, markets: map<string, Leg>, feeEach: real, order: seq<string>): A.Ledger
    requires forall mid :: mid in order ==> mid in markets
  {
    if order == [] then l else
      var mid := order[|order| - 1];
      BookEntry(l, pid, markets, feeEach, order[..|order| - 1])
      .RecordBuyDedup(A.EntryKey(pid, mid), pid, markets[mid].bet, feeEach,
                      Asset(mid, markets[mid]), mid, markets[mid].shares)
  }

  /** An empty leg is not booked at resolution. */
  predicate Skipped(leg: Leg) { leg.shares <= 0.0 && leg.bet <= 0.0 }

  function BookResolution(l: A.Ledger, pid: string, markets: map<string, Leg>, winner: string, payout: real,
                          order: seq<string>): A.Ledger
    requires forall mid :: mid in order ==> mid in markets
  {
    if order == [] then l else
      var mid := order[|order| - 1];
      var before := BookResolution(l, pid, markets, winner, payout, order[..|order| - 1]);
      if Skipped(markets[mid]) then before else
        before.RecordSellDedup(A.ResolveKey(pid, mid), pid, if mid == winner then payout else 0.0,
                               markets[mid].bet, 0.0, Asset(mid, markets[mid]), markets[mid].shares)
  }

  function LegProceeds(mid: string, leg: Leg, bids: map<string, real>): real {
    Product(leg.shares, GetOr(bids, mid, 0.0))
  }

  function BookSale(l: A.Ledger, pid: string, markets: map<string, Leg>, bids: map<string, real>, takerFee: real,
                    order: seq<string>): A.Ledger
    requires forall mid :: mid in order ==> mid in markets
  {
    if order == [] then l else
      var mid := order[|order| - 1];
      var proceeds := LegProceeds(mid, markets[mid], bids);
      BookSale(l, pid, markets, bids, takerFee, order[..|order| - 1])
      .RecordSellDedup(A.LiquidateKey(pid, mid), pid, proceeds, markets[mid].bet, Product(takerFee, proceeds),
                       Asset(mid, markets[mid]), markets[mid].shares)
  }

  /** One exit fill, at the cost per share the leg had before the batch. */
  function BookExit(l: A.Ledger, pid: string, markets: map<string, Leg>, fill: ExitFill, takerFee: real): A.Ledger {
    if fill.shares <= 0.0 || fill.market !in markets then l else
      var leg := markets[fill.market];
      var proceeds := Product(fill.shares, fill.price);
      l.RecordSellDedup(A.ExitKey(pid, fill.market), pid, proceeds, Product(CostPerShare(leg), fill.shares),
                        Product(takerFee, proceeds), Asset(fill.market, leg), fill.shares)
  }

  function BookExits(l: A.Ledger, pid: string, markets: map<string, Leg>, fills: seq<ExitFill>, takerFee: real)
    : A.Ledger
  {
    if fills == [] then l else
      BookExit(BookExits(l, pid, markets, fills[..|fills| - 1], takerFee), pid, markets, fills[|fills| - 1], takerFee)
  }

  function FeePerLeg(p: Position): real {
    if p.markets == map[] then 0.0 else p.feesPaid / |p.markets| as real
  }

  // ---------- Engine steps ----------

  ghost function Init(initial: real, takerFee: real): State {
    State(NewPortfolio(initial, takerFee), A.Opening(initial))
  }

  ghost function Enter(s: State, pid: string, e: Entry, order: seq<string>): State
    requires Enumerates(order, EntryLegs(e).Keys)
  {
    if !s.portfolio.Accepts(e) then s else
      var p := s.portfolio.NewPosition(e);
      State(s.portfolio.Enter(pid, e), BookEntry(s.ledger, pid, p.markets, FeePerLeg(p), order))
  }

  ghost function Resolve(s: State, pid: string, winner: string, order: seq<string>): State
    requires pid in s.portfolio.open ==> Enumerates(order, s.portfolio.open[pid].markets.Keys)
  {
    if pid !in s.portfolio.open then s else
      var p := s.portfolio.open[pid];
      State(s.portfolio.Resolve(pid, winner),
            BookResolution(s.ledger, pid, p.markets, winner, Payout(p, winner), order))
  }

  ghost function Liquidate(s: State, pid: string, bids: map<string, real>, order: seq<string>): State
    requires pid in s.portfolio.open ==> Enumerates(order, s.portfolio.open[pid].markets.Keys)
  {
    if pid !in s.portfolio.open then s else
      State(s.portfolio.Liquidate(pid, bids),
            BookSale(s.ledger, pid, s.portfolio.open[pid].markets, bids, s.portfolio.takerFee, order))
  }

  ghost function Exit(s: State, pid: string, fills: seq<ExitFill>): State {
    if pid !in s.portfolio.open then s else
      State(s.portfolio.Exit(pid, fills),
            BookExits(s.ledger, pid, s.portfolio.open[pid].markets, fills, s.portfolio.takerFee))
  }

  function RollBack(s: State, pid: string): State {
    if pid !in s.portfolio.open then s else
      State(s.portfolio.RollBack(pid), s.ledger.ReverseBuy(pid))
  }

  // ---------- The engine as the program keeps it ----------

  class TradingEngine {
    var positions: PositionManager
    var accounting: A.AccountingLedger

    function View(): State
      reads this, positions, accounting
    {
      State(positions.View(), accounting.View())
    }

    constructor InitPositions(initial: real, takerFee: real)
      ensures fresh(positions) && fresh(accounting)
      ensures View() == Init(initial, takerFee)
    {
      positions := new PositionManager(initial, takerFee);
      accounting := new A.AccountingLedger(initial);
    }

    method EnterPosition(pid: string, e: Entry) returns (entered: bool, ghost order: seq<string>)
      modifies positions, accounting
      ensures Enumerates(order, EntryLegs(e).Keys)
      ensures entered == old(View()).portfolio.Accepts(e)
      ensures View() == Enter(old(View()), pid, e, order)
    {
      var legOrder := IterationOrder(EntryLegs(e));
      order := legOrder;
      entered := positions.EnterPosition(pid, e);
      if entered {
        var p := positions.open[pid];
        var feeEach := if p.markets == map[] then 0.0 else p.feesPaid / |p.markets| as real;
        for i := 0 to |legOrder|
          invariant positions.View() == old(positions.View()).Enter(pid, e)
          invariant accounting.View() == BookEntry(old(accounting.View()), pid, p.markets, feeEach, legOrder[..i])
        {
          assert legOrder[..i + 1][..i] == legOrder[..i];
          var mid := legOrder[i];
          var leg := p.markets[mid];
          var booked := accounting.RecordBuyDedup(A.EntryKey(pid, mid), pid, leg.bet, feeEach,
                                                  Asset(mid, leg), mid, leg.shares);
        }
        assert legOrder[..|legOrder|] == legOrder;
      }
    }

    method CloseOnResolution(pid: string, winner: string) returns (event: Option<real>, ghost order: seq<string>)
      modifies positions, accounting
      ensures pid in old(positions.open) ==> Enumerates(order, old(positions.open)[pid].markets.Keys)
      ensures View() == Resolve(old(View()), pid, winner, order)
    {
      order := [];
      if pid !in positions.open {
        event := positions.CloseOnResolution(pid, winner);
        return;
      }
      var markets := positions.open[pid].markets;
      var legOrder := IterationOrder(markets);
      order := legOrder;
      event := positions.CloseOnResolution(pid, winner);
      var payout := event.value;
      for i := 0 to |legOrder|
        invariant positions.View() == old(positions.View()).Resolve(pid, winner)
        invariant accounting.View() ==
                  BookResolution(old(accounting.View()), pid, markets, winner, payout, legOrder[..i])
      {
        assert legOrder[..i + 1][..i] == legOrder[..i];
        var mid := legOrder[i];
        var leg := markets[mid];
        if leg.shares <= 0.0 && leg.bet <= 0.0 {
          continue;
        }
        var legPayout := if mid == winner then payout else 0.0;
        var booked := accounting.RecordSellDedup(A.ResolveKey(pid, mid), pid, legPayout, leg.bet, 0.0,
                                                 Asset(mid, leg), leg.shares);
      }
      assert legOrder[..|legOrder|] == legOrder;
    }

    method LiquidatePosition(pid: string, bids: map<string, real>) returns (net: Option<real>, ghost order: seq<string>)
      modifies positions, accounting
      ensures pid in old(positions.open) ==> Enumerates(order, old(positions.open)[pid].markets.Keys)
      ensures View() == Liquidate(old(View()), pid, bids, order)
    {
      order := [];
      if pid !in positions.open {
        net := positions.LiquidatePosition(pid, bids);
        return;
      }
      var markets := positions.open[pid].markets;
      var legOrder := IterationOrder(markets);
      order := legOrder;
      net := positions.LiquidatePosition(pid, bids);
      var takerFee := positions.takerFee;
      for i := 0 to |legOrder|
        invariant positions.View() == old(positions.View()).Liquidate(pid, bids)
        invariant accounting.View() == BookSale(old(accounting.View()), pid, markets, bids, takerFee, legOrder[..i])
      {
        assert legOrder[..i + 1][..i] == legOrder[..i];
        var mid := legOrder[i];
        var leg := markets[mid];
        var legProceeds := Product(leg.shares, GetOr(bids, mid, 0.0));
        var booked := accounting.RecordSellDedup(A.LiquidateKey(pid, mid), pid, legProceeds, leg.bet,
                                                 Product(takerFee, legProceeds), Asset(mid, leg), leg.shares);
      }
      assert legOrder[..|legOrder|] == legOrder;
    }

    method RollbackPaperEntry(pid: string) returns (rolledBack: bool)
      modifies positions, accounting
      ensures rolledBack == (pid in old(positions.open))
      ensures View() == RollBack(old(View()), pid)
    {
      var removed := positions.RollBackEntry(pid);
      if removed.None? {
        return false;
      }
      var reversed := accounting.ReverseBuyByPosition(pid);
      return true;
    }

    method ApplyExitFills(pid: string, fills: seq<ExitFill>) returns (closedNow: bool)
      modifies positions, accounting
      ensures View() == Exit(old(View()), pid, fills)
      ensures closedNow <==> pid in old(positions.open) && pid !in positions.open
    {
      var held := pid in positions.open;
      var legs := if held then positions.open[pid].markets else map[];
      closedNow := positions.ApplyExitFills(pid, fills);
      if !held {
        return;
      }
      var takerFee := positions.takerFee;
      for i := 0 to |fills|
        invariant positions.View() == old(positions.View()).Exit(pid, fills)
        invariant accounting.View() == BookExits(old(accounting.View()), pid, legs, fills[..i], takerFee)
      {
        assert fills[..i + 1][..i] == fills[..i];
        var fill := fills[i];
        if fill.shares <= 0.0 || fill.market !in legs {
          continue;
        }
        var leg := legs[fill.market];
        var perShare := if leg.shares > 0.0 then leg.bet / leg.shares else 0.0;
        var proceeds := Product(fill.shares, fill.price);
        var booked := accounting.RecordSellDedup(
          A.ExitKey(pid, fill.market), pid, proceeds, Product(perShare, fill.shares), Product(takerFee, proceeds),
          Asset(fill.market, leg), fill.shares);
      }
      assert fills[..|fills|] == fills;
    }
  }
}
