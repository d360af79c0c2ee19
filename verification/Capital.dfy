/**
 Where the position manager's money is: what entries, resolutions and liquidations conserve,
 what a rollback leaves over, and the counters that restate history.
 */
module Capital {
  import opened Totals
  import opened Positions

  datatype Step =
    | Enter(pid: string, e: Entry)
    | Resolve(pid: string, winner: string)
    | Liquidate(pid: string, bids: map<string, real>)

  ghost function Apply(p: Portfolio, s: Step): Portfolio {
    match s
    case Enter(pid, e) => p.Enter(pid, e)
    case Resolve(pid, winner) => p.Resolve(pid, winner)
    case Liquidate(pid, bids) => p.Liquidate(pid, bids)
  }

  function Invested(p: Position): real { p.totalCapital + p.feesPaid }

  function InvestedBy(open: map<string, Position>): map<string, real> {
    map pid | pid in open :: Invested(open[pid])
  }

  /** Free capital and money in open positions, less the profit already counted. */
  ghost function Money(p: Portfolio): real { p.capital + Total(InvestedBy(p.open)) - p.profit }

  /** The money accounts for the initial capital. */
  ghost predicate Conserved(p: Portfolio) { Money(p) == p.initial }

  lemma InvestedUpdate(open: map<string, Position>, pid: string, p: Position)
    ensures Total(InvestedBy(open[pid := p]))
         == Total(InvestedBy(open)) + Invested(p) - (if pid in open then Invested(open[pid]) else 0.0)
  {
    assert InvestedBy(open[pid := p]) == InvestedBy(open)[pid := Invested(p)];
    TotalUpdate(InvestedBy(open), pid, Invested(p));
  }

  lemma InvestedRemove(open: map<string, Position>, pid: string)
    requires pid in open
    ensures Total(InvestedBy(open - {pid})) == Total(InvestedBy(open)) - Invested(open[pid])
  {
    assert InvestedBy(open - {pid}) == InvestedBy(open) - {pid};
    TotalRemove(InvestedBy(open), pid);
  }

  /** Money is conserved by an entry exactly when it does not overwrite a position that holds any. */
  lemma EnterConservesExactly(p: Portfolio, pid: string, e: Entry)
    requires Conserved(p)
    ensures Conserved(p.Enter(pid, e)) <==> !p.Accepts(e) || pid !in p.open || Invested(p.open[pid]) == 0.0
    ensures p.Accepts(e) ==> p.Enter(pid, e).capital >= 0.0
  {
    InvestedUpdate(p.open, pid, p.NewPosition(e));
  }

  lemma CloseKeepsMoney(p: Portfolio, pid: string, payout: real)
    requires pid in p.open
    ensures Money(p.Close(pid, p.PaidOut(p.open[pid], payout))) == Money(p)
  {
    InvestedRemove(p.open, pid);
  }

  /** A rollback loses exactly the entry fee. */
  lemma RollBackLosesTheFee(p: Portfolio, pid: string)
    requires pid in p.open && p.open[pid].totalCapital >= 0.0
    ensures Money(p.RollBack(pid)) == Money(p) - p.open[pid].feesPaid
  {
    InvestedRemove(p.open, pid);
  }

  // ---------- Counters restate history ----------

  function CountWins(closed: seq<Position>): nat {
    if closed == [] then 0 else
      CountWins(closed[..|closed| - 1]) + (if closed[|closed| - 1].actualProfit > WIN_LOSS_THRESHOLD then 1 else 0)
  }

  function CountLosses(closed: seq<Position>): nat {
    if closed == [] then 0 else
      CountLosses(closed[..|closed| - 1]) + (if closed[|closed| - 1].actualProfit < -WIN_LOSS_THRESHOLD then 1 else 0)
  }

  function ProfitOf(closed: seq<Position>): real {
    if closed == [] then 0.0 else ProfitOf(closed[..|closed| - 1]) + closed[|closed| - 1].actualProfit
  }

  /** The counters are what an import recomputes from the stored positions. */
  function ExpectedOf(closed: seq<Position>): real {
    if closed == [] then 0.0 else ExpectedOf(closed[..|closed| - 1]) + closed[|closed| - 1].expectedProfit
  }

  ghost function ExpectedBy(open: map<string, Position>): map<string, real> {
    map pid | pid in open :: open[pid].expectedProfit
  }

  ghost predicate CountersRestored(p: Portfolio) {
    && p.trades == |p.open| + |p.closed|
    && p.profit == ProfitOf(p.closed)
    && p.wins == CountWins(p.closed)
    && p.losses == CountLosses(p.closed)
    && p.expected == Total(ExpectedBy(p.open)) + ExpectedOf(p.closed)
  }

  lemma CloseKeepsCounters(p: Portfolio, pid: string, done: Position)
    requires CountersRestored(p) && pid in p.open
    requires done.expectedProfit == p.open[pid].expectedProfit
    ensures CountersRestored(p.Close(pid, done))
  {
    assert ExpectedBy(p.open - {pid}) == ExpectedBy(p.open) - {pid};
    TotalRemove(ExpectedBy(p.open), pid);
  }

  lemma EnterKeepsCounters(p: Portfolio, pid: string, e: Entry)
    requires CountersRestored(p) && pid !in p.open
    ensures CountersRestored(p.Enter(pid, e))
  {
    if p.Accepts(e) {
      assert ExpectedBy(p.open[pid := p.NewPosition(e)]) == ExpectedBy(p.open)[pid := e.expectedProfit];
      TotalUpdate(ExpectedBy(p.open), pid, e.expectedProfit);
    }
  }

  // ---------- Whole runs ----------

  ghost function Run(p: Portfolio, steps: seq<Step>): Portfolio
    decreases |steps|
  {
    if steps == [] then p else Run(Apply(p, steps[0]), steps[1..])
  }

  /** Position ids are fresh at entry. */
  ghost predicate FreshIds(p: Portfolio, steps: seq<Step>)
    decreases |steps|
  {
    steps == [] ||
    ((steps[0].Enter? ==> steps[0].pid !in p.open) && FreshIds(Apply(p, steps[0]), steps[1..]))
  }

  lemma {:induction false} EveryRunConserves(p: Portfolio, steps: seq<Step>)
    requires Conserved(p) && CountersRestored(p) && FreshIds(p, steps)
    ensures Conserved(Run(p, steps)) && CountersRestored(Run(p, steps))
    ensures Run(p, steps).initial == p.initial
    decreases |steps|
  {
    if steps != [] {
      var s := steps[0];
      match s {
        case Enter(pid, e) =>
          EnterConservesExactly(p, pid, e);
          EnterKeepsCounters(p, pid, e);
        case Resolve(pid, winner) =>
          if pid in p.open {
            CloseKeepsMoney(p, pid, Payout(p.open[pid], winner));
            CloseKeepsCounters(p, pid, p.PaidOut(p.open[pid], Payout(p.open[pid], winner)));
          }
        case Liquidate(pid, bids) =>
          if pid in p.open {
            CloseKeepsMoney(p, pid, p.NetSale(p.open[pid], bids));
            CloseKeepsCounters(p, pid, p.PaidOut(p.open[pid], p.NetSale(p.open[pid], bids)));
          }
      }
      EveryRunConserves(Apply(p, s), steps[1..]);
    }
  }

  lemma NewPortfolioConserves(initial: real, takerFee: real)
    ensures Conserved(NewPortfolio(initial, takerFee)) && CountersRestored(NewPortfolio(initial, takerFee))
  {
  }
}
