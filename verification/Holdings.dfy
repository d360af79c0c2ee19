/**
 Asset holdings of the ledger: along any run of ledger operations a holding is what was bought
 less what was sold, at cost, until a sale leaves it at a thousandth of a share or less.
 */
module Holdings {
  import opened Totals
  import opened Accounting
  import opened LedgerAgreement

  /** Shares and what they cost. */
  datatype Lot = Lot(shares: real, basis: real) {
    function Plus(other: Lot): Lot { Lot(shares + other.shares, basis + other.basis) }

    function Minus(other: Lot): Lot { Lot(shares - other.shares, basis - other.basis) }
  }

  const NOTHING := Lot(0.0, 0.0)

  function Held(h: map<string, AssetHolding>, asset: string): Lot {
    if asset in h then Lot(h[asset].shares, h[asset].costBasis) else NOTHING
  }

  /** What one operation trades of one asset; a downward correction trims shares and leaves the cost. */
  datatype Trade = NoTrade | Purchase(lot: Lot, market: string) | Sale(lot: Lot) | Trim(shares: real)

  function TradeOf(l: Ledger, s: Step, asset: string): Trade {
    match s
    case Buy(_, capital, _, a, market, shares) => if a == asset then Purchase(Lot(shares, capital), market) else NoTrade
    case BuyDedup(key, _, capital, _, a, market, shares) =>
      if a == asset && key !in l.recorded then Purchase(Lot(shares, capital), market) else NoTrade
    case Sell(_, _, cost, _, a, shares) => if a == asset then Sale(Lot(shares, cost)) else NoTrade
    case SellDedup(key, _, _, cost, _, a, shares) =>
      if a == asset && key !in l.recorded then Sale(Lot(shares, cost)) else NoTrade
    case Adjustment(_, a, market, delta, price) =>
      if a != asset then NoTrade
      else if delta > 0.0 then Purchase(Lot(delta, Abs(delta * price)), market)
      else if delta < 0.0 then Trim(-delta) else NoTrade
    case Confirm(key) =>
      if key in l.suspense && l.suspense[key].status in {Matched, Retrying} && l.suspense[key].asset == asset then
        Purchase(Lot(l.suspense[key].shares, l.suspense[key].capital), l.suspense[key].market)
      else NoTrade
    case _ => NoTrade
  }

  ghost predicate SameHolding(l: Ledger, r: Ledger, asset: string) {
    (asset in l.holdings <==> asset in r.holdings) && (asset in l.holdings ==> r.holdings[asset] == l.holdings[asset])
  }

  /** The effect of a trade on the holding, in full. */
  ghost predicate Carries(l: Ledger, r: Ledger, asset: string, trade: Trade) {
    var before, after := Held(l.holdings, asset), Held(r.holdings, asset);
    match trade
    case NoTrade => SameHolding(l, r, asset)
    case Purchase(lot, market) =>
      && asset in r.holdings && after == before.Plus(lot)
      && r.holdings[asset].marketId == if asset in l.holdings then l.holdings[asset].marketId else market
    case Sale(lot) =>
      && (asset in r.holdings <==> asset in l.holdings && before.shares - lot.shares > 0.001)
      && (asset in r.holdings ==> after == before.Minus(lot))
    case Trim(shares) =>
      && (asset in r.holdings <==> asset in l.holdings)
      && after == Lot(if before.shares > shares then before.shares - shares else 0.0, before.basis)
  }

  /** Every operation does to each holding what its trade says, and to no other. */
  lemma StepCarriesTrade(l: Ledger, s: Step, asset: string)
    ensures Carries(l, Apply(l, s), asset, TradeOf(l, s, asset))
  {
  }

  // ---------- Whole runs ----------

  function Flow(trade: Trade): Lot {
    match trade
    case NoTrade => NOTHING
    case Purchase(lot, _) => lot
    case Sale(lot) => NOTHING.Minus(lot)
    case Trim(shares) => Lot(-shares, 0.0)
  }

  /** Shares bought less shares sold along a run, and capital booked less cost sold. */
  function Flows(l: Ledger, steps: seq<Step>, asset: string): Lot
    decreases |steps|
  {
    if steps == [] then NOTHING
    else Flow(TradeOf(l, steps[0], asset)).Plus(Flows(Apply(l, steps[0]), steps[1..], asset))
  }

  /** A downward correction does not reach zero shares. */
  predicate TrimFits(l: Ledger, s: Step, asset: string) {
    TradeOf(l, s, asset).Trim? ==> TradeOf(l, s, asset).shares <= Held(l.holdings, asset).shares
  }

  /** After every step of the run the asset is held, and no correction is cut short. */
  predicate StaysHeld(l: Ledger, steps: seq<Step>, asset: string)
    decreases |steps|
  {
    steps == [] ||
    (asset in Apply(l, steps[0]).holdings && TrimFits(l, steps[0], asset)
     && StaysHeld(Apply(l, steps[0]), steps[1..], asset))
  }

  lemma OneStepFlows(l: Ledger, s: Step, asset: string)
    requires asset in Apply(l, s).holdings && TrimFits(l, s, asset)
    ensures Held(Apply(l, s).holdings, asset) == Held(l.holdings, asset).Plus(Flow(TradeOf(l, s, asset)))
  {
    StepCarriesTrade(l, s, asset);
  }

  /** While an asset stays held, its holding is what was held at first and what was traded since. */
  lemma {:induction false} HoldingIsTheFlow(l: Ledger, steps: seq<Step>, asset: string)
    requires StaysHeld(l, steps, asset)
    ensures Held(Run(l, steps).holdings, asset) == Held(l.holdings, asset).Plus(Flows(l, steps, asset))
    decreases |steps|
  {
    if steps != [] {
      OneStepFlows(l, steps[0], asset);
      HoldingIsTheFlow(Apply(l, steps[0]), steps[1..], asset);
    }
  }
}
