/**
 The two books along whole runs of engine steps: entries, resolutions, liquidations, exits and
 rollbacks, each under the guard that its own exact condition gives.
 */
module BookRuns {
  import opened Totals
  import opened Positions
  import opened Entries
  import opened Engine
  import opened Exits
  import opened BooksAgree
  import opened ExitsAgree
  import L = LedgerAgreement

  datatype Step =
    | EnterStep(pid: string, e: Entry, order: seq<string>)
    | ResolveStep(pid: string, winner: string, order: seq<string>)
    | LiquidateStep(pid: string, bids: map<string, real>, order: seq<string>)
    | ExitStep(pid: string, fills: seq<ExitFill>)
    | RollBackStep(pid: string)

  /** The recorded order is one in which the hash map of legs can be iterated. */
  ghost predicate Ordered(s: State, st: Step) {
    match st
    case EnterStep(_, e, order) => Enumerates(order, EntryLegs(e).Keys)
    case ResolveStep(pid, _, order) =>
      pid in s.portfolio.open ==> Enumerates(order, s.portfolio.open[pid].markets.Keys)
    case LiquidateStep(pid, _, order) =>
      pid in s.portfolio.open ==> Enumerates(order, s.portfolio.open[pid].markets.Keys)
    case _ => true
  }

  ghost function Apply(s: State, st: Step): State
    requires Ordered(s, st)
  {
    match st
    case EnterStep(pid, e, order) => Enter(s, pid, e, order)
    case ResolveStep(pid, winner, order) => Resolve(s, pid, winner, order)
    case LiquidateStep(pid, bids, order) => Liquidate(s, pid, bids, order)
    case ExitStep(pid, fills) => Exit(s, pid, fills)
    case RollBackStep(pid) => RollBack(s, pid)
  }

  ghost predicate Admissible(s: State, st: Step) {
    && Ordered(s, st)
    && match st
       case EnterStep(pid, e, _) =>
         pid !in s.portfolio.open && Untouched(s.ledger, pid) && CleanEntry(e) && CoversBets(e)
       case ResolveStep(pid, winner, _) =>
         pid in s.portfolio.open ==> WinnerIsBookable(s.portfolio.open[pid], winner)
       case LiquidateStep(pid, bids, _) =>
         pid in s.portfolio.open ==>
           LegsValued(s.portfolio.open[pid]) && forall mid :: mid in bids ==> bids[mid] >= 0.0
       case ExitStep(pid, fills) =>
         pid in s.portfolio.open ==>
           Fresh(s.ledger.recorded, pid, s.portfolio.open[pid].markets, fills) && CleanExit(s, pid, fills)
       case RollBackStep(pid) => pid in s.portfolio.open ==> BookedInFull(s, pid)
  }

  function StepRefund(s: State, st: Step): real {
    if st.RollBackStep? && st.pid in s.portfolio.open then s.portfolio.open[st.pid].feesPaid else 0.0
  }

  ghost predicate AdmissibleRun(s: State, steps: seq<Step>)
    decreases |steps|
  {
    steps == [] || (Admissible(s, steps[0]) && AdmissibleRun(Apply(s, steps[0]), steps[1..]))
  }

  ghost function Run(s: State, steps: seq<Step>): State
    requires AdmissibleRun(s, steps)
    decreases |steps|
  {
    if steps == [] then s else Run(Apply(s, steps[0]), steps[1..])
  }

  /** The fees of the positions a run rolls back. */
  ghost function Refunds(s: State, steps: seq<Step>): real
    requires AdmissibleRun(s, steps)
    decreases |steps|
  {
    if steps == [] then 0.0 else StepRefund(s, steps[0]) + Refunds(Apply(s, steps[0]), steps[1..])
  }

  lemma StepKeepsInvariant(s: State, st: Step, refunded: real)
    requires Invariant(s, refunded) && Admissible(s, st)
    ensures Invariant(Apply(s, st), refunded + StepRefund(s, st))
  {
    match st {
      case EnterStep(pid, e, order) => EnterKeepsInvariant(s, pid, e, order, refunded);
      case ResolveStep(pid, winner, order) =>
        if pid in s.portfolio.open { ResolveKeepsInvariant(s, pid, winner, order, refunded); }
      case LiquidateStep(pid, bids, order) =>
        if pid in s.portfolio.open { LiquidateKeepsInvariant(s, pid, bids, order, refunded); }
      case ExitStep(pid, fills) =>
        if pid in s.portfolio.open { ExitKeepsInvariant(s, pid, fills, refunded); }
      case RollBackStep(pid) =>
        if pid in s.portfolio.open { RollBackKeepsInvariant(s, pid, refunded); }
    }
  }

  lemma EnterIsFaithful(s: State, pid: string, e: Entry, order: seq<string>, opening: real)
    requires Enumerates(order, EntryLegs(e).Keys) && s.portfolio.takerFee >= 0.0
    requires CleanEntry(e) && L.Agrees(s.ledger, opening)
    ensures L.Agrees(Enter(s, pid, e, order).ledger, opening)
  {
    if s.portfolio.Accepts(e) {
      var p := s.portfolio.NewPosition(e);
      NewPositionSound(s.portfolio, e);
      FeePerLegNonNegative(p);
      EntryIsFaithful(s.ledger, pid, p.markets, FeePerLeg(p), order, opening);
    }
  }

  lemma StepIsFaithful(s: State, st: Step, refunded: real, opening: real)
    requires Invariant(s, refunded) && Admissible(s, st) && L.Agrees(s.ledger, opening)
    ensures L.Agrees(Apply(s, st).ledger, opening)
  {
    if st.EnterStep? {
      EnterIsFaithful(s, st.pid, st.e, st.order, opening);
    } else if st.pid in s.portfolio.open {
      var p := s.portfolio.open[st.pid];
      match st {
        case ResolveStep(pid, winner, order) =>
          ResolutionIsFaithful(s.ledger, pid, p.markets, winner, Payout(p, winner), order, opening);
        case LiquidateStep(pid, bids, order) =>
          SaleIsFaithful(s.ledger, pid, p.markets, bids, s.portfolio.takerFee, order, opening);
        case ExitStep(pid, fills) =>
          ExitIsFaithful(s.ledger, pid, p.markets, fills, s.portfolio.takerFee, opening);
        case RollBackStep(pid) =>
          RollBackIsFaithful(s, pid, refunded);
          L.StepAgreesExactly(s.ledger, L.Reversal(pid), opening);
      }
    }
  }

  lemma {:induction false} RunKeepsInvariant(s: State, steps: seq<Step>, refunded: real, opening: real)
    requires Invariant(s, refunded) && L.Agrees(s.ledger, opening) && AdmissibleRun(s, steps)
    ensures Invariant(Run(s, steps), refunded + Refunds(s, steps))
    ensures L.Agrees(Run(s, steps).ledger, opening)
    decreases |steps|
  {
    if steps != [] {
      StepKeepsInvariant(s, steps[0], refunded);
      StepIsFaithful(s, steps[0], refunded, opening);
      RunKeepsInvariant(Apply(s, steps[0]), steps[1..], refunded + StepRefund(s, steps[0]), opening);
    }
  }

  /**
   From a fresh engine, along every admissible run: both books hold the same deployed capital;
   their cash differs by exactly the fees of rolled-back entries; and the ledger's journal,
   running balances and opening equity agree.
   */
  lemma BooksAgreeAlongEveryRun(initial: real, takerFee: real, steps: seq<Step>)
    requires 0.0 <= takerFee <= 1.0 && AdmissibleRun(Init(initial, takerFee), steps)
    ensures var s := Run(Init(initial, takerFee), steps);
      && s.ledger.deployed == Total(Capitals(s.portfolio.open))
      && s.ledger.cash - s.portfolio.capital == Refunds(Init(initial, takerFee), steps)
      && L.Agrees(s.ledger, initial)
      && s.ledger.cash + s.ledger.deployed + s.ledger.fees + s.ledger.SuspenseTotal() - s.ledger.pnl == initial
  {
    var s := Init(initial, takerFee);
    assert Capitals(s.portfolio.open) == map[] && FeesPaid(s.portfolio.open) == map[];
    L.OpeningAgrees(initial);
    RunKeepsInvariant(s, steps, 0.0, initial);
    L.NavIdentity(Run(s, steps).ledger, initial);
  }
}
