/**
 The journal against the running balances. `Agrees` holds of a fresh ledger, and one
 ledger operation keeps it exactly when the operation is `Faithful`: fees are not negative
 and no clamp at zero is reached.
 */
module LedgerAgreement {
  import opened Totals
  import opened Accounting

  datatype Step =
    | Buy(pid: string, capital: real, paid: real, asset: string, market: string, shares: real)
    | BuyDedup(key: TradeKey, pid: string, capital: real, paid: real, asset: string, market: string, shares: real)
    | Sell(pid: string, proceeds: real, cost: real, paid: real, asset: string, shares: real)
    | SellDedup(key: TradeKey, pid: string, proceeds: real, cost: real, paid: real, asset: string, shares: real)
    | Reversal(pid: string)
    | Adjustment(pid: string, asset: string, market: string, delta: real, price: real)
    | Enter(key: TradeKey, e: SuspenseEntry)
    | Confirm(key: TradeKey)
    | Retry(key: TradeKey)
    | Fail(key: TradeKey)
    | Mark(key: TradeKey)
    | ResetCash(amount: real)

  function Apply(l: Ledger, s: Step): Ledger {
    match s
    case Buy(pid, capital, paid, asset, market, shares) => l.RecordBuy(pid, capital, paid, asset, market, shares)
    case BuyDedup(key, pid, capital, paid, asset, market, shares) =>
      l.RecordBuyDedup(key, pid, capital, paid, asset, market, shares)
    case Sell(pid, proceeds, cost, paid, asset, shares) => l.RecordSell(pid, proceeds, cost, paid, asset, shares)
    case SellDedup(key, pid, proceeds, cost, paid, asset, shares) =>
      l.RecordSellDedup(key, pid, proceeds, cost, paid, asset, shares)
    case Reversal(pid) => l.ReverseBuy(pid)
    case Adjustment(pid, asset, market, delta, price) => l.ReconciliationAdjustment(pid, asset, market, delta, price)
    case Enter(key, e) => l.EnterSuspense(key, e)
    case Confirm(key) => l.ConfirmFromSuspense(key)
    case Retry(key) => l.MarkRetrying(key)
    case Fail(key) => l.ReverseSuspense(key)
    case Mark(key) => l.Recorded(key)
    case ResetCash(amount) => l.(cash := amount)
  }

  /** What a caller can check before the call: the sign of the fee, or the argument of the clamp. */
  predicate Faithful(l: Ledger, s: Step) {
    match s
    case Buy(_, _, paid, _, _, _) => paid >= 0.0
    case BuyDedup(key, _, _, paid, _, _, _) => key in l.recorded || paid >= 0.0
    case Sell(_, _, _, paid, _, _) => paid >= 0.0
    case SellDedup(key, _, _, _, paid, _, _) => key in l.recorded || paid >= 0.0
    case Reversal(pid) => BookedCapital(l.entries, pid) <= l.deployed && BookedFees(l.entries, pid) <= l.fees
    case Adjustment(_, _, _, delta, price) => delta < 0.0 ==> Abs(delta * price) <= l.deployed
    case Confirm(key) => l.InSuspense(key) ==> l.suspense[key].fees >= 0.0
    case ResetCash(amount) => amount == l.cash
    case _ => true
  }

  ghost predicate Balanced(l: Ledger) { Net(l.entries, Everything) == 0.0 }

  function LockedIn(l: Ledger, key: TradeKey): real {
    if key in l.suspense then l.suspense[key].Locked() else 0.0
  }

  ghost predicate SuspenseAgrees(l: Ledger) {
    && (forall key :: Net(l.entries, One(Suspense(key))) == LockedIn(l, key))
    && Net(l.entries, AllSuspense) == l.SuspenseTotal()
  }

  ghost predicate RunningFiguresAgree(l: Ledger, opening: real) {
    && Balanced(l)
    && Net(l.entries, One(Equity)) == -opening
    && Net(l.entries, One(Cash)) == l.cash
    && Net(l.entries, One(Fees)) == l.fees
    && Net(l.entries, One(RealizedPnL)) == -l.pnl
    && Net(l.entries, AllPositions) == l.deployed
  }

  /** Debits equal credits, and every running figure is the net of its accounts. */
  ghost predicate Agrees(l: Ledger, opening: real) {
    RunningFiguresAgree(l, opening) && SuspenseAgrees(l)
  }

  lemma OpeningAgrees(cash: real)
    ensures Agrees(Opening(cash), cash)
  {
    var l := Opening(cash);
    assert l.entries[..1] == [l.entries[0]];
    assert LockedAmounts(l.suspense) == map[];
    forall s: Scope ensures Net(l.entries, s) ==
      (if s.Covers(Cash) then cash else 0.0) - (if s.Covers(Equity) then cash else 0.0)
    {
      assert Net(l.entries, s) == Net([l.entries[0]], s) + (if s.Covers(Equity) then -cash else 0.0);
    }
  }

  /** Cash, book value, fees, suspense and realised profit always account for the opening equity. */
  lemma NavIdentity(l: Ledger, opening: real)
    requires Agrees(l, opening)
    ensures l.cash + l.deployed + l.fees + l.SuspenseTotal() - l.pnl == opening
  {
    NetByClass(l.entries);
  }

  // ---------- One operation at a time ----------

  ghost predicate FiguresExplained(l: Ledger, es: seq<JournalEntry>, l': Ledger) {
    && Net(es, Everything) == 0.0
    && Net(es, One(Equity)) == 0.0
    && Net(es, One(Cash)) == l'.cash - l.cash
    && Net(es, One(Fees)) == l'.fees - l.fees
    && Net(es, One(RealizedPnL)) == l.pnl - l'.pnl
    && Net(es, AllPositions) == l'.deployed - l.deployed
  }

  ghost predicate SuspenseExplained(l: Ledger, es: seq<JournalEntry>, l': Ledger) {
    && (forall key :: Net(es, One(Suspense(key))) == LockedIn(l', key) - LockedIn(l, key))
    && Net(es, AllSuspense) == l'.SuspenseTotal() - l.SuspenseTotal()
  }

  /** Appending entries keeps agreement exactly when they explain every change of a running figure. */
  lemma AgreesWhenExplained(l: Ledger, es: seq<JournalEntry>, l': Ledger, opening: real)
    requires Agrees(l, opening) && l'.entries == l.entries + es
    requires SuspenseExplained(l, es, l')
    ensures Agrees(l', opening) <==> FiguresExplained(l, es, l')
  {
    NetAppend(l.entries, es, Everything);
    NetAppend(l.entries, es, One(Equity));
    NetAppend(l.entries, es, One(Cash));
    NetAppend(l.entries, es, One(Fees));
    NetAppend(l.entries, es, One(RealizedPnL));
    NetAppend(l.entries, es, AllPositions);
    assert SuspenseAgrees(l') by {
      NetAppend(l.entries, es, AllSuspense);
      forall key ensures Net(l'.entries, One(Suspense(key))) == LockedIn(l', key) {
        NetAppend(l.entries, es, One(Suspense(key)));
      }
    }
  }

  function At(s: Scope, a: Account, amount: real): real { if s.Covers(a) then amount else 0.0 }

  function Fee(paid: real): real { if paid > 0.0 then paid else 0.0 }

  lemma NetOfTwo(a: JournalEntry, b: JournalEntry, s: Scope)
    ensures Net([a, b], s) == At(s, a.account, a.debit - a.credit) + At(s, b.account, b.debit - b.credit)
  {
    assert [a, b] == [a] + [b];
    NetAppend([a], [b], s);
  }

  lemma NetOfBuy(pid: string, capital: real, paid: real, s: Scope)
    ensures Net(BuyEntries(pid, capital, paid), s)
         == At(s, Position(pid), capital) + At(s, Fees, Fee(paid)) - At(s, Cash, capital + paid)
  {
    var p := [JournalEntry(Position(pid), capital, 0.0, Some(pid))];
    var f := if paid > 0.0 then [JournalEntry(Fees, paid, 0.0, Some(pid))] else [];
    var c := [JournalEntry(Cash, 0.0, capital + paid, Some(pid))];
    NetAppend(p + f, c, s);
    NetAppend(p, f, s);
  }

  lemma NetOfSell(pid: string, proceeds: real, cost: real, paid: real, s: Scope)
    ensures Net(SellEntries(pid, proceeds, cost, paid), s)
         == At(s, Cash, proceeds - Fee(paid)) - At(s, Position(pid), cost)
          - At(s, RealizedPnL, proceeds - cost) + At(s, Fees, Fee(paid))
  {
    var p := Some(pid);
    var gain := proceeds - cost;
    var trade := [JournalEntry(Cash, proceeds, 0.0, p), JournalEntry(Position(pid), 0.0, cost, p)];
    var pnl := if gain < 0.0 then [JournalEntry(RealizedPnL, -gain, 0.0, p)]
               else if gain > 0.0 then [JournalEntry(RealizedPnL, 0.0, gain, p)] else [];
    var fee := if paid > 0.0 then [JournalEntry(Fees, paid, 0.0, p), JournalEntry(Cash, 0.0, paid, p)] else [];
    NetAppend(trade + pnl, fee, s);
    NetAppend(trade, pnl, s);
    NetOfTwo(trade[0], trade[1], s);
    if paid > 0.0 { NetOfTwo(fee[0], fee[1], s); }
  }

  lemma NetOfConfirm(key: TradeKey, e: SuspenseEntry, s: Scope)
    ensures Net(ConfirmEntries(key, e), s)
         == At(s, Position(e.pid), e.capital) + At(s, Fees, Fee(e.fees)) - At(s, Suspense(key), e.capital + e.fees)
  {
    var p := [JournalEntry(Position(e.pid), e.capital, 0.0, Some(e.pid))];
    var f := if e.fees > 0.0 then [JournalEntry(Fees, e.fees, 0.0, Some(e.pid))] else [];
    var c := [JournalEntry(Suspense(key), 0.0, e.capital + e.fees, Some(e.pid))];
    NetAppend(p + f, c, s);
    NetAppend(p, f, s);
  }

  lemma NetOfReversal(es: seq<JournalEntry>, pid: string, s: Scope)
    ensures Net(ReversalEntries(es, pid), s)
         == At(s, Cash, BookedCapital(es, pid) + BookedFees(es, pid))
          - At(s, Position(pid), BookedCapital(es, pid)) - At(s, Fees, BookedFees(es, pid))
  {
    var capital, paid := CapitalDebits(es, pid), FeeDebits(es, pid);
    var total := Sum(capital) + Sum(paid);
    var p := Mirrors(Position(pid), capital, pid);
    var f := Mirrors(Fees, paid, pid);
    var c := if total > 0.0 then [JournalEntry(Cash, total, 0.0, Some(pid))] else [];
    SumNonNegative(capital);
    SumNonNegative(paid);
    NetAppend(p + f, c, s);
    NetAppend(p, f, s);
    NetMirrors(Position(pid), capital, pid, s);
    NetMirrors(Fees, paid, pid, s);
  }

  lemma BuyExplained(l: Ledger, pid: string, capital: real, paid: real, asset: string, market: string, shares: real)
    ensures var l' := l.RecordBuy(pid, capital, paid, asset, market, shares);
      && SuspenseExplained(l, BuyEntries(pid, capital, paid), l')
      && (FiguresExplained(l, BuyEntries(pid, capital, paid), l') <==> paid >= 0.0)
  {
    forall s: Scope ensures Net(BuyEntries(pid, capital, paid), s)
      == At(s, Position(pid), capital) + At(s, Fees, Fee(paid)) - At(s, Cash, capital + paid)
    {
      NetOfBuy(pid, capital, paid, s);
    }
  }

  lemma SellExplained(l: Ledger, pid: string, proceeds: real, cost: real, paid: real, asset: string, shares: real)
    ensures var l' := l.RecordSell(pid, proceeds, cost, paid, asset, shares);
      && SuspenseExplained(l, SellEntries(pid, proceeds, cost, paid), l')
      && (FiguresExplained(l, SellEntries(pid, proceeds, cost, paid), l') <==> paid >= 0.0)
  {
    forall s: Scope ensures Net(SellEntries(pid, proceeds, cost, paid), s)
      == At(s, Cash, proceeds - Fee(paid)) - At(s, Position(pid), cost)
       - At(s, RealizedPnL, proceeds - cost) + At(s, Fees, Fee(paid))
    {
      NetOfSell(pid, proceeds, cost, paid, s);
    }
  }

  lemma ReversalExplained(l: Ledger, pid: string)
    ensures var es := ReversalEntries(l.entries, pid); var l' := l.ReverseBuy(pid);
      && SuspenseExplained(l, es, l')
      && (FiguresExplained(l, es, l') <==>
          BookedCapital(l.entries, pid) <= l.deployed && BookedFees(l.entries, pid) <= l.fees)
  {
    forall s: Scope ensures Net(ReversalEntries(l.entries, pid), s)
      == At(s, Cash, BookedCapital(l.entries, pid) + BookedFees(l.entries, pid))
       - At(s, Position(pid), BookedCapital(l.entries, pid)) - At(s, Fees, BookedFees(l.entries, pid))
    {
      NetOfReversal(l.entries, pid, s);
    }
  }

  lemma AdjustmentExplained(l: Ledger, pid: string, asset: string, market: string, delta: real, price: real)
    requires delta != 0.0
    ensures var l' := l.ReconciliationAdjustment(pid, asset, market, delta, price);
      var es := l'.entries[|l.entries|..];
      && l'.entries == l.entries + es
      && SuspenseExplained(l, es, l')
      && (FiguresExplained(l, es, l') <==> (delta < 0.0 ==> Abs(delta * price) <= l.deployed))
  {
    var es := l.ReconciliationAdjustment(pid, asset, market, delta, price).entries[|l.entries|..];
    var value := Abs(delta * price);
    forall s: Scope ensures Net(es, s) ==
      if delta > 0.0 then At(s, Position(pid), value) - At(s, Cash, value)
      else At(s, Cash, value) - At(s, Position(pid), value)
    {
      NetOfTwo(es[0], es[1], s);
    }
  }

  /** Storing an entry for a trade moves the suspense total by the change of what that trade locks. */
  lemma SuspenseUpdate(s: map<TradeKey, SuspenseEntry>, key: TradeKey, e: SuspenseEntry)
    ensures Total(LockedAmounts(s[key := e]))
         == Total(LockedAmounts(s)) + e.Locked() - (if key in s then s[key].Locked() else 0.0)
  {
    var before, after := LockedAmounts(s), LockedAmounts(s[key := e]);
    if e.Live() {
      assert after == before[key := e.capital + e.fees];
      TotalUpdate(before, key, e.capital + e.fees);
    } else if key in before {
      assert after == before - {key};
      TotalRemove(before, key);
    } else {
      assert after == before;
    }
  }

  lemma EnterExplained(l: Ledger, key: TradeKey, e: SuspenseEntry)
    requires key !in l.suspense
    ensures var l' := l.EnterSuspense(key, e);
      var es := l'.entries[|l.entries|..];
      && l'.entries == l.entries + es
      && SuspenseExplained(l, es, l') && FiguresExplained(l, es, l')
  {
    var l' := l.EnterSuspense(key, e);
    var es := l'.entries[|l.entries|..];
    SuspenseUpdate(l.suspense, key, e.(status := Matched));
    forall s: Scope ensures Net(es, s) == At(s, Suspense(key), e.capital + e.fees) - At(s, Cash, e.capital + e.fees) {
      NetOfTwo(es[0], es[1], s);
    }
  }

  lemma ConfirmExplained(l: Ledger, key: TradeKey)
    requires l.InSuspense(key)
    ensures var es := ConfirmEntries(key, l.suspense[key]); var l' := l.ConfirmFromSuspense(key);
      && SuspenseExplained(l, es, l')
      && (FiguresExplained(l, es, l') <==> l.suspense[key].fees >= 0.0)
  {
    var e := l.suspense[key];
    SuspenseUpdate(l.suspense, key, e.(status := Confirmed));
    forall s: Scope ensures Net(ConfirmEntries(key, e), s)
      == At(s, Position(e.pid), e.capital) + At(s, Fees, Fee(e.fees)) - At(s, Suspense(key), e.capital + e.fees)
    {
      NetOfConfirm(key, e, s);
    }
  }

  lemma FailExplained(l: Ledger, key: TradeKey)
    requires l.InSuspense(key)
    ensures var l' := l.ReverseSuspense(key);
      var es := l'.entries[|l.entries|..];
      && l'.entries == l.entries + es
      && SuspenseExplained(l, es, l') && FiguresExplained(l, es, l')
  {
    var e := l.suspense[key];
    var es := l.ReverseSuspense(key).entries[|l.entries|..];
    SuspenseUpdate(l.suspense, key, e.(status := Failed));
    forall s: Scope ensures Net(es, s) == At(s, Cash, e.capital + e.fees) - At(s, Suspense(key), e.capital + e.fees) {
      NetOfTwo(es[0], es[1], s);
    }
  }

  lemma RetryExplained(l: Ledger, key: TradeKey)
    ensures SuspenseExplained(l, [], l.MarkRetrying(key)) && FiguresExplained(l, [], l.MarkRetrying(key))
  {
    if key in l.suspense && l.suspense[key].status == Matched {
      SuspenseUpdate(l.suspense, key, l.suspense[key].(status := Retrying));
    }
  }

  /** The entries a step appends. */
  function Posts(l: Ledger, s: Step): seq<JournalEntry> {
    match s
    case Buy(pid, capital, paid, _, _, _) => BuyEntries(pid, capital, paid)
    case BuyDedup(key, pid, capital, paid, _, _, _) =>
      if key in l.recorded then [] else BuyEntries(pid, capital, paid)
    case Sell(pid, proceeds, cost, paid, _, _) => SellEntries(pid, proceeds, cost, paid)
    case SellDedup(key, pid, proceeds, cost, paid, _, _) =>
      if key in l.recorded then [] else SellEntries(pid, proceeds, cost, paid)
    case Reversal(pid) => ReversalEntries(l.entries, pid)
    case Confirm(key) => if l.InSuspense(key) then ConfirmEntries(key, l.suspense[key]) else []
    case _ => Apply(l, s).entries[|l.entries|..]
  }

  ghost predicate Explained(l: Ledger, s: Step) {
    && Apply(l, s).entries == l.entries + Posts(l, s)
    && SuspenseExplained(l, Posts(l, s), Apply(l, s))
    && (FiguresExplained(l, Posts(l, s), Apply(l, s)) <==> Faithful(l, s))
  }

  lemma BuyStepExplained(l: Ledger, s: Step)
    requires s.Buy? || s.BuyDedup?
    ensures Explained(l, s)
  {
    match s {
      case Buy(pid, capital, paid, asset, market, shares) =>
        BuyExplained(l, pid, capital, paid, asset, market, shares);
      case BuyDedup(key, pid, capital, paid, asset, market, shares) =>
        BuyExplained(l.Recorded(key), pid, capital, paid, asset, market, shares);
    }
  }

  lemma SellStepExplained(l: Ledger, s: Step)
    requires s.Sell? || s.SellDedup?
    ensures Explained(l, s)
  {
    match s {
      case Sell(pid, proceeds, cost, paid, asset, shares) =>
        SellExplained(l, pid, proceeds, cost, paid, asset, shares);
      case SellDedup(key, pid, proceeds, cost, paid, asset, shares) =>
        SellExplained(l.Recorded(key), pid, proceeds, cost, paid, asset, shares);
    }
  }

  lemma CorrectionExplained(l: Ledger, s: Step)
    requires s.Reversal? || s.Adjustment?
    ensures Explained(l, s)
  {
    match s {
      case Reversal(pid) => ReversalExplained(l, pid);
      case Adjustment(pid, asset, market, delta, price) =>
        if delta != 0.0 { AdjustmentExplained(l, pid, asset, market, delta, price); }
    }
  }

  lemma SilentStepExplained(l: Ledger, s: Step)
    requires s.Mark? || s.ResetCash?
    ensures Explained(l, s)
  {
  }

  lemma LockStepExplained(l: Ledger, s: Step)
    requires s.Enter? || s.Retry?
    ensures Explained(l, s)
  {
    match s {
      case Enter(key, e) => if key !in l.suspense { EnterExplained(l, key, e); }
      case Retry(key) => RetryExplained(l, key);
    }
  }

  lemma ReleaseStepExplained(l: Ledger, s: Step)
    requires s.Confirm? || s.Fail?
    ensures Explained(l, s)
  {
    match s {
      case Confirm(key) => if l.InSuspense(key) { ConfirmExplained(l, key); }
      case Fail(key) => if l.InSuspense(key) { FailExplained(l, key); }
    }
  }

  /** The exact condition under which one operation keeps journal and balances in agreement. */
  lemma StepAgreesExactly(l: Ledger, s: Step, opening: real)
    requires Agrees(l, opening)
    ensures Agrees(Apply(l, s), opening) <==> Faithful(l, s)
  {
    assert Explained(l, s) by {
      if s.Buy? || s.BuyDedup? {
        BuyStepExplained(l, s);
      } else if s.Sell? || s.SellDedup? {
        SellStepExplained(l, s);
      } else if s.Reversal? || s.Adjustment? {
        CorrectionExplained(l, s);
      } else if s.Mark? || s.ResetCash? {
        SilentStepExplained(l, s);
      } else if s.Enter? || s.Retry? {
        LockStepExplained(l, s);
      } else {
        ReleaseStepExplained(l, s);
      }
    }
    AgreesWhenExplained(l, Posts(l, s), Apply(l, s), opening);
  }

  // ---------- Whole runs ----------

  function Run(l: Ledger, steps: seq<Step>): Ledger
    decreases |steps|
  {
    if steps == [] then l else Run(Apply(l, steps[0]), steps[1..])
  }

  predicate FaithfulRun(l: Ledger, steps: seq<Step>)
    decreases |steps|
  {
    steps == [] || (Faithful(l, steps[0]) && FaithfulRun(Apply(l, steps[0]), steps[1..]))
  }

  lemma {:induction false} RunAgrees(l: Ledger, steps: seq<Step>, opening: real)
    requires Agrees(l, opening) && FaithfulRun(l, steps)
    ensures Agrees(Run(l, steps), opening)
    decreases |steps|
  {
    if steps != [] {
      StepAgreesExactly(l, steps[0], opening);
      RunAgrees(Apply(l, steps[0]), steps[1..], opening);
    }
  }

  /** Over every faithful run from a fresh ledger: agreement, and hence the value identity. */
  lemma EveryRunAgrees(cash: real, steps: seq<Step>)
    requires FaithfulRun(Opening(cash), steps)
    ensures var l := Run(Opening(cash), steps);
      && Agrees(l, cash)
      && l.cash + l.deployed + l.fees + l.SuspenseTotal() - l.pnl == cash
  {
    OpeningAgrees(cash);
    RunAgrees(Opening(cash), steps, cash);
    NavIdentity(Run(Opening(cash), steps), cash);
  }

  // ---------- Reversal is not idempotent ----------

  /** A reversal posts no debit that another reversal would mirror. */
  lemma ReversalPostsNoDebits(es: seq<JournalEntry>, pid: string)
    ensures CapitalDebits(ReversalEntries(es, pid), pid) == [] && FeeDebits(ReversalEntries(es, pid), pid) == []
  {
    var total := BookedCapital(es, pid) + BookedFees(es, pid);
    var p := Mirrors(Position(pid), CapitalDebits(es, pid), pid);
    var f := Mirrors(Fees, FeeDebits(es, pid), pid);
    var c := if total > 0.0 then [JournalEntry(Cash, total, 0.0, Some(pid))] else [];
    NothingBookedElsewhere(c, pid);
    MirrorsAreNoDebits(Position(pid), CapitalDebits(es, pid), pid, pid);
    MirrorsAreNoDebits(Fees, FeeDebits(es, pid), pid, pid);
    FeeDebitsAppend(p + f, c, pid);
    FeeDebitsAppend(p, f, pid);
    CapitalDebitsAppend(p + f, c, pid);
    CapitalDebitsAppend(p, f, pid);
    assert ReversalEntries(es, pid) == p + f + c;
  }

  lemma MirroredJournal(es: seq<JournalEntry>, pid: string)
    ensures CapitalDebits(es + ReversalEntries(es, pid), pid) == CapitalDebits(es, pid)
    ensures FeeDebits(es + ReversalEntries(es, pid), pid) == FeeDebits(es, pid)
  {
    ReversalPostsNoDebits(es, pid);
    FeeDebitsAppend(es, ReversalEntries(es, pid), pid);
    CapitalDebitsAppend(es, ReversalEntries(es, pid), pid);
  }

  /** Reversing twice pays the amount twice; it is idempotent on cash exactly when nothing was booked. */
  lemma ReversalRepeats(l: Ledger, pid: string)
    ensures l.ReverseBuy(pid).ReverseBuy(pid).cash
         == l.cash + 2.0 * (BookedCapital(l.entries, pid) + BookedFees(l.entries, pid))
    ensures l.ReverseBuy(pid).ReverseBuy(pid).cash == l.ReverseBuy(pid).cash
       <==> CapitalDebits(l.entries, pid) == [] && FeeDebits(l.entries, pid) == []
  {
    MirroredJournal(l.entries, pid);
    var capital, paid := CapitalDebits(l.entries, pid), FeeDebits(l.entries, pid);
    SumPositive(capital);
    SumPositive(paid);
  }

  lemma SumPositive(s: seq<real>)
    requires forall i :: 0 <= i < |s| ==> s[i] > 0.0
    ensures Sum(s) >= 0.0 && (Sum(s) == 0.0 <==> s == [])
  {
  }
}
