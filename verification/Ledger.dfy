/**
 The double-entry ledger: every cash movement posts journal entries, and running
 balances are kept beside the journal. The value type `Ledger` and the functions on it
 say what each operation does; class `AccountingLedger` performs the same operations in
 place. The theorems relate the journal to the running balances.
 */
module Accounting {
  import opened Totals

  datatype Account =
    | Cash
    | Equity
    | Fees
    | RealizedPnL
    | Position(positionId: string)
    | Suspense(trade: TradeKey)

  /** The formatted dedup keys of the engine, and the venue's own trade ids. */
  datatype TradeKey =
    | EntryKey(pid: string, mid: string)
    | ResolveKey(pid: string, mid: string)
    | LiquidateKey(pid: string, mid: string)
    | ExitKey(pid: string, mid: string)
    | VenueTrade(id: string)

  datatype JournalEntry = JournalEntry(account: Account, debit: real, credit: real, pid: Option<string>)

  datatype AssetHolding = AssetHolding(marketId: string, shares: real, costBasis: real)

  datatype SuspenseStatus = Matched | Retrying | Confirmed | Failed

  datatype SuspenseEntry = SuspenseEntry(
    pid: string, asset: string, market: string,
    shares: real, price: real, capital: real, fees: real, status: SuspenseStatus)
  {
    predicate Live() { status == Matched || status == Retrying }

    function Locked(): real { if Live() then capital + fees else 0.0 }
  }

  // ---------- What each operation does ----------

  function Opening(cash: real): Ledger {
    Ledger([JournalEntry(Cash, cash, 0.0, None), JournalEntry(Equity, 0.0, cash, None)],
           cash, 0.0, 0.0, 0.0, map[], {}, map[])
  }

  function Bought(h: map<string, AssetHolding>, asset: string, market: string, shares: real, cost: real)
    : map<string, AssetHolding>
  {
    var held := if asset in h then h[asset] else AssetHolding(market, 0.0, 0.0);
    h[asset := held.(shares := held.shares + shares, costBasis := held.costBasis + cost)]
  }

  function Sold(h: map<string, AssetHolding>, asset: string, shares: real, cost: real): map<string, AssetHolding> {
    if asset !in h then h else
      var rest := h[asset].(shares := h[asset].shares - shares, costBasis := h[asset].costBasis - cost);
      if rest.shares <= 0.001 then h - {asset} else h[asset := rest]
  }

  function BuyEntries(pid: string, capital: real, fees: real): seq<JournalEntry> {
    [JournalEntry(Position(pid), capital, 0.0, Some(pid))]
    + (if fees > 0.0 then [JournalEntry(Fees, fees, 0.0, Some(pid))] else [])
    + [JournalEntry(Cash, 0.0, capital + fees, Some(pid))]
  }

  function SellEntries(pid: string, proceeds: real, cost: real, fees: real): seq<JournalEntry> {
    var p := Some(pid);
    var gain := proceeds - cost;
    [JournalEntry(Cash, proceeds, 0.0, p), JournalEntry(Position(pid), 0.0, cost, p)]
    + (if gain < 0.0 then [JournalEntry(RealizedPnL, -gain, 0.0, p)]
       else if gain > 0.0 then [JournalEntry(RealizedPnL, 0.0, gain, p)] else [])
    + (if fees > 0.0 then [JournalEntry(Fees, fees, 0.0, p), JournalEntry(Cash, 0.0, fees, p)] else [])
  }

  /** An entry a reversal of position `pid` mirrors: a debit of its capital account, or a fee it paid. */
  predicate IsCapitalDebit(e: JournalEntry, pid: string) {
    e.account == Position(pid) && e.debit > 0.0 && e.credit == 0.0
  }

  predicate IsFeeDebit(e: JournalEntry, pid: string) {
    e.account == Fees && e.pid == Some(pid) && e.debit > 0.0 && e.credit == 0.0
  }

  function CapitalDebits(es: seq<JournalEntry>, pid: string): (r: seq<real>)
    ensures forall i :: 0 <= i < |r| ==> r[i] > 0.0
  {
    if es == [] then [] else
      CapitalDebits(es[..|es| - 1], pid) + (if IsCapitalDebit(es[|es| - 1], pid) then [es[|es| - 1].debit] else [])
  }

  function FeeDebits(es: seq<JournalEntry>, pid: string): (r: seq<real>)
    ensures forall i :: 0 <= i < |r| ==> r[i] > 0.0
  {
    if es == [] then [] else
      FeeDebits(es[..|es| - 1], pid) + (if IsFeeDebit(es[|es| - 1], pid) then [es[|es| - 1].debit] else [])
  }

  function Mirrors(account: Account, amounts: seq<real>, pid: string): (r: seq<JournalEntry>)
    ensures |r| == |amounts|
  {
    if amounts == [] then [] else
      Mirrors(account, amounts[..|amounts| - 1], pid)
      + [JournalEntry(account, 0.0, amounts[|amounts| - 1], Some(pid))]
  }

  function BookedCapital(es: seq<JournalEntry>, pid: string): real { Sum(CapitalDebits(es, pid)) }

  function BookedFees(es: seq<JournalEntry>, pid: string): real { Sum(FeeDebits(es, pid)) }

  function ReversalEntries(es: seq<JournalEntry>, pid: string): seq<JournalEntry> {
    var total := BookedCapital(es, pid) + BookedFees(es, pid);
    Mirrors(Position(pid), CapitalDebits(es, pid), pid) + Mirrors(Fees, FeeDebits(es, pid), pid)
    + (if total > 0.0 then [JournalEntry(Cash, total, 0.0, Some(pid))] else [])
  }

  function ConfirmEntries(key: TradeKey, e: SuspenseEntry): seq<JournalEntry> {
    [JournalEntry(Position(e.pid), e.capital, 0.0, Some(e.pid))]
    + (if e.fees > 0.0 then [JournalEntry(Fees, e.fees, 0.0, Some(e.pid))] else [])
    + [JournalEntry(Suspense(key), 0.0, e.capital + e.fees, Some(e.pid))]
  }

  ghost function LockedAmounts(s: map<TradeKey, SuspenseEntry>): map<TradeKey, real> {
    map k | k in s && s[k].Live() :: s[k].capital + s[k].fees
  }

  datatype Ledger = Ledger(
    entries: seq<JournalEntry>,
    cash: real, deployed: real, fees: real, pnl: real,
    holdings: map<string, AssetHolding>,
    recorded: set<TradeKey>,
    suspense: map<TradeKey, SuspenseEntry>)
  {
    function RecordBuy(pid: string, capital: real, paid: real, asset: string, market: string, shares: real)
      : Ledger
    {
      this.(entries := entries + BuyEntries(pid, capital, paid),
         cash := cash - (capital + paid), deployed := deployed + capital, fees := fees + paid,
         holdings := Bought(holdings, asset, market, shares, capital))
    }

    function RecordSell(pid: string, proceeds: real, cost: real, paid: real, asset: string, shares: real)
      : Ledger
    {
      this.(entries := entries + SellEntries(pid, proceeds, cost, paid),
         cash := cash + (proceeds - paid), deployed := deployed - cost, fees := fees + paid,
         pnl := pnl + (proceeds - cost),
         holdings := Sold(holdings, asset, shares, cost))
    }

    function Recorded(key: TradeKey): Ledger { this.(recorded := recorded + {key}) }

    function RecordBuyDedup(key: TradeKey, pid: string, capital: real, paid: real,
                            asset: string, market: string, shares: real): Ledger
    {
      if key in recorded then this else Recorded(key).RecordBuy(pid, capital, paid, asset, market, shares)
    }

    function RecordSellDedup(key: TradeKey, pid: string, proceeds: real, cost: real, paid: real,
                             asset: string, shares: real): Ledger
    {
      if key in recorded then this else Recorded(key).RecordSell(pid, proceeds, cost, paid, asset, shares)
    }

    function ReverseBuy(pid: string): Ledger {
      var capital := BookedCapital(entries, pid);
      var paid := BookedFees(entries, pid);
      this.(entries := entries + ReversalEntries(entries, pid),
         cash := cash + (capital + paid),
         deployed := Max(deployed - capital, 0.0),
         fees := Max(fees - paid, 0.0))
    }

    function ReconciliationAdjustment(pid: string, asset: string, market: string, delta: real, price: real)
      : Ledger
    {
      var value := Abs(delta * price);
      var p := Some(pid);
      if delta > 0.0 then
        this.(entries := entries + [JournalEntry(Position(pid), value, 0.0, p), JournalEntry(Cash, 0.0, value, p)],
           cash := cash - value, deployed := deployed + value,
           holdings := Bought(holdings, asset, market, delta, value))
      else if delta < 0.0 then
        this.(entries := entries + [JournalEntry(Cash, value, 0.0, p), JournalEntry(Position(pid), 0.0, value, p)],
           cash := cash + value, deployed := deployed - Min(value, deployed),
           holdings := if asset !in holdings then holdings else
             holdings[asset := holdings[asset].(shares := Max(holdings[asset].shares + delta, 0.0))])
      else this
    }

    function EnterSuspense(key: TradeKey, e: SuspenseEntry): Ledger {
      if key in suspense then this else
        var total := e.capital + e.fees;
        this.(entries := entries + [JournalEntry(Suspense(key), total, 0.0, Some(e.pid)),
                                    JournalEntry(Cash, 0.0, total, Some(e.pid))],
              cash := cash - total,
              suspense := suspense[key := e.(status := Matched)]).Recorded(key)
    }

    /** Whether `key` names a trade whose fate is still open. */
    predicate InSuspense(key: TradeKey) { key in suspense && suspense[key].Live() }

    function ConfirmFromSuspense(key: TradeKey): Ledger {
      if !InSuspense(key) then this else
        var e := suspense[key];
        this.(entries := entries + ConfirmEntries(key, e),
           deployed := deployed + e.capital, fees := fees + e.fees,
           holdings := Bought(holdings, e.asset, e.market, e.shares, e.capital),
           suspense := suspense[key := e.(status := Confirmed)])
    }

    function MarkRetrying(key: TradeKey): Ledger {
      if key in suspense && suspense[key].status == Matched then
        this.(suspense := suspense[key := suspense[key].(status := Retrying)])
      else this
    }

    function ReverseSuspense(key: TradeKey): Ledger {
      if !InSuspense(key) then this else
        var e := suspense[key];
        var total := e.capital + e.fees;
        this.(entries := entries + [JournalEntry(Cash, total, 0.0, Some(e.pid)),
                                   JournalEntry(Suspense(key), 0.0, total, Some(e.pid))],
           cash := cash + total,
           suspense := suspense[key := e.(status := Failed)])
    }

    ghost function SuspenseTotal(): real { Total(LockedAmounts(suspense)) }
  }

  // ---------- The ledger as the program keeps it ----------

  class AccountingLedger {
    var entries: seq<JournalEntry>
    var cash: real
    var deployed: real
    var fees: real
    var pnl: real
    var holdings: map<string, AssetHolding>
    var recorded: set<TradeKey>
    var suspense: map<TradeKey, SuspenseEntry>

    function View(): Ledger
      reads this
    {
      Ledger(entries, cash, deployed, fees, pnl, holdings, recorded, suspense)
    }

    constructor (openingCash: real)
      ensures View() == Opening(openingCash)
    {
      deployed, fees, pnl := 0.0, 0.0, 0.0;
      holdings, recorded, suspense := map[], {}, map[];
      entries := [JournalEntry(Cash, openingCash, 0.0, None)];
      new;
      AddEntry(Equity, 0.0, openingCash, None);
      cash := openingCash;
    }

    method AddEntry(account: Account, debit: real, credit: real, pid: Option<string>)
      modifies this`entries
      ensures entries == old(entries) + [JournalEntry(account, debit, credit, pid)]
    {
      entries := entries + [JournalEntry(account, debit, credit, pid)];
    }

    method AddHolding(asset: string, market: string, shares: real, cost: real)
      modifies this`holdings
      ensures holdings == Bought(old(holdings), asset, market, shares, cost)
    {
      if asset !in holdings {
        holdings := holdings[asset := AssetHolding(market, 0.0, 0.0)];
      }
      var h := holdings[asset];
      holdings := holdings[asset := h.(shares := h.shares + shares, costBasis := h.costBasis + cost)];
    }

    method RecordBuy(pid: string, capital: real, paid: real, asset: string, market: string, shares: real)
      modifies this
      ensures View() == old(View()).RecordBuy(pid, capital, paid, asset, market, shares)
    {
      var total := capital + paid;
      AddEntry(Position(pid), capital, 0.0, Some(pid));
      if paid > 0.0 {
        AddEntry(Fees, paid, 0.0, Some(pid));
      }
      AddEntry(Cash, 0.0, total, Some(pid));
      cash := cash - total;
      deployed := deployed + capital;
      fees := fees + paid;
      AddHolding(asset, market, shares, capital);
    }

    method PostSell(pid: string, proceeds: real, cost: real, paid: real)
      modifies this`entries
      ensures entries == old(entries) + SellEntries(pid, proceeds, cost, paid)
    {
      var tradingPnl := proceeds - cost;
      AddEntry(Cash, proceeds, 0.0, Some(pid));
      AddEntry(Position(pid), 0.0, cost, Some(pid));
      if tradingPnl < 0.0 {
        AddEntry(RealizedPnL, Abs(tradingPnl), 0.0, Some(pid));
      } else if tradingPnl > 0.0 {
        AddEntry(RealizedPnL, 0.0, tradingPnl, Some(pid));
      }
      assert entries == old(entries) + SellEntries(pid, proceeds, cost, 0.0);
      if paid > 0.0 {
        AddEntry(Fees, paid, 0.0, Some(pid));
        AddEntry(Cash, 0.0, paid, Some(pid));
        assert SellEntries(pid, proceeds, cost, paid) == SellEntries(pid, proceeds, cost, 0.0)
          + [JournalEntry(Fees, paid, 0.0, Some(pid)), JournalEntry(Cash, 0.0, paid, Some(pid))];
      }
    }

    method RecordSell(pid: string, proceeds: real, cost: real, paid: real, asset: string, shares: real)
      modifies this
      ensures View() == old(View()).RecordSell(pid, proceeds, cost, paid, asset, shares)
    {
      var tradingPnl := proceeds - cost;
      PostSell(pid, proceeds, cost, paid);
      cash := cash + (proceeds - paid);
      deployed := deployed - cost;
      fees := fees + paid;
      pnl := pnl + tradingPnl;
      if asset in holdings {
        var h := holdings[asset];
        h := h.(shares := h.shares - shares, costBasis := h.costBasis - cost);
        holdings := if h.shares <= 0.001 then holdings - {asset} else holdings[asset := h];
      }
    }

    method RecordBuyDedup(key: TradeKey, pid: string, capital: real, paid: real,
                          asset: string, market: string, shares: real) returns (booked: bool)
      modifies this
      ensures booked == (key !in old(recorded))
      ensures View() == old(View()).RecordBuyDedup(key, pid, capital, paid, asset, market, shares)
    {
      if key in recorded {
        return false;
      }
      recorded := recorded + {key};
      RecordBuy(pid, capital, paid, asset, market, shares);
      return true;
    }

    method RecordSellDedup(key: TradeKey, pid: string, proceeds: real, cost: real, paid: real,
                           asset: string, shares: real) returns (booked: bool)
      modifies this
      ensures booked == (key !in old(recorded))
      ensures View() == old(View()).RecordSellDedup(key, pid, proceeds, cost, paid, asset, shares)
    {
      if key in recorded {
        return false;
      }
      recorded := recorded + {key};
      RecordSell(pid, proceeds, cost, paid, asset, shares);
      return true;
    }

    /** Posts one mirror entry per amount, and returns their sum. */
    method PostMirrors(account: Account, amounts: seq<real>, pid: string) returns (total: real)
      modifies this`entries
      ensures entries == old(entries) + Mirrors(account, amounts, pid)
      ensures total == Sum(amounts)
    {
      total := 0.0;
      for i := 0 to |amounts|
        invariant entries == old(entries) + Mirrors(account, amounts[..i], pid)
        invariant total == Sum(amounts[..i])
      {
        assert amounts[..i + 1][..i] == amounts[..i];
        AddEntry(account, 0.0, amounts[i], Some(pid));
        total := total + amounts[i];
      }
      assert amounts[..|amounts|] == amounts;
    }

    method PostReversal(pid: string) returns (totalCapital: real, totalFees: real)
      modifies this`entries
      ensures entries == old(entries) + ReversalEntries(old(entries), pid)
      ensures totalCapital == BookedCapital(old(entries), pid) && totalFees == BookedFees(old(entries), pid)
    {
      var buys := CapitalDebits(entries, pid);
      totalCapital := PostMirrors(Position(pid), buys, pid);
      var paid := FeeDebits(entries, pid);
      assert paid == FeeDebits(old(entries), pid) by {
        FeeDebitsAppend(old(entries), Mirrors(Position(pid), buys, pid), pid);
        MirrorsAreNoDebits(Position(pid), buys, pid, pid);
      }
      totalFees := PostMirrors(Fees, paid, pid);
      if totalCapital + totalFees > 0.0 {
        AddEntry(Cash, totalCapital + totalFees, 0.0, Some(pid));
      }
    }

    method ReverseBuyByPosition(pid: string) returns (total: real)
      modifies this
      ensures View() == old(View()).ReverseBuy(pid)
      ensures total == BookedCapital(old(entries), pid) + BookedFees(old(entries), pid)
    {
      var totalCapital, totalFees := PostReversal(pid);
      total := totalCapital + totalFees;
      cash := cash + total;
      deployed := Max(deployed - totalCapital, 0.0);
      fees := Max(fees - totalFees, 0.0);
    }

    method RecordReconciliationAdjustment(pid: string, asset: string, market: string, delta: real, price: real)
      modifies this
      ensures View() == old(View()).ReconciliationAdjustment(pid, asset, market, delta, price)
    {
      var value := Abs(delta * price);
      if delta > 0.0 {
        AddEntry(Position(pid), value, 0.0, Some(pid));
        AddEntry(Cash, 0.0, value, Some(pid));
        cash := cash - value;
        deployed := deployed + value;
        AddHolding(asset, market, delta, value);
      } else if delta < 0.0 {
        AddEntry(Cash, value, 0.0, Some(pid));
        AddEntry(Position(pid), 0.0, value, Some(pid));
        cash := cash + value;
        deployed := deployed - Min(value, deployed);
        if asset in holdings {
          holdings := holdings[asset := holdings[asset].(shares := Max(holdings[asset].shares + delta, 0.0))];
        }
      }
    }

    method EnterSuspense(key: TradeKey, e: SuspenseEntry) returns (entered: bool)
      requires e.status == Matched
      modifies this
      ensures entered == (key !in old(suspense))
      ensures View() == old(View()).EnterSuspense(key, e)
    {
      if key in suspense {
        return false;
      }
      var total := e.capital + e.fees;
      AddEntry(Suspense(key), total, 0.0, Some(e.pid));
      AddEntry(Cash, 0.0, total, Some(e.pid));
      cash := cash - total;
      suspense := suspense[key := e];
      recorded := recorded + {key};
      return true;
    }

    method ConfirmFromSuspense(key: TradeKey) returns (promoted: Option<SuspenseEntry>)
      modifies this
      ensures promoted.Some? == old(View()).InSuspense(key)
      ensures promoted.Some? ==> promoted.value == old(suspense)[key].(status := Confirmed)
      ensures View() == old(View()).ConfirmFromSuspense(key)
    {
      if key !in suspense || suspense[key].status == Confirmed || suspense[key].status == Failed {
        return None;
      }
      var e := suspense[key].(status := Confirmed);
      suspense := suspense[key := e];
      AddEntry(Position(e.pid), e.capital, 0.0, Some(e.pid));
      if e.fees > 0.0 {
        AddEntry(Fees, e.fees, 0.0, Some(e.pid));
      }
      AddEntry(Suspense(key), 0.0, e.capital + e.fees, Some(e.pid));
      deployed := deployed + e.capital;
      fees := fees + e.fees;
      AddHolding(e.asset, e.market, e.shares, e.capital);
      return Some(e);
    }

    method MarkSuspenseRetrying(key: TradeKey)
      modifies this
      ensures View() == old(View()).MarkRetrying(key)
    {
      if key in suspense && suspense[key].status == Matched {
        suspense := suspense[key := suspense[key].(status := Retrying)];
      }
    }

    method ReverseSuspense(key: TradeKey) returns (reversed: Option<SuspenseEntry>)
      modifies this
      ensures reversed.Some? == old(View()).InSuspense(key)
      ensures reversed.Some? ==> reversed.value == old(suspense)[key].(status := Failed)
      ensures View() == old(View()).ReverseSuspense(key)
    {
      if key !in suspense || suspense[key].status == Confirmed || suspense[key].status == Failed {
        return None;
      }
      var e := suspense[key].(status := Failed);
      suspense := suspense[key := e];
      var total := e.capital + e.fees;
      AddEntry(Cash, total, 0.0, Some(e.pid));
      AddEntry(Suspense(key), 0.0, total, Some(e.pid));
      cash := cash + total;
      return Some(e);
    }

    /** Whether debits and credits are equal to within a tenth of a cent: two sums over the whole journal. */
    method VerifyBalance() returns (balanced: bool)
      ensures balanced == (Abs(Net(entries, Everything)) < 0.001)
    {
      var debits, credits := 0.0, 0.0;
      for i := 0 to |entries|
        invariant debits - credits == Net(entries[..i], Everything)
      {
        assert entries[..i + 1][..i] == entries[..i];
        debits := debits + entries[i].debit;
        credits := credits + entries[i].credit;
      }
      assert entries[..|entries|] == entries;
      return Abs(debits - credits) < 0.001;
    }
  }

  // ---------- Journal arithmetic ----------

  datatype Scope = One(account: Account) | AllPositions | AllSuspense | Everything
  {
    predicate Covers(a: Account) {
      match this
      case One(b) => a == b
      case AllPositions => a.Position?
      case AllSuspense => a.Suspense?
      case Everything => true
    }
  }

  /** Debits minus credits posted to the accounts in scope. */
  function Net(es: seq<JournalEntry>, s: Scope): real {
    if es == [] then 0.0 else
      Net(es[..|es| - 1], s)
      + (if s.Covers(es[|es| - 1].account) then es[|es| - 1].debit - es[|es| - 1].credit else 0.0)
  }

  lemma {:induction false} NetAppend(es: seq<JournalEntry>, fs: seq<JournalEntry>, s: Scope)
    ensures Net(es + fs, s) == Net(es, s) + Net(fs, s)
  {
    if fs == [] {
      assert es + fs == es;
    } else {
      assert (es + fs)[..|es + fs| - 1] == es + fs[..|fs| - 1];
      NetAppend(es, fs[..|fs| - 1], s);
    }
  }

  lemma {:induction false} FeeDebitsAppend(es: seq<JournalEntry>, fs: seq<JournalEntry>, pid: string)
    ensures FeeDebits(es + fs, pid) == FeeDebits(es, pid) + FeeDebits(fs, pid)
  {
    if fs == [] {
      assert es + fs == es;
    } else {
      assert (es + fs)[..|es + fs| - 1] == es + fs[..|fs| - 1];
      FeeDebitsAppend(es, fs[..|fs| - 1], pid);
    }
  }

  lemma {:induction false} CapitalDebitsAppend(es: seq<JournalEntry>, fs: seq<JournalEntry>, pid: string)
    ensures CapitalDebits(es + fs, pid) == CapitalDebits(es, pid) + CapitalDebits(fs, pid)
  {
    if fs == [] {
      assert es + fs == es;
    } else {
      assert (es + fs)[..|es + fs| - 1] == es + fs[..|fs| - 1];
      CapitalDebitsAppend(es, fs[..|fs| - 1], pid);
    }
  }

  lemma {:induction false} MirrorsAreNoDebits(account: Account, amounts: seq<real>, owner: string, pid: string)
    ensures FeeDebits(Mirrors(account, amounts, owner), pid) == []
    ensures CapitalDebits(Mirrors(account, amounts, owner), pid) == []
  {
    if amounts != [] {
      MirrorsAreNoDebits(account, amounts[..|amounts| - 1], owner, pid);
    }
  }

  lemma {:induction false} NetMirrors(account: Account, amounts: seq<real>, pid: string, s: Scope)
    ensures Net(Mirrors(account, amounts, pid), s) == if s.Covers(account) then -Sum(amounts) else 0.0
  {
    if amounts != [] {
      NetMirrors(account, amounts[..|amounts| - 1], pid, s);
    }
  }

  /** Every account lies in exactly one class, so the class nets add up to the net of everything. */
  lemma {:induction false} NetByClass(es: seq<JournalEntry>)
    ensures Net(es, Everything)
         == Net(es, One(Cash)) + Net(es, One(Equity)) + Net(es, One(Fees)) + Net(es, One(RealizedPnL))
          + Net(es, AllPositions) + Net(es, AllSuspense)
  {
    if es != [] {
      NetByClass(es[..|es| - 1]);
    }
  }

  // ---------- What a position has booked ----------

  lemma BookedAppend(es: seq<JournalEntry>, fs: seq<JournalEntry>, pid: string)
    ensures BookedCapital(es + fs, pid) == BookedCapital(es, pid) + BookedCapital(fs, pid)
    ensures BookedFees(es + fs, pid) == BookedFees(es, pid) + BookedFees(fs, pid)
  {
    CapitalDebitsAppend(es, fs, pid);
    FeeDebitsAppend(es, fs, pid);
    SumAppend(CapitalDebits(es, pid), CapitalDebits(fs, pid));
    SumAppend(FeeDebits(es, pid), FeeDebits(fs, pid));
  }

  lemma BookedOne(e: JournalEntry, pid: string)
    ensures BookedCapital([e], pid) == if IsCapitalDebit(e, pid) then e.debit else 0.0
    ensures BookedFees([e], pid) == if IsFeeDebit(e, pid) then e.debit else 0.0
  {
    assert [e][..0] == [] && [e.debit][..0] == [];
    assert Sum([e.debit]) == e.debit;
    assert CapitalDebits([e], pid) == if IsCapitalDebit(e, pid) then [e.debit] else [];
    assert FeeDebits([e], pid) == if IsFeeDebit(e, pid) then [e.debit] else [];
  }

  lemma BookedByBuy(owner: string, capital: real, paid: real, pid: string)
    requires capital >= 0.0 && paid >= 0.0
    ensures BookedCapital(BuyEntries(owner, capital, paid), pid) == if pid == owner then capital else 0.0
    ensures BookedFees(BuyEntries(owner, capital, paid), pid) == if pid == owner then paid else 0.0
  {
    var p := JournalEntry(Position(owner), capital, 0.0, Some(owner));
    var f := JournalEntry(Fees, paid, 0.0, Some(owner));
    var c := JournalEntry(Cash, 0.0, capital + paid, Some(owner));
    BookedOne(p, pid);
    BookedOne(f, pid);
    BookedOne(c, pid);
    if paid > 0.0 {
      BookedAppend([p], [f], pid);
      BookedAppend([p] + [f], [c], pid);
      assert BuyEntries(owner, capital, paid) == [p] + [f] + [c];
    } else {
      BookedAppend([p], [c], pid);
      assert BuyEntries(owner, capital, paid) == [p] + [c];
    }
  }

  lemma {:induction false} NothingBookedElsewhere(es: seq<JournalEntry>, pid: string)
    requires forall i :: 0 <= i < |es| ==> !IsCapitalDebit(es[i], pid) && !IsFeeDebit(es[i], pid)
    ensures BookedCapital(es, pid) == 0.0 && BookedFees(es, pid) == 0.0
    ensures CapitalDebits(es, pid) == [] && FeeDebits(es, pid) == []
  {
    if es != [] {
      NothingBookedElsewhere(es[..|es| - 1], pid);
    }
  }
}
