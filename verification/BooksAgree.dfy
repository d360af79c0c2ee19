/**
 Two books kept independently by the same engine steps: the position manager's capital and
 the ledger's running balances. Along every admissible run the deployed capital agrees, and
 the cash differs by exactly the entry fees of rolled-back positions; each step's exact
 condition is a guard the caller can check.
 */
module BooksAgree {
  import opened Totals
  import opened Arithmetic
  import opened Positions
  import opened Entries
  import opened Engine
  import A = Accounting
  import L = LedgerAgreement

  function Capitals(open: map<string, Position>): map<string, real> { map pid | pid in open :: open[pid].totalCapital }

  function FeesPaid(open: map<string, Position>): map<string, real> { map pid | pid in open :: open[pid].feesPaid }

  /** `refunded` is what the ledger gave back beyond the position manager. */
  ghost predicate Agree(s: State, refunded: real) {
    && s.ledger.deployed == Total(Capitals(s.portfolio.open))
    && s.ledger.cash == s.portfolio.capital + refunded
  }

  /** Nothing in the ledger mentions the position yet. */
  ghost predicate Untouched(l: A.Ledger, pid: string) {
    && (forall mid :: A.EntryKey(pid, mid) !in l.recorded && A.ResolveKey(pid, mid) !in l.recorded
                      && A.LiquidateKey(pid, mid) !in l.recorded)
    && A.BookedCapital(l.entries, pid) == 0.0 && A.BookedFees(l.entries, pid) == 0.0
  }

  /** No leg of the position has been exited in the ledger. */
  ghost predicate Unexited(l: A.Ledger, pid: string) { forall mid :: A.ExitKey(pid, mid) !in l.recorded }

  /** An open position is booked with all its fees, in full unless a leg was exited, and not yet closed. */
  ghost predicate BookedOnce(l: A.Ledger, pid: string, p: Position) {
    && (forall mid :: A.ResolveKey(pid, mid) !in l.recorded && A.LiquidateKey(pid, mid) !in l.recorded)
    && (Unexited(l, pid) ==> A.BookedCapital(l.entries, pid) == p.totalCapital)
    && A.BookedFees(l.entries, pid) == p.feesPaid
  }

  /** The ledger's view of position `q` is the same in both. */
  ghost predicate LeavesAlone(l: A.Ledger, r: A.Ledger, q: string) {
    && A.BookedCapital(r.entries, q) == A.BookedCapital(l.entries, q)
    && A.BookedFees(r.entries, q) == A.BookedFees(l.entries, q)
    && (forall mid :: A.ResolveKey(q, mid) in r.recorded <==> A.ResolveKey(q, mid) in l.recorded)
    && (forall mid :: A.LiquidateKey(q, mid) in r.recorded <==> A.LiquidateKey(q, mid) in l.recorded)
    && (forall mid :: A.ExitKey(q, mid) in r.recorded <==> A.ExitKey(q, mid) in l.recorded)
  }

  lemma StaysBooked(l: A.Ledger, r: A.Ledger, q: string, p: Position)
    requires BookedOnce(l, q, p) && LeavesAlone(l, r, q)
    ensures BookedOnce(r, q, p)
  {
  }

  ghost predicate Bookable(p: Position) {
    SoundPosition(p) && p.feesPaid >= 0.0 && LegsBookable(p.markets)
  }

  /** A leg is worth something, or it has been sold out. */
  ghost predicate LegsBookable(markets: map<string, Leg>) {
    forall mid :: mid in markets ==> LegBookable(markets[mid])
  }

  predicate LegBookable(leg: Leg) {
    || (leg.bet > 0.0 && leg.shares >= 0.0 && NoLegPayout(leg) > 0.0)
    || (leg.bet == 0.0 && leg.shares == 0.0)
  }

  ghost predicate OpenPositionsBooked(s: State) {
    forall pid :: pid in s.portfolio.open ==>
      BookedOnce(s.ledger, pid, s.portfolio.open[pid]) && Bookable(s.portfolio.open[pid])
  }

  ghost predicate Invariant(s: State, refunded: real) {
    && Agree(s, refunded) && OpenPositionsBooked(s)
    && 0.0 <= s.portfolio.takerFee <= 1.0
    && Total(FeesPaid(s.portfolio.open)) <= s.ledger.fees
  }

  // ---------- Sums over open positions ----------

  lemma OpenUpdate(open: map<string, Position>, pid: string, p: Position)
    requires pid !in open
    ensures Total(Capitals(open[pid := p])) == Total(Capitals(open)) + p.totalCapital
    ensures Total(FeesPaid(open[pid := p])) == Total(FeesPaid(open)) + p.feesPaid
  {
    assert Capitals(open[pid := p]) == Capitals(open)[pid := p.totalCapital];
    assert FeesPaid(open[pid := p]) == FeesPaid(open)[pid := p.feesPaid];
    TotalUpdate(Capitals(open), pid, p.totalCapital);
    TotalUpdate(FeesPaid(open), pid, p.feesPaid);
  }

  lemma OpenRemove(open: map<string, Position>, pid: string)
    requires pid in open
    ensures Total(Capitals(open - {pid})) == Total(Capitals(open)) - open[pid].totalCapital
    ensures Total(FeesPaid(open - {pid})) == Total(FeesPaid(open)) - open[pid].feesPaid
  {
    assert Capitals(open - {pid}) == Capitals(open) - {pid};
    assert FeesPaid(open - {pid}) == FeesPaid(open) - {pid};
    TotalRemove(Capitals(open), pid);
    TotalRemove(FeesPaid(open), pid);
  }

  // ---------- Entry ----------

  ghost function Fees(markets: map<string, Leg>, feeEach: real): map<string, real> {
    map mid | mid in markets :: feeEach
  }

  lemma FeesTotal(p: Position)
    ensures p.markets != map[] ==> Total(Fees(p.markets, FeePerLeg(p))) == p.feesPaid
    ensures p.markets == map[] ==> Total(Fees(p.markets, FeePerLeg(p))) == 0.0
  {
    TotalConstant(Fees(p.markets, FeePerLeg(p)), FeePerLeg(p));
    assert Fees(p.markets, FeePerLeg(p)).Keys == p.markets.Keys;
    assert |Fees(p.markets, FeePerLeg(p)).Keys| == |p.markets.Keys|;
  }

  lemma BuyBooks(l: A.Ledger, pid: string, mid: string, capital: real, paid: real, asset: string, shares: real,
                 q: string)
    requires A.EntryKey(pid, mid) !in l.recorded && capital >= 0.0 && paid >= 0.0
    ensures var r := l.RecordBuyDedup(A.EntryKey(pid, mid), pid, capital, paid, asset, mid, shares);
      && A.BookedCapital(r.entries, q) == A.BookedCapital(l.entries, q) + (if q == pid then capital else 0.0)
      && A.BookedFees(r.entries, q) == A.BookedFees(l.entries, q) + (if q == pid then paid else 0.0)
  {
    A.BookedAppend(l.entries, A.BuyEntries(pid, capital, paid), q);
    A.BookedByBuy(pid, capital, paid, q);
  }

  lemma {:induction false} EntryRecords(l: A.Ledger, pid: string, markets: map<string, Leg>, feeEach: real,
                                        order: seq<string>)
    requires forall mid :: mid in order ==> mid in markets
    ensures BookEntry(l, pid, markets, feeEach, order).recorded
         == l.recorded + set mid | mid in order :: A.EntryKey(pid, mid)
  {
    if order != [] {
      EntryRecords(l, pid, markets, feeEach, order[..|order| - 1]);
      assert order == order[..|order| - 1] + [order[|order| - 1]];
    }
  }

  /** Entering books every leg once, whatever the iteration order. */
  lemma {:induction false} EntryMoves(l: A.Ledger, pid: string, markets: map<string, Leg>, feeEach: real,
                                      order: seq<string>)
    requires forall mid :: mid in order ==> mid in markets
    requires forall i, j :: 0 <= i < j < |order| ==> order[i] != order[j]
    requires forall mid :: A.EntryKey(pid, mid) !in l.recorded
    ensures var r := BookEntry(l, pid, markets, feeEach, order);
      var bets, fees := Sum(Along(Bets(markets), order)), Sum(Along(Fees(markets, feeEach), order));
      && r.deployed == l.deployed + bets
      && r.cash == l.cash - (bets + fees)
      && r.fees == l.fees + fees
  {
    if order != [] {
      var n := |order| - 1;
      EntryMoves(l, pid, markets, feeEach, order[..n]);
      assert A.EntryKey(pid, order[n]) !in BookEntry(l, pid, markets, feeEach, order[..n]).recorded by {
        EntryRecords(l, pid, markets, feeEach, order[..n]);
      }
      assert Along(Bets(markets), order)[..n] == Along(Bets(markets), order[..n]);
      assert Along(Fees(markets, feeEach), order)[..n] == Along(Fees(markets, feeEach), order[..n]);
    }
  }

  lemma {:induction false} EntryBooks(l: A.Ledger, pid: string, markets: map<string, Leg>, feeEach: real,
                                      order: seq<string>, q: string)
    requires forall mid :: mid in order ==> mid in markets && markets[mid].bet >= 0.0
    requires forall i, j :: 0 <= i < j < |order| ==> order[i] != order[j]
    requires forall mid :: A.EntryKey(pid, mid) !in l.recorded
    requires feeEach >= 0.0
    ensures var r := BookEntry(l, pid, markets, feeEach, order);
      && A.BookedCapital(r.entries, q)
         == A.BookedCapital(l.entries, q) + (if q == pid then Sum(Along(Bets(markets), order)) else 0.0)
      && A.BookedFees(r.entries, q)
         == A.BookedFees(l.entries, q) + (if q == pid then Sum(Along(Fees(markets, feeEach), order)) else 0.0)
  {
    if order != [] {
      var n := |order| - 1;
      var mid := order[n];
      EntryRecords(l, pid, markets, feeEach, order[..n]);
      EntryBooks(l, pid, markets, feeEach, order[..n], q);
      assert Along(Bets(markets), order)[..n] == Along(Bets(markets), order[..n]);
      assert Along(Fees(markets, feeEach), order)[..n] == Along(Fees(markets, feeEach), order[..n]);
      BuyBooks(BookEntry(l, pid, markets, feeEach, order[..n]), pid, mid, markets[mid].bet, feeEach,
               Asset(mid, markets[mid]), markets[mid].shares, q);
    }
  }

  lemma {:induction false} EntryIsFaithful(l: A.Ledger, pid: string, markets: map<string, Leg>, feeEach: real,
                                           order: seq<string>, opening: real)
    requires forall mid :: mid in order ==> mid in markets
    requires feeEach >= 0.0 && L.Agrees(l, opening)
    ensures L.Agrees(BookEntry(l, pid, markets, feeEach, order), opening)
  {
    if order != [] {
      var n := |order| - 1;
      var mid := order[n];
      EntryIsFaithful(l, pid, markets, feeEach, order[..n], opening);
      L.StepAgreesExactly(BookEntry(l, pid, markets, feeEach, order[..n]),
        L.BuyDedup(A.EntryKey(pid, mid), pid, markets[mid].bet, feeEach, Asset(mid, markets[mid]), mid,
          markets[mid].shares), opening);
    }
  }

  lemma NewPositionSound(s: Portfolio, e: Entry)
    requires CleanEntry(e) && s.takerFee >= 0.0
    ensures var p := s.NewPosition(e);
      && p.feesPaid >= 0.0 && p.totalCapital >= 0.0
      && LegsBookable(p.markets)
  {
    TotalNonNegative(e.bets);
    ProductNonNegative(s.takerFee, Total(e.bets));
    forall mid | mid in e.marketIds
      ensures NoLegPayout(EntryLeg(e, mid)) > 0.0 && EntryShares(e, mid) >= 0.0
    {
      var leg := EntryLeg(e, mid);
      assert leg.bet > 0.0;
      if e.isSell { Positive(leg.bet, NoPrice(e, mid)); }
      else if leg.entryPrice > 0.0 { Positive(leg.bet, leg.entryPrice); }
      else { Positive(leg.bet, 1.0 - leg.entryPrice); }
    }
  }

  /** What an accepted entry does to the ledger's figures. */
  lemma EnterMoves(s: State, pid: string, e: Entry, order: seq<string>)
    requires Enumerates(order, EntryLegs(e).Keys) && s.portfolio.Accepts(e)
    requires Untouched(s.ledger, pid)
    ensures var r := Enter(s, pid, e, order); var p := s.portfolio.NewPosition(e);
      var bets := Total(Bets(p.markets));
      var fees := if p.markets == map[] then 0.0 else p.feesPaid;
      && r.ledger.deployed == s.ledger.deployed + bets
      && r.ledger.cash == s.ledger.cash - (bets + fees)
      && r.ledger.fees == s.ledger.fees + fees
      && r.ledger.recorded == s.ledger.recorded + set mid | mid in order :: A.EntryKey(pid, mid)
  {
    var p := s.portfolio.NewPosition(e);
    EntryMoves(s.ledger, pid, p.markets, FeePerLeg(p), order);
    EntryRecords(s.ledger, pid, p.markets, FeePerLeg(p), order);
    TotalAlong(Bets(p.markets), order);
    TotalAlong(Fees(p.markets, FeePerLeg(p)), order);
    FeesTotal(p);
  }

  lemma NoMarketsNoFees(s: Portfolio, e: Entry)
    requires CoversBets(e)
    ensures s.NewPosition(e).markets == map[] ==> s.NewPosition(e).feesPaid == 0.0
  {
  }

  /** An entry keeps the books in agreement exactly when no bet lies outside the listed markets. */
  lemma EnterAgreesExactly(s: State, pid: string, e: Entry, order: seq<string>, refunded: real)
    requires Enumerates(order, EntryLegs(e).Keys)
    requires Agree(s, refunded) && s.portfolio.Accepts(e) && s.portfolio.takerFee >= 0.0
    requires pid !in s.portfolio.open && Untouched(s.ledger, pid) && CleanEntry(e)
    ensures Agree(Enter(s, pid, e, order), refunded) <==> CoversBets(e)
  {
    var p := s.portfolio.NewPosition(e);
    EnterMoves(s, pid, e, order);
    OpenUpdate(s.portfolio.open, pid, p);
    EntryTotals(e);
    UnlistedIsZeroExactly(e);
    if CoversBets(e) {
      NoMarketsNoFees(s.portfolio, e);
    }
  }

  lemma EntryAdds(s: Portfolio, e: Entry, order: seq<string>)
    requires Enumerates(order, EntryLegs(e).Keys) && s.takerFee >= 0.0 && CleanEntry(e) && CoversBets(e)
    ensures var p := s.NewPosition(e);
      && p.totalCapital == Total(Bets(p.markets)) == Sum(Along(Bets(p.markets), order))
      && p.feesPaid == Sum(Along(Fees(p.markets, FeePerLeg(p)), order))
      && FeePerLeg(p) >= 0.0
  {
    var p := s.NewPosition(e);
    assert p.totalCapital == Total(Bets(p.markets)) by {
      EntryTotals(e);
      UnlistedIsZeroExactly(e);
    }
    assert Total(Bets(p.markets)) == Sum(Along(Bets(p.markets), order)) by {
      TotalAlong(Bets(p.markets), order);
    }
    assert Total(Fees(p.markets, FeePerLeg(p))) == Sum(Along(Fees(p.markets, FeePerLeg(p)), order)) by {
      TotalAlong(Fees(p.markets, FeePerLeg(p)), order);
    }
    FeesTotal(p);
    NoMarketsNoFees(s, e);
    assert p.feesPaid >= 0.0 by { NewPositionSound(s, e); }
    FeePerLegNonNegative(p);
  }

  lemma FeePerLegNonNegative(p: Position)
    requires p.feesPaid >= 0.0
    ensures FeePerLeg(p) >= 0.0
  {
  }

  lemma EnterBooksPosition(s: State, pid: string, e: Entry, order: seq<string>, q: string)
    requires Enumerates(order, EntryLegs(e).Keys) && s.portfolio.Accepts(e) && s.portfolio.takerFee >= 0.0
    requires Untouched(s.ledger, pid) && CleanEntry(e) && CoversBets(e)
    ensures var l, r := s.ledger, Enter(s, pid, e, order).ledger; var p := s.portfolio.NewPosition(e);
      && A.BookedCapital(r.entries, q) == A.BookedCapital(l.entries, q) + (if q == pid then p.totalCapital else 0.0)
      && A.BookedFees(r.entries, q) == A.BookedFees(l.entries, q) + (if q == pid then p.feesPaid else 0.0)
      && p.totalCapital == Total(Bets(p.markets))
  {
    var p := s.portfolio.NewPosition(e);
    NewPositionSound(s.portfolio, e);
    EntryAdds(s.portfolio, e, order);
    EntryBooks(s.ledger, pid, p.markets, FeePerLeg(p), order, q);
  }

  lemma EnterLeavesOthersAlone(s: State, pid: string, e: Entry, order: seq<string>, q: string)
    requires Enumerates(order, EntryLegs(e).Keys) && s.portfolio.Accepts(e) && s.portfolio.takerFee >= 0.0
    requires Untouched(s.ledger, pid) && CleanEntry(e) && CoversBets(e) && q != pid
    ensures LeavesAlone(s.ledger, Enter(s, pid, e, order).ledger, q)
  {
    EnterBooksPosition(s, pid, e, order, q);
    EnterMoves(s, pid, e, order);
  }

  lemma EnteredIsBooked(s: State, pid: string, e: Entry, order: seq<string>)
    requires Enumerates(order, EntryLegs(e).Keys) && s.portfolio.Accepts(e) && s.portfolio.takerFee >= 0.0
    requires Untouched(s.ledger, pid) && CleanEntry(e) && CoversBets(e)
    ensures BookedOnce(Enter(s, pid, e, order).ledger, pid, s.portfolio.NewPosition(e))
            && Bookable(s.portfolio.NewPosition(e))
  {
    EnterBooksPosition(s, pid, e, order, pid);
    EnterMoves(s, pid, e, order);
    NewPositionSound(s.portfolio, e);
    NewPositionSoundExactly(s.portfolio, e);
  }

  lemma EnterKeepsInvariant(s: State, pid: string, e: Entry, order: seq<string>, refunded: real)
    requires Enumerates(order, EntryLegs(e).Keys) && Invariant(s, refunded)
    requires pid !in s.portfolio.open && Untouched(s.ledger, pid) && CleanEntry(e) && CoversBets(e)
    ensures Invariant(Enter(s, pid, e, order), refunded)
  {
    if s.portfolio.Accepts(e) {
      var r := Enter(s, pid, e, order);
      forall q | q in r.portfolio.open
        ensures BookedOnce(r.ledger, q, r.portfolio.open[q]) && Bookable(r.portfolio.open[q])
      {
        if q == pid {
          EnteredIsBooked(s, pid, e, order);
        } else {
          EnterLeavesOthersAlone(s, pid, e, order, q);
          StaysBooked(s.ledger, r.ledger, q, s.portfolio.open[q]);
        }
      }
      EnterKeepsFigures(s, pid, e, order, refunded);
    }
  }

  lemma EnterKeepsFigures(s: State, pid: string, e: Entry, order: seq<string>, refunded: real)
    requires Enumerates(order, EntryLegs(e).Keys) && Invariant(s, refunded) && s.portfolio.Accepts(e)
    requires pid !in s.portfolio.open && Untouched(s.ledger, pid) && CleanEntry(e) && CoversBets(e)
    ensures var r := Enter(s, pid, e, order);
      Agree(r, refunded) && Total(FeesPaid(r.portfolio.open)) <= r.ledger.fees
  {
    EnterAgreesExactly(s, pid, e, order, refunded);
    EnterMoves(s, pid, e, order);
    OpenUpdate(s.portfolio.open, pid, s.portfolio.NewPosition(e));
    NoMarketsNoFees(s.portfolio, e);
  }

  // ---------- Selling legs ----------

  lemma SellBooksNothing(pid: string, proceeds: real, cost: real, paid: real, q: string)
    requires q != pid
    ensures var es := A.SellEntries(pid, proceeds, cost, paid);
            A.BookedCapital(es, q) == 0.0 && A.BookedFees(es, q) == 0.0
  {
    A.NothingBookedElsewhere(A.SellEntries(pid, proceeds, cost, paid), q);
  }

  lemma SellRecords(l: A.Ledger, key: A.TradeKey, pid: string, proceeds: real, cost: real, paid: real, asset: string,
                    shares: real)
    ensures l.RecordSellDedup(key, pid, proceeds, cost, paid, asset, shares).recorded == l.recorded + {key}
  {
  }

  lemma SellBooks(l: A.Ledger, key: A.TradeKey, pid: string, proceeds: real, cost: real, paid: real, asset: string,
                  shares: real, q: string)
    requires q != pid
    ensures var r := l.RecordSellDedup(key, pid, proceeds, cost, paid, asset, shares);
      && A.BookedCapital(r.entries, q) == A.BookedCapital(l.entries, q)
      && A.BookedFees(r.entries, q) == A.BookedFees(l.entries, q)
  {
    if key !in l.recorded {
      SellBooksNothing(pid, proceeds, cost, paid, q);
      A.BookedAppend(l.entries, A.SellEntries(pid, proceeds, cost, paid), q);
    }
  }

  // ---------- Resolution ----------

  /** The leg that books the payout: the winner's, unless it was sold out and is skipped. */
  predicate TakesPayout(markets: map<string, Leg>, winner: string) { winner in markets && !Skipped(markets[winner]) }

  function PaidTo(markets: map<string, Leg>, winner: string, payout: real): map<string, real> {
    map mid | mid in markets :: if mid == winner && !Skipped(markets[mid]) then payout else 0.0
  }

  lemma PaidToTotal(markets: map<string, Leg>, winner: string, payout: real)
    ensures Total(PaidTo(markets, winner, payout)) == if TakesPayout(markets, winner) then payout else 0.0
  {
    var m := PaidTo(markets, winner, payout);
    if TakesPayout(markets, winner) {
      TotalRemove(m, winner);
      TotalConstant(m - {winner}, 0.0);
    } else {
      TotalConstant(m, 0.0);
    }
  }

  lemma {:induction false} ResolutionRecords(l: A.Ledger, pid: string, markets: map<string, Leg>, winner: string,
                                             payout: real, order: seq<string>)
    requires forall mid :: mid in order ==> mid in markets
    ensures BookResolution(l, pid, markets, winner, payout, order).recorded
         == l.recorded + set mid | mid in order && !Skipped(markets[mid]) :: A.ResolveKey(pid, mid)
  {
    if order != [] {
      var n := |order| - 1;
      var mid := order[n];
      ResolutionRecords(l, pid, markets, winner, payout, order[..n]);
      SellRecords(BookResolution(l, pid, markets, winner, payout, order[..n]), A.ResolveKey(pid, mid), pid,
                  if mid == winner then payout else 0.0, markets[mid].bet, 0.0, Asset(mid, markets[mid]),
                  markets[mid].shares);
      assert order == order[..n] + [mid];
    }
  }

  lemma AlongLast(m: map<string, real>, order: seq<string>)
    requires order != [] && forall k :: k in order ==> k in m
    ensures Sum(Along(m, order)) == Sum(Along(m, order[..|order| - 1])) + m[order[|order| - 1]]
  {
    assert Along(m, order)[..|order| - 1] == Along(m, order[..|order| - 1]);
  }

  lemma {:induction false} ResolutionMoves(l: A.Ledger, pid: string, markets: map<string, Leg>, winner: string,
                                           payout: real, order: seq<string>)
    requires forall mid :: mid in order ==> mid in markets
    requires forall i, j :: 0 <= i < j < |order| ==> order[i] != order[j]
    requires LegsBookable(markets) && forall mid :: A.ResolveKey(pid, mid) !in l.recorded
    ensures var r := BookResolution(l, pid, markets, winner, payout, order);
      && r.deployed == l.deployed - Sum(Along(Bets(markets), order))
      && r.cash == l.cash + Sum(Along(PaidTo(markets, winner, payout), order))
      && r.fees == l.fees
  {
    if order != [] {
      var n := |order| - 1;
      ResolutionMoves(l, pid, markets, winner, payout, order[..n]);
      assert A.ResolveKey(pid, order[n]) !in BookResolution(l, pid, markets, winner, payout, order[..n]).recorded by {
        ResolutionRecords(l, pid, markets, winner, payout, order[..n]);
      }
      AlongLast(Bets(markets), order);
      AlongLast(PaidTo(markets, winner, payout), order);
    }
  }

  lemma {:induction false} ResolutionBooks(l: A.Ledger, pid: string, markets: map<string, Leg>, winner: string,
                                           payout: real, order: seq<string>, q: string)
    requires forall mid :: mid in order ==> mid in markets
    requires q != pid
    ensures var r := BookResolution(l, pid, markets, winner, payout, order);
      && A.BookedCapital(r.entries, q) == A.BookedCapital(l.entries, q)
      && A.BookedFees(r.entries, q) == A.BookedFees(l.entries, q)
  {
    if order != [] {
      var n := |order| - 1;
      var mid := order[n];
      ResolutionBooks(l, pid, markets, winner, payout, order[..n], q);
      SellBooks(BookResolution(l, pid, markets, winner, payout, order[..n]), A.ResolveKey(pid, mid), pid,
                if mid == winner then payout else 0.0, markets[mid].bet, 0.0,
                Asset(mid, markets[mid]), markets[mid].shares, q);
    }
  }

  lemma {:induction false} ResolutionIsFaithful(l: A.Ledger, pid: string, markets: map<string, Leg>, winner: string,
                                                payout: real, order: seq<string>, opening: real)
    requires forall mid :: mid in order ==> mid in markets
    requires L.Agrees(l, opening)
    ensures L.Agrees(BookResolution(l, pid, markets, winner, payout, order), opening)
  {
    if order != [] {
      var n := |order| - 1;
      var mid := order[n];
      ResolutionIsFaithful(l, pid, markets, winner, payout, order[..n], opening);
      L.StepAgreesExactly(BookResolution(l, pid, markets, winner, payout, order[..n]),
        L.SellDedup(A.ResolveKey(pid, mid), pid, if mid == winner then payout else 0.0, markets[mid].bet, 0.0,
                    Asset(mid, markets[mid]), markets[mid].shares), opening);
    }
  }

  /** The winner's leg takes the payout, or there is none: the position is a buy, or all of it was sold. */
  predicate WinnerIsBookable(p: Position, winner: string) {
    || TakesPayout(p.markets, winner)
    || !ResolvesAsSell(p)
    || forall mid :: mid in p.markets ==> Skipped(p.markets[mid])
  }

  lemma OneLegPays(leg: Leg)
    requires LegBookable(leg)
    ensures NoLegPayout(leg) >= 0.0 && (NoLegPayout(leg) == 0.0 <==> Skipped(leg))
  {
    if leg.bet == 0.0 && 1.0 - leg.entryPrice != 0.0 {
      UniqueQuotient(0.0, 1.0 - leg.entryPrice, 0.0);
    }
  }

  lemma LegPayouts(markets: map<string, Leg>, winner: string)
    requires LegsBookable(markets)
    ensures forall mid :: mid in markets ==>
      LosingLegPayout(markets, winner)[mid] >= 0.0
      && (mid != winner ==> (LosingLegPayout(markets, winner)[mid] == 0.0 <==> Skipped(markets[mid])))
  {
    forall mid | mid in markets
      ensures LosingLegPayout(markets, winner)[mid] >= 0.0
      ensures mid != winner ==> (LosingLegPayout(markets, winner)[mid] == 0.0 <==> Skipped(markets[mid]))
    {
      OneLegPays(markets[mid]);
    }
  }

  lemma UnheldSellPays(p: Position, winner: string)
    requires LegsBookable(p.markets) && !TakesPayout(p.markets, winner) && ResolvesAsSell(p)
    ensures Payout(p, winner) == 0.0 <==> forall mid :: mid in p.markets ==> Skipped(p.markets[mid])
  {
    var m := LosingLegPayout(p.markets, winner);
    LegPayouts(p.markets, winner);
    if mid :| mid in p.markets && !Skipped(p.markets[mid]) {
      TotalAtLeast(m, mid);
    } else {
      TotalConstant(m, 0.0);
    }
  }

  lemma UnheldWinnerPays(p: Position, winner: string)
    requires LegsBookable(p.markets) && !TakesPayout(p.markets, winner)
    ensures Payout(p, winner) == 0.0 <==> WinnerIsBookable(p, winner)
  {
    if ResolvesAsSell(p) {
      UnheldSellPays(p, winner);
    }
  }

  lemma ResolutionTotals(l: A.Ledger, pid: string, markets: map<string, Leg>, winner: string, payout: real,
                         order: seq<string>)
    requires Enumerates(order, markets.Keys) && LegsBookable(markets)
    requires forall mid :: A.ResolveKey(pid, mid) !in l.recorded
    ensures var r := BookResolution(l, pid, markets, winner, payout, order);
      && r.deployed == l.deployed - Total(Bets(markets))
      && r.cash == l.cash + (if TakesPayout(markets, winner) then payout else 0.0)
  {
    ResolutionMoves(l, pid, markets, winner, payout, order);
    TotalAlong(Bets(markets), order);
    TotalAlong(PaidTo(markets, winner, payout), order);
    PaidToTotal(markets, winner, payout);
  }

  /** A resolution keeps the books in agreement exactly when the winner is bookable. */
  lemma ResolveAgreesExactly(s: State, pid: string, winner: string, order: seq<string>, refunded: real)
    requires Invariant(s, refunded) && pid in s.portfolio.open
    requires Enumerates(order, s.portfolio.open[pid].markets.Keys)
    ensures Agree(Resolve(s, pid, winner, order), refunded) <==> WinnerIsBookable(s.portfolio.open[pid], winner)
  {
    var p := s.portfolio.open[pid];
    assert BookedOnce(s.ledger, pid, p) && Bookable(p);
    ResolutionTotals(s.ledger, pid, p.markets, winner, Payout(p, winner), order);
    OpenRemove(s.portfolio.open, pid);
    if !TakesPayout(p.markets, winner) { UnheldWinnerPays(p, winner); }
  }

  lemma ResolutionLeavesOthersAlone(l: A.Ledger, pid: string, markets: map<string, Leg>, winner: string, payout: real,
                                    order: seq<string>, q: string)
    requires (forall mid :: mid in order ==> mid in markets) && q != pid
    ensures LeavesAlone(l, BookResolution(l, pid, markets, winner, payout, order), q)
  {
    ResolutionBooks(l, pid, markets, winner, payout, order, q);
    ResolutionRecords(l, pid, markets, winner, payout, order);
  }

  lemma ResolveKeepsInvariant(s: State, pid: string, winner: string, order: seq<string>, refunded: real)
    requires Invariant(s, refunded) && pid in s.portfolio.open
    requires Enumerates(order, s.portfolio.open[pid].markets.Keys)
    requires WinnerIsBookable(s.portfolio.open[pid], winner)
    ensures Invariant(Resolve(s, pid, winner, order), refunded)
  {
    var p := s.portfolio.open[pid];
    var r := Resolve(s, pid, winner, order);
    forall q | q in r.portfolio.open ensures BookedOnce(r.ledger, q, r.portfolio.open[q]) {
      ResolutionLeavesOthersAlone(s.ledger, pid, p.markets, winner, Payout(p, winner), order, q);
      StaysBooked(s.ledger, r.ledger, q, s.portfolio.open[q]);
    }
    ResolveKeepsFigures(s, pid, winner, order, refunded);
  }

  lemma ResolveKeepsFigures(s: State, pid: string, winner: string, order: seq<string>, refunded: real)
    requires Invariant(s, refunded) && pid in s.portfolio.open
    requires Enumerates(order, s.portfolio.open[pid].markets.Keys)
    requires WinnerIsBookable(s.portfolio.open[pid], winner)
    ensures var r := Resolve(s, pid, winner, order);
      Agree(r, refunded) && Total(FeesPaid(r.portfolio.open)) <= r.ledger.fees
  {
    var p := s.portfolio.open[pid];
    assert BookedOnce(s.ledger, pid, p) && Bookable(p);
    ResolveAgreesExactly(s, pid, winner, order, refunded);
    ResolutionMoves(s.ledger, pid, p.markets, winner, Payout(p, winner), order);
    OpenRemove(s.portfolio.open, pid);
  }

  // ---------- Liquidation ----------

  function LedgerSale(markets: map<string, Leg>, bids: map<string, real>): map<string, real> {
    map mid | mid in markets :: LegProceeds(mid, markets[mid], bids)
  }

  lemma {:induction false} SaleRecords(l: A.Ledger, pid: string, markets: map<string, Leg>, bids: map<string, real>,
                                       takerFee: real, order: seq<string>)
    requires forall mid :: mid in order ==> mid in markets
    ensures BookSale(l, pid, markets, bids, takerFee, order).recorded
         == l.recorded + set mid | mid in order :: A.LiquidateKey(pid, mid)
  {
    if order != [] {
      var n := |order| - 1;
      var mid := order[n];
      var proceeds := LegProceeds(mid, markets[mid], bids);
      SaleRecords(l, pid, markets, bids, takerFee, order[..n]);
      SellRecords(BookSale(l, pid, markets, bids, takerFee, order[..n]), A.LiquidateKey(pid, mid), pid, proceeds,
                  markets[mid].bet, Product(takerFee, proceeds), Asset(mid, markets[mid]), markets[mid].shares);
      assert order == order[..n] + [mid];
    }
  }

  lemma {:induction false} SaleMoves(l: A.Ledger, pid: string, markets: map<string, Leg>, bids: map<string, real>,
                                     takerFee: real, order: seq<string>)
    requires forall mid :: mid in order ==> mid in markets
    requires forall i, j :: 0 <= i < j < |order| ==> order[i] != order[j]
    requires forall mid :: A.LiquidateKey(pid, mid) !in l.recorded
    ensures var r := BookSale(l, pid, markets, bids, takerFee, order);
      var sale := Sum(Along(LedgerSale(markets, bids), order));
      var fees := Sum(Along(Scaled(LedgerSale(markets, bids), takerFee), order));
      && r.deployed == l.deployed - Sum(Along(Bets(markets), order))
      && r.cash == l.cash + (sale - fees)
      && r.fees == l.fees + fees
  {
    if order != [] {
      var n := |order| - 1;
      var sale := LedgerSale(markets, bids);
      SaleMoves(l, pid, markets, bids, takerFee, order[..n]);
      assert A.LiquidateKey(pid, order[n]) !in BookSale(l, pid, markets, bids, takerFee, order[..n]).recorded by {
        SaleRecords(l, pid, markets, bids, takerFee, order[..n]);
      }
      AlongLast(Bets(markets), order);
      AlongLast(sale, order);
      AlongLast(Scaled(sale, takerFee), order);
    }
  }

  lemma {:induction false} SaleBooks(l: A.Ledger, pid: string, markets: map<string, Leg>, bids: map<string, real>,
                                     takerFee: real, order: seq<string>, q: string)
    requires forall mid :: mid in order ==> mid in markets
    requires q != pid
    ensures var r := BookSale(l, pid, markets, bids, takerFee, order);
      && A.BookedCapital(r.entries, q) == A.BookedCapital(l.entries, q)
      && A.BookedFees(r.entries, q) == A.BookedFees(l.entries, q)
  {
    if order != [] {
      var n := |order| - 1;
      var mid := order[n];
      var proceeds := LegProceeds(mid, markets[mid], bids);
      SaleBooks(l, pid, markets, bids, takerFee, order[..n], q);
      SellBooks(BookSale(l, pid, markets, bids, takerFee, order[..n]), A.LiquidateKey(pid, mid), pid,
                proceeds, markets[mid].bet, Product(takerFee, proceeds),
                Asset(mid, markets[mid]), markets[mid].shares, q);
    }
  }

  lemma {:induction false} SaleIsFaithful(l: A.Ledger, pid: string, markets: map<string, Leg>, bids: map<string, real>,
                                          takerFee: real, order: seq<string>, opening: real)
    requires forall mid :: mid in order ==> mid in markets
    requires LegsBookable(markets) && takerFee >= 0.0 && forall mid :: mid in bids ==> bids[mid] >= 0.0
    requires L.Agrees(l, opening)
    ensures L.Agrees(BookSale(l, pid, markets, bids, takerFee, order), opening)
  {
    if order != [] {
      var n := |order| - 1;
      var mid := order[n];
      var proceeds := LegProceeds(mid, markets[mid], bids);
      SaleIsFaithful(l, pid, markets, bids, takerFee, order[..n], opening);
      ProductNonNegative(markets[mid].shares, GetOr(bids, mid, 0.0));
      ProductNonNegative(takerFee, proceeds);
      L.StepAgreesExactly(BookSale(l, pid, markets, bids, takerFee, order[..n]),
        L.SellDedup(A.LiquidateKey(pid, mid), pid, proceeds, markets[mid].bet, Product(takerFee, proceeds),
                    Asset(mid, markets[mid]), markets[mid].shares), opening);
    }
  }

  /** Liquidation values the legs at the shares they actually hold. */
  predicate LegsValued(p: Position) {
    forall mid :: mid in p.markets ==> ValuedShares(p, p.markets[mid]) == p.markets[mid].shares
  }

  lemma SaleTotals(l: A.Ledger, pid: string, markets: map<string, Leg>, bids: map<string, real>, takerFee: real,
                   order: seq<string>)
    requires Enumerates(order, markets.Keys) && forall mid :: A.LiquidateKey(pid, mid) !in l.recorded
    ensures var r := BookSale(l, pid, markets, bids, takerFee, order);
      var sale := Total(LedgerSale(markets, bids));
      && r.deployed == l.deployed - Total(Bets(markets))
      && r.cash == l.cash + (sale - Product(takerFee, sale))
      && r.fees == l.fees + Product(takerFee, sale)
  {
    var sale := LedgerSale(markets, bids);
    SaleMoves(l, pid, markets, bids, takerFee, order);
    TotalAlong(Bets(markets), order);
    TotalAlong(sale, order);
    TotalAlong(Scaled(sale, takerFee), order);
    TotalScale(sale, takerFee);
  }

  lemma LiquidateMoves(s: State, pid: string, bids: map<string, real>, order: seq<string>, refunded: real)
    requires Invariant(s, refunded) && pid in s.portfolio.open
    requires Enumerates(order, s.portfolio.open[pid].markets.Keys)
    ensures var r := Liquidate(s, pid, bids, order); var p := s.portfolio.open[pid];
      var sale := Total(LedgerSale(p.markets, bids));
      && r.ledger.deployed == Total(Capitals(r.portfolio.open))
      && r.ledger.cash == s.ledger.cash + (sale - Product(s.portfolio.takerFee, sale))
      && r.ledger.fees == s.ledger.fees + Product(s.portfolio.takerFee, sale)
      && r.ledger.recorded == s.ledger.recorded + set mid | mid in order :: A.LiquidateKey(pid, mid)
  {
    var p := s.portfolio.open[pid];
    assert BookedOnce(s.ledger, pid, p);
    SaleRecords(s.ledger, pid, p.markets, bids, s.portfolio.takerFee, order);
    SaleTotals(s.ledger, pid, p.markets, bids, s.portfolio.takerFee, order);
    OpenRemove(s.portfolio.open, pid);
  }

  /** A liquidation keeps the books in agreement exactly when both value the sale alike. */
  lemma LiquidateAgreesExactly(s: State, pid: string, bids: map<string, real>, order: seq<string>, refunded: real)
    requires Invariant(s, refunded) && pid in s.portfolio.open && s.portfolio.takerFee < 1.0
    requires Enumerates(order, s.portfolio.open[pid].markets.Keys)
    ensures var p := s.portfolio.open[pid];
      Agree(Liquidate(s, pid, bids, order), refunded) <==> Total(LedgerSale(p.markets, bids)) == SaleProceeds(p, bids)
  {
    var p := s.portfolio.open[pid];
    LiquidateMoves(s, pid, bids, order, refunded);
    NetDistinct(s.portfolio.takerFee, Total(LedgerSale(p.markets, bids)), SaleProceeds(p, bids));
  }

  lemma SalesEqual(p: Position, bids: map<string, real>)
    requires LegsValued(p)
    ensures LedgerSale(p.markets, bids) == LegSale(p, bids)
  {
  }

  lemma OneBid(m: map<string, real>, mid: string)
    requires mid in m && forall k :: k in m && k != mid ==> m[k] == 0.0
    ensures Total(m) == m[mid]
  {
    TotalRemove(m, mid);
    TotalConstant(m - {mid}, 0.0);
  }

  /** The guard on the position: whatever the bids, both books value the sale alike. */
  lemma ValuedAlikeExactly(p: Position)
    ensures (forall bids: map<string, real> :: Total(LedgerSale(p.markets, bids)) == SaleProceeds(p, bids))
       <==> LegsValued(p)
  {
    if LegsValued(p) {
      forall bids: map<string, real> ensures Total(LedgerSale(p.markets, bids)) == SaleProceeds(p, bids) {
        SalesEqual(p, bids);
      }
    } else {
      var mid :| mid in p.markets && ValuedShares(p, p.markets[mid]) != p.markets[mid].shares;
      var bids := map[mid := 1.0];
      OneBid(LedgerSale(p.markets, bids), mid);
      OneBid(LegSale(p, bids), mid);
      assert Total(LedgerSale(p.markets, bids)) != SaleProceeds(p, bids);
    }
  }

  lemma SaleLeavesOthersAlone(l: A.Ledger, pid: string, markets: map<string, Leg>, bids: map<string, real>,
                              takerFee: real, order: seq<string>, q: string)
    requires (forall mid :: mid in order ==> mid in markets) && q != pid
    ensures LeavesAlone(l, BookSale(l, pid, markets, bids, takerFee, order), q)
  {
    SaleBooks(l, pid, markets, bids, takerFee, order, q);
    SaleRecords(l, pid, markets, bids, takerFee, order);
  }

  lemma LiquidateKeepsInvariant(s: State, pid: string, bids: map<string, real>, order: seq<string>, refunded: real)
    requires Invariant(s, refunded) && pid in s.portfolio.open
    requires Enumerates(order, s.portfolio.open[pid].markets.Keys)
    requires LegsValued(s.portfolio.open[pid]) && forall mid :: mid in bids ==> bids[mid] >= 0.0
    ensures Invariant(Liquidate(s, pid, bids, order), refunded)
  {
    var p := s.portfolio.open[pid];
    var r := Liquidate(s, pid, bids, order);
    forall q | q in r.portfolio.open ensures BookedOnce(r.ledger, q, r.portfolio.open[q]) {
      SaleLeavesOthersAlone(s.ledger, pid, p.markets, bids, s.portfolio.takerFee, order, q);
      StaysBooked(s.ledger, r.ledger, q, s.portfolio.open[q]);
    }
    LiquidateKeepsFigures(s, pid, bids, order, refunded);
  }

  lemma LiquidateKeepsFigures(s: State, pid: string, bids: map<string, real>, order: seq<string>, refunded: real)
    requires Invariant(s, refunded) && pid in s.portfolio.open
    requires Enumerates(order, s.portfolio.open[pid].markets.Keys)
    requires LegsValued(s.portfolio.open[pid]) && forall mid :: mid in bids ==> bids[mid] >= 0.0
    ensures var r := Liquidate(s, pid, bids, order);
      Agree(r, refunded) && Total(FeesPaid(r.portfolio.open)) <= r.ledger.fees
  {
    var p := s.portfolio.open[pid];
    var sale := LedgerSale(p.markets, bids);
    assert BookedOnce(s.ledger, pid, p) && Bookable(p);
    LiquidateMoves(s, pid, bids, order, refunded);
    SalesEqual(p, bids);
    OpenRemove(s.portfolio.open, pid);
    forall mid | mid in sale ensures sale[mid] >= 0.0 {
      assert LegBookable(p.markets[mid]);
      ProductNonNegative(p.markets[mid].shares, GetOr(bids, mid, 0.0));
    }
    TotalNonNegative(sale);
    ProductNonNegative(s.portfolio.takerFee, Total(sale));
  }

  /** When entry shares are what liquidation assumes: always for buys, at NO = 1 - YES for sells. */
  lemma EnteredLegsValuedExactly(s: Portfolio, e: Entry)
    requires CleanEntry(e) && (ContainsSell(e.methodName) <==> e.isSell)
    ensures LegsValued(s.NewPosition(e)) <==>
            (e.isSell ==> forall mid :: mid in e.marketIds ==> NoPrice(e, mid) == 1.0 - GetOr(e.prices, mid, 0.0))
  {
    var p := s.NewPosition(e);
    forall mid | mid in e.marketIds
      ensures ValuedShares(p, p.markets[mid]) == p.markets[mid].shares <==>
              (e.isSell ==> NoPrice(e, mid) == 1.0 - GetOr(e.prices, mid, 0.0))
    {
      assert p.markets[mid] == EntryLeg(e, mid);
      if e.isSell {
        Positive(e.bets[mid], NoPrice(e, mid));
        QuotientsEqualExactly(e.bets[mid], NoPrice(e, mid), 1.0 - GetOr(e.prices, mid, 0.0));
      }
    }
  }

  lemma QuotientsEqualExactly(a: real, b: real, c: real)
    requires a > 0.0 && b > 0.0
    ensures c > 0.0 ==> (a / b == a / c <==> b == c)
  {
  }

  // ---------- Rollback ----------

  lemma ReversalBooks(es: seq<A.JournalEntry>, pid: string, q: string)
    ensures A.BookedCapital(es + A.ReversalEntries(es, pid), q) == A.BookedCapital(es, q)
    ensures A.BookedFees(es + A.ReversalEntries(es, pid), q) == A.BookedFees(es, q)
  {
    var total := A.BookedCapital(es, pid) + A.BookedFees(es, pid);
    var p := A.Mirrors(A.Position(pid), A.CapitalDebits(es, pid), pid);
    var f := A.Mirrors(A.Fees, A.FeeDebits(es, pid), pid);
    var c := if total > 0.0 then [A.JournalEntry(A.Cash, total, 0.0, Some(pid))] else [];
    A.NothingBookedElsewhere(c, q);
    A.MirrorsAreNoDebits(A.Position(pid), A.CapitalDebits(es, pid), pid, q);
    A.MirrorsAreNoDebits(A.Fees, A.FeeDebits(es, pid), pid, q);
    A.BookedAppend(p, f, q);
    A.BookedAppend(p + f, c, q);
    A.BookedAppend(es, p + f + c, q);
  }

  /** The ledger still has the whole capital of the position on its books, as it does until a leg is exited. */
  ghost predicate BookedInFull(s: State, pid: string)
    requires pid in s.portfolio.open
  {
    A.BookedCapital(s.ledger.entries, pid) == s.portfolio.open[pid].totalCapital
  }

  lemma OpenAmountsNonNegative(s: State, refunded: real)
    requires Invariant(s, refunded)
    ensures forall q :: q in s.portfolio.open ==>
              s.portfolio.open[q].totalCapital >= 0.0 && s.portfolio.open[q].feesPaid >= 0.0
  {
    forall q | q in s.portfolio.open
      ensures s.portfolio.open[q].totalCapital >= 0.0 && s.portfolio.open[q].feesPaid >= 0.0 {
      assert Bookable(s.portfolio.open[q]);
      TotalNonNegative(Bets(s.portfolio.open[q].markets));
    }
  }

  lemma RollBackMoves(s: State, pid: string, refunded: real)
    requires Invariant(s, refunded) && pid in s.portfolio.open
    ensures var p, booked := s.portfolio.open[pid], A.BookedCapital(s.ledger.entries, pid);
      var r := RollBack(s, pid);
      && r.ledger.cash == s.ledger.cash + (booked + p.feesPaid)
      && r.ledger.deployed == Max(s.ledger.deployed - booked, 0.0)
      && r.portfolio.capital == s.portfolio.capital + p.totalCapital
      && 0.0 <= Total(Capitals(r.portfolio.open)) == Total(Capitals(s.portfolio.open)) - p.totalCapital
  {
    var open := s.portfolio.open;
    assert BookedOnce(s.ledger, pid, open[pid]);
    OpenAmountsNonNegative(s, refunded);
    OpenRemove(open, pid);
    TotalNonNegative(Capitals(open - {pid}));
  }

  /** A rollback widens the cash gap by exactly the fees paid if and only if the capital is still booked in full. */
  lemma RollBackAgreesExactly(s: State, pid: string, refunded: real)
    requires Invariant(s, refunded) && pid in s.portfolio.open
    ensures Agree(RollBack(s, pid), refunded + s.portfolio.open[pid].feesPaid) <==> BookedInFull(s, pid)
  {
    RollBackMoves(s, pid, refunded);
  }

  lemma RollBackIsFaithful(s: State, pid: string, refunded: real)
    requires Invariant(s, refunded) && pid in s.portfolio.open && BookedInFull(s, pid)
    ensures L.Faithful(s.ledger, L.Reversal(pid))
  {
    var open := s.portfolio.open;
    assert BookedOnce(s.ledger, pid, open[pid]);
    OpenAmountsNonNegative(s, refunded);
    OpenRemove(open, pid);
    TotalNonNegative(Capitals(open - {pid}));
    TotalNonNegative(FeesPaid(open - {pid}));
  }

  /** A position none of whose legs was exited can always be rolled back. */
  lemma UnexitedIsBookedInFull(s: State, pid: string, refunded: real)
    requires Invariant(s, refunded) && pid in s.portfolio.open && Unexited(s.ledger, pid)
    ensures BookedInFull(s, pid)
  {
    assert BookedOnce(s.ledger, pid, s.portfolio.open[pid]);
  }

  lemma RollBackKeepsInvariant(s: State, pid: string, refunded: real)
    requires Invariant(s, refunded) && pid in s.portfolio.open && BookedInFull(s, pid)
    ensures Invariant(RollBack(s, pid), refunded + s.portfolio.open[pid].feesPaid)
  {
    var r := RollBack(s, pid);
    RollBackAgreesExactly(s, pid, refunded);
    RollBackIsFaithful(s, pid, refunded);
    OpenRemove(s.portfolio.open, pid);
    assert BookedOnce(s.ledger, pid, s.portfolio.open[pid]);
    forall q | q in r.portfolio.open
      ensures BookedOnce(r.ledger, q, r.portfolio.open[q]) && Bookable(r.portfolio.open[q]) {
      assert BookedOnce(s.ledger, q, s.portfolio.open[q]);
      ReversalBooks(s.ledger.entries, pid, q);
    }
  }
}
