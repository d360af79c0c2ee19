/**
 Exits and the agreement of the two books: the exact gap any batch leaves in cash and in deployed
 capital, the guard under which there is none, and what the guard keeps for the steps after it.
 */
module ExitsAgree {
  import opened Totals
  import opened Arithmetic
  import opened Positions
  import opened Entries
  import opened Engine
  import opened Exits
  import opened BooksAgree
  import A = Accounting
  import L = LedgerAgreement
  import X = PartialExits

  lemma OpenReplace(open: map<string, Position>, pid: string, p: Position)
    requires pid in open
    ensures Total(Capitals(open[pid := p])) == Total(Capitals(open)) + p.totalCapital - open[pid].totalCapital
    ensures Total(FeesPaid(open[pid := p])) == Total(FeesPaid(open)) + p.feesPaid - open[pid].feesPaid
  {
    assert Capitals(open[pid := p]) == Capitals(open)[pid := p.totalCapital];
    assert FeesPaid(open[pid := p]) == FeesPaid(open)[pid := p.feesPaid];
    TotalUpdate(Capitals(open), pid, p.totalCapital);
    TotalUpdate(FeesPaid(open), pid, p.feesPaid);
  }

  function CashGap(s: State): real { s.ledger.cash - s.portfolio.capital }

  ghost function DeployedGap(s: State): real { s.ledger.deployed - Total(Capitals(s.portfolio.open)) }

  function ExitExcess(s: State, pid: string, fills: seq<ExitFill>): Excess
    requires pid in s.portfolio.open
  {
    ExcessOf(s.ledger.recorded, pid, s.portfolio.open[pid].markets, fills, s.portfolio.takerFee)
  }

  /** The batch sells the position out, up to dust. */
  ghost predicate Closes(s: State, pid: string, fills: seq<ExitFill>)
    requires pid in s.portfolio.open
  {
    AllExhausted(TallyFills(s.portfolio.open[pid].markets, fills, s.portfolio.takerFee).markets)
  }

  /** The book cost of what the batch leaves unsold. */
  function Dust(s: State, pid: string, fills: seq<ExitFill>): real
    requires pid in s.portfolio.open
  {
    X.Unsold(s.portfolio.open[pid], fills, s.portfolio.takerFee)
  }

  lemma OpenExitMoves(s: State, pid: string, fills: seq<ExitFill>)
    requires pid in s.portfolio.open && SoundPosition(s.portfolio.open[pid]) && !Closes(s, pid, fills)
    ensures CashGap(Exit(s, pid, fills)) == CashGap(s) + ExitExcess(s, pid, fills).cash
    ensures DeployedGap(Exit(s, pid, fills)) == DeployedGap(s) - ExitExcess(s, pid, fills).cost
  {
    var p := s.portfolio.open[pid];
    BatchGap(s.ledger, pid, p.markets, fills, s.portfolio.takerFee);
    X.ExitKeepsPositionSound(p, fills, s.portfolio.takerFee);
    OpenReplace(s.portfolio.open, pid, AfterExit(p, fills, s.portfolio.takerFee));
  }

  lemma ClosingExitMoves(s: State, pid: string, fills: seq<ExitFill>)
    requires pid in s.portfolio.open && SoundPosition(s.portfolio.open[pid]) && Closes(s, pid, fills)
    ensures CashGap(Exit(s, pid, fills))
            == CashGap(s) + ExitExcess(s, pid, fills).cash - s.portfolio.open[pid].actualPayout
    ensures DeployedGap(Exit(s, pid, fills)) == DeployedGap(s) + Dust(s, pid, fills) - ExitExcess(s, pid, fills).cost
  {
    BatchGap(s.ledger, pid, s.portfolio.open[pid].markets, fills, s.portfolio.takerFee);
    OpenRemove(s.portfolio.open, pid);
  }

  /**
   Whatever the batch is: cash parts by the excess the ledger books, less what a closing batch
   credits again; deployed capital parts by the book cost of the dust, less the cost of the excess.
   */
  lemma ExitMovesGaps(s: State, pid: string, fills: seq<ExitFill>)
    requires pid in s.portfolio.open && SoundPosition(s.portfolio.open[pid])
    ensures var after, x := Exit(s, pid, fills), ExitExcess(s, pid, fills);
      var closes := Closes(s, pid, fills);
      && (closes <==> pid !in after.portfolio.open)
      && CashGap(after) == CashGap(s) + x.cash - (if closes then s.portfolio.open[pid].actualPayout else 0.0)
      && DeployedGap(after) == DeployedGap(s) - x.cost + (if closes then Dust(s, pid, fills) else 0.0)
  {
    if Closes(s, pid, fills) {
      ClosingExitMoves(s, pid, fills);
    } else {
      OpenExitMoves(s, pid, fills);
    }
  }

  /** Nothing is sold beyond what is held; a closing batch is the position's only exit and leaves no dust. */
  ghost predicate CleanExit(s: State, pid: string, fills: seq<ExitFill>)
    requires pid in s.portfolio.open
  {
    && NoOversell(s.portfolio.open[pid].markets, fills)
    && (Closes(s, pid, fills) ==> s.portfolio.open[pid].actualPayout == 0.0 && Dust(s, pid, fills) == 0.0)
  }

  /**
   A batch of first exits of different legs keeps the books in agreement exactly when it is clean.
   (A closing batch that both follows a partial exit and oversells is left to the exact gaps.)
   */
  lemma ExitAgreesExactly(s: State, pid: string, fills: seq<ExitFill>, refunded: real)
    requires pid in s.portfolio.open && SoundPosition(s.portfolio.open[pid]) && Agree(s, refunded)
    requires Fresh(s.ledger.recorded, pid, s.portfolio.open[pid].markets, fills) && s.portfolio.takerFee < 1.0
    requires Closes(s, pid, fills) ==>
      s.portfolio.open[pid].actualPayout == 0.0 || NoOversell(s.portfolio.open[pid].markets, fills)
    ensures Agree(Exit(s, pid, fills), refunded) <==> CleanExit(s, pid, fills)
  {
    var p := s.portfolio.open[pid];
    ExitMovesGaps(s, pid, fills);
    FreshExcess(s.ledger.recorded, pid, p.markets, fills, s.portfolio.takerFee);
    if NoOversell(p.markets, fills) {
      NoOversellNoExcess(s.ledger.recorded, pid, p.markets, fills, s.portfolio.takerFee);
    }
  }

  /** With fills cleared in full and the position left open, the books agree exactly when no leg is exited twice. */
  lemma RepeatedExitsAgreeExactly(s: State, pid: string, fills: seq<ExitFill>, refunded: real)
    requires pid in s.portfolio.open && SoundPosition(s.portfolio.open[pid]) && Agree(s, refunded)
             && !Closes(s, pid, fills)
    requires PositivePrices(fills) && s.portfolio.takerFee < 1.0
    requires WhollyCleared(s.portfolio.open[pid].markets, fills, s.portfolio.takerFee)
    ensures Agree(Exit(s, pid, fills), refunded)
       <==> AllFirst(s.ledger.recorded, pid, s.portfolio.open[pid].markets, fills)
  {
    ExitMovesGaps(s, pid, fills);
    RepeatedExcess(s.ledger.recorded, pid, s.portfolio.open[pid].markets, fills, s.portfolio.takerFee);
  }

  lemma OneFillExcess(recorded: set<A.TradeKey>, pid: string, markets: map<string, Leg>, f: ExitFill, takerFee: real)
    requires f.market in markets && f.shares > 0.0 && SoundLegs(markets)
    ensures var x := ExcessOf(recorded, pid, markets, [f], takerFee);
      var booked := if A.ExitKey(pid, f.market) in recorded then 0.0 else f.shares;
      var cleared := Min(f.shares, markets[f.market].shares);
      && x.cash == Net(booked, f.price, takerFee) - Net(cleared, f.price, takerFee)
      && (booked == cleared ==> x.cost == 0.0)
  {
    assert [f][..0] == [];
    assert BooksLast(recorded, pid, markets, [f]) <==> A.ExitKey(pid, f.market) !in recorded;
    assert ClearedLast(markets, [f], takerFee) == Min(f.shares, markets[f.market].shares);
  }

  /** A fill keeps the books in agreement exactly when it is a first exit within what is held, or nothing is held. */
  lemma OneExitAgreesExactly(s: State, pid: string, f: ExitFill, refunded: real)
    requires pid in s.portfolio.open && SoundPosition(s.portfolio.open[pid]) && Agree(s, refunded)
             && !Closes(s, pid, [f])
    requires f.market in s.portfolio.open[pid].markets && f.shares > 0.0 && f.price > 0.0 && s.portfolio.takerFee < 1.0
    ensures var leg := s.portfolio.open[pid].markets[f.market];
      Agree(Exit(s, pid, [f]), refunded)
      <==> if A.ExitKey(pid, f.market) in s.ledger.recorded then leg.shares == 0.0 else f.shares <= leg.shares
  {
    var leg := s.portfolio.open[pid].markets[f.market];
    var cleared := Min(f.shares, leg.shares);
    ExitMovesGaps(s, pid, [f]);
    OneFillExcess(s.ledger.recorded, pid, s.portfolio.open[pid].markets, f, s.portfolio.takerFee);
    NetGrows(s.portfolio.takerFee, f.price, 0.0, cleared);
    NetGrows(s.portfolio.takerFee, f.price, cleared, f.shares);
  }

  /** Later batches on legs exited before are paid to the manager and never reach the ledger. */
  lemma SecondExitIsUnbooked(s: State, pid: string, fs: seq<ExitFill>, gs: seq<ExitFill>)
    requires pid in s.portfolio.open && !Closes(s, pid, fs)
    requires forall i :: 0 <= i < |gs| && Effective(s.portfolio.open[pid].markets, gs[i]) ==>
      SomeExit(s.portfolio.open[pid].markets, fs, gs[i].market)
    ensures var once := Exit(s, pid, fs);
      var twice := Exit(once, pid, gs);
      && pid in once.portfolio.open
      && twice.ledger == once.ledger
      && twice.portfolio.capital - once.portfolio.capital
         == TallyFills(once.portfolio.open[pid].markets, gs, s.portfolio.takerFee).proceeds
            + (if Closes(once, pid, gs) then once.portfolio.open[pid].actualPayout else 0.0)
  {
    var p, fee := s.portfolio.open[pid], s.portfolio.takerFee;
    var once := Exit(s, pid, fs);
    var legs := once.portfolio.open[pid].markets;
    TallyKeepsLegs(p.markets, fs, fee);
    forall i | 0 <= i < |gs| && Effective(legs, gs[i]) ensures A.ExitKey(pid, gs[i].market) in once.ledger.recorded {
      assert Effective(p.markets, gs[i]);
      ExitRecords(s.ledger, pid, p.markets, fs, fee, gs[i].market);
    }
    ExitedLegsAreUnbooked(once.ledger, pid, legs, gs, fee);
  }

  /** Selling the rest of legs exited before: the books part by the capital still at work and by all that was paid. */
  lemma SellingTheRestParts(s: State, pid: string, fills: seq<ExitFill>)
    requires pid in s.portfolio.open && SoundPosition(s.portfolio.open[pid]) && Closes(s, pid, fills)
    requires forall i :: 0 <= i < |fills| && Effective(s.portfolio.open[pid].markets, fills[i]) ==>
      A.ExitKey(pid, fills[i].market) in s.ledger.recorded
    ensures var p := s.portfolio.open[pid];
      var after := Exit(s, pid, fills);
      && CashGap(after) == CashGap(s) - TallyFills(p.markets, fills, s.portfolio.takerFee).proceeds - p.actualPayout
      && DeployedGap(after) == DeployedGap(s) + p.totalCapital
  {
    var p := s.portfolio.open[pid];
    ExitMovesGaps(s, pid, fills);
    BatchGap(s.ledger, pid, p.markets, fills, s.portfolio.takerFee);
    ExitedLegsAreUnbooked(s.ledger, pid, p.markets, fills, s.portfolio.takerFee);
  }

  // ---------- Dust ----------

  /** The dust is the bets left in the legs, each at most the book cost of the exhaustion threshold. */
  lemma DustIsSmall(s: State, pid: string, fills: seq<ExitFill>)
    requires pid in s.portfolio.open && SoundPosition(s.portfolio.open[pid]) && Closes(s, pid, fills)
    ensures var p := s.portfolio.open[pid];
      var left := TallyFills(p.markets, fills, s.portfolio.takerFee).markets;
      && left.Keys == p.markets.Keys
      && Dust(s, pid, fills) == Total(Bets(left)) >= 0.0
      && (Dust(s, pid, fills) == 0.0 <==> forall mid :: mid in left ==> left[mid].bet == 0.0)
      && (forall mid :: mid in left && p.markets[mid].shares > 0.0 ==>
            0.0 <= left[mid].bet <= Product(CostPerShare(p.markets[mid]), EXHAUSTED))
  {
    var p := s.portfolio.open[pid];
    var left := TallyFills(p.markets, fills, s.portfolio.takerFee).markets;
    X.FillsKeepCostPerShare(p.markets, fills, s.portfolio.takerFee);
    forall mid | mid in left && p.markets[mid].shares > 0.0
      ensures 0.0 <= left[mid].bet <= Product(CostPerShare(p.markets[mid]), EXHAUSTED)
    {
      LegDust(p.markets[mid], left[mid]);
    }
    TotalNonNegative(Bets(left));
    NothingLeftExactly(left);
  }

  lemma NothingLeftExactly(left: map<string, Leg>)
    requires SoundLegs(left)
    ensures Total(Bets(left)) == 0.0 <==> forall mid :: mid in left ==> left[mid].bet == 0.0
  {
    if mid :| mid in left && left[mid].bet != 0.0 {
      TotalAtLeast(Bets(left), mid);
    } else {
      TotalConstant(Bets(left), 0.0);
    }
  }

  lemma LegDust(before: Leg, after: Leg)
    requires SoundLeg(before) && X.Shrunk(before, after) && before.shares > 0.0 && after.shares <= EXHAUSTED
    ensures 0.0 <= after.bet <= Product(CostPerShare(before), EXHAUSTED)
  {
    QuotientNonNegative(before.bet, before.shares);
    if after.shares > 0.0 {
      DivisionBack(after.bet, after.shares);
      ProductGrows(after.shares, EXHAUSTED, CostPerShare(before));
    } else {
      ProductNonNegative(CostPerShare(before), EXHAUSTED);
    }
  }

  // ---------- What a clean exit keeps ----------

  lemma FeeEntriesLast(pid: string, proceeds: real, cost: real, paid: real)
    requires paid > 0.0
    ensures A.SellEntries(pid, proceeds, cost, paid)
         == A.SellEntries(pid, proceeds, cost, 0.0)
            + [A.JournalEntry(A.Fees, paid, 0.0, Some(pid)), A.JournalEntry(A.Cash, 0.0, paid, Some(pid))]
  {
  }

  lemma FeeEntriesBook(pid: string, paid: real)
    requires paid > 0.0
    ensures var es := [A.JournalEntry(A.Fees, paid, 0.0, Some(pid)), A.JournalEntry(A.Cash, 0.0, paid, Some(pid))];
      A.BookedCapital(es, pid) == 0.0 && A.BookedFees(es, pid) == paid
  {
    var f, c := A.JournalEntry(A.Fees, paid, 0.0, Some(pid)), A.JournalEntry(A.Cash, 0.0, paid, Some(pid));
    A.BookedOne(f, pid);
    A.BookedOne(c, pid);
    A.BookedAppend([f], [c], pid);
    assert [f] + [c] == [f, c];
  }

  lemma SellBooksItsFee(pid: string, proceeds: real, cost: real, paid: real)
    requires paid >= 0.0
    ensures var es := A.SellEntries(pid, proceeds, cost, paid);
            A.BookedCapital(es, pid) == 0.0 && A.BookedFees(es, pid) == paid
  {
    var bare := A.SellEntries(pid, proceeds, cost, 0.0);
    A.NothingBookedElsewhere(bare, pid);
    if paid > 0.0 {
      var es := [A.JournalEntry(A.Fees, paid, 0.0, Some(pid)), A.JournalEntry(A.Cash, 0.0, paid, Some(pid))];
      FeeEntriesLast(pid, proceeds, cost, paid);
      FeeEntriesBook(pid, paid);
      A.BookedAppend(bare, es, pid);
    }
  }

  lemma OneExitBooks(l: A.Ledger, pid: string, markets: map<string, Leg>, f: ExitFill, takerFee: real)
    requires takerFee >= 0.0 && (Effective(markets, f) ==> f.price > 0.0)
    ensures var r := BookExit(l, pid, markets, f, takerFee);
      && A.BookedCapital(r.entries, pid) == A.BookedCapital(l.entries, pid)
      && A.BookedFees(r.entries, pid) == A.BookedFees(l.entries, pid) + (r.fees - l.fees)
      && r.fees >= l.fees
  {
    if Effective(markets, f) && A.ExitKey(pid, f.market) !in l.recorded {
      var proceeds := Product(f.shares, f.price);
      ProductNonNegative(f.shares, f.price);
      ProductNonNegative(takerFee, proceeds);
      var cost, paid := Product(CostPerShare(markets[f.market]), f.shares), Product(takerFee, proceeds);
      SellBooksItsFee(pid, proceeds, cost, paid);
      A.BookedAppend(l.entries, A.SellEntries(pid, proceeds, cost, paid), pid);
    }
  }

  /** An exit books its fees under the position and leaves the booked capital alone. */
  lemma {:induction false} ExitBooks(l: A.Ledger, pid: string, markets: map<string, Leg>, fills: seq<ExitFill>,
                                     takerFee: real)
    requires takerFee >= 0.0 && forall i :: 0 <= i < |fills| && Effective(markets, fills[i]) ==> fills[i].price > 0.0
    ensures var r := BookExits(l, pid, markets, fills, takerFee);
      && A.BookedCapital(r.entries, pid) == A.BookedCapital(l.entries, pid)
      && A.BookedFees(r.entries, pid) == A.BookedFees(l.entries, pid) + (r.fees - l.fees)
      && r.fees >= l.fees
  {
    if fills != [] {
      var n := |fills| - 1;
      ExitBooks(l, pid, markets, fills[..n], takerFee);
      OneExitBooks(BookExits(l, pid, markets, fills[..n], takerFee), pid, markets, fills[n], takerFee);
    }
  }

  lemma {:induction false} ExitLeavesOthersAlone(l: A.Ledger, pid: string, markets: map<string, Leg>,
                                                 fills: seq<ExitFill>, takerFee: real, q: string)
    requires q != pid
    ensures LeavesAlone(l, BookExits(l, pid, markets, fills, takerFee), q)
  {
    if fills != [] {
      var n := |fills| - 1;
      var f := fills[n];
      ExitLeavesOthersAlone(l, pid, markets, fills[..n], takerFee, q);
      if Effective(markets, f) {
        var proceeds := Product(f.shares, f.price);
        SellBooks(BookExits(l, pid, markets, fills[..n], takerFee), A.ExitKey(pid, f.market), pid, proceeds,
                  Product(CostPerShare(markets[f.market]), f.shares), Product(takerFee, proceeds),
                  Asset(f.market, markets[f.market]), f.shares, q);
      }
    }
  }

  /** Only exit keys of the position itself are added. */
  lemma {:induction false} ExitKeepsOtherKeys(l: A.Ledger, pid: string, markets: map<string, Leg>, fills: seq<ExitFill>,
                                              takerFee: real, key: A.TradeKey)
    requires !key.ExitKey?
    ensures key in BookExits(l, pid, markets, fills, takerFee).recorded <==> key in l.recorded
  {
    if fills != [] {
      ExitKeepsOtherKeys(l, pid, markets, fills[..|fills| - 1], takerFee, key);
    }
  }

  lemma {:induction false} ExitIsFaithful(l: A.Ledger, pid: string, markets: map<string, Leg>, fills: seq<ExitFill>,
                                          takerFee: real, opening: real)
    requires takerFee >= 0.0 && forall i :: 0 <= i < |fills| && Effective(markets, fills[i]) ==> fills[i].price > 0.0
    requires L.Agrees(l, opening)
    ensures L.Agrees(BookExits(l, pid, markets, fills, takerFee), opening)
  {
    if fills != [] {
      var n := |fills| - 1;
      var f := fills[n];
      ExitIsFaithful(l, pid, markets, fills[..n], takerFee, opening);
      if Effective(markets, f) {
        var proceeds := Product(f.shares, f.price);
        ProductNonNegative(f.shares, f.price);
        ProductNonNegative(takerFee, proceeds);
        L.StepAgreesExactly(BookExits(l, pid, markets, fills[..n], takerFee),
          L.SellDedup(A.ExitKey(pid, f.market), pid, proceeds, Product(CostPerShare(markets[f.market]), f.shares),
                      Product(takerFee, proceeds), Asset(f.market, markets[f.market]), f.shares), opening);
      }
    }
  }

  lemma ShrunkStaysBookable(before: Leg, after: Leg)
    requires LegBookable(before) && X.Shrunk(before, after)
    ensures LegBookable(after)
  {
    if before.shares > 0.0 && after.shares > 0.0 {
      Positive(before.bet, before.shares);
      DivisionBack(after.bet, after.shares);
    }
  }

  lemma ExitedStaysBookable(p: Position, fills: seq<ExitFill>, takerFee: real)
    requires Bookable(p)
    ensures var after := AfterExit(p, fills, takerFee); SoundPosition(after) && LegsBookable(after.markets)
  {
    X.FillsKeepCostPerShare(p.markets, fills, takerFee);
    X.ExitKeepsPositionSound(p, fills, takerFee);
    var left := TallyFills(p.markets, fills, takerFee).markets;
    forall mid | mid in left ensures LegBookable(left[mid]) {
      ShrunkStaysBookable(p.markets[mid], left[mid]);
    }
  }

  /** A batch without an effective fill changes nothing. */
  lemma {:induction false} NothingSold(markets: map<string, Leg>, fills: seq<ExitFill>, takerFee: real)
    requires forall mid :: !SomeExit(markets, fills, mid)
    ensures TallyFills(markets, fills, takerFee) == ExitTally(markets, 0.0, 0.0, 0.0)
  {
    if fills != [] {
      var n := |fills| - 1;
      forall mid ensures !SomeExit(markets, fills[..n], mid) {
        SomeExitStep(markets, fills, mid);
      }
      NothingSold(markets, fills[..n], takerFee);
      SomeExitStep(markets, fills, fills[n].market);
    }
  }

  lemma ExitedStaysBooked(s: State, pid: string, fills: seq<ExitFill>)
    requires pid in s.portfolio.open && !Closes(s, pid, fills) && s.portfolio.takerFee >= 0.0
    requires BookedOnce(s.ledger, pid, s.portfolio.open[pid]) && Bookable(s.portfolio.open[pid])
    requires Fresh(s.ledger.recorded, pid, s.portfolio.open[pid].markets, fills)
    requires NoOversell(s.portfolio.open[pid].markets, fills)
    ensures BookedOnce(Exit(s, pid, fills).ledger, pid, AfterExit(s.portfolio.open[pid], fills, s.portfolio.takerFee))
  {
    var p, fee := s.portfolio.open[pid], s.portfolio.takerFee;
    var r := BookExits(s.ledger, pid, p.markets, fills, fee);
    assert A.BookedFees(r.entries, pid) == AfterExit(p, fills, fee).feesPaid by {
      ExitBooks(s.ledger, pid, p.markets, fills, fee);
      BatchGap(s.ledger, pid, p.markets, fills, fee);
      NoOversellNoExcess(s.ledger.recorded, pid, p.markets, fills, fee);
    }
    forall mid ensures A.ResolveKey(pid, mid) !in r.recorded && A.LiquidateKey(pid, mid) !in r.recorded {
      ExitKeepsOtherKeys(s.ledger, pid, p.markets, fills, fee, A.ResolveKey(pid, mid));
      ExitKeepsOtherKeys(s.ledger, pid, p.markets, fills, fee, A.LiquidateKey(pid, mid));
    }
    if Unexited(r, pid) {
      UnexitedKeepsCapital(s.ledger, pid, p, fills, fee);
    }
  }

  lemma UnexitedKeepsCapital(l: A.Ledger, pid: string, p: Position, fills: seq<ExitFill>, fee: real)
    requires Unexited(BookExits(l, pid, p.markets, fills, fee), pid) && BookedOnce(l, pid, p) && Bookable(p)
    requires Fresh(l.recorded, pid, p.markets, fills) && fee >= 0.0
    ensures A.BookedCapital(BookExits(l, pid, p.markets, fills, fee).entries, pid)
            == AfterExit(p, fills, fee).totalCapital
  {
    forall mid ensures A.ExitKey(pid, mid) !in l.recorded && !SomeExit(p.markets, fills, mid) {
      ExitRecords(l, pid, p.markets, fills, fee, mid);
    }
    NothingSold(p.markets, fills, fee);
    ExitBooks(l, pid, p.markets, fills, fee);
    TotalNonNegative(Bets(p.markets));
  }

  lemma ExitKeepsFigures(s: State, pid: string, fills: seq<ExitFill>, refunded: real)
    requires Invariant(s, refunded) && pid in s.portfolio.open
    requires Fresh(s.ledger.recorded, pid, s.portfolio.open[pid].markets, fills) && CleanExit(s, pid, fills)
    ensures var r := Exit(s, pid, fills); Agree(r, refunded) && Total(FeesPaid(r.portfolio.open)) <= r.ledger.fees
  {
    var p, fee := s.portfolio.open[pid], s.portfolio.takerFee;
    assert Bookable(p);
    ExitMovesGaps(s, pid, fills);
    NoOversellNoExcess(s.ledger.recorded, pid, p.markets, fills, fee);
    BatchGap(s.ledger, pid, p.markets, fills, fee);
    ExitBooks(s.ledger, pid, p.markets, fills, fee);
    OpenReplace(s.portfolio.open, pid, AfterExit(p, fills, fee));
    OpenRemove(s.portfolio.open, pid);
  }

  lemma ExitKeepsInvariant(s: State, pid: string, fills: seq<ExitFill>, refunded: real)
    requires Invariant(s, refunded) && pid in s.portfolio.open
    requires Fresh(s.ledger.recorded, pid, s.portfolio.open[pid].markets, fills) && CleanExit(s, pid, fills)
    ensures Invariant(Exit(s, pid, fills), refunded)
  {
    var p, fee := s.portfolio.open[pid], s.portfolio.takerFee;
    var r := Exit(s, pid, fills);
    assert BookedOnce(s.ledger, pid, p) && Bookable(p);
    forall q | q in r.portfolio.open
      ensures BookedOnce(r.ledger, q, r.portfolio.open[q]) && Bookable(r.portfolio.open[q]) {
      if q == pid {
        ExitedStaysBooked(s, pid, fills);
        ExitedStaysBookable(p, fills, fee);
        ExitBooks(s.ledger, pid, p.markets, fills, fee);
      } else {
        ExitLeavesOthersAlone(s.ledger, pid, p.markets, fills, fee, q);
        StaysBooked(s.ledger, r.ledger, q, s.portfolio.open[q]);
      }
    }
    ExitKeepsFigures(s, pid, fills, refunded);
  }
}
