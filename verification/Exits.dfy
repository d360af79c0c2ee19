/**
 Exits in both books. The position manager clears at most what a leg holds, at every fill; the
 ledger books a leg's exit under one key, so it books the first fill only and in full. The gap
 between them is exact for every batch, and vanishes under a guard on the fills.
 */
module Exits {
  import opened Totals
  import opened Arithmetic
  import opened Positions
  import opened Entries
  import opened Engine
  import A = Accounting
  import X = PartialExits

  /** What a sale of `shares` at `price` brings after the taker fee. */
  function Net(shares: real, price: real, takerFee: real): real {
    Product(shares, price) - Product(takerFee, Product(shares, price))
  }

  /** A fill that is not skipped: it sold something, of a leg of the position. */
  predicate Effective(markets: map<string, Leg>, f: ExitFill) { f.shares > 0.0 && f.market in markets }

  /** The last fill of the batch is the first exit of its leg that the ledger sees. */
  predicate BooksLast(recorded: set<A.TradeKey>, pid: string, markets: map<string, Leg>, fills: seq<ExitFill>)
    requires fills != []
  {
    var n := |fills| - 1;
    && Effective(markets, fills[n]) && A.ExitKey(pid, fills[n].market) !in recorded
    && forall i :: 0 <= i < n && Effective(markets, fills[i]) ==> fills[i].market != fills[n].market
  }

  /** The fills the ledger books. */
  function FirstFills(recorded: set<A.TradeKey>, pid: string, markets: map<string, Leg>, fills: seq<ExitFill>)
    : seq<ExitFill>
  {
    if fills == [] then [] else
      FirstFills(recorded, pid, markets, fills[..|fills| - 1])
      + (if BooksLast(recorded, pid, markets, fills) then [fills[|fills| - 1]] else [])
  }

  ghost predicate SomeExit(markets: map<string, Leg>, fills: seq<ExitFill>, mid: string) {
    exists i :: 0 <= i < |fills| && Effective(markets, fills[i]) && fills[i].market == mid
  }

  lemma SomeExitStep(markets: map<string, Leg>, fills: seq<ExitFill>, mid: string)
    requires fills != []
    ensures var n := |fills| - 1;
      SomeExit(markets, fills, mid)
      <==> SomeExit(markets, fills[..n], mid) || (Effective(markets, fills[n]) && fills[n].market == mid)
  {
    var n := |fills| - 1;
    assert forall i :: 0 <= i < n ==> fills[..n][i] == fills[i];
  }

  lemma {:induction false} ExitRecords(l: A.Ledger, pid: string, markets: map<string, Leg>, fills: seq<ExitFill>,
                                       takerFee: real, mid: string)
    ensures A.ExitKey(pid, mid) in BookExits(l, pid, markets, fills, takerFee).recorded
       <==> A.ExitKey(pid, mid) in l.recorded || SomeExit(markets, fills, mid)
  {
    if fills != [] {
      ExitRecords(l, pid, markets, fills[..|fills| - 1], takerFee, mid);
      SomeExitStep(markets, fills, mid);
    }
  }

  /** The last fill is booked exactly when it is a first fill. */
  lemma LastFill(l: A.Ledger, pid: string, markets: map<string, Leg>, fills: seq<ExitFill>, takerFee: real)
    requires fills != []
    ensures var before := BookExits(l, pid, markets, fills[..|fills| - 1], takerFee);
      var f := fills[|fills| - 1];
      if BooksLast(l.recorded, pid, markets, fills) then
        f.market in markets && A.ExitKey(pid, f.market) !in before.recorded
      else BookExit(before, pid, markets, f, takerFee) == before
  {
    var n := |fills| - 1;
    var f := fills[n];
    if Effective(markets, f) {
      ExitRecords(l, pid, markets, fills[..n], takerFee, f.market);
      assert forall i :: 0 <= i < n ==> fills[..n][i] == fills[i];
    }
  }

  /** A batch books exactly what its first fills alone would book. */
  lemma {:induction false} OnlyFirstFillsAreBooked(l: A.Ledger, pid: string, markets: map<string, Leg>,
                                                   fills: seq<ExitFill>, takerFee: real)
    ensures BookExits(l, pid, markets, fills, takerFee)
         == BookExits(l, pid, markets, FirstFills(l.recorded, pid, markets, fills), takerFee)
  {
    if fills != [] {
      var n := |fills| - 1;
      OnlyFirstFillsAreBooked(l, pid, markets, fills[..n], takerFee);
      LastFill(l, pid, markets, fills, takerFee);
      var before := FirstFills(l.recorded, pid, markets, fills[..n]);
      assert (before + [fills[n]])[..|before|] == before && before + [] == before;
    }
  }

  // ---------- The gap of a batch, exactly ----------

  /** The shares the ledger books for the last fill. */
  function Booked(recorded: set<A.TradeKey>, pid: string, markets: map<string, Leg>, fills: seq<ExitFill>): real
    requires fills != []
  {
    if BooksLast(recorded, pid, markets, fills) then fills[|fills| - 1].shares else 0.0
  }

  /** The shares the position manager clears for the last fill. */
  function ClearedLast(markets: map<string, Leg>, fills: seq<ExitFill>, takerFee: real): real
    requires fills != []
  {
    var f := fills[|fills| - 1];
    var now := TallyFills(markets, fills[..|fills| - 1], takerFee).markets;
    if Effective(now, f) then Cleared(now[f.market], f.shares) else 0.0
  }

  function BookCost(markets: map<string, Leg>, mid: string): real {
    if mid in markets then CostPerShare(markets[mid]) else 0.0
  }

  /** What the ledger takes in beyond the manager: net proceeds, fees and book cost, summed over the fills. */
  datatype Excess = Excess(cash: real, fees: real, cost: real)

  function ExcessOf(recorded: set<A.TradeKey>, pid: string, markets: map<string, Leg>, fills: seq<ExitFill>,
                    takerFee: real)
    : Excess
  {
    if fills == [] then Excess(0.0, 0.0, 0.0) else
      var f := fills[|fills| - 1];
      var before := ExcessOf(recorded, pid, markets, fills[..|fills| - 1], takerFee);
      var booked, cleared := Booked(recorded, pid, markets, fills), ClearedLast(markets, fills, takerFee);
      Excess(before.cash + Net(booked, f.price, takerFee) - Net(cleared, f.price, takerFee),
             before.fees + Product(takerFee, Product(booked, f.price)) - Product(takerFee, Product(cleared, f.price)),
             before.cost + Product(BookCost(markets, f.market), booked) - Product(BookCost(markets, f.market), cleared))
  }

  lemma LastBooked(l: A.Ledger, pid: string, markets: map<string, Leg>, fills: seq<ExitFill>, takerFee: real)
    requires fills != []
    ensures var before := BookExits(l, pid, markets, fills[..|fills| - 1], takerFee);
      var after := BookExits(l, pid, markets, fills, takerFee);
      var f := fills[|fills| - 1];
      var booked := Booked(l.recorded, pid, markets, fills);
      && after.cash == before.cash + Net(booked, f.price, takerFee)
      && after.fees == before.fees + Product(takerFee, Product(booked, f.price))
      && after.deployed == before.deployed - Product(BookCost(markets, f.market), booked)
  {
    LastFill(l, pid, markets, fills, takerFee);
  }

  lemma LastTallied(markets: map<string, Leg>, fills: seq<ExitFill>, takerFee: real)
    requires fills != [] && SoundLegs(markets)
    ensures var before := TallyFills(markets, fills[..|fills| - 1], takerFee);
      var after := TallyFills(markets, fills, takerFee);
      var f := fills[|fills| - 1];
      var cleared := ClearedLast(markets, fills, takerFee);
      && after.proceeds == before.proceeds + Net(cleared, f.price, takerFee)
      && after.fees == before.fees + Product(takerFee, Product(cleared, f.price))
      && after.cost == before.cost + Product(BookCost(markets, f.market), cleared)
  {
    var n := |fills| - 1;
    var before := TallyFills(markets, fills[..n], takerFee);
    X.FillsKeepCostPerShare(markets, fills[..n], takerFee);
    if Effective(before.markets, fills[n]) {
      assert X.Shrunk(markets[fills[n].market], before.markets[fills[n].market]);
    }
  }

  /** For every batch, whatever its fills are: the ledger's figures move by the manager's and the excess. */
  lemma {:induction false} BatchGap(l: A.Ledger, pid: string, markets: map<string, Leg>, fills: seq<ExitFill>,
                                    takerFee: real)
    requires SoundLegs(markets)
    ensures var r := BookExits(l, pid, markets, fills, takerFee);
      var t := TallyFills(markets, fills, takerFee);
      var x := ExcessOf(l.recorded, pid, markets, fills, takerFee);
      && r.cash == l.cash + t.proceeds + x.cash
      && r.fees == l.fees + t.fees + x.fees
      && r.deployed == l.deployed - t.cost - x.cost
  {
    if fills != [] {
      BatchGap(l, pid, markets, fills[..|fills| - 1], takerFee);
      LastBooked(l, pid, markets, fills, takerFee);
      LastTallied(markets, fills, takerFee);
    }
  }

  // ---------- When a batch leaves no gap ----------

  /** The effective fills are first exits of different legs, at positive prices. */
  ghost predicate Fresh(recorded: set<A.TradeKey>, pid: string, markets: map<string, Leg>, fills: seq<ExitFill>) {
    && (forall i :: 0 <= i < |fills| && Effective(markets, fills[i]) ==>
          fills[i].price > 0.0 && A.ExitKey(pid, fills[i].market) !in recorded)
    && (forall i, j :: 0 <= i < j < |fills| && Effective(markets, fills[i]) && Effective(markets, fills[j]) ==>
          fills[i].market != fills[j].market)
  }

  /** No effective fill sells more than its leg holds. */
  ghost predicate NoOversell(markets: map<string, Leg>, fills: seq<ExitFill>) {
    forall i :: 0 <= i < |fills| && Effective(markets, fills[i]) ==> fills[i].shares <= markets[fills[i].market].shares
  }

  lemma FreshPrefix(recorded: set<A.TradeKey>, pid: string, markets: map<string, Leg>, fills: seq<ExitFill>)
    requires fills != [] && Fresh(recorded, pid, markets, fills)
    ensures Fresh(recorded, pid, markets, fills[..|fills| - 1])
    ensures NoOversell(markets, fills) <==>
      NoOversell(markets, fills[..|fills| - 1])
      && (Effective(markets, fills[|fills| - 1])
        ==> fills[|fills| - 1].shares <= markets[fills[|fills| - 1].market].shares)
    ensures BooksLast(recorded, pid, markets, fills) <==> Effective(markets, fills[|fills| - 1])
  {
    var n := |fills| - 1;
    assert forall i :: 0 <= i < n ==> fills[..n][i] == fills[i];
  }

  /** A leg that no effective fill names is untouched. */
  lemma {:induction false} UnnamedLeg(markets: map<string, Leg>, fills: seq<ExitFill>, takerFee: real, mid: string)
    requires mid in markets && !SomeExit(markets, fills, mid)
    ensures TallyFills(markets, fills, takerFee).markets.Keys == markets.Keys
    ensures TallyFills(markets, fills, takerFee).markets[mid] == markets[mid]
  {
    if fills != [] {
      var n := |fills| - 1;
      SomeExitStep(markets, fills, mid);
      UnnamedLeg(markets, fills[..n], takerFee, mid);
    }
  }

  lemma FreshCleared(recorded: set<A.TradeKey>, pid: string, markets: map<string, Leg>, fills: seq<ExitFill>,
                     takerFee: real)
    requires fills != [] && Fresh(recorded, pid, markets, fills) && SoundLegs(markets)
    ensures var f := fills[|fills| - 1];
      ClearedLast(markets, fills, takerFee)
      == if Effective(markets, f) then Min(f.shares, markets[f.market].shares) else 0.0
  {
    var n := |fills| - 1;
    var f := fills[n];
    X.FillsKeepCostPerShare(markets, fills[..n], takerFee);
    if Effective(markets, f) {
      assert !SomeExit(markets, fills[..n], f.market) by {
        assert forall i :: 0 <= i < n ==> fills[..n][i] == fills[i];
      }
      UnnamedLeg(markets, fills[..n], takerFee, f.market);
    }
  }

  lemma NetGrows(takerFee: real, price: real, less: real, more: real)
    requires takerFee < 1.0 && price > 0.0 && less <= more
    ensures Net(less, price, takerFee) <= Net(more, price, takerFee)
    ensures Net(less, price, takerFee) == Net(more, price, takerFee) <==> less == more
  {
    var x, y := Product(less, price), Product(more, price);
    if less < more {
      Strict(less, more, price);
      assert x < y;
      Strict(x, y, 1.0 - takerFee);
      assert x * (1.0 - takerFee) == Net(less, price, takerFee) && y * (1.0 - takerFee) == Net(more, price, takerFee);
    }
  }

  /** Fresh fills that oversell nothing leave no gap at all. */
  lemma {:induction false} NoOversellNoExcess(recorded: set<A.TradeKey>, pid: string, markets: map<string, Leg>,
                                              fills: seq<ExitFill>, takerFee: real)
    requires Fresh(recorded, pid, markets, fills) && SoundLegs(markets) && NoOversell(markets, fills)
    ensures ExcessOf(recorded, pid, markets, fills, takerFee) == Excess(0.0, 0.0, 0.0)
  {
    if fills != [] {
      FreshPrefix(recorded, pid, markets, fills);
      NoOversellNoExcess(recorded, pid, markets, fills[..|fills| - 1], takerFee);
      FreshCleared(recorded, pid, markets, fills, takerFee);
    }
  }

  /** On fresh fills the ledger never takes in less cash, and takes in as much exactly without overselling. */
  lemma {:induction false} FreshExcess(recorded: set<A.TradeKey>, pid: string, markets: map<string, Leg>,
                                       fills: seq<ExitFill>, takerFee: real)
    requires Fresh(recorded, pid, markets, fills) && SoundLegs(markets) && takerFee < 1.0
    ensures var x := ExcessOf(recorded, pid, markets, fills, takerFee);
      x.cash >= 0.0 && (x.cash == 0.0 <==> NoOversell(markets, fills))
  {
    if fills != [] {
      var n := |fills| - 1;
      var f := fills[n];
      FreshPrefix(recorded, pid, markets, fills);
      FreshExcess(recorded, pid, markets, fills[..n], takerFee);
      FreshCleared(recorded, pid, markets, fills, takerFee);
      if Effective(markets, f) {
        NetGrows(takerFee, f.price, Min(f.shares, markets[f.market].shares), f.shares);
      }
    }
  }

  // ---------- Repeated exits ----------

  /** Every effective fill was cleared in full when it came. */
  ghost predicate WhollyCleared(markets: map<string, Leg>, fills: seq<ExitFill>, takerFee: real) {
    fills == [] ||
    (WhollyCleared(markets, fills[..|fills| - 1], takerFee)
     && (Effective(markets, fills[|fills| - 1]) ==> ClearedLast(markets, fills, takerFee) == fills[|fills| - 1].shares))
  }

  /** Every effective fill is the first exit of its leg. */
  ghost predicate AllFirst(recorded: set<A.TradeKey>, pid: string, markets: map<string, Leg>, fills: seq<ExitFill>) {
    fills == [] ||
    (AllFirst(recorded, pid, markets, fills[..|fills| - 1])
     && (Effective(markets, fills[|fills| - 1]) ==> BooksLast(recorded, pid, markets, fills)))
  }

  predicate PositivePrices(fills: seq<ExitFill>) { forall i :: 0 <= i < |fills| ==> fills[i].price > 0.0 }

  lemma {:induction false} TallyKeepsLegs(markets: map<string, Leg>, fills: seq<ExitFill>, takerFee: real)
    ensures TallyFills(markets, fills, takerFee).markets.Keys == markets.Keys
  {
    if fills != [] {
      TallyKeepsLegs(markets, fills[..|fills| - 1], takerFee);
    }
  }

  /** Without overselling the ledger never takes in more cash, and takes in as much exactly without repeats. */
  lemma {:induction false} RepeatedExcess(recorded: set<A.TradeKey>, pid: string, markets: map<string, Leg>,
                                          fills: seq<ExitFill>, takerFee: real)
    requires PositivePrices(fills) && takerFee < 1.0 && WhollyCleared(markets, fills, takerFee)
    ensures var x := ExcessOf(recorded, pid, markets, fills, takerFee);
      && x.cash <= 0.0
      && (x.cash == 0.0 <==> AllFirst(recorded, pid, markets, fills))
      && (AllFirst(recorded, pid, markets, fills) ==> x == Excess(0.0, 0.0, 0.0))
  {
    if fills != [] {
      var n := |fills| - 1;
      RepeatedExcess(recorded, pid, markets, fills[..n], takerFee);
      TallyKeepsLegs(markets, fills[..n], takerFee);
      if Effective(markets, fills[n]) {
        NetGrows(takerFee, fills[n].price, 0.0, fills[n].shares);
      }
    }
  }

  /** Fills on legs that were exited before are not booked at all. */
  lemma {:induction false} ExitedLegsAreUnbooked(l: A.Ledger, pid: string, markets: map<string, Leg>,
                                                 fills: seq<ExitFill>, takerFee: real)
    requires forall i :: 0 <= i < |fills| && Effective(markets, fills[i]) ==>
               A.ExitKey(pid, fills[i].market) in l.recorded
    ensures BookExits(l, pid, markets, fills, takerFee) == l
  {
    if fills != [] {
      assert forall i :: 0 <= i < |fills| - 1 ==> fills[..|fills| - 1][i] == fills[i];
      ExitedLegsAreUnbooked(l, pid, markets, fills[..|fills| - 1], takerFee);
    }
  }
}
