/**
 A run from a fresh engine that ends with the books apart: enter one leg of 20 shares at 0.50,
 sell half of it at 0.60, then sell the other half. Up to the first sale the books agree.
 */
module ExitWitness {
  import opened Totals
  import opened Arithmetic
  import opened Positions
  import opened Entries
  import opened Engine
  import opened Exits
  import opened BooksAgree
  import opened ExitsAgree
  import opened BookRuns
  import A = Accounting

  const ENTRY := Entry(["m"], map["m" := 0.5], map[], map["m" := 10.0], 1.0, "mutex_buy_all", "arb", false)
  const HALF := [ExitFill("m", 10.0, 0.6)]
  const LEG := Leg(0.5, 10.0, false, 20.0, "", 20.0, 0.0)

  lemma TheEntry(p: Portfolio)
    ensures EntryLegs(ENTRY) == map["m" := LEG] && Total(ENTRY.bets) == 10.0
    ensures CleanEntry(ENTRY) && CoversBets(ENTRY)
    ensures p.NewPosition(ENTRY).markets == map["m" := LEG]
  {
    assert EntryLeg(ENTRY, "m") == LEG;
    assert EntryLegs(ENTRY).Keys == {"m"};
    TotalRemove(ENTRY.bets, "m");
    assert ENTRY.bets - {"m"} == map[];
  }

  /** The only position is "p", with one leg of so many shares at book cost 0.50. */
  ghost predicate Holds(s: State, shares: real, paid: real, exited: bool) {
    && Invariant(s, 0.0) && s.portfolio.takerFee == 0.0
    && s.portfolio.open.Keys == {"p"}
    && s.portfolio.open["p"].markets == map["m" := LEG.(shares := shares, bet := shares / 2.0)]
    && s.portfolio.open["p"].actualPayout == paid
    && (A.ExitKey("p", "m") in s.ledger.recorded <==> exited)
  }

  ghost predicate Idle(s: State) {
    && Invariant(s, 0.0) && s.portfolio.takerFee == 0.0 && s.portfolio.open == map[] && s.portfolio.capital >= 10.0
    && Untouched(s.ledger, "p") && A.ExitKey("p", "m") !in s.ledger.recorded
  }

  lemma InitIsIdle()
    ensures Idle(Init(100.0, 0.0))
  {
    var s := Init(100.0, 0.0);
    assert Capitals(s.portfolio.open) == map[] && FeesPaid(s.portfolio.open) == map[];
    A.NothingBookedElsewhere(s.ledger.entries, "p");
  }

  lemma Entering(s: State)
    requires Idle(s)
    ensures Admissible(s, EnterStep("p", ENTRY, ["m"])) && Holds(Enter(s, "p", ENTRY, ["m"]), 20.0, 0.0, false)
  {
    TheEntry(s.portfolio);
    EnterKeepsInvariant(s, "p", ENTRY, ["m"], 0.0);
    EnterMoves(s, "p", ENTRY, ["m"]);
  }

  /** What selling ten shares of a leg of at least as many does to the leg. */
  lemma HalfOf(shares: real)
    requires shares >= 10.0
    ensures var leg := LEG.(shares := shares, bet := shares / 2.0);
      var t := TallyFills(map["m" := leg], HALF, 0.0);
      && t.markets == map["m" := LEG.(shares := shares - 10.0, bet := (shares - 10.0) / 2.0)]
      && t.proceeds == 6.0
  {
    var leg := LEG.(shares := shares, bet := shares / 2.0);
    assert HALF[..0] == [];
    assert CostPerShare(leg) == 0.5 by { UniqueQuotient(shares / 2.0, shares, 0.5); }
    assert ReducedLeg(leg, 10.0) == LEG.(shares := shares - 10.0, bet := (shares - 10.0) / 2.0);
  }

  lemma HalfIsFresh(s: State)
    requires Holds(s, 20.0, 0.0, false)
    ensures Admissible(s, ExitStep("p", HALF)) && !Closes(s, "p", HALF)
  {
    HalfOf(20.0);
    var legs := s.portfolio.open["p"].markets;
    assert TallyFills(legs, HALF, 0.0).markets["m"].shares == 10.0;
    assert forall i :: 0 <= i < |HALF| ==> HALF[i] == ExitFill("m", 10.0, 0.6);
  }

  lemma FirstHalf(s: State)
    requires Holds(s, 20.0, 0.0, false)
    ensures Holds(Exit(s, "p", HALF), 10.0, 6.0, true)
  {
    HalfIsFresh(s);
    StepKeepsInvariant(s, ExitStep("p", HALF), 0.0);
    HalfOf(20.0);
    assert SomeExit(s.portfolio.open["p"].markets, HALF, "m") by { assert HALF[0].market == "m"; }
    ExitRecords(s.ledger, "p", s.portfolio.open["p"].markets, HALF, 0.0, "m");
  }

  lemma SecondHalf(s: State)
    requires Holds(s, 10.0, 6.0, true)
    ensures var r := Exit(s, "p", HALF);
      r.portfolio.open == map[] && r.ledger.deployed == 5.0 && r.ledger.cash == r.portfolio.capital - 12.0
  {
    var p := s.portfolio.open["p"];
    HalfOf(10.0);
    assert p.totalCapital == 5.0 by {
      assert Bookable(p);
      TotalRemove(Bets(p.markets), "m");
      assert Bets(p.markets) - {"m"} == map[];
    }
    assert Closes(s, "p", HALF);
    SellingTheRestParts(s, "p", HALF);
    assert s.portfolio.open - {"p"} == map[];
    assert Capitals(Exit(s, "p", HALF).portfolio.open) == map[];
  }

  lemma TwoSteps(s: State, a: Step, b: Step)
    requires Admissible(s, a) && Admissible(Apply(s, a), b)
    ensures AdmissibleRun(s, [a, b]) && Run(s, [a, b]) == Apply(Apply(s, a), b)
  {
    assert [a, b][1..] == [b];
    OneStep(Apply(s, a), b);
  }

  lemma OneStep(s: State, a: Step)
    requires Admissible(s, a)
    ensures AdmissibleRun(s, [a]) && Run(s, [a]) == Apply(s, a)
  {
    assert [a][1..] == [];
  }

  lemma NothingOpen(s: State)
    requires s.portfolio.open == map[] && s.ledger.deployed == 5.0
    ensures forall refunded :: !Agree(s, refunded)
  {
    assert Capitals(s.portfolio.open) == map[];
  }

  /**
   From a fresh engine, an entry and a partial exit are admissible and keep the books in
   agreement; selling the rest then leaves 5 of deployed capital and 12 less cash in the ledger.
   */
  lemma SellingInTwoHalvesParts()
    ensures var s := Init(100.0, 0.0);
      AdmissibleRun(s, [EnterStep("p", ENTRY, ["m"]), ExitStep("p", HALF)])
    ensures var halved := Run(Init(100.0, 0.0), [EnterStep("p", ENTRY, ["m"]), ExitStep("p", HALF)]);
      var sold := Exit(halved, "p", HALF);
      && Agree(halved, 0.0)
      && sold.portfolio.open == map[] && sold.ledger.deployed == 5.0
      && sold.ledger.cash == sold.portfolio.capital - 12.0
      && forall refunded :: !Agree(sold, refunded)
  {
    InitIsIdle();
    IdleParts(Init(100.0, 0.0));
  }

  lemma IdleParts(s: State)
    requires Idle(s)
    ensures AdmissibleRun(s, [EnterStep("p", ENTRY, ["m"]), ExitStep("p", HALF)])
    ensures var halved := Run(s, [EnterStep("p", ENTRY, ["m"]), ExitStep("p", HALF)]);
      var sold := Exit(halved, "p", HALF);
      && Agree(halved, 0.0)
      && sold.portfolio.open == map[] && sold.ledger.deployed == 5.0
      && sold.ledger.cash == sold.portfolio.capital - 12.0
      && forall refunded :: !Agree(sold, refunded)
  {
    Entering(s);
    var entered := Apply(s, EnterStep("p", ENTRY, ["m"]));
    HalfIsFresh(entered);
    FirstHalf(entered);
    TwoSteps(s, EnterStep("p", ENTRY, ["m"]), ExitStep("p", HALF));
    SecondHalf(Apply(entered, ExitStep("p", HALF)));
    NothingOpen(Exit(Apply(entered, ExitStep("p", HALF)), "p", HALF));
  }
}
