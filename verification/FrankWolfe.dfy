/**
 What the optimiser guarantees: after one iteration the holdings cost exactly the capital and
 every admitted outcome pays the stated amount. And what it cannot do: beat the closed form.
 */
module FrankWolfe {
  import opened Totals
  import opened Arithmetic
  import opened Arbitrage
  import opened ScenarioExactness

  // ---------- Dot products ----------

  lemma {:induction false} DotMix(y: seq<real>, s: seq<real>, p: seq<real>, gamma: real)
    requires |y| == |s| == |p|
    ensures Dot(Mix(y, s, gamma), p) == Product(1.0 - gamma, Dot(y, p)) + Product(gamma, Dot(s, p))
  {
    if y != [] {
      var n := |y| - 1;
      DotMix(y[..n], s[..n], p[..n], gamma);
      assert Mix(y, s, gamma)[..n] == Mix(y[..n], s[..n], gamma);
      MixTerm(y[n], s[n], p[n], gamma);
      ProductAdds(1.0 - gamma, Dot(y[..n], p[..n]), Product(y[n], p[n]));
      ProductAdds(gamma, Dot(s[..n], p[..n]), Product(s[n], p[n]));
    }
  }

  lemma MixTerm(a: real, b: real, p: real, gamma: real)
    ensures Product(Product(1.0 - gamma, a) + Product(gamma, b), p)
         == Product(1.0 - gamma, Product(a, p)) + Product(gamma, Product(b, p))
  {
  }

  /** A vector with one nonzero entry picks out the other vector's entry. */
  lemma {:induction false} DotSingle(s: seq<real>, p: seq<real>, b: nat)
    requires |s| == |p| && b < |s| && forall i :: 0 <= i < |s| && i != b ==> s[i] == 0.0
    ensures Dot(s, p) == Product(s[b], p[b])
  {
    var n := |s| - 1;
    if b == n {
      DotZero(s[..n], p[..n]);
    } else {
      DotSingle(s[..n], p[..n], b);
    }
  }

  lemma {:induction false} DotZero(s: seq<real>, p: seq<real>)
    requires |s| == |p| && forall i :: 0 <= i < |s| ==> s[i] == 0.0
    ensures Dot(s, p) == 0.0
  {
    if s != [] {
      DotZero(s[..|s| - 1], p[..|p| - 1]);
    }
  }

  /** Holding at least `g` of everything costs at least `g` times the price sum. */
  lemma {:induction false} DotAtLeast(y: seq<real>, p: seq<real>, g: real)
    requires |y| == |p| && AllAtLeast(y, g) && AllAtLeast(p, 0.0)
    ensures Dot(y, p) >= Product(g, Sum(p))
  {
    if y != [] {
      var n := |y| - 1;
      DotAtLeast(y[..n], p[..n], g);
      ProductAdds(g, Sum(p[..n]), p[n]);
      ProductGrows(g, y[n], p[n]);
    }
  }

  // ---------- Every iteration keeps the budget ----------

  ghost predicate OnBudget(y: seq<real>, p: seq<real>, capital: real) {
    |y| == |p| && AllAtLeast(y, 0.0) && Dot(y, p) == capital
  }

  lemma VertexOnBudget(scenarios: seq<Outcome>, p: seq<real>, y: seq<real>, capital: real)
    requires Shaped(scenarios, p, y) && capital >= 0.0
    ensures OnBudget(Vertex(scenarios, p, y, capital), p, capital)
  {
    var s := Vertex(scenarios, p, y, capital);
    var best := Best(scenarios[Worst(scenarios, y, |scenarios|)], p, |p|);
    DotSingle(s, p, best);
    DivisionBack(capital, p[best]);
    QuotientNonNegative(capital, p[best]);
  }

  lemma GammaRange(t: nat)
    ensures 0.0 < Gamma(t) <= 1.0 && (t == 0 ==> Gamma(t) == 1.0)
  {
  }

  lemma MixOnBudget(y: seq<real>, s: seq<real>, p: seq<real>, capital: real, t: nat)
    requires OnBudget(s, p, capital) && |y| == |p|
    requires t == 0 || OnBudget(y, p, capital)
    ensures OnBudget(Mix(y, s, Gamma(t)), p, capital)
  {
    var gamma := Gamma(t);
    GammaRange(t);
    DotMix(y, s, p, gamma);
    forall i | 0 <= i < |y| ensures Mix(y, s, gamma)[i] >= 0.0 {
      if t > 0 { ProductNonNegative(1.0 - gamma, y[i]); }
      ProductNonNegative(gamma, s[i]);
    }
  }

  /** From the first iteration on, holdings are nonnegative and cost exactly the capital. */
  lemma {:induction false} IterateOnBudget(scenarios: seq<Outcome>, p: seq<real>, capital: real, y: seq<real>,
                                           t: nat, maxIter: nat)
    requires Shaped(scenarios, p, y) && capital >= 0.0
    requires (t == 0 && maxIter > 0) || OnBudget(y, p, capital)
    ensures OnBudget(Iterate(scenarios, p, capital, y, t, maxIter), p, capital)
    decreases maxIter - t
  {
    if t < maxIter {
      VertexOnBudget(scenarios, p, y, capital);
      MixOnBudget(y, Vertex(scenarios, p, y, capital), p, capital, t);
      var next := Mix(y, Vertex(scenarios, p, y, capital), Gamma(t));
      IterateOnBudget(scenarios, p, capital, next, t + 1, maxIter);
    }
  }

  /** The starting point costs n capital / (sum of prices); so with no iteration the budget is missed. */
  lemma {:induction false} CostOfEven(y: seq<real>, p: seq<real>, c: real)
    requires |y| == |p| && forall i :: 0 <= i < |y| ==> Product(y[i], p[i]) == c
    ensures Dot(y, p) == Product(|y| as real, c)
  {
    if y != [] {
      var n := |y| - 1;
      CostOfEven(y[..n], p[..n], c);
      assert Product(|y| as real, c) == Product(n as real, c) + c;
    }
  }

  lemma StartOnBudgetExactly(p: seq<real>, capital: real)
    requires AllAtLeast(p, 0.000001) && p != [] && capital > 0.0
    ensures Sum(p) > 0.0
    ensures OnBudget(Start(p, capital), p, capital) <==> Sum(p) == |p| as real
  {
    SumAtLeast(p, 0.000001);
    var total := Sum(p);
    var y := Start(p, capital);
    QuotientNonNegative(capital, total);
    forall i | 0 <= i < |p| ensures Product(y[i], p[i]) == capital / total && y[i] >= 0.0 {
      QuotientNonNegative(capital / total, p[i]);
      DivisionBack(capital / total, p[i]);
    }
    CostOfEven(y, p, capital / total);
    ShareOut(capital, total, |p| as real);
  }

  lemma ShareOut(capital: real, total: real, n: real)
    requires capital > 0.0 && total > 0.0
    ensures Product(n, capital / total) == capital <==> total == n
  {
  }

  // ---------- Soundness of the result ----------

  lemma NonNegativeIsUnchanged(y: seq<real>)
    requires AllAtLeast(y, 0.0)
    ensures NonNegativePart(y) == y
  {
  }

  lemma HoldingsOnBudget(yes: seq<real>, ct: ConstraintType, capital: real, implications: seq<(nat, nat)>, maxIter: nat)
    requires yes != [] && Scenarios(|yes|, ct, implications) != [] && capital > 0.0 && maxIter > 0
    ensures OnBudget(Holdings(yes, ct, capital, implications, maxIter), Clamped(yes), capital)
  {
    var scenarios, p := Scenarios(|yes|, ct, implications), Clamped(yes);
    SumAtLeast(p, 0.000001);
    ScenariosShaped(|yes|, ct, implications);
    IterateOnBudget(scenarios, p, capital, Start(p, capital), 0, maxIter);
    NonNegativeIsUnchanged(Iterate(scenarios, p, capital, Start(p, capital), 0, maxIter));
  }

  function BetAmounts(bets: seq<(string, real)>): seq<real> {
    seq(|bets|, i requires 0 <= i < |bets| => bets[i].1)
  }

  lemma {:induction false} SumOfCosts(y: seq<real>, p: seq<real>, costs: seq<real>)
    requires |y| == |p| == |costs| && forall i :: 0 <= i < |y| ==> costs[i] == Product(y[i], p[i])
    ensures Sum(costs) == Dot(y, p)
  {
    if y != [] {
      SumOfCosts(y[..|y| - 1], p[..|p| - 1], costs[..|costs| - 1]);
    }
  }

  ghost predicate Buys(bets: seq<(string, real)>, ids: seq<string>, y: seq<real>, p: seq<real>)
    requires |y| == |p| == |ids|
  {
    |bets| == |ids| && forall i :: 0 <= i < |ids| ==> bets[i] == (ids[i], Product(y[i], p[i]))
  }

  lemma ResultBuysHoldings(ids: seq<string>, yes: seq<real>, ct: ConstraintType, capital: real, feeRate: real,
                           minProfit: real, maxProfit: real, implications: seq<(nat, nat)>, maxIter: nat)
    requires PolytopeArb(ids, yes, ct, capital, feeRate, minProfit, maxProfit, implications, maxIter).Some?
    ensures |yes| == |ids| > 0 && Scenarios(|yes|, ct, implications) != []
    ensures Buys(PolytopeArb(ids, yes, ct, capital, feeRate, minProfit, maxProfit, implications, maxIter).value.bets,
                 ids, Holdings(yes, ct, capital, implications, maxIter), Clamped(yes))
  {
  }

  lemma BudgetIsSpent(bets: seq<(string, real)>, ids: seq<string>, y: seq<real>, p: seq<real>, capital: real)
    requires |y| == |p| == |ids| && AllAtLeast(p, 0.0)
    requires Buys(bets, ids, y, p) && OnBudget(y, p, capital)
    ensures Sum(BetAmounts(bets)) == capital && AllAtLeast(BetAmounts(bets), 0.0)
  {
    SumOfCosts(y, p, BetAmounts(bets));
    forall i | 0 <= i < |y| ensures BetAmounts(bets)[i] >= 0.0 {
      ProductNonNegative(y[i], p[i]);
    }
  }

  /** The bets of a result sum to the capital, in every constraint type. */
  lemma BetsSpendTheCapital(ids: seq<string>, yes: seq<real>, ct: ConstraintType, capital: real, feeRate: real,
                            minProfit: real, maxProfit: real, implications: seq<(nat, nat)>, maxIter: nat)
    requires capital > 0.0 && maxIter > 0
    requires PolytopeArb(ids, yes, ct, capital, feeRate, minProfit, maxProfit, implications, maxIter).Some?
    ensures var arb := PolytopeArb(ids, yes, ct, capital, feeRate, minProfit, maxProfit, implications, maxIter);
            var bets := arb.value.bets;
      Sum(BetAmounts(bets)) == capital && AllAtLeast(BetAmounts(bets), 0.0)
  {
    ResultBuysHoldings(ids, yes, ct, capital, feeRate, minProfit, maxProfit, implications, maxIter);
    HoldingsOnBudget(yes, ct, capital, implications, maxIter);
    BudgetIsSpent(PolytopeArb(ids, yes, ct, capital, feeRate, minProfit, maxProfit, implications, maxIter).value.bets,
                  ids, Holdings(yes, ct, capital, implications, maxIter), Clamped(yes), capital);
  }

  /** The floor is the least that any admitted outcome pays, and one outcome pays no more. */
  lemma FloorIsExact(yes: seq<real>, ct: ConstraintType, capital: real, implications: seq<(nat, nat)>, maxIter: nat)
    requires yes != [] && Scenarios(|yes|, ct, implications) != []
    ensures var y := Holdings(yes, ct, capital, implications, maxIter);
      var floor := Floor(yes, ct, capital, implications, maxIter);
      && (forall v :: Admits(ct, implications, v, |yes|) ==> Dot(v, y) >= floor)
      && (exists v :: Admits(ct, implications, v, |yes|) && Dot(v, y) == floor)
  {
    var scenarios := Scenarios(|yes|, ct, implications);
    var y := Holdings(yes, ct, capital, implications, maxIter);
    ScenariosShaped(|yes|, ct, implications);
    ScenariosExact(|yes|, ct, implications);
    var worst := scenarios[Worst(scenarios, y, |scenarios|)];
    assert worst in scenarios;
    forall v | Admits(ct, implications, v, |yes|) ensures Dot(v, y) >= Guaranteed(scenarios, y) {
      GuaranteedAtMostEach(scenarios, y, v);
    }
    assert Dot(worst, y) == Floor(yes, ct, capital, implications, maxIter);
  }

  lemma GuaranteedAtMostEach(scenarios: seq<Outcome>, y: seq<real>, v: Outcome)
    requires scenarios != [] && forall i :: 0 <= i < |scenarios| ==> |scenarios[i]| == |y|
    requires v in scenarios
    ensures |v| == |y| && Guaranteed(scenarios, y) <= Dot(v, y)
  {
  }

  /** Every outcome the constraint admits pays at least capital plus the stated gross profit; one pays no more. */
  lemma EveryOutcomePays(ids: seq<string>, yes: seq<real>, ct: ConstraintType, capital: real, feeRate: real,
                         minProfit: real, maxProfit: real, implications: seq<(nat, nat)>, maxIter: nat)
    requires PolytopeArb(ids, yes, ct, capital, feeRate, minProfit, maxProfit, implications, maxIter).Some?
    ensures var r := PolytopeArb(ids, yes, ct, capital, feeRate, minProfit, maxProfit, implications, maxIter).value;
      var y := Holdings(yes, ct, capital, implications, maxIter);
      && (forall v :: Admits(ct, implications, v, |yes|) ==> Dot(v, y) >= capital + r.grossProfit)
      && (exists v :: Admits(ct, implications, v, |yes|) && Dot(v, y) == capital + r.grossProfit)
  {
    FloorIsExact(yes, ct, capital, implications, maxIter);
    var r := PolytopeArb(ids, yes, ct, capital, feeRate, minProfit, maxProfit, implications, maxIter).value;
    assert capital + r.grossProfit == Floor(yes, ct, capital, implications, maxIter);
  }

  // ---------- The optimiser is dominated ----------

  lemma EachHoldingCoversFloor(yes: seq<real>, capital: real, implications: seq<(nat, nat)>, maxIter: nat, i: nat)
    requires i < |yes| && Scenarios(|yes|, Mutex, implications) != []
    ensures Holdings(yes, Mutex, capital, implications, maxIter)[i] >= Floor(yes, Mutex, capital, implications, maxIter)
  {
    var y := Holdings(yes, Mutex, capital, implications, maxIter);
    var scenarios := Scenarios(|yes|, Mutex, implications);
    ScenariosShaped(|yes|, Mutex, implications);
    assert scenarios[i] == OneHot(|yes|, i);
    GuaranteedAtMostEach(scenarios, y, OneHot(|yes|, i));
    DotSingle(OneHot(|yes|, i), y, i);
  }

  lemma SomeHoldingIsFloor(yes: seq<real>, capital: real, implications: seq<(nat, nat)>, maxIter: nat) returns (i: nat)
    requires yes != [] && Scenarios(|yes|, Mutex, implications) != []
    ensures i < |yes|
    ensures Holdings(yes, Mutex, capital, implications, maxIter)[i] == Floor(yes, Mutex, capital, implications, maxIter)
  {
    var y := Holdings(yes, Mutex, capital, implications, maxIter);
    var scenarios := Scenarios(|yes|, Mutex, implications);
    ScenariosShaped(|yes|, Mutex, implications);
    i := Worst(scenarios, y, |scenarios|);
    assert scenarios[i] == OneHot(|yes|, i);
    DotSingle(OneHot(|yes|, i), y, i);
  }

  /** Under mutual exclusion every holding reaches the floor, so the floor times the price sum fits the capital. */
  lemma MutexFloor(yes: seq<real>, capital: real, implications: seq<(nat, nat)>, maxIter: nat)
    requires yes != [] && Scenarios(|yes|, Mutex, implications) != [] && capital > 0.0 && maxIter > 0
    ensures Product(Floor(yes, Mutex, capital, implications, maxIter), Sum(Clamped(yes))) <= capital
  {
    var p := Clamped(yes);
    var y := Holdings(yes, Mutex, capital, implications, maxIter);
    var g := Floor(yes, Mutex, capital, implications, maxIter);
    HoldingsOnBudget(yes, Mutex, capital, implications, maxIter);
    forall i | 0 <= i < |y| ensures y[i] >= g {
      EachHoldingCoversFloor(yes, capital, implications, maxIter, i);
    }
    DotAtLeast(y, p, g);
  }

  lemma ClampedSums(yes: seq<real>)
    requires AllAtLeast(yes, MIN_PRICE) && |yes| >= 2
    ensures (forall i :: 0 <= i < |yes| ==> yes[i] <= 1.0) ==> Clamped(yes) == yes
    ensures (exists i :: 0 <= i < |yes| && yes[i] > 1.0) ==> Sum(Clamped(yes)) > 1.0
  {
    if exists i :: 0 <= i < |yes| && yes[i] > 1.0 {
      var i :| 0 <= i < |yes| && yes[i] > 1.0;
      SumWithOne(Clamped(yes), i);
    }
  }

  lemma {:induction false} SumWithOne(p: seq<real>, i: nat)
    requires AllAtLeast(p, MIN_PRICE) && i < |p| && p[i] == 1.0
    ensures Sum(p) >= 1.0 + MIN_PRICE * (|p| - 1) as real
  {
    var n := |p| - 1;
    if i == n {
      SumAtLeast(p[..n], MIN_PRICE);
    } else {
      SumWithOne(p[..n], i);
    }
  }

  // ---------- Bounds on the figures ----------

  lemma BoundByQuotient(g: real, total: real, capital: real)
    requires total > 0.0 && Product(g, total) <= capital
    ensures g <= capital / total
  {
  }

  lemma BelowCapital(g: real, total: real, capital: real)
    requires total >= 1.0 && capital > 0.0 && Product(g, total) <= capital
    ensures g <= capital
  {
  }

  /** The closed-form percentage depends on the price sum and the fee only. */
  lemma BuyAllPct(total: real, capital: real, feeRate: real)
    requires total > 0.0 && capital > 0.0
    ensures NetPct(capital / total, capital, feeRate) == (1.0 - feeRate) / total - 1.0
  {
    var q, x := capital / total, (1.0 - feeRate) / total;
    QuotientSwap(1.0 - feeRate, capital, total);
    assert x * capital == q - q * feeRate;
    assert (x - 1.0) * capital == x * capital - capital;
    NetPctIs(q, capital, feeRate, x - 1.0);
  }

  lemma NetPctIs(payout: real, capital: real, feeRate: real, pct: real)
    requires capital != 0.0 && pct * capital == payout - capital - payout * feeRate
    ensures NetPct(payout, capital, feeRate) == pct
  {
  }

  /** Fees per market on the whole capital outweigh the closed form's fee on the payout. */
  lemma FeesOutweigh(capital: real, total: real, feeRate: real, n: nat)
    requires capital > 0.0 && total >= 0.9 && feeRate >= 0.0 && n >= 2
    ensures capital / total * feeRate <= capital * (feeRate * n as real)
  {
    var q := capital / total;
    assert q * total == capital;
    assert q <= 2.0 * capital by { if q > 2.0 * capital { Strict(2.0 * capital, q, total); } }
    ProductGrows(q, 2.0 * capital, feeRate);
    ProductGrows(2.0, n as real, capital * feeRate);
    assert 2.0 * capital * feeRate == 2.0 * (capital * feeRate);
    assert capital * (feeRate * n as real) == n as real * (capital * feeRate);
  }

  // ---------- Main results ----------

  /** What a reported result says about its figures. */
  ghost predicate Reports(r: ArbResult, g: real, capital: real, feeRate: real, n: nat, minProfit: real, maxProfit: real)
    requires capital != 0.0
  {
    && r.grossProfit == g - capital
    && r.netProfit == r.grossProfit - capital * (feeRate * n as real)
    && r.profitPct == r.netProfit / capital
    && minProfit <= r.profitPct <= maxProfit
  }

  lemma AssessmentReports(ids: seq<string>, yes: seq<real>, y: seq<real>, g: real, capital: real, feeRate: real,
                          minProfit: real, maxProfit: real, scenarios: nat)
    requires capital != 0.0 && |y| == |yes| == |ids|
    requires Assess(ids, yes, y, g, capital, feeRate, minProfit, maxProfit, scenarios).Some?
    ensures Reports(Assess(ids, yes, y, g, capital, feeRate, minProfit, maxProfit, scenarios).value, g, capital,
                    feeRate, |ids|, minProfit, maxProfit)
  {
  }

  lemma ResultReports(ids: seq<string>, yes: seq<real>, ct: ConstraintType, capital: real, feeRate: real,
                      minProfit: real, maxProfit: real, implications: seq<(nat, nat)>, maxIter: nat)
    requires capital != 0.0
    requires PolytopeArb(ids, yes, ct, capital, feeRate, minProfit, maxProfit, implications, maxIter).Some?
    ensures WorthOptimising(|ids|, yes, ct) && Scenarios(|yes|, ct, implications) != []
    ensures Reports(PolytopeArb(ids, yes, ct, capital, feeRate, minProfit, maxProfit, implications, maxIter).value,
                    Floor(yes, ct, capital, implications, maxIter), capital, feeRate, |ids|, minProfit, maxProfit)
  {
    var scenarios := Scenarios(|ids|, ct, implications);
    AssessmentReports(ids, yes, Holdings(yes, ct, capital, implications, maxIter),
                      Floor(yes, ct, capital, implications, maxIter), capital, feeRate, minProfit, maxProfit,
                      |scenarios|);
  }

  lemma DominatedProfit(r: ArbResult, g: real, best: real, fee: real, capital: real, feeRate: real, n: nat,
                        minProfit: real, maxProfit: real)
    requires capital > 0.0 && Reports(r, g, capital, feeRate, n, minProfit, maxProfit)
    requires g <= best && fee <= capital * (feeRate * n as real)
    ensures r.profitPct <= (best - capital - fee) / capital
  {
    QuotientMonotone(r.netProfit, best - capital - fee, capital);
  }

  lemma DominatedFigures(r: ArbResult, g: real, total: real, capital: real, feeRate: real, n: nat,
                         minProfit: real, maxProfit: real)
    requires capital > 0.0 && feeRate >= 0.0 && n >= 2 && total >= 0.9
    requires Product(g, total) <= capital && Reports(r, g, capital, feeRate, n, minProfit, maxProfit)
    ensures r.grossProfit <= capital / total - capital
    ensures r.profitPct <= NetPct(capital / total, capital, feeRate)
  {
    BoundByQuotient(g, total, capital);
    FeesOutweigh(capital, total, feeRate, n);
    DominatedProfit(r, g, capital / total, capital / total * feeRate, capital, feeRate, n, minProfit, maxProfit);
  }

  /** At prices up to one, the optimiser's profit is at most the closed-form buy-all profit. */
  lemma PolytopeIsDominated(ids: seq<string>, yes: seq<real>, capital: real, feeRate: real, minProfit: real,
                            maxProfit: real, implications: seq<(nat, nat)>, maxIter: nat)
    requires capital > 0.0 && feeRate >= 0.0 && maxIter > 0
    requires forall i :: 0 <= i < |yes| ==> yes[i] <= 1.0
    requires PolytopeArb(ids, yes, Mutex, capital, feeRate, minProfit, maxProfit, implications, maxIter).Some?
    ensures var r := PolytopeArb(ids, yes, Mutex, capital, feeRate, minProfit, maxProfit, implications, maxIter).value;
      && Sum(yes) >= 0.9
      && r.grossProfit <= capital / Sum(yes) - capital
      && r.profitPct <= NetPct(capital / Sum(yes), capital, feeRate)
  {
    ResultReports(ids, yes, Mutex, capital, feeRate, minProfit, maxProfit, implications, maxIter);
    MutexFloor(yes, capital, implications, maxIter);
    ClampedSums(yes);
    DominatedFigures(
      PolytopeArb(ids, yes, Mutex, capital, feeRate, minProfit, maxProfit, implications, maxIter).value,
      Floor(yes, Mutex, capital, implications, maxIter), Sum(yes), capital, feeRate, |ids|, minProfit, maxProfit);
  }

  lemma DearSetLoses(r: ArbResult, g: real, total: real, capital: real, feeRate: real, n: nat,
                     minProfit: real, maxProfit: real)
    requires capital > 0.0 && feeRate >= 0.0 && total >= 1.0
    requires Product(g, total) <= capital && Reports(r, g, capital, feeRate, n, minProfit, maxProfit)
    ensures r.profitPct <= 0.0
  {
    BelowCapital(g, total, capital);
    ProductNonNegative(feeRate, n as real);
    ProductNonNegative(capital, feeRate * n as real);
    QuotientMonotone(r.netProfit, 0.0, capital);
  }

  /** A profitable polytope result needs a price sum below one, whatever the single prices are. */
  lemma ProfitNeedsCheapSet(ids: seq<string>, yes: seq<real>, capital: real, feeRate: real, minProfit: real,
                            maxProfit: real, implications: seq<(nat, nat)>, maxIter: nat)
    requires capital > 0.0 && feeRate >= 0.0 && maxIter > 0 && minProfit > 0.0
    requires PolytopeArb(ids, yes, Mutex, capital, feeRate, minProfit, maxProfit, implications, maxIter).Some?
    ensures Sum(yes) < 1.0 && forall i :: 0 <= i < |yes| ==> yes[i] <= 1.0
  {
    ResultReports(ids, yes, Mutex, capital, feeRate, minProfit, maxProfit, implications, maxIter);
    MutexFloor(yes, capital, implications, maxIter);
    ClampedSums(yes);
    if Sum(Clamped(yes)) >= 1.0 {
      DearSetLoses(
        PolytopeArb(ids, yes, Mutex, capital, feeRate, minProfit, maxProfit, implications, maxIter).value,
        Floor(yes, Mutex, capital, implications, maxIter), Sum(Clamped(yes)), capital, feeRate, |ids|,
        minProfit, maxProfit);
    }
  }

  /**
   The fallback: where the direct check found nothing and the optimiser still reports an
   opportunity, the direct buy-all profit had been rejected as too large, and by at most
   that much; so with a profit cap of one ninth or more the fallback never reports anything.
   */
  lemma FallbackOnlyAboveTheCap(ids: seq<string>, yes: seq<real>, no: seq<real>, capital: real, feeRate: real,
                                minProfit: real, maxProfit: real, negRisk: bool,
                                implications: seq<(nat, nat)>, maxIter: nat)
    requires capital > 0.0 && feeRate >= 0.0 && maxIter > 0 && minProfit > 0.0 && |no| == |ids|
    requires CheckMutexArb(ids, yes, no, capital, feeRate, minProfit, maxProfit, negRisk).None?
    requires PolytopeArb(ids, yes, Mutex, capital, feeRate, minProfit, maxProfit, implications, maxIter).Some?
    ensures 0.9 <= Sum(yes) < 1.0
    ensures NetPct(capital / Sum(yes), capital, feeRate) > maxProfit
    ensures maxProfit < 1.0 / 9.0
  {
    ProfitNeedsCheapSet(ids, yes, capital, feeRate, minProfit, maxProfit, implications, maxIter);
    PolytopeIsDominated(ids, yes, capital, feeRate, minProfit, maxProfit, implications, maxIter);
    BuyAllPct(Sum(yes), capital, feeRate);
    CapOnBuyAll(Sum(yes), feeRate);
  }

  lemma CapOnBuyAll(total: real, feeRate: real)
    requires total >= 0.9 && feeRate >= 0.0
    ensures (1.0 - feeRate) / total - 1.0 <= 1.0 / 9.0
  {
  }

  /** Where the outcome in which everything resolves NO is admitted, nothing is ever guaranteed. */
  lemma AllNoFloor(yes: seq<real>, ct: ConstraintType, capital: real, implications: seq<(nat, nat)>, maxIter: nat)
    requires yes != [] && Scenarios(|yes|, ct, implications) != []
    requires ct == LogicalImplication || (ct == Complementary && |yes| > 2)
    ensures Floor(yes, ct, capital, implications, maxIter) <= 0.0
  {
    var v := AllNo(|yes|);
    forall k | 0 <= k < |implications|
      ensures var (i, j) := implications[k]; i >= |v| || j >= |v| || v[i] == 0.0 || v[j] == 1.0
    {
      var (i, j) := implications[k];
      assert i < |v| ==> v[i] == 0.0;
    }
    assert Admits(ct, implications, v, |yes|);
    FloorIsExact(yes, ct, capital, implications, maxIter);
    DotZero(v, Holdings(yes, ct, capital, implications, maxIter));
    assert Dot(v, Holdings(yes, ct, capital, implications, maxIter)) == 0.0;
  }

  lemma TotalLoss(r: ArbResult, g: real, capital: real, feeRate: real, n: nat, minProfit: real, maxProfit: real)
    requires capital > 0.0 && feeRate >= 0.0 && g <= 0.0
    requires Reports(r, g, capital, feeRate, n, minProfit, maxProfit)
    ensures r.profitPct <= -1.0
  {
  }

  /** So implication constraints, and complementary ones over more than two markets, never yield a result. */
  lemma AllNoPaysNothing(ids: seq<string>, yes: seq<real>, ct: ConstraintType, capital: real, feeRate: real,
                         minProfit: real, maxProfit: real, implications: seq<(nat, nat)>, maxIter: nat)
    requires capital > 0.0 && feeRate >= 0.0 && minProfit > -1.0
    requires ct == LogicalImplication || (ct == Complementary && |ids| > 2)
    ensures PolytopeArb(ids, yes, ct, capital, feeRate, minProfit, maxProfit, implications, maxIter).None?
  {
    var r := PolytopeArb(ids, yes, ct, capital, feeRate, minProfit, maxProfit, implications, maxIter);
    if r.Some? {
      ResultReports(ids, yes, ct, capital, feeRate, minProfit, maxProfit, implications, maxIter);
      AllNoFloor(yes, ct, capital, implications, maxIter);
      TotalLoss(r.value, Floor(yes, ct, capital, implications, maxIter), capital, feeRate, |ids|, minProfit, maxProfit);
    }
  }
}
