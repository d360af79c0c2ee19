/**
 Arbitrage mathematics: the closed-form mutex check, the outcome scenarios of a constraint,
 and the Frank-Wolfe optimiser over them.
 */
module Arbitrage {
  import opened Totals

  datatype ConstraintType = Mutex | Complementary | LogicalImplication

  datatype ArbResult = ArbResult(
    methodName: string, isSell: bool, profitPct: real, netProfit: real, grossProfit: real, fees: real,
    priceSum: real, negRisk: bool, bets: seq<(string, real)>,
    capitalEfficiency: Option<real>, collateral: Option<real>, scenarios: Option<nat>)

  const MIN_PRICE := 0.02
  const MIN_PRICE_SUM := 0.899
  const MAX_POLYTOPE_MARKETS := 12

  // ---------- Direct mutex arbitrage ----------

  predicate AllAtLeast(s: seq<real>, bound: real) { forall i :: 0 <= i < |s| ==> s[i] >= bound }

  /** The share of the capital that goes to one market. */
  function Stake(capital: real, price: real, priceSum: real): real
    requires priceSum != 0.0
  {
    capital * price / priceSum
  }

  /** A bet on every market, in proportion to its price. */
  function Proportional(ids: seq<string>, prices: seq<real>, capital: real, priceSum: real): (bets: seq<(string, real)>)
    requires |ids| == |prices| && priceSum != 0.0
  {
    seq(|ids|, i requires 0 <= i < |ids| => (ids[i], Stake(capital, prices[i], priceSum)))
  }

  /** What is left of `payout` after the capital it cost and the fee on it. */
  function NetProfit(payout: real, capital: real, feeRate: real): real { payout - capital - payout * feeRate }

  /** Net profit as a fraction of capital. */
  function NetPct(payout: real, capital: real, feeRate: real): real
    requires capital != 0.0
  {
    NetProfit(payout, capital, feeRate) / capital
  }

  /** Every NO but one pays. */
  function SellAllPayout(capital: real, noCost: real, n: nat): real
    requires noCost != 0.0
  {
    capital / noCost * (n as real - 1.0)
  }

  /** A zero capital makes the percentage undefined, and every comparison with it false. */
  function CheckMutexArb(ids: seq<string>, yes: seq<real>, no: seq<real>, capital: real, feeRate: real,
                         minProfit: real, maxProfit: real, negRisk: bool): Option<ArbResult>
  {
    var n := |ids|;
    if n < 2 || |yes| != n || |no| != n then None
    else if !AllAtLeast(yes, MIN_PRICE) then None
    else
      var priceSum := Sum(yes);
      if priceSum < MIN_PRICE_SUM || capital == 0.0 then None
      else if priceSum < 1.0 && minProfit <= NetPct(capital / priceSum, capital, feeRate) <= maxProfit then
        var payout := capital / priceSum;
        Some(ArbResult("mutex_buy_all", false, NetPct(payout, capital, feeRate),
                       NetProfit(payout, capital, feeRate), payout - capital, payout * feeRate, priceSum, negRisk,
                       Proportional(ids, yes, capital, priceSum), None, None, None))
      else if priceSum > 1.0 then
        var noCost := Sum(no);
        if noCost <= 0.0 then None else
          var payout := SellAllPayout(capital, noCost, n);
          if minProfit <= NetPct(payout, capital, feeRate) <= maxProfit then
            var collateral := if negRisk then 1.0 else noCost;
            Some(ArbResult("mutex_sell_all", true, NetPct(payout, capital, feeRate),
                           NetProfit(payout, capital, feeRate), payout - capital, payout * feeRate, priceSum, negRisk,
                           Proportional(ids, no, capital, noCost), Some(noCost / collateral), Some(collateral), None))
          else None
      else None
  }

  // ---------- Outcomes ----------

  type Outcome = seq<real>

  predicate IsOutcome(v: Outcome, n: nat) { |v| == n && forall i :: 0 <= i < n ==> v[i] == 0.0 || v[i] == 1.0 }

  ghost predicate ExactlyOneYes(v: Outcome) {
    exists i :: 0 <= i < |v| && v[i] == 1.0 && forall k :: 0 <= k < |v| && k != i ==> v[k] == 0.0
  }

  predicate NoneYes(v: Outcome) { forall i :: 0 <= i < |v| ==> v[i] == 0.0 }

  /** Implications that mention a market outside the constraint are ignored. */
  predicate Respects(v: Outcome, implications: seq<(nat, nat)>) {
    forall k :: 0 <= k < |implications| ==>
      var (i, j) := implications[k];
      i >= |v| || j >= |v| || v[i] == 0.0 || v[j] == 1.0
  }

  /** Which outcomes the constraint admits. */
  ghost predicate Admits(ct: ConstraintType, implications: seq<(nat, nat)>, v: Outcome, n: nat) {
    IsOutcome(v, n) &&
    match ct
    case Mutex => ExactlyOneYes(v)
    case Complementary => ExactlyOneYes(v) || (n > 2 && NoneYes(v))
    case LogicalImplication => Respects(v, implications)
  }

  function OneHot(n: nat, i: nat): Outcome { seq(n, k => if k == i then 1.0 else 0.0) }

  function AllNo(n: nat): Outcome { seq(n, _ => 0.0) }

  function Pow2(n: nat): (p: nat)
    ensures p > 0
  {
    if n == 0 then 1 else 2 * Pow2(n - 1)
  }

  /** Whether a bit of the mask is set. */
  predicate BitSet(mask: nat, bit: nat) { if bit == 0 then mask % 2 == 1 else BitSet(mask / 2, bit - 1) }

  function BitsOf(mask: nat, n: nat): Outcome {
    seq(n, bit requires 0 <= bit < n => if BitSet(mask, bit) then 1.0 else 0.0)
  }

  /** The admissible outcomes among the first `masks` bit masks, in order. */
  function MaskScenarios(n: nat, implications: seq<(nat, nat)>, masks: nat): seq<Outcome> {
    if masks == 0 then [] else
      MaskScenarios(n, implications, masks - 1)
      + (if Respects(BitsOf(masks - 1, n), implications) then [BitsOf(masks - 1, n)] else [])
  }

  function Scenarios(n: nat, ct: ConstraintType, implications: seq<(nat, nat)>): seq<Outcome> {
    match ct
    case Mutex => seq(n, i requires 0 <= i < n => OneHot(n, i))
    case Complementary => seq(n, i requires 0 <= i < n => OneHot(n, i)) + (if n > 2 then [AllNo(n)] else [])
    case LogicalImplication => MaskScenarios(n, implications, Pow2(n))
  }

  method BuildScenarios(n: nat, ct: ConstraintType, implications: seq<(nat, nat)>) returns (s: seq<Outcome>)
    ensures s == Scenarios(n, ct, implications)
  {
    match ct {
      case Mutex =>
        s := seq(n, i requires 0 <= i < n => OneHot(n, i));
      case Complementary =>
        s := seq(n, i requires 0 <= i < n => OneHot(n, i));
        if n > 2 {
          s := s + [seq(n, _ => 0.0)];
        }
      case LogicalImplication =>
        var total := Pow2(n);
        s := [];
        for mask := 0 to total
          invariant s == MaskScenarios(n, implications, mask)
        {
          var outcome := seq(n, bit requires 0 <= bit < n => if BitSet(mask, bit) then 1.0 else 0.0);
          assert outcome == BitsOf(mask, n);
          if Respects(outcome, implications) {
            s := s + [outcome];
          }
        }
    }
  }

  // ---------- Frank-Wolfe ----------

  function Dot(a: seq<real>, b: seq<real>): real
    requires |a| == |b|
  {
    if a == [] then 0.0 else Dot(a[..|a| - 1], b[..|b| - 1]) + Product(a[|a| - 1], b[|b| - 1])
  }

  /** The first of the worst-paying scenarios among the first `k`. */
  function Worst(scenarios: seq<Outcome>, y: seq<real>, k: nat): (w: nat)
    requires 1 <= k <= |scenarios| && forall i :: 0 <= i < |scenarios| ==> |scenarios[i]| == |y|
    ensures w < k
    ensures forall i :: 0 <= i < k ==> Dot(scenarios[w], y) <= Dot(scenarios[i], y)
    ensures forall i :: 0 <= i < w ==> Dot(scenarios[w], y) < Dot(scenarios[i], y)
  {
    if k == 1 then 0 else
      var w := Worst(scenarios, y, k - 1);
      if Dot(scenarios[k - 1], y) < Dot(scenarios[w], y) then k - 1 else w
  }

  function Ratio(grad: seq<real>, p: seq<real>, i: nat): real
    requires i < |grad| == |p|
  {
    grad[i] / Max(p[i], 0.000000001)
  }

  /** The first market of greatest gradient per unit of price, among the first `k`. */
  function Best(grad: seq<real>, p: seq<real>, k: nat): (b: nat)
    requires 1 <= k <= |grad| == |p|
    ensures b < k
    ensures forall i :: 0 <= i < k ==> Ratio(grad, p, i) <= Ratio(grad, p, b)
    ensures forall i :: 0 <= i < b ==> Ratio(grad, p, i) < Ratio(grad, p, b)
  {
    if k == 1 then 0 else
      var b := Best(grad, p, k - 1);
      if Ratio(grad, p, k - 1) > Ratio(grad, p, b) then k - 1 else b
  }

  predicate Shaped(scenarios: seq<Outcome>, p: seq<real>, y: seq<real>) {
    && |p| == |y| && |p| > 0 && |scenarios| > 0 && AllAtLeast(p, 0.000001)
    && forall i :: 0 <= i < |scenarios| ==> |scenarios[i]| == |y|
  }

  /** The whole budget on the market that helps the worst scenario most. */
  function Vertex(scenarios: seq<Outcome>, p: seq<real>, y: seq<real>, capital: real): (s: seq<real>)
    requires Shaped(scenarios, p, y)
    ensures |s| == |p|
  {
    var best := Best(scenarios[Worst(scenarios, y, |scenarios|)], p, |p|);
    seq(|p|, i => if i == best then capital / p[best] else 0.0)
  }

  function Gamma(t: nat): real { 2.0 / (t as real + 2.0) }

  function Mix(y: seq<real>, s: seq<real>, gamma: real): (r: seq<real>)
    requires |y| == |s|
    ensures |r| == |y|
  {
    seq(|y|, i requires 0 <= i < |y| => Product(1.0 - gamma, y[i]) + Product(gamma, s[i]))
  }

  function SquaredDistance(a: seq<real>, b: seq<real>): real
    requires |a| == |b|
  {
    if a == [] then 0.0 else
      SquaredDistance(a[..|a| - 1], b[..|b| - 1])
      + Product(a[|a| - 1] - b[|b| - 1], a[|a| - 1] - b[|b| - 1])
  }

  const CONVERGED := 0.000000000001

  function Iterate(scenarios: seq<Outcome>, p: seq<real>, capital: real, y: seq<real>, t: nat, maxIter: nat)
    : (r: seq<real>)
    requires Shaped(scenarios, p, y)
    ensures |r| == |y|
    decreases maxIter - t
  {
    if t >= maxIter then y else
      var next := Mix(y, Vertex(scenarios, p, y, capital), Gamma(t));
      if SquaredDistance(next, y) < CONVERGED then next
      else Iterate(scenarios, p, capital, next, t + 1, maxIter)
  }

  function Clamped(prices: seq<real>): (p: seq<real>)
    ensures |p| == |prices| && AllAtLeast(p, 0.000001)
  {
    seq(|prices|, i requires 0 <= i < |prices| => Min(Max(prices[i], 0.000001), 1.0))
  }

  function Start(p: seq<real>, capital: real): (y: seq<real>)
    requires AllAtLeast(p, 0.000001) && Sum(p) != 0.0
    ensures |y| == |p|
  {
    seq(|p|, i requires 0 <= i < |p| => Max(capital / Sum(p) / p[i], 0.0))
  }

  function NonNegativePart(y: seq<real>): (r: seq<real>)
    ensures |r| == |y|
  {
    seq(|y|, i requires 0 <= i < |y| => Max(y[i], 0.0))
  }

  /** The thresholds a constraint must pass before it is optimised at all. */
  predicate WorthOptimising(n: nat, yes: seq<real>, ct: ConstraintType) {
    && n >= 2 && |yes| == n && AllAtLeast(yes, MIN_PRICE) && n <= MAX_POLYTOPE_MARKETS
    && (ct == Mutex ==> Sum(yes) >= 0.9)
    && 0.3 <= Sum(yes) <= 1.4
    && (n == 2 ==> Sum(yes) >= 0.8)
  }

  lemma {:induction false} SumAtLeast(s: seq<real>, bound: real)
    requires AllAtLeast(s, bound)
    ensures Sum(s) >= |s| as real * bound
  {
    if s != [] {
      SumAtLeast(s[..|s| - 1], bound);
    }
  }

  /** The holdings the optimiser ends with. */
  function Holdings(yes: seq<real>, ct: ConstraintType, capital: real, implications: seq<(nat, nat)>, maxIter: nat)
    : (y: seq<real>)
    requires yes != [] && Scenarios(|yes|, ct, implications) != []
    ensures |y| == |yes|
  {
    var p := Clamped(yes);
    SumAtLeast(p, 0.000001);
    ScenariosShaped(|yes|, ct, implications);
    NonNegativePart(Iterate(Scenarios(|yes|, ct, implications), p, capital, Start(p, capital), 0, maxIter))
  }

  function Guaranteed(scenarios: seq<Outcome>, y: seq<real>): real
    requires scenarios != [] && forall i :: 0 <= i < |scenarios| ==> |scenarios[i]| == |y|
  {
    Dot(scenarios[Worst(scenarios, y, |scenarios|)], y)
  }

  /** The least any scenario pays on the final holdings. */
  function Floor(yes: seq<real>, ct: ConstraintType, capital: real, implications: seq<(nat, nat)>, maxIter: nat): real
    requires yes != [] && Scenarios(|yes|, ct, implications) != []
  {
    ScenariosShaped(|yes|, ct, implications);
    Guaranteed(Scenarios(|yes|, ct, implications), Holdings(yes, ct, capital, implications, maxIter))
  }

  /** The optimiser estimates one fee on the whole capital for every market. */
  function PolytopeFees(capital: real, feeRate: real, n: nat): real { capital * (feeRate * n as real) }

  /** The profit test, and the bets that buy the holdings; a zero capital has no profit percentage. */
  function Assess(ids: seq<string>, yes: seq<real>, y: seq<real>, guaranteed: real, capital: real, feeRate: real,
                  minProfit: real, maxProfit: real, scenarios: nat): Option<ArbResult>
    requires |y| == |yes| == |ids|
  {
    if capital == 0.0 then None else
      var p := Clamped(yes);
      var fees := PolytopeFees(capital, feeRate, |ids|);
      var gross := guaranteed - capital;
      var pct := (gross - fees) / capital;
      if pct < minProfit || pct > maxProfit then None else
        Some(ArbResult("polytope_fw", false, pct, gross - fees, gross, fees, Sum(yes), false,
                       seq(|ids|, i requires 0 <= i < |ids| => (ids[i], Product(y[i], p[i]))),
                       None, None, Some(scenarios)))
  }

  function PolytopeArb(ids: seq<string>, yes: seq<real>, ct: ConstraintType, capital: real, feeRate: real,
                       minProfit: real, maxProfit: real, implications: seq<(nat, nat)>, maxIter: nat): Option<ArbResult>
  {
    var n := |ids|;
    if !WorthOptimising(n, yes, ct) then None else
      var scenarios := Scenarios(n, ct, implications);
      if scenarios == [] then None else
        Assess(ids, yes, Holdings(yes, ct, capital, implications, maxIter),
               Floor(yes, ct, capital, implications, maxIter), capital, feeRate, minProfit, maxProfit, |scenarios|)
  }

  method GuaranteedPayout(scenarios: seq<Outcome>, y: seq<real>) returns (minPay: real, worst: nat)
    requires scenarios != [] && forall i :: 0 <= i < |scenarios| ==> |scenarios[i]| == |y|
    ensures worst == Worst(scenarios, y, |scenarios|) && minPay == Dot(scenarios[worst], y)
  {
    worst := 0;
    minPay := Dot(scenarios[0], y);
    for i := 1 to |scenarios|
      invariant worst == Worst(scenarios, y, i) && minPay == Dot(scenarios[worst], y)
    {
      var pay := Dot(scenarios[i], y);
      if pay < minPay {
        minPay := pay;
        worst := i;
      }
    }
  }

  method FrankWolfe(scenarios: seq<Outcome>, p: seq<real>, capital: real, start: seq<real>, maxIter: nat)
    returns (y: seq<real>)
    requires Shaped(scenarios, p, start)
    ensures y == Iterate(scenarios, p, capital, start, 0, maxIter)
  {
    y := start;
    var t := 0;
    while t < maxIter
      invariant t <= maxIter && |y| == |p|
      invariant Iterate(scenarios, p, capital, y, t, maxIter) == Iterate(scenarios, p, capital, start, 0, maxIter)
    {
      var _, worst := GuaranteedPayout(scenarios, y);
      var best := BestMarket(scenarios[worst], p);
      var vertex := seq(|p|, i => if i == best then capital / p[best] else 0.0);
      assert vertex == Vertex(scenarios, p, y, capital);
      var next, diff := MoveTowards(y, vertex, 2.0 / (t as real + 2.0));
      if diff < CONVERGED {
        return next;
      }
      y := next;
      t := t + 1;
    }
  }

  method RunPolytope(ids: seq<string>, yes: seq<real>, ct: ConstraintType, capital: real, feeRate: real,
                     minProfit: real, maxProfit: real, implications: seq<(nat, nat)>, maxIter: nat)
    returns (r: Option<ArbResult>)
    ensures r == PolytopeArb(ids, yes, ct, capital, feeRate, minProfit, maxProfit, implications, maxIter)
  {
    var n := |ids|;
    if !WorthOptimising(n, yes, ct) {
      return None;
    }
    var scenarios := BuildScenarios(n, ct, implications);
    if scenarios == [] {
      return None;
    }
    ScenariosShaped(n, ct, implications);
    var y := Optimise(yes, ct, capital, implications, maxIter, scenarios);
    var guaranteed, _ := GuaranteedPayout(scenarios, y);
    return Assess(ids, yes, y, guaranteed, capital, feeRate, minProfit, maxProfit, |scenarios|);
  }

  method Optimise(yes: seq<real>, ct: ConstraintType, capital: real, implications: seq<(nat, nat)>, maxIter: nat,
                  scenarios: seq<Outcome>) returns (y: seq<real>)
    requires yes != [] && scenarios == Scenarios(|yes|, ct, implications) != []
    ensures y == Holdings(yes, ct, capital, implications, maxIter)
  {
    ScenariosShaped(|yes|, ct, implications);
    var p := Clamped(yes);
    SumAtLeast(p, 0.000001);
    y := FrankWolfe(scenarios, p, capital, Start(p, capital), maxIter);
    y := seq(|y|, i requires 0 <= i < |y| => Max(y[i], 0.0));
  }

  method BestMarket(grad: seq<real>, p: seq<real>) returns (best: nat)
    requires 1 <= |grad| == |p|
    ensures best == Best(grad, p, |p|)
  {
    best := 0;
    for i := 1 to |p|
      invariant best == Best(grad, p, i)
    {
      if Ratio(grad, p, i) > Ratio(grad, p, best) {
        best := i;
      }
    }
  }

  method MoveTowards(y: seq<real>, vertex: seq<real>, gamma: real) returns (next: seq<real>, diff: real)
    requires |y| == |vertex|
    ensures next == Mix(y, vertex, gamma) && diff == SquaredDistance(next, y)
  {
    next, diff := [], 0.0;
    for i := 0 to |y|
      invariant |next| == i && next == Mix(y, vertex, gamma)[..i]
      invariant diff == SquaredDistance(next, y[..i])
    {
      var v := Product(1.0 - gamma, y[i]) + Product(gamma, vertex[i]);
      assert (next + [v])[..i] == next && y[..i + 1][..i] == y[..i];
      next := next + [v];
      diff := diff + Product(v - y[i], v - y[i]);
    }
    assert y[..|y|] == y;
  }

  lemma {:induction false} MaskScenariosShaped(n: nat, implications: seq<(nat, nat)>, masks: nat)
    ensures forall i :: 0 <= i < |MaskScenarios(n, implications, masks)| ==>
              |MaskScenarios(n, implications, masks)[i]| == n
  {
    if masks != 0 {
      MaskScenariosShaped(n, implications, masks - 1);
    }
  }

  lemma ScenariosShaped(n: nat, ct: ConstraintType, implications: seq<(nat, nat)>)
    ensures forall i :: 0 <= i < |Scenarios(n, ct, implications)| ==> |Scenarios(n, ct, implications)[i]| == n
  {
    MaskScenariosShaped(n, implications, Pow2(n));
  }
}
