/**
 How close the optimiser gets under mutual exclusion. After `t` rounds the cheapest holding is within
 2 n capital / (t + 1) of the best any holdings could guarantee, because every round buys only the
 outcome that pays least.
 */
module Convergence {
  import opened Totals
  import opened Arithmetic
  import opened Arbitrage
  import opened FrankWolfe
  import S = Selection

  // ---------- What a round buys ----------

  ghost predicate OneHots(scenarios: seq<Outcome>, n: nat) {
    |scenarios| == n && forall i :: 0 <= i < n ==> scenarios[i] == OneHot(n, i)
  }

  lemma OneHotPays(n: nat, i: nat, y: seq<real>)
    requires i < n == |y|
    ensures Dot(OneHot(n, i), y) == y[i]
  {
    DotSingle(OneHot(n, i), y, i);
  }

  /** The round's purchase goes to the market held least. */
  lemma BuysTheLeastHeld(scenarios: seq<Outcome>, p: seq<real>, y: seq<real>) returns (k: nat)
    requires Shaped(scenarios, p, y) && OneHots(scenarios, |p|)
    ensures k < |p| && forall i :: 0 <= i < |y| ==> y[k] <= y[i]
    ensures forall capital :: Vertex(scenarios, p, y, capital)
                              == seq(|p|, i requires 0 <= i < |p| => if i == k then capital / p[k] else 0.0)
  {
    k := Worst(scenarios, y, |scenarios|);
    forall i | 0 <= i < |y| ensures y[k] <= y[i] {
      OneHotPays(|p|, k, y);
      OneHotPays(|p|, i, y);
    }
    WorstIsBest(p, k);
    forall capital
      ensures Vertex(scenarios, p, y, capital)
           == seq(|p|, i requires 0 <= i < |p| => if i == k then capital / p[k] else 0.0)
    {
    }
  }

  lemma WorstIsBest(p: seq<real>, k: nat)
    requires k < |p| && AllAtLeast(p, 0.000001)
    ensures Best(OneHot(|p|, k), p, |p|) == k
  {
    var grad := OneHot(|p|, k);
    var b := Best(grad, p, |p|);
    Positive(1.0, Max(p[k], 0.000000001));
    assert Ratio(grad, p, k) <= Ratio(grad, p, b);
  }

  // ---------- The spread of the holdings ----------

  /** No holding exceeds another by more than `gap` worth of shares. */
  ghost predicate Level(y: seq<real>, p: seq<real>, gap: real) {
    |y| == |p| && forall i, j :: 0 <= i < |y| && 0 <= j < |y| ==> Product(p[i], y[i] - y[j]) <= gap
  }

  function Gap(capital: real, t: nat): real { 2.0 * capital / (t as real + 1.0) }

  /** The weights of old and new holdings shrink the allowed spread by one round. */
  lemma GapShrinks(capital: real, t: nat)
    requires capital >= 0.0
    ensures Product(1.0 - Gamma(t), Gap(capital, t)) <= Gap(capital, t + 1)
    ensures Product(Gamma(t), capital) == Gap(capital, t + 1)
  {
    var a, b := t as real + 1.0, t as real + 2.0;
    assert 1.0 - Gamma(t) == t as real / b by { assert (t as real + 2.0) / b == 1.0; }
    var g := 2.0 * capital / a;
    DivisionBack(2.0 * capital, a);
    QuotientNonNegative(2.0 * capital, a);
    assert t as real * g <= 2.0 * capital by { ProductGrows(t as real, a, g); }
    QuotientMonotone(t as real * g, 2.0 * capital, b);
    assert t as real / b * g == t as real * g / b by { ProductOverQuotient(t as real, g, b); }
    assert 2.0 / b * capital == 2.0 * capital / b by { ProductOverQuotient(2.0, capital, b); }
  }

  lemma ProductOverQuotient(x: real, y: real, z: real)
    requires z != 0.0
    ensures x / z * y == x * y / z
  {
  }

  function Mixed(held: real, bought: real, gamma: real): real { Product(1.0 - gamma, held) + Product(gamma, bought) }

  lemma Regroup(a: real, b: real, u: real, v: real, p: real, gamma: real)
    ensures Product(p, Mixed(a, u, gamma) - Mixed(b, v, gamma))
         == Product(1.0 - gamma, Product(p, a - b)) + Product(gamma, Product(p, u)) - Product(gamma, Product(p, v))
  {
  }

  /** A market that was not bought: its lead over any other shrinks with the old holdings. */
  lemma UnboughtLead(a: real, b: real, v: real, p: real, gamma: real, gap: real)
    requires 0.0 <= gamma <= 1.0 && p >= 0.0 && v >= 0.0 && (gamma == 1.0 || Product(p, a - b) <= gap)
    ensures Product(p, Mixed(a, 0.0, gamma) - Mixed(b, v, gamma)) <= Product(1.0 - gamma, gap)
  {
    Regroup(a, b, 0.0, v, p, gamma);
    ProductNonNegative(p, v);
    ProductNonNegative(gamma, Product(p, v));
    if gamma < 1.0 { ProductGrows(Product(p, a - b), gap, 1.0 - gamma); }
  }

  /** The market that was bought was held least: its lead is at most what the round spent. */
  lemma BoughtLead(a: real, b: real, capital: real, p: real, gamma: real)
    requires 0.0 <= gamma <= 1.0 && p > 0.0 && a <= b
    ensures Product(p, Mixed(a, capital / p, gamma) - Mixed(b, 0.0, gamma)) <= Product(gamma, capital)
  {
    Regroup(a, b, capital / p, 0.0, p, gamma);
    DivisionBack(capital, p);
    ProductNonPositive(p, a - b);
    ProductNonPositive(1.0 - gamma, Product(p, a - b));
  }

  function Spent(capital: real, p: seq<real>, k: nat, i: nat): real
    requires k < |p| && i < |p| && AllAtLeast(p, 0.000001)
  {
    if i == k then capital / p[k] else 0.0
  }

  lemma LeadAfterRound(y: seq<real>, p: seq<real>, k: nat, capital: real, t: nat, i: nat, j: nat)
    requires |y| == |p| && AllAtLeast(p, 0.000001) && k < |y| && i < |y| && j < |y| && capital >= 0.0
    requires y[k] <= y[j] && (t == 0 || Product(p[i], y[i] - y[j]) <= Gap(capital, t))
    ensures var mine, theirs := Spent(capital, p, k, i), Spent(capital, p, k, j);
      Product(p[i], Mixed(y[i], mine, Gamma(t)) - Mixed(y[j], theirs, Gamma(t))) <= Gap(capital, t + 1)
  {
    GammaRange(t);
    GapShrinks(capital, t);
    QuotientNonNegative(capital, p[k]);
    if i != k {
      UnboughtLead(y[i], y[j], Spent(capital, p, k, j), p[i], Gamma(t), Gap(capital, t));
    } else if j != k {
      BoughtLead(y[i], y[j], capital, p[i], Gamma(t));
    } else {
      GapNonNegative(capital, t + 1);
    }
  }

  /** One round keeps the holdings level within the next gap. */
  lemma RoundKeepsLevel(scenarios: seq<Outcome>, p: seq<real>, y: seq<real>, capital: real, t: nat)
    requires Shaped(scenarios, p, y) && OneHots(scenarios, |p|) && capital >= 0.0
    requires t == 0 || Level(y, p, Gap(capital, t))
    ensures Level(Mix(y, Vertex(scenarios, p, y, capital), Gamma(t)), p, Gap(capital, t + 1))
  {
    var s := Vertex(scenarios, p, y, capital);
    var next := Mix(y, s, Gamma(t));
    var k := BuysTheLeastHeld(scenarios, p, y);
    forall i, j | 0 <= i < |y| && 0 <= j < |y| ensures Product(p[i], next[i] - next[j]) <= Gap(capital, t + 1) {
      assert s[i] == Spent(capital, p, k, i) && s[j] == Spent(capital, p, k, j);
      LeadAfterRound(y, p, k, capital, t, i, j);
    }
  }

  lemma GapNonNegative(capital: real, t: nat)
    requires capital >= 0.0
    ensures Gap(capital, t) >= 0.0
  {
    QuotientNonNegative(2.0 * capital, t as real + 1.0);
  }

  // ---------- Whole searches ----------

  /** How many rounds a search has made when it ends. */
  ghost function Rounds(scenarios: seq<Outcome>, p: seq<real>, capital: real, y: seq<real>, t: nat, maxIter: nat): nat
    requires Shaped(scenarios, p, y)
    decreases maxIter - t
  {
    if t >= maxIter then t else
      var next := Mix(y, Vertex(scenarios, p, y, capital), Gamma(t));
      if SquaredDistance(next, y) < CONVERGED then t + 1 else Rounds(scenarios, p, capital, next, t + 1, maxIter)
  }

  lemma {:induction false} SearchEndsLevel(scenarios: seq<Outcome>, p: seq<real>, capital: real, y: seq<real>, t: nat,
                                           maxIter: nat)
    requires Shaped(scenarios, p, y) && OneHots(scenarios, |p|) && capital >= 0.0
    requires (t == 0 && maxIter > 0) || (t <= maxIter && Level(y, p, Gap(capital, t)))
    ensures var rounds := Rounds(scenarios, p, capital, y, t, maxIter);
      && t <= rounds <= maxIter && (t < maxIter ==> t < rounds)
      && Level(Iterate(scenarios, p, capital, y, t, maxIter), p, Gap(capital, rounds))
    decreases maxIter - t
  {
    if t < maxIter {
      RoundKeepsLevel(scenarios, p, y, capital, t);
      var next := Mix(y, Vertex(scenarios, p, y, capital), Gamma(t));
      if SquaredDistance(next, y) >= CONVERGED {
        SearchEndsLevel(scenarios, p, capital, next, t + 1, maxIter);
      }
    }
  }

  // ---------- The floor ----------

  lemma OneLevel(y: real, p: real, least: real, gap: real, n: nat)
    requires Product(p, y - least) <= gap
    ensures y * p <= Product(least, p) + gap
    ensures Product((n + 1) as real, gap) == Product(n as real, gap) + gap
  {
    assert y * p == p * (y - least) + least * p;
  }

  /** Level holdings on budget: the least of them covers the capital up to a gap for every market. */
  lemma {:induction false} LevelCost(y: seq<real>, p: seq<real>, least: real, gap: real)
    requires |y| == |p| && forall i :: 0 <= i < |y| ==> Product(p[i], y[i] - least) <= gap
    ensures Dot(y, p) <= Product(least, Sum(p)) + Product(|y| as real, gap)
  {
    if y != [] {
      var n := |y| - 1;
      LevelCost(y[..n], p[..n], least, gap);
      ProductAdds(least, Sum(p[..n]), p[n]);
      OneLevel(y[n], p[n], least, gap, n);
    }
  }

  /** The rounds the optimiser makes under mutual exclusion. */
  ghost function MutexRounds(yes: seq<real>, capital: real, implications: seq<(nat, nat)>, maxIter: nat): nat
    requires yes != []
  {
    var p := Clamped(yes);
    SumAtLeast(p, 0.000001);
    ScenariosShaped(|yes|, Mutex, implications);
    Rounds(Scenarios(|yes|, Mutex, implications), p, capital, Start(p, capital), 0, maxIter)
  }

  lemma HoldingsAreLevel(yes: seq<real>, capital: real, implications: seq<(nat, nat)>, maxIter: nat)
    requires yes != [] && capital > 0.0 && maxIter > 0
    ensures Scenarios(|yes|, Mutex, implications) != []
    ensures 1 <= MutexRounds(yes, capital, implications, maxIter) <= maxIter
    ensures Level(Holdings(yes, Mutex, capital, implications, maxIter), Clamped(yes),
                  Gap(capital, MutexRounds(yes, capital, implications, maxIter)))
  {
    var p := Clamped(yes);
    var scenarios := Scenarios(|yes|, Mutex, implications);
    SumAtLeast(p, 0.000001);
    ScenariosShaped(|yes|, Mutex, implications);
    IterateOnBudget(scenarios, p, capital, Start(p, capital), 0, maxIter);
    NonNegativeIsUnchanged(Iterate(scenarios, p, capital, Start(p, capital), 0, maxIter));
    SearchEndsLevel(scenarios, p, capital, Start(p, capital), 0, maxIter);
  }

  lemma LevelFloor(y: seq<real>, p: seq<real>, k: nat, gap: real, capital: real)
    requires Level(y, p, gap) && OnBudget(y, p, capital) && k < |y|
    ensures capital - Product(|y| as real, gap) <= Product(y[k], Sum(p))
  {
    forall i | 0 <= i < |y| ensures Product(p[i], y[i] - y[k]) <= gap {
    }
    LevelCost(y, p, y[k], gap);
  }

  /**
   The floor is within 2 n capital / (rounds + 1), per unit of the price sum, of capital over the price
   sum, which is the most that any holdings could guarantee for the capital.
   */
  lemma FloorNearsTheBest(yes: seq<real>, capital: real, implications: seq<(nat, nat)>, maxIter: nat)
    requires yes != [] && capital > 0.0 && maxIter > 0
    ensures Scenarios(|yes|, Mutex, implications) != []
    ensures var rounds := MutexRounds(yes, capital, implications, maxIter);
      var cost := Product(Floor(yes, Mutex, capital, implications, maxIter), Sum(Clamped(yes)));
      && 1 <= rounds <= maxIter
      && capital - Product(|yes| as real, 2.0 * capital / (rounds as real + 1.0)) <= cost <= capital
  {
    HoldingsAreLevel(yes, capital, implications, maxIter);
    HoldingsOnBudget(yes, Mutex, capital, implications, maxIter);
    MutexFloor(yes, capital, implications, maxIter);
    var k := SomeHoldingIsFloor(yes, capital, implications, maxIter);
    LevelFloor(Holdings(yes, Mutex, capital, implications, maxIter), Clamped(yes), k,
               Gap(capital, MutexRounds(yes, capital, implications, maxIter)), capital);
  }

  // ---------- The search does not stop early ----------

  lemma {:induction false} DistanceCoversEach(a: seq<real>, b: seq<real>, i: nat)
    requires |a| == |b| && i < |a|
    ensures SquaredDistance(a, b) >= Product(a[i] - b[i], a[i] - b[i])
  {
    var n := |a| - 1;
    SquareNonNegative(a[n] - b[n]);
    if i < n {
      DistanceCoversEach(a[..n], b[..n], i);
    } else {
      DistanceNonNegative(a[..n], b[..n]);
    }
  }

  lemma {:induction false} DistanceNonNegative(a: seq<real>, b: seq<real>)
    requires |a| == |b|
    ensures SquaredDistance(a, b) >= 0.0
  {
    if a != [] {
      var n := |a| - 1;
      DistanceNonNegative(a[..n], b[..n]);
      SquareNonNegative(a[n] - b[n]);
    }
  }

  lemma SquareNonNegative(x: real)
    ensures Product(x, x) >= 0.0
  {
  }

  lemma SmallSquare(x: real)
    requires Product(x, x) < CONVERGED
    ensures -0.000001 < x < 0.000001
  {
    var e := 0.000001;
    if x >= e { ProductGrows(e, x, x); ProductGrows(e, x, e); }
    if x <= -e { ProductGrows(e, -x, -x); ProductGrows(e, -x, e); }
  }

  lemma {:induction false} OthersCost(p: seq<real>, k: nat)
    requires AllAtLeast(p, MIN_PRICE) && k < |p| && |p| >= 2
    ensures Sum(p) >= p[k] + MIN_PRICE
  {
    var n := |p| - 1;
    if k == n {
      SumAtLeast(p[..n], MIN_PRICE);
    } else if n >= 2 {
      OthersCost(p[..n], k);
    } else {
      assert p[..n] == [p[0]];
      SumOfOne(p[0]);
    }
  }

  lemma SumOfOne(x: real)
    ensures Sum([x]) == x
  {
    assert [x][..0] == [];
  }

  /** The purchase buys at least a hundredth of the capital in shares beyond what is held. */
  lemma PurchaseIsLarge(capital: real, price: real, total: real, held: real)
    requires capital > 0.0 && 0.02 <= price && price + 0.02 <= total <= 1.4 && Product(held, total) <= capital
    ensures capital / price - held >= capital / 100.0
  {
    var q := capital / price;
    DivisionBack(capital, price);
    Positive(capital, price);
    ExcessCost(q, price, total, held, capital);
    SharesAtLeast(q, price, capital);
    ExcessShares(q - held, total, capital);
  }

  lemma ExcessCost(q: real, price: real, total: real, held: real, capital: real)
    requires q > 0.0 && Product(q, price) == capital && Product(held, total) <= capital && price + 0.02 <= total
    ensures Product(q - held, total) >= 0.02 * q
  {
    assert Product(q - held, total) == Product(q, total) - Product(held, total);
    ProductAdds(q, price, total - price);
    ProductGrows(0.02, total - price, q);
  }

  lemma SharesAtLeast(q: real, price: real, capital: real)
    requires q > 0.0 && Product(q, price) == capital && price <= 1.38
    ensures 1.38 * q >= capital
  {
    ProductGrows(price, 1.38, q);
  }

  lemma ExcessShares(x: real, total: real, capital: real)
    requires capital > 0.0 && 0.0 < total <= 1.4 && Product(x, total) >= 0.0144 * capital
    ensures x >= capital / 100.0
  {
    if x <= 0.0 {
      ProductNonNegative(-x, total);
    } else {
      ProductGrows(total, 1.4, x);
    }
  }

  lemma SmallStepIsLate(capital: real, bought: real, t: nat)
    requires capital > 0.0 && bought >= capital / 100.0 && Product(Gamma(t), bought) < 0.000001
    ensures t as real + 2.0 > 20000.0 * capital
  {
    var b := t as real + 2.0;
    GammaRange(t);
    DivisionBack(2.0, b);
    ProductGrows(capital / 100.0, bought, Gamma(t));
    var x := Product(Gamma(t), capital / 100.0);
    Strict(x, 0.000001, b);
    ScaledBack(Gamma(t), capital / 100.0, b);
  }

  lemma ScaledBack(gamma: real, x: real, b: real)
    requires Product(gamma, b) == 2.0
    ensures Product(gamma, x) * b == 2.0 * x
  {
  }

  /** A round that moves by less than the stopping distance comes late, or the capital is tiny. */
  lemma StopIsLate(scenarios: seq<Outcome>, p: seq<real>, y: seq<real>, capital: real, t: nat)
    requires Shaped(scenarios, p, y) && OneHots(scenarios, |p|) && capital > 0.0
    requires |p| >= 2 && AllAtLeast(p, MIN_PRICE) && Sum(p) <= 1.4 && OnBudget(y, p, capital)
    requires SquaredDistance(Mix(y, Vertex(scenarios, p, y, capital), Gamma(t)), y) < CONVERGED
    ensures t as real + 2.0 > 20000.0 * capital
  {
    var s, gamma := Vertex(scenarios, p, y, capital), Gamma(t);
    var next := Mix(y, s, gamma);
    var k := BuysTheLeastHeld(scenarios, p, y);
    DistanceCoversEach(next, y, k);
    SmallSquare(next[k] - y[k]);
    assert Product(gamma, s[k] - y[k]) == next[k] - y[k];
    DotAtLeast(y, p, y[k]);
    OthersCost(p, k);
    PurchaseIsLarge(capital, p[k], Sum(p), y[k]);
    SmallStepIsLate(capital, s[k] - y[k], t);
  }

  lemma QuotientAtLeast(a: real, b: real, most: real)
    requires a > 0.0 && 0.0 < b <= most
    ensures Product(a / b, most) >= a && a / b > 0.0
  {
    DivisionBack(a, b);
    Positive(a, b);
    ProductGrows(b, most, a / b);
  }

  lemma StartIsLarge(p: seq<real>, capital: real, j: nat)
    requires AllAtLeast(p, 0.000001) && j < |p| && p[j] <= 1.0 && 0.0 < Sum(p) <= 1.4 && capital > 0.0
    ensures 1.4 * Start(p, capital)[j] >= capital
  {
    QuotientAtLeast(capital, Sum(p), 1.4);
    QuotientAtLeast(capital / Sum(p), p[j], 1.0);
  }

  /** The first round moves away from any starting point by all that is not bought again. */
  lemma FirstRoundMoves(scenarios: seq<Outcome>, p: seq<real>, y: seq<real>, capital: real) returns (j: nat)
    requires Shaped(scenarios, p, y) && OneHots(scenarios, |p|) && |p| >= 2
    requires SquaredDistance(Mix(y, Vertex(scenarios, p, y, capital), Gamma(0)), y) < CONVERGED
    ensures j < |y| && y[j] < 0.000001
  {
    var s := Vertex(scenarios, p, y, capital);
    var next := Mix(y, s, Gamma(0));
    var k := BuysTheLeastHeld(scenarios, p, y);
    j := if k == 0 then 1 else 0;
    DistanceCoversEach(next, y, j);
    SmallSquare(next[j] - y[j]);
    assert s[j] == 0.0;
    GammaRange(0);
    assert next[j] == Mixed(y[j], s[j], Gamma(0));
    GoneAfterTheFirst(y[j]);
  }

  lemma GoneAfterTheFirst(held: real)
    ensures Mixed(held, 0.0, Gamma(0)) == 0.0
  {
    GammaRange(0);
  }

  ghost predicate Ready(scenarios: seq<Outcome>, p: seq<real>, y: seq<real>, capital: real, t: nat) {
    && Shaped(scenarios, p, y) && OneHots(scenarios, |p|) && capital > 0.0
    && |p| >= 2 && AllAtLeast(p, MIN_PRICE) && Sum(p) <= 1.4
    && (forall i :: 0 <= i < |p| ==> p[i] <= 1.0)
    && (if t == 0 then Sum(p) != 0.0 && y == Start(p, capital) else OnBudget(y, p, capital))
  }

  lemma AnyStopIsLate(scenarios: seq<Outcome>, p: seq<real>, capital: real, y: seq<real>, t: nat)
    requires Ready(scenarios, p, y, capital, t)
    requires SquaredDistance(Mix(y, Vertex(scenarios, p, y, capital), Gamma(t)), y) < CONVERGED
    ensures t as real + 2.0 > 20000.0 * capital
  {
    if t == 0 {
      var j := FirstRoundMoves(scenarios, p, y, capital);
      SumAtLeast(p, MIN_PRICE);
      StartIsLarge(p, capital, j);
    } else {
      StopIsLate(scenarios, p, y, capital, t);
    }
  }

  lemma NextIsReady(scenarios: seq<Outcome>, p: seq<real>, capital: real, y: seq<real>, t: nat)
    requires Ready(scenarios, p, y, capital, t)
    ensures Ready(scenarios, p, Mix(y, Vertex(scenarios, p, y, capital), Gamma(t)), capital, t + 1)
  {
    VertexOnBudget(scenarios, p, y, capital);
    MixOnBudget(y, Vertex(scenarios, p, y, capital), p, capital, t);
  }

  lemma {:induction false} SearchIsLong(scenarios: seq<Outcome>, p: seq<real>, capital: real, y: seq<real>, t: nat,
                                        maxIter: nat)
    requires Ready(scenarios, p, y, capital, t) && t <= maxIter
    ensures var rounds := Rounds(scenarios, p, capital, y, t, maxIter);
      rounds == maxIter || rounds as real + 1.0 > 20000.0 * capital
    decreases maxIter - t
  {
    if t < maxIter {
      var next := Mix(y, Vertex(scenarios, p, y, capital), Gamma(t));
      if SquaredDistance(next, y) < CONVERGED {
        AnyStopIsLate(scenarios, p, capital, y, t);
      } else {
        NextIsReady(scenarios, p, capital, y, t);
        SearchIsLong(scenarios, p, capital, next, t + 1, maxIter);
      }
    }
  }

  lemma {:induction false} ClampedSum(yes: seq<real>)
    requires AllAtLeast(yes, MIN_PRICE)
    ensures Sum(Clamped(yes)) <= Sum(yes) && AllAtLeast(Clamped(yes), MIN_PRICE)
  {
    if yes != [] {
      var n := |yes| - 1;
      ClampedSum(yes[..n]);
      assert Clamped(yes)[..n] == Clamped(yes[..n]);
    }
  }

  /** Under mutual exclusion a search makes every round it may, or more than 20000 times the capital. */
  lemma MutexSearchIsLong(ids: seq<string>, yes: seq<real>, capital: real, implications: seq<(nat, nat)>, maxIter: nat)
    requires WorthOptimising(|ids|, yes, Mutex) && capital > 0.0
    ensures var rounds := MutexRounds(yes, capital, implications, maxIter);
      rounds == maxIter || rounds as real + 1.0 > 20000.0 * capital
  {
    var p := Clamped(yes);
    SumAtLeast(p, 0.000001);
    ScenariosShaped(|yes|, Mutex, implications);
    ClampedSum(yes);
    SearchIsLong(Scenarios(|yes|, Mutex, implications), p, capital, Start(p, capital), 0, maxIter);
  }

  // ---------- What the optimiser accepts ----------

  lemma ComparesExactly(a: real, b: real, c: real)
    requires c > 0.0
    ensures Product(a, c) <= Product(b, c) <==> a <= b
  {
  }

  /** What a search of so many rounds may leave short of the capital. */
  function Shortfall(n: nat, capital: real, rounds: nat): real {
    Product(n as real, 2.0 * capital / (rounds as real + 1.0))
  }

  /** What a floor must cover to return a fraction of the capital: the capital, the fees, and that fraction. */
  function Needed(capital: real, feeRate: real, n: nat, fraction: real): real {
    capital + capital * (feeRate * n as real) + Product(fraction, capital)
  }

  lemma FloorInWindow(floor: real, capital: real, feeRate: real, n: nat, minProfit: real, maxProfit: real)
    requires capital > 0.0
    requires Needed(capital, feeRate, n, minProfit) <= floor <= Needed(capital, feeRate, n, maxProfit)
    ensures S.FloorProfitable(floor, capital, feeRate, n, minProfit, maxProfit)
  {
    var profit := floor - capital - capital * (feeRate * n as real);
    var pct := profit / capital;
    DivisionBack(profit, capital);
    ComparesExactly(minProfit, pct, capital);
    ComparesExactly(pct, maxProfit, capital);
    assert S.FloorReturns(pct, floor, capital, feeRate, n, minProfit, maxProfit);
  }

  lemma Between(floor: real, total: real, low: real, high: real, least: real, most: real)
    requires total > 0.0 && least <= Product(floor, total) <= most
    requires Product(low, total) <= least && most <= Product(high, total)
    ensures low <= floor <= high
  {
    ComparesExactly(low, floor, total);
    ComparesExactly(floor, high, total);
  }

  lemma PricesUnclamped(ids: seq<string>, yes: seq<real>)
    requires S.Searchable(ids, yes, Mutex) && forall i :: 0 <= i < |yes| ==> yes[i] <= 1.0
    ensures Clamped(yes) == yes
  {
  }

  lemma FloorDecides(ids: seq<string>, yes: seq<real>, capital: real, feeRate: real, minProfit: real,
                     maxProfit: real, implications: seq<(nat, nat)>, maxIter: nat) returns (floor: real)
    requires S.Searchable(ids, yes, Mutex) && Scenarios(|yes|, Mutex, implications) != []
    ensures floor == Floor(yes, Mutex, capital, implications, maxIter)
    ensures PolytopeArb(ids, yes, Mutex, capital, feeRate, minProfit, maxProfit, implications, maxIter).Some?
       <==> S.FloorProfitable(floor, capital, feeRate, |ids|, minProfit, maxProfit)
  {
    floor := Floor(yes, Mutex, capital, implications, maxIter);
    S.OptimiserExactly(ids, yes, Mutex, capital, feeRate, minProfit, maxProfit, implications, maxIter);
  }

  /**
   What the optimiser decides on under mutual exclusion: a floor that is within 2 n capital / (rounds + 1)
   of the best, after all rounds it may make or more than 20000 times the capital.
   */
  lemma OptimiserDecides(ids: seq<string>, yes: seq<real>, capital: real, feeRate: real, minProfit: real,
                         maxProfit: real, implications: seq<(nat, nat)>, maxIter: nat)
    returns (floor: real, rounds: nat)
    requires S.Searchable(ids, yes, Mutex) && capital > 0.0 && maxIter > 0
    requires forall i :: 0 <= i < |yes| ==> yes[i] <= 1.0
    ensures 1 <= rounds <= maxIter && (rounds == maxIter || rounds as real + 1.0 > 20000.0 * capital)
    ensures capital - Shortfall(|yes|, capital, rounds) <= Product(floor, Sum(yes)) <= capital
    ensures PolytopeArb(ids, yes, Mutex, capital, feeRate, minProfit, maxProfit, implications, maxIter).Some?
       <==> S.FloorProfitable(floor, capital, feeRate, |ids|, minProfit, maxProfit)
  {
    PricesUnclamped(ids, yes);
    FloorNearsTheBest(yes, capital, implications, maxIter);
    rounds := MutexRounds(yes, capital, implications, maxIter);
    assert rounds == maxIter || rounds as real + 1.0 > 20000.0 * capital by {
      S.SearchableExactly(ids, yes, Mutex);
      MutexSearchIsLong(ids, yes, capital, implications, maxIter);
    }
    floor := FloorDecides(ids, yes, capital, feeRate, minProfit, maxProfit, implications, maxIter);
  }

  lemma GapsCompare(n: nat, capital: real, few: nat, rounds: nat)
    requires capital > 0.0 && few <= rounds
    ensures Shortfall(n, capital, rounds) <= Shortfall(n, capital, few)
  {
    var a, b := few as real + 1.0, rounds as real + 1.0;
    var x, y := 2.0 * capital / a, 2.0 * capital / b;
    DivisionBack(2.0 * capital, a);
    DivisionBack(2.0 * capital, b);
    QuotientNonNegative(2.0 * capital, b);
    ProductGrows(a, b, y);
    ComparesExactly(y, x, a);
    ProductGrows(y, x, n as real);
  }

  /**
   A searchable set is accepted when the best floor, less the gap that so many rounds leave, returns the
   least profit asked for, and the best floor itself no more than the most.
   */
  lemma CheapSetsAreAccepted(ids: seq<string>, yes: seq<real>, capital: real, feeRate: real, minProfit: real,
                             maxProfit: real, implications: seq<(nat, nat)>, maxIter: nat, few: nat)
    requires S.Searchable(ids, yes, Mutex) && capital > 0.0 && maxIter > 0
    requires few <= maxIter && few as real + 1.0 <= 20000.0 * capital
    requires forall i :: 0 <= i < |yes| ==> yes[i] <= 1.0
    requires Product(Needed(capital, feeRate, |ids|, minProfit), Sum(yes)) <= capital - Shortfall(|ids|, capital, few)
    requires capital <= Product(Needed(capital, feeRate, |ids|, maxProfit), Sum(yes))
    ensures PolytopeArb(ids, yes, Mutex, capital, feeRate, minProfit, maxProfit, implications, maxIter).Some?
  {
    var floor, rounds := OptimiserDecides(ids, yes, capital, feeRate, minProfit, maxProfit, implications, maxIter);
    GapsCompare(|ids|, capital, few, rounds);
    Between(floor, Sum(yes), Needed(capital, feeRate, |ids|, minProfit), Needed(capital, feeRate, |ids|, maxProfit),
            capital - Shortfall(|ids|, capital, few), capital);
    FloorInWindow(floor, capital, feeRate, |ids|, minProfit, maxProfit);
  }
}
