/** Raw order amounts: prices and dollar sizes turned into integers under the venue's precision rules. */
module OrderAmounts {
  import opened Totals
  import opened Arithmetic
  import opened Orders

  /** Raw units per dollar or share: six decimals. */
  const SCALE_DECIMALS := 6
  const SIZE_DECIMALS := 2

  function Pow10(n: nat): (p: nat)
    ensures p > 0
  {
    if n == 0 then 1 else 10 * Pow10(n - 1)
  }

  /** Rounds to the nearest integer, halves away from zero. */
  function Round(x: real): int { if x >= 0.0 then (x + 0.5).Floor else -((-x + 0.5).Floor) }

  /** Decimals of the dollar amount and of the share amount; only a market buy swaps them. */
  function UsdDecimals(side: Side, amountDecimals: nat, isMarket: bool): nat {
    if isMarket && side == Buy then SIZE_DECIMALS else amountDecimals
  }

  function ShareDecimals(side: Side, amountDecimals: nat, isMarket: bool): nat {
    if isMarket && side == Buy then amountDecimals else SIZE_DECIMALS
  }

  function Grid(decimals: nat): (g: real)
    ensures g > 0.0
  {
    Pow10(decimals) as real
  }

  /** Whole grid steps of shares a size buys, and of dollars those shares cost. */
  function ShareSteps(price: real, size: real, decimals: nat): int
    requires price != 0.0
  {
    Product(size / price, Grid(decimals)).Floor
  }

  function UsdSteps(price: real, shares: real, decimals: nat): int {
    Round(Product(Product(shares, price), Grid(decimals)))
  }

  function OnGrid(steps: int, decimals: nat): real { steps as real / Grid(decimals) }

  function Raw(amount: real): int { Round(Product(amount, Grid(SCALE_DECIMALS))) }

  /** A cast to an unsigned integer saturates at zero. */
  function Unsigned(n: int): nat { if n < 0 then 0 else n }

  /** Maker and taker amount, in raw units. */
  function ComputeAmounts(price: real, size: real, side: Side, amountDecimals: nat, isMarket: bool): (nat, nat)
    requires price != 0.0
  {
    var usdDecimals := UsdDecimals(side, amountDecimals, isMarket);
    var shareDecimals := ShareDecimals(side, amountDecimals, isMarket);
    var shares := OnGrid(ShareSteps(price, size, shareDecimals), shareDecimals);
    var usd := OnGrid(UsdSteps(price, shares, usdDecimals), usdDecimals);
    match side
    case Buy => (Unsigned(Raw(usd)), Unsigned(Raw(shares)))
    case Sell => (Unsigned(Raw(shares)), Unsigned(Raw(usd)))
  }

  function RawShares(side: Side, amounts: (nat, nat)): nat { if side == Buy then amounts.1 else amounts.0 }

  function RawUsd(side: Side, amounts: (nat, nat)): nat { if side == Buy then amounts.0 else amounts.1 }

  // ---------- Grids ----------

  lemma {:induction false} Pow10Adds(a: nat, b: nat)
    ensures Pow10(a + b) == Pow10(a) * Pow10(b)
  {
    if a > 0 {
      Pow10Adds(a - 1, b);
      assert Pow10(a) * Pow10(b) == 10 * (Pow10(a - 1) * Pow10(b));
    }
  }

  /** Scaling a grid value of at most six decimals to raw units is exact: a whole multiple of the grid step. */
  lemma ScaledGridIsExact(steps: int, decimals: nat)
    requires decimals <= SCALE_DECIMALS
    ensures Product(OnGrid(steps, decimals), Grid(SCALE_DECIMALS)) == (steps * Pow10(SCALE_DECIMALS - decimals)) as real
    ensures Raw(OnGrid(steps, decimals)) == steps * Pow10(SCALE_DECIMALS - decimals)
  {
  }

  lemma FloorNonNegative(x: real, y: real)
    requires x >= 0.0 && y >= 0.0
    ensures Product(x, y).Floor >= 0 && Round(Product(x, y)) >= 0 && Product(x, y) >= 0.0
  {
    ProductNonNegative(x, y);
  }

  lemma StepsNonNegative(price: real, size: real, shareDecimals: nat, usdDecimals: nat)
    requires price > 0.0 && size >= 0.0
    ensures var steps := ShareSteps(price, size, shareDecimals);
      steps >= 0 && UsdSteps(price, OnGrid(steps, shareDecimals), usdDecimals) >= 0
  {
    var steps := ShareSteps(price, size, shareDecimals);
    QuotientNonNegative(size, price);
    FloorNonNegative(size / price, Grid(shareDecimals));
    QuotientNonNegative(steps as real, Grid(shareDecimals));
    FloorNonNegative(OnGrid(steps, shareDecimals), price);
    FloorNonNegative(Product(OnGrid(steps, shareDecimals), price), Grid(usdDecimals));
  }

  /** Both raw amounts lie on their grids. */
  lemma AmountsOnGrid(price: real, size: real, side: Side, amountDecimals: nat, isMarket: bool)
    requires price > 0.0 && size >= 0.0 && amountDecimals <= SCALE_DECIMALS
    ensures var amounts := ComputeAmounts(price, size, side, amountDecimals, isMarket);
      var usdDecimals := UsdDecimals(side, amountDecimals, isMarket);
      var shareDecimals := ShareDecimals(side, amountDecimals, isMarket);
      var shareSteps := ShareSteps(price, size, shareDecimals);
      && RawShares(side, amounts) == shareSteps * Pow10(SCALE_DECIMALS - shareDecimals)
      && RawUsd(side, amounts)
         == UsdSteps(price, OnGrid(shareSteps, shareDecimals), usdDecimals) * Pow10(SCALE_DECIMALS - usdDecimals)
  {
    var usdDecimals := UsdDecimals(side, amountDecimals, isMarket);
    var shareDecimals := ShareDecimals(side, amountDecimals, isMarket);
    var shareSteps := ShareSteps(price, size, shareDecimals);
    StepsNonNegative(price, size, shareDecimals, usdDecimals);
    ScaledGridIsExact(shareSteps, shareDecimals);
    ScaledGridIsExact(UsdSteps(price, OnGrid(shareSteps, shareDecimals), usdDecimals), usdDecimals);
  }

  // ---------- Shares ----------

  lemma FloorIsGreatest(x: real, n: int)
    ensures n as real <= x <==> n <= x.Floor
  {
  }

  lemma ProductComparesExactly(x: real, y: real, c: real)
    requires c > 0.0
    ensures Product(x, c) <= Product(y, c) <==> x <= y
  {
  }

  /** A number of grid steps is affordable exactly when it does not exceed the computed one. */
  lemma SharesAreTheLargestAffordable(price: real, size: real, decimals: nat, steps: int)
    requires price > 0.0
    ensures Product(OnGrid(steps, decimals), price) <= size <==> steps <= ShareSteps(price, size, decimals)
  {
    var x, q := OnGrid(steps, decimals), size / price;
    DivisionBack(steps as real, Grid(decimals));
    DivisionBack(size, price);
    ProductComparesExactly(x, q, price);
    ProductComparesExactly(x, q, Grid(decimals));
    FloorIsGreatest(Product(q, Grid(decimals)), steps);
  }

  // ---------- Dollars ----------

  /** Dollars are within half a grid step of what the shares cost. */
  lemma UsdWithinHalfAStep(price: real, shares: real, decimals: nat)
    ensures var usd := OnGrid(UsdSteps(price, shares, decimals), decimals);
      -0.5 <= Product(usd - Product(shares, price), Grid(decimals)) <= 0.5
  {
  }

  lemma RoundBelowInt(x: real, n: int)
    requires x <= n as real
    ensures Round(x) <= n
  {
  }

  lemma CostWithinSize(cost: real, sizeSteps: int, decimals: nat)
    requires cost <= OnGrid(sizeSteps, decimals)
    ensures Round(Product(cost, Grid(decimals))) <= sizeSteps
  {
    DivisionBack(sizeSteps as real, Grid(decimals));
    ProductGrows(cost, OnGrid(sizeSteps, decimals), Grid(decimals));
    RoundBelowInt(Product(cost, Grid(decimals)), sizeSteps);
  }

  lemma StepsMonotone(a: int, b: int, k: nat)
    requires a <= b
    ensures a * k <= b * k
  {
  }

  /** A buy never spends more than a size that lies on the dollar grid. */
  lemma BuyNeverExceedsSize(price: real, size: real, amountDecimals: nat, isMarket: bool, sizeSteps: int)
    requires price > 0.0 && size >= 0.0 && amountDecimals <= SCALE_DECIMALS
    requires size == OnGrid(sizeSteps, UsdDecimals(Buy, amountDecimals, isMarket))
    ensures ComputeAmounts(price, size, Buy, amountDecimals, isMarket).0 <= Raw(size)
    ensures Raw(size) as real == Product(size, Grid(SCALE_DECIMALS))
  {
    var usdDecimals := UsdDecimals(Buy, amountDecimals, isMarket);
    var shareDecimals := ShareDecimals(Buy, amountDecimals, isMarket);
    var shareSteps := ShareSteps(price, size, shareDecimals);
    var shares := OnGrid(shareSteps, shareDecimals);
    SharesAreTheLargestAffordable(price, size, shareDecimals, shareSteps);
    CostWithinSize(Product(shares, price), sizeSteps, usdDecimals);
    AmountsOnGrid(price, size, Buy, amountDecimals, isMarket);
    ScaledGridIsExact(sizeSteps, usdDecimals);
    StepsMonotone(UsdSteps(price, shares, usdDecimals), sizeSteps, Pow10(SCALE_DECIMALS - usdDecimals));
  }

  // ---------- The venue's rules, in raw units ----------

  /** Raw units make up dollars or shares. */
  function Human(raw: int): real { raw as real / 1000000.0 }

  function Times(k: int, unit: int): int { k * unit }

  lemma ProductAtLeast(k: int, unit: int)
    requires k >= 1 && unit > 0
    ensures Times(k, unit) >= unit
  {
  }

  lemma TimesDifference(q: int, p: int, unit: int)
    ensures Times(q - p, unit) == Times(q, unit) - Times(p, unit)
  {
  }

  lemma DivisorIsUnique(q: int, p: int, unit: int, rest: int)
    requires unit > 0 && 0 <= rest < unit && Times(q, unit) == Times(p, unit) + rest
    ensures rest == 0 && q == p
  {
    TimesDifference(q, p, unit);
    TimesDifference(p, q, unit);
    if q > p { ProductAtLeast(q - p, unit); }
    if q < p { ProductAtLeast(p - q, unit); }
  }

  lemma WholeUnits(n: int, unit: int)
    requires unit > 0
    ensures n == Times(n / unit, unit) + n % unit
  {
  }

  lemma MultipleDivides(k: int, unit: int)
    requires unit > 0
    ensures Times(k, unit) % unit == 0
  {
    var n := Times(k, unit);
    WholeUnits(n, unit);
    DivisorIsUnique(k, n / unit, unit, n % unit);
  }

  lemma MultiplesCompare(m: int, steps: int, unit: int)
    requires unit > 0
    ensures Times(m, unit) <= Times(steps, unit) <==> m <= steps
  {
    TimesDifference(m, steps, unit);
    TimesDifference(steps, m, unit);
    if m > steps { ProductAtLeast(m - steps, unit); }
    if m < steps { ProductAtLeast(steps - m, unit); }
  }

  function Unit(decimals: nat): (unit: int)
    requires decimals <= SCALE_DECIMALS
    ensures unit > 0
  {
    Pow10(SCALE_DECIMALS - decimals)
  }

  lemma UnitOf(decimals: nat)
    requires decimals <= SCALE_DECIMALS
    ensures Unit(SIZE_DECIMALS) == 10000
    ensures Grid(SCALE_DECIMALS) == 1000000.0
    ensures Product(Grid(decimals), Unit(decimals) as real) == 1000000.0
  {
    Pow10Adds(decimals, SCALE_DECIMALS - decimals);
    assert Pow10(2) == 100;
    assert Pow10(4) == 10000;
    assert Pow10(6) == 1000000 by { Pow10Adds(2, 4); }
  }

  /** A grid value in raw units, and back. */
  lemma RawOfGrid(steps: int, decimals: nat)
    requires decimals <= SCALE_DECIMALS
    ensures Raw(OnGrid(steps, decimals)) == Times(steps, Unit(decimals))
    ensures Human(Times(steps, Unit(decimals))) == OnGrid(steps, decimals)
  {
    UnitOf(decimals);
    ScaledGridIsExact(steps, decimals);
    UniqueQuotient(Times(steps, Unit(decimals)) as real, 1000000.0, OnGrid(steps, decimals));
  }

  /** On the grid of `unit`, and no other amount on that grid that the size pays for is larger. */
  ghost predicate SharesRule(shares: int, price: real, size: real, unit: int, other: int)
    requires unit > 0
  {
    shares % unit == 0 && (other % unit == 0 ==> (Product(Human(other), price) <= size <==> other <= shares))
  }

  /** On the grid of `unit`, and nearest to what the shares cost; half a unit is rounded up. */
  ghost predicate UsdRule(usd: int, shares: int, price: real, unit: int)
    requires unit > 0
  {
    && usd % unit == 0
    && -0.5 * unit as real < usd as real - Product(Human(shares), price) * 1000000.0 <= 0.5 * unit as real
  }

  lemma AffordableMultiple(price: real, size: real, decimals: nat, other: int)
    requires price > 0.0 && decimals <= SCALE_DECIMALS && other % Unit(decimals) == 0
    ensures Product(Human(other), price) <= size
       <==> other <= Times(ShareSteps(price, size, decimals), Unit(decimals))
  {
    var m := other / Unit(decimals);
    WholeUnits(other, Unit(decimals));
    RawOfGrid(m, decimals);
    SharesAreTheLargestAffordable(price, size, decimals, m);
    MultiplesCompare(m, ShareSteps(price, size, decimals), Unit(decimals));
  }

  lemma SharesMeetRule(price: real, size: real, decimals: nat, other: int)
    requires price > 0.0 && size >= 0.0 && decimals <= SCALE_DECIMALS
    ensures SharesRule(Raw(OnGrid(ShareSteps(price, size, decimals), decimals)), price, size, Unit(decimals), other)
  {
    var steps := ShareSteps(price, size, decimals);
    RawOfGrid(steps, decimals);
    MultipleDivides(steps, Unit(decimals));
    if other % Unit(decimals) == 0 { AffordableMultiple(price, size, decimals, other); }
  }

  /** Rounding a nonnegative amount misses it by less than half down and at most half up. */
  lemma RoundsToNearest(x: real)
    requires x >= 0.0
    ensures -0.5 < Round(x) as real - x <= 0.5
  {
  }

  lemma ScaledGap(x: real, steps: int, unit: int, y: real)
    requires unit > 0 && Product(x, unit as real) == y && -0.5 < steps as real - x <= 0.5
    ensures -0.5 * unit as real < Times(steps, unit) as real - y <= 0.5 * unit as real
  {
    Strict(-0.5, steps as real - x, unit as real);
    ProductGrows(steps as real - x, 0.5, unit as real);
  }

  lemma ScaledTwice(x: real, a: real, b: real)
    requires Product(a, b) == 1000000.0
    ensures Product(Product(x, a), b) == x * 1000000.0
  {
  }

  lemma UsdMeetsRule(price: real, shares: int, decimals: nat)
    requires price > 0.0 && shares >= 0 && decimals <= SCALE_DECIMALS
    ensures UsdRule(Raw(OnGrid(UsdSteps(price, Human(shares), decimals), decimals)), shares, price, Unit(decimals))
  {
    var steps := UsdSteps(price, Human(shares), decimals);
    var cost := Product(Human(shares), price);
    UnitOf(decimals);
    RawOfGrid(steps, decimals);
    MultipleDivides(steps, Unit(decimals));
    ProductNonNegative(Human(shares), price);
    ProductNonNegative(cost, Grid(decimals));
    RoundsToNearest(Product(cost, Grid(decimals)));
    ScaledTwice(cost, Grid(decimals), Unit(decimals) as real);
    ScaledGap(Product(cost, Grid(decimals)), steps, Unit(decimals), cost * 1000000.0);
  }

  lemma GridAmounts(price: real, size: real, shareDecimals: nat, usdDecimals: nat, other: int)
    requires price > 0.0 && size >= 0.0 && shareDecimals <= SCALE_DECIMALS && usdDecimals <= SCALE_DECIMALS
    ensures var onGrid := OnGrid(ShareSteps(price, size, shareDecimals), shareDecimals);
      var shares, usd := Raw(onGrid), Raw(OnGrid(UsdSteps(price, onGrid, usdDecimals), usdDecimals));
      && shares >= 0 && usd >= 0
      && SharesRule(shares, price, size, Unit(shareDecimals), other)
      && UsdRule(usd, shares, price, Unit(usdDecimals))
  {
    var steps := ShareSteps(price, size, shareDecimals);
    SharesMeetRule(price, size, shareDecimals, other);
    assert Human(Raw(OnGrid(steps, shareDecimals))) == OnGrid(steps, shareDecimals) by {
      RawOfGrid(steps, shareDecimals);
    }
    RawNonNegative(price, size, shareDecimals, usdDecimals);
    UsdMeetsRule(price, Raw(OnGrid(steps, shareDecimals)), usdDecimals);
  }

  lemma RawNonNegative(price: real, size: real, shareDecimals: nat, usdDecimals: nat)
    requires price > 0.0 && size >= 0.0 && shareDecimals <= SCALE_DECIMALS && usdDecimals <= SCALE_DECIMALS
    ensures var onGrid := OnGrid(ShareSteps(price, size, shareDecimals), shareDecimals);
      Raw(onGrid) >= 0 && Raw(OnGrid(UsdSteps(price, onGrid, usdDecimals), usdDecimals)) >= 0
  {
    var steps := ShareSteps(price, size, shareDecimals);
    StepsNonNegative(price, size, shareDecimals, usdDecimals);
    RawOfGrid(steps, shareDecimals);
    RawOfGrid(UsdSteps(price, OnGrid(steps, shareDecimals), usdDecimals), usdDecimals);
    TimesNonNegative(steps, Unit(shareDecimals));
    TimesNonNegative(UsdSteps(price, OnGrid(steps, shareDecimals), usdDecimals), Unit(usdDecimals));
  }

  lemma TimesNonNegative(k: int, unit: int)
    requires k >= 0 && unit > 0
    ensures Times(k, unit) >= 0
  {
  }

  /**
   In raw units of a millionth: shares come in hundredths of a share and dollars on the finer grid,
   except on a market buy, where it is the other way round. Shares are the most the size pays for,
   and dollars the nearest to what they cost.
   */
  lemma AmountsMeetRules(price: real, size: real, side: Side, amountDecimals: nat, isMarket: bool, other: int)
    requires price > 0.0 && size >= 0.0 && amountDecimals <= 6
    ensures var amounts := ComputeAmounts(price, size, side, amountDecimals, isMarket);
      var fine := Pow10(6 - amountDecimals);
      match side
      case Buy =>
        if isMarket then
          SharesRule(amounts.1, price, size, fine, other) && UsdRule(amounts.0, amounts.1, price, 10000)
        else
          SharesRule(amounts.1, price, size, 10000, other) && UsdRule(amounts.0, amounts.1, price, fine)
      case Sell =>
        SharesRule(amounts.0, price, size, 10000, other) && UsdRule(amounts.1, amounts.0, price, fine)
  {
    UnitOf(amountDecimals);
    GridAmounts(price, size, SIZE_DECIMALS, amountDecimals, other);
    GridAmounts(price, size, amountDecimals, SIZE_DECIMALS, other);
  }
}
