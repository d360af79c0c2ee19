/**
 The optimiser's fallback does report opportunities: two markets at 0.31 and 0.60, three
 iterations, and a profit cap that the direct buy-all exceeds and the optimiser does not.
 So the conditions under which the fallback theorems speak can all be met at once.
 */
module FallbackWitness {
  import opened Totals
  import opened Arbitrage

  const YES := [0.31, 0.6]
  const NO := [0.69, 0.4]
  const IDS := ["a", "b"]
  const CAPITAL := 5.58
  const MIN_PROFIT := 0.01
  const CAP := 0.08

  function Winners(): seq<Outcome> { [[1.0, 0.0], [0.0, 1.0]] }

  lemma TwoOutcomes()
    ensures Scenarios(2, Mutex, []) == Winners()
  {
    assert OneHot(2, 0) == [1.0, 0.0] && OneHot(2, 1) == [0.0, 1.0];
  }

  lemma DotOfTwo(a: seq<real>, b: seq<real>)
    requires |a| == |b| == 2
    ensures Dot(a, b) == Product(a[0], b[0]) + Product(a[1], b[1])
  {
    assert a[..1][..0] == [] && b[..1][..0] == [];
    assert Dot(a[..1], b[..1]) == Dot(a[..1][..0], b[..1][..0]) + Product(a[0], b[0]);
  }

  lemma SumOfTwo(s: seq<real>)
    requires |s| == 2
    ensures Sum(s) == s[0] + s[1]
  {
    assert s[..1][..0] == [];
    assert Sum(s[..1]) == Sum(s[..1][..0]) + s[0];
  }

  lemma DistanceOfTwo(a: seq<real>, b: seq<real>)
    requires |a| == |b| == 2
    ensures SquaredDistance(a, b) == Product(a[0] - b[0], a[0] - b[0]) + Product(a[1] - b[1], a[1] - b[1])
  {
    assert a[..1][..0] == [] && b[..1][..0] == [];
    assert SquaredDistance(a[..1], b[..1])
        == SquaredDistance(a[..1][..0], b[..1][..0]) + Product(a[0] - b[0], a[0] - b[0]);
  }

  lemma WinnerPays(y: seq<real>, i: nat)
    requires |y| == 2 && i < 2
    ensures Dot(Winners()[i], y) == y[i]
  {
    DotOfTwo(Winners()[i], y);
  }

  /** The worst outcome of two markets is the one with fewer shares. */
  lemma WorstOfTwo(y: seq<real>)
    requires |y| == 2
    ensures Worst(Winners(), y, 2) == if y[1] < y[0] then 1 else 0
    ensures Guaranteed(Winners(), y) == Min(y[0], y[1])
  {
    WinnerPays(y, 0);
    WinnerPays(y, 1);
    var w := Worst(Winners(), y, 2);
    assert Dot(Winners()[w], y) == y[w];
  }

  /** The step goes to the market with fewer shares. */
  lemma VertexOfTwo(y: seq<real>)
    requires |y| == 2
    ensures Vertex(Winners(), YES, y, CAPITAL) == if y[1] < y[0] then [0.0, 9.3] else [18.0, 0.0]
  {
    WorstOfTwo(y);
    var grad := Winners()[Worst(Winners(), y, 2)];
    assert Best(grad, YES, 2) == if y[1] < y[0] then 1 else 0;
    assert CAPITAL / YES[0] == 18.0 && CAPITAL / YES[1] == 9.3;
  }

  lemma OneStep(y: seq<real>, t: nat, next: seq<real>)
    requires |y| == |next| == 2 && t < 3
    requires next == Mix(y, if y[1] < y[0] then [0.0, 9.3] else [18.0, 0.0], Gamma(t))
    requires Abs(next[0] - y[0]) >= 1.0
    ensures Iterate(Winners(), YES, CAPITAL, y, t, 3) == Iterate(Winners(), YES, CAPITAL, next, t + 1, 3)
  {
    VertexOfTwo(y);
    DistanceOfTwo(next, y);
    SquareGrows(next[0] - y[0]);
    SquareGrows(next[1] - y[1]);
  }

  lemma SquareGrows(d: real)
    ensures Product(d, d) >= 0.0 && (Abs(d) >= 1.0 ==> Product(d, d) >= 1.0)
  {
  }

  lemma StartingPoint()
    ensures Clamped(YES) == YES && Sum(YES) == 0.91
    ensures var y := Start(YES, CAPITAL); 19.0 < y[0] < 20.0 && 10.0 < y[1] < 11.0
  {
    SumOfTwo(YES);
    var y := Start(YES, CAPITAL);
    assert CAPITAL / 0.91 * 0.91 == CAPITAL;
    assert (CAPITAL / 0.91 / 0.31) * 0.31 == CAPITAL / 0.91 && (CAPITAL / 0.91 / 0.6) * 0.6 == CAPITAL / 0.91;
  }

  lemma FirstStep(y: seq<real>)
    requires |y| == 2 && 19.0 < y[0] < 20.0 && 10.0 < y[1] < 11.0
    ensures Iterate(Winners(), YES, CAPITAL, y, 0, 3) == Iterate(Winners(), YES, CAPITAL, [0.0, 9.3], 1, 3)
  {
    assert Mix(y, [0.0, 9.3], Gamma(0)) == [0.0, 9.3];
    OneStep(y, 0, [0.0, 9.3]);
  }

  lemma LaterSteps()
    ensures Iterate(Winners(), YES, CAPITAL, [0.0, 9.3], 1, 3) == [6.0, 6.2]
  {
    assert Mix([0.0, 9.3], [18.0, 0.0], Gamma(1)) == [12.0, 3.1];
    OneStep([0.0, 9.3], 1, [12.0, 3.1]);
    assert Mix([12.0, 3.1], [0.0, 9.3], Gamma(2)) == [6.0, 6.2];
    OneStep([12.0, 3.1], 2, [6.0, 6.2]);
  }

  lemma ThreeIterations()
    ensures Holdings(YES, Mutex, CAPITAL, [], 3) == [6.0, 6.2]
  {
    TwoOutcomes();
    StartingPoint();
    FirstStep(Start(YES, CAPITAL));
    LaterSteps();
    assert NonNegativePart([6.0, 6.2]) == [6.0, 6.2];
  }

  lemma OptimiserAccepts()
    ensures PolytopeArb(IDS, YES, Mutex, CAPITAL, 0.0, MIN_PROFIT, CAP, [], 3).Some?
  {
    ThreeIterations();
    TwoOutcomes();
    SumOfTwo(YES);
    WorstOfTwo([6.0, 6.2]);
    assert Floor(YES, Mutex, CAPITAL, [], 3) == 6.0;
    assert (6.0 - CAPITAL) / CAPITAL * CAPITAL == 0.42;
  }

  lemma DirectCheckRejects()
    ensures CheckMutexArb(IDS, YES, NO, CAPITAL, 0.0, MIN_PROFIT, CAP, true).None?
  {
    SumOfTwo(YES);
    var payout := CAPITAL / 0.91;
    assert payout * 0.91 == 5.58;
    assert NetPct(payout, CAPITAL, 0.0) * CAPITAL == payout - CAPITAL;
  }

  /** The direct check rejects this set as too profitable, and the optimiser then accepts it. */
  lemma FallbackHappens()
    ensures CheckMutexArb(IDS, YES, NO, CAPITAL, 0.0, MIN_PROFIT, CAP, true).None?
    ensures PolytopeArb(IDS, YES, Mutex, CAPITAL, 0.0, MIN_PROFIT, CAP, [], 3).Some?
  {
    DirectCheckRejects();
    OptimiserAccepts();
  }
}
