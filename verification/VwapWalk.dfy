/** What the effective fill price means: the walk is the best way to spend, and its price behaves. */
module VwapWalk {
  import opened Totals
  import opened Arithmetic
  import opened OrderBook

  // ---------- Ascending levels ----------

  ghost predicate Sorted(levels: seq<Level>) {
    forall i, j :: 0 <= i < j < |levels| ==> levels[i].price <= levels[j].price
  }

  ghost predicate PricesAtLeast(levels: seq<Level>, p: real) { forall i :: 0 <= i < |levels| ==> levels[i].price >= p }

  ghost predicate Positives(levels: seq<Level>) {
    forall i :: 0 <= i < |levels| ==> levels[i].price > 0.0 && levels[i].size > 0.0
  }

  function Depth(levels: seq<Level>): real { if levels == [] then 0.0 else Usd(levels[0]) + Depth(levels[1..]) }

  ghost predicate PositiveSide(side: Side) { forall k :: k in side ==> k.value > 0.0 && side[k] > 0.0 }

  lemma {:induction false} AscendingIsSorted(side: Side, bound: real)
    requires PositiveSide(side) && forall k :: k in side ==> k.value >= bound
    ensures Positives(Ascending(side)) && Sorted(Ascending(side)) && PricesAtLeast(Ascending(side), bound)
    decreases side.Keys
  {
    if side != map[] {
      var k := Least(side.Keys);
      AscendingIsSorted(side - {k}, k.value);
      assert Ascending(side) == [Level(k.value, side[k])] + Ascending(side - {k});
    }
  }

  lemma {:induction false} AscendingDepth(side: Side)
    ensures Depth(Ascending(side)) == Total(SideUsd(side))
    decreases side.Keys
  {
    if side == map[] {
      assert SideUsd(side) == map[];
    } else {
      var k := Least(side.Keys);
      AscendingDepth(side - {k});
      TotalRemove(SideUsd(side), k);
      assert SideUsd(side) - {k} == SideUsd(side - {k});
      assert Ascending(side)[1..] == Ascending(side - {k});
    }
  }

  lemma AscendingLevels(side: Side)
    requires PositiveSide(side)
    ensures Positives(Ascending(side)) && Sorted(Ascending(side))
    ensures Depth(Ascending(side)) == AskDepth(side, 1.0)
    ensures side == map[] ==> AskDepth(side, 1.0) == 0.0
  {
    AscendingIsSorted(side, 0.0);
    AscendingDepth(side);
  }

  lemma UsdPositive(l: Level)
    requires l.price > 0.0 && l.size > 0.0
    ensures Usd(l) > 0.0
  {
  }

  lemma {:induction false} DepthNonNegative(levels: seq<Level>)
    requires Positives(levels)
    ensures Depth(levels) >= 0.0
  {
    if levels != [] {
      UsdPositive(levels[0]);
      DepthNonNegative(levels[1..]);
    }
  }

  // ---------- What is spent ----------

  /** The walk spends what it can: all of the size if the book is deep enough, else the whole book. */
  lemma {:induction false} WalkSpends(levels: seq<Level>, size: real)
    requires Positives(levels) && size >= 0.0
    ensures var f := Walk(levels, size);
      && f.cost + f.remaining == size && f.remaining >= 0.0 && f.shares >= 0.0
      && (size > 0.0 ==> (f.remaining == 0.0 <==> size <= Depth(levels)))
      && (f.cost > 0.0 ==> f.shares > 0.0)
  {
    if levels != [] {
      var l := levels[0];
      UsdPositive(l);
      if Usd(l) >= size {
        QuotientNonNegative(size, l.price);
        if size > 0.0 { Positive(size, l.price); }
        DepthNonNegative(levels[1..]);
      } else {
        WalkSpends(levels[1..], size - Usd(l));
      }
    }
  }

  function SharesFor(levels: seq<Level>, size: real): real { Walk(levels, size).shares }

  // ---------- Greedy is optimal ----------

  /** A way to spend: an amount per level, within what the level offers. */
  ghost predicate Allocation(levels: seq<Level>, spends: seq<real>) {
    |spends| == |levels| && forall i :: 0 <= i < |levels| ==> 0.0 <= spends[i] <= Usd(levels[i])
  }

  function Spent(spends: seq<real>): real { if spends == [] then 0.0 else spends[0] + Spent(spends[1..]) }

  function Obtained(levels: seq<Level>, spends: seq<real>): real
    requires |spends| == |levels| && forall i :: 0 <= i < |levels| ==> levels[i].price > 0.0
  {
    if levels == [] then 0.0 else spends[0] / levels[0].price + Obtained(levels[1..], spends[1..])
  }

  lemma QuotientAdds(a: real, b: real, c: real)
    requires c > 0.0
    ensures (a + b) / c == a / c + b / c
  {
  }

  lemma LargerDivisor(a: real, b: real, c: real)
    requires a >= 0.0 && 0.0 < b <= c
    ensures a / c <= a / b
  {
  }

  lemma WholeLevel(l: Level)
    requires l.price > 0.0
    ensures Usd(l) / l.price == l.size
  {
  }

  lemma {:induction false} SharesAtZero(levels: seq<Level>)
    requires Positives(levels)
    ensures SharesFor(levels, 0.0) == 0.0
  {
  }

  /** One more dollar buys at most one dollar's worth at the cheapest price on offer. */
  lemma {:induction false} SharesGrowSlowly(levels: seq<Level>, size: real, more: real, p: real)
    requires Positives(levels) && PricesAtLeast(levels, p) && p > 0.0 && size >= 0.0 && more >= 0.0
    ensures SharesFor(levels, size) <= SharesFor(levels, size + more) <= SharesFor(levels, size) + more / p
  {
    QuotientNonNegative(more, p);
    if levels != [] {
      var l := levels[0];
      UsdPositive(l);
      WholeLevel(l);
      if Usd(l) >= size + more {
        QuotientAdds(size, more, l.price);
        QuotientNonNegative(more, l.price);
        LargerDivisor(more, p, l.price);
      } else if Usd(l) >= size {
        var rest := size + more - Usd(l);
        QuotientAdds(size, Usd(l) - size, l.price);
        QuotientNonNegative(Usd(l) - size, l.price);
        LargerDivisor(Usd(l) - size, p, l.price);
        SharesGrowSlowly(levels[1..], 0.0, rest, p);
        SharesAtZero(levels[1..]);
        QuotientAdds(Usd(l) - size, rest, p);
      } else {
        SharesGrowSlowly(levels[1..], size - Usd(l), more, p);
      }
    }
  }

  lemma {:induction false} SpentNonNegative(spends: seq<real>)
    requires forall i :: 0 <= i < |spends| ==> spends[i] >= 0.0
    ensures Spent(spends) >= 0.0
  {
    if spends != [] { SpentNonNegative(spends[1..]); }
  }

  /** Spending within one level buys at most what that level's price gives for everything spent. */
  lemma {:induction false} ObtainedAtMost(levels: seq<Level>, spends: seq<real>, p: real)
    requires Positives(levels) && Allocation(levels, spends) && PricesAtLeast(levels, p) && p > 0.0
    ensures Obtained(levels, spends) <= Spent(spends) / p
  {
    if levels != [] {
      ObtainedAtMost(levels[1..], spends[1..], p);
      LargerDivisor(spends[0], p, levels[0].price);
      QuotientAdds(spends[0], Spent(spends[1..]), p);
    }
  }

  /** No way of spending the trade size across the asks buys more shares than the walk. */
  lemma {:induction false} GreedyIsOptimal(levels: seq<Level>, spends: seq<real>)
    requires Positives(levels) && Sorted(levels) && Allocation(levels, spends)
    ensures Obtained(levels, spends) <= SharesFor(levels, Spent(spends))
  {
    if levels != [] {
      var l := levels[0];
      var rest := Spent(spends[1..]);
      UsdPositive(l);
      SpentNonNegative(spends[1..]);
      if Usd(l) >= spends[0] + rest {
        ObtainedAtMost(levels, spends, l.price);
      } else {
        GreedyIsOptimal(levels[1..], spends[1..]);
        var more := Usd(l) - spends[0];
        SharesGrowSlowly(levels[1..], rest - more, more, l.price);
        WholeLevel(l);
        QuotientAdds(spends[0], more, l.price);
      }
    }
  }

  // ---------- The price ----------

  /** The walk's own way of spending. */
  function Greedy(levels: seq<Level>, size: real): (spends: seq<real>)
    ensures |spends| == |levels|
  {
    if levels == [] then [] else
      var first := Min(size, Usd(levels[0]));
      [first] + Greedy(levels[1..], size - first)
  }

  lemma {:induction false} GreedyAllocates(levels: seq<Level>, size: real)
    requires Positives(levels) && 0.0 <= size <= Depth(levels)
    ensures Allocation(levels, Greedy(levels, size)) && Spent(Greedy(levels, size)) == size
    ensures Obtained(levels, Greedy(levels, size)) == SharesFor(levels, size)
  {
    if levels != [] {
      var l := levels[0];
      UsdPositive(l);
      WholeLevel(l);
      DepthNonNegative(levels[1..]);
      GreedyAllocates(levels[1..], size - Min(size, Usd(l)));
      if Usd(l) >= size { SharesAtZero(levels[1..]); }
    }
  }

  function ScaledSpends(spends: seq<real>, c: real): (r: seq<real>)
    ensures |r| == |spends|
  {
    seq(|spends|, i requires 0 <= i < |spends| => Product(c, spends[i]))
  }

  lemma {:induction false} ScaledAllocation(levels: seq<Level>, spends: seq<real>, c: real)
    requires Positives(levels) && Allocation(levels, spends) && 0.0 <= c <= 1.0
    ensures Allocation(levels, ScaledSpends(spends, c))
    ensures Spent(ScaledSpends(spends, c)) == Product(c, Spent(spends))
    ensures Obtained(levels, ScaledSpends(spends, c)) == Product(c, Obtained(levels, spends))
  {
    forall i | 0 <= i < |spends| ensures 0.0 <= Product(c, spends[i]) <= Usd(levels[i]) {
      ProductNonNegative(c, spends[i]);
      ProductGrows(c, 1.0, spends[i]);
    }
    if levels != [] {
      ScaledAllocation(levels[1..], spends[1..], c);
      assert ScaledSpends(spends, c)[1..] == ScaledSpends(spends[1..], c);
      ProductAdds(c, spends[0], Spent(spends[1..]));
      ProductAdds(c, spends[0] / levels[0].price, Obtained(levels[1..], spends[1..]));
      QuotientSwap(c, spends[0], levels[0].price);
      ScaledQuotient(c, spends[0], levels[0].price);
    }
  }

  lemma ScaledQuotient(c: real, a: real, b: real)
    requires b > 0.0
    ensures Product(c, a) / b == Product(c, a / b)
  {
  }

  /** Shares have diminishing returns: a fraction of the size buys at least that fraction of the shares. */
  lemma FractionBuysMore(levels: seq<Level>, size: real, c: real)
    requires Positives(levels) && Sorted(levels) && 0.0 <= size <= Depth(levels) && 0.0 <= c <= 1.0
    ensures Product(c, SharesFor(levels, size)) <= SharesFor(levels, Product(c, size))
  {
    GreedyAllocates(levels, size);
    ScaledAllocation(levels, Greedy(levels, size), c);
    GreedyIsOptimal(levels, ScaledSpends(Greedy(levels, size), c));
  }

  lemma SharesPositive(levels: seq<Level>, size: real)
    requires Positives(levels) && 0.0 < size <= Depth(levels)
    ensures SharesFor(levels, size) > 0.0
    ensures PriceOf(Walk(levels, size)) == size / SharesFor(levels, size) > 0.0
  {
    WalkSpends(levels, size);
    Positive(size, SharesFor(levels, size));
  }

  lemma FractionOf(small: real, large: real)
    requires 0.0 < small <= large
    ensures 0.0 < small / large <= 1.0 && Product(small / large, large) == small
  {
  }

  /** The effective price never falls as the trade grows. */
  lemma PriceNeverFalls(levels: seq<Level>, small: real, large: real)
    requires Positives(levels) && Sorted(levels) && 0.0 < small <= large <= Depth(levels)
    ensures PriceOf(Walk(levels, small)) <= PriceOf(Walk(levels, large))
  {
    SharesPositive(levels, small);
    SharesPositive(levels, large);
    var c := small / large;
    FractionOf(small, large);
    FractionBuysMore(levels, large, c);
    FasterIsCheaper(small, large, SharesFor(levels, small), SharesFor(levels, large), c);
  }

  lemma FasterIsCheaper(small: real, large: real, few: real, many: real, c: real)
    requires 0.0 < small <= large && few > 0.0 && many > 0.0 && c > 0.0 && Product(c, large) == small
             && Product(c, many) <= few
    ensures small / few <= large / many
  {
  }

  lemma {:induction false} SharesAtLeast(levels: seq<Level>, size: real, worst: real)
    requires Positives(levels) && 0.0 <= size <= Depth(levels) && worst > 0.0
    requires forall i :: 0 <= i < |levels| ==> levels[i].price <= worst
    ensures SharesFor(levels, size) >= size / worst
  {
    if levels != [] {
      var l := levels[0];
      UsdPositive(l);
      WholeLevel(l);
      if Usd(l) >= size {
        LargerDivisor(size, l.price, worst);
      } else {
        SharesAtLeast(levels[1..], size - Usd(l), worst);
        LargerDivisor(Usd(l), l.price, worst);
        QuotientAdds(Usd(l), size - Usd(l), worst);
      }
    }
  }

  /** The effective price lies between the best and the worst ask. */
  lemma PriceWithinAsks(levels: seq<Level>, size: real)
    requires Positives(levels) && Sorted(levels) && 0.0 < size <= Depth(levels)
    ensures levels != [] && levels[0].price <= PriceOf(Walk(levels, size)) <= levels[|levels| - 1].price
  {
    var best, worst := levels[0].price, levels[|levels| - 1].price;
    SharesPositive(levels, size);
    var shares := SharesFor(levels, size);
    SharesGrowSlowly(levels, 0.0, size, best);
    SharesAtZero(levels);
    SharesAtLeast(levels, size, worst);
    Inverse(size, shares, best);
    Inverse(size, shares, worst);
  }

  lemma Inverse(a: real, b: real, p: real)
    requires a > 0.0 && b > 0.0 && p > 0.0
    ensures b <= a / p ==> p <= a / b
    ensures b >= a / p ==> p >= a / b
  {
  }

  // ---------- On the book ----------

  /** A price is quoted exactly for positive sizes that the unhaircut ask depth covers. */
  lemma PricedExactlyWhenCovered(asks: Side, size: real)
    requires PositiveSide(asks)
    ensures Efp(asks, size) != 0.0 <==> 0.0 < size <= AskDepth(asks, 1.0)
  {
    var levels := Ascending(asks);
    AscendingLevels(asks);
    if size > 0.0 && asks != map[] {
      WalkSpends(levels, size);
      if size <= Depth(levels) { SharesPositive(levels, size); }
    }
  }

  lemma HaircutScales(size: real, depth: real, haircut: real)
    requires haircut > 0.0
    ensures size <= depth * 1.0 <==> Product(size, haircut) <= depth * haircut
  {
  }

  /** The reported depth is that share of the largest size the book can fill. */
  lemma DepthIsWhatFills(asks: Side, size: real, haircut: real)
    requires PositiveSide(asks) && size > 0.0 && haircut > 0.0
    ensures Efp(asks, size) != 0.0 <==> Product(size, haircut) <= AskDepth(asks, haircut)
  {
    PricedExactlyWhenCovered(asks, size);
    HaircutScales(size, Total(SideUsd(asks)), haircut);
  }

  lemma BookPriceNeverFalls(asks: Side, small: real, large: real)
    requires PositiveSide(asks) && 0.0 < small <= large <= AskDepth(asks, 1.0)
    ensures 0.0 < Efp(asks, small) <= Efp(asks, large)
  {
    AscendingLevels(asks);
    PriceNeverFalls(Ascending(asks), small, large);
    SharesPositive(Ascending(asks), small);
  }

  /** The quoted price lies between the best ask and some other ask of the book. */
  lemma BookPriceWithinAsks(asks: Side, size: real)
    requires PositiveSide(asks) && 0.0 < size <= AskDepth(asks, 1.0)
    ensures asks != map[] && Least(asks.Keys).value <= Efp(asks, size)
    ensures exists k :: k in asks && Efp(asks, size) <= k.value
  {
    AscendingLevels(asks);
    var levels := Ascending(asks);
    PriceWithinAsks(levels, size);
    var k := AscendingKey(asks, |levels| - 1);
  }

  lemma {:induction false} AscendingKey(side: Side, i: nat) returns (k: OrderedFloat)
    requires i < |Ascending(side)|
    ensures k in side && k.value == Ascending(side)[i].price
    decreases i
  {
    k := Least(side.Keys);
    if i > 0 { k := AscendingKey(side - {k}, i - 1); }
  }
}
