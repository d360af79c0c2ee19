/**
 A local order book, and the effective fill price of a trade: the average price paid when
 the ask side is walked from its best level up.
 */
module OrderBook {
  import opened Totals

  datatype Level = Level(price: real, size: real)

  /** A price as a key of a sorted map. */
  datatype OrderedFloat = OrderedFloat(value: real)

  type Side = map<OrderedFloat, real>

  // ---------- Levels in price order ----------

  ghost predicate IsLeast(k: OrderedFloat, keys: set<OrderedFloat>) {
    k in keys && forall j :: j in keys ==> k.value <= j.value
  }

  lemma {:induction false} LeastExists(keys: set<OrderedFloat>)
    requires keys != {}
    ensures exists k :: IsLeast(k, keys)
  {
    var k :| k in keys;
    if keys == {k} {
      assert IsLeast(k, keys);
    } else {
      LeastExists(keys - {k});
      var j :| IsLeast(j, keys - {k});
      assert IsLeast(if k.value <= j.value then k else j, keys);
    }
  }

  ghost function Least(keys: set<OrderedFloat>): (k: OrderedFloat)
    requires keys != {}
    ensures IsLeast(k, keys)
  {
    LeastExists(keys);
    var k :| IsLeast(k, keys);
    k
  }

  /** The levels of a side, in ascending price order, as a sorted map iterates them. */
  ghost function Ascending(m: Side): seq<Level>
    decreases m.Keys
  {
    if m == map[] then [] else
      var k := Least(m.Keys);
      [Level(k.value, m[k])] + Ascending(m - {k})
  }

  method FindLeast(m: Side) returns (k: OrderedFloat)
    requires m != map[]
    ensures k == Least(m.Keys)
  {
    k :| k in m;
    var rest := m.Keys - {k};
    while rest != {}
      invariant k in m && rest <= m.Keys
      invariant forall j :: j in m.Keys - rest ==> k.value <= j.value
      decreases rest
    {
      var j :| j in rest;
      if j.value < k.value {
        k := j;
      }
      rest := rest - {j};
    }
  }

  // ---------- The walk ----------

  datatype Fill = Fill(shares: real, cost: real, remaining: real)

  function Usd(l: Level): real { Product(l.price, l.size) }

  function Walk(levels: seq<Level>, remaining: real): Fill {
    if levels == [] then Fill(0.0, 0.0, remaining) else
      var l := levels[0];
      if Usd(l) <= 0.0 then Walk(levels[1..], remaining)
      else if Usd(l) >= remaining then Fill(remaining / l.price, remaining, 0.0)
      else
        var f := Walk(levels[1..], remaining - Usd(l));
        Fill(l.size + f.shares, Usd(l) + f.cost, f.remaining)
  }

  /** The volume weighted price of a fill; zero when the book is too thin. */
  function PriceOf(f: Fill): real { if f.shares <= 0.0 || f.remaining > 0.0 then 0.0 else f.cost / f.shares }

  ghost function Efp(asks: Side, tradeSize: real): real {
    if asks == map[] || tradeSize <= 0.0 then 0.0 else PriceOf(Walk(Ascending(asks), tradeSize))
  }

  function SideUsd(m: Side): map<OrderedFloat, real> { map p | p in m :: Product(p.value, m[p]) }

  ghost function AskDepth(asks: Side, haircut: real): real { Total(SideUsd(asks)) * haircut }

  // ---------- Book operations ----------

  datatype BookValue = BookValue(asks: Side, bids: Side, lastUpdate: real, lastEfp: real)

  const EmptyBook := BookValue(map[], map[], 0.0, 0.0)

  /** Loading a side: later levels of the same price replace earlier ones, empty levels are dropped. */
  function Load(levels: seq<Level>): Side {
    if levels == [] then map[] else
      var l := levels[|levels| - 1];
      if l.size > 0.0 then Load(levels[..|levels| - 1])[OrderedFloat(l.price) := l.size]
        else Load(levels[..|levels| - 1])
  }

  function Changed(side: Side, price: real, size: real): Side {
    if size <= 0.0 then side - {OrderedFloat(price)} else side[OrderedFloat(price) := size]
  }

  ghost predicate Sized(side: Side) { forall p :: p in side ==> side[p] > 0.0 }

  class OrderBook {
    var asks: Side
    var bids: Side
    var lastUpdate: real
    var lastEfp: real

    function Value(): BookValue
      reads this
    {
      BookValue(asks, bids, lastUpdate, lastEfp)
    }

    constructor ()
      ensures asks == map[] && bids == map[] && lastUpdate == 0.0 && lastEfp == 0.0
    {
      asks, bids, lastUpdate, lastEfp := map[], map[], 0.0, 0.0;
    }

    method EffectiveFillPrice(tradeSize: real) returns (efp: real)
      requires Sized(asks)
      ensures efp == Efp(asks, tradeSize)
    {
      if asks == map[] || tradeSize <= 0.0 {
        return 0.0;
      }
      var remaining, totalShares, totalCost := tradeSize, 0.0, 0.0;
      var rest := asks;
      ghost var goal := Walk(Ascending(asks), tradeSize);
      while rest != map[]
        invariant Sized(rest) && remaining > 0.0
        invariant var f := Walk(Ascending(rest), remaining);
          goal == Fill(totalShares + f.shares, totalCost + f.cost, f.remaining)
        decreases rest.Keys
      {
        var key := FindLeast(rest);
        var price, size := key.value, rest[key];
        var levelUsd := Product(price, size);
        ghost var levels := Ascending(rest);
        assert levels[0] == Level(price, size) && levels[1..] == Ascending(rest - {key});
        rest := rest - {key};
        if levelUsd <= 0.0 {
          continue;
        }
        if levelUsd >= remaining {
          PositiveLevel(price, size);
          totalShares := totalShares + remaining / price;
          totalCost := totalCost + remaining;
          remaining := 0.0;
          break;
        }
        totalShares := totalShares + size;
        totalCost := totalCost + levelUsd;
        remaining := remaining - levelUsd;
      }
      if totalShares <= 0.0 || remaining > 0.0 {
        return 0.0;
      }
      return totalCost / totalShares;
    }

    method AskDepthUsd(haircut: real) returns (usd: real)
      ensures usd == AskDepth(asks, haircut)
    {
      var raw := SumValues(SideUsd(asks));
      return raw * haircut;
    }

    static method LoadSide(levels: seq<Level>) returns (side: Side)
      ensures side == Load(levels)
    {
      side := map[];
      for i := 0 to |levels|
        invariant side == Load(levels[..i])
      {
        assert levels[..i + 1][..i] == levels[..i];
        if levels[i].size > 0.0 {
          side := side[OrderedFloat(levels[i].price) := levels[i].size];
        }
      }
      assert levels[..|levels|] == levels;
    }

    method ApplySnapshot(newAsks: seq<Level>, newBids: seq<Level>, ts: real)
      modifies this`asks, this`bids, this`lastUpdate
      ensures asks == Load(newAsks) && bids == Load(newBids) && lastUpdate == ts
    {
      asks := LoadSide(newAsks);
      bids := LoadSide(newBids);
      lastUpdate := ts;
    }

    method ApplyDelta(isAsk: bool, price: real, size: real, ts: real)
      modifies this`asks, this`bids, this`lastUpdate
      ensures asks == if isAsk then Changed(old(asks), price, size) else old(asks)
      ensures bids == if isAsk then old(bids) else Changed(old(bids), price, size)
      ensures lastUpdate == ts
    {
      var side := if isAsk then asks else bids;
      if size <= 0.0 {
        side := side - {OrderedFloat(price)};
      } else {
        side := side[OrderedFloat(price) := size];
      }
      if isAsk { asks := side; } else { bids := side; }
      lastUpdate := ts;
    }
  }

  lemma PositiveLevel(price: real, size: real)
    requires size > 0.0 && Product(price, size) > 0.0
    ensures price > 0.0
  {
  }

  lemma {:induction false} LoadedIsSized(levels: seq<Level>)
    ensures Sized(Load(levels))
  {
    if levels != [] {
      LoadedIsSized(levels[..|levels| - 1]);
    }
  }

  // ---------- What a side holds ----------

  /** Level updates, in order. */
  function AfterDeltas(side: Side, deltas: seq<Level>): Side {
    if deltas == [] then side
    else Changed(AfterDeltas(side, deltas[..|deltas| - 1]), deltas[|deltas| - 1].price, deltas[|deltas| - 1].size)
  }

  /** The last update of this price. */
  predicate LastOf(deltas: seq<Level>, i: nat)
    requires i < |deltas|
  {
    forall j :: i < j < |deltas| ==> deltas[j].price != deltas[i].price
  }

  /** A level exists exactly when the last size sent for its price was positive, and has that size. */
  lemma {:induction false} LastSizeIsTheLevel(side: Side, deltas: seq<Level>, i: nat)
    requires i < |deltas| && LastOf(deltas, i)
    ensures var k, after := OrderedFloat(deltas[i].price), AfterDeltas(side, deltas);
      (k in after <==> deltas[i].size > 0.0) && (k in after ==> after[k] == deltas[i].size)
  {
    var n := |deltas| - 1;
    if i < n {
      assert forall j :: 0 <= j < n ==> deltas[..n][j] == deltas[j];
      LastSizeIsTheLevel(side, deltas[..n], i);
    }
  }

  /** A price that no update names keeps its level. */
  lemma {:induction false} UnnamedPriceKeeps(side: Side, deltas: seq<Level>, price: real)
    requires forall j :: 0 <= j < |deltas| ==> deltas[j].price != price
    ensures var k, after := OrderedFloat(price), AfterDeltas(side, deltas);
      (k in after <==> k in side) && (k in side ==> after[k] == side[k])
  {
    if deltas != [] {
      var n := |deltas| - 1;
      assert forall j :: 0 <= j < n ==> deltas[..n][j] == deltas[j];
      UnnamedPriceKeeps(side, deltas[..n], price);
    }
  }

  /** The last level of its price that is not empty. */
  predicate LastFilled(levels: seq<Level>, i: nat)
    requires i < |levels|
  {
    && levels[i].size > 0.0
    && forall j :: i < j < |levels| && levels[j].price == levels[i].price ==> levels[j].size <= 0.0
  }

  lemma {:induction false} SnapshotPrices(levels: seq<Level>, price: real)
    ensures OrderedFloat(price) in Load(levels)
       <==> exists i :: 0 <= i < |levels| && levels[i].price == price && levels[i].size > 0.0
  {
    if levels != [] {
      var n := |levels| - 1;
      assert forall j :: 0 <= j < n ==> levels[..n][j] == levels[j];
      SnapshotPrices(levels[..n], price);
      if OrderedFloat(price) in Load(levels[..n]) {
        var i :| 0 <= i < n && levels[..n][i].price == price && levels[..n][i].size > 0.0;
        assert levels[i].price == price && levels[i].size > 0.0;
      }
    }
  }

  /** A snapshot holds, for each price it lists at a positive size, the last such size. */
  lemma {:induction false} SnapshotHolds(levels: seq<Level>, i: nat)
    requires i < |levels| && LastFilled(levels, i)
    ensures var k := OrderedFloat(levels[i].price); k in Load(levels) && Load(levels)[k] == levels[i].size
  {
    var n := |levels| - 1;
    if i < n {
      assert LastFilled(levels[..n], i);
      SnapshotHolds(levels[..n], i);
    }
  }
}
