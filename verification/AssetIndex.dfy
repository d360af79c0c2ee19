/** The indices detection builds over its constraints: which constraints, and which market, an asset belongs to. */
module AssetIndex {
  import opened Detection

  /** One tradable side of a market of a constraint. */
  datatype Listing = Listing(asset: string, constraintId: string, marketId: string, isYes: bool)

  function Sides(m: MarketRef, id: string): seq<Listing> {
    (if m.yesAsset != "" then [Listing(m.yesAsset, id, m.marketId, true)] else [])
    + (if m.noAsset != "" then [Listing(m.noAsset, id, m.marketId, false)] else [])
  }

  function MarketListings(ms: seq<MarketRef>, id: string): seq<Listing> {
    if ms == [] then [] else MarketListings(ms[..|ms| - 1], id) + Sides(ms[|ms| - 1], id)
  }

  function Listings(cs: seq<Constraint>): seq<Listing> {
    if cs == [] then [] else Listings(cs[..|cs| - 1]) + MarketListings(cs[|cs| - 1].markets, cs[|cs| - 1].id)
  }

  datatype Index = Index(
    toConstraints: map<string, seq<string>>, toMarket: map<string, (string, bool)>, all: seq<string>,
    toAssets: map<string, seq<string>>)
  {
    /** Constraints are appended, the first market is kept, every asset is listed. */
    function Add(l: Listing): Index {
      this.(toConstraints := toConstraints[l.asset :=
              (if l.asset in toConstraints then toConstraints[l.asset] else []) + [l.constraintId]],
            toMarket := if l.asset in toMarket then toMarket else toMarket[l.asset := (l.marketId, l.isYes)],
            all := all + [l.asset])
    }

    function AddAll(ls: seq<Listing>): Index {
      if ls == [] then this else AddAll(ls[..|ls| - 1]).Add(ls[|ls| - 1])
    }
  }

  function Assets(ls: seq<Listing>): (r: seq<string>)
    ensures |r| == |ls|
  {
    seq(|ls|, i requires 0 <= i < |ls| => ls[i].asset)
  }

  function IndexOf(cs: seq<Constraint>): Index {
    if cs == [] then Index(map[], map[], [], map[]) else
      var c := cs[|cs| - 1];
      var i := IndexOf(cs[..|cs| - 1]).AddAll(MarketListings(c.markets, c.id));
      i.(toAssets := i.toAssets[c.id := Assets(MarketListings(c.markets, c.id))])
  }

  method AddSide(i: Index, assets: seq<string>, l: Listing) returns (next: Index, more: seq<string>)
    ensures next == i.Add(l) && more == assets + [l.asset]
  {
    var ids := if l.asset in i.toConstraints then i.toConstraints[l.asset] else [];
    next := i.(toConstraints := i.toConstraints[l.asset := ids + [l.constraintId]], all := i.all + [l.asset]);
    if l.asset !in i.toMarket {
      next := next.(toMarket := i.toMarket[l.asset := (l.marketId, l.isYes)]);
    }
    more := assets + [l.asset];
  }

  lemma {:induction false} AddAllAppend(i: Index, a: seq<Listing>, b: seq<Listing>)
    ensures i.AddAll(a + b) == i.AddAll(a).AddAll(b)
    ensures Assets(a + b) == Assets(a) + Assets(b)
  {
    if b == [] {
      assert a + b == a;
    } else {
      assert (a + b)[..|a + b| - 1] == a + b[..|b| - 1];
      AddAllAppend(i, a, b[..|b| - 1]);
    }
  }

  method AddMarket(i: Index, assets: seq<string>, m: MarketRef, id: string) returns (next: Index, more: seq<string>)
    ensures next == i.AddAll(Sides(m, id)) && more == assets + Assets(Sides(m, id))
  {
    var yes, no := Listing(m.yesAsset, id, m.marketId, true), Listing(m.noAsset, id, m.marketId, false);
    AddAllAppend(i, if m.yesAsset != "" then [yes] else [], if m.noAsset != "" then [no] else []);
    assert [yes][..0] == [] && [no][..0] == [];
    next, more := i, assets;
    if m.yesAsset != "" {
      next, more := AddSide(next, more, yes);
    }
    if m.noAsset != "" {
      next, more := AddSide(next, more, no);
    }
  }

  method IndexConstraint(i: Index, c: Constraint) returns (next: Index, assets: seq<string>)
    ensures next == i.AddAll(MarketListings(c.markets, c.id)) && assets == Assets(MarketListings(c.markets, c.id))
  {
    next, assets := i, [];
    for k := 0 to |c.markets|
      invariant next == i.AddAll(MarketListings(c.markets[..k], c.id))
      invariant assets == Assets(MarketListings(c.markets[..k], c.id))
    {
      assert c.markets[..k + 1][..k] == c.markets[..k];
      AddAllAppend(i, MarketListings(c.markets[..k], c.id), Sides(c.markets[k], c.id));
      next, assets := AddMarket(next, assets, c.markets[k], c.id);
    }
    assert c.markets[..|c.markets|] == c.markets;
  }

  method BuildIndex(cs: seq<Constraint>) returns (index: Index)
    ensures index == IndexOf(cs)
  {
    index := Index(map[], map[], [], map[]);
    for k := 0 to |cs|
      invariant index == IndexOf(cs[..k])
    {
      assert cs[..k + 1][..k] == cs[..k];
      var assets;
      index, assets := IndexConstraint(index, cs[k]);
      index := index.(toAssets := index.toAssets[cs[k].id := assets]);
    }
    assert cs[..|cs|] == cs;
  }

  // ---------- The indices mirror the constraints ----------

  /** The constraint trades the asset, on one side or the other of one of its markets. */
  ghost predicate Trades(c: Constraint, asset: string) {
    asset != "" && exists m :: m in c.markets && (m.yesAsset == asset || m.noAsset == asset)
  }

  lemma {:induction false} MarketListingsExact(ms: seq<MarketRef>, id: string, asset: string)
    ensures asset in Assets(MarketListings(ms, id))
       <==> asset != "" && exists m :: m in ms && (m.yesAsset == asset || m.noAsset == asset)
    ensures forall l :: l in MarketListings(ms, id) ==> l.constraintId == id
  {
    if ms != [] {
      var n := |ms| - 1;
      MarketListingsExact(ms[..n], id, asset);
      assert ms == ms[..n] + [ms[n]];
      var a, b := MarketListings(ms[..n], id), Sides(ms[n], id);
      assert Assets(a + b) == Assets(a) + Assets(b);
      SidesExact(ms[n], id, asset);
    }
  }

  lemma SidesExact(m: MarketRef, id: string, asset: string)
    ensures asset in Assets(Sides(m, id)) <==> asset != "" && (m.yesAsset == asset || m.noAsset == asset)
    ensures forall l :: l in Sides(m, id) ==> l.constraintId == id
  {
    var ls := Sides(m, id);
    assert Assets(ls)
           == (if m.yesAsset != "" then [m.yesAsset] else []) + (if m.noAsset != "" then [m.noAsset] else []);
  }

  lemma {:induction false} AddAllExact(i: Index, ls: seq<Listing>, id: string, asset: string)
    requires forall l :: l in ls ==> l.constraintId == id
    ensures i.AddAll(ls).toAssets == i.toAssets && i.AddAll(ls).all == i.all + Assets(ls)
    ensures asset in i.AddAll(ls).toConstraints <==> asset in i.toConstraints || asset in Assets(ls)
    ensures asset in i.AddAll(ls).toConstraints ==>
      forall k :: k in i.AddAll(ls).toConstraints[asset]
             <==> (asset in i.toConstraints && k in i.toConstraints[asset]) || (k == id && asset in Assets(ls))
  {
    if ls == [] {
      assert i.all + Assets(ls) == i.all;
    } else {
      var n := |ls| - 1;
      AddAllExact(i, ls[..n], id, asset);
      assert Assets(ls) == Assets(ls[..n]) + [ls[n].asset];
      assert ls[n] in ls;
    }
  }

  ghost predicate Notifies(i: Index, asset: string, id: string) {
    asset in i.toConstraints && id in i.toConstraints[asset]
  }

  lemma NotifiesOneMore(cs: seq<Constraint>, asset: string, id: string)
    requires cs != []
    ensures var n := |cs| - 1;
      Notifies(IndexOf(cs), asset, id)
      <==> Notifies(IndexOf(cs[..n]), asset, id) || (cs[n].id == id && Trades(cs[n], asset))
  {
    var n := |cs| - 1;
    var ls := MarketListings(cs[n].markets, cs[n].id);
    MarketListingsExact(cs[n].markets, cs[n].id, asset);
    AddAllExact(IndexOf(cs[..n]), ls, cs[n].id, asset);
    assert asset in Assets(ls) <==> Trades(cs[n], asset);
  }

  ghost predicate SomeTrades(cs: seq<Constraint>, asset: string, id: string) {
    exists c :: c in cs && c.id == id && Trades(c, asset)
  }

  lemma TradesOneMore(cs: seq<Constraint>, asset: string, id: string)
    requires cs != []
    ensures var n := |cs| - 1;
      SomeTrades(cs, asset, id) <==> SomeTrades(cs[..n], asset, id) || (cs[n].id == id && Trades(cs[n], asset))
  {
    assert cs == cs[..|cs| - 1] + [cs[|cs| - 1]];
  }

  /** A price move of an asset reaches exactly the constraints that trade it. */
  lemma {:induction false} NotifiesExactly(cs: seq<Constraint>, asset: string, id: string)
    ensures Notifies(IndexOf(cs), asset, id) <==> SomeTrades(cs, asset, id)
  {
    if cs != [] {
      NotifiesExactly(cs[..|cs| - 1], asset, id);
      NotifiesOneMore(cs, asset, id);
      TradesOneMore(cs, asset, id);
    }
  }

  /** Which assets a constraint is said to trade is right for every constraint when no two share an id. */
  lemma {:induction false} AssetsOfConstraint(cs: seq<Constraint>, k: nat, asset: string)
    requires k < |cs| && forall i, j :: 0 <= i < j < |cs| ==> cs[i].id != cs[j].id
    ensures cs[k].id in IndexOf(cs).toAssets
    ensures asset in IndexOf(cs).toAssets[cs[k].id] <==> Trades(cs[k], asset)
  {
    var n := |cs| - 1;
    var ls := MarketListings(cs[n].markets, cs[n].id);
    MarketListingsExact(cs[n].markets, cs[n].id, asset);
    AddAllExact(IndexOf(cs[..n]), ls, cs[n].id, asset);
    if k < n {
      AssetsOfConstraint(cs[..n], k, asset);
    }
  }

  lemma {:induction false} MarketIsKept(i: Index, ls: seq<Listing>, asset: string)
    requires asset in i.toMarket
    ensures asset in i.AddAll(ls).toMarket && i.AddAll(ls).toMarket[asset] == i.toMarket[asset]
  {
    if ls != [] { MarketIsKept(i, ls[..|ls| - 1], asset); }
  }

  lemma {:induction false} NoMarketYet(i: Index, ls: seq<Listing>, asset: string)
    requires asset !in i.toMarket && forall k :: 0 <= k < |ls| ==> ls[k].asset != asset
    ensures asset !in i.AddAll(ls).toMarket
  {
    if ls != [] { NoMarketYet(i, ls[..|ls| - 1], asset); }
  }

  /** The first listing of an asset names its market and side for good. */
  lemma {:induction false} FirstMarketIsKept(i: Index, ls: seq<Listing>, k: nat)
    requires k < |ls| && ls[k].asset !in i.toMarket && forall j :: 0 <= j < k ==> ls[j].asset != ls[k].asset
    ensures var m := i.AddAll(ls).toMarket;
      ls[k].asset in m && m[ls[k].asset] == (ls[k].marketId, ls[k].isYes)
  {
    var n := |ls| - 1;
    if k == n {
      NoMarketYet(i, ls[..n], ls[n].asset);
    } else {
      FirstMarketIsKept(i, ls[..n], k);
    }
  }
}
