/**
 What a reconciliation report says, in terms of the legs held and the positions the venue lists:
 which markets are reported missing on either side or mismatched, and with which figures.
 */
module ReportMeaning {
  import opened Totals
  import opened Reconciliation
  import opened ReconciliationFixpoint

  // ---------- Figures ----------

  /** The sizes the venue lists for a market, and for an asset. */
  function MarketSizes(venue: seq<VenuePosition>, mid: string): seq<real> {
    if venue == [] then [] else
      var v := venue[|venue| - 1];
      MarketSizes(venue[..|venue| - 1], mid) + (if v.market == mid then [v.size] else [])
  }

  function AssetSizes(venue: seq<VenuePosition>, asset: string): seq<real> {
    if venue == [] then [] else
      var v := venue[|venue| - 1];
      AssetSizes(venue[..|venue| - 1], asset) + (if v.asset == asset then [v.size] else [])
  }

  function LegSizes(rows: seq<Row>, mid: string): seq<real> {
    if rows == [] then [] else
      var r := rows[|rows| - 1];
      LegSizes(rows[..|rows| - 1], mid) + (if r.mid == mid then [r.shares] else [])
  }

  lemma SumOfOneMore(s: seq<real>, x: real)
    ensures Sum(s + [x]) == Sum(s) + x && Sum(s + []) == Sum(s)
  {
    assert (s + [x])[..|s|] == s && s + [] == s;
  }

  lemma {:induction false} MarketFigure(venue: seq<VenuePosition>, mid: string)
    ensures mid in ByMarket(venue) <==> MarketSizes(venue, mid) != []
    ensures mid in ByMarket(venue) ==> ByMarket(venue)[mid] == Sum(MarketSizes(venue, mid))
  {
    if venue != [] {
      var n := |venue| - 1;
      MarketFigure(venue[..n], mid);
      SumOfOneMore(MarketSizes(venue[..n], mid), venue[n].size);
    }
  }

  lemma {:induction false} AssetFigure(venue: seq<VenuePosition>, asset: string)
    ensures asset in ByAsset(venue) <==> AssetSizes(venue, asset) != []
    ensures asset in ByAsset(venue) ==> ByAsset(venue)[asset] == Sum(AssetSizes(venue, asset))
  {
    if venue != [] {
      var n := |venue| - 1;
      AssetFigure(venue[..n], asset);
      SumOfOneMore(AssetSizes(venue[..n], asset), venue[n].size);
    }
  }

  lemma {:induction false} LegFigure(rows: seq<Row>, mid: string)
    ensures mid in Grouped(rows) <==> LegSizes(rows, mid) != []
    ensures mid in Grouped(rows) ==> Grouped(rows)[mid].shares == Sum(LegSizes(rows, mid))
  {
    if rows != [] {
      var n := |rows| - 1;
      LegFigure(rows[..n], mid);
      SumOfOneMore(LegSizes(rows[..n], mid), rows[n].shares);
    }
  }

  // ---------- First legs and first listings ----------

  /** The first leg of its market names the group and carries the token it is looked up by. */
  ghost predicate FirstLeg(rows: seq<Row>, i: nat)
    requires i < |rows|
  {
    forall j :: 0 <= j < i ==> rows[j].mid != rows[i].mid
  }

  ghost predicate FirstListing(venue: seq<VenuePosition>, i: nat)
    requires i < |venue|
  {
    forall j :: 0 <= j < i ==> venue[j].market != venue[i].market
  }

  lemma {:induction false} FirstLegNames(rows: seq<Row>, i: nat)
    requires i < |rows| && FirstLeg(rows, i)
    ensures rows[i].mid in Grouped(rows)
    ensures Grouped(rows)[rows[i].mid].pid == rows[i].pid && Grouped(rows)[rows[i].mid].token == rows[i].token
  {
    var n := |rows| - 1;
    if i < n {
      assert FirstLeg(rows[..n], i);
      FirstLegNames(rows[..n], i);
    } else {
      NoLegNoGroup(rows[..n], rows[n].mid);
    }
  }

  lemma {:induction false} NoLegNoGroup(rows: seq<Row>, mid: string)
    ensures mid in Grouped(rows) <==> exists i :: 0 <= i < |rows| && rows[i].mid == mid
  {
    if rows != [] {
      var n := |rows| - 1;
      NoLegNoGroup(rows[..n], mid);
      if mid in Grouped(rows[..n]) {
        var i :| 0 <= i < n && rows[..n][i].mid == mid;
        assert rows[i].mid == mid;
      } else {
        assert forall i :: 0 <= i < n ==> rows[..n][i] == rows[i];
      }
    }
  }

  lemma {:induction false} SomeFirstLeg(rows: seq<Row>, mid: string) returns (i: nat)
    requires mid in Grouped(rows)
    ensures i < |rows| && rows[i].mid == mid && FirstLeg(rows, i)
  {
    var n := |rows| - 1;
    if mid in Grouped(rows[..n]) {
      i := SomeFirstLeg(rows[..n], mid);
    } else {
      NoLegNoGroup(rows[..n], mid);
      forall j | 0 <= j < n ensures rows[j].mid != mid { assert rows[..n][j] == rows[j]; }
      i := n;
    }
  }

  lemma {:induction false} FirstListingNames(venue: seq<VenuePosition>, i: nat)
    requires i < |venue| && FirstListing(venue, i)
    ensures FirstAsset(venue, venue[i].market) == venue[i].asset
  {
    if i > 0 {
      forall j | 0 <= j < i - 1 ensures venue[1..][j].market != venue[1..][i - 1].market {
        assert venue[1..][j] == venue[j + 1];
      }
      assert venue[0].market != venue[i].market;
      FirstListingNames(venue[1..], i - 1);
    }
  }

  lemma {:induction false} SomeFirstListing(venue: seq<VenuePosition>, mid: string) returns (i: nat)
    requires MarketSizes(venue, mid) != []
    ensures i < |venue| && venue[i].market == mid && FirstListing(venue, i)
  {
    var n := |venue| - 1;
    if MarketSizes(venue[..n], mid) != [] {
      i := SomeFirstListing(venue[..n], mid);
    } else {
      NotListedBefore(venue[..n], mid);
      forall j | 0 <= j < n ensures venue[j].market != mid { assert venue[..n][j] == venue[j]; }
      i := n;
    }
  }

  lemma {:induction false} NotListedBefore(venue: seq<VenuePosition>, mid: string)
    requires MarketSizes(venue, mid) == []
    ensures forall j :: 0 <= j < |venue| ==> venue[j].market != mid
  {
    if venue != [] {
      var n := |venue| - 1;
      NotListedBefore(venue[..n], mid);
      assert forall j :: 0 <= j < n ==> venue[..n][j] == venue[j];
    }
  }

  // ---------- Lookups ----------

  /** The key a leg's market is found under: its id if the venue lists it, or else its token. */
  predicate FoundAs(r: Row, venue: seq<VenuePosition>, key: string) {
    if MarketSizes(venue, r.mid) != [] then key == r.mid
    else r.token != "" && key == r.token && AssetSizes(venue, r.token) != []
  }

  /** Some market held internally is found under this key. */
  ghost predicate FoundUnder(rows: seq<Row>, venue: seq<VenuePosition>, key: string) {
    exists i :: 0 <= i < |rows| && FirstLeg(rows, i) && FoundAs(rows[i], venue, key)
  }

  /** The figure the venue gives for a leg's market, if it gives one. */
  function FigureFor(r: Row, venue: seq<VenuePosition>): Option<real> {
    if MarketSizes(venue, r.mid) != [] then Some(Sum(MarketSizes(venue, r.mid)))
    else if r.token != "" && AssetSizes(venue, r.token) != [] then Some(Sum(AssetSizes(venue, r.token)))
    else None
  }

  lemma LookupMeans(r: Row, venue: seq<VenuePosition>, key: string)
    ensures var l := Find(venue, r.mid, r.token);
      && (l.Some? <==> FigureFor(r, venue).Some?)
      && (l.Some? ==> FigureFor(r, venue).value == l.value.shares)
      && (l.Some? && l.value.key == key <==> FoundAs(r, venue, key))
  {
    MarketFigure(venue, r.mid);
    AssetFigure(venue, r.token);
  }

  lemma KeysMean(rows: seq<Row>, venue: seq<VenuePosition>, key: string)
    ensures key in Keys(Grouped(rows), venue) <==> FoundUnder(rows, venue, key)
  {
    if key in Keys(Grouped(rows), venue) {
      var mid :| mid in Grouped(rows) && Find(venue, mid, Grouped(rows)[mid].token).Some?
                 && Find(venue, mid, Grouped(rows)[mid].token).value.key == key;
      var i := SomeFirstLeg(rows, mid);
      FirstLegNames(rows, i);
      LookupMeans(rows[i], venue, key);
    }
    if FoundUnder(rows, venue, key) {
      var i :| 0 <= i < |rows| && FirstLeg(rows, i) && FoundAs(rows[i], venue, key);
      FirstLegNames(rows, i);
      LookupMeans(rows[i], venue, key);
    }
  }

  // ---------- What each discrepancy means ----------

  /** No leg in the market, more than dust of it on the venue, and not what another market was found as. */
  ghost predicate Untracked(rows: seq<Row>, venue: seq<VenuePosition>, mid: string) {
    && (forall i :: 0 <= i < |rows| ==> rows[i].mid != mid)
    && Sum(MarketSizes(venue, mid)) > 0.01
    && !FoundUnder(rows, venue, mid)
    && forall i :: 0 <= i < |venue| && venue[i].market == mid && FirstListing(venue, i) ==>
         venue[i].asset == "" || !FoundUnder(rows, venue, venue[i].asset)
  }

  /** Missing on the venue: reported for the position of the first leg, with all the shares held. */
  ghost predicate MissesOnVenue(rows: seq<Row>, venue: seq<VenuePosition>, i: nat, d: Discrepancy)
    requires i < |rows|
  {
    && FirstLeg(rows, i) && FigureFor(rows[i], venue).None?
    && d == Discrepancy(PositionMissingOnVenue, Critical, Some(rows[i].pid), Some(rows[i].mid),
                        Some(Sum(LegSizes(rows, rows[i].mid))), None)
  }

  /** Held and listed, a hundredth of a share or more apart; critical beyond the threshold. */
  ghost predicate Mismatches(rows: seq<Row>, venue: seq<VenuePosition>, threshold: real, i: nat, d: Discrepancy)
    requires i < |rows|
  {
    && FirstLeg(rows, i) && FigureFor(rows[i], venue).Some?
    && var held, listed := Sum(LegSizes(rows, rows[i].mid)), FigureFor(rows[i], venue).value;
       var apart := if held < listed then listed - held else held - listed;
       && apart >= 0.01
       && d == Discrepancy(QuantityMismatch, if apart > threshold then Critical else Warning, Some(rows[i].pid),
                           Some(rows[i].mid), Some(held), Some(listed))
  }

  ghost predicate Untracks(rows: seq<Row>, venue: seq<VenuePosition>, mid: string, d: Discrepancy) {
    && Untracked(rows, venue, mid)
    && d == Discrepancy(PositionMissingInternal, Warning, None, Some(mid), None, Some(Sum(MarketSizes(venue, mid))))
  }

  lemma OrphanMeans(rows: seq<Row>, venue: seq<VenuePosition>, mid: string, d: Discrepancy)
    ensures ListingCallsFor(Grouped(rows), venue, mid, d) <==> Untracks(rows, venue, mid, d)
  {
    MarketFigure(venue, mid);
    NoLegNoGroup(rows, mid);
    KeysMean(rows, venue, mid);
    if mid in ByMarket(venue) {
      var first := SomeFirstListing(venue, mid);
      FirstListingNames(venue, first);
      KeysMean(rows, venue, venue[first].asset);
      forall i | 0 <= i < |venue| && venue[i].market == mid && FirstListing(venue, i) ensures i == first {
      }
    }
  }

  lemma HeldMeans(rows: seq<Row>, venue: seq<VenuePosition>, threshold: real, i: nat, d: Discrepancy)
    requires i < |rows| && FirstLeg(rows, i)
    ensures HeldCallsFor(Grouped(rows), venue, threshold, rows[i].mid, d)
       <==> MissesOnVenue(rows, venue, i, d) || Mismatches(rows, venue, threshold, i, d)
  {
    FirstLegNames(rows, i);
    LegFigure(rows, rows[i].mid);
    LookupMeans(rows[i], venue, "");
  }

  /** The legs and listings call for this discrepancy. */
  ghost predicate CallsFor(rows: seq<Row>, venue: seq<VenuePosition>, threshold: real, d: Discrepancy) {
    || (exists i :: 0 <= i < |rows| && MissesOnVenue(rows, venue, i, d))
    || (exists i :: 0 <= i < |rows| && Mismatches(rows, venue, threshold, i, d))
    || (exists mid :: Untracks(rows, venue, mid, d))
  }

  lemma CalledForMeans(rows: seq<Row>, venue: seq<VenuePosition>, threshold: real, d: Discrepancy)
    ensures CalledFor(Grouped(rows), venue, threshold, d) <==> CallsFor(rows, venue, threshold, d)
  {
    if mid :| HeldCallsFor(Grouped(rows), venue, threshold, mid, d) {
      var i := SomeFirstLeg(rows, mid);
      HeldMeans(rows, venue, threshold, i, d);
    }
    if mid :| ListingCallsFor(Grouped(rows), venue, mid, d) {
      OrphanMeans(rows, venue, mid, d);
    }
    if i :| 0 <= i < |rows| && (MissesOnVenue(rows, venue, i, d) || Mismatches(rows, venue, threshold, i, d)) {
      HeldMeans(rows, venue, threshold, i, d);
    }
    if mid :| Untracks(rows, venue, mid, d) {
      OrphanMeans(rows, venue, mid, d);
    }
  }

  /**
   The report contains exactly the discrepancies that legs and listings call for, whatever the hash
   orders: markets missing on the venue, mismatched markets, and markets of the venue not tracked.
   */
  lemma ReportMeans(rows: seq<Row>, venue: seq<VenuePosition>, threshold: real, order: seq<string>,
                    venueOrder: seq<string>, d: Discrepancy)
    requires Enumerates(order, Grouped(rows).Keys) && Enumerates(venueOrder, ByMarket(venue).Keys)
    ensures d in Compare(rows, venue, threshold, order, venueOrder).discrepancies
       <==> CallsFor(rows, venue, threshold, d)
  {
    ReportIsExact(rows, venue, threshold, order, venueOrder, d);
    CalledForMeans(rows, venue, threshold, d);
  }

  // ---------- The price of a correction ----------

  /** A correction is booked at the price and asset of the market's first listing, or at zero without one. */
  lemma {:induction false} QuoteMeans(venue: seq<VenuePosition>, mid: string)
    ensures forall i :: 0 <= i < |venue| && venue[i].market == mid && FirstListing(venue, i) ==>
      Quote(venue, mid) == (venue[i].avgPrice, venue[i].asset)
    ensures (forall i :: 0 <= i < |venue| ==> venue[i].market != mid) ==> Quote(venue, mid) == (0.0, "")
  {
    if venue != [] {
      assert forall i :: 0 <= i < |venue| - 1 ==> venue[1..][i] == venue[i + 1];
      QuoteMeans(venue[1..], mid);
      if venue[0].market != mid {
        forall i | 0 <= i < |venue| && venue[i].market == mid && FirstListing(venue, i)
          ensures Quote(venue, mid) == (venue[i].avgPrice, venue[i].asset)
        {
          assert venue[1..][i - 1] == venue[i] && FirstListing(venue[1..], i - 1);
        }
      }
    }
  }
}
