/**
 Reconciliation: comparing the open positions with what the venue reports, and applying the
 report to both books. Rows, markets and phantom positions come in hash map order, which is
 unspecified; every function takes the order as a parameter.
 */
module Reconciliation {
  import opened Totals
  import opened Positions
  import E = Engine

  /** One leg of an open position. */
  datatype Row = Row(pid: string, mid: string, token: string, shares: real)

  datatype VenuePosition = VenuePosition(asset: string, market: string, size: real, avgPrice: real)

  datatype Kind = PositionMissingOnVenue | PositionMissingInternal | QuantityMismatch

  datatype Severity = Warning | Critical

  datatype Discrepancy = Discrepancy(
    kind: Kind, severity: Severity, pid: Option<string>, market: Option<string>,
    held: Option<real>, listed: Option<real>)

  datatype Report = Report(passed: bool, discrepancies: seq<Discrepancy>, checked: nat, matched: nat) {
    function Add(d: Discrepancy): Report {
      this.(passed := passed && d.severity != Critical, discrepancies := discrepancies + [d])
    }

    /** Counts one checked market and what was found wrong with it, if anything. */
    function Tally(d: Option<Discrepancy>): Report {
      match d
      case None => this.(checked := checked + 1, matched := matched + 1)
      case Some(d) => this.(checked := checked + 1).Add(d)
    }

    function Extend(d: Option<Discrepancy>): Report { if d.None? then this else Add(d.value) }
  }

  const TOLERANCE := 0.01
  const MIN_ADJUSTMENT := 0.001

  // ---------- Lookups ----------

  function Credit(m: map<string, real>, k: string, x: real): map<string, real> { m[k := GetOr(m, k, 0.0) + x] }

  function ByMarket(venue: seq<VenuePosition>): map<string, real> {
    if venue == [] then map[] else
      Credit(ByMarket(venue[..|venue| - 1]), venue[|venue| - 1].market, venue[|venue| - 1].size)
  }

  function ByAsset(venue: seq<VenuePosition>): map<string, real> {
    if venue == [] then map[] else
      Credit(ByAsset(venue[..|venue| - 1]), venue[|venue| - 1].asset, venue[|venue| - 1].size)
  }

  /** All legs of one market: the first leg's position and token, and the shares of all. */
  datatype Holding = Holding(pid: string, token: string, shares: real)

  function Grouped(rows: seq<Row>): map<string, Holding> {
    if rows == [] then map[] else
      var g := Grouped(rows[..|rows| - 1]);
      var r := rows[|rows| - 1];
      g[r.mid := if r.mid in g then g[r.mid].(shares := g[r.mid].shares + r.shares)
        else Holding(r.pid, r.token, r.shares)]
  }

  datatype Listing = Listing(key: string, shares: real)

  /** The venue's figure for a market: by market id, or else by a nonempty token id. */
  function Find(venue: seq<VenuePosition>, mid: string, token: string): Option<Listing> {
    if mid in ByMarket(venue) then Some(Listing(mid, ByMarket(venue)[mid]))
    else if token != "" && token in ByAsset(venue) then Some(Listing(token, ByAsset(venue)[token]))
    else None
  }

  // ---------- Comparison ----------

  /** What is wrong with one market held internally. */
  function Judged(mid: string, h: Holding, listing: Option<Listing>, threshold: real): Option<Discrepancy> {
    match listing
    case None => Some(Discrepancy(PositionMissingOnVenue, Critical, Some(h.pid), Some(mid), Some(h.shares), None))
    case Some(l) =>
      var diff := Abs(h.shares - l.shares);
      if diff < TOLERANCE then None
      else Some(Discrepancy(QuantityMismatch, if diff > threshold then Critical else Warning,
                            Some(h.pid), Some(mid), Some(h.shares), Some(l.shares)))
  }

  function Verdict(groups: map<string, Holding>, venue: seq<VenuePosition>, threshold: real, mid: string)
    : Option<Discrepancy>
    requires mid in groups
  {
    Judged(mid, groups[mid], Find(venue, mid, groups[mid].token), threshold)
  }

  function Held(groups: map<string, Holding>, venue: seq<VenuePosition>, threshold: real, order: seq<string>): Report
    requires forall mid :: mid in order ==> mid in groups
  {
    if order == [] then Report(true, [], 0, 0) else
      Held(groups, venue, threshold, order[..|order| - 1]).Tally(Verdict(groups, venue, threshold, order[|order| - 1]))
  }

  /** The market ids and asset ids that internal markets were found under. */
  function Keys(groups: map<string, Holding>, venue: seq<VenuePosition>): set<string> {
    set mid | mid in groups && Find(venue, mid, groups[mid].token).Some?
      :: Find(venue, mid, groups[mid].token).value.key
  }

  function FirstAsset(venue: seq<VenuePosition>, mid: string): string {
    if venue == [] then "" else if venue[0].market == mid then venue[0].asset else FirstAsset(venue[1..], mid)
  }

  /** Whether a market the venue lists is one the engine does not track. */
  function Orphan(groups: map<string, Holding>, venue: seq<VenuePosition>, mid: string): Option<Discrepancy>
    requires mid in ByMarket(venue)
  {
    var asset := FirstAsset(venue, mid);
    var found := mid in Keys(groups, venue) || (asset != "" && asset in Keys(groups, venue));
    if !found && mid !in groups && ByMarket(venue)[mid] > TOLERANCE then
      Some(Discrepancy(PositionMissingInternal, Warning, None, Some(mid), None, Some(ByMarket(venue)[mid])))
    else None
  }

  function Listed(groups: map<string, Holding>, venue: seq<VenuePosition>, before: Report, order: seq<string>): Report
    requires forall mid :: mid in order ==> mid in ByMarket(venue)
  {
    if order == [] then before else
      Listed(groups, venue, before, order[..|order| - 1]).Extend(Orphan(groups, venue, order[|order| - 1]))
  }

  function Compare(rows: seq<Row>, venue: seq<VenuePosition>, threshold: real, order: seq<string>,
                   venueOrder: seq<string>)
    : Report
    requires forall mid :: mid in order ==> mid in Grouped(rows)
    requires forall mid :: mid in venueOrder ==> mid in ByMarket(venue)
  {
    Listed(Grouped(rows), venue, Held(Grouped(rows), venue, threshold, order), venueOrder)
  }

  method BuildVenueLookups(venue: seq<VenuePosition>) returns (byMarket: map<string, real>, byAsset: map<string, real>)
    ensures byMarket == ByMarket(venue) && byAsset == ByAsset(venue)
  {
    byMarket, byAsset := map[], map[];
    for i := 0 to |venue|
      invariant byMarket == ByMarket(venue[..i]) && byAsset == ByAsset(venue[..i])
    {
      assert venue[..i + 1][..i] == venue[..i];
      var v := venue[i];
      byMarket := byMarket[v.market := (if v.market in byMarket then byMarket[v.market] else 0.0) + v.size];
      byAsset := byAsset[v.asset := (if v.asset in byAsset then byAsset[v.asset] else 0.0) + v.size];
    }
    assert venue[..|venue|] == venue;
  }

  method GroupByMarket(rows: seq<Row>) returns (groups: map<string, Holding>)
    ensures groups == Grouped(rows)
  {
    groups := map[];
    for i := 0 to |rows|
      invariant groups == Grouped(rows[..i])
    {
      assert rows[..i + 1][..i] == rows[..i];
      var r := rows[i];
      var h := if r.mid in groups then groups[r.mid] else Holding(r.pid, r.token, 0.0);
      groups := groups[r.mid := h.(shares := h.shares + r.shares)];
    }
    assert rows[..|rows|] == rows;
  }

  /** The markets along `order` that were found, under the key each was found by. */
  function KeysAlong(groups: map<string, Holding>, venue: seq<VenuePosition>, order: seq<string>): set<string>
    requires forall mid :: mid in order ==> mid in groups
  {
    set mid | mid in order && Find(venue, mid, groups[mid].token).Some? :: Find(venue, mid, groups[mid].token).value.key
  }

  lemma KeysStep(groups: map<string, Holding>, venue: seq<VenuePosition>, order: seq<string>, i: nat)
    requires i < |order| && forall mid :: mid in order ==> mid in groups
    ensures forall mid :: mid in order[..i] ==> mid in groups
    ensures var listing := Find(venue, order[i], groups[order[i]].token);
      KeysAlong(groups, venue, order[..i + 1])
      == KeysAlong(groups, venue, order[..i]) + (if listing.Some? then {listing.value.key} else {})
  {
  }

  method CheckHeld(groups: map<string, Holding>, venue: seq<VenuePosition>, byMarket: map<string, real>,
                   byAsset: map<string, real>, threshold: real)
    returns (report: Report, keys: set<string>, ghost order: seq<string>)
    requires byMarket == ByMarket(venue) && byAsset == ByAsset(venue)
    ensures Enumerates(order, groups.Keys)
    ensures report == Held(groups, venue, threshold, order) && keys == Keys(groups, venue)
  {
    var markets := IterationOrder(groups);
    order := markets;
    report, keys := Report(true, [], 0, 0), {};
    for i := 0 to |markets|
      invariant report == Held(groups, venue, threshold, markets[..i])
      invariant keys == KeysAlong(groups, venue, markets[..i])
    {
      assert markets[..i + 1][..i] == markets[..i];
      KeysStep(groups, venue, markets, i);
      var mid := markets[i];
      var h := groups[mid];
      var listing := None;
      if mid in byMarket {
        listing := Some(Listing(mid, byMarket[mid]));
      } else if h.token != "" && h.token in byAsset {
        listing := Some(Listing(h.token, byAsset[h.token]));
      }
      if listing.Some? {
        keys := keys + {listing.value.key};
      }
      report := report.Tally(Judged(mid, h, listing, threshold));
    }
    assert markets[..|markets|] == markets;
    assert KeysAlong(groups, venue, markets) == Keys(groups, venue);
  }

  method CheckListed(groups: map<string, Holding>, venue: seq<VenuePosition>, byMarket: map<string, real>,
                     keys: set<string>, before: Report)
    returns (report: Report, ghost order: seq<string>)
    requires byMarket == ByMarket(venue) && keys == Keys(groups, venue)
    ensures Enumerates(order, ByMarket(venue).Keys)
    ensures report == Listed(groups, venue, before, order)
  {
    var markets := IterationOrder(byMarket);
    order := markets;
    report := before;
    for i := 0 to |markets|
      invariant report == Listed(groups, venue, before, markets[..i])
    {
      assert markets[..i + 1][..i] == markets[..i];
      var mid := markets[i];
      var asset := FirstAsset(venue, mid);
      var alreadyMatched := mid in keys || (asset != "" && asset in keys);
      if !alreadyMatched && mid !in groups && byMarket[mid] > TOLERANCE {
        report := report.Add(
          Discrepancy(PositionMissingInternal, Warning, None, Some(mid), None, Some(byMarket[mid])));
      }
    }
    assert markets[..|markets|] == markets;
  }

  method ComparePositions(rows: seq<Row>, venue: seq<VenuePosition>, threshold: real)
    returns (report: Report, ghost order: seq<string>, ghost venueOrder: seq<string>)
    ensures Enumerates(order, Grouped(rows).Keys) && Enumerates(venueOrder, ByMarket(venue).Keys)
    ensures report == Compare(rows, venue, threshold, order, venueOrder)
  {
    var byMarket, byAsset := BuildVenueLookups(venue);
    var groups := GroupByMarket(rows);
    var held, keys, o := CheckHeld(groups, venue, byMarket, byAsset, threshold);
    order := o;
    report, venueOrder := CheckListed(groups, venue, byMarket, keys, held);
  }

  // ---------- Extraction ----------

  /** `rows` lists every leg of every open position exactly once, in some order. */
  ghost predicate Extracts(rows: seq<Row>, open: map<string, Position>) {
    && (forall i, j :: 0 <= i < j < |rows| ==> rows[i].pid != rows[j].pid || rows[i].mid != rows[j].mid)
    && (forall r :: r in rows ==> r.pid in open && r.mid in open[r.pid].markets && r == RowOf(r.pid, r.mid, open))
    && (forall pid, mid :: pid in open && mid in open[pid].markets ==> RowOf(pid, mid, open) in rows)
  }

  function RowOf(pid: string, mid: string, open: map<string, Position>): Row
    requires pid in open && mid in open[pid].markets
  {
    Row(pid, mid, open[pid].markets[mid].token, open[pid].markets[mid].shares)
  }

  method LegRows(pid: string, open: map<string, Position>) returns (rows: seq<Row>)
    requires pid in open
    ensures forall i, j :: 0 <= i < j < |rows| ==> rows[i].mid != rows[j].mid
    ensures forall r :: r in rows ==> r.pid == pid && r.mid in open[pid].markets && r == RowOf(pid, r.mid, open)
    ensures forall mid :: mid in open[pid].markets ==> RowOf(pid, mid, open) in rows
  {
    var markets := IterationOrder(open[pid].markets);
    rows := [];
    for i := 0 to |markets|
      invariant |rows| == i && forall k :: 0 <= k < i ==> rows[k] == RowOf(pid, markets[k], open)
    {
      rows := rows + [Row(pid, markets[i], open[pid].markets[markets[i]].token, open[pid].markets[markets[i]].shares)];
    }
    forall mid | mid in open[pid].markets ensures RowOf(pid, mid, open) in rows {
      var k :| 0 <= k < |markets| && markets[k] == mid;
      assert rows[k] == RowOf(pid, mid, open);
    }
  }

  lemma ExtractsMore(rows: seq<Row>, legs: seq<Row>, open: map<string, Position>, pid: string)
    requires pid in open && Extracts(rows, open - {pid})
    requires forall i, j :: 0 <= i < j < |legs| ==> legs[i].mid != legs[j].mid
    requires forall r :: r in legs ==> r.pid == pid && r.mid in open[pid].markets && r == RowOf(pid, r.mid, open)
    requires forall mid :: mid in open[pid].markets ==> RowOf(pid, mid, open) in legs
    ensures Extracts(rows + legs, open)
  {
    var all := rows + legs;
    forall i, j | 0 <= i < j < |all| ensures all[i].pid != all[j].pid || all[i].mid != all[j].mid {
      if i < |rows| && |rows| <= j {
        assert all[i] in rows && all[j] in legs;
      }
    }
    forall p, mid | p in open && mid in open[p].markets ensures RowOf(p, mid, open) in all {
      if p != pid {
        assert RowOf(p, mid, open - {pid}) in rows;
      }
    }
  }

  method ExtractPositionData(open: map<string, Position>) returns (rows: seq<Row>)
    ensures Extracts(rows, open)
  {
    rows := [];
    var done: set<string> := {};
    var order := IterationOrder(open);
    for i := 0 to |order|
      invariant done == set k | 0 <= k < i :: order[k]
      invariant Extracts(rows, open - (open.Keys - done))
    {
      var legs := LegRows(order[i], open);
      ghost var part := open - (open.Keys - (done + {order[i]}));
      assert part - {order[i]} == open - (open.Keys - done);
      ExtractsMore(rows, legs, part, order[i]);
      rows := rows + legs;
      done := done + {order[i]};
    }
    assert open - (open.Keys - done) == open;
  }

  // ---------- Applying a report ----------

  function ValueOr<T>(o: Option<T>, default: T): T { if o.Some? then o.value else default }

  /** The first average price and asset the venue lists for a market. */
  function Quote(venue: seq<VenuePosition>, mid: string): (real, string) {
    if venue == [] then (0.0, "") else if venue[0].market == mid then (venue[0].avgPrice, venue[0].asset)
    else Quote(venue[1..], mid)
  }

  /** The leg a mismatch names takes the venue's share count. */
  function Resized(open: map<string, Position>, pid: string, mid: string, shares: real): map<string, Position> {
    if pid in open && mid in open[pid].markets then
      open[pid := open[pid].(markets := open[pid].markets[mid := open[pid].markets[mid].(shares := shares)])]
    else open
  }

  function AdjustOne(s: E.State, venue: seq<VenuePosition>, d: Discrepancy): E.State {
    if d.kind != QuantityMismatch || d.market.None? then s else
      var mid, pid, listed := d.market.value, ValueOr(d.pid, ""), ValueOr(d.listed, 0.0);
      var delta := listed - ValueOr(d.held, 0.0);
      var quote := Quote(venue, mid);
      E.State(s.portfolio.(open := Resized(s.portfolio.open, pid, mid, listed)),
              if Abs(delta) > MIN_ADJUSTMENT then s.ledger.ReconciliationAdjustment(pid, quote.1, mid, delta, quote.0)
              else s.ledger)
  }

  function Adjusted(s: E.State, venue: seq<VenuePosition>, ds: seq<Discrepancy>): E.State {
    if ds == [] then s else AdjustOne(Adjusted(s, venue, ds[..|ds| - 1]), venue, ds[|ds| - 1])
  }

  /** Positions reported missing on the venue, for at least one of their markets. */
  function MissingPids(ds: seq<Discrepancy>): set<string> {
    set d | d in ds && d.kind == PositionMissingOnVenue && d.pid.Some? :: d.pid.value
  }

  /** No leg of the position has a recorded fill. */
  predicate Unfilled(p: Position) { forall mid :: mid in p.markets ==> p.markets[mid].actualShares <= 0.0 }

  function DropPhantom(s: E.State, pid: string): E.State {
    if pid in s.portfolio.open && Unfilled(s.portfolio.open[pid]) then E.RollBack(s, pid) else s
  }

  function PhantomsDropped(s: E.State, order: seq<string>): E.State {
    if order == [] then s else DropPhantom(PhantomsDropped(s, order[..|order| - 1]), order[|order| - 1])
  }

  function Applied(s: E.State, venue: seq<VenuePosition>, report: Report, order: seq<string>): E.State {
    PhantomsDropped(Adjusted(s, venue, report.discrepancies), order)
  }

  method AdjustMismatch(engine: E.TradingEngine, venue: seq<VenuePosition>, d: Discrepancy)
    modifies engine.positions, engine.accounting
    ensures engine.View() == AdjustOne(old(engine.View()), venue, d)
  {
    if d.kind != QuantityMismatch || d.market.None? {
      return;
    }
    var mid, pid, listed := d.market.value, ValueOr(d.pid, ""), ValueOr(d.listed, 0.0);
    var delta := listed - ValueOr(d.held, 0.0);
    var quote := Quote(venue, mid);
    var pm := engine.positions;
    if pid in pm.open {
      var p := pm.open[pid];
      if mid in p.markets {
        pm.open := pm.open[pid := p.(markets := p.markets[mid := p.markets[mid].(shares := listed)])];
      }
    }
    if Abs(delta) > MIN_ADJUSTMENT {
      engine.accounting.RecordReconciliationAdjustment(pid, quote.1, mid, delta, quote.0);
    }
  }

  method DropPhantoms(engine: E.TradingEngine, pids: seq<string>)
    modifies engine.positions, engine.accounting
    ensures engine.View() == PhantomsDropped(old(engine.View()), pids)
  {
    for i := 0 to |pids|
      invariant engine.View() == PhantomsDropped(old(engine.View()), pids[..i])
    {
      assert pids[..i + 1][..i] == pids[..i];
      var pid := pids[i];
      if pid in engine.positions.open && Unfilled(engine.positions.open[pid]) {
        var reversed := engine.accounting.ReverseBuyByPosition(pid);
        var removed := engine.positions.RollBackEntry(pid);
      }
    }
    assert pids[..|pids|] == pids;
  }

  method ApplyReconciliation(engine: E.TradingEngine, report: Report, venue: seq<VenuePosition>)
    returns (ghost order: seq<string>)
    modifies engine.positions, engine.accounting
    ensures Enumerates(order, MissingPids(report.discrepancies))
    ensures engine.View() == Applied(old(engine.View()), venue, report, order)
  {
    var ds := report.discrepancies;
    for i := 0 to |ds|
      invariant engine.View() == Adjusted(old(engine.View()), venue, ds[..i])
    {
      assert ds[..i + 1][..i] == ds[..i];
      AdjustMismatch(engine, venue, ds[i]);
    }
    assert ds[..|ds|] == ds;
    var missing := MissingPids(ds);
    var pids := IterationOrder(map pid | pid in missing :: true);
    order := pids;
    DropPhantoms(engine, pids);
  }
}
