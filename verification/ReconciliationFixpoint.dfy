/**
 What reconciliation achieves: the report accounts for every market exactly, does not depend
 on hash order, and applying it leaves no share count in disagreement with the venue unless
 several positions share a market.
 */
module ReconciliationFixpoint {
  import opened Totals
  import opened Positions
  import opened Reconciliation
  import opened Arithmetic
  import E = Engine
  import A = Accounting
  import B = BooksAgree

  // ---------- The report ----------

  function Count(ds: seq<Discrepancy>, kind: Kind): nat {
    if ds == [] then 0 else Count(ds[..|ds| - 1], kind) + (if ds[|ds| - 1].kind == kind then 1 else 0)
  }

  /** Every checked market is matched, mismatched or missing on the venue. */
  ghost predicate AddsUp(r: Report) {
    r.checked == r.matched + Count(r.discrepancies, QuantityMismatch) + Count(r.discrepancies, PositionMissingOnVenue)
  }

  lemma AddCounts(r: Report, d: Discrepancy, kind: Kind)
    ensures Count(r.Add(d).discrepancies, kind) == Count(r.discrepancies, kind) + if d.kind == kind then 1 else 0
  {
  }

  lemma {:induction false} HeldAddsUp(groups: map<string, Holding>, venue: seq<VenuePosition>, threshold: real,
                                      order: seq<string>)
    requires forall mid :: mid in order ==> mid in groups
    ensures var r := Held(groups, venue, threshold, order); AddsUp(r) && r.checked == |order|
  {
    if order != [] {
      var n := |order| - 1;
      HeldAddsUp(groups, venue, threshold, order[..n]);
      var d := Verdict(groups, venue, threshold, order[n]);
      if d.Some? {
        AddCounts(Held(groups, venue, threshold, order[..n]), d.value, QuantityMismatch);
        AddCounts(Held(groups, venue, threshold, order[..n]), d.value, PositionMissingOnVenue);
      }
    }
  }

  lemma {:induction false} ListedAddsUp(groups: map<string, Holding>, venue: seq<VenuePosition>, before: Report,
                                        order: seq<string>)
    requires forall mid :: mid in order ==> mid in ByMarket(venue)
    requires AddsUp(before)
    ensures var r := Listed(groups, venue, before, order); AddsUp(r) && r.checked == before.checked
  {
    if order != [] {
      var n := |order| - 1;
      ListedAddsUp(groups, venue, before, order[..n]);
      var d := Orphan(groups, venue, order[n]);
      if d.Some? {
        AddCounts(Listed(groups, venue, before, order[..n]), d.value, QuantityMismatch);
        AddCounts(Listed(groups, venue, before, order[..n]), d.value, PositionMissingOnVenue);
      }
    }
  }

  lemma {:induction false} OrderLength<K(!new)>(order: seq<K>, keys: set<K>)
    requires Enumerates(order, keys)
    ensures |order| == |keys|
  {
    if order == [] {
      assert forall k :: k in keys ==> k in order;
      assert keys == {};
    } else {
      var n := |order| - 1;
      forall k ensures k in order[..n] <==> k in keys - {order[n]} {
        assert k in order <==> k in order[..n] || k == order[n];
      }
      OrderLength(order[..n], keys - {order[n]});
    }
  }

  lemma GroupCounts(groups: map<string, Holding>, venue: seq<VenuePosition>, threshold: real,
                    order: seq<string>, venueOrder: seq<string>)
    requires forall mid :: mid in order ==> mid in groups
    requires forall mid :: mid in venueOrder ==> mid in ByMarket(venue)
    ensures var r := Listed(groups, venue, Held(groups, venue, threshold, order), venueOrder);
      AddsUp(r) && r.checked == |order|
  {
    HeldAddsUp(groups, venue, threshold, order);
    ListedAddsUp(groups, venue, Held(groups, venue, threshold, order), venueOrder);
  }

  /** The report checks every internal market once, and its counts add up. */
  lemma CountsAddUp(rows: seq<Row>, venue: seq<VenuePosition>, threshold: real, order: seq<string>,
                    venueOrder: seq<string>)
    requires Enumerates(order, Grouped(rows).Keys) && Enumerates(venueOrder, ByMarket(venue).Keys)
    ensures var r := Compare(rows, venue, threshold, order, venueOrder); AddsUp(r) && r.checked == |Grouped(rows).Keys|
  {
    GroupCounts(Grouped(rows), venue, threshold, order, venueOrder);
    OrderLength(order, Grouped(rows).Keys);
  }

  ghost predicate FlagIsExact(r: Report) {
    r.passed <==> forall d :: d in r.discrepancies ==> d.severity != Critical
  }

  /** An internally held market with this very problem. */
  ghost predicate HeldCallsFor(groups: map<string, Holding>, venue: seq<VenuePosition>, threshold: real, mid: string,
                               d: Discrepancy)
  {
    mid in groups && Verdict(groups, venue, threshold, mid) == Some(d)
  }

  /** A market listed by the venue with this very problem. */
  ghost predicate ListingCallsFor(groups: map<string, Holding>, venue: seq<VenuePosition>, mid: string,
                                  d: Discrepancy)
  {
    mid in ByMarket(venue) && Orphan(groups, venue, mid) == Some(d)
  }

  lemma {:induction false} HeldIsExact(groups: map<string, Holding>, venue: seq<VenuePosition>, threshold: real,
                                       order: seq<string>, d: Discrepancy)
    requires forall mid :: mid in order ==> mid in groups
    ensures FlagIsExact(Held(groups, venue, threshold, order))
    ensures d in Held(groups, venue, threshold, order).discrepancies
       <==> exists mid :: mid in order && HeldCallsFor(groups, venue, threshold, mid, d)
  {
    if order != [] {
      var n := |order| - 1;
      HeldIsExact(groups, venue, threshold, order[..n], d);
      assert forall mid :: mid in order <==> mid in order[..n] || mid == order[n];
      if Verdict(groups, venue, threshold, order[n]) == Some(d) {
        assert HeldCallsFor(groups, venue, threshold, order[n], d);
      }
    }
  }

  lemma {:induction false} ListedIsExact(groups: map<string, Holding>, venue: seq<VenuePosition>, before: Report,
                                         order: seq<string>, d: Discrepancy)
    requires forall mid :: mid in order ==> mid in ByMarket(venue)
    requires FlagIsExact(before)
    ensures FlagIsExact(Listed(groups, venue, before, order))
    ensures d in Listed(groups, venue, before, order).discrepancies
       <==> d in before.discrepancies || exists mid :: mid in order && ListingCallsFor(groups, venue, mid, d)
  {
    if order != [] {
      var n := |order| - 1;
      ListedIsExact(groups, venue, before, order[..n], d);
      assert forall mid :: mid in order <==> mid in order[..n] || mid == order[n];
      if Orphan(groups, venue, order[n]) == Some(d) {
        assert ListingCallsFor(groups, venue, order[n], d);
      }
    }
  }

  lemma GroupReportIsExact(groups: map<string, Holding>, venue: seq<VenuePosition>, threshold: real, order: seq<string>,
                           venueOrder: seq<string>, d: Discrepancy)
    requires Enumerates(order, groups.Keys) && Enumerates(venueOrder, ByMarket(venue).Keys)
    ensures var r := Listed(groups, venue, Held(groups, venue, threshold, order), venueOrder);
      && FlagIsExact(r)
      && (d in r.discrepancies <==> CalledFor(groups, venue, threshold, d))
  {
    HeldIsExact(groups, venue, threshold, order, d);
    ListedIsExact(groups, venue, Held(groups, venue, threshold, order), venueOrder, d);
    if mid :| HeldCallsFor(groups, venue, threshold, mid, d) {
      assert mid in order;
    }
    if mid :| ListingCallsFor(groups, venue, mid, d) {
      assert mid in venueOrder;
    }
  }

  /** Some market calls for this discrepancy. */
  ghost predicate CalledFor(groups: map<string, Holding>, venue: seq<VenuePosition>, threshold: real, d: Discrepancy) {
    || (exists mid :: HeldCallsFor(groups, venue, threshold, mid, d))
    || (exists mid :: ListingCallsFor(groups, venue, mid, d))
  }

  /** A discrepancy is reported exactly when some market calls for it; the run passes exactly when none is critical. */
  lemma ReportIsExact(rows: seq<Row>, venue: seq<VenuePosition>, threshold: real, order: seq<string>,
                      venueOrder: seq<string>, d: Discrepancy)
    requires Enumerates(order, Grouped(rows).Keys) && Enumerates(venueOrder, ByMarket(venue).Keys)
    ensures var r := Compare(rows, venue, threshold, order, venueOrder);
      && FlagIsExact(r)
      && (d in r.discrepancies <==> CalledFor(Grouped(rows), venue, threshold, d))
  {
    GroupReportIsExact(Grouped(rows), venue, threshold, order, venueOrder, d);
  }

  // ---------- Groups and open positions ----------

  ghost function HeldShares(open: map<string, Position>, mid: string): map<string, real> {
    map pid | pid in open && mid in open[pid].markets :: open[pid].markets[mid].shares
  }

  ghost function HeldTotal(open: map<string, Position>, mid: string): real { Total(HeldShares(open, mid)) }

  function RowsOf(rows: seq<Row>, mid: string): (r: seq<Row>)
    ensures forall x :: x in r <==> x in rows && x.mid == mid
  {
    if rows == [] then [] else
      RowsOf(rows[..|rows| - 1], mid) + (if rows[|rows| - 1].mid == mid then [rows[|rows| - 1]] else [])
  }

  function Pids(rows: seq<Row>): (r: seq<string>)
    ensures |r| == |rows| && forall i :: 0 <= i < |rows| ==> r[i] == rows[i].pid
  {
    seq(|rows|, i requires 0 <= i < |rows| => rows[i].pid)
  }

  function Shares(rows: seq<Row>): (r: seq<real>)
    ensures |r| == |rows| && forall i :: 0 <= i < |rows| ==> r[i] == rows[i].shares
  {
    seq(|rows|, i requires 0 <= i < |rows| => rows[i].shares)
  }

  ghost predicate NoRepeats(rows: seq<Row>) {
    forall i, j :: 0 <= i < j < |rows| ==> rows[i].pid != rows[j].pid || rows[i].mid != rows[j].mid
  }

  lemma {:induction false} RowsOfDistinct(rows: seq<Row>, mid: string)
    requires NoRepeats(rows)
    ensures forall i, j :: 0 <= i < j < |RowsOf(rows, mid)| ==> RowsOf(rows, mid)[i].pid != RowsOf(rows, mid)[j].pid
  {
    if rows != [] {
      var n := |rows| - 1;
      RowsOfDistinct(rows[..n], mid);
      forall x | x in RowsOf(rows[..n], mid) && rows[n].mid == mid ensures x.pid != rows[n].pid {
        var i :| 0 <= i < n && rows[i] == x;
      }
    }
  }

  lemma SharesAppend(rows: seq<Row>, r: Row)
    ensures Sum(Shares(rows + [r])) == Sum(Shares(rows)) + r.shares
  {
    assert Shares(rows + [r])[..|rows|] == Shares(rows);
  }

  ghost predicate IsGroupOf(g: map<string, Holding>, own: seq<Row>, mid: string) {
    && (mid in g <==> own != [])
    && (mid in g ==>
      g[mid].shares == Sum(Shares(own)) && g[mid].pid == own[0].pid && g[mid].token == own[0].token)
  }

  /** A group sums its market's rows and is named after the first of them. */
  lemma {:induction false} GroupIsSum(rows: seq<Row>, mid: string)
    ensures IsGroupOf(Grouped(rows), RowsOf(rows, mid), mid)
  {
    if rows != [] {
      var n := |rows| - 1;
      GroupIsSum(rows[..n], mid);
      if rows[n].mid == mid {
        SharesAppend(RowsOf(rows[..n], mid), rows[n]);
      } else {
        assert RowsOf(rows[..n], mid) + [] == RowsOf(rows[..n], mid);
      }
    }
  }

  lemma PidsEnumerate(rows: seq<Row>, open: map<string, Position>, mid: string)
    requires Extracts(rows, open)
    ensures Enumerates(Pids(RowsOf(rows, mid)), HeldShares(open, mid).Keys)
    ensures Along(HeldShares(open, mid), Pids(RowsOf(rows, mid))) == Shares(RowsOf(rows, mid))
  {
    RowsOfDistinct(rows, mid);
    var own := RowsOf(rows, mid);
    forall pid ensures pid in Pids(own) <==> pid in HeldShares(open, mid) {
      if pid in HeldShares(open, mid) {
        assert RowOf(pid, mid, open) in own;
        var i :| 0 <= i < |own| && own[i] == RowOf(pid, mid, open);
        assert Pids(own)[i] == pid;
      }
      if pid in Pids(own) {
        var i :| 0 <= i < |own| && Pids(own)[i] == pid;
        assert own[i] in own;
      }
    }
    forall i | 0 <= i < |own| ensures own[i].shares == HeldShares(open, mid)[own[i].pid] {
      assert own[i] in own;
    }
  }

  /** What a market's group holds is what the open positions hold in that market, in any extraction order. */
  lemma GroupIsHeld(rows: seq<Row>, open: map<string, Position>, mid: string)
    requires Extracts(rows, open)
    ensures mid in Grouped(rows) <==> HeldShares(open, mid) != map[]
    ensures mid in Grouped(rows)
            ==> Named(Grouped(rows)[mid], open, mid) && Grouped(rows)[mid].shares == HeldTotal(open, mid)
  {
    GroupIsSum(rows, mid);
    PidsEnumerate(rows, open, mid);
    TotalAlong(HeldShares(open, mid), Pids(RowsOf(rows, mid)));
    var own := RowsOf(rows, mid);
    if own != [] {
      assert own[0] in own;
      assert own[0].pid in HeldShares(open, mid);
    } else {
      assert forall pid :: pid in HeldShares(open, mid) ==> pid in Pids(own);
    }
  }

  ghost predicate Named(h: Holding, open: map<string, Position>, mid: string) {
    h.pid in open && mid in open[h.pid].markets && h.token == open[h.pid].markets[mid].token
  }

  // ---------- What applying a report does to the legs ----------

  ghost predicate SameShape(a: map<string, Position>, b: map<string, Position>) {
    && a.Keys == b.Keys
    && forall pid :: pid in a ==> SameLegs(a[pid].markets, b[pid].markets)
  }

  ghost predicate SameLegs(a: map<string, Leg>, b: map<string, Leg>) {
    && a.Keys == b.Keys
    && forall mid :: mid in a ==> a[mid].token == b[mid].token && a[mid].actualShares == b[mid].actualShares
  }

  /** The markets a report finds mismatched. */
  ghost function Mismatched(ds: seq<Discrepancy>): set<string> {
    set d | d in ds && d.kind == QuantityMismatch && d.market.Some? :: d.market.value
  }

  /** A leg's shares once the mismatches of `ms` are applied: the venue's, if the market's report names its position. */
  function Corrected(groups: map<string, Holding>, venue: seq<VenuePosition>, ms: set<string>, pid: string, mid: string,
                     shares: real): real
  {
    if mid in ms && mid in groups && groups[mid].pid == pid then
      match Find(venue, mid, groups[mid].token) case Some(l) => l.shares case None => shares
    else shares
  }

  ghost predicate LegsCorrected(groups: map<string, Holding>, venue: seq<VenuePosition>, ms: set<string>,
                                before: map<string, Position>, after: map<string, Position>)
  {
    && SameShape(before, after)
    && forall pid, mid :: pid in before && mid in before[pid].markets ==>
         after[pid].markets[mid].shares == Corrected(groups, venue, ms, pid, mid, before[pid].markets[mid].shares)
  }

  /** Every mismatch in `ds` is the verdict on its market. */
  ghost predicate Verdicts(groups: map<string, Holding>, venue: seq<VenuePosition>, threshold: real,
                           ds: seq<Discrepancy>)
  {
    forall d :: d in ds && d.kind == QuantityMismatch ==>
      d.market.Some? && HeldCallsFor(groups, venue, threshold, d.market.value, d)
  }

  lemma ResizedLegs(groups: map<string, Holding>, venue: seq<VenuePosition>, threshold: real, ms: set<string>,
                    before: map<string, Position>, middle: map<string, Position>, d: Discrepancy)
    requires LegsCorrected(groups, venue, ms, before, middle)
    requires d.kind == QuantityMismatch && d.market.Some? && HeldCallsFor(groups, venue, threshold, d.market.value, d)
    ensures LegsCorrected(groups, venue, ms + {d.market.value}, before,
                          Resized(middle, d.pid.value, d.market.value, d.listed.value))
  {
    var after := Resized(middle, d.pid.value, d.market.value, d.listed.value);
    assert Find(venue, d.market.value, groups[d.market.value].token).Some?;
    forall pid, mid | pid in before && mid in before[pid].markets
      ensures after[pid].markets[mid].shares
           == Corrected(groups, venue, ms + {d.market.value}, pid, mid, before[pid].markets[mid].shares)
    {
    }
  }

  lemma {:induction false} AdjustedLegs(groups: map<string, Holding>, venue: seq<VenuePosition>, threshold: real,
                                        s: E.State, ds: seq<Discrepancy>)
    requires Verdicts(groups, venue, threshold, ds)
    ensures LegsCorrected(groups, venue, Mismatched(ds), s.portfolio.open, Adjusted(s, venue, ds).portfolio.open)
  {
    if ds != [] {
      var n := |ds| - 1;
      AdjustedLegs(groups, venue, threshold, s, ds[..n]);
      assert ds == ds[..n] + [ds[n]];
      var middle := Adjusted(s, venue, ds[..n]).portfolio.open;
      if ds[n].kind == QuantityMismatch {
        assert Mismatched(ds) == Mismatched(ds[..n]) + {ds[n].market.value};
        ResizedLegs(groups, venue, threshold, Mismatched(ds[..n]), s.portfolio.open, middle, ds[n]);
      } else {
        assert Mismatched(ds) == Mismatched(ds[..n]);
      }
    }
  }

  function Phantoms(open: map<string, Position>, pids: set<string>): set<string> {
    set pid | pid in pids && pid in open && Unfilled(open[pid])
  }

  lemma {:induction false} DroppedOpen(s: E.State, order: seq<string>)
    ensures PhantomsDropped(s, order).portfolio.open
         == s.portfolio.open - Phantoms(s.portfolio.open, set pid | pid in order)
  {
    if order != [] {
      var n := |order| - 1;
      DroppedOpen(s, order[..n]);
      assert order == order[..n] + [order[n]];
    }
  }

  // ---------- One reconciliation pass ----------

  /** One pass: what was extracted, and the hash orders of this pass. */
  datatype Pass = Pass(rows: seq<Row>, threshold: real, order: seq<string>, venueOrder: seq<string>,
    drops: seq<string>) {
    ghost predicate Compares(open: map<string, Position>, venue: seq<VenuePosition>) {
      && Extracts(rows, open)
      && Enumerates(order, Grouped(rows).Keys)
      && Enumerates(venueOrder, ByMarket(venue).Keys)
    }

    function Discrepancies(venue: seq<VenuePosition>): seq<Discrepancy>
      requires forall mid :: mid in order ==> mid in Grouped(rows)
      requires forall mid :: mid in venueOrder ==> mid in ByMarket(venue)
    {
      Compare(rows, venue, threshold, order, venueOrder).discrepancies
    }

    ghost predicate Applies(open: map<string, Position>, venue: seq<VenuePosition>) {
      Compares(open, venue) && Enumerates(drops, MissingPids(Discrepancies(venue)))
    }

    function After(s: E.State, venue: seq<VenuePosition>): E.State
      requires forall mid :: mid in order ==> mid in Grouped(rows)
      requires forall mid :: mid in venueOrder ==> mid in ByMarket(venue)
    {
      Applied(s, venue, Compare(rows, venue, threshold, order, venueOrder), drops)
    }
  }

  /** The venue's figure for a market differs from what the group holds. */
  ghost predicate Differs(groups: map<string, Holding>, venue: seq<VenuePosition>, mid: string) {
    && mid in groups
    && var l := Find(venue, mid, groups[mid].token);
       l.Some? && Abs(groups[mid].shares - l.value.shares) >= TOLERANCE
  }

  ghost predicate Absent(groups: map<string, Holding>, venue: seq<VenuePosition>, mid: string) {
    mid in groups && Find(venue, mid, groups[mid].token).None?
  }

  /** Some market reported under the name of `pid` is absent from the venue. */
  ghost predicate NamedAbsent(groups: map<string, Holding>, venue: seq<VenuePosition>, pid: string) {
    exists mid :: Absent(groups, venue, mid) && groups[mid].pid == pid
  }

  lemma GroupVerdicts(groups: map<string, Holding>, venue: seq<VenuePosition>, threshold: real, order: seq<string>,
                      venueOrder: seq<string>)
    requires Enumerates(order, groups.Keys) && Enumerates(venueOrder, ByMarket(venue).Keys)
    ensures var ds := Listed(groups, venue, Held(groups, venue, threshold, order), venueOrder).discrepancies;
      Verdicts(groups, venue, threshold, ds)
  {
    var ds := Listed(groups, venue, Held(groups, venue, threshold, order), venueOrder).discrepancies;
    forall d | d in ds && d.kind == QuantityMismatch
      ensures d.market.Some? && HeldCallsFor(groups, venue, threshold, d.market.value, d)
    {
      GroupReportIsExact(groups, venue, threshold, order, venueOrder, d);
    }
  }

  lemma GroupMismatches(groups: map<string, Holding>, venue: seq<VenuePosition>, threshold: real, order: seq<string>,
                        venueOrder: seq<string>, mid: string)
    requires Enumerates(order, groups.Keys) && Enumerates(venueOrder, ByMarket(venue).Keys)
    ensures var ds := Listed(groups, venue, Held(groups, venue, threshold, order), venueOrder).discrepancies;
      mid in Mismatched(ds) <==> Differs(groups, venue, mid)
  {
    GroupVerdicts(groups, venue, threshold, order, venueOrder);
    if Differs(groups, venue, mid) {
      var d := Verdict(groups, venue, threshold, mid).value;
      assert HeldCallsFor(groups, venue, threshold, mid, d);
      GroupReportIsExact(groups, venue, threshold, order, venueOrder, d);
    }
  }

  lemma GroupMissing(groups: map<string, Holding>, venue: seq<VenuePosition>, threshold: real, order: seq<string>,
                     venueOrder: seq<string>, pid: string)
    requires Enumerates(order, groups.Keys) && Enumerates(venueOrder, ByMarket(venue).Keys)
    ensures var ds := Listed(groups, venue, Held(groups, venue, threshold, order), venueOrder).discrepancies;
      pid in MissingPids(ds) <==> NamedAbsent(groups, venue, pid)
  {
    var ds := Listed(groups, venue, Held(groups, venue, threshold, order), venueOrder).discrepancies;
    if pid in MissingPids(ds) {
      var d :| d in ds && d.kind == PositionMissingOnVenue && d.pid == Some(pid);
      GroupReportIsExact(groups, venue, threshold, order, venueOrder, d);
      var mid :| HeldCallsFor(groups, venue, threshold, mid, d);
      assert Absent(groups, venue, mid);
    }
    if mid :| Absent(groups, venue, mid) && groups[mid].pid == pid {
      var d := Verdict(groups, venue, threshold, mid).value;
      assert HeldCallsFor(groups, venue, threshold, mid, d);
      GroupReportIsExact(groups, venue, threshold, order, venueOrder, d);
    }
  }

  /** After a pass: corrected legs, without the phantom positions. */
  lemma PassEffect(s: E.State, venue: seq<VenuePosition>, p: Pass) returns (middle: map<string, Position>)
    requires p.Applies(s.portfolio.open, venue)
    ensures LegsCorrected(Grouped(p.rows), venue, Mismatched(p.Discrepancies(venue)), s.portfolio.open, middle)
    ensures p.After(s, venue).portfolio.open
         == middle - Phantoms(s.portfolio.open, MissingPids(p.Discrepancies(venue)))
  {
    var ds := p.Discrepancies(venue);
    GroupVerdicts(Grouped(p.rows), venue, p.threshold, p.order, p.venueOrder);
    AdjustedLegs(Grouped(p.rows), venue, p.threshold, s, ds);
    var mid := Adjusted(s, venue, ds);
    middle := mid.portfolio.open;
    DroppedOpen(mid, p.drops);
    SamePhantoms(s.portfolio.open, middle, MissingPids(ds));
    assert (set pid | pid in p.drops) == MissingPids(ds);
  }

  lemma SamePhantoms(a: map<string, Position>, b: map<string, Position>, pids: set<string>)
    requires SameShape(a, b)
    ensures Phantoms(a, pids) == Phantoms(b, pids)
  {
  }

  /**
   A pass removes a position exactly when it has no recorded fill and one of the markets
   reported under its name is absent from the venue; its other markets do not matter.
   */
  lemma RolledBackExactly(s: E.State, venue: seq<VenuePosition>, p: Pass, pid: string)
    requires p.Applies(s.portfolio.open, venue) && pid in s.portfolio.open
    ensures var legs := s.portfolio.open[pid].markets;
      pid !in p.After(s, venue).portfolio.open
      <==> (forall mid :: mid in legs ==> legs[mid].actualShares <= 0.0) && NamedAbsent(Grouped(p.rows), venue, pid)
  {
    PassRemoves(s, venue, p, pid);
    GroupMissing(Grouped(p.rows), venue, p.threshold, p.order, p.venueOrder, pid);
  }

  lemma PassRemoves(s: E.State, venue: seq<VenuePosition>, p: Pass, pid: string)
    requires p.Applies(s.portfolio.open, venue) && pid in s.portfolio.open
    ensures pid !in p.After(s, venue).portfolio.open
       <==> Unfilled(s.portfolio.open[pid]) && pid in MissingPids(p.Discrepancies(venue))
  {
    var middle := PassEffect(s, venue, p);
  }

  // ---------- The second comparison ----------

  /** The positions a pass removes. */
  ghost function Removed(s: E.State, venue: seq<VenuePosition>, p: Pass): set<string>
    requires p.Applies(s.portfolio.open, venue)
  {
    s.portfolio.open.Keys - p.After(s, venue).portfolio.open.Keys
  }

  /** The lookup of a market does not depend on which leg the group is named after. */
  ghost predicate OneLookup(open: map<string, Position>, venue: seq<VenuePosition>, mid: string) {
    || mid in ByMarket(venue)
    || forall a, b :: a in open && mid in open[a].markets && b in open && mid in open[b].markets ==>
         open[a].markets[mid].token == open[b].markets[mid].token
  }

  lemma FindAgrees(groups: map<string, Holding>, later: map<string, Holding>, open: map<string, Position>,
                   middle: map<string, Position>, venue: seq<VenuePosition>, mid: string)
    requires OneLookup(open, venue, mid) && SameShape(open, middle)
    requires mid in groups && mid in later && Named(groups[mid], open, mid) && Named(later[mid], middle, mid)
    ensures Find(venue, mid, groups[mid].token) == Find(venue, mid, later[mid].token)
  {
  }

  lemma OthersKept(groups: map<string, Holding>, venue: seq<VenuePosition>, ms: set<string>,
                   open: map<string, Position>, middle: map<string, Position>, gone: set<string>, mid: string)
    requires LegsCorrected(groups, venue, ms, open, middle) && mid in groups
    ensures HeldShares(middle - gone, mid) - {groups[mid].pid} == HeldShares(open - gone - {groups[mid].pid}, mid)
  {
  }

  lemma NamedLegCorrected(groups: map<string, Holding>, venue: seq<VenuePosition>, ms: set<string>,
                          open: map<string, Position>, middle: map<string, Position>, gone: set<string>, mid: string)
    requires LegsCorrected(groups, venue, ms, open, middle)
    requires mid in ms && Differs(groups, venue, mid) && Named(groups[mid], open, mid) && groups[mid].pid !in gone
    ensures groups[mid].pid in HeldShares(middle - gone, mid)
    ensures HeldShares(middle - gone, mid)[groups[mid].pid] == Find(venue, mid, groups[mid].token).value.shares
  {
  }

  /** The leg a mismatch names ends up with the venue's figure; the market's other legs keep theirs. */
  lemma HeldAfter(groups: map<string, Holding>, venue: seq<VenuePosition>, ms: set<string>, open: map<string, Position>,
                  middle: map<string, Position>, gone: set<string>, mid: string)
    requires LegsCorrected(groups, venue, ms, open, middle)
    requires mid in ms && Differs(groups, venue, mid) && Named(groups[mid], open, mid) && groups[mid].pid !in gone
    ensures HeldShares(middle - gone, mid) != map[]
    ensures HeldTotal(middle - gone, mid)
         == Find(venue, mid, groups[mid].token).value.shares + HeldTotal(open - gone - {groups[mid].pid}, mid)
  {
    NamedLegCorrected(groups, venue, ms, open, middle, gone, mid);
    OthersKept(groups, venue, ms, open, middle, gone, mid);
    TotalRemove(HeldShares(middle - gone, mid), groups[mid].pid);
  }

  lemma LaterLookup(rows: seq<Row>, later: seq<Row>, venue: seq<VenuePosition>, open: map<string, Position>,
                    middle: map<string, Position>, gone: set<string>, mid: string)
    requires Extracts(rows, open) && Extracts(later, middle - gone) && SameShape(open, middle)
    requires OneLookup(open, venue, mid) && mid in Grouped(rows) && mid in Grouped(later)
    ensures Find(venue, mid, Grouped(rows)[mid].token) == Find(venue, mid, Grouped(later)[mid].token)
    ensures Grouped(later)[mid].shares == HeldTotal(middle - gone, mid)
    ensures Grouped(later)[mid].pid in middle - gone && mid in middle[Grouped(later)[mid].pid].markets
  {
    GroupIsHeld(rows, open, mid);
    GroupIsHeld(later, middle - gone, mid);
    FindAgrees(Grouped(rows), Grouped(later), open, middle, venue, mid);
  }

  lemma GroupsLookAgain(groups: map<string, Holding>, later: map<string, Holding>, venue: seq<VenuePosition>,
                        mid: string, others: real)
    requires mid in groups && mid in later && Find(venue, mid, groups[mid].token).Some?
    requires Find(venue, mid, groups[mid].token) == Find(venue, mid, later[mid].token)
    requires later[mid].shares == Find(venue, mid, groups[mid].token).value.shares + others
    ensures Differs(later, venue, mid) <==> Abs(others) >= TOLERANCE
  {
  }

  lemma SecondLook(rows: seq<Row>, later: seq<Row>, venue: seq<VenuePosition>, ms: set<string>,
                   open: map<string, Position>, middle: map<string, Position>, gone: set<string>, mid: string)
    requires Extracts(rows, open) && Extracts(later, middle - gone)
    requires LegsCorrected(Grouped(rows), venue, ms, open, middle) && OneLookup(open, venue, mid)
    requires mid in ms && Differs(Grouped(rows), venue, mid) && Grouped(rows)[mid].pid !in gone
    ensures Differs(Grouped(later), venue, mid)
       <==> Abs(HeldTotal(open - gone - {Grouped(rows)[mid].pid}, mid)) >= TOLERANCE
  {
    var groups, again := Grouped(rows), Grouped(later);
    assert Named(groups[mid], open, mid) by {
      GroupIsHeld(rows, open, mid);
    }
    HeldAfter(groups, venue, ms, open, middle, gone, mid);
    assert mid in again by {
      GroupIsHeld(later, middle - gone, mid);
    }
    LaterLookup(rows, later, venue, open, middle, gone, mid);
    GroupsLookAgain(groups, again, venue, mid, HeldTotal(open - gone - {groups[mid].pid}, mid));
  }

  lemma RemovedArePhantoms(s: E.State, venue: seq<VenuePosition>, p: Pass, middle: map<string, Position>)
    requires p.Applies(s.portfolio.open, venue) && SameShape(s.portfolio.open, middle)
    requires p.After(s, venue).portfolio.open
         == middle - Phantoms(s.portfolio.open, MissingPids(p.Discrepancies(venue)))
    ensures Removed(s, venue, p) == Phantoms(s.portfolio.open, MissingPids(p.Discrepancies(venue)))
  {
  }

  /**
   A mismatch that was applied shows again in the next comparison exactly when the legs that
   other positions, not removed by the pass, hold in that market sum to at least the tolerance.
   */
  lemma SecondMismatchExactly(s: E.State, venue: seq<VenuePosition>, p: Pass, later: seq<Row>, mid: string)
    requires p.Applies(s.portfolio.open, venue) && Extracts(later, p.After(s, venue).portfolio.open)
    requires Differs(Grouped(p.rows), venue, mid) && OneLookup(s.portfolio.open, venue, mid)
    requires Grouped(p.rows)[mid].pid !in Removed(s, venue, p)
    ensures Differs(Grouped(later), venue, mid)
       <==> Abs(HeldTotal(s.portfolio.open - Removed(s, venue, p) - {Grouped(p.rows)[mid].pid}, mid)) >= TOLERANCE
  {
    var middle := PassEffect(s, venue, p);
    RemovedArePhantoms(s, venue, p, middle);
    assert mid in Mismatched(p.Discrepancies(venue)) by {
      GroupMismatches(Grouped(p.rows), venue, p.threshold, p.order, p.venueOrder, mid);
    }
    SecondLook(p.rows, later, venue, Mismatched(p.Discrepancies(venue)), s.portfolio.open, middle, Removed(s, venue, p),
      mid);
  }

  /** What the positions that a pass leaves hold in a market after it. */
  ghost function HeldNext(groups: map<string, Holding>, venue: seq<VenuePosition>, open: map<string, Position>,
                          gone: set<string>, mid: string): real
  {
    if Differs(groups, venue, mid) && groups[mid].pid !in gone then
      Find(venue, mid, groups[mid].token).value.shares + HeldTotal(open - gone - {groups[mid].pid}, mid)
    else HeldTotal(open - gone, mid)
  }

  lemma SameHolders(open: map<string, Position>, middle: map<string, Position>, gone: set<string>, mid: string)
    requires SameShape(open, middle)
    ensures HeldShares(middle - gone, mid).Keys == HeldShares(open - gone, mid).Keys
  {
    forall pid | pid in open ensures mid in open[pid].markets <==> mid in middle[pid].markets {
      assert SameLegs(open[pid].markets, middle[pid].markets);
    }
  }

  lemma OutsideTheNamed(groups: map<string, Holding>, venue: seq<VenuePosition>, ms: set<string>,
                        open: map<string, Position>, middle: map<string, Position>, gone: set<string>, mid: string)
    requires LegsCorrected(groups, venue, ms, open, middle)
    requires mid in ms && mid in groups ==> groups[mid].pid in gone
    ensures HeldShares(middle - gone, mid) == HeldShares(open - gone, mid)
  {
    SameHolders(open, middle, gone, mid);
    var a, b := HeldShares(middle - gone, mid), HeldShares(open - gone, mid);
    forall pid | pid in b ensures a[pid] == b[pid] {
      assert pid in a;
    }
  }

  lemma NextHoldings(groups: map<string, Holding>, venue: seq<VenuePosition>, ms: set<string>,
                     open: map<string, Position>, middle: map<string, Position>, gone: set<string>, mid: string)
    requires LegsCorrected(groups, venue, ms, open, middle) && (mid in groups ==> Named(groups[mid], open, mid))
    requires mid in ms <==> Differs(groups, venue, mid)
    ensures HeldTotal(middle - gone, mid) == HeldNext(groups, venue, open, gone, mid)
  {
    if Differs(groups, venue, mid) && groups[mid].pid !in gone {
      HeldAfter(groups, venue, ms, open, middle, gone, mid);
    } else {
      OutsideTheNamed(groups, venue, ms, open, middle, gone, mid);
    }
  }

  /** What the next comparison groups under a market, whatever happened to it in the pass. */
  lemma NextGroup(s: E.State, venue: seq<VenuePosition>, p: Pass, later: seq<Row>, mid: string)
    requires p.Applies(s.portfolio.open, venue) && Extracts(later, p.After(s, venue).portfolio.open)
    ensures mid in Grouped(later) <==> HeldShares(s.portfolio.open - Removed(s, venue, p), mid) != map[]
    ensures mid in Grouped(later) ==>
      Grouped(later)[mid].shares == HeldNext(Grouped(p.rows), venue, s.portfolio.open, Removed(s, venue, p), mid)
  {
    var open, gone := s.portfolio.open, Removed(s, venue, p);
    var middle := PassEffect(s, venue, p);
    RemovedArePhantoms(s, venue, p, middle);
    assert HeldTotal(middle - gone, mid) == HeldNext(Grouped(p.rows), venue, open, gone, mid) by {
      GroupMismatches(Grouped(p.rows), venue, p.threshold, p.order, p.venueOrder, mid);
      GroupIsHeld(p.rows, open, mid);
      NextHoldings(Grouped(p.rows), venue, Mismatched(p.Discrepancies(venue)), open, middle, gone, mid);
    }
    SameHolders(open, middle, gone, mid);
    GroupIsHeld(later, middle - gone, mid);
  }

  /** The market is held and listed, and `held` is off the listing by the tolerance. */
  ghost predicate OffBy(groups: map<string, Holding>, venue: seq<VenuePosition>, mid: string, held: real) {
    && mid in groups
    && var l := Find(venue, mid, groups[mid].token); l.Some? && Abs(held - l.value.shares) >= TOLERANCE
  }

  lemma DiffersByTotal(groups: map<string, Holding>, venue: seq<VenuePosition>, mid: string, held: real)
    requires mid in groups ==> groups[mid].shares == held
    ensures Differs(groups, venue, mid) <==> OffBy(groups, venue, mid, held)
  {
  }

  /**
   For every market, mismatched at first or not: the next comparison finds it different exactly
   when the surviving positions hold it and what they then hold is off the venue's listing.
   */
  lemma EveryMarketAfterAPass(s: E.State, venue: seq<VenuePosition>, p: Pass, later: seq<Row>, mid: string)
    requires p.Applies(s.portfolio.open, venue) && Extracts(later, p.After(s, venue).portfolio.open)
    ensures mid in Grouped(later) <==> HeldShares(s.portfolio.open - Removed(s, venue, p), mid) != map[]
    ensures Differs(Grouped(later), venue, mid)
       <==> OffBy(Grouped(later), venue, mid,
                  HeldNext(Grouped(p.rows), venue, s.portfolio.open, Removed(s, venue, p), mid))
  {
    NextGroup(s, venue, p, later, mid);
    DiffersByTotal(Grouped(later), venue, mid,
                   HeldNext(Grouped(p.rows), venue, s.portfolio.open, Removed(s, venue, p), mid));
  }

  // ---------- The fixpoint ----------

  /** Each market belongs to one open position. */
  ghost predicate OneHolder(open: map<string, Position>) {
    forall a, b, mid :: a in open && mid in open[a].markets && b in open && mid in open[b].markets ==> a == b
  }

  lemma AloneInMarket(open: map<string, Position>, gone: set<string>, own: string, mid: string)
    requires OneHolder(open) && own in open && mid in open[own].markets
    ensures HeldShares(open - gone - {own}, mid) == map[] && HeldTotal(open - gone - {own}, mid) == 0.0
  {
  }

  lemma GroupsAgree(groups: map<string, Holding>, later: map<string, Holding>, venue: seq<VenuePosition>, mid: string)
    requires mid in groups && mid in later && groups[mid].shares == later[mid].shares
    requires Find(venue, mid, groups[mid].token) == Find(venue, mid, later[mid].token)
    ensures Differs(later, venue, mid) <==> Differs(groups, venue, mid)
  {
  }

  lemma UntouchedMarket(rows: seq<Row>, later: seq<Row>, venue: seq<VenuePosition>, ms: set<string>,
                        open: map<string, Position>, middle: map<string, Position>, gone: set<string>, mid: string)
    requires Extracts(rows, open) && Extracts(later, middle - gone)
    requires LegsCorrected(Grouped(rows), venue, ms, open, middle) && OneHolder(open)
    requires mid !in ms && mid in Grouped(later) && mid in Grouped(rows)
    ensures Differs(Grouped(later), venue, mid) <==> Differs(Grouped(rows), venue, mid)
  {
    var groups, again := Grouped(rows), Grouped(later);
    LaterLookup(rows, later, venue, open, middle, gone, mid);
    assert groups[mid].shares == HeldTotal(open, mid) by {
      GroupIsHeld(rows, open, mid);
    }
    SameHolder(venue, groups, ms, open, middle, gone, again[mid].pid, mid);
    GroupsAgree(groups, again, venue, mid);
  }

  lemma SameHolder(venue: seq<VenuePosition>, groups: map<string, Holding>, ms: set<string>,
                   open: map<string, Position>, middle: map<string, Position>, gone: set<string>, own: string,
                   mid: string)
    requires LegsCorrected(groups, venue, ms, open, middle) && OneHolder(open) && mid !in ms
    requires own in middle - gone && mid in middle[own].markets
    ensures HeldShares(middle - gone, mid) == HeldShares(open, mid)
  {
  }

  lemma StillHeld(rows: seq<Row>, later: seq<Row>, open: map<string, Position>, middle: map<string, Position>,
                  gone: set<string>, mid: string)
    requires Extracts(rows, open) && Extracts(later, middle - gone) && SameShape(open, middle) && OneHolder(open)
    requires mid in Grouped(later)
    ensures mid in Grouped(rows) && Grouped(rows)[mid].pid !in gone
  {
    GroupIsHeld(later, middle - gone, mid);
    var own := Grouped(later)[mid].pid;
    assert SameLegs(open[own].markets, middle[own].markets);
    assert own in HeldShares(open, mid);
    GroupIsHeld(rows, open, mid);
  }

  lemma MarketSettles(rows: seq<Row>, later: seq<Row>, venue: seq<VenuePosition>, ms: set<string>,
                      open: map<string, Position>, middle: map<string, Position>, gone: set<string>, mid: string)
    requires Extracts(rows, open) && Extracts(later, middle - gone)
    requires LegsCorrected(Grouped(rows), venue, ms, open, middle) && OneHolder(open)
    requires mid in ms <==> Differs(Grouped(rows), venue, mid)
    ensures !Differs(Grouped(later), venue, mid)
  {
    if mid in Grouped(later) {
      StillHeld(rows, later, open, middle, gone, mid);
      if mid in ms {
        SecondLook(rows, later, venue, ms, open, middle, gone, mid);
        GroupIsHeld(rows, open, mid);
        AloneInMarket(open, gone, Grouped(rows)[mid].pid, mid);
      } else {
        UntouchedMarket(rows, later, venue, ms, open, middle, gone, mid);
      }
    }
  }

  /**
   When each market belongs to one open position, one pass settles everything: no later
   comparison against the same venue, in whatever order, reports a quantity mismatch.
   */
  lemma OnePassSettles(s: E.State, venue: seq<VenuePosition>, p: Pass, q: Pass)
    requires OneHolder(s.portfolio.open) && p.Applies(s.portfolio.open, venue)
    requires q.Compares(p.After(s, venue).portfolio.open, venue)
    ensures Count(q.Discrepancies(venue), QuantityMismatch) == 0
  {
    var middle := PassEffect(s, venue, p);
    var gone := Phantoms(s.portfolio.open, MissingPids(p.Discrepancies(venue)));
    forall mid ensures !Differs(Grouped(q.rows), venue, mid) {
      GroupMismatches(Grouped(p.rows), venue, p.threshold, p.order, p.venueOrder, mid);
      MarketSettles(p.rows, q.rows, venue, Mismatched(p.Discrepancies(venue)), s.portfolio.open, middle, gone, mid);
    }
    GroupVerdicts(Grouped(q.rows), venue, q.threshold, q.order, q.venueOrder);
    NoneCounted(Grouped(q.rows), venue, q.threshold, q.Discrepancies(venue));
  }

  lemma {:induction false} NoneCounted(groups: map<string, Holding>, venue: seq<VenuePosition>, threshold: real,
                                       ds: seq<Discrepancy>)
    requires Verdicts(groups, venue, threshold, ds) && forall mid :: !Differs(groups, venue, mid)
    ensures Count(ds, QuantityMismatch) == 0
  {
    if ds != [] {
      var d := ds[|ds| - 1];
      NoneCounted(groups, venue, threshold, ds[..|ds| - 1]);
      if d.kind == QuantityMismatch {
        assert d in ds;
        assert Differs(groups, venue, d.market.value);
      }
    }
  }

  // ---------- Money ----------

  lemma {:induction false} UnlistedHasNoQuote(venue: seq<VenuePosition>, mid: string)
    requires forall v :: v in venue ==> v.market != mid
    ensures Quote(venue, mid) == (0.0, "")
  {
    if venue != [] {
      UnlistedHasNoQuote(venue[1..], mid);
    }
  }

  lemma {:induction false} ListedMarkets(venue: seq<VenuePosition>, mid: string)
    ensures mid in ByMarket(venue) <==> exists v :: v in venue && v.market == mid
  {
    if venue != [] {
      var n := |venue| - 1;
      ListedMarkets(venue[..n], mid);
      assert venue == venue[..n] + [venue[n]];
      assert venue[n] in venue;
    }
  }

  /** A mismatch found through its token id is booked at price zero: shares move, money does not. */
  lemma FallbackMovesNoMoney(s: E.State, venue: seq<VenuePosition>, d: Discrepancy)
    requires d.kind == QuantityMismatch && d.market.Some? && d.market.value !in ByMarket(venue)
    requires s.ledger.deployed >= 0.0
    ensures var after := AdjustOne(s, venue, d).ledger;
      after.cash == s.ledger.cash && after.deployed == s.ledger.deployed && after.fees == s.ledger.fees
  {
    ListedMarkets(venue, d.market.value);
    forall v | v in venue ensures v.market != d.market.value {
    }
    UnlistedHasNoQuote(venue, d.market.value);
  }

  /** How many shares a mismatch moves. */
  function Delta(d: Discrepancy): real { ValueOr(d.listed, 0.0) - ValueOr(d.held, 0.0) }

  /** What the shares moved are worth at the quoted price. */
  function Value(delta: real, price: real): real { Abs(delta * price) }

  lemma ResizedCapitals(open: map<string, Position>, pid: string, mid: string, shares: real)
    ensures B.Capitals(Resized(open, pid, mid, shares)) == B.Capitals(open)
  {
    assert Resized(open, pid, mid, shares).Keys == open.Keys;
  }

  /** A mismatch keeps the two books in agreement exactly when it is too small to book or booked at price zero. */
  lemma AdjustmentAgreesExactly(s: E.State, venue: seq<VenuePosition>, d: Discrepancy, refunded: real)
    requires B.Agree(s, refunded) && s.ledger.deployed >= 0.0
    requires d.kind == QuantityMismatch && d.market.Some?
    ensures B.Agree(AdjustOne(s, venue, d), refunded)
       <==> Abs(Delta(d)) <= MIN_ADJUSTMENT || Quote(venue, d.market.value).0 == 0.0
  {
    var price := Quote(venue, d.market.value).0;
    ResizedCapitals(s.portfolio.open, ValueOr(d.pid, ""), d.market.value, ValueOr(d.listed, 0.0));
    if Abs(Delta(d)) > MIN_ADJUSTMENT && price != 0.0 {
      NonZero(Delta(d), price);
    }
  }

  /** A booked mismatch moves the ledger's cash against the manager's by its value, and no capital in the manager. */
  lemma AdjustmentMovesCash(s: E.State, venue: seq<VenuePosition>, d: Discrepancy)
    requires d.kind == QuantityMismatch && d.market.Some? && Abs(Delta(d)) > MIN_ADJUSTMENT
    ensures var after := AdjustOne(s, venue, d);
      var value := Value(Delta(d), Quote(venue, d.market.value).0);
      && after.portfolio.capital == s.portfolio.capital
      && B.Capitals(after.portfolio.open) == B.Capitals(s.portfolio.open)
      && after.ledger.cash == s.ledger.cash + (if Delta(d) > 0.0 then -value else value)
      && after.ledger.deployed == s.ledger.deployed + (if Delta(d) > 0.0 then value else -Min(value, s.ledger.deployed))
  {
    ResizedCapitals(s.portfolio.open, ValueOr(d.pid, ""), d.market.value, ValueOr(d.listed, 0.0));
    var quote := Quote(venue, d.market.value);
    AdjustmentFigures(s.ledger, ValueOr(d.pid, ""), quote.1, d.market.value, Delta(d), quote.0);
  }

  lemma AdjustmentFigures(l: A.Ledger, pid: string, asset: string, mid: string, delta: real, price: real)
    requires delta != 0.0
    ensures var r := l.ReconciliationAdjustment(pid, asset, mid, delta, price);
      var value := Value(delta, price);
      && r.cash == l.cash + (if delta > 0.0 then -value else value)
      && r.deployed == l.deployed + (if delta > 0.0 then value else -Min(value, l.deployed))
  {
  }
}
