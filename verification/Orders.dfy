/**
 Orders the executor tracks: the status machine, fill clamping, the kill switch, and what
 whole runs of them keep.
 */
module Orders {
  import opened Totals

  datatype TradeStatus = Submitted | Matched | Mined | Confirmed | Retrying | Failed | Cancelled
  {
    predicate IsTerminal() { this == Confirmed || this == Failed || this == Cancelled }

    predicate CanTransitionTo(next: TradeStatus) {
      match this
      case Submitted => next == Matched || next == Failed || next == Cancelled
      case Matched => next == Mined || next == Retrying || next == Failed || next == Confirmed
      case Mined => next == Confirmed || next == Retrying || next == Failed
      case Retrying => next == Mined || next == Confirmed || next == Failed
      case _ => false
    }
  }

  datatype Side = Buy | Sell

  datatype TrackedOrder = TrackedOrder(
    positionId: string, marketId: string, tokenId: string, side: Side,
    price: real, quantity: real, status: TradeStatus,
    filled: real, avgFillPrice: real, overfill: real, lastUpdate: real)

  type Tracked = map<string, TrackedOrder>

  // ---------- What each operation does ----------

  function Filled(o: TrackedOrder, qty: real): TrackedOrder {
    if qty > o.quantity && o.quantity > 0.0 then o.(filled := o.quantity, overfill := qty - o.quantity)
    else o.(filled := qty)
  }

  function Updated(o: TrackedOrder, next: TradeStatus, qty: Option<real>, avg: Option<real>, now: real): TrackedOrder {
    var o1 := o.(status := next, lastUpdate := now);
    var o2 := if qty.Some? then Filled(o1, qty.value) else o1;
    if avg.Some? then o2.(avgFillPrice := avg.value) else o2
  }

  predicate Accepts(t: Tracked, id: string, next: TradeStatus) {
    id in t && t[id].status.CanTransitionTo(next)
  }

  function CancelIfPending(o: TrackedOrder, now: real): TrackedOrder {
    if o.status.IsTerminal() then o else o.(status := Cancelled, lastUpdate := now)
  }

  function CancelPending(t: Tracked, now: real): Tracked {
    map id | id in t :: CancelIfPending(t[id], now)
  }

  function Pending(t: Tracked): set<string> { set id | id in t && !t[id].status.IsTerminal() }

  ghost predicate HasConfirmedFills(t: Tracked, pid: string) {
    exists id :: id in t && t[id].positionId == pid && t[id].status == Confirmed && t[id].filled > 0.0
  }

  lemma CancellingOne(t: Tracked, id: string, now: real)
    requires id in Pending(t)
    ensures |Pending(t[id := CancelIfPending(t[id], now)])| == |Pending(t)| - 1
  {
    assert Pending(t[id := CancelIfPending(t[id], now)]) == Pending(t) - {id};
  }

  lemma NothingPending(t: Tracked, now: real)
    ensures Pending(CancelPending(t, now)) == {}
  {
  }

  /** The kill switch cancels at `now` every order that was not settled, and changes nothing else. */
  lemma CancelsExactly(t: Tracked, now: real)
    ensures CancelPending(t, now).Keys == t.Keys
    ensures forall id :: id in t ==>
      var o, r := t[id], CancelPending(t, now)[id];
      r == if o.status in {Confirmed, Failed, Cancelled} then o else o.(status := Cancelled, lastUpdate := now)
  {
  }

  // ---------- The executor's table ----------

  class Executor {
    var tracked: Tracked

    constructor ()
      ensures tracked == map[]
    {
      tracked := map[];
    }

    method UpdateTradeStatus(id: string, next: TradeStatus, qty: Option<real>, avg: Option<real>, now: real)
      returns (applied: bool)
      modifies this
      ensures applied == Accepts(old(tracked), id, next)
      ensures tracked == if applied then old(tracked)[id := Updated(old(tracked)[id], next, qty, avg, now)]
                         else old(tracked)
    {
      if id !in tracked {
        return false;
      }
      var order := tracked[id];
      if !order.status.CanTransitionTo(next) {
        return false;
      }
      order := order.(status := next, lastUpdate := now);
      if qty.Some? {
        if qty.value > order.quantity && order.quantity > 0.0 {
          order := order.(filled := order.quantity, overfill := qty.value - order.quantity);
        } else {
          order := order.(filled := qty.value);
        }
      }
      if avg.Some? {
        order := order.(avgFillPrice := avg.value);
      }
      tracked := tracked[id := order];
      return true;
    }

    /** The kill switch: afterwards nothing is pending, and exactly the pending orders were counted. */
    method CancelAllOrders(now: real) returns (count: nat)
      modifies this
      ensures tracked == CancelPending(old(tracked), now)
      ensures count == |Pending(old(tracked))|
      ensures Pending(tracked) == {}
    {
      count := 0;
      var order := IterationOrder(tracked);
      for i := 0 to |order|
        invariant tracked.Keys == old(tracked).Keys
        invariant forall k :: 0 <= k < i ==> tracked[order[k]] == CancelIfPending(old(tracked)[order[k]], now)
        invariant forall k :: i <= k < |order| ==> tracked[order[k]] == old(tracked)[order[k]]
        invariant count + |Pending(tracked)| == |Pending(old(tracked))|
      {
        var o := tracked[order[i]];
        if !o.status.IsTerminal() {
          CancellingOne(tracked, order[i], now);
          tracked := tracked[order[i] := o.(status := Cancelled, lastUpdate := now)];
          count := count + 1;
        }
      }
      NothingPending(old(tracked), now);
      assert tracked == CancelPending(old(tracked), now);
    }

    method PositionHasConfirmedFills(pid: string) returns (found: bool)
      ensures found == HasConfirmedFills(tracked, pid)
    {
      var order := IterationOrder(tracked);
      for i := 0 to |order|
        invariant forall k :: 0 <= k < i ==>
          !(tracked[order[k]].positionId == pid && tracked[order[k]].status == Confirmed
            && tracked[order[k]].filled > 0.0)
      {
        var o := tracked[order[i]];
        if o.positionId == pid && o.status == Confirmed && o.filled > 0.0 {
          return true;
        }
      }
      return false;
    }
  }

  // ---------- Whole runs ----------

  datatype Step =
    | Submit(id: string, order: TrackedOrder)
    | Update(id: string, next: TradeStatus, qty: Option<real>, avg: Option<real>, now: real)
    | CancelAll(now: real)

  /** An accepted order, with nothing filled yet; or, in a dry run, one that is filled and confirmed at once. */
  predicate IsNew(o: TrackedOrder) {
    && o.overfill == 0.0
    && ((o.status == Submitted && o.filled == 0.0) || (o.status == Confirmed && o.filled == o.quantity))
  }

  /** A submission tracks a new order under an id not in use. */
  predicate Admissible(t: Tracked, s: Step) { s.Submit? ==> s.id !in t && IsNew(s.order) }

  function Apply(t: Tracked, s: Step): Tracked {
    match s
    case Submit(id, order) => t[id := order]
    case Update(id, next, qty, avg, now) =>
      if Accepts(t, id, next) then t[id := Updated(t[id], next, qty, avg, now)] else t
    case CancelAll(now) => CancelPending(t, now)
  }

  function Run(t: Tracked, steps: seq<Step>): Tracked {
    if steps == [] then t else Apply(Run(t, steps[..|steps| - 1]), steps[|steps| - 1])
  }

  predicate AdmissibleRun(t: Tracked, steps: seq<Step>) {
    steps == [] ||
    (AdmissibleRun(t, steps[..|steps| - 1]) && Admissible(Run(t, steps[..|steps| - 1]), steps[|steps| - 1]))
  }

  /** A terminal order is never touched again: not its status, not its fill, not its timestamp. */
  lemma {:induction false} TerminalIsFinal(t: Tracked, steps: seq<Step>, id: string)
    requires id in t && t[id].status.IsTerminal() && AdmissibleRun(t, steps)
    ensures id in Run(t, steps) && Run(t, steps)[id] == t[id]
  {
    if steps != [] {
      TerminalIsFinal(t, steps[..|steps| - 1], id);
    }
  }

  ghost predicate WithinQuantity(t: Tracked) {
    forall id :: id in t && t[id].quantity > 0.0 ==> t[id].filled <= t[id].quantity
  }

  lemma {:induction false} NeverOverfilled(t: Tracked, steps: seq<Step>)
    requires WithinQuantity(t) && AdmissibleRun(t, steps)
    ensures WithinQuantity(Run(t, steps))
  {
    if steps != [] {
      NeverOverfilled(t, steps[..|steps| - 1]);
    }
  }

  lemma ConfirmedFillsPersist(t: Tracked, steps: seq<Step>, pid: string)
    requires HasConfirmedFills(t, pid) && AdmissibleRun(t, steps)
    ensures HasConfirmedFills(Run(t, steps), pid)
  {
    var id :| id in t && t[id].positionId == pid && t[id].status == Confirmed && t[id].filled > 0.0;
    TerminalIsFinal(t, steps, id);
  }

  lemma {:induction false} CancelledStaysQuiet(t: Tracked, now: real, steps: seq<Step>)
    requires AdmissibleRun(CancelPending(t, now), steps)
    requires forall i :: 0 <= i < |steps| ==> !steps[i].Submit?
    ensures Run(CancelPending(t, now), steps) == CancelPending(t, now)
  {
    if steps != [] {
      CancelledStaysQuiet(t, now, steps[..|steps| - 1]);
      assert Pending(CancelPending(t, now)) == {};
      assert forall id :: id in CancelPending(t, now) ==> CancelPending(t, now)[id].status.IsTerminal();
      assert steps[|steps| - 1].CancelAll? ==>
        CancelPending(CancelPending(t, now), steps[|steps| - 1].now) == CancelPending(t, now);
    }
  }

  /** No order is confirmed without having been matched first, at some earlier point of the run. */
  lemma {:induction false} ConfirmedWasMatched(t: Tracked, steps: seq<Step>, id: string)
    requires AdmissibleRun(t, steps) && id in t && t[id].status == Submitted
    requires id in Run(t, steps) && Run(t, steps)[id].status !in {Submitted, Failed, Cancelled}
    ensures exists k :: 0 <= k <= |steps| && id in Run(t, steps[..k]) && Run(t, steps[..k])[id].status == Matched
  {
    if steps != [] {
      var n := |steps| - 1;
      var before := Run(t, steps[..n]);
      assert id in before by { KeepsIds(t, steps[..n], id); }
      if before[id].status == Submitted {
        assert steps[..n + 1] == steps;
      } else {
        ConfirmedWasMatched(t, steps[..n], id);
        var k :| 0 <= k <= n && id in Run(t, steps[..n][..k]) && Run(t, steps[..n][..k])[id].status == Matched;
        assert steps[..n][..k] == steps[..k];
      }
    }
  }

  lemma {:induction false} KeepsIds(t: Tracked, steps: seq<Step>, id: string)
    requires id in t
    ensures id in Run(t, steps)
  {
    if steps != [] {
      KeepsIds(t, steps[..|steps| - 1], id);
    }
  }

  // ---------- Overfills over whole runs ----------

  predicate Exceeds(qty: real, quantity: real) { qty > quantity && quantity > 0.0 }

  /** The fill amounts that accepted updates of an order reported, in order. */
  function Reports(t: Tracked, steps: seq<Step>, id: string): seq<real> {
    if steps == [] then [] else
      var n := |steps| - 1;
      var s := steps[n];
      Reports(t, steps[..n], id)
      + (if s.Update? && s.id == id && Accepts(Run(t, steps[..n]), id, s.next) && s.qty.Some? then [s.qty.value]
        else [])
  }

  /** The excess of the last report that exceeded the quantity; before there is one, what was recorded at first. */
  function LastExcess(reports: seq<real>, quantity: real, recorded: real): real {
    if reports == [] then recorded
    else if Exceeds(reports[|reports| - 1], quantity) then reports[|reports| - 1] - quantity
    else LastExcess(reports[..|reports| - 1], quantity, recorded)
  }

  ghost predicate FigureReports(before: TrackedOrder, now: TrackedOrder, reports: seq<real>) {
    && now.quantity == before.quantity
    && now.overfill == LastExcess(reports, before.quantity, before.overfill)
    && now.filled ==
       if reports == [] then before.filled
       else if Exceeds(reports[|reports| - 1], before.quantity) then before.quantity
       else reports[|reports| - 1]
  }

  /** The fill is the last report, cut at the quantity; the recorded excess is that of the last report beyond it. */
  lemma {:induction false} RunFiguresReports(t: Tracked, steps: seq<Step>, id: string)
    requires id in t && AdmissibleRun(t, steps)
    ensures id in Run(t, steps) && FigureReports(t[id], Run(t, steps)[id], Reports(t, steps, id))
  {
    if steps != [] {
      var n := |steps| - 1;
      RunFiguresReports(t, steps[..n], id);
      var rs := Reports(t, steps[..n], id);
      assert rs + [] == rs;
      if steps[n].Update? && steps[n].qty.Some? {
        assert (rs + [steps[n].qty.value])[..|rs|] == rs;
      }
    }
  }

  lemma {:induction false} NoExcessExactly(reports: seq<real>, quantity: real, recorded: real)
    ensures LastExcess(reports, quantity, recorded) == 0.0
       <==> recorded == 0.0 && forall i :: 0 <= i < |reports| ==> !Exceeds(reports[i], quantity)
  {
    if reports != [] {
      NoExcessExactly(reports[..|reports| - 1], quantity, recorded);
      assert forall i :: 0 <= i < |reports| - 1 ==> reports[..|reports| - 1][i] == reports[i];
    }
  }

  /**
   Over any run, filled and recorded excess add up to the last reported amount exactly when that
   report exceeded the quantity, or nothing before it ever did: a recorded excess is never taken back.
   */
  lemma FillIsAccountedExactly(t: Tracked, steps: seq<Step>, id: string)
    requires id in t && AdmissibleRun(t, steps) && Reports(t, steps, id) != []
    ensures var reports, quantity := Reports(t, steps, id), t[id].quantity;
      var last := reports[|reports| - 1];
      && id in Run(t, steps)
      && (Run(t, steps)[id].filled + Run(t, steps)[id].overfill == last
          <==> Exceeds(last, quantity)
               || (t[id].overfill == 0.0 && forall i :: 0 <= i < |reports| ==> !Exceeds(reports[i], quantity)))
  {
    RunFiguresReports(t, steps, id);
    NoExcessExactly(Reports(t, steps, id), t[id].quantity, t[id].overfill);
  }

  // ---------- Which updates are applied ----------

  /**
   An order still moving may fail; from submission it is matched or cancelled; once matched it may
   be confirmed, mined unless it is, or put back to retry unless it is retrying.
   */
  predicate Legal(from: TradeStatus, next: TradeStatus) {
    from !in {Confirmed, Failed, Cancelled} &&
    match next
    case Failed => true
    case Matched => from == Submitted
    case Cancelled => from == Submitted
    case Confirmed => from != Submitted
    case Mined => from in {Matched, Retrying}
    case Retrying => from in {Matched, Mined}
    case Submitted => false
  }

  /** An update is applied exactly when it is legal; then status, time and price are the ones reported. */
  lemma UpdateAppliesExactly(t: Tracked, id: string, next: TradeStatus, qty: Option<real>, avg: Option<real>, now: real)
    requires id in t
    ensures var o, r := t[id], Apply(t, Update(id, next, qty, avg, now));
      if Legal(o.status, next) then
        && r.Keys == t.Keys && (forall k :: k in t && k != id ==> r[k] == t[k])
        && r[id] == o.(status := next, lastUpdate := now, filled := r[id].filled, overfill := r[id].overfill,
                       avgFillPrice := if avg.Some? then avg.value else o.avgFillPrice)
        && (qty.None? ==> r[id].filled == o.filled && r[id].overfill == o.overfill)
      else r == t
  {
  }

  /** Any order still moving can be settled either way: it can fail at once, and be confirmed within two updates. */
  lemma CanAlwaysSettle(t: Tracked, id: string, qty: real, now: real)
    requires id in t && t[id].status !in {Confirmed, Failed, Cancelled} && 0.0 <= qty <= t[id].quantity
    ensures Apply(t, Update(id, Failed, None, None, now))[id].status == Failed
    ensures var matched := if t[id].status == Submitted then Apply(t, Update(id, Matched, None, None, now)) else t;
      var r := Apply(matched, Update(id, Confirmed, Some(qty), None, now));
      r[id].status == Confirmed && r[id].filled == qty
  {
  }
}
