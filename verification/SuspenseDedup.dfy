/**
 A trade can reach the ledger in two ways: booked plainly, or through suspense. Both remember its
 key, but entering suspense looks only at the suspense entries. What a trade is charged over any
 run depends on which of the two comes first.
 */
module SuspenseDedup {
  import opened Totals
  import opened Accounting
  import opened LedgerAgreement

  /** Entering suspense leaves cash alone exactly when the trade is there already or costs nothing. */
  lemma EnterChargesExactly(l: Ledger, key: TradeKey, e: SuspenseEntry)
    ensures l.EnterSuspense(key, e).cash == l.cash <==> key in l.suspense || e.capital + e.fees == 0.0
  {
  }

  /** The step books this trade, plainly or into suspense. */
  predicate Books(s: Step, key: TradeKey) { (s.BuyDedup? && s.key == key) || (s.Enter? && s.key == key) }

  /** Every booking of the trade is for the same amount, and nothing else uses its key for deduplication. */
  predicate OneTrade(steps: seq<Step>, key: TradeKey, cost: real) {
    forall i :: 0 <= i < |steps| ==>
      && (steps[i].BuyDedup? && steps[i].key == key ==> steps[i].capital + steps[i].paid == cost)
      && (steps[i].Enter? && steps[i].key == key ==> steps[i].e.capital + steps[i].e.fees == cost)
      && !(steps[i].Mark? && steps[i].key == key) && !(steps[i].SellDedup? && steps[i].key == key)
  }

  /** What the bookings of the trade take out of cash along a run that may do anything else besides. */
  function Charge(l: Ledger, steps: seq<Step>, key: TradeKey): real
    decreases |steps|
  {
    if steps == [] then 0.0 else
      (if Books(steps[0], key) then l.cash - Apply(l, steps[0]).cash else 0.0)
        + Charge(Apply(l, steps[0]), steps[1..], key)
  }

  predicate SomeEnter(steps: seq<Step>, key: TradeKey) {
    exists i :: 0 <= i < |steps| && steps[i].Enter? && steps[i].key == key
  }

  /** The first booking of the trade, if there is one. */
  function FirstBooking(steps: seq<Step>, key: TradeKey): Option<Step>
    decreases |steps|
  {
    if steps == [] then None else if Books(steps[0], key) then Some(steps[0]) else FirstBooking(steps[1..], key)
  }

  lemma RestIsOneTrade(steps: seq<Step>, key: TradeKey, cost: real)
    requires steps != [] && OneTrade(steps, key, cost)
    ensures OneTrade(steps[1..], key, cost)
    ensures SomeEnter(steps, key) <==> (steps[0].Enter? && steps[0].key == key) || SomeEnter(steps[1..], key)
  {
    assert forall i :: 0 <= i < |steps| - 1 ==> steps[1..][i] == steps[i + 1];
    if SomeEnter(steps[1..], key) {
      var i :| 0 <= i < |steps| - 1 && steps[1..][i].Enter? && steps[1..][i].key == key;
      assert steps[i + 1].Enter? && steps[i + 1].key == key;
    }
    if SomeEnter(steps, key) && !(steps[0].Enter? && steps[0].key == key) {
      var i :| 0 <= i < |steps| && steps[i].Enter? && steps[i].key == key;
      assert steps[1..][i - 1].Enter?;
    }
  }

  /** Steps that do not book the trade leave its key as it is. */
  lemma OtherStepsKeepKey(l: Ledger, s: Step, key: TradeKey)
    requires !Books(s, key) && !(s.Mark? && s.key == key) && !(s.SellDedup? && s.key == key)
    ensures key in Apply(l, s).recorded <==> key in l.recorded
    ensures key in Apply(l, s).suspense <==> key in l.suspense
  {
  }

  lemma {:induction false} ChargeInSuspense(l: Ledger, steps: seq<Step>, key: TradeKey, cost: real)
    requires OneTrade(steps, key, cost) && key in l.recorded && key in l.suspense
    ensures Charge(l, steps, key) == 0.0
    decreases |steps|
  {
    if steps != [] {
      RestIsOneTrade(steps, key, cost);
      if !Books(steps[0], key) {
        OtherStepsKeepKey(l, steps[0], key);
      }
      ChargeInSuspense(Apply(l, steps[0]), steps[1..], key, cost);
    }
  }

  lemma {:induction false} ChargeOnceRecorded(l: Ledger, steps: seq<Step>, key: TradeKey, cost: real)
    requires OneTrade(steps, key, cost) && key in l.recorded && key !in l.suspense
    ensures Charge(l, steps, key) == if SomeEnter(steps, key) then cost else 0.0
    decreases |steps|
  {
    if steps != [] {
      RestIsOneTrade(steps, key, cost);
      if !Books(steps[0], key) {
        OtherStepsKeepKey(l, steps[0], key);
      }
      if steps[0].Enter? && steps[0].key == key {
        ChargeInSuspense(Apply(l, steps[0]), steps[1..], key, cost);
      } else {
        ChargeOnceRecorded(Apply(l, steps[0]), steps[1..], key, cost);
      }
    }
  }

  /** Over any run, a new trade is charged for its first booking, and again for suspense if the first was plain. */
  lemma {:induction false} ChargeOfNewTrade(l: Ledger, steps: seq<Step>, key: TradeKey, cost: real)
    requires OneTrade(steps, key, cost) && key !in l.recorded && key !in l.suspense
    ensures Charge(l, steps, key)
         == match FirstBooking(steps, key)
            case None => 0.0
            case Some(s) => if s.BuyDedup? && SomeEnter(steps, key) then cost + cost else cost
    decreases |steps|
  {
    if steps != [] {
      RestIsOneTrade(steps, key, cost);
      if !Books(steps[0], key) {
        OtherStepsKeepKey(l, steps[0], key);
        ChargeOfNewTrade(Apply(l, steps[0]), steps[1..], key, cost);
      } else if steps[0].Enter? {
        ChargeInSuspense(Apply(l, steps[0]), steps[1..], key, cost);
      } else {
        ChargeOnceRecorded(Apply(l, steps[0]), steps[1..], key, cost);
      }
    }
  }

  /** A trade that goes through suspense in a run is charged once exactly when no plain booking comes first. */
  lemma ChargedOnceExactly(l: Ledger, steps: seq<Step>, key: TradeKey, cost: real)
    requires OneTrade(steps, key, cost) && key !in l.recorded && key !in l.suspense
    requires cost != 0.0 && SomeEnter(steps, key)
    ensures FirstBooking(steps, key).Some?
    ensures Charge(l, steps, key) == cost <==> FirstBooking(steps, key).value.Enter?
  {
    EnterIsABooking(steps, key);
    ChargeOfNewTrade(l, steps, key, cost);
  }

  lemma {:induction false} EnterIsABooking(steps: seq<Step>, key: TradeKey)
    requires SomeEnter(steps, key)
    ensures FirstBooking(steps, key).Some? && Books(FirstBooking(steps, key).value, key)
    decreases |steps|
  {
    if !Books(steps[0], key) {
      var i :| 0 <= i < |steps| && steps[i].Enter? && steps[i].key == key;
      assert steps[1..][i - 1] == steps[i];
      EnterIsABooking(steps[1..], key);
    }
  }
}
