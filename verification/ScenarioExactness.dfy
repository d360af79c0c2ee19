/** The enumerated scenarios are exactly the outcomes the constraint admits, each listed once. */
module ScenarioExactness {
  import opened Arbitrage

  // ---------- Bit masks and outcomes correspond ----------

  function MaskOf(v: Outcome): nat {
    if v == [] then 0 else 2 * MaskOf(v[1..]) + (if v[0] == 1.0 then 1 else 0)
  }

  lemma {:induction false} MaskInRange(v: Outcome)
    ensures MaskOf(v) < Pow2(|v|)
  {
    if v != [] {
      MaskInRange(v[1..]);
    }
  }

  lemma BitsSplit(mask: nat, n: nat)
    requires n > 0
    ensures BitsOf(mask, n) == [if mask % 2 == 1 then 1.0 else 0.0] + BitsOf(mask / 2, n - 1)
  {
  }

  lemma {:induction false} MaskOfBits(mask: nat, n: nat)
    requires mask < Pow2(n)
    ensures MaskOf(BitsOf(mask, n)) == mask
  {
    if n > 0 {
      BitsSplit(mask, n);
      MaskOfBits(mask / 2, n - 1);
      assert BitsOf(mask, n)[1..] == BitsOf(mask / 2, n - 1);
    }
  }

  lemma {:induction false} BitsOfMask(v: Outcome)
    requires IsOutcome(v, |v|)
    ensures BitsOf(MaskOf(v), |v|) == v
  {
    if v != [] {
      BitsOfMask(v[1..]);
      BitsSplit(MaskOf(v), |v|);
      assert MaskOf(v) / 2 == MaskOf(v[1..]);
    }
  }

  // ---------- The mask loop ----------

  lemma {:induction false} MaskScenariosMember(n: nat, implications: seq<(nat, nat)>, masks: nat, v: Outcome)
    ensures v in MaskScenarios(n, implications, masks) <==>
            exists m: nat :: m < masks && v == BitsOf(m, n) && Respects(v, implications)
  {
    if masks != 0 {
      MaskScenariosMember(n, implications, masks - 1, v);
    }
  }

  lemma NextMaskIsNew(n: nat, implications: seq<(nat, nat)>, masks: nat)
    requires masks < Pow2(n)
    ensures BitsOf(masks, n) !in MaskScenarios(n, implications, masks)
  {
    MaskScenariosMember(n, implications, masks, BitsOf(masks, n));
    forall m: nat | m < masks ensures BitsOf(m, n) != BitsOf(masks, n) {
      MaskOfBits(m, n);
      MaskOfBits(masks, n);
    }
  }

  ghost predicate Distinct(s: seq<Outcome>) { forall i, j :: 0 <= i < j < |s| ==> s[i] != s[j] }

  lemma {:induction false} MaskScenariosDistinct(n: nat, implications: seq<(nat, nat)>, masks: nat)
    requires masks <= Pow2(n)
    ensures Distinct(MaskScenarios(n, implications, masks))
  {
    if masks != 0 {
      MaskScenariosDistinct(n, implications, masks - 1);
      NextMaskIsNew(n, implications, masks - 1);
    }
  }

  lemma OneHotOnly(v: Outcome, n: nat)
    requires IsOutcome(v, n)
    ensures ExactlyOneYes(v) <==> exists i :: 0 <= i < n && v == OneHot(n, i)
  {
    if ExactlyOneYes(v) {
      var i :| 0 <= i < |v| && v[i] == 1.0 && forall k :: 0 <= k < |v| && k != i ==> v[k] == 0.0;
      assert v == OneHot(n, i);
    }
    if exists i :: 0 <= i < n && v == OneHot(n, i) {
      var i :| 0 <= i < n && v == OneHot(n, i);
      assert v[i] == 1.0;
    }
  }

  lemma OneHotIsAdmitted(n: nat, i: nat)
    requires i < n
    ensures IsOutcome(OneHot(n, i), n) && ExactlyOneYes(OneHot(n, i)) && !NoneYes(OneHot(n, i))
  {
    assert OneHot(n, i)[i] == 1.0;
  }

  lemma OneHotsDistinct(n: nat, i: nat, j: nat)
    requires i < n && j < n && i != j
    ensures OneHot(n, i) != OneHot(n, j)
  {
    assert OneHot(n, i)[i] != OneHot(n, j)[i];
  }

  lemma ImplicationScenariosExact(n: nat, implications: seq<(nat, nat)>, v: Outcome)
    ensures v in Scenarios(n, LogicalImplication, implications) <==> Admits(LogicalImplication, implications, v, n)
  {
    MaskScenariosMember(n, implications, Pow2(n), v);
    if IsOutcome(v, n) {
      BitsOfMask(v);
      MaskInRange(v);
    }
  }

  lemma OneHotScenariosExact(n: nat, ct: ConstraintType, implications: seq<(nat, nat)>, v: Outcome)
    requires ct != LogicalImplication
    ensures v in Scenarios(n, ct, implications) <==> Admits(ct, implications, v, n)
  {
    var s := Scenarios(n, ct, implications);
    if v in s {
      var i :| 0 <= i < |s| && s[i] == v;
      if i < n { OneHotIsAdmitted(n, i); }
    }
    if Admits(ct, implications, v, n) {
      OneHotOnly(v, n);
      if ExactlyOneYes(v) {
        var i :| 0 <= i < n && v == OneHot(n, i);
        assert s[i] == v;
      } else {
        assert v == AllNo(n) == s[n];
      }
    }
  }

  /** Every admitted outcome is enumerated, exactly once, and nothing else is. */
  lemma ScenariosExact(n: nat, ct: ConstraintType, implications: seq<(nat, nat)>)
    ensures var s := Scenarios(n, ct, implications);
      && (forall v :: v in s <==> Admits(ct, implications, v, n))
      && Distinct(s)
  {
    var s := Scenarios(n, ct, implications);
    forall v ensures v in s <==> Admits(ct, implications, v, n) {
      if ct == LogicalImplication {
        ImplicationScenariosExact(n, implications, v);
      } else {
        OneHotScenariosExact(n, ct, implications, v);
      }
    }
    if ct == LogicalImplication {
      MaskScenariosDistinct(n, implications, Pow2(n));
    } else {
      forall i, j | 0 <= i < j < |s| ensures s[i] != s[j] {
        if j < n { OneHotsDistinct(n, i, j); } else { OneHotIsAdmitted(n, i); }
      }
    }
  }

  /** An outcome respects an implication exactly when the second market is YES wherever the first is. */
  lemma RespectsMeans(v: Outcome, implications: seq<(nat, nat)>)
    requires IsOutcome(v, |v|)
    ensures Respects(v, implications)
       <==> forall k :: 0 <= k < |implications| && implications[k].0 < |v| && implications[k].1 < |v| ==>
              v[implications[k].0] == 1.0 ==> v[implications[k].1] == 1.0
  {
  }
}
