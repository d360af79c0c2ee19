/**
 Partial exits in the position manager: what a batch of fills keeps of each leg, when batches
 may be merged or split, what a call credits, and what exits do to the conservation of money.
 */
module PartialExits {
  import opened Totals
  import opened Positions
  import opened Entries
  import M = Capital

  lemma FillOnEmptyLeg(leg: Leg, filled: real)
    requires leg.shares == 0.0 && leg.bet >= 0.0 && filled > 0.0
    ensures ReducedLeg(leg, filled) == leg && Cleared(leg, filled) == 0.0
    ensures Product(CostPerShare(leg), Cleared(leg, filled)) == 0.0
  {
  }

  lemma BetsUpdate(markets: map<string, Leg>, mid: string, leg: Leg)
    requires mid in markets
    ensures Total(Bets(markets[mid := leg])) == Total(Bets(markets)) + leg.bet - markets[mid].bet
  {
    assert Bets(markets[mid := leg]) == Bets(markets)[mid := leg.bet];
    TotalUpdate(Bets(markets), mid, leg.bet);
  }

  /** `after` is `before` with some shares sold at book cost: no more than held, cost per share kept. */
  predicate Shrunk(before: Leg, after: Leg) {
    && after == before.(shares := after.shares, bet := after.bet)
    && 0.0 <= after.shares <= before.shares && 0.0 <= after.bet <= before.bet
    && (before.shares == 0.0 ==> after == before)
    && (before.shares > 0.0 && after.shares == 0.0 ==> after.bet == 0.0)
    && (after.shares > 0.0 ==> CostPerShare(after) == CostPerShare(before))
  }

  lemma ReducedLegShrinks(leg: Leg, filled: real)
    requires SoundLeg(leg) && filled > 0.0
    ensures Shrunk(leg, ReducedLeg(leg, filled))
    ensures ReducedLeg(leg, filled).bet + Product(CostPerShare(leg), Cleared(leg, filled)) == leg.bet
  {
    if leg.shares == 0.0 {
      FillOnEmptyLeg(leg, filled);
    }
  }

  ghost predicate AllShrunk(before: map<string, Leg>, after: map<string, Leg>) {
    before.Keys == after.Keys && forall mid :: mid in before ==> Shrunk(before[mid], after[mid])
  }

  lemma OneFill(t: ExitTally, fill: ExitFill, takerFee: real)
    requires SoundLegs(t.markets)
    ensures var t' := TallyFill(t, fill, takerFee);
      && SoundLegs(t'.markets) && AllShrunk(t.markets, t'.markets)
      && Total(Bets(t'.markets)) + t'.cost == Total(Bets(t.markets)) + t.cost
      && t.cost <= t'.cost
  {
    if fill.shares > 0.0 && fill.market in t.markets {
      var leg := t.markets[fill.market];
      assert SoundLeg(leg);
      ReducedLegShrinks(leg, fill.shares);
      BetsUpdate(t.markets, fill.market, ReducedLeg(leg, fill.shares));
    }
  }

  /** Any batch of fills: remaining legs keep their cost per share, and cost leaves with the shares. */
  lemma {:induction false} FillsKeepCostPerShare(markets: map<string, Leg>, fills: seq<ExitFill>, takerFee: real)
    requires SoundLegs(markets)
    ensures var t := TallyFills(markets, fills, takerFee);
      && SoundLegs(t.markets) && AllShrunk(markets, t.markets)
      && Total(Bets(t.markets)) + t.cost == Total(Bets(markets)) && t.cost >= 0.0
  {
    if fills != [] {
      FillsKeepCostPerShare(markets, fills[..|fills| - 1], takerFee);
      OneFill(TallyFills(markets, fills[..|fills| - 1], takerFee), fills[|fills| - 1], takerFee);
    }
  }

  /** After any batch of fills, total capital is again the sum of the leg bets. */
  lemma ExitKeepsPositionSound(p: Position, fills: seq<ExitFill>, takerFee: real)
    requires SoundPosition(p)
    ensures SoundPosition(AfterExit(p, fills, takerFee))
    ensures var t := TallyFills(p.markets, fills, takerFee);
      AfterExit(p, fills, takerFee).totalCapital == p.totalCapital - t.cost
  {
    FillsKeepCostPerShare(p.markets, fills, takerFee);
    var t := TallyFills(p.markets, fills, takerFee);
    TotalNonNegative(Bets(t.markets));
  }

  // ---------- Splitting a fill ----------

  lemma SplitLeg(leg: Leg, a: real, b: real)
    requires leg.shares > 0.0 && leg.bet >= 0.0 && a > 0.0 && b > 0.0
    ensures ReducedLeg(ReducedLeg(leg, a), b) == ReducedLeg(leg, a + b)
    ensures Cleared(leg, a) + Cleared(ReducedLeg(leg, a), b) == Cleared(leg, a + b)
  {
  }

  lemma SplitProceeds(x: real, y: real, price: real, takerFee: real)
    ensures Product(x + y, price) == Product(x, price) + Product(y, price)
    ensures Product(takerFee, Product(x + y, price))
         == Product(takerFee, Product(x, price)) + Product(takerFee, Product(y, price))
  {
  }

  lemma SplitLegs(t: ExitTally, market: string, a: real, b: real, price: real, takerFee: real)
    requires SoundLegs(t.markets) && a > 0.0 && b > 0.0
    ensures var once := TallyFill(t, ExitFill(market, a + b, price), takerFee);
      var twice := TallyFill(TallyFill(t, ExitFill(market, a, price), takerFee), ExitFill(market, b, price), takerFee);
      once.markets == twice.markets && once.proceeds == twice.proceeds && once.fees == twice.fees
  {
    if market in t.markets {
      var leg := t.markets[market];
      var first := TallyFill(t, ExitFill(market, a, price), takerFee);
      assert first.markets[market] == ReducedLeg(leg, a);
      if leg.shares > 0.0 {
        SplitLeg(leg, a, b);
        SplitProceeds(Cleared(leg, a), Cleared(ReducedLeg(leg, a), b), price, takerFee);
      } else {
        FillOnEmptyLeg(leg, a);
        FillOnEmptyLeg(leg, b);
        FillOnEmptyLeg(leg, a + b);
      }
    }
  }

  lemma TwoFills(t: ExitTally, f: ExitFill, g: ExitFill, takerFee: real)
    requires SoundLegs(t.markets)
    ensures var twice := TallyFill(TallyFill(t, f, takerFee), g, takerFee);
      Total(Bets(twice.markets)) + twice.cost == Total(Bets(t.markets)) + t.cost
  {
    OneFill(t, f, takerFee);
    OneFill(TallyFill(t, f, takerFee), g, takerFee);
  }

  /** Splitting a fill at one price changes nothing: not the legs, the proceeds, the fees or the cost cleared. */
  lemma SplitFill(t: ExitTally, market: string, a: real, b: real, price: real, takerFee: real)
    requires SoundLegs(t.markets) && a > 0.0 && b > 0.0
    ensures TallyFill(t, ExitFill(market, a + b, price), takerFee)
         == TallyFill(TallyFill(t, ExitFill(market, a, price), takerFee), ExitFill(market, b, price), takerFee)
  {
    SplitLegs(t, market, a, b, price, takerFee);
    OneFill(t, ExitFill(market, a + b, price), takerFee);
    TwoFills(t, ExitFill(market, a, price), ExitFill(market, b, price), takerFee);
  }

  /** Two batches in a row tally like one: same legs, and amounts that add up. */
  lemma {:induction false} TallyConcat(markets: map<string, Leg>, fs: seq<ExitFill>, gs: seq<ExitFill>, takerFee: real)
    ensures var a := TallyFills(markets, fs, takerFee);
      var b := TallyFills(a.markets, gs, takerFee);
      TallyFills(markets, fs + gs, takerFee)
        == ExitTally(b.markets, a.proceeds + b.proceeds, a.fees + b.fees, a.cost + b.cost)
  {
    if gs == [] {
      assert fs + gs == fs;
    } else {
      assert (fs + gs)[..|fs + gs| - 1] == fs + gs[..|gs| - 1];
      TallyConcat(markets, fs, gs[..|gs| - 1], takerFee);
    }
  }

  /** What two calls do beyond one: a closing second call credits the first call's proceeds and profit again. */
  ghost function InTwoCalls(once: Portfolio, first: ExitTally, closes: bool): Portfolio {
    if closes
      then once.(capital := once.capital + first.proceeds, profit := once.profit + (first.proceeds - first.cost))
    else once
  }

  lemma AfterBoth(p: Position, fs: seq<ExitFill>, gs: seq<ExitFill>, takerFee: real)
    requires SoundPosition(p)
    ensures AfterExit(AfterExit(p, fs, takerFee), gs, takerFee) == AfterExit(p, fs + gs, takerFee)
  {
    var mid := AfterExit(p, fs, takerFee);
    TallyConcat(p.markets, fs, gs, takerFee);
    ExitKeepsPositionSound(p, fs, takerFee);
    ExitKeepsPositionSound(mid, gs, takerFee);
    ExitKeepsPositionSound(p, fs + gs, takerFee);
  }

  /**
   How fills are grouped into calls matters in one way only: when the first call leaves the
   position open and the second closes it, what the first one credited is credited again.
   */
  lemma BatchesMerge(p: Portfolio, pid: string, fs: seq<ExitFill>, gs: seq<ExitFill>)
    requires pid in p.open && SoundPosition(p.open[pid])
    requires pid in p.Exit(pid, fs).open
    ensures var twice := p.Exit(pid, fs).Exit(pid, gs);
      twice == InTwoCalls(p.Exit(pid, fs + gs), TallyFills(p.open[pid].markets, fs, p.takerFee), pid !in twice.open)
  {
    AfterBoth(p.open[pid], fs, gs, p.takerFee);
    TallyConcat(p.open[pid].markets, fs, gs, p.takerFee);
    ClosesAlike(p, pid, fs, gs);
  }

  lemma ClosesAlike(p: Portfolio, pid: string, fs: seq<ExitFill>, gs: seq<ExitFill>)
    requires pid in p.open && pid in p.Exit(pid, fs).open
    requires AfterExit(AfterExit(p.open[pid], fs, p.takerFee), gs, p.takerFee)
             == AfterExit(p.open[pid], fs + gs, p.takerFee)
    ensures pid in p.Exit(pid, fs).Exit(pid, gs).open <==> pid in p.Exit(pid, fs + gs).open
    ensures (p.open[pid := AfterExit(p.open[pid], fs, p.takerFee)])[pid := AfterExit(p.open[pid], fs + gs, p.takerFee)]
         == p.open[pid := AfterExit(p.open[pid], fs + gs, p.takerFee)]
    ensures (p.open[pid := AfterExit(p.open[pid], fs, p.takerFee)]) - {pid} == p.open - {pid}
  {
  }

  /** One fill may be applied in two calls at the same price, up to the double credit of a closing second call. */
  lemma SplitExit(p: Portfolio, pid: string, market: string, a: real, b: real, price: real)
    requires pid in p.open && SoundPosition(p.open[pid]) && a > 0.0 && b > 0.0
    requires pid in p.Exit(pid, [ExitFill(market, a, price)]).open
    ensures var first := [ExitFill(market, a, price)];
      var twice := p.Exit(pid, first).Exit(pid, [ExitFill(market, b, price)]);
      twice == InTwoCalls(p.Exit(pid, [ExitFill(market, a + b, price)]),
                          TallyFills(p.open[pid].markets, first, p.takerFee), pid !in twice.open)
  {
    var f, g, h := ExitFill(market, a, price), ExitFill(market, b, price), ExitFill(market, a + b, price);
    BatchesMerge(p, pid, [f], [g]);
    assert TallyFills(p.open[pid].markets, [f] + [g], p.takerFee)
           == TallyFills(p.open[pid].markets, [h], p.takerFee) by {
      SplitTally(p.open[pid].markets, market, a, b, price, p.takerFee);
    }
    SameTallySameExit(p, pid, [f] + [g], [h]);
  }

  lemma SameTallySameExit(p: Portfolio, pid: string, fs: seq<ExitFill>, gs: seq<ExitFill>)
    requires pid in p.open
    requires TallyFills(p.open[pid].markets, fs, p.takerFee) == TallyFills(p.open[pid].markets, gs, p.takerFee)
    ensures p.Exit(pid, fs) == p.Exit(pid, gs)
  {
  }

  lemma SplitTally(markets: map<string, Leg>, market: string, a: real, b: real, price: real, takerFee: real)
    requires SoundLegs(markets) && a > 0.0 && b > 0.0
    ensures TallyFills(markets, [ExitFill(market, a, price)] + [ExitFill(market, b, price)], takerFee)
         == TallyFills(markets, [ExitFill(market, a + b, price)], takerFee)
  {
    var f, g, h := ExitFill(market, a, price), ExitFill(market, b, price), ExitFill(market, a + b, price);
    SplitFill(ExitTally(markets, 0.0, 0.0, 0.0), market, a, b, price, takerFee);
    SingleTally(markets, f, takerFee);
    SingleTally(markets, h, takerFee);
    assert ([f] + [g])[..1] == [f];
  }

  lemma SingleTally(markets: map<string, Leg>, f: ExitFill, takerFee: real)
    ensures TallyFills(markets, [f], takerFee) == TallyFill(ExitTally(markets, 0.0, 0.0, 0.0), f, takerFee)
  {
  }

  // ---------- What an exit call credits ----------

  /**
   A batch of exit fills credits its net proceeds; a batch that closes the position also
   credits again what earlier batches had already paid. So it credits exactly its proceeds
   if and only if it leaves the position open or nothing was paid before.
   */
  lemma ExitCredits(p: Portfolio, pid: string, fills: seq<ExitFill>)
    requires pid in p.open
    ensures var t := TallyFills(p.open[pid].markets, fills, p.takerFee);
      var closes := AllExhausted(t.markets);
      var q := p.Exit(pid, fills);
      && q.capital == p.capital + t.proceeds + (if closes then p.open[pid].actualPayout else 0.0)
      && (q.capital == p.capital + t.proceeds <==> !closes || p.open[pid].actualPayout == 0.0)
      && (pid in q.open <==> !closes)
  {
  }

  ghost function RunExits(p: Portfolio, pid: string, batches: seq<seq<ExitFill>>): Portfolio {
    if batches == [] then p else RunExits(p, pid, batches[..|batches| - 1]).Exit(pid, batches[|batches| - 1])
  }

  /** The position after some batches, had it stayed open throughout. */
  function PositionAfter(p: Position, batches: seq<seq<ExitFill>>, takerFee: real): Position {
    if batches == [] then p
    else AfterExit(PositionAfter(p, batches[..|batches| - 1], takerFee), batches[|batches| - 1], takerFee)
  }

  /** While it stays open, batches of fills are credited exactly once, and a sound position stays sound. */
  lemma {:induction false} OpenExitsCreditOnce(p: Portfolio, pid: string, batches: seq<seq<ExitFill>>)
    requires forall k :: 0 <= k <= |batches| ==> pid in RunExits(p, pid, batches[..k]).open
    ensures pid in p.open
    ensures var q := RunExits(p, pid, batches);
      && pid in q.open
      && q.open[pid] == PositionAfter(p.open[pid], batches, p.takerFee)
      && (SoundPosition(p.open[pid]) ==> SoundPosition(q.open[pid]))
      && q.capital - p.capital == q.open[pid].actualPayout - p.open[pid].actualPayout
      && q.takerFee == p.takerFee
  {
    assert batches[..0] == [] && batches[..|batches|] == batches;
    if batches != [] {
      var n := |batches| - 1;
      forall k | 0 <= k <= n ensures pid in RunExits(p, pid, batches[..n][..k]).open {
        assert batches[..n][..k] == batches[..k];
      }
      OpenExitsCreditOnce(p, pid, batches[..n]);
      var mid := RunExits(p, pid, batches[..n]);
      ExitCredits(mid, pid, batches[n]);
      if SoundPosition(p.open[pid]) {
        ExitKeepsPositionSound(mid.open[pid], batches[n], p.takerFee);
      }
    }
  }

  /**
   Over any batches of exits, the last of which closes the position, the manager is credited
   every batch's net proceeds, plus once more everything the position had been paid before the last.
   */
  lemma ClosingExitDoubleCredits(p: Portfolio, pid: string, batches: seq<seq<ExitFill>>, last: seq<ExitFill>)
    requires forall k :: 0 <= k <= |batches| ==> pid in RunExits(p, pid, batches[..k]).open
    requires pid !in RunExits(p, pid, batches).Exit(pid, last).open
    ensures pid in p.open
    ensures var earlier := PositionAfter(p.open[pid], batches, p.takerFee);
      var t := TallyFills(earlier.markets, last, p.takerFee);
      RunExits(p, pid, batches).Exit(pid, last).capital
        == p.capital + (earlier.actualPayout - p.open[pid].actualPayout) + t.proceeds + earlier.actualPayout
  {
    OpenExitsCreditOnce(p, pid, batches);
    ExitCredits(RunExits(p, pid, batches), pid, last);
  }

  /** From an accepted entry to its closing exit: cost and fee out, net proceeds in, all but the last batch's twice. */
  lemma EntryToClosingExit(p: Portfolio, pid: string, e: Entry, batches: seq<seq<ExitFill>>, last: seq<ExitFill>)
    requires p.Accepts(e)
    requires forall k :: 0 <= k <= |batches| ==> pid in RunExits(p.Enter(pid, e), pid, batches[..k]).open
    requires pid !in RunExits(p.Enter(pid, e), pid, batches).Exit(pid, last).open
    ensures var earlier := PositionAfter(p.NewPosition(e), batches, p.takerFee);
      var t := TallyFills(earlier.markets, last, p.takerFee);
      RunExits(p.Enter(pid, e), pid, batches).Exit(pid, last).capital
        == p.capital - p.Required(e) + (earlier.actualPayout + t.proceeds) + earlier.actualPayout
  {
    ClosingExitDoubleCredits(p.Enter(pid, e), pid, batches, last);
  }

  // ---------- Exits and the conservation of money ----------

  /** What is left of the bets after a batch: the book cost of the shares not sold. */
  function Unsold(p: Position, fills: seq<ExitFill>, takerFee: real): real {
    p.totalCapital - TallyFills(p.markets, fills, takerFee).cost
  }

  /**
   A batch that leaves the position open adds its fees to the money, because they are taken from
   the proceeds and added to the fees paid. A closing batch credits earlier payouts again, takes
   off the profit counted before, and forgets the fees and what was not sold.
   */
  function ExitGap(p: Position, fills: seq<ExitFill>, takerFee: real, closes: bool): real {
    if !closes then TallyFills(p.markets, fills, takerFee).fees
    else p.actualPayout - p.actualProfit - p.feesPaid - Unsold(p, fills, takerFee)
  }

  lemma ExitMovesMoney(p: Portfolio, pid: string, fills: seq<ExitFill>)
    requires pid in p.open && SoundPosition(p.open[pid])
    ensures var q := p.Exit(pid, fills);
      M.Money(q) == M.Money(p) + ExitGap(p.open[pid], fills, p.takerFee, pid !in q.open)
  {
    var after := AfterExit(p.open[pid], fills, p.takerFee);
    ExitKeepsPositionSound(p.open[pid], fills, p.takerFee);
    M.InvestedUpdate(p.open, pid, after);
    M.InvestedRemove(p.open, pid);
  }

  /** An exit conserves money exactly when its gap is zero; while the position stays open, when it pays no fee. */
  lemma ExitConservesExactly(p: Portfolio, pid: string, fills: seq<ExitFill>)
    requires pid in p.open && SoundPosition(p.open[pid]) && M.Conserved(p)
    ensures var q := p.Exit(pid, fills);
      M.Conserved(q) <==>
        if pid in q.open then TallyFills(p.open[pid].markets, fills, p.takerFee).fees == 0.0
        else
          p.open[pid].actualPayout
          == p.open[pid].actualProfit + p.open[pid].feesPaid + Unsold(p.open[pid], fills, p.takerFee)
  {
    ExitMovesMoney(p, pid, fills);
  }

  /** Partial exits leave the money up by the fees they paid, and a later resolution leaves that gap as it is. */
  lemma {:induction false} ResolutionKeepsTheExitFees(p: Portfolio, pid: string, batches: seq<seq<ExitFill>>,
                                                      winner: string)
    requires forall k :: 0 <= k <= |batches| ==> pid in RunExits(p, pid, batches[..k]).open
    requires pid in p.open && SoundPosition(p.open[pid])
    ensures var q := RunExits(p, pid, batches);
      && pid in q.open
      && M.Money(q) == M.Money(p) + (q.open[pid].feesPaid - p.open[pid].feesPaid)
      && M.Money(q.Resolve(pid, winner)) == M.Money(q)
  {
    assert batches[..|batches|] == batches;
    if batches != [] {
      var n := |batches| - 1;
      forall k | 0 <= k <= n ensures pid in RunExits(p, pid, batches[..n][..k]).open {
        assert batches[..n][..k] == batches[..k];
      }
      OpenExitsCreditOnce(p, pid, batches[..n]);
      ResolutionKeepsTheExitFees(p, pid, batches[..n], winner);
      ExitMovesMoney(RunExits(p, pid, batches[..n]), pid, batches[n]);
    }
    var q := RunExits(p, pid, batches);
    M.CloseKeepsMoney(q, pid, Payout(q.open[pid], winner));
  }
}
