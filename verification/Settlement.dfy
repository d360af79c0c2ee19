/** What a resolved position is paid, leg by leg, and which side of its markets it is paid on. */
module Settlement {
  import opened Totals
  import opened Arithmetic
  import opened Positions

  // ---------- The side paid ----------

  lemma {:induction false} ContainsSellExactly(s: string)
    ensures ContainsSell(s) <==> exists i :: 0 <= i && i + 4 <= |s| && s[i..][..4] == "sell"
  {
    if |s| >= 4 {
      ContainsSellExactly(s[1..]);
      assert s[0..] == s;
      if ContainsSell(s[1..]) {
        var i :| 0 <= i && i + 4 <= |s[1..]| && s[1..][i..][..4] == "sell";
        assert s[i + 1..] == s[1..][i..];
        assert s[i + 1..][..4] == "sell";
      }
      if i :| 0 < i && i + 4 <= |s| && s[i..][..4] == "sell" {
        assert s[1..][i - 1..] == s[i..];
      }
    }
  }

  /** The method's name decides; without one the recorded side does, and without that the strategy. */
  lemma SidePaid(p: Position)
    ensures p.methodName != "" ==> (ResolvesAsSell(p) <==> ContainsSell(p.methodName))
    ensures p.methodName == "" && p.isSell.Some? ==> (ResolvesAsSell(p) <==> p.isSell.value)
    ensures p.methodName == "" && p.isSell.None? ==>
      (ResolvesAsSell(p) <==> p.strategy.Some? && ContainsSell(p.strategy.value))
  {
  }

  // ---------- The payout ----------

  /** The shares of all legs but the winner's. */
  ghost function LosingShares(markets: map<string, Leg>, winner: string): map<string, real> {
    map mid | mid in markets && mid != winner :: markets[mid].shares
  }

  lemma LosersPay(markets: map<string, Leg>, winner: string)
    requires forall mid :: mid in markets ==> markets[mid].shares > 0.0
    ensures Total(LosingLegPayout(markets, winner)) == Total(LosingShares(markets, winner))
  {
    var pays := LosingLegPayout(markets, winner);
    if winner in markets {
      TotalRemove(pays, winner);
      assert pays - {winner} == LosingShares(markets, winner);
    } else {
      assert pays == LosingShares(markets, winner);
    }
  }

  /**
   On the NO side every share of a losing leg pays a dollar. On the YES side the winner's leg pays a
   dollar for each share its bet bought at the entry price, and the other legs nothing.
   */
  lemma PayoutMeans(p: Position, winner: string)
    ensures ResolvesAsSell(p) && (forall mid :: mid in p.markets ==> p.markets[mid].shares > 0.0) ==>
      Payout(p, winner) == Total(LosingShares(p.markets, winner))
    ensures !ResolvesAsSell(p) && winner in p.markets && p.markets[winner].entryPrice > 0.0 ==>
      Product(Payout(p, winner), p.markets[winner].entryPrice) == p.markets[winner].bet
    ensures !ResolvesAsSell(p) && (winner in p.markets ==> p.markets[winner].entryPrice <= 0.0) ==>
      Payout(p, winner) == 0.0
  {
    if ResolvesAsSell(p) {
      if forall mid :: mid in p.markets ==> p.markets[mid].shares > 0.0 { LosersPay(p.markets, winner); }
    } else if winner in p.markets && p.markets[winner].entryPrice > 0.0 {
      DivisionBack(p.markets[winner].bet, p.markets[winner].entryPrice);
    }
  }

  /** A leg without recorded shares is paid for those its bet would have bought at what YES leaves of a dollar. */
  lemma UnsharedLegPays(leg: Leg)
    requires leg.shares <= 0.0
    ensures leg.entryPrice < 1.0 ==> Product(NoLegPayout(leg), 1.0 - leg.entryPrice) == leg.bet
    ensures leg.entryPrice >= 1.0 ==> NoLegPayout(leg) == 0.0
  {
    if leg.entryPrice < 1.0 { DivisionBack(leg.bet, 1.0 - leg.entryPrice); }
  }
}
