/** What an entry's bets cover: the listed markets become legs, the rest is only paid for. */
module Entries {
  import opened Totals
  import opened Arithmetic
  import opened Positions

  /** Bets on listed markets, as legs carry them. */
  ghost function ListedBets(e: Entry): map<string, real> { map mid | mid in e.marketIds :: GetOr(e.bets, mid, 0.0) }

  ghost function Unlisted(e: Entry): map<string, real> { map mid | mid in e.bets && mid !in e.marketIds :: e.bets[mid] }

  lemma {:induction false} ListedAndUnlisted(bets: map<string, real>, listed: map<string, real>,
                                             unlisted: map<string, real>)
    requires forall mid :: mid in listed ==> listed[mid] == GetOr(bets, mid, 0.0)
    requires forall mid :: mid in unlisted <==> mid in bets && mid !in listed
    requires forall mid :: mid in unlisted ==> unlisted[mid] == bets[mid]
    ensures Total(bets) == Total(listed) + Total(unlisted)
    decreases listed.Keys
  {
    if listed == map[] {
      assert unlisted == bets;
    } else {
      var mid := Pick(listed);
      if mid in bets {
        ListedAndUnlisted(bets - {mid}, listed - {mid}, unlisted);
        TotalRemove(bets, mid);
      } else {
        ListedAndUnlisted(bets, listed - {mid}, unlisted);
      }
    }
  }

  lemma EntryTotals(e: Entry)
    ensures Total(Bets(EntryLegs(e))) == Total(e.bets) - Total(Unlisted(e))
  {
    assert Bets(EntryLegs(e)) == ListedBets(e);
    ListedAndUnlisted(e.bets, ListedBets(e), Unlisted(e));
  }

  /** Position ids are fresh, bets are positive and cover no market but the listed ones. */
  ghost predicate CleanEntry(e: Entry) {
    && (forall mid :: mid in e.bets ==> e.bets[mid] > 0.0)
    && (forall mid :: mid in e.marketIds ==> mid in e.bets)
  }

  ghost predicate CoversBets(e: Entry) { forall mid :: mid in e.bets ==> mid in e.marketIds }

  lemma UnlistedIsZeroExactly(e: Entry)
    requires CleanEntry(e)
    ensures Total(Unlisted(e)) == 0.0 <==> CoversBets(e)
  {
    if CoversBets(e) {
      assert Unlisted(e) == map[];
    } else {
      var mid :| mid in e.bets && mid !in e.marketIds;
      TotalAtLeast(Unlisted(e), mid);
    }
  }

  /** Nothing is overdrawn: what every leg of an open position keeps. */
  ghost predicate SoundLegs(markets: map<string, Leg>) {
    forall mid :: mid in markets ==> SoundLeg(markets[mid])
  }

  predicate SoundLeg(leg: Leg) { leg.shares >= 0.0 && leg.bet >= 0.0 }

  /** No leg is overdrawn, and the capital at work is the sum of the leg bets. */
  ghost predicate SoundPosition(p: Position) {
    SoundLegs(p.markets) && p.totalCapital == Total(Bets(p.markets))
  }

  /** A new position is sound exactly when every bet is on a listed market, whatever the prices are. */
  lemma NewPositionSoundExactly(p: Portfolio, e: Entry)
    requires CleanEntry(e)
    ensures SoundLegs(EntryLegs(e))
    ensures SoundPosition(p.NewPosition(e)) <==> CoversBets(e)
  {
    EntryTotals(e);
    UnlistedIsZeroExactly(e);
    forall mid | mid in e.marketIds ensures SoundLeg(EntryLeg(e, mid)) {
      if e.isSell {
        QuotientNonNegative(e.bets[mid], NoPrice(e, mid));
      } else if GetOr(e.prices, mid, 0.0) > 0.0 {
        QuotientNonNegative(e.bets[mid], e.prices[mid]);
      }
    }
  }

  /** A new leg carries its quoted price and its bet, which buys its shares at the price of the side taken. */
  lemma NewLegBuys(e: Entry, mid: string)
    requires mid in e.marketIds && mid in e.prices && mid in e.bets
    ensures mid in EntryLegs(e)
    ensures var leg, yes := EntryLegs(e)[mid], e.prices[mid];
      var no := if mid in e.noPrices then e.noPrices[mid] else 1.0 - yes;
      && leg.entryPrice == yes && leg.bet == e.bets[mid] && leg.holdsNo == e.isSell
      && leg.intendedShares == leg.shares && leg.actualShares == 0.0 && leg.token == ""
      && (e.isSell ==> Product(leg.shares, if no > 0.001 then no else 0.001) == leg.bet)
      && (!e.isSell && yes > 0.0 ==> Product(leg.shares, yes) == leg.bet)
      && (!e.isSell && yes <= 0.0 ==> leg.shares == 0.0)
  {
    if e.isSell {
      DivisionBack(e.bets[mid], NoPrice(e, mid));
    } else if e.prices[mid] > 0.0 {
      DivisionBack(e.bets[mid], e.prices[mid]);
    }
  }
}
