/**
 Fill lifecycle events against the suspense account. Events may be repeated and may arrive
 in any interleaving; the theorems say how little of the stream decides the final books.
 */
module FillEvents {
  import opened Totals
  import A = Accounting
  import opened Orders

  datatype FillEvent = FillEvent(trade: string, status: TradeStatus, order: TrackedOrder, opposing: bool)

  datatype FillAction =
    | EnteredSuspense
    | Promoted
    | HeldForRetry
    | Reversed(needsOpposingLegSell: bool)
    | AlreadyProcessed

  function Key(e: FillEvent): A.TradeKey { A.VenueTrade(e.trade) }

  /** What a matched order locks: the taker fee is fixed at two percent. */
  function Locked(o: TrackedOrder): A.SuspenseEntry {
    var capital := o.price * o.filled;
    A.SuspenseEntry(o.positionId, o.tokenId, o.marketId, o.filled, o.avgFillPrice, capital, capital * 0.02, A.Matched)
  }

  function Process(l: A.Ledger, e: FillEvent): A.Ledger {
    match e.status
    case Matched => l.EnterSuspense(Key(e), Locked(e.order))
    case Confirmed => l.ConfirmFromSuspense(Key(e))
    case Retrying => l.MarkRetrying(Key(e))
    case Failed => l.ReverseSuspense(Key(e))
    case _ => l
  }

  function Action(l: A.Ledger, e: FillEvent): FillAction {
    match e.status
    case Matched => if Key(e) in l.suspense then AlreadyProcessed else EnteredSuspense
    case Confirmed => if l.InSuspense(Key(e)) then Promoted else AlreadyProcessed
    case Retrying => HeldForRetry
    case Failed => if l.InSuspense(Key(e)) then Reversed(e.opposing) else AlreadyProcessed
    case _ => AlreadyProcessed
  }

  method ProcessFillEvent(ledger: A.AccountingLedger, e: FillEvent) returns (action: FillAction)
    modifies ledger
    ensures ledger.View() == Process(old(ledger.View()), e)
    ensures action == Action(old(ledger.View()), e)
  {
    match e.status {
      case Matched =>
        var capital := e.order.price * e.order.filled;
        var fees := capital * 0.02;
        assert capital == Locked(e.order).capital;
        assert fees == Locked(e.order).fees;
        var ok := ledger.EnterSuspense(Key(e),
          A.SuspenseEntry(e.order.positionId, e.order.tokenId, e.order.marketId,
                          e.order.filled, e.order.avgFillPrice, capital, fees, A.Matched));
        action := if ok then EnteredSuspense else AlreadyProcessed;
      case Confirmed =>
        var promoted := ledger.ConfirmFromSuspense(Key(e));
        action := if promoted.Some? then Promoted else AlreadyProcessed;
      case Retrying =>
        ledger.MarkSuspenseRetrying(Key(e));
        action := HeldForRetry;
      case Failed =>
        var reversed := ledger.ReverseSuspense(Key(e));
        action := if reversed.Some? then Reversed(e.opposing) else AlreadyProcessed;
      case _ =>
        action := AlreadyProcessed;
    }
  }

  // ---------- An event's effect, as a function of its own trade only ----------

  datatype Effect = Effect(
    posts: seq<A.JournalEntry>, cash: real, deployed: real, fees: real,
    entry: Option<A.SuspenseEntry>, bought: Option<A.SuspenseEntry>, records: bool)

  const Nothing := Effect([], 0.0, 0.0, 0.0, None, None, false)

  function Current(l: A.Ledger, key: A.TradeKey): Option<A.SuspenseEntry> {
    if key in l.suspense then Some(l.suspense[key]) else None
  }

  function EffectOf(current: Option<A.SuspenseEntry>, e: FillEvent): Effect {
    var key := Key(e);
    match e.status
    case Matched =>
      if current.Some? then Nothing else
        var s := Locked(e.order);
        var total := s.capital + s.fees;
        Effect([A.JournalEntry(A.Suspense(key), total, 0.0, Some(s.pid)),
          A.JournalEntry(A.Cash, 0.0, total, Some(s.pid))], -total, 0.0, 0.0, Some(s), None, true)
    case Confirmed =>
      if current.None? || !current.value.Live() then Nothing else
        var s := current.value;
        Effect(A.ConfirmEntries(key, s), 0.0, s.capital, s.fees, Some(s.(status := A.Confirmed)), current, false)
    case Retrying =>
      if current.None? || current.value.status != A.Matched then Nothing else
        Nothing.(entry := Some(current.value.(status := A.Retrying)))
    case Failed =>
      if current.None? || !current.value.Live() then Nothing else
        var s := current.value;
        var total := s.capital + s.fees;
        Effect([A.JournalEntry(A.Cash, total, 0.0, Some(s.pid)),
          A.JournalEntry(A.Suspense(key), 0.0, total, Some(s.pid))],
               total, 0.0, 0.0, Some(s.(status := A.Failed)), None, false)
    case _ => Nothing
  }

  function Take(l: A.Ledger, key: A.TradeKey, f: Effect): A.Ledger {
    l.(entries := l.entries + f.posts,
       cash := l.cash + f.cash, deployed := l.deployed + f.deployed, fees := l.fees + f.fees,
       suspense := if f.entry.Some? then l.suspense[key := f.entry.value] else l.suspense,
       holdings := if f.bought.None? then l.holdings else
         A.Bought(l.holdings, f.bought.value.asset, f.bought.value.market, f.bought.value.shares,
           f.bought.value.capital), recorded := if f.records then l.recorded + {key} else l.recorded)
  }

  lemma ProcessTakesEffect(l: A.Ledger, e: FillEvent)
    ensures Process(l, e) == Take(l, Key(e), EffectOf(Current(l, Key(e)), e))
  {
    assert l.entries + [] == l.entries;
  }

  // ---------- Streams ----------

  function Run(l: A.Ledger, es: seq<FillEvent>): A.Ledger {
    if es == [] then l else Process(Run(l, es[..|es| - 1]), es[|es| - 1])
  }

  lemma {:induction false} RunAppend(l: A.Ledger, a: seq<FillEvent>, b: seq<FillEvent>)
    ensures Run(l, a + b) == Run(Run(l, a), b)
  {
    if b == [] {
      assert a + b == a;
    } else {
      assert (a + b)[..|a + b| - 1] == a + b[..|b| - 1];
      RunAppend(l, a, b[..|b| - 1]);
    }
  }

  // ---------- Replay: duplicates, retries and late events do not matter ----------

  predicate Settles(e: FillEvent) { e.status == Confirmed || e.status == Failed }

  /** Trade `trade` was matched among the first `i` events. */
  ghost predicate MatchedBy(es: seq<FillEvent>, trade: string, i: nat)
    requires i <= |es|
  {
    exists m :: 0 <= m < i && es[m].trade == trade && es[m].status == Matched
  }

  /** The trade has been opened by then: it was pending already, or it is new and a match arrived. */
  ghost predicate OpenedBy(l: A.Ledger, es: seq<FillEvent>, trade: string, i: nat)
    requires i <= |es|
  {
    || l.InSuspense(A.VenueTrade(trade))
    || (A.VenueTrade(trade) !in l.suspense && MatchedBy(es, trade, i))
  }

  ghost predicate SettledBy(l: A.Ledger, es: seq<FillEvent>, trade: string, i: nat)
    requires i <= |es|
  {
    exists j :: 0 <= j < i && es[j].trade == trade && Settles(es[j]) && OpenedBy(l, es, trade, j)
  }

  /** The first match of a new trade, or the first confirmation or failure after it was opened. */
  ghost predicate Essential(l: A.Ledger, es: seq<FillEvent>, i: nat)
    requires i < |es|
  {
    var trade := es[i].trade;
    || (es[i].status == Matched && Key(es[i]) !in l.suspense && !MatchedBy(es, trade, i))
    || (Settles(es[i]) && OpenedBy(l, es, trade, i) && !SettledBy(l, es, trade, i))
  }

  ghost function EssentialPart(l: A.Ledger, es: seq<FillEvent>, i: nat): seq<FillEvent>
    requires i <= |es|
  {
    if i == 0 then [] else
      EssentialPart(l, es, i - 1) + (if Essential(l, es, i - 1) then [es[i - 1]] else [])
  }

  lemma PhaseStep(now: A.Ledger, e: FillEvent, trade: string)
    ensures var key := A.VenueTrade(trade); var next := Process(now, e);
      && (key in next.suspense <==> key in now.suspense || (e.trade == trade && e.status == Matched))
      && (next.InSuspense(key) <==>
          if e.trade != trade then now.InSuspense(key)
          else if e.status == Matched then now.InSuspense(key) || key !in now.suspense
          else !Settles(e) && now.InSuspense(key))
  {
  }

  /** Where each trade stands after any prefix of the stream. */
  lemma {:induction false} PhaseAfter(l: A.Ledger, es: seq<FillEvent>, trade: string, i: nat)
    requires i <= |es|
    ensures var now := Run(l, es[..i]); var key := A.VenueTrade(trade);
      && (key in now.suspense <==> key in l.suspense || MatchedBy(es, trade, i))
      && (now.InSuspense(key) <==> OpenedBy(l, es, trade, i) && !SettledBy(l, es, trade, i))
  {
    if i == 0 {
      assert es[..0] == [];
    } else {
      PhaseAfter(l, es, trade, i - 1);
      assert es[..i][..i - 1] == es[..i - 1];
      var e := es[i - 1];
      PhaseStep(Run(l, es[..i - 1]), e, trade);
      if e.trade != trade {
        assert MatchedBy(es, trade, i) <==> MatchedBy(es, trade, i - 1);
        assert SettledBy(l, es, trade, i) <==> SettledBy(l, es, trade, i - 1);
      } else if Settles(e) {
        assert MatchedBy(es, trade, i) <==> MatchedBy(es, trade, i - 1);
      } else {
        assert SettledBy(l, es, trade, i) <==> SettledBy(l, es, trade, i - 1);
        if e.status == Matched { assert MatchedBy(es, trade, i); }
        NotSettledBeforeOpening(l, es, trade, i - 1);
      }
    }
  }

  lemma NotSettledBeforeOpening(l: A.Ledger, es: seq<FillEvent>, trade: string, i: nat)
    requires i <= |es|
    ensures SettledBy(l, es, trade, i) ==> OpenedBy(l, es, trade, i)
  {
  }

  /** Equal up to whether a pending trade is marked as retrying. */
  ghost predicate SameBooks(l: A.Ledger, m: A.Ledger) {
    l.(suspense := Unmarked(l.suspense)) == m.(suspense := Unmarked(m.suspense))
  }

  function UnmarkedEntry(e: A.SuspenseEntry): A.SuspenseEntry {
    if e.Live() then e.(status := A.Matched) else e
  }

  function Unmarked(s: map<A.TradeKey, A.SuspenseEntry>): map<A.TradeKey, A.SuspenseEntry> {
    map k | k in s :: UnmarkedEntry(s[k])
  }

  lemma UnmarkedUpdate(s: map<A.TradeKey, A.SuspenseEntry>, key: A.TradeKey, e: A.SuspenseEntry)
    ensures Unmarked(s[key := e]) == Unmarked(s)[key := UnmarkedEntry(e)]
  {
  }

  lemma SameCurrent(l: A.Ledger, m: A.Ledger, key: A.TradeKey)
    requires SameBooks(l, m)
    ensures Current(l, key).Some? <==> Current(m, key).Some?
    ensures Current(l, key).Some? ==> UnmarkedEntry(Current(l, key).value) == UnmarkedEntry(Current(m, key).value)
  {
    assert key in l.suspense <==> key in Unmarked(l.suspense);
    assert key in m.suspense <==> key in Unmarked(m.suspense);
    if key in l.suspense {
      assert Unmarked(l.suspense)[key] == Unmarked(m.suspense)[key];
    }
  }

  /** A retry mark changes neither what an event posts nor how the trade ends. */
  lemma MarkIsInvisible(c: Option<A.SuspenseEntry>, d: Option<A.SuspenseEntry>, e: FillEvent)
    requires c.Some? <==> d.Some?
    requires c.Some? ==> UnmarkedEntry(c.value) == UnmarkedEntry(d.value)
    ensures var f, g := EffectOf(c, e), EffectOf(d, e);
      && (f.posts, f.cash, f.deployed, f.fees, f.records) == (g.posts, g.cash, g.deployed, g.fees, g.records)
      && (f.bought.Some? <==> g.bought.Some?)
      && (f.bought.Some? ==> UnmarkedEntry(f.bought.value) == UnmarkedEntry(g.bought.value))
      && (e.status != Retrying ==> (f.entry.Some? <==> g.entry.Some?))
      && (e.status != Retrying && f.entry.Some? ==> f.entry == g.entry)
      && (e.status == Retrying ==> f == Nothing.(entry := f.entry) && g == Nothing.(entry := g.entry))
      && (e.status == Retrying && f.entry.Some? ==> c.Some? && UnmarkedEntry(f.entry.value) == UnmarkedEntry(c.value))
      && (e.status == Retrying && g.entry.Some? ==> d.Some? && UnmarkedEntry(g.entry.value) == UnmarkedEntry(d.value))
  {
  }

  /** A retry mark alone leaves the books the same. */
  lemma RetryIsInvisible(l: A.Ledger, e: FillEvent)
    requires e.status == Retrying
    ensures SameBooks(l, Process(l, e))
  {
  }

  lemma TakeRespectsSameBooks(l: A.Ledger, m: A.Ledger, key: A.TradeKey, f: Effect, g: Effect)
    requires SameBooks(l, m)
    requires (f.posts, f.cash, f.deployed, f.fees, f.records) == (g.posts, g.cash, g.deployed, g.fees, g.records)
    requires f.entry == g.entry
    requires f.bought.Some? <==> g.bought.Some?
    requires f.bought.Some? ==> UnmarkedEntry(f.bought.value) == UnmarkedEntry(g.bought.value)
    ensures SameBooks(Take(l, key, f), Take(m, key, g))
  {
    if f.entry.Some? {
      UnmarkedUpdate(l.suspense, key, f.entry.value);
      UnmarkedUpdate(m.suspense, key, f.entry.value);
    }
  }

  lemma ProcessRespectsSameBooks(l: A.Ledger, m: A.Ledger, e: FillEvent)
    requires SameBooks(l, m)
    ensures SameBooks(Process(l, e), Process(m, e))
  {
    if e.status == Retrying {
      RetryIsInvisible(l, e);
      RetryIsInvisible(m, e);
    } else {
      var c, d := Current(l, Key(e)), Current(m, Key(e));
      SameCurrent(l, m, Key(e));
      MarkIsInvisible(c, d, e);
      ProcessTakesEffect(l, e);
      ProcessTakesEffect(m, e);
      TakeRespectsSameBooks(l, m, Key(e), EffectOf(c, e), EffectOf(d, e));
    }
  }

  /** An event that is not essential changes nothing but a retry mark. */
  lemma InessentialIsNoOp(l: A.Ledger, es: seq<FillEvent>, i: nat)
    requires i < |es| && !Essential(l, es, i)
    ensures SameBooks(Run(l, es[..i]), Process(Run(l, es[..i]), es[i]))
  {
    PhaseAfter(l, es, es[i].trade, i);
    if es[i].status == Retrying {
      RetryIsInvisible(Run(l, es[..i]), es[i]);
    }
  }

  /**
   Replaying a stream leaves the same journal, balances and holdings as replaying only the
   first match of each new trade and the first settlement after it.
   */
  lemma {:induction false} OnlyEssentialEventsMatter(l: A.Ledger, es: seq<FillEvent>, i: nat)
    requires i <= |es|
    ensures SameBooks(Run(l, es[..i]), Run(l, EssentialPart(l, es, i)))
  {
    if i == 0 {
      assert es[..0] == [];
    } else {
      OnlyEssentialEventsMatter(l, es, i - 1);
      assert es[..i][..i - 1] == es[..i - 1];
      var kept := EssentialPart(l, es, i - 1);
      if Essential(l, es, i - 1) {
        ProcessRespectsSameBooks(Run(l, es[..i - 1]), Run(l, kept), es[i - 1]);
        assert (kept + [es[i - 1]])[..|kept|] == kept;
      } else {
        InessentialIsNoOp(l, es, i - 1);
        assert kept + [] == kept;
      }
    }
  }

  // ---------- Interleaving: events of different trades commute ----------

  /** Same balances, suspense, dedup keys and holdings; the same entries, in some order. */
  ghost predicate SameBalances(l: A.Ledger, m: A.Ledger) {
    && l.cash == m.cash && l.deployed == m.deployed && l.fees == m.fees && l.pnl == m.pnl
    && l.suspense == m.suspense && l.recorded == m.recorded
    && multiset(l.entries) == multiset(m.entries)
    && SameHoldings(l.holdings, m.holdings)
  }

  lemma TakeRespectsSameBalances(l: A.Ledger, m: A.Ledger, key: A.TradeKey, f: Effect)
    requires SameBalances(l, m)
    ensures SameBalances(Take(l, key, f), Take(m, key, f))
  {
  }

  lemma EntriesCommute(es: seq<A.JournalEntry>, f: seq<A.JournalEntry>, g: seq<A.JournalEntry>)
    ensures multiset(es + f + g) == multiset(es + g + f)
  {
  }

  ghost predicate SameHoldings(h: map<string, A.AssetHolding>, k: map<string, A.AssetHolding>) {
    && h.Keys == k.Keys
    && forall a :: a in h ==> h[a].shares == k[a].shares && h[a].costBasis == k[a].costBasis
  }

  lemma PurchasesCommute(h: map<string, A.AssetHolding>, e: A.SuspenseEntry, f: A.SuspenseEntry)
    ensures SameHoldings(
      A.Bought(A.Bought(h, e.asset, e.market, e.shares, e.capital), f.asset, f.market, f.shares, f.capital),
      A.Bought(A.Bought(h, f.asset, f.market, f.shares, f.capital), e.asset, e.market, e.shares, e.capital))
  {
  }

  lemma EffectsCommute(l: A.Ledger, j: A.TradeKey, f: Effect, k: A.TradeKey, g: Effect)
    requires j != k
    ensures SameBalances(Take(Take(l, j, f), k, g), Take(Take(l, k, g), j, f))
  {
    var x, y := Take(Take(l, j, f), k, g), Take(Take(l, k, g), j, f);
    EntriesCommute(l.entries, f.posts, g.posts);
    assert SameHoldings(x.holdings, y.holdings) by {
      if f.bought.Some? && g.bought.Some? {
        PurchasesCommute(l.holdings, f.bought.value, g.bought.value);
      }
    }
    assert x.suspense == y.suspense;
  }

  lemma ProcessRespectsSameBalances(l: A.Ledger, m: A.Ledger, e: FillEvent)
    requires SameBalances(l, m)
    ensures SameBalances(Process(l, e), Process(m, e))
  {
    ProcessTakesEffect(l, e);
    ProcessTakesEffect(m, e);
    TakeRespectsSameBalances(l, m, Key(e), EffectOf(Current(l, Key(e)), e));
  }

  lemma {:induction false} RunRespectsSameBalances(l: A.Ledger, m: A.Ledger, es: seq<FillEvent>)
    requires SameBalances(l, m)
    ensures SameBalances(Run(l, es), Run(m, es))
  {
    if es != [] {
      RunRespectsSameBalances(l, m, es[..|es| - 1]);
      ProcessRespectsSameBalances(Run(l, es[..|es| - 1]), Run(m, es[..|es| - 1]), es[|es| - 1]);
    }
  }

  lemma EventsCommute(l: A.Ledger, a: FillEvent, b: FillEvent)
    requires a.trade != b.trade
    ensures SameBalances(Process(Process(l, a), b), Process(Process(l, b), a))
  {
    var f, g := EffectOf(Current(l, Key(a)), a), EffectOf(Current(l, Key(b)), b);
    ProcessTakesEffect(l, a);
    ProcessTakesEffect(l, b);
    ProcessTakesEffect(Process(l, a), b);
    ProcessTakesEffect(Process(l, b), a);
    assert Current(Process(l, a), Key(b)) == Current(l, Key(b));
    assert Current(Process(l, b), Key(a)) == Current(l, Key(a));
    EffectsCommute(l, Key(a), f, Key(b), g);
  }

  lemma {:induction false} BubbleToFront(l: A.Ledger, pre: seq<FillEvent>, e: FillEvent)
    requires forall i :: 0 <= i < |pre| ==> pre[i].trade != e.trade
    ensures SameBalances(Run(l, pre + [e]), Run(Process(l, e), pre))
  {
    assert (pre + [e])[..|pre|] == pre;
    if pre != [] {
      var n := |pre| - 1;
      var x := pre[n];
      EventsCommute(Run(l, pre[..n]), x, e);
      BubbleToFront(l, pre[..n], e);
      assert (pre[..n] + [e])[..n] == pre[..n];
      ProcessRespectsSameBalances(Run(l, pre[..n] + [e]), Run(Process(l, e), pre[..n]), x);
    }
  }

  /** The events of one trade, in stream order. */
  function Project(es: seq<FillEvent>, trade: string): seq<FillEvent> {
    if es == [] then [] else (if es[0].trade == trade then [es[0]] else []) + Project(es[1..], trade)
  }

  lemma {:induction false} ProjectAppend(a: seq<FillEvent>, b: seq<FillEvent>, trade: string)
    ensures Project(a + b, trade) == Project(a, trade) + Project(b, trade)
  {
    if a == [] {
      assert a + b == b;
    } else {
      assert (a + b)[1..] == a[1..] + b;
      ProjectAppend(a[1..], b, trade);
    }
  }

  /** Splits a stream at the first event of a trade. */
  lemma {:induction false} SplitAtFirst(es: seq<FillEvent>, trade: string)
    returns (pre: seq<FillEvent>, post: seq<FillEvent>)
    requires Project(es, trade) != []
    ensures es == pre + [Project(es, trade)[0]] + post
    ensures forall i :: 0 <= i < |pre| ==> pre[i].trade != trade
    ensures Project(pre, trade) == []
  {
    if es[0].trade == trade {
      pre, post := [], es[1..];
    } else {
      pre, post := SplitAtFirst(es[1..], trade);
      pre := [es[0]] + pre;
      assert pre[1..] + [] == pre[1..];
    }
  }

  lemma ProjectDrop(pre: seq<FillEvent>, e: FillEvent, post: seq<FillEvent>, trade: string)
    requires Project(pre, e.trade) == []
    ensures Project(pre + [e] + post, trade)
         == if trade == e.trade then [e] + Project(pre + post, trade) else Project(pre + post, trade)
  {
    ProjectAppend(pre + [e], post, trade);
    ProjectAppend(pre, [e], trade);
    ProjectAppend(pre, post, trade);
    assert [e][1..] == [];
    assert Project([e], trade) == if e.trade == trade then [e] else [];
  }

  ghost predicate SameStreams(es: seq<FillEvent>, fs: seq<FillEvent>) {
    forall trade :: Project(es, trade) == Project(fs, trade)
  }

  lemma EmptyStreams(fs: seq<FillEvent>)
    requires SameStreams([], fs)
    ensures fs == []
  {
    if fs != [] {
      FirstIsProjected(fs);
    }
  }

  lemma FirstIsProjected(fs: seq<FillEvent>)
    requires fs != []
    ensures |Project(fs, fs[0].trade)| > 0
  {
  }

  lemma RestOfStreams(es: seq<FillEvent>, pre: seq<FillEvent>, e: FillEvent, post: seq<FillEvent>)
    requires es != [] && es[0] == e && Project(pre, e.trade) == []
    requires SameStreams(es, pre + [e] + post)
    ensures SameStreams(es[1..], pre + post)
  {
    forall trade ensures Project(es[1..], trade) == Project(pre + post, trade) {
      ProjectDrop(pre, e, post, trade);
      assert Project(es, trade) == Project(pre + [e] + post, trade);
      if trade == e.trade {
        assert Project(es[1..], trade) == Project(es, trade)[1..];
      }
    }
  }

  lemma Join(a: A.Ledger, b: A.Ledger, c: A.Ledger)
    requires SameBalances(a, b) && SameBalances(c, b)
    ensures SameBalances(a, c)
  {
  }

  /** Streams that agree on each trade's own events end with the same balances, however interleaved. */
  lemma {:induction false} InterleavingIrrelevant(l: A.Ledger, m: A.Ledger, es: seq<FillEvent>, fs: seq<FillEvent>)
    requires SameBalances(l, m) && SameStreams(es, fs)
    ensures SameBalances(Run(l, es), Run(m, fs))
    decreases |es|
  {
    if es == [] {
      EmptyStreams(fs);
    } else {
      var e := es[0];
      assert Project(es, e.trade)[0] == e;
      var pre, post := SplitAtFirst(fs, e.trade);
      RestOfStreams(es, pre, e, post);
      ProcessRespectsSameBalances(l, m, e);
      InterleavingIrrelevant(Process(l, e), Process(m, e), es[1..], pre + post);
      RunFirst(l, es);
      MoveToFront(m, pre, e, post);
      Join(Run(l, es), Run(Process(m, e), pre + post), Run(m, fs));
    }
  }

  lemma RunFirst(l: A.Ledger, es: seq<FillEvent>)
    requires es != []
    ensures Run(l, es) == Run(Process(l, es[0]), es[1..])
  {
    assert es == [es[0]] + es[1..];
    assert [es[0]][..0] == [];
    RunAppend(l, [es[0]], es[1..]);
  }

  lemma MoveToFront(m: A.Ledger, pre: seq<FillEvent>, e: FillEvent, post: seq<FillEvent>)
    requires forall i :: 0 <= i < |pre| ==> pre[i].trade != e.trade
    ensures SameBalances(Run(m, pre + [e] + post), Run(Process(m, e), pre + post))
  {
    RunAppend(Process(m, e), pre, post);
    RunAppend(m, pre + [e], post);
    BubbleToFront(m, pre, e);
    RunRespectsSameBalances(Run(m, pre + [e]), Run(Process(m, e), pre), post);
  }

  // ---------- What a match locks ----------

  /** The fill at its price, and a fiftieth of it as the fee. */
  predicate Locks(e: A.SuspenseEntry, o: TrackedOrder) {
    && e.pid == o.positionId && e.asset == o.tokenId && e.market == o.marketId
    && e.shares == o.filled && e.price == o.avgFillPrice
    && e.capital == o.filled * o.price && e.fees * 50.0 == e.capital
  }

  lemma MatchLocks(now: A.Ledger, e: FillEvent)
    requires e.status == Matched && Key(e) !in now.suspense
    ensures var next := Process(now, e);
      && Key(e) in next.suspense && Locks(next.suspense[Key(e)], e.order)
      && next.cash == now.cash - next.suspense[Key(e)].capital - next.suspense[Key(e)].fees
  {
  }

  lemma LockedStays(now: A.Ledger, e: FillEvent, trade: string, o: TrackedOrder)
    requires A.VenueTrade(trade) in now.suspense && Locks(now.suspense[A.VenueTrade(trade)], o)
    ensures A.VenueTrade(trade) in Process(now, e).suspense
    ensures Locks(Process(now, e).suspense[A.VenueTrade(trade)], o)
  {
  }

  /** `i` is the first match of its trade. */
  ghost predicate FirstMatch(es: seq<FillEvent>, i: nat)
    requires i < |es|
  {
    es[i].status == Matched && !MatchedBy(es, es[i].trade, i)
  }

  /** Along any stream, a new trade stays locked with the figures of its first match, however it ends. */
  lemma {:induction false} FirstMatchLocks(l: A.Ledger, es: seq<FillEvent>, i: nat, n: nat)
    requires i < n <= |es| && FirstMatch(es, i) && Key(es[i]) !in l.suspense
    ensures Key(es[i]) in Run(l, es[..n]).suspense
    ensures Locks(Run(l, es[..n]).suspense[Key(es[i])], es[i].order)
  {
    assert es[..n][..n - 1] == es[..n - 1];
    if n == i + 1 {
      PhaseAfter(l, es, es[i].trade, i);
      MatchLocks(Run(l, es[..i]), es[i]);
    } else {
      FirstMatchLocks(l, es, i, n - 1);
      LockedStays(Run(l, es[..n - 1]), es[n - 1], es[i].trade, es[i].order);
    }
  }

  // ---------- How a trade ends ----------

  /** A pending trade that is confirmed becomes a holding and book value; one that fails gives its money back. */
  lemma SettlementEnds(now: A.Ledger, e: FillEvent)
    requires Key(e) in now.suspense && now.suspense[Key(e)].status in {A.Matched, A.Retrying}
    ensures var s, next := now.suspense[Key(e)], Process(now, e);
      && (e.status == Confirmed ==>
            && next.suspense == now.suspense[Key(e) := s.(status := A.Confirmed)] && next.cash == now.cash
            && next.deployed == now.deployed + s.capital && next.fees == now.fees + s.fees && s.asset in next.holdings)
      && (e.status == Failed ==>
            && next.suspense == now.suspense[Key(e) := s.(status := A.Failed)]
            && next.cash == now.cash + s.capital + s.fees && next.holdings == now.holdings)
      && (e.status == Retrying ==> next == now.(suspense := now.suspense[Key(e) := s.(status := A.Retrying)]))
  {
  }

  /** Where a trade stands: not seen, pending, or settled one way. */
  datatype Standing = Unseen | Open | Done(confirmed: bool)

  function StandingOf(l: A.Ledger, key: A.TradeKey): Standing {
    if key !in l.suspense then Unseen
    else match l.suspense[key].status
      case Matched => Open
      case Retrying => Open
      case Confirmed => Done(true)
      case Failed => Done(false)
  }

  /** The returned action says what the event did to its trade. */
  lemma ActionMeans(now: A.Ledger, e: FillEvent)
    ensures var before, after := StandingOf(now, Key(e)), StandingOf(Process(now, e), Key(e));
      match Action(now, e)
      case EnteredSuspense => before == Unseen && after == Open
      case Promoted => before == Open && after == Done(true)
      case Reversed(sell) => before == Open && after == Done(false) && sell == e.opposing
      case HeldForRetry => e.status == Retrying && after == before
      case AlreadyProcessed => Process(now, e) == now
  {
  }
}
