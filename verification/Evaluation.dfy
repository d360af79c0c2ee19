/** Batch evaluation: drained constraints against the book, ranked by profit per hour. */
module Evaluation {
  import opened Totals
  import opened Detection
  import opened Arbitrage
  import Q = EvalQueue

  datatype EvalConfig = EvalConfig(
    capital: real, feeRate: real, minProfit: real, maxProfit: real, maxIter: nat, maxHours: real)

  /** What evaluation reads of the book mirror: best ask and haircut depth per asset. */
  datatype BookView = BookView(asks: map<string, real>, depths: map<string, real>)

  datatype Opportunity = Opportunity(
    constraintId: string, marketIds: seq<string>, marketNames: seq<string>, methodName: string, isSell: bool,
    profitPct: real, profit: real, fees: real, capital: real,
    prices: map<string, real>, noPrices: map<string, real>, bets: map<string, real>,
    negRisk: bool, hours: real, score: real, minDepth: real, originTs: real)

  datatype Verdict = Held | Passed | Found(o: Opportunity)

  function Lookup(m: map<string, real>, k: string): real { if k in m then m[k] else 0.0 }

  function ParseType(s: string): Option<ConstraintType> {
    if s == "mutual_exclusivity" || s == "mutex" then Some(Mutex)
    else if s == "complementary" then Some(Complementary)
    else if s == "logical_implication" then Some(LogicalImplication)
    else None
  }

  predicate AllLive(markets: seq<MarketRef>, book: BookView) {
    forall i :: 0 <= i < |markets| ==> Lookup(book.asks, markets[i].yesAsset) > 0.0
  }

  function YesPrices(markets: seq<MarketRef>, book: BookView): (r: seq<real>)
    ensures |r| == |markets|
  {
    seq(|markets|, i requires 0 <= i < |markets| => Lookup(book.asks, markets[i].yesAsset))
  }

  function NoPriceOf(m: MarketRef, book: BookView): real {
    if Lookup(book.asks, m.noAsset) > 0.0 then Lookup(book.asks, m.noAsset) else 1.0 - Lookup(book.asks, m.yesAsset)
  }

  function NoPrices(markets: seq<MarketRef>, book: BookView): (r: seq<real>)
    ensures |r| == |markets|
  {
    seq(|markets|, i requires 0 <= i < |markets| => NoPriceOf(markets[i], book))
  }

  function Names(markets: seq<MarketRef>): seq<string> {
    seq(|markets|, i requires 0 <= i < |markets| => markets[i].name)
  }

  /** A hash map collected from pairs: a later pair replaces an earlier one with the same key. */
  function Collect(pairs: seq<(string, real)>): map<string, real> {
    if pairs == [] then map[] else Collect(pairs[..|pairs| - 1])[pairs[|pairs| - 1].0 := pairs[|pairs| - 1].1]
  }

  function Zip(ids: seq<string>, prices: seq<real>): (r: seq<(string, real)>)
    requires |ids| == |prices|
    ensures |r| == |ids|
  {
    seq(|ids|, i requires 0 <= i < |ids| => (ids[i], prices[i]))
  }

  function MinDepth(markets: seq<MarketRef>, book: BookView, isSell: bool): real
    requires markets != []
  {
    var last := markets[|markets| - 1];
    var d := Lookup(book.depths, if isSell then last.noAsset else last.yesAsset);
    if |markets| == 1 then d else Min(MinDepth(markets[..|markets| - 1], book, isSell), d)
  }

  /** The direct check first; the optimiser only where it finds nothing and the constraint is a mutex. */
  function FindArb(c: Constraint, book: BookView, config: EvalConfig): Option<ArbResult> {
    var ids, yes, no := IdsOf(c.markets), YesPrices(c.markets, book), NoPrices(c.markets, book);
    var direct := CheckMutexArb(ids, yes, no, config.capital, config.feeRate, config.minProfit, config.maxProfit,
      c.isNegRisk);
    if direct.None? && ParseType(c.kind) == Some(Mutex) then
      PolytopeArb(ids, yes, Mutex, config.capital, config.feeRate, config.minProfit, config.maxProfit,
                  c.implications, config.maxIter)
    else direct
  }

  /** Members of the group without an order book: one of them could win. */
  predicate NonExhaustive(c: Constraint) { c.fullGroupSize > 0 && |c.markets| < c.fullGroupSize }

  predicate InTime(c: Constraint, config: EvalConfig, now: real) {
    c.endTs > 0.0 && 0.0 <= (c.endTs - now) / 3600.0 <= config.maxHours
  }

  predicate HoldsMarket(c: Constraint, heldMids: set<string>) {
    exists i :: 0 <= i < |c.markets| && c.markets[i].marketId in heldMids
  }

  function OpportunityOf(c: Constraint, arb: ArbResult, book: BookView, config: EvalConfig, now: real, originTs: real)
    : Opportunity
    requires c.markets != []
  {
    var ids := IdsOf(c.markets);
    var hours := if c.endTs > now then (c.endTs - now) / 3600.0 else 0.01;
    Opportunity(c.id, ids, Names(c.markets), arb.methodName, arb.isSell, arb.profitPct, arb.netProfit, arb.fees,
                config.capital, Collect(Zip(ids, YesPrices(c.markets, book))),
                Collect(Zip(ids, NoPrices(c.markets, book))),
                Collect(arb.bets), arb.negRisk, hours, arb.profitPct / Max(hours, 0.01),
                MinDepth(c.markets, book, arb.isSell), originTs)
  }

  function Evaluate(d: Q.Drained, store: map<string, Constraint>, book: BookView, config: EvalConfig, now: real,
                    heldCids: set<string>, heldMids: set<string>): Verdict
  {
    if d.id in heldCids then Held
    else if d.id !in store then Passed
    else
      var c := store[d.id];
      if |c.markets| < 2 || !InTime(c, config, now) then Passed
      else if HoldsMarket(c, heldMids) then Held
      else if !AllLive(c.markets, book) || NonExhaustive(c) then Passed
      else
        var arb := FindArb(c, book, config);
        if arb.None? then Passed else Found(OpportunityOf(c, arb.value, book, config, now, d.originTs))
  }

  // ---------- Ranking ----------

  /** Inserts after every entry of the same or a better score: a stable descending sort. */
  function Insert(s: seq<Opportunity>, o: Opportunity): (r: seq<Opportunity>)
    ensures |r| == |s| + 1
  {
    if s == [] || s[|s| - 1].score >= o.score then s + [o]
    else Insert(s[..|s| - 1], o) + [s[|s| - 1]]
  }

  function SortByScore(s: seq<Opportunity>): (r: seq<Opportunity>)
    ensures |r| == |s|
  {
    if s == [] then [] else Insert(SortByScore(s[..|s| - 1]), s[|s| - 1])
  }

  function Top(s: seq<Opportunity>, n: nat): seq<Opportunity> {
    var sorted := SortByScore(s);
    if |sorted| <= n then sorted else sorted[..n]
  }

  predicate Descending(s: seq<Opportunity>) { forall i, j :: 0 <= i < j < |s| ==> s[i].score >= s[j].score }

  lemma {:induction false} InsertIsPermutation(s: seq<Opportunity>, o: Opportunity)
    ensures multiset(Insert(s, o)) == multiset(s) + multiset{o}
  {
    if s != [] && s[|s| - 1].score < o.score {
      InsertIsPermutation(s[..|s| - 1], o);
      assert s == s[..|s| - 1] + [s[|s| - 1]];
    }
  }

  lemma {:induction false} InsertMembers(s: seq<Opportunity>, o: Opportunity, i: nat)
    requires i < |Insert(s, o)|
    ensures Insert(s, o)[i] in s || Insert(s, o)[i] == o
  {
    if s != [] && s[|s| - 1].score < o.score && i < |s| {
      InsertMembers(s[..|s| - 1], o, i);
    }
  }

  lemma {:induction false} InsertKeepsOrder(s: seq<Opportunity>, o: Opportunity)
    requires Descending(s)
    ensures Descending(Insert(s, o))
  {
    if s != [] && s[|s| - 1].score < o.score {
      var n := |s| - 1;
      InsertKeepsOrder(s[..n], o);
      forall i | 0 <= i < |Insert(s[..n], o)| ensures Insert(s[..n], o)[i].score >= s[n].score {
        InsertMembers(s[..n], o, i);
      }
    }
  }

  lemma {:induction false} SortIsOrdered(s: seq<Opportunity>)
    ensures Descending(SortByScore(s)) && multiset(SortByScore(s)) == multiset(s)
  {
    if s != [] {
      SortIsOrdered(s[..|s| - 1]);
      InsertKeepsOrder(SortByScore(s[..|s| - 1]), s[|s| - 1]);
      InsertIsPermutation(SortByScore(s[..|s| - 1]), s[|s| - 1]);
      assert s == s[..|s| - 1] + [s[|s| - 1]];
    }
  }

  /** The batch returns the best ones, best first: what is left out scores no better than anything returned. */
  lemma TopAreBest(s: seq<Opportunity>, n: nat) returns (rest: seq<Opportunity>)
    ensures Descending(Top(s, n)) && |Top(s, n)| == if |s| <= n then |s| else n
    ensures multiset(Top(s, n)) + multiset(rest) == multiset(s)
    ensures forall a, b :: a in Top(s, n) && b in rest ==> a.score >= b.score
  {
    var sorted := SortByScore(s);
    SortIsOrdered(s);
    rest := if |sorted| <= n then [] else sorted[n..];
    assert sorted == Top(s, n) + rest;
  }

  /** The entries of one score, in order. */
  function Scoring(s: seq<Opportunity>, score: real): seq<Opportunity> {
    if s == [] then [] else
      Scoring(s[..|s| - 1], score) + (if s[|s| - 1].score == score then [s[|s| - 1]] else [])
  }

  lemma {:induction false} InsertComesLast(s: seq<Opportunity>, o: Opportunity, score: real)
    ensures Scoring(Insert(s, o), score) == Scoring(s, score) + (if o.score == score then [o] else [])
  {
    if s != [] && s[|s| - 1].score < o.score {
      InsertComesLast(s[..|s| - 1], o, score);
      var r := Insert(s, o);
      assert r[..|r| - 1] == Insert(s[..|s| - 1], o) && r[|r| - 1] == s[|s| - 1];
    } else {
      assert (s + [o])[..|s|] == s;
    }
  }

  /** Entries of equal score keep the order they were found in. */
  lemma {:induction false} TiesKeepTheirOrder(s: seq<Opportunity>, score: real)
    ensures Scoring(SortByScore(s), score) == Scoring(s, score)
  {
    if s != [] {
      var n := |s| - 1;
      TiesKeepTheirOrder(s[..n], score);
      InsertComesLast(SortByScore(s[..n]), s[n], score);
    }
  }

  // ---------- The batch ----------

  function FoundIn(ds: seq<Q.Drained>, store: map<string, Constraint>, book: BookView, config: EvalConfig, now: real,
                   heldCids: set<string>, heldMids: set<string>): seq<Opportunity>
  {
    if ds == [] then [] else
      var v := Evaluate(ds[|ds| - 1], store, book, config, now, heldCids, heldMids);
      FoundIn(ds[..|ds| - 1], store, book, config, now, heldCids, heldMids) + (if v.Found? then [v.o] else [])
  }

  /** What a batch finds is what one of its drained entries was evaluated to. */
  lemma {:induction false} FoundIsEvaluated(ds: seq<Q.Drained>, store: map<string, Constraint>, book: BookView,
                                            config: EvalConfig, now: real, heldCids: set<string>, heldMids: set<string>,
                                            o: Opportunity)
    ensures o in FoundIn(ds, store, book, config, now, heldCids, heldMids)
       <==> exists d :: d in ds && Evaluate(d, store, book, config, now, heldCids, heldMids) == Found(o)
  {
    if ds != [] {
      var n := |ds| - 1;
      FoundIsEvaluated(ds[..n], store, book, config, now, heldCids, heldMids, o);
      assert ds == ds[..n] + [ds[n]];
    }
  }

  /** Everything a batch returns was found for one of the entries it drained. */
  lemma BestAreFound(ds: seq<Q.Drained>, store: map<string, Constraint>, book: BookView, config: EvalConfig, now: real,
                     heldCids: set<string>, heldMids: set<string>, topN: nat, o: Opportunity)
    requires o in Top(FoundIn(ds, store, book, config, now, heldCids, heldMids), topN)
    ensures exists d :: d in ds && Evaluate(d, store, book, config, now, heldCids, heldMids) == Found(o)
  {
    var found := FoundIn(ds, store, book, config, now, heldCids, heldMids);
    var rest := TopAreBest(found, topN);
    assert o in multiset(Top(found, topN));
    assert o in multiset(found);
    FoundIsEvaluated(ds, store, book, config, now, heldCids, heldMids, o);
  }

  function HeldIn(ds: seq<Q.Drained>, store: map<string, Constraint>, book: BookView, config: EvalConfig, now: real,
                  heldCids: set<string>, heldMids: set<string>): nat
  {
    if ds == [] then 0 else
      HeldIn(ds[..|ds| - 1], store, book, config, now, heldCids, heldMids)
      + (if Evaluate(ds[|ds| - 1], store, book, config, now, heldCids, heldMids).Held? then 1 else 0)
  }

  function CountUrgent(ds: seq<Q.Drained>): (n: nat)
    ensures n <= |ds|
  {
    if ds == [] then 0 else CountUrgent(ds[..|ds| - 1]) + (if ds[|ds| - 1].urgent then 1 else 0)
  }

  /** The drained entries that are passed over as held. */
  function HeldAt(ds: seq<Q.Drained>, store: map<string, Constraint>, book: BookView, config: EvalConfig, now: real,
                  heldCids: set<string>, heldMids: set<string>): set<int>
  {
    set i | 0 <= i < |ds| && Evaluate(ds[i], store, book, config, now, heldCids, heldMids).Held?
  }

  lemma {:induction false} HeldAreCounted(ds: seq<Q.Drained>, store: map<string, Constraint>, book: BookView,
                                          config: EvalConfig, now: real, heldCids: set<string>, heldMids: set<string>)
    ensures HeldIn(ds, store, book, config, now, heldCids, heldMids)
         == |HeldAt(ds, store, book, config, now, heldCids, heldMids)|
  {
    if ds != [] {
      var n := |ds| - 1;
      var before := HeldAt(ds[..n], store, book, config, now, heldCids, heldMids);
      HeldAreCounted(ds[..n], store, book, config, now, heldCids, heldMids);
      HeldStep(ds, store, book, config, now, heldCids, heldMids);
      OneMore(before, n, Evaluate(ds[n], store, book, config, now, heldCids, heldMids).Held?);
    }
  }

  lemma HeldStep(ds: seq<Q.Drained>, store: map<string, Constraint>, book: BookView, config: EvalConfig, now: real,
                 heldCids: set<string>, heldMids: set<string>)
    requires ds != []
    ensures var n := |ds| - 1;
      HeldAt(ds, store, book, config, now, heldCids, heldMids)
      == HeldAt(ds[..n], store, book, config, now, heldCids, heldMids)
         + (if Evaluate(ds[n], store, book, config, now, heldCids, heldMids).Held? then {n} else {})
  {
  }

  function UrgentAt(ds: seq<Q.Drained>): set<int> { set i | 0 <= i < |ds| && ds[i].urgent }

  lemma {:induction false} UrgentAreCounted(ds: seq<Q.Drained>)
    ensures CountUrgent(ds) == |UrgentAt(ds)|
  {
    if ds != [] {
      var n := |ds| - 1;
      UrgentAreCounted(ds[..n]);
      assert UrgentAt(ds) == UrgentAt(ds[..n]) + (if ds[n].urgent then {n} else {});
    }
  }

  /** Loading detected constraints into the store: equal ids overwrite. */
  function StoreOf(cs: seq<Constraint>): map<string, Constraint> {
    if cs == [] then map[] else StoreOf(cs[..|cs| - 1])[cs[|cs| - 1].id := cs[|cs| - 1]]
  }

  lemma {:induction false} StoredIsDetected(cs: seq<Constraint>, id: string)
    requires id in StoreOf(cs)
    ensures StoreOf(cs)[id] in cs && StoreOf(cs)[id].id == id
  {
    if cs[|cs| - 1].id != id {
      StoredIsDetected(cs[..|cs| - 1], id);
    }
  }

  /** The store holds the last constraint loaded under each id. */
  lemma {:induction false} LastConstraintIsStored(cs: seq<Constraint>, i: nat)
    requires i < |cs| && forall j :: i < j < |cs| ==> cs[j].id != cs[i].id
    ensures cs[i].id in StoreOf(cs) && StoreOf(cs)[cs[i].id] == cs[i]
  {
    if i < |cs| - 1 {
      LastConstraintIsStored(cs[..|cs| - 1], i);
    }
  }

  method ReadPrices(markets: seq<MarketRef>, book: BookView)
    returns (live: bool, yes: seq<real>, no: seq<real>, ids: seq<string>)
    ensures live == AllLive(markets, book)
    ensures live ==> yes == YesPrices(markets, book) && no == NoPrices(markets, book) && ids == IdsOf(markets)
  {
    yes, no, ids := [], [], [];
    for i := 0 to |markets|
      invariant AllLive(markets[..i], book)
      invariant yes == YesPrices(markets[..i], book) && no == NoPrices(markets[..i], book) && ids == IdsOf(markets[..i])
    {
      var yesAsk := Lookup(book.asks, markets[i].yesAsset);
      var noAsk := Lookup(book.asks, markets[i].noAsset);
      if yesAsk <= 0.0 {
        return false, yes, no, ids;
      }
      yes := yes + [yesAsk];
      no := no + [if noAsk > 0.0 then noAsk else 1.0 - yesAsk];
      ids := ids + [markets[i].marketId];
    }
    assert markets[..|markets|] == markets;
    live := true;
  }

  method EvaluateOne(d: Q.Drained, store: map<string, Constraint>, book: BookView, config: EvalConfig, now: real,
                     heldCids: set<string>, heldMids: set<string>) returns (v: Verdict)
    ensures v == Evaluate(d, store, book, config, now, heldCids, heldMids)
  {
    if d.id in heldCids {
      return Held;
    }
    if d.id !in store {
      return Passed;
    }
    var c := store[d.id];
    if |c.markets| < 2 || !InTime(c, config, now) {
      return Passed;
    }
    if HoldsMarket(c, heldMids) {
      return Held;
    }
    var live, yes, no, ids := ReadPrices(c.markets, book);
    if !live || NonExhaustive(c) {
      return Passed;
    }
    var arb := CheckMutexArb(ids, yes, no, config.capital, config.feeRate, config.minProfit, config.maxProfit,
      c.isNegRisk);
    if arb.None? && ParseType(c.kind) == Some(Mutex) {
      arb := RunPolytope(ids, yes, Mutex, config.capital, config.feeRate, config.minProfit, config.maxProfit,
                         c.implications, config.maxIter);
    }
    assert arb == FindArb(c, book, config);
    if arb.None? {
      return Passed;
    }
    return Found(OpportunityOf(c, arb.value, book, config, now, d.originTs));
  }

  method EvaluateAll(ds: seq<Q.Drained>, store: map<string, Constraint>, book: BookView, config: EvalConfig, now: real,
                     heldCids: set<string>, heldMids: set<string>)
    returns (found: seq<Opportunity>, urgent: nat, held: nat)
    ensures found == FoundIn(ds, store, book, config, now, heldCids, heldMids)
    ensures held == HeldIn(ds, store, book, config, now, heldCids, heldMids) && urgent == CountUrgent(ds)
  {
    found, urgent, held := [], 0, 0;
    for i := 0 to |ds|
      invariant found == FoundIn(ds[..i], store, book, config, now, heldCids, heldMids)
      invariant held == HeldIn(ds[..i], store, book, config, now, heldCids, heldMids)
      invariant urgent == CountUrgent(ds[..i])
    {
      assert ds[..i + 1][..i] == ds[..i];
      if ds[i].urgent {
        urgent := urgent + 1;
      }
      var v := EvaluateOne(ds[i], store, book, config, now, heldCids, heldMids);
      match v {
        case Held => held := held + 1;
        case Found(o) => found := found + [o];
        case Passed =>
      }
    }
    assert ds[..|ds|] == ds;
  }

  method EvaluateBatch(queue: Q.EvalQueue, store: map<string, Constraint>, book: BookView, config: EvalConfig,
                       now: real, maxEvals: nat, heldCids: set<string>, heldMids: set<string>, topN: nat)
    returns (best: seq<Opportunity>, urgent: nat, background: nat, evaluated: nat, held: nat)
    modifies queue
    ensures queue.View() == old(queue.View()).Drain(maxEvals)
    ensures var ds := old(queue.View()).Handed(maxEvals);
      && best == Top(FoundIn(ds, store, book, config, now, heldCids, heldMids), topN)
      && held == HeldIn(ds, store, book, config, now, heldCids, heldMids)
      && evaluated == |ds| && urgent == CountUrgent(ds) && background == |ds| - urgent
  {
    var ds := queue.Drain(maxEvals);
    var found;
    found, urgent, held := EvaluateAll(ds, store, book, config, now, heldCids, heldMids);
    evaluated := |ds|;
    background := |ds| - urgent;
    best := Top(found, topN);
  }
}
