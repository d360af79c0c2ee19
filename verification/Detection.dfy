/** Constraint detection: markets sharing a negRisk id become one mutex constraint. */
module Detection {
  import opened Totals

  datatype DetectableMarket = DetectableMarket(
    marketId: string, question: string, yesAsset: string, noAsset: string,
    negRisk: bool, groupId: string, yesPrice: real, endTs: real)

  datatype DetectionConfig = DetectionConfig(minPriceSum: real, maxPriceSum: real, minMarkets: nat)

  datatype MarketRef = MarketRef(marketId: string, yesAsset: string, noAsset: string, name: string)

  datatype Constraint = Constraint(
    id: string, kind: string, markets: seq<MarketRef>, isNegRisk: bool, implications: seq<(nat, nat)>,
    endTs: real, fullGroupSize: nat, groupId: string)

  // ---------- Groups ----------

  predicate Grouped(m: DetectableMarket) { m.negRisk && m.groupId != "" }

  function GroupIds(markets: seq<DetectableMarket>): set<string> { set m | m in markets && Grouped(m) :: m.groupId }

  /** The members of a group, in input order. */
  function GroupOf(markets: seq<DetectableMarket>, id: string): seq<DetectableMarket> {
    if markets == [] then [] else
      var m := markets[|markets| - 1];
      GroupOf(markets[..|markets| - 1], id) + (if Grouped(m) && m.groupId == id then [m] else [])
  }

  function Groups(markets: seq<DetectableMarket>): map<string, seq<DetectableMarket>> {
    map id | id in GroupIds(markets) :: GroupOf(markets, id)
  }

  function PriceSum(group: seq<DetectableMarket>): real {
    if group == [] then 0.0 else PriceSum(group[..|group| - 1]) + group[|group| - 1].yesPrice
  }

  /** The earliest known resolution; zero when none is known. */
  function EarliestEnd(group: seq<DetectableMarket>): real {
    if group == [] then 0.0 else
      var e := EarliestEnd(group[..|group| - 1]);
      var ts := group[|group| - 1].endTs;
      if ts > 0.0 && (e == 0.0 || ts < e) then ts else e
  }

  function RefOf(m: DetectableMarket): MarketRef { MarketRef(m.marketId, m.yesAsset, m.noAsset, m.question) }

  /** Members without a YES asset have no order book and are not candidates. */
  function Candidates(group: seq<DetectableMarket>): seq<MarketRef> {
    if group == [] then [] else
      Candidates(group[..|group| - 1])
      + (if group[|group| - 1].yesAsset != "" then [RefOf(group[|group| - 1])] else [])
  }

  function Prefix32(id: string): string { if |id| < 32 then id else id[..32] }

  datatype Verdict = TooFew | Incomplete | Overpriced | Detected(c: Constraint)

  function Judge(group: seq<DetectableMarket>, id: string, config: DetectionConfig): Verdict {
    if |group| < config.minMarkets then TooFew
    else if PriceSum(group) < config.minPriceSum then Incomplete
    else if PriceSum(group) > config.maxPriceSum then Overpriced
    else if |Candidates(group)| < config.minMarkets then TooFew
    else
      var cid := "mutex_" + Prefix32(id);
      Detected(Constraint(cid, "mutex", Candidates(group), true, [], EarliestEnd(group), |group|, id))
  }

  function Detections(groups: map<string, seq<DetectableMarket>>, order: seq<string>, config: DetectionConfig)
    : seq<Constraint>
    requires forall id :: id in order ==> id in groups
  {
    if order == [] then [] else
      var id := order[|order| - 1];
      var v := Judge(groups[id], id, config);
      Detections(groups, order[..|order| - 1], config) + (if v.Detected? then [v.c] else [])
  }

  function CountVerdicts(groups: map<string, seq<DetectableMarket>>, order: seq<string>, config: DetectionConfig,
                         v: Verdict): nat
    requires forall id :: id in order ==> id in groups
  {
    if order == [] then 0 else
      var id := order[|order| - 1];
      CountVerdicts(groups, order[..|order| - 1], config, v) + (if Judge(groups[id], id, config) == v then 1 else 0)
  }

  /** How far the price sum of each detected group is from one, by constraint id; a later group replaces an earlier. */
  function Spreads(groups: map<string, seq<DetectableMarket>>, order: seq<string>, config: DetectionConfig)
    : map<string, real>
    requires forall id :: id in order ==> id in groups
  {
    if order == [] then map[] else
      var id := order[|order| - 1];
      var v := Judge(groups[id], id, config);
      var before := Spreads(groups, order[..|order| - 1], config);
      if v.Detected? then before[v.c.id := Abs(PriceSum(groups[id]) - 1.0)] else before
  }

  /** When each detected constraint resolves, by its id. */
  function Ends(groups: map<string, seq<DetectableMarket>>, order: seq<string>, config: DetectionConfig)
    : map<string, real>
    requires forall id :: id in order ==> id in groups
  {
    if order == [] then map[] else
      var id := order[|order| - 1];
      var v := Judge(groups[id], id, config);
      var before := Ends(groups, order[..|order| - 1], config);
      if v.Detected? then before[v.c.id := v.c.endTs] else before
  }

  /** Groups with enough members to be looked at. */
  function LargeGroups(groups: map<string, seq<DetectableMarket>>, config: DetectionConfig): set<string> {
    set id | id in groups && |groups[id]| >= config.minMarkets
  }

  // ---------- The detector ----------

  method GroupMarkets(markets: seq<DetectableMarket>) returns (groups: map<string, seq<DetectableMarket>>)
    ensures groups == Groups(markets)
  {
    groups := map[];
    for i := 0 to |markets|
      invariant groups == Groups(markets[..i])
    {
      var m := markets[i];
      GroupsStep(markets, i);
      if m.negRisk && m.groupId != "" {
        var members := if m.groupId in groups then groups[m.groupId] else [];
        groups := groups[m.groupId := members + [m]];
      }
    }
    assert markets[..|markets|] == markets;
  }

  lemma {:induction false} NoGroup(markets: seq<DetectableMarket>, id: string)
    requires id !in GroupIds(markets)
    ensures GroupOf(markets, id) == []
  {
    if markets != [] {
      assert markets[|markets| - 1] in markets;
      assert forall m :: m in markets[..|markets| - 1] ==> m in markets;
      NoGroup(markets[..|markets| - 1], id);
    }
  }

  lemma GroupIdsAppend(s: seq<DetectableMarket>, m: DetectableMarket)
    ensures GroupIds(s + [m]) == GroupIds(s) + (if Grouped(m) then {m.groupId} else {})
  {
  }

  lemma GroupOfAppend(s: seq<DetectableMarket>, m: DetectableMarket, id: string)
    ensures GroupOf(s + [m], id) == GroupOf(s, id) + (if Grouped(m) && m.groupId == id then [m] else [])
  {
  }

  /** A hash map of groups after one more market. */
  function WithMarket(groups: map<string, seq<DetectableMarket>>, m: DetectableMarket)
    : map<string, seq<DetectableMarket>>
  {
    if Grouped(m) then groups[m.groupId := (if m.groupId in groups then groups[m.groupId] else []) + [m]] else groups
  }

  lemma GroupsAppend(s: seq<DetectableMarket>, m: DetectableMarket)
    ensures Groups(s + [m]) == WithMarket(Groups(s), m)
  {
    var a, b := Groups(s + [m]), WithMarket(Groups(s), m);
    GroupIdsAppend(s, m);
    assert a.Keys == b.Keys;
    forall id | id in a ensures a[id] == b[id] {
      GroupOfAppend(s, m, id);
      if id !in GroupIds(s) { NoGroup(s, id); }
    }
  }

  lemma GroupsStep(markets: seq<DetectableMarket>, i: nat)
    requires i < |markets|
    ensures Groups(markets[..i + 1]) == WithMarket(Groups(markets[..i]), markets[i])
  {
    assert markets[..i + 1] == markets[..i] + [markets[i]];
    GroupsAppend(markets[..i], markets[i]);
  }

  method BuildConstraint(group: seq<DetectableMarket>, id: string, config: DetectionConfig)
    returns (v: Verdict, spread: real)
    ensures v == Judge(group, id, config)
    ensures v.Detected? ==> spread == Abs(PriceSum(group) - 1.0)
  {
    spread := 0.0;
    if |group| < config.minMarkets {
      return TooFew, spread;
    }
    var priceSum, earliest := 0.0, 0.0;
    var refs := [];
    for i := 0 to |group|
      invariant priceSum == PriceSum(group[..i]) && earliest == EarliestEnd(group[..i])
      invariant refs == Candidates(group[..i])
    {
      assert group[..i + 1][..i] == group[..i];
      var ts := group[i].endTs;
      priceSum := priceSum + group[i].yesPrice;
      if ts > 0.0 && (earliest == 0.0 || ts < earliest) {
        earliest := ts;
      }
      if group[i].yesAsset != "" {
        refs := refs + [RefOf(group[i])];
      }
    }
    assert group[..|group|] == group;
    if priceSum < config.minPriceSum {
      return Incomplete, spread;
    }
    if priceSum > config.maxPriceSum {
      return Overpriced, spread;
    }
    if |refs| < config.minMarkets {
      return TooFew, spread;
    }
    spread := Abs(priceSum - 1.0);
    return Detected(Constraint("mutex_" + Prefix32(id), "mutex", refs, true, [], earliest, |group|, id)), spread;
  }

  method CountLargeGroups(groups: map<string, seq<DetectableMarket>>, config: DetectionConfig) returns (n: nat)
    ensures n == |LargeGroups(groups, config)|
  {
    var ids := IterationOrder(groups);
    ghost var seen := {};
    n := 0;
    for i := 0 to |ids|
      invariant seen == set k | k in ids[..i] && |groups[k]| >= config.minMarkets
      invariant n == |seen|
    {
      assert ids[..i + 1] == ids[..i] + [ids[i]];
      assert ids[i] !in seen;
      if |groups[ids[i]]| >= config.minMarkets {
        n := n + 1;
        seen := seen + {ids[i]};
      }
    }
    assert ids[..|ids|] == ids;
    assert seen == LargeGroups(groups, config);
  }

  /** What the detector has collected after some groups. */
  datatype Findings = Findings(
    constraints: seq<Constraint>, spreads: map<string, real>, ends: map<string, real>, incomplete: nat, overpriced: nat)
  {
    function Note(v: Verdict, spread: real): Findings {
      match v
      case TooFew => this
      case Incomplete => this.(incomplete := incomplete + 1)
      case Overpriced => this.(overpriced := overpriced + 1)
      case Detected(c) =>
        this.(constraints := constraints + [c], spreads := spreads[c.id := spread], ends := ends[c.id := c.endTs])
    }
  }

  function FindingsOf(groups: map<string, seq<DetectableMarket>>, order: seq<string>, config: DetectionConfig): Findings
    requires forall id :: id in order ==> id in groups
  {
    if order == [] then Findings([], map[], map[], 0, 0) else
      var id := order[|order| - 1];
      FindingsOf(groups, order[..|order| - 1], config)
        .Note(Judge(groups[id], id, config), Abs(PriceSum(groups[id]) - 1.0))
  }

  lemma {:induction false} CollectedFigures(groups: map<string, seq<DetectableMarket>>, order: seq<string>,
                                            config: DetectionConfig)
    requires forall id :: id in order ==> id in groups
    ensures FindingsOf(groups, order, config).constraints == Detections(groups, order, config)
    ensures FindingsOf(groups, order, config).spreads == Spreads(groups, order, config)
    ensures FindingsOf(groups, order, config).ends == Ends(groups, order, config)
  {
    if order != [] { CollectedFigures(groups, order[..|order| - 1], config); }
  }

  lemma {:induction false} RejectedFigures(groups: map<string, seq<DetectableMarket>>, order: seq<string>,
                                           config: DetectionConfig)
    requires forall id :: id in order ==> id in groups
    ensures FindingsOf(groups, order, config).incomplete == CountVerdicts(groups, order, config, Incomplete)
    ensures FindingsOf(groups, order, config).overpriced == CountVerdicts(groups, order, config, Overpriced)
  {
    if order != [] { RejectedFigures(groups, order[..|order| - 1], config); }
  }

  method ScanGroups(groups: map<string, seq<DetectableMarket>>, ids: seq<string>, config: DetectionConfig)
    returns (found: Findings)
    requires forall id :: id in ids ==> id in groups
    ensures found == FindingsOf(groups, ids, config)
  {
    found := Findings([], map[], map[], 0, 0);
    for i := 0 to |ids|
      invariant found == FindingsOf(groups, ids[..i], config)
    {
      assert ids[..i + 1][..i] == ids[..i];
      var v, spread := BuildConstraint(groups[ids[i]], ids[i], config);
      found := found.Note(v, spread);
    }
    assert ids[..|ids|] == ids;
  }

  method DetectConstraints(markets: seq<DetectableMarket>, config: DetectionConfig)
    returns (found: Findings, large: nat, ghost order: seq<string>)
    ensures Enumerates(order, GroupIds(markets))
    ensures found.constraints == Detections(Groups(markets), order, config)
    ensures found.spreads == Spreads(Groups(markets), order, config)
    ensures found.ends == Ends(Groups(markets), order, config)
    ensures found.incomplete == CountVerdicts(Groups(markets), order, config, Incomplete)
    ensures found.overpriced == CountVerdicts(Groups(markets), order, config, Overpriced)
    ensures large == |LargeGroups(Groups(markets), config)|
  {
    var groups := GroupMarkets(markets);
    large := CountLargeGroups(groups, config);
    var ids := IterationOrder(groups);
    found := ScanGroups(groups, ids, config);
    order := ids;
    CollectedFigures(groups, ids, config);
    RejectedFigures(groups, ids, config);
  }

  // ---------- What the group size guards ----------

  function IdsOf(refs: seq<MarketRef>): (r: seq<string>)
    ensures |r| == |refs|
  {
    seq(|refs|, i requires 0 <= i < |refs| => refs[i].marketId)
  }

  function MemberIds(group: seq<DetectableMarket>): (r: seq<string>)
    ensures |r| == |group|
  {
    seq(|group|, i requires 0 <= i < |group| => group[i].marketId)
  }

  lemma {:induction false} CandidatesBounded(group: seq<DetectableMarket>)
    ensures |Candidates(group)| <= |group|
    ensures |Candidates(group)| == |group| ==> IdsOf(Candidates(group)) == MemberIds(group)
  {
    if group != [] {
      var n := |group| - 1;
      CandidatesBounded(group[..n]);
      if |Candidates(group)| == |group| {
        assert MemberIds(group) == MemberIds(group[..n]) + [group[n].marketId];
        assert IdsOf(Candidates(group)) == IdsOf(Candidates(group[..n])) + [group[n].marketId];
      }
    }
  }

  lemma {:induction false} DetectionsFromGroups(groups: map<string, seq<DetectableMarket>>, order: seq<string>,
                                                config: DetectionConfig, c: Constraint)
    requires forall id :: id in order ==> id in groups
    requires c in Detections(groups, order, config)
    ensures c.groupId in groups && Judge(groups[c.groupId], c.groupId, config) == Detected(c)
  {
    var n := |order| - 1;
    if c in Detections(groups, order[..n], config) {
      DetectionsFromGroups(groups, order[..n], config, c);
    }
  }

  /** A detected constraint lists its whole group exactly when it has as many candidates as members. */
  lemma FullGroupIsCovered(markets: seq<DetectableMarket>, order: seq<string>, config: DetectionConfig, c: Constraint)
    requires Enumerates(order, GroupIds(markets)) && c in Detections(Groups(markets), order, config)
    ensures c.fullGroupSize == |GroupOf(markets, c.groupId)| && |c.markets| <= c.fullGroupSize
    ensures |c.markets| >= c.fullGroupSize <==> IdsOf(c.markets) == MemberIds(GroupOf(markets, c.groupId))
  {
    DetectionsFromGroups(Groups(markets), order, config, c);
    CandidatesBounded(GroupOf(markets, c.groupId));
    assert |IdsOf(c.markets)| == |c.markets|;
  }

  // ---------- When a group is detected ----------

  function Prices(group: seq<DetectableMarket>): (r: seq<real>)
    ensures |r| == |group|
  {
    seq(|group|, i requires 0 <= i < |group| => group[i].yesPrice)
  }

  lemma {:induction false} PriceSumIsSum(group: seq<DetectableMarket>)
    ensures PriceSum(group) == Sum(Prices(group))
  {
    if group != [] {
      var n := |group| - 1;
      PriceSumIsSum(group[..n]);
      assert Prices(group)[..n] == Prices(group[..n]);
    }
  }

  /** The members that can be traded, by index. */
  function Tradable(group: seq<DetectableMarket>): set<nat> {
    set i: nat | 0 <= i < |group| && group[i].yesAsset != ""
  }

  ghost predicate ListedIn(group: seq<DetectableMarket>, r: MarketRef) {
    exists m :: m in group && m.yesAsset != "" && r == MarketRef(m.marketId, m.yesAsset, m.noAsset, m.question)
  }

  lemma {:induction false} CandidatesAreTradable(group: seq<DetectableMarket>)
    ensures |Candidates(group)| == |Tradable(group)|
  {
    if group != [] {
      var n := |group| - 1;
      CandidatesAreTradable(group[..n]);
      assert Tradable(group) == Tradable(group[..n]) + if group[n].yesAsset != "" then {n} else {};
    }
  }

  lemma {:induction false} CandidateExactly(group: seq<DetectableMarket>, r: MarketRef)
    ensures r in Candidates(group) <==> ListedIn(group, r)
  {
    if group != [] {
      var n := |group| - 1;
      CandidateExactly(group[..n], r);
      assert group == group[..n] + [group[n]];
    }
  }

  /** No known resolution is earlier, and there is one unless none is known. */
  ghost predicate IsEarliest(end: real, group: seq<DetectableMarket>) {
    if forall i :: 0 <= i < |group| ==> group[i].endTs <= 0.0 then end == 0.0
    else
      && end > 0.0
      && (exists i :: 0 <= i < |group| && group[i].endTs == end)
      && forall i :: 0 <= i < |group| && group[i].endTs > 0.0 ==> end <= group[i].endTs
  }

  lemma {:induction false} EarliestEndIsLeast(group: seq<DetectableMarket>)
    ensures IsEarliest(EarliestEnd(group), group)
  {
    if group != [] {
      var n := |group| - 1;
      EarliestEndIsLeast(group[..n]);
      assert forall i :: 0 <= i < n ==> group[..n][i] == group[i];
      if EarliestEnd(group[..n]) > 0.0 {
        var i :| 0 <= i < n && group[..n][i].endTs == EarliestEnd(group[..n]);
        assert group[i].endTs == EarliestEnd(group[..n]);
      }
      assert group[n].endTs > 0.0 || group[n].endTs <= 0.0;
    }
  }

  /** Large enough, priced inside the window, and with enough members to trade. */
  predicate Sells(group: seq<DetectableMarket>, config: DetectionConfig) {
    && |group| >= config.minMarkets && |Tradable(group)| >= config.minMarkets
    && config.minPriceSum <= Sum(Prices(group)) <= config.maxPriceSum
  }

  lemma JudgedExactly(group: seq<DetectableMarket>, id: string, config: DetectionConfig)
    ensures Judge(group, id, config).Detected? <==> Sells(group, config)
  {
    PriceSumIsSum(group);
    CandidatesAreTradable(group);
  }

  /** Enough members, and YES prices that add up to less than the window, or to more. */
  predicate Cheap(group: seq<DetectableMarket>, config: DetectionConfig) {
    |group| >= config.minMarkets && Sum(Prices(group)) < config.minPriceSum
  }

  predicate Dear(group: seq<DetectableMarket>, config: DetectionConfig) {
    |group| >= config.minMarkets && config.minPriceSum <= Sum(Prices(group)) && config.maxPriceSum < Sum(Prices(group))
  }

  lemma RejectedExactly(group: seq<DetectableMarket>, id: string, config: DetectionConfig)
    ensures Judge(group, id, config) == Incomplete <==> Cheap(group, config)
    ensures Judge(group, id, config) == Overpriced <==> Dear(group, config)
  {
    PriceSumIsSum(group);
  }

  function CheapAt(groups: map<string, seq<DetectableMarket>>, order: seq<string>, config: DetectionConfig): set<int>
    requires forall id :: id in order ==> id in groups
  {
    set i | 0 <= i < |order| && Cheap(groups[order[i]], config)
  }

  function DearAt(groups: map<string, seq<DetectableMarket>>, order: seq<string>, config: DetectionConfig): set<int>
    requires forall id :: id in order ==> id in groups
  {
    set i | 0 <= i < |order| && Dear(groups[order[i]], config)
  }

  lemma RejectedStep(groups: map<string, seq<DetectableMarket>>, order: seq<string>, config: DetectionConfig)
    requires order != [] && forall id :: id in order ==> id in groups
    ensures var n := |order| - 1;
      && CheapAt(groups, order, config)
         == CheapAt(groups, order[..n], config) + (if Cheap(groups[order[n]], config) then {n} else {})
      && DearAt(groups, order, config)
         == DearAt(groups, order[..n], config) + (if Dear(groups[order[n]], config) then {n} else {})
  {
  }

  /** The reported counts are numbers of groups priced below and above the window. */
  lemma {:induction false} RejectedAreCounted(groups: map<string, seq<DetectableMarket>>, order: seq<string>,
                                              config: DetectionConfig)
    requires forall id :: id in order ==> id in groups
    ensures CountVerdicts(groups, order, config, Incomplete) == |CheapAt(groups, order, config)|
    ensures CountVerdicts(groups, order, config, Overpriced) == |DearAt(groups, order, config)|
  {
    if order != [] {
      var n := |order| - 1;
      var group := groups[order[n]];
      RejectedAreCounted(groups, order[..n], config);
      RejectedExactly(group, order[n], config);
      RejectedStep(groups, order, config);
      OneMore(CheapAt(groups, order[..n], config), n, Cheap(group, config));
      OneMore(DearAt(groups, order[..n], config), n, Dear(group, config));
    }
  }

  /** A constraint is detected for a group exactly when it qualifies. */
  lemma DetectedExactly(markets: seq<DetectableMarket>, order: seq<string>, config: DetectionConfig, id: string)
    requires Enumerates(order, GroupIds(markets)) && id in GroupIds(markets)
    ensures (exists c :: c in Detections(Groups(markets), order, config) && c.groupId == id)
       <==> Sells(GroupOf(markets, id), config)
  {
    var groups, group := Groups(markets), GroupOf(markets, id);
    JudgedExactly(group, id, config);
    if c :| c in Detections(groups, order, config) && c.groupId == id {
      DetectionsFromGroups(groups, order, config, c);
    }
    if Judge(group, id, config).Detected? {
      GroupsAreDetected(groups, order, config, id);
    }
  }

  /** A detected constraint lists the tradable members of its group and resolves with the earliest of them. */
  lemma DetectedSays(markets: seq<DetectableMarket>, order: seq<string>, config: DetectionConfig, c: Constraint)
    requires Enumerates(order, GroupIds(markets)) && c in Detections(Groups(markets), order, config)
    ensures var id, group := c.groupId, GroupOf(markets, c.groupId);
      && c.id == "mutex_" + (if |id| <= 32 then id else id[..32])
      && c.kind == "mutex" && c.isNegRisk && c.implications == []
      && IsEarliest(c.endTs, group) && |c.markets| == |Tradable(group)|
      && forall r :: r in c.markets <==> ListedIn(group, r)
  {
    var group := GroupOf(markets, c.groupId);
    DetectionsFromGroups(Groups(markets), order, config, c);
    EarliestEndIsLeast(group);
    CandidatesAreTradable(group);
    forall r ensures r in c.markets <==> ListedIn(group, r) {
      CandidateExactly(group, r);
    }
  }

  /** What detection records of a constraint beside it: how far its group's prices are from a dollar, and its end. */
  ghost predicate RecordedOf(c: Constraint, groups: map<string, seq<DetectableMarket>>, spread: real, end: real) {
    && c.groupId in groups && end == c.endTs
    && spread >= 0.0 && (spread == PriceSum(groups[c.groupId]) - 1.0 || spread == 1.0 - PriceSum(groups[c.groupId]))
  }

  /** Under the id of each detected constraint stand the spread and the end of a detected constraint of that id. */
  lemma {:induction false} RecordsAreOfDetected(groups: map<string, seq<DetectableMarket>>, order: seq<string>,
                                                config: DetectionConfig, cid: string)
    requires forall id :: id in order ==> id in groups
    ensures var spreads, ends := Spreads(groups, order, config), Ends(groups, order, config);
      && (cid in spreads <==> cid in ends)
      && (cid in ends <==> exists c :: c in Detections(groups, order, config) && c.id == cid)
      && (cid in ends ==> exists c :: c in Detections(groups, order, config) && c.id == cid
                                      && RecordedOf(c, groups, spreads[cid], ends[cid]))
  {
    if order != [] {
      var n := |order| - 1;
      RecordsAreOfDetected(groups, order[..n], config, cid);
      var v := Judge(groups[order[n]], order[n], config);
      if v.Detected? && v.c.id == cid {
        assert v.c in Detections(groups, order, config);
        assert RecordedOf(v.c, groups, Spreads(groups, order, config)[cid], Ends(groups, order, config)[cid]);
      }
    }
  }

  lemma {:induction false} GroupsAreDetected(groups: map<string, seq<DetectableMarket>>, order: seq<string>,
                                             config: DetectionConfig, id: string)
    requires (forall k :: k in order ==> k in groups) && id in order && Judge(groups[id], id, config).Detected?
    ensures Judge(groups[id], id, config).c in Detections(groups, order, config)
  {
    var n := |order| - 1;
    if order[n] != id {
      GroupsAreDetected(groups, order[..n], config, id);
    }
  }

  /** The groups are the nonempty ids of markets marked as negative risk, each with all such markets. */
  lemma {:induction false} GroupMembers(markets: seq<DetectableMarket>, id: string, m: DetectableMarket)
    ensures m in GroupOf(markets, id) <==> m in markets && m.negRisk && m.groupId == id && id != ""
  {
    if markets != [] {
      var n := |markets| - 1;
      GroupMembers(markets[..n], id, m);
      assert markets == markets[..n] + [markets[n]];
    }
  }

  lemma GroupedExactly(markets: seq<DetectableMarket>, id: string)
    ensures id in GroupIds(markets) <==> exists m :: m in markets && m.negRisk && m.groupId == id && id != ""
  {
  }
}
