/**
 Token buckets, two tiers deep: every request takes a global token and then one of its
 category. Time is a parameter that never runs backwards.
 */
module RateLimiter {
  import opened Totals
  import opened Arithmetic

  datatype Bucket = Bucket(capacity: nat, tokens: real, rate: real, last: real)
  {
    ghost predicate Valid() { 0.0 <= tokens <= capacity as real && rate >= 0.0 }

    /** Tokens on hand at a later time. */
    function Level(now: real): real { Min(tokens + Product(rate, now - last), capacity as real) }

    function Refill(now: real): Bucket { this.(tokens := Level(now), last := now) }

    predicate Allows(now: real) { Level(now) >= 1.0 }

    function TryConsume(now: real): Bucket {
      var b := Refill(now);
      if b.tokens >= 1.0 then b.(tokens := b.tokens - 1.0) else b
    }

    function WaitTime(now: real): Wait {
      if Level(now) >= 1.0 then For(0.0)
      else if rate == 0.0 then Forever
      else For((1.0 - Level(now)) / rate)
    }
  }

  /** A wait may be infinite: a bucket of no capacity never refills. */
  datatype Wait = For(seconds: real) | Forever

  function NewBucket(capacity: nat, window: real, now: real): Bucket
    requires window > 0.0
  {
    Bucket(capacity, capacity as real, capacity as real / window, now)
  }

  datatype Category = Trading | Public | Auth

  datatype Verdict = Allowed | Throttled(wait: Wait)

  datatype Limiter = Limiter(trading: Bucket, public_: Bucket, auth: Bucket, global: Bucket)
  {
    function Of(c: Category): Bucket {
      match c
      case Trading => trading
      case Public => public_
      case Auth => auth
    }

    function With(c: Category, b: Bucket): Limiter {
      match c
      case Trading => this.(trading := b)
      case Public => this.(public_ := b)
      case Auth => this.(auth := b)
    }

    ghost predicate Valid() { trading.Valid() && public_.Valid() && auth.Valid() && global.Valid() }

    predicate NotAfter(t: real) { trading.last <= t && public_.last <= t && auth.last <= t && global.last <= t }

    predicate Accepts(c: Category, now: real) { global.Allows(now) && Of(c).Allows(now) }

    /** A rejected category keeps the global token it was charged. */
    function Check(c: Category, now: real): Limiter {
      if !global.Allows(now) then this.(global := global.TryConsume(now))
      else this.(global := global.TryConsume(now)).With(c, Of(c).TryConsume(now))
    }

    function Answer(c: Category, now: real): Verdict {
      if !global.Allows(now) then Throttled(global.TryConsume(now).WaitTime(now))
      else if !Of(c).Allows(now) then Throttled(Of(c).TryConsume(now).WaitTime(now))
      else Allowed
    }
  }

  function NewLimiter(trading: nat, public_: nat, auth: nat, global: nat, now: real): Limiter {
    Limiter(NewBucket(trading, 60.0, now), NewBucket(public_, 60.0, now), NewBucket(auth, 60.0, now),
      NewBucket(global, 600.0, now))
  }

  /** Waiting for no time refills nothing, so asking a refusing bucket for its wait leaves it as it is. */
  lemma RefusalStays(b: Bucket, now: real)
    requires !b.Allows(now)
    ensures b.TryConsume(now).Refill(now) == b.TryConsume(now)
  {
  }

  // ---------- The buckets as the program keeps them ----------

  class TokenBucket {
    const capacity: nat
    var tokens: real
    const rate: real
    var last: real

    function View(): Bucket
      reads this
    {
      Bucket(capacity, tokens, rate, last)
    }

    constructor (capacity: nat, window: real, now: real)
      requires window > 0.0
      ensures View() == NewBucket(capacity, window, now)
    {
      this.capacity, tokens, rate, last := capacity, capacity as real, capacity as real / window, now;
    }

    method Refill(now: real)
      modifies this
      ensures View() == old(View()).Refill(now)
    {
      var elapsed := now - last;
      tokens := Min(tokens + Product(rate, elapsed), capacity as real);
      last := now;
    }

    method TryConsume(now: real) returns (ok: bool)
      modifies this
      ensures ok == old(View()).Allows(now)
      ensures View() == old(View()).TryConsume(now)
    {
      Refill(now);
      if tokens >= 1.0 {
        tokens := tokens - 1.0;
        ok := true;
      } else {
        ok := false;
      }
    }

    method WaitTime(now: real) returns (wait: Wait)
      modifies this
      ensures wait == old(View()).WaitTime(now)
      ensures View() == old(View()).Refill(now)
    {
      Refill(now);
      if tokens >= 1.0 {
        return For(0.0);
      }
      if rate == 0.0 {
        return Forever;
      }
      return For((1.0 - tokens) / rate);
    }
  }

  class RateLimiter {
    const trading: TokenBucket
    const public_: TokenBucket
    const auth: TokenBucket
    const global: TokenBucket

    ghost predicate Separate() {
      && trading != public_ && trading != auth && trading != global
      && public_ != auth && public_ != global && auth != global
    }

    function View(): Limiter
      reads trading, public_, auth, global
    {
      Limiter(trading.View(), public_.View(), auth.View(), global.View())
    }

    constructor WithLimits(t: nat, p: nat, a: nat, g: nat, now: real)
      ensures Separate() && View() == NewLimiter(t, p, a, g, now)
    {
      trading := new TokenBucket(t, 60.0, now);
      public_ := new TokenBucket(p, 60.0, now);
      auth := new TokenBucket(a, 60.0, now);
      global := new TokenBucket(g, 600.0, now);
    }

    function BucketOf(c: Category): TokenBucket {
      match c
      case Trading => trading
      case Public => public_
      case Auth => auth
    }

    method Check(c: Category, now: real) returns (r: Verdict)
      requires Separate()
      modifies trading, public_, auth, global
      ensures r == old(View()).Answer(c, now)
      ensures View() == old(View()).Check(c, now)
    {
      var ok := global.TryConsume(now);
      if !ok {
        RefusalStays(old(global.View()), now);
        var wait := global.WaitTime(now);
        return Throttled(wait);
      }
      ok := BucketOf(c).TryConsume(now);
      if !ok {
        RefusalStays(old(BucketOf(c).View()), now);
        var wait := BucketOf(c).WaitTime(now);
        return Throttled(wait);
      }
      return Allowed;
    }
  }

  // ---------- One bucket ----------

  lemma NewBucketValid(capacity: nat, window: real, now: real)
    requires window > 0.0
    ensures NewBucket(capacity, window, now).Valid()
  {
  }

  lemma LevelInRange(b: Bucket, now: real)
    requires b.Valid() && b.last <= now
    ensures b.tokens <= b.Level(now) <= b.capacity as real && b.Level(now) <= b.tokens + Product(b.rate, now - b.last)
  {
    ProductNonNegative(b.rate, now - b.last);
  }

  lemma TryConsumeValid(b: Bucket, now: real)
    requires b.Valid() && b.last <= now
    ensures b.TryConsume(now).Valid() && b.TryConsume(now).last == now
    ensures b.TryConsume(now).tokens == b.Level(now) - (if b.Allows(now) then 1.0 else 0.0)
  {
    LevelInRange(b, now);
  }

  lemma LevelLater(b: Bucket, now: real, later: real)
    requires b.Valid() && b.last <= now <= later
    ensures b.Level(later) <= b.Level(now) + Product(b.rate, later - now)
    ensures b.Refill(now).Level(later) == b.Level(later)
  {
    ProductAdds(b.rate, now - b.last, later - now);
    ProductNonNegative(b.rate, later - now);
    ProductNonNegative(b.rate, now - b.last);
  }

  /**
   After a wait, with no other consumer, the next request passes exactly when the wait was long
   enough; a bucket that is empty for good says so.
   */
  lemma WaitIsExact(b: Bucket, now: real, later: real)
    requires b.Valid() && b.last <= now <= later && (b.capacity >= 1 || b.rate == 0.0)
    ensures b.Refill(now).Allows(later) <==>
            (b.WaitTime(now).For? && later - now >= b.WaitTime(now).seconds)
  {
    var tokens := b.Level(now);
    LevelInRange(b, now);
    LevelLater(b, now, later);
    ProductNonNegative(b.rate, later - now);
    if tokens < 1.0 && b.rate > 0.0 {
      var wait := (1.0 - tokens) / b.rate;
      assert wait * b.rate == 1.0 - tokens;
      if later - now >= wait { ProductGrows(wait, later - now, b.rate); }
      if wait > later - now { Strict(later - now, wait, b.rate); }
    }
  }

  // ---------- Retrying a refused request ----------

  /** The bucket that refused a request, and the other one as it is left. */
  function Refusing(l: Limiter, c: Category, now: real): Bucket { if !l.global.Allows(now) then l.global else l.Of(c) }

  function Other(l: Limiter, c: Category, now: real): Bucket {
    if !l.global.Allows(now) then l.Of(c) else l.global.TryConsume(now)
  }

  lemma RefusedKeepsLevel(b: Bucket, now: real)
    requires b.Valid() && b.last <= now && !b.Allows(now)
    ensures b.TryConsume(now) == b.Refill(now) && b.Refill(now).WaitTime(now) == b.WaitTime(now)
  {
  }

  /**
   With no other traffic, a refused request passes later exactly when the reported wait is over
   and the other bucket has a token by then.
   */
  lemma RetryPassesExactly(l: Limiter, c: Category, now: real, later: real)
    requires l.Valid() && l.NotAfter(now) && now <= later && l.Answer(c, now).Throttled?
    requires Refusing(l, c, now).capacity >= 1 || Refusing(l, c, now).rate == 0.0
    ensures var wait := l.Answer(c, now).wait;
      l.Check(c, now).Accepts(c, later)
      <==> wait.For? && later - now >= wait.seconds && Other(l, c, now).Allows(later)
  {
    RefusedKeepsLevel(Refusing(l, c, now), now);
    WaitIsExact(Refusing(l, c, now), now, later);
  }

  /** Every request that finds a global token is charged for it, whether its category then lets it through or not. */
  lemma GlobalTokenIsCharged(l: Limiter, c: Category, now: real)
    requires l.Valid() && l.NotAfter(now)
    ensures l.Check(c, now).global.tokens == l.global.Level(now) - (if l.global.Allows(now) then 1.0 else 0.0)
    ensures l.global.Allows(now) && !l.Of(c).Allows(now) ==>
      l.Answer(c, now).Throttled? && l.Check(c, now).Of(c).tokens == l.Of(c).Level(now)
  {
    TryConsumeValid(l.global, now);
    TryConsumeValid(l.Of(c), now);
  }

  // ---------- Whole runs ----------

  datatype Request = Request(category: Category, at: real)

  function Run(l: Limiter, rs: seq<Request>): Limiter {
    if rs == [] then l else Run(l, rs[..|rs| - 1]).Check(rs[|rs| - 1].category, rs[|rs| - 1].at)
  }

  /** Requests come in time order, all in the interval. */
  predicate Within(rs: seq<Request>, from: real, to: real) {
    && (forall i :: 0 <= i < |rs| ==> from <= rs[i].at <= to)
    && (forall i, j :: 0 <= i < j < |rs| ==> rs[i].at <= rs[j].at)
  }

  function AcceptedIn(l: Limiter, rs: seq<Request>, c: Category): nat {
    if rs == [] then 0 else
      var r := rs[|rs| - 1];
      AcceptedIn(l, rs[..|rs| - 1], c)
      + (if r.category == c && Run(l, rs[..|rs| - 1]).Accepts(c, r.at) then 1 else 0)
  }

  function AcceptedAll(l: Limiter, rs: seq<Request>): nat {
    if rs == [] then 0 else
      var r := rs[|rs| - 1];
      AcceptedAll(l, rs[..|rs| - 1]) + (if Run(l, rs[..|rs| - 1]).Accepts(r.category, r.at) then 1 else 0)
  }

  lemma CheckKeepsValid(l: Limiter, c: Category, now: real)
    requires l.Valid() && l.NotAfter(now)
    ensures l.Check(c, now).Valid() && l.Check(c, now).NotAfter(now)
  {
    TryConsumeValid(l.global, now);
    TryConsumeValid(l.Of(c), now);
  }

  lemma {:induction false} RunKeepsValid(l: Limiter, rs: seq<Request>, from: real, to: real)
    requires l.Valid() && l.NotAfter(from) && from <= to && Within(rs, from, to)
    ensures Run(l, rs).Valid() && Run(l, rs).NotAfter(if rs == [] then from else rs[|rs| - 1].at)
  {
    if rs != [] {
      var n := |rs| - 1;
      RunKeepsValid(l, rs[..n], from, to);
      CheckKeepsValid(Run(l, rs[..n]), rs[n].category, rs[n].at);
    }
  }

  /** Bound for one bucket: accepted requests and tokens left are paid for by what was there and what flowed in. */
  ghost predicate Paid(accepted: nat, b: Bucket, start: Bucket, from: real, to: real) {
    && b.capacity == start.capacity && b.rate == start.rate
    && accepted as real + b.Level(to) <= start.Level(from) + Product(start.rate, to - from)
  }

  lemma ConsumePays(b: Bucket, now: real, to: real)
    requires b.Valid() && b.last <= now <= to
    ensures b.TryConsume(now).Level(to) <= b.Level(to)
    ensures b.Allows(now) ==> b.TryConsume(now).Level(to) + 1.0 <= b.Level(now) + Product(b.rate, to - now)
  {
    LevelLater(b, now, to);
    ProductNonNegative(b.rate, to - now);
  }

  /** Idle until a later time, or consuming now, a paid bucket stays paid. */
  lemma PaidStep(accepted: nat, b: Bucket, start: Bucket, from: real, now: real, t: real)
    requires b.Valid() && b.last <= now && from <= now <= t && Paid(accepted, b, start, from, now)
    ensures Paid(accepted, b, start, from, t)
    ensures Paid(accepted, b.TryConsume(now), start, from, t)
    ensures b.Allows(now) ==> Paid(accepted + 1, b.TryConsume(now), start, from, t)
  {
    ProductAdds(start.rate, now - from, t - now);
    LevelLater(b, now, t);
    ConsumePays(b, now, t);
  }

  /**
   The potential argument. At any time `t` of the interval, what was accepted plus what is on
   hand is at most what was on hand at the start plus what has flowed in since.
   */
  lemma {:induction false} CategoryPays(l: Limiter, rs: seq<Request>, c: Category, from: real, t: real)
    requires l.Valid() && l.NotAfter(from) && Within(rs, from, t) && from <= t
    ensures Paid(AcceptedIn(l, rs, c), Run(l, rs).Of(c), l.Of(c), from, t)
  {
    if rs == [] {
      LevelLater(l.Of(c), from, t);
    } else {
      var n := |rs| - 1;
      var r := rs[n];
      var mid := Run(l, rs[..n]);
      RunKeepsValid(l, rs[..n], from, t);
      CategoryPays(l, rs[..n], c, from, r.at);
      PaidStep(AcceptedIn(l, rs[..n], c), mid.Of(c), l.Of(c), from, r.at, t);
    }
  }

  lemma {:induction false} GlobalPays(l: Limiter, rs: seq<Request>, from: real, t: real)
    requires l.Valid() && l.NotAfter(from) && Within(rs, from, t) && from <= t
    ensures Paid(AcceptedAll(l, rs), Run(l, rs).global, l.global, from, t)
  {
    if rs == [] {
      LevelLater(l.global, from, t);
    } else {
      var n := |rs| - 1;
      var r := rs[n];
      var mid := Run(l, rs[..n]);
      RunKeepsValid(l, rs[..n], from, t);
      GlobalPays(l, rs[..n], from, r.at);
      PaidStep(AcceptedAll(l, rs[..n]), mid.global, l.global, from, r.at, t);
    }
  }

  /** Over any interval of any run, each category passes at most its burst plus its rate times the length. */
  lemma CategoryBound(l: Limiter, rs: seq<Request>, c: Category, from: real, to: real)
    requires l.Valid() && l.NotAfter(from) && from <= to && Within(rs, from, to)
    ensures AcceptedIn(l, rs, c) as real <= l.Of(c).capacity as real + Product(l.Of(c).rate, to - from)
  {
    CategoryPays(l, rs, c, from, to);
    LevelInRange(l.Of(c), from);
    RunKeepsValid(l, rs, from, to);
    LevelInRange(Run(l, rs).Of(c), to);
  }

  /** A category without capacity passes nothing, however long it waits and whatever its refill rate. */
  lemma {:induction false} ClosedCategoryPassesNothing(l: Limiter, rs: seq<Request>, c: Category, from: real, to: real)
    requires l.Valid() && l.NotAfter(from) && from <= to && Within(rs, from, to) && l.Of(c).capacity == 0
    ensures AcceptedIn(l, rs, c) == 0
  {
    if rs != [] {
      var n := |rs| - 1;
      ClosedCategoryPassesNothing(l, rs[..n], c, from, to);
      RunKeepsValid(l, rs[..n], from, to);
      CategoryPays(l, rs[..n], c, from, to);
      LevelInRange(Run(l, rs[..n]).Of(c), rs[n].at);
    }
  }

  /** And all requests together obey the global bucket. */
  lemma GlobalBound(l: Limiter, rs: seq<Request>, from: real, to: real)
    requires l.Valid() && l.NotAfter(from) && from <= to && Within(rs, from, to)
    ensures AcceptedAll(l, rs) as real <= l.global.capacity as real + Product(l.global.rate, to - from)
    ensures AcceptedAll(l, rs) == AcceptedIn(l, rs, Trading) + AcceptedIn(l, rs, Public) + AcceptedIn(l, rs, Auth)
  {
    GlobalPays(l, rs, from, to);
    LevelInRange(l.global, from);
    RunKeepsValid(l, rs, from, to);
    LevelInRange(Run(l, rs).global, to);
    AcceptedSplits(l, rs);
  }

  lemma {:induction false} AcceptedSplits(l: Limiter, rs: seq<Request>)
    ensures AcceptedAll(l, rs) == AcceptedIn(l, rs, Trading) + AcceptedIn(l, rs, Public) + AcceptedIn(l, rs, Auth)
  {
    if rs != [] {
      AcceptedSplits(l, rs[..|rs| - 1]);
    }
  }

  /** The bounds hold from the limiter's creation on, over any interval after any earlier traffic. */
  lemma BoundsFromTheStart(trading: nat, public_: nat, auth: nat, global: nat, created: real,
                           past: seq<Request>, rs: seq<Request>, c: Category, from: real, to: real)
    requires created <= from <= to && Within(past, created, from) && Within(rs, from, to)
    ensures var l := Run(NewLimiter(trading, public_, auth, global, created), past);
      && AcceptedIn(l, rs, c) as real <= l.Of(c).capacity as real + Product(l.Of(c).rate, to - from)
      && AcceptedAll(l, rs) as real <= l.global.capacity as real + Product(l.global.rate, to - from)
  {
    var start := NewLimiter(trading, public_, auth, global, created);
    NewBucketValid(trading, 60.0, created);
    NewBucketValid(public_, 60.0, created);
    NewBucketValid(auth, 60.0, created);
    NewBucketValid(global, 600.0, created);
    RunKeepsValid(start, past, created, from);
    CategoryBound(Run(start, past), rs, c, from, to);
    GlobalBound(Run(start, past), rs, from, to);
  }

  // ---------- The limits in figures ----------

  /** Capacity and rate of each bucket never change. */
  ghost predicate SameLimits(l: Limiter, r: Limiter) {
    && (forall c :: l.Of(c).capacity == r.Of(c).capacity && l.Of(c).rate == r.Of(c).rate)
    && l.global.capacity == r.global.capacity && l.global.rate == r.global.rate
  }

  lemma CheckKeepsLimits(l: Limiter, c: Category, now: real)
    ensures SameLimits(l, l.Check(c, now))
  {
  }

  lemma {:induction false} RunKeepsLimits(l: Limiter, rs: seq<Request>)
    ensures SameLimits(l, Run(l, rs))
  {
    if rs != [] {
      var n := |rs| - 1;
      RunKeepsLimits(l, rs[..n]);
      CheckKeepsLimits(Run(l, rs[..n]), rs[n].category, rs[n].at);
    }
  }

  /** Requests a bucket lets through in some seconds: what it holds, and what it refills a minute. */
  function Limit(burst: nat, perMinute: real, seconds: real): real {
    burst as real + Product(perMinute, seconds / 60.0)
  }

  lemma LimitOf(capacity: nat, window: real, seconds: real, created: real)
    requires window > 0.0
    ensures capacity as real + Product(NewBucket(capacity, window, created).rate, seconds)
         == Limit(capacity, capacity as real * 60.0 / window, seconds)
  {
    var rate := capacity as real / window;
    DivisionBack(capacity as real, window);
    UniqueQuotient(capacity as real * 60.0, window, rate * 60.0);
  }

  lemma CategoryInFigures(start: Limiter, past: seq<Request>, rs: seq<Request>, c: Category, capacity: nat,
                          created: real, from: real, to: real)
    requires start.Of(c) == NewBucket(capacity, 60.0, created)
    requires AcceptedIn(Run(start, past), rs, c) as real
          <= Run(start, past).Of(c).capacity as real + Product(Run(start, past).Of(c).rate, to - from)
    ensures AcceptedIn(Run(start, past), rs, c) as real <= Limit(capacity, capacity as real, to - from)
  {
    RunKeepsLimits(start, past);
    LimitOf(capacity, 60.0, to - from, created);
    assert capacity as real * 60.0 / 60.0 == capacity as real;
  }

  lemma GlobalInFigures(start: Limiter, past: seq<Request>, rs: seq<Request>, capacity: nat, created: real, from: real,
                        to: real)
    requires start.global == NewBucket(capacity, 600.0, created)
    requires AcceptedAll(Run(start, past), rs) as real
          <= Run(start, past).global.capacity as real + Product(Run(start, past).global.rate, to - from)
    ensures AcceptedAll(Run(start, past), rs) as real <= Limit(capacity, capacity as real / 10.0, to - from)
  {
    RunKeepsLimits(start, past);
    LimitOf(capacity, 600.0, to - from, created);
    assert capacity as real * 60.0 / 600.0 == capacity as real / 10.0;
  }

  /**
   With the limits given, over any seconds after any earlier traffic: each category passes its burst and
   as much again every minute, and all of them together the global burst and a tenth of it every minute.
   */
  lemma LimitsInFigures(trading: nat, public_: nat, auth: nat, global: nat, created: real, past: seq<Request>,
                        rs: seq<Request>, from: real, to: real)
    requires created <= from <= to && Within(past, created, from) && Within(rs, from, to)
    ensures var l := Run(NewLimiter(trading, public_, auth, global, created), past);
      && AcceptedIn(l, rs, Trading) as real <= Limit(trading, trading as real, to - from)
      && AcceptedIn(l, rs, Public) as real <= Limit(public_, public_ as real, to - from)
      && AcceptedIn(l, rs, Auth) as real <= Limit(auth, auth as real, to - from)
      && AcceptedAll(l, rs) as real <= Limit(global, global as real / 10.0, to - from)
  {
    var start := NewLimiter(trading, public_, auth, global, created);
    forall c: Category
      ensures AcceptedIn(Run(start, past), rs, c) as real
           <= Run(start, past).Of(c).capacity as real + Product(Run(start, past).Of(c).rate, to - from)
    {
      BoundsFromTheStart(trading, public_, auth, global, created, past, rs, c, from, to);
    }
    BoundsFromTheStart(trading, public_, auth, global, created, past, rs, Trading, from, to);
    CategoryInFigures(start, past, rs, Trading, trading, created, from, to);
    CategoryInFigures(start, past, rs, Public, public_, created, from, to);
    CategoryInFigures(start, past, rs, Auth, auth, created, from, to);
    GlobalInFigures(start, past, rs, global, created, from, to);
  }
}
