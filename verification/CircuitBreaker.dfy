/**
 The circuit breaker: it trips on drawdown, error bursts, silence of the venue, gas or revert
 alarms; only a geoblock trip can clear itself. The theorems say what a decision depends on
 in terms of the whole history of events.
 */
module CircuitBreaker {
  import opened Totals

  datatype Config = Config(enabled: bool, maxDrawdown: real, maxErrors: nat, errorWindow: real, apiTimeout: real)

  datatype Reason =
    | Drawdown(pct: real, peak: real, current: real)
    | ErrorBurst(count: nat)
    | ApiUnreachable(elapsed: real)
    | GasCritical(message: string)
    | RevertRate(pct: real, confirmed: nat, reverted: nat)

  predicate IsGeoblock(r: Reason) { r.GasCritical? && |r.message| >= 9 && r.message[..9] == "Geoblock:" }

  /** Expires from the front only, as a deque does. */
  function DropBefore(ts: seq<real>, cutoff: real): seq<real> {
    if ts != [] && ts[0] < cutoff then DropBefore(ts[1..], cutoff) else ts
  }

  /** How far `value` lies below the peak, as a fraction of the peak. */
  function Loss(peak: real, value: real): real
    requires peak > 0.0
  {
    (peak - value) / peak
  }

  datatype Breaker = Breaker(
    config: Config, trip: Option<Reason>, tripTs: Option<real>, peak: real, errors: seq<real>, lastApi: real,
    streak: nat)
  {
    predicate Tripped() { trip.Some? }

    predicate GeoTripped() { trip.Some? && IsGeoblock(trip.value) }

    function Trip(r: Reason, now: real): Breaker { this.(trip := Some(r), tripTs := Some(now)) }

    function Expired(now: real): Breaker { this.(errors := DropBefore(errors, now - config.errorWindow)) }

    function Check(value: real, now: real): Breaker {
      if !config.enabled || Tripped() then this else
        var b := this.(peak := Max(peak, value));
        if b.peak > 0.0 && Loss(b.peak, value) >= config.maxDrawdown then
          b.Trip(Drawdown(Loss(b.peak, value), b.peak, value), now)
        else
          var c := b.Expired(now);
          if |c.errors| >= config.maxErrors then c.Trip(ErrorBurst(|c.errors|), now)
          else if now - lastApi >= config.apiTimeout then c.Trip(ApiUnreachable(now - lastApi), now)
          else c
    }

    function Alarm(r: Reason, now: real): Breaker { if !config.enabled || Tripped() then this else Trip(r, now) }

    function ProbeSuccess(threshold: nat, now: real): Breaker {
      if !GeoTripped() then this
      else if streak + 1 >= threshold then this.(trip := None, tripTs := None, streak := 0, lastApi := now)
      else this.(streak := streak + 1)
    }
  }

  function NewBreaker(config: Config, initial: real, now: real): Breaker {
    Breaker(config, None, None, initial, [], now, 0)
  }

  // ---------- The breaker as the program keeps it ----------

  class CircuitBreaker {
    const config: Config
    var tripped: bool
    var reason: Option<Reason>
    var tripTs: Option<real>
    var peak: real
    var errors: seq<real>
    var lastApi: real
    var streak: nat

    predicate Valid()
      reads this
    {
      tripped == reason.Some?
    }

    function View(): Breaker
      reads this
    {
      Breaker(config, reason, tripTs, peak, errors, lastApi, streak)
    }

    constructor (config: Config, initial: real, now: real)
      ensures Valid() && View() == NewBreaker(config, initial, now)
    {
      this.config := config;
      tripped, reason, tripTs, peak, errors, lastApi, streak := false, None, None, initial, [], now, 0;
    }

    method Trip(r: Reason, now: real)
      modifies this
      ensures Valid() && View() == old(View()).Trip(r, now)
    {
      tripped, reason, tripTs := true, Some(r), Some(now);
    }

    method ExpireOldErrors(now: real)
      modifies this`errors
      ensures errors == DropBefore(old(errors), now - config.errorWindow)
    {
      var cutoff := now - config.errorWindow;
      while errors != [] && errors[0] < cutoff
        invariant DropBefore(errors, cutoff) == DropBefore(old(errors), cutoff)
        decreases |errors|
      {
        errors := errors[1..];
      }
    }

    method Check(value: real, now: real) returns (trips: Option<Reason>)
      requires Valid()
      modifies this
      ensures Valid() && View() == old(View()).Check(value, now)
      ensures trips == if old(tripped) then None else reason
    {
      if !config.enabled || tripped {
        return None;
      }
      if value > peak {
        peak := value;
      }
      if peak > 0.0 {
        var drawdown := (peak - value) / peak;
        if drawdown >= config.maxDrawdown {
          Trip(Drawdown(drawdown, peak, value), now);
          return reason;
        }
      }
      ExpireOldErrors(now);
      if |errors| >= config.maxErrors {
        Trip(ErrorBurst(|errors|), now);
        return reason;
      }
      var elapsed := now - lastApi;
      if elapsed >= config.apiTimeout {
        Trip(ApiUnreachable(elapsed), now);
        return reason;
      }
      return None;
    }

    method RecordError(now: real)
      requires Valid()
      modifies this
      ensures Valid() && View() == old(View()).(errors := old(errors) + [now]).Expired(now)
    {
      errors := errors + [now];
      ExpireOldErrors(now);
    }

    method RecordApiSuccess(now: real)
      requires Valid()
      modifies this
      ensures Valid() && View() == old(View()).(lastApi := now, errors := [])
    {
      lastApi := now;
      errors := [];
    }

    method RaiseAlarm(r: Reason, now: real) returns (trips: bool)
      requires Valid() && (r.GasCritical? || r.RevertRate?)
      modifies this
      ensures Valid() && View() == old(View()).Alarm(r, now)
      ensures trips == (config.enabled && !old(tripped))
    {
      if !config.enabled || tripped {
        return false;
      }
      Trip(r, now);
      return true;
    }

    method RecordGeoblockProbeSuccess(threshold: nat, now: real) returns (recovered: bool)
      requires Valid()
      modifies this
      ensures Valid() && View() == old(View()).ProbeSuccess(threshold, now)
      ensures recovered == (old(tripped) && !tripped)
    {
      if !tripped || !IsGeoblock(reason.value) {
        return false;
      }
      streak := streak + 1;
      if streak >= threshold {
        tripped, reason, tripTs, streak, lastApi := false, None, None, 0, now;
        return true;
      }
      return false;
    }

    method RecordGeoblockProbeFailure()
      requires Valid()
      modifies this
      ensures Valid() && View() == old(View()).(streak := 0)
    {
      streak := 0;
    }
  }

  // ---------- Histories ----------

  datatype Event =
    | Checked(value: real, at: real)
    | Erred(at: real)
    | Succeeded(at: real)
    | Alarmed(reason: Reason, at: real)
    | Probed(threshold: nat, at: real)
    | ProbeFailed(at: real)

  function Apply(b: Breaker, e: Event): Breaker {
    match e
    case Checked(value, at) => b.Check(value, at)
    case Erred(at) => b.(errors := b.errors + [at]).Expired(at)
    case Succeeded(at) => b.(lastApi := at, errors := [])
    case Alarmed(reason, at) => b.Alarm(reason, at)
    case Probed(threshold, at) => b.ProbeSuccess(threshold, at)
    case ProbeFailed(_) => b.(streak := 0)
  }

  function Run(b: Breaker, es: seq<Event>): Breaker {
    if es == [] then b else Apply(Run(b, es[..|es| - 1]), es[|es| - 1])
  }

  predicate InOrder(es: seq<Event>) { forall i, j :: 0 <= i < j < |es| ==> es[i].at <= es[j].at }

  /** The largest of the initial value and all values checked while untripped. */
  function HighestChecked(b: Breaker, es: seq<Event>): real {
    if es == [] then b.peak else
      var e := es[|es| - 1];
      var before := es[..|es| - 1];
      if e.Checked? && b.config.enabled && !Run(b, before).Tripped() then Max(HighestChecked(b, before), e.value)
      else HighestChecked(b, before)
  }

  /** Every error since the last success, expired or not. */
  function ErrorsSinceSuccess(es: seq<Event>): seq<real> {
    if es == [] then [] else
      var e := es[|es| - 1];
      if e.Succeeded? then [] else ErrorsSinceSuccess(es[..|es| - 1]) + (if e.Erred? then [e.at] else [])
  }

  /** The last success, or the last recovery from a geoblock, or the start. */
  function LastSuccess(b: Breaker, es: seq<Event>): real {
    if es == [] then b.lastApi else
      var e := es[|es| - 1];
      var before := Run(b, es[..|es| - 1]);
      if e.Succeeded? || (e.Probed? && before.Tripped() && !Apply(before, e).Tripped()) then e.at
      else LastSuccess(b, es[..|es| - 1])
  }

  function InWindow(ts: seq<real>, cutoff: real): seq<real> {
    if ts == [] then [] else InWindow(ts[..|ts| - 1], cutoff) + (if ts[|ts| - 1] >= cutoff then [ts[|ts| - 1]] else [])
  }

  // ---------- The deque agrees with history ----------

  lemma {:induction false} DropTwice(ts: seq<real>, c: real, d: real)
    requires c <= d
    ensures DropBefore(DropBefore(ts, c), d) == DropBefore(ts, d)
  {
    if ts != [] && ts[0] < c {
      DropTwice(ts[1..], c, d);
    }
  }

  lemma {:induction false} DropAppend(ts: seq<real>, t: real, c: real)
    ensures DropBefore(ts + [t], c)
         == if DropBefore(ts, c) != [] then DropBefore(ts, c) + [t] else if t < c then [] else [t]
  {
    if ts == [] {
      assert ts + [t] == [t] && [t][1..] == [];
    } else if ts[0] < c {
      assert (ts + [t])[1..] == ts[1..] + [t];
      DropAppend(ts[1..], t, c);
    }
  }

  ghost predicate Ascending(ts: seq<real>) { forall i, j :: 0 <= i < j < |ts| ==> ts[i] <= ts[j] }

  /** On ascending times, expiring from the front keeps exactly what is inside the window. */
  lemma {:induction false} DropIsFilter(ts: seq<real>, c: real)
    requires Ascending(ts)
    ensures DropBefore(ts, c) == InWindow(ts, c)
    ensures DropBefore(ts, c) == [] || DropBefore(ts, c)[|DropBefore(ts, c)| - 1] == ts[|ts| - 1]
    ensures ts != [] && ts[|ts| - 1] >= c ==> DropBefore(ts, c) != []
    ensures ts != [] && ts[|ts| - 1] < c ==> DropBefore(ts, c) == []
  {
    if ts != [] {
      var n := |ts| - 1;
      assert ts[..n] + [ts[n]] == ts;
      DropIsFilter(ts[..n], c);
      DropAppend(ts[..n], ts[n], c);
      if ts[n] < c && n > 0 {
        assert ts[n - 1] <= ts[n];
      }
    }
  }

  /** As of any cutoff not before the newest expiry, deque and history keep the same errors. */
  ghost predicate SameRecentErrors(b: Breaker, all: seq<real>, now: real) {
    forall c :: c >= now - b.config.errorWindow ==> DropBefore(b.errors, c) == DropBefore(all, c)
  }

  lemma SameAfterError(b: Breaker, all: seq<real>, before: real, now: real)
    requires SameRecentErrors(b, all, before) && before <= now
    ensures SameRecentErrors(b.(errors := b.errors + [now]).Expired(now), all + [now], now)
  {
    var b' := b.(errors := b.errors + [now]).Expired(now);
    forall c | c >= now - b.config.errorWindow ensures DropBefore(b'.errors, c) == DropBefore(all + [now], c) {
      DropTwice(b.errors + [now], now - b.config.errorWindow, c);
      DropAppend(b.errors, now, c);
      DropAppend(all, now, c);
    }
  }

  lemma SameAfterExpiry(b: Breaker, all: seq<real>, before: real, now: real)
    requires SameRecentErrors(b, all, before) && before <= now
    ensures SameRecentErrors(b.Expired(now), all, now) && SameRecentErrors(b, all, now)
  {
    forall c | c >= now - b.config.errorWindow ensures DropBefore(b.Expired(now).errors, c) == DropBefore(all, c) {
      DropTwice(b.errors, now - b.config.errorWindow, c);
    }
  }

  lemma SameAfterCheck(b: Breaker, all: seq<real>, before: real, value: real, now: real)
    requires SameRecentErrors(b, all, before) && before <= now
    ensures SameRecentErrors(b.Check(value, now), all, now)
  {
    SameAfterExpiry(b, all, before, now);
    assert b.Check(value, now).errors == b.errors || b.Check(value, now).errors == b.Expired(now).errors;
  }

  function LastTime(b: Breaker, es: seq<Event>, start: real): real { if es == [] then start else es[|es| - 1].at }

  lemma RecentErrorsStep(b: Breaker, all: seq<real>, before: real, e: Event)
    requires SameRecentErrors(b, all, before) && before <= e.at
    ensures Apply(b, e).config == b.config
    ensures SameRecentErrors(Apply(b, e), if e.Succeeded? then [] else if e.Erred? then all + [e.at] else all, e.at)
  {
    match e {
      case Checked(value, at) => SameAfterCheck(b, all, before, value, at);
      case Erred(at) => SameAfterError(b, all, before, at);
      case _ => SameAfterExpiry(b, all, before, e.at);
    }
  }

  lemma {:induction false} DequeMatchesHistory(b: Breaker, es: seq<Event>, start: real)
    requires b.errors == [] && InOrder(es) && (es != [] ==> start <= es[0].at)
    ensures Run(b, es).config == b.config
    ensures SameRecentErrors(Run(b, es), ErrorsSinceSuccess(es), LastTime(b, es, start))
  {
    if es != [] {
      var n := |es| - 1;
      DequeMatchesHistory(b, es[..n], start);
      var all := ErrorsSinceSuccess(es[..n]);
      assert all + [] == all;
      RecentErrorsStep(Run(b, es[..n]), all, LastTime(b, es[..n], start), es[n]);
    }
  }

  lemma AscendingAppend(ts: seq<real>, t: real)
    requires Ascending(ts) && forall u :: u in ts ==> u <= t
    ensures Ascending(ts + [t])
  {
    forall i, j | 0 <= i < j < |ts + [t]| ensures (ts + [t])[i] <= (ts + [t])[j] {
      assert (ts + [t])[i] == ts[i] && ts[i] in ts;
    }
  }

  lemma {:induction false} HistoryTimesAscend(es: seq<Event>)
    requires InOrder(es)
    ensures Ascending(ErrorsSinceSuccess(es))
    ensures forall t :: t in ErrorsSinceSuccess(es) ==> es != [] && t <= es[|es| - 1].at
  {
    if es != [] {
      var n := |es| - 1;
      HistoryTimesAscend(es[..n]);
      var all := ErrorsSinceSuccess(es[..n]);
      assert all + [] == all;
      forall t | t in ErrorsSinceSuccess(es[..n]) ensures t <= es[n].at {
        assert t <= es[..n][n - 1].at <= es[n].at;
      }
      AscendingAppend(all, es[n].at);
    }
  }

  lemma {:induction false} FiguresMatchHistory(b: Breaker, es: seq<Event>)
    ensures Run(b, es).peak == HighestChecked(b, es) && Run(b, es).lastApi == LastSuccess(b, es)
    ensures Run(b, es).config == b.config
  {
    if es != [] {
      FiguresMatchHistory(b, es[..|es| - 1]);
    }
  }

  /** What a check decides, from the peak, the recent errors and the last success. */
  function Verdict(config: Config, peak: real, recent: seq<real>, last: real, value: real, now: real): Option<Reason> {
    if peak > 0.0 && Loss(peak, value) >= config.maxDrawdown then Some(Drawdown(Loss(peak, value), peak, value))
    else if |recent| >= config.maxErrors then Some(ErrorBurst(|recent|))
    else if now - last >= config.apiTimeout then Some(ApiUnreachable(now - last))
    else None
  }

  lemma CheckGivesVerdict(m: Breaker, value: real, now: real)
    requires m.config.enabled && !m.Tripped()
    ensures m.Check(value, now).trip
         == Verdict(m.config, Max(m.peak, value), DropBefore(m.errors, now - m.config.errorWindow), m.lastApi,
                     value, now)
  {
  }

  lemma ErrorsMatchHistory(b: Breaker, es: seq<Event>, start: real, now: real)
    requires b.errors == [] && InOrder(es) && (es != [] ==> start <= es[0].at) && LastTime(b, es, start) <= now
    ensures DropBefore(Run(b, es).errors, now - b.config.errorWindow)
         == InWindow(ErrorsSinceSuccess(es), now - b.config.errorWindow)
  {
    DequeMatchesHistory(b, es, start);
    HistoryTimesAscend(es);
    DropIsFilter(ErrorsSinceSuccess(es), now - b.config.errorWindow);
  }

  /**
   After any history in time order, an untripped check decides on the highest value checked while
   untripped, the errors since the last success inside the window, and the last success.
   */
  lemma CheckDecidesOnHistory(b: Breaker, es: seq<Event>, start: real, value: real, now: real)
    requires b.errors == [] && InOrder(es) && (es != [] ==> start <= es[0].at) && LastTime(b, es, start) <= now
    requires b.config.enabled && !Run(b, es).Tripped()
    ensures Run(b, es).Check(value, now).trip
         == Verdict(b.config, Max(HighestChecked(b, es), value),
                    InWindow(ErrorsSinceSuccess(es), now - b.config.errorWindow), LastSuccess(b, es), value, now)
  {
    FiguresMatchHistory(b, es);
    ErrorsMatchHistory(b, es, start, now);
    CheckGivesVerdict(Run(b, es), value, now);
  }

  /** The fraction of the peak that is lost, against a threshold. */
  lemma LossThreshold(peak: real, value: real, threshold: real)
    requires peak > 0.0
    ensures Loss(peak, value) * peak == peak - value
    ensures Loss(peak, value) >= threshold <==> value <= (1.0 - threshold) * peak
  {
    var loss := Loss(peak, value);
    assert loss * peak == peak - value;
    TimesComparesExactly(threshold, loss, peak);
  }

  lemma TimesComparesExactly(a: real, b: real, c: real)
    requires c > 0.0
    ensures a * c <= b * c <==> a <= b
  {
  }

  /** The value has fallen by the tolerated fraction of the highest value, or more. */
  predicate FellTooFar(config: Config, highest: real, value: real) {
    highest > 0.0 && value <= (1.0 - config.maxDrawdown) * highest
  }

  /** First the drawdown from the highest value, then the number of recent errors, then the silence. */
  predicate Decides(config: Config, highest: real, recent: nat, silence: real, value: real, trip: Option<Reason>) {
    if FellTooFar(config, highest, value) then
      && trip.Some? && trip.value.Drawdown? && trip.value.peak == highest && trip.value.current == value
      && trip.value.pct * highest == highest - value
    else if recent >= config.maxErrors then trip == Some(ErrorBurst(recent))
    else if silence >= config.apiTimeout then trip == Some(ApiUnreachable(silence))
    else trip == None
  }

  lemma VerdictDecides(config: Config, highest: real, recent: seq<real>, last: real, value: real, now: real)
    ensures Decides(config, highest, |recent|, now - last, value, Verdict(config, highest, recent, last, value, now))
  {
    if highest > 0.0 { LossThreshold(highest, value, config.maxDrawdown); }
  }

  /**
   What an untripped check decides after any history, figure by figure: whether the value fell too far
   below the highest one checked, how many errors of the window came after the last success, and how
   long ago that success was.
   */
  lemma CheckTripsExactly(b: Breaker, es: seq<Event>, start: real, value: real, now: real)
    requires b.errors == [] && InOrder(es) && (es != [] ==> start <= es[0].at) && LastTime(b, es, start) <= now
    requires b.config.enabled && !Run(b, es).Tripped()
    ensures Decides(b.config, Max(HighestChecked(b, es), value),
                    |InWindow(ErrorsSinceSuccess(es), now - b.config.errorWindow)|, now - LastSuccess(b, es), value,
                    Run(b, es).Check(value, now).trip)
    ensures Run(b, es).Check(value, now).Tripped() ==> Run(b, es).Check(value, now).tripTs == Some(now)
  {
    CheckDecidesOnHistory(b, es, start, value, now);
    VerdictDecides(b.config, Max(HighestChecked(b, es), value),
                   InWindow(ErrorsSinceSuccess(es), now - b.config.errorWindow), LastSuccess(b, es), value, now);
  }

  // ---------- Trips ----------

  /** An alarm trips exactly an enabled breaker that is not tripped, with its reason and time. */
  lemma AlarmTripsExactly(b: Breaker, reason: Reason, at: real)
    ensures var r := Apply(b, Alarmed(reason, at));
      if b.config.enabled && b.trip.None? then r == b.(trip := Some(reason), tripTs := Some(at)) else r == b
  {
  }

  /** Only gas alarms whose message starts with the geoblock marker can clear again. */
  lemma GeoblockIsAPrefix(r: Reason)
    ensures IsGeoblock(r) <==> exists detail: string :: r == GasCritical("Geoblock:" + detail)
  {
    if IsGeoblock(r) {
      assert r == GasCritical("Geoblock:" + r.message[9..]);
    }
  }

  /** A trip that is not a geoblock is permanent: same reason, same time, for ever. */
  lemma {:induction false} OtherTripsArePermanent(b: Breaker, es: seq<Event>)
    requires b.Tripped() && !b.GeoTripped()
    ensures Run(b, es).trip == b.trip && Run(b, es).tripTs == b.tripTs
  {
    if es != [] {
      OtherTripsArePermanent(b, es[..|es| - 1]);
    }
  }

  /** Where the current stretch of probes without a failure began: at the geoblock trip, or after the last failure. */
  function QuietStart(b: Breaker, es: seq<Event>): (k: nat)
    ensures k <= |es|
  {
    if es == [] then 0
    else if !Run(b, es).GeoTripped() || es[|es| - 1].ProbeFailed? then |es|
    else QuietStart(b, es[..|es| - 1])
  }

  function Successes(es: seq<Event>): nat {
    if es == [] then 0 else Successes(es[..|es| - 1]) + (if es[|es| - 1].Probed? then 1 else 0)
  }

  /** Event `i` kept a geoblock trip going and was no failed probe. */
  ghost predicate KeepsQuiet(b: Breaker, es: seq<Event>, i: nat)
    requires i < |es|
  {
    !es[i].ProbeFailed? && Run(b, es[..i + 1]).GeoTripped()
  }

  lemma {:induction false} StretchIsQuiet(b: Breaker, es: seq<Event>, i: nat)
    requires QuietStart(b, es) <= i < |es|
    ensures KeepsQuiet(b, es, i)
  {
    var n := |es| - 1;
    if i == n {
      assert es[..i + 1] == es;
    } else {
      StretchIsQuiet(b, es[..n], i);
      assert es[..n][..i + 1] == es[..i + 1];
    }
  }

  /** The streak is the number of successful probes in the current quiet stretch. */
  lemma {:induction false} StreakCountsTheStretch(b: Breaker, es: seq<Event>)
    requires !b.Tripped() && b.streak == 0
    ensures Run(b, es).streak == Successes(es[QuietStart(b, es)..])
    ensures !Run(b, es).GeoTripped() ==> Run(b, es).streak == 0
  {
    if es != [] {
      var n := |es| - 1;
      var k := QuietStart(b, es);
      StreakCountsTheStretch(b, es[..n]);
      if k <= n {
        assert es[k..][..n - k] == es[..n][k..];
        StreakStep(Run(b, es[..n]), es[n]);
      } else {
        assert es[k..] == [];
        StreakStep(Run(b, es[..n]), es[n]);
      }
    }
  }

  lemma StreakStep(b: Breaker, e: Event)
    requires !b.GeoTripped() ==> b.streak == 0
    ensures !Apply(b, e).GeoTripped() || e.ProbeFailed? ==> Apply(b, e).streak == 0
    ensures Apply(b, e).GeoTripped() && !e.ProbeFailed? ==> Apply(b, e).streak == b.streak + if e.Probed? then 1 else 0
  {
  }

  /** A geoblock clears exactly when the probes since the trip or the last failure reach the threshold. */
  lemma RecoveryIsExact(b: Breaker, es: seq<Event>, threshold: nat, now: real)
    requires !b.Tripped() && b.streak == 0 && Run(b, es).GeoTripped()
    ensures !Apply(Run(b, es), Probed(threshold, now)).Tripped()
            <==> Successes(es[QuietStart(b, es)..]) + 1 >= threshold
  {
    StreakCountsTheStretch(b, es);
  }

  /** Event `i` is no successful probe, or one that leaves the streak below the threshold. */
  predicate FallsShort(b: Breaker, es: seq<Event>, i: nat)
    requires i < |es|
  {
    es[i].Probed? ==> Run(b, es[..i]).streak + 1 < es[i].threshold
  }

  predicate StandsAt(b: Breaker, es: seq<Event>, i: nat)
    requires i <= |es|
  {
    Run(b, es[..i]).GeoTripped() && Run(b, es[..i]).trip == b.trip
  }

  lemma GeoblockStep(b: Breaker, e: Event)
    requires b.GeoTripped()
    ensures Apply(b, e).GeoTripped() <==> e.Probed? ==> b.streak + 1 < e.threshold
    ensures Apply(b, e).GeoTripped() ==> Apply(b, e).trip == b.trip
  {
  }

  lemma {:induction false} ShortProbesKeepIt(b: Breaker, es: seq<Event>, n: nat)
    requires b.GeoTripped() && n <= |es| && forall i :: 0 <= i < n ==> FallsShort(b, es, i)
    ensures StandsAt(b, es, n)
  {
    if n > 0 {
      ShortProbesKeepIt(b, es, n - 1);
      assert FallsShort(b, es, n - 1);
      assert es[..n][..n - 1] == es[..n - 1];
      GeoblockStep(Run(b, es[..n - 1]), es[n - 1]);
    }
  }

  /** A geoblock stands throughout a run exactly when every successful probe in it falls short of the threshold. */
  lemma GeoblockStandsExactly(b: Breaker, es: seq<Event>)
    requires b.GeoTripped()
    ensures (forall i :: 0 <= i <= |es| ==> StandsAt(b, es, i)) <==> forall i :: 0 <= i < |es| ==> FallsShort(b, es, i)
  {
    forall i | 0 <= i < |es| && StandsAt(b, es, i) && StandsAt(b, es, i + 1) ensures FallsShort(b, es, i) {
      assert es[..i + 1][..i] == es[..i];
      GeoblockStep(Run(b, es[..i]), es[i]);
    }
    if forall i :: 0 <= i < |es| ==> FallsShort(b, es, i) {
      forall n | 0 <= n <= |es| ensures StandsAt(b, es, n) { ShortProbesKeepIt(b, es, n); }
    } else {
      var i :| 0 <= i < |es| && !FallsShort(b, es, i);
      assert !StandsAt(b, es, i) || !StandsAt(b, es, i + 1);
    }
  }

  // ---------- Revert rate ----------

  datatype Outcome = Outcome(ts: real, reverted: bool)

  class RevertRateTracker {
    var window: seq<Outcome>
    const windowSize: nat
    const minFills: nat
    const threshold: real

    constructor (windowSize: nat, minFills: nat, threshold: real)
      ensures window == [] && this.windowSize == windowSize && this.minFills == minFills && this.threshold == threshold
    {
      window := [];
      this.windowSize, this.minFills, this.threshold := windowSize, minFills, threshold;
    }

    method Record(reverted: bool, ts: real)
      modifies this
      ensures window == Recorded(old(window), windowSize, Outcome(ts, reverted))
    {
      if |window| >= windowSize && window != [] {
        window := window[1..];
      }
      window := window + [Outcome(ts, reverted)];
    }

    method TripSignal() returns (signal: Option<(real, nat, nat)>)
      ensures window == [] && minFills == 0 ==> signal.None?
      ensures window != [] ==>
        (signal.Some? <==> |window| >= minFills && Reverts(window) as real / |window| as real >= threshold)
      ensures signal.Some? ==>
        window != []
        && signal.value
           == (Reverts(window) as real / |window| as real * 100.0, |window| - Reverts(window), Reverts(window))
    {
      if |window| < minFills || window == [] {
        return None;
      }
      var reverted := 0;
      for i := 0 to |window|
        invariant reverted == Reverts(window[..i])
      {
        assert window[..i + 1][..i] == window[..i];
        if window[i].reverted {
          reverted := reverted + 1;
        }
      }
      assert window[..|window|] == window;
      var rate := reverted as real / |window| as real;
      if rate >= threshold {
        return Some((rate * 100.0, |window| - reverted, reverted));
      }
      return None;
    }
  }

  function Reverts(w: seq<Outcome>): (n: nat)
    ensures n <= |w|
  {
    if w == [] then 0 else Reverts(w[..|w| - 1]) + (if w[|w| - 1].reverted then 1 else 0)
  }

  /** The outcomes of the window that were reverted. */
  function RevertedAt(w: seq<Outcome>): set<int> { set i | 0 <= i < |w| && w[i].reverted }

  lemma {:induction false} RevertsAreCounted(w: seq<Outcome>)
    ensures Reverts(w) == |RevertedAt(w)|
  {
    if w != [] {
      var n := |w| - 1;
      RevertsAreCounted(w[..n]);
      assert RevertedAt(w) == RevertedAt(w[..n]) + (if w[n].reverted then {n} else {});
    }
  }

  function Recorded(window: seq<Outcome>, size: nat, o: Outcome): seq<Outcome> {
    (if |window| >= size && window != [] then window[1..] else window) + [o]
  }

  function RecordAll(size: nat, os: seq<Outcome>): seq<Outcome> {
    if os == [] then [] else Recorded(RecordAll(size, os[..|os| - 1]), size, os[|os| - 1])
  }

  function Latest(os: seq<Outcome>, keep: nat): seq<Outcome> { if |os| <= keep then os else os[|os| - keep..] }

  lemma LatestStep(before: seq<Outcome>, o: Outcome, keep: nat)
    requires keep > 0
    ensures Latest(before + [o], keep)
         == (if |Latest(before, keep)| >= keep then Latest(before, keep)[1..] else Latest(before, keep)) + [o]
  {
  }

  /** The window is the most recent outcomes: as many as its size, and never fewer than one. */
  lemma {:induction false} WindowIsRecentHistory(size: nat, os: seq<Outcome>)
    ensures RecordAll(size, os) == Latest(os, if size == 0 then 1 else size)
  {
    if os != [] {
      var n := |os| - 1;
      WindowIsRecentHistory(size, os[..n]);
      assert os == os[..n] + [os[n]];
      LatestStep(os[..n], os[n], if size == 0 then 1 else size);
    }
  }
}
