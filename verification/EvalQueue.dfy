/** The evaluation queue: two priorities, each a list with a membership set. */
module EvalQueue {

  datatype QueueEntry = QueueEntry(id: string, asset: string, queuedAt: real, originTs: real)

  datatype Drained = Drained(id: string, urgent: bool, queuedAt: real, originTs: real)

  datatype Queue = Queue(urgent: seq<QueueEntry>, background: seq<QueueEntry>, urgentSet: set<string>,
    bgSet: set<string>)
  {
    function Push(e: QueueEntry, isUrgent: bool): Queue {
      if isUrgent then
        this.(urgent := if e.id in urgentSet then urgent else urgent + [e],
              urgentSet := urgentSet + {e.id}, bgSet := bgSet - {e.id})
      else if e.id in urgentSet || e.id in bgSet then this
      else this.(background := background + [e], bgSet := bgSet + {e.id})
    }

    function UrgentTake(max: nat): nat { if |urgent| < max then |urgent| else max }

    function BackgroundTake(max: nat): nat {
      var room := max - UrgentTake(max);
      if |background| < room then |background| else room
    }

    /** What a drain hands out: urgent entries first, each list in arrival order. */
    function Handed(max: nat): seq<Drained> {
      Mark(urgent[..UrgentTake(max)], true) + Mark(background[..BackgroundTake(max)], false)
    }

    function Drain(max: nat): Queue {
      var u, b := UrgentTake(max), BackgroundTake(max);
      Queue(urgent[u..], background[b..], urgentSet - Ids(urgent[..u]), bgSet - Ids(background[..b]))
    }

    predicate Pending(id: string) { id in urgentSet || id in bgSet }
  }

  function Mark(es: seq<QueueEntry>, isUrgent: bool): (r: seq<Drained>)
    ensures |r| == |es|
  {
    seq(|es|, i requires 0 <= i < |es| => Drained(es[i].id, isUrgent, es[i].queuedAt, es[i].originTs))
  }

  function Ids(es: seq<QueueEntry>): set<string> { set e | e in es :: e.id }

  const Empty := Queue([], [], {}, {})

  class EvalQueue {
    var urgent: seq<QueueEntry>
    var background: seq<QueueEntry>
    var urgentSet: set<string>
    var bgSet: set<string>

    function View(): Queue
      reads this
    {
      Queue(urgent, background, urgentSet, bgSet)
    }

    constructor ()
      ensures View() == Empty
    {
      urgent, background, urgentSet, bgSet := [], [], {}, {};
    }

    method Push(e: QueueEntry, isUrgent: bool)
      modifies this
      ensures View() == old(View()).Push(e, isUrgent)
    {
      if isUrgent {
        if e.id !in urgentSet {
          urgentSet := urgentSet + {e.id};
          urgent := urgent + [e];
        }
        bgSet := bgSet - {e.id};
      } else if e.id !in urgentSet {
        if e.id !in bgSet {
          bgSet := bgSet + {e.id};
          background := background + [e];
        }
      }
    }

    method Drain(max: nat) returns (results: seq<Drained>)
      modifies this
      ensures View() == old(View()).Drain(max)
      ensures results == old(View()).Handed(max)
    {
      var take := if |urgent| < max then |urgent| else max;
      var entries := urgent[..take];
      urgent := urgent[take..];
      results := [];
      for i := 0 to |entries|
        invariant results == Mark(entries[..i], true)
        invariant urgentSet == old(urgentSet) - Ids(entries[..i])
        invariant urgent == old(urgent)[take..] && background == old(background) && bgSet == old(bgSet)
      {
        assert entries[..i + 1] == entries[..i] + [entries[i]];
        urgentSet := urgentSet - {entries[i].id};
        results := results + [Drained(entries[i].id, true, entries[i].queuedAt, entries[i].originTs)];
      }
      assert entries[..|entries|] == entries;
      var room := max - |results|;
      if room > 0 {
        results := DrainBackground(room, results);
      }
    }

    method DrainBackground(room: nat, sofar: seq<Drained>) returns (results: seq<Drained>)
      modifies this`background, this`bgSet
      ensures var b := if |old(background)| < room then |old(background)| else room;
        && background == old(background)[b..] && bgSet == old(bgSet) - Ids(old(background)[..b])
        && results == sofar + Mark(old(background)[..b], false)
    {
      results := sofar;
      var take := if |background| < room then |background| else room;
      var entries := background[..take];
      background := background[take..];
      for i := 0 to |entries|
        invariant results == sofar + Mark(entries[..i], false)
        invariant bgSet == old(bgSet) - Ids(entries[..i]) && background == old(background)[take..]
      {
        assert entries[..i + 1] == entries[..i] + [entries[i]];
        bgSet := bgSet - {entries[i].id};
        results := results + [Drained(entries[i].id, false, entries[i].queuedAt, entries[i].originTs)];
      }
      assert entries[..|entries|] == entries;
    }
  }

  // ---------- What every run keeps ----------

  ghost predicate DistinctIds(es: seq<QueueEntry>) { forall i, j :: 0 <= i < j < |es| ==> es[i].id != es[j].id }

  /** Urgent ids are distinct and equal their set; background ids cover theirs, which is disjoint from it. */
  ghost predicate Valid(q: Queue) {
    && DistinctIds(q.urgent) && Ids(q.urgent) == q.urgentSet
    && q.urgentSet !! q.bgSet && q.bgSet <= Ids(q.background)
  }

  lemma PushKeepsValid(q: Queue, e: QueueEntry, isUrgent: bool)
    requires Valid(q)
    ensures Valid(q.Push(e, isUrgent)) && q.Push(e, isUrgent).Pending(e.id)
    ensures forall id :: q.Pending(id) ==> q.Push(e, isUrgent).Pending(id)
  {
  }

  lemma SplitIds(es: seq<QueueEntry>, k: nat)
    requires k <= |es|
    ensures Ids(es) == Ids(es[..k]) + Ids(es[k..])
    ensures DistinctIds(es) ==> Ids(es[..k]) !! Ids(es[k..])
  {
  }

  predicate HandedOut(r: seq<Drained>, id: string) { exists i :: 0 <= i < |r| && r[i].id == id }

  lemma MarkedIds(es: seq<QueueEntry>, isUrgent: bool, id: string)
    ensures HandedOut(Mark(es, isUrgent), id) <==> id in Ids(es)
  {
    if id in Ids(es) {
      var e :| e in es && e.id == id;
      var i :| 0 <= i < |es| && es[i] == e;
      assert Mark(es, isUrgent)[i].id == id;
    }
  }

  /** A drain keeps the queue valid, hands out as much as asked for if there is as much, and loses nothing. */
  lemma DrainKeepsValid(q: Queue, max: nat)
    requires Valid(q)
    ensures Valid(q.Drain(max))
    ensures |q.Handed(max)| == if |q.urgent| + |q.background| < max then |q.urgent| + |q.background| else max
    ensures forall id :: q.Pending(id) ==> q.Drain(max).Pending(id) || HandedOut(q.Handed(max), id)
    ensures forall id :: q.Drain(max).Pending(id) ==> q.Pending(id)
  {
    var u, b := q.UrgentTake(max), q.BackgroundTake(max);
    SplitIds(q.urgent, u);
    SplitIds(q.background, b);
    var r := q.Handed(max);
    forall id | q.Pending(id) ensures q.Drain(max).Pending(id) || HandedOut(r, id) {
      MarkedIds(q.urgent[..u], true, id);
      MarkedIds(q.background[..b], false, id);
      if HandedOut(Mark(q.urgent[..u], true), id) {
        var i :| 0 <= i < u && Mark(q.urgent[..u], true)[i].id == id;
        assert r[i].id == id;
      } else if HandedOut(Mark(q.background[..b], false), id) {
        var i :| 0 <= i < b && Mark(q.background[..b], false)[i].id == id;
        assert r[u + i].id == id;
      }
    }
  }

  // ---------- Whole runs ----------

  datatype Step = PushStep(e: QueueEntry, isUrgent: bool) | DrainStep(max: nat)

  function Apply(q: Queue, s: Step): Queue {
    match s
    case PushStep(e, isUrgent) => q.Push(e, isUrgent)
    case DrainStep(max) => q.Drain(max)
  }

  function Run(q: Queue, steps: seq<Step>): Queue {
    if steps == [] then q else Apply(Run(q, steps[..|steps| - 1]), steps[|steps| - 1])
  }

  /** Some drain of the run handed the constraint out. */
  ghost predicate HandedOutDuring(q: Queue, steps: seq<Step>, id: string) {
    exists k :: 0 <= k < |steps| && steps[k].DrainStep? && HandedOut(Run(q, steps[..k]).Handed(steps[k].max), id)
  }

  lemma {:induction false} EveryRunIsValid(q: Queue, steps: seq<Step>)
    requires Valid(q)
    ensures Valid(Run(q, steps))
  {
    if steps != [] {
      var mid := Run(q, steps[..|steps| - 1]);
      EveryRunIsValid(q, steps[..|steps| - 1]);
      match steps[|steps| - 1] {
        case PushStep(e, isUrgent) => PushKeepsValid(mid, e, isUrgent);
        case DrainStep(max) => DrainKeepsValid(mid, max);
      }
    }
  }

  /** Work that is pending stays pending until some drain hands it out. */
  lemma {:induction false} NoWorkIsLost(q: Queue, steps: seq<Step>, id: string)
    requires Valid(q) && q.Pending(id)
    ensures Run(q, steps).Pending(id) || HandedOutDuring(q, steps, id)
  {
    if steps != [] {
      var n := |steps| - 1;
      var mid := Run(q, steps[..n]);
      EveryRunIsValid(q, steps[..n]);
      NoWorkIsLost(q, steps[..n], id);
      if HandedOutDuring(q, steps[..n], id) {
        var k :| 0 <= k < n && steps[k].DrainStep? && HandedOut(Run(q, steps[..n][..k]).Handed(steps[k].max), id);
        assert steps[..n][..k] == steps[..k];
      } else {
        match steps[n] {
          case PushStep(e, isUrgent) => PushKeepsValid(mid, e, isUrgent);
          case DrainStep(max) => DrainKeepsValid(mid, max);
        }
      }
    }
  }

  /** What was pushed at some point is pending at the end, or was handed out in between. */
  lemma PushedWorkIsServed(q: Queue, e: QueueEntry, isUrgent: bool, steps: seq<Step>)
    requires Valid(q)
    ensures Run(q.Push(e, isUrgent), steps).Pending(e.id) || HandedOutDuring(q.Push(e, isUrgent), steps, e.id)
  {
    PushKeepsValid(q, e, isUrgent);
    NoWorkIsLost(q.Push(e, isUrgent), steps, e.id);
  }

  function DrainedBy(q: Queue, steps: seq<Step>): seq<Drained> {
    if steps == [] then [] else
      DrainedBy(q, steps[..|steps| - 1])
      + (if steps[|steps| - 1].DrainStep? then Run(q, steps[..|steps| - 1]).Handed(steps[|steps| - 1].max) else [])
  }

  function UrgentIds(ds: seq<Drained>): seq<string> {
    if ds == [] then [] else UrgentIds(ds[..|ds| - 1]) + (if ds[|ds| - 1].urgent then [ds[|ds| - 1].id] else [])
  }

  function EntryIds(es: seq<QueueEntry>): (r: seq<string>)
    ensures |r| == |es|
  {
    seq(|es|, i requires 0 <= i < |es| => es[i].id)
  }

  /** The ids a run queues as urgent, in arrival order: those not already waiting when pushed. */
  function Admitted(q: Queue, steps: seq<Step>): seq<string> {
    if steps == [] then [] else
      var s := steps[|steps| - 1];
      Admitted(q, steps[..|steps| - 1])
      + (if s.PushStep? && s.isUrgent && s.e.id !in Run(q, steps[..|steps| - 1]).urgentSet then [s.e.id] else [])
  }

  lemma {:induction false} UrgentIdsAppend(a: seq<Drained>, b: seq<Drained>)
    ensures UrgentIds(a + b) == UrgentIds(a) + UrgentIds(b)
  {
    if b == [] {
      assert a + b == a;
    } else {
      assert (a + b)[..|a + b| - 1] == a + b[..|b| - 1];
      UrgentIdsAppend(a, b[..|b| - 1]);
    }
  }

  lemma {:induction false} UrgentIdsOfMark(es: seq<QueueEntry>, isUrgent: bool)
    ensures UrgentIds(Mark(es, isUrgent)) == if isUrgent then EntryIds(es) else []
  {
    if es != [] {
      var n := |es| - 1;
      UrgentIdsOfMark(es[..n], isUrgent);
      assert Mark(es, isUrgent)[..n] == Mark(es[..n], isUrgent);
      assert EntryIds(es) == EntryIds(es[..n]) + [es[n].id];
    }
  }

  lemma UrgentIdsOfBoth(a: seq<QueueEntry>, b: seq<QueueEntry>)
    ensures UrgentIds(Mark(a, true) + Mark(b, false)) == EntryIds(a)
  {
    UrgentIdsAppend(Mark(a, true), Mark(b, false));
    UrgentIdsOfMark(a, true);
    UrgentIdsOfMark(b, false);
  }

  lemma EntryIdsSplit(es: seq<QueueEntry>, k: nat)
    requires k <= |es|
    ensures EntryIds(es) == EntryIds(es[..k]) + EntryIds(es[k..])
  {
  }

  lemma DrainTakesUrgentPrefix(q: Queue, max: nat)
    ensures UrgentIds(q.Handed(max)) + EntryIds(q.Drain(max).urgent) == EntryIds(q.urgent)
  {
    var u, b := q.UrgentTake(max), q.BackgroundTake(max);
    UrgentIdsOfBoth(q.urgent[..u], q.background[..b]);
    EntryIdsSplit(q.urgent, u);
  }

  /** Urgent work is first in, first out over whole runs: what was handed out, then what waits, is what was admitted. */
  lemma {:induction false} UrgentIsFifo(steps: seq<Step>)
    ensures UrgentIds(DrainedBy(Empty, steps)) + EntryIds(Run(Empty, steps).urgent) == Admitted(Empty, steps)
  {
    if steps != [] {
      var n := |steps| - 1;
      var mid := Run(Empty, steps[..n]);
      UrgentIsFifo(steps[..n]);
      match steps[n] {
        case PushStep(e, isUrgent) =>
          assert DrainedBy(Empty, steps) == DrainedBy(Empty, steps[..n]);
          if isUrgent && e.id !in mid.urgentSet {
            assert EntryIds(mid.urgent + [e]) == EntryIds(mid.urgent) + [e.id];
          }
        case DrainStep(max) =>
          UrgentIdsAppend(DrainedBy(Empty, steps[..n]), mid.Handed(max));
          DrainTakesUrgentPrefix(mid, max);
          assert Admitted(Empty, steps) == Admitted(Empty, steps[..n]);
      }
    }
  }

  // ---------- Background order ----------

  function BackgroundIds(ds: seq<Drained>): seq<string> {
    if ds == [] then [] else BackgroundIds(ds[..|ds| - 1]) + (if ds[|ds| - 1].urgent then [] else [ds[|ds| - 1].id])
  }

  /** What one step queues in the background, as an id or nothing. */
  function AdmittedNow(q: Queue, s: Step): seq<string> {
    if s.PushStep? && !s.isUrgent && !q.Pending(s.e.id) then [s.e.id] else []
  }

  /** The ids a run queues in the background, in arrival order: those not pending when pushed. */
  function AdmittedBackground(q: Queue, steps: seq<Step>): seq<string> {
    if steps == [] then [] else
      var s := steps[|steps| - 1];
      AdmittedBackground(q, steps[..|steps| - 1]) + AdmittedNow(Run(q, steps[..|steps| - 1]), s)
  }

  lemma {:induction false} BackgroundIdsAppend(a: seq<Drained>, b: seq<Drained>)
    ensures BackgroundIds(a + b) == BackgroundIds(a) + BackgroundIds(b)
  {
    if b == [] {
      assert a + b == a;
    } else {
      assert (a + b)[..|a + b| - 1] == a + b[..|b| - 1];
      BackgroundIdsAppend(a, b[..|b| - 1]);
    }
  }

  lemma {:induction false} BackgroundIdsOfMark(es: seq<QueueEntry>, isUrgent: bool)
    ensures BackgroundIds(Mark(es, isUrgent)) == if isUrgent then [] else EntryIds(es)
  {
    if es != [] {
      var n := |es| - 1;
      BackgroundIdsOfMark(es[..n], isUrgent);
      assert Mark(es, isUrgent)[..n] == Mark(es[..n], isUrgent);
      assert EntryIds(es) == EntryIds(es[..n]) + [es[n].id];
    }
  }

  lemma BackgroundIdsOfBoth(a: seq<QueueEntry>, b: seq<QueueEntry>)
    ensures BackgroundIds(Mark(a, true) + Mark(b, false)) == EntryIds(b)
  {
    BackgroundIdsAppend(Mark(a, true), Mark(b, false));
    BackgroundIdsOfMark(a, true);
    BackgroundIdsOfMark(b, false);
    assert [] + EntryIds(b) == EntryIds(b);
  }

  lemma DrainTakesBackgroundPrefix(q: Queue, max: nat)
    ensures BackgroundIds(q.Handed(max)) + EntryIds(q.Drain(max).background) == EntryIds(q.background)
  {
    var u, b := q.UrgentTake(max), q.BackgroundTake(max);
    BackgroundIdsOfBoth(q.urgent[..u], q.background[..b]);
    EntryIdsSplit(q.background, b);
  }

  lemma PushQueuesBackground(q: Queue, e: QueueEntry, isUrgent: bool)
    ensures EntryIds(q.Push(e, isUrgent).background) == EntryIds(q.background) + AdmittedNow(q, PushStep(e, isUrgent))
  {
    assert EntryIds(q.background + [e]) == EntryIds(q.background) + [e.id];
    assert EntryIds(q.background) + [] == EntryIds(q.background);
  }

  /** Background work is first in, first out over whole runs too, entries of promoted ids included. */
  lemma {:induction false} BackgroundIsFifo(steps: seq<Step>)
    ensures BackgroundIds(DrainedBy(Empty, steps)) + EntryIds(Run(Empty, steps).background)
         == AdmittedBackground(Empty, steps)
  {
    if steps != [] {
      var n := |steps| - 1;
      var mid := Run(Empty, steps[..n]);
      var handed := DrainedBy(Empty, steps[..n]);
      BackgroundIsFifo(steps[..n]);
      match steps[n] {
        case PushStep(e, isUrgent) =>
          PushQueuesBackground(mid, e, isUrgent);
          assert handed + [] == handed;
        case DrainStep(max) =>
          BackgroundIdsAppend(handed, mid.Handed(max));
          DrainTakesBackgroundPrefix(mid, max);
      }
    }
  }

  /** Everything handed out is a queued entry of its list, with its times. */
  lemma HandedEntries(q: Queue, max: nat, d: Drained)
    requires d in q.Handed(max)
    ensures exists e :: e in (if d.urgent then q.urgent else q.background)
                        && e.id == d.id && e.queuedAt == d.queuedAt && e.originTs == d.originTs
  {
    var u, b := q.urgent[..q.UrgentTake(max)], q.background[..q.BackgroundTake(max)];
    if d in Mark(u, true) {
      var i :| 0 <= i < |u| && Mark(u, true)[i] == d;
      assert u[i] in q.urgent;
    } else {
      var i :| 0 <= i < |b| && Mark(b, false)[i] == d;
      assert b[i] in q.background;
    }
  }

  // ---------- When background ids repeat ----------

  /** A push repeats a background id exactly when it queues there one whose promoted entry still waits. */
  predicate Readmits(q: Queue, s: Step) {
    s.PushStep? && !s.isUrgent && !q.Pending(s.e.id) && s.e.id in Ids(q.background)
  }

  lemma PushKeepsDistinctExactly(q: Queue, e: QueueEntry, isUrgent: bool)
    requires Valid(q) && DistinctIds(q.background)
    ensures DistinctIds(q.Push(e, isUrgent).background) <==> isUrgent || q.Pending(e.id) || e.id !in Ids(q.background)
  {
    if !isUrgent && !q.Pending(e.id) {
      var after := q.background + [e];
      if e.id in Ids(q.background) {
        var i :| 0 <= i < |q.background| && q.background[i].id == e.id;
        assert after[i].id == after[|q.background|].id;
      }
    }
  }

  /** A drain never makes background ids repeat; it hands out a prefix of the list. */
  lemma DrainKeepsDistinct(q: Queue, max: nat)
    requires DistinctIds(q.background)
    ensures DistinctIds(q.Drain(max).background)
  {
  }

  lemma StepKeepsDistinctExactly(q: Queue, s: Step)
    requires Valid(q) && DistinctIds(q.background)
    ensures DistinctIds(Apply(q, s).background) <==> !Readmits(q, s)
  {
    match s {
      case PushStep(e, isUrgent) => PushKeepsDistinctExactly(q, e, isUrgent);
      case DrainStep(max) => DrainKeepsDistinct(q, max);
    }
  }

  ghost predicate AlwaysDistinct(q: Queue, steps: seq<Step>) {
    forall k :: 0 <= k <= |steps| ==> DistinctIds(Run(q, steps[..k]).background)
  }

  ghost predicate NeverReadmits(q: Queue, steps: seq<Step>) {
    forall k :: 0 <= k < |steps| ==> !Readmits(Run(q, steps[..k]), steps[k])
  }

  lemma StepOfRun(q: Queue, steps: seq<Step>, k: nat)
    requires Valid(q) && k < |steps|
    ensures Run(q, steps[..k + 1]) == Apply(Run(q, steps[..k]), steps[k]) && Valid(Run(q, steps[..k]))
  {
    assert steps[..k + 1][..k] == steps[..k];
    EveryRunIsValid(q, steps[..k]);
  }

  lemma {:induction false} DistinctUpTo(q: Queue, steps: seq<Step>, k: nat)
    requires Valid(q) && DistinctIds(q.background) && NeverReadmits(q, steps) && k <= |steps|
    ensures DistinctIds(Run(q, steps[..k]).background)
  {
    if k > 0 {
      DistinctUpTo(q, steps, k - 1);
      StepOfRun(q, steps, k - 1);
      StepKeepsDistinctExactly(Run(q, steps[..k - 1]), steps[k - 1]);
    }
  }

  /** Over runs, background ids stay distinct exactly when no push re-admits an id that still waits there. */
  lemma DistinctExactlyWithoutReadmission(q: Queue, steps: seq<Step>)
    requires Valid(q) && DistinctIds(q.background)
    ensures AlwaysDistinct(q, steps) <==> NeverReadmits(q, steps)
  {
    if NeverReadmits(q, steps) {
      forall k | 0 <= k <= |steps| ensures DistinctIds(Run(q, steps[..k]).background) {
        DistinctUpTo(q, steps, k);
      }
    }
    if AlwaysDistinct(q, steps) {
      forall k | 0 <= k < |steps| ensures !Readmits(Run(q, steps[..k]), steps[k]) {
        StepOfRun(q, steps, k);
        StepKeepsDistinctExactly(Run(q, steps[..k]), steps[k]);
      }
    }
  }

  /** A background entry survives promotion, so the background list can repeat an id. */
  lemma BackgroundCanRepeat(e: QueueEntry)
    ensures Empty.Push(e, false).Push(e, true).Drain(1).Push(e, false).background == [e, e]
  {
    var promoted := Empty.Push(e, false).Push(e, true);
    assert promoted == Queue([e], [e], {e.id}, {});
    assert Ids([e]) == {e.id};
    assert promoted.Drain(1) == Queue([], [e], {}, {});
  }
}
