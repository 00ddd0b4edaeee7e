/** Rounds of the worker with the source's own counters: when a deferred row is claimed again. */
module Rounds {
  import opened Basics
  import Quota
  import Queue
  import opened Passes
  import opened Reopening
  import Worker

  // ---- the lookups of a pass, at the source

  /** A lookup at the source: what the service would answer, and when. */
  datatype Ask = Ask(response: Quota.Response, t: Quota.Clock)

  /** The counters after some lookups. */
  function Counted(c: Quota.Counters, asks: seq<Ask>): Quota.Counters
    decreases |asks|
  {
    if asks == [] then c else Counted(Quota.Looked(c, asks[0].response, asks[0].t), asks[1..])
  }

  function Lookups(asks: seq<Ask>): seq<Event> {
    Map(asks, (a: Ask) => Lookup(a.response, a.t))
  }

  /** What a pass is told of its addresses is what the source makes of the answers, one after the other. */
  ghost predicate Serves(c: Quota.Counters, asks: seq<Ask>, p: Pass, s: Sources) {
    && |asks| == |p.threatAsked|
    && forall i :: 0 <= i < |asks| ==> Told(Counted(c, asks[..i]), asks[i]) == Kind(s.threat(p.threatAsked[i]))
  }

  function Told(c: Quota.Counters, a: Ask): Quota.Outcome {
    Quota.Told(c, a.response, a.t)
  }

  function Kind(o: ThreatOutcome): Quota.Outcome {
    match o
    case Found(_) => Quota.Found
    case NotFound => Quota.NotFound
    case QuotaExhausted => Quota.QuotaExhausted
    case Disabled => Quota.Disabled
  }

  /** Rows are deferred in a pass only if the source refused one of its lookups. */
  lemma {:induction false} RefusedIsTold(c: Quota.Counters, asks: seq<Ask>, p: Pass, s: Sources)
    requires Serves(c, asks, p, s)
    ensures Passes.Refused(s, p.threatAsked)
       <==> exists i :: 0 <= i < |asks| && Told(Counted(c, asks[..i]), asks[i]) == Quota.QuotaExhausted
  {
    forall i | 0 <= i < |asks|
      ensures Told(Counted(c, asks[..i]), asks[i]) == Quota.QuotaExhausted
         <==> s.threat(p.threatAsked[i]).QuotaExhausted?
    {}
    if ip :| ip in p.threatAsked && s.threat(ip).QuotaExhausted? {
      var i :| 0 <= i < |p.threatAsked| && p.threatAsked[i] == ip;
    }
  }

  /** So a pass runs out exactly if the source told so. */
  lemma {:induction false} SourceRunsOut(c: Quota.Counters, asks: seq<Ask>, p: Pass, s: Sources, cache: Cache,
                                         now: int)
    requires LookedUp(p, Remotes(p.claimed), ThreatRemotes(p.claimed), s, cache, now) && Serves(c, asks, p, s)
    ensures p.ranOut <==> exists i :: 0 <= i < |asks| && Told(Counted(c, asks[..i]), asks[i]) == Quota.QuotaExhausted
  {
    hide GeoOnce, ThreatOnce, LearnsEach, Serves, Passes.Refused, Told, Counted;
    RefusedIsTold(c, asks, p, s);
  }

  // ---- a round as a run of the joint system

  function Moves(steps: seq<Queue.Event>): seq<Event> {
    Map(steps, (e: Queue.Event) => Move(e))
  }

  /** The lookups come between the claim and the write-back. */
  function Mixed(steps: seq<Queue.Event>, asks: seq<Ask>): seq<Event> {
    if steps == [] then Lookups(asks) else [Move(steps[0])] + Lookups(asks) + Moves(steps[1..])
  }

  /** A round: the settings' key, the look at the quota, the claim, the lookups and the write-back. */
  function RoundRun(key: string, c: Worker.Conditions, p: Pass, asks: seq<Ask>): seq<Event> {
    [SetKey(key)] + [Check(c.reopens)] + Mixed(Worker.Steps(p, c.db), asks)
  }

  lemma {:induction false} RunsJoin(s: State, a: seq<Event>, b: seq<Event>, limit: nat)
    ensures ValidRun(s, a + b, limit) <==> ValidRun(s, a, limit) && ValidRun(After(s, a), b, limit)
    ensures After(s, a + b) == After(After(s, a), b)
    decreases |a|
  {
    if a == [] {
      assert a + b == b;
    } else {
      assert (a + b)[0] == a[0] && (a + b)[1..] == a[1..] + b;
      RunsJoin(Apply(s, a[0]), a[1..], b, limit);
    }
  }

  lemma {:induction false} OneEvent(s: State, e: Event, limit: nat)
    ensures ValidRun(s, [e], limit) <==> Enabled(s, e, limit)
    ensures After(s, [e]) == Apply(s, e)
  {
    assert [e][1..] == [];
    assert After(s, [e]) == After(Apply(s, e), []);
  }

  /** Lookups move the counters and nothing else, */
  lemma {:induction false} LookupsRun(s: State, asks: seq<Ask>, limit: nat)
    ensures ValidRun(s, Lookups(asks), limit)
    ensures After(s, Lookups(asks)) == s.(counters := Counted(s.counters, asks))
    decreases |asks|
  {
    if asks != [] {
      var e := Lookup(asks[0].response, asks[0].t);
      assert Lookups(asks) == [e] + Lookups(asks[1..]);
      RunsJoin(s, [e], Lookups(asks[1..]), limit);
      OneEvent(s, e, limit);
      LookupsRun(Apply(s, e), asks[1..], limit);
    }
  }

  /** moves the queue and nothing else. */
  lemma {:induction false} MovesRun(s: State, steps: seq<Queue.Event>, limit: nat)
    requires Queue.ValidRun(s.queue, steps, limit)
    requires forall i :: 0 <= i < |steps| ==> !steps[i].Reopen? && !steps[i].Restart?
    ensures ValidRun(s, Moves(steps), limit)
    ensures After(s, Moves(steps)) == s.(queue := Queue.After(s.queue, steps))
    decreases |steps|
  {
    if steps != [] {
      assert Moves(steps) == [Move(steps[0])] + Moves(steps[1..]);
      RunsJoin(s, [Move(steps[0])], Moves(steps[1..]), limit);
      OneEvent(s, Move(steps[0]), limit);
      MovesRun(Apply(s, Move(steps[0])), steps[1..], limit);
    }
  }

  lemma {:induction false} MixedRun(s: State, steps: seq<Queue.Event>, asks: seq<Ask>, limit: nat)
    requires Queue.ValidRun(s.queue, steps, limit)
    requires forall i :: 0 <= i < |steps| ==> !steps[i].Reopen? && !steps[i].Restart?
    ensures ValidRun(s, Mixed(steps, asks), limit)
    ensures After(s, Mixed(steps, asks)) == State(Counted(s.counters, asks), Queue.After(s.queue, steps))
  {
    if steps == [] {
      LookupsRun(s, asks, limit);
    } else {
      var first, rest := Move(steps[0]), Moves(steps[1..]);
      var t := Apply(s, first);
      OneEvent(s, first, limit);
      LookupsRun(t, asks, limit);
      MovesRun(t.(counters := Counted(s.counters, asks)), steps[1..], limit);
      RunsJoin(s, [first], Lookups(asks), limit);
      RunsJoin(s, [first] + Lookups(asks), rest, limit);
    }
  }

  lemma {:induction false} StepsAreMoves(p: Pass, db: Worker.Database)
    ensures var steps := Worker.Steps(p, db);
            forall i :: 0 <= i < |steps| ==> !steps[i].Reopen? && !steps[i].Restart?
  {}

  lemma {:induction false} KeyThenCheck(s: State, key: string, answers: bool, limit: nat)
    requires s.queue.batch == {}
    ensures var d := Quota.WithKey(s.counters, key);
            var steps := CheckSteps(Quota.Reported(d), s.queue.reopenedFor, answers);
            && ValidRun(s, [SetKey(key)] + [Check(answers)], limit)
            && After(s, [SetKey(key)] + [Check(answers)]) == State(d, Queue.After(s.queue, steps))
  {
    OneEvent(s, SetKey(key), limit);
    OneEvent(Apply(s, SetKey(key)), Check(answers), limit);
    RunsJoin(s, [SetKey(key)], [Check(answers)], limit);
  }

  /** A round of the worker whose report is that of its source is a run of the joint system: the queue ends
      as the worker leaves it, the counters as the lookups leave them. */
  lemma {:induction false} RoundIsJoint(s: State, key: string, c: Worker.Conditions, p: Pass, asks: seq<Ask>)
    requires s.queue.batch == {} && c.quota == Quota.Reported(Quota.WithKey(s.counters, key))
    requires Queue.ValidRun(s.queue, Worker.RoundSteps(c, s.queue.reopenedFor, p), BATCH_SIZE)
    ensures ValidRun(s, RoundRun(key, c, p, asks), BATCH_SIZE)
    ensures After(s, RoundRun(key, c, p, asks))
         == State(Counted(Quota.WithKey(s.counters, key), asks),
                  Queue.After(s.queue, Worker.RoundSteps(c, s.queue.reopenedFor, p)))
  {
    var checking, steps := CheckSteps(c.quota, s.queue.reopenedFor, c.reopens), Worker.Steps(p, c.db);
    Queue.RunSplits(s.queue, checking, steps, BATCH_SIZE);
    Queue.AfterAppend(s.queue, checking, steps);
    KeyThenCheck(s, key, c.reopens, BATCH_SIZE);
    StepsAreMoves(p, c.db);
    MixedRun(After(s, [SetKey(key)] + [Check(c.reopens)]), steps, asks, BATCH_SIZE);
    RunsJoin(s, [SetKey(key)] + [Check(c.reopens)], Mixed(steps, asks), BATCH_SIZE);
  }

  // ---- claimed again

  /** Of the pending rows, those that are newer than this one, and those that are not older. */
  function Newer(pending: set<Queue.Key>, k: Queue.Key): set<Queue.Key> {
    set o | o in pending && o.ts > k.ts
  }

  function NotOlder(pending: set<Queue.Key>, k: Queue.Key): set<Queue.Key> {
    set o | o in pending && o.ts >= k.ts
  }

  lemma {:induction false} SubsetSize(a: set<Queue.Key>, b: set<Queue.Key>)
    requires a <= b
    ensures |a| <= |b|
  {
    assert b == a + (b - a);
  }

  /** Which of the pending rows a claim takes, as far as rows of one instant leave it open. */
  lemma {:induction false} ClaimReaches(keys: set<Queue.Key>, pending: set<Queue.Key>, limit: nat, k: Queue.Key)
    requires Queue.Newest(keys, pending, limit) && k in pending
    ensures |NotOlder(pending, k)| <= limit ==> k in keys
    ensures |Newer(pending, k)| >= limit ==> k !in keys
  {
    if k in keys {
      SubsetSize(Newer(pending, k), keys - {k});
    } else if |keys| < limit {
      SubsetSize(keys + {k}, pending);
    } else {
      SubsetSize(keys + {k}, NotOlder(pending, k));
    }
  }

  /** The claim of a round finds the deferred rows among the pending ones if its report lets them in. */
  lemma {:induction false} ClaimInRound(s: State, key: string, c: Worker.Conditions, p: Pass, k: Queue.Key)
    requires Queue.Inv(s.queue) && s.queue.batch == {} && IsDeferred(s, k)
    requires c.quota == Quota.Reported(Quota.WithKey(s.counters, key))
    requires Queue.ValidRun(s.queue, Worker.RoundSteps(c, s.queue.reopenedFor, p), BATCH_SIZE)
    ensures var pending := Queue.Waiting(After(s, [SetKey(key)] + [Check(c.reopens)]).queue);
            && (k in pending <==> Reopens(c.quota, s.queue.reopenedFor) && c.reopens)
            && (c.db.claims ==> Queue.Newest(KeysOf(p.claimed), pending, BATCH_SIZE))
  {
    var checking, steps := CheckSteps(c.quota, s.queue.reopenedFor, c.reopens), Worker.Steps(p, c.db);
    Queue.RunSplits(s.queue, checking, steps, BATCH_SIZE);
    KeyThenCheck(s, key, c.reopens, BATCH_SIZE);
    var keyed := Apply(s, SetKey(key));
    OnlyAReportReopens(keyed, Check(c.reopens), BATCH_SIZE, k);
    if c.db.claims {
      assert steps[0] == Queue.Event.Claim(KeysOf(p.claimed));
    }
  }

  /** When a deferred row is claimed again: not in a round whose source has nothing to report; and in the
      next one exactly if the lookups of this one left the counters with quota in a new window, the
      database reopens, and the row is among the newest that wait then. */
  lemma {:induction false} WhenClaimedAgain(s: State, key: string, c: Worker.Conditions, p: Pass, asks: seq<Ask>,
                                            nextKey: string, next: Worker.Conditions, q: Pass, k: Queue.Key)
    requires Queue.Inv(s.queue) && s.queue.batch == {} && IsDeferred(s, k)
    requires c.quota == Quota.Reported(Quota.WithKey(s.counters, key)) && !Reopens(c.quota, s.queue.reopenedFor)
    requires Queue.ValidRun(s.queue, Worker.RoundSteps(c, s.queue.reopenedFor, p), BATCH_SIZE)
    requires var d := Quota.WithKey(Counted(Quota.WithKey(s.counters, key), asks), nextKey);
             var found := After(s, RoundRun(key, c, p, asks)).queue;
             && next.quota == Quota.Reported(d) && next.db.claims
             && Queue.ValidRun(found, Worker.RoundSteps(next, found.reopenedFor, q), BATCH_SIZE)
    ensures c.db.claims ==> k !in KeysOf(p.claimed)
    ensures var t := After(s, RoundRun(key, c, p, asks));
            var pending := Queue.Waiting(After(t, [SetKey(nextKey)] + [Check(next.reopens)]).queue);
            var reopens := Reopens(next.quota, s.queue.reopenedFor) && next.reopens;
            && IsDeferred(t, k) && t.queue.reopenedFor == s.queue.reopenedFor
            && (k in KeysOf(q.claimed) ==> reopens && |Newer(pending, k)| < BATCH_SIZE)
            && (reopens && |NotOlder(pending, k)| <= BATCH_SIZE ==> k in KeysOf(q.claimed))
  {
    RoundIsJoint(s, key, c, p, asks);
    DeferredStays(s, key, c, p, asks, k);
    var t := After(s, RoundRun(key, c, p, asks));
    ClaimInRound(s, key, c, p, k);
    ClaimInRound(t, nextKey, next, q, k);
    var pending := Queue.Waiting(After(t, [SetKey(nextKey)] + [Check(next.reopens)]).queue);
    if k in pending {
      ClaimReaches(KeysOf(q.claimed), pending, BATCH_SIZE, k);
    }
  }

  /** A round whose report lets nothing in leaves the row deferred and the window as it was. */
  lemma {:induction false} DeferredStays(s: State, key: string, c: Worker.Conditions, p: Pass, asks: seq<Ask>,
                                         k: Queue.Key)
    requires Queue.Inv(s.queue) && s.queue.batch == {} && IsDeferred(s, k)
    requires c.quota == Quota.Reported(Quota.WithKey(s.counters, key)) && !Reopens(c.quota, s.queue.reopenedFor)
    requires Queue.ValidRun(s.queue, Worker.RoundSteps(c, s.queue.reopenedFor, p), BATCH_SIZE)
    ensures var t := After(s, RoundRun(key, c, p, asks));
            && IsDeferred(t, k) && t.queue.reopenedFor == s.queue.reopenedFor
            && Queue.Inv(t.queue) && t.queue.batch == {}
  {
    RoundIsJoint(s, key, c, p, asks);
    var steps := Worker.Steps(p, c.db);
    assert CheckSteps(c.quota, s.queue.reopenedFor, c.reopens) == [];
    assert Worker.RoundSteps(c, s.queue.reopenedFor, p) == [] + steps == steps;
    PassKeepsDeferred(s.queue, p, c.db, k);
  }

  lemma {:induction false} PassKeepsDeferred(s: Queue.State, p: Pass, db: Worker.Database, k: Queue.Key)
    requires Queue.Inv(s) && s.batch == {} && k in s.status && s.status[k] == Queue.Deferred
    requires Queue.ValidRun(s, Worker.Steps(p, db), BATCH_SIZE)
    ensures var t := Queue.After(s, Worker.Steps(p, db));
            && k in t.status && t.status[k] == Queue.Deferred && t.reopenedFor == s.reopenedFor
            && Queue.Inv(t) && t.batch == {}
  {
    var steps := Worker.Steps(p, db);
    Queue.RunKeepsInv(s, steps, BATCH_SIZE);
    if db.claims {
      var claim := Queue.Event.Claim(KeysOf(p.claimed));
      assert steps[0] == claim;
      assert k !in Queue.Waiting(s);
      Worker.StepsTaken(s, p, db, BATCH_SIZE);
    }
  }

  // ---- over any run

  /** Event `i` is an answered look at a quota that lets the deferred rows in. */
  predicate ReopensAt(s: State, run: seq<Event>, i: nat)
    requires i < |run|
  {
    var t := After(s, run[..i]);
    run[i] == Check(true) && Reopens(Quota.Reported(t.counters), t.queue.reopenedFor)
  }

  lemma {:induction false} ReopensLater(s: State, run: seq<Event>, i: nat)
    requires 0 < i < |run| && ReopensAt(Apply(s, run[0]), run[1..], i - 1)
    ensures ReopensAt(s, run, i)
  {
    assert run[1..][..i - 1] == run[..i][1..];
    assert run[..i][0] == run[0];
    assert After(s, run[..i]) == After(Apply(s, run[0]), run[..i][1..]);
  }

  lemma {:induction false} NotClaimedYet(s: State, e: Event, limit: nat, k: Queue.Key)
    requires Enabled(s, e, limit) && IsDeferred(s, k)
    ensures !(e.Move? && e.step.Claim? && k in e.step.keys)
  {
    assert k !in Queue.Waiting(s.queue);
  }

  /** Over any run of the joint system, a deferred row is claimed again only after such a look. */
  lemma {:induction false} ClaimedOnlyAfterReport(s: State, run: seq<Event>, limit: nat, n: nat, k: Queue.Key)
    requires Queue.Inv(s.queue) && ValidRun(s, run, limit) && IsDeferred(s, k)
    requires n < |run| && run[n].Move? && run[n].step.Claim? && k in run[n].step.keys
    ensures exists i :: 0 <= i < n && ReopensAt(s, run, i)
    decreases |run|
  {
    OnlyAReportReopens(s, run[0], limit, k);
    NotClaimedYet(s, run[0], limit, k);
    if run[0] == Check(true) && Reopens(Quota.Reported(s.counters), s.queue.reopenedFor) {
      assert run[..0] == [];
      assert ReopensAt(s, run, 0);
    } else {
      StepKeepsInv(s, run[0], limit);
      ClaimedOnlyAfterReport(Apply(s, run[0]), run[1..], limit, n - 1, k);
      var i :| 0 <= i < n - 1 && ReopensAt(Apply(s, run[0]), run[1..], i);
      ReopensLater(s, run, i + 1);
    }
  }
}
