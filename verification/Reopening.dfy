/** Quota and queue together: when deferred rows come back. */
module Reopening {
  import opened Basics
  import Quota
  import Queue

  /** A quota left, and a window the deferred rows were not yet reopened for. */
  predicate Reopens(q: Option<Quota.Report>, reopenedFor: int) {
    q.Some? && q.value.remaining > 0 && q.value.resetAt != 0 && q.value.resetAt != reopenedFor
  }

  /** What the look at the quota before a pass does to the queue; `answers`, whether the database does. */
  function CheckSteps(q: Option<Quota.Report>, reopenedFor: int, answers: bool): seq<Queue.Event> {
    if Reopens(q, reopenedFor) && answers then [Queue.Reopen(q.value.resetAt)] else []
  }

  datatype State = State(counters: Quota.Counters, queue: Queue.State)

  /** A worker's step: the settings' key is applied, the quota looked at, an address looked up; a row
      comes in or moves through a pass; the process starts anew, and with it the counters. */
  datatype Event =
    | SetKey(key: string)
    | Check(answers: bool)
    | Lookup(response: Quota.Response, t: Quota.Clock)
    | Move(step: Queue.Event)
    | Restart(releases: bool, key: string)

  predicate Enabled(s: State, e: Event, limit: nat) {
    match e
    case Move(step) => !step.Reopen? && !step.Restart? && Queue.Enabled(s.queue, step, limit)
    case Check(_) => s.queue.batch == {}
    case _ => true
  }

  function Apply(s: State, e: Event): State {
    match e
    case SetKey(key) => s.(counters := Quota.WithKey(s.counters, key))
    case Check(answers) =>
      s.(queue := Queue.After(s.queue, CheckSteps(Quota.Reported(s.counters), s.queue.reopenedFor, answers)))
    case Lookup(r, t) => s.(counters := Quota.Looked(s.counters, r, t))
    case Move(step) => s.(queue := Queue.Apply(s.queue, step))
    case Restart(releases, key) => State(Quota.New(key), Queue.Apply(s.queue, Queue.Event.Restart(releases)))
  }

  function After(s: State, run: seq<Event>): State
    decreases |run|
  {
    if run == [] then s else After(Apply(s, run[0]), run[1..])
  }

  predicate ValidRun(s: State, run: seq<Event>, limit: nat)
    decreases |run|
  {
    run == [] || (Enabled(s, run[0], limit) && ValidRun(Apply(s, run[0]), run[1..], limit))
  }

  lemma {:induction false} CheckReopens(s: State, answers: bool)
    ensures Apply(s, Check(answers)).queue
            == if Reopens(Quota.Reported(s.counters), s.queue.reopenedFor) && answers
               then Queue.Apply(s.queue, Queue.Reopen(s.counters.resetAt)) else s.queue
  {
    var steps := CheckSteps(Quota.Reported(s.counters), s.queue.reopenedFor, answers);
    if steps != [] {
      assert steps[1..] == [];
      assert Queue.After(s.queue, steps) == Queue.After(Queue.Apply(s.queue, steps[0]), []);
    }
  }

  lemma {:induction false} StepKeepsInv(s: State, e: Event, limit: nat)
    requires Queue.Inv(s.queue) && Enabled(s, e, limit)
    ensures Queue.Inv(Apply(s, e).queue) && s.queue.status.Keys <= Apply(s, e).queue.status.Keys
  {
    match e
    case Move(step) => Queue.StepKeepsInv(s.queue, step, limit);
    case Check(answers) =>
      CheckReopens(s, answers);
      if Reopens(Quota.Reported(s.counters), s.queue.reopenedFor) && answers {
        Queue.StepKeepsInv(s.queue, Queue.Reopen(s.counters.resetAt), limit);
      }
    case Restart(releases, _) => Queue.StepKeepsInv(s.queue, Queue.Event.Restart(releases), limit);
    case _ =>
  }

  // ---- exactly when a deferred row returns

  predicate IsDeferred(s: State, k: Queue.Key) {
    k in s.queue.status && s.queue.status[k] == Queue.Deferred
  }

  /** A deferred row leaves its state in one kind of step only, and then it waits again. */
  lemma {:induction false} OnlyAReportReopens(s: State, e: Event, limit: nat, k: Queue.Key)
    requires Queue.Inv(s.queue) && Enabled(s, e, limit) && IsDeferred(s, k)
    ensures k in Apply(s, e).queue.status
    ensures Apply(s, e).queue.status[k]
            == if e.Check? && e.answers && Reopens(Quota.Reported(s.counters), s.queue.reopenedFor)
               then Queue.Pending else Queue.Deferred
  {
    if e.Check? {
      CheckReopens(s, e.answers);
    }
    if e.Move? && e.step.Claim? {
      assert k !in Queue.Waiting(s.queue);
    }
  }

  /** An answer that tells of quota left. */
  predicate TellsOfQuota(e: Event) {
    e.Lookup? && e.response.Answer? && e.response.remaining.Some? && e.response.remaining.value > 0
  }

  predicate NoneTells(run: seq<Event>) {
    forall i :: 0 <= i < |run| ==> !TellsOfQuota(run[i])
  }

  /** An exhausted quota, or one unknown after its reset, stays so until an answer tells of more; and
      until then no deferred row comes back, however many windows begin and passes run. */
  lemma {:induction false} DeferredUntilTold(s: State, run: seq<Event>, limit: nat, k: Queue.Key)
    requires Queue.Inv(s.queue) && ValidRun(s, run, limit) && NoneTells(run)
    requires s.counters.remaining <= 0 && IsDeferred(s, k)
    ensures After(s, run).counters.remaining <= 0 && IsDeferred(After(s, run), k)
    decreases |run|
  {
    if run != [] {
      assert !TellsOfQuota(run[0]);
      forall i | 0 <= i < |run[1..]| ensures !TellsOfQuota(run[1..][i]) {
        assert run[1..][i] == run[i + 1];
      }
      StepKeepsInv(s, run[0], limit);
      OnlyAReportReopens(s, run[0], limit, k);
      DeferredUntilTold(Apply(s, run[0]), run[1..], limit, k);
    }
  }

  predicate NoLookups(run: seq<Event>) {
    forall i :: 0 <= i < |run| ==> !run[i].Lookup?
  }

  /** Only lookups learn of a new window: without one, what the quota does not allow now it never will,
      and the deferred rows wait for traffic that has nothing to do with them. */
  lemma {:induction false} DeferredWaitForTraffic(s: State, run: seq<Event>, limit: nat, k: Queue.Key)
    requires Queue.Inv(s.queue) && ValidRun(s, run, limit) && NoLookups(run)
    requires !Reopens(Quota.Reported(s.counters), s.queue.reopenedFor) && IsDeferred(s, k)
    ensures IsDeferred(After(s, run), k)
    ensures !Reopens(Quota.Reported(After(s, run).counters), After(s, run).queue.reopenedFor)
    decreases |run|
  {
    if run != [] {
      assert !run[0].Lookup?;
      forall i | 0 <= i < |run[1..]| ensures !run[1..][i].Lookup? {
        assert run[1..][i] == run[i + 1];
      }
      StepKeepsInv(s, run[0], limit);
      OnlyAReportReopens(s, run[0], limit, k);
      if run[0].Check? {
        CheckReopens(s, run[0].answers);
      }
      DeferredWaitForTraffic(Apply(s, run[0]), run[1..], limit, k);
    }
  }

  /** The window an answer speaks of: the pause, if it refuses; else what it reports, or what was known. */
  function WindowOf(c: Quota.Counters, r: Quota.Response, t: Quota.Clock): int
    requires r.Answer?
  {
    if r.status == Quota.TOO_MANY then Quota.RetryAt(r, t)
    else r.reset.GetOr(Quota.Cleared(c, t.asked).resetAt)
  }

  /** With an exhausted or unknown quota, exactly which answer to a lookup brings the deferred rows back:
      one that tells of quota left, in a window that is known and new. Counting on from a reset, when
      all times are cleared, the answer itself must name that window. */
  lemma {:induction false} ExactlyTheseAnswersReopen(s: State, r: Quota.Response, t: Quota.Clock, limit: nat,
                                                     k: Queue.Key)
    requires Queue.Inv(s.queue) && s.queue.batch == {} && IsDeferred(s, k)
    requires s.counters.remaining <= 0 && Quota.Asks(s.counters, t.asked)
    ensures var after := After(s, [Lookup(r, t), Check(true)]);
            && ValidRun(s, [Lookup(r, t), Check(true)], limit)
            && k in after.queue.status
            && (after.queue.status[k] == Queue.Pending <==>
                  && TellsOfQuota(Lookup(r, t))
                  && WindowOf(s.counters, r, t) != 0 && WindowOf(s.counters, r, t) != s.queue.reopenedFor)
            && (IsDeferred(after, k) <==> after.queue.status[k] != Queue.Pending)
  {
    var run, told := [Lookup(r, t), Check(true)], Apply(s, Lookup(r, t));
    assert run[1..] == [Check(true)] && run[1..][1..] == [];
    assert After(s, run) == After(told, [Check(true)]) == After(Apply(told, Check(true)), []);
    assert ValidRun(told, [Check(true)], limit);
    OnlyAReportReopens(told, Check(true), limit, k);
  }

  /** Once the reset time has passed with the quota used up, the next lookup asks; an answer that tells
      of quota but names no window leaves the deferred rows where they are. */
  lemma {:induction false} AfterTheReset(s: State, r: Quota.Response, t: Quota.Clock, limit: nat, k: Queue.Key)
    requires Queue.Inv(s.queue) && s.queue.batch == {} && IsDeferred(s, k)
    requires s.counters.apiKey != "" && s.counters.remaining == 0
    requires Quota.Until(s.counters) != 0 && Quota.Until(s.counters) <= t.asked && t.asked > 0
    requires r.Answer? && TellsOfQuota(Lookup(r, t)) && r.status != Quota.TOO_MANY
    ensures Quota.Asks(s.counters, t.asked)
    ensures var after := After(s, [Lookup(r, t), Check(true)]);
            && k in after.queue.status
            && (after.queue.status[k] == Queue.Pending <==>
                  r.reset.Some? && r.reset.value != 0 && r.reset.value != s.queue.reopenedFor)
  {
    ExactlyTheseAnswersReopen(s, r, t, limit, k);
  }

  // ---- runs that lead there

  /** A 429 with nothing left until the end of the first day. */
  const REFUSAL := Lookup(Quota.Answer(Quota.TOO_MANY, Some(0), None, Some(86_400), None, false),
                          Quota.Clock(1, 1, 86_400))

  /** A blocked row comes in, is claimed, its lookup is refused and it is put back. */
  function Refused(k: Queue.Key): seq<Event> {
    [Move(Queue.Insert(k)), Move(Queue.Claim({k})), REFUSAL, Move(Queue.WriteBack({k}))]
  }

  lemma {:induction false} FourSteps(s: State, a: Event, b: Event, c: Event, d: Event, limit: nat)
    requires Enabled(s, a, limit) && Enabled(Apply(s, a), b, limit)
    requires var t := Apply(Apply(s, a), b); Enabled(t, c, limit) && Enabled(Apply(t, c), d, limit)
    ensures ValidRun(s, [a, b, c, d], limit)
    ensures After(s, [a, b, c, d]) == Apply(Apply(Apply(Apply(s, a), b), c), d)
  {
    hide Enabled, Apply;
    var t := Apply(Apply(s, a), b);
    assert [a, b, c, d][1..] == [b, c, d] && [b, c, d][1..] == [c, d] && [c, d][1..] == [d] && [d][1..] == [];
    assert After(Apply(t, c), [d]) == After(Apply(Apply(t, c), d), []);
    assert After(t, [c, d]) == After(Apply(t, c), [d]);
    assert ValidRun(Apply(Apply(t, c), d), [], limit);
    assert ValidRun(Apply(t, c), [d], limit);
    assert ValidRun(t, [c, d], limit);
    assert ValidRun(Apply(s, a), [b, c, d], limit);
    assert After(Apply(s, a), [b, c, d]) == After(t, [c, d]);
  }

  /** Such a run ends with the row deferred, nothing left of the quota, and nothing to reopen it. */
  lemma {:induction false} RowsGetDeferred(k: Queue.Key, limit: nat)
    requires limit > 0
    ensures var start := State(Quota.New("key"), Queue.EMPTY);
            var end := After(start, Refused(k));
            && ValidRun(start, Refused(k), limit)
            && Queue.Inv(end.queue) && end.queue.batch == {} && IsDeferred(end, k)
            && end.counters.remaining == 0 && end.counters.apiKey == "key"
            && !Reopens(Quota.Reported(end.counters), end.queue.reopenedFor)
  {
    var s0 := State(Quota.New("key"), Queue.EMPTY);
    var s1 := Apply(s0, Move(Queue.Insert(k)));
    assert Queue.Waiting(s1.queue) == {k};
    var s2 := Apply(s1, Move(Queue.Claim({k})));
    assert s2.queue.batch == {k};
    var s3 := Apply(s2, REFUSAL);
    FourSteps(s0, Move(Queue.Insert(k)), Move(Queue.Claim({k})), REFUSAL, Move(Queue.WriteBack({k})), limit);
    StepKeepsInv(s0, Move(Queue.Insert(k)), limit);
    StepKeepsInv(s1, Move(Queue.Claim({k})), limit);
    StepKeepsInv(s3, Move(Queue.WriteBack({k})), limit);
  }
}
