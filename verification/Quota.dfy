/** The threat source and its quota: what it remembers of the answers' headers, and when it asks. */
module Quota {
  import opened Basics

  datatype Counters = Counters(apiKey: string, remaining: int, limit: int, resetAt: int, pausedUntil: int)

  /** The answer to a request: the headers as far as they were there, and whether the body held data. */
  datatype Response =
    | Failed
    | Answer(status: int, remaining: Option<int>, limit: Option<int>, reset: Option<int>,
             retryAfter: Option<int>, data: bool)

  datatype Outcome = Found | NotFound | QuotaExhausted | Disabled

  const TOO_MANY := 429

  /** When a lookup decides, when its answer arrives, and the midnight (UTC) after that. */
  datatype Clock = Clock(asked: int, answered: int, midnight: int)

  predicate Sensible(t: Clock) {
    0 < t.asked <= t.answered < t.midnight
  }

  function New(key: string): Counters {
    Counters(key, -1, -1, 0, 0)
  }

  /** The later of the two times counts. */
  function Until(c: Counters): int {
    Max(c.resetAt, c.pausedUntil)
  }

  function Cleared(c: Counters, now: int): Counters {
    if Until(c) != 0 && Until(c) <= now then c.(remaining := -1, resetAt := 0, pausedUntil := 0) else c
  }

  function WithKey(c: Counters, key: string): Counters {
    if c.apiKey == key then c else New(key)
  }

  function Asks(c: Counters, now: int): bool {
    var d := Cleared(c, now);
    c.apiKey != "" && !(d.pausedUntil > now) && d.remaining != 0
  }

  /** When a refused lookup may be repeated: the reset time, or the retry delay, or an hour. */
  function RetryAt(r: Response, t: Clock): int
    requires r.Answer?
  {
    if r.reset.Some? then r.reset.value
    else if r.retryAfter.Some? then t.answered + r.retryAfter.value
    else t.answered + 3600
  }

  /** What an answer leaves in the counters. */
  function Answered(c: Counters, r: Response, t: Clock): Counters
    requires r.Answer?
  {
    var remaining := r.remaining.GetOr(c.remaining);
    var reported := r.reset.GetOr(c.resetAt);
    var reset := if remaining == 0 && reported == 0 then t.midnight else reported;
    var d := c.(remaining := remaining, limit := r.limit.GetOr(c.limit), resetAt := reset);
    if r.status == TOO_MANY then d.(resetAt := RetryAt(r, t), pausedUntil := RetryAt(r, t)) else d
  }

  function OutcomeOf(r: Response): Outcome {
    if r.Failed? then NotFound
    else if r.status == TOO_MANY then QuotaExhausted
    else if 200 <= r.status < 300 && r.data then Found
    else NotFound
  }

  /** One lookup: the counters afterwards. */
  function Looked(c: Counters, r: Response, t: Clock): Counters {
    if c.apiKey == "" then c
    else
      var d := Cleared(c, t.asked);
      if Asks(c, t.asked) && r.Answer? then Answered(d, r, t) else d
  }

  /** What the caller is told. */
  function Told(c: Counters, r: Response, t: Clock): Outcome {
    if c.apiKey == "" then Disabled else if Asks(c, t.asked) then OutcomeOf(r) else QuotaExhausted
  }

  // ---- what it reports

  datatype Report = Report(remaining: int, limit: int, resetAt: int, pausedUntil: int)

  /** Nothing to report without a key, nor before any answer told of a quota. */
  function Reported(c: Counters): Option<Report> {
    if c.apiKey == "" || c.remaining < 0 then None
    else Some(Report(c.remaining, c.limit, c.resetAt, c.pausedUntil))
  }

  /** A zero is reported, an unknown count is not. */
  lemma {:induction false} ReportedIs(c: Counters)
    ensures Reported(c).Some? <==> c.apiKey != "" && c.remaining >= 0
    ensures Reported(c).Some? ==> Reported(c).value == Report(c.remaining, c.limit, c.resetAt, c.pausedUntil)
  {}

  /** What the caller is told: nothing was found unless the answer is a success with data in it, a refusal
      is the end of the quota, and so is a lookup that was not sent. */
  lemma {:induction false} ToldIs(c: Counters, r: Response, t: Clock)
    ensures Told(c, r, t) == Disabled <==> c.apiKey == ""
    ensures Told(c, r, t) == QuotaExhausted <==>
              c.apiKey != "" && (!Asks(c, t.asked) || (r.Answer? && r.status == 429))
    ensures Told(c, r, t) == Found <==> Asks(c, t.asked) && r.Answer? && 200 <= r.status < 300 && r.data
  {}

  // ---- the source itself

  class AbuseIpDb {
    var apiKey: string
    var remaining: int
    var limit: int
    var resetAt: int
    var pausedUntil: int

    ghost function Now(): Counters
      reads this
    {
      Counters(apiKey, remaining, limit, resetAt, pausedUntil)
    }

    constructor (key: string)
      ensures Now() == New(key)
    {
      apiKey, remaining, limit, resetAt, pausedUntil := key, -1, -1, 0, 0;
    }

    method SetApiKey(key: string)
      modifies this
      ensures Now() == WithKey(old(Now()), key)
    {
      if apiKey == key {
        return;
      }
      apiKey := key;
      remaining := -1;
      limit := -1;
      resetAt := 0;
      pausedUntil := 0;
    }

    method ClearAfterReset(now: int)
      modifies this
      ensures Now() == Cleared(old(Now()), now)
    {
      var until := Max(resetAt, pausedUntil);
      if until != 0 && until <= now {
        remaining := -1;
        resetAt := 0;
        pausedUntil := 0;
      }
    }

    method GetQuota() returns (q: Option<Report>)
      ensures q == Reported(Now())
    {
      if apiKey == "" || remaining < 0 {
        return None;
      }
      return Some(Report(remaining, limit, resetAt, pausedUntil));
    }

    /** `response` is what the service would answer; `sent` says whether it was asked at all. */
    method Lookup(response: Response, t: Clock) returns (outcome: Outcome, sent: bool)
      modifies this
      ensures Now() == Looked(old(Now()), response, t)
      ensures sent == Asks(old(Now()), t.asked)
      ensures outcome == Told(old(Now()), response, t)
    {
      if apiKey == "" {
        return Disabled, false;
      }
      ClearAfterReset(t.asked);
      if pausedUntil > t.asked || remaining == 0 {
        return QuotaExhausted, false;
      }
      sent := true;
      if response.Failed? {
        return NotFound, sent;
      }
      if response.remaining.Some? {
        remaining := response.remaining.value;
      }
      if response.limit.Some? {
        limit := response.limit.value;
      }
      if response.reset.Some? {
        resetAt := response.reset.value;
      }
      if remaining == 0 && resetAt == 0 {
        resetAt := t.midnight;
      }
      if response.status == TOO_MANY {
        var reset :=
          if response.reset.Some? then response.reset.value
          else if response.retryAfter.Some? then t.answered + response.retryAfter.value
          else t.answered + 3600;
        resetAt := reset;
        pausedUntil := reset;
        return QuotaExhausted, sent;
      }
      if !(200 <= response.status < 300) || !response.data {
        return NotFound, sent;
      }
      return Found, sent;
    }
  }

  // ---- it never asks when it must not, and always asks when it may

  /** An empty quota that no time will ever refill. */
  predicate LockedUp(c: Counters) {
    c.apiKey != "" && c.remaining == 0 && Until(c) == 0
  }

  /** Exactly when a request goes out. */
  lemma {:induction false} WhenItAsks(c: Counters, now: int)
    requires now > 0
    ensures Asks(c, now) ==> c.pausedUntil <= now && (c.remaining == 0 ==> c.resetAt <= now)
    ensures c.apiKey != "" && c.pausedUntil <= now && c.resetAt <= now ==> (Asks(c, now) <==> !LockedUp(c))
  {}

  /** A locked-up source stays so, whatever happens but a new key. */
  lemma {:induction false} LockedUpIsForGood(c: Counters, r: Response, t: Clock)
    requires LockedUp(c)
    ensures !Asks(c, t.asked) && Looked(c, r, t) == c
  {}

  /** The answers that lock the source up: an empty quota, its reset given as the zero instant with
      a 429, or as an instant before that with anything else while no pause is on record. */
  predicate Locks(c: Counters, r: Response, t: Clock) {
    var d := Cleared(c, t.asked);
    && Asks(c, t.asked) && r.Answer? && r.remaining == Some(0)
    && if r.status == TOO_MANY then RetryAt(r, t) == 0
       else r.reset.GetOr(d.resetAt) < 0 && d.pausedUntil == 0
  }

  lemma {:induction false} ExactlyTheseAnswersLock(c: Counters, r: Response, t: Clock)
    requires Sensible(t) && !LockedUp(c)
    ensures LockedUp(Looked(c, r, t)) <==> Locks(c, r, t)
  {}

  /** One such answer: refused, nothing left, reset at zero. No later lookup ever asks again. */
  lemma {:induction false} ZeroResetLocksUp(t: Clock, later: int)
    requires Sensible(t)
    ensures var c := Looked(New("key"), Answer(TOO_MANY, Some(0), None, Some(0), None, false), t);
            LockedUp(c) && !Asks(c, later)
  {}

  // ---- every run

  datatype Event = SetKey(key: string) | Lookup(response: Response, t: Clock)

  function Apply(c: Counters, e: Event): Counters {
    match e
    case SetKey(key) => WithKey(c, key)
    case Lookup(r, t) => Looked(c, r, t)
  }

  function After(c: Counters, run: seq<Event>): Counters
    decreases |run|
  {
    if run == [] then c else After(Apply(c, run[0]), run[1..])
  }

  /** Reset times, where reported, lie after the epoch. */
  predicate SaneEvent(e: Event) {
    e.Lookup? ==>
      && Sensible(e.t)
      && (e.response.Answer? && e.response.reset.Some? ==> e.response.reset.value > 0)
      && (e.response.Answer? && e.response.retryAfter.Some? ==> e.t.answered + e.response.retryAfter.value > 0)
  }

  predicate Sane(run: seq<Event>) {
    forall i :: 0 <= i < |run| ==> SaneEvent(run[i])
  }

  /** An empty quota always has a time at which it ends. */
  predicate Healthy(c: Counters) {
    c.resetAt >= 0 && c.pausedUntil >= 0 && (c.remaining == 0 ==> Until(c) > 0)
  }

  lemma {:induction false} RunsStayHealthy(c: Counters, run: seq<Event>)
    requires Healthy(c) && Sane(run)
    ensures Healthy(After(c, run))
    decreases |run|
  {
    if run != [] {
      assert SaneEvent(run[0]);
      forall i | 0 <= i < |run[1..]| ensures SaneEvent(run[1..][i]) {
        assert run[1..][i] == run[i + 1];
      }
      RunsStayHealthy(Apply(c, run[0]), run[1..]);
    }
  }

  /** In every state a run of sane answers and key changes can reach, a lookup with a key asks as
      soon as both times have passed: the source never locks up. */
  lemma {:induction false} NeverLocksUp(key: string, run: seq<Event>, now: int)
    requires Sane(run) && now > 0
    ensures var c := After(New(key), run);
            && (c.remaining == 0 ==> c.resetAt != 0 || c.pausedUntil != 0)
            && (c.apiKey != "" && c.resetAt <= now && c.pausedUntil <= now ==> Asks(c, now))
  {
    RunsStayHealthy(New(key), run);
    WhenItAsks(After(New(key), run), now);
  }

  lemma {:induction false} AfterOneMore(c: Counters, run: seq<Event>, e: Event)
    ensures After(c, run + [e]) == Apply(After(c, run), e)
    decreases |run|
  {
    if run == [] {
      assert [] + [e] == [e] && [e][1..] == [];
      assert After(c, [e]) == After(Apply(c, e), []);
    } else {
      assert (run + [e])[0] == run[0] && (run + [e])[1..] == run[1..] + [e];
      AfterOneMore(Apply(c, run[0]), run[1..], e);
    }
  }

  predicate SensibleEvent(e: Event) {
    e.Lookup? ==> Sensible(e.t)
  }

  predicate SensibleRun(run: seq<Event>) {
    forall i :: 0 <= i < |run| ==> SensibleEvent(run[i])
  }

  /** Event `i` is a lookup whose answer locks the source up as it then is. */
  predicate LocksAt(c: Counters, run: seq<Event>, i: nat)
    requires i < |run|
  {
    run[i].Lookup? && Locks(After(c, run[..i]), run[i].response, run[i].t)
  }

  predicate ChangesKeyAt(c: Counters, run: seq<Event>, i: nat)
    requires i < |run|
  {
    run[i].SetKey? && run[i].key != After(c, run[..i]).apiKey
  }

  /** Event `i` locks the source up, and no later one sets another key. */
  predicate LocksForGood(c: Counters, run: seq<Event>, i: nat)
    requires i < |run|
  {
    LocksAt(c, run, i) && forall j :: i < j < |run| ==> !ChangesKeyAt(c, run, j)
  }

  lemma {:induction false} OneMoreEvent(c: Counters, front: seq<Event>, e: Event, i: nat)
    requires i <= |front|
    ensures var run := front + [e];
            && (i < |front| ==>
                  (LocksForGood(c, run, i) <==> LocksForGood(c, front, i) && !ChangesKeyAt(c, run, |front|)))
            && (i == |front| ==>
                  (LocksForGood(c, run, i) <==> e.Lookup? && Locks(After(c, front), e.response, e.t)))
            && (ChangesKeyAt(c, run, |front|) <==> e.SetKey? && e.key != After(c, front).apiKey)
  {
    hide After, Locks;
    var run := front + [e];
    assert run[..|front|] == front;
    forall j | 0 <= j < |front| ensures run[..j] == front[..j] && run[j] == front[j] {}
    assert forall j :: 0 <= j < |front| ==> (ChangesKeyAt(c, run, j) <==> ChangesKeyAt(c, front, j));
  }

  /** What one more event does to a source: a locked one is freed by another key alone, another one locked
      by such an answer alone. */
  lemma {:induction false} EventLocks(d: Counters, e: Event)
    requires SensibleEvent(e)
    ensures LockedUp(Apply(d, e)) <==>
              if LockedUp(d) then !(e.SetKey? && e.key != d.apiKey)
              else e.Lookup? && Locks(d, e.response, e.t)
  {
    match e
    case SetKey(key) =>
    case Lookup(r, t) =>
      if LockedUp(d) {
        LockedUpIsForGood(d, r, t);
      } else {
        ExactlyTheseAnswersLock(d, r, t);
      }
  }

  /** Over every run of sensible lookups and key changes: the source ends locked up exactly if some answer
      in it locked it up and no other key was set after that. */
  lemma {:induction false} ExactlyTheseRunsLock(c: Counters, run: seq<Event>)
    requires SensibleRun(run) && !LockedUp(c)
    ensures LockedUp(After(c, run)) <==> exists i :: 0 <= i < |run| && LocksForGood(c, run, i)
    decreases |run|
  {
    if run == [] {
      assert After(c, run) == c;
    } else {
      var n := |run| - 1;
      var front, e := run[..n], run[n];
      assert run == front + [e];
      assert SensibleEvent(run[n]);
      forall i | 0 <= i < n ensures SensibleEvent(front[i]) {
        assert SensibleEvent(run[i]);
      }
      ExactlyTheseRunsLock(c, front);
      AfterOneMore(c, front, e);
      EventLocks(After(c, front), e);
      LastEventDecides(c, front, e);
    }
  }

  lemma {:induction false} LastEventDecides(c: Counters, front: seq<Event>, e: Event)
    ensures var run := front + [e];
            var before := exists i :: 0 <= i < |front| && LocksForGood(c, front, i);
            (exists i :: 0 <= i < |run| && LocksForGood(c, run, i)) <==>
              || (before && !(e.SetKey? && e.key != After(c, front).apiKey))
              || (e.Lookup? && Locks(After(c, front), e.response, e.t))
  {
    hide LocksForGood, ChangesKeyAt, Locks, After;
    forall i | 0 <= i <= |front| {
      OneMoreEvent(c, front, e, i);
    }
    OneMoreEvent(c, front, e, |front|);
  }

  /** No lookup of the run asks. */
  predicate Silent(c: Counters, run: seq<Event>)
    decreases |run|
  {
    run == [] || ((run[0].Lookup? ==> !Asks(c, run[0].t.asked)) && Silent(Apply(c, run[0]), run[1..]))
  }

  /** After a refusal that names a time, nothing is asked before that time, however often a lookup
      is tried, as long as the key stays. */
  lemma {:induction false} PauseIsKept(c: Counters, run: seq<Event>)
    requires forall i :: 0 <= i < |run| ==>
               if run[i].Lookup? then run[i].t.asked < c.pausedUntil else run[i].key == c.apiKey
    ensures Silent(c, run) && After(c, run) == c
    decreases |run|
  {
    if run != [] {
      forall i | 0 <= i < |run[1..]|
        ensures if run[1..][i].Lookup? then run[1..][i].t.asked < c.pausedUntil else run[1..][i].key == c.apiKey
      {
        assert run[1..][i] == run[i + 1];
      }
      PauseIsKept(c, run[1..]);
    }
  }

  /** What an answer to a lookup leaves behind, number by number: the counts it names, or what was known
      before unless that had run out; the times likewise, except that a refusal sets both to its reset time,
      or else the answer's arrival and the delay it names, or else an hour; and an empty count without a
      time waits for midnight. */
  lemma {:induction false} AnswerIsRecorded(c: Counters, r: Response, t: Clock)
    requires Asks(c, t.asked) && r.Answer?
    ensures var later := if c.resetAt > c.pausedUntil then c.resetAt else c.pausedUntil;
            var over := later != 0 && later <= t.asked;
            var was := if over then Counters(c.apiKey, -1, c.limit, 0, 0) else c;
            var after := Looked(c, r, t);
            && after.apiKey == c.apiKey
            && after.remaining == (if r.remaining.Some? then r.remaining.value else was.remaining)
            && after.limit == (if r.limit.Some? then r.limit.value else was.limit)
            && (r.status == 429 ==>
                  && after.resetAt == after.pausedUntil
                  && after.pausedUntil
                     == if r.reset.Some? then r.reset.value
                        else if r.retryAfter.Some? then t.answered + r.retryAfter.value else t.answered + 3600)
            && (r.status != 429 ==>
                  && after.pausedUntil == was.pausedUntil
                  && var named := if r.reset.Some? then r.reset.value else was.resetAt;
                     after.resetAt == if after.remaining == 0 && named == 0 then t.midnight else named)
  {}

  /** Without a request, or without an answer to it, only times that are over are forgotten. */
  lemma {:induction false} UnansweredIsUnchanged(c: Counters, r: Response, t: Clock)
    requires !Asks(c, t.asked) || r.Failed?
    ensures var after := Looked(c, r, t);
            after == c || after == Counters(c.apiKey, -1, c.limit, 0, 0)
    ensures c.resetAt > t.asked || c.pausedUntil > t.asked ==> Looked(c, r, t) == c
  {}

  /** The refusal itself sets that time, and a new key forgets it. */
  lemma {:induction false} RefusalPauses(c: Counters, r: Response, t: Clock, key: string)
    requires Asks(c, t.asked) && r.Answer? && r.status == TOO_MANY && key != c.apiKey && key != ""
    ensures Looked(c, r, t).pausedUntil == RetryAt(r, t)
    ensures forall now :: now > 0 ==> Asks(WithKey(Looked(c, r, t), key), now)
  {}
}

/** The daily allowance for asking again about addresses already rated. */
module Refresh {
  import opened Basics

  datatype Budget = Budget(day: int, used: nat, perDay: nat)

  function OnDay(b: Budget, today: int): Budget {
    if b.day == today then b else b.(day := today, used := 0)
  }

  function Grants(b: Budget, today: int): bool {
    OnDay(b, today).used < b.perDay
  }

  function Taken(b: Budget, today: int): Budget {
    var d := OnDay(b, today);
    if Grants(b, today) then d.(used := d.used + 1) else d
  }

  class RefreshBudget {
    var day: int
    var used: nat
    var perDay: nat

    ghost function Now(): Budget
      reads this
    {
      Budget(day, used, perDay)
    }

    constructor ()
      ensures Now() == Budget(0, 0, 200)
    {
      day, used, perDay := 0, 0, 200;
    }

    method SetPerDay(n: nat)
      modifies this
      ensures Now() == old(Now()).(perDay := n)
    {
      perDay := n;
    }

    method Take(today: int) returns (granted: bool)
      modifies this
      ensures granted == Grants(old(Now()), today)
      ensures Now() == Taken(old(Now()), today)
    {
      var before := day;
      day := today;
      if before != today {
        used := 0;
      }
      if perDay == 0 || used >= perDay {
        return false;
      }
      used := used + 1;
      return true;
    }
  }

  function AfterDays(b: Budget, days: seq<int>): Budget
    decreases |days|
  {
    if days == [] then b else AfterDays(Taken(b, days[0]), days[1..])
  }

  /** How many of the requests, made on these days, are granted. */
  function Granted(b: Budget, days: seq<int>): nat
    decreases |days|
  {
    if days == [] then 0 else (if Grants(b, days[0]) then 1 else 0) + Granted(Taken(b, days[0]), days[1..])
  }

  predicate AllOn(days: seq<int>, today: int) {
    forall i :: 0 <= i < |days| ==> days[i] == today
  }

  /** What is left of the day's allowance; nothing, if it was lowered below what was used. */
  function Left(b: Budget, today: int): nat {
    if OnDay(b, today).used < b.perDay then b.perDay - OnDay(b, today).used else 0
  }

  /** The allowance after so many requests on one day. */
  function Spent(b: Budget, today: int, requests: nat): Budget {
    if requests == 0 then b
    else OnDay(b, today).(used := OnDay(b, today).used + Min(requests, Left(b, today)))
  }

  /** The next request is granted as long as some of the allowance is left. */
  lemma {:induction false} OneTakeMore(b: Budget, today: int, requests: nat)
    ensures Grants(Spent(b, today, requests), today) <==> requests < Left(b, today)
    ensures Taken(Spent(b, today, requests), today) == Spent(b, today, requests + 1)
  {}

  /** On one day exactly what is left of the allowance is granted, however often it is asked for. */
  lemma {:induction false} OneDayGrantsWhatIsLeft(b: Budget, today: int, days: seq<int>)
    requires AllOn(days, today)
    ensures Granted(b, days) == Min(|days|, Left(b, today))
    decreases |days|
  {
    if days != [] {
      assert days[0] == today;
      forall i | 0 <= i < |days[1..]| ensures days[1..][i] == today {
        assert days[1..][i] == days[i + 1];
      }
      OneDayGrantsWhatIsLeft(Taken(b, today), today, days[1..]);
    }
  }

  lemma {:induction false} AfterDaysIsLastDay(b: Budget, days: seq<int>)
    requires days != []
    ensures AfterDays(b, days).day == days[|days| - 1] && AfterDays(b, days).perDay == b.perDay
    decreases |days|
  {
    if |days| > 1 {
      AfterDaysIsLastDay(Taken(b, days[0]), days[1..]);
    } else {
      assert AfterDays(b, days) == Taken(b, days[0]);
    }
  }

  /** The allowance returns with every new day, and with no other. */
  lemma {:induction false} NewDayNewAllowance(b: Budget, before: seq<int>, today: int, days: seq<int>)
    requires before != [] && before[|before| - 1] != today && AllOn(days, today)
    ensures Granted(AfterDays(b, before), days) == Min(|days|, b.perDay)
  {
    AfterDaysIsLastDay(b, before);
    OneDayGrantsWhatIsLeft(AfterDays(b, before), today, days);
  }
}
