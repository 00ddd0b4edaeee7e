/** The enrichment queue as a step system: rows wait, are claimed, and end done or deferred. */
module Queue {
  import opened Basics

  /** `enrich_status`: 0, 1, 3 and 4. */
  datatype Status = Pending | Done | InProgress | Deferred

  /** A log row's key; the rows of one instant differ by id. */
  datatype Key = Key(ts: int, id: int)

  /** A row's history: how often it was claimed, found deferred by a reopening, and found in
      progress by a restart. */
  datatype Tally = Tally(claims: nat, reopened: nat, released: nat)

  /** `batch` is what the running pass has claimed, `reopenedFor` the quota window the deferred rows
      were last reopened for; both live in the process, the statuses in the database. */
  datatype State = State(status: map<Key, Status>, tally: map<Key, Tally>, batch: set<Key>, reopenedFor: int)

  datatype Event =
    | Insert(key: Key)
    | Claim(keys: set<Key>)
    | WriteBack(deferred: set<Key>)
    | WriteBackFails
    | Reopen(resetAt: int)
    | Restart(releases: bool)

  const EMPTY := State(map[], map[], {}, 0)

  function With(s: State, want: Status): set<Key> {
    set k | k in s.status && s.status[k] == want
  }

  function Waiting(s: State): set<Key> {
    With(s, Pending)
  }

  /** `ORDER BY timestamp DESC LIMIT n` over the pending rows; rows of one instant in any order. */
  predicate Newest(keys: set<Key>, pending: set<Key>, limit: nat) {
    && keys <= pending
    && |keys| == Min(limit, |pending|)
    && forall k, o :: k in keys && o in pending - keys ==> o.ts <= k.ts
  }

  predicate Enabled(s: State, e: Event, limit: nat) {
    match e
    case Insert(k) => k !in s.status
    case Claim(keys) => s.batch == {} && Newest(keys, Waiting(s), limit)
    case WriteBack(deferred) => s.batch != {} && deferred <= s.batch
    case WriteBackFails => s.batch != {}
    case Reopen(resetAt) => s.batch == {} && resetAt != 0 && resetAt != s.reopenedFor
    case Restart(_) => true
  }

  function Apply(s: State, e: Event): State {
    match e
    case Insert(k) => s.(status := s.status[k := Pending], tally := s.tally[k := Tally(0, 0, 0)])
    case Claim(keys) =>
      s.(status := map k | k in s.status :: if k in keys then InProgress else s.status[k],
         tally := map k | k in s.tally ::
           if k in keys then s.tally[k].(claims := s.tally[k].claims + 1) else s.tally[k],
         batch := keys)
    case WriteBack(deferred) =>
      s.(status := map k | k in s.status ::
           if k !in s.batch then s.status[k] else if k in deferred then Deferred else Done,
         batch := {})
    case WriteBackFails => s.(batch := {})
    case Reopen(resetAt) =>
      var found := With(s, Deferred);
      s.(status := map k | k in s.status :: if k in found then Pending else s.status[k],
         tally := map k | k in s.tally ::
           if k in found then s.tally[k].(reopened := s.tally[k].reopened + 1) else s.tally[k],
         reopenedFor := resetAt)
    case Restart(releases) =>
      var found := if releases then With(s, InProgress) else {};
      s.(status := map k | k in s.status :: if k in found then Pending else s.status[k],
         tally := map k | k in s.tally ::
           if k in found then s.tally[k].(released := s.tally[k].released + 1) else s.tally[k],
         batch := {}, reopenedFor := 0)
  }

  function After(s: State, run: seq<Event>): State
    decreases |run|
  {
    if run == [] then s else After(Apply(s, run[0]), run[1..])
  }

  predicate ValidRun(s: State, run: seq<Event>, limit: nat)
    decreases |run|
  {
    run == [] || (Enabled(s, run[0], limit) && ValidRun(Apply(s, run[0]), run[1..], limit))
  }

  // ---- what every step keeps

  /** Every claim of a row is paid for: by its insertion, a reopening that found it deferred, or a
      restart that found it in progress. A pending row has exactly one claim in hand. */
  predicate Accounted(t: Tally, s: Status) {
    t.claims + (if s.Pending? then 1 else 0) == 1 + t.reopened + t.released
  }

  predicate Inv(s: State) {
    && s.tally.Keys == s.status.Keys
    && (forall k :: k in s.batch ==> k in s.status && s.status[k] == InProgress)
    && (forall k :: k in s.status ==> Accounted(s.tally[k], s.status[k]))
  }

  lemma {:induction false} RowStaysAccounted(s: State, e: Event, limit: nat, k: Key)
    requires Inv(s) && Enabled(s, e, limit) && k in Apply(s, e).status
    ensures k in Apply(s, e).tally && Accounted(Apply(s, e).tally[k], Apply(s, e).status[k])
    ensures k in Apply(s, e).batch ==> Apply(s, e).status[k] == InProgress
  {
    match e
    case Claim(keys) => assert k in keys ==> k in Waiting(s);
    case _ =>
  }

  lemma {:induction false} KeysStay(s: State, e: Event, limit: nat)
    requires Inv(s) && Enabled(s, e, limit)
    ensures Apply(s, e).status.Keys == s.status.Keys + (if e.Insert? then {e.key} else {})
    ensures Apply(s, e).tally.Keys == Apply(s, e).status.Keys
    ensures Apply(s, e).batch <= s.status.Keys
  {}

  lemma {:induction false} StepKeepsInv(s: State, e: Event, limit: nat)
    requires Inv(s) && Enabled(s, e, limit)
    ensures Inv(Apply(s, e))
    ensures Apply(s, e).status.Keys == s.status.Keys + (if e.Insert? then {e.key} else {})
  {
    KeysStay(s, e, limit);
    forall k | k in Apply(s, e).status
      ensures k in Apply(s, e).tally && Accounted(Apply(s, e).tally[k], Apply(s, e).status[k])
      ensures k in Apply(s, e).batch ==> Apply(s, e).status[k] == InProgress
    {
      RowStaysAccounted(s, e, limit, k);
    }
    hide Apply, Enabled, Accounted;
  }

  function Inserted(run: seq<Event>): set<Key> {
    set i | 0 <= i < |run| && run[i].Insert? :: run[i].key
  }

  lemma {:induction false} RunKeepsInv(s: State, run: seq<Event>, limit: nat)
    requires Inv(s) && ValidRun(s, run, limit)
    ensures Inv(After(s, run))
    ensures After(s, run).status.Keys == s.status.Keys + Inserted(run)
    decreases |run|
  {
    hide Inv, Enabled, Apply;
    if run != [] {
      StepKeepsInv(s, run[0], limit);
      RunKeepsInv(Apply(s, run[0]), run[1..], limit);
      assert Inserted(run) == (if run[0].Insert? then {run[0].key} else {}) + Inserted(run[1..]) by {
        forall k | k in Inserted(run) ensures k in (if run[0].Insert? then {run[0].key} else {}) + Inserted(run[1..]) {
          var i :| 0 <= i < |run| && run[i].Insert? && run[i].key == k;
          if i > 0 {
            assert run[1..][i - 1] == run[i];
          }
        }
        forall k | k in Inserted(run[1..]) ensures k in Inserted(run) {
          var i :| 0 <= i < |run[1..]| && run[1..][i].Insert? && run[1..][i].key == k;
          assert run[i + 1] == run[1..][i];
        }
      }
    }
  }

  /** Over every run no row is lost, and no row is claimed more often than it was inserted,
      reopened while deferred or released while in progress. */
  lemma {:induction false} NoRowLostNoneClaimedInVain(run: seq<Event>, limit: nat)
    requires ValidRun(EMPTY, run, limit)
    ensures var s := After(EMPTY, run);
            && s.status.Keys == Inserted(run)
            && forall k :: k in s.status ==>
                 && k in s.tally
                 && s.tally[k].claims <= 1 + s.tally[k].reopened + s.tally[k].released
                 && (s.status[k].Pending? <==> s.tally[k].claims == s.tally[k].reopened + s.tally[k].released)
  {
    RunKeepsInv(EMPTY, run, limit);
    var s := After(EMPTY, run);
    assert forall k :: k in s.status ==> Accounted(s.tally[k], s.status[k]);
  }

  // ---- rows a failed write-back leaves behind

  predicate NoRelease(run: seq<Event>) {
    forall i :: 0 <= i < |run| ==> run[i] != Restart(true)
  }

  /** A row in progress that belongs to no running pass stays so until a restart releases it. */
  lemma {:induction false} StrandedUntilRestart(s: State, run: seq<Event>, limit: nat, k: Key)
    requires Inv(s) && ValidRun(s, run, limit) && NoRelease(run)
    requires k in s.status && s.status[k] == InProgress && k !in s.batch
    ensures k in After(s, run).status && After(s, run).status[k] == InProgress && k !in After(s, run).batch
    ensures Apply(After(s, run), Restart(true)).status[k] == Pending
    decreases |run|
  {
    if run != [] {
      StepKeepsInv(s, run[0], limit);
      assert run[0] != Restart(true);
      forall i | 0 <= i < |run[1..]| ensures run[1..][i] != Restart(true) {
        assert run[1..][i] == run[i + 1];
      }
      StrandedUntilRestart(Apply(s, run[0]), run[1..], limit, k);
    }
  }

  // ---- reopenings

  predicate KeepsWindow(e: Event) {
    !e.Reopen? && !e.Restart?
  }

  lemma {:induction false} WindowKept(s: State, run: seq<Event>)
    requires forall i :: 0 <= i < |run| ==> KeepsWindow(run[i])
    ensures After(s, run).reopenedFor == s.reopenedFor
    decreases |run|
  {
    if run != [] {
      assert KeepsWindow(run[0]);
      WindowKept(Apply(s, run[0]), run[1..]);
    }
  }

  lemma {:induction false} RunSplits(s: State, a: seq<Event>, b: seq<Event>, limit: nat)
    requires ValidRun(s, a + b, limit)
    ensures ValidRun(s, a, limit) && ValidRun(After(s, a), b, limit)
    decreases |a|
  {
    if a == [] {
      assert a + b == b;
    } else {
      assert (a + b)[0] == a[0] && (a + b)[1..] == a[1..] + b;
      RunSplits(Apply(s, a[0]), a[1..], b, limit);
    }
  }

  /** Two successive reopenings of one process are for different quota windows. */
  lemma {:induction false} SuccessiveReopeningsDiffer(s: State, before: seq<Event>, first: Event, between: seq<Event>,
                                   second: Event, limit: nat)
    requires first.Reopen? && second.Reopen?
    requires forall i :: 0 <= i < |between| ==> KeepsWindow(between[i])
    requires ValidRun(s, before + [first] + between + [second], limit)
    ensures first.resetAt != second.resetAt && first.resetAt != 0 && second.resetAt != 0
  {
    RunSplits(s, before + [first] + between, [second], limit);
    RunSplits(s, before + [first], between, limit);
    RunSplits(s, before, [first], limit);
    AfterAppend(s, before + [first], between);
    AfterAppend(s, before, [first]);
    var t := After(s, before);
    assert After(t, [first]) == After(Apply(t, first), [first][1..]) == Apply(t, first);
    WindowKept(Apply(t, first), between);
  }

  lemma {:induction false} AfterAppend(s: State, a: seq<Event>, b: seq<Event>)
    ensures After(s, a + b) == After(After(s, a), b)
    decreases |a|
  {
    if a == [] {
      assert a + b == b;
    } else {
      assert (a + b)[0] == a[0] && (a + b)[1..] == a[1..] + b;
      AfterAppend(Apply(s, a[0]), a[1..], b);
    }
  }

  // ---- reaching the sleep

  /** Nothing makes a row pending. */
  predicate Quiet(run: seq<Event>) {
    forall i :: 0 <= i < |run| ==> run[i].Claim? || run[i].WriteBack? || run[i].WriteBackFails?
  }

  function Claims(run: seq<Event>): nat {
    if run == [] then 0 else (if run[0].Claim? then 1 else 0) + Claims(run[1..])
  }

  function LeftAfter(pending: nat, limit: nat, passes: nat): nat {
    if passes == 0 then pending else LeftAfter(pending - Min(limit, pending), limit, passes - 1)
  }

  lemma {:induction false} StepWaiting(s: State, e: Event, limit: nat)
    requires Inv(s) && Enabled(s, e, limit) && (e.Claim? || e.WriteBack? || e.WriteBackFails?)
    ensures Waiting(Apply(s, e)) == if e.Claim? then Waiting(s) - e.keys else Waiting(s)
    ensures e.Claim? ==> |Waiting(Apply(s, e))| == |Waiting(s)| - Min(limit, |Waiting(s)|)
  {}

  lemma {:induction false} QuietTail(run: seq<Event>)
    requires Quiet(run) && run != []
    ensures run[0].Claim? || run[0].WriteBack? || run[0].WriteBackFails?
    ensures Quiet(run[1..])
  {}

  /** Without inserts and reopenings the queue shrinks by a full batch a pass. */
  lemma {:induction false} QueueDrains(s: State, run: seq<Event>, limit: nat)
    requires Inv(s) && ValidRun(s, run, limit) && Quiet(run)
    ensures |Waiting(After(s, run))| == LeftAfter(|Waiting(s)|, limit, Claims(run))
    decreases |run|
  {
    hide Inv, Enabled, Apply, Quiet, Waiting;
    if run != [] {
      QuietTail(run);
      StepKeepsInv(s, run[0], limit);
      QueueDrains(Apply(s, run[0]), run[1..], limit);
      StepDrains(s, run[0], limit, Claims(run[1..]));
    }
  }

  lemma {:induction false} StepDrains(s: State, e: Event, limit: nat, later: nat)
    requires Inv(s) && Enabled(s, e, limit) && (e.Claim? || e.WriteBack? || e.WriteBackFails?)
    ensures LeftAfter(|Waiting(s)|, limit, (if e.Claim? then 1 else 0) + later)
            == LeftAfter(|Waiting(Apply(s, e))|, limit, later)
  {
    StepWaiting(s, e, limit);
  }

  lemma {:induction false} LeftAfterIs(pending: nat, limit: nat, passes: nat)
    ensures LeftAfter(pending, limit, passes) == if pending <= limit * passes then 0 else pending - limit * passes
    decreases passes
  {
    if passes > 0 {
      LeftAfterIs(pending - Min(limit, pending), limit, passes - 1);
      assert limit * passes == limit * (passes - 1) + limit;
    }
  }

  /** So the loop reaches its sleep: after enough passes to cover what waited, a claim comes back empty. */
  lemma {:induction false} LoopReachesSleep(s: State, run: seq<Event>, limit: nat, keys: set<Key>)
    requires Inv(s) && ValidRun(s, run, limit) && Quiet(run)
    requires |Waiting(s)| <= limit * Claims(run)
    requires Enabled(After(s, run), Claim(keys), limit)
    ensures keys == {}
  {
    QueueDrains(s, run, limit);
    LeftAfterIs(|Waiting(s)|, limit, Claims(run));
  }

  /** And on the way there every non-empty pass strictly shrinks the queue. */
  lemma {:induction false} PassShrinks(s: State, keys: set<Key>, rest: Event, limit: nat)
    requires Inv(s) && Enabled(s, Claim(keys), limit) && keys != {}
    requires rest.WriteBackFails? || (rest.WriteBack? && rest.deferred <= keys)
    ensures |Waiting(Apply(Apply(s, Claim(keys)), rest))| < |Waiting(s)|
  {
    StepKeepsInv(s, Claim(keys), limit);
    StepWaiting(s, Claim(keys), limit);
    StepWaiting(Apply(s, Claim(keys)), rest, limit);
  }

  // ---- a claim is always possible

  lemma {:induction false} NewestOne(pending: set<Key>) returns (k: Key)
    requires pending != {}
    ensures k in pending && forall o :: o in pending ==> o.ts <= k.ts
    decreases |pending|
  {
    k :| k in pending;
    var rest := pending - {k};
    if rest != {} {
      var n := NewestOne(rest);
      if n.ts > k.ts {
        k := n;
      }
    }
    assert forall o :: o in pending ==> o == k || o in rest || o.ts <= k.ts;
  }

  lemma {:induction false} SomeNewest(pending: set<Key>, limit: nat) returns (keys: set<Key>)
    ensures Newest(keys, pending, limit)
    decreases limit
  {
    keys := {};
    if limit > 0 && pending != {} {
      var k := NewestOne(pending);
      var rest := SomeNewest(pending - {k}, limit - 1);
      keys := rest + {k};
      assert pending - keys == (pending - {k}) - rest;
    }
  }
}
