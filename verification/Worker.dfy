/** The enrichment worker: one pass claims, looks up, writes back; the loop reopens and restarts. */
module Worker {
  import opened Basics
  import opened Net
  import opened Queue
  import opened Passes
  import Quota
  import Refresh
  import Reopening

  // ---- what is written

  function FactsFor(c: Claimed, facts: map<Address, IpFacts>): IpFacts {
    if c.remote.Some? && c.remote.value in facts then facts[c.remote.value] else NO_FACTS
  }

  predicate Defers(c: Claimed, facts: map<Address, IpFacts>, ranOut: bool) {
    ranOut && c.wantsThreat && c.remote.Some? && FactsFor(c, facts).threatScore.None?
  }

  /** Every column is overwritten but the categories, which are written only where there are any. */
  function Written(before: IpFacts, f: IpFacts): IpFacts {
    if f.threatCategories.Some? && f.threatCategories.value != [] then f
    else f.(threatCategories := before.threatCategories)
  }

  function RowAfter(r: Row, c: Claimed, facts: map<Address, IpFacts>, ranOut: bool): Row {
    r.(status := if Defers(c, facts, ranOut) then Deferred else Done,
       facts := Written(r.facts, FactsFor(c, facts)))
  }

  // ---- writing back

  /** Whether the database carries out the claim and the update, and how many of the category updates. */
  datatype Database = Database(claims: bool, writes: bool, categories: nat)

  function CategoryUpdates(p: Pass): seq<(Key, seq<string>)> {
    FlatMap(p.claimed, CategoryOf(p))
  }

  /** The write-back succeeds if the update and all category updates do. */
  predicate Completes(p: Pass, db: Database) {
    db.writes && |CategoryUpdates(p)| <= db.categories
  }

  function DeferredKeys(p: Pass): set<Key> {
    set i | 0 <= i < |p.claimed| && Defers(p.claimed[i], p.facts, p.ranOut) :: p.claimed[i].key
  }

  function UpdateOf(p: Pass, c: Claimed): (Status, IpFacts) {
    (if Defers(c, p.facts, p.ranOut) then Deferred else Done, FactsFor(c, p.facts))
  }

  /** The category update of a claim, if it has one. */
  function CategoryOf(p: Pass): Claimed -> seq<(Key, seq<string>)> {
    (c: Claimed) =>
      var cats := FactsFor(c, p.facts).threatCategories;
      if cats.Some? && cats.value != [] then [(c.key, cats.value)] else []
  }

  function WithCategories(rows: map<Key, Row>, updates: seq<(Key, seq<string>)>): map<Key, Row> {
    if updates == [] then rows
    else
      var (k, cats) := updates[|updates| - 1];
      var r := WithCategories(rows, updates[..|updates| - 1]);
      if k in r then r[k := r[k].(facts := r[k].facts.(threatCategories := Some(cats)))] else r
  }

  // ---- rows before and after

  function Statuses(rows: map<Key, Row>): map<Key, Status> {
    map k | k in rows :: rows[k].status
  }

  /** The claims are those of rows that are there, each with its own far end and wish for a score. */
  ghost predicate ClaimsFrom(rows: map<Key, Row>, claimed: seq<Claimed>, usable: Address -> bool) {
    DistinctKeys(claimed)
    && forall i :: 0 <= i < |claimed| ==>
         claimed[i].key in rows && claimed[i] == ClaimOf(claimed[i].key, rows[claimed[i].key], usable)
  }

  function Marked(rows: map<Key, Row>, keys: set<Key>): map<Key, Row> {
    map k | k in rows :: if k in keys then rows[k].(status := InProgress) else rows[k]
  }

  function Reopened(rows: map<Key, Row>): map<Key, Row> {
    map k | k in rows :: if rows[k].status == Deferred then rows[k].(status := Pending) else rows[k]
  }

  function Released(rows: map<Key, Row>): map<Key, Row> {
    map k | k in rows :: if rows[k].status == InProgress then rows[k].(status := Pending) else rows[k]
  }

  /** Status and facts of the claimed rows, their categories aside. */
  function Updated(rows: map<Key, Row>, p: Pass): map<Key, Row> {
    var updates := UpdatesOf(p, p.claimed);
    map k | k in rows ::
      if k in updates then
        rows[k].(status := updates[k].0, facts := updates[k].1.(threatCategories := rows[k].facts.threatCategories))
      else rows[k]
  }

  /** The rows after a write-back: nothing, if the update fails; and as many categories as get through. */
  function WrittenBack(rows: map<Key, Row>, p: Pass, db: Database): map<Key, Row> {
    if !db.writes then rows
    else
      var u := CategoryUpdates(p);
      WithCategories(Updated(rows, p), u[..Min(db.categories, |u|)])
  }

  /** The rows after a pass. */
  function AfterPass(rows: map<Key, Row>, p: Pass, db: Database): map<Key, Row> {
    if p.claimed == [] then rows else WrittenBack(Marked(rows, KeysOf(p.claimed)), p, db)
  }

  /** What a pass does to the queue. */
  function Steps(p: Pass, db: Database): seq<Queue.Event> {
    if !db.claims then []
    else
      [Queue.Event.Claim(KeysOf(p.claimed))]
      + if p.claimed == [] then [] else [LastStep(p, db)]
  }

  /** What one round of the loop finds: the quota as the source reports it, whether the database reopens
      rows, the settings, the sources and the time. */
  datatype Conditions = Conditions(
    quota: Option<Quota.Report>, reopens: bool, usable: Address -> bool, s: Sources, perDay: nat,
    now: int, today: int, db: Database)

  function RowsToClaim(rows: map<Key, Row>, c: Conditions, reopenedFor: int): map<Key, Row> {
    if Reopening.Reopens(c.quota, reopenedFor) && c.reopens then Reopened(rows) else rows
  }

  /** What one round does to the queue. */
  function RoundSteps(c: Conditions, reopenedFor: int, p: Pass): seq<Queue.Event> {
    Reopening.CheckSteps(c.quota, reopenedFor, c.reopens) + Steps(p, c.db)
  }

  /** The rows that come in before a round, and the round. */
  datatype Round = Round(arrivals: seq<(Key, Row)>, at: Conditions)

  /** New rows wait; a key that is taken is refused. */
  function Arrived(rows: map<Key, Row>, arrivals: seq<(Key, Row)>): map<Key, Row> {
    if arrivals == [] then rows
    else
      var (k, r) := arrivals[|arrivals| - 1];
      var before := Arrived(rows, arrivals[..|arrivals| - 1]);
      if k in before then before else before[k := r.(status := Pending)]
  }

  function PendingOf(rows: map<Key, Row>): set<Key> {
    set k | k in rows && rows[k].status == Pending
  }

  function WindowAfter(c: Conditions, reopenedFor: int): int {
    if Reopening.Reopens(c.quota, reopenedFor) && c.reopens then c.quota.value.resetAt else reopenedFor
  }

  /** A pass that claims the newest of the waiting rows it finds, at most 200, if the database lets it, and
      what that makes of the rows. */
  ghost predicate PassOver(found: map<Key, Row>, p: Pass, c: Conditions, after: map<Key, Row>) {
    && ClaimsFrom(found, p.claimed, c.usable)
    && (if c.db.claims then Newest(KeysOf(p.claimed), PendingOf(found), 200) else p == NO_PASS)
    && after == AfterPass(found, p, c.db)
  }

  /** The rows and the quota window before and after a round. */
  ghost predicate RoundOver(before: map<Key, Row>, window: int, r: Round, p: Pass, after: map<Key, Row>, next: int) {
    && next == WindowAfter(r.at, window)
    && PassOver(RowsToClaim(Arrived(before, r.arrivals), r.at, window), p, r.at, after)
  }

  /** What became of the worker: the queue's steps, the passes, and rows, cache and window after start-up
      and after each round. */
  datatype Life = Life(
    run: seq<Queue.Event>, turns: seq<Turn>, caches: seq<Cache>, tables: seq<map<Key, Row>>, windows: seq<int>)

  ghost predicate LivedRound(life: Life, rounds: seq<Round>, i: nat)
    requires i < |rounds| && |life.turns| == |rounds|
    requires |life.tables| == |rounds| + 1 && |life.windows| == |rounds| + 1
  {
    && life.turns[i].s == rounds[i].at.s && life.turns[i].now == rounds[i].at.now
    && RoundOver(life.tables[i], life.windows[i], rounds[i], life.turns[i].p, life.tables[i + 1], life.windows[i + 1])
  }

  /** Every round did its work on the rows, the window and the cache the one before left. */
  ghost predicate Lived(life: Life, rounds: seq<Round>) {
    && |life.turns| == |rounds| && |life.tables| == |rounds| + 1 && |life.windows| == |rounds| + 1
    && Chain(life.caches, life.turns)
    && forall i :: 0 <= i < |rounds| ==> LivedRound(life, rounds, i)
  }

  class EnrichmentWorker {
    var rows: map<Key, Row>
    var cache: Cache
    var reopenedFor: int
    ghost var tally: map<Key, Tally>
    ghost var batch: set<Key>

    ghost function Abs(): State
      reads this
    {
      State(Statuses(rows), tally, batch, reopenedFor)
    }

    constructor ()
      ensures Abs() == EMPTY && cache == map[] && rows == map[]
    {
      rows, cache, reopenedFor := map[], map[], 0;
      tally, batch := map[], {};
    }

    /** The writer's side of the queue: a new row waits. */
    method Insert(k: Key, r: Row)
      requires k !in rows && r.status == Pending
      modifies this
      ensures Abs() == Apply(old(Abs()), Queue.Event.Insert(k))
      ensures rows == old(rows)[k := r] && cache == old(cache)
    {
      rows := rows[k := r];
      tally := tally[k := Tally(0, 0, 0)];
      assert Statuses(rows) == Statuses(old(rows))[k := Pending];
    }

    /** Start-up: the process forgets its window and its batch; stale claims are released unless
        the database fails. */
    method StartUp(databaseAnswers: bool)
      modifies this
      ensures Abs() == Apply(old(Abs()), Restart(databaseAnswers))
      ensures batch == {} && cache == old(cache) && reopenedFor == 0
      ensures rows == if databaseAnswers then Released(old(rows)) else old(rows)
    {
      ghost var was := Abs();
      reopenedFor := 0;
      batch := {};
      if databaseAnswers {
        tally := map k | k in tally ::
          if k in With(was, InProgress) then tally[k].(released := tally[k].released + 1) else tally[k];
        rows := Released(rows);
      }
      assert Statuses(rows) == Apply(was, Restart(databaseAnswers)).status;
      assert tally == Apply(was, Restart(databaseAnswers)).tally;
    }

    method ReopenDeferred(resetAt: int)
      modifies this
      ensures Abs() == Apply(old(Abs()), Reopen(resetAt))
      ensures cache == old(cache) && rows == Reopened(old(rows))
    {
      ghost var was := Abs();
      tally := map k | k in tally ::
        if k in With(was, Deferred) then tally[k].(reopened := tally[k].reopened + 1) else tally[k];
      rows := Reopened(rows);
      reopenedFor := resetAt;
      assert Statuses(rows) == Apply(was, Reopen(resetAt)).status;
    }

    /** The claims of some rows, in any order. */
    method ClaimsOf(keys: set<Key>, usable: Address -> bool) returns (claimed: seq<Claimed>)
      requires keys <= rows.Keys
      ensures KeysOf(claimed) == keys && ClaimsFrom(rows, claimed, usable)
    {
      claimed := [];
      var left := keys;
      while left != {}
        invariant left <= keys
        invariant KeysOf(claimed) == keys - left && DistinctKeys(claimed)
        invariant forall i :: 0 <= i < |claimed| ==>
                    claimed[i].key in rows && claimed[i] == ClaimOf(claimed[i].key, rows[claimed[i].key], usable)
        decreases left
      {
        var k :| k in left;
        KeysOfSnoc(claimed, ClaimOf(k, rows[k], usable));
        claimed := claimed + [ClaimOf(k, rows[k], usable)];
        left := left - {k};
      }
    }

    /** Claims the newest pending rows. */
    method ClaimRows(limit: nat, usable: Address -> bool) returns (claimed: seq<Claimed>)
      requires batch == {}
      modifies this
      ensures Newest(KeysOf(claimed), Waiting(old(Abs())), limit)
      ensures Enabled(old(Abs()), Queue.Event.Claim(KeysOf(claimed)), limit)
      ensures DistinctKeys(claimed) && batch == KeysOf(claimed) && batch <= rows.Keys
      ensures Abs() == Apply(old(Abs()), Queue.Event.Claim(KeysOf(claimed)))
      ensures ClaimsFrom(old(rows), claimed, usable)
      ensures rows == Marked(old(rows), KeysOf(claimed)) && cache == old(cache) && reopenedFor == old(reopenedFor)
    {
      ghost var was := Abs();
      var pending := set k | k in rows && rows[k].status == Pending;
      assert pending == Waiting(was);
      ghost var some := SomeNewest(pending, limit);
      assert some <= pending;
      var keys: set<Key> :| keys <= pending && Newest(keys, pending, limit);
      claimed := ClaimsOf(keys, usable);
      rows := Marked(rows, keys);
      tally := map k | k in tally :: if k in keys then tally[k].(claims := tally[k].claims + 1) else tally[k];
      batch := keys;
      assert Statuses(rows) == Apply(was, Queue.Event.Claim(keys)).status;
    }

    /** Everything that happens for one address. */
    method LookUpOne(ip: Address, wanted: bool, s: Sources, budget: Refresh.RefreshBudget, now: int, today: int)
      returns (known: IpFacts, geoAsked: bool, threatAsked: bool, refreshing: bool)
      modifies this`cache, budget
      ensures var e, b := Entry(old(cache), ip), old(budget.Now());
              && geoAsked == AsksGeo(e)
              && refreshing == (wanted && Stale(e, now) && Refresh.Grants(b, today))
              && threatAsked == AsksThreat(e, s, ip, wanted, refreshing)
              && known == Learned(Known(e), s, ip, threatAsked)
              && Entry(cache, ip) == EntryAfter(e, s, ip, threatAsked, refreshing, now)
              && budget.Now() == if wanted && Stale(e, now) then Refresh.Taken(b, today) else b
      ensures SameElsewhere(old(cache), cache, ip)
    {
      hide Entry, Upserted;
      known := Known(Entry(cache, ip));
      var stale := Stale(Entry(cache, ip), now);
      geoAsked := known.geoCountry.None? && known.asnNumber.None?;
      if geoAsked {
        known := Merge(known, s.geo(ip));
      }
      if known.rdns.None? && s.rdnsEnabled && s.rdns.Some? {
        known := known.(rdns := (s.rdns.value)(ip));
      }
      refreshing := false;
      if wanted && known.threatScore.Some? && stale {
        refreshing := budget.Take(today);
      }
      threatAsked := wanted && (known.threatScore.None? || refreshing);
      if threatAsked {
        match s.threat(ip)
        case Found(t) => known := if refreshing then WithRating(known, t) else Merge(known, t);
        case QuotaExhausted =>
        case _ =>
          if refreshing {
            Touch(ip, now);
          }
      }
      if known != NO_FACTS {
        Store(ip, known, now);
      }
    }

    /** Records that a refresh was tried, even if nothing came of it. */
    method Touch(ip: Address, now: int)
      modifies this`cache
      ensures Entry(cache, ip) == Touched(Entry(old(cache), ip), now) && SameElsewhere(old(cache), cache, ip)
    {
      if ip in cache {
        cache := cache[ip := cache[ip].(ratedAt := Some(now))];
      }
    }

    method Store(ip: Address, known: IpFacts, now: int)
      modifies this`cache
      ensures Entry(cache, ip) == Some(Upserted(Entry(old(cache), ip), known, now))
      ensures SameElsewhere(old(cache), cache, ip)
    {
      cache := cache[ip := Upserted(Entry(cache, ip), known, now)];
    }

    /** One lookup each for the claimed addresses, in whatever order the hash set yields them. */
    method LookUp(claimed: seq<Claimed>, s: Sources, budget: Refresh.RefreshBudget, now: int, today: int)
      returns (p: Pass)
      modifies this`cache, budget
      ensures p.claimed == claimed
      ensures LooksUp(p, s, old(cache), cache, now, Refresh.Left(old(budget.Now()), today))
      ensures budget.Now() == Refresh.Spent(old(budget.Now()), today, |Due(ThreatRemotes(p.claimed), old(cache), now)|)
    {
      hide *;
      var distinct, wants := Remotes(claimed), ThreatRemotes(claimed);
      p := NO_PASS.(claimed := claimed);
      var left := distinct;
      ghost var was, b := cache, budget.Now();
      NothingLookedUp(p, wants, s, was, now, b, today);
      assert distinct - left == {};
      while left != {}
        invariant left <= distinct && p.claimed == claimed
        invariant LooksSoFar(p, distinct - left, wants, s, was, cache, now, b, budget.Now(), today)
        modifies this`cache, budget
        decreases left
      {
        var ip :| ip in left;
        ghost var done, before, middle, paid := distinct - left, p, cache, budget.Now();
        StillUnmet(p, done, wants, s, was, cache, now, b, paid, today, ip);
        var known, geoAsked, threatAsked, refreshing := LookUpOne(ip, ip in wants, s, budget, now, today);
        p := p.(facts := p.facts[ip := known],
                geoAsked := p.geoAsked + (if geoAsked then [ip] else []),
                threatAsked := p.threatAsked + (if threatAsked then [ip] else []),
                ranOut := p.ranOut || (threatAsked && s.threat(ip).QuotaExhausted?));
        left := left - {ip};
VisitedIs(before, ip, Entry(was, ip), s, ip in wants, refreshing);
        OneMore(before, done, ip, wants, s, was, middle, cache, now, b, paid, budget.Now(), today, refreshing);
        assert distinct - left == done + {ip};
      }
      assert distinct - left == distinct;
      LookedUpAll(p, s, was, cache, now, b, budget.Now(), today);
    }

    /** One UPDATE for all columns but the categories, then one each for the rows that have any.
        Either may fail; without the first nothing is written. */
    method WriteBack(p: Pass, db: Database) returns (ok: bool)
      requires DistinctKeys(p.claimed) && KeysOf(p.claimed) <= rows.Keys && batch == KeysOf(p.claimed)
      modifies this
      ensures batch == {} && cache == old(cache) && reopenedFor == old(reopenedFor)
      ensures ok <==> Completes(p, db)
      ensures rows == WrittenBack(old(rows), p, db)
      ensures Abs() == Apply(old(Abs()), LastStep(p, db))
    {
      hide WithCategories;
      ghost var was := Abs();
      var updates, withCategories := CollectUpdates(p);
      batch := {};
      if !db.writes {
        return false;
      }
      rows := map k | k in rows ::
        if k in updates then
          rows[k].(status := updates[k].0, facts := updates[k].1.(threatCategories := rows[k].facts.threatCategories))
        else rows[k];
      assert rows == Updated(old(rows), p);
      var n := Min(db.categories, |withCategories|);
      WriteCategories(withCategories[..n]);
      ok := n == |withCategories|;
      WriteBackSteps(was, old(rows), p, db);
    }

    /** The columns of the update, row by row, and the category lists apart from them. */
    method CollectUpdates(p: Pass)
      returns (updates: map<Key, (Status, IpFacts)>, withCategories: seq<(Key, seq<string>)>)
      requires DistinctKeys(p.claimed)
      ensures updates == UpdatesOf(p, p.claimed) && withCategories == CategoryUpdates(p)
      ensures updates.Keys == KeysOf(p.claimed)
      ensures forall j :: 0 <= j < |p.claimed| ==> updates[p.claimed[j].key] == UpdateOf(p, p.claimed[j])
    {
      updates, withCategories := map[], [];
      ghost var seen: seq<Claimed> := [];
      for i := 0 to |p.claimed|
        invariant seen == p.claimed[..i]
        invariant updates == UpdatesOf(p, seen) && withCategories == FlatMap(seen, CategoryOf(p))
      {
        var c := p.claimed[i];
        var f := FactsFor(c, p.facts);
        UpdatesSnoc(p, seen, c);
        CategoriesSnoc(p, seen, c);
        updates := updates[c.key := (if Defers(c, p.facts, p.ranOut) then Deferred else Done, f)];
        if f.threatCategories.Some? && f.threatCategories.value != [] {
          withCategories := withCategories + [(c.key, f.threatCategories.value)];
        }
        seen := seen + [c];
      }
      assert seen == p.claimed;
      UpdatesHold(p, p.claimed);
    }

    method WriteCategories(updates: seq<(Key, seq<string>)>)
      modifies this`rows
      ensures rows == WithCategories(old(rows), updates)
    {
      for i := 0 to |updates|
        invariant rows == WithCategories(old(rows), updates[..i])
      {
        assert updates[..i + 1][..i] == updates[..i];
        var (k, cats) := updates[i];
        if k in rows {
          rows := rows[k := rows[k].(facts := rows[k].facts.(threatCategories := Some(cats)))];
        }
      }
      assert updates[..|updates|] == updates;
    }

    /** One pass. `n` is how many rows it touched, `None` a database error. */
    method RunOnce(limit: nat, usable: Address -> bool, s: Sources, budget: Refresh.RefreshBudget,
                   now: int, today: int, db: Database)
      returns (n: Option<nat>, p: Pass)
      requires batch == {} && Inv(Abs())
      modifies this, budget
      ensures batch == {} && reopenedFor == old(reopenedFor)
      ensures ValidRun(old(Abs()), Steps(p, db), limit) && Abs() == After(old(Abs()), Steps(p, db))
      ensures !db.claims ==> p == NO_PASS
      ensures db.claims ==> Newest(KeysOf(p.claimed), Waiting(old(Abs())), limit)
      ensures n == if db.claims && (p.claimed == [] || Completes(p, db)) then Some(|p.claimed|) else None
      ensures ClaimsFrom(old(rows), p.claimed, usable) && rows == AfterPass(old(rows), p, db)
      ensures LooksUp(p, s, old(cache), cache, now, Refresh.Left(old(budget.Now()), today))
      ensures budget.Now() == Refresh.Spent(old(budget.Now()), today, |Due(ThreatRemotes(p.claimed), old(cache), now)|)
      // what that means for the rows and the quota
      ensures Accounts(old(rows), rows, p, s, old(cache), usable, db)
      ensures NoRepeats(p.threatAsked) && forall ip :: ip in p.threatAsked ==> IsBlockedFarEnd(old(rows), usable, ip)
    {
      hide *;
      ghost var was, b := Abs(), budget.Now();
      p, n := NO_PASS, None;
      NoPassLooksUp(s, cache, now, Refresh.Left(b, today));
      NothingClaimed(was, rows, cache, usable, db, limit, b, now, today);
      if db.claims {
        var claimed := ClaimRows(limit, usable);
        CountKeys(claimed);
        StepKeepsInv(was, Queue.Event.Claim(KeysOf(claimed)), limit);
        if claimed == [] {
          n := Some(0);
        } else {
          var ok: bool;
          ok, p := Process(claimed, s, budget, now, today, db);
          SomethingClaimed(old(rows), p, db);
          if ok {
            n := Some(|claimed|);
          }
        }
        StepsTaken(was, p, db, limit);
      }
      PassAccounts(old(rows), p, s, old(cache), now, usable, db);
      QuotaGoesToBlockedRows(old(rows), p, s, old(cache), now, usable);
    }

    /** The slow part of a pass, outside any transaction. */
    method Process(claimed: seq<Claimed>, s: Sources, budget: Refresh.RefreshBudget, now: int, today: int, db: Database)
      returns (ok: bool, p: Pass)
      requires DistinctKeys(claimed) && KeysOf(claimed) <= rows.Keys && batch == KeysOf(claimed)
      modifies this, budget
      ensures batch == {} && reopenedFor == old(reopenedFor) && p.claimed == claimed
      ensures ok <==> Completes(p, db)
      ensures rows == WrittenBack(old(rows), p, db) && Abs() == Apply(old(Abs()), LastStep(p, db))
      ensures LooksUp(p, s, old(cache), cache, now, Refresh.Left(old(budget.Now()), today))
      ensures budget.Now() == Refresh.Spent(old(budget.Now()), today, |Due(ThreatRemotes(p.claimed), old(cache), now)|)
    {
      p := LookUp(claimed, s, budget, now, today);
      ok := WriteBack(p, db);
    }

    /** Reopens the deferred rows, once for every quota window. */
    method MaybeReopen(c: Conditions)
      requires batch == {} && Inv(Abs())
      modifies this
      ensures batch == {} && Inv(Abs()) && cache == old(cache)
      ensures rows == RowsToClaim(old(rows), c, old(reopenedFor)) && Abs().status == Statuses(rows)
      ensures reopenedFor == WindowAfter(c, old(reopenedFor))
      ensures var steps := Reopening.CheckSteps(c.quota, old(reopenedFor), c.reopens);
              ValidRun(old(Abs()), steps, BATCH_SIZE) && Abs() == After(old(Abs()), steps)
    {
      match c.quota
      case Some(q) =>
        if q.remaining > 0 && q.resetAt != 0 && q.resetAt != reopenedFor && c.reopens {
          StepKeepsInv(Abs(), Reopen(q.resetAt), BATCH_SIZE);
          OneStep(Abs(), Reopen(q.resetAt), BATCH_SIZE);
          ReopenDeferred(q.resetAt);
        }
      case None =>
    }

    /** One round of the loop: settings, reopening, a pass; it sleeps unless the pass found something and
        wrote it all back. */
    method Iterate(c: Conditions, budget: Refresh.RefreshBudget) returns (sleeps: bool, p: Pass)
      requires batch == {} && Inv(Abs())
      modifies this, budget
      ensures batch == {} && Inv(Abs())
      ensures sleeps <==> !(c.db.claims && p.claimed != [] && Completes(p, c.db))
      // the queue
      ensures var steps := RoundSteps(c, old(reopenedFor), p);
              ValidRun(old(Abs()), steps, BATCH_SIZE) && Abs() == After(old(Abs()), steps)
      // the rows
      ensures reopenedFor == WindowAfter(c, old(reopenedFor))
      ensures var found := RowsToClaim(old(rows), c, old(reopenedFor));
              PassOver(found, p, c, rows) && Accounts(found, rows, p, c.s, old(cache), c.usable, c.db)
      // the sources, the cache and the allowance
      ensures var b := old(budget.Now()).(perDay := c.perDay);
              && LooksUp(p, c.s, old(cache), cache, c.now, Refresh.Left(b, c.today))
              && budget.Now() == Refresh.Spent(b, c.today, |Due(ThreatRemotes(p.claimed), old(cache), c.now)|)
    {
      hide *;
      ghost var was, checking := Abs(), Reopening.CheckSteps(c.quota, reopenedFor, c.reopens);
      budget.SetPerDay(c.perDay);
      MaybeReopen(c);
      ghost var checked := Abs();
      var n: Option<nat>;
      n, p := RunOnce(BATCH_SIZE, c.usable, c.s, budget, c.now, c.today, c.db);
      sleeps := n.None? || n.value == 0;
      RunsJoin(was, checking, Steps(p, c.db), BATCH_SIZE);
      RunKeepsInv(checked, Steps(p, c.db), BATCH_SIZE);
      RoundStepsAre(c, old(reopenedFor), p);
      IsPassOver(RowsToClaim(old(rows), c, old(reopenedFor)), checked, p, c, rows);
      SleepsUnless(n, p, c.db);
    }

    method InsertAll(arrivals: seq<(Key, Row)>) returns (ghost run: seq<Queue.Event>)
      requires batch == {} && Inv(Abs())
      modifies this
      ensures batch == {} && Inv(Abs()) && cache == old(cache) && reopenedFor == old(reopenedFor)
      ensures rows == Arrived(old(rows), arrivals)
      ensures ValidRun(old(Abs()), run, BATCH_SIZE) && Abs() == After(old(Abs()), run)
    {
      run := [];
      ghost var was := Abs();
      for i := 0 to |arrivals|
        invariant batch == {} && Inv(Abs()) && cache == old(cache) && reopenedFor == old(reopenedFor)
        invariant rows == Arrived(old(rows), arrivals[..i])
        invariant ValidRun(was, run, BATCH_SIZE) && Abs() == After(was, run)
      {
        var (k, r) := arrivals[i];
        assert arrivals[..i + 1][..i] == arrivals[..i];
        if k !in rows {
          StepKeepsInv(Abs(), Queue.Event.Insert(k), BATCH_SIZE);
          OneStep(Abs(), Queue.Event.Insert(k), BATCH_SIZE);
          RunsJoin(was, run, [Queue.Event.Insert(k)], BATCH_SIZE);
          Insert(k, r.(status := Pending));
          run := run + [Queue.Event.Insert(k)];
        }
      }
      assert arrivals[..|arrivals|] == arrivals;
    }

    /** The worker's life: start-up and any number of rounds. The queue moves by its own steps only, and
        rows, window and cache are handed on from round to round. */
    method Work(databaseAnswers: bool, rounds: seq<Round>, budget: Refresh.RefreshBudget) returns (ghost life: Life)
      requires Inv(Abs())
      modifies this, budget
      ensures batch == {} && Inv(Abs())
      ensures ValidRun(old(Abs()), life.run, BATCH_SIZE) && Abs() == After(old(Abs()), life.run)
      ensures Lived(life, rounds)
      ensures life.tables[0] == (if databaseAnswers then Released(old(rows)) else old(rows))
      ensures life.windows[0] == 0 && life.caches[0] == old(cache)
      ensures life.tables[|rounds|] == rows && life.windows[|rounds|] == reopenedFor && life.caches[|rounds|] == cache
    {
      hide *;
      ghost var was := Abs();
      RestartStep(was, databaseAnswers);
      StartUp(databaseAnswers);
      life := Life([Restart(databaseAnswers)], [], [cache], [rows], [reopenedFor]);
      LifeBegins(life);
      assert rounds[..0] == [];
      for i := 0 to |rounds|
        invariant batch == {} && Inv(Abs())
        invariant ValidRun(was, life.run, BATCH_SIZE) && Abs() == After(was, life.run)
        invariant Lived(life, rounds[..i])
        invariant |life.tables| == |life.windows| == |life.caches| == i + 1
        invariant life.tables[0] == (if databaseAnswers then Released(old(rows)) else old(rows))
        invariant life.windows[0] == 0 && life.caches[0] == old(cache)
        invariant life.tables[i] == rows && life.windows[i] == reopenedFor && life.caches[i] == cache
      {
        var c := rounds[i].at;
        ghost var arrived := InsertAll(rounds[i].arrivals);
        RunsJoin(was, life.run, arrived, BATCH_SIZE);
        ghost var window, b := reopenedFor, budget.Now().(perDay := c.perDay);
        var sleeps, p := Iterate(c, budget);
        RunsJoin(was, life.run + arrived, RoundSteps(c, window, p), BATCH_SIZE);
        ghost var turn := Turn(p, c.s, c.now, Refresh.Left(b, c.today));
        ghost var more := Life(life.run + arrived + RoundSteps(c, window, p), life.turns + [turn],
                               life.caches + [cache], life.tables + [rows], life.windows + [reopenedFor]);
        LifeGoesOn(life, more, rounds[..i], rounds[i], turn);
        life := more;
        assert rounds[..i + 1] == rounds[..i] + [rounds[i]];
      }
      assert rounds[..|rounds|] == rounds;
    }
  }

  // ---- the claims

  lemma {:induction false} KeysOfSnoc(claimed: seq<Claimed>, c: Claimed)
    ensures KeysOf(claimed + [c]) == KeysOf(claimed) + {c.key}
    ensures DistinctKeys(claimed) && c.key !in KeysOf(claimed) ==> DistinctKeys(claimed + [c])
  {
    var all := claimed + [c];
    assert all[|claimed|] == c;
    forall k | k in KeysOf(claimed) ensures k in KeysOf(all) {
      var i :| 0 <= i < |claimed| && claimed[i].key == k;
      assert all[i].key == k;
    }
  }

  lemma {:induction false} CountKeys(claimed: seq<Claimed>)
    requires DistinctKeys(claimed)
    ensures |KeysOf(claimed)| == |claimed|
  {
    if claimed != [] {
      var front, last := claimed[..|claimed| - 1], claimed[|claimed| - 1];
      assert claimed == front + [last];
      CountKeys(front);
      KeysOfSnoc(front, last);
    }
  }

  lemma {:induction false} NothingClaimed(s: State, rows: map<Key, Row>, cache: Cache, usable: Address -> bool,
                                          db: Database, limit: nat, b: Refresh.Budget, now: int, today: int)
    ensures NO_PASS.claimed == [] && ClaimsFrom(rows, [], usable) && AfterPass(rows, NO_PASS, db) == rows
    ensures Marked(rows, KeysOf([])) == rows
    ensures !db.claims ==> ValidRun(s, Steps(NO_PASS, db), limit) && After(s, Steps(NO_PASS, db)) == s
    ensures Refresh.Spent(b, today, |Due(ThreatRemotes([]), cache, now)|) == b
  {
    assert Due({}, cache, now) == {} && ThreatRemotes([]) == {};
  }

  lemma {:induction false} SomethingClaimed(rows: map<Key, Row>, p: Pass, db: Database)
    requires p.claimed != []
    ensures AfterPass(rows, p, db) == WrittenBack(Marked(rows, KeysOf(p.claimed)), p, db)
  {}

  // ---- the lookups of one pass

  ghost predicate SameElsewhere(a: Cache, b: Cache, ip: Address) {
    forall o :: o != ip ==> Entry(b, o) == Entry(a, o)
  }

  /** The loop's picture: pass and cache after the addresses `done`, and what that cost of the allowance. */
  ghost predicate LooksSoFar(p: Pass, done: set<Address>, wants: set<Address>, s: Sources, was: Cache, cache: Cache,
                             now: int, b: Refresh.Budget, paid: Refresh.Budget, today: int) {
    var due := Due(wants * done, was, now);
    && LookedUp(p, done, wants, s, was, now)
    && CacheAfter(p, done, s, was, cache, now)
    && |Refreshed(p, was, now)| == Min(|due|, Refresh.Left(b, today))
    && paid == Refresh.Spent(b, today, |due|)
  }

  lemma {:induction false} NothingLookedUp(p: Pass, wants: set<Address>, s: Sources, cache: Cache, now: int,
                                           b: Refresh.Budget, today: int)
    requires p == NO_PASS.(claimed := p.claimed)
    ensures LooksSoFar(p, {}, wants, s, cache, cache, now, b, b, today)
  {
    assert wants * {} == {} && Due({}, cache, now) == {} && Refreshed(p, cache, now) == {};
  }

  lemma {:induction false} VisitedIs(a: Pass, ip: Address, e: Option<CacheEntry>, s: Sources, wanted: bool,
                                     refreshing: bool)
    ensures var asked := AsksThreat(e, s, ip, wanted, refreshing);
            Visited(a, ip, e, s, wanted, refreshing)
            == a.(geoAsked := a.geoAsked + (if AsksGeo(e) then [ip] else []),
                  threatAsked := a.threatAsked + (if asked then [ip] else []),
                  ranOut := a.ranOut || (asked && s.threat(ip).QuotaExhausted?),
                  facts := a.facts[ip := Learned(Known(e), s, ip, asked)])
  {}

  lemma {:induction false} StillUnmet(p: Pass, done: set<Address>, wants: set<Address>, s: Sources, was: Cache,
                                      cache: Cache, now: int, b: Refresh.Budget, paid: Refresh.Budget, today: int,
                                      ip: Address)
    requires LooksSoFar(p, done, wants, s, was, cache, now, b, paid, today) && ip !in done
    ensures Entry(cache, ip) == Entry(was, ip)
  {}

  lemma {:induction false} LookedUpAll(p: Pass, s: Sources, was: Cache, cache: Cache, now: int, b: Refresh.Budget,
                                       paid: Refresh.Budget, today: int)
    requires LooksSoFar(p, Remotes(p.claimed), ThreatRemotes(p.claimed), s, was, cache, now, b, paid, today)
    ensures LooksUp(p, s, was, cache, now, Refresh.Left(b, today))
    ensures paid == Refresh.Spent(b, today, |Due(ThreatRemotes(p.claimed), was, now)|)
  {
    assert ThreatRemotes(p.claimed) * Remotes(p.claimed) == ThreatRemotes(p.claimed);
  }

  /** One more address may be due. */
  lemma {:induction false} OneMoreDue(done: set<Address>, ip: Address, wants: set<Address>, was: Cache, now: int)
    requires ip !in done
    ensures var due := ip in wants && Stale(Entry(was, ip), now);
            && Due(wants * (done + {ip}), was, now) == Due(wants * done, was, now) + (if due then {ip} else {})
            && |Due(wants * (done + {ip}), was, now)| == |Due(wants * done, was, now)| + (if due then 1 else 0)
  {
    var before, after := Due(wants * done, was, now), Due(wants * (done + {ip}), was, now);
    if ip in wants && Stale(Entry(was, ip), now) {
      assert after == before + {ip};
    } else {
      assert after == before;
    }
  }

  lemma {:induction false} LooksSoFarMeans(p: Pass, done: set<Address>, wants: set<Address>, s: Sources, was: Cache,
                                           cache: Cache, now: int, b: Refresh.Budget, paid: Refresh.Budget, today: int)
    ensures LooksSoFar(p, done, wants, s, was, cache, now, b, paid, today)
       <==> && LookedUp(p, done, wants, s, was, now)
            && CacheAfter(p, done, s, was, cache, now)
            && |Refreshed(p, was, now)| == Min(|Due(wants * done, was, now)|, Refresh.Left(b, today))
            && paid == Refresh.Spent(b, today, |Due(wants * done, was, now)|)
    ensures LookedUp(p, done, wants, s, was, now) ==> ThreatOnce(p, done, wants, s, was, now)
  {}

  lemma {:induction false} OneMoreCounts(due: nat, left: nat, more: bool, granted: bool)
    requires granted <==> more && due < left
    ensures Min(due, left) + (if granted then 1 else 0) == Min(due + (if more then 1 else 0), left)
  {}

  /** One more address: its due rating is refreshed if the allowance grants it, and paid for. */
  lemma {:induction false} OneMore(a: Pass, done: set<Address>, ip: Address, wants: set<Address>, s: Sources,
                                   was: Cache, middle: Cache, cache: Cache, now: int, budget: Refresh.Budget,
                                   paid: Refresh.Budget, paidNow: Refresh.Budget, today: int, refreshing: bool)
    requires LooksSoFar(a, done, wants, s, was, middle, now, budget, paid, today) && ip !in done
    requires var e := Entry(was, ip);
             var due := ip in wants && Stale(e, now);
             && refreshing == (due && Refresh.Grants(paid, today))
             && paidNow == (if due then Refresh.Taken(paid, today) else paid)
             && Entry(cache, ip) == EntryAfter(e, s, ip, AsksThreat(e, s, ip, ip in wants, refreshing), refreshing, now)
    requires SameElsewhere(middle, cache, ip)
    ensures LooksSoFar(Visited(a, ip, Entry(was, ip), s, ip in wants, refreshing), done + {ip}, wants, s, was, cache,
                       now, budget, paidNow, today)
  {
    hide *;
    var b, due := Visited(a, ip, Entry(was, ip), s, ip in wants, refreshing), |Due(wants * done, was, now)|;
    LooksSoFarMeans(a, done, wants, s, was, middle, now, budget, paid, today);
    OneRound(a, done, ip, wants, s, was, now, refreshing);
    OneMoreDue(done, ip, wants, was, now);
    NotAskedYet(a, done, ip, wants, s, was, now);
    VisitAsks(a, ip, Entry(was, ip), s, ip in wants, refreshing);
    DueIsRefreshed(Entry(was, ip), s, ip, ip in wants, refreshing, now);
    OneMoreRefreshed(a, b, ip, was, now, refreshing);
    Refresh.OneTakeMore(budget, today, due);
    OneMoreCounts(due, Refresh.Left(budget, today), ip in wants && Stale(Entry(was, ip), now), refreshing);
    OneMoreEntry(a, b, done, ip, s, was, middle, cache, now, refreshing);
    LooksSoFarMeans(b, done + {ip}, wants, s, was, cache, now, budget, paidNow, today);
  }

  lemma {:induction false} OneMoreEntry(a: Pass, b: Pass, done: set<Address>, ip: Address, s: Sources, was: Cache,
                                        middle: Cache, cache: Cache, now: int, refreshing: bool)
    requires CacheAfter(a, done, s, was, middle, now) && ip !in done && SameElsewhere(middle, cache, ip)
    requires ip !in a.threatAsked && forall o :: o != ip ==> (o in b.threatAsked <==> o in a.threatAsked)
    requires Refreshed(b, was, now) == Refreshed(a, was, now) + (if refreshing then {ip} else {})
    requires Entry(cache, ip) == EntryAfter(Entry(was, ip), s, ip, ip in b.threatAsked, refreshing, now)
    ensures CacheAfter(b, done + {ip}, s, was, cache, now)
  {
    hide EntryAfter, Entry;
    assert ip !in Refreshed(a, was, now);
    forall o
      ensures Entry(cache, o) ==
              if o in done + {ip}
              then EntryAfter(Entry(was, o), s, o, o in b.threatAsked, o in Refreshed(b, was, now), now)
              else Entry(was, o)
    {
      if o != ip {
        assert Entry(cache, o) == Entry(middle, o);
      }
    }
  }

  // ---- what is written

  function UpdatesOf(p: Pass, claimed: seq<Claimed>): map<Key, (Status, IpFacts)> {
    if claimed == [] then map[]
    else
      var last := claimed[|claimed| - 1];
      UpdatesOf(p, claimed[..|claimed| - 1])[last.key := UpdateOf(p, last)]
  }

  lemma {:induction false} UpdatesSnoc(p: Pass, claimed: seq<Claimed>, c: Claimed)
    ensures UpdatesOf(p, claimed + [c]) == UpdatesOf(p, claimed)[c.key := UpdateOf(p, c)]
  {
    assert (claimed + [c])[..|claimed|] == claimed;
  }

  lemma {:induction false} UpdatesHold(p: Pass, claimed: seq<Claimed>)
    requires DistinctKeys(claimed)
    ensures UpdatesOf(p, claimed).Keys == KeysOf(claimed)
    ensures forall j :: 0 <= j < |claimed| ==> UpdatesOf(p, claimed)[claimed[j].key] == UpdateOf(p, claimed[j])
  {
    if claimed != [] {
      var front, last := claimed[..|claimed| - 1], claimed[|claimed| - 1];
      assert claimed == front + [last];
      UpdatesHold(p, front);
      KeysOfSnoc(front, last);
    }
  }

  lemma {:induction false} CategoriesSnoc(p: Pass, claimed: seq<Claimed>, c: Claimed)
    ensures FlatMap(claimed + [c], CategoryOf(p)) == FlatMap(claimed, CategoryOf(p)) + CategoryOf(p)(c)
  {
    FlatMapAppend(claimed, [c], CategoryOf(p));
    FlatMapOne(c, CategoryOf(p));
  }

  function CategoryKeys(updates: seq<(Key, seq<string>)>): set<Key> {
    set i | 0 <= i < |updates| :: updates[i].0
  }

  /** Category updates touch nothing but categories, and only of the rows they name. */
  lemma {:induction false} CategoriesOnly(rows: map<Key, Row>, updates: seq<(Key, seq<string>)>)
    ensures var r := WithCategories(rows, updates);
            && r.Keys == rows.Keys
            && (forall k :: k in rows ==>
                  && r[k] == rows[k].(facts := rows[k].facts.(threatCategories := r[k].facts.threatCategories))
                  && (k !in CategoryKeys(updates) ==> r[k] == rows[k]))
  {
    if updates != [] {
      var front := updates[..|updates| - 1];
      CategoriesOnly(rows, front);
      forall k | k in CategoryKeys(front) ensures k in CategoryKeys(updates) {
        var i :| 0 <= i < |front| && front[i].0 == k;
        assert updates[i].0 == k;
      }
      assert updates[|updates| - 1].0 in CategoryKeys(updates);
    }
  }

  predicate DistinctUpdates(updates: seq<(Key, seq<string>)>) {
    forall a, b :: 0 <= a < b < |updates| ==> updates[a].0 != updates[b].0
  }

  lemma {:induction false} CategoriesLand(rows: map<Key, Row>, updates: seq<(Key, seq<string>)>, i: nat)
    requires DistinctUpdates(updates)
    requires i < |updates| && updates[i].0 in rows
    ensures updates[i].0 in WithCategories(rows, updates)
    ensures WithCategories(rows, updates)[updates[i].0].facts.threatCategories == Some(updates[i].1)
  {
    var front := updates[..|updates| - 1];
    CategoriesOnly(rows, front);
    if i < |front| {
      CategoriesLand(rows, front, i);
    }
  }

  lemma {:induction false} CategoriesDistinct(p: Pass, claimed: seq<Claimed>)
    requires DistinctKeys(claimed)
    ensures DistinctUpdates(FlatMap(claimed, CategoryOf(p)))
  {
    if claimed != [] {
      var first, rest := claimed[0], claimed[1..];
      CategoriesDistinct(p, rest);
      var u := FlatMap(rest, CategoryOf(p));
      forall i | 0 <= i < |u| ensures u[i].0 != first.key {
        FlatMapMember(rest, CategoryOf(p), u[i]);
        var c :| c in rest && u[i] in CategoryOf(p)(c);
        var k :| 0 <= k < |rest| && rest[k] == c;
        assert claimed[k + 1] == c;
      }
    }
  }

  /** A claim without categories has no category update. */
  lemma {:induction false} NoCategoryNoUpdate(p: Pass, j: nat)
    requires DistinctKeys(p.claimed) && j < |p.claimed| && CategoryOf(p)(p.claimed[j]) == []
    ensures p.claimed[j].key !in CategoryKeys(FlatMap(p.claimed, CategoryOf(p)))
  {
    var u := FlatMap(p.claimed, CategoryOf(p));
    forall i | 0 <= i < |u| ensures u[i].0 != p.claimed[j].key {
      FlatMapMember(p.claimed, CategoryOf(p), u[i]);
      var c :| c in p.claimed && u[i] in CategoryOf(p)(c);
      var k :| 0 <= k < |p.claimed| && p.claimed[k] == c;
      assert k != j;
    }
  }

  /** All of a row but its categories. */
  function SansCategories(r: Row): Row {
    r.(facts := r.facts.(threatCategories := None))
  }

  /** Of a claimed row, a write-back writes all but the categories, and these too if it gets that far. */
  ghost predicate RowWritten(r: Row, a: Row, c: Claimed, p: Pass, db: Database) {
    var want := RowAfter(r, c, p.facts, p.ranOut);
    && SansCategories(a) == SansCategories(want)
    && (a.facts.threatCategories == want.facts.threatCategories
        || a.facts.threatCategories == r.facts.threatCategories)
    && (Completes(p, db) ==> a == want)
  }

  lemma {:induction false} NoCategoryWritten(rows: map<Key, Row>, p: Pass, n: nat, j: nat)
    requires DistinctKeys(p.claimed) && j < |p.claimed| && p.claimed[j].key in rows && n <= |CategoryUpdates(p)|
    requires CategoryOf(p)(p.claimed[j]) == []
    ensures var k, after := p.claimed[j].key, WithCategories(rows, CategoryUpdates(p)[..n]);
            k in after && after[k] == rows[k]
  {
    var u := CategoryUpdates(p);
    CategoriesOnly(rows, u[..n]);
    NoCategoryNoUpdate(p, j);
    assert forall i :: 0 <= i < n ==> u[..n][i] == u[i];
  }

  /** The place of a claim's update in the list. */
  lemma {:induction false} CategoryPlace(p: Pass, j: nat) returns (i: nat)
    requires j < |p.claimed| && CategoryOf(p)(p.claimed[j]) != []
    ensures i < |CategoryUpdates(p)| && CategoryUpdates(p)[i].0 == p.claimed[j].key
    ensures FactsFor(p.claimed[j], p.facts).threatCategories == Some(CategoryUpdates(p)[i].1)
  {
    var u, update := CategoryUpdates(p), CategoryOf(p)(p.claimed[j])[0];
    FlatMapMember(p.claimed, CategoryOf(p), update);
    i :| 0 <= i < |u| && u[i] == update;
  }

  /** An update that gets through is written, one that does not leaves the row alone. */
  lemma {:induction false} UpdateWritten(rows: map<Key, Row>, u: seq<(Key, seq<string>)>, n: nat, i: nat)
    requires DistinctUpdates(u)
    requires i < |u| && n <= |u| && u[i].0 in rows
    ensures var after := WithCategories(rows, u[..n]);
            && u[i].0 in after
            && after[u[i].0].facts.threatCategories
               == if i < n then Some(u[i].1) else rows[u[i].0].facts.threatCategories
  {
    CategoriesOnly(rows, u[..n]);
    if i < n {
      CategoriesLand(rows, u[..n], i);
    } else {
      assert u[i].0 !in CategoryKeys(u[..n]);
    }
  }

  lemma {:induction false} CategoryWritten(rows: map<Key, Row>, p: Pass, n: nat, j: nat)
    requires DistinctKeys(p.claimed) && j < |p.claimed| && p.claimed[j].key in rows && n <= |CategoryUpdates(p)|
    ensures var c := p.claimed[j];
            var after := WithCategories(rows, CategoryUpdates(p)[..n]);
            && c.key in after
            && var cats := after[c.key].facts.threatCategories;
            && (CategoryOf(p)(c) == [] ==> cats == rows[c.key].facts.threatCategories)
            && (cats == rows[c.key].facts.threatCategories || cats == FactsFor(c, p.facts).threatCategories)
            && (n == |CategoryUpdates(p)| && CategoryOf(p)(c) != [] ==>
                  cats == FactsFor(c, p.facts).threatCategories)
  {
    hide WithCategories;
    if CategoryOf(p)(p.claimed[j]) == [] {
      NoCategoryWritten(rows, p, n, j);
    } else {
      var i := CategoryPlace(p, j);
      CategoriesDistinct(p, p.claimed);
      assert DistinctUpdates(CategoryUpdates(p));
      UpdateWritten(rows, CategoryUpdates(p), n, i);
    }
  }

  lemma {:induction false} WrittenRow(rows: map<Key, Row>, p: Pass, db: Database, j: nat)
    requires DistinctKeys(p.claimed) && KeysOf(p.claimed) <= rows.Keys && j < |p.claimed| && db.writes
    ensures var k := p.claimed[j].key;
            && k in rows && k in WrittenBack(rows, p, db)
            && RowWritten(rows[k], WrittenBack(rows, p, db)[k], p.claimed[j], p, db)
  {
    var u, c := CategoryUpdates(p), p.claimed[j];
    var n := Min(db.categories, |u|);
    assert c.key in KeysOf(p.claimed);
    UpdatesHold(p, p.claimed);
    CategoriesOnly(Updated(rows, p), u[..n]);
    CategoryWritten(Updated(rows, p), p, n, j);
  }

  lemma {:induction false} UnclaimedRows(rows: map<Key, Row>, p: Pass, db: Database)
    requires DistinctKeys(p.claimed)
    ensures var after := WrittenBack(rows, p, db);
            after.Keys == rows.Keys && forall k :: k in rows && k !in KeysOf(p.claimed) ==> after[k] == rows[k]
  {
    var n := Min(db.categories, |CategoryUpdates(p)|);
    UpdatesHold(p, p.claimed);
    CategoriesOnly(Updated(rows, p), CategoryUpdates(p)[..n]);
    CategoryKeysAreClaimed(p, n);
  }

  lemma {:induction false} CategoryKeysAreClaimed(p: Pass, n: nat)
    requires n <= |FlatMap(p.claimed, CategoryOf(p))|
    ensures CategoryKeys(FlatMap(p.claimed, CategoryOf(p))[..n]) <= KeysOf(p.claimed)
  {
    var u := FlatMap(p.claimed, CategoryOf(p));
    forall i | 0 <= i < n ensures u[i].0 in KeysOf(p.claimed) {
      FlatMapMember(p.claimed, CategoryOf(p), u[i]);
      var c :| c in p.claimed && u[i] in CategoryOf(p)(c);
      var m :| 0 <= m < |p.claimed| && p.claimed[m] == c;
      assert p.claimed[m].key == u[i].0;
    }
  }

  // ---- the queue's view

  lemma {:induction false} DeferredAreClaimed(p: Pass)
    ensures DeferredKeys(p) <= KeysOf(p.claimed)
  {}

  lemma {:induction false} WrittenStatus(rows: map<Key, Row>, p: Pass, db: Database, k: Key)
    requires DistinctKeys(p.claimed) && KeysOf(p.claimed) <= rows.Keys && db.writes && k in KeysOf(p.claimed)
    ensures k in WrittenBack(rows, p, db)
    ensures WrittenBack(rows, p, db)[k].status == if k in DeferredKeys(p) then Deferred else Done
  {
    var j :| 0 <= j < |p.claimed| && p.claimed[j].key == k;
    WrittenRow(rows, p, db, j);
  }

  /** In terms of the queue: the pass's rows are done or deferred, nothing else moves. */
  lemma {:induction false} WriteBackSteps(s: State, rows: map<Key, Row>, p: Pass, db: Database)
    requires s.status == Statuses(rows) && s.batch == KeysOf(p.claimed)
    requires DistinctKeys(p.claimed) && KeysOf(p.claimed) <= rows.Keys && db.writes
    ensures Statuses(WrittenBack(rows, p, db)) == Apply(s, Queue.Event.WriteBack(DeferredKeys(p))).status
  {
    UnclaimedRows(rows, p, db);
    forall k | k in rows && k in KeysOf(p.claimed)
      ensures WrittenBack(rows, p, db)[k].status == if k in DeferredKeys(p) then Deferred else Done
    {
      WrittenStatus(rows, p, db, k);
    }
  }

  function LastStep(p: Pass, db: Database): Queue.Event {
    if db.writes then Queue.Event.WriteBack(DeferredKeys(p)) else WriteBackFails
  }

  lemma {:induction false} OneStep(s: State, a: Queue.Event, limit: nat)
    ensures After(s, [a]) == Apply(s, a)
    ensures ValidRun(s, [a], limit) <==> Enabled(s, a, limit)
  {}

  lemma {:induction false} RunsJoin(s: State, a: seq<Queue.Event>, b: seq<Queue.Event>, limit: nat)
    requires ValidRun(s, a, limit) && ValidRun(After(s, a), b, limit)
    ensures ValidRun(s, a + b, limit) && After(s, a + b) == After(After(s, a), b)
    decreases |a|
  {
    if a == [] {
      assert a + b == b;
    } else {
      assert (a + b)[0] == a[0] && (a + b)[1..] == a[1..] + b;
      RunsJoin(Apply(s, a[0]), a[1..], b, limit);
    }
  }

  /** The steps of a pass are steps of the queue. */
  lemma {:induction false} StepsTaken(s: State, p: Pass, db: Database, limit: nat)
    requires db.claims && Enabled(s, Queue.Event.Claim(KeysOf(p.claimed)), limit)
    ensures ValidRun(s, Steps(p, db), limit)
    ensures var claimed := Apply(s, Queue.Event.Claim(KeysOf(p.claimed)));
            After(s, Steps(p, db)) == if p.claimed == [] then claimed else Apply(claimed, LastStep(p, db))
  {
    var claim, last := Queue.Event.Claim(KeysOf(p.claimed)), LastStep(p, db);
    OneStep(s, claim, limit);
    if p.claimed == [] {
      assert Steps(p, db) == [claim];
    } else {
      assert p.claimed[0].key in KeysOf(p.claimed);
      DeferredAreClaimed(p);
      OneStep(Apply(s, claim), last, limit);
      RunsJoin(s, [claim], [last], limit);
    }
  }

  // ---- what a pass means

  /** What the pass learned of a row's own far end. */
  function FarEndFacts(r: Row, p: Pass, s: Sources, cache: Cache, usable: Address -> bool): IpFacts {
    var remote := RemoteOf(r, usable);
    if remote.None? then NO_FACTS
    else Learned(Known(Entry(cache, remote.value)), s, remote.value, remote.value in p.threatAsked)
  }

  /** A row has the facts of its own far end, and is deferred exactly if it wants a score, has a far end,
      ends without one, and a lookup of the pass was refused for quota; otherwise it is done. Categories
      come last, and an empty list leaves the old ones. */
  predicate Settled(r: Row, a: Row, p: Pass, s: Sources, cache: Cache, usable: Address -> bool, db: Database) {
    var f := FarEndFacts(r, p, s, cache, usable);
    && a.facts.(threatCategories := None) == f.(threatCategories := None)
    && (Completes(p, db) ==>
          a.facts.threatCategories
          == if f.threatCategories.Some? && f.threatCategories.value != [] then f.threatCategories
             else r.facts.threatCategories)
    && a.status == if && WantsThreat(r) && RemoteOf(r, usable).Some? && a.facts.threatScore.None?
                      && Refused(s, p.threatAsked)
                   then Deferred else Done
  }

  /** What became of a row: untouched, left in progress, or written with the facts of its own far end. */
  ghost predicate RowAccounts(k: Key, r: Row, a: Row, p: Pass, s: Sources, cache: Cache, usable: Address -> bool,
                              db: Database) {
    if k !in KeysOf(p.claimed) then a == r
    else if !db.writes then a == r.(status := InProgress)
    else RowWritten(r, a, ClaimOf(k, r, usable), p, db) && Settled(r, a, p, s, cache, usable, db)
  }

  ghost predicate Accounts(before: map<Key, Row>, after: map<Key, Row>, p: Pass, s: Sources, cache: Cache,
                           usable: Address -> bool, db: Database) {
    && after.Keys == before.Keys
    && forall k :: k in before ==> RowAccounts(k, before[k], after[k], p, s, cache, usable, db)
  }

  lemma {:induction false} ClaimedRowAccounts(rows: map<Key, Row>, p: Pass, s: Sources, cache: Cache, now: int,
                                              usable: Address -> bool, db: Database, j: nat)
    requires ClaimsFrom(rows, p.claimed, usable) && j < |p.claimed|
    requires LookedUp(p, Remotes(p.claimed), ThreatRemotes(p.claimed), s, cache, now)
    ensures var k := p.claimed[j].key;
            && k in AfterPass(rows, p, db)
            && RowAccounts(k, rows[k], AfterPass(rows, p, db)[k], p, s, cache, usable, db)
  {
    var c, marked := p.claimed[j], Marked(rows, KeysOf(p.claimed));
    assert c.key in KeysOf(p.claimed);
    if db.writes {
      WrittenRow(marked, p, db, j);
      assert c.remote.Some? ==> c.remote.value in Remotes(p.claimed);
    }
  }

  /** Every pass accounts for every row. */
  lemma {:induction false} PassAccounts(rows: map<Key, Row>, p: Pass, s: Sources, cache: Cache, now: int,
                                        usable: Address -> bool, db: Database)
    requires ClaimsFrom(rows, p.claimed, usable)
    requires LookedUp(p, Remotes(p.claimed), ThreatRemotes(p.claimed), s, cache, now)
    ensures Accounts(rows, AfterPass(rows, p, db), p, s, cache, usable, db)
  {
    UnclaimedRows(Marked(rows, KeysOf(p.claimed)), p, db);
    var after := AfterPass(rows, p, db);
    forall k | k in rows ensures k in after && RowAccounts(k, rows[k], after[k], p, s, cache, usable, db) {
      if k in KeysOf(p.claimed) {
        var j :| 0 <= j < |p.claimed| && p.claimed[j].key == k;
        ClaimedRowAccounts(rows, p, s, cache, now, usable, db, j);
      }
    }
  }

  /** A rating asked for anew is what the row gets. */
  lemma {:induction false} RefreshedRatingIsWritten(rows: map<Key, Row>, after: map<Key, Row>, p: Pass, s: Sources,
                                                    cache: Cache, now: int, usable: Address -> bool, db: Database,
                                                    k: Key, ip: Address, t: IpFacts)
    requires Accounts(rows, after, p, s, cache, usable, db) && db.writes
    requires k in KeysOf(p.claimed) && k in rows && RemoteOf(rows[k], usable) == Some(ip)
    requires ip in Refreshed(p, cache, now) && s.threat(ip) == Found(t)
    ensures k in after
    ensures var f := after[k].facts;
            && f.threatScore == t.threatScore && f.totalReports == t.totalReports
            && f.lastReported == t.lastReported && f.isTor == t.isTor && f.usageType == t.usageType
            && (Completes(p, db) && t.threatCategories.Some? && t.threatCategories.value != [] ==>
                  f.threatCategories == t.threatCategories)
  {
    RefreshedRatingArrives(Entry(cache, ip), s, ip, now, t);
    assert RowAccounts(k, rows[k], after[k], p, s, cache, usable, db);
    hide Learned, RowWritten, Stale;
  }

  predicate IsBlockedFarEnd(rows: map<Key, Row>, usable: Address -> bool, ip: Address) {
    exists k :: k in rows && rows[k].logTypeId == 1 && rows[k].actionId == Some(2)
                && RemoteOf(rows[k], usable) == Some(ip)
  }

  /** Only far ends of blocked firewall rows cost quota, and none twice in a pass. */
  lemma {:induction false} QuotaGoesToBlockedRows(rows: map<Key, Row>, p: Pass, s: Sources, cache: Cache, now: int,
                                                  usable: Address -> bool)
    requires ClaimsFrom(rows, p.claimed, usable)
    requires LookedUp(p, Remotes(p.claimed), ThreatRemotes(p.claimed), s, cache, now)
    ensures NoRepeats(p.threatAsked)
    ensures forall ip :: ip in p.threatAsked ==> IsBlockedFarEnd(rows, usable, ip)
  {
    forall ip | ip in p.threatAsked ensures IsBlockedFarEnd(rows, usable, ip) {
      assert ip in ThreatRemotes(p.claimed);
      var j :| 0 <= j < |p.claimed| && p.claimed[j].wantsThreat && p.claimed[j].remote == Some(ip);
      assert p.claimed[j].key in rows;
    }
  }

  // ---- the loop

  lemma {:induction false} RoundStepsAre(c: Conditions, reopenedFor: int, p: Pass)
    ensures RoundSteps(c, reopenedFor, p)
            == Reopening.CheckSteps(c.quota, reopenedFor, c.reopens) + Steps(p, c.db)
  {}

  lemma {:induction false} SleepsUnless(n: Option<nat>, p: Pass, db: Database)
    requires n == if db.claims && (p.claimed == [] || Completes(p, db)) then Some(|p.claimed|) else None
    ensures n.None? || n.value == 0 <==> !(db.claims && p.claimed != [] && Completes(p, db))
  {}

  lemma {:induction false} RestartStep(s: State, releases: bool)
    requires Inv(s)
    ensures ValidRun(s, [Restart(releases)], BATCH_SIZE) && After(s, [Restart(releases)]) == Apply(s, Restart(releases))
    ensures Inv(Apply(s, Restart(releases)))
  {
    StepKeepsInv(s, Restart(releases), BATCH_SIZE);
    OneStep(s, Restart(releases), BATCH_SIZE);
  }

  /** The rows that wait in the queue are the pending ones. */
  lemma {:induction false} IsPassOver(found: map<Key, Row>, checked: State, p: Pass, c: Conditions,
                                      after: map<Key, Row>)
    requires checked.status == Statuses(found) && ClaimsFrom(found, p.claimed, c.usable)
    requires if c.db.claims then Newest(KeysOf(p.claimed), Waiting(checked), BATCH_SIZE) else p == NO_PASS
    requires after == AfterPass(found, p, c.db)
    ensures PassOver(found, p, c, after)
  {
    hide ClaimsFrom, AfterPass, Newest;
    assert Waiting(checked) == PendingOf(found);
  }

  lemma {:induction false} LifeBegins(life: Life)
    requires life.turns == [] && |life.caches| == 1 && |life.tables| == 1 && |life.windows| == 1
    ensures Lived(life, [])
  {}

  lemma {:induction false} LifeGoesOn(life: Life, more: Life, rounds: seq<Round>, r: Round, t: Turn)
    requires Lived(life, rounds) && |life.caches| == |rounds| + 1
    requires |more.caches| == |more.tables| == |more.windows| == |rounds| + 2
    requires more.turns == life.turns + [t]
    requires more.caches == life.caches + [more.caches[|rounds| + 1]]
    requires more.tables == life.tables + [more.tables[|rounds| + 1]]
    requires more.windows == life.windows + [more.windows[|rounds| + 1]]
    requires t.s == r.at.s && t.now == r.at.now
    requires LooksUp(t.p, t.s, life.caches[|rounds|], more.caches[|rounds| + 1], t.now, t.left)
    requires var found := RowsToClaim(Arrived(life.tables[|rounds|], r.arrivals), r.at, life.windows[|rounds|]);
             PassOver(found, t.p, r.at, more.tables[|rounds| + 1])
    requires more.windows[|rounds| + 1] == WindowAfter(r.at, life.windows[|rounds|])
    ensures Lived(more, rounds + [r])
  {
    hide PassOver, LooksUp, WindowAfter, RowsToClaim, Arrived;
    ChainGrows(life.caches, life.turns, t, more.caches[|rounds| + 1]);
    hide Chain;
    var all := rounds + [r];
    forall i | 0 <= i < |all| ensures LivedRound(more, all, i) {
      if i < |rounds| {
        assert LivedRound(life, rounds, i);
      }
    }
  }

  lemma {:induction false} ChainGrows(caches: seq<Cache>, turns: seq<Turn>, t: Turn, cache: Cache)
    requires Chain(caches, turns)
    requires LooksUp(t.p, t.s, caches[|turns|], cache, t.now, t.left)
    ensures Chain(caches + [cache], turns + [t])
  {
    hide LooksUp;
    forall i | 0 <= i < |turns| ensures Link(caches + [cache], turns + [t], i) {
      assert Link(caches, turns, i);
    }
  }
}
