/** The short memory for aggregate answers. */
module Cache {
  import opened Basics
  import opened Text

  newtype byte = x: int | 0 <= x < 256

  const SECOND := 1_000_000_000
  const TTL := 20 * SECOND
  const MAX_ENTRIES := 128
  const MAX_BODY := 4 * 0x10_0000

  const CACHEABLE: set<string> := {
    "/api/stats", "/api/stats/series", "/api/stats/top", "/api/stats/ip-pairs", "/api/logs/count",
    "/api/threats/points", "/api/flows/sankey", "/api/flows/zones", "/api/flows/host-detail"
  }

  /** An answer, and when it was stored, in nanoseconds of the monotone clock. */
  datatype Entry = Entry(at: nat, body: seq<byte>)

  /** The history the cache refines: every answer it ever accepted. */
  datatype Accepted = Accepted(key: string, entry: Entry)

  ghost function Latest(log: seq<Accepted>, key: string): Option<Entry> {
    if log == [] then None
    else if log[|log| - 1].key == key then Some(log[|log| - 1].entry)
    else Latest(log[..|log| - 1], key)
  }

  /** How many answers were accepted at `t` or after it. */
  ghost function CountSince(log: seq<Accepted>, t: nat): nat {
    if log == [] then 0
    else CountSince(log[..|log| - 1], t) + if log[|log| - 1].entry.at >= t then 1 else 0
  }

  predicate Expired(e: Entry, now: nat) {
    now > e.at + TTL
  }

  lemma {:induction false} LatestAfter(log: seq<Accepted>, a: Accepted, key: string)
    ensures Latest(log + [a], key) == if a.key == key then Some(a.entry) else Latest(log, key)
  {}

  lemma {:induction false} CountAfter(log: seq<Accepted>, a: Accepted, t: nat)
    ensures CountSince(log + [a], t) == CountSince(log, t) + if a.entry.at >= t then 1 else 0
  {}

  /** Different keys last stored at `t` or later account for as many acceptances. */
  lemma {:induction false} KeysAreCounted(log: seq<Accepted>, keys: set<string>, t: nat)
    requires forall k :: k in keys ==> Latest(log, k).Some? && Latest(log, k).value.at >= t
    ensures |keys| <= CountSince(log, t)
  {
    if log == [] {
      assert forall k :: k in keys ==> k !in keys;
    } else {
      var last := log[|log| - 1];
      KeysAreCounted(log[..|log| - 1], keys - {last.key}, t);
      if last.key in keys {
        assert keys == (keys - {last.key}) + {last.key};
      } else {
        assert keys - {last.key} == keys;
      }
    }
  }

  predicate IsOldest(entries: map<string, Entry>, key: string) {
    key in entries && forall k :: k in entries ==> entries[key].at <= entries[k].at
  }

  lemma {:induction false} OldestExists(entries: map<string, Entry>)
    requires |entries| > 0
    ensures exists key :: IsOldest(entries, key)
    decreases |entries|
  {
    var k :| k in entries;
    var rest := entries - {k};
    if |rest| == 0 {
      assert entries.Keys == {k} by {
        assert rest.Keys == entries.Keys - {k};
      }
      assert IsOldest(entries, k);
    } else {
      assert rest.Keys == entries.Keys - {k};
      OldestExists(rest);
      var o :| IsOldest(rest, o);
      var older := if entries[k].at < entries[o].at then k else o;
      forall j | j in entries ensures entries[older].at <= entries[j].at {
        assert j == k || j in rest;
      }
      assert IsOldest(entries, older);
    }
  }

  // ---- what holds between the entries and the history

  ghost predicate Sound(entries: map<string, Entry>, log: seq<Accepted>, now: nat) {
    forall k :: k in entries ==> Latest(log, k) == Some(entries[k]) && entries[k].at <= now
  }

  /** The latest answer for `k` is fresh, and at most 128 were accepted since, itself among them. */
  ghost predicate Kept(log: seq<Accepted>, now: nat, k: string) {
    var latest := Latest(log, k);
    latest.Some? && !Expired(latest.value, now) && CountSince(log, latest.value.at) <= MAX_ENTRIES
  }

  /** In seconds and numbers: the latest answer for a key, not older than 20 seconds, with no more than 127
      accepted behind it. */
  lemma {:induction false} LatestIsKept(log: seq<Accepted>, now: nat, k: string, e: Entry)
    ensures Latest(log, k) == Some(e) && now <= e.at + 20_000_000_000 && CountSince(log, e.at) <= 128
       <==> Kept(log, now, k) && Latest(log, k) == Some(e)
  {}

  ghost predicate Complete(entries: map<string, Entry>, log: seq<Accepted>, now: nat) {
    forall k :: Kept(log, now, k) ==> k in entries
  }

  /** `retain`: what has not expired. */
  function Fresh(entries: map<string, Entry>, now: nat): map<string, Entry> {
    map k | k in entries && !Expired(entries[k], now) :: entries[k]
  }

  lemma {:induction false} FreshHolds(entries: map<string, Entry>, log: seq<Accepted>, clock: nat, now: nat)
    requires Sound(entries, log, clock) && Complete(entries, log, clock) && clock <= now
    ensures var kept := Fresh(entries, now);
            Sound(kept, log, now) && Complete(kept, log, now) && |kept| <= |entries|
  {
    var kept := Fresh(entries, now);
    assert kept.Keys <= entries.Keys;
    SubsetIsSmaller(kept.Keys, entries.Keys);
    forall k | Kept(log, now, k) ensures k in kept {
      assert Kept(log, clock, k);
    }
  }

  /** One more answer, with the oldest entry gone if the memory was full. */
  lemma {:induction false} InsertHolds(kept: map<string, Entry>, log: seq<Accepted>, now: nat, gone: set<string>,
                                       key: string, body: seq<byte>)
    requires Sound(kept, log, now) && Complete(kept, log, now)
    requires gone != {} ==> |kept| >= MAX_ENTRIES
    requires forall k :: k in gone ==> IsOldest(kept, k)
    ensures var after, more := (kept - gone)[key := Entry(now, body)], log + [Accepted(key, Entry(now, body))];
            Sound(after, more, now) && Complete(after, more, now)
  {
    var a := Accepted(key, Entry(now, body));
    var after := (kept - gone)[key := Entry(now, body)];
    forall k | k in after ensures Latest(log + [a], k) == Some(after[k]) {
      LatestAfter(log, a, k);
    }
    forall k | Kept(log + [a], now, k) ensures k in after {
      LatestAfter(log, a, k);
      if k != key {
        var t := Latest(log, k).value.at;
        CountAfter(log, a, t);
        assert Kept(log, now, k);
        if k in gone {
          KeysAreCounted(log, kept.Keys, t);
        }
      }
    }
  }

  lemma {:induction false} Added<V>(m: map<string, V>, key: string, v: V)
    ensures |m[key := v]| <= |m| + 1
  {}

  /** If the memory is full, one of the oldest entries goes; which one, where several are equally old,
      is open. */
  method MakeRoom(all: map<string, Entry>) returns (kept: map<string, Entry>, ghost gone: set<string>)
    requires |all| <= MAX_ENTRIES
    ensures kept == all - gone && |kept| < MAX_ENTRIES
    ensures gone != {} ==> |all| >= MAX_ENTRIES
    ensures forall k :: k in gone ==> IsOldest(all, k)
  {
    kept, gone := all, {};
    if |all| >= MAX_ENTRIES {
      OldestExists(all);
      var oldest :| IsOldest(all, oldest);
      kept, gone := all - {oldest}, {oldest};
      assert kept.Keys == all.Keys - {oldest};
    }
  }

  class ResponseCache {
    var entries: map<string, Entry>
    ghost var log: seq<Accepted>
    ghost var clock: nat

    /** Every entry is the latest answer accepted for its key; a fresh answer is only missing if enough
        others came after it; and there are never more than the limit. */
    ghost predicate Valid()
      reads this
    {
      |entries| <= MAX_ENTRIES && Sound(entries, log, clock) && Complete(entries, log, clock)
    }

    constructor ()
      ensures Valid() && log == [] && clock == 0 && entries == map[]
    {
      entries, log, clock := map[], [], 0;
    }

    /** A hit is the body of the latest accepted answer and at most twenty seconds old; and the latest
        answer is a hit for twenty seconds, unless 128 others were accepted behind it. */
    method Get(key: string, now: nat) returns (body: Option<seq<byte>>)
      requires Valid() && clock <= now
      modifies this
      ensures Valid() && clock == now && log == old(log)
      ensures body.Some? ==> Latest(log, key).Some? && Latest(log, key).value.body == body.value
                             && now - Latest(log, key).value.at <= TTL
      ensures Kept(log, now, key) ==> body.Some?
      ensures entries == if key in old(entries) && Expired(old(entries)[key], now) then old(entries) - {key}
                         else old(entries)
    {
      ghost var was := clock;
      clock := now;
      assert Complete(entries, log, now) by {
        assert forall k :: Kept(log, now, k) ==> Kept(log, was, k);
      }
      if key !in entries { return None; }
      var entry := entries[key];
      if now > entry.at + TTL {
        entries := entries - {key};
        return None;
      }
      return Some(entry.body);
    }

    /** An answer that is not too large is accepted; if the memory is full with fresh ones, the oldest
        goes. */
    method Put(key: string, body: seq<byte>, now: nat)
      requires Valid() && clock <= now
      modifies this
      ensures Valid() && clock == now
      ensures log == if |body| > 4_194_304 then old(log) else old(log) + [Accepted(key, Entry(now, body))]
      ensures |body| <= MAX_BODY ==> key in entries && entries[key] == Entry(now, body)
    {
      FreshHolds(entries, log, clock, now);
      clock := now;
      if |body| > MAX_BODY {
        assert forall k :: Kept(log, now, k) ==> k in Fresh(entries, now);
        return;
      }
      var all := Fresh(entries, now);
      var kept, gone := MakeRoom(all);
      InsertHolds(all, log, now, gone, key, body);
      Added(kept, key, Entry(now, body));
      entries := kept[key := Entry(now, body)];
      log := log + [Accepted(key, Entry(now, body))];
    }
  }

  // ---- the layer in front of the endpoints

  /** The key of a request: the path and the raw query. */
  function KeyOf(path: string, query: Option<string>): string {
    path + ['?'] + query.GetOr("")
  }

  /** Two requests share a key exactly if they ask for the same path with the same query text, no
      query counting as an empty one. */
  lemma {:induction false} KeysDiffer(p1: string, q1: Option<string>, p2: string, q2: Option<string>)
    requires '?' !in p1 && '?' !in p2
    ensures KeyOf(p1, q1) == KeyOf(p2, q2) <==> p1 == p2 && q1.GetOr("") == q2.GetOr("")
  {
    SplitOnceAt(p1, '?', q1.GetOr(""));
    SplitOnceAt(p2, '?', q2.GetOr(""));
  }

  datatype Response = Response(status: nat, body: seq<byte>)

  const OK := 200
  const INTERNAL_SERVER_ERROR := 500

  /** One request through the cache; `reply` is what the endpoint would answer, at `later`. */
  method Layer(cache: ResponseCache, isGet: bool, path: string, query: Option<string>, now: nat,
               reply: Response, later: nat) returns (response: Response)
    requires cache.Valid() && cache.clock <= now <= later
    modifies cache
    ensures cache.Valid() && cache.clock <= later
    ensures !isGet || path !in CACHEABLE ==> response == reply && cache.log == old(cache.log)
    ensures isGet && path in CACHEABLE ==>
              var key := KeyOf(path, query);
              var latest := Latest(old(cache.log), key);
              // from memory
              || (latest.Some? && response == Response(OK, latest.value.body) && now - latest.value.at <= TTL
                  && cache.log == old(cache.log))
              // from the endpoint, which no fresh answer spared
              || (!Kept(old(cache.log), now, key)
                  && if reply.status != OK then response == reply && cache.log == old(cache.log)
                     else if |reply.body| > MAX_BODY then
                       response == Response(INTERNAL_SERVER_ERROR, []) && cache.log == old(cache.log)
                     else
                       response == reply && cache.log == old(cache.log) + [Accepted(key, Entry(later, reply.body))])
  {
    if !isGet || path !in CACHEABLE { return reply; }
    var key := KeyOf(path, query);
    var hit := cache.Get(key, now);
    match hit {
      case Some(body) => return Response(OK, body);
      case None =>
    }
    if reply.status != OK { return reply; }
    if |reply.body| > MAX_BODY { return Response(INTERNAL_SERVER_ERROR, []); }
    cache.Put(key, reply.body, later);
    return reply;
  }
}
