/** One pass of the enrichment worker: what a row asks for, what is learned of an address, and what the
    cache keeps of it; and what that means over any sequence of passes. */
module Passes {
  import opened Basics
  import opened Net
  import opened Queue
  import Refresh

  datatype IpFacts = IpFacts(
    geoCountry: Option<string>, geoCity: Option<string>, geoLat: Option<real>, geoLon: Option<real>,
    asnNumber: Option<int>, asnName: Option<string>, rdns: Option<string>,
    threatScore: Option<int>, threatCategories: Option<seq<string>>, totalReports: Option<int>,
    lastReported: Option<int>, isTor: Option<bool>, usageType: Option<string>)

  const NO_FACTS := IpFacts(None, None, None, None, None, None, None, None, None, None, None, None, None)

  function OrElse<T>(a: Option<T>, b: Option<T>): Option<T> {
    if a.Some? then a else b
  }

  /** Takes from `b` only what `a` lacks. */
  function Merge(a: IpFacts, b: IpFacts): IpFacts {
    IpFacts(
      OrElse(a.geoCountry, b.geoCountry), OrElse(a.geoCity, b.geoCity), OrElse(a.geoLat, b.geoLat),
      OrElse(a.geoLon, b.geoLon), OrElse(a.asnNumber, b.asnNumber), OrElse(a.asnName, b.asnName),
      OrElse(a.rdns, b.rdns), OrElse(a.threatScore, b.threatScore),
      OrElse(a.threatCategories, b.threatCategories), OrElse(a.totalReports, b.totalReports),
      OrElse(a.lastReported, b.lastReported), OrElse(a.isTor, b.isTor), OrElse(a.usageType, b.usageType))
  }

  /** A refreshed rating replaces the old one, gaps and all. */
  function WithRating(a: IpFacts, t: IpFacts): IpFacts {
    a.(threatScore := t.threatScore, threatCategories := t.threatCategories, totalReports := t.totalReports,
       lastReported := t.lastReported, isTor := t.isTor, usageType := t.usageType)
  }

  datatype ThreatOutcome = Found(facts: IpFacts) | NotFound | QuotaExhausted | Disabled

  /** What the sources would answer in one pass, and which of them are on. */
  datatype Sources = Sources(
    geo: Address -> IpFacts, rdns: Option<Address -> Option<string>>, rdnsEnabled: bool,
    threat: Address -> ThreatOutcome)

  datatype Row = Row(
    logTypeId: int, directionId: Option<int>, actionId: Option<int>,
    src: Option<Address>, dst: Option<Address>, status: Status, facts: IpFacts)

  datatype Claimed = Claimed(key: Key, remote: Option<Address>, wantsThreat: bool)

  const BATCH_SIZE: nat := 200
  const REFRESH_AFTER := 14 * 86_400

  // ---- what a row asks for

  function Usable(a: Option<Address>, usable: Address -> bool): Option<Address> {
    if a.Some? && usable(a.value) then a else None
  }

  /** Which of a row's two addresses is the far end; `usable` are the public ones not our own. */
  function RemoteOf(r: Row, usable: Address -> bool): Option<Address> {
    var src, dst := Usable(r.src, usable), Usable(r.dst, usable);
    if r.logTypeId == 1 then
      if r.directionId == Some(1) then src
      else if r.directionId == Some(2) then dst
      else OrElse(src, dst)
    else if r.logTypeId == 2 then OrElse(src, dst)
    else None
  }

  /** Only blocked firewall rows cost quota. */
  predicate WantsThreat(r: Row) {
    r.logTypeId == 1 && r.actionId == Some(2)
  }

  function ClaimOf(k: Key, r: Row, usable: Address -> bool): Claimed {
    Claimed(k, RemoteOf(r, usable), WantsThreat(r))
  }

  function KeysOf(claimed: seq<Claimed>): set<Key> {
    set i | 0 <= i < |claimed| :: claimed[i].key
  }

  predicate DistinctKeys(claimed: seq<Claimed>) {
    forall i, j :: 0 <= i < j < |claimed| ==> claimed[i].key != claimed[j].key
  }

  function Remotes(claimed: seq<Claimed>): set<Address> {
    set i | 0 <= i < |claimed| && claimed[i].remote.Some? :: claimed[i].remote.value
  }

  function ThreatRemotes(claimed: seq<Claimed>): set<Address> {
    set i | 0 <= i < |claimed| && claimed[i].wantsThreat && claimed[i].remote.Some? :: claimed[i].remote.value
  }

  /** The far end, side by side: of an inbound firewall row the source, of an outbound one the
      destination, of any other firewall or DNS row the source or else the destination, of other kinds
      none; and never an address that is not usable. */
  lemma {:induction false} FarEndIs(r: Row, usable: Address -> bool, ip: Address)
    ensures RemoteOf(r, usable) == Some(ip) <==>
              && usable(ip) && r.logTypeId in {1, 2}
              && (r.src == Some(ip) || r.dst == Some(ip))
              && (r.logTypeId == 1 && r.directionId == Some(1) ==> r.src == Some(ip))
              && (r.logTypeId == 1 && r.directionId == Some(2) ==> r.dst == Some(ip))
              && (!(r.logTypeId == 1 && r.directionId in {Some(1), Some(2)}) && r.src != Some(ip) ==>
                    r.src.None? || !usable(r.src.value))
  {}

  // ---- what a pass learns about one address

  /** After geography and the reverse name. */
  function Located(before: IpFacts, s: Sources, ip: Address): IpFacts {
    var g := if before.geoCountry.None? && before.asnNumber.None? then Merge(before, s.geo(ip)) else before;
    if g.rdns.None? && s.rdnsEnabled && s.rdns.Some? then g.(rdns := (s.rdns.value)(ip)) else g
  }

  function Learned(before: IpFacts, s: Sources, ip: Address, asked: bool): IpFacts {
    var known := Located(before, s, ip);
    if !asked then known
    else
      match s.threat(ip)
      case Found(t) => if known.threatScore.Some? then WithRating(known, t) else Merge(known, t)
      case _ => known
  }

  // ---- the cache of facts

  datatype CacheEntry = CacheEntry(facts: IpFacts, ratedAt: Option<int>)

  type Cache = map<Address, CacheEntry>

  function Entry(cache: Cache, ip: Address): Option<CacheEntry> {
    if ip in cache then Some(cache[ip]) else None
  }

  function Known(e: Option<CacheEntry>): IpFacts {
    if e.Some? then e.value.facts else NO_FACTS
  }

  /** Rated, and not since the cutoff. */
  predicate Stale(e: Option<CacheEntry>, now: int) {
    && e.Some?
    && e.value.facts.threatScore.Some?
    && (e.value.ratedAt.None? || e.value.ratedAt.value < now - REFRESH_AFTER)
  }

  /** Due again is a rating older than fourteen days, and one that was never dated. */
  lemma {:induction false} StaleAfterTwoWeeks(e: CacheEntry, now: int)
    ensures Stale(Some(e), now) <==>
              && e.facts.threatScore.Some?
              && (e.ratedAt.Some? ==> now - e.ratedAt.value > 1_209_600)
    ensures !Stale(None, now)
  {}

  /** The upsert: new values win, gaps keep the old ones; a score present stamps the rating time. */
  function Upserted(e: Option<CacheEntry>, f: IpFacts, now: int): CacheEntry {
    var stamp := if f.threatScore.Some? then Some(now) else None;
    if e.Some? then CacheEntry(Merge(f, e.value.facts), OrElse(stamp, e.value.ratedAt)) else CacheEntry(f, stamp)
  }

  /** A refresh that brought no answer is recorded all the same. */
  function Touched(e: Option<CacheEntry>, now: int): Option<CacheEntry> {
    if e.Some? then Some(e.value.(ratedAt := Some(now))) else None
  }

  predicate BroughtNothing(o: ThreatOutcome) {
    o.NotFound? || o.Disabled?
  }

  /** What the cache holds of an address after a pass has met it. */
  function EntryAfter(e: Option<CacheEntry>, s: Sources, ip: Address, asked: bool, refreshing: bool, now: int)
    : Option<CacheEntry>
  {
    var known := Learned(Known(e), s, ip, asked);
    var kept := if asked && refreshing && BroughtNothing(s.threat(ip)) then Touched(e, now) else e;
    if known == NO_FACTS then kept else Some(Upserted(kept, known, now))
  }

  lemma {:induction false} StaleIsRated(e: Option<CacheEntry>, s: Sources, ip: Address, now: int)
    requires Stale(e, now)
    ensures Located(Known(e), s, ip).threatScore.Some?
  {}

  /** A rating that is known at the end of a visit counts as of now, asked or not. */
  lemma {:induction false} VisitStamps(e: Option<CacheEntry>, s: Sources, ip: Address, asked: bool, refreshing: bool,
                                       now: int)
    requires Learned(Known(e), s, ip, asked).threatScore.Some?
    ensures var after := EntryAfter(e, s, ip, asked, refreshing, now);
            after.Some? && after.value.facts.threatScore.Some? && after.value.ratedAt == Some(now)
  {}

  /** A rating asked for anew arrives: its six fields replace the old ones, gaps and all, and what was
      known of place, network and name stays. */
  lemma {:induction false} RefreshedRatingArrives(e: Option<CacheEntry>, s: Sources, ip: Address, now: int,
                                                  t: IpFacts)
    requires Stale(e, now) && s.threat(ip) == Found(t)
    ensures var was, f := e.value.facts, Learned(Known(e), s, ip, true);
            && f.threatScore == t.threatScore && f.threatCategories == t.threatCategories
            && f.totalReports == t.totalReports && f.lastReported == t.lastReported
            && f.isTor == t.isTor && f.usageType == t.usageType
            && (was.geoCountry.Some? ==> f.geoCountry == was.geoCountry)
            && (was.geoCity.Some? ==> f.geoCity == was.geoCity)
            && (was.geoLat.Some? ==> f.geoLat == was.geoLat) && (was.geoLon.Some? ==> f.geoLon == was.geoLon)
            && (was.asnNumber.Some? ==> f.asnNumber == was.asnNumber)
            && (was.asnName.Some? ==> f.asnName == was.asnName) && (was.rdns.Some? ==> f.rdns == was.rdns)
  {}

  /** And it reaches the cache, where gaps of the new rating keep the old values; a score counts as of now. */
  lemma {:induction false} RefreshedRatingIsCached(e: Option<CacheEntry>, s: Sources, ip: Address, now: int,
                                                   t: IpFacts)
    requires Stale(e, now) && s.threat(ip) == Found(t) && t.threatScore.Some?
    ensures var was, after := e.value.facts, EntryAfter(e, s, ip, true, true, now);
            && after.Some? && after.value.ratedAt == Some(now)
            && var f := after.value.facts;
            && f.threatScore == t.threatScore
            && f.threatCategories == (if t.threatCategories.Some? then t.threatCategories else was.threatCategories)
            && f.totalReports == (if t.totalReports.Some? then t.totalReports else was.totalReports)
            && f.lastReported == (if t.lastReported.Some? then t.lastReported else was.lastReported)
            && f.isTor == (if t.isTor.Some? then t.isTor else was.isTor)
            && f.usageType == (if t.usageType.Some? then t.usageType else was.usageType)
  {
    RefreshedRatingArrives(e, s, ip, now, t);
    CacheTakesNews(e, Learned(Known(e), s, ip, true), now);
    hide Learned, Upserted, Stale;
  }

  /** Looking up the place fills gaps, and only where neither country nor network is known; a missing name
      is asked for if that is on. */
  lemma {:induction false} LocatingFillsGaps(was: IpFacts, s: Sources, ip: Address)
    ensures var g, f := s.geo(ip), Located(was, s, ip);
            var asks := was.geoCountry.None? && was.asnNumber.None?;
            && f.geoCountry == (if was.geoCountry.Some? || !asks then was.geoCountry else g.geoCountry)
            && f.geoCity == (if was.geoCity.Some? || !asks then was.geoCity else g.geoCity)
            && f.geoLat == (if was.geoLat.Some? || !asks then was.geoLat else g.geoLat)
            && f.geoLon == (if was.geoLon.Some? || !asks then was.geoLon else g.geoLon)
            && f.asnNumber == (if was.asnNumber.Some? || !asks then was.asnNumber else g.asnNumber)
            && f.asnName == (if was.asnName.Some? || !asks then was.asnName else g.asnName)
            && f.threatScore == (if was.threatScore.Some? || !asks then was.threatScore else g.threatScore)
            && f.threatCategories
               == (if was.threatCategories.Some? || !asks then was.threatCategories else g.threatCategories)
            && f.totalReports == (if was.totalReports.Some? || !asks then was.totalReports else g.totalReports)
            && f.lastReported == (if was.lastReported.Some? || !asks then was.lastReported else g.lastReported)
            && f.isTor == (if was.isTor.Some? || !asks then was.isTor else g.isTor)
            && f.usageType == (if was.usageType.Some? || !asks then was.usageType else g.usageType)
            && var name := if was.rdns.Some? || !asks then was.rdns else g.rdns;
            && f.rdns == if name.None? && s.rdnsEnabled && s.rdns.Some? then (s.rdns.value)(ip) else name
  {}

  /** A first rating fills gaps; without an answer, or unasked, everything stays as located. */
  lemma {:induction false} FirstRatingFillsGaps(was: IpFacts, s: Sources, ip: Address, asked: bool)
    requires Located(was, s, ip).threatScore.None?
    ensures var known, f := Located(was, s, ip), Learned(was, s, ip, asked);
            if asked && s.threat(ip).Found? then
              var t := s.threat(ip).facts;
              && f.geoCountry == (if known.geoCountry.Some? then known.geoCountry else t.geoCountry)
              && f.geoCity == (if known.geoCity.Some? then known.geoCity else t.geoCity)
              && f.geoLat == (if known.geoLat.Some? then known.geoLat else t.geoLat)
              && f.geoLon == (if known.geoLon.Some? then known.geoLon else t.geoLon)
              && f.asnNumber == (if known.asnNumber.Some? then known.asnNumber else t.asnNumber)
              && f.asnName == (if known.asnName.Some? then known.asnName else t.asnName)
              && f.rdns == (if known.rdns.Some? then known.rdns else t.rdns)
              && f.threatScore == (if known.threatScore.Some? then known.threatScore else t.threatScore)
              && f.threatCategories
                 == (if known.threatCategories.Some? then known.threatCategories else t.threatCategories)
              && f.totalReports == (if known.totalReports.Some? then known.totalReports else t.totalReports)
              && f.lastReported == (if known.lastReported.Some? then known.lastReported else t.lastReported)
              && f.isTor == (if known.isTor.Some? then known.isTor else t.isTor)
              && f.usageType == (if known.usageType.Some? then known.usageType else t.usageType)
            else f == known
  {}

  /** The cache takes what is new and keeps what is not; the stamp moves if a score is there. */
  lemma {:induction false} CacheTakesNews(e: Option<CacheEntry>, f: IpFacts, now: int)
    ensures var was, after := Known(e), Upserted(e, f, now);
            && after.facts.geoCountry == (if f.geoCountry.Some? then f.geoCountry else was.geoCountry)
            && after.facts.geoCity == (if f.geoCity.Some? then f.geoCity else was.geoCity)
            && after.facts.geoLat == (if f.geoLat.Some? then f.geoLat else was.geoLat)
            && after.facts.geoLon == (if f.geoLon.Some? then f.geoLon else was.geoLon)
            && after.facts.asnNumber == (if f.asnNumber.Some? then f.asnNumber else was.asnNumber)
            && after.facts.asnName == (if f.asnName.Some? then f.asnName else was.asnName)
            && after.facts.rdns == (if f.rdns.Some? then f.rdns else was.rdns)
            && after.facts.threatScore == (if f.threatScore.Some? then f.threatScore else was.threatScore)
            && after.facts.threatCategories
               == (if f.threatCategories.Some? then f.threatCategories else was.threatCategories)
            && after.facts.totalReports == (if f.totalReports.Some? then f.totalReports else was.totalReports)
            && after.facts.lastReported == (if f.lastReported.Some? then f.lastReported else was.lastReported)
            && after.facts.isTor == (if f.isTor.Some? then f.isTor else was.isTor)
            && after.facts.usageType == (if f.usageType.Some? then f.usageType else was.usageType)
            && after.ratedAt
               == if f.threatScore.Some? then Some(now) else if e.Some? then e.value.ratedAt else None
  {}

  /** Everything one field at a time known in `a` is known in `b`. */
  predicate KnowsAtLeast(b: IpFacts, a: IpFacts) {
    && (a.geoCountry.Some? ==> b.geoCountry.Some?) && (a.geoCity.Some? ==> b.geoCity.Some?)
    && (a.geoLat.Some? ==> b.geoLat.Some?) && (a.geoLon.Some? ==> b.geoLon.Some?)
    && (a.asnNumber.Some? ==> b.asnNumber.Some?) && (a.asnName.Some? ==> b.asnName.Some?)
    && (a.rdns.Some? ==> b.rdns.Some?) && (a.threatScore.Some? ==> b.threatScore.Some?)
    && (a.threatCategories.Some? ==> b.threatCategories.Some?)
    && (a.totalReports.Some? ==> b.totalReports.Some?) && (a.lastReported.Some? ==> b.lastReported.Some?)
    && (a.isTor.Some? ==> b.isTor.Some?) && (a.usageType.Some? ==> b.usageType.Some?)
  }

  /** A visit forgets nothing, and all it learned is kept. */
  lemma {:induction false} VisitForgetsNothing(e: Option<CacheEntry>, s: Sources, ip: Address, asked: bool,
                                               refreshing: bool, now: int)
    ensures var after := EntryAfter(e, s, ip, asked, refreshing, now);
            && (e.Some? ==> after.Some?)
            && KnowsAtLeast(Known(after), Known(e))
            && KnowsAtLeast(Known(after), Learned(Known(e), s, ip, asked))
  {}

  // ---- a pass

  datatype Pass = Pass(
    claimed: seq<Claimed>, facts: map<Address, IpFacts>, ranOut: bool,
    geoAsked: seq<Address>, threatAsked: seq<Address>)

  const NO_PASS := Pass([], map[], false, [], [])

  predicate Refused(s: Sources, asked: seq<Address>) {
    exists ip :: ip in asked && s.threat(ip).QuotaExhausted?
  }

  predicate AsksGeo(e: Option<CacheEntry>) {
    Known(e).geoCountry.None? && Known(e).asnNumber.None?
  }

  predicate AsksThreat(e: Option<CacheEntry>, s: Sources, ip: Address, wanted: bool, refreshing: bool) {
    wanted && (Located(Known(e), s, ip).threatScore.None? || refreshing)
  }

  /** The pass after one more address. */
  function Visited(a: Pass, ip: Address, e: Option<CacheEntry>, s: Sources, wanted: bool, refreshing: bool): Pass {
    var asked := AsksThreat(e, s, ip, wanted, refreshing);
    a.(geoAsked := a.geoAsked + (if AsksGeo(e) then [ip] else []),
       threatAsked := a.threatAsked + (if asked then [ip] else []),
       ranOut := a.ranOut || (asked && s.threat(ip).QuotaExhausted?),
       facts := a.facts[ip := Learned(Known(e), s, ip, asked)])
  }

  /** Each address is looked up at most once, and only where nothing is known of it. */
  ghost predicate GeoOnce(p: Pass, ips: set<Address>, cache: Cache) {
    NoRepeats(p.geoAsked) && forall ip :: ip in p.geoAsked <==> ip in ips && AsksGeo(Entry(cache, ip))
  }

  /** Asked about at most once, if a score is wanted: always where none is known, and else only where it is old. */
  ghost predicate ThreatOnce(p: Pass, ips: set<Address>, wants: set<Address>, s: Sources, cache: Cache, now: int) {
    && NoRepeats(p.threatAsked)
    && (forall ip :: ip in p.threatAsked ==>
          && ip in wants && ip in ips
          && (Located(Known(Entry(cache, ip)), s, ip).threatScore.None? || Stale(Entry(cache, ip), now)))
    && (forall ip :: ip in wants * ips && Located(Known(Entry(cache, ip)), s, ip).threatScore.None? ==>
          ip in p.threatAsked)
  }

  ghost predicate LearnsEach(p: Pass, ips: set<Address>, s: Sources, cache: Cache) {
    && p.facts.Keys == ips
    && forall ip :: ip in ips ==> p.facts[ip] == Learned(Known(Entry(cache, ip)), s, ip, ip in p.threatAsked)
  }

  /** The pass so far, `ips` being the addresses already looked up and `wants` those a score is wanted of. */
  ghost predicate LookedUp(p: Pass, ips: set<Address>, wants: set<Address>, s: Sources, cache: Cache, now: int) {
    && GeoOnce(p, ips, cache)
    && ThreatOnce(p, ips, wants, s, cache, now)
    && LearnsEach(p, ips, s, cache)
    && (p.ranOut <==> Refused(s, p.threatAsked))
  }

  /** One round of the loop keeps the picture. */
  lemma {:induction false} OneRound(a: Pass, ips: set<Address>, ip: Address, wants: set<Address>, s: Sources,
                                    cache: Cache, now: int, refreshing: bool)
    requires LookedUp(a, ips, wants, s, cache, now) && ip !in ips
    requires refreshing ==> Stale(Entry(cache, ip), now)
    ensures LookedUp(Visited(a, ip, Entry(cache, ip), s, ip in wants, refreshing), ips + {ip}, wants, s, cache, now)
  {
    hide GeoOnce, ThreatOnce, LearnsEach, Refused, Located, Learned, Stale;
    RoundGeo(a, ips, ip, wants, s, cache, refreshing);
    RoundThreat(a, ips, ip, wants, s, cache, now, refreshing);
    NotAskedYet(a, ips, ip, wants, s, cache, now);
    RoundLearns(a, ips, ip, wants, s, cache, refreshing);
    RefusedMore(s, a.threatAsked, ip);
  }

  lemma {:induction false} RoundGeo(a: Pass, ips: set<Address>, ip: Address, wants: set<Address>, s: Sources,
                                    cache: Cache, refreshing: bool)
    requires GeoOnce(a, ips, cache) && ip !in ips
    ensures GeoOnce(Visited(a, ip, Entry(cache, ip), s, ip in wants, refreshing), ips + {ip}, cache)
  {
    hide AsksGeo, AsksThreat, Learned;
  }

  lemma {:induction false} RoundThreat(a: Pass, ips: set<Address>, ip: Address, wants: set<Address>, s: Sources,
                                       cache: Cache, now: int, refreshing: bool)
    requires ThreatOnce(a, ips, wants, s, cache, now) && ip !in ips
    requires refreshing ==> Stale(Entry(cache, ip), now)
    ensures ThreatOnce(Visited(a, ip, Entry(cache, ip), s, ip in wants, refreshing), ips + {ip}, wants, s, cache, now)
  {
    hide Located, Stale, Learned, AsksGeo, Known, Entry;
  }

  lemma {:induction false} NotAskedYet(a: Pass, ips: set<Address>, ip: Address, wants: set<Address>, s: Sources,
                                       cache: Cache, now: int)
    requires ThreatOnce(a, ips, wants, s, cache, now) && ip !in ips
    ensures ip !in a.threatAsked
  {}

  lemma {:induction false} RoundLearns(a: Pass, ips: set<Address>, ip: Address, wants: set<Address>, s: Sources,
                                       cache: Cache, refreshing: bool)
    requires LearnsEach(a, ips, s, cache) && ip !in ips && ip !in a.threatAsked
    ensures LearnsEach(Visited(a, ip, Entry(cache, ip), s, ip in wants, refreshing), ips + {ip}, s, cache)
  {
    hide AsksThreat, AsksGeo, Learned, Known, Entry;
    var b := Visited(a, ip, Entry(cache, ip), s, ip in wants, refreshing);
    assert b.facts.Keys == ips + {ip};
    assert forall o :: o in ips ==> (o in b.threatAsked <==> o in a.threatAsked);
  }

  lemma {:induction false} RefusedMore(s: Sources, asked: seq<Address>, ip: Address)
    ensures Refused(s, asked + [ip]) <==> Refused(s, asked) || s.threat(ip).QuotaExhausted?
    ensures asked + [] == asked
  {
    assert ip in asked + [ip];
    assert forall x :: x in asked ==> x in asked + [ip];
  }

  lemma {:induction false} VisitAsks(a: Pass, ip: Address, e: Option<CacheEntry>, s: Sources, wanted: bool,
                                     refreshing: bool)
    requires ip !in a.threatAsked
    ensures var b := Visited(a, ip, e, s, wanted, refreshing);
            && (ip in b.threatAsked <==> AsksThreat(e, s, ip, wanted, refreshing))
            && forall o :: o != ip ==> (o in b.threatAsked <==> o in a.threatAsked)
  {
    hide AsksThreat, AsksGeo, Learned;
  }

  /** Of the addresses asked about anew, the visit adds the one it refreshed. */
  lemma {:induction false} OneMoreRefreshed(a: Pass, b: Pass, ip: Address, cache: Cache, now: int, refreshing: bool)
    requires ip !in a.threatAsked && forall o :: o != ip ==> (o in b.threatAsked <==> o in a.threatAsked)
    requires ip in b.threatAsked && Stale(Entry(cache, ip), now) <==> refreshing
    ensures Refreshed(b, cache, now) == Refreshed(a, cache, now) + (if refreshing then {ip} else {})
    ensures |Refreshed(b, cache, now)| == |Refreshed(a, cache, now)| + (if refreshing then 1 else 0)
  {
    hide Stale, Entry;
    assert ip !in Refreshed(a, cache, now);
    assert Refreshed(b, cache, now) == Refreshed(a, cache, now) + (if refreshing then {ip} else {});
  }

  /** A rating that is due is asked about only in order to refresh it. */
  lemma {:induction false} DueIsRefreshed(e: Option<CacheEntry>, s: Sources, ip: Address, wanted: bool,
                                          refreshing: bool, now: int)
    requires refreshing ==> wanted && Stale(e, now)
    ensures AsksThreat(e, s, ip, wanted, refreshing) && Stale(e, now) <==> refreshing
  {
    if Stale(e, now) {
      StaleIsRated(e, s, ip, now);
    }
  }

  /** Of the addresses `among`, those whose rating is due, and those that were asked about again. */
  function Due(among: set<Address>, cache: Cache, now: int): set<Address> {
    set ip | ip in among && Stale(Entry(cache, ip), now)
  }

  function Refreshed(p: Pass, cache: Cache, now: int): set<Address> {
    set ip | ip in p.threatAsked && Stale(Entry(cache, ip), now)
  }

  /** The cache after the addresses `ips` were met. */
  ghost predicate CacheAfter(p: Pass, ips: set<Address>, s: Sources, before: Cache, after: Cache, now: int) {
    forall ip :: Entry(after, ip) ==
      if ip in ips
      then EntryAfter(Entry(before, ip), s, ip, ip in p.threatAsked, ip in Refreshed(p, before, now), now)
      else Entry(before, ip)
  }

  /** A whole pass. Every source is asked at most once per address, threat only about far ends of rows
      that want a score; each address gets the facts its own sources gave; the cache keeps them; and of
      the ratings that are due as many are refreshed as the day's allowance has left. */
  ghost predicate LooksUp(p: Pass, s: Sources, before: Cache, after: Cache, now: int, left: nat) {
    && LookedUp(p, Remotes(p.claimed), ThreatRemotes(p.claimed), s, before, now)
    && CacheAfter(p, Remotes(p.claimed), s, before, after, now)
    && |Refreshed(p, before, now)| == Min(|Due(ThreatRemotes(p.claimed), before, now)|, left)
  }

  lemma {:induction false} NoPassLooksUp(s: Sources, cache: Cache, now: int, left: nat)
    ensures LooksUp(NO_PASS, s, cache, cache, now, left)
  {
    assert Due({}, cache, now) == {} && Refreshed(NO_PASS, cache, now) == {};
    assert Remotes([]) == {} && ThreatRemotes([]) == {};
  }

  /** With enough allowance everything due is refreshed, with none nothing. */
  lemma {:induction false} AllowanceDecides(p: Pass, s: Sources, before: Cache, after: Cache, now: int, left: nat)
    requires LooksUp(p, s, before, after, now, left)
    ensures var due := Due(ThreatRemotes(p.claimed), before, now);
            && Refreshed(p, before, now) <= due
            && (|due| <= left ==> Refreshed(p, before, now) == due)
            && (left == 0 ==> Refreshed(p, before, now) == {})
  {
    var due, got := Due(ThreatRemotes(p.claimed), before, now), Refreshed(p, before, now);
    assert got <= due;
    if |due| <= left {
      SameSizeIsSame(got, due);
    }
  }

  // ---- any sequence of passes

  /** A pass, what the sources said in it, when it was, and what the allowance had left before it. */
  datatype Turn = Turn(p: Pass, s: Sources, now: int, left: nat)

  ghost predicate Link(caches: seq<Cache>, turns: seq<Turn>, i: nat)
    requires i < |turns| && |caches| == |turns| + 1
  {
    LooksUp(turns[i].p, turns[i].s, caches[i], caches[i + 1], turns[i].now, turns[i].left)
  }

  /** The cache before, between and after the passes. */
  ghost predicate Chain(caches: seq<Cache>, turns: seq<Turn>) {
    |caches| == |turns| + 1 && forall i :: 0 <= i < |turns| ==> Link(caches, turns, i)
  }

  predicate Meets(t: Turn, ip: Address) {
    ip in Remotes(t.p.claimed)
  }

  /** The pass met the address and ended knowing its score. */
  predicate Rates(t: Turn, ip: Address) {
    Meets(t, ip) && ip in t.p.facts && t.p.facts[ip].threatScore.Some?
  }

  predicate Wants(t: Turn, ip: Address) {
    ip in ThreatRemotes(t.p.claimed)
  }

  predicate Unmet(turns: seq<Turn>, from: nat, until: nat, ip: Address)
    requires until <= |turns|
  {
    forall k :: from <= k < until ==> !Meets(turns[k], ip)
  }

  lemma {:induction false} UnmetIsUntouched(caches: seq<Cache>, turns: seq<Turn>, from: nat, until: nat, ip: Address)
    requires Chain(caches, turns) && from <= until <= |turns| && Unmet(turns, from, until, ip)
    ensures Entry(caches[until], ip) == Entry(caches[from], ip)
    decreases until
  {
    if from < until {
      UnmetIsUntouched(caches, turns, from, until - 1, ip);
      assert !Meets(turns[until - 1], ip);
      assert Link(caches, turns, until - 1);
    }
  }

  lemma {:induction false} RatingIsStamped(caches: seq<Cache>, turns: seq<Turn>, i: nat, ip: Address)
    requires Chain(caches, turns) && i < |turns| && Rates(turns[i], ip)
    ensures var e := Entry(caches[i + 1], ip);
            e.Some? && e.value.facts.threatScore.Some? && e.value.ratedAt == Some(turns[i].now)
  {
    var t, e := turns[i], Entry(caches[i], ip);
    assert Link(caches, turns, i);
    VisitStamps(e, t.s, ip, ip in t.p.threatAsked, ip in Refreshed(t.p, caches[i], t.now), t.now);
  }

  lemma {:induction false} RatedIsMet(t: Turn, before: Cache, after: Cache, ip: Address)
    requires LooksUp(t.p, t.s, before, after, t.now, t.left)
    requires Meets(t, ip) && Known(Entry(before, ip)).threatScore.Some?
    ensures ip in t.p.threatAsked <==> ip in Refreshed(t.p, before, t.now)
    ensures !Stale(Entry(before, ip), t.now) ==> ip !in t.p.threatAsked && Rates(t, ip)
    ensures var due := Due(ThreatRemotes(t.p.claimed), before, t.now);
            && (ip in due <==> Wants(t, ip) && Stale(Entry(before, ip), t.now))
            && (|due| <= t.left && ip in due ==> ip in t.p.threatAsked)
    ensures t.left == 0 || !Wants(t, ip) ==> ip !in t.p.threatAsked
  {
    AllowanceDecides(t.p, t.s, before, after, t.now, t.left);
  }

  /** What a pass does with an address last rated at `last`: within two weeks it is not asked about and
      stays rated; after that its rating is due, and if a score is wanted it is asked about exactly if it
      is one of those the allowance lets through. */
  ghost predicate ReadsRating(t: Turn, before: Cache, ip: Address, last: int) {
    var due := Due(ThreatRemotes(t.p.claimed), before, t.now);
    && (ip in due <==> Wants(t, ip) && t.now > last + REFRESH_AFTER)
    && (ip in t.p.threatAsked <==> ip in Refreshed(t.p, before, t.now))
    && Refreshed(t.p, before, t.now) <= due
    && |Refreshed(t.p, before, t.now)| == Min(|due|, t.left)
    && (|due| <= t.left ==> Refreshed(t.p, before, t.now) == due)
    && (t.now <= last + REFRESH_AFTER ==> ip !in t.p.threatAsked && Rates(t, ip))
  }

  lemma {:induction false} RatedIsRead(t: Turn, before: Cache, after: Cache, ip: Address, last: int)
    requires LooksUp(t.p, t.s, before, after, t.now, t.left) && Meets(t, ip)
    requires Known(Entry(before, ip)).threatScore.Some? && Entry(before, ip).value.ratedAt == Some(last)
    ensures ReadsRating(t, before, ip, last)
  {
    RatedIsMet(t, before, after, ip);
    AllowanceDecides(t.p, t.s, before, after, t.now, t.left);
  }

  /** A rated address met again: the time since the last meeting decides. */
  lemma {:induction false} MetAgain(caches: seq<Cache>, turns: seq<Turn>, i: nat, j: nat, ip: Address)
    requires Chain(caches, turns) && i < j < |turns|
    requires Rates(turns[i], ip) && Meets(turns[j], ip) && Unmet(turns, i + 1, j, ip)
    ensures ReadsRating(turns[j], caches[j], ip, turns[i].now)
  {
    RatingIsStamped(caches, turns, i, ip);
    UnmetIsUntouched(caches, turns, i + 1, j, ip);
    assert Link(caches, turns, j);
    RatedIsRead(turns[j], caches[j], caches[j + 1], ip, turns[i].now);
  }

  /** Met at gaps of at most two weeks. */
  predicate MetOften(turns: seq<Turn>, i: nat, j: nat, ip: Address)
    requires j < |turns|
  {
    forall a, b :: i <= a < b <= j && Meets(turns[a], ip) && Meets(turns[b], ip) && Unmet(turns, a + 1, b, ip) ==>
      turns[b].now <= turns[a].now + REFRESH_AFTER
  }

  lemma {:induction false} LastMeeting(turns: seq<Turn>, i: nat, j: nat, ip: Address) returns (m: nat)
    requires i < j < |turns| && Meets(turns[i], ip)
    ensures i <= m < j && Meets(turns[m], ip) && Unmet(turns, m + 1, j, ip)
  {
    m := j - 1;
    while !Meets(turns[m], ip)
      invariant i <= m < j && Unmet(turns, m + 1, j, ip)
      decreases m
    {
      m := m - 1;
    }
  }

  /** Over every sequence of passes: a rated address that is met at gaps of at most two weeks is never
      asked about again, however old its rating grows. */
  lemma {:induction false} SeenAddressIsNeverAskedAgain(caches: seq<Cache>, turns: seq<Turn>, i: nat, j: nat,
                                                        ip: Address)
    requires Chain(caches, turns) && i < j < |turns| && Rates(turns[i], ip) && MetOften(turns, i, j, ip)
    ensures ip !in turns[j].p.threatAsked
    ensures Meets(turns[j], ip) ==> Rates(turns[j], ip)
    decreases j
  {
    if Meets(turns[j], ip) {
      var m := LastMeeting(turns, i, j, ip);
      if i < m {
        assert MetOften(turns, i, m, ip);
        SeenAddressIsNeverAskedAgain(caches, turns, i, m, ip);
      }
      MetAgain(caches, turns, m, j, ip);
    } else {
      assert Link(caches, turns, j);
    }
  }

  // ---- such a sequence

  /** A pass over one row whose far end is not due. */
  lemma {:induction false} OneFreshVisit(k: Key, ip: Address, cache: Cache, s: Sources, now: int, left: nat)
    returns (p: Pass, after: Cache)
    requires !Stale(Entry(cache, ip), now)
    ensures p == Visited(NO_PASS.(claimed := [Claimed(k, Some(ip), true)]), ip, Entry(cache, ip), s, true, false)
    ensures LooksUp(p, s, cache, after, now, left) && Meets(Turn(p, s, now, left), ip)
    ensures Wants(Turn(p, s, now, left), ip)
    ensures p.threatAsked == (if AsksThreat(Entry(cache, ip), s, ip, true, false) then [ip] else [])
    ensures Entry(after, ip)
         == EntryAfter(Entry(cache, ip), s, ip, AsksThreat(Entry(cache, ip), s, ip, true, false), false, now)
  {
    var start, e := NO_PASS.(claimed := [Claimed(k, Some(ip), true)]), Entry(cache, ip);
    p := Visited(start, ip, e, s, true, false);
    assert start.claimed[0].remote == Some(ip);
    assert Remotes(p.claimed) == {ip} && ThreatRemotes(p.claimed) == {ip};
    OneRound(start, {}, ip, {ip}, s, cache, now, false);
    assert {} + {ip} == {ip};
    assert Due({ip}, cache, now) == {} && Refreshed(p, cache, now) == {};
    var kept := EntryAfter(e, s, ip, ip in p.threatAsked, false, now);
    after := if kept.Some? then cache[ip := kept.value] else cache;
  }

  const TEN_DAYS := 10 * 86_400

  /** Rates every address, and knows nothing else of it. */
  function Rater(): Sources {
    Sources(ip => NO_FACTS, None, false, ip => Found(NO_FACTS.(threatScore := Some(50))))
  }

  lemma {:induction false} NextFreshVisit(k: Key, ip: Address, cache: Cache, last: int)
    returns (p: Pass, after: Cache)
    requires Entry(cache, ip) == Some(CacheEntry(NO_FACTS.(threatScore := Some(50)), Some(last)))
    ensures var now := last + TEN_DAYS;
            && LooksUp(p, Rater(), cache, after, now, 200) && Meets(Turn(p, Rater(), now, 200), ip)
            && Wants(Turn(p, Rater(), now, 200), ip) && p.threatAsked == []
            && Entry(after, ip) == Some(CacheEntry(NO_FACTS.(threatScore := Some(50)), Some(now)))
  {
    p, after := OneFreshVisit(k, ip, cache, Rater(), last + TEN_DAYS, 200);
  }

  lemma {:induction false} FirstFreshVisit(k: Key, ip: Address) returns (p: Pass, after: Cache)
    ensures LooksUp(p, Rater(), map[], after, 0, 200) && Rates(Turn(p, Rater(), 0, 200), ip) && p.threatAsked == [ip]
    ensures Entry(after, ip) == Some(CacheEntry(NO_FACTS.(threatScore := Some(50)), Some(0)))
  {
    p, after := OneFreshVisit(k, ip, map[], Rater(), 0, 200);
    assert ip in p.facts && p.facts[ip].threatScore == Some(50);
  }

  lemma {:induction false} ThreeLinks(caches: seq<Cache>, a: Turn, b: Turn, c: Turn)
    requires |caches| == 4
    requires LooksUp(a.p, a.s, caches[0], caches[1], a.now, a.left)
    requires LooksUp(b.p, b.s, caches[1], caches[2], b.now, b.left)
    requires LooksUp(c.p, c.s, caches[2], caches[3], c.now, c.left)
    ensures Chain(caches, [a, b, c])
  {
    hide LooksUp;
    assert Link(caches, [a, b, c], 0) && Link(caches, [a, b, c], 1) && Link(caches, [a, b, c], 2);
  }

  lemma {:induction false} ThreeMeetings(a: Turn, b: Turn, c: Turn, ip: Address)
    requires Meets(b, ip) && b.now == a.now + TEN_DAYS && c.now == b.now + TEN_DAYS
    ensures MetOften([a, b, c], 0, 2, ip)
  {
    hide Meets;
    var turns := [a, b, c];
    assert !Unmet(turns, 1, 2, ip) by {
      assert Meets(turns[1], ip);
    }
  }

  /** Met every ten days an address keeps its first rating, wanted anew and past its two weeks as it is,
      with the whole allowance left. */
  lemma {:induction false} RatingGrowsOld(k: Key, ip: Address) returns (caches: seq<Cache>, turns: seq<Turn>)
    ensures |turns| == 3 && Chain(caches, turns) && Rates(turns[0], ip) && MetOften(turns, 0, 2, ip)
    ensures turns[2].now > turns[0].now + REFRESH_AFTER && Wants(turns[2], ip) && turns[2].left == 200
    ensures ip in turns[0].p.threatAsked && ip !in turns[1].p.threatAsked && ip !in turns[2].p.threatAsked
  {
    hide Chain, LooksUp, Rates, Wants, MetOften, Meets, Entry, Rater;
    var p0, c1 := FirstFreshVisit(k, ip);
    var p1, c2 := NextFreshVisit(k, ip, c1, 0);
    var p2, c3 := NextFreshVisit(k, ip, c2, TEN_DAYS);
    var a, b, c := Turn(p0, Rater(), 0, 200), Turn(p1, Rater(), TEN_DAYS, 200), Turn(p2, Rater(), 2 * TEN_DAYS, 200);
    caches, turns := [map[], c1, c2, c3], [a, b, c];
    ThreeLinks(caches, a, b, c);
    ThreeMeetings(a, b, c, ip);
  }
}
