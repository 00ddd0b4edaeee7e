/** The live verdict and the WHERE clause answer the same question about the same event. */
module Agreement {
  import opened Basics
  import opened Text
  import opened Search
  import opened Sql
  import opened Filters
  import opened FilterMeaning
  import opened Live
  import Glob

  /** The stored name may differ in case: the lookup tables are unique ignoring case. */
  predicate SameText(live: Option<string>, stored: Option<string>) {
    live.Some? == stored.Some? && (live.Some? ==> Lower(live.value) == Lower(stored.value))
  }

  predicate SameId(name: Option<string>, known: string -> Option<int>, id: Option<int>) {
    name.Some? == id.Some? && (name.Some? ==> known(name.value) == id)
  }

  /** The fresh row and the stored row, its names joined, describe one event. */
  predicate SameEvent(r: LiveRow, j: Joined) {
    && LogTypeIdOf(r.logType) == Some(j.l.logTypeId)
    && SameId(r.ruleAction, ActionIdOf, j.l.ruleActionId)
    && SameId(r.direction, DirectionIdOf, j.l.directionId)
    && SameText(r.ruleName, TextOf(Name(R), j))
    && SameText(r.protocol, TextOf(Name(Pr), j))
    && SameText(r.ifaceIn, TextOf(Name(Ii), j))
    && SameText(r.ifaceOut, TextOf(Name(Io), j))
    && SameText(r.hostname, TextOf(Name(Dn), j))
    && r.srcIp == j.l.srcIp && r.dstIp == j.l.dstIp && r.srcPort == j.l.srcPort && r.dstPort == j.l.dstPort
    && j.l.macAddress == (if r.macAddress.Some? then Some(Lower(r.macAddress.value)) else None)
    && (r.geoCountry.Some? ==> j.l.geoCountry == r.geoCountry && Upper(r.geoCountry.value) == r.geoCountry.value)
    && (r.threatScore.Some? ==> j.l.threatScore == r.threatScore)
  }

  /** The lists use the names the interface offers. */
  predicate Canonical(f: LogFilter) {
    && (forall n :: n in f.logType ==> LogTypeIdOf(n).Some?)
    && (forall n :: n in f.action ==> ActionIdOf(n).Some? || n == "unknown")
    && (forall n :: n in f.direction ==> DirectionIdOf(n).Some?)
  }

  /** A pattern for which "matches from the start" and "matches whole" are the same. */
  predicate OpenEnded(t: string, glob: bool) {
    Glob.NoLikeMeta(t) && (glob ==> Glob.EndsInStar(t))
  }

  /** Terms both evaluators decide, and whose patterns use no characters special to LIKE. */
  predicate Comparable(t: Term) {
    !AsksEnrichment(t)
    && (t.value.Text? && t.field !in {Some(Action), Some(LogType), Some(Severity)} ==> Glob.NoLikeMeta(t.value.text))
  }

  /** Terms of which every live hit holds stored: a name of an action or a type as it is spelt (or no
      such name in any spelling), and a pattern with a free end anyway, looked for in one named column. */
  predicate LiveIsSafe(t: Term) {
    t.value.Text? ==>
      match t.field
      case None => false
      case Some(field) =>
        match field
        case Action => ActionIdOf(t.value.text) == ActionIdOf(Lower(t.value.text))
        case LogType => LogTypeIdOf(t.value.text) == LogTypeIdOf(Lower(t.value.text))
        case Protocol => OpenEnded(t.value.text, t.glob)
        case Interface => OpenEnded(t.value.text, t.glob)
        case Rule => OpenEnded(t.value.text, t.glob)
        case Host => OpenEnded(t.value.text, t.glob)
        case _ => false
  }

  /** Terms of which everything that holds stored is a live hit: those that look at nothing the live
      row lacks. A severity that is none holds nowhere. */
  predicate StoredIsSafe(t: Term) {
    t.value.Text? ==>
      match t.field
      case None => false
      case Some(field) =>
        match field
        case Action => true
        case LogType => true
        case Protocol => true
        case Interface => true
        case Severity => SeverityLevel(t.value.text).None?
        case _ => false
  }

  /** Terms both evaluators read alike. */
  predicate Faithful(t: Term) {
    AsksEnrichment(t) || (Comparable(t) && LiveIsSafe(t) && StoredIsSafe(t))
  }

  /** Terms a live pass can be trusted on. */
  predicate Sound(t: Term) {
    AsksEnrichment(t) || (Comparable(t) && if t.negated then StoredIsSafe(t) else LiveIsSafe(t))
  }

  /** Terms a live reject can be trusted on. */
  predicate Complete(t: Term) {
    AsksEnrichment(t) || (Comparable(t) && if t.negated then LiveIsSafe(t) else StoredIsSafe(t))
  }

  // ---- names and ids

  function LogTypeName(id: int): string {
    if id == 1 then "firewall" else if id == 2 then "dns" else if id == 3 then "dhcp"
    else if id == 4 then "wifi" else "system"
  }

  lemma {:induction false} LogTypeIsItsName(a: string)
    requires LogTypeIdOf(a).Some?
    ensures a == LogTypeName(LogTypeIdOf(a).value) && Lower(a) == a
  {}

  function ActionName(id: int): string {
    if id == 1 then "allow" else if id == 2 then "block" else "redirect"
  }

  lemma {:induction false} ActionIsItsName(a: string)
    requires ActionIdOf(a).Some?
    ensures a == ActionName(ActionIdOf(a).value) && Lower(a) == a
  {}

  function DirectionName(id: int): string {
    if id == 1 then "inbound" else if id == 2 then "outbound" else if id == 3 then "local"
    else if id == 4 then "inter_vlan" else if id == 5 then "vpn" else "nat"
  }

  lemma {:induction false} DirectionIsItsName(a: string)
    requires DirectionIdOf(a).Some?
    ensures a == DirectionName(DirectionIdOf(a).value) && Lower(a) == a
  {}

  // ---- the other fields

  lemma {:induction false} NamesAgree(f: LogFilter, r: LiveRow, j: Joined)
    requires SameEvent(r, j)
    ensures IfaceVerdict(f.iface, r.ifaceIn, r.ifaceOut) == Pass <==> InterfaceMeets(f, j)
    ensures ListVerdict(f.proto, r.protocol) == Pass <==> ProtocolMeets(f, j)
    ensures ExactIfaceVerdict(f.ifaceIn, r.ifaceIn) == Pass <==> ExactInterfaceMeets(f.ifaceIn, TextOf(Name(Ii), j))
    ensures ExactIfaceVerdict(f.ifaceOut, r.ifaceOut) == Pass <==> ExactInterfaceMeets(f.ifaceOut, TextOf(Name(Io), j))
    ensures PortVerdict(f.port, r.srcPort, r.dstPort) == Pass <==> PortMeets(f, j.l)
  {}

  lemma {:induction false} EnrichmentAgrees(f: LogFilter, r: LiveRow, j: Joined)
    requires SameEvent(r, j)
    ensures CountryVerdict(f, r) == Pass ==> CountryMeets(f, j.l)
    ensures CountryVerdict(f, r) == Reject ==> !CountryMeets(f, j.l)
    ensures ThreatVerdict(f, r) == Pass ==> ThreatMeets(f, j.l)
    ensures ThreatVerdict(f, r) == Reject ==> !ThreatMeets(f, j.l)
  {}

  // ---- the terms

  lemma {:induction false} TextAgrees(live: Option<string>, stored: Option<string>, t: string, glob: bool)
    requires SameText(live, stored) && Glob.NoLikeMeta(t)
    ensures stored.Some? && Reads(t, glob, stored.value) ==> TextHit(live, t, glob)
    ensures OpenEnded(t, glob) ==> (TextHit(live, t, glob) <==> stored.Some? && Reads(t, glob, stored.value))
  {
    if live.Some? {
      if glob {
        Glob.WholeIsOpen(Lower(t), Lower(stored.value));
      }
    }
  }

  /** A scoped text term on the stored side, column by column. */
  lemma {:induction false} ScopedHolds(t: string, field: Field, glob: bool, j: Joined)
    ensures field == Protocol ==> (TextHolds(t, Some(field), glob, j) <==> ColumnReads(Name(Pr), t, glob, j))
    ensures field == Interface ==>
              (TextHolds(t, Some(field), glob, j) <==>
                  ColumnReads(Name(Ii), t, glob, j) || ColumnReads(Name(Io), t, glob, j))
    ensures field == Rule ==> (ColumnReads(Name(R), t, glob, j) ==> TextHolds(t, Some(field), glob, j))
    ensures field == Host ==> (ColumnReads(Name(Dn), t, glob, j) ==> TextHolds(t, Some(field), glob, j))
  {}

  lemma {:induction false} IdTermAgrees(r: LiveRow, j: Joined, t: string, glob: bool)
    requires SameEvent(r, j)
    ensures TextTermHits(r, t, Some(Action), glob) <==> TextHolds(Lower(t), Some(Action), glob, j)
    ensures TextTermHits(r, t, Some(LogType), glob) <==> TextHolds(Lower(t), Some(LogType), glob, j)
    ensures TextHolds(t, Some(Action), glob, j) ==> Lower(t) == t
    ensures TextHolds(t, Some(LogType), glob, j) ==> Lower(t) == t
  {
    LogTypeIsItsName(r.logType);
    if LogTypeIdOf(Lower(t)).Some? {
      LogTypeIsItsName(Lower(t));
    }
    if LogTypeIdOf(t).Some? {
      LogTypeIsItsName(t);
    }
    if r.ruleAction.Some? {
      ActionIsItsName(r.ruleAction.value);
    }
    if ActionIdOf(Lower(t)).Some? {
      ActionIsItsName(Lower(t));
    }
    if ActionIdOf(t).Some? {
      ActionIsItsName(t);
    }
  }

  lemma {:induction false} ScopedTermAgrees(r: LiveRow, j: Joined, t: string, field: Field, glob: bool)
    requires SameEvent(r, j) && Glob.NoLikeMeta(t)
    ensures field in {Protocol, Interface} && TextHolds(t, Some(field), glob, j) ==>
              TextTermHits(r, t, Some(field), glob)
    ensures field in {Protocol, Interface, Rule, Host} && OpenEnded(t, glob)
            && TextTermHits(r, t, Some(field), glob) ==>
              TextHolds(t, Some(field), glob, j)
  {
    ScopedHolds(t, field, glob, j);
    TextAgrees(r.protocol, TextOf(Name(Pr), j), t, glob);
    TextAgrees(r.ifaceIn, TextOf(Name(Ii), j), t, glob);
    TextAgrees(r.ifaceOut, TextOf(Name(Io), j), t, glob);
    TextAgrees(r.ruleName, TextOf(Name(R), j), t, glob);
    TextAgrees(r.hostname, TextOf(Name(Dn), j), t, glob);
  }

  lemma {:induction false} SafeLiveHitHolds(r: LiveRow, j: Joined, t: Term)
    requires SameEvent(r, j) && Comparable(t) && LiveIsSafe(t) && Hits(r, t)
    ensures TermHolds(t, j)
  {
    if t.value.Text? {
      IdTermAgrees(r, j, t.value.text, t.glob);
      if t.field !in {Some(Action), Some(LogType)} {
        ScopedTermAgrees(r, j, t.value.text, t.field.value, t.glob);
      }
    }
  }

  lemma {:induction false} SafeStoredTextHits(r: LiveRow, j: Joined, t: string, field: Option<Field>, glob: bool)
    requires SameEvent(r, j) && TextHolds(t, field, glob, j)
    requires field in {Some(Action), Some(LogType)}
             || (field in {Some(Protocol), Some(Interface)} && Glob.NoLikeMeta(t))
    ensures TextTermHits(r, t, field, glob)
  {
    if field in {Some(Action), Some(LogType)} {
      IdTermAgrees(r, j, t, glob);
    } else {
      ScopedTermAgrees(r, j, t, field.value, glob);
    }
  }

  lemma {:induction false} SafeStoredTermHits(r: LiveRow, j: Joined, t: Term)
    requires SameEvent(r, j) && Comparable(t) && StoredIsSafe(t) && TermHolds(t, j)
    ensures Hits(r, t)
  {
    hide SeverityLevel, ColumnsOf, TextOf;
    if t.value.Text? {
      if t.field != Some(Severity) {
        SafeStoredTextHits(r, j, t.value.text, t.field, t.glob);
      }
    }
  }

  // ---- events on which an unsafe term is read differently

  datatype Event = Event(live: LiveRow, stored: Joined)

  /** One event, and the texts both sides keep are the same. */
  predicate IsEvent(e: Event) {
    && SameEvent(e.live, e.stored)
    && e.live.dnsQuery == e.stored.l.dnsQuery && e.live.dhcpEvent == e.stored.l.dhcpEvent
    && e.live.wifiEvent == e.stored.l.wifiEvent && e.live.rawLog == e.stored.l.rawLog
  }

  const BARE_LIVE := LiveRow("firewall", None, None, None, None, None, None, None, None, None, None, None, None,
                             None, None, None, None, None, None, None, None)

  const BARE_LOG := LogRow(0, 0, FIREWALL, None, None, None, None, None, None, None, None, None, None, None, None,
                           None, None, None, None, None, None, None, None, None, None, None, None)

  function Stored(l: LogRow, a: Alias, e: Entry): Joined {
    Joined(l, map[a := Some(e)])
  }

  /** A text every pattern finds, live and stored. */
  function Sample(t: string, glob: bool): string {
    if glob then Glob.Letters(Lower(t)) else t
  }

  lemma {:induction false} SampleIsFound(t: string, glob: bool)
    ensures TextHit(Some(Sample(t, glob)), t, glob)
    ensures Glob.NoLikeMeta(t) ==> Reads(t, glob, Sample(t, glob))
  {
    if glob {
      Glob.LettersMatch(Lower(t));
      Glob.LowerLetters(t);
      Glob.WholeIsOpen(Lower(t), Lower(Sample(t, glob)));
    } else {
      assert Lower(t)[0..|t|] == Lower(t);
    }
  }

  lemma {:induction false} OpenOnlyHits(t: string)
    requires Glob.NoLikeMeta(t) && !Glob.EndsInStar(t)
    ensures TextHit(Some(Glob.OpenOnly(Lower(t))), t, true) && !Reads(t, true, Glob.OpenOnly(Lower(t)))
  {
    Glob.LowerKeepsEnd(t);
    Glob.OpenOnlyIsOpenOnly(Lower(t));
    Glob.LowerOpenOnly(t);
  }

  /** An event whose one text is the name `s` of its rule, protocol, interface or host. */
  function Named(field: Field, s: string): Event
    requires field in {Protocol, Interface, Rule, Host}
  {
    var entry := Entry(1, Some(s), None);
    match field
    case Protocol => Event(BARE_LIVE.(protocol := Some(s)), Stored(BARE_LOG, Pr, entry))
    case Interface => Event(BARE_LIVE.(ifaceIn := Some(s)), Stored(BARE_LOG, Ii, entry))
    case Rule => Event(BARE_LIVE.(ruleName := Some(s)), Stored(BARE_LOG, R, entry))
    case Host => Event(BARE_LIVE.(hostname := Some(s)), Stored(BARE_LOG, Dn, entry))
  }

  /** An event with nothing but an answer to a DNS query, which no column that is searched keeps. */
  function Answered(s: string): Event {
    Event(BARE_LIVE.(logType := "dns", dnsAnswer := Some(s)), Joined(BARE_LOG.(logTypeId := 2), map[]))
  }

  lemma {:induction false} UnsafeActionHit(t: Term) returns (e: Event)
    requires Comparable(t) && !LiveIsSafe(t) && t.field == Some(Action)
    ensures IsEvent(e) && Hits(e.live, t) && !TermHolds(t, e.stored)
  {
    var s := t.value.text;
    var name := Lower(s);
    e := Event(BARE_LIVE.(ruleAction := Some(name)), Joined(BARE_LOG.(ruleActionId := ActionIdOf(name)), map[]));
    MisspeltAction(s);
    IdTermAgrees(e.live, e.stored, s, t.glob);
  }

  lemma {:induction false} UnsafeTypeHit(t: Term) returns (e: Event)
    requires Comparable(t) && !LiveIsSafe(t) && t.field == Some(LogType)
    ensures IsEvent(e) && Hits(e.live, t) && !TermHolds(t, e.stored)
  {
    var s := t.value.text;
    var name := Lower(s);
    MisspeltLogType(s);
    e := Event(BARE_LIVE.(logType := name), Joined(BARE_LOG.(logTypeId := LogTypeIdOf(name).value), map[]));
    IdTermAgrees(e.live, e.stored, s, t.glob);
  }

  lemma {:induction false} UnsafeFreeHit(t: Term) returns (e: Event)
    requires Comparable(t) && !LiveIsSafe(t)
    requires t.field !in {Some(Action), Some(LogType), Some(Protocol), Some(Interface), Some(Rule), Some(Host)}
    ensures IsEvent(e) && Hits(e.live, t) && !TermHolds(t, e.stored)
  {
    var s := t.value.text;
    SampleIsFound(s, t.glob);
    e := Answered(Sample(s, t.glob));
    assert FreeTexts(e.live)[7] == Some(Sample(s, t.glob));
    NothingStored(s, t.field, t.glob, e.stored);
  }

  /** An unsafe term hits some event live on which it does not hold stored. */
  lemma {:induction false} UnsafeLiveHit(t: Term) returns (e: Event)
    requires Comparable(t) && !LiveIsSafe(t)
    ensures IsEvent(e) && Hits(e.live, t) && !TermHolds(t, e.stored)
  {
    var s := t.value.text;
    if t.field == Some(Action) {
      e := UnsafeActionHit(t);
    } else if t.field == Some(LogType) {
      e := UnsafeTypeHit(t);
    } else if t.field in {Some(Protocol), Some(Interface), Some(Rule), Some(Host)} {
      OpenOnlyHits(s);
      e := Named(t.field.value, Glob.OpenOnly(Lower(s)));
      NamedReads(t.field.value, Glob.OpenOnly(Lower(s)), s, t.glob);
    } else {
      e := UnsafeFreeHit(t);
    }
  }

  lemma {:induction false} MisspeltAction(s: string)
    requires ActionIdOf(s) != ActionIdOf(Lower(s))
    ensures ActionIdOf(s).None? && ActionIdOf(Lower(s)).Some?
  {
    if ActionIdOf(s).Some? {
      ActionIsItsName(s);
    }
  }

  lemma {:induction false} MisspeltLogType(s: string)
    requires LogTypeIdOf(s) != LogTypeIdOf(Lower(s))
    ensures LogTypeIdOf(s).None? && LogTypeIdOf(Lower(s)).Some?
  {
    if LogTypeIdOf(s).Some? {
      LogTypeIsItsName(s);
    }
  }

  lemma {:induction false} NamedReads(field: Field, name: string, t: string, glob: bool)
    requires field in {Protocol, Interface, Rule, Host}
    ensures IsEvent(Named(field, name))
    ensures TextTermHits(Named(field, name).live, t, Some(field), glob) <==> TextHit(Some(name), t, glob)
    ensures TextHolds(t, Some(field), glob, Named(field, name).stored) <==> Reads(t, glob, name)
  {
    hide Reads, EqualFold, ColumnsOf;
    NamedColumns(field, name);
    var j, cols := Named(field, name).stored, ColumnsOf(Some(field));
    assert cols[0] in cols && (ColumnReads(cols[0], t, glob, j) <==> Reads(t, glob, name));
  }

  lemma {:induction false} NamedColumns(field: Field, name: string)
    requires field in {Protocol, Interface, Rule, Host}
    ensures var j, cols := Named(field, name).stored, ColumnsOf(Some(field));
            TextOf(cols[0], j) == Some(name) && forall c :: c in cols && c != cols[0] ==> TextOf(c, j).None?
  {}

  lemma {:induction false} NothingStored(t: string, field: Option<Field>, glob: bool, j: Joined)
    requires j.bound == map[] && j.l == BARE_LOG.(logTypeId := 2) && field !in {Some(Action), Some(LogType)}
    ensures !TextHolds(t, field, glob, j)
  {
    if field != Some(Severity) {
      forall c | c in ColumnsOf(field) ensures !ColumnReads(c, t, glob, j) {
        assert TextOf(c, j).None?;
      }
    }
  }

  /** A live row without texts is hit by no text term. */
  lemma {:induction false} BareIsMissed(t: string, field: Option<Field>, glob: bool)
    requires field !in {Some(Action), Some(LogType)}
    ensures !TextTermHits(BARE_LIVE, t, field, glob)
  {}

  lemma {:induction false} ColumnSuffices(t: string, field: Option<Field>, glob: bool, j: Joined, c: TextCol)
    requires field !in {Some(Action), Some(LogType), Some(Severity)}
    requires c in ColumnsOf(field) && ColumnReads(c, t, glob, j)
    ensures TextHolds(t, field, glob, j)
  {}

  /** A column the field looks into and the live row does not have. */
  function OnlyStoredColumn(field: Option<Field>): TextCol {
    if field == Some(Rule) then RuleDescr else if field == Some(Program) then Name(Pg) else Rdns
  }

  predicate HasOnlyStoredColumn(field: Option<Field>) {
    field !in {Some(Action), Some(LogType), Some(Severity), Some(Protocol), Some(Interface), Some(Country), Some(Asn)}
  }

  lemma {:induction false} OnlyStoredIsSearched(field: Option<Field>)
    requires HasOnlyStoredColumn(field)
    ensures OnlyStoredColumn(field) in ColumnsOf(field)
  {
    var cols := ColumnsOf(field);
    if field in {Some(Rule), Some(Host)} {
      assert cols[1] == OnlyStoredColumn(field);
    } else if field == Some(Program) {
      assert cols[0] == Name(Pg);
    } else {
      assert cols == EVERY_TEXT && EVERY_TEXT[8] == Rdns;
    }
  }

  /** A stored row with one text, in that column. */
  function OnlyStored(field: Option<Field>, text: string): Joined {
    if field == Some(Rule) then Stored(BARE_LOG, R, Entry(1, None, Some(text)))
    else if field == Some(Program) then Stored(BARE_LOG, Pg, Entry(1, Some(text), None))
    else Joined(BARE_LOG.(rdns := Some(text)), map[])
  }

  lemma {:induction false} OnlyStoredIsEvent(field: Option<Field>, text: string)
    ensures IsEvent(Event(BARE_LIVE, OnlyStored(field, text)))
    ensures TextOf(OnlyStoredColumn(field), OnlyStored(field, text)) == Some(text)
  {}

  lemma {:induction false} OnlyStoredHolds(t: string, field: Option<Field>, glob: bool)
    requires HasOnlyStoredColumn(field) && Glob.NoLikeMeta(t)
    ensures TextHolds(t, field, glob, OnlyStored(field, Sample(t, glob)))
  {
    var j, c := OnlyStored(field, Sample(t, glob)), OnlyStoredColumn(field);
    SampleIsFound(t, glob);
    OnlyStoredIsEvent(field, Sample(t, glob));
    OnlyStoredIsSearched(field);
    ColumnSuffices(t, field, glob, j, c);
  }

  /** An unsafe term holds of some event stored that it does not hit live. */
  lemma {:induction false} UnsafeStoredTerm(t: Term) returns (e: Event)
    requires Comparable(t) && !StoredIsSafe(t)
    ensures IsEvent(e) && TermHolds(t, e.stored) && !Hits(e.live, t)
  {
    hide SeverityLevel;
    var s := t.value.text;
    BareIsMissed(s, t.field, t.glob);
    if t.field == Some(Severity) {
      e := Event(BARE_LIVE, Joined(BARE_LOG.(severity := Some(0)), map[]));
    } else {
      e := Event(BARE_LIVE, OnlyStored(t.field, Sample(s, t.glob)));
      OnlyStoredIsEvent(t.field, Sample(s, t.glob));
      OnlyStoredHolds(s, t.field, t.glob);
    }
  }

  // ---- exactly which terms the two read alike

  /** On every event, for one term: when a live hit can be trusted, when a miss can, and when both. */
  lemma {:induction false} TermsReadAlike(t: Term)
    requires Comparable(t)
    ensures (forall e :: IsEvent(e) && Hits(e.live, t) ==> TermHolds(t, e.stored)) <==> LiveIsSafe(t)
    ensures (forall e :: IsEvent(e) && TermHolds(t, e.stored) ==> Hits(e.live, t)) <==> StoredIsSafe(t)
    ensures (forall e :: IsEvent(e) ==> (Hits(e.live, t) <==> TermHolds(t, e.stored))) <==> Faithful(t)
  {
    if LiveIsSafe(t) {
      forall e | IsEvent(e) && Hits(e.live, t) ensures TermHolds(t, e.stored) {
        SafeLiveHitHolds(e.live, e.stored, t);
      }
    } else {
      var e := UnsafeLiveHit(t);
    }
    if StoredIsSafe(t) {
      forall e | IsEvent(e) && TermHolds(t, e.stored) ensures Hits(e.live, t) {
        SafeStoredTermHits(e.live, e.stored, t);
      }
    } else {
      var e := UnsafeStoredTerm(t);
    }
  }

  // ---- exactly which lists the two read alike

  /** A known name has one spelling, and is the only one with its id. */
  ghost predicate Proper(known: string -> Option<int>) {
    && (forall v: string :: known(v).Some? ==> Lower(v) == v)
    && (forall v: string, w: string :: known(v).Some? && known(v) == known(w) ==> v == w)
  }

  lemma {:induction false} KnownNamesAreProper()
    ensures Proper(LogTypeIdOf) && Proper(ActionIdOf) && Proper(DirectionIdOf)
  {
    forall v: string, w: string | LogTypeIdOf(v).Some? && LogTypeIdOf(v) == LogTypeIdOf(w) ensures v == w {
      LogTypeIsItsName(v);
      LogTypeIsItsName(w);
    }
    forall v: string, w: string | ActionIdOf(v).Some? && ActionIdOf(v) == ActionIdOf(w) ensures v == w {
      ActionIsItsName(v);
      ActionIsItsName(w);
    }
    forall v: string, w: string | DirectionIdOf(v).Some? && DirectionIdOf(v) == DirectionIdOf(w) ensures v == w {
      DirectionIsItsName(v);
      DirectionIsItsName(w);
    }
    KnownNamesAreLower();
  }

  lemma {:induction false} KnownNamesAreLower()
    ensures forall v: string :: LogTypeIdOf(v).Some? ==> Lower(v) == v
    ensures forall v: string :: ActionIdOf(v).Some? ==> Lower(v) == v
    ensures forall v: string :: DirectionIdOf(v).Some? ==> Lower(v) == v
  {
    forall v: string ensures LogTypeIdOf(v).Some? ==> Lower(v) == v {
      if LogTypeIdOf(v).Some? {
        LogTypeIsItsName(v);
      }
    }
    forall v: string ensures ActionIdOf(v).Some? ==> Lower(v) == v {
      if ActionIdOf(v).Some? {
        ActionIsItsName(v);
      }
    }
    forall v: string ensures DirectionIdOf(v).Some? ==> Lower(v) == v {
      if DirectionIdOf(v).Some? {
        DirectionIsItsName(v);
      }
    }
  }

  /** The id is named in the list, in any spelling; `Chosen` asks for the right one. */
  predicate Folds(names: seq<string>, known: string -> Option<int>, id: Option<int>) {
    id.Some? && exists n :: n in names && known(Lower(n)) == id
  }

  predicate AnyFolds(names: seq<string>, known: string -> Option<int>) {
    exists n :: n in names && known(Lower(n)).Some?
  }

  /** What is named in any spelling is named in the right one. */
  predicate Spelt(names: seq<string>, known: string -> Option<int>) {
    forall n :: n in names && known(Lower(n)).Some? ==> Chosen(names, known, known(Lower(n)))
  }

  lemma {:induction false} ChosenFolds(names: seq<string>, known: string -> Option<int>, id: Option<int>)
    requires Proper(known) && Chosen(names, known, id)
    ensures Folds(names, known, id)
  {}

  /** The live list compares names, which comes to the ids. */
  lemma {:induction false} FoldIsId(names: seq<string>, known: string -> Option<int>, v: Option<string>,
                                    id: Option<int>)
    requires Proper(known) && SameId(v, known, id) && (v.Some? ==> known(v.value).Some?)
    ensures AnyFold(names, v) <==> Folds(names, known, id)
  {
    if v.Some? {
      assert Lower(v.value) == v.value;
      forall n | n in names ensures EqualFold(n, v.value) <==> known(Lower(n)) == id {
        assert EqualFold(n, v.value) <==> Lower(n) == v.value;
      }
    }
  }

  /** What the three lists say of a fresh row, and of a stored one. */
  predicate ListsPass(f: LogFilter, r: LiveRow) {
    && (f.logType == [] || AnyFold(f.logType, Some(r.logType)))
    && (f.action == [] || AnyFold(f.action, r.ruleAction))
    && (f.direction == [] || AnyFold(f.direction, r.direction))
  }

  predicate ListsMeet(f: LogFilter, l: LogRow) {
    TypeMeets(f, l) && ActionMeets(f, l) && DirectionMeets(f, l)
  }

  /** The live lists, asked of the stored ids. */
  predicate ListsFold(f: LogFilter, l: LogRow) {
    && (f.logType == [] || Folds(f.logType, LogTypeIdOf, Some(l.logTypeId)))
    && (f.action == [] || Folds(f.action, ActionIdOf, l.ruleActionId))
    && (f.direction == [] || Folds(f.direction, DirectionIdOf, l.directionId))
  }

  lemma {:induction false} PassIsFold(f: LogFilter, r: LiveRow, j: Joined)
    requires SameEvent(r, j)
    ensures ListsPass(f, r) <==> ListsFold(f, j.l)
  {
    KnownNamesAreProper();
    FoldIsId(f.logType, LogTypeIdOf, Some(r.logType), Some(j.l.logTypeId));
    FoldIsId(f.action, ActionIdOf, r.ruleAction, j.l.ruleActionId);
    FoldIsId(f.direction, DirectionIdOf, r.direction, j.l.directionId);
  }

  /** A list that names nothing, whatever the spelling: live nothing passes it. */
  predicate NeverPasses(f: LogFilter) {
    || (f.logType != [] && !AnyFolds(f.logType, LogTypeIdOf))
    || (f.action != [] && !AnyFolds(f.action, ActionIdOf))
    || (f.direction != [] && !AnyFolds(f.direction, DirectionIdOf))
  }

  /** A kind other than the firewall is asked for: it is let through the other two lists where it is stored. */
  predicate AsksOtherKind(f: LogFilter) {
    exists n :: n in f.logType && LogTypeIdOf(n).Some? && LogTypeIdOf(n) != Some(FIREWALL)
  }

  predicate AllKinds(names: seq<string>) {
    forall k :: 1 <= k <= 5 ==> Folds(names, LogTypeIdOf, Some(k))
  }

  /** Lists of which a live pass can be trusted: spelt as the names are, or without effect where stored;
      directions also if only kinds are asked for that are let through anyway. */
  predicate LiveListsSafe(f: LogFilter) {
    || NeverPasses(f)
    || (&& (Spelt(f.logType, LogTypeIdOf) || !AnyKnown(f.logType, LogTypeIdOf))
        && (Spelt(f.action, ActionIdOf) || !(AnyKnown(f.action, ActionIdOf) || WantsUnknown(f)))
        && (|| Spelt(f.direction, DirectionIdOf) || !AnyKnown(f.direction, DirectionIdOf)
            || (f.logType != [] && Spelt(f.logType, LogTypeIdOf) && !Folds(f.logType, LogTypeIdOf, Some(FIREWALL)))))
  }

  /** Lists of which a live reject can be trusted: where stored they have effect, with no choice of
      `unknown` and no kind let through. */
  predicate StoredListsSafe(f: LogFilter) {
    && (f.logType == [] || AnyKnown(f.logType, LogTypeIdOf) || AllKinds(f.logType))
    && (f.action == [] || (AnyKnown(f.action, ActionIdOf) && !WantsUnknown(f) && !AsksOtherKind(f)))
    && (f.direction == [] || (AnyKnown(f.direction, DirectionIdOf) && !AsksOtherKind(f)))
  }

  /** Lists both evaluators read alike. */
  predicate FaithfulLists(f: LogFilter) {
    LiveListsSafe(f) && StoredListsSafe(f)
  }

  lemma {:induction false} SafeFoldMeets(f: LogFilter, l: LogRow)
    requires LiveListsSafe(f) && ListsFold(f, l)
    ensures ListsMeet(f, l)
  {
    assert !NeverPasses(f);
  }

  lemma {:induction false} KindInRange(r: LiveRow, j: Joined)
    requires SameEvent(r, j)
    ensures 1 <= j.l.logTypeId <= 5
  {}

  lemma {:induction false} SafeMeetFolds(f: LogFilter, l: LogRow)
    requires StoredListsSafe(f) && ListsMeet(f, l) && 1 <= l.logTypeId <= 5
    ensures ListsFold(f, l)
  {
    KnownNamesAreProper();
    NoExemption(f, l);
    if f.logType != [] && AnyKnown(f.logType, LogTypeIdOf) {
      ChosenFolds(f.logType, LogTypeIdOf, Some(l.logTypeId));
    }
    if f.action != [] {
      ChosenFolds(f.action, ActionIdOf, l.ruleActionId);
    }
    if f.direction != [] {
      ChosenFolds(f.direction, DirectionIdOf, l.directionId);
    }
  }

  lemma {:induction false} NoExemption(f: LogFilter, l: LogRow)
    ensures OtherKindChosen(f, l) ==> AsksOtherKind(f)
  {}

  /** A row of any kind with any action and direction, and nothing else. */
  function Plain(kind: int, action: Option<int>, direction: Option<int>): Event {
    Event(BARE_LIVE.(logType := LogTypeName(kind),
                     ruleAction := if action.Some? then Some(ActionName(action.value)) else None,
                     direction := if direction.Some? then Some(DirectionName(direction.value)) else None),
          Joined(BARE_LOG.(logTypeId := kind, ruleActionId := action, directionId := direction), map[]))
  }

  ghost predicate PlainIds(kind: int, action: Option<int>, direction: Option<int>) {
    && (exists n :: LogTypeIdOf(n) == Some(kind))
    && (action.Some? ==> exists n :: ActionIdOf(n) == action)
    && (direction.Some? ==> exists n :: DirectionIdOf(n) == direction)
  }

  lemma {:induction false} PlainIsEvent(kind: int, action: Option<int>, direction: Option<int>)
    requires PlainIds(kind, action, direction)
    ensures IsEvent(Plain(kind, action, direction))
  {}

  lemma {:induction false} SomeFolded(names: seq<string>, known: string -> Option<int>) returns (id: Option<int>)
    requires AnyFolds(names, known)
    ensures Folds(names, known, id) && exists n :: known(n) == id
  {
    var n :| n in names && known(Lower(n)).Some?;
    id := known(Lower(n));
  }

  lemma {:induction false} SomeChosen(names: seq<string>, known: string -> Option<int>) returns (id: Option<int>)
    requires AnyKnown(names, known)
    ensures Chosen(names, known, id) && exists n :: known(n) == id
  {
    var n :| n in names && known(n).Some?;
    id := known(n);
  }

  /** A name that is not spelt as it should be. */
  lemma {:induction false} SomeMisspelt(names: seq<string>, known: string -> Option<int>) returns (id: Option<int>)
    requires !Spelt(names, known)
    ensures Folds(names, known, id) && !Chosen(names, known, id) && exists n :: known(n) == id
  {
    var n :| n in names && known(Lower(n)).Some? && !Chosen(names, known, known(Lower(n)));
    id := known(Lower(n));
  }

  /** Unless a list names nothing, some plain row passes all three live. */
  lemma {:induction false} SomePlainPasses(f: LogFilter)
    returns (kind: int, action: Option<int>, direction: Option<int>)
    requires !NeverPasses(f)
    ensures PlainIds(kind, action, direction) && ListsFold(f, Plain(kind, action, direction).stored.l)
    ensures f.logType == [] ==> kind == FIREWALL
  {
    kind, action, direction := FIREWALL, None, None;
    assert LogTypeIdOf("firewall") == Some(FIREWALL);
    if f.logType != [] {
      var id := SomeFolded(f.logType, LogTypeIdOf);
      kind := id.value;
    }
    if f.action != [] {
      action := SomeFolded(f.action, ActionIdOf);
    }
    if f.direction != [] {
      direction := SomeFolded(f.direction, DirectionIdOf);
    }
  }

  /** A plain row that unsafe lists pass live and drop stored. */
  lemma {:induction false} UnsafeLivePass(f: LogFilter) returns (e: Event)
    requires !LiveListsSafe(f)
    ensures IsEvent(e) && ListsFold(f, e.stored.l) && !ListsMeet(f, e.stored.l)
  {
    hide IsEvent, SameEvent, Chosen, AnyKnown, NeverPasses;
    var kind, action, direction := SomePlainPasses(f);
    if !Spelt(f.logType, LogTypeIdOf) && AnyKnown(f.logType, LogTypeIdOf) {
      var id := SomeMisspelt(f.logType, LogTypeIdOf);
      kind := id.value;
    } else if !Spelt(f.action, ActionIdOf) && (AnyKnown(f.action, ActionIdOf) || WantsUnknown(f)) {
      action := SomeMisspelt(f.action, ActionIdOf);
    } else {
      direction := SomeMisspelt(f.direction, DirectionIdOf);
      if f.logType != [] && !Spelt(f.logType, LogTypeIdOf) {
        var id := SomeMisspelt(f.logType, LogTypeIdOf);
        kind := id.value;
      } else {
        kind := FIREWALL;
        assert LogTypeIdOf("firewall") == Some(FIREWALL);
      }
    }
    e := Plain(kind, action, direction);
    PlainIsEvent(kind, action, direction);
  }

  /** Some plain row meets all three stored: of a kind that is let through, if one is asked for. */
  lemma {:induction false} SomePlainMeets(f: LogFilter)
    returns (kind: int, action: Option<int>, direction: Option<int>)
    ensures PlainIds(kind, action, direction) && ListsMeet(f, Plain(kind, action, direction).stored.l)
    ensures f.logType != [] && !AnyKnown(f.logType, LogTypeIdOf) && !AllKinds(f.logType) ==>
              !Folds(f.logType, LogTypeIdOf, Some(kind))
    ensures AsksOtherKind(f) ==> action.None? && direction.None?
    ensures !AnyKnown(f.action, ActionIdOf) || WantsUnknown(f) ==> action.None?
    ensures !AnyKnown(f.direction, DirectionIdOf) ==> direction.None?
  {
    kind, action, direction := FIREWALL, None, None;
    assert LogTypeIdOf("firewall") == Some(FIREWALL);
    if AsksOtherKind(f) {
      var n :| n in f.logType && LogTypeIdOf(n).Some? && LogTypeIdOf(n) != Some(FIREWALL);
      kind := LogTypeIdOf(n).value;
      assert OtherKindChosen(f, Plain(kind, action, direction).stored.l);
    } else {
      if AnyKnown(f.logType, LogTypeIdOf) {
        var id := SomeChosen(f.logType, LogTypeIdOf);
        kind := id.value;
      } else if !AllKinds(f.logType) {
        var k :| 1 <= k <= 5 && !Folds(f.logType, LogTypeIdOf, Some(k));
        kind := k;
        assert LogTypeIdOf(LogTypeName(k)) == Some(k);
      }
      if AnyKnown(f.action, ActionIdOf) && !WantsUnknown(f) {
        action := SomeChosen(f.action, ActionIdOf);
      }
      if AnyKnown(f.direction, DirectionIdOf) {
        direction := SomeChosen(f.direction, DirectionIdOf);
      }
    }
  }

  /** A plain row that unsafe lists keep stored and reject live: of a kind they let through, if one is
      asked for, and without the action or the direction that are chosen. */
  lemma {:induction false} UnsafeStoredMeet(f: LogFilter) returns (e: Event)
    requires !StoredListsSafe(f)
    ensures IsEvent(e) && ListsMeet(f, e.stored.l) && !ListsFold(f, e.stored.l)
  {
    var kind, action, direction := SomePlainMeets(f);
    e := Plain(kind, action, direction);
    PlainIsEvent(kind, action, direction);
  }

  /** The lists of a filter and nothing else. */
  function OnlyLists(f: LogFilter): LogFilter {
    UNFILTERED.(logType := f.logType, action := f.action, direction := f.direction)
  }

  lemma {:induction false} OnlyListsDecideLive(f: LogFilter, r: LiveRow, j: Joined)
    requires SameEvent(r, j)
    ensures MatchesLive(r, OnlyLists(f)) == (if ListsFold(f, j.l) then Pass else Reject)
  {
    Overall(r, OnlyLists(f));
    FieldsPassMeans(r, OnlyLists(f));
    PassIsFold(f, r, j);
    hide MatchesLive, FieldsPass, SameEvent, ListsFold, AnyFold;
  }

  lemma {:induction false} OnlyListsDecideStored(f: LogFilter, j: Joined)
    ensures EvalAll(Wheres(OnlyLists(f)), j).True? <==> ListsMeet(f, j.l)
  {
    hide Wheres, EvalAll;
    WhereMeansFilter(OnlyLists(f), j);
  }

  lemma {:induction false} OnlyListsDecide(f: LogFilter, r: LiveRow, j: Joined)
    requires SameEvent(r, j)
    ensures MatchesLive(r, OnlyLists(f)) == (if ListsFold(f, j.l) then Pass else Reject)
    ensures EvalAll(Wheres(OnlyLists(f)), j).True? <==> ListsMeet(f, j.l)
  {
    hide *;
    OnlyListsDecideLive(f, r, j);
    OnlyListsDecideStored(f, j);
  }

  /** On every event, for the lists of any filter: when a live pass can be trusted, when a reject can, and
      when both. */
  lemma {:induction false} ListsReadAlike(f: LogFilter)
    ensures (forall e :: IsEvent(e) && MatchesLive(e.live, OnlyLists(f)) == Pass ==>
               EvalAll(Wheres(OnlyLists(f)), e.stored).True?) <==> LiveListsSafe(f)
    ensures (forall e :: IsEvent(e) && EvalAll(Wheres(OnlyLists(f)), e.stored).True? ==>
               MatchesLive(e.live, OnlyLists(f)) == Pass) <==> StoredListsSafe(f)
    ensures (forall e :: IsEvent(e) ==>
               (MatchesLive(e.live, OnlyLists(f)) == Pass <==> EvalAll(Wheres(OnlyLists(f)), e.stored).True?))
            <==> FaithfulLists(f)
  {
    hide *;
    ListsFaithfulIs(f);
    if LiveListsSafe(f) {
      forall e | IsEvent(e) && MatchesLive(e.live, OnlyLists(f)) == Pass
        ensures EvalAll(Wheres(OnlyLists(f)), e.stored).True?
      {
        EventIsSame(e);
        OnlyListsDecide(f, e.live, e.stored);
        SafeFoldMeets(f, e.stored.l);
      }
    } else {
      var e := UnsafeLivePass(f);
      EventIsSame(e);
      OnlyListsDecide(f, e.live, e.stored);
    }
    if StoredListsSafe(f) {
      forall e | IsEvent(e) && EvalAll(Wheres(OnlyLists(f)), e.stored).True?
        ensures MatchesLive(e.live, OnlyLists(f)) == Pass
      {
        EventIsSame(e);
        OnlyListsDecide(f, e.live, e.stored);
        KindInRange(e.live, e.stored);
        SafeMeetFolds(f, e.stored.l);
      }
    } else {
      var e := UnsafeStoredMeet(f);
      EventIsSame(e);
      OnlyListsDecide(f, e.live, e.stored);
    }
  }

  lemma {:induction false} ListsFaithfulIs(f: LogFilter)
    ensures FaithfulLists(f) <==> LiveListsSafe(f) && StoredListsSafe(f)
  {}

  lemma {:induction false} EventIsSame(e: Event)
    requires IsEvent(e)
    ensures SameEvent(e.live, e.stored)
  {}

  /** For the names the interface offers: live passes are always right, and rejects are right exactly if
      neither list is used, or neither `unknown` nor a kind other than the firewall is chosen. */
  lemma {:induction false} OfferedLists(f: LogFilter)
    requires Canonical(f)
    ensures LiveListsSafe(f)
    ensures FaithfulLists(f) <==>
              || (f.action == [] && f.direction == [])
              || ((forall n :: n in f.logType ==> n == "firewall") && "unknown" !in f.action)
  {
    KnownNamesAreProper();
    if f.logType != [] {
      assert f.logType[0] in f.logType;
    }
    if f.action != [] {
      assert f.action[0] in f.action;
    }
    if f.direction != [] {
      assert f.direction[0] in f.direction;
    }
    OfferedAreSpelt(f);
    OtherKindIsNoFirewall(f);
  }

  lemma {:induction false} OfferedAreSpelt(f: LogFilter)
    requires Canonical(f)
    ensures Spelt(f.logType, LogTypeIdOf) && Spelt(f.action, ActionIdOf) && Spelt(f.direction, DirectionIdOf)
  {
    KnownNamesAreProper();
    assert ActionIdOf(Lower("unknown")).None? by {
      assert Lower("unknown") == "unknown";
    }
  }

  lemma {:induction false} OtherKindIsNoFirewall(f: LogFilter)
    requires Canonical(f)
    ensures AsksOtherKind(f) <==> exists n :: n in f.logType && n != "firewall"
  {
    KnownNamesAreProper();
    assert LogTypeIdOf("firewall") == Some(FIREWALL);
  }

  // ---- the whole

  /** The rows the stored filter may let through a list that does not name them. */
  predicate OutsideLists(f: LogFilter, l: LogRow) {
    || (f.logType != [] && !Folds(f.logType, LogTypeIdOf, Some(l.logTypeId)))
    || (f.action != [] && !Folds(f.action, ActionIdOf, l.ruleActionId))
    || (f.direction != [] && !Folds(f.direction, DirectionIdOf, l.directionId))
  }

  lemma {:induction false} FieldsAgree(f: LogFilter, r: LiveRow, j: Joined)
    requires SameEvent(r, j)
    ensures FieldsPass(r, f) <==>
      && !OutsideLists(f, j.l) && InterfaceMeets(f, j)
      && ProtocolMeets(f, j) && ExactInterfaceMeets(f.ifaceIn, TextOf(Name(Ii), j))
      && ExactInterfaceMeets(f.ifaceOut, TextOf(Name(Io), j)) && PortMeets(f, j.l)
  {
    PassIsFold(f, r, j);
    NamesAgree(f, r, j);
    FieldsPassMeans(r, f);
  }

  lemma {:induction false} FieldsPassMeans(r: LiveRow, f: LogFilter)
    ensures FieldsPass(r, f) <==>
      && (f.logType == [] || AnyFold(f.logType, Some(r.logType)))
      && (f.action == [] || AnyFold(f.action, r.ruleAction))
      && (f.direction == [] || AnyFold(f.direction, r.direction))
      && IfaceVerdict(f.iface, r.ifaceIn, r.ifaceOut) == Pass
      && ExactIfaceVerdict(f.ifaceIn, r.ifaceIn) == Pass && ExactIfaceVerdict(f.ifaceOut, r.ifaceOut) == Pass
      && ListVerdict(f.proto, r.protocol) == Pass
      && PortVerdict(f.port, r.srcPort, r.dstPort) == Pass
  {}

  /** A live pass can be relied on: the stored row meets the filter. */
  lemma {:induction false} PassIsKept(f: LogFilter, r: LiveRow, j: Joined)
    requires SameEvent(r, j) && LiveListsSafe(f) && TimeMeets(f, j.l)
    requires forall t :: t in f.terms ==> Sound(t)
    requires MatchesLive(r, f) == Pass
    ensures EvalAll(Wheres(f), j).True?
  {
    Overall(r, f);
    FieldsAgree(f, r, j);
    SafeFoldMeets(f, j.l);
    EnrichmentAgrees(f, r, j);
    PassedTermsMeet(f.terms, r, j);
    WhereMeansFilter(f, j);
  }

  lemma {:induction false} PassedTermsMeet(terms: seq<Term>, r: LiveRow, j: Joined)
    requires SameEvent(r, j) && forall t :: t in terms ==> Sound(t)
    requires SearchVerdict(r, terms) == Pass
    ensures TermsMeet(terms, j)
  {
    CombinedSearch(r, terms);
    forall i | 0 <= i < |terms| ensures TermHolds(terms[i], j) != terms[i].negated {
      assert terms[i] in terms;
      if terms[i].negated && TermHolds(terms[i], j) {
        SafeStoredTermHits(r, j, terms[i]);
      } else if !terms[i].negated {
        SafeLiveHitHolds(r, j, terms[i]);
      }
    }
  }

  /** And so can a live reject: the stored row does not meet it. */
  lemma {:induction false} RejectIsDropped(f: LogFilter, r: LiveRow, j: Joined)
    requires SameEvent(r, j) && StoredListsSafe(f) && TimeMeets(f, j.l)
    requires forall t :: t in f.terms ==> Complete(t)
    requires MatchesLive(r, f) == Reject
    ensures !EvalAll(Wheres(f), j).True?
  {
    Overall(r, f);
    FieldsAgree(f, r, j);
    if ListsMeet(f, j.l) {
      KindInRange(r, j);
      SafeMeetFolds(f, j.l);
    }
    EnrichmentAgrees(f, r, j);
    WhereMeansFilter(f, j);
    if SearchVerdict(r, f.terms) == Reject {
      RejectedTermFails(f.terms, r, j);
    }
  }

  lemma {:induction false} RejectedTermFails(terms: seq<Term>, r: LiveRow, j: Joined)
    requires SameEvent(r, j) && forall t :: t in terms ==> Complete(t)
    requires SearchVerdict(r, terms) == Reject
    ensures !TermsMeet(terms, j)
  {
    CombinedSearch(r, terms);
    var t :| t in terms && !AsksEnrichment(t) && Hits(r, t) == t.negated;
    if Hits(r, t) {
      SafeLiveHitHolds(r, j, t);
    } else if TermHolds(t, j) {
      SafeStoredTermHits(r, j, t);
    }
    var i :| 0 <= i < |terms| && terms[i] == t;
    assert TermHolds(terms[i], j) == terms[i].negated;
  }

  /** The exact relation for terms read alike: a verdict that is given passes precisely the rows the
      stored filter keeps, less those it let through a list that does not name them; and those are none
      if the lists are read alike as well. */
  lemma {:induction false} LiveAgreesWithStored(f: LogFilter, r: LiveRow, j: Joined)
    requires SameEvent(r, j) && LiveListsSafe(f) && TimeMeets(f, j.l)
    requires forall t :: t in f.terms ==> Faithful(t)
    requires MatchesLive(r, f) != Unknowable
    ensures MatchesLive(r, f) == Pass <==> EvalAll(Wheres(f), j).True? && !OutsideLists(f, j.l)
    ensures FaithfulLists(f) ==> (MatchesLive(r, f) == Pass <==> EvalAll(Wheres(f), j).True?)
  {
    Overall(r, f);
    FieldsAgree(f, r, j);
    EnrichmentAgrees(f, r, j);
    WhereMeansFilter(f, j);
    if MatchesLive(r, f) == Pass {
      PassIsKept(f, r, j);
    } else {
      if SearchVerdict(r, f.terms) == Reject {
        RejectedTermFails(f.terms, r, j);
      }
      if StoredListsSafe(f) {
        RejectIsDropped(f, r, j);
      }
    }
  }

  // ---- where the two part

  /** The live check knows no rows without an action: `unknown` alone finds them stored and never live. */
  lemma {:induction false} UnknownActionDiffers(r: LiveRow, j: Joined)
    requires SameEvent(r, j) && r.ruleAction.None?
    ensures var f := UNFILTERED.(action := ["unknown"]);
            EvalAll(Wheres(f), j).True? && MatchesLive(r, f) == Reject
  {
    var f := UNFILTERED.(action := ["unknown"]);
    assert f.action[0] == "unknown";
    WhereMeansFilter(f, j);
    FieldsPassMeans(r, f);
    Overall(r, f);
  }

  /** A severity threshold is free text to the live check: a row that meets it and says nothing
      of the kind in its texts is rejected. */
  lemma {:induction false} SeverityTermDiffers(r: LiveRow, j: Joined, t: Term)
    requires t.value.Text? && t.field == Some(Severity)
    requires forall s :: s in FreeTexts(r) ==> !TextHit(s, t.value.text, t.glob)
    requires SeverityLevel(t.value.text).Some? && j.l.severity.Some?
    requires j.l.severity.value <= SeverityLevel(t.value.text).value
    ensures TermHit(r, t) == Reject && TermHolds(t, j)
  {}

  /** So is a program's name. */
  lemma {:induction false} ProgramTermDiffers(r: LiveRow, j: Joined, t: Term)
    requires t.value.Text? && t.field == Some(Program)
    requires forall s :: s in FreeTexts(r) ==> !TextHit(s, t.value.text, t.glob)
    requires ColumnReads(Name(Pg), t.value.text, t.glob, j)
    ensures TermHit(r, t) == Reject && TermHolds(t, j)
  {
    assert ColumnsOf(t.field)[0] == Name(Pg);
    ColumnSuffices(t.value.text, t.field, t.glob, j, Name(Pg));
  }

  /** The name of an action or a type in capitals hits live what it names, and nothing stored. */
  lemma {:induction false} SpellingDiffers(r: LiveRow, j: Joined, t: Term)
    requires SameEvent(r, j) && t.value.Text? && Lower(t.value.text) != t.value.text
    requires (t.field == Some(Action) && r.ruleAction == Some(Lower(t.value.text)))
             || (t.field == Some(LogType) && r.logType == Lower(t.value.text))
    ensures TermHit(r, t) == Pass && !TermHolds(t, j)
  {
    IdTermAgrees(r, j, t.value.text, t.glob);
    LowerIdempotent(t.value.text);
  }
}
