/** The live stream's evaluator: the same filter, asked of a row that was just written. */
module Live {
  import opened Basics
  import opened Text
  import opened Net
  import opened Search
  import opened Filters
  import Glob

  datatype Verdict = Pass | Reject | Unknowable

  /** A fresh row: names instead of ids, and of the enrichment only what was known already. */
  datatype LiveRow = LiveRow(
    logType: string, direction: Option<string>, ruleAction: Option<string>,
    ruleName: Option<string>, protocol: Option<string>, ifaceIn: Option<string>, ifaceOut: Option<string>,
    srcIp: Option<Address>, dstIp: Option<Address>, srcPort: Option<int>, dstPort: Option<int>,
    macAddress: Option<string>, hostname: Option<string>, dnsQuery: Option<string>, dnsType: Option<string>,
    dnsAnswer: Option<string>, dhcpEvent: Option<string>, wifiEvent: Option<string>, rawLog: Option<string>,
    geoCountry: Option<string>, threatScore: Option<int>)

  /** Three-valued AND: a sure no wins, then a don't-know. */
  function Combined(vs: seq<Verdict>): Verdict {
    if Reject in vs then Reject else if Unknowable in vs then Unknowable else Pass
  }

  method Combine(verdicts: seq<Verdict>) returns (v: Verdict)
    ensures v == Combined(verdicts)
  {
    var unknowable := false;
    for i := 0 to |verdicts|
      invariant Reject !in verdicts[..i]
      invariant unknowable <==> Unknowable in verdicts[..i]
    {
      if verdicts[i] == Reject {
        return Reject;
      }
      if verdicts[i] == Unknowable {
        unknowable := true;
      }
    }
    assert verdicts[..|verdicts|] == verdicts;
    return if unknowable then Unknowable else Pass;
  }

  function Decided(hit: bool): Verdict {
    if hit then Pass else Reject
  }

  predicate EqualFold(a: string, b: string) {
    Lower(a) == Lower(b)
  }

  predicate AnyFold(active: seq<string>, v: Option<string>) {
    v.Some? && exists a :: a in active && EqualFold(a, v.value)
  }

  function ListVerdict(active: seq<string>, v: Option<string>): Verdict {
    Decided(active == [] || AnyFold(active, v))
  }

  function IfaceVerdict(active: seq<string>, ifaceIn: Option<string>, ifaceOut: Option<string>): Verdict {
    Decided(active == [] || AnyFold(active, ifaceIn) || AnyFold(active, ifaceOut))
  }

  function ExactIfaceVerdict(want: Option<string>, have: Option<string>): Verdict {
    Decided(want.None? || want.value == "" || (have.Some? && EqualFold(have.value, want.value)))
  }

  function PortVerdict(port: Option<int>, src: Option<int>, dst: Option<int>): Verdict {
    Decided(port.None? || src == port || dst == port)
  }

  function CountryVerdict(f: LogFilter, row: LiveRow): Verdict {
    if f.country == [] then Pass
    else if row.geoCountry.None? then Unknowable
    else Decided(AnyFold(f.country, row.geoCountry))
  }

  function ThreatVerdict(f: LogFilter, row: LiveRow): Verdict {
    if f.threatMin.None? then Pass
    else if row.threatScore.None? then Unknowable
    else Decided(row.threatScore.value >= f.threatMin.value)
  }

  function EnrichedVerdict(f: LogFilter, row: LiveRow): Verdict {
    Combined([CountryVerdict(f, row), ThreatVerdict(f, row)])
  }

  predicate TextHit(hay: Option<string>, needle: string, glob: bool) {
    hay.Some? &&
    if glob then Glob.MatchesOpen(Lower(needle), Lower(hay.value))
    else Contains(Lower(hay.value), Lower(needle))
  }

  /** The texts a free search looks into, as far as a fresh row has them. */
  function FreeTexts(row: LiveRow): seq<Option<string>> {
    [row.ruleName, row.protocol, row.ifaceIn, row.ifaceOut, row.hostname, row.dnsQuery, row.dnsType,
     row.dnsAnswer, row.dhcpEvent, row.wifiEvent, row.rawLog, row.macAddress]
  }

  /** Only the enrichment knows these. */
  predicate AsksEnrichment(t: Term) {
    t.value.AsnNo? || (t.value.Text? && (t.field == Some(Country) || t.field == Some(Asn)))
  }

  predicate TextTermHits(row: LiveRow, t: string, field: Option<Field>, glob: bool) {
    if field == Some(Action) then row.ruleAction.Some? && EqualFold(row.ruleAction.value, t)
    else if field == Some(LogType) then EqualFold(row.logType, t)
    else if field == Some(Rule) then TextHit(row.ruleName, t, glob)
    else if field == Some(Protocol) then TextHit(row.protocol, t, glob)
    else if field == Some(Interface) then TextHit(row.ifaceIn, t, glob) || TextHit(row.ifaceOut, t, glob)
    else if field == Some(Host) then TextHit(row.hostname, t, glob)
    else exists s :: s in FreeTexts(row) && TextHit(s, t, glob)
  }

  /** Whether the row has what the term asks for, negation aside. */
  predicate Hits(row: LiveRow, t: Term) {
    match t.value
    case Ip(a) => Side(t.field, SrcIp, DstIp, row.srcIp == Some(a), row.dstIp == Some(a))
    case Cidr(net) => Side(t.field, SrcIp, DstIp, Within(net, row.srcIp), Within(net, row.dstIp))
    case PortNo(p) => Side(t.field, SrcPort, DstPort, row.srcPort == Some(p), row.dstPort == Some(p))
    case Mac(m) => row.macAddress.Some? && Lower(row.macAddress.value) == m
    case AsnNo(n) => false
    case Text(s) => TextTermHits(row, s, t.field, t.glob)
  }

  function TermHit(row: LiveRow, t: Term): Verdict {
    if AsksEnrichment(t) then Unknowable else Decided(Hits(row, t))
  }

  function TermVerdict(row: LiveRow): Term -> Verdict {
    (t: Term) =>
      match TermHit(row, t)
      case Unknowable => Unknowable
      case Pass => if t.negated then Reject else Pass
      case Reject => if t.negated then Pass else Reject
  }

  function SearchVerdict(row: LiveRow, terms: seq<Term>): Verdict {
    Combined(Map(terms, TermVerdict(row)))
  }

  function FieldVerdicts(row: LiveRow, f: LogFilter): seq<Verdict> {
    [ListVerdict(f.logType, Some(row.logType)),
     ListVerdict(f.action, row.ruleAction),
     ListVerdict(f.direction, row.direction),
     IfaceVerdict(f.iface, row.ifaceIn, row.ifaceOut),
     ExactIfaceVerdict(f.ifaceIn, row.ifaceIn),
     ExactIfaceVerdict(f.ifaceOut, row.ifaceOut),
     ListVerdict(f.proto, row.protocol),
     PortVerdict(f.port, row.srcPort, row.dstPort)]
  }

  function MatchesLive(row: LiveRow, f: LogFilter): Verdict {
    Combined(FieldVerdicts(row, f) + [EnrichedVerdict(f, row), SearchVerdict(row, f.terms)])
  }

  // ---- what the combination says

  lemma {:induction false} CombinedSearch(row: LiveRow, terms: seq<Term>)
    ensures SearchVerdict(row, terms) == Reject
       <==> exists t :: t in terms && !AsksEnrichment(t) && Hits(row, t) == t.negated
    ensures SearchVerdict(row, terms) == Pass
       <==> forall t :: t in terms ==> !AsksEnrichment(t) && Hits(row, t) != t.negated
  {}

  /** The parts of the verdict that depend on no enrichment. */
  predicate FieldsPass(row: LiveRow, f: LogFilter) {
    Reject !in FieldVerdicts(row, f)
  }

  lemma {:induction false} Overall(row: LiveRow, f: LogFilter)
    ensures MatchesLive(row, f) == Reject <==>
      !FieldsPass(row, f) || CountryVerdict(f, row) == Reject || ThreatVerdict(f, row) == Reject
      || SearchVerdict(row, f.terms) == Reject
    ensures MatchesLive(row, f) == Pass <==>
      FieldsPass(row, f) && CountryVerdict(f, row) == Pass && ThreatVerdict(f, row) == Pass
      && SearchVerdict(row, f.terms) == Pass
  {}

  // ---- stability

  /** `b` is `a` with a missing country or threat score filled in. */
  predicate Learns(a: LiveRow, b: LiveRow) {
    && b == a.(geoCountry := b.geoCountry, threatScore := b.threatScore)
    && (a.geoCountry.Some? ==> b.geoCountry == a.geoCountry)
    && (a.threatScore.Some? ==> b.threatScore == a.threatScore)
  }

  lemma {:induction false} SearchIgnoresEnrichment(a: LiveRow, b: LiveRow, terms: seq<Term>)
    requires Learns(a, b)
    ensures SearchVerdict(a, terms) == SearchVerdict(b, terms)
  {}

  /** Whatever the missing country or score turns out to be, a verdict once given stands. */
  lemma {:induction false} VerdictsAreStable(a: LiveRow, b: LiveRow, f: LogFilter)
    requires Learns(a, b)
    ensures MatchesLive(a, f) != Unknowable ==> MatchesLive(b, f) == MatchesLive(a, f)
  {
    Overall(a, f);
    Overall(b, f);
    SearchIgnoresEnrichment(a, b, f.terms);
    assert FieldVerdicts(a, f) == FieldVerdicts(b, f);
  }

  /** Once both are known, a row stays unknowable exactly when a country or ASN term is asked
      and everything else lets it pass. */
  lemma {:induction false} WhatStaysUnknowable(row: LiveRow, f: LogFilter)
    requires row.geoCountry.Some? && row.threatScore.Some?
    ensures MatchesLive(row, f) == Unknowable <==>
      && (exists t :: t in f.terms && AsksEnrichment(t))
      && MatchesLive(row, f.(terms := Filter(f.terms, t => !AsksEnrichment(t)))) == Pass
  {
    var g := f.(terms := Filter(f.terms, t => !AsksEnrichment(t)));
    Overall(row, f);
    Overall(row, g);
    CombinedSearch(row, f.terms);
    CombinedSearch(row, g.terms);
    forall t ensures t in g.terms <==> t in f.terms && !AsksEnrichment(t) {
      FilterMember(f.terms, t => !AsksEnrichment(t), t);
    }
    assert FieldVerdicts(row, f) == FieldVerdicts(row, g);
    assert CountryVerdict(f, row) == CountryVerdict(g, row) && ThreatVerdict(f, row) == ThreatVerdict(g, row);
  }

  // ---- where a fresh row is searched

  /** Free text, and text under a prefix the row has nothing of its own for, is looked for in twelve texts. */
  lemma {:induction false} FreeTextIsSearchedIn(row: LiveRow, t: string, field: Option<Field>, glob: bool)
    requires field !in {Some(Action), Some(LogType), Some(Rule), Some(Protocol), Some(Interface), Some(Host)}
    ensures TextTermHits(row, t, field, glob) <==>
              || TextHit(row.ruleName, t, glob) || TextHit(row.protocol, t, glob)
              || TextHit(row.ifaceIn, t, glob) || TextHit(row.ifaceOut, t, glob)
              || TextHit(row.hostname, t, glob) || TextHit(row.dnsQuery, t, glob)
              || TextHit(row.dnsType, t, glob) || TextHit(row.dnsAnswer, t, glob)
              || TextHit(row.dhcpEvent, t, glob) || TextHit(row.wifiEvent, t, glob)
              || TextHit(row.rawLog, t, glob) || TextHit(row.macAddress, t, glob)
  {
    hide TextHit;
    var texts := FreeTexts(row);
    assert texts[0] in texts && texts[1] in texts && texts[2] in texts && texts[3] in texts;
    assert texts[4] in texts && texts[5] in texts && texts[6] in texts && texts[7] in texts;
    assert texts[8] in texts && texts[9] in texts && texts[10] in texts && texts[11] in texts;
  }
}
