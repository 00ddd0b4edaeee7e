/** What a filter means, in plain two-valued terms, and that the emitted WHERE clause says just that. */
module FilterMeaning {
  import opened Basics
  import opened Text
  import opened Net
  import opened Search
  import opened Sql
  import opened Filters
  import Glob

  // ---- the plain reading

  predicate AnyKnown(names: seq<string>, known: string -> Option<int>) {
    exists n :: n in names && known(n).Some?
  }

  predicate Chosen(names: seq<string>, known: string -> Option<int>, id: Option<int>) {
    id.Some? && exists n :: n in names && known(n) == id
  }

  /** The row is of a kind that was asked for by name and is not the firewall. */
  predicate OtherKindChosen(f: LogFilter, l: LogRow) {
    l.logTypeId != FIREWALL && Chosen(f.logType, LogTypeIdOf, Some(l.logTypeId))
  }

  predicate TypeMeets(f: LogFilter, l: LogRow) {
    AnyKnown(f.logType, LogTypeIdOf) ==> Chosen(f.logType, LogTypeIdOf, Some(l.logTypeId))
  }

  predicate ActionMeets(f: LogFilter, l: LogRow) {
    AnyKnown(f.action, ActionIdOf) || WantsUnknown(f) ==>
      if l.ruleActionId.Some? then Chosen(f.action, ActionIdOf, l.ruleActionId)
      else WantsUnknown(f) || OtherKindChosen(f, l)
  }

  predicate DirectionMeets(f: LogFilter, l: LogRow) {
    AnyKnown(f.direction, DirectionIdOf) ==>
      Chosen(f.direction, DirectionIdOf, l.directionId) || OtherKindChosen(f, l)
  }

  predicate SameName(have: Option<string>, want: string) {
    have.Some? && Lower(have.value) == Lower(want)
  }

  predicate InterfaceMeets(f: LogFilter, j: Joined) {
    f.iface != [] ==>
      exists n :: n in f.iface && (SameName(TextOf(Name(Ii), j), n) || SameName(TextOf(Name(Io), j), n))
  }

  predicate ProtocolMeets(f: LogFilter, j: Joined) {
    f.proto != [] ==> exists n :: n in f.proto && SameName(TextOf(Name(Pr), j), n)
  }

  predicate CountryMeets(f: LogFilter, l: LogRow) {
    f.country != [] ==> l.geoCountry.Some? && exists c :: c in f.country && Upper(c) == l.geoCountry.value
  }

  predicate ExactInterfaceMeets(want: Option<string>, have: Option<string>) {
    want.Some? && want.value != "" ==> SameName(have, want.value)
  }

  predicate PortMeets(f: LogFilter, l: LogRow) {
    f.port.Some? ==> l.srcPort == f.port || l.dstPort == f.port
  }

  predicate ThreatMeets(f: LogFilter, l: LogRow) {
    f.threatMin.Some? ==> l.threatScore.Some? && l.threatScore.value >= f.threatMin.value
  }

  predicate TimeMeets(f: LogFilter, l: LogRow) {
    && (Since(f).Some? ==> l.timestamp >= Since(f).value)
    && (f.to.Some? ==> l.timestamp <= f.to.value)
  }

  /** How a text term reads a text: contained in it, or matching it whole where stars are used.
      LIKE's own metacharacters keep their SQL meaning. */
  predicate Reads(t: string, glob: bool, text: string) {
    if !Glob.NoLikeMeta(t) then Glob.ILike(Glob.Pattern(t, glob), text)
    else if glob then Glob.MatchesWhole(Lower(t), Lower(text))
    else Contains(Lower(text), Lower(t))
  }

  predicate ColumnReads(c: TextCol, t: string, glob: bool, j: Joined) {
    TextOf(c, j).Some? && Reads(t, glob, TextOf(c, j).value)
  }

  predicate TextHolds(t: string, field: Option<Field>, glob: bool, j: Joined) {
    if field == Some(Action) then ActionIdOf(t).Some? && j.l.ruleActionId == ActionIdOf(t)
    else if field == Some(LogType) then LogTypeIdOf(t) == Some(j.l.logTypeId)
    else if field == Some(Severity) then
      SeverityLevel(t).Some? && j.l.severity.Some? && j.l.severity.value <= SeverityLevel(t).value
    else exists c :: c in ColumnsOf(field) && ColumnReads(c, t, glob, j)
  }

  /** Whether a row has what a term asks for; a missing column never has it. */
  predicate TermHolds(t: Term, j: Joined) {
    match t.value
    case Ip(a) => Side(t.field, SrcIp, DstIp, j.l.srcIp == Some(a), j.l.dstIp == Some(a))
    case Cidr(net) => Side(t.field, SrcIp, DstIp, Within(net, j.l.srcIp), Within(net, j.l.dstIp))
    case PortNo(p) => Side(t.field, SrcPort, DstPort, j.l.srcPort == Some(p), j.l.dstPort == Some(p))
    case Mac(m) => j.l.macAddress == Some(m)
    case AsnNo(n) => j.l.asnNumber == Some(n)
    case Text(s) => TextHolds(s, t.field, t.glob, j)
  }

  predicate FieldsMeet(f: LogFilter, j: Joined) {
    && TypeMeets(f, j.l) && ActionMeets(f, j.l) && DirectionMeets(f, j.l)
    && InterfaceMeets(f, j) && ProtocolMeets(f, j) && CountryMeets(f, j.l)
    && ExactInterfaceMeets(f.ifaceIn, TextOf(Name(Ii), j))
    && ExactInterfaceMeets(f.ifaceOut, TextOf(Name(Io), j))
    && PortMeets(f, j.l) && ThreatMeets(f, j.l)
  }

  predicate TermsMeet(terms: seq<Term>, j: Joined) {
    forall i :: 0 <= i < |terms| ==> TermHolds(terms[i], j) != terms[i].negated
  }

  predicate Meets(f: LogFilter, j: Joined) {
    FieldsMeet(f, j) && TimeMeets(f, j.l) && TermsMeet(f.terms, j)
  }

  // ---- clause by clause

  lemma {:induction false} EvalOne(c: Cond, j: Joined)
    ensures EvalAll([c], j) == And3(Eval(c, j), True)
  {}

  lemma {:induction false} NoneKnown(names: seq<string>, known: string -> Option<int>)
    ensures Ids(names, known) == [] <==> !AnyKnown(names, known)
  {
    var ids := Ids(names, known);
    if ids != [] {
      assert ids[0] in ids;
    }
    if n :| n in names && known(n).Some? {
      assert known(n).value in ids;
    }
  }

  lemma {:induction false} OtherKinds(f: LogFilter, l: LogRow)
    ensures l.logTypeId in NonFirewall(f.logType) <==> OtherKindChosen(f, l)
  {
    FilterMember(Ids(f.logType, LogTypeIdOf), id => id != FIREWALL, l.logTypeId);
  }

  lemma {:induction false} TypeClauseMeans(f: LogFilter, j: Joined)
    ensures EvalAll(TypeClause(f), j).True? <==> TypeMeets(f, j.l)
  {
    NoneKnown(f.logType, LogTypeIdOf);
    EvalAllTrue(TypeClause(f), j);
    var types := Ids(f.logType, LogTypeIdOf);
    if types != [] {
      var c := IntAny(LogTypeId, types);
      assert TypeClause(f)[|TypeClause(f)| - 1] == c;
      assert forall i :: 0 <= i < |TypeClause(f)| - 1 ==> TypeClause(f)[i] == IntIs(LogTypeId, Ne, FIREWALL);
      assert Eval(c, j).True? <==> j.l.logTypeId in types;
    }
  }

  /** The planner hint beside the type list changes the outcome for no row. */
  lemma {:induction false} PlannerHintChangesNothing(f: LogFilter, j: Joined)
    requires Ids(f.logType, LogTypeIdOf) != []
    ensures EvalAll(TypeClause(f), j) == EvalAll([IntAny(LogTypeId, Ids(f.logType, LogTypeIdOf))], j)
  {}

  lemma {:induction false} ChosenIsListed(names: seq<string>, known: string -> Option<int>, id: int)
    ensures Chosen(names, known, Some(id)) <==> id in Ids(names, known)
  {}

  lemma {:induction false} EvalEither(a: Cond, b: Cond, j: Joined)
    ensures Eval(Either(a, b), j).True? <==> Eval(a, j).True? || Eval(b, j).True?
  {}

  lemma {:induction false} EvalIds(ids: seq<int>, j: Joined)
    ensures Eval(IntAny(RuleActionId, ids), j).True? <==> j.l.ruleActionId.Some? && j.l.ruleActionId.value in ids
    ensures Eval(IntAny(DirectionId, ids), j).True? <==> j.l.directionId.Some? && j.l.directionId.value in ids
    ensures Eval(IntAny(LogTypeId, ids), j).True? <==> j.l.logTypeId in ids
    ensures Eval(IntNull(RuleActionId), j).True? <==> j.l.ruleActionId.None?
    ensures Eval(Both(IntNull(RuleActionId), IntAny(LogTypeId, ids)), j).True?
       <==> j.l.ruleActionId.None? && j.l.logTypeId in ids
  {}

  lemma {:induction false} ActionCondMeans(actions: seq<int>, unknown: bool, others: seq<int>, j: Joined)
    requires actions != [] || unknown
    ensures EvalAll(ActionCond(actions, unknown, others), j).True?
       <==> if j.l.ruleActionId.Some? then j.l.ruleActionId.value in actions
            else unknown || j.l.logTypeId in others
  {
    var known, none := IntAny(RuleActionId, actions), IntNull(RuleActionId);
    var chosen := if actions != [] && unknown then Either(known, none) else if unknown then none else known;
    var exempt := Both(none, IntAny(LogTypeId, others));
    EvalOne(ActionCond(actions, unknown, others)[0], j);
    EvalIds(actions, j);
    EvalIds(others, j);
    EvalEither(known, none, j);
    EvalEither(chosen, exempt, j);
  }

  lemma {:induction false} ActionClauseMeans(f: LogFilter, j: Joined)
    ensures EvalAll(ActionClause(f), j).True? <==> ActionMeets(f, j.l)
  {
    NoneKnown(f.action, ActionIdOf);
    if Ids(f.action, ActionIdOf) != [] || WantsUnknown(f) {
      ActionCondMeans(Ids(f.action, ActionIdOf), WantsUnknown(f), NonFirewall(f.logType), j);
      OtherKinds(f, j.l);
      if j.l.ruleActionId.Some? {
        ChosenIsListed(f.action, ActionIdOf, j.l.ruleActionId.value);
      }
    }
  }

  lemma {:induction false} DirectionCondMeans(directions: seq<int>, others: seq<int>, j: Joined)
    requires directions != []
    ensures EvalAll(DirectionCond(directions, others), j).True?
       <==> (j.l.directionId.Some? && j.l.directionId.value in directions) || j.l.logTypeId in others
  {
    EvalOne(DirectionCond(directions, others)[0], j);
    EvalIds(directions, j);
    EvalIds(others, j);
    EvalEither(IntAny(DirectionId, directions), IntAny(LogTypeId, others), j);
  }

  lemma {:induction false} DirectionClauseMeans(f: LogFilter, j: Joined)
    ensures EvalAll(DirectionClause(f), j).True? <==> DirectionMeets(f, j.l)
  {
    NoneKnown(f.direction, DirectionIdOf);
    if Ids(f.direction, DirectionIdOf) != [] {
      DirectionCondMeans(Ids(f.direction, DirectionIdOf), NonFirewall(f.logType), j);
      OtherKinds(f, j.l);
      if j.l.directionId.Some? {
        ChosenIsListed(f.direction, DirectionIdOf, j.l.directionId.value);
      }
    }
  }

  lemma {:induction false} NameListed(names: seq<string>, f: string -> string, v: string)
    ensures v in Map(names, f) <==> exists n :: n in names && f(n) == v
  {}

  lemma {:induction false} NameAnyMeans(col: TextCol, names: seq<string>, j: Joined)
    requires names != []
    ensures Eval(TextAny(col, true, Map(names, Lower)), j).True?
       <==> exists n :: n in names && SameName(TextOf(col, j), n)
  {
    if TextOf(col, j).Some? {
      NameListed(names, Lower, Lower(TextOf(col, j).value));
    }
  }

  lemma {:induction false} InterfaceClauseMeans(f: LogFilter, j: Joined)
    ensures EvalAll(InterfaceClause(f), j).True? <==> InterfaceMeets(f, j)
  {
    if f.iface != [] {
      NameAnyMeans(Name(Ii), f.iface, j);
      NameAnyMeans(Name(Io), f.iface, j);
      EvalOne(InterfaceClause(f)[0], j);
    }
  }

  lemma {:induction false} ProtocolClauseMeans(f: LogFilter, j: Joined)
    ensures EvalAll(ProtocolClause(f), j).True? <==> ProtocolMeets(f, j)
  {
    if f.proto != [] {
      NameAnyMeans(Name(Pr), f.proto, j);
      EvalOne(ProtocolClause(f)[0], j);
    }
  }

  lemma {:induction false} CountryClauseMeans(f: LogFilter, j: Joined)
    ensures EvalAll(CountryClause(f), j).True? <==> CountryMeets(f, j.l)
  {
    if f.country != [] {
      if j.l.geoCountry.Some? {
        NameListed(f.country, Upper, j.l.geoCountry.value);
      }
      EvalOne(CountryClause(f)[0], j);
    }
  }

  lemma {:induction false} NameClausesMean(f: LogFilter, j: Joined)
    ensures EvalAll(InterfaceClause(f), j).True? <==> InterfaceMeets(f, j)
    ensures EvalAll(ProtocolClause(f), j).True? <==> ProtocolMeets(f, j)
    ensures EvalAll(CountryClause(f), j).True? <==> CountryMeets(f, j.l)
    ensures EvalAll(ExactInterfaceClause(f.ifaceIn, Ii), j).True? <==>
            ExactInterfaceMeets(f.ifaceIn, TextOf(Name(Ii), j))
    ensures EvalAll(ExactInterfaceClause(f.ifaceOut, Io), j).True? <==>
            ExactInterfaceMeets(f.ifaceOut, TextOf(Name(Io), j))
  {
    hide *;
    InterfaceClauseMeans(f, j);
    ProtocolClauseMeans(f, j);
    CountryClauseMeans(f, j);
    ExactMeans(f.ifaceIn, Ii, j);
    ExactMeans(f.ifaceOut, Io, j);
  }

  lemma {:induction false} ExactMeans(want: Option<string>, a: Alias, j: Joined)
    ensures EvalAll(ExactInterfaceClause(want, a), j).True? <==> ExactInterfaceMeets(want, TextOf(Name(a), j))
  {}

  /** The lower bound is `from`, or else the start of the named range; both bounds are included. */
  lemma {:induction false} TimeBounds(f: LogFilter, l: LogRow)
    ensures TimeMeets(f, l) <==>
              && (f.from.Some? ==> l.timestamp >= f.from.value)
              && (f.from.None? && f.rangeStart.Some? ==> l.timestamp >= f.rangeStart.value)
              && (f.to.Some? ==> l.timestamp <= f.to.value)
  {}

  lemma {:induction false} TimeClauseMeans(f: LogFilter, j: Joined)
    ensures EvalAll(TimeClause(f), j).True? <==> TimeMeets(f, j.l)
  {
    EvalAllTrue(TimeClause(f), j);
    var s := Since(f);
    if s.Some? {
      assert TimeClause(f)[0] == IntIs(Timestamp, Ge, s.value);
    }
    if f.to.Some? {
      assert TimeClause(f)[|TimeClause(f)| - 1] == IntIs(Timestamp, Le, f.to.value);
    }
  }

  lemma {:induction false} NumberClausesMean(f: LogFilter, j: Joined)
    ensures EvalAll(PortClause(f), j).True? <==> PortMeets(f, j.l)
    ensures EvalAll(ThreatClause(f), j).True? <==> ThreatMeets(f, j.l)
    ensures EvalAll(TimeClause(f), j).True? <==> TimeMeets(f, j.l)
  {
    if f.port.Some? {
      EvalOne(PortClause(f)[0], j);
    }
    if f.threatMin.Some? {
      EvalOne(ThreatClause(f)[0], j);
    }
    TimeClauseMeans(f, j);
  }

  // ---- terms

  lemma {:induction false} ReadsIsLike(t: string, glob: bool, text: string)
    ensures Glob.ILike(Glob.Pattern(t, glob), text) <==> Reads(t, glob, text)
  {
    if Glob.NoLikeMeta(t) {
      if glob {
        Glob.GlobPatternIsWhole(t, text);
      } else {
        Glob.PlainPatternIsContains(t, text);
      }
    }
  }

  lemma {:induction false} EverywhereIs()
    ensures ColumnsOf(None) == EVERY_TEXT
  {}

  predicate IsSearched(c: TextCol) {
    c != MacText
  }

  lemma {:induction false} EveryTextHas(c: TextCol)
    ensures c in EVERY_TEXT <==> IsSearched(c)
  {
    var k := match c
      case Name(a) => (match a case R => 0 case Ii => 2 case Io => 3 case Pr => 4 case Dn => 5 case Pg => 6)
      case RuleDescr => 1
      case DnsQuery => 7
      case Rdns => 8
      case AsnName => 9
      case GeoCountry => 10
      case GeoCity => 11
      case DhcpEvent => 12
      case WifiEvent => 13
      case RawLog => 14
      case MacText => 0;
    assert c != MacText ==> EVERY_TEXT[k] == c;
  }

  /** A stored row is searched in fifteen columns: every text but the hardware address. */
  lemma {:induction false} TextIsSearchedIn(t: string, glob: bool, j: Joined)
    ensures TextHolds(t, None, glob, j) <==>
              || ColumnReads(Name(R), t, glob, j) || ColumnReads(RuleDescr, t, glob, j)
              || ColumnReads(Name(Ii), t, glob, j) || ColumnReads(Name(Io), t, glob, j)
              || ColumnReads(Name(Pr), t, glob, j) || ColumnReads(Name(Dn), t, glob, j)
              || ColumnReads(Name(Pg), t, glob, j) || ColumnReads(DnsQuery, t, glob, j)
              || ColumnReads(Rdns, t, glob, j) || ColumnReads(AsnName, t, glob, j)
              || ColumnReads(GeoCountry, t, glob, j) || ColumnReads(GeoCity, t, glob, j)
              || ColumnReads(DhcpEvent, t, glob, j) || ColumnReads(WifiEvent, t, glob, j)
              || ColumnReads(RawLog, t, glob, j)
  {
    hide ColumnReads, ColumnsOf;
    EverywhereIs();
    forall c ensures c in ColumnsOf(None) <==> IsSearched(c) {
      EveryTextHas(c);
    }
  }

  /** And in those its prefix names, if it has one of its own. */
  lemma {:induction false} ScopedTextIsSearchedIn(t: string, glob: bool, j: Joined)
    ensures TextHolds(t, Some(Rule), glob, j) <==>
              ColumnReads(Name(R), t, glob, j) || ColumnReads(RuleDescr, t, glob, j)
    ensures TextHolds(t, Some(Interface), glob, j) <==>
              ColumnReads(Name(Ii), t, glob, j) || ColumnReads(Name(Io), t, glob, j)
    ensures TextHolds(t, Some(Host), glob, j) <==> ColumnReads(Name(Dn), t, glob, j) || ColumnReads(Rdns, t, glob, j)
    ensures TextHolds(t, Some(Protocol), glob, j) <==> ColumnReads(Name(Pr), t, glob, j)
    ensures TextHolds(t, Some(Program), glob, j) <==> ColumnReads(Name(Pg), t, glob, j)
    ensures TextHolds(t, Some(Country), glob, j) <==> ColumnReads(GeoCountry, t, glob, j)
    ensures TextHolds(t, Some(Asn), glob, j) <==> ColumnReads(AsnName, t, glob, j)
  {
    hide ColumnReads;
    assert ColumnsOf(Some(Rule))[0] == Name(R) && ColumnsOf(Some(Rule))[1] == RuleDescr;
    assert ColumnsOf(Some(Interface))[0] == Name(Ii) && ColumnsOf(Some(Interface))[1] == Name(Io);
    assert ColumnsOf(Some(Host))[0] == Name(Dn) && ColumnsOf(Some(Host))[1] == Rdns;
    assert ColumnsOf(Some(Protocol))[0] == Name(Pr) && ColumnsOf(Some(Program))[0] == Name(Pg);
    assert ColumnsOf(Some(Country))[0] == GeoCountry && ColumnsOf(Some(Asn))[0] == AsnName;
  }

  /** With any metacharacters in it: a text reads as asked if it falls into stretches that the pieces of
      the pattern fill. */
  lemma {:induction false} ReadsByPieces(t: string, glob: bool, text: string)
    ensures var p := Lower(Glob.Pattern(t, glob));
            Reads(t, glob, text) <==> !Glob.Dangling(p) && Glob.Falls(Glob.Pieces(p), Lower(text))
  {
    ReadsIsLike(t, glob, text);
    Glob.LikeMeansDivision(Lower(Glob.Pattern(t, glob)), Lower(text));
  }

  /** `ColumnReads` for one of the columns, from the last to the first. */
  predicate SomeReads(cols: seq<TextCol>, t: string, glob: bool, j: Joined) {
    cols != []
    && (ColumnReads(cols[|cols| - 1], t, glob, j) || SomeReads(cols[..|cols| - 1], t, glob, j))
  }

  lemma {:induction false} SomeReadsIs(cols: seq<TextCol>, t: string, glob: bool, j: Joined)
    ensures SomeReads(cols, t, glob, j) <==> exists c :: c in cols && ColumnReads(c, t, glob, j)
  {
    if cols != [] {
      var n := |cols| - 1;
      SomeReadsIs(cols[..n], t, glob, j);
      assert forall c :: c in cols <==> c == cols[n] || c in cols[..n];
    }
  }

  lemma {:induction false} ColumnMeans(c: TextCol, t: string, glob: bool, j: Joined)
    ensures Eval(TextLike(c, Glob.Pattern(t, glob)), j).True? <==> ColumnReads(c, t, glob, j)
  {
    if TextOf(c, j).Some? {
      ReadsIsLike(t, glob, TextOf(c, j).value);
    }
  }

  lemma {:induction false} AnyColumnMeans(cols: seq<TextCol>, t: string, glob: bool, j: Joined)
    requires cols != []
    ensures Eval(AnyColumn(cols, Glob.Pattern(t, glob)), j).True? <==> SomeReads(cols, t, glob, j)
  {
    var n, p := |cols| - 1, Glob.Pattern(t, glob);
    ColumnMeans(cols[n], t, glob, j);
    if n > 0 {
      AnyColumnMeans(cols[..n], t, glob, j);
      EvalEither(AnyColumn(cols[..n], p), TextLike(cols[n], p), j);
    }
  }

  lemma {:induction false} TextCondMeans(t: string, field: Option<Field>, glob: bool, j: Joined)
    ensures Eval(TextCond(t, field, glob), j).True? <==> TextHolds(t, field, glob, j)
  {
    if field != Some(Action) && field != Some(LogType) && field != Some(Severity) {
      AnyColumnMeans(ColumnsOf(field), t, glob, j);
      SomeReadsIs(ColumnsOf(field), t, glob, j);
    }
  }

  lemma {:induction false} PlainCondMeans(t: Term, j: Joined)
    ensures Eval(PlainCond(t), j).True? <==> TermHolds(t, j)
  {
    if t.value.Text? {
      TextCondMeans(t.value.text, t.field, t.glob, j);
    }
  }

  /** A negated term keeps exactly the rows the plain term drops, NULL columns included. */
  lemma {:induction false} NegationComplements(t: Term, j: Joined)
    ensures Eval(TermCond(t.(negated := true)), j).True? <==> !Eval(TermCond(t.(negated := false)), j).True?
  {}

  /** Without the COALESCE that would be false: a row without the column would be lost both ways. */
  lemma {:induction false} NakedNegationLosesRows(t: Term, j: Joined)
    requires t.value.PortNo? && t.field == Some(SrcPort) && j.l.srcPort.None?
    ensures !Eval(PlainCond(t), j).True? && !Eval(Negated(PlainCond(t)), j).True?
    ensures Eval(TermCond(t.(negated := true)), j).True?
  {}

  lemma {:induction false} TermCondMeans(t: Term, j: Joined)
    ensures Eval(TermCond(t), j).True? <==> TermHolds(t, j) != t.negated
  {
    PlainCondMeans(t, j);
    NegatedMeans(PlainCond(t), j);
  }

  lemma {:induction false} NegatedMeans(c: Cond, j: Joined)
    ensures Eval(Negated(NullAsFalse(c)), j).True? <==> !Eval(c, j).True?
  {}

  lemma {:induction false} TermClausesMean(terms: seq<Term>, j: Joined)
    ensures EvalAll(TermClauses(terms), j).True? <==> TermsMeet(terms, j)
  {
    var cs := TermClauses(terms);
    EvalAllTrue(cs, j);
    forall i | 0 <= i < |terms|
      ensures Eval(cs[i], j).True? <==> TermHolds(terms[i], j) != terms[i].negated
    {
      TermCondMeans(terms[i], j);
    }
  }

  // ---- the whole

  lemma {:induction false} KindClausesMean(f: LogFilter, j: Joined)
    ensures EvalAll(KindClauses(f), j).True? <==> TypeMeets(f, j.l) && ActionMeets(f, j.l) && DirectionMeets(f, j.l)
  {
    TypeClauseMeans(f, j);
    ActionClauseMeans(f, j);
    DirectionClauseMeans(f, j);
    All3(TypeClause(f), ActionClause(f), DirectionClause(f), j);
  }

  lemma {:induction false} All3(a: seq<Cond>, b: seq<Cond>, c: seq<Cond>, j: Joined)
    ensures EvalAll(a + b + c, j).True? <==> EvalAll(a, j).True? && EvalAll(b, j).True? && EvalAll(c, j).True?
  {
    EvalAllAppend(a + b, c, j);
    EvalAllAppend(a, b, j);
  }

  lemma {:induction false} AllNamesMean(f: LogFilter, j: Joined)
    ensures EvalAll(NameClauses(f), j).True? <==>
              InterfaceMeets(f, j) && ProtocolMeets(f, j) && CountryMeets(f, j.l)
              && ExactInterfaceMeets(f.ifaceIn, TextOf(Name(Ii), j))
              && ExactInterfaceMeets(f.ifaceOut, TextOf(Name(Io), j))
  {
    NameClausesMean(f, j);
    var i, p, c := InterfaceClause(f), ProtocolClause(f), CountryClause(f);
    All3(i, p, c, j);
    All3(i + p + c, ExactInterfaceClause(f.ifaceIn, Ii), ExactInterfaceClause(f.ifaceOut, Io), j);
  }

  lemma {:induction false} AllNumbersMean(f: LogFilter, j: Joined)
    ensures EvalAll(NumberClauses(f), j).True? <==> PortMeets(f, j.l) && ThreatMeets(f, j.l) && TimeMeets(f, j.l)
  {
    NumberClausesMean(f, j);
    All3(PortClause(f), ThreatClause(f), TimeClause(f), j);
  }

  /** For every filter and every row, whatever is NULL in it: the WHERE clause is TRUE exactly
      when the row meets the filter. */
  lemma {:induction false} WhereMeansFilter(f: LogFilter, j: Joined)
    ensures EvalAll(Wheres(f), j).True? <==> Meets(f, j)
  {
    KindClausesMean(f, j);
    AllNamesMean(f, j);
    AllNumbersMean(f, j);
    TermClausesMean(f.terms, j);
    All3(KindClauses(f), NameClauses(f), NumberClauses(f), j);
    EvalAllAppend(KindClauses(f) + NameClauses(f) + NumberClauses(f), TermClauses(f.terms), j);
  }
}

/** Dropping the joins a filter does not need changes no answer. */
module JoinPruning {
  import opened Basics
  import opened Text
  import opened Search
  import opened Sql
  import opened Filters
  import opened FilterMeaning
  import Glob

  /** Text under an address or port prefix: it is searched for everywhere, with no join to go with it. */
  predicate Stray(t: Term) {
    t.value.Text? && t.field.Some? && (IsAddressField(t.field.value) || IsPortField(t.field.value))
  }

  predicate CoversEveryText(needs: Joins) {
    needs.rules && needs.programs && needs.interfaces && needs.protocols && needs.hostnames
  }

  lemma {:induction false} AliasesOfColumns(cols: seq<TextCol>, pattern: string, a: Alias)
    requires cols != []
    ensures a in Aliases(AnyColumn(cols, pattern)) <==> exists c :: c in cols && a in AliasOf(c)
  {
    var n := |cols| - 1;
    assert forall c :: c in cols <==> c == cols[n] || c in cols[..n];
    if n > 0 {
      AliasesOfColumns(cols[..n], pattern, a);
      EitherAliases(AnyColumn(cols[..n], pattern), TextLike(cols[n], pattern));
    }
  }

  lemma {:induction false} EitherAliases(x: Cond, y: Cond)
    ensures Aliases(Either(x, y)) == Aliases(x) + Aliases(y)
  {}

  lemma {:induction false} EveryTextNeedsEveryAlias()
    ensures forall a :: Name(a) in EVERY_TEXT && a in AliasOf(Name(a))
  {
    forall a ensures Name(a) in EVERY_TEXT && a in AliasOf(Name(a)) {
      var k := match a case R => 0 case Ii => 2 case Io => 3 case Pr => 4 case Dn => 5 case Pg => 6;
      assert EVERY_TEXT[k] == Name(a);
    }
  }

  predicate Wants(needs: Joins, a: Alias) {
    match a
    case R => needs.rules
    case Pg => needs.programs
    case Ii => needs.interfaces
    case Io => needs.interfaces
    case Pr => needs.protocols
    case Dn => needs.hostnames
  }

  lemma {:induction false} JoinedIsWanted(needs: Joins)
    ensures forall a :: a in SetOf(JoinedAliases(needs)) <==> Wants(needs, a)
  {
    forall a ensures a in JoinedAliases(needs) <==> Wants(needs, a) {
      WhenMember(needs.rules, [R], a);
      WhenMember(needs.programs, [Pg], a);
      WhenMember(needs.interfaces, [Ii, Io], a);
      WhenMember(needs.protocols, [Pr], a);
      WhenMember(needs.hostnames, [Dn], a);
      hide When;
    }
  }

  lemma {:induction false} WhenMember(wanted: bool, aliases: seq<Alias>, a: Alias)
    ensures a in When(wanted, aliases) <==> wanted && a in aliases
  {}

  lemma {:induction false} PatternAliases(t: Term)
    requires t.value.Text? && t.field !in {Some(Action), Some(LogType), Some(Severity)}
    ensures forall a :: a in Aliases(TermCond(t)) <==> exists c :: c in ColumnsOf(t.field) && a in AliasOf(c)
  {
    forall a {
      AliasesOfColumns(ColumnsOf(t.field), Glob.Pattern(t.value.text, t.glob), a);
    }
    assert PlainCond(t) == AnyColumn(ColumnsOf(t.field), Glob.Pattern(t.value.text, t.glob));
    assert Aliases(Negated(NullAsFalse(PlainCond(t)))) == Aliases(NullAsFalse(PlainCond(t))) == Aliases(PlainCond(t));
  }

  lemma {:induction false} PlainAliases(t: Term)
    requires !t.value.Text? || t.field in {Some(Action), Some(LogType), Some(Severity)}
    ensures Aliases(PlainCond(t)) == {}
  {
    match t.value
    case Ip(a) => EitherAliases(AddrIs(SrcAddr, a), AddrIs(DstAddr, a));
    case Cidr(net) => EitherAliases(AddrWithin(SrcAddr, net), AddrWithin(DstAddr, net));
    case PortNo(p) => EitherAliases(IntIs(SrcPortNo, Eq, p), IntIs(DstPortNo, Eq, p));
    case _ =>
  }

  /** The other terms read columns of the log row itself. */
  lemma {:induction false} PlainTermAliases(t: Term)
    requires !t.value.Text? || t.field in {Some(Action), Some(LogType), Some(Severity)}
    ensures Aliases(TermCond(t)) == {}
  {
    PlainAliases(t);
    assert Aliases(Negated(NullAsFalse(PlainCond(t)))) == Aliases(NullAsFalse(PlainCond(t))) == Aliases(PlainCond(t));
  }

  lemma {:induction false} StrayAliases(t: Term)
    requires Stray(t)
    ensures forall a :: a in Aliases(TermCond(t))
  {
    PatternAliases(t);
    StrayColumns(t.field);
    EveryTextNeedsEveryAlias();
    forall a ensures a in Aliases(TermCond(t)) {
      assert Name(a) in EVERY_TEXT;
    }
  }

  lemma {:induction false} StrayColumns(field: Option<Field>)
    requires field.Some? && (IsAddressField(field.value) || IsPortField(field.value))
    ensures ColumnsOf(field) == EVERY_TEXT
  {}

  lemma {:induction false} TermAliases(t: Term)
    requires !Stray(t)
    ensures forall a :: a in Aliases(TermCond(t)) ==> Wants(TermJoins(t), a)
  {
    if t.value.Text? && t.field !in {Some(Action), Some(LogType), Some(Severity)} {
      PatternAliases(t);
      ColumnsAreJoined(t.field);
    } else {
      PlainTermAliases(t);
    }
  }

  function TextJoins(field: Option<Field>): Joins {
    TermJoins(Term(Text(""), field, false, false))
  }

  lemma {:induction false} ColumnsAreJoined(field: Option<Field>)
    requires field.None? || !(IsAddressField(field.value) || IsPortField(field.value)
                              || field.value.Action? || field.value.LogType? || field.value.Severity?)
    ensures forall c, a :: c in ColumnsOf(field) && a in AliasOf(c) ==> Wants(TextJoins(field), a)
  {}

  lemma {:induction false} TermsAliases(terms: seq<Term>)
    ensures (exists t :: t in terms && Stray(t)) ==> forall a :: a in AliasesOfAll(TermClauses(terms))
    ensures (forall t :: t in terms ==> !Stray(t)) ==>
              forall a :: a in AliasesOfAll(TermClauses(terms)) ==> Wants(TermsJoins(terms), a)
  {
    if terms != [] {
      var n := |terms| - 1;
      var front, last := terms[..n], terms[n];
      TermsAliases(front);
      if Stray(last) {
        StrayAliases(last);
      } else {
        TermAliases(last);
      }
      assert terms == front + [last];
      assert TermClauses(terms) == TermClauses(front) + [TermCond(last)];
      AliasesAppend(TermClauses(front), [TermCond(last)]);
      assert AliasesOfAll([TermCond(last)]) == Aliases(TermCond(last)) + AliasesOfAll([]);
    }
  }

  lemma {:induction false} FieldAliases(f: LogFilter)
    ensures forall a :: a in AliasesOfAll(KindClauses(f) + NameClauses(f) + NumberClauses(f)) ==>
        Wants(FieldJoins(f), a)
  {
    AliasesAppend(KindClauses(f) + NameClauses(f), NumberClauses(f));
    AliasesAppend(KindClauses(f), NameClauses(f));
    KindAliases(f);
    NumberAliases(f);
    NameAliases(f);
  }

  lemma {:induction false} KindAliases(f: LogFilter)
    ensures AliasesOfAll(KindClauses(f)) == {}
  {
    Aliases3(TypeClause(f), ActionClause(f), DirectionClause(f));
    ClauseAliases(TypeClause(f));
    ActionAliases(f);
    DirectionAliases(f);
  }

  lemma {:induction false} DirectionAliases(f: LogFilter)
    ensures AliasesOfAll(DirectionClause(f)) == {}
  {
    ClauseAliases(DirectionClause(f));
  }

  lemma {:induction false} NumberAliases(f: LogFilter)
    ensures AliasesOfAll(NumberClauses(f)) == {}
  {
    Aliases3(PortClause(f), ThreatClause(f), TimeClause(f));
    ClauseAliases(PortClause(f));
    ClauseAliases(ThreatClause(f));
    ClauseAliases(TimeClause(f));
  }

  lemma {:induction false} ActionAliases(f: LogFilter)
    ensures AliasesOfAll(ActionClause(f)) == {}
  {
    ClauseAliases(ActionClause(f));
    var known, others := IntAny(RuleActionId, Ids(f.action, ActionIdOf)), NonFirewall(f.logType);
    assert Aliases(Either(known, IntNull(RuleActionId))) == {};
    assert Aliases(Both(IntNull(RuleActionId), IntAny(LogTypeId, others))) == {};
  }

  lemma {:induction false} Aliases3(a: seq<Cond>, b: seq<Cond>, c: seq<Cond>)
    ensures AliasesOfAll(a + b + c) == AliasesOfAll(a) + AliasesOfAll(b) + AliasesOfAll(c)
  {
    AliasesAppend(a + b, c);
    AliasesAppend(a, b);
  }

  /** A clause has at most two conditions. */
  lemma {:induction false} ClauseAliases(cs: seq<Cond>)
    requires |cs| <= 2
    ensures AliasesOfAll(cs) == (if |cs| > 0 then Aliases(cs[0]) else {}) + (if |cs| > 1 then Aliases(cs[1]) else {})
  {
    if |cs| == 1 {
      assert cs[1..] == [];
    } else if |cs| == 2 {
      assert cs[1..] == [cs[1]];
      assert AliasesOfAll([cs[1]]) == Aliases(cs[1]) + AliasesOfAll([]);
    }
  }

  lemma {:induction false} NameAliases(f: LogFilter)
    ensures forall a :: a in AliasesOfAll(NameClauses(f)) ==> Wants(FieldJoins(f), a)
  {
    hide AliasesOfAll, ProtocolClause;
    var i, p, c := InterfaceClause(f), ProtocolClause(f), CountryClause(f);
    var x, y := ExactInterfaceClause(f.ifaceIn, Ii), ExactInterfaceClause(f.ifaceOut, Io);
    Aliases3(i, p, c);
    Aliases3(i + p + c, x, y);
    ListAliases(f);
    ClauseAliases(x);
    ClauseAliases(y);
  }

  lemma {:induction false} ListAliases(f: LogFilter)
    ensures AliasesOfAll(InterfaceClause(f)) == if f.iface == [] then {} else {Ii, Io}
    ensures AliasesOfAll(ProtocolClause(f)) == if f.proto == [] then {} else {Pr}
    ensures AliasesOfAll(CountryClause(f)) == {}
  {
    ClauseAliases(InterfaceClause(f));
    ClauseAliases(ProtocolClause(f));
    ClauseAliases(CountryClause(f));
  }

  /** The condition names only joined tables, unless text stands under an address or port prefix
      and not every table was asked for. */
  lemma {:induction false} EveryNamedTableIsJoined(f: LogFilter, extra: Joins)
    ensures var needs := Needed(f).Or(extra);
            AliasesOfAll(Wheres(f)) <= SetOf(JoinedAliases(needs))
            <==> CoversEveryText(needs) || forall t :: t in f.terms ==> !Stray(t)
  {
    var needs := Needed(f).Or(extra);
    JoinedIsWanted(needs);
    FieldAliases(f);
    TermsAliases(f.terms);
    AliasesAppend(KindClauses(f) + NameClauses(f) + NumberClauses(f), TermClauses(f.terms));
    NamedIsWanted(AliasesOfAll(KindClauses(f) + NameClauses(f) + NumberClauses(f)),
                  AliasesOfAll(TermClauses(f.terms)), FieldJoins(f), TermsJoins(f.terms), extra);
  }

  lemma {:induction false} NamedIsWanted(fields: set<Alias>, terms: set<Alias>, a: Joins, b: Joins, extra: Joins)
    requires forall x :: x in fields ==> Wants(a, x)
    ensures (forall x :: x in terms) ==>
              ((forall x :: x in fields + terms ==> Wants(a.Or(b).Or(extra), x)) <==>
                  CoversEveryText(a.Or(b).Or(extra)))
    ensures (forall x :: x in terms ==> Wants(b, x)) ==>
              forall x :: x in fields + terms ==> Wants(a.Or(b).Or(extra), x)
    ensures CoversEveryText(a.Or(b).Or(extra)) ==> forall x :: Wants(a.Or(b).Or(extra), x)
  {
    var needs := a.Or(b).Or(extra);
    if forall x :: x in terms {
      var x := if !needs.rules then R else if !needs.programs then Pg else if !needs.interfaces then Ii
               else if !needs.protocols then Pr else Dn;
      assert x in terms && (CoversEveryText(needs) <==> Wants(needs, x));
    }
  }

  function MeetsInFull(db: Db, f: LogFilter): LogRow -> bool {
    (l: LogRow) => Meets(f, Full(db, l))
  }

  lemma {:induction false} FilterAlike<T>(s: seq<T>, p: T -> bool, q: T -> bool)
    requires forall x :: x in s ==> p(x) == q(x)
    ensures Filter(s, p) == Filter(s, q)
  {
    if s != [] {
      FilterAlike(s[1..], p, q);
      assert s[0] in s;
    }
  }

  /** A wildcard text whose pattern ends in LIKE's escape character, with nothing behind it to escape:
      PostgreSQL refuses it as soon as a row leads the comparison there. Without stars the pattern ends in `%`. */
  predicate Refusable(t: Term) {
    t.value.Text? && t.glob && t.field !in {Some(Action), Some(LogType), Some(Severity)}
    && Glob.Dangling(Glob.Pattern(t.value.text, t.glob))
  }

  /** Only a wildcard text that ends in a backslash is refused. */
  lemma {:induction false} OnlyBackslashesAreRefused(t: Term)
    requires Refusable(t)
    ensures t.glob && t.value.text != "" && t.value.text[|t.value.text| - 1] == '\\'
  {
    DanglingEnds(Glob.Pattern(t.value.text, t.glob));
  }

  lemma {:induction false} DanglingEnds(p: string)
    requires Glob.Dangling(p)
    ensures p[|p| - 1] == '\\'
    decreases |p|
  {
    if p[0] == '\\' {
      if |p| > 1 {
        DanglingEnds(p[2..]);
      }
    } else {
      DanglingEnds(p[1..]);
    }
  }

  /** What the log queries return, if no pattern ends in an escape: the rows that meet the filter, in
      table order, and an error exactly in the stray case; the answer does not depend on the joins
      beyond that. */
  lemma {:induction false} QueryReturnsMeetingRows(f: LogFilter, extra: Joins, db: Db)
    requires UniqueKeys(db)
    ensures var needs := Needed(f).Or(extra);
            (forall t :: t in f.terms ==> !Refusable(t)) ==>
              Execute(JoinedAliases(needs), Wheres(f), db)
              == if CoversEveryText(needs) || forall t :: t in f.terms ==> !Stray(t)
                 then Some(Filter(db.logs, MeetsInFull(db, f)))
                 else None
  {
    EveryNamedTableIsJoined(f, extra);
    var joins := JoinedAliases(Needed(f).Or(extra));
    if AliasesOfAll(Wheres(f)) <= SetOf(joins) {
      ExecuteKeeps(joins, Wheres(f), db);
      forall l | l in db.logs ensures KeptInFull(db, Wheres(f))(l) == MeetsInFull(db, f)(l) {
        WhereMeansFilter(f, Full(db, l));
      }
      FilterAlike(db.logs, KeptInFull(db, Wheres(f)), MeetsInFull(db, f));
    }
  }

  /** Pruning the joins preserves meaning: the reduced query returns what the query with every join returns. */
  lemma {:induction false} PruningPreservesMeaning(f: LogFilter, extra: Joins, db: Db)
    requires UniqueKeys(db)
    requires forall t :: t in f.terms ==> !Stray(t)
    ensures (forall t :: t in f.terms ==> !Refusable(t)) ==>
              Execute(JoinedAliases(Needed(f).Or(extra)), Wheres(f), db)
              == Execute(JoinedAliases(Needed(f).Or(ALL)), Wheres(f), db)
  {
    QueryReturnsMeetingRows(f, extra, db);
    QueryReturnsMeetingRows(f, ALL, db);
  }

  /** The stray case exists: counting rows for `src:foo` names tables that were never joined. */
  lemma {:induction false} StrayTextFails(f: LogFilter, db: Db)
    requires UniqueKeys(db) && f.terms == [Term(Text("foo"), Some(SrcIp), false, false)]
    ensures f.iface == [] && f.ifaceIn.None? && f.ifaceOut.None?
            ==> Execute(JoinedAliases(Needed(f).Or(NONE)), Wheres(f), db).None?
    ensures Execute(JoinedAliases(Needed(f).Or(ALL)), Wheres(f), db).Some?
  {
    hide Execute, Full, TableOf, Wheres, MeetsInFull;
    assert f.terms[0] in f.terms && Stray(f.terms[0]);
    assert f.terms[..0] == [];
    assert TermsJoins(f.terms) == TermsJoins(f.terms[..0]).Or(TermJoins(f.terms[0]));
    QueryReturnsMeetingRows(f, NONE, db);
    QueryReturnsMeetingRows(f, ALL, db);
  }

  /** One query end to end: `iface_out` returns exactly the rows that left on an interface of that name. */
  lemma {:induction false} OutInterfaceIsFound(db: Db, want: string, l: LogRow)
    requires UniqueKeys(db) && want != ""
    ensures var f := UNFILTERED.(ifaceOut := Some(want));
            MeetsInFull(db, f)(l) <==>
              exists e, n: string :: e in db.interfaces && Some(e.id) == l.ifaceOutId && e.name == Some(n)
                                     && Lower(n) == Lower(want)
  {
    var f := UNFILTERED.(ifaceOut := Some(want));
    var t := TextOf(Name(Io), Full(db, l));
    assert MeetsInFull(db, f)(l) <==> t.Some? && Lower(t.value) == Lower(want) by {
      hide Full;
    }
    if t.Some? {
      NamesShow(db, l, t.value);
      assert HasName(db.interfaces, l.ifaceOutId, t.value);
    }
    if e, n: string :| e in db.interfaces && Some(e.id) == l.ifaceOutId && e.name == Some(n)
                       && Lower(n) == Lower(want) {
      NamesShow(db, l, n);
    }
  }
}
