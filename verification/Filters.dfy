/** The log filter and its compiler to a WHERE clause with a reduced set of joins. */
module Filters {
  import opened Basics
  import opened Text
  import opened Numbers
  import opened Net
  import opened Search
  import opened Sql
  import Glob

  /** The filter of the log view. `rangeStart` is the instant a relative range stands for, `terms`
      the search text as parsed. Empty fields do not filter. */
  datatype LogFilter = LogFilter(
    logType: seq<string>, action: seq<string>, direction: seq<string>,
    iface: seq<string>, proto: seq<string>, country: seq<string>,
    ifaceIn: Option<string>, ifaceOut: Option<string>,
    port: Option<int>, threatMin: Option<int>,
    from: Option<int>, rangeStart: Option<int>, to: Option<int>,
    terms: seq<Term>)

  const UNFILTERED := LogFilter([], [], [], [], [], [], None, None, None, None, None, None, None, [])

  const FIREWALL := 1

  function LogTypeIdOf(name: string): Option<int> {
    match name
    case "firewall" => Some(1)
    case "dns" => Some(2)
    case "dhcp" => Some(3)
    case "wifi" => Some(4)
    case "system" => Some(5)
    case _ => None
  }

  function ActionIdOf(name: string): Option<int> {
    match name
    case "allow" => Some(1)
    case "block" => Some(2)
    case "redirect" => Some(3)
    case _ => None
  }

  function DirectionIdOf(name: string): Option<int> {
    match name
    case "inbound" => Some(1)
    case "outbound" => Some(2)
    case "local" => Some(3)
    case "inter_vlan" => Some(4)
    case "vpn" => Some(5)
    case "nat" => Some(6)
    case _ => None
  }

  /** `filter_map` over the names: the unknown ones drop out. */
  function Ids(names: seq<string>, known: string -> Option<int>): (r: seq<int>)
    ensures forall n :: n in r <==> exists s :: s in names && known(s) == Some(n)
  {
    if names == [] then []
    else
      var rest := Ids(names[1..], known);
      assert forall s :: s in names <==> s == names[0] || s in names[1..];
      match known(names[0])
      case Some(n) => [n] + rest
      case None => rest
  }

  /** Syslog's severities: smaller is more urgent. */
  type Level = n: int | 0 <= n <= 7

  /** A severity as people write it: a number from 0 to 7 or a syslog name. */
  function SeverityLevel(s: string): Option<Level> {
    var t := Lower(Trim(s));
    match ParseInt(t, -0x8000, 0x7fff)
    case Some(n) => if 0 <= n <= 7 then Some(n) else None
    case None => NamedSeverity(t)
  }

  function NamedSeverity(t: string): Option<Level> {
    match t
    case "emerg" => Some(0)
    case "emergency" => Some(0)
    case "panic" => Some(0)
    case "alert" => Some(1)
    case "crit" => Some(2)
    case "critical" => Some(2)
    case "err" => Some(3)
    case "error" => Some(3)
    case "warn" => Some(4)
    case "warning" => Some(4)
    case "notice" => Some(5)
    case "info" => Some(6)
    case "debug" => Some(7)
    case _ => None
  }

  /** The names of the eight severities, and the numbers: any number outside 0 to 7 is none. */
  lemma {:induction false} SeveritiesAre(s: string)
    ensures var t := Lower(Trim(s));
            var n := ParseInt(t, -0x8000, 0x7fff);
            && (n.Some? ==> SeverityLevel(s) == if 0 <= n.value <= 7 then Some(n.value) else None)
            && (n.None? ==>
                  && (SeverityLevel(s) == Some(0) <==> t == "emerg" || t == "emergency" || t == "panic")
                  && (SeverityLevel(s) == Some(1) <==> t == "alert")
                  && (SeverityLevel(s) == Some(2) <==> t == "crit" || t == "critical")
                  && (SeverityLevel(s) == Some(3) <==> t == "err" || t == "error")
                  && (SeverityLevel(s) == Some(4) <==> t == "warn" || t == "warning")
                  && (SeverityLevel(s) == Some(5) <==> t == "notice")
                  && (SeverityLevel(s) == Some(6) <==> t == "info")
                  && (SeverityLevel(s) == Some(7) <==> t == "debug"))
  {
    hide Lower, Trim, ParseInt;
  }

  // ---- the clauses

  function NonFirewall(names: seq<string>): seq<int> {
    Filter(Ids(names, LogTypeIdOf), id => id != FIREWALL)
  }

  function TypeClause(f: LogFilter): seq<Cond> {
    var types := Ids(f.logType, LogTypeIdOf);
    if types == [] then []
    else (if FIREWALL !in types then [IntIs(LogTypeId, Ne, FIREWALL)] else []) + [IntAny(LogTypeId, types)]
  }

  predicate WantsUnknown(f: LogFilter) {
    "unknown" in f.action
  }

  function ActionCond(actions: seq<int>, wantsUnknown: bool, actionless: seq<int>): seq<Cond> {
    if actions == [] && !wantsUnknown then []
    else
      var known := IntAny(RuleActionId, actions);
      var chosen :=
        if actions != [] && wantsUnknown then Either(known, IntNull(RuleActionId))
        else if wantsUnknown then IntNull(RuleActionId)
        else known;
      [if actionless == [] then chosen
       else Either(chosen, Both(IntNull(RuleActionId), IntAny(LogTypeId, actionless)))]
  }

  function ActionClause(f: LogFilter): seq<Cond> {
    ActionCond(Ids(f.action, ActionIdOf), WantsUnknown(f), NonFirewall(f.logType))
  }

  function DirectionCond(directions: seq<int>, directionless: seq<int>): seq<Cond> {
    if directions == [] then []
    else if directionless == [] then [IntAny(DirectionId, directions)]
    else [Either(IntAny(DirectionId, directions), IntAny(LogTypeId, directionless))]
  }

  function DirectionClause(f: LogFilter): seq<Cond> {
    DirectionCond(Ids(f.direction, DirectionIdOf), NonFirewall(f.logType))
  }

  function InterfaceClause(f: LogFilter): seq<Cond> {
    var names := Map(f.iface, Lower);
    if f.iface == [] then [] else [Either(TextAny(Name(Ii), true, names), TextAny(Name(Io), true, names))]
  }

  function ProtocolClause(f: LogFilter): seq<Cond> {
    if f.proto == [] then [] else [TextAny(Name(Pr), true, Map(f.proto, Lower))]
  }

  function CountryClause(f: LogFilter): seq<Cond> {
    if f.country == [] then [] else [TextAny(GeoCountry, false, Map(f.country, Upper))]
  }

  function ExactInterfaceClause(want: Option<string>, a: Alias): seq<Cond> {
    if want.Some? && want.value != "" then [TextIs(Name(a), true, Lower(want.value))] else []
  }

  function PortClause(f: LogFilter): seq<Cond> {
    match f.port
    case Some(p) => [Either(IntIs(SrcPortNo, Eq, p), IntIs(DstPortNo, Eq, p))]
    case None => []
  }

  function ThreatClause(f: LogFilter): seq<Cond> {
    match f.threatMin
    case Some(min) => [IntIs(ThreatScore, Ge, min)]
    case None => []
  }

  /** `from`, or else the start of the range. */
  function Since(f: LogFilter): Option<int> {
    if f.from.Some? then f.from else f.rangeStart
  }

  function TimeClause(f: LogFilter): seq<Cond> {
    (match Since(f)
     case Some(t) => [IntIs(Timestamp, Ge, t)]
     case None => [])
    +
    (match f.to
     case Some(t) => [IntIs(Timestamp, Le, t)]
     case None => [])
  }

  // ---- search terms

  const EVERY_TEXT: seq<TextCol> :=
    [Name(R), RuleDescr, Name(Ii), Name(Io), Name(Pr), Name(Dn), Name(Pg),
     DnsQuery, Rdns, AsnName, GeoCountry, GeoCity, DhcpEvent, WifiEvent, RawLog]

  /** The columns a text term looks into; anything without its own list searches everywhere. */
  function ColumnsOf(field: Option<Field>): (r: seq<TextCol>)
    ensures r != []
  {
    match field
    case None => EVERY_TEXT
    case Some(f) =>
      match f
      case Rule => [Name(R), RuleDescr]
      case Country => [GeoCountry]
      case Asn => [AsnName]
      case Protocol => [Name(Pr)]
      case Interface => [Name(Ii), Name(Io)]
      case Host => [Name(Dn), Rdns]
      case Program => [Name(Pg)]
      case _ => EVERY_TEXT
  }

  function AnyColumn(cols: seq<TextCol>, pattern: string): Cond
    requires cols != []
  {
    var last := TextLike(cols[|cols| - 1], pattern);
    if |cols| == 1 then last else Either(AnyColumn(cols[..|cols| - 1], pattern), last)
  }

  function EitherAddr(field: Option<Field>, src: Cond, dst: Cond): Cond {
    if field == Some(SrcIp) then src else if field == Some(DstIp) then dst else Either(src, dst)
  }

  function EitherPort(field: Option<Field>, src: Cond, dst: Cond): Cond {
    if field == Some(SrcPort) then src else if field == Some(DstPort) then dst else Either(src, dst)
  }

  function KnownId(col: IntCol, op: Op, id: Option<int>): Cond {
    match id
    case Some(n) => IntIs(col, op, n)
    case None => Const(false)
  }

  function TextCond(text: string, field: Option<Field>, glob: bool): Cond {
    if field == Some(Action) then KnownId(RuleActionId, Eq, ActionIdOf(text))
    else if field == Some(LogType) then KnownId(LogTypeId, Eq, LogTypeIdOf(text))
    else if field == Some(Severity) then KnownId(SeverityNo, Le, SeverityLevel(text))
    else AnyColumn(ColumnsOf(field), Glob.Pattern(text, glob))
  }

  function PlainCond(t: Term): Cond {
    match t.value
    case Ip(a) => EitherAddr(t.field, AddrIs(SrcAddr, a), AddrIs(DstAddr, a))
    case Cidr(net) => EitherAddr(t.field, AddrWithin(SrcAddr, net), AddrWithin(DstAddr, net))
    case PortNo(p) => EitherPort(t.field, IntIs(SrcPortNo, Eq, p), IntIs(DstPortNo, Eq, p))
    case Mac(m) => TextIs(MacText, false, m)
    case AsnNo(n) => IntIs(AsnNumber, Eq, n)
    case Text(s) => TextCond(s, t.field, t.glob)
  }

  /** A negated term is `NOT COALESCE((...), FALSE)`. */
  function TermCond(t: Term): Cond {
    if t.negated then Negated(NullAsFalse(PlainCond(t))) else PlainCond(t)
  }

  function TermClauses(terms: seq<Term>): seq<Cond> {
    Map(terms, TermCond)
  }

  function KindClauses(f: LogFilter): seq<Cond> {
    TypeClause(f) + ActionClause(f) + DirectionClause(f)
  }

  function NameClauses(f: LogFilter): seq<Cond> {
    InterfaceClause(f) + ProtocolClause(f) + CountryClause(f)
    + ExactInterfaceClause(f.ifaceIn, Ii) + ExactInterfaceClause(f.ifaceOut, Io)
  }

  function NumberClauses(f: LogFilter): seq<Cond> {
    PortClause(f) + ThreatClause(f) + TimeClause(f)
  }

  /** Every condition of the WHERE clause, in the order it is pushed. */
  function Wheres(f: LogFilter): seq<Cond> {
    KindClauses(f) + NameClauses(f) + NumberClauses(f) + TermClauses(f.terms)
  }

  // ---- the joins

  datatype Joins = Joins(
    rules: bool, programs: bool, interfaces: bool, protocols: bool, hostnames: bool, devices: bool)
  {
    function Or(other: Joins): Joins {
      Joins(rules || other.rules, programs || other.programs, interfaces || other.interfaces,
            protocols || other.protocols, hostnames || other.hostnames, devices || other.devices)
    }
  }

  const NONE := Joins(false, false, false, false, false, false)
  const ALL := Joins(true, true, true, true, true, true)

  /** The tables a search term touches. */
  function TermJoins(t: Term): Joins {
    if !t.value.Text? then NONE
    else if t.field.None? then ALL.(devices := false)
    else
      match t.field.value
      case Rule => NONE.(rules := true)
      case Program => NONE.(programs := true)
      case Protocol => NONE.(protocols := true)
      case Interface => NONE.(interfaces := true)
      case Host => NONE.(hostnames := true)
      case _ => NONE
  }

  function TermsJoins(terms: seq<Term>): Joins {
    if terms == [] then NONE else TermsJoins(terms[..|terms| - 1]).Or(TermJoins(terms[|terms| - 1]))
  }

  function FieldJoins(f: LogFilter): Joins {
    NONE.(interfaces := f.iface != [] || f.ifaceIn.Some? || f.ifaceOut.Some?, protocols := f.proto != [])
  }

  function Needed(f: LogFilter): Joins {
    FieldJoins(f).Or(TermsJoins(f.terms))
  }

  method NeededJoins(f: LogFilter) returns (needs: Joins)
    ensures needs == Needed(f)
  {
    needs := NONE;
    if f.iface != [] || f.ifaceIn.Some? || f.ifaceOut.Some? {
      needs := needs.(interfaces := true);
    }
    if f.proto != [] {
      needs := needs.(protocols := true);
    }
    for i := 0 to |f.terms|
      invariant needs == FieldJoins(f).Or(TermsJoins(f.terms[..i]))
    {
      assert f.terms[..i + 1][..i] == f.terms[..i];
      OrAssociates(FieldJoins(f), TermsJoins(f.terms[..i]), TermJoins(f.terms[i]));
      needs := needs.Or(TermJoins(f.terms[i]));
    }
    assert f.terms[..|f.terms|] == f.terms;
  }

  lemma {:induction false} OrAssociates(a: Joins, b: Joins, c: Joins)
    ensures a.Or(b).Or(c) == a.Or(b.Or(c))
  {}

  lemma {:induction false} Associate3<T>(o: seq<T>, a: seq<T>, b: seq<T>, c: seq<T>)
    ensures o + a + b + c == o + (a + b + c)
  {}

  lemma {:induction false} Associate4<T>(o: seq<T>, a: seq<T>, b: seq<T>, c: seq<T>, d: seq<T>)
    ensures o + a + b + c + d == o + (a + b + c + d)
  {}

  lemma {:induction false} Associate5<T>(o: seq<T>, a: seq<T>, b: seq<T>, c: seq<T>, d: seq<T>, e: seq<T>)
    ensures o + a + b + c + d + e == o + (a + b + c + d + e)
  {}

  function JoinedAliases(needs: Joins): seq<Alias> {
    When(needs.rules, [R]) + When(needs.programs, [Pg]) + When(needs.interfaces, [Ii, Io])
    + When(needs.protocols, [Pr]) + When(needs.hostnames, [Dn])
  }

  // ---- the query builder

  class QueryBuilder {
    var joins: seq<Alias>
    var wheres: seq<Cond>

    constructor ()
      ensures joins == [] && wheres == []
    {
      joins, wheres := [], [];
    }

    method PushJoins(f: LogFilter, extra: Joins)
      modifies this`joins
      ensures joins == old(joins) + JoinedAliases(Needed(f).Or(extra))
    {
      var needed := NeededJoins(f);
      var needs := needed.Or(extra);
      LeftJoin(needs.rules, [R]);
      LeftJoin(needs.programs, [Pg]);
      LeftJoin(needs.interfaces, [Ii, Io]);
      LeftJoin(needs.protocols, [Pr]);
      LeftJoin(needs.hostnames, [Dn]);
      Associate5(old(joins), When(needs.rules, [R]), When(needs.programs, [Pg]),
                 When(needs.interfaces, [Ii, Io]), When(needs.protocols, [Pr]), When(needs.hostnames, [Dn]));
    }

    method LeftJoin(wanted: bool, aliases: seq<Alias>)
      modifies this`joins
      ensures joins == old(joins) + When(wanted, aliases)
    {
      if wanted {
        joins := joins + aliases;
      }
    }

    /** ` AND (` one condition `)`. */
    method And(c: Cond)
      modifies this`wheres
      ensures wheres == old(wheres) + [c]
    {
      wheres := wheres + [c];
    }

    method PushWhere(f: LogFilter)
      modifies this`wheres
      ensures wheres == old(wheres) + Wheres(f)
    {
      PushKinds(f);
      PushNames(f);
      PushNumbers(f);
      PushTerms(f.terms);
      Associate4(old(wheres), KindClauses(f), NameClauses(f), NumberClauses(f), TermClauses(f.terms));
    }

    method PushTerms(terms: seq<Term>)
      modifies this`wheres
      ensures wheres == old(wheres) + TermClauses(terms)
    {
      for i := 0 to |terms|
        invariant wheres == old(wheres) + TermClauses(terms[..i])
      {
        PushTerm(terms[i]);
        assert TermClauses(terms[..i + 1]) == TermClauses(terms[..i]) + [TermCond(terms[i])];
      }
      assert terms[..|terms|] == terms;
    }

    /** Types, actions and directions: the lists that are compared by id. */
    method PushKinds(f: LogFilter)
      modifies this`wheres
      ensures wheres == old(wheres) + KindClauses(f)
    {
      var others := NonFirewall(f.logType);
      PushTypes(f);
      PushActions(Ids(f.action, ActionIdOf), WantsUnknown(f), others);
      PushDirections(Ids(f.direction, DirectionIdOf), others);
      Associate3(old(wheres), TypeClause(f), ActionClause(f), DirectionClause(f));
    }

    method PushTypes(f: LogFilter)
      modifies this`wheres
      ensures wheres == old(wheres) + TypeClause(f)
    {
      var types := Ids(f.logType, LogTypeIdOf);
      if types != [] {
        if FIREWALL !in types {
          And(IntIs(LogTypeId, Ne, FIREWALL));
        }
        And(IntAny(LogTypeId, types));
      }
    }

    method PushActions(actions: seq<int>, wantsUnknown: bool, actionless: seq<int>)
      modifies this`wheres
      ensures wheres == old(wheres) + ActionCond(actions, wantsUnknown, actionless)
    {
      if actions != [] || wantsUnknown {
        var c := IntNull(RuleActionId);
        if actions != [] {
          c := IntAny(RuleActionId, actions);
          if wantsUnknown {
            c := Either(c, IntNull(RuleActionId));
          }
        }
        if actionless != [] {
          c := Either(c, Both(IntNull(RuleActionId), IntAny(LogTypeId, actionless)));
        }
        And(c);
      }
    }

    method PushDirections(directions: seq<int>, directionless: seq<int>)
      modifies this`wheres
      ensures wheres == old(wheres) + DirectionCond(directions, directionless)
    {
      if directions != [] {
        var c := IntAny(DirectionId, directions);
        if directionless != [] {
          c := Either(c, IntAny(LogTypeId, directionless));
        }
        And(c);
      }
    }

    /** Interfaces, protocols and countries: the lists that are compared by name. */
    method PushNames(f: LogFilter)
      modifies this`wheres
      ensures wheres == old(wheres) + NameClauses(f)
    {
      PushInterfaces(f);
      PushProtocols(f);
      PushCountries(f);
      PushExactInterface(f.ifaceIn, Ii);
      PushExactInterface(f.ifaceOut, Io);
      Associate5(old(wheres), InterfaceClause(f), ProtocolClause(f), CountryClause(f),
                 ExactInterfaceClause(f.ifaceIn, Ii), ExactInterfaceClause(f.ifaceOut, Io));
    }

    method PushInterfaces(f: LogFilter)
      modifies this`wheres
      ensures wheres == old(wheres) + InterfaceClause(f)
    {
      if f.iface != [] {
        var names := Map(f.iface, Lower);
        And(Either(TextAny(Name(Ii), true, names), TextAny(Name(Io), true, names)));
      }
    }

    method PushProtocols(f: LogFilter)
      modifies this`wheres
      ensures wheres == old(wheres) + ProtocolClause(f)
    {
      if f.proto != [] {
        And(TextAny(Name(Pr), true, Map(f.proto, Lower)));
      }
    }

    method PushCountries(f: LogFilter)
      modifies this`wheres
      ensures wheres == old(wheres) + CountryClause(f)
    {
      if f.country != [] {
        And(TextAny(GeoCountry, false, Map(f.country, Upper)));
      }
    }

    method PushExactInterface(want: Option<string>, a: Alias)
      modifies this`wheres
      ensures wheres == old(wheres) + ExactInterfaceClause(want, a)
    {
      if want.Some? && want.value != "" {
        And(TextIs(Name(a), true, Lower(want.value)));
      }
    }

    method PushNumbers(f: LogFilter)
      modifies this`wheres
      ensures wheres == old(wheres) + NumberClauses(f)
    {
      if f.port.Some? {
        And(Either(IntIs(SrcPortNo, Eq, f.port.value), IntIs(DstPortNo, Eq, f.port.value)));
      }
      if f.threatMin.Some? {
        And(IntIs(ThreatScore, Ge, f.threatMin.value));
      }
      var since := if f.from.Some? then f.from else f.rangeStart;
      if since.Some? {
        And(IntIs(Timestamp, Ge, since.value));
      }
      if f.to.Some? {
        And(IntIs(Timestamp, Le, f.to.value));
      }
    }

    method PushTerm(t: Term)
      modifies this`wheres
      ensures wheres == old(wheres) + [TermCond(t)]
    {
      var c: Cond;
      match t.value {
        case Ip(a) => c := ForSide(t.field, SrcIp, DstIp, AddrIs(SrcAddr, a), AddrIs(DstAddr, a));
        case Cidr(net) => c := ForSide(t.field, SrcIp, DstIp, AddrWithin(SrcAddr, net), AddrWithin(DstAddr, net));
        case PortNo(p) => c := ForSide(t.field, SrcPort, DstPort, IntIs(SrcPortNo, Eq, p), IntIs(DstPortNo, Eq, p));
        case Mac(m) => c := TextIs(MacText, false, m);
        case AsnNo(n) => c := IntIs(AsnNumber, Eq, n);
        case Text(s) => c := ForText(s, t.field, t.glob);
      }
      if t.negated {
        c := Negated(NullAsFalse(c));
      }
      And(c);
    }

    method ForSide(field: Option<Field>, onlySrc: Field, onlyDst: Field, src: Cond, dst: Cond) returns (c: Cond)
      ensures c == if field == Some(onlySrc) then src else if field == Some(onlyDst) then dst else Either(src, dst)
    {
      if field == Some(onlySrc) {
        c := src;
      } else if field == Some(onlyDst) {
        c := dst;
      } else {
        c := Either(src, dst);
      }
    }

    method ForText(text: string, field: Option<Field>, glob: bool) returns (c: Cond)
      ensures c == TextCond(text, field, glob)
    {
      if field == Some(Action) || field == Some(LogType) {
        var action := field == Some(Action);
        var id := if action then ActionIdOf(text) else LogTypeIdOf(text);
        c := if id.Some? then IntIs(if action then RuleActionId else LogTypeId, Eq, id.value) else Const(false);
      } else if field == Some(Severity) {
        var level := SeverityLevel(text);
        c := if level.Some? then IntIs(SeverityNo, Le, level.value) else Const(false);
      } else {
        c := AnyOf(ColumnsOf(field), Glob.Pattern(text, glob));
      }
    }

    /** The columns joined by ` OR `. */
    method AnyOf(cols: seq<TextCol>, pattern: string) returns (c: Cond)
      requires cols != []
      ensures c == AnyColumn(cols, pattern)
    {
      c := TextLike(cols[0], pattern);
      assert cols[..1] == [cols[0]];
      for i := 1 to |cols|
        invariant c == AnyColumn(cols[..i], pattern)
      {
        assert cols[..i + 1][..i] == cols[..i];
        c := Either(c, TextLike(cols[i], pattern));
      }
      assert cols[..|cols|] == cols;
    }
  }
}
