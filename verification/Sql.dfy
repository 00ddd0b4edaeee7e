/** The part of SQL the filter compiler emits: conditions over rows with NULLs, evaluated in
    three-valued logic, and queries that left-join lookup tables by id. */
module Sql {
  import opened Basics
  import opened Text
  import opened Net
  import Glob

  // ---- three-valued logic

  datatype Tri = True | False | Null

  function OfBool(b: bool): Tri {
    if b then True else False
  }

  function And3(a: Tri, b: Tri): Tri {
    if a.False? || b.False? then False else if a.Null? || b.Null? then Null else True
  }

  function Or3(a: Tri, b: Tri): Tri {
    if a.True? || b.True? then True else if a.Null? || b.Null? then Null else False
  }

  function Not3(a: Tri): Tri {
    match a
    case True => False
    case False => True
    case Null => Null
  }

  function Rank(t: Tri): int {
    match t
    case False => 0
    case Null => 1
    case True => 2
  }

  /** Unknown stands between false and true: AND takes the lesser, OR the greater, NOT turns the order round. */
  lemma {:induction false} UnknownIsBetween(a: Tri, b: Tri)
    ensures Rank(And3(a, b)) == Min(Rank(a), Rank(b)) && Rank(Or3(a, b)) == Max(Rank(a), Rank(b))
    ensures Rank(Not3(a)) == 2 - Rank(a)
  {}

  // ---- rows and tables

  datatype LogRow = LogRow(
    timestamp: int, id: int, logTypeId: int,
    directionId: Option<int>, ruleActionId: Option<int>,
    ruleId: Option<int>, programId: Option<int>, protocolId: Option<int>,
    ifaceInId: Option<int>, ifaceOutId: Option<int>, hostnameId: Option<int>,
    srcIp: Option<Address>, dstIp: Option<Address>,
    srcPort: Option<int>, dstPort: Option<int>, macAddress: Option<string>,
    dnsQuery: Option<string>, rdns: Option<string>, asnName: Option<string>,
    geoCountry: Option<string>, geoCity: Option<string>,
    dhcpEvent: Option<string>, wifiEvent: Option<string>, rawLog: Option<string>,
    asnNumber: Option<int>, threatScore: Option<int>, severity: Option<int>)

  /** A row of a lookup table; only rules have a description. */
  datatype Entry = Entry(id: int, name: Option<string>, descr: Option<string>)

  /** The aliases of the joined tables: `r pg ii io pr dn`. */
  datatype Alias = R | Pg | Ii | Io | Pr | Dn

  datatype Db = Db(
    logs: seq<LogRow>, rules: seq<Entry>, programs: seq<Entry>, interfaces: seq<Entry>,
    protocols: seq<Entry>, deviceNames: seq<Entry>)

  function TableOf(db: Db, a: Alias): seq<Entry> {
    match a
    case R => db.rules
    case Pg => db.programs
    case Ii => db.interfaces
    case Io => db.interfaces
    case Pr => db.protocols
    case Dn => db.deviceNames
  }

  function KeyOf(l: LogRow, a: Alias): Option<int> {
    match a
    case R => l.ruleId
    case Pg => l.programId
    case Ii => l.ifaceInId
    case Io => l.ifaceOutId
    case Pr => l.protocolId
    case Dn => l.hostnameId
  }

  /** A log row with what has been joined to it: an alias that is bound to `None` found nothing. */
  datatype Joined = Joined(l: LogRow, bound: map<Alias, Option<Entry>>)

  // ---- conditions

  datatype IntCol =
    | LogTypeId | RuleActionId | DirectionId | SrcPortNo | DstPortNo
    | ThreatScore | AsnNumber | SeverityNo | Timestamp

  datatype AddrCol = SrcAddr | DstAddr

  datatype TextCol =
    | Name(alias: Alias) | RuleDescr | MacText | DnsQuery | Rdns | AsnName
    | GeoCountry | GeoCity | DhcpEvent | WifiEvent | RawLog

  datatype Op = Eq | Ne | Ge | Le

  datatype Cond =
    | Const(b: bool)
    | IntIs(icol: IntCol, op: Op, n: int)
    | IntAny(icol: IntCol, ids: seq<int>)
    | IntNull(icol: IntCol)
    | AddrIs(acol: AddrCol, addr: Address)
    | AddrWithin(acol: AddrCol, net: Network)
    | TextIs(tcol: TextCol, lowered: bool, text: string)
    | TextAny(tcol: TextCol, lowered: bool, texts: seq<string>)
    | TextLike(tcol: TextCol, pattern: string)
    | Both(left: Cond, right: Cond)
    | Either(left: Cond, right: Cond)
    | Negated(inner: Cond)
    | NullAsFalse(inner: Cond)

  function IntOf(c: IntCol, l: LogRow): Option<int> {
    match c
    case LogTypeId => Some(l.logTypeId)
    case RuleActionId => l.ruleActionId
    case DirectionId => l.directionId
    case SrcPortNo => l.srcPort
    case DstPortNo => l.dstPort
    case ThreatScore => l.threatScore
    case AsnNumber => l.asnNumber
    case SeverityNo => l.severity
    case Timestamp => Some(l.timestamp)
  }

  function AddrOf(c: AddrCol, l: LogRow): Option<Address> {
    match c
    case SrcAddr => l.srcIp
    case DstAddr => l.dstIp
  }

  function BoundEntry(j: Joined, a: Alias): Option<Entry> {
    if a in j.bound then j.bound[a] else None
  }

  function TextOf(c: TextCol, j: Joined): Option<string> {
    match c
    case Name(a) => (match BoundEntry(j, a) case Some(e) => e.name case None => None)
    case RuleDescr => (match BoundEntry(j, R) case Some(e) => e.descr case None => None)
    case MacText => j.l.macAddress
    case DnsQuery => j.l.dnsQuery
    case Rdns => j.l.rdns
    case AsnName => j.l.asnName
    case GeoCountry => j.l.geoCountry
    case GeoCity => j.l.geoCity
    case DhcpEvent => j.l.dhcpEvent
    case WifiEvent => j.l.wifiEvent
    case RawLog => j.l.rawLog
  }

  predicate Compare(op: Op, a: int, b: int) {
    match op
    case Eq => a == b
    case Ne => a != b
    case Ge => a >= b
    case Le => a <= b
  }

  function MaybeLower(s: string, lowered: bool): string {
    if lowered then Lower(s) else s
  }

  /** A comparison with a NULL column is NULL; `= ANY` of no values is FALSE. */
  function Eval(c: Cond, j: Joined): Tri {
    match c
    case Const(b) => OfBool(b)
    case IntIs(col, op, n) =>
      (match IntOf(col, j.l) case Some(v) => OfBool(Compare(op, v, n)) case None => Null)
    case IntAny(col, ids) =>
      (match IntOf(col, j.l) case Some(v) => OfBool(v in ids) case None => if ids == [] then False else Null)
    case IntNull(col) => OfBool(IntOf(col, j.l).None?)
    case AddrIs(col, a) =>
      (match AddrOf(col, j.l) case Some(v) => OfBool(v == a) case None => Null)
    case AddrWithin(col, net) =>
      (match AddrOf(col, j.l) case Some(v) => OfBool(InNetwork(net, v)) case None => Null)
    case TextIs(col, lowered, s) =>
      (match TextOf(col, j) case Some(v) => OfBool(MaybeLower(v, lowered) == s) case None => Null)
    case TextAny(col, lowered, ss) =>
      (match TextOf(col, j)
       case Some(v) => OfBool(MaybeLower(v, lowered) in ss)
       case None => if ss == [] then False else Null)
    case TextLike(col, p) =>
      (match TextOf(col, j) case Some(v) => OfBool(Glob.ILike(p, v)) case None => Null)
    case Both(a, b) => And3(Eval(a, j), Eval(b, j))
    case Either(a, b) => Or3(Eval(a, j), Eval(b, j))
    case Negated(a) => Not3(Eval(a, j))
    case NullAsFalse(a) => if Eval(a, j).Null? then False else Eval(a, j)
  }

  /** `WHERE TRUE AND c0 AND c1 ...`. */
  function EvalAll(cs: seq<Cond>, j: Joined): Tri {
    if cs == [] then True else And3(Eval(cs[0], j), EvalAll(cs[1..], j))
  }

  lemma {:induction false} EvalAllTrue(cs: seq<Cond>, j: Joined)
    ensures EvalAll(cs, j).True? <==> forall i :: 0 <= i < |cs| ==> Eval(cs[i], j).True?
  {
    if cs != [] {
      EvalAllTrue(cs[1..], j);
      assert forall i :: 0 < i < |cs| ==> cs[i] == cs[1..][i - 1];
    }
  }

  lemma {:induction false} EvalAllAppend(a: seq<Cond>, b: seq<Cond>, j: Joined)
    ensures EvalAll(a + b, j) == And3(EvalAll(a, j), EvalAll(b, j))
  {
    if a == [] {
      assert a + b == b;
    } else {
      EvalAllAppend(a[1..], b, j);
      assert (a + b)[0] == a[0] && (a + b)[1..] == a[1..] + b;
    }
  }

  // ---- which aliases a condition names

  function AliasOf(c: TextCol): set<Alias> {
    match c
    case Name(a) => {a}
    case RuleDescr => {R}
    case _ => {}
  }

  function Aliases(c: Cond): set<Alias> {
    match c
    case TextIs(col, _, _) => AliasOf(col)
    case TextAny(col, _, _) => AliasOf(col)
    case TextLike(col, _) => AliasOf(col)
    case Both(a, b) => Aliases(a) + Aliases(b)
    case Either(a, b) => Aliases(a) + Aliases(b)
    case Negated(a) => Aliases(a)
    case NullAsFalse(a) => Aliases(a)
    case _ => {}
  }

  function AliasesOfAll(cs: seq<Cond>): set<Alias> {
    if cs == [] then {} else Aliases(cs[0]) + AliasesOfAll(cs[1..])
  }

  lemma {:induction false} AliasesAppend(a: seq<Cond>, b: seq<Cond>)
    ensures AliasesOfAll(a + b) == AliasesOfAll(a) + AliasesOfAll(b)
  {
    if a == [] {
      assert a + b == b;
    } else {
      AliasesAppend(a[1..], b);
      assert (a + b)[0] == a[0] && (a + b)[1..] == a[1..] + b;
    }
  }

  /** Two joined rows that agree on the log row and on a set of aliases. */
  predicate Agree(j: Joined, k: Joined, on: set<Alias>) {
    j.l == k.l && forall a :: a in on ==> BoundEntry(j, a) == BoundEntry(k, a)
  }

  lemma {:induction false} EvalNeedsOnlyItsAliases(c: Cond, j: Joined, k: Joined)
    requires Agree(j, k, Aliases(c))
    ensures Eval(c, j) == Eval(c, k)
  {
    hide BoundEntry;
    match c
    case Both(a, b) =>
      EvalNeedsOnlyItsAliases(a, j, k);
      EvalNeedsOnlyItsAliases(b, j, k);
    case Either(a, b) =>
      EvalNeedsOnlyItsAliases(a, j, k);
      EvalNeedsOnlyItsAliases(b, j, k);
    case Negated(a) => EvalNeedsOnlyItsAliases(a, j, k);
    case NullAsFalse(a) => EvalNeedsOnlyItsAliases(a, j, k);
    case _ =>
  }

  lemma {:induction false} EvalAllNeedsOnlyItsAliases(cs: seq<Cond>, j: Joined, k: Joined)
    requires Agree(j, k, AliasesOfAll(cs))
    ensures EvalAll(cs, j) == EvalAll(cs, k)
  {
    if cs != [] {
      EvalNeedsOnlyItsAliases(cs[0], j, k);
      EvalAllNeedsOnlyItsAliases(cs[1..], j, k);
    }
  }

  // ---- queries

  function Matching(table: seq<Entry>, key: Option<int>): seq<Entry> {
    Filter(table, (e: Entry) => key == Some(e.id))
  }

  /** `LEFT JOIN`: one row per partner, and one with NULLs where there is none. */
  function JoinRow(db: Db, a: Alias): Joined -> seq<Joined> {
    (j: Joined) =>
      var hits := Matching(TableOf(db, a), KeyOf(j.l, a));
      if hits == [] then [j.(bound := j.bound[a := None])]
      else seq(|hits|, i requires 0 <= i < |hits| => j.(bound := j.bound[a := Some(hits[i])]))
  }

  function JoinAll(rows: seq<Joined>, aliases: seq<Alias>, db: Db): seq<Joined>
    decreases |aliases|
  {
    if aliases == [] then rows else JoinAll(FlatMap(rows, JoinRow(db, aliases[0])), aliases[1..], db)
  }

  function FromLog(l: LogRow): Joined {
    Joined(l, map[])
  }

  function KeptBy(wheres: seq<Cond>): Joined -> bool {
    (j: Joined) => EvalAll(wheres, j).True?
  }

  function LogOf(j: Joined): LogRow {
    j.l
  }

  /** What a query returns; `None` is the error for naming a table that was not joined. */
  function Execute(joins: seq<Alias>, wheres: seq<Cond>, db: Db): Option<seq<LogRow>> {
    if !(AliasesOfAll(wheres) <= SetOf(joins)) then None
    else Some(Map(Filter(JoinAll(Map(db.logs, FromLog), joins, db), KeptBy(wheres)), LogOf))
  }

  predicate UniqueIds(t: seq<Entry>) {
    forall i, k :: 0 <= i < k < |t| ==> t[i].id != t[k].id
  }

  predicate UniqueKeys(db: Db) {
    forall a :: UniqueIds(TableOf(db, a))
  }

  // ---- joins by unique ids are lookups

  function Lookup(db: Db, a: Alias, l: LogRow): Option<Entry> {
    var hits := Matching(TableOf(db, a), KeyOf(l, a));
    if hits == [] then None else Some(hits[0])
  }

  function Bind(db: Db, a: Alias): Joined -> Joined {
    (j: Joined) => j.(bound := j.bound[a := Lookup(db, a, j.l)])
  }

  function BindAll(db: Db, aliases: seq<Alias>, j: Joined): Joined {
    if aliases == [] then j else BindAll(db, aliases[1..], Bind(db, aliases[0])(j))
  }

  lemma {:induction false} AtMostOneMatch(table: seq<Entry>, key: Option<int>)
    requires UniqueIds(table)
    ensures |Matching(table, key)| <= 1
  {
    if table != [] {
      AtMostOneMatch(table[1..], key);
      var p := (e: Entry) => key == Some(e.id);
      forall e | e in table[1..] ensures e.id != table[0].id {
        var i :| 0 <= i < |table[1..]| && table[1..][i] == e;
        assert table[i + 1] == e;
      }
      if p(table[0]) {
        FilterNone(table[1..], p);
      }
    }
  }

  lemma {:induction false} JoinIsBind(db: Db, a: Alias, j: Joined)
    requires UniqueKeys(db)
    ensures JoinRow(db, a)(j) == [Bind(db, a)(j)]
  {
    assert UniqueIds(TableOf(db, a));
    AtMostOneMatch(TableOf(db, a), KeyOf(j.l, a));
  }

  lemma {:induction false} JoinOneMaps(db: Db, a: Alias, rows: seq<Joined>)
    requires UniqueKeys(db)
    ensures FlatMap(rows, JoinRow(db, a)) == Map(rows, Bind(db, a))
  {
    hide UniqueKeys, JoinRow, Bind;
    if rows != [] {
      JoinOneMaps(db, a, rows[1..]);
      JoinIsBind(db, a, rows[0]);
      assert Map(rows, Bind(db, a)) == [Bind(db, a)(rows[0])] + Map(rows[1..], Bind(db, a));
    }
  }

  function Binder(db: Db, aliases: seq<Alias>): Joined -> Joined {
    (j: Joined) => BindAll(db, aliases, j)
  }

  lemma {:induction false} JoinAllMaps(rows: seq<Joined>, aliases: seq<Alias>, db: Db)
    requires UniqueKeys(db)
    ensures JoinAll(rows, aliases, db) == Map(rows, Binder(db, aliases))
    decreases |aliases|
  {
    if aliases != [] {
      JoinOneMaps(db, aliases[0], rows);
      JoinAllMaps(Map(rows, Bind(db, aliases[0])), aliases[1..], db);
    }
  }

  lemma {:induction false} BindAllBinds(db: Db, aliases: seq<Alias>, j: Joined)
    ensures var b := BindAll(db, aliases, j);
            b.l == j.l && forall a :: BoundEntry(b, a) == if a in aliases then Lookup(db, a, j.l) else BoundEntry(j, a)
    decreases |aliases|
  {
    if aliases != [] {
      BindAllBinds(db, aliases[1..], Bind(db, aliases[0])(j));
      assert forall a :: a in aliases <==> a == aliases[0] || a in aliases[1..];
    }
  }

  const EVERY_ALIAS: seq<Alias> := [R, Pg, Ii, Io, Pr, Dn]

  lemma {:induction false} EveryAliasIsListed()
    ensures forall a: Alias :: a in EVERY_ALIAS
  {
    forall a: Alias ensures a in EVERY_ALIAS {
      var k := match a case R => 0 case Pg => 1 case Ii => 2 case Io => 3 case Pr => 4 case Dn => 5;
      assert EVERY_ALIAS[k] == a;
    }
  }

  /** A log row with all its names looked up. */
  function Full(db: Db, l: LogRow): Joined {
    BindAll(db, EVERY_ALIAS, FromLog(l))
  }

  function KeptInFull(db: Db, wheres: seq<Cond>): LogRow -> bool {
    (l: LogRow) => EvalAll(wheres, Full(db, l)).True?
  }

  lemma {:induction false} FilterMapped<A, B>(s: seq<A>, f: A -> B, p: B -> bool, q: A -> bool, g: B -> A)
    requires forall x :: x in s ==> p(f(x)) == q(x) && g(f(x)) == x
    ensures Map(Filter(Map(s, f), p), g) == Filter(s, q)
  {
    if s != [] {
      FilterMapped(s[1..], f, p, q, g);
      assert s[0] in s && Map(s, f)[1..] == Map(s[1..], f) && Map(s, f)[0] == f(s[0]);
      var rest := Filter(Map(s[1..], f), p);
      var head := if q(s[0]) then [f(s[0])] else [];
      assert Filter(Map(s, f), p) == head + rest;
      assert Map(head + rest, g) == Map(head, g) + Map(rest, g);
    }
  }

  function BoundLog(db: Db, aliases: seq<Alias>): LogRow -> Joined {
    (l: LogRow) => BindAll(db, aliases, FromLog(l))
  }

  lemma {:induction false} KeptAlike(db: Db, aliases: seq<Alias>, wheres: seq<Cond>, l: LogRow)
    requires AliasesOfAll(wheres) <= SetOf(aliases)
    ensures BindAll(db, aliases, FromLog(l)).l == l
    ensures EvalAll(wheres, BindAll(db, aliases, FromLog(l))) == EvalAll(wheres, Full(db, l))
  {
    BindAllBinds(db, aliases, FromLog(l));
    BindAllBinds(db, EVERY_ALIAS, FromLog(l));
    EveryAliasIsListed();
    EvalAllNeedsOnlyItsAliases(wheres, BindAll(db, aliases, FromLog(l)), Full(db, l));
  }

  /** A query that runs keeps exactly the rows its condition keeps with all names looked up:
      joins it does not need neither lose nor duplicate a row. */
  lemma {:induction false} ExecuteKeeps(joins: seq<Alias>, wheres: seq<Cond>, db: Db)
    requires UniqueKeys(db) && AliasesOfAll(wheres) <= SetOf(joins)
    ensures Execute(joins, wheres, db) == Some(Filter(db.logs, KeptInFull(db, wheres)))
  {
    JoinAllMaps(Map(db.logs, FromLog), joins, db);
    assert Map(Map(db.logs, FromLog), Binder(db, joins)) == Map(db.logs, BoundLog(db, joins));
    forall l | l in db.logs
      ensures KeptBy(wheres)(BoundLog(db, joins)(l)) == KeptInFull(db, wheres)(l) && LogOf(BoundLog(db, joins)(l)) == l
    {
      KeptAlike(db, joins, wheres, l);
    }
    FilterMapped(db.logs, BoundLog(db, joins), KeptBy(wheres), KeptInFull(db, wheres), LogOf);
  }

  // ---- which entry a column shows

  /** Some entry of the table has that id and that name. */
  predicate HasName(table: seq<Entry>, id: Option<int>, v: string) {
    exists e :: e in table && Some(e.id) == id && e.name == Some(v)
  }

  lemma {:induction false} MatchIsEntry(table: seq<Entry>, id: Option<int>, e: Entry)
    requires UniqueIds(table) && e in table && Some(e.id) == id
    ensures Matching(table, id) == [e]
  {
    var p := (x: Entry) => id == Some(x.id);
    FilterMember(table, p, e);
    AtMostOneMatch(table, id);
  }

  lemma {:induction false} LookupIsEntry(db: Db, a: Alias, l: LogRow, e: Entry)
    requires UniqueKeys(db)
    ensures Lookup(db, a, l) == Some(e) <==> e in TableOf(db, a) && Some(e.id) == KeyOf(l, a)
  {
    var table, key := TableOf(db, a), KeyOf(l, a);
    assert UniqueIds(table);
    if e in table && Some(e.id) == key {
      MatchIsEntry(table, key, e);
    }
    if Lookup(db, a, l) == Some(e) {
      FilterMember(table, (x: Entry) => key == Some(x.id), e);
    }
  }

  lemma {:induction false} FullIsLookup(db: Db, l: LogRow, a: Alias)
    ensures Full(db, l).l == l && BoundEntry(Full(db, l), a) == Lookup(db, a, l)
  {
    BindAllBinds(db, EVERY_ALIAS, FromLog(l));
    var i := match a case R => 0 case Pg => 1 case Ii => 2 case Io => 3 case Pr => 4 case Dn => 5;
    assert EVERY_ALIAS[i] == a;
  }

  lemma {:induction false} NameIsEntry(db: Db, l: LogRow, a: Alias, v: string)
    requires UniqueKeys(db)
    ensures TextOf(Name(a), Full(db, l)) == Some(v) <==> HasName(TableOf(db, a), KeyOf(l, a), v)
  {
    FullIsLookup(db, l, a);
    if Lookup(db, a, l).Some? {
      LookupIsEntry(db, a, l, Lookup(db, a, l).value);
    }
    if e :| e in TableOf(db, a) && Some(e.id) == KeyOf(l, a) && e.name == Some(v) {
      LookupIsEntry(db, a, l, e);
    }
  }

  lemma {:induction false} DescrIsEntry(db: Db, l: LogRow, v: string)
    requires UniqueKeys(db)
    ensures TextOf(RuleDescr, Full(db, l)) == Some(v) <==>
            exists e :: e in db.rules && Some(e.id) == l.ruleId && e.descr == Some(v)
  {
    FullIsLookup(db, l, R);
    if Lookup(db, R, l).Some? {
      LookupIsEntry(db, R, l, Lookup(db, R, l).value);
    }
    if e :| e in db.rules && Some(e.id) == l.ruleId && e.descr == Some(v) {
      LookupIsEntry(db, R, l, e);
    }
  }

  /** The texts that stand in the row itself. */
  lemma {:induction false} OwnTextsShow(db: Db, l: LogRow)
    ensures var j := Full(db, l);
            && TextOf(MacText, j) == l.macAddress && TextOf(DnsQuery, j) == l.dnsQuery && TextOf(Rdns, j) == l.rdns
            && TextOf(AsnName, j) == l.asnName && TextOf(GeoCountry, j) == l.geoCountry
            && TextOf(GeoCity, j) == l.geoCity && TextOf(DhcpEvent, j) == l.dhcpEvent
            && TextOf(WifiEvent, j) == l.wifiEvent && TextOf(RawLog, j) == l.rawLog
  {
    FullIsLookup(db, l, R);
    hide Full;
  }

  /** Column by column: a joined name is that of the entry whose id the row holds for it, the incoming and
      the outgoing interface each by its own. */
  lemma {:induction false} NamesShow(db: Db, l: LogRow, v: string)
    requires UniqueKeys(db)
    ensures var j := Full(db, l);
            && (TextOf(Name(R), j) == Some(v) <==> HasName(db.rules, l.ruleId, v))
            && (TextOf(Name(Pg), j) == Some(v) <==> HasName(db.programs, l.programId, v))
            && (TextOf(Name(Ii), j) == Some(v) <==> HasName(db.interfaces, l.ifaceInId, v))
            && (TextOf(Name(Io), j) == Some(v) <==> HasName(db.interfaces, l.ifaceOutId, v))
            && (TextOf(Name(Pr), j) == Some(v) <==> HasName(db.protocols, l.protocolId, v))
            && (TextOf(Name(Dn), j) == Some(v) <==> HasName(db.deviceNames, l.hostnameId, v))
            && (TextOf(RuleDescr, j) == Some(v) <==>
                  exists e :: e in db.rules && Some(e.id) == l.ruleId && e.descr == Some(v))
  {
    hide TextOf, HasName, Full, UniqueKeys;
    DescrIsEntry(db, l, v);
    NameIsEntry(db, l, R, v);
    NameIsEntry(db, l, Pg, v);
    NameIsEntry(db, l, Ii, v);
    NameIsEntry(db, l, Io, v);
    NameIsEntry(db, l, Pr, v);
    NameIsEntry(db, l, Dn, v);
  }
}
