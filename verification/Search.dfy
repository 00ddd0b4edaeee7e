/** Addresses and networks as bit strings: 32 bits for IPv4, 128 for IPv6. */
module Net {
  import opened Basics

  datatype Address = Address(bits: seq<bool>)

  datatype Network = Network(base: Address, prefix: nat)

  predicate InNetwork(net: Network, a: Address) {
    && |a.bits| == |net.base.bits|
    && net.prefix <= |a.bits|
    && a.bits[..net.prefix] == net.base.bits[..net.prefix]
  }

  predicate Within(net: Network, a: Option<Address>) {
    a.Some? && InNetwork(net, a.value)
  }

  /** The `width` low bits of `n`, most significant first. */
  function Bits(n: nat, width: nat): (r: seq<bool>)
    ensures |r| == width
  {
    if width == 0 then [] else Bits(n / 2, width - 1) + [n % 2 == 1]
  }

  lemma {:induction false} BitsInjective(a: nat, b: nat, width: nat)
    requires a < Pow2(width) && b < Pow2(width)
    ensures Bits(a, width) == Bits(b, width) ==> a == b
  {
    if width > 0 {
      BitsInjective(a / 2, b / 2, width - 1);
      if Bits(a, width) == Bits(b, width) {
        assert Bits(a, width)[..width - 1] == Bits(a / 2, width - 1);
        assert Bits(b, width)[..width - 1] == Bits(b / 2, width - 1);
        assert Bits(a, width)[width - 1] == Bits(b, width)[width - 1];
      }
    }
  }

  function Pow2(n: nat): nat {
    if n == 0 then 1 else 2 * Pow2(n - 1)
  }

  type Octet = n: int | 0 <= n < 256

  function V4(a: Octet, b: Octet, c: Octet, d: Octet): (r: Address)
    ensures |r.bits| == 32
  {
    Address(Bits(a, 8) + Bits(b, 8) + Bits(c, 8) + Bits(d, 8))
  }
}

/** The search language of the API: one text, split into tokens, each token typed. */
module Search {
  import opened Basics
  import opened Text
  import opened Numbers
  import opened Net
  import Glob

  datatype Field =
    | SrcIp | DstIp | AnyIp | Port | SrcPort | DstPort | Rule | Country
    | Asn | Protocol | Interface | Host | Action | LogType | Program | Severity

  datatype Value =
    | Ip(ip: Address)
    | Cidr(net: Network)
    | PortNo(port: int)
    | AsnNo(asn: int)
    | Mac(mac: string)
    | Text(text: string)

  datatype Term = Term(value: Value, field: Option<Field>, negated: bool, glob: bool)

  /** How addresses and networks are written: the two `FromStr` implementations. */
  datatype AddressSyntax = AddressSyntax(
    parseIp: string -> Option<Address>,
    parseNet: string -> Option<Network>)

  function FieldFromPrefix(p: string): Option<Field> {
    match p
    case "src" => Some(SrcIp)
    case "source" => Some(SrcIp)
    case "dst" => Some(DstIp)
    case "dest" => Some(DstIp)
    case "ip" => Some(AnyIp)
    case "port" => Some(Port)
    case "sport" => Some(SrcPort)
    case "dport" => Some(DstPort)
    case "rule" => Some(Rule)
    case "country" => Some(Country)
    case "asn" => Some(Asn)
    case "proto" => Some(Protocol)
    case "protocol" => Some(Protocol)
    case "iface" => Some(Interface)
    case "interface" => Some(Interface)
    case "host" => Some(Host)
    case "hostname" => Some(Host)
    case "action" => Some(Action)
    case "type" => Some(LogType)
    case "prog" => Some(Program)
    case "program" => Some(Program)
    case "sev" => Some(Severity)
    case "severity" => Some(Severity)
    case _ => None
  }

  /** Which prefixes name which field. */
  lemma {:induction false} PrefixesOf(p: string)
    ensures FieldFromPrefix(p) == Some(SrcIp) <==> p == "src" || p == "source"
    ensures FieldFromPrefix(p) == Some(DstIp) <==> p == "dst" || p == "dest"
    ensures FieldFromPrefix(p) == Some(AnyIp) <==> p == "ip"
    ensures FieldFromPrefix(p) == Some(Port) <==> p == "port"
    ensures FieldFromPrefix(p) == Some(SrcPort) <==> p == "sport"
    ensures FieldFromPrefix(p) == Some(DstPort) <==> p == "dport"
    ensures FieldFromPrefix(p) == Some(Rule) <==> p == "rule"
    ensures FieldFromPrefix(p) == Some(Country) <==> p == "country"
    ensures FieldFromPrefix(p) == Some(Asn) <==> p == "asn"
    ensures FieldFromPrefix(p) == Some(Protocol) <==> p == "proto" || p == "protocol"
    ensures FieldFromPrefix(p) == Some(Interface) <==> p == "iface" || p == "interface"
    ensures FieldFromPrefix(p) == Some(Host) <==> p == "host" || p == "hostname"
    ensures FieldFromPrefix(p) == Some(Action) <==> p == "action"
    ensures FieldFromPrefix(p) == Some(LogType) <==> p == "type"
    ensures FieldFromPrefix(p) == Some(Program) <==> p == "prog" || p == "program"
    ensures FieldFromPrefix(p) == Some(Severity) <==> p == "sev" || p == "severity"
  {}

  // ---- splitting

  function Pending(current: string): seq<string> {
    if current == "" then [] else [current]
  }

  /** The tokens still to come, `current` being the one under construction. */
  function ScanTokens(q: string, current: string, inQuotes: bool): seq<string> {
    if q == "" then Pending(current)
    else if q[0] == '"' then ScanTokens(q[1..], current, !inQuotes)
    else if IsSpace(q[0]) && !inQuotes then Pending(current) + ScanTokens(q[1..], "", false)
    else ScanTokens(q[1..], current + [q[0]], inQuotes)
  }

  function Tokens(query: string): seq<string> {
    ScanTokens(query, "", false)
  }

  method SplitTokens(query: string) returns (out: seq<string>)
    ensures out == Tokens(query)
  {
    out := [];
    var current, inQuotes := "", false;
    for i := 0 to |query|
      invariant out + ScanTokens(query[i..], current, inQuotes) == Tokens(query)
    {
      var c := query[i];
      assert query[i..][0] == c && query[i..][1..] == query[i + 1..];
      ghost var before := out;
      if c == '"' {
        inQuotes := !inQuotes;
      } else if IsSpace(c) && !inQuotes {
        if current != "" {
          out := out + [current];
        }
        assert out + ScanTokens(query[i + 1..], "", false)
            == before + (Pending(current) + ScanTokens(query[i + 1..], "", false));
        current := "";
      } else {
        current := current + [c];
      }
    }
    assert query[|query|..] == "";
    if current != "" {
      out := out + [current];
    }
  }

  // ---- typing

  predicate IsHexPair(p: string) {
    |p| == 2 && forall i :: 0 <= i < 2 ==> IsDigit(p[i]) || 'a' <= p[i] <= 'f' || 'A' <= p[i] <= 'F'
  }

  function Colons(t: string): (r: string)
    ensures |r| == |t| && forall i :: 0 <= i < |t| ==> r[i] == if t[i] == '-' then ':' else t[i]
  {
    seq(|t|, i requires 0 <= i < |t| => if t[i] == '-' then ':' else t[i])
  }

  predicate IsMac(t: string) {
    var parts := Glob.Split(Colons(t), ':');
    |parts| == 6 && forall i :: 0 <= i < 6 ==> IsHexPair(parts[i])
  }

  function TrimEndMatches(s: string, c: char): string {
    if s != "" && s[|s| - 1] == c then TrimEndMatches(s[..|s| - 1], c) else s
  }

  function ParseOctets(parts: seq<string>): (r: Option<seq<Octet>>)
    ensures r.Some? ==> |r.value| == |parts|
  {
    if parts == [] then Some([])
    else
      match (ParseInt(parts[0], 0, 255), ParseOctets(parts[1..]))
      case (Some(n), Some(rest)) => Some([n as Octet] + rest)
      case _ => None
  }

  function OctetTexts(token: string): seq<string> {
    Glob.Split(TrimEndMatches(TrimEndMatches(token, '*'), '.'), '.')
  }

  function OctetNetwork(p: seq<Octet>): Network
    requires 2 <= |p| <= 3
  {
    Network(V4(p[0], p[1], if |p| == 3 then p[2] else 0, 0), 8 * |p|)
  }

  /** Two or three octets, with or without the trailing dot or star, are a network. */
  function PrefixToNetwork(token: string): Option<Network> {
    if |OctetTexts(token)| < 2 || |OctetTexts(token)| > 3 then None
    else
      match ParseOctets(OctetTexts(token))
      case None => None
      case Some(p) => Some(OctetNetwork(p))
  }

  function Typed(token: string, syntax: AddressSyntax): Value {
    if '/' in token && syntax.parseNet(token).Some? then Cidr(syntax.parseNet(token).value)
    else if syntax.parseIp(token).Some? then Ip(syntax.parseIp(token).value)
    else if PrefixToNetwork(token).Some? then Cidr(PrefixToNetwork(token).value)
    else if IsMac(token) then Mac(Lower(token))
    else TypedPort(token)
  }

  predicate IsPortField(f: Field) {
    f.Port? || f.SrcPort? || f.DstPort?
  }

  predicate IsAddressField(f: Field) {
    f.SrcIp? || f.DstIp? || f.AnyIp?
  }

  /** What a source or destination prefix looks at: its own side, any other prefix either. */
  predicate Side(field: Option<Field>, onlySrc: Field, onlyDst: Field, src: bool, dst: bool) {
    if field == Some(onlySrc) then src else if field == Some(onlyDst) then dst else src || dst
  }

  function TypedPort(token: string): Value {
    match ParseInt(token, I32_MIN, I32_MAX)
    case Some(p) => if 1 <= p <= 65535 then PortNo(p) else Text(token)
    case None => Text(token)
  }

  function TypedAsn(token: string): Value {
    match ParseInt(token, I32_MIN, I32_MAX)
    case Some(n) => if n > 0 then AsnNo(n) else Text(token)
    case None => Text(token)
  }

  function TypedAddress(token: string, syntax: AddressSyntax): Value {
    match syntax.parseIp(token)
    case Some(ip) => Ip(ip)
    case None =>
      match (if '/' in token then syntax.parseNet(token) else PrefixToNetwork(token))
      case Some(net) => Cidr(net)
      case None => Text(token)
  }

  function TypedFor(token: string, field: Option<Field>, syntax: AddressSyntax): Value {
    if field.None? then Typed(token, syntax)
    else if field.value.Asn? then TypedAsn(token)
    else if IsPortField(field.value) then TypedPort(token)
    else if IsAddressField(field.value) then TypedAddress(token, syntax)
    else Text(token)
  }

  predicate IsNegation(c: char) {
    c == '!' || c == '-'
  }

  /** The field a token names in front of its first colon, with what is left of it. */
  function Scope(token: string): (r: Option<(Field, string)>)
    ensures r.Some? ==> r.value.1 != "" && |r.value.1| < |token|
  {
    match SplitOnce(token, ':')
    case None => None
    case Some((prefix, remainder)) =>
      match FieldFromPrefix(Lower(Trim(prefix)))
      case Some(f) => if remainder != "" then Some((f, remainder)) else None
      case None => None
  }

  function Classify(token: string, syntax: AddressSyntax): Option<Term> {
    var negated := token != "" && IsNegation(token[0]);
    var rest := if negated then token[1..] else token;
    if rest == "" then None
    else
      var field := match Scope(rest) case Some(p) => Some(p.0) case None => None;
      var body := match Scope(rest) case Some(p) => p.1 case None => rest;
      Some(Term(TypedFor(body, field, syntax), field, negated, '*' in body))
  }

  /** What typing by field guarantees: a field never carries a value of a foreign type. */
  predicate WellTyped(t: Term) {
    match t.value
    case Ip(_) => t.field in {None, Some(SrcIp), Some(DstIp), Some(AnyIp)}
    case Cidr(_) => t.field in {None, Some(SrcIp), Some(DstIp), Some(AnyIp)}
    case PortNo(p) => t.field in {None, Some(Port), Some(SrcPort), Some(DstPort)} && 1 <= p <= 65535
    case AsnNo(n) => t.field == Some(Asn) && n > 0
    case Mac(m) => t.field == None && Lower(m) == m
    case Text(s) => s != "" && (t.glob <==> '*' in s)
  }

  function Classified(token: string, syntax: AddressSyntax): (r: seq<Term>)
    ensures |r| <= 1
  {
    match Classify(token, syntax)
    case Some(t) => [t]
    case None => []
  }

  function Classifier(syntax: AddressSyntax): string -> seq<Term> {
    token => Classified(token, syntax)
  }

  /** `filter_map(classify)`. */
  function ClassifyAll(tokens: seq<string>, syntax: AddressSyntax): seq<Term> {
    FlatMap(tokens, Classifier(syntax))
  }

  function ParseSearch(query: string, syntax: AddressSyntax): seq<Term> {
    if Trim(query) == "" then [] else ClassifyAll(Tokens(query), syntax)
  }

  lemma {:induction false} TypedForRespectsField(token: string, field: Option<Field>, negated: bool,
          syntax: AddressSyntax)
    requires token != ""
    ensures WellTyped(Term(TypedFor(token, field, syntax), field, negated, '*' in token))
  {
    LowerIdempotent(token);
  }

  lemma {:induction false} EveryParsedTermIsWellTyped(tokens: seq<string>, syntax: AddressSyntax)
    ensures forall t :: t in ClassifyAll(tokens, syntax) ==> WellTyped(t)
  {
    if tokens != [] {
      var token := tokens[0];
      var negated := token != "" && IsNegation(token[0]);
      var rest := if negated then token[1..] else token;
      if rest != "" {
        var scope := Scope(rest);
        TypedForRespectsField(rest, None, negated, syntax);
        if scope.Some? {
          TypedForRespectsField(scope.value.1, Some(scope.value.0), negated, syntax);
        }
      }
      EveryParsedTermIsWellTyped(tokens[1..], syntax);
    }
  }

  // ---- partial addresses

  lemma {:induction false} OctetsOfDistinctBits(a: Octet, b: Octet)
    ensures Bits(a, 8) == Bits(b, 8) <==> a == b
  {
    assert Pow2(8) == 256 by {
      assert Pow2(4) == 16;
    }
    BitsInjective(a, b, 8);
  }

  lemma {:induction false} TwoOctets(a: Octet, b: Octet, x: Octet, y: Octet)
    ensures Bits(a, 8) + Bits(b, 8) == Bits(x, 8) + Bits(y, 8) <==> a == x && b == y
  {
    OctetsOfDistinctBits(a, x);
    OctetsOfDistinctBits(b, y);
    SplitEqual(Bits(a, 8), Bits(b, 8), Bits(x, 8), Bits(y, 8));
  }

  lemma {:induction false} OctetNetworkCovers(p: seq<Octet>, a: Octet, b: Octet, c: Octet, d: Octet)
    requires 2 <= |p| <= 3
    ensures InNetwork(OctetNetwork(p), V4(a, b, c, d)) <==> p == [a, b, c][..|p|]
  {
    TwoOctets(a, b, p[0], p[1]);
    V4Slices(a, b, c, d);
    if |p| == 3 {
      V4Slices(p[0], p[1], p[2], 0);
      OctetsOfDistinctBits(c, p[2]);
      SplitEqual(Bits(a, 8) + Bits(b, 8), Bits(c, 8), Bits(p[0], 8) + Bits(p[1], 8), Bits(p[2], 8));
      assert p == [p[0], p[1], p[2]] && [a, b, c][..3] == [a, b, c];
    } else {
      V4Slices(p[0], p[1], 0, 0);
      assert p == [p[0], p[1]] && [a, b, c][..2] == [a, b];
    }
  }

  /** A partial address stands for exactly the IPv4 addresses that begin with its octets. */
  lemma {:induction false} PartialAddressCoversItsOctets(token: string, a: Octet, b: Octet, c: Octet, d: Octet)
    requires PrefixToNetwork(token).Some?
    ensures var octets := ParseOctets(OctetTexts(token)).value;
            InNetwork(PrefixToNetwork(token).value, V4(a, b, c, d)) <==> octets == [a, b, c][..|octets|]
  {
    OctetNetworkCovers(ParseOctets(OctetTexts(token)).value, a, b, c, d);
  }

  lemma {:induction false} V4Slices(a: Octet, b: Octet, c: Octet, d: Octet)
    ensures V4(a, b, c, d).bits[..16] == Bits(a, 8) + Bits(b, 8)
    ensures V4(a, b, c, d).bits[..24] == Bits(a, 8) + Bits(b, 8) + Bits(c, 8)
  {}

  lemma {:induction false} SplitEqual(a: seq<bool>, b: seq<bool>, x: seq<bool>, y: seq<bool>)
    requires |a| == |x|
    ensures a + b == x + y <==> a == x && b == y
  {
    if a + b == x + y {
      assert a == (a + b)[..|a|] && b == (a + b)[|a|..];
      assert x == (x + y)[..|a|] && y == (x + y)[|a|..];
    }
  }

  // ---- what a token is read as

  lemma {:induction false} TrimEndIs(s: string, c: char)
    ensures var t := TrimEndMatches(s, c);
            && t <= s && (t != "" ==> t[|t| - 1] != c) && forall i :: |t| <= i < |s| ==> s[i] == c
  {
    if s != "" && s[|s| - 1] == c {
      TrimEndIs(s[..|s| - 1], c);
    }
  }

  lemma {:induction false} TrimEndUnique(t: string, s: string, c: char)
    requires t <= s && (t != "" ==> t[|t| - 1] != c) && forall i :: |t| <= i < |s| ==> s[i] == c
    ensures TrimEndMatches(s, c) == t
  {
    if |t| < |s| {
      TrimEndUnique(t, s[..|s| - 1], c);
    }
  }

  /** The octets `p` as texts, joined by dots, with dots and behind these stars at the end. */
  predicate WritesOctets(token: string, p: seq<Octet>, texts: seq<string>) {
    && 2 <= |p| <= 3 && |texts| == |p|
    && TrimEndMatches(TrimEndMatches(token, '*'), '.') == Join(texts, '.')
    && forall i :: 0 <= i < |p| ==> '.' !in texts[i] && ParseInt(texts[i], 0, 255) == Some(p[i] as int)
  }

  lemma {:induction false} OctetsParsed(texts: seq<string>)
    ensures ParseOctets(texts).Some?
       <==> forall i :: 0 <= i < |texts| ==> ParseInt(texts[i], 0, 255).Some?
    ensures ParseOctets(texts).Some? ==>
              forall i :: 0 <= i < |texts| ==> ParseInt(texts[i], 0, 255) == Some(ParseOctets(texts).value[i] as int)
  {
    hide ParseInt;
    if texts != [] {
      OctetsParsed(texts[1..]);
      assert texts == [texts[0]] + texts[1..];
    }
  }

  /** A partial address is two or three octets, and stands for their network. */
  lemma {:induction false} PartialAddressIs(token: string, n: Network)
    ensures PrefixToNetwork(token) == Some(n)
       <==> exists p: seq<Octet>, texts :: WritesOctets(token, p, texts) && n == OctetNetwork(p)
  {
    var parts := OctetTexts(token);
    SplitOfTrimmed(token);
    OctetsParsed(parts);
    if PrefixToNetwork(token) == Some(n) {
      assert WritesOctets(token, ParseOctets(parts).value, parts);
    }
    if p: seq<Octet>, texts :| WritesOctets(token, p, texts) && n == OctetNetwork(p) {
      Glob.JoinedIsSplit(texts, '.');
      assert ParseOctets(parts).value == p;
    }
  }

  lemma {:induction false} SplitOfTrimmed(token: string)
    ensures Join(OctetTexts(token), '.') == TrimEndMatches(TrimEndMatches(token, '*'), '.')
  {
    Glob.SplitIsJoined(TrimEndMatches(TrimEndMatches(token, '*'), '.'), '.');
  }

  predicate IsHexDigit(c: char) {
    '0' <= c <= '9' || 'a' <= c <= 'f' || 'A' <= c <= 'F'
  }

  /** Six pairs of hexadecimal digits between colons or hyphens. */
  predicate MacShaped(t: string) {
    |t| == 17 && forall i :: 0 <= i < 17 ==> if i % 3 == 2 then t[i] == ':' || t[i] == '-' else IsHexDigit(t[i])
  }

  predicate Pairs(parts: seq<string>) {
    forall i :: 0 <= i < |parts| ==> |parts[i]| == 2
  }

  lemma {:induction false} JoinedPairs(parts: seq<string>, i: nat)
    requires parts != [] && Pairs(parts) && i < 3 * |parts| - 1
    ensures var j := Join(parts, ':');
            && |j| == 3 * |parts| - 1
            && j[i] == if i % 3 == 2 then ':' else parts[i / 3][i % 3]
  {
    if |parts| > 1 {
      var rest := Join(parts[1..], ':');
      assert Join(parts, ':') == parts[0] + [':'] + rest;
      if i >= 3 {
        JoinedPairs(parts[1..], i - 3);
        assert parts[1..][(i - 3) / 3] == parts[i / 3];
      } else {
        JoinedPairs(parts[1..], 0);
      }
    }
  }

  lemma {:induction false} MacPairs(u: string)
    requires |u| == 17 && forall i :: 0 <= i < 17 && i % 3 == 2 ==> u[i] == ':'
    requires forall i :: 0 <= i < 17 && i % 3 != 2 ==> u[i] != ':'
    ensures Glob.Split(u, ':') == [u[0..2], u[3..5], u[6..8], u[9..11], u[12..14], u[15..17]]
  {
    var six := [u[0..2], u[3..5], u[6..8], u[9..11], u[12..14], u[15..17]];
    JoinedPairs(six, 0);
    forall i | 0 <= i < 17 ensures Join(six, ':')[i] == u[i] {
      JoinedPairs(six, i);
    }
    assert Join(six, ':') == u;
    Glob.JoinedIsSplit(six, ':');
  }

  lemma {:induction false} MacOfParts(t: string)
    requires IsMac(t)
    ensures MacShaped(t)
  {
    var u := Colons(t);
    var parts := Glob.Split(u, ':');
    Glob.SplitIsJoined(u, ':');
    JoinedPairs(parts, 0);
    forall i | 0 <= i < 17 ensures if i % 3 == 2 then u[i] == ':' else IsHexDigit(u[i]) {
      JoinedPairs(parts, i);
      assert IsHexPair(parts[i / 3]);
    }
  }

  lemma {:induction false} MacIsShaped(t: string)
    ensures IsMac(t) <==> MacShaped(t)
  {
    if IsMac(t) {
      MacOfParts(t);
    }
    if MacShaped(t) {
      MacPairs(Colons(t));
      HexPairsOf(Colons(t));
    }
  }

  lemma {:induction false} HexPairsOf(u: string)
    requires |u| == 17 && forall i :: 0 <= i < 17 && i % 3 != 2 ==> IsHexDigit(u[i])
    ensures IsHexPair(u[0..2]) && IsHexPair(u[3..5]) && IsHexPair(u[6..8])
    ensures IsHexPair(u[9..11]) && IsHexPair(u[12..14]) && IsHexPair(u[15..17])
  {
    forall k | 0 <= k <= 15 && k % 3 == 0 ensures IsHexPair(u[k..k + 2]) {
      assert k % 3 != 2 && (k + 1) % 3 != 2;
    }
  }

  predicate WritesPort(x: string, p: int) {
    ParseInt(x, I32_MIN, I32_MAX) == Some(p) && 1 <= p <= 65535
  }

  /** What a text without a field is read as: a network with its slash first, then an address, a partial
      address, a hardware address, a port; and anything else as text. */
  predicate ReadsFreely(v: Value, x: string, syntax: AddressSyntax) {
    var net := '/' in x && syntax.parseNet(x).Some?;
    var address := net || syntax.parseIp(x).Some? || PrefixToNetwork(x).Some?;
    && (v.Ip? <==> !net && syntax.parseIp(x).Some?)
    && (v.Ip? ==> syntax.parseIp(x) == Some(v.ip))
    && (v.Cidr? <==> net || (syntax.parseIp(x).None? && PrefixToNetwork(x).Some?))
    && (v.Cidr? ==> (if net then syntax.parseNet(x) else PrefixToNetwork(x)) == Some(v.net))
    && (v.Mac? <==> !address && MacShaped(x))
    && (v.Mac? ==> v.mac == Lower(x))
    && (v.PortNo? <==> !address && !MacShaped(x) && exists p :: 1 <= p <= 65535 && WritesPort(x, p))
    && (v.PortNo? ==> WritesPort(x, v.port))
    && !v.AsnNo?
    && (v.Text? ==> v.text == x)
  }

  /** And under an address field: an address before anything else. */
  predicate ReadsAsAddress(v: Value, x: string, syntax: AddressSyntax) {
    var net := if '/' in x then syntax.parseNet(x) else PrefixToNetwork(x);
    && (v.Ip? <==> syntax.parseIp(x).Some?)
    && (v.Ip? ==> syntax.parseIp(x) == Some(v.ip))
    && (v.Cidr? <==> syntax.parseIp(x).None? && net.Some?)
    && (v.Cidr? ==> net == Some(v.net))
    && !v.Mac? && !v.PortNo? && !v.AsnNo?
    && (v.Text? ==> v.text == x)
  }

  predicate ReadsAsPort(v: Value, x: string) {
    && (v.PortNo? || v == Text(x))
    && (v.PortNo? <==> exists p :: 1 <= p <= 65535 && WritesPort(x, p))
    && (v.PortNo? ==> WritesPort(x, v.port))
  }

  predicate ReadsAsAsn(v: Value, x: string) {
    && (v.AsnNo? || v == Text(x))
    && (v.AsnNo? <==> ParseInt(x, I32_MIN, I32_MAX).Some? && ParseInt(x, I32_MIN, I32_MAX).value > 0)
    && (v.AsnNo? ==> ParseInt(x, I32_MIN, I32_MAX) == Some(v.asn))
  }

  predicate ReadAs(v: Value, x: string, field: Option<Field>, syntax: AddressSyntax) {
    if field.None? then ReadsFreely(v, x, syntax)
    else if field.value in {SrcIp, DstIp, AnyIp} then ReadsAsAddress(v, x, syntax)
    else if field.value in {Port, SrcPort, DstPort} then ReadsAsPort(v, x)
    else if field == Some(Asn) then ReadsAsAsn(v, x)
    else v == Text(x)
  }

  lemma {:induction false} TypedIsRead(x: string, field: Option<Field>, syntax: AddressSyntax)
    ensures ReadAs(TypedFor(x, field, syntax), x, field, syntax)
  {
    MacIsShaped(x);
    hide PrefixToNetwork, MacShaped, IsMac;
    var n := ParseInt(x, I32_MIN, I32_MAX);
    if n.Some? {
      assert WritesPort(x, n.value) <==> 1 <= n.value <= 65535;
    }
  }

  lemma {:induction false} WordIsToken(q: string, current: string)
    requires forall i :: 0 <= i < |q| ==> !IsSpace(q[i]) && q[i] != '"'
    ensures ScanTokens(q, current, false) == Pending(current + q)
    decreases |q|
  {
    if q == "" {
      assert current + q == current;
    } else {
      WordIsToken(q[1..], current + [q[0]]);
      assert (current + [q[0]]) + q[1..] == current + q;
    }
  }

  /** A token is `prefix:body` under a field, or all of it is the body. */
  predicate Scoped(rest: string, field: Option<Field>, body: string) {
    match field
    case Some(f) =>
      exists k :: 0 <= k < |rest| && rest[k] == ':' && ':' !in rest[..k] && body == rest[k + 1..] && body != ""
               && FieldFromPrefix(Lower(Trim(rest[..k]))) == Some(f)
    case None =>
      && body == rest
      && forall k :: 0 <= k < |rest| && rest[k] == ':' && ':' !in rest[..k] && rest[k + 1..] != "" ==>
           FieldFromPrefix(Lower(Trim(rest[..k]))).None?
  }

  lemma {:induction false} ScopedIs(rest: string, field: Option<Field>, body: string)
    requires Scoped(rest, field, body)
    ensures Scope(rest) == if field.Some? then Some((field.value, body)) else None
  {
    if ':' in rest {
      var k :| 0 <= k < |rest| && rest[k] == ':';
      FirstColon(rest, k);
    }
  }

  lemma {:induction false} FirstColon(rest: string, k: nat)
    requires k < |rest| && rest[k] == ':'
    ensures exists i :: 0 <= i < |rest| && rest[i] == ':' && ':' !in rest[..i]
    ensures forall i :: 0 <= i < |rest| && rest[i] == ':' && ':' !in rest[..i] ==>
              SplitOnce(rest, ':') == Some((rest[..i], rest[i + 1..]))
  {
    var at := IndexOf(rest, ':').value;
    assert rest[at] == ':' && ':' !in rest[..at];
    forall i | 0 <= i < |rest| && rest[i] == ':' && ':' !in rest[..i]
      ensures SplitOnce(rest, ':') == Some((rest[..i], rest[i + 1..]))
    {
      assert rest == rest[..i] + [':'] + rest[i + 1..];
      SplitOnceAt(rest[..i], ':', rest[i + 1..]);
    }
  }

  /** A query of one word gives one term, with the polarity of its first character, the field its prefix
      names, and the value its text is read as; a bare sign gives none. */
  lemma {:induction false} OneWordIsRead(q: string, rest: string, field: Option<Field>, body: string,
                                         syntax: AddressSyntax)
    requires q != "" && forall i :: 0 <= i < |q| ==> !IsSpace(q[i]) && q[i] != '"'
    requires rest == if q[0] == '!' || q[0] == '-' then q[1..] else q
    requires Scoped(rest, field, body)
    ensures rest == "" ==> ParseSearch(q, syntax) == []
    ensures rest != "" ==>
              && |ParseSearch(q, syntax)| == 1
              && var t := ParseSearch(q, syntax)[0];
              && t.field == field && (t.negated <==> q[0] == '!' || q[0] == '-') && (t.glob <==> '*' in body)
              && ReadAs(t.value, body, field, syntax)
  {
    ParseOneWord(q, syntax);
    ClassifyScoped(q, rest, field, body, syntax);
    TypedIsRead(body, field, syntax);
    hide *;
  }

  lemma {:induction false} ClassifyScoped(q: string, rest: string, field: Option<Field>, body: string,
                                          syntax: AddressSyntax)
    requires q != "" && rest == if q[0] == '!' || q[0] == '-' then q[1..] else q
    requires Scoped(rest, field, body)
    ensures Classified(q, syntax)
            == if rest == "" then []
               else [Term(TypedFor(body, field, syntax), field, q[0] == '!' || q[0] == '-', '*' in body)]
  {
    ScopedIs(rest, field, body);
    FreeBody(rest, field, body);
    hide TypedFor, Scope, Scoped;
  }

  lemma {:induction false} FreeBody(rest: string, field: Option<Field>, body: string)
    requires Scoped(rest, field, body)
    ensures field.None? ==> body == rest
  {}

  lemma {:induction false} ParseOneWord(q: string, syntax: AddressSyntax)
    requires q != "" && forall i :: 0 <= i < |q| ==> !IsSpace(q[i]) && q[i] != '"'
    ensures ParseSearch(q, syntax) == Classified(q, syntax)
  {
    WordIsToken(q, "");
    assert "" + q == q;
    WordIsTrimmed(q);
    FlatMapOne(q, Classifier(syntax));
    hide Classified;
  }

  lemma {:induction false} WordIsTrimmed(q: string)
    requires q != "" && !IsSpace(q[0]) && !IsSpace(q[|q| - 1])
    ensures Trim(q) == q
  {}
}
