/** The extension of a CEF event: key=value pairs whose values may hold spaces. */
module Cef {
  import opened Basics
  import opened Text

  predicate KeyHead(c: char) {
    'a' <= c <= 'z' || 'A' <= c <= 'Z' || c == '_'
  }

  predicate WordChar(c: char) {
    KeyHead(c) || '0' <= c <= '9'
  }

  /** By their ASCII codes: letters and the underscore, and behind the first also digits. */
  lemma {:induction false} KeyChars(c: char)
    ensures KeyHead(c) <==> 65 <= c as int <= 90 || 97 <= c as int <= 122 || c as int == 95
    ensures WordChar(c) <==> KeyHead(c) || 48 <= c as int <= 57
  {}

  predicate AtStart(x: string, i: nat)
    requires i < |x|
  {
    i == 0 || x[i - 1] == ' '
  }

  /** `x[s..e]` is a key: at the start or behind a space, word characters only, and `=` behind it. */
  predicate KeySpan(x: string, s: nat, e: nat) {
    && s < e < |x| && AtStart(x, s) && KeyHead(x[s]) && x[e] == '='
    && forall i :: s <= i < e ==> WordChar(x[i])
  }

  function WordEnd(x: string, i: nat): (j: nat)
    requires i <= |x|
    ensures i <= j <= |x| && (forall k :: i <= k < j ==> WordChar(x[k])) && (j < |x| ==> !WordChar(x[j]))
    decreases |x| - i
  {
    if i < |x| && WordChar(x[i]) then WordEnd(x, i + 1) else i
  }

  predicate StartsKey(x: string, i: nat)
    requires i < |x|
  {
    AtStart(x, i) && KeyHead(x[i]) && WordEnd(x, i) < |x| && x[WordEnd(x, i)] == '='
  }

  /** Where a key begins, and where its equals sign stands. */
  datatype Span = Span(start: nat, eq: nat)

  /** The keys from `i` on. */
  function SpansFrom(x: string, i: nat): seq<Span>
    decreases |x| - i
  {
    if i >= |x| then []
    else if StartsKey(x, i) then [Span(i, WordEnd(x, i))] + SpansFrom(x, WordEnd(x, i) + 1)
    else SpansFrom(x, i + 1)
  }

  method KeyStarts(x: string) returns (out: seq<Span>)
    ensures out == SpansFrom(x, 0)
  {
    out := [];
    var i := 0;
    while i < |x|
      invariant 0 <= i <= |x|
      invariant out + SpansFrom(x, i) == SpansFrom(x, 0)
      decreases |x| - i
    {
      var advanced := false;
      if AtStart(x, i) && KeyHead(x[i]) {
        var j := i;
        while j < |x| && WordChar(x[j])
          invariant i <= j <= |x| && WordEnd(x, i) == WordEnd(x, j)
        {
          j := j + 1;
        }
        if j < |x| && x[j] == '=' && j > i {
          out := out + [Span(i, j)];
          i := j + 1;
          advanced := true;
        }
      }
      if !advanced {
        i := i + 1;
      }
    }
  }

  lemma {:induction false} WordEndIs(x: string, s: nat, e: nat)
    requires KeySpan(x, s, e)
    ensures WordEnd(x, s) == e && StartsKey(x, s)
  {}

  /** The scan finds every key there is, and nothing else. */
  lemma {:induction false} ScanIsComplete(x: string, i: nat)
    ensures forall s: nat, e: nat :: Span(s, e) in SpansFrom(x, i) <==> i <= s && KeySpan(x, s, e)
    decreases |x| - i
  {
    if i < |x| {
      var here := StartsKey(x, i);
      var j := WordEnd(x, i);
      var next := if here then j + 1 else i + 1;
      ScanIsComplete(x, next);
      forall s: nat | here && i < s <= j ensures !AtStart(x, s) {
        assert WordChar(x[s - 1]);
      }
      forall s: nat, e: nat ensures Span(s, e) in SpansFrom(x, i) <==> i <= s && KeySpan(x, s, e) {
        if KeySpan(x, s, e) {
          WordEndIs(x, s, e);
        }
      }
    }
  }

  /** Keys in order and apart. */
  predicate Spans(x: string, spans: seq<Span>) {
    && (forall a :: 0 <= a < |spans| ==> spans[a].start < spans[a].eq < |x|)
    && (forall a, b :: 0 <= a < b < |spans| ==> spans[a].eq < spans[b].start)
  }

  lemma {:induction false} SpansBehind(x: string, first: Span, rest: seq<Span>)
    requires first.start < first.eq < |x| && Spans(x, rest)
    requires forall a :: 0 <= a < |rest| ==> first.eq < rest[a].start
    ensures Spans(x, [first] + rest)
    ensures forall a :: 0 <= a < |rest| + 1 ==> first.start <= ([first] + rest)[a].start
  {}

  /** For any input whatever, the keys stand in order and apart. */
  lemma {:induction false} ScanIsIncreasing(x: string, i: nat)
    ensures var spans := SpansFrom(x, i);
            Spans(x, spans) && forall a :: 0 <= a < |spans| ==> i <= spans[a].start
    decreases |x| - i
  {
    if i < |x| {
      if StartsKey(x, i) {
        var j := WordEnd(x, i);
        assert WordChar(x[i]) && i < j;
        ScanIsIncreasing(x, j + 1);
        SpansBehind(x, Span(i, j), SpansFrom(x, j + 1));
      } else {
        ScanIsIncreasing(x, i + 1);
      }
    }
  }

  // ---- the pairs

  const VENDOR := "UNIFI"

  /** Without the vendor prefix, the first letter small. */
  function Normal(key: string): string {
    var k := if StartsWith(key, VENDOR) then key[|VENDOR|..] else key;
    if k == "" then k else [LowerChar(k[0])] + k[1..]
  }

  predicate IsValue(v: string) {
    v != "" && v != "null"
  }

  function Put(m: map<string, string>, key: string, value: string): map<string, string> {
    if IsValue(value) then m[Normal(key) := value] else m
  }

  /** A value runs to the next key. */
  function ValueEnd(x: string, spans: seq<Span>, n: nat): (end: nat)
    requires Spans(x, spans) && n < |spans|
    ensures spans[n].eq < end <= |x|
  {
    if n + 1 < |spans| then spans[n + 1].start else |x|
  }

  function KeyText(x: string, span: Span): string
    requires span.start <= span.eq <= |x|
  {
    x[span.start..span.eq]
  }

  function ValueText(x: string, span: Span, end: nat): string
    requires span.eq < end <= |x|
  {
    Trim(x[span.eq + 1..end])
  }

  /** What the first `n` keys contribute. */
  function FieldsOf(x: string, spans: seq<Span>, n: nat): map<string, string>
    requires Spans(x, spans) && n <= |spans|
  {
    if n == 0 then map[]
    else
      Put(FieldsOf(x, spans, n - 1), KeyText(x, spans[n - 1]),
          ValueText(x, spans[n - 1], ValueEnd(x, spans, n - 1)))
  }

  function Fields(x: string): map<string, string> {
    ScanIsIncreasing(x, 0);
    FieldsOf(x, SpansFrom(x, 0), |SpansFrom(x, 0)|)
  }

  method Extension(x: string) returns (out: map<string, string>)
    ensures out == Fields(x)
  {
    var keys := KeyStarts(x);
    ScanIsIncreasing(x, 0);
    out := ReadFields(x, keys);
  }

  lemma {:induction false} FieldsNext(x: string, spans: seq<Span>, n: nat, key: string, value: string)
    requires Spans(x, spans) && n < |spans|
    requires key == KeyText(x, spans[n]) && value == ValueText(x, spans[n], ValueEnd(x, spans, n))
    ensures FieldsOf(x, spans, n + 1) == Put(FieldsOf(x, spans, n), key, value)
  {}

  lemma {:induction false} PutIs(m: map<string, string>, key: string, value: string)
    ensures Put(m, key, value) == if IsValue(value) then m[Normal(key) := value] else m
  {}

  method ReadFields(x: string, keys: seq<Span>) returns (out: map<string, string>)
    requires Spans(x, keys)
    ensures out == FieldsOf(x, keys, |keys|)
  {
    out := map[];
    for n := 0 to |keys|
      invariant out == FieldsOf(x, keys, n)
    {
      var end := ValueEnd(x, keys, n);
      var key, value := KeyText(x, keys[n]), ValueText(x, keys[n], end);
      FieldsNext(x, keys, n, key, value);
      PutIs(out, key, value);
      if IsValue(value) {
        out := out[Normal(key) := value];
      }
    }
  }

  // ---- printing

  datatype Pair = Pair(key: string, value: string)

  function PrintPair(p: Pair): string {
    p.key + "=" + p.value
  }

  /** The pairs as the gateway writes them, separated by single spaces. */
  function Print(pairs: seq<Pair>): string {
    if pairs == [] then ""
    else if |pairs| == 1 then PrintPair(pairs[0])
    else PrintPair(pairs[0]) + " " + Print(pairs[1..])
  }

  predicate KeyShaped(k: string) {
    k != "" && KeyHead(k[0]) && forall i :: 0 <= i < |k| ==> WordChar(k[i])
  }

  /** No word behind a space that could be taken for a key. */
  predicate Clean(v: string) {
    forall s: nat, e: nat :: 0 < s < |v| && s < e < |v| ==> !KeySpan(v, s, e)
  }

  predicate Printable(p: Pair) {
    KeyShaped(p.key) && Clean(p.value)
  }

  /** What the pairs mean: names normalised, values trimmed, empty ones and `null` left out, a later
      pair replacing an earlier one. */
  function Normalised(pairs: seq<Pair>): map<string, string> {
    if pairs == [] then map[]
    else Put(Normalised(pairs[..|pairs| - 1]), pairs[|pairs| - 1].key, Trim(pairs[|pairs| - 1].value))
  }

  function Offset(pairs: seq<Pair>, n: nat): nat
    requires n <= |pairs|
  {
    if n == 0 then 0 else Offset(pairs, n - 1) + |pairs[n - 1].key| + |pairs[n - 1].value| + 2
  }

  lemma {:induction false} PrintFrom(pairs: seq<Pair>, n: nat)
    requires n < |pairs|
    ensures Offset(pairs, n) <= |Print(pairs)| && Print(pairs)[Offset(pairs, n)..] == Print(pairs[n..])
  {
    var x := Print(pairs);
    if n == 0 {
      assert pairs[0..] == pairs && x[0..] == x;
    } else {
      PrintFrom(pairs, n - 1);
      var o := Offset(pairs, n - 1);
      var first := PrintPair(pairs[n - 1]) + " ";
      assert pairs[n - 1..][1..] == pairs[n..];
      assert x[o..] == first + Print(pairs[n..]);
      assert x[o..][|first|..] == x[o + |first|..];
    }
  }

  /** Where the equals sign of a pair stands that begins at `o`, and where its value ends. */
  function EqOf(o: nat, p: Pair): nat {
    o + |p.key|
  }

  function EndOf(o: nat, p: Pair): nat {
    EqOf(o, p) + 1 + |p.value|
  }

  /** The pair stands in the text at `o`. */
  predicate Stands(x: string, o: nat, p: Pair) {
    EndOf(o, p) <= |x| && x[o..EqOf(o, p)] == p.key && x[EqOf(o, p)] == '='
    && x[EqOf(o, p) + 1..EndOf(o, p)] == p.value
  }

  lemma {:induction false} ThreePieces(x: string, o: nat, p: Pair, tail: string)
    requires o <= |x| && x[o..] == p.key + ("=" + (p.value + tail))
    ensures Stands(x, o, p) && x[EndOf(o, p)..] == tail
  {}

  lemma {:induction false} FirstPair(pairs: seq<Pair>)
    requires pairs != []
    ensures var p, tail := pairs[0], if |pairs| > 1 then " " + Print(pairs[1..]) else "";
            Print(pairs) == p.key + ("=" + (p.value + tail))
  {}

  /** Where pair `n` stands in the printed text. */
  lemma {:induction false} PairText(pairs: seq<Pair>, n: nat)
    requires n < |pairs|
    ensures var x, o, p := Print(pairs), Offset(pairs, n), pairs[n];
            && Stands(x, o, p)
            && (n + 1 < |pairs| ==> EndOf(o, p) < |x| && x[EndOf(o, p)] == ' ')
            && (n + 1 == |pairs| ==> EndOf(o, p) == |x|)
  {
    PrintFrom(pairs, n);
    var from := pairs[n..];
    assert from[0] == pairs[n] && from[1..] == pairs[n + 1..];
    FirstPair(from);
    var tail := if n + 1 < |pairs| then " " + Print(pairs[n + 1..]) else "";
    ThreePieces(Print(pairs), Offset(pairs, n), pairs[n], tail);
    Leads(Print(pairs), EndOf(Offset(pairs, n), pairs[n]), tail);
  }

  lemma {:induction false} Leads(x: string, i: nat, tail: string)
    requires i <= |x| && x[i..] == tail
    ensures tail == "" ==> i == |x|
    ensures tail != "" ==> i < |x| && x[i] == tail[0]
  {}

  lemma {:induction false} PairAt(pairs: seq<Pair>, n: nat)
    requires n < |pairs|
    ensures var x, o, p := Print(pairs), Offset(pairs, n), pairs[n];
            && Stands(x, o, p)
            && (n + 1 < |pairs| ==> EndOf(o, p) < |x| && x[EndOf(o, p)] == ' '
                                    && EndOf(o, p) + 1 == Offset(pairs, n + 1))
            && (n + 1 == |pairs| ==> EndOf(o, p) == |x|)
            && (n > 0 ==> o > 0 && x[o - 1] == ' ')
  {
    PairText(pairs, n);
    if n > 0 {
      PairText(pairs, n - 1);
    }
  }

  /** Scanning over a stretch without keys. */
  lemma {:induction false} NoKeyNoSpan(x: string, i: nat, m: nat)
    requires i <= m <= |x| && forall s: nat, e: nat :: i <= s < m ==> !KeySpan(x, s, e)
    ensures SpansFrom(x, i) == SpansFrom(x, m)
    decreases m - i
  {
    if i < m {
      assert !KeySpan(x, i, WordEnd(x, i));
      NoKeyNoSpan(x, i + 1, m);
    }
  }

  /** A stretch of text between an equals sign and the separator behind it, as a printed value stands. */
  predicate ValueAt(x: string, from: nat, v: string) {
    && 0 < from && from + |v| <= |x| && x[from - 1] == '=' && x[from..from + |v|] == v
    && (from + |v| < |x| ==> x[from + |v|] == ' ')
  }

  /** Inside a printed value there is no key. */
  lemma {:induction false} ValueHidesNoKey(x: string, from: nat, v: string)
    requires ValueAt(x, from, v) && Clean(v)
    ensures forall s: nat, e: nat :: from <= s <= from + |v| ==> !KeySpan(x, s, e)
  {
    var end := from + |v|;
    forall s: nat, e: nat | from <= s <= end ensures !KeySpan(x, s, e) {
      if from < s < end {
        if s < e < end {
          SpanInside(x, from, v, s, e);
        } else if end < e < |x| {
          assert !WordChar(x[end]);
        }
      }
    }
  }

  lemma {:induction false} SpanInside(x: string, from: nat, v: string, s: nat, e: nat)
    requires from + |v| <= |x| && x[from..from + |v|] == v && from < s < e < from + |v|
    ensures KeySpan(x, s, e) <==> KeySpan(v, s - from, e - from)
  {}

  function ExpectedSpans(pairs: seq<Pair>, n: nat): seq<Span>
    requires n <= |pairs|
    decreases |pairs| - n
  {
    if n == |pairs| then []
    else [SpanOf(pairs, n)] + ExpectedSpans(pairs, n + 1)
  }

  lemma {:induction false} StandsKey(x: string, o: nat, p: Pair)
    requires Printable(p) && Stands(x, o, p) && AtStart(x, o)
    ensures KeySpan(x, o, EqOf(o, p))
  {}

  /** The scan takes one printed pair: its key, and then nothing before the next. */
  lemma {:induction false} ScanPair(x: string, o: nat, p: Pair)
    requires Printable(p) && Stands(x, o, p) && AtStart(x, o)
    requires EndOf(o, p) < |x| ==> x[EndOf(o, p)] == ' '
    ensures var end := EndOf(o, p);
            SpansFrom(x, o) == [Span(o, EqOf(o, p))] + SpansFrom(x, if end < |x| then end + 1 else end)
  {
    hide WordEnd;
    var eq, end := EqOf(o, p), EndOf(o, p);
    StandsKey(x, o, p);
    WordEndIs(x, o, eq);
    ValueHidesNoKey(x, eq + 1, p.value);
    NoKeyNoSpan(x, eq + 1, if end < |x| then end + 1 else end);
  }

  lemma {:induction false} PrintedSpan(pairs: seq<Pair>, n: nat)
    requires n < |pairs| && Printable(pairs[n])
    ensures SpansFrom(Print(pairs), Offset(pairs, n))
            == [SpanOf(pairs, n)] + if n + 1 < |pairs| then SpansFrom(Print(pairs), Offset(pairs, n + 1)) else []
  {
    hide Print, Printable, StartsKey;
    PairAt(pairs, n);
    ScanPair(Print(pairs), Offset(pairs, n), pairs[n]);
  }

  lemma {:induction false} PrintedSpans(pairs: seq<Pair>, n: nat)
    requires n < |pairs| && forall i :: 0 <= i < |pairs| ==> Printable(pairs[i])
    ensures SpansFrom(Print(pairs), Offset(pairs, n)) == ExpectedSpans(pairs, n)
    decreases |pairs| - n
  {
    PrintedSpan(pairs, n);
    if n + 1 < |pairs| {
      PrintedSpans(pairs, n + 1);
    }
  }

  lemma {:induction false} ExpectedLength(pairs: seq<Pair>, n: nat)
    requires n <= |pairs|
    ensures |ExpectedSpans(pairs, n)| == |pairs| - n
    decreases |pairs| - n
  {
    if n < |pairs| {
      ExpectedLength(pairs, n + 1);
    }
  }

  function SpanOf(pairs: seq<Pair>, i: nat): Span
    requires i < |pairs|
  {
    Span(Offset(pairs, i), Offset(pairs, i) + |pairs[i].key|)
  }

  lemma {:induction false} ExpectedSpanAt(pairs: seq<Pair>, n: nat, i: nat)
    requires n <= i < |pairs|
    ensures |ExpectedSpans(pairs, n)| == |pairs| - n && ExpectedSpans(pairs, n)[i - n] == SpanOf(pairs, i)
    decreases |pairs| - n
  {
    ExpectedLength(pairs, n);
    if n < i {
      ExpectedSpanAt(pairs, n + 1, i);
      Shifted(SpanOf(pairs, n), ExpectedSpans(pairs, n + 1), i - n);
    }
  }

  lemma {:induction false} Shifted<T>(x: T, s: seq<T>, k: nat)
    requires 0 < k <= |s|
    ensures ([x] + s)[k] == s[k - 1]
  {}

  lemma {:induction false} TrimStartFinalSpace(v: string)
    ensures TrimStart(v + " ") == if TrimStart(v) == "" then "" else TrimStart(v) + " "
  {
    var w := v + " ";
    if v == "" {
      assert w[1..] == "" && IsSpace(w[0]);
    } else {
      assert w[0] == v[0] && w[1..] == v[1..] + " ";
      if IsSpace(v[0]) {
        TrimStartFinalSpace(v[1..]);
      }
    }
  }

  lemma {:induction false} TrimIgnoresFinalSpace(v: string)
    ensures Trim(v + " ") == Trim(v)
  {
    TrimStartFinalSpace(v);
    var t := TrimStart(v);
    assert (t + " ")[..|t|] == t;
  }

  /** What the scan cuts out for one printed pair. */
  lemma {:induction false} CutsOfPrinted(pairs: seq<Pair>, n: nat, end: nat)
    requires n < |pairs| && end == if n + 1 < |pairs| then Offset(pairs, n + 1) else |Print(pairs)|
    ensures var x, span := Print(pairs), SpanOf(pairs, n);
            span.eq < end <= |x| && KeyText(x, span) == pairs[n].key && ValueText(x, span, end) == Trim(pairs[n].value)
  {
    hide Print, Trim;
    PairAt(pairs, n);
    if n + 1 < |pairs| {
      StandsCut(Print(pairs), Offset(pairs, n), pairs[n], end);
    } else {
      assert EndOf(Offset(pairs, n), pairs[n]) == end;
    }
  }

  lemma {:induction false} StandsCut(x: string, o: nat, p: Pair, end: nat)
    requires Stands(x, o, p) && end == EndOf(o, p) + 1 <= |x| && x[end - 1] == ' '
    ensures ValueText(x, Span(o, EqOf(o, p)), end) == Trim(p.value)
  {
    TrimCut(x, EqOf(o, p) + 1, end, p.value);
  }

  lemma {:induction false} TrimCut(x: string, from: nat, to: nat, v: string)
    requires from < to <= |x| && x[from..to - 1] == v && x[to - 1] == ' '
    ensures Trim(x[from..to]) == Trim(v)
  {
    assert x[from..to] == v + " ";
    TrimIgnoresFinalSpace(v);
  }

  lemma {:induction false} FieldsOfPrinted(pairs: seq<Pair>, spans: seq<Span>, n: nat)
    requires n <= |pairs| == |spans| && spans == ExpectedSpans(pairs, 0) && Spans(Print(pairs), spans)
    ensures FieldsOf(Print(pairs), spans, n) == Normalised(pairs[..n])
  {
    if n > 0 {
      FieldsOfPrinted(pairs, spans, n - 1);
      PrintedCut(pairs, spans, n - 1);
      NormalisedStep(pairs, n);
    }
  }

  /** The `n`th span cuts the `n`th pair out of the text. */
  lemma {:induction false} PrintedCut(pairs: seq<Pair>, spans: seq<Span>, n: nat)
    requires n < |pairs| == |spans| && spans == ExpectedSpans(pairs, 0) && Spans(Print(pairs), spans)
    ensures KeyText(Print(pairs), spans[n]) == pairs[n].key
    ensures ValueText(Print(pairs), spans[n], ValueEnd(Print(pairs), spans, n)) == Trim(pairs[n].value)
  {
    ExpectedSpanAt(pairs, 0, n);
    if n + 1 < |pairs| {
      ExpectedSpanAt(pairs, 0, n + 1);
    }
    CutsOfPrinted(pairs, n, ValueEnd(Print(pairs), spans, n));
  }

  lemma {:induction false} NormalisedStep(pairs: seq<Pair>, n: nat)
    requires 0 < n <= |pairs|
    ensures Normalised(pairs[..n]) == Put(Normalised(pairs[..n - 1]), pairs[n - 1].key, Trim(pairs[n - 1].value))
  {
    assert pairs[..n][..n - 1] == pairs[..n - 1];
  }

  /** Printing pairs and scanning them gives back what they mean: for any values, with spaces and
      equals signs, as long as none hides a key of its own. */
  lemma {:induction false} ExtensionRoundTrip(pairs: seq<Pair>)
    requires forall i :: 0 <= i < |pairs| ==> Printable(pairs[i])
    ensures Fields(Print(pairs)) == Normalised(pairs)
  {
    if pairs != [] {
      PrintedSpans(pairs, 0);
      ExpectedLength(pairs, 0);
      ScanIsIncreasing(Print(pairs), 0);
      FieldsOfPrinted(pairs, ExpectedSpans(pairs, 0), |pairs|);
      assert pairs[..|pairs|] == pairs;
    }
  }

  function NamesOf(pairs: seq<Pair>): set<string> {
    if pairs == [] then {} else NamesOf(pairs[..|pairs| - 1]) + {Normal(pairs[|pairs| - 1].key)}
  }

  /** The normalised names differ, and the values are trimmed and worth keeping. */
  predicate Proper(pairs: seq<Pair>) {
    pairs == []
    || (var last := pairs[|pairs| - 1];
        Proper(pairs[..|pairs| - 1]) && Trimmed(last.value) && IsValue(last.value)
        && Normal(last.key) !in NamesOf(pairs[..|pairs| - 1]))
  }

  lemma {:induction false} PutValue(m: map<string, string>, key: string, value: string)
    requires Trimmed(value) && IsValue(value)
    ensures Put(m, key, Trim(value)) == m[Normal(key) := value]
  {}

  lemma {:induction false} ProperNames(pairs: seq<Pair>)
    requires Proper(pairs)
    ensures Normalised(pairs).Keys == NamesOf(pairs) && |Normalised(pairs)| == |pairs|
  {
    if pairs != [] {
      var front, last := pairs[..|pairs| - 1], pairs[|pairs| - 1];
      ProperNames(front);
      PutValue(Normalised(front), last.key, last.value);
      assert (Normalised(front)[Normal(last.key) := last.value]).Keys == NamesOf(front) + {Normal(last.key)};
    }
  }

  lemma {:induction false} NameAmong(pairs: seq<Pair>, i: nat)
    requires i < |pairs|
    ensures Normal(pairs[i].key) in NamesOf(pairs)
  {
    if i < |pairs| - 1 {
      NameAmong(pairs[..|pairs| - 1], i);
    }
  }

  /** With distinct names and proper values, that is one entry per pair, value unchanged. */
  lemma {:induction false} ProperPairsComeBack(pairs: seq<Pair>, i: nat)
    requires Proper(pairs) && i < |pairs|
    ensures Normalised(pairs).Keys == NamesOf(pairs) && |Normalised(pairs)| == |pairs|
    ensures Normal(pairs[i].key) in NamesOf(pairs) && Normalised(pairs)[Normal(pairs[i].key)] == pairs[i].value
  {
    var front, last := pairs[..|pairs| - 1], pairs[|pairs| - 1];
    ProperNames(pairs);
    NameAmong(pairs, i);
    PutValue(Normalised(front), last.key, last.value);
    if i < |pairs| - 1 {
      NameAmong(front, i);
      ProperPairsComeBack(front, i);
    }
  }

  // ---- what a name becomes

  /** A name and what it is stored under: the vendor's prefix off, the first letter small. */
  predicate Becomes(key: string, name: string) {
    var rest := if |key| >= 5 && key[..5] == "UNIFI" then key[5..] else key;
    if rest == "" then name == ""
    else
      && |name| == |rest| && name[1..] == rest[1..]
      && name[0] == if 'A' <= rest[0] <= 'Z' then (rest[0] as int + 32) as char else rest[0]
  }

  lemma {:induction false} NormalBecomes(key: string, name: string)
    ensures Becomes(key, name) <==> Normal(key) == name
  {
    if name != "" {
      assert name == [name[0]] + name[1..];
    }
  }

  /** Pair `i` sets this name: its key becomes it, and its value is worth keeping. */
  predicate Sets(pairs: seq<Pair>, i: nat, name: string)
    requires i < |pairs|
  {
    Becomes(pairs[i].key, name) && Trim(pairs[i].value) != "" && Trim(pairs[i].value) != "null"
  }

  /** The last pair that sets a name gives its value. */
  predicate SetsLast(pairs: seq<Pair>, i: nat, name: string)
    requires i < |pairs|
  {
    Sets(pairs, i, name) && forall j :: i < j < |pairs| ==> !Sets(pairs, j, name)
  }

  lemma {:induction false} PutSets(m: map<string, string>, p: Pair, name: string)
    ensures var after := Put(m, p.key, Trim(p.value));
            if Becomes(p.key, name) && Trim(p.value) != "" && Trim(p.value) != "null"
            then name in after && after[name] == Trim(p.value)
            else (name in after <==> name in m) && (name in m ==> after[name] == m[name])
  {
    NormalBecomes(p.key, name);
    hide Becomes, Trim, Normal;
  }

  lemma {:induction false} SetsInFront(pairs: seq<Pair>, n: nat, i: nat, name: string)
    requires i < n && |pairs| == n + 1
    ensures SetsLast(pairs, i, name) <==> SetsLast(pairs[..n], i, name) && !Sets(pairs, n, name)
  {
    var front := pairs[..n];
    forall j | 0 <= j < n ensures Sets(front, j, name) == Sets(pairs, j, name) {
      assert front[j] == pairs[j];
    }
    hide Sets;
  }

  lemma {:induction false} NormalisedSnoc(front: seq<Pair>, last: Pair)
    ensures Normalised(front + [last]) == Put(Normalised(front), last.key, Trim(last.value))
  {
    assert (front + [last])[..|front|] == front;
  }

  lemma {:induction false} NormalisedSets(pairs: seq<Pair>, name: string)
    ensures name in Normalised(pairs) <==> exists i :: 0 <= i < |pairs| && SetsLast(pairs, i, name)
    ensures forall i :: 0 <= i < |pairs| && SetsLast(pairs, i, name) ==>
              name in Normalised(pairs) && Normalised(pairs)[name] == Trim(pairs[i].value)
  {
    if pairs != [] {
      var n := |pairs| - 1;
      NormalisedSets(pairs[..n], name);
      SetsStep(pairs, n, name);
    }
  }

  lemma {:induction false} LastSets(pairs: seq<Pair>, n: nat, name: string)
    requires |pairs| == n + 1
    ensures SetsLast(pairs, n, name) <==> Sets(pairs, n, name)
    ensures Sets(pairs, n, name) <==>
              Becomes(pairs[n].key, name) && Trim(pairs[n].value) != "" && Trim(pairs[n].value) != "null"
  {}

  lemma {:induction false} SetsStep(pairs: seq<Pair>, n: nat, name: string)
    requires |pairs| == n + 1
    requires name in Normalised(pairs[..n]) <==> exists i :: 0 <= i < n && SetsLast(pairs[..n], i, name)
    requires forall i :: 0 <= i < n && SetsLast(pairs[..n], i, name) ==>
               name in Normalised(pairs[..n]) && Normalised(pairs[..n])[name] == Trim(pairs[i].value)
    ensures name in Normalised(pairs) <==> exists i :: 0 <= i <= n && SetsLast(pairs, i, name)
    ensures forall i :: 0 <= i <= n && SetsLast(pairs, i, name) ==>
              name in Normalised(pairs) && Normalised(pairs)[name] == Trim(pairs[i].value)
  {
    hide *;
    var front, last := pairs[..n], pairs[n];
    assert pairs == front + [last];
    NormalisedSnoc(front, last);
    PutSets(Normalised(front), last, name);
    LastSets(pairs, n, name);
    forall i | 0 <= i < n ensures SetsLast(pairs, i, name) <==> SetsLast(front, i, name) && !Sets(pairs, n, name) {
      SetsInFront(pairs, n, i, name);
    }
  }

  /** Printing pairs and scanning them, for any keys and any values that hide no key: a name is in the map
      exactly if some pair sets it, and then with the trimmed value of the last one. */
  lemma {:induction false} PrintedIsFound(pairs: seq<Pair>, name: string)
    requires forall i :: 0 <= i < |pairs| ==> Printable(pairs[i])
    ensures name in Fields(Print(pairs)) <==> exists i :: 0 <= i < |pairs| && SetsLast(pairs, i, name)
    ensures forall i :: 0 <= i < |pairs| && SetsLast(pairs, i, name) ==>
              name in Fields(Print(pairs)) && Fields(Print(pairs))[name] == Trim(pairs[i].value)
  {
    ExtensionRoundTrip(pairs);
    NormalisedSets(pairs, name);
    hide SetsLast, Fields, Normalised, Print, Printable;
  }

  /** The two kinds of key: with the prefix and something behind it, and without. */
  lemma {:induction false} KeyBecomes(rest: string)
    requires rest != ""
    ensures var small := [if 'A' <= rest[0] <= 'Z' then (rest[0] as int + 32) as char else rest[0]] + rest[1..];
            && Becomes("UNIFI" + rest, small)
            && (!("UNIFI" <= rest) ==> Becomes(rest, small))
  {
    var key := "UNIFI" + rest;
    assert key[..5] == "UNIFI" && key[5..] == rest;
  }

  lemma {:induction false} HiddenAt(x: string, from: nat, v: string, s: nat, e: nat)
    requires from + |v| <= |x| && x[from..from + |v|] == v && s > 0 && KeySpan(v, s, e)
    ensures Span(from + s, from + e) in SpansFrom(x, 0)
  {
    SpanInside(x, from, v, from + s, from + e);
    ScanIsComplete(x, 0);
  }

  lemma {:induction false} OffsetsRise(pairs: seq<Pair>, i: nat, n: nat)
    requires i <= n <= |pairs|
    ensures Offset(pairs, i) <= Offset(pairs, n)
  {
    if i < n {
      OffsetsRise(pairs, i, n - 1);
    }
  }

  /** Where the value of pair `n` begins in the printed text. */
  function ValuePlace(pairs: seq<Pair>, n: nat): nat
    requires n < |pairs|
  {
    Offset(pairs, n) + |pairs[n].key| + 1
  }

  lemma {:induction false} PrintedValue(pairs: seq<Pair>, n: nat)
    requires n < |pairs|
    ensures var from, v := ValuePlace(pairs, n), pairs[n].value;
            from + |v| <= |Print(pairs)| && Print(pairs)[from..from + |v|] == v
  {
    PairText(pairs, n);
  }

  /** No printed key begins inside a printed value. */
  lemma {:induction false} NoKeyThere(pairs: seq<Pair>, n: nat, s: nat, i: nat)
    requires n < |pairs| && s < |pairs[n].value| && i < |pairs|
    ensures Offset(pairs, i) != ValuePlace(pairs, n) + s
  {
    if i <= n {
      OffsetsRise(pairs, i, n);
    } else {
      OffsetsRise(pairs, n + 1, i);
    }
  }

  lemma {:induction false} NotExpected(pairs: seq<Pair>, n: nat, s: nat, e: nat)
    requires n < |pairs| && s < |pairs[n].value|
    ensures Span(ValuePlace(pairs, n) + s, e) !in ExpectedSpans(pairs, 0)
  {
    ExpectedLength(pairs, 0);
    var spans, here := ExpectedSpans(pairs, 0), ValuePlace(pairs, n) + s;
    forall i | 0 <= i < |spans| ensures spans[i].start != here {
      ExpectedSpanAt(pairs, 0, i);
      NoKeyThere(pairs, n, s, i);
    }
  }

  lemma {:induction false} HiddenKeySpoils(pairs: seq<Pair>, n: nat, s: nat, e: nat)
    requires n < |pairs| && 0 < s && KeySpan(pairs[n].value, s, e)
    ensures SpansFrom(Print(pairs), 0) != ExpectedSpans(pairs, 0)
  {
    PrintedValue(pairs, n);
    HiddenAt(Print(pairs), ValuePlace(pairs, n), pairs[n].value, s, e);
    NotExpected(pairs, n, s, ValuePlace(pairs, n) + e);
  }

  /** The guard on values is exact: the scan takes the printed keys and no others, if and only if no
      value holds a key-shaped word of its own. */
  lemma {:induction false} PrintedKeysAreTheOnlyOnes(pairs: seq<Pair>)
    requires forall i :: 0 <= i < |pairs| ==> KeyShaped(pairs[i].key)
    ensures SpansFrom(Print(pairs), 0) == ExpectedSpans(pairs, 0)
            <==> forall i :: 0 <= i < |pairs| ==> Clean(pairs[i].value)
  {
    if i :| 0 <= i < |pairs| && !Clean(pairs[i].value) {
      var s: nat, e: nat :| 0 < s && KeySpan(pairs[i].value, s, e);
      HiddenKeySpoils(pairs, i, s, e);
    } else if pairs != [] {
      PrintedSpans(pairs, 0);
    }
  }

  // ---- the header

  datatype Header = Header(signature: string, name: string, severity: string, extension: string)

  /** `splitn`: at most `n` parts, the last one taking the rest. */
  function SplitN(s: string, c: char, n: nat): seq<string>
    requires n > 0
    decreases n
  {
    if n == 1 then [s]
    else
      match IndexOf(s, c)
      case None => [s]
      case Some(k) => [s[..k]] + SplitN(s[k + 1..], c, n - 1)
  }

  /** Seven fields, divided by bars, and the extension behind an eighth if there is one. */
  function SplitHeader(body: string): Option<Header> {
    HeaderOf(SplitN(body, '|', 8))
  }

  function HeaderOf(parts: seq<string>): Option<Header> {
    if |parts| < 7 then None
    else Some(Header(parts[4], parts[5], parts[6], if |parts| == 8 then parts[7] else ""))
  }

  function Glue(fields: seq<string>, rest: string): string {
    if fields == [] then rest else fields[0] + ['|'] + Glue(fields[1..], rest)
  }

  lemma {:induction false} SplitNext(first: string, c: char, tail: string, n: nat)
    requires c !in first && n > 1
    ensures SplitN(first + [c] + tail, c, n) == [first] + SplitN(tail, c, n - 1)
  {
    IndexOfAt(first, c, tail);
    var s := first + [c] + tail;
    assert s[..|first|] == first && s[|first| + 1..] == tail;
  }

  lemma {:induction false} SplitGlued(fields: seq<string>, rest: string)
    requires forall i :: 0 <= i < |fields| ==> '|' !in fields[i]
    ensures SplitN(Glue(fields, rest), '|', |fields| + 1) == fields + [rest]
  {
    if fields == [] {
      assert fields + [rest] == [rest];
    } else {
      SplitGlued(fields[1..], rest);
      SplitOne(fields, rest);
      Prepend(fields, rest);
    }
  }

  lemma {:induction false} SplitOne(fields: seq<string>, rest: string)
    requires fields != [] && '|' !in fields[0]
    ensures SplitN(Glue(fields, rest), '|', |fields| + 1)
            == [fields[0]] + SplitN(Glue(fields[1..], rest), '|', |fields|)
  {
    hide SplitN;
    SplitNext(fields[0], '|', Glue(fields[1..], rest), |fields| + 1);
  }

  lemma {:induction false} Prepend<T>(s: seq<T>, x: T)
    requires s != []
    ensures [s[0]] + (s[1..] + [x]) == s + [x]
  {}

  /** The header fields come back, and the extension with them, bars and all. */
  lemma {:induction false} HeaderRoundTrip(fields: seq<string>, extension: string)
    requires |fields| == 7 && forall i :: 0 <= i < 7 ==> '|' !in fields[i]
    ensures SplitHeader(Glue(fields, extension)) == Some(Header(fields[4], fields[5], fields[6], extension))
  {
    SplitGlued(fields, extension);
    GluedHeader(fields, extension);
  }

  lemma {:induction false} GluedHeader(fields: seq<string>, extension: string)
    requires |fields| == 7
    ensures HeaderOf(fields + [extension]) == Some(Header(fields[4], fields[5], fields[6], extension))
  {}
}
