/** The search text as the user interface handles it: split into chips, one chip removed,
    panel drafts and filter fields printed back into one text. */
module Terms {
  import opened Basics
  import opened Text
  import Search

  // ---- splitTerms

  /** Like the backend's scan, but the quotes stay part of the term. */
  function ScanTerms(q: string, current: string, inQuotes: bool): seq<string> {
    if q == "" then Search.Pending(current)
    else if q[0] == '"' then ScanTerms(q[1..], current + ['"'], !inQuotes)
    else if IsSpace(q[0]) && !inQuotes then Search.Pending(current) + ScanTerms(q[1..], "", false)
    else ScanTerms(q[1..], current + [q[0]], inQuotes)
  }

  function Terms(query: string): seq<string> {
    ScanTerms(query, "", false)
  }

  method SplitTerms(query: string) returns (out: seq<string>)
    ensures out == Terms(query)
  {
    out := [];
    var current, inQuotes := "", false;
    for i := 0 to |query|
      invariant out + ScanTerms(query[i..], current, inQuotes) == Terms(query)
    {
      var c := query[i];
      assert query[i..][0] == c && query[i..][1..] == query[i + 1..];
      ghost var before := out;
      if c == '"' {
        inQuotes := !inQuotes;
        current := current + [c];
      } else if IsSpace(c) && !inQuotes {
        if current != "" {
          out := out + [current];
        }
        assert out + ScanTerms(query[i + 1..], "", false)
            == before + (Search.Pending(current) + ScanTerms(query[i + 1..], "", false));
        current := "";
      } else {
        current := current + [c];
      }
    }
    assert query[|query|..] == "";
    if current != "" {
      out := out + [current];
    }
  }

  function RemoveTerm(query: string, term: string): string {
    Join(Filter(Terms(query), t => t != term), ' ')
  }

  // ---- quotes

  /** Whether the scan stands inside quotes after reading `s`, having started as `inQuotes`. */
  predicate QuotedAfter(s: string, inQuotes: bool) {
    if s == "" then inQuotes
    else QuotedAfter(s[1..], if s[0] == '"' then !inQuotes else inQuotes)
  }

  predicate Balanced(s: string) {
    !QuotedAfter(s, false)
  }

  /** No white space outside quotes: `s` is one term, not several. */
  predicate Solid(s: string, inQuotes: bool) {
    if s == "" then true
    else if s[0] == '"' then Solid(s[1..], !inQuotes)
    else (inQuotes || !IsSpace(s[0])) && Solid(s[1..], inQuotes)
  }

  function Unquote(s: string): string {
    if s == "" then "" else (if s[0] == '"' then "" else [s[0]]) + Unquote(s[1..])
  }

  lemma {:induction false} UnquoteAppend(a: string, b: string)
    ensures Unquote(a + b) == Unquote(a) + Unquote(b)
  {
    if a == "" {
      assert a + b == b;
    } else {
      UnquoteAppend(a[1..], b);
      assert (a + b)[0] == a[0] && (a + b)[1..] == a[1..] + b;
      var head := if a[0] == '"' then "" else [a[0]];
      assert head + (Unquote(a[1..]) + Unquote(b)) == (head + Unquote(a[1..])) + Unquote(b);
    }
  }

  lemma {:induction false} UnquotePlain(s: string)
    requires '"' !in s
    ensures Unquote(s) == s && (forall b :: QuotedAfter(s, b) == b)
  {
    if s != "" {
      UnquotePlain(s[1..]);
    }
  }

  lemma {:induction false} QuotedAppend(a: string, b: string, inQuotes: bool)
    ensures QuotedAfter(a + b, inQuotes) == QuotedAfter(b, QuotedAfter(a, inQuotes))
  {
    if a == "" {
      assert a + b == b;
    } else {
      QuotedAppend(a[1..], b, if a[0] == '"' then !inQuotes else inQuotes);
      assert (a + b)[1..] == a[1..] + b;
    }
  }

  lemma {:induction false} SolidAppend(a: string, b: string, inQuotes: bool)
    ensures Solid(a + b, inQuotes) <==> Solid(a, inQuotes) && Solid(b, QuotedAfter(a, inQuotes))
  {
    if a == "" {
      assert a + b == b;
    } else {
      SolidAppend(a[1..], b, if a[0] == '"' then !inQuotes else inQuotes);
      assert (a + b)[1..] == a[1..] + b;
    }
  }

  // ---- the two splitters agree

  function Unquoted(terms: seq<string>): seq<string> {
    if terms == [] then [] else Search.Pending(Unquote(terms[0])) + Unquoted(terms[1..])
  }

  lemma {:induction false} UnquotedAppend(a: seq<string>, b: seq<string>)
    requires |a| <= 1
    ensures Unquoted(a + b) == Unquoted(a) + Unquoted(b)
  {
    if a == [] {
      assert a + b == b;
    } else {
      assert (a + b)[1..] == b && a[1..] == [];
      assert Unquoted(a) == Search.Pending(Unquote(a[0]));
    }
  }

  lemma {:induction false} ScansAgree(q: string, current: string, inQuotes: bool)
    ensures Search.ScanTokens(q, Unquote(current), inQuotes) == Unquoted(ScanTerms(q, current, inQuotes))
    decreases |q|
  {
    if q == "" {
      UnquotedAppend(Search.Pending(current), []);
      assert Search.Pending(current) + [] == Search.Pending(current);
    } else if q[0] == '"' {
      UnquoteAppend(current, "\"");
      assert Unquote("\"") == Unquote("") && Unquote(current) + "" == Unquote(current);
      ScansAgree(q[1..], current + ['"'], !inQuotes);
    } else if IsSpace(q[0]) && !inQuotes {
      ScansAgree(q[1..], "", false);
      UnquotedAppend(Search.Pending(current), ScanTerms(q[1..], "", false));
    } else {
      UnquoteAppend(current, [q[0]]);
      assert [q[0]][1..] == "" && Unquote([q[0]]) == [q[0]];
      ScansAgree(q[1..], current + [q[0]], inQuotes);
    }
  }

  /** The backend's tokens are the interface's terms, quotes removed and empties dropped. */
  lemma {:induction false} SplittersAgree(query: string)
    ensures Search.Tokens(query) == Unquoted(Terms(query))
  {
    ScansAgree(query, "", false);
  }

  // ---- removing a term

  /** What `splitTerms` returns: solid terms, all of them closed but perhaps the last. */
  predicate TermList(ts: seq<string>) {
    ts == [] || (ts[0] != "" && Solid(ts[0], false) && (|ts| > 1 ==> Balanced(ts[0])) && TermList(ts[1..]))
  }

  lemma {:induction false} ScanGivesTermList(q: string, current: string, inQuotes: bool)
    requires Solid(current, false) && QuotedAfter(current, false) == inQuotes
    ensures TermList(ScanTerms(q, current, inQuotes))
    decreases |q|
  {
    if q != "" {
      var grown := current + [q[0]];
      QuotedAppend(current, [q[0]], false);
      SolidAppend(current, [q[0]], false);
      if q[0] == '"' {
        ScanGivesTermList(q[1..], grown, !inQuotes);
      } else if IsSpace(q[0]) && !inQuotes {
        ScanGivesTermList(q[1..], "", false);
        var rest := ScanTerms(q[1..], "", false);
        if current != "" {
          assert ([current] + rest)[1..] == rest;
        } else {
          assert Search.Pending(current) + rest == rest;
        }
      } else {
        ScanGivesTermList(q[1..], grown, inQuotes);
      }
    }
  }

  lemma {:induction false} FilterKeepsTermList(ts: seq<string>, p: string -> bool)
    requires TermList(ts)
    ensures TermList(Filter(ts, p))
  {
    if ts != [] {
      FilterKeepsTermList(ts[1..], p);
      var rest := Filter(ts[1..], p);
      assert |ts| == 1 ==> rest == [];
      if p(ts[0]) {
        assert ([ts[0]] + rest)[1..] == rest;
      } else {
        assert [] + rest == rest;
      }
    }
  }

  /** A closed stretch, a space, and the rest: the scan of the whole is both scans. */
  lemma {:induction false} ScanTermsAcrossSpace(a: string, b: string, current: string, inQuotes: bool)
    requires !QuotedAfter(a, inQuotes)
    ensures ScanTerms(a + " " + b, current, inQuotes) == ScanTerms(a, current, inQuotes) + ScanTerms(b, "", false)
    decreases |a|
  {
    var whole := a + " " + b;
    if a == "" {
      assert whole[0] == ' ' && whole[1..] == b;
    } else {
      assert whole[0] == a[0] && whole[1..] == a[1..] + " " + b;
      if a[0] == '"' {
        ScanTermsAcrossSpace(a[1..], b, current + ['"'], !inQuotes);
      } else if IsSpace(a[0]) && !inQuotes {
        ScanTermsAcrossSpace(a[1..], b, "", false);
        assert Search.Pending(current) + (ScanTerms(a[1..], "", false) + ScanTerms(b, "", false))
            == (Search.Pending(current) + ScanTerms(a[1..], "", false)) + ScanTerms(b, "", false);
      } else {
        ScanTermsAcrossSpace(a[1..], b, current + [a[0]], inQuotes);
      }
    }
  }

  lemma {:induction false} SolidIsOneTerm(s: string, current: string, inQuotes: bool)
    requires Solid(s, inQuotes)
    ensures ScanTerms(s, current, inQuotes) == Search.Pending(current + s)
    decreases |s|
  {
    if s == "" {
      assert current + s == current;
    } else {
      SolidIsOneTerm(s[1..], current + [s[0]], if s[0] == '"' then !inQuotes else inQuotes);
      assert (current + [s[0]]) + s[1..] == current + s;
    }
  }

  lemma {:induction false} JoinedTermsSplitBack(ts: seq<string>)
    requires TermList(ts)
    ensures Terms(Join(ts, ' ')) == ts
  {
    if ts != [] {
      SolidIsOneTerm(ts[0], "", false);
      assert "" + ts[0] == ts[0];
      if |ts| > 1 {
        JoinedTermsSplitBack(ts[1..]);
        ScanTermsAcrossSpace(ts[0], Join(ts[1..], ' '), "", false);
        assert [ts[0]] + ts[1..] == ts;
      }
    }
  }

  /** Removing a chip leaves exactly the other chips, in order, open final quotes included. */
  lemma {:induction false} RemoveTermRemovesJustThat(query: string, term: string)
    ensures Terms(RemoveTerm(query, term)) == Filter(Terms(query), t => t != term)
  {
    ScanGivesTermList(query, "", false);
    FilterKeepsTermList(Terms(query), t => t != term);
    JoinedTermsSplitBack(Filter(Terms(query), t => t != term));
  }

  /** And the backend then searches for just the other terms. */
  lemma {:induction false} RemoveTermForBackend(query: string, term: string)
    ensures Search.Tokens(RemoveTerm(query, term)) == Unquoted(Filter(Terms(query), t => t != term))
  {
    RemoveTermRemovesJustThat(query, term);
    SplittersAgree(RemoveTerm(query, term));
  }
}

/** The filter panel and the filter fields as printers of the search language. */
module Printers {
  import opened Basics
  import opened Text
  import opened Numbers
  import opened Search
  import opened Terms

  datatype Draft = Draft(prefix: string, value: string, negated: bool)

  /** The panel's fields; the empty prefix is the free-text field. */
  predicate PanelPrefix(p: string) {
    || p == "src" || p == "dst" || p == "ip" || p == "sport" || p == "dport" || p == "rule"
    || p == "iface" || p == "proto" || p == "country" || p == "asn" || p == ""
  }

  predicate HasSpace(v: string) {
    exists i :: 0 <= i < |v| && IsSpace(v[i])
  }

  function QuoteIfNeeded(v: string): string {
    if HasSpace(v) then "\"" + v + "\"" else v
  }

  /** `toTerm`: a draft as a term, nothing for a blank one. */
  function ToTerm(d: Draft): Option<string> {
    var v := Trim(d.value);
    if v == "" then None
    else
      var body := if d.prefix != "" then d.prefix + ":" + QuoteIfNeeded(v) else QuoteIfNeeded(v);
      Some(if d.negated then "!" + body else body)
  }

  function TermOf(d: Draft): seq<string> {
    match ToTerm(d)
    case Some(t) => [t]
    case None => []
  }

  function NonBlank(s: string): seq<string> {
    if s == "" then [] else [s]
  }

  /** The panel's `apply`: the query as it was, then the drafts. */
  function Apply(existing: string, drafts: seq<Draft>): string {
    Join(NonBlank(Trim(existing)) + FlatMap(drafts, TermOf), ' ')
  }

  /** The term a draft stands for. */
  function Meant(d: Draft, syntax: AddressSyntax): Term {
    var v := Trim(d.value);
    var field := FieldFromPrefix(d.prefix);
    Term(TypedFor(v, field, syntax), field, d.negated, '*' in v)
  }

  /** A draft whose printed term reads as written: free text must not look negated or scoped. */
  predicate ReadsAsWritten(d: Draft) {
    var v := Trim(d.value);
    d.prefix == "" && v != "" ==> (d.negated || !IsNegation(v[0])) && Scope(v).None?
  }

  function MeantBy(syntax: AddressSyntax): Draft -> seq<Term> {
    (d: Draft) => if Trim(d.value) == "" then [] else [Meant(d, syntax)]
  }

  // ---- scanning printed text

  lemma {:induction false} ScanTokensAcrossSpace(a: string, b: string, current: string, inQuotes: bool)
    requires !QuotedAfter(a, inQuotes)
    ensures ScanTokens(a + " " + b, current, inQuotes) == ScanTokens(a, current, inQuotes) + ScanTokens(b, "", false)
    decreases |a|
  {
    var whole := a + " " + b;
    if a == "" {
      assert whole[0] == ' ' && whole[1..] == b;
    } else {
      assert whole[0] == a[0] && whole[1..] == a[1..] + " " + b;
      if a[0] == '"' {
        ScanTokensAcrossSpace(a[1..], b, current, !inQuotes);
      } else if IsSpace(a[0]) && !inQuotes {
        ScanTokensAcrossSpace(a[1..], b, "", false);
        assert Pending(current) + (ScanTokens(a[1..], "", false) + ScanTokens(b, "", false))
            == (Pending(current) + ScanTokens(a[1..], "", false)) + ScanTokens(b, "", false);
      } else {
        ScanTokensAcrossSpace(a[1..], b, current + [a[0]], inQuotes);
      }
    }
  }

  /** Joined texts, all closed but perhaps the last, give the tokens of each in turn. */
  lemma {:induction false} TokensOfJoin(parts: seq<string>)
    requires forall i :: 0 <= i < |parts| - 1 ==> Balanced(parts[i])
    ensures Tokens(Join(parts, ' ')) == FlatMap(parts, Tokens)
  {
    if |parts| == 1 {
      assert FlatMap(parts[1..], Tokens) == [];
      assert FlatMap(parts, Tokens) == Tokens(parts[0]) + [];
    } else if |parts| > 1 {
      TokensOfJoin(parts[1..]);
      ScanTokensAcrossSpace(parts[0], Join(parts[1..], ' '), "", false);
    }
  }

  lemma {:induction false} LeadingSpace(ws: string, b: string)
    requires forall i :: 0 <= i < |ws| ==> IsSpace(ws[i])
    ensures ScanTokens(ws + b, "", false) == ScanTokens(b, "", false)
  {
    if ws == "" {
      assert ws + b == b;
    } else {
      assert (ws + b)[1..] == ws[1..] + b && IsSpace((ws + b)[0]);
      LeadingSpace(ws[1..], b);
    }
  }

  lemma {:induction false} TrailingSpace(a: string, ws: string, current: string, inQuotes: bool)
    requires forall i :: 0 <= i < |ws| ==> IsSpace(ws[i])
    requires !QuotedAfter(a, inQuotes)
    ensures ScanTokens(a + ws, current, inQuotes) == ScanTokens(a, current, inQuotes)
    decreases |a|, |ws|
  {
    var whole := a + ws;
    if a == "" {
      assert whole == ws;
      if ws != "" {
        LeadingSpace(ws[1..], "");
        assert ws[1..] + "" == ws[1..];
        assert Pending(current) + ScanTokens("", "", false) == Pending(current);
      }
    } else {
      assert whole[0] == a[0] && whole[1..] == a[1..] + ws;
      if a[0] == '"' {
        TrailingSpace(a[1..], ws, current, !inQuotes);
      } else if IsSpace(a[0]) && !inQuotes {
        TrailingSpace(a[1..], ws, "", false);
      } else {
        TrailingSpace(a[1..], ws, current + [a[0]], inQuotes);
      }
    }
  }

  lemma {:induction false} SpacesKeepQuotes(ws: string, inQuotes: bool)
    requires forall i :: 0 <= i < |ws| ==> IsSpace(ws[i])
    ensures QuotedAfter(ws, inQuotes) == inQuotes
  {
    if ws != "" {
      SpacesKeepQuotes(ws[1..], inQuotes);
    }
  }

  /** Trimming a closed query changes neither its tokens nor that it is closed. */
  lemma {:induction false} TrimKeepsTokens(q: string)
    requires Balanced(q)
    ensures Balanced(Trim(q)) && Tokens(Trim(q)) == Tokens(q)
  {
    var a, b := TrimSlices(q);
    assert q == q[..a] + (q[a..b] + q[b..]);
    LeadingSpace(q[..a], q[a..b] + q[b..]);
    QuotedAppend(q[..a], q[a..b] + q[b..], false);
    QuotedAppend(q[a..b], q[b..], false);
    SpacesKeepQuotes(q[..a], false);
    SpacesKeepQuotes(q[b..], QuotedAfter(q[a..b], false));
    TrailingSpace(q[a..b], q[b..], "", false);
  }

  lemma {:induction false} SolidIsOneToken(s: string, current: string, inQuotes: bool)
    requires Solid(s, inQuotes)
    ensures ScanTokens(s, current, inQuotes) == Pending(current + Unquote(s))
    decreases |s|
  {
    if s == "" {
      assert current + Unquote(s) == current;
    } else if s[0] == '"' {
      SolidIsOneToken(s[1..], current, !inQuotes);
      assert Unquote(s) == Unquote(s[1..]);
    } else {
      SolidIsOneToken(s[1..], current + [s[0]], inQuotes);
      assert (current + [s[0]]) + Unquote(s[1..]) == current + Unquote(s);
    }
  }

  lemma {:induction false} PlainIsSolid(s: string, inQuotes: bool)
    requires '"' !in s && (inQuotes || !HasSpace(s))
    ensures Solid(s, inQuotes)
  {
    if s != "" {
      assert s[0] in s;
      if !inQuotes {
        assert !IsSpace(s[0]);
        forall i | 0 <= i < |s[1..]| ensures !IsSpace(s[1..][i]) {
          assert s[1..][i] == s[i + 1];
        }
      }
      PlainIsSolid(s[1..], inQuotes);
    }
  }

  lemma {:induction false} BetweenQuotes(v: string)
    requires '"' !in v
    ensures var s := "\"" + v + "\"";
            Solid(s, false) && Balanced(s) && Unquote(s) == v
  {
    var open := "\"" + v;
    SolidAppend("\"", v, false);
    QuotedAppend("\"", v, false);
    UnquoteAppend("\"", v);
    SolidAppend(open, "\"", false);
    QuotedAppend(open, "\"", false);
    UnquoteAppend(open, "\"");
    PlainIsSolid(v, true);
    UnquotePlain(v);
    OneQuote();
  }

  lemma {:induction false} OneQuote()
    ensures Solid("\"", false) && Solid("\"", true) && Unquote("\"") == ""
    ensures QuotedAfter("\"", false) && !QuotedAfter("\"", true)
  {}

  lemma {:induction false} QuoteIfNeededReads(v: string)
    requires '"' !in v
    ensures var s := QuoteIfNeeded(v);
            Solid(s, false) && Balanced(s) && Unquote(s) == v
  {
    if HasSpace(v) {
      BetweenQuotes(v);
    } else {
      PlainIsSolid(v, false);
      UnquotePlain(v);
    }
  }

  /** A printed value, quoted or not, is one closed term that reads back as the value. */
  lemma {:induction false} QuotedValue(head: string, v: string)
    requires '"' !in v && '"' !in head && !HasSpace(head)
    ensures var s := head + QuoteIfNeeded(v);
            Solid(s, false) && Balanced(s) && Unquote(s) == head + v
  {
    QuoteIfNeededReads(v);
    UnquotePlain(head);
    PlainIsSolid(head, false);
    SolidAppend(head, QuoteIfNeeded(v), false);
    QuotedAppend(head, QuoteIfNeeded(v), false);
    UnquoteAppend(head, QuoteIfNeeded(v));
  }

  predicate SmallLetters(p: string) {
    forall i :: 0 <= i < |p| ==> 'a' <= p[i] <= 'z'
  }

  lemma {:induction false} SmallLettersArePlain(p: string)
    requires SmallLetters(p)
    ensures Lower(Trim(p)) == p
    ensures ':' !in p && '"' !in p && !HasSpace(p) && (p != "" ==> !IsNegation(p[0]))
  {}

  lemma {:induction false} PanelPrefixesAreFields(p: string)
    requires PanelPrefix(p)
    ensures SmallLetters(p) && (p != "" <==> FieldFromPrefix(p).Some?)
  {}

  /** The token of a printed draft. */
  function TokenOf(d: Draft): string {
    var body := if d.prefix != "" then d.prefix + ":" + Trim(d.value) else Trim(d.value);
    if d.negated then "!" + body else body
  }

  function HeadOf(d: Draft): string {
    (if d.negated then "!" else "") + (if d.prefix != "" then d.prefix + ":" else "")
  }

  lemma {:induction false} HeadIsPlain(d: Draft)
    requires SmallLetters(d.prefix)
    ensures '"' !in HeadOf(d) && !HasSpace(HeadOf(d))
  {}

  lemma {:induction false} PrintedDraft(d: Draft)
    requires PanelPrefix(d.prefix) && '"' !in d.value && Trim(d.value) != ""
    ensures Balanced(ToTerm(d).value) && Tokens(ToTerm(d).value) == [TokenOf(d)]
  {
    var v := Trim(d.value);
    var a, b := TrimSlices(d.value);
    PanelPrefixesAreFields(d.prefix);
    HeadIsPlain(d);
    HeadAndValue(d);
    assert '"' !in v;
    QuotedValue(HeadOf(d), v);
    SolidIsOneToken(HeadOf(d) + QuoteIfNeeded(v), "", false);
    assert "" + TokenOf(d) == TokenOf(d);
  }

  lemma {:induction false} HeadAndValue(d: Draft)
    requires Trim(d.value) != ""
    ensures ToTerm(d) == Some(HeadOf(d) + QuoteIfNeeded(Trim(d.value)))
    ensures TokenOf(d) == HeadOf(d) + Trim(d.value) && TokenOf(d) != ""
  {
    HeadThen(d, QuoteIfNeeded(Trim(d.value)));
    HeadThen(d, Trim(d.value));
  }

  lemma {:induction false} HeadThen(d: Draft, v: string)
    ensures HeadOf(d) + v ==
            (var body := if d.prefix != "" then d.prefix + ":" + v else v; if d.negated then "!" + body else body)
  {}

  /** What the parser makes of one printed draft: what was meant, exactly under the guard. */
  lemma {:induction false} ClassifiedDraft(d: Draft, syntax: AddressSyntax)
    requires PanelPrefix(d.prefix) && Trim(d.value) != ""
    ensures Classify(TokenOf(d), syntax) == Some(Meant(d, syntax)) <==> ReadsAsWritten(d)
  {
    var v := Trim(d.value);
    PanelPrefixesAreFields(d.prefix);
    if d.negated {
      assert TokenOf(d)[1..] == TokenOf(d.(negated := false));
    }
    if d.prefix != "" {
      ScopedBody(d.prefix, v);
    }
  }

  lemma {:induction false} ScopedBody(prefix: string, v: string)
    requires SmallLetters(prefix) && FieldFromPrefix(prefix).Some? && prefix != "" && v != ""
    ensures Scope(prefix + ":" + v) == Some((FieldFromPrefix(prefix).value, v))
    ensures !IsNegation((prefix + ":" + v)[0])
  {
    SmallLettersArePlain(prefix);
    SplitOnceAt(prefix, ':', v);
    assert (prefix + ":" + v)[0] == prefix[0];
  }

  lemma {:induction false} PrintedDrafts(drafts: seq<Draft>)
    requires forall d :: d in drafts ==> PanelPrefix(d.prefix) && '"' !in d.value
    ensures forall t :: t in FlatMap(drafts, TermOf) ==> Balanced(t)
    ensures FlatMap(FlatMap(drafts, TermOf), Tokens) == FlatMap(drafts, TokensOf)
  {
    if drafts != [] {
      var d := drafts[0];
      PrintedDrafts(drafts[1..]);
      FlatMapAppend(TermOf(d), FlatMap(drafts[1..], TermOf), Tokens);
      if Trim(d.value) != "" {
        PrintedDraft(d);
        FlatMapOne(ToTerm(d).value, Tokens);
      }
    }
  }

  function TokensOf(d: Draft): seq<string> {
    if Trim(d.value) == "" then [] else [TokenOf(d)]
  }

  /** Drafts that read as written come back as the terms meant; a single one that does not
      shows in the result. */
  lemma {:induction false} ClassifiedDrafts(drafts: seq<Draft>, syntax: AddressSyntax)
    requires forall d :: d in drafts ==> PanelPrefix(d.prefix)
    ensures var got := ClassifyAll(FlatMap(drafts, TokensOf), syntax);
            var meant := FlatMap(drafts, MeantBy(syntax));
            |got| <= |meant| && (got == meant <==> forall d :: d in drafts ==> ReadsAsWritten(d))
  {
    if drafts != [] {
      var d, rest := drafts[0], drafts[1..];
      ClassifiedDrafts(rest, syntax);
      FlatMapAppend(TokensOf(d), FlatMap(rest, TokensOf), Classifier(syntax));
      FirstDraft(d, ClassifyAll(FlatMap(rest, TokensOf), syntax), FlatMap(rest, MeantBy(syntax)), syntax);
      assert forall e :: e in drafts <==> e == d || e in rest;
    }
  }

  lemma {:induction false} FirstDraft(d: Draft, got: seq<Term>, meant: seq<Term>, syntax: AddressSyntax)
    requires PanelPrefix(d.prefix) && |got| <= |meant|
    ensures var head, meantHead := ClassifyAll(TokensOf(d), syntax), MeantBy(syntax)(d);
            && |head + got| <= |meantHead + meant|
            && (head + got == meantHead + meant <==> ReadsAsWritten(d) && got == meant)
  {
    if Trim(d.value) == "" {
      assert [] + got == got && [] + meant == meant;
    } else {
      ClassifiedDraft(d, syntax);
      FlatMapOne(TokenOf(d), Classifier(syntax));
      HeadsDecide(Classified(TokenOf(d), syntax), got, Meant(d, syntax), meant);
    }
  }

  lemma {:induction false} HeadsDecide(head: seq<Term>, a: seq<Term>, x: Term, b: seq<Term>)
    requires |head| <= 1 && |a| <= |b|
    ensures |head + a| <= |[x] + b|
    ensures head + a == [x] + b <==> head == [x] && a == b
  {
    if head + a == [x] + b {
      assert |head| == 1;
      assert (head + a)[0] == head[0] && ([x] + b)[0] == x;
      assert (head + a)[1..] == a && ([x] + b)[1..] == b;
    }
  }

  lemma {:induction false} ParseIsClassifyTokens(q: string, syntax: AddressSyntax)
    ensures ParseSearch(q, syntax) == ClassifyAll(Tokens(q), syntax)
  {
    if Trim(q) == "" {
      var a, b := TrimSlices(q);
      LeadingSpace(q, "");
      assert q + "" == q;
    }
  }

  lemma {:induction false} JoinBalanced(parts: seq<string>)
    requires forall t :: t in parts ==> Balanced(t)
    ensures Balanced(Join(parts, ' '))
  {
    if parts != [] {
      assert parts[0] in parts;
    }
    if |parts| > 1 {
      JoinBalanced(parts[1..]);
      assert Join(parts, ' ') == (parts[0] + " ") + Join(parts[1..], ' ');
      QuotedAppend(parts[0] + " ", Join(parts[1..], ' '), false);
      QuotedAppend(parts[0], " ", false);
      assert !QuotedAfter(" ", false);
    }
  }

  // ---- when a query takes the drafts at all

  predicate AllBlank(drafts: seq<Draft>) {
    forall d :: d in drafts ==> Trim(d.value) == ""
  }

  predicate QuoteFree(drafts: seq<Draft>) {
    forall d :: d in drafts ==> '"' !in d.value
  }

  /** The drafts hold no quotation mark, and the query has none open, unless there is nothing to add
      and nothing to trim. */
  predicate Fits(existing: string, drafts: seq<Draft>) {
    QuoteFree(drafts) && (Balanced(existing) || (AllBlank(drafts) && TrimEnd(existing) == existing))
  }

  /** The scan so far: the tokens that are complete after `a`. */
  function Done(a: string, current: string, inQuotes: bool): seq<string>
    decreases |a|
  {
    if a == "" then []
    else if a[0] == '"' then Done(a[1..], current, !inQuotes)
    else if IsSpace(a[0]) && !inQuotes then Pending(current) + Done(a[1..], "", false)
    else Done(a[1..], current + [a[0]], inQuotes)
  }

  /** And the token that has begun. */
  function Begun(a: string, current: string, inQuotes: bool): string
    decreases |a|
  {
    if a == "" then current
    else if a[0] == '"' then Begun(a[1..], current, !inQuotes)
    else if IsSpace(a[0]) && !inQuotes then Begun(a[1..], "", false)
    else Begun(a[1..], current + [a[0]], inQuotes)
  }

  lemma {:induction false} ScanSplits(a: string, b: string, current: string, inQuotes: bool)
    ensures ScanTokens(a + b, current, inQuotes)
         == Done(a, current, inQuotes) + ScanTokens(b, Begun(a, current, inQuotes), QuotedAfter(a, inQuotes))
    decreases |a|
  {
    if a == "" {
      assert a + b == b;
    } else {
      assert (a + b)[0] == a[0] && (a + b)[1..] == a[1..] + b;
      if a[0] == '"' {
        ScanSplits(a[1..], b, current, !inQuotes);
      } else if IsSpace(a[0]) && !inQuotes {
        ScanSplits(a[1..], b, "", false);
        var done, rest := Done(a[1..], "", false), ScanTokens(b, Begun(a[1..], "", false), QuotedAfter(a[1..], false));
        assert Pending(current) + (done + rest) == (Pending(current) + done) + rest;
      } else {
        ScanSplits(a[1..], b, current + [a[0]], inQuotes);
      }
    }
  }

  lemma {:induction false} SpacesStayQuoted(ws: string, current: string)
    requires forall i :: 0 <= i < |ws| ==> IsSpace(ws[i])
    ensures ScanTokens(ws, current, true) == Pending(current + ws)
  {
    if ws == "" {
      assert current + ws == current;
    } else {
      SpacesStayQuoted(ws[1..], current + [ws[0]]);
      assert (current + [ws[0]]) + ws[1..] == current + ws;
    }
  }

  lemma {:induction false} TokensHaveNoQuotes(q: string, current: string, inQuotes: bool)
    requires '"' !in current
    ensures forall t :: t in ScanTokens(q, current, inQuotes) ==> '"' !in t
    decreases |q|
  {
    if q != "" {
      if q[0] == '"' {
        TokensHaveNoQuotes(q[1..], current, !inQuotes);
      } else if IsSpace(q[0]) && !inQuotes {
        TokensHaveNoQuotes(q[1..], "", false);
      } else {
        TokensHaveNoQuotes(q[1..], current + [q[0]], inQuotes);
      }
    }
  }

  /** A draft with a quotation mark cannot come back: no token has one. */
  lemma {:induction false} QuoteIsLost(q: string, drafts: seq<Draft>, before: seq<string>, after: seq<string>)
    requires !QuoteFree(drafts)
    ensures Tokens(q) != before + FlatMap(drafts, TokensOf) + after
  {
    var d :| d in drafts && '"' in d.value;
    var a, b := TrimSlices(d.value);
    var i :| 0 <= i < |d.value| && d.value[i] == '"';
    assert Trim(d.value)[i - a] == '"';
    HeadAndValue(d);
    assert TokenOf(d)[|HeadOf(d)| + (i - a)] == '"';
    FlatMapMember(drafts, TokensOf, TokenOf(d));
    assert TokenOf(d) in before + FlatMap(drafts, TokensOf) + after;
    TokensHaveNoQuotes(q, "", false);
  }

  /** A token that has begun goes on with whatever comes next. */
  lemma {:induction false} BegunGoesOn(b: string, current: string, inQuotes: bool)
    requires current != ""
    ensures var ts := ScanTokens(b, current, inQuotes);
            ts != [] && StartsWith(ts[0], current)
    decreases |b|
  {
    if b != "" {
      if b[0] == '"' {
        BegunGoesOn(b[1..], current, !inQuotes);
      } else if !IsSpace(b[0]) || inQuotes {
        BegunGoesOn(b[1..], current + [b[0]], inQuotes);
        var t := ScanTokens(b, current, inQuotes)[0];
        assert t[..|current|] == t[..|current| + 1][..|current|];
      }
    }
  }

  /** The first character a printed draft puts into its token. */
  function FirstOf(d: Draft): char
    requires Trim(d.value) != ""
  {
    TokenOf(d)[0]
  }

  lemma {:induction false} QuotedBegins(s: string, current: string)
    requires |s| > 1 && s[0] == '"' && s[1] != '"' && !IsSpace(s[1]) && current != ""
    ensures var ts := ScanTokens(s, current, true);
            ts != [] && StartsWith(ts[0], current + [s[1]])
  {
    var t := s[1..];
    assert t[0] == s[1];
    BegunGoesOn(t[1..], current + [t[0]], false);
  }

  lemma {:induction false} PlainBegins(s: string, current: string)
    requires s != "" && s[0] != '"' && current != ""
    ensures var ts := ScanTokens(s, current, true);
            ts != [] && StartsWith(ts[0], current + [s[0]])
  {
    BegunGoesOn(s[1..], current + [s[0]], true);
  }

  lemma {:induction false} FirstIsPlain(d: Draft)
    requires PanelPrefix(d.prefix) && '"' !in d.value && Trim(d.value) != ""
    ensures var v := Trim(d.value);
            && !IsSpace(FirstOf(d)) && FirstOf(d) != '"'
            && if HeadOf(d) == "" && HasSpace(v)
               then ToTerm(d).value[0] == '"' && |ToTerm(d).value| > 1 && ToTerm(d).value[1] == FirstOf(d)
               else ToTerm(d).value != "" && ToTerm(d).value[0] == FirstOf(d)
  {
    var v, head := Trim(d.value), HeadOf(d);
    PanelPrefixesAreFields(d.prefix);
    HeadIsPlain(d);
    HeadAndValue(d);
    if head == "" {
      TrimmedBegins(d.value);
      assert "" + v == v && "" + QuoteIfNeeded(v) == QuoteIfNeeded(v);
    } else {
      assert head[0] in head && TokenOf(d)[0] == head[0];
      assert !IsSpace(head[0]);
    }
  }

  lemma {:induction false} TrimmedBegins(value: string)
    requires '"' !in value && Trim(value) != ""
    ensures !IsSpace(Trim(value)[0]) && Trim(value)[0] != '"'
  {
    var a, b := TrimSlices(value);
    assert Trim(value)[0] == value[a] && value[a] in value;
  }

  lemma {:induction false} PrintedBegins(d: Draft, rest: string, current: string)
    requires PanelPrefix(d.prefix) && '"' !in d.value && Trim(d.value) != "" && current != ""
    ensures !IsSpace(FirstOf(d))
    ensures var ts := ScanTokens(ToTerm(d).value + rest, current, true);
            ts != [] && StartsWith(ts[0], current + [FirstOf(d)])
  {
    FirstIsPlain(d);
    if HeadOf(d) == "" && HasSpace(Trim(d.value)) {
      QuotedBegins(ToTerm(d).value + rest, current);
    } else {
      PlainBegins(ToTerm(d).value + rest, current);
    }
  }

  lemma {:induction false} JoinBegins(parts: seq<string>)
    requires parts != []
    ensures exists rest :: Join(parts, ' ') == parts[0] + rest
  {
    if |parts| == 1 {
      assert Join(parts, ' ') == parts[0] + "";
    } else {
      assert Join(parts, ' ') == parts[0] + (" " + Join(parts[1..], ' '));
    }
  }

  lemma {:induction false} FirstPrinted(drafts: seq<Draft>) returns (d: Draft)
    requires !AllBlank(drafts)
    ensures d in drafts && Trim(d.value) != ""
    ensures FlatMap(drafts, TermOf) != [] && FlatMap(drafts, TermOf)[0] == ToTerm(d).value
    ensures FlatMap(drafts, TokensOf) != [] && FlatMap(drafts, TokensOf)[0] == TokenOf(d)
  {
    if Trim(drafts[0].value) != "" {
      d := drafts[0];
    } else {
      assert forall e :: e in drafts <==> e == drafts[0] || e in drafts[1..];
      d := FirstPrinted(drafts[1..]);
    }
  }

  /** Behind an open quote the first draft is swallowed by the token it stands in. */
  lemma {:induction false} OpenQuoteSwallows(cur: string, ws: string, drafts: seq<Draft>)
    requires forall i :: 0 <= i < |ws| ==> IsSpace(ws[i])
    requires !AllBlank(drafts) && QuoteFree(drafts) && forall d :: d in drafts ==> PanelPrefix(d.prefix)
    ensures ScanTokens(Join(FlatMap(drafts, TermOf), ' '), cur + " ", true)
            != Pending(cur + ws) + FlatMap(drafts, TokensOf)
  {
    var d := FirstPrinted(drafts);
    var printed := FlatMap(drafts, TermOf);
    JoinBegins(printed);
    var rest :| Join(printed, ' ') == printed[0] + rest;
    PrintedBegins(d, rest, cur + " ");
    var got := ScanTokens(printed[0] + rest, cur + " ", true)[0];
    var begin := cur + " " + [FirstOf(d)];
    assert got[..|begin|] == begin;
    assert got[|cur|] == begin[|cur|] == ' ' && got[|cur| + 1] == begin[|cur| + 1] == FirstOf(d);
    var meant := Pending(cur + ws) + FlatMap(drafts, TokensOf);
    if cur + ws == "" {
      assert meant[0] == TokenOf(d);
    } else {
      assert meant[0] == cur + ws;
      if |ws| > 1 {
        assert (cur + ws)[|cur| + 1] == ws[1];
      }
    }
  }

  lemma {:induction false} NothingPrinted(drafts: seq<Draft>)
    requires AllBlank(drafts)
    ensures FlatMap(drafts, TermOf) == [] && FlatMap(drafts, TokensOf) == []
  {
    if drafts != [] {
      assert drafts[0] in drafts;
      NothingPrinted(drafts[1..]);
    }
  }

  /** The tokens of an open query, before and after trimming. */
  lemma {:induction false} OpenTokens(existing: string) returns (e: string, ws: string)
    requires !Balanced(existing)
    ensures e == Trim(existing) && e != "" && QuotedAfter(e, false)
    ensures forall i :: 0 <= i < |ws| ==> IsSpace(ws[i])
    ensures ws == "" <==> TrimEnd(existing) == existing
    ensures Tokens(existing) == Done(e, "", false) + Pending(Begun(e, "", false) + ws)
    ensures Tokens(e) == Done(e, "", false) + Pending(Begun(e, "", false))
  {
    hide Trim;
    var a, b := TrimSlices(existing);
    e, ws := existing[a..b], existing[b..];
    assert existing == existing[..a] + (e + ws);
    LeadingSpace(existing[..a], e + ws);
    QuotedAppend(existing[..a], e + ws, false);
    QuotedAppend(e, ws, false);
    SpacesKeepQuotes(existing[..a], false);
    SpacesKeepQuotes(ws, QuotedAfter(e, false));
    ScanSplits(e, ws, "", false);
    ScanSplits(e, "", "", false);
    assert e + "" == e;
    SpacesStayQuoted(ws, Begun(e, "", false));
    TrimEndSlices(existing);
  }

  lemma {:induction false} PendingGrows(cur: string, ws: string)
    ensures Pending(cur) == Pending(cur + ws) <==> ws == ""
  {
    if ws == "" {
      assert cur + ws == cur;
    } else {
      assert |cur + ws| > |cur|;
      assert Pending(cur + ws) == [cur + ws];
    }
  }

  lemma {:induction false} OpenQueryTrimmed(existing: string, drafts: seq<Draft>)
    requires !Balanced(existing) && AllBlank(drafts)
    ensures Tokens(Apply(existing, drafts)) == Tokens(existing) + FlatMap(drafts, TokensOf)
            <==> TrimEnd(existing) == existing
  {
    var e, ws := OpenTokens(existing);
    var cur := Begun(e, "", false);
    NothingPrinted(drafts);
    assert Apply(existing, drafts) == e;
    assert Tokens(existing) + [] == Tokens(existing);
    CancelPrefix(Done(e, "", false), Pending(cur), Pending(cur + ws));
    PendingGrows(cur, ws);
  }

  lemma {:induction false} OpenQueryExtended(existing: string, drafts: seq<Draft>)
    requires !Balanced(existing) && !AllBlank(drafts) && QuoteFree(drafts)
    requires forall d :: d in drafts ==> PanelPrefix(d.prefix)
    ensures Tokens(Apply(existing, drafts)) != Tokens(existing) + FlatMap(drafts, TokensOf)
  {
    hide Apply, Join, FlatMap, TermOf, TokensOf, Done, Begun, AllBlank, QuoteFree, Balanced, PanelPrefix, Pending;
    var e, ws := OpenTokens(existing);
    var done, cur, printed := Done(e, "", false), Begun(e, "", false), FlatMap(drafts, TermOf);
    var added := Join(printed, ' ');
    AppliedText(existing, e, drafts);
    ScanSplits(e, " " + added, "", false);
    assert (" " + added)[1..] == added;
    OpenQuoteSwallows(cur, ws, drafts);
    var meant := Pending(cur + ws) + FlatMap(drafts, TokensOf);
    assert Tokens(existing) + FlatMap(drafts, TokensOf) == done + meant;
    CancelPrefix(done, ScanTokens(added, cur + " ", true), meant);
  }

  lemma {:induction false} AppliedText(existing: string, e: string, drafts: seq<Draft>)
    requires e == Trim(existing) && e != "" && !AllBlank(drafts)
    ensures Apply(existing, drafts) == e + (" " + Join(FlatMap(drafts, TermOf), ' '))
  {
    var d := FirstPrinted(drafts);
    assert ([e] + FlatMap(drafts, TermOf))[1..] == FlatMap(drafts, TermOf);
  }

  /** With a quote open, the query takes no drafts: neither added nor, trailing space trimmed, left out. */
  lemma {:induction false} OpenQueryTokens(existing: string, drafts: seq<Draft>)
    requires !Balanced(existing) && QuoteFree(drafts) && forall d :: d in drafts ==> PanelPrefix(d.prefix)
    ensures Tokens(Apply(existing, drafts)) == Tokens(existing) + FlatMap(drafts, TokensOf)
            <==> AllBlank(drafts) && TrimEnd(existing) == existing
  {
    if AllBlank(drafts) {
      OpenQueryTrimmed(existing, drafts);
    } else {
      OpenQueryExtended(existing, drafts);
    }
  }

  lemma {:induction false} ClosedQueryTokens(existing: string, drafts: seq<Draft>)
    requires Balanced(existing) && QuoteFree(drafts) && forall d :: d in drafts ==> PanelPrefix(d.prefix)
    ensures Tokens(Apply(existing, drafts)) == Tokens(existing) + FlatMap(drafts, TokensOf)
  {
    TrimKeepsTokens(existing);
    PrintedDrafts(drafts);
    var before, printed := NonBlank(Trim(existing)), FlatMap(drafts, TermOf);
    JoinBalanced(before + printed);
    TokensOfJoin(before + printed);
    FlatMapAppend(before, printed, Tokens);
    if before != [] {
      FlatMapOne(Trim(existing), Tokens);
    }
  }

  /** The panel and the parser undo each other. For any query and any drafts, the tokens of the drafts
      come back behind those of the query exactly if the query takes them; and then each draft comes back
      as the one term it means, behind the old terms, exactly if every draft reads as written. */
  lemma {:induction false} PanelRoundTrip(existing: string, drafts: seq<Draft>, syntax: AddressSyntax)
    requires forall d :: d in drafts ==> PanelPrefix(d.prefix)
    ensures Tokens(Apply(existing, drafts)) == Tokens(existing) + FlatMap(drafts, TokensOf) <==> Fits(existing, drafts)
    ensures Fits(existing, drafts) ==>
              (ParseSearch(Apply(existing, drafts), syntax)
                 == ParseSearch(existing, syntax) + FlatMap(drafts, MeantBy(syntax))
               <==> forall d :: d in drafts ==> ReadsAsWritten(d))
  {
    if !QuoteFree(drafts) {
      QuoteIsLost(Apply(existing, drafts), drafts, Tokens(existing), []);
      assert Tokens(existing) + FlatMap(drafts, TokensOf) + [] == Tokens(existing) + FlatMap(drafts, TokensOf);
    } else if Balanced(existing) {
      ClosedQueryTokens(existing, drafts);
    } else {
      OpenQueryTokens(existing, drafts);
    }
    if Fits(existing, drafts) {
      FittingDraftsReadBack(existing, drafts, syntax);
    }
  }

  lemma {:induction false} FittingDraftsReadBack(existing: string, drafts: seq<Draft>, syntax: AddressSyntax)
    requires forall d :: d in drafts ==> PanelPrefix(d.prefix)
    requires Tokens(Apply(existing, drafts)) == Tokens(existing) + FlatMap(drafts, TokensOf)
    ensures ParseSearch(Apply(existing, drafts), syntax)
              == ParseSearch(existing, syntax) + FlatMap(drafts, MeantBy(syntax))
            <==> forall d :: d in drafts ==> ReadsAsWritten(d)
  {
    var oldTokens, newTokens := Tokens(existing), FlatMap(drafts, TokensOf);
    FlatMapAppend(oldTokens, newTokens, Classifier(syntax));
    ParseIsClassifyTokens(Apply(existing, drafts), syntax);
    ParseIsClassifyTokens(existing, syntax);
    ClassifiedDrafts(drafts, syntax);
    CancelPrefix(ClassifyAll(oldTokens, syntax), ClassifyAll(newTokens, syntax), FlatMap(drafts, MeantBy(syntax)));
  }

  lemma {:induction false} CancelPrefix<T>(a: seq<T>, b: seq<T>, c: seq<T>)
    ensures a + b == a + c <==> b == c
  {
    assert (a + b)[|a|..] == b && (a + c)[|a|..] == c;
  }

  // ---- composeQ

  datatype FilterFields = FilterFields(
    ip: string, rule: string, sport: string, dport: string, asn: string, service: string, q: string)

  predicate IsValidNumber(v: string) {
    Trim(v) != "" && AllDigits(Trim(v))
  }

  function NumberDraft(prefix: string, v: string): seq<Draft> {
    if IsValidNumber(v) then [Draft(prefix, v, false)] else []
  }

  /** The filter fields without a backend parameter, as drafts. */
  function FieldDrafts(s: FilterFields): seq<Draft> {
    [Draft("", s.ip, false), Draft("rule", s.rule, false)]
    + NumberDraft("sport", s.sport) + NumberDraft("dport", s.dport)
    + [Draft("asn", s.asn, false), Draft("", s.service, false)]
  }

  /** `composeQ`: every filled field becomes a term, the typed query comes last. */
  method ComposeQ(s: FilterFields) returns (q: string)
    ensures q == Composed(s)
  {
    FieldTextsAreTerms(s);
    var parts := PushWhen([], Trim(s.ip) != "", "" + QuoteIfNeeded(Trim(s.ip)));
    parts := PushWhen(parts, Trim(s.rule) != "", "rule" + ":" + QuoteIfNeeded(Trim(s.rule)));
    parts := PushWhen(parts, IsValidNumber(s.sport), "sport" + ":" + Trim(s.sport));
    parts := PushWhen(parts, IsValidNumber(s.dport), "dport" + ":" + Trim(s.dport));
    parts := PushWhen(parts, Trim(s.asn) != "", "asn" + ":" + QuoteIfNeeded(Trim(s.asn)));
    parts := PushWhen(parts, Trim(s.service) != "", "" + QuoteIfNeeded(Trim(s.service)));
    assert parts == FieldTexts(s);
    parts := PushWhen(parts, Trim(s.q) != "", Trim(s.q));
    q := Join(parts, ' ');
  }

  /** `if (c) parts.push(t)`. */
  method PushWhen(parts: seq<string>, c: bool, t: string) returns (r: seq<string>)
    ensures r == parts + When(c, [t])
    ensures parts == [] ==> r == When(c, [t])
  {
    r := parts;
    if c {
      r := r + [t];
    }
  }

  /** The same pieces, written as the source writes them. */
  function FieldTexts(s: FilterFields): seq<string> {
    When(Trim(s.ip) != "", ["" + QuoteIfNeeded(Trim(s.ip))])
    + When(Trim(s.rule) != "", ["rule" + ":" + QuoteIfNeeded(Trim(s.rule))])
    + When(IsValidNumber(s.sport), ["sport" + ":" + Trim(s.sport)])
    + When(IsValidNumber(s.dport), ["dport" + ":" + Trim(s.dport)])
    + When(Trim(s.asn) != "", ["asn" + ":" + QuoteIfNeeded(Trim(s.asn))])
    + When(Trim(s.service) != "", ["" + QuoteIfNeeded(Trim(s.service))])
  }

  lemma {:induction false} FieldTextsAreTerms(s: FilterFields)
    ensures FlatMap(FieldDrafts(s), TermOf) == FieldTexts(s)
  {
    FieldTerms(s);
    FieldText("", "", s.ip);
    FieldText("rule", "rule" + ":", s.rule);
    NumberTerm("sport", "sport" + ":", s.sport);
    NumberTerm("dport", "dport" + ":", s.dport);
    FieldText("asn", "asn" + ":", s.asn);
    FieldText("", "", s.service);
  }

  lemma {:induction false} FieldText(prefix: string, tag: string, v: string)
    requires tag == if prefix == "" then "" else prefix + ":"
    ensures TermOf(Draft(prefix, v, false)) == When(Trim(v) != "", [tag + QuoteIfNeeded(Trim(v))])
  {
    assert "" + QuoteIfNeeded(Trim(v)) == QuoteIfNeeded(Trim(v));
  }

  lemma {:induction false} NumberTerm(prefix: string, tag: string, v: string)
    requires prefix != "" && tag == prefix + ":"
    ensures FlatMap(NumberDraft(prefix, v), TermOf) == When(IsValidNumber(v), [tag + Trim(v)])
  {}

  lemma {:induction false} FlatMapTwo<A, B>(x: A, y: A, f: A -> seq<B>)
    ensures FlatMap([x, y], f) == f(x) + f(y)
  {
    assert [x, y] == [x] + [y];
    FlatMapAppend([x], [y], f);
    FlatMapOne(x, f);
    FlatMapOne(y, f);
  }

  lemma {:induction false} Associate<T>(a: seq<T>, b: seq<T>, c: seq<T>)
    ensures a + (b + c) == a + b + c
  {}

  lemma {:induction false} FieldTerms(s: FilterFields)
    ensures FlatMap(FieldDrafts(s), TermOf)
         == TermOf(Draft("", s.ip, false)) + TermOf(Draft("rule", s.rule, false))
          + FlatMap(NumberDraft("sport", s.sport), TermOf) + FlatMap(NumberDraft("dport", s.dport), TermOf)
          + TermOf(Draft("asn", s.asn, false)) + TermOf(Draft("", s.service, false))
  {
    var a := [Draft("", s.ip, false), Draft("rule", s.rule, false)];
    var b, c := NumberDraft("sport", s.sport), NumberDraft("dport", s.dport);
    var d := [Draft("asn", s.asn, false), Draft("", s.service, false)];
    FlatMapTwo(a[0], a[1], TermOf);
    FlatMapTwo(d[0], d[1], TermOf);
    FlatMapAppend(a + b + c, d, TermOf);
    FlatMapAppend(a + b, c, TermOf);
    FlatMapAppend(a, b, TermOf);
    Associate(FlatMap(a + b + c, TermOf), TermOf(d[0]), TermOf(d[1]));
  }

  function Composed(s: FilterFields): string {
    Join(FlatMap(FieldDrafts(s), TermOf) + NonBlank(Trim(s.q)), ' ')
  }

  /** The composed query has the tokens of every filled field and then those of the typed query, which
      may end in an open quote, exactly if no field holds a quotation mark; and then it searches for the
      fields as meant and for the typed query exactly if the two free fields read as written. */
  lemma {:induction false} ComposedQueryRoundTrip(s: FilterFields, syntax: AddressSyntax)
    ensures var drafts := FieldDrafts(s);
            && (Tokens(Composed(s)) == FlatMap(drafts, TokensOf) + Tokens(Trim(s.q)) <==> QuoteFree(drafts))
            && (QuoteFree(drafts) ==>
                  (ParseSearch(Composed(s), syntax)
                     == FlatMap(drafts, MeantBy(syntax)) + ParseSearch(Trim(s.q), syntax)
                   <==> ReadsAsWritten(Draft("", s.ip, false)) && ReadsAsWritten(Draft("", s.service, false))))
  {
    hide FieldDrafts, Tokens, TokensOf, TermOf, FlatMap, MeantBy, ParseSearch, ReadsAsWritten, PanelPrefix;
    var drafts := FieldDrafts(s);
    FreeFieldsDecide(s);
    if QuoteFree(drafts) {
      TokensOfComposed(drafts, Trim(s.q));
      ComposedReadsBack(s, syntax);
    } else {
      QuoteIsLost(Composed(s), drafts, [], Tokens(Trim(s.q)));
      assert [] + FlatMap(drafts, TokensOf) == FlatMap(drafts, TokensOf);
    }
  }

  lemma {:induction false} ComposedReadsBack(s: FilterFields, syntax: AddressSyntax)
    requires Tokens(Composed(s)) == FlatMap(FieldDrafts(s), TokensOf) + Tokens(Trim(s.q))
    ensures ParseSearch(Composed(s), syntax)
              == FlatMap(FieldDrafts(s), MeantBy(syntax)) + ParseSearch(Trim(s.q), syntax)
            <==> forall d :: d in FieldDrafts(s) ==> ReadsAsWritten(d)
  {
    var drafts := FieldDrafts(s);
    FreeFieldsDecide(s);
    var newTokens, typedTokens := FlatMap(drafts, TokensOf), Tokens(Trim(s.q));
    ParseIsClassifyTokens(Composed(s), syntax);
    ParseIsClassifyTokens(Trim(s.q), syntax);
    FlatMapAppend(newTokens, typedTokens, Classifier(syntax));
    ClassifiedDrafts(drafts, syntax);
    CancelSuffix(ClassifyAll(newTokens, syntax), FlatMap(drafts, MeantBy(syntax)), ClassifyAll(typedTokens, syntax));
  }

  lemma {:induction false} FreeFieldsDecide(s: FilterFields)
    ensures forall d :: d in FieldDrafts(s) ==> PanelPrefix(d.prefix)
    ensures (forall d :: d in FieldDrafts(s) ==> ReadsAsWritten(d))
       <==> ReadsAsWritten(Draft("", s.ip, false)) && ReadsAsWritten(Draft("", s.service, false))
  {
    var drafts := FieldDrafts(s);
    assert drafts[0] == Draft("", s.ip, false) && drafts[|drafts| - 1] == Draft("", s.service, false);
    assert forall d :: d in drafts && d.prefix == "" ==> d == drafts[0] || d == drafts[|drafts| - 1];
  }

  lemma {:induction false} TokensOfComposed(drafts: seq<Draft>, last: string)
    requires forall d :: d in drafts ==> PanelPrefix(d.prefix) && '"' !in d.value
    ensures Tokens(Join(FlatMap(drafts, TermOf) + NonBlank(last), ' ')) == FlatMap(drafts, TokensOf) + Tokens(last)
  {
    var printed := FlatMap(drafts, TermOf);
    PrintedDrafts(drafts);
    forall i | 0 <= i < |printed| ensures Balanced(printed[i]) {
      assert printed[i] in printed;
    }
    TokensOfJoin(printed + NonBlank(last));
    FlatMapAppend(printed, NonBlank(last), Tokens);
    if last != "" {
      FlatMapOne(last, Tokens);
    }
  }

  lemma {:induction false} CancelSuffix<T>(a: seq<T>, b: seq<T>, c: seq<T>)
    ensures a + c == b + c <==> a == b
  {
    if a + c == b + c {
      assert |a| == |b|;
      assert (a + c)[..|a|] == a && (b + c)[..|a|] == b;
    }
  }

  /** Of a composed query whose fields come back, each filled field is searched for in its own field: the
      source port as source port, the destination port as destination port, rule and network by theirs. */
  lemma {:induction false} FieldIsSearchedFor(s: FilterFields, syntax: AddressSyntax, field: Field, v: string)
    requires QuoteFree(FieldDrafts(s))
    requires ReadsAsWritten(Draft("", s.ip, false)) && ReadsAsWritten(Draft("", s.service, false))
    requires || (field == SrcPort && v == s.sport && IsValidNumber(v))
             || (field == DstPort && v == s.dport && IsValidNumber(v))
             || (field == Rule && v == s.rule && Trim(v) != "")
             || (field == Asn && v == s.asn && Trim(v) != "")
    ensures exists t :: t in ParseSearch(Composed(s), syntax) && t.field == Some(field) && !t.negated
                        && ReadAs(t.value, Trim(v), Some(field), syntax)
  {
    hide *;
    var prefix := if field == SrcPort then "sport" else if field == DstPort then "dport"
                  else if field == Rule then "rule" else "asn";
    var d := Draft(prefix, v, false);
    ComposedQueryRoundTrip(s, syntax);
    FieldOfDraft(s, field, v);
    DraftIsThere(s, d);
    MeantIsRead(d, field, syntax);
    FlatMapMember(FieldDrafts(s), MeantBy(syntax), Meant(d, syntax));
    assert Meant(d, syntax) in FlatMap(FieldDrafts(s), MeantBy(syntax));
  }

  lemma {:induction false} FieldOfDraft(s: FilterFields, field: Field, v: string)
    requires || (field == SrcPort && v == s.sport && IsValidNumber(v))
             || (field == DstPort && v == s.dport && IsValidNumber(v))
             || (field == Rule && v == s.rule && Trim(v) != "")
             || (field == Asn && v == s.asn && Trim(v) != "")
    ensures Trim(v) != ""
    ensures FieldFromPrefix(if field == SrcPort then "sport" else if field == DstPort then "dport"
                            else if field == Rule then "rule" else "asn") == Some(field)
  {}

  lemma {:induction false} MeantIsRead(d: Draft, field: Field, syntax: AddressSyntax)
    requires Trim(d.value) != "" && FieldFromPrefix(d.prefix) == Some(field)
    ensures MeantBy(syntax)(d) == [Meant(d, syntax)] && Meant(d, syntax) in MeantBy(syntax)(d)
    ensures var t := Meant(d, syntax);
            t.field == Some(field) && t.negated == d.negated && ReadAs(t.value, Trim(d.value), Some(field), syntax)
  {
    TypedIsRead(Trim(d.value), Some(field), syntax);
    hide ReadAs, TypedFor, FieldFromPrefix;
  }

  lemma {:induction false} DraftIsThere(s: FilterFields, d: Draft)
    requires || (d == Draft("sport", s.sport, false) && IsValidNumber(s.sport))
             || (d == Draft("dport", s.dport, false) && IsValidNumber(s.dport))
             || d == Draft("rule", s.rule, false) || d == Draft("asn", s.asn, false)
    ensures d in FieldDrafts(s)
  {
    var a, b, c := [Draft("", s.ip, false), Draft("rule", s.rule, false)], NumberDraft("sport", s.sport),
                   NumberDraft("dport", s.dport);
    var e := [Draft("asn", s.asn, false), Draft("", s.service, false)];
    assert a[1] in a && e[0] in e;
    assert FieldDrafts(s) == a + b + c + e;
  }
}
