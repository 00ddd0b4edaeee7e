/** Text patterns: the live stream's greedy `*` search and PostgreSQL's `LIKE`. */
module Glob {
  import opened Basics
  import opened Text

  /** What a `*` pattern means when the end of the text is left free. */
  predicate MatchesOpen(p: string, s: string)
    decreases |p|, |s|
  {
    if p == "" then true
    else if p[0] == '*' then MatchesOpen(p[1..], s) || (s != "" && MatchesOpen(p, s[1..]))
    else s != "" && s[0] == p[0] && MatchesOpen(p[1..], s[1..])
  }

  /** The same pattern, the whole text having to be used up. */
  predicate MatchesWhole(p: string, s: string)
    decreases |p|, |s|
  {
    if p == "" then s == ""
    else if p[0] == '*' then MatchesWhole(p[1..], s) || (s != "" && MatchesWhole(p, s[1..]))
    else s != "" && s[0] == p[0] && MatchesWhole(p[1..], s[1..])
  }

  /** SQL `LIKE`: `%` any text, `_` one character, `\` takes the next one literally. */
  predicate Like(p: string, s: string)
    decreases |p|, |s|
  {
    if p == "" then s == ""
    else if p[0] == '%' then Like(p[1..], s) || (s != "" && Like(p, s[1..]))
    else if p[0] == '_' then s != "" && Like(p[1..], s[1..])
    else if p[0] == '\\' then |p| > 1 && s != "" && s[0] == p[1] && Like(p[2..], s[1..])
    else s != "" && s[0] == p[0] && Like(p[1..], s[1..])
  }

  /** SQL `ILIKE`. */
  predicate ILike(p: string, s: string) {
    Like(Lower(p), Lower(s))
  }

  predicate NoLikeMeta(s: string) {
    '%' !in s && '_' !in s && '\\' !in s
  }

  function StarToPercent(t: string): (r: string)
    ensures |r| == |t|
    ensures forall i :: 0 <= i < |t| ==> r[i] == if t[i] == '*' then '%' else t[i]
  {
    seq(|t|, i requires 0 <= i < |t| => if t[i] == '*' then '%' else t[i])
  }

  /** The pattern a text term is compared with. */
  function Pattern(t: string, glob: bool): string {
    if glob then StarToPercent(t) else "%" + t + "%"
  }

  // ---- splitting a pattern at its stars

  function Split(p: string, c: char): (r: seq<string>)
    ensures |r| > 0
    ensures forall k :: 0 <= k < |r| ==> c !in r[k]
  {
    if p == "" then [""]
    else if p[0] == c then [""] + Split(p[1..], c)
    else
      var rest := Split(p[1..], c);
      [[p[0]] + rest[0]] + rest[1..]
  }

  /** The parts from `k` on, each with its star in front. */
  function Starred(parts: seq<string>): string {
    if parts == [] then "" else "*" + parts[0] + Starred(parts[1..])
  }

  lemma {:induction false} SplitIsJoined(p: string, c: char)
    ensures Join(Split(p, c), c) == p
  {
    if p != "" {
      SplitIsJoined(p[1..], c);
      var rest, all := Split(p[1..], c), Split(p, c);
      assert p == [p[0]] + p[1..];
      if p[0] == c {
        assert all[1..] == rest;
      } else {
        assert all[1..] == rest[1..] && all[0] == [p[0]] + rest[0];
      }
    }
  }

  lemma {:induction false} SplitFree(a: string, c: char)
    requires c !in a
    ensures Split(a, c) == [a]
  {
    if a != "" {
      SplitFree(a[1..], c);
      assert [a[0]] + a[1..] == a;
    }
  }

  lemma {:induction false} SplitFirst(a: string, c: char, b: string)
    requires c !in a
    ensures Split(a + [c] + b, c) == [a] + Split(b, c)
  {
    var p := a + [c] + b;
    if a == "" {
      assert p[1..] == b;
    } else {
      SplitFirst(a[1..], c, b);
      assert p[1..] == a[1..] + [c] + b && [a[0]] + a[1..] == a;
    }
  }

  /** Splitting undoes joining. */
  lemma {:induction false} JoinedIsSplit(parts: seq<string>, c: char)
    requires parts != [] && forall i :: 0 <= i < |parts| ==> c !in parts[i]
    ensures Split(Join(parts, c), c) == parts
  {
    if |parts| == 1 {
      SplitFree(parts[0], c);
    } else {
      JoinedIsSplit(parts[1..], c);
      SplitFirst(parts[0], c, Join(parts[1..], c));
    }
  }

  lemma {:induction false} SplitRebuilds(p: string)
    ensures p == Split(p, '*')[0] + Starred(Split(p, '*')[1..])
  {
    if p != "" {
      SplitRebuilds(p[1..]);
      var rest := Split(p[1..], '*');
      assert p == [p[0]] + p[1..];
      if p[0] == '*' {
        assert Split(p, '*')[1..] == rest;
      } else {
        assert Split(p, '*')[1..] == rest[1..];
        assert [p[0]] + (rest[0] + Starred(rest[1..])) == ([p[0]] + rest[0]) + Starred(rest[1..]);
      }
    }
  }

  lemma {:induction false} LiteralPrefix(lit: string, r: string, s: string)
    requires '*' !in lit
    ensures MatchesOpen(lit + r, s) <==> StartsWith(s, lit) && MatchesOpen(r, s[|lit|..])
  {
    if lit == "" {
      assert lit + r == r && s[0..] == s;
    } else {
      assert (lit + r)[1..] == lit[1..] + r;
      if s != "" {
        LiteralPrefix(lit[1..], r, s[1..]);
        if |lit| <= |s| {
          assert s[1..][|lit| - 1..] == s[|lit|..];
          assert s[..|lit|] == [s[0]] + s[1..][..|lit| - 1];
          assert lit == [lit[0]] + lit[1..];
        }
      }
    }
  }

  predicate MatchesBehind(r: string, s: string) {
    exists k :: 0 <= k <= |s| && MatchesOpen(r, s[k..])
  }

  lemma {:induction false} BehindStep(r: string, s: string)
    ensures MatchesBehind(r, s) <==> MatchesOpen(r, s) || (s != "" && MatchesBehind(r, s[1..]))
  {
    assert s[0..] == s;
    if MatchesBehind(r, s) {
      var k :| 0 <= k <= |s| && MatchesOpen(r, s[k..]);
      if k > 0 {
        assert s[1..][k - 1..] == s[k..];
      }
    }
    if s != "" && MatchesBehind(r, s[1..]) {
      var k :| 0 <= k <= |s[1..]| && MatchesOpen(r, s[1..][k..]);
      assert s[1..][k..] == s[k + 1..];
    }
  }

  lemma {:induction false} StarStep(r: string, s: string)
    ensures MatchesOpen("*" + r, s) <==> MatchesOpen(r, s) || (s != "" && MatchesOpen("*" + r, s[1..]))
  {}

  lemma {:induction false} StarPrefix(r: string, s: string)
    ensures MatchesOpen("*" + r, s) <==> exists k :: 0 <= k <= |s| && MatchesOpen(r, s[k..])
    decreases |s|
  {
    StarStep(r, s);
    BehindStep(r, s);
    if s != "" {
      StarPrefix(r, s[1..]);
    }
  }

  /** A pattern that starts with a star (or is used up) only gains from more text in front. */
  lemma {:induction false} StarredMonotone(parts: seq<string>, s: string, a: nat, b: nat)
    requires a <= b <= |s|
    requires MatchesOpen(Starred(parts), s[b..])
    ensures MatchesOpen(Starred(parts), s[a..])
  {
    if parts != [] {
      var r := parts[0] + Starred(parts[1..]);
      assert Starred(parts) == "*" + r;
      StarPrefix(r, s[b..]);
      StarPrefix(r, s[a..]);
      var k :| 0 <= k <= |s[b..]| && MatchesOpen(r, s[b..][k..]);
      assert s[b..][k..] == s[a..][k + (b - a)..];
    }
  }

  /** Wherever the part may stand, its leftmost place serves as well. */
  lemma {:induction false} LeftmostServes(parts: seq<string>, s: string, pos: nat, at: nat)
    requires parts != [] && pos <= at <= |s| - |parts[0]| && StartsWith(s[at..], parts[0])
    requires MatchesOpen(Starred(parts[1..]), s[at + |parts[0]|..])
    ensures var hit := Find(s, parts[0], pos);
            hit.Some? && MatchesOpen(Starred(parts[1..]), s[hit.value + |parts[0]|..])
  {
    var hit := Find(s, parts[0], pos);
    assert hit.Some? && hit.value <= at;
    StarredMonotone(parts[1..], s, hit.value + |parts[0]|, at + |parts[0]|);
  }

  /** One round of the search: taking the leftmost hit loses nothing. */
  lemma {:induction false} GreedyStep(parts: seq<string>, s: string, pos: nat)
    requires pos <= |s| && parts != [] && '*' !in parts[0]
    ensures var hit := Find(s, parts[0], pos);
            MatchesOpen(Starred(parts), s[pos..]) <==>
            hit.Some? && MatchesOpen(Starred(parts[1..]), s[hit.value + |parts[0]|..])
  {
    var lit, rest := parts[0], Starred(parts[1..]);
    StarThenPart(lit, rest, s, pos);
    assert Starred(parts) == "*" + (lit + rest);
    var hit := Find(s, lit, pos);
    if at :| pos <= at <= |s| - |lit| && StartsWith(s[at..], lit) && MatchesOpen(rest, s[at + |lit|..]) {
      LeftmostServes(parts, s, pos, at);
    }
  }

  /** A star and a literal part: the part stands somewhere, the rest matches behind it. */
  lemma {:induction false} StarThenPart(lit: string, rest: string, s: string, pos: nat)
    requires pos <= |s| && '*' !in lit
    ensures MatchesOpen("*" + (lit + rest), s[pos..]) <==>
            exists at :: pos <= at <= |s| - |lit| && StartsWith(s[at..], lit) && MatchesOpen(rest, s[at + |lit|..])
  {
    StarPrefix(lit + rest, s[pos..]);
    if MatchesOpen("*" + (lit + rest), s[pos..]) {
      var k :| 0 <= k <= |s[pos..]| && MatchesOpen(lit + rest, s[pos..][k..]);
      assert s[pos..][k..] == s[pos + k..];
      LiteralPrefix(lit, rest, s[pos + k..]);
      assert s[pos + k..][|lit|..] == s[pos + k + |lit|..];
    }
    if at :| pos <= at <= |s| - |lit| && StartsWith(s[at..], lit) && MatchesOpen(rest, s[at + |lit|..]) {
      assert s[at..][|lit|..] == s[at + |lit|..];
      LiteralPrefix(lit, rest, s[at..]);
      assert s[pos..][at - pos..] == s[at..];
    }
  }

  /** The live stream's pattern search: the first part at the start, the others behind it.
      It finds a placement whenever there is one. */
  method GlobMatch(haystack: string, pattern: string) returns (found: bool)
    ensures found <==> MatchesOpen(Lower(pattern), Lower(haystack))
  {
    var hay := Lower(haystack);
    var parts := Split(Lower(pattern), '*');
    SplitRebuilds(Lower(pattern));
    LiteralPrefix(parts[0], Starred(parts[1..]), hay);
    if !StartsWith(hay, parts[0]) {
      return false;
    }
    found := FindInOrder(hay, parts, |parts[0]|);
  }

  /** Leftmost hits, part by part. */
  method FindInOrder(hay: string, parts: seq<string>, start: nat) returns (found: bool)
    requires parts != [] && start <= |hay| && forall k :: 0 <= k < |parts| ==> '*' !in parts[k]
    ensures found <==> MatchesOpen(Starred(parts[1..]), hay[start..])
  {
    var pos: nat, k: nat := start, 1;
    while k < |parts|
      invariant 1 <= k <= |parts| && pos <= |hay|
      invariant MatchesOpen(Starred(parts[1..]), hay[start..]) <==> MatchesOpen(Starred(parts[k..]), hay[pos..])
    {
      GreedyRound(parts, k, hay, pos);
      if parts[k] != "" {
        match Find(hay, parts[k], pos)
        case None => return false;
        case Some(at) => pos := at + |parts[k]|;
      }
      k := k + 1;
    }
    return true;
  }

  lemma {:induction false} GreedyRound(parts: seq<string>, k: nat, s: string, pos: nat)
    requires pos <= |s| && k < |parts| && '*' !in parts[k]
    ensures var hit := Find(s, parts[k], pos);
            MatchesOpen(Starred(parts[k..]), s[pos..]) <==>
            hit.Some? && MatchesOpen(Starred(parts[k + 1..]), s[hit.value + |parts[k]|..])
  {
    assert parts[k..][0] == parts[k] && parts[k..][1..] == parts[k + 1..];
    GreedyStep(parts[k..], s, pos);
  }

  // ---- what the search means: the parts can be placed in order

  /** `at` places every part in `s`: the first at the very start, the rest in order, none overlapping. */
  predicate Places(parts: seq<string>, s: string, at: seq<nat>) {
    && |at| == |parts|
    && (forall i :: 0 <= i < |at| ==> at[i] + |parts[i]| <= |s| && s[at[i]..at[i] + |parts[i]|] == parts[i])
    && (forall i :: 0 <= i < |at| - 1 ==> at[i] + |parts[i]| <= at[i + 1])
  }

  lemma {:induction false} MatchGivesPlacement(parts: seq<string>, s: string, pos: nat) returns (at: seq<nat>)
    requires pos <= |s| && forall k :: 0 <= k < |parts| ==> '*' !in parts[k]
    requires MatchesOpen(Starred(parts), s[pos..])
    ensures Places(parts, s, at) && (|at| > 0 ==> pos <= at[0])
    decreases |parts|
  {
    at := [];
    if parts != [] {
      GreedyStep(parts, s, pos);
      var first := Find(s, parts[0], pos).value;
      var rest := MatchGivesPlacement(parts[1..], s, first + |parts[0]|);
      PlaceFirst(parts, s, first, rest);
      at := [first] + rest;
    }
  }

  lemma {:induction false} PlacementGivesMatch(parts: seq<string>, s: string, pos: nat, at: seq<nat>)
    requires pos <= |s| && forall k :: 0 <= k < |parts| ==> '*' !in parts[k]
    requires Places(parts, s, at) && (|at| > 0 ==> pos <= at[0])
    ensures MatchesOpen(Starred(parts), s[pos..])
    decreases |parts|
  {
    if parts != [] {
      PlaceRest(parts, s, at);
      GreedyStep(parts, s, pos);
      var hit := Find(s, parts[0], pos);
      assert hit.Some? && hit.value <= at[0];
      PlacementGivesMatch(parts[1..], s, hit.value + |parts[0]|, at[1..]);
    }
  }

  lemma {:induction false} PlaceFirst(parts: seq<string>, s: string, first: nat, rest: seq<nat>)
    requires parts != [] && first <= |s| && StartsWith(s[first..], parts[0])
    requires Places(parts[1..], s, rest) && (|rest| > 0 ==> first + |parts[0]| <= rest[0])
    ensures Places(parts, s, [first] + rest)
  {}

  lemma {:induction false} PlaceRest(parts: seq<string>, s: string, at: seq<nat>)
    requires parts != [] && Places(parts, s, at)
    ensures StartsWith(s[at[0]..], parts[0])
    ensures Places(parts[1..], s, at[1..]) && (|at| > 1 ==> at[0] + |parts[0]| <= at[1])
  {}

  /** The pattern search is complete: it succeeds exactly when the folded text starts with
      the first part and the remaining parts can be placed after it, in order and without overlap. */
  lemma {:induction false} OpenMeansPlacement(p: string, s: string)
    ensures MatchesOpen(p, s) <==> exists at: seq<nat> :: Places(Split(p, '*'), s, at) && at[0] == 0
  {
    var parts := Split(p, '*');
    SplitRebuilds(p);
    LiteralPrefix(parts[0], Starred(parts[1..]), s);
    if MatchesOpen(p, s) {
      var rest := MatchGivesPlacement(parts[1..], s, |parts[0]|);
      assert s[0..] == s;
      PlaceFirst(parts, s, 0, rest);
      assert ([0] + rest)[0] == 0;
    }
    if at: seq<nat> :| Places(parts, s, at) && at[0] == 0 {
      PlaceRest(parts, s, at);
      assert s[0..] == s;
      PlacementGivesMatch(parts[1..], s, |parts[0]|, at[1..]);
    }
  }

  // ---- and how it relates to the stored rows' LIKE

  lemma {:induction false} LikeIsWhole(p: string, s: string)
    requires NoLikeMeta(p)
    ensures Like(StarToPercent(p), s) <==> MatchesWhole(p, s)
    decreases |p|, |s|
  {
    if p != "" {
      assert StarToPercent(p)[1..] == StarToPercent(p[1..]);
      LikeIsWhole(p[1..], s);
      if s != "" {
        LikeIsWhole(p[1..], s[1..]);
        if p[0] == '*' {
          LikeIsWhole(p, s[1..]);
        }
      }
    }
  }

  lemma {:induction false} WholeIsOpen(p: string, s: string)
    ensures MatchesWhole(p, s) ==> MatchesOpen(p, s)
    ensures p != "" && p[|p| - 1] == '*' ==> (MatchesWhole(p, s) <==> MatchesOpen(p, s))
    decreases |p|, |s|
  {
    if p != "" {
      if p == "*" {
        StarTakesAll(s);
      } else {
        WholeIsOpen(p[1..], s);
        if s != "" {
          WholeIsOpen(p[1..], s[1..]);
          if p[0] == '*' {
            WholeIsOpen(p, s[1..]);
          }
        }
      }
    }
  }

  lemma {:induction false} StarTakesAll(s: string)
    ensures MatchesWhole("*", s)
  {
    if s != "" {
      StarTakesAll(s[1..]);
    }
  }

  /** A wildcard term reads the whole text, each star standing for any part of it. */
  lemma {:induction false} GlobPatternIsWhole(t: string, s: string)
    requires NoLikeMeta(t)
    ensures ILike(Pattern(t, true), s) <==> MatchesWhole(Lower(t), Lower(s))
  {
    assert Lower(StarToPercent(t)) == StarToPercent(Lower(t));
    LowerKeepsMeta(t);
    LikeIsWhole(Lower(t), Lower(s));
  }

  // ---- where the free end makes a difference

  predicate EndsInStar(p: string) {
    p != "" && p[|p| - 1] == '*'
  }

  /** A text the pattern matches whole: its own letters. */
  function Letters(p: string): (s: string)
    ensures forall i :: 0 <= i < |s| ==> s[i] in p && s[i] != '*'
  {
    if p == "" then "" else (if p[0] == '*' then [] else [p[0]]) + Letters(p[1..])
  }

  lemma {:induction false} LettersMatch(p: string)
    ensures MatchesWhole(p, Letters(p))
  {
    if p != "" {
      LettersMatch(p[1..]);
      if p[0] == '*' {
        assert Letters(p) == Letters(p[1..]);
      } else {
        assert Letters(p)[1..] == Letters(p[1..]);
      }
    }
  }

  lemma {:induction false} OpenTakesMore(p: string, s: string, more: string)
    requires MatchesOpen(p, s)
    ensures MatchesOpen(p, s + more)
    decreases |p|, |s|
  {
    if p != "" {
      assert s != "" ==> (s + more)[0] == s[0] && (s + more)[1..] == s[1..] + more;
      if p[0] == '*' {
        if MatchesOpen(p[1..], s) {
          OpenTakesMore(p[1..], s, more);
        } else {
          OpenTakesMore(p, s[1..], more);
        }
      } else {
        OpenTakesMore(p[1..], s[1..], more);
      }
    }
  }

  /** A pattern that does not end in a star fixes the last character. */
  lemma {:induction false} WholeFixesLast(p: string, s: string)
    requires p != "" && !EndsInStar(p) && MatchesWhole(p, s)
    ensures s != "" && s[|s| - 1] == p[|p| - 1]
    decreases |p|, |s|
  {
    if p[0] == '*' && MatchesWhole(p[1..], s) {
      WholeFixesLast(p[1..], s);
    } else if p[0] == '*' {
      WholeFixesLast(p, s[1..]);
    } else if |p| > 1 {
      WholeFixesLast(p[1..], s[1..]);
    } else {
      assert p[1..] == "" && s[1..] == "";
    }
  }

  /** A small letter the pattern does not end in. */
  function OtherLetter(p: string): char {
    if p != "" && p[|p| - 1] == 'a' then 'b' else 'a'
  }

  /** A text that matches from the start and not whole, for every pattern that does not end in a star. */
  function OpenOnly(p: string): string {
    Letters(p) + [OtherLetter(p)]
  }

  lemma {:induction false} OpenOnlyIsOpenOnly(p: string)
    requires !EndsInStar(p)
    ensures MatchesOpen(p, OpenOnly(p)) && !MatchesWhole(p, OpenOnly(p))
  {
    LettersMatch(p);
    WholeIsOpen(p, Letters(p));
    OpenTakesMore(p, Letters(p), [OtherLetter(p)]);
    if p != "" && MatchesWhole(p, OpenOnly(p)) {
      WholeFixesLast(p, OpenOnly(p));
    }
  }

  /** Matching from the start and matching whole are the same exactly for the patterns that end in a star. */
  lemma {:induction false} FreeEndMattersUnlessStarred(p: string)
    ensures (forall s :: MatchesWhole(p, s) <==> MatchesOpen(p, s)) <==> EndsInStar(p)
  {
    if EndsInStar(p) {
      forall s ensures MatchesWhole(p, s) <==> MatchesOpen(p, s) {
        WholeIsOpen(p, s);
      }
    } else {
      OpenOnlyIsOpenOnly(p);
    }
  }

  lemma {:induction false} LowerLetters(t: string)
    ensures Lower(Letters(Lower(t))) == Letters(Lower(t))
  {
    var p := Lower(t);
    var s := Letters(p);
    forall i | 0 <= i < |s| ensures LowerChar(s[i]) == s[i] {
      assert s[i] in p;
      var k :| 0 <= k < |p| && p[k] == s[i];
      assert p[k] == LowerChar(t[k]);
    }
  }

  lemma {:induction false} LowerOpenOnly(t: string)
    ensures Lower(OpenOnly(Lower(t))) == OpenOnly(Lower(t))
  {
    LowerLetters(t);
    var s, letters := OpenOnly(Lower(t)), Letters(Lower(t));
    forall i | 0 <= i < |s| ensures LowerChar(s[i]) == s[i] {
      if i < |letters| {
        assert LowerChar(letters[i]) == Lower(letters)[i];
      }
    }
  }

  lemma {:induction false} LowerKeepsEnd(t: string)
    ensures EndsInStar(Lower(t)) <==> EndsInStar(t)
  {}

  /** A stored row found by a wildcard term is found live as well; the two coincide exactly when the
      pattern ends in a star. */
  lemma {:induction false} SqlGlobIsLiveGlob(t: string)
    requires NoLikeMeta(t)
    ensures forall s :: ILike(Pattern(t, true), s) ==> MatchesOpen(Lower(t), Lower(s))
    ensures (forall s :: ILike(Pattern(t, true), s) <==> MatchesOpen(Lower(t), Lower(s))) <==> EndsInStar(t)
  {
    forall s
      ensures ILike(Pattern(t, true), s) ==> MatchesOpen(Lower(t), Lower(s))
      ensures EndsInStar(t) ==> (ILike(Pattern(t, true), s) <==> MatchesOpen(Lower(t), Lower(s)))
    {
      GlobPatternIsWhole(t, s);
      WholeIsOpen(Lower(t), Lower(s));
    }
    if !EndsInStar(t) {
      var s := OpenOnly(Lower(t));
      LowerKeepsEnd(t);
      OpenOnlyIsOpenOnly(Lower(t));
      LowerOpenOnly(t);
      GlobPatternIsWhole(t, s);
    }
  }

  lemma {:induction false} LowerKeepsMeta(t: string)
    requires NoLikeMeta(t)
    ensures NoLikeMeta(Lower(t))
  {}

  /** The free end is a real difference: an unanchored pattern accepts live what SQL refuses. */
  lemma {:induction false} FreeEndDiffers()
    ensures MatchesOpen(Lower("nas*x"), Lower("nas-x1")) && !ILike(Pattern("nas*x", true), "nas-x1")
  {
    assert Lower("nas*x") == "nas*x" && Lower("nas-x1") == "nas-x1";
    assert Pattern("nas*x", true) == "nas%x" && Lower("nas%x") == "nas%x";
    assert !Like("x", "1") && !Like("x", "x1") && !Like("x", "-x1") && !Like("x", "");
    assert !Like("%x", "") && !Like("%x", "1") && !Like("%x", "x1") && !Like("%x", "-x1");
    assert !Like("s%x", "s-x1") && !Like("as%x", "as-x1");
    assert MatchesOpen("x", "x1") && MatchesOpen("*x", "x1") && MatchesOpen("*x", "-x1");
    assert MatchesOpen("s*x", "s-x1") && MatchesOpen("as*x", "as-x1");
  }

  lemma {:induction false} LiteralLike(lit: string, r: string, s: string)
    requires NoLikeMeta(lit)
    ensures Like(lit + r, s) <==> StartsWith(s, lit) && Like(r, s[|lit|..])
  {
    if lit == "" {
      assert lit + r == r && s[0..] == s;
    } else {
      assert lit[0] in lit;
      assert (lit + r)[1..] == lit[1..] + r;
      if s != "" {
        LiteralLike(lit[1..], r, s[1..]);
        if |lit| <= |s| {
          assert s[1..][|lit| - 1..] == s[|lit|..];
          assert s[..|lit|] == [s[0]] + s[1..][..|lit| - 1];
          assert lit == [lit[0]] + lit[1..];
        }
      }
    }
  }

  lemma {:induction false} PercentPrefix(r: string, s: string)
    ensures Like("%" + r, s) <==> exists k :: 0 <= k <= |s| && Like(r, s[k..])
    decreases |s|
  {
    assert ("%" + r)[1..] == r && s[0..] == s;
    if s != "" {
      PercentPrefix(r, s[1..]);
      if k :| 0 <= k <= |s| && Like(r, s[k..]) {
        if k > 0 {
          assert s[1..][k - 1..] == s[k..];
        }
      }
      if k :| 0 <= k <= |s[1..]| && Like(r, s[1..][k..]) {
        assert s[1..][k..] == s[k + 1..];
      }
    }
  }

  /** `ILIKE '%t%'` is "contains", ignoring case. */
  lemma {:induction false} PlainPatternIsContains(t: string, s: string)
    requires NoLikeMeta(t)
    ensures ILike(Pattern(t, false), s) <==> Contains(Lower(s), Lower(t))
  {
    var l, h := Lower(t), Lower(s);
    LowerKeepsMeta(t);
    assert Lower("%" + t + "%") == "%" + (l + "%");
    PercentPrefix(l + "%", h);
    forall k | 0 <= k <= |h| ensures Like(l + "%", h[k..]) <==> StartsWith(h[k..], l) {
      LiteralLike(l, "%", h[k..]);
      if StartsWith(h[k..], l) {
        var rest := h[k..][|l|..];
        PercentPrefix("", rest);
        assert "%" + "" == "%";
        assert Like("", rest[|rest|..]);
      }
    }
  }

  // ---- any SQL pattern, read piece by piece

  datatype Piece = Letter(c: char) | AnyOne | AnyRun

  /** An escape character with nothing behind it. */
  predicate Dangling(p: string) {
    p != "" && if p[0] == '\\' then |p| == 1 || Dangling(p[2..]) else Dangling(p[1..])
  }

  function Pieces(p: string): seq<Piece>
    requires !Dangling(p)
  {
    if p == "" then []
    else if p[0] == '%' then [AnyRun] + Pieces(p[1..])
    else if p[0] == '_' then [AnyOne] + Pieces(p[1..])
    else if p[0] == '\\' then [Letter(p[1])] + Pieces(p[2..])
    else [Letter(p[0])] + Pieces(p[1..])
  }

  predicate Fills(x: Piece, s: string, from: nat, to: nat)
    requires from <= to <= |s|
  {
    match x
    case AnyRun => true
    case AnyOne => to == from + 1
    case Letter(c) => to == from + 1 && s[from] == c
  }

  predicate Stretch(ps: seq<Piece>, s: string, cuts: seq<nat>, i: nat)
    requires i < |ps| && |cuts| == |ps| + 1
  {
    cuts[i] <= cuts[i + 1] <= |s| && Fills(ps[i], s, cuts[i], cuts[i + 1])
  }

  /** The text falls into stretches, one for each piece, which the pieces fill. */
  predicate Divides(ps: seq<Piece>, s: string, cuts: seq<nat>) {
    && |cuts| == |ps| + 1 && cuts[0] == 0 && cuts[|ps|] == |s|
    && forall i :: 0 <= i < |ps| ==> Stretch(ps, s, cuts, i)
  }

  ghost predicate Falls(ps: seq<Piece>, s: string) {
    exists cuts :: Divides(ps, s, cuts)
  }

  function Shifted(cuts: seq<nat>, k: nat): (r: seq<nat>)
    ensures |r| == |cuts| && forall i :: 0 <= i < |cuts| ==> r[i] == cuts[i] + k
  {
    seq(|cuts|, i requires 0 <= i < |cuts| => cuts[i] + k)
  }

  lemma {:induction false} FirstStretch(x: Piece, ps: seq<Piece>, s: string, cuts: seq<nat>)
    requires Divides([x] + ps, s, cuts)
    ensures 0 <= cuts[1] <= |s| && Fills(x, s, 0, cuts[1]) && Falls(ps, s[cuts[1]..])
  {
    var all, k := [x] + ps, cuts[1];
    assert all[0] == x && Stretch(all, s, cuts, 0);
    Rising(all, s, cuts, 1);
    var rest := seq(|cuts| - 1, i requires 0 <= i < |cuts| - 1 => if cuts[i + 1] >= k then cuts[i + 1] - k else 0);
    forall i | 0 <= i < |ps| ensures Stretch(ps, s[k..], rest, i) {
      assert all[i + 1] == ps[i] && Stretch(all, s, cuts, i + 1);
    }
    assert Divides(ps, s[k..], rest);
  }

  lemma {:induction false} Rising(ps: seq<Piece>, s: string, cuts: seq<nat>, from: nat)
    requires Divides(ps, s, cuts) && from <= |ps|
    ensures forall i :: from <= i <= |ps| ==> cuts[from] <= cuts[i]
    decreases |ps| - from
  {
    if from < |ps| {
      assert Stretch(ps, s, cuts, from);
      Rising(ps, s, cuts, from + 1);
    }
  }

  lemma {:induction false} OneMoreStretch(x: Piece, ps: seq<Piece>, s: string, k: nat, rest: seq<nat>)
    requires k <= |s| && Fills(x, s, 0, k) && Divides(ps, s[k..], rest)
    ensures Falls([x] + ps, s)
  {
    var all, cuts := [x] + ps, [0] + Shifted(rest, k);
    forall i | 0 <= i < |all| ensures Stretch(all, s, cuts, i) {
      if i > 0 {
        assert all[i] == ps[i - 1] && Stretch(ps, s[k..], rest, i - 1);
      }
    }
    assert Divides(all, s, cuts);
  }

  /** The first piece takes some stretch, the others the rest. */
  lemma {:induction false} FallsByFirst(x: Piece, ps: seq<Piece>, s: string)
    ensures Falls([x] + ps, s) <==> exists k: nat :: k <= |s| && Fills(x, s, 0, k) && Falls(ps, s[k..])
  {
    if Falls([x] + ps, s) {
      var cuts :| Divides([x] + ps, s, cuts);
      FirstStretch(x, ps, s, cuts);
    }
    if k: nat :| k <= |s| && Fills(x, s, 0, k) && Falls(ps, s[k..]) {
      var rest :| Divides(ps, s[k..], rest);
      OneMoreStretch(x, ps, s, k, rest);
    }
  }

  lemma {:induction false} NothingLeft(s: string)
    ensures Falls([], s) <==> s == ""
  {
    if s == "" {
      assert Divides([], s, [0]);
    }
  }

  lemma {:induction false} RunFalls(p: string, s: string)
    requires p != "" && p[0] == '%' && !Dangling(p)
    requires forall k :: 0 <= k <= |s| ==> (Like(p[1..], s[k..]) <==> Falls(Pieces(p[1..]), s[k..]))
    ensures Like(p, s) <==> Falls(Pieces(p), s)
  {
    assert p == "%" + p[1..];
    PercentPrefix(p[1..], s);
    FallsByFirst(AnyRun, Pieces(p[1..]), s);
  }

  lemma {:induction false} OneFalls(x: Piece, ps: seq<Piece>, s: string)
    requires !x.AnyRun?
    ensures Falls([x] + ps, s) <==> s != "" && (x.Letter? ==> s[0] == x.c) && Falls(ps, s[1..])
  {
    FallsByFirst(x, ps, s);
    if s != "" && (x.Letter? ==> s[0] == x.c) {
      assert Fills(x, s, 0, 1);
    }
  }

  /** For every pattern and text, metacharacters and escapes included: SQL's LIKE holds exactly if no
      escape dangles and the text falls into stretches that the pieces of the pattern fill. */
  lemma {:induction false} LikeMeansDivision(p: string, s: string)
    ensures Like(p, s) <==> !Dangling(p) && Falls(Pieces(p), s)
    decreases |p|
  {
    if p == "" {
      NothingLeft(s);
    } else if p[0] == '%' {
      forall k | 0 <= k <= |s| {
        LikeMeansDivision(p[1..], s[k..]);
      }
      if Dangling(p) {
        assert p == "%" + p[1..];
        PercentPrefix(p[1..], s);
      } else {
        RunFalls(p, s);
      }
    } else if p[0] == '\\' {
      if |p| > 1 {
        if s != "" {
          LikeMeansDivision(p[2..], s[1..]);
        }
        if !Dangling(p) {
          OneFalls(Letter(p[1]), Pieces(p[2..]), s);
        }
      }
    } else {
      if s != "" {
        LikeMeansDivision(p[1..], s[1..]);
      }
      if !Dangling(p) {
        OneFalls(if p[0] == '_' then AnyOne else Letter(p[0]), Pieces(p[1..]), s);
      }
    }
  }
}
