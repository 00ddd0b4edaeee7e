/** The log list in pages: cursors, the query behind one page, and walking through all of them. */
module Paging {
  import opened Basics
  import opened Text
  import opened Numbers

  /** What a page is ordered by: the timestamp in microseconds, then the row's id. */
  datatype Key = Key(micros: int, id: int)

  predicate Before(a: Key, b: Key) {
    a.micros < b.micros || (a.micros == b.micros && a.id < b.id)
  }

  datatype Row<T> = Row(key: Key, body: T)

  // ---- cursors

  /** What a column of the table can hold: 64 bits each, and a moment the calendar knows. */
  predicate Storable(k: Key, instant: int -> bool) {
    I64_MIN <= k.micros <= I64_MAX && I64_MIN <= k.id <= I64_MAX && instant(k.micros)
  }

  function PrintCursor(k: Key): string {
    PrintInt(k.micros) + ":" + PrintInt(k.id)
  }

  function ParseCursor(s: string, instant: int -> bool): Option<Key> {
    match SplitOnce(s, ':')
    case None => None
    case Some((ts, id)) =>
      match ParseInt(ts, I64_MIN, I64_MAX)
      case None => None
      case Some(micros) =>
        if !instant(micros) then None
        else
          match ParseInt(id, I64_MIN, I64_MAX)
          case None => None
          case Some(n) => Some(Key(micros, n))
  }

  lemma {:induction false} CursorRoundTrip(k: Key, instant: int -> bool)
    ensures ParseCursor(PrintCursor(k), instant) == Some(k) <==> Storable(k, instant)
  {
    if Storable(k, instant) {
      ParsePrinted(k.micros, I64_MIN, I64_MAX);
      ParsePrinted(k.id, I64_MIN, I64_MAX);
      SplitOnceAt(PrintInt(k.micros), ':', PrintInt(k.id));
    }
  }

  // ---- one page

  function Below<T>(cursor: Option<Key>): Row<T> -> bool {
    (r: Row<T>) => cursor.Some? ==> Before(r.key, cursor.value)
  }

  /** `ORDER BY timestamp DESC, id DESC`. */
  function Insert<T>(x: Row<T>, s: seq<Row<T>>): seq<Row<T>> {
    if s == [] || Before(s[0].key, x.key) then [x] + s else [s[0]] + Insert(x, s[1..])
  }

  function NewestFirst<T>(s: seq<Row<T>>): seq<Row<T>> {
    if s == [] then [] else Insert(s[0], NewestFirst(s[1..]))
  }

  function Rest<T>(matching: seq<Row<T>>, cursor: Option<Key>): seq<Row<T>> {
    NewestFirst(Filter(matching, Below(cursor)))
  }

  function Take<T>(s: seq<T>, n: nat): seq<T> {
    if n <= |s| then s[..n] else s
  }

  /** The rows behind a cursor, newest first, as many as the limit allows. */
  function Page<T>(matching: seq<Row<T>>, cursor: Option<Key>, limit: nat): seq<Row<T>> {
    Take(Rest(matching, cursor), limit)
  }

  /** Between 1 and 1000, and 100 if nothing is asked for. */
  function Limit(limit: Option<int>): (k: nat)
    ensures 1 <= k <= 1000
    ensures limit.Some? && 1 <= limit.value <= 1000 ==> k == limit.value
    ensures (limit.None? ==> k == 100) && (limit.Some? && limit.value > 1000 ==> k == 1000)
  {
    var n := limit.GetOr(100);
    if n < 1 then 1 else if n > 1000 then 1000 else n
  }

  /** A text that is no cursor counts as none. */
  function CursorOf(before: Option<string>, instant: int -> bool): Option<Key> {
    match before
    case None => None
    case Some(text) => ParseCursor(text, instant)
  }

  datatype Answer<T> = Answer(rows: seq<Row<T>>, next: Option<string>)

  function LastCursor<T>(rows: seq<Row<T>>): Option<string> {
    if rows == [] then None else Some(PrintCursor(rows[|rows| - 1].key))
  }

  /** The reply to one request, for the rows the filter keeps. */
  function Reply<T>(matching: seq<Row<T>>, limit: Option<int>, before: Option<string>,
                    instant: int -> bool): Answer<T> {
    var rows := Page(matching, CursorOf(before, instant), Limit(limit));
    Answer(rows, LastCursor(rows))
  }

  method CollectRows<T>(fetched: seq<Row<T>>, cursorOf: Key -> string)
    returns (out: seq<Row<T>>, nextCursor: Option<string>)
    ensures out == fetched
    ensures nextCursor == if fetched == [] then None else Some(cursorOf(fetched[|fetched| - 1].key))
  {
    out, nextCursor := [], None;
    for i := 0 to |fetched|
      invariant out == fetched[..i]
      invariant nextCursor == if i == 0 then None else Some(cursorOf(fetched[i - 1].key))
    {
      nextCursor := Some(cursorOf(fetched[i].key));
      out := out + [fetched[i]];
    }
  }

  method GetLogs<T>(table: seq<Row<T>>, meets: Row<T> -> bool, limit: Option<int>, before: Option<string>,
                    instant: int -> bool) returns (answer: Answer<T>)
    ensures answer == Reply(Filter(table, meets), limit, before, instant)
  {
    var cursor := CursorOf(before, instant);
    var out, nextCursor := CollectRows(Page(Filter(table, meets), cursor, Limit(limit)), PrintCursor);
    answer := Answer(out, nextCursor);
  }

  // ---- order

  predicate Descending<T>(s: seq<Row<T>>) {
    forall i, j :: 0 <= i < j < |s| ==> Before(s[j].key, s[i].key)
  }

  predicate DistinctKeys<T>(s: seq<Row<T>>) {
    forall i, j :: 0 <= i < j < |s| ==> s[i].key != s[j].key
  }

  lemma {:induction false} InsertKeeps<T>(x: Row<T>, s: seq<Row<T>>)
    ensures multiset(Insert(x, s)) == multiset(s) + multiset{x}
  {
    if s == [] || Before(s[0].key, x.key) {
      assert [x] + s == [x] + s[0..];
    } else {
      InsertKeeps(x, s[1..]);
      assert s == [s[0]] + s[1..];
    }
  }

  lemma {:induction false} SortKeeps<T>(s: seq<Row<T>>)
    ensures multiset(NewestFirst(s)) == multiset(s)
  {
    if s != [] {
      SortKeeps(s[1..]);
      InsertKeeps(s[0], NewestFirst(s[1..]));
      assert s == [s[0]] + s[1..];
    }
  }

  lemma {:induction false} SameMembers<T>(a: seq<Row<T>>, b: seq<Row<T>>, x: Row<T>)
    requires multiset(a) == multiset(b)
    ensures x in a <==> x in b
  {
    assert x in a <==> x in multiset(a);
    assert x in b <==> x in multiset(b);
  }

  lemma {:induction false} InsertDescending<T>(x: Row<T>, s: seq<Row<T>>)
    requires Descending(s) && forall y :: y in s ==> y.key != x.key
    ensures Descending(Insert(x, s))
  {
    if s == [] {
    } else if Before(s[0].key, x.key) {
      var t := [x] + s;
      forall j | 0 < j < |t| ensures Before(t[j].key, x.key) {
        assert t[j] == s[j - 1];
      }
    } else {
      var t := Insert(x, s[1..]);
      InsertDescending(x, s[1..]);
      InsertKeeps(x, s[1..]);
      forall j | 0 <= j < |t| ensures Before(t[j].key, s[0].key) {
        assert t[j] in multiset(s[1..]) + multiset{x};
        assert t[j] == x || t[j] in s[1..];
      }
    }
  }

  lemma {:induction false} SortDescends<T>(s: seq<Row<T>>)
    requires DistinctKeys(s)
    ensures Descending(NewestFirst(s))
  {
    if s != [] {
      var t := NewestFirst(s[1..]);
      SortDescends(s[1..]);
      SortKeeps(s[1..]);
      forall y | y in t ensures y.key != s[0].key {
        SameMembers(t, s[1..], y);
        var i :| 0 <= i < |s[1..]| && s[1..][i] == y;
        assert s[i + 1] == y;
      }
      InsertDescending(s[0], t);
    }
  }

  lemma {:induction false} FilterDistinct<T>(s: seq<Row<T>>, p: Row<T> -> bool)
    requires DistinctKeys(s)
    ensures DistinctKeys(Filter(s, p))
  {
    if s != [] {
      var rest := Filter(s[1..], p);
      FilterDistinct(s[1..], p);
      forall i | 0 <= i < |rest| ensures rest[i].key != s[0].key {
        FilterMember(s[1..], p, rest[i]);
        assert rest[i] in s[1..];
      }
    }
  }

  /** Filtering and sorting can change places. */
  lemma {:induction false} SortFiltered<T>(s: seq<Row<T>>, p: Row<T> -> bool)
    requires DistinctKeys(s)
    ensures NewestFirst(Filter(s, p)) == Filter(NewestFirst(s), p)
  {
    if s != [] {
      var x, t := s[0], NewestFirst(s[1..]);
      SortFiltered(s[1..], p);
      SortDescends(s[1..]);
      InsertFiltered(x, t, p);
      if p(x) {
        assert Filter(s, p) == [x] + Filter(s[1..], p);
      } else {
        assert Filter(s, p) == Filter(s[1..], p);
      }
    }
  }

  lemma {:induction false} FilterHead<T>(x: T, s: seq<T>, p: T -> bool)
    ensures Filter([x] + s, p) == if p(x) then [x] + Filter(s, p) else Filter(s, p)
  {}

  lemma {:induction false} FilterOrdered<T>(x: Row<T>, s: seq<Row<T>>, p: Row<T> -> bool)
    requires Descending(s) && (s == [] || Before(s[0].key, x.key))
    ensures Insert(x, Filter(s, p)) == [x] + Filter(s, p)
  {
    var kept := Filter(s, p);
    if kept != [] {
      FilterMember(s, p, kept[0]);
      assert Before(kept[0].key, x.key);
    }
  }

  lemma {:induction false} InsertFiltered<T>(x: Row<T>, s: seq<Row<T>>, p: Row<T> -> bool)
    requires Descending(s)
    ensures Filter(Insert(x, s), p) == if p(x) then Insert(x, Filter(s, p)) else Filter(s, p)
  {
    if s == [] || Before(s[0].key, x.key) {
      FilterHead(x, s, p);
      FilterOrdered(x, s, p);
    } else {
      var rest := s[1..];
      InsertFiltered(x, rest, p);
      FilterHead(s[0], Insert(x, rest), p);
      var kept := Filter(rest, p);
      assert s == [s[0]] + rest;
      FilterHead(s[0], rest, p);
      assert ([s[0]] + kept)[1..] == kept;
    }
  }

  lemma {:induction false} FilterAll<T>(s: seq<T>, p: T -> bool)
    requires forall x :: x in s ==> p(x)
    ensures Filter(s, p) == s
  {
    if s != [] {
      assert s[0] in s;
      FilterAll(s[1..], p);
      assert s == [s[0]] + s[1..];
    }
  }

  // ---- from page to page

  /** The cursor of the `k`th row cuts the ordered rows right behind it. */
  lemma {:induction false} CutBehind<T>(s: seq<Row<T>>, k: nat)
    requires Descending(s) && 0 < k <= |s|
    ensures Filter(s, Below(Some(s[k - 1].key))) == s[k..]
  {
    var p := Below(Some(s[k - 1].key));
    assert s == s[..k] + s[k..];
    FilterAppend(s[..k], s[k..], p);
    forall x | x in s[..k] ensures !p(x) {
      var i :| 0 <= i < k && s[i] == x;
    }
    FilterNone(s[..k], p);
    FilterAll(s[k..], p);
  }

  predicate AllStorable<T>(s: seq<Row<T>>, instant: int -> bool) {
    forall i :: 0 <= i < |s| ==> Storable(s[i].key, instant)
  }

  lemma {:induction false} RestOrdered<T>(matching: seq<Row<T>>, cursor: Option<Key>)
    requires DistinctKeys(matching)
    ensures Descending(NewestFirst(matching)) && Descending(Rest(matching, cursor))
    ensures Rest(matching, cursor) == Filter(NewestFirst(matching), Below(cursor))
  {
    SortDescends(matching);
    FilterDistinct(matching, Below(cursor));
    SortDescends(Filter(matching, Below(cursor)));
    SortFiltered(matching, Below(cursor));
  }

  lemma {:induction false} RestOfAll<T>(matching: seq<Row<T>>)
    ensures Rest(matching, None) == NewestFirst(matching)
  {
    FilterAll(matching, Below<T>(None));
  }

  lemma {:induction false} OrderedStorable<T>(matching: seq<Row<T>>, instant: int -> bool)
    requires AllStorable(matching, instant)
    ensures AllStorable(NewestFirst(matching), instant)
  {
    var all := NewestFirst(matching);
    SortKeeps(matching);
    forall i | 0 <= i < |all| ensures Storable(all[i].key, instant) {
      SameMembers(all, matching, all[i]);
    }
  }

  // ---- what is on a page, in numbers

  lemma {:induction false} RestMembers<T>(matching: seq<Row<T>>, cursor: Option<Key>, r: Row<T>)
    ensures r in Rest(matching, cursor) <==> r in matching && (cursor.Some? ==> Before(r.key, cursor.value))
  {
    var kept := Filter(matching, Below(cursor));
    SortKeeps(kept);
    SameMembers(NewestFirst(kept), kept, r);
    FilterMember(matching, Below(cursor), r);
  }

  lemma {:induction false} TakeHas<T>(s: seq<T>, k: nat, i: nat)
    requires i < |s|
    ensures i < k ==> s[i] in Take(s, k)
  {
    if i < k {
      assert Take(s, k)[i] == s[i];
    }
  }

  lemma {:induction false} TakenFirst<T>(rest: seq<Row<T>>, k: nat, m: Row<T>)
    requires Descending(rest) && m in rest && m !in Take(rest, k)
    ensures |Take(rest, k)| == k && forall r :: r in Take(rest, k) ==> Before(m.key, r.key)
  {
    var i :| 0 <= i < |rest| && rest[i] == m;
    TakeHas(rest, k, i);
    forall r | r in Take(rest, k) ensures Before(m.key, r.key) {
      var h :| 0 <= h < k && rest[h] == r;
    }
  }

  /** On a page in numbers: later rows come first, by time and then by id. */
  lemma {:induction false} LatestFirst<T>(matching: seq<Row<T>>, limit: Option<int>, before: Option<string>,
                                          instant: int -> bool)
    requires DistinctKeys(matching)
    ensures var rows := Reply(matching, limit, before, instant).rows;
            forall i, j :: 0 <= i < j < |rows| ==>
              rows[i].key.micros > rows[j].key.micros
              || (rows[i].key.micros == rows[j].key.micros && rows[i].key.id > rows[j].key.id)
  {
    RestOrdered(matching, CursorOf(before, instant));
    hide Rest, CursorOf, NewestFirst, DistinctKeys;
  }

  /** They are rows that match, and earlier than the cursor, if there is one. */
  lemma {:induction false} EarlierThanCursor<T>(matching: seq<Row<T>>, limit: Option<int>, before: Option<string>,
                                                instant: int -> bool, r: Row<T>)
    requires r in Reply(matching, limit, before, instant).rows
    ensures r in matching
    ensures var c := CursorOf(before, instant);
            c.Some? ==> r.key.micros < c.value.micros || (r.key.micros == c.value.micros && r.key.id < c.value.id)
  {
    RestMembers(matching, CursorOf(before, instant), r);
    hide Rest, CursorOf;
  }

  /** And what matches, is earlier than the cursor and is not on the page is earlier than everything on it;
      the page then is full. */
  lemma {:induction false} OthersAreEarlier<T>(matching: seq<Row<T>>, limit: Option<int>, before: Option<string>,
                                               instant: int -> bool, m: Row<T>)
    requires DistinctKeys(matching) && m in matching && m !in Reply(matching, limit, before, instant).rows
    requires var c := CursorOf(before, instant);
             c.Some? ==> m.key.micros < c.value.micros || (m.key.micros == c.value.micros && m.key.id < c.value.id)
    ensures |Reply(matching, limit, before, instant).rows| == Limit(limit)
    ensures forall r :: r in Reply(matching, limit, before, instant).rows ==>
              m.key.micros < r.key.micros || (m.key.micros == r.key.micros && m.key.id < r.key.id)
  {
    var cursor := CursorOf(before, instant);
    RestMembers(matching, cursor, m);
    RestOrdered(matching, cursor);
    TakenFirst(Rest(matching, cursor), Limit(limit), m);
    hide Rest, CursorOf, Limit, NewestFirst, Descending, DistinctKeys;
  }

  /** Where a page ends that begins at `from`. */
  function End(from: nat, limit: nat, length: nat): nat {
    if from + limit <= length then from + limit else length
  }

  /** The cursor in `before` has exactly the first `from` matching rows in front of it. */
  ghost predicate Skips<T>(matching: seq<Row<T>>, before: Option<string>, instant: int -> bool, from: nat) {
    from <= |NewestFirst(matching)| && Rest(matching, CursorOf(before, instant)) == NewestFirst(matching)[from..]
  }

  lemma {:induction false} PageRows<T>(all: seq<Row<T>>, from: nat, limit: nat)
    requires from <= |all|
    ensures Take(all[from..], limit) == all[from..End(from, limit, |all|)]
  {}

  lemma {:induction false} LastOfPage<T>(all: seq<Row<T>>, from: nat, to: nat)
    requires from < to <= |all|
    ensures LastCursor(all[from..to]) == Some(PrintCursor(all[to - 1].key))
  {}

  /** A cursor printed from the last row of a page skips all rows up to there. */
  lemma {:induction false} CursorSkips<T>(matching: seq<Row<T>>, instant: int -> bool, to: nat)
    requires DistinctKeys(matching) && AllStorable(matching, instant) && 0 < to <= |NewestFirst(matching)|
    ensures Skips(matching, Some(PrintCursor(NewestFirst(matching)[to - 1].key)), instant, to)
  {
    var all := NewestFirst(matching);
    var key := all[to - 1].key;
    OrderedStorable(matching, instant);
    CursorRoundTrip(key, instant);
    RestOrdered(matching, Some(key));
    CutBehind(all, to);
  }

  /** One page: the rows from `from` on, and a cursor that skips up to its end. */
  lemma {:induction false} PageStep<T>(matching: seq<Row<T>>, limit: Option<int>, before: Option<string>,
                                       instant: int -> bool, from: nat)
    requires DistinctKeys(matching) && AllStorable(matching, instant) && Skips(matching, before, instant, from)
    ensures var all, reply := NewestFirst(matching), Reply(matching, limit, before, instant);
            var to := End(from, Limit(limit), |all|);
            && reply.rows == all[from..to]
            && (reply.next.None? <==> from == |all|)
            && (from < |all| ==> Skips(matching, reply.next, instant, to))
  {
    var all := NewestFirst(matching);
    var to := End(from, Limit(limit), |all|);
    PageRows(all, from, Limit(limit));
    if from < |all| {
      LastOfPage(all, from, to);
      CursorSkips(matching, instant, to);
    }
  }

  // ---- the whole walk

  lemma {:induction false} FilterFewer<T>(s: seq<T>, p: T -> bool, q: T -> bool, x: T)
    requires (forall y :: y in s && q(y) ==> p(y)) && x in s && p(x) && !q(x)
    ensures |Filter(s, q)| < |Filter(s, p)|
  {
    if s[0] == x {
      FilterNoMore(s[1..], p, q);
    } else {
      FilterFewer(s[1..], p, q, x);
    }
  }

  lemma {:induction false} FilterNoMore<T>(s: seq<T>, p: T -> bool, q: T -> bool)
    requires forall y :: y in s && q(y) ==> p(y)
    ensures |Filter(s, q)| <= |Filter(s, p)|
  {
    if s != [] {
      assert s[0] in s;
      FilterNoMore(s[1..], p, q);
    }
  }

  lemma {:induction false} LastOfTaken<T>(kept: seq<Row<T>>, k: nat)
    requires Take(NewestFirst(kept), k) != []
    ensures var page := Take(NewestFirst(kept), k);
            page[|page| - 1] in kept
  {
    var page := Take(NewestFirst(kept), k);
    SortKeeps(kept);
    assert page[|page| - 1] in NewestFirst(kept);
    SameMembers(NewestFirst(kept), kept, page[|page| - 1]);
  }

  lemma {:induction false} FewerBelow<T>(matching: seq<Row<T>>, c: Option<Key>, last: Row<T>)
    requires last in Filter(matching, Below(c))
    ensures |Filter(matching, Below(Some(last.key)))| < |Filter(matching, Below(c))|
  {
    FilterMember(matching, Below(c), last);
    FilterFewer(matching, Below(c), Below(Some(last.key)), last);
  }

  lemma {:induction false} LastCursorReads<T>(rows: seq<Row<T>>, instant: int -> bool)
    requires rows != [] && Storable(rows[|rows| - 1].key, instant)
    ensures CursorOf(LastCursor(rows), instant) == Some(rows[|rows| - 1].key)
  {
    CursorRoundTrip(rows[|rows| - 1].key, instant);
  }

  /** Every page that is not empty leaves fewer rows to come, whatever the keys. */
  lemma {:induction false} WalkShrinks<T>(matching: seq<Row<T>>, limit: Option<int>, before: Option<string>,
                                          instant: int -> bool)
    requires AllStorable(matching, instant)
    requires Reply(matching, limit, before, instant).rows != []
    ensures var next := Reply(matching, limit, before, instant).next;
            |Filter(matching, Below(CursorOf(next, instant)))| < |Filter(matching, Below(CursorOf(before, instant)))|
  {
    var c, rows := CursorOf(before, instant), Reply(matching, limit, before, instant).rows;
    var last := rows[|rows| - 1];
    LastOfTaken(Filter(matching, Below(c)), Limit(limit));
    FilterMember(matching, Below(c), last);
    LastCursorReads(rows, instant);
    FewerBelow(matching, c, last);
  }

  /** Asking for page after page with the cursor of the last, until a page comes back empty. */
  function Walk<T>(matching: seq<Row<T>>, limit: Option<int>, before: Option<string>, instant: int -> bool)
    : seq<Row<T>>
    requires AllStorable(matching, instant)
    decreases |Filter(matching, Below(CursorOf(before, instant)))|
  {
    var reply := Reply(matching, limit, before, instant);
    if reply.rows == [] then []
    else
      WalkShrinks(matching, limit, before, instant);
      reply.rows + Walk(matching, limit, reply.next, instant)
  }

  lemma {:induction false} Rejoin<T>(s: seq<T>, from: nat, to: nat)
    requires from <= to <= |s|
    ensures s[from..to] + s[to..] == s[from..]
  {}

  lemma {:induction false} WalkFrom<T>(matching: seq<Row<T>>, limit: Option<int>, before: Option<string>,
                                       instant: int -> bool, from: nat)
    requires DistinctKeys(matching) && AllStorable(matching, instant) && Skips(matching, before, instant, from)
    ensures Walk(matching, limit, before, instant) == NewestFirst(matching)[from..]
    decreases |NewestFirst(matching)| - from
  {
    var all, reply := NewestFirst(matching), Reply(matching, limit, before, instant);
    PageStep(matching, limit, before, instant, from);
    if from < |all| {
      var to := End(from, Limit(limit), |all|);
      WalkFrom(matching, limit, reply.next, instant, to);
      Rejoin(all, from, to);
    }
  }

  /** Following the cursors visits every matching row exactly once, in strictly descending order. */
  lemma {:induction false} WalkVisitsAll<T>(matching: seq<Row<T>>, limit: Option<int>, instant: int -> bool)
    requires DistinctKeys(matching) && AllStorable(matching, instant)
    ensures var walked := Walk(matching, limit, None, instant);
            multiset(walked) == multiset(matching) && Descending(walked)
  {
    RestOfAll(matching);
    var all := NewestFirst(matching);
    assert all[0..] == all;
    WalkFrom(matching, limit, None, instant, 0);
    SortKeeps(matching);
    SortDescends(matching);
  }

  // ---- turning pages

  datatype Fetched<T> = Loaded(answer: Answer<T>) | Failed

  /** The list on the screen: the cursors of the pages down to the current one, the first without a
      cursor; the rows shown; and the cursor of the page behind. */
  class LogsView<T> {
    var stack: seq<Option<string>>
    var nextCursor: Option<string>
    var rows: seq<Row<T>>

    constructor ()
      ensures stack == [None] && nextCursor == None && rows == []
    {
      stack, nextCursor, rows := [None], None, [];
    }

    method LoadPage(reply: Fetched<T>)
      modifies this`nextCursor, this`rows
      ensures rows == (if reply.Loaded? then reply.answer.rows else [])
      ensures nextCursor == if reply.Loaded? then reply.answer.next else None
    {
      match reply
      case Loaded(answer) => rows, nextCursor := answer.rows, answer.next;
      case Failed => rows, nextCursor := [], None;
    }

    /** Back to the first page, as after every change of the query. */
    method Open(server: Option<string> -> Fetched<T>)
      modifies this
      ensures stack == [None] && Valid(server)
    {
      stack := [None];
      LoadPage(server(None));
    }

    method GoNext(server: Option<string> -> Fetched<T>)
      requires stack != []
      modifies this
      ensures old(nextCursor).None? ==> stack == old(stack) && rows == old(rows) && nextCursor == old(nextCursor)
      ensures old(nextCursor).Some? ==> stack == old(stack) + [old(nextCursor)] && Shows(server)
    {
      if nextCursor == None { return; }
      stack := stack + [nextCursor];
      LoadPage(server(stack[|stack| - 1]));
    }

    method GoPrev(server: Option<string> -> Fetched<T>)
      requires stack != []
      modifies this
      ensures |old(stack)| == 1 ==> stack == old(stack) && rows == old(rows) && nextCursor == old(nextCursor)
      ensures |old(stack)| > 1 ==> stack == old(stack)[..|old(stack)| - 1] && Shows(server)
    {
      if |stack| <= 1 { return; }
      stack := stack[..|stack| - 1];
      LoadPage(server(stack[|stack| - 1]));
    }

    method RefreshPage(server: Option<string> -> Fetched<T>)
      requires stack != []
      modifies this`nextCursor, this`rows
      ensures Shows(server)
    {
      LoadPage(server(stack[|stack| - 1]));
    }

    /** What is shown is the server's answer for the cursor on top. */
    ghost predicate Shows(server: Option<string> -> Fetched<T>)
      reads this
    {
      stack != []
      && match server(stack[|stack| - 1])
         case Loaded(answer) => rows == answer.rows && nextCursor == answer.next
         case Failed => rows == [] && nextCursor == None
    }

    /** The stack was built by following cursors from the first page on. */
    ghost predicate Valid(server: Option<string> -> Fetched<T>)
      reads this
    {
      Shows(server) && Followed(stack, server)
    }

    /** Turning pages over an unchanging log. */
    method Turn(server: Option<string> -> Fetched<T>, forward: bool)
      requires Valid(server)
      modifies this
      ensures Valid(server) && Followed(stack, server)
      ensures stack == if forward && old(nextCursor).Some? then old(stack) + [old(nextCursor)]
                       else if !forward && |old(stack)| > 1 then old(stack)[..|old(stack)| - 1]
                       else old(stack)
    {
      if forward {
        GoNext(server);
      } else {
        GoPrev(server);
      }
    }

    /** Next and then previous leads back to the same page, with the same rows on it. */
    method NextThenPrevious(server: Option<string> -> Fetched<T>)
      requires Valid(server)
      modifies this
      ensures old(nextCursor).Some? ==> stack == old(stack) && rows == old(rows) && nextCursor == old(nextCursor)
    {
      ghost var started := nextCursor.Some?;
      Turn(server, true);
      if started {
        assert stack[..|stack| - 1] == old(stack);
      }
      Turn(server, false);
    }
  }

  predicate Followed<T>(stack: seq<Option<string>>, server: Option<string> -> Fetched<T>) {
    stack != []
    && if |stack| == 1 then stack[0] == None
       else
         var top, below := stack[|stack| - 1], server(stack[|stack| - 2]);
         top.Some? && below.Loaded? && below.answer.next == top && Followed(stack[..|stack| - 1], server)
  }

  /** The server over an unchanging table. */
  function Unchanging<T>(matching: seq<Row<T>>, limit: Option<int>, instant: int -> bool)
    : Option<string> -> Fetched<T>
  {
    before => Loaded(Reply(matching, limit, before, instant))
  }

  /** The rows on `n` full pages. */
  function RowsOn(n: nat, k: nat): nat {
    n * k
  }

  /** The elements of `s` behind the first `n` pages, as many as fit on one. */
  function PageOf<T>(s: seq<T>, n: nat, k: nat): seq<T> {
    Take(s[End(0, RowsOn(n, k), |s|)..], k)
  }

  lemma {:induction false} EndOfEnd(n: nat, k: nat, length: nat)
    ensures End(End(0, RowsOn(n, k), length), k, length) == End(0, RowsOn(n + 1, k), length)
  {}

  lemma {:induction false} FollowedFirst<T>(stack: seq<Option<string>>, server: Option<string> -> Fetched<T>)
    requires Followed(stack, server) && |stack| == 1
    ensures stack[0] == None
  {}

  lemma {:induction false} FollowedNext<T>(matching: seq<Row<T>>, limit: Option<int>, instant: int -> bool,
                                           stack: seq<Option<string>>, n: nat)
    requires n > 0 && |stack| == n + 1 && Followed(stack, Unchanging(matching, limit, instant))
    ensures Followed(stack[..n], Unchanging(matching, limit, instant))
    ensures stack[n].Some? && Reply(matching, limit, stack[n - 1], instant).next == stack[n]
  {
    hide Reply;
  }

  lemma {:induction false} SkipsNone<T>(matching: seq<Row<T>>, limit: Option<int>, instant: int -> bool)
    requires DistinctKeys(matching) && AllStorable(matching, instant)
    ensures Skips(matching, None, instant, End(0, RowsOn(0, Limit(limit)), |NewestFirst(matching)|))
  {
    RestOfAll(matching);
    assert NewestFirst(matching)[0..] == NewestFirst(matching);
  }

  /** A cursor reached by following `n` times skips `n` pages. */
  lemma {:induction false} FollowedSkips<T>(matching: seq<Row<T>>, limit: Option<int>, instant: int -> bool,
                                            stack: seq<Option<string>>, n: nat)
    requires DistinctKeys(matching) && AllStorable(matching, instant) && |stack| == n + 1
    requires Followed(stack, Unchanging(matching, limit, instant))
    ensures Skips(matching, stack[n], instant, End(0, RowsOn(n, Limit(limit)), |NewestFirst(matching)|))
  {
    hide *;
    if n == 0 {
      FollowedFirst(stack, Unchanging(matching, limit, instant));
      SkipsNone(matching, limit, instant);
    } else {
      FollowedNext(matching, limit, instant, stack, n);
      FollowedSkips(matching, limit, instant, stack[..n], n - 1);
      NextSkips(matching, limit, instant, stack[n - 1], stack[n], n - 1);
    }
  }

  lemma {:induction false} NextSkips<T>(matching: seq<Row<T>>, limit: Option<int>, instant: int -> bool,
                                        before: Option<string>, next: Option<string>, n: nat)
    requires DistinctKeys(matching) && AllStorable(matching, instant)
    requires Skips(matching, before, instant, End(0, RowsOn(n, Limit(limit)), |NewestFirst(matching)|))
    requires next.Some? && Reply(matching, limit, before, instant).next == next
    ensures Skips(matching, next, instant, End(0, RowsOn(n + 1, Limit(limit)), |NewestFirst(matching)|))
  {
    var length := |NewestFirst(matching)|;
    PageStep(matching, limit, before, instant, End(0, RowsOn(n, Limit(limit)), length));
    EndOfEnd(n, Limit(limit), length);
  }

  /** On page `n + 1`, reached by any turning of pages, stand the matching rows from `n * limit` on, up
      to `(n + 1) * limit` of the ordered log, as far as there are any: the two numbers the footer
      shows. */
  lemma {:induction false} PageShowsItsRows<T>(matching: seq<Row<T>>, limit: Option<int>, instant: int -> bool,
                                               stack: seq<Option<string>>, n: nat)
    requires DistinctKeys(matching) && AllStorable(matching, instant) && |stack| == n + 1
    requires Followed(stack, Unchanging(matching, limit, instant))
    ensures Reply(matching, limit, stack[n], instant).rows
            == PageOf(NewestFirst(matching), n, Limit(limit))
  {
    var all, k := NewestFirst(matching), Limit(limit);
    FollowedSkips(matching, limit, instant, stack, n);
    PageStep(matching, limit, stack[n], instant, End(0, RowsOn(n, k), |all|));
    PageRows(all, End(0, RowsOn(n, k), |all|), k);
  }
}
