/** Column widths in whole pixels: what each column gets of the window, and how they grow. */
module Columns {
  import opened Basics
  import opened Numbers

  const MIN_COLUMN := 48
  const MAX_COLUMN_FALLBACK := 240

  /** The keys the bounds name, and any other. */
  datatype ColumnKey =
    | Time | Type | Action | Source | Destination | Country | Asn | Network | Proto | Service | RuleInfo
    | AbuseIpDb | Categories | Other(name: string)

  const FULL_WIDTH_COLUMN := Categories

  /** `COLUMN_MAX`. */
  function UpperBound(key: ColumnKey): int {
    match key
    case Time => 76
    case Type => 92
    case Action => 80
    case Source => 172
    case Destination => 172
    case Country => 72
    case Asn => 176
    case Network => 264
    case Proto => 60
    case Service => 96
    case RuleInfo => 200
    case AbuseIpDb => 108
    case Categories => 420
    case Other(_) => MAX_COLUMN_FALLBACK
  }

  /** `COLUMN_MIN`. */
  function LowerBound(key: ColumnKey): int {
    match key
    case Source => 150
    case Destination => 150
    case Asn => 120
    case Network => 150
    case RuleInfo => 130
    case Categories => 160
    case _ => MIN_COLUMN
  }

  /** What a column counts for in the window: the last one no more than its bound. */
  function RoomShare(key: ColumnKey, px: int): int {
    if key == FULL_WIDTH_COLUMN then Min(px, UpperBound(key)) else px
  }

  /** The last column counts for no more than its 420 pixels, any other for what it is wide. */
  lemma {:induction false} CountsFor(key: ColumnKey, px: int)
    ensures key == Categories && px > 420 ==> RoomShare(key, px) == 420
    ensures key != Categories || px <= 420 ==> RoomShare(key, px) == px
  {}

  // ---- dividing what is free

  function SumTo(s: seq<int>, n: nat): int
    requires n <= |s|
  {
    if n == 0 then 0 else SumTo(s, n - 1) + s[n - 1]
  }

  function Sum(s: seq<int>): int {
    SumTo(s, |s|)
  }

  function PositiveTo(s: seq<int>, n: nat): nat
    requires n <= |s|
  {
    if n == 0 then 0 else PositiveTo(s, n - 1) + if s[n - 1] > 0 then 1 else 0
  }

  lemma {:induction false} PositiveCounts(s: seq<int>, n: nat)
    requires n <= |s|
    ensures PositiveTo(s, n) == |set i | 0 <= i < n && s[i] > 0|
  {
    if n > 0 {
      PositiveCounts(s, n - 1);
      var before, all := set i | 0 <= i < n - 1 && s[i] > 0, set i | 0 <= i < n && s[i] > 0;
      assert all == before + (if s[n - 1] > 0 then {n - 1} else {});
    }
  }

  /** In proportion, rounded down, and no more than is asked for. */
  function Share(slack: nat, need: nat, wanted: nat): nat
    requires wanted > 0
  {
    Min(need, slack * need / wanted)
  }

  predicate Needs(need: seq<int>) {
    forall i :: 0 <= i < |need| ==> need[i] >= 0
  }

  function Shares(slack: nat, need: seq<int>): (r: seq<int>)
    requires Needs(need) && Sum(need) > 0
    ensures |r| == |need|
  {
    seq(|need|, i requires 0 <= i < |need| => Share(slack, need[i], Sum(need)))
  }

  lemma {:induction false} Quotient(a: nat, b: nat)
    requires b > 0
    ensures a / b * b <= a < (a / b + 1) * b
  {}

  lemma {:induction false} Product(a: int, b: int, m: nat)
    requires a <= b
    ensures a * m <= b * m
  {}

  /** With too little to go round, nobody is given all, and what is given is the rounded share. */
  lemma {:induction false} SmallShare(slack: nat, need: nat, wanted: nat)
    requires slack < wanted
    ensures Share(slack, need, wanted) == slack * need / wanted
  {}

  lemma {:induction false} FullShare(slack: nat, need: nat, wanted: nat)
    requires slack >= wanted > 0
    ensures Share(slack, need, wanted) == need
  {
    Quotient(slack * need, wanted);
    Product(wanted, slack, need);
    Cancel(need, slack * need / wanted + 1, wanted);
  }

  lemma {:induction false} SumIsMonotone(need: seq<int>, n: nat)
    requires Needs(need) && n <= |need|
    ensures 0 <= SumTo(need, n)
  {
    if n > 0 {
      SumIsMonotone(need, n - 1);
    }
  }

  lemma {:induction false} StepUp(s: int, q: int, m: int, slack: int, t: int, d: int)
    ensures (s + q) * m == s * m + q * m && slack * (t + d) == slack * t + slack * d
  {}

  /** What the first `n` are given, times the total need, stays within the slack times their need, and
      falls short of it by less than one total need for each of them. */
  lemma {:induction false} SharesBelow(slack: nat, need: seq<int>, n: nat)
    requires Needs(need) && Sum(need) > slack && n <= |need|
    ensures var m, s, c := Sum(need), SumTo(Shares(slack, need), n), PositiveTo(need, n);
            && s * m <= slack * SumTo(need, n) <= (s + c) * m
            && (c > 0 ==> slack * SumTo(need, n) < (s + c) * m)
  {
    if n > 0 {
      var m, d := Sum(need), need[n - 1];
      SharesBelow(slack, need, n - 1);
      SmallShare(slack, d, m);
      Quotient(slack * d, m);
      var s, t, c := SumTo(Shares(slack, need), n - 1), SumTo(need, n - 1), PositiveTo(need, n - 1);
      var q := Share(slack, d, m);
      StepUp(s, q, m, slack, t, d);
      if d > 0 {
        StepUp(s + c, q + 1, m, slack, t, d);
        assert s + q + (c + 1) == (s + c) + (q + 1);
      } else {
        StepUp(s + c, q, m, slack, t, d);
        assert s + q + c == (s + c) + q;
      }
    }
  }

  lemma {:induction false} SomePositive(need: seq<int>, n: nat)
    requires n <= |need| && SumTo(need, n) > 0
    ensures PositiveTo(need, n) > 0
  {
    if need[n - 1] <= 0 {
      SomePositive(need, n - 1);
    }
  }

  lemma {:induction false} LittleSlack(slack: nat, need: seq<int>)
    requires Needs(need) && slack < Sum(need)
    ensures Sum(Shares(slack, need)) <= slack < Sum(Shares(slack, need)) + PositiveTo(need, |need|)
  {
    var given := Sum(Shares(slack, need));
    SharesBelow(slack, need, |need|);
    SomePositive(need, |need|);
    Cancel(given, slack, Sum(need));
    Cancel(slack, given + PositiveTo(need, |need|), Sum(need));
  }

  lemma {:induction false} MuchSlack(slack: nat, need: seq<int>)
    requires Needs(need) && slack >= Sum(need) > 0
    ensures Shares(slack, need) == need
  {
    forall i | 0 <= i < |need| ensures Shares(slack, need)[i] == need[i] {
      FullShare(slack, need[i], Sum(need));
    }
  }

  /** No more is handed out than is free; everybody gets all if there is enough for that; and
      otherwise fewer pixels are left over than there are columns that asked. */
  lemma {:induction false} DividingTheSlack(slack: nat, need: seq<int>)
    requires Needs(need) && Sum(need) > 0
    ensures var shares := Shares(slack, need);
            && Sum(shares) <= slack
            && (forall i :: 0 <= i < |need| ==> 0 <= shares[i] <= need[i])
            && (slack >= Sum(need) ==> shares == need)
            && (slack < Sum(need) ==> slack - Sum(shares) < PositiveTo(need, |need|))
  {
    if slack < Sum(need) {
      LittleSlack(slack, need);
    } else {
      MuchSlack(slack, need);
    }
  }

  // ---- fitting

  /** What was measured of a column: its key, the width its content wants, and that of its heading. */
  datatype Column = Column(key: ColumnKey, want: int, heading: int)

  function Base(c: Column): int {
    var cap := Max(UpperBound(c.key), c.heading);
    var min := Min(cap, Max(LowerBound(c.key), c.heading));
    if c.key == FULL_WIDTH_COLUMN then Max(Max(LowerBound(c.key), c.heading), c.want)
    else Min(cap, Max(min, c.want))
  }

  /** What was cut off; nothing ever is of the last column. */
  function Deficit(c: Column, px: int): nat {
    if c.key != FULL_WIDTH_COLUMN && c.want > px then c.want - px else 0
  }

  function Bases(cols: seq<Column>): (r: seq<int>)
    ensures |r| == |cols|
  {
    seq(|cols|, i requires 0 <= i < |cols| => Base(cols[i]))
  }

  function Deficits(cols: seq<Column>): (r: seq<int>)
    ensures |r| == |cols|
  {
    seq(|cols|, i requires 0 <= i < |cols| => Deficit(cols[i], Base(cols[i])))
  }

  /** What each column counts for in the window. */
  function Counted(cols: seq<Column>, px: seq<int>): (r: seq<int>)
    requires |px| == |cols|
    ensures |r| == |cols|
  {
    seq(|cols|, i requires 0 <= i < |cols| => RoomShare(cols[i].key, px[i]))
  }

  function Plus(a: seq<int>, b: seq<int>): (r: seq<int>)
    requires |a| == |b|
    ensures |r| == |a|
  {
    seq(|a|, i requires 0 <= i < |a| => a[i] + b[i])
  }

  function Fitted(cols: seq<Column>, room: int): (r: seq<int>)
    ensures |r| == |cols|
  {
    var slack := room - Sum(Counted(cols, Bases(cols)));
    if slack <= 0 || Sum(Deficits(cols)) <= 0 then Bases(cols)
    else Plus(Bases(cols), Shares(slack, Deficits(cols)))
  }

  method FitColumns(cols: seq<Column>, room: int) returns (out: seq<int>)
    ensures out == Fitted(cols, room)
  {
    var sum: int;
    out, sum := Clip(cols);
    var slack := room - sum;
    if slack <= 0 { return; }
    var missing := Missing(cols, out);
    if missing <= 0 { return; }
    out := HandOut(cols, out, slack, missing);
  }

  /** First the bounds. */
  method Clip(cols: seq<Column>) returns (out: seq<int>, sum: int)
    ensures out == Bases(cols) && sum == Sum(Counted(cols, Bases(cols)))
  {
    hide Base;
    out, sum := [], 0;
    for i := 0 to |cols|
      invariant out == Bases(cols)[..i]
      invariant sum == SumTo(Counted(cols, Bases(cols)), i)
    {
      var w := Base(cols[i]);
      out := out + [w];
      sum := sum + RoomShare(cols[i].key, w);
    }
  }

  method Missing(cols: seq<Column>, out: seq<int>) returns (missing: int)
    requires out == Bases(cols)
    ensures missing == Sum(Deficits(cols))
  {
    missing := 0;
    for i := 0 to |cols|
      invariant missing == SumTo(Deficits(cols), i)
    {
      missing := missing + Deficit(cols[i], out[i]);
    }
  }

  /** Then the slack, to those that were cut. */
  method HandOut(cols: seq<Column>, clipped: seq<int>, slack: nat, missing: nat) returns (out: seq<int>)
    requires clipped == Bases(cols) && missing == Sum(Deficits(cols)) && missing > 0
    ensures out == Plus(Bases(cols), Shares(slack, Deficits(cols)))
  {
    out := clipped;
    for i := 0 to |cols|
      invariant |out| == |cols|
      invariant forall j :: i <= j < |cols| ==> out[j] == clipped[j]
      invariant forall j :: 0 <= j < i ==> out[j] == clipped[j] + Share(slack, Deficits(cols)[j], missing)
    {
      ShareOfNone(slack, missing);
      if cols[i].key != FULL_WIDTH_COLUMN && cols[i].want > out[i] {
        var share := slack * (cols[i].want - out[i]) / missing;
        var add := Min(share, cols[i].want - out[i]);
        out := out[i := out[i] + add];
      }
    }
  }

  lemma {:induction false} ShareOfNone(slack: nat, wanted: nat)
    requires wanted > 0
    ensures Share(slack, 0, wanted) == 0
  {}

  /** Between the bounds, and never narrower than its heading; the last column is never cut. */
  lemma {:induction false} BaseBounds(c: Column)
    ensures c.heading <= Base(c)
    ensures c.key == FULL_WIDTH_COLUMN ==> c.want <= Base(c)
    ensures c.key != FULL_WIDTH_COLUMN ==> Base(c) <= Max(UpperBound(c.key), c.heading)
    ensures Max(LowerBound(c.key), c.heading) <= c.want <= UpperBound(c.key) ==> Base(c) == c.want
    ensures Base(c) <= Max(c.want, Max(LowerBound(c.key), c.heading))
  {}

  lemma {:induction false} SumPlus(a: seq<int>, b: seq<int>, c: seq<int>, n: nat)
    requires n <= |a| == |b| == |c| && forall i :: 0 <= i < |a| ==> c[i] == a[i] + b[i]
    ensures SumTo(c, n) == SumTo(a, n) + SumTo(b, n)
  {
    if n > 0 {
      SumPlus(a, b, c, n - 1);
    }
  }

  /** The number of columns cut at their bound. */
  function Clipped(cols: seq<Column>): nat {
    PositiveTo(Deficits(cols), |cols|)
  }

  lemma {:induction false} CountedGrows(cols: seq<Column>, need: seq<int>, shares: seq<int>)
    requires |shares| == |cols| == |need| && need == Deficits(cols)
    requires forall i :: 0 <= i < |cols| ==> 0 <= shares[i] <= need[i]
    ensures Sum(Counted(cols, Plus(Bases(cols), shares))) == Sum(Counted(cols, Bases(cols))) + Sum(shares)
  {
    var grown := Counted(cols, Plus(Bases(cols), shares));
    forall i | 0 <= i < |cols| ensures grown[i] == Counted(cols, Bases(cols))[i] + shares[i] {
      assert cols[i].key == FULL_WIDTH_COLUMN ==> need[i] == 0;
    }
    SumPlus(Counted(cols, Bases(cols)), shares, grown, |cols|);
  }

  /** Each column keeps its heading, none that was cut grows past what it wants, and none that was not
      grows at all. */
  lemma {:induction false} FittedColumn(cols: seq<Column>, room: int, i: nat)
    requires i < |cols|
    ensures var c, w := cols[i], Fitted(cols, room)[i];
            && c.heading <= w && Base(c) <= w
            && (Deficit(c, Base(c)) > 0 ==> w <= c.want)
            && (Deficit(c, Base(c)) == 0 ==> w == Base(c))
  {}

  /** If the columns fit the window at their bounds they still do; if there is room for all that was
      cut, nothing stays cut; and otherwise fewer pixels stay free than columns were cut. */
  lemma {:induction false} FittedRoom(cols: seq<Column>, room: int)
    ensures var before, after := Sum(Counted(cols, Bases(cols))), Sum(Counted(cols, Fitted(cols, room)));
            var missing := Sum(Deficits(cols));
            && (before <= room ==> after <= room)
            && (before > room ==> Fitted(cols, room) == Bases(cols))
            && (0 < room - before && missing <= room - before ==>
                  forall i :: 0 <= i < |cols| ==> Deficit(cols[i], Fitted(cols, room)[i]) == 0)
            && (0 < room - before < missing ==> room - after < Clipped(cols))
  {
    hide SumTo, Base;
    var slack, need := room - Sum(Counted(cols, Bases(cols))), Deficits(cols);
    SumIsMonotone(need, |need|);
    if slack > 0 && Sum(need) > 0 {
      DividingTheSlack(slack, need);
      CountedGrows(cols, need, Shares(slack, need));
    } else if slack > 0 {
      NoneCut(need, |need|);
      assert forall i :: 0 <= i < |cols| ==> need[i] == Deficit(cols[i], Fitted(cols, room)[i]);
    }
  }

  lemma {:induction false} NoneCut(need: seq<int>, n: nat)
    requires Needs(need) && n <= |need| && SumTo(need, n) <= 0
    ensures forall i :: 0 <= i < n ==> need[i] == 0
  {
    if n > 0 {
      SumIsMonotone(need, n - 1);
      NoneCut(need, n - 1);
    }
  }

  // ---- growing

  /** Something in column `col` runs over by `px`. */
  datatype Ask = Ask(col: nat, px: real)

  /** The most that was asked for column `i`; a column set by hand asks for nothing. */
  function NeedOf(asks: seq<Ask>, fixed: seq<Option<int>>, i: nat): nat
    requires i < |fixed|
  {
    if asks == [] || fixed[i].Some? then 0
    else
      var ask, before := asks[|asks| - 1], NeedOf(asks[..|asks| - 1], fixed, i);
      if ask.col == i && ask.px > 0.0 then Max(before, Ceiling(ask.px)) else before
  }

  lemma {:induction false} NeedCoversAsks(asks: seq<Ask>, fixed: seq<Option<int>>, a: nat)
    requires a < |asks| && asks[a].col < |fixed| && fixed[asks[a].col].None?
    ensures asks[a].px <= NeedOf(asks, fixed, asks[a].col) as real
  {
    if a < |asks| - 1 {
      NeedCoversAsks(asks[..|asks| - 1], fixed, a);
    }
  }

  /** And no more than that: what a column needs was asked for in so many pixels, rounded up. */
  lemma {:induction false} NeedWasAsked(asks: seq<Ask>, fixed: seq<Option<int>>, i: nat)
    requires i < |fixed| && NeedOf(asks, fixed, i) > 0
    ensures fixed[i].None?
    ensures exists a :: 0 <= a < |asks| && asks[a].col == i && Ceiling(asks[a].px) == NeedOf(asks, fixed, i)
  {
    var n := |asks| - 1;
    if asks[n].col == i && Ceiling(asks[n].px) == NeedOf(asks, fixed, i) {
    } else {
      var front := asks[..n];
      NeedWasAsked(front, fixed, i);
      var a :| 0 <= a < |front| && front[a].col == i && Ceiling(front[a].px) == NeedOf(front, fixed, i);
      assert asks[a] == front[a];
    }
  }

  class Table {
    const keys: seq<ColumnKey>
    var measured: seq<int>
    var natural: seq<int>
    var columnWidths: seq<Option<int>>

    ghost predicate Valid()
      reads this
    {
      |measured| == |natural| == |columnWidths| == |keys|
    }

    constructor (keys: seq<ColumnKey>, measured: seq<int>, natural: seq<int>, columnWidths: seq<Option<int>>)
      requires |measured| == |natural| == |columnWidths| == |keys|
      ensures Valid() && this.keys == keys && this.measured == measured && this.natural == natural
      ensures this.columnWidths == columnWidths
    {
      this.keys, this.measured, this.natural, this.columnWidths := keys, measured, natural, columnWidths;
    }

    method Gather(asks: seq<Ask>) returns (need: seq<int>)
      requires Valid()
      ensures |need| == |keys|
      ensures forall i :: 0 <= i < |keys| ==> need[i] == NeedOf(asks, columnWidths, i)
    {
      need := seq(|keys|, _ => 0);
      for a := 0 to |asks|
        invariant |need| == |keys|
        invariant forall i :: 0 <= i < |keys| ==> need[i] == NeedOf(asks[..a], columnWidths, i)
      {
        var ask := asks[a];
        assert asks[..a + 1][..a] == asks[..a];
        if ask.col < |keys| && ask.px > 0.0 && columnWidths[ask.col] == None {
          need := need[ask.col := Max(need[ask.col], Ceiling(ask.px))];
        }
      }
      assert asks[..|asks|] == asks;
    }

    /** What the columns take of the window, as drawn. */
    method Occupied() returns (sum: int)
      requires Valid()
      ensures sum == Sum(Drawn(keys, measured, columnWidths))
    {
      sum := 0;
      for i := 0 to |keys|
        invariant sum == SumTo(Drawn(keys, measured, columnWidths), i)
      {
        sum := sum + RoomShare(keys[i], columnWidths[i].GetOr(measured[i]));
      }
    }

    /** What the columns before the last want in all, and what the last one lacks. */
    method Wanted(need: seq<int>) returns (wanted: int, fullNeed: int)
      requires |need| == |keys| && Needs(need)
      ensures wanted == Sum(Others(keys, need))
      ensures wanted <= 0 && fullNeed <= 0 ==> forall i :: 0 <= i < |keys| ==> need[i] == 0
    {
      wanted, fullNeed := 0, 0;
      for i := 0 to |keys|
        invariant wanted == SumTo(Others(keys, need), i) && fullNeed >= 0
        invariant fullNeed == 0 ==> forall j :: 0 <= j < i ==> need[j] == Others(keys, need)[j]
      {
        if keys[i] == FULL_WIDTH_COLUMN {
          fullNeed := fullNeed + need[i];
        } else {
          wanted := wanted + need[i];
        }
      }
      if wanted <= 0 && fullNeed <= 0 {
        NoneCut(Others(keys, need), |keys|);
      }
    }

    method Spread(need: seq<int>, slack: nat, wanted: int) returns (next: seq<int>)
      requires Valid() && |need| == |keys| && Needs(need) && wanted == Sum(Others(keys, need))
      ensures next == GrownTo(keys, measured, need, slack)
    {
      next := measured;
      OthersCount(keys, need);
      for i := 0 to |keys|
        invariant |next| == |keys| && next[i..] == measured[i..]
        invariant forall j :: 0 <= j < i ==> next[j] == measured[j] + Gain(keys[j], need[j], slack, wanted)
      {
        assert next[i] == measured[i];
        if need[i] > 0 {
          var add := if keys[i] == FULL_WIDTH_COLUMN then need[i] else Min(need[i], slack * need[i] / wanted);
          next := next[i := next[i] + add];
        }
      }
    }

    /** Columns grow into what is free. The last one gets all it lacks, the others share the slack; what
        grew is remembered as wanted. */
    method GrowIntoSlack(asks: seq<Ask>, room: int)
      requires Valid()
      modifies this`measured, this`natural
      ensures Valid()
      ensures var slack := Max(0, room - Sum(Drawn(keys, old(measured), columnWidths)));
              measured == GrownTo(keys, old(measured), NeedsOf(asks, columnWidths), slack)
      ensures natural == Remembered(old(natural), NeedsOf(asks, columnWidths), measured)
    {
      var sum := Occupied();
      var slack := Max(0, room - sum);
      var need := Gather(asks);
      assert need == NeedsOf(asks, columnWidths);
      var wanted, fullNeed := Wanted(need);
      if wanted <= 0 && fullNeed <= 0 {
        assert GrownTo(keys, measured, need, slack) == measured;
        assert Remembered(natural, need, measured) == natural;
        return;
      }
      measured := Spread(need, slack, wanted);
      natural := Remembered(natural, need, measured);
    }
  }

  /** The widths the columns want from now on: those that grew want at least what they have. */
  function Remembered(natural: seq<int>, need: seq<int>, grown: seq<int>): (r: seq<int>)
    requires |natural| == |need| == |grown|
    ensures |r| == |natural|
  {
    seq(|natural|, i requires 0 <= i < |natural| => if need[i] > 0 then Max(natural[i], grown[i]) else natural[i])
  }

  /** Where something ran over the wish becomes the grown width if that is more; no wish ever falls. */
  lemma {:induction false} WishesFollow(natural: seq<int>, need: seq<int>, grown: seq<int>, i: nat)
    requires |natural| == |need| == |grown| && i < |natural|
    ensures var wish := Remembered(natural, need, grown)[i];
            && wish >= natural[i] && (wish == natural[i] || wish == grown[i])
            && (need[i] > 0 ==> wish >= grown[i]) && (need[i] <= 0 ==> wish == natural[i])
  {}

  function Drawn(keys: seq<ColumnKey>, measured: seq<int>, fixed: seq<Option<int>>): (r: seq<int>)
    requires |keys| == |measured| == |fixed|
    ensures |r| == |keys|
  {
    seq(|keys|, i requires 0 <= i < |keys| => RoomShare(keys[i], fixed[i].GetOr(measured[i])))
  }

  function NeedsOf(asks: seq<Ask>, fixed: seq<Option<int>>): (r: seq<int>)
    ensures |r| == |fixed| && Needs(r)
  {
    seq(|fixed|, i requires 0 <= i < |fixed| => NeedOf(asks, fixed, i))
  }

  /** What the columns before the last ask for. */
  function Others(keys: seq<ColumnKey>, need: seq<int>): (r: seq<int>)
    requires |keys| == |need| && Needs(need)
    ensures |r| == |need| && Needs(r)
  {
    seq(|need|, i requires 0 <= i < |need| => if keys[i] == FULL_WIDTH_COLUMN then 0 else need[i])
  }

  lemma {:induction false} OthersCount(keys: seq<ColumnKey>, need: seq<int>)
    requires |keys| == |need| && Needs(need)
    ensures forall i :: 0 <= i < |keys| && keys[i] != FULL_WIDTH_COLUMN && need[i] > 0 ==> Sum(Others(keys, need)) > 0
  {
    if Sum(Others(keys, need)) <= 0 {
      NoneCut(Others(keys, need), |keys|);
      forall i | 0 <= i < |keys| && keys[i] != FULL_WIDTH_COLUMN ensures need[i] <= 0 {
        assert Others(keys, need)[i] == 0;
      }
    }
  }

  /** What a column gains, if the others want `wanted` in all. */
  function Gain(key: ColumnKey, need: nat, slack: nat, wanted: int): nat {
    if key == FULL_WIDTH_COLUMN then need
    else if need == 0 || wanted <= 0 then 0
    else Share(slack, need, wanted)
  }

  function GrownTo(keys: seq<ColumnKey>, measured: seq<int>, need: seq<int>, slack: nat): (r: seq<int>)
    requires |keys| == |need| == |measured| && Needs(need)
    ensures |r| == |measured|
  {
    seq(|keys|, i requires 0 <= i < |keys| =>
      measured[i] + Gain(keys[i], need[i], slack, Sum(Others(keys, need))))
  }

  function GainsOfOthers(keys: seq<ColumnKey>, measured: seq<int>, grown: seq<int>): (r: seq<int>)
    requires |keys| == |measured| == |grown|
    ensures |r| == |keys|
  {
    seq(|keys|, i requires 0 <= i < |keys| => if keys[i] == FULL_WIDTH_COLUMN then 0 else grown[i] - measured[i])
  }

  /** No column shrinks or gains more than it lacks, and one that asks for nothing stays as it is; the
      last one gets all it lacks; the others together gain no more than was free, all they lack if there
      was enough, and otherwise leave fewer pixels than there are columns that lack some. */
  lemma {:induction false} GrowthBounds(keys: seq<ColumnKey>, measured: seq<int>, need: seq<int>, slack: nat)
    requires |keys| == |need| == |measured| && Needs(need)
    ensures var grown, others := GrownTo(keys, measured, need, slack), Others(keys, need);
            var gained := Sum(GainsOfOthers(keys, measured, grown));
            && (forall i :: 0 <= i < |keys| ==> measured[i] <= grown[i] <= measured[i] + need[i])
            && (forall i :: 0 <= i < |keys| && keys[i] == FULL_WIDTH_COLUMN ==> grown[i] == measured[i] + need[i])
            && gained <= slack
            && (slack >= Sum(others) ==> forall i :: 0 <= i < |keys| ==> grown[i] == measured[i] + need[i])
            && (slack < Sum(others) ==> slack - gained < PositiveTo(others, |keys|))
  {
    var grown, others := GrownTo(keys, measured, need, slack), Others(keys, need);
    var gains := GainsOfOthers(keys, measured, grown);
    if Sum(others) > 0 {
      DividingTheSlack(slack, others);
      var shares := Shares(slack, others);
      forall i | 0 <= i < |keys| ensures gains[i] == shares[i] && 0 <= shares[i] <= others[i] {
        Quotient(slack * others[i], Sum(others));
        if others[i] == 0 {
          assert shares[i] == 0;
        }
      }
      assert gains == shares;
      forall i | 0 <= i < |keys|
        ensures grown[i] == measured[i] + if keys[i] == FULL_WIDTH_COLUMN then need[i] else shares[i]
      {
        assert gains[i] == shares[i];
      }
      assert slack >= Sum(others) ==> forall i :: 0 <= i < |keys| ==> shares[i] == others[i];
    } else {
      NoneCut(others, |keys|);
      forall i | 0 <= i < |keys| ensures gains[i] == 0 && (keys[i] != FULL_WIDTH_COLUMN ==> need[i] == 0) {
        assert others[i] == 0;
      }
      ZeroSum(gains, |gains|);
    }
  }

  lemma {:induction false} ZeroSum(s: seq<int>, n: nat)
    requires n <= |s| && forall i :: 0 <= i < n ==> s[i] == 0
    ensures SumTo(s, n) == 0
  {
    if n > 0 {
      ZeroSum(s, n - 1);
    }
  }

  /** A column set by hand is left alone. */
  lemma {:induction false} FixedStays(asks: seq<Ask>, fixed: seq<Option<int>>, keys: seq<ColumnKey>,
                                      measured: seq<int>, slack: nat, i: nat)
    requires |keys| == |measured| == |fixed| && i < |keys| && fixed[i].Some?
    ensures GrownTo(keys, measured, NeedsOf(asks, fixed), slack)[i] == measured[i]
  {}
}
