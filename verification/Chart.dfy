/** Chart axes over exact reals: round numbers, axis tops, and evenly spread tick marks. */
module Chart {
  import opened Numbers

  /** The powers of ten, both ways. */
  function Pow10(e: int): (p: real)
    ensures p > 0.0
    decreases if e < 0 then -e else e
  {
    if e == 0 then 1.0 else if e > 0 then 10.0 * Pow10(e - 1) else Pow10(e + 1) / 10.0
  }

  lemma {:induction false} NextPow10(e: int)
    ensures Pow10(e + 1) == 10.0 * Pow10(e)
  {}

  function LogUp(x: real): nat
    requires x >= 1.0
    decreases x.Floor
  {
    if x < 10.0 then 0
    else
      Tenth(x);
      1 + LogUp(x / 10.0)
  }

  lemma {:induction false} Tenth(x: real)
    requires x >= 1.0
    ensures (x / 10.0).Floor < x.Floor
  {}

  /** `floor(log10 x)`. */
  function Log10(x: real): int
    requires x > 0.0
    decreases if x < 1.0 then (1.0 / x).Floor else 0
  {
    if x >= 1.0 then LogUp(x)
    else
      Inverse(x);
      Log10(10.0 * x) - 1
  }

  lemma {:induction false} Inverse(x: real)
    requires 0.0 < x < 1.0
    ensures 10.0 * x < 1.0 ==> 0 <= (1.0 / (10.0 * x)).Floor < (1.0 / x).Floor
    ensures 1 <= (1.0 / x).Floor
  {}

  /** The exponent puts `x` between two neighbouring powers of ten. */
  lemma {:induction false} LogUpBounds(x: real)
    requires x >= 1.0
    ensures Pow10(LogUp(x)) <= x < Pow10(LogUp(x) + 1)
    decreases x.Floor
  {
    if x >= 10.0 {
      Tenth(x);
      LogUpBounds(x / 10.0);
    } else {
      assert Pow10(1) == 10.0 * Pow10(0);
    }
  }

  lemma {:induction false} Log10Bounds(x: real)
    requires x > 0.0
    ensures Pow10(Log10(x)) <= x < Pow10(Log10(x) + 1)
    decreases if x < 1.0 then (1.0 / x).Floor else 0
  {
    if x >= 1.0 {
      LogUpBounds(x);
    } else {
      Inverse(x);
      Log10Bounds(10.0 * x);
      var e := Log10(10.0 * x);
      NextPow10(e - 1);
      NextPow10(e);
    }
  }

  lemma {:induction false} Pow10Rises(a: int, b: int)
    requires a <= b
    ensures Pow10(a) <= Pow10(b)
    decreases b - a
  {
    if a < b {
      Pow10Rises(a, b - 1);
      NextPow10(b - 1);
    }
  }

  lemma {:induction false} ExponentIs(x: real, e: int)
    requires x > 0.0 && Pow10(e) <= x < Pow10(e + 1)
    ensures Log10(x) == e
  {
    Log10Bounds(x);
    var l := Log10(x);
    if l < e {
      Pow10Rises(l + 1, e);
    } else if l > e {
      Pow10Rises(e + 1, l);
    }
  }

  /** One of 1, 2, 5 and 10: the next one up, or the one a share of a decade is rounded to. */
  function Mantissa(f: real, round: bool): real {
    if round then if f < 1.5 then 1.0 else if f < 3.0 then 2.0 else if f < 7.0 then 5.0 else 10.0
    else if f <= 1.0 then 1.0 else if f <= 2.0 then 2.0 else if f <= 5.0 then 5.0 else 10.0
  }

  /** Rounded, the bounds are 1.5, 3 and 7; otherwise the next of 1, 2, 5 and 10 is taken. */
  lemma {:induction false} MantissaIs(f: real)
    requires 1.0 <= f < 10.0
    ensures Mantissa(f, true) == 1.0 <==> f < 1.5
    ensures Mantissa(f, true) == 2.0 <==> 1.5 <= f < 3.0
    ensures Mantissa(f, true) == 5.0 <==> 3.0 <= f < 7.0
    ensures Mantissa(f, true) == 10.0 <==> 7.0 <= f
    ensures Mantissa(f, false) in {1.0, 2.0, 5.0, 10.0} && f <= Mantissa(f, false)
    ensures (f <= 1.0 ==> Mantissa(f, false) <= 1.0) && (f <= 2.0 ==> Mantissa(f, false) <= 2.0)
    ensures f <= 5.0 ==> Mantissa(f, false) <= 5.0
  {}

  function NiceNum(range: real, round: bool): real
    requires range > 0.0
  {
    var p := Pow10(Log10(range));
    Mantissa(range / p, round) * p
  }

  // ---- small facts of arithmetic

  lemma {:induction false} Times(a: real, b: real, p: real)
    requires p > 0.0
    ensures a <= b <==> a * p <= b * p
    ensures a < b <==> a * p < b * p
  {}

  lemma {:induction false} Regroup(a: real, b: real, p: real)
    ensures a * b * p == a * (b * p)
  {}

  lemma {:induction false} Divide(a: real, b: real, q: real)
    requires b > 0.0 && q * b == a
    ensures a / b == q
  {}

  // ---- round numbers

  lemma {:induction false} FractionOf(range: real, p: real)
    requires p > 0.0 && p <= range < 10.0 * p
    ensures 1.0 <= range / p < 10.0 && range / p * p == range
  {
    var f := range / p;
    assert f * p == range;
    Times(1.0, f, p);
    Times(f, 10.0, p);
  }

  /** A number from 1 up to 10, times the power of ten below the range. */
  lemma {:induction false} Fraction(range: real)
    requires range > 0.0
    ensures var p := Pow10(Log10(range));
            1.0 <= range / p < 10.0 && range / p * p == range && p <= range
  {
    Log10Bounds(range);
    NextPow10(Log10(range));
    FractionOf(range, Pow10(Log10(range)));
  }

  /** `m` times the `e`th power of ten. */
  function Scaled(m: real, e: int): real {
    m * Pow10(e)
  }

  lemma {:induction false} NiceNumIs(range: real, round: bool, l: int)
    requires range > 0.0 && l == Log10(range)
    ensures NiceNum(range, round) == Scaled(Mantissa(range / Pow10(l), round), l)
  {}

  predicate NiceMantissa(m: real) {
    m == 1.0 || m == 2.0 || m == 5.0
  }

  lemma {:induction false} MantissaCovers(f: real)
    requires 1.0 <= f < 10.0
    ensures f <= Mantissa(f, false) <= 10.0
  {}

  lemma {:induction false} ScaledRises(a: real, b: real, e: int)
    ensures a <= b <==> Scaled(a, e) <= Scaled(b, e)
  {
    Times(a, b, Pow10(e));
  }

  lemma {:induction false} ScaledTen(e: int)
    ensures Scaled(1.0, e) == Pow10(e) && Scaled(5.0, e) < Scaled(10.0, e) == Pow10(e + 1)
  {
    NextPow10(e);
  }

  lemma {:induction false} LeastMantissa(f: real, m: real)
    requires NiceMantissa(m) && f <= m
    ensures Mantissa(f, false) <= m
  {}

  lemma {:induction false} NiceIsSmall(m: real)
    requires NiceMantissa(m)
    ensures 1.0 <= m <= 5.0
  {}

  lemma {:induction false} AboveDecade(m: real, e: int, l: int)
    requires NiceMantissa(m) && e > l
    ensures Pow10(l + 1) <= Scaled(m, e)
  {
    hide *;
    NiceIsSmall(m);
    Pow10Rises(l + 1, e);
    ScaledTen(e);
    ScaledRises(1.0, m, e);
  }

  lemma {:induction false} BelowDecade(m: real, e: int, l: int)
    requires NiceMantissa(m) && e < l
    ensures Scaled(m, e) < Pow10(l)
  {
    hide *;
    NiceIsSmall(m);
    ScaledTen(e);
    ScaledRises(m, 5.0, e);
    Pow10Rises(e + 1, l);
  }

  /** Without rounding, the least of the numbers 1, 2 and 5 times a power of ten that covers `range`. */
  lemma {:induction false} NiceIsLeast(range: real, m: real, e: int)
    requires range > 0.0 && NiceMantissa(m) && Scaled(m, e) >= range
    ensures range <= NiceNum(range, false) <= Scaled(m, e)
  {
    Fraction(range);
    LeastNear(range, m, e, Log10(range), range / Pow10(Log10(range)));
  }

  lemma {:induction false} LeastNear(range: real, m: real, e: int, l: int, f: real)
    requires range > 0.0 && NiceMantissa(m) && Scaled(m, e) >= range
    requires l == Log10(range) && f == range / Pow10(l) && Scaled(f, l) == range && 1.0 <= f < 10.0
    ensures range <= NiceNum(range, false) <= Scaled(m, e)
  {
    hide *;
    var k := Mantissa(f, false);
    NiceNumIs(range, false, l);
    MantissaCovers(f);
    ScaledRises(f, k, l);
    if e < l {
      BelowDecade(m, e, l);
      ScaledTen(l);
      ScaledRises(1.0, f, l);
    } else if e == l {
      ScaledRises(f, m, l);
      LeastMantissa(f, m);
      ScaledRises(k, m, l);
    } else {
      AboveDecade(m, e, l);
      ScaledTen(l);
      ScaledRises(k, 10.0, l);
    }
  }

  lemma {:induction false} Near(f: real, m: real, p: real, range: real)
    requires p > 0.0 && f * p == range && 2.0 * f <= 3.0 * m <= 5.0 * f
    ensures 2.0 * range <= 3.0 * (m * p) <= 5.0 * range
  {
    Times(2.0 * f, 3.0 * m, p);
    Times(3.0 * m, 5.0 * f, p);
    Regroup(2.0, f, p);
    Regroup(5.0, f, p);
    Regroup(3.0, m, p);
  }

  /** With rounding, at most a third less and at most two thirds more. */
  lemma {:induction false} NiceIsNear(range: real)
    requires range > 0.0
    ensures 2.0 * range <= 3.0 * NiceNum(range, true) <= 5.0 * range
  {
    var p := Pow10(Log10(range));
    Fraction(range);
    Near(range / p, Mantissa(range / p, true), p, range);
  }

  // ---- axes

  const TICK_COUNT := 4

  function Step(max: real, tickCount: nat): (step: real)
    requires max > 0.0 && tickCount > 0
    ensures step > 0.0
  {
    Fraction(max);
    Positive(Mantissa(max / Pow10(Log10(max)), false), Pow10(Log10(max)));
    var range := NiceNum(max, false) / tickCount as real;
    Positive(Mantissa(range / Pow10(Log10(range)), true), Pow10(Log10(range)));
    NiceNum(range, true)
  }

  lemma {:induction false} Positive(a: real, b: real)
    requires a > 0.0 && b > 0.0
    ensures a * b > 0.0
  {}

  function Intervals(max: real, tickCount: nat): int
    requires max > 0.0 && tickCount > 0
  {
    Ceiling(max / Step(max, tickCount))
  }

  datatype Axis = Axis(max: real, ticks: seq<real>)

  lemma {:induction false} CeilingBounds(x: real)
    ensures (Ceiling(x) - 1) as real < x <= Ceiling(x) as real
  {}

  /** The `k`th multiple of `step`. */
  function Multiple(k: int, step: real): real {
    k as real * step
  }

  lemma {:induction false} MultiplesRise(j: int, k: int, step: real)
    requires step > 0.0
    ensures j <= k <==> Multiple(j, step) <= Multiple(k, step)
    ensures Multiple(k + 1, step) == Multiple(k, step) + step
  {
    Times(j as real, k as real, step);
  }

  lemma {:induction false} LeastMultiple(max: real, step: real, k: int)
    requires max > 0.0 && step > 0.0
    ensures var n := Ceiling(max / step);
            n >= 1 && max <= Multiple(n, step) && (Multiple(k, step) >= max ==> n <= k)
  {
    var x := max / step;
    assert x * step == max;
    CeilingBounds(x);
    var n := Ceiling(x);
    Times(x, n as real, step);
    Times(0.0, x, step);
    if Multiple(k, step) >= max {
      Times(x, k as real, step);
      assert (n - 1) as real < k as real;
    }
  }

  /** The top is the least multiple of the step that covers the maximum. */
  lemma {:induction false} TopIsLeastMultiple(max: real, tickCount: nat, k: int)
    requires max > 0.0 && tickCount > 0
    ensures var step, n := Step(max, tickCount), Intervals(max, tickCount);
            n >= 1 && max <= Multiple(n, step) && (Multiple(k, step) >= max ==> n <= k)
  {
    LeastMultiple(max, Step(max, tickCount), k);
  }

  function Ticks(step: real, n: nat): (t: seq<real>)
    ensures |t| == n
  {
    seq(n, i requires i >= 0 => Multiple(i, step))
  }

  lemma {:induction false} NextTick(k: nat, step: real)
    ensures Ticks(step, k) + [Multiple(k, step)] == Ticks(step, k + 1)
  {}

  method CollectTicks(step: real, n: nat) returns (ticks: seq<real>)
    requires step > 0.0
    ensures ticks == Ticks(step, n + 1)
  {
    var top := Multiple(n, step);
    ticks := [];
    var v := 0.0;
    while v <= top + step / 2.0
      invariant |ticks| <= n + 1
      invariant v == Multiple(|ticks|, step) && ticks == Ticks(step, |ticks|)
      decreases n + 1 - |ticks|
    {
      MultiplesRise(n + 1, |ticks|, step);
      MultiplesRise(n, n, step);
      MultiplesRise(|ticks|, |ticks|, step);
      NextTick(|ticks|, step);
      ticks := ticks + [v];
      v := v + step;
    }
    MultiplesRise(|ticks|, n, step);
  }

  /** For every positive maximum, the top and the ticks from 0 to it. */
  method NiceAxis(max: real, tickCount: nat) returns (axis: Axis)
    requires tickCount > 0
    ensures max <= 0.0 ==> axis == Axis(1.0, [0.0, 1.0])
    ensures max > 0.0 ==>
              var step, n := Step(max, tickCount), Intervals(max, tickCount);
              n >= 1 && axis == Axis(Multiple(n, step), Ticks(step, n + 1))
  {
    if max <= 0.0 {
      return Axis(1.0, [0.0, 1.0]);
    }
    var step := Step(max, tickCount);
    TopIsLeastMultiple(max, tickCount, 0);
    var ticks := CollectTicks(step, Ceiling(max / step));
    return Axis(Multiple(Ceiling(max / step), step), ticks);
  }

  lemma {:induction false} InDecade(range: real, e: int, f: real)
    requires range > 0.0 && 1.0 <= f < 10.0 && range == Scaled(f, e)
    ensures Log10(range) == e
  {
    hide *;
    ScaledTen(e);
    ScaledRises(1.0, f, e);
    ScaledRises(10.0, f, e);
    ExponentIs(range, e);
  }

  lemma {:induction false} Unscaled(f: real, e: int)
    ensures Scaled(f, e) / Pow10(e) == f
  {
    Divide(Scaled(f, e), Pow10(e), f);
  }

  lemma {:induction false} NiceIs(range: real, e: int, f: real)
    requires range > 0.0 && 1.0 <= f < 10.0 && range == Scaled(f, e)
    ensures NiceNum(range, true) == Scaled(Mantissa(f, true), e)
  {
    hide *;
    InDecade(range, e, f);
    NiceNumIs(range, true, e);
    Unscaled(f, e);
  }

  lemma {:induction false} Ratio(f: real, p: real, step: real, r: real)
    requires p > 0.0 && step > 0.0 && r * step == p
    ensures f * p / step == f * r
  {}

  /** How many steps go into the power of ten, by the number in front of it. */
  function StepsPerDecade(f: real): real {
    if f <= 1.0 then 5.0 else if f <= 2.0 then 2.0 else if f <= 5.0 then 1.0 else 0.5
  }

  /** `step` goes into `p` as often as the number `f` in front of it allows. */
  predicate Fills(max: real, f: real, p: real, step: real) {
    p > 0.0 && step > 0.0 && 1.0 <= f < 10.0 && max == f * p && StepsPerDecade(f) * step == p
  }

  lemma {:induction false} FractionIs(max: real, f: real, p: real)
    requires max > 0.0 && p == Pow10(Log10(max)) && f == max / p
    ensures p > 0.0 && 1.0 <= f < 10.0 && max == f * p
  {
    Fraction(max);
  }

  lemma {:induction false} StepIs(max: real, e: int, m: real)
    requires max > 0.0 && 1.0 <= m < 10.0 && NiceNum(max, false) / 4.0 == Scaled(m, e)
    ensures Step(max, TICK_COUNT) == Scaled(Mantissa(m, true), e)
  {
    Positive(m, Pow10(e));
    NiceIs(NiceNum(max, false) / 4.0, e, m);
  }

  /** With four ticks asked for, the step is a fifth, a half, one or two of the power of ten below the
      maximum. */
  lemma {:induction false} StepTable(max: real, f: real, p: real, l: int)
    requires max > 0.0 && l == Log10(max) && p == Pow10(l) && f == max / p
    ensures StepsPerDecade(f) * Step(max, TICK_COUNT) == p
  {
    FractionIs(max, f, p);
    NextPow10(l - 1);
    NiceNumIs(max, false, l);
    if f <= 1.0 {
      StepIs(max, l - 1, 2.5);
    } else if f <= 2.0 {
      StepIs(max, l - 1, 5.0);
    } else if f <= 5.0 {
      StepIs(max, l, 1.25);
    } else {
      StepIs(max, l, 2.5);
    }
  }

  lemma {:induction false} StepFills(max: real, f: real, p: real)
    requires max > 0.0 && p == Pow10(Log10(max)) && f == max / p
    ensures Fills(max, f, p, Step(max, TICK_COUNT))
  {
    FractionIs(max, f, p);
    StepTable(max, f, p, Log10(max));
  }

  lemma {:induction false} FewSteps(max: real, f: real, p: real, step: real)
    requires Fills(max, f, p, step)
    ensures 3 <= Ceiling(max / step) <= 5
  {
    Ratio(f, p, step, StepsPerDecade(f));
  }

  /** The axis of a chart always has three to five intervals. */
  lemma {:induction false} ThreeToFiveIntervals(max: real)
    requires max > 0.0
    ensures 3 <= Intervals(max, TICK_COUNT) <= 5
  {
    var p := Pow10(Log10(max));
    StepFills(max, max / p, p);
    FewSteps(max, max / p, p, Step(max, TICK_COUNT));
  }

  // ---- tick marks along the other axis

  lemma {:induction false} QuotientIs(a: nat, d: nat, q: nat)
    requires d > 0 && q * d <= a < q * d + d
    ensures a / d == q
  {
    var r := a / d;
    assert a == r * d + a % d;
    Cancel(r, q + 1, d);
    Cancel(q, r + 1, d);
    assert (q + 1) * d == q * d + d && (r + 1) * d == r * d + d;
  }

  /** `a / b` to the nearest whole number, halves going up. */
  function Round(a: nat, b: nat): nat
    requires b > 0
  {
    (2 * a + b) / (2 * b)
  }

  /** `Math.round(i / (count - 1) * (n - 1))`, over exact quotients. */
  function TickAt(i: nat, n: nat, count: nat): nat
    requires n > 0 && count > 1
  {
    Round(i * (n - 1), count - 1)
  }

  /** Each mark is the whole number nearest to its place on the even scale, halves going up. */
  lemma {:induction false} TickIsNearest(i: nat, n: nat, count: nat)
    requires n > 0 && count > 1
    ensures var place, b := i * (n - 1), count - 1;
            2 * place - b < 2 * b * TickAt(i, n, count) <= 2 * place + b
  {
    var a, b := 2 * (i * (n - 1)) + (count - 1), 2 * (count - 1);
    assert a == a / b * b + a % b;
  }

  predicate Increasing(s: seq<int>) {
    forall i, j :: 0 <= i < j < |s| ==> s[i] < s[j]
  }

  predicate IsLeast(s: set<int>, x: int) {
    x in s && forall y :: y in s ==> x <= y
  }

  lemma {:induction false} Member<T>(s: set<T>) returns (x: T)
    requires s != {}
    ensures x in s
  {
    x :| x in s;
  }

  lemma {:induction false} LeastExists(s: set<int>)
    requires s != {}
    ensures exists x :: IsLeast(s, x)
    decreases |s|
  {
    var x := Member(s);
    var rest := s - {x};
    if rest == {} {
      assert s == {x};
      assert IsLeast(s, x);
    } else {
      LeastExists(rest);
      var y :| IsLeast(rest, y);
      var z := if x < y then x else y;
      forall w | w in s ensures z <= w {
        assert w == x || w in rest;
      }
      assert IsLeast(s, z);
    }
  }

  /** `[...idx].sort`. */
  method SortSet(s: set<int>) returns (t: seq<int>)
    ensures Increasing(t) && forall x :: x in t <==> x in s
  {
    t := [];
    var rest := s;
    while rest != {}
      invariant Increasing(t) && rest <= s
      invariant forall x, y :: x in t && y in rest ==> x < y
      invariant forall x :: x in s <==> x in t || x in rest
      decreases |rest|
    {
      LeastExists(rest);
      var x :| IsLeast(rest, x);
      assert forall i :: 0 <= i < |t| ==> t[i] in t;
      t, rest := t + [x], rest - {x};
    }
  }

  /** An increasing list is determined by its elements. */
  lemma {:induction false} IncreasingIsUnique(a: seq<int>, b: seq<int>)
    requires Increasing(a) && Increasing(b) && forall x: int :: x in a <==> x in b
    ensures a == b
  {
    assert |a| > 0 ==> a[0] in a;
    assert |b| > 0 ==> b[0] in b;
    if a != [] {
      var s, t := a[1..], b[1..];
      assert a == [a[0]] + s && b == [b[0]] + t;
      assert a[0] in a && b[0] in b;
      assert a[0] == b[0];
      assert a[0] !in s && a[0] !in t;
      forall x: int ensures x in s <==> x in t {
        assert x in a <==> x == a[0] || x in s;
        assert x in b <==> x == b[0] || x in t;
      }
      IncreasingIsUnique(s, t);
    }
  }

  function TickMarks(n: nat, count: nat): (t: seq<int>)
    requires 1 < count < n
    ensures |t| == count
  {
    seq(count, i requires 0 <= i < count => TickAt(i, n, count))
  }

  method TickIndices(n: int, count: int) returns (ticks: seq<int>)
    ensures n <= 0 ==> ticks == []
    ensures 0 < n && (n <= count || count <= 1) ==> |ticks| == n && forall i :: 0 <= i < n ==> ticks[i] == i
    ensures 1 < count < n ==> ticks == TickMarks(n, count)
  {
    if n <= 0 { return []; }
    if n <= count || count <= 1 { return seq(n, i => i); }
    var idx: set<int> := {};
    ghost var marks := TickMarks(n, count);
    for i := 0 to count
      invariant forall x :: x in idx <==> x in marks[..i]
    {
      idx := idx + {TickAt(i, n, count)};
      assert marks[..i + 1] == marks[..i] + [TickAt(i, n, count)];
    }
    assert marks[..count] == marks;
    ticks := SortSet(idx);
    MarksIncrease(n, count);
    IncreasingIsUnique(ticks, marks);
  }

  /** Neighbouring marks are as far apart as the points divide over the gaps, rounded down or up. */
  lemma {:induction false} EvenGaps(i: nat, n: nat, count: nat)
    requires 1 < count < n
    ensures var gap := (n - 1) / (count - 1);
            1 <= gap <= TickAt(i + 1, n, count) - TickAt(i, n, count) <= gap + 1
  {
    var b, m := count - 1, n - 1;
    assert (i + 1) * m == i * m + m;
    RoundShift(i * m, m, b);
  }

  lemma {:induction false} RoundShift(a: nat, m: nat, b: nat)
    requires 0 < b <= m
    ensures 1 <= m / b <= Round(a + m, b) - Round(a, b) <= m / b + 1
  {
    var gap, r := m / b, m % b;
    assert m == gap * b + r;
    Cancel(0, gap, b);
    var d, x := 2 * b, 2 * a + b;
    var q, s := x / d, x % d;
    assert x == q * d + s;
    var y := 2 * (a + m) + b;
    assert 2 * (gap * b) == gap * d;
    assert y == q * d + gap * d + (s + 2 * r);
    assert (q + gap) * d == q * d + gap * d;
    if s + 2 * r < d {
      QuotientIs(y, d, q + gap);
    } else {
      assert (q + gap + 1) * d == (q + gap) * d + d;
      QuotientIs(y, d, q + gap + 1);
    }
  }

  lemma {:induction false} MarksRise(i: nat, j: nat, n: nat, count: nat)
    requires 1 < count < n && i < j
    ensures TickAt(i, n, count) < TickAt(j, n, count)
    decreases j
  {
    EvenGaps(j - 1, n, count);
    if i < j - 1 {
      MarksRise(i, j - 1, n, count);
    }
  }

  /** Exactly as many marks as asked for, from the first point to the last, in rising order. */
  lemma {:induction false} MarksIncrease(n: nat, count: nat)
    requires 1 < count < n
    ensures var marks := TickMarks(n, count);
            Increasing(marks) && |marks| == count && marks[0] == 0 && marks[count - 1] == n - 1
  {
    var marks, c := TickMarks(n, count), count - 1;
    forall i, j | 0 <= i < j < |marks| ensures marks[i] < marks[j] {
      MarksRise(i, j, n, count);
    }
    RoundWhole(0, c);
    assert 0 * (n - 1) == 0 == 0 * c;
    RoundWhole(n - 1, c);
    assert c * (n - 1) == (n - 1) * c;
  }

  lemma {:induction false} RoundWhole(k: nat, c: nat)
    requires c > 0
    ensures Round(k * c, c) == k
  {
    assert 2 * (k * c) + c == k * (2 * c) + c;
    QuotientIs(2 * (k * c) + c, 2 * c, k);
  }
}
