/** Decimal numbers as they are printed and parsed. */
module Numbers {
  import opened Basics

  const I32_MIN := -0x8000_0000
  const I32_MAX := 0x7fff_ffff
  const I64_MIN := -0x8000_0000_0000_0000
  const I64_MAX := 0x7fff_ffff_ffff_ffff

  predicate IsDigit(c: char) {
    '0' <= c <= '9'
  }

  predicate AllDigits(s: string) {
    forall i :: 0 <= i < |s| ==> IsDigit(s[i])
  }

  function DigitsValue(s: string): nat
    requires AllDigits(s)
  {
    if s == "" then 0 else 10 * DigitsValue(s[..|s| - 1]) + (s[|s| - 1] as int - '0' as int)
  }

  /** `str::parse` for an integer type that reaches from `lo` to `hi`: an optional sign, then
      digits. A type without negative values takes no minus sign. */
  function ParseInt(s: string, lo: int, hi: int): (r: Option<int>)
    ensures r.Some? ==> lo <= r.value <= hi
  {
    var negative := s != "" && s[0] == '-' && lo < 0;
    var digits := if negative || (s != "" && s[0] == '+') then s[1..] else s;
    if digits == "" || !AllDigits(digits) then None
    else
      var sign := if negative then -1 else 1;
      var v := sign * DigitsValue(digits);
      if lo <= v <= hi then Some(v) else None
  }

  function PrintNat(n: nat): string {
    var last := [(n % 10 + '0' as int) as char];
    if n < 10 then last else PrintNat(n / 10) + last
  }

  lemma {:induction false} PrintedDigits(n: nat)
    ensures PrintNat(n) != "" && AllDigits(PrintNat(n)) && DigitsValue(PrintNat(n)) == n
  {
    if n >= 10 {
      PrintedDigits(n / 10);
      var front, s := PrintNat(n / 10), PrintNat(n);
      assert s[..|s| - 1] == front;
    }
  }

  function PrintInt(n: int): string {
    if n < 0 then "-" + PrintNat(-n) else PrintNat(n)
  }

  lemma {:induction false} ParsePrinted(n: int, lo: int, hi: int)
    requires lo <= n <= hi && lo < 0
    ensures ParseInt(PrintInt(n), lo, hi) == Some(n)
    ensures ':' !in PrintInt(n)
  {
    var s := PrintInt(n);
    PrintedDigits(if n < 0 then -n else n);
    if n < 0 {
      assert s[1..] == PrintNat(-n);
    } else {
      assert IsDigit(s[0]);
    }
    forall i | 0 <= i < |s| ensures s[i] != ':' {
      if n < 0 && i > 0 {
        assert s[i] == PrintNat(-n)[i - 1];
      }
    }
  }

  function Ceiling(x: real): int {
    -((-x).Floor)
  }

  lemma {:induction false} Cancel(a: int, b: int, d: int)
    requires d > 0
    ensures a * d < b * d <==> a < b
    ensures a * d <= b * d <==> a <= b
  {}
}
