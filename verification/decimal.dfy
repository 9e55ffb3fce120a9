/** 64-bit integers and their decimal numerals, as strconv parses and formats them. */
module Decimal {
  import opened Wrappers

  const TWO_63: int := 0x8000_0000_0000_0000
  const TWO_64: int := 0x1_0000_0000_0000_0000

  type Int64 = n: int | -TWO_63 <= n < TWO_63

  /** Two's complement wrap-around: the number in range that differs from n by a multiple of 2^64. */
  function Wrap64(n: int): Int64
    decreases if n < -TWO_63 then -n else if n < TWO_63 then 0 else n
  {
    if n < -TWO_63 then Wrap64(n + TWO_64) else if n < TWO_63 then n else Wrap64(n - TWO_64)
  }

  lemma {:induction false} WrapIsCongruent(n: int)
    ensures exists k :: Wrap64(n) == n + k * TWO_64
    decreases if n < -TWO_63 then -n else if n < TWO_63 then 0 else n
  {
    if n < -TWO_63 {
      WrapIsCongruent(n + TWO_64);
      var k :| Wrap64(n + TWO_64) == n + TWO_64 + k * TWO_64;
      assert Wrap64(n) == n + (k + 1) * TWO_64;
    } else if n < TWO_63 {
      assert Wrap64(n) == n + 0 * TWO_64;
    } else {
      WrapIsCongruent(n - TWO_64);
      var k :| Wrap64(n - TWO_64) == n - TWO_64 + k * TWO_64;
      assert Wrap64(n) == n + (k - 1) * TWO_64;
    }
  }

  lemma {:induction false} WrapAdd(a: int, b: int)
    ensures Wrap64(Wrap64(a) + b) == Wrap64(a + b)
    decreases if a < -TWO_63 then -a else if a < TWO_63 then 0 else a
  {
    if a < -TWO_63 {
      WrapAdd(a + TWO_64, b);
      WrapShift(a + b);
    } else if a >= TWO_63 {
      WrapAdd(a - TWO_64, b);
      WrapShift(a - TWO_64 + b);
    }
  }

  lemma WrapShift(n: int)
    ensures Wrap64(n + TWO_64) == Wrap64(n)
  {
  }

  predicate IsDigit(c: char) { '0' <= c <= '9' }

  predicate AllDigits(s: string) { forall i :: 0 <= i < |s| ==> IsDigit(s[i]) }

  function Value(s: string): nat
    requires AllDigits(s)
  {
    if s == "" then 0 else 10 * Value(s[..|s| - 1]) + (s[|s| - 1] - '0') as nat
  }

  /** strconv.ParseUint(s, 10, 64). */
  function ParseUint(s: string): Option<nat> {
    if s != "" && AllDigits(s) && Value(s) < TWO_64 then Some(Value(s)) else None
  }

  /** strconv.FormatUint(n, 10). */
  function FormatUint(n: nat): string {
    if n < 10 then ['0' + n as char] else FormatUint(n / 10) + ['0' + (n % 10) as char]
  }

  /** A signed 64-bit integer, without a leading '+'. */
  function ParseInt(s: string): Option<int> {
    var digits := if s != "" && s[0] == '-' then s[1..] else s;
    if digits == "" || !AllDigits(digits) then None
    else
      var n: int := if digits == s then Value(digits) as int else -(Value(digits) as int);
      if -TWO_63 <= n < TWO_63 then Some(n) else None
  }

  function FormatInt(n: int): string { if n < 0 then "-" + FormatUint(-n) else FormatUint(n) }

  lemma {:induction false} FormatHasNoLeadingZero(n: nat)
    requires n > 0
    ensures FormatUint(n) != "" && FormatUint(n)[0] != '0'
  {
    if n >= 10 {
      FormatHasNoLeadingZero(n / 10);
    }
  }

  lemma {:induction false} FormatUndoesValue(s: string)
    requires s != "" && AllDigits(s) && s[0] != '0'
    ensures Value(s) > 0 && FormatUint(Value(s)) == s
  {
    var p, d := s[..|s| - 1], (s[|s| - 1] - '0') as nat;
    assert s == p + [s[|s| - 1]];
    if p == "" {
      assert Value("") == 0;
    } else {
      FormatUndoesValue(p);
      assert Value(s) / 10 == Value(p) && Value(s) % 10 == d;
    }
  }

  lemma {:induction false} ValueUndoesFormat(n: nat)
    ensures FormatUint(n) != "" && AllDigits(FormatUint(n)) && Value(FormatUint(n)) == n
  {
    var s := FormatUint(n);
    if n < 10 {
      assert s[..|s| - 1] == "" && Value("") == 0;
    } else {
      ValueUndoesFormat(n / 10);
      assert s[..|s| - 1] == FormatUint(n / 10);
    }
  }

  lemma ParseUndoesFormat(n: int)
    requires -TWO_63 <= n < TWO_63
    ensures ParseInt(FormatInt(n)) == Some(n)
  {
    var magnitude: nat := if n < 0 then -n else n;
    ValueUndoesFormat(magnitude);
    ParseSigned(FormatUint(magnitude), n < 0);
  }

  lemma ParseSigned(digits: string, negative: bool)
    requires digits != "" && AllDigits(digits)
    requires Value(digits) < TWO_63 || (negative && Value(digits) == TWO_63)
    ensures ParseInt(if negative then "-" + digits else digits)
         == Some(if negative then -(Value(digits) as int) else Value(digits) as int)
  {
    assert IsDigit(digits[0]);
    assert ("-" + digits)[1..] == digits;
  }
}
