// Decimal text of integers: the printer behind `to_string` and the parsers
// behind `parse::<i64>`, `parse::<usize>` and `parse::<u32>`.
module Decimal {
  import opened Prelude

  const DIGITS := "0123456789"

  predicate IsDigit(c: char) {
    '0' <= c <= '9'
  }

  function DigitValue(c: char): (v: nat)
    requires IsDigit(c)
    ensures v < 10
  {
    (c - '0') as nat
  }

  predicate AllDigits(s: string) {
    forall i :: 0 <= i < |s| ==> IsDigit(s[i])
  }

  function Print(n: nat): (s: string)
    ensures |s| > 0 && AllDigits(s)
    ensures |s| > 1 ==> s[0] != '0'
  {
    if n < 10 then [DIGITS[n]] else Print(n / 10) + [DIGITS[n % 10]]
  }

  function PrintInt(n: int): string {
    if n < 0 then "-" + Print(-n) else Print(n)
  }

  // Value of a digit string; the empty string has value 0.
  function Value(s: string): nat
    requires AllDigits(s)
  {
    if s == [] then 0 else 10 * Value(s[..|s| - 1]) + DigitValue(s[|s| - 1])
  }

  // `parse` of an unsigned integer type: an optional '+' and at least one digit.
  function ParseUnsigned(s: string, max: nat): Option<nat> {
    var body := if |s| > 0 && s[0] == '+' then s[1..] else s;
    if body == [] || !AllDigits(body) || Value(body) > max then None else Some(Value(body))
  }

  // `parse` of a signed integer type: an optional sign and at least one digit.
  function ParseSigned(s: string, min: int, max: int): Option<int> {
    var negative := |s| > 0 && s[0] == '-';
    var body := if |s| > 0 && (s[0] == '-' || s[0] == '+') then s[1..] else s;
    if body == [] || !AllDigits(body) then None
    else
      var v: int := if negative then -(Value(body) as int) else Value(body);
      if min <= v <= max then Some(v) else None
  }

  lemma {:induction false} ValueOfPrint(n: nat)
    ensures Value(Print(n)) == n
  {
    if n >= 10 {
      var s := Print(n);
      assert s[..|s| - 1] == Print(n / 10);
      ValueOfPrint(n / 10);
    }
  }

  lemma DigitChar(c: char)
    requires IsDigit(c)
    ensures DIGITS[DigitValue(c)] == c
  {
  }

  lemma PrintStep(v: nat, d: nat)
    requires d < 10
    ensures Print(10 * v + d) == if v == 0 then [DIGITS[d]] else Print(v) + [DIGITS[d]]
  {
    assert (10 * v + d) / 10 == v && (10 * v + d) % 10 == d;
  }

  lemma {:induction false} PrintOfValue(s: string)
    requires AllDigits(s) && |s| > 0
    requires |s| > 1 ==> s[0] != '0'
    ensures Print(Value(s)) == s
  {
    hide Print, DigitValue;
    var head, last := s[..|s| - 1], s[|s| - 1];
    assert Value(s) == 10 * Value(head) + DigitValue(last);
    assert head == [] ==> Value(head) == 0;
    hide Value;
    PrintStep(Value(head), DigitValue(last));
    DigitChar(last);
    assert s == head + [last];
    if head != [] {
      assert head[0] == s[0];
      LeadingDigit(head);
      PrintOfValue(head);
    }
  }

  // A digit string that does not start with '0' is at least 10^(length - 1).
  lemma {:induction false} LeadingDigit(s: string)
    requires AllDigits(s) && |s| > 0 && s[0] != '0'
    ensures Value(s) > 0
  {
    if |s| > 1 { LeadingDigit(s[..|s| - 1]); }
  }

  lemma {:induction false} PrintParses(n: nat, min: int, max: int)
    requires min <= n <= max
    ensures ParseSigned(Print(n), min, max) == Some(n)
    ensures ParseUnsigned(Print(n), max) == Some(n)
  {
    ValueOfPrint(n);
  }

  // A negative number too.
  lemma {:induction false} IntParses(n: int, min: int, max: int)
    requires min <= n <= max
    ensures ParseSigned(PrintInt(n), min, max) == Some(n)
  {
    if n < 0 {
      hide Print, Value;
      ValueOfPrint(-n);
      var s := "-" + Print(-n);
      assert s[0] == '-' && s[1..] == Print(-n);
    } else {
      hide ParseSigned;
      PrintParses(n, min, max);
    }
  }

  lemma {:induction false} PrintInjective(m: int, n: int)
    requires PrintInt(m) == PrintInt(n)
    ensures m == n
  {
    var a, b := if m < 0 then -m else m, if n < 0 then -n else n;
    ValueOfPrint(a);
    ValueOfPrint(b);
    assert m < 0 ==> PrintInt(m)[1..] == Print(a);
    assert n < 0 ==> PrintInt(n)[1..] == Print(b);
  }

  function Pow10(k: nat): (p: nat)
    ensures p >= 1
  {
    if k == 0 then 1 else 10 * Pow10(k - 1)
  }

  lemma {:induction false} PrintLength(n: nat, k: nat)
    requires k > 0 && n < Pow10(k)
    ensures |Print(n)| <= k
  {
    if n >= 10 { PrintLength(n / 10, k - 1); }
  }

  // A leading plus sign is accepted, and a minus sign by signed types only.
  lemma {:induction false} SignsAre(n: nat, max: nat)
    requires n <= max
    ensures ParseUnsigned("+" + Print(n), max) == Some(n) && ParseSigned("+" + Print(n), 0, max) == Some(n)
    ensures ParseUnsigned("-" + Print(n), max).None?
  {
    hide Print, Value;
    ValueOfPrint(n);
    var plus, minus := "+" + Print(n), "-" + Print(n);
    assert plus[0] == '+' && plus[1..] == Print(n);
    assert minus[0] == '-' && !IsDigit('-');
  }
}
