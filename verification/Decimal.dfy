/** Decimal numerals as the standard library prints and reads them. */
module Decimal {

  predicate IsDigit(c: char) { '0' <= c <= '9' }

  predicate AllDigits(s: string) { forall i :: 0 <= i < |s| ==> IsDigit(s[i]) }

  function DigitOf(d: nat): (c: char)
    requires d < 10
    ensures IsDigit(c) && c as nat - '0' as nat == d
  {
    ('0' as nat + d) as char
  }

  /** The numeral of `n`, without leading zeros. */
  function Print(n: nat): (s: string)
    ensures s != [] && AllDigits(s) && (|s| > 1 ==> s[0] != '0')
    ensures n > 0 ==> s[0] != '0'
  {
    if n < 10 then [DigitOf(n)] else Print(n / 10) + [DigitOf(n % 10)]
  }

  function Value(s: string): nat
    requires AllDigits(s)
  {
    if s == [] then 0 else 10 * Value(s[..|s| - 1]) + (s[|s| - 1] as nat - '0' as nat)
  }

  predicate Canonical(s: string) { s != [] && AllDigits(s) && (|s| > 1 ==> s[0] != '0') }

  lemma {:induction false} ValueOfPrint(n: nat)
    ensures Value(Print(n)) == n
  {
    if n < 10 {
      assert Value([DigitOf(n)]) == 10 * Value([]) + n;
    } else {
      ValueOfPrint(n / 10);
      assert Print(n)[..|Print(n)| - 1] == Print(n / 10);
    }
  }

  lemma {:induction false} PositiveValue(s: string)
    requires AllDigits(s) && s != [] && s[0] != '0'
    ensures Value(s) > 0
  {
    if |s| > 1 {
      PositiveValue(s[..|s| - 1]);
    }
  }

  lemma {:induction false} PrintOfValue(s: string)
    requires Canonical(s)
    ensures Print(Value(s)) == s
  {
    var t, d := s[..|s| - 1], s[|s| - 1] as nat - '0' as nat;
    if |s| == 1 {
      assert Value(t) == 0;
      assert s == [DigitOf(d)];
    } else {
      PositiveValue(t);
      PrintOfValue(t);
      assert Value(s) / 10 == Value(t) && Value(s) % 10 == d;
      assert s == t + [DigitOf(d)];
    }
  }

  /** Printing is one to one. */
  lemma PrintInjective(a: nat, b: nat)
    requires Print(a) == Print(b)
    ensures a == b
  {
    ValueOfPrint(a);
    ValueOfPrint(b);
  }

  lemma {:induction false} LongerIsLarger(a: nat, b: nat)
    requires a <= b
    ensures |Print(a)| <= |Print(b)|
  {
    if b >= 10 && a >= 10 {
      LongerIsLarger(a / 10, b / 10);
    }
  }

  /** A canonical numeral with more digits than `max` has denotes a larger number. */
  lemma TooManyDigits(s: string, max: nat)
    requires Canonical(s) && |s| > |Print(max)|
    ensures Value(s) > max
  {
    PrintOfValue(s);
    if Value(s) <= max {
      LongerIsLarger(Value(s), max);
    }
  }

  /** Number of decimal digits, counted by repeated division. */
  method CountDigits(n: nat) returns (digits: nat)
    ensures digits == |Print(n)|
  {
    digits := 1;
    var value := n;
    while value >= 10
      invariant |Print(value)| + digits - 1 == |Print(n)|
    {
      value := value / 10;
      digits := digits + 1;
    }
  }
}
