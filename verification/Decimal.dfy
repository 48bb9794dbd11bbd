/** Decimal numerals, as `format!("{}")` prints them and `parse` reads them. */
module Decimal {
  import opened Basics

  function Print(n: nat): string {
    if n < 10 then [Digit(n)] else Print(n / 10) + [Digit(n % 10)]
  }

  function Digit(d: nat): char
    requires d < 10
  {
    ('0' as int + d) as char
  }

  predicate IsDigit(c: char) { '0' <= c <= '9' }

  predicate AllDigits(s: string) { forall i :: 0 <= i < |s| ==> IsDigit(s[i]) }

  function Value(s: string): nat
    requires AllDigits(s)
  {
    if s == "" then 0 else Value(s[..|s| - 1]) * 10 + (s[|s| - 1] as int - '0' as int)
  }

  /** `str::parse` for an unsigned type whose largest value is `max`: one plus sign may come
      first, leading zeros are allowed, and a value that does not fit is an error. */
  function Parse(s: string, max: nat): Option<nat> {
    var digits := if s != "" && s[0] == '+' then s[1..] else s;
    if digits == "" || !AllDigits(digits) || Value(digits) > max then None else Some(Value(digits))
  }

  lemma {:induction false} PrintIsNumeral(n: nat)
    ensures Print(n) != "" && AllDigits(Print(n)) && Value(Print(n)) == n
    ensures Print(n)[0] == '0' ==> n == 0
  {
    if n >= 10 {
      PrintIsNumeral(n / 10);
      assert Print(n)[..|Print(n)| - 1] == Print(n / 10);
    }
  }

  /** A numeral without leading zeros is the printed form of its value. */
  lemma {:induction false} NumeralIsPrint(s: string)
    requires s != "" && AllDigits(s) && (s[0] == '0' ==> |s| == 1)
    ensures Print(Value(s)) == s
  {
    var init, last := s[..|s| - 1], s[|s| - 1];
    if init == "" {
      assert s == [last] && Value(init) == 0;
    } else {
      NumeralIsPrint(init);
      PrintIsNumeral(Value(init));
      assert Print(0) == "0" && init[0] == s[0];
      assert Value(init) > 0;
      assert s == init + [last];
    }
  }

  /** A printed number is read back exactly when it fits. */
  lemma PrintParse(n: nat, max: nat)
    ensures Parse(Print(n), max) == if n <= max then Some(n) else None
  {
    PrintIsNumeral(n);
  }

  lemma {:induction false} PrintLength(n: nat)
    ensures n < 100 ==> |Print(n)| <= 2
    ensures n < 1000 ==> |Print(n)| <= 3
  {
    if n >= 10 {
      PrintLength(n / 10);
    }
  }

  /** What is read as a number: digits, with at most one plus sign before them; leading zeros do not
      matter. Everything else is refused. */
  lemma ParseMeans(s: string, max: nat)
    ensures s != "" && AllDigits(s) ==> Parse(s, max) == Parse("+" + s, max) == if Value(s) <= max then Some(Value(s)) else None
    ensures AllDigits(s) ==> AllDigits("0" + s) && Value("0" + s) == Value(s)
    ensures Parse(s, max).Some? ==> AllDigits(s) || (s[0] == '+' && |s| > 1 && AllDigits(s[1..]))
  {
    assert ("+" + s)[1..] == s;
    if AllDigits(s) {
      LeadingZero(s);
    }
  }

  lemma {:induction false} LeadingZero(s: string)
    requires AllDigits(s)
    ensures AllDigits("0" + s) && Value("0" + s) == Value(s)
  {
    if s == "" {
      assert ("0" + s)[..0] == "";
    } else {
      LeadingZero(s[..|s| - 1]);
      assert ("0" + s)[..|s|] == "0" + s[..|s| - 1];
    }
  }
}
