/** Object keys that are field ids: how Rust prints an integer and how it parses a u8. */
module Decimal {
  import opened Wrappers
  import opened Json

  predicate IsDigit(c: char) { '0' <= c <= '9' }

  function Digit(d: int): (c: char)
    requires 0 <= d < 10
    ensures IsDigit(c) && c as int - '0' as int == d
  {
    ('0' as int + d) as char
  }

  /** `n.to_string()`: digits, no sign, no leading zero. */
  function Show(n: nat): string {
    if n < 10 then [Digit(n)] else Show(n / 10) + [Digit(n % 10)]
  }

  predicate AllDigits(s: string) {
    forall i :: 0 <= i < |s| ==> IsDigit(s[i])
  }

  function ValueOf(s: string): nat
    requires AllDigits(s)
  {
    if s == [] then 0 else 10 * ValueOf(s[..|s| - 1]) + (s[|s| - 1] as int - '0' as int)
  }

  /** `s.parse::<u8>()`: an optional plus sign, then digits whose value fits. */
  function ParseU8(s: string): Option<Byte> {
    var digits := if |s| > 1 && s[0] == '+' then s[1..] else s;
    if |digits| == 0 || !AllDigits(digits) || ValueOf(digits) > 255 then None
    else Some(ValueOf(digits))
  }

  lemma {:induction false} ShowIsDigits(n: nat)
    ensures |Show(n)| > 0 && AllDigits(Show(n)) && ValueOf(Show(n)) == n
  {
    if n >= 10 {
      ShowIsDigits(n / 10);
      assert Show(n)[..|Show(n)| - 1] == Show(n / 10);
    }
  }

  /** Printing and parsing a field id agree, so distinct ids print distinctly. */
  lemma {:induction false} ParseShow(n: Byte)
    ensures ParseU8(Show(n)) == Some(n)
  {
    ShowIsDigits(n);
  }

  /** `digits` is the usual way to write `n`: no sign and no leading zero. */
  predicate Names(digits: string, n: nat) {
    digits != "" && AllDigits(digits) && (|digits| > 1 ==> digits[0] != '0') && ValueOf(digits) == n
  }

  lemma {:induction false} NoLeadingZero(n: nat)
    ensures |Show(n)| > 0 && (n > 0 ==> Show(n)[0] != '0')
  {
    if n >= 10 {
      NoLeadingZero(n / 10);
      assert Show(n)[0] == Show(n / 10)[0];
    }
  }

  /** A number is printed in the usual way, and so in one way only. */
  lemma {:induction false} ShowIsUsual(n: nat)
    ensures Names(Show(n), n)
  {
    ShowIsDigits(n);
    NoLeadingZero(n);
  }

  lemma {:induction false} UsualIsShow(digits: string, n: nat)
    requires Names(digits, n)
    ensures digits == Show(n)
  {
    var front, last := digits[..|digits| - 1], digits[|digits| - 1];
    assert IsDigit(last);
    if |digits| == 1 {
      assert ValueOf(front) == 0;
    } else {
      assert forall i :: 0 <= i < |front| ==> front[i] == digits[i];
      HasValue(front);
      assert n / 10 == ValueOf(front) && n % 10 == last as int - '0' as int;
      UsualIsShow(front, n / 10);
    }
  }

  lemma {:induction false} HasValue(digits: string)
    requires digits != "" && AllDigits(digits) && digits[0] != '0'
    ensures ValueOf(digits) > 0
  {
    var front := digits[..|digits| - 1];
    assert IsDigit(digits[0]);
    if |digits| > 1 {
      HasValue(front);
    }
  }

  lemma {:induction false} ShowInjective(m: nat, n: nat)
    requires Show(m) == Show(n)
    ensures m == n
  {
    ShowIsDigits(m);
    ShowIsDigits(n);
  }

  /** The parser is not one-to-one: a sign or leading zeros name the same id. */
  lemma {:induction false} ParseAcceptsAliases()
    ensures ParseU8("+1") == ParseU8("01") == ParseU8("1") == Some(1)
    ensures ParseU8("256") == None && ParseU8("") == None && ParseU8("+") == None && ParseU8("-1") == None
  {
    assert "01"[..1] == "0" && "+1"[1..] == "1";
    assert "256"[..2] == "25" && "25"[..1] == "2";
    assert ValueOf("2") == 2 && ValueOf("25") == 25 && ValueOf("256") == 256;
    assert ValueOf("0") == 0 && ValueOf("01") == 1 && ValueOf("1") == 1;
    assert !IsDigit("+"[0]) && !IsDigit("-1"[0]);
  }
}
