/** Decimal numerals: std::to_string, and sscanf's %d. */
module Decimal {
  import opened Prelude

  predicate IsDigit(c: char) { '0' <= c <= '9' }

  function DigitValue(c: char): nat
    requires IsDigit(c)
  {
    (c - '0') as nat
  }

  function Digit(d: nat): char
    requires d < 10
  {
    '0' + d as char
  }

  predicate AllDigits(s: string) { forall i :: 0 <= i < |s| ==> IsDigit(s[i]) }

  function Unsigned(n: nat): string {
    if n < 10 then [Digit(n)] else Unsigned(n / 10) + [Digit(n % 10)]
  }

  /** std::to_string. */
  function ToString(n: int): string {
    if n < 0 then "-" + Unsigned(-n) else Unsigned(n)
  }

  function ValueOf(digits: string): nat
    requires AllDigits(digits)
  {
    if digits == "" then 0 else 10 * ValueOf(digits[..|digits| - 1]) + DigitValue(digits[|digits| - 1])
  }

  /** How many digits the text starts with. */
  function Leading(s: string): (n: nat)
    ensures n <= |s| && AllDigits(s[..n]) && (n < |s| ==> !IsDigit(s[n]))
  {
    if s == "" || !IsDigit(s[0]) then 0 else
    var n := 1 + Leading(s[1..]);
    assert forall i :: 1 <= i < n ==> s[i] == s[1..][i - 1];
    n
  }

  predicate IsSpace(c: char) { c == ' ' || '\t' <= c <= '\r' }

  function SkipSpace(s: string): string {
    if s != "" && IsSpace(s[0]) then SkipSpace(s[1..]) else s
  }

  function ScanUnsigned(s: string): Option<(nat, string)> {
    var n := Leading(s);
    if n == 0 then None else Some((ValueOf(s[..n]), s[n..]))
  }

  /** One %d: the value and what is left of the text, if there is a numeral. */
  function ScanInt(s: string): Option<(int, string)> {
    var t := SkipSpace(s);
    if t == "" then None
    else if t[0] == '-' || t[0] == '+' then
      match ScanUnsigned(t[1..])
      case None => None
      case Some(found) =>
        var value: int := found.0;
        Some((if t[0] == '-' then -value else value, found.1))
    else
      match ScanUnsigned(t)
      case None => None
      case Some(found) => Some((found.0, found.1))
  }

  lemma {:induction false} UnsignedDigits(n: nat)
    ensures Unsigned(n) != "" && AllDigits(Unsigned(n)) && ValueOf(Unsigned(n)) == n
  {
    if n >= 10 {
      UnsignedDigits(n / 10);
      assert Unsigned(n)[..|Unsigned(n)| - 1] == Unsigned(n / 10);
    } else {
      assert Unsigned(n)[..0] == "";
    }
  }

  /** Numerals are decimal, the last digit counts the ones, and a negative number has a minus in front. */
  lemma NumeralIsDecimal(n: nat)
    ensures n < 10 ==> ToString(n) == ["0123456789"[n]]
    ensures n >= 10 ==> ToString(n) == ToString(n / 10) + ["0123456789"[n % 10]]
    ensures var m: int := n; n > 0 ==> ToString(-m) == "-" + ToString(n)
  {
    assert "0123456789"[n % 10] == Digit(n % 10);
  }

  lemma {:induction false} LeadingOf(digits: string, rest: string)
    requires AllDigits(digits) && (rest == "" || !IsDigit(rest[0]))
    ensures Leading(digits + rest) == |digits|
  {
    if digits == "" {
      assert digits + rest == rest;
    } else {
      LeadingOf(digits[1..], rest);
      assert (digits + rest)[1..] == digits[1..] + rest;
    }
  }

  lemma ScanDigits(n: nat, rest: string)
    requires rest == "" || !IsDigit(rest[0])
    ensures ScanUnsigned(Unsigned(n) + rest) == Some((n, rest))
  {
    var digits := Unsigned(n);
    UnsignedDigits(n);
    LeadingOf(digits, rest);
    assert (digits + rest)[..|digits|] == digits;
    assert (digits + rest)[|digits|..] == rest;
  }

  lemma ScanNatural(s: string)
    requires s != "" && IsDigit(s[0]) && ScanUnsigned(s).Some?
    ensures ScanInt(s) == Some((ScanUnsigned(s).value.0, ScanUnsigned(s).value.1))
  {
    assert SkipSpace(s) == s;
  }

  lemma ScanNegative(s: string)
    requires ScanUnsigned(s).Some?
    ensures var value: int := ScanUnsigned(s).value.0;
            ScanInt("-" + s) == Some((-value, ScanUnsigned(s).value.1))
  {
    assert ("-" + s)[1..] == s;
    assert SkipSpace("-" + s) == "-" + s;
  }

  lemma ScanPlus(s: string)
    requires ScanUnsigned(s).Some?
    ensures ScanInt("+" + s) == Some((ScanUnsigned(s).value.0, ScanUnsigned(s).value.1))
  {
    assert ("+" + s)[1..] == s;
    assert SkipSpace("+" + s) == "+" + s;
  }

  lemma {:induction false} BlanksAreSkipped(n: nat, s: string)
    ensures SkipSpace(seq(n, _ => ' ') + s) == SkipSpace(s)
  {
    var all := seq(n, _ => ' ') + s;
    if n == 0 {
      assert all == s;
    } else {
      assert all[1..] == seq(n - 1, _ => ' ') + s;
      BlanksAreSkipped(n - 1, s);
    }
  }

  /** The characters that isspace takes. */
  lemma SpacesAre(c: char)
    ensures IsSpace(c) <==> c as int == 32 || 9 <= c as int <= 13
  {
  }

  /** What %d takes: any blanks are skipped, */
  lemma ScansOnBehindBlanks(n: nat, s: string)
    ensures ScanInt(seq(n, _ => ' ') + s) == ScanInt(s)
  {
    BlanksAreSkipped(n, s);
  }

  lemma ScanAllDigits(digits: string, rest: string)
    requires digits != "" && AllDigits(digits) && (rest == "" || !IsDigit(rest[0]))
    ensures ScanUnsigned(digits + rest) == Some((ValueOf(digits), rest))
  {
    LeadingOf(digits, rest);
    assert (digits + rest)[..|digits|] == digits && (digits + rest)[|digits|..] == rest;
  }

  /** and then there may be a sign, and all the digits there are. */
  lemma ScanForms(s: string, digits: string, rest: string)
    requires digits != "" && AllDigits(digits) && (rest == "" || !IsDigit(rest[0])) && s == digits + rest
    ensures ScanInt(s) == Some((ValueOf(digits) as int, rest))
    ensures ScanInt("+" + s) == Some((ValueOf(digits) as int, rest))
    ensures ScanInt("-" + s) == Some((-(ValueOf(digits) as int), rest))
  {
    ScanAllDigits(digits, rest);
    ScanNatural(s);
    ScanPlus(s);
    ScanNegative(s);
  }

  /** It takes nothing where there is no digit behind them. */
  lemma ScanNeedsDigit(n: nat, rest: string)
    requires rest == "" || !IsDigit(rest[0])
    ensures var blanks := seq(n, _ => ' ');
            ScanInt(blanks + "").None? && ScanInt(blanks + ("+" + rest)).None? && ScanInt(blanks + ("-" + rest)).None?
  {
    BlanksAreSkipped(n, "");
    BlanksAreSkipped(n, "+" + rest);
    BlanksAreSkipped(n, "-" + rest);
    assert ("+" + rest)[1..] == rest && ("-" + rest)[1..] == rest;
    assert Leading(rest) == 0;
  }

  /** A printed number is read back, up to what follows it, unless that starts with a digit. */
  lemma ScanPrinted(x: int, rest: string)
    requires rest == "" || !IsDigit(rest[0])
    ensures ScanInt(ToString(x) + rest) == Some((x, rest))
  {
    var n: nat := if x < 0 then -x else x;
    var s := Unsigned(n) + rest;
    UnsignedDigits(n);
    ScanDigits(n, rest);
    if x < 0 {
      assert ToString(x) + rest == "-" + s;
      ScanNegative(s);
    } else {
      ScanNatural(s);
    }
  }

  /** Different numbers print differently. */
  lemma Injective(x: int, y: int)
    requires ToString(x) == ToString(y)
    ensures x == y
  {
    ScanPrinted(x, "");
    ScanPrinted(y, "");
    assert ToString(x) + "" == ToString(y) + "";
  }

  /** A printed number has no character but digits and a sign. */
  lemma Printable(x: int, c: char)
    requires !IsDigit(c) && c != '-'
    ensures c !in ToString(x) && ToString(x) != ""
  {
    UnsignedDigits(if x < 0 then -x else x);
  }
}
