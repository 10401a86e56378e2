/** Signed decimal text: the standard library's printing and parsing of `i128`, and the two
    independent canonicality checks built on them. */
module Decimal {
  import opened Prelude

  predicate IsDigit(c: char) { '0' <= c <= '9' }

  predicate AllDigits(s: string) { forall i | 0 <= i < |s| :: IsDigit(s[i]) }

  function DigitChar(d: nat): (c: char)
    requires d < 10
  {
    '0' + d as char
  }

  function DigitValue(c: char): nat
    requires IsDigit(c)
  {
    c as int - '0' as int
  }

  /** `to_string` of a non-negative integer: no leading zero except for zero itself. */
  function PrintNat(n: nat): (s: string)
    ensures |s| > 0 && AllDigits(s)
  {
    if n < 10 then [DigitChar(n)] else PrintNat(n / 10) + [DigitChar(n % 10)]
  }

  function Print(n: int): (s: string) {
    if n < 0 then "-" + PrintNat(-n) else PrintNat(n)
  }

  function NatValue(s: string): nat
    requires AllDigits(s)
  {
    if s == [] then 0 else 10 * NatValue(s[..|s| - 1]) + DigitValue(s[|s| - 1])
  }

  /** `str::parse::<i128>`: an optional sign, at least one digit, a value in range. */
  function ParseI128(s: string): Option<i128> {
    var negative := s != [] && s[0] == '-';
    var digits := if s != [] && (s[0] == '-' || s[0] == '+') then s[1..] else s;
    if digits == [] || !AllDigits(digits) then None
    else CheckedI128(if negative then 0 - NatValue(digits) else NatValue(digits) as int)
  }

  /** The server's check: parse, print again, compare. */
  function ServerSector(s: string): Option<i128> {
    match ParseI128(s)
    case None => None
    case Some(n) => if Print(n) == s then Some(n) else None
  }

  predicate NonZeroDigit(c: char) { '1' <= c <= '9' }

  predicate CanonicalShape(s: string) {
    || s == "0"
    || (|s| >= 1 && NonZeroDigit(s[0]) && AllDigits(s[1..]))
    || (|s| >= 2 && s[0] == '-' && NonZeroDigit(s[1]) && AllDigits(s[2..]))
  }

  /** The verifier's check: match the shape, then parse. */
  function VerifierSector(s: string): Option<i128> {
    if CanonicalShape(s) then ParseI128(s) else None
  }

  lemma {:induction false} NatValueOfPrint(n: nat)
    ensures NatValue(PrintNat(n)) == n
  {
    if n >= 10 {
      NatValueOfPrint(n / 10);
      var s := PrintNat(n / 10);
      assert (s + [DigitChar(n % 10)])[..|s|] == s;
    }
  }

  lemma {:induction false} PrintHasNoLeadingZero(n: nat)
    ensures n > 0 ==> NonZeroDigit(PrintNat(n)[0])
  {
    if n >= 10 { PrintHasNoLeadingZero(n / 10); }
  }

  lemma {:induction false} PrintOfNatValue(s: string)
    requires |s| > 0 && AllDigits(s)
    requires NonZeroDigit(s[0])
    ensures NatValue(s) > 0 && PrintNat(NatValue(s)) == s
  {
    var init, last := s[..|s| - 1], s[|s| - 1];
    assert s == init + [last];
    if init == [] {
      assert NatValue(init) == 0;
    } else {
      PrintOfNatValue(init);
      assert NatValue(s) / 10 == NatValue(init);
    }
  }

  /** Parsing undoes printing, for every value of the type. */
  lemma ParseUndoesPrint(n: i128)
    ensures ParseI128(Print(n)) == Some(n)
  {
    var m := Magnitude(n);
    NatValueOfPrint(m);
    assert n < 0 ==> Print(n)[1..] == PrintNat(m);
    assert IsDigit(PrintNat(m)[0]);
  }

  lemma PrintIsCanonical(n: int)
    ensures CanonicalShape(Print(n))
  {
    var m := Magnitude(n);
    var s := PrintNat(m);
    if m == 0 {
      assert Print(n) == "0";
    } else {
      PrintHasNoLeadingZero(m);
      if n < 0 {
        assert Print(n)[2..] == s[1..];
      }
    }
  }

  lemma {:induction false} CanonicalIsPrinted(s: string)
    requires CanonicalShape(s) && ParseI128(s).Some?
    ensures Print(ParseI128(s).value) == s
  {
    if s[0] == '-' {
      var t := s[1..];
      assert t[0] == s[1] && t[1..] == s[2..];
      assert AllDigits(t) by {
        forall i | 0 <= i < |t| ensures IsDigit(t[i]) {
          if i > 0 { assert t[i] == s[2..][i - 1]; }
        }
      }
      PrintOfNatValue(t);
      assert s == "-" + t;
    } else if s == "0" {
      assert s[..0] == [];
      assert NatValue(s) == 0;
    } else {
      assert AllDigits(s) by {
        forall i | 0 <= i < |s| ensures IsDigit(s[i]) {
          if i > 0 { assert s[i] == s[1..][i - 1]; }
        }
      }
      PrintOfNatValue(s);
    }
  }

  /** The server and the verifier accept the same strings with the same values, and those
      strings are exactly the printed forms of the type's values. */
  lemma SectorChecksAgree(s: string)
    ensures ServerSector(s) == VerifierSector(s)
    ensures forall n: i128 :: VerifierSector(s) == Some(n) <==> s == Print(n)
  {
    match ParseI128(s) {
      case None =>
      case Some(n) =>
        if Print(n) == s { PrintIsCanonical(n); }
        if CanonicalShape(s) { CanonicalIsPrinted(s); }
    }
    forall n: i128 ensures VerifierSector(s) == Some(n) <==> s == Print(n) {
      if s == Print(n) {
        ParseUndoesPrint(n);
        PrintIsCanonical(n);
      } else if VerifierSector(s) == Some(n) {
        CanonicalIsPrinted(s);
      }
    }
  }
}
