/**
 Exact-decimal printing of money: an amount in millionths of a dollar is printed with six fractional
 digits, loses its trailing zeros, and is padded back to two.
 */
module Decimal {
  import opened Prelude
  import opened Text

  const MILLION := 1000000

  /** A number in exactly w digits, leading zeros included. */
  function Padded(n: nat, w: nat): (s: string)
    ensures |s| == w
  {
    if w == 0 then "" else Padded(n / 10, w - 1) + [Digit(n % 10)]
  }

  function Magnitude(m: int): nat {
    if m < 0 then -m else m
  }

  function Sign(m: int): string {
    if m < 0 then "-" else ""
  }

  /** Fixed-point formatting with six fractional digits. */
  function Formatted(m: int): string {
    Sign(m) + Number(Magnitude(m) / MILLION) + "." + Padded(Magnitude(m) % MILLION, 6)
  }

  // ---- Reading it back -----------------------------------------------------------------------

  predicate IsDigit(c: char) {
    '0' <= c <= '9'
  }

  predicate Digits(s: string) {
    forall i :: 0 <= i < |s| ==> IsDigit(s[i])
  }

  /** The number a string of digits stands for. */
  function Reading(s: string): nat
    requires Digits(s)
  {
    if s == "" then 0 else 10 * Reading(s[..|s| - 1]) + (s[|s| - 1] - '0') as nat
  }

  function Zeros(n: nat): string {
    seq(n, i => '0')
  }

  /** The pattern the budget fields of the API accept: digits, then perhaps a dot and one to six more. */
  ghost predicate Budget(s: string) {
    exists i :: 1 <= i <= |s| && Digits(s[..i]) && (i == |s| || Fraction(s[i..]))
  }

  predicate Fraction(s: string) {
    2 <= |s| <= 7 && s[0] == '.' && Digits(s[1..])
  }

  /** The amount in millionths a budget text stands for. */
  function ParseAmount(s: string): Option<int> {
    var dot := FirstAt(s, '.');
    if dot == 0 || |s| < dot || !Digits(s[..dot]) then None
    else if dot == |s| then Some(Reading(s) * MILLION)
    else if !Fraction(s[dot..]) then None
    else
      var micros := s[dot + 1..] + Zeros(7 - (|s| - dot));
      Some(Reading(s[..dot]) * MILLION + Reading(micros))
  }

  function Parse(s: string): Option<int> {
    if s != "" && s[0] == '-' then
      match ParseAmount(s[1..]) { case None => None case Some(n) => Some(-n) }
    else
      match ParseAmount(s) { case None => None case Some(n) => Some(n) }
  }

  lemma DigitsAppend(s: string, c: char)
    requires Digits(s) && IsDigit(c)
    ensures Digits(s + [c]) && Reading(s + [c]) == 10 * Reading(s) + (c - '0') as nat
  {
    assert (s + [c])[..|s|] == s;
  }

  lemma DigitIs(n: nat)
    requires n < 10
    ensures IsDigit(Digit(n)) && (Digit(n) - '0') as nat == n
  {
    assert n == 0 || n == 1 || n == 2 || n == 3 || n == 4 || n == 5 || n == 6 || n == 7 || n == 8 || n == 9;
  }

  lemma {:induction false} NumberReads(n: nat)
    ensures Digits(Number(n)) && Reading(Number(n)) == n && Number(n) != ""
  {
    DigitIs(n % 10);
    if n < 10 {
      assert [Digit(n)][..0] == "";
    } else {
      NumberReads(n / 10);
      DigitsAppend(Number(n / 10), Digit(n % 10));
    }
  }

  lemma {:induction false} PaddedReads(n: nat, w: nat)
    requires n < Power(10, w)
    ensures Digits(Padded(n, w)) && Reading(Padded(n, w)) == n
  {
    if w > 0 {
      DigitIs(n % 10);
      PaddedReads(n / 10, w - 1);
      DigitsAppend(Padded(n / 10, w - 1), Digit(n % 10));
    }
  }

  // ---- Trimming and padding ------------------------------------------------------------------

  function TrimZeros(s: string): string {
    if s != "" && s[|s| - 1] == '0' then TrimZeros(s[..|s| - 1]) else s
  }

  /** The fraction without trailing zeros, down to two digits. */
  function Kept(s: string): (r: string)
    ensures |s| >= 2 ==> 2 <= |r| <= |s|
    ensures |r| > 2 ==> r[|r| - 1] != '0'
  {
    if |s| > 2 && s[|s| - 1] == '0' then Kept(s[..|s| - 1]) else s
  }

  /** Putting the zeros back gives the fraction. */
  lemma {:induction false} KeptZeros(s: string)
    requires |s| >= 2
    ensures |Kept(s)| <= |s| && Kept(s) + Zeros(|s| - |Kept(s)|) == s
  {
    if |s| > 2 && s[|s| - 1] == '0' {
      var front := s[..|s| - 1];
      KeptZeros(front);
      assert s == front + "0";
      var gone := |front| - |Kept(front)|;
      assert Zeros(gone) + "0" == Zeros(gone + 1);
      assert Kept(front) + (Zeros(gone) + "0") == Kept(front) + Zeros(gone) + "0";
    }
  }

  /** Trimming everything and padding back is the same as trimming down to two. */
  lemma {:induction false} TrimThenPad(s: string)
    requires |s| >= 2
    ensures var t := TrimZeros(s); Kept(s) == if |t| >= 2 then t else t + Zeros(2 - |t|)
  {
    if s[|s| - 1] == '0' {
      var front := s[..|s| - 1];
      if |s| > 2 {
        TrimThenPad(front);
      } else if front[0] == '0' {
        assert front[..0] == "" && s == Zeros(2);
        assert "" + Zeros(2) == Zeros(2);
      } else {
        assert front == [s[0]] && s == front + Zeros(1);
      }
    }
  }

  /** What the printer prints. */
  function Printed(m: int): string {
    Sign(m) + Number(Magnitude(m) / MILLION) + "." + Kept(Padded(Magnitude(m) % MILLION, 6))
  }

  lemma {:induction false} NoDotInDigits(s: string)
    requires Digits(s)
    ensures '.' !in s
  {
  }

  lemma FormattedParts(m: int)
    ensures var whole := Sign(m) + Number(Magnitude(m) / MILLION);
            '.' !in whole && FirstAt(Formatted(m), '.') == |whole| && Formatted(m) == whole + "." + Padded(Magnitude(m) % MILLION, 6)
  {
    var whole := Sign(m) + Number(Magnitude(m) / MILLION);
    NumberReads(Magnitude(m) / MILLION);
    NoDotInDigits(Number(Magnitude(m) / MILLION));
    FirstAtCut(whole, '.', Padded(Magnitude(m) % MILLION, 6));
  }

  /** Pads with zeros to two digits. */
  method Pad(s: string) returns (padded: string)
    ensures padded == if |s| >= 2 then s else s + Zeros(2 - |s|)
  {
    padded := s;
    while |padded| < 2
      invariant |padded| >= |s| && padded == s + Zeros(|padded| - |s|)
      invariant |padded| <= 2 || padded == s
    {
      padded := padded + "0";
    }
  }

  /** The printer: format, cut at the dot, trim, pad. */
  method FloatToDecimal(m: int) returns (text: string)
    ensures text == Printed(m)
  {
    hide Number, Padded, Formatted, FirstAt, TrimZeros, Kept;
    FormattedParts(m);
    var s := Formatted(m);
    var dot := FirstAt(s, '.');
    var whole, fraction := s[..dot], s[dot + 1..];
    assert fraction == Padded(Magnitude(m) % MILLION, 6);
    TrimThenPad(fraction);
    var trimmed := Pad(TrimZeros(fraction));
    return whole + "." + trimmed;
  }

  // ---- What is printed -----------------------------------------------------------------------

  lemma AmountReads(n: nat, s: string)
    requires s == Number(n / MILLION) + "." + Kept(Padded(n % MILLION, 6))
    ensures ParseAmount(s) == Some(n)
    ensures FirstAt(s, '.') == |Number(n / MILLION)| && Fraction(s[FirstAt(s, '.')..])
  {
    hide Number, Padded, Kept;
    var whole, fraction := Number(n / MILLION), Padded(n % MILLION, 6);
    var kept := Kept(fraction);
    NumberReads(n / MILLION);
    NoDotInDigits(whole);
    FirstAtCut(whole, '.', kept);
    assert Power(10, 6) == MILLION by {
      assert Power(10, 3) == 1000;
    }
    PaddedReads(n % MILLION, 6);
    KeptZeros(fraction);
    assert forall i :: 0 <= i < |kept| ==> kept[i] == fraction[i];
    assert s[..|whole|] == whole && s[|whole|..] == "." + kept && s[|whole| + 1..] == kept;
  }

  /** Printing then parsing gives the amount back, so printing is injective. */
  lemma RoundTrip(m: int)
    ensures Parse(Printed(m)) == Some(m)
  {
    hide Number, Padded, Kept, ParseAmount;
    var n := Magnitude(m);
    var text := Number(n / MILLION) + "." + Kept(Padded(n % MILLION, 6));
    AmountReads(n, text);
    NumberReads(n / MILLION);
    if m < 0 {
      assert Printed(m) == "-" + text;
      assert Printed(m)[1..] == text;
    } else {
      assert Printed(m) == text;
      assert text[0] == Number(n / MILLION)[0];
    }
  }

  lemma PrintedInjective(m: int, n: int)
    requires Printed(m) == Printed(n)
    ensures m == n
  {
    hide Printed, Parse;
    RoundTrip(m);
    RoundTrip(n);
  }

  /** Two to six fractional digits, with no zero at the end that could be dropped. */
  lemma PrintedShape(m: int)
    ensures exists whole, fraction ::
              && Printed(m) == whole + "." + fraction && '.' !in whole && 2 <= |fraction| <= 6 && Digits(fraction)
              && (|fraction| > 2 ==> fraction[|fraction| - 1] != '0')
  {
    hide Number, Padded;
    var n := Magnitude(m);
    var whole, fraction := Sign(m) + Number(n / MILLION), Kept(Padded(n % MILLION, 6));
    FormattedParts(m);
    AmountReads(n, Number(n / MILLION) + "." + fraction);
    assert (Number(n / MILLION) + "." + fraction)[|Number(n / MILLION)|..] == "." + fraction;
    assert ("." + fraction)[1..] == fraction;
    assert Printed(m) == whole + "." + fraction;
  }

  /** A printed amount is a valid budget exactly when it is not negative. */
  lemma PrintedIsBudget(m: int)
    ensures Budget(Printed(m)) <==> m >= 0
  {
    hide Number, Padded, Kept, FirstAt;
    var n := Magnitude(m);
    var text := Number(n / MILLION) + "." + Kept(Padded(n % MILLION, 6));
    AmountReads(n, text);
    NumberReads(n / MILLION);
    if m < 0 {
      assert Printed(m)[0] == '-';
      forall i | 1 <= i <= |Printed(m)| ensures !Digits(Printed(m)[..i]) {
        assert Printed(m)[..i][0] == '-';
      }
    } else {
      assert Printed(m) == text;
      var i := |Number(n / MILLION)|;
      assert text[..i] == Number(n / MILLION);
    }
  }
}
