/** The printed form of an amount in atomic USDC (billing/models.py). */
module PriceString {

  import opened Common

  function DigitChar(d: nat): char
    requires d < 10
  {
    '0' + d as char
  }

  predicate IsDigit(c: char) {
    '0' <= c <= '9'
  }

  function DigitValue(c: char): (d: nat)
    requires IsDigit(c)
    ensures d < 10 && DigitChar(d) == c
  {
    (c - '0') as nat
  }

  predicate AllDigits(s: string) {
    forall i :: 0 <= i < |s| ==> IsDigit(s[i])
  }

  /** Decimal digits without leading zeros. */
  function Digits(n: nat): (s: string)
    ensures s != [] && AllDigits(s) && Value(s) == n
    decreases n
  {
    if n < 10 then [DigitChar(n)] else Digits(n / 10) + [DigitChar(n % 10)]
  }

  function Value(s: string): nat
    requires AllDigits(s)
    decreases |s|
  {
    if s == [] then 0 else Value(s[..|s| - 1]) * 10 + DigitValue(s[|s| - 1])
  }

  /** The last width digits, with leading zeros. */
  function Padded(n: nat, width: nat): (s: string)
    ensures |s| == width && AllDigits(s)
    decreases width
  {
    if width == 0 then [] else Padded(n / 10, width - 1) + [DigitChar(n % 10)]
  }

  function Pow10(e: nat): (p: nat)
    ensures p > 0
    decreases e
  {
    if e == 0 then 1 else 10 * Pow10(e - 1)
  }

  lemma {:induction false} PaddedValue(n: nat, width: nat)
    requires n < Pow10(width)
    ensures Value(Padded(n, width)) == n
    decreases width
  {
    if width > 0 {
      PaddedValue(n / 10, width - 1);
      assert Padded(n, width)[..width - 1] == Padded(n / 10, width - 1);
    }
  }

  function StripZeros(s: string): (t: string)
    ensures |t| <= |s| && t == s[..|t|] && (t != [] ==> t[|t| - 1] != '0')
    ensures forall i :: |t| <= i < |s| ==> s[i] == '0'
    decreases |s|
  {
    if s != [] && s[|s| - 1] == '0' then StripZeros(s[..|s| - 1]) else s
  }

  function FillZeros(s: string, width: nat): (t: string)
    ensures |s| >= width ==> t == s
    ensures |s| < width ==> |t| == width && t[..|s|] == s && forall i :: |s| <= i < width ==> t[i] == '0'
    ensures AllDigits(s) ==> AllDigits(t)
  {
    if |s| >= width then s else s + seq(width - |s|, i => '0')
  }

  /** At least two decimals, and beyond them no trailing zero. */
  function Decimals(fraction: nat): string
    requires fraction < 1_000_000
  {
    FillZeros(StripZeros(Padded(fraction, 6)), 2)
  }

  function Print(atomic: int): Result<string> {
    if atomic < 0 then Err("atomic USDC amount must not be negative")
    else Ok("$" + Digits(atomic / 1_000_000) + "." + Decimals(atomic % 1_000_000))
  }

  /* ---- reading it back ---- */

  /** The place of the first dot. */
  function DotAt(s: string): (i: nat)
    ensures i <= |s| && (i < |s| ==> s[i] == '.') && forall j :: 0 <= j < i ==> s[j] != '.'
    decreases |s|
  {
    if s == [] || s[0] == '.' then 0 else 1 + DotAt(s[1..])
  }

  /** Reads the parts before and after the dot; at most six decimals. */
  function ParseParts(whole: string, decimals: string): Result<nat> {
    if whole == "" || |decimals| > 6 || !AllDigits(whole) || !AllDigits(decimals) then Err("malformed price")
    else Ok(Value(whole) * 1_000_000 + Value(FillZeros(decimals, 6)))
  }

  /** Reads a dollar amount. */
  function Parse(s: string): Result<nat> {
    if s == [] || s[0] != '$' then Err("malformed price")
    else
      var body := s[1..];
      var dot := DotAt(body);
      if dot == |body| then Err("malformed price") else ParseParts(body[..dot], body[dot + 1..])
  }

  lemma {:induction false} DotAfterDigits(digits: string, rest: string)
    requires AllDigits(digits)
    ensures DotAt(digits + "." + rest) == |digits|
  {
    var s := digits + "." + rest;
    var i := DotAt(s);
    assert s[|digits|] == '.';
    assert forall j :: 0 <= j < |digits| ==> s[j] == digits[j] && IsDigit(s[j]);
  }

  lemma DecimalsReadBack(fraction: nat)
    requires fraction < 1_000_000
    ensures AllDigits(Decimals(fraction)) && 2 <= |Decimals(fraction)| <= 6
    ensures FillZeros(Decimals(fraction), 6) == Padded(fraction, 6)
  {
    var padded := Padded(fraction, 6);
    var stripped := StripZeros(padded);
    var shown := Decimals(fraction);
    forall i | 0 <= i < |shown| ensures IsDigit(shown[i]) && shown[i] == padded[i] {
      if i < |stripped| {
        assert shown[i] == stripped[i];
      }
    }
    var filled := FillZeros(shown, 6);
    forall i | 0 <= i < 6 ensures filled[i] == padded[i] {
      if i < |shown| {
        assert filled[i] == shown[i];
      }
    }
    assert filled == padded;
  }

  lemma Pieces(whole: string, shown: string)
    ensures var body := whole + "." + shown;
            |body| == |whole| + 1 + |shown| && body[..|whole|] == whole && body[|whole| + 1..] == shown
  {
  }

  lemma PrintTail(atomic: int)
    requires atomic >= 0
    ensures var s := Print(atomic).value;
            s != [] && s[0] == '$' && s[1..] == Digits(atomic / 1_000_000) + "." + Decimals(atomic % 1_000_000)
  {
  }

  /** Reading back the printed price gives the amount, for every amount that can be printed. */
  lemma ParseInvertsPrint(atomic: int)
    ensures Print(atomic).Ok? <==> atomic >= 0
    ensures atomic >= 0 ==> Parse(Print(atomic).value) == Ok(atomic)
  {
    if atomic >= 0 {
      var whole, fraction := Digits(atomic / 1_000_000), atomic % 1_000_000;
      DecimalsReadBack(fraction);
      assert Pow10(6) == 1_000_000;
      PaddedValue(fraction, 6);
      var shown := Decimals(fraction);
      Pieces(whole, shown);
      DotAfterDigits(whole, shown);
      PrintTail(atomic);
    }
  }

  lemma PrintIsInjective(a: int, b: int)
    requires a >= 0 && b >= 0 && Print(a) == Print(b)
    ensures a == b
  {
    ParseInvertsPrint(a);
    ParseInvertsPrint(b);
  }

  /** Two to six decimals, and no trailing zero beyond the second. */
  lemma PriceFormat(atomic: int)
    requires atomic >= 0
    ensures var whole, shown := Digits(atomic / 1_000_000), Decimals(atomic % 1_000_000);
            && Print(atomic).value == "$" + whole + "." + shown
            && 2 <= |shown| <= 6 && AllDigits(shown)
            && (|shown| > 2 ==> shown[|shown| - 1] != '0')
            && (atomic >= 1_000_000 ==> whole[0] != '0')
  {
    DecimalsReadBack(atomic % 1_000_000);
    if atomic >= 1_000_000 {
      NoLeadingZero(atomic / 1_000_000);
    }
  }

  lemma {:induction false} NoLeadingZero(n: nat)
    requires n > 0
    ensures Digits(n)[0] != '0'
    decreases n
  {
    if n >= 10 {
      NoLeadingZero(n / 10);
    }
  }
}
