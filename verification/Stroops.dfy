/**
 `amountToStroops` of the agent escrow controller: which strings it accepts, and which number of
 stroops (1e-7 units) it makes of them.
 */
module Stroops {
  import opened Wrappers
  import opened CsvText

  function Pow10(k: nat): nat {
    if k == 0 then 1 else 10 * Pow10(k - 1)
  }

  predicate IsDigit(c: char) {
    '0' <= c <= '9'
  }

  predicate AllDigits(s: string) {
    forall i :: 0 <= i < |s| ==> IsDigit(s[i])
  }

  /** BigInt of a string of digits. */
  function Value(s: string): nat
    requires AllDigits(s)
  {
    if s == "" then 0 else 10 * Value(s[..|s| - 1]) + (s[|s| - 1] as int - '0' as int)
  }

  lemma ValueSnoc(front: string, c: char)
    requires AllDigits(front) && IsDigit(c)
    ensures AllDigits(front + [c]) && Value(front + [c]) == 10 * Value(front) + (c as int - '0' as int)
  {
    assert (front + [c])[..|front|] == front;
  }

  /** The index of the first point, or the length. */
  function Point(s: string): (i: nat)
    ensures i <= |s| && '.' !in s[..i] && (i < |s| ==> s[i] == '.')
  {
    if s == "" || s[0] == '.' then 0 else 1 + Point(s[1..])
  }

  /** The pattern ^\d+(\.\d{1,7})?$ */
  predicate Matches(s: string) {
    var i := Point(s);
    && i > 0 && AllDigits(s[..i])
    && (i < |s| ==> 1 <= |s| - i - 1 <= 7 && AllDigits(s[i + 1..]))
  }

  function Whole(s: string): string {
    s[..Point(s)]
  }

  function Fraction(s: string): string {
    if Point(s) < |s| then s[Point(s) + 1..] else ""
  }

  function AmountToStroops(amount: string): Option<nat> {
    var trimmed := Trim(amount);
    if !Matches(trimmed) then None
    else
      var paddedFraction := (Fraction(trimmed) + "0000000")[..7];
      assert AllDigits("0000000");
      var stroops := Value(Whole(trimmed)) * 10000000 + Value(paddedFraction);
      if stroops <= 0 then None else Some(stroops)
  }

  // ---------------------------------------------------------------- Decimals

  /** A whole part with its fraction, if there is one. */
  function Numeral(whole: string, fraction: string): string {
    if fraction == "" then whole else whole + "." + fraction
  }

  /** A decimal numeral with this whole part and this fraction of at most seven digits. */
  predicate Denotes(s: string, whole: string, fraction: string) {
    && whole != "" && AllDigits(whole) && AllDigits(fraction) && |fraction| <= 7
    && s == Numeral(whole, fraction)
  }

  lemma {:induction false} PointAfter(a: string, rest: string)
    requires '.' !in a && (rest == "" || rest[0] == '.')
    ensures Point(a + rest) == |a|
    decreases |a|
  {
    if a == "" {
      assert a + rest == rest;
    } else {
      assert (a + rest)[1..] == a[1..] + rest;
      PointAfter(a[1..], rest);
    }
  }

  lemma DecimalMatches(s: string, whole: string, fraction: string)
    requires Denotes(s, whole, fraction)
    ensures Matches(s) && Whole(s) == whole && Fraction(s) == fraction
  {
    var rest := if fraction == "" then "" else "." + fraction;
    assert s == whole + rest;
    PointAfter(whole, rest);
    assert s[..|whole|] == whole;
    assert fraction != "" ==> s[|whole| + 1..] == fraction;
  }

  lemma MatchIsDecimal(s: string)
    requires Matches(s)
    ensures Denotes(s, Whole(s), Fraction(s))
  {
    if Point(s) < |s| {
      assert s == Whole(s) + "." + Fraction(s);
    }
  }

  lemma {:induction false} ValueOfConcat(a: string, b: string)
    requires AllDigits(a) && AllDigits(b)
    ensures AllDigits(a + b) && Value(a + b) == Value(a) * Pow10(|b|) + Value(b)
  {
    if b == "" {
      assert a + b == a;
    } else {
      var rest, c := b[..|b| - 1], b[|b| - 1];
      assert a + b == (a + rest) + [c];
      ValueOfConcat(a, rest);
      ValueSnoc(a + rest, c);
      Scale(Value(a), Pow10(|rest|));
    }
  }

  lemma Scale(x: nat, y: nat)
    ensures 10 * (x * y) == x * (10 * y)
  {
  }

  function Zeros(k: nat): (z: string)
    ensures |z| == k && AllDigits(z)
  {
    seq(k, i => '0')
  }

  lemma {:induction false} ValueOfZeros(k: nat)
    ensures Value(Zeros(k)) == 0
  {
    if k > 0 {
      assert Zeros(k)[..k - 1] == Zeros(k - 1);
      ValueOfZeros(k - 1);
    }
  }

  lemma {:induction false} PowersAdd(j: nat, k: nat)
    ensures Pow10(j + k) == Pow10(j) * Pow10(k)
  {
    if j > 0 {
      PowersAdd(j - 1, k);
    }
  }

  lemma SevenPlaces()
    ensures Pow10(7) == 10000000
  {
    assert Pow10(5) == 10 * Pow10(4) && Pow10(4) == 10 * Pow10(3) && Pow10(3) == 1000;
  }

  /** The number of stroops in a decimal: its digits, scaled to seven places. */
  function Stroops(whole: string, fraction: string): nat
    requires AllDigits(whole) && AllDigits(fraction) && |fraction| <= 7
  {
    Value(whole + fraction) * Pow10(7 - |fraction|)
  }

  /** The stroops are the exact value of the decimal times ten to the seventh. */
  lemma StroopsAreExact(whole: string, fraction: string)
    requires AllDigits(whole) && AllDigits(fraction) && |fraction| <= 7
    ensures Stroops(whole, fraction) * Pow10(|fraction|) == Value(whole + fraction) * Pow10(7)
  {
    var v, k := Value(whole + fraction), |fraction|;
    PowersAdd(7 - k, k);
    Associate(v, Pow10(7 - k), Pow10(k));
  }

  /** Padding the fraction to seven digits computes the same number. */
  lemma PaddingScales(whole: string, fraction: string)
    requires AllDigits(whole) && AllDigits(fraction) && |fraction| <= 7
    ensures var padded := (fraction + "0000000")[..7];
            AllDigits(padded) && Value(whole) * 10000000 + Value(padded) == Stroops(whole, fraction)
  {
    var k := 7 - |fraction|;
    assert (fraction + "0000000")[..7] == fraction + Zeros(k);
    ValueOfConcat(fraction, Zeros(k));
    ValueOfZeros(k);
    ValueOfConcat(whole, fraction);
    PowersAdd(|fraction|, k);
    SevenPlaces();
    Distribute(Value(whole), Pow10(|fraction|), Value(fraction), Pow10(k));
  }

  lemma Distribute(w: nat, p: nat, f: nat, q: nat)
    ensures (w * p + f) * q == w * (p * q) + f * q
  {
  }

  /** The strings that are accepted, and what they are worth: exactly the positive decimals of at most seven places. */
  lemma AcceptsExactlyPositiveDecimals(amount: string, n: nat)
    ensures AmountToStroops(amount) == Some(n)
            <==> n > 0 && exists whole, fraction :: Denotes(Trim(amount), whole, fraction) && n == Stroops(whole, fraction)
  {
    var trimmed := Trim(amount);
    if Matches(trimmed) {
      MatchIsDecimal(trimmed);
      PaddingScales(Whole(trimmed), Fraction(trimmed));
    }
    forall whole, fraction | Denotes(trimmed, whole, fraction)
      ensures Matches(trimmed) && whole == Whole(trimmed) && fraction == Fraction(trimmed)
    {
      DecimalMatches(trimmed, whole, fraction);
    }
  }

  // ---------------------------------------------------------------- Zeros and spaces

  lemma TrimNothing(s: string)
    requires s != "" && !IsSpace(s[0]) && !IsSpace(s[|s| - 1])
    ensures Trim(s) == s
  {
  }

  lemma DecimalValue(s: string, whole: string, fraction: string)
    requires Denotes(s, whole, fraction)
    ensures var n := Stroops(whole, fraction); AmountToStroops(s) == if n > 0 then Some(n) else None
  {
    assert s[0] == whole[0] && IsDigit(s[|s| - 1]);
    TrimNothing(s);
    DecimalMatches(s, whole, fraction);
    PaddingScales(whole, fraction);
  }

  lemma ValueOfPadded(digits: string, leading: nat, trailing: nat)
    requires AllDigits(digits)
    ensures AllDigits(Zeros(leading) + (digits + Zeros(trailing)))
    ensures Value(Zeros(leading) + (digits + Zeros(trailing))) == Value(digits) * Pow10(trailing)
  {
    ValueOfConcat(digits, Zeros(trailing));
    ValueOfConcat(Zeros(leading), digits + Zeros(trailing));
    ValueOfZeros(leading);
    ValueOfZeros(trailing);
  }

  lemma StroopsOfPadded(whole: string, fraction: string, leading: nat, trailing: nat)
    requires AllDigits(whole) && AllDigits(fraction) && |fraction| + trailing <= 7
    ensures Stroops(Zeros(leading) + whole, fraction + Zeros(trailing)) == Stroops(whole, fraction)
  {
    var digits := whole + fraction;
    assert (Zeros(leading) + whole) + (fraction + Zeros(trailing)) == Zeros(leading) + (digits + Zeros(trailing));
    ValueOfPadded(digits, leading, trailing);
    var k := 7 - |fraction| - trailing;
    PowersAdd(trailing, k);
    Associate(Value(digits), Pow10(trailing), Pow10(k));
  }

  /** Leading zeros, and trailing zeros within seven places, change nothing, with or without a point. */
  lemma ZerosChangeNothing(whole: string, fraction: string, leading: nat, trailing: nat)
    requires whole != "" && AllDigits(whole) && AllDigits(fraction) && |fraction| + trailing <= 7
    ensures AmountToStroops(Numeral(Zeros(leading) + whole, fraction + Zeros(trailing)))
            == AmountToStroops(Numeral(whole, fraction))
  {
    DecimalValue(Numeral(whole, fraction), whole, fraction);
    var longWhole, longFraction := Zeros(leading) + whole, fraction + Zeros(trailing);
    DecimalValue(Numeral(longWhole, longFraction), longWhole, longFraction);
    StroopsOfPadded(whole, fraction, leading, trailing);
  }

  lemma Associate(x: nat, y: nat, z: nat)
    ensures x * y * z == x * (y * z)
  {
  }

  lemma {:induction false} TrimStartSkips(spaces: string, s: string)
    requires forall i :: 0 <= i < |spaces| ==> IsSpace(spaces[i])
    ensures TrimStart(spaces + s) == TrimStart(s)
    decreases |spaces|
  {
    if spaces == "" {
      assert spaces + s == s;
    } else {
      assert (spaces + s)[1..] == spaces[1..] + s;
      TrimStartSkips(spaces[1..], s);
    }
  }

  lemma {:induction false} TrimEndSkips(s: string, spaces: string)
    requires forall i :: 0 <= i < |spaces| ==> IsSpace(spaces[i])
    ensures TrimEnd(s + spaces) == TrimEnd(s)
    decreases |spaces|
  {
    if spaces == "" {
      assert s + spaces == s;
    } else {
      assert (s + spaces)[..|s + spaces| - 1] == s + spaces[..|spaces| - 1];
      TrimEndSkips(s, spaces[..|spaces| - 1]);
    }
  }

  /** Spaces around a decimal change nothing. */
  lemma SpacesChangeNothing(before: string, s: string, after: string)
    requires s != "" && !IsSpace(s[0]) && !IsSpace(s[|s| - 1])
    requires forall i :: 0 <= i < |before| ==> IsSpace(before[i])
    requires forall i :: 0 <= i < |after| ==> IsSpace(after[i])
    ensures AmountToStroops(before + s + after) == AmountToStroops(s)
  {
    assert before + s + after == before + (s + after);
    TrimStartSkips(before, s + after);
    assert TrimStart(s + after) == s + after by { assert (s + after)[0] == s[0]; }
    TrimEndSkips(s, after);
    TrimNothing(s);
  }

  // ---------------------------------------------------------------- The printer

  function DigitChar(d: nat): (c: char)
    requires d < 10
    ensures IsDigit(c) && c as int - '0' as int == d
  {
    '0' + d as char
  }

  function Digits(n: nat): (s: string)
    ensures s != "" && AllDigits(s) && Value(s) == n
  {
    if n < 10 then
      assert [DigitChar(n)][..0] == "";
      [DigitChar(n)]
    else
      var front := Digits(n / 10);
      ValueSnoc(front, DigitChar(n % 10));
      front + [DigitChar(n % 10)]
  }

  /** The last k digits of a number, with leading zeros. */
  function LastDigits(n: nat, k: nat): (s: string)
    ensures |s| == k && AllDigits(s) && (n < Pow10(k) ==> Value(s) == n)
    decreases k
  {
    if k == 0 then ""
    else
      var front := LastDigits(n / 10, k - 1);
      ValueSnoc(front, DigitChar(n % 10));
      front + [DigitChar(n % 10)]
  }

  /** An amount of stroops as a decimal with seven places. */
  function Print(n: nat): string {
    Digits(n / 10000000) + "." + LastDigits(n % 10000000, 7)
  }

  lemma StroopsOfPrinted(n: nat)
    ensures Stroops(Digits(n / 10000000), LastDigits(n % 10000000, 7)) == n
  {
    SevenPlaces();
    ValueOfConcat(Digits(n / 10000000), LastDigits(n % 10000000, 7));
  }

  /** Reading back what was printed: every positive amount of stroops has a decimal that denotes it. */
  lemma ReadsBackWhatWasPrinted(n: nat)
    requires n > 0
    ensures AmountToStroops(Print(n)) == Some(n)
  {
    DecimalValue(Print(n), Digits(n / 10000000), LastDigits(n % 10000000, 7));
    StroopsOfPrinted(n);
  }
}
