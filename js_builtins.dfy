/** The few JavaScript built-ins the coverage arithmetic relies on: `Math.round`,
    `parseInt`, `parseFloat` and `String.prototype.replace` with a one-character
    pattern. Numbers are exact reals, not IEEE-754 doubles. */
module JsBuiltins {
  import opened Wrappers

  /** `Math.round(x)`: the nearest integer, halves rounded up (towards +infinity). */
  function MathRound(x: real): (r: int)
    ensures x - 0.5 < r as real <= x + 0.5
  {
    (x + 0.5).Floor
  }

  /** Rounding an integral value leaves it as it is. */
  lemma MathRoundOfInteger(n: int)
    ensures MathRound(n as real) == n
  {
  }

  predicate IsDigit(c: char) {
    '0' <= c <= '9'
  }

  predicate AllDigits(s: string) {
    forall i :: 0 <= i < |s| ==> IsDigit(s[i])
  }

  function DigitValue(c: char): (d: nat)
    requires IsDigit(c)
    ensures d <= 9
  {
    c as int - '0' as int
  }

  /** Length of the longest prefix of `s` made of decimal digits. */
  function DigitRun(s: string): (n: nat)
    ensures n <= |s|
    ensures AllDigits(s[..n])
    ensures n < |s| ==> !IsDigit(s[n])
  {
    if s != [] && IsDigit(s[0]) then 1 + DigitRun(s[1..]) else 0
  }

  /** The value of a string of digits read as a decimal numeral, most significant digit first. */
  function NatValue(ds: string): nat
    requires AllDigits(ds)
  {
    if ds == [] then 0 else 10 * NatValue(ds[..|ds| - 1]) + DigitValue(ds[|ds| - 1])
  }

  /** The value of the digits after a decimal point: "25" is 0.25. */
  function FracValue(ds: string): (v: real)
    requires AllDigits(ds)
    ensures 0.0 <= v < 1.0
  {
    if ds == [] then 0.0 else (DigitValue(ds[0]) as real + FracValue(ds[1..])) / 10.0
  }

  /** A fraction is positive exactly when one of its digits is not '0'. */
  lemma {:induction false} FracValuePositive(ds: string)
    requires AllDigits(ds)
    ensures FracValue(ds) > 0.0 <==> exists i :: 0 <= i < |ds| && ds[i] != '0'
  {
    if ds != [] {
      FracValuePositive(ds[1..]);
      if ds[0] == '0' {
        assert forall i :: 1 <= i < |ds| ==> ds[i] == ds[1..][i - 1];
      } else {
        assert DigitValue(ds[0]) >= 1;
      }
    }
  }

  /** Whether a numeral starts with a minus sign. */
  predicate Negative(s: string) {
    |s| > 0 && s[0] == '-'
  }

  /** A numeral without its optional leading sign. */
  function Unsigned(s: string): (body: string)
    ensures |s| > 0 && IsDigit(s[0]) ==> body == s
  {
    if |s| > 0 && (s[0] == '-' || s[0] == '+') then s[1..] else s
  }

  /** `parseInt(s)` for a string without leading white space or radix prefix: an
      optional sign, then the longest run of digits; `None` (NaN) when there is no digit.
      Whatever follows the digits is ignored. */
  function ParseInt(s: string): (r: Option<int>)
    ensures r.Some? <==> var b := Unsigned(s); |b| > 0 && IsDigit(b[0])
    ensures r.Some? && !Negative(s) ==> r.value >= 0
    ensures r.Some? && Negative(s) ==> r.value <= 0
  {
    var body := Unsigned(s);
    var n := DigitRun(body);
    if n == 0 then None
    else
      var magnitude: int := NatValue(body[..n]);
      Some(if Negative(s) then -magnitude else magnitude)
  }

  /** A non-empty string of digits parses to its decimal value. */
  lemma ParseIntOfDigits(ds: string)
    requires ds != [] && AllDigits(ds)
    ensures ParseInt(ds) == Some(NatValue(ds))
  {
    assert ds[..|ds|] == ds;
  }

  /** The digits after the decimal point that `parseFloat` reads from `rest`, the
      part of the numeral that follows its integer digits. */
  function FractionDigits(rest: string): (fs: string)
    ensures AllDigits(fs)
    ensures fs != [] ==> |rest| > |fs| && rest[0] == '.' && fs == rest[1..1 + |fs|]
  {
    if |rest| > 0 && rest[0] == '.' then rest[1..][..DigitRun(rest[1..])] else ""
  }

  /** `parseFloat(s)` for a string without leading white space, exponent or
      "Infinity": an optional sign, then an unsigned decimal numeral. */
  function ParseFloat(s: string): (r: Option<real>)
    ensures r.Some? <==>
      var b := Unsigned(s); (|b| > 0 && IsDigit(b[0])) || (|b| > 1 && b[0] == '.' && IsDigit(b[1]))
    ensures r.Some? && !Negative(s) ==> r.value >= 0.0
    ensures r.Some? && Negative(s) ==> r.value <= 0.0
  {
    match UnsignedDecimal(Unsigned(s))
    case None => None
    case Some(magnitude) => Some(if Negative(s) then -magnitude else magnitude)
  }

  /** The longest run of digits, then optionally a '.' and a second run of digits;
      `None` (NaN) when neither run has a digit. What follows is ignored. */
  function UnsignedDecimal(body: string): (r: Option<real>)
    ensures r.Some? ==> r.value >= 0.0
  {
    var n := DigitRun(body);
    var fs := FractionDigits(body[n..]);
    if n == 0 && fs == [] then None
    else Some(NatValue(body[..n]) as real + FracValue(fs))
  }

  /** A numeral "<digits>.<digits>" parses to its integer part plus its fraction. */
  lemma ParseFloatOfDecimal(s: string, whole: string, frac: string)
    requires whole != [] && AllDigits(whole) && AllDigits(frac)
    requires s == whole + "." + frac
    ensures ParseFloat(s) == Some(NatValue(whole) as real + FracValue(frac))
  {
    DecimalParts(whole, frac, s);
    UnsignedDecimalOfParts(s, |whole|, frac);
    ParseFloatOfUnsigned(s);
  }

  /** How `parseFloat` splits "<digits>.<digits>". */
  lemma DecimalParts(whole: string, frac: string, s: string)
    requires whole != [] && AllDigits(whole) && AllDigits(frac)
    requires s == whole + "." + frac
    ensures IsDigit(s[0])
    ensures DigitRun(s) == |whole| && s[..|whole|] == whole
    ensures FractionDigits(s[|whole|..]) == frac
  {
    assert s == whole + ("." + frac);
    DigitRunOfDigitsThen(whole, "." + frac);
    var rest := s[|whole|..];
    assert rest == "." + frac;
    assert rest[1..] == frac;
    DigitRunOfDigitsThen(frac, "");
    assert frac + "" == frac;
    assert frac[..|frac|] == frac;
  }

  /** A numeral whose digits are followed by neither a digit nor a '.' parses to the
      value of its digits; the rest is ignored. */
  lemma ParseFloatOfInteger(s: string, whole: string, rest: string)
    requires whole != [] && AllDigits(whole)
    requires rest != [] && !IsDigit(rest[0]) && rest[0] != '.'
    requires s == whole + rest
    ensures ParseFloat(s) == Some(NatValue(whole) as real)
  {
    IntegerParts(whole, rest, s);
    UnsignedDecimalOfParts(s, |whole|, "");
    ParseFloatOfUnsigned(s);
  }

  /** How `parseFloat` splits "<digits><rest>" when the rest starts with neither a digit nor a '.'. */
  lemma IntegerParts(whole: string, rest: string, s: string)
    requires whole != [] && AllDigits(whole)
    requires rest != [] && !IsDigit(rest[0]) && rest[0] != '.'
    requires s == whole + rest
    ensures IsDigit(s[0])
    ensures DigitRun(s) == |whole| && s[..|whole|] == whole
    ensures FractionDigits(s[|whole|..]) == ""
  {
    DigitRunOfDigitsThen(whole, rest);
    assert s[|whole|..] == rest;
  }

  /** A numeral that starts with a digit has no sign to strip. */
  lemma ParseFloatOfUnsigned(s: string)
    requires |s| > 0 && IsDigit(s[0])
    ensures ParseFloat(s) == UnsignedDecimal(s)
  {
  }

  /** `UnsignedDecimal` in terms of the length of the integer digits and the fraction digits. */
  lemma UnsignedDecimalOfParts(body: string, n: nat, fs: string)
    requires n == DigitRun(body) && fs == FractionDigits(body[n..])
    requires n > 0
    ensures UnsignedDecimal(body) == Some(NatValue(body[..n]) as real + FracValue(fs))
  {
  }

  /** The digit run of a digit string followed by a string that does not start with a digit. */
  lemma {:induction false} DigitRunOfDigitsThen(ds: string, rest: string)
    requires AllDigits(ds)
    requires rest == [] || !IsDigit(rest[0])
    ensures DigitRun(ds + rest) == |ds|
  {
    if ds != [] {
      assert (ds + rest)[1..] == ds[1..] + rest;
      DigitRunOfDigitsThen(ds[1..], rest);
    }
  }

  /** Index of the first occurrence of `c` in `s`. */
  function IndexOf(s: string, c: char): (i: nat)
    requires c in s
    ensures i < |s| && s[i] == c && c !in s[..i]
  {
    if s[0] == c then 0 else 1 + IndexOf(s[1..], c)
  }

  /** `s.replace(c, "")` with a one-character string pattern: only the FIRST
      occurrence of `c` is removed. */
  function RemoveFirst(s: string, c: char): (r: string)
    ensures c !in s ==> r == s
    ensures c in s ==> |r| == |s| - 1
  {
    if s == [] then []
    else if s[0] == c then s[1..]
    else [s[0]] + RemoveFirst(s[1..], c)
  }

  /** When `c` first occurs right after `pre`, removing it joins `pre` and what follows. */
  lemma {:induction false} RemoveFirstAfter(s: string, pre: string, c: char, rest: string)
    requires c !in pre && s == pre + [c] + rest
    ensures RemoveFirst(s, c) == pre + rest
  {
    if pre == [] {
      assert s[1..] == rest;
    } else {
      TailOfJoin(s, pre, c, rest);
      RemoveFirstAfter(s[1..], pre[1..], c, rest);
      ConsTail(pre, rest);
    }
  }

  lemma TailOfJoin(s: string, pre: string, c: char, rest: string)
    requires pre != [] && c !in pre && s == pre + [c] + rest
    ensures s[0] == pre[0] != c && c !in pre[1..] && s[1..] == pre[1..] + [c] + rest
  {
    assert pre[0] in pre;
  }

  lemma ConsTail(pre: string, rest: string)
    requires pre != []
    ensures pre + rest == [pre[0]] + (pre[1..] + rest)
  {
  }

  /** Removing the first `c` cuts out exactly the character at its first index;
      everything after it, other occurrences of `c` included, is kept. */
  lemma {:induction false} RemoveFirstCutsFirstOccurrence(s: string, c: char)
    requires c in s
    ensures RemoveFirst(s, c) == s[..IndexOf(s, c)] + s[IndexOf(s, c) + 1..]
  {
    if s[0] != c {
      TailStillHolds(s, c);
      RemoveFirstCutsFirstOccurrence(s[1..], c);
      ConsSlices(s, IndexOf(s[1..], c));
    }
  }

  lemma TailStillHolds(s: string, c: char)
    requires c in s && s[0] != c
    ensures c in s[1..]
  {
    var k :| 0 <= k < |s| && s[k] == c;
    assert s[1..][k - 1] == c;
  }

  lemma ConsSlices(s: string, i: nat)
    requires i + 1 < |s|
    ensures s[..i + 1] == [s[0]] + s[1..][..i] && s[i + 2..] == s[1..][i + 1..]
  {
  }
}
