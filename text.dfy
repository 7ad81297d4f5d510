/**
 * String building blocks shared by the statement generators: joining with a
 * separator, the "append part and separator, then drop the last character"
 * pattern of a StringBuilder, and the decimal rendering of an `int`
 * (what string interpolation does with a number).
 */
module Text {

  /** The parts with `sep` between neighbours: no leading and no trailing separator. */
  function Join(parts: seq<string>, sep: char): string
  {
    if |parts| == 0 then ""
    else if |parts| == 1 then parts[0]
    else Join(parts[..|parts| - 1], sep) + [sep] + parts[|parts| - 1]
  }

  /** Every part followed by `sep`: what a builder holds after appending `part + sep` for each part in turn. */
  function Terminated(parts: seq<string>, sep: char): string
  {
    if |parts| == 0 then "" else Terminated(parts[..|parts| - 1], sep) + parts[|parts| - 1] + [sep]
  }

  /** StringBuilder.Remove(Length - 1, 1): the text without its last character. */
  function DropLast(s: string): (r: string)
    requires |s| > 0
    ensures |r| == |s| - 1 && s == r + [s[|s| - 1]]
  {
    s[..|s| - 1]
  }

  /** Appending one more part to a builder extends the terminated text by that part and a separator. */
  lemma TerminatedSnoc(parts: seq<string>, part: string, sep: char)
    ensures Terminated(parts + [part], sep) == Terminated(parts, sep) + part + [sep]
  {
    assert (parts + [part])[..|parts|] == parts;
  }

  /** The builder form of TerminatedSnoc: appending `part + sep` to `prefix + Terminated(parts)`. */
  lemma AppendToBuilder(prefix: string, parts: seq<string>, part: string, sep: char)
    ensures prefix + Terminated(parts + [part], sep) == (prefix + Terminated(parts, sep)) + (part + [sep])
  {
    TerminatedSnoc(parts, part, sep);
  }

  /** One turn of a builder loop over `parts`: the builder holding the first `i` parts, terminated, takes part `i` and a separator. */
  lemma BuilderStep(prefix: string, parts: seq<string>, i: nat, sep: char)
    requires i < |parts|
    ensures prefix + Terminated(parts[..i + 1], sep) == (prefix + Terminated(parts[..i], sep)) + (parts[i] + [sep])
  {
    assert parts[..i + 1] == parts[..i] + [parts[i]];
    AppendToBuilder(prefix, parts[..i], parts[i], sep);
  }

  /**
   * Dropping the trailing separator of the terminated text gives the joined text:
   * the builder idiom produces exactly `Join`, with no trailing separator.
   */
  lemma {:induction false} TerminatedIsJoin(parts: seq<string>, sep: char)
    requires |parts| > 0
    ensures Terminated(parts, sep) == Join(parts, sep) + [sep]
  {
    if |parts| > 1 {
      TerminatedIsJoin(parts[..|parts| - 1], sep);
    }
  }

  /** Dropping the last character of `prefix + Terminated(parts)` leaves `prefix + Join(parts)`. */
  lemma DropLastOfTerminated(prefix: string, parts: seq<string>, sep: char)
    requires |parts| > 0
    ensures |prefix + Terminated(parts, sep)| > 0
    ensures DropLast(prefix + Terminated(parts, sep)) == prefix + Join(parts, sep)
  {
    TerminatedIsJoin(parts, sep);
    assert prefix + Terminated(parts, sep) == (prefix + Join(parts, sep)) + [sep];
  }

  function DigitChar(d: nat): (c: char)
    requires d < 10
    ensures '0' <= c <= '9'
  {
    ('0' as int + d) as char
  }

  predicate IsDigits(s: string)
  {
    forall i :: 0 <= i < |s| ==> '0' <= s[i] <= '9'
  }

  /** Decimal digits of `n`, most significant first, without leading zeros. */
  function NatToDecimal(n: nat): (r: string)
    ensures |r| >= 1 && IsDigits(r)
    ensures |r| > 1 ==> r[0] != '0'
  {
    if n < 10 then [DigitChar(n)] else NatToDecimal(n / 10) + [DigitChar(n % 10)]
  }

  /**
   * `int.ToString()` as the invariant culture renders it: a minus sign for
   * negative numbers, then the digits of the magnitude.
   */
  function IntToDecimal(n: int): string
  {
    if n < 0 then "-" + NatToDecimal(-n) else NatToDecimal(n)
  }

  /** The number a string of decimal digits denotes. */
  function DecimalValue(s: string): nat
    requires IsDigits(s)
  {
    if |s| == 0 then 0
    else DecimalValue(s[..|s| - 1]) * 10 + (s[|s| - 1] as int - '0' as int)
  }

  /** Reading back the rendered digits gives the number. */
  lemma {:induction false} DecimalRoundTrip(n: nat)
    ensures DecimalValue(NatToDecimal(n)) == n
  {
    if n >= 10 {
      var r := NatToDecimal(n);
      assert r[..|r| - 1] == NatToDecimal(n / 10);
      DecimalRoundTrip(n / 10);
    }
  }

  /** Distinct numbers render differently, so the rendering loses nothing. */
  lemma IntToDecimalInjective(m: int, n: int)
    requires IntToDecimal(m) == IntToDecimal(n)
    ensures m == n
  {
    NegativeIffMinus(m);
    NegativeIffMinus(n);
    var mag, nag := if m < 0 then -m else m, if n < 0 then -n else n;
    if m < 0 {
      MagnitudeAfterMinus(m);
      MagnitudeAfterMinus(n);
    }
    assert NatToDecimal(mag) == NatToDecimal(nag);
    DecimalRoundTrip(mag);
    DecimalRoundTrip(nag);
  }

  /** Behind the minus sign of a negative number stand the digits of its magnitude. */
  lemma MagnitudeAfterMinus(n: int)
    requires n < 0
    ensures IntToDecimal(n)[1..] == NatToDecimal(-n)
  {
    var digits := NatToDecimal(-n);
    assert ("-" + digits)[1..] == digits;
  }

  /** The rendering starts with a minus sign exactly for negative numbers. */
  lemma NegativeIffMinus(n: int)
    ensures |IntToDecimal(n)| > 0
    ensures IntToDecimal(n)[0] == '-' <==> n < 0
  {
    if n >= 0 {
      assert '0' <= NatToDecimal(n)[0] <= '9';
    }
  }
}
