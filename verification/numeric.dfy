/** The "is the target text a number" test and the integer parse that goal
    creation applies to the target-time input field. Both are modelled on
    plain decimal-digit strings: a non-empty string of digits is numeric and
    parses to its decimal value (leading zeros allowed). */
module Numeric {

  predicate IsDigit(c: char) {
    '0' <= c <= '9'
  }

  function DigitValue(c: char): (d: nat)
    requires IsDigit(c)
    ensures d < 10
  {
    (c as int) - ('0' as int)
  }

  function DigitChar(d: nat): (c: char)
    requires d < 10
    ensures IsDigit(c) && DigitValue(c) == d
  {
    (('0' as int) + d) as char
  }

  /** The abstraction of `!isNaN(text)` for a non-empty input: a text is
      numeric exactly when it is non-empty and parseInt's run of leading
      digits covers all of it. */
  predicate IsNumeric(s: string)
    ensures IsNumeric(s) <==> s != [] && DigitRun(s) == |s|
  {
    s != [] && forall i :: 0 <= i < |s| ==> IsDigit(s[i])
  }

  function Pow10(k: nat): (p: nat)
    ensures p >= 1
  {
    if k == 0 then 1 else 10 * Pow10(k - 1)
  }

  /** The abstraction of `parseInt(text)` on a numeric input: the decimal value,
      most significant digit first. A text of k digits denotes a value below
      10^k. */
  function ParseDecimal(s: string): (r: nat)
    requires forall i :: 0 <= i < |s| ==> IsDigit(s[i])
    ensures r < Pow10(|s|)
    decreases |s|
  {
    if s == [] then 0
    else 10 * ParseDecimal(s[..|s| - 1]) + DigitValue(s[|s| - 1])
  }

  /** The decimal rendering of a natural number, the inverse of ParseDecimal. */
  function ShowDecimal(n: nat): (s: string)
    ensures IsNumeric(s)
    decreases n
  {
    if n < 10 then [DigitChar(n)]
    else ShowDecimal(n / 10) + [DigitChar(n % 10)]
  }

  /** Every natural number is the value of some numeric text: parsing its
      rendering gives it back. */
  lemma {:induction false} ParseShow(n: nat)
    ensures ParseDecimal(ShowDecimal(n)) == n
    decreases n
  {
    var s := ShowDecimal(n);
    if n < 10 {
      assert s[..|s| - 1] == [];
    } else {
      ParseShow(n / 10);
      assert s[..|s| - 1] == ShowDecimal(n / 10);
    }
  }

  /** Parsing is insensitive to leading zeros, as parseInt is. */
  lemma {:induction false} ParseLeadingZero(s: string)
    requires forall i :: 0 <= i < |s| ==> IsDigit(s[i])
    ensures ParseDecimal("0" + s) == ParseDecimal(s)
    decreases |s|
  {
    if s != [] {
      var t := "0" + s;
      assert t[..|t| - 1] == "0" + s[..|s| - 1];
      ParseLeadingZero(s[..|s| - 1]);
    }
  }

  /* What the screen actually runs, restricted to texts made of decimal
     digits and whitespace only (other texts, such as "1.5" or "-2", are
     outside this part of the model): `isNaN(text)` converts with Number(), which ignores surrounding
     whitespace and reads a whitespace-only text as 0, while `parseInt(text)`
     skips leading whitespace and reads the longest run of digits after it,
     giving NaN when there is none. */

  datatype Option<T> = None | Some(value: T)

  predicate IsSpace(c: char) {
    c == ' ' || c == '\t' || c == '\n' || c == '\r'
  }

  predicate AllDigits(s: string) {
    forall i :: 0 <= i < |s| ==> IsDigit(s[i])
  }

  predicate IsDigitsAndSpaces(s: string) {
    forall i :: 0 <= i < |s| ==> IsDigit(s[i]) || IsSpace(s[i])
  }

  function TrimStart(s: string): (r: string)
    ensures |r| <= |s| && r == s[|s| - |r|..]
    ensures r == [] || !IsSpace(r[0])
    decreases |s|
  {
    if s != [] && IsSpace(s[0]) then TrimStart(s[1..]) else s
  }

  function TrimEnd(s: string): (r: string)
    ensures |r| <= |s| && r == s[..|r|]
    ensures r == [] || !IsSpace(r[|r| - 1])
    ensures forall i :: |r| <= i < |s| ==> IsSpace(s[i])
    decreases |s|
  {
    if s != [] && IsSpace(s[|s| - 1]) then TrimEnd(s[..|s| - 1]) else s
  }

  /** `isNaN(text)` on a text of digits and whitespace. When it is false and
      the text is not blank, parseInt reads the same number that Number()
      does: the digits between the surrounding whitespace. */
  function IsNaNAsWritten(s: string): (nan: bool)
    requires IsDigitsAndSpaces(s)
    ensures !nan <==> AllDigits(TrimEnd(TrimStart(s)))
    ensures !nan && TrimStart(s) != [] ==>
      ParseIntAsWritten(s) == Some(ParseDecimal(TrimEnd(TrimStart(s))))
  {
    var nan := !AllDigits(TrimEnd(TrimStart(s)));
    if !nan && TrimStart(s) != [] then TrimmedParse(s); nan else nan
  }

  lemma TrimmedParse(s: string)
    requires IsDigitsAndSpaces(s) && TrimStart(s) != []
    requires AllDigits(TrimEnd(TrimStart(s)))
    ensures ParseIntAsWritten(s) == Some(ParseDecimal(TrimEnd(TrimStart(s))))
  {
    CoreRun(TrimStart(s));
  }

  /** When the text without its trailing whitespace is all digits, the
      leading digit run is exactly that text. */
  lemma CoreRun(rest: string)
    requires AllDigits(TrimEnd(rest))
    ensures DigitRun(rest) == |TrimEnd(rest)|
    ensures rest[..DigitRun(rest)] == TrimEnd(rest)
  {
    var core := TrimEnd(rest);
    if |core| < |rest| {
      assert IsSpace(rest[|core|]);
    }
    DigitRunIs(rest, |core|);
  }

  /** A digit run of length k followed by a non-digit (or the end) is the
      whole run. */
  lemma {:induction false} DigitRunIs(t: string, k: nat)
    requires k <= |t| && forall i :: 0 <= i < k ==> IsDigit(t[i])
    requires k < |t| ==> !IsDigit(t[k])
    ensures DigitRun(t) == k
    decreases k
  {
    if k > 0 {
      DigitRunIs(t[1..], k - 1);
    }
  }

  /** The number of leading digits of `s`. */
  function DigitRun(s: string): (n: nat)
    ensures n <= |s|
    ensures forall i :: 0 <= i < n ==> IsDigit(s[i])
    ensures n < |s| ==> !IsDigit(s[n])
    ensures (forall i :: 0 <= i < |s| ==> IsDigit(s[i])) ==> n == |s|
    decreases |s|
  {
    if s != [] && IsDigit(s[0]) then 1 + DigitRun(s[1..]) else 0
  }

  /** `parseInt(text)` on a text of digits and whitespace: `None` stands
      for NaN, which it gives exactly on a blank text. The value is exact,
      where JavaScript rounds past 2^53. */
  function ParseIntAsWritten(s: string): (r: Option<nat>)
    requires IsDigitsAndSpaces(s)
    ensures r == None <==> TrimStart(s) == []
  {
    var rest := TrimStart(s);
    var n := DigitRun(rest);
    if n == 0 then None else Some(ParseDecimal(rest[..n]))
  }

  /** On a numeric text, the digit-string test agrees with `isNaN` and the
      parse agrees with `parseInt`: a target accepted by IsNumeric always
      yields its decimal value. */
  lemma NumericParses(s: string)
    requires IsNumeric(s)
    ensures IsDigitsAndSpaces(s) && !IsNaNAsWritten(s)
    ensures ParseIntAsWritten(s) == Some(ParseDecimal(s))
  {
    assert TrimStart(s) == s;
    assert TrimEnd(s) == s;
    assert s[..|s|] == s;
  }
}
