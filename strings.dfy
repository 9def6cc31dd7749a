/** The few PHP string primitives the engine relies on: implode, (string) of an int,
    the leading digit run of `\d+`, addslashes and sprintf's `%d`. */
module Strings {
  import opened Wrappers

  predicate StartsWith(s: string, prefix: string) {
    |prefix| <= |s| && s[..|prefix|] == prefix
  }

  predicate EndsWith(s: string, suffix: string) {
    |suffix| <= |s| && s[|s| - |suffix|..] == suffix
  }

  /** PHP `implode(sep, parts)`. */
  function Join(sep: string, parts: seq<string>): string {
    if |parts| == 0 then ""
    else if |parts| == 1 then parts[0]
    else parts[0] + sep + Join(sep, parts[1..])
  }

  // ---------------------------------------------------------------------------
  // Decimal digits and integers
  // ---------------------------------------------------------------------------

  predicate IsDigit(c: char) {
    '0' <= c <= '9'
  }

  predicate IsDigits(s: string) {
    forall i :: 0 <= i < |s| ==> IsDigit(s[i])
  }

  function DigitValue(c: char): nat
    requires IsDigit(c)
  {
    c as int - '0' as int
  }

  function DigitChar(d: nat): (c: char)
    requires d < 10
    ensures IsDigit(c) && DigitValue(c) == d
  {
    ('0' as int + d) as char
  }

  /** The number a run of decimal digits denotes (the empty run denotes 0). */
  function DigitsValue(s: string): nat
    requires IsDigits(s)
  {
    if |s| == 0 then 0 else DigitsValue(s[..|s| - 1]) * 10 + DigitValue(s[|s| - 1])
  }

  /** Decimal rendering of a natural number: its digits, without leading zeros. */
  function NatToString(n: nat): (s: string)
    ensures |s| >= 1 && IsDigits(s) && DigitsValue(s) == n
    ensures |s| == 1 || s[0] != '0'
  {
    if n < 10 then [DigitChar(n)]
    else
      var s := NatToString(n / 10) + [DigitChar(n % 10)];
      assert s[..|s| - 1] == NatToString(n / 10);
      s
  }

  /** Digits without a leading zero (or a single digit) denote a number of at least 1
      (resp. any number), and the number's rendering gives back those very digits. */
  lemma {:induction false} NatToStringDigits(d: string)
    requires |d| >= 1 && IsDigits(d) && (|d| == 1 || d[0] != '0')
    ensures NatToString(DigitsValue(d)) == d
    ensures |d| > 1 ==> DigitsValue(d) >= 10
  {
    var n := DigitsValue(d);
    var last := d[|d| - 1];
    assert DigitChar(DigitValue(last)) == last;
    if |d| > 1 {
      var front := d[..|d| - 1];
      assert front[0] == d[0];
      NatToStringDigits(front);
      assert DigitsValue(front) >= 1 by {
        if |front| == 1 {
          assert DigitsValue(front) == DigitsValue(front[..0]) * 10 + DigitValue(front[0]);
        }
      }
      assert n / 10 == DigitsValue(front) && n % 10 == DigitValue(last);
      assert d == front + [last];
    }
  }

  /** The decimal text of an integer as PHP prints it: no leading zeros and no sign on
      zero. Together with the value read back it determines the text. */
  predicate IsCanonicalInt(s: string) {
    if |s| > 0 && s[0] == '-' then |s| > 1 && s[1] != '0'
    else |s| == 1 || (|s| > 1 && s[0] != '0')
  }

  /** PHP `(string) $int`. */
  function IntToString(i: int): (r: string)
    ensures ParseInt(r) == Some(i) && IsCanonicalInt(r)
  {
    if i < 0 then
      var t := NatToString(-i);
      assert ("-" + t)[1..] == t;
      "-" + t
    else
      var t := NatToString(i);
      assert IsDigit(t[0]);
      t
  }

  /** Reads back a decimal integer with an optional leading minus sign. */
  function ParseInt(s: string): Option<int> {
    if |s| > 1 && s[0] == '-' && IsDigits(s[1..]) then Some(0 - DigitsValue(s[1..]))
    else if |s| > 0 && IsDigits(s) then Some(DigitsValue(s))
    else None
  }

  /** The canonical decimal text of an integer is unique: it is what IntToString prints. */
  lemma CanonicalIntIsIntToString(s: string)
    requires ParseInt(s).Some? && IsCanonicalInt(s)
    ensures IntToString(ParseInt(s).value) == s
  {
    if |s| > 1 && s[0] == '-' && IsDigits(s[1..]) {
      NatToStringDigits(s[1..]);
      assert s == "-" + s[1..];
    } else {
      NatToStringDigits(s);
    }
  }

  /** The longest run of decimal digits at the start of `s` (what `\d+` consumes). */
  function LeadingDigits(s: string): (r: string)
    ensures IsDigits(r) && |r| <= |s| && r == s[..|r|]
    ensures |r| < |s| ==> !IsDigit(s[|r|])
  {
    if |s| == 0 || !IsDigit(s[0]) then "" else [s[0]] + LeadingDigits(s[1..])
  }

  /** A digit run followed by text that does not start with a digit is read whole. */
  lemma {:induction false} LeadingDigitsOfRun(d: string, rest: string)
    requires IsDigits(d)
    requires rest == [] || !IsDigit(rest[0])
    ensures LeadingDigits(d + rest) == d
  {
    if |d| > 0 {
      assert (d + rest)[1..] == d[1..] + rest;
      LeadingDigitsOfRun(d[1..], rest);
    }
  }

  /** The white space PHP skips before a numeric string: space, tab, line feed, carriage
      return, vertical tab and form feed. */
  predicate IsNumericSpace(c: char) {
    c == ' ' || c == '\t' || c == '\n' || c == '\r' || c == '\U{000B}' || c == '\U{000C}'
  }

  /** `s` without its leading white space. */
  function SkipSpaces(s: string): (r: string)
    ensures |r| <= |s| && r == s[|s| - |r|..]
    ensures forall i :: 0 <= i < |s| - |r| ==> IsNumericSpace(s[i])
    ensures r == [] || !IsNumericSpace(r[0])
  {
    if |s| > 0 && IsNumericSpace(s[0]) then SkipSpaces(s[1..]) else s
  }

  /** The value of an optional sign and the digit run after it; no digits read as 0. */
  function SignedValue(t: string): int {
    if |t| > 0 && t[0] == '-' then 0 - DigitsValue(LeadingDigits(t[1..]))
    else if |t| > 0 && t[0] == '+' then DigitsValue(LeadingDigits(t[1..]))
    else DigitsValue(LeadingDigits(t))
  }

  /** PHP's integer value of a string used as an integer: leading white space, an
      optional sign, then the leading digit run; a string with no digits there is 0. */
  function LeadingInt(s: string): int {
    SignedValue(SkipSpaces(s))
  }

  /** An integer's decimal text, after any white space and before any text that does not
      continue the number, is read back as that integer. */
  lemma LeadingIntReadsInteger(pad: string, i: int, rest: string)
    requires forall k :: 0 <= k < |pad| ==> IsNumericSpace(pad[k])
    requires rest == [] || !IsDigit(rest[0])
    ensures LeadingInt(pad + IntToString(i) + rest) == i
  {
    var t := IntToString(i) + rest;
    assert pad + IntToString(i) + rest == pad + t;
    assert t[0] == IntToString(i)[0];
    SkipSpacesPad(pad, t);
    SignedValueOfText(i, rest);
  }

  lemma SignedValueOfText(i: int, rest: string)
    requires rest == [] || !IsDigit(rest[0])
    ensures SignedValue(IntToString(i) + rest) == i
  {
    if i < 0 {
      var d := NatToString(-i);
      var t := IntToString(i) + rest;
      assert t == ['-'] + (d + rest);
      assert t[0] == '-' && t[1..] == d + rest;
      LeadingDigitsOfRun(d, rest);
    } else {
      var d := NatToString(i);
      var t := IntToString(i) + rest;
      assert t == d + rest && t[0] == d[0];
      LeadingDigitsOfRun(d, rest);
    }
  }

  lemma {:induction false} SkipSpacesPad(pad: string, t: string)
    requires forall k :: 0 <= k < |pad| ==> IsNumericSpace(pad[k])
    requires t == [] || !IsNumericSpace(t[0])
    ensures SkipSpaces(pad + t) == t
  {
    if |pad| > 0 {
      assert (pad + t)[0] == pad[0] && (pad + t)[1..] == pad[1..] + t;
      SkipSpacesPad(pad[1..], t);
    } else {
      assert pad + t == t;
    }
  }

  // ---------------------------------------------------------------------------
  // addslashes and its inverse
  // ---------------------------------------------------------------------------

  /** addslashes on one character: quote, double quote and backslash get a backslash,
      NUL becomes backslash-zero. */
  function Escape(c: char): string {
    if c == '\'' || c == '"' || c == '\\' then ['\\', c]
    else if c == '\0' then ['\\', '0']
    else [c]
  }

  /** PHP `addslashes`. */
  function AddSlashes(s: string): string {
    if |s| == 0 then "" else Escape(s[0]) + AddSlashes(s[1..])
  }

  /** PHP `stripslashes`: backslash-zero becomes NUL, a backslash before any other
      character is dropped, and a lone trailing backslash disappears. */
  function StripSlashes(s: string): string {
    if |s| == 0 then ""
    else if s[0] != '\\' then [s[0]] + StripSlashes(s[1..])
    else if |s| == 1 then ""
    else (if s[1] == '0' then ['\0'] else [s[1]]) + StripSlashes(s[2..])
  }

  /** A string escaped by addslashes is recovered exactly by stripslashes. */
  lemma {:induction false} StripSlashesAddSlashes(s: string)
    ensures StripSlashes(AddSlashes(s)) == s
  {
    if |s| > 0 {
      StripSlashesAddSlashes(s[1..]);
      var e := Escape(s[0]);
      var rest := AddSlashes(s[1..]);
      assert AddSlashes(s) == e + rest;
      if |e| == 1 {
        assert (e + rest)[0] == s[0] && (e + rest)[1..] == rest;
      } else {
        assert (e + rest)[0] == '\\' && (e + rest)[1] == e[1] && (e + rest)[2..] == rest;
      }
    }
  }

  // ---------------------------------------------------------------------------
  // sprintf with %d conversions
  // ---------------------------------------------------------------------------

  /** `sprintf(template, ...)` where every conversion is `%d` and each argument is
      already rendered as decimal text. */
  function FormatD(template: string, args: seq<string>): string
    decreases |template|
  {
    if |template| == 0 then ""
    else if |template| >= 2 && template[0] == '%' && template[1] == 'd' then
      (if |args| == 0 then "" else args[0]) + FormatD(template[2..], if |args| == 0 then [] else args[1..])
    else [template[0]] + FormatD(template[1..], args)
  }

  predicate NoConversion(s: string) {
    forall i :: 0 <= i < |s| ==> s[i] != '%'
  }

  /** Text without `%` is copied through unchanged. */
  lemma {:induction false} FormatDCopiesLiteral(literal: string, rest: string, args: seq<string>)
    requires NoConversion(literal)
    ensures FormatD(literal + rest, args) == literal + FormatD(rest, args)
  {
    if |literal| > 0 {
      var t := literal + rest;
      assert t[0] == literal[0] && literal[0] != '%';
      assert FormatD(t, args) == [t[0]] + FormatD(t[1..], args);
      assert (literal + rest)[1..] == literal[1..] + rest;
      FormatDCopiesLiteral(literal[1..], rest, args);
      assert [literal[0]] + literal[1..] == literal;
    } else {
      assert literal + rest == rest;
    }
  }

  /** A `%d` conversion consumes the next argument. */
  lemma FormatDConversion(rest: string, x: string, args: seq<string>)
    ensures FormatD("%d" + rest, [x] + args) == x + FormatD(rest, args)
  {
    var t := "%d" + rest;
    assert t[0] == '%' && t[1] == 'd' && t[2..] == rest;
    assert ([x] + args)[0] == x && ([x] + args)[1..] == args;
  }

  /** A template with one `%d` between two literal parts. */
  lemma FormatDOne(before: string, after: string, x: string)
    requires NoConversion(before) && NoConversion(after)
    ensures FormatD(before + "%d" + after, [x]) == before + x + after
  {
    assert before + "%d" + after == before + ("%d" + after);
    FormatDCopiesLiteral(before, "%d" + after, [x]);
    assert [x] == [x] + [];
    FormatDConversion(after, x, []);
    FormatDCopiesLiteral(after, "", []);
    assert after + "" == after;
  }

  /** A template with two `%d` conversions separated by literal text. */
  lemma FormatDTwo(before: string, middle: string, after: string, x: string, y: string)
    requires NoConversion(before) && NoConversion(middle) && NoConversion(after)
    ensures FormatD(before + "%d" + middle + "%d" + after, [x, y]) == before + x + middle + y + after
  {
    var tail := middle + "%d" + after;
    assert before + "%d" + middle + "%d" + after == before + ("%d" + tail);
    FormatDCopiesLiteral(before, "%d" + tail, [x, y]);
    assert [x, y] == [x] + [y];
    FormatDConversion(tail, x, [y]);
    FormatDOne(middle, after, y);
    calc {
      FormatD(before + ("%d" + tail), [x, y]);
      before + FormatD("%d" + tail, [x] + [y]);
      before + (x + FormatD(tail, [y]));
      before + (x + (middle + y + after));
      before + x + middle + y + after;
    }
  }
}
