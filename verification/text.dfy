/** String and number primitives of the Java runtime that the MIB loaders rely
    on: integer parsing and printing, `String.split`, `%02x`, the `\s` and `\w`
    regular-expression classes, and a decimal model of `Double.parseDouble`.
    Characters are treated as ASCII; see README for what that leaves out. */
module Text {
  import opened Wrappers

  const INT_MIN: int := -0x8000_0000
  const INT_MAX: int := 0x7fff_ffff
  const LONG_MIN: int := -0x8000_0000_0000_0000
  const LONG_MAX: int := 0x7fff_ffff_ffff_ffff
  const ULONG_LIMIT: int := 0x1_0000_0000_0000_0000

  predicate IsJavaInt(x: int) {
    INT_MIN <= x <= INT_MAX
  }

  // ---------------------------------------------------------------------------
  // Digits

  /** `Character.digit(c, radix)` restricted to ASCII letters and digits. */
  function DigitValue(c: char, radix: nat): int {
    var v :=
      if '0' <= c <= '9' then (c as int) - ('0' as int)
      else if 'a' <= c <= 'z' then (c as int) - ('a' as int) + 10
      else if 'A' <= c <= 'Z' then (c as int) - ('A' as int) + 10
      else -1;
    if 0 <= v < radix then v else -1
  }

  predicate AllDigits(s: string, radix: nat) {
    forall i :: 0 <= i < |s| ==> DigitValue(s[i], radix) >= 0
  }

  /** Value of a digit string read most-significant digit first. */
  function DigitsValue(s: string, radix: nat): nat
    requires AllDigits(s, radix)
  {
    if |s| == 0 then 0
    else DigitsValue(s[..|s| - 1], radix) * radix + DigitValue(s[|s| - 1], radix)
  }

  function DigitChar(d: nat): char
    requires d < 16
  {
    if d < 10 then ((('0' as int) + d) as char) else ((('a' as int) + d - 10) as char)
  }

  lemma DigitCharValue(d: nat, radix: nat)
    requires d < radix <= 16
    ensures DigitValue(DigitChar(d), radix) == d
  {
  }

  // ---------------------------------------------------------------------------
  // Integer parsing (Integer.parseInt, Long.parseLong, Long.parseUnsignedLong)

  /** An optional `+`/`-` followed by at least one digit of `radix`, whose value
      lies in `[lo, hi]`; `None` is Java's NumberFormatException. */
  function ParseSigned(s: string, radix: nat, lo: int, hi: int): (r: Option<int>)
    requires 2 <= radix <= 36
    ensures r.Some? ==> lo <= r.value <= hi
    ensures r.Some? ==> |s| > 0
  {
    if |s| == 0 then None
    else
      var body := if s[0] == '-' || s[0] == '+' then s[1..] else s;
      if |body| == 0 || !AllDigits(body, radix) then None
      else
        var mag: int := DigitsValue(body, radix);
        var v := if s[0] == '-' then -mag else mag;
        if lo <= v <= hi then Some(v) else None
  }

  /** `Integer.parseInt(s)`. */
  function ParseInt(s: string): (r: Option<int>)
    ensures r.Some? ==> IsJavaInt(r.value)
  {
    ParseSigned(s, 10, INT_MIN, INT_MAX)
  }

  /** `Long.parseLong(s, radix)`. */
  function ParseLongRadix(s: string, radix: nat): (r: Option<int>)
    requires 2 <= radix <= 36
    ensures r.Some? ==> LONG_MIN <= r.value <= LONG_MAX
  {
    ParseSigned(s, radix, LONG_MIN, LONG_MAX)
  }

  /** `Long.parseLong(s)`. */
  function ParseLong(s: string): (r: Option<int>)
    ensures r.Some? ==> LONG_MIN <= r.value <= LONG_MAX
  {
    ParseLongRadix(s, 10)
  }

  /** `Long.parseUnsignedLong(s)`: an optional `+` and decimal digits whose
      value is below 2^64; the result is that bit pattern read as a signed long. */
  function ParseUnsignedLong(s: string): (r: Option<int>)
    ensures r.Some? ==> LONG_MIN <= r.value <= LONG_MAX
    ensures r.Some? ==> |s| > 0 && s[0] != '-'
  {
    if |s| == 0 || s[0] == '-' then None
    else
      match ParseSigned(s, 10, 0, ULONG_LIMIT - 1)
      case None => None
      case Some(v) => Some(if v > LONG_MAX then v - ULONG_LIMIT else v)
  }

  // ---------------------------------------------------------------------------
  // Integer printing (Integer.toString, Long.toString, %02x)

  function NatToString(n: nat): (s: string)
    ensures |s| >= 1
    ensures AllDigits(s, 10)
  {
    if n < 10 then [DigitChar(n)] else NatToString(n / 10) + [DigitChar(n % 10)]
  }

  /** `Integer.toString(n)` / `Long.toString(n)`. */
  function IntToString(n: int): string {
    if n < 0 then "-" + NatToString(-n) else NatToString(n)
  }

  function NatToHex(n: nat): (s: string)
    ensures |s| >= 1
    ensures AllDigits(s, 16)
  {
    if n < 16 then [DigitChar(n)] else NatToHex(n / 16) + [DigitChar(n % 16)]
  }

  /** `String.format("%02x", x)` for a Java int: lower-case hexadecimal of the
      32-bit two's-complement pattern, left-padded with `0` to two digits. */
  function Hex02(x: int): (s: string)
    requires IsJavaInt(x)
    ensures |s| >= 2
  {
    var h := NatToHex(if x < 0 then x + 0x1_0000_0000 else x);
    if |h| < 2 then "0" + h else h
  }

  lemma {:induction false} NatToStringValue(n: nat)
    ensures DigitsValue(NatToString(n), 10) == n
    decreases n
  {
    var s := NatToString(n);
    if n >= 10 {
      NatToStringValue(n / 10);
      assert s[..|s| - 1] == NatToString(n / 10);
      DigitCharValue(n % 10, 10);
    } else {
      DigitCharValue(n, 10);
      assert s[..|s| - 1] == [];
    }
  }

  lemma {:induction false} NatToHexValue(n: nat)
    ensures DigitsValue(NatToHex(n), 16) == n
    decreases n
  {
    var s := NatToHex(n);
    if n >= 16 {
      NatToHexValue(n / 16);
      assert s[..|s| - 1] == NatToHex(n / 16);
      DigitCharValue(n % 16, 16);
    } else {
      DigitCharValue(n, 16);
      assert s[..|s| - 1] == [];
    }
  }

  /** An unsigned digit string parses to its value. */
  lemma ParseDigits(d: string, radix: nat, lo: int, hi: int)
    requires 2 <= radix <= 36
    requires |d| >= 1 && AllDigits(d, radix)
    requires lo <= DigitsValue(d, radix) <= hi
    ensures ParseSigned(d, radix, lo, hi) == Some(DigitsValue(d, radix) as int)
  {
    assert DigitValue(d[0], radix) >= 0;
  }

  /** A minus sign followed by a digit string parses to the negated value. */
  lemma ParseNegDigits(d: string, radix: nat, lo: int, hi: int)
    requires 2 <= radix <= 36
    requires |d| >= 1 && AllDigits(d, radix)
    requires lo <= -(DigitsValue(d, radix) as int) <= hi
    ensures ParseSigned("-" + d, radix, lo, hi) == Some(-(DigitsValue(d, radix) as int))
  {
    assert ("-" + d)[1..] == d;
  }

  /** Printing then parsing an integer gives it back (the `Integer.toString`
      values written into restriction criteria read back as the same number). */
  lemma IntToStringRoundTrip(n: int, lo: int, hi: int)
    requires lo <= n <= hi
    ensures ParseSigned(IntToString(n), 10, lo, hi) == Some(n)
  {
    if n < 0 {
      NatToStringValue(-n);
      ParseNegDigits(NatToString(-n), 10, lo, hi);
    } else {
      NatToStringValue(n);
      ParseDigits(NatToString(n), 10, lo, hi);
    }
  }

  /** Every hexadecimal string `%02x` prints for a non-negative value parses
      back, in radix 16, to that value. */
  lemma Hex02RoundTrip(x: int, lo: int, hi: int)
    requires 0 <= x <= INT_MAX && lo <= x <= hi
    ensures ParseSigned(Hex02(x), 16, lo, hi) == Some(x)
  {
    var h := NatToHex(x);
    NatToHexValue(x);
    assert DigitValue(h[0], 16) >= 0;
    if |h| < 2 {
      var s := "0" + h;
      assert s[..|s| - 1] == "0";
      assert DigitsValue("0", 16) == 0 by {
        assert ("0")[..0] == [];
      }
      assert DigitValue(s[0], 16) >= 0;
    }
  }

  // ---------------------------------------------------------------------------
  // Character classes and simple string operations

  /** Java regex `\s`: space, tab, newline, vertical tab, form feed, carriage return. */
  predicate IsRegexSpace(c: char) {
    c == ' ' || c == '\t' || c == '\n' || c == '\U{0B}' || c == '\U{0C}' || c == '\r'
  }

  /** `Character.isWhitespace` on the ASCII range. */
  predicate IsJavaWhitespace(c: char) {
    IsRegexSpace(c) || ('\U{1C}' <= c <= '\U{1F}')
  }

  /** `String.isBlank()`. */
  predicate IsBlank(s: string) {
    forall i :: 0 <= i < |s| ==> IsJavaWhitespace(s[i])
  }

  /** Java regex `\w`: ASCII letter, digit or underscore. */
  predicate IsWordChar(c: char) {
    ('a' <= c <= 'z') || ('A' <= c <= 'Z') || ('0' <= c <= '9') || c == '_'
  }

  /** `Pattern.compile("\\w+").matcher(s).matches()`. */
  predicate IsWordString(s: string) {
    |s| >= 1 && forall i :: 0 <= i < |s| ==> IsWordChar(s[i])
  }

  predicate StartsWith(s: string, prefix: string) {
    |prefix| <= |s| && s[..|prefix|] == prefix
  }

  /** `s.contains(part)`: `part` occurs at some position of `s`. */
  predicate Contains(s: string, part: string)
    decreases |s|
  {
    StartsWith(s, part) || (|s| > 0 && Contains(s[1..], part))
  }

  function LowerChar(c: char): char {
    if 'A' <= c <= 'Z' then ((c as int) - ('A' as int) + ('a' as int)) as char else c
  }

  /** `a.equalsIgnoreCase(b)` on ASCII. */
  predicate EqualsIgnoreCase(a: string, b: string) {
    |a| == |b| && forall i :: 0 <= i < |a| ==> LowerChar(a[i]) == LowerChar(b[i])
  }

  function ToLower(s: string): (r: string)
    ensures |r| == |s|
    ensures forall i :: 0 <= i < |s| ==> r[i] == LowerChar(s[i])
  {
    if |s| == 0 then "" else [LowerChar(s[0])] + ToLower(s[1..])
  }

  /** `s.replace(String.valueOf(c), "")`: every occurrence of `c` removed. */
  function RemoveChar(s: string, c: char): (r: string)
    ensures c !in r
    ensures forall x :: x in r ==> x in s
    ensures c !in s ==> r == s
    ensures |r| <= |s|
  {
    if |s| == 0 then ""
    else if s[0] == c then RemoveChar(s[1..], c)
    else [s[0]] + RemoveChar(s[1..], c)
  }

  /** `s.indexOf(c)`: the first index of `c`, or -1. */
  function IndexOf(s: string, c: char): (r: int)
    ensures -1 <= r < |s|
    ensures r == -1 <==> c !in s
    ensures r >= 0 ==> s[r] == c && c !in s[..r]
  {
    if |s| == 0 then -1
    else if s[0] == c then 0
    else
      var k := IndexOf(s[1..], c);
      if k == -1 then -1 else k + 1
  }

  // ---------------------------------------------------------------------------
  // String.split with a one-character separator

  /** Every field between separators, empty fields included. */
  function SplitAll(s: string, sep: char): (r: seq<string>)
    ensures |r| >= 1
    ensures forall k :: 0 <= k < |r| ==> sep !in r[k]
    decreases |s|
  {
    if |s| == 0 then [""]
    else
      var rest := SplitAll(s[1..], sep);
      if s[0] == sep then [""] + rest
      else [[s[0]] + rest[0]] + rest[1..]
  }

  function Join(fields: seq<string>, sep: char): string
    requires |fields| >= 1
  {
    if |fields| == 1 then fields[0] else fields[0] + [sep] + Join(fields[1..], sep)
  }

  /** Joining the fields with the separator gives back the line. */
  lemma {:induction false} SplitAllJoin(s: string, sep: char)
    ensures Join(SplitAll(s, sep), sep) == s
    decreases |s|
  {
    if |s| > 0 {
      var rest := SplitAll(s[1..], sep);
      SplitAllJoin(s[1..], sep);
      if s[0] == sep {
        assert SplitAll(s, sep)[1..] == rest;
      } else {
        var r := SplitAll(s, sep);
        if |rest| == 1 {
          assert r == [[s[0]] + rest[0]];
        } else {
          assert r[1..] == rest[1..];
          assert Join(r, sep) == [s[0]] + rest[0] + [sep] + Join(rest[1..], sep);
        }
      }
    }
  }

  function DropTrailingEmpty(fields: seq<string>): (r: seq<string>)
    ensures |r| <= |fields|
    ensures r == fields[..|r|]
    ensures |r| > 0 ==> r[|r| - 1] != ""
    ensures forall k :: |r| <= k < |fields| ==> fields[k] == ""
  {
    if |fields| == 0 then []
    else if fields[|fields| - 1] == "" then DropTrailingEmpty(fields[..|fields| - 1])
    else fields
  }

  /** `line.split(sep)`: when the separator does not occur the line is the only
      field (even if empty); otherwise trailing empty fields are dropped. */
  function JavaSplit(s: string, sep: char): (r: seq<string>)
    ensures forall k :: 0 <= k < |r| ==> sep !in r[k]
  {
    if sep !in s then [s] else DropTrailingEmpty(SplitAll(s, sep))
  }

  /** Joining a line's fields with a trailing empty field adds one separator. */
  lemma {:induction false} JoinSnocEmpty(fields: seq<string>, sep: char)
    requires |fields| >= 1
    ensures Join(fields + [""], sep) == Join(fields, sep) + [sep]
    decreases |fields|
  {
    if |fields| > 1 {
      assert (fields + [""])[1..] == fields[1..] + [""];
      JoinSnocEmpty(fields[1..], sep);
    }
  }

  /** `Join`, taking the empty sequence of fields to the empty string. */
  function JoinFields(fields: seq<string>, sep: char): string {
    if |fields| == 0 then "" else Join(fields, sep)
  }

  /** What `DropTrailingEmpty` loses from a joined line is separators only. */
  lemma {:induction false} DropTrailingEmptyJoin(fields: seq<string>, sep: char)
    requires |fields| >= 1
    ensures var j := JoinFields(DropTrailingEmpty(fields), sep); var all := Join(fields, sep);
      StartsWith(all, j) && forall i :: |j| <= i < |all| ==> all[i] == sep
    decreases |fields|
  {
    if fields[|fields| - 1] == "" && |fields| > 1 {
      var init := fields[..|fields| - 1];
      assert fields == init + [""];
      JoinSnocEmpty(init, sep);
      DropTrailingEmptyJoin(init, sep);
    }
  }

  /** The fields `split` returns, joined with the separator, are the line
      without its trailing separators: no character other than a trailing
      separator is lost. */
  lemma JavaSplitJoin(s: string, sep: char)
    ensures var j := JoinFields(JavaSplit(s, sep), sep);
      StartsWith(s, j) && forall i :: |j| <= i < |s| ==> s[i] == sep
  {
    if sep in s {
      SplitAllJoin(s, sep);
      DropTrailingEmptyJoin(SplitAll(s, sep), sep);
    }
  }

  /** Splitting keeps every field up to the last non-empty one and drops only
      empty trailing fields. */
  lemma JavaSplitFields(s: string, sep: char)
    requires sep in s
    ensures JavaSplit(s, sep) == SplitAll(s, sep)[..|JavaSplit(s, sep)|]
    ensures forall k :: |JavaSplit(s, sep)| <= k < |SplitAll(s, sep)| ==> SplitAll(s, sep)[k] == ""
  {
  }

  // ---------------------------------------------------------------------------
  // Decimal model of Double.parseDouble

  function Pow10(n: nat): (r: nat)
    ensures r >= 1
  {
    if n == 0 then 1 else 10 * Pow10(n - 1)
  }

  /** `[+|-] digits [. digits] [(e|E) [+|-] digits]` with at least one mantissa
      digit, read as an exact rational number. */
  function ParseReal(s: string): (r: Option<real>)
    ensures r.Some? ==> |s| > 0
  {
    if |s| == 0 then None
    else if s[0] == '-' then
      match ScanDecimal(s, 1, 0, 0, false, false)
      case Some(v) => Some(-v)
      case None => None
    else if s[0] == '+' then ScanDecimal(s, 1, 0, 0, false, false)
    else ScanDecimal(s, 0, 0, 0, false, false)
  }

  /** Reads the unsigned part of a decimal from index `i` on: `mant` holds the
      digits read so far, `frac` how many of them follow the point, `dot`
      whether the point was seen and `any` whether a digit was. */
  function ScanDecimal(s: string, i: nat, mant: nat, frac: nat, dot: bool, any: bool): Option<real>
    decreases |s| - i
  {
    if i >= |s| then
      if any then Some((mant as real) / (Pow10(frac) as real)) else None
    else if '0' <= s[i] <= '9' then
      ScanDecimal(s, i + 1, mant * 10 + DigitValue(s[i], 10), if dot then frac + 1 else frac, dot, true)
    else if s[i] == '.' && !dot then
      ScanDecimal(s, i + 1, mant, frac, true, any)
    else if (s[i] == 'e' || s[i] == 'E') && any then
      var m := (mant as real) / (Pow10(frac) as real);
      match ParseSigned(s[i + 1..], 10, INT_MIN, INT_MAX)
      case None => None
      case Some(x) => Some(if x >= 0 then m * (Pow10(x) as real) else m / (Pow10(-x) as real))
    else None
  }

}
