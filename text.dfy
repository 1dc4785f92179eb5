/**
 * The JavaScript string operations the ledger relies on: the decimal text of
 * a clock reading (`getTime().toString().slice(0, -3)`), `split(':')` and the
 * global `parseInt` applied to one field of a challenge message.
 */
module Text {
  import opened Wrappers

  /** Every character is in the 7-bit ASCII range. */
  predicate IsAscii(s: string) {
    forall i :: 0 <= i < |s| ==> s[i] as int < 128
  }

  /** The lower-case digit character for a value below 16. */
  function DigitChar(d: nat): (c: char)
    requires d < 16
    ensures DigitValue(c, 16) == Some(d)
    ensures d < 10 ==> DigitValue(c, 10) == Some(d)
    ensures c as int < 128
  {
    if d < 10 then ('0' as int + d) as char else ('a' as int + d - 10) as char
  }

  /** The value of `c` as a digit in base `radix` (10 or 16), upper or lower case. */
  function DigitValue(c: char, radix: nat): (v: Option<nat>)
    ensures v.Some? ==> v.value < radix
  {
    if '0' <= c <= '9' && (c as int - '0' as int) < radix then Some(c as int - '0' as int)
    else if radix == 16 && 'a' <= c <= 'f' then Some(c as int - 'a' as int + 10)
    else if radix == 16 && 'A' <= c <= 'F' then Some(c as int - 'A' as int + 10)
    else None
  }

  predicate AllDigits(s: string, radix: nat) {
    forall i :: 0 <= i < |s| ==> DigitValue(s[i], radix).Some?
  }

  /** The number a string of digits denotes in base `radix`, most significant first. */
  function ValueOf(ds: string, radix: nat): nat {
    if |ds| == 0 then 0
    else
      var last := match DigitValue(ds[|ds| - 1], radix) case Some(v) => v case None => 0;
      ValueOf(ds[..|ds| - 1], radix) * radix + last
  }

  /** `n.toString()`: the shortest decimal text of a natural number. */
  function Decimal(n: nat): (s: string)
    ensures |s| >= 1 && AllDigits(s, 10)
    ensures ValueOf(s, 10) == n
    decreases n
  {
    if n < 10 then [DigitChar(n)]
    else
      var s := Decimal(n / 10) + [DigitChar(n % 10)];
      assert s[..|s| - 1] == Decimal(n / 10);
      s
  }

  lemma {:induction false} DecimalDropsLastDigit(n: nat)
    requires n >= 10
    ensures |Decimal(n)| == |Decimal(n / 10)| + 1
    ensures Decimal(n)[..|Decimal(n)| - 1] == Decimal(n / 10)
  {
  }

  /**
   * `n.toString().slice(0, -3)`: the decimal text of a millisecond clock
   * reading with its last three characters removed (empty when the text has
   * three characters or fewer).
   */
  function SecondsText(ms: nat): string {
    var d := Decimal(ms);
    if |d| <= 3 then "" else d[..|d| - 3]
  }

  /** From one second past the epoch on, dropping three digits is division by 1000. */
  lemma {:induction false} SecondsTextIsQuotient(ms: nat)
    requires ms >= 1000
    ensures SecondsText(ms) == Decimal(ms / 1000)
  {
    assert ms / 10 / 10 == ms / 100;
    assert ms / 100 / 10 == ms / 1000;
    DecimalDropsLastDigit(ms);
    DecimalDropsLastDigit(ms / 10);
    DecimalDropsLastDigit(ms / 100);
    var d := Decimal(ms);
    assert d[..|d| - 1][..|d| - 2] == d[..|d| - 2];
    assert d[..|d| - 2][..|d| - 3] == d[..|d| - 3];
  }

  /** `s.split(sep)` for a one-character separator: the maximal separator-free fields, in order. */
  function Split(s: string, sep: char): (parts: seq<string>)
    ensures |parts| >= 1
    ensures |parts| >= 2 ==> exists i :: 0 <= i < |s| && s[i] == sep
  {
    if |s| == 0 then [""]
    else if s[0] == sep then [""] + Split(s[1..], sep)
    else
      var rest := Split(s[1..], sep);
      [[s[0]] + rest[0]] + rest[1..]
  }

  /** A field without the separator, followed by the separator, splits off as the first part. */
  lemma {:induction false} SplitFirstField(a: string, sep: char, rest: string)
    requires forall i :: 0 <= i < |a| ==> a[i] != sep
    ensures Split(a + [sep] + rest, sep) == [a] + Split(rest, sep)
  {
    if |a| == 0 {
      assert a + [sep] + rest == [sep] + rest;
      assert ([sep] + rest)[1..] == rest;
    } else {
      SplitFirstField(a[1..], sep, rest);
      assert (a + [sep] + rest)[1..] == a[1..] + [sep] + rest;
      assert [a[0]] + a[1..] == a;
    }
  }

  /** A field that contains no separator splits into itself alone. */
  lemma {:induction false} SplitNoSeparator(a: string, sep: char)
    requires forall i :: 0 <= i < |a| ==> a[i] != sep
    ensures Split(a, sep) == [a]
  {
    if |a| > 0 {
      SplitNoSeparator(a[1..], sep);
      assert [a[0]] + a[1..] == a;
    }
  }

  /**
   * The characters `parseInt` skips before a number: the ECMAScript
   * WhiteSpace and LineTerminator code points.
   */
  predicate IsJsWhiteSpace(c: char) {
    c == '\t' || c == '\n' || c == '\U{000B}' || c == '\U{000C}' || c == '\r' || c == ' '
    || c == '\U{00A0}' || c == '\U{1680}' || ('\U{2000}' <= c <= '\U{200A}')
    || c == '\U{2028}' || c == '\U{2029}' || c == '\U{202F}' || c == '\U{205F}'
    || c == '\U{3000}' || c == '\U{FEFF}'
  }

  function TrimStart(s: string): (t: string)
    ensures |t| <= |s| && t == s[|s| - |t|..]
    ensures |t| > 0 ==> !IsJsWhiteSpace(t[0])
  {
    if |s| > 0 && IsJsWhiteSpace(s[0]) then TrimStart(s[1..]) else s
  }

  /** The longest prefix of `s` made of digits of base `radix`. */
  function DigitPrefix(s: string, radix: nat): (ds: string)
    ensures |ds| <= |s| && ds == s[..|ds|] && AllDigits(ds, radix)
    ensures |ds| < |s| ==> DigitValue(s[|ds|], radix).None?
  {
    if |s| == 0 || DigitValue(s[0], radix).None? then ""
    else
      var rest := DigitPrefix(s[1..], radix);
      assert [s[0]] + rest == s[..|rest| + 1];
      [s[0]] + rest
  }

  /**
   * The global `parseInt(s)` without a radix argument: skip leading white
   * space, take an optional sign, then read the digits. `None` is NaN.
   */
  function ParseInt(s: string): Option<int> {
    var t := TrimStart(s);
    if |t| > 0 && t[0] == '-' then
      match ParseMagnitude(t[1..])
      case None => None
      case Some(m) => Some(0 - m as int)
    else if |t| > 0 && t[0] == '+' then ParseMagnitude(t[1..])
    else ParseMagnitude(t)
  }

  /** Base 16 after a `0x`/`0X` prefix and base 10 otherwise. */
  function ParseMagnitude(u: string): Option<nat> {
    if |u| >= 2 && u[0] == '0' && (u[1] == 'x' || u[1] == 'X') then LeadingNumber(u[2..], 16)
    else LeadingNumber(u, 10)
  }

  /** The value of the longest run of digits at the start of `w`; `None` when there is none. */
  function LeadingNumber(w: string, radix: nat): Option<nat> {
    var ds := DigitPrefix(w, radix);
    if |ds| == 0 then None else Some(ValueOf(ds, radix))
  }

  /** A string of decimal digits is read back in full by DigitPrefix. */
  lemma {:induction false} DigitPrefixOfDigits(s: string, radix: nat)
    requires AllDigits(s, radix)
    ensures DigitPrefix(s, radix) == s
  {
    if |s| > 0 {
      DigitPrefixOfDigits(s[1..], radix);
      assert [s[0]] + s[1..] == s;
    }
  }

  /** `parseInt(' ' + ds)` reads a non-empty run of decimal digits in full. */
  lemma ParseIntOfDigits(ds: string)
    requires |ds| >= 1 && AllDigits(ds, 10)
    ensures ParseInt(" " + ds) == Some(ValueOf(ds, 10))
  {
    var s := " " + ds;
    assert s[0] == ' ' && s[1..] == ds;
    assert IsJsWhiteSpace(s[0]);
    assert '0' <= ds[0] <= '9' by { assert DigitValue(ds[0], 10).Some?; }
    assert !IsJsWhiteSpace(ds[0]);
    assert TrimStart(ds) == ds;
    assert TrimStart(s) == ds;
    assert !(|ds| >= 2 && ds[0] == '0' && (ds[1] == 'x' || ds[1] == 'X')) by {
      if |ds| >= 2 { assert DigitValue(ds[1], 10).Some?; }
    }
    DigitPrefixOfDigits(ds, 10);
  }

  /** `parseInt(' ' + n.toString())` gives back `n`. */
  lemma ParseIntOfDecimal(n: nat)
    ensures ParseInt(" " + Decimal(n)) == Some(n)
  {
    ParseIntOfDigits(Decimal(n));
  }
}
