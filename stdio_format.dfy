/**
 * The parts of the C library's formatted I/O that the configuration file of
 * the tool relies on: `isspace` in the "C" locale, the `%s` and `%d`
 * conversions of `fscanf`, and the `%d` conversion of `fprintf`.
 */
module StdioFormat {
  import opened Options

  /** `isspace` in the "C" locale. */
  predicate IsSpace(c: char)
  {
    c == ' ' || c == '\t' || c == '\n' || c == '\U{B}' || c == '\U{C}' || c == '\r'
  }

  predicate IsDigit(c: char)
  {
    '0' <= c <= '9'
  }

  predicate NoSpace(s: string)
  {
    forall k | 0 <= k < |s| :: !IsSpace(s[k])
  }

  predicate AllDigits(s: string)
  {
    forall k | 0 <= k < |s| :: IsDigit(s[k])
  }

  /** `r` is what is left of `s` once a prefix of it is consumed. */
  predicate IsSuffix(r: string, s: string)
  {
    |r| <= |s| && r == s[|s| - |r|..]
  }

  /** What is left of the input once the leading white space is consumed, as a
      white-space directive, `%s` and `%d` all do first. */
  function SkipSpace(s: string): (r: string)
    ensures IsSuffix(r, s)
    ensures r == [] || !IsSpace(r[0])
    ensures forall k | 0 <= k < |s| - |r| :: IsSpace(s[k])
  {
    if s != [] && IsSpace(s[0]) then SkipSpace(s[1..]) else s
  }

  /** The number of characters `%<width>s` stores from an input that starts
      with no white space: the run of non-white-space characters, cut at
      `width`. */
  function TokenLength(s: string, width: nat): (n: nat)
    ensures n <= |s| && n <= width
    ensures NoSpace(s[..n])
    ensures n < |s| && n < width ==> IsSpace(s[n])
  {
    if s == [] || width == 0 || IsSpace(s[0]) then 0 else 1 + TokenLength(s[1..], width - 1)
  }

  /** `%<width>s`: skips white space, then stores at most `width`
      non-white-space characters, giving the stored token and the unread rest.
      `None` is the input failure of an input holding only white space, after
      which nothing is stored. */
  function ScanString(s: string, width: nat): (r: Option<(string, string)>)
    requires width > 0
    ensures r.None? <==> SkipSpace(s) == []
    ensures r.Some? ==> 0 < |r.value.0| <= width && NoSpace(r.value.0)
    ensures r.Some? ==> SkipSpace(s) == r.value.0 + r.value.1
    ensures r.Some? ==> r.value.1 == [] || |r.value.0| == width || IsSpace(r.value.1[0])
  {
    var t := SkipSpace(s);
    if t == [] then None
    else
      var n := TokenLength(t, width);
      Some((t[..n], t[n..]))
  }

  /** The length of the run of decimal digits that starts the input. */
  function DigitCount(s: string): (n: nat)
    ensures n <= |s| && AllDigits(s[..n])
    ensures n < |s| ==> !IsDigit(s[n])
  {
    if s != [] && IsDigit(s[0]) then 1 + DigitCount(s[1..]) else 0
  }

  /** The value of a string of decimal digits, most significant first. */
  function DigitsValue(d: string): nat
    requires AllDigits(d)
  {
    if d == [] then 0 else DigitsValue(d[..|d| - 1]) * 10 + (d[|d| - 1] as int - '0' as int)
  }

  /** The length of the optional sign `%d` accepts. */
  function SignLength(t: string): (n: nat)
    ensures n <= |t|
  {
    if t != [] && (t[0] == '-' || t[0] == '+') then 1 else 0
  }

  /** `%d` once the white space before it is consumed: an optional sign
      and then the longest run of decimal digits, giving the value and the
      unread rest. `None` is the matching or input failure when no digit
      follows, after which nothing is stored. */
  function ScanSignedDigits(t: string): (r: Option<(int, string)>)
    ensures r.None? <==> DigitCount(t[SignLength(t)..]) == 0
    ensures r.Some? ==> |r.value.1| < |t| && r.value.1 == t[|t| - |r.value.1|..]
    ensures r.Some? ==> r.value.1 == [] || !IsDigit(r.value.1[0])
  {
    var body := t[SignLength(t)..];
    var n := DigitCount(body);
    if n == 0 then None
    else
      var magnitude: int := DigitsValue(body[..n]);
      Some((if t[0] == '-' then -magnitude else magnitude, body[n..]))
  }

  /** `%d`: skips white space, then reads a signed decimal integer. */
  function ScanDecimal(s: string): (r: Option<(int, string)>)
    ensures r.Some? ==> |r.value.1| < |s|
    ensures r.Some? ==> r.value.1 == [] || !IsDigit(r.value.1[0])
  {
    ScanSignedDigits(SkipSpace(s))
  }

  /** The digit character for a value below ten. */
  function DigitChar(d: nat): (c: char)
    requires d < 10
    ensures IsDigit(c) && c as int - '0' as int == d
  {
    ('0' as int + d) as char
  }

  /** `%d` of `fprintf` for a non-negative value: decimal digits without a
      leading zero. */
  function FormatNat(n: nat): (s: string)
    ensures |s| > 0 && AllDigits(s)
    ensures s[0] == '0' ==> n == 0
  {
    if n < 10 then [DigitChar(n)] else FormatNat(n / 10) + [DigitChar(n % 10)]
  }

  /** `%d` of `fprintf`: a minus sign before the digits of a negative value. */
  function FormatInt(i: int): (s: string)
    ensures |s| > 0 && !IsSpace(s[0]) && NoSpace(s)
    ensures i >= 0 <==> AllDigits(s)
  {
    if i < 0 then "-" + FormatNat(-i) else FormatNat(i)
  }

  lemma {:induction false} DigitsValueOfFormatNat(n: nat)
    ensures DigitsValue(FormatNat(n)) == n
  {
    if n >= 10 {
      var d := FormatNat(n / 10);
      var s := d + [DigitChar(n % 10)];
      assert s[..|s| - 1] == d;
      DigitsValueOfFormatNat(n / 10);
    }
  }

  lemma {:induction false} DigitCountOfDigits(d: string, rest: string)
    requires AllDigits(d)
    requires rest == [] || !IsDigit(rest[0])
    ensures DigitCount(d + rest) == |d|
  {
    if d != [] {
      assert (d + rest)[1..] == d[1..] + rest;
      DigitCountOfDigits(d[1..], rest);
    }
  }

  /** An optional minus sign, digits and then a non-digit read back as the
      value of the digits, negated after a minus sign. */
  lemma ScanSignedDigitsOf(sign: string, d: string, rest: string)
    requires sign == [] || sign == "-"
    requires d != [] && AllDigits(d)
    requires rest == [] || !IsDigit(rest[0])
    ensures var r := ScanSignedDigits(sign + d + rest);
      && r.Some? && r.value.1 == rest
      && r.value.0 == if sign == [] then DigitsValue(d) else -(DigitsValue(d) as int)
  {
    var t := sign + d + rest;
    assert SignLength(t) == |sign|;
    var body := t[|sign|..];
    assert body == d + rest;
    DigitCountOfDigits(d, rest);
    assert body[..|d|] == d && body[|d|..] == rest;
  }

  /** Reading back what `%d` printed gives the same value, whatever integer it
      was, as long as no digit follows it. */
  lemma ScanDecimalOfFormatInt(i: int, rest: string)
    requires rest == [] || !IsDigit(rest[0])
    ensures ScanDecimal(FormatInt(i) + rest) == Some((i, rest))
  {
    var sign: string := if i < 0 then "-" else [];
    var magnitude: nat := if i < 0 then -i else i;
    var d := FormatNat(magnitude);
    assert FormatInt(i) + rest == sign + d + rest;
    SkipSpaceOfWord(sign + d + rest);
    ScanSignedDigitsOf(sign, d, rest);
    DigitsValueOfFormatNat(magnitude);
  }

  /** Input that does not start with white space is left as it is. */
  lemma SkipSpaceOfWord(s: string)
    requires s != [] && !IsSpace(s[0])
    ensures SkipSpace(s) == s
  {
  }

  /** A white-space character before a `%d` conversion changes nothing. */
  lemma ScanDecimalSkipsSpace(c: char, s: string)
    requires IsSpace(c)
    ensures ScanDecimal([c] + s) == ScanDecimal(s)
  {
    assert ([c] + s)[1..] == s;
    assert SkipSpace([c] + s) == SkipSpace(s);
  }

  /** `%<width>s` stores exactly a word that is short enough and is followed
      by white space or the end of the input. */
  lemma {:induction false} TokenLengthOfWord(w: string, rest: string, width: nat)
    requires NoSpace(w) && |w| <= width
    requires rest == [] || IsSpace(rest[0])
    ensures TokenLength(w + rest, width) == |w|
  {
    if w != [] {
      assert (w + rest)[1..] == w[1..] + rest;
      TokenLengthOfWord(w[1..], rest, width - 1);
    }
  }

  /** `%<width>s` stores a word that fits the width whole and leaves the
      white space after it unread. */
  lemma ScanStringOfWord(w: string, rest: string, width: nat)
    requires w != [] && NoSpace(w) && |w| <= width
    requires rest == [] || IsSpace(rest[0])
    ensures ScanString(w + rest, width) == Some((w, rest))
  {
    var t := w + rest;
    assert t[0] == w[0];
    assert SkipSpace(t) == t;
    TokenLengthOfWord(w, rest, width);
    assert t[..|w|] == w && t[|w|..] == rest;
  }

  /** `%<width>s` stops at the width inside a longer word. */
  lemma {:induction false} TokenLengthCapped(s: string, width: nat)
    requires NoSpace(s) && width <= |s|
    ensures TokenLength(s, width) == width
  {
    if width > 0 {
      TokenLengthCapped(s[1..], width - 1);
    }
  }

  /** `%<width>s` stores the first `width` characters of a longer word. */
  lemma ScanStringOfLongWord(w: string, width: nat)
    requires NoSpace(w) && 0 < width <= |w|
    ensures ScanString(w, width) == Some((w[..width], w[width..]))
  {
    assert SkipSpace(w) == w;
    TokenLengthCapped(w, width);
  }
}
