/** The `sscanf` conversions the command parser relies on, as functions on
    strings (the characters of a C string before its terminating NUL), in the
    "C" locale. Each `char` stands for one byte, so a width such as the 64 of
    `%64[^\n]` counts bytes; a C string holds no `'\0'` and no byte above
    255, and the lemmas here hold for every string, those included.

    Each conversion returns the converted value and the unread rest of the
    input, or `None` when it fails (a matching or input failure: the caller
    only counts successful conversions).
 */
module Scanf {

  datatype Option<T> = None | Some(value: T)

  /** A successful conversion: its value and the input left unread. */
  datatype Scan<T> = Scan(value: T, rest: string)

  /** `isspace` in the "C" locale. */
  predicate IsSpace(c: char)
  {
    c == ' ' || c == '\t' || c == '\n' || c == '\U{B}' || c == '\U{C}' || c == '\r'
  }

  predicate IsNonSpace(c: char) { !IsSpace(c) }

  predicate IsDigit(c: char) { '0' <= c <= '9' }

  predicate IsNonDigit(c: char) { !IsDigit(c) }

  predicate IsNotNewline(c: char) { c != '\n' }

  /** The length of the longest prefix of `s` whose characters all satisfy `p`. */
  function Span(s: string, p: char -> bool): (n: nat)
    ensures n <= |s|
  {
    if s == [] || !p(s[0]) then 0 else 1 + Span(s[1..], p)
  }

  /** Every character of the span satisfies `p`, and the one after it does not. */
  lemma {:induction false} SpanSpec(s: string, p: char -> bool)
    ensures forall i :: 0 <= i < Span(s, p) ==> p(s[i])
    ensures Span(s, p) < |s| ==> !p(s[Span(s, p)])
  {
    if s != [] && p(s[0]) {
      SpanSpec(s[1..], p);
    }
  }

  /** The span of `a + b` when every character of `a` satisfies `p` and `b`
      does not start with one that does. */
  lemma {:induction false} SpanConcat(a: string, b: string, p: char -> bool)
    requires forall i :: 0 <= i < |a| ==> p(a[i])
    requires b == [] || !p(b[0])
    ensures Span(a + b, p) == |a|
  {
    if a != [] {
      assert (a + b)[1..] == a[1..] + b;
      SpanConcat(a[1..], b, p);
    }
  }

  /** A white-space directive of the format: skip any amount of white space. */
  function SkipSpace(s: string): (r: string)
    ensures |r| <= |s|
  {
    s[Span(s, IsSpace)..]
  }

  /** Skipping white space drops a prefix of white space and stops at the first
      other character. */
  lemma SkipSpaceSpec(s: string)
    ensures var r := SkipSpace(s);
      && r == s[|s| - |r|..]
      && (forall i :: 0 <= i < |s| - |r| ==> IsSpace(s[i]))
      && (r == [] || !IsSpace(r[0]))
  {
    SpanSpec(s, IsSpace);
  }

  /** The decimal value of a run of digits, read left to right. */
  function DigitsValue(ds: string): (v: nat)
    requires forall i :: 0 <= i < |ds| ==> IsDigit(ds[i])
  {
    if ds == [] then 0
    else 10 * DigitsValue(ds[..|ds| - 1]) + DigitValue(ds[|ds| - 1])
  }

  function DigitValue(c: char): (d: nat)
    requires IsDigit(c)
    ensures d < 10
  {
    c as int - '0' as int
  }

  /** The run of digits at the start of `s`. */
  function DigitRun(s: string): (ds: string)
    ensures |ds| <= |s| && forall i :: 0 <= i < |ds| ==> IsDigit(ds[i])
  {
    SpanSpec(s, IsDigit);
    s[..Span(s, IsDigit)]
  }

  /** The value of a digit run under an optional minus sign. */
  function Signed(negative: bool, v: int): int
  {
    if negative then -v else v
  }

  /** `%d`: skip white space, an optional sign, then at least one digit; the
      digit run is read as far as it goes. */
  function ScanInt(s: string): (r: Option<Scan<int>>)
    ensures r.Some? ==> |r.value.rest| < |s|
  {
    var t := SkipSpace(s);
    var negative := t != [] && t[0] == '-';
    var u := if t != [] && (t[0] == '-' || t[0] == '+') then t[1..] else t;
    var ds := DigitRun(u);
    if ds == [] then None
    else
      Some(Scan(Signed(negative, DigitsValue(ds)), u[|ds|..]))
  }

  /** `%d` succeeds exactly when, after white space, a digit comes, or a sign
      and then a digit; the digit run is read to its end. */
  lemma ScanIntSpec(s: string)
    ensures var t := SkipSpace(s);
      ScanInt(s).Some? <==> |t| > 0 && (IsDigit(t[0]) || ((t[0] == '-' || t[0] == '+') && |t| > 1 && IsDigit(t[1])))
    ensures var r := ScanInt(s);
      r.Some? ==>
      && |r.value.rest| < |s| && r.value.rest == s[|s| - |r.value.rest|..]
      && (r.value.rest == [] || !IsDigit(r.value.rest[0]))
  {
    var t := SkipSpace(s);
    var u := if t != [] && (t[0] == '-' || t[0] == '+') then t[1..] else t;
    SpanSpec(u, IsDigit);
  }

  /** `%s`: skip white space, then a non-empty run of non-white-space characters. */
  function ScanWord(s: string): (r: Option<Scan<string>>)
    ensures r.Some? ==> r.value.value != [] && |r.value.rest| < |s|
  {
    var t := SkipSpace(s);
    var n := Span(t, IsNonSpace);
    if n == 0 then None else Some(Scan(t[..n], t[n..]))
  }

  /** `%s` succeeds exactly when some non-white-space input is left, and reads
      a maximal run of non-white-space characters. */
  lemma ScanWordSpec(s: string)
    ensures ScanWord(s).Some? <==> SkipSpace(s) != []
    ensures var r := ScanWord(s);
      r.Some? ==> var w := r.value.value;
      && w != []
      && (forall i :: 0 <= i < |w| ==> !IsSpace(w[i]))
      && SkipSpace(s) == w + r.value.rest
      && (r.value.rest == [] || IsSpace(r.value.rest[0]))
  {
    var t := SkipSpace(s);
    SkipSpaceSpec(s);
    SpanSpec(t, IsNonSpace);
    var n := Span(t, IsNonSpace);
    assert t == t[..n] + t[n..];
  }

  /** `%<width>[^\n]`: between 1 and `width` characters other than a newline,
      without skipping white space first. */
  function ScanLine(s: string, width: nat): (r: Option<Scan<string>>)
    requires width > 0
    ensures r.Some? ==> 0 < |r.value.value| <= width && |r.value.rest| < |s|
  {
    var n := Span(s, IsNotNewline);
    var k := if n > width then width else n;
    if k == 0 then None else Some(Scan(s[..k], s[k..]))
  }

  /** The message conversion succeeds exactly when the input does not start
      with a newline; it reads up to `width` characters and stops early only at
      a newline or at the end. */
  lemma ScanLineSpec(s: string, width: nat)
    requires width > 0
    ensures ScanLine(s, width).Some? <==> s != [] && s[0] != '\n'
    ensures var r := ScanLine(s, width);
      r.Some? ==> var m := r.value.value;
      && 0 < |m| <= width
      && (forall i :: 0 <= i < |m| ==> m[i] != '\n')
      && s == m + r.value.rest
      && (|m| < width ==> r.value.rest == [] || r.value.rest[0] == '\n')
  {
    SpanSpec(s, IsNotNewline);
    var n := Span(s, IsNotNewline);
    var k := if n > width then width else n;
    assert s == s[..k] + s[k..];
  }

  /** `%*[^0123456789]`: a non-empty run of non-digits, read and discarded.
      Returns the unread rest. */
  function SkipNonDigits(s: string): (r: Option<string>)
    ensures r.Some? ==> |r.value| < |s|
  {
    var n := Span(s, IsNonDigit);
    if n == 0 then None else Some(s[n..])
  }

  /** Discarding non-digits succeeds exactly when the input starts with a
      non-digit, and drops the whole run up to the first digit. */
  lemma SkipNonDigitsSpec(s: string)
    ensures SkipNonDigits(s).Some? <==> s != [] && !IsDigit(s[0])
    ensures var r := SkipNonDigits(s);
      r.Some? ==>
      && |r.value| < |s| && r.value == s[|s| - |r.value|..]
      && (forall i :: 0 <= i < |s| - |r.value| ==> !IsDigit(s[i]))
      && (r.value == [] || IsDigit(r.value[0]))
  {
    SpanSpec(s, IsNonDigit);
  }

  /** The decimal representation of a natural number, most significant digit first. */
  function DecimalString(n: nat): (ds: string)
    ensures ds != [] && forall i :: 0 <= i < |ds| ==> IsDigit(ds[i])
  {
    if n < 10 then [('0' as int + n) as char]
    else DecimalString(n / 10) + [('0' as int + n % 10) as char]
  }

  /** Reading back the decimal representation of `n` gives `n`. */
  lemma {:induction false} DecimalStringValue(n: nat)
    ensures DigitsValue(DecimalString(n)) == n
  {
    var ds := DecimalString(n);
    if n >= 10 {
      DecimalStringValue(n / 10);
      assert ds[..|ds| - 1] == DecimalString(n / 10);
    }
  }

  /** Nothing is skipped in front of a character other than white space. */
  lemma NoSpaceToSkip(s: string)
    requires s == [] || !IsSpace(s[0])
    ensures SkipSpace(s) == s
  {
    assert Span(s, IsSpace) == 0;
  }

  /** `%d` applied to a string that starts with a digit reads its digit run. */
  lemma ScanIntDigitRun(s: string)
    requires s != [] && IsDigit(s[0])
    ensures ScanInt(s) == Some(Scan(DigitsValue(DigitRun(s)), s[|DigitRun(s)|..]))
  {
    NoSpaceToSkip(s);
    assert DigitRun(s) != [] by { assert Span(s, IsDigit) > 0; }
  }

  /** `%d` applied to a run of digits followed by a non-digit reads exactly
      that run. */
  lemma ScanIntDigits(ds: string, rest: string)
    requires ds != [] && forall i :: 0 <= i < |ds| ==> IsDigit(ds[i])
    requires rest == [] || !IsDigit(rest[0])
    ensures ScanInt(ds + rest) == Some(Scan(DigitsValue(ds), rest))
  {
    var s := ds + rest;
    assert s[0] == ds[0];
    ScanIntDigitRun(s);
    SpanConcat(ds, rest, IsDigit);
    assert DigitRun(s) == ds;
    assert s[|ds|..] == rest;
  }

  /** `%d` applied to a decimal representation followed by a non-digit reads
      exactly that number. */
  lemma ScanIntDecimal(n: nat, rest: string)
    requires rest == [] || !IsDigit(rest[0])
    ensures ScanInt(DecimalString(n) + rest) == Some(Scan(n, rest))
  {
    ScanIntDigits(DecimalString(n), rest);
    DecimalStringValue(n);
  }

  /** `%d` skips leading white space before anything else. */
  lemma ScanIntAfterSpace(ws: string, t: string)
    requires forall i :: 0 <= i < |ws| ==> IsSpace(ws[i])
    requires t == [] || !IsSpace(t[0])
    ensures ScanInt(ws + t) == ScanInt(t)
  {
    SkipSpaceExact(ws, t);
    NoSpaceToSkip(t);
  }

  /** `%d` applied to a sign and a string that starts with a digit reads the
      signed value of its digit run. */
  lemma ScanIntSignRun(sign: char, u: string)
    requires sign == '+' || sign == '-'
    requires u != [] && IsDigit(u[0])
    ensures ScanInt([sign] + u) == Some(Scan(Signed(sign == '-', DigitsValue(DigitRun(u))), u[|DigitRun(u)|..]))
  {
    NoSpaceToSkip([sign] + u);
    assert ([sign] + u)[1..] == u;
    assert DigitRun(u) != [] by { assert Span(u, IsDigit) > 0; }
  }

  /** `%d` applied to a sign, a run of digits and a non-digit reads the signed
      value of the run. */
  lemma ScanIntSignedDigits(sign: char, ds: string, rest: string)
    requires sign == '+' || sign == '-'
    requires ds != [] && forall i :: 0 <= i < |ds| ==> IsDigit(ds[i])
    requires rest == [] || !IsDigit(rest[0])
    ensures ScanInt([sign] + (ds + rest)) == Some(Scan(Signed(sign == '-', DigitsValue(ds)), rest))
  {
    var u := ds + rest;
    assert DigitRun(u) == ds && u[|ds|..] == rest by {
      SpanConcat(ds, rest, IsDigit);
    }
    assert u != [] && IsDigit(u[0]) by {
      assert u[0] == ds[0];
    }
    ScanIntSignRun(sign, u);
  }

  /** `%d` applied to white space, an optional sign and a decimal
      representation followed by a non-digit reads exactly that signed number. */
  lemma ScanIntSigned(ws: string, sign: string, n: nat, rest: string)
    requires forall i :: 0 <= i < |ws| ==> IsSpace(ws[i])
    requires sign == "" || sign == "+" || sign == "-"
    requires rest == [] || !IsDigit(rest[0])
    ensures ScanInt(ws + (sign + (DecimalString(n) + rest)))
      == Some(Scan(if sign == "-" then -(n as int) else n as int, rest))
  {
    var ds := DecimalString(n);
    var t := sign + (ds + rest);
    assert (ds + rest)[0] == ds[0];
    assert t[0] == (if sign == "" then ds[0] else sign[0]);
    ScanIntAfterSpace(ws, t);
    DecimalStringValue(n);
    if sign == "" {
      assert t == ds + rest;
      ScanIntDigits(ds, rest);
    } else {
      assert t == [sign[0]] + (ds + rest);
      ScanIntSignedDigits(sign[0], ds, rest);
    }
  }

  /** `%s` applied to a word followed by white space (or by nothing) reads
      exactly that word. */
  lemma ScanWordExact(w: string, rest: string)
    requires w != [] && forall i :: 0 <= i < |w| ==> !IsSpace(w[i])
    requires rest == [] || IsSpace(rest[0])
    ensures ScanWord(w + rest) == Some(Scan(w, rest))
  {
    assert (w + rest)[0] == w[0];
    NoSpaceToSkip(w + rest);
    SpanConcat(w, rest, IsNonSpace);
    assert (w + rest)[..|w|] == w && (w + rest)[|w|..] == rest;
  }

  /** Skipping white space in front of a string that starts with something else. */
  lemma SkipSpaceExact(spaces: string, s: string)
    requires forall i :: 0 <= i < |spaces| ==> IsSpace(spaces[i])
    requires s == [] || !IsSpace(s[0])
    ensures SkipSpace(spaces + s) == s
  {
    SpanConcat(spaces, s, IsSpace);
  }
}
