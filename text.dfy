/**
 * String helpers with the semantics of the runtimes the repository is written for:
 * JavaScript's `includes`, `join`, `parseInt` and number rendering, and Python's
 * `str.replace`, `str.endswith` and `str.lower` as far as the modelled code relies on them.
 */
module Text {

  predicate StartsWith(s: string, prefix: string) {
    |prefix| <= |s| && s[..|prefix|] == prefix
  }

  /** Python's `str.endswith`. */
  predicate EndsWith(s: string, suffix: string) {
    |suffix| <= |s| && s[|s| - |suffix|..] == suffix
  }

  /** `pat` occurs somewhere in `s`. */
  ghost predicate Occurs(s: string, pat: string) {
    exists i :: OccursAt(s, pat, i)
  }

  /** `pat` occurs in `s` starting at offset `i`. */
  ghost predicate OccursAt(s: string, pat: string, i: int) {
    0 <= i && i + |pat| <= |s| && s[i..i + |pat|] == pat
  }

  /** JavaScript's `String.prototype.includes`: a left-to-right scan for `pat`. */
  function Includes(s: string, pat: string): bool
    decreases |s|
  {
    if StartsWith(s, pat) then true
    else if |s| == 0 then false
    else Includes(s[1..], pat)
  }

  lemma OccursShift(c: char, s: string, pat: string, i: int)
    requires OccursAt(s, pat, i)
    ensures OccursAt([c] + s, pat, i + 1)
  {
    assert ([c] + s)[i + 1..i + 1 + |pat|] == s[i..i + |pat|];
  }

  lemma OccursUnshift(s: string, pat: string, i: int)
    requires |s| > 0 && i > 0 && OccursAt(s, pat, i)
    ensures OccursAt(s[1..], pat, i - 1)
  {
    assert s[1..][i - 1..i - 1 + |pat|] == s[i..i + |pat|];
  }

  /** The scan agrees with the reference definition: some offset holds `pat`. */
  lemma {:induction false} IncludesIff(s: string, pat: string)
    ensures Includes(s, pat) <==> exists i :: OccursAt(s, pat, i)
    decreases |s|
  {
    if StartsWith(s, pat) {
      assert OccursAt(s, pat, 0);
    } else if |s| == 0 {
    } else {
      IncludesIff(s[1..], pat);
      if Includes(s[1..], pat) {
        var i :| OccursAt(s[1..], pat, i);
        assert s == [s[0]] + s[1..];
        OccursShift(s[0], s[1..], pat, i);
      }
      if exists i :: OccursAt(s, pat, i) {
        var i :| OccursAt(s, pat, i);
        if i > 0 {
          OccursUnshift(s, pat, i);
        }
      }
    }
  }

  /** An occurrence of `pat` inside a piece of `s` is an occurrence in `s`. */
  lemma OccursWithin(s: string, piece: string, pat: string, k: int, j: int)
    requires OccursAt(s, piece, k) && OccursAt(piece, pat, j)
    ensures OccursAt(s, pat, k + j)
  {
    var sub := s[k..k + |piece|];
    var lhs := s[k + j..k + j + |pat|];
    var rhs := sub[j..j + |pat|];
    forall t | 0 <= t < |pat|
      ensures lhs[t] == rhs[t]
    {
      assert lhs[t] == s[k + j + t] && rhs[t] == sub[j + t];
    }
    assert lhs == rhs;
  }

  /** Whatever is included in a substring of `s` is included in `s`. */
  lemma IncludesWithin(s: string, piece: string, pat: string, k: int)
    requires OccursAt(s, piece, k) && Includes(piece, pat)
    ensures Includes(s, pat)
  {
    IncludesIff(piece, pat);
    var j :| OccursAt(piece, pat, j);
    OccursWithin(s, piece, pat, k, j);
    IncludesIff(s, pat);
  }

  /** JavaScript's `Array.prototype.join(sep)`. */
  function Join(parts: seq<string>, sep: string): string
    decreases |parts|
  {
    if |parts| == 0 then ""
    else if |parts| == 1 then parts[0]
    else parts[0] + sep + Join(parts[1..], sep)
  }

  lemma JoinStartsWithFirst(parts: seq<string>, sep: string)
    requires |parts| > 0
    ensures OccursAt(Join(parts, sep), parts[0], 0)
  {
  }

  /**
   * Two adjacent parts appear in the joined text with exactly one separator between them,
   * so a marker split across two neighbouring parts is still found in the joined text.
   */
  lemma {:induction false} JoinAdjacent(parts: seq<string>, sep: string, i: nat)
    requires i + 1 < |parts|
    ensures Occurs(Join(parts, sep), parts[i] + sep + parts[i + 1])
    decreases |parts|
  {
    var tail := parts[1..];
    var j := Join(tail, sep);
    assert Join(parts, sep) == parts[0] + sep + j;
    if i == 0 {
      JoinStartsWithFirst(tail, sep);
      var pat := parts[0] + sep + parts[1];
      assert j[..|parts[1]|] == parts[1];
      assert (parts[0] + sep + j)[..|pat|] == parts[0] + sep + j[..|parts[1]|];
      assert OccursAt(Join(parts, sep), pat, 0);
    } else {
      JoinAdjacent(tail, sep, i - 1);
      var pat := parts[i] + sep + parts[i + 1];
      assert pat == tail[i - 1] + sep + tail[i];
      var k :| OccursAt(j, pat, k);
      var pre := parts[0] + sep;
      assert Join(parts, sep)[|pre| + k..|pre| + k + |pat|] == j[k..k + |pat|];
      assert OccursAt(Join(parts, sep), pat, |pre| + k);
    }
  }

  /** Every part appears in the joined text. */
  lemma {:induction false} JoinContainsPart(parts: seq<string>, sep: string, i: nat)
    requires i < |parts|
    ensures Occurs(Join(parts, sep), parts[i])
    decreases |parts|
  {
    if |parts| == 1 {
      assert OccursAt(Join(parts, sep), parts[i], 0);
    } else if i == 0 {
      JoinStartsWithFirst(parts, sep);
    } else {
      var tail := parts[1..];
      JoinContainsPart(tail, sep, i - 1);
      var k :| OccursAt(Join(tail, sep), tail[i - 1], k);
      var pre := parts[0] + sep;
      assert Join(parts, sep) == pre + Join(tail, sep);
      assert Join(parts, sep)[|pre| + k..|pre| + k + |parts[i]|] == Join(tail, sep)[k..k + |parts[i]|];
      assert OccursAt(Join(parts, sep), parts[i], |pre| + k);
    }
  }

  // ---------------------------------------------------------------------------
  // Decimal rendering of naturals and JavaScript's parseInt

  predicate IsDecimalDigit(c: char) {
    '0' <= c <= '9'
  }

  predicate IsHexDigit(c: char) {
    IsDecimalDigit(c) || 'a' <= c <= 'f' || 'A' <= c <= 'F'
  }

  function DigitChar(d: nat): (c: char)
    requires d < 10
    ensures IsDecimalDigit(c)
  {
    (('0' as int) + d) as char
  }

  function CharValue(c: char): nat
    requires IsHexDigit(c)
  {
    if IsDecimalDigit(c) then c as int - '0' as int
    else if 'a' <= c <= 'f' then c as int - 'a' as int + 10
    else c as int - 'A' as int + 10
  }

  /** Template-literal / React rendering of a non-negative integer (`${n}`). */
  function NatToString(n: nat): (s: string)
    ensures |s| > 0
    ensures forall i :: 0 <= i < |s| ==> IsDecimalDigit(s[i])
  {
    if n < 10 then [DigitChar(n)] else NatToString(n / 10) + [DigitChar(n % 10)]
  }

  /** Value of a run of digits in the given radix (10 or 16), most significant first. */
  function DigitsValue(s: string, radix: nat): nat
    requires forall i :: 0 <= i < |s| ==> IsHexDigit(s[i])
  {
    if |s| == 0 then 0 else DigitsValue(s[..|s| - 1], radix) * radix + CharValue(s[|s| - 1])
  }

  lemma {:induction false} NatToStringValue(n: nat)
    ensures DigitsValue(NatToString(n), 10) == n
  {
    var s := NatToString(n);
    if n >= 10 {
      NatToStringValue(n / 10);
      assert s[..|s| - 1] == NatToString(n / 10);
    }
  }

  /** Length of the longest prefix of `s` made of digits of the radix (hex when `hex`). */
  function DigitRun(s: string, hex: bool): (n: nat)
    ensures n <= |s|
    ensures forall i :: 0 <= i < n ==> (if hex then IsHexDigit(s[i]) else IsDecimalDigit(s[i]))
    ensures n < |s| ==> !(if hex then IsHexDigit(s[n]) else IsDecimalDigit(s[n]))
  {
    if |s| == 0 || !(if hex then IsHexDigit(s[0]) else IsDecimalDigit(s[0])) then 0
    else 1 + DigitRun(s[1..], hex)
  }

  /** ECMAScript StrWhiteSpaceChar: WhiteSpace and LineTerminator code points. */
  predicate IsJsWhitespace(c: char) {
    c == ' ' || c == '\t' || c == '\n' || c == '\r' || c == '\U{000B}' || c == '\U{000C}'
    || c == '\U{00A0}' || c == '\U{FEFF}' || c == '\U{1680}' || ('\U{2000}' <= c <= '\U{200A}')
    || c == '\U{2028}' || c == '\U{2029}' || c == '\U{202F}' || c == '\U{205F}' || c == '\U{3000}'
  }

  function TrimStart(s: string): (t: string)
    ensures |t| <= |s| && t == s[|s| - |t|..]
    ensures |t| > 0 ==> !IsJsWhitespace(t[0])
  {
    if |s| > 0 && IsJsWhitespace(s[0]) then TrimStart(s[1..]) else s
  }

  /** A JavaScript number as far as integer parsing goes: NaN or an integer. */
  datatype JsNumber = NaN | Num(value: int)

  /**
   * `parseInt(s)` with no radix: leading white space is skipped, then an optional sign,
   * then the digits are read by ParseDigits.
   */
  function ParseInt(s: string): JsNumber {
    var t := TrimStart(s);
    if |t| > 0 && t[0] == '-' then
      (match ParseDigits(t[1..]) case NaN => NaN case Num(v) => Num(-v))
    else if |t| > 0 && t[0] == '+' then ParseDigits(t[1..])
    else ParseDigits(t)
  }

  /**
   * The unsigned part of parseInt: a "0x"/"0X" prefix selects radix 16, otherwise radix 10;
   * the longest digit prefix is converted and the rest ignored; no digits gives NaN.
   */
  function ParseDigits(u: string): JsNumber {
    if HasHexPrefix(u) then
      var h := DigitRun(u[2..], true);
      if h == 0 then NaN else Num(DigitsValue(u[2..][..h], 16))
    else
      var d := DigitRun(u, false);
      if d == 0 then NaN else Num(DigitsValue(u[..d], 10))
  }

  lemma ParseDigitsNatToString(n: nat)
    ensures ParseDigits(NatToString(n)) == Num(n)
  {
    var s := NatToString(n);
    assert !HasHexPrefix(s);
    var d := DigitRun(s, false);
    assert d == |s|;
    assert s[..d] == s;
    NatToStringValue(n);
  }

  /** "0x" or "0X" at the start. */
  predicate HasHexPrefix(u: string) {
    |u| >= 2 && u[0] == '0' && (u[1] == 'x' || u[1] == 'X')
  }

  /** Rendering a natural and parsing it back gives the same number. */
  lemma ParseIntNatToString(n: nat)
    ensures ParseInt(NatToString(n)) == Num(n)
  {
    var s := NatToString(n);
    assert !IsJsWhitespace(s[0]) && s[0] != '-' && s[0] != '+';
    assert TrimStart(s) == s;
    ParseDigitsNatToString(n);
  }

  /** A digit run stops where the digits of `s` end. */
  lemma {:induction false} DigitRunPrefix(s: string, rest: string)
    requires forall i :: 0 <= i < |s| ==> IsDecimalDigit(s[i])
    requires |rest| == 0 || !IsDecimalDigit(rest[0])
    ensures DigitRun(s + rest, false) == |s|
    decreases |s|
  {
    if |s| == 0 {
      assert s + rest == rest;
    } else {
      assert (s + rest)[1..] == s[1..] + rest;
      DigitRunPrefix(s[1..], rest);
    }
  }

  /** Text that starts with a digit is parsed without trimming or a sign. */
  lemma ParseIntOfDigitStart(u: string)
    requires |u| > 0 && IsDecimalDigit(u[0])
    ensures ParseInt(u) == ParseDigits(u)
  {
    assert !IsJsWhitespace(u[0]);
    assert TrimStart(u) == u;
  }

  /** A decimal digit run of length `d` at the front is what ParseDigits converts. */
  lemma ParseDigitsDecimal(u: string, d: nat)
    requires !HasHexPrefix(u) && d > 0 && DigitRun(u, false) == d
    ensures ParseDigits(u) == Num(DigitsValue(u[..d], 10))
  {
  }

  /** parseInt reads a rendered natural back from the front of a longer text. */
  lemma ParseIntNatToStringPrefix(n: nat, rest: string)
    requires |rest| == 0 || (!IsDecimalDigit(rest[0]) && rest[0] != 'x' && rest[0] != 'X')
    ensures ParseInt(NatToString(n) + rest) == Num(n)
  {
    var d := NatToString(n);
    var u := d + rest;
    assert u[0] == d[0];
    ParseIntOfDigitStart(u);
    assert !HasHexPrefix(u) by {
      if |d| == 1 {
        assert |rest| > 0 ==> u[1] == rest[0];
      } else {
        assert u[1] == d[1];
      }
    }
    DigitRunPrefix(d, rest);
    assert u[..|d|] == d;
    ParseDigitsDecimal(u, |d|);
    NatToStringValue(n);
  }

  // ---------------------------------------------------------------------------
  // Python string helpers

  /** `s.replace("", rep)`: `rep` is inserted before every character and at the end. */
  function ReplaceEmpty(s: string, rep: string): string {
    if |s| == 0 then rep else rep + [s[0]] + ReplaceEmpty(s[1..], rep)
  }

  /** Python's `s.replace(target, rep)`: every non-overlapping occurrence, left to right. */
  function PyReplace(s: string, target: string, rep: string): string
    decreases |s|
  {
    if |target| == 0 then ReplaceEmpty(s, rep)
    else if |s| == 0 then ""
    else if StartsWith(s, target) then rep + PyReplace(s[|target|..], target, rep)
    else [s[0]] + PyReplace(s[1..], target, rep)
  }

  /** `s.replace("", "")` is the identity. */
  lemma {:induction false} ReplaceEmptyByEmpty(s: string)
    ensures PyReplace(s, "", "") == s
  {
    if |s| > 0 {
      ReplaceEmptyByEmpty(s[1..]);
      assert s == [s[0]] + s[1..];
    }
  }

  /**
   * Lower-casing of ASCII letters. `str.lower()` also lower-cases non-ASCII letters,
   * but no non-ASCII character lower-cases into one of ".pdf", so comparing with
   * ".pdf" gives the same answer either way.
   */
  function AsciiLower(s: string): (t: string)
    ensures |t| == |s|
    ensures forall i :: 0 <= i < |s| ==> t[i] == (if 'A' <= s[i] <= 'Z' then (s[i] as int + 32) as char else s[i])
  {
    if |s| == 0 then "" else [if 'A' <= s[0] <= 'Z' then (s[0] as int + 32) as char else s[0]] + AsciiLower(s[1..])
  }
}
