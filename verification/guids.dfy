/** `System.Guid` as the 128-bit number its 32 hex digits spell, with
    `Guid.TryParse` and `ToString()`. */
module Guids {
  import opened Prelude
  import opened Text

  function Pow16(w: nat): (r: nat)
    ensures r >= 1
  {
    if w == 0 then 1 else 16 * Pow16(w - 1)
  }

  const GuidBound: nat := Pow16(32)

  type Guid = v: nat | v < GuidBound witness 0

  /** `Guid.Empty`. */
  const Empty: Guid := 0

  predicate IsHex(c: char) {
    '0' <= c <= '9' || 'a' <= c <= 'f' || 'A' <= c <= 'F'
  }

  predicate AllHex(s: string) {
    forall i :: 0 <= i < |s| ==> IsHex(s[i])
  }

  function HexDigitValue(c: char): (d: nat)
    requires IsHex(c)
    ensures d < 16
  {
    if '0' <= c <= '9' then c as int - '0' as int
    else if 'a' <= c <= 'f' then c as int - 'a' as int + 10
    else c as int - 'A' as int + 10
  }

  /** The lower-case hex digit of `d`. */
  function HexChar(d: nat): (c: char)
    requires d < 16
    ensures IsHex(c) && HexDigitValue(c) == d
  {
    if d < 10 then '0' + d as char else 'a' + (d - 10) as char
  }

  /** The value of a run of hex digits, most significant first. */
  function HexValue(s: string): (v: nat)
    requires AllHex(s)
    ensures v < Pow16(|s|)
  {
    if s == [] then 0 else HexValue(s[..|s| - 1]) * 16 + HexDigitValue(s[|s| - 1])
  }

  /** `v` as exactly `w` lower-case hex digits, zero-padded. */
  function HexDigits(v: nat, w: nat): (s: string)
    requires v < Pow16(w)
    ensures |s| == w && AllHex(s)
  {
    if w == 0 then [] else HexDigits(v / 16, w - 1) + [HexChar(v % 16)]
  }

  lemma {:induction false} HexRoundTrip(v: nat, w: nat)
    requires v < Pow16(w)
    ensures HexValue(HexDigits(v, w)) == v
  {
    if w > 0 {
      HexRoundTrip(v / 16, w - 1);
      var s := HexDigits(v, w);
      assert s[..|s| - 1] == HexDigits(v / 16, w - 1);
    }
  }

  /** The 36-character `8-4-4-4-12` layout with hyphens between groups. */
  predicate HyphenShaped(t: string) {
    |t| == 36 && t[8] == '-' && t[13] == '-' && t[18] == '-' && t[23] == '-'
  }

  /** The 32 digits of a hyphen-shaped text, hyphens removed. */
  function Unhyphen(t: string): (r: string)
    requires HyphenShaped(t)
    ensures |r| == 32
  {
    t[0..8] + t[9..13] + t[14..18] + t[19..23] + t[24..36]
  }

  /** Format `D` (also inside `{}` for `B` and `()` for `P`). */
  function ParseD(t: string): Option<Guid> {
    if HyphenShaped(t) && AllHex(Unhyphen(t)) then Some(HexValue(Unhyphen(t)) as Guid) else None
  }

  /** `Guid.TryParse`: the input is trimmed of white space, then read in format `N`
      (32 digits), `D`, `B` or `P`. */
  function ParseGuid(s: string): (r: Option<Guid>)
    ensures r.Some? ==> |Trim(s)| in {32, 36, 38}
  {
    var t := Trim(s);
    if |t| == 32 then (if AllHex(t) then Some(HexValue(t) as Guid) else None)
    else if |t| == 36 then ParseD(t)
    else if |t| == 38 && ((t[0] == '{' && t[37] == '}') || (t[0] == '(' && t[37] == ')')) then ParseD(t[1..37])
    else None
  }

  /** `Guid.ToString()`: format `D`, lower case. */
  function FormatGuid(g: Guid): (s: string)
    ensures HyphenShaped(s)
    ensures !IsWhite(s[0]) && !IsWhite(s[|s| - 1])
  {
    var h := HexDigits(g, 32);
    h[0..8] + "-" + h[8..12] + "-" + h[12..16] + "-" + h[16..20] + "-" + h[20..32]
  }

  /** Upper-case hex digits read as the same value. */
  lemma {:induction false} HexValueUpper(s: string)
    requires AllHex(s)
    ensures AllHex(ToUpper(s)) && HexValue(ToUpper(s)) == HexValue(s)
    decreases |s|
  {
    if s != [] {
      var n := |s| - 1;
      HexValueUpper(s[..n]);
      ToUpperSlice(s, 0, n);
      assert ToUpper(s)[..n] == ToUpper(s[..n]);
      var c := s[n];
      assert ToUpper(s)[n] == UpperChar(c);
      assert IsHex(UpperChar(c)) && HexDigitValue(UpperChar(c)) == HexDigitValue(c);
    }
  }

  /** Format `D` reads back the Guid it was printed from. */
  lemma ParseDFormatted(g: Guid)
    ensures ParseD(FormatGuid(g)) == Some(g)
  {
    UnhyphenFormatted(g);
    HexRoundTrip(g, 32);
  }

  /** The digits of a printed Guid are its 32 hex digits. */
  lemma UnhyphenFormatted(g: Guid)
    ensures Unhyphen(FormatGuid(g)) == HexDigits(g, 32)
  {
    var h := HexDigits(g, 32);
    UnhyphenJoin(h[0..8], h[8..12], h[12..16], h[16..20], h[20..32]);
    assert h == h[0..8] + h[8..12] + h[12..16] + h[16..20] + h[20..32];
  }

  /** Removing the hyphens from five groups joined by hyphens gives the
      groups joined directly. */
  lemma UnhyphenJoin(p1: string, p2: string, p3: string, p4: string, p5: string)
    requires |p1| == 8 && |p2| == 4 && |p3| == 4 && |p4| == 4 && |p5| == 12
    ensures HyphenShaped(p1 + "-" + p2 + "-" + p3 + "-" + p4 + "-" + p5)
    ensures Unhyphen(p1 + "-" + p2 + "-" + p3 + "-" + p4 + "-" + p5) == p1 + p2 + p3 + p4 + p5
  {
    var t := p1 + "-" + p2 + "-" + p3 + "-" + p4 + "-" + p5;
    assert t[0..8] == p1;
    assert t[9..13] == p2;
    assert t[14..18] == p3;
    assert t[19..23] == p4;
    assert t[24..36] == p5;
  }

  /** A text with no white space at either end is its own trim. */
  lemma TrimUnpadded(s: string)
    requires s != [] && !IsWhite(s[0]) && !IsWhite(s[|s| - 1])
    ensures Trim(s) == s
  {
    assert TrimStart(s) == s;
    assert s[..|s|] == s;
  }

  /** Reading back the text of a Guid gives the same Guid, so distinct
      Guids have distinct texts. */
  lemma FormatParseGuid(g: Guid)
    ensures ParseGuid(FormatGuid(g)) == Some(g)
  {
    ParseDFormatted(g);
    TrimUnpadded(FormatGuid(g));
  }

  /** Format `N`: the 32 bare digits. */
  lemma ParseGuidDigits(g: Guid)
    ensures ParseGuid(HexDigits(g, 32)) == Some(g)
  {
    var h := HexDigits(g, 32);
    assert IsHex(h[0]) && IsHex(h[31]);
    TrimUnpadded(h);
    HexRoundTrip(g, 32);
  }

  /** Formats `B` and `P`: the `D` text in braces or parentheses. */
  lemma ParseGuidEnclosed(g: Guid, open: char, close: char)
    requires (open == '{' && close == '}') || (open == '(' && close == ')')
    ensures ParseGuid([open] + FormatGuid(g) + [close]) == Some(g)
  {
    var f := FormatGuid(g);
    ParseDFormatted(g);
    var t := [open] + f + [close];
    TrimUnpadded(t);
    assert |t| == 38 && t[0] == open && t[37] == close;
    assert t[1..37] == f;
  }

  /** The digits of a hyphen-shaped text in upper case are its digits in
      upper case. */
  lemma UnhyphenUpper(f: string)
    requires HyphenShaped(f)
    ensures HyphenShaped(ToUpper(f)) && Unhyphen(ToUpper(f)) == ToUpper(Unhyphen(f))
  {
    var u := ToUpper(f);
    ToUpperSlice(f, 0, 8);
    ToUpperSlice(f, 9, 13);
    ToUpperSlice(f, 14, 18);
    ToUpperSlice(f, 19, 23);
    ToUpperSlice(f, 24, 36);
    var p0, p1, p2, p3, p4 := f[0..8], f[9..13], f[14..18], f[19..23], f[24..36];
    ToUpperConcat(p0, p1);
    ToUpperConcat(p0 + p1, p2);
    ToUpperConcat(p0 + p1 + p2, p3);
    ToUpperConcat(p0 + p1 + p2 + p3, p4);
  }

  /** The `D` text with upper-case digits. */
  lemma ParseGuidUpper(g: Guid)
    ensures ParseGuid(ToUpper(FormatGuid(g))) == Some(g)
  {
    var f := FormatGuid(g);
    var h := HexDigits(g, 32);
    UnhyphenFormatted(g);
    UnhyphenUpper(f);
    HexValueUpper(h);
    HexRoundTrip(g, 32);
    var u := ToUpper(f);
    assert !IsWhite(u[0]) && !IsWhite(u[35]);
    TrimUnpadded(u);
  }

  /** The other forms `Guid.TryParse` accepts denote the same Guid: the 32
      bare digits (`N`), the `D` text in braces (`B`) or parentheses (`P`),
      and upper-case digits. */
  lemma ParseGuidForms(g: Guid)
    ensures ParseGuid(HexDigits(g, 32)) == Some(g)
    ensures ParseGuid("{" + FormatGuid(g) + "}") == Some(g)
    ensures ParseGuid("(" + FormatGuid(g) + ")") == Some(g)
    ensures ParseGuid(ToUpper(FormatGuid(g))) == Some(g)
  {
    ParseGuidDigits(g);
    ParseGuidEnclosed(g, '{', '}');
    assert "{" + FormatGuid(g) + "}" == ['{'] + FormatGuid(g) + ['}'];
    ParseGuidEnclosed(g, '(', ')');
    assert "(" + FormatGuid(g) + ")" == ['('] + FormatGuid(g) + [')'];
    ParseGuidUpper(g);
  }

  lemma FormatGuidInjective(a: Guid, b: Guid)
    requires FormatGuid(a) == FormatGuid(b)
    ensures a == b
  {
    FormatParseGuid(a);
    FormatParseGuid(b);
  }
}
