/** String helpers the auth module borrows from .NET: case mapping,
    white space, `string.IsNullOrEmpty` and `string.Split`. */
module Text {
  import opened Prelude

  /** Case mapping is modelled on the ASCII letters only. */
  function LowerChar(c: char): char {
    if 'A' <= c <= 'Z' then (c as int + 32) as char else c
  }

  function UpperChar(c: char): char {
    if 'a' <= c <= 'z' then (c as int - 32) as char else c
  }

  function ToLower(s: string): (r: string)
    ensures |r| == |s|
    ensures forall i :: 0 <= i < |s| ==> r[i] == LowerChar(s[i])
  {
    if s == [] then [] else [LowerChar(s[0])] + ToLower(s[1..])
  }

  function ToUpper(s: string): (r: string)
    ensures |r| == |s|
    ensures forall i :: 0 <= i < |s| ==> r[i] == UpperChar(s[i])
  {
    if s == [] then [] else [UpperChar(s[0])] + ToUpper(s[1..])
  }

  lemma ToUpperSlice(t: string, i: int, j: int)
    requires 0 <= i <= j <= |t|
    ensures ToUpper(t)[i..j] == ToUpper(t[i..j])
  {
  }

  lemma ToUpperConcat(x: string, y: string)
    ensures ToUpper(x + y) == ToUpper(x) + ToUpper(y)
  {
    assert forall i :: 0 <= i < |x + y| ==> ToUpper(x + y)[i] == (ToUpper(x) + ToUpper(y))[i];
  }

  /** Two strings are equal up to the case of their ASCII letters. */
  predicate EqualsIgnoreCase(a: string, b: string) {
    |a| == |b| && forall i :: 0 <= i < |a| ==> LowerChar(a[i]) == LowerChar(b[i])
  }

  /** The white space that `NumberStyles.Integer` skips: U+0009 to U+000D
      and the space. `Guid.TryParse` trims every `char.IsWhiteSpace`
      character, a wider set; its model trims only these. */
  predicate IsWhite(c: char) {
    c == ' ' || '\t' <= c <= '\r'
  }

  /** The number of white-space characters `s` starts with. */
  function LeadingWhite(s: string): (k: nat)
    ensures k <= |s|
    ensures forall i :: 0 <= i < k ==> IsWhite(s[i])
    ensures k == |s| || !IsWhite(s[k])
  {
    if s != [] && IsWhite(s[0]) then 1 + LeadingWhite(s[1..]) else 0
  }

  /** The number of white-space characters `s` ends with. */
  function TrailingWhite(s: string): (k: nat)
    ensures k <= |s|
    ensures forall i :: |s| - k <= i < |s| ==> IsWhite(s[i])
    ensures k == |s| || !IsWhite(s[|s| - k - 1])
  {
    if s != [] && IsWhite(s[|s| - 1]) then 1 + TrailingWhite(s[..|s| - 1]) else 0
  }

  predicate AllWhite(s: string) {
    forall i :: 0 <= i < |s| ==> IsWhite(s[i])
  }

  /** White space before a text that does not start with white space is
      exactly what `TrimStart` removes. */
  lemma {:induction false} LeadingWhitePrefix(a: string, w: string)
    requires AllWhite(a) && (w == [] || !IsWhite(w[0]))
    ensures LeadingWhite(a + w) == |a|
    decreases |a|
  {
    if a == [] {
      assert a + w == w;
    } else {
      assert (a + w)[1..] == a[1..] + w;
      LeadingWhitePrefix(a[1..], w);
    }
  }

  /** White space after a text that does not end with white space is
      exactly what `TrimEnd` removes. */
  lemma {:induction false} TrailingWhiteSuffix(y: string, b: string)
    requires AllWhite(b) && (y == [] || !IsWhite(y[|y| - 1]))
    ensures TrailingWhite(y + b) == |b|
    decreases |b|
  {
    if b == [] {
      assert y + b == y;
    } else {
      assert (y + b)[..|y + b| - 1] == y + b[..|b| - 1];
      TrailingWhiteSuffix(y, b[..|b| - 1]);
    }
  }

  function TrimStart(s: string): string {
    s[LeadingWhite(s)..]
  }

  function TrimEnd(s: string): string {
    s[..|s| - TrailingWhite(s)]
  }

  lemma TrimStartPrefix(a: string, u: string)
    requires AllWhite(a) && (u == [] || !IsWhite(u[0]))
    ensures TrimStart(a + u) == u
  {
    LeadingWhitePrefix(a, u);
    assert (a + u)[|a|..] == u;
  }

  lemma TrimEndSuffix(w: string, b: string)
    requires AllWhite(b) && (w == [] || !IsWhite(w[|w| - 1]))
    ensures TrimEnd(w + b) == w
  {
    TrailingWhiteSuffix(w, b);
    assert (w + b)[..|w|] == w;
  }

  /** Any text is its leading white space followed by its `TrimStart`. */
  lemma SplitLeading(s: string) returns (a: string, u: string)
    ensures s == a + u && AllWhite(a) && u == TrimStart(s)
  {
    var k := LeadingWhite(s);
    a, u := s[..k], s[k..];
    assert forall i :: 0 <= i < |a| ==> a[i] == s[i];
  }

  /** Any text is its `TrimEnd` followed by its trailing white space. */
  lemma SplitTrailing(x: string) returns (w: string, b: string)
    ensures x == w + b && AllWhite(b) && w == TrimEnd(x)
  {
    var m := TrailingWhite(x);
    w, b := x[..|x| - m], x[|x| - m..];
    assert forall i :: 0 <= i < |b| ==> b[i] == x[|x| - m + i];
  }

  function Trim(s: string): string {
    TrimEnd(TrimStart(s))
  }

  /** `string.IsNullOrEmpty`. */
  predicate IsNullOrEmpty(s: Option<string>) {
    s.None? || s.value == ""
  }

  /** `s.Split(sep)` with no options: every segment, empty ones included. */
  function Split(s: string, sep: char): (r: seq<string>)
    ensures |r| >= 1
    decreases |s|
  {
    if s == [] then [""]
    else
      var rest := Split(s[1..], sep);
      if s[0] == sep then [""] + rest
      else [[s[0]] + rest[0]] + rest[1..]
  }

  /** The segments joined back with the separator. */
  function Join(parts: seq<string>, sep: char): string
    requires |parts| >= 1
  {
    if |parts| == 1 then parts[0] else parts[0] + [sep] + Join(parts[1..], sep)
  }

  /** Splitting loses nothing: the segments contain no separator and
      joining them restores the input. */
  lemma {:induction false} SplitJoin(s: string, sep: char)
    ensures Join(Split(s, sep), sep) == s
    ensures forall i :: 0 <= i < |Split(s, sep)| ==> sep !in Split(s, sep)[i]
    decreases |s|
  {
    if s != [] {
      SplitJoin(s[1..], sep);
      var rest := Split(s[1..], sep);
      if s[0] != sep {
        var r := Split(s, sep);
        assert r == [[s[0]] + rest[0]] + rest[1..];
        if |rest| == 1 {
          assert Join(r, sep) == [s[0]] + rest[0];
        } else {
          assert r[1..] == rest[1..];
          assert Join(rest, sep) == rest[0] + [sep] + Join(rest[1..], sep);
        }
        assert [s[0]] + Join(rest, sep) == s;
        forall i | 0 <= i < |r| ensures sep !in r[i] {
          if i > 0 { assert r[i] == rest[i]; }
        }
      } else {
        var r := Split(s, sep);
        assert r[1..] == rest;
        assert [s[0]] + Join(rest, sep) == s;
        forall i | 0 <= i < |r| ensures sep !in r[i] {
          if i > 0 { assert r[i] == rest[i - 1]; }
        }
      }
    }
  }

  /** A separator-free prefix becomes the first segment. */
  lemma {:induction false} SplitPrefix(a: string, sep: char, b: string)
    requires sep !in a
    ensures Split(a + [sep] + b, sep) == [a] + Split(b, sep)
    decreases |a|
  {
    if a == [] {
      assert a + [sep] + b == [sep] + b;
      assert ([sep] + b)[1..] == b;
    } else {
      SplitPrefix(a[1..], sep, b);
      assert (a + [sep] + b)[1..] == a[1..] + [sep] + b;
      assert [a[0]] + a[1..] == a;
    }
  }

  lemma {:induction false} SplitNone(a: string, sep: char)
    requires sep !in a
    ensures Split(a, sep) == [a]
    decreases |a|
  {
    if a != [] {
      SplitNone(a[1..], sep);
      assert [a[0]] + a[1..] == a;
    }
  }

  /** A token laid out as `header.payload.signature` splits into its three
      parts, so segment 2 is the signature. */
  lemma ThreeSegments(h: string, p: string, x: string, sep: char)
    requires sep !in h && sep !in p && sep !in x
    ensures Split(h + [sep] + p + [sep] + x, sep) == [h, p, x]
  {
    assert h + [sep] + p + [sep] + x == h + [sep] + (p + [sep] + x);
    SplitPrefix(h, sep, p + [sep] + x);
    SplitPrefix(p, sep, x);
    SplitNone(x, sep);
  }
}
