/** `int.TryParse` / `long.TryParse` under `NumberStyles.Integer` and the
    decimal rendering `ToString()` gives an integer. */
module Numbers {
  import opened Prelude
  import opened Text

  predicate IsDigit(c: char) { '0' <= c <= '9' }

  predicate AllDigits(s: string) {
    forall i :: 0 <= i < |s| ==> IsDigit(s[i])
  }

  /** The value of a run of decimal digits, most significant first. */
  function DigitsValue(s: string): nat
    requires AllDigits(s)
  {
    if s == [] then 0 else DigitsValue(s[..|s| - 1]) * 10 + (s[|s| - 1] as int - '0' as int)
  }

  /** The number of NUL characters `s` ends with; the .NET number parser
      accepts them after the trailing white space. */
  function TrailingNuls(s: string): (k: nat)
    ensures k <= |s|
    ensures forall i :: |s| - k <= i < |s| ==> s[i] == '\0'
  {
    if s != [] && s[|s| - 1] == '\0' then 1 + TrailingNuls(s[..|s| - 1]) else 0
  }

  /** What remains of the input once the optional leading white space,
      trailing NULs and trailing white space are removed: the sign and the
      digits. */
  function Core(s: string): string {
    var u := TrimStart(s);
    TrimEnd(u[..|u| - TrailingNuls(u)])
  }

  /** The shape `NumberStyles.Integer` accepts once white space is gone:
      an optional `+` or `-`, then at least one digit. */
  predicate SignedDigits(w: string) {
    if w != [] && (w[0] == '-' || w[0] == '+') then |w| > 1 && AllDigits(w[1..])
    else w != [] && AllDigits(w)
  }

  function SignedValue(w: string): int
    requires SignedDigits(w)
  {
    if w[0] == '-' then 0 - DigitsValue(w[1..]) as int
    else if w[0] == '+' then DigitsValue(w[1..])
    else DigitsValue(w)
  }

  /** `TryParse` for an integer type whose range is `lo..hi`: the value, or
      None when the text is ill-formed or the value overflows. */
  function ParseInteger(s: string, lo: int, hi: int): (r: Option<int>)
    ensures r.Some? <==> SignedDigits(Core(s)) && lo <= SignedValue(Core(s)) <= hi
    ensures r.Some? ==> lo <= r.value <= hi && r.value == SignedValue(Core(s))
  {
    var w := Core(s);
    if SignedDigits(w) && lo <= SignedValue(w) <= hi then Some(SignedValue(w)) else None
  }

  /** `int.TryParse`. */
  function ParseInt32(s: string): (r: Option<int>)
    ensures r.Some? ==> IsInt32(r.value)
  {
    ParseInteger(s, Int32Min, Int32Max)
  }

  /** `long.TryParse`. */
  function ParseInt64(s: string): (r: Option<int>)
    ensures r.Some? ==> IsInt64(r.value)
  {
    ParseInteger(s, Int64Min, Int64Max)
  }

  predicate AllNul(s: string) {
    forall i :: 0 <= i < |s| ==> s[i] == '\0'
  }

  /** NULs after a text that does not end with a NUL are exactly what
      `TrailingNuls` counts. */
  lemma {:induction false} TrailingNulsSuffix(x: string, z: string)
    requires AllNul(z) && (x == [] || x[|x| - 1] != '\0')
    ensures TrailingNuls(x + z) == |z|
    decreases |z|
  {
    if z == [] {
      assert x + z == x;
    } else {
      assert (x + z)[..|x + z| - 1] == x + z[..|z| - 1];
      TrailingNulsSuffix(x, z[..|z| - 1]);
    }
  }

  /** The sign a `NumberStyles.Integer` text may carry: none, `+` or `-`. */
  predicate IsSign(sign: string) {
    sign == "" || sign == "+" || sign == "-"
  }

  /** The value of a sign followed by digits. */
  function SignOf(sign: string, d: string): int
    requires AllDigits(d)
  {
    if sign == "-" then 0 - DigitsValue(d) else DigitsValue(d)
  }

  /** Dropping the trailing NULs of a text followed by NULs leaves the text. */
  lemma DropNulsSuffix(x: string, z: string)
    requires AllNul(z) && (x == [] || x[|x| - 1] != '\0')
    ensures (x + z)[..|x + z| - TrailingNuls(x + z)] == x
  {
    TrailingNulsSuffix(x, z);
    assert (x + z)[..|x|] == x;
  }

  /** Any text is what remains after its trailing NULs, then those NULs. */
  lemma SplitNuls(u: string) returns (x: string, z: string)
    ensures u == x + z && AllNul(z) && x == u[..|u| - TrailingNuls(u)]
  {
    var n := TrailingNuls(u);
    x, z := u[..|u| - n], u[|u| - n..];
    assert forall i :: 0 <= i < |z| ==> z[i] == u[|u| - n + i];
  }

  /** Stripping surrounds a core that neither starts with white space nor
      ends with white space or a NUL leaves exactly that core. */
  lemma CoreOfSurrounded(a: string, w: string, b: string, z: string)
    requires AllWhite(a) && AllWhite(b) && AllNul(z)
    requires w != [] && !IsWhite(w[0]) && !IsWhite(w[|w| - 1]) && w[|w| - 1] != '\0'
    ensures Core(a + w + b + z) == w
  {
    var x := w + b;
    var u := x + z;
    assert a + w + b + z == a + u;
    assert u[0] == w[0];
    TrimStartPrefix(a, u);
    assert x[|x| - 1] != '\0' by {
      if b != [] { assert x[|x| - 1] == b[|b| - 1]; }
    }
    DropNulsSuffix(x, z);
    TrimEndSuffix(w, b);
  }

  /** A sign followed by digits is a signed-digits text with that value. */
  lemma SignedOfSign(sign: string, d: string)
    requires IsSign(sign) && d != [] && AllDigits(d)
    ensures SignedDigits(sign + d) && SignedValue(sign + d) == SignOf(sign, d)
  {
    var w := sign + d;
    if sign == "" {
      assert w == d && IsDigit(d[0]);
    } else {
      assert w[0] == sign[0] && w[1..] == d;
    }
  }

  /** Every text of the accepted shape parses: leading white space, an
      optional sign, at least one digit, trailing white space and trailing
      NULs, giving the signed value when it fits the range and nothing
      otherwise. */
  lemma ParseIntegerShape(a: string, sign: string, d: string, b: string, z: string, lo: int, hi: int)
    requires AllWhite(a) && AllWhite(b) && AllNul(z) && IsSign(sign) && d != [] && AllDigits(d)
    ensures ParseInteger(a + sign + d + b + z, lo, hi) ==
      if lo <= SignOf(sign, d) <= hi then Some(SignOf(sign, d)) else None
  {
    var w := sign + d;
    assert !IsWhite(w[0]) by {
      if sign == "" { assert w[0] == d[0] && IsDigit(d[0]); } else { assert w[0] == sign[0]; }
    }
    assert w[|w| - 1] == d[|d| - 1] && IsDigit(d[|d| - 1]);
    var s := a + sign + d + b + z;
    assert s == a + w + b + z by {
      assert a + sign + d == a + w;
    }
    CoreOfSurrounded(a, w, b, z);
    SignedOfSign(sign, d);
    ParseOfCore(s, w, lo, hi);
  }

  lemma ParseOfCore(s: string, w: string, lo: int, hi: int)
    requires Core(s) == w && SignedDigits(w)
    ensures ParseInteger(s, lo, hi) == if lo <= SignedValue(w) <= hi then Some(SignedValue(w)) else None
  {
  }

  /** Conversely, every text `TryParse` accepts has that shape, and the
      parsed value is its sign applied to its digits. */
  lemma ParsedIntegerShape(s: string, lo: int, hi: int) returns (a: string, sign: string, d: string, b: string, z: string)
    requires ParseInteger(s, lo, hi).Some?
    ensures s == a + sign + d + b + z
    ensures AllWhite(a) && AllWhite(b) && AllNul(z) && IsSign(sign) && d != [] && AllDigits(d)
    ensures ParseInteger(s, lo, hi) == Some(SignOf(sign, d))
  {
    var w;
    a, w, b, z := Surrounds(s);
    assert SignedDigits(w) && ParseInteger(s, lo, hi).value == SignedValue(w);
    sign, d := SplitSign(w);
    assert a + w == a + sign + d;
  }

  /** A signed-digits text is a sign followed by its digits. */
  lemma SplitSign(w: string) returns (sign: string, d: string)
    requires SignedDigits(w)
    ensures w == sign + d && IsSign(sign) && d != [] && AllDigits(d)
    ensures SignedValue(w) == SignOf(sign, d)
  {
    if w[0] == '-' || w[0] == '+' {
      sign, d := w[..1], w[1..];
      assert sign == [w[0]];
    } else {
      sign, d := "", w;
      assert sign + d == w;
    }
  }

  /** Any text splits into its leading white space, its core, its trailing
      white space and its trailing NULs. */
  lemma Surrounds(s: string) returns (a: string, w: string, b: string, z: string)
    ensures s == a + w + b + z && w == Core(s)
    ensures AllWhite(a) && AllWhite(b) && AllNul(z)
  {
    var u, x;
    a, u := SplitLeading(s);
    x, z := SplitNuls(u);
    w, b := SplitTrailing(x);
    assert s == a + ((w + b) + z);
  }

  /** The decimal digits of a natural number, without leading zeros. */
  function Digits(n: nat): (r: string)
    ensures |r| >= 1 && AllDigits(r)
  {
    if n < 10 then ['0' + n as char]
    else Digits(n / 10) + ['0' + (n % 10) as char]
  }

  /** `ToString()` of an integer: a minus sign for negatives, then the digits. */
  function FormatInt(n: int): (r: string)
    ensures SignedDigits(r)
  {
    if n < 0 then "-" + Digits(-n) else Digits(n)
  }

  lemma {:induction false} DigitsRoundTrip(n: nat)
    ensures DigitsValue(Digits(n)) == n
  {
    if n >= 10 {
      DigitsRoundTrip(n / 10);
      var d := Digits(n);
      assert d[..|d| - 1] == Digits(n / 10);
    }
  }

  /** Formatted text is already in core form: no white space or NULs to
      strip. */
  lemma CoreOfFormatted(n: int)
    ensures Core(FormatInt(n)) == FormatInt(n)
  {
    var f := FormatInt(n);
    assert !IsWhite(f[0]);
    assert TrimStart(f) == f;
    assert f[|f| - 1] != '\0' && !IsWhite(f[|f| - 1]);
    assert f[..|f|] == f;
  }

  /** Parsing what `ToString()` printed gives the number back exactly when
      it fits the target type. */
  lemma FormatParse(n: int, lo: int, hi: int)
    ensures ParseInteger(FormatInt(n), lo, hi) == if lo <= n <= hi then Some(n) else None
  {
    CoreOfFormatted(n);
    var f := FormatInt(n);
    assert SignedValue(f) == n by {
      if n < 0 {
        DigitsRoundTrip(-n);
        assert f[0] == '-' && f[1..] == Digits(-n);
      } else {
        DigitsRoundTrip(n);
        assert f == Digits(n) && IsDigit(f[0]);
      }
    }
  }

  /** `long.TryParse` reads back every Int64 `ToString()` printed. */
  lemma ParseInt64Formatted(n: int)
    requires IsInt64(n)
    ensures ParseInt64(FormatInt(n)) == Some(n)
  {
    FormatParse(n, Int64Min, Int64Max);
  }
}
