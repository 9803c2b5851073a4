/**
 * Character-level helpers that stand for the Python string operations the
 * core relies on: `str.strip()`, `str.split(sep)`, `int(text)`, `str(int)`,
 * `os.path.basename` and zero-padded two-digit fields.
 */
module Text {
  import opened Wrappers

  /** Python's `str.isspace()` for a single character. */
  predicate IsSpace(c: char) {
    c == ' ' || ('\t' <= c <= '\r') || ('\U{1C}' <= c <= '\U{1F}')
    || c == '\U{85}' || c == '\U{A0}' || c == '\U{1680}'
    || ('\U{2000}' <= c <= '\U{200A}') || c == '\U{2028}' || c == '\U{2029}'
    || c == '\U{202F}' || c == '\U{205F}' || c == '\U{3000}'
  }

  predicate AllSpace(s: string) {
    forall i :: 0 <= i < |s| ==> IsSpace(s[i])
  }

  /** No leading and no trailing whitespace. */
  predicate Trimmed(s: string) {
    s == [] || (!IsSpace(s[0]) && !IsSpace(s[|s| - 1]))
  }

  function LeadingSpaces(s: string): (n: nat)
    ensures n <= |s| && AllSpace(s[..n])
    ensures n < |s| ==> !IsSpace(s[n])
  {
    if s == [] || !IsSpace(s[0]) then 0 else 1 + LeadingSpaces(s[1..])
  }

  function TrailingSpaces(s: string): (n: nat)
    ensures n <= |s| && AllSpace(s[|s| - n..])
    ensures n < |s| ==> !IsSpace(s[|s| - n - 1])
  {
    if s == [] || !IsSpace(s[|s| - 1]) then 0 else 1 + TrailingSpaces(s[..|s| - 1])
  }

  /** Python's `s.strip()`: drop leading and trailing whitespace. */
  function Strip(s: string): (r: string)
    ensures Trimmed(r)
    ensures r == [] <==> AllSpace(s)
  {
    var rest := s[LeadingSpaces(s)..];
    assert AllSpace(s) ==> rest == [];
    rest[..|rest| - TrailingSpaces(rest)]
  }

  /** Stripping removes exactly the whitespace padding around a trimmed text. */
  lemma {:induction false} StripPadded(a: string, t: string, b: string)
    requires AllSpace(a) && AllSpace(b) && Trimmed(t)
    ensures Strip(a + t + b) == t
  {
    var s := a + t + b;
    if t == [] {
      assert AllSpace(s) by {
        forall i | 0 <= i < |s| ensures IsSpace(s[i]) {
          if i < |a| { assert s[i] == a[i]; } else { assert s[i] == b[i - |a|]; }
        }
      }
    } else {
      LeadingSpacesOf(a, t + b);
      assert a + t + b == a + (t + b);
      var rest := s[|a|..];
      assert rest == t + b;
      TrailingSpacesOf(t, b);
      assert rest[..|rest| - |b|] == t;
    }
  }

  lemma {:induction false} LeadingSpacesOf(a: string, u: string)
    requires AllSpace(a) && u != [] && !IsSpace(u[0])
    ensures LeadingSpaces(a + u) == |a|
  {
    if a != [] {
      assert (a + u)[1..] == a[1..] + u;
      LeadingSpacesOf(a[1..], u);
    }
  }

  lemma {:induction false} TrailingSpacesOf(u: string, b: string)
    requires AllSpace(b) && u != [] && !IsSpace(u[|u| - 1])
    ensures TrailingSpaces(u + b) == |b|
  {
    if b != [] {
      assert (u + b)[..|u + b| - 1] == u + b[..|b| - 1];
      TrailingSpacesOf(u, b[..|b| - 1]);
    }
  }

  // ---------------------------------------------------------------------
  // Decimal digits
  // ---------------------------------------------------------------------

  predicate IsDigit(c: char) { '0' <= c <= '9' }

  predicate AllDigits(s: string) {
    forall i :: 0 <= i < |s| ==> IsDigit(s[i])
  }

  /** A decimal numeral as Python's `str` writes a non-negative int: no leading zeros. */
  predicate Canonical(s: string) {
    |s| > 0 && AllDigits(s) && (s[0] == '0' ==> |s| == 1)
  }

  function DigitValue(c: char): (d: nat)
    requires IsDigit(c)
    ensures d < 10
  {
    (c as int) - ('0' as int)
  }

  function DigitChar(d: nat): (c: char)
    requires d < 10
    ensures IsDigit(c) && DigitValue(c) == d
  {
    (('0' as int) + d) as char
  }

  /** The value of a digit string, most significant digit first. */
  function DigitsValue(s: string): nat
    requires AllDigits(s)
  {
    if s == [] then 0 else DigitsValue(s[..|s| - 1]) * 10 + DigitValue(s[|s| - 1])
  }

  /** Python's `str(n)` for `n >= 0`. */
  function NatToString(n: nat): (r: string)
    ensures Canonical(r) && DigitsValue(r) == n
  {
    if n < 10 then [DigitChar(n)]
    else
      var r := NatToString(n / 10) + [DigitChar(n % 10)];
      assert r[..|r| - 1] == NatToString(n / 10);
      r
  }

  lemma {:induction false} LeadingNonZeroPositive(s: string)
    requires |s| > 0 && AllDigits(s) && s[0] != '0'
    ensures DigitsValue(s) >= 1
  {
    if |s| > 1 {
      assert s[..|s| - 1][0] == s[0];
      LeadingNonZeroPositive(s[..|s| - 1]);
    }
  }

  /** Every canonical numeral is what `str` prints for its value. */
  lemma {:induction false} CanonicalRoundTrip(s: string)
    requires Canonical(s)
    ensures NatToString(DigitsValue(s)) == s
  {
    if |s| > 1 {
      var p := s[..|s| - 1];
      assert p[0] == s[0];
      LeadingNonZeroPositive(p);
      CanonicalRoundTrip(p);
      var n := DigitsValue(s);
      assert n / 10 == DigitsValue(p) && n % 10 == DigitValue(s[|s| - 1]);
      assert DigitChar(n % 10) == s[|s| - 1];
      assert s == p + [s[|s| - 1]];
    }
  }

  /** A string is the printed form of `n` exactly when it is canonical and denotes `n`. */
  lemma NatToStringIff(s: string, n: nat)
    ensures s == NatToString(n) <==> Canonical(s) && DigitsValue(s) == n
  {
    if Canonical(s) && DigitsValue(s) == n {
      CanonicalRoundTrip(s);
    }
  }

  /** Python's `str(i)` for any int. */
  function IntToString(i: int): (r: string)
    ensures |r| > 0
    ensures IsDigit(r[0]) || (r[0] == '-' && |r| > 1)
    ensures forall k :: 0 < k < |r| ==> IsDigit(r[k])
    ensures r[0] == '-' <==> i < 0
  {
    if i < 0 then "-" + NatToString(-i) else NatToString(i)
  }

  /**
   * Python's `int(text)`, restricted to surrounding whitespace, an optional
   * sign and ASCII decimal digits; anything else raises, here `None`.
   */
  function ParseInt(text: string): (r: Option<int>)
  {
    var t := Strip(text);
    if t == [] then None
    else
      var body := if t[0] == '-' || t[0] == '+' then t[1..] else t;
      if body != [] && AllDigits(body) then
        var v: int := DigitsValue(body);
        Some(if t[0] == '-' then -v else v)
      else None
  }

  /** `int(str(i)) == i`, also with whitespace around the numeral. */
  lemma ParseIntRoundTrip(a: string, i: int, b: string)
    requires AllSpace(a) && AllSpace(b)
    ensures ParseInt(a + IntToString(i) + b) == Some(i)
  {
    var s := IntToString(i);
    assert Trimmed(s) by {
      assert !IsSpace(s[0]) && IsDigit(s[|s| - 1]);
    }
    StripPadded(a, s, b);
    if i < 0 {
      assert s[1..] == NatToString(-i);
    }
  }

  /** A canonical numeral parses to the value it denotes. */
  lemma ParseIntDigits(s: string)
    requires Canonical(s)
    ensures ParseInt(s) == Some(DigitsValue(s))
  {
    CanonicalRoundTrip(s);
    ParseIntRoundTrip([], DigitsValue(s), []);
    assert [] + IntToString(DigitsValue(s)) + [] == s;
  }

  /** Two-digit zero-padded field, as `%02d` (and `strftime`'s `%I`/`%M`) write it. */
  function Pad2(n: nat): (r: string)
    requires n < 100
    ensures |r| == 2 && AllDigits(r) && DigitsValue(r) == n
  {
    var r := [DigitChar(n / 10), DigitChar(n % 10)];
    assert r[..1] == [r[0]] && r[..1][..0] == [];
    assert DigitsValue(r[..1]) == DigitValue(r[0]);
    r
  }

  // ---------------------------------------------------------------------
  // Splitting and path names
  // ---------------------------------------------------------------------

  /** Position of the first `c` in `s`. */
  function IndexOf(s: string, c: char): (r: Option<nat>)
    ensures r.None? <==> c !in s
    ensures r.Some? ==> r.value < |s| && s[r.value] == c && c !in s[..r.value]
  {
    if s == [] then None
    else if s[0] == c then Some(0)
    else
      match IndexOf(s[1..], c)
      case None => None
      case Some(i) => assert s[..i + 1] == [s[0]] + s[1..][..i]; Some(i + 1)
  }

  /** Python's `s.split(sep)` for a one-character separator. */
  function Split(s: string, sep: char): (parts: seq<string>)
    ensures |parts| >= 1
    ensures |parts| == 1 <==> sep !in s
    ensures forall i :: 0 <= i < |parts| ==> sep !in parts[i]
    ensures Join(parts, sep) == s
    decreases |s|
  {
    match IndexOf(s, sep)
    case None => [s]
    case Some(i) =>
      var rest := Split(s[i + 1..], sep);
      assert s == s[..i] + [sep] + s[i + 1..];
      assert ([s[..i]] + rest)[1..] == rest;
      [s[..i]] + rest
  }

  /** Python's `sep.join(parts)`. */
  function Join(parts: seq<string>, sep: char): string
    requires |parts| >= 1
  {
    if |parts| == 1 then parts[0] else parts[0] + [sep] + Join(parts[1..], sep)
  }

  /** Splitting a joined list of separator-free parts gives the parts back. */
  lemma {:induction false} SplitJoin(parts: seq<string>, sep: char)
    requires |parts| >= 1
    requires forall i :: 0 <= i < |parts| ==> sep !in parts[i]
    ensures Split(Join(parts, sep), sep) == parts
  {
    if |parts| > 1 {
      assert sep !in parts[0];
      SplitAfter(parts[0], Join(parts[1..], sep), sep);
      SplitJoin(parts[1..], sep);
      assert parts == [parts[0]] + parts[1..];
    }
  }

  /** The first separator after a separator-free prefix is the one right after it. */
  lemma IndexOfAfter(x: string, w: string, c: char)
    requires c !in x && |w| > 0 && w[0] == c
    ensures IndexOf(x + w, c) == Some(|x|)
  {
    var s := x + w;
    assert s[|x|] == c;
    assert forall k :: 0 <= k < |x| ==> s[k] == x[k];
  }

  /** Splitting at the first separator: the prefix before it is the first part. */
  lemma SplitAfter(x: string, y: string, sep: char)
    requires sep !in x
    ensures Split(x + [sep] + y, sep) == [x] + Split(y, sep)
  {
    var s := x + [sep] + y;
    IndexOfAfter(x, [sep] + y, sep);
    assert s == x + ([sep] + y);
    assert s[..|x|] == x && s[|x| + 1..] == y;
  }

  /** A separator-free text followed by nothing or by a separator is the first part. */
  lemma SplitHead(y: string, z: string, sep: char)
    requires sep !in y && (z == [] || z[0] == sep)
    ensures Split(y + z, sep)[0] == y
  {
    if z == [] {
      assert y + z == y;
      assert IndexOf(y, sep) == None;
    } else {
      var w := y + [sep] + z[1..];
      assert w == y + z;
      SplitAfter(y, z[1..], sep);
      assert Split(w, sep)[0] == y;
    }
  }

  /** `os.path.basename(path)` on POSIX: the text after the last '/'. */
  function Basename(path: string): (r: string)
    ensures '/' !in r
    ensures |r| <= |path| && r == path[|path| - |r|..]
    ensures |r| < |path| ==> path[|path| - |r| - 1] == '/'
  {
    if path == [] || path[|path| - 1] == '/' then []
    else
      var r := Basename(path[..|path| - 1]) + [path[|path| - 1]];
      assert path[..|path| - 1][|path| - |r|..] == path[|path| - |r|..|path| - 1];
      r
  }
}
