/**
 * The JavaScript string built-ins the components call: `trim`, the `\s`
 * and `\D` classes, `toLowerCase`/`toUpperCase`, `includes`, `indexOf`,
 * `split`, `Number.prototype.toString` and `parseFloat`.
 */
module Text {
  import opened Wrappers

  predicate IsDigit(c: char) { '0' <= c <= '9' }

  predicate AllDigits(s: string) { forall i :: 0 <= i < |s| ==> IsDigit(s[i]) }

  /** ECMAScript WhiteSpace and LineTerminator: what `\s` matches and `trim()` removes. */
  predicate IsSpace(c: char)
  {
    || c == ' ' || c == '\t' || c == '\n' || c == '\r' || c == '\U{000B}' || c == '\U{000C}'
    || c == '\U{00A0}' || c == '\U{1680}' || ('\U{2000}' <= c <= '\U{200A}')
    || c == '\U{2028}' || c == '\U{2029}' || c == '\U{202F}' || c == '\U{205F}'
    || c == '\U{3000}' || c == '\U{FEFF}'
  }

  predicate AllSpace(s: string) { forall i :: 0 <= i < |s| ==> IsSpace(s[i]) }

  // ---------------------------------------------------------------- \D removal

  /** `s.replace(/\D/g, '')`: the decimal digits of `s`, in order. */
  function Digits(s: string): (r: string)
    ensures AllDigits(r)
    ensures |r| <= |s|
  {
    if s == [] then []
    else if IsDigit(s[0]) then [s[0]] + Digits(s[1..])
    else Digits(s[1..])
  }

  lemma {:induction false} DigitsAppend(a: string, b: string)
    ensures Digits(a + b) == Digits(a) + Digits(b)
  {
    if a == [] {
      assert a + b == b;
    } else {
      assert (a + b)[1..] == a[1..] + b;
      assert (a + b)[0] == a[0];
      DigitsAppend(a[1..], b);
    }
  }

  /** Removing non-digits from a string of digits changes nothing. */
  lemma {:induction false} DigitsOfDigits(s: string)
    requires AllDigits(s)
    ensures Digits(s) == s
  {
    if s != [] {
      DigitsOfDigits(s[1..]);
    }
  }

  /** A string with no digit at all has an empty digit string. */
  lemma {:induction false} DigitsEmpty(s: string)
    ensures Digits(s) == [] <==> forall i :: 0 <= i < |s| ==> !IsDigit(s[i])
  {
    if s != [] {
      DigitsEmpty(s[1..]);
      assert forall i :: 1 <= i < |s| ==> s[i] == s[1..][i - 1];
    }
  }

  // ---------------------------------------------------------------- trim

  /** The number of whitespace characters `s` starts with. */
  function LeadingSpaces(s: string): (k: nat)
    ensures k <= |s| && AllSpace(s[..k])
    ensures k == |s| || !IsSpace(s[k])
  {
    if s == [] || !IsSpace(s[0]) then 0
    else
      var k := LeadingSpaces(s[1..]);
      assert s[..k + 1] == [s[0]] + s[1..][..k];
      k + 1
  }

  /** The number of whitespace characters `s` ends with. */
  function TrailingSpaces(s: string): (k: nat)
    ensures k <= |s| && AllSpace(s[|s| - k..])
    ensures k == |s| || !IsSpace(s[|s| - k - 1])
  {
    if s == [] || !IsSpace(s[|s| - 1]) then 0
    else
      var k := TrailingSpaces(s[..|s| - 1]);
      SpaceBeforeLast(s, k);
      k + 1
  }

  /** Trailing blanks of `s` without its last character, then a blank last character. */
  lemma SpaceBeforeLast(s: string, k: nat)
    requires k < |s| && IsSpace(s[|s| - 1]) && AllSpace(s[..|s| - 1][|s| - 1 - k..])
    ensures AllSpace(s[|s| - (k + 1)..])
  {
    assert s[|s| - (k + 1)..] == s[..|s| - 1][|s| - 1 - k..] + [s[|s| - 1]];
  }

  function TrimStart(s: string): (r: string)
    ensures r == [] || !IsSpace(r[0])
    ensures |r| <= |s| && r == s[|s| - |r|..]
    ensures AllSpace(s[..|s| - |r|])
  {
    s[LeadingSpaces(s)..]
  }

  /** `s.trim()`: `s` without its leading and trailing whitespace. */
  function Trim(s: string): (r: string)
    ensures r == [] || (!IsSpace(r[0]) && !IsSpace(r[|r| - 1]))
    ensures r == [] <==> AllSpace(s)
    ensures forall c :: c in r ==> c in s
  {
    var t := TrimStart(s);
    var r := t[..|t| - TrailingSpaces(t)];
    assert r == [] ==> AllSpace(s) by {
      if r == [] {
        assert s[..|s| - |t|] == s;
      }
    }
    r
  }

  /** A string that neither starts nor ends with whitespace is its own trim. */
  lemma TrimNoSpace(s: string)
    requires s == [] || (!IsSpace(s[0]) && !IsSpace(s[|s| - 1]))
    ensures Trim(s) == s
  {
  }

  // ---------------------------------------------------------------- case

  /** `toLowerCase` on one character (ASCII and Latin-1 letters, and the capital of `ÿ`). */
  function LowerChar(c: char): char
  {
    if 'A' <= c <= 'Z' || ('\U{00C0}' <= c <= '\U{00DE}' && c != '\U{00D7}') then (c as int + 32) as char
    else if c == '\U{0178}' then '\U{00FF}'
    else c
  }

  /**
   * `toUpperCase` on one character (ASCII and Latin-1 letters): `ÿ` becomes
   * U+0178 and the micro sign becomes the Greek capital mu, as in JavaScript.
   */
  function UpperChar(c: char): char
  {
    if 'a' <= c <= 'z' || ('\U{00E0}' <= c <= '\U{00FE}' && c != '\U{00F7}') then (c as int - 32) as char
    else if c == '\U{00FF}' then '\U{0178}'
    else if c == '\U{00B5}' then '\U{039C}'
    else c
  }

  function ToLower(s: string): (r: string)
    ensures |r| == |s| && forall i :: 0 <= i < |s| ==> r[i] == LowerChar(s[i])
  {
    seq(|s|, i requires 0 <= i < |s| => LowerChar(s[i]))
  }

  function ToUpper(s: string): (r: string)
    ensures |r| == |s| && forall i :: 0 <= i < |s| ==> r[i] == UpperChar(s[i])
  {
    seq(|s|, i requires 0 <= i < |s| => UpperChar(s[i]))
  }

  /** Upper-casing never produces a lower-case letter, so doing it twice changes nothing. */
  lemma ToUpperIdempotent(s: string)
    ensures ToUpper(ToUpper(s)) == ToUpper(s)
  {
  }

  /** Lower-casing touches letters only, so it keeps every space and every non-space. */
  lemma LowerKeepsSpace(s: string)
    ensures AllSpace(ToLower(s)) <==> AllSpace(s)
  {
    forall i | 0 <= i < |s| ensures IsSpace(ToLower(s)[i]) <==> IsSpace(s[i]) {
      var c := s[i];
      if 'A' <= c <= 'Z' || ('\U{00C0}' <= c <= '\U{00DE}' && c != '\U{00D7}') {
        assert !IsSpace(c) && !IsSpace(LowerChar(c));
      }
    }
  }

  // ---------------------------------------------------------------- search

  /** `pat` occurs in `s` at position `i`. */
  predicate MatchAt(s: string, pat: string, i: nat)
  {
    i + |pat| <= |s| && s[i..i + |pat|] == pat
  }

  /** `s.includes(pat)`. */
  predicate Contains(s: string, pat: string)
  {
    exists i: nat :: i <= |s| && MatchAt(s, pat, i)
  }

  /** Every string includes the empty string. */
  lemma ContainsEmpty(s: string)
    ensures Contains(s, [])
  {
    assert MatchAt(s, [], 0);
  }

  /** The first occurrence of `pat` in `s` at or after `from`. */
  function IndexOfFrom(s: string, pat: string, from: nat): (r: Option<nat>)
    ensures r.Some? ==> from <= r.value && MatchAt(s, pat, r.value)
    ensures r.Some? ==> forall j: nat :: from <= j < r.value ==> !MatchAt(s, pat, j)
    ensures r.None? ==> forall j: nat :: from <= j ==> !MatchAt(s, pat, j)
    decreases |s| - from
  {
    if from + |pat| > |s| then None
    else if MatchAt(s, pat, from) then Some(from)
    else IndexOfFrom(s, pat, from + 1)
  }

  /** `s.indexOf(pat)`, with `None` for -1. */
  function IndexOf(s: string, pat: string): (r: Option<nat>)
    ensures r.Some? <==> Contains(s, pat)
    ensures r.Some? ==> MatchAt(s, pat, r.value) && forall j: nat :: j < r.value ==> !MatchAt(s, pat, j)
  {
    IndexOfFrom(s, pat, 0)
  }

  /** The text before the first `sep`, or all of `s` (`s.split(sep)[0]`). */
  function Before(s: string, sep: string): (r: string)
    ensures r <= s
    ensures !Contains(r, sep) || sep == []
  {
    match IndexOf(s, sep)
    case None => s
    case Some(i) =>
      assert forall j: nat :: MatchAt(s[..i], sep, j) ==> MatchAt(s, sep, j) by {
        forall j: nat | MatchAt(s[..i], sep, j) ensures MatchAt(s, sep, j) {
          assert s[..i][j..j + |sep|] == s[j..j + |sep|];
        }
      }
      s[..i]
  }

  /** `s.split(sep)[1]`: the text between the first and second `sep`, if `sep` occurs. */
  function SecondPiece(s: string, sep: string): (r: Option<string>)
    ensures r.Some? <==> Contains(s, sep)
  {
    match IndexOf(s, sep)
    case None => None
    case Some(i) => Some(Before(s[i + |sep|..], sep))
  }

  /** The first occurrence, given by position. */
  lemma IndexOfIs(s: string, pat: string, i: nat)
    requires MatchAt(s, pat, i) && forall j: nat :: j < i ==> !MatchAt(s, pat, j)
    ensures IndexOf(s, pat) == Some(i)
  {
    var r := IndexOf(s, pat);
    assert r.Some?;
  }

  /** `s.split(sep)[0]` when the first `sep` is at `i`. */
  lemma BeforeIs(s: string, sep: string, i: nat)
    requires MatchAt(s, sep, i) && forall j: nat :: j < i ==> !MatchAt(s, sep, j)
    ensures Before(s, sep) == s[..i]
  {
    IndexOfIs(s, sep, i);
  }

  /** `s.split(sep)[0]` is all of `s` when `sep` does not occur. */
  lemma BeforeWhole(s: string, sep: string)
    requires forall j: nat :: !MatchAt(s, sep, j)
    ensures Before(s, sep) == s
  {
  }

  // ---------------------------------------------------------------- split

  /** `s.split(sep)` for a one-character separator. */
  function Split(s: string, sep: char): (r: seq<string>)
    ensures |r| >= 1
    ensures forall i :: 0 <= i < |r| ==> sep !in r[i]
  {
    if s == [] then [[]]
    else
      var rest := Split(s[1..], sep);
      if s[0] == sep then [[]] + rest
      else [[s[0]] + rest[0]] + rest[1..]
  }

  /** `pieces.join(sep)`. */
  function Join(pieces: seq<string>, sep: char): string
    requires |pieces| >= 1
  {
    if |pieces| == 1 then pieces[0] else pieces[0] + [sep] + Join(pieces[1..], sep)
  }

  /** Splitting loses nothing: joining the pieces back gives the input. */
  lemma {:induction false} SplitJoin(s: string, sep: char)
    ensures Join(Split(s, sep), sep) == s
  {
    if s != [] {
      var rest := Split(s[1..], sep);
      SplitJoin(s[1..], sep);
      if s[0] != sep {
        var r := Split(s, sep);
        assert r[0] == [s[0]] + rest[0] && r[1..] == rest[1..];
        if |rest| > 1 {
          assert Join(rest, sep) == rest[0] + [sep] + Join(rest[1..], sep);
        }
      }
    }
  }

  /** Text without the separator is a single piece. */
  lemma {:induction false} SplitNoSeparator(s: string, sep: char)
    requires sep !in s
    ensures Split(s, sep) == [s]
  {
    if s != [] {
      assert s[0] in s && s == [s[0]] + s[1..];
      assert sep !in s[1..] by {
        forall k | 0 <= k < |s[1..]| ensures s[1..][k] != sep { assert s[1..][k] == s[k + 1]; }
      }
      SplitNoSeparator(s[1..], sep);
    }
  }

  /** Splitting at a separator splits the pieces on either side independently. */
  lemma {:induction false} SplitAppend(a: string, b: string, sep: char)
    ensures Split(a + [sep] + b, sep) == Split(a, sep) + Split(b, sep)
  {
    var s := a + [sep] + b;
    if a == [] {
      assert s[1..] == b;
    } else {
      assert s[0] == a[0] && s[1..] == a[1..] + [sep] + b;
      SplitAppend(a[1..], b, sep);
    }
  }

  // ---------------------------------------------------------------- numbers

  function Pow10(k: nat): (p: nat)
    ensures p >= 1
  {
    if k == 0 then 1 else 10 * Pow10(k - 1)
  }

  function DigitChar(d: nat): (c: char)
    requires d < 10
    ensures IsDigit(c)
  {
    ('0' as int + d) as char
  }

  /** The value of a string of decimal digits. */
  function DigitsValue(s: string): nat
    requires AllDigits(s)
  {
    if s == [] then 0 else DigitsValue(s[..|s| - 1]) * 10 + (s[|s| - 1] as int - '0' as int)
  }

  /** `n.toString()` for a non-negative integer. */
  function DecimalString(n: nat): (r: string)
    ensures |r| >= 1 && AllDigits(r)
    ensures r[0] == '0' ==> n == 0
  {
    if n < 10 then [DigitChar(n)]
    else DecimalString(n / 10) + [DigitChar(n % 10)]
  }

  lemma {:induction false} DecimalStringValue(n: nat)
    ensures DigitsValue(DecimalString(n)) == n
  {
    if n >= 10 {
      DecimalStringValue(n / 10);
      var s := DecimalString(n);
      assert s[..|s| - 1] == DecimalString(n / 10);
    }
  }

  /** A number with k+1 digits prints as k+1 characters. */
  lemma {:induction false} DecimalStringLength(n: nat, k: nat)
    requires Pow10(k) <= n < Pow10(k + 1)
    ensures |DecimalString(n)| == k + 1
  {
    if k > 0 {
      DecimalStringLength(n / 10, k - 1);
    }
  }

  /** The longest prefix of `s` made of digits has this length. */
  function LeadingDigits(s: string): (k: nat)
    ensures k <= |s| && AllDigits(s[..k])
    ensures k == |s| || !IsDigit(s[k])
  {
    if s == [] || !IsDigit(s[0]) then 0
    else
      var k := LeadingDigits(s[1..]);
      assert s[..k + 1] == [s[0]] + s[1..][..k];
      k + 1
  }

  /** The unsigned part of `parseFloat`: digits, then optionally `.` and digits. */
  /** The value of the digits after the point, as a fraction. */
  function FractionValue(frac: string): (r: real)
    requires AllDigits(frac)
    ensures frac == [] ==> r == 0.0
  {
    DigitsValue(frac) as real / Pow10(|frac|) as real
  }

  /** The digits right after a leading `.` of `rest`, or none. */
  function FractionDigits(rest: string): (frac: string)
    ensures AllDigits(frac)
    ensures rest == [] || rest[0] != '.' ==> frac == []
    ensures frac != [] ==> frac[0] in rest
  {
    if |rest| > 0 && rest[0] == '.' then
      var frac := rest[1..][..LeadingDigits(rest[1..])];
      assert frac != [] ==> frac[0] == rest[1];
      frac
    else []
  }

  function ParseUnsigned(u: string): (r: Option<real>)
    ensures r.Some? ==> Digits(u) != []
  {
    var k := LeadingDigits(u);
    var whole := u[..k];
    var frac := FractionDigits(u[k..]);
    if whole == [] && frac == [] then None
    else
      assert Digits(u) != [] by {
        var c := if whole != [] then whole[0] else frac[0];
        assert IsDigit(c) && c in u;
        DigitsEmpty(u);
      }
      Some(DigitsValue(whole) as real + FractionValue(frac))
  }

  /** A suffix with a digit makes a string with a digit. */
  lemma SuffixDigits(s: string, k: nat)
    requires k <= |s| && Digits(s[k..]) != []
    ensures Digits(s) != []
  {
    assert s == s[..k] + s[k..];
    DigitsAppend(s[..k], s[k..]);
  }

  /**
   * `parseFloat(s)`, with `None` for NaN: skip leading whitespace, read an
   * optional sign, digits, and an optional `.` followed by digits; the rest
   * of the string is ignored.
   */
  function ParseFloat(s: string): (r: Option<real>)
    ensures r.None? <== Digits(s) == []
  {
    var t := TrimStart(s);
    var neg := |t| > 0 && t[0] == '-';
    var u := if |t| > 0 && (t[0] == '-' || t[0] == '+') then t[1..] else t;
    match ParseUnsigned(u)
    case None => None
    case Some(magnitude) =>
      assert Digits(s) != [] by {
        SuffixDigits(s, |s| - |u|);
      }
      Some(if neg then -magnitude else magnitude)
  }

  lemma {:induction false} LeadingDigitsAll(s: string)
    requires AllDigits(s)
    ensures LeadingDigits(s) == |s|
  {
    if s != [] {
      LeadingDigitsAll(s[1..]);
    }
  }

  lemma ParseUnsignedDigits(s: string)
    requires s != [] && AllDigits(s)
    ensures ParseUnsigned(s) == Some(DigitsValue(s) as real)
  {
    LeadingDigitsAll(s);
    assert s[..|s|] == s;
    assert FractionDigits(s[|s|..]) == [];
    assert FractionValue([]) == 0.0;
  }

  /** Without a sign, `parseFloat` reads the unsigned part of the trimmed text. */
  lemma ParseFloatUnsigned(s: string)
    requires TrimStart(s) != [] && TrimStart(s)[0] != '-' && TrimStart(s)[0] != '+'
    ensures ParseFloat(s) == ParseUnsigned(TrimStart(s))
  {
  }

  lemma TrimStartDigits(s: string)
    requires s != [] && AllDigits(s)
    ensures TrimStart(s) == s
  {
    assert !IsSpace(s[0]);
  }

  /** A plain string of digits parses to its value. */
  lemma ParseFloatDigits(s: string)
    requires s != [] && AllDigits(s)
    ensures ParseFloat(s) == Some(DigitsValue(s) as real)
  {
    TrimStartDigits(s);
    assert IsDigit(s[0]);
    ParseFloatUnsigned(s);
    ParseUnsignedDigits(s);
  }

  /** Printing a non-negative integer and parsing it back gives the integer. */
  lemma DecimalStringParses(n: nat)
    ensures ParseFloat(DecimalString(n)) == Some(n as real)
  {
    DecimalStringValue(n);
    ParseFloatDigits(DecimalString(n));
  }
}
