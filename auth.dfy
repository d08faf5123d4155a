/**
 * CPF formatting and the CPF and e-mail checks of the sign-up and login
 * forms. Each `replace` of the formatting chain is modelled by the
 * position its regular expression matches first.
 */
module Auth {
  import opened Wrappers
  import opened Text

  // ---------------------------------------------------------------- formatCPF

  /** Four consecutive digits start at `i` (where `(\d{3})(\d)` can match). */
  predicate FourDigitsAt(s: string, i: nat)
  {
    i + 4 <= |s| && IsDigit(s[i]) && IsDigit(s[i + 1]) && IsDigit(s[i + 2]) && IsDigit(s[i + 3])
  }

  /** The first position at or after `from` where four digits start. */
  function FirstFourDigits(s: string, from: nat): (r: Option<nat>)
    ensures r.Some? ==> from <= r.value && FourDigitsAt(s, r.value)
    ensures r.Some? ==> forall j: nat :: from <= j < r.value ==> !FourDigitsAt(s, j)
    ensures r.None? ==> forall j: nat :: from <= j ==> !FourDigitsAt(s, j)
    decreases |s| - from
  {
    if from + 4 > |s| then None
    else if FourDigitsAt(s, from) then Some(from)
    else FirstFourDigits(s, from + 1)
  }

  /**
   * `s.replace(/(\d{3})(\d)/, '$1' + mark + '$2')`, and equally
   * `s.replace(/(\d{3})(\d{1,2})/, '$1-$2')` with mark '-': both put `mark`
   * after the first three of the first four consecutive digits.
   */
  function MarkAfterThreeDigits(s: string, mark: char): string
  {
    match FirstFourDigits(s, 0)
    case None => s
    case Some(i) => s[..i + 3] + [mark] + s[i + 3..]
  }

  /** `-`, two digits, then one or more digits up to the end start at `i`. */
  predicate DashTailAt(s: string, i: nat)
  {
    i + 3 < |s| && s[i] == '-' && IsDigit(s[i + 1]) && IsDigit(s[i + 2]) && AllDigits(s[i + 3..])
  }

  function FirstDashTail(s: string, from: nat): (r: Option<nat>)
    ensures r.Some? ==> from <= r.value && DashTailAt(s, r.value)
    ensures r.None? ==> forall j: nat :: from <= j ==> !DashTailAt(s, j)
    decreases |s| - from
  {
    if from + 3 >= |s| then None
    else if DashTailAt(s, from) then Some(from)
    else FirstDashTail(s, from + 1)
  }

  /** `s.replace(/(-\d{2})\d+?$/, '$1')`: drop the digits after `-dd`. */
  function DropDigitsAfterDash(s: string): string
  {
    match FirstDashTail(s, 0)
    case None => s
    case Some(i) => s[..i + 3]
  }

  /** The four replacements of `formatCPF`, in order. */
  function Replacements(s: string): string
  {
    DropDigitsAfterDash(MarkAfterThreeDigits(MarkAfterThreeDigits(MarkAfterThreeDigits(s, '.'), '.'), '-'))
  }

  /** `formatCPF`: keep the digits, then apply the four replacements. */
  function FormatCPF(cpf: string): string
  {
    Replacements(Digits(cpf))
  }

  /** What the chain produces from a digit string `d`, by its length. */
  function CPFLayout(d: string): string
  {
    if |d| <= 3 then d
    else if |d| <= 6 then d[..3] + "." + d[3..]
    else if |d| <= 9 then d[..3] + "." + d[3..6] + "." + d[6..]
    else d[..3] + "." + d[3..6] + "." + d[6..9] + "-" + d[9..if |d| < 11 then |d| else 11]
  }

  lemma FirstFourIs(s: string, i: nat)
    requires FourDigitsAt(s, i) && forall j: nat :: j < i ==> !FourDigitsAt(s, j)
    ensures FirstFourDigits(s, 0) == Some(i)
  {
    var r := FirstFourDigits(s, 0);
    assert r.Some?;
  }

  /** Cutting after a prefix and `k` more characters. */
  lemma SplitAfterPrefix(p: string, t: string, k: nat)
    requires k <= |t|
    ensures (p + t)[..|p| + k] == p + t[..k]
    ensures (p + t)[|p| + k..] == t[k..]
  {
  }

  lemma Step1(d: string)
    requires AllDigits(d)
    ensures MarkAfterThreeDigits(d, '.') == if |d| < 4 then d else d[..3] + "." + d[3..]
  {
    if |d| >= 4 {
      FirstFourIs(d, 0);
    }
  }

  lemma Step2(d: string)
    requires AllDigits(d) && |d| >= 4
    ensures MarkAfterThreeDigits(d[..3] + "." + d[3..], '.')
            == if |d| < 7 then d[..3] + "." + d[3..] else d[..3] + "." + d[3..6] + "." + d[6..]
  {
    var s := d[..3] + "." + d[3..];
    assert s[3] == '.';
    assert forall j: nat :: j <= 3 ==> !FourDigitsAt(s, j);
    if |d| >= 7 {
      assert forall k :: 4 <= k < |s| ==> s[k] == d[k - 1];
      FirstFourIs(s, 4);
      SplitAfterPrefix(d[..3] + ".", d[3..], 3);
      assert d[3..][..3] == d[3..6] && d[3..][3..] == d[6..];
    } else {
      assert FirstFourDigits(s, 0).None?;
    }
  }

  lemma Step3(d: string)
    requires AllDigits(d) && |d| >= 7
    ensures MarkAfterThreeDigits(d[..3] + "." + d[3..6] + "." + d[6..], '-')
            == if |d| < 10 then d[..3] + "." + d[3..6] + "." + d[6..]
               else d[..3] + "." + d[3..6] + "." + d[6..9] + "-" + d[9..]
  {
    var s := d[..3] + "." + d[3..6] + "." + d[6..];
    assert s[3] == '.' && s[7] == '.';
    assert forall j: nat :: j <= 7 ==> !FourDigitsAt(s, j);
    if |d| >= 10 {
      assert forall k :: 8 <= k < |s| ==> s[k] == d[k - 2];
      FirstFourIs(s, 8);
      SplitAfterPrefix(d[..3] + "." + d[3..6] + ".", d[6..], 3);
      assert d[6..][..3] == d[6..9] && d[6..][3..] == d[9..];
    } else {
      assert FirstFourDigits(s, 0).None?;
    }
  }

  lemma Step4NoDash(s: string)
    requires '-' !in s
    ensures DropDigitsAfterDash(s) == s
  {
    assert forall j: nat :: !DashTailAt(s, j) by {
      forall j: nat | j < |s| ensures !DashTailAt(s, j) { assert s[j] in s; }
    }
  }

  lemma Step4(d: string)
    requires AllDigits(d) && |d| >= 10
    ensures DropDigitsAfterDash(d[..3] + "." + d[3..6] + "." + d[6..9] + "-" + d[9..])
            == d[..3] + "." + d[3..6] + "." + d[6..9] + "-" + d[9..if |d| < 11 then |d| else 11]
  {
    var s := d[..3] + "." + d[3..6] + "." + d[6..9] + "-" + d[9..];
    assert forall j :: 0 <= j < |s| && j != 11 ==> s[j] != '-' by {
      forall j | 0 <= j < |s| && j != 11 ensures s[j] != '-' {
        if j < 3 { assert s[j] == d[j]; }
        else if j == 3 || j == 7 { }
        else if j < 7 { assert s[j] == d[j - 1]; }
        else if j < 11 { assert s[j] == d[j - 2]; }
        else { assert s[j] == d[j - 3]; }
      }
    }
    if |d| >= 12 {
      assert s[12..] == d[9..];
      assert AllDigits(s[14..]) by { assert s[14..] == d[11..]; }
      assert DashTailAt(s, 11);
      var r := FirstDashTail(s, 0);
      assert r == Some(11);
      assert s[..14] == d[..3] + "." + d[3..6] + "." + d[6..9] + "-" + d[9..11];
    } else {
      assert forall j: nat :: !DashTailAt(s, j);
      assert d[9..] == d[9..|d|];
    }
  }

  lemma ChainUpToThree(d: string)
    requires AllDigits(d) && |d| < 4
    ensures Replacements(d) == CPFLayout(d)
  {
    Step1(d);
    assert FirstFourDigits(d, 0).None?;
    Step4NoDash(d);
  }

  lemma ChainUpToSix(d: string)
    requires AllDigits(d) && 4 <= |d| < 7
    ensures Replacements(d) == CPFLayout(d)
  {
    Step1(d);
    Step2(d);
    var s := d[..3] + "." + d[3..];
    assert forall j :: 0 <= j < |s| && j != 3 ==> IsDigit(s[j]) by {
      forall j | 0 <= j < |s| && j != 3 ensures IsDigit(s[j]) {
        if j < 3 { assert s[j] == d[j]; } else { assert s[j] == d[j - 1]; }
      }
    }
    assert forall j: nat :: !FourDigitsAt(s, j);
    assert '-' !in s;
    Step4NoDash(s);
  }

  lemma ChainUpToNine(d: string)
    requires AllDigits(d) && 7 <= |d| < 10
    ensures Replacements(d) == CPFLayout(d)
  {
    Step1(d);
    Step2(d);
    Step3(d);
    var s := d[..3] + "." + d[3..6] + "." + d[6..];
    assert forall j :: 0 <= j < |s| ==> s[j] != '-' by {
      forall j | 0 <= j < |s| ensures s[j] != '-' {
        if j < 3 { assert s[j] == d[j]; }
        else if j == 3 || j == 7 { }
        else if j < 7 { assert s[j] == d[j - 1]; }
        else { assert s[j] == d[j - 2]; }
      }
    }
    Step4NoDash(s);
  }

  lemma ChainFromTen(d: string)
    requires AllDigits(d) && |d| >= 10
    ensures Replacements(d) == CPFLayout(d)
  {
    Step1(d);
    Step2(d);
    Step3(d);
    Step4(d);
  }

  /** The formatting chain, as a layout of the input's digits by their count. */
  lemma FormatCPFLayout(cpf: string)
    ensures FormatCPF(cpf) == CPFLayout(Digits(cpf))
  {
    var d := Digits(cpf);
    if |d| < 4 {
      ChainUpToThree(d);
    } else if |d| < 7 {
      ChainUpToSix(d);
    } else if |d| < 10 {
      ChainUpToNine(d);
    } else {
      ChainFromTen(d);
    }
  }

  /** Dropping the non-digits skips a separator before a run of digits. */
  lemma DigitsSkipMark(a: string, c: char, b: string)
    requires !IsDigit(c) && AllDigits(b)
    ensures Digits(a + [c] + b) == Digits(a) + b
  {
    DigitsAppend(a + [c], b);
    DigitsAppend(a, [c]);
    DigitsEmpty([c]);
    DigitsOfDigits(b);
  }

  lemma LayoutDigitsTwoGroups(d: string)
    requires AllDigits(d) && 4 <= |d| <= 6
    ensures Digits(CPFLayout(d)) == d
  {
    DigitsOfDigits(d[..3]);
    DigitsSkipMark(d[..3], '.', d[3..]);
    assert d[..3] + d[3..] == d;
  }

  lemma LayoutDigitsThreeGroups(d: string)
    requires AllDigits(d) && 7 <= |d| <= 9
    ensures Digits(CPFLayout(d)) == d
  {
    DigitsOfDigits(d[..3]);
    DigitsSkipMark(d[..3], '.', d[3..6]);
    DigitsSkipMark(d[..3] + "." + d[3..6], '.', d[6..]);
    assert d[..3] + d[3..6] + d[6..] == d;
  }

  lemma LayoutDigitsFourGroups(d: string)
    requires AllDigits(d) && |d| >= 10
    ensures Digits(CPFLayout(d)) == d[..if |d| < 11 then |d| else 11]
  {
    var m := if |d| < 11 then |d| else 11;
    DigitsOfDigits(d[..3]);
    DigitsSkipMark(d[..3], '.', d[3..6]);
    DigitsSkipMark(d[..3] + "." + d[3..6], '.', d[6..9]);
    DigitsSkipMark(d[..3] + "." + d[3..6] + "." + d[6..9], '-', d[9..m]);
    assert d[..3] + d[3..6] + d[6..9] + d[9..m] == d[..m];
  }

  lemma LayoutDigits(d: string)
    requires AllDigits(d)
    ensures Digits(CPFLayout(d)) == d[..if |d| < 11 then |d| else 11]
  {
    if |d| <= 3 {
      DigitsOfDigits(d);
      assert d[..|d|] == d;
    } else if |d| <= 6 {
      LayoutDigitsTwoGroups(d);
      assert d[..|d|] == d;
    } else if |d| <= 9 {
      LayoutDigitsThreeGroups(d);
      assert d[..|d|] == d;
    } else {
      LayoutDigitsFourGroups(d);
    }
  }

  /** The digits of `formatCPF(x)` are the first (at most eleven) digits of `x`. */
  lemma FormatCPFDigits(cpf: string)
    ensures var d := Digits(cpf);
            Digits(FormatCPF(cpf)) == d[..if |d| < 11 then |d| else 11]
  {
    FormatCPFLayout(cpf);
    LayoutDigits(Digits(cpf));
  }

  /** An input with exactly eleven digits comes out as `DDD.DDD.DDD-DD`. */
  lemma FormatCPFEleven(cpf: string)
    requires |Digits(cpf)| == 11
    ensures var d := Digits(cpf);
            FormatCPF(cpf) == d[..3] + "." + d[3..6] + "." + d[6..9] + "-" + d[9..]
  {
    FormatCPFLayout(cpf);
  }

  /** An input with at most three digits comes back as its bare digits. */
  lemma FormatCPFShort(cpf: string)
    requires |Digits(cpf)| <= 3
    ensures FormatCPF(cpf) == Digits(cpf)
  {
    FormatCPFLayout(cpf);
  }

  /** Digits beyond the eleventh do not show in the layout. */
  lemma LayoutOfPrefix(d: string)
    ensures CPFLayout(d[..if |d| < 11 then |d| else 11]) == CPFLayout(d)
  {
    if |d| > 11 {
      var e := d[..11];
      assert e[..3] == d[..3] && e[3..6] == d[3..6] && e[6..9] == d[6..9] && e[9..11] == d[9..11];
    } else {
      assert d[..|d|] == d;
    }
  }

  /** Reformatting on every keystroke changes nothing once formatted. */
  lemma FormatCPFIdempotent(cpf: string)
    ensures FormatCPF(FormatCPF(cpf)) == FormatCPF(cpf)
  {
    FormatCPFDigits(cpf);
    FormatCPFLayout(FormatCPF(cpf));
    FormatCPFLayout(cpf);
    LayoutOfPrefix(Digits(cpf));
  }

  // ---------------------------------------------------------------- validateCPF

  /** `validateCPF`: exactly eleven digits once the non-digits are dropped. */
  function ValidateCPF(cpf: string): (ok: bool)
    ensures ok ==> |cpf| >= 11
    ensures AllDigits(cpf) ==> (ok <==> |cpf| == 11)
  {
    if AllDigits(cpf) then
      DigitsOfDigits(cpf);
      |Digits(cpf)| == 11
    else |Digits(cpf)| == 11
  }

  /** A formatted CPF is valid exactly when the raw input had at least eleven digits. */
  lemma ValidateFormattedCPF(cpf: string)
    ensures ValidateCPF(FormatCPF(cpf)) <==> |Digits(cpf)| >= 11
  {
    FormatCPFDigits(cpf);
  }

  // ---------------------------------------------------------------- validateEmail

  /** A character of the class `[^\s@]`. */
  predicate EmailChar(c: char) { !IsSpace(c) && c != '@' }

  /**
   * `validateEmail`: the pattern `^[^\s@]+@[^\s@]+\.[^\s@]+$` matches,
   * i.e. some `@` at `i` and some `.` at `j` split the text into three
   * non-empty runs of `[^\s@]` (the `.` itself is such a character).
   */
  predicate ValidateEmail(email: string)
  {
    exists i, j | 0 < i && i + 1 < j < |email| - 1 ::
      email[i] == '@' && email[j] == '.' &&
      forall k | 0 <= k < |email| && k != i :: EmailChar(email[k])
  }

  /** The dot that splits the domain is neither its first nor its last character. */
  predicate InnerDot(domain: string)
  {
    exists j | 0 < j < |domain| - 1 :: domain[j] == '.'
  }

  /**
   * Given where an `@` is, the pattern matches exactly when there is no
   * white space, that `@` is the only one and not the first character, and
   * the part after it has an inner dot.
   */
  lemma ValidateEmailIff(email: string, at: nat)
    requires at < |email| && email[at] == '@'
    ensures ValidateEmail(email) <==>
      (forall k :: 0 <= k < |email| ==> !IsSpace(email[k])) &&
      (forall k :: 0 <= k < |email| && k != at ==> email[k] != '@') &&
      0 < at && InnerDot(email[at + 1..])
  {
    var domain := email[at + 1..];
    if ValidateEmail(email) {
      var i, j :| 0 < i && i + 1 < j < |email| - 1 && email[i] == '@' && email[j] == '.' &&
        forall k | 0 <= k < |email| && k != i :: EmailChar(email[k]);
      assert domain[j - at - 1] == '.';
    }
    if (forall k :: 0 <= k < |email| ==> !IsSpace(email[k])) &&
       (forall k :: 0 <= k < |email| && k != at ==> email[k] != '@') &&
       0 < at && InnerDot(domain)
    {
      var j :| 0 < j < |domain| - 1 && domain[j] == '.';
      assert email[at + 1 + j] == '.';
    }
  }

  /** Without an `@` the pattern never matches. */
  lemma ValidateEmailNeedsAt(email: string)
    requires forall k :: 0 <= k < |email| ==> email[k] != '@'
    ensures !ValidateEmail(email)
  {
  }
}
