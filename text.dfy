/**
 * The string operations the app relies on: decimal rendering of integers in
 * template literals, `String.prototype.trim`, and `[a, b].filter(n => n).join(sep)`.
 */
module Text {
  import opened Wrappers

  predicate IsDigit(c: char) { '0' <= c <= '9' }

  predicate AllDigits(s: string) { forall i :: 0 <= i < |s| ==> IsDigit(s[i]) }

  function DigitChar(d: nat): (c: char)
    requires d < 10
    ensures IsDigit(c) && c as int - '0' as int == d
  {
    ('0' as int + d) as char
  }

  function DigitValue(c: char): (d: nat)
    requires IsDigit(c)
    ensures d < 10 && DigitChar(d) == c
  {
    c as int - '0' as int
  }

  /** Decimal rendering of a non-negative integer, as `${n}` prints it. */
  function NatToString(n: nat): (s: string)
    ensures |s| >= 1 && AllDigits(s)
    ensures s[0] == '0' ==> s == "0"
  {
    if n < 10 then [DigitChar(n)] else NatToString(n / 10) + [DigitChar(n % 10)]
  }

  /** Decimal rendering of any integer, with a leading minus sign when negative. */
  function IntToString(i: int): (s: string)
    ensures |s| >= 1
    ensures i >= 0 ==> AllDigits(s)
    ensures i < 0 ==> s[0] == '-' && AllDigits(s[1..])
  {
    if i < 0 then "-" + NatToString(-i) else NatToString(i)
  }

  /** The value of a string of decimal digits. */
  function ParseNat(s: string): nat
    requires AllDigits(s)
  {
    if |s| == 0 then 0 else 10 * ParseNat(s[..|s| - 1]) + DigitValue(s[|s| - 1])
  }

  /** Reading back the rendering of `n` gives `n`. */
  lemma {:induction false} ParseNatToString(n: nat)
    ensures ParseNat(NatToString(n)) == n
  {
    var s := NatToString(n);
    if n >= 10 {
      ParseNatToString(n / 10);
      assert s[..|s| - 1] == NatToString(n / 10);
    }
  }

  /** Distinct naturals are rendered as distinct strings. */
  lemma NatToStringInjective(a: nat, b: nat)
    requires NatToString(a) == NatToString(b)
    ensures a == b
  {
    ParseNatToString(a);
    ParseNatToString(b);
  }

  /** The rendering starts with a minus sign exactly for negative integers. */
  lemma IntToStringSign(i: int)
    ensures IntToString(i)[0] == '-' <==> i < 0
  {
    if i >= 0 {
      assert IsDigit(IntToString(i)[0]);
    }
  }

  /** Distinct integers are rendered as distinct strings. */
  lemma {:induction false} IntToStringInjective(a: int, b: int)
    requires IntToString(a) == IntToString(b)
    ensures a == b
  {
    IntToStringSign(a);
    IntToStringSign(b);
    if a < 0 {
      assert IntToString(a)[1..] == NatToString(-a);
      assert IntToString(b)[1..] == NatToString(-b);
      NatToStringInjective(-a, -b);
    } else {
      NatToStringInjective(a, b);
    }
  }

  /**
   * The characters `String.prototype.trim` strips: tab, vertical tab, form
   * feed, the byte order mark, every space separator (U+0020, U+00A0, U+1680,
   * U+2000 to U+200A, U+202F, U+205F, U+3000) and the line terminators.
   */
  predicate IsSpace(c: char)
  {
    c == ' ' || c == '\t' || c == '\n' || c == '\r' || c == '\U{B}' || c == '\U{C}'
    || c == '\U{A0}' || c == '\U{FEFF}' || c == '\U{2028}' || c == '\U{2029}'
    || c == '\U{1680}' || ('\U{2000}' <= c <= '\U{200A}') || c == '\U{202F}' || c == '\U{205F}' || c == '\U{3000}'
  }

  predicate AllSpace(s: string) { forall i :: 0 <= i < |s| ==> IsSpace(s[i]) }

  /** The number of white-space characters at the start of `s`. */
  function LeadingSpace(s: string): (k: nat)
    ensures k <= |s| && AllSpace(s[..k])
    ensures k < |s| ==> !IsSpace(s[k])
  {
    if |s| > 0 && IsSpace(s[0]) then
      var k := LeadingSpace(s[1..]);
      assert s[..k + 1] == [s[0]] + s[1..][..k];
      k + 1
    else 0
  }

  /** The length of `s` without its trailing white space. */
  function ContentEnd(s: string): (k: nat)
    ensures k <= |s| && AllSpace(s[k..])
    ensures k > 0 ==> !IsSpace(s[k - 1])
  {
    if |s| > 0 && IsSpace(s[|s| - 1]) then
      var k := ContentEnd(s[..|s| - 1]);
      assert s[k..] == s[..|s| - 1][k..] + [s[|s| - 1]];
      k
    else |s|
  }

  /** `s.trim()`: leading and trailing white space removed, nothing else. */
  function Trim(s: string): (r: string)
    ensures exists i, j :: 0 <= i <= j <= |s| && r == s[i..j] && AllSpace(s[..i]) && AllSpace(s[j..])
    ensures r == [] || (!IsSpace(r[0]) && !IsSpace(r[|r| - 1]))
  {
    var i := LeadingSpace(s);
    var t := s[i..];
    var k := ContentEnd(t);
    assert t[k..] == s[i + k..];
    assert t[..k] == s[i..i + k];
    s[i..i + k]
  }

  /** A string that trims to nothing is made only of white space. */
  lemma TrimEmptyIffAllSpace(s: string)
    ensures Trim(s) == [] <==> AllSpace(s)
  {
    if Trim(s) == [] {
      var i, j :| 0 <= i <= j <= |s| && [] == s[i..j] && AllSpace(s[..i]) && AllSpace(s[j..]);
      forall p | 0 <= p < |s| ensures IsSpace(s[p]) {
        if p < i { assert s[p] == s[..i][p]; } else { assert s[p] == s[j..][p - j]; }
      }
    }
  }

  /** `[a, b].filter(n => n).join(sep)`: the non-empty parts joined by the separator. */
  function JoinPresent(a: string, b: string, sep: string): (r: string)
    ensures a == [] && b == [] ==> r == []
    ensures a != [] && b == [] ==> r == a
    ensures a == [] && b != [] ==> r == b
    ensures a != [] && b != [] ==> r == a + sep + b
  {
    if a != [] && b != [] then a + sep + b else a + b
  }

  /** Trimming a trimmed string changes nothing. */
  lemma TrimIdempotent(s: string)
    ensures Trim(Trim(s)) == Trim(s)
  {
    var r := Trim(s);
    assert LeadingSpace(r) == 0;
    assert ContentEnd(r) == |r|;
    assert r[0..|r|] == r;
  }

  /**
   * The inline rename of a list or topic: the trimmed text, when it is not
   * empty and differs from the current name.
   */
  function EditedName(edit: string, current: string): (r: Option<string>)
    ensures r.None? <==> Trim(edit) == [] || Trim(edit) == current
    ensures r.Some? ==> r.value == Trim(edit)
  {
    var value := Trim(edit);
    if value != [] && value != current then Some(value) else None
  }

  /** Text made only of space separators, such as a full-width space, is blank: no name is saved. */
  lemma BlankSeparatorsSaveNothing(current: string)
    ensures EditedName("\U{3000}", current).None?
    ensures EditedName("\U{1680}\U{2000}\U{200A}\U{202F}\U{205F}", current).None?
  {
    TrimEmptyIffAllSpace("\U{3000}");
    TrimEmptyIffAllSpace("\U{1680}\U{2000}\U{200A}\U{202F}\U{205F}");
  }

  /** Editing a name into the one a rename just stored renames nothing. */
  lemma EditedNameSettles(edit: string, current: string)
    requires EditedName(edit, current).Some?
    ensures EditedName(EditedName(edit, current).value, EditedName(edit, current).value).None?
    ensures EditedName(edit, EditedName(edit, current).value).None?
  {
    TrimIdempotent(edit);
  }
}
