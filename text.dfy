/**
 * The few Python string operations the argument builders use:
 * `str.strip()`, `str.upper()` (ASCII letters only) and `str(int)`.
 */
module Text {

  /** Python's `str.isspace()` for one character. */
  predicate IsSpace(c: char) {
    ('\U{9}' <= c <= '\U{D}') || ('\U{1C}' <= c <= '\U{20}') || c == '\U{85}' || c == '\U{A0}' ||
    c == '\U{1680}' || ('\U{2000}' <= c <= '\U{200A}') || c == '\U{2028}' || c == '\U{2029}' ||
    c == '\U{202F}' || c == '\U{205F}' || c == '\U{3000}'
  }

  predicate AllSpace(s: string) {
    forall i :: 0 <= i < |s| ==> IsSpace(s[i])
  }

  /** Neither end of `s` is whitespace. */
  predicate Stripped(s: string) {
    s == [] || (!IsSpace(s[0]) && !IsSpace(s[|s| - 1]))
  }

  /** Python's truthiness of an optional string argument: present and non-empty. */
  predicate Truthy(s: string) {
    s != []
  }

  /** `s` without its leading whitespace. */
  function TrimLeft(s: string): string {
    if s != [] && IsSpace(s[0]) then TrimLeft(s[1..]) else s
  }

  /** `s` without its trailing whitespace. */
  function TrimRight(s: string): string {
    if s != [] && IsSpace(s[|s| - 1]) then TrimRight(s[..|s| - 1]) else s
  }

  /** Python's `s.strip()`. */
  function Strip(s: string): string {
    TrimRight(TrimLeft(s))
  }

  lemma AllSpaceCons(c: char, s: string)
    requires IsSpace(c) && AllSpace(s)
    ensures AllSpace([c] + s)
  {
    forall k | 0 < k < |[c] + s|
      ensures IsSpace(([c] + s)[k])
    {
      assert ([c] + s)[k] == s[k - 1];
    }
  }

  lemma AllSpaceSnoc(s: string, c: char)
    requires AllSpace(s) && IsSpace(c)
    ensures AllSpace(s + [c])
  {
    forall k | 0 <= k < |s|
      ensures IsSpace((s + [c])[k])
    {
      assert (s + [c])[k] == s[k];
    }
  }

  lemma {:induction false} TrimLeftShape(s: string)
    ensures var r := TrimLeft(s);
      && |r| <= |s| && r == s[|s| - |r|..] && AllSpace(s[..|s| - |r|]) && (r == [] || !IsSpace(r[0]))
  {
    if s != [] && IsSpace(s[0]) {
      var t := s[1..];
      TrimLeftShape(t);
      var r := TrimLeft(t);
      assert TrimLeft(s) == r;
      assert t[|t| - |r|..] == s[|s| - |r|..];
      assert s[..|s| - |r|] == [s[0]] + t[..|t| - |r|];
      AllSpaceCons(s[0], t[..|t| - |r|]);
    } else {
      assert s[..0] == [] && s[0..] == s;
    }
  }

  lemma {:induction false} TrimRightShape(s: string)
    ensures var r := TrimRight(s);
      && |r| <= |s| && r == s[..|r|] && AllSpace(s[|r|..]) && (r == [] || !IsSpace(r[|r| - 1]))
  {
    if s != [] && IsSpace(s[|s| - 1]) {
      var t := s[..|s| - 1];
      TrimRightShape(t);
      var r := TrimRight(t);
      assert TrimRight(s) == r;
      assert t[..|r|] == s[..|r|];
      assert s[|r|..] == t[|r|..] + [s[|s| - 1]];
      AllSpaceSnoc(t[|r|..], s[|s| - 1]);
    } else {
      assert s[|s|..] == [];
    }
  }

  /**
   * What `strip()` returns: `s` is some whitespace, then the result, then some
   * more whitespace, and the result starts and ends with a non-space.
   */
  lemma StripShape(s: string)
    ensures var r := Strip(s);
      && Stripped(r) && |r| <= |s|
      && exists i :: 0 <= i <= |s| - |r| && s[i..i + |r|] == r && AllSpace(s[..i]) && AllSpace(s[i + |r|..])
  {
    var left := TrimLeft(s);
    TrimLeftShape(s);
    TrimRightShape(left);
    var r := TrimRight(left);
    var i := |s| - |left|;
    assert s[i..i + |r|] == r;
    assert s[i + |r|..] == left[|r|..];
    assert r != [] ==> r[0] == left[0];
  }

  /** Stripping twice is stripping once. */
  lemma StripIdempotent(s: string)
    ensures Strip(Strip(s)) == Strip(s)
  {
    StripShape(s);
    StrippedIsFixed(Strip(s));
  }

  /** A string without surrounding whitespace is left unchanged by `strip()`. */
  lemma StrippedIsFixed(s: string)
    requires Stripped(s)
    ensures Strip(s) == s
  {
    assert TrimLeft(s) == s;
    assert TrimRight(s) == s;
  }

  /** Python's `str.upper()` restricted to ASCII letters. */
  function UpperChar(c: char): char {
    if 'a' <= c <= 'z' then (c as int - 'a' as int + 'A' as int) as char else c
  }

  function Upper(s: string): string {
    if s == [] then [] else [UpperChar(s[0])] + Upper(s[1..])
  }

  /** `upper()` keeps the length and maps every character on its own. */
  lemma {:induction false} UpperShape(s: string)
    ensures |Upper(s)| == |s|
    ensures forall i :: 0 <= i < |s| ==> Upper(s)[i] == UpperChar(s[i])
  {
    if s != [] {
      UpperShape(s[1..]);
    }
  }

  function DigitChar(d: nat): char
    requires d < 10
  {
    "0123456789"[d]
  }

  function NatToString(n: nat): (r: string)
    ensures r != []
    decreases n
  {
    if n < 10 then [DigitChar(n)] else NatToString(n / 10) + [DigitChar(n % 10)]
  }

  /** Python's `str(n)` for an integer. */
  function IntToString(n: int): (r: string)
    ensures r != []
  {
    if n < 0 then "-" + NatToString(-n) else NatToString(n)
  }

  /** The default points value of assignments and quizzes, as text. */
  lemma TenAsText()
    ensures IntToString(10) == "10"
  {
    assert DigitChar(1) == '1' && DigitChar(0) == '0';
    assert NatToString(1) == "1";
  }
}
