/** Python's `int()` as the backend applies it: to annotation strings and to
    the JSON value of the requested scale.  Only ASCII whitespace and ASCII
    digits are modelled; `str(n)` is given as the partner of the parser. */
module PyInt {
  import opened Wrappers

  predicate IsDigit(c: char) {
    '0' <= c <= '9'
  }

  /** The ASCII whitespace `int()` skips around a literal. */
  predicate IsSpace(c: char) {
    c == ' ' || c == '\t' || c == '\n' || c == '\r' || c == 11 as char || c == 12 as char
  }

  predicate AllDigits(s: string) {
    forall i :: 0 <= i < |s| ==> IsDigit(s[i])
  }

  /** The index of the first non-whitespace character at or after i. */
  function SkipSpaces(s: string, i: nat): (k: nat)
    requires i <= |s|
    decreases |s| - i
    ensures i <= k <= |s|
    ensures forall j :: i <= j < k ==> IsSpace(s[j])
    ensures k < |s| ==> !IsSpace(s[k])
  {
    if i < |s| && IsSpace(s[i]) then SkipSpaces(s, i + 1) else i
  }

  /** The index just past the last non-whitespace character before j. */
  function SkipSpacesBack(s: string, j: nat): (k: nat)
    requires j <= |s|
    ensures k <= j
    ensures forall i :: k <= i < j ==> IsSpace(s[i])
    ensures k > 0 ==> !IsSpace(s[k - 1])
  {
    if j > 0 && IsSpace(s[j - 1]) then SkipSpacesBack(s, j - 1) else j
  }

  function StripLeft(s: string): (t: string)
    ensures |t| <= |s| && t == s[|s| - |t|..]
    ensures |t| > 0 ==> !IsSpace(t[0])
    ensures forall i :: 0 <= i < |s| - |t| ==> IsSpace(s[i])
  {
    s[SkipSpaces(s, 0)..]
  }

  function StripRight(s: string): (t: string)
    ensures |t| <= |s| && t == s[..|t|]
    ensures |t| > 0 ==> !IsSpace(t[|t| - 1])
    ensures forall i :: |t| <= i < |s| ==> IsSpace(s[i])
  {
    s[..SkipSpacesBack(s, |s|)]
  }

  function Strip(s: string): string {
    StripRight(StripLeft(s))
  }

  predicate DigitsOrUnderscores(b: string) {
    forall i :: 0 <= i < |b| ==> IsDigit(b[i]) || b[i] == '_'
  }

  /** Digits with single underscores allowed between two digits. */
  predicate DigitGroups(b: string) {
    && |b| > 0
    && IsDigit(b[0])
    && IsDigit(b[|b| - 1])
    && DigitsOrUnderscores(b)
    && forall i :: 0 < i < |b| && b[i] == '_' ==> b[i - 1] != '_'
  }

  function DropUnderscores(b: string): (d: string)
    ensures |d| <= |b|
    ensures forall i :: 0 <= i < |d| ==> d[i] != '_'
  {
    if b == [] then []
    else if b[|b| - 1] == '_' then DropUnderscores(b[..|b| - 1])
    else DropUnderscores(b[..|b| - 1]) + [b[|b| - 1]]
  }

  function DigitValue(c: char): nat
    requires IsDigit(c)
  {
    (c - '0') as nat
  }

  /** Value of a decimal numeral, most significant digit first. */
  function DecimalValue(d: string): nat
    requires AllDigits(d)
  {
    if d == [] then 0 else DecimalValue(d[..|d| - 1]) * 10 + DigitValue(d[|d| - 1])
  }

  /** Value of digit groups once the underscores are dropped. */
  function GroupsValue(body: string): nat
    requires DigitGroups(body)
  {
    DropUnderscoresOfGroups(body);
    DecimalValue(DropUnderscores(body))
  }

  /** `int` on already stripped text: an optional sign, then digit groups. */
  function ParseStripped(t: string): (r: Option<int>)
    ensures r.Some? ==> |t| > 0 && (IsDigit(t[0]) || t[0] == '+' || t[0] == '-')
    ensures r.Some? ==> forall i :: 0 < i < |t| ==> IsDigit(t[i]) || t[i] == '_'
    ensures r.Some? ==> IsDigit(t[|t| - 1])
    ensures r.Some? && r.value < 0 ==> t[0] == '-'
  {
    if |t| > 0 && (t[0] == '+' || t[0] == '-') then
      if DigitGroups(t[1..]) then
        var v: int := GroupsValue(t[1..]);
        Some(if t[0] == '-' then -v else v)
      else None
    else if DigitGroups(t) then Some(GroupsValue(t))
    else None
  }

  /** `int(s)` for a string s: None where Python raises ValueError. */
  function ParseInt(s: string): (r: Option<int>)
    ensures r.Some? ==> Strip(s) != [] && IsDigit(Strip(s)[|Strip(s)| - 1])
    ensures r.Some? ==> forall i :: 0 < i < |Strip(s)| ==> IsDigit(Strip(s)[i]) || Strip(s)[i] == '_'
    ensures r.Some? && r.value < 0 ==> Strip(s)[0] == '-'
  {
    ParseStripped(Strip(s))
  }

  /** The text of the ValueError, with Python's repr simplified to
      single quotes. */
  function InvalidLiteralMessage(s: string): string {
    "invalid literal for int() with base 10: '" + s + "'"
  }

  // ---------------------------------------------------------------------
  // str(n), the partner of the parser

  function DigitChar(k: nat): (c: char)
    requires k < 10
    ensures IsDigit(c) && DigitValue(c) == k
  {
    ('0' as int + k) as char
  }

  function NatToString(n: nat): (s: string)
    ensures |s| > 0 && AllDigits(s)
    ensures |s| > 1 ==> s[0] != '0'
  {
    if n < 10 then [DigitChar(n)] else NatToString(n / 10) + [DigitChar(n % 10)]
  }

  function IntToString(n: int): string {
    if n < 0 then "-" + NatToString(-n) else NatToString(n)
  }

  lemma {:induction false} DecimalValueOfNatToString(n: nat)
    ensures DecimalValue(NatToString(n)) == n
  {
    if n >= 10 {
      var s := NatToString(n);
      assert s[..|s| - 1] == NatToString(n / 10);
      DecimalValueOfNatToString(n / 10);
    }
  }

  lemma {:induction false} DropUnderscoresOfGroups(b: string)
    requires DigitsOrUnderscores(b)
    ensures AllDigits(DropUnderscores(b))
  {
    if b != [] {
      DropUnderscoresOfGroups(b[..|b| - 1]);
    }
  }

  lemma {:induction false} DropUnderscoresOfDigits(d: string)
    requires AllDigits(d)
    ensures DropUnderscores(d) == d
  {
    if d != [] {
      DropUnderscoresOfDigits(d[..|d| - 1]);
    }
  }

  /** Text without whitespace at either end is left alone by strip(). */
  lemma StripUnpadded(s: string)
    requires |s| > 0 ==> !IsSpace(s[0]) && !IsSpace(s[|s| - 1])
    ensures Strip(s) == s
  {
    if |s| > 0 {
      assert SkipSpaces(s, 0) == 0;
      assert StripLeft(s) == s;
      assert SkipSpacesBack(s, |s|) == |s|;
    }
  }

  lemma GroupsValueOfNatToString(m: nat)
    ensures DigitGroups(NatToString(m))
    ensures GroupsValue(NatToString(m)) == m
  {
    DropUnderscoresOfDigits(NatToString(m));
    DecimalValueOfNatToString(m);
  }

  /** `int(str(n)) == n` for every integer n (this `int()` has no digit
      limit). */
  lemma ParseIntRoundTrip(n: int)
    ensures ParseInt(IntToString(n)) == Some(n)
  {
    var s := IntToString(n);
    var m: nat := if n < 0 then -n else n;
    assert !IsSpace(s[0]) && !IsSpace(s[|s| - 1]);
    StripUnpadded(s);
    GroupsValueOfNatToString(m);
    if n < 0 {
      assert s[1..] == NatToString(m);
    }
  }

  /** Surrounding whitespace is stripped: `int(" 7\n") == 7`. */
  lemma SurroundingSpaces()
    ensures ParseInt(" 7\n") == Some(7)
  {
    var s := " 7\n";
    assert IsSpace(s[0]) && !IsSpace(s[1]);
    assert SkipSpaces(s, 1) == 1;
    assert SkipSpaces(s, 0) == 1;
    assert StripLeft(s) == "7\n";
    var l := "7\n";
    assert IsSpace(l[1]) && !IsSpace(l[0]);
    assert SkipSpacesBack(l, 1) == 1;
    assert SkipSpacesBack(l, 2) == 1;
    assert StripRight(l) == "7";
    assert GroupsValue("7") == 7 by { assert "7"[..0] == []; }
  }

  /** Any character other than a digit, an underscore, a sign or
      whitespace makes `int()` raise: "1.5", "abc", "3x" are all rejected. */
  lemma ForeignCharRejected(s: string, i: nat)
    requires i < |s|
    requires !IsDigit(s[i]) && s[i] != '_' && s[i] != '+' && s[i] != '-' && !IsSpace(s[i])
    ensures ParseInt(s) == None
  {
    var l := StripLeft(s);
    var t := StripRight(l);
    var k := |s| - |l|;
    assert k <= i;
    assert l[i - k] == s[i];
    assert i - k < |t|;
    assert t[i - k] == s[i];
    if |t| > 0 && (t[0] == '+' || t[0] == '-') {
      assert t[1..][i - k - 1] == s[i];
    }
  }
}
