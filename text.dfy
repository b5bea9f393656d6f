/** String operations of the JavaScript runtime that the collection code relies on:
    `trim`, `toLowerCase`, `includes`, `Number.prototype.toString` on integers and
    `parseInt` with the default radix. */
module Text {

  /** The characters `String.prototype.trim` and `parseInt` skip: the ECMAScript
      WhiteSpace and LineTerminator productions. */
  predicate IsWhiteSpace(c: char) {
    || c == '\t' || c == '\n' || c == '\U{B}' || c == '\U{C}' || c == '\r' || c == ' '
    || c == '\U{A0}' || c == '\U{1680}' || ('\U{2000}' <= c <= '\U{200A}')
    || c == '\U{2028}' || c == '\U{2029}' || c == '\U{202F}' || c == '\U{205F}'
    || c == '\U{3000}' || c == '\U{FEFF}'
  }

  predicate AllWhiteSpace(s: string) {
    forall i :: 0 <= i < |s| ==> IsWhiteSpace(s[i])
  }

  /** Drops leading white space: the result is the suffix of `s` that starts at its
      first non-white-space character. */
  function TrimStart(s: string): (r: string)
    ensures |r| <= |s| && r == s[|s| - |r|..]
    ensures AllWhiteSpace(s[..|s| - |r|])
    ensures r == [] || !IsWhiteSpace(r[0])
  {
    if s != [] && IsWhiteSpace(s[0]) then
      var r := TrimStart(s[1..]);
      assert s[..|s| - |r|] == [s[0]] + s[1..][..|s| - 1 - |r|];
      r
    else
      s
  }

  /** Drops trailing white space: the result is the prefix of `s` that ends at its
      last non-white-space character. */
  function TrimEnd(s: string): (r: string)
    ensures |r| <= |s| && r == s[..|r|]
    ensures AllWhiteSpace(s[|r|..])
    ensures r == [] || !IsWhiteSpace(r[|r| - 1])
  {
    if s != [] && IsWhiteSpace(s[|s| - 1]) then
      var r := TrimEnd(s[..|s| - 1]);
      assert s[|r|..] == s[..|s| - 1][|r|..] + [s[|s| - 1]];
      r
    else
      s
  }

  /** `String.prototype.trim`. */
  function Trim(s: string): string {
    TrimEnd(TrimStart(s))
  }

  /** `trim` removes exactly a run of white space at each end of `s` and keeps a core
      that neither starts nor ends with white space. */
  lemma TrimIsCore(s: string)
    ensures var r := Trim(s);
      && (r == [] || (!IsWhiteSpace(r[0]) && !IsWhiteSpace(r[|r| - 1])))
      && exists i :: 0 <= i <= |s| - |r| && r == s[i..i + |r|]
           && AllWhiteSpace(s[..i]) && AllWhiteSpace(s[i + |r|..])
  {
    TrimEdges(s);
    var i := TrimCoreStart(s);
  }

  /** What `trim` keeps neither starts nor ends with white space. */
  lemma TrimEdges(s: string)
    ensures var r := Trim(s); r == [] || (!IsWhiteSpace(r[0]) && !IsWhiteSpace(r[|r| - 1]))
  {
    var t := TrimStart(s);
    var r := TrimEnd(t);
    if r != [] {
      assert r[0] == t[0];
    }
  }

  /** Where the core that `trim` keeps starts in `s`. */
  lemma TrimCoreStart(s: string) returns (i: nat)
    ensures var r := Trim(s);
      && i <= |s| - |r| && r == s[i..i + |r|]
      && AllWhiteSpace(s[..i]) && AllWhiteSpace(s[i + |r|..])
  {
    var t := TrimStart(s);
    var r := TrimEnd(t);
    assert CoreShape(s, t, r);
    i := CoreInside(s, t, r);
  }

  /** `r` is a prefix of the suffix `t` of `s`, and what lies around `r` is white space. */
  predicate CoreShape(s: string, t: string, r: string) {
    && |t| <= |s| && t == s[|s| - |t|..] && AllWhiteSpace(s[..|s| - |t|])
    && |r| <= |t| && r == t[..|r|] && AllWhiteSpace(t[|r|..])
  }

  /** A prefix `r` of a suffix `t` of `s`, with white space on both sides of it. */
  lemma CoreInside(s: string, t: string, r: string) returns (i: nat)
    requires CoreShape(s, t, r)
    ensures i == |s| - |t| && r == s[i..i + |r|]
    ensures AllWhiteSpace(s[..i]) && AllWhiteSpace(s[i + |r|..])
  {
    i := |s| - |t|;
    PrefixOfSuffix(s, i, |r|);
    SuffixOfWhiteSpace(t, |r|, s, i + |r|);
  }

  lemma PrefixOfSuffix(s: string, i: nat, n: nat)
    requires i + n <= |s|
    ensures s[i..][..n] == s[i..i + n]
  {
  }

  /** `s[k..]` is `t[j..]` when `t` is the suffix of `s` that starts at `k - j`. */
  lemma SuffixOfWhiteSpace(t: string, j: nat, s: string, k: nat)
    requires j <= |t| && j <= k <= |s| && t == s[k - j..]
    requires AllWhiteSpace(t[j..])
    ensures AllWhiteSpace(s[k..])
  {
    assert s[k..] == t[j..];
  }

  /** `trim` yields the empty string exactly when the input is all white space. */
  lemma TrimEmptyIff(s: string)
    ensures Trim(s) == [] <==> AllWhiteSpace(s)
  {
    var t := TrimStart(s);
    assert s == s[..|s| - |t|] + t;
    if t != [] {
      assert t[0] == s[|s| - |t|];
      TrimEndOfNonWhiteStart(t);
    }
  }

  lemma TrimEndOfNonWhiteStart(t: string)
    requires t != [] && !IsWhiteSpace(t[0])
    ensures TrimEnd(t) != []
  {
    var r := TrimEnd(t);
    if |r| < |t| {
      assert t[|r|..][0] == t[|r|];
    }
  }

  /** A string with no white space at either end is left unchanged. */
  lemma TrimOfTrimmed(s: string)
    requires s == [] || (!IsWhiteSpace(s[0]) && !IsWhiteSpace(s[|s| - 1]))
    ensures Trim(s) == s
  {
  }

  /** Trimming the end keeps every character up to a non-white-space one. */
  lemma TrimEndKeeps(s: string, i: int)
    requires 0 <= i < |s| && !IsWhiteSpace(s[i])
    ensures |TrimEnd(s)| > i
  {
    var r := TrimEnd(s);
    forall j | |r| <= j < |s|
      ensures IsWhiteSpace(s[j])
    {
      assert s[|r|..][j - |r|] == s[j];
    }
  }

  /** Trimming twice is trimming once. */
  lemma TrimIdempotent(s: string)
    ensures Trim(Trim(s)) == Trim(s)
  {
    TrimEdges(s);
    TrimOfTrimmed(Trim(s));
  }

  /** `toLowerCase` on the ASCII letters; every other character is kept. */
  function LowerChar(c: char): char {
    if 'A' <= c <= 'Z' then (c as int + 32) as char else c
  }

  function ToLower(s: string): (r: string)
    ensures |r| == |s|
    ensures forall i :: 0 <= i < |s| ==> r[i] == LowerChar(s[i])
  {
    if s == [] then [] else [LowerChar(s[0])] + ToLower(s[1..])
  }

  lemma ToLowerIdempotent(s: string)
    ensures ToLower(ToLower(s)) == ToLower(s)
  {
  }

  predicate StartsWith(s: string, prefix: string) {
    |prefix| <= |s| && s[..|prefix|] == prefix
  }

  /** `String.prototype.includes`: `needle` occurs in `s` starting at some position. */
  predicate Includes(s: string, needle: string)
    decreases |s|
  {
    StartsWith(s, needle) || (s != [] && Includes(s[1..], needle))
  }

  /** `needle` is the slice of `s` that starts at index `i`. */
  predicate OccursAt(s: string, needle: string, i: int) {
    0 <= i <= |s| - |needle| && s[i..i + |needle|] == needle
  }

  /** `Includes` holds exactly when `needle` is the slice of `s` at some index. */
  lemma {:induction false} IncludesAt(s: string, needle: string)
    ensures Includes(s, needle) <==> exists i :: OccursAt(s, needle, i)
    decreases |s|
  {
    if StartsWith(s, needle) {
      assert OccursAt(s, needle, 0);
    } else if s == [] {
    } else {
      IncludesAt(s[1..], needle);
      if exists i :: OccursAt(s, needle, i) {
        var i :| OccursAt(s, needle, i);
        assert i != 0;
        assert s[1..][i - 1..i - 1 + |needle|] == needle;
        assert OccursAt(s[1..], needle, i - 1);
      }
      if Includes(s[1..], needle) {
        var j :| OccursAt(s[1..], needle, j);
        assert s[j + 1..j + 1 + |needle|] == needle;
        assert OccursAt(s, needle, j + 1);
      }
    }
  }

  /** The empty string occurs in every string. */
  lemma IncludesEmpty(s: string)
    ensures Includes(s, "")
  {
  }

  predicate IsDigit(c: char) {
    '0' <= c <= '9'
  }

  predicate AllDigits(s: string) {
    forall i :: 0 <= i < |s| ==> IsDigit(s[i])
  }

  function DigitChar(d: nat): (c: char)
    requires d < 10
    ensures IsDigit(c)
  {
    ('0' as int + d) as char
  }

  function DigitValue(c: char): (d: nat)
    requires IsDigit(c)
    ensures d < 10 && DigitChar(d) == c
  {
    c as int - '0' as int
  }

  /** The value of a run of decimal digits, most significant first. */
  function DigitsValue(s: string): nat
    requires AllDigits(s)
  {
    if s == [] then 0 else DigitsValue(s[..|s| - 1]) * 10 + DigitValue(s[|s| - 1])
  }

  /** The decimal digits of `n` with no leading zero. */
  function NatToString(n: nat): (r: string)
    ensures |r| > 0 && AllDigits(r)
    ensures r[0] == '0' ==> n == 0
  {
    if n < 10 then [DigitChar(n)] else NatToString(n / 10) + [DigitChar(n % 10)]
  }

  /** `Number.prototype.toString` on an integer value. */
  function IntToString(n: int): (r: string)
    ensures |r| > 0
  {
    if n < 0 then "-" + NatToString(-n) else NatToString(n)
  }

  lemma {:induction false} DigitsValueOfNatToString(n: nat)
    ensures DigitsValue(NatToString(n)) == n
  {
    if n >= 10 {
      DigitsValueOfNatToString(n / 10);
      var r := NatToString(n);
      assert r[..|r| - 1] == NatToString(n / 10);
    }
  }

  /** The longest prefix of `s` made of decimal digits. */
  function LeadingDigits(s: string): (r: string)
    ensures |r| <= |s| && r == s[..|r|] && AllDigits(r)
    ensures |r| == |s| || !IsDigit(s[|r|])
  {
    if s != [] && IsDigit(s[0]) then
      var r := LeadingDigits(s[1..]);
      assert [s[0]] + r == s[..|r| + 1];
      [s[0]] + r
    else
      []
  }

  /** The result of `parseInt`: a number, or NaN when no digit follows the sign. */
  datatype ParsedInt = NaN | Int(value: int)

  /** `parseInt(s)` with the default radix on a string without a `0x` prefix: skip
      leading white space, read an optional sign, then the longest run of digits. */
  function ParseInt(s: string): ParsedInt {
    var t := TrimStart(s);
    if t != [] && t[0] == '-' then Negate(ParseDigits(t[1..]))
    else if t != [] && t[0] == '+' then ParseDigits(t[1..])
    else ParseDigits(t)
  }

  function ParseDigits(t: string): ParsedInt {
    var d := LeadingDigits(t);
    if d == [] then NaN else Int(DigitsValue(d))
  }

  function Negate(p: ParsedInt): ParsedInt {
    match p
    case NaN => NaN
    case Int(v) => Int(-v)
  }

  /** `parseInt` reads back what `toString` wrote for every integer. */
  lemma ParseIntOfIntToString(n: int)
    ensures ParseInt(IntToString(n)) == Int(n)
  {
    if n < 0 {
      var m: nat := -n;
      assert IntToString(n) == "-" + NatToString(m);
      ParseIntOfNegative(m);
      assert -(m as int) == n;
    } else {
      ParseIntOfNonNegative(n);
    }
  }

  lemma ParseIntOfNegative(m: nat)
    requires m > 0
    ensures ParseInt("-" + NatToString(m)) == Int(-(m as int))
  {
    var s := "-" + NatToString(m);
    ParseDigitsOfNatToString(m);
    assert s[1..] == NatToString(m);
    TrimStartOfNonWhite(s);
  }

  lemma ParseIntOfNonNegative(m: nat)
    ensures ParseInt(NatToString(m)) == Int(m)
  {
    var d := NatToString(m);
    ParseDigitsOfNatToString(m);
    assert IsDigit(d[0]);
    TrimStartOfNonWhite(d);
  }

  lemma ParseDigitsOfNatToString(m: nat)
    ensures ParseDigits(NatToString(m)) == Int(m)
  {
    DigitsValueOfNatToString(m);
    LeadingDigitsOfDigits(NatToString(m));
  }

  lemma TrimStartOfNonWhite(s: string)
    requires s != [] && !IsWhiteSpace(s[0])
    ensures TrimStart(s) == s
  {
  }

  lemma LeadingDigitsOfDigits(d: string)
    requires AllDigits(d)
    ensures LeadingDigits(d) == d
  {
  }

  /** The text before the first space (the whole string when there is none). */
  function FirstWord(s: string): (r: string)
    ensures |r| <= |s| && r == s[..|r|] && ' ' !in r
    ensures |r| == |s| || s[|r|] == ' '
  {
    if s == [] || s[0] == ' ' then [] else
      var r := FirstWord(s[1..]);
      assert [s[0]] + r == s[..|r| + 1];
      [s[0]] + r
  }

  /** The first word of words joined by a space is the first of them. */
  lemma {:induction false} FirstWordOfJoin(w: string, rest: string)
    requires ' ' !in w
    ensures FirstWord(w + " " + rest) == w
  {
    if w != [] {
      assert (w + " " + rest)[1..] == w[1..] + " " + rest;
      FirstWordOfJoin(w[1..], rest);
    }
  }
}
