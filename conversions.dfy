/** The .NET text conversions the extractor relies on, written out:
    Int32.Parse / Convert.ToInt32(string) (invariant culture, NumberStyles.Integer),
    Int32.ToString, Convert.ToBoolean(string), String.ToLower on ASCII letters and
    String.Replace(pattern, ""). */
module Conversions {
  import opened Wrappers

  const Int32Min: int := -0x8000_0000
  const Int32Max: int := 0x7FFF_FFFF

  predicate InInt32(n: int) {
    Int32Min <= n <= Int32Max
  }

  /** The white space NumberStyles.Integer skips: U+0009 to U+000D and U+0020. */
  predicate IsWhite(c: char) {
    c == ' ' || '\t' <= c <= '\r'
  }

  /** Char.IsWhiteSpace: the white space above, U+0085, and the space, line and paragraph
      separators of the Unicode character database. */
  predicate IsUnicodeWhite(c: char) {
    || IsWhite(c) || c == '\U{0085}' || c == '\U{00A0}' || c == '\U{1680}'
    || '\U{2000}' <= c <= '\U{200A}' || c == '\U{2028}' || c == '\U{2029}'
    || c == '\U{202F}' || c == '\U{205F}' || c == '\U{3000}'
  }

  /** What a trim removes: the white space of NumberStyles.Integer; the white space and
      NUL characters Boolean.Parse removes (TrimWhiteSpaceAndNull); or the NUL characters
      Int32.Parse accepts after a number. */
  datatype Padding = NumberWhite | WhiteOrNul | Nul

  predicate IsPad(pad: Padding, c: char) {
    match pad
    case NumberWhite => IsWhite(c)
    case WhiteOrNul => IsUnicodeWhite(c) || c == '\0'
    case Nul => c == '\0'
  }

  predicate IsDigit(c: char) {
    '0' <= c <= '9'
  }

  predicate AllDigits(s: string) {
    forall i :: 0 <= i < |s| ==> IsDigit(s[i])
  }

  function TrimStart(s: string, pad: Padding): string {
    if s != [] && IsPad(pad, s[0]) then TrimStart(s[1..], pad) else s
  }

  function TrimEnd(s: string, pad: Padding): string {
    if s != [] && IsPad(pad, s[|s| - 1]) then TrimEnd(s[..|s| - 1], pad) else s
  }

  /** TrimStart drops exactly the padding at the front. */
  lemma {:induction false} TrimStartDropsWhite(s: string, pad: Padding)
    ensures |TrimStart(s, pad)| <= |s| && TrimStart(s, pad) == s[|s| - |TrimStart(s, pad)|..]
    ensures TrimStart(s, pad) == [] || !IsPad(pad, TrimStart(s, pad)[0])
    ensures forall i :: 0 <= i < |s| - |TrimStart(s, pad)| ==> IsPad(pad, s[i])
  {
    if s != [] && IsPad(pad, s[0]) {
      TrimStartDropsWhite(s[1..], pad);
    }
  }

  /** TrimEnd drops exactly the padding at the back. */
  lemma {:induction false} TrimEndDropsWhite(s: string, pad: Padding)
    ensures |TrimEnd(s, pad)| <= |s| && TrimEnd(s, pad) == s[..|TrimEnd(s, pad)|]
    ensures TrimEnd(s, pad) == [] || !IsPad(pad, TrimEnd(s, pad)[|TrimEnd(s, pad)| - 1])
    ensures forall i :: |TrimEnd(s, pad)| <= i < |s| ==> IsPad(pad, s[i])
  {
    if s != [] && IsPad(pad, s[|s| - 1]) {
      TrimEndDropsWhite(s[..|s| - 1], pad);
    }
  }

  /** String.Trim for the padding given. */
  function Trim(s: string, pad: Padding): string {
    TrimEnd(TrimStart(s, pad), pad)
  }

  /** Text with no padding at either end is its own trim. */
  lemma TrimUnpadded(s: string, pad: Padding)
    requires s == [] || (!IsPad(pad, s[0]) && !IsPad(pad, s[|s| - 1]))
    ensures Trim(s, pad) == s
  {
  }

  /** The value of a string of decimal digits, most significant first. */
  function DigitsValue(s: string): (n: nat)
    requires AllDigits(s)
  {
    if s == [] then 0 else 10 * DigitsValue(s[..|s| - 1]) + (s[|s| - 1] - '0') as int
  }

  /** Int32.Parse: optional white space, an optional sign, at least one decimal digit,
      optional white space, then nothing but NUL characters; a value outside 32 bits is an
      overflow. */
  function ParseInt32(s: string): (r: Result<int>)
    ensures r.Ok? ==> InInt32(r.value)
  {
    var t := Trim(TrimEnd(s, Nul), NumberWhite);
    var negative := t != [] && t[0] == '-';
    var digits := if t != [] && (t[0] == '-' || t[0] == '+') then t[1..] else t;
    if digits == [] || !AllDigits(digits) then Err(Format(s))
    else
      var n: int := if negative then -(DigitsValue(digits) as int) else DigitsValue(digits);
      if InInt32(n) then Ok(n) else Err(Overflow(s))
  }

  function DigitChar(d: nat): (c: char)
    requires d < 10
    ensures IsDigit(c) && (c - '0') as int == d
  {
    ('0' as int + d) as char
  }

  /** The decimal digits of a natural number, without leading zeros. */
  function NatToString(n: nat): (s: string)
    ensures s != [] && AllDigits(s)
  {
    if n < 10 then [DigitChar(n)] else NatToString(n / 10) + [DigitChar(n % 10)]
  }

  /** Int32.ToString in the invariant culture. */
  function IntToString(n: int): (s: string)
    ensures s != [] && !IsWhite(s[0]) && IsDigit(s[|s| - 1])
    ensures s[0] != '+'
  {
    if n < 0 then "-" + NatToString(-n) else NatToString(n)
  }

  lemma {:induction false} NatToStringValue(n: nat)
    ensures DigitsValue(NatToString(n)) == n
  {
    if n >= 10 {
      var s := NatToString(n);
      NatToStringValue(n / 10);
      assert s[..|s| - 1] == NatToString(n / 10);
    }
  }

  /** Parsing what Int32.ToString printed gives the number back. */
  lemma ParseIntToString(n: int)
    requires InInt32(n)
    ensures ParseInt32(IntToString(n)) == Ok(n)
  {
    var s := IntToString(n);
    IntTextUnpadded(n);
    if n < 0 {
      NatToStringValue(-n);
      assert s[0] == '-' && s[1..] == NatToString(-n);
    } else {
      NatToStringValue(n);
      assert s[0] != '-' && s[0] != '+';
    }
  }

  /** The text Int32.ToString prints has no padding for Int32.Parse to trim. */
  lemma IntTextUnpadded(n: int)
    ensures Trim(TrimEnd(IntToString(n), Nul), NumberWhite) == IntToString(n)
  {
    var s := IntToString(n);
    assert !IsPad(Nul, s[|s| - 1]);
    assert TrimEnd(s, Nul) == s;
    assert !IsPad(NumberWhite, s[0]) && !IsPad(NumberWhite, s[|s| - 1]);
    TrimUnpadded(s, NumberWhite);
  }

  /** Convert.ToBoolean(string): "True" or "False" in any letter case, with white space
      and NUL characters around it; anything else is a format error. */
  function ParseBool(s: string): (r: Result<bool>)
    ensures r == Ok(true) <==> Lower(Trim(s, WhiteOrNul)) == "true"
    ensures r == Ok(false) <==> Lower(Trim(s, WhiteOrNul)) == "false"
    ensures r.Err? <==> Lower(Trim(s, WhiteOrNul)) !in {"true", "false"}
  {
    var t := Lower(Trim(s, WhiteOrNul));
    if t == "true" then Ok(true) else if t == "false" then Ok(false) else Err(Format(s))
  }

  /** Boolean.ToString. */
  function BoolToString(b: bool): string {
    if b then "True" else "False"
  }

  lemma ParseBoolToString(b: bool)
    ensures ParseBool(BoolToString(b)) == Ok(b)
  {
    TrimUnpadded(BoolToString(b), WhiteOrNul);
    assert Lower(BoolToString(b)) == if b then "true" else "false";
  }

  /** A no-break space after a flag is padding. */
  lemma FlagBeforeNoBreakSpace()
    ensures ParseBool("True\U{00A0}") == Ok(true)
  {
    var padded := "True\U{00A0}";
    assert TrimStart(padded, WhiteOrNul) == padded;
    assert padded[..|padded| - 1] == "True";
    assert TrimEnd(padded, WhiteOrNul) == "True";
    assert Lower("True") == "true";
  }

  /** A NUL after a flag is padding. */
  lemma FlagBeforeNul()
    ensures ParseBool("false\0") == Ok(false)
  {
    var padded := "false\0";
    assert TrimStart(padded, WhiteOrNul) == padded;
    assert padded[..|padded| - 1] == "false";
    assert TrimEnd(padded, WhiteOrNul) == "false";
  }

  /** NULs after a number's trailing white space are accepted; a NUL before it is not. */
  lemma PaddedNumbers()
    ensures ParseInt32("12 \0") == Ok(12)
    ensures ParseInt32("12\0 ").Err?
  {
    var padded := "12 \0";
    assert padded[..|padded| - 1] == "12 ";
    assert TrimEnd(padded, Nul) == "12 ";
    assert "12 "[..2] == "12";
    assert Trim("12 ", NumberWhite) == "12";
    assert DigitsValue("12") == 12 by {
      assert "12"[..1] == "1";
      assert "1"[..0] == "";
    }
    var late := "12\0 ";
    assert TrimEnd(late, Nul) == late;
    assert TrimStart(late, NumberWhite) == late;
    assert late[..3] == "12\0";
    assert Trim(late, NumberWhite) == "12\0";
    assert !IsDigit("12\0"[2]);
  }

  predicate IsUpper(c: char) {
    'A' <= c <= 'Z'
  }

  function LowerChar(c: char): (d: char)
    ensures !IsUpper(d)
    ensures !IsUpper(c) ==> d == c
  {
    if IsUpper(c) then (c as int + 32) as char else c
  }

  /** String.ToLower on ASCII letters; every other character is kept. */
  function Lower(s: string): (r: string)
    ensures |r| == |s|
    ensures forall i :: 0 <= i < |s| ==> r[i] == LowerChar(s[i])
  {
    if s == [] then [] else [LowerChar(s[0])] + Lower(s[1..])
  }

  /** Lower-casing twice is lower-casing once. */
  lemma LowerIdempotent(s: string)
    ensures Lower(Lower(s)) == Lower(s)
  {
  }

  /** String.Replace(pattern, ""): one left-to-right scan that drops every
      non-overlapping occurrence of the pattern. */
  function RemoveAll(s: string, pattern: string): (r: string)
    requires pattern != []
    ensures |r| <= |s|
  {
    if s == [] then []
    else if |pattern| <= |s| && s[..|pattern|] == pattern then RemoveAll(s[|pattern|..], pattern)
    else [s[0]] + RemoveAll(s[1..], pattern)
  }

  /** Text in which the pattern's first character never appears is kept as it is, and a
      pattern at its end is dropped. */
  lemma {:induction false} RemoveAllSuffix(p: string, pattern: string)
    requires pattern != []
    requires forall i :: 0 <= i < |p| ==> p[i] != pattern[0]
    ensures RemoveAll(p + pattern, pattern) == p
  {
    var s := p + pattern;
    if p == [] {
      assert s == pattern;
      assert s[|pattern|..] == [];
    } else {
      assert s[0] == p[0] != pattern[0];
      assert s[1..] == p[1..] + pattern;
      RemoveAllSuffix(p[1..], pattern);
      assert [p[0]] + p[1..] == p;
    }
  }
}
