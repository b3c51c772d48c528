/** The JavaScript string primitives the components rely on: the global
    parseInt, String.prototype.trim and String.prototype.startsWith, plus the
    decimal text React renders for a number placed as a JSX child
    (`Step {index + 1}`). */
module Text {
  import opened Wrappers

  /** The WhiteSpace and LineTerminator code points of ECMAScript (sections
      12.2 and 12.3 of ECMA-262): what trim() strips and parseInt() skips. */
  predicate IsWhiteSpace(c: char) {
    c == '\t' || c == '\n' || c == '\U{000B}' || c == '\U{000C}' || c == '\r' || c == ' '
    || c == '\U{00A0}' || c == '\U{1680}' || ('\U{2000}' <= c <= '\U{200A}')
    || c == '\U{2028}' || c == '\U{2029}' || c == '\U{202F}' || c == '\U{205F}'
    || c == '\U{3000}' || c == '\U{FEFF}'
  }

  predicate AllWhiteSpace(s: string) {
    forall i :: 0 <= i < |s| ==> IsWhiteSpace(s[i])
  }

  /** Drops the leading white space: what is left is a suffix of `s` that is
      empty or starts with a visible character, and what was dropped is all
      white space. */
  function TrimStart(s: string): (r: string)
    ensures |r| <= |s| && r == s[|s| - |r|..]
    ensures AllWhiteSpace(s[..|s| - |r|])
    ensures r == [] || !IsWhiteSpace(r[0])
  {
    if |s| > 0 && IsWhiteSpace(s[0]) then
      var r := TrimStart(s[1..]);
      assert s[..|s| - |r|] == [s[0]] + s[1..][..|s| - 1 - |r|];
      r
    else
      s
  }

  /** Drops the trailing white space, symmetrically. */
  function TrimEnd(s: string): (r: string)
    ensures |r| <= |s| && r == s[..|r|]
    ensures AllWhiteSpace(s[|r|..])
    ensures r == [] || !IsWhiteSpace(r[|r| - 1])
  {
    if |s| > 0 && IsWhiteSpace(s[|s| - 1]) then
      var r := TrimEnd(s[..|s| - 1]);
      assert s[|r|..] == s[..|s| - 1][|r|..] + [s[|s| - 1]];
      r
    else
      s
  }

  lemma TrimStartEmptyIff(s: string)
    ensures TrimStart(s) == [] <==> AllWhiteSpace(s)
  {
    var r := TrimStart(s);
    if r == [] {
      assert s[..|s|] == s;
    } else {
      assert r[0] == s[|s| - |r|];
    }
  }

  lemma TrimEndEmptyIff(s: string)
    ensures TrimEnd(s) == [] <==> AllWhiteSpace(s)
  {
    var r := TrimEnd(s);
    if r == [] {
      assert s[0..] == s;
    } else {
      assert r[|r| - 1] == s[|r| - 1];
    }
  }

  /** String.prototype.trim: the result is empty exactly when the input is all
      white space, and otherwise begins and ends with a visible character. */
  function Trim(s: string): (r: string)
    ensures r == [] <==> AllWhiteSpace(s)
    ensures r != [] ==> !IsWhiteSpace(r[0]) && !IsWhiteSpace(r[|r| - 1])
  {
    var t := TrimStart(s);
    var r := TrimEnd(t);
    TrimStartEmptyIff(s);
    TrimEndEmptyIff(t);
    assert t != [] ==> !AllWhiteSpace(t);
    if r != [] then
      assert r[0] == t[0];
      r
    else
      r
  }

  /** String.prototype.startsWith with no position argument, compared
      character by character: it holds exactly when `prefix` is a prefix of
      `s` in Dafny's sense. */
  function StartsWith(s: string, prefix: string): (b: bool)
    ensures b <==> prefix <= s
  {
    if prefix == [] then true
    else if s == [] then false
    else
      assert prefix <= s <==> s[0] == prefix[0] && prefix[1..] <= s[1..];
      s[0] == prefix[0] && StartsWith(s[1..], prefix[1..])
  }

  /** The value of a character as a digit in any radix up to 36; 36 for a
      character that is a digit in no radix. */
  function DigitValue(c: char): (d: nat)
    ensures d <= 36
    ensures d < 10 <==> '0' <= c <= '9'
  {
    if '0' <= c <= '9' then c as nat - '0' as nat
    else if 'a' <= c <= 'z' then c as nat - 'a' as nat + 10
    else if 'A' <= c <= 'Z' then c as nat - 'A' as nat + 10
    else 36
  }

  /** The length of the longest prefix of `s` made of digits of `radix`. */
  function DigitRun(s: string, radix: nat): (n: nat)
    ensures n <= |s|
    ensures forall i :: 0 <= i < n ==> DigitValue(s[i]) < radix
    ensures n == |s| || DigitValue(s[n]) >= radix
  {
    if s != [] && DigitValue(s[0]) < radix then 1 + DigitRun(s[1..], radix) else 0
  }

  /** The number a digit string denotes in `radix`, most significant digit first. */
  function DigitsValue(d: string, radix: nat): nat {
    if d == [] then 0 else DigitsValue(d[..|d| - 1], radix) * radix + DigitValue(d[|d| - 1])
  }

  /** The global parseInt with no radix argument (section 19.2.5 of ECMA-262):
      skip leading white space, take an optional sign, read a `0x`/`0X` prefix
      as radix 16 and otherwise use radix 10, then convert the longest run of
      digits; an empty run is NaN, written None. */
  function ParseInt(s: string): (r: Option<int>)
    ensures TrimStart(s) == [] ==> r == None
    ensures var t := TrimStart(s);
              t != [] && t[0] != '-' && t[0] != '+' && !('0' <= t[0] <= '9') ==> r == None
    ensures var t := TrimStart(s);
              t != [] && '0' <= t[0] <= '9' && !HasHexPrefix(t) ==> r.Some? && r.value >= 0
  {
    var t := TrimStart(s);
    var sign := if t != [] && t[0] == '-' then -1 else 1;
    var u := if t != [] && (t[0] == '-' || t[0] == '+') then t[1..] else t;
    if HasHexPrefix(u) then ParseDigits(u[2..], 16, sign) else ParseDigits(u, 10, sign)
  }

  predicate HasHexPrefix(u: string) {
    |u| >= 2 && u[0] == '0' && (u[1] == 'x' || u[1] == 'X')
  }

  /** The signed value of the longest run of `radix` digits at the front of `v`. */
  function ParseDigits(v: string, radix: nat, sign: int): Option<int> {
    var n := DigitRun(v, radix);
    if n == 0 then None else Some(sign * DigitsValue(v[..n], radix))
  }

  function DigitChar(d: nat): (c: char)
    requires d < 10
    ensures '0' <= c <= '9' && DigitValue(c) == d
  {
    ('0' as nat + d) as char
  }

  /** The decimal rendering of a natural number, as a JSX child renders it:
      only decimal digits, and no leading zero unless the number is 0. */
  function NatToString(n: nat): (s: string)
    ensures |s| >= 1
    ensures forall i :: 0 <= i < |s| ==> '0' <= s[i] <= '9'
    ensures |s| > 1 ==> s[0] != '0'
  {
    if n < 10 then [DigitChar(n)] else NatToString(n / 10) + [DigitChar(n % 10)]
  }

  /** Reading the decimal rendering back yields the number. */
  lemma {:induction false} NatToStringValue(n: nat)
    ensures DigitsValue(NatToString(n), 10) == n
  {
    var s := NatToString(n);
    if n >= 10 {
      assert s[..|s| - 1] == NatToString(n / 10);
      NatToStringValue(n / 10);
    } else {
      assert s[..|s| - 1] == [];
    }
  }

  lemma NatToStringInjective(m: nat, n: nat)
    requires NatToString(m) == NatToString(n)
    ensures m == n
  {
    NatToStringValue(m);
    NatToStringValue(n);
  }

  lemma {:induction false} DigitRunAllDigits(d: string, rest: string, radix: nat)
    requires forall i :: 0 <= i < |d| ==> DigitValue(d[i]) < radix
    requires rest == [] || DigitValue(rest[0]) >= radix
    ensures DigitRun(d + rest, radix) == |d|
  {
    if d != [] {
      assert (d + rest)[1..] == d[1..] + rest;
      DigitRunAllDigits(d[1..], rest, radix);
    } else {
      assert d + rest == rest;
    }
  }

  /** A string that starts with a decimal digit and no hexadecimal prefix is
      read in radix 10 from its first character. */
  lemma ParseIntUnsigned(s: string)
    requires s != [] && '0' <= s[0] <= '9' && !HasHexPrefix(s)
    ensures ParseInt(s) == ParseDigits(s, 10, 1)
  {
    assert !IsWhiteSpace(s[0]);
    assert TrimStart(s) == s;
  }

  /** parseInt reads back the decimal rendering of a number from the front of
      a string when what follows starts with neither a digit nor a letter (the
      "5 min" shape); a letter could turn "0x" into a hexadecimal prefix. */
  lemma {:induction false} ParseIntOfNatToString(n: nat, rest: string)
    requires rest == [] || DigitValue(rest[0]) == 36
    ensures ParseInt(NatToString(n) + rest) == Some(n)
  {
    var d := NatToString(n);
    var s := d + rest;
    assert s[0] == d[0];
    assert !HasHexPrefix(s) by {
      if |s| >= 2 && s[0] == '0' {
        assert |d| == 1 && s[1] == rest[0];
      }
    }
    ParseIntUnsigned(s);
    DigitRunAllDigits(d, rest, 10);
    assert s[..|d|] == d;
    NatToStringValue(n);
  }
}
