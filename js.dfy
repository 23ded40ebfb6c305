// The few pieces of JavaScript's string and number semantics that the rest of
// the model depends on: truthiness of an optional string, String.prototype.trim,
// the one-argument parseInt, split(',') / join(sep) and number-to-string.

module Wrappers {
  datatype Option<T> = None | Some(value: T)
}

module JsText {
  import opened Wrappers

  /** JavaScript truthiness of a string that may be missing (null/undefined):
      present and non-empty. */
  predicate Truthy(s: Option<string>) {
    s.Some? && s.value != ""
  }

  /** `value || null` for a string: the value when it is truthy, otherwise null. */
  function OrNull(s: Option<string>): (r: Option<string>)
    ensures r.Some? <==> Truthy(s)
    ensures r.Some? ==> r == s
  {
    if Truthy(s) then s else None
  }

  /** ECMAScript StrWhiteSpaceChar: the WhiteSpace and LineTerminator code points. */
  predicate IsSpace(c: char) {
    c == '\t' || c == '\n' || c == '\U{B}' || c == '\U{C}' || c == '\r' || c == ' ' ||
    c == '\U{A0}' || c == '\U{1680}' || ('\U{2000}' <= c <= '\U{200A}') ||
    c == '\U{2028}' || c == '\U{2029}' || c == '\U{202F}' || c == '\U{205F}' ||
    c == '\U{3000}' || c == '\U{FEFF}'
  }

  predicate AllSpace(s: string) {
    forall i :: 0 <= i < |s| ==> IsSpace(s[i])
  }

  /** Drops leading white space. */
  function TrimStart(s: string): (r: string)
    ensures |r| <= |s| && r == s[|s| - |r|..]
    ensures r == [] || !IsSpace(r[0])
    ensures AllSpace(s[..|s| - |r|])
  {
    if s != [] && IsSpace(s[0]) then TrimStart(s[1..]) else s
  }

  /** Drops trailing white space. */
  function TrimEnd(s: string): (r: string)
    ensures |r| <= |s| && r == s[..|r|]
    ensures r == [] || !IsSpace(r[|r| - 1])
    ensures AllSpace(s[|r|..])
  {
    if s != [] && IsSpace(s[|s| - 1]) then TrimEnd(s[..|s| - 1]) else s
  }

  /** String.prototype.trim. */
  function Trim(s: string): (r: string)
    ensures |r| <= |s|
    ensures r == [] || (!IsSpace(r[0]) && !IsSpace(r[|r| - 1]))
  {
    TrimEnd(TrimStart(s))
  }

  lemma TrimStartNoOp(s: string)
    requires s == [] || !IsSpace(s[0])
    ensures TrimStart(s) == s
  {
  }

  lemma TrimEndNoOp(s: string)
    requires s == [] || !IsSpace(s[|s| - 1])
    ensures TrimEnd(s) == s
  {
  }

  /** A string is left alone by trim exactly when it neither starts nor ends with white space. */
  lemma TrimFixpoint(s: string)
    ensures Trim(s) == s <==> (s == [] || (!IsSpace(s[0]) && !IsSpace(s[|s| - 1])))
  {
    if s == [] || (!IsSpace(s[0]) && !IsSpace(s[|s| - 1])) {
      TrimStartNoOp(s);
      TrimEndNoOp(s);
    }
  }

  lemma TrimIdempotent(s: string)
    ensures Trim(Trim(s)) == Trim(s)
  {
    TrimFixpoint(Trim(s));
  }

  lemma TrimStartAllSpace(s: string)
    ensures TrimStart(s) == [] <==> AllSpace(s)
  {
    var r := TrimStart(s);
    if r == [] {
      assert s[..|s|] == s;
    }
  }

  /** Trimming leaves nothing exactly when every character is white space. */
  lemma TrimBlank(s: string)
    ensures Trim(s) == [] <==> AllSpace(s)
  {
    TrimStartAllSpace(s);
  }

  lemma {:induction false} TrimEndAppendSpace(s: string, w: string)
    requires AllSpace(w)
    ensures TrimEnd(s + w) == TrimEnd(s)
    decreases |w|
  {
    if w != [] {
      var sw := s + w;
      assert IsSpace(sw[|sw| - 1]);
      assert sw[..|sw| - 1] == s + w[..|w| - 1];
      assert TrimEnd(sw) == TrimEnd(sw[..|sw| - 1]);
      TrimEndAppendSpace(s, w[..|w| - 1]);
    } else {
      assert s + w == s;
    }
  }

  /** Trailing white space does not survive trim. */
  lemma TrimAppendSpace(s: string, w: string)
    requires AllSpace(w)
    ensures Trim(s + w) == Trim(s)
  {
    var t := TrimStart(s);
    if t == [] {
      TrimStartAllSpace(s);
      assert AllSpace(s + w);
      TrimStartAllSpace(s + w);
    } else {
      TrimStartSkipsToSame(s, w);
      TrimEndAppendSpace(t, w);
    }
  }

  lemma {:induction false} TrimStartSkipsToSame(s: string, w: string)
    requires TrimStart(s) != []
    ensures TrimStart(s + w) == TrimStart(s) + w
  {
    if s != [] && IsSpace(s[0]) {
      assert (s + w)[1..] == s[1..] + w;
      TrimStartSkipsToSame(s[1..], w);
    }
  }

  predicate StartsWith(s: string, prefix: string) {
    |prefix| <= |s| && s[..|prefix|] == prefix
  }

  // ---------------------------------------------------------------- parseInt

  /** The value of a one-argument parseInt: an integer or NaN. Precision
      beyond 2^53 is not modelled: the integer is exact. */
  datatype ParsedInt = Int(value: int) | NaN

  /** `parseInt(x) || d`: NaN and 0 are falsy, so both give the default. */
  function IntOr(p: ParsedInt, default: int): (r: int)
    ensures p.Int? && p.value != 0 ==> r == p.value
    ensures p == NaN || p == Int(0) ==> r == default
  {
    if p.Int? && p.value != 0 then p.value else default
  }

  /** Digit value in radices up to 36; 36 for a character that is no digit. */
  function DigitValue(c: char): nat {
    if '0' <= c <= '9' then c as int - '0' as int
    else if 'a' <= c <= 'z' then c as int - 'a' as int + 10
    else if 'A' <= c <= 'Z' then c as int - 'A' as int + 10
    else 36
  }

  predicate IsDecimalDigit(c: char) {
    '0' <= c <= '9'
  }

  /** The longest prefix of s made of digits of the given radix. */
  function LeadingDigits(s: string, radix: nat): (r: string)
    ensures |r| <= |s| && r == s[..|r|]
    ensures forall i :: 0 <= i < |r| ==> DigitValue(r[i]) < radix
    ensures |r| < |s| ==> DigitValue(s[|r|]) >= radix
  {
    if s != [] && DigitValue(s[0]) < radix then [s[0]] + LeadingDigits(s[1..], radix) else []
  }

  /** Value of a digit string in the given radix, most significant digit first. */
  function DigitsValue(s: string, radix: nat): nat {
    if s == [] then 0 else DigitsValue(s[..|s| - 1], radix) * radix + DigitValue(s[|s| - 1])
  }

  /** The digits after the sign: a 0x/0X prefix switches to radix 16, then the
      longest run of digits is read; no digit at all gives NaN. */
  function ParseMagnitude(u: string): (r: ParsedInt)
    ensures r.Int? ==> r.value >= 0
  {
    var hex := |u| >= 2 && u[0] == '0' && (u[1] == 'x' || u[1] == 'X');
    var radix := if hex then 16 else 10;
    var z := LeadingDigits(if hex then u[2..] else u, radix);
    if z == [] then NaN else Int(DigitsValue(z, radix))
  }

  function Negate(p: ParsedInt): ParsedInt {
    if p.Int? then Int(-p.value) else NaN
  }

  /** parseInt(s) with no radix argument: leading white space is skipped and one
      sign is accepted before the digits. */
  function ParseInt(s: string): ParsedInt {
    ParseSigned(TrimStart(s))
  }

  /** What parseInt reads once the leading white space is gone. */
  function ParseSigned(t: string): ParsedInt {
    if t != [] && t[0] == '-' then Negate(ParseMagnitude(t[1..]))
    else if t != [] && t[0] == '+' then ParseMagnitude(t[1..])
    else ParseMagnitude(t)
  }

  function DigitChar(d: nat): (c: char)
    requires d < 10
    ensures IsDecimalDigit(c) && DigitValue(c) == d
  {
    ('0' as int + d) as char
  }

  /** Number-to-string for a non-negative integer: decimal, no leading zero. */
  function NatToString(n: nat): (r: string)
    ensures r != []
    ensures forall i :: 0 <= i < |r| ==> IsDecimalDigit(r[i])
    ensures n >= 10 ==> r[0] != '0'
    ensures n < 10 <==> |r| == 1
  {
    if n < 10 then [DigitChar(n)] else NatToString(n / 10) + [DigitChar(n % 10)]
  }

  /** Reading back the decimal text of n gives n. */
  lemma {:induction false} NatToStringValue(n: nat)
    ensures DigitsValue(NatToString(n), 10) == n
  {
    if n >= 10 {
      var s := NatToString(n);
      assert s[..|s| - 1] == NatToString(n / 10);
      NatToStringValue(n / 10);
    }
  }

  lemma {:induction false} LeadingDigitsAll(s: string, rest: string, radix: nat)
    requires forall i :: 0 <= i < |s| ==> DigitValue(s[i]) < radix
    requires rest == [] || DigitValue(rest[0]) >= radix
    ensures LeadingDigits(s + rest, radix) == s
  {
    if s != [] {
      assert (s + rest)[1..] == s[1..] + rest;
      LeadingDigitsAll(s[1..], rest, radix);
    }
  }

  lemma {:induction false} TrimStartSkipsSpace(ws: string, t: string)
    requires AllSpace(ws)
    requires t == [] || !IsSpace(t[0])
    ensures TrimStart(ws + t) == t
  {
    if ws != [] {
      assert (ws + t)[1..] == ws[1..] + t;
      TrimStartSkipsSpace(ws[1..], t);
    }
  }

  lemma ParseMagnitudeDecimal(n: nat, rest: string)
    requires rest == [] || DigitValue(rest[0]) >= 10
    requires n != 0 || rest == [] || (rest[0] != 'x' && rest[0] != 'X')
    ensures ParseMagnitude(NatToString(n) + rest) == Int(n)
  {
    var digits := NatToString(n);
    var u := digits + rest;
    assert u[0] == digits[0];
    assert !(|u| >= 2 && u[0] == '0' && (u[1] == 'x' || u[1] == 'X')) by {
      if n < 10 && |u| >= 2 { assert u[1] == rest[0]; }
    }
    LeadingDigitsAll(digits, rest, 10);
    NatToStringValue(n);
  }

  /** Leading white space does not change what parseInt reads. */
  lemma ParseIntSkipsSpace(ws: string, t: string)
    requires AllSpace(ws)
    requires t == [] || !IsSpace(t[0])
    ensures ParseInt(ws + t) == ParseInt(t)
  {
    TrimStartSkipsSpace(ws, t);
    TrimStartNoOp(t);
  }

  /** parseInt reads the decimal text of a non-negative integer back: leading
      white space is skipped, and anything after the digits that is not itself a
      digit (nor the x of a 0x prefix) is ignored. */
  lemma ParseIntDecimal(ws: string, n: nat, rest: string)
    requires AllSpace(ws)
    requires rest == [] || DigitValue(rest[0]) >= 10
    requires n != 0 || rest == [] || (rest[0] != 'x' && rest[0] != 'X')
    ensures ParseInt(ws + NatToString(n) + rest) == Int(n)
  {
    var digits := NatToString(n);
    var u := digits + rest;
    assert u[0] == digits[0];
    Regroup(ws, digits, rest);
    ParseIntSkipsSpace(ws, u);
    ParseIntDigitsThen(n, rest);
  }

  /** The decimal text of n, followed by anything that does not continue the number, reads as n. */
  lemma ParseIntDigitsThen(n: nat, rest: string)
    requires rest == [] || DigitValue(rest[0]) >= 10
    requires n != 0 || rest == [] || (rest[0] != 'x' && rest[0] != 'X')
    ensures ParseInt(NatToString(n) + rest) == Int(n)
  {
    var digits := NatToString(n);
    assert (digits + rest)[0] == digits[0];
    ParseIntDigitFirst(digits + rest);
    ParseMagnitudeDecimal(n, rest);
  }

  lemma Regroup(ws: string, digits: string, rest: string)
    ensures ws + digits + rest == ws + (digits + rest)
  {
  }

  /** Text that starts with a decimal digit has no sign and no leading white space. */
  lemma ParseIntDigitFirst(u: string)
    requires u != [] && IsDecimalDigit(u[0])
    ensures ParseInt(u) == ParseMagnitude(u)
  {
    TrimStartNoOp(u);
  }

  /** parseInt reads back the decimal text of a non-negative integer. */
  lemma ParseIntOfNat(n: nat)
    ensures ParseInt(NatToString(n)) == Int(n)
  {
    var digits := NatToString(n);
    assert digits + "" == digits;
    ParseIntDigitFirst(digits);
    ParseMagnitudeDecimal(n, "");
  }

  /** The same with a minus sign in front of the digits. */
  lemma ParseIntNegativeDecimal(ws: string, n: nat, rest: string)
    requires AllSpace(ws)
    requires rest == [] || DigitValue(rest[0]) >= 10
    requires n != 0 || rest == [] || (rest[0] != 'x' && rest[0] != 'X')
    ensures ParseInt(ws + "-" + NatToString(n) + rest) == Int(-(n as int))
  {
    var u := NatToString(n) + rest;
    MinusRegroup(ws, NatToString(n), rest);
    ParseIntSignedAfterSpace(ws, u);
    ParseMagnitudeDecimal(n, rest);
  }

  lemma MinusRegroup(ws: string, digits: string, rest: string)
    ensures ws + "-" + digits + rest == ws + ("-" + (digits + rest))
  {
  }

  lemma ParseIntSignedAfterSpace(ws: string, u: string)
    requires AllSpace(ws)
    ensures ParseInt(ws + ("-" + u)) == Negate(ParseMagnitude(u))
  {
    ParseIntSkipsSpace(ws, "-" + u);
    ParseIntMinus(u);
  }

  lemma ParseIntMinus(u: string)
    ensures ParseInt("-" + u) == Negate(ParseMagnitude(u))
  {
    var t := "-" + u;
    TrimStartNoOp(t);
    assert t[0] == '-' && t[1..] == u;
  }

  /** A string without any decimal digit parses to NaN. */
  lemma ParseIntNoDigits(s: string)
    requires forall i :: 0 <= i < |s| ==> !IsDecimalDigit(s[i])
    ensures ParseInt(s) == NaN
  {
    var t := TrimStart(s);
    assert forall i :: 0 <= i < |t| ==> !IsDecimalDigit(t[i]) by {
      forall i | 0 <= i < |t| ensures !IsDecimalDigit(t[i]) {
        assert t[i] == s[|s| - |t| + i];
      }
    }
    ParseSignedNoDigits(t);
  }

  lemma ParseSignedNoDigits(t: string)
    requires forall i :: 0 <= i < |t| ==> !IsDecimalDigit(t[i])
    ensures ParseSigned(t) == NaN
  {
    if t != [] && (t[0] == '-' || t[0] == '+') {
      assert |t| >= 2 ==> !IsDecimalDigit(t[1..][0]);
      ParseMagnitudeNoDigit(t[1..]);
    } else {
      ParseMagnitudeNoDigit(t);
    }
  }

  lemma ParseMagnitudeNoDigit(u: string)
    requires u == [] || !IsDecimalDigit(u[0])
    ensures ParseMagnitude(u) == NaN
  {
  }

  // ------------------------------------------------------------- split / join

  /** String.prototype.split with a one-character separator. */
  function Split(s: string, sep: char): (r: seq<string>)
    ensures |r| >= 1
    ensures forall i :: 0 <= i < |r| ==> sep !in r[i]
  {
    if s == [] then [[]]
    else if s[0] == sep then [[]] + Split(s[1..], sep)
    else var rest := Split(s[1..], sep); [[s[0]] + rest[0]] + rest[1..]
  }

  /** Array.prototype.join(sep) over strings. */
  function Join(parts: seq<string>, sep: string): string {
    if |parts| == 0 then []
    else if |parts| == 1 then parts[0]
    else parts[0] + sep + Join(parts[1..], sep)
  }

  /** Joining the pieces of a split restores the string. */
  lemma {:induction false} JoinSplit(s: string, sep: char)
    ensures Join(Split(s, sep), [sep]) == s
  {
    if s != [] {
      var rest := Split(s[1..], sep);
      JoinSplit(s[1..], sep);
      if s[0] == sep {
        assert Split(s, sep) == [[]] + rest;
        assert ([[]] + rest)[1..] == rest;
      } else {
        var head := [s[0]] + rest[0];
        assert Split(s, sep) == [head] + rest[1..];
        if |rest| > 1 {
          assert Join(rest, [sep]) == rest[0] + [sep] + Join(rest[1..], [sep]);
          assert ([head] + rest[1..])[1..] == rest[1..];
        }
      }
    }
  }

  lemma {:induction false} SplitSepFree(p: string, sep: char)
    requires sep !in p
    ensures Split(p, sep) == [p]
  {
    if p != [] {
      assert sep !in p[1..];
      SplitSepFree(p[1..], sep);
      assert [p[0]] + p[1..] == p;
    }
  }

  lemma {:induction false} SplitAfterPiece(p: string, sep: char, t: string)
    requires sep !in p
    ensures Split(p + [sep] + t, sep) == [p] + Split(t, sep)
  {
    if p == [] {
      assert p + [sep] + t == [sep] + t;
      assert ([sep] + t)[1..] == t;
    } else {
      var s := p + [sep] + t;
      assert s[1..] == p[1..] + [sep] + t;
      assert sep !in p[1..];
      SplitAfterPiece(p[1..], sep, t);
      assert [p[0]] + p[1..] == p;
    }
  }

  /** Splitting a join restores the pieces, for at least one piece and pieces
      that do not contain the separator. */
  lemma {:induction false} SplitJoin(parts: seq<string>, sep: char)
    requires |parts| >= 1
    requires forall i :: 0 <= i < |parts| ==> sep !in parts[i]
    ensures Split(Join(parts, [sep]), sep) == parts
  {
    if |parts| == 1 {
      SplitSepFree(parts[0], sep);
    } else {
      SplitJoin(parts[1..], sep);
      SplitAfterPiece(parts[0], sep, Join(parts[1..], [sep]));
      assert [parts[0]] + parts[1..] == parts;
    }
  }
}
