/**
 * Strings as the backend (Python) and the frontends (JavaScript) handle them:
 * decimal rendering of integers, the JavaScript `Number` and `parseInt`
 * conversions, `split`, `includes` and ASCII lower-casing.
 */
module Text {
  import opened Wrappers

  predicate IsDigit(c: char) { '0' <= c <= '9' }

  function DigitValue(c: char): (n: nat)
    requires IsDigit(c)
    ensures n < 10
  {
    c as int - '0' as int
  }

  function DigitChar(n: nat): (c: char)
    requires n < 10
    ensures IsDigit(c) && DigitValue(c) == n
  {
    ('0' as int + n) as char
  }

  predicate AllDigits(s: string) {
    forall i :: 0 <= i < |s| ==> IsDigit(s[i])
  }

  /** The value of a string of decimal digits, most significant digit first. */
  function DigitsValue(s: string): nat
    requires AllDigits(s)
  {
    if s == [] then 0 else DigitsValue(s[..|s| - 1]) * 10 + DigitValue(s[|s| - 1])
  }

  /** Decimal rendering of a natural number: Python's `str(n)`, JavaScript's `n.toString()`. */
  function NatText(n: nat): (s: string)
    ensures |s| >= 1 && AllDigits(s)
    ensures DigitsValue(s) == n
    ensures s[0] == '0' ==> s == "0"
  {
    if n < 10 then [DigitChar(n)]
    else
      var prefix := NatText(n / 10);
      assert (prefix + [DigitChar(n % 10)])[..|prefix|] == prefix;
      prefix + [DigitChar(n % 10)]
  }

  /** Decimal rendering of an integer, with a leading `-` when negative. */
  function IntText(i: int): (s: string)
    ensures |s| >= 1
  {
    if i < 0 then "-" + NatText(-i) else NatText(i)
  }

  /** Strict decimal parse: an optional `-` followed by at least one digit. */
  function ParseInt(s: string): (r: Option<int>)
    ensures r.Some? ==> |s| >= 1
  {
    if |s| >= 2 && s[0] == '-' && AllDigits(s[1..]) then Some(-(DigitsValue(s[1..]) as int))
    else if |s| >= 1 && AllDigits(s) then Some(DigitsValue(s))
    else None
  }

  /** Parsing undoes rendering, for every integer. */
  lemma ParseIntText(i: int)
    ensures ParseInt(IntText(i)) == Some(i)
  {
    if i < 0 {
      assert IntText(i)[1..] == NatText(-i);
    } else {
      assert IntText(i)[0] != '-';
    }
  }

  /** Distinct integers render to distinct strings. */
  lemma IntTextInjective(a: int, b: int)
    requires IntText(a) == IntText(b)
    ensures a == b
  {
    ParseIntText(a);
    ParseIntText(b);
  }

  // ---------------------------------------------------------------------------
  // JavaScript `Number(s)` and `parseInt(s)` on strings

  /**
   * JavaScript's white space and line terminators, which `trim` removes and
   * `\s` matches: tab, line feed, vertical tab, form feed, carriage return,
   * the byte order mark, the line and paragraph separators, and the Unicode
   * space separators.
   */
  predicate IsSpace(c: char) {
    c == '\t' || c == '\n' || c == '\U{000B}' || c == '\U{000C}' || c == '\r' || c == ' '
    || c == '\U{00A0}' || c == '\U{1680}' || ('\U{2000}' <= c <= '\U{200A}')
    || c == '\U{2028}' || c == '\U{2029}' || c == '\U{202F}' || c == '\U{205F}'
    || c == '\U{3000}' || c == '\U{FEFF}'
  }

  function TrimStart(s: string): (t: string)
    ensures |t| <= |s| && t == s[|s| - |t|..]
    ensures t != [] ==> !IsSpace(t[0])
  {
    if s != [] && IsSpace(s[0]) then TrimStart(s[1..]) else s
  }

  function TrimEnd(s: string): (t: string)
    ensures |t| <= |s| && t == s[..|t|]
    ensures t != [] ==> !IsSpace(t[|t| - 1])
  {
    if s != [] && IsSpace(s[|s| - 1]) then TrimEnd(s[..|s| - 1]) else s
  }

  /**
   * `Number(s)` for a string: surrounding whitespace is ignored, the empty
   * string is 0, and an optionally signed run of digits is its value;
   * anything else is NaN, here `None`.
   */
  function JsNumber(s: string): (r: Option<int>)
  {
    var t := TrimEnd(TrimStart(s));
    if t == [] then Some(0)
    else if |t| >= 2 && (t[0] == '+' || t[0] == '-') && AllDigits(t[1..]) then
      Some(if t[0] == '-' then -(DigitsValue(t[1..]) as int) else DigitsValue(t[1..]))
    else if AllDigits(t) then Some(DigitsValue(t))
    else None
  }

  /** The longest prefix of `s` made of digits. */
  function DigitPrefix(s: string): (p: string)
    ensures AllDigits(p) && p <= s
    ensures |p| < |s| ==> !IsDigit(s[|p|])
  {
    if s != [] && IsDigit(s[0]) then [s[0]] + DigitPrefix(s[1..]) else []
  }

  predicate IsHexDigit(c: char) {
    IsDigit(c) || 'a' <= c <= 'f' || 'A' <= c <= 'F'
  }

  function HexDigitValue(c: char): (n: nat)
    requires IsHexDigit(c)
    ensures n < 16
  {
    if IsDigit(c) then DigitValue(c)
    else if 'a' <= c <= 'f' then c as int - 'a' as int + 10
    else c as int - 'A' as int + 10
  }

  predicate AllHexDigits(s: string) {
    forall i :: 0 <= i < |s| ==> IsHexDigit(s[i])
  }

  /** The value of a string of hexadecimal digits, most significant digit first. */
  function HexValue(s: string): nat
    requires AllHexDigits(s)
  {
    if s == [] then 0 else HexValue(s[..|s| - 1]) * 16 + HexDigitValue(s[|s| - 1])
  }

  /** The longest prefix of `s` made of hexadecimal digits. */
  function HexPrefix(s: string): (p: string)
    ensures AllHexDigits(p) && p <= s
    ensures |p| < |s| ==> !IsHexDigit(s[|p|])
  {
    if s != [] && IsHexDigit(s[0]) then [s[0]] + HexPrefix(s[1..]) else []
  }

  /** After the sign, `0x` or `0X` makes `parseInt` read base 16. */
  predicate HexMarked(body: string) {
    |body| >= 2 && body[0] == '0' && (body[1] == 'x' || body[1] == 'X')
  }

  /**
   * `parseInt(s)` without a radix: leading whitespace is skipped and an
   * optional sign is read; a `0x` or `0X` prefix then selects base 16,
   * otherwise base 10; the longest run of digits of that base is the value,
   * and no such digit at all is NaN (`None`).
   */
  function JsParseInt(s: string): (r: Option<int>)
  {
    var t := TrimStart(s);
    var negative := t != [] && t[0] == '-';
    var body := if t != [] && (t[0] == '-' || t[0] == '+') then t[1..] else t;
    var magnitude: Option<nat> :=
      if HexMarked(body) then
        var digits := HexPrefix(body[2..]);
        if digits == [] then None else Some(HexValue(digits))
      else
        var digits := DigitPrefix(body);
        if digits == [] then None else Some(DigitsValue(digits));
    match magnitude
    case None => None
    case Some(m) => Some(if negative then -(m as int) else m)
  }

  /** A text that neither starts nor ends with whitespace is left alone by trimming. */
  lemma Untrimmed(s: string)
    requires s != [] && !IsSpace(s[0]) && !IsSpace(s[|s| - 1])
    ensures TrimStart(s) == s && TrimEnd(s) == s
  {
  }

  /** The rendering of an integer is a sign, if negative, and then its digits. */
  lemma TextShape(i: int)
    ensures var s, digits := IntText(i), NatText(if i < 0 then -i else i);
      s != [] && !IsSpace(s[0]) && !IsSpace(s[|s| - 1])
      && (i < 0 ==> s[0] == '-' && s[1..] == digits)
      && (i >= 0 ==> s == digits)
  {
    var s, digits := IntText(i), NatText(if i < 0 then -i else i);
    assert IsDigit(digits[|digits| - 1]);
    assert s[|s| - 1] == digits[|digits| - 1];
    if i < 0 {
      assert s[1..] == digits;
    } else {
      assert IsDigit(digits[0]);
    }
  }

  /** parseInt reads the rendering of any integer back. */
  lemma JsParseIntText(i: int)
    ensures JsParseInt(IntText(i)) == Some(i)
  {
    var s, digits := IntText(i), NatText(if i < 0 then -i else i);
    TextShape(i);
    Untrimmed(s);
    DigitPrefixAll(digits);
    assert !HexMarked(digits) by {
      assert |digits| >= 2 ==> IsDigit(digits[1]);
    }
    if i >= 0 {
      assert IsDigit(s[0]);
    }
  }

  /** `Number` reads a run of digits as its value. */
  lemma JsNumberDigits(s: string)
    requires s != [] && AllDigits(s)
    ensures JsNumber(s) == Some(DigitsValue(s))
  {
    assert IsDigit(s[0]) && IsDigit(s[|s| - 1]);
    Untrimmed(s);
  }

  /** `Number` reads a minus sign followed by a run of digits as the negated value. */
  lemma JsNumberNegated(digits: string)
    requires digits != [] && AllDigits(digits)
    ensures JsNumber("-" + digits) == Some(-(DigitsValue(digits) as int))
  {
    var s := "-" + digits;
    assert s[1..] == digits;
    assert IsDigit(digits[|digits| - 1]) && s[|s| - 1] == digits[|digits| - 1];
    Untrimmed(s);
  }

  /** `Number` reads the rendering of any integer back. */
  lemma JsNumberText(i: int)
    ensures JsNumber(IntText(i)) == Some(i)
  {
    if i < 0 {
      JsNumberNegated(NatText(-i));
    } else {
      JsNumberDigits(NatText(i));
    }
  }

  lemma {:induction false} DigitPrefixAll(s: string)
    requires AllDigits(s)
    ensures DigitPrefix(s) == s
  {
    if s != [] {
      DigitPrefixAll(s[1..]);
    }
  }

  // ---------------------------------------------------------------------------
  // Case and substrings

  /** JavaScript's `toLowerCase` on one character, restricted to ASCII. */
  function LowerChar(c: char): char {
    if 'A' <= c <= 'Z' then (c as int + 32) as char else c
  }

  function Lower(s: string): (t: string)
    ensures |t| == |s|
    ensures forall i :: 0 <= i < |s| ==> t[i] == LowerChar(s[i])
  {
    seq(|s|, i requires 0 <= i < |s| => LowerChar(s[i]))
  }

  /** Lower-casing twice is lower-casing once. */
  lemma LowerIdempotent(s: string)
    ensures Lower(Lower(s)) == Lower(s)
  {
  }

  /** JavaScript's `s.includes(sub)`: `sub` occurs in `s` at some position. */
  predicate Contains(s: string, sub: string) {
    exists i :: 0 <= i <= |s| && sub <= s[i..]
  }

  // ---------------------------------------------------------------------------
  // JavaScript `s.split(c)` for a one-character separator

  /** The position of the first `c` in `s`. */
  function IndexOf(s: string, c: char): (i: nat)
    requires c in s
    ensures i < |s| && s[i] == c
    ensures c !in s[..i]
  {
    if s[0] == c then 0 else 1 + IndexOf(s[1..], c)
  }

  /** `s.split(c)`: the pieces between the occurrences of `c`, in order. */
  function Split(s: string, c: char): (parts: seq<string>)
    ensures |parts| >= 1
    ensures forall k :: 0 <= k < |parts| ==> c !in parts[k]
    decreases |s|
  {
    if c !in s then [s]
    else
      var i := IndexOf(s, c);
      [s[..i]] + Split(s[i + 1..], c)
  }

  /** `parts.join(c)`. */
  function Join(parts: seq<string>, c: char): string
    requires |parts| >= 1
  {
    if |parts| == 1 then parts[0] else parts[0] + [c] + Join(parts[1..], c)
  }

  /** Joining the pieces of a split gives the string back. */
  lemma {:induction false} JoinSplit(s: string, c: char)
    ensures Join(Split(s, c), c) == s
    decreases |s|
  {
    if c in s {
      var i := IndexOf(s, c);
      var tail := s[i + 1..];
      JoinSplit(tail, c);
      var parts := Split(s, c);
      assert parts == [s[..i]] + Split(tail, c);
      assert parts[1..] == Split(tail, c);
      assert Join(parts, c) == s[..i] + [c] + Join(Split(tail, c), c);
      assert s == s[..i] + [c] + tail;
    }
  }

  /** Splitting a join of pieces free of the separator gives the pieces back. */
  lemma {:induction false} SplitJoin(parts: seq<string>, c: char)
    requires |parts| >= 1
    requires forall k :: 0 <= k < |parts| ==> c !in parts[k]
    ensures Split(Join(parts, c), c) == parts
  {
    if |parts| > 1 {
      var a, tail := parts[0], parts[1..];
      assert c !in a;
      var rest := Join(tail, c);
      var s := a + ([c] + rest);
      assert Join(parts, c) == s;
      IndexOfAfterFree(a, [c] + rest, c);
      assert s[..|a|] == a && s[|a| + 1..] == rest;
      SplitJoin(tail, c);
      assert Split(s, c) == [a] + tail;
    }
  }

  lemma {:induction false} IndexOfAfterFree(a: string, b: string, c: char)
    requires c !in a && b != [] && b[0] == c
    ensures c in a + b && IndexOf(a + b, c) == |a|
  {
    assert (a + b)[|a|] == c;
    if a != [] {
      assert (a + b)[1..] == a[1..] + b;
      IndexOfAfterFree(a[1..], b, c);
    }
  }

  /** `s.split(c)[0]` is everything before the first `c`, or all of `s`. */
  lemma SplitFirst(s: string, c: char)
    ensures Split(s, c)[0] == if c in s then s[..IndexOf(s, c)] else s
  {
  }

  /** Splitting `a`, then `c`, then more, gives `a` and then the pieces of the rest. */
  lemma SplitCons(a: string, b: string, c: char)
    requires c !in a
    ensures Split(a + [c] + b, c) == [a] + Split(b, c)
  {
    IndexOfAfterFree(a, [c] + b, c);
    assert a + [c] + b == a + ([c] + b);
    assert (a + [c] + b)[..|a|] == a;
    assert (a + [c] + b)[|a| + 1..] == b;
  }

  /** When `s` is `a`, then `c`, then more, `s.split(c)` starts with `a` and then the piece after `c`. */
  lemma SplitAt(a: string, b: string, c: char)
    requires c !in a
    ensures var parts := Split(a + [c] + b, c);
      |parts| >= 2 && parts[0] == a && parts[1] == Split(b, c)[0]
  {
    IndexOfAfterFree(a, [c] + b, c);
    assert a + [c] + b == a + ([c] + b);
    assert (a + [c] + b)[|a| + 1..] == b;
  }
}
