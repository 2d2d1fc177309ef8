/**
 * The pieces of Python's `str` behaviour that genrodin relies on:
 * `str.strip()`, `str.split(sep)`, `sep.join(parts)`, `int(s)` and
 * `"{}".format(n)` for integers.
 */
module Text {
  import opened Wrappers

  /** The characters `str.isspace()` accepts, i.e. those `str.strip()` removes. */
  predicate IsSpace(c: char) {
    ('\t' <= c <= '\r') || ('\U{1C}' <= c <= ' ') ||
    c == '\U{85}' || c == '\U{A0}' || c == '\U{1680}' ||
    ('\U{2000}' <= c <= '\U{200A}') || c == '\U{2028}' || c == '\U{2029}' ||
    c == '\U{202F}' || c == '\U{205F}' || c == '\U{3000}'
  }

  predicate IsDigit(c: char) {
    '0' <= c <= '9'
  }

  predicate AllDigits(s: string) {
    forall i :: 0 <= i < |s| ==> IsDigit(s[i])
  }

  predicate IsBlank(s: string) {
    forall i :: 0 <= i < |s| ==> IsSpace(s[i])
  }

  /** Number of whitespace characters at the start of `s`. */
  function LeadingSpaces(s: string): (k: nat)
    ensures k <= |s|
    ensures forall i :: 0 <= i < k ==> IsSpace(s[i])
    ensures k < |s| ==> !IsSpace(s[k])
  {
    if s == [] || !IsSpace(s[0]) then 0 else 1 + LeadingSpaces(s[1..])
  }

  /** Number of whitespace characters at the end of `s`. */
  function TrailingSpaces(s: string): (k: nat)
    ensures k <= |s|
    ensures forall i :: |s| - k <= i < |s| ==> IsSpace(s[i])
    ensures k < |s| ==> !IsSpace(s[|s| - 1 - k])
  {
    if s == [] || !IsSpace(s[|s| - 1]) then 0 else 1 + TrailingSpaces(s[..|s| - 1])
  }

  /** `s.strip()`: the longest infix of `s` that neither starts nor ends with whitespace. */
  function Strip(s: string): (r: string)
    ensures r == [] <==> IsBlank(s)
    ensures r != [] ==> !IsSpace(r[0]) && !IsSpace(r[|r| - 1])
    ensures LeadingSpaces(s) + |r| <= |s|
    ensures r == s[LeadingSpaces(s)..LeadingSpaces(s) + |r|]
    ensures IsBlank(s[LeadingSpaces(s) + |r|..])
  {
    var t := s[LeadingSpaces(s)..];
    t[..|t| - TrailingSpaces(t)]
  }

  /** Non-empty, and neither starting nor ending with whitespace. */
  predicate Trimmed(s: string) {
    s != [] && !IsSpace(s[0]) && !IsSpace(s[|s| - 1])
  }

  /** A trimmed string is left alone by `strip()`, and it is not blank. */
  lemma {:induction false} StripTrimmed(s: string)
    requires Trimmed(s)
    ensures Strip(s) == s && !IsBlank(s)
  {
  }

  /** Where the first `c` in `s` sits, or `|s|` when `s` holds none. */
  function FirstIndex(s: string, c: char): (i: nat)
    ensures i <= |s| && c !in s[..i] && (i < |s| ==> s[i] == c)
  {
    if s == [] || s[0] == c then 0
    else
      var j := FirstIndex(s[1..], c);
      assert s[..j + 1] == [s[0]] + s[1..][..j];
      j + 1
  }

  /** The first separator after a separator-free prefix `p` is the one right after `p`. */
  lemma {:induction false} FirstIndexAfter(p: string, c: char, t: string)
    requires c !in p
    ensures FirstIndex(p + [c] + t, c) == |p|
  {
    if p != [] {
      FirstIndexAfter(p[1..], c, t);
      assert (p + [c] + t)[1..] == p[1..] + [c] + t;
    }
  }

  /**
   * `s.split(sep)` for a one-character separator: the pieces between
   * separators, always at least one (the empty string gives `[""]`).
   */
  function Split(s: string, sep: char): (parts: seq<string>)
    ensures |parts| >= 1
    ensures forall i :: 0 <= i < |parts| ==> sep !in parts[i]
    decreases |s|
  {
    var i := FirstIndex(s, sep);
    if i == |s| then [s]
    else
      var rest := Split(s[i + 1..], sep);
      assert forall k :: 1 <= k < |rest| + 1 ==> ([s[..i]] + rest)[k] == rest[k - 1];
      [s[..i]] + rest
  }

  /** `sep.join(parts)`. */
  function Join(parts: seq<string>, sep: string): string {
    if parts == [] then []
    else if |parts| == 1 then parts[0]
    else parts[0] + sep + Join(parts[1..], sep)
  }

  /** Joining the pieces of a split with the same separator gives the string back. */
  lemma {:induction false} JoinSplit(s: string, sep: char)
    ensures Join(Split(s, sep), [sep]) == s
    decreases |s|
  {
    var i := FirstIndex(s, sep);
    if i < |s| {
      var rest := s[i + 1..];
      JoinSplit(rest, sep);
      var parts := Split(s, sep);
      assert parts[0] == s[..i] && parts[1..] == Split(rest, sep);
      assert s == s[..i] + [sep] + rest;
    }
  }

  /** Splitting a join gives the pieces back, provided no piece holds the separator. */
  lemma {:induction false} SplitJoin(parts: seq<string>, sep: char)
    requires |parts| >= 1
    requires forall i :: 0 <= i < |parts| ==> sep !in parts[i]
    ensures Split(Join(parts, [sep]), sep) == parts
  {
    if |parts| > 1 {
      var p, rest := parts[0], Join(parts[1..], [sep]);
      SplitJoin(parts[1..], sep);
      assert Join(parts, [sep]) == p + [sep] + rest;
      FirstIndexAfter(p, sep, rest);
      assert (p + [sep] + rest)[..|p|] == p && (p + [sep] + rest)[|p| + 1..] == rest;
      assert parts == [p] + parts[1..];
    }
  }

  /** A join starts with the first piece when that piece is not empty. */
  lemma {:induction false} JoinStart(parts: seq<string>, sep: string)
    requires |parts| >= 1 && parts[0] != []
    ensures Join(parts, sep) != [] && Join(parts, sep)[0] == parts[0][0]
  {
  }

  /** A join ends with the last piece when that piece is not empty. */
  lemma {:induction false} JoinEnd(parts: seq<string>, sep: string)
    requires |parts| >= 1 && parts[|parts| - 1] != []
    ensures var j := Join(parts, sep); var p := parts[|parts| - 1];
      j != [] && j[|j| - 1] == p[|p| - 1]
  {
    if |parts| > 1 {
      JoinEnd(parts[1..], sep);
    }
  }

  /** A character that is neither in any piece nor in the separator is not in the join. */
  lemma {:induction false} JoinAvoids(parts: seq<string>, sep: string, c: char)
    requires c !in sep
    requires forall i :: 0 <= i < |parts| ==> c !in parts[i]
    ensures c !in Join(parts, sep)
  {
    if |parts| > 1 {
      JoinAvoids(parts[1..], sep, c);
    }
  }

  function DigitChar(d: nat): (c: char)
    requires d < 10
    ensures IsDigit(c)
  {
    ('0' as int + d) as char
  }

  function DigitValue(c: char): (d: nat)
    requires IsDigit(c)
    ensures d < 10
  {
    c as int - '0' as int
  }

  /** Decimal digits of `n`, most significant first, without leading zeros. */
  function NatToString(n: nat): (s: string)
    ensures |s| >= 1
  {
    if n < 10 then [DigitChar(n)] else NatToString(n / 10) + [DigitChar(n % 10)]
  }

  /** `"{}".format(i)` for an integer: an optional `-` followed by `NatToString`. */
  function IntToString(i: int): (s: string)
    ensures |s| >= 1
  {
    if i < 0 then "-" + NatToString(-i) else NatToString(i)
  }

  /** `NatToString` writes decimal digits only. */
  lemma {:induction false} NatToStringDigits(n: nat)
    ensures AllDigits(NatToString(n))
  {
    if n >= 10 {
      NatToStringDigits(n / 10);
      var s, t := NatToString(n), NatToString(n / 10);
      assert s == t + [DigitChar(n % 10)];
      forall i | 0 <= i < |s| ensures IsDigit(s[i]) {
        if i < |t| { assert s[i] == t[i]; }
      }
    }
  }

  /** `IntToString` writes digits, except for a leading minus sign, and ends with a digit. */
  lemma {:induction false} IntToStringChars(i: int)
    ensures var s := IntToString(i);
      && IsDigit(s[|s| - 1])
      && forall k :: 0 <= k < |s| ==> IsDigit(s[k]) || (k == 0 && s[k] == '-')
  {
    var n: nat := if i < 0 then -i else i;
    NatToStringDigits(n);
    var s, t := IntToString(i), NatToString(n);
    if i < 0 {
      assert s == "-" + t;
      forall k | 0 <= k < |s| ensures IsDigit(s[k]) || (k == 0 && s[k] == '-') {
        if k > 0 { assert s[k] == t[k - 1]; }
      }
    }
  }

  /** The number a non-empty run of decimal digits denotes. */
  function DigitsValue(s: string): nat
    requires AllDigits(s)
  {
    if s == [] then 0 else 10 * DigitsValue(s[..|s| - 1]) + DigitValue(s[|s| - 1])
  }

  /** `int` on an already stripped string: an optional sign and at least one decimal digit. */
  function ParseSigned(t: string): Option<int> {
    var negative := t != [] && t[0] == '-';
    var digits := if t != [] && (t[0] == '-' || t[0] == '+') then t[1..] else t;
    if digits != [] && AllDigits(digits) then
      var v: int := DigitsValue(digits);
      Some(if negative then -v else v)
    else None
  }

  /**
   * `int(s)` for a `str`: surrounding whitespace, an optional sign and at
   * least one decimal digit; anything else is a conversion failure (None).
   */
  function ParseInt(s: string): Option<int> {
    ParseSigned(Strip(s))
  }

  lemma {:induction false} DigitsValueOfNatToString(n: nat)
    ensures AllDigits(NatToString(n)) && DigitsValue(NatToString(n)) == n
  {
    NatToStringDigits(n);
    if n >= 10 {
      DigitsValueOfNatToString(n / 10);
      var s := NatToString(n);
      assert s[..|s| - 1] == NatToString(n / 10);
    }
  }

  /** A sign followed by digits reads back as the signed value of the digits. */
  lemma {:induction false} ParseSignedDigits(t: string, negative: bool, digits: string)
    requires digits != [] && AllDigits(digits)
    requires t == (if negative then "-" else "") + digits
    ensures ParseSigned(t) == Some(if negative then -(DigitsValue(digits) as int) else DigitsValue(digits))
  {
    var v: int := DigitsValue(digits);
    if negative {
      assert t[0] == '-' && t[1..] == digits;
      assert ParseSigned(t) == Some(-v);
    } else {
      assert t == digits;
      assert t[0] != '-' && t[0] != '+' by {
        assert IsDigit(digits[0]);
      }
      assert ParseSigned(t) == Some(v);
    }
  }

  /** A formatted integer carries no surrounding whitespace. */
  lemma {:induction false} IntToStringTrimmed(i: int)
    ensures Trimmed(IntToString(i)) && Strip(IntToString(i)) == IntToString(i)
  {
    var s := IntToString(i);
    IntToStringChars(i);
    assert IsDigit(s[0]) || s[0] == '-';
    StripTrimmed(s);
  }

  /** `int` reads back what `"{}".format` writes. */
  lemma {:induction false} ParseIntToString(i: int)
    ensures ParseInt(IntToString(i)) == Some(i)
  {
    var n: nat := if i < 0 then -i else i;
    DigitsValueOfNatToString(n);
    IntToStringTrimmed(i);
    ParseSignedDigits(IntToString(i), i < 0, NatToString(n));
  }

  /** Different integers are formatted differently. */
  lemma {:induction false} IntToStringInjective(i: int, j: int)
    requires IntToString(i) == IntToString(j)
    ensures i == j
  {
    ParseIntToString(i);
    ParseIntToString(j);
  }
}
