/**
  The pieces of Python's `str` that the certificate workflow relies on:
  `strip()`, `lower()`, `replace(old, new)` and `f"{n}"` for a natural number.
*/
module Text {

  /** Python's `str.isspace` for one character: the characters `strip()` removes. */
  predicate IsSpace(ch: char) {
    || ch == ' '
    || ('\t' <= ch <= '\r')
    || ('\U{1c}' <= ch <= '\U{1f}')
    || ch == '\U{85}' || ch == '\U{a0}' || ch == '\U{1680}'
    || ('\U{2000}' <= ch <= '\U{200a}')
    || ch == '\U{2028}' || ch == '\U{2029}' || ch == '\U{202f}'
    || ch == '\U{205f}' || ch == '\U{3000}'
  }

  /** `s.lstrip()`: a suffix of `s`; everything dropped is whitespace and the result does not start with it. */
  function TrimStart(s: string): (r: string)
    ensures |r| <= |s| && r == s[|s| - |r|..]
    ensures forall k :: 0 <= k < |s| - |r| ==> IsSpace(s[k])
    ensures r == [] || !IsSpace(r[0])
  {
    if s != [] && IsSpace(s[0]) then TrimStart(s[1..]) else s
  }

  /** `s.rstrip()`: a prefix of `s`; everything dropped is whitespace and the result does not end with it. */
  function TrimEnd(s: string): (r: string)
    ensures |r| <= |s| && r == s[..|r|]
    ensures forall k :: |r| <= k < |s| ==> IsSpace(s[k])
    ensures r == [] || !IsSpace(r[|r| - 1])
  {
    if s != [] && IsSpace(s[|s| - 1]) then TrimEnd(s[..|s| - 1]) else s
  }

  /** `s.strip()`: whitespace dropped on both sides (characterised by `StripIsSlice`). */
  function Strip(s: string): (r: string)
    ensures |r| <= |s|
    ensures r == [] || (!IsSpace(r[0]) && !IsSpace(r[|r| - 1]))
  {
    TrimEnd(TrimStart(s))
  }

  /**
    `Strip(s)` is the slice of `s` that remains once whitespace is dropped on
    both sides: everything outside it is whitespace, and (by the contract of
    `Strip`) it neither starts nor ends with whitespace.
  */
  lemma StripIsSlice(s: string)
    ensures var r, i := Strip(s), |s| - |TrimStart(s)|;
      && i + |r| <= |s|
      && r == s[i..i + |r|]
      && (forall k :: 0 <= k < i ==> IsSpace(s[k]))
      && (forall k :: i + |r| <= k < |s| ==> IsSpace(s[k]))
  {
    var t := TrimStart(s);
    var r := TrimEnd(t);
    var i := |s| - |t|;
    assert t == s[i..];
    assert r == t[..|r|];
    forall k | i + |r| <= k < |s| ensures IsSpace(s[k]) {
      assert s[k] == t[k - i];
    }
  }

  /** A string with no whitespace at either end is its own strip. */
  lemma StripFixed(s: string)
    requires s == [] || (!IsSpace(s[0]) && !IsSpace(s[|s| - 1]))
    ensures Strip(s) == s
  {
  }

  /** `strip()` is idempotent. */
  lemma StripIdempotent(s: string)
    ensures Strip(Strip(s)) == Strip(s)
  {
    StripFixed(Strip(s));
  }

  /** `strip()` yields the empty string exactly when the input is all whitespace. */
  lemma StripEmptyIff(s: string)
    ensures Strip(s) == [] <==> forall k :: 0 <= k < |s| ==> IsSpace(s[k])
  {
    StripIsSlice(s);
    if Strip(s) != [] {
      var i := |s| - |TrimStart(s)|;
      assert s[i] == Strip(s)[0];
    }
  }

  /** Python's `str.lower` restricted to ASCII letters. */
  function LowerChar(ch: char): (r: char)
    ensures 'A' <= ch <= 'Z' ==> r as int == ch as int + 32
    ensures !('A' <= ch <= 'Z') ==> r == ch
  {
    if 'A' <= ch <= 'Z' then (ch as int + 32) as char else ch
  }

  function Lower(s: string): (r: string)
    ensures |r| == |s|
    ensures forall k :: 0 <= k < |s| ==> r[k] == LowerChar(s[k])
  {
    if s == [] then [] else [LowerChar(s[0])] + Lower(s[1..])
  }

  /** The pattern `p` occurs in `s` starting at index `i`. */
  predicate OccursAt(s: string, p: string, i: int) {
    0 <= i && i + |p| <= |s| && s[i..i + |p|] == p
  }

  /** Python's `p in s`. */
  predicate Contains(s: string, p: string) {
    exists i | 0 <= i <= |s| - |p| :: OccursAt(s, p, i)
  }

  /**
    Python's `s.replace(pat, rep)`: scans left to right and replaces every
    non-overlapping occurrence of `pat`.
  */
  function Replace(s: string, pat: string, rep: string): string
    requires pat != []
    decreases |s|
  {
    if |s| < |pat| then s
    else if s[..|pat|] == pat then rep + Replace(s[|pat|..], pat, rep)
    else [s[0]] + Replace(s[1..], pat, rep)
  }

  /** When the pattern does not occur, `replace` returns the string unchanged. */
  lemma {:induction false} ReplaceAbsent(s: string, pat: string, rep: string)
    requires pat != []
    requires !Contains(s, pat)
    ensures Replace(s, pat, rep) == s
    decreases |s|
  {
    if |s| < |pat| {
    } else {
      assert !OccursAt(s, pat, 0);
      forall i | OccursAt(s[1..], pat, i) ensures false {
        assert s[1..][i..i + |pat|] == s[i + 1..i + 1 + |pat|];
        assert OccursAt(s, pat, i + 1);
      }
      ReplaceAbsent(s[1..], pat, rep);
    }
  }

  /** A string without a given character does not contain any pattern starting with it. */
  lemma AbsentChar(s: string, p: string)
    requires p != [] && p[0] !in s
    ensures !Contains(s, p)
  {
  }

  function DigitChar(d: nat): char
    requires d < 10
  {
    "0123456789"[d]
  }

  predicate IsDigit(ch: char) {
    '0' <= ch <= '9'
  }

  /** Python's `f"{n}"` for a natural number: decimal digits without leading zeros. */
  function NatToString(n: nat): (r: string)
    ensures r != []
    ensures forall k :: 0 <= k < |r| ==> IsDigit(r[k])
    ensures r[0] == '0' ==> n == 0 && r == "0"
    decreases n
  {
    if n < 10 then [DigitChar(n)] else NatToString(n / 10) + [DigitChar(n % 10)]
  }

  /** The value of a string of decimal digits (Python's `int(s)`). */
  function DigitsValue(s: string): nat
    requires forall k :: 0 <= k < |s| ==> IsDigit(s[k])
  {
    if s == [] then 0
    else DigitsValue(s[..|s| - 1]) * 10 + DigitValue(s[|s| - 1])
  }

  function DigitValue(ch: char): nat
    requires IsDigit(ch)
  {
    ch as int - '0' as int
  }

  /** Printing a number and reading it back gives the number: the rendering is injective. */
  lemma {:induction false} NatToStringRoundTrip(n: nat)
    ensures DigitsValue(NatToString(n)) == n
    decreases n
  {
    var r := NatToString(n);
    if n >= 10 {
      NatToStringRoundTrip(n / 10);
      assert r[..|r| - 1] == NatToString(n / 10);
    }
  }

  lemma NatToStringInjective(m: nat, n: nat)
    requires NatToString(m) == NatToString(n)
    ensures m == n
  {
    NatToStringRoundTrip(m);
    NatToStringRoundTrip(n);
  }

  lemma ConcatAssociative(a: string, b: string, c: string)
    ensures (a + b) + c == a + (b + c)
  {
  }
}
