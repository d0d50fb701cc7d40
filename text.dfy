/** The string operations the program relies on: .NET white space, `Trim`, and decimal `ToString`. */
module Text {

  /** `char.IsWhiteSpace`: the Unicode White_Space characters of the Basic Multilingual Plane. */
  predicate IsWhiteSpace(c: char) {
    ('\t' <= c <= '\r') || c == ' ' || c == '\U{85}' || c == '\U{A0}' || c == '\U{1680}'
    || ('\U{2000}' <= c <= '\U{200A}') || c == '\U{2028}' || c == '\U{2029}'
    || c == '\U{202F}' || c == '\U{205F}' || c == '\U{3000}'
  }

  /** `string.IsNullOrWhiteSpace` on a non-null string: empty or white space only. */
  predicate IsBlank(s: string) {
    forall i :: 0 <= i < |s| ==> IsWhiteSpace(s[i])
  }

  /** Drops the longest white-space prefix. */
  function TrimStart(s: string): (r: string)
    ensures |r| <= |s| && r == s[|s| - |r|..]
    ensures r == [] || !IsWhiteSpace(r[0])
    ensures forall i :: 0 <= i < |s| - |r| ==> IsWhiteSpace(s[i])
  {
    if s != [] && IsWhiteSpace(s[0]) then TrimStart(s[1..]) else s
  }

  /** Drops the longest white-space suffix. */
  function TrimEnd(s: string): (r: string)
    ensures |r| <= |s| && r == s[..|r|]
    ensures r == [] || !IsWhiteSpace(r[|r| - 1])
    ensures forall i :: |r| <= i < |s| ==> IsWhiteSpace(s[i])
  {
    if s != [] && IsWhiteSpace(s[|s| - 1]) then TrimEnd(s[..|s| - 1]) else s
  }

  /** `string.Trim()`: the text between the leading and the trailing white space. */
  function Trim(s: string): (r: string)
    ensures |r| <= |s|
    ensures r == [] || (!IsWhiteSpace(r[0]) && !IsWhiteSpace(r[|r| - 1]))
  {
    var t := TrimStart(s);
    var r := TrimEnd(t);
    assert r != [] ==> r[0] == t[..|r|][0];
    r
  }

  /** The result of `Trim` is a slice of its input and everything cut away is white space. */
  lemma TrimIsSlice(s: string) returns (lo: nat)
    ensures lo + |Trim(s)| <= |s| && Trim(s) == s[lo..lo + |Trim(s)|]
    ensures forall i :: 0 <= i < lo ==> IsWhiteSpace(s[i])
    ensures forall i :: lo + |Trim(s)| <= i < |s| ==> IsWhiteSpace(s[i])
  {
    var t := TrimStart(s);
    lo := |s| - |t|;
    PrefixOfSuffix(s, lo, t, TrimEnd(t));
  }

  /** A prefix `r` of the suffix `t` of `s` from `lo` is the slice of `s` from `lo`, and the
      rest of `s` is the rest of `t`. */
  lemma PrefixOfSuffix(s: string, lo: nat, t: string, r: string)
    requires lo <= |s| && t == s[lo..] && |r| <= |t| && r == t[..|r|]
    ensures r == s[lo..lo + |r|]
    ensures forall i :: lo + |r| <= i < |s| ==> s[i] == t[i - lo]
  {
  }

  /** A string is blank exactly when trimming leaves nothing. */
  lemma BlankIffTrimsToEmpty(s: string)
    ensures IsBlank(s) <==> Trim(s) == []
  {
    var lo := TrimIsSlice(s);
    if Trim(s) == [] {
      forall i | 0 <= i < |s| ensures IsWhiteSpace(s[i]) {
      }
    } else {
      assert s[lo] == Trim(s)[0];
    }
  }

  /** Trimming twice is trimming once. */
  lemma TrimIdempotent(s: string)
    ensures Trim(Trim(s)) == Trim(s)
  {
    var t := Trim(s);
    var lo := TrimIsSlice(s);
    if t != [] {
      assert TrimStart(t) == t;
      assert TrimEnd(t) == t;
    }
  }

  /** Trimming does not change whether a string is blank. */
  lemma BlankAfterTrim(s: string)
    ensures IsBlank(Trim(s)) <==> IsBlank(s)
  {
    BlankIffTrimsToEmpty(s);
    BlankIffTrimsToEmpty(Trim(s));
    TrimIdempotent(s);
  }

  /** A name as the `Name` setter stores it: non-empty, with no white space at either end. */
  predicate IsTrimmedName(s: string) {
    s != [] && !IsWhiteSpace(s[0]) && !IsWhiteSpace(s[|s| - 1])
  }

  /** Trimmed names are exactly the strings that are not blank and that `Trim` leaves alone. */
  lemma TrimmedNameIff(s: string)
    ensures IsTrimmedName(s) <==> !IsBlank(s) && Trim(s) == s
  {
    BlankIffTrimsToEmpty(s);
    var lo := TrimIsSlice(s);
    if IsTrimmedName(s) {
      assert TrimStart(s) == s;
      assert TrimEnd(s) == s;
    }
  }

  /** Trimming a string that is not blank yields a trimmed name. */
  lemma TrimmedNameOf(s: string)
    requires !IsBlank(s)
    ensures IsTrimmedName(Trim(s))
  {
    BlankIffTrimsToEmpty(s);
    var lo := TrimIsSlice(s);
  }

  function DigitChar(d: nat): (c: char)
    requires d < 10
    ensures '0' <= c <= '9' && (c as int) - ('0' as int) == d
  {
    ['0', '1', '2', '3', '4', '5', '6', '7', '8', '9'][d]
  }

  /** Among the ASCII characters, white space is the space and the five control characters
      from tab to carriage return. */
  lemma AsciiWhiteSpace(c: char)
    requires c < '\U{80}'
    ensures IsWhiteSpace(c) <==> c == ' ' || '\t' <= c <= '\r'
  {
  }

  /** `n.ToString()` for a non-negative `int`: decimal, no leading zeros. */
  function NatToString(n: nat): (r: string)
    ensures |r| >= 1 && (|r| > 1 ==> r[0] != '0')
    ensures forall i :: 0 <= i < |r| ==> '0' <= r[i] <= '9'
    decreases n
  {
    if n < 10 then [DigitChar(n)] else NatToString(n / 10) + [DigitChar(n % 10)]
  }

  /** `i.ToString()` for any `int` in the invariant culture. */
  function IntToString(i: int): (r: string)
    ensures |r| >= 1
    ensures forall k :: 0 <= k < |r| ==> r[k] == '-' || '0' <= r[k] <= '9'
  {
    if i < 0 then "-" + NatToString(-i) else NatToString(i)
  }

  /** The value of a string of decimal digits. */
  function DigitsValue(s: string): nat
    requires forall i :: 0 <= i < |s| ==> '0' <= s[i] <= '9'
  {
    if s == [] then 0 else 10 * DigitsValue(s[..|s| - 1]) + ((s[|s| - 1] as int) - ('0' as int))
  }

  /** Reading back the decimal text of `n` gives `n`. */
  lemma {:induction false} NatToStringRoundTrip(n: nat)
    ensures DigitsValue(NatToString(n)) == n
    decreases n
  {
    var r := NatToString(n);
    if n >= 10 {
      NatToStringRoundTrip(n / 10);
      assert r[..|r| - 1] == NatToString(n / 10);
    }
  }

  /** Reading back the text of `i`: a leading minus sign exactly for a negative value, followed
      by the decimal digits of its magnitude. */
  lemma {:induction false} IntToStringRoundTrip(i: int)
    ensures IntToString(i)[0] == '-' <==> i < 0
    ensures i >= 0 ==> DigitsValue(IntToString(i)) == i
    ensures i < 0 ==> IntToString(i)[1..] == NatToString(-i) && DigitsValue(IntToString(i)[1..]) == -i
  {
    var n: nat := if i < 0 then -i else i;
    var r := NatToString(n);
    NatToStringRoundTrip(n);
    assert '0' <= r[0] <= '9';
    if i < 0 {
      var s := "-" + r;
      assert IntToString(i) == s;
      assert s[1..] == r;
    } else {
      assert IntToString(i) == r;
    }
  }
}
