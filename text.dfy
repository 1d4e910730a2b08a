/**
 * The string operations the chart relies on: `String.prototype.split` on a
 * one-character separator, `String.prototype.trim`, and the decimal text of
 * an integer (what a template literal `${n}` produces for a whole number).
 */
module Text {

  /**
   * The characters `trim` removes: the ECMAScript WhiteSpace and
   * LineTerminator code points.
   */
  predicate IsSpace(c: char)
  {
    || c == ' ' || c == '\t' || c == '\n' || c == '\r'
    || c == '\U{000B}' || c == '\U{000C}' || c == '\U{00A0}' || c == '\U{FEFF}'
    || c == '\U{1680}' || ('\U{2000}' <= c <= '\U{200A}')
    || c == '\U{2028}' || c == '\U{2029}' || c == '\U{202F}' || c == '\U{205F}'
    || c == '\U{3000}'
  }

  predicate AllSpace(s: string)
  {
    forall i :: 0 <= i < |s| ==> IsSpace(s[i])
  }

  /** `s` with its leading white space removed. */
  function TrimStart(s: string): (r: string)
    ensures |r| <= |s| && r == s[|s| - |r|..]
    ensures AllSpace(s[..|s| - |r|])
    ensures r == [] || !IsSpace(r[0])
  {
    if s != [] && IsSpace(s[0]) then
      var r := TrimStart(s[1..]);
      SpacePrefixCons(s, r);
      r
    else s
  }

  /** A white-space first character extends the white-space run that `TrimStart` cut off. */
  lemma SpacePrefixCons(s: string, r: string)
    requires s != [] && IsSpace(s[0])
    requires |r| <= |s| - 1 && r == s[1..][|s| - 1 - |r|..] && AllSpace(s[1..][..|s| - 1 - |r|])
    ensures r == s[|s| - |r|..] && AllSpace(s[..|s| - |r|])
  {
    var k := |s| - |r|;
    assert forall i :: 1 <= i < k ==> s[..k][i] == s[1..][..k - 1][i - 1];
  }

  /** A white-space last character extends a white-space run before it. */
  lemma SpaceSuffixSnoc(s: string, k: nat)
    requires k < |s| && IsSpace(s[|s| - 1]) && AllSpace(s[..|s| - 1][k..])
    ensures AllSpace(s[k..])
  {
    assert forall i :: 0 <= i < |s| - 1 - k ==> s[k..][i] == s[..|s| - 1][k..][i];
  }

  /** `s` with its trailing white space removed. */
  function TrimEnd(s: string): (r: string)
    ensures |r| <= |s| && r == s[..|r|]
    ensures AllSpace(s[|r|..])
    ensures r == [] || !IsSpace(r[|r| - 1])
  {
    if s != [] && IsSpace(s[|s| - 1]) then
      var r := TrimEnd(s[..|s| - 1]);
      SpaceSuffixSnoc(s, |r|);
      r
    else s
  }

  /**
   * `String.prototype.trim`: the result is the part of `s` left after a
   * white-space prefix and a white-space suffix are cut off, and it neither
   * starts nor ends with white space.
   */
  function Trim(s: string): (r: string)
    ensures exists lo, hi :: 0 <= lo <= hi <= |s| && r == s[lo..hi]
                             && AllSpace(s[..lo]) && AllSpace(s[hi..])
    ensures r == [] || (!IsSpace(r[0]) && !IsSpace(r[|r| - 1]))
  {
    var a := TrimStart(s);
    var r := TrimEnd(a);
    TrimCut(s, a, r);
    r
  }

  /** The cuts of `TrimStart` and then `TrimEnd` are a prefix and a suffix of `s`. */
  lemma TrimCut(s: string, a: string, r: string)
    requires |a| <= |s| && a == s[|s| - |a|..] && AllSpace(s[..|s| - |a|])
    requires |r| <= |a| && r == a[..|r|] && AllSpace(a[|r|..])
    ensures exists lo, hi :: 0 <= lo <= hi <= |s| && r == s[lo..hi]
                             && AllSpace(s[..lo]) && AllSpace(s[hi..])
  {
    var lo, hi := |s| - |a|, |s| - |a| + |r|;
    assert r == s[lo..hi];
    assert s[hi..] == a[|r|..];
  }

  /** A string of white space only trims to the empty string. */
  lemma TrimAllSpace(s: string)
    requires AllSpace(s)
    ensures Trim(s) == ""
  {
  }

  /** Only a blank string trims to "". */
  lemma TrimBlankOnly(s: string)
    requires !AllSpace(s)
    ensures Trim(s) != ""
  {
    if Trim(s) == "" {
      var lo, hi :| 0 <= lo <= hi <= |s| && Trim(s) == s[lo..hi] && AllSpace(s[..lo]) && AllSpace(s[hi..]);
      forall i | 0 <= i < |s|
        ensures IsSpace(s[i])
      {
        if i < lo {
          assert s[..lo][i] == s[i];
        } else {
          assert s[hi..][i - hi] == s[i];
        }
      }
      assert false;
    }
  }

  /** A string that neither starts nor ends with white space is left as it is. */
  lemma TrimKeeps(s: string)
    requires s == [] || (!IsSpace(s[0]) && !IsSpace(s[|s| - 1]))
    ensures Trim(s) == s
  {
  }

  /** The pieces of `parts` with `sep` between consecutive ones. */
  function Join(parts: seq<string>, sep: char): string
  {
    if parts == [] then ""
    else if |parts| == 1 then parts[0]
    else parts[0] + [sep] + Join(parts[1..], sep)
  }

  /**
   * `s.split(sep)` for a one-character separator: the maximal runs between
   * separators, so always at least one piece and none holding `sep`.
   */
  function Split(s: string, sep: char): (r: seq<string>)
    ensures |r| >= 1
    ensures forall i :: 0 <= i < |r| ==> sep !in r[i]
  {
    if s == [] then [""]
    else
      var rest := Split(s[1..], sep);
      if s[0] == sep then [""] + rest
      else [[s[0]] + rest[0]] + rest[1..]
  }

  /** Joining the pieces back with the separator gives the original string. */
  lemma {:induction false} JoinSplit(s: string, sep: char)
    ensures Join(Split(s, sep), sep) == s
  {
    if s != [] {
      var rest := Split(s[1..], sep);
      JoinSplit(s[1..], sep);
      if s[0] != sep {
        if |rest| == 1 {
          assert Join(rest, sep) == rest[0];
        } else {
          assert Join(rest, sep) == rest[0] + [sep] + Join(rest[1..], sep);
        }
        assert s == [s[0]] + s[1..];
      }
    }
  }

  /** Splitting a join of separator-free pieces gives the pieces back. */
  lemma {:induction false} SplitJoin(parts: seq<string>, sep: char)
    requires |parts| >= 1
    requires forall i :: 0 <= i < |parts| ==> sep !in parts[i]
    ensures Split(Join(parts, sep), sep) == parts
  {
    if |parts| == 1 {
      SplitPiece(parts[0], sep);
    } else {
      var tail := Join(parts[1..], sep);
      SplitJoin(parts[1..], sep);
      SplitPrefix(parts[0], tail, sep);
    }
  }

  /** A separator-free string is a single piece. */
  lemma {:induction false} SplitPiece(p: string, sep: char)
    requires sep !in p
    ensures Split(p, sep) == [p]
  {
    if p != [] {
      SplitPiece(p[1..], sep);
      assert [p[0]] + p[1..] == p;
    }
  }

  /** A separator-free prefix followed by the separator starts its own piece. */
  lemma {:induction false} SplitPrefix(p: string, tail: string, sep: char)
    requires sep !in p
    ensures Split(p + [sep] + tail, sep) == [p] + Split(tail, sep)
  {
    var s := p + [sep] + tail;
    if p == [] {
      assert s[1..] == tail;
    } else {
      assert s[1..] == p[1..] + [sep] + tail;
      SplitPrefix(p[1..], tail, sep);
      assert [p[0]] + p[1..] == p;
    }
  }

  predicate IsDigit(c: char)
  {
    '0' <= c <= '9'
  }

  function DigitChar(d: nat): (c: char)
    requires d < 10
    ensures IsDigit(c) && c as int - '0' as int == d
  {
    (d + '0' as int) as char
  }

  /** The value of a string of decimal digits. */
  function DigitsValue(s: string): nat
    requires forall i :: 0 <= i < |s| ==> IsDigit(s[i])
  {
    if s == [] then 0
    else
      assert IsDigit(s[|s| - 1]);
      10 * DigitsValue(s[..|s| - 1]) + (s[|s| - 1] as int - '0' as int)
  }

  /** The shortest decimal text of a natural number: digits only, no leading zero. */
  function NatToString(n: nat): (r: string)
    ensures |r| >= 1
    ensures forall i :: 0 <= i < |r| ==> IsDigit(r[i])
    ensures r[0] == '0' ==> n == 0
  {
    if n < 10 then [DigitChar(n)]
    else NatToString(n / 10) + [DigitChar(n % 10)]
  }

  /** Reading the decimal text back gives the number. */
  lemma {:induction false} NatToStringRoundTrip(n: nat)
    ensures DigitsValue(NatToString(n)) == n
  {
    if n >= 10 {
      var s := NatToString(n);
      NatToStringRoundTrip(n / 10);
      assert s[..|s| - 1] == NatToString(n / 10);
    }
  }

  /** The decimal text of an integer, with a leading '-' when it is negative. */
  function IntToString(n: int): (r: string)
    ensures |r| >= 1
    ensures n < 0 <==> r[0] == '-'
    ensures n < 0 ==> r == "-" + NatToString(-n)
    ensures n >= 0 ==> r == NatToString(n)
    ensures n < 0 ==> |r| >= 2 && (forall i :: 1 <= i < |r| ==> IsDigit(r[i])) && DigitsValue(r[1..]) == -n
    ensures n >= 0 ==> DigitsValue(r) == n
  {
    if n < 0 then
      NatToStringRoundTrip(-n);
      var digits := NatToString(-n);
      assert ("-" + digits)[1..] == digits;
      "-" + digits
    else
      NatToStringRoundTrip(n);
      NatToString(n)
  }
}
