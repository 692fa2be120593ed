/** String operations with the meaning Python gives them: lower-casing,
    substring search, `replace(pat, "")`, `strip()`, `ljust`, and the
    `"\n".join` / `split("\n")` pair. */
module Strings {
  import opened Common

  // ---------------------------------------------------------------------------
  // Case

  /** `str.lower` on one character; only the ASCII letters are mapped. */
  function LowerChar(c: char): char {
    if 'A' <= c <= 'Z' then (c as int + 32) as char else c
  }

  /** `str.lower` on ASCII text: no upper-case letter survives, each
      upper-case letter becomes its lower-case partner, and every other
      character is kept where it was. */
  function Lower(s: string): (r: string)
    ensures |r| == |s|
    ensures forall i :: 0 <= i < |r| ==> !('A' <= r[i] <= 'Z')
    ensures forall i :: 0 <= i < |s| && 'A' <= s[i] <= 'Z' ==> r[i] as int == s[i] as int + 32
    ensures forall i :: 0 <= i < |s| && !('A' <= s[i] <= 'Z') ==> r[i] == s[i]
    ensures forall i :: 0 <= i < |s| ==> r[i] == LowerChar(s[i])
  {
    seq(|s|, i requires 0 <= i < |s| => LowerChar(s[i]))
  }

  /** Lower-casing twice is lower-casing once. */
  lemma LowerIdempotent(s: string)
    ensures Lower(Lower(s)) == Lower(s)
  {
    var l := Lower(s);
    forall i | 0 <= i < |s|
      ensures Lower(l)[i] == l[i]
    {
      assert LowerChar(LowerChar(s[i])) == LowerChar(s[i]);
    }
  }

  // ---------------------------------------------------------------------------
  // Substring search (Python's `needle in hay`)

  /** `needle` occurs in `hay` starting at index `i`. */
  predicate OccursAt(hay: string, needle: string, i: int) {
    0 <= i && i + |needle| <= |hay| && hay[i..i + |needle|] == needle
  }

  /** Executable substring test, scanning from the left. */
  function Contains(hay: string, needle: string): bool
    decreases |hay|
  {
    if |needle| > |hay| then false
    else if hay[..|needle|] == needle then true
    else Contains(hay[1..], needle)
  }

  lemma OccursAtShift(hay: string, needle: string, i: int)
    requires |hay| > 0 && 0 <= i
    ensures OccursAt(hay[1..], needle, i) <==> OccursAt(hay, needle, i + 1)
  {
    if i + |needle| <= |hay| - 1 {
      assert hay[1..][i..i + |needle|] == hay[i + 1..i + 1 + |needle|];
    }
  }

  /** `Contains` holds exactly when the needle occurs at some index. */
  lemma {:induction false} ContainsIff(hay: string, needle: string)
    ensures Contains(hay, needle) <==> exists i :: OccursAt(hay, needle, i)
    decreases |hay|
  {
    if |needle| > |hay| {
    } else if hay[..|needle|] == needle {
      assert OccursAt(hay, needle, 0);
    } else {
      ContainsIff(hay[1..], needle);
      if Contains(hay[1..], needle) {
        var i :| OccursAt(hay[1..], needle, i);
        OccursAtShift(hay, needle, i);
      } else if exists i :: OccursAt(hay, needle, i) {
        var i :| OccursAt(hay, needle, i);
        assert i != 0;
        OccursAtShift(hay, needle, i - 1);
        assert false;
      }
    }
  }

  // ---------------------------------------------------------------------------
  // `s.replace(pat, "")`: left-to-right removal of non-overlapping occurrences

  function RemoveAll(s: string, pat: string): (r: string)
    requires |pat| > 0
    ensures |r| <= |s|
    decreases |s|
  {
    if |s| < |pat| then s
    else if s[..|pat|] == pat then RemoveAll(s[|pat|..], pat)
    else [s[0]] + RemoveAll(s[1..], pat)
  }

  /** A leading occurrence of the pattern is removed. */
  lemma RemoveAllPrefix(pat: string, s: string)
    requires |pat| > 0
    ensures RemoveAll(pat + s, pat) == RemoveAll(s, pat)
  {
    assert (pat + s)[..|pat|] == pat;
    assert (pat + s)[|pat|..] == s;
  }

  // ---------------------------------------------------------------------------
  // `str.strip()`

  /** Python's `str.isspace` for one character. */
  predicate IsSpace(c: char) {
    || '\t' <= c <= '\r'
    || '\U{1C}' <= c <= ' '
    || c == '\U{85}' || c == '\U{A0}' || c == '\U{1680}'
    || '\U{2000}' <= c <= '\U{200A}'
    || c == '\U{2028}' || c == '\U{2029}' || c == '\U{202F}'
    || c == '\U{205F}' || c == '\U{3000}'
  }

  /** Drops leading whitespace. */
  function StripStart(s: string): string
    decreases |s|
  {
    if |s| > 0 && IsSpace(s[0]) then StripStart(s[1..]) else s
  }

  /** Drops trailing whitespace. */
  function StripEnd(s: string): string
    decreases |s|
  {
    if |s| > 0 && IsSpace(s[|s| - 1]) then StripEnd(s[..|s| - 1]) else s
  }

  /** `StripStart` leaves a suffix, drops only whitespace and stops at the
      first character that is not whitespace. */
  lemma {:induction false} StripStartSpec(s: string)
    ensures |StripStart(s)| <= |s| && StripStart(s) == s[|s| - |StripStart(s)|..]
    ensures forall i :: 0 <= i < |s| - |StripStart(s)| ==> IsSpace(s[i])
    ensures |StripStart(s)| > 0 ==> !IsSpace(StripStart(s)[0])
    decreases |s|
  {
    if |s| > 0 && IsSpace(s[0]) {
      StripStartSpec(s[1..]);
      var r := StripStart(s[1..]);
      assert s[1..][|s| - 1 - |r|..] == s[|s| - |r|..];
      forall i | 1 <= i < |s| - |r|
        ensures IsSpace(s[i])
      {
        assert s[i] == s[1..][i - 1];
      }
    }
  }

  /** `StripEnd` leaves a prefix, drops only whitespace and stops at the last
      character that is not whitespace. */
  lemma {:induction false} StripEndSpec(s: string)
    ensures |StripEnd(s)| <= |s| && StripEnd(s) == s[..|StripEnd(s)|]
    ensures forall i :: |StripEnd(s)| <= i < |s| ==> IsSpace(s[i])
    ensures |StripEnd(s)| > 0 ==> !IsSpace(StripEnd(s)[|StripEnd(s)| - 1])
    decreases |s|
  {
    if |s| > 0 && IsSpace(s[|s| - 1]) {
      StripEndSpec(s[..|s| - 1]);
      var r := StripEnd(s[..|s| - 1]);
      assert s[..|s| - 1][..|r|] == s[..|r|];
      forall i | |r| <= i < |s| - 1
        ensures IsSpace(s[i])
      {
        assert s[i] == s[..|s| - 1][i];
      }
    }
  }

  function Strip(s: string): string {
    StripEnd(StripStart(s))
  }

  /** `strip()` returns a slice of its argument whose ends are not
      whitespace, and only whitespace is cut off on either side. */
  lemma StripIsTrimmedSlice(s: string)
    ensures exists a, b ::
              && 0 <= a <= b <= |s| && Strip(s) == s[a..b]
              && (forall i :: 0 <= i < a ==> IsSpace(s[i]))
              && (forall i :: b <= i < |s| ==> IsSpace(s[i]))
    ensures |Strip(s)| > 0 ==> !IsSpace(Strip(s)[0]) && !IsSpace(Strip(s)[|Strip(s)| - 1])
  {
    var t := StripStart(s);
    var r := StripEnd(t);
    StripStartSpec(s);
    StripEndSpec(t);
    var a := |s| - |t|;
    var b := a + |r|;
    assert r == s[a..b];
    forall i | b <= i < |s|
      ensures IsSpace(s[i])
    {
      assert s[i] == t[i - a];
    }
    if |r| > 0 {
      assert r[0] == t[0];
    }
  }

  // ---------------------------------------------------------------------------
  // Padding

  function Repeat(c: char, n: nat): (r: string)
    ensures |r| == n
    ensures forall i :: 0 <= i < n ==> r[i] == c
  {
    if n == 0 then "" else [c] + Repeat(c, n - 1)
  }

  /** `s.ljust(w)`: the string followed by spaces up to width `w`; never truncates. */
  function LJust(s: string, w: int): (r: string)
    ensures |r| == Max(w, |s|)
    ensures r[..|s|] == s
    ensures forall i :: |s| <= i < |r| ==> r[i] == ' '
  {
    if w > |s| then s + Repeat(' ', w - |s|) else s
  }

  // ---------------------------------------------------------------------------
  // Lines

  /** `"\n".join(lines)`. */
  function JoinLines(lines: seq<string>): string {
    if |lines| == 0 then ""
    else if |lines| == 1 then lines[0]
    else lines[0] + "\n" + JoinLines(lines[1..])
  }

  /** Index of the first occurrence of `c`. */
  function IndexOf(s: string, c: char): (r: Option<nat>)
    ensures r.Some? ==>
              && r.value < |s| && s[r.value] == c
              && forall j :: 0 <= j < r.value ==> s[j] != c
    ensures r.None? ==> forall j :: 0 <= j < |s| ==> s[j] != c
  {
    if |s| == 0 then None
    else if s[0] == c then Some(0)
    else match IndexOf(s[1..], c)
      case None => None
      case Some(k) => Some(k + 1)
  }

  /** `s.split("\n")`. */
  function SplitLines(s: string): seq<string>
    decreases |s|
  {
    match IndexOf(s, '\n')
    case None => [s]
    case Some(i) => [s[..i]] + SplitLines(s[i + 1..])
  }

  predicate NoNewline(s: string) {
    forall i :: 0 <= i < |s| ==> s[i] != '\n'
  }

  /** Joining lines that hold no newline and splitting the result gives the lines back. */
  lemma {:induction false} SplitJoin(lines: seq<string>)
    requires |lines| > 0
    requires forall k :: 0 <= k < |lines| ==> NoNewline(lines[k])
    ensures SplitLines(JoinLines(lines)) == lines
  {
    if |lines| == 1 {
      assert IndexOf(lines[0], '\n').None?;
    } else {
      var rest := JoinLines(lines[1..]);
      var s := lines[0] + "\n" + rest;
      var n := |lines[0]|;
      assert s[n] == '\n';
      assert forall j :: 0 <= j < n ==> s[j] == lines[0][j];
      assert IndexOf(s, '\n') == Some(n);
      assert s[..n] == lines[0];
      assert s[n + 1..] == rest;
      SplitJoin(lines[1..]);
      assert [lines[0]] + lines[1..] == lines;
    }
  }

  /** The joined text is as long as its lines plus one separator between each pair. */
  lemma {:induction false} JoinLength(lines: seq<string>, w: nat)
    requires |lines| > 0
    requires forall k :: 0 <= k < |lines| ==> |lines[k]| == w
    ensures |JoinLines(lines)| == |lines| * (w + 1) - 1
  {
    if |lines| > 1 {
      JoinLength(lines[1..], w);
    }
  }

  // ---------------------------------------------------------------------------
  // Decimal rendering (Python's `str(int)`)

  predicate IsDigit(c: char) {
    '0' <= c <= '9'
  }

  function DigitChar(d: int): char
    requires 0 <= d < 10
  {
    "0123456789"[d]
  }

  function NatToDecimal(n: nat): (r: string)
    ensures |r| > 0
    ensures forall i :: 0 <= i < |r| ==> IsDigit(r[i])
  {
    if n < 10 then [DigitChar(n)] else NatToDecimal(n / 10) + [DigitChar(n % 10)]
  }

  function IntToDecimal(i: int): (r: string)
    ensures |r| > 0
    ensures i >= 0 ==> r == NatToDecimal(i)
    ensures i < 0 ==> r[0] == '-' && r[1..] == NatToDecimal(-i)
  {
    if i < 0 then "-" + NatToDecimal(-i) else NatToDecimal(i)
  }

  /** The value of a digit character. */
  function DigitValue(c: char): (d: nat)
    requires IsDigit(c)
    ensures d < 10 && DigitChar(d) == c
  {
    c as int - '0' as int
  }

  /** The number a string of decimal digits denotes (most significant first). */
  function DecimalValue(s: string): (n: nat)
    requires forall i :: 0 <= i < |s| ==> IsDigit(s[i])
    ensures |s| == 0 ==> n == 0
  {
    if |s| == 0 then 0 else 10 * DecimalValue(s[..|s| - 1]) + DigitValue(s[|s| - 1])
  }

  /** `NatToDecimal` is the decimal rendering: reading its digits back gives
      the number, and it has no leading zero except for zero itself. */
  lemma {:induction false} NatToDecimalRoundTrip(n: nat)
    ensures DecimalValue(NatToDecimal(n)) == n
    ensures NatToDecimal(n)[0] == '0' ==> n == 0
  {
    var r := NatToDecimal(n);
    if n >= 10 {
      NatToDecimalRoundTrip(n / 10);
      var front := NatToDecimal(n / 10);
      assert r[..|r| - 1] == front;
      assert r[|r| - 1] == DigitChar(n % 10);
      assert DigitValue(DigitChar(n % 10)) == n % 10;
      assert r[0] == front[0];
    } else {
      assert DigitValue(DigitChar(n)) == n;
      assert r[..0] == [];
    }
  }
}
