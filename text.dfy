/**
 * The two pieces of JavaScript string behaviour the widgets rely on:
 * `String.prototype.trim`, which decides whether a card key is blank, and the
 * decimal text an integer becomes inside a template literal or `toString()`.
 */
module Text {

  /** ECMAScript WhiteSpace and LineTerminator code points: what `trim` removes. */
  predicate IsWhiteSpace(c: char) {
    || c == '\t' || c == '\n' || c == '\U{B}' || c == '\U{C}' || c == '\r' || c == ' '
    || c == '\U{A0}' || c == '\U{1680}' || ('\U{2000}' <= c <= '\U{200A}')
    || c == '\U{2028}' || c == '\U{2029}' || c == '\U{202F}' || c == '\U{205F}'
    || c == '\U{3000}' || c == '\U{FEFF}'
  }

  predicate AllWhiteSpace(s: string) {
    forall i | 0 <= i < |s| :: IsWhiteSpace(s[i])
  }

  /** Neither end of `s` is white space (trivially true of the empty string). */
  predicate HasTrimmedEnds(s: string) {
    s == [] || (!IsWhiteSpace(s[0]) && !IsWhiteSpace(s[|s| - 1]))
  }

  /** The first index at or after `i` that is not white space, or |s|. */
  function SkipWhite(s: string, i: nat): (j: nat)
    requires i <= |s|
    ensures i <= j <= |s|
    ensures forall k | i <= k < j :: IsWhiteSpace(s[k])
    ensures j < |s| ==> !IsWhiteSpace(s[j])
    decreases |s| - i
  {
    if i < |s| && IsWhiteSpace(s[i]) then SkipWhite(s, i + 1) else i
  }

  /** Scanning down from `j`, the end of the white space run, not going below `lo`. */
  function SkipWhiteBack(s: string, lo: nat, j: nat): (e: nat)
    requires lo <= j <= |s|
    ensures lo <= e <= j
    ensures forall k | e <= k < j :: IsWhiteSpace(s[k])
    ensures e > lo ==> !IsWhiteSpace(s[e - 1])
  {
    if j > lo && IsWhiteSpace(s[j - 1]) then SkipWhiteBack(s, lo, j - 1) else j
  }

  /** `String.prototype.trim`: the card key is blank exactly when this is empty. */
  function Trim(s: string): (r: string)
    ensures |r| <= |s|
    ensures HasTrimmedEnds(r)
    ensures r == [] <==> AllWhiteSpace(s)
  {
    var a := SkipWhite(s, 0);
    var b := SkipWhiteBack(s, a, |s|);
    assert a == b ==> a == |s|;
    s[a..b]
  }

  /**
   * Trim removes exactly the surrounding white space: a text with non-white
   * ends, padded on either side by white space, trims back to that text.
   */
  lemma TrimStripsPadding(before: string, k: string, after: string)
    requires AllWhiteSpace(before) && AllWhiteSpace(after)
    requires k != [] && HasTrimmedEnds(k)
    ensures Trim(before + k + after) == k
  {
    var s := before + k + after;
    var a, b := |before|, |before| + |k|;
    assert s[a] == k[0] && s[b - 1] == k[|k| - 1];
    forall i | 0 <= i < a ensures IsWhiteSpace(s[i]) {
      assert s[i] == before[i];
    }
    forall i | b <= i < |s| ensures IsWhiteSpace(s[i]) {
      assert s[i] == after[i - b];
    }
    assert SkipWhite(s, 0) == a;
    assert SkipWhiteBack(s, a, |s|) == b;
    assert s[a..b] == k;
  }

  /** A trimmed text is left alone by a second trim. */
  lemma TrimIdempotent(s: string)
    ensures Trim(Trim(s)) == Trim(s)
  {
    var t := Trim(s);
    if t != [] {
      assert AllWhiteSpace([]);
      TrimStripsPadding([], t, []);
      assert [] + t + [] == t;
    }
  }

  // ---------------------------------------------------------------------------
  // Decimal text of integers, as `${n}` and `n.toString()` print them

  predicate IsDigit(c: char) {
    '0' <= c <= '9'
  }

  predicate AllDigits(s: string) {
    forall i | 0 <= i < |s| :: IsDigit(s[i])
  }

  function DigitChar(d: nat): (c: char)
    requires d < 10
    ensures IsDigit(c)
  {
    ('0' as int + d) as char
  }

  function DigitValue(c: char): (d: nat)
    requires IsDigit(c)
    ensures d < 10 && DigitChar(d) == c
  {
    c as int - '0' as int
  }

  /** Decimal digits of `n`, most significant first, with no leading zero. */
  function NatToString(n: nat): (r: string)
    ensures r != [] && AllDigits(r)
    ensures r[0] == '0' ==> r == "0"
  {
    if n < 10 then [DigitChar(n)] else NatToString(n / 10) + [DigitChar(n % 10)]
  }

  /** `${n}` for an integer-valued number: a minus sign in front of a negative one. */
  function IntToString(n: int): (r: string)
    ensures r != []
    ensures r[0] == '-' <==> n < 0
    ensures AllDigits(r[1..]) && (n >= 0 ==> AllDigits(r))
  {
    if n < 0 then "-" + NatToString(-n) else NatToString(n)
  }

  /** Reads decimal digits back: the partner of NatToString. */
  function ParseNat(s: string): nat
    requires AllDigits(s)
  {
    if s == [] then 0 else ParseNat(s[..|s| - 1]) * 10 + DigitValue(s[|s| - 1])
  }

  function ParseInt(s: string): int
    requires s != []
    requires AllDigits(s[1..]) && (s[0] != '-' ==> AllDigits(s))
  {
    if s[0] == '-' then -(ParseNat(s[1..]) as int) else ParseNat(s)
  }

  lemma {:induction false} ParseNatToString(n: nat)
    ensures ParseNat(NatToString(n)) == n
  {
    if n >= 10 {
      var s := NatToString(n);
      assert s[..|s| - 1] == NatToString(n / 10);
      ParseNatToString(n / 10);
    }
  }

  /** Integer text is read back to the same integer, so distinct integers print differently. */
  lemma IntToStringRoundTrip(n: int)
    ensures ParseInt(IntToString(n)) == n
  {
    if n < 0 {
      assert IntToString(n)[1..] == NatToString(-n);
      ParseNatToString(-n);
    } else {
      ParseNatToString(n);
    }
  }

  // ---------------------------------------------------------------------------
  // Array.prototype.join and String.prototype.split on one separator character

  /** The first position at or after `i` that holds `c`, or the end of `s`. */
  function NextSeparator(s: string, c: char, i: nat): (j: nat)
    requires i <= |s|
    ensures i <= j <= |s|
    ensures j < |s| ==> s[j] == c
    ensures forall k | i <= k < j :: s[k] != c
    decreases |s| - i
  {
    if i == |s| || s[i] == c then i else NextSeparator(s, c, i + 1)
  }

  /** `parts.join(c)`. */
  function Join(parts: seq<string>, c: char): (r: string)
    requires parts != []
    ensures |r| >= |parts[0]| && r[..|parts[0]|] == parts[0]
    ensures |parts| > 1 ==> |r| > |parts[0]| && r[|parts[0]|] == c
  {
    if |parts| == 1 then parts[0] else parts[0] + [c] + Join(parts[1..], c)
  }

  /** `s.split(c)`: the pieces between the occurrences of `c`. */
  function Split(s: string, c: char): (parts: seq<string>)
    ensures parts != []
    decreases |s|
  {
    var j := NextSeparator(s, c, 0);
    if j == |s| then [s] else [s[..j]] + Split(s[j + 1..], c)
  }

  /** Pieces free of the separator come back from their join one for one. */
  lemma {:induction false} SplitJoin(parts: seq<string>, c: char)
    requires parts != []
    requires forall i | 0 <= i < |parts| :: c !in parts[i]
    ensures Split(Join(parts, c), c) == parts
    decreases |parts|
  {
    var s := Join(parts, c);
    var p := parts[0];
    var j := NextSeparator(s, c, 0);
    assert c !in p;
    if |parts| == 1 {
      assert s == p;
    } else {
      var rest := parts[1..];
      assert s == p + [c] + Join(rest, c);
      assert j == |p|;
      assert s[j + 1..] == Join(rest, c);
      SplitJoin(rest, c);
      assert parts == [p] + rest;
    }
  }
}
