/**
 * The browser's `btoa`: the Base64 encoding of section 4 of RFC 4648, with `=`
 * padding, applied to a string whose code units are all Latin-1 (one byte
 * each), plus its decoding partner `Decode`/`Atob`, used to state what an
 * encoding keeps.
 */
module Base64 {
  import opened Exchange

  type Byte = b: int | 0 <= b < 256
  type Sextet = s: int | 0 <= s < 64

  /** The 64 characters of the Base64 alphabet (section 4 of RFC 4648, table 1). */
  predicate IsAlphabetChar(c: char) {
    ('A' <= c <= 'Z') || ('a' <= c <= 'z') || ('0' <= c <= '9') || c == '+' || c == '/'
  }

  /** What `btoa` may print: alphabet characters and the pad character. */
  predicate IsBase64Text(s: string) {
    forall i | 0 <= i < |s| :: IsAlphabetChar(s[i]) || s[i] == '='
  }

  /** Value of an alphabet character. */
  function Index(c: char): (i: Sextet)
    requires IsAlphabetChar(c)
  {
    if 'A' <= c <= 'Z' then c as int - 'A' as int
    else if 'a' <= c <= 'z' then c as int - 'a' as int + 26
    else if '0' <= c <= '9' then c as int - '0' as int + 52
    else if c == '+' then 62
    else 63
  }

  /** Alphabet character of a 6-bit value; Index reads it back. */
  function Char(i: Sextet): (c: char)
    ensures IsAlphabetChar(c) && Index(c) == i
  {
    if i < 26 then ('A' as int + i) as char
    else if i < 52 then ('a' as int + (i - 26)) as char
    else if i < 62 then ('0' as int + (i - 52)) as char
    else if i == 62 then '+'
    else '/'
  }

  /** Four characters for three bytes: the 24 bits split into four 6-bit groups. */
  function Quantum(b0: Byte, b1: Byte, b2: Byte): string {
    [Char(b0 / 4), Char((b0 % 4) * 16 + b1 / 16), Char((b1 % 16) * 4 + b2 / 64), Char(b2 % 64)]
  }

  /** How many `=` end the encoding of n bytes: none, `==` or `=` for n % 3 = 0, 1, 2. */
  function Padding(n: nat): (p: nat)
    ensures p <= 2 && (p == 0 <==> n % 3 == 0)
  {
    if n % 3 == 0 then 0 else 3 - n % 3
  }

  /** The last group for one or two leftover bytes: `==` or `=` fills it to four characters. */
  function Tail(b: seq<Byte>): (r: string)
    requires |b| < 3
    ensures |r| == 4 * ((|b| + 2) / 3) && Padding(|b|) <= |r|
    ensures forall i | 0 <= i < |r| - Padding(|b|) :: IsAlphabetChar(r[i])
    ensures forall i | |r| - Padding(|b|) <= i < |r| :: r[i] == '='
  {
    if |b| == 0 then ""
    else if |b| == 1 then [Char(b[0] / 4), Char((b[0] % 4) * 16), '=', '=']
    else [Char(b[0] / 4), Char((b[0] % 4) * 16 + b[1] / 16), Char((b[1] % 16) * 4), '=']
  }

  /**
   * Base64 of a byte string: full quanta, then two or three characters and
   * `==` or `=` for one or two leftover bytes.
   */
  function Encode(b: seq<Byte>): (r: string)
    ensures |r| == 4 * ((|b| + 2) / 3)
    ensures IsBase64Text(r)
    ensures forall i | 0 <= i < |r| && r[i] == '=' :: i >= |r| - 2
  {
    if |b| < 3 then Tail(b) else Quantum(b[0], b[1], b[2]) + Encode(b[3..])
  }

  /**
   * The exact padding: the encoding of n bytes is alphabet characters
   * followed by Padding(n) `=` characters (none, `==` or `=`).
   */
  lemma {:induction false} EncodePadding(b: seq<Byte>)
    ensures var r := Encode(b);
            && Padding(|b|) <= |r|
            && (forall i | 0 <= i < |r| - Padding(|b|) :: IsAlphabetChar(r[i]))
            && (forall i | |r| - Padding(|b|) <= i < |r| :: r[i] == '=')
    decreases |b|
  {
    if |b| >= 3 {
      var q, t := Quantum(b[0], b[1], b[2]), Encode(b[3..]);
      assert Encode(b) == q + t;
      EncodePadding(b[3..]);
      QuantumStep(|b|);
      PrependQuantum(q, t, Padding(|b|));
    }
  }

  /** One more full quantum: four more characters and the same padding. */
  lemma QuantumStep(n: nat)
    requires n >= 3
    ensures Padding(n) == Padding(n - 3)
    ensures 4 * ((n + 2) / 3) == 4 + 4 * ((n - 3 + 2) / 3)
  {
  }

  /** Four alphabet characters in front keep the padding of what follows. */
  lemma PrependQuantum(q: string, t: string, p: nat)
    requires |q| == 4 && forall i | 0 <= i < 4 :: IsAlphabetChar(q[i])
    requires p <= |t|
    requires forall i | 0 <= i < |t| - p :: IsAlphabetChar(t[i])
    requires forall i | |t| - p <= i < |t| :: t[i] == '='
    ensures IsBase64Text(q + t)
    ensures forall i | 0 <= i < |q + t| - p :: IsAlphabetChar((q + t)[i])
    ensures forall i | |q + t| - p <= i < |q + t| :: (q + t)[i] == '='
  {
    forall i | 0 <= i < |q + t| ensures (q + t)[i] == if i < 4 then q[i] else t[i - 4] {
    }
  }

  /** Reads Base64 text back into bytes; None for text Encode cannot produce. */
  function Decode(s: string): Option<seq<Byte>> {
    if |s| == 0 then Some([])
    else if |s| < 4 || !IsAlphabetChar(s[0]) || !IsAlphabetChar(s[1]) then None
    else
      var c0, c1 := Index(s[0]), Index(s[1]);
      var b0 := c0 * 4 + c1 / 16;
      if |s| == 4 && s[2] == '=' && s[3] == '=' then Some([b0])
      else if !IsAlphabetChar(s[2]) then None
      else
        var c2 := Index(s[2]);
        var b1 := (c1 % 16) * 16 + c2 / 4;
        if |s| == 4 && s[3] == '=' then Some([b0, b1])
        else if !IsAlphabetChar(s[3]) then None
        else
          var b2 := (c2 % 4) * 64 + Index(s[3]);
          match Decode(s[4..])
          case None => None
          case Some(rest) => Some([b0, b1, b2] + rest)
  }

  /** The 6-bit groups of three bytes put the bytes back together. */
  lemma QuantumArithmetic(b0: Byte, b1: Byte, b2: Byte)
    ensures var c0, c1, c2, c3 := b0 / 4, (b0 % 4) * 16 + b1 / 16, (b1 % 16) * 4 + b2 / 64, b2 % 64;
            c0 * 4 + c1 / 16 == b0 && (c1 % 16) * 16 + c2 / 4 == b1 && (c2 % 4) * 64 + c3 == b2
  {
  }

  lemma DecodeQuantum(b0: Byte, b1: Byte, b2: Byte, rest: string)
    ensures Decode(Quantum(b0, b1, b2) + rest)
         == match Decode(rest) case None => None case Some(t) => Some([b0, b1, b2] + t)
  {
    var s := Quantum(b0, b1, b2) + rest;
    QuantumArithmetic(b0, b1, b2);
    assert s[0] == Char(b0 / 4) && s[1] == Char((b0 % 4) * 16 + b1 / 16);
    assert s[2] == Char((b1 % 16) * 4 + b2 / 64) && s[3] == Char(b2 % 64);
    assert s[4..] == rest;
  }

  /** One leftover byte: two characters and `==`. */
  lemma DecodeOne(b0: Byte)
    ensures Decode([Char(b0 / 4), Char((b0 % 4) * 16), '=', '=']) == Some([b0])
  {
    var c0, c1 := b0 / 4, (b0 % 4) * 16;
    assert c0 * 4 + c1 / 16 == b0;
    var s := [Char(c0), Char(c1), '=', '='];
    assert Index(s[0]) == c0 && Index(s[1]) == c1;
  }

  /** Two leftover bytes: three characters and `=`. */
  lemma DecodeTwo(b0: Byte, b1: Byte)
    ensures Decode([Char(b0 / 4), Char((b0 % 4) * 16 + b1 / 16), Char((b1 % 16) * 4), '=']) == Some([b0, b1])
  {
    var c0, c1, c2 := b0 / 4, (b0 % 4) * 16 + b1 / 16, (b1 % 16) * 4;
    assert c0 * 4 + c1 / 16 == b0;
    assert (c1 % 16) * 16 + c2 / 4 == b1;
    var s := [Char(c0), Char(c1), Char(c2), '='];
    assert Index(s[0]) == c0 && Index(s[1]) == c1 && Index(s[2]) == c2;
    assert s[2] != '=';
  }

  /** The last group reads back to the leftover bytes. */
  lemma DecodeTail(b: seq<Byte>)
    requires |b| < 3
    ensures Decode(Tail(b)) == Some(b)
  {
    if |b| == 1 {
      DecodeOne(b[0]);
      assert b == [b[0]];
    } else if |b| == 2 {
      DecodeTwo(b[0], b[1]);
      assert b == [b[0], b[1]];
    }
  }

  /** Encoding is left-invertible: no byte string is lost or confused with another. */
  lemma {:induction false} DecodeEncode(b: seq<Byte>)
    ensures Decode(Encode(b)) == Some(b)
    decreases |b|
  {
    if |b| < 3 {
      DecodeTail(b);
    } else {
      var q, e := Quantum(b[0], b[1], b[2]), Encode(b[3..]);
      assert Encode(b) == q + e;
      DecodeEncode(b[3..]);
      DecodeQuantum(b[0], b[1], b[2], e);
      assert Decode(q + e) == Some([b[0], b[1], b[2]] + b[3..]);
      assert [b[0], b[1], b[2]] + b[3..] == b;
    }
  }

  /** Encoding a whole number of quanta first and the rest after gives the same text. */
  lemma {:induction false} EncodeAppend(x: seq<Byte>, y: seq<Byte>)
    requires |x| % 3 == 0
    ensures Encode(x + y) == Encode(x) + Encode(y)
    decreases |x|
  {
    if x == [] {
      assert x + y == y;
    } else {
      assert (x + y)[3..] == x[3..] + y;
      EncodeAppend(x[3..], y);
    }
  }

  /** Cut after whole quanta, the encoding of a prefix is a prefix of the encoding. */
  lemma EncodePrefix(b: seq<Byte>, m: nat)
    requires m % 3 == 0 && m <= |b|
    ensures |Encode(b[..m])| <= |Encode(b)|
    ensures Encode(b)[..|Encode(b[..m])|] == Encode(b[..m])
  {
    EncodeAppend(b[..m], b[m..]);
    assert b == b[..m] + b[m..];
  }

  // ---------------------------------------------------------------------------
  // btoa and atob on JavaScript strings

  predicate IsLatin1(s: string) {
    forall i | 0 <= i < |s| :: s[i] as int < 256
  }

  function Latin1Bytes(s: string): (b: seq<Byte>)
    requires IsLatin1(s)
    ensures |b| == |s| && forall i | 0 <= i < |s| :: b[i] == s[i] as int
  {
    if s == [] then [] else [s[0] as int] + Latin1Bytes(s[1..])
  }

  function Latin1String(b: seq<Byte>): (s: string)
    ensures |s| == |b| && forall i | 0 <= i < |b| :: s[i] as int == b[i]
  {
    if b == [] then [] else [b[0] as char] + Latin1String(b[1..])
  }

  /** `btoa`: None where the browser throws InvalidCharacterError (a code unit above 255). */
  function Btoa(s: string): (r: Option<string>)
    ensures r.Some? <==> IsLatin1(s)
    ensures r.Some? ==> |r.value| == 4 * ((|s| + 2) / 3) && IsBase64Text(r.value)
  {
    if IsLatin1(s) then Some(Encode(Latin1Bytes(s))) else None
  }

  /** `atob` restricted to text Encode can produce. */
  function Atob(t: string): Option<string> {
    match Decode(t)
    case None => None
    case Some(b) => Some(Latin1String(b))
  }

  /** `atob(btoa(s)) == s` for every string btoa accepts. */
  lemma BtoaRoundTrip(s: string)
    requires IsLatin1(s)
    ensures Btoa(s).Some? && Atob(Btoa(s).value) == Some(s)
  {
    DecodeEncode(Latin1Bytes(s));
    assert Latin1String(Latin1Bytes(s)) == s;
  }
}
