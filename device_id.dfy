/**
 * `generateDeviceId`, the same expression in both widgets: the user agent,
 * `WxH` of the screen, the preferred language (or '') and the time-zone
 * offset in minutes, joined with '|', passed through `btoa` and cut to its
 * first 32 characters. The browser values are parameters here.
 */
module DeviceId {
  import opened Text
  import opened Exchange
  import opened Base64

  const MaxLength: nat := 32

  /** Bytes of fingerprint that the 32 kept characters encode (32 / 4 * 3). */
  const EncodedBytes: nat := 24

  /** `[userAgent, `${w}x${h}`, language || '', offset.toString()].join('|')` */
  function Fingerprint(userAgent: string, width: int, height: int, language: Option<string>, tzOffset: int): (fp: string)
    ensures |fp| > |userAgent| && fp[..|userAgent|] == userAgent && fp[|userAgent|] == '|'
  {
    Join([userAgent, IntToString(width) + "x" + IntToString(height), OrElse(language, ""), IntToString(tzOffset)], '|')
  }

  /** The fingerprint written out character run by character run. */
  lemma FingerprintText(userAgent: string, width: int, height: int, language: Option<string>, tzOffset: int)
    ensures Fingerprint(userAgent, width, height, language, tzOffset)
         == userAgent + "|" + ((IntToString(width) + "x" + IntToString(height)) + "|" + (OrElse(language, "") + "|" + IntToString(tzOffset)))
  {
    var size, l, t := IntToString(width) + "x" + IntToString(height), OrElse(language, ""), IntToString(tzOffset);
    var parts := [userAgent, size, l, t];
    assert [l, t][1..] == [t];
    assert Join([l, t], '|') == l + "|" + t;
    assert [size, l, t][1..] == [l, t];
    assert Join([size, l, t], '|') == size + "|" + Join([l, t], '|');
    assert parts[1..] == [size, l, t];
    assert Join(parts, '|') == userAgent + "|" + Join([size, l, t], '|');
  }

  /** A printed integer holds digits and at most a '-', never the '|' separator. */
  lemma NumberHasNoBar(n: int)
    ensures '|' !in IntToString(n)
  {
    var r := IntToString(n);
    forall i | 0 <= i < |r| ensures r[i] != '|' {
      if i > 0 { assert r[i] == r[1..][i - 1]; }
    }
  }

  /**
   * Splitting the fingerprint at '|' gives back the four fields, whenever the
   * user agent and the language hold no '|' themselves.
   */
  lemma FingerprintSplits(userAgent: string, width: int, height: int, language: Option<string>, tzOffset: int)
    requires '|' !in userAgent && '|' !in OrElse(language, "")
    ensures Split(Fingerprint(userAgent, width, height, language, tzOffset), '|')
         == [userAgent, IntToString(width) + "x" + IntToString(height), OrElse(language, ""), IntToString(tzOffset)]
  {
    var parts := [userAgent, IntToString(width) + "x" + IntToString(height), OrElse(language, ""), IntToString(tzOffset)];
    NumberHasNoBar(width);
    NumberHasNoBar(height);
    NumberHasNoBar(tzOffset);
    assert '|' !in parts[1];
    SplitJoin(parts, '|');
  }

  /** `btoa(fp).substring(0, 32)`; None where btoa throws. */
  function FromFingerprint(fp: string): (r: Option<string>)
    ensures r.Some? <==> IsLatin1(fp)
    ensures r.Some? ==> |r.value| <= MaxLength && |r.value| <= |Btoa(fp).value|
    ensures r.Some? ==> r.value == Btoa(fp).value[..|r.value|]
    ensures r.Some? ==> (|fp| <= EncodedBytes ==> r.value == Btoa(fp).value)
    ensures r.Some? ==> (|fp| >= EncodedBytes ==> |r.value| == MaxLength)
    ensures r.Some? ==> IsBase64Text(r.value)
    ensures r.Some? && |fp| >= EncodedBytes ==> forall i | 0 <= i < |r.value| :: IsAlphabetChar(r.value[i])
    ensures r.Some? && fp != [] ==> r.value != []
  {
    match Btoa(fp)
    case None => None
    case Some(e) =>
      EncodedLength(|fp|);
      EncodePadding(Latin1Bytes(fp));
      Some(if |e| <= MaxLength then e else e[..MaxLength])
  }

  /** Up to 24 bytes encode in at most 32 characters; from 24 bytes on, in at least 32. */
  lemma EncodedLength(n: nat)
    ensures n <= EncodedBytes ==> 4 * ((n + 2) / 3) <= MaxLength
    ensures n >= EncodedBytes ==> 4 * ((n + 2) / 3) >= MaxLength
    ensures n >= EncodedBytes ==> 4 * ((n + 2) / 3) - Padding(n) >= MaxLength
    ensures n > 0 ==> 4 * ((n + 2) / 3) > 0
  {
  }

  /** The device id of a browser; None where `btoa` would throw. */
  function Generate(userAgent: string, width: int, height: int, language: Option<string>, tzOffset: int): (r: Option<string>)
    ensures r.Some? <==> IsLatin1(userAgent) && IsLatin1(OrElse(language, ""))
    ensures r.Some? ==> r.value != [] && |r.value| <= MaxLength && IsBase64Text(r.value)
    ensures r.Some? ==> var e := Btoa(Fingerprint(userAgent, width, height, language, tzOffset));
                        e.Some? && |r.value| <= |e.value| && r.value == e.value[..|r.value|]
  {
    var fp := Fingerprint(userAgent, width, height, language, tzOffset);
    LatinFingerprint(userAgent, width, height, language, tzOffset);
    FromFingerprint(fp)
  }

  lemma DigitsAreLatin1(s: string)
    requires s != [] && AllDigits(s[1..]) && (s[0] != '-' ==> AllDigits(s))
    ensures IsLatin1(s)
  {
    forall i | 0 <= i < |s| ensures s[i] as int < 256 {
      if i > 0 { assert s[i] == s[1..][i - 1]; }
    }
  }

  lemma Latin1Concat(a: string, b: string)
    ensures IsLatin1(a + b) <==> IsLatin1(a) && IsLatin1(b)
  {
    if IsLatin1(a + b) {
      forall i | 0 <= i < |a| ensures a[i] as int < 256 {
        assert (a + b)[i] == a[i];
      }
      forall i | 0 <= i < |b| ensures b[i] as int < 256 {
        assert (a + b)[|a| + i] == b[i];
      }
    }
    if IsLatin1(a) && IsLatin1(b) {
      forall i | 0 <= i < |a + b| ensures (a + b)[i] as int < 256 {
        if i < |a| { assert (a + b)[i] == a[i]; } else { assert (a + b)[i] == b[i - |a|]; }
      }
    }
  }

  lemma LatinFingerprint(userAgent: string, width: int, height: int, language: Option<string>, tzOffset: int)
    ensures IsLatin1(Fingerprint(userAgent, width, height, language, tzOffset))
        <==> IsLatin1(userAgent) && IsLatin1(OrElse(language, ""))
  {
    var w, h, l, t := IntToString(width), IntToString(height), OrElse(language, ""), IntToString(tzOffset);
    DigitsAreLatin1(w);
    DigitsAreLatin1(h);
    DigitsAreLatin1(t);
    FingerprintText(userAgent, width, height, language, tzOffset);
    var size := w + "x" + h;
    Latin1Concat(w, "x");
    Latin1Concat(w + "x", h);
    Latin1Concat(l, "|");
    Latin1Concat(l + "|", t);
    Latin1Concat(size, "|");
    Latin1Concat(size + "|", l + "|" + t);
    Latin1Concat(userAgent, "|");
    Latin1Concat(userAgent + "|", size + "|" + (l + "|" + t));
  }

  /** From 24 characters on, the id is the encoding of the first 24 fingerprint bytes. */
  lemma IdEncodesFirstBytes(fp: string)
    requires IsLatin1(fp) && |fp| >= EncodedBytes
    ensures FromFingerprint(fp) == Some(Encode(Latin1Bytes(fp)[..EncodedBytes]))
  {
    var b := Latin1Bytes(fp);
    var e := Encode(b);
    assert Btoa(fp) == Some(e);
    var id := FromFingerprint(fp).value;
    assert |id| == MaxLength && id == e[..MaxLength];
    EncodePrefix(b, EncodedBytes);
    assert |Encode(b[..EncodedBytes])| == MaxLength;
  }

  /** Two fingerprints that agree on their first 24 characters get the same id. */
  lemma IdDependsOnFirstBytesOnly(fp1: string, fp2: string)
    requires IsLatin1(fp1) && IsLatin1(fp2)
    requires |fp1| >= EncodedBytes && |fp2| >= EncodedBytes
    requires fp1[..EncodedBytes] == fp2[..EncodedBytes]
    ensures FromFingerprint(fp1) == FromFingerprint(fp2)
  {
    var b1, b2 := Latin1Bytes(fp1), Latin1Bytes(fp2);
    forall i | 0 <= i < EncodedBytes ensures b1[i] == b2[i] {
      assert fp1[i] == fp1[..EncodedBytes][i] == fp2[..EncodedBytes][i] == fp2[i];
    }
    assert b1[..EncodedBytes] == b2[..EncodedBytes];
    IdEncodesFirstBytes(fp1);
    IdEncodesFirstBytes(fp2);
  }

  /** What the id keeps: all of the fingerprint when it is short, else its first 24 characters. */
  lemma IdDecodesToFingerprintPrefix(fp: string)
    requires IsLatin1(fp)
    ensures FromFingerprint(fp).Some?
    ensures Atob(FromFingerprint(fp).value) == Some(if |fp| <= EncodedBytes then fp else fp[..EncodedBytes])
  {
    if |fp| <= EncodedBytes {
      BtoaRoundTrip(fp);
    } else {
      var head := fp[..EncodedBytes];
      assert head[..EncodedBytes] == fp[..EncodedBytes];
      IdDependsOnFirstBytesOnly(fp, head);
      BtoaRoundTrip(head);
    }
  }

  /**
   * With a user agent of 24 characters or more, the screen size, language and
   * time-zone offset have no influence on the device id.
   */
  lemma LongUserAgentDecidesId(userAgent: string,
                               width1: int, height1: int, language1: Option<string>, tzOffset1: int,
                               width2: int, height2: int, language2: Option<string>, tzOffset2: int)
    requires |userAgent| >= EncodedBytes
    requires IsLatin1(OrElse(language1, "")) && IsLatin1(OrElse(language2, ""))
    ensures Generate(userAgent, width1, height1, language1, tzOffset1)
         == Generate(userAgent, width2, height2, language2, tzOffset2)
  {
    var fp1 := Fingerprint(userAgent, width1, height1, language1, tzOffset1);
    var fp2 := Fingerprint(userAgent, width2, height2, language2, tzOffset2);
    LatinFingerprint(userAgent, width1, height1, language1, tzOffset1);
    LatinFingerprint(userAgent, width2, height2, language2, tzOffset2);
    if IsLatin1(userAgent) {
      assert fp1[..EncodedBytes] == userAgent[..EncodedBytes] == fp2[..EncodedBytes];
      IdDependsOnFirstBytesOnly(fp1, fp2);
    }
  }

  /**
   * Two browsers whose user agents agree on their first 24 characters get the
   * same id, whatever their screens, languages and time zones.
   */
  lemma UserAgentPrefixDecidesId(userAgent1: string, width1: int, height1: int, language1: Option<string>, tzOffset1: int,
                                 userAgent2: string, width2: int, height2: int, language2: Option<string>, tzOffset2: int)
    requires |userAgent1| >= EncodedBytes && |userAgent2| >= EncodedBytes
    requires userAgent1[..EncodedBytes] == userAgent2[..EncodedBytes]
    requires IsLatin1(userAgent1) && IsLatin1(userAgent2)
    requires IsLatin1(OrElse(language1, "")) && IsLatin1(OrElse(language2, ""))
    ensures Generate(userAgent1, width1, height1, language1, tzOffset1).Some?
    ensures Generate(userAgent1, width1, height1, language1, tzOffset1)
         == Generate(userAgent2, width2, height2, language2, tzOffset2)
  {
    var fp1 := Fingerprint(userAgent1, width1, height1, language1, tzOffset1);
    var fp2 := Fingerprint(userAgent2, width2, height2, language2, tzOffset2);
    LatinFingerprint(userAgent1, width1, height1, language1, tzOffset1);
    LatinFingerprint(userAgent2, width2, height2, language2, tzOffset2);
    assert fp1[..EncodedBytes] == userAgent1[..EncodedBytes];
    assert fp2[..EncodedBytes] == userAgent2[..EncodedBytes];
    IdDependsOnFirstBytesOnly(fp1, fp2);
  }

  /** The opening every Windows browser's user agent shares: exactly 24 characters. */
  const WindowsPrefix := "Mozilla/5.0 (Windows NT "

  /** Every Windows browser with a Latin-1 user agent and language gets one and the same id. */
  lemma WindowsBrowsersShareId(userAgent1: string, width1: int, height1: int, language1: Option<string>, tzOffset1: int,
                               userAgent2: string, width2: int, height2: int, language2: Option<string>, tzOffset2: int)
    requires |userAgent1| >= |WindowsPrefix| && userAgent1[..|WindowsPrefix|] == WindowsPrefix
    requires |userAgent2| >= |WindowsPrefix| && userAgent2[..|WindowsPrefix|] == WindowsPrefix
    requires IsLatin1(userAgent1) && IsLatin1(userAgent2)
    requires IsLatin1(OrElse(language1, "")) && IsLatin1(OrElse(language2, ""))
    ensures Generate(userAgent1, width1, height1, language1, tzOffset1)
         == Generate(userAgent2, width2, height2, language2, tzOffset2)
  {
    assert |WindowsPrefix| == EncodedBytes;
    UserAgentPrefixDecidesId(userAgent1, width1, height1, language1, tzOffset1,
                             userAgent2, width2, height2, language2, tzOffset2);
  }
}
