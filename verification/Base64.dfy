/** Unpadded base64url, sections 3.2 and 5 of RFC 4648, with the decoder's tolerance for line breaks. */
module Base64 {
  import opened Kube

  type byte = b: int | 0 <= b < 256
  type sextet = i: int | 0 <= i < 64

  function EncodeChar(i: sextet): char {
    if i < 26 then 'A' + i as char
    else if i < 52 then 'a' + (i - 26) as char
    else if i < 62 then '0' + (i - 52) as char
    else if i == 62 then '-' else '_'
  }

  function DecodeChar(c: char): Option<sextet> {
    if 'A' <= c <= 'Z' then Some(c as int - 'A' as int)
    else if 'a' <= c <= 'z' then Some(c as int - 'a' as int + 26)
    else if '0' <= c <= '9' then Some(c as int - '0' as int + 52)
    else if c == '-' then Some(62)
    else if c == '_' then Some(63)
    else None
  }

  /** Three bytes make four sextets; one or two left over make two or three. */
  function Sextets(bs: seq<byte>): seq<sextet> {
    if |bs| == 0 then []
    else if |bs| == 1 then [bs[0] / 4, bs[0] % 4 * 16]
    else if |bs| == 2 then [bs[0] / 4, bs[0] % 4 * 16 + bs[1] / 16, bs[1] % 16 * 4]
    else
      [bs[0] / 4, bs[0] % 4 * 16 + bs[1] / 16, bs[1] % 16 * 4 + bs[2] / 64, bs[2] % 64] + Sextets(bs[3..])
  }

  /** The reverse; a single sextet is an error, and unused low bits are ignored. */
  function Bytes(ss: seq<sextet>): Option<seq<byte>> {
    if |ss| == 0 then Some([])
    else if |ss| == 1 then None
    else if |ss| == 2 then Some([First(ss[0], ss[1])])
    else if |ss| == 3 then Some([First(ss[0], ss[1]), Second(ss[1], ss[2])])
    else
      match Bytes(ss[4..])
      case None => None
      case Some(rest) => Some([First(ss[0], ss[1]), Second(ss[1], ss[2]), Third(ss[2], ss[3])] + rest)
  }

  function First(a: sextet, b: sextet): byte { a * 4 + b / 16 }
  function Second(b: sextet, c: sextet): byte { b % 16 * 16 + c / 4 }
  function Third(c: sextet, d: sextet): byte { c % 4 * 64 + d }

  function Chars(ss: seq<sextet>): string {
    seq(|ss|, i requires 0 <= i < |ss| => EncodeChar(ss[i]))
  }

  /** All characters must be of the alphabet. */
  function Values(s: string): Option<seq<sextet>> {
    if s == "" then Some([])
    else
      match Values(s[..|s| - 1])
      case None => None
      case Some(front) => match DecodeChar(s[|s| - 1]) case None => None case Some(i) => Some(front + [i])
  }

  /** Line breaks are skipped wherever they occur. */
  function Strip(s: string): string {
    if s == "" then ""
    else if s[0] == '\n' || s[0] == '\r' then Strip(s[1..])
    else [s[0]] + Strip(s[1..])
  }

  function Encode(bs: seq<byte>): string { Chars(Sextets(bs)) }

  function Decode(s: string): Option<seq<byte>> {
    match Values(Strip(s))
    case None => None
    case Some(ss) => Bytes(ss)
  }

  lemma CharRoundTrip(i: sextet)
    ensures DecodeChar(EncodeChar(i)) == Some(i)
    ensures EncodeChar(i) != '.' && EncodeChar(i) != '\n' && EncodeChar(i) != '\r'
  {
  }

  lemma {:induction false} ValuesOfChars(ss: seq<sextet>)
    ensures Values(Chars(ss)) == Some(ss)
  {
    if ss != [] {
      var n := |ss| - 1;
      ValuesOfChars(ss[..n]);
      CharRoundTrip(ss[n]);
      assert Chars(ss)[..n] == Chars(ss[..n]);
      assert ss == ss[..n] + [ss[n]];
    }
  }

  lemma GroupRoundTrip(a: byte, b: byte, c: byte)
    ensures First(a / 4, a % 4 * 16 + b / 16) == a
    ensures Second(a % 4 * 16 + b / 16, b % 16 * 4 + c / 64) == b
    ensures Third(b % 16 * 4 + c / 64, c % 64) == c
  {
  }

  lemma {:induction false} BytesOfSextets(bs: seq<byte>)
    ensures Bytes(Sextets(bs)) == Some(bs)
  {
    if |bs| == 0 {
      assert bs == [];
    } else if |bs| == 1 {
      GroupRoundTrip(bs[0], 0, 0);
      assert bs == [bs[0]];
    } else if |bs| == 2 {
      GroupRoundTrip(bs[0], bs[1], 0);
      assert bs == [bs[0], bs[1]];
    } else {
      GroupRoundTrip(bs[0], bs[1], bs[2]);
      BytesOfSextets(bs[3..]);
      assert Sextets(bs)[4..] == Sextets(bs[3..]);
      assert bs == [bs[0], bs[1], bs[2]] + bs[3..];
    }
  }

  lemma {:induction false} StripPlain(s: string)
    requires forall i | 0 <= i < |s| :: s[i] != '\n' && s[i] != '\r'
    ensures Strip(s) == s
  {
    if s != "" {
      StripPlain(s[1..]);
    }
  }

  /** Decoding undoes encoding, and no encoding contains a dot. */
  lemma RoundTrip(bs: seq<byte>)
    ensures Decode(Encode(bs)) == Some(bs)
    ensures '.' !in Encode(bs)
  {
    var ss := Sextets(bs);
    forall i | 0 <= i < |ss|
      ensures Encode(bs)[i] != '.' && Encode(bs)[i] != '\n' && Encode(bs)[i] != '\r'
    {
      CharRoundTrip(ss[i]);
    }
    StripPlain(Encode(bs));
    ValuesOfChars(ss);
    BytesOfSextets(bs);
  }

  // ---------------------------------------------------------------- against RFC 4648

  /** Table 2 of RFC 4648, by character codes. */
  lemma AlphabetIs(i: sextet)
    ensures i < 26 ==> EncodeChar(i) as int == 65 + i
    ensures 26 <= i < 52 ==> EncodeChar(i) as int == 97 + (i - 26)
    ensures 52 <= i < 62 ==> EncodeChar(i) as int == 48 + (i - 52)
    ensures i == 62 ==> EncodeChar(i) as int == 45
    ensures i == 63 ==> EncodeChar(i) as int == 95
  {
  }

  /** `lo` appended to `hi` as one more digit of the given base. */
  function Push(hi: int, base: int, lo: int): int { hi * base + lo }

  /** Three bytes as one number, and four sextets as one number. */
  function OfBytes(a: byte, b: byte, c: byte): int { Push(Push(a, 256, b), 256, c) }
  function OfSextets(a: sextet, b: sextet, c: sextet, d: sextet): int { Push(Push(Push(a, 64, b), 64, c), 64, d) }

  /**
   * Section 4: a group of three bytes and its four sextets are the same 24-bit number, most significant first;
   * what is left over is filled with zero bits to whole sextets.
   */
  lemma GroupIsOneNumber(bs: seq<byte>)
    ensures var ss := Sextets(bs);
      && (|bs| == 0 ==> ss == [])
      && (|bs| == 1 ==> |ss| == 2 && OfSextets(ss[0], ss[1], 0, 0) == OfBytes(bs[0], 0, 0))
      && (|bs| == 2 ==> |ss| == 3 && OfSextets(ss[0], ss[1], ss[2], 0) == OfBytes(bs[0], bs[1], 0))
      && (|bs| >= 3 ==>
            && |ss| >= 4 && ss[4..] == Sextets(bs[3..])
            && OfSextets(ss[0], ss[1], ss[2], ss[3]) == OfBytes(bs[0], bs[1], bs[2]))
  {
  }

  lemma GroupDecodes(a: sextet, b: sextet, c: sextet, d: sextet)
    ensures OfBytes(First(a, b), Second(b, c), Third(c, d)) == OfSextets(a, b, c, d)
  {
  }

  /** A whole group decodes to the same number; less than a group to the whole bytes of what it starts. */
  lemma GroupReadsNumber(ss: seq<sextet>)
    ensures |ss| == 0 ==> Bytes(ss) == Some([])
    ensures |ss| == 1 ==> Bytes(ss) == None
    ensures |ss| == 2 ==>
      && Bytes(ss).Some? && |Bytes(ss).value| == 1
      && Bytes(ss).value[0] as int == OfSextets(ss[0], ss[1], 0, 0) / 0x1_0000
    ensures |ss| == 3 ==>
      && Bytes(ss).Some? && |Bytes(ss).value| == 2
      && Push(Bytes(ss).value[0], 256, Bytes(ss).value[1]) == OfSextets(ss[0], ss[1], ss[2], 0) / 0x100
    ensures |ss| >= 4 ==> (Bytes(ss).Some? <==> Bytes(ss[4..]).Some?)
    ensures |ss| >= 4 && Bytes(ss).Some? ==>
      var bs := Bytes(ss).value;
      && |bs| >= 3 && Bytes(ss[4..]) == Some(bs[3..])
      && OfBytes(bs[0], bs[1], bs[2]) == OfSextets(ss[0], ss[1], ss[2], ss[3])
  {
    if |ss| >= 4 {
      GroupDecodes(ss[0], ss[1], ss[2], ss[3]);
    } else if |ss| == 3 {
      GroupDecodes(ss[0], ss[1], ss[2], 0);
    } else if |ss| == 2 {
      GroupDecodes(ss[0], ss[1], 0, 0);
    }
  }

  predicate LineBreak(c: char) { c == '\n' || c == '\r' }

  predicate InAlphabet(c: char) {
    'A' <= c <= 'Z' || 'a' <= c <= 'z' || '0' <= c <= '9' || c == '-' || c == '_'
  }

  lemma {:induction false} ValuesExactly(s: string)
    ensures Values(s).Some? <==> Plain(s)
    ensures Values(s).Some? ==> |Values(s).value| == |s|
  {
    if s != "" {
      var n := |s| - 1;
      ValuesExactly(s[..n]);
      assert forall k | 0 <= k < n :: s[..n][k] == s[k];
    }
  }

  lemma {:induction false} BytesExactly(ss: seq<sextet>)
    ensures Bytes(ss).Some? <==> |ss| % 4 != 1
  {
    if |ss| >= 4 {
      BytesExactly(ss[4..]);
    }
  }

  ghost predicate Readable(s: string) { forall k | 0 <= k < |s| :: InAlphabet(s[k]) || LineBreak(s[k]) }

  ghost predicate Plain(s: string) { forall k | 0 <= k < |s| :: InAlphabet(s[k]) }

  lemma ReadableCons(c: char, s: string)
    ensures Readable([c] + s) <==> (InAlphabet(c) || LineBreak(c)) && Readable(s)
    ensures Plain([c] + s) <==> InAlphabet(c) && Plain(s)
  {
    var all := [c] + s;
    assert all[0] == c;
    assert forall k | 0 <= k < |s| :: s[k] == all[k + 1];
  }

  lemma {:induction false} StripKeeps(s: string)
    ensures Plain(Strip(s)) <==> Readable(s)
  {
    if s != "" {
      StripKeeps(s[1..]);
      ReadableCons(s[0], s[1..]);
      ReadableCons(s[0], Strip(s[1..]));
      assert s == [s[0]] + s[1..];
    }
  }

  /** Stripping takes out all line breaks and nothing else. */
  lemma {:induction false} StripTakesOut(s: string)
    ensures multiset(Strip(s)) == multiset(s)['\n' := 0]['\r' := 0]
  {
    if s != "" {
      StripTakesOut(s[1..]);
      assert s == [s[0]] + s[1..];
    }
  }

  /** A text decodes exactly when it has nothing but the alphabet and line breaks, and no single sextet is left. */
  lemma DecodesExactly(s: string)
    ensures Decode(s).Some?
      <==> Readable(s) && |Strip(s)| % 4 != 1
  {
    StripKeeps(s);
    ValuesExactly(Strip(s));
    if Values(Strip(s)).Some? {
      BytesExactly(Values(Strip(s)).value);
    }
  }
}
